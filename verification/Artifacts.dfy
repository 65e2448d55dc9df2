/** One file name, the hidden quarantine name beside it, and the atomic directory
    operations both compare-and-set implementations are built from. */
module Artifacts {

  /** What a directory entry holds; the content is everything the process compares. Odd is
      anything the reader refuses: a symbolic link, a directory, an oversized file, an owner
      that cannot be recorded. */
  datatype Artifact<C> = Absent | File(content: C) | Odd(what: nat)

  /** The final name and the quarantine name at one instant. */
  datatype Slot<C> = Slot(final: Artifact<C>, claimed: Artifact<C>)

  /** One directory mutation made by the process. */
  datatype Move<C> = Move(before: Slot<C>, after: Slot<C>)

  /** What may happen around the process: an administrator editing the final name
      between any two operations, and failing or interrupted operations. */
  datatype Env = Env(admin: bool, faults: bool)

  const Calm := Env(false, false)

  datatype Io = Ok | Missing | Exists | Broken | Dead

  /** Result of a whole call. Crashed is not a result the caller sees: the process is gone. */
  datatype Outcome = Done | Changed | Failed | Crashed

  datatype Reading<C> = Value(state: Artifact<C>, quarantined: bool) | Refused

  /** The value the two names stand for together. */
  function View<C>(s: Slot<C>): Artifact<C> {
    if s.final.Absent? then s.claimed else s.final
  }

  /** The read that recognises a quarantine left by an interrupted call. */
  function Logical<C(==)>(s: Slot<C>, expected: seq<Artifact<C>>): Reading<C> {
    if s.final.Odd? || s.claimed.Odd? then Refused
    else if s.claimed.Absent? then Value(s.final, false)
    else if s.claimed !in expected then Refused
    else if s.final.Absent? then Value(s.claimed, true)
    else Value(s.final, true)
  }

  /** One process step seen through View: nothing, or an expected value gives way to the desired one. */
  predicate Atomic<C(==)>(m: Move<C>, expected: seq<Artifact<C>>, desired: Artifact<C>) {
    || View(m.after) == View(m.before)
    || (View(m.before) in expected && View(m.after) == desired)
  }

  /** Retiring the quarantine after the final name has vanished again. */
  predicate LateRetire<C(==)>(m: Move<C>, expected: seq<Artifact<C>>) {
    m.before.final.Absent? && m.before.claimed in expected && m.after == Slot(Absent, Absent)
  }

  /** A value outside the expected list is still under one of the two names afterwards. */
  predicate KeepsForeign<C(==)>(m: Move<C>, expected: seq<Artifact<C>>) {
    && (m.before.final.Absent? || m.before.final in expected || m.before.final in {m.after.final, m.after.claimed})
    && (m.before.claimed.Absent? || m.before.claimed in expected
         || m.before.claimed in {m.after.final, m.after.claimed})
  }

  predicate GoodMove<C(==)>(m: Move<C>, expected: seq<Artifact<C>>, desired: Artifact<C>) {
    KeepsForeign(m, expected) && (Atomic(m, expected, desired) || LateRetire(m, expected))
  }

  /** The value that counts after the administrator's edits: their last one, if there are any. */
  function Latest<C>(view: Artifact<C>, edits: seq<Artifact<C>>, n: nat): Artifact<C>
    requires n <= |edits|
  {
    if |edits| == n then view else edits[|edits| - 1]
  }

  /** The administrator's last edit, if there is one, is not a deletion. */
  predicate Undeleted<C>(edits: seq<Artifact<C>>, n: nat) {
    n < |edits| ==> !edits[|edits| - 1].Absent?
  }

  /** The two names, every administrator edit and every process move up to one instant. */
  datatype History<C> = History(slot: Slot<C>, edits: seq<Artifact<C>>, moves: seq<Move<C>>)

  /** The register law for the stretch of execution from h0 to h: the names stand for the
      latest value, or for the desired one in place of an expected latest value. */
  ghost predicate Linear<C>(h0: History<C>, h: History<C>, expected: seq<Artifact<C>>, desired: Artifact<C>) {
    && |h0.edits| <= |h.edits|
    && (Undeleted(h.edits, |h0.edits|) ==>
          var latest := Latest(View(h0.slot), h.edits, |h0.edits|);
          View(h.slot) == latest || (latest in expected && View(h.slot) == desired))
  }

  ghost predicate From<C>(a: Artifact<C>, h0: History<C>, h: History<C>, desired: Artifact<C>)
    requires |h0.edits| <= |h.edits|
  {
    a.Absent? || a == h0.slot.final || a == h0.slot.claimed || a == desired || a in h.edits[|h0.edits|..]
  }

  predicate Stored<C(==)>(a: Artifact<C>, s: Slot<C>) {
    a.Absent? || a == s.final || a == s.claimed
  }

  /** No value outside the expected list is lost: not one that was there, unless the administrator
      edited since, and never the administrator's last edit. */
  ghost predicate Safekept<C>(h0: History<C>, h: History<C>, expected: seq<Artifact<C>>) {
    if h.edits == h0.edits then
      && (h0.slot.final in expected || Stored(h0.slot.final, h.slot))
      && (h0.slot.claimed in expected || Stored(h0.slot.claimed, h.slot))
    else
      h0.edits <= h.edits && (h.edits[|h.edits| - 1] in expected || Stored(h.edits[|h.edits| - 1], h.slot))
  }

  /** Every process move since h0 was a good one; without an administrator every one was atomic. */
  ghost predicate GoodMoves<C>(h0: History<C>, h: History<C>, env: Env, expected: seq<Artifact<C>>,
                               desired: Artifact<C>) {
    && h0.moves <= h.moves
    && (forall i :: |h0.moves| <= i < |h.moves| ==> GoodMove(h.moves[i], expected, desired))
    && (!env.admin ==> forall i :: |h0.moves| <= i < |h.moves| ==> Atomic(h.moves[i], expected, desired))
  }

  /** Every value that was ever under the final name came from somewhere known. */
  ghost predicate MovesFrom<C>(h0: History<C>, h: History<C>, desired: Artifact<C>) {
    && |h0.edits| <= |h.edits|
    && forall i :: |h0.moves| <= i < |h.moves| ==> From(h.moves[i].after.final, h0, h, desired)
  }

  /** Undisturbed, a desired value that was once in place and is not itself replaceable is still there. */
  ghost predicate Sticky<C>(h0: History<C>, h: History<C>, env: Env, expected: seq<Artifact<C>>, desired: Artifact<C>) {
    !env.admin && desired !in expected ==>
      forall i :: |h0.moves| <= i < |h.moves| && h.moves[i].after.final == desired ==> Stored(desired, h.slot)
  }

  /** Nothing vanishes from view unless it was deleted, or deleting was the point. */
  ghost predicate Lasting<C>(h0: History<C>, h: History<C>, desired: Artifact<C>) {
    && |h0.edits| <= |h.edits|
    && (View(h.slot).Absent? ==> View(h0.slot).Absent? || desired.Absent? || !Undeleted(h.edits, |h0.edits|))
  }

  /** What a compare-and-set call keeps at every instant of its execution. */
  ghost predicate Kept<C>(h0: History<C>, h: History<C>, env: Env, expected: seq<Artifact<C>>, desired: Artifact<C>) {
    && h0.edits <= h.edits
    && (!env.admin ==> h.edits == h0.edits)
    && GoodMoves(h0, h, env, expected, desired)
    && Linear(h0, h, expected, desired)
    && Safekept(h0, h, expected)
    && Lasting(h0, h, desired)
    && MovesFrom(h0, h, desired)
    && Sticky(h0, h, env, expected, desired)
    && From(h.slot.final, h0, h, desired)
    && From(h.slot.claimed, h0, h, desired)
  }

  /** From h the administrator led to the slot `middle`, then the process moved to `target` or did not. */
  ghost predicate StepTo<C>(h: History<C>, h': History<C>, env: Env, middle: Slot<C>, target: Slot<C>, applied: bool) {
    && h.edits <= h'.edits
    && (h'.edits == h.edits ==> middle.final == h.slot.final)
    && (h'.edits != h.edits ==> env.admin && middle.final == h'.edits[|h'.edits| - 1])
    && middle.claimed == h.slot.claimed
    && h'.slot == (if applied then target else middle)
    && h'.moves == h.moves + (if applied then [Move(middle, target)] else [])
  }

  lemma TurnKeeps<C>(h0: History<C>, h: History<C>, h': History<C>, env: Env, expected: seq<Artifact<C>>,
                     desired: Artifact<C>)
    requires Kept(h0, h, env, expected, desired)
    requires StepTo(h, h', env, h'.slot, h'.slot, false)
    ensures Kept(h0, h', env, expected, desired)
  {
    var n := |h0.edits|;
    assert h'.edits[n..|h.edits|] == h.edits[n..];
    assert forall a :: a in h.edits[n..] ==> a in h'.edits[n..];
    if h'.edits != h.edits {
      assert h'.edits[|h'.edits| - 1] in h'.edits[n..];
    }
  }

  lemma StepKeeps<C>(h0: History<C>, h: History<C>, h': History<C>, env: Env, middle: Slot<C>, target: Slot<C>,
                     applied: bool,
                     expected: seq<Artifact<C>>, desired: Artifact<C>)
    requires Kept(h0, h, env, expected, desired)
    requires StepTo(h, h', env, middle, target, applied)
    requires applied ==> GoodMove(Move(middle, target), expected, desired)
    requires applied && (!env.admin || Undeleted(h'.edits, |h0.edits|)) ==>
             Atomic(Move(middle, target), expected, desired)
    requires forall a :: a in {target.final, target.claimed} ==>
             a.Absent? || a == desired || a == middle.final || a == middle.claimed
    ensures Kept(h0, h', env, expected, desired)
  {
    TurnKeeps(h0, h, History(middle, h'.edits, h.moves), env, expected, desired);
  }

  /** Every slot an undisturbed call can leave behind, wherever it is cut short. */
  predicate Resumable<C(==)>(s: Slot<C>, expected: seq<Artifact<C>>, desired: Artifact<C>) {
    if s.claimed.Absent? then s.final in expected || s.final == desired
    else s.claimed in expected && (s.final.Absent? || (desired.File? && (s.final in expected || s.final == desired)))
  }

  /** A directory as one process and one administrator share it. */
  class Directory<C(==,!new)> {
    var final: Artifact<C>
    var quarantine: Artifact<C>
    ghost var moves: seq<Move<C>>
    ghost var edits: seq<Artifact<C>>

    constructor (initial: Artifact<C>)
      ensures Now() == Slot(initial, Absent)
      ensures moves == [] && edits == []
    {
      final, quarantine := initial, Absent;
      moves, edits := [], [];
    }

    function Now(): Slot<C>
      reads this
    {
      Slot(final, quarantine)
    }

    ghost function Past(): History<C>
      reads this
    {
      History(Now(), edits, moves)
    }

    /** Any number of administrator edits to the final name. */
    method AdminTurn(env: Env)
      modifies `final, `edits
      ensures StepTo(old(Past()), Past(), env, Now(), Now(), false)
    {
      if env.admin {
        var more: seq<Artifact<C>> := *;
        if more != [] {
          final := more[|more| - 1];
          edits := edits + more;
        }
      }
    }

    method Read(env: Env, hidden: bool) returns (a: Artifact<C>)
      modifies `final, `edits
      ensures StepTo(old(Past()), Past(), env, Now(), Now(), false)
      ensures a == if hidden then quarantine else final
    {
      AdminTurn(env);
      a := if hidden then quarantine else final;
    }

    /** A broken operation, or the death of the process, at any point where faults may happen. */
    method Trouble(env: Env) returns (io: Io)
      ensures io in {Ok, Broken, Dead}
      ensures io != Ok ==> env.faults
    {
      io := Ok;
      if env.faults {
        if * { io := Broken; } else if * { io := Dead; }
      }
    }

    /** Renames the final name to the quarantine name, replacing nothing. */
    method Claim(env: Env) returns (io: Io, ghost middle: Slot<C>, ghost applied: bool)
      modifies this
      ensures StepTo(old(Past()), Past(), env, middle, Slot(Absent, middle.final), applied)
      ensures applied ==> !middle.final.Absent? && middle.claimed.Absent?
      ensures io.Ok? ==> applied
      ensures io.Missing? ==> !applied && middle.final.Absent?
      ensures io.Exists? ==> !applied && !middle.final.Absent? && !middle.claimed.Absent?
      ensures io.Broken? || io.Dead? ==> env.faults
    {
      AdminTurn(env);
      middle, applied := Now(), false;
      io := Trouble(env);
      if io.Ok? {
        if final.Absent? { return Missing, middle, false; }
        if !quarantine.Absent? { return Exists, middle, false; }
        applied := true;
        moves := moves + [Move(middle, Slot(Absent, final))];
        final, quarantine := Absent, final;
        io := Trouble(env);
      }
    }

    /** Writes a complete new file and links it to the final name, replacing nothing. */
    method Install(env: Env, desired: Artifact<C>) returns (io: Io, ghost middle: Slot<C>, ghost applied: bool)
      modifies this
      ensures StepTo(old(Past()), Past(), env, middle, Slot(desired, middle.claimed), applied)
      ensures applied ==> middle.final.Absent?
      ensures io.Ok? ==> applied
      ensures io.Exists? ==> !applied && !middle.final.Absent?
      ensures io.Broken? || io.Dead? ==> env.faults
      ensures !io.Missing?
    {
      AdminTurn(env);
      middle, applied := Now(), false;
      io := Trouble(env);
      if io.Ok? {
        if !final.Absent? { return Exists, middle, false; }
        applied := true;
        moves := moves + [Move(middle, Slot(desired, quarantine))];
        final := desired;
        io := Trouble(env);
      }
    }

    /** Renames the quarantine name back to the final name, replacing nothing. */
    method PutBack(env: Env) returns (io: Io, ghost middle: Slot<C>, ghost applied: bool)
      modifies this
      ensures StepTo(old(Past()), Past(), env, middle, Slot(middle.claimed, Absent), applied)
      ensures applied ==> middle.final.Absent? && !middle.claimed.Absent?
      ensures io.Ok? ==> applied
      ensures io.Missing? ==> !applied && middle.claimed.Absent?
      ensures io.Exists? ==> !applied && !middle.final.Absent?
      ensures io.Broken? || io.Dead? ==> env.faults
    {
      AdminTurn(env);
      middle, applied := Now(), false;
      io := Trouble(env);
      if io.Ok? {
        if quarantine.Absent? { return Missing, middle, false; }
        if !final.Absent? { return Exists, middle, false; }
        applied := true;
        moves := moves + [Move(middle, Slot(quarantine, Absent))];
        final, quarantine := quarantine, Absent;
        io := Trouble(env);
      }
    }

    /** Unlinks the quarantine name. */
    method Retire(env: Env) returns (io: Io, ghost middle: Slot<C>, ghost applied: bool)
      modifies this
      ensures StepTo(old(Past()), Past(), env, middle, Slot(middle.final, Absent), applied)
      ensures applied ==> !middle.claimed.Absent?
      ensures io.Ok? ==> applied
      ensures io.Missing? ==> !applied && middle.claimed.Absent?
      ensures io.Broken? || io.Dead? ==> env.faults
      ensures !io.Exists?
    {
      AdminTurn(env);
      middle, applied := Now(), false;
      io := Trouble(env);
      if io.Ok? {
        if quarantine.Absent? { return Missing, middle, false; }
        applied := true;
        moves := moves + [Move(middle, Slot(final, Absent))];
        quarantine := Absent;
        io := Trouble(env);
      }
    }
  }

  /** Interrupted and repeated calls still behave as one register. */
  lemma CallsCompose<C>(h0: History<C>, h1: History<C>, h2: History<C>, expected: seq<Artifact<C>>,
                        desired: Artifact<C>)
    requires h0.edits <= h1.edits <= h2.edits
    requires Linear(h0, h1, expected, desired) && Linear(h1, h2, expected, desired)
    ensures Linear(h0, h2, expected, desired)
  {
    if h2.edits == h1.edits {
    } else {
      assert Latest(View(h1.slot), h2.edits, |h1.edits|) == Latest(View(h0.slot), h2.edits, |h0.edits|);
    }
  }
}
