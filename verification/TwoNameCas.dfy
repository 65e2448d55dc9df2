/** Compare-and-set of one privileged file through a quarantine name. */
module TwoNameCas {
  import opened Artifacts

  const MAX_ATTEMPTS := 8

  /** What one turn of a retry loop decides. */
  datatype Verdict = Retry(claimedInCall: bool) | Stop(outcome: Outcome)

  /** The outcome and slot of an undisturbed write, or of an undisturbed removal when the
      desired value is Absent. It succeeds exactly from the slots an undisturbed call can
      leave behind. */
  function CalmCas<C(==)>(s: Slot<C>, expected: seq<Artifact<C>>, desired: Artifact<C>): (r: (Outcome, Slot<C>))
    ensures Readable(expected, desired) ==> (r.0.Done? <==> Resumable(s, expected, desired))
    ensures r.0.Done? ==> r.1 == Slot(desired, Absent)
    ensures !r.0.Done? ==> View(r.1) == View(s) && (r.1.final == View(s) || (s.claimed.Odd? && r.1 == s))
  {
    if s.claimed.Absent? then
      if s.final.Odd? then (Failed, s)
      else if s.final == desired then (Done, s)
      else if s.final in expected then (Done, Slot(desired, Absent))
      else (Changed, s)
    else if s.claimed.Odd? || s.final.Odd? then (Changed, s)
    else if s.claimed !in expected then (Changed, if s.final.Absent? then Slot(s.claimed, Absent) else s)
    else if s.final.Absent? || (desired.File? && (s.final in expected || s.final == desired))
        then (Done, Slot(desired, Absent))
    else (Changed, Slot(s.final, Absent))
  }

  /** Turns a loop can still need before an undisturbed write settles. */
  function TurnsLeft<C(==)>(s: Slot<C>, desired: Artifact<C>): nat {
    if s.final.Absent? || s.final == desired then 1
    else if s.claimed.Absent? then 2
    else 3
  }

  /** No quarantine is left, and the final name holds the desired value or the
      administrator's last edit of this call. */
  ghost predicate Landed<C>(h0: History<C>, h: History<C>, desired: Artifact<C>) {
    && h.slot.claimed.Absent?
    && |h0.edits| <= |h.edits|
    && (h.slot.final == desired || h.slot.final == Latest(desired, h.edits, |h0.edits|))
  }

  /** What every call ensures about the stretch h0..h, and the outcome o it reports. */
  ghost predicate CasEffect<C>(h0: History<C>, h: History<C>, env: Env, o: Outcome,
                                 expected: seq<Artifact<C>>, desired: Artifact<C>) {
    && Kept(h0, h, env, expected, desired)
    && (o.Done? ==> Landed(h0, h, desired))
    && (!env.admin && Resumable(h0.slot, expected, desired) ==> Resumable(h.slot, expected, desired) && !o.Changed?)
    && (env == Calm ==> (o, h.slot) == CalmCas(h0.slot, expected, desired))
  }

  /** What one turn from h to h' keeps, inside a call that began at h0. */
  ghost predicate TurnEffect<C>(h0: History<C>, h: History<C>, h': History<C>, env: Env, v: Verdict,
                                expected: seq<Artifact<C>>, desired: Artifact<C>) {
    && Kept(h0, h', env, expected, desired)
    && (v == Stop(Done) ==> Landed(h0, h', desired))
    && (!env.admin ==>
          && (Resumable(h.slot, expected, desired) ==> Resumable(h'.slot, expected, desired) && v != Stop(Changed))
          && (v.Retry? ==>
                && TurnsLeft(h'.slot, desired) < TurnsLeft(h.slot, desired)
                && (v.claimedInCall ==> h'.slot.final.Absent? && h'.slot.claimed.File? && h'.slot.claimed in expected)
                && CalmCas(h'.slot, expected, desired) == CalmCas(h.slot, expected, desired)))
    && (env == Calm && v.Stop? ==> (v.outcome, h'.slot) == CalmCas(h.slot, expected, desired))
    && (!env.faults && v.Stop? ==> !Hidden(h'.slot, expected))
  }

  /** A file the call may not touch is in quarantine, and nothing stands in its place. */
  predicate Hidden<C(==)>(s: Slot<C>, expected: seq<Artifact<C>>) {
    s.final.Absent? && s.claimed.File? && s.claimed !in expected
  }

  predicate Readable<C(==)>(expected: seq<Artifact<C>>, desired: Artifact<C>) {
    !desired.Odd? && forall e :: e in expected ==> !e.Odd?
  }

  // The course of a call, step by step, for calls that succeed.

  /** The administrator may act, and the process only looks. */
  ghost predicate Looks<C>(h: History<C>, h': History<C>, env: Env) {
    StepTo(h, h', env, h'.slot, h'.slot, false)
  }

  ghost predicate Claims<C(!new)>(h: History<C>, h': History<C>, env: Env) {
    exists m: Slot<C> :: !m.final.Absent? && m.claimed.Absent? && StepTo(h, h', env, m, Slot(Absent, m.final), true)
  }

  ghost predicate Installs<C(!new)>(h: History<C>, h': History<C>, env: Env, desired: Artifact<C>) {
    exists m: Slot<C> :: m.final.Absent? && StepTo(h, h', env, m, Slot(desired, m.claimed), true)
  }

  ghost predicate Retires<C(!new)>(h: History<C>, h': History<C>, env: Env) {
    exists m: Slot<C> :: !m.claimed.Absent? && StepTo(h, h', env, m, Slot(m.final, Absent), true)
  }

  /** Installing beside a quarantine, and then retiring it. */
  ghost predicate Replaces<C(!new)>(h: History<C>, h': History<C>, env: Env, desired: Artifact<C>) {
    exists g: History<C> :: Installs(h, g, env, desired) && Retires(g, h', env)
  }

  /** What a turn that saw the slot of h may do to finish the call. */
  ghost predicate Finishes<C(!new)>(h: History<C>, h': History<C>, env: Env, expected: seq<Artifact<C>>,
                                    desired: Artifact<C>) {
    if h.slot.claimed.Absent? then
      || (h.slot.final == desired && h' == h)
      || (desired.File? && h.slot.final.Absent? && Absent in expected && Installs(h, h', env, desired))
    else
      && h.slot.claimed in expected
      && ((h.slot.final == desired && Retires(h, h', env))
          || (desired.File? && h.slot.final.Absent? && Replaces(h, h', env, desired)))
  }

  /** What a turn that saw the slot of h may do before another turn. */
  ghost predicate GoesOn<C(!new)>(h: History<C>, h': History<C>, env: Env, expected: seq<Artifact<C>>,
                                  desired: Artifact<C>) {
    && h.slot.final in expected && h.slot.final != desired
    && (Looks(h, h', env) || Claims(h, h', env) || Retires(h, h', env))
  }

  /** Every turn looks at the quarantine first and at the final name then. */
  ghost predicate LastTurn<C(!new)>(h: History<C>, h': History<C>, env: Env, expected: seq<Artifact<C>>,
                                    desired: Artifact<C>) {
    exists f: History<C>, g: History<C> :: Looks(h, f, env) && Looks(f, g, env)
        && Finishes(g, h', env, expected, desired)
  }

  ghost predicate OtherTurn<C(!new)>(h: History<C>, h': History<C>, env: Env, expected: seq<Artifact<C>>,
                                     desired: Artifact<C>) {
    exists f: History<C>, g: History<C> :: Looks(h, f, env) && Looks(f, g, env)
        && GoesOn(g, h', env, expected, desired)
  }

  ghost predicate Turns<C(!new)>(n: nat, h: History<C>, h': History<C>, env: Env, expected: seq<Artifact<C>>,
                                 desired: Artifact<C>) {
    if n == 0 then h' == h
    else
      exists g: History<C> ::
        Turns(n - 1, h, g, env, expected, desired) && OtherTurn(g, h', env, expected, desired)
  }

  /** The course of a successful call within the retry limit. */
  ghost predicate Completes<C(!new)>(h: History<C>, h': History<C>, env: Env, expected: seq<Artifact<C>>,
                                     desired: Artifact<C>) {
    exists n: nat, g: History<C> :: n < MAX_ATTEMPTS && Turns(n, h, g, env, expected, desired)
        && LastTurn(g, h', env, expected, desired)
  }

  lemma NoTurns<C(!new)>(h: History<C>, env: Env, expected: seq<Artifact<C>>, desired: Artifact<C>)
    ensures Turns(0, h, h, env, expected, desired)
  {
  }

  lemma LastTurnIs<C(!new)>(n: nat, h0: History<C>, h: History<C>, f: History<C>, g: History<C>, h': History<C>,
                            env: Env,
                            expected: seq<Artifact<C>>, desired: Artifact<C>)
    requires n < MAX_ATTEMPTS && Turns(n, h0, h, env, expected, desired)
    requires Looks(h, f, env) && Looks(f, g, env) && Finishes(g, h', env, expected, desired)
    ensures LastTurn(h, h', env, expected, desired) && Completes(h0, h', env, expected, desired)
  {
  }

  lemma OtherTurnIs<C(!new)>(n: nat, h0: History<C>, h: History<C>, f: History<C>, g: History<C>, h': History<C>,
                             env: Env, expected: seq<Artifact<C>>, desired: Artifact<C>)
    requires Turns(n, h0, h, env, expected, desired)
    requires Looks(h, f, env) && Looks(f, g, env) && GoesOn(g, h', env, expected, desired)
    ensures Turns(n + 1, h0, h', env, expected, desired)
  {
    assert OtherTurn(h, h', env, expected, desired);
  }

  /** The quarantine holds something this call may not touch: put it back if nothing took its place. */
  method Mismatch<C(==,!new)>(d: Directory<C>, env: Env, seenFinal: Artifact<C>,
                              expected: seq<Artifact<C>>, desired: Artifact<C>, ghost h0: History<C>)
    returns (v: Verdict)
    requires Kept(h0, d.Past(), env, expected, desired)
    requires !desired.Odd? && d.quarantine.File? && d.quarantine !in expected && !seenFinal.Odd?
    requires seenFinal == d.final
    modifies d
    ensures TurnEffect(h0, old(d.Past()), d.Past(), env, v, expected, desired)
    ensures v.Stop? && !v.outcome.Done?
  {
    v := Stop(Changed);
    if seenFinal.Absent? {
      ghost var h := d.Past();
      var io, middle, applied := d.PutBack(env);
      StepKeeps(h0, h, d.Past(), env, middle, Slot(middle.claimed, Absent), applied, expected, desired);
      if io.Dead? { v := Stop(Crashed); }
    }
  }

  /** Unlinks a quarantine whose content is expected, then reports `then`. */
  method RetireThen<C(==,!new)>(d: Directory<C>, env: Env, expected: seq<Artifact<C>>, desired: Artifact<C>,
                                after: Verdict, ghost h0: History<C>) returns (v: Verdict)
    requires Kept(h0, d.Past(), env, expected, desired)
    requires !d.quarantine.Absent? && d.quarantine in expected
    requires !env.admin || Undeleted(d.edits, |h0.edits|) ==> !d.final.Absent? || desired.Absent?
    requires after !in {Stop(Failed), Stop(Crashed)}
    modifies d
    ensures Kept(h0, d.Past(), env, expected, desired)
    ensures v == after || v in {Stop(Failed), Stop(Crashed)}
    ensures v == after ==> d.quarantine.Absent? && Retires(old(d.Past()), d.Past(), env)
    ensures old(d.edits) <= d.edits && d.final == Latest(old(d.final), d.edits, |old(d.edits)|)
    ensures d.quarantine in {Absent, old(d.quarantine)}
    ensures env == Calm ==> v == after
  {
    ghost var h := d.Past();
    var io, middle, applied := d.Retire(env);
    StepKeeps(h0, h, d.Past(), env, middle, Slot(middle.final, Absent), applied, expected, desired);
    v := if io.Ok? then after else if io.Dead? then Stop(Crashed) else Stop(Failed);
  }

  /** The turn that finds an expected quarantine and no final name: install, then retire. */
  method Replace<C(==,!new)>(d: Directory<C>, env: Env, expected: seq<Artifact<C>>, desired: Artifact<C>,
                             ghost h0: History<C>) returns (v: Verdict)
    requires Kept(h0, d.Past(), env, expected, desired)
    requires desired.File? && d.quarantine.File? && d.quarantine in expected
    requires !env.admin ==> d.final.Absent?
    modifies d
    ensures TurnEffect(h0, old(d.Past()), d.Past(), env, v, expected, desired)
    ensures v.Stop? && (v.outcome.Done? ==> Replaces(old(d.Past()), d.Past(), env, desired))
  {
    ghost var h := d.Past();
    var io, middle, applied := d.Install(env, desired);
    StepKeeps(h0, h, d.Past(), env, middle, Slot(desired, middle.claimed), applied, expected, desired);
    if io.Ok? {
      v := RetireThen(d, env, expected, desired, Stop(Done), h0);
    } else if io.Exists? {
      v := RetireThen(d, env, expected, desired, Stop(Changed), h0);
    } else if io.Dead? {
      v := Stop(Crashed);
    } else {
      ghost var h1 := d.Past();
      var back, middle', applied' := d.PutBack(env);
      StepKeeps(h0, h1, d.Past(), env, middle', Slot(middle'.claimed, Absent), applied', expected, desired);
      v := Stop(if back.Dead? then Crashed else Failed);
    }
  }

  /** The turn that starts with a quarantine. */
  method ClaimedTurn<C(==,!new)>(d: Directory<C>, env: Env, expected: seq<Artifact<C>>, desired: Artifact<C>,
                                 claimed: Artifact<C>, claimedInCall: bool, ghost h0: History<C>)
    returns (v: Verdict, ghost seen: History<C>)
    requires Kept(h0, d.Past(), env, expected, desired)
    requires Readable(expected, desired) && desired.File? && !claimed.Absent? && claimed == d.quarantine
    requires !env.admin && claimedInCall ==> d.final.Absent? && claimed in expected
    modifies d
    ensures TurnEffect(h0, old(d.Past()), d.Past(), env, v, expected, desired)
    ensures Looks(old(d.Past()), seen, env)
    ensures v == Stop(Done) ==> Finishes(seen, d.Past(), env, expected, desired)
    ensures v.Retry? ==> GoesOn(seen, d.Past(), env, expected, desired)
  {
    ghost var h := d.Past();
    var final := d.Read(env, false);
    seen := d.Past();
    TurnKeeps(h0, h, d.Past(), env, expected, desired);
    if claimed.Odd? || final.Odd? {
      v := Stop(Changed);
    } else if claimed !in expected {
      v := Mismatch(d, env, final, expected, desired, h0);
    } else if final.Absent? {
      v := Replace(d, env, expected, desired, h0);
    } else if !claimedInCall && final == desired {
      v := RetireThen(d, env, expected, desired, Stop(Done), h0);
    } else if !claimedInCall && final in expected {
      v := RetireThen(d, env, expected, desired, Retry(false), h0);
    } else {
      v := RetireThen(d, env, expected, desired, Stop(Changed), h0);
    }
  }

  /** The turn that starts without a quarantine. */
  method FreshTurn<C(==,!new)>(d: Directory<C>, env: Env, expected: seq<Artifact<C>>, desired: Artifact<C>,
                               claimedInCall: bool, ghost h0: History<C>) returns (v: Verdict, ghost seen: History<C>)
    requires Kept(h0, d.Past(), env, expected, desired)
    requires Readable(expected, desired) && desired.File? && d.quarantine.Absent?
    requires !env.admin ==> !claimedInCall
    modifies d
    ensures TurnEffect(h0, old(d.Past()), d.Past(), env, v, expected, desired)
    ensures Looks(old(d.Past()), seen, env)
    ensures v == Stop(Done) ==> Finishes(seen, d.Past(), env, expected, desired)
    ensures v.Retry? ==> GoesOn(seen, d.Past(), env, expected, desired)
  {
    ghost var h := d.Past();
    var final := d.Read(env, false);
    seen := d.Past();
    TurnKeeps(h0, h, d.Past(), env, expected, desired);
    if final.Odd? { return Stop(Failed), seen; }
    if final == desired { return Stop(Done), seen; }
    if final !in expected { return Stop(Changed), seen; }
    h := d.Past();
    if final.Absent? {
      var io, middle, applied := d.Install(env, desired);
      StepKeeps(h0, h, d.Past(), env, middle, Slot(desired, middle.claimed), applied, expected, desired);
      v := if io.Ok? then Stop(Done) else if io.Exists? then Retry(claimedInCall)
           else if io.Dead? then Stop(Crashed) else Stop(Failed);
    } else {
      var io, middle, applied := d.Claim(env);
      StepKeeps(h0, h, d.Past(), env, middle, Slot(Absent, middle.final), applied, expected, desired);
      v := if io.Ok? then Retry(true) else if io.Missing? || io.Exists? then Retry(claimedInCall)
           else if io.Dead? then Stop(Crashed) else Stop(Failed);
    }
  }

  /** One turn of a write. */
  method WriteTurn<C(==,!new)>(d: Directory<C>, env: Env, expected: seq<Artifact<C>>, desired: Artifact<C>,
                               claimedInCall: bool, ghost h0: History<C>)
    returns (v: Verdict, ghost first: History<C>, ghost seen: History<C>)
    requires Kept(h0, d.Past(), env, expected, desired)
    requires Readable(expected, desired) && desired.File?
    requires !env.admin && claimedInCall ==> d.final.Absent? && d.quarantine in expected && !d.quarantine.Absent?
    modifies d
    ensures TurnEffect(h0, old(d.Past()), d.Past(), env, v, expected, desired)
    ensures Looks(old(d.Past()), first, env) && Looks(first, seen, env)
    ensures v == Stop(Done) ==> Finishes(seen, d.Past(), env, expected, desired)
    ensures v.Retry? ==> GoesOn(seen, d.Past(), env, expected, desired)
  {
    hide Finishes;
    hide GoesOn;
    ghost var h := d.Past();
    var claimed := d.Read(env, true);
    first := d.Past();
    TurnKeeps(h0, h, d.Past(), env, expected, desired);
    if !claimed.Absent? {
      v, seen := ClaimedTurn(d, env, expected, desired, claimed, claimedInCall, h0);
    } else {
      v, seen := FreshTurn(d, env, expected, desired, claimedInCall, h0);
    }
  }

  /** Replaces an expected value of the final name by the desired one. */
  method WriteCas<C(==,!new)>(d: Directory<C>, env: Env, expected: seq<Artifact<C>>, desired: Artifact<C>)
    returns (o: Outcome)
    requires Readable(expected, desired)
    modifies d
    ensures desired.Absent? ==> o.Failed? && d.Past() == old(d.Past())
    ensures desired.File? ==> CasEffect(old(d.Past()), d.Past(), env, o, expected, desired)
    ensures o.Done? ==> Completes(old(d.Past()), d.Past(), env, expected, desired)
    ensures env == Calm && desired.File? && !o.Done? && !old(d.quarantine).Odd? ==> d.final == View(old(d.Now()))
    ensures desired.File? && !env.faults && Hidden(d.Now(), expected) ==>
              Turns(MAX_ATTEMPTS, old(d.Past()), d.Past(), env, expected, desired)
  {
    hide Completes;
    hide Turns;
    hide Finishes;
    hide GoesOn;
    hide Looks;
    if desired.Absent? { return Failed; }
    ghost var h0 := d.Past();
    var claimedInCall, attempt := false, 0;
    NoTurns(h0, env, expected, desired);
    while attempt < MAX_ATTEMPTS
      invariant 0 <= attempt <= MAX_ATTEMPTS
      invariant Kept(h0, d.Past(), env, expected, desired) && Turns(attempt, h0, d.Past(), env, expected, desired)
      invariant !env.admin ==>
                  && (claimedInCall ==> d.final.Absent? && d.quarantine in expected && !d.quarantine.Absent?)
                  && attempt + TurnsLeft(d.Now(), desired) <= 3
                  && CalmCas(d.Now(), expected, desired) == CalmCas(h0.slot, expected, desired)
                  && (Resumable(h0.slot, expected, desired) ==> Resumable(d.Now(), expected, desired))
    {
      ghost var h := d.Past();
      var v;
      ghost var first, seen;
      v, first, seen := WriteTurn(d, env, expected, desired, claimedInCall, h0);
      match v {
        case Stop(outcome) =>
          if outcome.Done? { LastTurnIs(attempt, h0, h, first, seen, d.Past(), env, expected, desired); }
          return outcome;
        case Retry(c) =>
          OtherTurnIs(attempt, h0, h, first, seen, d.Past(), env, expected, desired);
          claimedInCall := c;
      }
      attempt := attempt + 1;
    }
    o := Changed;
  }

  /** One turn of a removal. */
  method RemoveTurn<C(==,!new)>(d: Directory<C>, env: Env, expected: seq<Artifact<C>>, ghost h0: History<C>)
    returns (v: Verdict, removed: bool, ghost first: History<C>, ghost seen: History<C>)
    requires Kept(h0, d.Past(), env, expected, Absent)
    requires Readable(expected, Absent)
    modifies d
    ensures TurnEffect(h0, old(d.Past()), d.Past(), env, v, expected, Absent)
    ensures Looks(old(d.Past()), first, env) && Looks(first, seen, env)
    ensures v == Stop(Done) ==> Finishes(seen, d.Past(), env, expected, Absent)
    ensures v.Retry? ==> GoesOn(seen, d.Past(), env, expected, Absent)
    ensures !env.admin && v.Retry? ==> View(d.Now()) == View(old(d.Now()))
    ensures !env.admin && v == Stop(Done) ==> removed == !View(old(d.Now())).Absent?
  {
    ghost var h := d.Past();
    removed := false;
    var claimed := d.Read(env, true);
    TurnKeeps(h0, h, d.Past(), env, expected, Absent);
    h := d.Past();
    first := h;
    var final := d.Read(env, false);
    seen := d.Past();
    TurnKeeps(h0, h, d.Past(), env, expected, Absent);
    if claimed.Odd? || (!claimed.Absent? && final.Odd?) {
      v := Stop(Changed);
    } else if !claimed.Absent? {
      if claimed !in expected {
        v := Mismatch(d, env, final, expected, Absent, h0);
      } else if !final.Absent? {
        v := RetireThen(d, env, expected, Absent, Stop(Changed), h0);
      } else {
        v := RetireThen(d, env, expected, Absent, Stop(Done), h0);
        removed := true;
      }
    } else if final.Odd? {
      v := Stop(Failed);
    } else if final.Absent? {
      v := Stop(Done);
    } else if final !in expected {
      v := Stop(Changed);
    } else {
      h := d.Past();
      var io, middle, applied := d.Claim(env);
      StepKeeps(h0, h, d.Past(), env, middle, Slot(Absent, middle.final), applied, expected, Absent);
      v := if io.Ok? then Retry(true) else if io.Missing? || io.Exists? then Retry(false)
           else if io.Dead? then Stop(Crashed) else Stop(Failed);
    }
  }

  /** Removes the final name while it holds an expected value. */
  method RemoveCas<C(==,!new)>(d: Directory<C>, env: Env, expected: seq<Artifact<C>>)
    returns (o: Outcome, removed: bool)
    requires Readable(expected, Absent)
    modifies d
    ensures CasEffect(old(d.Past()), d.Past(), env, o, expected, Absent)
    ensures o.Done? ==> Completes(old(d.Past()), d.Past(), env, expected, Absent)
    ensures env == Calm && !o.Done? && !old(d.quarantine).Odd? ==> d.final == View(old(d.Now()))
    ensures !env.faults && Hidden(d.Now(), expected) ==>
              Turns(MAX_ATTEMPTS, old(d.Past()), d.Past(), env, expected, Absent)
    ensures !env.admin && o.Done? ==> removed == !View(old(d.Now())).Absent?
  {
    hide Completes;
    hide Turns;
    hide Finishes;
    hide GoesOn;
    hide Looks;
    ghost var h0 := d.Past();
    var attempt := 0;
    NoTurns(h0, env, expected, Absent);
    while attempt < MAX_ATTEMPTS
      invariant 0 <= attempt <= MAX_ATTEMPTS
      invariant Kept(h0, d.Past(), env, expected, Absent) && Turns(attempt, h0, d.Past(), env, expected, Absent)
      invariant !env.admin ==>
                  && attempt + TurnsLeft(d.Now(), Absent) <= 3
                  && View(d.Now()) == View(h0.slot)
                  && CalmCas(d.Now(), expected, Absent) == CalmCas(h0.slot, expected, Absent)
                  && (Resumable(h0.slot, expected, Absent) ==> Resumable(d.Now(), expected, Absent))
    {
      ghost var h := d.Past();
      var v;
      ghost var first, seen;
      v, removed, first, seen := RemoveTurn(d, env, expected, h0);
      if v.Stop? {
        if v.outcome.Done? { LastTurnIs(attempt, h0, h, first, seen, d.Past(), env, expected, Absent); }
        return v.outcome, removed;
      }
      OtherTurnIs(attempt, h0, h, first, seen, d.Past(), env, expected, Absent);
      attempt := attempt + 1;
    }
    return Changed, false;
  }

  /** Any number of interrupted writes, then one undisturbed write. */
  method WriteUntilDone<C(==,!new)>(d: Directory<C>, interruptions: nat, expected: seq<Artifact<C>>,
                                    desired: Artifact<C>)
    requires Readable(expected, desired) && desired.File? && Resumable(d.Now(), expected, desired)
    modifies d
    ensures d.Now() == Slot(desired, Absent)
    ensures forall i :: |old(d.moves)| <= i < |d.moves| ==> Atomic(d.moves[i], expected, desired)
  {
    ghost var n := |d.moves|;
    for i := 0 to interruptions
      invariant n <= |d.moves| && Resumable(d.Now(), expected, desired)
      invariant forall i :: n <= i < |d.moves| ==> Atomic(d.moves[i], expected, desired)
    {
      var _ := WriteCas(d, Env(false, true), expected, desired);
    }
    var _ := WriteCas(d, Calm, expected, desired);
  }

  /** Any number of interrupted removals, then one undisturbed removal. */
  method RemoveUntilDone<C(==,!new)>(d: Directory<C>, interruptions: nat, expected: seq<Artifact<C>>)
    requires Readable(expected, Absent) && Resumable(d.Now(), expected, Absent)
    modifies d
    ensures d.Now() == Slot(Absent, Absent)
  {
    for i := 0 to interruptions
      invariant Resumable(d.Now(), expected, Absent)
    {
      var _, _ := RemoveCas(d, Env(false, true), expected);
    }
    var _, _ := RemoveCas(d, Calm, expected);
  }

  /** A step that retires the quarantine is atomic exactly when the final name is still there,
      unless the call is a removal. */
  lemma RetireAtomicIff<C>(s: Slot<C>, expected: seq<Artifact<C>>, desired: Artifact<C>)
    requires !s.claimed.Absent? && s.claimed in expected
    ensures Atomic(Move(s, Slot(s.final, Absent)), expected, desired) <==> !s.final.Absent? || desired.Absent?
  {}

  /** What a call that reports success has done. */
  ghost predicate Succeeds<C(!new)>(h: History<C>, h': History<C>, env: Env, expected: seq<Artifact<C>>,
                                    desired: Artifact<C>) {
    CasEffect(h, h', env, Done, expected, desired) && Completes(h, h', env, expected, desired)
  }

  /** The race that makes the condition matter, as the course of one write: the file is claimed, the new one installed,
      the administrator deletes it, the quarantine is retired. The old value comes back into view and then
      disappears. */
  lemma DeletionRace<C(!new)>(e: C, d: C)
    requires e != d
    ensures exists h: History<C>, h': History<C> ::
              && h == History(Slot(File(e), Absent), [], []) && Completes(h, h', Env(true, false), [File(e)], File(d))
              && h'.edits == [Absent] && h'.slot == Slot(Absent, Absent) && |h'.moves| == 3
              && !Atomic(h'.moves[2], [File(e)], File(d)) && LateRetire(h'.moves[2], [File(e)])
  {
    hide Turns;
    hide Completes;
    hide LastTurn;
    hide OtherTurn;
    var env, expected := Env(true, false), [File(e)];
    var s0, s1, s2 := Slot(File(e), Absent), Slot(Absent, File(e)), Slot(File(d), File(e));
    var h0: History<C> := History(s0, [], []);
    var h1 := History(s1, [], [Move(s0, s1)]);
    var h2 := History(s2, [], [Move(s0, s1), Move(s1, s2)]);
    var h3 := History(Slot(Absent, Absent), [Absent], [Move(s0, s1), Move(s1, s2), Move(s1, Slot(Absent, Absent))]);
    assert Claims(h0, h1, env) by { assert StepTo(h0, h1, env, s0, Slot(Absent, s0.final), true); }
    NoTurns(h0, env, expected, File(d));
    OtherTurnIs(0, h0, h0, h0, h0, h1, env, expected, File(d));
    assert Installs(h1, h2, env, File(d)) by { assert StepTo(h1, h2, env, s1, Slot(File(d), s1.claimed), true); }
    assert Retires(h2, h3, env) by { assert StepTo(h2, h3, env, s1, Slot(s1.final, Absent), true); }
    assert Replaces(h1, h3, env, File(d));
    LastTurnIs(1, h0, h1, h1, h1, h3, env, expected, File(d));
  }

  /** The one way a call without faults leaves a file hidden that it may not touch: the administrator deletes the file
      before each claim but the last, and replaces it before that one. */
  lemma HiddenAtLimit<C(!new)>(e: C, d: C, x: C) returns (h: History<C>, h': History<C>)
    requires e != d && x != e
    ensures h.slot == Slot(File(e), Absent) && h'.slot == Slot(Absent, File(x))
    ensures Hidden(h'.slot, [File(e)]) && Turns(MAX_ATTEMPTS, h, h', Env(true, false), [File(e)], File(d))
  {
    hide Turns;
    hide OtherTurn;
    var env := Env(true, false);
    h := History(Slot(File(e), Absent), [], []);
    var g := RacedTurns(7, h, File(e), File(d));
    var f := History(Slot(File(e), Absent), g.edits + [File(e)], g.moves);
    var m := Slot(File(x), Absent);
    h' := History(Slot(Absent, File(x)), f.edits + [File(x)], f.moves + [Move(m, Slot(Absent, File(x)))]);
    assert Claims(f, h', env) by { assert StepTo(f, h', env, m, Slot(Absent, m.final), true); }
    OtherTurnIs(7, h, g, f, f, h', env, [File(e)], File(d));
  }

  /** Turns in which the file is deleted between the look and the claim. */
  lemma {:induction false} RacedTurns<C(!new)>(n: nat, h: History<C>, e: Artifact<C>, d: Artifact<C>)
    returns (g: History<C>)
    requires h.slot.claimed.Absent? && e != d
    ensures g.slot.claimed.Absent? && Turns(n, h, g, Env(true, false), [e], d)
  {
    hide Turns;
    hide OtherTurn;
    var env := Env(true, false);
    if n == 0 {
      NoTurns(h, env, [e], d);
      return h;
    }
    var k := RacedTurns(n - 1, h, e, d);
    var f := History(Slot(e, Absent), k.edits + [e], k.moves);
    g := History(Slot(Absent, Absent), f.edits + [Absent], f.moves);
    OtherTurnIs(n - 1, h, k, f, f, g, env, [e], d);
  }

  /** How a call can pass over an edit made while it runs: it claims the edited file, which it may replace, or claims it
      and does not notice a deletion that follows. */
  lemma OverwritingRun<C(!new)>(h: History<C>, expected: seq<Artifact<C>>, desired: Artifact<C>, c: Artifact<C>,
                                deleted: bool)
    returns (h': History<C>)
    requires h.slot.claimed.Absent? && c in expected && c.File? && c != desired && !desired.Odd?
    requires deleted ==> desired.File?
    ensures Succeeds(h, h', Env(true, false), expected, desired) && h'.slot == Slot(desired, Absent)
    ensures h'.edits == h.edits + [c] + if deleted then [Absent] else []
  {
    hide Turns;
    hide Completes;
    hide LastTurn;
    hide OtherTurn;
    var env, none := Env(true, false), Slot<C>.Slot(Absent, Absent);
    var f := History(Slot(c, Absent), h.edits + [c], h.moves);
    var s1 := Slot(Absent, c);
    var g := History(s1, f.edits, h.moves + [Move(f.slot, s1)]);
    var k := g.(edits := g.edits + if deleted then [Absent] else []);
    assert Claims(f, g, env) by { assert StepTo(f, g, env, f.slot, Slot(Absent, f.slot.final), true); }
    NoTurns(h, env, expected, desired);
    OtherTurnIs(0, h, h, f, f, g, env, expected, desired);
    TurnKeeps(h, h, f, env, expected, desired);
    StepKeeps(h, f, g, env, f.slot, s1, true, expected, desired);
    TurnKeeps(h, g, k, env, expected, desired);
    if desired.File? {
      var s2 := Slot(desired, c);
      var m := History(s2, k.edits, k.moves + [Move(s1, s2)]);
      h' := History(Slot(desired, Absent), k.edits, m.moves + [Move(s2, Slot(desired, Absent))]);
      assert Installs(k, m, env, desired) by { assert StepTo(k, m, env, s1, Slot(desired, s1.claimed), true); }
      assert Retires(m, h', env) by { assert StepTo(m, h', env, s2, Slot(s2.final, Absent), true); }
      assert Replaces(k, h', env, desired);
      StepKeeps(h, k, m, env, s1, s2, true, expected, desired);
      StepKeeps(h, m, h', env, s2, Slot(desired, Absent), true, expected, desired);
    } else {
      h' := History(none, k.edits, k.moves + [Move(s1, none)]);
      assert Retires(k, h', env) by { assert StepTo(k, h', env, s1, Slot(s1.final, Absent), true); }
      StepKeeps(h, k, h', env, s1, none, true, expected, desired);
    }
    LastTurnIs(1, h, g, k, k, h', env, expected, desired);
  }

  /** Or it may replace a deletion outright. */
  lemma ReplacedDeletion<C(!new)>(h: History<C>, expected: seq<Artifact<C>>, desired: Artifact<C>)
    returns (h': History<C>)
    requires h.slot.claimed.Absent? && Absent in expected && desired.File?
    ensures Succeeds(h, h', Env(true, false), expected, desired)
    ensures h'.slot == Slot(desired, Absent) && h'.edits == h.edits + [Absent]
  {
    hide Turns;
    hide Completes;
    hide LastTurn;
    hide OtherTurn;
    var env, none := Env(true, false), Slot<C>.Slot(Absent, Absent);
    var f := History(none, h.edits + [Absent], h.moves);
    h' := History(Slot(desired, Absent), f.edits, h.moves + [Move(none, Slot(desired, Absent))]);
    assert Installs(f, h', env, desired) by { assert StepTo(f, h', env, none, Slot(desired, Absent), true); }
    NoTurns(h, env, expected, desired);
    TurnKeeps(h, h, f, env, expected, desired);
    StepKeeps(h, f, h', env, none, Slot(desired, Absent), true, expected, desired);
    LastTurnIs(0, h, h, f, f, h', env, expected, desired);
  }

  /** A successful call whose last edit e is not what it leaves. */
  ghost predicate PassesOver<C(!new)>(h: History<C>, h': History<C>, expected: seq<Artifact<C>>, desired: Artifact<C>,
                                      e: Artifact<C>) {
    && Succeeds(h, h', Env(true, false), expected, desired)
    && h.edits < h'.edits && h'.edits[|h'.edits| - 1] == e && h'.slot.final != e
  }

  /** Exactly which last edit a call can pass over and still succeed: a value it may replace, or a deletion when there
      is something to replace. */
  lemma PassesOverIff<C(!new)>(h: History<C>, expected: seq<Artifact<C>>, desired: Artifact<C>, e: Artifact<C>)
    requires h.slot.claimed.Absent? && Readable(expected, desired)
    ensures (exists h' :: PassesOver(h, h', expected, desired, e))
            <==> e != desired && (e in expected || (e.Absent? && exists c :: c in expected && c != desired))
  {
    hide Succeeds;
    forall h' | PassesOver(h, h', expected, desired, e)
      ensures e != desired && (e in expected || (e.Absent? && exists c :: c in expected && c != desired))
    {
      PassedOver(h, h', expected, desired, e);
    }
    if e != desired && (e in expected || (e.Absent? && exists c :: c in expected && c != desired)) {
      var c :| c in expected && c != desired && (e.Absent? || c == e);
      var h';
      if c.Absent? {
        h' := ReplacedDeletion(h, expected, desired);
      } else {
        h' := OverwritingRun(h, expected, desired, c, e.Absent?);
      }
      assert PassesOver(h, h', expected, desired, e);
    }
  }

  lemma PassedOver<C(!new)>(h: History<C>, h': History<C>, expected: seq<Artifact<C>>, desired: Artifact<C>,
                            e: Artifact<C>)
    requires h.slot.claimed.Absent? && Readable(expected, desired) && PassesOver(h, h', expected, desired, e)
    ensures e != desired && (e in expected || (e.Absent? && exists c :: c in expected && c != desired))
  {
    SucceedsMeans(h, h', Env(true, false), expected, desired);
    if forall c :: c in expected ==> c == desired { OnlyLooks(h, h', expected, desired); }
  }

  lemma SucceedsMeans<C(!new)>(h: History<C>, h': History<C>, env: Env, expected: seq<Artifact<C>>,
                               desired: Artifact<C>)
    requires Succeeds(h, h', env, expected, desired)
    ensures Kept(h, h', env, expected, desired) && Landed(h, h', desired)
  {
  }

  /** A call with nothing to replace but the desired value only finds it in place. */
  lemma OnlyLooks<C(!new)>(h: History<C>, h': History<C>, expected: seq<Artifact<C>>, desired: Artifact<C>)
    requires h.slot.claimed.Absent? && Succeeds(h, h', Env(true, false), expected, desired)
    requires forall c :: c in expected ==> c == desired
    ensures h.edits < h'.edits ==> h'.edits[|h'.edits| - 1] == desired
  {
    var env := Env(true, false);
    var n: nat, g :| n < MAX_ATTEMPTS && Turns(n, h, g, env, expected, desired)
        && LastTurn(g, h', env, expected, desired);
    assert n == 0;
  }

  /** Any number of writes, each cut short anywhere, while the administrator edits: together they still are one
      register. */
  method WriteRepeatedly<C(==,!new)>(d: Directory<C>, calls: nat, expected: seq<Artifact<C>>, desired: Artifact<C>)
    requires Readable(expected, desired) && desired.File?
    modifies d
    ensures Linear(old(d.Past()), d.Past(), expected, desired) && old(d.edits) <= d.edits
    ensures forall i :: |old(d.moves)| <= i < |d.moves| ==> GoodMove(d.moves[i], expected, desired)
  {
    hide Kept;
    ghost var h0 := d.Past();
    for i := 0 to calls
      invariant Linear(h0, d.Past(), expected, desired) && h0.edits <= d.edits && |h0.moves| <= |d.moves|
      invariant forall i :: |h0.moves| <= i < |d.moves| ==> GoodMove(d.moves[i], expected, desired)
    {
      ghost var h := d.Past();
      var _ := WriteCas(d, Env(true, true), expected, desired);
      KeptMeans(h, d.Past(), expected, desired);
      CallsCompose(h0, h, d.Past(), expected, desired);
    }
  }

  lemma KeptMeans<C>(h: History<C>, h': History<C>, expected: seq<Artifact<C>>, desired: Artifact<C>)
    requires Kept(h, h', Env(true, true), expected, desired)
    ensures h.edits <= h'.edits && h.moves <= h'.moves && Linear(h, h', expected, desired)
    ensures forall i :: |h.moves| <= i < |h'.moves| ==> GoodMove(h'.moves[i], expected, desired)
  {
  }
}
