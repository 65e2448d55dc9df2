/** The second compare-and-set: systemd drop-ins, claimed before they are read. */
module DropInCas {
  import opened Artifacts
  import opened TwoNameCas

  type Bytes = seq<char>

  const MAX_REMOVALS := 3

  /** The outcome and slot of an undisturbed write. Unlike the global proxy files, a file that
      already holds the data is refused when no quarantine explains it. */
  function CalmWrite(s: Slot<Bytes>, expected: Bytes, data: Bytes): (r: (Outcome, Slot<Bytes>))
    ensures r.0.Done? <==> if s.claimed.Absent? then s.final == File(expected)
                           else s.claimed == File(expected) && (s.final.Absent? || s.final == File(data))
    ensures if r.0.Done? then r.1 == Slot(File(data), Absent) else r.1.final == View(s) == View(r.1)
  {
    if s.claimed.Absent? then
      if s.final == File(expected) then (Done, Slot(File(data), Absent)) else (Changed, s)
    else if s.claimed != File(expected) then
      (Changed, if s.final.Absent? then Slot(s.claimed, Absent) else s)
    else if s.final.Absent? || s.final == File(data) then (Done, Slot(File(data), Absent))
    else (Changed, Slot(s.final, Absent))
  }

  /** Every slot an undisturbed write can leave behind. Because the claim comes before the read, a
      repeated write can also be cut short while the finished file sits in quarantine. */
  predicate WriteLeft(s: Slot<Bytes>, expected: Bytes, data: Bytes) {
    || (s.claimed.Absent? && s.final in {File(expected), File(data)})
    || (s.claimed == File(expected) && s.final in {Absent, File(data)})
    || s == Slot(Absent, File(data))
  }

  lemma WriteConverges(s: Slot<Bytes>, expected: Bytes, data: Bytes)
    requires WriteLeft(s, expected, data)
    ensures CalmWrite(s, expected, data).1 == Slot(File(data), Absent)
    ensures CalmWrite(s, expected, data).0.Done? <==>
            s !in {Slot(File(data), Absent), Slot(Absent, File(data))} || data == expected
  {}

  /** What a write keeps between h0 and h, and what it reports. */
  ghost predicate Effect(h0: History<Bytes>, h: History<Bytes>, env: Env, o: Outcome, expected: Bytes, data: Bytes) {
    && Kept(h0, h, env, [File(expected)], File(data))
    && (o.Done? ==> Landed(h0, h, File(data)))
    && (!env.admin && WriteLeft(h0.slot, expected, data) ==> WriteLeft(h.slot, expected, data))
    && (env == Calm ==> (o, h.slot) == CalmWrite(h0.slot, expected, data))
    && (!env.faults ==> !Hidden(h.slot, [File(expected)]))
  }

  /** Puts the quarantine back under the final name, and reports `o`. */
  method PutBackThen(d: Directory<Bytes>, env: Env, o: Outcome, expected: seq<Artifact<Bytes>>,
                     desired: Artifact<Bytes>,
                     ghost h0: History<Bytes>) returns (r: Outcome)
    requires Kept(h0, d.Past(), env, expected, desired)
    modifies d
    ensures Kept(h0, d.Past(), env, expected, desired)
    ensures r == o || r == Crashed
    ensures env == Calm ==> r == o
    ensures !env.admin ==> d.Now() == old(d.Now()) ||
                           (old(d.Now()).final.Absent? && d.Now() == Slot(old(d.Now()).claimed, Absent))
    ensures env == Calm ==>
            d.Now() == if old(d.Now()).final.Absent? then Slot(old(d.Now()).claimed, Absent) else old(d.Now())
    ensures !env.faults ==> !d.final.Absent? || d.quarantine.Absent?
  {
    ghost var h := d.Past();
    var io, middle, applied := d.PutBack(env);
    StepKeeps(h0, h, d.Past(), env, middle, Slot(middle.claimed, Absent), applied, expected, desired);
    r := if io.Dead? then Crashed else o;
  }

  /** What the parts of a write keep. */
  ghost predicate PartEffect(h0: History<Bytes>, h: History<Bytes>, h': History<Bytes>, env: Env, o: Outcome,
                             expected: Bytes, data: Bytes) {
    && Kept(h0, h', env, [File(expected)], File(data))
    && (o.Done? ==> Landed(h0, h', File(data)))
    && (!env.admin && WriteLeft(h.slot, expected, data) ==> WriteLeft(h'.slot, expected, data))
    && (env == Calm ==> (o, h'.slot) == CalmWrite(h.slot, expected, data))
    && (!env.faults ==> !Hidden(h'.slot, [File(expected)]))
  }

  /** Installs the data and retires the expected file. */
  method InstallAndRetire(d: Directory<Bytes>, env: Env, expected: Bytes, data: Bytes, ghost h0: History<Bytes>)
    returns (o: Outcome)
    requires Kept(h0, d.Past(), env, [File(expected)], File(data))
    requires d.quarantine == File(expected) && (!env.admin ==> d.final.Absent?)
    modifies d
    ensures PartEffect(h0, old(d.Past()), d.Past(), env, o, expected, data)
  {
    ghost var h := d.Past();
    var io, middle, applied := d.Install(env, File(data));
    StepKeeps(h0, h, d.Past(), env, middle, Slot(File(data), middle.claimed), applied, [File(expected)], File(data));
    if io.Ok? || io.Exists? {
      var v := RetireThen(d, env, [File(expected)], File(data), Stop(if io.Ok? then Done else Changed), h0);
      o := v.outcome;
    } else if io.Dead? {
      o := Crashed;
    } else {
      o := PutBackThen(d, env, Failed, [File(expected)], File(data), h0);
    }
  }

  /** The rest of a write once the expected file is believed to be in quarantine. */
  method Replace(d: Directory<Bytes>, env: Env, expected: Bytes, data: Bytes, ghost h0: History<Bytes>)
    returns (o: Outcome)
    requires Kept(h0, d.Past(), env, [File(expected)], File(data))
    requires !d.quarantine.Absent? && (!env.admin ==> d.final.Absent?)
    modifies d
    ensures PartEffect(h0, old(d.Past()), d.Past(), env, o, expected, data)
  {
    ghost var h := d.Past();
    var claimed := d.Read(env, true);
    TurnKeeps(h0, h, d.Past(), env, [File(expected)], File(data));
    if claimed == File(expected) {
      o := InstallAndRetire(d, env, expected, data, h0);
    } else {
      o := PutBackThen(d, env, Changed, [File(expected)], File(data), h0);
    }
  }

  datatype Replay = NotFound | Resume | Finished(outcome: Outcome)

  /** What a write does with a quarantine left behind by an earlier call. */
  method ReplayQuarantine(d: Directory<Bytes>, env: Env, expected: Bytes, data: Bytes, ghost h0: History<Bytes>)
    returns (r: Replay)
    requires Kept(h0, d.Past(), env, [File(expected)], File(data))
    modifies d
    ensures Kept(h0, d.Past(), env, [File(expected)], File(data))
    ensures r.NotFound? ==> d.quarantine.Absent?
    ensures r.Resume? ==> d.quarantine == old(d.quarantine) == File(expected)
    ensures r == Finished(Done) ==> Landed(h0, d.Past(), File(data))
    ensures !env.admin && WriteLeft(old(d.Now()), expected, data) ==> WriteLeft(d.Now(), expected, data)
    ensures !env.admin && !r.Finished? ==> d.Now() == old(d.Now()) && (r.Resume? ==> d.final.Absent?)
    ensures env == Calm && r.Finished? ==> (r.outcome, d.Now()) == CalmWrite(old(d.Now()), expected, data)
    ensures !env.faults && !r.Resume? ==> !Hidden(d.Now(), [File(expected)])
  {
    var wanted := [File(expected)];
    ghost var h := d.Past();
    var claimed := d.Read(env, true);
    TurnKeeps(h0, h, d.Past(), env, wanted, File(data));
    if claimed.Absent? { return NotFound; }
    h := d.Past();
    var final := d.Read(env, false);
    TurnKeeps(h0, h, d.Past(), env, wanted, File(data));
    if claimed != File(expected) {
      var o := Changed;
      if final.Absent? {
        o := PutBackThen(d, env, Changed, wanted, File(data), h0);
      }
      return Finished(o);
    }
    if final.Absent? { return Resume; }
    var v := RetireThen(d, env, wanted, File(data), Stop(if final == File(data) then Done else Changed), h0);
    r := Finished(v.outcome);
  }

  /** Replaces the expected drop-in by new data. */
  method WriteDropIn(d: Directory<Bytes>, env: Env, expected: Bytes, data: Bytes) returns (o: Outcome)
    modifies d
    ensures Effect(old(d.Past()), d.Past(), env, o, expected, data)
  {
    var wanted := [File(expected)];
    ghost var h0 := d.Past();
    var io, middle, applied := d.Claim(env);
    StepKeeps(h0, h0, d.Past(), env, middle, Slot(Absent, middle.final), applied, wanted, File(data));
    if io.Dead? { return Crashed; }
    if io.Broken? { return Failed; }
    if io.Missing? || io.Exists? {
      var r := ReplayQuarantine(d, env, expected, data, h0);
      match r {
        case NotFound => return if io.Missing? then Changed else Failed;
        case Finished(outcome) => return outcome;
        case Resume =>
      }
    }
    o := Replace(d, env, expected, data, h0);
  }

  /** The outcome and slot of an undisturbed removal. A final name that cannot be matched keeps its
      quarantine. */
  function CalmRemove(s: Slot<Bytes>, expected: seq<Artifact<Bytes>>): (r: (Outcome, Slot<Bytes>))
    ensures (forall e :: e in expected ==> e.File?) ==>
              (r.0.Done? <==> expected != [] && s.claimed in expected + [Absent] && s.final in expected + [Absent])
    ensures if r.0.Done? then r.1 == Slot(Absent, Absent) else r.1.final == View(s) == View(r.1)
  {
    if s.claimed.Absent? then
      if s.final.Absent? then (if expected == [] then Failed else Done, s)
      else if s.final in expected then (Done, Slot(Absent, Absent))
      else (Changed, s)
    else if s.claimed !in expected then
      (Changed, if s.final.Absent? then Slot(s.claimed, Absent) else s)
    else if s.final.Absent? || s.final in expected then (Done, Slot(Absent, Absent))
    else (Changed, s)
  }

  /** What one removal turn keeps. */
  ghost predicate RemoveEffect(h0: History<Bytes>, h: History<Bytes>, h': History<Bytes>, env: Env, v: Verdict,
                               expected: seq<Artifact<Bytes>>) {
    && Kept(h0, h', env, expected, Absent)
    && (v == Stop(Done) ==> Landed(h0, h', Absent))
    && (env == Calm && v.Stop? ==> (v.outcome, h'.slot) == CalmRemove(h.slot, expected))
    && (!env.faults ==> !Hidden(h'.slot, expected))
    && (!env.admin && v.Retry? ==>
          h'.slot.claimed.Absent? && !h.slot.claimed.Absent?
              && CalmRemove(h'.slot, expected) == CalmRemove(h.slot, expected))
  }

  /** The final name was claimed: check what the quarantine holds, then unlink it or put it back. */
  method RetireClaimed(d: Directory<Bytes>, env: Env, expected: seq<Artifact<Bytes>>, ghost h0: History<Bytes>)
    returns (v: Verdict)
    requires Kept(h0, d.Past(), env, expected, Absent) && Readable(expected, Absent)
    requires !env.admin ==> d.final.Absent?
    requires d.final.Absent? || d.final == Latest(Absent, d.edits, |h0.edits|)
    modifies d
    ensures Kept(h0, d.Past(), env, expected, Absent)
    ensures v.Stop?
    ensures v == Stop(Done) ==> Landed(h0, d.Past(), Absent)
    ensures env == Calm && !old(d.quarantine).Absent? ==> (v.outcome, d.Now()) == CalmRemove(old(d.Now()), expected)
    ensures !env.faults ==> !Hidden(d.Now(), expected)
  {
    ghost var h := d.Past();
    var claimed := d.Read(env, true);
    TurnKeeps(h0, h, d.Past(), env, expected, Absent);
    if claimed.Absent? { return Stop(Failed); }
    if claimed in expected {
      v := RetireThen(d, env, expected, Absent, Stop(Done), h0);
    } else {
      var o := PutBackThen(d, env, Changed, expected, Absent, h0);
      v := Stop(o);
    }
  }

  /** Both names exist: the quarantine may go only if the final name can be claimed next. */
  method RetireLeftover(d: Directory<Bytes>, env: Env, expected: seq<Artifact<Bytes>>, last: bool,
                        ghost h0: History<Bytes>) returns (v: Verdict)
    requires Kept(h0, d.Past(), env, expected, Absent) && Readable(expected, Absent)
    requires !env.admin ==> !d.quarantine.Absent? && !d.final.Absent? && !last
    modifies d
    ensures RemoveEffect(h0, old(d.Past()), d.Past(), env, v, expected)
  {
    ghost var h := d.Past();
    var claimed := d.Read(env, true);
    TurnKeeps(h0, h, d.Past(), env, expected, Absent);
    if claimed.Absent? { return Stop(Failed); }
    if claimed !in expected {
      var o := PutBackThen(d, env, Changed, expected, Absent, h0);
      return Stop(o);
    }
    h := d.Past();
    var final := d.Read(env, false);
    TurnKeeps(h0, h, d.Past(), env, expected, Absent);
    if final.Absent? {
      v := RetireThen(d, env, expected, Absent, Stop(Done), h0);
    } else if final !in expected || last {
      v := Stop(Changed);
    } else {
      v := RetireThen(d, env, expected, Absent, Retry(false), h0);
    }
  }

  /** A list without a single non-empty content is refused: nothing matches it. */
  function Wanted(expected: seq<Artifact<Bytes>>): seq<Artifact<Bytes>>
    requires forall e :: e in expected ==> e.File?
  {
    if exists e :: e in expected && e.content != [] then expected else []
  }

  /** Removes the drop-in while it holds expected bytes. The directory clean-up that follows is not modelled. */
  method RemoveDropIn(d: Directory<Bytes>, env: Env, expected: seq<Artifact<Bytes>>) returns (o: Outcome)
    requires forall e :: e in expected ==> e.File?
    modifies d
    ensures Kept(old(d.Past()), d.Past(), env, Wanted(expected), Absent)
    ensures o.Done? ==> Landed(old(d.Past()), d.Past(), Absent)
    ensures env == Calm ==> (o, d.Now()) == CalmRemove(old(d.Now()), Wanted(expected))
    ensures env == Calm && !o.Done? ==> d.final == View(old(d.Now()))
    ensures env == Calm ==>
              (o.Done? <==>
                && (exists e :: e in expected && e.content != [])
                && old(d.quarantine) in expected + [Absent] && old(d.final) in expected + [Absent])
    ensures !env.faults ==> !Hidden(d.Now(), Wanted(expected))
  {
    var wanted := Wanted(expected);
    ghost var h0 := d.Past();
    var attempt := 0;
    while attempt < MAX_REMOVALS
      invariant 0 <= attempt <= MAX_REMOVALS
      invariant Kept(h0, d.Past(), env, wanted, Absent)
      invariant !env.faults && attempt > 0 ==> !Hidden(d.Now(), wanted)
      invariant !env.admin ==> attempt <= 1 && (attempt == 1 ==> d.quarantine.Absent?)
      invariant !env.admin ==> CalmRemove(d.Now(), wanted) == CalmRemove(h0.slot, wanted)
    {
      ghost var h := d.Past();
      var io, middle, applied := d.Claim(env);
      StepKeeps(h0, h, d.Past(), env, middle, Slot(Absent, middle.final), applied, wanted, Absent);
      if io.Dead? { return Crashed; }
      if io.Broken? { return Failed; }
      var v;
      if io.Exists? {
        v := RetireLeftover(d, env, wanted, attempt + 1 >= MAX_REMOVALS, h0);
      } else {
        ghost var h1 := d.Past();
        var claimed := d.Read(env, true);
        TurnKeeps(h0, h1, d.Past(), env, wanted, Absent);
        if io.Missing? && claimed.Absent? {
          return if wanted == [] then Failed else Done;
        }
        v := RetireClaimed(d, env, wanted, h0);
      }
      if v.Stop? { return v.outcome; }
      attempt := attempt + 1;
    }
    o := Changed;
  }

  /** Every slot an undisturbed removal can leave behind. */
  predicate RemoveLeft(s: Slot<Bytes>, wanted: seq<Artifact<Bytes>>) {
    s.claimed in wanted + [Absent] && s.final in wanted + [Absent]
  }

  lemma RemovalResumes(h0: History<Bytes>, h: History<Bytes>, env: Env, wanted: seq<Artifact<Bytes>>)
    requires Kept(h0, h, env, wanted, Absent) && !env.admin && RemoveLeft(h0.slot, wanted)
    ensures RemoveLeft(h.slot, wanted)
  {
  }

  /** Any number of interrupted removals, then one undisturbed removal. */
  method RemoveDropInUntilDone(d: Directory<Bytes>, interruptions: nat, expected: seq<Artifact<Bytes>>)
    requires forall e :: e in expected ==> e.File?
    requires Wanted(expected) != [] && RemoveLeft(d.Now(), Wanted(expected))
    modifies d
    ensures d.Now() == Slot(Absent, Absent)
  {
    for i := 0 to interruptions
      invariant RemoveLeft(d.Now(), Wanted(expected))
    {
      ghost var h := d.Past();
      var _ := RemoveDropIn(d, Env(false, true), expected);
      RemovalResumes(h, d.Past(), Env(false, true), Wanted(expected));
    }
    var _ := RemoveDropIn(d, Calm, expected);
  }
}
