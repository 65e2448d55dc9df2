/** The write-ahead runtime transaction: apply, commit, compensate, recover. */
module RuntimeTransition {
  import opened Wrappers
  import opened Scenes
  import opened Artifacts
  import opened StoreFiles
  import opened RoutePlan

  datatype Phase = Applying | Committing | Compensating | Settling

  datatype Step = Step(name: StepName, started: bool, restored: bool)

  /** The durable receipt of one transaction. */
  datatype Record = Record(phase: Phase, before: Store, candidate: Store, digest: Image,
                           mainBefore: Evidence, backupBefore: Evidence,
                           compensation: Option<Store>, steps: seq<Step>)

  /** The check every receipt passes before it is written and after it is read. */
  predicate ValidRecord(r: Record) {
    && |r.steps| <= 4
    && r.digest == Encoded(r.candidate)
    && r.before.generation < r.candidate.generation <= MAX_GENERATION
    && (r.compensation.Some? ==>
          && r.phase == Compensating
          && r.candidate.generation < r.compensation.value.generation <= MAX_GENERATION
          && r.compensation.value.body == r.before.body)
    && (forall i :: 0 <= i < |r.steps| ==> r.steps[i].restored ==> r.steps[i].started)
    && (forall i, j :: 0 <= i < j < |r.steps| ==> r.steps[i].name != r.steps[j].name)
  }

  /** What a valid receipt says: generations rise from the Store before to the candidate and on to the compensation,
      which has the old body and exists only while compensating; no step comes twice or is restored before it started.
      */
  lemma ReceiptSays(r: Record)
    ensures ValidRecord(r) <==>
              && |r.steps| < 5 && r.digest == Image.Encoded(r.candidate)
              && (var top := if r.compensation.Some? then r.compensation.value.generation else r.candidate.generation;
                  r.before.generation < r.candidate.generation && top < 0x1_0000_0000_0000_0000)
              && (r.phase != Compensating ==> r.compensation == None)
              && (r.compensation != None ==>
                    && r.compensation.value == Store(r.compensation.value.generation, r.before.body)
                    && r.compensation.value.generation > r.candidate.generation)
              && (forall s :: s in r.steps ==> s.started || !s.restored)
              && (forall i, j :: 0 <= i < |r.steps| && 0 <= j < |r.steps| ==>
                    r.steps[i].name == r.steps[j].name ==> i == j)
  {
    if forall s :: s in r.steps ==> s.started || !s.restored {
      forall i | 0 <= i < |r.steps| ensures r.steps[i].restored ==> r.steps[i].started { assert r.steps[i] in r.steps; }
    }
  }

  /** Everything that survives a crash, and the Stores that were ever put under either name. */
  datatype World = World(main: Slot<StoreFile>, backup: Slot<StoreFile>, record: Option<Record>, live: seq<Live>,
                         shown: set<Store>)

  /** What one transaction is about: the files it started from, its steps and its candidate. */
  datatype Start = Start(before: Store, main0: Entry, backup0: Entry, high: nat, names: seq<StepName>,
                         planned: Store, candidate: Store, shown0: set<Store>)
  {
    function Cand(): Entry { FileOf(candidate) }
    function Compensation(): Store { Store(high + 2, before.body) }
    function Comp(): Entry { FileOf(Compensation()) }

    ghost predicate Good() {
      && !main0.Odd? && !backup0.Odd?
      && Highest(main0, backup0) == high && before.generation <= high && high + 2 <= MAX_GENERATION
      && planned.generation == candidate.generation == high + 1
      && |names| <= 4
      && (forall i, j :: 0 <= i < j < |names| ==> names[i] != names[j])
      && (forall s :: s in shown0 ==> s.generation <= high)
    }
  }

  ghost predicate AllApplied(live: seq<Live>) { forall i :: 0 <= i < |live| ==> live[i] == Applied }
  ghost predicate AllOriginal(live: seq<Live>) { forall i :: 0 <= i < |live| ==> live[i] == Original }

  /** The receipt knows about every step that left its original state, and a step counts as
      outstanding only while the ones before it are applied. */
  ghost predicate StepsShape(live: seq<Live>, steps: seq<Step>, names: seq<StepName>) {
    && |live| == |steps| == |names|
    && forall i :: 0 <= i < |steps| ==>
         && steps[i].name == names[i]
         && (live[i] != Original ==> Outstanding(steps[i]))
         && (Outstanding(steps[i]) ==> forall j :: 0 <= j < i ==> live[j] == Applied)
  }

  predicate Outstanding(s: Step) { s.started && !s.restored }

  /** No step from n on is outstanding. */
  ghost predicate SettledFrom(steps: seq<Step>, n: nat) {
    forall i :: n <= i < |steps| ==> !Outstanding(steps[i])
  }

  lemma ShapeTapers(live: seq<Live>, steps: seq<Step>, names: seq<StepName>, n: nat)
    requires StepsShape(live, steps, names) && n <= |live|
    requires forall i :: n <= i < |live| ==> live[i] == Original
    ensures Tapers(live)
  {
    if n == 0 {
      assert TapersAt(live, 0);
    } else if live[n - 1] == Original {
      ShapeTapers(live, steps, names, n - 1);
    } else {
      assert TapersAt(live, n - 1);
    }
  }

  /** Where the two Store files can be, phase by phase. */
  ghost predicate FilesShape(w: World, c: Start, r: Record) {
    var start := w.main == Slot(c.main0, Absent);
    match r.phase
    case Applying => start && w.backup == Slot(c.backup0, Absent) && r.compensation.None? && w.shown == c.shown0
    case Committing =>
      && r.compensation.None? && r.candidate == c.candidate && AllApplied(w.live)
      && w.shown <= c.shown0 + {c.candidate} && (c.candidate in w.shown ==> w.backup.final == c.Cand())
      && if start then Between(w.backup, c.backup0, c.Cand())
         else w.backup == Slot(c.Cand(), Absent) && Between(w.main, c.main0, c.Cand())
    case Settling =>
      && r.compensation.None? && r.candidate == c.candidate && AllApplied(w.live)
      && w.shown <= c.shown0 + {c.candidate}
      && w.main == w.backup == Slot(c.Cand(), Absent)
    case Compensating =>
      if r.compensation.None? then
        && start
        && ((w.backup == Slot(c.backup0, Absent) && w.shown == c.shown0)
            || (r.candidate == c.candidate && w.backup == Slot(c.Cand(), Absent)
                 && w.shown <= c.shown0 + {c.candidate}))
      else
        && r.candidate == c.candidate && r.compensation.value == c.Compensation() && SettledFrom(r.steps, 0)
        && w.shown <= c.shown0 + {c.candidate, c.Compensation()}
        && if start then Between(w.backup, c.Cand(), c.Comp())
           else w.backup == Slot(c.Comp(), Absent) && Between(w.main, c.main0, c.Comp())
  }

  /** What the transaction has put under either name is among the Stores shown. */
  ghost predicate Noted(w: World, c: Start) {
    var there := {w.main.final, w.main.claimed, w.backup.final, w.backup.claimed};
    (c.Cand() in there ==> c.candidate in w.shown) && (c.Comp() in there ==> c.Compensation() in w.shown)
  }

  /** The world fits the receipt r of the transaction c. */
  ghost predicate Fits(w: World, c: Start, r: Record) {
    && ValidRecord(r)
    && r.before == c.before && r.mainBefore == EvidenceOf(c.main0) && r.backupBefore == EvidenceOf(c.backup0)
    && r.candidate in {c.planned, c.candidate}
    && c.shown0 <= w.shown && Noted(w, c)
    && StepsShape(w.live, r.steps, c.names)
    && FilesShape(w, c, r)
  }

  ghost predicate Pending(w: World, c: Start) {
    c.Good() && w.record.Some? && Fits(w, c, w.record.value)
  }

  ghost predicate Committed(w: World, c: Start) {
    && w.record.None? && AllApplied(w.live) && |w.live| == |c.names|
    && w.main == w.backup == Slot(c.Cand(), Absent)
    && c.shown0 <= w.shown <= c.shown0 + {c.candidate} && c.candidate in w.shown
  }

  /** Every step is undone, and the two files are untouched or both hold the one compensation. */
  ghost predicate RolledBack(w: World, c: Start) {
    && w.record.None? && AllOriginal(w.live) && |w.live| == |c.names|
    && if w.main == Slot(c.main0, Absent) && w.backup == Slot(c.backup0, Absent) then w.shown == c.shown0
       else
         && w.main == w.backup == Slot(c.Comp(), Absent)
         && c.shown0 <= w.shown <= c.shown0 + {c.candidate, c.Compensation()} && c.Compensation() in w.shown
  }

  ghost predicate Terminal(w: World, c: Start) { Committed(w, c) || RolledBack(w, c) }

  const EMPTY := Store(0, "")

  /** The Store the two files stand for: main first, then backup. None when a file exists and none decodes. */
  function Observed(m: Evidence, b: Evidence): Option<Store> {
    if Decode(m).Some? then Decode(m)
    else if Decode(b).Some? then Decode(b)
    else if m.None? && b.None? then Some(EMPTY)
    else None
  }

  /** Between transactions. */
  ghost predicate Ready(w: World) {
    w.record.None? && w.main.claimed.Absent? && w.backup.claimed.Absent?
  }

  /** No generation was ever given two contents. */
  ghost predicate OneContent(shown: set<Store>) {
    forall s, t :: s in shown && t in shown && s.generation == t.generation ==> s == t
  }

  /** The files still show how far the generations have come. */
  ghost predicate Fresh(w: World) {
    OneContent(w.shown) && forall s :: s in w.shown ==> s.generation <= Highest(w.main.final, w.backup.final)
  }

  /** Whatever a transaction came to, its generations are spent and bound to one content each. */
  lemma TerminalIsFresh(w: World, c: Start)
    requires c.Good() && Terminal(w, c) && OneContent(c.shown0)
    ensures Ready(w) && Fresh(w)
  {
  }

  datatype StepResult = StepDone | StepFailed | Unsettled | StepDead

  /** The evidence the receipt lets a Store file have while it is being put right. */
  function Allowed(own: Evidence, r: Record): seq<Evidence> {
    [own, Some(r.digest)] + (if r.compensation.Some? then [Some(Encoded(r.compensation.value))] else [])
  }

  /** The durable state of one installation, and the coordinator that moves it. Nothing outside the
      transaction edits it; operations may fail or be cut short when `faults` is set. */
  class Coordinator {
    const main: Directory<StoreFile>
    const backup: Directory<StoreFile>
    var record: Option<Record>
    var live: seq<Live>
    ghost var shown: set<Store>

    constructor (main: Directory<StoreFile>, backup: Directory<StoreFile>)
      requires main != backup
      ensures this.main == main && this.backup == backup
      ensures record == None && shown == {}
    {
      this.main, this.backup := main, backup;
      record, live, shown := None, [], {};
    }

    ghost function W(): World
      reads this, main, backup
    {
      World(main.Now(), backup.Now(), record, live, shown)
    }

    /** Atomically replaces the receipt, unless the receipt is not valid. */
    method WriteRecord(faults: bool, r: Record) returns (io: Io)
      modifies `record
      ensures record == old(record) || (ValidRecord(r) && record == Some(r))
      ensures io.Ok? ==> record == Some(r) && ValidRecord(r)
      ensures !faults && ValidRecord(r) ==> io.Ok?
      ensures io in {Ok, Broken, Dead}
    {
      if !ValidRecord(r) { return Broken; }
      io := main.Trouble(Undisturbed(faults));
      if io.Ok? {
        record := Some(r);
        io := main.Trouble(Undisturbed(faults));
      }
    }

    method RemoveRecord(faults: bool) returns (o: Outcome)
      modifies `record
      ensures record == old(record) || record == None
      ensures o.Done? ==> record == None
      ensures !faults ==> o.Done?
      ensures o in {Done, Failed, Crashed}
    {
      var io := main.Trouble(Undisturbed(faults));
      if io.Ok? {
        record := None;
        io := main.Trouble(Undisturbed(faults));
      }
      o := if io.Ok? then Done else if io.Dead? then Crashed else Failed;
    }

    /** Runs one step; unless steps are steady it may also fail, or not settle, for reasons of its own. */
    method ExecuteStep(faults: bool, steady: bool, i: nat) returns (s: StepResult)
      requires i < |live|
      modifies `live
      ensures |live| == |old(live)| && forall j :: 0 <= j < |live| && j != i ==> live[j] == old(live[j])
      ensures s.StepDone? ==> live[i] == Applied
      ensures !faults ==> !s.StepDead? && (steady ==> s.StepDone?)
    {
      var reached: Live := *;
      live := live[i := reached];
      if !steady {
        if * { return StepFailed; }
        if * { return Unsettled; }
      }
      if faults {
        if * { return StepDead; }
      }
      live := live[i := Applied];
      s := StepDone;
    }

    /** Undoes one step; repeating it is harmless. */
    method CompensateStep(faults: bool, i: nat) returns (o: Outcome)
      requires i < |live|
      modifies `live
      ensures |live| == |old(live)| && forall j :: 0 <= j < |live| && j != i ==> live[j] == old(live[j])
      ensures o.Done? ==> live[i] == Original
      ensures !faults ==> o.Done?
      ensures o in {Done, Failed, Crashed}
    {
      if faults {
        var reached: Live := *;
        live := live[i := reached];
        if * { return Failed; }
        if * { return Crashed; }
      }
      live := live[i := Original];
      o := Done;
    }

    /** Puts both quarantines right. */
    method SettleStores(faults: bool, r: Record, ghost c: Start) returns (o: Outcome)
      requires main != backup && Pending(W(), c) && Fits(W(), c, r)
      requires r.compensation == record.value.compensation
      modifies main, backup
      ensures Pending(W(), c) && Fits(W(), c, r)
      ensures o in {Done, Failed, Crashed}
      ensures o.Done? ==> main.quarantine.Absent? && backup.quarantine.Absent?
      ensures !faults ==> o.Done?
      ensures main.Now() == old(main.Now()) || Settled(old(main.Now()), Allowed(r.mainBefore, r)) == Some(main.Now())
    {
      o := Settle(main, faults, Allowed(r.mainBefore, r));
      if !o.Done? { return; }
      o := Settle(backup, faults, Allowed(r.backupBefore, r));
    }

    /** Writes one Store file and notes whether the Store ever got under its name. */
    method PutStore(d: Directory<StoreFile>, faults: bool, expected: Evidence, s: Store) returns (o: Outcome)
      requires main != backup && d in {main, backup}
      requires !d.final.Odd? && d.quarantine.Absent?
      modifies d, `shown
      ensures old(shown) <= shown <= old(shown) + {s}
      ensures o.Done? ==> d.Now() == Slot(FileOf(s), Absent)
      ensures EvidenceOf(old(d.final)) != expected ==> !o.Done? && d.Now() == old(d.Now()) && shown == old(shown)
      ensures Between(d.Now(), old(d.final), FileOf(s))
      ensures shown != old(shown) ==> d.final == FileOf(s)
      ensures FileOf(s) in {d.final, d.quarantine} && old(d.final) != FileOf(s) ==> s in shown
      ensures !faults && EvidenceOf(old(d.final)) == expected ==> o.Done?
    {
      ghost var n, a := |d.moves|, d.final;
      o := StoreCas(d, faults, expected, s);
      if a != FileOf(s)
          && (FileOf(s) in {d.final, d.quarantine}
              || exists i :: n <= i < |d.moves| && d.moves[i].after.final == FileOf(s)) {
        shown := shown + {s};
      }
    }

    /** Undoes the started steps in reverse, recording each one. */
    method RestoreSteps(faults: bool, r: Record, ghost c: Start) returns (o: Outcome, r': Record)
      requires main != backup && Pending(W(), c) && record == Some(r) && r.phase == Compensating
      modifies `live, `record
      ensures Pending(W(), c) && r'.phase == Compensating && r'.compensation == r.compensation
      ensures o in {Done, Failed, Crashed}
      ensures o.Done? ==> record == Some(r') && SettledFrom(r'.steps, 0)
      ensures !faults ==> o.Done?
    {
      o, r' := Done, r;
      var i := |r.steps|;
      while i > 0
        invariant 0 <= i <= |r.steps| == |r'.steps|
        invariant Pending(W(), c) && record == Some(r')
        invariant r'.phase == Compensating && r'.compensation == r.compensation && o.Done?
        invariant SettledFrom(r'.steps, i)
      {
        i := i - 1;
        if Outstanding(r'.steps[i]) {
          o, r' := RestoreStep(faults, r', i, c);
          if !o.Done? { return; }
        }
      }
    }

    /** Undoes one step and records that it is undone. */
    method RestoreStep(faults: bool, r: Record, i: nat, ghost c: Start) returns (o: Outcome, r': Record)
      requires main != backup && Pending(W(), c) && record == Some(r) && r.phase == Compensating
      requires i < |live| && Outstanding(r.steps[i]) && SettledFrom(r.steps, i + 1)
      modifies `live, `record
      ensures Pending(W(), c) && |live| == |old(live)|
      ensures r'.phase == Compensating && r'.compensation == r.compensation && |r'.steps| == |r.steps|
      ensures o in {Done, Failed, Crashed}
      ensures o.Done? ==> record == Some(r') && SettledFrom(r'.steps, i)
      ensures !faults ==> o.Done?
    {
      r' := r;
      ghost var w := W();
      o := CompensateStep(faults, i);
      StepUndone(w, W(), c, r, i);
      if !o.Done? { return; }
      r' := r.(steps := r.steps[i := r.steps[i].(restored := true)]);
      StepRecorded(W(), c, r, i);
      var io := WriteRecord(faults, r');
      o := if io.Ok? then Done else if io.Dead? then Crashed else Failed;
    }

    /** The two Store files are still ones this transaction may compensate. */
    method StoresCompensable(faults: bool, r: Record) returns (ok: bool, m: Evidence, b: Evidence)
      ensures ok ==>
              !main.final.Odd? && !backup.final.Odd? && m == EvidenceOf(main.final) && b == EvidenceOf(backup.final)
      ensures ok ==> m == r.mainBefore || (r.compensation.Some? && m == Some(Encoded(r.compensation.value)))
      ensures (&& !faults && !main.final.Odd? && !backup.final.Odd?
               && EvidenceOf(main.final) in Allowed(r.mainBefore, r) && EvidenceOf(main.final) != Some(r.digest)
               && EvidenceOf(backup.final) in Allowed(r.backupBefore, r)) ==> ok
    {
      ok, m := ReadEvidence(main, faults);
      b := None;
      if !ok { return; }
      ok, b := ReadEvidence(backup, faults);
      if !ok { return; }
      var compensation := if r.compensation.Some? then Some(Encoded(r.compensation.value)) else None;
      ok := (m == r.mainBefore || (compensation.Some? && m == compensation))
            && (b == r.backupBefore || b == Some(r.digest) || (compensation.Some? && b == compensation));
    }

    /** Reserves the one compensation generation in the receipt. */
    method Reserve(faults: bool, r: Record, ghost c: Start) returns (o: Outcome, r': Record)
      requires main != backup && Pending(W(), c) && record == Some(r) && r.phase == Compensating
      requires r.compensation.None? && SettledFrom(r.steps, 0) && backup.final != c.backup0
      modifies `record
      ensures Pending(W(), c)
      ensures o in {Done, Failed, Crashed}
      ensures o.Done? ==> record == Some(r') && r'.phase == Compensating && r'.compensation == Some(c.Compensation())
      ensures !faults ==> o.Done?
    {
      r' := r;
      var ok, m := ReadEvidence(main, faults);
      if !ok { return Failed, r; }
      var ok', b := ReadEvidence(backup, faults);
      if !ok' { return Failed, r; }
      var highest := Highest(main.final, backup.final);
      if highest == MAX_GENERATION { return Failed, r; }
      r' := r.(compensation := Some(Store(highest + 1, r.before.body)));
      assert Fits(W(), c, r');
      var io := WriteRecord(faults, r');
      o := if io.Ok? then Done else if io.Dead? then Crashed else Failed;
    }

    /** Writes the reserved compensation, backup first, and drops the receipt once both files hold it. */
    method WriteCompensation(faults: bool, r: Record, b: Evidence, ghost c: Start) returns (o: Outcome)
      requires main != backup && Pending(W(), c) && record == Some(r) && r.compensation.Some?
      requires main.quarantine.Absent? && backup.quarantine.Absent? && b == EvidenceOf(backup.final)
      modifies main, backup, `record, `shown
      ensures Pending(W(), c) || RolledBack(W(), c)
      ensures o.Done? ==> record.None?
      ensures !faults ==> o.Done?
    {
      if b != Some(Encoded(r.compensation.value)) {
        o := PutStore(backup, faults, b, r.compensation.value);
        if !o.Done? { return; }
      }
      o := CompensateMain(faults, r, c);
    }

    /** The backup holds the compensation: bring main along, check both, drop the receipt. */
    method CompensateMain(faults: bool, r: Record, ghost c: Start) returns (o: Outcome)
      requires main != backup && Pending(W(), c) && record == Some(r) && r.compensation.Some?
      requires main.quarantine.Absent? && backup.Now() == Slot(c.Comp(), Absent)
      modifies main, `record, `shown
      ensures Pending(W(), c) || RolledBack(W(), c)
      ensures o.Done? ==> record.None?
      ensures !faults ==> o.Done?
    {
      var expected := Some(Encoded(r.compensation.value));
      var ok, m, b := StoresCompensable(faults, r);
      if !ok { return Failed; }
      if m != expected {
        o := PutStore(main, faults, m, r.compensation.value);
        if !o.Done? { return; }
      }
      ok, m := ReadEvidence(main, faults);
      if !ok || m != expected { return Failed; }
      ok, b := ReadEvidence(backup, faults);
      if !ok || b != expected { return Failed; }
      o := RemoveRecord(faults);
    }

    /** Leaves the Store unchanged, or moves both files to the one compensation. */
    method FinishCompensation(faults: bool, r: Record, ghost c: Start) returns (o: Outcome)
      requires main != backup && Pending(W(), c) && record == Some(r) && r.phase == Compensating
      requires main.quarantine.Absent? && backup.quarantine.Absent? && SettledFrom(r.steps, 0)
      modifies main, backup, `record, `shown
      ensures Pending(W(), c) || RolledBack(W(), c)
      ensures o.Done? ==> record.None?
      ensures !faults ==> o.Done?
    {
      var ok, m, b := StoresCompensable(faults, r);
      if !ok { return Failed; }
      if m == r.mainBefore && b == r.backupBefore {
        o := RemoveRecord(faults);
        return;
      }
      var r' := r;
      if r.compensation.None? {
        o, r' := Reserve(faults, r, c);
        if !o.Done? { return; }
      }
      o := WriteCompensation(faults, r', b, c);
    }

    /** Puts the files right and makes the decision to compensate durable. */
    method BeginCompensation(faults: bool, r: Record, ghost c: Start) returns (o: Outcome, r': Record)
      requires main != backup && Pending(W(), c) && Fits(W(), c, r)
      requires r.compensation == record.value.compensation
      requires EvidenceOf(main.final) != Some(r.digest) && r.phase != Settling
      modifies `record, main, backup
      ensures Pending(W(), c)
      ensures o.Done? ==> record == Some(r') && r'.phase == Compensating
      ensures o.Done? ==> main.quarantine.Absent? && backup.quarantine.Absent?
      ensures !faults ==> o.Done?
    {
      r' := r.(phase := Compensating);
      ghost var w := W();
      o := SettleStores(faults, r, c);
      if !o.Done? { return; }
      SettledMainIsNotCandidate(w, W(), c, r);
      CompensationFits(W(), c, r);
      var ok, m, b := StoresCompensable(faults, r);
      if !ok { return Failed, r'; }
      var io := WriteRecord(faults, r');
      o := if io.Ok? then Done else if io.Dead? then Crashed else Failed;
    }

    /** Undoes the whole transaction from wherever it stopped. */
    method Compensate(faults: bool, r: Record, ghost c: Start) returns (o: Outcome)
      requires main != backup && Pending(W(), c) && Fits(W(), c, r)
      requires r.compensation == record.value.compensation
      requires EvidenceOf(main.final) != Some(r.digest) && r.phase != Settling
      modifies this, main, backup
      ensures Pending(W(), c) || RolledBack(W(), c)
      ensures o.Done? ==> record.None?
      ensures !faults ==> o.Done?
    {
      var r';
      o, r' := BeginCompensation(faults, r, c);
      if !o.Done? { return; }
      o, r' := RestoreSteps(faults, r', c);
      if !o.Done? { return; }
      o := FinishCompensation(faults, r', c);
    }

    /** Neither Store file changed since the receipt was written. */
    method StoresUnchanged(faults: bool, r: Record) returns (ok: bool)
      ensures ok ==> EvidenceOf(main.final) == r.mainBefore && EvidenceOf(backup.final) == r.backupBefore
      ensures (&& !faults && !main.final.Odd? && !backup.final.Odd?
               && EvidenceOf(main.final) == r.mainBefore && EvidenceOf(backup.final) == r.backupBefore) ==> ok
    {
      var m, b;
      ok, m := ReadEvidence(main, faults);
      if !ok { return; }
      ok, b := ReadEvidence(backup, faults);
      ok := ok && m == r.mainBefore && b == r.backupBefore;
    }

    /** Compensates after an error; the caller sees the error even when the undo succeeds. */
    method Abandon(faults: bool, r: Record, ghost c: Start) returns (o: Outcome)
      requires main != backup && Pending(W(), c) && Fits(W(), c, r)
      requires r.compensation == record.value.compensation
      requires EvidenceOf(main.final) != Some(r.digest) && r.phase != Settling
      modifies this, main, backup
      ensures Pending(W(), c) || RolledBack(W(), c)
      ensures o in {Failed, Crashed}
      ensures !faults ==> record.None? && o.Failed?
    {
      o := Compensate(faults, r, c);
      if !o.Crashed? { o := Failed; }
    }

    /** What comes of a step, or of a row of them, when nothing else fails: a failed step is undone at once with all
        before it; one that may still be running leaves the receipt for recovery. */
    ghost predicate Ended(o: Outcome, s: StepResult, c: Start)
      reads this, main, backup
    {
      match s
      case StepDone => o.Done?
      case StepFailed => o.Failed? && RolledBack(W(), c)
      case Unsettled => o.Failed? && Pending(W(), c)
      case StepDead => false
    }

    /** Marks one step as started, runs it, and undoes everything when it fails. */
    method RunStep(faults: bool, steady: bool, r: Record, i: nat, ghost c: Start)
      returns (o: Outcome, r': Record, ghost s: StepResult)
      requires main != backup && Pending(W(), c) && record == Some(r) && r.phase == Applying
      requires i < |live| && SettledFrom(r.steps, i) && forall j :: 0 <= j < |live| ==>
               live[j] == if j < i then Applied else Original
      requires forall j :: i <= j < |live| ==> !r.steps[j].started
      modifies this, main, backup
      ensures Pending(W(), c) || RolledBack(W(), c)
      ensures o.Done? ==> && Pending(W(), c) && record == Some(r') && r'.phase == Applying && |live| == |r.steps|
                          && r' == r.(steps := r'.steps)
                          && (forall j :: 0 <= j < |live| ==> live[j] == if j <= i then Applied else Original)
                          && (forall j :: i < j < |live| ==> !r'.steps[j].started)
      ensures o in {Done, Failed, Crashed}
      ensures !faults ==> Ended(o, s, c) && (steady ==> s.StepDone?)
    {
      r', s := r, StepDead;
      var ok := StoresUnchanged(faults, r);
      if !ok {
        o := Abandon(faults, r, c);
        return;
      }
      r' := r.(steps := r.steps[i := r.steps[i].(started := true)]);
      assert Fits(W(), c, r');
      var io := WriteRecord(faults, r');
      if io.Dead? { return Crashed, r', s; }
      if io.Broken? {
        o := Abandon(faults, r', c);
        return;
      }
      ghost var w := W();
      var result := ExecuteStep(faults, steady, i);
      s := result;
      assert Fits(W(), c, r');
      match result {
        case StepDone => o := Done;
        case Unsettled => o := Failed;
        case StepDead => o := Crashed;
        case StepFailed => o := Abandon(faults, r', c);
      }
    }

    /** The commit proper: backup first, main as the commit point. */
    method PersistStore(faults: bool, r: Record, ghost c: Start) returns (o: Outcome)
      requires main != backup && Pending(W(), c) && record == Some(r) && r.phase == Committing
      requires main.Now() == Slot(c.main0, Absent) && backup.Now() == Slot(c.backup0, Absent)
      modifies main, backup, `shown
      ensures Pending(W(), c) && record == Some(r)
      ensures o.Done? ==> main.Now() == backup.Now() == Slot(c.Cand(), Absent)
      ensures !faults ==> o.Done?
    {
      var ok := StoresUnchanged(faults, r);
      if !ok { return Failed; }
      o := PutStore(backup, faults, r.backupBefore, r.candidate);
      if !o.Done? { return; }
      var b;
      ok, b := ReadEvidence(backup, faults);
      if !ok || b != Some(r.digest) { return Failed; }
      o := PutStore(main, faults, r.mainBefore, r.candidate);
    }

    /** Everything after the last step: fix the finished candidate, commit it, drop the receipt. */
    method CommitCandidate(faults: bool, r: Record, finished: Store, ghost c: Start) returns (o: Outcome)
      requires main != backup && Pending(W(), c) && record == Some(r) && r.phase == Applying
      requires AllApplied(live) && finished == c.candidate
      modifies this, main, backup
      ensures Pending(W(), c) || Terminal(W(), c)
      ensures o.Done? ==> Committed(W(), c)
      ensures !faults ==> o.Done?
    {
      var r' := r.(candidate := finished, digest := Encoded(finished), phase := Committing);
      assert Fits(W(), c, r');
      var io := WriteRecord(faults, r');
      if io.Dead? { return Crashed; }
      if io.Broken? {
        o := Abandon(faults, r', c);
        return;
      }
      var ok := StoresUnchanged(faults, r');
      if !ok { return Failed; }
      o := PersistStore(faults, r', c);
      if o.Crashed? { return; }
      if !o.Done? {
        var m;
        ok, m := ReadEvidence(main, faults);
        if !ok || m == Some(r'.digest) { return Failed; }
        o := Abandon(faults, r', c);
        return;
      }
      o := FinishCommit(faults, r', c);
    }

    /** Records the commit and drops the receipt. */
    method FinishCommit(faults: bool, r: Record, ghost c: Start) returns (o: Outcome)
      requires main != backup && Pending(W(), c) && record == Some(r) && r.phase == Committing
      requires main.Now() == backup.Now() == Slot(c.Cand(), Absent)
      modifies `record
      ensures Pending(W(), c) || Committed(W(), c)
      ensures o.Done? ==> Committed(W(), c)
      ensures !faults ==> o.Done?
    {
      var ok := StoresCommitted(faults, r);
      if !ok { return Failed; }
      var io := WriteRecord(faults, r.(phase := Settling));
      if !io.Ok? { return if io.Dead? then Crashed else Failed; }
      ok := StoresCommitted(faults, r);
      if !ok { return Failed; }
      o := RemoveRecord(faults);
    }

    /** Both files hold the fixed candidate. */
    method StoresCommitted(faults: bool, r: Record) returns (ok: bool)
      ensures ok ==> EvidenceOf(main.final) == EvidenceOf(backup.final) == Some(r.digest)
      ensures !faults && EvidenceOf(main.final) == EvidenceOf(backup.final) == Some(r.digest) ==> ok
    {
      var m, b;
      ok, m := ReadEvidence(main, faults);
      if !ok || m != Some(r.digest) { return false; }
      ok, b := ReadEvidence(backup, faults);
      ok := ok && b == Some(r.digest);
    }

    /** Finishes or undoes the transaction a crash or an error left behind. */
    method Recover(faults: bool, ghost c: Start) returns (found: bool, o: Outcome)
      requires main != backup && (Pending(W(), c) || Terminal(W(), c))
      modifies this, main, backup
      ensures Pending(W(), c) || Terminal(W(), c)
      ensures found == old(record).Some?
      ensures !found ==> W() == old(W())
      ensures o.Done? ==> record.None?
      ensures !faults ==> o.Done?
    {
      if record.None? { return false, Done; }
      found := true;
      var r := record.value;
      if faults {
        if * { return true, Failed; }
      }
      o := SettleStores(faults, r, c);
      if !o.Done? { return; }
      var ok, m := ReadEvidence(main, faults);
      if !ok { return true, Failed; }
      if m == Some(r.digest) {
        if r.phase !in {Committing, Settling} { return true, Failed; }
        ok := StoresCommitted(faults, r);
        if !ok { return true, Failed; }
        o := RemoveRecord(faults);
      } else if r.phase == Settling {
        o := Failed;
      } else {
        o := Compensate(faults, r, c);
      }
    }

    /** The mutation starts from the Store on disk, and two generations are left for it and for its undoing. */
    ghost predicate Plannable(before: Store, names: seq<StepName>)
      reads main, backup
    {
      && !main.final.Odd? && !backup.final.Odd?
      && Observed(EvidenceOf(main.final), EvidenceOf(backup.final)) == Some(before)
      && Highest(main.final, backup.final) + 2 <= MAX_GENERATION
      && |names| <= 4 && forall i, j :: 0 <= i < j < |names| ==> names[i] != names[j]
    }

    /** Binds the mutation to the files as they are and reserves two generations. */
    method Plan(faults: bool, before: Store, body: string, names: seq<StepName>) returns (r: Option<Record>)
      ensures !faults && Plannable(before, names) ==> r.Some?
      ensures r.Some? ==>
                && Plannable(before, names) && ValidRecord(r.value)
                && var planned := Store(Highest(main.final, backup.final) + 1, body);
                   r.value == Record(Applying, before, planned, Encoded(planned), EvidenceOf(main.final),
                                     EvidenceOf(backup.final), None,
                                     seq(|names|, i requires 0 <= i < |names| => Step(names[i], false, false)))
    {
      var ok, m := ReadEvidence(main, faults);
      if !ok { return None; }
      var ok', b := ReadEvidence(backup, faults);
      if !ok' { return None; }
      if Observed(m, b) != Some(before) { return None; }
      var generation := Highest(main.final, backup.final);
      if generation < before.generation { generation := before.generation; }
      if generation >= MAX_GENERATION - 1 { return None; }
      var planned := Store(generation + 1, body);
      var steps := seq(|names|, i requires 0 <= i < |names| => Step(names[i], false, false));
      var plan := Record(Applying, before, planned, Encoded(planned), m, b, None, steps);
      assert forall i :: 0 <= i < |names| ==> steps[i].name == names[i];
      if !ValidRecord(plan) { return None; }
      r := Some(plan);
    }

    /** The start of a transaction on the present files. */
    ghost function StartHere(before: Store, body: string, finished: string, names: seq<StepName>): Start
      reads this, main, backup
    {
      var high := Highest(main.final, backup.final);
      Start(before, main.final, backup.final, high, names, Store(high + 1, body), Store(high + 1, finished), shown)
    }

    /** Runs every step in order; the first failure ends the transaction. */
    method RunSteps(faults: bool, steady: bool, r0: Record, ghost c: Start)
      returns (o: Outcome, r: Record, ghost s: StepResult)
      requires main != backup && Pending(W(), c) && record == Some(r0) && r0.phase == Applying
      requires AllOriginal(live) && forall j :: 0 <= j < |r0.steps| ==> !r0.steps[j].started
      modifies this, main, backup
      ensures Pending(W(), c) || RolledBack(W(), c)
      ensures o.Done? ==> Pending(W(), c) && record == Some(r) && r == r0.(steps := r.steps) && AllApplied(live)
      ensures !faults ==> Ended(o, s, c) && (steady ==> s.StepDone?)
    {
      var i := 0;
      o, r, s := Done, r0, StepDone;
      while i < |r0.steps|
        invariant 0 <= i <= |r0.steps| == |r.steps| == |live| && o.Done? && s.StepDone?
        invariant Pending(W(), c) && record == Some(r) && r == r0.(steps := r.steps)
        invariant forall j :: 0 <= j < |live| ==> live[j] == if j < i then Applied else Original
        invariant forall j :: i <= j < |live| ==> !r.steps[j].started
      {
        o, r, s := RunStep(faults, steady, r, i, c);
        if !o.Done? { return; }
        s := StepDone;
        i := i + 1;
      }
    }

    /** Plans, records, applies and commits one mutation. `finished` is what the steps leave the Store body
        as, and `sound` whether that Store can be encoded; an unsound one leaves the receipt for recovery. */
    method Commit(faults: bool, steady: bool, before: Store, body: string, finished: string, sound: bool,
                  names: seq<StepName>)
      returns (o: Outcome, rejected: bool, ghost s: StepResult)
      requires main != backup && (record.None? ==> Ready(W()) && Fresh(W()))
      modifies this, main, backup
      ensures rejected ==> W() == old(W()) && o.Failed?
      ensures old(record).Some? ==> rejected
      ensures !rejected ==> var c := old(StartHere(before, body, finished, names));
                            && c.Good() && Observed(EvidenceOf(c.main0), EvidenceOf(c.backup0)) == Some(before)
                            && (Pending(W(), c) || Terminal(W(), c))
                            && (o.Done? ==> Committed(W(), c))
      ensures !faults && steady && sound && old(record).None? && old(Plannable(before, names)) ==> o.Done?
      ensures !rejected && !faults ==>
                (s.StepDone? && !sound) || Ended(o, s, old(StartHere(before, body, finished, names)))
    {
      s := StepDone;
      hide Fits;
      hide ValidRecord;
      hide Committed;
      hide RolledBack;
      hide Observed;
      hide EvidenceOf;
      hide Highest;
      if record.Some? { return Failed, true, s; }
      var plan := Plan(faults, before, body, names);
      if plan.None? { return Failed, true, s; }
      rejected := false;
      var r := plan.value;
      ghost var c := StartHere(before, body, finished, names);
      live := seq(|names|, _ => Original);
      assert forall j :: 0 <= j < |names| ==> r.steps[j].name == names[j];
      var io := WriteRecord(faults, r);
      PlanFits(W(), c, r);
      if !io.Ok? { return if io.Dead? then Crashed else Failed, false, s; }
      o, r, s := RunSteps(faults, steady, r, c);
      if !o.Done? || !sound {
        if o.Done? { o := Failed; }
        return;
      }
      o := CommitCandidate(faults, r, Store(r.candidate.generation, finished), c);
    }
  }

  // What a mutation may start from, in terms of the files.

  /** The file's bytes decode to this Store. */
  predicate Says(a: Entry, s: Store) {
    a.File? && (a.content.image == Encoded(s) || (a.content.image.Opaque? && a.content.image.decoded == Some(s)))
  }

  predicate Decodes(a: Entry) { a.File? && (a.content.image.Encoded? || a.content.image.decoded.Some?) }

  /** Main wins when it decodes, otherwise the backup when that does; without any file it is the empty Store. */
  predicate OnDisk(main: Entry, backup: Entry, s: Store) {
    || Says(main, s)
    || (!Decodes(main) && Says(backup, s))
    || (main.Absent? && backup.Absent? && s == Store(0, ""))
  }

  lemma ObservedOnDisk(main: Entry, backup: Entry, s: Store)
    requires !main.Odd? && !backup.Odd?
    ensures Observed(EvidenceOf(main), EvidenceOf(backup)) == Some(s) <==> OnDisk(main, backup, s)
  {
  }

  /** No file decodes to a generation above n. */
  ghost predicate GenerationsUpTo(main: Entry, backup: Entry, n: nat) {
    forall s :: Says(main, s) || Says(backup, s) ==> s.generation <= n
  }

  lemma HighestOnDisk(main: Entry, backup: Entry, n: nat)
    ensures Highest(main, backup) <= n <==> GenerationsUpTo(main, backup, n)
  {
    if main.File? && Decodes(main) { assert Says(main, Decode(EvidenceOf(main)).value); }
    if backup.File? && Decodes(backup) { assert Says(backup, Decode(EvidenceOf(backup)).value); }
  }

  /** Exactly when a mutation nothing stands in the way of commits, and what the files hold then. */
  method CommitsExactly(m: Coordinator, before: Store, body: string, finished: string, names: seq<StepName>)
    returns (o: Outcome, ghost n: nat)
    requires m.main != m.backup && m.record.None? && Ready(m.W()) && Fresh(m.W())
    modifies m, m.main, m.backup
    ensures o.Done? <==>
              && !old(m.main.final).Odd? && !old(m.backup.final).Odd?
              && OnDisk(old(m.main.final), old(m.backup.final), before)
              && GenerationsUpTo(old(m.main.final), old(m.backup.final), MAX_GENERATION - 2)
              && |names| <= 4 && forall i, j :: 0 <= i < j < |names| ==> names[i] != names[j]
    ensures GenerationsUpTo(old(m.main.final), old(m.backup.final), n)
    ensures forall k: nat :: GenerationsUpTo(old(m.main.final), old(m.backup.final), k) ==> n <= k
    ensures o.Done? ==>
              && m.main.Now() == m.backup.Now() == Slot(FileOf(Store(n + 1, finished)), Absent)
              && m.record.None? && |m.live| == |names| && AllApplied(m.live)
    ensures !o.Done? ==> m.W() == old(m.W())
  {
    if !m.main.final.Odd? && !m.backup.final.Odd? { ObservedOnDisk(m.main.final, m.backup.final, before); }
    HighestOnDisk(m.main.final, m.backup.final, MAX_GENERATION - 2);
    n := Highest(m.main.final, m.backup.final);
    forall k: nat ensures n <= k <==> GenerationsUpTo(m.main.final, m.backup.final, k) {
      HighestOnDisk(m.main.final, m.backup.final, k);
    }
    ghost var c := m.StartHere(before, body, finished, names);
    var rejected;
    ghost var s;
    o, rejected, s := m.Commit(false, true, before, body, finished, true, names);
  }

  /** A new installation, with no Store file at all, commits its first mutation. */
  method FirstCommit(m: Coordinator, body: string, finished: string, names: seq<StepName>) returns (o: Outcome)
    requires m.main != m.backup && m.record.None? && m.shown == {}
    requires m.main.Now() == m.backup.Now() == Slot(Absent, Absent)
    requires |names| <= 4 && forall i, j :: 0 <= i < j < |names| ==> names[i] != names[j]
    modifies m, m.main, m.backup
    ensures o.Done? && m.main.Now() == m.backup.Now() == Slot(FileOf(Store(1, finished)), Absent)
  {
    ghost var c := m.StartHere(EMPTY, body, finished, names);
    ghost var n;
    o, n := CommitsExactly(m, EMPTY, body, finished, names);
    assert GenerationsUpTo(Absent, Absent, 0);
  }

  lemma PlanFits(w: World, c: Start, r: Record)
    requires c.Good() && ValidRecord(r) && |w.live| == |c.names| && AllOriginal(w.live)
    requires w.main == Slot(c.main0, Absent) && w.backup == Slot(c.backup0, Absent) && w.shown == c.shown0
    requires r == Record(Applying, c.before, c.planned, Encoded(c.planned), EvidenceOf(c.main0), EvidenceOf(c.backup0),
                         None, seq(|c.names|, i requires 0 <= i < |c.names| => Step(c.names[i], false, false)))
    ensures Fits(w, c, r)
    ensures w.record.None? ==> RolledBack(w, c)
  {}

  /** At every instant of a transaction, forward or backward, attached routes are served, for scenes that keep their
      address. */
  lemma PendingRoutesAreServed(w: World, c: Start, d: Change, s: Scene, a: Address)
    requires Pending(w, c) && c.names == d.Names() && d.Planned() && !d.Moves(s)
    requires RoutedAt(d, w.live, s, a)
    ensures SurelyServed(d, w.live, s, a)
  {
    ShapeTapers(w.live, w.record.value.steps, c.names, |w.live|);
    RoutesAreServed(d, w.live, s, a);
  }

  /** A mutation as it is requested. */
  datatype Request = Request(before: Store, body: string, finished: string, sound: bool, names: seq<StepName>,
                             interruptions: nat)

  /** All or nothing: a commit cut short anywhere, any number of recoveries cut short anywhere, and one
      recovery that is left alone end with the candidate in both files and every step applied, or with
      every step undone and both files untouched or holding the one compensation. */
  method AllOrNothing(m: Coordinator, q: Request) returns (rejected: bool, ghost c: Start)
    requires m.main != m.backup && Ready(m.W()) && Fresh(m.W())
    modifies m, m.main, m.backup
    ensures Ready(m.W()) && Fresh(m.W()) && old(m.W()).shown <= m.shown
    ensures rejected ==> m.W() == old(m.W())
    ensures !rejected ==> && c == old(m.StartHere(q.before, q.body, q.finished, q.names))
                          && Terminal(m.W(), c)
  {
    var o;
    c := m.StartHere(q.before, q.body, q.finished, q.names);
    ghost var s;
    o, rejected, s := m.Commit(true, false, q.before, q.body, q.finished, q.sound, q.names);
    if rejected { return; }
    for i := 0 to q.interruptions
      invariant c.Good() && (Pending(m.W(), c) || Terminal(m.W(), c))
    {
      var _, _ := m.Recover(true, c);
    }
    var _, _ := m.Recover(false, c);
    TerminalIsFresh(m.W(), c);
  }

  /** Over any history of mutations, failures and recoveries no generation gets two contents. */
  method History(m: Coordinator, requests: seq<Request>)
    requires m.main != m.backup && Ready(m.W()) && Fresh(m.W())
    modifies m, m.main, m.backup
    ensures Ready(m.W()) && OneContent(m.shown) && old(m.W()).shown <= m.shown
    ensures forall s :: s in m.shown ==> s.generation <= Highest(m.main.final, m.backup.final)
  {
    for i := 0 to |requests|
      invariant Ready(m.W()) && Fresh(m.W()) && old(m.W()).shown <= m.shown
    {
      var _, _ := AllOrNothing(m, requests[i]);
    }
  }

  /** Undoing the last step that is not original keeps the world fitting its receipt. */
  lemma StepUndone(w: World, w': World, c: Start, r: Record, i: nat)
    requires Pending(w, c) && Fits(w, c, r) && r.phase == Compensating
    requires i < |w.live| == |w'.live| && Outstanding(r.steps[i]) && SettledFrom(r.steps, i + 1)
    requires w' == w.(live := w'.live)
    requires forall j :: 0 <= j < |w.live| && j != i ==> w'.live[j] == w.live[j]
    ensures Fits(w', c, r)
  {}

  /** Once both quarantines are right and main is not the candidate, the receipt may turn to compensating. */
  lemma CompensationFits(w: World, c: Start, r: Record)
    requires c.Good() && Fits(w, c, r) && r.phase != Settling
    requires w.main.claimed.Absent? && w.backup.claimed.Absent? && EvidenceOf(w.main.final) != Some(r.digest)
    ensures Fits(w, c, r.(phase := Compensating))
    ensures !w.main.final.Odd? && EvidenceOf(w.main.final) in Allowed(r.mainBefore, r)
    ensures !w.backup.final.Odd? && EvidenceOf(w.backup.final) in Allowed(r.backupBefore, r)
  {}

  /** Settling never brings the candidate back under the main name. */
  lemma SettledMainIsNotCandidate(w: World, w': World, c: Start, r: Record)
    requires c.Good() && Fits(w, c, r) && r.phase != Settling
    requires EvidenceOf(w.main.final) != Some(r.digest)
    requires w'.main == w.main || Settled(w.main, Allowed(r.mainBefore, r)) == Some(w'.main)
    ensures EvidenceOf(w'.main.final) != Some(r.digest)
  {}

  lemma StepRecorded(w: World, c: Start, r: Record, i: nat)
    requires Fits(w, c, r) && i < |w.live| && w.live[i] == Original
    requires r.steps[i].started
    ensures Fits(w, c, r.(steps := r.steps[i := r.steps[i].(restored := true)]))
  {
  }
}
