/** Ownership of the two global proxy files, over any interleaving with an administrator. */
module GlobalJournal {
  import opened Wrappers
  import opened Artifacts
  import opened TwoNameCas
  import opened StoreFiles
  import opened JournalCopies
  import opened GlobalOwnership
  import opened GlobalReceipt

  /** The owner of the two files and of their journal. */
  class GlobalProxy {
    const profile: Directory<FileState>
    const apt: Directory<FileState>
    const copies: Copies<Journal>
    ghost var zp: Origin
    ghost var za: Origin
    /** What the runtime step under way has recorded; it only serves to say what an undisturbed step can leave. */
    ghost var receipt: Receipt

    constructor (profile: Directory<FileState>, apt: Directory<FileState>)
      requires profile != apt && profile.quarantine.Absent? && apt.quarantine.Absent?
      ensures this.profile == profile && this.apt == apt && fresh(copies)
      ensures Inv() && copies.Load().NoJournal?
    {
      this.profile, this.apt := profile, apt;
      copies := new Copies<Journal>();
      zp, za := Origin(Absent, 0, 0), Origin(Absent, 0, 0);
      receipt := Receipt(None, Plan(Absent, Absent, []), Plan(Absent, Absent, []), 0);
    }

    ghost predicate Inv()
      reads this, profile, apt, copies
    {
      && profile != apt && copies.Valid()
      && Sound(copies.main, copies.backup, copies.Load(), zp, za, profile.Past(), apt.Past())
    }

    ghost function Stand(): Standing
      reads this, profile, apt, copies
    {
      Standing(copies.Load(), zp, za, profile.Past(), apt.Past())
    }

    /** One of the two files is at rest. */
    ghost predicate AtRest(second: bool)
      reads this, profile, apt, copies
    {
      Resting(copies.main, copies.backup, copies.Load(), second, if second then za else zp,
              if second then apt.Past() else profile.Past())
    }

    lemma RenewIsSound(v: Versioned<Journal>, proxies: Proxies)
      requires Inv() && copies.Load() == Found(v) && v.journal.stage == Active
      requires profile.final == File(v.journal.profile.managed.value)
      requires apt.final == File(v.journal.apt.managed.value)
      ensures var j := v.journal;
              var next := Journal(Prepared, j.profile.(pending := Some(Desired(proxies, false))),
                                  j.apt.(pending := Some(Desired(proxies, true))));
              && ValidJournal(next) && InForce(next, zp, za, profile.Past(), apt.Past())
              && forall g :: CopyOk(Some(Versioned(g, next)), zp, za, profile.Past(), apt.Past())
    {
    }

    lemma RenewIsRipe(v: Versioned<Journal>, p: FileState, a: FileState)
      requires Inv() && copies.Load() == Found(v) && v.journal.stage == Active
      requires profile.final == File(v.journal.profile.managed.value)
      requires apt.final == File(v.journal.apt.managed.value)
      ensures Ripe(profile.Now(), v.journal.profile.(pending := Some(p)))
      ensures Ripe(apt.Now(), v.journal.apt.(pending := Some(a)))
    {
    }

    /** The step is still within its receipt, and its journal not dropped. */
    ghost predicate WithinStep()
      reads this, profile, apt, copies
    {
      InStep(copies.main, copies.backup, copies.Load(), profile.Now(), apt.Now(), receipt)
    }

    /** The step has not begun. */
    ghost predicate AtStart()
      reads this, profile, apt, copies
    {
      AtReceipt(copies.main, copies.backup, copies.Load(), profile.Now(), apt.Now(), receipt)
    }

    /** The step can be undone. */
    ghost predicate CanUndo()
      reads this, profile, apt, copies
    {
      Compensable(copies.main, copies.backup, profile.Now(), apt.Now(), receipt)
    }

    lemma StepCanBeUndone()
      requires WithinStep()
      ensures CanUndo()
    {
      InStepIsCompensable(copies.main, copies.backup, copies.Load(), profile.Now(), apt.Now(), receipt);
    }

    lemma InForceIsValid()
      requires Inv()
      ensures copies.Load().Found? ==>
              ValidJournal(copies.Load().version.journal) && copies.Load().version.generation == copies.Newest()
    {
    }

    /** Both pending values can be written. */
    predicate Installable()
      reads copies, profile, apt
    {
      && copies.Load().Found? && Ripe(profile.Now(), copies.Load().version.journal.profile)
      && Ripe(apt.Now(), copies.Load().version.journal.apt)
    }

    /** The active journal's files are what the program left. */
    predicate InHand(j: Journal)
      reads profile, apt
    {
      && j.profile.managed.Some? && profile.final == File(j.profile.managed.value)
      && j.apt.managed.Some? && apt.final == File(j.apt.managed.value)
    }

    /** An undisturbed apply succeeds. */
    ghost predicate Appliable(proxies: Proxies)
      reads copies, profile, apt
    {
      match copies.Load()
      case NoJournal => !profile.final.Odd? && !apt.final.Odd?
      case Found(v) =>
        if v.journal.stage == Active then InHand(v.journal) && v.generation + 1 < MAX_GENERATION
        else if Ready(proxies) then Installable() && v.generation < MAX_GENERATION
        else Returnable()
      case Conflict => false
    }

    /** An apply goes no further than reading. */
    ghost predicate Refuses(proxies: Proxies)
      reads copies, profile, apt
    {
      match copies.Load()
      case NoJournal => profile.final.Odd? || apt.final.Odd?
      case Found(v) =>
        if v.journal.stage == Active then !InHand(v.journal)
        else Ready(proxies) && !(InPlace(profile.Now(), v.journal.profile) && InPlace(apt.Now(), v.journal.apt))
      case Conflict => true
    }

    /** Nothing was written. */
    twostate predicate Untouched()
      reads profile, apt, copies
    {
      && profile.Past() == old(profile.Past()) && apt.Past() == old(apt.Past())
      && copies.main == old(copies.main) && copies.backup == old(copies.backup)
    }

    /** An undisturbed restore succeeds. */
    predicate Returnable()
      reads copies, profile, apt
    {
      copies.Load().Found? ==>
        var v := copies.Load().version;
        && Decidable(v, profile.Now(), apt.Now())
        && Givable(profile.Now(), v.journal.profile) && Givable(apt.Now(), v.journal.apt)
    }

    /** Both files can be read, and a generation is left if the journal has to be written. */
    static predicate Decidable(v: Versioned<Journal>, p: Slot<FileState>, a: Slot<FileState>) {
      && Legible(p, v.journal.profile) && Legible(a, v.journal.apt)
      && (v.generation < MAX_GENERATION || Decided(v.journal, p, a) == v.journal)
    }

    /** The logical read of one file: the final name first, then the quarantine. */
    static method ReadLogical(d: Directory<FileState>, env: Env, expected: seq<Held>)
      returns (r: Reading<FileState>, ghost h1: History<FileState>)
      modifies d
      ensures StepTo(old(d.Past()), h1, env, h1.slot, h1.slot, false)
      ensures StepTo(h1, d.Past(), env, d.Now(), d.Now(), false)
      ensures r == Logical(h1.slot, expected)
      ensures !env.admin ==> d.Now() == old(d.Now()) && r == Logical(d.Now(), expected)
    {
      var final := d.Read(env, false);
      h1 := d.Past();
      var claimed := d.Read(env, true);
      r := Logical(Slot(final, claimed), expected);
    }

    /** Brings one file back to its original. */
    static method RestoreFile(d: Directory<FileState>, env: Env, o: Owned, o': Owned, ghost z: Origin, ghost n: Sight)
      returns (r: Outcome)
      requires CopyInv(o, z, d.Past()) && PathInv(o', z, d.Past()) && Adopted(o, o', z, n, d.Past())
      modifies d
      ensures PathInv(o', z, d.Past()) && Grows(old(d.edits), d.edits, env)
      ensures r.Done? ==> Rested(z, d.Past()) && ReturnedSince(o, z, n, d.Past())
      ensures env == Calm ==> (r, d.Now()) == CalmCas(old(d.Now()), RestoreExpected(o), o'.original)
      ensures CasEffect(old(d.Past()), d.Past(), env, r, RestoreExpected(o), o'.original)
    {
      ghost var h0 := d.Past();
      if o'.original.Absent? {
        var removed;
        r, removed := RemoveCas(d, env, RestoreExpected(o));
      } else {
        r := WriteCas(d, env, RestoreExpected(o), o'.original);
      }
      RestoreKeeps(o, o', z, n, h0, d.Past(), env);
    }

    /** A restore's logical read of one file. */
    static method Inspect(d: Directory<FileState>, env: Env, o: Owned, ghost z: Origin)
      returns (r: Reading<FileState>, ghost n: Sight)
      requires PathInv(o, z, d.Past())
      modifies d
      ensures PathInv(o, z, d.Past()) && Grows(old(d.edits), d.edits, env) && d.quarantine == old(d.quarantine)
      ensures r.Value? ==>
              PathInv(Adopt(o, r.state), z, d.Past()) && Adopted(o, Adopt(o, r.state), z, n, d.Past()) && !r.state.Odd?
      ensures r.Value? ==> Saw(n, old(d.Past()), d.Past())
      ensures !env.admin ==>
              d.Now() == old(d.Now()) && r == Logical(d.Now(), RestoreExpected(o))
                  && (r.Value? ==> r.state == View(d.Now()))
    {
      hide PathInv;
      hide Adopted;
      ghost var h, h1 := d.Past(), d.Past();
      r, h1 := ReadLogical(d, env, RestoreExpected(o));
      n := Sight(|h1.edits|, if r.Value? then r.state else Absent);
      assert d.edits[..n.at] == h1.edits;
      PathTurn(o, z, h, h1, env);
      PathTurn(o, z, h1, d.Past(), env);
      if r.Value? { AdoptKeeps(o, z, h, h1, d.Past(), env, r.state); }
    }

    /** Both logical reads of a restore, and the journal that follows from them. */
    method Survey(env: Env, v: Versioned<Journal>) returns (ok: bool, next: Journal, ghost seen: Seen)
      requires Inv() && copies.Load() == Found(v)
      modifies profile, apt
      ensures Inv() && copies.Load() == Found(v)
      ensures ok ==> && next.stage == Restoring && InForce(next, zp, za, profile.Past(), apt.Past())
                     && Adopted(v.journal.profile, next.profile, zp, seen.profile, profile.Past())
                     && Adopted(v.journal.apt, next.apt, za, seen.apt, apt.Past())
                     && ValidJournal(next)
      ensures ok ==> && Saw(seen.profile, old(profile.Past()), profile.Past())
                     && Saw(seen.apt, old(apt.Past()), apt.Past())
      ensures Grows(old(profile.edits), profile.edits, env) && Grows(old(apt.edits), apt.edits, env)
      ensures !env.admin ==> && profile.Now() == old(profile.Now()) && apt.Now() == old(apt.Now())
                             && (ok <==> Legible(profile.Now(), v.journal.profile) && Legible(apt.Now(), v.journal.apt))
                             && (ok ==> next == Decided(v.journal, profile.Now(), apt.Now()))
    {
      hide PathInv;
      hide CopyInv;
      hide Adopted;
      hide Logical;
      var j := v.journal;
      ghost var hp, ha := profile.Past(), apt.Past();
      var p, np := Inspect(profile, env, j.profile, zp);
      var a, na := Inspect(apt, env, j.apt, za);
      seen := Seen(np, na);
      SoundGrows(copies.main, copies.backup, v, zp, za, hp, ha, profile.Past(), apt.Past());
      next := j;
      if p.Refused? || a.Refused? { return false, j, seen; }
      ok, next := true, Journal(Restoring, Adopt(j.profile, p.state), Adopt(j.apt, a.state));
    }

    /** Makes the restore decision durable before either file is touched. */
    method Decide(env: Env, v: Versioned<Journal>) returns (o: Outcome, next: Journal, ghost seen: Seen)
      requires Inv() && copies.Load() == Found(v)
      modifies profile, apt, copies
      ensures Inv() && copies.Newest() <= old(copies.Newest()) + 1
      ensures copies.Load().Found?
      ensures o.Done? ==> && copies.Load().version.journal == next && next.stage == Restoring
                          && CopyInv(v.journal.profile, zp, profile.Past()) && CopyInv(v.journal.apt, za, apt.Past())
                          && Adopted(v.journal.profile, next.profile, zp, seen.profile, profile.Past())
                          && Adopted(v.journal.apt, next.apt, za, seen.apt, apt.Past())
      ensures Grows(old(profile.edits), profile.edits, env) && Grows(old(apt.edits), apt.edits, env)
      ensures o.Done? ==> && Saw(seen.profile, old(profile.Past()), profile.Past())
                          && Saw(seen.apt, old(apt.Past()), apt.Past())
      ensures !env.admin ==> profile.Now() == old(profile.Now()) && apt.Now() == old(apt.Now())
      ensures env == Calm ==> (o.Done? <==> Decidable(v, profile.Now(), apt.Now()))
      ensures env == Calm && o.Done? ==> next == Decided(v.journal, profile.Now(), apt.Now())
      ensures !env.admin && old(WithinStep()) ==> WithinStep() && (o.Done? ==> next == v.journal.(stage := Restoring))
      ensures !env.admin && old(WithinStep()) && v.journal.stage != Restoring && o.Done? ==>
              CopyLineal(copies.main, receipt)
    {
      hide LoadFrom;
      hide PathInv;
      hide CopyInv;
      hide Adopted;
      hide StageFits;
      hide Lineal;
      hide GoodPlan;
      hide Offers;
      var ok;
      if WithinStep() {
        DecidesInStep(profile.Now(), v.journal.stage, v.journal.profile, receipt.profile);
        DecidesInStep(apt.Now(), v.journal.stage, v.journal.apt, receipt.apt);
      }
      ok, next, seen := Survey(env, v);
      if !ok { return Failed, next, seen; }
      o := Done;
      CopyIsOk(next, zp, za, profile.Past(), apt.Past());
      if next != v.journal {
        o := copies.Save(env, v.generation, next);
      }
    }

    /** Gives both files back and drops the journal. */
    method Restore(env: Env) returns (o: Outcome, ghost seen: Seen)
      requires Inv()
      modifies profile, apt, copies
      ensures Inv() && copies.Newest() <= old(copies.Newest()) + 1
      ensures o.Done? ==> copies.Load().NoJournal?
      ensures o.Done? && old(copies.Load()).Found? ==> Rested(zp, profile.Past()) && Rested(za, apt.Past())
      ensures o.Done? && old(copies.Load()).Found? ==>
                var j := old(copies.Load()).version.journal;
                && Saw(seen.profile, old(profile.Past()), profile.Past()) && Saw(seen.apt, old(apt.Past()), apt.Past())
                && ReturnedSince(j.profile, zp, seen.profile, profile.Past())
                && ReturnedSince(j.apt, za, seen.apt, apt.Past())
      ensures copies.Load().NoJournal? && old(copies.Load()).Found? ==>
                Rested(zp, profile.Past()) && Rested(za, apt.Past())
      ensures old(copies.Load()).NoJournal? ==> o.Done? && Stand() == old(Stand())
      ensures !env.admin ==> Carries(old(Stand()), Stand())
      ensures Grows(old(profile.edits), profile.edits, env) && Grows(old(apt.edits), apt.edits, env)
      ensures env == Calm ==> (o.Done? <==> old(Returnable()))
      ensures !env.admin
              && old(WithinStep() && (copies.Load().Found? ==> copies.Load().version.journal.stage != Restoring)) ==>
                   CanUndo()
    {
      hide Sound;
      hide InStep;
      hide Compensable;
      hide Rested;
      hide Adopted;
      hide CopyInv;
      hide CopyLineal;
      hide ReturnedSince;
      hide Givable;
      hide Legible;
      hide CalmCas;
      InForceIsValid();
      seen := Seen(Sight(|profile.edits|, profile.final), Sight(|apt.edits|, apt.final));
      var loaded := copies.Load();
      ghost var within := !env.admin && WithinStep() && (loaded.Found? ==> loaded.version.journal.stage != Restoring);
      if within { StepCanBeUndone(); }
      if loaded.NoJournal? { return Done, seen; }
      var next;
      WhenReturned(loaded.version.journal);
      o, next, seen := Decide(env, loaded.version);
      if within { StepCanBeUndone(); }
      if !env.admin { CarriesOn(old(Stand()), Stand()); }
      if !o.Done? { return; }
      ghost var hp, ha := profile.Past(), apt.Past();
      o := CarryOut(env, loaded.version.journal, next, seen);
      if !env.admin { CarriesOn(old(Stand()), Stand()); }
      if o.Done? {
        SawOn(seen.profile, old(profile.Past()), hp, profile.Past());
        SawOn(seen.apt, old(apt.Past()), ha, apt.Past());
      }
    }

    /** What a restore does once it is decided. */
    method CarryOut(env: Env, j: Journal, next: Journal, ghost seen: Seen) returns (o: Outcome)
      requires Inv() && copies.Load().Found? && copies.Load().version.journal == next && next.stage == Restoring
      requires CopyInv(j.profile, zp, profile.Past()) && CopyInv(j.apt, za, apt.Past())
      requires Adopted(j.profile, next.profile, zp, seen.profile, profile.Past())
      requires Adopted(j.apt, next.apt, za, seen.apt, apt.Past())
      modifies profile, apt, copies
      ensures Inv() && copies.Newest() <= old(copies.Newest())
      ensures Grows(old(profile.edits), profile.edits, env) && Grows(old(apt.edits), apt.edits, env)
      ensures o.Done? ==> copies.Load().NoJournal? && Rested(zp, profile.Past()) && Rested(za, apt.Past())
      ensures copies.Load().NoJournal? ==> Rested(zp, profile.Past()) && Rested(za, apt.Past())
      ensures o.Done? ==> && ReturnedSince(j.profile, zp, seen.profile, profile.Past())
                          && ReturnedSince(j.apt, za, seen.apt, apt.Past())
      ensures env == Calm ==>
                (o.Done? <==> && CalmCas(old(profile.Now()), RestoreExpected(j.profile), next.profile.original).0.Done?
                              && CalmCas(old(apt.Now()), RestoreExpected(j.apt), next.apt.original).0.Done?)
      ensures next == j.(stage := Restoring) && !env.admin && old(WithinStep() && CopyLineal(copies.main, receipt)) ==>
                CanUndo()
    {
      hide Sound;
      hide InStep;
      hide Compensable;
      hide Adopted;
      hide ReturnedSince;
      hide CopyInv;
      hide CopyLineal;
      hide CalmCas;
      ghost var within := !env.admin && WithinStep() && next == j.(stage := Restoring);
      o := RestoreFiles(env, j, next, seen);
      if within { StepCanBeUndone(); }
      if !o.Done? { return; }
      o := copies.Mishap(env);
      if !o.Done? { return; }
      ghost var main, backup := copies.main, copies.backup;
      o := DropJournal(env);
      if within && CopyLineal(main, receipt) {
        FewerCopies(main, backup, copies.main, copies.backup, profile.Now(), apt.Now(), receipt);
      }
    }

    lemma WhenReturned(j: Journal)
      requires !j.profile.original.Odd? && !j.apt.original.Odd?
      ensures var d := Decided(j, profile.Now(), apt.Now());
              && (Legible(profile.Now(), j.profile)
                   && CalmCas(profile.Now(), RestoreExpected(j.profile), d.profile.original).0.Done?
                  <==> Givable(profile.Now(), j.profile))
              && (Legible(apt.Now(), j.apt) && CalmCas(apt.Now(), RestoreExpected(j.apt), d.apt.original).0.Done?
                  <==> Givable(apt.Now(), j.apt))
    {
      GivableIff(profile.Now(), j.profile);
      GivableIff(apt.Now(), j.apt);
    }

    /** Gives one of the two files back. */
    method RestoreOne(env: Env, j: Journal, next: Journal, second: bool, ghost seen: Seen) returns (o: Outcome)
      requires Inv() && copies.Load().Found? && copies.Load().version.journal == next && next.stage == Restoring
      requires !second ==>
               && CopyInv(j.profile, zp, profile.Past())
               && Adopted(j.profile, next.profile, zp, seen.profile, profile.Past())
      requires second ==> CopyInv(j.apt, za, apt.Past()) && Adopted(j.apt, next.apt, za, seen.apt, apt.Past())
      modifies if second then apt else profile
      ensures Inv() && Grows(old(profile.edits), profile.edits, env) && Grows(old(apt.edits), apt.edits, env)
      ensures o.Done? ==>
                if second then Rested(za, apt.Past()) && ReturnedSince(j.apt, za, seen.apt, apt.Past())
                else Rested(zp, profile.Past()) && ReturnedSince(j.profile, zp, seen.profile, profile.Past())
      ensures env == Calm ==>
                if second then (o, apt.Now()) == CalmCas(old(apt.Now()), RestoreExpected(j.apt), next.apt.original)
                else
                  var calm := CalmCas(old(profile.Now()), RestoreExpected(j.profile), next.profile.original);
                  (o, profile.Now()) == calm
      ensures !env.admin && old(WithinStep()) && next == j.(stage := Restoring) ==> WithinStep()
    {
      hide LoadFrom;
      hide PathInv;
      hide CopyInv;
      hide Adopted;
      hide ReturnedSince;
      hide Rested;
      hide CalmCas;
      hide CasEffect;
      hide Sound;
      hide StageFits;
      hide Lineal;
      hide GoodPlan;
      var v := copies.Load().version;
      SoundMeans(copies.main, copies.backup, v, zp, za, profile.Past(), apt.Past());
      ghost var within := !env.admin && WithinStep() && next == j.(stage := Restoring);
      ghost var hp, ha := profile.Past(), apt.Past();
      if second {
        o := RestoreFile(apt, env, j.apt, next.apt, za, seen.apt);
        if within { RestoresInStep(ha, apt.Past(), env, o, j.apt, receipt.apt); }
      } else {
        o := RestoreFile(profile, env, j.profile, next.profile, zp, seen.profile);
        if within { RestoresInStep(hp, profile.Past(), env, o, j.profile, receipt.profile); }
      }
      SoundGrows(copies.main, copies.backup, v, zp, za, hp, ha, profile.Past(), apt.Past());
    }

    /** Restores one file after the other. */
    method RestoreFiles(env: Env, j: Journal, next: Journal, ghost seen: Seen) returns (o: Outcome)
      requires Inv() && copies.Load().Found? && copies.Load().version.journal == next && next.stage == Restoring
      requires CopyInv(j.profile, zp, profile.Past()) && CopyInv(j.apt, za, apt.Past())
      requires Adopted(j.profile, next.profile, zp, seen.profile, profile.Past())
      requires Adopted(j.apt, next.apt, za, seen.apt, apt.Past())
      modifies profile, apt
      ensures Inv()
      ensures o.Done? ==> Rested(zp, profile.Past()) && Rested(za, apt.Past())
      ensures o.Done? ==> && ReturnedSince(j.profile, zp, seen.profile, profile.Past())
                          && ReturnedSince(j.apt, za, seen.apt, apt.Past())
      ensures Grows(old(profile.edits), profile.edits, env) && Grows(old(apt.edits), apt.edits, env)
      ensures env == Calm ==>
                (o.Done? <==> && CalmCas(old(profile.Now()), RestoreExpected(j.profile), next.profile.original).0.Done?
                              && CalmCas(old(apt.Now()), RestoreExpected(j.apt), next.apt.original).0.Done?)
      ensures !env.admin && old(WithinStep()) && next == j.(stage := Restoring) ==> WithinStep()
    {
      hide Sound;
      hide InStep;
      hide CopyInv;
      hide Adopted;
      hide ReturnedSince;
      hide Rested;
      hide CalmCas;
      o := RestoreOne(env, j, next, false, seen);
      if !o.Done? { return; }
      o := RestoreOne(env, j, next, true, seen);
    }

    /** Removes both copies; whichever survives a failure still describes the files. */
    method DropJournal(env: Env) returns (o: Outcome)
      requires Inv() && Rested(zp, profile.Past()) && Rested(za, apt.Past())
      modifies copies
      ensures Inv() && copies.Newest() <= old(copies.Newest())
      ensures o.Done? ==> copies.Load().NoJournal?
      ensures !env.faults ==> o.Done?
      ensures copies.main in {None, old(copies.main)} && copies.backup in {None, old(copies.backup)}
    {
      hide PathInv;
      hide CopyInv;
      o := copies.Remove(env);
      if copies.Load().Found? {
        ghost var j := copies.Load().version.journal;
        RestedKeeps(j.profile, zp, profile.Past());
        RestedKeeps(j.apt, za, apt.Past());
      }
    }

    /** Takes ownership: both files as they are become the originals. */
    method Begin(env: Env, proxies: Proxies) returns (o: Outcome)
      requires Inv() && copies.Load().NoJournal?
      modifies this`zp, this`za, profile, apt, copies
      ensures Inv() && copies.Newest() <= 1
      ensures o.Done? ==> Ready(proxies)
      ensures Grows(old(profile.edits), profile.edits, env) && Grows(old(apt.edits), apt.edits, env)
      ensures env == Calm ==> (o.Done? <==> old(!profile.final.Odd? && !apt.final.Odd?))
      ensures env == Calm && o.Done? ==> Installable() && copies.Newest() == 1
      ensures !env.admin && old(profile.final.Odd? || apt.final.Odd?) ==> !o.Done? && Untouched()
      ensures !env.admin ==> Carries(old(Stand()), Stand())
      ensures !env.admin && old(AtStart()) && Offers(receipt, proxies) ==> WithinStep()
    {
      hide LoadFrom;
      hide PathInv;
      hide CopyInv;
      hide ValidJournal;
      hide AtReceipt;
      hide StageFits;
      hide Lineal;
      hide GoodPlan;
      hide Offers;
      if AtStart() && Offers(receipt, proxies) {
        BeginsInStep(copies.main, copies.backup, profile.Now(), apt.Now(), receipt, proxies);
      }
      ghost var hp, ha := profile.Past(), apt.Past();
      var p := profile.Read(env, false);
      if !env.admin { CarriesBeginning(old(Stand()), Stand()); }
      if p.Odd? { return Failed; }
      var a := apt.Read(env, false);
      if !env.admin { CarriesBeginning(old(Stand()), Stand()); }
      if a.Odd? { return Failed; }
      zp, za := Origin(p, |profile.edits|, |profile.edits|), Origin(a, |apt.edits|, |apt.edits|);
      OwnershipBegins(p, a, proxies, profile.Past(), apt.Past());
      var j := Journal(Prepared, Owned(p, None, Some(Desired(proxies, false))),
                       Owned(a, None, Some(Desired(proxies, true))));
      o := copies.Save(env, 0, j);
      if !env.admin { CarriesBeginning(old(Stand()), Stand()); }
    }

    /** A prepared journal for these settings is in force. */
    ghost predicate Ready(proxies: Proxies)
      reads copies
    {
      && copies.Load().Found?
      && var j := copies.Load().version.journal;
         j.stage == Prepared && j.profile.pending.Some? && j.apt.pending.Some?
         && j.profile.pending.value.text == Template(false, proxies)
         && j.apt.pending.value.text == Template(true, proxies)
    }

    /** Reads one final name without disturbing the journal in force. */
    method Look(env: Env, v: Versioned<Journal>, second: bool) returns (a: Held)
      requires Inv() && copies.Load() == Found(v)
      modifies profile, apt
      ensures Inv() && copies.Load() == Found(v)
      ensures a == if second then apt.final else profile.final
      ensures if second then profile.Past() == old(profile.Past()) else apt.Past() == old(apt.Past())
      ensures Grows(old(profile.edits), profile.edits, env) && Grows(old(apt.edits), apt.edits, env)
      ensures !env.admin ==> profile.Past() == old(profile.Past()) && apt.Past() == old(apt.Past())
    {
      ghost var hp, ha := profile.Past(), apt.Past();
      if second {
        a := apt.Read(env, false);
        PathTurn(v.journal.apt, za, ha, apt.Past(), env);
      } else {
        a := profile.Read(env, false);
        PathTurn(v.journal.profile, zp, hp, profile.Past(), env);
      }
      SoundGrows(copies.main, copies.backup, v, zp, za, hp, ha, profile.Past(), apt.Past());
    }

    /** The active journal's files are still what the program left: prepare the next values. */
    method Renew(env: Env, v: Versioned<Journal>, proxies: Proxies) returns (o: Outcome)
      requires Inv() && copies.Load() == Found(v) && v.journal.stage == Active
      modifies profile, apt, copies
      ensures Inv() && copies.Newest() <= old(copies.Newest()) + 1 && copies.Load().Found?
      ensures o.Done? ==> Ready(proxies)
      ensures Grows(old(profile.edits), profile.edits, env) && Grows(old(apt.edits), apt.edits, env)
      ensures env == Calm ==> (o.Done? <==> old(InHand(v.journal)) && v.generation < MAX_GENERATION)
      ensures env == Calm && o.Done? ==> Installable() && copies.Newest() == v.generation + 1
      ensures !env.admin && !old(InHand(v.journal)) ==> !o.Done? && Untouched()
      ensures !env.admin && old(AtStart()) && Offers(receipt, proxies) ==> WithinStep()
    {
      hide Ripe;
      hide LoadFrom;
      hide AtReceipt;
      hide CopyInv;
      hide InForce;
      hide StageFits;
      hide Lineal;
      hide GoodPlan;
      hide Offers;
      if AtStart() && Offers(receipt, proxies) {
        RenewsInStep(copies.main, copies.backup, v, profile.Now(), apt.Now(), receipt, proxies);
      }
      hide PathInv;
      var j := v.journal;
      var p := Look(env, v, false);
      if p != File(j.profile.managed.value) { return Failed; }
      var a := Look(env, v, true);
      if a != File(j.apt.managed.value) { return Failed; }
      var next := Journal(Prepared, j.profile.(pending := Some(Desired(proxies, false))),
                          j.apt.(pending := Some(Desired(proxies, true))));
      RenewIsSound(v, proxies);
      RenewIsRipe(v, Desired(proxies, false), Desired(proxies, true));
      o := copies.Save(env, v.generation, next);
    }

    /** Undoes what an unfinished earlier call left, then takes ownership anew. */
    method StartOver(env: Env, proxies: Proxies) returns (o: Outcome)
      requires Inv()
      modifies this`zp, this`za, profile, apt, copies
      ensures Inv()
      ensures !env.admin ==> Carries(old(Stand()), Stand())
      ensures o.Done? ==> Ready(proxies)
      ensures Grows(old(profile.edits), profile.edits, env) && Grows(old(apt.edits), apt.edits, env)
      ensures env == Calm && old(copies.Load()).Found? ==> (o.Done? <==> old(Returnable()))
      ensures env == Calm && o.Done? ==> Installable() && copies.Newest() == 1
    {
      InForceIsValid();
      ghost var loaded := copies.Load();
      ghost var seen;
      o, seen := Restore(env);
      ghost var s := Stand();
      if env == Calm && o.Done? && loaded.Found? {
        GivesBackReadable(loaded.version.journal.profile, seen.profile, old(profile.Past()), profile.Past());
        GivesBackReadable(loaded.version.journal.apt, seen.apt, old(apt.Past()), apt.Past());
      }
      if o.Done? {
        o := Begin(env, proxies);
        if !env.admin { CarriesTwice(old(Stand()), s, Stand()); }
      }
    }

    ghost predicate Preparable(proxies: Proxies)
      reads copies, profile, apt
    {
      match copies.Load()
      case NoJournal => !profile.final.Odd? && !apt.final.Odd?
      case Found(v) =>
        if v.journal.stage == Active then InHand(v.journal) && v.generation < MAX_GENERATION
        else Ready(proxies) || Returnable()
      case Conflict => false
    }

    /** Brings the journal to a prepared stage for the settings. */
    method Prepare(env: Env, proxies: Proxies) returns (o: Outcome)
      requires Inv()
      modifies this`zp, this`za, profile, apt, copies
      ensures Inv()
      ensures o.Done? ==> Ready(proxies)
      ensures Quiescent(old(copies.Load())) ==> copies.Newest() <= old(copies.Newest()) + 1
      ensures Grows(old(profile.edits), profile.edits, env) && Grows(old(apt.edits), apt.edits, env)
      ensures env == Calm ==> (o.Done? <==> old(Preparable(proxies)))
      ensures env == Calm && o.Done? && !old(Ready(proxies)) ==>
                && Installable()
                && copies.Newest() == if old(Quiescent(copies.Load())) then old(copies.Newest()) + 1 else 1
      ensures old(Ready(proxies)) ==> o.Done? && Untouched()
      ensures !env.admin && old(Refuses(proxies)) && !old(Ready(proxies)) ==> !o.Done? && Untouched()
      ensures !env.admin && old(AtStart()) && Offers(receipt, proxies) ==> WithinStep()
      ensures !env.admin ==> Carries(old(Stand()), Stand())
      ensures old(copies.Load().Found? && copies.Load().version.journal.stage == Active) ==>
              zp == old(zp) && za == old(za)
    {
      InForceIsValid();
      hide Sound;
      var loaded := copies.Load();
      if loaded.NoJournal? {
        o := Begin(env, proxies);
      } else {
        var j := loaded.version.journal;
        match j.stage
        case Restoring =>
          o := StartOver(env, proxies);
        case Prepared =>
          if j.profile.pending.value.text == Template(false, proxies)
              && j.apt.pending.value.text == Template(true, proxies) {
            o := Done;
            if !env.admin { CarriesOn(old(Stand()), Stand()); }
          } else {
            o := StartOver(env, proxies);
          }
        case Active =>
          o := Renew(env, loaded.version, proxies);
          if !env.admin { CarriesOn(old(Stand()), Stand()); }
      }
    }

    /** Checks one file before either is replaced. */
    method Admissible(env: Env, v: Versioned<Journal>, second: bool) returns (ok: bool)
      requires Inv() && copies.Load() == Found(v)
      modifies profile, apt
      ensures Inv() && copies.Load() == Found(v)
      ensures Grows(old(profile.edits), profile.edits, env) && Grows(old(apt.edits), apt.edits, env)
      ensures !env.admin ==> profile.Past() == old(profile.Past()) && apt.Past() == old(apt.Past())
      ensures !env.admin ==> (ok <==> if second then InPlace(apt.Now(), v.journal.apt)
                                      else InPlace(profile.Now(), v.journal.profile))
      ensures profile.moves == old(profile.moves) && apt.moves == old(apt.moves)
    {
      ghost var hp, ha := profile.Past(), apt.Past();
      var o := if second then v.journal.apt else v.journal.profile;
      var r;
      ghost var h1;
      if second {
        r, h1 := ReadLogical(apt, env, ApplyExpected(o));
        PathTurn(o, za, ha, h1, env);
        PathTurn(o, za, h1, apt.Past(), env);
      } else {
        r, h1 := ReadLogical(profile, env, ApplyExpected(o));
        PathTurn(o, zp, hp, h1, env);
        PathTurn(o, zp, h1, profile.Past(), env);
      }
      SoundGrows(copies.main, copies.backup, v, zp, za, hp, ha, profile.Past(), apt.Past());
      InForceIsValid();
      if !env.admin { InPlaceIs(if second then apt.Now() else profile.Now(), o); }
      ok := r.Value? && (r.state in Files(o.pending) || r.state in ApplyExpected(o) || r.quarantined);
    }

    /** Checks the complete pair before either file is replaced. */
    method CheckBoth(env: Env, v: Versioned<Journal>) returns (ok: bool)
      requires Inv() && copies.Load() == Found(v)
      modifies profile, apt
      ensures Inv() && copies.Load() == Found(v)
      ensures Grows(old(profile.edits), profile.edits, env) && Grows(old(apt.edits), apt.edits, env)
      ensures !env.admin ==> profile.Past() == old(profile.Past()) && apt.Past() == old(apt.Past())
      ensures !env.admin ==>
                (ok <==> InPlace(profile.Now(), v.journal.profile) && InPlace(apt.Now(), v.journal.apt))
      ensures profile.moves == old(profile.moves) && apt.moves == old(apt.moves)
    {
      hide Sound;
      hide Grows;
      ok := Admissible(env, v, false);
      if !ok { return; }
      ghost var hp, ha := profile.Past(), apt.Past();
      ok := Admissible(env, v, true);
      GrowsOn(old(profile.edits), hp.edits, profile.edits, env);
      GrowsOn(old(apt.edits), ha.edits, apt.edits, env);
    }

    /** Replaces one file by its pending value. */
    static method WriteFile(d: Directory<FileState>, env: Env, w: Owned, ghost z: Origin) returns (o: Outcome)
      requires PathInv(w, z, d.Past()) && w.pending.Some?
      modifies d
      ensures PathInv(w, z, d.Past()) && Grows(old(d.edits), d.edits, env)
      ensures o.Done? ==> Landed(old(d.Past()), d.Past(), File(w.pending.value)) && PathInv(Activated(w), z, d.Past())
      ensures env == Calm ==> (o.Done? <==> Ripe(old(d.Now()), w))
      ensures CasEffect(old(d.Past()), d.Past(), env, o, ApplyExpected(w), File(w.pending.value))
    {
      ghost var h := d.Past();
      o := WriteCas(d, env, ApplyExpected(w), File(w.pending.value));
      ApplyKeeps(w, z, h, d.Past(), env);
      if o.Done? { ActiveKeeps(w, z, h, d.Past()); }
    }

    /** Writes one pending value. */
    method WritePending(env: Env, v: Versioned<Journal>, second: bool) returns (o: Outcome)
      requires Inv() && copies.Load() == Found(v) && v.journal.profile.pending.Some? && v.journal.apt.pending.Some?
      modifies profile, apt
      ensures Inv() && copies.Load() == Found(v)
      ensures Grows(old(profile.edits), profile.edits, env) && Grows(old(apt.edits), apt.edits, env)
      ensures if second then profile.Past() == old(profile.Past()) else apt.Past() == old(apt.Past())
      ensures o.Done? ==> if second then PathInv(Activated(v.journal.apt), za, apt.Past())
                          else PathInv(Activated(v.journal.profile), zp, profile.Past())
      ensures o.Done? ==> if second then Landed(old(apt.Past()), apt.Past(), File(v.journal.apt.pending.value))
                          else Landed(old(profile.Past()), profile.Past(), File(v.journal.profile.pending.value))
      ensures env == Calm ==>
                (o.Done? <==> old(if second then Ripe(apt.Now(), v.journal.apt)
                                  else Ripe(profile.Now(), v.journal.profile)))
      ensures !env.admin && old(WithinStep()) && v.journal.stage == Prepared ==>
                WithinStep() && (o.Done? ==> if second then apt.Now() == Slot(File(v.journal.apt.pending.value), Absent)
                                             else profile.Now() == Slot(File(v.journal.profile.pending.value), Absent))
    {
      hide Landed;
      hide LoadFrom;
      hide PathInv;
      hide CopyInv;
      hide CasEffect;
      hide StageFits;
      hide Lineal;
      hide GoodPlan;
      hide Offers;
      ghost var within := !env.admin && WithinStep() && v.journal.stage == Prepared;
      ghost var hp, ha := profile.Past(), apt.Past();
      if second {
        o := WriteFile(apt, env, v.journal.apt, za);
        if within { WritesInStep(ha, apt.Past(), env, o, v.journal.apt, receipt.apt); }
      } else {
        o := WriteFile(profile, env, v.journal.profile, zp);
        if within { WritesInStep(hp, profile.Past(), env, o, v.journal.profile, receipt.profile); }
      }
      SoundGrows(copies.main, copies.backup, v, zp, za, hp, ha, profile.Past(), apt.Past());
    }

    /** Writes both pending values and commits the journal. */
    method Install(env: Env, v: Versioned<Journal>) returns (o: Outcome)
      requires Inv() && copies.Load() == Found(v) && v.journal.stage == Prepared
      modifies profile, apt, copies
      ensures Inv() && copies.Newest() <= old(copies.Newest()) + 1
      ensures copies.Load().Found? && copies.Load().version.journal.stage != Restoring
      ensures Grows(old(profile.edits), profile.edits, env) && Grows(old(apt.edits), apt.edits, env)
      ensures o.Done? ==> && copies.Load().Found? && copies.Load().version.journal.stage == Active
                          && copies.Load().version.journal.profile == Activated(v.journal.profile)
                          && copies.Load().version.journal.apt == Activated(v.journal.apt)
                          && Landed(old(profile.Past()), profile.Past(), File(v.journal.profile.pending.value))
                          && Landed(old(apt.Past()), apt.Past(), File(v.journal.apt.pending.value))
      ensures env == Calm ==> (o.Done? <==> old(Installable()) && v.generation < MAX_GENERATION)
      ensures !env.admin && old(WithinStep()) ==> WithinStep()
    {
      hide LoadFrom;
      hide PathInv;
      hide Grows;
      hide CopyInv;
      hide StageFits;
      hide Lineal;
      hide GoodPlan;
      hide Offers;
      var j := v.journal;
      ghost var within := !env.admin && WithinStep();
      o := WritePending(env, v, false);
      if !o.Done? { return; }
      ghost var hp, ha := profile.Past(), apt.Past();
      o := WritePending(env, v, true);
      GrowsOn(old(profile.edits), hp.edits, profile.edits, env);
      GrowsOn(old(apt.edits), ha.edits, apt.edits, env);
      if !o.Done? { return; }
      if within {
        InstallsInStep(profile.Now(), j.profile, receipt.profile);
        InstallsInStep(apt.Now(), j.apt, receipt.apt);
      }
      var next := Journal(Active, Activated(j.profile), Activated(j.apt));
      CopyIsOk(next, zp, za, profile.Past(), apt.Past());
      o := copies.Save(env, v.generation, next);
    }

    /** Installs the pending values, or undoes the attempt. */
    method Attempt(env: Env, v: Versioned<Journal>) returns (o: Outcome)
      requires Inv() && copies.Load() == Found(v) && v.journal.stage == Prepared
      modifies profile, apt, copies
      ensures Inv() && copies.Newest() <= old(copies.Newest()) + 2
      ensures o.Done? ==> && copies.Load().Found? && copies.Load().version.journal.stage == Active
                          && copies.Load().version.journal.profile == Activated(v.journal.profile)
                          && copies.Load().version.journal.apt == Activated(v.journal.apt)
                          && Landed(old(profile.Past()), profile.Past(), File(v.journal.profile.pending.value))
                          && Landed(old(apt.Past()), apt.Past(), File(v.journal.apt.pending.value))
      ensures Grows(old(profile.edits), profile.edits, env) && Grows(old(apt.edits), apt.edits, env)
      ensures env == Calm ==> (o.Done? <==> old(Installable()) && v.generation < MAX_GENERATION)
      ensures !env.admin && old(WithinStep()) ==> CanUndo()
      ensures copies.Load().NoJournal? ==> Rested(zp, profile.Past()) && Rested(za, apt.Past())
    {
      hide Sound;
      hide InStep;
      hide Compensable;
      hide Landed;
      ghost var within := !env.admin && WithinStep();
      o := Install(env, v);
      if within { StepCanBeUndone(); }
      if o.Done? || o.Crashed? { return; }
      ghost var seen;
      o, seen := Restore(env);
      if o.Done? { o := Failed; }
    }

    /** Checks both files, then installs the pending values or undoes the attempt. */
    method Proceed(env: Env, v: Versioned<Journal>) returns (o: Outcome)
      requires Inv() && copies.Load() == Found(v) && v.journal.stage == Prepared
      modifies profile, apt, copies
      ensures Inv() && copies.Newest() <= old(copies.Newest()) + 2
      ensures o.Done? ==> && copies.Load().Found? && copies.Load().version.journal.stage == Active
                          && copies.Load().version.journal.profile == Activated(v.journal.profile)
                          && copies.Load().version.journal.apt == Activated(v.journal.apt)
                          && Landed(old(profile.Past()), profile.Past(), File(v.journal.profile.pending.value))
                          && Landed(old(apt.Past()), apt.Past(), File(v.journal.apt.pending.value))
      ensures Grows(old(profile.edits), profile.edits, env) && Grows(old(apt.edits), apt.edits, env)
      ensures env == Calm ==> (o.Done? <==> old(Installable()) && v.generation < MAX_GENERATION)
      ensures !env.admin && old(WithinStep()) ==> CanUndo()
      ensures !env.admin ==> Carries(old(Stand()), Stand())
      ensures !env.admin && !InPlace(old(profile.Now()), v.journal.profile) ==> !o.Done? && Untouched()
      ensures !env.admin && !InPlace(old(apt.Now()), v.journal.apt) ==> !o.Done? && Untouched()
    {
      hide LoadFrom;
      hide Sound;
      hide InStep;
      hide Compensable;
      hide Landed;
      hide Grows;
      hide Carries;
      hide Rested;
      InForceIsValid();
      ghost var within := !env.admin && WithinStep();
      if within { StepCanBeUndone(); }
      var ok := CheckBoth(env, v);
      if !env.admin { Undisturbed(old(Stand()), env); }
      if !ok { return Failed; }
      ghost var hp, ha := profile.Past(), apt.Past();
      o := Attempt(env, v);
      GrowsOn(old(profile.edits), hp.edits, profile.edits, env);
      GrowsOn(old(apt.edits), ha.edits, apt.edits, env);
      if !env.admin { Undisturbed(old(Stand()), env); }
      if o.Done? {
        LandedEarlier(old(profile.Past()), hp, profile.Past(), File(v.journal.profile.pending.value), env);
        LandedEarlier(old(apt.Past()), ha, apt.Past(), File(v.journal.apt.pending.value), env);
      }
    }

    lemma Undisturbed(s: Standing, env: Env)
      requires s.journal.Found? && !copies.Load().Conflict? && s.zp == zp && s.za == za && !env.admin
      requires Grows(s.hp.edits, profile.edits, env) && Grows(s.ha.edits, apt.edits, env)
      requires copies.Load().NoJournal? ==> Rested(zp, profile.Past()) && Rested(za, apt.Past())
      ensures Carries(s, Stand())
    {
      CarriesOn(s, Stand());
    }

    /** Applies the settings to both files, or undoes the attempt. */
    method Apply(env: Env, proxies: Proxies) returns (o: Outcome)
      requires Inv()
      modifies this`zp, this`za, profile, apt, copies
      ensures Inv()
      ensures o.Done? ==> && copies.Load().Found? && copies.Load().version.journal.stage == Active
                          && Shown(Template(false, proxies), copies.Load().version.journal.profile,
                               old(profile.Past()), profile.Past())
                          && Shown(Template(true, proxies), copies.Load().version.journal.apt, old(apt.Past()),
                               apt.Past())
      ensures Grows(old(profile.edits), profile.edits, env) && Grows(old(apt.edits), apt.edits, env)
      ensures Quiescent(old(copies.Load())) ==> copies.Newest() <= old(copies.Newest()) + 3
      ensures env == Calm ==> (o.Done? <==> old(Appliable(proxies)))
      ensures !env.admin && old(Refuses(proxies)) ==> !o.Done? && Untouched()
      ensures !env.admin && old(AtStart()) && Offers(receipt, proxies) ==> CanUndo()
      ensures !env.admin ==> Carries(old(Stand()), Stand())
      ensures old(copies.Load().Found? && copies.Load().version.journal.stage == Active) ==>
              zp == old(zp) && za == old(za)
    {
      hide Sound;
      hide InStep;
      hide Compensable;
      hide Landed;
      hide AtReceipt;
      hide Offers;
      hide Grows;
      hide Carries;
      InForceIsValid();
      ghost var within := !env.admin && AtStart() && Offers(receipt, proxies);
      o := Prepare(env, proxies);
      ghost var s := Stand();
      if within { StepCanBeUndone(); }
      if !o.Done? { return; }
      var v := copies.Load().version;
      o := Proceed(env, v);
      GrowsOn(old(profile.edits), s.hp.edits, profile.edits, env);
      GrowsOn(old(apt.edits), s.ha.edits, apt.edits, env);
      if !env.admin { CarriesTwice(old(Stand()), s, Stand()); }
      if o.Done? {
        LandedEarlier(old(profile.Past()), s.hp, profile.Past(), File(v.journal.profile.pending.value), env);
        LandedEarlier(old(apt.Past()), s.ha, apt.Past(), File(v.journal.apt.pending.value), env);
      }
    }

    /** No call is running. What the administrator leaves is settled if it can be. */
    method Pause(env: Env)
      requires Inv()
      modifies this`zp, this`za, profile, apt
      ensures Inv() && copies.Load() == old(copies.Load())
      ensures Grows(old(profile.edits), profile.edits, env) && Grows(old(apt.edits), apt.edits, env)
      ensures copies.Load().Found? && AtRest(false) ==> zp.settled == |profile.edits|
      ensures copies.Load().Found? && AtRest(true) ==> za.settled == |apt.edits|
      ensures !env.admin ==> Carries(old(Stand()), Stand())
    {
      ghost var hp, ha := profile.Past(), apt.Past();
      profile.AdminTurn(env);
      apt.AdminTurn(env);
      if copies.Load().Found? {
        ghost var v := copies.Load().version;
        PathTurn(v.journal.profile, zp, hp, profile.Past(), env);
        PathTurn(v.journal.apt, za, ha, apt.Past(), env);
        SoundGrows(copies.main, copies.backup, v, zp, za, hp, ha, profile.Past(), apt.Past());
      }
      ghost var s := Stand();
      Settle();
      if !env.admin { CarriesTwice(old(Stand()), s, Stand()); }
    }

    /** Files at rest are settled. */
    ghost method Settle()
      requires Inv()
      modifies this`zp, this`za
      ensures Inv() && Carries(old(Stand()), Stand())
      ensures old(AtRest(false)) ==> Safe(copies.Load(), zp, profile.Past(), View(profile.Now()))
      ensures old(AtRest(true)) ==> Safe(copies.Load(), za, apt.Past(), View(apt.Now()))
      ensures copies.Load().Found? && AtRest(false) ==> zp.settled == |profile.edits|
      ensures copies.Load().Found? && AtRest(true) ==> za.settled == |apt.edits|
    {
      if AtRest(false) && copies.Load().Found? {
        SettlingKeeps(copies.main, copies.backup, Stand());
        zp := SettledNow(zp, profile.Past());
      }
      if AtRest(true) && copies.Load().Found? {
        SettlingKeeps(copies.main, copies.backup, Stand());
        za := SettledNow(za, apt.Past());
      }
    }
  }

  /** What an undisturbed restore leaves of a file. */
  function GivenBack(s: Slot<FileState>, o: Owned): (r: Held)
    ensures r == s.final <==>
            || (s.final == View(s) && (!Managed(s.final, o) || s.final == o.original))
            || (s.final.Absent? && Managed(View(s), o) && o.original.Absent?)
  {
    Back(o, Sight(0, View(s)))
  }

  /** No unfinished call: the only journals a runtime step starts from. */
  predicate Quiescent(l: Loaded<Journal>) {
    l.NoJournal? || (l.Found? && l.version.journal.stage == Active)
  }

  /** What happens to the files: calls, and times at which none is running. */
  datatype Operation = Apply(proxies: Proxies) | Restore | Pause

  /** Over any history of applies with changing settings, restores, crashes and edits: when a restore that
      still finds the journal succeeds, each file holds the state it had when ownership began or one the
      administrator put there since: the last one, when that is novel or settled at rest. And whatever the last edit is,
      each file holds what the restore saw there, the original for the program's own, or a later edit that it could
      not pass over. */
  method Ownership(g: GlobalProxy, history: seq<Operation>)
    returns (o: Outcome, owned: bool, ghost last: Standing, ghost seen: Seen)
    requires g.Inv()
    modifies g, g.profile, g.apt, g.copies
    ensures g.Inv()
    ensures o.Done? ==> g.copies.Load().NoJournal?
    ensures o.Done? && owned ==> Rested(g.zp, g.profile.Past()) && Rested(g.za, g.apt.Past())
    ensures o.Done? && owned ==>
              && last.journal.Found? && last.zp == g.zp && last.za == g.za
              && Saw(seen.profile, last.hp, g.profile.Past()) && Saw(seen.apt, last.ha, g.apt.Past())
              && ReturnedSince(last.journal.version.journal.profile, g.zp, seen.profile, g.profile.Past())
              && ReturnedSince(last.journal.version.journal.apt, g.za, seen.apt, g.apt.Past())
  {
    Run(g, Env(true, true), history);
    last := g.Stand();
    owned := g.copies.Load().Found?;
    o, seen := g.Restore(Env(true, true));
  }

  /** One operation after the other. */
  method Run(g: GlobalProxy, env: Env, history: seq<Operation>)
    requires g.Inv()
    modifies g, g.profile, g.apt, g.copies
    ensures g.Inv()
    ensures !env.admin ==> Carries(old(g.Stand()), g.Stand())
  {
    hide Carries;
    CarriesItself(g.Stand());
    for i := 0 to |history|
      invariant g.Inv()
      invariant !env.admin ==> Carries(old(g.Stand()), g.Stand())
    {
      ghost var s := g.Stand();
      match history[i] {
        case Apply(proxies) => var _ := g.Apply(env, proxies);
        case Restore => var _, _ := g.Restore(env);
        case Pause => g.Pause(env);
      }
      if !env.admin { CarriesTwice(old(g.Stand()), s, g.Stand()); }
    }
  }

  /** What the next restore makes of a file nobody disturbs: it leaves the file alone exactly if that is not the
      program's, or what was there before, and no deletion beside a quarantine. */
  method RestoreAtRest(g: GlobalProxy, faults: bool) returns (o: Outcome)
    requires g.Inv()
    modifies g.profile, g.apt, g.copies
    ensures o.Done? ==>
              if old(g.copies.Load()).NoJournal? then
                g.profile.Now() == old(g.profile.Now()) && g.apt.Now() == old(g.apt.Now())
              else
                var j := old(g.copies.Load()).version.journal;
                && g.profile.Now() == Slot(GivenBack(old(g.profile.Now()), j.profile), Absent)
                && g.apt.Now() == Slot(GivenBack(old(g.apt.Now()), j.apt), Absent)
  {
    ghost var seen;
    o, seen := g.Restore(Env(false, faults));
  }

  /** Edits made at rest: whatever calls follow undisturbed, however often they fail or die, such a file's state stays
      in view or on record, and it is what a restore that succeeds leaves. */
  method EditsAtRestComeBack(g: GlobalProxy, history: seq<Operation>) returns (o: Outcome, ghost between: Standing)
    requires g.Inv()
    modifies g, g.profile, g.apt, g.copies
    ensures g.Inv()
    ensures old(g.AtRest(false)) ==>
              var e := View(old(g.profile.Now()));
              && Traceable(e, OwnedOf(between.journal, false), between.hp.slot)
              && (o.Done? ==> g.profile.Now() == Slot(e, Absent))
    ensures old(g.AtRest(true)) ==>
              var e := View(old(g.apt.Now()));
              && Traceable(e, OwnedOf(between.journal, true), between.ha.slot)
              && (o.Done? ==> g.apt.Now() == Slot(e, Absent))
  {
    ghost var p, a := View(g.profile.Now()), View(g.apt.Now());
    ghost var rp, ra := g.AtRest(false), g.AtRest(true);
    g.Settle();
    Run(g, Env(false, true), history);
    between := g.Stand();
    SafeIsTraceable(g.copies.main, g.copies.backup, between, p, a);
    ghost var seen;
    o, seen := g.Restore(Env(false, true));
  }

  /** Why the last edit must be novel. A restore keeps using the expected values it computed before it adopted the
      state x. An administrator who goes back to the earlier original in between is overwritten with x, and the restore
      succeeds. */
  lemma RevertedEditIsOverwritten(o: Owned, x: Held, z: Origin, h: History<FileState>) returns (h': History<FileState>)
    requires h.slot == Slot(x, Absent) && x.File? && o.original.File? && x !in RestoreExpected(o)
             && z.edits <= |h.edits|
    ensures Succeeds(h, h', Env(true, false), RestoreExpected(o), Adopt(o, x).original)
    ensures h.edits < h'.edits && LastOwn(z, h') == o.original
    ensures h'.slot == Slot(x, Absent) && x != LastOwn(z, h')
  {
    h' := RestoreMisses(o, x, z, h, o.original, false);
  }

  /** Why no copy may take a state at rest for the program's. An older copy that outlives the removal of the newer one
      fits the file that has been given back, and would replace it once more. */
  lemma OldCopyTakesItBack(v: Versioned<Journal>, z: Origin, h: History<FileState>)
    requires CopyInv(v.journal.profile, z, h) && Rested(z, h)
    ensures PathInv(v.journal.profile, z, h)
    ensures GivenBack(h.slot, v.journal.profile) == h.slot.final <==> Apart(h.slot.final, v.journal.profile)
  {
    RestedKeeps(v.journal.profile, z, h);
  }

  /** A first apply that dies with the original in quarantine, and an edit adopted after it: the next
      restore refuses the quarantine that only the old journal explained. */
  lemma AdoptionOrphansQuarantine(o: Owned, x: Held)
    requires o.original.File? && o.managed.None? && x.File? && x !in RestoreExpected(o)
    requires File(o.original.content) !in Files(o.pending)
    ensures Logical(Slot(x, o.original), RestoreExpected(o)) == Value(x, true)
    ensures Logical(Slot(x, o.original), RestoreExpected(Adopt(o, x))) == Refused
  {}
}
