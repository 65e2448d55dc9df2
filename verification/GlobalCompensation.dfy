/** Undoing the global proxy step of a runtime transaction from whatever an interruption left of it. */
module GlobalCompensation {
  import opened Wrappers
  import opened Artifacts
  import opened TwoNameCas
  import opened StoreFiles
  import opened JournalCopies
  import opened GlobalOwnership
  import opened GlobalReceipt
  import opened GlobalJournal

  /** One Global step writes the journal at most this often. */
  const STEP_WRITES: nat := 3

  /** What the receipt lets one file be after the step. */
  function AllowedStates(file: Held, enabled: bool, proxies: Proxies, second: bool, o: Option<Owned>): seq<Held> {
    [file] + (if enabled then [File(Desired(proxies, second))] else []) + (if o.Some? then [o.value.original] else [])
  }

  function PlanOf(file: Held, enabled: bool, proxies: Proxies, second: bool, o: Option<Owned>): Plan {
    Plan(file, if o.Some? then o.value.original else file, AllowedStates(file, enabled, proxies, second, o))
  }

  /** The receipt of an active journal, or of none, is where the step starts. */
  lemma StartsAtReceipt(main: Option<Versioned<Journal>>, backup: Option<Versioned<Journal>>, loaded: Loaded<Journal>,
                        p: Held, a: Held, enabled: bool, proxies: Proxies, recovery: nat)
    requires !p.Odd? && !a.Odd? && !loaded.Conflict?
    requires loaded.NoJournal? ==> main.None? && backup.None?
    requires loaded.Found? ==> && ValidJournal(loaded.version.journal) && loaded.version.journal.stage == Active
                               && Some(loaded.version) == (if backup.Some? then backup else main)
                               && p == File(loaded.version.journal.profile.managed.value)
                               && a == File(loaded.version.journal.apt.managed.value)
    ensures AtReceipt(main, backup, loaded, Slot(p, Absent), Slot(a, Absent),
                      ReceiptOf(loaded, p, a, enabled, proxies, recovery))
    ensures enabled ==> Offers(ReceiptOf(loaded, p, a, enabled, proxies, recovery), proxies)
    ensures ReceiptOf(loaded, p, a, enabled, proxies, recovery).recovery == recovery
  {
  }

  function ReceiptOf(loaded: Loaded<Journal>, p: Held, a: Held, enabled: bool, proxies: Proxies,
                     recovery: nat): Receipt {
    if loaded.Found? then
      var j := loaded.version.journal;
      Receipt(Some(j), PlanOf(p, enabled, proxies, false, Some(j.profile)),
              PlanOf(a, enabled, proxies, true, Some(j.apt)), recovery)
    else
      Receipt(None, PlanOf(p, enabled, proxies, false, None), PlanOf(a, enabled, proxies, true, None), recovery)
  }

  /** One file as it is, what it is to go back to, and what the step may leave: the file, the new template if there is
      to be one, and the original if there is a journal. */
  ghost predicate Covers(p: Plan, file: Held, enabled: bool, proxies: Proxies, o: Option<Owned>, second: bool) {
    && p.file == file
    && (o.Some? ==> p.original == o.value.original) && (o.None? ==> p.original == file)
    && forall a :: a in p.allowed <==>
         || a == file
         || (enabled && a == File(FileState(Template(second, proxies), 0x1a4, 0, 0)))
         || (o.Some? && a == o.value.original)
  }

  function JournalOf(l: Loaded<Journal>): Option<Journal> {
    if l.Found? then Some(l.version.journal) else None
  }

  lemma PlanCovers(file: Held, enabled: bool, proxies: Proxies, second: bool, o: Option<Owned>)
    ensures Covers(PlanOf(file, enabled, proxies, second, o), file, enabled, proxies, o, second)
  {
  }

  lemma ReceiptCovers(loaded: Loaded<Journal>, p: Held, a: Held, enabled: bool, proxies: Proxies, recovery: nat)
    requires !loaded.Conflict?
    ensures var r := ReceiptOf(loaded, p, a, enabled, proxies, recovery);
            && Covers(r.profile, p, enabled, proxies, OwnedOf(loaded, false), false)
            && Covers(r.apt, a, enabled, proxies, OwnedOf(loaded, true), true)
            && r.before == JournalOf(loaded)
  {
    PlanCovers(p, enabled, proxies, false, OwnedOf(loaded, false));
    PlanCovers(a, enabled, proxies, true, OwnedOf(loaded, true));
  }

  /** Records the journal and both files before the step. Refused while another call is unfinished, when a file is not
      what the journal says, or when too few generations are left. */
  method Capture(g: GlobalProxy, enabled: bool, proxies: Proxies) returns (r: Option<Receipt>)
    requires g.Inv()
    modifies g`receipt
    ensures g.Inv()
    ensures r.None? ==> g.receipt == old(g.receipt)
    ensures r.Some? ==> && g.receipt == r.value && g.AtStart() && (enabled ==> Offers(r.value, proxies))
                        && r.value.recovery == g.copies.Newest() + STEP_WRITES < MAX_GENERATION
    ensures r.Some? ==>
              var l := g.copies.Load();
              && Covers(r.value.profile, g.profile.final, enabled, proxies, OwnedOf(l, false), false)
              && Covers(r.value.apt, g.apt.final, enabled, proxies, OwnedOf(l, true), true)
              && r.value.before == JournalOf(l)
    ensures r.None? <==> || (g.copies.Load().Found? && g.copies.Load().version.journal.stage != Active)
                         || g.copies.Newest() + STEP_WRITES >= MAX_GENERATION
                         || g.profile.final.Odd? || g.apt.final.Odd?
                         || (g.copies.Load().Found? && !g.InHand(g.copies.Load().version.journal))
  {
    hide PathInv;
    hide CopyInv;
    hide AtReceipt;
    hide ReceiptOf;
    hide Offers;
    var loaded := g.copies.Load();
    g.InForceIsValid();
    if loaded.Found? && loaded.version.journal.stage != Active { return None; }
    var recovery := RecoveryGeneration(if loaded.Found? then loaded.version.generation else 0, STEP_WRITES);
    if recovery.None? { return None; }
    var p, a := g.profile.final, g.apt.final;
    if p.Odd? || a.Odd? { return None; }
    if loaded.Found? {
      var j := loaded.version.journal;
      if p != File(j.profile.managed.value) || a != File(j.apt.managed.value) { return None; }
    }
    r := Some(ReceiptOf(loaded, p, a, enabled, proxies, recovery.value));
    StartsAtReceipt(g.copies.main, g.copies.backup, loaded, p, a, enabled, proxies, recovery.value);
    ReceiptCovers(loaded, p, a, enabled, proxies, recovery.value);
    g.receipt := r.value;
  }

  /** Both files and the journal are back as the receipt has them. */
  predicate Undone(g: GlobalProxy, r: Receipt)
    reads g, g.profile, g.apt, g.copies
  {
    && g.profile.Now() == Slot(r.profile.file, Absent) && g.apt.Now() == Slot(r.apt.file, Absent)
    && if r.before.None? then g.copies.Load().NoJournal?
       else g.copies.Load().Found? && g.copies.Load().version.journal == r.before.value
  }

  /** The journal and both files are within the receipt, so nothing outside the transaction changed them. */
  predicate Acceptable(g: GlobalProxy, r: Receipt)
    reads g, g.profile, g.apt, g.copies
  {
    var loaded := g.copies.Load();
    && !loaded.Conflict?
    && (loaded.Found? ==>
         Lineal(loaded.version.journal.profile, r.profile) && Lineal(loaded.version.journal.apt, r.apt))
    && Shows(g.profile.Now(), r.profile) && Shows(g.apt.Now(), r.apt)
  }

  predicate Shows(s: Slot<FileState>, p: Plan) {
    var reading := Logical(s, p.allowed);
    reading.Value? && reading.state in p.allowed
  }

  /** Puts one file back to its state in the receipt, unless it is there already. */
  method PutBack(d: Directory<FileState>, env: Env, p: Plan, seen: Reading<FileState>)
    returns (o: Outcome, changed: bool)
    requires GoodPlan(p) && !env.admin && seen.Value? && seen == Logical(d.Now(), p.allowed)
    modifies d
    ensures d.edits == old(d.edits)
    ensures changed <==> old(d.Now()) != Slot(p.file, Absent)
    ensures !changed ==> o.Done? && d.Past() == old(d.Past())
    ensures o.Done? ==> d.Now() == Slot(p.file, Absent)
    ensures old(Undoable(d.Now(), p)) ==> Undoable(d.Now(), p) && (env == Calm ==> o.Done?)
  {
    ghost var h := d.Past();
    changed := seen.state != p.file || seen.quarantined;
    if !changed { return Done, false; }
    if p.file.Absent? {
      var removed;
      o, removed := RemoveCas(d, env, p.allowed);
    } else {
      o := WriteCas(d, env, p.allowed, p.file);
    }
    UndoableKept(h, d.Past(), env, o, p);
  }

  /** Puts the journal back. It is left alone when nothing was changed and it says what it said before. */
  method PutJournal(copies: Copies<Journal>, env: Env, r: Receipt, changed: bool) returns (o: Outcome)
    requires copies.Valid()
    modifies copies
    ensures copies.Valid()
    ensures o.Done? ==> if r.before.None? then copies.Load().NoJournal?
                        else copies.Load().Found? && copies.Load().version.journal == r.before.value
    ensures !env.faults && Larger(r.recovery, old(copies.Newest())) < MAX_GENERATION ==> o.Done?
    ensures copies.Newest() <= Larger(r.recovery, old(copies.Newest())) + 1
    ensures Rewritten(old(copies.main), old(copies.backup), copies.main, copies.backup, r)
    ensures !changed && JournalOf(old(copies.Load())) == r.before && !old(copies.Load()).Conflict? ==>
              o.Done? && copies.main == old(copies.main) && copies.backup == old(copies.backup)
    ensures o.Done? && r.before.Some? && (changed || JournalOf(old(copies.Load())) != r.before) ==>
              copies.main == copies.backup && copies.Newest() > r.recovery && copies.Newest() > old(copies.Newest())
  {
    var loaded := copies.Load();
    var generation := if loaded.Found? then Larger(r.recovery, loaded.version.generation) else r.recovery;
    if r.before.None? {
      if loaded.NoJournal? { return Done; }
      o := copies.Remove(env);
    } else if loaded.Found? && !changed && loaded.version.journal == r.before.value {
      o := Done;
    } else {
      o := copies.Save(env, generation, r.before.value);
    }
  }

  function Larger(m: nat, n: nat): nat { if m < n then n else m }

  /** What can have become of the copies: nothing, copies gone where there was no journal, or the old journal written,
      backup first. */
  predicate Rewritten(main: Option<Versioned<Journal>>, backup: Option<Versioned<Journal>>,
                      main': Option<Versioned<Journal>>, backup': Option<Versioned<Journal>>, r: Receipt) {
    if r.before.None? then main' in {None, main} && backup' in {None, backup}
    else
      || (main' == main && backup' == backup)
      || (backup'.Some? && backup'.value.journal == r.before.value && main' in {main, backup'})
  }

  lemma RewrittenFits(main: Option<Versioned<Journal>>, backup: Option<Versioned<Journal>>,
                      main': Option<Versioned<Journal>>, backup': Option<Versioned<Journal>>, r: Receipt)
    requires GoodReceipt(r) && CopiesFit(main, backup, r) && Rewritten(main, backup, main', backup', r)
    ensures CopiesFit(main', backup', r)
  {
  }

  lemma CompensableIsAcceptable(g: GlobalProxy, r: Receipt)
    requires g.copies.Valid() && Compensable(g.copies.main, g.copies.backup, g.profile.Now(), g.apt.Now(), r)
    ensures Acceptable(g, r)
  {
  }

  /** Checks the journal and the complete pair of files before anything is changed. */
  method Examine(g: GlobalProxy, env: Env, r: Receipt) returns (ok: bool, p: Reading<FileState>, a: Reading<FileState>)
    requires g.profile != g.apt && g.copies.Valid() && !env.admin
    modifies g.profile, g.apt
    ensures g.profile.Past() == old(g.profile.Past()) && g.apt.Past() == old(g.apt.Past())
    ensures ok <==> old(Acceptable(g, r))
    ensures ok ==> && p.Value? && p == Logical(g.profile.Now(), r.profile.allowed)
                   && a.Value? && a == Logical(g.apt.Now(), r.apt.allowed)
  {
    hide Lineal;
    hide Logical;
    var loaded := g.copies.Load();
    p, a := Refused, Refused;
    if loaded.Conflict? { return false, p, a; }
    if loaded.Found? && !Lineal(loaded.version.journal.profile, r.profile) { return false, p, a; }
    ghost var h;
    p, h := GlobalProxy.ReadLogical(g.profile, env, r.profile.allowed);
    if p.Refused? || p.state !in r.profile.allowed { return false, p, a; }
    if loaded.Found? && !Lineal(loaded.version.journal.apt, r.apt) { return false, p, a; }
    a, h := GlobalProxy.ReadLogical(g.apt, env, r.apt.allowed);
    ok := a.Value? && a.state in r.apt.allowed;
  }

  /** Undoes the step: checks everything against the receipt first, then puts both files back, then the journal under a
      generation the step cannot have used. */
  method Compensate(g: GlobalProxy, env: Env, r: Receipt) returns (o: Outcome)
    requires g.profile != g.apt && g.copies.Valid() && GoodReceipt(r) && !env.admin
    modifies g.profile, g.apt, g.copies
    ensures g.copies.Valid() && g.profile.edits == old(g.profile.edits) && g.apt.edits == old(g.apt.edits)
    ensures !old(Acceptable(g, r)) ==>
            !o.Done? && g.profile.Now() == old(g.profile.Now()) && g.apt.Now() == old(g.apt.Now())
                                       && g.copies.main == old(g.copies.main) && g.copies.backup == old(g.copies.backup)
    ensures o.Done? ==> Undone(g, r)
    ensures old(InReceipt(g, r)) ==>
              && InReceipt(g, r)
              && (env == Calm && Larger(r.recovery, old(g.copies.Newest())) < MAX_GENERATION ==> o.Done?)
    ensures g.copies.Newest() <= Larger(r.recovery, old(g.copies.Newest())) + 1
    ensures Rewritten(old(g.copies.main), old(g.copies.backup), g.copies.main, g.copies.backup, r)
    ensures old(Undone(g, r) && Acceptable(g, r)) ==>
              && o.Done? && g.profile.Past() == old(g.profile.Past()) && g.apt.Past() == old(g.apt.Past())
              && g.copies.main == old(g.copies.main) && g.copies.backup == old(g.copies.backup)
    ensures o.Done? && r.before.Some? && !old(Undone(g, r)) ==>
              g.copies.Newest() > r.recovery && g.copies.Newest() > old(g.copies.Newest())
  {
    hide Lineal;
    hide GoodPlan;
    hide Undoable;
    hide CopiesFit;
    hide Logical;
    hide Acceptable;
    hide LoadFrom;
    if InReceipt(g, r) { CompensableIsAcceptable(g, r); }
    ghost var main, backup := g.copies.main, g.copies.backup;
    var ok, p, a := Examine(g, env, r);
    if !ok { return Failed; }
    var first, second;
    o, first := PutBack(g.profile, env, r.profile, p);
    if !o.Done? { return; }
    o, second := PutBack(g.apt, env, r.apt, a);
    if !o.Done? { return; }
    o := PutJournal(g.copies, env, r, first || second);
    if old(InReceipt(g, r)) { RewrittenFits(main, backup, g.copies.main, g.copies.backup, r); }
  }

  ghost predicate InReceipt(g: GlobalProxy, r: Receipt)
    reads g, g.profile, g.apt, g.copies
  {
    Compensable(g.copies.main, g.copies.backup, g.profile.Now(), g.apt.Now(), r)
  }

  /** Where a copy of the journal can come from while the step is undone. */
  predicate Known(v: Option<Versioned<Journal>>, main: Option<Versioned<Journal>>, backup: Option<Versioned<Journal>>,
                  r: Receipt) {
    v.None? || v == main || v == backup || Some(v.value.journal) == r.before
  }

  lemma ReceiptIsGood(g: GlobalProxy, r: Receipt)
    requires InReceipt(g, r)
    ensures GoodReceipt(r)
  {
  }

  /** Undoing, cut short any number of times and then left alone. */
  method UndoRepeatedly(g: GlobalProxy, r: Receipt, interruptions: nat)
    requires g.profile != g.apt && g.copies.Valid() && InReceipt(g, r)
    requires g.copies.Newest() <= r.recovery && r.recovery + interruptions < MAX_GENERATION
    modifies g.profile, g.apt, g.copies
    ensures g.copies.Valid() && Undone(g, r)
    ensures g.profile.edits == old(g.profile.edits) && g.apt.edits == old(g.apt.edits)
    ensures Known(g.copies.main, old(g.copies.main), old(g.copies.backup), r)
    ensures Known(g.copies.backup, old(g.copies.main), old(g.copies.backup), r)
  {
    ReceiptIsGood(g, r);
    hide Compensable;
    hide Undone;
    hide Acceptable;
    hide GoodReceipt;
    for i := 0 to interruptions
      invariant g.copies.Valid() && InReceipt(g, r) && g.copies.Newest() <= r.recovery + i
      invariant g.profile.edits == old(g.profile.edits) && g.apt.edits == old(g.apt.edits)
      invariant Known(g.copies.main, old(g.copies.main), old(g.copies.backup), r)
      invariant Known(g.copies.backup, old(g.copies.main), old(g.copies.backup), r)
    {
      var _ := Compensate(g, Env(false, true), r);
    }
    var _ := Compensate(g, Calm, r);
  }

  /** Once the step is undone, the ownership that was in force when it began goes on. */
  lemma OwnershipGoesOn(main0: Option<Versioned<Journal>>, backup0: Option<Versioned<Journal>>,
                        loaded0: Loaded<Journal>,
                        main1: Option<Versioned<Journal>>, backup1: Option<Versioned<Journal>>,
                        main: Option<Versioned<Journal>>, backup: Option<Versioned<Journal>>, v: Versioned<Journal>,
                        r: Receipt,
                        zp: Origin, za: Origin, hp0: History<FileState>, ha0: History<FileState>,
                        hp: History<FileState>, ha: History<FileState>)
    requires Sound(main0, backup0, loaded0, zp, za, hp0, ha0) && loaded0.Found?
    requires r.before == Some(loaded0.version.journal) == Some(v.journal)
    requires CopyOk(main1, zp, za, hp, ha) && CopyOk(backup1, zp, za, hp, ha)
    requires Known(main, main1, backup1, r) && Known(backup, main1, backup1, r) && Some(v) in {main, backup}
    requires hp.slot == hp0.slot && hp.edits == hp0.edits && ha.slot == ha0.slot && ha.edits == ha0.edits
    ensures Sound(main, backup, Found(v), zp, za, hp, ha)
  {
    hide PathInv;
    hide CopyInv;
    SoundMeans(main0, backup0, loaded0.version, zp, za, hp0, ha0);
    MovesDoNotMatter(v.journal, zp, za, hp0, ha0, hp, ha);
    CopyIsOk(v.journal, zp, za, hp, ha);
  }

  lemma MovesDoNotMatter(j: Journal, zp: Origin, za: Origin,
                         hp0: History<FileState>, ha0: History<FileState>, hp: History<FileState>,
                         ha: History<FileState>)
    requires InForce(j, zp, za, hp0, ha0)
    requires hp.slot == hp0.slot && hp.edits == hp0.edits && ha.slot == ha0.slot && ha.edits == ha0.edits
    ensures InForce(j, zp, za, hp, ha)
  {
  }

  /** A runtime step on the global proxy, cut short anywhere, its undoing cut short any number of times, and one
      undoing that is left alone: both files and the journal are what they were, and ownership goes on as before. */
  method StepUndone(g: GlobalProxy, enabled: bool, proxies: Proxies, interruptions: nat) returns (begun: bool)
    requires g.Inv() && g.copies.Newest() + STEP_WRITES + interruptions < MAX_GENERATION
    modifies g, g.profile, g.apt, g.copies
    ensures g.Inv() && g.profile.Now() == old(g.profile.Now()) && g.apt.Now() == old(g.apt.Now())
    ensures JournalOf(g.copies.Load()) == JournalOf(old(g.copies.Load()))
    ensures !begun ==> g.copies.main == old(g.copies.main) && g.copies.backup == old(g.copies.backup)
    ensures Carries(old(g.Stand()), g.Stand())
  {
    hide Carries;
    hide Rested;
    hide Sound;
    hide Compensable;
    hide InStep;
    hide CopyOk;
    hide PathInv;
    var r := Capture(g, enabled, proxies);
    if r.None? {
      CarriesItself(g.Stand());
      return false;
    }
    begun := true;
    var loaded := g.copies.Load();
    if enabled {
      var _ := g.Apply(Env(false, true), proxies);
    } else {
      var _, _ := g.Restore(Env(false, true));
    }
    ghost var main, backup, hp, ha := g.copies.main, g.copies.backup, g.profile.Past(), g.apt.Past();
    SoundCopies(main, backup, g.copies.Load(), g.zp, g.za, hp, ha);
    UndoRepeatedly(g, r.value, interruptions);
    if loaded.Found? {
      CopyOkGrows(main, g.zp, g.za, hp, ha, g.profile.Past(), g.apt.Past());
      CopyOkGrows(backup, g.zp, g.za, hp, ha, g.profile.Past(), g.apt.Past());
      OwnershipGoesOn(old(g.copies.main), old(g.copies.backup), loaded, main, backup, g.copies.main, g.copies.backup,
                      g.copies.Load().version,
                      r.value, g.zp, g.za, old(g.profile.Past()), old(g.apt.Past()), g.profile.Past(), g.apt.Past());
      CarriesOn(old(g.Stand()), g.Stand());
    } else {
      NoneIsSound(g.zp, g.za, g.profile.Past(), g.apt.Past());
      CarriesBeginning(old(g.Stand()), g.Stand());
    }
  }

  lemma SoundCopies(main: Option<Versioned<Journal>>, backup: Option<Versioned<Journal>>, loaded: Loaded<Journal>,
                    zp: Origin, za: Origin, hp: History<FileState>, ha: History<FileState>)
    requires Sound(main, backup, loaded, zp, za, hp, ha)
    ensures CopyOk(main, zp, za, hp, ha) && CopyOk(backup, zp, za, hp, ha)
  {
  }

  lemma NoneIsSound(zp: Origin, za: Origin, hp: History<FileState>, ha: History<FileState>)
    requires hp.slot.claimed.Absent? && ha.slot.claimed.Absent?
    ensures Sound(None, None, NoJournal, zp, za, hp, ha)
  {
  }
}
