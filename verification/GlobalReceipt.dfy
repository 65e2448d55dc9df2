/** What a runtime step records about the global proxy files before it changes them, and what an undisturbed step can
    leave. */
module GlobalReceipt {
  import opened Wrappers
  import opened Artifacts
  import opened TwoNameCas
  import opened StoreFiles
  import opened JournalCopies
  import opened GlobalOwnership

  /** One file in the receipt: its state, the original behind it, and every state the step may leave. */
  datatype Plan = Plan(file: Held, original: Held, allowed: seq<Held>)

  /** The journal's content before the step, if any, both files, and the generation kept free for undoing. */
  datatype Receipt = Receipt(before: Option<Journal>, profile: Plan, apt: Plan, recovery: nat)

  predicate GoodPlan(p: Plan) {
    && p.file in p.allowed && p.original in p.allowed
    && (forall a :: a in p.allowed ==> !a.Odd?)
    && (p.file.Absent? ==> p.original.Absent?)
  }

  /** The journal's entry belongs to the same ownership as the receipt's. */
  predicate Lineal(o: Owned, p: Plan) {
    o.original == p.original && forall a :: a in RestoreExpected(o) ==> a in p.allowed
  }

  /** The two names hold values the journal knows; a file that was absent never stands beside a quarantine. */
  predicate Quiet(s: Slot<FileState>, o: Owned, p: Plan) {
    && View(s) in RestoreExpected(o)
    && (s.claimed.Absent? || s.claimed in RestoreExpected(o))
    && (s.final.Absent? || s.final in RestoreExpected(o))
    && (p.file.Absent? ==> s.claimed.Absent? || s.final.Absent?)
  }

  /** What an undisturbed step leaves under the two names, by the stage of the journal in force. */
  predicate StageFits(s: Slot<FileState>, stage: Stage, o: Owned, p: Plan) {
    match stage
    case Prepared =>
      o.pending.Some? && Resumable(s, ApplyExpected(o), File(o.pending.value)) && (p.file.Absent? ==> o.managed.None?)
    case Active => o.managed.Some? && s == Slot(File(o.managed.value), Absent)
    case Restoring => Quiet(s, o, p)
  }

  /** A compare-and-set from the allowed states back to the file's own cannot be refused. */
  predicate Undoable(s: Slot<FileState>, p: Plan) {
    Resumable(s, p.allowed, p.file)
  }

  predicate CopyLineal(v: Option<Versioned<Journal>>, r: Receipt) {
    v.Some? ==> Lineal(v.value.journal.profile, r.profile) && Lineal(v.value.journal.apt, r.apt)
  }

  predicate GoodReceipt(r: Receipt) {
    && GoodPlan(r.profile) && GoodPlan(r.apt)
    && (r.before.Some? ==> Lineal(r.before.value.profile, r.profile) && Lineal(r.before.value.apt, r.apt))
  }

  /** Every copy that can still come into force is within the receipt. A main copy left over from before the step
      cannot, because the backup outlives it. */
  predicate CopiesFit(main: Option<Versioned<Journal>>, backup: Option<Versioned<Journal>>, r: Receipt) {
    CopyLineal(backup, r) && (CopyLineal(main, r) || (backup.Some? && r.before.Some?))
  }

  /** The copies of the journal and both files are within the receipt. */
  predicate Compensable(main: Option<Versioned<Journal>>, backup: Option<Versioned<Journal>>,
                        p: Slot<FileState>, a: Slot<FileState>, r: Receipt) {
    && GoodReceipt(r)
    && CopiesFit(main, backup, r)
    && Undoable(p, r.profile) && Undoable(a, r.apt)
  }

  /** Where an undisturbed step can be until it drops the journal. */
  predicate InStep(main: Option<Versioned<Journal>>, backup: Option<Versioned<Journal>>, loaded: Loaded<Journal>,
                   p: Slot<FileState>, a: Slot<FileState>, r: Receipt) {
    && GoodReceipt(r)
    && CopiesFit(main, backup, r)
    && match loaded
       case NoJournal => p == Slot(r.profile.original, Absent) && a == Slot(r.apt.original, Absent)
       case Found(v) => CopyLineal(Some(v), r) && StageFits(p, v.journal.stage, v.journal.profile, r.profile)
                        && StageFits(a, v.journal.stage, v.journal.apt, r.apt)
       case Conflict => false
  }

  /** Where a step starts: as the receipt says, with the values it may write allowed. */
  predicate AtReceipt(main: Option<Versioned<Journal>>, backup: Option<Versioned<Journal>>, loaded: Loaded<Journal>,
                      p: Slot<FileState>, a: Slot<FileState>, r: Receipt) {
    && InStep(main, backup, loaded, p, a, r)
    && p == Slot(r.profile.file, Absent) && a == Slot(r.apt.file, Absent)
    && (loaded.Found? ==> loaded.version.journal.stage == Active)
    && r.before == (if loaded.Found? then Some(loaded.version.journal) else None)
  }

  predicate Offers(r: Receipt, proxies: Proxies) {
    File(Desired(proxies, false)) in r.profile.allowed && File(Desired(proxies, true)) in r.apt.allowed
  }

  lemma FitsIsQuiet(s: Slot<FileState>, stage: Stage, o: Owned, p: Plan)
    requires GoodPlan(p) && Lineal(o, p) && StageFits(s, stage, o, p)
    ensures Quiet(s, o, p)
  {
  }

  lemma QuietIsUndoable(s: Slot<FileState>, o: Owned, p: Plan)
    requires GoodPlan(p) && Lineal(o, p) && Quiet(s, o, p)
    ensures Undoable(s, p)
    ensures Adopt(o, View(s)) == o
  {
  }

  /** Wherever the step stops, it can be undone. */
  lemma InStepIsCompensable(main: Option<Versioned<Journal>>, backup: Option<Versioned<Journal>>,
                            loaded: Loaded<Journal>,
                            p: Slot<FileState>, a: Slot<FileState>, r: Receipt)
    requires InStep(main, backup, loaded, p, a, r)
    ensures Compensable(main, backup, p, a, r)
  {
    if loaded.Found? {
      var j := loaded.version.journal;
      FitsIsQuiet(p, j.stage, j.profile, r.profile);
      FitsIsQuiet(a, j.stage, j.apt, r.apt);
      QuietIsUndoable(p, j.profile, r.profile);
      QuietIsUndoable(a, j.apt, r.apt);
    }
  }

  lemma FewerCopies(main: Option<Versioned<Journal>>, backup: Option<Versioned<Journal>>,
                    main': Option<Versioned<Journal>>, backup': Option<Versioned<Journal>>,
                    p: Slot<FileState>, a: Slot<FileState>, r: Receipt)
    requires Compensable(main, backup, p, a, r) && CopyLineal(main, r)
    requires main' in {None, main} && backup' in {None, backup}
    ensures Compensable(main', backup', p, a, r)
  {
  }

  /** What an undisturbed compare-and-set leaves is made of what it found and what it was to write. */
  lemma CalmlyMade(h0: History<FileState>, h: History<FileState>, env: Env, out: Outcome, expected: seq<Held>,
                   desired: Held)
    requires !env.admin && CasEffect(h0, h, env, out, expected, desired)
    ensures View(h.slot) in {View(h0.slot), desired}
    ensures h.slot.final in {Absent, h0.slot.final, h0.slot.claimed, desired}
    ensures h.slot.claimed in {Absent, h0.slot.final, h0.slot.claimed, desired}
    ensures out.Done? ==> h.slot == Slot(desired, Absent)
    ensures Resumable(h0.slot, expected, desired) ==> Resumable(h.slot, expected, desired)
  {
    assert Undeleted(h.edits, |h0.edits|);
  }

  /** Giving the file back keeps the names quiet. */
  lemma QuietKept(h0: History<FileState>, h: History<FileState>, env: Env, out: Outcome, o: Owned, p: Plan)
    requires !env.admin && CasEffect(h0, h, env, out, RestoreExpected(o), o.original)
    requires Quiet(h0.slot, o, p) && GoodPlan(p) && Lineal(o, p)
    ensures Quiet(h.slot, o, p)
    ensures out.Done? ==> h.slot == Slot(o.original, Absent)
  {
    CalmlyMade(h0, h, env, out, RestoreExpected(o), o.original);
  }

  /** So does going from any allowed state back to the file's own. */
  lemma UndoableKept(h0: History<FileState>, h: History<FileState>, env: Env, out: Outcome, p: Plan)
    requires !env.admin && CasEffect(h0, h, env, out, p.allowed, p.file)
    ensures Undoable(h0.slot, p) ==> Undoable(h.slot, p)
    ensures out.Done? ==> h.slot == Slot(p.file, Absent)
  {
    CalmlyMade(h0, h, env, out, p.allowed, p.file);
  }

  // How the journal's stages follow each other inside a step.

  lemma BeginsInStep(main: Option<Versioned<Journal>>, backup: Option<Versioned<Journal>>,
                     p: Slot<FileState>, a: Slot<FileState>, r: Receipt, proxies: Proxies)
    requires AtReceipt(main, backup, NoJournal, p, a, r) && Offers(r, proxies)
    ensures var j :=
            Journal(Prepared, Owned(p.final, None, Some(Desired(proxies, false))),
                    Owned(a.final, None, Some(Desired(proxies, true))));
            && Lineal(j.profile, r.profile) && Lineal(j.apt, r.apt)
            && StageFits(p, Prepared, j.profile, r.profile) && StageFits(a, Prepared, j.apt, r.apt)
    ensures InStep(main, backup, NoJournal, p, a, r)
  {
  }

  lemma RenewsInStep(main: Option<Versioned<Journal>>, backup: Option<Versioned<Journal>>, v: Versioned<Journal>,
                     p: Slot<FileState>, a: Slot<FileState>, r: Receipt, proxies: Proxies)
    requires AtReceipt(main, backup, Found(v), p, a, r) && Offers(r, proxies)
    ensures var jp, ja := v.journal.profile.(pending := Some(Desired(proxies, false))),
            v.journal.apt.(pending := Some(Desired(proxies, true)));
            && Lineal(jp, r.profile) && Lineal(ja, r.apt)
            && StageFits(p, Prepared, jp, r.profile) && StageFits(a, Prepared, ja, r.apt)
    ensures InStep(main, backup, Found(v), p, a, r)
  {
  }

  lemma InstallsInStep(s: Slot<FileState>, o: Owned, p: Plan)
    requires o.pending.Some? && Lineal(o, p) && s == Slot(File(o.pending.value), Absent)
    ensures Lineal(Activated(o), p) && StageFits(s, Active, Activated(o), p)
  {
  }

  lemma DecidesInStep(s: Slot<FileState>, stage: Stage, o: Owned, p: Plan)
    requires GoodPlan(p) && Lineal(o, p) && StageFits(s, stage, o, p)
    ensures Adopt(o, View(s)) == o && StageFits(s, Restoring, o, p) && Legible(s, o)
  {
    FitsIsQuiet(s, stage, o, p);
    QuietIsUndoable(s, o, p);
  }

  /** A pending value being written. */
  lemma WritesInStep(h0: History<FileState>, h: History<FileState>, env: Env, out: Outcome, o: Owned, p: Plan)
    requires o.pending.Some? && !env.admin && CasEffect(h0, h, env, out, ApplyExpected(o), File(o.pending.value))
    requires StageFits(h0.slot, Prepared, o, p)
    ensures StageFits(h.slot, Prepared, o, p)
    ensures out.Done? ==> h.slot == Slot(File(o.pending.value), Absent)
  {
    CalmlyMade(h0, h, env, out, ApplyExpected(o), File(o.pending.value));
  }

  lemma RestoresInStep(h0: History<FileState>, h: History<FileState>, env: Env, out: Outcome, o: Owned, p: Plan)
    requires !env.admin && CasEffect(h0, h, env, out, RestoreExpected(o), o.original)
    requires StageFits(h0.slot, Restoring, o, p) && GoodPlan(p) && Lineal(o, p)
    ensures StageFits(h.slot, Restoring, o, p)
  {
    QuietKept(h0, h, env, out, o, p);
  }
}
