/** What the journal of the two global proxy files says, and how it fits the files. */
module GlobalOwnership {
  import opened Wrappers
  import opened Artifacts
  import opened TwoNameCas
  import opened StoreFiles
  import opened JournalCopies

  datatype Proxies = Proxies(http: string, socks: string)

  /** A text the program generates for one of the two files, or any other text. */
  datatype Text = Template(apt: bool, proxies: Proxies) | Other(raw: string)

  datatype FileState = FileState(text: Text, mode: nat, uid: nat, gid: nat)

  type Held = Artifact<FileState>

  /** What the journal says about one file. Both values the program may have written are optional. */
  datatype Owned = Owned(original: Held, managed: Option<FileState>, pending: Option<FileState>)

  datatype Stage = Prepared | Active | Restoring

  datatype Journal = Journal(stage: Stage, profile: Owned, apt: Owned)

  const MANAGED_MODE: nat := 0x1a4 // 0644

  /** The state the program writes for one file under the given settings. */
  function Desired(proxies: Proxies, apt: bool): FileState {
    FileState(Template(apt, proxies), MANAGED_MODE, 0, 0)
  }

  predicate ValidManaged(profile: Option<FileState>, apt: Option<FileState>) {
    || (profile.None? && apt.None?)
    || (profile.Some? && apt.Some? && profile.value.mode == apt.value.mode == MANAGED_MODE
        && profile.value.text.Template? && !profile.value.text.apt
        && apt.value.text == Template(true, profile.value.text.proxies))
  }

  predicate ValidJournal(j: Journal) {
    && ValidManaged(j.profile.managed, j.apt.managed)
    && ValidManaged(j.profile.pending, j.apt.pending)
    && (j.stage == Active ==> j.profile.managed.Some? && j.profile.pending.None?)
    && (j.stage == Prepared ==> j.profile.pending.Some?)
    && !j.profile.original.Odd? && !j.apt.original.Odd?
  }

  /** The values a valid journal calls the program's are a pair of templates for the same settings. */
  lemma ManagedIsPair(profile: Option<FileState>, apt: Option<FileState>)
    ensures ValidManaged(profile, apt) <==>
              || (profile.None? && apt.None?)
              || (exists p, a, proxies ::
                    && profile == Some(p) && apt == Some(a) && p.mode == a.mode == 0x1a4
                    && p.text == Template(false, proxies) && a.text == Template(true, proxies))
  {
    if profile.Some? && profile.value.text.Template? {
      assert profile == Some(profile.value);
      assert apt.Some? ==> apt == Some(apt.value);
    }
  }

  function Files(s: Option<FileState>): seq<Held> {
    if s.Some? then [File(s.value)] else []
  }

  function ApplyExpected(o: Owned): seq<Held> {
    if o.managed.Some? then Files(o.managed) else [o.original]
  }

  function RestoreExpected(o: Owned): seq<Held> {
    [o.original] + Files(o.managed) + Files(o.pending)
  }

  /** The administrator's state, when the current one is none the journal knows, becomes the original. */
  function Adopt(o: Owned, current: Held): Owned {
    if current in RestoreExpected(o) then o else o.(original := current)
  }

  function Activated(o: Owned): Owned {
    Owned(o.original, o.pending, None)
  }

  /** Edits are only ever added, and only by an administrator. */
  predicate Grows(edits: seq<Held>, edits': seq<Held>, env: Env) {
    edits <= edits' && (!env.admin ==> edits' == edits)
  }

  predicate IsTemplate(a: Held) { a.File? && a.content.text.Template? }

  /** Where ownership of one file began: the value found, and how many edits the administrator had made. And how many
      there were when the file was last settled: at rest in a state no copy of the journal takes for the program's. */
  datatype Origin = Origin(value: Held, edits: nat, settled: nat)

  /** A state the administrator had when ownership began or put there since. */
  ghost predicate Own(a: Held, z: Origin, h: History<FileState>) {
    z.edits <= |h.edits| && (a == z.value || a in h.edits[z.edits..])
  }

  /** The administrator's last own state. */
  function LastOwn(z: Origin, h: History<FileState>): Held
    requires z.edits <= |h.edits|
  {
    Latest(z.value, h.edits, z.edits)
  }

  /** Of the first n edits, the last one was settled, or it cannot be mistaken for the program's work or for an earlier
      state: it is no deletion, no template and no state that was there before. */
  ghost predicate NovelAt(z: Origin, edits: seq<Held>, n: nat) {
    && z.edits <= n <= |edits|
    && (z.edits < n && n != z.settled ==>
          && !edits[n - 1].Absent? && !IsTemplate(edits[n - 1]) && edits[n - 1] != z.value
          && forall j :: z.edits <= j < n - 1 ==> edits[j] != edits[n - 1])
  }

  ghost predicate Novel(z: Origin, h: History<FileState>) {
    NovelAt(z, h.edits, |h.edits|)
  }

  /** The journal does not take this state for the program's, unless it is the original. */
  predicate Apart(a: Held, o: Owned) {
    a == o.original || !Managed(a, o)
  }

  /** What holds of any copy of the journal, old or new. */
  ghost predicate CopyInv(o: Owned, z: Origin, h: History<FileState>) {
    && z.edits <= z.settled <= |h.edits|
    && (|h.edits| == z.settled ==> Apart(LastOwn(z, h), o))
    && Own(o.original, z, h)
    && (|h.edits| == z.edits ==> o.original == z.value)
    && (o.managed.Some? ==> o.managed.value.text.Template?)
    && (o.pending.Some? ==> o.pending.value.text.Template?)
    && !o.original.Odd?
  }

  predicate Managed(a: Held, o: Owned) {
    a in Files(o.managed) + Files(o.pending)
  }

  /** What holds of the copy in force: the file shows a state of the administrator's or of the program's;
      and after a novel edit, the administrator's last state is on display or on record. */
  ghost predicate PathInv(o: Owned, z: Origin, h: History<FileState>) {
    && CopyInv(o, z, h)
    && (Own(View(h.slot), z, h) || Managed(View(h.slot), o))
    && (h.slot.claimed.Absent? || Own(h.slot.claimed, z, h) || Managed(h.slot.claimed, o))
    && (h.slot.final.Absent? || Own(h.slot.final, z, h) || Managed(h.slot.final, o))
    && (Novel(z, h) ==>
          && (o.original == LastOwn(z, h) || View(h.slot) == LastOwn(z, h))
          && (View(h.slot) in {LastOwn(z, h), o.original} || Managed(View(h.slot), o)))
  }

  /** Reading, or any edit of the administrator's, keeps the invariant. */
  lemma PathTurn(o: Owned, z: Origin, h: History<FileState>, h': History<FileState>, env: Env)
    requires PathInv(o, z, h)
    requires StepTo(h, h', env, h'.slot, h'.slot, false)
    ensures PathInv(o, z, h')
  {
    OwnGrows(z, h, h');
    if h'.edits != h.edits {
      assert h'.edits[|h'.edits| - 1] in h'.edits[z.edits..];
    }
  }

  lemma OwnGrows(z: Origin, h: History<FileState>, h': History<FileState>)
    requires z.edits <= |h.edits| && h.edits <= h'.edits
    ensures forall a :: Own(a, z, h) ==> Own(a, z, h')
    ensures h'.edits == h.edits && Novel(z, h') ==> Novel(z, h)
  {
  }

  /** The parts of the invariant that do not depend on how novel the edits are. */
  ghost predicate Traced(a: Held, o: Owned, z: Origin, h: History<FileState>) {
    Own(a, z, h) || Managed(a, o)
  }

  /** Whatever a compare-and-set leaves under the two names is still the administrator's or the program's. */
  lemma CasTraced(o: Owned, z: Origin, h0: History<FileState>, h: History<FileState>, env: Env,
                  expected: seq<Held>, desired: Held)
    requires PathInv(o, z, h0) && Kept(h0, h, env, expected, desired)
    requires Traced(desired, o, z, h0)
    ensures h.slot.final.Absent? || Traced(h.slot.final, o, z, h)
    ensures h.slot.claimed.Absent? || Traced(h.slot.claimed, o, z, h)
    ensures Traced(View(h.slot), o, z, h)
    ensures CopyInv(o, z, h)
  {
    OwnGrows(z, h0, h);
    assert forall a :: a in h.edits[|h0.edits|..] ==> a in h.edits[z.edits..];
    if View(h.slot).Absent? && !Undeleted(h.edits, |h0.edits|) {
      assert h.edits[|h.edits| - 1] in h.edits[|h0.edits|..];
    }
  }

  /** A novel last edit was never known to the journal before. */
  lemma NovelIsNew(o: Owned, z: Origin, h0: History<FileState>, h: History<FileState>, a: Held)
    requires CopyInv(o, z, h0) && h0.edits <= h.edits && Novel(z, h)
    requires |h0.edits| < |h.edits|
    ensures LastOwn(z, h) == h.edits[|h.edits| - 1]
    ensures LastOwn(z, h) !in RestoreExpected(o) && Undeleted(h.edits, |h0.edits|)
  {
  }

  /** An apply keeps the invariant, whatever becomes of the call. */
  lemma ApplyKeeps(o: Owned, z: Origin, h0: History<FileState>, h: History<FileState>, env: Env)
    requires PathInv(o, z, h0) && o.pending.Some?
    requires Kept(h0, h, env, ApplyExpected(o), File(o.pending.value))
    ensures PathInv(o, z, h)
  {
    var desired := File(o.pending.value);
    CasTraced(o, z, h0, h, env, ApplyExpected(o), desired);
    if Novel(z, h) {
      OwnGrows(z, h0, h);
      assert Undeleted(h.edits, |h0.edits|);
      if |h0.edits| < |h.edits| {
        NovelIsNew(o, z, h0, h, desired);
        assert View(h.slot) == LastOwn(z, h);
      } else {
        assert h.edits == h0.edits;
      }
    }
  }

  /** A logical read: how many edits there were then, and what the two names stood for. */
  datatype Sight = Sight(at: nat, value: Held)

  /** What a restore saw of each file. */
  datatype Seen = Seen(profile: Sight, apt: Sight)

  /** A call that began at h0 has read what stood there after so many edits. */
  ghost predicate Saw(n: Sight, h0: History<FileState>, h: History<FileState>) {
    && |h0.edits| <= n.at <= |h.edits|
    && n.value == View(Slot(Latest(h0.slot.final, h.edits[..n.at], |h0.edits|), h0.slot.claimed))
  }

  /** The file was read, and nothing but edits has happened to its name since. */
  ghost predicate Surveyed(n: Sight, h: History<FileState>) {
    n.at <= |h.edits| && (n.at < |h.edits| ==> h.slot.final == h.edits[|h.edits| - 1])
  }

  /** The administrator's own state after the first n edits. */
  function OwnAt(z: Origin, edits: seq<Held>, n: nat): Held
    requires z.edits <= n <= |edits|
  {
    Latest(z.value, edits[..n], z.edits)
  }

  /** What a restore that saw n gives back: what it saw, unless that is the program's. */
  function Back(o: Owned, n: Sight): (r: Held)
    ensures r == if Managed(n.value, o) then o.original else n.value
  {
    Adopt(o, n.value).original
  }

  /** And that is the administrator's last own state at that time, if it was a novel one. */
  ghost predicate BackIsOwn(o: Owned, z: Origin, n: Sight, edits: seq<Held>) {
    && z.edits <= n.at <= |edits|
    && (NovelAt(z, edits, n.at) ==> Back(o, n) == OwnAt(z, edits, n.at))
  }

  /** How the journal o' a restore works for relates to the journal o whose expected values it uses. */
  ghost predicate Adopted(o: Owned, o': Owned, z: Origin, n: Sight, h: History<FileState>) {
    && Surveyed(n, h) && o' == Adopt(o, n.value) && BackIsOwn(o, z, n, h.edits)
    && (o' != o && Novel(z, h) ==> LastOwn(z, h) == o'.original || LastOwn(z, h) !in RestoreExpected(o))
  }

  /** The two reads of a logical read, at h1 and after it: adopting what they found keeps the invariant. */
  lemma AdoptKeeps(o: Owned, z: Origin, h: History<FileState>, h1: History<FileState>, h2: History<FileState>,
                   env: Env, current: Held)
    requires PathInv(o, z, h)
    requires StepTo(h, h1, env, h1.slot, h1.slot, false) && StepTo(h1, h2, env, h2.slot, h2.slot, false)
    requires Logical(h1.slot, RestoreExpected(o)).Value? && Logical(h1.slot, RestoreExpected(o)).state == current
    ensures PathInv(o, z, h2) && PathInv(Adopt(o, current), z, h2)
    ensures Adopted(o, Adopt(o, current), z, Sight(|h1.edits|, current), h2)
  {
    PathTurn(o, z, h, h1, env);
    PathTurn(o, z, h1, h2, env);
    assert BackIsOwn(o, z, Sight(|h1.edits|, current), h2.edits) by {
      assert h2.edits[..|h1.edits|] == h1.edits;
      assert NovelAt(z, h2.edits, |h1.edits|) ==> Novel(z, h1);
      SurveyRecords(o, z, h1, current);
    }
    var o' := Adopt(o, current);
    if o' != o {
      assert current == View(h1.slot) && Own(current, z, h1);
      OwnGrows(z, h1, h2);
      if Novel(z, h2) && h2.edits != h1.edits {
        NovelIsNew(o, z, h1, h2, current);
      }
    }
  }

  /** A restore keeps the invariant of the journal it works for. The expected values are those of the
      journal before the current state was adopted. */
  lemma RestoreKeeps(o: Owned, o': Owned, z: Origin, n: Sight, h0: History<FileState>, h: History<FileState>, env: Env)
    requires CopyInv(o, z, h0) && PathInv(o', z, h0) && Adopted(o, o', z, n, h0)
    requires Kept(h0, h, env, RestoreExpected(o), o'.original)
    ensures PathInv(o', z, h)
    ensures Landed(h0, h, o'.original) ==> Rested(z, h) && ReturnedSince(o, z, n, h)
  {
    if Landed(h0, h, o'.original) { RestoreReturns(o, z, n, h0, h, env); }
    hide BackIsOwn;
    hide ReturnedSince;
    CasTraced(o', z, h0, h, env, RestoreExpected(o), o'.original);
    if Novel(z, h) { RestoreShows(o, o', z, n, h0, h, env); }
    assert forall a :: a in h.edits[|h0.edits|..] ==> a in h.edits[z.edits..];
  }

  /** After novel edits a restore leaves the administrator's last state on display or on record. */
  lemma RestoreShows(o: Owned, o': Owned, z: Origin, n: Sight, h0: History<FileState>, h: History<FileState>, env: Env)
    requires CopyInv(o, z, h0) && PathInv(o', z, h0) && Adopted(o, o', z, n, h0)
    requires Kept(h0, h, env, RestoreExpected(o), o'.original) && Novel(z, h)
    ensures o'.original == LastOwn(z, h) || View(h.slot) == LastOwn(z, h)
    ensures View(h.slot) in {LastOwn(z, h), o'.original} || Managed(View(h.slot), o')
  {
    OwnGrows(z, h0, h);
    assert Undeleted(h.edits, |h0.edits|);
    if |h0.edits| < |h.edits| {
      NovelIsNew(o, z, h0, h, o'.original);
      assert View(h.slot) == LastOwn(z, h);
    } else {
      assert h.edits == h0.edits;
    }
  }

  /** One file after a finished restore. */
  ghost predicate Rested(z: Origin, h: History<FileState>) {
    h.slot.claimed.Absent? && Own(h.slot.final, z, h) && (Novel(z, h) ==> h.slot.final == LastOwn(z, h))
  }

  // What a restore gives back.

  /** What it has seen is back, unless that was the program's; or else the administrator's later edit is there. Only a
      deletion or a value the restore may replace can be passed over. */
  ghost predicate Returned(o: Owned, n: Sight, h: History<FileState>) {
    && n.at <= |h.edits| && h.slot.claimed.Absent?
    && if n.at == |h.edits| then h.slot.final == Back(o, n)
       else
         var last := h.edits[|h.edits| - 1];
         || h.slot.final == last
         || (h.slot.final == Back(o, n) && (last.Absent? || last in RestoreExpected(o)))
  }

  ghost predicate ReturnedSince(o: Owned, z: Origin, n: Sight, h: History<FileState>) {
    Returned(o, n, h) && BackIsOwn(o, z, n, h.edits)
  }

  /** A survey records what it sees, unless that is the program's; and the administrator's last own state, if it is a
      novel one. */
  lemma SurveyRecords(o: Owned, z: Origin, h: History<FileState>, current: Held)
    requires PathInv(o, z, h)
    requires Logical(h.slot, RestoreExpected(o)).Value? && Logical(h.slot, RestoreExpected(o)).state == current
    ensures Adopt(o, current).original == if Managed(View(h.slot), o) then o.original else View(h.slot)
    ensures Novel(z, h) ==> Adopt(o, current).original == LastOwn(z, h)
  {
  }

  /** A landed restore has given back what it saw, unless it met a later edit. */
  lemma RestoreReturns(o: Owned, z: Origin, n: Sight, h0: History<FileState>, h: History<FileState>, env: Env)
    requires Surveyed(n, h0) && BackIsOwn(o, z, n, h0.edits)
    requires Kept(h0, h, env, RestoreExpected(o), Back(o, n)) && Landed(h0, h, Back(o, n))
    ensures ReturnedSince(o, z, n, h)
  {
    assert h.edits[..n.at] == h0.edits[..n.at];
    assert NovelAt(z, h.edits, n.at) ==> NovelAt(z, h0.edits, n.at);
  }

  // Exactly when a call passes over an edit.

  /** The restore finds x, then the administrator puts a value there that the restore may replace, and perhaps deletes
      it when it has been claimed. */
  lemma RestoreMisses(o: Owned, x: Held, z: Origin, h: History<FileState>, c: Held, deleted: bool)
    returns (h': History<FileState>)
    requires h.slot == Slot(x, Absent) && !x.Odd? && !o.original.Odd? && z.edits <= |h.edits|
    requires c in RestoreExpected(o) && c.File? && c != Adopt(o, x).original
    requires deleted ==> Adopt(o, x).original.File?
    ensures Succeeds(h, h', Env(true, false), RestoreExpected(o), Adopt(o, x).original)
    ensures h.edits < h'.edits && h'.edits[|h'.edits| - 1] == if deleted then Absent else c
    ensures h'.slot == Slot(Adopt(o, x).original, Absent) && h'.slot.final != LastOwn(z, h')
  {
    h' := OverwritingRun(h, RestoreExpected(o), Adopt(o, x).original, c, deleted);
  }

  /** Of a restore that has seen x. */
  lemma RestorePassesOverIff(o: Owned, x: Held, h: History<FileState>, e: Held)
    requires h.slot.claimed.Absent? && !x.Odd? && !o.original.Odd?
    ensures var back, expected := Adopt(o, x).original, RestoreExpected(o);
            (exists h' :: PassesOver(h, h', expected, back, e))
            <==> e != back && (e in expected || (e.Absent? && exists c :: c in expected && c != back))
  {
    PassesOverIff(h, RestoreExpected(o), Adopt(o, x).original, e);
  }

  /** Of an apply that replaces a file. */
  lemma ApplyPassesOverIff(o: Owned, h: History<FileState>, e: Held)
    requires h.slot.claimed.Absent? && o.pending.Some? && !o.original.Odd?
    ensures var desired, expected := File(o.pending.value), ApplyExpected(o);
            (exists h' :: PassesOver(h, h', expected, desired, e))
            <==> e != desired && (e in expected || (e.Absent? && expected != [desired]))
  {
    PassesOverIff(h, ApplyExpected(o), File(o.pending.value), e);
    assert ApplyExpected(o)[0] in ApplyExpected(o);
  }

  /** An apply that passes over a deletion leaves no trace of it: neither the file nor the journal shows it. */
  lemma DeletionIsForgotten(o: Owned, z: Origin, h: History<FileState>) returns (h': History<FileState>)
    requires h.slot.claimed.Absent? && o.pending.Some? && o.original.File? && z.edits <= |h.edits|
    requires ApplyExpected(o) != [File(o.pending.value)]
    ensures PassesOver(h, h', ApplyExpected(o), File(o.pending.value), Absent)
    ensures LastOwn(z, h').Absent? && LastOwn(z, h') !in {o.original, View(h'.slot)}
  {
    assert ApplyExpected(o)[0] in ApplyExpected(o);
    h' := OverwritingRun(h, ApplyExpected(o), File(o.pending.value), ApplyExpected(o)[0], true);
  }

  /** What was seen in a call is what stood there, whatever is edited afterwards. */
  lemma SawOn(n: Sight, h0: History<FileState>, h1: History<FileState>, h: History<FileState>)
    requires Saw(n, h0, h1) && h1.edits <= h.edits
    ensures Saw(n, h0, h)
  {
    assert h.edits[..n.at] == h1.edits[..n.at];
  }

  // A state that is safe from calls nobody disturbs.

  /** A restore gives e back. */
  ghost predicate Safe(l: Loaded<Journal>, z: Origin, h: History<FileState>, e: Held) {
    if l.Found? then z.edits <= |h.edits| && Novel(z, h) && LastOwn(z, h) == e else h.slot.final == e
  }

  /** The journal in force with the origins and histories of both files. */
  datatype Standing = Standing(journal: Loaded<Journal>, zp: Origin, za: Origin, hp: History<FileState>,
                               ha: History<FileState>)

  /** Whatever was safe still is. */
  ghost predicate Carries(s0: Standing, s: Standing) {
    && (forall e :: Safe(s0.journal, s0.zp, s0.hp, e) ==> Safe(s.journal, s.zp, s.hp, e))
    && (forall e :: Safe(s0.journal, s0.za, s0.ha, e) ==> Safe(s.journal, s.za, s.ha, e))
  }

  /** Nothing but a finished restore drops the journal. */
  lemma CarriesOn(s0: Standing, s: Standing)
    requires s0.journal.Found? && !s.journal.Conflict? && s.zp == s0.zp && s.za == s0.za
    requires Grows(s0.hp.edits, s.hp.edits, Calm) && Grows(s0.ha.edits, s.ha.edits, Calm)
    requires s.journal.NoJournal? ==> Rested(s.zp, s.hp) && Rested(s.za, s.ha)
    ensures Carries(s0, s)
  {
  }

  /** Ownership begins with what is there. */
  lemma CarriesBeginning(s0: Standing, s: Standing)
    requires s0.journal.NoJournal? && !s.journal.Conflict? && s.hp.slot == s0.hp.slot && s.ha.slot == s0.ha.slot
    requires s.journal.Found? ==>
               && s.zp == Origin(s.hp.slot.final, |s.hp.edits|, |s.hp.edits|)
               && s.za == Origin(s.ha.slot.final, |s.ha.edits|, |s.ha.edits|)
    ensures Carries(s0, s)
  {
  }

  lemma CarriesItself(s: Standing)
    ensures Carries(s, s)
  {
  }

  lemma CarriesTwice(s0: Standing, s1: Standing, s: Standing)
    requires Carries(s0, s1) && Carries(s1, s)
    ensures Carries(s0, s)
  {
  }

  /** In view or on record. */
  predicate Traceable(e: Held, o: Option<Owned>, s: Slot<FileState>) {
    View(s) == e || (o.Some? && o.value.original == e)
  }

  lemma SafeIsTraceable(main: Option<Versioned<Journal>>, backup: Option<Versioned<Journal>>, s: Standing, p: Held,
                        a: Held)
    requires Sound(main, backup, s.journal, s.zp, s.za, s.hp, s.ha)
    ensures Safe(s.journal, s.zp, s.hp, p) ==> Traceable(p, OwnedOf(s.journal, false), s.hp.slot)
    ensures Safe(s.journal, s.za, s.ha, a) ==> Traceable(a, OwnedOf(s.journal, true), s.ha.slot)
  {
  }

  function OwnedOf(l: Loaded<Journal>, second: bool): Option<Owned> {
    if l.Found? then Some(Part(l.version.journal, second)) else None
  }

  function Part(j: Journal, second: bool): Owned { if second then j.apt else j.profile }

  /** At rest: the administrator's last own state is in view, and no copy of the journal takes it for the program's. */
  ghost predicate Resting(main: Option<Versioned<Journal>>, backup: Option<Versioned<Journal>>, l: Loaded<Journal>,
                          second: bool, z: Origin, h: History<FileState>) {
    l.Found? ==>
      && z.edits <= |h.edits| && View(h.slot) == LastOwn(z, h)
      && (main.Some? ==> Apart(View(h.slot), Part(main.value.journal, second)))
      && (backup.Some? ==> Apart(View(h.slot), Part(backup.value.journal, second)))
  }

  function SettledNow(z: Origin, h: History<FileState>): Origin { z.(settled := |h.edits|) }

  lemma SettlingKeeps(main: Option<Versioned<Journal>>, backup: Option<Versioned<Journal>>, s: Standing)
    requires Sound(main, backup, s.journal, s.zp, s.za, s.hp, s.ha)
    ensures Resting(main, backup, s.journal, false, s.zp, s.hp) && s.journal.Found? ==>
              && Sound(main, backup, s.journal, SettledNow(s.zp, s.hp), s.za, s.hp, s.ha)
              && Safe(s.journal, SettledNow(s.zp, s.hp), s.hp, View(s.hp.slot))
    ensures Resting(main, backup, s.journal, true, s.za, s.ha) && s.journal.Found? ==>
              && Sound(main, backup, s.journal, s.zp, SettledNow(s.za, s.ha), s.hp, s.ha)
              && Safe(s.journal, SettledNow(s.za, s.ha), s.ha, View(s.ha.slot))
  {
  }

  /** Ownership begins: both files as they were read become the originals. */
  lemma OwnershipBegins(p: Held, a: Held, proxies: Proxies, hp: History<FileState>, ha: History<FileState>)
    requires !p.Odd? && !a.Odd? && hp.slot == Slot(p, Absent) && ha.slot.claimed.Absent?
    requires ha.slot.final == a
    ensures var zp, za := Origin(p, |hp.edits|, |hp.edits|), Origin(a, |ha.edits|, |ha.edits|);
            var j := Journal(Prepared, Owned(p, None, Some(Desired(proxies, false))),
                             Owned(a, None, Some(Desired(proxies, true))));
            && ValidJournal(j) && InForce(j, zp, za, hp, ha)
            && forall g :: CopyOk(Some(Versioned(g, j)), zp, za, hp, ha)
  {
  }

  lemma GrowsOn(first: seq<Held>, second: seq<Held>, third: seq<Held>, env: Env)
    requires Grows(first, second, env) && Grows(second, third, env)
    ensures Grows(first, third, env)
  {
  }

  lemma LandedEarlier(h0: History<FileState>, h1: History<FileState>, h: History<FileState>, desired: Held, env: Env)
    requires Landed(h1, h, desired) && Grows(h0.edits, h1.edits, env)
    ensures Landed(h0, h, desired)
  {
  }

  /** Both writes of an apply landed: the pending value becomes the managed one. */
  lemma ActiveKeeps(o: Owned, z: Origin, h0: History<FileState>, h: History<FileState>)
    requires PathInv(o, z, h) && o.pending.Some? && z.edits <= |h0.edits| && h0.edits <= h.edits
    requires Landed(h0, h, File(o.pending.value))
    ensures PathInv(Activated(o), z, h)
  {
  }

  ghost predicate CopyOk(v: Option<Versioned<Journal>>, zp: Origin, za: Origin, hp: History<FileState>,
                         ha: History<FileState>) {
    v.Some? ==>
      && ValidJournal(v.value.journal)
      && CopyInv(v.value.journal.profile, zp, hp) && CopyInv(v.value.journal.apt, za, ha)
  }

  /** The copy in force describes both files, and an active one leaves no quarantine behind. */
  ghost predicate InForce(j: Journal, zp: Origin, za: Origin, hp: History<FileState>, ha: History<FileState>) {
    && PathInv(j.profile, zp, hp) && PathInv(j.apt, za, ha)
    && (j.stage == Active ==> hp.slot.claimed.Absent? && ha.slot.claimed.Absent?)
  }

  lemma CopyIsOk(j: Journal, zp: Origin, za: Origin, hp: History<FileState>, ha: History<FileState>)
    requires ValidJournal(j) && InForce(j, zp, za, hp, ha)
    ensures forall g :: CopyOk(Some(Versioned(g, j)), zp, za, hp, ha)
  {}

  /** The invariant of the whole: every copy is valid, and the copy in force describes both files. */
  ghost predicate Sound(main: Option<Versioned<Journal>>, backup: Option<Versioned<Journal>>, loaded: Loaded<Journal>,
                        zp: Origin, za: Origin, hp: History<FileState>, ha: History<FileState>) {
    && CopyOk(main, zp, za, hp, ha) && CopyOk(backup, zp, za, hp, ha)
    && match loaded
       case NoJournal => hp.slot.claimed.Absent? && ha.slot.claimed.Absent?
       case Found(v) => Some(v) in {main, backup} && InForce(v.journal, zp, za, hp, ha)
       case Conflict => false
  }

  lemma CopyOkGrows(v: Option<Versioned<Journal>>, zp: Origin, za: Origin, hp: History<FileState>,
                    ha: History<FileState>,
                    hp': History<FileState>, ha': History<FileState>)
    requires CopyOk(v, zp, za, hp, ha) && hp.edits <= hp'.edits && ha.edits <= ha'.edits
    ensures CopyOk(v, zp, za, hp', ha')
  {
  }

  lemma SoundMeans(main: Option<Versioned<Journal>>, backup: Option<Versioned<Journal>>, v: Versioned<Journal>,
                   zp: Origin, za: Origin, hp: History<FileState>, ha: History<FileState>)
    requires Sound(main, backup, Found(v), zp, za, hp, ha)
    ensures InForce(v.journal, zp, za, hp, ha) && ValidJournal(v.journal)
  {
  }

  /** Progress on the files keeps the whole sound when it keeps the journal in force. */
  lemma SoundGrows(main: Option<Versioned<Journal>>, backup: Option<Versioned<Journal>>, v: Versioned<Journal>,
                   zp: Origin, za: Origin, hp: History<FileState>, ha: History<FileState>,
                   hp': History<FileState>, ha': History<FileState>)
    requires Sound(main, backup, Found(v), zp, za, hp, ha)
    requires hp.edits <= hp'.edits && ha.edits <= ha'.edits && InForce(v.journal, zp, za, hp', ha')
    ensures Sound(main, backup, Found(v), zp, za, hp', ha')
  {
  }

  /** A rested file satisfies any copy of the journal, even one the removal should have taken. */
  lemma RestedKeeps(o: Owned, z: Origin, h: History<FileState>)
    requires CopyInv(o, z, h) && Rested(z, h)
    ensures PathInv(o, z, h)
  {}

  /** The file can be read as one value. */
  predicate Legible(s: Slot<FileState>, o: Owned) { Logical(s, RestoreExpected(o)).Value? }

  /** The journal a restore works for, undisturbed. */
  function Decided(j: Journal, p: Slot<FileState>, a: Slot<FileState>): Journal {
    Journal(Restoring, Adopt(j.profile, View(p)), Adopt(j.apt, View(a)))
  }

  /** An undisturbed restore of the file succeeds: it can be read, and it is not a file to be removed that
      stands beside a quarantine, which takes a second call. */
  predicate Givable(s: Slot<FileState>, o: Owned) {
    Legible(s, o) && (Adopt(o, View(s)).original.Absent? ==> s.final.Absent? || s.claimed.Absent?)
  }

  lemma GivableIff(s: Slot<FileState>, o: Owned)
    requires !o.original.Odd?
    ensures Legible(s, o) && CalmCas(s, RestoreExpected(o), Adopt(o, View(s)).original).0.Done? <==> Givable(s, o)
  {
  }

  /** What an undisturbed restore gives back is readable. */
  lemma GivesBackReadable(o: Owned, n: Sight, h0: History<FileState>, h: History<FileState>)
    requires Saw(n, h0, h) && Returned(o, n, h) && h.edits == h0.edits && Legible(h0.slot, o) && !o.original.Odd?
    ensures !h.slot.final.Odd?
  {
  }

  /** An apply may go on to write: no quarantine, and the pending value or one it may replace in place; or a quarantine
      it knows, whatever readable file stands beside it. */
  predicate InPlace(s: Slot<FileState>, o: Owned) {
    if s.claimed.Absent? then s.final in ApplyExpected(o) || s.final in Files(o.pending)
    else s.claimed in ApplyExpected(o) && !s.final.Odd?
  }

  /** An undisturbed write of the pending value succeeds. */
  predicate Ripe(s: Slot<FileState>, o: Owned) {
    o.pending.Some? && Resumable(s, ApplyExpected(o), File(o.pending.value))
  }

  /** The check an apply makes before it writes. */
  lemma InPlaceIs(s: Slot<FileState>, o: Owned)
    requires !o.original.Odd?
    ensures var r := Logical(s, ApplyExpected(o));
            InPlace(s, o) <==>
              r.Value? && (r.state in Files(o.pending) || r.state in ApplyExpected(o) || r.quarantined)
  {
  }

  /** What a finished apply shows: the new template is the managed value, and the file holds it unless the
      administrator has edited the file since. */
  ghost predicate Shown(text: Text, o: Owned, h0: History<FileState>, h: History<FileState>) {
    o.managed.Some? && o.managed.value.text == text && Landed(h0, h, File(o.managed.value))
  }
}
