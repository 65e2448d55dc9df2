/** The Store's main file and its backup as the runtime transaction sees them. */
module StoreFiles {
  import opened Wrappers
  import opened Artifacts
  import opened TwoNameCas

  /** A Store: its generation, and everything else it holds. */
  datatype Store = Store(generation: nat, body: string)

  /** The bytes of a file: the program's own encoding of a Store, or other bytes that decode or do not. */
  datatype Image = Encoded(store: Store) | Opaque(raw: string, decoded: Option<Store>)

  /** Bytes, and the owner and mode the compare-and-set also compares. */
  datatype StoreFile = StoreFile(image: Image, owner: nat)

  /** What the receipt records about a file: its digest, taken to be injective, or its absence. */
  type Evidence = Option<Image>

  type Entry = Artifact<StoreFile>

  const OWN: nat := 0
  const MAX_GENERATION: nat := 0xffff_ffff_ffff_ffff

  function EvidenceOf(a: Entry): Evidence {
    if a.File? then Some(a.content.image) else None
  }

  function FileOf(s: Store): Entry {
    File(StoreFile(Encoded(s), OWN))
  }

  function Decode(e: Evidence): Option<Store> {
    match e
    case None => None
    case Some(Encoded(s)) => Some(s)
    case Some(Opaque(_, decoded)) => decoded
  }

  function Generation(a: Entry): nat {
    var d := Decode(EvidenceOf(a));
    if d.Some? then d.value.generation else 0
  }

  /** The highest generation either file decodes to. */
  function Highest(main: Entry, backup: Entry): nat {
    if Generation(main) < Generation(backup) then Generation(backup) else Generation(main)
  }

  function Undisturbed(faults: bool): Env {
    Env(false, faults)
  }

  method ReadEvidence(d: Directory<StoreFile>, faults: bool) returns (ok: bool, e: Evidence)
    ensures ok ==> !d.final.Odd? && e == EvidenceOf(d.final)
    ensures !faults && !d.final.Odd? ==> ok
  {
    if faults {
      if * { return false, None; }
    }
    return !d.final.Odd?, EvidenceOf(d.final);
  }

  /** What putting a leftover quarantine right makes of a slot, when it is allowed to. */
  function Settled(s: Slot<StoreFile>, allowed: seq<Evidence>): Option<Slot<StoreFile>> {
    if s.claimed.Absent? then Some(s)
    else if s.claimed.Odd? || EvidenceOf(s.claimed) !in allowed then None
    else if s.final.Absent? then Some(Slot(s.claimed, Absent))
    else if s.final.Odd? || EvidenceOf(s.final) !in allowed then None
    else Some(Slot(s.final, Absent))
  }

  /** Puts back or retires a leftover quarantine; a file the receipt does not name stops it. */
  method Settle(d: Directory<StoreFile>, faults: bool, allowed: seq<Evidence>) returns (o: Outcome)
    modifies d
    ensures o in {Done, Failed, Crashed}
    ensures d.edits == old(d.edits)
    ensures d.Now() == old(d.Now()) || Settled(old(d.Now()), allowed) == Some(d.Now())
    ensures o.Done? ==> Settled(old(d.Now()), allowed) == Some(d.Now())
    ensures !faults && Settled(old(d.Now()), allowed).Some? ==> o.Done?
    ensures old(d.moves) <= d.moves
    ensures forall i :: |old(d.moves)| <= i < |d.moves| ==> d.moves[i].after.final == View(old(d.Now()))
  {
    var env := Undisturbed(faults);
    var claimed := d.Read(env, true);
    if claimed.Absent? { return Done; }
    if claimed.Odd? || EvidenceOf(claimed) !in allowed { return Failed; }
    var final := d.Read(env, false);
    var io;
    ghost var middle, applied;
    if final.Absent? {
      io, middle, applied := d.PutBack(env);
    } else if final.Odd? || EvidenceOf(final) !in allowed {
      return Failed;
    } else {
      io, middle, applied := d.Retire(env);
    }
    o := if io.Ok? then Done else if io.Dead? then Crashed else Failed;
  }

  /** Every slot an undisturbed replacement of a0 by t can leave behind. */
  predicate Between(s: Slot<StoreFile>, a0: Entry, t: Entry) {
    Resumable(s, [a0], t)
  }

  /** Replaces one Store file whose evidence was fixed beforehand. */
  method StoreCas(d: Directory<StoreFile>, faults: bool, expected: Evidence, s: Store) returns (o: Outcome)
    requires !d.final.Odd? && d.quarantine.Absent?
    modifies d
    ensures d.edits == old(d.edits)
    ensures o.Done? ==> d.Now() == Slot(FileOf(s), Absent)
    ensures EvidenceOf(old(d.final)) != expected ==> !o.Done? && d.Now() == old(d.Now()) && d.moves == old(d.moves)
    ensures Between(d.Now(), old(d.final), FileOf(s))
    ensures !faults && EvidenceOf(old(d.final)) == expected ==> o.Done?
    ensures old(d.moves) <= d.moves
    ensures forall i :: |old(d.moves)| <= i < |d.moves| ==>
              d.moves[i].after.final in {Absent, old(d.final), FileOf(s)}
              && (d.moves[i].after.final == FileOf(s) != old(d.final) ==> d.final == FileOf(s))
  {
    var env := Undisturbed(faults);
    var state := d.Read(env, false);
    if EvidenceOf(state) != expected { return Failed; }
    ghost var h0 := d.Past();
    o := WriteCas(d, env, [state], FileOf(s));
    assert h0.slot == Slot(state, Absent);
  }
}
