/** A journal kept as two files with generations, written backup first and removed main first. */
module JournalCopies {
  import opened Wrappers
  import opened Artifacts
  import opened StoreFiles

  datatype Versioned<J> = Versioned(generation: nat, journal: J)

  /** What a reader makes of both copies. Conflict stands for every refusal. */
  datatype Loaded<J> = NoJournal | Found(version: Versioned<J>) | Conflict

  /** What reading one copy gives. Damaged is anything that cannot be read or decoded. */
  datatype Copy<J> = Gone | Damaged | Read(version: Versioned<J>)

  function CopyOf<J>(v: Option<Versioned<J>>): Copy<J> {
    if v.Some? then Read(v.value) else Gone
  }

  /** The newer of two copies, or the one that can be read. */
  function LoadFrom<J(==)>(main: Copy<J>, backup: Copy<J>): Loaded<J> {
    if main.Read? && backup.Read? then
      if main.version.generation > backup.version.generation then Found(main.version)
      else if backup.version.generation > main.version.generation then Found(backup.version)
      else if main != backup then Conflict
      else Found(main.version)
    else if main.Read? then Found(main.version)
    else if backup.Read? then Found(backup.version)
    else if main.Gone? && backup.Gone? then NoJournal
    else Conflict
  }

  /** Of two copies the newer one counts, whichever it is; two different ones of the same age are refused. */
  lemma NewerCounts<J>(main: Copy<J>, backup: Copy<J>)
    requires main.Read? && backup.Read?
    ensures var r := LoadFrom(main, backup);
            && (r.Conflict? <==> main.version.generation == backup.version.generation && main != backup)
            && (main.version.generation > backup.version.generation ==> r == Found(main.version))
            && (main.version.generation < backup.version.generation ==> r == Found(backup.version))
            && (main == backup ==> r == Found(main.version))
  {
  }

  /** A copy as it is read, damaged or not. */
  function Worn<J>(v: Option<Versioned<J>>, damaged: bool): Copy<J> {
    if damaged then Damaged else CopyOf(v)
  }

  function NewestOf<J>(main: Option<Versioned<J>>, backup: Option<Versioned<J>>): nat {
    var m := if main.Some? then main.value.generation else 0;
    var b := if backup.Some? then backup.value.generation else 0;
    if m < b then b else m
  }

  class Copies<J(==,!new)> {
    var main: Option<Versioned<J>>
    var backup: Option<Versioned<J>>
    /** The last version whose backup landed and has not been removed. */
    ghost var landed: Option<Versioned<J>>

    constructor ()
      ensures main == backup == None && Valid()
    {
      main, backup, landed := None, None, None;
    }

    /** The backup is never behind main, and equal generations hold equal content. */
    ghost predicate Valid()
      reads this
    {
      && landed == backup
      && (main.Some? && backup.Some? ==> main.value.generation < backup.value.generation || main == backup)
    }

    /** What a reader makes of the two files. */
    function Load(): (r: Loaded<J>)
      reads this
      ensures Valid() && landed.Some? ==> r == Found(landed.value)
      ensures Valid() ==> !r.Conflict? && (r.NoJournal? <==> main.None? && backup.None?)
    {
      LoadFrom(CopyOf(main), CopyOf(backup))
    }

    /** Damage to main loses nothing once a backup has landed; damage to the backup can show the version before; and no
        damage makes a journal seem gone. */
    lemma DamagedLoad(mainDamaged: bool, backupDamaged: bool)
      requires Valid() && (mainDamaged ==> main.Some?) && (backupDamaged ==> backup.Some?)
      ensures var r := LoadFrom(Worn(main, mainDamaged), Worn(backup, backupDamaged));
              && (backup.Some? && !backupDamaged ==> r == Found(landed.value))
              && (main.Some? && !mainDamaged && (backupDamaged || backup.None?) ==> r == Found(main.value))
              && (r.NoJournal? <==> main.None? && backup.None?)
              && (r.Conflict? <==> (mainDamaged || main.None?) && (backupDamaged || backup.None?) && !r.NoJournal?)
    {
    }

    function Newest(): nat
      reads this
    {
      NewestOf(main, backup)
    }

    /** Writes the next version; a failure can leave it in the backup alone. */
    method Save(env: Env, generation: nat, journal: J) returns (o: Outcome)
      requires Valid() && Newest() <= generation
      modifies this
      ensures Valid()
      ensures generation >= MAX_GENERATION ==> o.Failed? && main == old(main) && backup == old(backup)
      ensures var v := Some(Versioned(generation + 1, journal));
              && (o.Done? ==> main == backup == v)
              && main in {old(main), v} && backup in {old(backup), v}
              && (main != old(main) ==> backup == v)
              && (Load() == old(Load()) || Load() == Found(v.value))
      ensures !env.faults && generation < MAX_GENERATION ==> o.Done?
    {
      if generation >= MAX_GENERATION { return Failed; }
      var v := Some(Versioned(generation + 1, journal));
      o := Mishap(env);
      if !o.Done? { return; }
      backup, landed := v, v;
      o := Mishap(env);
      if !o.Done? { return; }
      main := v;
      o := Mishap(env);
    }

    /** Unlinks main, then the backup, going on past a failed unlink. */
    method Remove(env: Env) returns (o: Outcome)
      requires Valid()
      modifies this
      ensures Valid()
      ensures main in {old(main), None} && backup in {old(backup), None}
      ensures o.Done? ==> main == backup == None
      ensures !env.faults ==> o.Done?
    {
      o := Mishap(env);
      if o.Crashed? { return; }
      var first := o;
      if o.Done? {
        main := None;
      }
      o := Mishap(env);
      if o.Crashed? { return; }
      if o.Done? {
        backup, landed := None, None;
        o := Mishap(env);
      }
      if o.Done? && first.Failed? { o := Failed; }
    }

    method Mishap(env: Env) returns (o: Outcome)
      ensures o in {Done, Failed, Crashed}
      ensures !env.faults ==> o.Done?
    {
      o := Done;
      if env.faults {
        if * { o := Failed; } else if * { o := Crashed; }
      }
    }
  }

  /** One runtime step writes a journal at most three times; the reserved generation is then still free. */
  function RecoveryGeneration(before: nat, writes: nat): (r: Option<nat>)
    ensures r.Some? ==> r.value == before + writes < MAX_GENERATION
    ensures r.None? <==> MAX_GENERATION <= before + writes
  {
    if writes >= MAX_GENERATION || before > MAX_GENERATION - writes - 1 then None else Some(before + writes)
  }
}
