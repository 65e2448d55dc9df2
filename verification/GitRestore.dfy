/** The resumable restoration of Git's multi-valued proxy settings. */
module GitRestore {
  /** The durable plan: clear the values, then add the wanted ones one at a time. */
  datatype Plan = Plan(done: bool, before: seq<string>, desired: seq<string>, next: nat)

  datatype Saved = None | Saved(plan: Plan)

  /** Who else acts: another writer of the configuration, and failures that may cut an operation short. */
  datatype Env = Env(writer: bool, faults: bool)
  const Calm := Env(false, false)

  datatype Io = Ok | Refused | Failed | Dead

  datatype Outcome = Done | Stopped | Broken

  predicate ValidPlan(p: Plan) {
    if p.done then p.next == |p.desired| + 1 else p.next <= |p.desired|
  }

  /** The values that are not the program's own, in order. */
  function Unmanaged(values: seq<string>, managed: seq<string>): seq<string> {
    if values == [] then []
    else
      var n := |values| - 1;
      Unmanaged(values[..n], managed) + if values[n] in managed then [] else [values[n]]
  }

  /** The managed values are gone and all others are kept as often as they were. */
  lemma {:induction false} UnmanagedKeeps(values: seq<string>, managed: seq<string>, v: string)
    ensures multiset(Unmanaged(values, managed))[v] == if v in managed then 0 else multiset(values)[v]
  {
    if values != [] {
      var n := |values| - 1;
      assert values == values[..n] + [values[n]];
      UnmanagedKeeps(values[..n], managed, v);
    }
  }

  /** Their order is kept. */
  lemma {:induction false} UnmanagedInOrder(values: seq<string>, more: seq<string>, managed: seq<string>)
    ensures Unmanaged(values + more, managed) == Unmanaged(values, managed) + Unmanaged(more, managed)
  {
    if more == [] {
      assert values + more == values;
    } else {
      var n := |more| - 1;
      assert (values + more)[..|values| + n] == values + more[..n];
      UnmanagedInOrder(values, more[..n], managed);
    }
  }

  predicate HasManaged(values: seq<string>, managed: seq<string>) {
    exists i :: 0 <= i < |values| && values[i] in managed
  }

  /** What a restoration that starts at these values ends with. */
  function Goal(original: seq<string>, values: seq<string>, managed: seq<string>): seq<string> {
    if HasManaged(values, managed) then original + Unmanaged(values, managed) else values
  }

  function FirstPlan(original: seq<string>, values: seq<string>, managed: seq<string>): (p: Plan)
    ensures ValidPlan(p) && p.desired == Goal(original, values, managed) && p.before == values
  {
    if HasManaged(values, managed) then Plan(false, values, original + Unmanaged(values, managed), 0)
    else Plan(true, values, values, |values| + 1)
  }

  /** The values before and after the plan's next step. */
  function Transition(p: Plan): (seq<string>, seq<string>)
    requires ValidPlan(p) && !p.done
  {
    if p.next == 0 then (p.before, []) else (p.desired[..p.next - 1], p.desired[..p.next])
  }

  function Advanced(p: Plan): Plan
    requires ValidPlan(p) && !p.done
  {
    p.(next := p.next + 1, done := p.next == |p.desired|)
  }

  /** The values fit the plan: the next step is not done, or done but not yet recorded, or everything is. */
  predicate OnTrack(values: seq<string>, p: Plan) {
    && ValidPlan(p)
    && if p.done then values == p.desired else values in {Transition(p).0, Transition(p).1}
  }

  /** The values are neither before nor after the plan's next step. */
  predicate Foreign(values: seq<string>, p: Plan) {
    ValidPlan(p) && !p.done && values != Transition(p).0 && values != Transition(p).1
  }

  /** A resume can tell a step that was done from one that was not. */
  lemma StepsDiffer(p: Plan)
    requires ValidPlan(p) && !p.done && (p.next == 0 ==> p.before != [])
    ensures Transition(p).0 != Transition(p).1
  {
  }

  /** How many edits a plan has made that has brought the values this far. */
  function Made(values: seq<string>, p: Plan): nat
    requires ValidPlan(p)
  {
    if p.done then |p.desired| + 1 else if values == Transition(p).1 then p.next + 1 else p.next
  }

  /** Recording a step that shows changes nothing in the count. */
  lemma MadeAdvanced(p: Plan)
    requires ValidPlan(p) && !p.done
    ensures Made(Transition(p).1, Advanced(p)) == Made(Transition(p).1, p) == p.next + 1
  {
    var q := Advanced(p);
    if !q.done {
      StepsDiffer(q);
    }
  }

  /** The same plan, no less far. */
  predicate Further(p: Plan, q: Plan) {
    q.before == p.before && q.desired == p.desired && p.next <= q.next
  }

  /** The user's configuration and the durable backup with the plan. */
  class Settings {
    var values: seq<string>
    var saved: Saved
    /** Every look at the values, and what it showed. */
    ghost var looks: seq<seq<string>>
    /** Every change this program made: the plan it was made under, the values before and after. */
    ghost var moves: seq<(Plan, seq<string>, seq<string>)>

    constructor (values: seq<string>)
      ensures this.values == values && saved == None && moves == [] && looks == []
    {
      this.values, saved, moves, looks := values, None, [], [];
    }

    /** Every change was the recorded plan's next step. */
    ghost predicate Orderly()
      reads this
    {
      forall i :: 0 <= i < |moves| ==>
        var (p, from, to) := moves[i]; ValidPlan(p) && !p.done && (from, to) == Transition(p)
    }

    method WriterTurn(env: Env)
      modifies `values
      ensures !env.writer ==> values == old(values)
    {
      if env.writer { values := *; }
    }

    method Read(env: Env) returns (io: Io, current: seq<string>)
      modifies `values, `looks
      ensures io == Ok ==> looks == old(looks) + [current]
      ensures io in {Ok, Failed, Dead} && (!env.faults ==> io == Ok)
      ensures io == Ok ==> current == values
      ensures !env.writer ==> values == old(values)
    {
      WriterTurn(env);
      current := values;
      io := Ok;
      if env.faults {
        if * { io := Failed; } else if * { io := Dead; }
      }
      if io == Ok { looks := looks + [current]; }
    }

    /** Git's edit under its own lock: refused unless the values are still the expected ones. */
    method Mutate(env: Env, expected: seq<string>, clear: bool, added: string, ghost p: Plan) returns (io: Io)
      requires ValidPlan(p) && !p.done && Orderly() && saved == Saved(p)
      requires expected == Transition(p).0 && (if clear then [] else expected + [added]) == Transition(p).1
      modifies `values, `moves
      ensures Orderly() && (!env.faults && !env.writer && old(values) == expected ==> io == Ok)
      ensures !env.writer ==> values in {old(values), Transition(p).1}
      ensures !env.writer && values != old(values) ==> old(values) == expected
      ensures !env.writer && expected != Transition(p).1 ==>
                |moves| == |old(moves)| + if values == old(values) then 0 else 1
      ensures io == Ok && !env.writer ==> values == Transition(p).1
    {
      WriterTurn(env);
      if values != expected { return Refused; }
      if env.faults {
        if * { return Failed; } else if * { return Dead; }
      }
      moves := moves + [(p, values, if clear then [] else values + [added])];
      values := if clear then [] else values + [added];
      io := Ok;
      if env.faults {
        if * { io := Failed; } else if * { io := Dead; }
      }
    }

    /** Writes the backup. A failure can come before or after the new contents are in place. */
    method Save(env: Env, p: Plan) returns (io: Io)
      modifies `saved
      ensures io in {Ok, Failed, Dead} && (!env.faults ==> io == Ok)
      ensures saved in {old(saved), Saved(p)} && (io == Ok ==> saved == Saved(p))
    {
      io := Ok;
      if env.faults {
        if * { return Failed; } else if * { return Dead; }
      }
      saved := Saved(p);
      if env.faults {
        if * { io := Failed; } else if * { io := Dead; }
      }
    }

    /** One attempt, from whatever an earlier one left. Without another writer: values that fit the recorded plan still
        fit it afterwards, and values that are neither before nor after its next step are left alone with it. */
    method Restore(env: Env, original: seq<string>, managed: seq<string>) returns (o: Outcome)
      requires Orderly() && (saved.Saved? ==> ValidPlan(saved.plan))
      modifies this
      ensures Orderly() && (saved.Saved? ==> ValidPlan(saved.plan))
      ensures old(saved).Saved? ==> saved.Saved? && Further(old(saved.plan), saved.plan)
      ensures !env.writer && old(saved).None? ==>
                if saved.None? then values == old(values) && moves == old(moves)
                else && Further(FirstPlan(original, old(values), managed), saved.plan) && OnTrack(values, saved.plan)
                     && |moves| - |old(moves)| ==
                          Made(values, saved.plan) - Made(old(values), FirstPlan(original, old(values), managed))
      ensures !env.writer && old(saved).Saved? && old(OnTrack(values, saved.plan)) ==>
                && OnTrack(values, saved.plan)
                && |moves| - |old(moves)| == Made(values, saved.plan) - old(Made(values, saved.plan))
      ensures !env.writer && old(saved).Saved? && old(Foreign(values, saved.plan)) ==>
                o != Done && values == old(values) && saved == old(saved) && moves == old(moves)
      ensures o == Done ==> saved.Saved? && saved.plan.done
      ensures env == Calm && (old(saved).Saved? ==> old(OnTrack(values, saved.plan))) ==> o == Done
    {
      if saved.Saved? && saved.plan.done { return Done; }
      var io, current := Read(env);
      if io != Ok { return Broken; }
      if saved.None? {
        var first := FirstPlan(original, current, managed);
        io := Save(env, first);
        if io != Ok { return Broken; }
        if first.done { return Done; }
      }
      o := Advance(env);
    }

    /** Carries the recorded plan on, step by step, recording each step when it is done. */
    method Advance(env: Env) returns (o: Outcome)
      requires saved.Saved? && ValidPlan(saved.plan) && !saved.plan.done && Orderly()
      modifies this
      ensures saved.Saved? && ValidPlan(saved.plan) && Orderly() && Further(old(saved.plan), saved.plan)
      ensures !env.writer && old(OnTrack(values, saved.plan)) ==> OnTrack(values, saved.plan)
      ensures !env.writer && old(OnTrack(values, saved.plan)) ==>
                |moves| - |old(moves)| == Made(values, saved.plan) - old(Made(values, saved.plan))
      ensures !env.writer && old(Foreign(values, saved.plan)) ==>
                o != Done && values == old(values) && saved == old(saved) && moves == old(moves)
      ensures o == Done ==> saved.plan.done
      ensures env == Calm && old(OnTrack(values, saved.plan)) ==> o == Done
    {
      while !saved.plan.done
        invariant saved.Saved? && ValidPlan(saved.plan) && Orderly() && Further(old(saved.plan), saved.plan)
        invariant !env.writer && old(OnTrack(values, saved.plan)) ==>
                    && OnTrack(values, saved.plan)
                    && |moves| - |old(moves)| == Made(values, saved.plan) - old(Made(values, saved.plan))
        invariant !env.writer && old(Foreign(values, saved.plan)) ==>
                 saved == old(saved) && values == old(values) && moves == old(moves)
        decreases |saved.plan.desired| + 1 - saved.plan.next
      {
        o := Step(env);
        if o != Done { return; }
      }
      o := Done;
    }

    /** The plan's next step. It is taken only where the plan expects it, and recorded only when it shows. */
    method Step(env: Env) returns (o: Outcome)
      requires saved.Saved? && ValidPlan(saved.plan) && !saved.plan.done && Orderly()
      modifies this
      ensures saved.Saved? && saved.plan in {old(saved.plan), Advanced(old(saved.plan))} && ValidPlan(saved.plan)
              && Orderly()
      ensures o == Done ==> saved.plan == Advanced(old(saved.plan))
      ensures saved != old(saved) ==> looks != [] && looks[|looks| - 1] == Transition(old(saved.plan)).1
      ensures !env.writer && old(OnTrack(values, saved.plan)) ==> OnTrack(values, saved.plan)
      ensures !env.writer && old(OnTrack(values, saved.plan)) ==>
                |moves| - |old(moves)| == Made(values, saved.plan) - old(Made(values, saved.plan))
      ensures !env.writer && old(Foreign(values, saved.plan)) ==>
                o != Done && values == old(values) && saved == old(saved) && moves == old(moves)
      ensures env == Calm && old(OnTrack(values, saved.plan)) ==> o == Done
    {
      var plan := saved.plan;
      var io, current := Read(env);
      if io != Ok { return Broken; }
      var (before, after) := Transition(plan);
      if plan.next > 0 || plan.before != [] { StepsDiffer(plan); }
      if current != after {
        if current != before { return Stopped; }
        io := Mutate(env, before, plan.next == 0, if plan.next == 0 then "" else plan.desired[plan.next - 1], plan);
        if io != Ok { return Broken; }
      }
      var actual;
      io, actual := Read(env);
      if io != Ok { return Broken; }
      if actual != after { return Stopped; }
      MadeAdvanced(plan);
      io := Save(env, Advanced(plan));
      o := if io == Ok then Done else Broken;
    }
  }

  /** Any number of attempts, each cut short anywhere, and then one that is left alone: the values are the original ones
      followed by the ones that were never managed, in order, each put there by one edit, or untouched when none was
      managed. */
  method Attempts(s: Settings, n: nat, original: seq<string>, managed: seq<string>)
    requires s.saved.None? && s.moves == []
    modifies s
    ensures s.saved.Saved? && s.saved.plan.done && s.values == Goal(original, old(s.values), managed)
    ensures s.values == if exists v :: v in old(s.values) && v in managed
                        then original + Unmanaged(old(s.values), managed) else old(s.values)
    ensures |s.moves| == if HasManaged(old(s.values), managed) then 1 + |s.values| else 0
  {
    ghost var first := FirstPlan(original, s.values, managed);
    for i := 0 to n
      invariant s.Orderly()
      invariant if s.saved.None? then s.values == old(s.values) && s.moves == []
                else && ValidPlan(s.saved.plan) && Further(first, s.saved.plan) && OnTrack(s.values, s.saved.plan)
                     && |s.moves| == Made(s.values, s.saved.plan) - Made(old(s.values), first)
    {
      var o := s.Restore(Env(false, true), original, managed);
    }
    var o := s.Restore(Calm, original, managed);
  }
}
