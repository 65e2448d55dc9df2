/** Which steps a runtime mutation takes, and when an attached route is served by the core that is loaded. */
module RoutePlan {
  import opened Scenes

  datatype StepName = CoreStep | SceneStep(scene: Scene)

  /** How a mutation asks for the runtime to be brought in line. */
  datatype Mode = CoreOnly | All | Only(scene: Scene)

  /** How far one step has taken its part of the runtime. */
  datatype Live = Original | Partial | Applied

  /** The enabled scenes, and where the core is to listen for each. */
  datatype Config = Config(enabled: set<Scene>, host: string, globalHttp: nat, globalSocks: nat, devHttp: nat,
                           tgHttp: nat, tgSocks: nat)

  /** Where a scene's clients connect. The development scene has no SOCKS port. */
  datatype Address = Address(host: string, http: nat, socks: nat)

  function AddressOf(c: Config, s: Scene): Address {
    match s
    case Global => Address(c.host, c.globalHttp, c.globalSocks)
    case Dev => Address(c.host, c.devHttp, 0)
    case Telegram => Address(c.host, c.tgHttp, c.tgSocks)
  }

  /** What planning reads: the two configurations, the scenes with ownership records, those whose users, services or
      other targets change, and whether Telegram had targets. */
  datatype Facts = Facts(before: Config, candidate: Config, owned: set<Scene>, retargeted: set<Scene>, targets: bool)

  /** The scene's address or its targets change. */
  predicate Moved(f: Facts, s: Scene) {
    || f.before.host != f.candidate.host
    || s in f.retargeted
    || match s
       case Global => f.before.globalHttp != f.candidate.globalHttp || f.before.globalSocks != f.candidate.globalSocks
       case Dev => f.before.devHttp != f.candidate.devHttp
       case Telegram => f.before.tgHttp != f.candidate.tgHttp || f.before.tgSocks != f.candidate.tgSocks
  }

  const SCENES := [Global, Dev, Telegram]

  predicate Affected(f: Facts, mode: Mode, s: Scene) {
    || (s in f.before.enabled) != (s in f.candidate.enabled)
    || mode == Only(s)
    || (mode == All && (s in f.candidate.enabled || s in f.owned || (s == Telegram && f.targets)))
    || (Moved(f, s) && (s in f.candidate.enabled || s in f.owned))
  }

  /** The steps of the scenes that end up enabled, or of those that do not. */
  function Select(scenes: seq<Scene>, candidate: set<Scene>, enabled: bool): seq<StepName> {
    if scenes == [] then []
    else
      var last := scenes[|scenes| - 1];
      Select(scenes[..|scenes| - 1], candidate, enabled) + (if (last in candidate) == enabled then [SceneStep(last)]
          else [])
  }

  /** Routes that go are retired first, then the core is changed, then the routes that stay are attached. */
  function StepOrder(scenes: seq<Scene>, candidate: set<Scene>, core: bool): seq<StepName> {
    Select(scenes, candidate, false) + (if core then [CoreStep] else []) + Select(scenes, candidate, true)
  }

  /** Something a scene's route rests on differs between the two configurations. */
  predicate Differs(f: Facts, s: Scene) {
    s in f.retargeted || AddressOf(f.before, s) != AddressOf(f.candidate, s)
  }

  /** A scene that must be taken along however the mutation asks: it is switched, or its route is or was taken over and
      rests on something that differs. */
  predicate Involved(f: Facts, s: Scene) {
    || (s in f.before.enabled && s !in f.candidate.enabled)
    || (s !in f.before.enabled && s in f.candidate.enabled)
    || (Differs(f, s) && s in f.candidate.enabled + f.owned)
  }

  lemma AffectedIs(f: Facts, s: Scene)
    ensures Affected(f, CoreOnly, s) <==> Involved(f, s)
    ensures forall t :: Affected(f, Only(t), s) <==> Involved(f, s) || s == t
    ensures Affected(f, All, s) <==>
              Involved(f, s) || s in f.candidate.enabled + f.owned || (s == Telegram && f.targets)
  {
  }

  /** The affected scenes in their fixed order. */
  method PlanScenes(f: Facts, mode: Mode) returns (scenes: seq<Scene>)
    ensures forall s :: s in scenes <==> Affected(f, mode, s)
    ensures forall s :: s in scenes <==>
              match mode
              case CoreOnly => Involved(f, s)
              case Only(t) => Involved(f, s) || s == t
              case All => Involved(f, s) || s in f.candidate.enabled + f.owned || (s == Telegram && f.targets)
    ensures forall i, j :: 0 <= i < j < |scenes| ==> scenes[i] != scenes[j]
    ensures |scenes| <= 3
  {
    scenes := [];
    for n := 0 to |SCENES|
      invariant |scenes| <= n
      invariant forall s :: s in scenes <==> s in SCENES[..n] && Affected(f, mode, s)
      invariant forall i, j :: 0 <= i < j < |scenes| ==> scenes[i] != scenes[j]
    {
      if Affected(f, mode, SCENES[n]) {
        scenes := scenes + [SCENES[n]];
      }
    }
    assert SCENES[..|SCENES|] == SCENES;
    forall s { AffectedIs(f, s); }
    forall s: Scene ensures s in SCENES {
      assert s == match s case Global => SCENES[0] case Dev => SCENES[1] case Telegram => SCENES[2];
    }
  }

  /** The steps of the transaction. */
  method PlanSteps(scenes: seq<Scene>, candidate: set<Scene>, core: bool) returns (names: seq<StepName>)
    ensures names == StepOrder(scenes, candidate, core)
    ensures |names| == |scenes| + (if core then 1 else 0)
  {
    names := [];
    for n := 0 to |scenes|
      invariant names == Select(scenes[..n], candidate, false)
    {
      assert scenes[..n + 1][..n] == scenes[..n];
      if scenes[n] !in candidate {
        names := names + [SceneStep(scenes[n])];
      }
    }
    if core {
      names := names + [CoreStep];
    }
    ghost var head := names;
    for n := 0 to |scenes|
      invariant names == head + Select(scenes[..n], candidate, true)
    {
      assert scenes[..n + 1][..n] == scenes[..n];
      if scenes[n] in candidate {
        names := names + [SceneStep(scenes[n])];
      }
    }
    assert scenes[..|scenes|] == scenes;
    SelectSize(scenes, candidate);
  }

  lemma {:induction false} SelectSize(scenes: seq<Scene>, candidate: set<Scene>)
    ensures |Select(scenes, candidate, false)| + |Select(scenes, candidate, true)| == |scenes|
  {
    if scenes != [] { SelectSize(scenes[..|scenes| - 1], candidate); }
  }

  /** Which scenes a selection holds. */
  lemma {:induction false} SelectHolds(scenes: seq<Scene>, candidate: set<Scene>, enabled: bool, n: StepName)
    ensures n in Select(scenes, candidate, enabled) <==>
            n.SceneStep? && n.scene in scenes && (n.scene in candidate) == enabled
  {
    if scenes != [] {
      var rest := scenes[..|scenes| - 1];
      SelectHolds(rest, candidate, enabled, n);
      assert scenes == rest + [scenes[|scenes| - 1]];
    }
  }

  lemma Parts<T>(off: seq<T>, mid: seq<T>, on: seq<T>, i: nat)
    requires i < |off + mid + on|
    ensures i < |off| ==> (off + mid + on)[i] in off
    ensures i >= |off| + |mid| ==> (off + mid + on)[i] in on
  {}

  /** Steps advance in order and are undone in reverse: applied ones, at most one in between, original ones. */
  ghost predicate Tapers(live: seq<Live>) {
    exists k :: 0 <= k <= |live| && TapersAt(live, k)
  }

  ghost predicate TapersAt(live: seq<Live>, k: nat) {
    && (forall i :: 0 <= i < k && i < |live| ==> live[i] == Applied)
    && (forall i :: k < i < |live| ==> live[i] == Original)
  }

  // The core.

  /** What a core configuration makes the core do. */
  datatype Loaded = Idle | Listening(listeners: map<Scene, Address>, rest: string)

  /** The core configuration rendered for enabled scenes; `rest` is everything in it but the listeners. */
  function Rendered(c: Config, rest: string): Loaded {
    if c.enabled == {} then Idle else Listening(map s | s in c.enabled :: AddressOf(c, s), rest)
  }

  /** The core runs exactly if a scene is enabled, and listens for each enabled scene at its address and nowhere else.
      */
  lemma RenderedIs(c: Config, rest: string, s: Scene, a: Address)
    ensures Rendered(c, rest).Idle? <==> forall t :: t !in c.enabled
    ensures Serves(Rendered(c, rest), s, a) <==> s in c.enabled && a == AddressOf(c, s)
  {
    if Rendered(c, rest).Listening? {
      var t :| t in c.enabled;
    }
  }

  /** The configuration file, and what the running core has loaded. */
  datatype Core = Core(file: Loaded, running: Loaded)

  /** The core plan has nothing to do: the file is the candidate's already, the running core has loaded it or is
      stopped if no scene is left, and nothing else about its files differs. */
  predicate Noop(core: Core, candidate: Loaded, otherFilesSame: bool) {
    otherFilesSame && core.file == candidate && core.running == candidate
  }

  predicate Serves(loaded: Loaded, s: Scene, a: Address) {
    loaded.Listening? && s in loaded.listeners && loaded.listeners[s] == a
  }

  predicate Uses(c: Config, s: Scene, a: Address) { s in c.enabled && a == AddressOf(c, s) }

  /** Before the mutation the running core serves every enabled scene. */
  ghost predicate InLine(f: Facts, core: Core) {
    forall s :: s in f.before.enabled ==> Serves(core.running, s, AddressOf(f.before, s))
  }

  /** A mutation with the plan that follows from it. */
  datatype Change = Change(f: Facts, mode: Mode, scenes: seq<Scene>, core: Core, rest: string, otherFilesSame: bool)
  {
    function After(): Loaded { Rendered(f.candidate, rest) }

    function Names(): seq<StepName> { StepOrder(scenes, f.candidate.enabled, !Noop(core, After(), otherFilesSame)) }

    ghost predicate Covers() { forall s :: s in scenes <==> Affected(f, mode, s) }

    ghost predicate Planned() { Covers() && InLine(f, core) }

    /** What the next mutation starts from: this one finished, or it was undone. */
    predicate Leads(next: Change) {
      || (next.f.before == f.before && next.core.running == core.running)
      || (next.f.before == f.candidate
          && next.core.running == if Noop(core, After(), otherFilesSame) then core.running else After())
    }

    /** The scene is on before and after, at different addresses. */
    predicate Moves(s: Scene) {
      s in f.before.enabled && s in f.candidate.enabled && AddressOf(f.before, s) != AddressOf(f.candidate, s)
    }
  }

  /** The scene's route may be attached to this address: an unfinished step may have either effect. */
  ghost predicate RoutedAt(c: Change, live: seq<Live>, s: Scene, a: Address)
    requires |live| == |c.Names()|
  {
    var names := c.Names();
    if SceneStep(s) !in names then Uses(c.f.before, s, a)
    else exists i :: 0 <= i < |names| && names[i] == SceneStep(s) && Takes(c.f, live[i], s, a)
  }

  predicate Takes(f: Facts, l: Live, s: Scene, a: Address) {
    match l
    case Original => Uses(f.before, s, a)
    case Applied => Uses(f.candidate, s, a)
    case Partial => Uses(f.before, s, a) || Uses(f.candidate, s, a)
  }

  /** Whichever configuration the core may have loaded listens for the scene at this address. */
  ghost predicate SurelyServed(c: Change, live: seq<Live>, s: Scene, a: Address)
    requires |live| == |c.Names()|
  {
    var names := c.Names();
    if CoreStep !in names then Serves(c.core.running, s, a)
    else forall i :: 0 <= i < |names| && names[i] == CoreStep ==>
           match live[i]
           case Original => Serves(c.core.running, s, a)
           case Applied => Serves(c.After(), s, a)
           case Partial => Serves(c.core.running, s, a) && Serves(c.After(), s, a)
  }

  /** In every state a transaction can be in, forward or backward, the address of an attached route is one the loaded
      core listens at, for every scene that keeps its address. */
  lemma RoutesAreServed(c: Change, live: seq<Live>, s: Scene, a: Address)
    requires c.Planned() && |live| == |c.Names()| && Tapers(live) && !c.Moves(s)
    requires RoutedAt(c, live, s, a)
    ensures SurelyServed(c, live, s, a)
  {
    var on := c.f.candidate.enabled;
    var k :| 0 <= k <= |live| && TapersAt(live, k);
    StepPlaces(c);
    if SceneStep(s) in c.Names() {
      var i :| 0 <= i < |live| && c.Names()[i] == SceneStep(s) && Takes(c.f, live[i], s, a);
    }
  }

  /** Where the steps of a plan are. */
  lemma StepPlaces(c: Change)
    ensures var names, core, on := c.Names(), !Noop(c.core, c.After(), c.otherFilesSame), c.f.candidate.enabled;
            var off := |Select(c.scenes, on, false)|;
            && (CoreStep in names <==> core) && (core ==> off < |names| && names[off] == CoreStep)
            && (forall i :: 0 <= i < |names| && names[i] == CoreStep ==> i == off)
            && (forall i :: 0 <= i < |names| && names[i].SceneStep? ==> (names[i].scene in on <==> i >= off))
            && (forall s :: SceneStep(s) in names <==> s in c.scenes)
  {
    var on := c.f.candidate.enabled;
    var stopping, starting := Select(c.scenes, on, false), Select(c.scenes, on, true);
    var mid := if Noop(c.core, c.After(), c.otherFilesSame) then [] else [CoreStep];
    forall n ensures && (n in stopping <==> n.SceneStep? && n.scene in c.scenes && n.scene !in on)
                     && (n in starting <==> n.SceneStep? && n.scene in c.scenes && n.scene in on)
    {
      SelectHolds(c.scenes, on, false, n);
      SelectHolds(c.scenes, on, true, n);
    }
    forall i | 0 <= i < |c.Names()|
      ensures i < |stopping| ==> c.Names()[i] in stopping
      ensures i >= |stopping| + |mid| ==> c.Names()[i] in starting
    {
      Parts(stopping, mid, starting, i);
    }
    forall n ensures n in c.Names() <==>
        n in stopping || n in mid || n in starting { InParts(stopping, mid, starting, n); }
  }

  /** The core is left alone only if its file, what it runs and its other files all are the candidate's. */
  lemma CoreStepIff(c: Change)
    ensures CoreStep in c.Names() <==>
              || c.core.file != Rendered(c.f.candidate, c.rest)
              || c.core.running != Rendered(c.f.candidate, c.rest)
              || !c.otherFilesSame
  {
    StepPlaces(c);
  }

  lemma InParts<T>(off: seq<T>, mid: seq<T>, on: seq<T>, x: T)
    ensures x in off + mid + on <==> x in off || x in mid || x in on
  {
  }

  /** A scene that moves is attached again only when the core has left its old address: in between its route leads
      nowhere. */
  lemma MovedIsUnserved(c: Change, s: Scene) returns (live: seq<Live>)
    requires c.Planned() && c.Moves(s)
    ensures |live| == |c.Names()| && Tapers(live)
    ensures RoutedAt(c, live, s, AddressOf(c.f.before, s)) && !SurelyServed(c, live, s, AddressOf(c.f.before, s))
  {
    StepPlaces(c);
    var off := |Select(c.scenes, c.f.candidate.enabled, false)|;
    live := seq(|c.Names()|, i => if i <= off then Applied else Original);
    assert TapersAt(live, off + 1);
    assert Affected(c.f, c.mode, s) && SceneStep(s) in c.Names();
    var i :| 0 <= i < |live| && c.Names()[i] == SceneStep(s);
    assert i > off && Takes(c.f, live[i], s, AddressOf(c.f.before, s));
  }

  /** Routes are served throughout if and only if the scene keeps its address. */
  lemma RoutesAreServedIff(c: Change, s: Scene)
    requires c.Planned()
    ensures (forall live: seq<Live>, a :: |live| == |c.Names()| && Tapers(live) && RoutedAt(c, live, s, a) ==>
            SurelyServed(c, live, s, a))
            <==> !c.Moves(s)
  {
    if c.Moves(s) {
      var live := MovedIsUnserved(c, s);
    } else {
      forall live: seq<Live>, a | |live| == |c.Names()| && Tapers(live) && RoutedAt(c, live, s, a)
        ensures SurelyServed(c, live, s, a) {
        RoutesAreServed(c, live, s, a);
      }
    }
  }

  /** Mutations, each finished or undone before the next one, from an installation with nothing enabled. */
  ghost predicate Run(run: seq<Change>) {
    && (run != [] ==> run[0].f.before.enabled == {})
    && (forall i :: 0 <= i < |run| ==> run[i].Covers())
    && (forall i :: 0 < i < |run| ==> run[i - 1].Leads(run[i]))
  }

  lemma {:induction false} RunIsInLine(run: seq<Change>, i: nat)
    requires Run(run) && i < |run|
    ensures InLine(run[i].f, run[i].core)
  {
    if i > 0 { RunIsInLine(run, i - 1); }
  }

  /** In every mutation of every run, exactly the scenes that move are unserved for a moment. */
  lemma RunServesIff(run: seq<Change>, i: nat, s: Scene)
    requires Run(run) && i < |run|
    ensures (forall live: seq<Live>, a :: |live| == |run[i].Names()| && Tapers(live) && RoutedAt(run[i], live, s, a) ==>
            SurelyServed(run[i], live, s, a))
            <==> !run[i].Moves(s)
  {
    RunIsInLine(run, i);
    RoutesAreServedIff(run[i], s);
  }
}
