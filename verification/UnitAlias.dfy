/** Resolving a service name to its unit file through search roots, aliases and templates. */
module UnitAlias {
  import opened Strings

  /** A cleaned path: its directory and its last element. */
  datatype Path = Path(dir: string, base: string)

  datatype Real = Gone | At(path: Path)

  datatype Content = TooLarge | Unreadable | Empty | Text

  /** What stands at a path: for a file where its path really leads, for a link its absolute target. */
  datatype Entry =
    | Missing
    | Looping
    | Faulty
    | Irregular
    | File(fragment: Real, content: Content)
    | BadLink
    | Link(target: Path)

  datatype State = Resolved(path: Path) | Absent | Masked | Dangling | Invalid | Cycle | Changed | IoError

  datatype Kind = NotAService | Plain | Template | Instance(template: string)

  const SUFFIX := ".service"
  const MAX_DEPTH: nat := 40
  const DEV_NULL := Path("/dev", "null")

  /** Plain, template and instance names. */
  function KindOf(name: string): Kind {
    if |name| < |SUFFIX| || name[|name| - |SUFFIX|..] != SUFFIX then NotAService
    else
      var stem := name[..|name| - |SUFFIX|];
      var at := IndexOf(stem, '@');
      if at == |stem| then Plain
      else if at == 0 || '@' in stem[at + 1..] then NotAService
      else if at == |stem| - 1 then Template
      else Instance(stem[..at] + "@" + SUFFIX)
  }

  /** The parts of a name: what stands before its one @, and what behind. */
  ghost predicate Parted(name: string, prefix: string, instance: string) {
    prefix != "" && '@' !in prefix && '@' !in instance && name == prefix + "@" + instance + ".service"
  }

  /** What each kind of name looks like. */
  lemma KindIs(name: string)
    ensures KindOf(name) == Plain <==> exists stem: string :: '@' !in stem && name == stem + ".service"
    ensures KindOf(name) == Template <==> exists prefix :: Parted(name, prefix, "")
    ensures forall t :: KindOf(name) == Instance(t) <==>
              exists prefix, instance: string ::
                instance != "" && Parted(name, prefix, instance) && t == prefix + "@.service"
  {
    if KindOf(name) != NotAService { Parts(name); }
    forall stem: string | '@' !in stem && name == stem + ".service" ensures KindOf(name) == Plain {
      PlainKind(stem);
    }
    forall prefix, instance | Parted(name, prefix, instance)
      ensures KindOf(name) == if instance == "" then Template else Instance(prefix + "@.service")
    {
      PartedKind(prefix, instance);
    }
  }

  lemma PlainKind(stem: string)
    requires '@' !in stem
    ensures KindOf(stem + ".service") == Plain
  {
    StemIs(stem);
    NoAt(stem);
  }

  lemma StemIs(stem: string)
    ensures var name, at := stem + ".service", IndexOf(stem, '@');
            KindOf(name) ==
              if at == |stem| then Plain
              else if at == 0 || '@' in stem[at + 1..] then NotAService
              else if at == |stem| - 1 then Template
              else Instance(stem[..at] + "@" + SUFFIX)
  {
    hide IndexOf;
    var name := stem + SUFFIX;
    EndsIn(stem, SUFFIX);
    assert name[..|name| - |SUFFIX|] == stem;
    KindOfStem(name, stem);
  }

  lemma EndsIn(s: string, t: string)
    ensures (s + t)[|s + t| - |t|..] == t && (s + t)[..|s + t| - |t|] == s
  {
  }

  lemma KindOfStem(name: string, stem: string)
    requires |name| >= |SUFFIX| && name[|name| - |SUFFIX|..] == SUFFIX && name[..|name| - |SUFFIX|] == stem
    ensures var at := IndexOf(stem, '@');
            KindOf(name) ==
              if at == |stem| then Plain
              else if at == 0 || '@' in stem[at + 1..] then NotAService
              else if at == |stem| - 1 then Template
              else Instance(stem[..at] + "@" + SUFFIX)
  {
  }

  lemma {:induction false} NoAt(stem: string)
    requires '@' !in stem
    ensures IndexOf(stem, '@') == |stem|
  {
    if stem != "" {
      assert stem[0] in stem;
      NoAt(stem[1..]);
    }
  }

  lemma FirstAt(prefix: string, rest: string)
    requires '@' !in prefix
    ensures IndexOf(prefix + "@" + rest, '@') == |prefix|
  {
    var stem := prefix + "@" + rest;
    assert stem[|prefix|] == '@';
    assert forall j :: 0 <= j < |prefix| ==> stem[j] == prefix[j] && prefix[j] in prefix;
  }

  lemma PartedKind(prefix: string, instance: string)
    requires prefix != "" && '@' !in prefix && '@' !in instance
    ensures KindOf(prefix + "@" + instance + ".service") ==
              if instance == "" then Template else Instance(prefix + "@.service")
  {
    hide KindOf;
    hide IndexOf;
    var stem := prefix + "@" + instance;
    StemIs(stem);
    FirstAt(prefix, instance);
    assert stem[|prefix| + 1..] == instance && stem[..|prefix|] == prefix;
    assert prefix + ("@" + ".service") == prefix + "@.service";
  }

  lemma Parts(name: string)
    requires KindOf(name) != NotAService
    ensures KindOf(name) == Plain ==> exists stem: string :: '@' !in stem && name == stem + ".service"
    ensures KindOf(name) == Template ==> exists prefix :: Parted(name, prefix, "")
    ensures KindOf(name).Instance? ==>
              exists prefix, instance: string ::
                instance != "" && Parted(name, prefix, instance) && KindOf(name).template == prefix + "@.service"
  {
    var stem := name[..|name| - |SUFFIX|];
    var at := IndexOf(stem, '@');
    assert name == stem + ".service";
    if at == |stem| {
      assert '@' !in stem;
    } else {
      assert '@' !in stem[..at];
      assert name == stem[..at] + "@" + stem[at + 1..] + ".service";
      assert Parted(name, stem[..at], stem[at + 1..]);
      assert at == |stem| - 1 ==> stem[at + 1..] == "";
    }
  }

  /** An instance's template is a template. */
  lemma TemplateOf(name: string)
    requires KindOf(name).Instance?
    ensures KindOf(KindOf(name).template) == Template
  {
    var stem := name[..|name| - |SUFFIX|];
    TemplateIs(stem[..IndexOf(stem, '@')]);
  }

  lemma TemplateIs(prefix: string)
    requires prefix != "" && '@' !in prefix
    ensures KindOf(prefix + "@" + SUFFIX) == Template
  {
    var name, stem := prefix + "@" + SUFFIX, prefix + "@";
    assert name[|name| - |SUFFIX|..] == SUFFIX && name[..|name| - |SUFFIX|] == stem;
    assert stem[|prefix|] == '@' && forall j :: 0 <= j < |prefix| ==> stem[j] != '@' by {
      forall j | 0 <= j < |prefix| ensures stem[j] != '@' { assert prefix[j] in prefix; }
    }
    assert IndexOf(stem, '@') == |prefix|;
  }

  /** A file system that does not change, the search roots in order, and which names are service names. */
  datatype World = World(fs: Path -> Entry, roots: seq<string>, safe: string -> bool)

  /** A path that was really resolved leads nowhere else. */
  ghost predicate Settled(w: World) {
    forall p :: w.fs(p).File? && w.fs(p).fragment.At? && w.fs(p).fragment.path != p ==>
      w.fs(w.fs(p).fragment.path).File? && w.fs(w.fs(p).fragment.path).fragment == At(w.fs(p).fragment.path)
  }

  datatype Named = Nameless | Named(name: string)

  /** The service name a path in a search root has. */
  function NameIn(w: World, p: Path): Named {
    if p.dir in w.roots && w.safe(p.base) then Named(p.base) else Nameless
  }

  /** A path names a service only directly under a search root, and only by a safe name. */
  lemma NameInIs(w: World, p: Path, name: string)
    ensures NameIn(w, p) == Named(name) <==>
              p.base == name && w.safe(name) && exists i :: 0 <= i < |w.roots| && w.roots[i] == p.dir
  {
  }

  /** The outcome of following aliases, with the names and paths under way. */
  function ResolveName(w: World, names: set<string>, paths: set<Path>, depth: nat, s: string): State
    requires Settled(w) && depth <= MAX_DEPTH + 1
    decreases MAX_DEPTH + 1 - depth, if KindOf(s).Instance? then 5 else 3, 0
  {
    if s in names then Cycle
    else
      var r := ResolveExact(w, names + {s}, paths, depth, s, 0);
      if r == Absent && KindOf(s).Instance? then
        TemplateOf(s);
        ResolveName(w, names + {s}, paths, depth, KindOf(s).template)
      else r
  }

  function ResolveExact(w: World, names: set<string>, paths: set<Path>, depth: nat, s: string, i: nat): State
    requires Settled(w) && depth <= MAX_DEPTH + 1 && i <= |w.roots|
    decreases MAX_DEPTH + 1 - depth, 2, |w.roots| - i
  {
    if i == |w.roots| then Absent
    else
      var r := ResolvePath(w, names, paths, depth, Path(w.roots[i], s), s);
      if r != Absent then r else ResolveExact(w, names, paths, depth, s, i + 1)
  }

  predicate Indirect(w: World, p: Path) { w.fs(p).File? && w.fs(p).fragment.At? && w.fs(p).fragment.path != p }

  function ResolvePath(w: World, names: set<string>, paths: set<Path>, depth: nat, p: Path, s: string): State
    requires Settled(w) && depth <= MAX_DEPTH + 1
    decreases MAX_DEPTH + 1 - depth, if Indirect(w, p) then 1 else 0, 0
  {
    if p in paths || depth > MAX_DEPTH then Cycle
    else
      match w.fs(p)
      case Missing => Absent
      case Looping => Cycle
      case Faulty => IoError
      case Irregular => Invalid
      case File(fragment, content) =>
        if fragment.Gone? then Changed
        else if fragment.path != p then ResolvePath(w, names, paths, depth, fragment.path, s)
        else
          (match content
           case TooLarge => Invalid
           case Unreadable => IoError
           case Empty => Masked
           case Text => Resolved(p))
      case BadLink => IoError
      case Link(target) =>
        if target == DEV_NULL then Masked
        else
          var r := if NameIn(w, target).Named? && NameIn(w, target).name != s
                   then ResolveName(w, names, paths + {p}, depth + 1, NameIn(w, target).name)
                   else ResolvePath(w, names, paths + {p}, depth + 1, target, s);
          if r == Absent then Dangling else r
  }

  // The roots decide in order.

  /** A path is absent exactly when nothing is there. */
  lemma AbsentPath(w: World, names: set<string>, paths: set<Path>, depth: nat, p: Path, s: string)
    requires Settled(w) && depth <= MAX_DEPTH + 1
    ensures ResolvePath(w, names, paths, depth, p, s) == Absent <==>
            p !in paths && depth <= MAX_DEPTH && w.fs(p).Missing?
  {
  }

  /** Some root has something under this name. */
  predicate Held(w: World, s: string) {
    exists i :: 0 <= i < |w.roots| && w.fs(Path(w.roots[i], s)) != Missing
  }

  /** The first root that has something under the exact name decides, whatever it has there. */
  lemma {:induction false} FirstRootDecides(w: World, names: set<string>, paths: set<Path>, depth: nat, s: string,
                                            i: nat, j: nat)
    requires Settled(w) && depth <= MAX_DEPTH && i <= j < |w.roots|
    requires forall k :: i <= k < j ==> w.fs(Path(w.roots[k], s)).Missing? && Path(w.roots[k], s) !in paths
    requires !w.fs(Path(w.roots[j], s)).Missing?
    ensures ResolveExact(w, names, paths, depth, s, i) == ResolvePath(w, names, paths, depth, Path(w.roots[j], s), s)
    decreases j - i
  {
    AbsentPath(w, names, paths, depth, Path(w.roots[i], s), s);
    if i < j { FirstRootDecides(w, names, paths, depth, s, i + 1, j); }
  }

  lemma {:induction false} AbsentExact(w: World, names: set<string>, depth: nat, s: string, i: nat)
    requires Settled(w) && depth <= MAX_DEPTH && i <= |w.roots|
    ensures ResolveExact(w, names, {}, depth, s, i) == Absent <==> forall k :: i <= k < |w.roots| ==>
            w.fs(Path(w.roots[k], s)).Missing?
    decreases |w.roots| - i
  {
    if i < |w.roots| {
      AbsentPath(w, names, {}, depth, Path(w.roots[i], s), s);
      AbsentExact(w, names, depth, s, i + 1);
    }
  }

  /** The answer to a request. */
  function Resolve(w: World, s: string): State
    requires Settled(w)
  {
    ResolveName(w, {}, {}, 0, s)
  }

  /** A request is absent exactly when no root has the name, nor its template when it is an instance. */
  lemma AbsentIff(w: World, s: string)
    requires Settled(w)
    ensures Resolve(w, s) == Absent <==> !Held(w, s) && (KindOf(s).Instance? ==> !Held(w, KindOf(s).template))
  {
    AbsentExact(w, {s}, 0, s, 0);
    assert {} + {s} == {s};
    if KindOf(s).Instance? {
      TemplateOf(s);
      var t := KindOf(s).template;
      AbsentExact(w, {s} + {t}, 0, t, 0);
      assert t !in {s};
      assert ResolveName(w, {s}, {}, 0, t) == ResolveExact(w, {s} + {t}, {}, 0, t, 0);
    }
  }

  /** A resolved request is answered with a nonempty unit file that is what its path really is. */
  lemma ResolvedIsFile(w: World, names: set<string>, paths: set<Path>, depth: nat, s: string)
    requires Settled(w) && depth <= MAX_DEPTH + 1
    ensures var r := ResolveName(w, names, paths, depth, s); r.Resolved? ==> w.fs(r.path) == File(At(r.path), Text)
    decreases MAX_DEPTH + 1 - depth, if KindOf(s).Instance? then 5 else 3, 0
  {
    if s !in names {
      ResolvedExactIsFile(w, names + {s}, paths, depth, s, 0);
      if KindOf(s).Instance? {
        TemplateOf(s);
        ResolvedIsFile(w, names + {s}, paths, depth, KindOf(s).template);
      }
    }
  }

  lemma {:induction false} ResolvedExactIsFile(w: World, names: set<string>, paths: set<Path>, depth: nat, s: string,
                                               i: nat)
    requires Settled(w) && depth <= MAX_DEPTH + 1 && i <= |w.roots|
    ensures var r := ResolveExact(w, names, paths, depth, s, i); r.Resolved? ==> w.fs(r.path) == File(At(r.path), Text)
    decreases MAX_DEPTH + 1 - depth, 2, |w.roots| - i
  {
    if i < |w.roots| {
      ResolvedPathIsFile(w, names, paths, depth, Path(w.roots[i], s), s);
      ResolvedExactIsFile(w, names, paths, depth, s, i + 1);
    }
  }

  lemma {:induction false} ResolvedPathIsFile(w: World, names: set<string>, paths: set<Path>, depth: nat, p: Path,
                                              s: string)
    requires Settled(w) && depth <= MAX_DEPTH + 1
    ensures var r := ResolvePath(w, names, paths, depth, p, s); r.Resolved? ==> w.fs(r.path) == File(At(r.path), Text)
    decreases MAX_DEPTH + 1 - depth, if Indirect(w, p) then 1 else 0, 0
  {
    if p !in paths && depth <= MAX_DEPTH {
      if Indirect(w, p) { ResolvedPathIsFile(w, names, paths, depth, w.fs(p).fragment.path, s); }
      if w.fs(p).Link? && w.fs(p).target != DEV_NULL {
        var target := w.fs(p).target;
        if NameIn(w, target).Named? && NameIn(w, target).name != s {
          ResolvedIsFile(w, names, paths + {p}, depth + 1, NameIn(w, target).name);
        } else {
          ResolvedPathIsFile(w, names, paths + {p}, depth + 1, target, s);
        }
      }
    }
  }

  // What the marks for names and paths under way do to an answer.

  /** Following aliases with nothing but the limit on links. */
  function WalkName(w: World, depth: nat, s: string): State
    requires Settled(w) && depth <= MAX_DEPTH + 1
    decreases MAX_DEPTH + 1 - depth, if KindOf(s).Instance? then 5 else 3, 0
  {
    var r := WalkExact(w, depth, s, 0);
    if r == Absent && KindOf(s).Instance? then
      TemplateOf(s);
      WalkName(w, depth, KindOf(s).template)
    else r
  }

  function WalkExact(w: World, depth: nat, s: string, i: nat): State
    requires Settled(w) && depth <= MAX_DEPTH + 1 && i <= |w.roots|
    decreases MAX_DEPTH + 1 - depth, 2, |w.roots| - i
  {
    if i == |w.roots| then Absent
    else
      var r := WalkPath(w, depth, Path(w.roots[i], s), s);
      if r != Absent then r else WalkExact(w, depth, s, i + 1)
  }

  function WalkPath(w: World, depth: nat, p: Path, s: string): State
    requires Settled(w) && depth <= MAX_DEPTH + 1
    decreases MAX_DEPTH + 1 - depth, if Indirect(w, p) then 1 else 0, 0
  {
    if depth > MAX_DEPTH then Cycle
    else
      match w.fs(p)
      case Missing => Absent
      case Looping => Cycle
      case Faulty => IoError
      case Irregular => Invalid
      case File(fragment, content) =>
        if fragment.Gone? then Changed
        else if fragment.path != p then WalkPath(w, depth, fragment.path, s)
        else
          (match content
           case TooLarge => Invalid
           case Unreadable => IoError
           case Empty => Masked
           case Text => Resolved(p))
      case BadLink => IoError
      case Link(target) =>
        if target == DEV_NULL then Masked
        else
          var r := if NameIn(w, target).Named? && NameIn(w, target).name != s
                   then WalkName(w, depth + 1, NameIn(w, target).name)
                   else WalkPath(w, depth + 1, target, s);
          if r == Absent then Dangling else r
  }

  /** No name and no path the walk enters is marked at that moment: neither from the start nor by the walk itself. */
  predicate CleanName(w: World, names: set<string>, paths: set<Path>, depth: nat, s: string)
    requires Settled(w) && depth <= MAX_DEPTH + 1
    decreases MAX_DEPTH + 1 - depth, if KindOf(s).Instance? then 5 else 3, 0
  {
    && s !in names
    && CleanExact(w, names + {s}, paths, depth, s, 0)
    && (WalkExact(w, depth, s, 0) == Absent && KindOf(s).Instance? ==>
          (TemplateOf(s); CleanName(w, names + {s}, paths, depth, KindOf(s).template)))
  }

  predicate CleanExact(w: World, names: set<string>, paths: set<Path>, depth: nat, s: string, i: nat)
    requires Settled(w) && depth <= MAX_DEPTH + 1 && i <= |w.roots|
    decreases MAX_DEPTH + 1 - depth, 2, |w.roots| - i
  {
    i == |w.roots| ||
    (&& CleanPath(w, names, paths, depth, Path(w.roots[i], s), s)
     && (WalkPath(w, depth, Path(w.roots[i], s), s) == Absent ==> CleanExact(w, names, paths, depth, s, i + 1)))
  }

  predicate CleanPath(w: World, names: set<string>, paths: set<Path>, depth: nat, p: Path, s: string)
    requires Settled(w) && depth <= MAX_DEPTH + 1
    decreases MAX_DEPTH + 1 - depth, if Indirect(w, p) then 1 else 0, 0
  {
    depth > MAX_DEPTH ||
    (&& p !in paths
     && match w.fs(p)
        case File(fragment, _) =>
          fragment.Gone? || fragment.path == p || CleanPath(w, names, paths, depth, fragment.path, s)
        case Link(target) =>
          target == DEV_NULL ||
          if NameIn(w, target).Named? && NameIn(w, target).name != s
          then CleanName(w, names, paths + {p}, depth + 1, NameIn(w, target).name)
          else CleanPath(w, names, paths + {p}, depth + 1, target, s)
        case _ => true)
  }

  /** The answer is the walk's as long as the walk enters nothing marked, and a cycle otherwise. */
  lemma {:induction false} MarksOnlyCut(w: World, names: set<string>, paths: set<Path>, depth: nat, s: string)
    requires Settled(w) && depth <= MAX_DEPTH + 1
    ensures ResolveName(w, names, paths, depth, s) ==
            if CleanName(w, names, paths, depth, s) then WalkName(w, depth, s) else Cycle
    decreases MAX_DEPTH + 1 - depth, if KindOf(s).Instance? then 5 else 3, 0
  {
    if s !in names {
      MarksOnlyCutExact(w, names + {s}, paths, depth, s, 0);
      if KindOf(s).Instance? {
        TemplateOf(s);
        MarksOnlyCut(w, names + {s}, paths, depth, KindOf(s).template);
      }
    }
  }

  lemma {:induction false} MarksOnlyCutExact(w: World, names: set<string>, paths: set<Path>, depth: nat, s: string,
                                             i: nat)
    requires Settled(w) && depth <= MAX_DEPTH + 1 && i <= |w.roots|
    ensures ResolveExact(w, names, paths, depth, s, i) ==
            if CleanExact(w, names, paths, depth, s, i) then WalkExact(w, depth, s, i) else Cycle
    decreases MAX_DEPTH + 1 - depth, 2, |w.roots| - i
  {
    if i < |w.roots| {
      MarksOnlyCutPath(w, names, paths, depth, Path(w.roots[i], s), s);
      MarksOnlyCutExact(w, names, paths, depth, s, i + 1);
    }
  }

  lemma {:induction false} MarksOnlyCutPath(w: World, names: set<string>, paths: set<Path>, depth: nat, p: Path,
                                            s: string)
    requires Settled(w) && depth <= MAX_DEPTH + 1
    ensures ResolvePath(w, names, paths, depth, p, s) ==
            if CleanPath(w, names, paths, depth, p, s) then WalkPath(w, depth, p, s) else Cycle
    decreases MAX_DEPTH + 1 - depth, if Indirect(w, p) then 1 else 0, 0
  {
    if p !in paths && depth <= MAX_DEPTH {
      if Indirect(w, p) { MarksOnlyCutPath(w, names, paths, depth, w.fs(p).fragment.path, s); }
      if w.fs(p).Link? && w.fs(p).target != DEV_NULL {
        var target := w.fs(p).target;
        if NameIn(w, target).Named? && NameIn(w, target).name != s {
          MarksOnlyCut(w, names, paths + {p}, depth + 1, NameIn(w, target).name);
        } else {
          MarksOnlyCutPath(w, names, paths + {p}, depth + 1, target, s);
        }
      }
    }
  }

  /** Exactly which names that resolve when followed without marks are reported as a cycle. */
  lemma CycleReportedIff(w: World, s: string)
    requires Settled(w) && WalkName(w, 0, s) != Cycle
    ensures Resolve(w, s) == Cycle <==> !CleanName(w, {}, {}, 0, s)
    ensures Resolve(w, s) != Cycle ==> Resolve(w, s) == WalkName(w, 0, s)
  {
    MarksOnlyCut(w, {}, {}, 0, s);
  }

  const A := "a.service"
  const B := "b.service"
  const HOP := Path("/ext", "hop")

  /** Two names share a link outside the roots; what it means depends on the name followed. */
  function SharedHop(): World {
    World(p => if p == Path("/r1", A) || p == Path("/r1", B) then Link(HOP)
               else if p == HOP then Link(Path("/r2", B))
               else if p == Path("/r2", B) then File(At(p), Text)
               else Missing,
          ["/r1", "/r2"], n => n == A || n == B)
  }

  const A1 := Path("/r1", A)
  const B1 := Path("/r1", B)
  const B2 := Path("/r2", B)

  lemma HopIs()
    ensures var w := SharedHop();
            && Settled(w) && w.roots == ["/r1", "/r2"] && A != B
            && w.fs(A1) == Link(HOP) && w.fs(B1) == Link(HOP) && w.fs(HOP) == Link(B2) && w.fs(B2) == File(At(B2), Text)
            && NameIn(w, HOP) == Nameless && NameIn(w, B2) == Named(B)
            && HOP != DEV_NULL && B2 != DEV_NULL && A1 != B1 && A1 != HOP && B1 != HOP && B2 != HOP && B2 != B1
  {
  }

  lemma HopFromB()
    ensures Settled(SharedHop())
    ensures Resolve(SharedHop(), B) == Resolved(B2)
  {
    HopIs();
    hide SharedHop;
    hide Settled;
    hide NameIn;
    var w := SharedHop();
    assert ResolvePath(w, {B}, {B1} + {HOP}, 2, B2, B) == Resolved(B2);
    assert ResolvePath(w, {B}, {} + {B1}, 1, HOP, B) == Resolved(B2) by { assert {} + {B1} == {B1}; }
    assert ResolvePath(w, {} + {B}, {}, 0, B1, B) == Resolved(B2) by { assert {} + {B} == {B}; }
    assert ResolveExact(w, {} + {B}, {}, 0, B, 0) == Resolved(B2);
  }

  lemma WalkedToName(w: World, depth: nat, p: Path, s: string)
    requires Settled(w) && depth <= MAX_DEPTH && w.fs(p).Link? && w.fs(p).target != DEV_NULL
    ensures var target := w.fs(p).target;
            var r := if NameIn(w, target).Named? && NameIn(w, target).name != s
                     then WalkName(w, depth + 1, NameIn(w, target).name)
                     else WalkPath(w, depth + 1, target, s);
            r != Absent ==> WalkPath(w, depth, p, s) == r
  {
  }

  lemma WalkedFromRoot(w: World, depth: nat, s: string)
    requires Settled(w) && depth <= MAX_DEPTH && w.roots != []
    ensures var r := WalkPath(w, depth, Path(w.roots[0], s), s); r != Absent ==> WalkName(w, depth, s) == r
  {
  }

  lemma HopWalked()
    ensures Settled(SharedHop())
    ensures WalkName(SharedHop(), 0, A) == Resolved(B2)
  {
    HopIs();
    hide SharedHop;
    hide Settled;
    hide NameIn;
    var w := SharedHop();
    assert WalkPath(w, 4, B2, B) == Resolved(B2);
    hide WalkName;
    hide WalkPath;
    hide WalkExact;
    WalkedToName(w, 3, HOP, B);
    WalkedToName(w, 2, B1, B);
    WalkedFromRoot(w, 2, B);
    WalkedToName(w, 1, HOP, A);
    WalkedToName(w, 0, A1, A);
    WalkedFromRoot(w, 0, A);
  }

  /** A path under way may be met again under another name without a cycle: here the alias of a service that resolves
      is itself reported as a cycle. */
  lemma EarlyCycle()
    ensures Settled(SharedHop())
    ensures Resolve(SharedHop(), B) == Resolved(B2)
    ensures Resolve(SharedHop(), A) == Cycle && WalkName(SharedHop(), 0, A) == Resolved(B2)
    ensures !CleanName(SharedHop(), {}, {}, 0, A)
  {
    HopFromB();
    HopWalked();
    CycleReportedIff(SharedHop(), A);
    HopIs();
    hide SharedHop;
    hide Settled;
    hide NameIn;
    hide WalkName;
    var w := SharedHop();
    var a, ab, p1, p2 := {} + {A}, {} + {A} + {B}, {} + {A1}, {} + {A1} + {HOP};
    assert ResolvePath(w, ab, p2 + {B1}, 3, HOP, B) == Cycle;
    assert ResolvePath(w, ab, p2, 2, B1, B) == Cycle;
    assert ResolveExact(w, ab, p2, 2, B, 0) == Cycle;
    assert ResolveName(w, a, p2, 2, B) == Cycle;
    assert ResolvePath(w, a, p1, 1, HOP, A) == Cycle;
    assert ResolvePath(w, a, {}, 0, A1, A) == Cycle;
    assert ResolveExact(w, a, {}, 0, A, 0) == Cycle;
  }

  /** The resolver with the state it keeps while it follows aliases. */
  class Resolver {
    const world: World
    var names: set<string>
    var paths: set<Path>
    var depth: nat
    var chain: seq<Path>

    constructor (world: World)
      ensures this.world == world && names == {} && paths == {} && depth == 0 && chain == []
    {
      this.world := world;
      names, paths, depth, chain := {}, {}, 0, [];
    }

    /** Whatever the outcome, the marks set on the way are taken back; the evidence only grows. */
    twostate predicate Restored()
      reads this
    {
      names == old(names) && paths == old(paths) && depth == old(depth) && old(chain) <= chain
    }

    method Name(s: string) returns (r: State)
      requires Settled(world) && depth <= MAX_DEPTH + 1
      modifies this
      ensures Restored() && r == ResolveName(world, old(names), old(paths), old(depth), s)
      decreases MAX_DEPTH + 1 - depth, if KindOf(s).Instance? then 5 else 3, 0
    {
      if s in names { return Cycle; }
      names := names + {s};
      r := Exact(s);
      if r == Absent && KindOf(s).Instance? {
        TemplateOf(s);
        r := Name(KindOf(s).template);
      }
      names := names - {s};
    }

    method Exact(s: string) returns (r: State)
      requires Settled(world) && depth <= MAX_DEPTH + 1
      modifies this
      ensures Restored() && r == ResolveExact(world, old(names), old(paths), old(depth), s, 0)
      decreases MAX_DEPTH + 1 - depth, 2, 0
    {
      for i := 0 to |world.roots|
        invariant Restored()
        invariant ResolveExact(world, names, paths, depth, s, i) == ResolveExact(world, names, paths, depth, s, 0)
      {
        r := Follow(Path(world.roots[i], s), s);
        if r != Absent { return; }
      }
      r := Absent;
    }

    method Follow(p: Path, s: string) returns (r: State)
      requires Settled(world) && depth <= MAX_DEPTH + 1
      modifies this
      ensures Restored() && r == ResolvePath(world, old(names), old(paths), old(depth), p, s)
      ensures
        var e := world.fs(p);
        p !in old(paths) && old(depth) <= MAX_DEPTH && !e.Looping? && !e.Faulty? && !e.BadLink? ==> p in chain
      decreases MAX_DEPTH + 1 - depth, if Indirect(world, p) then 1 else 0, 0
    {
      if p in paths || depth > MAX_DEPTH { return Cycle; }
      var entry := world.fs(p);
      if entry.Looping? { return Cycle; }
      if entry.Faulty? { return IoError; }
      if entry.BadLink? { return IoError; }
      chain := chain + [p];
      if entry.Missing? { return Absent; }
      if !entry.Link? {
        if !entry.File? { return Invalid; }
        if entry.fragment.Gone? { return Changed; }
        if entry.fragment.path != p {
          r := Follow(entry.fragment.path, s);
          assert chain[|old(chain)|] == p;
          return;
        }
        match entry.content
        case TooLarge => return Invalid;
        case Unreadable => return IoError;
        case Empty => return Masked;
        case Text => return Resolved(p);
      }
      if entry.target == DEV_NULL { return Masked; }
      paths, depth := paths + {p}, depth + 1;
      var named := NameIn(world, entry.target);
      if named.Named? && named.name != s {
        r := Name(named.name);
      } else {
        r := Follow(entry.target, s);
      }
      assert chain[|old(chain)|] == p;
      paths, depth := paths - {p}, depth - 1;
      if r == Absent { r := Dangling; }
    }
  }
}
