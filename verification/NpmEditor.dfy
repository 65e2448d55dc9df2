/** The line editor for the two proxy keys of npm's user configuration. */
module NpmEditor {
  import opened Wrappers

  datatype Key = Proxy | HttpsProxy

  datatype Setting = Unset | Set(text: string)

  /** What a physical line is, by its text alone. Only lines outside sections can set a key. */
  datatype Kind = Skipped | Section | BadSection | Other | BadEntry | Entry(key: Key, setting: Setting)

  /** Where reading stands: inside a section or not, and the settings so far. */
  datatype State = State(inSection: bool, proxy: Setting, httpsProxy: Setting)
  {
    function Get(k: Key): Setting { if k.Proxy? then proxy else httpsProxy }

    function With(k: Key, v: Setting): State { if k.Proxy? then this.(proxy := v) else this.(httpsProxy := v) }
  }

  const START := State(false, Unset, Unset)

  predicate Break(c: char) { c == '\n' || c == '\r' }

  /** The length of the first line without its line break, and with it. */
  function TextLength(s: string): (n: nat)
    ensures n <= |s|
  {
    if s == "" || Break(s[0]) then 0 else 1 + TextLength(s[1..])
  }

  /** The first line goes up to the first line break. */
  lemma {:induction false} UpToBreak(s: string)
    ensures TextLength(s) < |s| ==> Break(s[TextLength(s)])
    ensures forall i :: 0 <= i < TextLength(s) ==> !Break(s[i])
  {
    if s != "" && !Break(s[0]) { UpToBreak(s[1..]); }
  }

  function LineLength(s: string): (n: nat)
    ensures TextLength(s) <= n <= |s|
    ensures s != "" ==> n > 0
  {
    var t := TextLength(s);
    if t == |s| then t
    else if s[t] == '\r' && t + 1 < |s| && s[t + 1] == '\n' then t + 2
    else t + 1
  }

  /** The first line: what it is, its text with the line break, and what follows. */
  function First(kind: string -> Kind, s: string): Kind { kind(s[..TextLength(s)]) }

  function Chunk(s: string): (c: string)
    ensures |c| == LineLength(s)
  {
    s[..LineLength(s)]
  }

  function Rest(s: string): (r: string)
    ensures |r| == |s| - LineLength(s)
  {
    s[LineLength(s)..]
  }

  lemma Whole(s: string)
    ensures s == Chunk(s) + Rest(s)
  {
  }

  /** One line's effect; None refuses the configuration. */
  function Apply(st: State, k: Kind): Option<State> {
    match k
    case Skipped => Some(st)
    case BadSection => None
    case Section => Some(st.(inSection := true))
    case Other => Some(st)
    case BadEntry => if st.inSection then Some(st) else None
    case Entry(k, v) => Some(if st.inSection then st else st.With(k, v))
  }

  /** Reading from a state to the end of the text. */
  function Read(kind: string -> Kind, s: string, st: State): Option<State>
    decreases |s|
  {
    if s == "" then Some(st)
    else
      match Apply(st, First(kind, s))
      case None => None
      case Some(next) => Read(kind, Rest(s), next)
  }

  /** The line sets the key. */
  predicate Sets(inSection: bool, k: Kind, key: Key) { !inSection && k.Entry? && k.key == key }

  predicate Enters(inSection: bool, k: Kind) { inSection || k.Section? }

  /** The text without the lines that set the key. */
  function Without(kind: string -> Kind, s: string, inSection: bool, key: Key): string
    decreases |s|
  {
    if s == "" then ""
    else
      var k := First(kind, s);
      (if Sets(inSection, k, key) then "" else Chunk(s)) + Without(kind, Rest(s), Enters(inSection, k), key)
  }

  lemma {:induction false} TextLengthIs(text: string, more: string)
    requires (forall i :: 0 <= i < |text| ==> !Break(text[i])) && (more == "" || Break(more[0]))
    ensures TextLength(text + more) == |text|
  {
    if text == "" {
      assert text + more == more;
    } else {
      TextLengthIs(text[1..], more);
      assert (text + more)[1..] == text[1..] + more;
    }
  }

  /** A line stays a line whatever follows it. Where a carriage return meets a line feed, the two become one line break
      and an empty line is lost, which changes nothing. */
  lemma LineStays(kind: string -> Kind, s: string, rest: string, st: State)
    requires kind("") == Skipped && s != "" && (Rest(s) == "" ==> rest == "")
    ensures var next := Apply(st, First(kind, s));
            Read(kind, Chunk(s) + rest, st) == if next.None? then None else Read(kind, rest, next.value)
  {
    var t, n := TextLength(s), LineLength(s);
    var line, ending := s[..t], s[t..n];
    assert Chunk(s) == line + ending;
    assert ending == (if n == t then "" else if n == t + 1 then [s[t]] else [s[t], s[t + 1]]);
    UpToBreak(s);
    JoinedLine(kind, line, ending, rest, st);
  }

  /** What becomes of a line and its line break in front of other text. */
  lemma JoinedLine(kind: string -> Kind, line: string, ending: string, rest: string, st: State)
    requires kind("") == Skipped && forall i :: 0 <= i < |line| ==> !Break(line[i])
    requires ending in {"\n", "\r", "\r\n"} || (ending == "" && rest == "" && line != "")
    ensures var next := Apply(st, kind(line));
            Read(kind, (line + ending) + rest, st) == if next.None? then None else Read(kind, rest, next.value)
  {
    var s := (line + ending) + rest;
    assert s == line + (ending + rest);
    TextLengthIs(line, ending + rest);
    assert s[..|line|] == line;
    hide Apply;
    if ending == "\r" && rest != "" && rest[0] == '\n' {
      assert Rest(s) == rest[1..];
      assert rest[..0] == "" && TextLength(rest) == 0 && Rest(rest) == rest[1..];
      SkippedLine(kind, rest, st);
      if Apply(st, kind(line)).Some? { SkippedLine(kind, rest, Apply(st, kind(line)).value); }
    } else {
      assert Rest(s) == rest;
    }
  }

  lemma SkippedLine(kind: string -> Kind, s: string, st: State)
    requires s != "" && First(kind, s) == Skipped
    ensures Read(kind, s, st) == Read(kind, Rest(s), st)
  {
  }

  /** The two states differ at most in one key. */
  predicate Alike(a: State, b: State, key: Key) {
    a.inSection == b.inSection && if key.Proxy? then a.httpsProxy == b.httpsProxy else a.proxy == b.proxy
  }

  lemma ApplyAlike(k: Kind, st: State, st': State, key: Key)
    requires Alike(st, st', key) && Apply(st, k).Some?
    ensures Apply(st, k).value.inSection == Enters(st.inSection, k)
    ensures if Sets(st.inSection, k, key) then Alike(Apply(st, k).value, st', key)
            else
              && Apply(st', k).Some? && Alike(Apply(st, k).value, Apply(st', k).value, key)
              && Apply(st', k).value.Get(key) == st'.Get(key)
  {
  }

  lemma WithoutIs(kind: string -> Kind, s: string, inSection: bool, key: Key)
    requires s != ""
    ensures var k := First(kind, s);
            Without(kind, s, inSection, key) ==
            if Sets(inSection, k, key) then Without(kind, Rest(s), Enters(inSection, k), key)
            else Chunk(s) + Without(kind, Rest(s), Enters(inSection, k), key)
  {
  }

  lemma ReadIs(kind: string -> Kind, s: string, st: State)
    requires s != ""
    ensures var next := Apply(st, First(kind, s));
            Read(kind, s, st) == if next.None? then None else Read(kind, Rest(s), next.value)
    ensures |Rest(s)| < |s|
  {
  }

  lemma NothingLeft(kind: string -> Kind, s: string, inSection: bool, key: Key, st: State)
    requires s == ""
    ensures Without(kind, s, inSection, key) == "" && Read(kind, s, st) == Some(st)
  {
  }

  /** Without the key's lines, the text reads as before except that the key keeps what it had. */
  lemma {:induction false} WithoutReads(kind: string -> Kind, s: string, st: State, st': State, key: Key)
    requires kind("") == Skipped && Alike(st, st', key) && Read(kind, s, st).Some?
    ensures var r := Read(kind, Without(kind, s, st.inSection, key), st');
            r.Some? && Alike(Read(kind, s, st).value, r.value, key) && r.value.Get(key) == st'.Get(key)
    decreases |s|
  {
    hide *;
    if s == "" {
      NothingLeft(kind, s, st.inSection, key, st);
      NothingLeft(kind, s, st.inSection, key, st');
    } else {
      var k := First(kind, s);
      ReadIs(kind, s, st);
      WithoutIs(kind, s, st.inSection, key);
      ApplyAlike(k, st, st', key);
      var next := Apply(st, k).value;
      if Sets(st.inSection, k, key) {
        WithoutReads(kind, Rest(s), next, st', key);
      } else {
        WithoutReads(kind, Rest(s), next, Apply(st', k).value, key);
        if Rest(s) == "" { NothingLeft(kind, Rest(s), next.inSection, key, st); }
        LineStays(kind, s, Without(kind, Rest(s), next.inSection, key), st');
      }
    }
  }

  // The operation.

  /** A line that sets a key. */
  datatype Line = Line(start: nat, end: nat, key: Key)

  function Lines(kind: string -> Kind, s: string, at: nat, inSection: bool): seq<Line>
    decreases |s|
  {
    if s == "" then []
    else
      var k, n := First(kind, s), LineLength(s);
      (if !inSection && k.Entry? then [Line(at, at + n, k.key)] else [])
          + Lines(kind, Rest(s), at + n, Enters(inSection, k))
  }

  lemma LinesIs(kind: string -> Kind, s: string, at: nat, inSection: bool)
    requires s != ""
    ensures var k, n := First(kind, s), LineLength(s);
            && 0 < n && |Rest(s)| < |s|
            && Lines(kind, s, at, inSection) ==
               if !inSection && k.Entry?
                   then [Line(at, at + n, k.key)] + Lines(kind, Rest(s), at + n, Enters(inSection, k))
               else Lines(kind, Rest(s), at + n, Enters(inSection, k))
  {
  }

  datatype Parsed = Parsed(settings: State, lines: seq<Line>)

  /** A text without NUL and without the line separators of Unicode. */
  predicate Sound(s: string) { forall c :: c in s ==> c != '\0' && c != '\U{2028}' && c != '\U{2029}' }

  /** What the configuration says, or that it is refused. */
  function Meaning(kind: string -> Kind, data: string): Option<State> {
    if Sound(data) then Read(kind, data, START) else None
  }

  /** Reads the configuration line by line. */
  method Parse(kind: string -> Kind, data: string) returns (r: Option<Parsed>)
    ensures r.None? <==> Meaning(kind, data).None?
    ensures r.Some? ==>
            r.value.settings == Meaning(kind, data).value && r.value.lines == Lines(kind, data, 0, false)
  {
    MeaningIs(kind, data);
    hide *;
    if exists c :: c in data && (c == '\0' || c == '\U{2028}' || c == '\U{2029}') { return None; }
    var st, lines := START, [];
    var start: nat := 0;
    ParseStarts(kind, data);
    while start < |data|
      invariant start <= |data|
      invariant Read(kind, data[start..], st) == Read(kind, data, START)
      invariant lines + Lines(kind, data[start..], start, st.inSection) == Lines(kind, data, 0, false)
    {
      var end, next := FindLine(data, start);
      var k := kind(data[start..end]);
      ParseStep(kind, data, start, next, st, lines);
      ApplyIs(st, k);
      if k == BadSection { return None; }
      if k == Section {
        st := st.(inSection := true);
      } else if !st.inSection {
        if k == BadEntry { return None; }
        if k.Entry? {
          st := st.With(k.key, k.setting);
          lines := lines + [Line(start, next, k.key)];
        }
      }
      start := next;
    }
    ParseEnds(kind, data[start..], start, st);
    r := Some(Parsed(st, lines));
  }

  lemma MeaningIs(kind: string -> Kind, data: string)
    ensures Meaning(kind, data) ==
              if exists c :: c in data && (c == '\0' || c == '\U{2028}' || c == '\U{2029}') then None
              else Read(kind, data, START)
  {
  }

  lemma ParseStarts(kind: string -> Kind, data: string)
    ensures data[0..] == data && [] + Lines(kind, data, 0, false) == Lines(kind, data, 0, false) && !START.inSection
  {
  }

  lemma ParseEnds(kind: string -> Kind, s: string, at: nat, st: State)
    requires s == ""
    ensures Read(kind, s, st) == Some(st) && Lines(kind, s, at, st.inSection) == []
  {
  }

  /** A line's effect in the order of the program's tests. */
  lemma ApplyIs(st: State, k: Kind)
    ensures k == BadSection ==> Apply(st, k).None?
    ensures k == Section ==> Apply(st, k) == Some(st.(inSection := true))
    ensures k != BadSection && k != Section ==>
              if st.inSection || k == Skipped || k == Other then Apply(st, k) == Some(st)
              else if k == BadEntry then Apply(st, k).None?
              else k.Entry? && Apply(st, k) == Some(st.With(k.key, k.setting))
  {
  }

  /** One line of the reading loop. */
  lemma ParseStep(kind: string -> Kind, data: string, start: nat, next: nat, st: State, lines: seq<Line>)
    requires start < |data| && next == start + LineLength(data[start..]) <= |data|
    ensures var s := data[start..];
            var k := First(kind, s);
            && (Apply(st, k).None? ==> Read(kind, s, st) == None)
            && (Apply(st, k).Some? ==>
                  && Read(kind, s, st) == Read(kind, data[next..], Apply(st, k).value)
                  && lines + Lines(kind, s, start, st.inSection) ==
                     (if !st.inSection && k.Entry? then lines + [Line(start, next, k.key)] else lines)
                     + Lines(kind, data[next..], next, Apply(st, k).value.inSection))
  {
    hide *;
    var s := data[start..];
    var k := First(kind, s);
    RestAt(data, start);
    ReadIs(kind, s, st);
    LinesIs(kind, s, start, st.inSection);
    if Apply(st, k).Some? {
      ReflexiveAlike(st, Proxy);
      ApplyAlike(k, st, st, Proxy);
      if !st.inSection && k.Entry? {
        Grouped(lines, [Line(start, next, k.key)], Lines(kind, data[next..], next, Enters(st.inSection, k)));
      }
    }
  }

  lemma ReflexiveAlike(st: State, key: Key)
    ensures Alike(st, st, key)
  {
  }

  lemma Grouped<T>(x: seq<T>, y: seq<T>, z: seq<T>)
    ensures (x + y) + z == x + (y + z)
  {
  }

  lemma RestAt(data: string, start: nat)
    requires start <= |data|
    ensures start + LineLength(data[start..]) <= |data|
            && Rest(data[start..]) == data[start + LineLength(data[start..])..]
  {
  }

  /** The end of the line that starts here, without and with its line break. */
  method FindLine(data: string, start: nat) returns (end: nat, next: nat)
    requires start < |data|
    ensures start <= end <= |data| && start < next <= |data|
    ensures next == start + LineLength(data[start..])
    ensures forall kind: string -> Kind {:trigger First(kind, data[start..])} ::
              kind(data[start..end]) == First(kind, data[start..])
  {
    end := start;
    while end < |data| && !Break(data[end])
      invariant start <= end <= |data| && end + TextLength(data[end..]) == start + TextLength(data[start..])
    {
      assert data[end..][1..] == data[end + 1..];
      end := end + 1;
    }
    next := end;
    if next < |data| {
      next := next + 1;
      if data[end] == '\r' && next < |data| && data[next] == '\n' { next := next + 1; }
    }
    assert data[start..end] == data[start..][..TextLength(data[start..])];
  }

  function NameOf(key: Key): string { if key.Proxy? then "proxy" else "https-proxy" }

  /** The line that sets a key; `encode` writes the value as a quoted string. */
  function NewLine(key: Key, v: Setting, encode: string -> string): string
    requires v.Set?
  {
    NameOf(key) + "=" + encode(v.text)
  }

  /** Written lines are single lines, and can only set the key they name or be refused. */
  ghost predicate Writes(kind: string -> Kind, encode: string -> string) {
    && kind("") == Skipped
    && forall key: Key, v: Setting :: v.Set? ==>
         var line := NewLine(key, v, encode);
         (forall i :: 0 <= i < |line| ==> !Break(line[i])) && Sound(line)
             && (kind(line) == BadEntry || (kind(line).Entry? && kind(line).key == key))
  }

  datatype Edit = Refused | Foreign | Same | Edited(text: string)

  /** The text with the key's lines gone and, unless it is unset, its new line in front. */
  function Updated(kind: string -> Kind, data: string, key: Key, v: Setting, encode: string -> string): string {
    (if v.Unset? then "" else NewLine(key, v, encode) + "\n") + Without(kind, data, false, key)
  }

  /** The value survives being written and read. */
  predicate Faithful(kind: string -> Kind, key: Key, v: Setting, encode: string -> string) {
    v.Set? ==> kind(NewLine(key, v, encode)) == Entry(key, v)
  }

  /** The updated text gives the key its new value exactly if that value survives being written, and leaves the other
      key alone. */
  lemma EditReads(kind: string -> Kind, data: string, key: Key, v: Setting, encode: string -> string)
    requires Writes(kind, encode) && Meaning(kind, data).Some?
    ensures var now := Meaning(kind, Updated(kind, data, key, v, encode));
            && (now.Some? && now.value.Get(key) == v <==> Faithful(kind, key, v, encode))
            && (now.Some? ==> Alike(Meaning(kind, data).value, now.value, key))
  {
    hide Read;
    hide Without;
    hide NewLine;
    WithoutIsSound(kind, data, false, key);
    var rest := Without(kind, data, false, key);
    ReflexiveAlike(START, key);
    if v.Unset? {
      assert "" + rest == rest;
      WithoutReads(kind, data, START, START, key);
    } else {
      var line := NewLine(key, v, encode);
      JoinedLine(kind, line, "\n", rest, START);
      WithoutReads(kind, data, START, if kind(line).Entry? then START.With(key, kind(line).setting) else START, key);
    }
  }

  lemma {:induction false} WithoutIsSound(kind: string -> Kind, s: string, inSection: bool, key: Key)
    requires Sound(s)
    ensures Sound(Without(kind, s, inSection, key))
    decreases |s|
  {
    if s != "" {
      RestIsSound(s);
      WithoutIsSound(kind, Rest(s), Enters(inSection, First(kind, s)), key);
    }
  }

  lemma RestIsSound(s: string)
    requires s != "" && Sound(s)
    ensures Sound(Rest(s)) && Sound(Chunk(s))
  {
    forall c | c in Rest(s) || c in Chunk(s) ensures c in s {
      assert Rest(s) == s[LineLength(s)..] && Chunk(s) == s[..LineLength(s)];
    }
  }

  /** Changes one key from an expected to a desired setting. The result is read again before it counts. */
  method Change(kind: string -> Kind, encode: string -> string, accepts: string -> bool, data: string, key: Key,
                expected: Setting, desired: Setting)
    returns (r: Edit)
    requires Writes(kind, encode)
    ensures r.Foreign? <==> Meaning(kind, data).Some? && Meaning(kind, data).value.Get(key) != expected
    ensures r.Same? <==> Meaning(kind, data).Some? && Meaning(kind, data).value.Get(key) == expected == desired
    ensures r.Edited? <==>
            && Meaning(kind, data).Some? && Meaning(kind, data).value.Get(key) == expected != desired
            && (desired.Set? ==> accepts(desired.text)) && Faithful(kind, key, desired, encode)
    ensures r.Edited? ==>
              var now := Meaning(kind, r.text);
              && r.text == Updated(kind, data, key, desired, encode)
              && now.Some? && now.value.Get(key) == desired && Alike(Meaning(kind, data).value, now.value, key)
  {
    var parsed := Parse(kind, data);
    if parsed.None? { return Refused; }
    if parsed.value.settings.Get(key) != expected { return Foreign; }
    if expected == desired { return Same; }
    var updated := "";
    if desired.Set? {
      if !accepts(desired.text) { return Refused; }
      updated := NewLine(key, desired, encode) + "\n";
    }
    var rest := Cut(kind, data, parsed.value.lines, key);
    updated := updated + rest;
    var check := Parse(kind, updated);
    EditReads(kind, data, key, desired, encode);
    if check.None? || check.value.settings.Get(key) != desired { return Refused; }
    r := Edited(updated);
  }

  lemma {:induction false} SectionHasNone(kind: string -> Kind, s: string, at: nat)
    ensures Lines(kind, s, at, true) == []
    decreases |s|
  {
    if s != "" {
      hide *;
      LinesIs(kind, s, at, true);
      EntersIs(true, First(kind, s));
      SectionHasNone(kind, Rest(s), at + LineLength(s));
    }
  }

  lemma EntersIs(inSection: bool, k: Kind)
    ensures Enters(inSection, k) == (inSection || k.Section?)
    ensures forall key {:trigger Sets(inSection, k, key)} ::
              Sets(inSection, k, key) == (!inSection && k.Entry? && k.key == key)
  {
  }

  /** With no setting lines left, everything left is kept. */
  lemma {:induction false} NoLines(kind: string -> Kind, s: string, at: nat, inSection: bool, key: Key)
    requires Lines(kind, s, at, inSection) == []
    ensures Without(kind, s, inSection, key) == s
    decreases |s|
  {
    hide *;
    if s == "" {
      NothingLeft(kind, s, inSection, key, START);
    } else {
      LinesIs(kind, s, at, inSection);
      WithoutIs(kind, s, inSection, key);
      EntersIs(inSection, First(kind, s));
      NoLines(kind, Rest(s), at + LineLength(s), Enters(inSection, First(kind, s)), key);
      Whole(s);
    }
  }

  function Kept(chunk: string, rest: string, cut: bool): string { (if cut then "" else chunk) + rest }

  /** The first setting line lies from q to e. Everything before it is kept, and so is the line unless it sets the
      key. */
  ghost predicate NextIs(kind: string -> Kind, s: string, at: nat, key: Key, q: nat, e: nat) {
    && q < e <= |s|
    && Cuts(Lines(kind, s, at, false), at + q, at + e, Lines(kind, s[e..], at + e, false))
    && Without(kind, s, false, key) ==
         s[..q] + Kept(s[q..e], Without(kind, s[e..], false, key), Lines(kind, s, at, false)[0].key == key)
  }

  predicate Cuts(lines: seq<Line>, start: nat, end: nat, more: seq<Line>) {
    lines != [] && lines[0].start == start && lines[0].end == end && lines[1..] == more
  }

  lemma SettingLine(kind: string -> Kind, s: string, at: nat, key: Key)
    requires s != "" && First(kind, s).Entry?
    ensures NextIs(kind, s, at, key, 0, LineLength(s))
  {
    hide Lines;
    hide Without;
    hide TextLength;
    hide LineLength;
    hide First;
    hide Sets;
    hide Enters;
    var n, k := LineLength(s), First(kind, s);
    LinesIs(kind, s, at, false);
    WithoutIs(kind, s, false, key);
    EntersIs(false, k);
    var rest := Without(kind, Rest(s), false, key);
    assert "" + rest == rest;
    assert s[..0] == "" && "" + Kept(Chunk(s), rest, k.key == key) == Kept(Chunk(s), rest, k.key == key);
  }

  /** A line outside sections that sets nothing: a cut of the rest is a cut of the text. */
  lemma PlainLine(kind: string -> Kind, s: string, at: nat, key: Key)
    requires s != "" && !First(kind, s).Entry? && Lines(kind, s, at, false) != []
    ensures LineLength(s) > 0
    ensures Lines(kind, s, at, false) == Lines(kind, Rest(s), at + LineLength(s), false)
    ensures Without(kind, s, false, key) == Chunk(s) + Without(kind, Rest(s), false, key)
  {
    hide *;
    LinesIs(kind, s, at, false);
    WithoutIs(kind, s, false, key);
    EntersIs(false, First(kind, s));
    if First(kind, s).Section? { SectionHasNone(kind, Rest(s), at + LineLength(s)); }
  }

  lemma Shifted(a: string, b: string, i: nat, j: nat, tail: string)
    requires i <= j <= |b|
    ensures var n := |a|;
            && (a + b)[n + i..n + j] == b[i..j] && (a + b)[n + j..] == b[j..]
            && (a + b)[..n + i] + tail == a + (b[..i] + tail)
  {
  }

  lemma AfterPlainLine(kind: string -> Kind, a: string, b: string, at: nat, key: Key, i: nat, j: nat)
    requires NextIs(kind, b, at + |a|, key, i, j)
    requires Lines(kind, a + b, at, false) == Lines(kind, b, at + |a|, false)
    requires Without(kind, a + b, false, key) == a + Without(kind, b, false, key)
    ensures NextIs(kind, a + b, at, key, |a| + i, |a| + j)
  {
    hide Lines;
    hide Without;
    hide Kept;
    var cut := Lines(kind, b, at + |a|, false)[0].key == key;
    Shifted(a, b, i, j, Kept(b[i..j], Without(kind, b[j..], false, key), cut));
    assert at + |a| + i == at + (|a| + i) && at + |a| + j == at + (|a| + j);
  }

  lemma NotEmpty(kind: string -> Kind, s: string, at: nat)
    ensures s == "" ==> Lines(kind, s, at, false) == []
  {
  }

  lemma {:induction false} ToNextLine(kind: string -> Kind, s: string, at: nat, key: Key) returns (q: nat, e: nat)
    requires Lines(kind, s, at, false) != []
    ensures NextIs(kind, s, at, key, q, e)
    decreases |s|
  {
    hide NextIs;
    hide LineLength;
    hide TextLength;
    hide First;
    hide Chunk;
    hide Rest;
    NotEmpty(kind, s, at);
    hide Lines;
    if First(kind, s).Entry? {
      SettingLine(kind, s, at, key);
      q, e := 0, LineLength(s);
    } else {
      PlainLine(kind, s, at, key);
      var i, j := ToNextLine(kind, Rest(s), at + LineLength(s), key);
      Whole(s);
      AfterPlainLine(kind, Chunk(s), Rest(s), at, key, i, j);
      q, e := LineLength(s) + i, LineLength(s) + j;
    }
  }

  /** What copying up to the p-th character leaves to be copied. */
  ghost predicate CopiedTo(kind: string -> Kind, data: string, out: string, cursor: nat, p: nat, key: Key) {
    cursor <= p <= |data|
        && out + (data[cursor..p] + Without(kind, data[p..], false, key)) == Without(kind, data, false, key)
  }

  lemma CopyStarts(kind: string -> Kind, data: string, key: Key)
    ensures CopiedTo(kind, data, "", 0, 0, key) && data[0..] == data
  {
  }

  lemma CopyEnds(kind: string -> Kind, data: string, out: string, cursor: nat, p: nat, key: Key)
    requires CopiedTo(kind, data, out, cursor, p, key) && Lines(kind, data[p..], p, false) == []
    ensures cursor <= |data| && out + data[cursor..] == Without(kind, data, false, key)
  {
    NoLines(kind, data[p..], p, false, key);
    hide Without;
    hide Lines;
    assert data[cursor..p] + data[p..] == data[cursor..];
  }

  lemma Pieces(data: string, cursor: nat, p: nat, start: nat, end: nat)
    requires cursor <= p <= start <= end <= |data|
    ensures data[p..][..start - p] == data[p..start] && data[p..][start - p..end - p] == data[start..end]
            && data[p..][end - p..] == data[end..]
    ensures data[cursor..p] + data[p..start] == data[cursor..start]
    ensures data[cursor..start] + data[start..end] == data[cursor..end]
    ensures data[end..end] == ""
  {
  }

  /** Copying over a line of the key: what lies before it is copied, and copying goes on behind it. */
  lemma CopyOver(data: string, out: string, cursor: nat, p: nat, start: nat, end: nat, rest: string)
    requires cursor <= p <= start <= end <= |data|
    ensures out + (data[cursor..p] + (data[p..start] + ("" + rest))) ==
            (out + data[cursor..start]) + (data[end..end] + rest)
  {
  }

  /** Copying past a line of the other key: nothing is copied yet. */
  lemma CopyPast(data: string, cursor: nat, p: nat, start: nat, end: nat, rest: string)
    requires cursor <= p <= start <= end <= |data|
    ensures data[cursor..p] + (data[p..start] + (data[start..end] + rest)) == data[cursor..end] + rest
  {
  }

  lemma CopyNext(kind: string -> Kind, data: string, out: string, cursor: nat, p: nat, key: Key)
    requires CopiedTo(kind, data, out, cursor, p, key) && Lines(kind, data[p..], p, false) != []
    ensures var l := Lines(kind, data[p..], p, false)[0];
            && cursor <= l.start < l.end <= |data|
            && Lines(kind, data[p..], p, false)[1..] == Lines(kind, data[l.end..], l.end, false)
            && if l.key == key then CopiedTo(kind, data, out + data[cursor..l.start], l.end, l.end, key)
               else CopiedTo(kind, data, out, cursor, l.end, key)
  {
    hide Lines;
    hide Without;
    var q, e := ToNextLine(kind, data[p..], p, key);
    var l := Lines(kind, data[p..], p, false)[0];
    var rest := Without(kind, data[l.end..], false, key);
    Pieces(data, cursor, p, l.start, l.end);
    if l.key == key {
      CopyOver(data, out, cursor, p, l.start, l.end, rest);
    } else {
      CopyPast(data, cursor, p, l.start, l.end, rest);
    }
  }

  /** Copies everything between the key's lines. */
  method Cut(kind: string -> Kind, data: string, lines: seq<Line>, key: Key) returns (out: string)
    requires lines == Lines(kind, data, 0, false)
    ensures out == Without(kind, data, false, key)
  {
    hide *;
    out := "";
    var cursor: nat := 0;
    ghost var p: nat := 0;
    CopyStarts(kind, data, key);
    for i := 0 to |lines|
      invariant p <= |data| && CopiedTo(kind, data, out, cursor, p, key)
      invariant lines[i..] == Lines(kind, data[p..], p, false)
    {
      var l := lines[i];
      CopyNext(kind, data, out, cursor, p, key);
      assert lines[i..][0] == l && lines[i..][1..] == lines[i + 1..];
      if l.key == key {
        out := out + data[cursor..l.start];
        cursor := l.end;
      }
      p := l.end;
    }
    CopyEnds(kind, data, out, cursor, p, key);
    out := out + data[cursor..];
  }
}
