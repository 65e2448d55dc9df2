/** What a line of npm's configuration is, and the change of a proxy key with the program's own scalars. */
module NpmConfig {
  import opened Wrappers
  import opened Strings
  import opened NpmEditor
  import S = NpmScalar

  const MAX_VALUE_BYTES: nat := 0x1_0000

  predicate Starts(s: string, prefix: string) { prefix <= s }

  predicate Contains(s: string, part: string) { exists i :: 0 <= i <= |s| && part <= s[i..] }

  predicate Control(c: char) { c < ' ' || '\U{7F}' <= c <= '\U{9F}' }

  function Utf8Length(s: string): nat {
    if s == "" then 0
    else
      (if s[0] < '\U{80}' then 1 else if s[0] < '\U{800}' then 2 else if s[0] < '\U{10000}' then 3 else 4)
          + Utf8Length(s[1..])
  }

  /** A proxy value the program stores: not empty, not too long, without white space at its ends and without NUL. */
  predicate Valid(v: string) {
    && v != "" && Utf8Length(v) <= MAX_VALUE_BYTES
    && !Space(v[0]) && !Space(v[|v| - 1]) && '\0' !in v
  }

  predicate Blank(line: string) {
    var t := S.Trim(line);
    t == "" || t[0] == ';' || t[0] == '#'
  }

  /** The whole line is a section header. */
  predicate Header(line: string) {
    var close, t := IndexOf(line, ']'), S.Trim(line);
    && Starts(line, "[") && t != "" && t[|t| - 1] == ']'
    && 0 < close < |line| && S.Trim(line[close + 1..]) == ""
  }

  /** Sections that would make an object of a proxy key. */
  predicate Forbidden(section: string) {
    || section == "proxy" || section == "https-proxy"
    || Starts(section, "proxy.") || Starts(section, "https-proxy.") || Contains(section, "__proto__")
  }

  function SectionOf(line: string, inner: string -> S.Json): Kind
    requires Header(line)
  {
    var name := S.Scalar(line[1..IndexOf(line, ']')], inner);
    if name.None? || Forbidden(name.value) then BadSection else Section
  }

  /** What a proxy key's value means. */
  function SettingOf(key: Key, value: string): Kind {
    if (exists c :: c in value && Control(c)) || Contains(value, "${") || value == "true" || value == "false"
        then BadEntry
    else if value == "" || value == "null" || value == "undefined" then Entry(key, Unset)
    else if !Valid(value) then BadEntry
    else Entry(key, Set(value))
  }

  function EntryOf(line: string, inner: string -> S.Json): Kind {
    var cut := IndexOf(line, '=');
    var key := S.Scalar(line[..cut], inner);
    if key.None? then Other
    else if key.value == "proxy[]" || key.value == "https-proxy[]" then BadEntry
    else if key.value != NameOf(Proxy) && key.value != NameOf(HttpsProxy) then Other
    else if cut == |line| then BadEntry
    else
      var value := S.Scalar(line[cut + 1..], inner);
      if value.None? then BadEntry
      else SettingOf(if key.value == NameOf(Proxy) then Proxy else HttpsProxy, value.value)
  }

  /** What a line is; `inner` decodes JSON in single quotes. */
  function KindOf(line: string, inner: string -> S.Json): Kind {
    if Blank(line) then Skipped
    else if Header(line) then SectionOf(line, inner)
    else EntryOf(line, inner)
  }

  function Kinds(inner: string -> S.Json): string -> Kind { line => KindOf(line, inner) }

  /** The characters of the two keys' names. */
  lemma NameIsPlain(key: Key, inner: string -> S.Json)
    ensures var n := NameOf(key);
            && n != "" && n[0] in "ph" && n[|n| - 1] == 'y' && S.Trim(n) == n && S.Unescaped(n) == n
            && (forall c :: c in n ==> c >= ' ' && c != '=')
            && S.Scalar(n, inner) == Some(n)
  {
    var n := NameOf(key);
    S.Tight(n);
    PlainStays(n);
  }

  lemma {:induction false} PlainStays(s: string)
    requires forall c :: c in s ==> c !in ";#\\"
    ensures S.Unescaped(s) == s
  {
    if s != "" {
      assert s[0] in s;
      PlainStays(s[1..]);
    }
  }

  lemma {:induction false} CutsAt(name: string, rest: string)
    requires '=' !in name
    ensures IndexOf(name + "=" + rest, '=') == |name|
  {
    var s := name + "=" + rest;
    if name == "" {
      assert s[0] == '=';
    } else {
      assert name[0] in name && s[1..] == name[1..] + "=" + rest;
      CutsAt(name[1..], rest);
    }
  }

  /** The parts of a line the program writes. */
  lemma WrittenParts(key: Key, v: string, inner: string -> S.Json)
    ensures var line, name := NewLine(key, Set(v), S.Encode), NameOf(key);
            && IndexOf(line, '=') == |name| < |line| && line[..|name|] == name && line[|name| + 1..] == S.Encode(v)
            && line[0] in "ph" && S.Trim(line) == line
  {
    var name, value := NameOf(key), S.Encode(v);
    var line := name + "=" + value;
    NameIsPlain(key, inner);
    CutsAt(name, value);
    assert line[..|name|] == name && line[|name| + 1..] == value;
    assert line[0] == name[0] && line[|line| - 1] == value[|value| - 1] == '"';
    S.Tight(line);
  }

  lemma IsEntry(line: string)
    requires line != "" && line[0] in "ph" && S.Trim(line) == line
    ensures !Blank(line) && !Header(line)
  {
  }

  /** How a line the program writes is read back. */
  lemma WrittenReads(key: Key, v: string, inner: string -> S.Json)
    ensures KindOf(NewLine(key, Set(v), S.Encode), inner) == SettingOf(key, v)
  {
    hide S.Scalar;
    hide S.Encode;
    hide S.Trim;
    hide IndexOf;
    hide SettingOf;
    hide NewLine;
    hide Blank;
    hide Header;
    WrittenParts(key, v, inner);
    IsEntry(NewLine(key, Set(v), S.Encode));
    NameIsPlain(key, inner);
    S.EncodeReads(v, inner);
  }

  lemma WrittenIsOneLine(key: Key, v: string)
    ensures var line := NewLine(key, Set(v), S.Encode); Sound(line) && forall i :: 0 <= i < |line| ==> !Break(line[i])
  {
    var name, inside := NameOf(key), S.EncodedAll(v);
    S.EncodedIsPlain(v);
    NameIsHarmless(key);
    var line := NewLine(key, Set(v), S.Encode);
    forall c | c in line ensures S.Harmless(c) {
      if c !in name && c !in inside { assert c in ['=', '"']; }
    }
    AllHarmless(line);
  }

  lemma NameIsHarmless(key: Key)
    ensures forall c :: c in NameOf(key) ==> S.Harmless(c)
  {
  }

  lemma AllHarmless(line: string)
    requires forall c :: c in line ==> S.Harmless(c)
    ensures Sound(line) && forall i :: 0 <= i < |line| ==> !Break(line[i])
  {
    forall i | 0 <= i < |line| ensures !Break(line[i]) { assert line[i] in line; }
  }

  // Lines, character by character.

  /** A value that stands for itself. */
  predicate Bare(v: string) {
    S.Untrimmed(v) && (forall c :: c in v ==> c !in ";#\\") && (v != "" ==> v[0] !in "'\"")
  }

  lemma BareIs(a: string, v: string, b: string, inner: string -> S.Json)
    requires S.AllTrimmed(a) && S.AllTrimmed(b) && Bare(v)
    ensures S.Scalar(a + v + b, inner) == Some(v)
  {
    S.TrimIs(a, v, b);
    PlainStays(v);
    S.TrimIs("", v, "");
    assert "" + v + "" == v;
  }

  /** A key and a value with any white space around them. */
  lemma PlainLineReads(w: string, key: Key, x: string, y: string, v: string, z: string, inner: string -> S.Json)
    requires S.AllTrimmed(w) && S.AllTrimmed(x) && S.AllTrimmed(y) && S.AllTrimmed(z) && Bare(v)
    ensures KindOf((w + NameOf(key) + x) + "=" + (y + v + z), inner) == SettingOf(key, v)
  {
    hide S.Scalar;
    hide S.Trim;
    hide SettingOf;
    var left, right := w + NameOf(key) + x, y + v + z;
    var line := left + "=" + right;
    NameIsBare(key);
    BareIs(w, NameOf(key), x, inner);
    BareIs(y, v, z, inner);
    NoEquals(w);
    NoEquals(x);
    CutsAt(left, right);
    assert line[..|left|] == left && line[|left| + 1..] == right;
    EntryStarts(w, NameOf(key), x + "=" + right);
    assert line == w + (NameOf(key) + (x + "=" + right));
  }

  lemma NameIsBare(key: Key)
    ensures Bare(NameOf(key)) && '=' !in NameOf(key) && NameOf(key)[0] in "ph"
  {
  }

  lemma NoEquals(w: string)
    requires S.AllTrimmed(w)
    ensures '=' !in w && '[' !in w
  {
  }

  lemma EntryStarts(w: string, name: string, rest: string)
    requires S.AllTrimmed(w) && name != "" && name[0] in "ph"
    ensures !Blank(w + (name + rest)) && !Header(w + (name + rest))
  {
    hide S.TrimRight;
    var s := w + (name + rest);
    S.TrimLeftIs(w, name + rest);
    RightKeepsFirst(name + rest);
    if w != "" { assert w[0] in w; }
  }

  lemma {:induction false} RightKeepsFirst(s: string)
    requires s != "" && s[0] !in S.TRIMMED
    ensures S.TrimRight(s) != "" && S.TrimRight(s)[0] == s[0]
  {
    if |s| > 1 { RightKeepsFirst(s[..|s| - 1]); } else { S.TrimmedIs(s[0]); }
  }

  /** Blank lines and comments mean nothing. */
  lemma CommentsAreSkipped(w: string, c: char, rest: string, inner: string -> S.Json)
    requires S.AllTrimmed(w) && c in ";#"
    ensures KindOf(w, inner) == KindOf(w + ([c] + rest), inner) == Skipped
  {
    S.TrimIs(w, "", "");
    assert w + "" + "" == w;
    S.TrimLeftIs(w, [c] + rest);
    RightKeepsFirst([c] + rest);
  }

  /** One string is somewhere in another. */
  lemma ContainsIs(s: string, part: string)
    ensures Contains(s, part) <==> exists a, b :: s == a + part + b
  {
    if Contains(s, part) {
      var i :| 0 <= i <= |s| && part <= s[i..];
      assert s == s[..i] + part + s[i + |part|..];
    }
    if exists a, b :: s == a + part + b {
      var a, b :| s == a + part + b;
      assert s[|a|..] == part + b;
    }
  }

  lemma ControlIs(c: char)
    ensures Control(c) <==> c as int <= 31 || 127 <= c as int <= 159
  {
  }

  /** The bytes a character takes. */
  lemma {:induction false} Utf8LengthIs(s: string, t: string)
    ensures Utf8Length(s + t) == Utf8Length(s) + Utf8Length(t)
    ensures |s| == 1 ==>
              var n := s[0] as int;
              Utf8Length(s) == if n <= 0x7F then 1 else if n <= 0x7FF then 2 else if n <= 0xFFFF then 3 else 4
  {
    if s == "" {
      assert s + t == t;
    } else {
      Utf8LengthIs(s[1..], t);
      assert (s + t)[1..] == s[1..] + t;
    }
  }

  lemma ValidIs(v: string)
    ensures Valid(v) <==>
              && v != "" && Utf8Length(v) <= 65536 && v[0] !in SPACES && v[|v| - 1] !in SPACES
              && forall i :: 0 <= i < |v| ==> v[i] as int != 0
  {
    if v != "" {
      SpacesAre(v[0]);
      SpacesAre(v[|v| - 1]);
    }
  }

  const SPACES := S.TRIMMED[..|S.TRIMMED| - 1] + ['\U{85}']

  lemma SpacesAre(c: char)
    ensures Space(c) <==> c in SPACES
  {
    S.TrimmedIs(c);
    assert S.TRIMMED[|S.TRIMMED| - 1] == '\U{FEFF}';
  }

  /** What a value means: nothing, itself, or something the program refuses. */
  lemma SettingIs(key: Key, v: string)
    ensures v in ["", "null", "undefined"] ==> SettingOf(key, v) == Entry(key, Unset)
    ensures v in ["true", "false"] ==> SettingOf(key, v) == BadEntry
    ensures (exists c :: c in v && Control(c)) || Contains(v, "${") || |v| > MAX_VALUE_BYTES ==>
              SettingOf(key, v) == BadEntry
    ensures SettingOf(key, v) == Entry(key, Set(v)) <==> Valid(v) && !Special(v)
  {
    if |v| > MAX_VALUE_BYTES { LongIsInvalid(v); }
    if v in ["", "null", "undefined"] { NoDollar(v); }
  }

  lemma NoDollar(v: string)
    requires '$' !in v
    ensures !Contains(v, "${")
  {
    forall i | 0 <= i <= |v| ensures !("${" <= v[i..]) {
      if i < |v| { assert v[i..][0] == v[i] && v[i] in v; }
    }
  }

  lemma {:induction false} LongIsInvalid(v: string)
    ensures Utf8Length(v) >= |v|
  {
    if v != "" { LongIsInvalid(v[1..]); }
  }

  /** Section headers, with white space behind them: a proxy key can be no section. */
  lemma SectionReads(name: string, z: string, inner: string -> S.Json)
    requires Bare(name) && name != "" && ']' !in name && S.AllTrimmed(z)
    ensures KindOf("[" + name + "]" + z, inner) ==
              if name in ["proxy", "https-proxy"] || "proxy." <= name || "https-proxy." <= name
                 || Contains(name, "__proto__") then BadSection else Section
  {
    var line := "[" + name + "]" + z;
    hide S.Scalar;
    BareIs("", name, "", inner);
    assert "" + name + "" == name;
    HeaderIs(name, z);
    assert line[1..IndexOf(line, ']')] == name;
  }

  /** A line is a section header exactly if it starts with a bracket and only white space follows the first closing
      one. */
  lemma HeaderIff(line: string)
    ensures Header(line) <==>
              exists name, z :: ']' !in name && S.AllTrimmed(z) && line == "[" + name + "]" + z
  {
    if Header(line) {
      var close := IndexOf(line, ']');
      var name, z := line[1..close], line[close + 1..];
      TrimsToNothing(z);
      assert ']' !in name && line == "[" + name + "]" + z;
    }
    if exists name, z :: ']' !in name && S.AllTrimmed(z) && line == "[" + name + "]" + z {
      var name, z :| ']' !in name && S.AllTrimmed(z) && line == "[" + name + "]" + z;
      HeaderIs(name, z);
    }
  }

  lemma {:induction false} TrimsToNothing(s: string)
    requires S.Trim(s) == ""
    ensures S.AllTrimmed(s)
  {
    LeftTrims(s);
    var t := S.TrimLeft(s);
    if t != "" {
      S.TrimmedIs(t[0]);
      RightKeepsFirst(t);
    }
  }

  lemma {:induction false} LeftTrims(s: string)
    ensures var t := S.TrimLeft(s); S.AllTrimmed(s[..|s| - |t|]) && (t != "" ==> t[0] !in S.TRIMMED)
  {
    if s != "" {
      S.TrimmedIs(s[0]);
      if S.Trimmed(s[0]) {
        LeftTrims(s[1..]);
        var t := S.TrimLeft(s);
        assert s[..|s| - |t|] == [s[0]] + s[1..][..|s| - 1 - |t|];
      }
    }
  }

  /** A line that sets some other key means nothing; one that makes a proxy key an array, or gives it no value, is
      refused. */
  lemma OtherLineReads(w: string, k: string, x: string, right: string, inner: string -> S.Json)
    requires S.AllTrimmed(w) && S.AllTrimmed(x) && Bare(k) && k != "" && '=' !in k && k[0] != '['
    ensures k !in ["proxy", "https-proxy", "proxy[]", "https-proxy[]"] ==>
              KindOf((w + k + x) + "=" + right, inner) == KindOf(w + k + x, inner) == Other
    ensures k in ["proxy[]", "https-proxy[]"] ==>
              KindOf((w + k + x) + "=" + right, inner) == KindOf(w + k + x, inner) == BadEntry
    ensures k in ["proxy", "https-proxy"] ==> KindOf(w + k + x, inner) == BadEntry
  {
    hide S.Scalar;
    hide S.Trim;
    hide SettingOf;
    hide Blank;
    hide Header;
    var left := w + k + x;
    var line := left + "=" + right;
    BareIs(w, k, x, inner);
    NoEquals(w);
    NoEquals(x);
    CutsAt(left, right);
    NoEqualsAt(left);
    assert line[..|left|] == left && left[..|left|] == left;
    KeyStarts(w, k, x + "=" + right);
    KeyStarts(w, k, x);
    assert line == w + (k + (x + "=" + right)) && left == w + (k + x);
  }

  lemma NoEqualsAt(s: string)
    requires '=' !in s
    ensures IndexOf(s, '=') == |s|
  {
  }

  lemma KeyStarts(w: string, k: string, rest: string)
    requires S.AllTrimmed(w) && Bare(k) && k != "" && k[0] != '['
    ensures !Blank(w + (k + rest)) && !Header(w + (k + rest))
  {
    hide S.TrimRight;
    NoEquals(w);
    S.TrimLeftIs(w, k + rest);
    assert k[0] in k;
    RightKeepsFirst(k + rest);
    if w != "" { assert w[0] in w; }
  }

  lemma HeaderIs(name: string, z: string)
    requires ']' !in name && S.AllTrimmed(z)
    ensures var line := "[" + name + "]" + z; Header(line) && !Blank(line) && IndexOf(line, ']') == |name| + 1
  {
    hide S.Trim;
    hide IndexOf;
    var head := "[" + name + "]";
    var line := head + z;
    FindsBracket(name, z);
    assert line[|name| + 2..] == z;
    S.TrimIs("", head, z);
    assert "" + head + z == line;
    S.TrimIs(z, "", "");
    assert z + "" + "" == z;
  }

  lemma FindsBracket(name: string, z: string)
    requires ']' !in name
    ensures IndexOf("[" + name + "]" + z, ']') == |name| + 1
  {
    var line := "[" + name + "]" + z;
    var at := IndexOf(line, ']');
    assert line[|name| + 1] == ']';
    assert forall j :: 1 <= j <= |name| ==> line[j] == name[j - 1] && name[j - 1] in name;
  }

  /** The program's lines are what the editor needs them to be. */
  lemma ProgramWrites(inner: string -> S.Json)
    ensures Writes(Kinds(inner), S.Encode)
  {
    forall key: Key, v: Setting | v.Set?
      ensures var line := NewLine(key, v, S.Encode);
              && (forall i :: 0 <= i < |line| ==> !Break(line[i])) && Sound(line)
              && (Kinds(inner)(line) == BadEntry || (Kinds(inner)(line).Entry? && Kinds(inner)(line).key == key))
    {
      WrittenReads(key, v.text, inner);
      WrittenIsOneLine(key, v.text);
    }
  }

  /** Values that npm would not take for themselves. */
  predicate Special(v: string) {
    || v in {"", "true", "false", "null", "undefined"}
    || (exists c :: c in v && Control(c)) || Contains(v, "${")
  }

  /** Exactly which values survive being written and read. */
  lemma FaithfulIff(key: Key, v: string, inner: string -> S.Json)
    ensures Faithful(Kinds(inner), key, Set(v), S.Encode) <==> Valid(v) && !Special(v)
  {
    WrittenReads(key, v, inner);
  }

  /** Changes one key from an expected to a desired setting in the configuration's text. */
  method ChangeSetting(data: string, key: Key, expected: Setting, desired: Setting, inner: string -> S.Json)
    returns (r: Edit)
    ensures var was := Meaning(Kinds(inner), data);
            && (r.Refused? <==>
                 was.None? || (was.value.Get(key) == expected != desired && desired.Set?
                               && (!Valid(desired.text) || Special(desired.text))))
            && (r.Foreign? <==> was.Some? && was.value.Get(key) != expected)
            && (r.Same? <==> was.Some? && was.value.Get(key) == expected == desired)
            && (r.Edited? ==>
                  var now := Meaning(Kinds(inner), r.text);
                  && r.text == Updated(Kinds(inner), data, key, desired, S.Encode)
                  && now.Some? && now.value.Get(key) == desired && Alike(was.value, now.value, key)
                  && (if key.Proxy? then now.value.httpsProxy == was.value.httpsProxy
                      else now.value.proxy == was.value.proxy))
  {
    ProgramWrites(inner);
    if desired.Set? { FaithfulIff(key, desired.text, inner); }
    r := Change(Kinds(inner), S.Encode, v => Valid(v), data, key, expected, desired);
  }
}
