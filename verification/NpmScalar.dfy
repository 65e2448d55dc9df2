/** The scalars of npm's configuration: trimming, unescaping, and JSON strings as the program writes and reads them. */
module NpmScalar {
  import opened Wrappers
  import opened Strings

  /** A decoded JSON text. */
  datatype Json = Malformed | Text(text: string) | NoString

  /** What npm's parser trims: white space but NEL, and byte order marks. */
  predicate Trimmed(c: char) { (c != '\U{85}' && Space(c)) || c == '\U{FEFF}' }

  function TrimLeft(s: string): (r: string)
    ensures |r| <= |s|
  {
    if s != "" && Trimmed(s[0]) then TrimLeft(s[1..]) else s
  }

  function TrimRight(s: string): (r: string)
    ensures |r| <= |s|
  {
    if s != "" && Trimmed(s[|s| - 1]) then TrimRight(s[..|s| - 1]) else s
  }

  function Trim(s: string): string { TrimRight(TrimLeft(s)) }

  lemma Tight(s: string)
    requires s != "" && !Trimmed(s[0]) && !Trimmed(s[|s| - 1])
    ensures Trim(s) == s
  {
  }

  /** A scalar without quotes: up to a comment, with three escapes. */
  function Unescaped(s: string): string {
    if s == "" || s[0] == ';' || s[0] == '#' then ""
    else if s[0] == '\\' && |s| > 1 && s[1] in "\\;#" then [s[1]] + Unescaped(s[2..])
    else [s[0]] + Unescaped(s[1..])
  }

  predicate Quoted(s: string, q: char) { |s| >= 2 && s[0] == q && s[|s| - 1] == q }

  /** A scalar's value; none where JSON gives something that is not a string. `inner` decodes what stands in single
      quotes. */
  function Scalar(s: string, inner: string -> Json): Option<string> {
    var t := Trim(s);
    if Quoted(t, '"') then Decided(Decode(t), t)
    else if Quoted(t, '\'') then Decided(inner(t[1..|t| - 1]), t[1..|t| - 1])
    else Some(Trim(Unescaped(t)))
  }

  function Decided(j: Json, raw: string): Option<string> {
    match j
    case Text(text) => Some(text)
    case NoString => None
    case Malformed => Some(raw)
  }

  // Scalars, character by character.

  const TRIMMED := "\t\n\U{B}\U{C}\r \U{A0}\U{1680}\U{2000}\U{2001}\U{2002}\U{2003}\U{2004}\U{2005}\U{2006}\U{2007}"
    + "\U{2008}\U{2009}\U{200A}\U{2028}\U{2029}\U{202F}\U{205F}\U{3000}\U{FEFF}"

  lemma TrimmedIs(c: char)
    ensures Trimmed(c) <==> c in TRIMMED
  {
  }

  predicate AllTrimmed(s: string) { forall c :: c in s ==> c in TRIMMED }

  predicate Untrimmed(s: string) { s == "" || (s[0] !in TRIMMED && s[|s| - 1] !in TRIMMED) }

  lemma {:induction false} TrimLeftIs(a: string, s: string)
    requires AllTrimmed(a) && (s == "" || s[0] !in TRIMMED)
    ensures TrimLeft(a + s) == s
  {
    if a == "" {
      assert a + s == s;
      if s != "" { TrimmedIs(s[0]); }
    } else {
      TrimmedIs(a[0]);
      assert a[0] in a && (a + s)[1..] == a[1..] + s;
      TrimLeftIs(a[1..], s);
    }
  }

  lemma {:induction false} TrimRightIs(s: string, b: string)
    requires AllTrimmed(b) && (s == "" || s[|s| - 1] !in TRIMMED)
    ensures TrimRight(s + b) == s
  {
    if b == "" {
      assert s + b == s;
      if s != "" { TrimmedIs(s[|s| - 1]); }
    } else {
      var n := |b| - 1;
      TrimmedIs(b[n]);
      assert b[n] in b && (s + b)[..|s + b| - 1] == s + b[..n];
      TrimRightIs(s, b[..n]);
    }
  }

  /** Trimming takes white space and byte order marks from both ends, and nothing else. */
  lemma TrimIs(a: string, s: string, b: string)
    requires AllTrimmed(a) && AllTrimmed(b) && Untrimmed(s)
    ensures Trim(a + s + b) == s
  {
    if s == "" {
      assert a + s + b == (a + b) + "";
      TrimLeftIs(a + b, "");
    } else {
      assert a + s + b == a + (s + b);
      TrimLeftIs(a, s + b);
      TrimRightIs(s, b);
    }
  }

  /** What an unquoted scalar is made of: characters for themselves, escaped ones, and backslashes that escape nothing.
      */
  datatype Bit = Plain(c: char) | Escaped(c: char) | Slash(c: char)

  predicate GoodBit(b: Bit) {
    if b.Escaped? then b.c in ";#\\" else b.c !in ";#\\"
  }

  function BitText(b: Bit): string { if b.Plain? then [b.c] else ['\\', b.c] }

  function BitMeaning(b: Bit): string { if b.Slash? then ['\\', b.c] else [b.c] }

  function BitsText(bits: seq<Bit>): string {
    if bits == [] then "" else BitText(bits[0]) + BitsText(bits[1..])
  }

  function BitsMeaning(bits: seq<Bit>): string {
    if bits == [] then "" else BitMeaning(bits[0]) + BitsMeaning(bits[1..])
  }

  /** Three characters can be escaped, and a comment ends the scalar. */
  lemma {:induction false} UnescapedIs(bits: seq<Bit>, tail: string)
    requires (forall b :: b in bits ==> GoodBit(b)) && (tail == "" || tail[0] in ";#")
    ensures Unescaped(BitsText(bits) + tail) == BitsMeaning(bits)
  {
    if bits == [] {
      assert BitsText(bits) + tail == tail;
    } else {
      assert bits[0] in bits;
      UnescapedIs(bits[1..], tail);
      var rest := BitsText(bits[1..]) + tail;
      assert BitsText(bits) + tail == BitText(bits[0]) + rest;
      UnescapedBit(bits[0], rest);
    }
  }

  lemma UnescapedBit(b: Bit, rest: string)
    requires GoodBit(b)
    ensures Unescaped(BitText(b) + rest) == BitMeaning(b) + Unescaped(rest)
  {
    var s := BitText(b) + rest;
    if b.Plain? {
      assert s[1..] == rest;
    } else {
      assert s[2..] == rest && s[1..] == [b.c] + rest && s[1..][1..] == rest;
    }
  }

  /** An unquoted scalar between white space. */
  lemma BareReads(a: string, bits: seq<Bit>, tail: string, b: string, inner: string -> Json)
    requires AllTrimmed(a) && AllTrimmed(b) && Untrimmed(BitsText(bits) + tail)
    requires (forall x :: x in bits ==> GoodBit(x)) && (tail == "" || tail[0] in ";#")
    requires bits != [] ==> bits[0].c !in "'\""
    ensures Scalar(a + (BitsText(bits) + tail) + b, inner) == Some(Trim(BitsMeaning(bits)))
  {
    hide Trim;
    hide Unescaped;
    hide AllTrimmed;
    hide Untrimmed;
    hide BitsMeaning;
    TrimIs(a, BitsText(bits) + tail, b);
    UnescapedIs(bits, tail);
    if bits != [] { assert bits[0] in bits; }
  }

  // JSON strings.

  function HexDigit(n: nat): char
    requires n < 16
  {
    if n < 10 then '0' + n as char else 'a' + (n - 10) as char
  }

  function HexValue(c: char): Option<nat> {
    if '0' <= c <= '9' then Some(c as int - '0' as int)
    else if 'a' <= c <= 'f' then Some(c as int - 'a' as int + 10)
    else if 'A' <= c <= 'F' then Some(c as int - 'A' as int + 10)
    else None
  }

  /** The code unit of four hexadecimal digits. */
  function Unit(s: string): (r: Option<nat>)
    ensures r.Some? ==> |s| >= 4 && r.value < 0x1_0000
  {
    if |s| < 4 then None
    else
      var (a, b, c, d) := (HexValue(s[0]), HexValue(s[1]), HexValue(s[2]), HexValue(s[3]));
      if a.None? || b.None? || c.None? || d.None? then None
      else Some(0x1000 * a.value + 0x100 * b.value + 0x10 * c.value + d.value)
  }

  predicate Surrogate(n: nat) { 0xD800 <= n < 0xE000 }

  function Cons(c: char, rest: Option<string>): Option<string> {
    if rest.None? then None else Some([c] + rest.value)
  }

  /** What one-letter escapes mean. */
  function Escape(c: char): Option<char> {
    match c
    case '"' => Some('"')
    case '\\' => Some('\\')
    case '/' => Some('/')
    case 'b' => Some('\U{8}')
    case 'f' => Some('\U{C}')
    case 'n' => Some('\n')
    case 'r' => Some('\r')
    case 't' => Some('\t')
    case _ => None
  }

  /** The rest of a string behind its opening quote; a lone surrogate becomes the replacement character. */
  function Unquote(s: string): Option<string> {
    if s == "" then None
    else if s[0] == '"' then if |s| == 1 then Some("") else None
    else if s[0] < ' ' then None
    else if s[0] != '\\' then Cons(s[0], Unquote(s[1..]))
    else if |s| == 1 then None
    else if s[1] != 'u' then
      if Escape(s[1]).None? then None else Cons(Escape(s[1]).value, Unquote(s[2..]))
    else
      var u := Unit(s[2..]);
      if u.None? then None
      else if !Surrogate(u.value) then Cons(u.value as char, Unquote(s[6..]))
      else
        var low := if |s| > 7 && s[6] == '\\' && s[7] == 'u' then Unit(s[8..]) else None;
        if u.value < 0xDC00 && low.Some? && 0xDC00 <= low.value < 0xE000
        then Cons((0x1_0000 + (u.value - 0xD800) * 0x400 + (low.value - 0xDC00)) as char, Unquote(s[12..]))
        else Cons('\U{FFFD}', Unquote(s[6..]))
  }

  function Decode(t: string): Json
    requires Quoted(t, '"')
  {
    var r := Unquote(t[1..]);
    if r.None? then Malformed else Text(r.value)
  }

  function Hex(n: nat): string
    requires n < 0x1_0000
  {
    "\\u" + [HexDigit(n / 16 / 16 / 16), HexDigit(n / 16 / 16 % 16), HexDigit(n / 16 % 16), HexDigit(n % 16)]
  }

  /** One character as the program's JSON encoder writes it, safe inside HTML. */
  function Encoded(c: char): (r: string)
    ensures r != ""
  {
    if c == '"' then "\\\""
    else if c == '\\' then "\\\\"
    else if c == '\n' then "\\n"
    else if c == '\r' then "\\r"
    else if c == '\t' then "\\t"
    else if c == '\U{8}' then "\\b"
    else if c == '\U{C}' then "\\f"
    else if c < ' ' || c in "<>&" || c == '\U{2028}' || c == '\U{2029}' then Hex(c as int)
    else [c]
  }

  function EncodedAll(s: string): string {
    if s == "" then "" else Encoded(s[0]) + EncodedAll(s[1..])
  }

  function Encode(s: string): string { "\"" + EncodedAll(s) + "\"" }

  // JSON strings, step by step.

  const LOWER := "0123456789abcdef"
  const UPPER := "0123456789ABCDEF"

  /** The digit of this value, in either case. */
  predicate Hexadecimal(c: char, n: nat) { n < 16 && c in [LOWER[n], UPPER[n]] }

  lemma HexIs(c: char, n: nat)
    ensures HexValue(c) == Some(n) <==> Hexadecimal(c, n)
  {
  }

  /** The letters that stand behind a backslash, and what each means. */
  const LETTERS := "\"\\/bfnrt"
  const MEANINGS := "\"\\/\U{8}\U{C}\n\r\t"

  lemma EscapeIs(c: char)
    ensures Escape(c).Some? <==> c in LETTERS
    ensures forall i :: 0 <= i < |LETTERS| && LETTERS[i] == c ==> Escape(c) == Some(MEANINGS[i])
  {
  }

  /** The closing quote must be the last character; control characters and unknown escapes are refused. */
  lemma UnquoteStep(c: char, rest: string)
    ensures c == '"' ==> Unquote([c] + rest) == if rest == "" then Some("") else None
    ensures c < ' ' ==> Unquote([c] + rest) == None
    ensures c >= ' ' && c !in "\"\\" ==> Unquote([c] + rest) == Cons(c, Unquote(rest))
    ensures Unquote("") == Unquote("\\") == None
  {
    assert ([c] + rest)[1..] == rest;
  }

  lemma UnquoteEscape(c: char, rest: string)
    requires c != 'u'
    ensures c !in LETTERS ==> Unquote(['\\', c] + rest) == None
    ensures forall i :: 0 <= i < |LETTERS| && LETTERS[i] == c ==>
              Unquote(['\\', c] + rest) == Cons(MEANINGS[i], Unquote(rest))
  {
    EscapeIs(c);
    assert (['\\', c] + rest)[2..] == rest;
  }

  /** Four hexadecimal digits of either case. */
  ghost predicate Digits4(s: string, n: nat) {
    |s| == 4 && exists a: nat, b: nat, c: nat, d: nat ::
      && Hexadecimal(s[0], a) && Hexadecimal(s[1], b) && Hexadecimal(s[2], c) && Hexadecimal(s[3], d)
      && n == 0x1000 * a + 0x100 * b + 0x10 * c + d
  }

  lemma DigitsRead(s: string, n: nat, rest: string)
    requires Digits4(s, n)
    ensures Unit(s + rest) == Some(n) && (s + rest)[4..] == rest
  {
    hide HexValue;
    hide Hexadecimal;
    hide Unit;
    var a: nat, b: nat, c: nat, d: nat :|
      && Hexadecimal(s[0], a) && Hexadecimal(s[1], b) && Hexadecimal(s[2], c) && Hexadecimal(s[3], d)
      && n == 0x1000 * a + 0x100 * b + 0x10 * c + d;
    HexIs(s[0], a);
    HexIs(s[1], b);
    HexIs(s[2], c);
    HexIs(s[3], d);
    UnitIs(s, a, b, c, d, rest);
  }

  lemma UnitIs(s: string, a: nat, b: nat, c: nat, d: nat, rest: string)
    requires |s| == 4
    requires HexValue(s[0]) == Some(a) && HexValue(s[1]) == Some(b)
    requires HexValue(s[2]) == Some(c) && HexValue(s[3]) == Some(d)
    ensures Unit(s + rest) == Some(0x1000 * a + 0x100 * b + 0x10 * c + d)
  {
    hide HexValue;
    var t := s + rest;
    assert t[0] == s[0] && t[1] == s[1] && t[2] == s[2] && t[3] == s[3];
  }

  lemma UnitStep(s: string, n: nat, rest: string)
    requires |s| == 4 && Unit(s + rest) == Some(n)
    ensures var low := if "\\u" <= rest then Unit(rest[2..]) else None;
            Unquote("\\u" + s + rest) ==
              if !(0xD800 <= n <= 0xDFFF) then Cons(n as char, Unquote(rest))
              else if n <= 0xDBFF && low.Some? && 0xDC00 <= low.value <= 0xDFFF
              then Cons((0x1_0000 + (n - 0xD800) * 0x400 + (low.value - 0xDC00)) as char, Unquote(rest[6..]))
              else Cons('\U{FFFD}', Unquote(rest))
  {
    hide Unit;
    hide Cons;
    var t := "\\u" + s + rest;
    assert t[2..] == s + rest && t[6..] == rest;
    if |t| > 7 { assert t[6] == rest[0] && t[7] == rest[1] && t[8..] == rest[2..]; }
    if |t| > 12 { assert t[12..] == rest[6..]; }
  }

  /** A code unit that is no surrogate is its character. */
  lemma UnquoteUnit(s: string, n: nat, rest: string)
    requires Digits4(s, n) && !(0xD800 <= n <= 0xDFFF)
    ensures Unquote("\\u" + s + rest) == Cons(n as char, Unquote(rest))
  {
    hide Unquote;
    DigitsRead(s, n, rest);
    UnitStep(s, n, rest);
  }

  /** Two surrogates in their order are one character. */
  lemma UnquotePair(s: string, high: nat, t: string, low: nat, rest: string)
    requires Digits4(s, high) && 0xD800 <= high <= 0xDBFF && Digits4(t, low) && 0xDC00 <= low <= 0xDFFF
    ensures var c := 0x1_0000 + (high - 0xD800) * 0x400 + (low - 0xDC00);
            Unquote("\\u" + s + ("\\u" + (t + rest))) == Cons(c as char, Unquote(rest))
  {
    hide Unquote;
    hide Unit;
    var more := "\\u" + (t + rest);
    DigitsRead(s, high, more);
    DigitsRead(t, low, rest);
    UnitStep(s, high, more);
    assert more[2..] == t + rest && more[6..] == rest;
  }

  /** A surrogate without its partner is the replacement character. */
  lemma UnquoteLone(s: string, n: nat, rest: string)
    requires Digits4(s, n) && 0xD800 <= n <= 0xDFFF
    requires n >= 0xDC00 || !("\\u" <= rest) || Unit(rest[2..]).None? || !(0xDC00 <= Unit(rest[2..]).value <= 0xDFFF)
    ensures Unquote("\\u" + s + rest) == Cons('\U{FFFD}', Unquote(rest))
  {
    hide Unquote;
    hide Unit;
    DigitsRead(s, n, rest);
    UnitStep(s, n, rest);
  }

  /** What quotes decide, between white space. */
  lemma QuotesRead(a: string, x: string, b: string, inner: string -> Json)
    requires AllTrimmed(a) && AllTrimmed(b)
    ensures Scalar(a + ("\"" + x + "\"") + b, inner) ==
              (var r := Unquote(x + "\""); Some(if r.Some? then r.value else "\"" + x + "\""))
    ensures Scalar(a + ("'" + x + "'") + b, inner) ==
              match inner(x) case Text(text) => Some(text) case NoString => None case Malformed => Some(x)
  {
    var d, s := "\"" + x + "\"", "'" + x + "'";
    TrimIs(a, d, b);
    TrimIs(a, s, b);
    assert d[1..] == x + "\"" && s[1..|s| - 1] == x;
  }

  lemma HexReads(n: nat, rest: string)
    requires n < 0x1_0000
    ensures Unit((Hex(n) + rest)[2..]) == Some(n) && (Hex(n) + rest)[6..] == rest
  {
    UnitReads(n / 16 / 16 / 16, n / 16 / 16 % 16, n / 16 % 16, n % 16, rest);
    Positions(n);
    assert (Hex(n) + rest)[2..] ==
           [HexDigit(n / 16 / 16 / 16), HexDigit(n / 16 / 16 % 16), HexDigit(n / 16 % 16), HexDigit(n % 16)] + rest;
  }

  lemma UnitReads(a: nat, b: nat, c: nat, d: nat, rest: string)
    requires a < 16 && b < 16 && c < 16 && d < 16
    ensures Unit([HexDigit(a), HexDigit(b), HexDigit(c), HexDigit(d)] + rest) ==
            Some(0x1000 * a + 0x100 * b + 0x10 * c + d)
  {
    hide HexDigit;
    hide HexValue;
    DigitReads(a);
    DigitReads(b);
    DigitReads(c);
    DigitReads(d);
  }

  lemma Positions(n: nat)
    requires n < 0x1_0000
    ensures n == 0x1000 * (n / 16 / 16 / 16) + 0x100 * (n / 16 / 16 % 16) + 0x10 * (n / 16 % 16) + n % 16
  {
  }

  lemma DigitReads(n: nat)
    requires n < 16
    ensures HexValue(HexDigit(n)) == Some(n)
  {
  }

  lemma CharReads(c: char, rest: string)
    ensures Unquote(Encoded(c) + rest) == Cons(c, Unquote(rest))
  {
    var s := Encoded(c) + rest;
    if c < ' ' || c in "<>&" || c == '\U{2028}' || c == '\U{2029}' {
      if c !in "\n\r\t" && c != '\U{8}' && c != '\U{C}' {
        HexReads(c as int, rest);
        hide Unit;
        assert s[0] == '\\' && s[1] == 'u' && !Surrogate(c as int);
      } else {
        assert s[2..] == rest;
      }
    } else if c == '"' || c == '\\' {
      assert s[2..] == rest;
    } else {
      assert s[1..] == rest;
    }
  }

  /** What is written is read as it was. */
  lemma {:induction false} EncodedReads(s: string)
    ensures Unquote(EncodedAll(s) + "\"") == Some(s)
  {
    if s != "" {
      EncodedReads(s[1..]);
      CharReads(s[0], EncodedAll(s[1..]) + "\"");
      assert EncodedAll(s) + "\"" == Encoded(s[0]) + (EncodedAll(s[1..]) + "\"");
      assert s == [s[0]] + s[1..];
    } else {
      assert EncodedAll(s) + "\"" == "\"";
    }
  }

  lemma EncodeReads(s: string, inner: string -> Json)
    ensures Quoted(Encode(s), '"') && Scalar(Encode(s), inner) == Some(s)
  {
    var t := Encode(s);
    assert t[0] == '"' && t[|t| - 1] == '"';
    Tight(t);
    EncodedReads(s);
    assert t[1..] == EncodedAll(s) + "\"";
  }

  /** What is written holds no control character, so it is one line. */
  /** No control character, and no line separator of Unicode. */
  predicate Harmless(c: char) { c >= ' ' && c != '\U{2028}' && c != '\U{2029}' }

  lemma {:induction false} EncodedIsPlain(s: string)
    ensures forall c :: c in EncodedAll(s) ==> Harmless(c)
  {
    if s != "" {
      EncodedIsPlain(s[1..]);
      CharIsPlain(s[0]);
      hide Encoded;
      hide Harmless;
    }
  }

  lemma CharIsPlain(c: char)
    ensures forall d :: d in Encoded(c) ==> Harmless(d)
  {
  }
}
