/** Port lists: reading, merging and the one canonical way to write a set of ports. */
module PortList {
  import opened Wrappers

  datatype Range = Range(start: nat, end: nat)

  const MAX_TEXT: nat := 2048
  const MAX_RANGES: nat := 128
  const MAX_PORT: nat := 65535
  const MAX_PORTS: nat := 16384

  // Text.

  function Split(s: string, c: char): (r: seq<string>)
    ensures |r| >= 1
  {
    if s == "" then [""]
    else
      var r := Split(s[1..], c);
      if s[0] == c then [""] + r else [[s[0]] + r[0]] + r[1..]
  }

  function Join(parts: seq<string>, c: char): string
    requires parts != []
  {
    if |parts| == 1 then parts[0] else parts[0] + [c] + Join(parts[1..], c)
  }

  lemma {:induction false} SplitPart(part: string, c: char, rest: string)
    requires c !in part
    ensures Split(part + [c] + rest, c) == [part] + Split(rest, c)
    ensures Split(part, c) == [part]
  {
    if part != "" {
      assert part[0] in part;
      SplitPart(part[1..], c, rest);
      assert (part + [c] + rest)[1..] == part[1..] + [c] + rest;
      assert [part[0]] + part[1..] == part;
    } else {
      assert "" + [c] + rest == [c] + rest;
    }
  }

  lemma {:induction false} SplitJoin(parts: seq<string>, c: char)
    requires parts != [] && forall i :: 0 <= i < |parts| ==> c !in parts[i]
    ensures Split(Join(parts, c), c) == parts
  {
    if |parts| == 1 {
      SplitPart(parts[0], c, "");
    } else {
      SplitJoin(parts[1..], c);
      SplitPart(parts[0], c, Join(parts[1..], c));
    }
  }

  predicate Digit(c: char) { '0' <= c <= '9' }

  predicate Digits(s: string) { forall c :: c in s ==> Digit(c) }

  function Value(s: string): nat
    requires Digits(s)
  {
    if s == "" then 0
    else
      assert s[|s| - 1] in s;
      Value(s[..|s| - 1]) * 10 + (s[|s| - 1] as nat - '0' as nat)
  }

  const DIGITS := "0123456789"

  /** The ten digits and what they are worth, most significant first. */
  lemma ValueIs(s: string, c: char)
    ensures Digit(c) <==> c in DIGITS
    ensures Digits(s) && Digit(c) ==>
              Digits(s + [c]) && exists d :: 0 <= d < 10 && c == DIGITS[d] && Value(s + [c]) == 10 * Value(s) + d
  {
    assert (s + [c])[..|s|] == s;
    if Digit(c) { assert c == DIGITS[c as int - '0' as int]; }
  }

  function Decimal(n: nat): (s: string)
    ensures s != "" && Digits(s)
  {
    if n < 10 then [('0' as nat + n) as char] else Decimal(n / 10) + [('0' as nat + n % 10) as char]
  }

  lemma {:induction false} ValueDecimal(n: nat)
    ensures Value(Decimal(n)) == n
  {
    if n >= 10 {
      ValueDecimal(n / 10);
      var s := Decimal(n);
      assert s[..|s| - 1] == Decimal(n / 10);
    }
  }

  function ParsePort(s: string): Option<nat> {
    if s == "" || !Digits(s) || Value(s) == 0 || Value(s) > MAX_PORT then None else Some(Value(s))
  }

  function ParseRange(part: string): Option<Range> {
    var bounds := Split(part, '-');
    if |bounds| > 2 then None
    else
      var start := ParsePort(bounds[0]);
      var end := if |bounds| == 2 then ParsePort(bounds[1]) else start;
      if start.None? || end.None? || start.value > end.value then None else Some(Range(start.value, end.value))
  }

  /** Joining what a split took apart. */
  lemma {:induction false} JoinSplit(s: string, c: char)
    ensures Join(Split(s, c), c) == s
    ensures forall part :: part in Split(s, c) ==> c !in part
  {
    if s != "" {
      JoinSplit(s[1..], c);
      hide Split;
      var r := Split(s[1..], c);
      SplitFirst(s, c);
      if s[0] == c {
        JoinNone(r, c);
      } else {
        JoinLonger(s[0], r, c);
        assert r[0] in r;
      }
      assert s == [s[0]] + s[1..];
    }
  }

  lemma SplitFirst(s: string, c: char)
    requires s != ""
    ensures var r := Split(s[1..], c); Split(s, c) == if s[0] == c then [""] + r else [[s[0]] + r[0]] + r[1..]
  {
  }

  lemma JoinNone(r: seq<string>, c: char)
    requires r != []
    ensures Join([""] + r, c) == [c] + Join(r, c)
  {
    assert ([""] + r)[1..] == r;
    assert "" + [c] == [c];
  }

  lemma JoinLonger(x: char, r: seq<string>, c: char)
    requires r != []
    ensures Join([[x] + r[0]] + r[1..], c) == [x] + Join(r, c)
  {
    var s := [[x] + r[0]] + r[1..];
    assert s[1..] == r[1..];
    if |r| == 1 { assert s == [[x] + r[0]]; }
  }

  /** A decimal number from 1 to 65535. */
  predicate PortText(s: string, n: nat) { s != "" && Digits(s) && Value(s) == n && 1 <= n <= 65535 }

  /** A range is one port, or two with a dash between, the second not before the first. */
  lemma RangeReads(part: string, a: nat, b: nat)
    ensures ParseRange(part) == Some(Range(a, b)) <==>
              a <= b && ((a == b && PortText(part, a)) ||
                         exists x, y :: part == x + "-" + y && PortText(x, a) && PortText(y, b))
  {
    JoinSplit(part, '-');
    var bounds := Split(part, '-');
    if |bounds| == 2 { assert part == bounds[0] + "-" + bounds[1]; }
    if ParseRange(part) == Some(Range(a, b)) {
      if |bounds| == 2 { assert PortText(bounds[0], a) && PortText(bounds[1], b); }
    }
    if a <= b && a == b && PortText(part, a) { SplitPart(part, '-', ""); }
    if a <= b && exists x, y :: part == x + "-" + y && PortText(x, a) && PortText(y, b) {
      var x, y :| part == x + "-" + y && PortText(x, a) && PortText(y, b);
      SplitPart(x, '-', y);
      SplitPart(y, '-', "");
      assert part == x + ['-'] + y;
    }
  }

  function ParseRanges(parts: seq<string>): Option<seq<Range>> {
    if parts == [] then Some([])
    else
      var init, last := ParseRanges(parts[..|parts| - 1]), ParseRange(parts[|parts| - 1]);
      if init.None? || last.None? then None else Some(init.value + [last.value])
  }

  /** The ranges an accepted list spells out, as they come. */
  function Parse(raw: string): Option<seq<Range>> {
    if raw == "" || |raw| > MAX_TEXT || |Split(raw, ',')| > MAX_RANGES then None else ParseRanges(Split(raw, ','))
  }

  lemma {:induction false} RangesRead(parts: seq<string>, ranges: seq<Range>)
    ensures ParseRanges(parts) == Some(ranges) <==>
              |parts| == |ranges| && forall i :: 0 <= i < |parts| ==> ParseRange(parts[i]) == Some(ranges[i])
  {
    if parts != [] {
      var n := |parts| - 1;
      if ranges != [] { RangesRead(parts[..n], ranges[..|ranges| - 1]); }
      if ParseRanges(parts) == Some(ranges) {
        assert ranges == ranges[..n] + [ranges[n]];
        RangesRead(parts[..n], ranges[..n]);
      }
      if |parts| == |ranges| { assert ranges == ranges[..n] + [ranges[n]]; }
    }
  }

  /** A list is read as its ranges, with commas between them; empty, overlong and overfull lists are refused. */
  lemma ListReads(raw: string, ranges: seq<Range>)
    ensures Parse(raw) == Some(ranges) <==>
              && 1 <= |raw| <= 2048 && 1 <= |ranges| <= 128
              && exists parts: seq<string> ::
                   && |parts| == |ranges| && raw == Join(parts, ',')
                   && forall i :: 0 <= i < |parts| ==> ',' !in parts[i] && ParseRange(parts[i]) == Some(ranges[i])
  {
    JoinSplit(raw, ',');
    RangesRead(Split(raw, ','), ranges);
    if exists parts: seq<string> ::
         && |parts| == |ranges| >= 1 && raw == Join(parts, ',')
         && forall i :: 0 <= i < |parts| ==> ',' !in parts[i] && ParseRange(parts[i]) == Some(ranges[i]) {
      var parts: seq<string> :|
        && |parts| == |ranges| >= 1 && raw == Join(parts, ',')
        && forall i :: 0 <= i < |parts| ==> ',' !in parts[i] && ParseRange(parts[i]) == Some(ranges[i]);
      SplitJoin(parts, ',');
      RangesRead(parts, ranges);
    }
  }

  /** Between two parts stands one comma. */
  lemma JoinIs(parts: seq<string>)
    requires parts != []
    ensures |parts| == 1 ==> Join(parts, ',') == parts[0]
    ensures |parts| > 1 ==> Join(parts, ',') == parts[0] + "," + Join(parts[1..], ',')
  {
  }

  /** One port is written alone, several as the first and the last with a dash between. */
  lemma RangeTextIs(a: nat, b: nat)
    ensures RangeText(Range(a, a)) == Decimal(a)
    ensures a != b ==> RangeText(Range(a, b)) == Decimal(a) + "-" + Decimal(b)
  {
  }

  function RangeText(r: Range): string {
    if r.start == r.end then Decimal(r.start) else Decimal(r.start) + "-" + Decimal(r.end)
  }

  function Texts(ranges: seq<Range>): seq<string> {
    if ranges == [] then [] else Texts(ranges[..|ranges| - 1]) + [RangeText(ranges[|ranges| - 1])]
  }

  /** The canonical text of a list of ranges. */
  function ListText(ranges: seq<Range>): string
    requires ranges != []
  {
    Join(Texts(ranges), ',')
  }

  // Meaning.

  predicate Proper(r: Range) { 1 <= r.start <= r.end <= MAX_PORT }

  predicate Within(r: Range, p: nat) { r.start <= p <= r.end }

  predicate Has(ranges: seq<Range>, p: nat) { exists i :: 0 <= i < |ranges| && Within(ranges[i], p) }

  /** Both lists denote the same set of ports. */
  ghost predicate SamePorts(a: seq<Range>, b: seq<Range>) { forall p: nat :: Has(a, p) <==> Has(b, p) }

  /** In order, with a gap between any two ranges. */
  ghost predicate Canonical(ranges: seq<Range>) {
    && (forall i :: 0 <= i < |ranges| ==> Proper(ranges[i]))
    && (forall i, j :: 0 <= i < j < |ranges| ==> ranges[i].end + 1 < ranges[j].start)
  }

  lemma HasTail(a: seq<Range>, p: nat)
    requires a != []
    ensures Has(a, p) <==> Within(a[0], p) || Has(a[1..], p)
  {
  }

  /** A canonical list starts at its lowest port, and its first gap follows its first range. */
  lemma HeadIs(a: seq<Range>)
    requires Canonical(a) && a != []
    ensures Has(a, a[0].start) && !Has(a, a[0].end + 1)
    ensures forall p: nat :: Has(a, p) ==> a[0].start <= p
    ensures forall p: nat :: a[0].start <= p <= a[0].end ==> Has(a, p)
  {
  }

  lemma HeadMatches(a: seq<Range>, b: seq<Range>)
    requires Canonical(a) && Canonical(b) && SamePorts(a, b) && a != [] && b != []
    ensures a[0] == b[0]
  {
    HeadIs(a);
    HeadIs(b);
    hide Has;
    assert a[0].start == b[0].start;
    var p, q := b[0].end + 1, a[0].end + 1;
    assert !Has(a, p) && !Has(b, q);
  }

  lemma StartIsHeld(a: seq<Range>)
    requires Canonical(a)
    ensures a != [] ==> Has(a, a[0].start)
  {
  }

  /** A set of ports has one canonical list. */
  lemma {:induction false} CanonicalUnique(a: seq<Range>, b: seq<Range>)
    requires Canonical(a) && Canonical(b) && SamePorts(a, b)
    ensures a == b
  {
    StartIsHeld(a);
    StartIsHeld(b);
    if a != [] {
      HeadMatches(a, b);
      forall p: nat ensures Has(a[1..], p) <==> Has(b[1..], p) {
        HasTail(a, p);
        HasTail(b, p);
        if Within(a[0], p) { TailElsewhere(a, p); TailElsewhere(b, p); }
      }
      CanonicalUnique(a[1..], b[1..]);
      assert a == [a[0]] + a[1..] && b == [b[0]] + b[1..];
    }
  }

  lemma TailElsewhere(a: seq<Range>, p: nat)
    requires Canonical(a) && a != [] && Within(a[0], p)
    ensures !Has(a[1..], p)
  {
  }

  // Sorting and merging.

  ghost predicate SortedByStart(s: seq<Range>) {
    s == [] || (SortedByStart(s[..|s| - 1]) && forall x :: x in multiset(s[..|s| - 1]) ==> x.start <= s[|s| - 1].start)
  }

  function Insert(x: Range, s: seq<Range>): (r: seq<Range>)
    ensures multiset(r) == multiset(s) + multiset{x}
    ensures SortedByStart(s) ==> SortedByStart(r)
  {
    if s == [] then [x]
    else
      var n := |s| - 1;
      assert s == s[..n] + [s[n]];
      if s[n].start <= x.start then
        assert (s + [x])[..n + 1] == s;
        s + [x]
      else
        var r := Insert(x, s[..n]);
        assert (r + [s[n]])[..|r|] == r;
        r + [s[n]]
  }

  /** The ranges by their first port. */
  function Sort(s: seq<Range>): (r: seq<Range>)
    ensures multiset(r) == multiset(s) && SortedByStart(r)
  {
    if s == [] then []
    else
      var n := |s| - 1;
      assert s == s[..n] + [s[n]];
      Insert(s[n], Sort(s[..n]))
  }

  function Absorb(merged: seq<Range>, item: Range): seq<Range> {
    var n := |merged| - 1;
    if merged == [] || item.start > merged[n].end + 1 then merged + [item]
    else if item.end > merged[n].end then merged[n := Range(merged[n].start, item.end)]
    else merged
  }

  /** Each range joins the one before it unless there is a gap. */
  function Merged(s: seq<Range>): seq<Range> {
    if s == [] then [] else Absorb(Merged(s[..|s| - 1]), s[|s| - 1])
  }

  lemma HasSnoc(s: seq<Range>, x: Range, p: nat)
    ensures Has(s + [x], p) <==> Has(s, p) || Within(x, p)
  {
    var t := s + [x];
    if Has(s, p) {
      var i :| 0 <= i < |s| && Within(s[i], p);
      assert Within(t[i], p);
    }
    if Within(x, p) { assert Within(t[|s|], p); }
    if Has(t, p) && !Within(x, p) {
      var i :| 0 <= i < |t| && Within(t[i], p);
      assert Within(s[i], p);
    }
  }

  lemma AbsorbKeeps(merged: seq<Range>, item: Range, p: nat)
    requires Canonical(merged) && Proper(item) && (merged != [] ==> merged[|merged| - 1].start <= item.start)
    ensures var r := Absorb(merged, item); Canonical(r) && r != [] && r[|r| - 1].start <= item.start
    ensures Has(Absorb(merged, item), p) <==> Has(merged, p) || Within(item, p)
  {
    AbsorbHas(merged, item, p);
    hide Has;
    hide Within;
  }

  lemma AbsorbHas(merged: seq<Range>, item: Range, p: nat)
    requires merged != [] ==> merged[|merged| - 1].start <= item.start
    requires merged != [] ==> Proper(merged[|merged| - 1]) && Proper(item)
    ensures Has(Absorb(merged, item), p) <==> Has(merged, p) || Within(item, p)
  {
    hide Has;
    var n := |merged| - 1;
    if merged == [] || item.start > merged[n].end + 1 {
      HasSnoc(merged, item, p);
    } else {
      var init := merged[..n];
      assert merged == init + [merged[n]];
      HasSnoc(init, merged[n], p);
      if item.end > merged[n].end {
        assert Absorb(merged, item) == init + [Range(merged[n].start, item.end)];
        HasSnoc(init, Range(merged[n].start, item.end), p);
      }
    }
  }

  /** Merging sorted ranges gives the canonical list of the same ports. */
  lemma {:induction false} MergedIs(s: seq<Range>, p: nat)
    requires SortedByStart(s) && forall i :: 0 <= i < |s| ==> Proper(s[i])
    ensures Canonical(Merged(s))
            && (s != [] ==> Merged(s) != [] && Merged(s)[|Merged(s)| - 1].start <= s[|s| - 1].start)
    ensures Has(Merged(s), p) <==> Has(s, p)
  {
    if s == [] {
      assert !Has(s, p);
    } else {
      var n := |s| - 1;
      assert s == s[..n] + [s[n]];
      SortedFront(s);
      MergedSnoc(s);
      hide *;
      MergedIs(s[..n], p);
      AbsorbKeeps(Merged(s[..n]), s[n], p);
      HasSnoc(s[..n], s[n], p);
    }
  }

  lemma MergedSnoc(s: seq<Range>)
    requires s != []
    ensures Merged(s) == Absorb(Merged(s[..|s| - 1]), s[|s| - 1])
    ensures Merged(s[..0]) == [] && Canonical(Merged(s[..0]))
  {
  }

  lemma SortedFront(s: seq<Range>)
    requires SortedByStart(s) && s != []
    ensures SortedByStart(s[..|s| - 1]) && (|s| > 1 ==> s[|s| - 2].start <= s[|s| - 1].start)
  {
  }

  lemma SameMembers(s: seq<Range>, t: seq<Range>, p: nat)
    requires multiset(s) == multiset(t)
    ensures Has(s, p) ==> Has(t, p)
    ensures (forall i :: 0 <= i < |s| ==> Proper(s[i])) ==> forall i :: 0 <= i < |t| ==> Proper(t[i])
    ensures |s| == |t|
  {
    assert |multiset(s)| == |s| && |multiset(t)| == |t|;
    if Has(s, p) {
      var i :| 0 <= i < |s| && Within(s[i], p);
      assert s[i] in multiset(t);
      var j :| 0 <= j < |t| && t[j] == s[i];
      assert Within(t[j], p);
    }
    if forall i :: 0 <= i < |s| ==> Proper(s[i]) {
      forall i | 0 <= i < |t| ensures Proper(t[i]) { assert t[i] in multiset(s); }
    }
  }

  lemma SortKeeps(s: seq<Range>, p: nat)
    ensures Has(Sort(s), p) <==> Has(s, p)
    ensures (forall i :: 0 <= i < |s| ==> Proper(s[i])) ==> forall i :: 0 <= i < |Sort(s)| ==> Proper(Sort(s)[i])
    ensures |Sort(s)| == |s|
  {
    SameMembers(s, Sort(s), p);
    SameMembers(Sort(s), s, p);
  }

  /** The canonical list of the ports a list of ranges denotes. */
  function Normal(s: seq<Range>): seq<Range> { Merged(Sort(s)) }

  lemma NormalIs(s: seq<Range>)
    requires forall i :: 0 <= i < |s| ==> Proper(s[i])
    ensures Canonical(Normal(s)) && SamePorts(Normal(s), s) && (s != [] ==> Normal(s) != [])
  {
    SortKeeps(s, 0);
    MergedIs(Sort(s), 0);
    forall p: nat ensures Has(Normal(s), p) <==> Has(s, p) {
      SortKeeps(s, p);
      MergedIs(Sort(s), p);
    }
  }

  // Counting.

  function PortSet(s: seq<Range>): set<nat> { set p: nat | 1 <= p <= MAX_PORT && Has(s, p) }

  function Size(s: seq<Range>): int {
    if s == [] then 0 else Size(s[..|s| - 1]) + (s[|s| - 1].end - s[|s| - 1].start + 1)
  }

  predicate Below(p: nat, n: nat) { p < n }

  function Upto(n: nat): set<nat> { set p: nat | p < n && Below(p, n) }

  lemma {:induction false} UptoSize(n: nat)
    ensures |Upto(n)| == n
  {
    if n > 0 {
      UptoSize(n - 1);
      assert Upto(n) == Upto(n - 1) + {n - 1};
    }
  }

  /** The ports of one range. */
  function Span(r: Range): set<nat>
    requires Proper(r)
  {
    Upto(r.end + 1) - Upto(r.start)
  }

  lemma SpanSize(r: Range)
    requires Proper(r)
    ensures |Span(r)| == r.end - r.start + 1
  {
    UptoSize(r.end + 1);
    UptoSize(r.start);
    assert Upto(r.start) <= Upto(r.end + 1);
    assert Upto(r.end + 1) == Span(r) + Upto(r.start);
  }

  /** The counter is the number of ports. */
  lemma {:induction false} SizeIsCount(s: seq<Range>)
    requires Canonical(s)
    ensures |PortSet(s)| == Size(s)
  {
    if s == [] {
      assert PortSet(s) == {};
    } else {
      var n := |s| - 1;
      var init, last := s[..n], s[n];
      assert s == init + [last];
      SizeIsCount(init);
      SpanSize(last);
      PortsSnoc(init, last);
    }
  }

  lemma PortsSnoc(init: seq<Range>, last: Range)
    requires Canonical(init + [last])
    ensures Proper(last) && PortSet(init + [last]) == PortSet(init) + Span(last) && PortSet(init) !! Span(last)
  {
    var s := init + [last];
    assert s[|init|] == last && forall i :: 0 <= i < |init| ==> s[i] == init[i];
    forall p: nat ensures Has(s, p) <==> Has(init, p) || Within(last, p) { HasSnoc(init, last, p); }
  }

  lemma {:induction false} SizeGrows(s: seq<Range>, n: nat)
    requires n <= |s| && Canonical(s)
    ensures 0 <= Size(s[..n]) <= Size(s)
    decreases |s|
  {
    if n == |s| {
      assert s[..n] == s;
      if n > 0 {
        SizeGrows(s[..n - 1], n - 1);
        assert s[..n - 1][..n - 1] == s[..n - 1];
        assert Proper(s[n - 1]);
      }
    } else {
      SizeGrows(s[..|s| - 1], n);
      assert s[..|s| - 1][..n] == s[..n];
      assert Proper(s[|s| - 1]);
    }
  }

  // The operation.

  lemma {:induction false} ParsedAreProper(parts: seq<string>)
    ensures ParseRanges(parts).Some? ==>
              |ParseRanges(parts).value| == |parts| && forall i :: 0 <= i < |parts| ==>
                  Proper(ParseRanges(parts).value[i])
  {
    if parts != [] { ParsedAreProper(parts[..|parts| - 1]); }
  }

  lemma {:induction false} ParsePrefix(parts: seq<string>, n: nat)
    requires n <= |parts| && ParseRanges(parts[..n]).None?
    ensures ParseRanges(parts).None?
    decreases |parts| - n
  {
    if n == |parts| {
      assert parts[..n] == parts;
    } else {
      assert parts[..n + 1][..n] == parts[..n];
      ParsePrefix(parts, n + 1);
    }
  }

  /** Writes a list of ports in its canonical form, or refuses it. */
  method Normalize(raw: string) returns (r: Option<string>)
    ensures r.Some? <==> Parse(raw).Some? && |PortSet(Parse(raw).value)| <= MAX_PORTS
    ensures r.Some? ==> Normal(Parse(raw).value) != [] && r.value == ListText(Normal(Parse(raw).value))
  {
    if raw == "" || |raw| > MAX_TEXT { return None; }
    var parts := Split(raw, ',');
    if |parts| > MAX_RANGES { return None; }
    var ranges: seq<Range> := [];
    for i := 0 to |parts|
      invariant ParseRanges(parts[..i]) == Some(ranges)
    {
      assert parts[..i + 1][..i] == parts[..i];
      var next := ParseRange(parts[i]);
      if next.None? {
        ParsePrefix(parts, i + 1);
        return None;
      }
      ranges := ranges + [next.value];
    }
    assert parts[..|parts|] == parts;
    ParsedAreProper(parts);
    NormalIs(ranges);
    var merged := MergeAll(Sort(ranges));
    SizeIsCount(merged);
    assert PortSet(merged) == PortSet(ranges);
    r := Write(merged);
  }

  method MergeAll(sorted: seq<Range>) returns (merged: seq<Range>)
    ensures merged == Merged(sorted)
  {
    merged := [];
    for i := 0 to |sorted|
      invariant merged == Merged(sorted[..i])
    {
      assert sorted[..i + 1][..i] == sorted[..i];
      var item, n := sorted[i], |merged| - 1;
      if |merged| == 0 || item.start > merged[n].end + 1 {
        merged := merged + [item];
      } else if item.end > merged[n].end {
        merged := merged[n := Range(merged[n].start, item.end)];
      }
    }
    assert sorted[..|sorted|] == sorted;
  }

  method Write(merged: seq<Range>) returns (r: Option<string>)
    requires Canonical(merged) && merged != []
    ensures r == if Size(merged) <= MAX_PORTS then Some(ListText(merged)) else None
  {
    var count, out := 0, [];
    for i := 0 to |merged|
      invariant count == Size(merged[..i]) <= MAX_PORTS
      invariant out == Texts(merged[..i])
    {
      assert merged[..i + 1][..i] == merged[..i];
      var item := merged[i];
      count := count + (item.end - item.start + 1);
      SizeGrows(merged, i + 1);
      if count > MAX_PORTS { return None; }
      var value := Decimal(item.start);
      if item.start != item.end { value := value + "-" + Decimal(item.end); }
      out := out + [value];
    }
    assert merged[..|merged|] == merged;
    r := Some(Join(out, ','));
  }

  // The canonical text.

  lemma {:induction false} TextsRead(c: seq<Range>)
    requires Canonical(c)
    ensures |Texts(c)| == |c| && ParseRanges(Texts(c)) == Some(c)
    ensures forall i :: 0 <= i < |c| ==> ',' !in Texts(c)[i]
  {
    if c != [] {
      var n := |c| - 1;
      CanonicalParts(c, n);
      TextsIs(c);
      hide *;
      TextsRead(c[..n]);
      RangeRead(c[n]);
      ParseSnoc(Texts(c[..n]), RangeText(c[n]));
      assert c == c[..n] + [c[n]];
    }
  }

  lemma TextsIs(c: seq<Range>)
    requires c != []
    ensures Texts(c) == Texts(c[..|c| - 1]) + [RangeText(c[|c| - 1])]
  {
  }

  lemma ParseSnoc(parts: seq<string>, x: string)
    requires ParseRanges(parts).Some? && ParseRange(x).Some?
    ensures ParseRanges(parts + [x]) == Some(ParseRanges(parts).value + [ParseRange(x).value])
  {
  }

  lemma CanonicalParts(c: seq<Range>, n: nat)
    requires Canonical(c) && n < |c|
    ensures Canonical(c[..n]) && Proper(c[n])
  {
  }

  lemma PortRead(n: nat)
    requires 1 <= n <= MAX_PORT
    ensures ParsePort(Decimal(n)) == Some(n)
  {
    ValueDecimal(n);
    hide Value;
    hide Decimal;
  }

  /** A range's text is read as that range. */
  lemma RangeRead(r: Range)
    requires Proper(r)
    ensures ParseRange(RangeText(r)) == Some(r) && ',' !in RangeText(r)
  {
    PortRead(r.start);
    PortRead(r.end);
    var a, b := Decimal(r.start), Decimal(r.end);
    NoDigit(a);
    NoDigit(b);
    SplitPart(a, '-', b);
    SplitPart(b, '-', "");
    hide ParsePort;
    hide Decimal;
    hide Split;
    assert a + "-" + b == a + ['-'] + b;
  }

  lemma NoDigit(s: string)
    requires Digits(s)
    ensures '-' !in s && ',' !in s
  {
  }

  /** Canonical texts of different canonical lists differ. */
  lemma ListTextIsInjective(a: seq<Range>, b: seq<Range>)
    requires Canonical(a) && Canonical(b) && a != [] && b != [] && ListText(a) == ListText(b)
    ensures a == b
  {
    TextsRead(a);
    TextsRead(b);
    SplitJoin(Texts(a), ',');
    SplitJoin(Texts(b), ',');
  }

  /** Two accepted lists are written the same exactly when they denote the same ports. */
  lemma SameTextIffSamePorts(a: string, b: string)
    requires Parse(a).Some? && Parse(b).Some?
    ensures Normal(Parse(a).value) != [] && Normal(Parse(b).value) != []
    ensures ListText(Normal(Parse(a).value)) == ListText(Normal(Parse(b).value)) <==>
            SamePorts(Parse(a).value, Parse(b).value)
  {
    var x, y := Parse(a).value, Parse(b).value;
    ParsedAreProper(Split(a, ','));
    ParsedAreProper(Split(b, ','));
    NormalIs(x);
    NormalIs(y);
    if SamePorts(x, y) { CanonicalUnique(Normal(x), Normal(y)); }
    if ListText(Normal(x)) == ListText(Normal(y)) { ListTextIsInjective(Normal(x), Normal(y)); }
  }

  // Equivalent options.

  datatype Setting = Unset | Chosen(text: string) | Conflict

  predicate Accepted(v: string) { Parse(v).Some? && |PortSet(Parse(v).value)| <= MAX_PORTS }

  /** Two accepted values denote the same ports. */
  ghost predicate Alike(a: string, b: string) {
    Parse(a).Some? && Parse(b).Some? && SamePorts(Parse(a).value, Parse(b).value)
  }

  /** All given values are accepted and denote the same ports. */
  ghost predicate Agree(values: seq<string>) {
    && (forall i :: 0 <= i < |values| ==> Accepted(values[i]))
    && (forall i, j :: 0 <= i < j < |values| ==> Alike(values[i], values[j]))
  }

  /** Reads an option that several keys can give; `entries` holds, key by key, the values given for it, if any. */
  method ReadOption(entries: seq<Option<seq<string>>>) returns (r: Setting)
    ensures r.Unset? <==> Given(entries) == [] && !Repeated(entries)
    ensures r.Conflict? <==> Repeated(entries) || !Agree(Given(entries))
    ensures r.Chosen? ==> Given(entries) != [] && r.text == Written(Given(entries)[0])
  {
    hide *;
    r := Unset;
    NothingGiven(entries);
    for i := 0 to |entries|
      invariant !Repeated(entries[..i]) && Agree(Given(entries[..i]))
      invariant r == if Given(entries[..i]) == [] then Unset else Chosen(Written(Given(entries[..i])[0]))
    {
      RepeatedPrefix(entries, i + 1);
      GivenMore(entries, i);
      GivenPrefix(entries, i + 1);
      if Agree(Given(entries)) { AgreePrefix(Given(entries[..i + 1]), Given(entries)); }
      assert Given(entries[..i]) + [] == Given(entries[..i]);
      if entries[i].Some? {
        if |entries[i].value| != 1 { return Conflict; }
        var v := entries[i].value[0];
        var candidate := Normalize(v);
        AgreeMore(Given(entries[..i]), v);
        WrittenIs(v);
        AcceptedIs(v);
        if candidate.None? { return Conflict; }
        if r.Chosen? && candidate.value != r.text { return Conflict; }
        r := Chosen(candidate.value);
      }
    }
    assert entries[..|entries|] == entries;
  }

  lemma NothingGiven(entries: seq<Option<seq<string>>>)
    ensures Given(entries[..0]) == [] && !Repeated(entries[..0]) && Agree([])
  {
  }

  lemma GivenMore(entries: seq<Option<seq<string>>>, i: nat)
    requires i < |entries|
    ensures Given(entries[..i + 1]) ==
            Given(entries[..i]) + if entries[i].Some? && |entries[i].value| == 1 then [entries[i].value[0]] else []
  {
    assert entries[..i + 1][..i] == entries[..i];
  }

  lemma AgreePrefix(a: seq<string>, b: seq<string>)
    requires a <= b && Agree(b)
    ensures Agree(a)
  {
  }

  lemma WrittenIs(v: string)
    ensures Parse(v).Some? ==> Normal(Parse(v).value) != [] && Written(v) == ListText(Normal(Parse(v).value))
  {
  }

  predicate Repeated(entries: seq<Option<seq<string>>>) {
    exists i :: 0 <= i < |entries| && entries[i].Some? && |entries[i].value| != 1
  }

  /** The values given, key by key, where a key gives exactly one. */
  function Given(entries: seq<Option<seq<string>>>): seq<string> {
    if entries == [] then []
    else
      var n := |entries| - 1;
      Given(entries[..n]) + if entries[n].Some? && |entries[n].value| == 1 then entries[n].value else []
  }

  /** How an accepted value is written. */
  function Written(v: string): string {
    if Parse(v).Some? && Normal(Parse(v).value) != [] then ListText(Normal(Parse(v).value)) else ""
  }

  lemma RepeatedPrefix(entries: seq<Option<seq<string>>>, n: nat)
    requires n <= |entries|
    ensures Repeated(entries[..n]) ==> Repeated(entries)
    ensures n > 0 ==>
            (Repeated(entries[..n]) <==>
                Repeated(entries[..n - 1]) || (entries[n - 1].Some? && |entries[n - 1].value| != 1))
  {
  }

  lemma {:induction false} GivenPrefix(entries: seq<Option<seq<string>>>, n: nat)
    requires n <= |entries|
    ensures Given(entries[..n]) <= Given(entries)
    decreases |entries|
  {
    if n < |entries| {
      GivenPrefix(entries[..|entries| - 1], n);
      assert entries[..|entries| - 1][..n] == entries[..n];
    } else {
      assert entries[..n] == entries;
    }
  }

  lemma AcceptedIs(v: string)
    ensures Accepted(v) <==> Parse(v).Some? && |PortSet(Parse(v).value)| <= MAX_PORTS
  {
  }

  lemma AlikeIsWrittenAlike(a: string, b: string)
    requires Accepted(a) && Accepted(b)
    ensures Alike(a, b) <==> Written(a) == Written(b)
  {
    WrittenIs(a);
    WrittenIs(b);
    SameTextIffSamePorts(a, b);
    hide Parse;
    hide PortSet;
    hide SamePorts;
    hide Normal;
    hide ListText;
    hide Written;
  }

  /** One more value agrees with the others when it is accepted and written like the first. */
  lemma AgreeMore(values: seq<string>, v: string)
    requires Agree(values)
    ensures Agree(values + [v]) <==> Accepted(v) && (values != [] ==> Written(values[0]) == Written(v))
  {
    hide Accepted;
    hide Alike;
    hide Written;
    var all := values + [v];
    assert all[|values|] == v && forall i :: 0 <= i < |values| ==> all[i] == values[i];
    if Accepted(v) {
      forall i | 0 <= i < |values|
        ensures (Alike(values[i], v) <==> Written(values[i]) == Written(v))
                && Written(values[i]) == Written(values[0]) {
        AlikeIsWrittenAlike(values[i], v);
        if i > 0 { AlikeIsWrittenAlike(values[0], values[i]); }
      }
    }
  }
}
