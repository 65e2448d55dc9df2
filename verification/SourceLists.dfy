/** Sorted source lists: sorting, filtering and uniqueness. */
module SourceLists {
  ghost predicate Sorted(s: seq<nat>) {
    s == [] || (Sorted(s[1..]) && forall x :: x in multiset(s[1..]) ==> s[0] <= x)
  }

  ghost predicate Distinct<T>(s: seq<T>) {
    forall i, j :: 0 <= i < j < |s| ==> s[i] != s[j]
  }

  function Insert(x: nat, s: seq<nat>): (r: seq<nat>)
    ensures multiset(r) == multiset(s) + multiset{x}
    ensures Sorted(s) ==> Sorted(r)
  {
    if s == [] then [x]
    else
      assert s == [s[0]] + s[1..];
      if x <= s[0] then
        var r := [x] + s;
        assert r[1..] == s;
        r
      else
        var r := [s[0]] + Insert(x, s[1..]);
        assert r[1..] == Insert(x, s[1..]);
        r
  }

  /** The sorted rearrangement of a list. */
  function Sort(s: seq<nat>): (r: seq<nat>)
    ensures multiset(r) == multiset(s)
    ensures Sorted(r)
  {
    if s == [] then []
    else
      assert s == [s[0]] + s[1..];
      Insert(s[0], Sort(s[1..]))
  }

  /** A sorted list is determined by what it holds. */
  lemma {:induction false} SortedUnique(s: seq<nat>, t: seq<nat>)
    requires Sorted(s) && Sorted(t) && multiset(s) == multiset(t)
    ensures s == t
  {
    assert |s| == |multiset(s)| == |multiset(t)| == |t|;
    if s != [] {
      SortedHead(s, t);
      SortedHead(t, s);
      TailCounts(s);
      TailCounts(t);
      SortedUnique(s[1..], t[1..]);
      assert s == [s[0]] + s[1..] && t == [t[0]] + t[1..];
    }
  }

  lemma TailCounts(s: seq<nat>)
    requires s != []
    ensures multiset(s[1..]) == multiset(s) - multiset{s[0]}
  {
    assert s == [s[0]] + s[1..];
  }

  lemma SortedHead(s: seq<nat>, t: seq<nat>)
    requires s != [] && t != [] && Sorted(s) && multiset(s) == multiset(t)
    ensures s[0] <= t[0]
  {
    assert t[0] in multiset(s);
    assert s == [s[0]] + s[1..];
  }

  /** The elements outside a set, in order. */
  function Outside(s: seq<nat>, drop: set<nat>): (r: seq<nat>)
    ensures forall x :: multiset(r)[x] == if x in drop then 0 else multiset(s)[x]
  {
    if s == [] then []
    else
      var last := s[|s| - 1];
      assert s == s[..|s| - 1] + [last];
      Outside(s[..|s| - 1], drop) + (if last in drop then [] else [last])
  }

  lemma DistinctByCount<T>(s: seq<T>)
    ensures Distinct(s) <==> forall x :: multiset(s)[x] <= 1
  {
    if Distinct(s) {
      DistinctCounts(s);
    } else {
      var i, j :| 0 <= i < j < |s| && s[i] == s[j];
      assert s == s[..j] + [s[j]] + s[j + 1..];
      assert s[i] in s[..j];
      assert multiset(s)[s[i]] >= 2;
    }
  }

  lemma {:induction false} DistinctCounts<T>(s: seq<T>)
    requires Distinct(s)
    ensures forall x :: multiset(s)[x] <= 1
  {
    if s != [] {
      var n := |s| - 1;
      assert s == s[..n] + [s[n]];
      DistinctCounts(s[..n]);
    }
  }

  lemma DistinctSnoc<T>(s: seq<T>, x: T)
    ensures Distinct<T>([])
    ensures Distinct(s + [x]) <==> Distinct(s) && x !in s
  {
    var t := s + [x];
    if Distinct(t) {
      forall i, j | 0 <= i < j < |s| ensures s[i] != s[j] { assert t[i] != t[j]; }
      assert t[|s|] == x;
      forall i | 0 <= i < |s| ensures s[i] != x { assert t[i] != t[|s|]; }
    }
  }

  /** A list with the elements of `drop` replaced by `more`, sorted. */
  function Replaced(own: seq<nat>, drop: set<nat>, more: seq<nat>): (r: seq<nat>)
    ensures forall x :: multiset(r)[x] == (if x in drop then 0 else multiset(own)[x]) + multiset(more)[x]
  {
    Sort(Outside(own, drop) + more)
  }

  lemma ReplacedHolds(own: seq<nat>, drop: set<nat>, more: seq<nat>)
    requires Distinct(own) && Distinct(more) && forall x :: x in more ==> x in drop
    ensures Distinct(Replaced(own, drop, more))
    ensures forall x :: x in Replaced(own, drop, more) <==> (x in own && x !in drop) || x in more
  {
    hide Distinct;
    DistinctByCount(own);
    DistinctByCount(more);
    var r := Replaced(own, drop, more);
    forall x ensures multiset(r)[x] <= 1 { assert x in more <==> x in multiset(more); }
    DistinctByCount(r);
    forall x ensures x in r <==> (x in own && x !in drop) || x in more {
      assert x in r <==> x in multiset(r);
      assert x in own <==> x in multiset(own);
      assert x in more <==> x in multiset(more);
    }
  }

  /** Replacing the same elements again changes nothing. */
  lemma ReplacedTwice(own: seq<nat>, drop: set<nat>, more: seq<nat>)
    requires forall x :: x in more ==> x in drop
    ensures Replaced(Replaced(own, drop, more), drop, more) == Replaced(own, drop, more)
  {
    var once := Replaced(own, drop, more);
    var twice := Replaced(once, drop, more);
    forall x ensures multiset(twice)[x] == multiset(once)[x] {
      if x !in drop { assert x !in multiset(more); }
    }
    SortedUnique(twice, once);
  }

  /** A list without repetition is no longer than one that holds all of it. */
  lemma {:induction false} DistinctFits<T>(s: seq<T>, t: seq<T>)
    requires Distinct(s) && forall x :: x in s ==> x in t
    ensures |s| <= |t|
  {
    if s != [] {
      assert s[0] in s;
      var i :| 0 <= i < |t| && t[i] == s[0];
      var rest := t[..i] + t[i + 1..];
      forall x | x in s[1..] ensures x in rest {
        assert x in s && x in t;
        var j :| 0 <= j < |t| && t[j] == x;
        assert t[j] == rest[if j < i then j else j - 1];
      }
      DistinctFits(s[1..], rest);
    }
  }
}
