/**
 The byte order Rust gives strings, and what `Vec::sort` and `Vec::dedup` make of it.

 UTF-8 keeps code point order, so comparing characters one by one is the order of the
 bytes. A sequence without repeats in this order is determined by its set of elements, which
 is what lets a store answer in any order and still produce one document.
 */
module Ordering {

  predicate Less(a: string, b: string) {
    b != [] && (a == [] || a[0] < b[0] || (a[0] == b[0] && Less(a[1..], b[1..])))
  }

  ghost predicate Sorted(s: seq<string>) {
    forall i, j :: 0 <= i < j < |s| ==> !Less(s[j], s[i])
  }

  ghost predicate StrictlySorted(s: seq<string>) {
    forall i, j :: 0 <= i < j < |s| ==> Less(s[i], s[j])
  }

  lemma {:induction false} LessIsTotal(a: string, b: string)
    ensures Less(a, b) || a == b || Less(b, a)
    ensures !(Less(a, b) && Less(b, a))
    ensures Less(a, b) ==> a != b
  {
    if a != [] && b != [] && a[0] == b[0] {
      LessIsTotal(a[1..], b[1..]);
      assert a == [a[0]] + a[1..] && b == [b[0]] + b[1..];
    }
  }

  lemma {:induction false} LessIsTransitive(a: string, b: string, c: string)
    requires Less(a, b) && Less(b, c)
    ensures Less(a, c)
  {
    if a != [] && a[0] == b[0] == c[0] {
      LessIsTransitive(a[1..], b[1..], c[1..]);
    }
  }

  /** `x` put where it belongs in a sorted sequence. */
  function Insert(x: string, s: seq<string>): (r: seq<string>)
    ensures multiset(r) == multiset(s) + multiset{x}
    ensures Sorted(s) ==> Sorted(r)
  {
    if s == [] then
      [x]
    else if Less(s[0], x) then
      var rest := Insert(x, s[1..]);
      assert s == [s[0]] + s[1..];
      assert Sorted(s) ==> Sorted([s[0]] + rest) by {
        if Sorted(s) { FrontKeepsSorted(s[0], x, s[1..], rest); }
      }
      [s[0]] + rest
    else
      assert Sorted(s) ==> Sorted([x] + s) by {
        if Sorted(s) { NewFrontIsSorted(x, s); }
      }
      [x] + s
  }

  lemma FrontKeepsSorted(front: string, x: string, tail: seq<string>, rest: seq<string>)
    requires Sorted([front] + tail) && Sorted(rest) && Less(front, x)
    requires multiset(rest) == multiset(tail) + multiset{x}
    ensures Sorted([front] + rest)
  {
    var all := [front] + rest;
    forall i, j | 0 <= i < j < |all| ensures !Less(all[j], all[i]) {
      if i == 0 {
        assert all[j] == rest[j - 1] && rest[j - 1] in multiset(rest);
        if all[j] == x {
          LessIsTotal(front, x);
        } else {
          assert all[j] in multiset(tail);
          var k :| 0 <= k < |tail| && tail[k] == all[j];
          var whole := [front] + tail;
          assert !Less(whole[k + 1], whole[0]);
        }
      } else {
        assert all[i] == rest[i - 1] && all[j] == rest[j - 1];
      }
    }
  }

  lemma NewFrontIsSorted(x: string, s: seq<string>)
    requires Sorted(s) && s != [] && !Less(s[0], x)
    ensures Sorted([x] + s)
  {
    var all := [x] + s;
    forall i, j | 0 <= i < j < |all| ensures !Less(all[j], all[i]) {
      assert all[j] == s[j - 1];
      if i == 0 {
        if Less(s[j - 1], x) {
          LessIsTotal(s[0], x);
          if x != s[0] { LessIsTransitive(s[j - 1], x, s[0]); }
          LessIsTotal(s[0], s[j - 1]);
        }
      } else {
        assert all[i] == s[i - 1];
      }
    }
  }

  /** `Vec::sort`. */
  function Sort(s: seq<string>): (r: seq<string>)
    ensures Sorted(r)
    ensures multiset(r) == multiset(s)
  {
    if s == [] then
      []
    else
      assert s == [s[0]] + s[1..];
      Insert(s[0], Sort(s[1..]))
  }

  lemma HeadIsLeast(a: seq<string>, x: string)
    requires Sorted(a) && a != [] && x in multiset(a)
    ensures !Less(x, a[0])
  {
    var k :| 0 <= k < |a| && a[k] == x;
    LessIsTotal(x, a[0]);
  }

  /** A sorted sequence is determined by its elements and how often each occurs. */
  lemma {:induction false} SortedIsUnique(a: seq<string>, b: seq<string>)
    requires Sorted(a) && Sorted(b) && multiset(a) == multiset(b)
    ensures a == b
  {
    assert |multiset(a)| == |a| && |multiset(b)| == |b|;
    if a != [] {
      HeadIsLeast(a, b[0]);
      HeadIsLeast(b, a[0]);
      LessIsTotal(a[0], b[0]);
      assert a == [a[0]] + a[1..] && b == [b[0]] + b[1..];
      assert multiset(a[1..]) == multiset(a) - multiset{a[0]} == multiset(b[1..]);
      SortedIsUnique(a[1..], b[1..]);
    }
  }

  /** `Vec::dedup`: an element equal to its predecessor is dropped. */
  function Dedup(s: seq<string>): (r: seq<string>)
    ensures forall x :: x in r <==> x in s
    ensures s != [] ==> r != [] && r[0] == s[0]
    ensures |r| <= |s|
  {
    if |s| < 2 then
      s
    else
      var rest := Dedup(s[1..]);
      assert forall x :: x in s <==> x == s[0] || x in s[1..];
      if s[0] == s[1] then rest else [s[0]] + rest
  }

  lemma {:induction false} DedupIsStrict(s: seq<string>)
    requires Sorted(s)
    ensures StrictlySorted(Dedup(s))
  {
    if |s| >= 2 {
      DedupIsStrict(s[1..]);
      var rest := Dedup(s[1..]);
      if s[0] != s[1] {
        forall j | 0 <= j < |rest| ensures Less(s[0], rest[j]) {
          assert rest[j] in s[1..];
          assert !Less(s[1], s[0]);
          LessIsTotal(s[0], s[1]);
          if j > 0 { LessIsTransitive(s[0], s[1], rest[j]); }
        }
      }
    }
  }

  /** A sequence without repeats in ascending order is determined by its elements. */
  lemma {:induction false} StrictlySortedIsUnique(a: seq<string>, b: seq<string>)
    requires StrictlySorted(a) && StrictlySorted(b)
    requires forall x :: x in a <==> x in b
    ensures a == b
  {
    assert a == [] <==> b == [] by {
      if a != [] { assert a[0] in a; }
      if b != [] { assert b[0] in b; }
    }
    if a != [] {
      LeastIsFirst(a, b);
      LeastIsFirst(b, a);
      LessIsTotal(a[0], b[0]);
      forall x ensures x in a[1..] <==> x in b[1..] {
        TailDropsFirst(a, x);
        TailDropsFirst(b, x);
      }
      StrictlySortedIsUnique(a[1..], b[1..]);
      assert a == [a[0]] + a[1..] && b == [b[0]] + b[1..];
    }
  }

  lemma LeastIsFirst(a: seq<string>, b: seq<string>)
    requires StrictlySorted(a) && a != [] && b != [] && b[0] in a
    ensures a[0] == b[0] || Less(a[0], b[0])
  {
    var k :| 0 <= k < |a| && a[k] == b[0];
  }

  lemma TailDropsFirst(a: seq<string>, x: string)
    requires StrictlySorted(a) && a != []
    ensures x in a[1..] <==> x in a && x != a[0]
  {
    assert a == [a[0]] + a[1..];
    if x in a[1..] {
      var k :| 0 <= k < |a[1..]| && a[1..][k] == x;
      assert Less(a[0], a[k + 1]);
      LessIsTotal(a[0], x);
    }
  }

  /** The elements of a set in ascending order: the one listing a store can honestly give. */
  ghost function Ascending(s: set<string>): (r: seq<string>) {
    if s == {} then [] else [Least(s)] + Ascending(s - {Least(s)})
  }

  lemma {:induction false} AscendingListsSet(s: set<string>)
    ensures StrictlySorted(Ascending(s))
    ensures forall x :: x in Ascending(s) <==> x in s
    ensures |Ascending(s)| == |s|
  {
    if s != {} {
      var least := Least(s);
      AscendingListsSet(s - {least});
      var rest := Ascending(s - {least});
      assert forall x :: x in [least] + rest <==> x in s;
      assert forall j :: 0 <= j < |rest| ==> rest[j] in s && rest[j] != least;
    }
  }

  ghost function Least(s: set<string>): (r: string)
    requires s != {}
    ensures IsLeast(r, s)
  {
    assert exists x :: IsLeast(x, s) by { var x := HasLeast(s); }
    var least :| IsLeast(least, s);
    least
  }

  ghost predicate IsLeast(x: string, s: set<string>) {
    x in s && forall y :: y in s ==> y == x || Less(x, y)
  }

  lemma {:induction false} HasLeast(s: set<string>) returns (least: string)
    requires s != {}
    ensures IsLeast(least, s)
    decreases |s|
  {
    var x :| x in s;
    least := x;
    if s != {x} {
      var m := HasLeast(s - {x});
      LessIsTotal(x, m);
      if Less(x, m) {
        forall y | y in s ensures y == x || Less(x, y) {
          if y != x && y != m { LessIsTransitive(x, m, y); }
        }
      } else {
        least := m;
      }
    }
  }

  /** Sorting and dropping repeats gives the ascending listing of the set, whatever the order was. */
  lemma SortDedupIsAscending(s: seq<string>)
    ensures StrictlySorted(Dedup(Sort(s)))
    ensures Dedup(Sort(s)) == Ascending(set x | x in s)
    ensures |Dedup(Sort(s))| == |set x | x in s|
  {
    DedupIsStrict(Sort(s));
    var listed := Ascending(set x | x in s);
    AscendingListsSet(set x | x in s);
    forall x ensures x in Dedup(Sort(s)) <==> x in listed {
      assert x in s <==> x in multiset(s);
      assert x in Sort(s) <==> x in multiset(Sort(s));
    }
    StrictlySortedIsUnique(Dedup(Sort(s)), listed);
  }
}
