/** Python's `list.sort`, a stable sort, as an insertion sort over a
    "strictly comes before" relation. Sorting by a key with `reverse=True`
    is the relation "has a greater key"; equal elements keep their order
    in both directions. */
module Sorting {

  /** What `list.sort` assumes of its comparison: "comes before" is
      asymmetric and "does not come before" is transitive. */
  ghost predicate StrictWeakOrder<T(!new)>(before: (T, T) -> bool) {
    && (forall a, b :: before(a, b) ==> !before(b, a))
    && (forall a, b, c :: !before(a, b) && !before(b, c) ==> !before(a, c))
  }

  /** No element comes strictly before an element on its left. */
  ghost predicate SortedBy<T>(s: seq<T>, before: (T, T) -> bool) {
    forall i, j :: 0 <= i < j < |s| ==> !before(s[j], s[i])
  }

  /** Places `x` in front of the first element of `s` that does not come
      strictly before it, so `x` precedes the elements equal to it. */
  function Insert<T>(x: T, s: seq<T>, before: (T, T) -> bool): (r: seq<T>)
    ensures multiset(r) == multiset(s) + multiset{x}
    ensures |r| == |s| + 1
  {
    if s == [] || !before(s[0], x) then [x] + s
    else
      assert s == [s[0]] + s[1..];
      [s[0]] + Insert(x, s[1..], before)
  }

  /** The stable sort: the head of the input goes in front of every later
      element equal to it. */
  function SortBy<T>(s: seq<T>, before: (T, T) -> bool): (r: seq<T>)
    ensures multiset(r) == multiset(s)
    ensures |r| == |s|
  {
    if s == [] then []
    else
      assert s == [s[0]] + s[1..];
      Insert(s[0], SortBy(s[1..], before), before)
  }

  lemma {:induction false} InsertSorted<T(!new)>(x: T, s: seq<T>, before: (T, T) -> bool)
    requires StrictWeakOrder(before)
    requires SortedBy(s, before)
    ensures SortedBy(Insert(x, s, before), before)
  {
    if s == [] || !before(s[0], x) {
      var r := [x] + s;
      forall i, j | 0 <= i < j < |r| ensures !before(r[j], r[i]) {
        if i == 0 && j > 1 {
          assert !before(s[j - 1], s[0]);
        }
      }
    } else {
      var t := Insert(x, s[1..], before);
      InsertSorted(x, s[1..], before);
      var r := [s[0]] + t;
      forall j | 0 < j < |r| ensures !before(r[j], s[0]) {
        var e := t[j - 1];
        assert e in multiset(t);
        assert e in multiset(s[1..]) || e == x;
        if e != x {
          var k :| 0 <= k < |s[1..]| && s[1..][k] == e;
          assert s[k + 1] == e;
        }
      }
    }
  }

  lemma {:induction false} SortBySorted<T(!new)>(s: seq<T>, before: (T, T) -> bool)
    requires StrictWeakOrder(before)
    ensures SortedBy(SortBy(s, before), before)
  {
    if s != [] {
      SortBySorted(s[1..], before);
      InsertSorted(s[0], SortBy(s[1..], before), before);
    }
  }

  /** Sorting neither adds nor drops an element. */
  lemma SortByMembers<T>(s: seq<T>, before: (T, T) -> bool, x: T)
    ensures x in SortBy(s, before) <==> x in s
  {
    assert x in SortBy(s, before) <==> x in multiset(SortBy(s, before));
    assert x in s <==> x in multiset(s);
  }

  /** `s[k]` is the first element of `s` that nothing in `s` comes
      strictly before; every earlier element comes strictly after it. */
  ghost predicate FirstLeast<T>(s: seq<T>, k: int, before: (T, T) -> bool) {
    && 0 <= k < |s|
    && (forall i :: 0 <= i < |s| ==> !before(s[i], s[k]))
    && (forall i :: 0 <= i < k ==> before(s[k], s[i]))
  }

  /** Inserting into a non-empty list changes its head only when the new
      element does not come after the old head. */
  lemma InsertHead<T>(x: T, s: seq<T>, before: (T, T) -> bool)
    requires s != []
    ensures Insert(x, s, before)[0] == if before(s[0], x) then s[0] else x
  {
  }

  /** The head of the input stays first when nothing comes before it. */
  lemma HeadStaysFirst<T(!new)>(s: seq<T>, k': nat, before: (T, T) -> bool)
    requires StrictWeakOrder(before)
    requires |s| > 1 && FirstLeast(s[1..], k', before) && !before(s[k' + 1], s[0])
    ensures FirstLeast(s, 0, before)
  {
    var tail := s[1..];
    forall i | 0 < i < |s| ensures !before(s[i], s[0]) {
      assert !before(tail[i - 1], tail[k']);
    }
  }

  /** Otherwise the first least element of the tail is the first least
      element overall. */
  lemma TailLeastFirst<T(!new)>(s: seq<T>, k': nat, before: (T, T) -> bool)
    requires StrictWeakOrder(before)
    requires |s| > 1 && FirstLeast(s[1..], k', before) && before(s[k' + 1], s[0])
    ensures FirstLeast(s, k' + 1, before)
  {
    var tail, k := s[1..], k' + 1;
    forall i | 0 < i < k ensures before(s[k], s[i]) {
      assert before(tail[k'], tail[i - 1]);
    }
    forall i | 0 < i < |s| ensures !before(s[i], s[k]) {
      assert !before(tail[i - 1], tail[k']);
    }
  }

  /** Taking the head of the sorted list picks the first least element of
      the input: ties go to the element seen first. */
  lemma {:induction false} SortByHead<T(!new)>(s: seq<T>, before: (T, T) -> bool) returns (k: nat)
    requires StrictWeakOrder(before)
    requires |s| > 0
    ensures FirstLeast(s, k, before) && SortBy(s, before)[0] == s[k]
  {
    if |s| == 1 {
      k := 0;
    } else {
      var t := SortBy(s[1..], before);
      var k' := SortByHead(s[1..], before);
      assert t[0] == s[k' + 1];
      InsertHead(s[0], t, before);
      assert SortBy(s, before) == Insert(s[0], t, before);
      if !before(t[0], s[0]) {
        k := 0;
        HeadStaysFirst(s, k', before);
      } else {
        k := k' + 1;
        TailLeastFirst(s, k', before);
      }
    }
  }

  /** Python's `<` on `str`: code point by code point, a proper prefix
      coming first. */
  predicate StrLess(a: string, b: string) {
    if a == [] then b != []
    else if b == [] then false
    else if a[0] != b[0] then a[0] < b[0]
    else StrLess(a[1..], b[1..])
  }

  lemma {:induction false} StrLessIrreflexive(a: string)
    ensures !StrLess(a, a)
  {
    if a != [] {
      StrLessIrreflexive(a[1..]);
    }
  }

  lemma {:induction false} StrLessTransitive(a: string, b: string, c: string)
    requires StrLess(a, b) && StrLess(b, c)
    ensures StrLess(a, c)
  {
    if a != [] && b != [] && c != [] && a[0] == b[0] == c[0] {
      StrLessTransitive(a[1..], b[1..], c[1..]);
    }
  }

  /** Two different strings are ordered one way and not the other. */
  lemma {:induction false} StrLessTotal(a: string, b: string)
    ensures a != b <==> StrLess(a, b) || StrLess(b, a)
    ensures !(StrLess(a, b) && StrLess(b, a))
  {
    if a == b {
      StrLessIrreflexive(a);
    } else if a != [] && b != [] && a[0] == b[0] {
      StrLessTotal(a[1..], b[1..]);
      assert a == [a[0]] + a[1..] && b == [b[0]] + b[1..];
    }
  }

  /** Every element comes strictly before every element on its right. */
  ghost predicate StrictlySortedBy<T>(s: seq<T>, before: (T, T) -> bool) {
    forall i, j :: 0 <= i < j < |s| ==> before(s[i], s[j])
  }

  lemma FirstIsMember<T>(s: seq<T>)
    ensures s != [] ==> s[0] in s
  {
  }

  /** A list strictly ordered by a strict weak order is determined by its
      elements alone, whatever order they were produced in. */
  lemma {:induction false} StrictlySortedUnique<T(!new)>(a: seq<T>, b: seq<T>, before: (T, T) -> bool)
    requires StrictWeakOrder(before)
    requires StrictlySortedBy(a, before) && StrictlySortedBy(b, before)
    requires forall x :: x in a <==> x in b
    ensures a == b
  {
    if a == [] || b == [] {
      FirstIsMember(a);
      FirstIsMember(b);
    } else {
      assert a[0] in b && b[0] in a;
      assert a[0] == b[0];
      forall x
        ensures x in a[1..] <==> x in b[1..]
      {
        if x in a[1..] {
          var i :| 1 <= i < |a| && a[i] == x;
          assert before(a[0], x);
          assert x in b;
          var j :| 0 <= j < |b| && b[j] == x;
          assert j != 0;
          assert b[1..][j - 1] == x;
        }
        if x in b[1..] {
          var i :| 1 <= i < |b| && b[i] == x;
          assert before(b[0], x);
          assert x in a;
          var j :| 0 <= j < |a| && a[j] == x;
          assert j != 0;
          assert a[1..][j - 1] == x;
        }
      }
      StrictlySortedUnique(a[1..], b[1..], before);
      assert a == [a[0]] + a[1..] && b == [b[0]] + b[1..];
    }
  }
}
