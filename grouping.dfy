/** Python dicts used as counters and group-bys: keys in the order they
    were first inserted, and the number of times each key was seen. */
module Grouping {

  /** No key appears twice. */
  ghost predicate NoDuplicates<K>(ks: seq<K>) {
    forall i, j :: 0 <= i < j < |ks| ==> ks[i] != ks[j]
  }

  /** The keys of a dict filled from `ks`, in insertion order. */
  function Distinct<K(==)>(ks: seq<K>): seq<K> {
    if ks == [] then []
    else
      var seen := Distinct(ks[..|ks| - 1]);
      if ks[|ks| - 1] in seen then seen else seen + [ks[|ks| - 1]]
  }

  lemma {:induction false} DistinctKeys<K>(ks: seq<K>)
    ensures forall k :: k in Distinct(ks) <==> k in ks
    ensures NoDuplicates(Distinct(ks))
  {
    if ks != [] {
      var init := ks[..|ks| - 1];
      DistinctKeys(init);
      assert ks == init + [ks[|ks| - 1]];
    }
  }

  /** The key of every element, in order: the sequence a group-by walks. */
  function KeysOf<T, K>(s: seq<T>, key: T -> K): seq<K> {
    if s == [] then [] else KeysOf(s[..|s| - 1], key) + [key(s[|s| - 1])]
  }

  lemma {:induction false} KeysOfAt<T, K>(s: seq<T>, key: T -> K)
    ensures |KeysOf(s, key)| == |s|
    ensures forall i :: 0 <= i < |s| ==> KeysOf(s, key)[i] == key(s[i])
  {
    if s != [] {
      KeysOfAt(s[..|s| - 1], key);
    }
  }

  /** `sum(counter[k] for k in keys)` for the counter filled from `ks`. */
  function SumCounts<K(==)>(keys: seq<K>, ks: seq<K>): nat {
    if keys == [] then 0
    else SumCounts(keys[..|keys| - 1], ks) + multiset(ks)[keys[|keys| - 1]]
  }

  /** How many times `k` occurs in `keys`. */
  function Occurrences<K(==)>(keys: seq<K>, k: K): nat {
    multiset(keys)[k]
  }

  lemma {:induction false} SumCountsSnoc<K>(keys: seq<K>, ks: seq<K>, x: K)
    ensures SumCounts(keys, ks + [x]) == SumCounts(keys, ks) + Occurrences(keys, x)
  {
    if keys != [] {
      var init := keys[..|keys| - 1];
      SumCountsSnoc(init, ks, x);
      assert keys == init + [keys[|keys| - 1]];
    }
  }

  lemma {:induction false} SingleOccurrence<K>(keys: seq<K>, k: K)
    requires NoDuplicates(keys) && k in keys
    ensures Occurrences(keys, k) == 1
  {
    var init, last := keys[..|keys| - 1], keys[|keys| - 1];
    assert keys == init + [last];
    if k == last {
      assert k !in init;
    } else {
      SingleOccurrence(init, k);
    }
  }

  /** The counts of a counter over all of its keys add up to the number of
      insertions, and so do the counts of any sub-counter whose keys are
      among them. */
  lemma {:induction false} SumCountsIsLength<K>(keys: seq<K>, ks: seq<K>)
    requires NoDuplicates(keys)
    requires forall k :: k in ks ==> k in keys
    ensures SumCounts(keys, ks) == |ks|
  {
    if ks == [] {
      SumCountsEmpty(keys);
    } else {
      var init, last := ks[..|ks| - 1], ks[|ks| - 1];
      assert ks == init + [last];
      SumCountsIsLength(keys, init);
      SumCountsSnoc(keys, init, last);
      SingleOccurrence(keys, last);
    }
  }

  lemma {:induction false} SumCountsEmpty<K>(keys: seq<K>)
    ensures SumCounts(keys, []) == 0
  {
    if keys != [] {
      SumCountsEmpty(keys[..|keys| - 1]);
    }
  }

  /** `sum(f(x) for x in s)` */
  function SumBy<T>(s: seq<T>, f: T -> int): int {
    if s == [] then 0 else SumBy(s[..|s| - 1], f) + f(s[|s| - 1])
  }

  lemma {:induction false} SumByAppend<T>(a: seq<T>, b: seq<T>, f: T -> int)
    ensures SumBy(a + b, f) == SumBy(a, f) + SumBy(b, f)
    decreases |b|
  {
    if b == [] {
      assert a + b == a;
    } else {
      var init := b[..|b| - 1];
      SumByAppend(a, init, f);
      assert (a + b)[..|a + b| - 1] == a + init;
    }
  }

  /** Taking the last element off one list and the same value off the
      other keeps the two lists permutations of each other. */
  lemma RemoveMatching<T>(a: seq<T>, b: seq<T>, k: int)
    requires multiset(a) == multiset(b) && a != []
    requires 0 <= k < |b| && b[k] == a[|a| - 1]
    ensures multiset(a[..|a| - 1]) == multiset(b[..k] + b[k + 1..])
  {
    var x := a[|a| - 1];
    assert a == a[..|a| - 1] + [x];
    assert b == b[..k] + [x] + b[k + 1..];
    assert multiset(b) == multiset(b[..k]) + multiset{x} + multiset(b[k + 1..]);
    assert multiset(a[..|a| - 1]) == multiset(a) - multiset{x};
  }

  /** Reordering a list does not change its sum. */
  lemma {:induction false} SumByPermutation<T>(a: seq<T>, b: seq<T>, f: T -> int)
    requires multiset(a) == multiset(b)
    ensures SumBy(a, f) == SumBy(b, f)
    decreases |a|
  {
    if a != [] {
      var x := a[|a| - 1];
      assert x in multiset(b);
      var k :| 0 <= k < |b| && b[k] == x;
      var rest := b[..k] + b[k + 1..];
      RemoveMatching(a, b, k);
      SumByPermutation(a[..|a| - 1], rest, f);
      assert b == b[..k] + [x] + b[k + 1..];
      SumByAppend(b[..k] + [x], b[k + 1..], f);
      SumByAppend(b[..k], [x], f);
      SumByAppend(b[..k], b[k + 1..], f);
      assert SumBy([x], f) == f(x) by {
        assert [x][..0] == [];
      }
    }
  }

  lemma {:induction false} CountTwoPositions<K>(s: seq<K>, i: int, j: int)
    requires 0 <= i < j < |s|
    ensures s[i] == s[j] ==> multiset(s)[s[i]] >= 2
  {
    assert s == s[..j] + [s[j]] + s[j + 1..];
    assert s[..j][i] == s[i];
  }

  /** Reordering a list without repeats leaves it without repeats. */
  lemma PermutationNoDuplicates<K>(a: seq<K>, b: seq<K>)
    requires NoDuplicates(a) && multiset(a) == multiset(b)
    ensures NoDuplicates(b)
  {
    forall i, j | 0 <= i < j < |b|
      ensures b[i] != b[j]
    {
      CountTwoPositions(b, i, j);
      assert b[i] in multiset(a);
      SingleOccurrence(a, b[i]);
    }
  }

  /** Items that carry distinct keys keep distinct keys after any
      reordering. */
  lemma KeysStayDistinct<T, K>(l: seq<T>, keys: seq<K>, key: T -> K, reordered: seq<T>)
    requires |l| == |keys| && NoDuplicates(keys)
    requires forall i :: 0 <= i < |l| ==> key(l[i]) == keys[i]
    requires multiset(reordered) == multiset(l)
    ensures forall i, j :: 0 <= i < j < |reordered| ==> key(reordered[i]) != key(reordered[j])
  {
    assert NoDuplicates(l);
    PermutationNoDuplicates(l, reordered);
    forall i, j | 0 <= i < j < |reordered|
      ensures key(reordered[i]) != key(reordered[j])
    {
      assert reordered[i] in multiset(l) && reordered[j] in multiset(l);
      var p :| 0 <= p < |l| && l[p] == reordered[i];
      var q :| 0 <= q < |l| && l[q] == reordered[j];
      assert p != q;
      assert keys[p] != keys[q];
    }
  }

  /** `sum(m[k] for k in keys)` */
  function SumValues<K>(m: map<K, int>, keys: seq<K>): int {
    if keys == [] then 0
    else SumValues(m, keys[..|keys| - 1]) + (if keys[|keys| - 1] in m then m[keys[|keys| - 1]] else 0)
  }

  /** Summing a counter's values over some keys is summing the counts. */
  lemma {:induction false} SumValuesOfCounts<K>(m: map<K, int>, keys: seq<K>, ks: seq<K>)
    requires forall k :: k in keys ==> k in m && m[k] == multiset(ks)[k]
    ensures SumValues(m, keys) == SumCounts(keys, ks)
  {
    if keys != [] {
      var init := keys[..|keys| - 1];
      assert forall k :: k in init ==> k in keys;
      SumValuesOfCounts(m, init, ks);
      assert keys[|keys| - 1] in keys;
    }
  }
}
