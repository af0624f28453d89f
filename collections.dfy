/** Python's `set(list)` and `dict.get(key, 0)` over Dafny's collections. */
module Collections {

  /** `set(xs)` */
  function SetOf<T>(xs: seq<T>): set<T> {
    set x | x in xs
  }

  lemma {:induction false} SetOfSize<T>(xs: seq<T>)
    ensures |SetOf(xs)| <= |xs|
  {
    if xs != [] {
      var init := xs[..|xs| - 1];
      SetOfSize(init);
      assert SetOf(xs) == SetOf(init) + {xs[|xs| - 1]};
    }
  }

  lemma SubsetSize<T>(a: set<T>, b: set<T>)
    requires a <= b
    ensures |a| <= |b|
  {
    assert b == a + (b - a);
  }

  /** `d.get(k, 0)` on an integer-valued dict. */
  function Get(m: map<int, int>, k: int): int {
    if k in m then m[k] else 0
  }
}
