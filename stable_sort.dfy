/**
 * Sorting the filtered product list with one of the three comparators of the
 * sort menu. `Array.prototype.sort` is stable (ECMA-262, 10th edition,
 * section 22.1.3.27), so the result is fully determined by the comparator:
 * it is modelled by a functional insertion sort `SortBy`, and the in-place
 * sort of the array by `SortInPlace`, which is proved to produce it.
 */
module StableSort {
  import opened Catalog

  /** The three sort menu entries that apply a comparator. */
  datatype SortOrder = PriceLow | PriceHigh | Rating

  /** The comparator handed to `sort`: negative means `a` goes first. */
  function Compare(o: SortOrder, a: Product, b: Product): int
  {
    match o
    case PriceLow => a.price - b.price
    case PriceHigh => b.price - a.price
    case Rating => b.rating - a.rating
  }

  /** The sort key each comparator compares: the comparator is `Key(a) - Key(b)`. */
  function Key(o: SortOrder, p: Product): int
  {
    match o
    case PriceLow => p.price
    case PriceHigh => -p.price
    case Rating => -p.rating
  }

  /** `s` is ordered by the comparator. */
  ghost predicate Sorted(s: seq<Product>, o: SortOrder)
  {
    forall i, j :: 0 <= i < j < |s| ==> Compare(o, s[i], s[j]) <= 0
  }

  /** The products of `s` whose key is `k`, in their order in `s`. */
  function WithKey(s: seq<Product>, o: SortOrder, k: int): seq<Product>
  {
    if s == [] then []
    else WithKey(s[..|s| - 1], o, k) + (if Key(o, s[|s| - 1]) == k then [s[|s| - 1]] else [])
  }

  /** Inserts `x` after every element of `t` that the comparator does not put after it. */
  function Insert(t: seq<Product>, x: Product, o: SortOrder): seq<Product>
    decreases |t|
  {
    if t == [] || Compare(o, t[|t| - 1], x) <= 0 then t + [x]
    else Insert(t[..|t| - 1], x, o) + [t[|t| - 1]]
  }

  /** The stable sort of `s` by the comparator of `o`. */
  function SortBy(s: seq<Product>, o: SortOrder): seq<Product>
  {
    if s == [] then [] else Insert(SortBy(s[..|s| - 1], o), s[|s| - 1], o)
  }

  lemma {:induction false} InsertPermutes(t: seq<Product>, x: Product, o: SortOrder)
    ensures multiset(Insert(t, x, o)) == multiset(t) + multiset{x}
    decreases |t|
  {
    if t != [] && Compare(o, t[|t| - 1], x) > 0 {
      var init, last := t[..|t| - 1], t[|t| - 1];
      InsertPermutes(init, x, o);
      assert t == init + [last];
    }
  }

  /** A product that no element of a sorted sequence goes after can be appended to it. */
  lemma SortedSnoc(r: seq<Product>, y: Product, o: SortOrder)
    requires Sorted(r, o)
    requires forall i :: 0 <= i < |r| ==> Compare(o, r[i], y) <= 0
    ensures Sorted(r + [y], o)
  {
  }

  lemma {:induction false} InsertSorted(t: seq<Product>, x: Product, o: SortOrder)
    requires Sorted(t, o)
    ensures Sorted(Insert(t, x, o), o)
    decreases |t|
  {
    if t == [] || Compare(o, t[|t| - 1], x) <= 0 {
      SortedSnoc(t, x, o);
    } else {
      var init, last := t[..|t| - 1], t[|t| - 1];
      InsertSorted(init, x, o);
      InsertPermutes(init, x, o);
      var r := Insert(init, x, o);
      forall i | 0 <= i < |r| ensures Compare(o, r[i], last) <= 0 {
        assert r[i] in multiset(r);
        if r[i] != x {
          assert r[i] in multiset(init);
          var m :| 0 <= m < |init| && init[m] == r[i];
          assert t[m] == r[i];
        }
      }
      SortedSnoc(r, last, o);
    }
  }

  /** Appending one product extends its key class only. */
  lemma WithKeySnoc(s: seq<Product>, y: Product, o: SortOrder, k: int)
    ensures WithKey(s + [y], o, k) == WithKey(s, o, k) + (if Key(o, y) == k then [y] else [])
  {
    assert (s + [y])[..|s|] == s;
  }

  /**
   * The step of `InsertWithKey` past a last element `last` that goes after
   * `x`: such an element and `x` never share a key class.
   */
  lemma InsertWithKeyStep(init: seq<Product>, last: Product, r: seq<Product>, x: Product, o: SortOrder, k: int)
    requires Compare(o, last, x) > 0
    requires WithKey(r, o, k) == WithKey(init, o, k) + (if Key(o, x) == k then [x] else [])
    ensures WithKey(r + [last], o, k) == WithKey(init + [last], o, k) + (if Key(o, x) == k then [x] else [])
  {
    WithKeySnoc(r, last, o, k);
    WithKeySnoc(init, last, o, k);
    CompareIsKeyDifference(o, last, x);
    if Key(o, x) == k {
      assert Key(o, last) != k;
      assert WithKey(r + [last], o, k) == WithKey(r, o, k);
      assert WithKey(init + [last], o, k) == WithKey(init, o, k);
    } else {
      assert WithKey(r, o, k) == WithKey(init, o, k);
    }
  }

  /** Inserting `x` adds it to the end of its own key class and leaves the others alone. */
  lemma {:induction false} InsertWithKey(t: seq<Product>, x: Product, o: SortOrder, k: int)
    ensures WithKey(Insert(t, x, o), o, k) == WithKey(t, o, k) + (if Key(o, x) == k then [x] else [])
    decreases |t|
  {
    if t == [] || Compare(o, t[|t| - 1], x) <= 0 {
      WithKeySnoc(t, x, o, k);
    } else {
      var init, last := t[..|t| - 1], t[|t| - 1];
      assert t == init + [last];
      InsertWithKey(init, x, o, k);
      InsertWithKeyStep(init, last, Insert(init, x, o), x, o, k);
    }
  }

  /** Where the inner loop of the in-place sort stops, `Insert` puts `x`. */
  lemma {:induction false} InsertAt(t: seq<Product>, x: Product, o: SortOrder, j: nat)
    requires j <= |t|
    requires j == 0 || Compare(o, t[j - 1], x) <= 0
    requires forall m :: j <= m < |t| ==> Compare(o, t[m], x) > 0
    ensures Insert(t, x, o) == t[..j] + [x] + t[j..]
    decreases |t|
  {
    if j < |t| {
      var init, last := t[..|t| - 1], t[|t| - 1];
      assert Compare(o, last, x) > 0;
      assert Insert(t, x, o) == Insert(init, x, o) + [last];
      InsertAt(init, x, o, j);
      assert init[..j] == t[..j];
      assert init[j..] + [last] == t[j..];
    } else {
      assert t[..j] == t && t[j..] == [];
    }
  }

  /** `SortBy` is a permutation of its input. */
  lemma {:induction false} SortByPermutes(s: seq<Product>, o: SortOrder)
    ensures multiset(SortBy(s, o)) == multiset(s)
    decreases |s|
  {
    if s != [] {
      SortByPermutes(s[..|s| - 1], o);
      InsertPermutes(SortBy(s[..|s| - 1], o), s[|s| - 1], o);
      assert s == s[..|s| - 1] + [s[|s| - 1]];
    }
  }

  /** `SortBy` orders its result by the comparator. */
  lemma {:induction false} SortBySorted(s: seq<Product>, o: SortOrder)
    ensures Sorted(SortBy(s, o), o)
    decreases |s|
  {
    if s != [] {
      SortBySorted(s[..|s| - 1], o);
      InsertSorted(SortBy(s[..|s| - 1], o), s[|s| - 1], o);
    }
  }

  /** `SortBy` is stable: the products sharing a key keep their relative order. */
  lemma {:induction false} SortByStable(s: seq<Product>, o: SortOrder, k: int)
    ensures WithKey(SortBy(s, o), o, k) == WithKey(s, o, k)
    decreases |s|
  {
    if s != [] {
      SortByStable(s[..|s| - 1], o, k);
      InsertWithKey(SortBy(s[..|s| - 1], o), s[|s| - 1], o, k);
    }
  }

  /** The comparator is the difference of the keys, so it orders products by key. */
  lemma CompareIsKeyDifference(o: SortOrder, a: Product, b: Product)
    ensures Compare(o, a, b) == Key(o, a) - Key(o, b)
  {
  }

  /** The class of key `k` holds exactly the products of `s` with that key. */
  lemma {:induction false} WithKeyMembers(s: seq<Product>, o: SortOrder, k: int)
    ensures forall x :: x in WithKey(s, o, k) <==> x in s && Key(o, x) == k
    decreases |s|
  {
    if s != [] {
      WithKeyMembers(s[..|s| - 1], o, k);
      assert s == s[..|s| - 1] + [s[|s| - 1]];
    }
  }

  /** The last product of a sorted sequence has the greatest key. */
  lemma LastHasGreatestKey(r: seq<Product>, o: SortOrder)
    requires Sorted(r, o) && r != []
    ensures forall z :: z in r ==> Key(o, z) <= Key(o, r[|r| - 1])
  {
    forall z | z in r ensures Key(o, z) <= Key(o, r[|r| - 1]) {
      var m :| 0 <= m < |r| && r[m] == z;
      CompareIsKeyDifference(o, z, r[|r| - 1]);
    }
  }

  /** Sorted sequences with the same key classes end with products of the same key. */
  lemma SameLastKey(r: seq<Product>, q: seq<Product>, o: SortOrder)
    requires Sorted(r, o) && Sorted(q, o) && r != [] && q != []
    requires forall k :: WithKey(r, o, k) == WithKey(q, o, k)
    ensures Key(o, r[|r| - 1]) == Key(o, q[|q| - 1])
  {
    var x, y := r[|r| - 1], q[|q| - 1];
    LastHasGreatestKey(r, o);
    LastHasGreatestKey(q, o);
    WithKeyMembers(r, o, Key(o, y));
    WithKeyMembers(q, o, Key(o, y));
    WithKeyMembers(r, o, Key(o, x));
    WithKeyMembers(q, o, Key(o, x));
    assert y in WithKey(q, o, Key(o, y));
    assert x in WithKey(r, o, Key(o, x));
  }

  /** Removing equal-keyed last products keeps the key classes equal, and those products agree. */
  lemma DropLastSameClasses(r: seq<Product>, q: seq<Product>, r': seq<Product>, q': seq<Product>, o: SortOrder)
    requires r != [] && q != [] && Key(o, r[|r| - 1]) == Key(o, q[|q| - 1])
    requires r' == r[..|r| - 1] && q' == q[..|q| - 1]
    requires forall k :: WithKey(r, o, k) == WithKey(q, o, k)
    ensures r[|r| - 1] == q[|q| - 1]
    ensures forall k :: WithKey(r', o, k) == WithKey(q', o, k)
  {
    var x, y := r[|r| - 1], q[|q| - 1];
    var kx := Key(o, x);
    assert WithKey(r, o, kx) == WithKey(r', o, kx) + [x];
    assert WithKey(q, o, kx) == WithKey(q', o, kx) + [y];
    assert WithKey(r, o, kx)[|WithKey(r, o, kx)| - 1] == x;
    forall k ensures WithKey(r', o, k) == WithKey(q', o, k) {
      var tail := if Key(o, x) == k then [x] else [];
      assert WithKey(r, o, k) == WithKey(r', o, k) + tail;
      assert WithKey(q, o, k) == WithKey(q', o, k) + tail;
      assert WithKey(r', o, k) == WithKey(r, o, k)[..|WithKey(r', o, k)|];
    }
  }

  /** Two sorted sequences with the same key classes are equal. */
  lemma {:induction false} SortedSameClassesEqual(r: seq<Product>, q: seq<Product>, o: SortOrder)
    requires Sorted(r, o) && Sorted(q, o)
    requires forall k :: WithKey(r, o, k) == WithKey(q, o, k)
    ensures r == q
    decreases |r|
  {
    if r == [] {
      if q != [] {
        WithKeyMembers(q, o, Key(o, q[0]));
        assert false;
      }
    } else if q == [] {
      WithKeyMembers(r, o, Key(o, r[0]));
      assert false;
    } else {
      SameLastKey(r, q, o);
      var r', q' := r[..|r| - 1], q[..|q| - 1];
      DropLastSameClasses(r, q, r', q', o);
      SortedSameClassesEqual(r', q', o);
      assert r == r[..|r| - 1] + [r[|r| - 1]] && q == q[..|q| - 1] + [q[|q| - 1]];
    }
  }

  /**
   * Sorting is determined by the comparator: any rearrangement that is
   * ordered by it and keeps each key class in input order is `SortBy`, so the
   * engine's own stable algorithm yields the same array as this model.
   */
  lemma SortByIsUnique(s: seq<Product>, r: seq<Product>, o: SortOrder)
    requires Sorted(r, o)
    requires forall k :: WithKey(r, o, k) == WithKey(s, o, k)
    ensures r == SortBy(s, o)
  {
    SortBySorted(s, o);
    forall k ensures WithKey(SortBy(s, o), o, k) == WithKey(s, o, k) {
      SortByStable(s, o, k);
    }
    SortedSameClassesEqual(r, SortBy(s, o), o);
  }

  /**
   * One pass of the in-place sort: shifts the elements of the sorted prefix
   * `a[..i]` that go after `a[i]` one place right and drops `a[i]` into the gap.
   */
  method InsertInPlace(a: array<Product>, i: nat, o: SortOrder)
    requires i < a.Length
    modifies a
    ensures a[..i + 1] == Insert(old(a[..i]), old(a[i]), o)
    ensures a[i + 1..] == old(a[i + 1..])
  {
    var x := a[i];
    ghost var t := a[..i];
    ghost var rest := a[i + 1..];
    var j := i;
    while j > 0 && Compare(o, a[j - 1], x) > 0
      invariant 0 <= j <= i
      invariant forall m :: 0 <= m < j ==> a[m] == t[m]
      invariant forall m :: j < m <= i ==> a[m] == t[m - 1]
      invariant forall m :: j <= m < i ==> Compare(o, t[m], x) > 0
      invariant a[i + 1..] == rest
    {
      a[j] := a[j - 1];
      j := j - 1;
    }
    a[j] := x;
    ghost var expected := t[..j] + [x] + t[j..];
    forall m | 0 <= m <= i ensures a[m] == expected[m] {
      if m > j {
        assert expected[m] == t[m - 1];
      }
    }
    assert a[..i + 1] == expected;
    InsertAt(t, x, o, j);
  }

  /** `filtered.sort(comparator)`: sorts the array in place, stably. */
  method SortInPlace(a: array<Product>, o: SortOrder)
    modifies a
    ensures a[..] == SortBy(old(a[..]), o)
  {
    ghost var input := a[..];
    var i := 0;
    while i < a.Length
      invariant 0 <= i <= a.Length
      invariant a[..i] == SortBy(input[..i], o)
      invariant a[i..] == input[i..]
    {
      assert a[i] == input[i] && a[i + 1..] == input[i + 1..];
      InsertInPlace(a, i, o);
      assert input[..i + 1][..i] == input[..i];
      assert SortBy(input[..i + 1], o) == Insert(SortBy(input[..i], o), input[i], o);
      i := i + 1;
    }
    assert input[..a.Length] == input;
  }
}
