/**
 * The visible product list: the catalog filtered by category, price range and
 * search text, then optionally sorted by the sort menu's comparator.
 */
module ProductFilter {
  import opened Wrappers
  import opened Catalog
  import opened Text
  import opened StableSort

  /**
   * The filter state of the page: the selected category id (or "all"), the
   * price range in cents, the search box text and the sort menu value.
   */
  datatype Criteria = Criteria(selectedCategory: string, priceRange: (int, int), searchQuery: string, sortBy: string)

  predicate CategoryMatch(p: Product, c: Criteria)
  {
    c.selectedCategory == ALL || p.category == c.selectedCategory
  }

  predicate PriceMatch(p: Product, c: Criteria)
  {
    p.price >= c.priceRange.0 && p.price <= c.priceRange.1
  }

  predicate SearchMatch(p: Product, c: Criteria)
  {
    Includes(ToLower(p.name), ToLower(c.searchQuery))
  }

  /** The callback given to `productsData.filter`. */
  predicate Matches(p: Product, c: Criteria)
  {
    CategoryMatch(p, c) && PriceMatch(p, c) && SearchMatch(p, c)
  }

  /** `catalog.filter(...)`: the products that match, in catalog order. */
  function FilterProducts(catalog: seq<Product>, c: Criteria): (r: seq<Product>)
    ensures |r| <= |catalog|
  {
    if catalog == [] then []
    else
      var last := catalog[|catalog| - 1];
      FilterProducts(catalog[..|catalog| - 1], c) + (if Matches(last, c) then [last] else [])
  }

  /** The sort menu values that apply a comparator; any other value leaves catalog order. */
  function ParseSortBy(sortBy: string): Option<SortOrder>
  {
    if sortBy == "price-low" then Some(PriceLow)
    else if sortBy == "price-high" then Some(PriceHigh)
    else if sortBy == "rating" then Some(Rating)
    else None
  }

  /** The value of `filteredProducts` for the catalog and the criteria. */
  function Visible(catalog: seq<Product>, c: Criteria): seq<Product>
  {
    var filtered := FilterProducts(catalog, c);
    match ParseSortBy(c.sortBy)
    case None => filtered
    case Some(o) => SortBy(filtered, o)
  }

  /** The `useMemo` callback: filter into a fresh array, then sort it in place. */
  method FilteredProducts(catalog: seq<Product>, c: Criteria) returns (r: seq<Product>)
    ensures r == Visible(catalog, c)
  {
    var filtered := FilterProducts(catalog, c);
    var a := new Product[|filtered|](i requires 0 <= i < |filtered| => filtered[i]);
    assert a[..] == filtered;
    if c.sortBy == "price-low" {
      SortInPlace(a, PriceLow);
    } else if c.sortBy == "price-high" {
      SortInPlace(a, PriceHigh);
    } else if c.sortBy == "rating" {
      SortInPlace(a, Rating);
    }
    r := a[..];
  }

  /** Filtering a concatenation filters each part: the filter keeps catalog order. */
  lemma {:induction false} FilterAppend(a: seq<Product>, b: seq<Product>, c: Criteria)
    ensures FilterProducts(a + b, c) == FilterProducts(a, c) + FilterProducts(b, c)
    decreases |b|
  {
    if b == [] {
      assert a + b == a;
    } else {
      assert (a + b)[..|a + b| - 1] == a + b[..|b| - 1];
      FilterAppend(a, b[..|b| - 1], c);
    }
  }

  /** When every product matches, the filter returns the catalog unchanged. */
  lemma {:induction false} FilterKeepsAll(catalog: seq<Product>, c: Criteria)
    requires forall i :: 0 <= i < |catalog| ==> Matches(catalog[i], c)
    ensures FilterProducts(catalog, c) == catalog
    decreases |catalog|
  {
    if catalog != [] {
      FilterKeepsAll(catalog[..|catalog| - 1], c);
      assert catalog == catalog[..|catalog| - 1] + [catalog[|catalog| - 1]];
    }
  }

  /** The filter keeps exactly the catalog products that match. */
  lemma {:induction false} FilterMembers(catalog: seq<Product>, c: Criteria)
    ensures forall p :: p in FilterProducts(catalog, c) <==> p in catalog && Matches(p, c)
    decreases |catalog|
  {
    if catalog != [] {
      FilterMembers(catalog[..|catalog| - 1], c);
      assert catalog == catalog[..|catalog| - 1] + [catalog[|catalog| - 1]];
    }
  }

  /** The filtered list never holds a product more often than the catalog does. */
  lemma {:induction false} FilterSubMultiset(catalog: seq<Product>, c: Criteria)
    ensures multiset(FilterProducts(catalog, c)) <= multiset(catalog)
    decreases |catalog|
  {
    if catalog != [] {
      FilterSubMultiset(catalog[..|catalog| - 1], c);
      assert catalog == catalog[..|catalog| - 1] + [catalog[|catalog| - 1]];
    }
  }

  /** The search test does not depend on the case of the query's ASCII letters. */
  lemma SearchMatchIgnoresCase(p: Product, c: Criteria, q: string)
    requires SameUpToCase(c.searchQuery, q)
    ensures SearchMatch(p, c) <==> SearchMatch(p, c.(searchQuery := q))
  {
    ToLowerEqualIffSameUpToCase(c.searchQuery, q);
  }

  /** Typing the query in another case shows the same products in the same order. */
  lemma {:induction false} VisibleIgnoresQueryCase(catalog: seq<Product>, c: Criteria, q: string)
    requires SameUpToCase(c.searchQuery, q)
    ensures Visible(catalog, c.(searchQuery := q)) == Visible(catalog, c)
  {
    FilterIgnoresQueryCase(catalog, c, q);
  }

  /** The filter keeps the same products when the query differs only in case. */
  lemma {:induction false} FilterIgnoresQueryCase(catalog: seq<Product>, c: Criteria, q: string)
    requires SameUpToCase(c.searchQuery, q)
    ensures FilterProducts(catalog, c.(searchQuery := q)) == FilterProducts(catalog, c)
    decreases |catalog|
  {
    if catalog != [] {
      FilterIgnoresQueryCase(catalog[..|catalog| - 1], c, q);
      SearchMatchIgnoresCase(catalog[|catalog| - 1], c, q);
    }
  }

  /**
   * Soundness and completeness of the visible list: a product is shown if and
   * only if it is in the catalog and passes the category, price and search
   * tests; sorting neither adds nor drops a product.
   */
  lemma VisibleMembership(catalog: seq<Product>, c: Criteria)
    ensures forall p :: p in Visible(catalog, c) <==> p in catalog && Matches(p, c)
    ensures multiset(Visible(catalog, c)) == multiset(FilterProducts(catalog, c))
    ensures (forall i :: 0 <= i < |catalog| ==> !Matches(catalog[i], c)) ==> Visible(catalog, c) == []
  {
    var filtered := FilterProducts(catalog, c);
    FilterMembers(catalog, c);
    match ParseSortBy(c.sortBy)
    case None =>
    case Some(o) =>
      SortByPermutes(filtered, o);
      assert forall p :: p in Visible(catalog, c) <==> p in multiset(filtered);
  }

  /** Filtering and picking one key class commute. */
  lemma {:induction false} FilterWithKey(catalog: seq<Product>, c: Criteria, o: SortOrder, k: int)
    ensures WithKey(FilterProducts(catalog, c), o, k) == FilterProducts(WithKey(catalog, o, k), c)
    decreases |catalog|
  {
    if catalog != [] {
      var init, last := catalog[..|catalog| - 1], catalog[|catalog| - 1];
      FilterWithKey(init, c, o, k);
      var f := FilterProducts(init, c);
      var w := WithKey(init, o, k);
      var tail := if Matches(last, c) then [last] else [];
      var keyTail := if Key(o, last) == k then [last] else [];
      assert FilterProducts(catalog, c) == f + tail;
      if tail == [] {
        assert f + tail == f;
      } else {
        assert (f + tail)[..|f|] == f;
      }
      assert WithKey(f + tail, o, k) == WithKey(f, o, k) + (if Key(o, last) == k then tail else []);
      assert WithKey(catalog, o, k) == w + keyTail;
      FilterAppend(w, keyTail, c);
      assert [last][..0] == [];
      assert FilterProducts(keyTail, c) == if Key(o, last) == k then tail else [];
    }
  }

  /**
   * The order of the visible list: catalog order for "featured" and any
   * unknown menu value; ascending price, descending price or descending rating
   * for the three sort entries; and in every sorted case the shown products
   * with one key are the matching catalog products with that key, in catalog
   * order.
   */
  lemma VisibleOrder(catalog: seq<Product>, c: Criteria)
    ensures ParseSortBy(c.sortBy) == None ==> Visible(catalog, c) == FilterProducts(catalog, c)
    ensures c.sortBy == "price-low" ==>
      forall i, j :: 0 <= i < j < |Visible(catalog, c)| ==> Visible(catalog, c)[i].price <= Visible(catalog, c)[j].price
    ensures c.sortBy == "price-high" ==>
      forall i, j :: 0 <= i < j < |Visible(catalog, c)| ==> Visible(catalog, c)[i].price >= Visible(catalog, c)[j].price
    ensures c.sortBy == "rating" ==>
      forall i, j :: 0 <= i < j < |Visible(catalog, c)| ==> Visible(catalog, c)[i].rating >= Visible(catalog, c)[j].rating
    ensures forall o, k :: ParseSortBy(c.sortBy) == Some(o) ==>
      WithKey(Visible(catalog, c), o, k) == FilterProducts(WithKey(catalog, o, k), c)
  {
    var filtered := FilterProducts(catalog, c);
    match ParseSortBy(c.sortBy)
    case None =>
    case Some(o) =>
      SortBySorted(filtered, o);
      forall k ensures WithKey(Visible(catalog, c), o, k) == FilterProducts(WithKey(catalog, o, k), c) {
        SortByStable(filtered, o, k);
        FilterWithKey(catalog, c, o, k);
      }
  }

  /**
   * With no search text and a price range covering every product, selecting a
   * category shows exactly as many products as that category's tile counts
   * (and "all" shows the whole catalog), whatever the sort order.
   */
  lemma {:induction false} CategoryCountIsShown(catalog: seq<Product>, cat: string, range: (int, int), sortBy: string)
    requires forall i :: 0 <= i < |catalog| ==> range.0 <= catalog[i].price <= range.1
    ensures |Visible(catalog, Criteria(cat, range, "", sortBy))| ==
            if cat == ALL then |catalog| else CountInCategory(catalog, cat)
    decreases |catalog|
  {
    var c := Criteria(cat, range, "", sortBy);
    VisibleMembership(catalog, c);
    assert |Visible(catalog, c)| == |FilterProducts(catalog, c)| by {
      assert |multiset(Visible(catalog, c))| == |multiset(FilterProducts(catalog, c))|;
    }
    if catalog != [] {
      var init := catalog[..|catalog| - 1];
      CategoryCountIsShown(init, cat, range, sortBy);
      VisibleMembership(init, c);
      assert |multiset(Visible(init, c))| == |multiset(FilterProducts(init, c))|;
      EmptyIncluded(ToLower(catalog[|catalog| - 1].name));
    }
  }
}
