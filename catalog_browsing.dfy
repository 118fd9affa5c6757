/** The catalog browsing rules (CatalogBrowsingServiceTestImpl): the ACTIVE
    selection over the repository's finders, the stable price sorts and the
    inclusive price-range filter. The service's only state is the repository
    it is built with, so each operation reads that store and is a function. */
module CatalogBrowsing {
  import opened Wrappers
  import opened Domain
  import opened Text
  import opened Sequences
  import opened MockStore

  function ActiveTest(): Product -> bool {
    p => IsActive(p)
  }

  /** The ACTIVE products of `s`, in order. */
  function ActiveOnly(s: seq<Product>): (r: seq<Product>)
    ensures IsSubsequence(r, s)
    ensures forall p :: p in r <==> p in s && IsActive(p)
    ensures forall p :: multiset(r)[p] == if IsActive(p) then multiset(s)[p] else 0
  {
    FilterCount(s, ActiveTest());
    Filter(s, ActiveTest())
  }

  /** Every stored ACTIVE product, in the store's iteration order. */
  function GetAllActiveProducts(repo: MockProductPortAdapter, order: seq<int>): (r: seq<Product>)
    reads repo
    requires IsEnumeration(order, repo.products.Keys)
    ensures IsSubsequence(r, repo.FindAll(order))
    ensures forall p :: p in r <==> IsStored(repo.products, p) && IsActive(p)
  {
    ActiveOnly(repo.FindAll(order))
  }

  function GetProductsByCategory(repo: MockProductPortAdapter, categoryId: int, order: seq<int>): (r: seq<Product>)
    reads repo
    requires IsEnumeration(order, repo.products.Keys)
    ensures IsSubsequence(r, repo.FindByCategoryId(categoryId, order))
    ensures forall p :: p in r <==>
      categoryId in repo.categories && IsStored(repo.products, p) && InCategory(p, categoryId) && IsActive(p)
  {
    ActiveOnly(repo.FindByCategoryId(categoryId, order))
  }

  function SearchProducts(repo: MockProductPortAdapter, keyword: Option<string>, order: seq<int>): (r: seq<Product>)
    reads repo
    requires IsEnumeration(order, repo.products.Keys)
    ensures IsBlank(keyword) ==> r == []
    ensures IsSubsequence(r, repo.FindByNameOrDescriptionContaining(keyword, order))
    ensures forall p :: p in r <==>
      !IsBlank(keyword) && IsStored(repo.products, p) && MatchesKeyword(p, keyword.value) && IsActive(p)
  {
    ActiveOnly(repo.FindByNameOrDescriptionContaining(keyword, order))
  }

  function SearchProductsByName(repo: MockProductPortAdapter, name: Option<string>, order: seq<int>): (r: seq<Product>)
    reads repo
    requires IsEnumeration(order, repo.products.Keys)
    ensures IsBlank(name) ==> r == []
    ensures IsSubsequence(r, repo.FindByNameContaining(name, order))
    ensures forall p :: p in r <==>
      !IsBlank(name) && IsStored(repo.products, p) && MatchesName(p, name.value) && IsActive(p)
  {
    ActiveOnly(repo.FindByNameContaining(name, order))
  }

  function SearchProductsByDescription(repo: MockProductPortAdapter, description: Option<string>, order: seq<int>): (r: seq<Product>)
    reads repo
    requires IsEnumeration(order, repo.products.Keys)
    ensures IsBlank(description) ==> r == []
    ensures IsSubsequence(r, repo.FindByDescriptionContaining(description, order))
    ensures forall p :: p in r <==>
      !IsBlank(description) && IsStored(repo.products, p) && MatchesDescription(p, description.value) && IsActive(p)
  {
    ActiveOnly(repo.FindByDescriptionContaining(description, order))
  }

  // ---------------------------------------------------------------------
  // Sorting by current price

  /** The comparator `comparing(Product::getCurrentPrice)` and its reversal. */
  datatype PriceOrder = Ascending | Descending

  /** `a` may stand before `b` in a list sorted by `dir`. */
  predicate Precedes(a: Product, b: Product, dir: PriceOrder) {
    match dir
    case Ascending => a.currentPrice <= b.currentPrice
    case Descending => a.currentPrice >= b.currentPrice
  }

  predicate SortedByPrice(s: seq<Product>, dir: PriceOrder) {
    forall i, j :: 0 <= i < j < |s| ==> Precedes(s[i], s[j], dir)
  }

  function PriceIs(v: Decimal): Product -> bool {
    (p: Product) => p.currentPrice == v
  }

  /** The products of `s` priced `v`, in their order in `s`. */
  function WithPrice(s: seq<Product>, v: Decimal): seq<Product> {
    Filter(s, PriceIs(v))
  }

  /** Stability: for every price, `r` lists the products of that price in
      the same order as `s` does. */
  ghost predicate StableFor(r: seq<Product>, s: seq<Product>) {
    forall v :: WithPrice(r, v) == WithPrice(s, v)
  }

  /** Inserts `x` before the first element it may precede; an element it may
      not precede is strictly before it. */
  function Insert(x: Product, t: seq<Product>, dir: PriceOrder): (r: seq<Product>)
    ensures multiset(r) == multiset{x} + multiset(t)
    decreases |t|
  {
    if t == [] || Precedes(x, t[0], dir) then [x] + t
    else
      assert t == [t[0]] + t[1..];
      [t[0]] + Insert(x, t[1..], dir)
  }

  lemma SortedTail(s: seq<Product>, dir: PriceOrder)
    requires SortedByPrice(s, dir) && s != []
    ensures SortedByPrice(s[1..], dir)
  {
    forall i, j | 0 <= i < j < |s[1..]|
      ensures Precedes(s[1..][i], s[1..][j], dir)
    {
      assert s[1..][i] == s[i + 1] && s[1..][j] == s[j + 1];
    }
  }

  lemma SortedPrepend(y: Product, t: seq<Product>, dir: PriceOrder)
    requires SortedByPrice(t, dir)
    requires forall z :: z in t ==> Precedes(y, z, dir)
    ensures SortedByPrice([y] + t, dir)
  {
    var r := [y] + t;
    forall i, j | 0 <= i < j < |r|
      ensures Precedes(r[i], r[j], dir)
    {
      assert r[j] == t[j - 1];
      if i > 0 {
        assert r[i] == t[i - 1];
      }
    }
  }

  lemma {:induction false} InsertSorted(x: Product, t: seq<Product>, dir: PriceOrder)
    requires SortedByPrice(t, dir)
    ensures SortedByPrice(Insert(x, t, dir), dir)
    decreases |t|
  {
    if t == [] || Precedes(x, t[0], dir) {
      forall z | z in t
        ensures Precedes(x, z, dir)
      {
        var k :| 0 <= k < |t| && t[k] == z;
        if k > 0 {
          assert Precedes(t[0], t[k], dir);
        }
      }
      SortedPrepend(x, t, dir);
    } else {
      var rest := Insert(x, t[1..], dir);
      SortedTail(t, dir);
      InsertSorted(x, t[1..], dir);
      forall z | z in rest
        ensures Precedes(t[0], z, dir)
      {
        assert z in multiset(rest);
        if z != x {
          assert z in multiset(t[1..]);
          var k :| 0 <= k < |t[1..]| && t[1..][k] == z;
          assert Precedes(t[0], t[k + 1], dir);
        }
      }
      SortedPrepend(t[0], rest, dir);
    }
  }

  /** Insertion sort: a stable sort, as `Stream.sorted` is on a list. */
  function SortByPrice(s: seq<Product>, dir: PriceOrder): (r: seq<Product>)
    ensures multiset(r) == multiset(s)
    ensures SortedByPrice(r, dir)
    decreases |s|
  {
    if s == [] then []
    else
      assert s == [s[0]] + s[1..];
      InsertSorted(s[0], SortByPrice(s[1..], dir), dir);
      Insert(s[0], SortByPrice(s[1..], dir), dir)
  }

  lemma {:induction false} InsertStable(x: Product, t: seq<Product>, dir: PriceOrder, v: Decimal)
    ensures WithPrice(Insert(x, t, dir), v) == WithPrice([x] + t, v)
    decreases |t|
  {
    if !(t == [] || Precedes(x, t[0], dir)) {
      var t0, rest := t[0], t[1..];
      assert t == [t0] + rest;
      assert t0.currentPrice != x.currentPrice;
      InsertStable(x, rest, dir, v);
      FilterCons(t0, Insert(x, rest, dir), PriceIs(v));
      FilterCons(x, rest, PriceIs(v));
      FilterCons(x, t, PriceIs(v));
      FilterCons(t0, rest, PriceIs(v));
    }
  }

  lemma {:induction false} SortStableAt(s: seq<Product>, dir: PriceOrder, v: Decimal)
    ensures WithPrice(SortByPrice(s, dir), v) == WithPrice(s, v)
    decreases |s|
  {
    if s != [] {
      var sorted := SortByPrice(s[1..], dir);
      calc {
        WithPrice(SortByPrice(s, dir), v);
        WithPrice(Insert(s[0], sorted, dir), v);
        { InsertStable(s[0], sorted, dir, v); }
        WithPrice([s[0]] + sorted, v);
        { FilterCons(s[0], sorted, PriceIs(v)); }
        (if PriceIs(v)(s[0]) then [s[0]] else []) + WithPrice(sorted, v);
        { SortStableAt(s[1..], dir, v); }
        (if PriceIs(v)(s[0]) then [s[0]] else []) + WithPrice(s[1..], v);
        { FilterCons(s[0], s[1..], PriceIs(v)); assert s == [s[0]] + s[1..]; }
        WithPrice(s, v);
      }
    }
  }

  lemma SortStable(s: seq<Product>, dir: PriceOrder)
    ensures StableFor(SortByPrice(s, dir), s)
  {
    forall v
      ensures WithPrice(SortByPrice(s, dir), v) == WithPrice(s, v)
    {
      SortStableAt(s, dir, v);
    }
  }

  /** A list already sorted by `dir` is left as it is. */
  lemma {:induction false} SortSortedIsIdentity(s: seq<Product>, dir: PriceOrder)
    requires SortedByPrice(s, dir)
    ensures SortByPrice(s, dir) == s
    decreases |s|
  {
    if s != [] {
      SortedTail(s, dir);
      SortSortedIsIdentity(s[1..], dir);
      assert s == [s[0]] + s[1..];
    }
  }

  lemma SortIdempotent(s: seq<Product>, dir: PriceOrder)
    ensures SortByPrice(SortByPrice(s, dir), dir) == SortByPrice(s, dir)
  {
    SortSortedIsIdentity(SortByPrice(s, dir), dir);
  }

  /** The first element of a sorted list may precede every element of it. */
  lemma SortedHeadPrecedes(r: seq<Product>, dir: PriceOrder, y: Product)
    requires SortedByPrice(r, dir) && y in r
    ensures Precedes(r[0], y, dir)
  {
    var i :| 0 <= i < |r| && r[i] == y;
    if i > 0 {
      assert Precedes(r[0], r[i], dir);
    }
  }

  /** Removing the common first element keeps every price class equal. */
  lemma TailsWithPrice(a: Product, t1: seq<Product>, t2: seq<Product>)
    requires forall v :: WithPrice([a] + t1, v) == WithPrice([a] + t2, v)
    ensures forall v :: WithPrice(t1, v) == WithPrice(t2, v)
  {
    forall v
      ensures WithPrice(t1, v) == WithPrice(t2, v)
    {
      FilterCons(a, t1, PriceIs(v));
      FilterCons(a, t2, PriceIs(v));
      assert WithPrice([a] + t1, v) == WithPrice([a] + t2, v);
    }
  }

  /** Lists with the same price classes hold the same elements: the first
      element of one is in the other. */
  lemma ClassWitness(r1: seq<Product>, r2: seq<Product>)
    requires r1 != []
    requires forall v :: WithPrice(r1, v) == WithPrice(r2, v)
    ensures r2 != [] && r1[0] in r2
  {
    assert r1[0] in WithPrice(r1, r1[0].currentPrice);
    assert r1[0] in WithPrice(r2, r1[0].currentPrice);
  }

  /** Two lists sorted by `dir` that keep every price class in the same
      order are equal: sortedness and stability determine the result. */
  lemma {:induction false} SortedStableUnique(r1: seq<Product>, r2: seq<Product>, dir: PriceOrder)
    requires SortedByPrice(r1, dir) && SortedByPrice(r2, dir)
    requires forall v :: WithPrice(r1, v) == WithPrice(r2, v)
    ensures r1 == r2
    decreases |r1|
  {
    if r1 != [] {
      ClassWitness(r1, r2);
      ClassWitness(r2, r1);
      var a, b := r1[0], r2[0];
      SortedHeadPrecedes(r1, dir, b);
      SortedHeadPrecedes(r2, dir, a);
      var m := a.currentPrice;
      assert b.currentPrice == m;
      assert r1 == [a] + r1[1..] && r2 == [b] + r2[1..];
      FilterCons(a, r1[1..], PriceIs(m));
      FilterCons(b, r2[1..], PriceIs(m));
      assert WithPrice(r1, m)[0] == a;
      assert WithPrice(r2, m)[0] == b;
      assert a == b;
      TailsWithPrice(a, r1[1..], r2[1..]);
      SortedTail(r1, dir);
      SortedTail(r2, dir);
      SortedStableUnique(r1[1..], r2[1..], dir);
    } else if r2 != [] {
      ClassWitness(r2, r1);
      assert false;
    }
  }

  /** The sort is the only stable ordering of `s` sorted by `dir`. */
  lemma SortCharacterized(s: seq<Product>, r: seq<Product>, dir: PriceOrder)
    requires SortedByPrice(r, dir) && StableFor(r, s)
    ensures r == SortByPrice(s, dir)
  {
    SortStable(s, dir);
    SortedStableUnique(r, SortByPrice(s, dir), dir);
  }

  /** Non-decreasing current price, a permutation of the input, ties in input order. */
  function SortProductsByPriceAsc(products: seq<Product>): (r: seq<Product>)
    ensures SortedByPrice(r, Ascending)
    ensures multiset(r) == multiset(products)
    ensures StableFor(r, products)
  {
    SortStable(products, Ascending);
    SortByPrice(products, Ascending)
  }

  /** Non-increasing current price, a permutation of the input, ties in input order. */
  function SortProductsByPriceDesc(products: seq<Product>): (r: seq<Product>)
    ensures SortedByPrice(r, Descending)
    ensures multiset(r) == multiset(products)
    ensures StableFor(r, products)
  {
    SortStable(products, Descending);
    SortByPrice(products, Descending)
  }

  predicate DistinctPrices(s: seq<Product>) {
    forall i, j :: 0 <= i < j < |s| ==> s[i].currentPrice != s[j].currentPrice
  }

  lemma {:induction false} DistinctPricesSingleClass(s: seq<Product>, v: Decimal)
    requires DistinctPrices(s)
    ensures |WithPrice(s, v)| <= 1
    decreases |s|
  {
    if s != [] {
      assert s == [s[0]] + s[1..];
      FilterCons(s[0], s[1..], PriceIs(v));
      if s[0].currentPrice == v {
        forall x | x in s[1..]
          ensures !PriceIs(v)(x)
        {
          var k :| 0 <= k < |s[1..]| && s[1..][k] == x;
          assert s[k + 1] == x;
        }
        FilterKeepsNone(s[1..], PriceIs(v));
      } else {
        assert DistinctPrices(s[1..]) by {
          forall i, j | 0 <= i < j < |s[1..]|
            ensures s[1..][i].currentPrice != s[1..][j].currentPrice
          {
            assert s[1..][i] == s[i + 1] && s[1..][j] == s[j + 1];
          }
        }
        DistinctPricesSingleClass(s[1..], v);
      }
    }
  }

  /** Without ties the descending sort is the ascending sort reversed. */
  lemma DescendingReversesAscendingWithoutTies(s: seq<Product>)
    requires DistinctPrices(s)
    ensures SortProductsByPriceDesc(s) == Reverse(SortProductsByPriceAsc(s))
  {
    var asc := SortProductsByPriceAsc(s);
    var rev := Reverse(asc);
    forall i, j | 0 <= i < j < |rev|
      ensures Precedes(rev[i], rev[j], Descending)
    {
      ReverseAt(asc, i);
      ReverseAt(asc, j);
    }
    forall v
      ensures WithPrice(rev, v) == WithPrice(s, v)
    {
      FilterReverse(asc, PriceIs(v));
      DistinctPricesSingleClass(s, v);
      ReverseShort(WithPrice(s, v));
    }
    SortCharacterized(s, rev, Descending);
  }

  /** With a tie the two sorts both keep the input order, so the descending
      result is not the reverse of the ascending one. */
  lemma TiedPricesKeepInputOrder(a: Product, b: Product)
    requires a.currentPrice == b.currentPrice && a != b
    ensures SortProductsByPriceAsc([a, b]) == [a, b]
    ensures SortProductsByPriceDesc([a, b]) == [a, b]
    ensures SortProductsByPriceDesc([a, b]) != Reverse(SortProductsByPriceAsc([a, b]))
  {
    assert SortedByPrice([a, b], Ascending) && SortedByPrice([a, b], Descending);
    SortSortedIsIdentity([a, b], Ascending);
    SortSortedIsIdentity([a, b], Descending);
    assert Reverse([a, b]) == [b, a] by {
      assert [a, b][1..] == [b];
      ReverseShort([b]);
    }
  }

  // ---------------------------------------------------------------------
  // Price range

  /** At least `minPrice` and at most `maxPrice`, each bound optional and inclusive. */
  predicate InPriceRange(price: Decimal, minPrice: Option<Decimal>, maxPrice: Option<Decimal>) {
    (minPrice.None? || price >= minPrice.value) && (maxPrice.None? || price <= maxPrice.value)
  }

  function PriceTest(minPrice: Option<Decimal>, maxPrice: Option<Decimal>): Product -> bool {
    (p: Product) => InPriceRange(p.currentPrice, minPrice, maxPrice)
  }

  function FilterByPriceRange(products: seq<Product>, minPrice: Option<Decimal>, maxPrice: Option<Decimal>): (r: seq<Product>)
    ensures IsSubsequence(r, products)
    ensures forall p :: p in r <==> p in products && InPriceRange(p.currentPrice, minPrice, maxPrice)
    ensures forall p :: multiset(r)[p] ==
                        if InPriceRange(p.currentPrice, minPrice, maxPrice) then multiset(products)[p] else 0
  {
    FilterCount(products, PriceTest(minPrice, maxPrice));
    Filter(products, PriceTest(minPrice, maxPrice))
  }

  lemma PriceRangeUnbounded(products: seq<Product>)
    ensures FilterByPriceRange(products, None, None) == products
  {
    FilterKeepsAll(products, PriceTest(None, None));
  }

  lemma PriceRangeInverted(products: seq<Product>, minPrice: Decimal, maxPrice: Decimal)
    requires minPrice > maxPrice
    ensures FilterByPriceRange(products, Some(minPrice), Some(maxPrice)) == []
  {
  }

  lemma PriceRangeIdempotent(products: seq<Product>, minPrice: Option<Decimal>, maxPrice: Option<Decimal>)
    ensures var once := FilterByPriceRange(products, minPrice, maxPrice);
      FilterByPriceRange(once, minPrice, maxPrice) == once
  {
    FilterIdempotent(products, PriceTest(minPrice, maxPrice));
  }

  /** The two bounds may be applied one after the other. */
  lemma PriceRangeInStages(products: seq<Product>, minPrice: Option<Decimal>, maxPrice: Option<Decimal>)
    ensures FilterByPriceRange(FilterByPriceRange(products, minPrice, None), None, maxPrice)
         == FilterByPriceRange(products, minPrice, maxPrice)
  {
    FilterTwice(products, PriceTest(minPrice, None), PriceTest(None, maxPrice), PriceTest(minPrice, maxPrice));
  }

  /** Prices 649.99 and 39.99 with bounds 40 and 500: neither is in range. */
  lemma PriceRangeExcludesBoth(expensive: Product, cheap: Product)
    requires expensive.currentPrice == 649.99 && cheap.currentPrice == 39.99
    ensures FilterByPriceRange([expensive, cheap], Some(40.0), Some(500.0)) == []
  {
  }
}
