/** The public catalog endpoints (CatalogController under /api/catalog).
    Each handler answers 200 with a list computed by the browsing rules; the
    browse endpoint runs its stages one after the other on a local list. */
module CatalogController {
  import opened Wrappers
  import opened Domain
  import opened Text
  import opened Sequences
  import opened MockStore
  import opened CatalogBrowsing
  import opened Http

  /** GET /api/catalog: every active product. */
  function GetAllProducts(repo: MockProductPortAdapter, order: seq<int>): (r: Response<seq<Product>>)
    reads repo
    requires IsEnumeration(order, repo.products.Keys)
    ensures r.status == OK && r.body.Some?
    ensures IsSubsequence(r.body.value, repo.FindAll(order))
    ensures forall p :: p in r.body.value <==> IsStored(repo.products, p) && IsActive(p)
  {
    OkResponse(GetAllActiveProducts(repo, order))
  }

  /** GET /api/catalog/category/{categoryId}. */
  function GetProductsByCategory(repo: MockProductPortAdapter, categoryId: int, order: seq<int>): (r: Response<seq<Product>>)
    reads repo
    requires IsEnumeration(order, repo.products.Keys)
    ensures r.status == OK && r.body.Some?
    ensures IsSubsequence(r.body.value, repo.FindByCategoryId(categoryId, order))
    ensures forall p :: p in r.body.value <==>
      categoryId in repo.categories && IsStored(repo.products, p) && InCategory(p, categoryId) && IsActive(p)
  {
    OkResponse(CatalogBrowsing.GetProductsByCategory(repo, categoryId, order))
  }

  /** GET /api/catalog/search?keyword=...: an empty keyword finds nothing. */
  function SearchProducts(repo: MockProductPortAdapter, keyword: string, order: seq<int>): (r: Response<seq<Product>>)
    reads repo
    requires IsEnumeration(order, repo.products.Keys)
    ensures r.status == OK && r.body.Some?
    ensures keyword == [] ==> r.body.value == []
    ensures IsSubsequence(r.body.value, repo.FindByNameOrDescriptionContaining(Some(keyword), order))
    ensures forall p :: p in r.body.value <==>
      keyword != [] && IsStored(repo.products, p) && MatchesKeyword(p, keyword) && IsActive(p)
  {
    OkResponse(CatalogBrowsing.SearchProducts(repo, Some(keyword), order))
  }

  /** GET /api/catalog/sort/price-asc: the active products by non-decreasing price. */
  function SortByPriceAscending(repo: MockProductPortAdapter, order: seq<int>): (r: Response<seq<Product>>)
    reads repo
    requires IsEnumeration(order, repo.products.Keys)
    ensures r.status == OK && r.body.Some?
    ensures r.body.value == SortProductsByPriceAsc(GetAllActiveProducts(repo, order))
    ensures SortedByPrice(r.body.value, Ascending)
    ensures multiset(r.body.value) == multiset(GetAllActiveProducts(repo, order))
  {
    OkResponse(SortProductsByPriceAsc(GetAllActiveProducts(repo, order)))
  }

  /** GET /api/catalog/sort/price-desc: the active products by non-increasing price. */
  function SortByPriceDescending(repo: MockProductPortAdapter, order: seq<int>): (r: Response<seq<Product>>)
    reads repo
    requires IsEnumeration(order, repo.products.Keys)
    ensures r.status == OK && r.body.Some?
    ensures r.body.value == SortProductsByPriceDesc(GetAllActiveProducts(repo, order))
    ensures SortedByPrice(r.body.value, Descending)
    ensures multiset(r.body.value) == multiset(GetAllActiveProducts(repo, order))
  {
    OkResponse(SortProductsByPriceDesc(GetAllActiveProducts(repo, order)))
  }

  /** GET /api/catalog/filter/price: the active products within the optional bounds. */
  function FilterByPriceRange(repo: MockProductPortAdapter, minPrice: Option<Decimal>, maxPrice: Option<Decimal>,
                              order: seq<int>): (r: Response<seq<Product>>)
    reads repo
    requires IsEnumeration(order, repo.products.Keys)
    ensures r.status == OK && r.body.Some?
    ensures r.body.value == CatalogBrowsing.FilterByPriceRange(GetAllActiveProducts(repo, order), minPrice, maxPrice)
    ensures forall p :: p in r.body.value <==>
      IsStored(repo.products, p) && IsActive(p) && InPriceRange(p.currentPrice, minPrice, maxPrice)
  {
    OkResponse(CatalogBrowsing.FilterByPriceRange(GetAllActiveProducts(repo, order), minPrice, maxPrice))
  }

  /** The browse keyword test: a null or empty keyword keeps every product,
      unlike the repository finder, for which it matches nothing. */
  predicate KeywordSelects(p: Product, keyword: Option<string>) {
    IsBlank(keyword) || MatchesKeyword(p, keyword.value)
  }

  function BrowseTest(keyword: Option<string>, minPrice: Option<Decimal>, maxPrice: Option<Decimal>): Product -> bool {
    p => KeywordSelects(p, keyword) && InPriceRange(p.currentPrice, minPrice, maxPrice)
  }

  /** The products of `base` that pass both browse criteria, in one pass. */
  function Selection(base: seq<Product>, keyword: Option<string>, minPrice: Option<Decimal>,
                     maxPrice: Option<Decimal>): (r: seq<Product>)
    ensures IsSubsequence(r, base)
    ensures multiset(r) <= multiset(base)
    ensures forall p :: p in r <==>
      p in base && KeywordSelects(p, keyword) && InPriceRange(p.currentPrice, minPrice, maxPrice)
    ensures forall p :: multiset(r)[p] ==
                        if KeywordSelects(p, keyword) && InPriceRange(p.currentPrice, minPrice, maxPrice)
                        then multiset(base)[p] else 0
  {
    FilterCount(base, BrowseTest(keyword, minPrice, maxPrice));
    SubsequenceSubMultiset(Filter(base, BrowseTest(keyword, minPrice, maxPrice)), base);
    Filter(base, BrowseTest(keyword, minPrice, maxPrice))
  }

  /** With no criteria the selection is the base list itself. */
  lemma SelectionWithoutCriteria(base: seq<Product>)
    ensures Selection(base, None, None, None) == base
  {
    FilterKeepsAll(base, BrowseTest(None, None, None));
  }

  /** The keyword stage followed by the price stage selects what the
      one-pass selection does. */
  lemma BrowseStages(base: seq<Product>, keyword: Option<string>, minPrice: Option<Decimal>,
                     maxPrice: Option<Decimal>)
    ensures var afterKeyword := if IsBlank(keyword) then base else Filter(base, KeywordTest(keyword.value));
      CatalogBrowsing.FilterByPriceRange(afterKeyword, minPrice, maxPrice)
        == Selection(base, keyword, minPrice, maxPrice)
  {
    if IsBlank(keyword) {
      FilterAgree(base, PriceTest(minPrice, maxPrice), BrowseTest(keyword, minPrice, maxPrice));
    } else {
      FilterTwice(base, KeywordTest(keyword.value), PriceTest(minPrice, maxPrice),
                  BrowseTest(keyword, minPrice, maxPrice));
    }
  }

  /** The list the browse endpoint starts from. */
  function BrowseBase(repo: MockProductPortAdapter, categoryId: Option<int>, order: seq<int>): (r: seq<Product>)
    reads repo
    requires IsEnumeration(order, repo.products.Keys)
    ensures IsSubsequence(r, repo.FindAll(order))
    ensures forall p :: p in r <==>
      && IsStored(repo.products, p) && IsActive(p)
      && (categoryId.Some? ==> categoryId.value in repo.categories && InCategory(p, categoryId.value))
  {
    if categoryId.Some? then
      var r := CatalogBrowsing.GetProductsByCategory(repo, categoryId.value, order);
      SubsequenceTransitive(r, repo.FindByCategoryId(categoryId.value, order), repo.FindAll(order));
      r
    else GetAllActiveProducts(repo, order)
  }

  /** GET /api/catalog/browse. The result holds exactly the products of the
      base list that pass the keyword and price criteria; "price_asc" and
      "price_desc" sort them stably, and any other mode keeps the base order. */
  method BrowseProducts(repo: MockProductPortAdapter, keyword: Option<string>, categoryId: Option<int>,
                        minPrice: Option<Decimal>, maxPrice: Option<Decimal>, sortBy: string,
                        order: seq<int>) returns (response: Response<seq<Product>>)
    requires IsEnumeration(order, repo.products.Keys)
    ensures response.status == OK && response.body.Some?
    ensures var selected := Selection(BrowseBase(repo, categoryId, order), keyword, minPrice, maxPrice);
      && multiset(response.body.value) == multiset(selected)
      && StableFor(response.body.value, selected)
      && (sortBy == "price_asc" ==> SortedByPrice(response.body.value, Ascending))
      && (sortBy == "price_desc" ==> SortedByPrice(response.body.value, Descending))
      && (sortBy != "price_asc" && sortBy != "price_desc" ==> response.body.value == selected)
    ensures forall p :: p in response.body.value <==>
      && p in BrowseBase(repo, categoryId, order)
      && KeywordSelects(p, keyword)
      && InPriceRange(p.currentPrice, minPrice, maxPrice)
  {
    var products: seq<Product>;
    if categoryId.Some? {
      products := CatalogBrowsing.GetProductsByCategory(repo, categoryId.value, order);
    } else {
      products := GetAllActiveProducts(repo, order);
    }
    ghost var selected := Selection(products, keyword, minPrice, maxPrice);
    BrowseStages(products, keyword, minPrice, maxPrice);
    if !IsBlank(keyword) {
      products := Filter(products, KeywordTest(keyword.value));
    }
    products := CatalogBrowsing.FilterByPriceRange(products, minPrice, maxPrice);
    assert products == selected;
    if sortBy == "price_asc" {
      products := SortProductsByPriceAsc(products);
    } else if sortBy == "price_desc" {
      products := SortProductsByPriceDesc(products);
    }
    SameMembers(products, selected);
    response := OkResponse(products);
  }
}
