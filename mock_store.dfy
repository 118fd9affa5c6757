/** The in-memory product repository (MockProductPortAdapter): two HashMap
    fields keyed by id and two id counters, seeded with fixture data by the
    constructor. The mutators are methods on the store object; the finders
    are functions of its fields.

    A HashMap iterates in an order the code does not control, so every
    operation that lists the products takes `order`, one enumeration of the
    key set, and its contract holds for every such order. */
module MockStore {
  import opened Wrappers
  import opened Domain
  import opened Text
  import opened Sequences

  /** `order` lists every key of `keys` exactly once. */
  predicate IsEnumeration(order: seq<int>, keys: set<int>) {
    && (forall i, j :: 0 <= i < j < |order| ==> order[i] != order[j])
    && (forall i :: 0 <= i < |order| ==> order[i] in keys)
    && (forall k :: k in keys ==> k in order)
  }

  /** The values of `m`, listed in the key order `order`. */
  function ValuesInOrder(m: map<int, Product>, order: seq<int>): (r: seq<Product>)
    requires forall i :: 0 <= i < |order| ==> order[i] in m
    ensures |r| == |order|
    ensures forall i :: 0 <= i < |order| ==> r[i] == m[order[i]]
  {
    if order == [] then [] else [m[order[0]]] + ValuesInOrder(m, order[1..])
  }

  /** `p` is one of the values of `m` (m.values().contains(p)). */
  predicate IsStored(m: map<int, Product>, p: Product) {
    exists k | k in m :: m[k] == p
  }

  /** Listing the map in an enumeration order yields exactly its values. */
  lemma ValuesInOrderContents(m: map<int, Product>, order: seq<int>)
    requires IsEnumeration(order, m.Keys)
    ensures forall p :: p in ValuesInOrder(m, order) <==> IsStored(m, p)
  {
    var r := ValuesInOrder(m, order);
    forall p | IsStored(m, p)
      ensures p in r
    {
      var k :| k in m && m[k] == p;
      var i :| 0 <= i < |order| && order[i] == k;
      assert r[i] == p;
    }
  }

  /** An enumeration is exactly as long as the set it enumerates. */
  lemma {:induction false} EnumerationSize(order: seq<int>, keys: set<int>)
    requires IsEnumeration(order, keys)
    ensures |order| == |keys|
    decreases |order|
  {
    if order != [] {
      var rest := keys - {order[0]};
      forall k
        ensures k in order[1..] <==> k in rest
      {
        if k in order[1..] {
          var i :| 1 <= i < |order| && order[i] == k;
          assert order[0] != order[i];
        }
        if k in rest {
          assert k in order;
          var i :| 0 <= i < |order| && order[i] == k;
          assert i != 0;
          assert order[1..][i - 1] == k;
        }
      }
      EnumerationSize(order[1..], rest);
    } else {
      assert forall k :: k !in keys;
      assert keys == {};
    }
  }

  function NameTest(keyword: string): Product -> bool {
    p => MatchesName(p, keyword)
  }

  function DescriptionTest(keyword: string): Product -> bool {
    p => MatchesDescription(p, keyword)
  }

  function KeywordTest(keyword: string): Product -> bool {
    p => MatchesKeyword(p, keyword)
  }

  function CategoryTest(categoryId: int): Product -> bool {
    p => InCategory(p, categoryId)
  }

  /** A null or empty query string, for which every text finder returns nothing. */
  predicate IsBlank(query: Option<string>) {
    query.None? || query.value == []
  }

  /** The fixture categories the constructor stores, under ids 1 to 4. */
  function SeedCategory(id: int): Category
    requires 1 <= id <= 4
  {
    match id
    case 1 => Category(Some(1), "Electronics", Some("Electronic devices and gadgets"), None, None)
    case 2 => Category(Some(2), "Clothing", Some("Apparel and fashion items"), None, None)
    case 3 => Category(Some(3), "Books", Some("Books and publications"), None, None)
    case 4 => Category(Some(4), "Home Decor", Some("Items for home decoration"), None, None)
  }

  /** The fixture products the constructor stores, under ids 1 to 10; `now`
      is the clock reading both timestamps are set from. */
  function SeedProduct(id: int, now: Timestamp): Product
    requires 1 <= id <= 10
  {
    match id
    case 1 => Product(Some(1), "Smartphone X", Some("Latest smartphone with advanced features"),
      699.99, 649.99, Some({SeedCategory(1)}), None, Some(50), Some(Active), None, None, Some(now), Some(now))
    case 2 => Product(Some(2), "Laptop Pro", Some("High-performance laptop for professionals"),
      1299.99, 1199.99, Some({SeedCategory(1)}), None, Some(25), Some(Active), None, None, Some(now), Some(now))
    case 3 => Product(Some(3), "Wireless Headphones", Some("Noise-cancelling wireless headphones"),
      199.99, 179.99, Some({SeedCategory(1)}), None, Some(100), Some(Active), None, None, Some(now), Some(now))
    case 4 => Product(Some(4), "Classic T-Shirt", Some("Comfortable cotton t-shirt"),
      29.99, 24.99, Some({SeedCategory(2)}), None, Some(200), Some(Active), None, None, Some(now), Some(now))
    case 5 => Product(Some(5), "Designer Jeans", Some("Premium denim jeans"),
      89.99, 79.99, Some({SeedCategory(2)}), None, Some(75), Some(Active), None, None, Some(now), Some(now))
    case 6 => Product(Some(6), "Programming Guide", Some("Comprehensive programming reference"),
      49.99, 39.99, Some({SeedCategory(3)}), None, Some(30), Some(Active), None, None, Some(now), Some(now))
    case 7 => Product(Some(7), "Novel Collection", Some("Bestselling novels collection"),
      59.99, 49.99, Some({SeedCategory(3)}), None, Some(20), Some(Active), None, None, Some(now), Some(now))
    case 8 => Product(Some(8), "Decorative Vase", Some("Elegant ceramic vase"),
      39.99, 34.99, Some({SeedCategory(4)}), None, Some(40), Some(Active), None, None, Some(now), Some(now))
    case 9 => Product(Some(9), "Wall Art", Some("Modern wall painting"),
      149.99, 129.99, Some({SeedCategory(4)}), None, Some(15), Some(Active), None, None, Some(now), Some(now))
    case 10 => Product(Some(10), "Smart Watch", Some("Fitness tracking smartwatch"),
      249.99, 229.99, Some({SeedCategory(1)}), None, Some(0), Some(OutOfStock), None, None, Some(now), Some(now))
  }

  /** Each seeded product carries its own key as id; every one is active
      except "Smart Watch", which is out of stock and the only one with a
      stock of 0. */
  lemma SeedProductFacts(now: Timestamp)
    ensures forall id :: 1 <= id <= 10 ==> SeedProduct(id, now).id == Some(id)
    ensures forall id :: 1 <= id <= 10 ==>
      (SeedProduct(id, now).status == Some(OutOfStock) <==> SeedProduct(id, now).name == "Smart Watch")
    ensures forall id :: 1 <= id <= 10 ==>
      (SeedProduct(id, now).stockQuantity == Some(0) <==> SeedProduct(id, now).name == "Smart Watch")
    ensures forall id :: 1 <= id <= 10 && SeedProduct(id, now).name != "Smart Watch" ==>
      SeedProduct(id, now).status == Some(Active)
  {
  }

  class MockProductPortAdapter {
    var products: map<int, Product>
    var categories: map<int, Category>
    var nextProductId: int
    var nextCategoryId: int

    /** Every entry is stored under its own id. */
    ghost predicate Valid()
      reads this
    {
      && (forall k :: k in products ==> products[k].id == Some(k))
      && (forall k :: k in categories ==> categories[k].id == Some(k))
    }

    /** Seeds four categories and ten products; `now` stands for the clock. */
    constructor (now: Timestamp)
      ensures Valid()
      ensures nextCategoryId == 5 && nextProductId == 11
      ensures categories == map[1 := SeedCategory(1), 2 := SeedCategory(2), 3 := SeedCategory(3), 4 := SeedCategory(4)]
      ensures products == map[1 := SeedProduct(1, now), 2 := SeedProduct(2, now), 3 := SeedProduct(3, now), 4 := SeedProduct(4, now), 5 := SeedProduct(5, now), 6 := SeedProduct(6, now), 7 := SeedProduct(7, now), 8 := SeedProduct(8, now), 9 := SeedProduct(9, now), 10 := SeedProduct(10, now)]
    {
      products := map[];
      categories := map[];
      nextProductId := 1;
      nextCategoryId := 1;
      new;
      // The assertions after each step keep the proof linear in the number of steps.
      var electronics := CreateCategory("Electronics", "Electronic devices and gadgets");
      assert categories == map[1 := SeedCategory(1)];
      var clothing := CreateCategory("Clothing", "Apparel and fashion items");
      assert categories == map[1 := SeedCategory(1), 2 := SeedCategory(2)];
      var books := CreateCategory("Books", "Books and publications");
      assert categories == map[1 := SeedCategory(1), 2 := SeedCategory(2), 3 := SeedCategory(3)];
      var homeDecor := CreateCategory("Home Decor", "Items for home decoration");
      assert categories == map[1 := SeedCategory(1), 2 := SeedCategory(2), 3 := SeedCategory(3), 4 := SeedCategory(4)];
      var p: Product;
      p := CreateProduct("Smartphone X", "Latest smartphone with advanced features",
        699.99, 649.99, {electronics}, 50, Active, now);
      assert p == SeedProduct(1, now);
      p := CreateProduct("Laptop Pro", "High-performance laptop for professionals",
        1299.99, 1199.99, {electronics}, 25, Active, now);
      assert p == SeedProduct(2, now);
      p := CreateProduct("Wireless Headphones", "Noise-cancelling wireless headphones",
        199.99, 179.99, {electronics}, 100, Active, now);
      assert p == SeedProduct(3, now);
      p := CreateProduct("Classic T-Shirt", "Comfortable cotton t-shirt",
        29.99, 24.99, {clothing}, 200, Active, now);
      assert p == SeedProduct(4, now);
      p := CreateProduct("Designer Jeans", "Premium denim jeans",
        89.99, 79.99, {clothing}, 75, Active, now);
      assert p == SeedProduct(5, now);
      p := CreateProduct("Programming Guide", "Comprehensive programming reference",
        49.99, 39.99, {books}, 30, Active, now);
      assert p == SeedProduct(6, now);
      p := CreateProduct("Novel Collection", "Bestselling novels collection",
        59.99, 49.99, {books}, 20, Active, now);
      assert p == SeedProduct(7, now);
      p := CreateProduct("Decorative Vase", "Elegant ceramic vase",
        39.99, 34.99, {homeDecor}, 40, Active, now);
      assert p == SeedProduct(8, now);
      p := CreateProduct("Wall Art", "Modern wall painting",
        149.99, 129.99, {homeDecor}, 15, Active, now);
      assert p == SeedProduct(9, now);
      p := CreateProduct("Smart Watch", "Fitness tracking smartwatch",
        249.99, 229.99, {electronics}, 0, OutOfStock, now);
      assert p == SeedProduct(10, now);
    }

    /** Stores a new category under the next category id and advances that counter. */
    method CreateCategory(name: string, description: string) returns (category: Category)
      requires Valid()
      modifies this
      ensures Valid()
      ensures category == Category(Some(old(nextCategoryId)), name, Some(description), None, None)
      ensures categories == old(categories)[old(nextCategoryId) := category]
      ensures nextCategoryId == old(nextCategoryId) + 1
      ensures products == old(products) && nextProductId == old(nextProductId)
    {
      category := Category(Some(nextCategoryId), name, Some(description), None, None);
      categories := categories[nextCategoryId := category];
      nextCategoryId := nextCategoryId + 1;
    }

    /** Stores a new product under the next product id and advances that counter. */
    method CreateProduct(name: string, description: string, basePrice: Decimal,
                         currentPrice: Decimal, productCategories: set<Category>,
                         stockQuantity: int, status: ProductStatus, now: Timestamp)
      returns (product: Product)
      requires Valid()
      modifies this
      ensures Valid()
      ensures product == Product(Some(old(nextProductId)), name, Some(description), basePrice,
        currentPrice, Some(productCategories), None, Some(stockQuantity), Some(status),
        None, None, Some(now), Some(now))
      ensures products == old(products)[old(nextProductId) := product]
      ensures nextProductId == old(nextProductId) + 1
      ensures categories == old(categories) && nextCategoryId == old(nextCategoryId)
    {
      product := Product(Some(nextProductId), name, Some(description), basePrice, currentPrice,
        Some(productCategories), None, Some(stockQuantity), Some(status), None, None,
        Some(now), Some(now));
      products := products[nextProductId := product];
      nextProductId := nextProductId + 1;
    }

    /** Inserts or replaces a product. With no id the product is copied under
        the next product id (which is not checked against the stored keys); with
        the id of a stored product it replaces that product, keeping its id and
        createdAt; with any other id it is stored as it came. */
    method Save(product: Product, now: Timestamp) returns (saved: Product)
      requires Valid()
      modifies this
      ensures Valid()
      ensures saved.id.Some?
      ensures products == old(products)[saved.id.value := saved]
      ensures FindById(saved.id.value) == Some(saved)
      ensures forall k :: k in old(products) && k != saved.id.value ==>
        k in products && products[k] == old(products)[k]
      ensures SameDetails(saved, product)
      ensures product.id.None? ==>
        && saved.id == Some(old(nextProductId))
        && nextProductId == old(nextProductId) + 1
        && saved.createdAt == Some(now) && saved.updatedAt == Some(now)
      ensures product.id.Some? ==> saved.id == product.id && nextProductId == old(nextProductId)
      ensures product.id.Some? && product.id.value in old(products) ==>
        saved.createdAt == old(products)[product.id.value].createdAt && saved.updatedAt == Some(now)
      ensures product.id.Some? && product.id.value !in old(products) ==> saved == product
      ensures categories == old(categories) && nextCategoryId == old(nextCategoryId)
    {
      saved := product;
      if product.id.None? {
        saved := product.(id := Some(nextProductId), createdAt := Some(now), updatedAt := Some(now));
        nextProductId := nextProductId + 1;
      } else {
        var existing := FindById(product.id.value);
        if existing.Some? {
          saved := product.(id := existing.value.id, createdAt := existing.value.createdAt,
                            updatedAt := Some(now));
        }
      }
      products := products[saved.id.value := saved];
    }

    /** Optional.ofNullable(products.get(id)): absent rather than an error. */
    function FindById(id: int): (r: Option<Product>)
      reads this
      ensures r.Some? <==> id in products
      ensures r.Some? ==> r.value == products[id]
    {
      if id in products then Some(products[id]) else None
    }

    /** Every stored product, once each, in the map's iteration order. */
    function FindAll(order: seq<int>): (r: seq<Product>)
      reads this
      requires IsEnumeration(order, products.Keys)
      ensures |r| == |order| == |products|
      ensures forall i :: 0 <= i < |order| ==> r[i] == products[order[i]]
      ensures forall p :: p in r <==> IsStored(products, p)
    {
      ValuesInOrderContents(products, order);
      EnumerationSize(order, products.Keys);
      ValuesInOrder(products, order)
    }

    /** In a valid store no product is listed twice, since each carries its own key as id. */
    lemma FindAllDistinct(order: seq<int>)
      requires Valid() && IsEnumeration(order, products.Keys)
      ensures forall i, j :: 0 <= i < j < |FindAll(order)| ==> FindAll(order)[i] != FindAll(order)[j]
    {
      var r := FindAll(order);
      forall i, j | 0 <= i < j < |r|
        ensures r[i] != r[j]
      {
        assert order[i] in products && order[j] in products;
        assert r[i].id == Some(order[i]) && r[j].id == Some(order[j]);
      }
    }

    /** Removes the key; nothing happens when it is absent. */
    method DeleteById(id: int)
      requires Valid()
      modifies this
      ensures Valid()
      ensures products == old(products) - {id}
      ensures FindById(id).None?
      ensures id in old(products) ==> |products| == |old(products)| - 1
      ensures id !in old(products) ==> products == old(products)
      ensures categories == old(categories)
      ensures nextProductId == old(nextProductId) && nextCategoryId == old(nextCategoryId)
    {
      products := products - {id};
      if id in old(products) {
        assert products.Keys == old(products).Keys - {id};
      } else {
        assert products == old(products);
      }
    }

    /** Nothing for an id missing from the category table, even when products
        reference it; otherwise the stored products with a category of that id. */
    function FindByCategoryId(categoryId: int, order: seq<int>): (r: seq<Product>)
      reads this
      requires IsEnumeration(order, products.Keys)
      ensures categoryId !in categories ==> r == []
      ensures IsSubsequence(r, FindAll(order))
      ensures forall p :: p in r <==>
        categoryId in categories && IsStored(products, p) && InCategory(p, categoryId)
    {
      if categoryId !in categories then [] else Filter(FindAll(order), CategoryTest(categoryId))
    }

    function FindByNameContaining(name: Option<string>, order: seq<int>): (r: seq<Product>)
      reads this
      requires IsEnumeration(order, products.Keys)
      ensures IsBlank(name) ==> r == []
      ensures IsSubsequence(r, FindAll(order))
      ensures forall p :: p in r <==>
        !IsBlank(name) && IsStored(products, p) && MatchesName(p, name.value)
    {
      if IsBlank(name) then [] else Filter(FindAll(order), NameTest(name.value))
    }

    function FindByDescriptionContaining(description: Option<string>, order: seq<int>): (r: seq<Product>)
      reads this
      requires IsEnumeration(order, products.Keys)
      ensures IsBlank(description) ==> r == []
      ensures IsSubsequence(r, FindAll(order))
      ensures forall p :: p in r <==>
        !IsBlank(description) && IsStored(products, p) && MatchesDescription(p, description.value)
    {
      if IsBlank(description) then [] else Filter(FindAll(order), DescriptionTest(description.value))
    }

    function FindByNameOrDescriptionContaining(keyword: Option<string>, order: seq<int>): (r: seq<Product>)
      reads this
      requires IsEnumeration(order, products.Keys)
      ensures IsBlank(keyword) ==> r == []
      ensures IsSubsequence(r, FindAll(order))
      ensures forall p :: p in r <==>
        !IsBlank(keyword) && IsStored(products, p) && MatchesKeyword(p, keyword.value)
    {
      if IsBlank(keyword) then [] else Filter(FindAll(order), KeywordTest(keyword.value))
    }

    /** The name-or-description finder finds what the two single-field finders
        find together. */
    lemma NameOrDescriptionIsUnion(keyword: Option<string>, order: seq<int>)
      requires IsEnumeration(order, products.Keys)
      ensures forall p :: p in FindByNameOrDescriptionContaining(keyword, order) <==>
        p in FindByNameContaining(keyword, order) || p in FindByDescriptionContaining(keyword, order)
    {
    }
  }
}
