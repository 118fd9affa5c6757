/** The product management service (ProductManagementServiceTestImpl):
    create, update, delete and the lookups, each a call into the store.
    Update is the one with a rule of its own: it refuses an id the store does
    not hold, with an error and without saving. */
module ProductManagement {
  import opened Wrappers
  import opened Domain
  import opened Sequences
  import opened MockStore

  /** The RuntimeException "Product not found with id: <id>". */
  datatype NotFound = ProductNotFound(id: int)

  method CreateProduct(repo: MockProductPortAdapter, product: Product, now: Timestamp) returns (saved: Product)
    requires repo.Valid()
    modifies repo
    ensures repo.Valid()
    ensures saved.id.Some? && repo.FindById(saved.id.value) == Some(saved)
    ensures repo.products == old(repo.products)[saved.id.value := saved]
    ensures SameDetails(saved, product)
    ensures product.id.None? ==>
      && saved.id == Some(old(repo.nextProductId))
      && repo.nextProductId == old(repo.nextProductId) + 1
      && saved.createdAt == Some(now) && saved.updatedAt == Some(now)
    ensures product.id.Some? ==> saved.id == product.id && repo.nextProductId == old(repo.nextProductId)
    ensures product.id.Some? && product.id.value in old(repo.products) ==>
      saved.createdAt == old(repo.products)[product.id.value].createdAt && saved.updatedAt == Some(now)
    ensures product.id.Some? && product.id.value !in old(repo.products) ==> saved == product
    ensures repo.categories == old(repo.categories) && repo.nextCategoryId == old(repo.nextCategoryId)
  {
    saved := repo.Save(product, now);
  }

  /** Fails with not-found, leaving the store as it was, when no product has
      that id; otherwise saves the incoming product under that id, which
      keeps the stored createdAt and sets updatedAt. */
  method UpdateProduct(repo: MockProductPortAdapter, id: int, product: Product, now: Timestamp)
    returns (result: Result<Product, NotFound>)
    requires repo.Valid()
    modifies repo
    ensures repo.Valid()
    ensures result.Err? <==> id !in old(repo.products)
    ensures result.Err? ==>
      && result.error == ProductNotFound(id)
      && repo.products == old(repo.products)
      && repo.nextProductId == old(repo.nextProductId)
    ensures result.Ok? ==>
      && result.value.id == Some(id)
      && SameDetails(result.value, product)
      && result.value.createdAt == old(repo.products[id].createdAt)
      && result.value.updatedAt == Some(now)
      && repo.products == old(repo.products)[id := result.value]
      && repo.nextProductId == old(repo.nextProductId)
    ensures repo.categories == old(repo.categories) && repo.nextCategoryId == old(repo.nextCategoryId)
  {
    var existing := repo.FindById(id);
    if existing.Some? {
      var saved := repo.Save(product.(id := Some(id)), now);
      result := Ok(saved);
    } else {
      result := Err(ProductNotFound(id));
    }
  }

  method DeleteProduct(repo: MockProductPortAdapter, id: int)
    requires repo.Valid()
    modifies repo
    ensures repo.Valid()
    ensures repo.products == old(repo.products) - {id}
    ensures GetProductById(repo, id).None?
    ensures id in old(repo.products) ==> |repo.products| == |old(repo.products)| - 1
    ensures id !in old(repo.products) ==> repo.products == old(repo.products)
    ensures repo.categories == old(repo.categories)
    ensures repo.nextProductId == old(repo.nextProductId) && repo.nextCategoryId == old(repo.nextCategoryId)
  {
    repo.DeleteById(id);
  }

  /** Every stored product, whatever its status, once each. */
  function GetAllProducts(repo: MockProductPortAdapter, order: seq<int>): (r: seq<Product>)
    reads repo
    requires IsEnumeration(order, repo.products.Keys)
    ensures |r| == |repo.products|
    ensures forall p :: p in r <==> IsStored(repo.products, p)
  {
    repo.FindAll(order)
  }

  function GetProductById(repo: MockProductPortAdapter, id: int): (r: Option<Product>)
    reads repo
    ensures r.Some? <==> id in repo.products
    ensures r.Some? ==> r.value == repo.products[id]
  {
    repo.FindById(id)
  }

  /** The stored products of a known category, whatever their status. */
  function GetProductsByCategory(repo: MockProductPortAdapter, categoryId: int, order: seq<int>): (r: seq<Product>)
    reads repo
    requires IsEnumeration(order, repo.products.Keys)
    ensures IsSubsequence(r, repo.FindAll(order))
    ensures forall p :: p in r <==>
      categoryId in repo.categories && IsStored(repo.products, p) && InCategory(p, categoryId)
  {
    repo.FindByCategoryId(categoryId, order)
  }

  /** Matches on the name only and applies no status filter. */
  function SearchProducts(repo: MockProductPortAdapter, name: Option<string>, order: seq<int>): (r: seq<Product>)
    reads repo
    requires IsEnumeration(order, repo.products.Keys)
    ensures IsBlank(name) ==> r == []
    ensures IsSubsequence(r, repo.FindAll(order))
    ensures forall p :: p in r <==> !IsBlank(name) && IsStored(repo.products, p) && Text.MatchesName(p, name.value)
  {
    repo.FindByNameContaining(name, order)
  }
}
