/** The admin endpoints (AdminProductController under /api/admin/products):
    each calls the management service and turns its outcome into a status. */
module AdminController {
  import opened Wrappers
  import opened Domain
  import opened MockStore
  import opened Http
  import ProductManagement

  /** An update's outcome as a response: 200 with the product, or 404 for the
      not-found error the handler catches. */
  function UpdateResponse(result: Result<Product, ProductManagement.NotFound>): (r: Response<Product>)
    ensures r.status == OK <==> result.Ok?
    ensures r.status == NOT_FOUND <==> result.Err?
    ensures result.Ok? ==> r.body == Some(result.value)
    ensures result.Err? ==> r.body.None?
  {
    match result
    case Ok(product) => OkResponse(product)
    case Err(_) => NotFoundResponse()
  }

  /** POST: 201 with the saved product. */
  method CreateProduct(repo: MockProductPortAdapter, product: Product, now: Timestamp) returns (response: Response<Product>)
    requires repo.Valid()
    modifies repo
    ensures repo.Valid()
    ensures response.status == CREATED && response.body.Some?
    ensures var saved := response.body.value;
      && saved.id.Some? && repo.FindById(saved.id.value) == Some(saved)
      && repo.products == old(repo.products)[saved.id.value := saved]
      && SameDetails(saved, product)
      && (product.id.None? ==>
            && saved.id == Some(old(repo.nextProductId))
            && repo.nextProductId == old(repo.nextProductId) + 1
            && saved.createdAt == Some(now) && saved.updatedAt == Some(now))
      && (product.id.Some? ==> saved.id == product.id && repo.nextProductId == old(repo.nextProductId))
      && (product.id.Some? && product.id.value in old(repo.products) ==>
            saved.createdAt == old(repo.products)[product.id.value].createdAt && saved.updatedAt == Some(now))
      && (product.id.Some? && product.id.value !in old(repo.products) ==> saved == product)
    ensures repo.categories == old(repo.categories) && repo.nextCategoryId == old(repo.nextCategoryId)
  {
    var saved := ProductManagement.CreateProduct(repo, product, now);
    response := Response(CREATED, Some(saved));
  }

  /** PUT /{id}: 200 with the saved product, or 404 with nothing saved. */
  method UpdateProduct(repo: MockProductPortAdapter, id: int, product: Product, now: Timestamp)
    returns (response: Response<Product>)
    requires repo.Valid()
    modifies repo
    ensures repo.Valid()
    ensures id !in old(repo.products) ==>
      response == NotFoundResponse() && repo.products == old(repo.products)
    ensures id in old(repo.products) ==>
      && response.status == OK && response.body.Some?
      && response.body.value.id == Some(id)
      && SameDetails(response.body.value, product)
      && response.body.value.createdAt == old(repo.products[id].createdAt)
      && response.body.value.updatedAt == Some(now)
      && repo.products == old(repo.products)[id := response.body.value]
    ensures repo.nextProductId == old(repo.nextProductId)
    ensures repo.categories == old(repo.categories) && repo.nextCategoryId == old(repo.nextCategoryId)
  {
    var result := ProductManagement.UpdateProduct(repo, id, product, now);
    response := UpdateResponse(result);
  }

  /** DELETE /{id}: 204 whether or not the id was stored. */
  method DeleteProduct(repo: MockProductPortAdapter, id: int) returns (response: Response<()>)
    requires repo.Valid()
    modifies repo
    ensures repo.Valid()
    ensures response == Response(NO_CONTENT, None)
    ensures repo.products == old(repo.products) - {id}
    ensures repo.categories == old(repo.categories)
    ensures repo.nextProductId == old(repo.nextProductId) && repo.nextCategoryId == old(repo.nextCategoryId)
  {
    ProductManagement.DeleteProduct(repo, id);
    response := Response(NO_CONTENT, None);
  }

  /** GET: 200 with every stored product. */
  function GetAllProducts(repo: MockProductPortAdapter, order: seq<int>): (r: Response<seq<Product>>)
    reads repo
    requires IsEnumeration(order, repo.products.Keys)
    ensures r.status == OK && r.body.Some?
    ensures |r.body.value| == |repo.products|
    ensures forall p :: p in r.body.value <==> IsStored(repo.products, p)
  {
    OkResponse(ProductManagement.GetAllProducts(repo, order))
  }

  /** GET /{id}: 200 with the product, or 404. */
  function GetProductById(repo: MockProductPortAdapter, id: int): (r: Response<Product>)
    reads repo
    ensures id in repo.products ==> r == Response(OK, Some(repo.products[id]))
    ensures id !in repo.products ==> r == Response(NOT_FOUND, None)
  {
    match ProductManagement.GetProductById(repo, id)
    case Some(product) => OkResponse(product)
    case None => NotFoundResponse()
  }

  /** PATCH /{id}/stock: reads the product, sets its stock (with no check on
      the quantity) and saves it through the update. Only the stock and the
      update timestamp change; an unknown id answers 404 and saves nothing. */
  method UpdateProductStock(repo: MockProductPortAdapter, id: int, quantity: int, now: Timestamp)
    returns (response: Response<Product>)
    requires repo.Valid()
    modifies repo
    ensures repo.Valid()
    ensures id !in old(repo.products) ==>
      && response == NotFoundResponse()
      && repo.products == old(repo.products)
      && repo.nextProductId == old(repo.nextProductId)
    ensures id in old(repo.products) ==>
      var patched := old(repo.products[id]).(stockQuantity := Some(quantity), updatedAt := Some(now));
      && response == Response(OK, Some(patched))
      && repo.products == old(repo.products)[id := patched]
      && repo.nextProductId == old(repo.nextProductId)
    ensures repo.categories == old(repo.categories) && repo.nextCategoryId == old(repo.nextCategoryId)
  {
    var found := ProductManagement.GetProductById(repo, id);
    if found.None? {
      response := NotFoundResponse();
    } else {
      var product := found.value.(stockQuantity := Some(quantity));
      var result := ProductManagement.UpdateProduct(repo, id, product, now);
      response := UpdateResponse(result);
    }
  }
}
