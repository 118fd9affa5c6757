/** ProductMapper: product records to domain products and back. Every
    scalar field is copied as it is, the categories go through the category
    mapper, and null maps to null. */
module ProductMapper {
  import opened Wrappers
  import opened Domain
  import opened Entities
  import CategoryMapper

  /** The scalar fields both directions copy unchanged. */
  predicate SameScalars(p: Product, e: ProductEntity) {
    && p.id == e.id
    && p.name == e.name
    && p.description == e.description
    && p.basePrice == e.basePrice
    && p.currentPrice == e.currentPrice
    && p.imageUrl == e.imageUrl
    && p.status == e.status
    && p.weight == e.weight
    && p.dimensions == e.dimensions
    && p.createdAt == e.createdAt
    && p.updatedAt == e.updatedAt
  }

  /** A record always yields a stock quantity, since the column is an int. */
  function ToDomain(entity: Option<ProductEntity>): (r: Option<Product>)
    ensures r.Some? <==> entity.Some?
    ensures r.Some? ==>
      && SameScalars(r.value, entity.value)
      && r.value.stockQuantity == Some(entity.value.stockQuantity)
      && r.value.categories == CategoryMapper.ToDomainSet(entity.value.categories)
  {
    match entity
    case None => None
    case Some(e) =>
      Some(Product(e.id, e.name, e.description, e.basePrice, e.currentPrice,
        CategoryMapper.ToDomainSet(e.categories), e.imageUrl, Some(e.stockQuantity), e.status,
        e.weight, e.dimensions, e.createdAt, e.updatedAt))
  }

  /** Unboxing the stock into the int column needs it to be present. */
  function ToEntity(domain: Option<Product>): (r: Option<ProductEntity>)
    requires domain.Some? ==> domain.value.stockQuantity.Some?
    ensures r.Some? <==> domain.Some?
    ensures r.Some? ==>
      && SameScalars(domain.value, r.value)
      && r.value.stockQuantity == domain.value.stockQuantity.value
      && r.value.categories == CategoryMapper.ToEntitySet(domain.value.categories)
  {
    match domain
    case None => None
    case Some(p) =>
      Some(ProductEntity(p.id, p.name, p.description, p.basePrice, p.currentPrice,
        p.stockQuantity.value, p.status, CategoryMapper.ToEntitySet(p.categories), p.imageUrl,
        p.weight, p.dimensions, p.createdAt, p.updatedAt))
  }

  /** Domain to record and back returns the product, except that each of its
      categories loses its products back-reference. */
  lemma RoundTripFromDomain(p: Product)
    requires p.stockQuantity.Some?
    ensures ToDomain(ToEntity(Some(p))) == Some(p.(categories :=
      if p.categories.Some? then Some(CategoryMapper.AllWithoutProducts(p.categories.value)) else None))
  {
    if p.categories.Some? {
      CategoryMapper.RoundTripSet(p.categories.value);
    }
  }

  /** Record to domain and back returns the record, except that each of its
      categories loses its products back-reference. */
  lemma RoundTripFromEntity(e: ProductEntity)
    ensures ToEntity(ToDomain(Some(e))) == Some(e.(categories :=
      if e.categories.Some? then Some(CategoryMapper.AllEntitiesWithoutProducts(e.categories.value)) else None))
  {
    if e.categories.Some? {
      CategoryMapper.RoundTripEntitySet(e.categories.value);
    }
  }
}
