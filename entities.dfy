/** The persistence records the mappers translate to and from
    (ProductEntity, CategoryEntity), reduced to their fields. The entity's
    stock is a primitive int column, so it is never absent. */
module Entities {
  import opened Wrappers
  import opened Domain

  datatype CategoryEntity = CategoryEntity(
    id: Option<int>,
    name: string,
    description: Option<string>,
    parentCategory: Option<CategoryEntity>,
    products: Option<set<ProductEntity>>)

  datatype ProductEntity = ProductEntity(
    id: Option<int>,
    name: string,
    description: Option<string>,
    basePrice: Decimal,
    currentPrice: Decimal,
    stockQuantity: int,
    status: Option<ProductStatus>,
    categories: Option<set<CategoryEntity>>,
    imageUrl: Option<string>,
    weight: Option<Decimal>,
    dimensions: Option<Decimal>,
    createdAt: Option<Timestamp>,
    updatedAt: Option<Timestamp>)
}
