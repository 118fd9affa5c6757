/** The catalog's domain values: Product, Category and ProductStatus
    (com.ecommerce.domain.model). Every Java reference field that the code
    allows to be null is an Option. The product's name and current price are
    dereferenced without a null check by the finders, filters and sorts, so
    they are modelled as always present. The base price is only copied, never
    inspected; it is modelled as always present to keep the model simple. */
module Domain {
  import opened Wrappers

  /** A BigDecimal. The code only ever compares prices with compareTo, which
      ignores the scale, so an exact rational number is a faithful model. */
  type Decimal = real

  /** A LocalDateTime reading. The model never inspects one: it only records
      that a timestamp was set from the clock or carried over. */
  type Timestamp = int

  datatype ProductStatus = Active | Discontinued | OutOfStock

  datatype Category = Category(
    id: Option<int>,
    name: string,
    description: Option<string>,
    parentCategory: Option<Category>,
    products: Option<set<Product>>)

  datatype Product = Product(
    id: Option<int>,
    name: string,
    description: Option<string>,
    basePrice: Decimal,
    currentPrice: Decimal,
    categories: Option<set<Category>>,
    imageUrl: Option<string>,
    stockQuantity: Option<int>,
    status: Option<ProductStatus>,
    weight: Option<Decimal>,
    dimensions: Option<Decimal>,
    createdAt: Option<Timestamp>,
    updatedAt: Option<Timestamp>)

  /** `product.getStatus() == ProductStatus.ACTIVE`; a null status is not active. */
  predicate IsActive(p: Product) {
    p.status == Some(Active)
  }

  /** The product's category set is present and holds a category with that id. */
  predicate InCategory(p: Product, categoryId: int) {
    p.categories.Some? && exists c :: c in p.categories.value && c.id == Some(categoryId)
  }

  /** The fields every save copies from the incoming product: all but the id
      and the two timestamps. */
  predicate SameDetails(a: Product, b: Product) {
    && a.name == b.name
    && a.description == b.description
    && a.basePrice == b.basePrice
    && a.currentPrice == b.currentPrice
    && a.categories == b.categories
    && a.imageUrl == b.imageUrl
    && a.stockQuantity == b.stockQuantity
    && a.status == b.status
    && a.weight == b.weight
    && a.dimensions == b.dimensions
  }
}
