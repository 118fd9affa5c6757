# Product catalog core, modelled in Dafny

This project models the behaviour of a small e-commerce product catalog:

- an in-memory product repository (`MockProductPortAdapter`);
- the catalog browsing rules: ACTIVE selection, stable price sorts and an inclusive price filter;
- the public catalog endpoints, including the staged `/browse` pipeline;
- the product management service and the admin endpoints that map its outcomes to HTTP statuses;
- the domain/persistence mappers for products and categories.

The modules follow the program's layers:

| file | module | models |
|---|---|---|
| `wrappers.dfy` | `Wrappers` | `Option` (a nullable reference, `Optional`) and `Result` (a value or a thrown exception) |
| `domain.dfy` | `Domain` | `Product`, `Category`, `ProductStatus` |
| `text.dfy` | `Text` | `toLowerCase` + `contains` matching on names and descriptions |
| `sequences.dfy` | `Sequences` | `stream().filter(...).toList()` as an order-preserving `Filter`, and the subsequence relation |
| `mock_store.dfy` | `MockStore` | the repository class, its fixture data and its finders |
| `catalog_browsing.dfy` | `CatalogBrowsing` | the browsing service |
| `http.dfy` | `Http` | the status and body of a `ResponseEntity` |
| `catalog_controller.dfy` | `CatalogController` | `/api/catalog` |
| `product_management.dfy` | `ProductManagement` | the management service |
| `admin_controller.dfy` | `AdminController` | `/api/admin/products` |
| `entities.dfy` | `Entities` | the field shapes of `ProductEntity` and `CategoryEntity` |
| `category_mapper.dfy`, `product_mapper.dfy` | `CategoryMapper`, `ProductMapper` | the mappers |

Modelling decisions:

- **Repository.** It is a class. Its two `HashMap` fields are `map<int, Product>` and `map<int, Category>`, and its counters are `int` fields. `save`, `deleteById` and the seeding helpers are methods with `modifies`; the finders are functions that read the object.
- **Iteration order.** A `HashMap` iterates in an order the code does not fix. Every listing therefore takes `order`, an enumeration of the key set, and its contract holds for every such order.
- **Services and controllers.** Their only state is the repository they are built with, so they take the store object as a parameter. The interfaces `CatalogBrowsingService` and `ProductManagementService` that the controllers call are not part of this model. The shown implementations, `CatalogBrowsingServiceTestImpl` and `ProductManagementServiceTestImpl`, stand in for them.
- **Prices.** `BigDecimal` is compared only with `compareTo`, so prices are exact `real` numbers.
- **Clock.** Each `LocalDateTime.now()` reading is a `now` parameter of the call that makes it (see "## Left out").
- **Nulls.** Nullable fields are `Option`. A product's name and current price are always present, because the finders, filters and sorts dereference them. Its base price is also always present, only to keep the model simple: no operation looks at it (see "## Left out").
- **Sorting.** `Stream.sorted` is stable. The sort is therefore modelled as an insertion sort that keeps equal prices in input order. It is specified independently by sortedness plus stability: for each price, the products with that price keep their relative order. A uniqueness lemma shows that these two properties fix the result.
- **Saving without an id.** When a product without an id is saved, it gets the counter's value and the store then writes it under that key. The counter is not checked against keys stored earlier under explicit ids, so such a save can replace a product that was stored under an explicit id equal to the counter. `MockStore.MockProductPortAdapter.Save` states this: the save always updates exactly the key `saved.id`.

## Model

| member | source | states |
|---|---|---|
| MockStore.MockProductPortAdapter.constructor | src/main/java/com/ecommerce/infrastructure/persistence/MockProductPortAdapter.java:26-71 | the seeded store holds exactly categories 1..4 and products 1..10 with the fixture values, with `nextCategoryId = 5` and `nextProductId = 11`, and every entry is keyed by its own id |
| MockStore.SeedProductFacts | src/main/java/com/ecommerce/infrastructure/persistence/MockProductPortAdapter.java:32-70 | every seeded product carries its key as id; "Smart Watch" is the only OUT_OF_STOCK product and the only one with stock 0; all others are ACTIVE |
| MockStore.MockProductPortAdapter.CreateCategory | src/main/java/com/ecommerce/infrastructure/persistence/MockProductPortAdapter.java:73-82 | stores a category with the current counter as id and the given name and description, under that id, and advances the counter by one |
| MockStore.MockProductPortAdapter.CreateProduct | src/main/java/com/ecommerce/infrastructure/persistence/MockProductPortAdapter.java:84-102 | stores a product built from the arguments, with both timestamps from the clock, under the current counter, and advances the counter by one |
| MockStore.MockProductPortAdapter.Save | src/main/java/com/ecommerce/infrastructure/persistence/MockProductPortAdapter.java:104-145 | the store afterwards is the old store with `saved` at `saved.id` and nothing else changed; `saved` copies every non-id, non-timestamp field of the input. With no id, `saved` gets the counter, the counter goes up by exactly one, and both timestamps are set. With a stored id, the id and the stored `createdAt` are kept and `updatedAt` is set. With an unknown id, the input is stored as it is and the counter is untouched |
| MockStore.MockProductPortAdapter.FindById | src/main/java/com/ecommerce/infrastructure/persistence/MockProductPortAdapter.java:147-150 | present exactly when the key is stored, and then the stored product; never an error |
| MockStore.MockProductPortAdapter.FindAll | src/main/java/com/ecommerce/infrastructure/persistence/MockProductPortAdapter.java:152-155 | one entry per key, in the iteration order, holding exactly the stored products |
| MockStore.MockProductPortAdapter.FindAllDistinct | src/main/java/com/ecommerce/infrastructure/persistence/MockProductPortAdapter.java:152-155 | in a store whose entries carry their own keys, no product is listed twice |
| MockStore.MockProductPortAdapter.DeleteById | src/main/java/com/ecommerce/infrastructure/persistence/MockProductPortAdapter.java:157-160 | removes exactly that key, which shrinks the store by one when the key was present; an absent key leaves the store unchanged |
| MockStore.MockProductPortAdapter.FindByCategoryId | src/main/java/com/ecommerce/infrastructure/persistence/MockProductPortAdapter.java:162-173 | empty for an id missing from the category table, even if products reference it; otherwise exactly the stored products with a category of that id, in iteration order |
| MockStore.MockProductPortAdapter.FindByNameContaining | src/main/java/com/ecommerce/infrastructure/persistence/MockProductPortAdapter.java:175-185 | empty for a null or empty query; otherwise exactly the stored products whose lower-cased name contains the lower-cased query, in iteration order |
| MockStore.MockProductPortAdapter.FindByDescriptionContaining | src/main/java/com/ecommerce/infrastructure/persistence/MockProductPortAdapter.java:187-198 | the same for descriptions; products with no description never match |
| MockStore.MockProductPortAdapter.FindByNameOrDescriptionContaining | src/main/java/com/ecommerce/infrastructure/persistence/MockProductPortAdapter.java:200-213 | the same for name or description |
| MockStore.MockProductPortAdapter.NameOrDescriptionIsUnion | src/main/java/com/ecommerce/infrastructure/persistence/MockProductPortAdapter.java:175-213 | the name-or-description finder finds exactly what the name finder and the description finder find together |
| CatalogBrowsing.ActiveOnly | src/test/java/com/ecommerce/application/service/CatalogBrowsingServiceTestImpl.java:21 | an order-preserving subsequence holding exactly the ACTIVE elements, each with as many copies as the input has |
| CatalogBrowsing.GetAllActiveProducts | src/test/java/com/ecommerce/application/service/CatalogBrowsingServiceTestImpl.java:19-23 | a subsequence of `findAll` holding exactly the stored ACTIVE products |
| CatalogBrowsing.GetProductsByCategory | src/test/java/com/ecommerce/application/service/CatalogBrowsingServiceTestImpl.java:25-29 | a subsequence of the category finder's result holding exactly its ACTIVE products |
| CatalogBrowsing.SearchProducts | src/test/java/com/ecommerce/application/service/CatalogBrowsingServiceTestImpl.java:31-35 | empty for a blank keyword; otherwise the ACTIVE subsequence of the name-or-description finder's result |
| CatalogBrowsing.SearchProductsByName | src/test/java/com/ecommerce/application/service/CatalogBrowsingServiceTestImpl.java:37-41 | the ACTIVE subsequence of the name finder's result |
| CatalogBrowsing.SearchProductsByDescription | src/test/java/com/ecommerce/application/service/CatalogBrowsingServiceTestImpl.java:43-47 | the ACTIVE subsequence of the description finder's result |
| CatalogBrowsing.Insert | src/test/java/com/ecommerce/application/service/CatalogBrowsingServiceTestImpl.java:49-59 | inserting into a list adds exactly that one element (as a multiset) |
| CatalogBrowsing.InsertSorted | src/test/java/com/ecommerce/application/service/CatalogBrowsingServiceTestImpl.java:49-59 | insertion into a sorted list keeps it sorted |
| CatalogBrowsing.InsertStable | src/test/java/com/ecommerce/application/service/CatalogBrowsingServiceTestImpl.java:49-59 | insertion puts the new element ahead of every element of the same price |
| CatalogBrowsing.SortByPrice | src/test/java/com/ecommerce/application/service/CatalogBrowsingServiceTestImpl.java:49-59 | the result is a permutation of the input and is sorted by current price in the requested direction |
| CatalogBrowsing.SortStableAt | src/test/java/com/ecommerce/application/service/CatalogBrowsingServiceTestImpl.java:49-59 | for each price, the sort keeps the products with that price in input order |
| CatalogBrowsing.SortStable | src/test/java/com/ecommerce/application/service/CatalogBrowsingServiceTestImpl.java:49-59 | the sort is stable, for every price at once |
| CatalogBrowsing.SortSortedIsIdentity | src/test/java/com/ecommerce/application/service/CatalogBrowsingServiceTestImpl.java:49-59 | a list already sorted in that direction is returned unchanged |
| CatalogBrowsing.SortIdempotent | src/test/java/com/ecommerce/application/service/CatalogBrowsingServiceTestImpl.java:49-59 | sorting twice equals sorting once |
| CatalogBrowsing.SortedStableUnique | src/test/java/com/ecommerce/application/service/CatalogBrowsingServiceTestImpl.java:49-59 | two sorted lists with the same products in the same order within each price are equal |
| CatalogBrowsing.SortCharacterized | src/test/java/com/ecommerce/application/service/CatalogBrowsingServiceTestImpl.java:49-59 | any sorted, stable reordering of the input is the sort's result |
| CatalogBrowsing.SortProductsByPriceAsc | src/test/java/com/ecommerce/application/service/CatalogBrowsingServiceTestImpl.java:49-53 | non-decreasing current price, a permutation of the input, ties in input order |
| CatalogBrowsing.SortProductsByPriceDesc | src/test/java/com/ecommerce/application/service/CatalogBrowsingServiceTestImpl.java:55-59 | non-increasing current price, a permutation of the input, ties in input order |
| CatalogBrowsing.DistinctPricesSingleClass | src/test/java/com/ecommerce/application/service/CatalogBrowsingServiceTestImpl.java:49-59 | when all prices differ, each price selects at most one product |
| CatalogBrowsing.DescendingReversesAscendingWithoutTies | src/test/java/com/ecommerce/application/service/CatalogBrowsingServiceTestImpl.java:49-59 | when no two prices are equal, the descending sort is the reverse of the ascending sort |
| CatalogBrowsing.TiedPricesKeepInputOrder | src/test/java/com/ecommerce/application/service/CatalogBrowsingServiceTestImpl.java:49-59 | with two distinct products of equal price, both sorts keep input order, so descending is not ascending reversed |
| CatalogBrowsing.FilterByPriceRange | src/test/java/com/ecommerce/application/service/CatalogBrowsingServiceTestImpl.java:61-69 | an order-preserving subsequence holding exactly the products whose price is at least the minimum (if given) and at most the maximum (if given), each with as many copies as the input has; the input may be any list |
| CatalogBrowsing.PriceRangeUnbounded | src/test/java/com/ecommerce/application/service/CatalogBrowsingServiceTestImpl.java:61-69 | with neither bound, the input is returned unchanged |
| CatalogBrowsing.PriceRangeInverted | src/test/java/com/ecommerce/application/service/CatalogBrowsingServiceTestImpl.java:61-69 | with minimum above maximum, the result is empty |
| CatalogBrowsing.PriceRangeIdempotent | src/test/java/com/ecommerce/application/service/CatalogBrowsingServiceTestImpl.java:61-69 | filtering twice equals filtering once |
| CatalogBrowsing.PriceRangeInStages | src/test/java/com/ecommerce/application/service/CatalogBrowsingServiceTestImpl.java:61-69 | applying the minimum, then the maximum, equals applying both |
| CatalogBrowsing.PriceRangeExcludesBoth | src/test/java/com/ecommerce/application/service/CatalogBrowsingServiceTestImpl.java:65-66 | prices 649.99 and 39.99 with bounds 40 and 500 give an empty result |
| CatalogController.GetAllProducts | src/main/java/com/ecommerce/infrastructure/web/controller/CatalogController.java:18-21 | 200 with exactly the stored ACTIVE products, as a subsequence of `findAll`, so no product is listed more often than there |
| CatalogController.GetProductsByCategory | src/main/java/com/ecommerce/infrastructure/web/controller/CatalogController.java:23-26 | 200 with exactly the ACTIVE stored products of a known category, as a subsequence of the category finder's result |
| CatalogController.SearchProducts | src/main/java/com/ecommerce/infrastructure/web/controller/CatalogController.java:28-31 | 200; empty for an empty keyword; otherwise exactly the ACTIVE stored products matching the keyword, as a subsequence of the name-or-description finder's result |
| CatalogController.SortByPriceAscending | src/main/java/com/ecommerce/infrastructure/web/controller/CatalogController.java:33-37 | 200 with the ascending sort of the active products, sorted and a permutation of them |
| CatalogController.SortByPriceDescending | src/main/java/com/ecommerce/infrastructure/web/controller/CatalogController.java:39-43 | 200 with the descending sort of the active products, sorted and a permutation of them |
| CatalogController.FilterByPriceRange | src/main/java/com/ecommerce/infrastructure/web/controller/CatalogController.java:45-51 | 200 with the price filter applied to the active products: exactly the ACTIVE stored products in range |
| CatalogController.Selection | src/main/java/com/ecommerce/infrastructure/web/controller/CatalogController.java:69-76 | the one-pass reference selection: an order-preserving subsequence of the base list holding exactly the products that pass the keyword test and the price range, each with as many copies as the base list has |
| CatalogController.SelectionWithoutCriteria | src/main/java/com/ecommerce/infrastructure/web/controller/CatalogController.java:69-76 | with no keyword and no bounds, everything in the base list is kept |
| CatalogController.BrowseBase | src/main/java/com/ecommerce/infrastructure/web/controller/CatalogController.java:61-67 | a subsequence of `findAll` holding exactly the stored ACTIVE products, restricted to a known category when a category id is given |
| CatalogController.BrowseStages | src/main/java/com/ecommerce/infrastructure/web/controller/CatalogController.java:69-76 | the keyword stage followed by the price stage selects what the one-pass selection does; a null or empty keyword applies no text filter |
| CatalogController.BrowseProducts | src/main/java/com/ecommerce/infrastructure/web/controller/CatalogController.java:53-85 | 200. The base list is the category's active products when a category is given, and all active products otherwise. The result is a stable permutation of the one-pass selection from that base: sorted ascending for `price_asc`, sorted descending for `price_desc`, and exactly the selection in base order for any other mode. It holds exactly the base products that pass the keyword test and the price range |
| ProductManagement.CreateProduct | src/test/java/com/ecommerce/application/service/ProductManagementServiceTestImpl.java:16-18 | the product is saved and is then found under its id, keeping the input's details. With no id it gets the counter, the counter goes up by one and both timestamps are set. With a stored id, `createdAt` is kept and `updatedAt` is set. With an unknown id the input is stored as it is. The categories and their counter are untouched |
| ProductManagement.UpdateProduct | src/test/java/com/ecommerce/application/service/ProductManagementServiceTestImpl.java:20-27 | not-found exactly when the id is not stored, and then the store is unchanged; otherwise the input is saved under the requested id, keeping the stored `createdAt` and changing only that key |
| ProductManagement.DeleteProduct | src/test/java/com/ecommerce/application/service/ProductManagementServiceTestImpl.java:29-31 | afterwards the id is not found; a stored id shrinks the store by one; an unknown id changes nothing; the categories and both counters are untouched |
| ProductManagement.GetAllProducts | src/test/java/com/ecommerce/application/service/ProductManagementServiceTestImpl.java:33-35 | every stored product whatever its status, one entry per key |
| ProductManagement.GetProductById | src/test/java/com/ecommerce/application/service/ProductManagementServiceTestImpl.java:37-39 | present exactly when stored |
| ProductManagement.GetProductsByCategory | src/test/java/com/ecommerce/application/service/ProductManagementServiceTestImpl.java:41-43 | the stored products of a known category whatever their status, as a subsequence of `findAll` |
| ProductManagement.SearchProducts | src/test/java/com/ecommerce/application/service/ProductManagementServiceTestImpl.java:45-47 | name matches only, with no status filter, as a subsequence of `findAll`; empty for a blank query |
| AdminController.UpdateResponse | src/main/java/com/ecommerce/infrastructure/web/controller/AdminProductController.java:23-30 | 200 with the product exactly for a successful update, 404 with no body exactly for not-found |
| AdminController.CreateProduct | src/main/java/com/ecommerce/infrastructure/web/controller/AdminProductController.java:18-21 | 201 with the saved product, which is found under its id; the counter, timestamps and category table as for the service's create |
| AdminController.UpdateProduct | src/main/java/com/ecommerce/infrastructure/web/controller/AdminProductController.java:23-30 | 404 with no save for an unknown id; otherwise 200 with the product saved under that id, keeping the stored `createdAt` and setting `updatedAt`; the counters and the category table are untouched |
| AdminController.DeleteProduct | src/main/java/com/ecommerce/infrastructure/web/controller/AdminProductController.java:32-36 | always 204, known id or not; the key is gone afterwards; the categories and both counters are untouched |
| AdminController.GetAllProducts | src/main/java/com/ecommerce/infrastructure/web/controller/AdminProductController.java:38-41 | 200 with every stored product, one entry per key |
| AdminController.GetProductById | src/main/java/com/ecommerce/infrastructure/web/controller/AdminProductController.java:43-48 | 200 with the stored product when present, 404 when absent |
| AdminController.UpdateProductStock | src/main/java/com/ecommerce/infrastructure/web/controller/AdminProductController.java:50-60 | for an unknown id, 404 and the store is unchanged. Otherwise 200, and the stored product changes only in its stock, to the given quantity with no range check, and in its update time. No other key changes |
| CategoryMapper.ToDomain | src/main/java/com/ecommerce/infrastructure/persistence/mapper/CategoryMapper.java:26-36 | null to null; id, name and description agree at every level of the parent chain, the chains have the same length, and no category on the result's chain carries products |
| CategoryMapper.ToEntity | src/main/java/com/ecommerce/infrastructure/persistence/mapper/CategoryMapper.java:38-48 | the same in the other direction |
| CategoryMapper.WithoutProducts | src/main/java/com/ecommerce/infrastructure/persistence/mapper/CategoryMapper.java:26-48 | dropping the back-references keeps id, name, description and chain length |
| CategoryMapper.EntityWithoutProducts | src/main/java/com/ecommerce/infrastructure/persistence/mapper/CategoryMapper.java:26-48 | the same for records |
| CategoryMapper.RoundTripFromDomain | src/main/java/com/ecommerce/infrastructure/persistence/mapper/CategoryMapper.java:26-48 | domain to record and back keeps id, name, description and the whole parent chain, and drops only the products |
| CategoryMapper.RoundTripFromEntity | src/main/java/com/ecommerce/infrastructure/persistence/mapper/CategoryMapper.java:26-48 | the same round trip starting from a record |
| CategoryMapper.ToDomainSet | src/main/java/com/ecommerce/infrastructure/persistence/mapper/CategoryMapper.java:12-17 | null to null; otherwise exactly the images of the members under `toDomain` |
| CategoryMapper.ToEntitySet | src/main/java/com/ecommerce/infrastructure/persistence/mapper/CategoryMapper.java:19-24 | null to null; otherwise exactly the images of the members under `toEntity` |
| CategoryMapper.RoundTripSet | src/main/java/com/ecommerce/infrastructure/persistence/mapper/CategoryMapper.java:12-48 | a set of categories round-trips to its members without their back-references |
| CategoryMapper.RoundTripEntitySet | src/main/java/com/ecommerce/infrastructure/persistence/mapper/CategoryMapper.java:12-48 | the same for a set of records |
| ProductMapper.ToDomain | src/main/java/com/ecommerce/infrastructure/persistence/mapper/ProductMapper.java:14-32 | null to null; copies every scalar field; the stock is always present; categories go through `toDomainSet` |
| ProductMapper.ToEntity | src/main/java/com/ecommerce/infrastructure/persistence/mapper/ProductMapper.java:34-52 | null to null; needs a stock quantity (the column is an `int`); copies every scalar field; categories go through `toEntitySet` |
| ProductMapper.RoundTripFromDomain | src/main/java/com/ecommerce/infrastructure/persistence/mapper/ProductMapper.java:14-52 | domain to record and back returns the product, except that its categories lose their back-references |
| ProductMapper.RoundTripFromEntity | src/main/java/com/ecommerce/infrastructure/persistence/mapper/ProductMapper.java:14-52 | record to domain and back returns the record, except that its categories lose their back-references |

## Left out

- HTTP routing, JSON binding and Spring wiring are not modelled. A handler is a function or method from its parameters to a status and a body.
- `JpaProductPortAdapter` and `JpaProductRepository` are not part of this model. The entity classes appear only as field shapes for the mappers; their `@PrePersist` and `@PreUpdate` timestamp hooks are left out.
- `CatalogBrowsingService` and `ProductManagementService`, which the controllers call, are not part of this model. The `...TestImpl` classes stand in for them.
- Each `LocalDateTime.now()` reading is modelled as the caller's `now` value. The two readings per save are one value. The constructor's twenty readings (two per seeded product in `createProduct`) are also one value, so the model promises seeded timestamps that are all equal, which Java does not guarantee. The model never inspects a timestamp.
- Text.ToLowerCase: maps only ASCII letters. Java's locale-dependent rules for other characters are not modelled, and no lemma depends on the mapping.
- ProductMapper.ToEntity: requires a present stock quantity for a present product. In Java, unboxing a null `stockQuantity` into the entity's `int` throws a NullPointerException, and that error path is not modelled.
- A category's name is modelled as always present (`Category.name` and `CategoryEntity.name` are strings, not options). Java allows a null category name, and both mappers copy it unchanged; the model does not cover null names.
- A null product name or current price is not modelled. In Java a null name makes the text finders throw, and a null current price makes the sorts and the price filter throw; here those fields are always present.
- A null `basePrice` is not modelled. Java only copies that field (in `save` and both product mappers) and never dereferences it, so such a product can be saved, listed, sorted and filtered there; the model's `Product` and `ProductEntity` cannot represent one.
- A category with a null id inside a product's category set is treated as not matching. Java's `c.getId().equals(...)` would throw there.
- The `Long` id counters are unbounded integers; 64-bit overflow is not modelled.
- Java objects compare by identity, and the model compares values. Sets, `values().contains` and the distinctness lemma therefore speak of equal values, and a mapper's `toSet` merges structurally equal images.
- Aliasing is not modelled. `updateProduct` sets the id on the caller's own object, and the stock patch mutates the stored object before saving it; both are modelled as updated copies, which gives the same stored state.
- Concurrent requests are not modelled. The stock patch's read-modify-write is taken to run alone.
- AdminController.UpdateProductStock: also changes `updatedAt`, because the save it goes through refreshes that field. So "only the stock changes" holds only for the other fields.
- CatalogBrowsing.DescendingReversesAscendingWithoutTies: needs distinct prices. With ties the reversal claim is false, which `CatalogBrowsing.TiedPricesKeepInputOrder` shows.
- One assertion in the service's own test expects one product for bounds 40..500 over prices 649.99 and 39.99. The code returns none, and the model follows the code (`CatalogBrowsing.PriceRangeExcludesBoth`).
