/** CategoryMapper: category records to domain categories and back. Both
    directions copy id, name and description, translate the parent chain
    recursively and never copy the products back-reference; null maps to
    null. */
module CategoryMapper {
  import opened Wrappers
  import opened Domain
  import opened Entities

  /** The number of categories on the chain from `c` up to its root. */
  function ChainLength(c: Category): nat {
    if c.parentCategory.None? then 1 else 1 + ChainLength(c.parentCategory.value)
  }

  function EntityChainLength(e: CategoryEntity): nat {
    if e.parentCategory.None? then 1 else 1 + EntityChainLength(e.parentCategory.value)
  }

  /** `c` and `e` agree on id, name and description at every level of their
      parent chains, and the chains end at the same level. */
  predicate SameChain(c: Category, e: CategoryEntity)
    decreases c
  {
    && c.id == e.id && c.name == e.name && c.description == e.description
    && (c.parentCategory.Some? <==> e.parentCategory.Some?)
    && (c.parentCategory.Some? ==> SameChain(c.parentCategory.value, e.parentCategory.value))
  }

  /** No category on the chain from `c` up to its root carries products. */
  predicate NoProducts(c: Category)
    decreases c
  {
    c.products.None? && (c.parentCategory.Some? ==> NoProducts(c.parentCategory.value))
  }

  predicate EntityNoProducts(e: CategoryEntity)
    decreases e
  {
    e.products.None? && (e.parentCategory.Some? ==> EntityNoProducts(e.parentCategory.value))
  }

  /** `c` with the products back-reference dropped along its whole parent chain. */
  function WithoutProducts(c: Category): (r: Category)
    ensures r.id == c.id && r.name == c.name && r.description == c.description
    ensures r.products.None?
    ensures ChainLength(r) == ChainLength(c)
  {
    c.(parentCategory := if c.parentCategory.Some? then Some(WithoutProducts(c.parentCategory.value)) else None,
       products := None)
  }

  function EntityWithoutProducts(e: CategoryEntity): (r: CategoryEntity)
    ensures r.id == e.id && r.name == e.name && r.description == e.description
    ensures r.products.None?
    ensures EntityChainLength(r) == EntityChainLength(e)
  {
    e.(parentCategory := if e.parentCategory.Some? then Some(EntityWithoutProducts(e.parentCategory.value)) else None,
       products := None)
  }

  function ToDomain(entity: Option<CategoryEntity>): (r: Option<Category>)
    ensures r.Some? <==> entity.Some?
    ensures r.Some? ==>
      && r.value.id == entity.value.id
      && r.value.name == entity.value.name
      && r.value.description == entity.value.description
      && r.value.products.None?
      && (r.value.parentCategory.Some? <==> entity.value.parentCategory.Some?)
      && ChainLength(r.value) == EntityChainLength(entity.value)
      && SameChain(r.value, entity.value)
      && NoProducts(r.value)
    decreases entity
  {
    match entity
    case None => None
    case Some(e) =>
      Some(Category(e.id, e.name, e.description,
        if e.parentCategory.Some? then ToDomain(e.parentCategory) else None,
        None))
  }

  function ToEntity(domain: Option<Category>): (r: Option<CategoryEntity>)
    ensures r.Some? <==> domain.Some?
    ensures r.Some? ==>
      && r.value.id == domain.value.id
      && r.value.name == domain.value.name
      && r.value.description == domain.value.description
      && r.value.products.None?
      && (r.value.parentCategory.Some? <==> domain.value.parentCategory.Some?)
      && EntityChainLength(r.value) == ChainLength(domain.value)
      && SameChain(domain.value, r.value)
      && EntityNoProducts(r.value)
    decreases domain
  {
    match domain
    case None => None
    case Some(c) =>
      Some(CategoryEntity(c.id, c.name, c.description,
        if c.parentCategory.Some? then ToEntity(c.parentCategory) else None,
        None))
  }

  /** Domain to record and back keeps id, name, description and the whole
      parent chain; only the products back-reference is lost. */
  lemma {:induction false} RoundTripFromDomain(c: Category)
    ensures ToDomain(ToEntity(Some(c))) == Some(WithoutProducts(c))
    decreases c
  {
    if c.parentCategory.Some? {
      RoundTripFromDomain(c.parentCategory.value);
    }
  }

  lemma {:induction false} RoundTripFromEntity(e: CategoryEntity)
    ensures ToEntity(ToDomain(Some(e))) == Some(EntityWithoutProducts(e))
    decreases e
  {
    if e.parentCategory.Some? {
      RoundTripFromEntity(e.parentCategory.value);
    }
  }

  function ToDomainSet(entities: Option<set<CategoryEntity>>): (r: Option<set<Category>>)
    ensures r.Some? <==> entities.Some?
    ensures r.Some? ==> forall c :: c in r.value <==>
      exists e :: e in entities.value && ToDomain(Some(e)) == Some(c)
  {
    if entities.None? then None
    else Some(set e | e in entities.value :: ToDomain(Some(e)).value)
  }

  function ToEntitySet(domains: Option<set<Category>>): (r: Option<set<CategoryEntity>>)
    ensures r.Some? <==> domains.Some?
    ensures r.Some? ==> forall e :: e in r.value <==>
      exists c :: c in domains.value && ToEntity(Some(c)) == Some(e)
  {
    if domains.None? then None
    else Some(set c | c in domains.value :: ToEntity(Some(c)).value)
  }

  /** Every member of the set without its back-references. */
  function AllWithoutProducts(categories: set<Category>): set<Category> {
    set c | c in categories :: WithoutProducts(c)
  }

  /** A category set round-trips to its members without their back-references. */
  lemma RoundTripSet(categories: set<Category>)
    ensures ToDomainSet(ToEntitySet(Some(categories))) == Some(AllWithoutProducts(categories))
  {
    var back := ToDomainSet(ToEntitySet(Some(categories))).value;
    var expected := AllWithoutProducts(categories);
    forall d | d in back
      ensures d in expected
    {
      var e :| e in ToEntitySet(Some(categories)).value && ToDomain(Some(e)) == Some(d);
      var c :| c in categories && ToEntity(Some(c)) == Some(e);
      RoundTripFromDomain(c);
    }
    forall d | d in expected
      ensures d in back
    {
      var c :| c in categories && d == WithoutProducts(c);
      RoundTripFromDomain(c);
      assert ToEntity(Some(c)).value in ToEntitySet(Some(categories)).value;
    }
    assert back == expected;
  }

  function AllEntitiesWithoutProducts(entities: set<CategoryEntity>): set<CategoryEntity> {
    set e | e in entities :: EntityWithoutProducts(e)
  }

  lemma RoundTripEntitySet(entities: set<CategoryEntity>)
    ensures ToEntitySet(ToDomainSet(Some(entities))) == Some(AllEntitiesWithoutProducts(entities))
  {
    var back := ToEntitySet(ToDomainSet(Some(entities))).value;
    var expected := AllEntitiesWithoutProducts(entities);
    forall d | d in back
      ensures d in expected
    {
      var c :| c in ToDomainSet(Some(entities)).value && ToEntity(Some(c)) == Some(d);
      var e :| e in entities && ToDomain(Some(e)) == Some(c);
      RoundTripFromEntity(e);
    }
    forall d | d in expected
      ensures d in back
    {
      var e :| e in entities && d == EntityWithoutProducts(e);
      RoundTripFromEntity(e);
      assert ToDomain(Some(e)).value in ToDomainSet(Some(entities)).value;
    }
    assert back == expected;
  }
}
