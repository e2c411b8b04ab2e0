/** The database-backed product repository: the Products, Brands and
    Categories tables, the filtered product query, and the upserts that
    create and edit products. */
module Repository {
  import opened Common
  import opened Seqs
  import opened Catalog

  // ---------------------------------------------------------------------
  // Brand and category tables
  // ---------------------------------------------------------------------

  /** No two rows share an id: BrandId and CategoryId are primary keys. */
  predicate DistinctIds(rows: seq<NamedRow>)
  {
    forall i, j :: 0 <= i < j < |rows| ==> rows[i].id != rows[j].id
  }

  function HasId(id: int): NamedRow -> bool
  {
    (r: NamedRow) => r.id == id
  }

  /** `SingleOrDefault(r => r.Id == id)`: the position of the row with this id. */
  function IndexOfId(rows: seq<NamedRow>, id: int): (k: Option<nat>)
    ensures k.Some? ==> k.value < |rows| && rows[k.value].id == id
    ensures k.Some? ==> forall i :: 0 <= i < k.value ==> rows[i].id != id
    ensures k.None? ==> forall i :: 0 <= i < |rows| ==> rows[i].id != id
  {
    FirstWhere(rows, HasId(id))
  }

  /** The name stored under `id`: the table read as an id-to-name map. */
  function Lookup(rows: seq<NamedRow>, id: int): Option<string>
  {
    match IndexOfId(rows, id)
    case None => None
    case Some(k) => Some(rows[k].name)
  }

  /** In a table with distinct ids, the row at position `k` is what its id looks up. */
  lemma LookupAt(rows: seq<NamedRow>, k: nat)
    requires DistinctIds(rows) && k < |rows|
    ensures IndexOfId(rows, rows[k].id) == Some(k)
    ensures Lookup(rows, rows[k].id) == Some(rows[k].name)
  {
  }

  /** The table after an upsert of `(id, name)`: a new row at the end when
      the id is absent, that row renamed in place otherwise. */
  function Upsert(rows: seq<NamedRow>, id: int, name: string): (u: seq<NamedRow>)
    ensures NamedRow(id, name) in u
    ensures |u| == |rows| || |u| == |rows| + 1
  {
    match IndexOfId(rows, id)
    case None => rows + [NamedRow(id, name)]
    case Some(k) =>
      assert rows[k := NamedRow(id, name)][k] == NamedRow(id, name);
      rows[k := NamedRow(id, name)]
  }

  /** An upsert keeps the ids distinct, maps `id` to `name`, leaves every
      other entry as it was, inserts at the end or renames in place, and is
      the identity when the name is already stored. */
  lemma UpsertSpec(rows: seq<NamedRow>, id: int, name: string)
    requires DistinctIds(rows)
    ensures DistinctIds(Upsert(rows, id, name))
    ensures Lookup(Upsert(rows, id, name), id) == Some(name)
    ensures forall other :: other != id ==> Lookup(Upsert(rows, id, name), other) == Lookup(rows, other)
    ensures Lookup(rows, id).None? ==> Upsert(rows, id, name) == rows + [NamedRow(id, name)]
    ensures Lookup(rows, id).Some? ==>
      |Upsert(rows, id, name)| == |rows| &&
      forall i :: 0 <= i < |rows| ==> Upsert(rows, id, name)[i].id == rows[i].id
    ensures Lookup(rows, id) == Some(name) ==> Upsert(rows, id, name) == rows
  {
    var u := Upsert(rows, id, name);
    var n := |u| - 1;
    match IndexOfId(rows, id)
    case None =>
      LookupAt(u, n);
      forall other | other != id
        ensures Lookup(u, other) == Lookup(rows, other)
      {
        match IndexOfId(rows, other)
        case None =>
          assert forall i :: 0 <= i < |u| ==> u[i].id != other;
        case Some(k) =>
          LookupAt(u, k);
      }
    case Some(k) =>
      LookupAt(u, k);
      forall other | other != id
        ensures Lookup(u, other) == Lookup(rows, other)
      {
        match IndexOfId(rows, other)
        case None =>
          assert forall i :: 0 <= i < |u| ==> u[i].id != other;
        case Some(j) =>
          LookupAt(u, j);
      }
      if rows[k].name == name {
        assert u == rows;
      }
  }

  /** Whether an upsert of `(id, name)` reports success: either the name is
      already stored (nothing to save) or the save went through. */
  predicate UpsertSucceeds(rows: seq<NamedRow>, id: int, name: string, saved: bool)
  {
    Lookup(rows, id) == Some(name) || saved
  }

  /** The names of a table, in table order. */
  function Names(rows: seq<NamedRow>): (names: seq<string>)
    ensures |names| == |rows|
    ensures forall i :: 0 <= i < |rows| ==> names[i] == rows[i].name
    decreases |rows|
  {
    if rows == [] then [] else [rows[0].name] + Names(rows[1..])
  }

  function HasName(name: string): NamedRow -> bool
  {
    (r: NamedRow) => r.name == name
  }

  /** The position of the first row carrying this name. */
  function IndexOfName(rows: seq<NamedRow>, name: string): (k: Option<nat>)
    ensures k.Some? ==> k.value < |rows| && rows[k.value].name == name
    ensures k.Some? ==> forall i :: 0 <= i < k.value ==> rows[i].name != name
    ensures k.None? ==> forall i :: 0 <= i < |rows| ==> rows[i].name != name
  {
    FirstWhere(rows, HasName(name))
  }

  /** `FirstOrDefault(r => r.Name == name)`, read for its id: the id of the
      first row carrying that name, or None where the C# code has a null. */
  function FirstIdNamed(rows: seq<NamedRow>, name: string): Option<int>
  {
    match IndexOfName(rows, name)
    case None => None
    case Some(k) => Some(rows[k].id)
  }

  // ---------------------------------------------------------------------
  // The product query
  // ---------------------------------------------------------------------

  /** The optional query parameters; None is a C# null. */
  datatype Filters = Filters(
    productId: Option<int>,
    brandId: Option<int>,
    categoryId: Option<int>,
    brand: Option<string>,
    category: Option<string>,
    searchString: Option<string>,
    minPrice: Option<real>,
    maxPrice: Option<real>)

  /** The column filters the query applies before the name lookups. */
  predicate MatchesColumns(p: Product, f: Filters)
  {
    && (IdSet(f.productId) ==> p.productId == f.productId.value)
    && (IdSet(f.brandId) ==> p.brandId == f.brandId.value)
    && (IdSet(f.categoryId) ==> p.categoryId == f.categoryId.value)
    && (PriceSet(f.minPrice) ==> p.price >= f.minPrice.value)
    && (PriceSet(f.maxPrice) ==> p.price <= f.maxPrice.value)
    && (TextSet(f.searchString) ==>
         Contains(p.name, f.searchString.value) || Contains(p.description, f.searchString.value))
  }

  /** The brand-name filter: the product's brand id is the id of the first
      brand with that name. */
  predicate BrandMatches(p: Product, brands: seq<NamedRow>, f: Filters)
  {
    TextSet(f.brand) ==> FirstIdNamed(brands, f.brand.value) == Some(p.brandId)
  }

  /** The category-name filter, symmetric to BrandMatches. */
  predicate CategoryMatches(p: Product, categories: seq<NamedRow>, f: Filters)
  {
    TextSet(f.category) ==> FirstIdNamed(categories, f.category.value) == Some(p.categoryId)
  }

  /** Every active filter holds of `p`: the meaning of the query. */
  predicate Selected(p: Product, brands: seq<NamedRow>, categories: seq<NamedRow>, f: Filters)
  {
    MatchesColumns(p, f) && BrandMatches(p, brands, f) && CategoryMatches(p, categories, f)
  }

  function ColumnsKeep(f: Filters): Product -> bool
  {
    p => MatchesColumns(p, f)
  }

  function BrandKeep(brands: seq<NamedRow>, f: Filters): Product -> bool
  {
    p => BrandMatches(p, brands, f)
  }

  function CategoryKeep(categories: seq<NamedRow>, f: Filters): Product -> bool
  {
    p => CategoryMatches(p, categories, f)
  }

  function SelectedKeep(brands: seq<NamedRow>, categories: seq<NamedRow>, f: Filters): Product -> bool
  {
    p => Selected(p, brands, categories, f)
  }

  /** Which name lookup dereferenced a null. */
  datatype NameLookup = BrandLookup | CategoryLookup

  /** The outcome of the query: the products, or the NullReferenceException
      that a name lookup finding no row raises as soon as one product
      reaches it. */
  datatype QueryResult = Products(items: seq<Product>) | NullReference(lookup: NameLookup)

  /** GetProducts: the chain of `Where` filters over the Products table.
      The predicates run product by product in chain order, so a brand
      (category) name without a row fails only if some product gets as far
      as that filter. */
  function Query(products: seq<Product>, brands: seq<NamedRow>, categories: seq<NamedRow>, f: Filters): (r: QueryResult)
    ensures r.Products? ==> forall p :: p in r.items ==> p in products
    ensures r == NullReference(BrandLookup) ==> TextSet(f.brand) && FirstIdNamed(brands, f.brand.value).None?
    ensures r == NullReference(CategoryLookup) ==>
      TextSet(f.category) && FirstIdNamed(categories, f.category.value).None?
  {
    var byColumns := Filter(products, ColumnsKeep(f));
    if TextSet(f.brand) && FirstIdNamed(brands, f.brand.value).None? && byColumns != [] then
      NullReference(BrandLookup)
    else
      var byBrand := Filter(byColumns, BrandKeep(brands, f));
      if TextSet(f.category) && FirstIdNamed(categories, f.category.value).None? && byBrand != [] then
        NullReference(CategoryLookup)
      else
        Products(Filter(byBrand, CategoryKeep(categories, f)))
  }

  /** A successful query returns exactly the products of the table that
      satisfy every active filter, in table order. */
  lemma QueryExact(products: seq<Product>, brands: seq<NamedRow>, categories: seq<NamedRow>, f: Filters)
    ensures Query(products, brands, categories, f).Products? ==>
      Query(products, brands, categories, f).items == Filter(products, SelectedKeep(brands, categories, f))
  {
    var cb: Product -> bool := p => MatchesColumns(p, f) && BrandMatches(p, brands, f);
    FilterCompose(products, ColumnsKeep(f), BrandKeep(brands, f), cb);
    FilterCompose(products, cb, CategoryKeep(categories, f), SelectedKeep(brands, categories, f));
  }

  /** The query fails exactly when a name filter is active, no row has that
      name, and some product passes every filter before that lookup. */
  lemma QueryFails(products: seq<Product>, brands: seq<NamedRow>, categories: seq<NamedRow>, f: Filters)
    ensures Query(products, brands, categories, f) == NullReference(BrandLookup) <==>
      TextSet(f.brand) && FirstIdNamed(brands, f.brand.value).None? &&
      exists p :: p in products && MatchesColumns(p, f)
    ensures Query(products, brands, categories, f) == NullReference(CategoryLookup) <==>
      !(TextSet(f.brand) && FirstIdNamed(brands, f.brand.value).None? &&
        exists p :: p in products && MatchesColumns(p, f)) &&
      TextSet(f.category) && FirstIdNamed(categories, f.category.value).None? &&
      exists p :: p in products && MatchesColumns(p, f) && BrandMatches(p, brands, f)
  {
    var byColumns := Filter(products, ColumnsKeep(f));
    var cb: Product -> bool := p => MatchesColumns(p, f) && BrandMatches(p, brands, f);
    FilterCompose(products, ColumnsKeep(f), BrandKeep(brands, f), cb);
    NonEmptyFilter(products, ColumnsKeep(f));
    NonEmptyFilter(products, cb);
  }

  /** A filter result is non-empty exactly when some element passes. */
  lemma NonEmptyFilter<T>(s: seq<T>, keep: T -> bool)
    ensures Filter(s, keep) != [] <==> exists x :: x in s && keep(x)
  {
    if exists x :: x in s && keep(x) {
      var x :| x in s && keep(x);
      InFilter(s, keep, x);
    }
  }

  /** Every product returned lies within the active price bounds, matches
      the active ids and contains the active search string. */
  lemma QueryResultsMatch(products: seq<Product>, brands: seq<NamedRow>, categories: seq<NamedRow>, f: Filters, p: Product)
    requires Query(products, brands, categories, f).Products?
    requires p in Query(products, brands, categories, f).items
    ensures p in products
    ensures PriceSet(f.minPrice) ==> f.minPrice.value <= p.price
    ensures PriceSet(f.maxPrice) ==> p.price <= f.maxPrice.value
    ensures IdSet(f.productId) ==> p.productId == f.productId.value
    ensures IdSet(f.brandId) ==> p.brandId == f.brandId.value
    ensures IdSet(f.categoryId) ==> p.categoryId == f.categoryId.value
    ensures TextSet(f.searchString) ==>
      Contains(p.name, f.searchString.value) || Contains(p.description, f.searchString.value)
    ensures TextSet(f.brand) ==> FirstIdNamed(brands, f.brand.value) == Some(p.brandId)
    ensures TextSet(f.category) ==> FirstIdNamed(categories, f.category.value) == Some(p.categoryId)
  {
    QueryExact(products, brands, categories, f);
  }

  /** Active price bounds with the minimum above the maximum select nothing. */
  lemma DisjointPriceBounds(products: seq<Product>, brands: seq<NamedRow>, categories: seq<NamedRow>, f: Filters)
    requires PriceSet(f.minPrice) && PriceSet(f.maxPrice) && f.minPrice.value > f.maxPrice.value
    ensures Query(products, brands, categories, f).Products?
    ensures Query(products, brands, categories, f).items == []
  {
    NonEmptyFilter(products, ColumnsKeep(f));
  }

  /** The filters with every unset parameter (null, non-positive or empty)
      replaced by null. */
  function Normalize(f: Filters): (g: Filters)
  {
    Filters(
      if IdSet(f.productId) then f.productId else None,
      if IdSet(f.brandId) then f.brandId else None,
      if IdSet(f.categoryId) then f.categoryId else None,
      if TextSet(f.brand) then f.brand else None,
      if TextSet(f.category) then f.category else None,
      if TextSet(f.searchString) then f.searchString else None,
      if PriceSet(f.minPrice) then f.minPrice else None,
      if PriceSet(f.maxPrice) then f.maxPrice else None)
  }

  /** Passing 0, a negative id or price, or an empty string is the same as
      passing null. */
  lemma UnsetIsNull(products: seq<Product>, brands: seq<NamedRow>, categories: seq<NamedRow>, f: Filters)
    ensures Query(products, brands, categories, Normalize(f)) == Query(products, brands, categories, f)
  {
    var g := Normalize(f);
    NormalizeKeeps(f, brands, categories);
    FilterExt(products, ColumnsKeep(g), ColumnsKeep(f));
    var byColumns := Filter(products, ColumnsKeep(f));
    FilterExt(byColumns, BrandKeep(brands, g), BrandKeep(brands, f));
    var byBrand := Filter(byColumns, BrandKeep(brands, f));
    FilterExt(byBrand, CategoryKeep(categories, g), CategoryKeep(categories, f));
  }

  /** Normalizing changes none of the three filter predicates, and keeps the
      name parameters that are set. */
  lemma NormalizeKeeps(f: Filters, brands: seq<NamedRow>, categories: seq<NamedRow>)
    ensures forall p :: ColumnsKeep(Normalize(f))(p) == ColumnsKeep(f)(p)
    ensures forall p :: BrandKeep(brands, Normalize(f))(p) == BrandKeep(brands, f)(p)
    ensures forall p :: CategoryKeep(categories, Normalize(f))(p) == CategoryKeep(categories, f)(p)
    ensures TextSet(Normalize(f).brand) == TextSet(f.brand) && (TextSet(f.brand) ==> Normalize(f).brand == f.brand)
    ensures TextSet(Normalize(f).category) == TextSet(f.category)
    ensures TextSet(f.category) ==> Normalize(f).category == f.category
  {
  }

  /** No active filter: the whole table, in table order. */
  lemma NoFilterReturnsAll(products: seq<Product>, brands: seq<NamedRow>, categories: seq<NamedRow>, f: Filters)
    requires Normalize(f) == Filters(None, None, None, None, None, None, None, None)
    ensures Query(products, brands, categories, f) == Products(products)
  {
    FilterAll(products, ColumnsKeep(f));
    FilterAll(products, BrandKeep(brands, f));
    FilterAll(products, CategoryKeep(categories, f));
  }

  /** No parameter is set in both `f` and `g`. */
  predicate Disjoint(f: Filters, g: Filters)
  {
    && !(IdSet(f.productId) && IdSet(g.productId))
    && !(IdSet(f.brandId) && IdSet(g.brandId))
    && !(IdSet(f.categoryId) && IdSet(g.categoryId))
    && !(TextSet(f.brand) && TextSet(g.brand))
    && !(TextSet(f.category) && TextSet(g.category))
    && !(TextSet(f.searchString) && TextSet(g.searchString))
    && !(PriceSet(f.minPrice) && PriceSet(g.minPrice))
    && !(PriceSet(f.maxPrice) && PriceSet(g.maxPrice))
  }

  /** The parameters of `f` and `g` passed together. */
  function Conjoin(f: Filters, g: Filters): Filters
  {
    Filters(
      if IdSet(f.productId) then f.productId else g.productId,
      if IdSet(f.brandId) then f.brandId else g.brandId,
      if IdSet(f.categoryId) then f.categoryId else g.categoryId,
      if TextSet(f.brand) then f.brand else g.brand,
      if TextSet(f.category) then f.category else g.category,
      if TextSet(f.searchString) then f.searchString else g.searchString,
      if PriceSet(f.minPrice) then f.minPrice else g.minPrice,
      if PriceSet(f.maxPrice) then f.maxPrice else g.maxPrice)
  }

  /** With disjoint parameters, a product passes the combined filters
      exactly when it passes both sets. */
  lemma ConjoinSelected(p: Product, brands: seq<NamedRow>, categories: seq<NamedRow>, f: Filters, g: Filters)
    requires Disjoint(f, g)
    ensures Selected(p, brands, categories, Conjoin(f, g)) ==
      (Selected(p, brands, categories, f) && Selected(p, brands, categories, g))
  {
    var h := Conjoin(f, g);
    assert MatchesColumns(p, h) == (MatchesColumns(p, f) && MatchesColumns(p, g));
    assert BrandMatches(p, brands, h) == (BrandMatches(p, brands, f) && BrandMatches(p, brands, g));
    assert CategoryMatches(p, categories, h) == (CategoryMatches(p, categories, f) && CategoryMatches(p, categories, g));
  }

  /** Filters combine by AND: the query with the parameters of `f` and `g`
      together returns exactly the products that both separate queries return. */
  lemma AndComposition(products: seq<Product>, brands: seq<NamedRow>, categories: seq<NamedRow>, f: Filters, g: Filters, p: Product)
    requires Disjoint(f, g)
    requires Query(products, brands, categories, f).Products?
    requires Query(products, brands, categories, g).Products?
    requires Query(products, brands, categories, Conjoin(f, g)).Products?
    ensures p in Query(products, brands, categories, Conjoin(f, g)).items <==>
      p in Query(products, brands, categories, f).items && p in Query(products, brands, categories, g).items
  {
    var h := Conjoin(f, g);
    QueryExact(products, brands, categories, f);
    QueryExact(products, brands, categories, g);
    QueryExact(products, brands, categories, h);
    ConjoinSelected(p, brands, categories, f, g);
    InFilter(products, SelectedKeep(brands, categories, f), p);
    InFilter(products, SelectedKeep(brands, categories, g), p);
    InFilter(products, SelectedKeep(brands, categories, h), p);
  }

  // ---------------------------------------------------------------------
  // The store and its updates
  // ---------------------------------------------------------------------

  function HasProductId(id: int): Product -> bool
  {
    (p: Product) => p.productId == id
  }

  /** The position of the first product with this id
      (`FirstOrDefault(p => p.ProductId == id)`). */
  function IndexOfProduct(products: seq<Product>, id: int): (k: Option<nat>)
    ensures k.Some? ==> k.value < |products| && products[k.value].productId == id
    ensures k.Some? ==> forall i :: 0 <= i < k.value ==> products[i].productId != id
    ensures k.None? ==> forall i :: 0 <= i < |products| ==> products[i].productId != id
  {
    FirstWhere(products, HasProductId(id))
  }

  /** The Products row that mapping a repository model yields: the fields
      with the same names are copied. */
  function AsProduct(m: ProductRepoModel): Product
  {
    Product(m.productId, m.name, m.description, m.quantity, m.brandId, m.categoryId, m.price)
  }

  /** A stored product after an edit: name, description, price, brand and
      category are overwritten; the quantity is increased by the model's
      quantity, with C# `int` wrap-around. */
  function Edit(p: Product, m: ProductRepoModel): (e: Product)
    ensures e.productId == p.productId
    ensures e.name == m.name && e.description == m.description && e.price == m.price
    ensures e.brandId == m.brandId && e.categoryId == m.categoryId
    ensures e.quantity == WrapInt32(p.quantity + m.quantity)
    ensures IsInt32(p.quantity + m.quantity) ==> e.quantity == p.quantity + m.quantity
  {
    Product(p.productId, m.name, m.description, WrapInt32(p.quantity + m.quantity),
            m.brandId, m.categoryId, m.price)
  }

  /** Wrapping does not depend on which representative of a residue is wrapped. */
  lemma WrapCongruent(x: int, y: int, q: int)
    requires x - y == q * 0x1_0000_0000
    ensures WrapInt32(x) == WrapInt32(y)
  {
    ModShift(y - Int32Min, q);
  }

  lemma {:induction false} ModShift(b: int, q: int)
    ensures (b + q * 0x1_0000_0000) % 0x1_0000_0000 == b % 0x1_0000_0000
    decreases if q < 0 then -q else q
  {
    if q > 0 {
      ModShift(b, q - 1);
      assert b + q * 0x1_0000_0000 == (b + (q - 1) * 0x1_0000_0000) + 0x1_0000_0000;
    } else if q < 0 {
      ModShift(b, q + 1);
      assert b + q * 0x1_0000_0000 == (b + (q + 1) * 0x1_0000_0000) - 0x1_0000_0000;
    }
  }

  /** Stock adjustments accumulate: two edits in a row leave the quantity
      of one edit by the summed deltas, and the other fields of the later one. */
  lemma EditTwice(p: Product, m1: ProductRepoModel, m2: ProductRepoModel)
    ensures Edit(Edit(p, m1), m2) == Edit(p, m2.(quantity := WrapInt32(m1.quantity + m2.quantity)))
  {
    var m := 0x1_0000_0000;
    var x := WrapInt32(p.quantity + m1.quantity) + m2.quantity;
    var y := p.quantity + WrapInt32(m1.quantity + m2.quantity);
    var q1 := (p.quantity + m1.quantity - WrapInt32(p.quantity + m1.quantity)) / m;
    var q2 := (m1.quantity + m2.quantity - WrapInt32(m1.quantity + m2.quantity)) / m;
    assert x - y == (q2 - q1) * m;
    WrapCongruent(x, y, q2 - q1);
  }

  /** No two products share an id: ProductId is the primary key, and its
      values are assigned by the caller, never generated. */
  predicate DistinctProductIds(products: seq<Product>)
  {
    forall i, j :: 0 <= i < j < |products| ==> products[i].productId != products[j].productId
  }

  /** The outcome of each SaveChangesAsync an operation may reach: true when
      it completes, false when it throws DbUpdateConcurrencyException. */
  datatype Saves = Saves(category: bool, brand: bool, product: bool)

  /** How `NewProduct` ends: it returns its boolean, or adding a row whose
      ProductId is already stored throws an exception that it does not catch
      (only DbUpdateConcurrencyException is caught). */
  datatype Completion = Returned(ok: bool) | DuplicateKey

  /** The repository over a database context holding the three tables. */
  class ProductRepository {
    var products: seq<Product>
    var brands: seq<NamedRow>
    var categories: seq<NamedRow>

    /** The primary keys of Products, Brands and Categories are unique. */
    ghost predicate Valid()
      reads this
    {
      DistinctProductIds(products) && DistinctIds(brands) && DistinctIds(categories)
    }

    constructor (products: seq<Product>, brands: seq<NamedRow>, categories: seq<NamedRow>)
      requires DistinctProductIds(products) && DistinctIds(brands) && DistinctIds(categories)
      ensures Valid()
      ensures this.products == products && this.brands == brands && this.categories == categories
    {
      this.products := products;
      this.brands := brands;
      this.categories := categories;
    }

    /** Some product has this id. */
    function ProductExists(id: int): (b: bool)
      reads this
      ensures b <==> exists i :: 0 <= i < |products| && products[i].productId == id
    {
      IndexOfProduct(products, id).Some?
    }

    /** Every brand name and every category name, in table order. */
    function GetProductInfo(): (info: ProductInfo)
      reads this
      ensures |info.brands| == |brands| && |info.categories| == |categories|
      ensures forall i :: 0 <= i < |brands| ==> info.brands[i] == brands[i].name
      ensures forall i :: 0 <= i < |categories| ==> info.categories[i] == categories[i].name
    {
      ProductInfo(Names(brands), Names(categories))
    }

    /** The filtered product list; reading it changes nothing. A successful
        query lists selected products of the table, in table order. */
    function GetProducts(f: Filters): (r: QueryResult)
      reads this
      ensures r.Products? ==> IsSubseq(r.items, products)
      ensures r.Products? ==> forall p :: p in r.items ==> Selected(p, brands, categories, f)
      ensures r.Products? ==> forall p :: p in products && Selected(p, brands, categories, f) ==> p in r.items
    {
      QueryExact(products, brands, categories, f);
      forall p | p in products
        ensures p in Filter(products, SelectedKeep(brands, categories, f)) <==> Selected(p, brands, categories, f)
      {
        InFilter(products, SelectedKeep(brands, categories, f), p);
      }
      Query(products, brands, categories, f)
    }

    /** Upsert of one brand row: insert when the id is absent, succeed without
        saving when the name is already stored, rename otherwise. */
    method UpdateBrands(brandId: int, brand: string, saved: bool) returns (ok: bool)
      requires Valid()
      modifies this
      ensures Valid()
      ensures ok == UpsertSucceeds(old(brands), brandId, brand, saved)
      ensures brands == if ok then Upsert(old(brands), brandId, brand) else old(brands)
      ensures products == old(products) && categories == old(categories)
    {
      UpsertSpec(brands, brandId, brand);
      var k := IndexOfId(brands, brandId);
      var pending: seq<NamedRow>;
      if k.None? {
        pending := brands + [NamedRow(brandId, brand)];
      } else if brands[k.value].name == brand {
        return true;
      } else {
        pending := brands[k.value := NamedRow(brandId, brand)];
      }
      if saved {
        brands := pending;
        ok := true;
      } else {
        ok := false;
      }
    }

    /** Upsert of one category row, by the same rule as UpdateBrands. */
    method UpdateCategories(categoryId: int, category: string, saved: bool) returns (ok: bool)
      requires Valid()
      modifies this
      ensures Valid()
      ensures ok == UpsertSucceeds(old(categories), categoryId, category, saved)
      ensures categories == if ok then Upsert(old(categories), categoryId, category) else old(categories)
      ensures products == old(products) && brands == old(brands)
    {
      UpsertSpec(categories, categoryId, category);
      var k := IndexOfId(categories, categoryId);
      var pending: seq<NamedRow>;
      if k.None? {
        pending := categories + [NamedRow(categoryId, category)];
      } else if categories[k.value].name == category {
        return true;
      } else {
        pending := categories[k.value := NamedRow(categoryId, category)];
      }
      if saved {
        categories := pending;
        ok := true;
      } else {
        ok := false;
      }
    }

    /** Adds a product: upserts its category, then (only if that succeeded)
        its brand, then (only if that succeeded) appends the product row.
        Earlier saved upserts stay when a later step fails, and also when
        the product's id is already stored and the add throws. */
    method NewProduct(model: Option<ProductRepoModel>, saves: Saves) returns (r: Completion)
      requires Valid()
      modifies this
      ensures Valid()
      ensures model.None? ==>
        r == Returned(false) && products == old(products) && brands == old(brands) && categories == old(categories)
      ensures model.Some? ==>
        var m := model.value;
        var categoryOk := UpsertSucceeds(old(categories), m.categoryId, m.category, saves.category);
        var brandOk := categoryOk && UpsertSucceeds(old(brands), m.brandId, m.brand, saves.brand);
        var duplicate := IndexOfProduct(old(products), m.productId).Some?;
        && r == (if brandOk && duplicate then DuplicateKey else Returned(brandOk && saves.product))
        && categories == (if categoryOk then Upsert(old(categories), m.categoryId, m.category) else old(categories))
        && brands == (if brandOk then Upsert(old(brands), m.brandId, m.brand) else old(brands))
        && products == (if r == Returned(true) then old(products) + [AsProduct(m)] else old(products))
    {
      r := Returned(false);
      if model.Some? {
        var m := model.value;
        var categoryOk := UpdateCategories(m.categoryId, m.category, saves.category);
        if categoryOk {
          var brandOk := UpdateBrands(m.brandId, m.brand, saves.brand);
          if brandOk {
            if IndexOfProduct(products, m.productId).Some? {
              r := DuplicateKey;
            } else if saves.product {
              products := products + [AsProduct(m)];
              r := Returned(true);
            }
          }
        }
      }
    }

    /** Edits the first product with the model's id: upserts category and
        brand as NewProduct does, then overwrites its fields and adds the
        model's quantity to the stored one. A null model or an unknown id
        changes nothing. */
    method EditProduct(model: Option<ProductRepoModel>, saves: Saves) returns (ok: bool)
      requires Valid()
      modifies this
      ensures Valid()
      ensures (model.None? || IndexOfProduct(old(products), model.value.productId).None?) ==>
        !ok && products == old(products) && brands == old(brands) && categories == old(categories)
      ensures model.Some? && IndexOfProduct(old(products), model.value.productId).Some? ==>
        var m := model.value;
        var k := IndexOfProduct(old(products), m.productId).value;
        var categoryOk := UpsertSucceeds(old(categories), m.categoryId, m.category, saves.category);
        var brandOk := categoryOk && UpsertSucceeds(old(brands), m.brandId, m.brand, saves.brand);
        && ok == (brandOk && saves.product)
        && categories == (if categoryOk then Upsert(old(categories), m.categoryId, m.category) else old(categories))
        && brands == (if brandOk then Upsert(old(brands), m.brandId, m.brand) else old(brands))
        && products == (if ok then old(products)[k := Edit(old(products)[k], m)] else old(products))
    {
      ok := false;
      if model.Some? {
        var m := model.value;
        var k := IndexOfProduct(products, m.productId);
        if k.Some? {
          var categoryOk := UpdateCategories(m.categoryId, m.category, saves.category);
          if categoryOk {
            var brandOk := UpdateBrands(m.brandId, m.brand, saves.brand);
            if brandOk {
              if saves.product {
                products := products[k.value := Edit(products[k.value], m)];
                ok := true;
              }
            }
          }
        }
      }
    }
  }
}
