/** The product controller's decision logic. `Get` routes its eight optional
    query parameters to exactly one repository read; `Create` validates a
    batch of products and then runs the repository and facade updates in a
    fixed order, stopping at the first failure. The repository and the
    facade are not modelled here: their answers are inputs, and `Create`
    returns the trace of the calls it makes. */
module Controller {
  import opened Common
  import opened Catalog
  import opened Repository
  import FakeRepository

  /** The one repository read a `Get` request makes. */
  datatype ReadCall =
    | InfoRead                          // GetProductInfo()
    | ProductRead(id: int)              // GetProduct(id)
    | ListRead(filters: FakeRepository.ListFilters)    // GetProducts(seven filters)

  /** C#'s lifted `x > k` on an `int?`: false when `x` is null. */
  predicate LiftedGreater(x: Option<int>, k: int)
  {
    x.Some? && x.value > k
  }

  /** C#'s `x ?? d`. */
  function ValueOr(x: Option<int>, d: int): (r: int)
    ensures x.Some? ==> r == x.value
    ensures x.None? ==> r == d
  {
    if x.Some? then x.value else d
  }

  /** The controller's own unset tests: ids below 1, prices below 0.01. */
  predicate IdUnset(x: Option<int>)
  {
    x.None? || x.value < 1
  }

  predicate PriceUnset(x: Option<real>)
  {
    x.None? || x.value < 0.01
  }

  /** No parameter of the request is given. */
  predicate AllUnset(q: Filters)
  {
    && IdUnset(q.productId)
    && IdUnset(q.brandId)
    && IdUnset(q.categoryId)
    && IsNullOrEmpty(q.brand)
    && IsNullOrEmpty(q.category)
    && IsNullOrEmpty(q.searchString)
    && PriceUnset(q.minPrice)
    && PriceUnset(q.maxPrice)
  }

  /** The seven filters the list branch forwards (all but the product id). */
  function Forwarded(q: Filters): (f: FakeRepository.ListFilters)
    ensures f.brandId == q.brandId && f.categoryId == q.categoryId
    ensures f.brand == q.brand && f.category == q.category && f.searchString == q.searchString
    ensures f.minPrice == q.minPrice && f.maxPrice == q.maxPrice
  {
    FakeRepository.ListFilters(q.brandId, q.categoryId, q.brand, q.category, q.searchString, q.minPrice, q.maxPrice)
  }

  /** `Get` as written: the single-product branch is taken on
      `productId != null || productId > 0`, so on any non-null id. */
  function Get(q: Filters): (r: ReadCall)
    ensures r.ProductRead? ==> q.productId.Some? && r.id == q.productId.value
    ensures r.ListRead? ==> r.filters == Forwarded(q)
  {
    if AllUnset(q) then InfoRead
    else if q.productId.Some? || LiftedGreater(q.productId, 0) then ProductRead(ValueOr(q.productId, 0))
    else ListRead(Forwarded(q))
  }

  /** Which read `Get` makes, in both directions: metadata exactly when
      nothing is given; otherwise the product lookup exactly when a product
      id is present, with that id whatever its sign; otherwise the list query
      with the other seven parameters unchanged. */
  lemma GetRoutes(q: Filters)
    ensures Get(q) == InfoRead <==> AllUnset(q)
    ensures Get(q).ProductRead? <==> !AllUnset(q) && q.productId.Some?
    ensures Get(q).ProductRead? ==> Get(q).id == q.productId.value
    ensures Get(q).ListRead? <==> !AllUnset(q) && q.productId.None?
    ensures Get(q).ListRead? ==> Get(q).filters == Forwarded(q)
  {
  }

  /** Some parameter of the list query is given in the repositories' sense
      (ids above 0, prices above 0, strings neither null nor empty). */
  predicate SomeListFilter(f: FakeRepository.ListFilters)
  {
    IdSet(f.brandId) || IdSet(f.categoryId) || TextSet(f.brand) || TextSet(f.category)
    || TextSet(f.searchString) || PriceSet(f.minPrice) || PriceSet(f.maxPrice)
  }

  /** The list branch never forwards a query that the repository would treat
      as unfiltered: the controller's thresholds are at least as strict as
      the repository's. */
  lemma ListReadIsFiltered(q: Filters)
    requires Get(q).ListRead?
    ensures SomeListFilter(Get(q).filters)
  {
    GetRoutes(q);
  }

  /** The thresholds differ: a minimum price of 0.005 counts as unset for the
      controller, which answers with metadata, though the repository's query
      would have applied it. */
  lemma PriceThresholdGap()
    ensures var q := Filters(None, None, None, None, None, None, Some(0.005), None);
      Get(q) == InfoRead && PriceSet(q.minPrice)
  {
  }

  /** `Get` with the single-product test the surrounding checks evidently
      mean: take the product lookup only for a positive product id. */
  function GetIntended(q: Filters): ReadCall
  {
    if AllUnset(q) then InfoRead
    else if LiftedGreater(q.productId, 0) then ProductRead(q.productId.value)
    else ListRead(Forwarded(q))
  }

  /** The intended routing looks a product up only by a positive id, and
      every request with a filter but no usable product id reaches the list
      query with those filters. */
  lemma GetIntendedRoutes(q: Filters)
    ensures GetIntended(q).ProductRead? ==> GetIntended(q).id > 0 && GetIntended(q).id == q.productId.value
    ensures !AllUnset(q) && IdUnset(q.productId) ==> GetIntended(q) == ListRead(Forwarded(q))
    ensures GetIntended(q) == InfoRead <==> AllUnset(q)
  {
  }

  /** As written, `productId = 0` together with a brand id looks up product 0
      and drops the brand filter, where the intended routing runs the list
      query by brand. */
  lemma ZeroProductIdIgnoresFilters()
    ensures var q := Filters(Some(0), Some(3), None, None, None, None, None, None);
      Get(q) == ProductRead(0)
      && GetIntended(q) == ListRead(FakeRepository.ListFilters(Some(3), None, None, None, None, None, None))
  {
  }

  /** The two routings agree on every request whose product id is null or positive. */
  lemma GetAgreesWhenIdUsable(q: Filters)
    requires q.productId.None? || q.productId.value > 0
    ensures Get(q) == GetIntended(q)
  {
  }

  /** The controller's responses to `Create`. */
  datatype Response = Ok | NotFound | UnprocessableEntity

  /** A call `Create` makes, with the product batch it passes on. */
  datatype Call =
    | UpdateBrands(items: seq<ProductDto>)
    | UpdateCategories(items: seq<ProductDto>)
    | UpdateProducts(items: seq<ProductDto>)
    | FacadeUpdateProducts(items: seq<ProductDto>)

  /** What each collaborator answers when it is called. */
  datatype Outcomes = Outcomes(brands: bool, categories: bool, products: bool, facade: bool)

  /** The response together with the calls made, in order. */
  datatype CreateResult = CreateResult(response: Response, calls: seq<Call>)

  /** No element of the batch is null. */
  predicate AllPresent(s: seq<Option<ProductDto>>)
  {
    forall i :: 0 <= i < |s| ==> s[i].Some?
  }

  /** A batch the controller accepts: not null, not empty, no null element. */
  predicate Acceptable(products: Option<seq<Option<ProductDto>>>)
  {
    products.Some? && |products.value| >= 1 && AllPresent(products.value)
  }

  /** The elements of a batch without nulls. */
  function Present(s: seq<Option<ProductDto>>): (r: seq<ProductDto>)
    requires AllPresent(s)
    ensures |r| == |s|
    ensures forall i :: 0 <= i < |s| ==> s[i] == Some(r[i])
  {
    seq(|s|, i requires 0 <= i < |s| => s[i].value)
  }

  /** How many facade calls a trace holds. */
  function FacadeCalls(calls: seq<Call>): (n: nat)
    ensures n <= |calls|
    ensures n == 0 <==> forall c :: c in calls ==> !c.FacadeUpdateProducts?
    decreases |calls|
  {
    if calls == [] then 0
    else
      assert calls == [calls[0]] + calls[1..];
      (if calls[0].FacadeUpdateProducts? then 1 else 0) + FacadeCalls(calls[1..])
  }

  /** The call sequence the controller makes after validation: brands, then
      categories only if brands succeeded, then products only if both did, then
      the facade only if products did. */
  function Sequenced(items: seq<ProductDto>, o: Outcomes): (out: CreateResult)
  {
    if !o.brands then CreateResult(NotFound, [UpdateBrands(items)])
    else if !o.categories then CreateResult(NotFound, [UpdateBrands(items), UpdateCategories(items)])
    else if !o.products then
      CreateResult(NotFound, [UpdateBrands(items), UpdateCategories(items), UpdateProducts(items)])
    else
      CreateResult(Ok, [UpdateBrands(items), UpdateCategories(items), UpdateProducts(items),
                        FacadeUpdateProducts(items)])
  }

  /** What `Create` does about a batch, given the collaborators' answers. */
  function CreateSpec(products: Option<seq<Option<ProductDto>>>, o: Outcomes): (r: CreateResult)
    ensures |r.calls| <= 4
    ensures r.response == Ok ==> |r.calls| == 4 && r.calls[3].FacadeUpdateProducts?
  {
    if !Acceptable(products) then CreateResult(UnprocessableEntity, [])
    else Sequenced(Present(products.value), o)
  }

  /** A rejected batch gets 422 and causes no call at all; only a rejected
      batch gets 422. */
  lemma CreateValidates(products: Option<seq<Option<ProductDto>>>, o: Outcomes)
    ensures CreateSpec(products, o).response == UnprocessableEntity <==> !Acceptable(products)
    ensures !Acceptable(products) ==> CreateSpec(products, o).calls == []
  {
  }

  /** The request succeeds exactly when brands, categories and products all
      succeed, whatever the facade answers; the facade is then called exactly
      once, and otherwise never. */
  lemma CreateSucceeds(products: Option<seq<Option<ProductDto>>>, o: Outcomes)
    ensures CreateSpec(products, o).response == Ok <==>
      Acceptable(products) && o.brands && o.categories && o.products
    ensures FacadeCalls(CreateSpec(products, o).calls) == if CreateSpec(products, o).response == Ok then 1 else 0
    ensures CreateSpec(products, o) == CreateSpec(products, o.(facade := !o.facade))
  {
    if Acceptable(products) && o.brands && o.categories && o.products {
      var items := Present(products.value);
      var calls := [UpdateBrands(items), UpdateCategories(items), UpdateProducts(items), FacadeUpdateProducts(items)];
      assert CreateSpec(products, o).calls == calls;
      assert calls[1..][1..][1..] == [FacadeUpdateProducts(items)];
      assert FacadeCalls(calls[1..][1..][1..]) == 1 by {
        assert calls[1..][1..][1..][1..] == [];
      }
      assert FacadeCalls(calls) == FacadeCalls(calls[1..]) == FacadeCalls(calls[1..][1..]);
    }
  }

  /** A failed brand update stops everything after it; a failed category
      update stops the product update; every call carries the whole batch. */
  lemma CreateShortCircuits(products: Option<seq<Option<ProductDto>>>, o: Outcomes)
    requires Acceptable(products)
    ensures var calls := CreateSpec(products, o).calls;
      && |calls| >= 1 && calls[0] == UpdateBrands(Present(products.value))
      && (forall c :: c in calls ==> c.items == Present(products.value))
      && (!o.brands ==> |calls| == 1 && CreateSpec(products, o).response == NotFound)
      && (o.brands && !o.categories ==> forall c :: c in calls ==> !c.UpdateProducts?)
      && (forall c :: c in calls && c.UpdateProducts? ==> o.brands && o.categories)
  {
  }

  /** The controller action: reject a null or empty batch, reject it at the
      first null element, then update brands, categories and products in
      that order and notify the facade. */
  method Create(products: Option<seq<Option<ProductDto>>>, o: Outcomes)
    returns (response: Response, calls: seq<Call>)
    ensures CreateResult(response, calls) == CreateSpec(products, o)
  {
    calls := [];
    if products.None? || |products.value| < 1 {
      return UnprocessableEntity, calls;
    }
    var batch := products.value;
    for i := 0 to |batch|
      invariant forall j :: 0 <= j < i ==> batch[j].Some?
    {
      if batch[i].None? {
        return UnprocessableEntity, calls;
      }
    }
    var items := Present(batch);
    calls := calls + [UpdateBrands(items)];
    var updated := o.brands;
    if updated {
      calls := calls + [UpdateCategories(items)];
      updated := o.categories;
    }
    if !updated {
      return NotFound, calls;
    }
    calls := calls + [UpdateProducts(items)];
    if o.products {
      calls := calls + [FacadeUpdateProducts(items)];
      return Ok, calls;
    }
    return NotFound, calls;
  }
}
