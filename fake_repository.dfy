/** The in-memory repository the controller's tests run against. Its state
    is a few public lists, every operation is gated on `RepoSucceeds`, and
    its product query filters by removing the non-matching items from its
    own stored list. */
module FakeRepository {
  import opened Common
  import opened Seqs
  import opened Catalog

  /** The seven optional parameters of the list query, as the controller
      passes them and the in-memory repository takes them. */
  datatype ListFilters = ListFilters(
    brandId: Option<int>,
    categoryId: Option<int>,
    brand: Option<string>,
    category: Option<string>,
    searchString: Option<string>,
    minPrice: Option<real>,
    maxPrice: Option<real>)

  /** The seven removal passes of GetProducts, in the order they run. */
  datatype Stage = BrandIdStage | CategoryIdStage | MinPriceStage | MaxPriceStage
                 | SearchStage | BrandStage | CategoryStage

  const Stages: seq<Stage> :=
    [BrandIdStage, CategoryIdStage, MinPriceStage, MaxPriceStage, SearchStage, BrandStage, CategoryStage]

  /** Whether the parameter a pass looks at is given. */
  predicate Active(k: Stage, f: ListFilters)
  {
    match k
    case BrandIdStage => IdSet(f.brandId)
    case CategoryIdStage => IdSet(f.categoryId)
    case MinPriceStage => PriceSet(f.minPrice)
    case MaxPriceStage => PriceSet(f.maxPrice)
    case SearchStage => TextSet(f.searchString)
    case BrandStage => TextSet(f.brand)
    case CategoryStage => TextSet(f.category)
  }

  /** `p` survives pass `k`: the pass is inactive, or `p` is not one of the
      products the pass removes. */
  predicate Survives(k: Stage, f: ListFilters, p: ProductRepoModel)
  {
    Active(k, f) ==>
      match k
      case BrandIdStage => p.brandId == f.brandId.value
      case CategoryIdStage => p.categoryId == f.categoryId.value
      case MinPriceStage => !(p.price < f.minPrice.value)
      case MaxPriceStage => !(p.price > f.maxPrice.value)
      case SearchStage =>
        !(!Contains(p.name, f.searchString.value) && !Contains(p.description, f.searchString.value))
      case BrandStage => p.brand == f.brand.value
      case CategoryStage => p.category == f.category.value
  }

  function SurvivesKeep(k: Stage, f: ListFilters): ProductRepoModel -> bool
  {
    p => Survives(k, f, p)
  }

  /** `p` survives the first `n` passes. */
  predicate SurvivesFirst(n: nat, f: ListFilters, p: ProductRepoModel)
    decreases n
  {
    n == 0 || (SurvivesFirst(n - 1, f, p) && (n - 1 < |Stages| ==> Survives(Stages[n - 1], f, p)))
  }

  function SurvivesFirstKeep(n: nat, f: ListFilters): ProductRepoModel -> bool
  {
    p => SurvivesFirst(n, f, p)
  }

  /** What the in-memory query keeps: every given parameter matches, the
      brand and category compared by NAME, not by id. */
  predicate Matches(p: ProductRepoModel, f: ListFilters)
  {
    && (IdSet(f.brandId) ==> p.brandId == f.brandId.value)
    && (IdSet(f.categoryId) ==> p.categoryId == f.categoryId.value)
    && (PriceSet(f.minPrice) ==> f.minPrice.value <= p.price)
    && (PriceSet(f.maxPrice) ==> p.price <= f.maxPrice.value)
    && (TextSet(f.searchString) ==>
         Contains(p.name, f.searchString.value) || Contains(p.description, f.searchString.value))
    && (TextSet(f.brand) ==> p.brand == f.brand.value)
    && (TextSet(f.category) ==> p.category == f.category.value)
  }

  function MatchesKeep(f: ListFilters): ProductRepoModel -> bool
  {
    p => Matches(p, f)
  }

  /** Surviving all seven passes is matching every given parameter. */
  lemma AllPassesMatch(f: ListFilters, p: ProductRepoModel)
    ensures SurvivesFirst(|Stages|, f, p) == Matches(p, f)
  {
    assert SurvivesFirst(1, f, p) == Survives(BrandIdStage, f, p);
    assert SurvivesFirst(2, f, p) == (SurvivesFirst(1, f, p) && Survives(CategoryIdStage, f, p));
    assert SurvivesFirst(3, f, p) == (SurvivesFirst(2, f, p) && Survives(MinPriceStage, f, p));
    assert SurvivesFirst(4, f, p) == (SurvivesFirst(3, f, p) && Survives(MaxPriceStage, f, p));
    assert SurvivesFirst(5, f, p) == (SurvivesFirst(4, f, p) && Survives(SearchStage, f, p));
    assert SurvivesFirst(6, f, p) == (SurvivesFirst(5, f, p) && Survives(BrandStage, f, p));
    assert SurvivesFirst(7, f, p) == (SurvivesFirst(6, f, p) && Survives(CategoryStage, f, p));
  }

  /** Filtering by all seven passes is filtering by `Matches`. */
  lemma AllStagesFilter(s: seq<ProductRepoModel>, f: ListFilters)
    ensures Filter(s, SurvivesFirstKeep(|Stages|, f)) == Filter(s, MatchesKeep(f))
  {
    forall p ensures SurvivesFirstKeep(|Stages|, f)(p) == MatchesKeep(f)(p) {
      AllPassesMatch(f, p);
    }
    FilterExt(s, SurvivesFirstKeep(|Stages|, f), MatchesKeep(f));
  }

  /** The in-memory query's result in terms of the parameters: exactly the
      stored items that match, in stored order. */
  lemma FakeSelection(s: seq<ProductRepoModel>, f: ListFilters, p: ProductRepoModel)
    ensures IsSubseq(Filter(s, MatchesKeep(f)), s)
    ensures p in Filter(s, MatchesKeep(f)) <==> p in s && Matches(p, f)
  {
    InFilter(s, MatchesKeep(f), p);
  }

  /** The names of the products' brands, in list order. */
  function BrandNames(products: seq<ProductRepoModel>): (names: seq<string>)
    ensures |names| == |products|
    ensures forall i :: 0 <= i < |products| ==> names[i] == products[i].brand
  {
    seq(|products|, i requires 0 <= i < |products| => products[i].brand)
  }

  /** The names of the products' categories, in list order. */
  function CategoryNames(products: seq<ProductRepoModel>): (names: seq<string>)
    ensures |names| == |products|
    ensures forall i :: 0 <= i < |products| ==> names[i] == products[i].category
  {
    seq(|products|, i requires 0 <= i < |products| => products[i].category)
  }

  /** A `GetProduct` answer: the stored model, null, or the
      NullReferenceException of comparing against a missing stored model. */
  datatype ProductLookup = Found(model: ProductRepoModel) | NotFound | NullReference

  class FakeProductRepository {
    var repoSucceeds: bool
    var productRepoModel: Option<ProductRepoModel>
    var repoProducts: seq<ProductRepoModel>
    var brands: seq<string>
    var categories: seq<string>

    constructor ()
      ensures repoSucceeds && productRepoModel.None?
      ensures repoProducts == [] && brands == [] && categories == []
    {
      repoSucceeds := true;
      productRepoModel := None;
      repoProducts := [];
      brands := [];
      categories := [];
    }

    /** The stored model when the repository succeeds and the id is its id. */
    function GetProduct(productId: int): (r: ProductLookup)
      reads this
      ensures r.Found? <==>
        repoSucceeds && productRepoModel.Some? && productRepoModel.value.productId == productId
      ensures r.Found? ==> r.model == productRepoModel.value
      ensures r.NullReference? <==> repoSucceeds && productRepoModel.None?
    {
      if !repoSucceeds then NotFound
      else if productRepoModel.None? then NullReference
      else if productId == productRepoModel.value.productId then Found(productRepoModel.value)
      else NotFound
    }

    /** The stored name lists, or two empty lists when the repository fails. */
    function GetProductInfo(): (info: ProductInfo)
      reads this
      ensures repoSucceeds ==> info.brands == brands && info.categories == categories
      ensures !repoSucceeds ==> info.brands == [] && info.categories == []
    {
      if repoSucceeds then ProductInfo(brands, categories) else ProductInfo([], [])
    }

    /** One removal pass: collect the items that fail `keep`, then remove
        each of them from the stored list. */
    method RemoveWhere(keep: ProductRepoModel -> bool)
      modifies this
      ensures repoProducts == Filter(old(repoProducts), keep)
      ensures repoSucceeds == old(repoSucceeds) && productRepoModel == old(productRepoModel)
      ensures brands == old(brands) && categories == old(categories)
    {
      ghost var s0 := repoProducts;
      var toRemove := Reject(repoProducts, keep);
      if |toRemove| > 0 {
        var remaining := repoProducts;
        var i := 0;
        while i < |toRemove|
          invariant 0 <= i <= |toRemove|
          invariant remaining == DropRejected(s0, i, keep)
          invariant unchanged(this)
        {
          RemoveNextRejected(s0, keep, i);
          remaining := RemoveFirst(remaining, toRemove[i]);
          i := i + 1;
        }
        repoProducts := remaining;
      }
      DropAllRejected(s0, keep);
    }

    /** Pass number `n` of GetProducts, run when its parameter is given. */
    method RunStage(n: nat, f: ListFilters, ghost s0: seq<ProductRepoModel>)
      requires n < |Stages|
      requires repoProducts == Filter(s0, SurvivesFirstKeep(n, f))
      modifies this
      ensures repoProducts == Filter(s0, SurvivesFirstKeep(n + 1, f))
      ensures repoSucceeds == old(repoSucceeds) && productRepoModel == old(productRepoModel)
      ensures brands == old(brands) && categories == old(categories)
    {
      var k := Stages[n];
      if Active(k, f) {
        RemoveWhere(SurvivesKeep(k, f));
      } else {
        FilterAll(repoProducts, SurvivesKeep(k, f));
      }
      FilterCompose(s0, SurvivesFirstKeep(n, f), SurvivesKeep(k, f), SurvivesFirstKeep(n + 1, f));
    }

    /** The in-memory query. The result is the stored list itself, so the
        stored list shrinks to the matching items. */
    method GetProducts(brandId: Option<int>, categoryId: Option<int>, brand: Option<string>,
                       category: Option<string>, searchString: Option<string>,
                       minPrice: Option<real>, maxPrice: Option<real>)
      returns (result: seq<ProductRepoModel>)
      modifies this
      ensures var f := ListFilters(brandId, categoryId, brand, category, searchString, minPrice, maxPrice);
        if old(repoSucceeds) then
          repoProducts == Filter(old(repoProducts), MatchesKeep(f)) && result == repoProducts
        else
          result == [] && repoProducts == old(repoProducts)
      ensures repoSucceeds == old(repoSucceeds) && productRepoModel == old(productRepoModel)
      ensures brands == old(brands) && categories == old(categories)
    {
      if !repoSucceeds {
        return [];
      }
      var f := ListFilters(brandId, categoryId, brand, category, searchString, minPrice, maxPrice);
      ghost var s0 := repoProducts;
      FilterAll(s0, SurvivesFirstKeep(0, f));
      for n := 0 to |Stages|
        invariant repoProducts == Filter(s0, SurvivesFirstKeep(n, f))
        invariant repoSucceeds == old(repoSucceeds) && productRepoModel == old(productRepoModel)
        invariant brands == old(brands) && categories == old(categories)
      {
        RunStage(n, f, s0);
      }
      AllStagesFilter(s0, f);
      result := repoProducts;
    }

    /** Sets Brands to the distinct brand names of `products`, in order of
        first appearance; reports and requires repository success. */
    method UpdateBrands(products: seq<ProductRepoModel>) returns (ok: bool)
      modifies this
      ensures ok == repoSucceeds && repoSucceeds == old(repoSucceeds)
      ensures brands == if ok then Distinct(BrandNames(products)) else old(brands)
      ensures repoProducts == old(repoProducts) && categories == old(categories)
      ensures productRepoModel == old(productRepoModel)
    {
      if repoSucceeds {
        var names: seq<string> := [];
        for i := 0 to |products|
          invariant names == Distinct(BrandNames(products[..i]))
          invariant unchanged(this)
        {
          assert BrandNames(products[..i + 1]) == BrandNames(products[..i]) + [products[i].brand];
          DistinctSnoc(BrandNames(products[..i]), products[i].brand);
          if products[i].brand !in names {
            names := names + [products[i].brand];
          }
        }
        assert products[..|products|] == products;
        brands := names;
      }
      ok := repoSucceeds;
    }

    /** Sets Categories to the distinct category names of `products`, in
        order of first appearance; reports and requires repository success. */
    method UpdateCategories(products: seq<ProductRepoModel>) returns (ok: bool)
      modifies this
      ensures ok == repoSucceeds && repoSucceeds == old(repoSucceeds)
      ensures categories == if ok then Distinct(CategoryNames(products)) else old(categories)
      ensures repoProducts == old(repoProducts) && brands == old(brands)
      ensures productRepoModel == old(productRepoModel)
    {
      if repoSucceeds {
        var names: seq<string> := [];
        for i := 0 to |products|
          invariant names == Distinct(CategoryNames(products[..i]))
          invariant unchanged(this)
        {
          assert CategoryNames(products[..i + 1]) == CategoryNames(products[..i]) + [products[i].category];
          DistinctSnoc(CategoryNames(products[..i]), products[i].category);
          if products[i].category !in names {
            names := names + [products[i].category];
          }
        }
        assert products[..|products|] == products;
        categories := names;
      }
      ok := repoSucceeds;
    }

    /** Replaces the stored products when the repository succeeds. */
    method UpdateProducts(products: seq<ProductRepoModel>) returns (ok: bool)
      modifies this
      ensures ok == repoSucceeds && repoSucceeds == old(repoSucceeds)
      ensures repoProducts == if ok then products else old(repoProducts)
      ensures brands == old(brands) && categories == old(categories)
      ensures productRepoModel == old(productRepoModel)
    {
      if repoSucceeds {
        repoProducts := products;
      }
      ok := repoSucceeds;
    }
  }
}
