# Catalog product service — Dafny model

This project models the logic core of a small catalog web API. It has four parts:

- **The database-backed product repository** (`Repository`). It holds three tables: Products, Brands and Categories.
  - The Brands and Categories tables are sequences of `(id, name)` rows. Their ids are distinct, because they are primary keys. ProductId is a primary key too, and its values come from the caller (the database never generates them).
  - The product query is a chain of optional filters combined by AND. An id or price counts as set only when it is greater than 0; a string counts only when it is neither null nor empty.
  - The brand-name and category-name filters resolve a name to the id of the first row with that name. When no row has the name, the C# code dereferences a null; the model returns this as an explicit `NullReference` outcome.
  - The updates are methods of a `ProductRepository` class:
    - the brand and category upserts (insert when the id is absent, succeed without saving when the name is equal, rename otherwise);
    - `NewProduct`, which ends in an uncaught duplicate-key exception when the product id is already stored;
    - `EditProduct`, which overwrites most fields but *adds* the model's quantity to the stored one, with 32-bit wrap-around.
  - Each `SaveChangesAsync` is a boolean that says whether it completed or threw `DbUpdateConcurrencyException`.
- **The in-memory repository** (`FakeRepository`). Its state is public fields, and every operation is gated on `RepoSucceeds`.
  - Its product query removes the non-matching items from its own stored list: one removal loop per active filter. The model removes by value.
  - The result is that same list, so the stored list shrinks to the result.
  - The brand and category updates remove duplicates from the brand and category names, keeping the order of first appearance.
- **The controller** (`Controller`).
  - `Get` sorts eight optional parameters into exactly one repository read: metadata, one product, or the filtered list.
  - `Create` validates a batch and then calls the brand, category and product updates and the facade in order, stopping at the first failed update; the facade's answer is not checked. The collaborators' answers are inputs, and the method returns its call trace.
- **The token handler** (`HttpManager`). `GetClient` is a chain of guards around discovery and a client-credentials token request.
  - It writes the shared token request's address and scope, and the client's bearer token.
  - The factory, the configuration and the four wrapper calls are fixed answers given to the handler.

`Seqs` holds the sequence operations behind LINQ `Where` and `List<T>.Remove`, and the ordered duplicate removal, with their lemmas. `Common` holds C# nullable values, `string.IsNullOrEmpty` and `string.Contains`, and unchecked `int` arithmetic. `Catalog` holds the record types.

Where the unit tests and the code disagree, the model follows the code:

- The test of an edit through `UpdateProducts` (ProductUnitTests/ProductRepoTests.cs:249-266) expects the quantity to be overwritten. The modelled repository has no `UpdateProducts`, and its `EditProduct` adds to the quantity (ProductRepository/ProductRepository.cs:67).
- The interface's query has eight parameters, but the in-memory repository's has seven. Each file is modelled on its own terms.

## Model

| member | source | states |
|---|---|---|
| Common.IsNullOrEmpty | ProductRepository/ProductRepository.cs:190-199 | `string.IsNullOrEmpty`: a string that passes the test is present and has at least one character |
| Common.Contains | ProductRepository/ProductRepository.cs:192 | ordinal `string.Contains`: never holds for a substring longer than the string, and holds for a prefix (`ContainsAt` gives the full characterisation) |
| Common.WrapInt32 | ProductRepository/ProductRepository.cs:67 | unchecked `+=` on an `int`: the result is a 32-bit value congruent to the sum modulo 2^32, and equal to the sum when the sum fits |
| Common.ContainsAt | ProductRepository/ProductRepository.cs:192 | `string.Contains` holds exactly when the substring occurs at some offset |
| Seqs.Filter | ProductRepository/ProductRepository.cs:169-203 | `Where` keeps an in-order subsequence, only of passing elements, and keeps every passing element as many times as it occurs |
| Seqs.InFilter | ProductRepository/ProductRepository.cs:169-203 | an element is in a `Where` result exactly when it is in the input and passes |
| Seqs.Reject | ProductRepository/FakeProductRepository.cs:60 | the removal list `Where(...).ToList()` is an in-order subsequence of the input, holds only failing elements, and holds each failing element as many times as the input does |
| Seqs.RemoveFirst | ProductRepository/FakeProductRepository.cs:65 | `List.Remove` of an absent value changes nothing; otherwise the first occurrence of the value is taken out and everything before and after it stays in order |
| Seqs.RemoveNextRejected | ProductRepository/FakeProductRepository.cs:63-66 | removing the next element of the removal list, by value, takes out exactly the next rejected element even when values repeat |
| Seqs.DropAllRejected | ProductRepository/FakeProductRepository.cs:60-67 | once every element of the removal list has been removed, the list is the filter of the original |
| Seqs.FilterCompose | ProductRepository/ProductRepository.cs:169-203 | two successive `Where`s equal one `Where` on the conjunction |
| Seqs.FirstWhere | ProductRepository/ProductRepository.cs:56 | `FirstOrDefault` as a position: the element found satisfies the predicate and none before it does; none found means none satisfies it |
| Seqs.Distinct | ProductRepository/FakeProductRepository.cs:142-150 | the names the `Contains`/`Add` loop collects; never longer than the input (`DistinctSpec` gives the full characterisation) |
| Seqs.DistinctSpec | ProductRepository/FakeProductRepository.cs:142-150 | the deduplicated names keep every input name, add none, repeat none, and follow the order of first appearance |
| Seqs.DistinctSnoc | ProductRepository/FakeProductRepository.cs:145-148 | one `Contains`/`Add` step extends the result exactly when the name is new |
| Repository.IndexOfId | ProductRepository/ProductRepository.cs:86 | the row found by id has that id; no row has it when none is found |
| Repository.LookupAt | ProductRepository/ProductRepository.cs:86 | with distinct ids, the lookup by a row's id finds that row |
| Repository.Upsert | ProductRepository/ProductRepository.cs:86-106 | the table after an upsert holds the new row and grows by at most one row (`UpsertSpec` gives the full characterisation) |
| Repository.UpsertSpec | ProductRepository/ProductRepository.cs:82-140 | an upsert keeps ids distinct, maps the id to the new name, leaves every other id's name unchanged, appends when absent, renames in place when present, and is the identity when the name is equal |
| Repository.Names | ProductRepository/ProductRepository.cs:156-164 | the name list follows the table row by row |
| Repository.IndexOfName | ProductRepository/ProductRepository.cs:196-197 | the first row carrying the name, or no row carries it |
| Repository.Query | ProductRepository/ProductRepository.cs:169-203 | the chain of `Where` filters: a successful result holds only table products; a null dereference is reported only for an active brand or category name that no row carries (`QueryExact` and `QueryFails` give the full characterisation) |
| Repository.QueryExact | ProductRepository/ProductRepository.cs:169-204 | a successful query returns exactly the table's products that satisfy every active filter, in table order |
| Repository.QueryFails | ProductRepository/ProductRepository.cs:194-203 | the null dereference happens exactly when a name filter is active, no row has the name, and some product reaches that filter; both directions, for brand and category |
| Repository.NonEmptyFilter | ProductRepository/ProductRepository.cs:194-203 | a filter result is non-empty exactly when some element passes |
| Repository.QueryResultsMatch | ProductRepository/ProductRepository.cs:170-203 | every returned product is in the table, lies within the active price bounds, and matches the active ids, the search string and the brand/category row ids |
| Repository.DisjointPriceBounds | ProductRepository/ProductRepository.cs:182-189 | a minimum above the maximum gives an empty result, never an error |
| Repository.UnsetIsNull | ProductRepository/ProductRepository.cs:170-199 | a 0 or negative id or price, or an empty string, filters exactly as null does |
| Repository.NoFilterReturnsAll | ProductRepository/ProductRepository.cs:169-204 | with no active filter, the whole table comes back in order |
| Repository.ConjoinSelected | ProductRepository/ProductRepository.cs:169-203 | a product passes two disjoint sets of parameters together exactly when it passes each |
| Repository.AndComposition | ProductRepository/ProductRepository.cs:169-203 | the query with the parameters of two disjoint requests returns exactly the products both separate queries return |
| Repository.IndexOfProduct | ProductRepository/ProductRepository.cs:56 | `FirstOrDefault` by product id: the first product with that id, or none has it |
| Repository.Edit | ProductRepository/ProductRepository.cs:64-69 | an edit keeps the product id, overwrites name, description, price, brand and category, and adds the model's quantity to the stored one with 32-bit wrap-around, which is the plain sum whenever that fits |
| Repository.WrapCongruent | ProductRepository/ProductRepository.cs:67 | wrap-around depends only on the residue modulo 2^32 |
| Repository.EditTwice | ProductRepository/ProductRepository.cs:64-69 | two edits in a row add both quantities (wrapped) and leave the later edit's other fields |
| Repository.ProductRepository.constructor | ProductRepository/ProductRepository.cs:17-22 | the repository starts over the given tables, which must satisfy their primary keys: distinct ProductId, BrandId and CategoryId values |
| Repository.ProductRepository.ProductExists | ProductRepository/ProductRepository.cs:24-27 | true exactly when some product has the id |
| Repository.ProductRepository.GetProductInfo | ProductRepository/ProductRepository.cs:147-164 | the brand names and the category names in table order, empty for empty tables |
| Repository.ProductRepository.GetProducts | ProductRepository/ProductRepository.cs:166-205 | reads only; a successful result is an in-order subsequence of the table holding exactly the selected products |
| Repository.ProductRepository.UpdateBrands | ProductRepository/ProductRepository.cs:82-110 | reports success exactly when the name was already stored or the save went through; on success the table is the upsert, otherwise unchanged; other tables unchanged; ids stay distinct |
| Repository.ProductRepository.UpdateCategories | ProductRepository/ProductRepository.cs:112-140 | the same upsert rule for the Categories table |
| Repository.ProductRepository.NewProduct | ProductRepository/ProductRepository.cs:29-50 | null changes nothing and fails; otherwise the category upsert, then the brand upsert only if that succeeded; then an already stored product id ends in the uncaught duplicate-key exception with the table unchanged, and otherwise the product is appended exactly when the save succeeds; earlier saved upserts remain; product ids stay distinct |
| Repository.ProductRepository.EditProduct | ProductRepository/ProductRepository.cs:52-80 | a null model or an unknown id fails and changes nothing; otherwise the upserts as in NewProduct, then the first product with the id is edited in place and nothing else changes |
| FakeRepository.AllPassesMatch | ProductRepository/FakeProductRepository.cs:58-134 | surviving the seven removal passes in their order is matching every active parameter, with brand and category compared by name |
| FakeRepository.AllStagesFilter | ProductRepository/FakeProductRepository.cs:58-134 | filtering by the seven passes is filtering by the match predicate |
| FakeRepository.FakeSelection | ProductRepository/FakeProductRepository.cs:56-135 | the result is an in-order subsequence of the stored items and holds an item exactly when it is stored and matches |
| FakeRepository.BrandNames | ProductRepository/FakeProductRepository.cs:143-147 | the brand of each product in list order |
| FakeRepository.CategoryNames | ProductRepository/FakeProductRepository.cs:160-164 | the category of each product in list order |
| FakeRepository.FakeProductRepository.constructor | ProductRepository/FakeProductRepository.cs:13-21 | a new repository succeeds and holds nothing |
| FakeRepository.FakeProductRepository.GetProduct | ProductRepository/FakeProductRepository.cs:23-30 | returns the stored model exactly when the repository succeeds and the id matches; the null dereference exactly when it succeeds with no stored model; null otherwise |
| FakeRepository.FakeProductRepository.GetProductInfo | ProductRepository/FakeProductRepository.cs:32-47 | the stored lists on success, two empty lists on failure |
| FakeRepository.FakeProductRepository.RemoveWhere | ProductRepository/FakeProductRepository.cs:60-67 | one removal pass leaves the stored list equal to the filter of its old value, and nothing else changes |
| FakeRepository.FakeProductRepository.RunStage | ProductRepository/FakeProductRepository.cs:58-134 | after pass n+1 the stored list is the original filtered by the first n+1 passes; an inactive pass changes nothing |
| FakeRepository.FakeProductRepository.GetProducts | ProductRepository/FakeProductRepository.cs:49-136 | on failure an empty result and no change; on success the stored list shrinks to exactly the matching original items in order, and the result is that list |
| FakeRepository.FakeProductRepository.UpdateBrands | ProductRepository/FakeProductRepository.cs:138-153 | returns RepoSucceeds; on success Brands is the input's brand names without duplicates in order of first appearance; untouched otherwise |
| FakeRepository.FakeProductRepository.UpdateCategories | ProductRepository/FakeProductRepository.cs:155-170 | the same ordered deduplication for the category names |
| FakeRepository.FakeProductRepository.UpdateProducts | ProductRepository/FakeProductRepository.cs:172-179 | returns RepoSucceeds and replaces the stored products exactly when it holds |
| Controller.Get | CustomerProductService/Controllers/ProductController.cs:37-61 | the action's routing as written: a product read carries the present product id, and a list read forwards the other seven parameters (`GetRoutes` gives both directions) |
| Controller.ValueOr | CustomerProductService/Controllers/ProductController.cs:54 | `productId ?? 0` |
| Controller.Forwarded | CustomerProductService/Controllers/ProductController.cs:58-59 | the list branch passes the seven filters other than the product id unchanged |
| Controller.GetRoutes | CustomerProductService/Controllers/ProductController.cs:37-61 | metadata exactly when nothing is set; otherwise the product lookup exactly when a product id is present, with that id; otherwise the list query with the other seven parameters |
| Controller.ListReadIsFiltered | CustomerProductService/Controllers/ProductController.cs:41-60 | the list branch always forwards at least one filter that the repositories treat as set |
| Controller.PriceThresholdGap | CustomerProductService/Controllers/ProductController.cs:47-48 | a minimum price of 0.005 is unset for the controller (metadata comes back) but set for the repositories |
| Controller.ZeroProductIdIgnoresFilters | CustomerProductService/Controllers/ProductController.cs:52-55 | as written, product id 0 with a brand id looks up product 0 and drops the brand filter |
| Controller.GetIntendedRoutes | CustomerProductService/Controllers/ProductController.cs:52-60 | with the corrected test, only a positive id is looked up, and every request with a filter but no usable product id reaches the list query |
| Controller.GetAgreesWhenIdUsable | CustomerProductService/Controllers/ProductController.cs:52 | the written and the corrected routing agree whenever the product id is null or positive |
| Controller.Present | CustomerProductService/Controllers/ProductController.cs:71-77 | a batch without nulls, element by element |
| Controller.FacadeCalls | CustomerProductService/Controllers/ProductController.cs:85 | counts the facade calls of a trace; zero exactly when there are none |
| Controller.CreateSpec | CustomerProductService/Controllers/ProductController.cs:65-92 | what the action does about a batch: at most four calls, and an Ok response only after all four, the last one the facade |
| Controller.CreateValidates | CustomerProductService/Controllers/ProductController.cs:67-77 | 422 exactly for a null or empty batch or one with a null element, and then no call at all |
| Controller.CreateSucceeds | CustomerProductService/Controllers/ProductController.cs:78-91 | Ok exactly when brands, categories and products all succeed; the facade is then called exactly once and otherwise never; its answer changes nothing |
| Controller.CreateShortCircuits | CustomerProductService/Controllers/ProductController.cs:78-91 | brands come first; a brand failure stops everything; a category failure stops the product update; each call carries the whole batch |
| Controller.Create | CustomerProductService/Controllers/ProductController.cs:65-92 | the response and call trace of the action are those of the specification, for every batch and every combination of answers |
| HttpManager.Caught | HttpManager/HttpHandler.cs:79-105 | an exception from discovery or the token request becomes null; a returned value passes through |
| HttpManager.HttpHandler.constructor | HttpManager/HttpHandler.cs:16-23 | the handler keeps the four dependencies it is given |
| HttpManager.HttpHandler.Setting | HttpManager/HttpHandler.cs:31-32 | a configuration value, null for a missing key |
| HttpManager.HttpHandler.InitialVariablesOk | HttpManager/HttpHandler.cs:68-77 | the dependency and key check: when it passes, the three keys and the configuration are present |
| HttpManager.HttpHandler.StopsAt | HttpManager/HttpHandler.cs:25-66 | the guard at which the chain stops: past the first guard the dependencies and keys are usable, and success needs a client and a non-empty access token |
| HttpManager.HttpHandler.Trace | HttpManager/HttpHandler.cs:37-63 | the calls made before the chain stops: at most five, the first of them always the client creation with the client key |
| HttpManager.HttpHandler.GetClient | HttpManager/HttpHandler.cs:25-66 | the call trace is the specified prefix; a client is returned exactly on success, and it is the factory's client with the access token as bearer; the bearer is untouched otherwise; address and scope are set once the endpoint is valid and untouched before; client id and secret never change |
| HttpManager.HttpHandler.NoCallsBeforeSetup | HttpManager/HttpHandler.cs:27-36 | a missing dependency or key, or a null or empty url or scope setting, makes no call; only these cases make none |
| HttpManager.HttpHandler.TokenRequestOnlyWithEndPoint | HttpManager/HttpHandler.cs:47-63 | the token request is made exactly when the endpoint is valid, with that endpoint and the configured scope; the access token is read exactly when a token response came back |
| HttpManager.HttpHandler.TraceLength | HttpManager/HttpHandler.cs:37-63 | each guard that fails stops the chain: the number of calls made for each stopping point |
| HttpManager.HttpHandler.SucceedsIff | HttpManager/HttpHandler.cs:25-66 | success exactly when every dependency, key, setting and wrapper answer is usable |

## Left out

- `ProductRepository.GetProduct` throws `NotImplementedException` (ProductRepository/ProductRepository.cs:142-145). It is not modelled.
- The query runs through Entity Framework in the source. The model gives it LINQ-to-objects meaning, evaluated product by product in chain order. A SQL translation would return an empty result where the model reports the null dereference of a brand or category name that has no row.
- When `SaveChangesAsync` throws, Entity Framework keeps the pending change tracked, and a later save in the same context would write it. The model discards a failed change.
- Exceptions other than `DbUpdateConcurrencyException` are not modelled, except the duplicate-key failure of `NewProduct`.
- Repository.ProductRepository.NewProduct: the duplicate-key failure is one outcome, `DuplicateKey`. Entity Framework may raise it as an `InvalidOperationException` from `Add` or as a `DbUpdateException` from the save; the model does not tell them apart. Either way the caller gets an exception, not `false`.
- The AutoMapper conversions are left out. This covers Product to repository model at ProductRepository/ProductRepository.cs:204, which does no brand or category join, and the controller's mappings to and from DTOs. The repository's query returns `Product` rows.
- `Create` passes the validated DTO batch to each call, not the mapped lists.
- `Get` models only which repository read is made, not the mapped `Ok` payload.
- Strings inside records are never null in the model. Null strings appear only as parameters, where they are `Option`.
- Prices are reals. IEEE `double` rounding is not modelled.
- `async`/`await` and concurrency are not modelled. The shared token request is updated sequentially.
- FakeRepository.FakeProductRepository.GetProducts: the seven removal blocks are one loop over the seven passes in source order. Each pass is its own removal loop.
- The list aliasing is only partly modelled. The returned list is the stored list's value, and later mutation of one through the other outside the call is not covered.
- `List.Remove` compares by reference in the source and by value here. Equal values pass or fail a pass together, so the resulting list is the same.
- The in-memory repository's lists are never null in the model, so a null `RepoProducts` or a null element is not covered.
- HttpManager.HttpHandler.GetClient: each wrapper call has one fixed answer whatever its arguments. Discovery documents and token responses are named by integer ids.
- An exception from `GetTokenEndPoint` or `GetAccessToken`, which the source does not catch, is not modelled.
- The HTTP client is reduced to its bearer token.
- The facade's HTTP POST and the logger are not modelled. The facade is a boolean answer.

## Findings

| source | as written | input that shows it | evidently intended | confidence | as-written member | corrected member |
|---|---|---|---|---|---|---|
| CustomerProductService/Controllers/ProductController.cs:52 | `productId != null \|\| productId > 0` takes the single-product branch for any non-null id | productId = 0, brandId = 3: the action looks up product 0 and ignores the brand filter | `productId != null && productId > 0`, so a non-positive id counts as unset, as at line 41 | medium; not executed | Controller.ZeroProductIdIgnoresFilters | Controller.GetIntendedRoutes |
