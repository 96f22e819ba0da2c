# TechStore product catalogue, modelled in Dafny

TechStore is a small product-catalogue application. An Express/Mongoose backend keeps a
`products` collection behind five REST routes, and a React front end lists, filters, edits
and deletes products. This project models two parts:

- The **backend store**. It covers the Product schema: its fields, the `trim` setters, the
  `stock` and `imageUrl` defaults, and the `required` / `min: 0` / `enum` validators.
- The five **route handlers** under `/api/products`. They are a `Catalog` class over an
  in-memory `map<Id, Product>` that stands in for the database collection. Each handler
  answers with a status code (200, 201, 400, 404 or 500) and a body.
- The **product list helpers** of the front end: the category filter, the local removal of
  a deleted product, and the category picture lookup.

Modules:

- `Wrappers` (`wrappers.dfy`): `Option` and `Result`.
- `Text` (`text.dfy`): JavaScript's `String.prototype.trim`. The schema's `trim: true`
  applies it on every assignment to `name` and `description`.
- `ProductSchema` (`product_schema.dfy`): `Product` (a stored document) and `Draft` (a
  document not yet saved, where an unset path is `None`). It also holds `ApplyDefaults`,
  `Violations` (every rejected path with the first of its validators that rejected it), the `Valid` predicate
  and `Validate`, the validation step of `save`.
- `ProductRoutes` (`product_routes.dfy`): the request types and the `Catalog` class with
  one method per route. `MergeBody` is the update handler's `forEach` over the body's keys.
  The class invariant `Valid()` says three things: every stored document passes every
  validator, every stored document is trimmed, and every id is below the id counter. Every
  route requires and preserves it, so every stored product stays valid after any sequence of
  requests.
- `CatalogProperties` (`catalog_properties.dfy`): properties that relate the schema to the
  handlers and several requests to each other.
- `ProductList` (`product_list.dfy`): the front-end helpers, with a generic `Keep` that
  stands for `Array.prototype.filter`.

External inputs are parameters:

- The server clock (`Date.now`) is a `now: Timestamp` argument of `Create`.
- A database failure is a `storeFails: bool` argument of each route.
- An `:id` that does not parse as an id is `IdParam.Malformed`. In the source, the lookup
  then throws a cast error.

Two behaviours of the handlers are worth knowing:

- A malformed id answers 500 on get and delete and 400 on update, through each handler's
  error branch.
- An update copies every key it is sent, `createdAt` included, with no whitelist.

## Model

| member | source | states |
|---|---|---|
| `Text.SkipForward` | backend/routes/products.js:41 | the index returned is the first one at or after the start that does not hold whitespace (or the end); everything skipped is whitespace |
| `Text.SkipBackward` | backend/routes/products.js:46 | the index returned is just past the last character that is not whitespace (or the lower bound); everything skipped is whitespace |
| `Text.Trim` | backend/routes/products.js:38-47 | a trimmed value neither starts nor ends with whitespace |
| `Text.TrimIsSlice` | backend/routes/products.js:38-47 | trimming keeps one contiguous slice of the value and drops only whitespace around it |
| `Text.TrimEmptyIff` | backend/routes/products.js:38-47 | a value is non-empty after trimming exactly when it has a character that is not whitespace |
| `Text.TrimIdempotent` | backend/routes/products.js:41 | trimming an already trimmed value changes nothing |
| `ProductSchema.ApplyDefaults` | backend/routes/products.js:53-67 | `stock` becomes 0 and `imageUrl` becomes "default-product.jpg" only where they are unset; a supplied value, an empty string included, is kept; no other path changes |
| `ProductSchema.Validate` | backend/routes/products.js:37-63 | a draft is accepted exactly when no validator rejects it; an accepted draft becomes a valid Product with the draft's values, stamped with the given time; a refused draft reports all its violations, and there is at least one |
| `ProductSchema.NoViolationsIff` | backend/routes/products.js:37-63 | no path is rejected exactly when the draft is acceptable: name and description set and non-empty, price and stock set and ≥ 0, and the category one of celular, notebook, switch, ap, impressora |
| `ProductSchema.Valid` | backend/routes/products.js:37-63 | a stored document is valid exactly when no validator of the schema rejects any of its paths |
| `ProductSchema.FirstFailure` | backend/routes/products.js:37-63 | a path reports no rule exactly when all its validators pass; otherwise it reports a validator that fails and that every validator before it passed, so checking stops at the first failure |
| `ProductSchema.Broken` | backend/routes/products.js:37-63 | the rule reported for a path is one of the path's own validators and it fails; no rule is reported exactly when all of them pass; a failing `required` (unset, or an empty string on a String path, `category` included) is reported before `min` or `enum` |
| `ProductSchema.Violations` | backend/routes/products.js:37-63 | every path named in the error has a validator that fails with the rule given; every path with a failing validator is named; a path whose `required` check fails is named with `required` |
| `ProductSchema.RejectedPath` | backend/routes/products.js:37-63 | a draft with any failing validator is not acceptable |
| `ProductRoutes.TrimmedText` | backend/routes/products.js:38-47 | a text after the `trim` setter is a fixed point of trim, and it is empty exactly when the value sent has no visible character |
| `ProductRoutes.Construct` | backend/routes/products.js:106-113 | the built document has the price and category sent; stock and image sent or their defaults; name and description set exactly when sent, already trimmed, and non-empty exactly when the value sent has a visible character |
| `ProductRoutes.Assign` | backend/routes/products.js:132 | assigning one key changes no other path, and keeps a trimmed document trimmed |
| `ProductRoutes.Merged` | backend/routes/products.js:131-133 | copying a body onto a trimmed document leaves it trimmed, because the setters trim every assigned name and description |
| `ProductRoutes.KeysOf` | backend/routes/products.js:131 | the keys listed for an update body are exactly the keys it carries, each once |
| `ProductRoutes.MergeBody` | backend/routes/products.js:131-133 | assigning the body's keys one at a time onto the stored document yields `Merged`: a supplied key wins, with its setter applied, and every other path keeps its value |
| `ProductRoutes.AssignMerged` | backend/routes/products.js:132 | one more assignment extends a partial merge by exactly that key |
| `ProductRoutes.EnumeratesExtend` | backend/routes/products.js:84-85 | appending an unlisted document to a listing of a table gives a listing of the table with that document added |
| `ProductRoutes.RestrictToSupplied` | backend/routes/products.js:131 | once every key the body carries has been assigned, the whole body has been applied |
| `ProductRoutes.ListedOneMore` | backend/routes/products.js:84 | listing one more id adds exactly its entry to the part of the table listed so far |
| `ProductRoutes.StorePreservesInvariant` | backend/routes/products.js:116 | storing a valid, trimmed document under an id below the counter keeps every stored document valid and trimmed |
| `ProductRoutes.RemovePreservesInvariant` | backend/routes/products.js:150 | removing a document keeps every remaining document valid and trimmed |
| `ProductRoutes.Catalog.List` | backend/routes/products.js:82-89 | 500 when the store fails; otherwise 200 with every stored document exactly once, each of them valid |
| `ProductRoutes.Catalog.Get` | backend/routes/products.js:92-102 | a malformed id or a store failure answers 500; an id with no document answers 404; otherwise 200 with the stored document |
| `ProductRoutes.Catalog.Create` | backend/routes/products.js:105-121 | an invalid document answers 400 with its violations and stores nothing; a store failure answers 400 and stores nothing; otherwise 201, and exactly one entry is added, under an id no document had |
| `ProductRoutes.Catalog.Update` | backend/routes/products.js:124-140 | a malformed id and a store failure both answer 400 (one handler catches both); a missing id answers 404; otherwise the merged document is stored and answered with 200 if valid, or refused with 400 and its violations while the table stays unchanged; the id counter never moves |
| `ProductRoutes.Catalog.SaveUpdated` | backend/routes/products.js:135-138 | the merged document replaces the stored one with 200 exactly when it is valid; otherwise 400 with all its violations, and the table is unchanged |
| `ProductRoutes.Catalog.Delete` | backend/routes/products.js:143-155 | a malformed id or a store failure answers 500; a missing id answers 404; in these cases nothing changes; otherwise 200 with the removal message, and exactly that key is removed |
| `CatalogProperties.MergeOverwritesOnlySupplied` | backend/routes/products.js:131-133 | after an update, each path holds what assigning that key alone puts there (the body's value after its setter) if the body carries the key, and its prior value otherwise; `createdAt` included, since the code has no guard |
| `CatalogProperties.SamePathsSameProduct` | backend/routes/products.js:37-72 | two documents that agree at every path are equal, so the per-path statement above determines the merge |
| `CatalogProperties.MergeEmptyBody` | backend/routes/products.js:131-136 | an empty body leaves the document as it was |
| `CatalogProperties.CreateAcceptedIff` | backend/routes/products.js:105-119 | a create body is accepted exactly when name and description are sent with a character that is not whitespace, price is sent and ≥ 0, stock is absent or ≥ 0, and category is one of the five |
| `CatalogProperties.CreatedDocument` | backend/routes/products.js:106-113 | an accepted create stores the trimmed name and description, the price and category sent, and the stock and image sent or their defaults; `createdAt` is the server's time, and a `createdAt` in the body changes nothing |
| `CatalogProperties.CreateThenGet` | backend/routes/products.js:105-117 | after a valid create, a get of the new id answers 200 with the same document |
| `CatalogProperties.DeleteThenGet` | backend/routes/products.js:143-151 | after deleting a stored id, a get of it answers 404, and every other document is untouched |
| `CatalogProperties.NegativePriceRejected` | backend/routes/products.js:48-52 | making the price of a valid document negative breaks exactly one validator, `min` on `price` |
| `CatalogProperties.UpdateNegativePrice` | backend/routes/products.js:135-138 | an update with a negative price answers 400, names only `price` (rule `min`), and leaves the table unchanged |
| `CatalogProperties.UpdateEmptyBody` | backend/routes/products.js:131-136 | an update with an empty body answers 200 with the stored document and changes nothing |
| `ProductList.Keep` | frontend/src/components/Navbar.js:108 | a filter result is no longer than its input, and holds only input elements that pass the test |
| `ProductList.KeepIsSubsequence` | frontend/src/components/Navbar.js:108 | a filter keeps the relative order of the elements it keeps |
| `ProductList.KeepCounts` | frontend/src/components/Navbar.js:108 | a filter keeps every occurrence of every element that passes, and no other element |
| `ProductList.FilteredProducts` | frontend/src/components/Navbar.js:106-108 | "todos" shows the list itself; any other value shows only products of that category; never more products than loaded |
| `ProductList.FilterShowsEveryMatchInOrder` | frontend/src/components/Navbar.js:108 | a category filter shows every product of that category, as often as it was loaded, in the loaded order |
| `ProductList.RemoveDeleted` | frontend/src/components/Navbar.js:88 | after a delete, no product in the list has the deleted id |
| `ProductList.RemovalKeepsOthersInOrder` | frontend/src/components/Navbar.js:88 | after a delete, every product with another id stays, in the same order |
| `ProductList.RemovalMatchesServer` | frontend/src/components/Navbar.js:88 | if the page held a listing of the store, then after the local removal it holds a listing of the store with that id deleted |
| `ProductList.CategoryImageAsWritten` | frontend/src/components/Navbar.js:95-104 | the lookup as written returns a non-path value exactly for names that are not categories but are inherited members of every object |
| `ProductList.AsWrittenMissesDefault` | frontend/src/components/Navbar.js:103 | for the category "constructor", the code as written yields the inherited constructor and not the default picture |
| `ProductList.CategoryImage` | frontend/src/components/Navbar.js:95-104 | each of the five categories maps to `/images/<category>.jpg`; any other value maps to `/images/default.jpg` |
| `ProductList.AsWrittenAgreesOffPrototype` | frontend/src/components/Navbar.js:95-104 | the lookup as written and the corrected one agree on every value that is not an inherited member name, so on every stored category |

## Left out

- Server start-up, the MongoDB connection, CORS and JSON middleware, and the package manifests. These are configuration and I/O.
- The database is an in-memory map. A failure of the database is the `storeFails` flag of a request. Some handlers make two database calls and either could fail. The flag merges those cases, because each handler answers the same way for both.
- Ids are counter serials, not ObjectIds. Their text format and the cast from the path parameter are reduced to `Parsed` or `Malformed`.
- Request bodies are typed. The model does not cover Mongoose's casting of strings to numbers, JSON `null` values, or strict mode silently dropping unknown keys. The only extra key modelled is `createdAt`.
- An `_id` key in an update body is not modelled. What Mongoose and MongoDB do with an attempt to change a document's id is not part of this model.
- `createdAt`: the clock is the `now` argument.
- Numbers are exact reals. The model has no floating point, no NaN, and no `toFixed(2)` display rounding. Like the schema, it accepts a fractional `stock`.
- Error messages are kinds (`NotFound`, `Removed`, `Rejected`, `CastFailed`, `StoreFailed`), not the Portuguese texts. A refused document reports one rule per path: a path's validators run in order, `required` first, and stop at the first that fails.
- Concurrent requests are not modelled. Two updates to the same document race, and the last writer wins.
- React rendering, routing, forms, the axios calls and `window.confirm` are UI and network code. `RemoveDeleted` models the list update that runs after the server has confirmed the delete.
- `ProductRoutes.Catalog.List` does not promise an order. It returns each stored document exactly once, in the order the map is walked, and not the collection's natural order.

## Findings

| source | as written | input that shows it | evidently intended | confidence | as-written member | corrected member |
|---|---|---|---|---|---|---|
| frontend/src/components/Navbar.js:103 | `images[category] \|\| '/images/default.jpg'` reads inherited properties of the object literal | category `"constructor"` (likewise `"toString"`, `"__proto__"`, …): the result is a function or object, not a picture path | `/images/default.jpg` for every value that is not one of the five categories | not executed; follows from JavaScript property lookup. Stored categories pass the backend's enum, so it is reachable only with data that bypassed validation | `ProductList.AsWrittenMissesDefault` | `ProductList.CategoryImage` |
