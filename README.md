# Restaurant management server: a Dafny model

This project models the request handling of the restaurant-ordering backend
in `index.js`. The backend is an Express server over three MongoDB
collections of the `restaurantDB` database: `user`, `foods` (menu items) and
`orders`. The model covers five parts:

- the `verifyToken` middleware, a three-way decision over the `token` cookie;
- the ownership guard of `GET /orders`, with its filter on `orderedBy` and its
  descending sort on `dishOrdered`;
- the top-selling aggregation, written as a pure function of the order
  documents: `$group` on `foodUID`, `$sum` of `dishOrdered`, `$sort` on the
  total descending, then `$limit 6`;
- the menu-item routes: insert, the filtered and unfiltered listings, fetch by
  id, the upserting full replace (`PUT`) and the quantity-only patch (`PATCH`)
  that does not upsert;
- order insert and delete, and the user insert and listing.

Layout, one module per file:

- `bson.dfy` (`Bson`): documents are schemaless maps from field name to a
  scalar value. A missing field reads as null. Values compare in MongoDB's
  cross-type order, and `$sum` reads only numbers.
- `sorting.dfy` (`Sorting`): the store's descending sort on a key, proved to
  be a permutation in non-increasing key order.
- `collection.dfy` (`Collection`): one collection held in storage order, each
  document beside its `_id`. It holds the single-document operations
  `insertOne`, `find`, `findOne`, `updateOne` (with and without upsert) and
  `deleteOne`. Each is stated against the collection's view as a dictionary
  (`ToMap`), so "nothing else changes" is a map equation.
- `auth.dfy` (`Auth`): `verifyToken`, the strict-equality guard and the query
  that `GET /orders` builds.
- `top_selling.dfy` (`TopSelling`): the aggregation pipeline and its
  specification `IsTopSelling`.
- `server.dfy` (`Server`): a `Database` class whose fields are the three
  collections. Its methods are the route handlers. Two client methods chain
  handlers the way a caller would.

A reader of `GET /orders` might expect it to list the caller's own orders, or
all orders when no email is asked for. What index.js:98-105 does differs from
that in the first two points below; in each point the model follows the code:

- The guard is `req.query?.email !== req.user.email`, a strict comparison.
  A request without an email in its query is refused with 403 whenever the
  token carries an email claim. It is admitted only when the token has no
  email claim either, and then it lists every order of every user.
  `Auth.UnscopedListing` states exactly when the listing is unfiltered.
- `if(req.query?.email)` tests truthiness, so an empty email counts as no
  filter. A token whose email claim is `""`, asked for `?email=`, is admitted
  and lists all orders.
- An empty `token` cookie is refused like a missing one, because `!token`
  holds for `""`.
- `PUT /foods/:id` sets all nine fields from the body. A field the body lacks
  is `undefined`, which the driver stores as null. On an existing item it
  keeps the item's other fields. On an unknown `_id` it creates an item
  holding only those nine fields.
- `PATCH /foods/:id` sets `qty` from the body's `quantity` field, not from a
  `qty` field. Its `modifiedCount` is 0 only when the item already holds that
  very value. Setting null on an item that has no `qty` field still adds the
  field.

Inputs that stand for what the model cannot see:

- JWT verification is a parameter `verify: string -> Option<Claims>`. It
  covers the secret, the signature and the one-hour expiry.
- ObjectId generation is `Collection.FreshId`, an `_id` above every `_id` in
  use.

## Model

| member | source | states |
|---|---|---|
| `Auth.VerifyToken` | index.js:26-40 | A missing or empty cookie yields NoToken. A token the verifier rejects yields BadToken (both answer 401). Otherwise the result is Verified, carrying exactly the claims the verifier decoded from that token. |
| `Auth.CheckOwner` | index.js:98-100 | Allows exactly when the query email strictly equals the token's email claim. An absent query email passes only when the token has no email claim. A null or non-string claim never matches a query string. |
| `Auth.EmailFilter` | index.js:102-105 | The find filter of GET /orders on `orderedBy`, and of GET /foods on `user_email` (index.js:158-161): a document matches exactly when that field equals the query email, and every document matches when the query email is absent or empty. |
| `Auth.AdmittedQueryIsOwnEmail` | index.js:98-105 | An admitted request with a truthy query email filters `orderedBy` on the token's own email claim. |
| `Auth.UnscopedListing` | index.js:98-105 | An admitted request is unfiltered exactly when the token has no email claim or its email claim is the empty string. |
| `Auth.OwnerAdmitted` | index.js:32-38 | A token the verifier accepts, whose claims carry email e, passes the middleware, and a query for e passes the guard. |
| `Collection.FreshId` | index.js:89 | The `_id` the driver generates differs from every `_id` already in the collection. |
| `Collection.InsertOne` | index.js:89 | Stores the document under a new `_id` and keeps the `_id` invariant. The dictionary gains exactly that key. Existing documents keep their order. |
| `Collection.Select` | index.js:110 | `find(q)` returns exactly the documents that match the filter, each once, without duplicate `_id`s; the empty filter `{}` returns the whole collection in storage order. |
| `Collection.FindOne` | index.js:170 | Returns the document stored under the `_id`, or null when there is none. |
| `Collection.UpdateOne` | index.js:175-211 | A matched document gets the `$set` fields laid over its own, and its modified count is 1 exactly when that changes it. An unmatched `_id` gets a new document with just the `$set` fields when upserting. Otherwise nothing changes and 0 is matched. No other `_id` changes. A match keeps every document in its storage position; an upsert appends the new one. |
| `Collection.DeleteOne` | index.js:114-119 | Removes exactly the given `_id` from the dictionary. The deleted count is 1 if it existed and 0 otherwise. A missing `_id` leaves the collection untouched. |
| `Collection.InsertThenFind` | index.js:149-172 | findOne on the `_id` insertOne returned gives back the inserted document. |
| `Collection.InsertThenDelete` | index.js:87-119 | Deleting the `_id` just inserted restores the collection's dictionary. |
| `Collection.DeleteTwice` | index.js:114-119 | A second delete of the same `_id` deletes nothing and changes nothing. |
| `Collection.UpdateTwice` | index.js:175-211 | Repeating the same update (an upsert, or a patch of an existing item) matches one document and modifies none. |
| `Sorting.Insert` | index.js:106-110 | Inserting into the sorted output adds exactly one occurrence of the element. |
| `Sorting.SortDesc` | index.js:106-110 | The sorted result is a permutation of its input. |
| `Sorting.SortDescSorted` | index.js:106-110 | The sorted result is in non-increasing key order under MongoDB's value order. |
| `Sorting.SortDescNoDup` | index.js:106-110 | Sorting a duplicate-free sequence leaves it duplicate-free. |
| `Bson.StrLe` | index.js:107 | MongoDB's string order: code point by code point, a prefix first, so every string is ordered with itself. |
| `Bson.StrLeAntisym` | index.js:107 | Two strings ordered both ways are equal. |
| `Bson.ValueLe` | index.js:106-110 | The sort order on field values: every value is ordered with itself, and values of different types are ordered by type alone (null, then numbers, then strings, then booleans). |
| `Bson.NullLeast` | index.js:107 | Null, the value of a missing field, sorts before every value, and only null sorts at or below it. |
| `Bson.ValueLeTotal` | index.js:107 | Any two field values are comparable, so the sort is defined on every document. |
| `Bson.ValueLeTrans` | index.js:107 | MongoDB's value order is transitive. |
| `TopSelling.DistinctKeys` | index.js:125-126 | The group keys, each once: exactly the `foodUID` values the orders carry, with a missing `foodUID` as the null group. |
| `TopSelling.GroupStage` | index.js:124-129 | One group per distinct `foodUID`. Each group's total is the `$sum` of `dishOrdered` over that food's orders, and no group appears twice. |
| `TopSelling.GroupingConserves` | index.js:125-128 | The group totals add up to the sum of every order's quantity: each order is counted in exactly one group. |
| `TopSelling.SortStageRanks` | index.js:130-132 | After `$sort`, every group appears exactly once, in non-increasing order of total. |
| `TopSelling.Cut` | index.js:133-135 | `$limit 6` keeps the first six groups, or all of them when there are at most six. |
| `TopSelling.CutKeepsLargest` | index.js:133-135 | After `$limit 6`, no group left out has a larger total than a returned group. Fewer than six groups come back only when every group does. |
| `TopSelling.TopSellingItems` | index.js:122-136 | The pipeline itself. Its result meets `IsTopSelling` for every order sequence: at most 6 entries and each `foodUID` at most once. Each total equals the sum of `dishOrdered` over that food's orders. Totals are non-increasing, no omitted group outsells a returned one, and every group comes back when fewer than six do. |
| `TopSelling.TwoFoodsExample` | index.js:122-136 | The orders {a, 3}, {b, 5}, {a, 2} yield the two groups (a, 5) and (b, 5), in one order or the other. |
| `Server.QuantityPatch` | index.js:205-209 | Applying the PATCH `$set` to any item replaces its `qty` with the body's `quantity` (null when the body lacks it), adding the field if missing, and leaves every other field as it was. |
| `Server.PatchIsQtyUpdate` | index.js:205-210 | The PATCH `$set` replaces only `qty`, with the body's `quantity`. It leaves the item unchanged exactly when the item already has that `qty`. |
| `Server.DishOrdered` | index.js:107 | The GET /orders sort key: an order without `dishOrdered` has a key at or below every value, so `{dishOrdered: -1}` puts it last. |
| `Server.MissingDishLast` | index.js:106-110 | In a listing sorted by `{dishOrdered: -1}`, an order without `dishOrdered` is followed only by orders whose `dishOrdered` is null or missing. |
| `Server.Database.PostOrder` | index.js:87-91 | Adds exactly one order under a new `_id`. Every other order and the other collections are unchanged. |
| `Server.Database.GetOrders` | index.js:94-112 | The answer is 401 exactly when the middleware refuses. It is 403 exactly when the guard refuses. Otherwise it returns exactly the orders with `orderedBy` equal to the query email (every order when that email is falsy), each once, in non-increasing `dishOrdered`. |
| `Server.Database.DeleteOrder` | index.js:114-119 | Removes at most the one order with that `_id`, reporting 1 or 0. A missing `_id` leaves the orders unchanged. |
| `Server.Database.GetTopSelling` | index.js:122-141 | The answer satisfies `IsTopSelling` over the stored orders. |
| `Server.Database.PostFood` | index.js:149-154 | Adds exactly one menu item under a new `_id`. Nothing else changes. |
| `Server.Database.GetFoods` | index.js:156-165 | With a truthy email, returns exactly the items whose `user_email` is that email. Without one, returns every item, the same as `/allfoods`. |
| `Server.Database.GetFood` | index.js:168-172 | Returns the item with that `_id`, or null. |
| `Server.Database.PutFood` | index.js:175-197 | Afterwards the item exists whether or not it did before. Its nine listed fields equal the body's, null where the body lacks one. An existing item keeps its other fields. A new one holds only the nine. The matched count and the upserted id tell the two cases apart. The modified count is 1 exactly when an existing item changes, and 0 for an upsert. No other item or collection changes, and the items keep their storage order (a new item is appended). |
| `Server.Database.PatchFood` | index.js:200-212 | For an existing item only `qty` changes, set to the body's `quantity`, with one match. The items keep their storage order. An unknown `_id` changes nothing and matches 0. It never upserts. |
| `Server.Database.AllFoods` | index.js:216-219 | Returns every menu item, unfiltered. |
| `Server.Database.PostUser` | index.js:227-232 | Adds exactly one user record under a new `_id`. Nothing else changes. |
| `Server.Database.GetUsers` | index.js:235-238 | Returns every user record. |
| `Server.CreateThenFetch` | index.js:149-172 | GET /foods/:id on the `_id` that POST /foods returned gives back the stored item. |
| `Server.DeleteThenList` | index.js:94-119 | After DELETE /orders/:id, no GET /orders listing contains that `_id`. |

## Left out

- JWT signing, signature checking and the one-hour expiry (index.js:32, index.js:71): verification is the oracle parameter `verify`, because these are cryptography and a clock.
- `POST /jwt` and `POST /logout` (index.js:67-79, index.js:241-245): they only set or clear a cookie and hold no logic.
- MongoDB client setup, connection and ping (index.js:44-63, index.js:248-256): these are I/O. What happens when a store call fails is not modelled.
- The `console.log` calls inside the handlers (index.js:28, index.js:157, index.js:162, index.js:204), which print the token cookie, the query email, the query and the PATCH body: console output only, with no effect on any response or collection.
- Express, CORS, cookie-parser, the `logger` middleware, the `/` route, `app.listen` and environment variables (index.js:1-24, index.js:260-267): framework plumbing.
- `new ObjectId(id)` throwing on a malformed path id (index.js:116, 170, 179, 202): a failure of a foreign library. Handlers take a well-formed `_id`.
- A request body that carries its own `_id` on insert: the model always generates the `_id`. The duplicate-key error MongoDB would raise for a reused `_id` is therefore not modelled.
- Value shapes: documents hold null, integers, strings and booleans only. Floating-point numbers, arrays and nested objects are not modelled, and neither is MongoDB's matching of a value against an array field. A query-string email is a string or absent, never an array or an object.
- Strings holding an unpaired UTF-16 surrogate: a JavaScript string can hold one, a Dafny string of Unicode scalar values cannot, and the driver stores it as U+FFFD. Every other string is modelled, and `Bson.StrLe` orders it code point by code point, which agrees with MongoDB's order on UTF-8 bytes.
- Order of equal sort keys (index.js:107, index.js:131) and the output order of `$group`: MongoDB leaves both unspecified. The contracts promise only a permutation in non-increasing order, although the model's sort picks one order.
- Concurrency: every handler is modelled as one atomic store call and requests run one at a time.
- Response status and message bodies beyond 401/403/data: each handler returns the driver's result record (`insertedId`; the matched and modified counts and the upserted `_id`; the deleted count; or the documents).
- The driver's `acknowledged` flag and `upsertedCount` in write results: `upsertedCount` is 1 exactly when an upserted `_id` is reported, and `acknowledged` is true under the default write concern, so neither is modelled as a field.
