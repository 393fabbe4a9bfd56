/**
 * The route handlers of the restaurant server over its three collections
 * (`user`, `foods`, `orders` of the `restaurantDB` database), each handler
 * one store call.
 */
module Server {
  import opened Wrappers
  import opened Bson
  import opened Sorting
  import opened Collection
  import opened Auth
  import opened TopSelling

  /** A protected route's answer: 401 from the middleware, 403 from the guard, or the data. */
  datatype Response<T> = Unauthorized | Forbidden | Ok(body: T)

  /** The nine fields PUT /foods/:id sets. */
  const FoodFields: set<string> :=
    {"foodName", "category", "price", "description", "image", "origin", "qty", "user_email", "user_name"}

  /**
   * The `$set` document of PUT /foods/:id. A field the body lacks is JavaScript
   * `undefined`, which the driver stores as null.
   */
  function Replacement(info: Doc): (u: Doc)
    ensures u.Keys == FoodFields
    ensures forall f :: f in FoodFields ==> u[f] == Get(info, f)
  {
    map f | f in FoodFields :: Get(info, f)
  }

  /** The `$set` document of PATCH /foods/:id: `qty` from the body's `quantity`, and no other field. */
  function QuantityPatch(body: Doc): (u: Doc)
    ensures forall d: Doc :: d + u == d["qty" := Get(body, "quantity")]
  {
    map["qty" := Get(body, "quantity")]
  }

  /** The sort of GET /orders, `{dishOrdered: -1}`: an order without the field sorts lowest, so last. */
  function DishOrdered(e: Entry): (v: Value)
    ensures "dishOrdered" !in e.doc ==> forall w: Value :: ValueLe(v, w)
  {
    Get(e.doc, "dishOrdered")
  }

  /** Listing that keeps the store's `_id` invariant: a duplicate-free pick from a unique collection. */
  lemma UniqueSubset(r: Coll, c: Coll)
    requires Unique(c) && NoDup(r) && forall e :: e in r ==> e in c
    ensures Unique(r)
  {
    forall i, j | 0 <= i < j < |r| ensures r[i].id != r[j].id {
      ToMapHolds(c, r[i]);
      ToMapHolds(c, r[j]);
    }
  }

  lemma UniqueNoDup(c: Coll)
    requires Unique(c)
    ensures NoDup(c)
  {
  }

  class Database {
    var users: Coll
    var foods: Coll
    var orders: Coll

    ghost predicate Valid()
      reads this
    {
      Unique(users) && Unique(foods) && Unique(orders)
    }

    constructor ()
      ensures Valid()
      ensures users == [] && foods == [] && orders == []
    {
      users, foods, orders := [], [], [];
    }

    /** POST /orders: `insertOne(req.body)`. */
    method PostOrder(info: Doc) returns (r: InsertResult)
      requires Valid()
      modifies this
      ensures Valid()
      ensures r.insertedId !in ToMap(old(orders))
      ensures ToMap(orders) == ToMap(old(orders))[r.insertedId := info]
      ensures |orders| == |old(orders)| + 1 && orders[..|old(orders)|] == old(orders)
      ensures foods == old(foods) && users == old(users)
    {
      var out := InsertOne(orders, info);
      orders, r := out.0, out.1;
    }

    /**
     * GET /orders behind verifyToken: 401 without a verified token, 403 unless
     * the query email strictly equals the token's, and otherwise the orders the
     * filter selects, largest `dishOrdered` first.
     */
    method GetOrders(cookie: Option<string>, verify: string -> Option<Claims>, email: Option<string>)
      returns (r: Response<Coll>)
      requires Valid()
      ensures r.Unauthorized? <==> !VerifyToken(cookie, verify).Verified?
      ensures r.Forbidden? <==>
        VerifyToken(cookie, verify).Verified? && CheckOwner(email, VerifyToken(cookie, verify).user) == Forbid
      ensures r.Ok? ==> forall e :: e in r.body <==>
        e in orders && (Present(email) ==> Get(e.doc, "orderedBy") == Str(email.value))
      ensures r.Ok? ==> Unique(r.body) && SortedDesc(r.body, DishOrdered)
    {
      var gate := VerifyToken(cookie, verify);
      if !gate.Verified? {
        return Unauthorized;
      }
      if CheckOwner(email, gate.user) == Forbid {
        return Forbidden;
      }
      var found := Select(orders, EmailFilter("orderedBy", email));
      var sorted := SortDesc(found, DishOrdered);
      SortDescSorted(found, DishOrdered);
      UniqueNoDup(found);
      SortDescNoDup(found, DishOrdered);
      forall e ensures e in sorted <==> e in found {
        assert e in sorted <==> e in multiset(sorted);
        assert e in found <==> e in multiset(found);
      }
      UniqueSubset(sorted, orders);
      r := Ok(sorted);
    }

    /** DELETE /orders/:id: `deleteOne({_id})`, with no ownership check. */
    method DeleteOrder(id: ObjectId) returns (r: DeleteResult)
      requires Valid()
      modifies this
      ensures Valid()
      ensures ToMap(orders) == ToMap(old(orders)) - {id}
      ensures r.deletedCount == if id in ToMap(old(orders)) then 1 else 0
      ensures id !in ToMap(old(orders)) ==> orders == old(orders)
      ensures foods == old(foods) && users == old(users)
    {
      var out := DeleteOne(orders, id);
      orders, r := out.0, out.1;
    }

    /** GET /top-selling-items: the aggregation over every order. */
    method GetTopSelling() returns (r: seq<Group>)
      requires Valid()
      ensures IsTopSelling(Docs(orders), r)
    {
      r := TopSellingItems(Docs(orders));
    }

    /** POST /foods: `insertOne(req.body)`. */
    method PostFood(info: Doc) returns (r: InsertResult)
      requires Valid()
      modifies this
      ensures Valid()
      ensures r.insertedId !in ToMap(old(foods))
      ensures ToMap(foods) == ToMap(old(foods))[r.insertedId := info]
      ensures |foods| == |old(foods)| + 1 && foods[..|old(foods)|] == old(foods)
      ensures orders == old(orders) && users == old(users)
    {
      var out := InsertOne(foods, info);
      foods, r := out.0, out.1;
    }

    /** GET /foods: the items of one owner when the query email is truthy, else every item. */
    method GetFoods(email: Option<string>) returns (r: Coll)
      requires Valid()
      ensures forall e :: e in r <==>
        e in foods && (Present(email) ==> Get(e.doc, "user_email") == Str(email.value))
      ensures Unique(r)
      ensures !Present(email) ==> r == foods
    {
      r := Select(foods, EmailFilter("user_email", email));
    }

    /** GET /foods/:id: `findOne({_id})`, null when no item has that `_id`. */
    method GetFood(id: ObjectId) returns (r: Option<Entry>)
      requires Valid()
      ensures r == if id in ToMap(foods) then Some(Entry(id, ToMap(foods)[id])) else None
    {
      r := FindOne(foods, id);
    }

    /**
     * PUT /foods/:id: `updateOne({_id}, {$set: nine fields}, {upsert: true})`.
     * Afterwards the item exists, its nine fields are the body's, any other
     * field of an existing item is kept, and no other item changes.
     */
    method PutFood(id: ObjectId, info: Doc) returns (r: UpdateResult)
      requires Valid()
      modifies this
      ensures Valid()
      ensures id in ToMap(foods)
      ensures forall f :: f in FoodFields ==> Get(ToMap(foods)[id], f) == Get(info, f)
      ensures ToMap(foods) == ToMap(old(foods))[id :=
        if id in ToMap(old(foods)) then ToMap(old(foods))[id] + Replacement(info) else Replacement(info)]
      ensures r.matchedCount == (if id in ToMap(old(foods)) then 1 else 0)
      ensures r.upsertedId == (if id in ToMap(old(foods)) then None else Some(id))
      ensures r.modifiedCount ==
        (if id in ToMap(old(foods)) && ToMap(old(foods))[id] + Replacement(info) != ToMap(old(foods))[id] then 1 else 0)
      ensures id in ToMap(old(foods)) ==>
        |foods| == |old(foods)| && forall j :: 0 <= j < |foods| ==> foods[j].id == old(foods)[j].id
      ensures id !in ToMap(old(foods)) ==> |foods| == |old(foods)| + 1 && foods[..|old(foods)|] == old(foods)
      ensures orders == old(orders) && users == old(users)
    {
      var out := UpdateOne(foods, id, Replacement(info), true);
      foods, r := out.0, out.1;
    }

    /**
     * PATCH /foods/:id: `updateOne({_id}, {$set: {qty}})` without upsert: only
     * `qty` of that item changes, and an unknown `_id` changes nothing.
     */
    method PatchFood(id: ObjectId, body: Doc) returns (r: UpdateResult)
      requires Valid()
      modifies this
      ensures Valid()
      ensures id in ToMap(old(foods)) ==>
        && ToMap(foods) == ToMap(old(foods))[id := ToMap(old(foods))[id]["qty" := Get(body, "quantity")]]
        && r.matchedCount == 1
        && r.modifiedCount ==
          (if "qty" in ToMap(old(foods))[id] && ToMap(old(foods))[id]["qty"] == Get(body, "quantity") then 0 else 1)
        && |foods| == |old(foods)| && (forall j :: 0 <= j < |foods| ==> foods[j].id == old(foods)[j].id)
      ensures id !in ToMap(old(foods)) ==> foods == old(foods) && r == UpdateResult(0, 0, None)
      ensures r.upsertedId == None
      ensures orders == old(orders) && users == old(users)
    {
      var out := UpdateOne(foods, id, QuantityPatch(body), false);
      foods, r := out.0, out.1;
      if id in ToMap(old(foods)) {
        PatchIsQtyUpdate(ToMap(old(foods))[id], body);
      }
    }

    /** GET /allfoods: every item, unfiltered. */
    method AllFoods() returns (r: Coll)
      requires Valid()
      ensures r == foods
    {
      r := Select(foods, All);
    }

    /** POST /user: `insertOne(req.body)`. */
    method PostUser(info: Doc) returns (r: InsertResult)
      requires Valid()
      modifies this
      ensures Valid()
      ensures r.insertedId !in ToMap(old(users))
      ensures ToMap(users) == ToMap(old(users))[r.insertedId := info]
      ensures |users| == |old(users)| + 1 && users[..|old(users)|] == old(users)
      ensures foods == old(foods) && orders == old(orders)
    {
      var out := InsertOne(users, info);
      users, r := out.0, out.1;
    }

    /** GET /user: every user record. */
    method GetUsers() returns (r: Coll)
      requires Valid()
      ensures r == users
    {
      r := Select(users, All);
    }
  }

  /**
   * `$set: {qty}` over an item is the item with `qty` replaced; it leaves the item
   * as it was only when the item already holds that very `qty` (setting null on an
   * item without `qty` adds the field).
   */
  lemma PatchIsQtyUpdate(d: Doc, body: Doc)
    ensures d + QuantityPatch(body) == d["qty" := Get(body, "quantity")]
    ensures d + QuantityPatch(body) == d <==> "qty" in d && d["qty"] == Get(body, "quantity")
  {
  }

  /**
   * In a listing sorted by `{dishOrdered: -1}`, an order without `dishOrdered`
   * is followed only by orders whose `dishOrdered` is null or missing.
   */
  lemma MissingDishLast(s: Coll, i: nat, j: nat)
    requires SortedDesc(s, DishOrdered) && i < j < |s| && "dishOrdered" !in s[i].doc
    ensures DishOrdered(s[j]) == Null
  {
    NullLeast(DishOrdered(s[j]));
  }

  /** Create-then-fetch on the server: GET /foods/:id gives back what POST /foods stored. */
  method CreateThenFetch(db: Database, info: Doc) returns (id: ObjectId, got: Option<Entry>)
    requires db.Valid()
    modifies db
    ensures db.Valid()
    ensures got == Some(Entry(id, info))
  {
    var r := db.PostFood(info);
    id := r.insertedId;
    got := db.GetFood(id);
  }

  /** After DELETE /orders/:id, no listing of GET /orders includes that `_id`. */
  method DeleteThenList(db: Database, id: ObjectId, cookie: Option<string>,
                        verify: string -> Option<Claims>, email: Option<string>)
    returns (deleted: DeleteResult, r: Response<Coll>)
    requires db.Valid()
    modifies db
    ensures db.Valid()
    ensures r.Ok? ==> forall e :: e in r.body ==> e.id != id
  {
    deleted := db.DeleteOrder(id);
    r := db.GetOrders(cookie, verify, email);
    if r.Ok? {
      forall e | e in r.body ensures e.id != id {
        ToMapHolds(db.orders, e);
      }
    }
  }
}
