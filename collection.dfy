/**
 * One MongoDB collection held in memory: its documents in storage (natural)
 * order, each beside its `_id`, and the single-document operations the
 * server calls on it (insertOne, find, findOne, updateOne, deleteOne).
 */
module Collection {
  import opened Wrappers
  import opened Bson

  /** An `_id`; the driver's ObjectId is abstracted to a number. */
  type ObjectId = nat

  datatype Entry = Entry(id: ObjectId, doc: Doc)

  /** A collection in storage order. */
  type Coll = seq<Entry>

  /** What the driver reports for each kind of write. */
  datatype InsertResult = InsertResult(insertedId: ObjectId)
  datatype UpdateResult = UpdateResult(matchedCount: nat, modifiedCount: nat, upsertedId: Option<ObjectId>)
  datatype DeleteResult = DeleteResult(deletedCount: nat)

  /** A find filter: the empty filter `{}` or a single field equality `{field: value}`. */
  datatype Query = All | FieldEquals(field: string, value: Value)

  predicate Matches(q: Query, d: Doc)
  {
    match q
    case All => true
    case FieldEquals(f, v) => Get(d, f) == v
  }

  ghost function Ids(c: Coll): set<ObjectId>
  {
    set e | e in c :: e.id
  }

  /** The store's key invariant: no two documents share an `_id`. */
  ghost predicate Unique(c: Coll)
  {
    forall i, j :: 0 <= i < j < |c| ==> c[i].id != c[j].id
  }

  /** The collection seen as a dictionary from `_id` to document. */
  function ToMap(c: Coll): map<ObjectId, Doc>
  {
    if c == [] then map[] else ToMap(c[..|c| - 1])[c[|c| - 1].id := c[|c| - 1].doc]
  }

  /** The documents alone, in storage order, as an aggregation pipeline reads them. */
  function Docs(c: Coll): seq<Doc>
  {
    seq(|c|, i requires 0 <= i < |c| => c[i].doc)
  }

  lemma {:induction false} ToMapKeys(c: Coll)
    ensures ToMap(c).Keys == Ids(c)
  {
    if c != [] {
      var p := c[..|c| - 1];
      ToMapKeys(p);
      assert c == p + [c[|c| - 1]];
      assert Ids(c) == Ids(p) + {c[|c| - 1].id};
    }
  }

  lemma {:induction false} ToMapAt(c: Coll, i: nat)
    requires Unique(c) && i < |c|
    ensures c[i].id in ToMap(c) && ToMap(c)[c[i].id] == c[i].doc
  {
    var p := c[..|c| - 1];
    if i < |c| - 1 {
      assert p[i] == c[i];
      ToMapAt(p, i);
    }
  }

  /** Every document of a collection is found under its own `_id`. */
  lemma ToMapHolds(c: Coll, e: Entry)
    requires Unique(c) && e in c
    ensures e.id in ToMap(c) && ToMap(c)[e.id] == e.doc
  {
  }

  /** An `_id` above every `_id` in use: the driver's fresh ObjectId. */
  function FreshId(c: Coll): (id: ObjectId)
    ensures forall e :: e in c ==> e.id < id
  {
    if c == [] then 0
    else
      var rest := FreshId(c[1..]);
      assert forall e :: e in c ==> e == c[0] || e in c[1..];
      if rest > c[0].id then rest else c[0].id + 1
  }

  function IndexOf(c: Coll, id: ObjectId): (r: Option<nat>)
    ensures r.Some? ==> r.value < |c| && c[r.value].id == id
    ensures r.None? ==> forall e :: e in c ==> e.id != id
  {
    if c == [] then None
    else if c[0].id == id then Some(0)
    else
      assert forall e :: e in c ==> e == c[0] || e in c[1..];
      match IndexOf(c[1..], id)
      case None => None
      case Some(k) => Some(k + 1)
  }

  /** `insertOne`: the document is stored under a new `_id` and nothing else changes. */
  function InsertOne(c: Coll, d: Doc): (out: (Coll, InsertResult))
    requires Unique(c)
    ensures Unique(out.0)
    ensures out.1.insertedId !in ToMap(c)
    ensures ToMap(out.0) == ToMap(c)[out.1.insertedId := d]
    ensures |out.0| == |c| + 1 && out.0[..|c|] == c
  {
    var id := FreshId(c);
    ToMapKeys(c);
    ToMapAppend(c, Entry(id, d));
    (c + [Entry(id, d)], InsertResult(id))
  }

  /** `find(q)`: the matching documents, in storage order. */
  function Select(c: Coll, q: Query): (r: Coll)
    ensures forall e :: e in r <==> e in c && Matches(q, e.doc)
    ensures Unique(c) ==> Unique(r)
    ensures q == All ==> r == c
  {
    if c == [] then []
    else
      var rest := Select(c[1..], q);
      assert forall e :: e in c <==> e == c[0] || e in c[1..];
      assert Unique(c) ==> Unique(c[1..]) && forall e :: e in c[1..] ==> e.id != c[0].id;
      assert c == [c[0]] + c[1..];
      if Matches(q, c[0].doc) then [c[0]] + rest else rest
  }

  /** `findOne({_id: id})`: the document with that `_id`, or null. */
  function FindOne(c: Coll, id: ObjectId): (r: Option<Entry>)
    requires Unique(c)
    ensures r == if id in ToMap(c) then Some(Entry(id, ToMap(c)[id])) else None
  {
    ToMapKeys(c);
    match IndexOf(c, id)
    case None => None
    case Some(i) =>
      ToMapAt(c, i);
      Some(c[i])
  }

  /** Appending a document under an unused `_id` adds just that key. */
  lemma ToMapAppend(c: Coll, e: Entry)
    requires Unique(c) && e.id !in Ids(c)
    ensures Unique(c + [e])
    ensures ToMap(c + [e]) == ToMap(c)[e.id := e.doc]
  {
  }

  /** A collection without duplicate `_id`s is described by any map holding exactly its entries. */
  lemma ToMapChar(c: Coll, m: map<ObjectId, Doc>)
    requires Unique(c)
    requires forall i :: 0 <= i < |c| ==> c[i].id in m && m[c[i].id] == c[i].doc
    requires forall k :: k in m ==> k in Ids(c)
    ensures ToMap(c) == m
  {
    ToMapKeys(c);
    forall k | k in ToMap(c) ensures k in m {
      var e :| e in c && e.id == k;
      var i :| 0 <= i < |c| && c[i] == e;
    }
    forall k | k in m ensures k in ToMap(c) && ToMap(c)[k] == m[k] {
      var e :| e in c && e.id == k;
      var i :| 0 <= i < |c| && c[i] == e;
      ToMapAt(c, i);
    }
  }

  lemma ReplaceEntries(c: Coll, i: nat, d: Doc)
    requires Unique(c) && i < |c|
    ensures var c', m := c[i := Entry(c[i].id, d)], ToMap(c)[c[i].id := d];
      forall j :: 0 <= j < |c'| ==> c'[j].id in m && m[c'[j].id] == c'[j].doc
  {
    forall j | 0 <= j < |c| && j != i ensures c[j].id in ToMap(c) && c[j].id != c[i].id && ToMap(c)[c[j].id] == c[j].doc {
      ToMapAt(c, j);
    }
  }

  lemma ReplaceKeys(c: Coll, i: nat, d: Doc, c': Coll, m: map<ObjectId, Doc>)
    requires i < |c| && c' == c[i := Entry(c[i].id, d)] && m == ToMap(c)[c[i].id := d]
    ensures forall k :: k in m ==> k in Ids(c')
  {
    ToMapKeys(c);
    forall k | k in ToMap(c) && k != c[i].id ensures k in Ids(c') {
      var e :| e in c && e.id == k;
      var j :| 0 <= j < |c| && c[j] == e;
      assert c'[j] in c';
    }
    assert c'[i] in c';
  }

  /** Replacing the document at one position changes the dictionary at that `_id` only. */
  lemma ToMapReplace(c: Coll, i: nat, d: Doc)
    requires Unique(c) && i < |c|
    ensures Unique(c[i := Entry(c[i].id, d)])
    ensures ToMap(c[i := Entry(c[i].id, d)]) == ToMap(c)[c[i].id := d]
  {
    var c' := c[i := Entry(c[i].id, d)];
    assert forall j :: 0 <= j < |c| ==> c'[j].id == c[j].id;
    ReplaceEntries(c, i, d);
    ReplaceKeys(c, i, d, c', ToMap(c)[c[i].id := d]);
    ToMapChar(c', ToMap(c)[c[i].id := d]);
  }

  lemma UniquePrefix(c: Coll, k: nat)
    requires Unique(c) && k <= |c|
    ensures Unique(c[..k])
  {
    forall a, b | 0 <= a < b < k ensures c[..k][a].id != c[..k][b].id {
      assert c[..k][a] == c[a] && c[..k][b] == c[b];
    }
  }

  /** The collection without position `i`, position by position. */
  lemma RemoveAt(c: Coll, i: nat, c': Coll)
    requires i < |c| && c' == c[..i] + c[i + 1..]
    ensures |c'| == |c| - 1
    ensures forall j :: 0 <= j < i ==> c'[j] == c[j]
    ensures forall j :: i <= j < |c'| ==> c'[j] == c[j + 1]
  {
  }

  lemma RemoveUnique(c: Coll, i: nat)
    requires Unique(c) && i < |c|
    ensures Unique(c[..i] + c[i + 1..])
  {
    var c' := c[..i] + c[i + 1..];
    RemoveAt(c, i, c');
    forall a, b | 0 <= a < b < |c'| ensures c'[a].id != c'[b].id {
      var a', b' := if a < i then a else a + 1, if b < i then b else b + 1;
      assert c'[a] == c[a'] && c'[b] == c[b'];
    }
  }

  lemma RemoveEntries(c: Coll, i: nat)
    requires Unique(c) && i < |c|
    ensures var c', m := c[..i] + c[i + 1..], ToMap(c) - {c[i].id};
      forall j :: 0 <= j < |c'| ==> c'[j].id in m && m[c'[j].id] == c'[j].doc
  {
    var c' := c[..i] + c[i + 1..];
    RemoveAt(c, i, c');
    forall j | 0 <= j < |c'| ensures c'[j].id in ToMap(c) && c'[j].id != c[i].id && ToMap(c)[c'[j].id] == c'[j].doc {
      ToMapAt(c, if j < i then j else j + 1);
    }
  }

  lemma RemoveKeys(c: Coll, i: nat)
    requires i < |c|
    ensures forall k :: k in ToMap(c) - {c[i].id} ==> k in Ids(c[..i] + c[i + 1..])
  {
    var c' := c[..i] + c[i + 1..];
    RemoveAt(c, i, c');
    ToMapKeys(c);
    forall k | k in ToMap(c) && k != c[i].id ensures k in Ids(c') {
      var e :| e in c && e.id == k;
      var j :| 0 <= j < |c| && c[j] == e;
      assert c'[if j < i then j else j - 1] in c';
    }
  }

  /** Removing the document at one position removes exactly its `_id` from the dictionary. */
  lemma ToMapRemove(c: Coll, i: nat)
    requires Unique(c) && i < |c|
    ensures Unique(c[..i] + c[i + 1..])
    ensures ToMap(c[..i] + c[i + 1..]) == ToMap(c) - {c[i].id}
  {
    RemoveUnique(c, i);
    RemoveEntries(c, i);
    RemoveKeys(c, i);
    ToMapChar(c[..i] + c[i + 1..], ToMap(c) - {c[i].id});
  }

  /**
   * `updateOne({_id: id}, {$set: fields}, {upsert})`: a matched document gets the
   * fields set over its own; an unmatched `_id` creates a document holding just
   * those fields when upserting, and changes nothing otherwise.
   */
  function UpdateOne(c: Coll, id: ObjectId, fields: Doc, upsert: bool): (out: (Coll, UpdateResult))
    requires Unique(c)
    ensures Unique(out.0)
    ensures id in ToMap(c) ==>
      && ToMap(out.0) == ToMap(c)[id := ToMap(c)[id] + fields]
      && out.1.matchedCount == 1 && out.1.upsertedId == None
      && out.1.modifiedCount == (if ToMap(c)[id] + fields == ToMap(c)[id] then 0 else 1)
      && |out.0| == |c| && forall j :: 0 <= j < |c| ==> out.0[j].id == c[j].id
    ensures id !in ToMap(c) && upsert ==>
      && ToMap(out.0) == ToMap(c)[id := fields] && out.1 == UpdateResult(0, 0, Some(id))
      && |out.0| == |c| + 1 && out.0[..|c|] == c
    ensures id !in ToMap(c) && !upsert ==> out.0 == c && out.1 == UpdateResult(0, 0, None)
  {
    ToMapKeys(c);
    match IndexOf(c, id)
    case Some(i) =>
      var updated := c[i].doc + fields;
      ToMapAt(c, i);
      ToMapReplace(c, i, updated);
      (c[i := Entry(id, updated)], UpdateResult(1, if updated == c[i].doc then 0 else 1, None))
    case None =>
      if upsert then
        ToMapAppend(c, Entry(id, fields));
        (c + [Entry(id, fields)], UpdateResult(0, 0, Some(id)))
      else
        (c, UpdateResult(0, 0, None))
  }

  /** `deleteOne({_id: id})`: removes the document with that `_id`, if there is one. */
  function DeleteOne(c: Coll, id: ObjectId): (out: (Coll, DeleteResult))
    requires Unique(c)
    ensures Unique(out.0)
    ensures ToMap(out.0) == ToMap(c) - {id}
    ensures out.1.deletedCount == if id in ToMap(c) then 1 else 0
    ensures id !in ToMap(c) ==> out.0 == c
  {
    ToMapKeys(c);
    match IndexOf(c, id)
    case None =>
      assert ToMap(c) - {id} == ToMap(c);
      (c, DeleteResult(0))
    case Some(i) =>
      ToMapRemove(c, i);
      (c[..i] + c[i + 1..], DeleteResult(1))
  }

  /** Create-then-fetch: what insertOne stores, findOne under the returned `_id` gives back. */
  lemma InsertThenFind(c: Coll, d: Doc)
    requires Unique(c)
    ensures var (c', res) := InsertOne(c, d); FindOne(c', res.insertedId) == Some(Entry(res.insertedId, d))
  {
  }

  /** deleteOne of the `_id` insertOne returned undoes the insert. */
  lemma InsertThenDelete(c: Coll, d: Doc)
    requires Unique(c)
    ensures var (c', res) := InsertOne(c, d); ToMap(DeleteOne(c', res.insertedId).0) == ToMap(c)
  {
    var (c', res) := InsertOne(c, d);
    assert ToMap(c)[res.insertedId := d] - {res.insertedId} == ToMap(c);
  }

  /** A second deleteOne of the same `_id` deletes nothing. */
  lemma DeleteTwice(c: Coll, id: ObjectId)
    requires Unique(c)
    ensures var c' := DeleteOne(c, id).0; DeleteOne(c', id) == (c', DeleteResult(0))
  {
  }

  /** updateOne of a matched document whose fields already hold the values changes nothing. */
  lemma UpdateUnchanged(c: Coll, id: ObjectId, fields: Doc, upsert: bool)
    requires Unique(c) && id in ToMap(c) && ToMap(c)[id] + fields == ToMap(c)[id]
    ensures UpdateOne(c, id, fields, upsert).1 == UpdateResult(1, 0, None)
    ensures ToMap(UpdateOne(c, id, fields, upsert).0) == ToMap(c)
  {
    var m := ToMap(c);
    assert m[id := m[id] + fields] == m;
  }

  /** Setting the same fields twice is setting them once. */
  lemma MergeTwice(d: Doc, fields: Doc)
    ensures (d + fields) + fields == d + fields
  {
  }

  lemma MergeSelf(fields: Doc)
    ensures fields + fields == fields
  {
  }

  /** After an updateOne that matched or upserted, the document holds the fields set. */
  lemma UpdateSets(c: Coll, id: ObjectId, fields: Doc, upsert: bool)
    requires Unique(c) && (upsert || id in ToMap(c))
    ensures var c' := UpdateOne(c, id, fields, upsert).0;
      id in ToMap(c') && ToMap(c')[id] + fields == ToMap(c')[id]
  {
    if id in ToMap(c) {
      MergeTwice(ToMap(c)[id], fields);
    } else {
      MergeSelf(fields);
    }
  }

  /** Repeating an updateOne matches the document and modifies nothing. */
  lemma UpdateTwice(c: Coll, id: ObjectId, fields: Doc, upsert: bool)
    requires Unique(c) && (upsert || id in ToMap(c))
    ensures var c' := UpdateOne(c, id, fields, upsert).0;
      && UpdateOne(c', id, fields, upsert).1 == UpdateResult(1, 0, None)
      && ToMap(UpdateOne(c', id, fields, upsert).0) == ToMap(c')
  {
    UpdateSets(c, id, fields, upsert);
    UpdateUnchanged(UpdateOne(c, id, fields, upsert).0, id, fields, upsert);
  }
}
