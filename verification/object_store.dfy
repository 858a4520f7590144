/**
 The in-memory object store behind the create/list/delete handlers: an ordered
 sequence of open-ended records, appended to by `add_object` and shrunk by
 `delete_object`, which removes the first record whose "uuid" field is the
 requested string.

 The store is a value: each operation returns the new store instead of
 mutating a process-wide list.
 */
module ObjectStore {
  import opened Json

  /** The field that identifies a stored object. */
  const UuidKey: string := "uuid"

  /** The process-wide list of stored objects, in insertion order. */
  type Store = seq<Record>

  /** The test `obj.get("uuid") == object_uuid` of the delete scan. The path
      parameter is a string, so a record whose "uuid" is missing, or holds a
      number, a list, an object, a boolean or null, never matches. */
  predicate Matches(r: Record, id: string)
    ensures Matches(r, id) <==> UuidKey in r && r[UuidKey].JString? && r[UuidKey].s == id
  {
    Get(r, UuidKey) == Some(JString(id))
  }

  /** Some stored record carries `id` as its string uuid. */
  ghost predicate IdInUse(store: Store, id: string) {
    exists i :: 0 <= i < |store| && Matches(store[i], id)
  }

  /** `i` is the lowest index whose record matches `id`. */
  ghost predicate IsFirstMatch(store: Store, id: string, i: int) {
    && 0 <= i < |store|
    && Matches(store[i], id)
    && forall j :: 0 <= j < i ==> !Matches(store[j], id)
  }

  /** How many stored records carry `id` as their string uuid. */
  function CountMatches(store: Store, id: string): nat
    decreases |store|
  {
    if |store| == 0 then 0
    else (if Matches(store[0], id) then 1 else 0) + CountMatches(store[1..], id)
  }

  /** No two stored records carry the same string uuid. */
  ghost predicate UniqueIds(store: Store) {
    forall id :: CountMatches(store, id) <= 1
  }

  // ---------------------------------------------------------------------------
  // add_object
  // ---------------------------------------------------------------------------

  /** What `add_object` hands back: the new store and the "uuid" value it reports. */
  datatype AddResult = AddResult(store: Store, uuid: Json)

  /** The record `add_object` stores for `item`: the item itself, given a "uuid"
      field holding `freshId` when it has none. `freshId` stands for the
      generated `str(uuid.uuid4())`. */
  function Stamp(item: Record, freshId: string): (rec: Record)
    ensures rec.Keys == item.Keys + {UuidKey}
    ensures forall k :: k in item ==> rec[k] == item[k]
    ensures UuidKey !in item ==> rec[UuidKey] == JString(freshId)
  {
    if UuidKey in item then item else item[UuidKey := JString(freshId)]
  }

  /** `add_object(item)`: append the stamped item at the end and report its uuid.
      The reported uuid is whatever JSON value the record's "uuid" field holds:
      a caller-supplied "uuid" need not be a string. */
  function Add(store: Store, item: Record, freshId: string): (res: AddResult)
    ensures |res.store| == |store| + 1
    ensures forall i :: 0 <= i < |store| ==> res.store[i] == store[i]
    ensures res.store[|store|] == Stamp(item, freshId)
    ensures UuidKey in res.store[|store|]
    ensures res.uuid == res.store[|store|][UuidKey]
    ensures UuidKey in item ==> res.uuid == item[UuidKey]
    ensures UuidKey !in item ==> res.uuid == JString(freshId)
  {
    var rec := Stamp(item, freshId);
    AddResult(store + [rec], rec[UuidKey])
  }

  // ---------------------------------------------------------------------------
  // get_objects
  // ---------------------------------------------------------------------------

  /** `get_objects()`: every stored record, in insertion order. The store is a
      value, so listing cannot change it. */
  function List(store: Store): (objects: Store)
    ensures |objects| == |store|
    ensures forall i :: 0 <= i < |store| ==> objects[i] == store[i]
  {
    store
  }

  // ---------------------------------------------------------------------------
  // delete_object
  // ---------------------------------------------------------------------------

  /** The result of `delete_object`: a confirmation carrying the requested uuid,
      or the "Object not found" condition. */
  datatype Outcome = Deleted(uuid: string) | NotFound

  datatype DeleteResult = DeleteResult(outcome: Outcome, store: Store)

  /** The index at which the in-order scan of `delete_object` stops, if any. */
  function FirstMatch(store: Store, id: string): (r: Option<nat>)
    ensures r.None? <==> !IdInUse(store, id)
    ensures r.Some? ==> IsFirstMatch(store, id, r.value)
    decreases |store|
  {
    if |store| == 0 then None
    else if Matches(store[0], id) then Some(0)
    else
      match FirstMatch(store[1..], id)
      case None =>
        assert forall i :: 1 <= i < |store| ==> store[i] == store[1..][i - 1];
        None
      case Some(i) =>
        assert forall j :: 1 <= j < |store| ==> store[j] == store[1..][j - 1];
        Some(i + 1)
  }

  /** `delete_object(object_uuid)`: remove the first record whose string uuid is
      `id` and confirm; when none matches, report NotFound and keep the store. */
  function Delete(store: Store, id: string): (res: DeleteResult)
    ensures res.outcome.NotFound? <==> !IdInUse(store, id)
    ensures res.outcome.NotFound? ==> res.store == store
    ensures res.outcome.Deleted? ==> res.outcome.uuid == id
    ensures res.outcome.Deleted? ==> |res.store| == |store| - 1
    ensures res.outcome.Deleted? ==>
      exists i :: IsFirstMatch(store, id, i) && res.store == store[..i] + store[i + 1..]
  {
    match FirstMatch(store, id)
    case None => DeleteResult(NotFound, store)
    case Some(i) =>
      assert IsFirstMatch(store, id, i);
      DeleteResult(Deleted(id), store[..i] + store[i + 1..])
  }

  /** The `for index, obj in enumerate(to_save)` loop of `delete_object`, with
      its early return on the first match and the 404 after the loop. */
  method DeleteScan(store: Store, id: string) returns (res: DeleteResult)
    ensures res == Delete(store, id)
  {
    var index := 0;
    while index < |store|
      invariant 0 <= index <= |store|
      invariant forall j :: 0 <= j < index ==> !Matches(store[j], id)
    {
      if Matches(store[index], id) {
        FirstMatchIsUnique(store, id, index, FirstMatch(store, id).value);
        return DeleteResult(Deleted(id), store[..index] + store[index + 1..]);
      }
      index := index + 1;
    }
    return DeleteResult(NotFound, store);
  }

  // ---------------------------------------------------------------------------
  // Lemmas
  // ---------------------------------------------------------------------------

  /** Two lowest matching indices are the same index. */
  lemma FirstMatchIsUnique(store: Store, id: string, i: int, j: int)
    requires IsFirstMatch(store, id, i) && IsFirstMatch(store, id, j)
    ensures i == j
  {
  }

  /** Counting matches distributes over concatenation. */
  lemma {:induction false} CountConcat(a: Store, b: Store, id: string)
    ensures CountMatches(a + b, id) == CountMatches(a, id) + CountMatches(b, id)
    decreases |a|
  {
    if |a| == 0 {
      assert a + b == b;
    } else {
      assert (a + b)[1..] == a[1..] + b;
      CountConcat(a[1..], b, id);
    }
  }

  /** An id is in use exactly when at least one record carries it. */
  lemma {:induction false} CountPositiveIffInUse(store: Store, id: string)
    ensures CountMatches(store, id) > 0 <==> IdInUse(store, id)
    decreases |store|
  {
    if |store| > 0 {
      CountPositiveIffInUse(store[1..], id);
      if IdInUse(store[1..], id) {
        var i :| 0 <= i < |store[1..]| && Matches(store[1..][i], id);
        assert Matches(store[i + 1], id);
      }
      if IdInUse(store, id) && !Matches(store[0], id) {
        var i :| 0 <= i < |store| && Matches(store[i], id);
        assert Matches(store[1..][i - 1], id);
      }
    }
  }

  /** A successful delete removes exactly one record carrying `id`, and never
      adds a record carrying any other id. */
  lemma DeleteCounts(store: Store, id: string, u: string)
    ensures CountMatches(Delete(store, id).store, u) <= CountMatches(store, u)
    ensures Delete(store, id).outcome.Deleted? ==>
      CountMatches(Delete(store, id).store, id) == CountMatches(store, id) - 1
  {
    var res := Delete(store, id);
    if res.outcome.Deleted? {
      var i := FirstMatch(store, id).value;
      assert store == store[..i] + ([store[i]] + store[i + 1..]);
      CountConcat(store[..i], [store[i]] + store[i + 1..], u);
      CountConcat([store[i]], store[i + 1..], u);
      CountConcat(store[..i], store[i + 1..], u);
      CountConcat(store[..i], [store[i]] + store[i + 1..], id);
      CountConcat([store[i]], store[i + 1..], id);
      CountConcat(store[..i], store[i + 1..], id);
    }
  }

  /** Deleting an id that occurs exactly once succeeds, and deleting it again
      reports NotFound and leaves the store as the first delete left it. */
  lemma DeleteTwice(store: Store, id: string)
    requires CountMatches(store, id) == 1
    ensures Delete(store, id).outcome == Deleted(id)
    ensures Delete(Delete(store, id).store, id) == DeleteResult(NotFound, Delete(store, id).store)
  {
    CountPositiveIffInUse(store, id);
    DeleteCounts(store, id, id);
    CountPositiveIffInUse(Delete(store, id).store, id);
  }

  /** A record with no string uuid is never removed, whatever id is deleted. */
  lemma UnmatchableRecordSurvives(store: Store, k: int)
    requires 0 <= k < |store|
    requires UuidKey !in store[k] || !store[k][UuidKey].JString?
    ensures forall id :: store[k] in Delete(store, id).store
  {
  }

  /** Deleting the string uuid that `add_object` just reported, when no earlier
      record carries it, removes exactly the added record: the round trip
      restores the store. This covers every generated id, which is fresh. */
  lemma AddThenDelete(store: Store, item: Record, freshId: string, u: string)
    requires Add(store, item, freshId).uuid == JString(u)
    requires !IdInUse(store, u)
    ensures Delete(Add(store, item, freshId).store, u) == DeleteResult(Deleted(u), store)
  {
  }

  /** A generated id keeps the string uuids unique. */
  lemma AddPreservesUniqueIds(store: Store, item: Record, freshId: string)
    requires UniqueIds(store)
    requires UuidKey !in item
    requires !IdInUse(store, freshId)
    ensures UniqueIds(Add(store, item, freshId).store)
  {
    var rec := Stamp(item, freshId);
    forall id
      ensures CountMatches(store + [rec], id) <= 1
    {
      CountConcat(store, [rec], id);
      assert [rec][1..] == [];
      if id == freshId {
        CountPositiveIffInUse(store, id);
      }
    }
  }

  /** Deleting never breaks uniqueness of the string uuids. */
  lemma DeletePreservesUniqueIds(store: Store, id: string)
    requires UniqueIds(store)
    ensures UniqueIds(Delete(store, id).store)
  {
    forall u
      ensures CountMatches(Delete(store, id).store, u) <= 1
    {
      DeleteCounts(store, id, u);
    }
  }

  /** While string uuids are unique, a successful delete leaves no record with
      that uuid, so a repeated delete reports NotFound. */
  lemma UniqueDeleteClears(store: Store, id: string)
    requires UniqueIds(store)
    requires Delete(store, id).outcome.Deleted?
    ensures !IdInUse(Delete(store, id).store, id)
  {
    assert CountMatches(store, id) <= 1;
    DeleteCounts(store, id, id);
    CountPositiveIffInUse(Delete(store, id).store, id);
  }

  /** A caller-supplied "uuid" that is already in use is stored anyway; the two
      records then share the id, and the next delete of it removes the OLDER
      record while the new one stays at the end. */
  lemma DuplicateUuidDeletesOlder(store: Store, item: Record, freshId: string, u: string)
    requires UuidKey in item && item[UuidKey] == JString(u)
    requires IdInUse(store, u)
    ensures !UniqueIds(Add(store, item, freshId).store)
    ensures Delete(Add(store, item, freshId).store, u).store == Delete(store, u).store + [item]
  {
    var added := Add(store, item, freshId).store;
    assert added == store + [item];
    CountConcat(store, [item], u);
    assert [item][1..] == [];
    CountPositiveIffInUse(store, u);
    assert CountMatches(added, u) >= 2;
    var i := FirstMatch(store, u).value;
    assert IsFirstMatch(added, u, i);
    FirstMatchIsUnique(added, u, i, FirstMatch(added, u).value);
    assert added[..i] + added[i + 1..] == store[..i] + store[i + 1..] + [item];
  }

  /** Only records that were already stored survive a delete: a delete never
      brings an id into use. */
  lemma DeleteKeepsNoNewIds(store: Store, id: string, u: string)
    requires IdInUse(Delete(store, id).store, u)
    ensures IdInUse(store, u)
  {
  }
}
