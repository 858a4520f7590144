/**
 The three request handlers of the object service over the shared store:
 POST /add_object, GET /object_list and DELETE /delete_object/{object_uuid}.
 A handler takes the current store and a request and yields the next store
 and the response body; a trace of requests is replayed in arrival order.
 */
module Api {
  import opened Json
  import opened ObjectStore

  /** An inbound request. `freshId` is the value `uuid.uuid4()` would produce. */
  datatype Request =
    | AddObject(item: Record, freshId: string)
    | GetObjects
    | DeleteObject(objectUuid: string)

  /** A response body, or the HTTP error raised instead of one. */
  datatype Response =
    | Added(message: string, uuid: Json)
    | Objects(objects: Store)
    | ObjectDeleted(message: string, objectUuid: string)
    | HttpError(status: int, detail: string)

  const AddedMessage: string := "Object added"
  const DeletedMessage: string := "Object deleted"
  const NotFoundStatus: int := 404
  const NotFoundDetail: string := "Object not found"

  datatype StepResult = StepResult(store: Store, response: Response)

  /** Handle one request against the store. */
  function Step(store: Store, req: Request): (res: StepResult)
    ensures req.GetObjects? ==> res.store == store && res.response == Objects(store)
    ensures req.AddObject? ==>
      && res.store == store + [Stamp(req.item, req.freshId)]
      && res.response == Added(AddedMessage, Stamp(req.item, req.freshId)[UuidKey])
    ensures req.DeleteObject? && IdInUse(store, req.objectUuid) ==>
      && res.response == ObjectDeleted(DeletedMessage, req.objectUuid)
      && |res.store| == |store| - 1
      && exists i :: IsFirstMatch(store, req.objectUuid, i) && res.store == store[..i] + store[i + 1..]
    ensures req.DeleteObject? && !IdInUse(store, req.objectUuid) ==>
      && res.response == HttpError(NotFoundStatus, NotFoundDetail)
      && res.store == store
  {
    match req
    case AddObject(item, freshId) =>
      var added := Add(store, item, freshId);
      assert added.store == store + [Stamp(item, freshId)];
      StepResult(added.store, Added(AddedMessage, added.uuid))
    case GetObjects =>
      StepResult(store, Objects(List(store)))
    case DeleteObject(id) =>
      var deleted := Delete(store, id);
      match deleted.outcome
      case Deleted(uuid) => StepResult(deleted.store, ObjectDeleted(DeletedMessage, uuid))
      case NotFound => StepResult(store, HttpError(NotFoundStatus, NotFoundDetail))
  }

  /** The shared list after handling `reqs` one after another, starting from
      `store`. Each request changes the list by at most one record, and list
      requests never change it. */
  function Replay(store: Store, reqs: seq<Request>): (r: Store)
    ensures |store| - |reqs| <= |r| <= |store| + |reqs|
    ensures (forall i :: 0 <= i < |reqs| ==> reqs[i].GetObjects?) ==> r == store
    decreases |reqs|
  {
    if |reqs| == 0 then store
    else Step(Replay(store, reqs[..|reqs| - 1]), reqs[|reqs| - 1]).store
  }

  /** The records a trace of create requests stores, in request order. */
  function Stamped(reqs: seq<Request>): Store
    requires forall i :: 0 <= i < |reqs| ==> reqs[i].AddObject?
  {
    seq(|reqs|, i requires 0 <= i < |reqs| => Stamp(reqs[i].item, reqs[i].freshId))
  }

  /** Handling two traces in turn is handling their concatenation: every
      request sees the list exactly as the requests before it left it. */
  lemma {:induction false} ReplayConcat(store: Store, a: seq<Request>, b: seq<Request>)
    ensures Replay(store, a + b) == Replay(Replay(store, a), b)
    decreases |b|
  {
    if |b| == 0 {
      assert a + b == a;
    } else {
      assert (a + b)[..|a + b| - 1] == a + b[..|b| - 1];
      assert (a + b)[|a + b| - 1] == b[|b| - 1];
      ReplayConcat(store, a, b[..|b| - 1]);
    }
  }

  /** After a run of creates, the list handler returns the earlier contents
      followed by the created records, in the order they were created. */
  lemma {:induction false} AddsListInInsertionOrder(store: Store, reqs: seq<Request>)
    requires forall i :: 0 <= i < |reqs| ==> reqs[i].AddObject?
    ensures Replay(store, reqs) == store + Stamped(reqs)
    ensures Step(Replay(store, reqs), GetObjects).response == Objects(store + Stamped(reqs))
    decreases |reqs|
  {
    if |reqs| > 0 {
      var init := reqs[..|reqs| - 1];
      AddsListInInsertionOrder(store, init);
      assert Stamped(reqs) == Stamped(init) + [Stamp(reqs[|reqs| - 1].item, reqs[|reqs| - 1].freshId)];
    }
  }

  /** Every string uuid in use after a trace was in use before it or was
      given to a record by one of the trace's creates. */
  lemma {:induction false} ReplayIdsOrigin(store: Store, reqs: seq<Request>, u: string)
    requires IdInUse(Replay(store, reqs), u)
    ensures
      || IdInUse(store, u)
      || exists i :: 0 <= i < |reqs| && reqs[i].AddObject? && Matches(Stamp(reqs[i].item, reqs[i].freshId), u)
    decreases |reqs|
  {
    if |reqs| > 0 {
      var init := reqs[..|reqs| - 1];
      var last := reqs[|reqs| - 1];
      var before := Replay(store, init);
      match last
      case AddObject(item, freshId) =>
        var j :| 0 <= j < |before + [Stamp(item, freshId)]| && Matches((before + [Stamp(item, freshId)])[j], u);
        if j < |before| {
          assert Matches(before[j], u);
          ReplayIdsOrigin(store, init, u);
        } else {
          assert reqs[|reqs| - 1].AddObject? && Matches(Stamp(reqs[|reqs| - 1].item, reqs[|reqs| - 1].freshId), u);
        }
      case GetObjects =>
        ReplayIdsOrigin(store, init, u);
      case DeleteObject(id) =>
        if Delete(before, id).outcome.Deleted? {
          DeleteKeepsNoNewIds(before, id, u);
        }
        ReplayIdsOrigin(store, init, u);
    }
  }

  /** Generated ids keep the string uuids unique over any trace in which every
      create leaves the id to the service and the generated ids are new:
      distinct from each other and from the ids stored at the start. */
  lemma {:induction false} ReplayPreservesUniqueIds(store: Store, reqs: seq<Request>)
    requires UniqueIds(store)
    requires forall i :: 0 <= i < |reqs| && reqs[i].AddObject? ==>
      UuidKey !in reqs[i].item && !IdInUse(store, reqs[i].freshId)
    requires forall i, j :: 0 <= i < j < |reqs| && reqs[i].AddObject? && reqs[j].AddObject? ==>
      reqs[i].freshId != reqs[j].freshId
    ensures UniqueIds(Replay(store, reqs))
    decreases |reqs|
  {
    if |reqs| > 0 {
      var init := reqs[..|reqs| - 1];
      var last := reqs[|reqs| - 1];
      ReplayPreservesUniqueIds(store, init);
      var before := Replay(store, init);
      match last
      case AddObject(item, freshId) =>
        assert forall i :: 0 <= i < |init| && init[i].AddObject? ==>
          !Matches(Stamp(init[i].item, init[i].freshId), freshId) by {
          forall i | 0 <= i < |init| && init[i].AddObject?
            ensures !Matches(Stamp(init[i].item, init[i].freshId), freshId)
          {
            assert init[i] == reqs[i];
          }
        }
        if IdInUse(before, freshId) {
          ReplayIdsOrigin(store, init, freshId);
          assert false;
        }
        AddPreservesUniqueIds(before, item, freshId);
      case GetObjects =>
      case DeleteObject(id) =>
        DeletePreservesUniqueIds(before, id);
    }
  }
}
