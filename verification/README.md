# Object store of the lecture API service

This project models the in-memory object store of a small HTTP service in Dafny. The service keeps one process-wide list, `to_save`, of arbitrary JSON objects. It offers three handlers over that list:

- `add_object` (POST /add_object) gives the object a generated `"uuid"` when it has none, appends it, and reports the uuid.
- `get_objects` (GET /object_list) returns the whole list in insertion order.
- `delete_object` (DELETE /delete_object/{object_uuid}) scans the list in order. It removes the first object whose `"uuid"` equals the path string, or raises a 404 "Object not found".

The model is functional. The store is an immutable `seq<Record>`, and a record is a `map<string, Json>` over a tagged-union `Json` value. Each handler is a pure function that returns the new store with its result.

The `uuid.uuid4()` call becomes a caller-supplied `freshId: string`. Its freshness is a hypothesis of the lemmas that rely on it. It is not a precondition of `Add`, because the handler itself demands nothing of its caller.

The delete test `obj.get("uuid") == object_uuid` compares against a string. So a record whose `"uuid"` is missing or holds a non-string JSON value can never be deleted. `Matches` models this exactly, and `UnmatchableRecordSurvives` proves it. Over HTTP, a string uuid that is empty or contains "/" cannot be deleted either, because the route does not match it (see "## Left out").

Files:

- `json.dfy`, module `Json`: the `Json` value type, `Record`, `Option`, and `Get` (Python's `dict.get`).
- `object_store.dfy`, module `ObjectStore`: the store and its operations `Add`, `List`, `FirstMatch`, `Delete` and `DeleteScan` (the loop as written), plus the lemmas about them.
- `api.dfy`, module `Api`: the handlers as one `Step` over a request datatype, with the response bodies, the message strings and the 404. `Replay` runs a trace of requests in arrival order.

## Model

| member | source | states |
|---|---|---|
| ObjectStore.Matches | app/main.py:37 | A record matches an id exactly when it has a "uuid" field and that field is a JSON string equal to the id. A missing or non-string uuid matches no id. |
| ObjectStore.Stamp | app/main.py:17-19 | The stored record has the item's keys plus "uuid". Every field the item had keeps its value, including a caller-supplied "uuid". A missing "uuid" becomes the string freshId. |
| ObjectStore.Add | app/main.py:11-21 | The new store is one longer. Every earlier record stays at its index, and the stamped item sits at the end. The reported uuid is the appended record's "uuid" field: the item's own value when it had one, else the fresh id. |
| ObjectStore.List | app/main.py:23-28 | The listing has the store's length and, index by index, the store's records in insertion order. |
| ObjectStore.FirstMatch | app/main.py:36-37 | Finds nothing exactly when no record's "uuid" is the string id. Otherwise it returns the lowest index whose record matches. |
| ObjectStore.Delete | app/main.py:30-41 | NotFound exactly when no record matches, and then the store is unchanged. Otherwise it confirms the requested id, the store shrinks by one, and the result is old[..i] + old[i+1..] for the first matching index i. |
| ObjectStore.DeleteScan | app/main.py:36-41 | The enumerate loop with its early return and its 404 after the loop computes exactly Delete's result. |
| ObjectStore.DeleteCounts | app/main.py:36-39 | A successful delete lowers the number of records carrying the id by exactly one. No other id gains records. |
| ObjectStore.DeleteTwice | app/main.py:36-41 | When the id occurs exactly once, the first delete succeeds. The second reports NotFound and leaves the store as the first delete left it. |
| ObjectStore.UnmatchableRecordSurvives | app/main.py:37 | A record whose "uuid" is missing or not a string is still in the store after a delete of any id. |
| ObjectStore.AddThenDelete | app/main.py:18-39 | Deleting the string uuid that add just reported, when no earlier record carries it, confirms the delete and restores the store from before the add. |
| ObjectStore.AddPreservesUniqueIds | app/main.py:18-20 | Adding an item without "uuid" under an unused generated id keeps every string uuid carried by at most one record. |
| ObjectStore.DeletePreservesUniqueIds | app/main.py:36-39 | Delete keeps every string uuid carried by at most one record. |
| ObjectStore.UniqueDeleteClears | app/main.py:36-41 | While uuids are unique, no record carries the id after a successful delete, so a repeated delete fails. |
| ObjectStore.DuplicateUuidDeletesOlder | app/main.py:18-39 | A caller-supplied "uuid" already in use is stored anyway, which breaks uniqueness. The next delete of that id removes the older record and keeps the new one at the end. |
| ObjectStore.DeleteKeepsNoNewIds | app/main.py:36-39 | Every id in use after a delete was in use before it. |
| Api.Step | app/main.py:11-41 | List returns Objects(store) and changes nothing. Add appends the stamped item and answers "Object added" with its uuid. Delete of an id in use answers "Object deleted" with that id. It removes the first record carrying the id, and the others keep their order. Delete of an id not in use answers 404 "Object not found" and changes nothing. |
| Api.Replay | app/main.py:9-41 | Requests applied in turn to the shared list change its length by at most one each. A trace made only of list requests leaves the list as it was. |
| Api.ReplayConcat | app/main.py:9-41 | Handling two traces in turn equals handling their concatenation, so each request sees the list exactly as the earlier requests left it. |
| Api.AddsListInInsertionOrder | app/main.py:20-28 | After a run of creates, the store and the list response are the earlier contents followed by the created records, in request order. |
| Api.ReplayIdsOrigin | app/main.py:18-39 | Every string uuid in use after a request trace was in use before it, or was given to a record by one of the trace's creates. |
| Api.ReplayPreservesUniqueIds | app/main.py:18-39 | Over any trace whose creates all rely on generated ids, distinct from one another and from the initial ids, string uuids stay unique. |

## Left out

- The websocket endpoint `websocket_endpoint` (app/main.py:43-68) is not modelled. It draws floating-point Gaussian samples, sleeps, and sends in an endless loop until the peer disconnects. That is randomness, timing, I/O and concurrency.
- The `uvicorn` start-up block (app/main.py:70-74) is not modelled. It is process wiring.
- `uuid.uuid4()` is not modelled. It becomes the parameter `freshId`, and its freshness is a lemma hypothesis. The UUID text format and the collision probability are not modelled.
- FastAPI routing, JSON request decoding and the `HTTPException` machinery are not modelled. The 404 appears only as the `HttpError(404, "Object not found")` response, and malformed bodies never reach the handlers.
- Concurrent requests racing on the shared list are not modelled. `Replay` handles requests one at a time.
- Python aliasing is not modelled. In the source, `add_object` mutates the caller's dict in place, but records here are values.
- Key order inside a record is not modelled. A Python dict keeps insertion order, so a generated "uuid" is serialised as the last key, but `map<string, Json>` has no key order.
- NaN and Infinity are not modelled. Python's JSON decoder accepts them, and `JNumber(real)` cannot hold them.
- The route's path segment is not modelled. `/delete_object/{object_uuid}` matches only a non-empty segment without "/", so a string uuid that is empty or contains "/" cannot be deleted over HTTP either. `Delete` itself accepts any string.
- JSON numbers are modelled as reals, without Python's int/float distinction. Only string equality on "uuid" affects the stored behaviour.
