/**
 * Values that cross the boundary of the translation layer: the raw operation-log
 * records handed over by the tailing transport, the change payloads and the
 * events the tail emits, collection handles and the outcome of a document lookup.
 */
module Records {
  import opened Wrappers

  /** A JSON-like document value, as the driver hands it over. */
  datatype Json =
    | Null
    | Bool(b: bool)
    | Num(n: int)
    | Str(s: string)
    | List(items: seq<Json>)
    | Obj(fields: map<string, Json>)

  /**
   * One raw operation-log record: `op` ('i', 'u', 'd', 'c', ...), the namespace
   * `ns` ("<db>.<collection>" or "<db>.$cmd"), the payload `o` and the update
   * selector `o2` (an empty object on records that carry none).
   */
  datatype Record = Record(op: string, ns: string, o: map<string, Json>, o2: map<string, Json>)

  /**
   * What a `change` event carries: the originating record and, for enriched
   * updates, the looked-up document. `None` is the missing second argument
   * (`undefined`); `Some(Null)` is a lookup that found nothing.
   */
  datatype Payload = Payload(log: Record, doc: Option<Json>)

  /** The cause an `error` event carries; opaque to the core. */
  type Cause = string

  /** Signals the tail emits to its listeners, in emission order. */
  datatype Event = Connected | Change(payload: Payload) | Error(cause: Cause)

  /** A query handle for one collection of one database. */
  datatype Handle = Handle(db: string, collection: string)

  /** A lookup by `_id` issued against a handle; `None` is an `undefined` key. */
  datatype Query = Query(handle: Handle, id: Option<Json>)

  /** What a lookup reports to its callback: the document (`Null` when none) or an error. */
  datatype LookupResult = Found(doc: Json) | Failed(cause: Cause)

  /** The `_id` of the update selector, as `data.o2._id` reads it. */
  function SelectorId(rec: Record): (id: Option<Json>)
    ensures id.Some? <==> "_id" in rec.o2
    ensures id.Some? ==> id.value == rec.o2["_id"]
  {
    if "_id" in rec.o2 then Some(rec.o2["_id"]) else None
  }
}
