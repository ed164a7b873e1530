# mongodb-tailor: event translation, modelled in Dafny

`tailor.js` turns the raw records of a MongoDB operation log (the oplog) into
`change` events for a configured set of collections of one database. With
full-document mode (`fullDoc`) on, it looks up the current document for each
update and attaches it to the event. This project models that translation layer:

- validating and normalising the configuration (`validate`), including the
  in-place split of a comma-delimited `collections` string;
- detecting the wildcard entry `'*'` (`isWatchingAllCollections`);
- stripping the database prefix from a namespace (`colname`);
- the watch filter (`isWatched`): the wildcard, exact collection names, and
  collection-level commands recorded against `<db>.$cmd`;
- per-record routing (the `'op'` handler and `this.u`), with the enrichment
  lookup's outcome as an input;
- the tail object's state: the transport, the per-collection handle map filled
  once on connection, the emitted event stream, and the `destroy` guard.

Files and modules:

- `wrappers.dfy`: `Wrappers`, the `Option` and `Result` types.
- `text.dfy`: `Text`, the comma split and the join that undoes it.
- `records.dfy`: `Records`, the oplog record, payload, event, handle and lookup types.
- `watch_config.dfy`: `WatchConfig`, the configuration object, `Check` and `Validate`.
- `matcher.dfy`: `Matcher`, `Colname` and `IsWatched`.
- `routing.dfy`: `Routing`, the handler's decision for one record and the events of a stream.
- `tailor.dfy`: `Tailor`, the `Tail` class and `NewTail`.

How the model represents the JavaScript:

- Truthiness is explicit. `uri` and `db` are `Option<string>`; a missing value
  and the empty string both fail validation. `collections` is one of four cases:
  unset, a string, an array, or any other truthy value.
- The namespace pattern is written as `` `^${db}\.` `` inside a template literal.
  There the `\.` becomes a plain `.`, so the pattern strips the database name
  plus ANY one following character. That character cannot be a line terminator,
  because a regular-expression `.` does not match one. `Colname` models this
  over whole characters; see "## Left out" for characters outside the Basic
  Multilingual Plane.
- The emitter is the field `Tail.events`; every emission appends to it.
- The deferred start (`setImmediate`) is the method `Tail.Start`, which the
  environment calls.
- The transport's connect callback is `Tail.OnConnect`, and its record handler
  is `Tail.OnOp`.
- The outcome of a `findOne` lookup is a parameter (`LookupResult`): either the
  document (`Null` when none was found) or an error.
- An update in full-document mode whose collection has no handle makes the
  source throw a `TypeError` (`COLS[name]` is undefined). The model reports this
  as the `NoHandle` reaction, which emits nothing. Over a stream (`Routing.Run`),
  the thrown exception is taken to end processing. The class follows the
  per-record account: `Tail.OnOp` returns `NoHandle`, emits nothing and can be
  called again. What the transport does once a listener has thrown is not part
  of the class.
- The source caches `isWatchingAllCollections` once at construction. The model
  computes it from the tail's copy of the collection list when needed. The tail
  copies every validated field, so the two agree (see "## Left out" on the
  caller's config object).
- `Tail.Valid()` is the lifecycle invariant. There are no handles before the
  transport is opened. After that the handle map is either empty or holds one
  handle per configured name. The connect callback needs an opened transport.

The model follows what the code does, also where one might expect otherwise:

- Validation does not remove duplicate or empty entries: `'a,,b'` gives
  `['a', '', 'b']`.
- In wildcard mode, handles are not resolved lazily. Only the configured names,
  `'*'` among them, get a handle.
- `destroy` with no transport yet does nothing, and its callback is never called.
- The tail has no destroyed state that would suppress later emissions.

## Model

| member | source | states |
|---|---|---|
| `Text.Split` | tailor.js:117-119 | at least one piece; no piece contains the separator |
| `Text.JoinSplit` | tailor.js:117-119 | re-joining the pieces of a split with ',' gives back the original string, so order is kept and nothing is lost |
| `Text.SplitJoin` | tailor.js:118 | splitting a join of separator-free pieces gives back exactly those pieces (the other direction of the round trip) |
| `Text.SplitCount` | tailor.js:118 | the number of entries is the number of commas plus one: no entry, empty or not, is removed |
| `WatchConfig.Normalize` | tailor.js:117-119 | a string becomes an array whose join is the string and whose length is commas + 1; any other value is left as it is |
| `WatchConfig.Config.constructor` | tailor.js:112-118 | the caller's configuration object, holding uri, db, collections and fullDoc as given |
| `WatchConfig.MessagesDistinct` | tailor.js:113-121 | about `WatchConfig.Message`, which holds the assertion texts: each rejection carries its own message ("missing config", "missing uri", "missing db", "missing collections", "collections must be an Array", "must be at least 1 collection."); no two share one |
| `WatchConfig.Check` | tailor.js:112-123 | succeeds iff uri and db are non-empty and collections is a non-empty string or a non-empty array; the result is never empty; for a string it is exactly the comma split, re-joins to the string and has commas + 1 entries; for an array it is the array; errors in assertion order: missing uri, then missing db, then "missing collections" for an unset or empty-string value, "collections must be an Array" for any other non-array value, "must be at least 1 collection." for an empty array |
| `WatchConfig.Validate` | tailor.js:112-123 | null config fails with "missing config"; otherwise the outcome is `Check` of the fields; on success the same object is returned with `collections` replaced by the list; on failure nothing changes; uri, db and fullDoc never change |
| `WatchConfig.WatchesAll` | tailor.js:125-127 | true iff some entry of the list is exactly `*` |
| `WatchConfig.WildcardEntryWatchesAll` | tailor.js:117-127 | a comma-delimited string with a `*` entry anywhere is in wildcard mode after normalisation |
| `WatchConfig.DelimitedWildcardExample` | tailor.js:112-127 | `'x,*'` validates and counts as the wildcard |
| `WatchConfig.EmptyEntriesKept` | tailor.js:118 | `'a,,b'` splits into `['a', '', 'b']` |
| `Matcher.Colname` | tailor.js:90-92 | when db plus one non-line-terminator character prefixes ns, ns is db, that character, then the result; otherwise ns is returned unchanged; the result is never longer (pattern built at tailor.js:13) |
| `Matcher.ColnameOfQualified` | tailor.js:90-92 | for ns = db + sep + c, with any single separator other than a line terminator, the result is c, even when c itself starts with db (only one prefix is removed) |
| `Matcher.CommandNs` | tailor.js:103 | the command namespace starts with db, is five characters longer, and strips to the collection name `$cmd` |
| `Matcher.IsWatched` | tailor.js:94-110 | with a `*` entry every record is watched, whatever its ns or o; a record whose collection name is configured is watched; otherwise it is watched iff ns is exactly db + ".$cmd" and some value of o, under any key, is a string equal to a configured name |
| `Matcher.QualifiedWatchedIffNamed` | tailor.js:94-110 | without the wildcard, a record on db + "." + c (c not "$cmd") is watched iff c is configured |
| `Matcher.DropCommandWatched` | tailor.js:103-109 | a `{<any key>: "c"}` command on "d.$cmd" matches when "c" is watched in "d" |
| `Matcher.NamedExamples` | tailor.js:97-104 | with "c" watched in "d", "d.c" matches and "d.other" does not |
| `Records.SelectorId` | tailor.js:49 | the lookup key `o2._id`: present iff the selector has an `_id`, and then that value |
| `Routing.React` | tailor.js:40-68 | unwatched records are ignored; a watched non-update, or any watched update without fullDoc, is emitted at once with log = record and no doc; a watched update with fullDoc issues one query on the handle of its collection name with key o2._id, or hits a missing handle |
| `Routing.Answer` | tailor.js:49-57 | a failed lookup gives an error event with its cause; a successful one gives one change with log = record and doc = the result (null if none) |
| `Routing.Output` | tailor.js:40-68 | none for ignored records or a missing handle; exactly `[Change(payload)]` for a record emitted at once; exactly the lookup callback's event for a query |
| `Routing.Run` | tailor.js:60-68 | the events of a stream of `'op'` deliveries: at most one per record, each a change or, only in full-document mode, an error; the stream stops at the first missing handle (the thrown `TypeError`), whereas `Tail.OnOp` models one delivery and can be called again after one |
| `Routing.RunWithoutFullDocIsFilter` | tailor.js:60-68 | without fullDoc the emitted events are exactly one plain change per watched record, in input order |
| `Routing.RunEnrichedKeepsWatched` | tailor.js:47-68 | with fullDoc, when all lookups succeed and handles exist, the changes carry exactly the watched records, one event each; the input order holds only because the model completes each lookup before the next record (the source does not promise it) |
| `Routing.RunAtMostOnePerWatched` | tailor.js:40-68 | a stream never emits more events than it has watched records |
| `Routing.FailedLookupEmitsOnlyError` | tailor.js:49-53 | a failed lookup for a watched update emits exactly that error and no change |
| `Tailor.Handles` | tailor.js:33-35 | a handle exists for exactly the configured names, each on that collection of db |
| `Tailor.HandlesCoverWatched` | tailor.js:33-49 | without the wildcard, a watched record outside "<db>.$cmd" always has a handle once connected, so enrichment never throws |
| `Tailor.WildcardUpdateHasNoHandle` | tailor.js:33-49 | in wildcard mode with fullDoc, an update on a collection not listed by name finds no handle |
| `Tailor.Tail.constructor` | tailor.js:11-17 | keeps the validated fields; no transport, no handles, no events yet; establishes the invariant |
| `Tailor.Tail.Start` | tailor.js:21-27 | empties the handle map and opens the transport on uri with namespace db + ".*" |
| `Tailor.Tail.OnConnect` | tailor.js:29-38 | only after the transport is opened; on error nothing changes; otherwise the handle map becomes exactly one handle per configured name and `connected` is appended; keeps the invariant |
| `Tailor.Tail.Update` | tailor.js:40-58 | for a watched update, does what `Routing.React` decides and appends what `Routing.Output` gives; nothing else changes |
| `Tailor.Tail.OnOp` | tailor.js:60-68 | for any record, does what `Routing.React` decides and appends what `Routing.Output` gives; handles and transport are unchanged; once connected without the wildcard, a record outside `<db>.$cmd` never meets a missing handle |
| `Tailor.Tail.Destroy` | tailor.js:86-88 | forwards a teardown to the transport iff one was opened; otherwise does nothing; events and handles are unchanged |
| `Tailor.NewTail` | tailor.js:7-17 | an invalid config gives the validation error and leaves the caller's object as it was; a valid one gives a fresh, unstarted tail with no handles and no events, holding the normalised fields, and the caller's `collections` is replaced by the list in place; uri, db and fullDoc are never changed |

## Left out

- The `mongo-oplog` transport is not modelled: `createOplog`, `oplog.tail`, and
  the forwarding of its `'error'` and `'end'` signals (tailor.js:70-77). These are
  network and stream plumbing. Connecting and delivering records are calls the
  environment makes to `Tail.OnConnect` and `Tail.OnOp`.
- The MongoDB driver is not modelled: `findOne` and
  `oplog.db.db(...).collection(...)`. A handle is an opaque value, and a lookup's
  outcome is an input.
- `EventEmitter` inheritance and `setImmediate` scheduling are replaced by the
  appended `events` sequence and an explicit `Start` call.
- Asynchronous interleaving is not modelled. A lookup completes, and its event is
  appended, before the next record is handled. The source can emit enriched
  updates out of log order, or after `destroy`; the model does not show either.
- Database names that contain regular-expression metacharacters are out of
  scope; `db` is treated as plain text.
- Collection names that are inherited JavaScript object properties are out of
  scope. `COLS` is a plain object, so a name such as `constructor` would find an
  inherited value there. The model uses a map.
- `collections` arrays holding values that are not strings are out of scope, and
  so are numbers that are not integers inside documents.
- A record that lacks `o` is out of scope. The source throws on it only on the
  command path, at `Object.keys(data.o)` (tailor.js:106). In wildcard mode, or
  when its collection name is configured, the source emits it.
- An update that lacks `o2` is out of scope. The source throws on it only in
  full-document mode, at `data.o2._id` (tailor.js:49); otherwise it is emitted.
  The model treats a missing `o2` as an empty object, which makes the `_id` key
  undefined.
- The caller's configuration object is not shared with the tail. In the source
  the tail keeps that very object (tailor.js:12, 122) and reads `collections`
  (tailor.js:33, 98, 107) and `fullDoc` (tailor.js:41) from it on every use.
  So a caller who changes the object afterwards changes the tail's behaviour.
  Only the wildcard flag (tailor.js:14) and the namespace pattern (tailor.js:13)
  are fixed at construction. The model copies every field into the tail at
  construction, so it does not capture this aliasing.
- `Colname` works on whole characters. Without the `u` flag, a JavaScript
  regular-expression `.` matches one UTF-16 code unit. A character outside the
  Basic Multilingual Plane right after the database name is therefore only half
  removed by the source, while the model removes all of it.
- The callback `fn` of `destroy` is not modelled. The source hands it to the
  transport's own `destroy`, or drops it when there is no transport yet.
  `Tail.Destroy` takes no callback.
- test/index.js only checks that `tail` is exported as a function, so it has no
  logic to model.
