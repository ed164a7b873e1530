/**
 * Per-record routing: what the handler for one raw record does (drop it, emit
 * it, or look up the full document first), what the lookup's callback emits,
 * and the events a whole stream of records produces.
 */
module Routing {
  import opened Wrappers
  import opened Records
  import Matcher

  /** What the record handler does synchronously with one record. */
  datatype Reaction =
    | Ignored                 // not watched: nothing is emitted
    | Emitted(payload: Payload) // a change emitted at once
    | Queried(query: Query)   // one lookup issued; its callback emits
    | NoHandle(name: string)  // no handle for the collection: the handler throws

  /** The operation code of an update record. */
  const UpdateOp: string := "u"

  /**
   * The handler's decision for `rec`, with `names` the configured collections
   * of database `db` and `cols` the handles built on connection.
   */
  function React(db: string, names: seq<string>, fullDoc: bool, cols: map<string, Handle>, rec: Record): (r: Reaction)
    ensures r.Ignored? <==> !Matcher.IsWatched(db, names, rec)
    ensures r.Emitted? <==> Matcher.IsWatched(db, names, rec) && (rec.op != UpdateOp || !fullDoc)
    ensures r.Emitted? ==> r.payload.log == rec && r.payload.doc.None?
    ensures (r.Queried? || r.NoHandle?) <==> Matcher.IsWatched(db, names, rec) && rec.op == UpdateOp && fullDoc
    ensures r.Queried? ==>
      var name := Matcher.Colname(db, rec.ns);
      name in cols && r.query.handle == cols[name] && r.query.id == SelectorId(rec)
    ensures r.NoHandle? ==> r.name == Matcher.Colname(db, rec.ns) && r.name !in cols
  {
    if !Matcher.IsWatched(db, names, rec) then Ignored
    else if rec.op != UpdateOp then Emitted(Payload(rec, None))
    else if !fullDoc then Emitted(Payload(rec, None))
    else
      var name := Matcher.Colname(db, rec.ns);
      if name in cols then Queried(Query(cols[name], SelectorId(rec))) else NoHandle(name)
  }

  /** What the lookup callback emits for update `rec`: the error, or the change with the document attached. */
  function Answer(rec: Record, result: LookupResult): (e: Event)
    ensures result.Failed? ==> e == Error(result.cause)
    ensures result.Found? ==> e.Change? && e.payload.log == rec && e.payload.doc == Some(result.doc)
  {
    match result
    case Failed(cause) => Error(cause)
    case Found(doc) => Change(Payload(rec, Some(doc)))
  }

  /** The events one record produces, given the result its lookup (if any) reports. */
  function Output(r: Reaction, rec: Record, result: LookupResult): (events: seq<Event>)
    ensures |events| <= 1
    ensures r.Ignored? || r.NoHandle? ==> events == []
    ensures r.Emitted? ==> events == [Change(r.payload)]
    ensures r.Queried? ==> events == [Answer(rec, result)]
  {
    match r
    case Ignored => []
    case Emitted(p) => [Change(p)]
    case Queried(_) => [Answer(rec, result)]
    case NoHandle(_) => []
  }

  /**
   * The events a stream of records produces, one record at a time, where
   * `results[i]` is what a lookup for `recs[i]` would report. A record with
   * no handle throws out of the handler, and nothing after it is processed.
   */
  function Run(db: string, names: seq<string>, fullDoc: bool, cols: map<string, Handle>,
               recs: seq<Record>, results: seq<LookupResult>): (events: seq<Event>)
    requires |results| == |recs|
    ensures |events| <= |recs|
    ensures forall i :: 0 <= i < |events| ==> events[i].Change? || (fullDoc && events[i].Error?)
  {
    if recs == [] then []
    else
      var r := React(db, names, fullDoc, cols, recs[0]);
      if r.NoHandle? then []
      else Output(r, recs[0], results[0]) + Run(db, names, fullDoc, cols, recs[1..], results[1..])
  }

  /** The watched records of a stream, in stream order. */
  function Watched(db: string, names: seq<string>, recs: seq<Record>): seq<Record>
  {
    if recs == [] then []
    else (if Matcher.IsWatched(db, names, recs[0]) then [recs[0]] else []) + Watched(db, names, recs[1..])
  }

  /** A change without a looked-up document for each record, in order. */
  function PlainChanges(recs: seq<Record>): seq<Event>
  {
    if recs == [] then [] else [Change(Payload(recs[0], None))] + PlainChanges(recs[1..])
  }

  /** The records the change events of `events` carry, in order. */
  function Logs(events: seq<Event>): seq<Record>
  {
    if events == [] then []
    else (if events[0].Change? then [events[0].payload.log] else []) + Logs(events[1..])
  }

  /**
   * Without full-document mode the emitted events are exactly one plain change
   * per watched record, in input order; unwatched records produce nothing.
   */
  lemma {:induction false} RunWithoutFullDocIsFilter(db: string, names: seq<string>, cols: map<string, Handle>,
                                                     recs: seq<Record>, results: seq<LookupResult>)
    requires |results| == |recs|
    ensures Run(db, names, false, cols, recs, results) == PlainChanges(Watched(db, names, recs))
  {
    if recs != [] {
      RunWithoutFullDocIsFilter(db, names, cols, recs[1..], results[1..]);
      var rest := Watched(db, names, recs[1..]);
      if Matcher.IsWatched(db, names, recs[0]) {
        assert Watched(db, names, recs) == [recs[0]] + rest;
        assert ([recs[0]] + rest)[1..] == rest;
      } else {
        assert Watched(db, names, recs) == rest;
      }
    }
  }

  /** Every lookup succeeds, and every watched update has a handle. */
  predicate LookupsSucceed(db: string, names: seq<string>, cols: map<string, Handle>,
                           recs: seq<Record>, results: seq<LookupResult>)
    requires |results| == |recs|
  {
    forall i :: 0 <= i < |recs| ==>
      results[i].Found? &&
      (Matcher.IsWatched(db, names, recs[i]) && recs[i].op == UpdateOp ==> Matcher.Colname(db, recs[i].ns) in cols)
  }

  /**
   * In full-document mode, when every lookup succeeds, the changes still carry
   * exactly the watched records and nothing else is emitted. They come in
   * input order here only because each lookup completes before the next
   * record is handled; with lookups in flight concurrently, enriched changes
   * may be emitted in another order.
   */
  lemma {:induction false} RunEnrichedKeepsWatched(db: string, names: seq<string>, cols: map<string, Handle>,
                                                   recs: seq<Record>, results: seq<LookupResult>)
    requires |results| == |recs|
    requires LookupsSucceed(db, names, cols, recs, results)
    ensures Logs(Run(db, names, true, cols, recs, results)) == Watched(db, names, recs)
    ensures |Run(db, names, true, cols, recs, results)| == |Watched(db, names, recs)|
  {
    if recs != [] {
      assert LookupsSucceed(db, names, cols, recs[1..], results[1..]) by {
        forall i | 0 <= i < |recs| - 1
          ensures results[1..][i].Found? &&
            (Matcher.IsWatched(db, names, recs[1..][i]) && recs[1..][i].op == UpdateOp ==> Matcher.Colname(db, recs[1..][i].ns) in cols)
        {
          assert results[1..][i] == results[i + 1] && recs[1..][i] == recs[i + 1];
        }
      }
      RunEnrichedKeepsWatched(db, names, cols, recs[1..], results[1..]);
      var r := React(db, names, true, cols, recs[0]);
      var out := Output(r, recs[0], results[0]);
      var tail := Run(db, names, true, cols, recs[1..], results[1..]);
      assert results[0].Found?;
      assert !r.NoHandle?;
      LogsAppend(out, tail);
      if Matcher.IsWatched(db, names, recs[0]) {
        assert out == [Change(Payload(recs[0], out[0].payload.doc))];
        assert Logs(out) == [recs[0]];
      } else {
        assert out == [];
      }
    }
  }

  /** Logs distribute over concatenation. */
  lemma {:induction false} LogsAppend(a: seq<Event>, b: seq<Event>)
    ensures Logs(a + b) == Logs(a) + Logs(b)
  {
    if a != [] {
      LogsAppend(a[1..], b);
      assert (a + b)[0] == a[0] && (a + b)[1..] == a[1..] + b;
      var head := if a[0].Change? then [a[0].payload.log] else [];
      assert Logs(a + b) == head + Logs(a[1..]) + Logs(b);
    } else {
      assert a + b == b;
    }
  }

  /** A stream never produces more events than it has watched records. */
  lemma {:induction false} RunAtMostOnePerWatched(db: string, names: seq<string>, fullDoc: bool, cols: map<string, Handle>,
                                                  recs: seq<Record>, results: seq<LookupResult>)
    requires |results| == |recs|
    ensures |Run(db, names, fullDoc, cols, recs, results)| <= |Watched(db, names, recs)|
  {
    if recs != [] {
      RunAtMostOnePerWatched(db, names, fullDoc, cols, recs[1..], results[1..]);
    }
  }

  /**
   * A failed lookup for a watched update emits that error and no change; the
   * update is not retried.
   */
  lemma FailedLookupEmitsOnlyError(db: string, names: seq<string>, cols: map<string, Handle>, rec: Record, cause: Cause)
    requires Matcher.IsWatched(db, names, rec) && rec.op == UpdateOp
    requires Matcher.Colname(db, rec.ns) in cols
    ensures Output(React(db, names, true, cols, rec), rec, Failed(cause)) == [Error(cause)]
  {
  }
}
