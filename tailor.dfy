/**
 * The tail: built from a validated configuration, it opens the operation-log
 * transport, builds one query handle per configured collection once
 * connected, routes every raw record and appends what it emits.
 */
module Tailor {
  import opened Wrappers
  import opened Records
  import WatchConfig
  import Matcher
  import Routing

  /** The transport as the tail sees it: where it points and how often it was asked to tear down. */
  datatype Oplog = Oplog(uri: string, ns: string, destroyCalls: nat)

  /** One handle per configured name, each for that collection of `db`. */
  function Handles(db: string, names: seq<string>): (m: map<string, Handle>)
    ensures forall name :: name in m <==> name in names
    ensures forall name :: name in m ==> m[name] == Handle(db, name)
  {
    map name | name in names :: Handle(db, name)
  }

  /**
   * Once connected without the wildcard, every watched record outside the
   * command namespace has a handle, so an enriched update never throws.
   */
  lemma HandlesCoverWatched(db: string, names: seq<string>, rec: Record)
    requires !WatchConfig.WatchesAll(names)
    requires Matcher.IsWatched(db, names, rec) && rec.ns != Matcher.CommandNs(db)
    ensures Matcher.Colname(db, rec.ns) in Handles(db, names)
    ensures !Routing.React(db, names, true, Handles(db, names), rec).NoHandle?
  {
  }

  /**
   * With the wildcard only the configured names get handles, so in
   * full-document mode an update on any other collection finds none.
   */
  lemma WildcardUpdateHasNoHandle(db: string, names: seq<string>, rec: Record)
    requires WatchConfig.WatchesAll(names)
    requires rec.op == Routing.UpdateOp && Matcher.Colname(db, rec.ns) !in names
    ensures Routing.React(db, names, true, Handles(db, names), rec) == Routing.NoHandle(Matcher.Colname(db, rec.ns))
  {
  }

  class Tail {
    const uri: string
    const db: string
    const collections: seq<string>
    const fullDoc: bool

    /** The transport; `None` until the deferred start has run. */
    var oplog: Option<Oplog>
    /** Query handles by collection name. */
    var cols: map<string, Handle>
    /** Everything emitted so far, in emission order. */
    var events: seq<Event>

    /**
     * The tail's invariant: a validated configuration has at least one
     * collection; handles exist only once the transport has been opened, and
     * then either none yet or exactly one per configured collection.
     */
    ghost predicate Valid()
      reads this
    {
      && collections != []
      && (oplog.None? ==> cols == map[])
      && (cols == map[] || cols == Handles(db, collections))
    }

    constructor (uri: string, db: string, collections: seq<string>, fullDoc: bool)
      requires collections != []
      ensures Valid()
      ensures this.uri == uri && this.db == db && this.collections == collections && this.fullDoc == fullDoc
      ensures oplog == None && cols == map[] && events == []
    {
      this.uri := uri;
      this.db := db;
      this.collections := collections;
      this.fullDoc := fullDoc;
      oplog := None;
      cols := map[];
      events := [];
    }

    /** The deferred start: clears the handle map and opens the transport on every namespace of the database. */
    method Start()
      requires Valid()
      modifies this
      ensures Valid()
      ensures cols == map[]
      ensures oplog == Some(Oplog(uri, db + ".*", 0))
      ensures events == old(events)
    {
      cols := map[];
      oplog := Some(Oplog(uri, db + ".*", 0));
    }

    /**
     * The transport's connect callback: on failure nothing happens here (the
     * transport reports it); on success one handle per configured collection is
     * stored and `connected` is emitted.
     */
    method OnConnect(err: Option<Cause>)
      requires Valid() && oplog.Some?
      modifies this
      ensures Valid()
      ensures err.Some? ==> cols == old(cols) && events == old(events)
      ensures err.None? ==> cols == old(cols) + Handles(db, collections) && events == old(events) + [Connected]
      ensures err.None? ==> cols == Handles(db, collections)
      ensures oplog == old(oplog)
    {
      if err.Some? {
        return;
      }
      for i := 0 to |collections|
        invariant cols == old(cols) + Handles(db, collections[..i])
        invariant events == old(events) && oplog == old(oplog)
      {
        var name := collections[i];
        assert collections[..i + 1] == collections[..i] + [name];
        cols := cols[name := Handle(db, name)];
      }
      assert collections[..|collections|] == collections;
      assert cols == Handles(db, collections);
      events := events + [Connected];
    }

    /**
     * The update handler for a watched update: emits it at once without
     * full-document mode; otherwise looks the document up by the selector's
     * `_id` in the handle of its collection and emits what the lookup reports.
     */
    method Update(rec: Record, result: LookupResult) returns (r: Routing.Reaction)
      requires Valid()
      requires Matcher.IsWatched(db, collections, rec) && rec.op == Routing.UpdateOp
      modifies this
      ensures Valid()
      ensures r == Routing.React(db, collections, fullDoc, cols, rec)
      ensures events == old(events) + Routing.Output(r, rec, result)
      ensures cols == old(cols) && oplog == old(oplog)
    {
      if !fullDoc {
        var payload := Payload(rec, None);
        events := events + [Change(payload)];
        return Routing.Emitted(payload);
      }
      var name := Matcher.Colname(db, rec.ns);
      if name !in cols {
        return Routing.NoHandle(name);
      }
      var query := Query(cols[name], SelectorId(rec));
      match result {
        case Failed(cause) =>
          events := events + [Error(cause)];
        case Found(doc) =>
          events := events + [Change(Payload(rec, Some(doc)))];
      }
      return Routing.Queried(query);
    }

    /** The record handler: drops unwatched records, passes updates on, emits every other watched record at once. */
    method OnOp(rec: Record, result: LookupResult) returns (r: Routing.Reaction)
      requires Valid()
      modifies this
      ensures Valid()
      ensures !WatchConfig.WatchesAll(collections) && cols != map[] && rec.ns != Matcher.CommandNs(db) ==> !r.NoHandle?
      ensures r == Routing.React(db, collections, fullDoc, cols, rec)
      ensures events == old(events) + Routing.Output(r, rec, result)
      ensures cols == old(cols) && oplog == old(oplog)
    {
      if !Matcher.IsWatched(db, collections, rec) {
        return Routing.Ignored;
      }
      if rec.op == Routing.UpdateOp {
        r := Update(rec, result);
        return;
      }
      var payload := Payload(rec, None);
      events := events + [Change(payload)];
      return Routing.Emitted(payload);
    }

    /** Asks the transport to tear down, if it was ever opened; otherwise does nothing. */
    method Destroy() returns (forwarded: bool)
      requires Valid()
      modifies this
      ensures Valid()
      ensures forwarded <==> old(oplog).Some?
      ensures forwarded ==> oplog == Some(old(oplog).value.(destroyCalls := old(oplog).value.destroyCalls + 1))
      ensures !forwarded ==> oplog == None
      ensures cols == old(cols) && events == old(events)
    {
      if oplog.None? {
        return false;
      }
      oplog := Some(oplog.value.(destroyCalls := oplog.value.destroyCalls + 1));
      return true;
    }
  }

  /**
   * Creating a tail: validates (and normalises) the configuration and builds a
   * tail that has not started yet; an invalid configuration is an error.
   */
  method NewTail(config: WatchConfig.Config?) returns (r: Result<Tail, WatchConfig.ConfigError>)
    modifies config
    ensures config == null ==> r == Failure(WatchConfig.MissingConfig)
    ensures config != null ==>
      match WatchConfig.Check(old(config.uri), old(config.db), old(config.collections))
      case Failure(e) => r == Failure(e)
      case Success(names) =>
        r.Success? && fresh(r.value) && r.value.Valid() &&
        r.value.uri == old(config.uri).value && r.value.db == old(config.db).value &&
        r.value.collections == names && r.value.fullDoc == old(config.fullDoc) &&
        r.value.oplog == None && r.value.cols == map[] && r.value.events == []
    ensures config != null ==>
      config.uri == old(config.uri) && config.db == old(config.db) && config.fullDoc == old(config.fullDoc)
    ensures config != null ==>
      match WatchConfig.Check(old(config.uri), old(config.db), old(config.collections))
      case Success(names) => config.collections == WatchConfig.Listed(names)
      case Failure(_) => config.collections == old(config.collections)
  {
    var validated := WatchConfig.Validate(config);
    match validated {
      case Failure(e) =>
        return Failure(e);
      case Success(c) =>
        var tail := new Tail(c.uri.value, c.db.value, c.collections.names, c.fullDoc);
        return Success(tail);
    }
  }
}
