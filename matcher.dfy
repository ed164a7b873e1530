/**
 * Deciding whether a raw record belongs to a watched collection: stripping the
 * database prefix from the namespace, the wildcard, exact names, and
 * collection-level commands recorded against "<db>.$cmd".
 */
module Matcher {
  import opened Records
  import WatchConfig

  /** Characters a regular-expression `.` does not match. */
  predicate IsLineTerminator(c: char)
  {
    c == '\n' || c == '\r' || c == '\U{2028}' || c == '\U{2029}'
  }

  /**
   * True when the pattern built from `db` matches at the start of `ns`: the
   * database name followed by any one character other than a line terminator
   * (the pattern's `.` stands unescaped).
   */
  predicate HasDbPrefix(db: string, ns: string)
  {
    |ns| > |db| && ns[..|db|] == db && !IsLineTerminator(ns[|db|])
  }

  /** The collection name: `ns` with the database prefix and one following character removed, if present. */
  function Colname(db: string, ns: string): (name: string)
    ensures HasDbPrefix(db, ns) ==> ns == db + [ns[|db|]] + name
    ensures !HasDbPrefix(db, ns) ==> name == ns
    ensures |name| <= |ns|
  {
    if HasDbPrefix(db, ns) then ns[|db| + 1..] else ns
  }

  /** The namespace collection-level commands are recorded against. */
  function CommandNs(db: string): (ns: string)
    ensures |ns| == |db| + 5 && ns[..|db|] == db
    ensures Colname(db, ns) == "$cmd"
  {
    db + ".$cmd"
  }

  /** Some value of the command object, under any key, is exactly one of `names`. */
  predicate NamedByCommand(o: map<string, Json>, names: seq<string>)
  {
    exists key | key in o :: o[key].Str? && o[key].s in names
  }

  /**
   * Whether the tail reports `rec`, given the database and the configured
   * names: the wildcard watches everything, a configured collection name is
   * watched, and otherwise only a command on exactly "<db>.$cmd" whose payload
   * names a configured collection, under any key.
   */
  function IsWatched(db: string, names: seq<string>, rec: Record): (watched: bool)
    ensures WatchConfig.WatchesAll(names) ==> watched
    ensures Colname(db, rec.ns) in names ==> watched
    ensures !WatchConfig.WatchesAll(names) && Colname(db, rec.ns) !in names ==>
      (watched <==> rec.ns == db + ".$cmd" && exists key | key in rec.o :: rec.o[key].Str? && rec.o[key].s in names)
  {
    if WatchConfig.WatchesAll(names) then true
    else if Colname(db, rec.ns) in names then true
    else if rec.ns != CommandNs(db) then false
    else NamedByCommand(rec.o, names)
  }

  /** A qualified namespace, whatever single separator it uses, yields exactly the part after it: one prefix only is removed. */
  lemma ColnameOfQualified(db: string, sep: char, c: string)
    requires !IsLineTerminator(sep)
    ensures Colname(db, db + [sep] + c) == c
  {
    var ns := db + [sep] + c;
    assert ns[..|db|] == db && ns[|db|] == sep;
    assert ns[|db| + 1..] == c;
  }

  /**
   * Without the wildcard, a record on "<db>.<c>" (c other than "$cmd") is
   * watched exactly when c is configured.
   */
  lemma {:induction false} QualifiedWatchedIffNamed(db: string, names: seq<string>, c: string, rec: Record)
    requires !WatchConfig.WatchesAll(names)
    requires rec.ns == db + "." + c && c != "$cmd"
    ensures IsWatched(db, names, rec) <==> c in names
  {
    ColnameOfQualified(db, '.', c);
  }

  /** A drop of a watched collection matches through the command namespace, whatever its key. */
  lemma DropCommandWatched(key: string)
    ensures IsWatched("d", ["c"], Record("c", "d.$cmd", map[key := Str("c")], map[]))
  {
    var rec := Record("c", "d.$cmd", map[key := Str("c")], map[]);
    assert rec.ns == CommandNs("d");
    assert key in rec.o && rec.o[key].s in ["c"];
  }

  /** With "c" configured in "d", "d.c" matches and "d.other" does not. */
  lemma NamedExamples(op: string, o: map<string, Json>)
    ensures IsWatched("d", ["c"], Record(op, "d.c", o, map[]))
    ensures !IsWatched("d", ["c"], Record(op, "d.other", o, map[]))
  {
    QualifiedWatchedIffNamed("d", ["c"], "c", Record(op, "d.c", o, map[]));
    QualifiedWatchedIffNamed("d", ["c"], "other", Record(op, "d.other", o, map[]));
  }
}
