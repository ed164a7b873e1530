/**
 * The configuration the tail is built from, its validation and the
 * normalisation of a comma-delimited `collections` string into a list.
 */
module WatchConfig {
  import opened Wrappers
  import Text

  /**
   * The `collections` field as a JavaScript value: `Unset` for a missing or
   * falsy non-string value, `Delimited` for a string (the empty string being
   * falsy), `Listed` for an array (always truthy, even when empty) and
   * `Unlisted` for any other truthy value.
   */
  datatype CollectionsField = Unset | Delimited(text: string) | Listed(names: seq<string>) | Unlisted

  /** The assertion that rejected a configuration. */
  datatype ConfigError =
    | MissingConfig
    | MissingUri
    | MissingDb
    | MissingCollections
    | NotAnArray
    | NoCollection

  /** The assertion message of each rejection. */
  function Message(e: ConfigError): string
  {
    match e
    case MissingConfig => "missing config"
    case MissingUri => "missing uri"
    case MissingDb => "missing db"
    case MissingCollections => "missing collections"
    case NotAnArray => "collections must be an Array"
    case NoCollection => "must be at least 1 collection."
  }

  /** Each rejection carries its own message: no two share one. */
  lemma MessagesDistinct(a: ConfigError, b: ConfigError)
    ensures Message(a) == Message(b) ==> a == b
  {
  }

  /** The entry that means "every collection of the database". */
  const Wildcard: string := "*"

  /** The separator of a delimited `collections` string. */
  const Comma: char := ','

  /** A string field is truthy when it is present and not empty. */
  predicate Present(v: Option<string>)
  {
    v.Some? && v.value != ""
  }

  predicate Truthy(c: CollectionsField)
  {
    match c
    case Unset => false
    case Delimited(text) => text != ""
    case Listed(_) => true
    case Unlisted => true
  }

  /** A string is replaced by its comma-separated entries; any other value is kept. */
  function Normalize(c: CollectionsField): (r: CollectionsField)
    ensures c.Delimited? ==> r.Listed? && Text.Join(r.names, Comma) == c.text && |r.names| == Text.Occurrences(c.text, Comma) + 1
    ensures !c.Delimited? ==> r == c
  {
    if c.Delimited? then
      Text.JoinSplit(c.text, Comma);
      Text.SplitCount(c.text, Comma);
      Listed(Text.Split(c.text, Comma))
    else c
  }

  /**
   * The outcome of validating a present configuration object: the first
   * failing assertion, or the normalised list of collection names.
   */
  function Check(uri: Option<string>, db: Option<string>, collections: CollectionsField): (r: Result<seq<string>, ConfigError>)
    ensures r.Success? <==>
      Present(uri) && Present(db) &&
      ((collections.Delimited? && collections.text != "") || (collections.Listed? && collections.names != []))
    ensures r.Success? ==> r.value != []
    ensures r.Success? && collections.Delimited? ==> r.value == Text.Split(collections.text, Comma)
    ensures r.Success? && collections.Delimited? ==> Text.Join(r.value, Comma) == collections.text
    ensures r.Success? && collections.Delimited? ==> |r.value| == Text.Occurrences(collections.text, Comma) + 1
    ensures r.Success? && collections.Listed? ==> r.value == collections.names
    ensures !Present(uri) ==> r == Failure(MissingUri)
    ensures Present(uri) && !Present(db) ==> r == Failure(MissingDb)
    ensures Present(uri) && Present(db) && (collections.Unset? || collections == Delimited("")) ==>
      r == Failure(MissingCollections)
    ensures Present(uri) && Present(db) && collections.Unlisted? ==> r == Failure(NotAnArray)
    ensures Present(uri) && Present(db) && collections == Listed([]) ==> r == Failure(NoCollection)
  {
    if !Present(uri) then Failure(MissingUri)
    else if !Present(db) then Failure(MissingDb)
    else if !Truthy(collections) then Failure(MissingCollections)
    else
      match Normalize(collections)
      case Listed(names) => if |names| > 0 then Success(names) else Failure(NoCollection)
      case _ => Failure(NotAnArray)
  }

  /** True when some entry is the wildcard. */
  function WatchesAll(names: seq<string>): (all: bool)
    ensures all <==> exists i :: 0 <= i < |names| && names[i] == Wildcard
  {
    Wildcard in names
  }

  /** A delimited string with a `*` entry anywhere watches every collection. */
  lemma WildcardEntryWatchesAll(before: seq<string>, after: seq<string>)
    requires forall i :: 0 <= i < |before| ==> Comma !in before[i]
    requires forall i :: 0 <= i < |after| ==> Comma !in after[i]
    ensures WatchesAll(Text.Split(Text.Join(before + [Wildcard] + after, Comma), Comma))
  {
    var parts := before + [Wildcard] + after;
    forall i | 0 <= i < |parts| ensures Comma !in parts[i] {
      if i < |before| {
        assert parts[i] == before[i];
      } else if i == |before| {
        assert parts[i] == Wildcard;
      } else {
        assert parts[i] == after[i - |before| - 1];
      }
    }
    Text.SplitJoin(parts, Comma);
    assert parts[|before|] == Wildcard;
  }

  /** The string "x,*" validates to a list that watches every collection. */
  lemma DelimitedWildcardExample(uri: string, db: string)
    requires uri != "" && db != ""
    ensures Check(Some(uri), Some(db), Delimited("x,*")).Success?
    ensures WatchesAll(Check(Some(uri), Some(db), Delimited("x,*")).value)
  {
    var names := ["x", Wildcard];
    assert Text.Join(names, Comma) == "x,*";
    Text.SplitJoin(names, Comma);
    assert names[1] == Wildcard;
  }

  /** Empty entries are kept: "a,,b" gives three names. */
  lemma EmptyEntriesKept()
    ensures Text.Split("a,,b", Comma) == ["a", "", "b"]
  {
    Text.SplitJoin(["a", "", "b"], Comma);
    assert Text.Join(["a", "", "b"], Comma) == "a,,b";
  }

  /** The configuration object the caller passes in; validation rewrites `collections` in place. */
  class Config {
    var uri: Option<string>
    var db: Option<string>
    var collections: CollectionsField
    var fullDoc: bool

    constructor (uri: Option<string>, db: Option<string>, collections: CollectionsField, fullDoc: bool)
      ensures this.uri == uri && this.db == db && this.collections == collections && this.fullDoc == fullDoc
    {
      this.uri := uri;
      this.db := db;
      this.collections := collections;
      this.fullDoc := fullDoc;
    }
  }

  /**
   * Asserts that the configuration is usable, replacing a delimited
   * `collections` string by its entries, and hands back the same object.
   */
  method Validate(config: Config?) returns (r: Result<Config, ConfigError>)
    modifies config
    ensures config == null ==> r == Failure(MissingConfig)
    ensures config != null ==>
      config.uri == old(config.uri) && config.db == old(config.db) && config.fullDoc == old(config.fullDoc)
    ensures config != null ==>
      match Check(old(config.uri), old(config.db), old(config.collections))
      case Success(names) => r == Success(config) && config.collections == Listed(names)
      case Failure(e) => r == Failure(e) && config.collections == old(config.collections)
  {
    if config == null { return Failure(MissingConfig); }
    if !Present(config.uri) { return Failure(MissingUri); }
    if !Present(config.db) { return Failure(MissingDb); }
    if !Truthy(config.collections) { return Failure(MissingCollections); }
    if config.collections.Delimited? {
      config.collections := Listed(Text.Split(config.collections.text, Comma));
    }
    if !config.collections.Listed? { return Failure(NotAnArray); }
    if |config.collections.names| == 0 { return Failure(NoCollection); }
    return Success(config);
  }
}
