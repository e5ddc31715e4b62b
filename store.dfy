/**
 * `loadCharacters`: the record list read once from the bundled data file and kept in a
 * module-level variable. Both routes have their own copy of this memo; each is one
 * `CharacterStore` object. Reading and parsing the file is an input: `ReadOutcome`.
 */
module Store {
  import opened Wrappers
  import opened Types

  /** What reading and parsing the data file yields when the memo asks for it. */
  datatype ReadOutcome = Parsed(records: seq<Character>) | ReadFailed

  const LoadFailure := "Failed to load characters data"

  class CharacterStore {
    /** `charactersCache`: `null` until the first successful load. */
    var cache: Option<seq<Character>>

    constructor ()
      ensures cache == None
    {
      cache := None;
    }

    /** A set cache is returned as it is and the file is not consulted; otherwise a
        successful read fills the cache and a failed one throws and leaves it empty. */
    method Load(read: ReadOutcome) returns (r: Result<seq<Character>, string>)
      modifies this
      ensures old(cache).Some? ==> r == Ok(old(cache).value) && cache == old(cache)
      ensures old(cache).None? && read.ReadFailed? ==> r == Err(LoadFailure) && cache == None
      ensures old(cache).None? && read.Parsed? ==> r == Ok(read.records) && cache == Some(read.records)
    {
      if cache.Some? {
        return Ok(cache.value);
      }
      match read
      case Parsed(records) =>
        cache := Some(records);
        r := Ok(records);
      case ReadFailed =>
        r := Err(LoadFailure);
    }
  }

  /** Two requests in a row: once the first has filled the cache, the second gets the
      same records whatever the file would now give. */
  method LoadTwice(store: CharacterStore, first: ReadOutcome, second: ReadOutcome)
    returns (a: Result<seq<Character>, string>, b: Result<seq<Character>, string>)
    modifies store
    ensures a.Ok? ==> b == a
    ensures old(store.cache).None? && first.ReadFailed? ==> a.Err? && (b.Ok? <==> second.Parsed?)
  {
    a := store.Load(first);
    b := store.Load(second);
  }
}
