/**
 * The client's fetchers: the characters query string, the query keys, and how each
 * outcome of a request becomes a result or an `APIError`.
 */
module Api {
  import opened Wrappers
  import opened Strings
  import opened JsNumbers
  import opened Types
  import opened UrlParams
  import opened ErrorHandling

  /** One element of a query key: a tag or a request's parameters. */
  datatype KeyPart = Tag(name: string) | Params(params: ApiParams)

  /** `queryKeys.characters(params)` */
  function CharactersKey(params: ApiParams): seq<KeyPart>
  {
    [Tag("characters"), Params(params)]
  }

  /** `queryKeys.filterOptions()` */
  function FilterOptionsKey(): seq<KeyPart>
  {
    [Tag("filter-options")]
  }

  /** Two characters requests share a key exactly when their parameters are equal, and
      no characters key is the filter-options key. */
  lemma KeysIdentify(p: ApiParams, q: ApiParams)
    ensures CharactersKey(p) == CharactersKey(q) <==> p == q
    ensures CharactersKey(p) != FilterOptionsKey()
  {
    if CharactersKey(p) == CharactersKey(q) {
      assert CharactersKey(p)[1] == CharactersKey(q)[1];
    }
  }

  /** An optional text parameter as a truthiness test sees it: an empty string counts
      as absent. */
  function NonEmpty(value: Option<string>): Option<string>
  {
    if value.Some? && value.value != "" then value else None
  }

  /** A pair for an optional text parameter: present only when defined and non-empty. */
  function TextPair(key: string, value: Option<string>): Query
  {
    if NonEmpty(value).Some? then [(key, value.value)] else []
  }

  /** The pairs `fetchCharacters` puts in the query string, in order: `page` and `limit`
      always, `name`, `location` and `health` when non-empty, `power` when defined. */
  function CharactersQuery(params: ApiParams): Query
  {
    var f := params.filters;
    [("page", IntToString(params.page)), ("limit", IntToString(params.limit))]
      + TextPair("name", f.name) + TextPair("location", f.location) + TextPair("health", f.health)
      + PowerPair(f.power)
  }

  /** Setting a name that is not there yet appends the pair. */
  lemma SetAbsent(q: Query, key: string, value: string)
    requires forall i :: 0 <= i < |q| ==> q[i].0 != key
    ensures SetParam(q, key, value) == q + [(key, value)]
  {
    HasKeyIndex(q, key);
  }

  /** The query-string building of `fetchCharacters`: successive `set` calls on a fresh
      `URLSearchParams`. */
  method BuildCharactersQuery(params: ApiParams) returns (search: SearchParams)
    ensures fresh(search)
    ensures search.pairs == CharactersQuery(params)
  {
    var f := params.filters;
    search := new SearchParams();
    SetAbsent([], "page", IntToString(params.page));
    search.Set("page", IntToString(params.page));
    SetAbsent(search.pairs, "limit", IntToString(params.limit));
    search.Set("limit", IntToString(params.limit));
    ghost var built: Query := [("page", IntToString(params.page)), ("limit", IntToString(params.limit))];
    assert search.pairs == built;
    var names := ["page", "limit"];
    SetText(search, "name", f.name, names);
    built := built + TextPair("name", f.name);
    SetText(search, "location", f.location, names + ["name"]);
    built := built + TextPair("location", f.location);
    SetText(search, "health", f.health, names + ["name"] + ["location"]);
    built := built + TextPair("health", f.health);
    assert search.pairs == built;
    if f.power.Some? {
      SetTextAbsent(search.pairs, "power", IntToString(f.power.value), names + ["name"] + ["location"] + ["health"]);
      search.Set("power", IntToString(f.power.value));
    }
    assert search.pairs == built + PowerPair(f.power);
  }

  /** `if (value) { search.set(key, value) }` for a name not set before. */
  method SetText(search: SearchParams, key: string, value: Option<string>, earlier: seq<string>)
    requires forall i :: 0 <= i < |search.pairs| ==> search.pairs[i].0 in earlier
    requires key !in earlier
    modifies search
    ensures search.pairs == old(search.pairs) + TextPair(key, value)
    ensures forall i :: 0 <= i < |search.pairs| ==> search.pairs[i].0 in earlier + [key]
  {
    if NonEmpty(value).Some? {
      SetTextAbsent(search.pairs, key, value.value, earlier);
      search.Set(key, value.value);
    }
  }

  /** Setting a name that differs from every name set before appends the pair. */
  lemma SetTextAbsent(q: Query, key: string, value: string, earlier: seq<string>)
    requires forall i :: 0 <= i < |q| ==> q[i].0 in earlier
    requires key !in earlier
    ensures SetParam(q, key, value) == q + [(key, value)]
  {
    SetAbsent(q, key, value);
  }

  /** Pairs appended after the first pair of a name do not change what `get` finds. */
  lemma GetAfter(q: Query, extra: Query, key: string)
    requires forall i :: 0 <= i < |extra| ==> extra[i].0 != key
    ensures Get(q + extra, key) == Get(q, key)
  {
    GetConcat(q, extra, key);
    HasKeyIndex(extra, key);
  }

  /** The first pair of a name is the one `get` finds. */
  lemma GetFirst(q: Query, key: string, value: Option<string>)
    requires forall i :: 0 <= i < |q| ==> q[i].0 != key
    ensures Get(q + TextPair(key, value), key) == NonEmpty(value)
  {
    GetConcat(q, TextPair(key, value), key);
    HasKeyIndex(q, key);
  }

  lemma {:induction false} GetConcat(a: Query, b: Query, key: string)
    ensures Get(a + b, key) == if HasKey(a, key) then Get(a, key) else Get(b, key)
  {
    if a != [] {
      GetConcat(a[1..], b, key);
      assert (a + b)[1..] == a[1..] + b;
    } else {
      assert a + b == b;
    }
  }

  function PowerPair(power: Option<int>): Query
  {
    if power.Some? then [("power", IntToString(power.value))] else []
  }

  /** What the route reads back with `get`: `page` and `limit` always, each text
      parameter exactly when it is non-empty, `power` exactly when it is defined. */
  lemma QueryValues(params: ApiParams)
    ensures var q := CharactersQuery(params);
      var f := params.filters;
      && Get(q, "page") == Some(IntToString(params.page))
      && Get(q, "limit") == Some(IntToString(params.limit))
      && Get(q, "name") == NonEmpty(f.name)
      && Get(q, "location") == NonEmpty(f.location)
      && Get(q, "health") == NonEmpty(f.health)
      && Get(q, "power") == (if f.power.Some? then Some(IntToString(f.power.value)) else None)
  {
    CursorValues(params);
    NameValue(params);
    LocationValue(params);
    HealthValue(params);
    PowerValue(params);
  }

  lemma CursorValues(params: ApiParams)
    ensures Get(CharactersQuery(params), "page") == Some(IntToString(params.page))
    ensures Get(CharactersQuery(params), "limit") == Some(IntToString(params.limit))
  {
    var f := params.filters;
    var head: Query := [("page", IntToString(params.page)), ("limit", IntToString(params.limit))];
    var rest := TextPair("name", f.name) + TextPair("location", f.location) + TextPair("health", f.health) + PowerPair(f.power);
    assert CharactersQuery(params) == head + rest;
    GetAfter(head, rest, "page");
    GetAfter(head, rest, "limit");
  }

  lemma NameValue(params: ApiParams)
    ensures Get(CharactersQuery(params), "name") == NonEmpty(params.filters.name)
  {
    var f := params.filters;
    var head: Query := [("page", IntToString(params.page)), ("limit", IntToString(params.limit))];
    var rest := TextPair("location", f.location) + TextPair("health", f.health) + PowerPair(f.power);
    assert CharactersQuery(params) == head + TextPair("name", f.name) + rest;
    GetAfter(head + TextPair("name", f.name), rest, "name");
    GetFirst(head, "name", f.name);
  }

  lemma LocationValue(params: ApiParams)
    ensures Get(CharactersQuery(params), "location") == NonEmpty(params.filters.location)
  {
    var f := params.filters;
    var before: Query := [("page", IntToString(params.page)), ("limit", IntToString(params.limit))] + TextPair("name", f.name);
    var rest := TextPair("health", f.health) + PowerPair(f.power);
    assert CharactersQuery(params) == before + TextPair("location", f.location) + rest;
    GetAfter(before + TextPair("location", f.location), rest, "location");
    GetFirst(before, "location", f.location);
  }

  lemma HealthValue(params: ApiParams)
    ensures Get(CharactersQuery(params), "health") == NonEmpty(params.filters.health)
  {
    var f := params.filters;
    var before: Query := [("page", IntToString(params.page)), ("limit", IntToString(params.limit))]
      + TextPair("name", f.name) + TextPair("location", f.location);
    assert CharactersQuery(params) == before + TextPair("health", f.health) + PowerPair(f.power);
    GetAfter(before + TextPair("health", f.health), PowerPair(f.power), "health");
    GetFirst(before, "health", f.health);
  }

  lemma PowerValue(params: ApiParams)
    ensures Get(CharactersQuery(params), "power") == (if params.filters.power.Some? then Some(IntToString(params.filters.power.value)) else None)
  {
    var f := params.filters;
    var before: Query := [("page", IntToString(params.page)), ("limit", IntToString(params.limit))]
      + TextPair("name", f.name) + TextPair("location", f.location) + TextPair("health", f.health);
    assert CharactersQuery(params) == before + PowerPair(f.power);
    GetConcat(before, PowerPair(f.power), "power");
    HasKeyIndex(before, "power");
  }

  /** How one `fetch` ends: a response (its status, its status text, and what
      `response.json()` yields or throws), or a rejection with a thrown value. */
  datatype HttpOutcome<T> =
    | Responded(status: int, statusText: string, body: Result<T, Thrown>)
    | Rejected(error: Thrown)

  /** `response.ok`: a status in 200..299. */
  predicate IsOk(status: int)
  {
    200 <= status <= 299
  }

  const TimeoutMessage := "Request timeout: The server took too long to respond"
  const NetworkMessage := "Network error: Please check your internet connection"
  const UnexpectedCharacters := "An unexpected error occurred while fetching characters"
  const UnexpectedOptions := "An unexpected error occurred while fetching filter options"

  /** The inner `try` of `fetchCharacters`: the parsed body, or what it throws, including
      the `APIError` for a response that is not OK. */
  function CharactersAttempt(outcome: HttpOutcome<PageResponse>): Result<PageResponse, Thrown>
  {
    match outcome
    case Responded(status, statusText, body) =>
      if !IsOk(status) then
        Err(Api(APIError("Failed to fetch characters: " + statusText, Some(status), Some(statusText))))
      else body
    case Rejected(e) => Err(e)
  }

  /** The inner `catch`: an abort (the 10 second timer) becomes the timeout `APIError`,
      anything else is thrown on. */
  function InnerCatch(e: Thrown): Thrown
  {
    if ErrorName(e) == Some("AbortError") then Api(APIError(TimeoutMessage, None, None)) else e
  }

  /** The outer `catch` of `fetchCharacters`. */
  function CharactersCatch(e: Thrown): APIError
  {
    match e
    case Api(a) => a
    case Failure(_, message, isTypeError) =>
      if isTypeError && Contains(message, "fetch") then APIError(NetworkMessage, None, None)
      else APIError(UnexpectedCharacters, None, None)
    case NotAnError => APIError(UnexpectedCharacters, None, None)
  }

  /** `fetchCharacters`: the page, or the `APIError` it rejects with. */
  function FetchCharacters(outcome: HttpOutcome<PageResponse>): Result<PageResponse, APIError>
  {
    match CharactersAttempt(outcome)
    case Ok(page) => Ok(page)
    case Err(e) => Err(CharactersCatch(InnerCatch(e)))
  }

  /** `fetch` and `response.json()` reject with platform errors, never with an `APIError`. */
  predicate PlatformFailures<T>(outcome: HttpOutcome<T>)
  {
    match outcome
    case Responded(_, _, body) => body.Err? ==> !body.error.Api?
    case Rejected(e) => !e.Api?
  }

  /** Every way `fetchCharacters` can end: the page for an OK response whose body parses;
      a status-carrying `APIError` for a response that is not OK; the timeout error for an
      abort; the network error for a `TypeError` about `fetch`; the generic error for
      anything else. Only the not-OK case carries a status. */
  lemma FetchCharactersOutcomes(outcome: HttpOutcome<PageResponse>)
    requires PlatformFailures(outcome)
    ensures var r := FetchCharacters(outcome);
      && (r.Ok? <==> outcome.Responded? && IsOk(outcome.status) && outcome.body.Ok?)
      && (r.Ok? ==> r.value == outcome.body.value)
      && (outcome.Responded? && !IsOk(outcome.status) ==>
            r == Err(APIError("Failed to fetch characters: " + outcome.statusText,
                              Some(outcome.status), Some(outcome.statusText))))
      && (r.Err? && r.error.status.Some? <==> outcome.Responded? && !IsOk(outcome.status))
      && (r.Err? && !(outcome.Responded? && !IsOk(outcome.status)) ==>
            r.error.message in {TimeoutMessage, NetworkMessage, UnexpectedCharacters})
      && (var a := CharactersAttempt(outcome);
          a.Err? && ErrorName(a.error) == Some("AbortError") ==> r == Err(APIError(TimeoutMessage, None, None)))
      && (var a := CharactersAttempt(outcome);
          a.Err? && !a.error.Api? && ErrorName(a.error) != Some("AbortError") ==>
            r == Err(APIError(if IsNetworkError(a.error) then NetworkMessage else UnexpectedCharacters, None, None)))
  {
  }

  /** An abort, whenever it happens, ends in the timeout error without a status. */
  lemma AbortIsTimeout(outcome: HttpOutcome<PageResponse>)
    requires outcome.Rejected? && ErrorName(outcome.error) == Some("AbortError")
    ensures FetchCharacters(outcome) == Err(APIError(TimeoutMessage, None, None))
  {
  }

  /** `fetchFilterOptions`: the body of an OK response, the status-carrying `APIError` for
      any other response, and the generic error for every other failure. */
  function FetchFilterOptions<T>(outcome: HttpOutcome<T>): Result<T, APIError>
  {
    var attempt: Result<T, Thrown> :=
      match outcome
      case Responded(status, statusText, body) =>
        if !IsOk(status) then
          Err(Api(APIError("Failed to fetch filter options: " + statusText, Some(status), Some(statusText))))
        else body
      case Rejected(e) => Err(e);
    match attempt
    case Ok(options) => Ok(options)
    case Err(Api(a)) => Err(a)
    case Err(_) => Err(APIError(UnexpectedOptions, None, None))
  }

  lemma FetchFilterOptionsOutcomes<T>(outcome: HttpOutcome<T>)
    requires PlatformFailures(outcome)
    ensures var r := FetchFilterOptions(outcome);
      && (r.Ok? <==> outcome.Responded? && IsOk(outcome.status) && outcome.body.Ok?)
      && (r.Ok? ==> r.value == outcome.body.value)
      && (outcome.Responded? && !IsOk(outcome.status) ==>
            r == Err(APIError("Failed to fetch filter options: " + outcome.statusText,
                              Some(outcome.status), Some(outcome.statusText))))
      && (r.Err? && !(outcome.Responded? && !IsOk(outcome.status)) ==>
            r.error == APIError(UnexpectedOptions, None, None))
  {
  }
}
