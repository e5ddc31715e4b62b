/**
 * The characters listing route: filter the loaded records by the query string, then
 * cut out one page and describe it with `meta` and `links`.
 */
module ListingRoute {
  import opened Wrappers
  import opened Strings
  import opened JsNumbers
  import opened Seqs
  import opened Types
  import opened UrlParams
  import opened Store

  /** A query parameter's value when it is present and not empty (a truthy `get`). */
  function Truthy(params: Query, key: string): (r: Option<string>)
    ensures r.Some? <==> UrlParams.Get(params, key).Some? && UrlParams.Get(params, key).value != ""
    ensures r.Some? ==> r == UrlParams.Get(params, key)
  {
    match UrlParams.Get(params, key)
    case Some(v) => if v != "" then Some(v) else None
    case None => None
  }

  /** The lower-cased `name` filter, when one is given. */
  function NameQuery(params: Query): Option<string>
  {
    match Truthy(params, "name")
    case Some(n) => Some(ToLower(n))
    case None => None
  }

  /** The `location` or `health` filter: the comma-separated pieces, each trimmed. */
  function ListQuery(params: Query, key: string): Option<seq<string>>
  {
    match Truthy(params, key)
    case Some(v) => Some(TrimmedPieces(v))
    case None => None
  }

  /** `value.split(',').map(s => s.trim())`. */
  function TrimmedPieces(v: string): (r: seq<string>)
    ensures |r| == |Split(v, ',')| >= 1
    ensures forall i :: 0 <= i < |r| ==> r[i] == Trim(Split(v, ',')[i]) && IsTrimmed(r[i])
  {
    var pieces := Split(v, ',');
    seq(|pieces|, i requires 0 <= i < |pieces| => Trim(pieces[i]))
  }

  /** The `power` bound, when one is given and `parseInt` reads a number from it. */
  function PowerQuery(params: Query): Option<int>
  {
    match Truthy(params, "power")
    case Some(v) => (match ParseInt(v) case Num(n) => Some(n) case NaN => None)
    case None => None
  }

  predicate NamePasses(c: Character, params: Query)
  {
    NameQuery(params).Some? ==> Contains(ToLower(c.name), NameQuery(params).value)
  }

  predicate LocationPasses(c: Character, params: Query)
  {
    ListQuery(params, "location").Some? ==> c.location in ListQuery(params, "location").value
  }

  predicate HealthPasses(c: Character, params: Query)
  {
    ListQuery(params, "health").Some? ==> HealthText(c.health) in ListQuery(params, "health").value
  }

  predicate PowerPasses(c: Character, params: Query)
  {
    PowerQuery(params).Some? ==> c.power <= PowerQuery(params).value
  }

  /** A record meets every criterion the query string gives; an absent one imposes nothing. */
  predicate Matches(c: Character, params: Query)
  {
    NamePasses(c, params) && LocationPasses(c, params) && HealthPasses(c, params) && PowerPasses(c, params)
  }

  /** The four criteria as tests on one record. */
  function NameTest(params: Query): Character -> bool { c => NamePasses(c, params) }
  function LocationTest(params: Query): Character -> bool { c => LocationPasses(c, params) }
  function HealthTest(params: Query): Character -> bool { c => HealthPasses(c, params) }
  function PowerTest(params: Query): Character -> bool { c => PowerPasses(c, params) }

  /** `filterCharacters`: one filter pass per criterion that is given, in the order name,
      location, health, power. */
  function FilterCharacters(characters: seq<Character>, params: Query): seq<Character>
  {
    var byName :=
      if NameQuery(params).Some? then Keep(characters, NameTest(params)) else characters;
    var byLocation :=
      if ListQuery(params, "location").Some? then Keep(byName, LocationTest(params)) else byName;
    var byHealth :=
      if ListQuery(params, "health").Some? then Keep(byLocation, HealthTest(params)) else byLocation;
    if PowerQuery(params).Some? then Keep(byHealth, PowerTest(params)) else byHealth
  }

  /** A pass that is skipped keeps everything, so it is the same as filtering by its test. */
  lemma SkippedPass(s: seq<Character>, p: Character -> bool, given: bool)
    requires !given ==> forall c :: p(c)
    ensures (if given then Keep(s, p) else s) == Keep(s, p)
  {
    if !given {
      KeepAll(s, p);
    }
  }

  /** Each pass, given or skipped, is the same as filtering by its test. */
  lemma FilterStages(characters: seq<Character>, params: Query)
    ensures FilterCharacters(characters, params)
      == Keep(Keep(Keep(Keep(characters, NameTest(params)), LocationTest(params)), HealthTest(params)), PowerTest(params))
  {
    var s1 := Keep(characters, NameTest(params));
    var s2 := Keep(s1, LocationTest(params));
    var s3 := Keep(s2, HealthTest(params));
    SkippedPass(characters, NameTest(params), NameQuery(params).Some?);
    SkippedPass(s1, LocationTest(params), ListQuery(params, "location").Some?);
    SkippedPass(s2, HealthTest(params), ListQuery(params, "health").Some?);
    SkippedPass(s3, PowerTest(params), PowerQuery(params).Some?);
  }

  /** The successive passes keep exactly the records meeting all criteria (AND), in order. */
  lemma FilterIsConjunction(characters: seq<Character>, params: Query)
    ensures FilterCharacters(characters, params) == Keep(characters, c => Matches(c, params))
  {
    var p1, p2, p3, p4 := NameTest(params), LocationTest(params), HealthTest(params), PowerTest(params);
    FilterStages(characters, params);
    var q2 := c => NamePasses(c, params) && LocationPasses(c, params);
    KeepConjunction(characters, p1, p2, q2);
    var q3 := c => q2(c) && HealthPasses(c, params);
    KeepConjunction(characters, q2, p3, q3);
    KeepConjunction(characters, q3, p4, c => Matches(c, params));
  }

  /** A record is in the result iff it is in the input and meets every given criterion. */
  lemma FilterMembership(characters: seq<Character>, params: Query, c: Character)
    ensures c in FilterCharacters(characters, params) <==> c in characters && Matches(c, params)
  {
    FilterIsConjunction(characters, params);
  }

  /** The result keeps the input order, and filtering it again changes nothing. */
  lemma FilterOrderAndIdempotence(characters: seq<Character>, params: Query)
    ensures IsSubsequence(FilterCharacters(characters, params), characters)
    ensures FilterCharacters(FilterCharacters(characters, params), params) == FilterCharacters(characters, params)
  {
    var p := c => Matches(c, params);
    FilterIsConjunction(characters, params);
    assert FilterCharacters(characters, params) == Keep(characters, p);
    FilterIsConjunction(Keep(characters, p), params);
    KeepIsSubsequence(characters, p);
    KeepIdempotent(characters, p);
  }

  /** The name criterion is case-insensitive substring search; an absent or empty `name`
      keeps every record. */
  lemma NameCriterion(c: Character, params: Query)
    ensures Truthy(params, "name").None? ==> NamePasses(c, params)
    ensures Truthy(params, "name").Some? ==>
      (NamePasses(c, params) <==> exists i :: OccursAt(ToLower(c.name), ToLower(Truthy(params, "name").value), i))
  {
    if Truthy(params, "name").Some? {
      ContainsIff(ToLower(c.name), ToLower(Truthy(params, "name").value));
    }
  }

  /** The location criterion: absent or empty imposes nothing, otherwise the record's
      location must equal one of the trimmed comma-separated pieces. */
  lemma LocationCriterion(c: Character, params: Query)
    ensures Truthy(params, "location").None? ==> LocationPasses(c, params)
    ensures Truthy(params, "location").Some? ==>
      var pieces := Split(Truthy(params, "location").value, ',');
      (LocationPasses(c, params) <==> exists i :: 0 <= i < |pieces| && Trim(pieces[i]) == c.location)
  {
    if Truthy(params, "location").Some? {
      PieceMembership(Truthy(params, "location").value, c.location);
    }
  }

  lemma PieceMembership(v: string, x: string)
    ensures x in TrimmedPieces(v) <==> exists i :: 0 <= i < |Split(v, ',')| && Trim(Split(v, ',')[i]) == x
  {
    var trimmed := TrimmedPieces(v);
    if x in trimmed {
      var i :| 0 <= i < |trimmed| && trimmed[i] == x;
      assert Trim(Split(v, ',')[i]) == x;
    } else {
      forall i | 0 <= i < |Split(v, ',')|
        ensures Trim(Split(v, ',')[i]) != x
      {
        assert trimmed[i] in trimmed;
      }
    }
  }

  /** The power criterion is an inclusive upper bound when the value parses, and
      imposes nothing when it does not. */
  lemma PowerCriterion(c: Character, params: Query)
    ensures Truthy(params, "power").Some? && ParseInt(Truthy(params, "power").value).Num? ==>
      (PowerPasses(c, params) <==> c.power <= ParseInt(Truthy(params, "power").value).n)
    ensures Truthy(params, "power").None? || ParseInt(Truthy(params, "power").value).NaN? ==>
      PowerPasses(c, params)
  {
  }

  /** Without any criterion the listing holds every record. */
  lemma NoCriteriaKeepsAll(characters: seq<Character>, params: Query)
    requires Truthy(params, "name").None? && Truthy(params, "location").None?
    requires Truthy(params, "health").None? && Truthy(params, "power").None?
    ensures FilterCharacters(characters, params) == characters
  {
  }

  /** The filter reads only the four criteria parameters: two query strings that agree
      on them (and differ, say, in `page` or `limit`) select the same records. */
  lemma FilterReadsCriteriaOnly(characters: seq<Character>, p: Query, q: Query)
    requires UrlParams.Get(p, "name") == UrlParams.Get(q, "name")
    requires UrlParams.Get(p, "location") == UrlParams.Get(q, "location")
    requires UrlParams.Get(p, "health") == UrlParams.Get(q, "health")
    requires UrlParams.Get(p, "power") == UrlParams.Get(q, "power")
    ensures FilterCharacters(characters, p) == FilterCharacters(characters, q)
  {
    SameCriteria(p, q);
    FilterIsConjunction(characters, p);
    FilterIsConjunction(characters, q);
    KeepAgree(characters, c => Matches(c, p), c => Matches(c, q));
  }

  lemma SameCriteria(p: Query, q: Query)
    requires UrlParams.Get(p, "name") == UrlParams.Get(q, "name")
    requires UrlParams.Get(p, "location") == UrlParams.Get(q, "location")
    requires UrlParams.Get(p, "health") == UrlParams.Get(q, "health")
    requires UrlParams.Get(p, "power") == UrlParams.Get(q, "power")
    ensures forall c :: Matches(c, p) == Matches(c, q)
  {
    assert NameQuery(p) == NameQuery(q);
    assert ListQuery(p, "location") == ListQuery(q, "location");
    assert ListQuery(p, "health") == ListQuery(q, "health");
    assert PowerQuery(p) == PowerQuery(q);
    forall c ensures Matches(c, p) == Matches(c, q) {
      assert NamePasses(c, p) == NamePasses(c, q);
      assert LocationPasses(c, p) == LocationPasses(c, q);
      assert HealthPasses(c, p) == HealthPasses(c, q);
      assert PowerPasses(c, p) == PowerPasses(c, q);
    }
  }

  /** `Math.ceil(n / d)` for a count `n` and a positive divisor `d`. */
  function CeilDiv(n: nat, d: nat): (r: nat)
    requires d >= 1
    ensures r * d >= n
    ensures r == 0 || (r - 1) * d < n
    ensures r == 0 <==> n == 0
  {
    if n == 0 then 0 else
      var r := (n + d - 1) / d;
      assert r * d + (n + d - 1) % d == n + d - 1;
      r
  }

  /** An index argument of `slice`: negative counts from the end, and the result is
      clipped to `[0, len]`. */
  function SliceIndex(i: int, len: nat): (r: nat)
    ensures r <= len
    ensures 0 <= i <= len ==> r == i
    ensures i < 0 && len + i >= 0 ==> r == len + i
    ensures len + i < 0 ==> r == 0
    ensures i > len ==> r == len
  {
    if i < 0 then (if len + i < 0 then 0 else len + i)
    else if i > len then len
    else i
  }

  /** `s.slice(start, end)`. */
  function Slice<T>(s: seq<T>, start: int, end: int): seq<T>
  {
    var a := SliceIndex(start, |s|);
    var b := SliceIndex(end, |s|);
    if a < b then s[a..b] else []
  }

  function Min(a: int, b: int): int
  {
    if a < b then a else b
  }

  /** The link to one page of the listing. */
  function PageLink(page: int, limit: int): string
  {
    "/api/characters?page=" + IntToString(page) + "&limit=" + IntToString(limit)
  }

  /** The response body `GET` builds from the filtered list, the page number and the
      page size. */
  function Paginate(filtered: seq<Character>, page: int, limit: int): PageResponse
    requires limit >= 1
  {
    var totalItems := |filtered|;
    var totalPages := CeilDiv(totalItems, limit);
    var startIndex := (page - 1) * limit;
    var endIndex := startIndex + limit;
    var items := Slice(filtered, startIndex, endIndex);
    PageResponse(
      items,
      Meta(totalItems, |items|, limit, totalPages, page),
      Links(
        PageLink(1, limit),
        if page > 1 then PageLink(page - 1, limit) else "",
        if page < totalPages then PageLink(page + 1, limit) else "",
        PageLink(totalPages, limit)))
  }

  /** `totalItems` counts the filtered records and `totalPages` is the ceiling of
      `totalItems / limit`, zero exactly when nothing matched. */
  lemma PageCounts(filtered: seq<Character>, page: int, limit: int)
    requires limit >= 1
    ensures var m := Paginate(filtered, page, limit).meta;
      && m.totalItems == |filtered|
      && m.itemsPerPage == limit
      && m.currentPage == page
      && m.totalPages * limit >= |filtered|
      && (m.totalPages == 0 || (m.totalPages - 1) * limit < |filtered|)
      && (m.totalPages == 0 <==> |filtered| == 0)
  {
  }

  /** For a page number from 1 on, `items` is the window `[(page-1)*limit, page*limit)` of
      the filtered list, clipped to its end: at most `limit` records, exactly `limit`
      before the last page, none past it. */
  lemma PageWindow(filtered: seq<Character>, page: int, limit: int)
    requires page >= 1 && limit >= 1
    ensures var r := Paginate(filtered, page, limit);
      var n := |filtered|;
      && 0 <= (page - 1) * limit <= page * limit
      && r.items == filtered[Min((page - 1) * limit, n)..Min(page * limit, n)]
      && r.meta.itemCount == |r.items| <= limit
      && (page < r.meta.totalPages ==> |r.items| == limit)
      && (page > r.meta.totalPages ==> r.items == [])
  {
    var n := |filtered|;
    var t := CeilDiv(n, limit);
    var start := (page - 1) * limit;
    var r := Paginate(filtered, page, limit);
    assert r.items == Slice(filtered, start, start + limit);
    assert r.meta.totalPages == t;
    MultiplyMonotone(0, page - 1, limit);
    NextPageStart(page, limit);
    SliceFrom(filtered, start, start + limit);
    assert r.items == filtered[Min(start, n)..Min(start + limit, n)];
    if page > t {
      MultiplyMonotone(t, page - 1, limit);
      assert start >= n;
    }
    if page < t {
      MultiplyMonotone(page, t - 1, limit);
      assert start + limit <= n;
    }
  }

  lemma NextPageStart(page: int, limit: int)
    ensures page * limit == (page - 1) * limit + limit
  {
  }

  lemma MultiplyMonotone(a: int, b: int, k: nat)
    requires a <= b
    ensures a * k <= b * k
  {
  }

  /** `slice` with a non-negative window clips it to the end of the sequence. */
  lemma SliceFrom<T>(s: seq<T>, a: int, b: int)
    requires 0 <= a <= b
    ensures Slice(s, a, b) == s[Min(a, |s|)..Min(b, |s|)]
    ensures |Slice(s, a, b)| <= b - a
    ensures b <= |s| ==> |Slice(s, a, b)| == b - a
    ensures a >= |s| ==> Slice(s, a, b) == []
  {
  }

  /** `previous` is empty exactly on the first page (or before it) and `next` exactly on
      the last page or after; `first` and `last` always name page 1 and `totalPages`,
      and every link carries the page size. */
  lemma PageLinks(filtered: seq<Character>, page: int, limit: int)
    requires limit >= 1
    ensures var r := Paginate(filtered, page, limit);
      && (r.links.previous == "" <==> page <= 1)
      && (r.links.next == "" <==> page >= r.meta.totalPages)
      && r.links.first == PageLink(1, limit)
      && r.links.last == PageLink(r.meta.totalPages, limit)
      && (page > 1 ==> r.links.previous == PageLink(page - 1, limit))
      && (page < r.meta.totalPages ==> r.links.next == PageLink(page + 1, limit))
  {
  }

  /** Following `next` and then `previous` leads back to the page one started from. */
  lemma NextThenPrevious(filtered: seq<Character>, page: int, limit: int)
    requires page >= 1 && limit >= 1
    requires page < Paginate(filtered, page, limit).meta.totalPages
    ensures Paginate(filtered, page, limit).links.next == PageLink(page + 1, limit)
    ensures Paginate(filtered, page + 1, limit).links.previous == PageLink(page, limit)
  {
  }

  /** The items of pages `page..last`, one sequence per page. */
  function PageItems(filtered: seq<Character>, limit: int, page: int, last: int): seq<seq<Character>>
    requires limit >= 1
    decreases last - page
  {
    if page > last then [] else [Paginate(filtered, page, limit).items] + PageItems(filtered, limit, page + 1, last)
  }

  lemma {:induction false} PageItemsSuffix(filtered: seq<Character>, limit: int, page: int)
    requires limit >= 1 && 1 <= page <= CeilDiv(|filtered|, limit) + 1
    ensures 0 <= (page - 1) * limit
    ensures Flatten(PageItems(filtered, limit, page, CeilDiv(|filtered|, limit)))
      == filtered[Min((page - 1) * limit, |filtered|)..]
    decreases CeilDiv(|filtered|, limit) + 1 - page
  {
    var n := |filtered|;
    var t := CeilDiv(n, limit);
    MultiplyMonotone(0, page - 1, limit);
    if page == t + 1 {
      MultiplyMonotone(t, page - 1, limit);
    } else {
      PageItemsSuffix(filtered, limit, page + 1);
      PageWindow(filtered, page, limit);
      NextPageStart(page, limit);
      FlattenCons(Paginate(filtered, page, limit).items, PageItems(filtered, limit, page + 1, t));
      SliceSplit(filtered, Min((page - 1) * limit, n), Min(page * limit, n));
    }
  }

  lemma FlattenCons(here: seq<Character>, rest: seq<seq<Character>>)
    ensures Flatten([here] + rest) == here + Flatten(rest)
  {
    assert ([here] + rest)[1..] == rest;
  }

  lemma SliceSplit(s: seq<Character>, a: int, b: int)
    requires 0 <= a <= b <= |s|
    ensures s[a..b] + s[b..] == s[a..]
  {
  }

  /** Pages 1..totalPages, concatenated, give back the filtered list, so their item
      counts add up to `totalItems`. */
  lemma PagesCoverFiltered(filtered: seq<Character>, limit: int)
    requires limit >= 1
    ensures var pages := PageItems(filtered, limit, 1, CeilDiv(|filtered|, limit));
      Flatten(pages) == filtered && SumLengths(pages) == |filtered|
  {
    PageItemsSuffix(filtered, limit, 1);
    FlattenLength(PageItems(filtered, limit, 1, CeilDiv(|filtered|, limit)));
  }

  /** The query value `GET` hands to `parseInt` for a cursor parameter: the value, or the
      default when the parameter is absent or empty. */
  function CursorText(params: Query, key: string, default: string): string
  {
    match Truthy(params, key)
    case Some(v) => v
    case None => default
  }

  function PageParam(params: Query): Number
  {
    ParseInt(CursorText(params, "page", "1"))
  }

  function LimitParam(params: Query): Number
  {
    ParseInt(CursorText(params, "limit", "10"))
  }

  /** Without `page` and `limit` the first page of ten is served. */
  lemma DefaultCursor(params: Query)
    requires Truthy(params, "page").None? && Truthy(params, "limit").None?
    ensures PageParam(params) == Num(1) && LimitParam(params) == Num(10)
  {
    ParseIntToString(1);
    ParseIntToString(10);
    assert IntToString(10) == "10";
  }

  /** The cursor parses to numbers and the page size is positive; the route has no
      fallback otherwise. */
  predicate CursorParses(params: Query)
  {
    PageParam(params).Num? && LimitParam(params).Num? && LimitParam(params).n >= 1
  }

  /** The body `GET` answers with once the records are loaded. */
  function Respond(characters: seq<Character>, params: Query): PageResponse
    requires CursorParses(params)
  {
    Paginate(FilterCharacters(characters, params), PageParam(params).n, LimitParam(params).n)
  }

  const ListingFailure := "Failed to fetch characters"

  /** `GET /api/characters`: load through the memo, then filter and paginate; a failed
      load becomes status 500. */
  method Get(store: CharacterStore, params: Query, read: ReadOutcome) returns (resp: Response<PageResponse>)
    requires CursorParses(params)
    modifies store
    ensures resp.Error500? <==> old(store.cache).None? && read.ReadFailed?
    ensures resp.Error500? ==> resp.error == ListingFailure && store.cache == None
    ensures resp.Ok200? ==> store.cache.Some? && resp.body == Respond(store.cache.value, params)
    ensures old(store.cache).Some? ==> store.cache == old(store.cache)
    ensures old(store.cache).None? && read.Parsed? ==> store.cache == Some(read.records)
  {
    var loaded := store.Load(read);
    match loaded
    case Ok(characters) =>
      resp := Ok200(Respond(characters, params));
    case Err(_) =>
      resp := Error500(ListingFailure);
  }
}
