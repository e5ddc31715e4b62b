/**
 * The table component's state rules: the filters it reads from and writes to the URL,
 * the request filters it derives from them, the flat list of loaded rows, and row
 * selection with its all/indeterminate flags.
 */
module DragonBallTable {
  import opened Wrappers
  import opened Strings
  import opened JsNumbers
  import opened Seqs
  import opened Types
  import opened UrlParams
  import opened ListingRoute
  import opened Api
  import opened UseCharacters

  /** The power value that stands for "no power filter". */
  const PowerCeiling := 10000

  /** The page size the table asks for when none is given. */
  const DefaultPageSize := 10

  predicate IsNonEmpty(s: string)
  {
    s != ""
  }

  /** A list entry that survives a trip through a comma-joined parameter. */
  predicate ListEntry(s: string)
  {
    s != "" && ',' !in s
  }

  /** `value ? value.split(',').filter(Boolean) : []` */
  function ListFromUrl(value: Option<string>): (r: seq<string>)
    ensures forall i :: 0 <= i < |r| ==> ListEntry(r[i])
    ensures value.None? || value.value == "" ==> r == []
    ensures value.Some? ==> forall x :: x in r <==> x != "" && x in Split(value.value, ',')
    ensures value.Some? ==> IsSubsequence(r, Split(value.value, ','))
  {
    if value.Some? && value.value != "" then
      var pieces := Split(value.value, ',');
      var r := Keep(pieces, IsNonEmpty);
      assert forall i :: 0 <= i < |r| ==> r[i] in pieces && IsNonEmpty(r[i]) by {
        forall i | 0 <= i < |r| ensures r[i] in pieces && IsNonEmpty(r[i]) {
          assert r[i] in r;
        }
      }
      KeepIsSubsequence(pieces, IsNonEmpty);
      r
    else
      assert value.Some? ==> Split(value.value, ',') == [""];
      []
  }

  /** `getInitialFilters`: the filters a URL query describes. Missing lists are empty,
      a missing name is empty, a missing power is the ceiling; a power that does not
      parse is NaN. */
  function GetInitialFilters(q: Query): (r: FilterState)
    ensures forall i :: 0 <= i < |r.location| ==> ListEntry(r.location[i])
    ensures forall i :: 0 <= i < |r.health| ==> ListEntry(r.health[i])
    ensures r.name == (if UrlParams.Get(q, "name").Some? then UrlParams.Get(q, "name").value else "")
    ensures forall x :: x in r.location <==>
      UrlParams.Get(q, "location").Some? && x != "" && x in Split(UrlParams.Get(q, "location").value, ',')
    ensures forall x :: x in r.health <==>
      UrlParams.Get(q, "health").Some? && x != "" && x in Split(UrlParams.Get(q, "health").value, ',')
    ensures UrlParams.Get(q, "location").Some? ==> IsSubsequence(r.location, Split(UrlParams.Get(q, "location").value, ','))
    ensures UrlParams.Get(q, "health").Some? ==> IsSubsequence(r.health, Split(UrlParams.Get(q, "health").value, ','))
    ensures UrlParams.Get(q, "power").None? || UrlParams.Get(q, "power").value == "" ==> r.power == Num(PowerCeiling)
    ensures UrlParams.Get(q, "power").Some? && UrlParams.Get(q, "power").value != "" ==>
      r.power == ParseInt(UrlParams.Get(q, "power").value)
  {
    var name := UrlParams.Get(q, "name");
    var power := UrlParams.Get(q, "power");
    FilterState(
      ListFromUrl(UrlParams.Get(q, "location")),
      ListFromUrl(UrlParams.Get(q, "health")),
      if name.Some? && name.value != "" then name.value else "",
      if power.Some? && power.value != "" then ParseInt(power.value) else Num(PowerCeiling))
  }

  /** A pair for a value that is written only when it is given. */
  function Pair(key: string, value: Option<string>): Query
  {
    if value.Some? then [(key, value.value)] else []
  }

  /** A list as one comma-joined value, or nothing for an empty list. */
  function ListText(xs: seq<string>): Option<string>
  {
    if |xs| > 0 then Some(Join(xs, ',')) else None
  }

  /** The name as a value, or nothing when it is empty. */
  function NameText(name: string): Option<string>
  {
    if name != "" then Some(name) else None
  }

  /** The power as a value, or nothing when it is not below the ceiling (or is NaN). */
  function PowerText(power: Number): Option<string>
  {
    if LessThan(power, PowerCeiling) then Some(IntToString(power.n)) else None
  }

  /** The sort that `updateURL` writes: the new one when given, else the current one. */
  function CurrentSort(newSortState: Option<SortState>, sortState: SortState): SortState
  {
    if newSortState.Some? then newSortState.value else sortState
  }

  /** The sort pairs: written only when both a (non-empty) column and a direction are set. */
  function SortPairs(sort: SortState): Query
  {
    if sort.column.Some? && sort.column.value != "" && sort.direction.Some? then
      [("sortBy", sort.column.value), ("sortOrder", DirectionText(sort.direction.value))]
    else []
  }

  /** The pairs `updateURL` sets, in order. */
  function UrlQuery(f: FilterState, sort: SortState): Query
  {
    Pair("location", ListText(f.location)) + Pair("health", ListText(f.health))
      + Pair("name", NameText(f.name)) + Pair("power", PowerText(f.power)) + SortPairs(sort)
  }

  /** `params.toString()` at the key/value level: `key=value` pairs joined by `&`. */
  function Serialize(q: Query): (r: string)
    ensures r == "" <==> q == []
  {
    if q == [] then ""
    else
      var head := q[0].0 + "=" + q[0].1;
      assert head[|q[0].0|] == '=';
      if |q| == 1 then head else head + "&" + Serialize(q[1..])
  }

  /** The URL `updateURL` navigates to: the bare path when there is no parameter. */
  function Href(pathname: string, q: Query): (r: string)
    ensures r == pathname <==> q == []
    ensures q != [] ==> r == pathname + "?" + Serialize(q)
  {
    var queryString := Serialize(q);
    if queryString != "" then pathname + "?" + queryString else pathname
  }

  /** `updateURL`: fill a fresh `URLSearchParams` by successive `set` calls and build the
      URL from it. */
  method UpdateURL(pathname: string, newFilters: FilterState, newSortState: Option<SortState>, sortState: SortState)
    returns (newURL: string)
    ensures newURL == Href(pathname, UrlQuery(newFilters, CurrentSort(newSortState, sortState)))
  {
    var params := new SearchParams();
    SetFilters(params, newFilters);
    var currentSort := CurrentSort(newSortState, sortState);
    if currentSort.column.Some? && currentSort.column.value != "" && currentSort.direction.Some? {
      SetNew(params, "sortBy", currentSort.column.value, ["location", "health", "name", "power"]);
      SetNew(params, "sortOrder", DirectionText(currentSort.direction.value), ["location", "health", "name", "power", "sortBy"]);
    }
    assert params.pairs == UrlQuery(newFilters, currentSort);
    var queryString := Serialize(params.pairs);
    newURL := if queryString != "" then pathname + "?" + queryString else pathname;
  }

  /** The filter part of `updateURL`: a `set` for each filter that is active. */
  method SetFilters(params: SearchParams, newFilters: FilterState)
    requires params.pairs == []
    modifies params
    ensures params.pairs == Pair("location", ListText(newFilters.location)) + Pair("health", ListText(newFilters.health))
      + Pair("name", NameText(newFilters.name)) + Pair("power", PowerText(newFilters.power))
    ensures forall i :: 0 <= i < |params.pairs| ==> params.pairs[i].0 in ["location", "health", "name", "power"]
  {
    var location, health, name, power :=
      ListText(newFilters.location), ListText(newFilters.health), NameText(newFilters.name), PowerText(newFilters.power);
    if |newFilters.location| > 0 {
      SetNew(params, "location", Join(newFilters.location, ','), []);
    }
    assert params.pairs == Pair("location", location);
    if |newFilters.health| > 0 {
      SetNew(params, "health", Join(newFilters.health, ','), ["location"]);
    }
    assert params.pairs == Pair("location", location) + Pair("health", health);
    if newFilters.name != "" {
      SetNew(params, "name", newFilters.name, ["location", "health"]);
    }
    assert params.pairs == Pair("location", location) + Pair("health", health) + Pair("name", name);
    if LessThan(newFilters.power, PowerCeiling) {
      SetNew(params, "power", IntToString(newFilters.power.n), ["location", "health", "name"]);
    }
  }

  /** `params.set(key, value)` for a name not set before. */
  method SetNew(params: SearchParams, key: string, value: string, earlier: seq<string>)
    requires forall i :: 0 <= i < |params.pairs| ==> params.pairs[i].0 in earlier
    requires key !in earlier
    modifies params
    ensures params.pairs == old(params.pairs) + [(key, value)]
    ensures forall i :: 0 <= i < |params.pairs| ==> params.pairs[i].0 in earlier + [key]
  {
    SetTextAbsent(params.pairs, key, value, earlier);
    params.Set(key, value);
  }

  /** No pair of `q` has name `key`. */
  predicate Lacks(q: Query, key: string)
  {
    forall i :: 0 <= i < |q| ==> q[i].0 != key
  }

  /** `get` finds a name in the one segment of a query that holds it. */
  lemma GetSegment(pre: Query, mid: Query, post: Query, key: string)
    requires Lacks(pre, key) && Lacks(post, key)
    ensures UrlParams.Get(pre + mid + post, key) == UrlParams.Get(mid, key)
  {
    GetConcat(pre + mid, post, key);
    GetConcat(pre, mid, key);
    HasKeyIndex(pre, key);
    HasKeyIndex(post, key);
  }

  lemma LacksConcat(a: Query, b: Query, key: string)
    requires Lacks(a, key) && Lacks(b, key)
    ensures Lacks(a + b, key)
  {
  }

  /** What `get` reads back from the pairs `updateURL` writes. */
  lemma UrlValues(f: FilterState, sort: SortState)
    ensures var q := UrlQuery(f, sort);
      && UrlParams.Get(q, "location") == ListText(f.location)
      && UrlParams.Get(q, "health") == ListText(f.health)
      && UrlParams.Get(q, "name") == NameText(f.name)
      && UrlParams.Get(q, "power") == PowerText(f.power)
  {
    LocationUrlValue(f, sort);
    HealthUrlValue(f, sort);
    NameUrlValue(f, sort);
    PowerUrlValue(f, sort);
  }

  lemma LocationUrlValue(f: FilterState, sort: SortState)
    ensures UrlParams.Get(UrlQuery(f, sort), "location") == ListText(f.location)
  {
    SegmentValues(ListText(f.location), ListText(f.health), NameText(f.name), PowerText(f.power), SortPairs(sort));
  }

  lemma HealthUrlValue(f: FilterState, sort: SortState)
    ensures UrlParams.Get(UrlQuery(f, sort), "health") == ListText(f.health)
  {
    SegmentValues(ListText(f.location), ListText(f.health), NameText(f.name), PowerText(f.power), SortPairs(sort));
  }

  lemma NameUrlValue(f: FilterState, sort: SortState)
    ensures UrlParams.Get(UrlQuery(f, sort), "name") == NameText(f.name)
  {
    SegmentValues(ListText(f.location), ListText(f.health), NameText(f.name), PowerText(f.power), SortPairs(sort));
  }

  lemma PowerUrlValue(f: FilterState, sort: SortState)
    ensures UrlParams.Get(UrlQuery(f, sort), "power") == PowerText(f.power)
  {
    SegmentValues(ListText(f.location), ListText(f.health), NameText(f.name), PowerText(f.power), SortPairs(sort));
  }

  /** `get` on the four filter pairs followed by sort pairs. */
  lemma SegmentValues(l: Option<string>, h: Option<string>, n: Option<string>, p: Option<string>, s: Query)
    requires forall i :: 0 <= i < |s| ==> s[i].0 in ["sortBy", "sortOrder"]
    ensures var q := Pair("location", l) + Pair("health", h) + Pair("name", n) + Pair("power", p) + s;
      && UrlParams.Get(q, "location") == l && UrlParams.Get(q, "health") == h
      && UrlParams.Get(q, "name") == n && UrlParams.Get(q, "power") == p
  {
    var L, H, N, P := Pair("location", l), Pair("health", h), Pair("name", n), Pair("power", p);
    assert Lacks(s, "location") && Lacks(s, "health") && Lacks(s, "name") && Lacks(s, "power");
    LocationSegment(L, H, N, P, s, l);
    HealthSegment(L, H, N, P, s, h);
    NameSegment(L, H, N, P, s, n);
    PowerSegment(L, H, N, P, s, p);
  }

  lemma LocationSegment(L: Query, H: Query, N: Query, P: Query, s: Query, l: Option<string>)
    requires L == Pair("location", l) && Lacks(H, "location") && Lacks(N, "location") && Lacks(P, "location") && Lacks(s, "location")
    ensures UrlParams.Get(L + H + N + P + s, "location") == l
  {
    LacksConcat(H, N, "location");
    LacksConcat(H + N, P, "location");
    LacksConcat(H + N + P, s, "location");
    assert L + H + N + P + s == [] + L + (H + N + P + s);
    GetSegment([], L, H + N + P + s, "location");
  }

  lemma HealthSegment(L: Query, H: Query, N: Query, P: Query, s: Query, h: Option<string>)
    requires H == Pair("health", h) && Lacks(L, "health") && Lacks(N, "health") && Lacks(P, "health") && Lacks(s, "health")
    ensures UrlParams.Get(L + H + N + P + s, "health") == h
  {
    LacksConcat(N, P, "health");
    LacksConcat(N + P, s, "health");
    assert L + H + N + P + s == L + H + (N + P + s);
    GetSegment(L, H, N + P + s, "health");
  }

  lemma NameSegment(L: Query, H: Query, N: Query, P: Query, s: Query, n: Option<string>)
    requires N == Pair("name", n) && Lacks(L, "name") && Lacks(H, "name") && Lacks(P, "name") && Lacks(s, "name")
    ensures UrlParams.Get(L + H + N + P + s, "name") == n
  {
    LacksConcat(L, H, "name");
    LacksConcat(P, s, "name");
    assert L + H + N + P + s == (L + H) + N + (P + s);
    GetSegment(L + H, N, P + s, "name");
  }

  lemma PowerSegment(L: Query, H: Query, N: Query, P: Query, s: Query, p: Option<string>)
    requires P == Pair("power", p) && Lacks(L, "power") && Lacks(H, "power") && Lacks(N, "power") && Lacks(s, "power")
    ensures UrlParams.Get(L + H + N + P + s, "power") == p
  {
    LacksConcat(L, H, "power");
    LacksConcat(L + H, N, "power");
    GetSegment(L + H + N, P, s, "power");
  }

  /** A list of entries with no comma reads back from its comma-joined form. */
  lemma ListRoundTrip(xs: seq<string>)
    requires forall i :: 0 <= i < |xs| ==> ListEntry(xs[i])
    ensures ListFromUrl(ListText(xs)) == xs
  {
    if |xs| > 0 {
      SplitJoin(xs, ',');
      KeepAll(xs, IsNonEmpty);
      assert Join(xs, ',')[..|xs[0]|] == xs[0];
    }
  }

  /** Reading the URL written for some filters gives those filters back, when the list
      entries are non-empty and comma-free and the power is a number not above the
      ceiling. The sort is written but not read. */
  lemma UrlRoundTrip(f: FilterState, sort: SortState)
    requires forall i :: 0 <= i < |f.location| ==> ListEntry(f.location[i])
    requires forall i :: 0 <= i < |f.health| ==> ListEntry(f.health[i])
    requires f.power.Num? && f.power.n <= PowerCeiling
    ensures GetInitialFilters(UrlQuery(f, sort)) == f
  {
    UrlValues(f, sort);
    ListRoundTrip(f.location);
    ListRoundTrip(f.health);
    ParseIntToString(f.power.n);
  }

  /** The parameters `updateURL` writes: each list only when non-empty, the name only
      when non-empty, the power only below the ceiling, and nothing at all (the bare
      path) for cleared filters and no sort. */
  lemma UrlParameters(pathname: string, f: FilterState, sort: SortState)
    ensures var q := UrlQuery(f, sort);
      && (HasKey(q, "location") <==> |f.location| > 0)
      && (HasKey(q, "health") <==> |f.health| > 0)
      && (HasKey(q, "name") <==> f.name != "")
      && (HasKey(q, "power") <==> LessThan(f.power, PowerCeiling))
      && (q == [] <==> Href(pathname, q) == pathname)
    ensures (f.location == [] && f.health == [] && f.name == "" && !LessThan(f.power, PowerCeiling)
      && SortPairs(sort) == []) ==> Href(pathname, UrlQuery(f, sort)) == pathname
  {
    UrlValues(f, sort);
  }

  /** `apiParams`: the request filters for the table's filters. Lists are joined with
      `,`, an empty list or name is left out, and the power only goes below the ceiling. */
  function ApiParamsOf(f: FilterState): (r: ApiFilters)
    ensures r.location.Some? <==> f.location != []
    ensures r.health.Some? <==> f.health != []
    ensures r.name.Some? <==> f.name != ""
    ensures r.name.Some? ==> r.name.value == f.name
    ensures r.power.Some? <==> LessThan(f.power, PowerCeiling)
    ensures r.power.Some? ==> r.power.value == f.power.n < PowerCeiling
  {
    ApiFilters(ListText(f.location), ListText(f.health), NameText(f.name),
      if LessThan(f.power, PowerCeiling) then Some(f.power.n) else None)
  }

  /** A list of comma-free entries splits back from the text the request carries. */
  lemma ApiListsSplitBack(f: FilterState)
    ensures (forall i :: 0 <= i < |f.location| ==> ListEntry(f.location[i])) && f.location != [] ==>
      Split(ApiParamsOf(f).location.value, ',') == f.location
    ensures (forall i :: 0 <= i < |f.health| ==> ListEntry(f.health[i])) && f.health != [] ==>
      Split(ApiParamsOf(f).health.value, ',') == f.health
  {
    if (forall i :: 0 <= i < |f.location| ==> ListEntry(f.location[i])) && f.location != [] {
      SplitJoin(f.location, ',');
    }
    if (forall i :: 0 <= i < |f.health| ==> ListEntry(f.health[i])) && f.health != [] {
      SplitJoin(f.health, ',');
    }
  }

  /** A list entry the route reads back unchanged from a comma-joined parameter. */
  predicate CleanEntry(s: string)
  {
    ListEntry(s) && IsTrimmed(s)
  }

  /** What the table's filters ask for: each non-empty list contains the record's field,
      a non-empty name occurs in its name ignoring case, and a power below the ceiling
      bounds its power. */
  predicate Selected(c: Character, f: FilterState)
  {
    && (f.location != [] ==> c.location in f.location)
    && (f.health != [] ==> HealthText(c.health) in f.health)
    && (f.name != "" ==> Contains(ToLower(c.name), ToLower(f.name)))
    && (LessThan(f.power, PowerCeiling) ==> c.power <= f.power.n)
  }

  function SelectedTest(f: FilterState): Character -> bool
  {
    c => Selected(c, f)
  }

  /** The route parses a joined list of clean entries back into the same list. */
  lemma ListQueryOfJoin(q: Query, key: string, xs: seq<string>)
    requires forall i :: 0 <= i < |xs| ==> CleanEntry(xs[i])
    requires UrlParams.Get(q, key) == NonEmpty(ListText(xs))
    ensures ListQuery(q, key) == if xs == [] then None else Some(xs)
  {
    if xs != [] {
      SplitJoin(xs, ',');
      assert Join(xs, ',')[..|xs[0]|] == xs[0];
      assert TrimmedPieces(Join(xs, ',')) == xs;
    }
  }

  /** The route applies exactly the criteria the table's filters ask for. */
  lemma ServerCriteria(f: FilterState, limit: int, c: Character)
    requires forall i :: 0 <= i < |f.location| ==> CleanEntry(f.location[i])
    requires forall i :: 0 <= i < |f.health| ==> CleanEntry(f.health[i])
    ensures Matches(c, CharactersQuery(ApiParams(1, limit, ApiParamsOf(f)))) <==> Selected(c, f)
  {
    var q := CharactersQuery(ApiParams(1, limit, ApiParamsOf(f)));
    QueryValues(ApiParams(1, limit, ApiParamsOf(f)));
    ListQueryOfJoin(q, "location", f.location);
    ListQueryOfJoin(q, "health", f.health);
    NameQueryOf(q, f.name);
    PowerQueryOf(q, f.power);
  }

  lemma NameQueryOf(q: Query, name: string)
    requires UrlParams.Get(q, "name") == NonEmpty(NameText(name))
    ensures NameQuery(q) == if name == "" then None else Some(ToLower(name))
  {
  }

  lemma PowerQueryOf(q: Query, power: Number)
    requires UrlParams.Get(q, "power") == (if LessThan(power, PowerCeiling) then Some(IntToString(power.n)) else None)
    ensures PowerQuery(q) == if LessThan(power, PowerCeiling) then Some(power.n) else None
  {
    if LessThan(power, PowerCeiling) {
      ParseIntToString(power.n);
    }
  }

  /** The list a query for the table's filters selects is the records those filters
      ask for, in store order. */
  lemma ServerSelects(characters: seq<Character>, f: FilterState, limit: int)
    requires forall i :: 0 <= i < |f.location| ==> CleanEntry(f.location[i])
    requires forall i :: 0 <= i < |f.health| ==> CleanEntry(f.health[i])
    ensures ServerFiltered(characters, ApiParamsOf(f), limit) == Keep(characters, SelectedTest(f))
  {
    var q := CharactersQuery(ApiParams(1, limit, ApiParamsOf(f)));
    FilterIsConjunction(characters, q);
    forall i | 0 <= i < |characters|
      ensures Matches(characters[i], q) == SelectedTest(f)(characters[i])
    {
      ServerCriteria(f, limit, characters[i]);
    }
    KeepAgree(characters, c => Matches(c, q), SelectedTest(f));
  }

  /** `allCharacters`: the items of the loaded pages, in order; nothing before the first
      page arrives. */
  function AllCharacters(data: Option<seq<PageResponse>>): seq<Character>
  {
    match data
    case None => []
    case Some(pages) => Flatten(ItemsOf(pages))
  }

  /** Loading one more page appends its items and changes none before them. */
  lemma AllCharactersGrow(pages: seq<PageResponse>, next: PageResponse)
    ensures AllCharacters(Some(pages + [next])) == AllCharacters(Some(pages)) + next.items
    ensures |AllCharacters(Some(pages))| == SumLengths(ItemsOf(pages))
  {
    assert ItemsOf(pages + [next]) == ItemsOf(pages) + [next.items];
    FlattenAppend(ItemsOf(pages), [next.items]);
    FlattenLength(ItemsOf(pages));
  }

  /** Once every page of a query is loaded, the table holds exactly the records its
      filters ask for, in store order. */
  lemma TableShowsSelected(characters: seq<Character>, f: FilterState, limit: int)
    requires limit >= 1
    requires forall i :: 0 <= i < |f.location| ==> CleanEntry(f.location[i])
    requires forall i :: 0 <= i < |f.health| ==> CleanEntry(f.health[i])
    ensures AllCharacters(Some(Session(characters, ApiParamsOf(f), limit, 1))) == Keep(characters, SelectedTest(f))
  {
    SessionCoversFiltered(characters, ApiParamsOf(f), limit);
    ServerSelects(characters, f, limit);
  }

  /** With the default page size, once every page is loaded the table holds exactly the
      records its filters ask for. */
  lemma DefaultTableShowsSelected(characters: seq<Character>, f: FilterState)
    requires forall i :: 0 <= i < |f.location| ==> CleanEntry(f.location[i])
    requires forall i :: 0 <= i < |f.health| ==> CleanEntry(f.health[i])
    ensures AllCharacters(Some(Session(characters, ApiParamsOf(f), DefaultPageSize, 1))) == Keep(characters, SelectedTest(f))
  {
    TableShowsSelected(characters, f, DefaultPageSize);
  }

  /** The selection with one id's membership flipped. */
  function Toggle(ids: set<string>, id: string): (r: set<string>)
    ensures forall x :: x in r <==> (x == id) != (x in ids)
    ensures |r| == if id in ids then |ids| - 1 else |ids| + 1
  {
    if id in ids then ids - {id} else ids + {id}
  }

  /** Flipping the same id twice restores the selection. */
  lemma ToggleTwice(ids: set<string>, id: string)
    ensures Toggle(Toggle(ids, id), id) == ids
  {
  }

  /** The flags of a selection of `count` ids among `totalVisible` rows. */
  predicate FlagsFor(s: SelectionState, totalVisible: int)
  {
    && (s.isAllSelected <==> 0 < |s.selectedIds| == totalVisible)
    && (s.isIndeterminate <==> 0 < |s.selectedIds| < totalVisible)
  }

  /** Flags set by the row rule are never both true. */
  lemma FlagsExclusive(s: SelectionState, totalVisible: int)
    requires FlagsFor(s, totalVisible)
    ensures !(s.isAllSelected && s.isIndeterminate)
    ensures |s.selectedIds| == 0 ==> !s.isAllSelected && !s.isIndeterminate
  {
  }

  /** `handleRowSelect`: copy the selected ids, add or delete the one id, and recompute
      the flags against the number of visible rows. */
  method HandleRowSelect(prev: SelectionState, id: string, totalVisible: int) returns (next: SelectionState)
    ensures next.selectedIds == Toggle(prev.selectedIds, id)
    ensures FlagsFor(next, totalVisible)
  {
    var newSelectedIds := prev.selectedIds;
    if id in newSelectedIds {
      newSelectedIds := newSelectedIds - {id};
    } else {
      newSelectedIds := newSelectedIds + {id};
    }
    var selectedCount := |newSelectedIds|;
    next := SelectionState(newSelectedIds, selectedCount > 0 && selectedCount == totalVisible,
      selectedCount > 0 && selectedCount < totalVisible);
  }

  /** The ids of a list of records. */
  function IdsOf(rows: seq<Character>): (r: set<string>)
    ensures forall x :: x in r <==> exists i :: 0 <= i < |rows| && rows[i].id == x
  {
    set i | 0 <= i < |rows| :: rows[i].id
  }

  /** `handleSelectAll`: clear the selection when all are selected, otherwise select the
      ids of every loaded row. */
  function HandleSelectAll(prev: SelectionState, allCharacters: seq<Character>): (r: SelectionState)
    ensures prev.isAllSelected ==> r.selectedIds == {} && !r.isAllSelected && !r.isIndeterminate
    ensures !prev.isAllSelected ==> r.selectedIds == IdsOf(allCharacters) && r.isAllSelected && !r.isIndeterminate
  {
    if prev.isAllSelected then SelectionState({}, false, false)
    else SelectionState(IdsOf(allCharacters), true, false)
  }

  /** Pressing select-all twice from a state that is not all-selected ends with nothing
      selected. */
  lemma SelectAllTwice(prev: SelectionState, allCharacters: seq<Character>)
    requires !prev.isAllSelected
    ensures HandleSelectAll(HandleSelectAll(prev, allCharacters), allCharacters) == SelectionState({}, false, false)
  {
  }

  /** Rows with distinct ids have as many ids as rows. */
  lemma {:induction false} DistinctIds(rows: seq<Character>)
    requires forall i, j :: 0 <= i < j < |rows| ==> rows[i].id != rows[j].id
    ensures |IdsOf(rows)| == |rows|
  {
    if rows != [] {
      var rest := rows[1..];
      DistinctIds(rest);
      IdsOfCons(rows);
      forall i | 0 <= i < |rest| ensures rest[i].id != rows[0].id {
        assert rest[i] == rows[i + 1];
      }
    }
  }

  lemma IdsOfCons(rows: seq<Character>)
    requires rows != []
    ensures IdsOf(rows) == {rows[0].id} + IdsOf(rows[1..])
  {
    var rest := rows[1..];
    forall x ensures x in IdsOf(rows) <==> x == rows[0].id || x in IdsOf(rest) {
      if x in IdsOf(rows) && x != rows[0].id {
        var i :| 0 <= i < |rows| && rows[i].id == x;
        assert rest[i - 1].id == x;
      }
      if x in IdsOf(rest) {
        var i :| 0 <= i < |rest| && rest[i].id == x;
        assert rows[i + 1].id == x;
      }
    }
  }

  /** Select-all on rows with distinct ids sets the flags the row rule would give, as
      long as there is at least one row; on no rows it reports all selected with
      nothing selected, which the row rule never does. */
  lemma SelectAllFlags(prev: SelectionState, allCharacters: seq<Character>)
    requires !prev.isAllSelected
    requires forall i, j :: 0 <= i < j < |allCharacters| ==> allCharacters[i].id != allCharacters[j].id
    ensures allCharacters != [] ==> FlagsFor(HandleSelectAll(prev, allCharacters), |allCharacters|)
    ensures allCharacters == [] ==> !FlagsFor(HandleSelectAll(prev, allCharacters), |allCharacters|)
  {
    DistinctIds(allCharacters);
  }
}
