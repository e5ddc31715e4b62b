/**
 * The infinite characters query: which request each page load sends, where the page
 * cursor moves, and what a whole run of page loads against the listing route yields.
 */
module UseCharacters {
  import opened Wrappers
  import opened JsNumbers
  import opened Seqs
  import opened Types
  import opened UrlParams
  import opened ListingRoute
  import opened Api

  const InitialPageParam := 1

  /** The key of the infinite query: the filters and the limit, with the page fixed at 1. */
  function QueryKey(filters: ApiFilters, limit: int): seq<KeyPart>
  {
    CharactersKey(ApiParams(1, limit, filters))
  }

  /** The request `queryFn` sends for a page cursor; an undefined cursor means page 1. */
  function PageRequest(filters: ApiFilters, limit: int, pageParam: Option<int>): ApiParams
  {
    ApiParams(if pageParam.Some? then pageParam.value else 1, limit, filters)
  }

  /** `getNextPageParam`: the page after the last one loaded, while there is one. */
  function GetNextPageParam(lastPage: PageResponse): Option<int>
  {
    if lastPage.meta.currentPage < lastPage.meta.totalPages then Some(lastPage.meta.currentPage + 1) else None
  }

  /** There is a next page exactly when the last page is not the final one; the next page
      follows the last one directly and is never past the final page. */
  lemma NextPageParamBounds(lastPage: PageResponse)
    ensures var next := GetNextPageParam(lastPage);
      && (next.Some? <==> lastPage.meta.currentPage < lastPage.meta.totalPages)
      && (next.Some? ==> next.value == lastPage.meta.currentPage + 1)
      && (next.Some? ==> lastPage.meta.currentPage < next.value <= lastPage.meta.totalPages)
  {
  }

  /** The key tells apart exactly the filter-and-limit combinations: changing either
      starts a new page sequence, while the page cursor is not part of it. */
  lemma QueryKeyIdentifies(f: ApiFilters, l: int, g: ApiFilters, m: int)
    ensures QueryKey(f, l) == QueryKey(g, m) <==> f == g && l == m
  {
    KeysIdentify(ApiParams(1, l, f), ApiParams(1, m, g));
  }

  /** The first request asks for page 1, and all requests of one query carry the same
      filters and limit: their query strings differ at most in `page`. */
  lemma RequestsDifferOnlyInPage(filters: ApiFilters, limit: int, p: int, q: int, key: string)
    requires key != "page"
    requires key in ["limit", "name", "location", "health", "power"]
    ensures PageRequest(filters, limit, Some(InitialPageParam)).page == 1
    ensures PageRequest(filters, limit, None).page == 1
    ensures UrlParams.Get(CharactersQuery(PageRequest(filters, limit, Some(p))), key)
         == UrlParams.Get(CharactersQuery(PageRequest(filters, limit, Some(q))), key)
  {
    QueryValues(PageRequest(filters, limit, Some(p)));
    QueryValues(PageRequest(filters, limit, Some(q)));
  }

  /** The route reads back the page and limit a request carries. */
  lemma RequestCursor(request: ApiParams)
    requires request.limit >= 1
    ensures CursorParses(CharactersQuery(request))
    ensures PageParam(CharactersQuery(request)) == Num(request.page)
    ensures LimitParam(CharactersQuery(request)) == Num(request.limit)
  {
    var q := CharactersQuery(request);
    CursorValues(request);
    ParseIntToString(request.page);
    ParseIntToString(request.limit);
    assert Truthy(q, "page") == Some(IntToString(request.page));
    assert Truthy(q, "limit") == Some(IntToString(request.limit));
  }

  /** The records the route selects for the filters of a query. */
  function ServerFiltered(characters: seq<Character>, filters: ApiFilters, limit: int): seq<Character>
  {
    FilterCharacters(characters, CharactersQuery(ApiParams(1, limit, filters)))
  }

  /** The page the listing route answers a request with. */
  function ServerPage(characters: seq<Character>, request: ApiParams): PageResponse
    requires request.limit >= 1
  {
    RequestCursor(request);
    Respond(characters, CharactersQuery(request))
  }

  /** Every page of one query is cut from the same filtered list. */
  lemma ServedPage(characters: seq<Character>, filters: ApiFilters, limit: int, page: int)
    requires limit >= 1
    ensures ServerPage(characters, PageRequest(filters, limit, Some(page)))
      == Paginate(ServerFiltered(characters, filters, limit), page, limit)
  {
    var request := PageRequest(filters, limit, Some(page));
    var first := ApiParams(1, limit, filters);
    RequestCursor(request);
    QueryValues(request);
    QueryValues(first);
    FilterReadsCriteriaOnly(characters, CharactersQuery(request), CharactersQuery(first));
  }

  /** The server a query talks to: the route's answer to the request for each page. */
  function Server(characters: seq<Character>, filters: ApiFilters, limit: int): int -> PageResponse
    requires limit >= 1
  {
    p => ServerPage(characters, PageRequest(filters, limit, Some(p)))
  }

  /** Every answer reports the page it was asked for and the same page count. */
  ghost predicate Numbered(serve: int -> PageResponse, total: int)
  {
    forall p :: serve(p).meta.currentPage == p && serve(p).meta.totalPages == total
  }

  /** The listing route numbers its answers, with the page count of the query's filtered
      list. */
  lemma ServerNumbered(characters: seq<Character>, filters: ApiFilters, limit: int)
    requires limit >= 1
    ensures Numbered(Server(characters, filters, limit), CeilDiv(|ServerFiltered(characters, filters, limit)|, limit))
  {
    var filtered := ServerFiltered(characters, filters, limit);
    forall p ensures Server(characters, filters, limit)(p) == Paginate(filtered, p, limit) {
      ServedPage(characters, filters, limit, p);
    }
    forall p ensures Paginate(filtered, p, limit).meta.currentPage == p
      && Paginate(filtered, p, limit).meta.totalPages == CeilDiv(|filtered|, limit)
    {
      PageCursor(filtered, p, limit);
    }
  }

  /** The pages the query loads from page `page` on, asking `serve` for each: it keeps
      following `getNextPageParam` until that reports no next page. */
  function Run(serve: int -> PageResponse, total: int, page: int): (pages: seq<PageResponse>)
    requires Numbered(serve, total)
    ensures pages != []
    decreases total - page
  {
    var response := serve(page);
    match GetNextPageParam(response)
    case Some(next) => [response] + Run(serve, total, next)
    case None => [response]
  }

  /** The pages an infinite query loads from page `page` on against the listing route. */
  function Session(characters: seq<Character>, filters: ApiFilters, limit: int, page: int): (pages: seq<PageResponse>)
    requires limit >= 1
    ensures pages != []
  {
    ServerNumbered(characters, filters, limit);
    Run(Server(characters, filters, limit), CeilDiv(|ServerFiltered(characters, filters, limit)|, limit), page)
  }

  /** One step of a run: the current page, then the pages after it if there are any. */
  lemma RunStep(serve: int -> PageResponse, total: int, page: int)
    requires Numbered(serve, total)
    ensures Run(serve, total, page) == [serve(page)] + (if page < total then Run(serve, total, page + 1) else [])
  {
    NextOfPage(serve(page), page, total);
  }

  /** A run from `page` asks for pages `page`..`total` once each, in order (page `page`
      alone when it is the last or past it), and then stops. */
  lemma {:induction false} RunLength(serve: int -> PageResponse, total: int, page: int)
    requires Numbered(serve, total)
    ensures |Run(serve, total, page)| == (if page < total then total - page + 1 else 1)
    decreases total - page
  {
    RunStep(serve, total, page);
    if page < total {
      RunLength(serve, total, page + 1);
    }
  }

  /** The `i`-th page of a run from `page` is the answer for page `page + i`. */
  lemma {:induction false} RunAt(serve: int -> PageResponse, total: int, page: int, i: nat)
    requires Numbered(serve, total) && i < |Run(serve, total, page)|
    ensures Run(serve, total, page)[i] == serve(page + i)
    decreases i
  {
    RunStep(serve, total, page);
    if i > 0 {
      RunAt(serve, total, page + 1, i - 1);
    }
  }

  /** From page 1, a query loads pages 1..totalPages once each, in order (page 1 alone
      when nothing matches), and then stops; each page is the route's answer to the
      request for its page number. */
  lemma SessionPages(characters: seq<Character>, filters: ApiFilters, limit: int, page: int)
    requires limit >= 1
    ensures var total := CeilDiv(|ServerFiltered(characters, filters, limit)|, limit);
      |Session(characters, filters, limit, page)| == (if page < total then total - page + 1 else 1)
    ensures forall i :: 0 <= i < |Session(characters, filters, limit, page)| ==>
      && Session(characters, filters, limit, page)[i] == ServerPage(characters, PageRequest(filters, limit, Some(page + i)))
      && Session(characters, filters, limit, page)[i].meta.currentPage == page + i
  {
    var serve := Server(characters, filters, limit);
    var total := CeilDiv(|ServerFiltered(characters, filters, limit)|, limit);
    ServerNumbered(characters, filters, limit);
    RunLength(serve, total, page);
    forall i | 0 <= i < |Run(serve, total, page)|
      ensures Run(serve, total, page)[i] == serve(page + i)
    {
      RunAt(serve, total, page, i);
    }
  }

  /** The items of a run of pages, in order. */
  function ItemsOf(pages: seq<PageResponse>): (r: seq<seq<Character>>)
    ensures |r| == |pages|
    ensures forall i :: 0 <= i < |r| ==> r[i] == pages[i].items
  {
    seq(|pages|, i requires 0 <= i < |pages| => pages[i].items)
  }

  /** Together the loaded pages hold exactly the filtered list, in order: this is the
      list the route would answer with on one page of unbounded size. */
  lemma {:induction false} SessionCoversFiltered(characters: seq<Character>, filters: ApiFilters, limit: int)
    requires limit >= 1
    ensures Flatten(ItemsOf(Session(characters, filters, limit, 1))) == ServerFiltered(characters, filters, limit)
  {
    var filtered := ServerFiltered(characters, filters, limit);
    var total := CeilDiv(|filtered|, limit);
    var serve := Server(characters, filters, limit);
    ServerNumbered(characters, filters, limit);
    ServedPages(characters, filters, limit);
    if total == 0 {
      RunStep(serve, total, 1);
      PageWindow(filtered, 1, limit);
      assert ItemsOf(Run(serve, total, 1)) == [[]];
    } else {
      RunMatchesPages(serve, filtered, limit, 1);
      PagesCoverFiltered(filtered, limit);
    }
  }

  /** Every answer of the route to a query is the page cut from its filtered list. */
  lemma ServedPages(characters: seq<Character>, filters: ApiFilters, limit: int)
    requires limit >= 1
    ensures forall p :: Server(characters, filters, limit)(p) == Paginate(ServerFiltered(characters, filters, limit), p, limit)
  {
    forall p ensures Server(characters, filters, limit)(p) == Paginate(ServerFiltered(characters, filters, limit), p, limit) {
      ServedPage(characters, filters, limit, p);
    }
  }

  /** The items of a run from a page on, against a server that answers with the pages of
      `filtered`, are the route's pages from that page to the last. */
  lemma {:induction false} RunMatchesPages(serve: int -> PageResponse, filtered: seq<Character>, limit: int, page: int)
    requires limit >= 1 && Numbered(serve, CeilDiv(|filtered|, limit))
    requires forall p :: serve(p) == Paginate(filtered, p, limit)
    requires 1 <= page <= CeilDiv(|filtered|, limit)
    ensures ItemsOf(Run(serve, CeilDiv(|filtered|, limit), page)) == PageItems(filtered, limit, page, CeilDiv(|filtered|, limit))
    decreases CeilDiv(|filtered|, limit) - page
  {
    var total := CeilDiv(|filtered|, limit);
    RunStep(serve, total, page);
    if page < total {
      RunMatchesPages(serve, filtered, limit, page + 1);
      ItemsOfCons(serve(page), Run(serve, total, page + 1));
    } else {
      ItemsOfCons(serve(page), []);
    }
  }

  /** A page reports the page number and page count the route computed. */
  lemma PageCursor(filtered: seq<Character>, page: int, limit: int)
    requires limit >= 1
    ensures Paginate(filtered, page, limit).meta.currentPage == page
    ensures Paginate(filtered, page, limit).meta.totalPages == CeilDiv(|filtered|, limit)
  {
  }

  lemma NextOfPage(response: PageResponse, page: int, total: int)
    requires response.meta.currentPage == page && response.meta.totalPages == total
    ensures GetNextPageParam(response) == if page < total then Some(page + 1) else None
  {
  }

  lemma ItemsOfCons(page: PageResponse, rest: seq<PageResponse>)
    ensures ItemsOf([page] + rest) == [page.items] + ItemsOf(rest)
  {
  }
}
