/** The records and state shapes shared by the server routes and the client. */
module Types {
  import opened Wrappers
  import opened JsNumbers

  /** A character's health, one of three fixed states. */
  datatype Health = Healthy | Injured | Critical

  /** The text a health state has in the data and in query strings. */
  function HealthText(h: Health): string
  {
    match h
    case Healthy => "Healthy"
    case Injured => "Injured"
    case Critical => "Critical"
  }

  /** One record of the store; `id` identifies it. */
  datatype Character = Character(id: string, name: string, location: string, health: Health, power: int)

  /** The filters the table shows and keeps in the URL. `power` is an inclusive bound;
      it is NaN when the URL held a power value that does not parse. */
  datatype FilterState = FilterState(location: seq<string>, health: seq<string>, name: string, power: Number)

  datatype SortDirection = Asc | Desc

  /** The text of a sort direction in the URL and in the source's state. */
  function DirectionText(d: SortDirection): string
  {
    match d
    case Asc => "asc"
    case Desc => "desc"
  }

  /** The sorted column and direction; either may be absent (`null`). */
  datatype SortState = SortState(column: Option<string>, direction: Option<SortDirection>)

  datatype SelectionState = SelectionState(selectedIds: set<string>, isAllSelected: bool, isIndeterminate: bool)

  /** The optional filter fields of a characters request. */
  datatype ApiFilters = ApiFilters(location: Option<string>, health: Option<string>, name: Option<string>, power: Option<int>)

  /** A characters request: a page cursor and the filters. */
  datatype ApiParams = ApiParams(page: int, limit: int, filters: ApiFilters)

  datatype Meta = Meta(totalItems: int, itemCount: int, itemsPerPage: int, totalPages: int, currentPage: int)

  /** Links to neighbouring pages; an empty string marks a missing one. */
  datatype Links = Links(first: string, previous: string, next: string, last: string)

  /** One page of the characters listing. */
  datatype PageResponse = PageResponse(items: seq<Character>, meta: Meta, links: Links)

  /** The filter options as the client uses them. */
  datatype FilterOptions = FilterOptions(locations: seq<string>, healthStates: seq<string>, maxPower: int)

  /** A route's reply: the JSON body with status 200, or status 500 with `{error}`. */
  datatype Response<T> = Ok200(body: T) | Error500(error: string)
}
