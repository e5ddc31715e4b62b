/**
 * The Storybook harness of the table: it filters and sorts a fixed list of records in
 * the browser, and keeps row selection the way the table does.
 */
module TableStories {
  import opened Wrappers
  import opened Strings
  import opened JsNumbers
  import opened Seqs
  import opened Types
  import opened DragonBallTable

  /** The harness's records. */
  const MockCharacters: seq<Character> := [
    Character("1", "Goku", "Earth", Healthy, 9500000),
    Character("2", "Vegeta", "Earth", Healthy, 8900000),
    Character("3", "Gohan", "Earth", Healthy, 7200000),
    Character("4", "Piccolo", "Earth", Injured, 4500000),
    Character("5", "Frieza", "Namek", Critical, 12000000),
    Character("6", "Cell", "Earth", Healthy, 8500000),
    Character("7", "Majin Buu", "Earth", Healthy, 11000000),
    Character("8", "Trunks", "Earth", Healthy, 6800000),
    Character("9", "Goten", "Earth", Healthy, 5200000),
    Character("10", "Android 18", "Earth", Healthy, 7500000)
  ]

  /** The harness's starting filters. */
  const InitialFilters := FilterState([], [], "", Num(10000))

  /** The harness's per-record test: each non-empty list must contain the record's
      field, a non-empty name must occur in its name ignoring case, and its power must
      not exceed the bound (a NaN bound excludes nothing). */
  predicate StoryPasses(c: Character, filters: FilterState)
  {
    && !(|filters.location| > 0 && c.location !in filters.location)
    && !(|filters.health| > 0 && HealthText(c.health) !in filters.health)
    && !(filters.name != "" && !Contains(ToLower(c.name), ToLower(filters.name)))
    && !(filters.power.Num? && c.power > filters.power.n)
  }

  function StoryTest(filters: FilterState): Character -> bool
  {
    c => StoryPasses(c, filters)
  }

  /** `filteredCharacters` */
  function FilteredCharacters(characters: seq<Character>, filters: FilterState): (r: seq<Character>)
    ensures forall c :: c in r <==> c in characters && StoryPasses(c, filters)
  {
    Keep(characters, StoryTest(filters))
  }

  /** The filtered list keeps the input order, and filtering it again changes nothing. */
  lemma FilteredOrderAndIdempotence(characters: seq<Character>, filters: FilterState)
    ensures IsSubsequence(FilteredCharacters(characters, filters), characters)
    ensures FilteredCharacters(FilteredCharacters(characters, filters), filters) == FilteredCharacters(characters, filters)
  {
    KeepIsSubsequence(characters, StoryTest(filters));
    KeepIdempotent(characters, StoryTest(filters));
  }

  /** The harness applies the power bound always, where the table drops a bound of
      10000 or more: the two agree exactly on records whose power is within the bound
      or whose bound is below 10000. */
  lemma StoryAgreesWithTable(c: Character, filters: FilterState)
    ensures filters.power.Num? && filters.power.n < PowerCeiling ==> (StoryPasses(c, filters) <==> Selected(c, filters))
    ensures StoryPasses(c, filters) ==> Selected(c, filters)
    ensures Selected(c, filters) && !StoryPasses(c, filters) ==>
      filters.power.Num? && filters.power.n >= PowerCeiling && c.power > filters.power.n
  {
  }

  /** With its starting filters the harness shows none of its records: every mock
      power is above the starting bound of 10000. */
  lemma InitialStoryIsEmpty()
    ensures FilteredCharacters(MockCharacters, InitialFilters) == []
  {
    forall i | 0 <= i < |MockCharacters| ensures !StoryTest(InitialFilters)(MockCharacters[i]) {
      assert MockCharacters[i].power > 10000;
    }
    KeepNone(MockCharacters, StoryTest(InitialFilters));
  }

  lemma {:induction false} KeepNone(s: seq<Character>, p: Character -> bool)
    requires forall i :: 0 <= i < |s| ==> !p(s[i])
    ensures Keep(s, p) == []
  {
    if s != [] {
      KeepNone(s[1..], p);
    }
  }

  /** A record field as the comparator sees it: a string, a number, or `undefined` for
      a key that is not a field. */
  datatype FieldValue = Text(s: string) | Number(n: int) | Undefined

  function Field(c: Character, column: string): FieldValue
  {
    if column == "id" then Text(c.id)
    else if column == "name" then Text(c.name)
    else if column == "location" then Text(c.location)
    else if column == "health" then Text(HealthText(c.health))
    else if column == "power" then Number(c.power)
    else Undefined
  }

  /** The comparator of `sortedCharacters` for a column and direction: strings by the
      string order, numbers by difference, swapped for `desc`; anything else ties. */
  function Compare(column: string, direction: SortDirection, a: Character, b: Character): int
  {
    match (Field(a, column), Field(b, column))
    case (Text(x), Text(y)) => if direction == Asc then StrCompare(x, y) else StrCompare(y, x)
    case (Number(x), Number(y)) => if direction == Asc then x - y else y - x
    case _ => 0
  }

  function RowCompare(column: string, direction: SortDirection): (Character, Character) -> int
  {
    (a, b) => Compare(column, direction, a, b)
  }

  /** The descending comparator is the ascending one with its arguments swapped. */
  lemma DescendingIsSwapped(column: string, a: Character, b: Character)
    ensures RowCompare(column, Desc)(a, b) == RowCompare(column, Asc)(b, a)
  {
  }

  /** Every column's comparator, in either direction, is consistent. */
  lemma RowCompareConsistent(column: string, direction: SortDirection)
    ensures TotalPreorder(RowCompare(column, direction))
  {
    var cmp := RowCompare(column, direction);
    forall a, b ensures cmp(a, b) <= 0 || cmp(b, a) <= 0 {
      match (Field(a, column), Field(b, column))
      case (Text(x), Text(y)) => StrLtTotal(x, y);
      case _ =>
    }
    forall a, b, c | cmp(a, b) <= 0 && cmp(b, c) <= 0 ensures cmp(a, c) <= 0 {
      TextTransitive(column, direction, a, b, c);
    }
  }

  lemma TextTransitive(column: string, direction: SortDirection, a: Character, b: Character, c: Character)
    requires Compare(column, direction, a, b) <= 0 && Compare(column, direction, b, c) <= 0
    ensures Compare(column, direction, a, c) <= 0
  {
    match (Field(a, column), Field(b, column), Field(c, column))
    case (Text(x), Text(y), Text(z)) =>
      if direction == Asc {
        if StrLt(x, y) && StrLt(y, z) {
          StrLtTransitive(x, y, z);
        }
      } else {
        if StrLt(z, y) && StrLt(y, x) {
          StrLtTransitive(z, y, x);
        }
      }
    case _ =>
  }

  /** `sortedCharacters`: without a column or a direction the filtered list as it is,
      otherwise a sorted copy. */
  function SortedCharacters(filtered: seq<Character>, sortState: SortState): (r: seq<Character>)
    ensures multiset(r) == multiset(filtered)
    ensures |r| == |filtered|
  {
    if sortState.column.None? || sortState.column.value == "" || sortState.direction.None? then filtered
    else
      var r := Sort(filtered, RowCompare(sortState.column.value, sortState.direction.value));
      assert |r| == |multiset(r)| == |multiset(filtered)| == |filtered|;
      r
  }

  /** A sorted copy is ordered by its comparator. */
  lemma SortedByColumn(filtered: seq<Character>, column: string, direction: SortDirection)
    requires column != ""
    ensures SortedBy(SortedCharacters(filtered, SortState(Some(column), Some(direction))), RowCompare(column, direction))
  {
    RowCompareConsistent(column, direction);
    SortSorted(filtered, RowCompare(column, direction));
  }

  /** Sorting by power ascending gives non-decreasing powers, descending non-increasing. */
  lemma PowerOrder(filtered: seq<Character>, direction: SortDirection)
    ensures var r := SortedCharacters(filtered, SortState(Some("power"), Some(direction)));
      forall i, j :: 0 <= i < j < |r| ==>
        if direction == Asc then r[i].power <= r[j].power else r[i].power >= r[j].power
  {
    var r := SortedCharacters(filtered, SortState(Some("power"), Some(direction)));
    SortedByColumn(filtered, "power", direction);
    forall i, j | 0 <= i < j < |r|
      ensures if direction == Asc then r[i].power <= r[j].power else r[i].power >= r[j].power
    {
      assert RowCompare("power", direction)(r[i], r[j]) <= 0;
    }
  }

  /** Sorting by name ascending never puts a name before a smaller one; descending
      never after a smaller one. */
  lemma NameOrder(filtered: seq<Character>, direction: SortDirection)
    ensures var r := SortedCharacters(filtered, SortState(Some("name"), Some(direction)));
      forall i, j :: 0 <= i < j < |r| ==>
        if direction == Asc then !StrLt(r[j].name, r[i].name) else !StrLt(r[i].name, r[j].name)
  {
    var r := SortedCharacters(filtered, SortState(Some("name"), Some(direction)));
    SortedByColumn(filtered, "name", direction);
    forall i, j | 0 <= i < j < |r|
      ensures if direction == Asc then !StrLt(r[j].name, r[i].name) else !StrLt(r[i].name, r[j].name)
    {
      assert RowCompare("name", direction)(r[i], r[j]) <= 0;
    }
  }

  /** Without a sort the rows keep the filtered order. */
  lemma UnsortedKeepsOrder(filtered: seq<Character>, sortState: SortState)
    requires sortState.column.None? || sortState.column.value == "" || sortState.direction.None?
    ensures SortedCharacters(filtered, sortState) == filtered
  {
  }

  /** The harness's `handleRowSelect`: the table's row rule against the number of
      sorted rows. */
  method HandleStoryRowSelect(prev: SelectionState, id: string, sorted: seq<Character>) returns (next: SelectionState)
    ensures next.selectedIds == Toggle(prev.selectedIds, id)
    ensures FlagsFor(next, |sorted|)
    ensures !(next.isAllSelected && next.isIndeterminate)
  {
    next := HandleRowSelect(prev, id, |sorted|);
    FlagsExclusive(next, |sorted|);
  }

  /** The harness's `handleSelectAll` never sets both flags. */
  lemma StorySelectAllFlags(prev: SelectionState, sorted: seq<Character>)
    ensures var next := HandleSelectAll(prev, sorted);
      !(next.isAllSelected && next.isIndeterminate)
      && (next.isAllSelected <==> !prev.isAllSelected)
  {
  }
}
