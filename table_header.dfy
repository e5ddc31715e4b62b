/**
 * The table header: which columns can be sorted, the three-state sort cycle a click
 * moves through, and the accessibility labels that describe it.
 */
module TableHeader {
  import opened Wrappers
  import opened Types

  /** A header column; only sortable columns react to clicks. */
  datatype Column = Column(key: string, heading: string, sortable: bool, ariaLabel: string)

  /** The header's columns, in display order. */
  const Columns: seq<Column> := [
    Column("selection", "", false, "Character selection column"),
    Column("name", "Name", true, "Character name column, sortable"),
    Column("power", "Power Level", true, "Character power level column, sortable"),
    Column("location", "Location", false, "Character location column"),
    Column("health", "Health", false, "Character health column")
  ]

  /** `columns.find(col => col.key === key)` over a list of columns. */
  function Find(cols: seq<Column>, key: string): (r: Option<Column>)
    ensures r.Some? ==> r.value in cols && r.value.key == key
    ensures r.None? <==> forall i :: 0 <= i < |cols| ==> cols[i].key != key
  {
    if cols == [] then None
    else if cols[0].key == key then Some(cols[0])
    else Find(cols[1..], key)
  }

  /** A click on this key can change the sort: its column exists and is sortable. */
  predicate IsSortable(key: string)
  {
    Find(Columns, key).Some? && Find(Columns, key).value.sortable
  }

  /** Exactly the name and power columns are sortable. */
  lemma SortableColumns(key: string)
    ensures IsSortable(key) <==> key == "name" || key == "power"
  {
  }

  /** The direction a click on `column` asks for: `asc` for another column, and on the
      sorted column `asc` to `desc`, `desc` to none, none to `asc`. */
  function NextDirection(sortState: SortState, column: string): Option<SortDirection>
  {
    if sortState.column == Some(column) then
      match sortState.direction
      case Some(Asc) => Some(Desc)
      case Some(Desc) => None
      case None => Some(Asc)
    else Some(Asc)
  }

  /** `handleSort`: the `onSort(column, direction)` call a click makes, or none for a
      column that is unknown or not sortable. */
  function HandleSort(sortState: SortState, column: string): (r: Option<(string, Option<SortDirection>)>)
    ensures r.Some? <==> IsSortable(column)
    ensures r.Some? ==> r.value.0 == column
  {
    if !IsSortable(column) then None
    else Some((column, NextDirection(sortState, column)))
  }

  /** The sort state after a click, as the table stores what `onSort` reports. */
  function Click(sortState: SortState, column: string): SortState
  {
    match HandleSort(sortState, column)
    case Some((c, d)) => SortState(Some(c), d)
    case None => sortState
  }

  /** The sort state a reported sort of `column` leads to. */
  function Step(sortState: SortState, column: string): SortState
  {
    SortState(Some(column), NextDirection(sortState, column))
  }

  /** A click on a sortable column takes one step; any other click changes nothing. */
  lemma ClickIsStep(s: SortState, column: string)
    ensures IsSortable(column) ==> Click(s, column) == Step(s, column)
    ensures !IsSortable(column) ==> Click(s, column) == s
  {
  }

  /** The transitions of one step: another column starts at `asc`; on the sorted column
      `asc` goes to `desc`, `desc` to none and none to `asc`. */
  lemma StepTransitions(s: SortState, column: string)
    ensures s.column != Some(column) ==> Step(s, column) == SortState(Some(column), Some(Asc))
    ensures s.column == Some(column) ==>
      Step(s, column) == SortState(Some(column),
        if s.direction == Some(Asc) then Some(Desc) else if s.direction == Some(Desc) then None else Some(Asc))
  {
  }

  /** Three clicks on the sorted sortable column bring back the starting direction;
      from any other column, the first click sorts ascending and the cycle starts there. */
  lemma ThreeClicksCycle(s: SortState, column: string)
    requires IsSortable(column)
    ensures s.column == Some(column) ==> Click(Click(Click(s, column), column), column) == s
    ensures s.column != Some(column) ==>
      var t := Click(s, column);
      t.direction == Some(Asc) && Click(Click(Click(t, column), column), column) == t
  {
    var t1 := Step(s, column);
    var t2 := Step(t1, column);
    var t3 := Step(t2, column);
    ClickIsStep(s, column);
    ClickIsStep(t1, column);
    ClickIsStep(t2, column);
    ClickIsStep(t3, column);
    if s.column == Some(column) {
      StepThrice(s, column);
    } else {
      StepThrice(t1, column);
    }
  }

  /** On the sorted column, three steps go round the cycle once. */
  lemma StepThrice(s: SortState, column: string)
    requires s.column == Some(column)
    ensures Step(Step(Step(s, column), column), column) == s
  {
  }

  /** The column is the one the sort state names. */
  predicate IsActive(column: Column, sortState: SortState)
  {
    sortState.column == Some(column.key)
  }

  /** `getSortAriaLabel` of a sortable column. */
  function SortAriaLabel(column: Column, sortState: SortState): string
  {
    var sortDirection := if IsActive(column, sortState) then sortState.direction else None;
    if !IsActive(column, sortState) then "Sort by " + column.heading + " ascending"
    else if sortDirection == Some(Asc) then "Sort by " + column.heading + " descending"
    else if sortDirection == Some(Desc) then "Remove " + column.heading + " sorting"
    else "Sort by " + column.heading
  }

  /** The label that names a direction a click will ask for. */
  function ActionLabel(heading: string, next: Option<SortDirection>): string
  {
    match next
    case Some(Asc) => "Sort by " + heading + " ascending"
    case Some(Desc) => "Sort by " + heading + " descending"
    case None => "Remove " + heading + " sorting"
  }

  /** The sort label announces what the next click does, except on the sorted column
      with no direction, where it says only "Sort by" the column (the click sorts
      ascending). */
  lemma SortAriaLabelNamesNextAction(column: Column, sortState: SortState)
    requires column in Columns && column.sortable
    ensures IsActive(column, sortState) && sortState.direction.None? ==>
      SortAriaLabel(column, sortState) == "Sort by " + column.heading
      && NextDirection(sortState, column.key) == Some(Asc)
    ensures !(IsActive(column, sortState) && sortState.direction.None?) ==>
      SortAriaLabel(column, sortState) == ActionLabel(column.heading, NextDirection(sortState, column.key))
  {
  }

  /** The `aria-label` of a header cell. */
  function AriaLabel(column: Column, sortState: SortState): string
  {
    if column.sortable then SortAriaLabel(column, sortState) else column.ariaLabel
  }

  /** The `aria-sort` of a header cell: only the sorted sortable column has one. */
  function AriaSort(column: Column, sortState: SortState): (r: Option<string>)
    ensures r.Some? <==> column.sortable && IsActive(column, sortState)
  {
    if column.sortable && IsActive(column, sortState) then
      Some(if sortState.direction == Some(Asc) then "ascending"
        else if sortState.direction == Some(Desc) then "descending"
        else "none")
    else None
  }

  /** `aria-sort` names the sorted column's direction: ascending, descending or none. */
  lemma AriaSortValues(column: Column, sortState: SortState)
    requires column.sortable && IsActive(column, sortState)
    ensures AriaSort(column, sortState) == Some(match sortState.direction
      case Some(Asc) => "ascending"
      case Some(Desc) => "descending"
      case None => "none")
  {
  }

  /** `getSelectAllAriaLabel` */
  function SelectAllAriaLabel(selection: SelectionState): string
  {
    if selection.isAllSelected then "Deselect all characters"
    else if selection.isIndeterminate then "Select all characters (some currently selected)"
    else "Select all characters"
  }

  /** The select-all label offers to deselect exactly when all are selected, and
      mentions a partial selection exactly when the selection is indeterminate and not
      all-selected. */
  lemma SelectAllAriaLabelCases(selection: SelectionState)
    ensures SelectAllAriaLabel(selection) == "Deselect all characters" <==> selection.isAllSelected
    ensures SelectAllAriaLabel(selection) == "Select all characters (some currently selected)"
      <==> !selection.isAllSelected && selection.isIndeterminate
    ensures SelectAllAriaLabel(selection) == "Select all characters"
      <==> !selection.isAllSelected && !selection.isIndeterminate
  {
  }
}
