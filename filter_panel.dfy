/**
 * The filter panel's state rules: multi-select toggling, the dropdown's summary text,
 * the power input's clamp, the active-filter indicator, clearing, and the per-field
 * change handlers.
 */
module FilterPanel {
  import opened Wrappers
  import opened Strings
  import opened JsNumbers
  import opened Seqs
  import opened Types

  /** The test that keeps every value other than `option`. */
  function Other(option: string): string -> bool
  {
    v => v != option
  }

  /** `handleOptionToggle`: drop every occurrence of a selected option, or append an
      unselected one at the end. */
  function HandleOptionToggle(selected: seq<string>, option: string): (r: seq<string>)
    ensures option in selected ==> option !in r && forall x :: x != option ==> (x in r <==> x in selected)
    ensures option !in selected ==> r == selected + [option]
  {
    if option in selected then Keep(selected, Other(option)) else selected + [option]
  }

  /** Toggling flips the option's membership, leaves every other value's membership
      alone, and keeps the other values in their order. */
  lemma ToggleFlips(selected: seq<string>, option: string)
    ensures option in HandleOptionToggle(selected, option) <==> option !in selected
    ensures forall x :: x != option ==> (x in HandleOptionToggle(selected, option) <==> x in selected)
    ensures Keep(HandleOptionToggle(selected, option), Other(option)) == Keep(selected, Other(option))
  {
    if option in selected {
      KeepIdempotent(selected, Other(option));
    } else {
      KeepAppend(selected, [option], Other(option));
      assert Keep([option], Other(option)) == [];
    }
  }

  /** Toggling an unselected option twice restores the selection; toggling a selected
      one twice moves it, once, to the end. */
  lemma ToggleTwice(selected: seq<string>, option: string)
    ensures option !in selected ==>
      HandleOptionToggle(HandleOptionToggle(selected, option), option) == selected
    ensures option in selected ==>
      HandleOptionToggle(HandleOptionToggle(selected, option), option) == Keep(selected, Other(option)) + [option]
  {
    if option !in selected {
      var s := selected + [option];
      KeepAppend(selected, [option], Other(option));
      KeepAll(selected, Other(option));
      assert Keep([option], Other(option)) == [];
      assert HandleOptionToggle(s, option) == Keep(s, Other(option));
    }
  }

  /** The dropdown's summary: the placeholder, the one selected value, or a count. */
  function DisplayText(selected: seq<string>, placeholder: string): string
  {
    if |selected| == 0 then placeholder
    else if |selected| == 1 then selected[0]
    else IntToString(|selected|) + " selected"
  }

  /** With two or more selections the summary starts with the count, which `parseInt`
      reads back. */
  lemma DisplayTextCount(selected: seq<string>, placeholder: string)
    requires |selected| >= 2
    ensures ParseInt(DisplayText(selected, placeholder)) == Num(|selected|)
  {
    var digits := NatToString(|selected|);
    var s := digits + " selected";
    assert DisplayText(selected, placeholder) == s;
    assert s[0] == digits[0] && s[1] == (if |digits| >= 2 then digits[1] else ' ');
    ParseIntDecimalStart(s);
    DecimalPrefixStops(digits, " selected");
    DecimalValueOfNatToString(|selected|);
  }

  lemma {:induction false} DecimalPrefixStops(digits: string, rest: string)
    requires AllDigits(digits)
    requires rest != [] && !IsDigit(rest[0])
    ensures DecimalPrefix(digits + rest) == digits
  {
    if digits != [] {
      assert (digits + rest)[1..] == digits[1..] + rest;
      DecimalPrefixStops(digits[1..], rest);
    } else {
      assert digits + rest == rest;
    }
  }

  /** `handleInputBlur`: `parseInt(text) || 0` clamped to `[0, max]`; the text shown
      afterwards is the clamped value. */
  function HandleInputBlur(localValue: string, max: int): (r: (string, int))
    ensures r.0 == IntToString(r.1)
    ensures max >= 0 ==> 0 <= r.1 <= max
    ensures ParseInt(localValue).NaN? ==> r.1 == (if max < 0 then max else 0)
    ensures ParseInt(localValue).Num? && 0 <= ParseInt(localValue).n <= max ==> r.1 == ParseInt(localValue).n
    ensures ParseInt(localValue).Num? && ParseInt(localValue).n > max ==> r.1 == max
    ensures ParseInt(localValue).Num? && ParseInt(localValue).n < 0 <= max ==> r.1 == 0
  {
    var numValue := match ParseInt(localValue) case Num(n) => n case NaN => 0;
    var atLeastZero := if numValue > 0 then numValue else 0;
    var clampedValue := if atLeastZero < max then atLeastZero else max;
    (IntToString(clampedValue), clampedValue)
  }

  /** Blurring again after a blur changes nothing. */
  lemma BlurIdempotent(localValue: string, max: int)
    ensures var (text, value) := HandleInputBlur(localValue, max);
      HandleInputBlur(text, max) == (text, value)
  {
    var (text, value) := HandleInputBlur(localValue, max);
    ParseIntToString(value);
  }

  /** `hasActiveFilters`: some list is non-empty, the name is non-empty, or the power is
      below the options' maximum. */
  predicate HasActiveFilters(filters: FilterState, maxPower: int)
  {
    |filters.location| > 0 || |filters.health| > 0 || |filters.name| > 0 || LessThan(filters.power, maxPower)
  }

  /** The active-filter count: one per selected location and health state, one for a
      name, one for a power bound below the maximum. */
  function ActiveCount(filters: FilterState, maxPower: int): (r: nat)
    ensures r > 0 <==> HasActiveFilters(filters, maxPower)
    ensures r >= |filters.location| + |filters.health|
  {
    |filters.location| + |filters.health| + (if filters.name != "" then 1 else 0)
      + (if LessThan(filters.power, maxPower) then 1 else 0)
  }

  /** `clearFilters`: no list entries, no name, and the power at the maximum. */
  function ClearFilters(maxPower: int): (r: FilterState)
    ensures !HasActiveFilters(r, maxPower) && ActiveCount(r, maxPower) == 0
  {
    FilterState([], [], "", Num(maxPower))
  }

  /** Clearing yields the one filter state with no active filter and the power at the
      maximum. */
  lemma ClearFiltersUnique(f: FilterState, maxPower: int)
    requires !HasActiveFilters(f, maxPower) && f.power == Num(maxPower)
    ensures f == ClearFilters(maxPower)
  {
  }

  /** `handleLocationChange` */
  function WithLocation(filters: FilterState, locations: seq<string>): (r: FilterState)
    ensures r.location == locations
    ensures r.health == filters.health && r.name == filters.name && r.power == filters.power
  {
    filters.(location := locations)
  }

  /** `handleHealthChange` */
  function WithHealth(filters: FilterState, healthStates: seq<string>): (r: FilterState)
    ensures r.health == healthStates
    ensures r.location == filters.location && r.name == filters.name && r.power == filters.power
  {
    filters.(health := healthStates)
  }

  /** `handlePowerChange` */
  function WithPower(filters: FilterState, power: int): (r: FilterState)
    ensures r.power == Num(power)
    ensures r.location == filters.location && r.health == filters.health && r.name == filters.name
  {
    filters.(power := Num(power))
  }

  /** The debounced name effect: report the filters with the new name when it differs. */
  function NameEffect(filters: FilterState, debouncedName: string): (r: Option<FilterState>)
    ensures r.Some? <==> debouncedName != filters.name
    ensures r.Some? ==> r.value.name == debouncedName && r.value.(name := filters.name) == filters
  {
    if debouncedName != filters.name then Some(filters.(name := debouncedName)) else None
  }

  /** The handlers touch disjoint fields, so they commute, and a later change of a field
      overrides an earlier one. */
  lemma HandlersCommute(f: FilterState, locations: seq<string>, healthStates: seq<string>, power: int, other: seq<string>)
    ensures WithHealth(WithLocation(f, locations), healthStates) == WithLocation(WithHealth(f, healthStates), locations)
    ensures WithPower(WithLocation(f, locations), power) == WithLocation(WithPower(f, power), locations)
    ensures WithPower(WithHealth(f, healthStates), power) == WithHealth(WithPower(f, power), healthStates)
    ensures WithLocation(WithLocation(f, other), locations) == WithLocation(f, locations)
  {
  }

  /** The options used before they load. */
  const InitialOptions := FilterOptions([], [], 10000)

  /** The options used when loading them fails. */
  const FallbackOptions := FilterOptions(["Iwa", "Kumo", "Kiri", "Suna", "Konoha"], ["Healthy", "Injured", "Critical"], 10000)

  /** The options the panel shows: the initial ones while loading, then the loaded ones,
      or the fallback when loading failed. */
  function LoadedOptions<E>(loaded: Option<Result<FilterOptions, E>>): (r: FilterOptions)
    ensures loaded.None? ==> r == InitialOptions
    ensures loaded.Some? && loaded.value.Ok? ==> r == loaded.value.value
    ensures loaded.Some? && loaded.value.Err? ==> r == FallbackOptions
    ensures !(loaded.Some? && loaded.value.Ok?) ==> r.maxPower == 10000
  {
    match loaded
    case None => InitialOptions
    case Some(Ok(options)) => options
    case Some(Err(_)) => FallbackOptions
  }
}
