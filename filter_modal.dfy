/** The filter sheet: a local copy of the filters, edited per filter kind,
    reset from the configuration, and handed back only on "Apply". */
module FilterModal {
  import opened Wrappers
  import opened JsArray
  import opened CalendarDate

  /** The kinds of filter a configuration entry can declare. */
  datatype FilterKind = Select | SingleDate | DateRange | Text | MultiSelect | PriceRange

  /** An option's value: the options carry strings or numbers. */
  datatype Atom = Str(s: string) | Num(n: real)

  /** One entry of `filterConfig` (label, options and placeholder only
      affect what is drawn). */
  datatype FilterConfig = FilterConfig(key: string, kind: FilterKind)

  /** A value stored under a filter key. */
  datatype FilterValue =
    | Null
    | Chosen(option: Atom)
    | Typed(text: string)
    | OnDay(date: Date)
    | Dates(start: Option<Date>, end: Option<Date>)
    | Prices(min: Option<real>, max: Option<real>)
    | Selection(values: seq<Atom>)

  /** The filters object: a key that is absent reads as `undefined`. */
  type Filters = map<string, FilterValue>

  /** `handleFilterChange(key, value)`: `{ ...prev, [key]: value }`. */
  function WithFilter(filters: Filters, key: string, value: FilterValue): (r: Filters)
    ensures key in r && r[key] == value
    ensures r.Keys == filters.Keys + {key}
    ensures forall k :: k in filters && k != key ==> r[k] == filters[k]
  {
    filters[key := value]
  }

  /** What reset stores for a filter of kind `kind`. */
  function ResetValue(kind: FilterKind): (r: FilterValue)
    ensures kind == DateRange <==> r == Dates(None, None)
    ensures kind == PriceRange <==> r == Prices(None, None)
    ensures kind == MultiSelect <==> r == Selection([])
    ensures kind in {Select, SingleDate, Text} <==> r == Null
  {
    match kind
    case DateRange => Dates(None, None)
    case PriceRange => Prices(None, None)
    case MultiSelect => Selection([])
    case _ => Null
  }

  /** The filters after reset, entry by entry; a later entry with the same
      key overwrites an earlier one. */
  function ResetFilters(configs: seq<FilterConfig>): Filters
    decreases |configs|
  {
    if configs == [] then map[]
    else
      var last := configs[|configs| - 1];
      ResetFilters(configs[..|configs| - 1])[last.key := ResetValue(last.kind)]
  }

  /** The keys after reset are exactly the configured keys. */
  lemma {:induction false} ResetKeys(configs: seq<FilterConfig>)
    ensures ResetFilters(configs).Keys == set i | 0 <= i < |configs| :: configs[i].key
  {
    if configs != [] {
      var init := configs[..|configs| - 1];
      ResetKeys(init);
      assert forall i :: 0 <= i < |init| ==> init[i] == configs[i];
    }
  }

  /** Each key holds the reset value of the last entry with that key. */
  lemma {:induction false} ResetValues(configs: seq<FilterConfig>, i: int)
    requires 0 <= i < |configs|
    requires forall j :: i < j < |configs| ==> configs[j].key != configs[i].key
    ensures configs[i].key in ResetFilters(configs)
    ensures ResetFilters(configs)[configs[i].key] == ResetValue(configs[i].kind)
  {
    var init := configs[..|configs| - 1];
    if i < |configs| - 1 {
      assert init[i] == configs[i];
      ResetValues(init, i);
    }
  }

  /** `handleReset`'s `forEach`: one assignment per configuration entry. */
  method BuildResetFilters(filterConfig: seq<FilterConfig>) returns (resetFilters: Filters)
    ensures resetFilters == ResetFilters(filterConfig)
  {
    resetFilters := map[];
    var i := 0;
    while i < |filterConfig|
      invariant 0 <= i <= |filterConfig|
      invariant resetFilters == ResetFilters(filterConfig[..i])
    {
      var config := filterConfig[i];
      if config.kind == DateRange {
        resetFilters := resetFilters[config.key := Dates(None, None)];
      } else if config.kind == PriceRange {
        resetFilters := resetFilters[config.key := Prices(None, None)];
      } else if config.kind == MultiSelect {
        resetFilters := resetFilters[config.key := Selection([])];
      } else {
        resetFilters := resetFilters[config.key := Null];
      }
      assert filterConfig[..i + 1][..i] == filterConfig[..i];
      i := i + 1;
    }
    assert filterConfig[..i] == filterConfig;
  }

  /** The value stored under `key`, `None` when the key is absent. */
  function Lookup(filters: Filters, key: string): Option<FilterValue> {
    if key in filters then Some(filters[key]) else None
  }

  /** `value || []` for a multi-select: the stored selection, or nothing. */
  function CurrentSelection(value: Option<FilterValue>): (r: seq<Atom>)
    ensures value.Some? && value.value.Selection? ==> r == value.value.values
    ensures !(value.Some? && value.value.Selection?) ==> r == []
  {
    if value.Some? && value.value.Selection? then value.value.values else []
  }

  /** Pressing an option of a multi-select: a chosen option is removed
      (every occurrence), any other is appended. */
  function ToggleSelection(current: seq<Atom>, option: Atom): (r: seq<Atom>)
    ensures option in r <==> option !in current
    ensures option in current ==> IsSubsequence(r, current)
    ensures forall v :: v != option ==> (v in r <==> v in current)
    ensures option !in current ==> r == current + [option]
    ensures option in current ==> forall v :: v in multiset(current) && v != option ==>
      multiset(r)[v] == multiset(current)[v]
  {
    if option in current then
      FilterCounts(current, v => v != option);
      Filter(current, v => v != option)
    else current + [option]
  }

  /** Toggling never introduces a duplicate. */
  lemma ToggleKeepsDistinct(current: seq<Atom>, option: Atom)
    requires NoDuplicates(current)
    ensures NoDuplicates(ToggleSelection(current, option))
  {
    if option in current {
      FilterNoDuplicates(current, v => v != option);
    } else {
      var r := current + [option];
      forall i, j | 0 <= i < j < |r| ensures r[i] != r[j] {
        if j == |current| {
          assert r[i] == current[i];
        } else {
          assert r[i] == current[i] && r[j] == current[j];
        }
      }
    }
  }

  /** Toggling an option that was not chosen twice gives the list back. */
  lemma ToggleTwiceRestores(current: seq<Atom>, option: Atom)
    requires option !in current
    ensures ToggleSelection(ToggleSelection(current, option), option) == current
  {
    var p := (v: Atom) => v != option;
    FilterAppend(current, [option], p);
    FilterKeepsAll(current, p);
    assert Filter([option], p) == [];
  }

  /** Picking the start day of a date range keeps its end
      (`{ ...value, start: date }`; spreading a missing value adds nothing). */
  function WithRangeStart(value: Option<FilterValue>, date: Date): (r: FilterValue)
    ensures r.Dates? && r.start == Some(date)
    ensures value.Some? && value.value.Dates? ==> r.end == value.value.end
    ensures !(value.Some? && value.value.Dates?) ==> r.end == None
  {
    if value.Some? && value.value.Dates? then value.value.(start := Some(date)) else Dates(Some(date), None)
  }

  /** Picking the end day of a date range keeps its start. */
  function WithRangeEnd(value: Option<FilterValue>, date: Date): (r: FilterValue)
    ensures r.Dates? && r.end == Some(date)
    ensures value.Some? && value.value.Dates? ==> r.start == value.value.start
    ensures !(value.Some? && value.value.Dates?) ==> r.start == None
  {
    if value.Some? && value.value.Dates? then value.value.(end := Some(date)) else Dates(None, Some(date))
  }

  /** `parseFloat(text) || null`: `parsed` is what `parseFloat` gives
      (`None` for NaN); zero is falsy and becomes null too. */
  function PriceInput(parsed: Option<real>): (r: Option<real>)
    ensures r == None <==> parsed == None || parsed == Some(0.0)
    ensures r != None ==> r == parsed
  {
    if parsed.Some? && parsed.value != 0.0 then parsed else None
  }

  /** Typing the lower price bound keeps the upper one. */
  function WithPriceMin(value: Option<FilterValue>, parsed: Option<real>): (r: FilterValue)
    ensures r.Prices? && r.min == PriceInput(parsed)
    ensures value.Some? && value.value.Prices? ==> r.max == value.value.max
    ensures !(value.Some? && value.value.Prices?) ==> r.max == None
  {
    if value.Some? && value.value.Prices? then value.value.(min := PriceInput(parsed))
    else Prices(PriceInput(parsed), None)
  }

  /** Typing the upper price bound keeps the lower one. */
  function WithPriceMax(value: Option<FilterValue>, parsed: Option<real>): (r: FilterValue)
    ensures r.Prices? && r.max == PriceInput(parsed)
    ensures value.Some? && value.value.Prices? ==> r.min == value.value.min
    ensures !(value.Some? && value.value.Prices?) ==> r.min == None
  {
    if value.Some? && value.value.Prices? then value.value.(max := PriceInput(parsed))
    else Prices(None, PriceInput(parsed))
  }

  /** The sheet's state: the configuration and the local copy of the filters. */
  class FilterPanel {
    const filterConfig: seq<FilterConfig>
    var localFilters: Filters

    /** The local copy starts as the filters passed in. */
    constructor (filters: Filters, filterConfig: seq<FilterConfig>)
      ensures this.filterConfig == filterConfig && localFilters == filters
    {
      this.filterConfig := filterConfig;
      localFilters := filters;
    }

    method HandleFilterChange(key: string, value: FilterValue)
      modifies this
      ensures localFilters == WithFilter(old(localFilters), key, value)
    {
      localFilters := localFilters[key := value];
    }

    /** "Reset": whatever was there, the filters become the reset values of
        the configuration. */
    method HandleReset()
      modifies this
      ensures localFilters == ResetFilters(filterConfig)
    {
      var resetFilters := BuildResetFilters(filterConfig);
      localFilters := resetFilters;
    }

    /** "All" in a select, and the clear button of a single date. */
    method ClearFilter(key: string)
      modifies this
      ensures localFilters == WithFilter(old(localFilters), key, Null)
    {
      HandleFilterChange(key, Null);
    }

    /** An option of a select. */
    method ChooseOption(key: string, option: Atom)
      modifies this
      ensures localFilters == WithFilter(old(localFilters), key, Chosen(option))
    {
      HandleFilterChange(key, Chosen(option));
    }

    /** An option of a multi-select. */
    method ToggleOption(key: string, option: Atom)
      modifies this
      ensures localFilters ==
        WithFilter(old(localFilters), key, Selection(ToggleSelection(CurrentSelection(Lookup(old(localFilters), key)), option)))
    {
      var currentValues := CurrentSelection(Lookup(localFilters, key));
      var newValues := ToggleSelection(currentValues, option);
      HandleFilterChange(key, Selection(newValues));
    }

    /** The day of a single-date filter. */
    method ChooseDate(key: string, date: Date)
      modifies this
      ensures localFilters == WithFilter(old(localFilters), key, OnDay(date))
    {
      HandleFilterChange(key, OnDay(date));
    }

    method ChooseRangeStart(key: string, date: Date)
      modifies this
      ensures localFilters == WithFilter(old(localFilters), key, WithRangeStart(Lookup(old(localFilters), key), date))
    {
      HandleFilterChange(key, WithRangeStart(Lookup(localFilters, key), date));
    }

    method ChooseRangeEnd(key: string, date: Date)
      modifies this
      ensures localFilters == WithFilter(old(localFilters), key, WithRangeEnd(Lookup(old(localFilters), key), date))
    {
      HandleFilterChange(key, WithRangeEnd(Lookup(localFilters, key), date));
    }

    /** The clear button of a date range. */
    method ClearDateRange(key: string)
      modifies this
      ensures localFilters == WithFilter(old(localFilters), key, Dates(None, None))
    {
      HandleFilterChange(key, Dates(None, None));
    }

    method TypePriceMin(key: string, parsed: Option<real>)
      modifies this
      ensures localFilters == WithFilter(old(localFilters), key, WithPriceMin(Lookup(old(localFilters), key), parsed))
    {
      HandleFilterChange(key, WithPriceMin(Lookup(localFilters, key), parsed));
    }

    method TypePriceMax(key: string, parsed: Option<real>)
      modifies this
      ensures localFilters == WithFilter(old(localFilters), key, WithPriceMax(Lookup(old(localFilters), key), parsed))
    {
      HandleFilterChange(key, WithPriceMax(Lookup(localFilters, key), parsed));
    }

    /** The clear button of a price range. */
    method ClearPriceRange(key: string)
      modifies this
      ensures localFilters == WithFilter(old(localFilters), key, Prices(None, None))
    {
      HandleFilterChange(key, Prices(None, None));
    }

    /** Typing in a text filter. */
    method TypeText(key: string, text: string)
      modifies this
      ensures localFilters == WithFilter(old(localFilters), key, Typed(text))
    {
      HandleFilterChange(key, Typed(text));
    }

    /** "Apply": the local filters go to `onFiltersChange` unchanged (returned
        in `applied`), then the parent is asked to close the sheet (`onClose`,
        returned in `closes`). */
    method HandleApply() returns (applied: Filters, closes: bool)
      ensures applied == localFilters && closes
    {
      applied := localFilters;
      closes := true;
    }

    /** The close icon and "Cancel": the sheet closes and nothing is handed
        to `onFiltersChange` (`applied` is `None`). The method changes no
        state: the edits stay in `localFilters` and are shown again when the
        sheet reopens, since the sheet stays mounted while hidden. */
    method Cancel() returns (applied: Option<Filters>, closes: bool)
      ensures applied == None && closes
    {
      applied := None;
      closes := true;
    }
  }
}
