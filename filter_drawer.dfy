/** The filter drawer of the leader directory (components/FilterDrawer.tsx):
    three lists of chosen values, each value switched on and off by a tap, and
    a reset that clears them all. */
module FilterDrawer {
  import opened Seqs
  import opened Domain

  /** A value the drawer offers, tagged with the list it belongs to. */
  datatype FilterValue = GenerationValue(generation: int) | ZoneValue(zone: Zone) | DayValue(day: Weekday)

  /** The filters after `toggleFilter(category, value)`: the value's own list
      gains it if absent and loses every copy if present. */
  function Toggle(f: FilterState, v: FilterValue): FilterState
  {
    match v
    case GenerationValue(g) => f.(generations := Toggled(f.generations, g))
    case ZoneValue(z) => f.(zones := Toggled(f.zones, z))
    case DayValue(d) => f.(days := Toggled(f.days, d))
  }

  /** `isSelected(category, value)` */
  predicate IsSelected(f: FilterState, v: FilterValue)
  {
    match v
    case GenerationValue(g) => g in f.generations
    case ZoneValue(z) => z in f.zones
    case DayValue(d) => d in f.days
  }

  /** A toggle flips the selection of its value, leaves every other value's
      selection alone, and never touches the other two lists. */
  lemma ToggleSpec(f: FilterState, v: FilterValue, w: FilterValue)
    ensures IsSelected(Toggle(f, v), v) <==> !IsSelected(f, v)
    ensures w != v ==> (IsSelected(Toggle(f, v), w) <==> IsSelected(f, w))
    ensures v.GenerationValue? ==> Toggle(f, v).zones == f.zones && Toggle(f, v).days == f.days
    ensures v.ZoneValue? ==> Toggle(f, v).generations == f.generations && Toggle(f, v).days == f.days
    ensures v.DayValue? ==> Toggle(f, v).generations == f.generations && Toggle(f, v).zones == f.zones
  {
  }

  /** Tapping the same value twice restores every selection. */
  lemma ToggleTwice(f: FilterState, v: FilterValue, w: FilterValue)
    ensures IsSelected(Toggle(Toggle(f, v), v), w) <==> IsSelected(f, w)
  {
    ToggleSpec(f, v, w);
    ToggleSpec(Toggle(f, v), v, w);
  }

  /** Lists without repeats stay without repeats, so each list's length is
      the number of values chosen in it. */
  predicate Distinct(f: FilterState)
  {
    NoDup(f.generations) && NoDup(f.zones) && NoDup(f.days)
  }

  /** The number of chosen values: one more after choosing a value, one
      fewer after dropping it. */
  function ChosenCount(f: FilterState): nat
  {
    |f.generations| + |f.zones| + |f.days|
  }

  lemma ToggleChosenCount(f: FilterState, v: FilterValue)
    requires Distinct(f)
    ensures Distinct(Toggle(f, v))
    ensures ChosenCount(Toggle(f, v)) == if IsSelected(f, v) then ChosenCount(f) - 1 else ChosenCount(f) + 1
  {
    match v
    case GenerationValue(g) => ToggleCount(f.generations, g);
    case ZoneValue(z) => ToggleCount(f.zones, z);
    case DayValue(d) => ToggleCount(f.days, d);
  }

  const NoFilters: FilterState := FilterState([], [], [])

  /** The drawer's state: the three lists held by the directory page. */
  class FilterPanel {
    var generations: seq<int>
    var zones: seq<Zone>
    var days: seq<Weekday>

    function State(): FilterState
      reads this
    {
      FilterState(generations, zones, days)
    }

    constructor (initial: FilterState)
      ensures State() == initial
    {
      generations := initial.generations;
      zones := initial.zones;
      days := initial.days;
    }

    /** `toggleFilter` */
    method ToggleFilter(v: FilterValue)
      modifies this
      ensures State() == Toggle(old(State()), v)
    {
      match v
      case GenerationValue(g) =>
        if g in generations {
          generations := Without(generations, g);
        } else {
          generations := generations + [g];
        }
      case ZoneValue(z) =>
        if z in zones {
          zones := Without(zones, z);
        } else {
          zones := zones + [z];
        }
      case DayValue(d) =>
        if d in days {
          days := Without(days, d);
        } else {
          days := days + [d];
        }
    }

    /** "Reset All" */
    method Reset()
      modifies this
      ensures State() == NoFilters
    {
      generations, zones, days := [], [], [];
    }
  }
}
