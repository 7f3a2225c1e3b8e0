/** The descendant directory (components/LeaderList.tsx): the leaders below
    the signed-in leader, narrowed by a search and by the drawer's filters
    and listed in MG-code order. */
module LeaderList {
  import opened Text
  import opened Seqs
  import opened Domain
  import opened Orders
  import FilterDrawer

  /** `${chineseName || ''} ${firstName || ''} ${lastName || ''}` */
  function FullName(l: Leader): string
  {
    OrEmpty(l.chineseName) + " " + OrEmpty(l.firstName) + " " + OrEmpty(l.lastName)
  }

  predicate MatchesSearch(l: Leader, q: string)
  {
    ContainsIgnoreCase(FullName(l), q) || ContainsIgnoreCase(l.mgCode, q)
  }

  /** Each non-empty filter list must be met: the generation is listed, and
      some group of the leader, soft-deleted or not, is in a listed zone and
      on a listed day. */
  predicate PassesFilters(l: Leader, f: FilterState)
  {
    && (|f.generations| > 0 ==> l.generation in f.generations)
    && (|f.zones| > 0 ==> exists g :: g in l.groups && g.pastorZoneId in f.zones)
    && (|f.days| > 0 ==> exists g :: g in l.groups && g.groupDay in f.days)
  }

  predicate Listed(l: Leader, user: Leader, q: string, f: FilterState)
  {
    StrictDescendant(l.mgCode, user.mgCode) && MatchesSearch(l, q) && PassesFilters(l, f)
  }

  /** `filteredLeaders` */
  function FilteredLeaders(leaders: seq<Leader>, user: Leader, q: string, f: FilterState): seq<Leader>
  {
    var descendants := Filter(leaders, (l: Leader) => StrictDescendant(l.mgCode, user.mgCode));
    SortBy(Filter(descendants, (l: Leader) => MatchesSearch(l, q) && PassesFilters(l, f)), ByMgCode)
  }

  /** The list holds exactly the stored strict descendants that match the
      search and the filters, each as often as it is stored, in MG-code
      order, leaders with equal codes in stored order; the signed-in leader
      is never on it. */
  lemma FilteredLeadersSpec(leaders: seq<Leader>, user: Leader, q: string, f: FilterState)
    ensures forall l :: l in FilteredLeaders(leaders, user, q, f) <==> l in leaders && Listed(l, user, q, f)
    ensures multiset(FilteredLeaders(leaders, user, q, f))
         == multiset(Filter(leaders, (l: Leader) => Listed(l, user, q, f)))
    ensures SortedBy(FilteredLeaders(leaders, user, q, f), ByMgCode)
    ensures forall x :: Ties(FilteredLeaders(leaders, user, q, f), ByMgCode, x)
                     == Ties(Filter(leaders, (l: Leader) => Listed(l, user, q, f)), ByMgCode, x)
    ensures user !in FilteredLeaders(leaders, user, q, f)
  {
    var descendants := Filter(leaders, (l: Leader) => StrictDescendant(l.mgCode, user.mgCode));
    var kept := Filter(descendants, (l: Leader) => MatchesSearch(l, q) && PassesFilters(l, f));
    FilterFilter(leaders, (l: Leader) => StrictDescendant(l.mgCode, user.mgCode),
                 (l: Leader) => MatchesSearch(l, q) && PassesFilters(l, f),
                 (l: Leader) => Listed(l, user, q, f));
    SortByMembers(kept, ByMgCode);
    ByMgCodePreorder();
    SortBySorted(kept, ByMgCode);
    forall x ensures Ties(SortBy(kept, ByMgCode), ByMgCode, x) == Ties(kept, ByMgCode, x) {
      SortByStable(kept, ByMgCode, x);
    }
  }

  /** Empty filters and an empty search list every strict descendant. */
  lemma NoFiltersListAll(leaders: seq<Leader>, user: Leader)
    ensures forall l :: l in FilteredLeaders(leaders, user, "", FilterDrawer.NoFilters) <==>
      l in leaders && StrictDescendant(l.mgCode, user.mgCode)
  {
    FilteredLeadersSpec(leaders, user, "", FilterDrawer.NoFilters);
    forall l | l in leaders ensures MatchesSearch(l, "") {
      EmptyIsContained(ToLower(FullName(l)));
    }
  }

  /** A soft-deleted group still lets its leader through the zone and day
      filters. */
  lemma DeletedGroupsCount(l: Leader, f: FilterState, g: Group)
    requires g in l.groups && g.isDeleted
    requires l.generation in f.generations || |f.generations| == 0
    requires g.pastorZoneId in f.zones && g.groupDay in f.days
    ensures PassesFilters(l, f)
  {
  }

  /** `activeFilterCount` */
  function ActiveFilterCount(f: FilterState): (n: nat)
    ensures n == 0 <==> f == FilterDrawer.NoFilters
  {
    |f.generations| + |f.zones| + |f.days|
  }
}
