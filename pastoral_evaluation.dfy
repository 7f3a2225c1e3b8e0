/** The AGM-maturity evaluation (components/PastoralEvaluation.tsx): for every
    active cell leader and tribe chief, the number of direct disciples, how
    many of them are mature for the annual general meeting, and the size of
    the lineage, listed under a search and a column sort the user toggles.
    The current year comes from the clock and is a parameter here. */
module PastoralEvaluation {
  import opened Text
  import opened Seqs
  import opened Domain

  // ---------------------------------------------------------------------------
  // The evaluation window

  /** `${currentYear}-01-01` */
  function WindowStart(year: int): string
  {
    IntToString(year) + "-01-01"
  }

  /** `${currentYear}-10-01` */
  function WindowEnd(year: int): string
  {
    IntToString(year) + "-10-01"
  }

  /** `isRecent`: a non-empty date string between the two window ends,
      both included, in string order. */
  predicate IsRecent(date: Option<string>, year: int)
  {
    Truthy(date) && LexLe(WindowStart(year), date.value) && LexLe(date.value, WindowEnd(year))
  }

  /** Both ends of the window are recent, an absent or empty date never is,
      and every recent date string begins with the year and a hyphen. */
  lemma IsRecentWindow(year: int, date: Option<string>)
    ensures IsRecent(Some(WindowStart(year)), year) && IsRecent(Some(WindowEnd(year)), year)
    ensures date.None? || date == Some("") ==> !IsRecent(date, year)
    ensures IsRecent(date, year) ==> StartsWith(date.value, IntToString(year) + "-")
  {
    var y := IntToString(year) + "-";
    var a, b := WindowStart(year), WindowEnd(year);
    assert a == y + "01-01" && b == y + "10-01";
    assert a[..|a|] == a && b[..|b|] == b;
    PrefixLexLe(a, a);
    PrefixLexLe(b, b);
    LexLeTotal(a, b);
    if LexLe(b, a) {
      assert b[..|y|] == y && a[..|y|] == y;
      assert a[|y|] == '0' && b[|y|] == '1';
      NoLexLeAfter(y, b, a);
    }
    if IsRecent(date, year) {
      BetweenSharesPrefix(y, "01-01", "10-01", date.value);
    }
  }

  /** Two strings that agree up to a position where the first is larger are
      not in order. */
  lemma {:induction false} NoLexLeAfter(p: string, b: string, a: string)
    requires |p| < |a| && |p| < |b|
    requires b[..|p|] == p && a[..|p|] == p && a[|p|] < b[|p|]
    ensures !LexLe(b, a)
    decreases |p|
  {
    if p != [] {
      assert b[1..][..|p| - 1] == p[1..] && a[1..][..|p| - 1] == p[1..];
      NoLexLeAfter(p[1..], b[1..], a[1..]);
    }
  }

  /** A date string between two recent ones is recent: the window has no
      holes. */
  lemma IsRecentBetween(year: int, lo: string, mid: string, hi: string)
    requires IsRecent(Some(lo), year) && IsRecent(Some(hi), year)
    requires LexLe(lo, mid) && LexLe(mid, hi)
    ensures IsRecent(Some(mid), year)
  {
    LexLeTransitive(WindowStart(year), lo, mid);
    LexLeTransitive(mid, hi, WindowEnd(year));
  }

  // ---------------------------------------------------------------------------
  // Per-leader statistics

  /** Leaders whose parent is this leader and who hold the cell-leader role. */
  function DirectDisciples(all: seq<Leader>, l: Leader): (r: seq<Leader>)
    ensures forall d :: d in r <==> d in all && d.parentLeaderId == Some(l.id) && CellLeader in d.roles
  {
    Filter(all, (d: Leader) => d.parentLeaderId == Some(l.id) && CellLeader in d.roles)
  }

  /** Mature for the meeting: not ordained, not transferred and not made
      active again within the window. Other status changes, such as a
      suspension, do not count. */
  predicate AgmMature(d: Leader, year: int)
  {
    && !IsRecent(d.ordinationDate, year)
    && !(exists t :: t in d.transfers && IsRecent(Some(t.changeDate), year))
    && !(exists s :: s in d.statusHistory && s.newStatus == Active && IsRecent(Some(s.changeDate), year))
  }

  /** A status record that does not make the leader active never changes
      maturity, whatever its date. */
  lemma AgmMatureIgnoresOtherStatus(d: Leader, s: StatusChange, year: int)
    requires s.newStatus != Active
    ensures AgmMature(d.(statusHistory := [s] + d.statusHistory), year) == AgmMature(d, year)
  {
    var e := d.(statusHistory := [s] + d.statusHistory);
    forall x | x in e.statusHistory && x.newStatus == Active ensures x in d.statusHistory {
    }
  }

  /** A reinstatement dated inside the window makes a disciple immature. */
  lemma AgmMatureReinstated(d: Leader, s: StatusChange, year: int)
    requires s.newStatus == Active && IsRecent(Some(s.changeDate), year)
    ensures !AgmMature(d.(statusHistory := [s] + d.statusHistory), year)
  {
    assert s in ([s] + d.statusHistory);
  }

  function AgmDisciples(all: seq<Leader>, l: Leader, year: int): (r: seq<Leader>)
    ensures forall d :: d in r <==> d in DirectDisciples(all, l) && AgmMature(d, year)
  {
    Filter(DirectDisciples(all, l), (d: Leader) => AgmMature(d, year))
  }

  /** `leaders.filter(l => l.mgCode.startsWith(leader.mgCode))` */
  function Lineage(all: seq<Leader>, l: Leader): (r: seq<Leader>)
    ensures forall x :: x in r <==> x in all && InLineage(x.mgCode, l.mgCode)
  {
    Filter(all, (x: Leader) => InLineage(x.mgCode, l.mgCode))
  }

  datatype Stats = Stats(directCount: nat, agmCount: nat, totalCount: nat)

  /** `getLeaderStats` */
  function StatsOf(all: seq<Leader>, l: Leader, year: int): (r: Stats)
    ensures r.agmCount <= r.directCount
    ensures l in all ==> r.totalCount >= 1
  {
    var ds := DirectDisciples(all, l);
    var ags := AgmDisciples(all, l, year);
    LineageHoldsSelf(all, l);
    Stats(|ds|, |ags|, |Lineage(all, l)|)
  }

  /** The lineage count includes the leader itself. */
  lemma LineageHoldsSelf(all: seq<Leader>, l: Leader)
    ensures l in all ==> l in Lineage(all, l) && |Lineage(all, l)| >= 1
  {
    SelfInLineage(l.mgCode);
  }

  /** The AGM disciples are a sub-list of the direct disciples, so the AGM
      count never exceeds the direct count, with equality exactly when every
      direct disciple is mature. */
  lemma AgmCountBound(all: seq<Leader>, l: Leader, year: int)
    ensures StatsOf(all, l, year).agmCount <= StatsOf(all, l, year).directCount
    ensures (forall d :: d in DirectDisciples(all, l) ==> AgmMature(d, year)) ==>
      StatsOf(all, l, year).agmCount == StatsOf(all, l, year).directCount
  {
    var ds := DirectDisciples(all, l);
    if forall d :: d in ds ==> AgmMature(d, year) {
      FilterAll(ds, (d: Leader) => AgmMature(d, year));
    }
  }

  // ---------------------------------------------------------------------------
  // The listing

  /** A listed leader with the figures computed for it. */
  datatype Row = Row(leader: Leader, displayName: string, stats: Stats)

  /** Active leaders holding the cell-leader or tribe-chief role. */
  predicate Evaluated(l: Leader)
  {
    l.status == Active && IsLeadingRole(l)
  }

  function RowOf(all: seq<Leader>, l: Leader, year: int): Row
  {
    Row(l, DisplayName(l), StatsOf(all, l, year))
  }

  function RowsOf(all: seq<Leader>, ls: seq<Leader>, year: int): (r: seq<Row>)
    ensures |r| == |ls| && forall i :: 0 <= i < |ls| ==> r[i] == RowOf(all, ls[i], year)
  {
    if ls == [] then [] else [RowOf(all, ls[0], year)] + RowsOf(all, ls[1..], year)
  }

  /** The search looks in "displayName mgCode", ignoring case. */
  predicate Matches(row: Row, q: string)
  {
    ContainsIgnoreCase(row.displayName + " " + row.leader.mgCode, q)
  }

  /** The rows before sorting, in the order of the stored leaders. */
  function MatchingRows(all: seq<Leader>, q: string, year: int): seq<Row>
  {
    Filter(RowsOf(all, Filter(all, Evaluated), year), (row: Row) => Matches(row, q))
  }

  datatype SortKey = MgCodeKey | DisplayNameKey | OrdinationDateKey | DirectCountKey | AgmCountKey | TotalCountKey
  datatype Direction = Asc | Desc
  datatype SortConfig = SortConfig(key: SortKey, direction: Direction)

  /** The screen opens sorted by MG code, ascending. */
  const InitialSort: SortConfig := SortConfig(MgCodeKey, Asc)

  /** `requestSort`: the same key again flips an ascending sort to
      descending; anything else sorts ascending by the requested key. */
  function RequestSort(prev: SortConfig, key: SortKey): SortConfig
  {
    SortConfig(key, if prev.key == key && prev.direction == Asc then Desc else Asc)
  }

  /** Requesting a key sorts by it, and requesting it again turns the
      direction round; a new key always starts ascending. */
  lemma RequestSortToggles(prev: SortConfig, key: SortKey)
    ensures RequestSort(prev, key).key == key
    ensures prev.key != key ==> RequestSort(prev, key).direction == Asc
    ensures RequestSort(RequestSort(prev, key), key).key == key
    ensures RequestSort(RequestSort(prev, key), key).direction != RequestSort(prev, key).direction
  {
  }

  /** `valA <= valB` on the chosen column. An absent ordination date is
      compared as the empty string. */
  predicate KeyLe(k: SortKey, a: Row, b: Row)
  {
    match k
    case MgCodeKey => LexLe(a.leader.mgCode, b.leader.mgCode)
    case DisplayNameKey => LexLe(a.displayName, b.displayName)
    case OrdinationDateKey => LexLe(OrEmpty(a.leader.ordinationDate), OrEmpty(b.leader.ordinationDate))
    case DirectCountKey => a.stats.directCount <= b.stats.directCount
    case AgmCountKey => a.stats.agmCount <= b.stats.agmCount
    case TotalCountKey => a.stats.totalCount <= b.stats.totalCount
  }

  /** The order the comparator sorts by. */
  function RowOrder(c: SortConfig): (Row, Row) -> bool
  {
    (a: Row, b: Row) => if c.direction == Asc then KeyLe(c.key, a, b) else KeyLe(c.key, b, a)
  }

  lemma KeyLeTotal(k: SortKey, a: Row, b: Row)
    ensures KeyLe(k, a, b) || KeyLe(k, b, a)
  {
    match k
    case MgCodeKey => LexLeTotal(a.leader.mgCode, b.leader.mgCode);
    case DisplayNameKey => LexLeTotal(a.displayName, b.displayName);
    case OrdinationDateKey => LexLeTotal(OrEmpty(a.leader.ordinationDate), OrEmpty(b.leader.ordinationDate));
    case _ =>
  }

  lemma KeyLeTransitive(k: SortKey, a: Row, b: Row, c: Row)
    requires KeyLe(k, a, b) && KeyLe(k, b, c)
    ensures KeyLe(k, a, c)
  {
    match k
    case MgCodeKey => LexLeTransitive(a.leader.mgCode, b.leader.mgCode, c.leader.mgCode);
    case DisplayNameKey => LexLeTransitive(a.displayName, b.displayName, c.displayName);
    case OrdinationDateKey =>
      LexLeTransitive(OrEmpty(a.leader.ordinationDate), OrEmpty(b.leader.ordinationDate), OrEmpty(c.leader.ordinationDate));
    case _ =>
  }

  lemma RowOrderPreorder(c: SortConfig)
    ensures TotalPreorder(RowOrder(c))
  {
    var le := RowOrder(c);
    forall a, b ensures le(a, b) || le(b, a) {
      KeyLeTotal(c.key, a, b);
    }
    forall a, b, x | le(a, b) && le(b, x) ensures le(a, x) {
      if c.direction == Asc {
        KeyLeTransitive(c.key, a, b, x);
      } else {
        KeyLeTransitive(c.key, x, b, a);
      }
    }
  }

  /** `processedData` */
  function Processed(all: seq<Leader>, q: string, c: SortConfig, year: int): seq<Row>
  {
    SortBy(MatchingRows(all, q, year), RowOrder(c))
  }

  /** The rows built for a list of leaders are exactly those leaders' rows. */
  lemma RowsOfMembers(all: seq<Leader>, ls: seq<Leader>, year: int)
    ensures forall row :: row in RowsOf(all, ls, year) <==> row.leader in ls && row == RowOf(all, row.leader, year)
  {
    var rs := RowsOf(all, ls, year);
    forall row ensures row in rs <==> row.leader in ls && row == RowOf(all, row.leader, year) {
      if row in rs {
        var i :| 0 <= i < |rs| && rs[i] == row;
        assert ls[i] in ls;
      }
      if row.leader in ls && row == RowOf(all, row.leader, year) {
        var i :| 0 <= i < |ls| && ls[i] == row.leader;
        assert rs[i] == row;
      }
    }
  }

  /** A row is listed exactly when its leader is a stored, evaluated leader
      matching the search, and the row carries that leader's figures. */
  lemma ProcessedMembers(all: seq<Leader>, q: string, c: SortConfig, year: int)
    ensures forall row :: row in Processed(all, q, c, year) <==>
      row.leader in all && Evaluated(row.leader) && row == RowOf(all, row.leader, year) && Matches(row, q)
  {
    RowsOfMembers(all, Filter(all, Evaluated), year);
    SortByMembers(MatchingRows(all, q, year), RowOrder(c));
  }

  /** The rows are in the order of the chosen column and direction, and rows
      that tie on it keep the order of the stored leaders. */
  lemma ProcessedOrder(all: seq<Leader>, q: string, c: SortConfig, year: int, x: Row)
    ensures SortedBy(Processed(all, q, c, year), RowOrder(c))
    ensures Ties(Processed(all, q, c, year), RowOrder(c), x) == Ties(MatchingRows(all, q, year), RowOrder(c), x)
  {
    RowOrderPreorder(c);
    SortBySorted(MatchingRows(all, q, year), RowOrder(c));
    SortByStable(MatchingRows(all, q, year), RowOrder(c), x);
  }

  // ---------------------------------------------------------------------------
  // Dates as the table shows them

  /** `formatDate`: "--" for a missing or empty date, "DD/MM/YYYY" for a
      string of three hyphen-separated parts, anything else as it is. */
  function FormatDate(date: Option<string>): string
  {
    if !Truthy(date) then "--"
    else
      var parts := Split(date.value, '-');
      if |parts| == 3 then parts[2] + "/" + parts[1] + "/" + parts[0] else date.value
  }

  /** Three hyphen-free parts joined by hyphens come back day first, and a
      string without a hyphen is shown unchanged. */
  lemma FormatDateParts(y: string, m: string, d: string, other: string)
    requires '-' !in y && '-' !in m && '-' !in d
    requires y != [] && '-' !in other
    ensures FormatDate(Some(y + "-" + m + "-" + d)) == d + "/" + m + "/" + y
    ensures other != "" ==> FormatDate(Some(other)) == other
    ensures FormatDate(None) == "--" && FormatDate(Some("")) == "--"
  {
    var s := y + "-" + m + "-" + d;
    SplitJoin([y, m, d], '-');
    assert Join([m, d], "-") == m + "-" + d by {
      assert [m, d][1..] == [d];
    }
    assert Join([y, m, d], "-") == y + "-" + Join([m, d], "-") by {
      assert [y, m, d][1..] == [m, d];
    }
    assert y + "-" + (m + "-" + d) == s;
    assert s != "";
    assert IndexOf(other, '-') == |other|;
  }
}
