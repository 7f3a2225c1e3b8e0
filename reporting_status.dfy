/** The reporting-delinquency list (components/ReportingStatus.tsx): the
    active cell leaders and tribe chiefs in scope whose latest gathering
    report is missing or older than a threshold date, and the follow-up notes
    an administrator adds to a listed row. Dates are the stored `YYYY-MM-DD`
    strings, compared as strings. */
module ReportingStatus {
  import opened Text
  import opened Seqs
  import opened Domain
  import opened Dates
  import AdminDashboard

  const NeverReported: string := "Never Reported"

  /** The reports of the leader's groups that are not deleted. */
  function LiveReports(l: Leader): seq<Report>
  {
    GroupReports(LiveGroups(l.groups))
  }

  /** The latest date among the reports, walking them in order and keeping
      a date only when it is later than the one kept so far. */
  function LatestDate(rs: seq<Report>): Option<string>
  {
    if rs == [] then None
    else
      var d := rs[|rs| - 1].gatheringDate;
      match LatestDate(rs[..|rs| - 1])
      case None => Some(d)
      case Some(m) => if LexLt(m, d) then Some(d) else Some(m)
  }

  /** There is a latest date exactly when there is a report; it is one of the
      report dates and no report date is later. */
  lemma {:induction false} LatestDateSpec(rs: seq<Report>)
    ensures LatestDate(rs).None? <==> rs == []
    ensures LatestDate(rs).Some? ==>
      && (exists r :: r in rs && r.gatheringDate == LatestDate(rs).value)
      && (forall r :: r in rs ==> LexLe(r.gatheringDate, LatestDate(rs).value))
    decreases |rs|
  {
    if rs != [] {
      var p := rs[..|rs| - 1];
      var last := rs[|rs| - 1];
      LatestDateSpec(p);
      assert rs == p + [last];
      var d := last.gatheringDate;
      assert d[..|d|] == d;
      PrefixLexLe(d, d);
      if LatestDate(p).Some? {
        var m := LatestDate(p).value;
        LexLeTotal(m, d);
        assert m[..|m|] == m;
        PrefixLexLe(m, m);
        assert LatestDate(rs) == if LexLt(m, d) then Some(d) else Some(m);
        forall r | r in rs ensures LexLe(r.gatheringDate, LatestDate(rs).value) {
          if r in p {
            assert LexLe(r.gatheringDate, m);
            if LexLt(m, d) {
              LexLeTransitive(r.gatheringDate, m, d);
            }
          } else {
            assert r == last;
          }
        }
      }
    }
  }

  /** The `latestDate` loop over the reports of the live groups. */
  method LatestReportDate(l: Leader) returns (latest: Option<string>)
    ensures latest == LatestDate(LiveReports(l))
  {
    var rs := LiveReports(l);
    latest := None;
    var i := 0;
    while i < |rs|
      invariant 0 <= i <= |rs|
      invariant latest == LatestDate(rs[..i])
    {
      assert rs[..i + 1][..i] == rs[..i];
      if latest.None? || LexLt(latest.value, rs[i].gatheringDate) {
        latest := Some(rs[i].gatheringDate);
      }
      i := i + 1;
    }
    assert rs[..i] == rs;
  }

  /** `!latestDate || latestDate < threshold` */
  predicate Delinquent(l: Leader, threshold: string)
  {
    var m := LatestDate(LiveReports(l));
    m.None? || LexLt(m.value, threshold)
  }

  /** A leader is delinquent exactly when every report of a live group is
      dated before the threshold; one report on the threshold date or later
      is enough to drop off the list. */
  lemma DelinquentIff(l: Leader, threshold: string)
    ensures Delinquent(l, threshold) <==> forall r :: r in LiveReports(l) ==> LexLt(r.gatheringDate, threshold)
  {
    var rs := LiveReports(l);
    LatestDateSpec(rs);
    if LatestDate(rs).Some? {
      var m := LatestDate(rs).value;
      if LexLt(m, threshold) {
        forall r | r in rs ensures LexLt(r.gatheringDate, threshold) {
          LexLeTransitive(r.gatheringDate, m, threshold);
          if r.gatheringDate == threshold {
            LexLeAntisymmetric(m, threshold);
          }
        }
      }
    }
  }

  /** The text the search looks in: `${chineseName} ${firstName} ${mgCode}`. */
  function SearchText(l: Leader): string
  {
    Shown(l.chineseName) + " " + Shown(l.firstName) + " " + l.mgCode
  }

  /** The filter of `inactiveLeaders`, condition by condition. */
  predicate Candidate(l: Leader, user: Leader, scope: AdminDashboard.Scope, q: string, threshold: string)
  {
    && (scope == AdminDashboard.Lineage ==> InLineage(l.mgCode, user.mgCode))
    && IsLeadingRole(l)
    && l.status == Active
    && ContainsIgnoreCase(SearchText(l), q)
    && Delinquent(l, threshold)
  }

  /** A listed leader with the date shown in the "Last Report" column. */
  datatype Row = Row(leader: Leader, lastReportDate: string)

  function RowOf(l: Leader): (r: Row)
    ensures r.leader == l
    ensures LatestDate(LiveReports(l)).None? ==> r.lastReportDate == NeverReported
    ensures LatestDate(LiveReports(l)).Some? ==> r.lastReportDate == LatestDate(LiveReports(l)).value
  {
    match LatestDate(LiveReports(l))
    case None => Row(l, NeverReported)
    case Some(m) => Row(l, m)
  }

  function RowsOf(ls: seq<Leader>): (r: seq<Row>)
    ensures |r| == |ls| && forall i :: 0 <= i < |ls| ==> r[i] == RowOf(ls[i])
  {
    if ls == [] then [] else [RowOf(ls[0])] + RowsOf(ls[1..])
  }

  /** `(a, b) => a.mgCode.localeCompare(b.mgCode)` on rows. */
  const ByCode: (Row, Row) -> bool := (a: Row, b: Row) => LexLe(a.leader.mgCode, b.leader.mgCode)

  lemma ByCodePreorder()
    ensures TotalPreorder(ByCode)
  {
    forall a: Row, b: Row ensures LexLe(a.leader.mgCode, b.leader.mgCode) || LexLe(b.leader.mgCode, a.leader.mgCode) {
      LexLeTotal(a.leader.mgCode, b.leader.mgCode);
    }
    forall a: Row, b: Row, c: Row | LexLe(a.leader.mgCode, b.leader.mgCode) && LexLe(b.leader.mgCode, c.leader.mgCode)
      ensures LexLe(a.leader.mgCode, c.leader.mgCode)
    {
      LexLeTransitive(a.leader.mgCode, b.leader.mgCode, c.leader.mgCode);
    }
  }

  /** `inactiveLeaders` */
  function InactiveLeaders(all: seq<Leader>, user: Leader, scope: AdminDashboard.Scope, q: string, threshold: string): seq<Row>
  {
    SortBy(RowsOf(Filter(all, (l: Leader) => Candidate(l, user, scope, q, threshold))), ByCode)
  }

  /** Every candidate leader has its row in the list. */
  lemma InactiveLeadersComplete(all: seq<Leader>, user: Leader, scope: AdminDashboard.Scope, q: string, threshold: string)
    ensures forall l :: l in all && Candidate(l, user, scope, q, threshold) ==>
      RowOf(l) in InactiveLeaders(all, user, scope, q, threshold)
  {
    var f := Filter(all, (l: Leader) => Candidate(l, user, scope, q, threshold));
    var rs := RowsOf(f);
    SortByMembers(rs, ByCode);
    forall l | l in all && Candidate(l, user, scope, q, threshold) ensures RowOf(l) in SortBy(rs, ByCode) {
      var i :| 0 <= i < |f| && f[i] == l;
      assert rs[i] == RowOf(l);
    }
  }

  /** Every row is the row of a stored candidate leader: a copy, not the
      stored record itself. */
  lemma InactiveLeadersSound(all: seq<Leader>, user: Leader, scope: AdminDashboard.Scope, q: string, threshold: string)
    ensures forall row :: row in InactiveLeaders(all, user, scope, q, threshold) ==>
      row.leader in all && Candidate(row.leader, user, scope, q, threshold) && row == RowOf(row.leader)
  {
    var f := Filter(all, (l: Leader) => Candidate(l, user, scope, q, threshold));
    var rs := RowsOf(f);
    SortByMembers(rs, ByCode);
    forall row | row in SortBy(rs, ByCode)
      ensures row.leader in all && Candidate(row.leader, user, scope, q, threshold) && row == RowOf(row.leader)
    {
      var i :| 0 <= i < |rs| && rs[i] == row;
      assert f[i] in f;
    }
  }

  /** The rows are the candidates' rows, one per stored candidate, ordered
      by MG code, and rows with equal codes keep the stored order. */
  lemma InactiveLeadersOrder(all: seq<Leader>, user: Leader, scope: AdminDashboard.Scope, q: string, threshold: string)
    ensures var rows := InactiveLeaders(all, user, scope, q, threshold);
      var unsorted := RowsOf(Filter(all, (l: Leader) => Candidate(l, user, scope, q, threshold)));
      && multiset(rows) == multiset(unsorted)
      && (forall i, j :: 0 <= i < j < |rows| ==> LexLe(rows[i].leader.mgCode, rows[j].leader.mgCode))
      && (forall x :: Ties(rows, ByCode, x) == Ties(unsorted, ByCode, x))
  {
    var unsorted := RowsOf(Filter(all, (l: Leader) => Candidate(l, user, scope, q, threshold)));
    ByCodePreorder();
    SortBySorted(unsorted, ByCode);
    forall x ensures Ties(SortBy(unsorted, ByCode), ByCode, x) == Ties(unsorted, ByCode, x) {
      SortByStable(unsorted, ByCode, x);
    }
  }

  /** `followUpRecords[0]`, the note the row shows. */
  function LatestFollowUp(row: Row): (r: Option<FollowUp>)
    ensures r.Some? <==> |row.leader.followUps| > 0
    ensures r.Some? ==> r.value == row.leader.followUps[0]
  {
    if |row.leader.followUps| > 0 then Some(row.leader.followUps[0]) else None
  }

  /** The record an administrator adds. */
  function FollowUpOf(admin: Leader, stamp: nat, date: string, content: string): FollowUp
  {
    FollowUp("f-" + NatToString(stamp), ActorName(admin), admin.id, date, content)
  }

  class ReportingStatusPage {
    const allLeaders: seq<Leader>
    const currentUser: Leader
    var threshold: string
    var searchQuery: string
    var scope: AdminDashboard.Scope
    /** The memoised list; the follow-up dialog edits its rows in place. */
    var rows: seq<Row>
    /** The row whose follow-up dialog is open. */
    var selected: Option<nat>
    var newContent: string
    var newDate: string

    predicate Valid()
      reads this
    {
      selected.Some? ==> selected.value < |rows|
    }

    /** The page opens in lineage scope with the threshold two weeks before
        today and the follow-up date today. */
    constructor (all: seq<Leader>, user: Leader, today: Date)
      requires ValidDate(today)
      ensures allLeaders == all && currentUser == user
      ensures scope == AdminDashboard.Lineage && searchQuery == ""
      ensures threshold == AdminDashboard.DayText(AddDays(today, -14))
      ensures rows == InactiveLeaders(all, user, AdminDashboard.Lineage, "", threshold)
      ensures selected.None? && newContent == "" && newDate == AdminDashboard.DayText(today)
      ensures Valid()
    {
      allLeaders := all;
      currentUser := user;
      scope := AdminDashboard.Lineage;
      searchQuery := "";
      threshold := AdminDashboard.DayText(AddDays(today, -14));
      rows := InactiveLeaders(all, user, AdminDashboard.Lineage, "", AdminDashboard.DayText(AddDays(today, -14)));
      selected := None;
      newContent := "";
      newDate := AdminDashboard.DayText(today);
    }

    /** Changing a filter recomputes the list from the stored leaders, so
        notes added to the previous rows are gone. The filters sit behind
        the dialog, so no dialog is open. */
    method SetFilters(t: string, q: string, s: AdminDashboard.Scope)
      requires selected.None?
      modifies this`threshold, this`searchQuery, this`scope, this`rows
      ensures threshold == t && searchQuery == q && scope == s
      ensures rows == InactiveLeaders(allLeaders, currentUser, s, q, t)
    {
      threshold := t;
      searchQuery := q;
      scope := s;
      rows := InactiveLeaders(allLeaders, currentUser, s, q, t);
    }

    method OpenFollowUp(i: nat)
      requires i < |rows|
      modifies this`selected
      ensures selected == Some(i) && Valid()
    {
      selected := Some(i);
    }

    method SetFollowUp(content: string, date: string)
      modifies this`newContent, this`newDate
      ensures newContent == content && newDate == date
    {
      newContent := content;
      newDate := date;
    }

    /** Prepends the note to the selected row's copy of the leader; refused
        without a selection or for blank content. Nothing reaches the stored
        leaders. */
    method AddFollowUp(stamp: nat, today: string)
      requires Valid()
      modifies this`rows, this`newContent, this`newDate
      ensures Valid()
      ensures old(selected).None? || Trim(old(newContent)) == "" ==>
        rows == old(rows) && newContent == old(newContent) && newDate == old(newDate)
      ensures old(selected).Some? && Trim(old(newContent)) != "" ==>
        var i := old(selected).value;
        var rec := FollowUpOf(currentUser, stamp, old(newDate), old(newContent));
        && |rows| == |old(rows)|
        && rows[i].leader == old(rows)[i].leader.(followUps := [rec] + old(rows)[i].leader.followUps)
        && rows[i].lastReportDate == old(rows)[i].lastReportDate
        && (forall j :: 0 <= j < |rows| && j != i ==> rows[j] == old(rows)[j])
        && LatestFollowUp(rows[i]) == Some(rec)
        && newContent == "" && newDate == today
    {
      if selected.None? || Trim(newContent) == "" {
        return;
      }
      var i := selected.value;
      var rec := FollowUpOf(currentUser, stamp, newDate, newContent);
      var row := rows[i];
      rows := rows[i := row.(leader := row.leader.(followUps := [rec] + row.leader.followUps))];
      newContent := "";
      newDate := today;
    }

    method CloseFollowUp()
      modifies this`selected
      ensures selected.None?
    {
      selected := None;
    }
  }
}
