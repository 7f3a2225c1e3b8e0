/** A leader's page (components/LeaderDetail.tsx): which group categories the
    leader may provision, the quick-add group, the check-in list of a group,
    the report listing per tab, the suggested date of the next gathering and
    the report form with its save. Only groups that are not soft-deleted
    take part. */
module LeaderDetail {
  import opened Text
  import opened Seqs
  import opened Domain
  import opened Dates
  import opened Store

  // ---------------------------------------------------------------------------
  // Provisioning

  /** The categories the leader may open a group in: cell leaders and tribe
      chiefs get all four, caring leaders the pre and open cells, everybody
      else (and no leader at all) none. */
  function AvailableCategories(l: Option<Leader>): (r: seq<Category>)
    ensures NoDup(r)
    ensures l.None? ==> r == []
    ensures l.Some? ==> (DiscipleCell in r <==> IsLeadingRole(l.value))
    ensures l.Some? ==> (Relationship in r <==> IsLeadingRole(l.value))
    ensures l.Some? ==> (OpenCell in r <==> IsLeadingRole(l.value) || CaringLeader in l.value.roles)
    ensures PreCell in r <==> OpenCell in r
  {
    if l.None? then []
    else if IsLeadingRole(l.value) then [PreCell, OpenCell, Relationship, DiscipleCell]
    else if CaringLeader in l.value.roles then [PreCell, OpenCell]
    else []
  }

  /** The group the quick-add buttons create: named after the leader's MG
      code and the category label, in the leader's tribe, on Saturdays at
      14:00 at a place still to be decided, weekly, in the first zone, for a
      mixed Cantonese-speaking audience, with no reports. */
  function QuickGroup(l: Leader, c: Category, stamp: nat): (r: Group)
    ensures r.id == "q-" + CategoryKey(c) + "-" + NatToString(stamp)
    ensures r.groupName == l.mgCode + " - " + CategoryLabel(c)
    ensures r.category == c && r.tribeCode == l.tribeCode && r.reports == [] && !r.isDeleted
  {
    Group("q-" + CategoryKey(c) + "-" + NatToString(stamp), l.mgCode + " - " + CategoryLabel(c), None,
          l.tribeCode, c, Saturday, "14:00", "TBD", None, 12, 0, EveryWeek, Zones[0], Some(Mixed),
          ["Cantonese"], FirstChurchService, FourToSix, [], [], None, false)
  }

  // ---------------------------------------------------------------------------
  // The check-in list

  /** An entry of the check-in list: a member, or a disciple leader shown as
      one (`isLeader`). */
  datatype CheckInEntry = CheckInEntry(member: Member, isLeader: bool)

  function AsMembers(ms: seq<Member>): (r: seq<CheckInEntry>)
    ensures |r| == |ms| && forall i :: 0 <= i < |ms| ==> r[i] == CheckInEntry(ms[i], false)
  {
    seq(|ms|, i requires 0 <= i < |ms| => CheckInEntry(ms[i], false))
  }

  /** A direct disciple of `leaderId` holding the cell-leader or co-worker role. */
  predicate CheckInDisciple(d: Leader, leaderId: string)
  {
    d.parentLeaderId == Some(leaderId) && (CellLeader in d.roles || CoWorker in d.roles)
  }

  /** A disciple leader as a member of the group `gid`. */
  function DiscipleAsMember(d: Leader, gid: string): Member
  {
    Member(d.id, OrEmpty(d.chineseName), Some(OrEmpty(d.firstName)), d.phoneNumber, None, None,
           MemberActive, [gid], OrEmpty(d.ordinationDate), None)
  }

  function AsLeaders(ds: seq<Leader>, gid: string): (r: seq<CheckInEntry>)
    ensures |r| == |ds| && forall i :: 0 <= i < |ds| ==> r[i] == CheckInEntry(DiscipleAsMember(ds[i], gid), true)
  {
    seq(|ds|, i requires 0 <= i < |ds| => CheckInEntry(DiscipleAsMember(ds[i], gid), true))
  }

  /** The members of group `g` */
  function GroupMembers(members: seq<Member>, g: Group): seq<Member>
  {
    Filter(members, (m: Member) => g.id in m.groupIds)
  }

  /** The disciple leaders of a disciple cell that are not already members. */
  function ExtraLeaders(members: seq<Member>, leaders: seq<Leader>, leader: Leader, g: Group): seq<CheckInEntry>
  {
    var present := MemberIds(GroupMembers(members, g));
    Filter(AsLeaders(Filter(leaders, d => CheckInDisciple(d, leader.id)), g.id), (e: CheckInEntry) => e.member.id !in present)
  }

  /** The people the check-in list offers for the selected group. */
  function EffectiveMembers(leader: Leader, selected: string, members: seq<Member>, leaders: seq<Leader>)
    : seq<CheckInEntry>
  {
    match FindGroup(LiveGroups(leader.groups), selected)
    case None => AsMembers(members)
    case Some(g) =>
      if g.category == DiscipleCell then AsMembers(GroupMembers(members, g)) + ExtraLeaders(members, leaders, leader, g)
      else AsMembers(GroupMembers(members, g))
  }

  /** Without a selected live group the list is every member. With one, the
      plain entries are exactly the group's members; leader entries appear
      only for a disciple cell, one for each direct disciple with the
      cell-leader or co-worker role whose id is not already a member's. */
  lemma EffectiveMembersSpec(leader: Leader, selected: string, members: seq<Member>, leaders: seq<Leader>)
    ensures selected !in GroupIds(LiveGroups(leader.groups)) ==>
              EffectiveMembers(leader, selected, members, leaders) == AsMembers(members)
    ensures selected in GroupIds(LiveGroups(leader.groups)) ==>
              var g := FindGroup(LiveGroups(leader.groups), selected).value;
              var r := EffectiveMembers(leader, selected, members, leaders);
              && (forall m :: CheckInEntry(m, false) in r <==> m in members && selected in m.groupIds)
              && (forall e :: e in r && e.isLeader ==>
                    g.category == DiscipleCell && e.member.id !in MemberIds(GroupMembers(members, g)))
              && (g.category == DiscipleCell ==>
                    forall d :: d in leaders && CheckInDisciple(d, leader.id)
                                && d.id !in MemberIds(GroupMembers(members, g))
                      ==> CheckInEntry(DiscipleAsMember(d, selected), true) in r)
  {
    var live := LiveGroups(leader.groups);
    if selected in GroupIds(live) {
      var g := FindGroup(live, selected).value;
      var base := GroupMembers(members, g);
      AsMembersHas(base);
      if g.category == DiscipleCell {
        ExtraLeadersSpec(members, leaders, leader, g);
      }
    }
  }

  /** The plain entries of a list made from members are those members. */
  lemma AsMembersHas(ms: seq<Member>)
    ensures forall m :: CheckInEntry(m, false) in AsMembers(ms) <==> m in ms
    ensures forall e :: e in AsMembers(ms) ==> !e.isLeader
  {
    forall m | m in ms ensures CheckInEntry(m, false) in AsMembers(ms) {
      var i :| 0 <= i < |ms| && ms[i] == m;
      assert AsMembers(ms)[i] == CheckInEntry(m, false);
    }
  }

  /** The added leader entries are leaders, none with a member's id, one for
      each qualifying disciple whose id is not a member's. */
  lemma ExtraLeadersSpec(members: seq<Member>, leaders: seq<Leader>, leader: Leader, g: Group)
    ensures forall e :: e in ExtraLeaders(members, leaders, leader, g) ==>
              e.isLeader && e.member.id !in MemberIds(GroupMembers(members, g))
    ensures forall d :: d in leaders && CheckInDisciple(d, leader.id) && d.id !in MemberIds(GroupMembers(members, g))
              ==> CheckInEntry(DiscipleAsMember(d, g.id), true) in ExtraLeaders(members, leaders, leader, g)
  {
    var ds := Filter(leaders, d => CheckInDisciple(d, leader.id));
    var mapped := AsLeaders(ds, g.id);
    forall e | e in mapped ensures e.isLeader {
      var i :| 0 <= i < |mapped| && mapped[i] == e;
    }
    forall d | d in leaders && CheckInDisciple(d, leader.id) && d.id !in MemberIds(GroupMembers(members, g))
      ensures CheckInEntry(DiscipleAsMember(d, g.id), true) in mapped
    {
      var i :| 0 <= i < |ds| && ds[i] == d;
      assert mapped[i] == CheckInEntry(DiscipleAsMember(d, g.id), true);
    }
  }

  // ---------------------------------------------------------------------------
  // The report listing

  /** A report with the id and category of the group it belongs to. */
  datatype ListedReport = ListedReport(report: Report, groupId: string, groupCategory: Category)

  function Tagged(g: Group): (r: seq<ListedReport>)
    ensures |r| == |g.reports| && forall i :: 0 <= i < |r| ==> r[i] == ListedReport(g.reports[i], g.id, g.category)
  {
    seq(|g.reports|, i requires 0 <= i < |g.reports| => ListedReport(g.reports[i], g.id, g.category))
  }

  /** `groups.flatMap(g => tagged reports of g)` */
  function AllTagged(gs: seq<Group>): seq<ListedReport>
  {
    if gs == [] then [] else Tagged(gs[0]) + AllTagged(gs[1..])
  }

  /** Total number of reports over `gs`. */
  function ReportCount(gs: seq<Group>): nat
  {
    if gs == [] then 0 else |gs[0].reports| + ReportCount(gs[1..])
  }

  /** The 'all' tab lists every report of every group once, tagged with its
      group. */
  lemma {:induction false} AllTaggedSpec(gs: seq<Group>)
    ensures |AllTagged(gs)| == ReportCount(gs)
    ensures forall g, k :: g in gs && 0 <= k < |g.reports| ==> ListedReport(g.reports[k], g.id, g.category) in AllTagged(gs)
    ensures forall e :: e in AllTagged(gs) ==> e.groupId in GroupIds(gs)
  {
    if gs != [] {
      AllTaggedSpec(gs[1..]);
      forall g, k | g in gs && 0 <= k < |g.reports|
        ensures ListedReport(g.reports[k], g.id, g.category) in AllTagged(gs)
      {
        if g == gs[0] {
          assert Tagged(gs[0])[k] == ListedReport(g.reports[k], g.id, g.category);
        } else {
          assert g in gs[1..];
        }
      }
      forall e | e in AllTagged(gs) ensures e.groupId in GroupIds(gs) {
        if e in Tagged(gs[0]) {
          assert GroupIds(gs)[0] == gs[0].id;
        } else {
          assert GroupIds(gs[1..]) == GroupIds(gs)[1..];
        }
      }
    }
  }

  /** The reports of the active tab before ordering: every group's for the
      'all' tab, otherwise those of the tab's group, none when it is gone. */
  function TabReports(gs: seq<Group>, tab: string): seq<ListedReport>
  {
    if tab == "all" then AllTagged(gs)
    else match FindGroup(gs, tab)
      case Some(g) => Tagged(g)
      case None => []
  }

  /** `(a, b) => b.gatheringDate.localeCompare(a.gatheringDate)` */
  const ListedNewestFirst: (ListedReport, ListedReport) -> bool :=
    (a: ListedReport, b: ListedReport) => LexLe(b.report.gatheringDate, a.report.gatheringDate)

  lemma ListedNewestFirstPreorder()
    ensures TotalPreorder(ListedNewestFirst)
  {
    forall a: ListedReport, b: ListedReport
      ensures LexLe(b.report.gatheringDate, a.report.gatheringDate) || LexLe(a.report.gatheringDate, b.report.gatheringDate)
    {
      LexLeTotal(a.report.gatheringDate, b.report.gatheringDate);
    }
    forall a: ListedReport, b: ListedReport, c: ListedReport
      | LexLe(b.report.gatheringDate, a.report.gatheringDate) && LexLe(c.report.gatheringDate, b.report.gatheringDate)
      ensures LexLe(c.report.gatheringDate, a.report.gatheringDate)
    {
      LexLeTransitive(c.report.gatheringDate, b.report.gatheringDate, a.report.gatheringDate);
    }
  }

  function DisplayedReports(leader: Leader, tab: string): seq<ListedReport>
  {
    SortBy(TabReports(LiveGroups(leader.groups), tab), ListedNewestFirst)
  }

  /** The listing holds the tab's reports, newest gathering first, with
      reports of the same date in their stored order. */
  lemma DisplayedReportsSpec(leader: Leader, tab: string)
    ensures multiset(DisplayedReports(leader, tab)) == multiset(TabReports(LiveGroups(leader.groups), tab))
    ensures forall i, j :: 0 <= i < j < |DisplayedReports(leader, tab)| ==>
              LexLe(DisplayedReports(leader, tab)[j].report.gatheringDate,
                    DisplayedReports(leader, tab)[i].report.gatheringDate)
    ensures forall x :: Ties(DisplayedReports(leader, tab), ListedNewestFirst, x)
                     == Ties(TabReports(LiveGroups(leader.groups), tab), ListedNewestFirst, x)
  {
    var rs := TabReports(LiveGroups(leader.groups), tab);
    ListedNewestFirstPreorder();
    SortBySorted(rs, ListedNewestFirst);
    forall x ensures Ties(SortBy(rs, ListedNewestFirst), ListedNewestFirst, x) == Ties(rs, ListedNewestFirst, x) {
      SortByStable(rs, ListedNewestFirst, x);
    }
  }

  /** Every report on the 'all' tab belongs to a group that is not deleted. */
  lemma AllTabShowsLiveGroups(leader: Leader)
    ensures |DisplayedReports(leader, "all")| == ReportCount(LiveGroups(leader.groups))
    ensures forall e :: e in DisplayedReports(leader, "all") ==> e.groupId in GroupIds(LiveGroups(leader.groups))
  {
    var gs := LiveGroups(leader.groups);
    AllTaggedSpec(gs);
    SortByMembers(AllTagged(gs), ListedNewestFirst);
  }

  /** A tab whose group is no longer listed falls back to 'all'. */
  function CheckedTab(leader: Leader, tab: string): (r: string)
    ensures r == tab || r == "all"
    ensures r == "all" || r in GroupIds(LiveGroups(leader.groups))
  {
    if tab != "all" && tab !in GroupIds(LiveGroups(leader.groups)) then "all" else tab
  }

  // ---------------------------------------------------------------------------
  // The suggested next gathering

  const ReportNewestFirst: (Report, Report) -> bool :=
    (a: Report, b: Report) => LexLe(b.gatheringDate, a.gatheringDate)

  lemma ReportNewestFirstPreorder()
    ensures TotalPreorder(ReportNewestFirst)
  {
    forall a: Report, b: Report ensures LexLe(b.gatheringDate, a.gatheringDate) || LexLe(a.gatheringDate, b.gatheringDate) {
      LexLeTotal(a.gatheringDate, b.gatheringDate);
    }
    forall a: Report, b: Report, c: Report | LexLe(b.gatheringDate, a.gatheringDate) && LexLe(c.gatheringDate, b.gatheringDate)
      ensures LexLe(c.gatheringDate, a.gatheringDate)
    {
      LexLeTransitive(c.gatheringDate, b.gatheringDate, a.gatheringDate);
    }
  }

  /** The first report once sorted newest first. */
  function LatestReport(rs: seq<Report>): Option<Report>
  {
    var sorted := SortBy(rs, ReportNewestFirst);
    if sorted == [] then None else Some(sorted[0])
  }

  /** The latest report is one of the reports, no report is dated later, and
      of several reports on that date it is the first one stored (the sort
      is stable). */
  lemma LatestReportSpec(rs: seq<Report>)
    ensures LatestReport(rs).None? <==> rs == []
    ensures LatestReport(rs).Some? ==>
              LatestReport(rs).value in rs && forall x :: x in rs ==> LexLe(x.gatheringDate, LatestReport(rs).value.gatheringDate)
    ensures LatestReport(rs).Some? ==>
              exists i :: 0 <= i < |rs| && rs[i] == LatestReport(rs).value
                && forall j :: 0 <= j < i ==> rs[j].gatheringDate != rs[i].gatheringDate
  {
    var sorted := SortBy(rs, ReportNewestFirst);
    SortByMembers(rs, ReportNewestFirst);
    ReportNewestFirstPreorder();
    SortBySorted(rs, ReportNewestFirst);
    if sorted != [] {
      var v := sorted[0];
      forall x | x in rs ensures LexLe(x.gatheringDate, v.gatheringDate) {
        var j :| 0 <= j < |sorted| && sorted[j] == x;
        if j > 0 {
          assert ReportNewestFirst(sorted[0], sorted[j]);
        } else {
          LexLeTotal(x.gatheringDate, x.gatheringDate);
        }
      }
      FirstStoredOfLatest(rs, v);
    }
  }

  /** The stable sort puts first the earliest stored report of the latest date. */
  lemma FirstStoredOfLatest(rs: seq<Report>, v: Report)
    requires TotalPreorder(ReportNewestFirst)
    requires SortBy(rs, ReportNewestFirst) != [] && SortBy(rs, ReportNewestFirst)[0] == v
    ensures exists i :: 0 <= i < |rs| && rs[i] == v
              && forall j :: 0 <= j < i ==> rs[j].gatheringDate != rs[i].gatheringDate
  {
    var le := ReportNewestFirst;
    var sorted := SortBy(rs, le);
    assert le(v, v);
    assert Ties(sorted, le, v)[0] == v;
    SortByStable(rs, le, v);
    TiesFirst(rs, le, v);
    var i :| 0 <= i < |rs| && rs[i] == Ties(rs, le, v)[0] && le(v, rs[i]) && le(rs[i], v)
              && forall j :: 0 <= j < i ==> !(le(v, rs[j]) && le(rs[j], v));
    forall j | 0 <= j < i ensures rs[j].gatheringDate != rs[i].gatheringDate {
      assert !(le(v, rs[j]) && le(rs[j], v));
    }
  }

  /** Days between gatherings. */
  function Interval(f: Frequency): int
  {
    if f == EveryWeek then 7 else 14
  }

  /** The date and time the form is prefilled with for a new report: the
      latest report's date plus the group's interval and that report's time
      (or the group's), or today and the group's time when the group has no
      report. `None` when the latest date is not a `YYYY-MM-DD` date with a
      year of at least 100. */
  function SuggestedDateTime(g: Group, today: string): Option<(string, string)>
  {
    match LatestReport(g.reports)
    case None => Some((today, g.groupTime))
    case Some(last) =>
      match ParseDate(last.gatheringDate)
      case Some(d) =>
        if d.year >= 100 then
          Some((FormatYmd(AddDays(d, Interval(g.groupFrequency))),
                if Truthy(last.gatheringTime) then last.gatheringTime.value else g.groupTime))
        else None
      case None => None
  }

  /** The suggested date reads back as the day exactly 7 (weekly) or 14 days
      after the latest gathering, and the suggested time is that gathering's
      time when it has one, else the group's. */
  lemma SuggestionIsIntervalAfterLatest(g: Group, today: string, d: Date)
    requires g.reports != []
    requires LatestReport(g.reports).Some? && ParseDate(LatestReport(g.reports).value.gatheringDate) == Some(d)
    requires 1000 <= d.year && AddDays(d, Interval(g.groupFrequency)).year <= 9999
    ensures SuggestedDateTime(g, today).Some?
    ensures ParseDate(SuggestedDateTime(g, today).value.0) == Some(AddDays(d, Interval(g.groupFrequency)))
    ensures DayNumber(AddDays(d, Interval(g.groupFrequency))) == DayNumber(d) + Interval(g.groupFrequency)
    ensures var last := LatestReport(g.reports).value;
      SuggestedDateTime(g, today).value.1 == if Truthy(last.gatheringTime) then last.gatheringTime.value else g.groupTime
  {
    var n := AddDays(d, Interval(g.groupFrequency));
    AddDaysNumber(d, Interval(g.groupFrequency));
    assert n.year >= d.year by { AddDaysForward(d, Interval(g.groupFrequency)); }
    FormatYmdIsIso(n);
    IsoDateRoundTrip(n);
  }

  /** Moving forward never lands in an earlier year. */
  lemma {:induction false} AddDaysForward(d: Date, k: int)
    requires ValidDate(d) && k >= 0
    ensures AddDays(d, k).year >= d.year
    decreases k
  {
    if k > 0 {
      AddDaysForward(NextDay(d), k - 1);
    }
  }

  /** With no report yet, the form suggests today at the group's time. */
  lemma SuggestionWithoutReports(g: Group, today: string)
    requires g.reports == []
    ensures SuggestedDateTime(g, today) == Some((today, g.groupTime))
  {
  }

  // ---------------------------------------------------------------------------
  // The report form

  /** `notes || '-'`: an empty note is stored as a dash. */
  function StoredNotes(n: string): string
  {
    if n == "" then "-" else n
  }

  /** A stored dash is shown as an empty note. */
  function LoadedNotes(n: string): string
  {
    if n == "-" then "" else n
  }

  lemma NotesRoundTrip(n: string)
    ensures n != "-" ==> LoadedNotes(StoredNotes(n)) == n
    ensures n != "" ==> StoredNotes(LoadedNotes(n)) == n
    ensures LoadedNotes(StoredNotes("-")) == ""
  {
  }

  /** The report the form saves into group `g`: the edited report's id or a
      fresh `rep-` one, the count read as a number (0 when unreadable or 0),
      no new visitors, the group's category at save time, and the notes as
      stored. */
  function ReportOf(editingId: Option<string>, stamp: nat, date: string, time: string, count: string,
                    notes: string, ids: seq<string>, guests: seq<Guest>, g: Group): (r: Report)
    ensures r.category == g.category && r.newVisitorCount == 0 && r.notes != ""
    ensures r.attendanceCount == ParseIntOr(count, 0)
  {
    Report(if Truthy(editingId) then editingId.value else "rep-" + NatToString(stamp),
           date, Some(time), ParseIntOr(count, 0), 0, g.category, StoredNotes(notes), ids, guests)
  }

  /** The form loaded from a report and saved unchanged gives the report back,
      except that it takes the group's current category and no new visitors. */
  lemma EditSaveRoundTrip(r: Report, g: Group, stamp: nat)
    requires r.id != "" && r.attendanceCount > 0 && r.notes != "" && r.gatheringTime.Some? && r.gatheringTime.value != ""
    ensures ReportOf(Some(r.id), stamp, r.gatheringDate, r.gatheringTime.value, IntToString(r.attendanceCount),
                     LoadedNotes(r.notes), r.attendedMemberIds, r.guests, g)
            == r.(newVisitorCount := 0, category := g.category)
  {
    ParseIntNatToString(r.attendanceCount);
  }

  /** The count written after detailed check-in is read back at save as
      members + guests + 1 (the leader). */
  lemma TrackedCountSaved(editingId: Option<string>, stamp: nat, date: string, time: string, notes: string,
                          ids: seq<string>, guests: seq<Guest>, g: Group)
    ensures var n := |ids| + |guests| + 1;
            ReportOf(editingId, stamp, date, time, NatToString(n), notes, ids, guests, g).attendanceCount == n
  {
    CountSaved(editingId, stamp, date, time, notes, ids, guests, g, |ids| + |guests| + 1);
  }

  lemma CountSaved(editingId: Option<string>, stamp: nat, date: string, time: string, notes: string,
                   ids: seq<string>, guests: seq<Guest>, g: Group, n: nat)
    requires n > 0
    ensures ReportOf(editingId, stamp, date, time, NatToString(n), notes, ids, guests, g).attendanceCount == n
  {
    ParseIntOrPositive(n, 0);
  }

  /** What a save asks the store to do. */
  datatype ReportAction =
    | NoAction
    | AddAction(groupId: string, report: Report)
    | UpdateAction(groupId: string, reportId: string, report: Report)

  /** The report form and its fields. */
  class ReportForm {
    var isOpen: bool
    var selectedGroupId: string
    var editingReportId: Option<string>
    var gatheringDate: string
    var gatheringTime: string
    var attendanceCount: string
    var notes: string
    var attendedMemberIds: seq<string>
    var guests: seq<Guest>

    constructor ()
      ensures !isOpen && selectedGroupId == "" && editingReportId.None?
      ensures gatheringDate == "" && gatheringTime == "" && attendanceCount == "" && notes == ""
      ensures attendedMemberIds == [] && guests == []
    {
      isOpen := false;
      selectedGroupId := "";
      editingReportId := None;
      gatheringDate := "";
      gatheringTime := "";
      attendanceCount := "";
      notes := "";
      attendedMemberIds := [];
      guests := [];
    }

    /** Opens an empty form for a new report of group `gid`; date and time
        are kept for the suggestion to fill. */
    method Open(gid: string)
      modifies this
      ensures isOpen && selectedGroupId == gid && editingReportId.None?
      ensures attendanceCount == "" && notes == "" && attendedMemberIds == [] && guests == []
      ensures gatheringDate == old(gatheringDate) && gatheringTime == old(gatheringTime)
    {
      selectedGroupId := gid;
      editingReportId := None;
      attendanceCount := "";
      notes := "";
      attendedMemberIds := [];
      guests := [];
      isOpen := true;
    }

    /** The suggestion effect: while a new report is being written for a
        live group, the date and time take the suggested values. */
    method Suggest(leader: Leader, today: string)
      modifies this`gatheringDate, this`gatheringTime
      ensures var g := FindGroup(LiveGroups(leader.groups), selectedGroupId);
              if isOpen && !Truthy(editingReportId) && g.Some? && SuggestedDateTime(g.value, today).Some?
              then (gatheringDate, gatheringTime) == SuggestedDateTime(g.value, today).value
              else gatheringDate == old(gatheringDate) && gatheringTime == old(gatheringTime)
    {
      if isOpen && !Truthy(editingReportId) {
        var g := FindGroup(LiveGroups(leader.groups), selectedGroupId);
        if g.Some? {
          var s := SuggestedDateTime(g.value, today);
          if s.Some? {
            gatheringDate := s.value.0;
            gatheringTime := s.value.1;
          }
        }
      }
    }

    /** Loads a listed report into the form (only when editing is allowed). */
    method EditReport(e: ListedReport, canEdit: bool)
      modifies this
      ensures !canEdit ==>
                && isOpen == old(isOpen) && editingReportId == old(editingReportId)
                && attendanceCount == old(attendanceCount) && notes == old(notes)
                && gatheringDate == old(gatheringDate) && selectedGroupId == old(selectedGroupId)
                && gatheringTime == old(gatheringTime) && attendedMemberIds == old(attendedMemberIds)
                && guests == old(guests)
      ensures canEdit ==>
                && isOpen && selectedGroupId == e.groupId && editingReportId == Some(e.report.id)
                && gatheringDate == e.report.gatheringDate
                && gatheringTime == (if Truthy(e.report.gatheringTime) then e.report.gatheringTime.value else "19:30")
                && attendanceCount == IntToString(e.report.attendanceCount)
                && notes == LoadedNotes(e.report.notes)
                && attendedMemberIds == e.report.attendedMemberIds && guests == e.report.guests
    {
      if canEdit {
        selectedGroupId := e.groupId;
        editingReportId := Some(e.report.id);
        gatheringDate := e.report.gatheringDate;
        gatheringTime := if Truthy(e.report.gatheringTime) then e.report.gatheringTime.value else "19:30";
        attendanceCount := IntToString(e.report.attendanceCount);
        notes := LoadedNotes(e.report.notes);
        attendedMemberIds := e.report.attendedMemberIds;
        guests := e.report.guests;
        isOpen := true;
      }
    }

    /** Detailed check-in finished: the ids, the guests and a count of
        members + guests + 1 (the leader). */
    method TrackComplete(ids: seq<string>, gs: seq<Guest>)
      modifies this`attendedMemberIds, this`guests, this`attendanceCount
      ensures attendedMemberIds == ids && guests == gs
      ensures ParseInt(attendanceCount) == Some(|ids| + |gs| + 1)
    {
      var n := |ids| + |gs| + 1;
      attendedMemberIds := ids;
      guests := gs;
      attendanceCount := NatToString(n);
      ParseIntNatToString(n);
    }

    /** Builds the report and asks for an update when a report is being
        edited, an add otherwise; nothing happens without a live group. */
    method Save(leader: Leader, stamp: nat) returns (action: ReportAction)
      modifies this`isOpen
      ensures var g := FindGroup(LiveGroups(leader.groups), selectedGroupId);
              if g.None? then action == NoAction && isOpen == old(isOpen)
              else
                var rep := ReportOf(editingReportId, stamp, gatheringDate, gatheringTime, attendanceCount,
                                    notes, attendedMemberIds, guests, g.value);
                && !isOpen
                && action == (if Truthy(editingReportId) then UpdateAction(g.value.id, editingReportId.value, rep)
                              else AddAction(g.value.id, rep))
    {
      var g := FindGroup(LiveGroups(leader.groups), selectedGroupId);
      if g.None? {
        return NoAction;
      }
      var rep := ReportOf(editingReportId, stamp, gatheringDate, gatheringTime, attendanceCount,
                          notes, attendedMemberIds, guests, g.value);
      if Truthy(editingReportId) {
        action := UpdateAction(g.value.id, editingReportId.value, rep);
      } else {
        action := AddAction(g.value.id, rep);
      }
      isOpen := false;
    }
  }
}
