/** The records the application keeps for cell groups, their reports, members
    and leaders, and the closed vocabularies the screens choose from. An
    optional field of the records is an `Option`; an optional list that the
    screens read as `x || []` is a plain sequence. */
module Domain {
  import opened Text
  import opened Seqs

  datatype Zone = ABD | ADT | YOU | CHI | ANW
  datatype Category = OpenCell | DiscipleCell | PreCell | Relationship
  datatype Weekday = Monday | Tuesday | Wednesday | Thursday | Friday | Saturday | Sunday
  datatype Frequency = EveryWeek | EveryOtherWeek
  datatype Audience = Brothers | Sisters | Couples | Mixed | Teens | Youth | YoungAdults
  datatype MemberRange = OneToThree | FourToSix | SevenToNine | TenToTwelve | AboveTwelve
  datatype MemberStatus = MemberActive | MemberInactive

  /** The zones in their display order; the first one is the quick-add default. */
  const Zones: seq<Zone> := [ABD, ADT, YOU, CHI, ANW]

  // Leader roles
  const TribeChief: string := "族長"
  const CellLeader: string := "小組長"
  const CoWorker: string := "同工"
  const CaringLeader: string := "關懷小組長"
  const RoleOptions: seq<string> := [TribeChief, CellLeader, CoWorker, CaringLeader]

  // Account status values
  const Active: string := "active"
  const Disabled: string := "disabled"

  const FirstChurchService: string := "Sunday Service"

  function CategoryLabel(c: Category): string
  {
    match c
    case OpenCell => "Open Cell"
    case DiscipleCell => "Disciple Cell"
    case PreCell => "Pre Cell"
    case Relationship => "Relationship(1對1門訓)"
  }

  /** The stored spelling of a category (`open_cell`, ...). */
  function CategoryKey(c: Category): string
  {
    match c
    case OpenCell => "open_cell"
    case DiscipleCell => "disciple_cell"
    case PreCell => "pre_cell"
    case Relationship => "relationship"
  }

  datatype Guest = Guest(id: string, name: string, phone: Option<string>)

  datatype Report = Report(
    id: string,
    gatheringDate: string,
    gatheringTime: Option<string>,
    attendanceCount: int,
    newVisitorCount: int,
    category: Category,
    notes: string,
    attendedMemberIds: seq<string>,
    guests: seq<Guest>)

  datatype Group = Group(
    id: string,
    groupName: string,
    groupCode: Option<string>,
    tribeCode: string,
    category: Category,
    groupDay: Weekday,
    groupTime: string,
    groupLocation: string,
    groupAddress: Option<string>,
    maxCapacity: int,
    currentMemberCount: int,
    groupFrequency: Frequency,
    pastorZoneId: Zone,
    targetAudience: Option<Audience>,
    languages: seq<string>,
    service: string,
    regularMemberRange: MemberRange,
    ageRanges: seq<string>,
    reports: seq<Report>,
    nameSuffix: Option<string>,
    isDeleted: bool)

  datatype Member = Member(
    id: string,
    chineseName: string,
    englishName: Option<string>,
    phoneNumber: string,
    birthday: Option<string>,
    memberId: Option<string>,
    status: MemberStatus,
    groupIds: seq<string>,
    joinedDate: string,
    avatarUrl: Option<string>)

  datatype FollowUp = FollowUp(id: string, adminName: string, adminId: string, date: string, content: string)

  datatype Transfer = Transfer(
    id: string,
    fromParentId: Option<string>,
    fromParentName: Option<string>,
    toParentId: Option<string>,
    toParentName: Option<string>,
    changeDate: string,
    changedBy: string,
    changedById: string,
    reason: Option<string>)

  datatype StatusChange = StatusChange(
    id: string,
    oldStatus: string,
    newStatus: string,
    changeDate: string,
    changedBy: string,
    changedById: string,
    reason: Option<string>)

  /** A leader. `profile` holds the personal fields no rule of the application
      reads (preferred name, nickname, avatar, age range, occupation, marriage
      status, the ministry options and the last login), keyed by field name. */
  datatype Leader = Leader(
    id: string,
    personId: string,
    mgCode: string,
    tribeCode: string,
    generation: int,
    isAdmin: bool,
    status: string,
    chineseName: Option<string>,
    lastName: Option<string>,
    firstName: Option<string>,
    email: string,
    phoneNumber: string,
    gender: Option<string>,
    memberId: Option<string>,
    roles: seq<string>,
    parentLeaderId: Option<string>,
    parentLeaderName: Option<string>,
    ordinationDate: Option<string>,
    identity: Option<string>,
    password: Option<string>,
    profile: map<string, string>,
    groups: seq<Group>,
    followUps: seq<FollowUp>,
    transfers: seq<Transfer>,
    statusHistory: seq<StatusChange>)

  /** The directory filters: generations, pastoral zones and meeting days. */
  datatype FilterState = FilterState(generations: seq<int>, zones: seq<Zone>, days: seq<Weekday>)

  function LeaderId(l: Leader): string { l.id }
  function MemberKey(m: Member): string { m.id }
  function GroupId(g: Group): string { g.id }
  function ReportId(r: Report): string { r.id }
  function GuestId(g: Guest): string { g.id }

  /** `chineseName || firstName`, as a template literal prints it. */
  function ShortName(l: Leader): string
  {
    if Truthy(l.chineseName) then l.chineseName.value else Shown(l.firstName)
  }

  /** `chineseName || firstName || 'Admin'`: the name an audit record is signed with. */
  function ActorName(l: Leader): string
  {
    if Truthy(l.chineseName) then l.chineseName.value
    else if Truthy(l.firstName) then l.firstName.value
    else "Admin"
  }

  /** `${chineseName || ''} ${firstName || ''}`.trim(): the name the
      evaluation and tribe screens show. */
  function DisplayName(l: Leader): string
  {
    Trim(OrEmpty(l.chineseName) + " " + OrEmpty(l.firstName))
  }

  /** A leader the delinquency and evaluation screens look at: one with the
      cell-leader or tribe-chief role. */
  predicate IsLeadingRole(l: Leader)
  {
    CellLeader in l.roles || TribeChief in l.roles
  }

  /** Descent by MG code: `code` extends `ancestor` (the ancestor itself included). */
  predicate InLineage(code: string, ancestor: string)
  {
    StartsWith(code, ancestor)
  }

  /** Strict descent: a longer code that extends `ancestor`. */
  predicate StrictDescendant(code: string, ancestor: string)
  {
    StartsWith(code, ancestor) && |code| > |ancestor|
  }

  /** Groups that are not soft-deleted. */
  function LiveGroups(gs: seq<Group>): (r: seq<Group>)
    ensures forall g :: g in r <==> g in gs && !g.isDeleted
  {
    if gs == [] then []
    else (if gs[0].isDeleted then [] else [gs[0]]) + LiveGroups(gs[1..])
  }

  /** The reports of a run of groups, group by group. */
  function GroupReports(gs: seq<Group>): (r: seq<Report>)
    ensures forall x :: x in r <==> exists g :: g in gs && x in g.reports
  {
    if gs == [] then [] else gs[0].reports + GroupReports(gs[1..])
  }

  /** A tribe leader: one whose MG code has exactly two characters. */
  predicate IsTribeRoot(l: Leader)
  {
    |l.mgCode| == 2
  }

  /** The leaders of a tribe, as the tribe screens select them: the code of
      the root itself or any code starting with it. */
  function TribeLineage(all: seq<Leader>, root: Leader): (r: seq<Leader>)
    ensures forall l :: l in r <==> l in all && InLineage(l.mgCode, root.mgCode)
  {
    SelfInLineage(root.mgCode);
    Filter(all, (l: Leader) => l.mgCode == root.mgCode || StartsWith(l.mgCode, root.mgCode))
  }

  lemma SelfInLineage(code: string)
    ensures InLineage(code, code)
  {
    assert code[..|code|] == code;
  }
}
