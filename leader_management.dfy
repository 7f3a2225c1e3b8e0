/** The leader directory screen (components/LeaderManagement.tsx): its search
    and ordering, the edits of the leader being edited (role toggling,
    parent choice, status changes and transfers with their audit records),
    the save check and the merged activity timeline. The CSV export and
    import of the same screen are in `LeaderCsv`. "Now" is passed in: a
    millisecond stamp for the ids and today's ISO date for the records. */
module LeaderManagement {
  import opened Text
  import opened Seqs
  import opened Domain
  import opened Store
  import opened Orders

  // ---------------------------------------------------------------------------
  // Search and ordering

  /** The text a search looks in: six fields separated by spaces, with an
      absent field printed as "undefined". */
  function SearchText(l: Leader): string
  {
    Shown(l.chineseName) + " " + Shown(l.firstName) + " " + Shown(l.lastName) + " "
    + l.mgCode + " " + l.email + " " + Shown(l.memberId)
  }

  predicate MatchesSearch(l: Leader, q: string)
  {
    ContainsIgnoreCase(SearchText(l), q)
  }

  /** The listed leaders: those matching the query, ordered by MG code. */
  function FilteredLeaders(ls: seq<Leader>, q: string): seq<Leader>
  {
    SortBy(Filter(ls, l => MatchesSearch(l, q)), ByMgCode)
  }

  /** The listing holds exactly the matching leaders, each as often as in the
      directory, in MG-code order, and leaders with equal codes keep their
      directory order. */
  lemma FilteredLeadersSpec(ls: seq<Leader>, q: string)
    ensures forall l :: l in FilteredLeaders(ls, q) <==> l in ls && MatchesSearch(l, q)
    ensures multiset(FilteredLeaders(ls, q)) == multiset(Filter(ls, l => MatchesSearch(l, q)))
    ensures forall i, j :: 0 <= i < j < |FilteredLeaders(ls, q)|
              ==> LexLe(FilteredLeaders(ls, q)[i].mgCode, FilteredLeaders(ls, q)[j].mgCode)
    ensures forall x :: Ties(FilteredLeaders(ls, q), ByMgCode, x)
                     == Ties(Filter(ls, l => MatchesSearch(l, q)), ByMgCode, x)
  {
    var kept := Filter(ls, l => MatchesSearch(l, q));
    SortByMembers(kept, ByMgCode);
    ByMgCodePreorder();
    SortBySorted(kept, ByMgCode);
    forall x ensures Ties(SortBy(kept, ByMgCode), ByMgCode, x) == Ties(kept, ByMgCode, x) {
      SortByStable(kept, ByMgCode, x);
    }
  }

  /** An empty search lists the whole directory. */
  lemma EmptySearchListsAll(ls: seq<Leader>)
    ensures multiset(FilteredLeaders(ls, "")) == multiset(ls)
  {
    forall l | l in ls ensures MatchesSearch(l, "") {
      EmptyIsContained(ToLower(SearchText(l)));
    }
    FilterAll(ls, l => MatchesSearch(l, ""));
  }

  // ---------------------------------------------------------------------------
  // Role toggling

  /** Flips one role. Without the cell-leader role afterwards, the MG code,
      the generation and the ordination date are cleared. */
  function WithRoleToggled(l: Leader, role: string): (r: Leader)
    ensures forall x :: x in r.roles <==> (if x == role then x !in l.roles else x in l.roles)
    ensures role !in l.roles ==> r.roles == l.roles + [role]
    ensures role in l.roles ==> r.roles == Without(l.roles, role)
    ensures CellLeader in r.roles ==>
              r.mgCode == l.mgCode && r.generation == l.generation && r.ordinationDate == l.ordinationDate
    ensures CellLeader !in r.roles ==> r.mgCode == "" && r.generation == 0 && r.ordinationDate == Some("")
    ensures r.(roles := l.roles, mgCode := l.mgCode, generation := l.generation,
               ordinationDate := l.ordinationDate) == l
  {
    var roles := Toggled(l.roles, role);
    if CellLeader in roles then l.(roles := roles)
    else l.(roles := roles, mgCode := "", generation := 0, ordinationDate := Some(""))
  }

  /** Toggling a role twice restores role membership, and when the leader
      keeps the cell-leader role throughout, the leadership fields too. */
  lemma ToggleRoleTwice(l: Leader, role: string)
    ensures forall x :: x in WithRoleToggled(WithRoleToggled(l, role), role).roles <==> x in l.roles
    ensures role != CellLeader && CellLeader in l.roles ==>
              WithRoleToggled(WithRoleToggled(l, role), role).(roles := l.roles) == l
  {
  }

  /** Toggling the cell-leader role off and on again does not give the
      leadership fields back: they stay cleared. */
  lemma CellLeaderToggleLosesFields(l: Leader)
    requires CellLeader in l.roles
    ensures var r := WithRoleToggled(WithRoleToggled(l, CellLeader), CellLeader);
            CellLeader in r.roles && r.mgCode == "" && r.generation == 0 && r.ordinationDate == Some("")
  {
  }

  // ---------------------------------------------------------------------------
  // Parent and generation

  /** `parent.tribeCode || parent.mgCode`: the tribe a child of `p` joins. */
  function TribeOf(p: Leader): string
  {
    if p.tribeCode != "" then p.tribeCode else p.mgCode
  }

  /** The hierarchy fields of `r` agree with its parent as found in `ls`: a
      root is generation 1 with no parent name; a child is one generation
      below the parent, carries the parent's short name and its tribe. */
  predicate LinkedTo(ls: seq<Leader>, r: Leader)
  {
    match r.parentLeaderId
    case None => r.parentLeaderName.None? && r.generation == 1
    case Some(pid) =>
      pid in Ids(ls)
      && var p := FindLeader(ls, pid).value;
         r.parentLeaderName == Some(ShortName(p)) && r.generation == p.generation + 1 && r.tribeCode == TribeOf(p)
  }

  /** Only the parent, parent name, tribe and generation of `r` differ from `l`. */
  predicate HierarchyOnly(l: Leader, r: Leader)
  {
    r.(parentLeaderId := l.parentLeaderId, parentLeaderName := l.parentLeaderName,
       tribeCode := l.tribeCode, generation := l.generation) == l
  }

  /** The parent selector: an empty choice makes a root (generation 1, tribe
      kept); a known id links the leader below that parent; an unknown id
      changes nothing. */
  function WithParent(ls: seq<Leader>, l: Leader, parentId: string): (r: Leader)
    ensures HierarchyOnly(l, r)
    ensures parentId == "" ==> r.parentLeaderId.None? && LinkedTo(ls, r) && r.tribeCode == l.tribeCode
    ensures parentId != "" && parentId in Ids(ls) ==> r.parentLeaderId == Some(parentId) && LinkedTo(ls, r)
    ensures parentId != "" && parentId !in Ids(ls) ==> r == l
  {
    if parentId == "" then
      l.(parentLeaderId := None, parentLeaderName := None, generation := 1)
    else
      match FindLeader(ls, parentId)
      case Some(p) =>
        l.(parentLeaderId := Some(p.id), parentLeaderName := Some(ShortName(p)),
           tribeCode := TribeOf(p), generation := p.generation + 1)
      case None => l
  }

  /** Choosing the same parent again changes nothing more. */
  lemma WithParentIdempotent(ls: seq<Leader>, l: Leader, parentId: string)
    ensures WithParent(ls, WithParent(ls, l, parentId), parentId) == WithParent(ls, l, parentId)
  {
  }

  /** The parent selector is enabled only for a leader whose id starts with
      "new-" (line 916 of the screen); the transfer button only for the others. */
  predicate ParentSelectable(l: Leader)
  {
    StartsWith(l.id, "new-")
  }

  // ---------------------------------------------------------------------------
  // Status changes

  /** The audit record of a status change made by `actor`. */
  function StatusRecord(l: Leader, target: string, stamp: nat, today: string, actor: Leader, reason: string): StatusChange
  {
    StatusChange("sc-" + NatToString(stamp), l.status, target, today, ActorName(actor), actor.id, Some(reason))
  }

  /** Sets the status and prepends the audit record to the history. */
  function WithStatus(l: Leader, target: string, stamp: nat, today: string, actor: Leader, reason: string): (r: Leader)
    ensures r.status == target
    ensures |r.statusHistory| == |l.statusHistory| + 1 && r.statusHistory[1..] == l.statusHistory
    ensures r.statusHistory[0].oldStatus == l.status && r.statusHistory[0].newStatus == target
    ensures r.statusHistory[0].reason == Some(reason) && r.statusHistory[0].changedById == actor.id
    ensures r.(status := l.status, statusHistory := l.statusHistory) == l
  {
    l.(status := target, statusHistory := [StatusRecord(l, target, stamp, today, actor, reason)] + l.statusHistory)
  }

  /** The status history reads as a chain, newest first: its first record
      ends in the current status and each record starts where the next
      older one ended. */
  predicate StatusChained(l: Leader)
  {
    var h := l.statusHistory;
    && (h != [] ==> h[0].newStatus == l.status)
    && forall i :: 0 <= i < |h| - 1 ==> h[i].oldStatus == h[i + 1].newStatus
  }

  lemma StatusUpdateKeepsChain(l: Leader, target: string, stamp: nat, today: string, actor: Leader, reason: string)
    requires StatusChained(l)
    ensures StatusChained(WithStatus(l, target, stamp, today, actor, reason))
  {
    var h := WithStatus(l, target, stamp, today, actor, reason).statusHistory;
    forall i | 0 <= i < |h| - 1 ensures h[i].oldStatus == h[i + 1].newStatus {
      if i > 0 {
        assert h[i] == l.statusHistory[i - 1] && h[i + 1] == l.statusHistory[i];
      }
    }
  }

  // ---------------------------------------------------------------------------
  // Transfers

  /** `newParent ? `${chineseName || firstName}` : fallback` */
  function ParentName(p: Option<Leader>, fallback: Option<string>): Option<string>
  {
    if p.Some? then Some(ShortName(p.value)) else fallback
  }

  /** The audit record of moving `l` below the leader with id `newParentId`
      (or to the top level when no leader has that id). */
  function TransferRecord(ls: seq<Leader>, l: Leader, newParentId: string, stamp: nat, today: string,
                          actor: Leader, reason: string): Transfer
  {
    var p := FindLeader(ls, newParentId);
    Transfer("tr-" + NatToString(stamp), l.parentLeaderId, l.parentLeaderName,
             if p.Some? then Some(p.value.id) else None, ParentName(p, Some("Root")),
             today, ActorName(actor), actor.id, Some(reason))
  }

  /** The moved leader: linked below the new parent, or made a root of its
      own tribe (its MG code) when no leader has the chosen id, with the
      record prepended to its transfer history. */
  function Transferred(ls: seq<Leader>, l: Leader, newParentId: string, stamp: nat, today: string,
                       actor: Leader, reason: string): (r: Leader)
    ensures LinkedTo(ls, r)
    ensures newParentId in Ids(ls) ==> r.parentLeaderId == Some(newParentId)
    ensures newParentId !in Ids(ls) ==> r.parentLeaderId.None? && r.tribeCode == l.mgCode
    ensures |r.transfers| == |l.transfers| + 1 && r.transfers[1..] == l.transfers
    ensures r.transfers[0].fromParentId == l.parentLeaderId && r.transfers[0].toParentId == r.parentLeaderId
    ensures r.transfers[0].fromParentName == l.parentLeaderName
    ensures r.transfers[0].toParentName == if r.parentLeaderId.None? then Some("Root") else r.parentLeaderName
    ensures r.transfers[0].reason == Some(reason)
    ensures r.(parentLeaderId := l.parentLeaderId, parentLeaderName := l.parentLeaderName,
               tribeCode := l.tribeCode, generation := l.generation, transfers := l.transfers) == l
  {
    var p := FindLeader(ls, newParentId);
    l.(parentLeaderId := if p.Some? then Some(p.value.id) else None,
       parentLeaderName := ParentName(p, None),
       generation := if p.Some? then p.value.generation + 1 else 1,
       tribeCode := if p.Some? then TribeOf(p.value) else l.mgCode,
       transfers := [TransferRecord(ls, l, newParentId, stamp, today, actor, reason)] + l.transfers)
  }

  /** The transfer history reads as a chain, newest first: its first record
      ends at the current parent and each record starts where the next older
      one ended. */
  predicate TransfersChained(l: Leader)
  {
    var h := l.transfers;
    && (h != [] ==> h[0].toParentId == l.parentLeaderId)
    && forall i :: 0 <= i < |h| - 1 ==> h[i].fromParentId == h[i + 1].toParentId
  }

  lemma TransferKeepsChain(ls: seq<Leader>, l: Leader, newParentId: string, stamp: nat, today: string,
                           actor: Leader, reason: string)
    requires TransfersChained(l)
    ensures TransfersChained(Transferred(ls, l, newParentId, stamp, today, actor, reason))
  {
    var h := Transferred(ls, l, newParentId, stamp, today, actor, reason).transfers;
    forall i | 0 <= i < |h| - 1 ensures h[i].fromParentId == h[i + 1].toParentId {
      if i > 0 {
        assert h[i] == l.transfers[i - 1] && h[i + 1] == l.transfers[i];
      }
    }
  }

  /** Only the moved leader is saved: every other leader of the directory,
      its former and new children included, keeps its record (and so its
      generation and tribe). */
  lemma TransferSavesOnlyMoved(ls: seq<Leader>, l: Leader, newParentId: string, stamp: nat, today: string,
                               actor: Leader, reason: string)
    ensures var saved := ReplaceLeader(ls, Transferred(ls, l, newParentId, stamp, today, actor, reason));
            forall i :: 0 <= i < |ls| && ls[i].id != l.id ==> saved[i] == ls[i]
  {
  }

  // ---------------------------------------------------------------------------
  // New leaders and saving

  /** The draft of a new leader: `l-` and `p-` ids from two readings of the
      clock, active, generation 1, no roles, a "611" password with a
      three-digit random suffix, and empty lists. */
  function NewLeader(idStamp: nat, personStamp: nat, passwordSuffix: nat): (r: Leader)
    ensures r.status == Active && r.generation == 1 && r.roles == [] && !r.isAdmin
    ensures r.email == "" && r.groups == [] && r.transfers == [] && r.statusHistory == [] && r.followUps == []
  {
    Leader("l-" + NatToString(idStamp), "p-" + NatToString(personStamp), "", "", 1, false, Active,
           None, None, None, "", "", None, Some(""), [], None, None, None, None,
           Some("611" + NatToString(passwordSuffix)), map[], [], [], [], [])
  }

  /** `!editingLeader.email || !editingLeader.firstName` refuses the save. */
  predicate CanSave(l: Leader)
  {
    l.email != "" && Truthy(l.firstName)
  }

  /** A fresh draft cannot be saved before an email and a first name are
      entered, and its `l-` id never unlocks the parent selector. */
  lemma NewLeaderDraft(idStamp: nat, personStamp: nat, passwordSuffix: nat)
    ensures !CanSave(NewLeader(idStamp, personStamp, passwordSuffix))
    ensures !ParentSelectable(NewLeader(idStamp, personStamp, passwordSuffix))
  {
    var id := NewLeader(idStamp, personStamp, passwordSuffix).id;
    assert id[1] == '-';
  }

  // ---------------------------------------------------------------------------
  // The merged activity timeline

  datatype EventKind = OrdinationEvent | TransferEvent | StatusEvent | FollowUpEvent

  datatype TimelineEvent = TimelineEvent(date: string, kind: EventKind, title: string, subtitle: string,
                                         actor: Option<string>)

  /** `name || 'Root'` */
  function OrRoot(o: Option<string>): string
  {
    if Truthy(o) then o.value else "Root"
  }

  function OrdinationEventOf(date: string): TimelineEvent
  {
    TimelineEvent(date, OrdinationEvent, "按立小組長 (Ordination)", "正式按立成為 611 靈糧堂小組長", None)
  }

  function TransferEventOf(t: Transfer): TimelineEvent
  {
    TimelineEvent(t.changeDate, TransferEvent, "族系調動 (Transfer)",
                  OrRoot(t.fromParentName) + " \U{2794} " + OrRoot(t.toParentName)
                  + (if Truthy(t.reason) then " - \"" + t.reason.value + "\"" else ""),
                  Some(t.changedBy))
  }

  /** A status event is a suspension exactly when the new status is "disabled". */
  function StatusEventOf(s: StatusChange): TimelineEvent
  {
    var suspension := s.newStatus == Disabled;
    TimelineEvent(s.changeDate, StatusEvent,
                  if suspension then "服事停牌 (Suspended)" else "服事復牌 (Reinstated)",
                  if Truthy(s.reason) then s.reason.value
                  else if suspension then "暫停服事資格" else "恢復服事資格",
                  Some(s.changedBy))
  }

  function FollowUpEventOf(f: FollowUp): TimelineEvent
  {
    TimelineEvent(f.date, FollowUpEvent, "行政跟進 (Follow-up)", f.content, Some(f.adminName))
  }

  /** The events in the order they are gathered: the ordination (when the
      date is non-empty), then transfers, status changes and follow-ups, each
      in stored order. */
  function Events(l: Leader): seq<TimelineEvent>
  {
    (if Truthy(l.ordinationDate) then [OrdinationEventOf(l.ordinationDate.value)] else [])
    + seq(|l.transfers|, i requires 0 <= i < |l.transfers| => TransferEventOf(l.transfers[i]))
    + seq(|l.statusHistory|, i requires 0 <= i < |l.statusHistory| => StatusEventOf(l.statusHistory[i]))
    + seq(|l.followUps|, i requires 0 <= i < |l.followUps| => FollowUpEventOf(l.followUps[i]))
  }

  /** `(a, b) => b.date.localeCompare(a.date)`: newest first. */
  const NewestFirst: (TimelineEvent, TimelineEvent) -> bool :=
    (a: TimelineEvent, b: TimelineEvent) => LexLe(b.date, a.date)

  lemma NewestFirstPreorder()
    ensures TotalPreorder(NewestFirst)
  {
    forall a: TimelineEvent, b: TimelineEvent ensures LexLe(b.date, a.date) || LexLe(a.date, b.date) {
      LexLeTotal(a.date, b.date);
    }
    forall a: TimelineEvent, b: TimelineEvent, c: TimelineEvent | LexLe(b.date, a.date) && LexLe(c.date, b.date)
      ensures LexLe(c.date, a.date)
    {
      LexLeTransitive(c.date, b.date, a.date);
    }
  }

  function Timeline(l: Leader): seq<TimelineEvent>
  {
    SortBy(Events(l), NewestFirst)
  }

  /** The timeline holds one event per ordination, transfer, status change
      and follow-up, and nothing else. */
  lemma TimelineLength(l: Leader)
    ensures |Timeline(l)| == (if Truthy(l.ordinationDate) then 1 else 0)
                             + |l.transfers| + |l.statusHistory| + |l.followUps|
    ensures multiset(Timeline(l)) == multiset(Events(l))
  {
    SortByMembers(Events(l), NewestFirst);
  }

  /** The timeline runs newest date first, and events of the same date keep
      the order in which they were gathered. */
  lemma TimelineOrder(l: Leader)
    ensures forall i, j :: 0 <= i < j < |Timeline(l)| ==> LexLe(Timeline(l)[j].date, Timeline(l)[i].date)
    ensures forall x :: Ties(Timeline(l), NewestFirst, x) == Ties(Events(l), NewestFirst, x)
  {
    var e := Events(l);
    NewestFirstPreorder();
    SortBySorted(e, NewestFirst);
    forall x ensures Ties(SortBy(e, NewestFirst), NewestFirst, x) == Ties(e, NewestFirst, x) {
      SortByStable(e, NewestFirst, x);
    }
  }

  // ---------------------------------------------------------------------------
  // The editing state of the screen

  /** The leader being edited, the open form, a requested status change with
      its reason, and a transfer in preparation with its target and reason. */
  class LeaderEditor {
    var editing: Option<Leader>
    var formOpen: bool
    var pendingTarget: Option<string>
    var statusReason: string
    var transferring: Option<Leader>
    var newParentId: string
    var transferReason: string

    constructor ()
      ensures editing.None? && !formOpen && pendingTarget.None? && statusReason == ""
      ensures transferring.None? && newParentId == "" && transferReason == ""
    {
      editing := None;
      formOpen := false;
      pendingTarget := None;
      statusReason := "";
      transferring := None;
      newParentId := "";
      transferReason := "";
    }

    method Edit(l: Leader)
      modifies this
      ensures editing == Some(l) && formOpen
      ensures pendingTarget == old(pendingTarget) && statusReason == old(statusReason)
      ensures transferring == old(transferring) && newParentId == old(newParentId)
      ensures transferReason == old(transferReason)
    {
      editing := Some(l);
      formOpen := true;
    }

    method AddNew(idStamp: nat, personStamp: nat, passwordSuffix: nat)
      modifies this
      ensures editing == Some(NewLeader(idStamp, personStamp, passwordSuffix)) && formOpen
      ensures pendingTarget == old(pendingTarget) && statusReason == old(statusReason)
      ensures transferring == old(transferring) && newParentId == old(newParentId)
      ensures transferReason == old(transferReason)
    {
      editing := Some(NewLeader(idStamp, personStamp, passwordSuffix));
      formOpen := true;
    }

    method ToggleRole(role: string)
      modifies this`editing
      ensures old(editing).None? ==> editing.None?
      ensures old(editing).Some? ==> editing == Some(WithRoleToggled(old(editing).value, role))
    {
      if editing.Some? {
        editing := Some(WithRoleToggled(editing.value, role));
      }
    }

    method ChangeParent(ls: seq<Leader>, parentId: string)
      modifies this`editing
      ensures old(editing).None? ==> editing.None?
      ensures old(editing).Some? ==> editing == Some(WithParent(ls, old(editing).value, parentId))
    {
      if editing.Some? {
        editing := Some(WithParent(ls, editing.value, parentId));
      }
    }

    /** The reinstate and suspend buttons ask for confirmation only when the
        status differs from the target. */
    method RequestStatus(target: string)
      requires target == Active || target == Disabled
      modifies this`pendingTarget
      ensures pendingTarget == if editing.Some? && editing.value.status != target then Some(target)
                               else old(pendingTarget)
    {
      if editing.Some? && editing.value.status != target {
        pendingTarget := Some(target);
      }
    }

    method SetStatusReason(reason: string)
      modifies this`statusReason
      ensures statusReason == reason
    {
      statusReason := reason;
    }

    /** The confirm button is disabled while the reason is blank; once
        pressed it applies the change, closes the request and clears the
        reason. */
    method ConfirmStatus(stamp: nat, today: string, actor: Leader)
      modifies this`editing, this`pendingTarget, this`statusReason
      ensures old(editing).None? || old(pendingTarget).None? || IsBlank(old(statusReason)) ==>
                editing == old(editing) && pendingTarget == old(pendingTarget) && statusReason == old(statusReason)
      ensures old(editing).Some? && old(pendingTarget).Some? && !IsBlank(old(statusReason)) ==>
                && editing == Some(WithStatus(old(editing).value, old(pendingTarget).value, stamp, today, actor,
                                              old(statusReason)))
                && pendingTarget.None? && statusReason == ""
    {
      if editing.Some? && pendingTarget.Some? && !IsBlank(statusReason) {
        editing := Some(WithStatus(editing.value, pendingTarget.value, stamp, today, actor, statusReason));
        pendingTarget := None;
        statusReason := "";
      }
    }

    /** Opens the transfer dialog for the leader being edited. */
    method OpenTransfer()
      modifies this`transferring
      ensures transferring == editing
    {
      transferring := editing;
    }

    method SetTransfer(parentId: string, reason: string)
      modifies this`newParentId, this`transferReason
      ensures newParentId == parentId && transferReason == reason
    {
      newParentId := parentId;
      transferReason := reason;
    }

    /** The confirm button is disabled while the reason is blank. Once
        pressed, the moved leader is handed to the directory save, and it
        replaces the leader being edited only when that is the same leader;
        the dialog is then reset. */
    method ConfirmTransfer(ls: seq<Leader>, stamp: nat, today: string, actor: Leader) returns (saved: Option<Leader>)
      modifies this`editing, this`transferring, this`newParentId, this`transferReason
      ensures old(transferring).None? || IsBlank(old(transferReason)) ==>
                saved.None? && editing == old(editing) && transferring == old(transferring)
                && newParentId == old(newParentId) && transferReason == old(transferReason)
      ensures old(transferring).Some? && !IsBlank(old(transferReason)) ==>
                && saved == Some(Transferred(ls, old(transferring).value, old(newParentId), stamp, today, actor,
                                             old(transferReason)))
                && editing == (if old(editing).Some? && old(editing).value.id == saved.value.id then saved
                               else old(editing))
                && transferring.None? && newParentId == "" && transferReason == ""
    {
      saved := None;
      if transferring.Some? && !IsBlank(transferReason) {
        var moved := Transferred(ls, transferring.value, newParentId, stamp, today, actor, transferReason);
        saved := Some(moved);
        if editing.Some? && editing.value.id == moved.id {
          editing := saved;
        }
        transferring := None;
        newParentId := "";
        transferReason := "";
      }
    }

    /** Hands the leader being edited to the directory save and closes the
        form, unless the email or the first name is missing. */
    method Save() returns (saved: Option<Leader>)
      modifies this`editing, this`formOpen
      ensures old(editing).Some? && CanSave(old(editing).value) ==>
                saved == old(editing) && editing.None? && !formOpen
      ensures old(editing).None? || !CanSave(old(editing).value) ==>
                saved.None? && editing == old(editing) && formOpen == old(formOpen)
    {
      saved := None;
      if editing.Some? && CanSave(editing.value) {
        saved := editing;
        editing := None;
        formOpen := false;
      }
    }
  }
}
