/** Detailed check-in for one gathering (components/AttendanceTracker.tsx):
    the list of checked member ids and the guest list, changed one action at
    a time, over the members visible under the current search. */
module AttendanceTracker {
  import opened Text
  import opened Seqs
  import opened Domain
  import opened Store

  /** A member is visible when the query occurs, ignoring case, in the
      Chinese name or in a non-empty English name. */
  predicate Visible(m: Member, q: string)
  {
    ContainsIgnoreCase(m.chineseName, q) || (Truthy(m.englishName) && ContainsIgnoreCase(m.englishName.value, q))
  }

  function FilteredMembers(members: seq<Member>, q: string): (r: seq<Member>)
    ensures forall m :: m in r <==> m in members && Visible(m, q)
  {
    Filter(members, m => Visible(m, q))
  }

  /** Nothing is hidden by an empty search. */
  lemma EmptySearchShowsAll(members: seq<Member>)
    ensures FilteredMembers(members, "") == members
  {
    forall m | m in members ensures Visible(m, "") {
      EmptyIsContained(ToLower(m.chineseName));
    }
    FilterAll(members, m => Visible(m, ""));
  }

  /** `Array.from(new Set([...checked, ...visible]))` */
  function SelectAllIds(checked: seq<string>, visible: seq<string>): seq<string>
  {
    Dedup(checked + visible)
  }

  /** Select-all checks every visible id, keeps every checked one, and
      leaves no id twice. */
  lemma SelectAllSpec(checked: seq<string>, visible: seq<string>)
    ensures forall x :: x in SelectAllIds(checked, visible) <==> x in checked || x in visible
    ensures NoDup(SelectAllIds(checked, visible))
  {
    AppendNewNoDup([], checked + visible);
  }

  /** Selecting all twice is selecting all once. */
  lemma SelectAllIdempotent(checked: seq<string>, visible: seq<string>)
    ensures SelectAllIds(SelectAllIds(checked, visible), visible) == SelectAllIds(checked, visible)
  {
    var d := SelectAllIds(checked, visible);
    SelectAllSpec(checked, visible);
    AppendNewSplit([], d, visible);
    AppendNewDistinct([], d);
    assert [] + d == d;
    AppendNewPresent(d, visible);
  }

  /** `checked.filter(id => !visibleIds.has(id))` */
  function DeselectAllIds(checked: seq<string>, visible: seq<string>): seq<string>
  {
    RemoveAll(checked, set x | x in visible)
  }

  /** Deselect-all unchecks exactly the visible ids and keeps the others in
      their order. */
  lemma DeselectAllSpec(checked: seq<string>, visible: seq<string>, more: seq<string>)
    ensures forall x :: x in DeselectAllIds(checked, visible) <==> x in checked && x !in visible
    ensures DeselectAllIds(checked + more, visible) == DeselectAllIds(checked, visible) + DeselectAllIds(more, visible)
  {
    RemoveAllAppend(checked, more, set x | x in visible);
  }

  /** The member a quick add creates: the trimmed name, the trimmed phone or
      "N/A", active, in this group only, joined today. */
  function QuickMember(group: Group, name: string, phone: string, stamp: nat, today: string): (m: Member)
    ensures m.chineseName == Trim(name) && m.groupIds == [group.id] && m.status == MemberActive
    ensures m.phoneNumber == if Trim(phone) == "" then "N/A" else Trim(phone)
  {
    Member("m-qa-" + NatToString(stamp), Trim(name), None, if Trim(phone) == "" then "N/A" else Trim(phone),
           None, None, MemberActive, [group.id], today, None)
  }

  class Tracker {
    const group: Group
    const members: seq<Member>
    /** Whether the page passed a member-creation callback. */
    const canAddMember: bool
    var searchQuery: string
    var attendedIds: seq<string>
    var guests: seq<Guest>
    var newGuestName: string
    var isAddingMember: bool
    var newMemberName: string
    var newMemberPhone: string

    constructor (group: Group, members: seq<Member>, initialIds: seq<string>, initialGuests: seq<Guest>,
                 canAddMember: bool)
      ensures this.group == group && this.members == members && this.canAddMember == canAddMember
      ensures attendedIds == initialIds && guests == initialGuests
      ensures searchQuery == "" && newGuestName == "" && !isAddingMember && newMemberName == "" && newMemberPhone == ""
    {
      this.group := group;
      this.members := members;
      this.canAddMember := canAddMember;
      searchQuery := "";
      attendedIds := initialIds;
      guests := initialGuests;
      newGuestName := "";
      isAddingMember := false;
      newMemberName := "";
      newMemberPhone := "";
    }

    /** The ids of the members visible under the current search. */
    function VisibleIds(): seq<string>
      reads this
    {
      MemberIds(FilteredMembers(members, searchQuery))
    }

    /** The number the Done button shows and reports: checked members,
        guests and the leader. */
    function DoneCount(): nat
      reads this
    {
      |attendedIds| + |guests| + 1
    }

    method SetSearch(q: string)
      modifies this`searchQuery
      ensures searchQuery == q
    {
      searchQuery := q;
    }

    method ToggleMember(id: string)
      modifies this`attendedIds
      ensures attendedIds == Toggled(old(attendedIds), id)
    {
      if id in attendedIds {
        attendedIds := Without(attendedIds, id);
      } else {
        attendedIds := attendedIds + [id];
      }
    }

    /** Adds every visible id, keeping the first occurrence of each id
        among the checked ids and then the visible ones. */
    method SelectAll()
      modifies this`attendedIds
      ensures attendedIds == SelectAllIds(old(attendedIds), old(VisibleIds()))
    {
      attendedIds := DedupOf(attendedIds + VisibleIds());
    }

    method DeselectAll()
      modifies this`attendedIds
      ensures attendedIds == DeselectAllIds(old(attendedIds), old(VisibleIds()))
    {
      attendedIds := DeselectAllIds(attendedIds, VisibleIds());
    }

    method SetNewMember(name: string, phone: string)
      modifies this`newMemberName, this`newMemberPhone, this`isAddingMember
      ensures newMemberName == name && newMemberPhone == phone && isAddingMember
    {
      newMemberName := name;
      newMemberPhone := phone;
      isAddingMember := true;
    }

    /** Creates the member, hands it to the page and checks it in; refused
        for a blank name or when the page cannot create members. */
    method QuickAddMember(stamp: nat, today: string) returns (added: Option<Member>)
      modifies this`attendedIds, this`newMemberName, this`newMemberPhone, this`isAddingMember
      ensures Trim(old(newMemberName)) == "" || !canAddMember ==>
                added.None? && attendedIds == old(attendedIds) && newMemberName == old(newMemberName)
                && newMemberPhone == old(newMemberPhone) && isAddingMember == old(isAddingMember)
      ensures Trim(old(newMemberName)) != "" && canAddMember ==>
                && added == Some(QuickMember(group, old(newMemberName), old(newMemberPhone), stamp, today))
                && attendedIds == old(attendedIds) + [added.value.id]
                && newMemberName == "" && newMemberPhone == "" && !isAddingMember
    {
      if Trim(newMemberName) == "" || !canAddMember {
        return None;
      }
      var m := QuickMember(group, newMemberName, newMemberPhone, stamp, today);
      added := Some(m);
      attendedIds := attendedIds + [m.id];
      newMemberName := "";
      newMemberPhone := "";
      isAddingMember := false;
    }

    method SetNewGuestName(name: string)
      modifies this`newGuestName
      ensures newGuestName == name
    {
      newGuestName := name;
    }

    /** Appends a guest under the trimmed name; a blank name is ignored. */
    method AddGuest(stamp: nat)
      modifies this`guests, this`newGuestName
      ensures Trim(old(newGuestName)) == "" ==> guests == old(guests) && newGuestName == old(newGuestName)
      ensures Trim(old(newGuestName)) != "" ==>
                guests == old(guests) + [Guest("gst-" + NatToString(stamp), Trim(old(newGuestName)), None)]
                && newGuestName == ""
    {
      if Trim(newGuestName) != "" {
        guests := guests + [Guest("gst-" + NatToString(stamp), Trim(newGuestName), None)];
        newGuestName := "";
      }
    }

    method RemoveGuest(id: string)
      modifies this`guests
      ensures guests == RemoveByKey(old(guests), GuestId, id)
      ensures forall g :: g in guests <==> g in old(guests) && g.id != id
    {
      guests := RemoveByKey(guests, GuestId, id);
    }

    /** What Done hands back: the checked ids and the guests; the page then
        records `DoneCount()` as the attendance. */
    method Done() returns (ids: seq<string>, gs: seq<Guest>)
      ensures ids == attendedIds && gs == guests
      ensures |ids| + |gs| + 1 == DoneCount()
    {
      ids := attendedIds;
      gs := guests;
    }
  }
}
