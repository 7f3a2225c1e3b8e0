/** The member roster (components/MemberManagement.tsx): a searchable,
    name-ordered list of members and the edit form that creates or updates
    one member at a time. The member list is the application's; saving hands
    the draft to its add or update handler. */
module MemberManagement {
  import opened Text
  import opened Seqs
  import opened Domain
  import opened Store
  import AttendanceTracker

  /** The roster search: the names as the check-in list searches them, or
      the phone number as a plain substring. */
  predicate Matches(m: Member, q: string)
  {
    AttendanceTracker.Visible(m, q) || Contains(m.phoneNumber, q)
  }

  /** `(a, b) => a.chineseName.localeCompare(b.chineseName)`, for a name
      collation `nameLe` given by the caller. */
  function ByChineseName(nameLe: (string, string) -> bool): (Member, Member) -> bool
  {
    (a: Member, b: Member) => nameLe(a.chineseName, b.chineseName)
  }

  lemma ByChineseNamePreorder(nameLe: (string, string) -> bool)
    requires TotalPreorder(nameLe)
    ensures TotalPreorder(ByChineseName(nameLe))
  {
    var le := ByChineseName(nameLe);
    forall a: Member, b: Member ensures le(a, b) || le(b, a) {
      assert nameLe(a.chineseName, b.chineseName) || nameLe(b.chineseName, a.chineseName);
    }
    forall a: Member, b: Member, c: Member | le(a, b) && le(b, c) ensures le(a, c) {
      assert nameLe(a.chineseName, b.chineseName) && nameLe(b.chineseName, c.chineseName);
    }
  }

  /** `filteredMembers` */
  function FilteredMembers(members: seq<Member>, q: string, nameLe: (string, string) -> bool): seq<Member>
  {
    SortBy(Filter(members, (m: Member) => Matches(m, q)), ByChineseName(nameLe))
  }

  /** The roster lists exactly the matching members, ordered by Chinese name
      under the collation, members with equally ranked names in stored
      order. */
  lemma FilteredMembersSpec(members: seq<Member>, q: string, nameLe: (string, string) -> bool, x: Member)
    requires TotalPreorder(nameLe)
    ensures forall m :: m in FilteredMembers(members, q, nameLe) <==> m in members && Matches(m, q)
    ensures SortedBy(FilteredMembers(members, q, nameLe), ByChineseName(nameLe))
    ensures Ties(FilteredMembers(members, q, nameLe), ByChineseName(nameLe), x)
         == Ties(Filter(members, (m: Member) => Matches(m, q)), ByChineseName(nameLe), x)
  {
    var f := Filter(members, (m: Member) => Matches(m, q));
    ByChineseNamePreorder(nameLe);
    SortByMembers(f, ByChineseName(nameLe));
    SortBySorted(f, ByChineseName(nameLe));
    SortByStable(f, ByChineseName(nameLe), x);
  }

  /** The blank member `handleAddNew` opens: active, in the signed-in
      leader's first group when there is one, joined today. */
  function NewDraft(user: Leader, stamp: nat, today: string): (m: Member)
    ensures m.status == MemberActive && m.chineseName == "" && m.phoneNumber == ""
    ensures |user.groups| > 0 ==> m.groupIds == [user.groups[0].id]
    ensures |user.groups| == 0 ==> m.groupIds == []
  {
    Member("m-" + NatToString(stamp), "", Some(""), "", Some(""), Some(""), MemberActive,
           if |user.groups| > 0 then [user.groups[0].id] else [], today, None)
  }

  /** A draft can be saved when it has a Chinese name and a phone number. */
  predicate Savable(d: Member)
  {
    d.chineseName != "" && d.phoneNumber != ""
  }

  /** The member list after saving a draft: an update when its id is known,
      an addition at the front otherwise. */
  function Saved(ms: seq<Member>, d: Member): seq<Member>
  {
    if d.id in MemberIds(ms) then UpdateMember(ms, d) else AddMember(ms, d)
  }

  /** After a save the draft is in the list and no member with another id has
      come or gone. */
  lemma SavedSpec(ms: seq<Member>, d: Member)
    ensures d in Saved(ms, d)
    ensures forall x: Member :: x.id != d.id ==> (x in Saved(ms, d) <==> x in ms)
    ensures d.id in MemberIds(ms) ==> |Saved(ms, d)| == |ms|
    ensures d.id !in MemberIds(ms) ==> |Saved(ms, d)| == |ms| + 1
  {
    var r := Saved(ms, d);
    if d.id in MemberIds(ms) {
      var i :| 0 <= i < |ms| && MemberIds(ms)[i] == d.id;
      assert r[i] == d;
      forall x: Member | x.id != d.id ensures x in r <==> x in ms {
        if x in r {
          var j :| 0 <= j < |r| && r[j] == x;
          assert r[j] == ms[j];
        }
        if x in ms {
          var j :| 0 <= j < |ms| && ms[j] == x;
          assert r[j] == x;
        }
      }
    } else {
      assert r == [d] + ms;
    }
  }

  /** The text inputs of the form. */
  datatype TextField = ChineseName | EnglishName | PhoneNumber | Birthday | MemberId

  function WithText(m: Member, field: TextField, value: string): Member
  {
    match field
    case ChineseName => m.(chineseName := value)
    case EnglishName => m.(englishName := Some(value))
    case PhoneNumber => m.(phoneNumber := value)
    case Birthday => m.(birthday := Some(value))
    case MemberId => m.(memberId := Some(value))
  }

  /** The page: the application's member list and the form's draft. */
  class MemberPage {
    const currentUser: Leader
    var members: seq<Member>
    var editing: Option<Member>
    var isFormOpen: bool

    constructor (user: Leader, ms: seq<Member>)
      ensures currentUser == user && members == ms && editing.None? && !isFormOpen
    {
      currentUser := user;
      members := ms;
      editing := None;
      isFormOpen := false;
    }

    /** `handleEdit`: a copy of the member becomes the draft. */
    method Edit(m: Member)
      modifies this`editing, this`isFormOpen
      ensures editing == Some(m) && isFormOpen
    {
      editing := Some(m);
      isFormOpen := true;
    }

    method AddNew(stamp: nat, today: string)
      modifies this`editing, this`isFormOpen
      ensures editing == Some(NewDraft(currentUser, stamp, today)) && isFormOpen
    {
      editing := Some(NewDraft(currentUser, stamp, today));
      isFormOpen := true;
    }

    /** A keystroke in one input replaces that field of the draft only. */
    method EditText(field: TextField, value: string)
      modifies this`editing
      ensures editing == if old(editing).None? then None else Some(WithText(old(editing).value, field, value))
    {
      if editing.Some? {
        editing := Some(WithText(editing.value, field, value));
      }
    }

    /** `toggleGroupSelection`: flips one group id of the draft. */
    method ToggleGroupSelection(groupId: string)
      modifies this`editing
      ensures old(editing).None? ==> editing.None?
      ensures old(editing).Some? ==>
        editing == Some(old(editing).value.(groupIds := Toggled(old(editing).value.groupIds, groupId)))
    {
      if editing.Some? {
        var d := editing.value;
        var updated := if groupId in d.groupIds then Without(d.groupIds, groupId) else d.groupIds + [groupId];
        editing := Some(d.(groupIds := updated));
      }
    }

    /** `handleSave`: refused without a draft, a Chinese name or a phone
      number; otherwise the draft is saved and the form closes. */
    method Save()
      modifies this
      ensures old(editing).None? || !Savable(old(editing).value) ==>
        members == old(members) && editing == old(editing) && isFormOpen == old(isFormOpen)
      ensures old(editing).Some? && Savable(old(editing).value) ==>
        members == Saved(old(members), old(editing).value) && editing.None? && !isFormOpen
    {
      if editing.None? || editing.value.chineseName == "" || editing.value.phoneNumber == "" {
        return;
      }
      var d := editing.value;
      if exists m :: m in members && m.id == d.id {
        assert d.id in MemberIds(members) by {
          var m :| m in members && m.id == d.id;
          var i :| 0 <= i < |members| && members[i] == m;
          assert MemberIds(members)[i] == d.id;
        }
        members := UpdateMember(members, d);
      } else {
        members := AddMember(members, d);
      }
      editing := None;
      isFormOpen := false;
    }

    /** The delete button hands the id to the application. */
    method Delete(id: string)
      modifies this`members
      ensures members == DeleteMember(old(members), id)
    {
      members := DeleteMember(members, id);
    }
  }
}
