/** The application's state holder: the leaders list, the members list and the
    signed-in leader, with the handlers that replace them (App.tsx). Report
    and group edits rebuild the signed-in leader's groups and then write that
    leader back to both the signed-in slot and the leaders list. */
module Store {
  import opened Text
  import opened Seqs
  import opened Domain

  // ---------------------------------------------------------------------------
  // Lookup by id

  function Ids(ls: seq<Leader>): (r: seq<string>)
    ensures |r| == |ls|
    ensures forall i :: 0 <= i < |ls| ==> r[i] == ls[i].id
  {
    seq(|ls|, i requires 0 <= i < |ls| => ls[i].id)
  }

  lemma IdsAppend(a: seq<Leader>, b: seq<Leader>)
    ensures Ids(a + b) == Ids(a) + Ids(b)
  {
  }

  /** `ls.find(l => l.id === id)`: the first leader with that id. */
  function FindLeader(ls: seq<Leader>, id: string): (r: Option<Leader>)
    ensures r.None? <==> id !in Ids(ls)
    ensures r.Some? ==> r.value in ls && r.value.id == id
  {
    if ls == [] then None
    else if ls[0].id == id then Some(ls[0])
    else
      assert Ids(ls) == [ls[0].id] + Ids(ls[1..]);
      FindLeader(ls[1..], id)
  }

  /** The last leader with that id. */
  function LastLeader(ls: seq<Leader>, id: string): (r: Option<Leader>)
    ensures r.None? <==> id !in Ids(ls)
    ensures r.Some? ==> r.value in ls && r.value.id == id
  {
    if ls == [] then None
    else if ls[|ls| - 1].id == id then Some(ls[|ls| - 1])
    else
      assert Ids(ls) == Ids(ls[..|ls| - 1]) + [ls[|ls| - 1].id];
      LastLeader(ls[..|ls| - 1], id)
  }

  lemma {:induction false} FindAppend(a: seq<Leader>, b: seq<Leader>, id: string)
    ensures FindLeader(a + b, id) == if id in Ids(a) then FindLeader(a, id) else FindLeader(b, id)
  {
    if a == [] {
      assert a + b == b;
    } else {
      assert (a + b)[0] == a[0] && (a + b)[1..] == a[1..] + b;
      assert Ids(a) == [a[0].id] + Ids(a[1..]);
      FindAppend(a[1..], b, id);
    }
  }

  lemma {:induction false} LastLeaderAppend(a: seq<Leader>, b: seq<Leader>, id: string)
    ensures LastLeader(a + b, id) == if id in Ids(b) then LastLeader(b, id) else LastLeader(a, id)
    decreases |b|
  {
    if b == [] {
      assert a + b == a;
    } else {
      var b' := b[..|b| - 1];
      assert (a + b)[..|a + b| - 1] == a + b';
      assert Ids(b) == Ids(b') + [b[|b| - 1].id];
      LastLeaderAppend(a, b', id);
    }
  }

  /** The records before and after position `i` of a list with distinct ids
      carry other ids. */
  lemma DistinctAround(ls: seq<Leader>, i: int)
    requires NoDup(Ids(ls)) && 0 <= i < |ls|
    ensures ls[i].id !in Ids(ls[..i]) && ls[i].id !in Ids(ls[i + 1..])
  {
    var pre, post := ls[..i], ls[i + 1..];
    forall k | 0 <= k < |pre| ensures Ids(pre)[k] != ls[i].id {
      assert Ids(ls)[k] == Ids(pre)[k];
    }
    forall k | 0 <= k < |post| ensures Ids(post)[k] != ls[i].id {
      assert Ids(ls)[i + 1 + k] == Ids(post)[k];
    }
  }

  /** In a list with distinct ids, the first and the last record with the id
      of position `i` are both that record. */
  lemma DistinctLookup(ls: seq<Leader>, i: int)
    requires NoDup(Ids(ls)) && 0 <= i < |ls|
    ensures FindLeader(ls, ls[i].id) == Some(ls[i])
    ensures LastLeader(ls, ls[i].id) == Some(ls[i])
  {
    DistinctAround(ls, i);
    LookupAt(ls[..i], ls[i], ls[i + 1..]);
    SplitAt(ls, i);
  }

  lemma SplitAt<T>(s: seq<T>, i: int)
    requires 0 <= i < |s|
    ensures s == s[..i] + [s[i]] + s[i + 1..]
  {
  }

  lemma LookupAt(pre: seq<Leader>, x: Leader, post: seq<Leader>)
    requires x.id !in Ids(pre) && x.id !in Ids(post)
    ensures FindLeader(pre + [x] + post, x.id) == Some(x)
    ensures LastLeader(pre + [x] + post, x.id) == Some(x)
  {
    assert pre + [x] + post == pre + ([x] + post);
    FindAppend(pre, [x] + post, x.id);
    assert FindLeader([x] + post, x.id) == Some(x);
    LastLeaderAppend(pre + [x], post, x.id);
    assert LastLeader(pre + [x], x.id) == Some(x);
  }

  // ---------------------------------------------------------------------------
  // The current user

  /** `hasDescendants`: some leader's MG code strictly extends the signed-in
      leader's code. */
  function AnyStrictDescendant(ls: seq<Leader>, code: string): (r: bool)
    ensures r <==> exists i :: 0 <= i < |ls| && StrictDescendant(ls[i].mgCode, code)
  {
    if ls == [] then false
    else if StrictDescendant(ls[0].mgCode, code) then true
    else
      var r := AnyStrictDescendant(ls[1..], code);
      assert r ==> exists i :: 0 <= i < |ls| && StrictDescendant(ls[i].mgCode, code) by {
        if r {
          var i :| 0 <= i < |ls[1..]| && StrictDescendant(ls[1..][i].mgCode, code);
          assert ls[i + 1] == ls[1..][i];
        }
      }
      assert (exists i :: 0 <= i < |ls| && StrictDescendant(ls[i].mgCode, code)) ==> r by {
        if exists i :: 0 <= i < |ls| && StrictDescendant(ls[i].mgCode, code) {
          var i :| 0 <= i < |ls| && StrictDescendant(ls[i].mgCode, code);
          assert i != 0;
          assert ls[1..][i - 1] == ls[i];
        }
      }
      r
  }

  function HasDescendants(current: Option<Leader>, ls: seq<Leader>): (r: bool)
    ensures current.None? ==> !r
    ensures current.Some? ==>
      (r <==> exists l :: l in ls && StrictDescendant(l.mgCode, current.value.mgCode))
  {
    current.Some? && AnyStrictDescendant(ls, current.value.mgCode)
  }

  // ---------------------------------------------------------------------------
  // Replacing and removing leaders and members by id

  /** `ls.map(l => l.id === u.id ? u : l)` */
  function ReplaceLeader(ls: seq<Leader>, u: Leader): (r: seq<Leader>)
    ensures Ids(r) == Ids(ls)
    ensures forall i :: 0 <= i < |ls| && ls[i].id != u.id ==> r[i] == ls[i]
    ensures forall i :: 0 <= i < |ls| && ls[i].id == u.id ==> r[i] == u
  {
    ReplaceByKey(ls, LeaderId, u.id, u)
  }

  /** Saving a directory leader whose id is not in the list changes nothing:
      the save never inserts. */
  lemma ReplaceLeaderNeverInserts(ls: seq<Leader>, u: Leader)
    requires u.id !in Ids(ls)
    ensures ReplaceLeader(ls, u) == ls
  {
  }

  /** After a replacement, looking the id up finds the new record exactly when
      the id was there before. */
  lemma {:induction false} FindAfterReplace(ls: seq<Leader>, u: Leader)
    ensures FindLeader(ReplaceLeader(ls, u), u.id) == if u.id in Ids(ls) then Some(u) else None
  {
    var r := ReplaceLeader(ls, u);
    if u.id in Ids(ls) {
      var v := FindLeader(r, u.id).value;
      var i :| 0 <= i < |r| && r[i] == v;
    }
  }

  /** `ls.filter(l => l.id !== id)` */
  function RemoveLeader(ls: seq<Leader>, id: string): (r: seq<Leader>)
    ensures id !in Ids(r)
    ensures forall l :: l in r <==> l in ls && l.id != id
  {
    var r := RemoveByKey(ls, LeaderId, id);
    assert forall i :: 0 <= i < |r| ==> r[i] in r;
    r
  }

  function MemberIds(ms: seq<Member>): (r: seq<string>)
    ensures |r| == |ms| && forall i :: 0 <= i < |ms| ==> r[i] == ms[i].id
  {
    seq(|ms|, i requires 0 <= i < |ms| => ms[i].id)
  }

  /** `handleAddMember`: `[member, ...prev]` */
  function AddMember(ms: seq<Member>, m: Member): (r: seq<Member>)
    ensures |r| == |ms| + 1 && r[0] == m && r[1..] == ms
  {
    [m] + ms
  }

  /** `handleUpdateMember` */
  function UpdateMember(ms: seq<Member>, m: Member): (r: seq<Member>)
    ensures MemberIds(r) == MemberIds(ms)
    ensures forall i :: 0 <= i < |ms| ==> r[i] == if ms[i].id == m.id then m else ms[i]
  {
    ReplaceByKey(ms, MemberKey, m.id, m)
  }

  /** `handleDeleteMember` */
  function DeleteMember(ms: seq<Member>, id: string): (r: seq<Member>)
    ensures id !in MemberIds(r)
    ensures forall x :: x in r <==> x in ms && x.id != id
  {
    var r := RemoveByKey(ms, MemberKey, id);
    assert forall i :: 0 <= i < |r| ==> r[i] in r;
    r
  }

  /** Deleting a member just added with a fresh id gives back the old list. */
  lemma AddThenDeleteMember(ms: seq<Member>, m: Member)
    requires m.id !in MemberIds(ms)
    ensures DeleteMember(AddMember(ms, m), m.id) == ms
  {
    RemoveByKeyAbsent(ms, MemberKey, m.id);
    assert ([m] + ms)[1..] == ms;
  }

  // ---------------------------------------------------------------------------
  // Reports and groups of one leader

  function GroupIds(gs: seq<Group>): (r: seq<string>)
    ensures |r| == |gs| && forall i :: 0 <= i < |gs| ==> r[i] == gs[i].id
  {
    seq(|gs|, i requires 0 <= i < |gs| => gs[i].id)
  }

  /** `gs.find(g => g.id === id)`: the first group with that id. */
  function FindGroup(gs: seq<Group>, id: string): (r: Option<Group>)
    ensures r.None? <==> id !in GroupIds(gs)
    ensures r.Some? ==> r.value in gs && r.value.id == id
  {
    if gs == [] then None
    else if gs[0].id == id then Some(gs[0])
    else
      assert GroupIds(gs) == [gs[0].id] + GroupIds(gs[1..]);
      FindGroup(gs[1..], id)
  }

  function ReportIds(rs: seq<Report>): (r: seq<string>)
    ensures |r| == |rs| && forall i :: 0 <= i < |rs| ==> r[i] == rs[i].id
  {
    seq(|rs|, i requires 0 <= i < |rs| => rs[i].id)
  }

  /** Applies `f` to the reports of every group with id `gid`. */
  function MapReportsOf(gs: seq<Group>, gid: string, f: seq<Report> -> seq<Report>): (r: seq<Group>)
    ensures GroupIds(r) == GroupIds(gs)
    ensures forall i :: 0 <= i < |gs| && gs[i].id != gid ==> r[i] == gs[i]
    ensures forall i :: 0 <= i < |gs| && gs[i].id == gid ==>
      r[i] == gs[i].(reports := f(gs[i].reports))
  {
    seq(|gs|, i requires 0 <= i < |gs| =>
      if gs[i].id == gid then gs[i].(reports := f(gs[i].reports)) else gs[i])
  }

  /** `handleAddReport`: the report goes to the front of the group's reports. */
  function AddReport(gs: seq<Group>, gid: string, rep: Report): seq<Group>
  {
    MapReportsOf(gs, gid, rs => [rep] + rs)
  }

  /** `handleUpdateReport` */
  function UpdateReport(gs: seq<Group>, gid: string, rid: string, rep: Report): seq<Group>
  {
    MapReportsOf(gs, gid, rs => ReplaceByKey(rs, ReportId, rid, rep))
  }

  /** `handleDeleteReport` */
  function DeleteReport(gs: seq<Group>, gid: string, rid: string): seq<Group>
  {
    MapReportsOf(gs, gid, rs => RemoveByKey(rs, ReportId, rid))
  }

  /** Adding a report puts it first in the target group, keeps that group's
      older reports in order after it, and leaves every other group alone. */
  lemma AddReportSpec(gs: seq<Group>, gid: string, rep: Report)
    ensures GroupIds(AddReport(gs, gid, rep)) == GroupIds(gs)
    ensures forall i :: 0 <= i < |gs| ==>
      var g := AddReport(gs, gid, rep)[i];
      if gs[i].id == gid then g.reports[0] == rep && g.reports[1..] == gs[i].reports
        && g.(reports := gs[i].reports) == gs[i]
      else g == gs[i]
  {
  }

  /** Updating keeps each group's report ids when the new record carries the
      id it replaces; only reports with that id change. */
  lemma UpdateReportSpec(gs: seq<Group>, gid: string, rid: string, rep: Report)
    requires rep.id == rid
    ensures forall i :: 0 <= i < |gs| ==>
      var g := UpdateReport(gs, gid, rid, rep)[i];
      ReportIds(g.reports) == ReportIds(gs[i].reports)
      && (gs[i].id != gid ==> g == gs[i])
      && forall j :: 0 <= j < |g.reports| && gs[i].reports[j].id != rid ==> g.reports[j] == gs[i].reports[j]
  {
  }

  lemma RemoveFreshReport(rs: seq<Report>, rep: Report)
    requires rep.id !in ReportIds(rs)
    ensures RemoveByKey([rep] + rs, ReportId, rep.id) == rs
  {
    assert forall i :: 0 <= i < |rs| ==> ReportId(rs[i]) != rep.id by {
      forall i | 0 <= i < |rs| ensures ReportId(rs[i]) != rep.id {
        assert ReportIds(rs)[i] == rs[i].id;
      }
    }
    RemoveByKeyAbsent(rs, ReportId, rep.id);
    assert ([rep] + rs)[1..] == rs;
  }

  /** Deleting a report just added with a fresh id restores the groups. */
  lemma AddThenDeleteReport(gs: seq<Group>, gid: string, rep: Report)
    requires forall g :: g in gs && g.id == gid ==> rep.id !in ReportIds(g.reports)
    ensures DeleteReport(AddReport(gs, gid, rep), gid, rep.id) == gs
  {
    var r := DeleteReport(AddReport(gs, gid, rep), gid, rep.id);
    forall i | 0 <= i < |gs| ensures r[i] == gs[i] {
      if gs[i].id == gid {
        assert gs[i] in gs;
        RemoveFreshReport(gs[i].reports, rep);
      }
    }
  }

  /** `onAddGroup`, and `onSave` in create mode: the group is appended. */
  function AppendGroup(gs: seq<Group>, g: Group): (r: seq<Group>)
    ensures |r| == |gs| + 1 && r[..|gs|] == gs && r[|gs|] == g
  {
    gs + [g]
  }

  /** `onSave` in edit mode: replaced by id. */
  function ReplaceGroup(gs: seq<Group>, g: Group): (r: seq<Group>)
    ensures GroupIds(r) == GroupIds(gs)
    ensures forall i :: 0 <= i < |gs| ==> r[i] == if gs[i].id == g.id then g else gs[i]
  {
    ReplaceByKey(gs, GroupId, g.id, g)
  }

  /** `onDelete`: the group is kept and marked deleted. */
  function SoftDeleteGroup(gs: seq<Group>, id: string): (r: seq<Group>)
    ensures GroupIds(r) == GroupIds(gs)
  {
    seq(|gs|, i requires 0 <= i < |gs| => if gs[i].id == id then gs[i].(isDeleted := true) else gs[i])
  }

  /** A soft delete keeps every group and every report, and the deleted group
      disappears from the listings of live groups. */
  lemma SoftDeleteSpec(gs: seq<Group>, id: string)
    ensures forall i :: 0 <= i < |gs| ==>
      var g := SoftDeleteGroup(gs, id)[i];
      g.reports == gs[i].reports && (g.isDeleted <==> gs[i].isDeleted || gs[i].id == id)
    ensures forall g :: g in LiveGroups(SoftDeleteGroup(gs, id)) ==> g.id != id && g in gs
  {
  }

  // ---------------------------------------------------------------------------
  // The id-keyed bulk merge (`handleBulkUpdateLeaders`)

  /** `Array.from(new Map([...prev, ...upd].map(l => [l.id, l])).values())`:
      one record per id, in the order ids first appear, each the last record
      given for that id. */
  function BulkMerge(prev: seq<Leader>, upd: seq<Leader>): (r: seq<Leader>)
  {
    var all := prev + upd;
    var keys := Dedup(Ids(all));
    seq(|keys|, i requires 0 <= i < |keys| => LastLeader(all, keys[i]).value)
  }

  /** The state of a JavaScript `Map` from id to leader: its keys in insertion
      order and the value stored under each. */
  datatype IdMap = IdMap(keys: seq<string>, vals: map<string, Leader>)

  ghost predicate ValidMap(m: IdMap)
  {
    forall k :: k in m.keys <==> k in m.vals
  }

  /** `map.set(l.id, l)` */
  function MapSet(m: IdMap, l: Leader): IdMap
  {
    if l.id in m.vals then IdMap(m.keys, m.vals[l.id := l])
    else IdMap(m.keys + [l.id], m.vals[l.id := l])
  }

  /** The map after setting every leader of `ls` in order. */
  function SetAll(ls: seq<Leader>): IdMap
  {
    if ls == [] then IdMap([], map[]) else MapSet(SetAll(ls[..|ls| - 1]), ls[|ls| - 1])
  }

  lemma {:induction false} SetAllKeys(ls: seq<Leader>)
    ensures ValidMap(SetAll(ls))
    ensures SetAll(ls).keys == Dedup(Ids(ls))
  {
    if ls != [] {
      var init, x := ls[..|ls| - 1], ls[|ls| - 1];
      SetAllKeys(init);
      var m := SetAll(init);
      assert SetAll(ls) == MapSet(m, x);
      assert Ids(ls) == Ids(init) + [x.id];
      AppendNewSplit([], Ids(init), [x.id]);
      AppendNewOne(Dedup(Ids(init)), x.id);
      assert x.id in m.vals <==> x.id in Dedup(Ids(init));
    }
  }

  lemma {:induction false} SetAllVals(ls: seq<Leader>)
    ensures forall k :: k in SetAll(ls).vals ==> LastLeader(ls, k) == Some(SetAll(ls).vals[k])
  {
    if ls != [] {
      var init, x := ls[..|ls| - 1], ls[|ls| - 1];
      SetAllVals(init);
      assert ls == init + [x];
      forall k | k in SetAll(ls).vals ensures LastLeader(ls, k) == Some(SetAll(ls).vals[k]) {
        LastLeaderAppend(init, [x], k);
      }
    }
  }

  /** `new Map(prev.map(...))` followed by `upd.forEach(l => map.set(l.id, l))`:
      the `Map` after setting every record of `all` in order. */
  method FillMap(all: seq<Leader>) returns (keys: seq<string>, vals: map<string, Leader>)
    ensures IdMap(keys, vals) == SetAll(all)
  {
    keys, vals := [], map[];
    var i := 0;
    while i < |all|
      invariant 0 <= i <= |all|
      invariant IdMap(keys, vals) == SetAll(all[..i])
    {
      var l := all[i];
      if l.id !in vals {
        keys := keys + [l.id];
      }
      vals := vals[l.id := l];
      assert all[..i + 1][..i] == all[..i];
      i := i + 1;
    }
    assert all[..i] == all;
  }

  /** `handleBulkUpdateLeaders`: fill the `Map`, then read its values in key order. */
  method MergeLeaders(prev: seq<Leader>, upd: seq<Leader>) returns (r: seq<Leader>)
    ensures r == BulkMerge(prev, upd)
  {
    var all := prev + upd;
    var keys, vals := FillMap(all);
    ValuesInKeyOrder(all, keys, vals);
    r := ReadInOrder(keys, vals);
    MergeByKeys(prev, upd, r);
  }

  /** `Array.from(map.values())`: the stored values in key order. */
  method ReadInOrder(keys: seq<string>, vals: map<string, Leader>) returns (r: seq<Leader>)
    requires forall k :: k in keys ==> k in vals
    ensures |r| == |keys| && forall t :: 0 <= t < |keys| ==> r[t] == vals[keys[t]]
  {
    r := [];
    var j := 0;
    while j < |keys|
      invariant 0 <= j <= |keys|
      invariant |r| == j && forall t :: 0 <= t < j ==> r[t] == vals[keys[t]]
    {
      r := r + [vals[keys[j]]];
      j := j + 1;
    }
  }

  lemma MergeByKeys(prev: seq<Leader>, upd: seq<Leader>, r: seq<Leader>)
    requires var keys := Dedup(Ids(prev + upd));
      |r| == |keys| && forall t :: 0 <= t < |keys| ==> r[t] == LastLeader(prev + upd, keys[t]).value
    ensures r == BulkMerge(prev, upd)
  {
  }

  lemma ValuesInKeyOrder(all: seq<Leader>, keys: seq<string>, vals: map<string, Leader>)
    requires IdMap(keys, vals) == SetAll(all)
    ensures keys == Dedup(Ids(all))
    ensures forall t :: 0 <= t < |keys| ==> keys[t] in vals && vals[keys[t]] == LastLeader(all, keys[t]).value
  {
    SetAllKeys(all);
    SetAllVals(all);
  }

  /** The merge is an upsert by id: with distinct ids in `prev`, every old
      record keeps its position and takes the last update given for its id,
      and the ids seen only in `upd` follow in the order they first appear. */
  lemma BulkMergeUpsert(prev: seq<Leader>, upd: seq<Leader>)
    requires NoDup(Ids(prev))
    ensures Ids(BulkMerge(prev, upd)) == AppendNew(Ids(prev), Ids(upd))
    ensures forall i :: 0 <= i < |prev| ==>
      BulkMerge(prev, upd)[i] == if prev[i].id in Ids(upd) then LastLeader(upd, prev[i].id).value else prev[i]
  {
    MergeKeys(prev, upd);
    MergeIds(prev, upd);
    var keys := Dedup(Ids(prev + upd));
    var r := BulkMerge(prev, upd);
    forall i | 0 <= i < |prev|
      ensures r[i] == if prev[i].id in Ids(upd) then LastLeader(upd, prev[i].id).value else prev[i]
    {
      assert keys[i] == prev[i].id;
      LastLeaderAppend(prev, upd, prev[i].id);
      DistinctLookup(prev, i);
    }
  }

  /** With distinct old ids, the merged keys are the old ids followed by the
      new ones in order of first appearance. */
  lemma MergeKeys(prev: seq<Leader>, upd: seq<Leader>)
    requires NoDup(Ids(prev))
    ensures Dedup(Ids(prev + upd)) == AppendNew(Ids(prev), Ids(upd))
  {
    IdsAppend(prev, upd);
    AppendNewSplit([], Ids(prev), Ids(upd));
    AppendNewDistinct([], Ids(prev));
    assert [] + Ids(prev) == Ids(prev);
  }

  lemma MergeIds(prev: seq<Leader>, upd: seq<Leader>)
    ensures Ids(BulkMerge(prev, upd)) == Dedup(Ids(prev + upd))
  {
    var keys := Dedup(Ids(prev + upd));
    var r := BulkMerge(prev, upd);
    forall i | 0 <= i < |keys| ensures r[i].id == keys[i] {
      assert keys[i] in keys;
    }
  }


  /** Whatever `upd` holds, its last record for each id is in the merge. */
  lemma BulkMergeLastWins(prev: seq<Leader>, upd: seq<Leader>, id: string)
    requires id in Ids(upd)
    ensures LastLeader(upd, id).value in BulkMerge(prev, upd)
  {
    var all := prev + upd;
    IdsAppend(prev, upd);
    LastLeaderAppend(prev, upd, id);
    var keys := Dedup(Ids(all));
    assert id in keys;
    var i :| 0 <= i < |keys| && keys[i] == id;
    assert BulkMerge(prev, upd)[i] == LastLeader(all, id).value;
  }

  // ---------------------------------------------------------------------------
  // The state holder

  class AppState {
    var leaders: seq<Leader>
    var members: seq<Member>
    var currentUser: Option<Leader>

    constructor (leaders0: seq<Leader>, members0: seq<Member>)
      ensures leaders == leaders0 && members == members0 && currentUser == None
    {
      leaders := leaders0;
      members := members0;
      currentUser := None;
    }

    /** `updateAllState` */
    method UpdateAllState(u: Leader)
      modifies this
      ensures currentUser == Some(u)
      ensures leaders == ReplaceLeader(old(leaders), u)
      ensures members == old(members)
    {
      currentUser := Some(u);
      leaders := ReplaceLeader(leaders, u);
    }

    /** Rebuilds the signed-in leader's groups with `gs`; nothing happens
        when nobody is signed in. */
    method SetOwnGroups(gs: seq<Group>)
      modifies this
      requires currentUser.Some?
      ensures currentUser == Some(old(currentUser).value.(groups := gs))
      ensures leaders == ReplaceLeader(old(leaders), old(currentUser).value.(groups := gs))
      ensures members == old(members)
    {
      UpdateAllState(currentUser.value.(groups := gs));
    }

    method HandleAddReport(gid: string, rep: Report)
      modifies this
      ensures old(currentUser).None? ==> unchanged(this)
      ensures old(currentUser).Some? ==>
        var u := old(currentUser).value.(groups := AddReport(old(currentUser).value.groups, gid, rep));
        currentUser == Some(u) && leaders == ReplaceLeader(old(leaders), u) && members == old(members)
    {
      if currentUser.Some? {
        SetOwnGroups(AddReport(currentUser.value.groups, gid, rep));
      }
    }

    method HandleUpdateReport(gid: string, rid: string, rep: Report)
      modifies this
      ensures old(currentUser).None? ==> unchanged(this)
      ensures old(currentUser).Some? ==>
        var u := old(currentUser).value.(groups := UpdateReport(old(currentUser).value.groups, gid, rid, rep));
        currentUser == Some(u) && leaders == ReplaceLeader(old(leaders), u) && members == old(members)
    {
      if currentUser.Some? {
        SetOwnGroups(UpdateReport(currentUser.value.groups, gid, rid, rep));
      }
    }

    method HandleDeleteReport(gid: string, rid: string)
      modifies this
      ensures old(currentUser).None? ==> unchanged(this)
      ensures old(currentUser).Some? ==>
        var u := old(currentUser).value.(groups := DeleteReport(old(currentUser).value.groups, gid, rid));
        currentUser == Some(u) && leaders == ReplaceLeader(old(leaders), u) && members == old(members)
    {
      if currentUser.Some? {
        SetOwnGroups(DeleteReport(currentUser.value.groups, gid, rid));
      }
    }

    /** `onAddGroup`, and the settings screen's `onSave`: appended when
        creating, replaced by id when editing. */
    method HandleSaveGroup(g: Group, creating: bool)
      modifies this
      requires currentUser.Some?
      ensures var gs := old(currentUser).value.groups;
        var u := old(currentUser).value.(groups := if creating then AppendGroup(gs, g) else ReplaceGroup(gs, g));
        currentUser == Some(u) && leaders == ReplaceLeader(old(leaders), u) && members == old(members)
    {
      var gs := currentUser.value.groups;
      SetOwnGroups(if creating then AppendGroup(gs, g) else ReplaceGroup(gs, g));
    }

    method HandleDeleteGroup(id: string)
      modifies this
      requires currentUser.Some?
      ensures var u := old(currentUser).value.(groups := SoftDeleteGroup(old(currentUser).value.groups, id));
        currentUser == Some(u) && leaders == ReplaceLeader(old(leaders), u) && members == old(members)
    {
      SetOwnGroups(SoftDeleteGroup(currentUser.value.groups, id));
    }

    method HandleAddMember(m: Member)
      modifies this
      ensures members == AddMember(old(members), m)
      ensures leaders == old(leaders) && currentUser == old(currentUser)
    {
      members := AddMember(members, m);
    }

    method HandleUpdateMember(m: Member)
      modifies this
      ensures members == UpdateMember(old(members), m)
      ensures leaders == old(leaders) && currentUser == old(currentUser)
    {
      members := UpdateMember(members, m);
    }

    method HandleDeleteMember(id: string)
      modifies this
      ensures members == DeleteMember(old(members), id)
      ensures leaders == old(leaders) && currentUser == old(currentUser)
    {
      members := DeleteMember(members, id);
    }

    /** The directory's `onSaveLeader`: a replacement by id, never an insert. */
    method SaveDirectoryLeader(l: Leader)
      modifies this
      ensures leaders == ReplaceLeader(old(leaders), l)
      ensures members == old(members) && currentUser == old(currentUser)
    {
      leaders := ReplaceLeader(leaders, l);
    }

    /** The directory's `onDeleteLeader`. */
    method DeleteDirectoryLeader(id: string)
      modifies this
      ensures leaders == RemoveLeader(old(leaders), id)
      ensures members == old(members) && currentUser == old(currentUser)
    {
      leaders := RemoveLeader(leaders, id);
    }

    /** `handleBulkUpdateLeaders`: the merge, and the signed-in leader becomes
        the FIRST record of `upd` with its id when there is one. */
    method BulkUpdateLeaders(upd: seq<Leader>)
      modifies this
      ensures leaders == BulkMerge(old(leaders), upd)
      ensures currentUser == if old(currentUser).Some? && FindLeader(upd, old(currentUser).value.id).Some?
        then FindLeader(upd, old(currentUser).value.id) else old(currentUser)
      ensures members == old(members)
    {
      leaders := MergeLeaders(leaders, upd);
      if currentUser.Some? {
        var found := FindLeader(upd, currentUser.value.id);
        if found.Some? {
          currentUser := found;
        }
      }
    }
  }
}
