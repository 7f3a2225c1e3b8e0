/** The lineage wall (components/LineagePhotoView.tsx): the tribe leaders to
    choose from, and for the chosen one its whole tribe ordered by generation
    and MG code, its size, and a one-line count of every generation below the
    tribe leader's. */
module LineagePhotoView {
  import opened Text
  import opened Seqs
  import opened Domain
  import opened Orders
  import Store

  /** `rootLeaders`: the tribe leaders in MG-code order. */
  function RootLeaders(all: seq<Leader>): seq<Leader>
  {
    SortBy(Filter(all, IsTribeRoot), ByMgCode)
  }

  /** The tribe leaders, each as often as stored, in MG-code order, and
      leaders with equal codes in stored order. */
  lemma RootLeadersSpec(all: seq<Leader>)
    ensures forall l :: l in RootLeaders(all) <==> l in all && IsTribeRoot(l)
    ensures multiset(RootLeaders(all)) == multiset(Filter(all, IsTribeRoot))
    ensures SortedBy(RootLeaders(all), ByMgCode)
    ensures forall x :: Ties(RootLeaders(all), ByMgCode, x) == Ties(Filter(all, IsTribeRoot), ByMgCode, x)
  {
    var roots := Filter(all, IsTribeRoot);
    SortByMembers(roots, ByMgCode);
    ByMgCodePreorder();
    SortBySorted(roots, ByMgCode);
    forall x ensures Ties(SortBy(roots, ByMgCode), ByMgCode, x) == Ties(roots, ByMgCode, x) {
      SortByStable(roots, ByMgCode, x);
    }
  }

  /** The initial selection: `rootLeaders[0]?.id || ''`. */
  function DefaultRootId(all: seq<Leader>): (id: string)
    ensures RootLeaders(all) == [] ==> id == ""
    ensures RootLeaders(all) != [] ==> id == RootLeaders(all)[0].id
  {
    var roots := RootLeaders(all);
    if |roots| > 0 then roots[0].id else ""
  }

  // ---------------------------------------------------------------------------
  // The tribe, generation first

  /** `a.generation - b.generation`, then `a.mgCode.localeCompare(b.mgCode)`. */
  const ByGenerationThenCode: (Leader, Leader) -> bool :=
    (a: Leader, b: Leader) => a.generation < b.generation || (a.generation == b.generation && LexLe(a.mgCode, b.mgCode))

  lemma ByGenerationThenCodePreorder()
    ensures TotalPreorder(ByGenerationThenCode)
  {
    var le := ByGenerationThenCode;
    forall a: Leader, b: Leader ensures le(a, b) || le(b, a) {
      LexLeTotal(a.mgCode, b.mgCode);
    }
    forall a: Leader, b: Leader, c: Leader | le(a, b) && le(b, c) ensures le(a, c) {
      if a.generation == b.generation == c.generation {
        LexLeTransitive(a.mgCode, b.mgCode, c.mgCode);
      }
    }
  }

  /** `genCounts`: leaders per generation, for generations after the first. */
  function GenCounts(ls: seq<Leader>): map<int, nat>
  {
    if ls == [] then map[]
    else
      var m := GenCounts(ls[..|ls| - 1]);
      var g := ls[|ls| - 1].generation;
      if g > 1 then Bump(m, g) else m
  }

  /** The `lineage.forEach` loop. */
  method CountGenerations(ls: seq<Leader>) returns (genCounts: map<int, nat>)
    ensures genCounts == GenCounts(ls)
  {
    genCounts := map[];
    var i := 0;
    while i < |ls|
      invariant 0 <= i <= |ls|
      invariant genCounts == GenCounts(ls[..i])
    {
      assert ls[..i + 1][..i] == ls[..i];
      var g := ls[i].generation;
      if g > 1 {
        genCounts := genCounts[g := Lookup(genCounts, g) + 1];
      }
      i := i + 1;
    }
    assert ls[..i] == ls;
  }

  /** Leaders of generation `g`. */
  function GenCount(ls: seq<Leader>, g: int): nat
  {
    Count(ls, (d: Leader) => d.generation == g)
  }

  /** Every generation after the first that occurs has its count; the first
      generation and generations that do not occur have no entry. */
  lemma {:induction false} GenCountsSpec(ls: seq<Leader>)
    ensures forall g :: g in GenCounts(ls) <==> g > 1 && exists d :: d in ls && d.generation == g
    ensures forall g :: g > 1 ==> Lookup(GenCounts(ls), g) == GenCount(ls, g)
  {
    if ls != [] {
      var p := ls[..|ls| - 1];
      var last := ls[|ls| - 1];
      GenCountsSpec(p);
      assert ls == p + [last];
      forall g ensures g in GenCounts(ls) <==> g > 1 && exists d :: d in ls && d.generation == g {
        if g > 1 && g !in GenCounts(p) && g != last.generation {
          assert forall d :: d in ls ==> d in p || d == last;
        }
        if g in GenCounts(p) {
          var d :| d in p && d.generation == g;
          assert d in ls;
        }
      }
      forall g | g > 1 ensures Lookup(GenCounts(ls), g) == GenCount(ls, g) {
        CountSnoc(p, last, (d: Leader) => d.generation == g);
      }
    }
  }

  /** The keys of `m` from `lo` to `hi`, in ascending order. */
  function KeysBetween(m: map<int, nat>, lo: int, hi: int): (r: seq<int>)
    ensures forall g :: g in r <==> lo <= g <= hi && g in m
    ensures forall i, j :: 0 <= i < j < |r| ==> r[i] < r[j]
    decreases hi - lo
  {
    if lo > hi then []
    else
      var rest := KeysBetween(m, lo + 1, hi);
      assert forall j :: 0 <= j < |rest| ==> lo < rest[j] by {
        forall j | 0 <= j < |rest| ensures lo < rest[j] {
          assert rest[j] in rest;
        }
      }
      (if lo in m then [lo] else []) + rest
  }

  /** The entries of `genCounts` as `Object.entries` lists them: integer
      keys in ascending order. The deepest generation is the last leader's,
      since the tribe is sorted by generation. */
  function Entries(lineage: seq<Leader>): seq<int>
  {
    if lineage == [] then [] else KeysBetween(GenCounts(lineage), 2, lineage[|lineage| - 1].generation)
  }

  /** `第${gen}代：${count}` */
  function EntryText(g: int, n: nat): string
  {
    "第" + IntToString(g) + "代：" + NatToString(n)
  }

  function EntryTexts(m: map<int, nat>, gens: seq<int>): (r: seq<string>)
    ensures |r| == |gens| && forall i :: 0 <= i < |gens| ==> r[i] == EntryText(gens[i], Lookup(m, gens[i]))
  {
    if gens == [] then [] else [EntryText(gens[0], Lookup(m, gens[0]))] + EntryTexts(m, gens[1..])
  }

  /** `breakdownStr` */
  function BreakdownText(lineage: seq<Leader>): string
  {
    Join(EntryTexts(GenCounts(lineage), Entries(lineage)), "、")
  }

  /** For a tribe sorted by generation, the listed generations are exactly
      those after the first that occur, each once and in ascending order,
      and each is shown with the number of its leaders. */
  lemma EntriesSpec(lineage: seq<Leader>)
    requires SortedBy(lineage, ByGenerationThenCode)
    ensures forall g :: g in Entries(lineage) <==> g > 1 && exists d :: d in lineage && d.generation == g
    ensures forall i, j :: 0 <= i < j < |Entries(lineage)| ==> Entries(lineage)[i] < Entries(lineage)[j]
    ensures forall g :: g in Entries(lineage) ==> Lookup(GenCounts(lineage), g) == GenCount(lineage, g)
  {
    GenCountsSpec(lineage);
    if lineage != [] {
      var last := lineage[|lineage| - 1];
      forall d | d in lineage ensures d.generation <= last.generation {
        var i :| 0 <= i < |lineage| && lineage[i] == d;
        if i < |lineage| - 1 {
          assert ByGenerationThenCode(lineage[i], last);
        }
      }
    }
  }

  // ---------------------------------------------------------------------------
  // The selected tribe

  datatype LineageView = LineageView(root: Leader, lineage: seq<Leader>, totalCount: nat, breakdown: string)

  /** `activeLineageData`: nothing when no leader has the selected id. */
  function ActiveLineage(all: seq<Leader>, selectedId: string): (r: Option<LineageView>)
    ensures r.None? <==> selectedId !in Store.Ids(all)
  {
    match Store.FindLeader(all, selectedId)
    case None => None
    case Some(root) =>
      var lineage := SortBy(TribeLineage(all, root), ByGenerationThenCode);
      Some(LineageView(root, lineage, |lineage|, BreakdownText(lineage)))
  }

  /** The view of a known leader: its tribe as stored, each leader as often
      as stored and the leader itself among them, in generation-then-code
      order with ties in stored order, counted in full. */
  lemma ActiveLineageSpec(all: seq<Leader>, selectedId: string)
    requires ActiveLineage(all, selectedId).Some?
    ensures var v := ActiveLineage(all, selectedId).value;
      && v.root in all && v.root.id == selectedId
      && (forall l :: l in v.lineage <==> l in all && InLineage(l.mgCode, v.root.mgCode))
      && multiset(v.lineage) == multiset(TribeLineage(all, v.root))
      && v.root in v.lineage
      && SortedBy(v.lineage, ByGenerationThenCode)
      && (forall x :: Ties(v.lineage, ByGenerationThenCode, x) == Ties(TribeLineage(all, v.root), ByGenerationThenCode, x))
      && v.totalCount == |v.lineage| >= 1
      && v.breakdown == BreakdownText(v.lineage)
  {
    var root := Store.FindLeader(all, selectedId).value;
    var ls := TribeLineage(all, root);
    SelfInLineage(root.mgCode);
    SortByMembers(ls, ByGenerationThenCode);
    ByGenerationThenCodePreorder();
    SortBySorted(ls, ByGenerationThenCode);
    forall x ensures Ties(SortBy(ls, ByGenerationThenCode), ByGenerationThenCode, x) == Ties(ls, ByGenerationThenCode, x) {
      SortByStable(ls, ByGenerationThenCode, x);
    }
  }

  /** With at least one tribe leader the default selection always shows a
      tribe. */
  lemma DefaultRootShown(all: seq<Leader>)
    requires RootLeaders(all) != []
    ensures ActiveLineage(all, DefaultRootId(all)).Some?
  {
    var roots := RootLeaders(all);
    RootLeadersSpec(all);
    assert roots[0] in roots;
    var k :| 0 <= k < |all| && all[k] == roots[0];
    assert Store.Ids(all)[k] == roots[0].id;
  }
}
