/** Tribe statistics (components/TribeStatistics.tsx): one row per tribe
    leader (a two-character MG code) with the size of the tribe, its gender
    tallies, its deepest generation and a count per generation, sorted by
    tribe code, and the spreadsheet export of those rows. */
module TribeStatistics {
  import opened Text
  import opened Seqs
  import opened Domain

  /** `allLeaders.filter(l => l.mgCode && l.mgCode.length === 2)` */
  function Roots(all: seq<Leader>): (r: seq<Leader>)
    ensures forall l :: l in r <==> l in all && IsTribeRoot(l)
  {
    Filter(all, IsTribeRoot)
  }

  // ---------------------------------------------------------------------------
  // The tallies of the `descendants.forEach` loop, as functions of the
  // leaders visited so far

  /** `breakdown`: leaders per generation. */
  function Breakdown(ds: seq<Leader>): map<int, nat>
  {
    if ds == [] then map[] else Bump(Breakdown(ds[..|ds| - 1]), ds[|ds| - 1].generation)
  }

  /** `maxGen`: starts at the root's generation and rises to any later one. */
  function MaxGen(start: int, ds: seq<Leader>): int
  {
    if ds == [] then start
    else
      var m := MaxGen(start, ds[..|ds| - 1]);
      if ds[|ds| - 1].generation > m then ds[|ds| - 1].generation else m
  }

  /** The deepest generation is at least the start and every leader's
      generation, and it is the start or some leader's generation. */
  lemma {:induction false} MaxGenSpec(start: int, ds: seq<Leader>)
    ensures MaxGen(start, ds) >= start && forall d :: d in ds ==> d.generation <= MaxGen(start, ds)
    ensures MaxGen(start, ds) == start || exists d :: d in ds && d.generation == MaxGen(start, ds)
  {
    if ds != [] {
      var p := ds[..|ds| - 1];
      MaxGenSpec(start, p);
      assert forall d :: d in ds <==> d in p || d == ds[|ds| - 1];
    }
  }

  /** Leaders whose gender is exactly `gender`. */
  function GenderCount(ds: seq<Leader>, gender: string): nat
  {
    if ds == [] then 0
    else GenderCount(ds[..|ds| - 1], gender) + (if ds[|ds| - 1].gender == Some(gender) then 1 else 0)
  }

  /** Leaders of generation `g`. */
  function GenCount(ds: seq<Leader>, g: int): nat
  {
    Count(ds, (d: Leader) => d.generation == g)
  }

  /** Each generation's entry is the number of leaders of that generation,
      and the entries add up to the number of leaders. */
  lemma {:induction false} BreakdownSpec(ds: seq<Leader>)
    ensures forall g :: Lookup(Breakdown(ds), g) == GenCount(ds, g)
    ensures MapSum(Breakdown(ds)) == |ds|
  {
    if ds != [] {
      var p := ds[..|ds| - 1];
      var last := ds[|ds| - 1];
      BreakdownSpec(p);
      MapSumBump(Breakdown(p), last.generation);
      assert ds == p + [last];
      forall g ensures Lookup(Breakdown(ds), g) == GenCount(ds, g) {
        CountSnoc(p, last, (d: Leader) => d.generation == g);
      }
    }
  }

  /** A generation has an entry exactly when some leader is of it. */
  lemma {:induction false} BreakdownKeys(ds: seq<Leader>)
    ensures forall g :: g in Breakdown(ds) <==> exists d :: d in ds && d.generation == g
  {
    if ds != [] {
      var p := ds[..|ds| - 1];
      BreakdownKeys(p);
      assert forall d :: d in ds <==> d in p || d == ds[|ds| - 1];
    }
  }

  /** A leader has one gender at most, so the two tallies never exceed the
      number of leaders. */
  lemma {:induction false} GenderBound(ds: seq<Leader>)
    ensures GenderCount(ds, "Male") + GenderCount(ds, "Female") <= |ds|
  {
    if ds != [] {
      GenderBound(ds[..|ds| - 1]);
    }
  }

  /** The `forEach` loop over a tribe's leaders. */
  method TallyLineage(ds: seq<Leader>, rootGen: int) returns (breakdown: map<int, nat>, maxGen: int, male: nat, female: nat)
    ensures breakdown == Breakdown(ds) && maxGen == MaxGen(rootGen, ds)
    ensures male == GenderCount(ds, "Male") && female == GenderCount(ds, "Female")
  {
    breakdown := map[];
    maxGen := rootGen;
    male, female := 0, 0;
    var i := 0;
    while i < |ds|
      invariant 0 <= i <= |ds|
      invariant breakdown == Breakdown(ds[..i]) && maxGen == MaxGen(rootGen, ds[..i])
      invariant male == GenderCount(ds[..i], "Male") && female == GenderCount(ds[..i], "Female")
    {
      assert ds[..i + 1][..i] == ds[..i];
      var d := ds[i];
      breakdown := breakdown[d.generation := Lookup(breakdown, d.generation) + 1];
      if d.generation > maxGen {
        maxGen := d.generation;
      }
      if d.gender == Some("Male") {
        male := male + 1;
      }
      if d.gender == Some("Female") {
        female := female + 1;
      }
      i := i + 1;
    }
    assert ds[..i] == ds;
  }

  // ---------------------------------------------------------------------------
  // Rows

  datatype TribeRow = TribeRow(
    root: Leader,
    tribeName: string,
    tribeCode: string,
    totalDescendants: nat,
    maleCount: nat,
    femaleCount: nat,
    maxGeneration: int,
    breakdown: map<int, nat>)

  function RowOf(all: seq<Leader>, root: Leader): TribeRow
  {
    var ds := TribeLineage(all, root);
    TribeRow(root, DisplayName(root), root.mgCode, |ds|, GenderCount(ds, "Male"), GenderCount(ds, "Female"),
             MaxGen(root.generation, ds), Breakdown(ds))
  }

  /** What a row promises about the tribe of a stored root: the root is
      counted, the per-generation counts add up to the total, the deepest
      generation is the largest one present (or the root's), and the two
      gender tallies stay within the total. */
  lemma RowSpec(all: seq<Leader>, root: Leader)
    requires root in all
    ensures var row := RowOf(all, root);
      && row.totalDescendants >= 1
      && MapSum(row.breakdown) == row.totalDescendants
      && (forall g :: Lookup(row.breakdown, g) == GenCount(TribeLineage(all, root), g))
      && (forall g :: g in row.breakdown <==> exists d :: d in TribeLineage(all, root) && d.generation == g)
      && row.maxGeneration >= root.generation
      && (forall d :: d in TribeLineage(all, root) ==> d.generation <= row.maxGeneration)
      && row.maleCount + row.femaleCount <= row.totalDescendants
  {
    var ds := TribeLineage(all, root);
    SelfInLineage(root.mgCode);
    assert root in ds;
    BreakdownSpec(ds);
    BreakdownKeys(ds);
    MaxGenSpec(root.generation, ds);
    GenderBound(ds);
  }

  function RowsOf(all: seq<Leader>, roots: seq<Leader>): (r: seq<TribeRow>)
    ensures |r| == |roots| && forall i :: 0 <= i < |roots| ==> r[i] == RowOf(all, roots[i])
  {
    MapSeq((root: Leader) => RowOf(all, root), roots)
  }

  lemma RowsOfSnoc(all: seq<Leader>, roots: seq<Leader>, i: nat)
    requires i < |roots|
    ensures RowsOf(all, roots[..i + 1]) == RowsOf(all, roots[..i]) + [RowOf(all, roots[i])]
  {
    MapSeqStep((root: Leader) => RowOf(all, root), roots, i);
  }

  /** `(a, b) => a.tribeCode.localeCompare(b.tribeCode)` */
  const ByTribeCode: (TribeRow, TribeRow) -> bool := (a: TribeRow, b: TribeRow) => LexLe(a.tribeCode, b.tribeCode)

  lemma ByTribeCodePreorder()
    ensures TotalPreorder(ByTribeCode)
  {
    forall a: TribeRow, b: TribeRow ensures LexLe(a.tribeCode, b.tribeCode) || LexLe(b.tribeCode, a.tribeCode) {
      LexLeTotal(a.tribeCode, b.tribeCode);
    }
    forall a: TribeRow, b: TribeRow, c: TribeRow | LexLe(a.tribeCode, b.tribeCode) && LexLe(b.tribeCode, c.tribeCode)
      ensures LexLe(a.tribeCode, c.tribeCode)
    {
      LexLeTransitive(a.tribeCode, b.tribeCode, c.tribeCode);
    }
  }

  /** `tribeData` */
  function TribeData(all: seq<Leader>): seq<TribeRow>
  {
    SortBy(RowsOf(all, Roots(all)), ByTribeCode)
  }

  /** There is one row per tribe leader, each built from that leader's tribe,
      and the rows are in tribe-code order. */
  lemma TribeDataSpec(all: seq<Leader>)
    ensures |TribeData(all)| == |Roots(all)|
    ensures forall row :: row in TribeData(all) <==> row.root in all && IsTribeRoot(row.root) && row == RowOf(all, row.root)
    ensures SortedBy(TribeData(all), ByTribeCode)
  {
    var roots := Roots(all);
    var rs := RowsOf(all, roots);
    SortByMembers(rs, ByTribeCode);
    ByTribeCodePreorder();
    SortBySorted(rs, ByTribeCode);
    forall row ensures row in rs <==> row.root in roots && row == RowOf(all, row.root) {
      if row in rs {
        var i :| 0 <= i < |rs| && rs[i] == row;
        assert roots[i] in roots;
      }
      if row.root in roots && row == RowOf(all, row.root) {
        var i :| 0 <= i < |roots| && roots[i] == row.root;
        assert rs[i] == row;
      }
    }
  }

  /** Builds the rows root by root with the tally loop, then sorts them. */
  method ComputeTribeData(all: seq<Leader>) returns (rows: seq<TribeRow>)
    ensures rows == TribeData(all)
  {
    var roots := Roots(all);
    var acc: seq<TribeRow> := [];
    var i := 0;
    while i < |roots|
      invariant 0 <= i <= |roots|
      invariant acc == RowsOf(all, roots[..i])
    {
      var root := roots[i];
      var ds := TribeLineage(all, root);
      var breakdown, maxGen, male, female := TallyLineage(ds, root.generation);
      RowsOfSnoc(all, roots, i);
      acc := acc + [TribeRow(root, DisplayName(root), root.mgCode, |ds|, male, female, maxGen, breakdown)];
      i := i + 1;
    }
    assert roots[..i] == roots;
    rows := SortBy(acc, ByTribeCode);
  }

  // ---------------------------------------------------------------------------
  // Export

  const ExportHeaders: seq<string> := [
    "Name", "Max Gen (最高代數)", "MG Code (MG 小組代號)", "Total Leaders (族系小組長總數)",
    "Male Leaders (男性小組長總數)", "Female Leaders (女性小組長總數)",
    "Gen 1", "Gen 2", "Gen 3", "Gen 4", "Gen 5", "Gen 6+"]

  /** The quoted name cell: `"${mgCode} ${chineseName || ''} ${firstName || ''}"`. */
  function NameCell(root: Leader): string
  {
    "\"" + root.mgCode + " " + OrEmpty(root.chineseName) + " " + OrEmpty(root.firstName) + "\""
  }

  /** The exported cells of a row as the screen writes them: the last column,
      headed "Gen 6+", holds the count of generation 6 alone. */
  function ExportCells(row: TribeRow): (r: seq<string>)
    ensures |r| == |ExportHeaders|
    ensures forall k :: 1 <= k <= 6 ==> r[5 + k] == NatToString(Lookup(row.breakdown, k))
  {
    [NameCell(row.root), IntToString(row.maxGeneration), row.tribeCode, NatToString(row.totalDescendants),
     NatToString(row.maleCount), NatToString(row.femaleCount),
     NatToString(Lookup(row.breakdown, 1)), NatToString(Lookup(row.breakdown, 2)),
     NatToString(Lookup(row.breakdown, 3)), NatToString(Lookup(row.breakdown, 4)),
     NatToString(Lookup(row.breakdown, 5)), NatToString(Lookup(row.breakdown, 6))]
  }

  /** One comma-joined line per row, as the screen writes the file. */
  function ExportLines(rows: seq<TribeRow>): (r: seq<string>)
    ensures |r| == |rows| && forall i :: 0 <= i < |rows| ==> r[i] == Join(ExportCells(rows[i]), ",")
  {
    if rows == [] then [] else [Join(ExportCells(rows[0]), ",")] + ExportLines(rows[1..])
  }

  /** The file body as the screen writes it (before the byte-order mark):
      the header line, then one line per row, joined by newlines. */
  function ExportText(rows: seq<TribeRow>): string
  {
    Join([Join(ExportHeaders, ",")] + ExportLines(rows), "\n")
  }

  /** The lines with the "Gen 6+" column counting every generation from six
      on (see `ExportCellsFromSix`). */
  function ExportLinesFromSix(all: seq<Leader>, rows: seq<TribeRow>): (r: seq<string>)
    ensures |r| == |rows| && forall i :: 0 <= i < |rows| ==> r[i] == Join(ExportCellsFromSix(all, rows[i]), ",")
  {
    if rows == [] then [] else [Join(ExportCellsFromSix(all, rows[0]), ",")] + ExportLinesFromSix(all, rows[1..])
  }

  /** The file body with the corrected "Gen 6+" column. */
  function ExportTextFromSix(all: seq<Leader>, rows: seq<TribeRow>): string
  {
    Join([Join(ExportHeaders, ",")] + ExportLinesFromSix(all, rows), "\n")
  }

  lemma DigitsNoNewline(n: int)
    ensures '\n' !in IntToString(n)
  {
    var t := NatToString(if n < 0 then -n else n);
    assert forall k :: 0 <= k < |t| ==> t[k] != '\n';
  }

  /** A row whose name cell and tribe code hold no line break exports as a
      single line. */
  lemma LineHasNoNewline(row: TribeRow)
    requires '\n' !in NameCell(row.root) && '\n' !in row.tribeCode
    ensures '\n' !in Join(ExportCells(row), ",")
  {
    var cells := ExportCells(row);
    DigitsNoNewline(row.maxGeneration);
    forall k | 0 <= k < |cells| ensures '\n' !in cells[k] {
      if k >= 3 {
        var n: nat :| cells[k] == NatToString(n);
        DigitsNoNewline(n);
      }
    }
    JoinWithout(cells, ",", '\n');
  }

  /** Reading the exported file back line by line gives the header line and
      then exactly one line per tribe, in table order, as long as no name or
      code holds a line break. */
  lemma ExportFileLines(rows: seq<TribeRow>)
    requires forall i :: 0 <= i < |rows| ==> '\n' !in NameCell(rows[i].root) && '\n' !in rows[i].tribeCode
    ensures Split(ExportText(rows), '\n') == [Join(ExportHeaders, ",")] + ExportLines(rows)
    ensures |Split(ExportText(rows), '\n')| == |rows| + 1
  {
    HeaderLineNoNewline();
    LinesAfterHeader(Join(ExportHeaders, ","), rows);
  }

  /** The same for any header line without a line break. */
  lemma LinesAfterHeader(header: string, rows: seq<TribeRow>)
    requires '\n' !in header
    requires forall i :: 0 <= i < |rows| ==> '\n' !in NameCell(rows[i].root) && '\n' !in rows[i].tribeCode
    ensures Split(Join([header] + ExportLines(rows), "\n"), '\n') == [header] + ExportLines(rows)
  {
    BodyNoNewline(rows);
    HeaderAndLines(header, ExportLines(rows));
  }

  /** A header line and body lines, none with a line break, joined with
      line feeds, split back into the same lines. */
  lemma HeaderAndLines(header: string, body: seq<string>)
    requires '\n' !in header
    requires forall k :: 0 <= k < |body| ==> '\n' !in body[k]
    ensures Split(Join([header] + body, "\n"), '\n') == [header] + body
  {
    var lines := [header] + body;
    forall k | 0 <= k < |lines| ensures '\n' !in lines[k] {
      if k > 0 {
        assert lines[k] == body[k - 1];
      }
    }
    LinesRoundTrip(lines);
  }

  /** Lines without line breaks, joined with line feeds, split back into
      the same lines. */
  lemma LinesRoundTrip(lines: seq<string>)
    requires |lines| >= 1
    requires forall k :: 0 <= k < |lines| ==> '\n' !in lines[k]
    ensures Split(Join(lines, "\n"), '\n') == lines
  {
    assert "\n" == ['\n'];
    SplitJoin(lines, '\n');
  }

  /** No exported tribe line holds a line break. */
  lemma BodyNoNewline(rows: seq<TribeRow>)
    requires forall i :: 0 <= i < |rows| ==> '\n' !in NameCell(rows[i].root) && '\n' !in rows[i].tribeCode
    ensures forall k :: 0 <= k < |ExportLines(rows)| ==> '\n' !in ExportLines(rows)[k]
  {
    forall k | 0 <= k < |rows| ensures '\n' !in ExportLines(rows)[k] {
      LineHasNoNewline(rows[k]);
    }
  }

  lemma HeaderLineNoNewline()
    ensures '\n' !in Join(ExportHeaders, ",")
  {
    var h := ExportHeaders;
    assert forall k :: 0 <= k < |h| ==> '\n' !in h[k];
    JoinWithout(h, ",", '\n');
  }

  /** Leaders of generation six or deeper. */
  function GenCountFrom(ds: seq<Leader>, g: int): nat
  {
    Count(ds, (d: Leader) => d.generation >= g)
  }

  /** The six generation columns as the screen fills them. */
  function GenColumnsTotal(ds: seq<Leader>): nat
  {
    GenCount(ds, 1) + GenCount(ds, 2) + GenCount(ds, 3) + GenCount(ds, 4) + GenCount(ds, 5) + GenCount(ds, 6)
  }

  /** The six generation columns with "Gen 6+" counting every generation from
      six on, as its heading says. */
  function GenColumnsTotalFromSix(ds: seq<Leader>): nat
  {
    GenCount(ds, 1) + GenCount(ds, 2) + GenCount(ds, 3) + GenCount(ds, 4) + GenCount(ds, 5) + GenCountFrom(ds, 6)
  }

  /** Read with "Gen 6+" as its heading says, the generation columns account
      for every leader of the tribe whenever generations start at 1. */
  lemma {:induction false} GenColumnsFromSixCoverTribe(ds: seq<Leader>)
    requires forall d :: d in ds ==> d.generation >= 1
    ensures GenColumnsTotalFromSix(ds) == |ds|
  {
    if ds != [] {
      var p := ds[..|ds| - 1];
      var d := ds[|ds| - 1];
      assert ds == p + [d];
      GenColumnsFromSixCoverTribe(p);
      CountSnoc(p, d, (x: Leader) => x.generation == 1);
      CountSnoc(p, d, (x: Leader) => x.generation == 2);
      CountSnoc(p, d, (x: Leader) => x.generation == 3);
      CountSnoc(p, d, (x: Leader) => x.generation == 4);
      CountSnoc(p, d, (x: Leader) => x.generation == 5);
      CountSnoc(p, d, (x: Leader) => x.generation >= 6);
    }
  }

  /** As written, a tribe with a leader of generation seven or deeper has
      generation columns that add up to less than its total. */
  lemma GenColumnsMissDeepLeaders(ds: seq<Leader>, deep: Leader)
    requires forall d :: d in ds ==> d.generation >= 1
    requires deep in ds && deep.generation >= 7
    ensures GenColumnsTotal(ds) < |ds|
  {
    GenColumnsFromSixCoverTribe(ds);
    GenSixBelowFromSix(ds, deep);
  }

  /** Counting generation six alone misses a deeper leader. */
  lemma {:induction false} GenSixBelowFromSix(ds: seq<Leader>, deep: Leader)
    requires deep in ds && deep.generation >= 7
    ensures GenCount(ds, 6) < GenCountFrom(ds, 6)
  {
    var p := ds[..|ds| - 1];
    var d := ds[|ds| - 1];
    assert ds == p + [d];
    CountSnoc(p, d, (x: Leader) => x.generation == 6);
    CountSnoc(p, d, (x: Leader) => x.generation >= 6);
    GenSixAtMostFromSix(p);
    if deep != d {
      GenSixBelowFromSix(p, deep);
    }
  }

  lemma {:induction false} GenSixAtMostFromSix(ds: seq<Leader>)
    ensures GenCount(ds, 6) <= GenCountFrom(ds, 6)
  {
    if ds != [] {
      var p := ds[..|ds| - 1];
      var d := ds[|ds| - 1];
      assert ds == p + [d];
      CountSnoc(p, d, (x: Leader) => x.generation == 6);
      CountSnoc(p, d, (x: Leader) => x.generation >= 6);
      GenSixAtMostFromSix(p);
    }
  }

  /** The export cells with "Gen 6+" holding every generation from six on. */
  function ExportCellsFromSix(all: seq<Leader>, row: TribeRow): (r: seq<string>)
    ensures |r| == |ExportHeaders|
    ensures r[..11] == ExportCells(row)[..11]
    ensures r[11] == NatToString(GenCountFrom(TribeLineage(all, row.root), 6))
  {
    ExportCells(row)[..11] + [NatToString(GenCountFrom(TribeLineage(all, row.root), 6))]
  }
}
