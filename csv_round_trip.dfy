/** What the leader directory's CSV import makes of the directory's own CSV
    export: every exported value comes back, every exported leader is
    recognised as an existing one, and the counters report no new leader and
    no error, as long as no exported value holds a double quote or a line
    feed (the export does not escape them) or white space at either end (the
    import trims it). */
module LeaderCsvRoundTrip {
  import opened Text
  import opened Seqs
  import opened Domain
  import opened LeaderCsv

  /** A value that survives quoting, line splitting and trimming. */
  predicate Exportable(v: string)
  {
    '"' !in v && '\n' !in v && NoEdgeWhite(v)
  }

  predicate ExportableLeader(l: Leader)
  {
    forall j :: 0 <= j < |Headers| ==> Exportable(ExportRow(l)[j])
  }

  // ---------------------------------------------------------------------------
  // Values of one line

  lemma ScanQuoted(v: string, rest: string)
    requires '"' !in v
    ensures Scan(Quote(v) + rest) == [Quote(v)] + Scan(rest)
  {
    var s := Quote(v) + rest;
    assert s[1..] == v + ['"'] + rest;
    IndexOfAfter(v, '"', rest);
    assert s[1..][|v|] == '"';
    assert s[..|v| + 2] == Quote(v);
    assert s[|v| + 2..] == rest;
  }

  lemma ScanSkipsComma(rest: string)
    ensures Scan("," + rest) == Scan(rest)
  {
    assert ("," + rest)[1..] == rest;
  }

  /** The value pattern finds exactly the quoted values of an exported line. */
  lemma {:induction false} ScanLine(vals: seq<string>)
    requires |vals| >= 1
    requires forall k :: 0 <= k < |vals| ==> '"' !in vals[k]
    ensures Scan(CsvLine(vals)) == QuoteAll(vals)
    decreases |vals|
  {
    var q := QuoteAll(vals);
    if |vals| == 1 {
      ScanQuoted(vals[0], "");
      assert Quote(vals[0]) + "" == Quote(vals[0]);
    } else {
      assert q[1..] == QuoteAll(vals[1..]);
      var tail := Join(QuoteAll(vals[1..]), ",");
      assert CsvLine(vals) == Quote(vals[0]) + ("," + tail);
      ScanQuoted(vals[0], "," + tail);
      ScanSkipsComma(tail);
      ScanLine(vals[1..]);
    }
  }

  lemma StripQuote(v: string)
    ensures StripQuotes(Quote(v)) == v
  {
    assert Quote(v)[1..] == v + "\"";
    assert (v + "\"")[..|v|] == v;
  }

  /** The importer reads back the exported values, trimmed. */
  lemma ParseLine(vals: seq<string>)
    requires |vals| >= 1
    requires forall k :: 0 <= k < |vals| ==> '"' !in vals[k]
    ensures |ParseValues(CsvLine(vals))| == |vals|
    ensures forall k :: 0 <= k < |vals| ==> ParseValues(CsvLine(vals))[k] == Trim(vals[k])
  {
    ScanLine(vals);
    forall k | 0 <= k < |vals|
      ensures ParseValues(CsvLine(vals))[k] == Trim(vals[k])
    {
      StripQuote(vals[k]);
    }
  }

  /** An exported leader's line parses back to its exported values. */
  lemma ParseLeaderLine(l: Leader)
    requires ExportableLeader(l)
    ensures ParseValues(CsvLine(ExportRow(l))) == ExportRow(l)
  {
    var vals := ExportRow(l);
    assert forall k :: 0 <= k < |vals| ==> Exportable(vals[k]);
    ParseLine(vals);
    forall k | 0 <= k < |vals|
      ensures Trim(vals[k]) == vals[k]
    {
      TrimSpec(vals[k]);
    }
  }

  // ---------------------------------------------------------------------------
  // The header line

  const Bom: char := '\U{FEFF}'

  /** Every header is a non-empty run of ASCII letters. */
  lemma HeadersPlain()
    ensures forall k :: 0 <= k < |Headers| ==> |Headers[k]| >= 1 && Letters(Headers[k])
  {
  }

  predicate Letters(h: string)
  {
    forall i :: 0 <= i < |h| ==> 'A' <= h[i] <= 'Z' || 'a' <= h[i] <= 'z'
  }

  lemma LettersPlain(h: string)
    requires |h| >= 1 && Letters(h)
    ensures ',' !in h && '"' !in h && '\n' !in h && NoEdgeWhite(h)
  {
  }

  lemma HeadersClean()
    ensures forall k :: 0 <= k < |Headers| ==>
      ',' !in Headers[k] && '"' !in Headers[k] && '\n' !in Headers[k]
      && |Headers[k]| >= 1 && NoEdgeWhite(Headers[k])
  {
    HeadersPlain();
    forall k | 0 <= k < |Headers|
      ensures ',' !in Headers[k] && '"' !in Headers[k] && '\n' !in Headers[k]
      && |Headers[k]| >= 1 && NoEdgeWhite(Headers[k])
    {
      LettersPlain(Headers[k]);
    }
  }

  lemma HeadersDistinct()
    ensures NoDup(Headers)
  {
  }

  lemma DropQuoteCharsNone(s: string)
    requires '"' !in s
    ensures DropQuoteChars(s) == s
  {
    if s != [] {
      DropQuoteCharsNone(s[1..]);
    }
  }

  /** The pieces a header line behind a byte-order mark splits into. */
  function BomParts(hs: seq<string>): seq<string>
    requires |hs| >= 1
  {
    [[Bom] + hs[0]] + hs[1..]
  }

  lemma SplitBomLine(hs: seq<string>)
    requires |hs| >= 1
    requires forall k :: 0 <= k < |hs| ==> ',' !in hs[k]
    ensures Split([Bom] + Join(hs, ","), ',') == BomParts(hs)
  {
    var parts := BomParts(hs);
    JoinPrefix([Bom], hs, ",");
    forall k | 0 <= k < |parts| ensures ',' !in parts[k] {
      if k == 0 {
        assert parts[0] == [Bom] + hs[0];
      } else {
        assert parts[k] == hs[k];
      }
    }
    assert "," == [','];
    SplitJoin(parts, ',');
  }

  lemma CleanName(h: string)
    requires '"' !in h && NoEdgeWhite(h)
    ensures Trim(DropQuoteChars(h)) == h
  {
    DropQuoteCharsNone(h);
    TrimSpec(h);
  }

  lemma CleanBomName(h: string)
    requires '"' !in h && NoEdgeWhite(h)
    ensures Trim(DropQuoteChars([Bom] + h)) == h
  {
    DropQuoteCharsNone([Bom] + h);
    TrimAfterWhite(Bom, h);
    TrimSpec(h);
  }

  lemma CleanParts(hs: seq<string>)
    requires |hs| >= 1
    requires forall k :: 0 <= k < |hs| ==> '"' !in hs[k] && NoEdgeWhite(hs[k])
    ensures forall k :: 0 <= k < |hs| ==> Trim(DropQuoteChars(BomParts(hs)[k])) == hs[k]
  {
    var parts := BomParts(hs);
    forall k | 0 <= k < |hs|
      ensures Trim(DropQuoteChars(parts[k])) == hs[k]
    {
      if k == 0 {
        CleanBomName(hs[0]);
        assert parts[0] == [Bom] + hs[0];
      } else {
        CleanName(hs[k]);
        assert parts[k] == hs[k];
      }
    }
  }

  lemma ParseHeadersOf(line: string, parts: seq<string>, hs: seq<string>)
    requires Split(line, ',') == parts && |parts| == |hs|
    requires forall k :: 0 <= k < |parts| ==> Trim(DropQuoteChars(parts[k])) == hs[k]
    ensures ParseHeaders(line) == hs
  {
  }

  /** A header line made of plain names, behind a byte-order mark, gives the
      names back. */
  lemma ParseNamesLine(hs: seq<string>)
    requires |hs| >= 1
    requires forall k :: 0 <= k < |hs| ==> ',' !in hs[k] && '"' !in hs[k] && NoEdgeWhite(hs[k])
    ensures ParseHeaders([Bom] + Join(hs, ",")) == hs
  {
    SplitBomLine(hs);
    CleanParts(hs);
    ParseHeadersOf([Bom] + Join(hs, ","), BomParts(hs), hs);
  }

  /** The exported header line, behind its byte-order mark, gives the headers back. */
  lemma ParseHeaderLine()
    ensures ParseHeaders([Bom] + HeaderLine) == Headers
  {
    HeadersClean();
    ParseNamesLine(Headers);
  }

  // ---------------------------------------------------------------------------
  // Lines of the file

  /** The lines the export writes, the first one behind the byte-order mark. */
  function FileLines(ls: seq<Leader>): (r: seq<string>)
    ensures |r| == |ls| + 1 && r[1..] == LeaderLines(ls)
  {
    [[Bom] + HeaderLine] + LeaderLines(ls)
  }

  /** The whole exported file, byte-order mark included. */
  function ExportFile(ls: seq<Leader>): string
  {
    [Bom] + ExportCsv(ls)
  }

  lemma LineShape(vals: seq<string>)
    requires |vals| >= 1
    requires forall k :: 0 <= k < |vals| ==> '"' !in vals[k] && '\n' !in vals[k]
    ensures var s := CsvLine(vals);
      '\n' !in s && |s| >= 2 && s[0] == '"' && s[|s| - 1] == '"'
  {
    var q := QuoteAll(vals);
    forall k | 0 <= k < |q|
      ensures '\n' !in q[k]
    {
      assert q[k] == "\"" + vals[k] + "\"";
    }
    JoinWithout(q, ",", '\n');
    JoinEnds(q, ",");
  }

  lemma NamesLineShape(hs: seq<string>)
    requires |hs| >= 1 && |hs[0]| >= 1 && |hs[|hs| - 1]| >= 1
    requires forall k :: 0 <= k < |hs| ==> '\n' !in hs[k]
    ensures var s := [Bom] + Join(hs, ",");
      '\n' !in s && |s| >= 2 && s[1] == hs[0][0] && s[|s| - 1] == hs[|hs| - 1][|hs[|hs| - 1]| - 1]
  {
    var j := Join(hs, ",");
    JoinWithout(hs, ",", '\n');
    JoinEnds(hs, ",");
    EndsOf([Bom], j, hs[0], hs[|hs| - 1]);
  }

  lemma EndsOf(p: string, j: string, first: string, last: string)
    requires |first| >= 1 && |last| >= 1
    requires |j| >= |first| && j[..|first|] == first
    requires |j| >= |last| && j[|j| - |last|..] == last
    ensures var s := p + j; |s| >= |p| + 1 && s[|p|] == first[0] && s[|s| - 1] == last[|last| - 1]
  {
    assert j[0] == first[0];
    assert j[|j| - 1] == last[|last| - 1];
  }

  lemma HeaderLineShape()
    ensures var s := [Bom] + HeaderLine;
      '\n' !in s && |s| >= 2 && !IsWhite(s[1]) && s[|s| - 1] != '\r'
  {
    HeadersClean();
    NamesLineShape(Headers);
  }

  /** Lines that hold no line feed, do not end in a carriage return and are
      not blank are exactly what the importer splits a joined text into. */
  lemma ImportLinesOf(text: string, lines: seq<string>)
    requires Split(text, '\n') == lines
    requires forall k :: 0 <= k < |lines| ==> ImportableLine(lines[k])
    ensures ImportLines(text) == lines
  {
    assert SplitLines(text) == lines;
    FilterAll(lines, line => !IsBlank(line));
  }

  lemma FileText(ls: seq<Leader>)
    ensures ExportFile(ls) == Join(FileLines(ls), "\n")
  {
    JoinPrefix([Bom], [HeaderLine] + LeaderLines(ls), "\n");
    assert ([HeaderLine] + LeaderLines(ls))[1..] == LeaderLines(ls);
  }

  predicate ImportableLine(line: string)
  {
    '\n' !in line && !IsBlank(line) && line != [] && line[|line| - 1] != '\r'
  }

  lemma LeaderLineShape(l: Leader)
    requires ExportableLeader(l)
    ensures ImportableLine(CsvLine(ExportRow(l)))
  {
    var vals := ExportRow(l);
    assert forall j :: 0 <= j < |vals| ==> Exportable(vals[j]);
    LineShape(vals);
    assert !IsWhite(CsvLine(vals)[0]);
  }

  lemma FileLinesShape(ls: seq<Leader>)
    requires forall l :: l in ls ==> ExportableLeader(l)
    ensures forall k :: 0 <= k < |FileLines(ls)| ==> ImportableLine(FileLines(ls)[k])
  {
    var lines := FileLines(ls);
    HeaderLineShape();
    assert !IsWhite(lines[0][1]);
    forall k | 1 <= k < |lines|
      ensures ImportableLine(lines[k])
    {
      LeaderLineShape(ls[k - 1]);
    }
  }

  /** The importer's line list of an exported file is the list of lines the
      export wrote. */
  lemma ImportLinesOfExport(ls: seq<Leader>)
    requires forall l :: l in ls ==> ExportableLeader(l)
    ensures ImportLines(ExportFile(ls)) == FileLines(ls)
  {
    var lines := FileLines(ls);
    var text := ExportFile(ls);
    FileLinesShape(ls);
    FileText(ls);
    SplitJoin(lines, '\n');
    ImportLinesOf(text, lines);
  }

  // ---------------------------------------------------------------------------
  // Rows

  /** With distinct headers, each header names its own value. */
  lemma {:induction false} RowOfDistinct(headers: seq<string>, values: seq<string>, j: nat)
    requires NoDup(headers) && |values| >= |headers| && j < |headers|
    ensures Field(RowOf(headers, values), headers[j]) == values[j]
    decreases |headers|
  {
    var n := |headers| - 1;
    if j < n {
      assert headers[j] != headers[n];
      assert headers[..n][j] == headers[j];
      RowOfDistinct(headers[..n], values, j);
    }
  }

  /** The row the importer builds from a leader's exported values. */
  predicate RowHolds(row: map<string, string>, l: Leader)
  {
    && Field(row, "mgCode") == l.mgCode
    && Field(row, "memberId") == OrEmpty(l.memberId)
    && Field(row, "chineseName") == OrEmpty(l.chineseName)
    && Field(row, "firstName") == OrEmpty(l.firstName)
    && Field(row, "lastName") == OrEmpty(l.lastName)
    && Field(row, "email") == l.email
    && Field(row, "phoneNumber") == l.phoneNumber
    && Field(row, "roles") == Join(l.roles, ";")
    && Field(row, "parentLeaderName") == OrEmpty(l.parentLeaderName)
    && Field(row, "ordinationDate") == OrEmpty(l.ordinationDate)
    && Field(row, "generation") == IntToString(l.generation)
    && Field(row, "status") == l.status
    && Field(row, "identity") == OrEmpty(l.identity)
  }

  lemma ExportedRow(l: Leader)
    ensures RowHolds(RowOf(Headers, ExportRow(l)), l)
  {
    var vals := ExportRow(l);
    HeadersDistinct();
    RowOfDistinct(Headers, vals, 0);
    RowOfDistinct(Headers, vals, 1);
    RowOfDistinct(Headers, vals, 2);
    RowOfDistinct(Headers, vals, 3);
    RowOfDistinct(Headers, vals, 4);
    RowOfDistinct(Headers, vals, 5);
    RowOfDistinct(Headers, vals, 6);
    RowOfDistinct(Headers, vals, 7);
    RowOfDistinct(Headers, vals, 8);
    RowOfDistinct(Headers, vals, 9);
    RowOfDistinct(Headers, vals, 10);
    RowOfDistinct(Headers, vals, 11);
    RowOfDistinct(Headers, vals, 12);
  }

  // ---------------------------------------------------------------------------
  // Columns

  lemma GenerationRoundTrip(g: nat)
    ensures ParseIntOr(IntToString(g), 1) == if g == 0 then 1 else g
  {
    ParseIntNatToString(g);
  }

  /** Roles that are non-empty and free of `;` survive `join(";")` and the
      importer's `split(";")`. */
  lemma RolesRoundTrip(roles: seq<string>)
    requires forall r :: r in roles ==> r != "" && ';' !in r
    ensures ParseRoles(Join(roles, ";")) == roles
  {
    if roles == [] {
      assert Split("", ';') == [""];
    } else {
      SplitJoin(roles, ';');
      FilterAll(roles, (x: string) => |x| > 0);
    }
  }

  /** What an imported leader keeps of the leader whose exported row it was
      read from: every exported column, with `|| ""` turning a missing
      optional value into an empty one and `|| 1` reading generation 0 as 1. */
  predicate RestoresColumns(r: Leader, l: Leader)
  {
    && r.mgCode == l.mgCode
    && r.memberId == Some(OrEmpty(l.memberId))
    && r.chineseName == Some(OrEmpty(l.chineseName))
    && r.firstName == Some(OrEmpty(l.firstName))
    && r.lastName == Some(OrEmpty(l.lastName))
    && r.email == l.email
    && r.phoneNumber == l.phoneNumber
    && r.roles == l.roles
    && r.parentLeaderName == Some(OrEmpty(l.parentLeaderName))
    && r.ordinationDate == Some(OrEmpty(l.ordinationDate))
    && r.generation == (if l.generation == 0 then 1 else l.generation)
    && r.status == (if l.status == "" then Active else l.status)
    && r.identity == Some(OrEmpty(l.identity))
  }

  /** Leaders whose roles and generation the CSV columns can carry. */
  predicate ColumnsFit(l: Leader)
  {
    l.generation >= 0 && forall r :: r in l.roles ==> r != "" && ';' !in r
  }

  lemma BuildRestores(row: map<string, string>, l: Leader, existing: Option<Leader>, i: nat,
                      stamp: string, newPassword: string)
    requires RowHolds(row, l) && ColumnsFit(l)
    ensures RestoresColumns(BuildLeader(row, existing, i, stamp, newPassword), l)
  {
    GenerationRoundTrip(l.generation);
    RolesRoundTrip(l.roles);
  }

  // ---------------------------------------------------------------------------
  // The whole file

  /** What a re-imported leader must be for the round trip to hold. */
  predicate Reimported(o: RowOutcome, l: Leader)
  {
    o.Imported? && o.matched && RestoresColumns(o.leader, l)
  }

  /** A leader that can make the round trip: its values survive the CSV
      text, its columns fit, and it passes the importer's required-field check. */
  predicate RoundTrips(l: Leader)
  {
    ExportableLeader(l) && ColumnsFit(l) && l.email != "" && Truthy(l.firstName)
  }

  /** The exported line of a leader of the directory is read back as an
      update of an existing leader that restores every column. */
  lemma ExportedLineOutcome(ls: seq<Leader>, k: nat, stamp: string, newPassword: nat -> string)
    requires k < |ls| && RoundTrips(ls[k])
    ensures Reimported(Outcome(ls, Headers, CsvLine(ExportRow(ls[k])), k + 1, stamp, newPassword), ls[k])
  {
    var l := ls[k];
    var vals := ExportRow(l);
    ParseLeaderLine(l);
    ExportedRow(l);
    var row := RowOf(Headers, vals);
    var existing := FindExisting(ls, l.email, OrEmpty(l.memberId));
    assert l in ls;
    BuildRestores(row, l, existing, k + 1, stamp, newPassword(k + 1));
  }

  lemma {:induction false} AllReimportedCounts(outs: seq<RowOutcome>, ls: seq<Leader>)
    requires |outs| == |ls| && forall k :: 0 <= k < |outs| ==> Reimported(outs[k], ls[k])
    ensures CountNew(outs) == 0 && CountUpdated(outs) == |outs| && ErrorsOf(outs) == []
    ensures |ImportedOf(outs)| == |outs|
  {
    if outs != [] {
      var n := |outs| - 1;
      AllReimportedCounts(outs[..n], ls[..n]);
    }
  }

  /** Importing the directory's own export against the same directory: every
      line comes back as an update of an existing leader that restores every
      exported column, no line is new and none is rejected. */
  lemma ExportImportRoundTrip(ls: seq<Leader>, stamp: string, newPassword: nat -> string)
    requires forall l :: l in ls ==> RoundTrips(l)
    ensures var outs := TextOutcomes(ls, ExportFile(ls), stamp, newPassword);
      |outs| == |ls|
      && (forall k :: 0 <= k < |ls| ==> Reimported(outs[k], ls[k]))
      && CountNew(outs) == 0 && CountUpdated(outs) == |ls| && ErrorsOf(outs) == []
      && |ImportedOf(outs)| == |ls|
  {
    var outs := Outcomes(ls, Headers, LeaderLines(ls), 1, stamp, newPassword);
    TextOutcomesOfExport(ls, stamp, newPassword);
    forall k | 0 <= k < |ls|
      ensures Reimported(outs[k], ls[k])
    {
      ReimportedAt(ls, k, stamp, newPassword);
    }
    AllReimportedCounts(outs, ls);
  }

  lemma TextOutcomesOfExport(ls: seq<Leader>, stamp: string, newPassword: nat -> string)
    requires forall l :: l in ls ==> RoundTrips(l)
    ensures TextOutcomes(ls, ExportFile(ls), stamp, newPassword)
         == Outcomes(ls, Headers, LeaderLines(ls), 1, stamp, newPassword)
  {
    ImportLinesOfExport(ls);
    ParseHeaderLine();
  }

  lemma ReimportedAt(ls: seq<Leader>, k: nat, stamp: string, newPassword: nat -> string)
    requires k < |ls| && RoundTrips(ls[k])
    ensures Reimported(Outcomes(ls, Headers, LeaderLines(ls), 1, stamp, newPassword)[k], ls[k])
  {
    ExportedLineOutcome(ls, k, stamp, newPassword);
  }

}
