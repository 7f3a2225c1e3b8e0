/** The leader directory's CSV export and import (LeaderManagement.tsx):
    a fixed 13-column export with every value in double quotes, and an import
    that splits lines, picks values with the pattern `"[^"]*"|[^,]+`, maps them
    by header name, and rebuilds one leader per accepted row. */
module LeaderCsv {
  import opened Text
  import opened Seqs
  import opened Domain
  import Store

  // ---------------------------------------------------------------------------
  // Export

  const Headers: seq<string> := [
    "mgCode", "memberId", "chineseName", "firstName", "lastName",
    "email", "phoneNumber", "roles", "parentLeaderName",
    "ordinationDate", "generation", "status", "identity"]

  /** The 13 exported values of a leader, in header order. */
  function ExportRow(l: Leader): (r: seq<string>)
    ensures |r| == |Headers|
  {
    [l.mgCode, OrEmpty(l.memberId), OrEmpty(l.chineseName), OrEmpty(l.firstName),
     OrEmpty(l.lastName), l.email, l.phoneNumber, Join(l.roles, ";"),
     OrEmpty(l.parentLeaderName), OrEmpty(l.ordinationDate), IntToString(l.generation),
     l.status, OrEmpty(l.identity)]
  }

  function Quote(v: string): string
  {
    "\"" + v + "\""
  }

  function QuoteAll(vals: seq<string>): (r: seq<string>)
    ensures |r| == |vals| && forall k :: 0 <= k < |vals| ==> r[k] == Quote(vals[k])
  {
    seq(|vals|, k requires 0 <= k < |vals| => Quote(vals[k]))
  }

  /** `r.map(val => `"${val}"`).join(",")` */
  function CsvLine(vals: seq<string>): string
  {
    Join(QuoteAll(vals), ",")
  }

  const HeaderLine: string := Join(Headers, ",")

  /** One CSV line per leader, in list order. */
  function LeaderLines(ls: seq<Leader>): (r: seq<string>)
    ensures |r| == |ls|
    ensures forall k :: 0 <= k < |ls| ==> r[k] == CsvLine(ExportRow(ls[k]))
  {
    seq(|ls|, k requires 0 <= k < |ls| => CsvLine(ExportRow(ls[k])))
  }

  function ExportLines(ls: seq<Leader>): seq<string>
  {
    [HeaderLine] + LeaderLines(ls)
  }

  /** `handleExportCSV`'s text (before the byte-order mark is prepended). */
  function ExportCsv(ls: seq<Leader>): string
  {
    Join(ExportLines(ls), "\n")
  }

  // ---------------------------------------------------------------------------
  // Import: lines, headers and values

  /** `text.split(/\r?\n/)`: split at each line feed, and a carriage return
      right before a line feed belongs to the separator. */
  function SplitLines(text: string): (r: seq<string>)
  {
    var parts := Split(text, '\n');
    seq(|parts|, k requires 0 <= k < |parts| =>
      if k < |parts| - 1 && parts[k] != [] && parts[k][|parts[k]| - 1] == '\r'
      then parts[k][..|parts[k]| - 1] else parts[k])
  }

  /** The non-blank lines the importer works on. */
  function ImportLines(text: string): (r: seq<string>)
  {
    Filter(SplitLines(text), line => !IsBlank(line))
  }

  function DropQuoteChars(s: string): (r: string)
    ensures '"' !in r
  {
    if s == [] then [] else (if s[0] == '"' then [] else [s[0]]) + DropQuoteChars(s[1..])
  }

  /** `lines[0].split(",").map(h => h.replace(/"/g, "").trim())` */
  function ParseHeaders(line: string): (r: seq<string>)
    ensures |r| >= 1
  {
    var parts := Split(line, ',');
    seq(|parts|, k requires 0 <= k < |parts| => Trim(DropQuoteChars(parts[k])))
  }

  /** The matches of `/"[^"]*"|[^,]+/g`, left to right: a quoted run up to the
      next double quote when there is one, otherwise a run of non-commas;
      commas between matches are skipped. */
  function Scan(s: string): (r: seq<string>)
    ensures forall k :: 0 <= k < |r| ==> r[k] != []
    decreases |s|
  {
    if s == [] then []
    else if s[0] == '"' && '"' in s[1..] then
      var q := 1 + IndexOf(s[1..], '"');
      [s[..q + 1]] + Scan(s[q + 1..])
    else if s[0] == ',' then Scan(s[1..])
    else
      var n := IndexOf(s, ',');
      [s[..n]] + Scan(s[n..])
  }

  /** `v.replace(/^"|"$/g, "")`: one leading and one trailing double quote go. */
  function StripQuotes(v: string): (r: string)
    ensures |r| <= |v|
  {
    var a := if v != [] && v[0] == '"' then v[1..] else v;
    if a != [] && a[|a| - 1] == '"' then a[..|a| - 1] else a
  }

  /** The values of one data line, unquoted and trimmed. */
  function ParseValues(line: string): (r: seq<string>)
    ensures |r| == |Scan(line)|
  {
    var tokens := Scan(line);
    seq(|tokens|, k requires 0 <= k < |tokens| => Trim(StripQuotes(tokens[k])))
  }

  // ---------------------------------------------------------------------------
  // Import: rows

  /** `headers.forEach((h, idx) => row[h] = values[idx])` */
  function RowOf(headers: seq<string>, values: seq<string>): (row: map<string, string>)
    requires |values| >= |headers|
    ensures forall h :: h in row <==> h in headers
  {
    if headers == [] then map[]
    else
      var n := |headers| - 1;
      RowOf(headers[..n], values)[headers[n] := values[n]]
  }

  /** `row[name]`, where an absent column reads as empty (both are falsy). */
  function Field(row: map<string, string>, name: string): string
  {
    if name in row then row[name] else ""
  }

  /** `leaders.find(l => l.email === row.email || (l.memberId && l.memberId === row.memberId))` */
  function FindExisting(leaders: seq<Leader>, email: string, memberId: string): (r: Option<Leader>)
    ensures r.Some? ==> (r.value in leaders
      && (r.value.email == email || (Truthy(r.value.memberId) && r.value.memberId.value == memberId)))
    ensures r.None? ==> forall l :: l in leaders ==>
      (l.email != email && !(Truthy(l.memberId) && l.memberId.value == memberId))
  {
    if leaders == [] then None
    else
      var l := leaders[0];
      if l.email == email || (Truthy(l.memberId) && l.memberId.value == memberId) then Some(l)
      else
        var r := FindExisting(leaders[1..], email, memberId);
        assert forall x :: x in leaders ==> x == l || x in leaders[1..];
        r
  }

  /** `(row.roles || "").split(";").filter(r => r.length > 0)` */
  function ParseRoles(s: string): (r: seq<string>)
    ensures forall x :: x in r ==> x != "" && ';' !in x
  {
    Filter(Split(s, ';'), (x: string) => |x| > 0)
  }

  /** The leader record built for an accepted row. `stamp` stands for
      `Date.now()` and `newPassword` for the random default password. */
  function BuildLeader(row: map<string, string>, existing: Option<Leader>, i: nat,
                       stamp: string, newPassword: string): (l: Leader)
    ensures l.email == Field(row, "email")
    ensures l.generation != 0
    ensures existing.Some? ==> (l.groups == existing.value.groups
      && l.transfers == existing.value.transfers
      && l.statusHistory == existing.value.statusHistory
      && l.followUps == existing.value.followUps)
    ensures existing.None? ==> l.groups == [] && l.transfers == [] && l.statusHistory == [] && l.followUps == []
    ensures !l.isAdmin && l.parentLeaderId.None? && l.gender.None? && l.profile == map[]
  {
    var mg := Field(row, "mgCode");
    var status := Field(row, "status");
    Leader(
      id := if existing.Some? && existing.value.id != "" then existing.value.id
            else "l-imp-" + stamp + "-" + NatToString(i),
      personId := if existing.Some? && existing.value.personId != "" then existing.value.personId
                  else "p-imp-" + stamp + "-" + NatToString(i),
      mgCode := mg,
      tribeCode := if mg != "" then mg[..if |mg| < 2 then |mg| else 2]
                   else if existing.Some? then existing.value.tribeCode else "",
      generation := ParseIntOr(Field(row, "generation"), 1),
      isAdmin := false,
      status := if status != "" then status else Active,
      chineseName := Some(Field(row, "chineseName")),
      lastName := Some(Field(row, "lastName")),
      firstName := Some(Field(row, "firstName")),
      email := Field(row, "email"),
      phoneNumber := Field(row, "phoneNumber"),
      gender := None,
      memberId := Some(Field(row, "memberId")),
      roles := ParseRoles(Field(row, "roles")),
      parentLeaderId := None,
      parentLeaderName := Some(Field(row, "parentLeaderName")),
      ordinationDate := Some(Field(row, "ordinationDate")),
      identity := Some(Field(row, "identity")),
      password := if existing.Some? && Truthy(existing.value.password) then existing.value.password
                  else Some(newPassword),
      profile := map[],
      groups := if existing.Some? then existing.value.groups else [],
      followUps := if existing.Some? then existing.value.followUps else [],
      transfers := if existing.Some? then existing.value.transfers else [],
      statusHistory := if existing.Some? then existing.value.statusHistory else [])
  }

  datatype RowOutcome = Skipped | Rejected(message: string) | Imported(leader: Leader, matched: bool)

  /** What the import loop does with the data line at index `i` (1-based
      position `i + 1` in the file). */
  function Outcome(leaders: seq<Leader>, headers: seq<string>, line: string, i: nat,
                   stamp: string, newPassword: nat -> string): RowOutcome
  {
    var values := ParseValues(line);
    if |values| < |headers| then Skipped
    else
      var row := RowOf(headers, values);
      if Field(row, "email") == "" || Field(row, "firstName") == "" then
        Rejected("Row " + NatToString(i + 1) + ": Missing Email or First Name.")
      else
        var existing := FindExisting(leaders, Field(row, "email"), Field(row, "memberId"));
        Imported(BuildLeader(row, existing, i, stamp, newPassword(i)), existing.Some?)
  }

  function ImportedOf(outs: seq<RowOutcome>): seq<Leader>
  {
    if outs == [] then []
    else ImportedOf(outs[..|outs| - 1])
         + (if outs[|outs| - 1].Imported? then [outs[|outs| - 1].leader] else [])
  }

  function ErrorsOf(outs: seq<RowOutcome>): seq<string>
  {
    if outs == [] then []
    else ErrorsOf(outs[..|outs| - 1])
         + (if outs[|outs| - 1].Rejected? then [outs[|outs| - 1].message] else [])
  }

  function CountNew(outs: seq<RowOutcome>): nat
  {
    if outs == [] then 0
    else CountNew(outs[..|outs| - 1])
         + (if outs[|outs| - 1].Imported? && !outs[|outs| - 1].matched then 1 else 0)
  }

  function CountUpdated(outs: seq<RowOutcome>): nat
  {
    if outs == [] then 0
    else CountUpdated(outs[..|outs| - 1])
         + (if outs[|outs| - 1].Imported? && outs[|outs| - 1].matched then 1 else 0)
  }

  /** Every accepted row is counted once, as new or as updated, and no row
      yields both a leader and an error. */
  lemma {:induction false} ImportCounts(outs: seq<RowOutcome>)
    ensures CountNew(outs) + CountUpdated(outs) == |ImportedOf(outs)|
    ensures |ImportedOf(outs)| + |ErrorsOf(outs)| <= |outs|
  {
    if outs != [] {
      ImportCounts(outs[..|outs| - 1]);
    }
  }

  datatype ImportSummary =
    | Aborted
    | Summary(imported: seq<Leader>, newCount: nat, updateCount: nat, errors: seq<string>)

  /** The outcomes of the data lines `data`, the first of which has index `base`. */
  function Outcomes(leaders: seq<Leader>, headers: seq<string>, data: seq<string>, base: nat,
                    stamp: string, newPassword: nat -> string): (r: seq<RowOutcome>)
    ensures |r| == |data|
  {
    MapIndexed((line, i: nat) => Outcome(leaders, headers, line, i, stamp, newPassword), data, base)
  }

  /** The outcomes of the data lines of `text`, read against its header line. */
  function TextOutcomes(leaders: seq<Leader>, text: string, stamp: string,
                        newPassword: nat -> string): seq<RowOutcome>
  {
    var lines := ImportLines(text);
    if lines == [] then []
    else Outcomes(leaders, ParseHeaders(lines[0]), lines[1..], 1, stamp, newPassword)
  }

  /** `handleImportCSV`'s reader callback: fewer than two non-blank lines
      aborts; otherwise the data lines are read against the header line. */
  method ImportCsv(text: string, leaders: seq<Leader>, stamp: string, newPassword: nat -> string)
    returns (res: ImportSummary)
    ensures |ImportLines(text)| < 2 <==> res.Aborted?
    ensures res.Summary? ==>
      var outs := TextOutcomes(leaders, text, stamp, newPassword);
      res.imported == ImportedOf(outs) && res.errors == ErrorsOf(outs)
      && res.newCount == CountNew(outs) && res.updateCount == CountUpdated(outs)
      && res.newCount + res.updateCount == |res.imported|
  {
    var lines := ImportLines(text);
    if |lines| < 2 {
      return Aborted;
    }
    res := ImportRows(leaders, ParseHeaders(lines[0]), lines[1..], stamp, newPassword);
  }

  /** The loop of the reader callback over the data lines: each one is
      skipped, rejected or imported, and the counters and lists grow. */
  method ImportRows(leaders: seq<Leader>, headers: seq<string>, data: seq<string>,
                    stamp: string, newPassword: nat -> string)
    returns (res: ImportSummary)
    ensures var outs := Outcomes(leaders, headers, data, 1, stamp, newPassword);
      res == Summary(ImportedOf(outs), CountNew(outs), CountUpdated(outs), ErrorsOf(outs))
      && res.newCount + res.updateCount == |res.imported|
  {
    var imported: seq<Leader> := [];
    var newCount, updateCount := 0, 0;
    var errors: seq<string> := [];
    var i := 0;
    while i < |data|
      invariant 0 <= i <= |data|
      invariant var outs := Outcomes(leaders, headers, data[..i], 1, stamp, newPassword);
        imported == ImportedOf(outs) && errors == ErrorsOf(outs)
        && newCount == CountNew(outs) && updateCount == CountUpdated(outs)
    {
      var o := Outcome(leaders, headers, data[i], i + 1, stamp, newPassword);
      MapIndexedStep((line, i: nat) => Outcome(leaders, headers, line, i, stamp, newPassword), data, 1, i);
      AppendStep(Outcomes(leaders, headers, data[..i + 1], 1, stamp, newPassword),
                 Outcomes(leaders, headers, data[..i], 1, stamp, newPassword), o);
      match o {
        case Skipped =>
        case Rejected(msg) =>
          errors := errors + [msg];
        case Imported(l, matched) =>
          if matched {
            updateCount := updateCount + 1;
          } else {
            newCount := newCount + 1;
          }
          imported := imported + [l];
      }
      i := i + 1;
    }
    assert data[..i] == data;
    ImportCounts(Outcomes(leaders, headers, data, 1, stamp, newPassword));
    res := Summary(imported, newCount, updateCount, errors);
  }

  /** How the four tallies grow when one more outcome `o` is appended. */
  lemma AppendStep(outs: seq<RowOutcome>, prev: seq<RowOutcome>, o: RowOutcome)
    requires |outs| == |prev| + 1 && outs[..|prev|] == prev && outs[|prev|] == o
    ensures ImportedOf(outs) == ImportedOf(prev) + (if o.Imported? then [o.leader] else [])
    ensures ErrorsOf(outs) == ErrorsOf(prev) + (if o.Rejected? then [o.message] else [])
    ensures CountNew(outs) == CountNew(prev) + (if o.Imported? && !o.matched then 1 else 0)
    ensures CountUpdated(outs) == CountUpdated(prev) + (if o.Imported? && o.matched then 1 else 0)
  {
  }

  // ---------------------------------------------------------------------------
  // Properties of the importer

  /** An imported row always has an email and a first name, and its
      generation is never 0: `parseInt(...) || 1` reads "0" as 1. */
  lemma ImportedRowsWellFormed(leaders: seq<Leader>, headers: seq<string>, line: string, i: nat,
                               stamp: string, newPassword: nat -> string)
    ensures var o := Outcome(leaders, headers, line, i, stamp, newPassword);
      o.Imported? ==> o.leader.email != "" && Truthy(o.leader.firstName) && o.leader.generation != 0
  {
  }

  lemma GenerationZeroReadAsOne()
    ensures ParseIntOr("0", 1) == 1
  {
    assert TrimStart("0") == "0";
    assert DigitPrefix("0") == "0";
    assert DigitsValue("0") == 0 by {
      assert "0"[..0] == [];
    }
  }

  /** A row matched to an existing leader keeps that leader's id, person id,
      password, groups and the three histories; everything outside the
      column set (admin flag, parent id, gender, other profile fields) is not
      carried over. */
  lemma MatchedRowKeepsIdentity(row: map<string, string>, existing: Leader, i: nat,
                                stamp: string, newPassword: string)
    requires existing.id != "" && existing.personId != "" && Truthy(existing.password)
    ensures var l := BuildLeader(row, Some(existing), i, stamp, newPassword);
      l.id == existing.id && l.personId == existing.personId && l.password == existing.password
      && l.groups == existing.groups && l.transfers == existing.transfers
      && l.statusHistory == existing.statusHistory && l.followUps == existing.followUps
      && !l.isAdmin && l.parentLeaderId.None? && l.profile == map[]
  {
  }
}
