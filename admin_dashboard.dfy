/** The admin dashboard (components/AdminDashboard.tsx): the weekly rollup of
    gathering reports keyed by calendar year and ISO 8601 week number, the
    display window over it, and the generation histogram of the leadership
    network, for the whole church or the signed-in leader's lineage. */
module AdminDashboard {
  import opened Text
  import opened Seqs
  import opened Domain
  import opened Dates

  datatype Scope = Church | Lineage

  // ---------------------------------------------------------------------------
  // Week keys and ranges

  /** `${getFullYear()}-W${getISOWeek(date).toString().padStart(2, '0')}`:
      the calendar year of the date itself, not the year of its week, and the
      week as `getISOWeek` counts it. */
  function BucketKey(d: Date): string
    requires ValidDate(d)
  {
    IntToString(d.year) + "-W" + WeekText(UtcWeek(d))
  }

  /** `toString().padStart(2, '0')` of a week number: a negative number is
      already two characters or more. */
  function WeekText(w: int): string
  {
    if w >= 0 then Pad2(w) else IntToString(w)
  }

  /** The first three days of 2021 belong to the last ISO week of 2020, yet
      their bucket carries the year 2021. */
  lemma NewYearKey()
    ensures BucketKey(Date(2021, 1, 1)) == "2021-W53"
  {
    var d := Date(2021, 1, 1);
    assert DayNumber(d) == 737790;
    assert IsoWeekday(d) == 5;
    assert WeekThursday(d) == AddDays(d, -1) == AddDays(PrevDay(d), 0) == Date(2020, 12, 31);
    assert IsoWeek(d) == 53;
    UtcWeekIsIsoWeek(d);
    assert IntToString(2021) == "2021";
  }

  /** Because the year is the calendar year, one key can collect two
      different weeks: the week holding 2022-01-01 (ISO week 52 of 2021) and
      the week holding 2022-12-28 (ISO week 52 of 2022) share "2022-W52". */
  lemma KeyJoinsTwoWeeks()
    ensures BucketKey(Date(2022, 1, 1)) == BucketKey(Date(2022, 12, 28)) == "2022-W52"
    ensures WeekMonday(Date(2022, 1, 1)) != WeekMonday(Date(2022, 12, 28))
  {
    var a := Date(2022, 1, 1);
    var b := Date(2022, 12, 28);
    assert DayNumber(a) == 738155;
    assert IsoWeekday(a) == 6;
    assert WeekThursday(a) == AddDays(a, -2) == AddDays(PrevDay(a), -1) == AddDays(Date(2021, 12, 30), 0);
    assert IsoWeek(a) == 52;
    UtcWeekIsIsoWeek(a);
    assert DayNumber(b) == 738516;
    assert IsoWeekday(b) == 3;
    assert WeekThursday(b) == AddDays(b, 1) == AddDays(NextDay(b), 0) == Date(2022, 12, 29);
    assert IsoWeek(b) == 52;
    UtcWeekIsIsoWeek(b);
    assert IntToString(2022) == "2022";
    AddDaysNumber(a, -5);
    AddDaysNumber(b, -2);
  }

  /** From the year 100 on, the days of one Monday-to-Sunday week that fall
      in one calendar year share their key and their range. (Earlier years
      are counted as 1900 to 1999, see `EarlyYearSplitsWeek`.) */
  lemma SameWeekSameBucket(monday: Date, k: int)
    requires ValidDate(monday) && IsoWeekday(monday) == 1 && monday.year >= 100
    requires 0 <= k <= 6 && AddDays(monday, k).year == monday.year
    ensures BucketKey(AddDays(monday, k)) == BucketKey(monday)
    ensures WeekRange(AddDays(monday, k)) == WeekRange(monday)
  {
    SameWeek(monday, k);
    SameWeek(monday, 0);
    AddDaysYearMono(monday, 3);
    UtcWeekIsIsoWeek(AddDays(monday, k));
    UtcWeekIsIsoWeek(monday);
  }

  /** In years 0 to 99 the week is counted on the date 1900 years later,
      whose weekdays fall differently: 0001-01-01 and 0001-01-07 are the
      Monday and the Sunday of one week, yet they get two keys. */
  lemma EarlyYearSplitsWeek()
    ensures WeekMonday(Date(1, 1, 7)) == Date(1, 1, 1)
    ensures BucketKey(Date(1, 1, 1)) == "1-W01"
    ensures BucketKey(Date(1, 1, 7)) == "1-W02"
  {
    YearOneWeekMonday();
    FirstOfYearOneKey();
    SeventhOfYearOneKey();
  }

  /** 0001-01-07 is a Sunday whose Monday is 0001-01-01. */
  lemma YearOneWeekMonday()
    ensures WeekMonday(Date(1, 1, 7)) == Date(1, 1, 1)
  {
    assert IsoWeekday(Date(1, 1, 7)) == 7;
    AddDaysInMonth(Date(1, 1, 7), -6);
  }

  lemma FirstOfYearOneKey()
    ensures BucketKey(Date(1, 1, 1)) == "1-W01"
  {
    FirstOfYearOneWeek();
    assert IntToString(1) == "1";
  }

  lemma SeventhOfYearOneKey()
    ensures BucketKey(Date(1, 1, 7)) == "1-W02"
  {
    SeventhOfYearOneWeek();
    assert IntToString(1) == "1";
  }

  /** 0001-01-01 is counted as 1901-01-01, a Tuesday of week 1. */
  lemma FirstOfYearOneWeek()
    ensures UtcWeek(Date(1, 1, 1)) == 1
  {
    var a := Date(1901, 1, 1);
    assert UtcDay(Date(1, 1, 1)) == a;
    assert DaysBeforeYear(1901) % 7 == 1;
    assert IsoWeekday(a) == 2;
    AddDaysInMonth(a, 2);
    assert WeekThursday(a) == Date(1901, 1, 3);
    WeekOfThursdayIso(Date(1901, 1, 3));
  }

  /** 0001-01-07 is counted as 1901-01-07, a Monday of week 2. */
  lemma SeventhOfYearOneWeek()
    ensures UtcWeek(Date(1, 1, 7)) == 2
  {
    var b := Date(1901, 1, 7);
    AddDaysInMonth(Date(1901, 1, 1), 6);
    assert UtcDay(Date(1, 1, 7)) == b;
    assert DaysBeforeYear(1901) % 7 == 1;
    assert IsoWeekday(b) == 1;
    AddDaysInMonth(b, 3);
    assert WeekThursday(b) == Date(1901, 1, 10);
    WeekOfThursdayIso(Date(1901, 1, 10));
  }

  /** 0100-01-01 is a Friday whose Thursday lies in the year 99, which
      `Date.UTC` reads as 1999: the week number comes out negative. */
  lemma Year100Week()
    ensures UtcWeek(Date(100, 1, 1)) == -99085
  {
    var d := Date(100, 1, 1);
    assert DayNumber(d) == 36159;
    assert IsoWeekday(d) == 5;
    assert WeekThursday(d) == AddDays(d, -1) == Date(99, 12, 31);
    AddDaysNumber(d, -1);
    assert DaysBeforeYear(1999) == 729754;
  }

  /** `n` written with at least `w` digits, zero-padded on the left: the
      decimal digits of `n` at the end, preceded by as many zeros as the
      width still asks for. */
  function ZeroPad(n: nat, w: nat): (s: string)
    ensures var t := NatToString(n);
      |s| == (if |t| >= w then |t| else w)
      && s[|s| - |t|..] == t
      && forall k :: 0 <= k < |s| - |t| ==> s[k] == '0'
    decreases w
  {
    var t := NatToString(n);
    if |t| >= w then t else "0" + ZeroPad(n, w - 1)
  }

  /** Years outside 0..9999 take a sign and six digits: 10000 is written
      "+010000", as `toISOString` writes it. */
  lemma YearTenThousand()
    ensures IsoYear(10000) == "+010000"
  {
    TenThousandDigits();
    PadOneZero(10000, 6);
  }

  lemma PadOneZero(n: nat, w: nat)
    requires |NatToString(n)| + 1 == w
    ensures ZeroPad(n, w) == "0" + NatToString(n)
  {
    assert ZeroPad(n, w - 1) == NatToString(n);
  }

  /** The year before year 0 is written "-000001". */
  lemma YearMinusOne()
    ensures IsoYear(-1) == "-000001"
  {
    assert NatToString(1) == "1";
    PadFiveZeros(1);
  }

  lemma PadFiveZeros(n: nat)
    requires |NatToString(n)| == 1
    ensures ZeroPad(n, 6) == "00000" + NatToString(n)
  {
    var s, t := ZeroPad(n, 6), NatToString(n);
    assert forall k :: 0 <= k < 6 ==> s[k] == ("00000" + t)[k];
  }

  lemma TenThousandDigits()
    ensures NatToString(10000) == "10000"
  {
    assert NatToString(1) == "1";
    assert NatToString(10) == NatToString(1) + "0";
    assert NatToString(100) == NatToString(10) + "0";
    assert NatToString(1000) == NatToString(100) + "0";
    assert NatToString(10000) == NatToString(1000) + "0";
  }

  /** The year as `toISOString` writes it: four digits within 0..9999, a
      sign and six digits outside. */
  function IsoYear(y: int): string
  {
    if 0 <= y <= 9999 then Pad4(y)
    else if y < 0 then "-" + ZeroPad(-y, 6)
    else "+" + ZeroPad(y, 6)
  }

  /** `toISOString().split('T')[0]` of a date at local midnight, read in UTC. */
  function DayText(d: Date): string
    requires ValidDate(d)
  {
    IsoYear(d.year) + "-" + Pad2(d.month) + "-" + Pad2(d.day)
  }

  /** `getWeekRange`: the Monday on or before the date, " to ", and that
      Monday plus six days. */
  function WeekRange(d: Date): string
    requires ValidDate(d)
  {
    var monday := WeekMonday(d);
    DayText(monday) + " to " + DayText(AddDays(monday, 6))
  }

  /** The range starts on a Monday no later than the date and ends on the
      Sunday six days later, with the date in between. */
  lemma WeekRangeSpan(d: Date)
    requires ValidDate(d)
    ensures IsoWeekday(WeekMonday(d)) == 1
    ensures DayNumber(WeekMonday(d)) <= DayNumber(d) <= DayNumber(AddDays(WeekMonday(d), 6))
    ensures DayNumber(AddDays(WeekMonday(d), 6)) == DayNumber(WeekMonday(d)) + 6
    ensures IsoWeekday(AddDays(WeekMonday(d), 6)) == 7
  {
    var w := IsoWeekday(d);
    var m := WeekMonday(d);
    var sunday := AddDays(m, 6);
    MondayIsMonday(d);
    AddDaysNumber(d, 1 - w);
    assert DayNumber(m) == DayNumber(d) + 1 - w;
    AddDaysNumber(m, 6);
    WeekdayAfter(m, 6);
    assert IsoWeekday(sunday) == (1 - 1 + 6) % 7 + 1;
  }

  /** Within a four-digit year the range reads as two stored date strings. */
  lemma DayTextIsIso(d: Date)
    requires ValidDate(d) && 0 <= d.year <= 9999
    ensures DayText(d) == IsoDateString(d)
    ensures ParseDate(DayText(d)) == Some(d)
  {
    IsoDateRoundTrip(d);
  }

  // ---------------------------------------------------------------------------
  // Which leaders and reports are counted

  /** `activeLeadersForScope`: every leader, or in lineage scope those whose
      MG code starts with the user's code, the user included. */
  function ScopeLeaders(all: seq<Leader>, user: Leader, scope: Scope): (r: seq<Leader>)
    ensures scope == Church ==> r == all
    ensures forall l :: l in r <==> l in all && (scope == Lineage ==> InLineage(l.mgCode, user.mgCode))
  {
    if scope == Lineage then Filter(all, (l: Leader) => InLineage(l.mgCode, user.mgCode)) else all
  }

  /** The leaders the network panel counts: every leader, or in lineage scope
      the strict descendants only. */
  function NetworkLeaders(all: seq<Leader>, user: Leader, scope: Scope): (r: seq<Leader>)
    ensures scope == Church ==> r == all
    ensures forall l :: l in r <==> l in all && (scope == Lineage ==> StrictDescendant(l.mgCode, user.mgCode))
  {
    if scope == Lineage then Filter(all, (l: Leader) => StrictDescendant(l.mgCode, user.mgCode)) else all
  }

  /** In lineage scope the user's own reports are in the weekly rollup but
      the user is not in the network. */
  lemma LineageScopes(all: seq<Leader>, user: Leader)
    requires user in all
    ensures user in ScopeLeaders(all, user, Lineage)
    ensures user !in NetworkLeaders(all, user, Lineage)
  {
    assert user.mgCode[..|user.mgCode|] == user.mgCode;
  }

  /** The reports the rollup walks: leader by leader, the reports of the
      groups that are not deleted. */
  function ScopeReports(ls: seq<Leader>): (r: seq<Report>)
    ensures forall x :: x in r <==>
      exists l, g :: l in ls && g in l.groups && !g.isDeleted && x in g.reports
  {
    if ls == [] then [] else GroupReports(LiveGroups(ls[0].groups)) + ScopeReports(ls[1..])
  }

  // ---------------------------------------------------------------------------
  // The weekly rollup

  datatype WeeklyStat = WeeklyStat(
    yearWeek: string,
    range: string,
    totalGroups: int,
    openGroups: int,
    openAttendance: int,
    discipleGroups: int,
    discipleAttendance: int,
    totalGatherings: int,
    totalAttendance: int)

  function EmptyStat(key: string, range: string): WeeklyStat
  {
    WeeklyStat(key, range, 0, 0, 0, 0, 0, 0, 0)
  }

  /** One report added to its bucket: open cells feed the open counters and
      every other category the disciple counters. */
  function AddToStat(s: WeeklyStat, r: Report): WeeklyStat
  {
    var open := r.category == OpenCell;
    var t := s.(totalGatherings := s.totalGatherings + 1,
                totalAttendance := s.totalAttendance + r.attendanceCount,
                openAttendance := if open then s.openAttendance + r.attendanceCount else s.openAttendance,
                openGroups := if open then s.openGroups + 1 else s.openGroups,
                discipleAttendance := if open then s.discipleAttendance else s.discipleAttendance + r.attendanceCount,
                discipleGroups := if open then s.discipleGroups else s.discipleGroups + 1);
    t.(totalGroups := t.openGroups + t.discipleGroups)
  }

  /** A report whose date has been read, with its bucket key and week range. */
  datatype Reading = Reading(key: string, range: string, report: Report)

  function ReadingOf(r: Report): Option<Reading>
  {
    match ParseDate(r.gatheringDate)
    case None => None
    case Some(d) => Some(Reading(BucketKey(d), WeekRange(d), r))
  }

  /** Reads every element in order; fails as soon as one read fails. */
  function ReadAll<A, B>(read: A -> Option<B>, s: seq<A>): Option<seq<B>>
  {
    if s == [] then Some([])
    else
      match ReadAll(read, s[..|s| - 1])
      case None => None
      case Some(xs) =>
        match read(s[|s| - 1])
        case None => None
        case Some(x) => Some(xs + [x])
  }

  lemma {:induction false} ReadAllSpec<A, B>(read: A -> Option<B>, s: seq<A>)
    ensures ReadAll(read, s).None? <==> exists i :: 0 <= i < |s| && read(s[i]).None?
    ensures ReadAll(read, s).Some? ==>
      |ReadAll(read, s).value| == |s| && forall i :: 0 <= i < |s| ==> read(s[i]) == Some(ReadAll(read, s).value[i])
    decreases |s|
  {
    if s != [] {
      var p := s[..|s| - 1];
      ReadAllSpec(read, p);
      assert forall i :: 0 <= i < |p| ==> s[i] == p[i];
    }
  }

  lemma ReadAllStep<A, B>(read: A -> Option<B>, s: seq<A>, i: nat, xs: seq<B>, x: B)
    requires i < |s| && ReadAll(read, s[..i]) == Some(xs) && read(s[i]) == Some(x)
    ensures ReadAll(read, s[..i + 1]) == Some(xs + [x])
  {
    assert s[..i + 1][..i] == s[..i];
  }

  /** The readings of the reports in order; none as soon as one date cannot
      be read, because creating its bucket fails (`toISOString` of an invalid
      date throws). */
  function Readings(rs: seq<Report>): Option<seq<Reading>>
  {
    ReadAll(ReadingOf, rs)
  }

  /** The buckets in creation order and their statistics by key. */
  datatype Buckets = Buckets(keys: seq<string>, stats: map<string, WeeklyStat>)

  function AddToBuckets(b: Buckets, x: Reading): Buckets
  {
    if x.key in b.stats then Buckets(b.keys, b.stats[x.key := AddToStat(b.stats[x.key], x.report)])
    else Buckets(b.keys + [x.key], b.stats[x.key := AddToStat(EmptyStat(x.key, x.range), x.report)])
  }

  /** The buckets after the readings in order. */
  function Rollup(xs: seq<Reading>): (b: Buckets)
    ensures forall k :: k in b.keys <==> k in b.stats
  {
    if xs == [] then Buckets([], map[]) else AddToBuckets(Rollup(xs[..|xs| - 1]), xs[|xs| - 1])
  }

  /** Readings with key `k`, their attendance, and the same for open cells. */
  function CountKey(xs: seq<Reading>, k: string): nat
  {
    if xs == [] then 0 else CountKey(xs[..|xs| - 1], k) + (if xs[|xs| - 1].key == k then 1 else 0)
  }

  function SumKey(xs: seq<Reading>, k: string): int
  {
    if xs == [] then 0
    else SumKey(xs[..|xs| - 1], k) + (if xs[|xs| - 1].key == k then xs[|xs| - 1].report.attendanceCount else 0)
  }

  predicate IsOpen(x: Reading)
  {
    x.report.category == OpenCell
  }

  function OpenCountKey(xs: seq<Reading>, k: string): nat
  {
    if xs == [] then 0
    else OpenCountKey(xs[..|xs| - 1], k) + (if xs[|xs| - 1].key == k && IsOpen(xs[|xs| - 1]) then 1 else 0)
  }

  function OpenSumKey(xs: seq<Reading>, k: string): int
  {
    if xs == [] then 0
    else OpenSumKey(xs[..|xs| - 1], k)
         + (if xs[|xs| - 1].key == k && IsOpen(xs[|xs| - 1]) then xs[|xs| - 1].report.attendanceCount else 0)
  }

  /** The week range of the first reading with key `k`, which is the one
      that created its bucket ("" when no reading has the key). */
  function FirstRange(xs: seq<Reading>, k: string): string
  {
    if xs == [] then ""
    else if CountKey(xs[..|xs| - 1], k) > 0 then FirstRange(xs[..|xs| - 1], k)
    else if xs[|xs| - 1].key == k then xs[|xs| - 1].range
    else ""
  }

  lemma {:induction false} CountKeyAt(xs: seq<Reading>, k: string, i: nat)
    requires i < |xs| && xs[i].key == k
    ensures CountKey(xs, k) > 0
    decreases |xs|
  {
    if i < |xs| - 1 {
      CountKeyAt(xs[..|xs| - 1], k, i);
    }
  }

  lemma {:induction false} CountKeyNone(xs: seq<Reading>, k: string)
    requires forall j :: 0 <= j < |xs| ==> xs[j].key != k
    ensures CountKey(xs, k) == 0
    decreases |xs|
  {
    if xs != [] {
      CountKeyNone(xs[..|xs| - 1], k);
    }
  }

  /** The range a bucket keeps is that of the first reading with its key:
      when two different weeks share a key, the earlier reading's week wins. */
  lemma {:induction false} FirstRangeIsFirst(xs: seq<Reading>, k: string, i: nat)
    requires i < |xs| && xs[i].key == k
    requires forall j :: 0 <= j < i ==> xs[j].key != k
    ensures FirstRange(xs, k) == xs[i].range
    decreases |xs|
  {
    var p := xs[..|xs| - 1];
    if i == |xs| - 1 {
      CountKeyNone(p, k);
    } else {
      CountKeyAt(p, k, i);
      FirstRangeIsFirst(p, k, i);
    }
  }

  /** What the bucket of key `k` holds after the readings `xs`. */
  predicate Tallies(s: WeeklyStat, xs: seq<Reading>, k: string)
  {
    && s.yearWeek == k
    && s.range == FirstRange(xs, k)
    && s.totalGatherings == CountKey(xs, k)
    && s.totalAttendance == SumKey(xs, k)
    && s.openGroups == OpenCountKey(xs, k)
    && s.openAttendance == OpenSumKey(xs, k)
    && s.discipleGroups == CountKey(xs, k) - OpenCountKey(xs, k)
    && s.discipleAttendance == SumKey(xs, k) - OpenSumKey(xs, k)
    && s.totalGroups == s.totalGatherings
  }

  ghost predicate WellFormed(b: Buckets, xs: seq<Reading>)
  {
    && NoDup(b.keys)
    && (forall k :: k in b.stats <==> CountKey(xs, k) > 0)
    && (forall k :: k in b.stats ==> Tallies(b.stats[k], xs, k))
  }

  lemma {:induction false} NoneOfKey(xs: seq<Reading>, k: string)
    requires CountKey(xs, k) == 0
    ensures SumKey(xs, k) == 0 && OpenCountKey(xs, k) == 0 && OpenSumKey(xs, k) == 0
  {
    if xs != [] {
      NoneOfKey(xs[..|xs| - 1], k);
    }
  }

  lemma CountsStep(xs: seq<Reading>, x: Reading, j: string)
    ensures CountKey(xs + [x], j) == CountKey(xs, j) + (if x.key == j then 1 else 0)
    ensures SumKey(xs + [x], j) == SumKey(xs, j) + (if x.key == j then x.report.attendanceCount else 0)
    ensures OpenCountKey(xs + [x], j) == OpenCountKey(xs, j) + (if x.key == j && IsOpen(x) then 1 else 0)
    ensures OpenSumKey(xs + [x], j) == OpenSumKey(xs, j) + (if x.key == j && IsOpen(x) then x.report.attendanceCount else 0)
  {
    assert (xs + [x])[..|xs|] == xs;
  }

  lemma AddToBucketsStep(b: Buckets, xs: seq<Reading>, x: Reading)
    requires forall k :: k in b.keys <==> k in b.stats
    requires WellFormed(b, xs)
    ensures WellFormed(AddToBuckets(b, x), xs + [x])
  {
    var xs' := xs + [x];
    assert xs'[..|xs'| - 1] == xs;
    var b' := AddToBuckets(b, x);
    forall j ensures j in b'.stats <==> CountKey(xs', j) > 0 {
      CountsStep(xs, x, j);
    }
    forall j | j in b'.stats ensures Tallies(b'.stats[j], xs', j) {
      CountsStep(xs, x, j);
      if j !in b.stats {
        NoneOfKey(xs, j);
      }
      if j != x.key {
        assert b'.stats[j] == b.stats[j];
      }
    }
    if x.key !in b.stats {
      forall i, i' | 0 <= i < i' < |b'.keys| ensures b'.keys[i] != b'.keys[i'] {
        if i' == |b'.keys| - 1 {
          assert b'.keys[i] in b.keys;
        }
      }
    }
  }

  /** One bucket per key that occurs, each created once, holding the week
      range of the first reading with that key, the number of readings with
      that key, their attendance, and the split into open cells and all
      other categories. */
  lemma {:induction false} RollupSpec(xs: seq<Reading>)
    ensures WellFormed(Rollup(xs), xs)
    decreases |xs|
  {
    if xs != [] {
      RollupSpec(xs[..|xs| - 1]);
      AddToBucketsStep(Rollup(xs[..|xs| - 1]), xs[..|xs| - 1], xs[|xs| - 1]);
      assert xs[..|xs| - 1] + [xs[|xs| - 1]] == xs;
    }
  }

  /** The statistics of the buckets, in creation order (`Object.values`). */
  function BucketValues(b: Buckets): (r: seq<WeeklyStat>)
    requires forall k :: k in b.keys ==> k in b.stats
    ensures |r| == |b.keys|
    ensures forall i :: 0 <= i < |r| ==> r[i] == b.stats[b.keys[i]]
    decreases |b.keys|
  {
    if b.keys == [] then []
    else BucketValues(Buckets(b.keys[..|b.keys| - 1], b.stats)) + [b.stats[b.keys[|b.keys| - 1]]]
  }

  /** `(a, b) => b.yearWeek.localeCompare(a.yearWeek)` */
  const NewestWeekFirst: (WeeklyStat, WeeklyStat) -> bool :=
    (a: WeeklyStat, b: WeeklyStat) => LexLe(b.yearWeek, a.yearWeek)

  lemma NewestWeekFirstPreorder()
    ensures TotalPreorder(NewestWeekFirst)
  {
    forall a: WeeklyStat, b: WeeklyStat ensures LexLe(b.yearWeek, a.yearWeek) || LexLe(a.yearWeek, b.yearWeek) {
      LexLeTotal(a.yearWeek, b.yearWeek);
    }
    forall a: WeeklyStat, b: WeeklyStat, c: WeeklyStat | LexLe(b.yearWeek, a.yearWeek) && LexLe(c.yearWeek, b.yearWeek)
      ensures LexLe(c.yearWeek, a.yearWeek)
    {
      LexLeTransitive(c.yearWeek, b.yearWeek, a.yearWeek);
    }
  }

  /** The buckets of the readings, newest key first. */
  function WeeklyList(xs: seq<Reading>): seq<WeeklyStat>
  {
    SortBy(BucketValues(Rollup(xs)), NewestWeekFirst)
  }

  /** `allWeeklyStats`: the rollup of the reports in scope, newest key first. */
  function WeeklyStats(rs: seq<Report>): Option<seq<WeeklyStat>>
  {
    match Readings(rs)
    case None => None
    case Some(xs) => Some(WeeklyList(xs))
  }

  /** Every entry of the weekly list is the bucket of a key that occurs and
      tallies the readings of that key. */
  lemma WeeklyListTallies(xs: seq<Reading>)
    ensures forall s :: s in WeeklyList(xs) ==> CountKey(xs, s.yearWeek) > 0 && Tallies(s, xs, s.yearWeek)
  {
    var v := BucketValues(Rollup(xs));
    SortByMembers(v, NewestWeekFirst);
    forall s | s in WeeklyList(xs) ensures CountKey(xs, s.yearWeek) > 0 && Tallies(s, xs, s.yearWeek) {
      BucketValueTallies(xs, s);
    }
  }

  lemma BucketValueTallies(xs: seq<Reading>, s: WeeklyStat)
    requires s in BucketValues(Rollup(xs))
    ensures CountKey(xs, s.yearWeek) > 0 && Tallies(s, xs, s.yearWeek)
  {
    var b := Rollup(xs);
    var v := BucketValues(b);
    RollupSpec(xs);
    var i :| 0 <= i < |v| && v[i] == s;
    var k := b.keys[i];
    assert s == b.stats[k];
    assert Tallies(b.stats[k], xs, k);
  }

  /** Every key that occurs has its entry in the weekly list. */
  lemma WeeklyListComplete(xs: seq<Reading>)
    ensures forall k :: CountKey(xs, k) > 0 ==> exists s :: s in WeeklyList(xs) && s.yearWeek == k
  {
    RollupSpec(xs);
    var b := Rollup(xs);
    var v := BucketValues(b);
    SortByMembers(v, NewestWeekFirst);
    forall k | CountKey(xs, k) > 0 ensures exists s :: s in WeeklyList(xs) && s.yearWeek == k {
      var i :| 0 <= i < |b.keys| && b.keys[i] == k;
      assert v[i] in WeeklyList(xs);
    }
  }

  /** The weekly list runs from the newest key to the oldest. */
  lemma WeeklyListOrder(xs: seq<Reading>)
    ensures forall i, j :: 0 <= i < j < |WeeklyList(xs)| ==> LexLe(WeeklyList(xs)[j].yearWeek, WeeklyList(xs)[i].yearWeek)
  {
    NewestWeekFirstPreorder();
    SortBySorted(BucketValues(Rollup(xs)), NewestWeekFirst);
  }

  /** The loop of `allWeeklyStats`, given how the date of one report is
      read: walks the reports, creating a bucket the first time a key is
      seen and adding each report to its bucket. */
  method CollectBuckets(rs: seq<Report>, read: Report -> Option<Reading>) returns (b: Option<Buckets>)
    ensures b.None? <==> ReadAll(read, rs).None?
    ensures b.Some? ==> b.value == Rollup(ReadAll(read, rs).value)
  {
    var keys: seq<string> := [];
    var stats: map<string, WeeklyStat> := map[];
    ghost var xs: seq<Reading> := [];
    var i := 0;
    while i < |rs|
      invariant 0 <= i <= |rs|
      invariant ReadAll(read, rs[..i]) == Some(xs)
      invariant Rollup(xs) == Buckets(keys, stats)
    {
      var reading := read(rs[i]);
      if reading.None? {
        ReadAllSpec(read, rs);
        return None;
      }
      var x := reading.value;
      if x.key !in stats {
        keys := keys + [x.key];
        stats := stats[x.key := EmptyStat(x.key, x.range)];
      }
      stats := stats[x.key := AddToStat(stats[x.key], x.report)];
      ReadAllStep(read, rs, i, xs, x);
      assert (xs + [x])[..|xs|] == xs;
      xs := xs + [x];
      i := i + 1;
    }
    assert rs[..i] == rs;
    b := Some(Buckets(keys, stats));
  }

  /** `allWeeklyStats` over the reports in scope: the buckets, newest key first. */
  method AllWeeklyStats(rs: seq<Report>) returns (r: Option<seq<WeeklyStat>>)
    ensures r == WeeklyStats(rs)
  {
    var b := CollectBuckets(rs, ReadingOf);
    if b.None? {
      return None;
    }
    r := Some(SortBy(BucketValues(b.value), NewestWeekFirst));
  }

  /** The weekly list of a scope. */
  function ScopeWeeklyStats(all: seq<Leader>, user: Leader, scope: Scope): Option<seq<WeeklyStat>>
  {
    WeeklyStats(ScopeReports(ScopeLeaders(all, user, scope)))
  }

  // ---------------------------------------------------------------------------
  // The display window

  datatype FilterRange = ThreeMonths | SixMonths | OneYear | AllTime

  /** 26 weeks, 52 weeks, everything, or otherwise 12 weeks. */
  function WindowLimit(f: FilterRange, n: nat): nat
  {
    match f
    case SixMonths => 26
    case OneYear => 52
    case AllTime => n
    case ThreeMonths => 12
  }

  /** `allWeeklyStats.slice(0, limit)` */
  function Displayed(stats: seq<WeeklyStat>, f: FilterRange): (r: seq<WeeklyStat>)
    ensures |r| == if WindowLimit(f, |stats|) < |stats| then WindowLimit(f, |stats|) else |stats|
    ensures r == stats[..|r|]
    ensures f == AllTime ==> r == stats
  {
    var limit := WindowLimit(f, |stats|);
    if limit < |stats| then stats[..limit] else stats
  }

  /** The window shows the newest weeks: every shown week is at least as new
      as every hidden one, and a wider window shows more. */
  lemma DisplayedNewest(stats: seq<WeeklyStat>, f: FilterRange, g: FilterRange)
    requires forall i, j :: 0 <= i < j < |stats| ==> LexLe(stats[j].yearWeek, stats[i].yearWeek)
    requires WindowLimit(f, |stats|) <= WindowLimit(g, |stats|)
    ensures forall i, j :: 0 <= i < |Displayed(stats, f)| <= j < |stats| ==>
      LexLe(stats[j].yearWeek, Displayed(stats, f)[i].yearWeek)
    ensures Displayed(stats, f) == Displayed(stats, g)[..|Displayed(stats, f)|]
  {
  }

  /** `allWeeklyStats[0] || null` and `allWeeklyStats[1] || null`. */
  function Latest(stats: seq<WeeklyStat>): Option<WeeklyStat>
  {
    if |stats| > 0 then Some(stats[0]) else None
  }

  function Previous(stats: seq<WeeklyStat>): Option<WeeklyStat>
  {
    if |stats| > 1 then Some(stats[1]) else None
  }

  // ---------------------------------------------------------------------------
  // The leadership network

  datatype GenCount = GenCount(gen: int, count: nat)

  /** The histogram with one more leader of generation `g`, kept in
      ascending generation order. */
  function Bump(h: seq<GenCount>, g: int): (r: seq<GenCount>)
    ensures r != []
    ensures r[0].gen == g || (h != [] && r[0].gen == h[0].gen)
  {
    if h == [] then [GenCount(g, 1)]
    else if h[0].gen == g then [h[0].(count := h[0].count + 1)] + h[1..]
    else if g < h[0].gen then [GenCount(g, 1)] + h
    else [h[0]] + Bump(h[1..], g)
  }

  predicate Ascending(h: seq<GenCount>)
  {
    forall i, j :: 0 <= i < j < |h| ==> h[i].gen < h[j].gen
  }

  function Total(h: seq<GenCount>): int
  {
    if h == [] then 0 else h[0].count + Total(h[1..])
  }

  /** The count the histogram shows for generation `x`, zero when absent. */
  function CountOf(h: seq<GenCount>, x: int): nat
  {
    if h == [] then 0 else (if h[0].gen == x then h[0].count else 0) + CountOf(h[1..], x)
  }

  predicate Positive(h: seq<GenCount>)
  {
    forall i :: 0 <= i < |h| ==> h[i].count > 0
  }

  lemma {:induction false} BumpSpec(h: seq<GenCount>, g: int)
    requires Ascending(h) && Positive(h)
    ensures Ascending(Bump(h, g)) && Positive(Bump(h, g))
    ensures Total(Bump(h, g)) == Total(h) + 1
    ensures forall x :: CountOf(Bump(h, g), x) == CountOf(h, x) + (if x == g then 1 else 0)
  {
    if h != [] {
      var r := Bump(h, g);
      if h[0].gen == g {
        assert r[1..] == h[1..];
        AscendingHead(h, g);
      } else if g < h[0].gen {
        assert r[1..] == h;
        AscendingBelow(h, g);
      } else {
        BumpSpec(h[1..], g);
        assert r[1..] == Bump(h[1..], g);
      }
    }
  }

  /** In an ascending histogram no later entry repeats the first generation. */
  lemma AscendingHead(h: seq<GenCount>, g: int)
    requires Ascending(h) && h != [] && h[0].gen == g
    ensures CountOf(h[1..], g) == 0
  {
    AscendingBelow(h[1..], g);
  }

  lemma {:induction false} AscendingBelow(h: seq<GenCount>, g: int)
    requires Ascending(h)
    requires forall i :: 0 <= i < |h| ==> g < h[i].gen
    ensures CountOf(h, g) == 0
  {
    if h != [] {
      AscendingBelow(h[1..], g);
    }
  }

  /** The histogram of a run of leaders. */
  function Histogram(ls: seq<Leader>): seq<GenCount>
  {
    if ls == [] then [] else Bump(Histogram(ls[..|ls| - 1]), ls[|ls| - 1].generation)
  }

  /** Leaders of generation `x`. */
  function GenLeaders(ls: seq<Leader>, x: int): nat
  {
    if ls == [] then 0 else GenLeaders(ls[..|ls| - 1], x) + (if ls[|ls| - 1].generation == x then 1 else 0)
  }

  /** The histogram is in ascending generation order with each generation
      once, shows for every generation the number of leaders of it, and its
      counts sum to the number of leaders. */
  lemma {:induction false} HistogramSpec(ls: seq<Leader>)
    ensures Ascending(Histogram(ls))
    ensures Total(Histogram(ls)) == |ls|
    ensures forall x :: CountOf(Histogram(ls), x) == GenLeaders(ls, x)
    ensures Positive(Histogram(ls))
    decreases |ls|
  {
    if ls != [] {
      HistogramSpec(ls[..|ls| - 1]);
      BumpSpec(Histogram(ls[..|ls| - 1]), ls[|ls| - 1].generation);
    }
  }

  /** `leadershipNetwork`: counts the leaders in scope by generation, one
      leader at a time, and returns the total with the histogram. */
  method LeadershipNetwork(all: seq<Leader>, user: Leader, scope: Scope) returns (total: nat, gens: seq<GenCount>)
    ensures total == |NetworkLeaders(all, user, scope)|
    ensures gens == Histogram(NetworkLeaders(all, user, scope))
  {
    var target := NetworkLeaders(all, user, scope);
    gens := [];
    var i := 0;
    while i < |target|
      invariant 0 <= i <= |target|
      invariant gens == Histogram(target[..i])
    {
      assert target[..i + 1][..i] == target[..i];
      gens := Bump(gens, target[i].generation);
      i := i + 1;
    }
    assert target[..i] == target;
    total := |target|;
  }
}
