/** The group configuration form (components/GroupSettings.tsx): its
    defaults, the rules that tie frequency to category and audience to zone,
    the generated group name, and the group record a submit builds. */
module GroupSettings {
  import opened Text
  import opened Seqs
  import opened Domain
  import LeaderDetail

  /** The categories the form offers. */
  const FormalCategories: seq<Category> := [OpenCell, DiscipleCell]

  /** What the frequency effect does when the category becomes `c`:
      disciple cells meet every other week, open cells every week, and any
      other category keeps the frequency it had. */
  function FrequencyFor(c: Category, f: Frequency): Frequency
  {
    if c == DiscipleCell then EveryOtherWeek
    else if c == OpenCell then EveryWeek
    else f
  }

  /** What the zone effect settles the audience to: none in the CHI zone,
      Mixed in place of none elsewhere, otherwise unchanged. */
  function AudienceFor(z: Zone, a: Option<Audience>): Option<Audience>
  {
    if z == CHI then None
    else if a.None? then Some(Mixed)
    else a
  }

  /** The effect has settled once it runs again without a change: there is
      no audience exactly in the CHI zone, and a chosen one is kept. */
  lemma AudienceSettles(z: Zone, a: Option<Audience>)
    ensures AudienceFor(z, AudienceFor(z, a)) == AudienceFor(z, a)
    ensures AudienceFor(z, a).None? <==> z == CHI
    ensures z != CHI && a.Some? ==> AudienceFor(z, a) == a
  {
  }

  /** `${mgCode} - ${label}${suffix ? ' - ' + suffix : ''}` */
  function AutoGroupName(mgCode: string, c: Category, suffix: string): string
  {
    mgCode + " - " + CategoryLabel(c) + (if suffix != "" then " - " + suffix else "")
  }

  /** Two groups of one leader and category get the same generated name only
      when they have the same suffix. */
  lemma AutoGroupNameSuffixInjective(mgCode: string, c: Category, s1: string, s2: string)
    requires AutoGroupName(mgCode, c, s1) == AutoGroupName(mgCode, c, s2)
    ensures s1 == s2
  {
    var head := mgCode + " - " + CategoryLabel(c);
    var t1 := if s1 != "" then " - " + s1 else "";
    var t2 := if s2 != "" then " - " + s2 else "";
    assert head + t1 == head + t2;
    assert t1 == (head + t1)[|head|..];
    assert t2 == (head + t2)[|head|..];
    if s1 != "" && s2 != "" {
      assert s1 == t1[3..];
      assert s2 == t2[3..];
    }
  }

  /** A quick-add group from the leader page carries the name this form
      would generate for the same category with no suffix. */
  lemma QuickGroupNameIsAutoName(l: Leader, c: Category, stamp: nat)
    ensures LeaderDetail.QuickGroup(l, c, stamp).groupName == AutoGroupName(l.mgCode, c, "")
  {
  }

  function Base36Digit(v: nat): (c: char)
    requires v < 36
  {
    if v < 10 then ('0' as int + v) as char else ('a' as int + v - 10) as char
  }

  function Base36DigitValue(c: char): nat
  {
    if '0' <= c <= '9' then c as int - '0' as int
    else if 'a' <= c <= 'z' then c as int - 'a' as int + 10
    else 0
  }

  /** `n.toString(36)` for a non-negative integer. */
  function Base36(n: nat): (s: string)
    ensures |s| >= 1
    ensures forall i :: 0 <= i < |s| ==> '0' <= s[i] <= '9' || 'a' <= s[i] <= 'z'
  {
    if n < 36 then [Base36Digit(n)] else Base36(n / 36) + [Base36Digit(n % 36)]
  }

  function Base36Value(s: string): nat
  {
    if s == [] then 0 else Base36Value(s[..|s| - 1]) * 36 + Base36DigitValue(s[|s| - 1])
  }

  /** Reading the base-36 text back gives the number, so different creation
      stamps give different group ids. */
  lemma {:induction false} Base36RoundTrip(n: nat)
    ensures Base36Value(Base36(n)) == n
    decreases n
  {
    var s := Base36(n);
    if n >= 36 {
      Base36RoundTrip(n / 36);
      assert s[..|s| - 1] == Base36(n / 36);
    } else {
      assert s[..|s| - 1] == [];
    }
  }

  /** The fields the form edits. */
  datatype Draft = Draft(
    category: Category,
    nameSuffix: string,
    frequency: Frequency,
    zone: Zone,
    audience: Option<Audience>,
    day: Weekday,
    time: string,
    location: string,
    languages: seq<string>,
    service: string,
    range: MemberRange,
    ageRanges: seq<string>)

  /** The form once the initial state, the sync from the existing group and
      the frequency and zone effects have run. */
  function InitialDraft(existing: Option<Group>, initial: Option<Category>): (d: Draft)
    ensures existing.None? ==>
      && d.category == (if initial.Some? then initial.value else OpenCell)
      && d.nameSuffix == "" && d.zone == ADT && d.audience == Some(Mixed)
      && d.frequency == (if d.category == DiscipleCell then EveryOtherWeek else EveryWeek)
      && d.day == Saturday && d.time == "14:00" && d.location == ""
      && d.languages == ["Cantonese"] && d.service == FirstChurchService
      && d.range == FourToSix && d.ageRanges == []
    ensures existing.Some? ==>
      && d.category == existing.value.category
      && d.nameSuffix == OrEmpty(existing.value.nameSuffix)
      && d.zone == existing.value.pastorZoneId
      && d.day == existing.value.groupDay && d.time == existing.value.groupTime
      && d.location == existing.value.groupLocation && d.languages == existing.value.languages
      && d.service == existing.value.service && d.range == existing.value.regularMemberRange
      && d.ageRanges == existing.value.ageRanges
    ensures d.audience.None? <==> d.zone == CHI
  {
    match existing
    case Some(g) =>
      Draft(g.category, OrEmpty(g.nameSuffix), FrequencyFor(g.category, g.groupFrequency), g.pastorZoneId,
            AudienceFor(g.pastorZoneId, g.targetAudience), g.groupDay, g.groupTime, g.groupLocation,
            g.languages, g.service, g.regularMemberRange, g.ageRanges)
    case None =>
      var c := if initial.Some? then initial.value else OpenCell;
      Draft(c, "", FrequencyFor(c, EveryWeek), ADT, Some(Mixed), Saturday, "14:00", "",
            ["Cantonese"], FirstChurchService, FourToSix, [])
  }

  /** The group a submit hands to the page. The existing group's id,
      capacity, member count and reports carry over; the name is generated;
      the code, the address and the deleted flag are not part of the record. */
  function GroupOf(existing: Option<Group>, leader: Leader, d: Draft, stamp: nat): (g: Group)
    ensures g.groupName == AutoGroupName(leader.mgCode, d.category, d.nameSuffix)
    ensures g.tribeCode == leader.tribeCode && g.category == d.category
    ensures g.nameSuffix == Some(d.nameSuffix)
    ensures g.groupCode.None? && g.groupAddress.None? && !g.isDeleted
    ensures existing.Some? && existing.value.id != "" ==> g.id == existing.value.id
    ensures existing.None? || existing.value.id == "" ==> StartsWith(g.id, "new-")
    ensures existing.Some? ==>
      && g.reports == existing.value.reports
      && g.currentMemberCount == existing.value.currentMemberCount
      && g.maxCapacity == (if existing.value.maxCapacity != 0 then existing.value.maxCapacity else 12)
    ensures existing.None? ==> g.reports == [] && g.currentMemberCount == 0 && g.maxCapacity == 12
  {
    var id := if existing.Some? && existing.value.id != "" then existing.value.id else "new-" + Base36(stamp);
    Group(
      id := id,
      groupName := AutoGroupName(leader.mgCode, d.category, d.nameSuffix),
      groupCode := None,
      tribeCode := leader.tribeCode,
      category := d.category,
      groupDay := d.day,
      groupTime := d.time,
      groupLocation := d.location,
      groupAddress := None,
      maxCapacity := if existing.Some? && existing.value.maxCapacity != 0 then existing.value.maxCapacity else 12,
      currentMemberCount := if existing.Some? then existing.value.currentMemberCount else 0,
      groupFrequency := d.frequency,
      pastorZoneId := d.zone,
      targetAudience := d.audience,
      languages := d.languages,
      service := d.service,
      regularMemberRange := d.range,
      ageRanges := d.ageRanges,
      reports := if existing.Some? then existing.value.reports else [],
      nameSuffix := Some(d.nameSuffix),
      isDeleted := false)
  }

  /** Opening an existing group and saving it untouched gives back the same
      group except for what the form derives or drops: the generated name,
      the leader's tribe, the effect-settled frequency and audience, a
      present suffix, no code, no address, not deleted. */
  lemma OpenSaveRoundTrip(g: Group, leader: Leader, stamp: nat)
    requires g.id != "" && g.maxCapacity != 0
    ensures GroupOf(Some(g), leader, InitialDraft(Some(g), None), stamp)
         == g.(groupName := AutoGroupName(leader.mgCode, g.category, OrEmpty(g.nameSuffix)),
               groupCode := None, groupAddress := None, tribeCode := leader.tribeCode,
               nameSuffix := Some(OrEmpty(g.nameSuffix)),
               groupFrequency := FrequencyFor(g.category, g.groupFrequency),
               targetAudience := AudienceFor(g.pastorZoneId, g.targetAudience),
               isDeleted := false)
  {
  }

  class GroupSettingsForm {
    const leader: Leader
    const existing: Option<Group>
    /** Whether the page passed a delete callback. */
    const canDelete: bool
    var category: Category
    var nameSuffix: string
    var frequency: Frequency
    var zone: Zone
    var audience: Option<Audience>
    var day: Weekday
    var time: string
    var location: string
    var languages: seq<string>
    var service: string
    var range: MemberRange
    var ageRanges: seq<string>

    function Current(): Draft
      reads this
    {
      Draft(category, nameSuffix, frequency, zone, audience, day, time, location, languages, service, range, ageRanges)
    }

    /** The zone rule holds between any two user actions. */
    predicate Valid()
      reads this
    {
      audience.None? <==> zone == CHI
    }

    constructor (leader: Leader, existing: Option<Group>, initial: Option<Category>, canDelete: bool)
      ensures this.leader == leader && this.existing == existing && this.canDelete == canDelete
      ensures Current() == InitialDraft(existing, initial)
      ensures Valid()
    {
      this.leader := leader;
      this.existing := existing;
      this.canDelete := canDelete;
      var d := InitialDraft(existing, initial);
      category := d.category;
      nameSuffix := d.nameSuffix;
      frequency := d.frequency;
      zone := d.zone;
      audience := d.audience;
      day := d.day;
      time := d.time;
      location := d.location;
      languages := d.languages;
      service := d.service;
      range := d.range;
      ageRanges := d.ageRanges;
    }

    /** Choosing a category; the frequency effect runs only when the
        category actually changes. */
    method SetCategory(c: Category)
      requires Valid()
      requires c in FormalCategories
      modifies this`category, this`frequency
      ensures category == c
      ensures frequency == if c != old(category) then FrequencyFor(c, old(frequency)) else old(frequency)
      ensures c != old(category) ==> frequency == (if c == DiscipleCell then EveryOtherWeek else EveryWeek)
      ensures Valid()
    {
      if c != category {
        frequency := FrequencyFor(c, frequency);
      }
      category := c;
    }

    method SetNameSuffix(s: string)
      requires Valid()
      modifies this`nameSuffix
      ensures nameSuffix == s
      ensures Valid()
    {
      nameSuffix := s;
    }

    method SetFrequency(f: Frequency)
      requires Valid()
      modifies this`frequency
      ensures frequency == f
      ensures Valid()
    {
      frequency := f;
    }

    /** Choosing a zone, followed by the zone effect. */
    method SetZone(z: Zone)
      modifies this`zone, this`audience
      ensures zone == z && audience == AudienceFor(z, old(audience))
      ensures Valid()
    {
      zone := z;
      audience := AudienceFor(z, audience);
    }

    /** The audience buttons are shown outside the CHI zone only. */
    method SetAudience(a: Audience)
      requires zone != CHI
      modifies this`audience
      ensures audience == Some(a)
      ensures Valid()
    {
      audience := Some(a);
    }

    method SetMeeting(d: Weekday, t: string, loc: string)
      requires Valid()
      modifies this`day, this`time, this`location
      ensures day == d && time == t && location == loc
      ensures Valid()
    {
      day := d;
      time := t;
      location := loc;
    }

    method SetService(s: string, r: MemberRange)
      requires Valid()
      modifies this`service, this`range
      ensures service == s && range == r
      ensures Valid()
    {
      service := s;
      range := r;
    }

    method ToggleLanguage(lang: string)
      requires Valid()
      modifies this`languages
      ensures languages == Toggled(old(languages), lang)
      ensures lang in languages <==> lang !in old(languages)
      ensures Valid()
    {
      if lang in languages {
        languages := Without(languages, lang);
      } else {
        languages := languages + [lang];
      }
    }

    method ToggleAgeRange(r: string)
      requires Valid()
      modifies this`ageRanges
      ensures ageRanges == Toggled(old(ageRanges), r)
      ensures r in ageRanges <==> r !in old(ageRanges)
      ensures Valid()
    {
      if r in ageRanges {
        ageRanges := Without(ageRanges, r);
      } else {
        ageRanges := ageRanges + [r];
      }
    }

    method Submit(stamp: nat) returns (g: Group)
      requires Valid()
      ensures g == GroupOf(existing, leader, Current(), stamp)
      ensures g.groupName == AutoGroupName(leader.mgCode, category, nameSuffix)
      ensures g.targetAudience.None? <==> g.pastorZoneId == CHI
    {
      g := GroupOf(existing, leader, Current(), stamp);
    }

    /** Delete fires only for an existing group and only when the page can
        delete; it names that group's id. */
    method Delete() returns (deleted: Option<string>)
      ensures deleted.Some? <==> existing.Some? && canDelete
      ensures deleted.Some? ==> deleted.value == existing.value.id
    {
      if existing.Some? && canDelete {
        deleted := Some(existing.value.id);
      } else {
        deleted := None;
      }
    }
  }
}
