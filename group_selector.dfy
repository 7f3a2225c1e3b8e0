/** The list of a leader's configurable groups (components/GroupSelector.tsx):
    the formal (open and disciple) cells that are not deleted, with a short
    category code and a display name. */
module GroupSelector {
  import opened Text
  import opened Seqs
  import opened Domain
  import GroupSettings

  predicate IsFormal(c: Category)
  {
    c == OpenCell || c == DiscipleCell
  }

  predicate Listed(g: Group)
  {
    !g.isDeleted && IsFormal(g.category)
  }

  function ActiveFormalGroups(gs: seq<Group>): (r: seq<Group>)
    ensures forall g :: g in r <==> g in gs && Listed(g)
  {
    Filter(gs, Listed)
  }

  /** The listing keeps the leader's group order: listing two runs of groups
      one after the other gives the two listings one after the other, and a
      run of listed groups is kept whole. */
  lemma ActiveFormalGroupsOrder(gs: seq<Group>, hs: seq<Group>)
    ensures ActiveFormalGroups(gs + hs) == ActiveFormalGroups(gs) + ActiveFormalGroups(hs)
    ensures (forall g :: g in gs ==> Listed(g)) ==> ActiveFormalGroups(gs) == gs
  {
    FilterAppend(gs, hs, Listed);
    if forall g :: g in gs ==> Listed(g) {
      FilterAll(gs, Listed);
    }
  }

  function CategoryShortCode(c: Category): string
  {
    match c
    case OpenCell => "O"
    case DiscipleCell => "D"
    case PreCell => "P"
    case Relationship => "R"
  }

  /** Different categories get different codes. */
  lemma ShortCodesDistinct(a: Category, b: Category)
    ensures CategoryShortCode(a) == CategoryShortCode(b) <==> a == b
  {
  }

  /** The button text: MG code, category label, a space, and "- suffix" only
      when the group has a non-empty suffix. */
  function DisplayName(l: Leader, g: Group): string
  {
    l.mgCode + " - " + CategoryLabel(g.category) + " " + (if Truthy(g.nameSuffix) then "- " + g.nameSuffix.value else "")
  }

  /** The button shows the name the settings form generates for the group,
      with one trailing space when there is no suffix. */
  lemma DisplayNameIsGroupName(l: Leader, g: Group)
    ensures Truthy(g.nameSuffix) ==>
      DisplayName(l, g) == GroupSettings.AutoGroupName(l.mgCode, g.category, g.nameSuffix.value)
    ensures !Truthy(g.nameSuffix) ==>
      DisplayName(l, g) == GroupSettings.AutoGroupName(l.mgCode, g.category, "") + " "
  {
  }
}
