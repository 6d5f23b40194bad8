/** Order of managed hosts inside their groups, and of the groups (src/App.tsx). */
module ManagedHosts {
  import opened Sequences
  import opened StableSort
  import opened ItemOrder

  /** `id` is the decimal text of the host's id, which the order list holds; `group` is the name
      of its group, the name for ungrouped hosts included. */
  datatype Host<I> = Host(id: string, group: string, info: I)

  function HostId<I>(h: Host<I>): string { h.id }

  function InGroup<I>(group: string): Host<I> -> bool { (h: Host<I>) => h.group == group }

  /** The hosts of a group in display order. */
  function GroupHosts<I>(hosts: seq<Host<I>>, order: seq<string>, group: string): seq<Host<I>> {
    Sort(Filter(hosts, InGroup(group)), ByKey(order, HostId))
  }

  /** What the sidebar lists under a group: all matching hosts sorted, then those of the group. */
  function Display<I>(hosts: seq<Host<I>>, shown: Host<I> -> bool, order: seq<string>, group: string): seq<Host<I>> {
    Filter(Sort(Filter(hosts, shown), ByKey(order, HostId)), InGroup(group))
  }

  function GroupOf<I>(hosts: seq<Host<I>>, id: string): seq<string> {
    if hosts == [] then [] else if hosts[0].id == id then [hosts[0].group] else GroupOf(hosts[1..], id)
  }

  function PlaceNextTo<K(==)>(ids: seq<K>, source: K, target: K, after: bool): seq<K> {
    var rest := Without(ids, source);
    SpliceIn(rest, IndexOf(rest, target) + (if after then 1 else 0), source)
  }

  predicate DragAccepted<I>(hosts: seq<Host<I>>, source: string, target: string) {
    source != target && GroupOf(hosts, source) != [] && GroupOf(hosts, source) == GroupOf(hosts, target)
  }

  function OrderAfterDrag<I>(hosts: seq<Host<I>>, order: seq<string>, source: string, target: string, after: bool)
    : seq<string>
  {
    if !DragAccepted(hosts, source, target) then order
    else
      var ids := Keys(GroupHosts(hosts, order, GroupOf(hosts, source)[0]), HostId);
      Filter(order, NotIn(ids)) + PlaceNextTo(ids, source, target, after)
  }

  class HostOrder<I> {
    const hosts: seq<Host<I>>
    var order: seq<string>

    constructor (hosts: seq<Host<I>>, order: seq<string>)
      ensures this.hosts == hosts && this.order == order
    {
      this.hosts, this.order := hosts, order;
    }

    method ReorderManagedHosts(sourceId: string, targetId: string, placeAfter: bool)
      modifies this
      ensures order == OrderAfterDrag(hosts, old(order), sourceId, targetId, placeAfter)
    {
      if sourceId == targetId { return; }
      var source, target := GroupOf(hosts, sourceId), GroupOf(hosts, targetId);
      if source == [] || target == [] || source != target { return; }
      var groupHostIds := Keys(GroupHosts(hosts, order, source[0]), HostId);
      var nextGroupHostIds := Without(groupHostIds, sourceId);
      var targetIndex := IndexOf(nextGroupHostIds, targetId);
      nextGroupHostIds := SpliceIn(nextGroupHostIds, targetIndex + (if placeAfter then 1 else 0), sourceId);
      order := Filter(order, NotIn(groupHostIds)) + nextGroupHostIds;
    }
  }

  // ---------- Where the dragged key lands ----------

  /** The source stands right before or right after the target, and nothing else has moved. */
  lemma PlacedNextTo<K>(ids: seq<K>, source: K, target: K, after: bool)
    requires NoDup(ids) && source in ids && target in ids && source != target
    ensures var next := PlaceNextTo(ids, source, target, after);
      && multiset(next) == multiset(ids) && NoDup(next)
      && Without(next, source) == Without(ids, source)
      && exists i :: 0 <= i < |next| - 1
           && (if after then next[i] == target && next[i + 1] == source else next[i] == source && next[i + 1] == target)
  {
    PlacedPermutes(ids, source, target, after);
    PlacedBeside(ids, source, target, after);
  }

  lemma PlacedPermutes<K>(ids: seq<K>, source: K, target: K, after: bool)
    requires NoDup(ids) && source in ids
    ensures var next := PlaceNextTo(ids, source, target, after);
      multiset(next) == multiset(ids) && NoDup(next) && Without(next, source) == Without(ids, source)
  {
    var si := IndexOf(ids, source);
    var rest := Without(ids, source);
    var at := IndexOf(rest, target) + (if after then 1 else 0);
    WithoutSpliceOut(ids, si);
    SpliceOutPermutes(ids, si);
    SpliceInPermutes(rest, at, source);
    PermutationKeepsNoDup(ids, SpliceIn(rest, at, source));
    FilterMembers(ids, Other(source));
    WithoutSpliceIn(rest, at, source);
  }

  lemma PlacedBeside<K>(ids: seq<K>, source: K, target: K, after: bool)
    requires target in ids && source != target
    ensures var next := PlaceNextTo(ids, source, target, after);
      exists i :: 0 <= i < |next| - 1
        && (if after then next[i] == target && next[i + 1] == source else next[i] == source && next[i + 1] == target)
  {
    FilterMembers(ids, Other(source));
    var rest := Without(ids, source);
    assert target in rest;
    var ti := IndexOf(rest, target);
    var next := SpliceIn(rest, ti + (if after then 1 else 0), source);
    assert next == PlaceNextTo(ids, source, target, after) && 0 <= ti < |next| - 1;
    assert if after then next[ti] == target && next[ti + 1] == source else next[ti] == source && next[ti + 1] == target;
  }

  // ---------- Ranks after a drag ----------

  /** Filtering an order list keeps the relative order of the last occurrences it keeps. */
  lemma {:induction false} FilterKeepsLast<K>(order: seq<K>, p: K -> bool, a: K, b: K)
    requires p(a) && p(b) && a in order && b in order
    ensures a in Filter(order, p) && b in Filter(order, p)
    ensures LastIndex(Filter(order, p), a) <= LastIndex(Filter(order, p), b)
       <==> LastIndex(order, a) <= LastIndex(order, b)
  {
    FilterMembers(order, p);
    var init, l := order[..|order| - 1], order[|order| - 1];
    assert order == init + [l];
    FilterConcat(init, [l], p);
    var kept := Filter(init, p);
    if p(l) {
      assert Filter(order, p) == kept + [l] && (kept + [l])[..|kept|] == kept;
    } else {
      assert Filter(order, p) == kept + [] == kept;
    }
    if a != l && b != l {
      FilterKeepsLast(init, p, a, b);
    }
  }

  /** For keys outside the dragged group, comparing ranks gives what it gave before. */
  lemma RanksKept<K>(order: seq<K>, ids: seq<K>, next: seq<K>, a: K, b: K)
    requires |order| + |next| <= UNLISTED
    requires multiset(next) == multiset(ids) && a !in ids && b !in ids
    ensures var order' := Filter(order, NotIn(ids)) + next;
      ById(order')(a, b) == ById(order)(a, b)
  {
    var kept := Filter(order, NotIn(ids));
    FilterMembers(order, NotIn(ids));
    FilterShrinks(order, NotIn(ids));
    PermutationMembers(next, ids);
    LastIndexPrefix(kept, next, a);
    LastIndexPrefix(kept, next, b);
    if a in order && b in order {
      FilterKeepsLast(order, NotIn(ids), a, b);
    }
  }

  lemma {:induction false} FilterShrinks<K>(s: seq<K>, p: K -> bool)
    ensures |Filter(s, p)| <= |s|
  {
    if s != [] {
      FilterShrinks(s[1..], p);
    }
  }

  // ---------- What the groups show after a drag ----------

  lemma ByKeyOrders<T, K>(s: seq<T>, order: seq<K>, key: T -> K)
    ensures Orders(s, ByKey(order, key))
  {
  }

  /** Filtering by text and sorting all hosts at once shows each group in its own order. */
  lemma DisplayFiltersGroup<I>(hosts: seq<Host<I>>, shown: Host<I> -> bool, order: seq<string>, group: string)
    ensures Display(hosts, shown, order, group) == Filter(GroupHosts(hosts, order, group), shown)
  {
    var cmp := ByKey(order, HostId);
    ByKeyOrders(Filter(hosts, shown), order, HostId);
    ByKeyOrders(Filter(hosts, InGroup(group)), order, HostId);
    FilterSort(Filter(hosts, shown), cmp, InGroup(group));
    FilterCommutes(hosts, shown, InGroup(group));
    FilterSort(Filter(hosts, InGroup(group)), cmp, shown);
  }

  lemma {:induction false} GroupOfMember<I>(hosts: seq<Host<I>>, id: string, group: string)
    requires NoDup(Keys(hosts, HostId))
    ensures GroupOf(hosts, id) == [group] <==> id in Keys(Filter(hosts, InGroup(group)), HostId)
    ensures GroupOf(hosts, id) != [] ==> |GroupOf(hosts, id)| == 1
    ensures GroupOf(hosts, id) == [] ==> id !in Keys(hosts, HostId)
  {
    if hosts != [] {
      NoDupTail(Keys(hosts, HostId));
      GroupOfMember(hosts[1..], id, group);
      KeysOfFilter(hosts[1..], HostId, InGroup(group));
    }
  }

  lemma GroupOfHost<I>(hosts: seq<Host<I>>, h: Host<I>)
    requires NoDup(Keys(hosts, HostId)) && h in hosts
    ensures GroupOf(hosts, h.id) == [h.group]
  {
    GroupOfMember(hosts, h.id, h.group);
    FilterMembers(hosts, InGroup(h.group));
    KeysMembers(Filter(hosts, InGroup(h.group)), HostId);
  }

  /** A drag is accepted exactly between two different hosts of the same group. */
  lemma DragAcceptedIff<I>(hosts: seq<Host<I>>, a: Host<I>, b: Host<I>)
    requires NoDup(Keys(hosts, HostId)) && a in hosts && b in hosts
    ensures DragAccepted(hosts, a.id, b.id) <==> a.id != b.id && a.group == b.group
  {
    GroupOfHost(hosts, a);
    GroupOfHost(hosts, b);
  }

  /** Any other drag leaves the order list as it is. */
  lemma OtherDragIgnored<I>(hosts: seq<Host<I>>, order: seq<string>, source: string, target: string, after: bool)
    requires NoDup(Keys(hosts, HostId))
    requires forall a, b | a in hosts && b in hosts && a.id == source && b.id == target :: a == b || a.group != b.group
    ensures OrderAfterDrag(hosts, order, source, target, after) == order
  {
    if DragAccepted(hosts, source, target) {
      GroupOfMember(hosts, source, "");
      GroupOfMember(hosts, target, "");
      var a := HostOf(hosts, source);
      var b := HostOf(hosts, target);
      DragAcceptedIff(hosts, a, b);
    }
  }

  lemma {:induction false} HostOf<I>(hosts: seq<Host<I>>, id: string) returns (h: Host<I>)
    requires GroupOf(hosts, id) != []
    ensures h in hosts && h.id == id
  {
    if hosts[0].id == id { h := hosts[0]; } else { h := HostOf(hosts[1..], id); }
  }

  /** The dragged group shows the moved list. */
  lemma DraggedGroup<I>(hosts: seq<Host<I>>, order: seq<string>, source: string, target: string, after: bool)
    requires NoDup(Keys(hosts, HostId)) && |order| + |hosts| <= UNLISTED
    requires DragAccepted(hosts, source, target)
    ensures var group := GroupOf(hosts, source)[0];
      var ids := Keys(GroupHosts(hosts, order, group), HostId);
      && NoDup(ids) && source in ids && target in ids
      && Keys(GroupHosts(hosts, OrderAfterDrag(hosts, order, source, target, after), group), HostId)
         == PlaceNextTo(ids, source, target, after)
  {
    var group := GroupOf(hosts, source)[0];
    var ids := Keys(GroupHosts(hosts, order, group), HostId);
    var next := PlaceNextTo(ids, source, target, after);
    DragInGroup(hosts, order, source, target);
    PlacedNextTo(ids, source, target, after);
    GroupSortsTo(hosts, order, group, ids, next);
  }

  lemma DragInGroup<I>(hosts: seq<Host<I>>, order: seq<string>, source: string, target: string)
    requires NoDup(Keys(hosts, HostId)) && DragAccepted(hosts, source, target)
    ensures var ids := Keys(GroupHosts(hosts, order, GroupOf(hosts, source)[0]), HostId);
      NoDup(ids) && source in ids && target in ids
  {
    var group := GroupOf(hosts, source)[0];
    GroupOfMember(hosts, source, group);
    GroupOfMember(hosts, target, group);
    ShownKeysPermute(hosts, InGroup(group), HostId, order);
    PermutationMembers(Keys(Filter(hosts, InGroup(group)), HostId), Keys(GroupHosts(hosts, order, group), HostId));
  }

  lemma GroupSortsTo<I>(hosts: seq<Host<I>>, order: seq<string>, group: string, ids: seq<string>, next: seq<string>)
    requires NoDup(Keys(hosts, HostId)) && |order| + |hosts| <= UNLISTED
    requires ids == Keys(GroupHosts(hosts, order, group), HostId)
    requires NoDup(next) && multiset(next) == multiset(ids)
    ensures Keys(GroupHosts(hosts, Filter(order, NotIn(ids)) + next, group), HostId) == next
  {
    var kept := Filter(order, NotIn(ids));
    KeptSize(hosts, order, group, ids, next);
    GroupKeys(hosts, order, group);
    GroupKeys(hosts, kept + next, group);
    SortsToNext(Keys(Filter(hosts, InGroup(group)), HostId), order, ids, next);
  }

  lemma SortsToNext<K>(members: seq<K>, order: seq<K>, ids: seq<K>, next: seq<K>)
    requires NoDup(next) && |Filter(order, NotIn(ids))| + |next| <= UNLISTED
    requires multiset(members) == multiset(ids) == multiset(next)
    ensures Sort(members, ById(Filter(order, NotIn(ids)) + next)) == next
  {
    KeptIsApart(order, ids, next);
    ListedLastSort(members, Filter(order, NotIn(ids)), next);
  }

  lemma KeptSize<I>(hosts: seq<Host<I>>, order: seq<string>, group: string, ids: seq<string>, next: seq<string>)
    requires NoDup(Keys(hosts, HostId)) && |order| + |hosts| <= UNLISTED
    requires ids == Keys(GroupHosts(hosts, order, group), HostId) && multiset(next) == multiset(ids)
    ensures |Filter(order, NotIn(ids))| + |next| <= UNLISTED
  {
    GroupSize(hosts, order, group, next);
    FilterShrinks(order, NotIn(ids));
  }

  lemma GroupKeys<I>(hosts: seq<Host<I>>, order: seq<string>, group: string)
    requires NoDup(Keys(hosts, HostId))
    ensures var ids := Keys(Filter(hosts, InGroup(group)), HostId);
      var sorted := Keys(GroupHosts(hosts, order, group), HostId);
      sorted == Sort(ids, ById(order)) && multiset(sorted) == multiset(ids)
  {
    ShownKeysPermute(hosts, InGroup(group), HostId, order);
  }

  lemma KeptIsApart<K>(order: seq<K>, ids: seq<K>, next: seq<K>)
    requires multiset(next) == multiset(ids)
    ensures forall k | k in Filter(order, NotIn(ids)) :: k !in next
  {
    FilterMembers(order, NotIn(ids));
    PermutationMembers(next, ids);
  }

  /** Every other group shows what it showed. */
  lemma OtherGroupsKept<I>(hosts: seq<Host<I>>, order: seq<string>, source: string, target: string, after: bool,
                           other: string)
    requires NoDup(Keys(hosts, HostId)) && |order| + |hosts| <= UNLISTED
    requires DragAccepted(hosts, source, target) && other != GroupOf(hosts, source)[0]
    ensures GroupHosts(hosts, OrderAfterDrag(hosts, order, source, target, after), other)
         == GroupHosts(hosts, order, other)
  {
    var group := GroupOf(hosts, source)[0];
    var ids := Keys(GroupHosts(hosts, order, group), HostId);
    var next := PlaceNextTo(ids, source, target, after);
    DragInGroup(hosts, order, source, target);
    PlacedNextTo(ids, source, target, after);
    OtherGroupSorts(hosts, order, group, next, other);
  }

  lemma OtherGroupSorts<I>(hosts: seq<Host<I>>, order: seq<string>, group: string, next: seq<string>, other: string)
    requires NoDup(Keys(hosts, HostId)) && |order| + |hosts| <= UNLISTED && other != group
    requires multiset(next) == multiset(Keys(GroupHosts(hosts, order, group), HostId))
    ensures var ids := Keys(GroupHosts(hosts, order, group), HostId);
      GroupHosts(hosts, Filter(order, NotIn(ids)) + next, other) == GroupHosts(hosts, order, other)
  {
    var ids := Keys(GroupHosts(hosts, order, group), HostId);
    var order' := Filter(order, NotIn(ids)) + next;
    var members := Filter(hosts, InGroup(other));
    GroupSize(hosts, order, group, next);
    forall x, y | x in members && y in members
      ensures ByKey(order', HostId)(x, y) == ByKey(order, HostId)(x, y)
    {
      NotInOtherGroup(hosts, order, group, other, x);
      NotInOtherGroup(hosts, order, group, other, y);
      RanksKept(order, ids, next, HostId(x), HostId(y));
    }
    SortAgrees(members, ByKey(order', HostId), ByKey(order, HostId));
  }

  lemma GroupSize<I>(hosts: seq<Host<I>>, order: seq<string>, group: string, next: seq<string>)
    requires NoDup(Keys(hosts, HostId))
    requires multiset(next) == multiset(Keys(GroupHosts(hosts, order, group), HostId))
    ensures |next| <= |hosts|
  {
    ShownKeysPermute(hosts, InGroup(group), HostId, order);
    KeysOfFilter(hosts, HostId, InGroup(group));
    assert |multiset(next)| == |next|;
    assert |multiset(Keys(Filter(hosts, InGroup(group)), HostId))| == |Keys(Filter(hosts, InGroup(group)), HostId)|;
  }

  lemma NotInOtherGroup<I>(hosts: seq<Host<I>>, order: seq<string>, group: string, other: string, x: Host<I>)
    requires NoDup(Keys(hosts, HostId)) && group != other && x in Filter(hosts, InGroup(other))
    ensures HostId(x) !in Keys(GroupHosts(hosts, order, group), HostId)
  {
    FilterMembers(hosts, InGroup(other));
    KeyDecides(hosts, HostId, InGroup(group), x);
    ShownKeysPermute(hosts, InGroup(group), HostId, order);
    PermutationMembers(Keys(GroupHosts(hosts, order, group), HostId), Keys(Filter(hosts, InGroup(group)), HostId));
  }

  /** A drag of a host: whatever filter is on, the sidebar lists the dragged group in its new
      order, in which the source stands next to the target, and every other group as before. */
  lemma HostDrag<I>(hosts: seq<Host<I>>, order: seq<string>, source: string, target: string, after: bool,
                    shown: Host<I> -> bool, group: string)
    requires NoDup(Keys(hosts, HostId)) && |order| + |hosts| <= UNLISTED
    requires DragAccepted(hosts, source, target)
    ensures var order' := OrderAfterDrag(hosts, order, source, target, after);
      var ids, ids' := Keys(GroupHosts(hosts, order, group), HostId), Keys(GroupHosts(hosts, order', group), HostId);
      && Display(hosts, shown, order', group) == Filter(GroupHosts(hosts, order', group), shown)
      && (if group == GroupOf(hosts, source)[0] then ids' == PlaceNextTo(ids, source, target, after)
          else Display(hosts, shown, order', group) == Display(hosts, shown, order, group))
  {
    var order' := OrderAfterDrag(hosts, order, source, target, after);
    DisplayFiltersGroup(hosts, shown, order', group);
    if group == GroupOf(hosts, source)[0] {
      DraggedGroup(hosts, order, source, target, after);
    } else {
      DisplayFiltersGroup(hosts, shown, order, group);
      OtherGroupsKept(hosts, order, source, target, after, group);
    }
  }

  // ---------- Groups ----------

  /** The group comparator: by rank, then by an arbitrary collation of the names. */
  function ByRank(order: seq<string>, collate: (string, string) -> bool): (string, string) -> bool {
    (a: string, b: string) => Rank(order, a) < Rank(order, b) || (Rank(order, a) == Rank(order, b) && collate(a, b))
  }

  /** The groups shown, from the group of every host. */
  function Groups(hostGroups: seq<string>, order: seq<string>, collate: (string, string) -> bool): seq<string> {
    Sort(Unique(hostGroups), ByRank(order, collate))
  }

  /** An order list of exactly the groups that hosts have is the list that is shown. */
  lemma GroupsInListOrder(hostGroups: seq<string>, order: seq<string>, collate: (string, string) -> bool)
    requires NoDup(order) && |order| <= UNLISTED
    requires (forall g | g in order :: g in hostGroups) && (forall g | g in hostGroups :: g in order)
    ensures Groups(hostGroups, order, collate) == order
  {
    UniqueMembers(hostGroups);
    SameMembersPermute(Unique(hostGroups), order);
    forall i | 0 <= i < |order|
      ensures Rank(order, order[i]) == i
    {
      LastIndexUnique(order, i);
      assert order[i] in order;
    }
    SortInto(Unique(hostGroups), order, ByRank(order, collate));
  }

  lemma GroupsMembers(hostGroups: seq<string>, order: seq<string>, collate: (string, string) -> bool)
    ensures var groups := Groups(hostGroups, order, collate);
      && NoDup(groups) && (forall g | g in groups :: g in hostGroups) && (forall g | g in hostGroups :: g in groups)
  {
    UniqueMembers(hostGroups);
    SortMembers(Unique(hostGroups), ByRank(order, collate));
    SortPermutes(Unique(hostGroups), ByRank(order, collate));
    PermutationKeepsNoDup(Unique(hostGroups), Groups(hostGroups, order, collate));
  }

  /** The groups of the hosts, those that the order list holds first and by their place in it, the
      others by their names. */
  lemma GroupsByPlace(hostGroups: seq<string>, order: seq<string>, collate: (string, string) -> bool, i: nat, j: nat)
    requires Orders(Unique(hostGroups), collate) && |order| <= 9007199254740991
    requires i < j < |Groups(hostGroups, order, collate)|
    ensures var groups := Groups(hostGroups, order, collate);
      && (groups[j] in order ==>
            groups[i] in order && LastIndex(order, groups[i]) <= LastIndex(order, groups[j]))
      && (groups[i] !in order ==> groups[j] !in order && collate(groups[i], groups[j]))
  {
    var groups := Groups(hostGroups, order, collate);
    SortSorts(Unique(hostGroups), ByRank(order, collate));
    assert ByRank(order, collate)(groups[i], groups[j]);
    var a, b := groups[i], groups[j];
    assert Rank(order, a) <= Rank(order, b);
  }

  function Rename(hostGroups: seq<string>, from: string, to: string): seq<string> {
    if hostGroups == [] then []
    else [if hostGroups[0] == from then to else hostGroups[0]] + Rename(hostGroups[1..], from, to)
  }

  lemma {:induction false} RenameMembers(hostGroups: seq<string>, from: string, to: string)
    requires from in hostGroups
    ensures forall g :: g in Rename(hostGroups, from, to) <==> g == to || (g in hostGroups && g != from)
  {
    assert hostGroups == [hostGroups[0]] + hostGroups[1..];
    if from in hostGroups[1..] {
      RenameMembers(hostGroups[1..], from, to);
    } else {
      RenameAbsent(hostGroups[1..], from, to);
    }
  }

  lemma {:induction false} RenameAbsent(hostGroups: seq<string>, from: string, to: string)
    requires from !in hostGroups
    ensures Rename(hostGroups, from, to) == hostGroups
  {
    if hostGroups != [] {
      RenameAbsent(hostGroups[1..], from, to);
    }
  }

  /** Neither the renamed group nor the target. */
  function Neither(a: string, b: string): string -> bool { (g: string) => g != a && g != b }

  /** The order list an edit writes, for an order number of at least 1. */
  function OrderAfterEdit(groups: seq<string>, original: string, target: string, number: int): seq<string> {
    var remaining := Filter(groups, Neither(original, target));
    SpliceIn(remaining, if number - 1 < |remaining| then number - 1 else |remaining|, target)
  }

  function OrderAfterGroupDrag(groups: seq<string>, order: seq<string>, source: string, target: string, after: bool)
    : seq<string>
  {
    if source == "" || source == target then order else PlaceNextTo(groups, source, target, after)
  }

  /** Editing a group: the order list holds the other groups in their order and the target once,
      at the requested place, and once all hosts of the group have been renamed the groups shown
      are exactly that list, also when the edit merges two groups. */
  lemma GroupEdit(hostGroups: seq<string>, order: seq<string>, collate: (string, string) -> bool,
                  original: string, target: string, number: int)
    requires original in hostGroups && number >= 1 && |hostGroups| < UNLISTED
    ensures var groups := Groups(hostGroups, order, collate);
      var order' := OrderAfterEdit(groups, original, target, number);
      && NoDup(order')
      && Without(order', target) == Filter(groups, Neither(original, target))
      && order'[if number <= |order'| then number - 1 else |order'| - 1] == target
      && Groups(Rename(hostGroups, original, target), order', collate) == order'
  {
    var groups := Groups(hostGroups, order, collate);
    var remaining := Filter(groups, Neither(original, target));
    var at := if number - 1 < |remaining| then number - 1 else |remaining|;
    GroupsMembers(hostGroups, order, collate);
    FilterMembers(groups, Neither(original, target));
    NoDupFilter(groups, Neither(original, target));
    RenameMembers(hostGroups, original, target);
    WithoutSpliceIn(remaining, at, target);
    EditedOrder(hostGroups, groups, remaining, at, target);
    GroupsInListOrder(Rename(hostGroups, original, target), SpliceIn(remaining, at, target), collate);
  }

  lemma EditedOrder(hostGroups: seq<string>, groups: seq<string>, remaining: seq<string>, at: int, target: string)
    requires NoDup(groups) && NoDup(remaining) && target !in remaining
    requires (forall g | g in groups :: g in hostGroups) && (forall g | g in remaining :: g in groups)
    ensures var order' := SpliceIn(remaining, at, target);
      NoDup(order') && |order'| <= |hostGroups| + 1 && forall g :: g in order' <==> g == target || g in remaining
  {
    var order' := SpliceIn(remaining, at, target);
    SpliceInPermutes(remaining, at, target);
    NoDupCons(target, remaining);
    assert multiset([target] + remaining) == multiset(order');
    PermutationKeepsNoDup([target] + remaining, order');
    assert forall g :: g in order' <==> g in multiset(order');
    NoLonger(remaining, hostGroups);
  }

  lemma {:induction false} NoLonger<K>(a: seq<K>, b: seq<K>)
    requires NoDup(a) && forall x | x in a :: x in b
    ensures |a| <= |b|
  {
    if a != [] {
      var i := IndexOf(b, a[0]);
      NoDupTail(a);
      assert b == b[..i] + [b[i]] + b[i + 1..];
      forall x | x in a[1..]
        ensures x in SpliceOut(b, i)
      {
        assert x in a && x != b[i];
      }
      NoLonger(a[1..], SpliceOut(b, i));
    }
  }

  /** Dragging a group next to another: the groups shown are then exactly the moved list. */
  lemma GroupDrag(hostGroups: seq<string>, order: seq<string>, collate: (string, string) -> bool,
                  source: string, target: string, after: bool)
    requires |hostGroups| <= UNLISTED
    requires source != "" && source != target && source in hostGroups && target in hostGroups
    ensures var groups := Groups(hostGroups, order, collate);
      var order' := OrderAfterGroupDrag(groups, order, source, target, after);
      && source in groups && target in groups && NoDup(groups)
      && order' == PlaceNextTo(groups, source, target, after)
      && Groups(hostGroups, order', collate) == order'
  {
    var groups := Groups(hostGroups, order, collate);
    GroupsMembers(hostGroups, order, collate);
    PlacedNextTo(groups, source, target, after);
    var order' := PlaceNextTo(groups, source, target, after);
    PermutationMembers(order', groups);
    PermutationMembers(groups, order');
    NoLonger(order', hostGroups);
    GroupsInListOrder(hostGroups, order', collate);
  }

  /** No group is dragged, or one onto itself: the order list stays. */
  lemma OtherGroupDragIgnored(groups: seq<string>, order: seq<string>, group: string, after: bool)
    ensures OrderAfterGroupDrag(groups, order, "", group, after) == order
    ensures OrderAfterGroupDrag(groups, order, group, group, after) == order
  {
  }

  class GroupOrder {
    var order: seq<string>

    constructor (order: seq<string>)
      ensures this.order == order
    {
      this.order := order;
    }

    method ReorderManagedHostGroups(groups: seq<string>, source: string, target: string, placeAfter: bool)
      modifies this
      ensures order == OrderAfterGroupDrag(groups, old(order), source, target, placeAfter)
    {
      if source == "" || source == target { return; }
      var nextGroups := Without(groups, source);
      var targetIndex := IndexOf(nextGroups, target);
      nextGroups := SpliceIn(nextGroups, targetIndex + (if placeAfter then 1 else 0), source);
      order := nextGroups;
    }

    method SaveManagedHostGroupEdit(groups: seq<string>, original: string, target: string, number: int)
      requires number >= 1
      modifies this
      ensures order == OrderAfterEdit(groups, original, target, number)
    {
      var remaining := Filter(groups, Neither(original, target));
      var insertionIndex := if number - 1 < |remaining| then number - 1 else |remaining|;
      remaining := SpliceIn(remaining, insertionIndex, target);
      order := remaining;
    }
  }
}
