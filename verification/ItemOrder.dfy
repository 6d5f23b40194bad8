/** Drag-and-drop order lists and the lists they display (src/App.tsx). A drag writes a list of
    keys; what is shown is a separate stable sort by the position of each key in that list. */
module ItemOrder {
  import opened Sequences
  import opened StableSort

  /** Number.MAX_SAFE_INTEGER: the rank of a key that the order list does not hold. */
  const UNLISTED: int := 9007199254740991

  /** The position of a key in an order list; of a key that is listed twice, the last one. */
  function LastIndex<K(==)>(order: seq<K>, k: K): (i: int)
    ensures -1 <= i < |order|
    ensures 0 <= i ==> order[i] == k
    ensures i == -1 <==> k !in order
  {
    if order == [] then -1
    else if order[|order| - 1] == k then |order| - 1
    else LastIndex(order[..|order| - 1], k)
  }

  function Rank<K(==)>(order: seq<K>, k: K): int {
    if k in order then LastIndex(order, k) else UNLISTED
  }

  function ById<K(==)>(order: seq<K>): (K, K) -> bool {
    (a: K, b: K) => Rank(order, a) <= Rank(order, b)
  }

  function ByKey<T, K(==)>(order: seq<K>, key: T -> K): (T, T) -> bool {
    (a: T, b: T) => Rank(order, key(a)) <= Rank(order, key(b))
  }

  lemma {:induction false} LastIndexUnique<K>(order: seq<K>, i: nat)
    requires i < |order| && NoDup(order)
    ensures LastIndex(order, order[i]) == i
  {
    var j := LastIndex(order, order[i]);
    assert order[i] in order;
  }

  /** An order list sorts the keys it begins with into themselves, whatever other keys follow. */
  lemma ListedSort<K>(ids: seq<K>, first: seq<K>, rest: seq<K>)
    requires NoDup(first) && multiset(ids) == multiset(first) && forall k | k in rest :: k !in first
    ensures Sort(ids, ById(first + rest)) == first
  {
    var order := first + rest;
    forall i | 0 <= i < |first|
      ensures Rank(order, first[i]) == i
    {
      LastIndexPrefix(first, rest, first[i]);
      LastIndexUnique(first, i);
      assert order[i] == first[i];
    }
    SortInto(ids, first, ById(order));
  }

  lemma {:induction false} LastIndexPrefix<K>(first: seq<K>, last: seq<K>, k: K)
    requires k !in last
    ensures LastIndex(first + last, k) == LastIndex(first, k)
  {
    var order := first + last;
    if last == [] {
      assert order == first;
    } else {
      assert order[|order| - 1] == last[|last| - 1] && last[|last| - 1] in last;
      assert order[..|order| - 1] == first + last[..|last| - 1];
      LastIndexPrefix(first, last[..|last| - 1], k);
    }
  }

  /** The same for keys listed at the end, after keys that are not among them. */
  lemma ListedLastSort<K>(ids: seq<K>, others: seq<K>, last: seq<K>)
    requires NoDup(last) && |others| + |last| <= UNLISTED && forall k | k in others :: k !in last
    requires multiset(ids) == multiset(last)
    ensures Sort(ids, ById(others + last)) == last
  {
    var order := others + last;
    forall i | 0 <= i < |last|
      ensures Rank(order, last[i]) == |others| + i
    {
      LastIndexSuffix(others, last, last[i]);
      LastIndexUnique(last, i);
      assert order[|others| + i] == last[i];
    }
    SortInto(ids, last, ById(order));
  }

  lemma {:induction false} LastIndexSuffix<K>(others: seq<K>, last: seq<K>, k: K)
    requires k in last
    ensures LastIndex(others + last, k) == |others| + LastIndex(last, k)
  {
    var order := others + last;
    assert order[|order| - 1] == last[|last| - 1];
    if last[|last| - 1] != k {
      assert order[..|order| - 1] == others + last[..|last| - 1];
      assert last == last[..|last| - 1] + [last[|last| - 1]];
      LastIndexSuffix(others, last[..|last| - 1], k);
    }
  }

  // ---------- Assets, favourites and panels: the source takes the target's place ----------

  function NotIn<K(==)>(ids: seq<K>): K -> bool { (k: K) => k !in ids }

  /** The list a drag builds, or nothing when the drag is ignored. */
  function MoveBefore<K(==)>(visible: seq<K>, source: K, target: K): (next: seq<K>)
    ensures |next| == |visible|
  {
    var sourceIndex, targetIndex := IndexOf(visible, source), IndexOf(visible, target);
    if source == target || sourceIndex < 0 || targetIndex < 0 then visible
    else
      SpliceIn(SpliceOut(visible, sourceIndex), targetIndex, source)
  }

  /** The moved list is a permutation in which the source has the target's old place and all
      other keys keep their relative order. */
  lemma MoveBeforeMoves<K>(visible: seq<K>, source: K, target: K)
    requires NoDup(visible)
    ensures var next := MoveBefore(visible, source, target);
      && multiset(next) == multiset(visible) && NoDup(next)
      && Without(next, source) == Without(visible, source)
      && (source in visible && target in visible ==> next[IndexOf(visible, target)] == source)
      && (source !in visible || target !in visible ==> next == visible)
  {
    var next := MoveBefore(visible, source, target);
    if source != target && source in visible && target in visible {
      var si, ti := IndexOf(visible, source), IndexOf(visible, target);
      MovedTo(visible, si, ti);
      assert next[ti] == source;
    }
  }

  lemma MovedTo<K>(visible: seq<K>, si: nat, ti: nat)
    requires NoDup(visible) && si < |visible| && ti < |visible|
    ensures var next := SpliceIn(SpliceOut(visible, si), ti, visible[si]);
      && multiset(next) == multiset(visible) && NoDup(next)
      && Without(next, visible[si]) == Without(visible, visible[si]) && next[ti] == visible[si]
  {
    var rest := SpliceOut(visible, si);
    SpliceOutPermutes(visible, si);
    SpliceInPermutes(rest, ti, visible[si]);
    PermutationKeepsNoDup(visible, SpliceIn(rest, ti, visible[si]));
    WithoutSpliceOut(visible, si);
    FilterMembers(visible, Other(visible[si]));
    assert visible[si] !in rest;
    WithoutSpliceIn(rest, ti, visible[si]);
  }

  function Shown<T, K(==)>(items: seq<T>, shown: T -> bool, key: T -> K, order: seq<K>): seq<T> {
    Sort(Filter(items, shown), ByKey(order, key))
  }

  function ShownKeys<T, K(==)>(items: seq<T>, shown: T -> bool, key: T -> K, order: seq<K>): seq<K> {
    Keys(Shown(items, shown, key, order), key)
  }

  /** The order list a drag writes: the moved visible keys, then every other key. */
  function ListedFirst<T, K(==)>(items: seq<T>, key: T -> K, next: seq<K>): seq<K> {
    next + Filter(Keys(items, key), NotIn(next))
  }

  lemma {:induction false} KeysOfFilter<T, K>(items: seq<T>, key: T -> K, p: T -> bool)
    requires NoDup(Keys(items, key))
    ensures NoDup(Keys(Filter(items, p), key))
    ensures forall k | k in Keys(Filter(items, p), key) :: k in Keys(items, key)
    ensures |Keys(Filter(items, p), key)| <= |items|
  {
    if items != [] {
      NoDupTail(Keys(items, key));
      KeysOfFilter(items[1..], key, p);
      if p(items[0]) { NoDupCons(key(items[0]), Keys(Filter(items[1..], p), key)); }
    }
  }

  /** What is shown has the keys of the shown items, each once, whatever the order list. */
  lemma ShownKeysPermute<T, K>(items: seq<T>, shown: T -> bool, key: T -> K, order: seq<K>)
    requires NoDup(Keys(items, key))
    ensures ShownKeys(items, shown, key, order) == Sort(Keys(Filter(items, shown), key), ById(order))
    ensures multiset(ShownKeys(items, shown, key, order)) == multiset(Keys(Filter(items, shown), key))
    ensures NoDup(ShownKeys(items, shown, key, order))
    ensures forall k | k in ShownKeys(items, shown, key, order) :: k in Keys(items, key)
  {
    var ids := Keys(Filter(items, shown), key);
    KeysSort(Filter(items, shown), key, ByKey(order, key), ById(order));
    SortPermutes(ids, ById(order));
    SortMembers(ids, ById(order));
    KeysOfFilter(items, key, shown);
    PermutationKeepsNoDup(ids, Sort(ids, ById(order)));
  }

  lemma ListedFirstListsOnce<T, K>(items: seq<T>, key: T -> K, next: seq<K>)
    requires NoDup(Keys(items, key)) && NoDup(next) && forall k | k in next :: k in Keys(items, key)
    ensures NoDup(ListedFirst(items, key, next)) && |ListedFirst(items, key, next)| == |items|
  {
    var ids := Keys(items, key);
    var rest := Filter(ids, NotIn(next));
    FilterMembers(ids, NotIn(next));
    NoDupFilter(ids, NotIn(next));
    NoDupConcat(next, rest);
    SameMembersPermute(next + rest, ids);
    assert |multiset(next + rest)| == |next + rest| && |multiset(ids)| == |ids|;
  }

  /** After a drag, filtering and sorting again shows exactly the moved list. */
  lemma ShownAfterMove<T, K>(items: seq<T>, shown: T -> bool, key: T -> K, order: seq<K>, source: K, target: K)
    requires NoDup(Keys(items, key))
    ensures var visible := ShownKeys(items, shown, key, order);
      ShownKeys(items, shown, key, ListedFirst(items, key, MoveBefore(visible, source, target)))
      == MoveBefore(visible, source, target)
  {
    var visible := ShownKeys(items, shown, key, order);
    ShownKeysPermute(items, shown, key, order);
    MovePermutes(visible, source, target);
    ShownAsListed(items, shown, key, MoveBefore(visible, source, target));
  }

  lemma MovePermutes<K>(visible: seq<K>, source: K, target: K)
    requires NoDup(visible)
    ensures multiset(MoveBefore(visible, source, target)) == multiset(visible)
    ensures NoDup(MoveBefore(visible, source, target))
  {
    MoveBeforeMoves(visible, source, target);
  }

  lemma ShownAsListed<T, K>(items: seq<T>, shown: T -> bool, key: T -> K, next: seq<K>)
    requires NoDup(Keys(items, key))
    requires NoDup(next) && multiset(next) == multiset(Keys(Filter(items, shown), key))
    ensures ShownKeys(items, shown, key, ListedFirst(items, key, next)) == next
  {
    ShownKeysPermute(items, shown, key, ListedFirst(items, key, next));
    FilterMembers(Keys(items, key), NotIn(next));
    ListedSort(Keys(Filter(items, shown), key), next, Filter(Keys(items, key), NotIn(next)));
  }

  /** The list shows the items that match, those that the order list holds first and by their
      place in it. */
  lemma ShownByPlace<T, K>(items: seq<T>, shown: T -> bool, key: T -> K, order: seq<K>, i: nat, j: nat)
    requires |order| <= 9007199254740991 && i < j < |Shown(items, shown, key, order)|
    ensures var list := Shown(items, shown, key, order);
      && (forall x :: x in list <==> x in items && shown(x))
      && (key(list[j]) in order ==>
            key(list[i]) in order && LastIndex(order, key(list[i])) <= LastIndex(order, key(list[j])))
  {
    SortSorts(Filter(items, shown), ByKey(order, key));
    SortMembers(Filter(items, shown), ByKey(order, key));
    FilterMembers(items, shown);
  }

  /** The order list a drag writes holds the moved keys and then all others in the order of the
      items, each once. */
  lemma ListedFirstMeans<T, K>(items: seq<T>, key: T -> K, next: seq<K>)
    requires NoDup(Keys(items, key)) && NoDup(next) && forall k | k in next :: k in Keys(items, key)
    ensures var order := ListedFirst(items, key, next);
      && NoDup(order) && |order| == |items| && next <= order && Ascending(order[|next|..], Keys(items, key))
      && forall k | k in Keys(items, key) :: k in order
  {
    ListedFirstListsOnce(items, key, next);
    FilterMembers(Keys(items, key), NotIn(next));
    SelfAscending(Keys(items, key));
    FilterAscending(Keys(items, key), Keys(items, key), NotIn(next));
    assert ListedFirst(items, key, next)[|next|..] == Filter(Keys(items, key), NotIn(next));
  }

  lemma SelfAscending<K>(s: seq<K>)
    requires NoDup(s)
    ensures Ascending(s, s)
  {
    forall i | 0 <= i < |s|
      ensures IndexOf(s, s[i]) == i
    {
      assert s[IndexOf(s, s[i])] == s[i];
    }
  }

  lemma ShownListedOnce<T, K>(items: seq<T>, shown: T -> bool, key: T -> K, next: seq<K>)
    requires NoDup(Keys(items, key))
    requires NoDup(next) && multiset(next) == multiset(Keys(Filter(items, shown), key))
    ensures NoDup(ListedFirst(items, key, next)) && |ListedFirst(items, key, next)| == |items|
  {
    KeysOfFilter(items, key, shown);
    PermutationMembers(next, Keys(Filter(items, shown), key));
    ListedFirstListsOnce(items, key, next);
  }

  lemma PermutationMembers<K>(a: seq<K>, b: seq<K>)
    requires multiset(a) == multiset(b)
    ensures forall k | k in a :: k in b
  {
    assert forall k | k in a :: k in multiset(a);
  }

  /** The drag of assets and of favourites; both lists follow the same code. */
  class ItemList<T, K(==)> {
    var items: seq<T>
    var order: seq<K>
    const key: T -> K

    constructor (items: seq<T>, order: seq<K>, key: T -> K)
      ensures this.items == items && this.order == order && this.key == key
    {
      this.items, this.order, this.key := items, order, key;
    }

    method MoveItemBefore(shown: T -> bool, source: K, target: K)
      modifies this`order
      ensures var visible := ShownKeys(items, shown, key, old(order));
        order == if source == target || source !in visible || target !in visible then old(order)
                 else ListedFirst(items, key, MoveBefore(visible, source, target))
    {
      if source == target { return; }
      var visible := ShownKeys(items, shown, key, order);
      var sourceIndex, targetIndex := IndexOf(visible, source), IndexOf(visible, target);
      if sourceIndex < 0 || targetIndex < 0 { return; }
      var next := SpliceOut(visible, sourceIndex);
      next := SpliceIn(next, targetIndex, source);
      order := next + Filter(Keys(items, key), NotIn(next));
    }
  }

  // ---------- Panels: the drag sorts and renumbers the list itself ----------

  datatype Panel<I> = Panel(id: int, info: I, sortOrder: int)

  function PanelId<I>(p: Panel<I>): int { p.id }

  /** What a drag must not touch: all of a panel but its sort number. */
  function Content<I>(p: Panel<I>): (int, I) { (p.id, p.info) }

  /** A panel filter reads anything but the sort number. */
  function Matching<I>(shown: (int, I) -> bool): Panel<I> -> bool {
    (p: Panel<I>) => shown(p.id, p.info)
  }

  function Hidden<I>(shown: (int, I) -> bool): Panel<I> -> bool {
    (p: Panel<I>) => !shown(p.id, p.info)
  }

  function ShownIds<I>(panels: seq<Panel<I>>, shown: (int, I) -> bool): seq<int> {
    Keys(Filter(panels, Matching(shown)), PanelId)
  }

  function HiddenIds<I>(panels: seq<Panel<I>>, shown: (int, I) -> bool): seq<int> {
    Keys(Filter(panels, Hidden(shown)), PanelId)
  }

  function Renumber<I>(panels: seq<Panel<I>>, from: int): seq<Panel<I>> {
    if panels == [] then []
    else [panels[0].(sortOrder := from)] + Renumber(panels[1..], from + 1)
  }

  function SortPanels<I>(panels: seq<Panel<I>>, order: seq<int>): seq<Panel<I>> {
    Renumber(Sort(panels, ByKey(order, PanelId)), 0)
  }

  function PanelsAfterMove<I>(panels: seq<Panel<I>>, shown: (int, I) -> bool, source: int, target: int): seq<Panel<I>> {
    var visible := ShownIds(panels, shown);
    if source == target || source !in visible || target !in visible then panels
    else SortPanels(panels, ListedFirst(panels, PanelId, MoveBefore(visible, source, target)))
  }

  lemma {:induction false} Renumbered<I>(panels: seq<Panel<I>>, from: int, shown: (int, I) -> bool)
    ensures var r := Renumber(panels, from);
      && |r| == |panels|
      && (forall i | 0 <= i < |r| :: r[i].sortOrder == from + i)
      && Keys(r, PanelId) == Keys(panels, PanelId) && Keys(r, Content) == Keys(panels, Content)
      && ShownIds(r, shown) == ShownIds(panels, shown)
      && HiddenIds(r, shown) == HiddenIds(panels, shown)
  {
    if panels != [] {
      Renumbered(panels[1..], from + 1, shown);
    }
  }

  lemma {:induction false} KeyDecides<T, K>(items: seq<T>, key: T -> K, p: T -> bool, x: T)
    requires NoDup(Keys(items, key)) && x in items
    ensures key(x) in Keys(Filter(items, p), key) <==> p(x)
  {
    NoDupTail(Keys(items, key));
    KeysOfFilter(items[1..], key, p);
    if x in items[1..] {
      KeysMembers(items[1..], key);
      KeyDecides(items[1..], key, p, x);
    }
  }

  /** The keys a drag lists after the moved ones are those of the hidden panels, in order. */
  lemma OthersAreHidden<I>(panels: seq<Panel<I>>, shown: (int, I) -> bool, next: seq<int>)
    requires NoDup(Keys(panels, PanelId)) && multiset(next) == multiset(ShownIds(panels, shown))
    ensures Filter(Keys(panels, PanelId), NotIn(next)) == HiddenIds(panels, shown)
  {
    forall x | x in panels
      ensures NotIn(next)(PanelId(x)) == Hidden(shown)(x)
    {
      KeyDecides(panels, PanelId, Matching(shown), x);
      assert PanelId(x) in next <==> PanelId(x) in multiset(ShownIds(panels, shown));
    }
    FilterKeys(panels, PanelId, Hidden(shown), NotIn(next));
  }

  lemma PanelsSorted<I>(panels: seq<Panel<I>>, shown: (int, I) -> bool, next: seq<int>, hidden: seq<int>)
    requires NoDup(Keys(panels, PanelId)) && |next + hidden| <= UNLISTED && NoDup(next + hidden)
    requires multiset(next) == multiset(ShownIds(panels, shown)) && hidden == HiddenIds(panels, shown)
    ensures var after := SortPanels(panels, next + hidden);
      ShownIds(after, shown) == next && HiddenIds(after, shown) == hidden
  {
    var cmp := ByKey(next + hidden, PanelId);
    FilterSort(panels, cmp, Matching(shown));
    FilterSort(panels, cmp, Hidden(shown));
    KeysSort(Filter(panels, Matching(shown)), PanelId, cmp, ById(next + hidden));
    KeysSort(Filter(panels, Hidden(shown)), PanelId, cmp, ById(next + hidden));
    Renumbered(Sort(panels, cmp), 0, shown);
    HiddenDistinct(next, hidden);
    ListedSort(ShownIds(panels, shown), next, hidden);
    ListedLastSort(hidden, next, hidden);
  }

  lemma HiddenDistinct<K>(a: seq<K>, b: seq<K>)
    requires NoDup(a + b)
    ensures NoDup(a) && NoDup(b)
    ensures forall k | k in a :: k !in b
    ensures forall k | k in b :: k !in a
  {
    forall i, j | 0 <= i < j < |a|
      ensures a[i] != a[j]
    {
      assert (a + b)[i] == a[i] && (a + b)[j] == a[j];
    }
    forall i, j | 0 <= i < j < |b|
      ensures b[i] != b[j]
    {
      assert (a + b)[|a| + i] == b[i] && (a + b)[|a| + j] == b[j];
    }
    forall i, j | 0 <= i < |a| && 0 <= j < |b|
      ensures a[i] != b[j]
    {
      assert (a + b)[i] == a[i] && (a + b)[|a| + j] == b[j];
    }
  }

  /** A drag among the shown panels: the shown ones become the moved list, the hidden ones keep
      their relative order, no panel is lost or altered, and the sort numbers are the positions. */
  lemma PanelsMoved<I>(panels: seq<Panel<I>>, shown: (int, I) -> bool, source: int, target: int)
    requires NoDup(Keys(panels, PanelId)) && |panels| <= UNLISTED
    ensures var after := PanelsAfterMove(panels, shown, source, target);
      && ShownIds(after, shown) == MoveBefore(ShownIds(panels, shown), source, target)
      && HiddenIds(after, shown) == HiddenIds(panels, shown)
      && multiset(Keys(after, Content)) == multiset(Keys(panels, Content))
      && multiset(Keys(after, PanelId)) == multiset(Keys(panels, PanelId))
      && (after != panels ==> forall i | 0 <= i < |after| :: after[i].sortOrder == i)
  {
    var visible := ShownIds(panels, shown);
    if source != target && source in visible && target in visible {
      var next := MoveBefore(visible, source, target);
      KeysOfFilter(panels, PanelId, Matching(shown));
      MoveBeforeMoves(visible, source, target);
      OthersAreHidden(panels, shown, next);
      ShownListedOnce(panels, Matching(shown), PanelId, next);
      PanelsSorted(panels, shown, next, HiddenIds(panels, shown));
      SortedPanelsKept(panels, shown, next + HiddenIds(panels, shown));
    }
  }

  function ByContent<I>(order: seq<int>): ((int, I), (int, I)) -> bool {
    (a: (int, I), b: (int, I)) => Rank(order, a.0) <= Rank(order, b.0)
  }

  lemma SortedPanelsKept<I>(panels: seq<Panel<I>>, shown: (int, I) -> bool, order: seq<int>)
    ensures var after := SortPanels(panels, order);
      && multiset(Keys(after, Content)) == multiset(Keys(panels, Content))
      && multiset(Keys(after, PanelId)) == multiset(Keys(panels, PanelId))
      && forall i | 0 <= i < |after| :: after[i].sortOrder == i
  {
    KeysSort(panels, PanelId, ByKey(order, PanelId), ById(order));
    SortPermutes(Keys(panels, PanelId), ById(order));
    KeysSort(panels, Content, ByKey(order, PanelId), ByContent(order));
    SortPermutes(Keys(panels, Content), ByContent(order));
    Renumbered(Sort(panels, ByKey(order, PanelId)), 0, shown);
  }

  class PanelList<I> {
    var panels: seq<Panel<I>>

    constructor (panels: seq<Panel<I>>)
      ensures this.panels == panels
    {
      this.panels := panels;
    }

    method ReorderPanels(shown: (int, I) -> bool, source: int, target: int)
      modifies this
      ensures panels == PanelsAfterMove(old(panels), shown, source, target)
    {
      if source == target { return; }
      var visible := ShownIds(panels, shown);
      var sourceIndex, targetIndex := IndexOf(visible, source), IndexOf(visible, target);
      if sourceIndex < 0 || targetIndex < 0 { return; }
      var next := SpliceOut(visible, sourceIndex);
      next := SpliceIn(next, targetIndex, source);
      var remaining := Filter(Keys(panels, PanelId), NotIn(next));
      panels := SortPanels(panels, next + remaining);
    }
  }
}
