/** Lists: filtering, keys, uniqueness and positions. */
module Sequences {
  function Filter<T>(s: seq<T>, p: T -> bool): seq<T> {
    if s == [] then []
    else if p(s[0]) then [s[0]] + Filter(s[1..], p)
    else Filter(s[1..], p)
  }

  lemma {:induction false} FilterMembers<T>(s: seq<T>, p: T -> bool)
    ensures forall x | x in Filter(s, p) :: x in s && p(x)
    ensures forall x | x in s && p(x) :: x in Filter(s, p)
  {
    if s != [] {
      FilterMembers(s[1..], p);
    }
  }

  lemma {:induction false} FilterConcat<T>(a: seq<T>, b: seq<T>, p: T -> bool)
    ensures Filter(a + b, p) == Filter(a, p) + Filter(b, p)
  {
    if a == [] {
      assert a + b == b;
    } else {
      assert (a + b)[1..] == a[1..] + b;
      FilterConcat(a[1..], b, p);
    }
  }

  lemma {:induction false} FilterAll<T>(s: seq<T>, p: T -> bool)
    requires forall x | x in s :: p(x)
    ensures Filter(s, p) == s
  {
    if s != [] {
      FilterAll(s[1..], p);
    }
  }

  lemma {:induction false} FilterNone<T>(s: seq<T>, p: T -> bool)
    requires forall x | x in s :: !p(x)
    ensures Filter(s, p) == []
  {
    if s != [] {
      FilterNone(s[1..], p);
    }
  }

  /** Two filters may be applied in either order. */
  lemma {:induction false} FilterCommutes<T>(s: seq<T>, p: T -> bool, q: T -> bool)
    ensures Filter(Filter(s, p), q) == Filter(Filter(s, q), p)
  {
    if s != [] {
      FilterCommutes(s[1..], p, q);
    }
  }

  function Keys<T, K>(items: seq<T>, key: T -> K): (ids: seq<K>)
    ensures |ids| == |items|
  {
    if items == [] then [] else [key(items[0])] + Keys(items[1..], key)
  }

  predicate NoDup<K(==)>(s: seq<K>) {
    forall i, j | 0 <= i < j < |s| :: s[i] != s[j]
  }

  lemma NoDupTail<K>(s: seq<K>)
    requires NoDup(s) && s != []
    ensures NoDup(s[1..]) && s[0] !in s[1..]
  {
  }

  lemma NoDupCons<K>(x: K, s: seq<K>)
    requires NoDup(s) && x !in s
    ensures NoDup([x] + s)
  {
    var t := [x] + s;
    forall i, j | 0 <= i < j < |t|
      ensures t[i] != t[j]
    {
      assert t[j] == s[j - 1];
      if i > 0 { assert t[i] == s[i - 1]; }
    }
  }

  /** A list without repetition is fixed, up to order, by its members. */
  lemma {:induction false} NoDupMultiset<K>(s: seq<K>, x: K)
    requires NoDup(s)
    ensures multiset(s)[x] == if x in s then 1 else 0
  {
    if s != [] {
      NoDupTail(s);
      NoDupMultiset(s[1..], x);
      assert s == [s[0]] + s[1..];
    }
  }

  lemma SameMembersPermute<K>(a: seq<K>, b: seq<K>)
    requires NoDup(a) && NoDup(b)
    requires (forall x | x in a :: x in b) && (forall x | x in b :: x in a)
    ensures multiset(a) == multiset(b)
  {
    forall x | x in multiset(a) || x in multiset(b)
      ensures multiset(a)[x] == multiset(b)[x]
    {
      NoDupMultiset(a, x);
      NoDupMultiset(b, x);
    }
  }

  lemma {:induction false} NoDupFilter<K>(s: seq<K>, p: K -> bool)
    requires NoDup(s)
    ensures NoDup(Filter(s, p))
  {
    if s != [] {
      NoDupTail(s);
      NoDupFilter(s[1..], p);
      FilterMembers(s[1..], p);
      if p(s[0]) { NoDupCons(s[0], Filter(s[1..], p)); }
    }
  }

  lemma NoDupConcat<K>(a: seq<K>, b: seq<K>)
    requires NoDup(a) && NoDup(b) && forall x | x in a :: x !in b
    ensures NoDup(a + b)
  {
    var t := a + b;
    forall i, j | 0 <= i < j < |t|
      ensures t[i] != t[j]
    {
      if i < |a| { assert t[i] == a[i] && a[i] in a; } else { assert t[i] == b[i - |a|]; }
      if j < |a| { assert t[j] == a[j]; } else { assert t[j] == b[j - |a|] && b[j - |a|] in b; }
    }
  }

  /** Position of the first occurrence, or -1, as JavaScript's `indexOf`. */
  function IndexOf<K(==)>(s: seq<K>, x: K): (i: int)
    ensures -1 <= i < |s|
    ensures 0 <= i ==> s[i] == x
    ensures i == -1 <==> x !in s
  {
    if s == [] then -1
    else if s[0] == x then 0
    else
      var i := IndexOf(s[1..], x);
      if i < 0 then -1 else i + 1
  }

  lemma {:induction false} IndexOfIsFirst<K>(s: seq<K>, x: K, i: nat)
    requires i < |s| && s[i] == x
    ensures 0 <= IndexOf(s, x) <= i
  {
    if s[0] != x { IndexOfIsFirst(s[1..], x, i - 1); }
  }

  /** Where JavaScript's `splice` starts: counted from the end when negative, and clamped. */
  function SpliceStart(length: nat, start: int): (at: nat)
    ensures at <= length
    ensures 0 <= start <= length ==> at == start
  {
    if start < 0 then (if length + start < 0 then 0 else length + start)
    else if start > length then length else start
  }

  /** JavaScript's `splice(start, 0, x)`. */
  function SpliceIn<K>(s: seq<K>, start: int, x: K): (r: seq<K>)
    ensures |r| == |s| + 1
  {
    var at := SpliceStart(|s|, start);
    s[..at] + [x] + s[at..]
  }

  /** JavaScript's `splice(start, 1)` for a valid start. */
  function SpliceOut<K>(s: seq<K>, start: nat): (r: seq<K>)
    requires start < |s|
    ensures |r| == |s| - 1
  {
    s[..start] + s[start + 1..]
  }

  function Other<K(==)>(x: K): K -> bool { (y: K) => y != x }

  function Without<K(==)>(s: seq<K>, x: K): seq<K> { Filter(s, Other(x)) }

  lemma WithoutAround<K>(a: seq<K>, x: K, b: seq<K>)
    requires x !in a && x !in b
    ensures Without(a + [x] + b, x) == a + b
  {
    FilterConcat(a + [x], b, Other(x));
    FilterConcat(a, [x], Other(x));
    FilterAll(a, Other(x));
    FilterAll(b, Other(x));
    assert Filter([x], Other(x)) == [];
  }

  lemma WithoutSpliceOut<K>(s: seq<K>, i: nat)
    requires i < |s| && NoDup(s)
    ensures Without(s, s[i]) == SpliceOut(s, i)
  {
    WithoutAround(s[..i], s[i], s[i + 1..]);
    assert s == s[..i] + [s[i]] + s[i + 1..];
  }

  lemma WithoutSpliceIn<K>(s: seq<K>, start: int, x: K)
    requires x !in s
    ensures Without(SpliceIn(s, start, x), x) == s
  {
    var at := SpliceStart(|s|, start);
    assert s == s[..at] + s[at..];
    assert x !in s[..at] && x !in s[at..];
    WithoutAround(s[..at], x, s[at..]);
  }

  lemma SpliceInPermutes<K>(s: seq<K>, start: int, x: K)
    ensures multiset(SpliceIn(s, start, x)) == multiset(s) + multiset{x}
  {
    var at := SpliceStart(|s|, start);
    assert s == s[..at] + s[at..];
  }

  lemma SpliceOutPermutes<K>(s: seq<K>, start: nat)
    requires start < |s|
    ensures multiset(SpliceOut(s, start)) + multiset{s[start]} == multiset(s)
  {
    assert s == s[..start] + [s[start]] + s[start + 1..];
  }

  lemma TailPermutes<K>(s: seq<K>, t: seq<K>, i: nat)
    requires s != [] && i < |t| && t[i] == s[0] && multiset(s) == multiset(t)
    ensures multiset(s[1..]) == multiset(SpliceOut(t, i))
  {
    SpliceOutPermutes(t, i);
    assert s == [s[0]] + s[1..];
    assert multiset(s[1..]) == multiset(s) - multiset{s[0]};
    assert multiset(SpliceOut(t, i)) == multiset(t) - multiset{t[i]};
  }

  /** Uniqueness is a matter of counting, so a permutation keeps it. */
  lemma PermutationKeepsNoDup<K>(a: seq<K>, b: seq<K>)
    requires NoDup(a) && multiset(a) == multiset(b)
    ensures NoDup(b)
  {
    forall i, j | 0 <= i < j < |b|
      ensures b[i] != b[j]
    {
      NoDupMultiset(a, b[i]);
      assert b == b[..i] + [b[i]] + b[i + 1..j] + [b[j]] + b[j + 1..];
    }
  }

  /** The distinct members in order of first appearance, as a JavaScript `Set` iterates. */
  function Unique<K(==)>(s: seq<K>): seq<K> {
    if s == [] then [] else [s[0]] + Without(Unique(s[1..]), s[0])
  }

  lemma {:induction false} UniqueMembers<K>(s: seq<K>)
    ensures NoDup(Unique(s))
    ensures forall x | x in Unique(s) :: x in s
    ensures forall x | x in s :: x in Unique(s)
  {
    if s != [] {
      var rest := Unique(s[1..]);
      UniqueMembers(s[1..]);
      FilterMembers(rest, Other(s[0]));
      NoDupFilter(rest, Other(s[0]));
      NoDupCons(s[0], Without(rest, s[0]));
      assert forall x | x in s :: x == s[0] || x in s[1..];
    }
  }

  predicate Ascending<K(==)>(sub: seq<K>, s: seq<K>) {
    forall i, j | 0 <= i < j < |sub| :: IndexOf(s, sub[i]) < IndexOf(s, sub[j])
  }

  lemma IndexOfTail<K>(s: seq<K>, x: K)
    requires s != [] && x != s[0] && x in s
    ensures IndexOf(s, x) == IndexOf(s[1..], x) + 1
  {
  }

  lemma {:induction false} FilterAscending<K>(sub: seq<K>, s: seq<K>, p: K -> bool)
    requires Ascending(sub, s)
    ensures Ascending(Filter(sub, p), s)
  {
    if sub != [] {
      assert forall i, j | 0 <= i < j < |sub[1..]| :: sub[1..][i] == sub[i + 1] && sub[1..][j] == sub[j + 1];
      FilterAscending(sub[1..], s, p);
      FilterMembers(sub[1..], p);
      var rest := Filter(sub[1..], p);
      forall j | 0 <= j < |rest|
        ensures IndexOf(s, sub[0]) < IndexOf(s, rest[j])
      {
        assert rest[j] in sub[1..];
        var k :| 0 <= k < |sub[1..]| && sub[1..][k] == rest[j];
        assert sub[k + 1] == rest[j];
      }
    }
  }

  lemma AscendingCons<K>(sub: seq<K>, s: seq<K>)
    requires s != [] && Ascending(sub, s[1..]) && forall x | x in sub :: x in s[1..] && x != s[0]
    ensures Ascending([s[0]] + sub, s)
  {
    var all := [s[0]] + sub;
    forall i, j | 0 <= i < j < |all|
      ensures IndexOf(s, all[i]) < IndexOf(s, all[j])
    {
      assert all[j] == sub[j - 1] && all[j] in sub;
      IndexOfTail(s, all[j]);
      if i > 0 {
        assert all[i] == sub[i - 1] && all[i] in sub;
        IndexOfTail(s, all[i]);
      }
    }
  }

  /** The distinct members stand in the order of their first appearance. */
  lemma {:induction false} UniqueAscending<K>(s: seq<K>)
    ensures Ascending(Unique(s), s)
  {
    if s != [] {
      var rest := Unique(s[1..]);
      UniqueAscending(s[1..]);
      UniqueMembers(s[1..]);
      FilterAscending(rest, s[1..], Other(s[0]));
      FilterMembers(rest, Other(s[0]));
      AscendingCons(Without(rest, s[0]), s);
    }
  }

  lemma {:induction false} KeysMembers<T, K>(items: seq<T>, key: T -> K)
    ensures forall x | x in items :: key(x) in Keys(items, key)
    ensures forall k | k in Keys(items, key) :: exists x | x in items :: key(x) == k
  {
    if items != [] {
      KeysMembers(items[1..], key);
      assert items == [items[0]] + items[1..];
      forall k | k in Keys(items, key)
        ensures exists x | x in items :: key(x) == k
      {
        if k == key(items[0]) {
          assert items[0] in items;
        } else {
          assert k in Keys(items[1..], key);
          var x :| x in items[1..] && key(x) == k;
          assert x in items;
        }
      }
    }
  }

  lemma {:induction false} FilterKeys<T, K>(items: seq<T>, key: T -> K, p: T -> bool, q: K -> bool)
    requires forall x | x in items :: q(key(x)) == p(x)
    ensures Filter(Keys(items, key), q) == Keys(Filter(items, p), key)
  {
    if items != [] {
      FilterKeys(items[1..], key, p, q);
    }
  }

  lemma KeyedMember<T, K>(items: seq<T>, key: T -> K, k: K) returns (x: T)
    requires k in Keys(items, key)
    ensures x in items && key(x) == k
  {
    KeysMembers(items, key);
    x :| x in items && key(x) == k;
  }

  lemma AtMostOne<K>(some: set<K>, x: K)
    requires some <= {x}
    ensures |some| <= 1
  {
    if some != {} { assert some == {x}; }
  }
}
