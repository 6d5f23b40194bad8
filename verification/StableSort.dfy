/** The stable sort of ECMAScript (`Array.prototype.sort`), by a comparison `le(a, b)` that
    holds when the comparator gives at most zero. */
module StableSort {
  import opened Sequences

  function Insert<T>(x: T, sorted: seq<T>, le: (T, T) -> bool): seq<T> {
    if sorted == [] || le(x, sorted[0]) then [x] + sorted
    else [sorted[0]] + Insert(x, sorted[1..], le)
  }

  function Sort<T>(s: seq<T>, le: (T, T) -> bool): seq<T> {
    if s == [] then [] else Insert(s[0], Sort(s[1..], le), le)
  }

  lemma {:induction false} InsertPermutes<T>(x: T, sorted: seq<T>, le: (T, T) -> bool)
    ensures multiset(Insert(x, sorted, le)) == multiset(sorted) + multiset{x}
  {
    if sorted != [] && !le(x, sorted[0]) {
      InsertPermutes(x, sorted[1..], le);
      assert sorted == [sorted[0]] + sorted[1..];
    }
  }

  lemma {:induction false} SortPermutes<T>(s: seq<T>, le: (T, T) -> bool)
    ensures multiset(Sort(s, le)) == multiset(s)
  {
    if s != [] {
      SortPermutes(s[1..], le);
      InsertPermutes(s[0], Sort(s[1..], le), le);
      assert s == [s[0]] + s[1..];
    }
  }

  lemma SortMembers<T>(s: seq<T>, le: (T, T) -> bool)
    ensures forall x | x in Sort(s, le) :: x in s
    ensures forall x | x in s :: x in Sort(s, le)
  {
    SortPermutes(s, le);
    assert forall x | x in Sort(s, le) :: x in multiset(Sort(s, le));
    assert forall x | x in s :: x in multiset(s);
  }

  // ---------- Comparisons that order a list ----------

  /** `le` is a total preorder on the members of `s`. */
  predicate Orders<T(==)>(s: seq<T>, le: (T, T) -> bool) {
    && (forall a, b | a in s && b in s :: le(a, b) || le(b, a))
    && (forall a, b, c | a in s && b in s && c in s :: le(a, b) && le(b, c) ==> le(a, c))
  }

  predicate Sorted<T>(s: seq<T>, le: (T, T) -> bool) {
    forall i, j | 0 <= i < j < |s| :: le(s[i], s[j])
  }

  predicate StrictlySorted<T>(s: seq<T>, le: (T, T) -> bool) {
    forall i, j | 0 <= i < j < |s| :: le(s[i], s[j]) && !le(s[j], s[i])
  }

  lemma {:induction false} InsertSorts<T>(x: T, sorted: seq<T>, le: (T, T) -> bool)
    requires Orders([x] + sorted, le) && Sorted(sorted, le)
    ensures Sorted(Insert(x, sorted, le), le)
  {
    if sorted == [] {
    } else {
      var head, rest := sorted[0], sorted[1..];
      assert x in [x] + sorted && forall y | y in sorted :: y in [x] + sorted;
      if le(x, head) {
        forall j | 0 <= j < |sorted|
          ensures le(x, sorted[j])
        {
          assert sorted[j] in sorted && head in sorted;
        }
      } else {
        assert forall y | y in [x] + rest :: y in [x] + sorted;
        InsertSorts(x, rest, le);
        InsertPermutes(x, rest, le);
        var inner := Insert(x, rest, le);
        forall j | 0 <= j < |inner|
          ensures le(head, inner[j])
        {
          assert inner[j] in multiset(inner);
          if inner[j] in rest {
            var k :| 0 <= k < |rest| && rest[k] == inner[j];
            assert sorted[k + 1] == rest[k];
          } else {
            assert inner[j] == x && head in sorted;
          }
        }
      }
    }
  }

  lemma {:induction false} SortSorts<T>(s: seq<T>, le: (T, T) -> bool)
    requires Orders(s, le)
    ensures Sorted(Sort(s, le), le)
  {
    if s != [] {
      assert forall y | y in s[1..] :: y in s;
      SortSorts(s[1..], le);
      SortMembers(s[1..], le);
      assert forall y | y in [s[0]] + Sort(s[1..], le) :: y in s;
      InsertSorts(s[0], Sort(s[1..], le), le);
    }
  }

  // ---------- Sorting and filtering ----------

  lemma {:induction false} FilterInsert<T>(x: T, sorted: seq<T>, le: (T, T) -> bool, p: T -> bool)
    requires Orders([x] + sorted, le) && Sorted(sorted, le)
    ensures Filter(Insert(x, sorted, le), p)
         == if p(x) then Insert(x, Filter(sorted, p), le) else Filter(sorted, p)
  {
    if sorted == [] {
    } else if le(x, sorted[0]) {
      assert ([x] + sorted)[1..] == sorted;
      BelowAll(x, sorted, le);
      FilterMembers(sorted, p);
    } else {
      var rest := sorted[1..];
      assert forall y | y in [x] + rest :: y in [x] + sorted;
      FilterInsert(x, rest, le, p);
      assert ([sorted[0]] + Insert(x, rest, le))[1..] == Insert(x, rest, le);
    }
  }

  lemma BelowAll<T>(x: T, sorted: seq<T>, le: (T, T) -> bool)
    requires Orders([x] + sorted, le) && Sorted(sorted, le)
    requires sorted != [] && le(x, sorted[0])
    ensures forall y | y in sorted :: le(x, y)
  {
    assert x in [x] + sorted && sorted[0] in [x] + sorted;
    forall y | y in sorted
      ensures le(x, y)
    {
      assert y in [x] + sorted;
      var k :| 0 <= k < |sorted| && sorted[k] == y;
      assert le(sorted[0], sorted[k]);
    }
  }

  /** Filtering before or after sorting gives the same list, order included. With a filter that
      keeps the members equal to one another, this is stability. */
  lemma {:induction false} FilterSort<T>(s: seq<T>, le: (T, T) -> bool, p: T -> bool)
    requires Orders(s, le)
    ensures Filter(Sort(s, le), p) == Sort(Filter(s, p), le)
  {
    if s != [] {
      var rest := s[1..];
      assert forall y | y in rest :: y in s;
      FilterSort(rest, le, p);
      SortSorts(rest, le);
      SortMembers(rest, le);
      assert forall y | y in [s[0]] + Sort(rest, le) :: y in s;
      FilterInsert(s[0], Sort(rest, le), le, p);
    }
  }

  lemma {:induction false} SortOfTies<T>(s: seq<T>, le: (T, T) -> bool)
    requires forall a, b | a in s && b in s :: le(a, b)
    ensures Sort(s, le) == s
  {
    if s != [] {
      assert forall y | y in s[1..] :: y in s;
      SortOfTies(s[1..], le);
      assert s[1..] != [] ==> s[1] == s[1..][0] && s[1..][0] in s;
    }
  }

  function Ties<T>(le: (T, T) -> bool, x: T): T -> bool { (y: T) => le(x, y) && le(y, x) }

  /** Members that tie with `x` keep the order they had. */
  lemma SortIsStable<T>(s: seq<T>, le: (T, T) -> bool, x: T)
    requires Orders(s, le) && x in s
    ensures Filter(Sort(s, le), Ties(le, x)) == Filter(s, Ties(le, x))
  {
    FilterSort(s, le, Ties(le, x));
    FilterMembers(s, Ties(le, x));
    SortOfTies(Filter(s, Ties(le, x)), le);
  }

  // ---------- Any stable sort is this one ----------

  predicate SameTies<T(==)>(a: seq<T>, b: seq<T>, le: (T, T) -> bool) {
    forall x | x in a :: Filter(a, Ties(le, x)) == Filter(b, Ties(le, x))
  }

  lemma SortedHead<T>(a: seq<T>, le: (T, T) -> bool, x: T)
    requires Orders(a, le) && Sorted(a, le) && x in a
    ensures le(a[0], x)
  {
    var k :| 0 <= k < |a| && a[k] == x;
    assert a[0] in a;
  }

  lemma SameHead<T>(a: seq<T>, b: seq<T>, le: (T, T) -> bool)
    requires a != [] && b != [] && Orders(a, le) && Orders(b, le) && Sorted(a, le) && Sorted(b, le)
    requires a[0] in b && b[0] in a && SameTies(a, b, le)
    ensures a[0] == b[0]
  {
    SortedHead(a, le, b[0]);
    SortedHead(b, le, a[0]);
    var ties := Ties(le, a[0]);
    assert le(a[0], a[0]) by { assert a[0] in a; }
    assert Filter(a, ties)[0] == a[0] && Filter(b, ties)[0] == b[0];
  }

  lemma TailTies<T>(a: seq<T>, b: seq<T>, le: (T, T) -> bool)
    requires a != [] && b != [] && a[0] == b[0] && SameTies(a, b, le)
    ensures SameTies(a[1..], b[1..], le)
  {
    forall x | x in a[1..]
      ensures Filter(a[1..], Ties(le, x)) == Filter(b[1..], Ties(le, x))
    {
      var ties := Ties(le, x);
      assert x in a && Filter(a, ties) == Filter(b, ties);
      assert ties(a[0]) ==> Filter(a, ties)[1..] == Filter(a[1..], ties);
      assert ties(a[0]) ==> Filter(b, ties)[1..] == Filter(b[1..], ties);
    }
  }

  /** What two such lists have in common, their tails have in common. */
  lemma TwiceTails<T>(a: seq<T>, b: seq<T>, le: (T, T) -> bool)
    requires Orders(a, le) && Orders(b, le) && Sorted(a, le) && Sorted(b, le)
    requires multiset(a) == multiset(b) && SameTies(a, b, le) && a != [] && b != []
    ensures a[0] == b[0] && multiset(a[1..]) == multiset(b[1..]) && SameTies(a[1..], b[1..], le)
    ensures Orders(a[1..], le) && Orders(b[1..], le) && Sorted(a[1..], le) && Sorted(b[1..], le)
  {
    assert a[0] in multiset(b) && b[0] in multiset(a);
    SameHead(a, b, le);
    TailMultiset(a);
    TailMultiset(b);
    TailTies(a, b, le);
    TailOrders(a, le);
    TailOrders(b, le);
  }

  lemma {:induction false} SortedTwice<T>(a: seq<T>, b: seq<T>, le: (T, T) -> bool)
    requires Orders(a, le) && Orders(b, le) && Sorted(a, le) && Sorted(b, le)
    requires multiset(a) == multiset(b) && SameTies(a, b, le)
    ensures a == b
  {
    assert |a| == |multiset(a)| == |multiset(b)| == |b|;
    if a != [] {
      TwiceTails(a, b, le);
      SortedTwice(a[1..], b[1..], le);
      assert a == [a[0]] + a[1..] && b == [b[0]] + b[1..];
    }
  }

  lemma TailMultiset<T>(a: seq<T>)
    requires a != []
    ensures multiset(a[1..]) == multiset(a) - multiset{a[0]}
  {
    assert a == [a[0]] + a[1..];
  }

  lemma TailOrders<T>(a: seq<T>, le: (T, T) -> bool)
    requires a != [] && Orders(a, le) && Sorted(a, le)
    ensures Orders(a[1..], le) && Sorted(a[1..], le)
  {
    assert forall y | y in a[1..] :: y in a;
  }

  /** Whatever algorithm sorts a list: a sorted permutation that keeps the order of tied members
      is this one. */
  lemma StableSortIsUnique<T>(s: seq<T>, sorted: seq<T>, le: (T, T) -> bool)
    requires Orders(s, le)
    requires multiset(sorted) == multiset(s) && Sorted(sorted, le)
    requires forall x | x in s :: Filter(sorted, Ties(le, x)) == Filter(s, Ties(le, x))
    ensures sorted == Sort(s, le)
  {
    var mine := Sort(s, le);
    SortPermutes(s, le);
    SortMembers(s, le);
    SortSorts(s, le);
    assert forall x | x in sorted :: x in multiset(sorted);
    assert forall x | x in multiset(s) :: x in s;
    forall x | x in mine
      ensures Filter(mine, Ties(le, x)) == Filter(sorted, Ties(le, x))
    {
      SortIsStable(s, le, x);
    }
    SortedTwice(mine, sorted, le);
  }

  // ---------- When two sorts agree ----------

  lemma {:induction false} InsertAgrees<T>(x: T, sorted: seq<T>, le: (T, T) -> bool, le': (T, T) -> bool)
    requires forall y | y in sorted :: le(x, y) == le'(x, y)
    ensures Insert(x, sorted, le) == Insert(x, sorted, le')
  {
    if sorted != [] {
      InsertAgrees(x, sorted[1..], le, le');
    }
  }

  lemma {:induction false} SortAgrees<T>(s: seq<T>, le: (T, T) -> bool, le': (T, T) -> bool)
    requires forall a, b | a in s && b in s :: le(a, b) == le'(a, b)
    ensures Sort(s, le) == Sort(s, le')
  {
    if s != [] {
      assert forall y | y in s[1..] :: y in s;
      SortAgrees(s[1..], le, le');
      SortMembers(s[1..], le);
      InsertAgrees(s[0], Sort(s[1..], le), le, le');
    }
  }

  /** Sorting items by their keys sorts the keys. */
  lemma {:induction false} KeysSort<T, K>(s: seq<T>, key: T -> K, le: (T, T) -> bool, leK: (K, K) -> bool)
    requires forall a, b | a in s && b in s :: le(a, b) == leK(key(a), key(b))
    ensures Keys(Sort(s, le), key) == Sort(Keys(s, key), leK)
  {
    if s != [] {
      assert forall y | y in s[1..] :: y in s;
      KeysSort(s[1..], key, le, leK);
      SortMembers(s[1..], le);
      KeysInsert(s[0], Sort(s[1..], le), key, le, leK);
    }
  }

  lemma {:induction false} KeysInsert<T, K>(x: T, sorted: seq<T>, key: T -> K, le: (T, T) -> bool, leK: (K, K) -> bool)
    requires forall y | y in sorted :: le(x, y) == leK(key(x), key(y))
    ensures Keys(Insert(x, sorted, le), key) == Insert(key(x), Keys(sorted, key), leK)
  {
    if sorted != [] {
      KeysInsert(x, sorted[1..], key, le, leK);
    }
  }

  // ---------- Sorting into a given order ----------

  lemma {:induction false} InsertIntoPlace<T>(before: seq<T>, x: T, after: seq<T>, le: (T, T) -> bool)
    requires StrictlySorted(before + [x] + after, le)
    ensures Insert(x, before + after, le) == before + [x] + after
  {
    var all := before + [x] + after;
    assert all[|before|] == x;
    if before == [] {
      assert before + after == after;
      assert after != [] ==> all[1] == after[0];
    } else {
      assert all[0] == before[0];
      assert all[1..] == before[1..] + [x] + after;
      assert (before + after)[1..] == before[1..] + after;
      assert forall i | 0 <= i < |all[1..]| :: all[1..][i] == all[i + 1];
      InsertIntoPlace(before[1..], x, after, le);
    }
  }

  /** Any list sorts into `target` when that is a permutation of it and strictly ordered. */
  lemma {:induction false} SortInto<T>(s: seq<T>, target: seq<T>, le: (T, T) -> bool)
    requires multiset(s) == multiset(target) && StrictlySorted(target, le)
    ensures Sort(s, le) == target
  {
    if s == [] {
      assert |multiset(target)| == 0;
    } else {
      var x := s[0];
      assert x in multiset(s);
      var i :| 0 <= i < |target| && target[i] == x;
      TailPermutes(s, target, i);
      StrictWithout(target, i, le);
      SortInto(s[1..], SpliceOut(target, i), le);
      assert target == target[..i] + [x] + target[i + 1..];
      InsertIntoPlace(target[..i], x, target[i + 1..], le);
    }
  }

  lemma StrictWithout<T>(target: seq<T>, i: nat, le: (T, T) -> bool)
    requires i < |target| && StrictlySorted(target, le)
    ensures StrictlySorted(SpliceOut(target, i), le)
  {
    var rest := SpliceOut(target, i);
    forall j, k | 0 <= j < k < |rest|
      ensures le(rest[j], rest[k]) && !le(rest[k], rest[j])
    {
      var j', k' := if j < i then j else j + 1, if k < i then k else k + 1;
      assert rest[j] == target[j'] && rest[k] == target[k'];
    }
  }
}
