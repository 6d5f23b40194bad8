/** Histories that keep only their newest part: recently opened hosts and terminal output
    (src/App.tsx, src/mobile/MobileApp.tsx). */
module BoundedHistory {
  import opened Sequences

  function Take<T>(s: seq<T>, n: nat): seq<T> { if |s| <= n then s else s[..n] }

  /** JavaScript's `slice(-n)` for a positive n. */
  function Last<T>(s: seq<T>, n: nat): seq<T> { if |s| <= n then s else s[|s| - n..] }

  function Reverse<T>(s: seq<T>): seq<T> {
    if s == [] then [] else [s[|s| - 1]] + Reverse(s[..|s| - 1])
  }

  // ---------- Recent hosts ----------

  const RECENT_HOSTS: nat := 10

  function Remembered<K(==)>(recent: seq<K>, id: K, limit: nat): seq<K> {
    Take([id] + Without(recent, id), limit)
  }

  /** The list after a sequence of opens, oldest first. */
  function AfterOpens<K(==)>(opens: seq<K>, limit: nat): seq<K> {
    if opens == [] then [] else Remembered(AfterOpens(opens[..|opens| - 1], limit), opens[|opens| - 1], limit)
  }

  lemma TakeWithout<K>(s: seq<K>, x: K, n: nat)
    requires NoDup(s) && n > 0
    ensures Take(Without(Take(s, n), x), n - 1) == Take(Without(s, x), n - 1)
  {
    if |s| > n {
      assert s == s[..n] + s[n..];
      FilterConcat(s[..n], s[n..], Other(x));
      var kept := Without(s[..n], x);
      AtMostOneLess(s[..n], x);
      assert Without(s, x) == kept + Without(s[n..], x);
    }
  }

  lemma AtMostOneLess<K>(s: seq<K>, x: K)
    requires NoDup(s)
    ensures |Without(s, x)| >= |s| - 1
  {
    if x in s {
      WithoutSpliceOut(s, IndexOf(s, x));
    } else {
      FilterAll(s, Other(x));
    }
  }

  /** The bounded list is the front of the history read backwards without repetition. */
  lemma {:induction false} RecentRefinesHistory<K>(opens: seq<K>, limit: nat)
    requires limit > 0
    ensures AfterOpens(opens, limit) == Take(Unique(Reverse(opens)), limit)
  {
    if opens != [] {
      var before, x := opens[..|opens| - 1], opens[|opens| - 1];
      RecentRefinesHistory(before, limit);
      var history := Unique(Reverse(before));
      UniqueMembers(Reverse(before));
      TakeWithout(history, x, limit);
      assert Reverse(opens)[1..] == Reverse(before);
      TakeCons(x, Without(Take(history, limit), x), limit);
      TakeCons(x, Without(history, x), limit);
    }
  }

  lemma TakeCons<K>(x: K, s: seq<K>, n: nat)
    requires n > 0
    ensures Take([x] + s, n) == [x] + Take(s, n - 1)
  {
  }

  lemma {:induction false} ReverseAt<T>(s: seq<T>, i: nat)
    requires i < |s|
    ensures |Reverse(s)| == |s| && Reverse(s)[i] == s[|s| - 1 - i]
  {
    if |s| > 1 { ReverseAt(s[..|s| - 1], if i > 0 then i - 1 else 0); }
  }

  /** How many opens there have been since the last one of `id`. */
  function SinceOpened<K(==)>(opens: seq<K>, id: K): int { IndexOf(Reverse(opens), id) }

  /** The hosts opened last, the latest first: each once, at most `limit`, and a host that was
      opened but is missing was last opened before all of a full list. */
  lemma RecentMeans<K>(opens: seq<K>, limit: nat)
    requires limit > 0
    ensures var recent := AfterOpens(opens, limit);
      && NoDup(recent) && |recent| <= limit && (forall x | x in recent :: x in Reverse(opens))
      && (forall i, j | 0 <= i < j < |recent| :: SinceOpened(opens, recent[i]) < SinceOpened(opens, recent[j]))
      && forall x | x in Reverse(opens) && x !in recent ::
           |recent| == limit && forall y | y in recent :: SinceOpened(opens, y) < SinceOpened(opens, x)
  {
    RecentRefinesHistory(opens, limit);
    UniqueMembers(Reverse(opens));
    UniqueAscending(Reverse(opens));
    FrontMeans(Unique(Reverse(opens)), Reverse(opens), limit);
  }

  lemma FrontMeans<K>(all: seq<K>, history: seq<K>, limit: nat)
    requires NoDup(all) && Ascending(all, history)
    requires (forall x | x in all :: x in history) && forall x | x in history :: x in all
    ensures var front := Take(all, limit);
      && NoDup(front) && |front| <= limit && (forall x | x in front :: x in history) && Ascending(front, history)
      && forall x | x in history && x !in front ::
           |front| == limit && forall y | y in front :: IndexOf(history, y) < IndexOf(history, x)
  {
    var front := Take(all, limit);
    forall x | x in history && x !in front
      ensures |front| == limit && forall y | y in front :: IndexOf(history, y) < IndexOf(history, x)
    {
      var j :| 0 <= j < |all| && all[j] == x;
      assert j >= |front|;
    }
  }

  class RecentHosts<K(==)> {
    var recent: seq<K>
    ghost var opens: seq<K>

    ghost predicate Valid()
      reads this
    {
      recent == AfterOpens(opens, RECENT_HOSTS)
    }

    constructor ()
      ensures Valid() && opens == []
    {
      recent, opens := [], [];
    }

    method RememberManagedHost(id: K)
      requires Valid()
      modifies this
      ensures Valid() && opens == old(opens) + [id]
      ensures recent == Take(Unique(Reverse(opens)), 10)
    {
      recent := Take([id] + Without(recent, id), RECENT_HOSTS);
      opens := opens + [id];
      RecentRefinesHistory(opens, RECENT_HOSTS);
    }
  }

  // ---------- Terminal output ----------

  function Stream<T>(chunks: seq<seq<T>>): seq<T> {
    if chunks == [] then [] else Stream(chunks[..|chunks| - 1]) + chunks[|chunks| - 1]
  }

  function AfterChunks<T>(chunks: seq<seq<T>>, limit: nat): seq<T> {
    if chunks == [] then [] else Last(AfterChunks(chunks[..|chunks| - 1], limit) + chunks[|chunks| - 1], limit)
  }

  /** All of the stream while it fits, and otherwise its last `limit` characters. */
  predicate EndOf<T(==)>(output: seq<T>, stream: seq<T>, limit: nat) {
    && |output| == (if |stream| <= limit then |stream| else limit)
    && forall i | 0 <= i < |output| :: output[i] == stream[|stream| - |output| + i]
  }

  lemma EndGrows<T>(output: seq<T>, stream: seq<T>, chunk: seq<T>, limit: nat)
    requires EndOf(output, stream, limit)
    ensures EndOf(Last(output + chunk, limit), stream + chunk, limit)
  {
    var all, next := stream + chunk, Last(output + chunk, limit);
    forall i | 0 <= i < |next|
      ensures next[i] == all[|all| - |next| + i]
    {
      var k := |output + chunk| - |next| + i;
      assert next[i] == (output + chunk)[k];
      if k < |output| { assert output[k] == stream[|stream| - |output| + k]; }
    }
  }

  /** The buffer is the end of the whole stream, however the stream was cut into chunks. */
  lemma {:induction false} TailRefinesStream<T>(chunks: seq<seq<T>>, limit: nat)
    ensures EndOf(AfterChunks(chunks, limit), Stream(chunks), limit)
  {
    if chunks != [] {
      var before := chunks[..|chunks| - 1];
      TailRefinesStream(before, limit);
      EndGrows(AfterChunks(before, limit), Stream(before), chunks[|chunks| - 1], limit);
    }
  }

  /** The buffer of a terminal: of 160000 characters on the desktop, of 80000 on mobile. */
  class OutputBuffer<T> {
    const limit: nat
    var output: seq<T>
    ghost var stream: seq<T>

    ghost predicate Valid()
      reads this
    {
      EndOf(output, stream, limit)
    }

    constructor Desktop()
      ensures Valid() && stream == [] && limit == 160000
    {
      limit, output, stream := 160000, [], [];
    }

    constructor Mobile()
      ensures Valid() && stream == [] && limit == 80000
    {
      limit, output, stream := 80000, [], [];
    }

    method Append(chunk: seq<T>)
      requires Valid()
      modifies this
      ensures Valid() && stream == old(stream) + chunk
    {
      EndGrows(output, stream, chunk, limit);
      output := Last(output + chunk, limit);
      stream := stream + chunk;
    }
  }
}
