/** String primitives shared by the scanners and printers: searching, splitting,
    trimming, filtering and replacing, with the few facts the proofs need about them. */
module Text {
  datatype Option<+T> = None | Some(value: T)

  predicate Filled(s: string) { s != "" }

  // ---------- Searching ----------

  predicate OccursAt(s: string, pat: string, i: int) {
    0 <= i && i + |pat| <= |s| && s[i..i + |pat|] == pat
  }

  predicate Occurs(s: string, pat: string) {
    exists i | 0 <= i <= |s| :: OccursAt(s, pat, i)
  }

  /** Index of the first occurrence of `pat`, as `str::find` gives it. */
  function Find(s: string, pat: string): (r: Option<nat>)
    ensures r.Some? ==> r.value + |pat| <= |s|
  {
    FindFrom(s, pat, 0)
  }

  function FindFrom(s: string, pat: string, from: nat): (r: Option<nat>)
    requires from <= |s|
    ensures r.Some? ==> from <= r.value && r.value + |pat| <= |s|
    decreases |s| - from
  {
    if OccursAt(s, pat, from) then Some(from)
    else if from == |s| then None
    else FindFrom(s, pat, from + 1)
  }

  /** `Find` gives the least position where the pattern occurs, and nothing exactly when it
      occurs nowhere. */
  lemma FindIsFirst(s: string, pat: string)
    ensures Find(s, pat).Some? <==> Occurs(s, pat)
    ensures Find(s, pat).Some? ==> OccursAt(s, pat, Find(s, pat).value)
    ensures Find(s, pat).Some? ==> forall j | 0 <= j < Find(s, pat).value :: !OccursAt(s, pat, j)
  {
    FindFromIsFirst(s, pat, 0);
  }

  lemma {:induction false} FindFromIsFirst(s: string, pat: string, from: nat)
    requires from <= |s|
    ensures var r := FindFrom(s, pat, from);
      && (r.Some? ==> OccursAt(s, pat, r.value) && forall j | from <= j < r.value :: !OccursAt(s, pat, j))
      && (r.None? ==> forall j | from <= j <= |s| :: !OccursAt(s, pat, j))
    decreases |s| - from
  {
    if !OccursAt(s, pat, from) && from < |s| {
      FindFromIsFirst(s, pat, from + 1);
    }
  }

  predicate StartsWith(s: string, pat: string) {
    |pat| <= |s| && s[..|pat|] == pat
  }

  predicate EndsWith(s: string, pat: string) {
    |pat| <= |s| && s[|s| - |pat|..] == pat
  }

  /** A pattern whose first character occurs only at its start has no border, so no match can
      straddle the point where the pattern has been written after a prefix that is free of it. */
  lemma FindBorderFree(prefix: string, pat: string, rest: string)
    requires |pat| > 0 && pat[0] !in pat[1..]
    requires !Occurs(prefix, pat)
    ensures Find(prefix + pat + rest, pat) == Some(|prefix|)
  {
    var s := prefix + pat + rest;
    FindIsFirst(s, pat);
    assert OccursAt(s, pat, |prefix|);
    forall j | 0 <= j < |prefix|
      ensures !OccursAt(s, pat, j)
    {
      if j + |pat| <= |prefix| {
        assert prefix[j..j + |pat|] == s[j..j + |pat|];
        assert !OccursAt(prefix, pat, j);
      } else if j + |pat| <= |s| {
        var k := |prefix| - j;
        assert s[j..j + |pat|][k] == s[|prefix|] == pat[0];
        assert pat[k] == pat[1..][k - 1] != pat[0];
      }
    }
  }

  /** A pattern written after text that lacks its first character is found right there. */
  lemma FindAfterClean(prefix: string, pat: string, rest: string)
    requires |pat| > 0 && pat[0] !in prefix
    ensures Find(prefix + pat + rest, pat) == Some(|prefix|)
  {
    var s := prefix + pat + rest;
    FindIsFirst(s, pat);
    assert OccursAt(s, pat, |prefix|);
    forall j | 0 <= j < |prefix|
      ensures !OccursAt(s, pat, j)
    {
      assert s[j] == prefix[j] != pat[0];
      if j + |pat| <= |s| {
        assert s[j..j + |pat|][0] == s[j];
      }
    }
  }

  // ---------- Joining and splitting ----------

  function Join(parts: seq<string>, sep: string): string {
    if |parts| == 0 then "" else if |parts| == 1 then parts[0]
    else parts[0] + sep + Join(parts[1..], sep)
  }

  /** The pieces between separators; never empty, as JavaScript's `split` on one character. */
  function Split(s: string, sep: char): (parts: seq<string>)
    ensures |parts| > 0
  {
    if s == "" then [""]
    else
      var rest := Split(s[1..], sep);
      if s[0] == sep then [""] + rest
      else [[s[0]] + rest[0]] + rest[1..]
  }

  /** Joining undoes splitting. */
  lemma {:induction false} JoinSplit(s: string, sep: char)
    ensures Join(Split(s, sep), [sep]) == s
  {
    if s != "" {
      var rest := Split(s[1..], sep);
      JoinSplit(s[1..], sep);
      assert s == [s[0]] + s[1..];
      if s[0] == sep {
        assert Split(s, sep)[1..] == rest;
      } else {
        JoinPushFirst(s[0], rest, [sep]);
      }
    }
  }

  lemma JoinPushFirst(c: char, parts: seq<string>, sep: string)
    requires |parts| > 0
    ensures Join([[c] + parts[0]] + parts[1..], sep) == [c] + Join(parts, sep)
  {
    assert ([[c] + parts[0]] + parts[1..])[1..] == parts[1..];
    assert [c] + parts[0] + sep + Join(parts[1..], sep) == [c] + (parts[0] + sep + Join(parts[1..], sep));
  }

  /** The pieces are free of the separator and add no character. */
  lemma {:induction false} SplitPiece(s: string, sep: char, p: string)
    requires p in Split(s, sep)
    ensures sep !in p
    ensures forall c | c in p :: c in s
  {
    if s != "" {
      var rest := Split(s[1..], sep);
      assert forall c | c in s[1..] :: c in s;
      if s[0] != sep && p == [s[0]] + rest[0] {
        SplitPiece(s[1..], sep, rest[0]);
      } else if p in rest {
        SplitPiece(s[1..], sep, p);
      }
    }
  }

  /** Splitting undoes joining for pieces that are free of the separator. */
  lemma {:induction false} SplitJoin(parts: seq<string>, sep: char)
    requires |parts| > 0 && forall p | p in parts :: sep !in p
    ensures Split(Join(parts, [sep]), sep) == parts
  {
    if |parts| == 1 {
      SplitOne(parts[0], sep);
    } else {
      SplitJoin(parts[1..], sep);
      SplitHead(parts[0], Join(parts[1..], [sep]), sep);
      assert parts == [parts[0]] + parts[1..];
    }
  }

  lemma {:induction false} SplitOne(s: string, sep: char)
    requires sep !in s
    ensures Split(s, sep) == [s]
  {
    if s != "" {
      SplitOne(s[1..], sep);
      assert s == [s[0]] + s[1..];
    }
  }

  lemma {:induction false} SplitHead(head: string, tail: string, sep: char)
    requires sep !in head
    ensures Split(head + [sep] + tail, sep) == [head] + Split(tail, sep)
  {
    var s := head + [sep] + tail;
    if head == "" {
      assert s[1..] == tail;
    } else {
      assert s[1..] == head[1..] + [sep] + tail;
      SplitHead(head[1..], tail, sep);
      assert head == [head[0]] + head[1..];
      var rest := Split(s[1..], sep);
      assert rest[0] == head[1..] && rest[1..] == Split(tail, sep);
    }
  }

  lemma {:induction false} SplitConcat(a: string, b: string, sep: char)
    ensures Split(a + [sep] + b, sep) == Split(a, sep) + Split(b, sep)
  {
    if a == "" {
      assert a + [sep] + b == [sep] + b;
      SplitCons(sep, b, sep);
    } else {
      SplitConcat(a[1..], b, sep);
      assert a == [a[0]] + a[1..];
      assert a + [sep] + b == [a[0]] + (a[1..] + [sep] + b);
      SplitConcatCons(a[0], a[1..], b, sep);
    }
  }

  lemma SplitConcatCons(c: char, a: string, b: string, sep: char)
    requires Split(a + [sep] + b, sep) == Split(a, sep) + Split(b, sep)
    ensures Split([c] + (a + [sep] + b), sep) == Split([c] + a, sep) + Split(b, sep)
  {
    SplitCons(c, a, sep);
    SplitCons(c, a + [sep] + b, sep);
    ConsParts(c, Split(a, sep), Split(b, sep));
  }

  lemma ConsParts(c: char, a: seq<string>, b: seq<string>)
    requires a != []
    ensures [""] + (a + b) == [""] + a + b
    ensures [[c] + (a + b)[0]] + (a + b)[1..] == [[c] + a[0]] + a[1..] + b
  {
    assert (a + b)[1..] == a[1..] + b;
  }

  lemma SplitCons(c: char, s: string, sep: char)
    ensures var rest := Split(s, sep);
      Split([c] + s, sep) == if c == sep then [""] + rest else [[c] + rest[0]] + rest[1..]
  {
    assert ([c] + s)[1..] == s;
  }

  lemma {:induction false} JoinConcat(a: seq<string>, b: seq<string>, sep: string)
    requires a != [] && b != []
    ensures Join(a + b, sep) == Join(a, sep) + sep + Join(b, sep)
  {
    assert (a + b)[1..] == a[1..] + b;
    if |a| > 1 {
      JoinConcat(a[1..], b, sep);
    }
  }

  lemma {:induction false} SplitLast(s: string, sep: char)
    requires s != "" && s[|s| - 1] != sep
    ensures Split(s, sep)[|Split(s, sep)| - 1] != ""
  {
    if |s| > 1 {
      SplitLast(s[1..], sep);
      var rest := Split(s[1..], sep);
      assert Split(s, sep) == if s[0] == sep then [""] + rest else [[s[0]] + rest[0]] + rest[1..];
    } else {
      assert Split(s[1..], sep) == [""];
    }
  }

  // ---------- Trimming and replacing ----------

  function TrimStart(s: string, white: char -> bool): string {
    if s != "" && white(s[0]) then TrimStart(s[1..], white) else s
  }

  function TrimEnd(s: string, white: char -> bool): string {
    if s != "" && white(s[|s| - 1]) then TrimEnd(s[..|s| - 1], white) else s
  }

  function Trim(s: string, white: char -> bool): string {
    TrimEnd(TrimStart(s, white), white)
  }

  /** Every non-overlapping occurrence of `from`, left to right, becomes `to`. */
  function Replace(s: string, from: string, to: string): string
    requires from != ""
  {
    if |s| < |from| then s
    else if StartsWith(s, from) then to + Replace(s[|from|..], from, to)
    else [s[0]] + Replace(s[1..], from, to)
  }

  lemma {:induction false} ReplaceAbsent(s: string, from: string, to: string)
    requires from != "" && from[0] !in s
    ensures Replace(s, from, to) == s
  {
    if |s| >= |from| {
      assert s[..|from|][0] == s[0];
      ReplaceAbsent(s[1..], from, to);
      assert s == [s[0]] + s[1..];
    }
  }

  // ---------- Case ----------

  /** `toLowerCase` on ASCII text. */
  function Lower(s: string): (r: string)
    ensures |r| == |s|
  {
    if s == "" then ""
    else [if 'A' <= s[0] <= 'Z' then s[0] + 32 as char else s[0]] + Lower(s[1..])
  }

  /** Each upper-case letter becomes its lower-case one, and nothing else changes. */
  lemma {:induction false} LowerEach(s: string, i: nat)
    requires i < |s|
    ensures Lower(s)[i] == if 'A' <= s[i] <= 'Z' then 'a' + (s[i] - 'A') else s[i]
  {
    if i > 0 { LowerEach(s[1..], i - 1); }
  }
}
