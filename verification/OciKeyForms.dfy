/** The written forms of an OCI private key that normalise to the same block. */
module OciKeyForms {
  import opened Sequences
  import opened Text
  import opened OciPrivateKey

  /** Line breaks as a form may write them: real ones, or their escapes. */
  datatype Break = LF | CRLF | CR | EscapedLF | EscapedCRLF | EscapedCR {
    function Written(): string {
      match this
      case LF => "\n"
      case CRLF => "\r\n"
      case CR => "\r"
      case EscapedLF => "\\n"
      case EscapedCRLF => "\\r\\n"
      case EscapedCR => "\\r"
    }

    /** The place at which the code turns this break into a line feed. */
    function Turn(): nat {
      match this
      case EscapedCRLF => 0
      case EscapedLF => 1
      case EscapedCR => 2
      case CRLF => 3
      case CR => 4
      case LF => 5
    }
  }

  // ---------- Replacing breaks between lines ----------

  /** No match of `from` begins inside `x`, whatever follows it. */
  predicate Inert(x: string, from: string) {
    from != "" && (from[0] !in x
                   || (|x| >= 2 && |from| >= 2 && x[0] == from[0] && x[1] != from[1] && from[0] !in x[1..]))
  }

  lemma {:induction false} ReplacePast(x: string, rest: string, from: string, to: string)
    requires from != "" && from[0] !in x
    ensures Replace(x + rest, from, to) == x + Replace(rest, from, to)
  {
    var s := x + rest;
    if x == "" {
      assert s == rest;
    } else {
      ReplacePast(x[1..], rest, from, to);
      if |s| >= |from| { assert s[..|from|][0] == x[0]; }
      ReplaceStep(x, rest, from, to);
    }
  }

  lemma ReplaceShort(s: string, from: string, to: string)
    requires |s| < |from|
    ensures Replace(s, from, to) == s
  {
  }

  lemma ReplacePastInert(x: string, rest: string, from: string, to: string)
    requires Inert(x, from)
    ensures Replace(x + rest, from, to) == x + Replace(rest, from, to)
  {
    if from[0] !in x {
      ReplacePast(x, rest, from, to);
    } else {
      ReplacePast(x[1..], rest, from, to);
      if |x + rest| >= |from| {
        assert (x + rest)[..|from|][1] == x[1];
      }
      ReplaceStep(x, rest, from, to);
    }
  }

  lemma ReplacePastBreak(sep: string, rest: string, from: string, to: string)
    requires sep != "" && from != "" && from[0] !in sep[1..] && !StartsWith(sep + rest, from)
    ensures Replace(sep + rest, from, to) == sep + Replace(rest, from, to)
  {
    ReplacePast(sep[1..], rest, from, to);
    ReplaceStep(sep, rest, from, to);
  }

  lemma ReplaceStep(x: string, rest: string, from: string, to: string)
    requires x != "" && from != "" && !StartsWith(x + rest, from)
    requires Replace(x[1..] + rest, from, to) == x[1..] + Replace(rest, from, to)
    ensures Replace(x + rest, from, to) == x + Replace(rest, from, to)
  {
    var s, tail := x + rest, Replace(rest, from, to);
    if |s| < |from| {
      ReplaceShort(s, from, to);
      ReplaceShort(rest, from, to);
    } else {
      assert s[1..] == x[1..] + rest;
      assert Replace(s, from, to) == [s[0]] + (x[1..] + tail);
      assert x + tail == [x[0]] + (x[1..] + tail);
    }
  }

  // ---------- Lines of a written form ----------

  /** A line as a form may hold it: without breaks and escapes, or a fence after a backslash. */
  predicate FormLine(l: string) {
    && '\r' !in l && '\n' !in l
    && ('\\' !in l || (|l| >= 2 && l[0] == '\\' && l[1] == '-' && '\\' !in l[1..]))
  }

  predicate FormLines(lines: seq<string>) { forall l | l in lines :: FormLine(l) }

  /** The lines with the given breaks between them. */
  function Weave(lines: seq<string>, breaks: seq<Break>): string
    requires |lines| == |breaks| + 1
  {
    if breaks == [] then lines[0] else lines[0] + (breaks[0].Written() + Weave(lines[1..], breaks[1..]))
  }

  function Turned(breaks: seq<Break>, br: Break): (r: seq<Break>)
    ensures |r| == |breaks|
  {
    if breaks == [] then [] else [if breaks[0] == br then LF else breaks[0]] + Turned(breaks[1..], br)
  }

  /** No break but `br` itself begins with the text of `br`, together with what follows it. */
  predicate Apart(lines: seq<string>, breaks: seq<Break>, br: Break)
    requires |lines| == |breaks| + 1
  {
    breaks != [] ==>
      && (breaks[0] != br ==>
            && br.Written()[0] !in breaks[0].Written()[1..]
            && !StartsWith(breaks[0].Written() + Weave(lines[1..], breaks[1..]), br.Written()))
      && Apart(lines[1..], breaks[1..], br)
  }

  lemma LineInert(l: string, br: Break)
    requires FormLine(l) && !br.LF?
    ensures Inert(l, br.Written())
  {
  }

  lemma TurnFirst(line: string, sep: Break, rest: string, br: Break)
    requires FormLine(line) && !br.LF?
    requires sep != br ==> br.Written()[0] !in sep.Written()[1..] && !StartsWith(sep.Written() + rest, br.Written())
    ensures var from := br.Written();
      Replace(line + (sep.Written() + rest), from, "\n") ==
      line + ((if sep == br then LF else sep).Written() + Replace(rest, from, "\n"))
  {
    var from := br.Written();
    LineInert(line, br);
    ReplacePastInert(line, sep.Written() + rest, from, "\n");
    if sep == br {
      assert (from + rest)[|from|..] == rest && (from + rest)[..|from|] == from;
    } else {
      ReplacePastBreak(sep.Written(), rest, from, "\n");
    }
  }

  /** Replacing the text of one break turns that break and changes nothing else. */
  lemma {:induction false} ReplaceTurns(lines: seq<string>, breaks: seq<Break>, br: Break)
    requires |lines| == |breaks| + 1 && FormLines(lines) && !br.LF? && Apart(lines, breaks, br)
    ensures Replace(Weave(lines, breaks), br.Written(), "\n") == Weave(lines, Turned(breaks, br))
  {
    assert lines[0] in lines && forall l | l in lines[1..] :: l in lines;
    if breaks == [] {
      LineInert(lines[0], br);
      ReplacePastInert(lines[0], "", br.Written(), "\n");
      assert lines[0] + "" == lines[0];
    } else {
      ReplaceTurns(lines[1..], breaks[1..], br);
      TurnFirst(lines[0], breaks[0], Weave(lines[1..], breaks[1..]), br);
      assert Turned(breaks, br)[1..] == Turned(breaks[1..], br);
    }
  }

  // ---------- Breaks that read as one ----------

  /** Lines and the breaks between them. */
  datatype Woven = Woven(lines: seq<string>, breaks: seq<Break>) {
    predicate Fits() { |lines| == |breaks| + 1 }
  }

  /** Wherever `y` follows `x` with nothing between them, the two become `z`. */
  function Merged(lines: seq<string>, breaks: seq<Break>, x: Break, y: Break, z: Break): (w: Woven)
    requires |lines| == |breaks| + 1
    ensures w.Fits() && w.lines[0] == lines[0] && (breaks != [] ==> w.breaks != [])
    decreases |breaks|
  {
    if breaks == [] then Woven(lines, breaks)
    else if |breaks| >= 2 && lines[1] == "" && breaks[0] == x && breaks[1] == y then
      var w := Merged(lines[2..], breaks[2..], x, y, z);
      Woven([lines[0]] + w.lines, [z] + w.breaks)
    else
      var w := Merged(lines[1..], breaks[1..], x, y, z);
      Woven([lines[0]] + w.lines, [breaks[0]] + w.breaks)
  }

  predicate Joined(lines: seq<string>, breaks: seq<Break>, x: Break, y: Break)
    requires |lines| == |breaks| + 1
  {
    |breaks| >= 2 && lines[1] == "" && breaks[0] == x && breaks[1] == y
  }

  lemma MergedPair(lines: seq<string>, breaks: seq<Break>, x: Break, y: Break, z: Break)
    requires |lines| == |breaks| + 1 && Joined(lines, breaks, x, y)
    ensures var w := Merged(lines[2..], breaks[2..], x, y, z);
      Merged(lines, breaks, x, y, z) == Woven([lines[0]] + w.lines, [z] + w.breaks)
  {
  }

  lemma MergedNext(lines: seq<string>, breaks: seq<Break>, x: Break, y: Break, z: Break)
    requires |lines| == |breaks| + 1 && breaks != [] && !Joined(lines, breaks, x, y)
    ensures var w := Merged(lines[1..], breaks[1..], x, y, z);
      Merged(lines, breaks, x, y, z) == Woven([lines[0]] + w.lines, [breaks[0]] + w.breaks)
  {
  }

  /** `y` never follows `x` with nothing between them. */
  predicate Free(lines: seq<string>, breaks: seq<Break>, x: Break, y: Break)
    requires |lines| == |breaks| + 1
  {
    breaks != [] ==> !Joined(lines, breaks, x, y) && Free(lines[1..], breaks[1..], x, y)
  }

  lemma WeaveCons(line: string, sep: Break, lines: seq<string>, breaks: seq<Break>)
    requires |lines| == |breaks| + 1
    ensures Weave([line] + lines, [sep] + breaks) == line + (sep.Written() + Weave(lines, breaks))
  {
    assert ([line] + lines)[1..] == lines && ([sep] + breaks)[1..] == breaks;
  }

  lemma WeaveTwo(lines: seq<string>, breaks: seq<Break>)
    requires |lines| == |breaks| + 1 && |breaks| >= 2
    ensures Weave(lines, breaks)
         == lines[0] + (breaks[0].Written() + (lines[1] + (breaks[1].Written() + Weave(lines[2..], breaks[2..]))))
  {
    assert lines[1..][1..] == lines[2..] && breaks[1..][1..] == breaks[2..];
  }

  lemma PairText(line: string, a: string, b: string, rest: string)
    ensures line + (a + ("" + (b + rest))) == line + ((a + b) + rest)
  {
    assert "" + (b + rest) == b + rest;
    assert a + (b + rest) == (a + b) + rest;
  }

  /** Merging does not change the text. */
  lemma {:induction false} MergedWeave(lines: seq<string>, breaks: seq<Break>, x: Break, y: Break, z: Break)
    requires |lines| == |breaks| + 1 && x.Written() + y.Written() == z.Written()
    ensures var w := Merged(lines, breaks, x, y, z); Weave(w.lines, w.breaks) == Weave(lines, breaks)
    decreases |breaks|
  {
    if Joined(lines, breaks, x, y) {
      MergedWeave(lines[2..], breaks[2..], x, y, z);
      MergedPair(lines, breaks, x, y, z);
      WeaveTwo(lines, breaks);
      PairText(lines[0], x.Written(), y.Written(), Weave(lines[2..], breaks[2..]));
      var w := Merged(lines[2..], breaks[2..], x, y, z);
      WeaveCons(lines[0], z, w.lines, w.breaks);
    } else if breaks != [] {
      MergedWeave(lines[1..], breaks[1..], x, y, z);
      MergedNext(lines, breaks, x, y, z);
      var w := Merged(lines[1..], breaks[1..], x, y, z);
      WeaveCons(lines[0], breaks[0], w.lines, w.breaks);
    }
  }

  lemma FreeCons(line: string, sep: Break, lines: seq<string>, breaks: seq<Break>, x: Break, y: Break)
    requires |lines| == |breaks| + 1 && Free(lines, breaks, x, y)
    requires sep != x || lines[0] != "" || breaks == [] || breaks[0] != y
    ensures Free([line] + lines, [sep] + breaks, x, y)
  {
    assert ([line] + lines)[1..] == lines && ([sep] + breaks)[1..] == breaks;
  }

  lemma FirstMerged(lines: seq<string>, breaks: seq<Break>, x: Break, y: Break, z: Break)
    requires |lines| == |breaks| + 1 && breaks != []
    ensures var w := Merged(lines, breaks, x, y, z); w.breaks[0] == breaks[0] || w.breaks[0] == z
  {
    if Joined(lines, breaks, x, y) { MergedPair(lines, breaks, x, y, z); } else { MergedNext(lines, breaks, x, y, z); }
  }

  lemma NotJoined(lines: seq<string>, breaks: seq<Break>, x: Break, y: Break, z: Break)
    requires |lines| == |breaks| + 1 && breaks != [] && !Joined(lines, breaks, x, y) && z != y
    ensures var w := Merged(lines[1..], breaks[1..], x, y, z);
      breaks[0] != x || w.lines[0] != "" || w.breaks == [] || w.breaks[0] != y
  {
    if |breaks| > 1 {
      FirstMerged(lines[1..], breaks[1..], x, y, z);
    } else {
      assert breaks[1..] == [];
    }
  }

  lemma {:induction false} MergedFree(lines: seq<string>, breaks: seq<Break>, x: Break, y: Break, z: Break)
    requires |lines| == |breaks| + 1 && z != x && z != y
    ensures var w := Merged(lines, breaks, x, y, z); Free(w.lines, w.breaks, x, y)
    decreases |breaks|
  {
    if Joined(lines, breaks, x, y) {
      MergedPair(lines, breaks, x, y, z);
      MergedFree(lines[2..], breaks[2..], x, y, z);
      var w := Merged(lines[2..], breaks[2..], x, y, z);
      FreeCons(lines[0], z, w.lines, w.breaks, x, y);
    } else if breaks != [] {
      MergedNext(lines, breaks, x, y, z);
      MergedFree(lines[1..], breaks[1..], x, y, z);
      NotJoined(lines, breaks, x, y, z);
      var w := Merged(lines[1..], breaks[1..], x, y, z);
      FreeCons(lines[0], breaks[0], w.lines, w.breaks, x, y);
    }
  }

  /** `kept` is `lines` without some of the empty ones. */
  predicate Thinned(kept: seq<string>, lines: seq<string>)
    decreases |lines|
  {
    if lines == [] then kept == []
    else
      || (kept != [] && kept[0] == lines[0] && Thinned(kept[1..], lines[1..]))
      || (lines[0] == "" && Thinned(kept, lines[1..]))
  }

  lemma ThinnedCons(line: string, kept: seq<string>, lines: seq<string>)
    requires Thinned(kept, lines)
    ensures Thinned([line] + kept, [line] + lines)
  {
    assert ([line] + kept)[1..] == kept && ([line] + lines)[1..] == lines;
  }

  lemma ThinnedPair(line: string, kept: seq<string>, lines: seq<string>)
    requires Thinned(kept, lines)
    ensures Thinned([line] + kept, [line] + ([""] + lines))
  {
    assert ([""] + lines)[1..] == lines;
    ThinnedCons(line, kept, [""] + lines);
  }

  lemma {:induction false} ThinnedSelf(lines: seq<string>)
    ensures Thinned(lines, lines)
    decreases |lines|
  {
    if lines != [] { ThinnedSelf(lines[1..]); }
  }

  lemma {:induction false} ThinnedMembers(kept: seq<string>, lines: seq<string>)
    requires Thinned(kept, lines)
    ensures forall l | l in kept :: l in lines
    decreases |lines|
  {
    if lines != [] {
      assert lines == [lines[0]] + lines[1..];
      if kept != [] && kept[0] == lines[0] && Thinned(kept[1..], lines[1..]) {
        assert kept == [kept[0]] + kept[1..];
        ThinnedMembers(kept[1..], lines[1..]);
      } else {
        ThinnedMembers(kept, lines[1..]);
      }
    }
  }

  lemma {:induction false} ThinnedConcat(kept: seq<string>, lines: seq<string>)
    requires Thinned(kept, lines)
    ensures Concat(kept) == Concat(lines)
    decreases |lines|
  {
    if lines != [] {
      if kept != [] && kept[0] == lines[0] && Thinned(kept[1..], lines[1..]) {
        ThinnedConcat(kept[1..], lines[1..]);
      } else {
        ThinnedConcat(kept, lines[1..]);
      }
    }
  }

  lemma {:induction false} ThinnedTwice(a: seq<string>, b: seq<string>, c: seq<string>)
    requires Thinned(a, b) && Thinned(b, c)
    ensures Thinned(a, c)
    decreases |c|
  {
    if c != [] {
      if b != [] && b[0] == c[0] && Thinned(b[1..], c[1..]) {
        if a != [] && a[0] == b[0] && Thinned(a[1..], b[1..]) {
          ThinnedTwice(a[1..], b[1..], c[1..]);
        } else {
          ThinnedTwice(a, b[1..], c[1..]);
        }
      } else {
        ThinnedTwice(a, b, c[1..]);
      }
    }
  }

  /** A line that is not empty is kept, and thinning goes on beside it. */
  lemma {:induction false} ThinnedAround(kept: seq<string>, a: seq<string>, x: string, b: seq<string>)
    returns (ka: seq<string>, kb: seq<string>)
    requires Thinned(kept, a + [x] + b) && x != ""
    ensures kept == ka + [x] + kb && Thinned(ka, a) && Thinned(kb, b)
    decreases |a|
  {
    var lines := a + [x] + b;
    if a == [] {
      assert lines[0] == x && lines[1..] == b;
      ka, kb := [], kept[1..];
      assert kept == [kept[0]] + kb;
    } else {
      assert lines[0] == a[0] && lines[1..] == a[1..] + [x] + b;
      if kept != [] && kept[0] == lines[0] && Thinned(kept[1..], lines[1..]) {
        ka, kb := ThinnedAround(kept[1..], a[1..], x, b);
        ThinnedCons(a[0], ka, a[1..]);
        ka := [a[0]] + ka;
        assert a == [a[0]] + a[1..] && kept == [kept[0]] + kept[1..];
      } else {
        ka, kb := ThinnedAround(kept, a[1..], x, b);
      }
    }
  }

  /** Without a last empty line. */
  lemma {:induction false} ThinnedLast(lines: seq<string>)
    requires lines != [] && lines[|lines| - 1] == ""
    ensures Thinned(lines[..|lines| - 1], lines)
    decreases |lines|
  {
    var kept := lines[..|lines| - 1];
    if |lines| > 1 {
      ThinnedLast(lines[1..]);
      assert kept[1..] == lines[1..][..|lines[1..]| - 1];
    } else {
      assert lines[1..] == [];
    }
  }

  lemma ThinsPair(lines: seq<string>, breaks: seq<Break>, x: Break, y: Break, z: Break)
    requires |lines| == |breaks| + 1 && Joined(lines, breaks, x, y)
    requires Thinned(Merged(lines[2..], breaks[2..], x, y, z).lines, lines[2..])
    ensures Thinned(Merged(lines, breaks, x, y, z).lines, lines)
  {
    MergedPair(lines, breaks, x, y, z);
    ThinnedPair(lines[0], Merged(lines[2..], breaks[2..], x, y, z).lines, lines[2..]);
    assert lines == [lines[0]] + ([""] + lines[2..]);
  }

  lemma ThinsNext(lines: seq<string>, breaks: seq<Break>, x: Break, y: Break, z: Break)
    requires |lines| == |breaks| + 1 && breaks != [] && !Joined(lines, breaks, x, y)
    requires Thinned(Merged(lines[1..], breaks[1..], x, y, z).lines, lines[1..])
    ensures Thinned(Merged(lines, breaks, x, y, z).lines, lines)
  {
    MergedNext(lines, breaks, x, y, z);
    ThinnedCons(lines[0], Merged(lines[1..], breaks[1..], x, y, z).lines, lines[1..]);
    assert lines == [lines[0]] + lines[1..];
  }

  lemma {:induction false} MergedThins(lines: seq<string>, breaks: seq<Break>, x: Break, y: Break, z: Break)
    requires |lines| == |breaks| + 1
    ensures Thinned(Merged(lines, breaks, x, y, z).lines, lines)
    decreases |breaks|
  {
    if Joined(lines, breaks, x, y) {
      MergedThins(lines[2..], breaks[2..], x, y, z);
      ThinsPair(lines, breaks, x, y, z);
    } else if breaks != [] {
      MergedThins(lines[1..], breaks[1..], x, y, z);
      ThinsNext(lines, breaks, x, y, z);
    } else {
      ThinnedSelf(lines);
    }
  }

  lemma LeftCons(sep: Break, breaks: seq<Break>, n: nat)
    requires Left(breaks, n) && sep.Turn() >= n
    ensures Left([sep] + breaks, n)
  {
  }

  lemma LeftTwo(breaks: seq<Break>, n: nat)
    requires |breaks| >= 2 && Left(breaks, n)
    ensures Left(breaks[2..], n)
  {
  }

  lemma LeftPair(lines: seq<string>, breaks: seq<Break>, x: Break, y: Break, z: Break, n: nat)
    requires |lines| == |breaks| + 1 && Joined(lines, breaks, x, y) && z.Turn() >= n
    requires Left(Merged(lines[2..], breaks[2..], x, y, z).breaks, n)
    ensures Left(Merged(lines, breaks, x, y, z).breaks, n)
  {
    MergedPair(lines, breaks, x, y, z);
    LeftCons(z, Merged(lines[2..], breaks[2..], x, y, z).breaks, n);
  }

  lemma LeftNext(lines: seq<string>, breaks: seq<Break>, x: Break, y: Break, z: Break, n: nat)
    requires |lines| == |breaks| + 1 && breaks != [] && !Joined(lines, breaks, x, y) && breaks[0].Turn() >= n
    requires Left(Merged(lines[1..], breaks[1..], x, y, z).breaks, n)
    ensures Left(Merged(lines, breaks, x, y, z).breaks, n)
  {
    MergedNext(lines, breaks, x, y, z);
    LeftCons(breaks[0], Merged(lines[1..], breaks[1..], x, y, z).breaks, n);
  }

  lemma {:induction false} MergedLeft(lines: seq<string>, breaks: seq<Break>, x: Break, y: Break, z: Break, n: nat)
    requires |lines| == |breaks| + 1 && Left(breaks, n) && z.Turn() >= n
    ensures Left(Merged(lines, breaks, x, y, z).breaks, n)
    decreases |breaks|
  {
    if Joined(lines, breaks, x, y) {
      LeftTwo(breaks, n);
      MergedLeft(lines[2..], breaks[2..], x, y, z, n);
      LeftPair(lines, breaks, x, y, z, n);
    } else if breaks != [] {
      LeftTail(breaks, n);
      MergedLeft(lines[1..], breaks[1..], x, y, z, n);
      LeftNext(lines, breaks, x, y, z, n);
    }
  }

  // ---------- Turning one break after another ----------

  /** The breaks that turn before place `n` are gone. */
  predicate Left(breaks: seq<Break>, n: nat) { forall i | 0 <= i < |breaks| :: breaks[i].Turn() >= n }

  lemma LeftTail(breaks: seq<Break>, n: nat)
    requires breaks != [] && Left(breaks, n)
    ensures Left(breaks[1..], n)
  {
  }

  lemma WeaveStarts(lines: seq<string>, breaks: seq<Break>)
    requires |lines| == |breaks| + 1 && FormLine(lines[0])
    ensures var s := Weave(lines, breaks);
      if lines[0] == "" then (if breaks == [] then s == "" else breaks[0].Written() <= s)
      else s != "" && s[0] != '\n' && (s[0] == '\\' ==> |s| >= 2 && s[1] == '-')
  {
  }

  lemma StartsAt(s: string, from: string, k: nat)
    requires StartsWith(s, from) && k < |from|
    ensures s[k] == from[k]
  {
    assert s[..|from|][k] == s[k];
  }

  /** A text that begins like break `br` but with another break goes on like the rest of `br`. */
  lemma LongerBreak(sep: Break, rest: string, br: Break)
    requires sep.Turn() > br.Turn() && StartsWith(sep.Written() + rest, br.Written())
    ensures (sep.EscapedCR? && br.EscapedCRLF? && |rest| >= 2 && rest[0] == '\\' && rest[1] == 'n')
         || (sep.CR? && br.CRLF? && |rest| >= 1 && rest[0] == '\n')
  {
    var s := sep.Written() + rest;
    StartsAt(s, br.Written(), 0);
    if |br.Written()| > 1 { StartsAt(s, br.Written(), 1); }
    if br.EscapedCRLF? {
      StartsAt(s, br.Written(), 2);
      StartsAt(s, br.Written(), 3);
    }
  }

  /** The pair of breaks whose text begins with that of `br`, if there is one. */
  predicate NoLonger(lines: seq<string>, breaks: seq<Break>, br: Break)
    requires |lines| == |breaks| + 1
  {
    && (br.EscapedCRLF? ==> Free(lines, breaks, EscapedCR, EscapedLF))
    && (br.CRLF? ==> Free(lines, breaks, CR, LF))
  }

  lemma FirstApart(lines: seq<string>, breaks: seq<Break>, br: Break)
    requires |lines| == |breaks| + 1 && breaks != [] && FormLine(lines[1]) && !br.LF?
    requires Left(breaks, br.Turn()) && NoLonger(lines, breaks, br) && breaks[0] != br
    ensures !StartsWith(breaks[0].Written() + Weave(lines[1..], breaks[1..]), br.Written())
  {
    var rest := Weave(lines[1..], breaks[1..]);
    if StartsWith(breaks[0].Written() + rest, br.Written()) {
      LongerBreak(breaks[0], rest, br);
      WeaveStarts(lines[1..], breaks[1..]);
    }
  }

  lemma {:induction false} AllApart(lines: seq<string>, breaks: seq<Break>, br: Break)
    requires |lines| == |breaks| + 1 && FormLines(lines) && !br.LF?
    requires Left(breaks, br.Turn()) && NoLonger(lines, breaks, br)
    ensures Apart(lines, breaks, br)
  {
    if breaks != [] {
      assert lines[1] in lines && forall l | l in lines[1..] :: l in lines;
      LeftTail(breaks, br.Turn());
      AllApart(lines[1..], breaks[1..], br);
      if breaks[0] != br { FirstApart(lines, breaks, br); }
    }
  }

  lemma {:induction false} TurnedAt(breaks: seq<Break>, br: Break, i: nat)
    requires i < |breaks|
    ensures Turned(breaks, br)[i] == if breaks[i] == br then LF else breaks[i]
  {
    if i > 0 { TurnedAt(breaks[1..], br, i - 1); }
  }

  lemma TurnedLeft(breaks: seq<Break>, br: Break)
    requires Left(breaks, br.Turn()) && !br.LF?
    ensures Left(Turned(breaks, br), br.Turn() + 1)
  {
    forall i | 0 <= i < |breaks|
      ensures Turned(breaks, br)[i].Turn() >= br.Turn() + 1
    {
      TurnedAt(breaks, br, i);
    }
  }

  lemma Turning(lines: seq<string>, breaks: seq<Break>, br: Break) returns (after: seq<Break>)
    requires |lines| == |breaks| + 1 && FormLines(lines) && !br.LF?
    requires Left(breaks, br.Turn()) && NoLonger(lines, breaks, br)
    ensures |lines| == |after| + 1 && Left(after, br.Turn() + 1)
    ensures Replace(Weave(lines, breaks), br.Written(), "\n") == Weave(lines, after)
  {
    AllApart(lines, breaks, br);
    ReplaceTurns(lines, breaks, br);
    TurnedLeft(breaks, br);
    after := Turned(breaks, br);
  }

  lemma TwoSteps(a: string, b: string, c: string)
    ensures a + (b + c) == a + b + c
  {
  }

  lemma {:induction false} AllLineFeeds(lines: seq<string>, breaks: seq<Break>)
    requires |lines| == |breaks| + 1 && Left(breaks, LF.Turn())
    ensures Weave(lines, breaks) == Join(lines, "\n")
  {
    if breaks != [] {
      assert breaks[0].LF?;
      LeftTail(breaks, LF.Turn());
      AllLineFeeds(lines[1..], breaks[1..]);
      TwoSteps(lines[0], "\n", Join(lines[1..], "\n"));
    }
  }

  lemma FormLinesThinned(kept: seq<string>, lines: seq<string>)
    requires Thinned(kept, lines) && FormLines(lines)
    ensures FormLines(kept)
  {
    ThinnedMembers(kept, lines);
  }

  lemma MergedLines(lines: seq<string>, breaks: seq<Break>, x: Break, y: Break, z: Break)
    requires |lines| == |breaks| + 1 && FormLines(lines)
    ensures var kept := Merged(lines, breaks, x, y, z).lines; Thinned(kept, lines) && FormLines(kept)
  {
    MergedThins(lines, breaks, x, y, z);
    FormLinesThinned(Merged(lines, breaks, x, y, z).lines, lines);
  }

  /** The escaped breaks turn first; a carriage return and what has become a line feed after it
      then read as one break. */
  lemma EscapesTurned(lines: seq<string>, breaks: seq<Break>) returns (w: Woven)
    requires |lines| == |breaks| + 1 && FormLines(lines)
    ensures w.Fits() && Thinned(w.lines, lines) && FormLines(w.lines) && Left(w.breaks, CRLF.Turn())
    ensures Weave(w.lines, w.breaks)
         == Replace(Replace(Replace(Weave(lines, breaks), "\\r\\n", "\n"), "\\n", "\n"), "\\r", "\n")
  {
    w := Merged(lines, breaks, EscapedCR, EscapedLF, EscapedCRLF);
    MergedWeave(lines, breaks, EscapedCR, EscapedLF, EscapedCRLF);
    MergedFree(lines, breaks, EscapedCR, EscapedLF, EscapedCRLF);
    MergedLines(lines, breaks, EscapedCR, EscapedLF, EscapedCRLF);
    var b1 := Turning(w.lines, w.breaks, EscapedCRLF);
    var b2 := Turning(w.lines, b1, EscapedLF);
    var b3 := Turning(w.lines, b2, EscapedCR);
    w := Woven(w.lines, b3);
  }

  lemma ReturnsTurned(lines: seq<string>, breaks: seq<Break>) returns (kept: seq<string>)
    requires |lines| == |breaks| + 1 && FormLines(lines) && Left(breaks, CRLF.Turn())
    ensures Thinned(kept, lines) && FormLines(kept)
    ensures Join(kept, "\n") == Replace(Replace(Weave(lines, breaks), "\r\n", "\n"), "\r", "\n")
  {
    var w := Merged(lines, breaks, CR, LF, CRLF);
    MergedWeave(lines, breaks, CR, LF, CRLF);
    MergedFree(lines, breaks, CR, LF, CRLF);
    MergedLines(lines, breaks, CR, LF, CRLF);
    MergedLeft(lines, breaks, CR, LF, CRLF, CRLF.Turn());
    kept := w.lines;
    var b1 := Turning(kept, w.breaks, CRLF);
    var b2 := Turning(kept, b1, CR);
    AllLineFeeds(kept, b2);
  }

  /** Whatever breaks a form uses, unescaping leaves line feeds, and at most empty lines are lost. */
  lemma UnescapedForm(lines: seq<string>, breaks: seq<Break>) returns (kept: seq<string>)
    requires |lines| == |breaks| + 1 && FormLines(lines)
    ensures Thinned(kept, lines) && FormLines(kept) && Unescaped(Weave(lines, breaks)) == Join(kept, "\n")
  {
    var w := EscapesTurned(lines, breaks);
    kept := ReturnsTurned(w.lines, w.breaks);
    ThinnedTwice(kept, w.lines, lines);
  }

  // ---------- Whole forms ----------

  /** A line of the body as a form may hold it: white space anywhere, but no break. */
  predicate Spaced(line: string) {
    forall c | c in line :: c != '\n' && c != '\r' && (Base64Char(c) || White(c))
  }

  predicate AllSpaced(lines: seq<string>) { forall l | l in lines :: Spaced(l) }

  predicate Blank(s: string) { forall c | c in s :: White(c) }

  /** No line of the text holds the pattern. */
  predicate Lacks(lines: seq<string>, pat: string) { forall l | l in lines :: !Occurs(l, pat) }

  /** Lines of text around a block of this kind: before it there is no other opening fence of its
      kind, and around an RSA block none of a plain one. */
  predicate Around(head: seq<string>, tail: seq<string>, kind: string) {
    && (forall l | l in head :: NoBreak(l)) && (forall l | l in tail :: NoBreak(l)) && Lacks(head, Begin(kind))
    && (kind == "RSA PRIVATE KEY" ==> Lacks(head, Begin("PRIVATE KEY")) && Lacks(tail, Begin("PRIVATE KEY")))
  }

  predicate Unassigned(s: string) { !StartsWith(Upper(s), "OCI_API_KEY") }

  predicate Unquoted(s: string) {
    |s| >= 2 ==> !(s[0] == s[|s| - 1] == '"') && !(s[0] == s[|s| - 1] == '\'')
  }

  /** How a key may be written down: with lines of text before and after its block, with blanks
      around it all, as an assignment with blanks around its sign, in quotes, with escaped fences,
      and with a break of its own after each line. Text around the block that is not in quotes
      must not look like blanks, quotes or an assignment itself. */
  datatype Form = Form(before: string, after: string, assignment: Option<string>, gap: string, gap2: string,
                       quote: string, escapedFences: bool, head: seq<string>, tail: seq<string>, breaks: seq<Break>)
  {
    predicate Allowed(kind: string, lines: seq<string>) {
      && Blank(before) && Blank(after) && Blank(gap) && Blank(gap2)
      && (assignment.Some? ==> Upper(assignment.value) == "OCI_API_KEY")
      && (quote == "" || quote == "\"" || quote == "'")
      && Around(head, tail, kind) && |breaks| == |head| + |lines| + |tail| + 1
      && (quote == "" && head + tail != [] ==>
            var text := Block(kind, lines);
            SolidEnds(text) && Unquoted(text) && (assignment.Some? || Unassigned(text)))
    }

    function Fence(text: string): string { if escapedFences then "\\" + text else text }

    function AllLines(kind: string, lines: seq<string>): seq<string> {
      head + [Fence(Begin(kind))] + (lines + [Fence(End(kind))] + tail)
    }

    function Block(kind: string, lines: seq<string>): string
      requires |breaks| == |head| + |lines| + |tail| + 1
    {
      Weave(AllLines(kind, lines), breaks)
    }

    function Core(kind: string, lines: seq<string>): string
      requires |breaks| == |head| + |lines| + |tail| + 1
    {
      quote + Block(kind, lines) + quote
    }

    function Written(kind: string, lines: seq<string>): string
      requires |breaks| == |head| + |lines| + |tail| + 1
    {
      before + ((if assignment.Some? then assignment.value + gap + "=" + gap2 else "") + Core(kind, lines)) + after
    }
  }

  predicate SolidEnds(s: string) {
    s != "" && Solid(s[0]) && Solid(s[|s| - 1])
  }

  lemma {:induction false} TrimAround(before: string, s: string, after: string)
    requires SolidEnds(s)
    requires Blank(before) && Blank(after)
    ensures Trim(before + s + after, White) == s
    decreases |before| + |after|
  {
    var t := before + s + after;
    if before != "" {
      assert t[1..] == before[1..] + s + after;
      TrimAround(before[1..], s, after);
    } else {
      TrimEndAround(s, after);
      assert t == s + after;
    }
  }

  lemma {:induction false} TrimEndAround(s: string, after: string)
    requires SolidEnds(s) && Blank(after)
    ensures TrimEnd(s + after, White) == s
  {
    if after == "" {
      assert s + after == s;
    } else {
      assert (s + after)[..|s + after| - 1] == s + after[..|after| - 1];
      TrimEndAround(s, after[..|after| - 1]);
    }
  }

  lemma KeyName(name: string)
    requires Upper(name) == "OCI_API_KEY"
    ensures |name| == 11 && SolidEnds(name) && '=' !in name
  {
    assert |name| == |Upper(name)| == 11;
    forall i | 0 <= i < 11
      ensures name[i] != '=' && Solid(name[i])
    {
      assert UpperChar(name[i]) == Upper(name)[i] == "OCI_API_KEY"[i];
      KeyNameLetters(i);
    }
  }

  lemma DropsAssignment(name: string, gap: string, gap2: string, s: string)
    requires Upper(name) == "OCI_API_KEY" && SolidEnds(s) && Blank(gap) && Blank(gap2)
    ensures DropAssignment(name + gap + "=" + gap2 + s) == s
  {
    var head, tail := name + gap, gap2 + s;
    var key := name + gap + "=" + gap2 + s;
    assert key == head + "=" + tail;
    KeyName(name);
    assert Upper(key)[..11] == Upper(name);
    FindAfterClean(head, "=", tail);
    assert key[..|head|] == head && key[|head| + 1..] == tail;
    TrimAround("", name, gap);
    TrimAround(gap2, s, "");
    assert "" + name + gap == head && gap2 + s + "" == tail;
  }

  lemma KeyNameLetters(i: nat)
    requires i < 11
    ensures 'A' <= "OCI_API_KEY"[i] <= '_'
  {
    assert "OCI_API_KEY" == ['O', 'C', 'I', '_', 'A', 'P', 'I', '_', 'K', 'E', 'Y'];
  }

  /** The core is not wrapped in anything but its own quotes. */
  lemma CoreEnds(f: Form, kind: string, lines: seq<string>)
    requires kind in KINDS && f.Allowed(kind, lines)
    ensures SolidEnds(f.Core(kind, lines)) && (f.assignment.Some? || Unassigned(f.Core(kind, lines)))
    ensures DropQuotes(f.Core(kind, lines)) == f.Block(kind, lines)
  {
    var text := f.Block(kind, lines);
    if f.quote != "" {
      QuotedEnds(text, f.quote);
    } else {
      assert f.Core(kind, lines) == text;
      if f.head + f.tail == [] {
        LoneBlockEnds(f, kind, lines);
        DashesUnwrapped(text);
      }
    }
  }

  /** With no text around it the block runs from fence to fence. */
  lemma LoneBlockEnds(f: Form, kind: string, lines: seq<string>)
    requires kind in KINDS && f.Allowed(kind, lines) && f.head + f.tail == []
    ensures var text := f.Block(kind, lines);
      text != "" && (text[0] == '-' || text[0] == '\\') && text[|text| - 1] == '-'
  {
    var all := f.AllLines(kind, lines);
    PlainFences(kind);
    assert f.head == [] && f.tail == [];
    assert all[0] == f.Fence(Begin(kind)) && all[|all| - 1] == f.Fence(End(kind));
    WeaveEnds(all, f.breaks);
  }

  lemma DashesUnwrapped(text: string)
    requires text != "" && (text[0] == '-' || text[0] == '\\') && text[|text| - 1] == '-'
    ensures SolidEnds(text) && Unassigned(text) && DropQuotes(text) == text
  {
    StartsApart(text);
  }

  lemma StartsApart(text: string)
    requires text != "" && UpperChar(text[0]) != 'O'
    ensures Unassigned(text)
  {
    if |text| >= 11 { assert Upper(text)[..11][0] == UpperChar(text[0]); }
  }

  lemma QuotedEnds(text: string, quote: string)
    requires quote == "\"" || quote == "'"
    ensures var core := quote + text + quote;
      SolidEnds(core) && Unassigned(core) && DropQuotes(core) == text
  {
    var core := quote + text + quote;
    StartsApart(core);
    assert core[1..|core| - 1] == text;
  }

  lemma WeaveEnds(parts: seq<string>, breaks: seq<Break>)
    requires |parts| == |breaks| + 1 && parts[0] != "" && parts[|parts| - 1] != ""
    ensures var s := Weave(parts, breaks); var last := parts[|parts| - 1];
      s != "" && s[0] == parts[0][0] && s[|s| - 1] == last[|last| - 1]
  {
    var lead := WeaveLast(parts, breaks);
    assert Weave(parts, breaks)[0] == parts[0][0];
  }

  lemma {:induction false} WeaveLast(parts: seq<string>, breaks: seq<Break>) returns (lead: string)
    requires |parts| == |breaks| + 1
    ensures Weave(parts, breaks) == lead + parts[|parts| - 1]
  {
    if breaks == [] {
      lead := "";
    } else {
      var rest := WeaveLast(parts[1..], breaks[1..]);
      lead := parts[0] + breaks[0].Written() + rest;
      Regroup(parts[0], breaks[0].Written(), rest, parts[|parts| - 1]);
    }
  }

  lemma Regroup(a: string, b: string, c: string, d: string)
    ensures a + (b + (c + d)) == a + b + c + d
  {
  }

  lemma AssignedEnds(name: string, sign: string, core: string)
    requires Upper(name) == "OCI_API_KEY" && SolidEnds(core)
    ensures SolidEnds(name + sign + core)
  {
    KeyName(name);
  }

  lemma AssignedForm(before: string, name: string, gap: string, gap2: string, core: string, after: string)
    requires Upper(name) == "OCI_API_KEY" && SolidEnds(core)
    requires Blank(before) && Blank(after) && Blank(gap) && Blank(gap2)
    ensures DropAssignment(Trim(before + (name + gap + "=" + gap2 + core) + after, White)) == core
  {
    var whole := name + gap + "=" + gap2 + core;
    assert whole == name + (gap + "=" + gap2) + core;
    AssignedEnds(name, gap + "=" + gap2, core);
    TrimAround(before, whole, after);
    DropsAssignment(name, gap, gap2, core);
  }

  lemma BareForm(before: string, core: string, after: string)
    requires SolidEnds(core) && Unassigned(core) && Blank(before) && Blank(after)
    ensures DropAssignment(Trim(before + ("" + core) + after, White)) == core
  {
    assert "" + core == core;
    TrimAround(before, core, after);
  }

  lemma UnwrappedForm(f: Form, kind: string, lines: seq<string>)
    requires kind in KINDS && f.Allowed(kind, lines)
    ensures DropQuotes(DropAssignment(Trim(f.Written(kind, lines), White))) == f.Block(kind, lines)
  {
    var core := f.Core(kind, lines);
    CoreEnds(f, kind, lines);
    if f.assignment.Some? {
      AssignedForm(f.before, f.assignment.value, f.gap, f.gap2, core, f.after);
    } else {
      BareForm(f.before, core, f.after);
    }
  }

  lemma CleanFence(f: Form, kind: string)
    requires kind in KINDS
    ensures CleanLine(f.Fence(Begin(kind))) == Begin(kind) && CleanLine(f.Fence(End(kind))) == End(kind)
    ensures FormLine(f.Fence(Begin(kind))) && FormLine(f.Fence(End(kind)))
  {
    PlainFences(kind);
    if f.escapedFences {
      EscapedFence(Begin(kind), "-----BEGIN ", kind);
      EscapedFence(End(kind), "-----END ", kind);
    } else {
      PlainLineUntouched(Begin(kind));
      PlainLineUntouched(End(kind));
    }
  }

  lemma EscapedFence(fence: string, lead: string, kind: string)
    requires kind in KINDS && fence == lead + kind + "-----"
    requires lead == "-----BEGIN " || lead == "-----END "
    ensures CleanLine("\\" + fence) == fence
  {
    KindLast(lead, kind);
    FenceStarts("\\", lead, kind, "-----");
    DropsBackslash(fence, "\\" + lead);
  }

  lemma FenceStarts(backslash: string, lead: string, kind: string, dashes: string)
    ensures StartsWith(backslash + (lead + kind + dashes), backslash + lead)
  {
    assert backslash + (lead + kind + dashes) == backslash + lead + (kind + dashes);
  }

  lemma KindLast(lead: string, kind: string)
    requires kind in KINDS
    ensures Occurs("\\" + (lead + kind + "-----"), "PRIVATE KEY-----")
  {
    if kind == KINDS[0] {
      FenceName("\\" + lead, "\\" + (lead + kind + "-----"));
    } else {
      assert kind == "RSA " + KINDS[0];
      FenceName("\\" + lead + "RSA ", "\\" + (lead + kind + "-----"));
    }
  }

  lemma FenceName(prefix: string, line: string)
    requires line == prefix + (KINDS[0] + "-----")
    ensures Occurs(line, "PRIVATE KEY-----")
  {
    EndOccurs(prefix, "PRIVATE KEY-----");
    assert KINDS[0] + "-----" == "PRIVATE KEY-----";
  }

  lemma DropsBackslash(fence: string, start: string)
    requires start == "\\-----BEGIN " || start == "\\-----END "
    requires StartsWith("\\" + fence, start) && Occurs("\\" + fence, "PRIVATE KEY-----")
    ensures CleanLine("\\" + fence) == fence
  {
    assert TrimStart("\\" + fence, White) == "\\" + fence;
  }

  lemma EndOccurs(prefix: string, pat: string)
    ensures Occurs(prefix + pat, pat)
  {
    assert OccursAt(prefix + pat, pat, |prefix|);
  }

  lemma PlainAreFormLines(head: seq<string>, lines: seq<string>, tail: seq<string>)
    requires AllSpaced(lines) && (forall l | l in head :: NoBreak(l)) && (forall l | l in tail :: NoBreak(l))
    ensures FormLines(head) && FormLines(lines) && FormLines(tail)
    ensures CleanLines(head) == head && CleanLines(lines) == lines && CleanLines(tail) == tail
  {
    forall l | l in lines
      ensures FormLine(l) && '\\' !in l
    {
      SpacedLine(l);
    }
    PlainLinesUntouched(head);
    PlainLinesUntouched(lines);
    PlainLinesUntouched(tail);
  }

  lemma FormLinesAround(head: seq<string>, first: string, lines: seq<string>, last: string, tail: seq<string>)
    requires FormLines(head) && FormLines(lines) && FormLines(tail) && FormLine(first) && FormLine(last)
    ensures FormLines(head + [first] + (lines + [last] + tail))
  {
  }

  /** The lines of a form, whatever is left of the empty ones, and what cleaning makes of them. */
  lemma CleanedLines(f: Form, kind: string, head: seq<string>, lines: seq<string>, tail: seq<string>)
    requires kind in KINDS && AllSpaced(lines)
    requires (forall l | l in head :: NoBreak(l)) && (forall l | l in tail :: NoBreak(l))
    ensures var all := head + [f.Fence(Begin(kind))] + (lines + [f.Fence(End(kind))] + tail);
      && FormLines(all)
      && CleanLines(all) == head + [Begin(kind)] + (lines + [End(kind)] + tail)
  {
    var first, last := f.Fence(Begin(kind)), f.Fence(End(kind));
    CleanFence(f, kind);
    PlainAreFormLines(head, lines, tail);
    FormLinesAround(head, first, lines, last, tail);
    CleanAround(head, first, lines + [last] + tail);
    CleanAround(lines, last, tail);
  }

  lemma CleanAround(a: seq<string>, line: string, b: seq<string>)
    ensures CleanLines(a + [line] + b) == CleanLines(a) + [CleanLine(line)] + CleanLines(b)
  {
    CleanConcat(a + [line], b);
    CleanConcat(a, [line]);
  }

  lemma SpacedLine(l: string)
    requires Spaced(l)
    ensures FormLine(l) && '\\' !in l && '-' !in l
  {
  }

  lemma {:induction false} CleanConcat(a: seq<string>, b: seq<string>)
    ensures CleanLines(a + b) == CleanLines(a) + CleanLines(b)
  {
    if a == [] {
      assert a + b == b;
    } else {
      assert (a + b)[1..] == a[1..] + b;
      CleanConcat(a[1..], b);
    }
  }

  /** Cutting the text into lines again loses at most a last empty one. */
  lemma LinesOfForm(all: seq<string>)
    requires FormLines(all)
    ensures Thinned(Lines(Join(all, "\n")), all)
  {
    if all != [] {
      SplitJoin(all, '\n');
      if all[|all| - 1] == "" { ThinnedLast(all); } else { ThinnedSelf(all); }
    }
  }

  lemma SpacedThinned(kept: seq<string>, lines: seq<string>)
    requires Thinned(kept, lines) && AllSpaced(lines)
    ensures AllSpaced(kept)
  {
    ThinnedMembers(kept, lines);
  }

  /** What unwrapping makes of a form: its lines, of which some empty ones may be gone. */
  lemma PreparedForm(f: Form, kind: string, lines: seq<string>)
    returns (head: seq<string>, mid: seq<string>, tail: seq<string>)
    requires kind in KINDS && f.Allowed(kind, lines) && AllSpaced(lines)
    ensures Thinned(head, f.head) && Thinned(mid, lines) && Thinned(tail, f.tail)
    ensures Prepared(f.Written(kind, lines)) == Join(head + [Begin(kind)] + (mid + [End(kind)] + tail), "\n")
  {
    var all := f.AllLines(kind, lines);
    UnwrappedForm(f, kind, lines);
    CleanedLines(f, kind, f.head, lines, f.tail);
    var kept := UnescapedForm(all, f.breaks);
    LinesOfForm(kept);
    ThinnedTwice(Lines(Join(kept, "\n")), kept, all);
    head, mid, tail := ThinnedForm(f, kind, lines, Lines(Join(kept, "\n")));
    NoBreakThinned(head, f.head);
    NoBreakThinned(tail, f.tail);
    SpacedThinned(mid, lines);
    CleanedLines(f, kind, head, mid, tail);
  }

  lemma NoBreakThinned(kept: seq<string>, lines: seq<string>)
    requires Thinned(kept, lines) && forall l | l in lines :: NoBreak(l)
    ensures forall l | l in kept :: NoBreak(l)
  {
    ThinnedMembers(kept, lines);
  }

  lemma ThinnedForm(f: Form, kind: string, lines: seq<string>, kept: seq<string>)
    returns (head: seq<string>, mid: seq<string>, tail: seq<string>)
    requires kind in KINDS && Thinned(kept, f.AllLines(kind, lines))
    ensures Thinned(head, f.head) && Thinned(mid, lines) && Thinned(tail, f.tail)
    ensures kept == head + [f.Fence(Begin(kind))] + (mid + [f.Fence(End(kind))] + tail)
  {
    PlainFences(kind);
    var rest;
    head, rest := ThinnedAround(kept, f.head, f.Fence(Begin(kind)), lines + [f.Fence(End(kind))] + f.tail);
    mid, tail := ThinnedAround(rest, lines, f.Fence(End(kind)), f.tail);
  }

  // ---------- Reading a block between other lines ----------

  /** A match that holds no line break lies before a break or after it. */
  lemma BreakSeparates(a: string, b: string, pat: string, k: nat)
    requires pat != "" && '\n' !in pat && OccursAt(a + "\n" + b, pat, k)
    ensures OccursAt(a, pat, k) || (k > |a| && OccursAt(b, pat, k - |a| - 1))
  {
    var s := a + "\n" + b;
    assert s[|a|] == '\n';
    forall i | k <= i < k + |pat|
      ensures s[i] in pat
    {
      assert s[k..k + |pat|][i - k] == s[i];
    }
    if k + |pat| <= |a| {
      assert a[k..k + |pat|] == s[k..k + |pat|];
    } else if k > |a| {
      assert b[k - |a| - 1..k - |a| - 1 + |pat|] == s[k..k + |pat|];
    }
  }

  lemma {:induction false} OccursInLine(lines: seq<string>, pat: string, k: nat)
    requires pat != "" && '\n' !in pat && OccursAt(Join(lines, "\n"), pat, k)
    ensures !Lacks(lines, pat)
  {
    if |lines| == 1 {
      assert lines[0] in lines && Occurs(lines[0], pat);
    } else if |lines| > 1 {
      BreakSeparates(lines[0], Join(lines[1..], "\n"), pat, k);
      if OccursAt(lines[0], pat, k) {
        assert lines[0] in lines && Occurs(lines[0], pat);
      } else {
        OccursInLine(lines[1..], pat, k - |lines[0]| - 1);
        assert forall l | l in lines[1..] :: l in lines;
      }
    }
  }

  lemma LacksThinned(kept: seq<string>, lines: seq<string>, pat: string)
    requires Thinned(kept, lines) && Lacks(lines, pat)
    ensures Lacks(kept, pat)
  {
    ThinnedMembers(kept, lines);
  }

  function Before(lines: seq<string>): string { if lines == [] then "" else Join(lines, "\n") + "\n" }

  function After(lines: seq<string>): string { if lines == [] then "" else "\n" + Join(lines, "\n") }

  lemma JoinBefore(lines: seq<string>, rest: seq<string>)
    requires rest != []
    ensures Join(lines + rest, "\n") == Before(lines) + Join(rest, "\n")
  {
    if lines == [] { assert lines + rest == rest; } else { JoinConcat(lines, rest, "\n"); }
  }

  lemma JoinAfter(line: string, lines: seq<string>)
    ensures Join([line] + lines, "\n") == line + After(lines)
  {
    assert ([line] + lines)[1..] == lines;
  }

  lemma AroundText(text: string, last: string, after: string)
    ensures "\n" + ((text + "\n") + (last + after)) == ("\n" + text + "\n") + last + after
  {
  }

  lemma AfterFence(mid: seq<string>, last: string, tail: seq<string>)
    requires mid != []
    ensures After(mid + [last] + tail) == ("\n" + Join(mid, "\n") + "\n") + last + After(tail)
  {
    assert mid + [last] + tail == mid + ([last] + tail);
    JoinBefore(mid, [last] + tail);
    JoinAfter(last, tail);
    AroundText(Join(mid, "\n"), last, After(tail));
  }

  lemma JoinAround(head: seq<string>, first: string, mid: seq<string>, last: string, tail: seq<string>)
    requires mid != []
    ensures Join(head + [first] + (mid + [last] + tail), "\n") ==
      Before(head) + (first + (("\n" + Join(mid, "\n") + "\n") + last + After(tail)))
  {
    var rest := mid + [last] + tail;
    assert head + [first] + rest == head + ([first] + rest);
    JoinBefore(head, [first] + rest);
    JoinAfter(first, rest);
    AfterFence(mid, last, tail);
  }

  /** No match begins in lines that lack the pattern. */
  lemma NoneBefore(lines: seq<string>, rest: string, pat: string, k: nat)
    requires pat != "" && '\n' !in pat && Lacks(lines, pat) && k < |Before(lines)|
    ensures !OccursAt(Before(lines) + rest, pat, k)
  {
    var text := Join(lines, "\n");
    assert Before(lines) + rest == text + "\n" + rest;
    if OccursAt(Before(lines) + rest, pat, k) {
      BreakSeparates(text, rest, pat, k);
      OccursInLine(lines, pat, k);
    }
  }

  lemma FirstFence(head: seq<string>, pat: string, rest: string)
    requires pat != "" && '\n' !in pat && Lacks(head, pat)
    ensures Find(Before(head) + (pat + rest), pat) == Some(|Before(head)|)
  {
    var pre := Before(head);
    forall k | 0 <= k < |pre|
      ensures !OccursAt(pre + (pat + rest), pat, k)
    {
      NoneBefore(head, pat + rest, pat, k);
    }
    FirstAt(pre + (pat + rest), pat, |pre|);
  }

  lemma BlockBetween(head: seq<string>, kind: string, mid: string, after: string)
    requires kind in KINDS && Lacks(head, Begin(kind)) && '-' !in mid
    ensures Fenced(Before(head) + (Begin(kind) + (mid + End(kind) + after)), kind) == Some(mid)
  {
    var pre, rest := Before(head), mid + End(kind) + after;
    PlainFences(kind);
    FirstFence(head, Begin(kind), rest);
    assert (pre + (Begin(kind) + rest))[|pre| + |Begin(kind)|..] == rest;
    FindAfterClean(mid, End(kind), after);
    assert rest[..|mid|] == mid;
  }

  lemma NoDashNoFence(l: string, kind: string)
    requires '-' !in l && kind in KINDS
    ensures !Occurs(l, Begin(kind))
  {
    PlainFences(kind);
    forall i | 0 <= i <= |l|
      ensures !OccursAt(l, Begin(kind), i)
    {
      if i + |Begin(kind)| <= |l| { assert l[i..i + |Begin(kind)|][0] == l[i]; }
    }
  }

  lemma PartLacks(a: string, s: string, b: string, whole: string, pat: string)
    requires whole == a + s + b && !Occurs(whole, pat)
    ensures !Occurs(s, pat)
  {
    forall i | 0 <= i <= |s|
      ensures !OccursAt(s, pat, i)
    {
      assert !OccursAt(whole, pat, |a| + i);
      assert i + |pat| <= |s| ==> whole[|a| + i..|a| + i + |pat|] == s[i..i + |pat|];
    }
  }

  lemma RsaFencesLack()
    ensures Lacks([Begin(KINDS[1]), End(KINDS[1])], Begin(KINDS[0]))
  {
    var first, last := Begin(KINDS[1]), End(KINDS[1]);
    var whole := first + "\n" + last;
    FencesDiffer("\n");
    assert whole == "" + first + ("\n" + last) && whole == (first + "\n") + last + "";
    PartLacks("", first, "\n" + last, whole, Begin(KINDS[0]));
    PartLacks(first + "\n", last, "", whole, Begin(KINDS[0]));
  }

  /** Around and in an RSA block there is no opening fence of a plain one. */
  lemma NoPlainFence(head: seq<string>, mid: seq<string>, tail: seq<string>)
    requires Lacks(head, Begin(KINDS[0])) && Lacks(tail, Begin(KINDS[0])) && AllSpaced(mid)
    ensures Fenced(Join(head + [Begin(KINDS[1])] + (mid + [End(KINDS[1])] + tail), "\n"), KINDS[0]).None?
  {
    var pat, first, last := Begin(KINDS[0]), Begin(KINDS[1]), End(KINDS[1]);
    var all := head + [first] + (mid + [last] + tail);
    RsaFencesLack();
    MembersLack(head, first, mid, last, tail, pat);
    PlainFences(KINDS[0]);
    FindIsFirst(Join(all, "\n"), pat);
    if Find(Join(all, "\n"), pat).Some? {
      OccursInLine(all, pat, Find(Join(all, "\n"), pat).value);
    }
  }

  lemma MembersLack(head: seq<string>, first: string, mid: seq<string>, last: string, tail: seq<string>, pat: string)
    requires Lacks(head, pat) && Lacks(tail, pat) && Lacks([first, last], pat)
    requires pat == Begin(KINDS[0]) && AllSpaced(mid)
    ensures Lacks(head + [first] + (mid + [last] + tail), pat)
  {
    assert first in [first, last] && last in [first, last];
    forall l | l in mid
      ensures !Occurs(l, pat)
    {
      SpacedLine(l);
      NoDashNoFence(l, KINDS[0]);
    }
  }

  /** The normal form depends on the kind and the body alone: not on how the body was cut into
      lines or spaced out, nor on the breaks, quotes, blanks, assignment or escaped fences, nor on
      the text before and after the block. */
  lemma NormalizeForgetsForm(f: Form, kind: string, lines: seq<string>)
    requires kind in KINDS && AllSpaced(lines) && f.Allowed(kind, lines) && BodyOf(Concat(lines)) != ""
    ensures ReachesPem(f.Written(kind, lines))
    ensures Normalize(f.Written(kind, lines)) == Render(kind, BodyOf(Concat(lines)))
  {
    var head, mid, tail := PreparedForm(f, kind, lines);
    ThinnedConcat(mid, lines);
    SpacedThinned(mid, lines);
    LacksThinned(head, f.head, Begin(kind));
    if kind == KINDS[1] {
      LacksThinned(head, f.head, Begin(KINDS[0]));
      LacksThinned(tail, f.tail, Begin(KINDS[0]));
    }
    ReadLines(head, kind, mid, tail);
  }

  lemma ReadLines(head: seq<string>, kind: string, mid: seq<string>, tail: seq<string>)
    requires kind in KINDS && AllSpaced(mid) && BodyOf(Concat(mid)) != "" && Lacks(head, Begin(kind))
    requires kind == KINDS[1] ==> Lacks(head, Begin(KINDS[0])) && Lacks(tail, Begin(KINDS[0]))
    ensures Read(Join(head + [Begin(kind)] + (mid + [End(kind)] + tail), "\n"), KINDS) == Pem(kind, BodyOf(Concat(mid)))
  {
    assert mid != [];
    var text := Join(mid, "\n");
    SpacedBody(mid);
    AroundLines(text);
    JoinAround(head, Begin(kind), mid, End(kind), tail);
    BlockBetween(head, kind, "\n" + text + "\n", After(tail));
    ReadTwo(Join(head + [Begin(kind)] + (mid + [End(kind)] + tail), "\n"));
    if kind == KINDS[1] { NoPlainFence(head, mid, tail); }
  }

  lemma {:induction false} SpacedBody(lines: seq<string>)
    requires AllSpaced(lines)
    ensures '-' !in Join(lines, "\n") && BodyOf(Join(lines, "\n")) == BodyOf(Concat(lines))
    ensures Base64(BodyOf(Concat(lines)))
  {
    if lines != [] {
      var rest := lines[1..];
      assert lines[0] in lines && forall l | l in rest :: l in lines;
      SpacedBody(rest);
      SpacedLine(lines[0]);
      FilterMembers(lines[0], Solid);
      FilterConcat(lines[0], Concat(rest), Solid);
      if rest == [] {
        assert lines[0] + "" == lines[0];
      } else {
        assert lines[0] + "\n" + Join(rest, "\n") == lines[0] + ("\n" + Join(rest, "\n"));
        FilterConcat(lines[0], "\n" + Join(rest, "\n"), Solid);
        FilterConcat("\n", Join(rest, "\n"), Solid);
        FilterNone("\n", Solid);
      }
    }
  }

  // ---------- What is left alone ----------

  /** The 25 characters that count as white space. */
  lemma WhiteIff(c: char)
    ensures White(c) <==>
      c as int in {9, 10, 11, 12, 13, 0x20, 0x85, 0xA0, 0x1680, 0x2000, 0x2001, 0x2002, 0x2003, 0x2004, 0x2005,
                   0x2006, 0x2007, 0x2008, 0x2009, 0x200A, 0x2028, 0x2029, 0x202F, 0x205F, 0x3000}
  {
  }

  /** The characters of Base64 (section 4 of RFC 4648) and its padding. */
  lemma Base64Iff(c: char)
    ensures Base64Char(c) <==>
      c in {'A', 'B', 'C', 'D', 'E', 'F', 'G', 'H', 'I', 'J', 'K', 'L', 'M', 'N', 'O', 'P', 'Q', 'R', 'S',
            'T', 'U', 'V', 'W', 'X', 'Y', 'Z', 'a', 'b', 'c', 'd', 'e', 'f', 'g', 'h', 'i', 'j', 'k', 'l',
            'm', 'n', 'o', 'p', 'q', 'r', 's', 't', 'u', 'v', 'w', 'x', 'y', 'z', '0', '1', '2', '3', '4',
            '5', '6', '7', '8', '9', '+', '/', '='}
  {
  }

  /** The name may be written in either case. */
  lemma UpperEach(s: string, i: nat)
    requires i < |s|
    ensures Upper(s)[i] == if 'a' <= s[i] <= 'z' then 'A' + (s[i] - 'a') else s[i]
  {
  }

  /** An assignment, by positions: the name, in either case, then blanks, then the sign at `k`. */
  predicate Assigns(key: string, k: nat) {
    11 <= k < |key| && Upper(key[..11]) == "OCI_API_KEY" && Blank(key[11..k]) && key[k] == '='
  }

  lemma {:induction false} TrimEndPrefix(s: string)
    ensures var t := TrimEnd(s, White); t <= s && Blank(s[|t|..])
  {
    if s != "" && White(s[|s| - 1]) {
      var front := s[..|s| - 1];
      TrimEndPrefix(front);
      assert s[|TrimEnd(front, White)|..] == front[|TrimEnd(front, White)|..] + [s[|s| - 1]];
    }
  }

  /** The text after the sign is taken, without the blanks around it, exactly from an assignment. */
  lemma AssignmentIff(key: string, k: nat)
    ensures Assigns(key, k) ==> DropAssignment(key) == Trim(key[k + 1..], White)
    ensures (forall j: nat :: !Assigns(key, j)) ==> DropAssignment(key) == key
  {
    if Assigns(key, k) { AssignedAt(key, k); }
    if DropAssignment(key) != key {
      var j := SignOf(key);
      assert Assigns(key, j);
    }
  }

  lemma AssignedAt(key: string, k: nat)
    requires Assigns(key, k)
    ensures DropAssignment(key) == Trim(key[k + 1..], White)
  {
    var name, gap := key[..11], key[11..k];
    KeyName(name);
    assert key[..k] == name + gap && key == (name + gap) + "=" + key[k + 1..];
    FindAfterClean(name + gap, "=", key[k + 1..]);
    TrimAround("", name, gap);
    assert "" + name + gap == name + gap && Upper(key)[..11] == Upper(name);
  }

  lemma SignOf(key: string) returns (k: nat)
    requires DropAssignment(key) != key
    ensures Assigns(key, k)
  {
    FindIsFirst(key, "=");
    k := Find(key, "=").value;
    assert key[k..k + 1] == "=";
    SignAt(key, k);
  }

  lemma SignAt(key: string, k: nat)
    requires k < |key| && key[k] == '=' && StartsWith(Upper(key), "OCI_API_KEY")
    requires Upper(Trim(key[..k], White)) == "OCI_API_KEY"
    ensures Assigns(key, k)
  {
    assert UpperChar(key[0]) == Upper(key)[..11][0] == 'O';
    var front := key[..k];
    var name := Trim(front, White);
    TrimEndPrefix(TrimStart(front, White));
    assert |name| == |Upper(name)| == 11;
    assert TrimStart(front, White) == front;
    assert name == front[..11] == key[..11] && front[11..] == key[11..k];
  }

  /** Cleaning takes a backslash, with the blanks before it, from a fence of a private key, and
      changes no other line. */
  lemma CleanLineIff(blank: string, line: string)
    requires Blank(blank) && (line == "" || Solid(line[0]))
    ensures CleanLine(blank + line) ==
      if ("\\-----BEGIN " <= line || "\\-----END " <= line)
         && exists k | 0 <= k <= |line| :: OccursAt(line, "PRIVATE KEY-----", k)
      then line[1..] else blank + line
  {
    TrimBlank(blank, line);
  }

  lemma {:induction false} TrimBlank(blank: string, s: string)
    requires Blank(blank) && (s == "" || Solid(s[0]))
    ensures TrimStart(blank + s, White) == s
  {
    if blank == "" {
      assert blank + s == s;
    } else {
      assert (blank + s)[1..] == blank[1..] + s;
      TrimBlank(blank[1..], s);
    }
  }

  /** A text that is not wrapped in anything and holds no block of either kind is its own normal
      form. */
  lemma OtherTextStays(value: string)
    requires SolidEnds(value) && Plain(value) && Unquoted(value) && forall k: nat :: !Assigns(value, k)
    requires !HasBlock(value, "PRIVATE KEY") && !HasBlock(value, "RSA PRIVATE KEY")
    ensures Normalize(value) == value
  {
    UnwrappedStays(value);
    UnescapingPlain(value);
    CleaningPlain(value);
    NothingRead(value);
  }

  lemma UnwrappedStays(value: string)
    requires SolidEnds(value) && Unquoted(value) && forall k: nat :: !Assigns(value, k)
    ensures DropQuotes(DropAssignment(Trim(value, White))) == value
  {
    TrimAround("", value, "");
    assert "" + value + "" == value;
    AssignmentIff(value, 0);
  }

  lemma NothingRead(key: string)
    requires !HasBlock(key, "PRIVATE KEY") && !HasBlock(key, "RSA PRIVATE KEY")
    ensures Read(key, KINDS) == Other
  {
    FencedIff(key, "PRIVATE KEY");
    FencedIff(key, "RSA PRIVATE KEY");
    ReadTwo(key);
  }
}
