/** The tag scanner that reads provider responses (src-tauri/src/lib.rs). */
module XmlBlocks {
  import opened Text

  function Open(tag: string): string { "<" + tag + ">" }

  function Close(tag: string): string { "</" + tag + ">" }

  /** What lies between the first `open` and the first `close` after it, and what follows both. */
  function FirstBlock(body: string, open: string, close: string): (r: Option<(string, string)>)
    requires open != "" && close != ""
    ensures r.Some? ==> |r.value.1| < |body|
  {
    match Find(body, open)
    case None => None
    case Some(start) =>
      var chunk := body[start + |open|..];
      match Find(chunk, close)
      case None => None
      case Some(end) => Some((chunk[..end], chunk[end + |close|..]))
  }

  function BlocksBetween(body: string, open: string, close: string): seq<string>
    requires open != "" && close != ""
    decreases |body|
  {
    match FirstBlock(body, open, close)
    case None => []
    case Some((content, rest)) => [content] + BlocksBetween(rest, open, close)
  }

  function XmlText(body: string, tag: string): string {
    match FirstBlock(body, Open(tag), Close(tag))
    case None => ""
    case Some((content, _)) => content
  }

  function Blocks(body: string, tag: string): seq<string> {
    BlocksBetween(body, Open(tag), Close(tag))
  }

  lemma ScanStep(values: seq<string>, rest: string, open: string, close: string, content: string, next: string)
    requires open != "" && close != "" && FirstBlock(rest, open, close) == Some((content, next))
    ensures values + [content] + BlocksBetween(next, open, close) == values + BlocksBetween(rest, open, close)
  {
  }

  lemma ScanStop(values: seq<string>, rest: string, open: string, close: string)
    requires open != "" && close != "" && FirstBlock(rest, open, close).None?
    ensures values + BlocksBetween(rest, open, close) == values
  {
  }

  /** The two searches of one turn. */
  method NextBlock(rest: string, open: string, close: string) returns (block: Option<(string, string)>)
    requires open != "" && close != ""
    ensures block == FirstBlock(rest, open, close)
  {
    var start := Find(rest, open);
    if start.None? { return None; }
    var chunk := rest[start.value + |open|..];
    var end := Find(chunk, close);
    if end.None? { return None; }
    return Some((chunk[..end.value], chunk[end.value + |close|..]));
  }

  /** The scanning loop; the rest of the body shrinks at every turn. */
  method ScanBlocks(body: string, open: string, close: string) returns (values: seq<string>)
    requires open != "" && close != ""
    ensures values == BlocksBetween(body, open, close)
  {
    values := [];
    var rest := body;
    while true
      invariant values + BlocksBetween(rest, open, close) == BlocksBetween(body, open, close)
      decreases |rest|
    {
      var block := NextBlock(rest, open, close);
      if block.None? { ScanStop(values, rest, open, close); break; }
      var (content, next) := block.value;
      ScanStep(values, rest, open, close, content, next);
      values := values + [content];
      rest := next;
    }
  }

  // ---------- What the scanner means ----------

  /** The printer: contents between `open` and `close`, each after a gap, and then a tail. */
  function Wrapped(gaps: seq<string>, contents: seq<string>, tail: string, open: string, close: string): string
    requires |gaps| == |contents|
  {
    if |gaps| == 0 then tail
    else gaps[0] + open + (contents[0] + close + Wrapped(gaps[1..], contents[1..], tail, open, close))
  }

  /** `body` reads as `contents`: no gap opens an element, no content closes one, and the
      tail holds no complete element. */
  predicate Layout(body: string, open: string, close: string,
                   gaps: seq<string>, contents: seq<string>, tail: string)
    requires open != "" && close != ""
  {
    && |gaps| == |contents|
    && body == Wrapped(gaps, contents, tail, open, close)
    && (forall i | 0 <= i < |gaps| :: !Occurs(gaps[i], open) && !Occurs(contents[i], close))
    && FirstBlock(tail, open, close).None?
  }

  predicate BorderFree(pat: string) {
    pat != "" && pat[0] !in pat[1..]
  }

  lemma FirstBlockOfWrapped(gap: string, content: string, rest: string, open: string, close: string)
    requires BorderFree(open) && BorderFree(close)
    requires !Occurs(gap, open) && !Occurs(content, close)
    ensures FirstBlock(gap + open + (content + close + rest), open, close) == Some((content, rest))
  {
    var chunk := content + close + rest;
    FindBorderFree(gap, open, chunk);
    assert (gap + open + chunk)[|gap| + |open|..] == chunk;
    FindBorderFree(content, close, rest);
    assert chunk[|content| + |close|..] == rest;
    assert chunk[..|content|] == content;
  }

  lemma LayoutTail(body: string, open: string, close: string, gaps: seq<string>, contents: seq<string>, tail: string)
    requires open != "" && close != "" && Layout(body, open, close, gaps, contents, tail) && |gaps| > 0
    ensures var rest := Wrapped(gaps[1..], contents[1..], tail, open, close);
      && body == gaps[0] + open + (contents[0] + close + rest)
      && !Occurs(gaps[0], open) && !Occurs(contents[0], close)
      && Layout(rest, open, close, gaps[1..], contents[1..], tail)
  {
  }

  lemma BlocksCons(body: string, content: string, rest: string, open: string, close: string)
    requires open != "" && close != "" && FirstBlock(body, open, close) == Some((content, rest))
    ensures BlocksBetween(body, open, close) == [content] + BlocksBetween(rest, open, close)
  {
  }

  /** Scanning undoes printing. */
  lemma {:induction false} BlocksOfLayout(body: string, open: string, close: string,
                                          gaps: seq<string>, contents: seq<string>, tail: string)
    requires BorderFree(open) && BorderFree(close)
    requires Layout(body, open, close, gaps, contents, tail)
    ensures BlocksBetween(body, open, close) == contents
    decreases |gaps|
  {
    if |gaps| > 0 {
      var rest := Wrapped(gaps[1..], contents[1..], tail, open, close);
      LayoutTail(body, open, close, gaps, contents, tail);
      FirstBlockOfWrapped(gaps[0], contents[0], rest, open, close);
      BlocksOfLayout(rest, open, close, gaps[1..], contents[1..], tail);
      BlocksCons(body, contents[0], rest, open, close);
      assert contents == [contents[0]] + contents[1..];
    }
  }

  lemma NoneBefore(s: string, pat: string, k: nat)
    requires |pat| > 0 && k <= |s| && forall j | 0 <= j < k :: !OccursAt(s, pat, j)
    ensures !Occurs(s[..k], pat)
  {
    forall j | 0 <= j <= k
      ensures !OccursAt(s[..k], pat, j)
    {
      if j + |pat| <= k {
        assert s[..k][j..j + |pat|] == s[j..j + |pat|];
        assert !OccursAt(s, pat, j);
      }
    }
  }

  /** A first block splits its body into a gap, the block and the rest. */
  lemma FirstBlockSplits(body: string, open: string, close: string) returns (gap: string)
    requires open != "" && close != "" && FirstBlock(body, open, close).Some?
    ensures var (content, rest) := FirstBlock(body, open, close).value;
      body == gap + open + (content + close + rest) && !Occurs(gap, open) && !Occurs(content, close)
  {
    var start := Find(body, open).value;
    var chunk := body[start + |open|..];
    gap := body[..start];
    FindSplits(body, open);
    FindSplits(chunk, close);
  }

  lemma FindSplits(s: string, pat: string)
    requires pat != "" && Find(s, pat).Some?
    ensures var k := Find(s, pat).value; !Occurs(s[..k], pat) && s == s[..k] + pat + s[k + |pat|..]
  {
    FindIsFirst(s, pat);
    NoneBefore(s, pat, Find(s, pat).value);
  }

  /** Every body has a layout, and its contents are what the scanner returns. */
  lemma {:induction false} LayoutOfBlocks(body: string, open: string, close: string)
    returns (gaps: seq<string>, tail: string)
    requires open != "" && close != ""
    ensures Layout(body, open, close, gaps, BlocksBetween(body, open, close), tail)
    decreases |body|
  {
    var first := FirstBlock(body, open, close);
    if first.None? {
      return [], body;
    }
    var (content, rest) := first.value;
    var restGaps;
    restGaps, tail := LayoutOfBlocks(rest, open, close);
    var gap := FirstBlockSplits(body, open, close);
    gaps := [gap] + restGaps;
    LayoutCons(gap, content, rest, open, close, restGaps, BlocksBetween(rest, open, close), tail);
  }

  lemma LayoutCons(gap: string, content: string, rest: string, open: string, close: string,
                   gaps: seq<string>, contents: seq<string>, tail: string)
    requires open != "" && close != ""
    requires Layout(rest, open, close, gaps, contents, tail)
    requires !Occurs(gap, open) && !Occurs(content, close)
    ensures Layout(gap + open + (content + close + rest), open, close, [gap] + gaps, [content] + contents, tail)
  {
    var gs, cs := [gap] + gaps, [content] + contents;
    assert gs[1..] == gaps && cs[1..] == contents;
    forall i | 0 <= i < |gs|
      ensures !Occurs(gs[i], open) && !Occurs(cs[i], close)
    {
      if i > 0 {
        assert gs[i] == gaps[i - 1] && cs[i] == contents[i - 1];
      }
    }
  }

  lemma TagsAreBorderFree(tag: string)
    requires '<' !in tag
    ensures BorderFree(Open(tag)) && BorderFree(Close(tag))
  {
    assert Open(tag)[1..] == tag + ">";
    assert Close(tag)[1..] == "/" + tag + ">";
  }

  /** The scanner is exactly the inverse of the printer: for every body and every list of
      contents, the scanner returns that list if and only if the body is a layout of it. */
  lemma BlocksIffLayout(body: string, tag: string, contents: seq<string>)
    requires '<' !in tag
    ensures Blocks(body, tag) == contents
       <==> exists gaps, tail :: Layout(body, Open(tag), Close(tag), gaps, contents, tail)
  {
    var open, close := Open(tag), Close(tag);
    TagsAreBorderFree(tag);
    if Blocks(body, tag) == contents {
      var gaps, tail := LayoutOfBlocks(body, open, close);
      assert Layout(body, open, close, gaps, contents, tail);
    }
    if exists gaps, tail :: Layout(body, open, close, gaps, contents, tail) {
      var gaps, tail :| Layout(body, open, close, gaps, contents, tail);
      BlocksOfLayout(body, open, close, gaps, contents, tail);
    }
  }

  /** A field written after text that does not open its tag reads back unchanged, whatever
      follows it; and reading a field is reading the first block, or nothing. */
  lemma TextReadsBack(gap: string, content: string, rest: string, tag: string)
    requires '<' !in tag
    requires !Occurs(gap, "<" + tag + ">") && !Occurs(content, "</" + tag + ">")
    ensures XmlText(gap + ("<" + tag + ">") + (content + ("</" + tag + ">") + rest), tag) == content
  {
    TagsAreBorderFree(tag);
    FirstBlockOfWrapped(gap, content, rest, Open(tag), Close(tag));
  }

  lemma TextIsFirstBlock(body: string, tag: string)
    ensures XmlText(body, tag) == if Blocks(body, tag) == [] then "" else Blocks(body, tag)[0]
  {
  }
}
