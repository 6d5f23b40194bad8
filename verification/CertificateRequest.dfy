/** Certificate requests on mobile (src/mobile/certificate-request.ts): reading the list of names a
    user typed, and checking it against the zone. Names are ASCII. */
module CertificateRequest {
  import opened Sequences
  import opened Text

  // ---------- Reading the names ----------

  /** The characters of JavaScript's `\s`, which are also those that `trim` removes. */
  predicate White(c: char) {
    || '\t' <= c <= '\r' || c == ' ' || c == '\U{00A0}' || c == '\U{1680}' || '\U{2000}' <= c <= '\U{200A}'
    || c in ['\U{2028}', '\U{2029}', '\U{202F}', '\U{205F}', '\U{3000}', '\U{FEFF}']
  }

  predicate Gap(c: char) { c == ',' || White(c) }

  predicate AllGap(s: string) { forall c | c in s :: Gap(c) }

  predicate NoGap(s: string) { forall c | c in s :: !Gap(c) }

  /** The 25 characters of white space, and the comma. */
  lemma GapIff(c: char)
    ensures Gap(c) <==>
      c as int in {9, 10, 11, 12, 13, 0x20, 0x2C, 0xA0, 0x1680, 0x2000, 0x2001, 0x2002, 0x2003, 0x2004, 0x2005,
                   0x2006, 0x2007, 0x2008, 0x2009, 0x200A, 0x2028, 0x2029, 0x202F, 0x205F, 0x3000, 0xFEFF}
  {
  }

  function FirstGap(s: string): (n: nat)
    ensures n <= |s|
  {
    if s == "" || Gap(s[0]) then 0 else 1 + FirstGap(s[1..])
  }

  function SkipGaps(s: string): (r: string)
    ensures |r| <= |s|
    ensures s != "" && Gap(s[0]) ==> |r| < |s|
  {
    if s != "" && Gap(s[0]) then SkipGaps(s[1..]) else s
  }

  /** `split` on the longest runs of gap characters. */
  function Pieces(s: string): seq<string>
    decreases |s|
  {
    var n := FirstGap(s);
    if n == |s| then [s] else FirstGapIs(s); [s[..n]] + Pieces(SkipGaps(s[n..]))
  }

  lemma {:induction false} FirstGapIs(s: string)
    ensures var n := FirstGap(s); NoGap(s[..n]) && (n < |s| ==> Gap(s[n]))
  {
    if s != "" && !Gap(s[0]) {
      FirstGapIs(s[1..]);
      var n := FirstGap(s[1..]);
      assert s[..n + 1] == [s[0]] + s[1..][..n];
    }
  }

  function DropDot(name: string): string {
    if EndsWith(name, ".") then name[..|name| - 1] else name
  }

  function Cleaned(piece: string): string { DropDot(Lower(Trim(piece, White))) }

  function CertificateDomains(value: string): seq<string> {
    Unique(Filter(Keys(Pieces(value), Cleaned), Filled))
  }

  // ---------- The pieces of a written list ----------

  /** `names` written one after another with the given gaps between them. */
  function Written(names: seq<string>, gaps: seq<string>): string
    requires |names| == |gaps| + 1
  {
    if gaps == [] then names[0] else names[0] + gaps[0] + Written(names[1..], gaps[1..])
  }

  predicate Name(s: string) { s != "" && NoGap(s) }

  predicate GapRun(s: string) { s != "" && AllGap(s) }

  predicate Gaps(gaps: seq<string>) { forall gap | gap in gaps :: GapRun(gap) }

  predicate Names(names: seq<string>) { forall name | name in names :: Name(name) }

  lemma {:induction false} FirstGapAfter(name: string, rest: string)
    requires NoGap(name) && (rest != "" ==> Gap(rest[0]))
    ensures FirstGap(name + rest) == |name|
  {
    if name == "" {
      assert name + rest == rest;
    } else {
      assert name[0] in name;
      assert (name + rest)[1..] == name[1..] + rest;
      FirstGapAfter(name[1..], rest);
    }
  }

  lemma {:induction false} SkipGapsAfter(gap: string, rest: string)
    requires AllGap(gap) && (rest == "" || !Gap(rest[0]))
    ensures SkipGaps(gap + rest) == rest
  {
    if gap == "" {
      assert gap + rest == rest;
    } else {
      assert gap[0] in gap;
      assert (gap + rest)[1..] == gap[1..] + rest;
      SkipGapsAfter(gap[1..], rest);
    }
  }

  /** However a list of names is spaced out, its pieces are the names. */
  lemma {:induction false} PiecesOfWritten(names: seq<string>, gaps: seq<string>)
    requires |names| == |gaps| + 1
    requires Names(names)
    requires Gaps(gaps)
    ensures Pieces(Written(names, gaps)) == names
  {
    assert Name(names[0]);
    if gaps == [] {
      OnePiece(names[0]);
      assert names == [names[0]];
    } else {
      var rest := Written(names[1..], gaps[1..]);
      WrittenTail(names, gaps);
      PiecesOfWritten(names[1..], gaps[1..]);
      WrittenStarts(names[1..], gaps[1..]);
      FirstPiece(names[0], gaps[0], rest);
      assert names == [names[0]] + names[1..];
    }
  }

  lemma OnePiece(name: string)
    requires NoGap(name)
    ensures Pieces(name) == [name]
  {
    assert name + "" == name;
    FirstGapAfter(name, "");
  }

  lemma WrittenTail(names: seq<string>, gaps: seq<string>)
    requires |names| == |gaps| + 1 && gaps != [] && Names(names) && Gaps(gaps)
    ensures GapRun(gaps[0]) && Name(names[0]) && Names(names[1..]) && Gaps(gaps[1..]) && Name(names[1])
  {
  }

  lemma FirstPiece(name: string, gap: string, rest: string)
    requires NoGap(name) && GapRun(gap) && (rest == "" || !Gap(rest[0]))
    ensures Pieces(name + gap + rest) == [name] + Pieces(rest)
  {
    var s := name + gap + rest;
    assert s == name + (gap + rest) && s[|name|..] == gap + rest && s[..|name|] == name;
    assert gap[0] in gap && (gap + rest)[0] == gap[0];
    FirstGapAfter(name, gap + rest);
    SkipGapsAfter(gap, rest);
  }

  lemma WrittenStarts(names: seq<string>, gaps: seq<string>)
    requires |names| == |gaps| + 1 && Name(names[0])
    ensures Written(names, gaps) != "" && !Gap(Written(names, gaps)[0])
  {
    assert names[0][0] in names[0];
  }

  lemma LastPiece(name: string, trail: string)
    requires NoGap(name) && AllGap(trail)
    ensures Pieces(name + trail) == if trail == "" then [name] else [name, ""]
  {
    if trail == "" {
      OnePiece(name);
      assert name + trail == name;
    } else {
      FirstPiece(name, trail, "");
      assert name + trail + "" == name + trail;
    }
  }

  lemma {:induction false} PiecesBefore(names: seq<string>, gaps: seq<string>, trail: string)
    requires |names| == |gaps| + 1 && Names(names) && Gaps(gaps) && AllGap(trail)
    ensures Pieces(Written(names, gaps) + trail) == names + (if trail == "" then [] else [""])
  {
    if gaps == [] {
      assert Name(names[0]) && names == [names[0]];
      LastPiece(names[0], trail);
    } else {
      WrittenTail(names, gaps);
      PiecesBefore(names[1..], gaps[1..], trail);
      FirstOfWritten(names, gaps, trail);
      FirstOf(names, if trail == "" then [] else [""]);
    }
  }

  lemma FirstOf(names: seq<string>, more: seq<string>)
    requires names != []
    ensures [names[0]] + (names[1..] + more) == names + more
  {
  }

  lemma FirstOfWritten(names: seq<string>, gaps: seq<string>, trail: string)
    requires |names| == |gaps| + 1 && gaps != [] && Name(names[0]) && GapRun(gaps[0]) && Name(names[1])
    ensures Pieces(Written(names, gaps) + trail) == [names[0]] + Pieces(Written(names[1..], gaps[1..]) + trail)
  {
    WrittenStarts(names[1..], gaps[1..]);
    FirstPiece(names[0], gaps[0], Written(names[1..], gaps[1..]) + trail);
    WrittenThen(names, gaps, trail);
  }

  lemma WrittenThen(names: seq<string>, gaps: seq<string>, trail: string)
    requires |names| == |gaps| + 1 && gaps != []
    ensures Written(names, gaps) + trail == names[0] + gaps[0] + (Written(names[1..], gaps[1..]) + trail)
  {
  }

  lemma PiecesAfter(lead: string, text: string)
    requires GapRun(lead) && (text == "" || !Gap(text[0]))
    ensures Pieces(lead + text) == [""] + Pieces(text)
  {
    var s := lead + text;
    assert lead[0] in lead && s[0] == lead[0] && s[0..] == s;
    SkipGapsAfter(lead, text);
  }

  lemma FilledAround(names: seq<string>)
    requires Names(names)
    ensures Filter(names, Filled) == Filter(names + [""], Filled) == names
  {
    FilterAll(names, Filled);
    FilterConcat(names, [""], Filled);
  }

  lemma FilledAfter(pieces: seq<string>)
    ensures Filter([""] + pieces, Filled) == Filter(pieces, Filled)
  {
    assert ([""] + pieces)[1..] == pieces;
  }

  /** The names of any text, with gaps before, between and after them: each of them, in order. */
  lemma NamesOfText(lead: string, names: seq<string>, gaps: seq<string>, trail: string)
    requires |names| == |gaps| + 1 && Names(names) && Gaps(gaps) && AllGap(lead) && AllGap(trail)
    ensures Filter(Pieces(lead + (Written(names, gaps) + trail)), Filled) == names
  {
    var text := Written(names, gaps) + trail;
    PiecesBefore(names, gaps, trail);
    FilledAround(names);
    assert names + [] == names;
    if lead == "" {
      assert lead + text == text;
    } else {
      assert Name(names[0]);
      WrittenStarts(names, gaps);
      PiecesAfter(lead, text);
      FilledAfter(Pieces(text));
    }
  }

  lemma {:induction false} PieceIsName(s: string, p: string)
    requires p in Pieces(s)
    ensures NoGap(p)
    decreases |s|
  {
    var n := FirstGap(s);
    FirstGapIs(s);
    if n == |s| {
      assert s[..n] == s;
    } else if p != s[..n] {
      PieceIsName(SkipGaps(s[n..]), p);
    }
  }

  // ---------- What the list contains ----------

  lemma TrimNone(s: string)
    requires NoGap(s)
    ensures Trim(s, White) == s
  {
    if s != "" {
      assert s[0] in s && s[|s| - 1] in s;
    }
  }

  predicate Upper(c: char) { 'A' <= c <= 'Z' }

  lemma {:induction false} LowerCharacters(s: string)
    ensures NoGap(s) ==> NoGap(Lower(s))
    ensures forall c | c in Lower(s) :: !Upper(c)
  {
    if s != "" {
      LowerCharacters(s[1..]);
      assert s[0] in s && forall c | c in s[1..] :: c in s;
    }
  }

  lemma {:induction false} LowerNone(s: string)
    requires forall c | c in s :: !Upper(c)
    ensures Lower(s) == s
  {
    if s != "" {
      assert s[0] in s && forall c | c in s[1..] :: c in s;
      LowerNone(s[1..]);
    }
  }

  /** A name as the list holds it: no gap and no upper case. */
  predicate Normal(d: string) { Name(d) && forall c | c in d :: !Upper(c) }

  lemma CleanedIsNormal(p: string)
    requires NoGap(p) && Cleaned(p) != ""
    ensures Normal(Cleaned(p))
  {
    TrimNone(p);
    LowerCharacters(p);
    assert forall c | c in Cleaned(p) :: c in Lower(p);
  }

  lemma CleanedAgain(d: string)
    requires Normal(d)
    ensures Cleaned(d) == DropDot(d)
  {
    TrimNone(d);
    LowerNone(d);
  }

  /** The list holds each cleaned piece once, and nothing else. */
  lemma DomainsAreCleanedPieces(value: string, d: string)
    ensures NoDup(CertificateDomains(value))
    ensures d in CertificateDomains(value) <==> d != "" && exists p | p in Pieces(value) :: Cleaned(p) == d
  {
    var cleaned := Keys(Pieces(value), Cleaned);
    UniqueMembers(Filter(cleaned, Filled));
    FilterMembers(cleaned, Filled);
    KeysMembers(Pieces(value), Cleaned);
  }

  /** The names stand in the order in which they were first typed. */
  lemma DomainsInOrder(value: string)
    ensures Ascending(CertificateDomains(value), Filter(Keys(Pieces(value), Cleaned), Filled))
  {
    UniqueAscending(Filter(Keys(Pieces(value), Cleaned), Filled));
  }

  lemma DomainsAreNormal(value: string, d: string)
    requires d in CertificateDomains(value)
    ensures Normal(d)
  {
    DomainsAreCleanedPieces(value, d);
    var p :| p in Pieces(value) && Cleaned(p) == d;
    PieceIsName(value, p);
    CleanedIsNormal(p);
  }

  // ---------- Reading a list that was read before ----------

  predicate Dotted(d: string) { EndsWith(d, ".") }

  predicate AllNormal(names: seq<string>) { forall d | d in names :: Normal(d) }

  /** Names already read, written out again and read: only a final dot can be lost. */
  lemma ReadAgain(names: seq<string>, gaps: seq<string>)
    requires |names| == |gaps| + 1 && AllNormal(names)
    requires Gaps(gaps)
    ensures CertificateDomains(Written(names, gaps)) == Unique(Filter(Keys(names, DropDot), Filled))
  {
    PiecesOfWritten(names, gaps);
    KeysCleaned(names);
  }

  lemma {:induction false} KeysCleaned(names: seq<string>)
    requires AllNormal(names)
    ensures Keys(names, Cleaned) == Keys(names, DropDot)
  {
    if names != [] {
      assert names[0] in names && forall d | d in names[1..] :: d in names;
      CleanedAgain(names[0]);
      KeysCleaned(names[1..]);
    }
  }

  lemma {:induction false} KeysUndotted(names: seq<string>)
    requires AllNormal(names) && forall d | d in names :: !Dotted(d)
    ensures Keys(names, DropDot) == names && Filter(names, Filled) == names
  {
    if names != [] {
      assert names[0] in names && forall d | d in names[1..] :: d in names;
      KeysUndotted(names[1..]);
    }
  }

  lemma {:induction false} UniqueOfNoDup<K>(s: seq<K>)
    requires NoDup(s)
    ensures Unique(s) == s
  {
    if s != [] {
      NoDupTail(s);
      UniqueOfNoDup(s[1..]);
      FilterAll(s[1..], Other(s[0]));
    }
  }

  /** A list that holds a dotted name does not come back: the name would need a longer one with
      one more dot, and so on without end. */
  lemma {:induction false} DottedChanges(names: seq<string>, d: string, longest: nat)
    requires d in names && Dotted(d) && forall x | x in names :: |x| <= longest
    ensures Unique(Filter(Keys(names, DropDot), Filled)) != names
    decreases longest - |d|
  {
    var keys := Keys(names, DropDot);
    if Unique(Filter(keys, Filled)) == names {
      UniqueMembers(Filter(keys, Filled));
      FilterMembers(keys, Filled);
      var x := KeyedMember(names, DropDot, d);
      DottedChanges(names, x, longest);
    }
  }

  function Longest(names: seq<string>): (n: nat)
    ensures forall x | x in names :: |x| <= n
  {
    if names == [] then 0
    else
      var rest := Longest(names[1..]);
      assert names == [names[0]] + names[1..];
      if |names[0]| > rest then |names[0]| else rest
  }

  /** The parsed list, written out with any gaps and parsed again, comes back exactly when no name
      of it ends with a dot. */
  lemma ReparseIff(value: string, gaps: seq<string>)
    requires |CertificateDomains(value)| == |gaps| + 1
    requires Gaps(gaps)
    ensures var names := CertificateDomains(value);
      CertificateDomains(Written(names, gaps)) == names <==> forall d | d in names :: !Dotted(d)
  {
    var names := CertificateDomains(value);
    forall d | d in names
      ensures Normal(d)
    {
      DomainsAreNormal(value, d);
    }
    ReadAgain(names, gaps);
    if d :| d in names && Dotted(d) {
      DottedChanges(names, d, Longest(names));
    } else {
      KeysUndotted(names);
      DomainsAreCleanedPieces(value, "");
      UniqueOfNoDup(names);
    }
  }

  function Newlines(n: nat): (gaps: seq<string>)
    ensures |gaps| == n && Gaps(gaps)
  {
    if n == 0 then [] else ["\n"] + Newlines(n - 1)
  }

  lemma {:induction false} JoinIsWritten(names: seq<string>)
    requires names != []
    ensures Join(names, "\n") == Written(names, Newlines(|names| - 1))
  {
    if |names| > 1 {
      JoinIsWritten(names[1..]);
      assert Newlines(|names| - 1)[1..] == Newlines(|names| - 2);
    }
  }

  /** The same for the list written one name per line; an empty list comes back too. */
  lemma ReparseLinesIff(value: string)
    ensures var names := CertificateDomains(value);
      CertificateDomains(Join(names, "\n")) == names <==> forall d | d in names :: !Dotted(d)
  {
    var names := CertificateDomains(value);
    if names == [] {
      assert Pieces("") == [""] && Cleaned("") == "";
      assert Keys([""], Cleaned) == [""];
    } else {
      JoinIsWritten(names);
      ReparseIff(value, Newlines(|names| - 1));
    }
  }

  /** A cleaned piece still ends with a dot exactly when two dots were typed at its end. */
  lemma DottedIffTwoDots(p: string)
    requires NoGap(p)
    ensures Dotted(Cleaned(p)) <==> EndsWith(p, "..")
  {
    TrimNone(p);
    if p != "" { LowerDot(p, |p| - 1); }
    if |p| >= 2 { LowerDot(p, |p| - 2); }
    EndsInTwo(Lower(p));
    EndsInTwo(p);
  }

  lemma LowerDot(p: string, i: nat)
    requires i < |p|
    ensures Lower(p)[i] == '.' <==> p[i] == '.'
  {
    LowerEach(p, i);
  }

  /** A name is still dotted without its final dot exactly if it had two. */
  lemma EndsInTwo(s: string)
    ensures EndsWith(s, "..") <==> |s| >= 2 && s[|s| - 1] == '.' && s[|s| - 2] == '.'
    ensures Dotted(DropDot(s)) <==> EndsWith(s, "..")
  {
    if |s| >= 2 { assert s[|s| - 2..] == [s[|s| - 2], s[|s| - 1]]; }
    EndsInDot(s);
    EndsInDot(DropDot(s));
  }

  lemma EndsInDot(s: string)
    ensures Dotted(s) <==> s != "" && s[|s| - 1] == '.'
  {
    if s != "" { assert s[|s| - 1..] == [s[|s| - 1]]; }
  }

  /** The same condition on the text as it was typed. */
  lemma TypedDots(value: string)
    ensures (forall d | d in CertificateDomains(value) :: !Dotted(d))
       <==> (forall p | p in Pieces(value) :: !EndsWith(p, ".."))
  {
    forall p | p in Pieces(value)
      ensures Dotted(Cleaned(p)) <==> EndsWith(p, "..")
      ensures Cleaned(p) != "" ==> Cleaned(p) in CertificateDomains(value)
    {
      PieceIsName(value, p);
      DottedIffTwoDots(p);
      DomainsAreCleanedPieces(value, Cleaned(p));
    }
    forall d | d in CertificateDomains(value) && Dotted(d)
      ensures exists p | p in Pieces(value) :: EndsWith(p, "..")
    {
      DomainsAreCleanedPieces(value, d);
    }
  }

  /** Reading the list again, one name per line, gives it back exactly when no piece of the typed
      text ends with two dots. */
  lemma ReparseTypedIff(value: string)
    ensures var names := CertificateDomains(value);
      CertificateDomains(Join(names, "\n")) == names <==> forall p | p in Pieces(value) :: !EndsWith(p, "..")
  {
    ReparseLinesIff(value);
    TypedDots(value);
  }

  /** Only one dot is dropped, so a name typed with two comes back without the second. */
  lemma ReparseFails(name: string)
    requires Normal(name)
    ensures var names := CertificateDomains(name + "." + ".");
      names == [name + "."] && CertificateDomains(Written(names, [])) == [name] != names
  {
    DottedIsNormal(name);
    DottedIsNormal(name + ".");
    OneDomain(name + ".");
    OneDomain(name);
  }

  lemma DottedIsNormal(name: string)
    requires Normal(name)
    ensures Normal(name + ".") && NoGap(name + ".")
  {
  }

  lemma OneDomain(name: string)
    requires Normal(name) && NoGap(name + ".")
    ensures CertificateDomains(name + ".") == [name]
  {
    var s := name + ".";
    FirstGapAfter(s, "");
    assert s + "" == s;
    assert Pieces(s) == [s];
    CleanedAgain(s);
    assert Keys([s], Cleaned) == [name];
    assert Filter([name], Filled) == [name];
    UniqueOfNoDup([name]);
  }

  // ---------- Checking a request ----------

  datatype Request = Request(accountId: real, provider: string, dnsZone: string, domains: seq<string>,
                             eabKid: string, eabHmacKey: string)

  datatype Verdict = Accepted | NoAccount | NoZone | BadDomains | OutsideZone | NoCredentials

  const MAX_SAFE_INTEGER: real := 9007199254740991.0

  predicate SafeInteger(x: real) { x == x.Floor as real && -MAX_SAFE_INTEGER <= x <= MAX_SAFE_INTEGER }

  function DropWildcard(domain: string): string {
    if StartsWith(domain, "*.") then domain[2..] else domain
  }

  predicate AlNum(c: char) { 'a' <= c <= 'z' || '0' <= c <= '9' }

  predicate AlNumOrHyphen(c: char) { AlNum(c) || c == '-' }

  /** The label pattern: one character, then optionally a run that ends in a character. */
  predicate MatchesLabel(part: string) {
    && part != "" && AlNum(part[0])
    && (|part| == 1 || (AlNum(part[|part| - 1]) && forall c | c in part[1..|part| - 1] :: AlNumOrHyphen(c)))
  }

  predicate ValidDomain(domain: string) {
    var name := DropWildcard(domain);
    && |name| <= 253 && '.' in name
    && forall part | part in Split(name, '.') :: |part| <= 63 && MatchesLabel(part)
  }

  predicate InZone(domain: string, zone: string) {
    var name := DropWildcard(domain);
    name == zone || EndsWith(name, "." + zone)
  }

  predicate KeyCharacter(c: char) { 'A' <= c <= 'Z' || 'a' <= c <= 'z' || '0' <= c <= '9' || c == '_' || c == '-' }

  function DropPadding(s: string): string {
    if EndsWith(s, "==") then s[..|s| - 2] else if EndsWith(s, "=") then s[..|s| - 1] else s
  }

  /** One or more key characters and at most two equals signs. */
  predicate Base64Url(s: string) {
    DropPadding(s) != "" && forall c | c in DropPadding(s) :: KeyCharacter(c)
  }

  function ValidateCertificateRequest(input: Request, availableZones: seq<string>): Verdict {
    if !SafeInteger(input.accountId) || input.accountId <= 0.0 then NoAccount
    else if input.dnsZone !in availableZones then NoZone
    else if input.domains == [] || |input.domains| > 100 || !(forall d | d in input.domains :: ValidDomain(d))
    then BadDomains
    else if !(forall d | d in input.domains :: InZone(d, input.dnsZone)) then OutsideZone
    else if input.provider == "litessl"
            && (input.eabKid == "" || input.eabHmacKey == "" || !Base64Url(input.eabHmacKey))
    then NoCredentials
    else Accepted
  }

  /** Account ids are whole numbers below 2 to the power of 53 in size. */
  lemma SafeIntegerIff(x: real)
    ensures SafeInteger(x) <==> x == x.Floor as real && -0x20_0000_0000_0000 < x.Floor < 0x20_0000_0000_0000
  {
  }

  /** A wildcard is judged by the name after it, and no other name is cut. */
  lemma WildcardIff(domain: string, name: string)
    ensures DropWildcard("*." + name) == name
    ensures !("*." <= domain) ==> DropWildcard(domain) == domain
  {
    assert ("*." + name)[..2] == "*.";
  }

  /** The characters of labels, and those of keys (section 5 of RFC 4648). */
  lemma CharactersIff(c: char)
    ensures AlNumOrHyphen(c) <==>
      c in {'a', 'b', 'c', 'd', 'e', 'f', 'g', 'h', 'i', 'j', 'k', 'l', 'm', 'n', 'o', 'p', 'q', 'r', 's',
            't', 'u', 'v', 'w', 'x', 'y', 'z', '0', '1', '2', '3', '4', '5', '6', '7', '8', '9', '-'}
    ensures KeyCharacter(c) <==>
      c in {'A', 'B', 'C', 'D', 'E', 'F', 'G', 'H', 'I', 'J', 'K', 'L', 'M', 'N', 'O', 'P', 'Q', 'R', 'S',
            'T', 'U', 'V', 'W', 'X', 'Y', 'Z', 'a', 'b', 'c', 'd', 'e', 'f', 'g', 'h', 'i', 'j', 'k', 'l',
            'm', 'n', 'o', 'p', 'q', 'r', 's', 't', 'u', 'v', 'w', 'x', 'y', 'z', '0', '1', '2', '3', '4',
            '5', '6', '7', '8', '9', '-', '_'}
  {
  }

  /** One or more key characters, the first `n`, and then up to two equals signs. */
  predicate Padded(s: string, n: nat) {
    && 0 < n <= |s| <= n + 2
    && (forall i | 0 <= i < n :: KeyCharacter(s[i])) && (forall i | n <= i < |s| :: s[i] == '=')
  }

  /** The key is written in the characters of Base64 for URLs, with or without its padding. */
  lemma Base64UrlIff(s: string)
    ensures Base64Url(s) <==> exists n :: Padded(s, n)
  {
    if Base64Url(s) { PaddingFound(s); }
    forall n | Padded(s, n)
      ensures Base64Url(s)
    {
      PaddingDrops(s, n);
    }
  }

  lemma PaddingFound(s: string)
    requires Base64Url(s)
    ensures Padded(s, |DropPadding(s)|)
  {
    var body := DropPadding(s);
    EqualsAtEnd(s);
    assert forall i | 0 <= i < |body| :: body[i] == s[i] && body[i] in body;
  }

  lemma PaddingDrops(s: string, n: nat)
    requires Padded(s, n)
    ensures DropPadding(s) == s[..n] && Base64Url(s)
  {
    EqualsAtEnd(s);
    assert KeyCharacter(s[n - 1]);
  }

  lemma EqualsAtEnd(s: string)
    ensures EndsWith(s, "=") <==> s != "" && s[|s| - 1] == '='
    ensures EndsWith(s, "==") <==> |s| >= 2 && s[|s| - 1] == '=' && s[|s| - 2] == '='
  {
    if s != "" { assert s[|s| - 1..] == [s[|s| - 1]]; }
    if |s| >= 2 { assert s[|s| - 2..] == [s[|s| - 2], s[|s| - 1]]; }
  }

  // ---------- Names by their labels ----------

  /** A label of RFC 1035 section 2.3.1 with the leading digits of RFC 1123 section 2.1. */
  predicate LdhLabel(part: string) {
    && 1 <= |part| <= 63 && (forall c | c in part :: AlNumOrHyphen(c))
    && part[0] != '-' && part[|part| - 1] != '-'
  }

  predicate HostName(labels: seq<string>) {
    |labels| >= 2 && |Join(labels, ".")| <= 253 && forall part | part in labels :: LdhLabel(part)
  }

  predicate IsSuffix<T(==)>(s: seq<T>, t: seq<T>) { |s| <= |t| && t[|t| - |s|..] == s }

  lemma LabelMatchesIff(part: string)
    ensures |part| <= 63 && MatchesLabel(part) <==> LdhLabel(part)
  {
    if part != "" {
      var last := part[|part| - 1];
      if |part| == 1 {
        assert part == [part[0]] && part[0] in part;
      } else {
        var middle := part[1..|part| - 1];
        assert part == [part[0]] + middle + [last];
        assert forall c | c in part :: c == part[0] || c in middle || c == last;
        assert forall c | c in middle :: c in part;
        assert part[0] in part && last in part;
      }
    }
  }

  lemma {:induction false} SplitCount(s: string, sep: char)
    ensures |Split(s, sep)| >= 2 <==> sep in s
  {
    if s != "" {
      SplitCount(s[1..], sep);
      assert s == [s[0]] + s[1..];
    }
  }

  lemma ValidIffHostName(domain: string)
    ensures ValidDomain(domain) <==> HostName(Split(DropWildcard(domain), '.'))
  {
    var name := DropWildcard(domain);
    SplitCount(name, '.');
    JoinSplit(name, '.');
    forall part | part in Split(name, '.')
      ensures |part| <= 63 && MatchesLabel(part) <==> LdhLabel(part)
    {
      LabelMatchesIff(part);
    }
  }

  lemma BelowZone(name: string, zone: string)
    requires EndsWith(name, "." + zone)
    ensures IsSuffix(Split(zone, '.'), Split(name, '.'))
  {
    var head := name[..|name| - |zone| - 1];
    assert name == head + ['.'] + zone;
    SplitConcat(head, zone, '.');
  }

  lemma LabelsBelowZone(name: string, zone: string)
    requires IsSuffix(Split(zone, '.'), Split(name, '.'))
    ensures name == zone || EndsWith(name, "." + zone)
  {
    var labels, suffix := Split(name, '.'), Split(zone, '.');
    JoinSplit(name, '.');
    JoinSplit(zone, '.');
    var head := labels[..|labels| - |suffix|];
    assert labels == head + suffix;
    if head == [] {
      assert labels == suffix;
    } else {
      JoinConcat(head, suffix, ".");
      EndsAfter(Join(head, "."), ".", zone);
    }
  }

  lemma EndsAfter(head: string, dot: string, tail: string)
    ensures EndsWith(head + dot + tail, dot + tail)
  {
    assert head + dot + tail == head + (dot + tail);
  }

  /** The string test for a zone is the label test: the zone's labels end the name's labels. */
  lemma InZoneIffLabels(domain: string, zone: string)
    ensures InZone(domain, zone) <==> IsSuffix(Split(zone, '.'), Split(DropWildcard(domain), '.'))
  {
    var name := DropWildcard(domain);
    if EndsWith(name, "." + zone) {
      BelowZone(name, zone);
    }
    if IsSuffix(Split(zone, '.'), Split(name, '.')) {
      LabelsBelowZone(name, zone);
    }
  }

  predicate GoodDomains(domains: seq<string>) {
    1 <= |domains| <= 100 && forall d | d in domains :: HostName(Split(DropWildcard(d), '.'))
  }

  predicate WithinZone(domains: seq<string>, zone: string) {
    forall d | d in domains :: IsSuffix(Split(zone, '.'), Split(DropWildcard(d), '.'))
  }

  /** A request is accepted exactly when its names are host names below the zone, by labels, and a
      refusal names the first requirement that fails. */
  lemma VerdictIff(input: Request, availableZones: seq<string>)
    ensures var verdict := ValidateCertificateRequest(input, availableZones);
      var account := SafeInteger(input.accountId) && input.accountId > 0.0;
      var zone := account && input.dnsZone in availableZones;
      var names := zone && GoodDomains(input.domains);
      var within := names && WithinZone(input.domains, input.dnsZone);
      var credentials := input.provider == "litessl" ==> input.eabKid != "" && Base64Url(input.eabHmacKey);
      && (verdict == Accepted <==> within && credentials)
      && (verdict == NoAccount <==> !account)
      && (verdict == NoZone <==> account && !zone)
      && (verdict == BadDomains <==> zone && !names)
      && (verdict == OutsideZone <==> names && !within)
      && (verdict == NoCredentials <==> within && !credentials)
  {
    forall d | d in input.domains
      ensures ValidDomain(d) <==> HostName(Split(DropWildcard(d), '.'))
    {
      ValidIffHostName(d);
    }
    forall d | d in input.domains
      ensures InZone(d, input.dnsZone) <==> IsSuffix(Split(input.dnsZone, '.'), Split(DropWildcard(d), '.'))
    {
      InZoneIffLabels(d, input.dnsZone);
    }
  }

  lemma DottedHasEmptyLabel(name: string)
    requires Dotted(name)
    ensures "" in Split(name, '.')
  {
    var head := name[..|name| - 1];
    assert name == head + ['.'] + "";
    SplitConcat(head, "", '.');
    assert Split("", '.') == [""];
  }

  lemma ValidIsUndotted(domain: string)
    requires ValidDomain(domain)
    ensures !Dotted(domain)
  {
    var name := DropWildcard(domain);
    assert name[|name| - 1..] == domain[|domain| - 1..];
    if Dotted(name) {
      DottedHasEmptyLabel(name);
    }
  }

  /** The names of an accepted request come back unchanged from any list written from them. */
  lemma AcceptedReparses(value: string, gaps: seq<string>, input: Request, availableZones: seq<string>)
    requires input.domains == CertificateDomains(value)
    requires ValidateCertificateRequest(input, availableZones) == Accepted
    requires |input.domains| == |gaps| + 1
    requires Gaps(gaps)
    ensures CertificateDomains(Written(input.domains, gaps)) == input.domains
  {
    ReparseIff(value, gaps);
    forall d | d in input.domains
      ensures !Dotted(d)
    {
      ValidIsUndotted(d);
    }
  }
}
