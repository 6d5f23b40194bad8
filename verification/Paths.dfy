/** Path navigation: remote directories (src/App.tsx) and object prefixes (src/mobile/MobileApp.tsx). */
module Paths {
  import opened Sequences
  import opened Text

  predicate Slash(c: char) { c == '/' }

  function DropSlashes(path: string): string { TrimEnd(path, Slash) }

  function JoinSshPath(parent: string, name: string): string {
    if parent == "/" then "/" + name else DropSlashes(parent) + "/" + name
  }

  /** JavaScript's `lastIndexOf` for one character. */
  function LastIndexOf(s: string, c: char): (i: int)
    ensures -1 <= i < |s|
    ensures i >= 0 ==> s[i] == c && c !in s[i + 1..]
    ensures i == -1 <==> c !in s
  {
    if s == "" then -1
    else if s[|s| - 1] == c then |s| - 1
    else
      var i := LastIndexOf(s[..|s| - 1], c);
      assert s == s[..|s| - 1] + [s[|s| - 1]];
      i
  }

  lemma {:induction false} LastSlash(head: string, name: string)
    requires '/' !in name
    ensures LastIndexOf(head + "/" + name, '/') == |head|
  {
    if name != "" {
      var shorter := name[..|name| - 1];
      assert name == shorter + [name[|name| - 1]] && name[|name| - 1] in name;
      LastSlash(head, shorter);
      assert (head + "/" + name)[..|head| + |name|] == head + "/" + shorter;
    }
  }

  /** `slice(0, end)`: a negative end counts from the back. */
  function SliceTo(s: string, end: int): string
    requires -1 <= end <= |s|
  {
    if end >= 0 then s[..end] else if s == "" then s else s[..|s| - 1]
  }

  function OrRoot(path: string): string { if path == "" then "/" else path }

  function ParentSshPath(path: string): string {
    var normalized := OrRoot(DropSlashes(path));
    if normalized == "/" then "/"
    else OrRoot(SliceTo(normalized, LastIndexOf(normalized, '/')))
  }

  // ---------- Paths by their segments ----------

  /** The names on a path, without the empty ones between doubled slashes. */
  function Segments(path: string): seq<string> { Filter(Split(path, '/'), Filled) }

  function DropLast<T>(s: seq<T>): seq<T> { if s == [] then [] else s[..|s| - 1] }

  lemma SegmentsConcat(a: string, b: string)
    ensures Segments(a + "/" + b) == Segments(a) + Segments(b)
  {
    SplitConcat(a, b, '/');
    FilterConcat(Split(a, '/'), Split(b, '/'), Filled);
  }

  lemma SegmentsOne(name: string)
    requires '/' !in name
    ensures Segments(name) == if name == "" then [] else [name]
  {
    SplitOne(name, '/');
    assert Filter([name], Filled) == if name == "" then [] else [name];
  }

  lemma {:induction false} DropSlashesKeeps(path: string)
    ensures Segments(DropSlashes(path)) == Segments(path)
    ensures var s := DropSlashes(path); s == "" || s[|s| - 1] != '/'
    ensures DropSlashes(path) <= path
  {
    if path != "" && Slash(path[|path| - 1]) {
      var shorter := path[..|path| - 1];
      DropSlashesKeeps(shorter);
      assert path == shorter + "/" + "";
      SegmentsConcat(shorter, "");
      SegmentsOne("");
    }
  }

  /** Entering a directory adds its name. */
  lemma JoinAddsSegment(parent: string, name: string)
    requires name != "" && '/' !in name
    ensures Segments(JoinSshPath(parent, name)) == Segments(parent) + [name]
  {
    JoinedPath(parent, name);
    DropSlashesKeeps(parent);
    SegmentsConcat(DropSlashes(parent), name);
    SegmentsOne(name);
  }

  lemma JoinedPath(parent: string, name: string)
    ensures JoinSshPath(parent, name) == DropSlashes(parent) + "/" + name
  {
    if parent == "/" {
      assert DropSlashes("/") == DropSlashes("") == "";
    }
  }

  lemma RootHasNoSegments()
    ensures Segments("/") == []
  {
    SegmentsOne("");
    assert "/" == "" + "/" + "";
    SegmentsConcat("", "");
  }

  lemma AroundLastSlash(bare: string)
    requires '/' in bare
    ensures var i := LastIndexOf(bare, '/'); bare == bare[..i] + "/" + bare[i + 1..] && '/' !in bare[i + 1..]
  {
    CutAt(bare, LastIndexOf(bare, '/'));
  }

  lemma CutAt(s: string, i: nat)
    requires i < |s|
    ensures s == s[..i] + [s[i]] + s[i + 1..]
  {
  }

  /** The last slash of a path without trailing slashes. */
  lemma SplitAtLastSlash(bare: string)
    requires '/' in bare && bare[|bare| - 1] != '/'
    ensures var i := LastIndexOf(bare, '/');
      bare[i + 1..] != "" && Segments(bare) == Segments(bare[..i]) + [bare[i + 1..]]
  {
    var i := LastIndexOf(bare, '/');
    AroundLastSlash(bare);
    SegmentsConcat(bare[..i], bare[i + 1..]);
    SegmentsOne(bare[i + 1..]);
  }

  lemma OrRootSegments(path: string)
    ensures Segments(OrRoot(path)) == Segments(path)
  {
    SegmentsOne("");
    RootHasNoSegments();
  }

  lemma BareNameParent(bare: string)
    requires bare != "" && '/' !in bare
    ensures Segments(bare[..|bare| - 1]) == DropLast(Segments(bare)) <==> |bare| == 1
  {
    var shorter := bare[..|bare| - 1];
    SegmentsOne(bare);
    assert '/' !in shorter;
    SegmentsOne(shorter);
    assert DropLast([bare]) == [];
  }

  lemma ParentIsCut(path: string)
    requires DropSlashes(path) != ""
    ensures var bare := DropSlashes(path);
      Segments(ParentSshPath(path)) == Segments(SliceTo(bare, LastIndexOf(bare, '/')))
  {
    var bare := DropSlashes(path);
    DropSlashesKeeps(path);
    OrRootSegments(SliceTo(bare, LastIndexOf(bare, '/')));
  }

  lemma ParentBelowSlash(path: string)
    requires '/' in DropSlashes(path)
    ensures Segments(ParentSshPath(path)) == DropLast(Segments(path))
  {
    var bare := DropSlashes(path);
    DropSlashesKeeps(path);
    ParentIsCut(path);
    SplitAtLastSlash(bare);
    var i := LastIndexOf(bare, '/');
    assert DropLast(Segments(bare[..i]) + [bare[i + 1..]]) == Segments(bare[..i]);
  }

  lemma ParentOfSlashes(path: string)
    requires DropSlashes(path) == ""
    ensures Segments(ParentSshPath(path)) == [] == Segments(path)
  {
    DropSlashesKeeps(path);
    RootHasNoSegments();
    SegmentsOne("");
  }

  /** Going up takes the last name away, except that a bare name of two characters or more only
      loses its last character. */
  lemma ParentDropsSegmentIff(path: string)
    ensures var bare := DropSlashes(path);
      Segments(ParentSshPath(path)) == DropLast(Segments(path)) <==> '/' in bare || |bare| <= 1
  {
    var bare := DropSlashes(path);
    if bare == "" {
      ParentOfSlashes(path);
    } else if '/' in bare {
      ParentBelowSlash(path);
    } else {
      ParentOfBareName(path);
    }
  }

  lemma ParentOfBareName(path: string)
    requires DropSlashes(path) != "" && '/' !in DropSlashes(path)
    ensures Segments(ParentSshPath(path)) == DropLast(Segments(path)) <==> |DropSlashes(path)| == 1
  {
    DropSlashesKeeps(path);
    ParentIsCut(path);
    BareNameParent(DropSlashes(path));
  }

  /** Going up undoes entering a directory, to the letter. */
  lemma ParentUndoesJoin(parent: string, name: string)
    requires name != "" && '/' !in name
    ensures ParentSshPath(JoinSshPath(parent, name)) == OrRoot(DropSlashes(parent))
  {
    JoinedPath(parent, name);
    ParentOfJoined(DropSlashes(parent), name);
  }

  lemma ParentOfJoined(head: string, name: string)
    requires name != "" && '/' !in name
    ensures ParentSshPath(head + "/" + name) == OrRoot(head)
  {
    var path := head + "/" + name;
    assert path[|path| - 1] == name[|name| - 1] && name[|name| - 1] in name;
    assert DropSlashes(path) == path;
    LastSlash(head, name);
    assert path[..|head|] == head;
  }

  // ---------- Going up again and again ----------

  function Up(path: string, steps: nat): string {
    if steps == 0 then path else ParentSshPath(Up(path, steps - 1))
  }

  predicate Absolute(path: string) { path != "" && path[0] == '/' }

  lemma ParentOfAbsolute(path: string)
    requires Absolute(path)
    ensures Absolute(ParentSshPath(path))
    ensures Segments(ParentSshPath(path)) == DropLast(Segments(path))
    ensures Segments(path) == [] ==> ParentSshPath(path) == "/"
  {
    var bare := DropSlashes(path);
    DropSlashesKeeps(path);
    ParentDropsSegmentIff(path);
    if bare != "" {
      assert bare[0] == '/' && '/' in bare;
      SplitAtLastSlash(bare);
    }
  }

  /** Each step up from an absolute path takes one name, and one step after the last name the
      root is reached for good. */
  lemma {:induction false} UpReachesRoot(path: string, steps: nat)
    requires Absolute(path)
    ensures Absolute(Up(path, steps))
    ensures var names := Segments(path);
      && (steps <= |names| ==> Segments(Up(path, steps)) == names[..|names| - steps])
      && (steps > |names| ==> Up(path, steps) == "/")
  {
    if steps == 0 {
      assert Segments(path)[..|Segments(path)|] == Segments(path);
    } else {
      UpReachesRoot(path, steps - 1);
      Climbed(Segments(path), Up(path, steps - 1), steps - 1);
    }
  }

  /** One step further up, when `steps` steps have taken that many names. */
  lemma Climbed(names: seq<string>, path: string, steps: nat)
    requires Absolute(path)
    requires if steps <= |names| then Segments(path) == names[..|names| - steps] else path == "/"
    ensures Absolute(ParentSshPath(path))
    ensures if steps < |names| then Segments(ParentSshPath(path)) == names[..|names| - steps - 1]
            else ParentSshPath(path) == "/"
  {
    ParentOfAbsolute(path);
    if steps < |names| {
      DropLastOfFront(names, |names| - steps - 1);
    } else if steps > |names| {
      RootHasNoSegments();
    }
  }

  lemma DropLastOfFront<T>(s: seq<T>, n: nat)
    requires n < |s|
    ensures DropLast(s[..n + 1]) == s[..n]
  {
    assert s[..n + 1][..n] == s[..n];
  }

  // ---------- Object prefixes ----------

  function DropSlash(prefix: string): string {
    if EndsWith(prefix, "/") then prefix[..|prefix| - 1] else prefix
  }

  function ThroughLastSlash(s: string): string { s[..LastIndexOf(s, '/') + 1] }

  /** The prefix one level up: what comes before the last name, with its slash. */
  function Above(prefix: string): string { ThroughLastSlash(DropSlash(prefix)) }

  method BrowseBack(objectPrefix: string) returns (prefix: string)
    ensures prefix == Above(objectPrefix)
  {
    var body := DropSlash(objectPrefix);
    var parts := Split(body, '/');
    parts := parts[..|parts| - 1];
    PoppedIsAbove(body);
    prefix := if |parts| > 0 then Join(parts, "/") + "/" else "";
  }

  lemma PoppedIsAbove(body: string)
    ensures var parts := Split(body, '/')[..|Split(body, '/')| - 1];
      ThroughLastSlash(body) == if parts != [] then Join(parts, "/") + "/" else ""
  {
    var i := LastIndexOf(body, '/');
    if i < 0 {
      SplitOne(body, '/');
    } else {
      var head, name := body[..i], body[i + 1..];
      assert body == head + ['/'] + name;
      SplitConcat(head, name, '/');
      SplitOne(name, '/');
      assert (Split(head, '/') + [name])[..|Split(head, '/')|] == Split(head, '/');
      JoinSplit(head, '/');
      assert body[..i + 1] == head + "/";
    }
  }

  predicate Folder(prefix: string) { prefix == "" || EndsWith(prefix, "/") }

  /** Backing out of a folder restores the prefix it was entered from. */
  lemma AboveUndoesEnter(prefix: string, name: string)
    requires Folder(prefix) && '/' !in name
    ensures Above(prefix + name + "/") == prefix
  {
    var body := prefix + name;
    assert DropSlash(body + "/") == body;
    if prefix == "" {
      assert body == name;
    } else {
      var head := prefix[..|prefix| - 1];
      assert prefix == head + "/" && body == head + "/" + name;
      LastSlash(head, name);
      assert body[..|head| + 1] == prefix;
    }
  }

  function Back(prefix: string, steps: nat): string
    decreases steps
  {
    if steps == 0 then prefix else Back(Above(prefix), steps - 1)
  }

  /** Backing out of a chain of folders leads to the folder it began in. */
  lemma {:induction false} BackOutOfFolders(prefix: string, names: seq<string>)
    requires Folder(prefix) && forall name | name in names :: '/' !in name
    ensures Folder(Entered(prefix, names)) && Back(Entered(prefix, names), |names|) == prefix
  {
    if names != [] {
      var last := |names| - 1;
      var before := Entered(prefix, names[..last]);
      assert forall name | name in names[..last] :: name in names;
      BackOutOfFolders(prefix, names[..last]);
      AboveUndoesEnter(before, names[last]);
    }
  }

  function Entered(prefix: string, names: seq<string>): string {
    if names == [] then prefix else Entered(prefix, names[..|names| - 1]) + names[|names| - 1] + "/"
  }
}
