/** The terminal workspace (src/App.tsx): tabs, the active tab, the current session, and the
    cache of terminals. Handlers read the tabs through `terminalTabsRef`, which an effect copies
    from the state after each render. */
module TerminalWorkspace {
  import opened Sequences
  import opened Text

  datatype Tab = Tab(id: string, session: string, managed: bool)

  /** `connected` and `disconnected` are history: the sessions the backend has opened, and those
      it has been asked to close. `evictDue` says that the eviction effect has yet to run. */
  datatype State = State(
    tabs: seq<Tab>, tabsRef: seq<Tab>, active: Option<string>, session: string, returnTab: Option<string>,
    cache: set<string>, evictDue: bool, connected: set<string>, disconnected: set<string>)

  /** What the list of managed hosts says about the host of a tab. */
  datatype Host = Unlisted | Windows | Linux

  datatype Event =
    | HostOpening
    | HostConnected(session: string)
    | DialogConnected(session: string)
    | Activate(id: string)
    | Close(id: string)
    | CloseOthers(id: string)
    | CloseAll
    | Duplicate(id: string, host: Host)
    | ClientClosed(inServers: bool)
    | SyncRef
    | TerminalCached
    | Evict

  function Sessions(tabs: seq<Tab>): set<string> { set t | t in tabs :: t.session }

  function Live(s: State): set<string> {
    Sessions(s.tabs) + (if s.session == "" then {} else {s.session})
  }

  function FindTab(tabs: seq<Tab>, id: string): (r: Option<Tab>)
    ensures r.Some? ==> r.value in tabs && r.value.id == id
    ensures r.None? ==> forall t | t in tabs :: t.id != id
  {
    if tabs == [] then None else if tabs[0].id == id then Some(tabs[0]) else FindTab(tabs[1..], id)
  }

  function IdOther(id: string): Tab -> bool { (t: Tab) => t.id != id }

  function WithoutTab(tabs: seq<Tab>, id: string): seq<Tab> { Filter(tabs, IdOther(id)) }

  // ---------- The actions ----------

  function Activated(s: State, tab: Tab): State { s.(active := Some(tab.id), session := tab.session) }

  function Detached(s: State): State { s.(active := None, session := "") }

  function Connected(s: State, session: string, managed: bool): State {
    var tab := Tab(session, session, managed);
    s.(tabs := WithoutTab(s.tabs, tab.id) + [tab], active := Some(tab.id), session := session,
       connected := s.connected + {session})
  }

  function Closed(s: State, id: string): State {
    match FindTab(s.tabsRef, id)
    case None => s
    case Some(tab) =>
      var remaining := WithoutTab(s.tabsRef, id);
      var s1 := s.(tabs := remaining, disconnected := s.disconnected + {tab.session});
      if s.active != Some(id) then s1
      else if remaining != [] then Activated(s1, remaining[|remaining| - 1])
      else Detached(s1)
  }

  function ClosedOthers(s: State, id: string): State {
    match FindTab(s.tabsRef, id)
    case None => s
    case Some(keep) =>
      Activated(s.(tabs := [keep], disconnected := s.disconnected + Sessions(WithoutTab(s.tabsRef, id))), keep)
  }

  function ClosedAll(s: State): State {
    Detached(s.(tabs := [], disconnected := s.disconnected + Sessions(s.tabsRef)))
  }

  /** A managed host is opened anew: a Windows host in a window of its own, which leaves the
      workspace alone. Any other tab goes back to the connect dialog. */
  function Duplicated(s: State, tab: Tab, host: Host): State {
    if tab.managed then (if host.Linux? then Detached(s) else s)
    else Detached(s.(returnTab := s.active))
  }

  function ReturnTab(s: State): Option<Tab> {
    if s.returnTab.Some? then FindTab(s.tabsRef, s.returnTab.value) else None
  }

  function ClosedClient(s: State, inServers: bool): State {
    if inServers && s.active.Some? then Closed(s, s.active.value)
    else
      var s1 := s.(returnTab := None);
      if ReturnTab(s).Some? then Activated(s1, ReturnTab(s).value)
      else s1.(session := "", disconnected := if s.session == "" then s.disconnected else s.disconnected + {s.session})
  }

  /** What an event does, apart from making an eviction due. A connected session is one the
      backend has not closed. */
  function Act(s: State, e: Event): State {
    match e
    case HostOpening => Detached(s)
    case HostConnected(session) =>
      if session == "" || session in s.disconnected then s else Connected(s, session, true)
    case DialogConnected(session) =>
      if session == "" || session in s.disconnected then s
      else Connected(s, session, false).(returnTab := None)
    case Activate(id) =>
      var tab := FindTab(s.tabs, id);
      if tab.Some? then Activated(s, tab.value) else s
    case Close(id) => Closed(s, id)
    case CloseOthers(id) => ClosedOthers(s, id)
    case CloseAll => ClosedAll(s)
    case Duplicate(id, host) =>
      var tab := FindTab(s.tabs, id);
      if tab.Some? then Duplicated(s, tab.value, host) else s
    case ClientClosed(inServers) => ClosedClient(s, inServers)
    case SyncRef => s.(tabsRef := s.tabs)
    case TerminalCached => if s.session == "" then s else s.(cache := s.cache + {s.session})
    case Evict => if s.evictDue then s.(cache := s.cache * Live(s), evictDue := false) else s
  }

  /** The eviction effect depends on the tabs and the current session. */
  function Step(s: State, e: Event): State {
    var s' := Act(s, e);
    if s'.tabs != s.tabs || s'.session != s.session then s'.(evictDue := true) else s'
  }

  function Init(): State { State([], [], None, "", None, {}, false, {}, {}) }

  function Run(s: State, events: seq<Event>): State {
    if events == [] then s else Step(Run(s, events[..|events| - 1]), events[|events| - 1])
  }

  lemma RunSnoc(s: State, events: seq<Event>, e: Event)
    ensures Run(s, events + [e]) == Step(Run(s, events), e)
  {
    assert (events + [e])[..|events|] == events;
  }

  // ---------- Conservation ----------

  /** Every connected session is either the session of a tab or disconnected, never both. */
  predicate Conserved(s: State) {
    Sessions(s.tabs) !! s.disconnected && Sessions(s.tabs) + s.disconnected == s.connected
  }

  /** Tabs are named by their sessions, each once. */
  predicate Named(tabs: seq<Tab>) {
    (forall t | t in tabs :: t.id == t.session && t.session != "")
    && forall i, j | 0 <= i < j < |tabs| :: tabs[i].id != tabs[j].id
  }

  /** The active tab is an open one whose session is the current one; without an active tab
      there is no session. */
  predicate ActiveKept(s: State) {
    match s.active
    case None => s.session == ""
    case Some(id) => s.session == id && id in Sessions(s.tabs)
  }

  predicate CacheKept(s: State) { !s.evictDue ==> s.cache <= Live(s) }

  /** What holds in every run, however stale the ref is. */
  predicate Shape(s: State) {
    && Named(s.tabs) && Sessions(s.tabs) <= s.connected
    && Named(s.tabsRef) && Sessions(s.tabsRef) <= s.connected
  }

  predicate Inv(s: State) { Shape(s) && Conserved(s) && ActiveKept(s) }

  // ---------- When a handler may run ----------

  predicate CloseGuard(s: State, id: string) {
    FindTab(s.tabsRef, id).Some? ==> Sessions(s.tabsRef) - {id} == Sessions(s.tabs) - {id}
  }

  predicate CloseOthersGuard(s: State, id: string) {
    FindTab(s.tabsRef, id).Some? ==> id in Sessions(s.tabs) && Sessions(s.tabs) <= Sessions(s.tabsRef)
  }

  predicate ClientGuard(s: State, inServers: bool) {
    if inServers && s.active.Some? then CloseGuard(s, s.active.value)
    else if ReturnTab(s).Some? then s.returnTab.value in Sessions(s.tabs)
    else s.session == ""
  }

  /** What a handler needs of the ref, the tabs and the session when it starts. */
  predicate Guard(s: State, e: Event) {
    match e
    case Close(id) => CloseGuard(s, id)
    case CloseOthers(id) => CloseOthersGuard(s, id)
    case CloseAll => Sessions(s.tabs) <= Sessions(s.tabsRef)
    case ClientClosed(inServers) => ClientGuard(s, inServers)
    case _ => true
  }

  /** Every event of a run has met its guard. */
  predicate GuardsMet(s: State, events: seq<Event>) {
    events != [] ==>
      var before := events[..|events| - 1];
      GuardsMet(s, before) && Guard(Run(s, before), events[|events| - 1])
  }

  // ---------- Facts about tabs ----------

  lemma {:induction false} NamedFilter(tabs: seq<Tab>, id: string)
    requires Named(tabs)
    ensures Named(WithoutTab(tabs, id))
    ensures Sessions(WithoutTab(tabs, id)) == Sessions(tabs) - {id}
  {
    FilterMembers(tabs, IdOther(id));
    if tabs != [] {
      assert forall t | t in tabs[1..] :: t in tabs;
      NamedFilter(tabs[1..], id);
      FilterMembers(tabs[1..], IdOther(id));
      if tabs[0].id != id {
        var rest := WithoutTab(tabs[1..], id);
        NamedCons(tabs[0], rest, tabs);
      }
    }
  }

  lemma NamedCons(t: Tab, rest: seq<Tab>, tabs: seq<Tab>)
    requires tabs != [] && tabs[0] == t && Named(tabs) && Named(rest) && forall x | x in rest :: x in tabs[1..]
    ensures Named([t] + rest)
  {
    var all := [t] + rest;
    forall i, j | 0 <= i < j < |all|
      ensures all[i].id != all[j].id
    {
      assert all[j] == rest[j - 1] && rest[j - 1] in tabs[1..];
      var k :| 0 <= k < |tabs[1..]| && tabs[1..][k] == rest[j - 1];
      assert tabs[k + 1] == rest[j - 1];
      if i > 0 { assert all[i] == rest[i - 1]; }
    }
  }

  lemma NamedAppend(tabs: seq<Tab>, t: Tab)
    requires Named(tabs) && t.id == t.session != "" && t.session !in Sessions(tabs)
    ensures Named(tabs + [t]) && Sessions(tabs + [t]) == Sessions(tabs) + {t.session}
  {
    var all := tabs + [t];
    forall i, j | 0 <= i < j < |all|
      ensures all[i].id != all[j].id
    {
      if j == |tabs| { assert tabs[i] in tabs && tabs[i].session in Sessions(tabs); }
    }
    assert t in all;
    assert forall x | x in tabs :: x in all;
  }

  lemma FindIffSession(tabs: seq<Tab>, id: string)
    requires Named(tabs)
    ensures FindTab(tabs, id).Some? <==> id in Sessions(tabs)
    ensures FindTab(tabs, id).Some? ==> FindTab(tabs, id).value.session == id
  {
  }

  // ---------- Each action keeps the invariant exactly under its guard ----------

  lemma ConnectKeeps(s: State, session: string, managed: bool)
    requires Shape(s) && session != ""
    ensures Shape(Connected(s, session, managed))
    ensures Inv(s) && session !in s.disconnected ==> Inv(Connected(s, session, managed))
  {
    NamedFilter(s.tabs, session);
    NamedAppend(WithoutTab(s.tabs, session), Tab(session, session, managed));
  }

  lemma OneTab(tab: Tab)
    requires tab.id == tab.session != ""
    ensures Named([tab]) && Sessions([tab]) == {tab.id}
  {
    assert tab in [tab];
  }

  lemma CloseShape(s: State, id: string)
    requires Shape(s)
    ensures Shape(Closed(s, id))
  {
    NamedFilter(s.tabsRef, id);
  }

  lemma CloseOthersShape(s: State, id: string)
    requires Shape(s)
    ensures Shape(ClosedOthers(s, id))
  {
    FindIffSession(s.tabsRef, id);
    if FindTab(s.tabsRef, id).Some? { OneTab(FindTab(s.tabsRef, id).value); }
  }

  lemma ClientShape(s: State, inServers: bool)
    requires Shape(s)
    ensures Shape(ClosedClient(s, inServers))
  {
    if s.active.Some? { CloseShape(s, s.active.value); }
  }

  predicate Closes(e: Event) { e.Close? || e.CloseOthers? || e.CloseAll? || e.ClientClosed? }

  /** An event that closes nothing. */
  lemma OpenKeeps(s: State, e: Event)
    requires Shape(s) && !Closes(e)
    ensures Shape(Act(s, e))
    ensures Inv(s) ==> Inv(Act(s, e))
  {
    match e
    case HostConnected(session) => if session != "" { ConnectKeeps(s, session, true); }
    case DialogConnected(session) => if session != "" { ConnectKeeps(s, session, false); }
    case Activate(id) => FindIffSession(s.tabs, id);
    case _ =>
  }

  lemma ShapeStep(s: State, e: Event)
    requires Shape(s)
    ensures Shape(Step(s, e))
  {
    match e
    case Close(id) => CloseShape(s, id);
    case CloseOthers(id) => CloseOthersShape(s, id);
    case CloseAll =>
    case ClientClosed(inServers) => ClientShape(s, inServers);
    case _ => OpenKeeps(s, e);
  }

  /** Closing a tab conserves the sessions exactly when the ref lists the same sessions as the
      state, apart from the one being closed; and then the active tab is right as well. */
  lemma CloseConservesIff(s: State, id: string)
    requires Inv(s) && FindTab(s.tabsRef, id).Some?
    ensures Conserved(Closed(s, id)) <==> Sessions(s.tabsRef) - {id} == Sessions(s.tabs) - {id}
    ensures Inv(Closed(s, id)) <==> CloseGuard(s, id)
  {
    FindIffSession(s.tabsRef, id);
    NamedFilter(s.tabsRef, id);
    var remaining := WithoutTab(s.tabsRef, id);
    if remaining != [] { assert remaining[|remaining| - 1] in remaining; }
  }

  /** Closing the other tabs conserves the sessions exactly when the kept tab is still open and
      the ref misses no open tab; and then the active tab is right as well. */
  lemma CloseOthersConservesIff(s: State, id: string)
    requires Inv(s) && FindTab(s.tabsRef, id).Some?
    ensures Conserved(ClosedOthers(s, id))
       <==> id in Sessions(s.tabs) && Sessions(s.tabs) <= Sessions(s.tabsRef)
    ensures Inv(ClosedOthers(s, id)) <==> CloseOthersGuard(s, id)
  {
    FindIffSession(s.tabsRef, id);
    NamedFilter(s.tabsRef, id);
    OneTab(FindTab(s.tabsRef, id).value);
  }

  /** Closing all tabs conserves the sessions exactly when the ref misses no open tab. */
  lemma CloseAllConservesIff(s: State)
    requires Inv(s)
    ensures Conserved(ClosedAll(s)) <==> Sessions(s.tabs) <= Sessions(s.tabsRef)
    ensures Inv(ClosedAll(s)) <==> Sessions(s.tabs) <= Sessions(s.tabsRef)
  {
    assert Sessions([]) == {};
  }

  /** Closing the client keeps the workspace right exactly when, in the servers section, its
      active tab may be closed, and otherwise the tab to return to is still open, or there is no
      such tab and no session. */
  lemma ClientKeptIff(s: State, inServers: bool)
    requires Inv(s)
    ensures Inv(ClosedClient(s, inServers)) <==> ClientGuard(s, inServers)
  {
    if inServers && s.active.Some? {
      if FindTab(s.tabsRef, s.active.value).Some? { CloseConservesIff(s, s.active.value); }
    } else if s.returnTab.Some? {
      FindIffSession(s.tabsRef, s.returnTab.value);
    }
  }

  lemma CloseKeptIff(s: State, e: Event)
    requires Inv(s) && Closes(e)
    ensures Inv(Act(s, e)) <==> Guard(s, e)
  {
    match e
    case Close(id) => if FindTab(s.tabsRef, id).Some? { CloseConservesIff(s, id); }
    case CloseOthers(id) => if FindTab(s.tabsRef, id).Some? { CloseOthersConservesIff(s, id); }
    case CloseAll => CloseAllConservesIff(s);
    case ClientClosed(inServers) => ClientKeptIff(s, inServers);
  }

  lemma DueKeeps(s: State, e: Event)
    ensures Inv(Step(s, e)) <==> Inv(Act(s, e))
  {
  }

  lemma StepKeptIff(s: State, e: Event)
    requires Inv(s)
    ensures Inv(Step(s, e)) <==> Guard(s, e)
  {
    DueKeeps(s, e);
    if Closes(e) { CloseKeptIff(s, e); } else { OpenKeeps(s, e); }
  }

  /** A ref that is up to date meets every guard, for a client closed in the servers section or
      without a session. */
  lemma UpToDateMeetsGuard(s: State, e: Event)
    requires Inv(s) && s.tabsRef == s.tabs
    requires e.ClientClosed? ==> e.inServers || s.session == ""
    ensures Guard(s, e)
  {
    if e.CloseOthers? {
      FindIffSession(s.tabs, e.id);
    } else if e.ClientClosed? && s.returnTab.Some? {
      FindIffSession(s.tabs, s.returnTab.value);
    }
  }

  // ---------- Main results ----------

  /** The law of the workspace: each connected session is in exactly one of the open tabs and the
      disconnected sessions; tab ids are unique; and the active tab is none with no session, or
      an open tab whose session is the current one. */
  ghost predicate Lawful(s: State) {
    && (forall x :: x in s.connected <==> x in Sessions(s.tabs) || x in s.disconnected)
    && (forall x :: !(x in Sessions(s.tabs) && x in s.disconnected))
    && (forall i, j | 0 <= i < j < |s.tabs| :: s.tabs[i].id != s.tabs[j].id)
    && (if s.active.None? then s.session == ""
        else exists i :: 0 <= i < |s.tabs| && s.tabs[i].id == s.active.value && s.tabs[i].session == s.session)
  }

  lemma LawfulIffInv(s: State)
    requires Shape(s)
    ensures Lawful(s) <==> Inv(s)
  {
    if Inv(s) && s.active.Some? {
      var t :| t in s.tabs && t.session == s.active.value;
      assert t.id == t.session;
    }
    if Lawful(s) {
      assert Sessions(s.tabs) !! s.disconnected;
      assert Sessions(s.tabs) + s.disconnected == s.connected;
      if s.active.Some? {
        var i :| 0 <= i < |s.tabs| && s.tabs[i].id == s.active.value && s.tabs[i].session == s.session;
        assert s.tabs[i] in s.tabs;
      }
    }
  }

  lemma {:induction false} RunShape(events: seq<Event>)
    ensures Shape(Run(Init(), events))
  {
    if events != [] {
      RunShape(events[..|events| - 1]);
      ShapeStep(Run(Init(), events[..|events| - 1]), events[|events| - 1]);
    }
  }

  lemma LawfulStepIff(before: seq<Event>, e: Event)
    requires Lawful(Run(Init(), before))
    ensures Lawful(Step(Run(Init(), before), e)) <==> Guard(Run(Init(), before), e)
  {
    var s := Run(Init(), before);
    RunShape(before);
    ShapeStep(s, e);
    LawfulIffInv(s);
    LawfulIffInv(Step(s, e));
    StepKeptIff(s, e);
  }

  ghost predicate AlwaysLawful(events: seq<Event>) {
    forall n | 0 <= n <= |events| :: Lawful(Run(Init(), events[..n]))
  }

  lemma AlwaysLawfulStep(events: seq<Event>)
    requires events != []
    ensures AlwaysLawful(events) <==> AlwaysLawful(events[..|events| - 1]) && Lawful(Run(Init(), events))
  {
    var before := events[..|events| - 1];
    assert events[..|events|] == events;
    assert forall n | 0 <= n <= |before| :: before[..n] == events[..n];
    if AlwaysLawful(before) && Lawful(Run(Init(), events)) {
      forall n | 0 <= n <= |events|
        ensures Lawful(Run(Init(), events[..n]))
      {
        if n < |events| { assert before[..n] == events[..n]; }
      }
    }
  }

  /** A run obeys the law from beginning to end exactly when each of its events met its guard. */
  lemma {:induction false} SessionsConservedIff(events: seq<Event>)
    ensures AlwaysLawful(events) <==> GuardsMet(Init(), events)
  {
    if events == [] {
      assert events[..0] == [];
      RunShape([]);
      LawfulIffInv(Init());
    } else {
      var before := events[..|events| - 1];
      SessionsConservedIff(before);
      AlwaysLawfulStep(events);
      assert before[..|before|] == before;
      if AlwaysLawful(before) {
        LawfulStepIff(before, events[|events| - 1]);
      }
    }
  }

  lemma CacheStep(s: State, e: Event)
    requires CacheKept(s)
    ensures CacheKept(Step(s, e))
  {
    if !Step(s, e).evictDue {
      assert Live(Step(s, e)) == Live(s);
    }
  }

  /** In every run, in sync or not: unless an eviction is due the cache holds live sessions only. */
  lemma {:induction false} CacheHoldsLiveSessions(events: seq<Event>)
    ensures var s := Run(Init(), events); !s.evictDue ==> s.cache <= Live(s)
  {
    if events != [] {
      CacheHoldsLiveSessions(events[..|events| - 1]);
      CacheStep(Run(Init(), events[..|events| - 1]), events[|events| - 1]);
    }
  }

  /** A tab connected after the last copy is lost when another tab is closed: its session stays
      connected but is in no tab. */
  lemma StaleRefLosesSession()
    ensures var s := Run(Init(), [HostConnected("a"), SyncRef, HostConnected("b"), Close("a")]);
      "b" in s.connected && "b" !in s.disconnected && "b" !in Sessions(s.tabs) && s.active == Some("b")
  {
    var before := [HostConnected("a"), SyncRef, HostConnected("b")];
    var s := OneCopied();
    FindOne(Tab("a", "a", true));
    After(Init(), before, s, Close("a"), before + [Close("a")]);
    assert before + [Close("a")] == [HostConnected("a"), SyncRef, HostConnected("b"), Close("a")];
  }

  /** The ref lists the first of two tabs only. */
  lemma OneCopied() returns (s: State)
    ensures s == Run(Init(), [HostConnected("a"), SyncRef, HostConnected("b")])
    ensures s.tabsRef == [Tab("a", "a", true)] && s.active == Some("b") && "b" in s.connected && s.disconnected == {}
  {
    var all := [HostConnected("a"), SyncRef, HostConnected("b")];
    var tab := Tab("a", "a", true);
    var s1 := Step(Init(), all[0]);
    assert Run(Init(), []) == Init() && [] + [all[0]] == all[..1] && WithoutTab([], "a") + [tab] == [tab];
    After(Init(), [], Init(), all[0], all[..1]);
    var s2 := Step(s1, SyncRef);
    After(Init(), all[..1], s1, all[1], all[..2]);
    s := Step(s2, HostConnected("b"));
    After(Init(), all[..2], s2, all[2], all);
  }

  /** A tab is closed while its duplicate waits in the connect dialog, and the ref is not copied. */
  lemma StaleAfterClose() returns (s: State)
    ensures s == Run(Init(), [DialogConnected("a"), SyncRef, Duplicate("a", Unlisted), Close("a")])
    ensures s == State([], [Tab("a", "a", false)], None, "", Some("a"), {}, true, {"a"}, {"a"})
  {
    var all := [DialogConnected("a"), SyncRef, Duplicate("a", Unlisted), Close("a")];
    var tab := Tab("a", "a", false);
    var s1 := OneConnected(tab);
    assert Run(Init(), []) == Init() && [] + [all[0]] == all[..1];
    After(Init(), [], Init(), all[0], all[..1]);
    var s2 := s1.(tabsRef := [tab]);
    After(Init(), all[..1], s1, all[1], all[..2]);
    var s3 := s2.(active := None, session := "", returnTab := Some("a"));
    FindOne(tab);
    After(Init(), all[..2], s2, all[2], all[..3]);
    s := s3.(tabs := [], disconnected := {"a"});
    CloseOne(tab, s3, s);
    After(Init(), all[..3], s3, all[3], all);
  }

  /** Closing the dialog then makes the closed tab active, with a disconnected session. */
  lemma StaleReturnTab()
    ensures var s := Run(Init(), [DialogConnected("a"), SyncRef, Duplicate("a", Unlisted), Close("a"),
                                  ClientClosed(true)]);
      s.tabs == [] && s.active == Some("a") && s.session == "a" && "a" in s.disconnected
  {
    var before := [DialogConnected("a"), SyncRef, Duplicate("a", Unlisted), Close("a")];
    var s := StaleAfterClose();
    FindOne(Tab("a", "a", false));
    After(Init(), before, s, ClientClosed(true), before + [ClientClosed(true)]);
    assert before + [ClientClosed(true)] ==
      [DialogConnected("a"), SyncRef, Duplicate("a", Unlisted), Close("a"), ClientClosed(true)];
  }

  lemma FindOne(tab: Tab)
    ensures FindTab([tab], tab.id) == Some(tab) && WithoutTab([tab], tab.id) == []
  {
    FilterNone([tab], IdOther(tab.id));
  }

  /** The first connection from the dialog. */
  lemma OneConnected(tab: Tab) returns (s: State)
    requires tab == Tab("a", "a", false)
    ensures s == State([tab], [], Some("a"), "a", None, {}, true, {"a"}, {})
    ensures s == Step(Init(), DialogConnected("a"))
  {
    var none: set<string> := {};
    assert none + {"a"} == {"a"} && WithoutTab([], "a") + [tab] == [tab];
    s := State([tab], [], Some("a"), "a", None, {}, true, {"a"}, {});
  }

  lemma CloseOne(tab: Tab, s: State, s': State)
    requires s.tabs == s.tabsRef == [tab] && tab.id == tab.session && s.active.None?
    requires s.disconnected == {} && s.evictDue
    requires s' == s.(tabs := [], disconnected := {tab.id})
    ensures Step(s, Close(tab.id)) == s'
  {
    FindOne(tab);
    assert s.disconnected + {tab.id} == {tab.id};
  }

  lemma After(s0: State, before: seq<Event>, s: State, e: Event, events: seq<Event>)
    requires Run(s0, before) == s && events == before + [e]
    ensures Run(s0, events) == Step(s, e)
  {
    assert events[..|events| - 1] == before;
  }

  // ---------- What each action selects ----------

  function TabId(): Tab -> string { (t: Tab) => t.id }

  /** The ids of the tabs, in the order in which they are shown. */
  function Ids(tabs: seq<Tab>): seq<string> { Keys(tabs, TabId()) }

  lemma {:induction false} IdsWithout(tabs: seq<Tab>, id: string)
    ensures Ids(WithoutTab(tabs, id)) == Without(Ids(tabs), id)
  {
    FilterKeys(tabs, TabId(), IdOther(id), Other(id));
  }

  lemma {:induction false} IdsAt(tabs: seq<Tab>, i: nat)
    requires i < |tabs|
    ensures Ids(tabs)[i] == tabs[i].id
  {
    if i > 0 { IdsAt(tabs[1..], i - 1); }
  }

  lemma FindIffId(tabs: seq<Tab>, id: string)
    requires Named(tabs)
    ensures FindTab(tabs, id).Some? <==> id in Ids(tabs)
    ensures FindTab(tabs, id).Some? ==> FindTab(tabs, id).value.id == FindTab(tabs, id).value.session == id
  {
    KeysMembers(tabs, TabId());
    if id in Ids(tabs) {
      var t := KeyedMember(tabs, TabId(), id);
      assert t in tabs && t.id == id;
    }
  }

  /** Nothing but the active tab and the session differs, and the eviction that this makes due. */
  predicate OnlySelects(s: State, s': State) {
    && s'.tabs == s.tabs && s'.tabsRef == s.tabsRef && s'.cache == s.cache
    && s'.connected == s.connected && s'.disconnected == s.disconnected
  }

  /** Selecting an open tab makes it active with its own session. */
  lemma ActivateSelects(s: State, id: string)
    requires Named(s.tabs)
    ensures var s' := Step(s, Activate(id));
      && OnlySelects(s, s') && s'.returnTab == s.returnTab
      && (if id in Ids(s.tabs) then s'.active == Some(id) && s'.session == id
          else s'.active == s.active && s'.session == s.session)
  {
    FindIffId(s.tabs, id);
  }

  /** Opening a host leaves no tab active. */
  lemma OpeningDetaches(s: State)
    ensures var s' := Step(s, HostOpening);
      OnlySelects(s, s') && s'.returnTab == s.returnTab && s'.active.None? && s'.session == ""
  {
  }

  /** A new connection gets the last tab and is active; from the dialog it also ends a duplicate. */
  lemma ConnectingSelects(s: State, session: string, managed: bool)
    requires session != "" && session !in s.disconnected
    ensures var s' := Step(s, if managed then HostConnected(session) else DialogConnected(session));
      && Ids(s'.tabs) == Without(Ids(s.tabs), session) + [session]
      && s'.tabs[|s'.tabs| - 1] == Tab(session, session, managed)
      && s'.active == Some(session) && s'.session == session
      && s'.returnTab == (if managed then s.returnTab else None)
      && s'.tabsRef == s.tabsRef && s'.connected == s.connected + {session} && s'.disconnected == s.disconnected
  {
    var tab := Tab(session, session, managed);
    IdsWithout(s.tabs, session);
    IdsAppend(WithoutTab(s.tabs, session), tab);
  }

  lemma {:induction false} IdsAppend(tabs: seq<Tab>, tab: Tab)
    ensures Ids(tabs + [tab]) == Ids(tabs) + [tab.id]
  {
    if tabs == [] {
      assert [] + [tab] == [tab] && [tab][1..] == [];
    } else {
      assert (tabs + [tab])[1..] == tabs[1..] + [tab];
      IdsAppend(tabs[1..], tab);
    }
  }

  /** Closing a tab of the ref leaves the others in their order. The last of them becomes active
      if the closed one was, or none if it was the only one; otherwise the selection stays. */
  lemma CloseSelects(s: State, id: string)
    requires Named(s.tabsRef)
    ensures var s' := Step(s, Close(id));
      if id !in Ids(s.tabsRef) then s' == s
      else
        var others := Without(Ids(s.tabsRef), id);
        && Ids(s'.tabs) == others && s'.tabsRef == s.tabsRef && s'.returnTab == s.returnTab
        && s'.connected == s.connected && s'.disconnected == s.disconnected + {id}
        && (if s.active != Some(id) then s'.active == s.active && s'.session == s.session
            else if others == [] then s'.active.None? && s'.session == ""
            else s'.active == Some(others[|others| - 1]) && s'.session == others[|others| - 1])
  {
    FindIffId(s.tabsRef, id);
    LastOfOthers(s.tabsRef, id);
  }

  lemma LastOfOthers(tabs: seq<Tab>, id: string)
    requires Named(tabs)
    ensures var remaining, others := WithoutTab(tabs, id), Without(Ids(tabs), id);
      && Ids(remaining) == others
      && (others != [] ==>
            var last, name := remaining[|remaining| - 1], others[|others| - 1];
            last.id == name && last.session == name)
  {
    IdsWithout(tabs, id);
    NamedFilter(tabs, id);
    var remaining := WithoutTab(tabs, id);
    if remaining != [] {
      IdsAt(remaining, |remaining| - 1);
      assert remaining[|remaining| - 1] in remaining;
    }
  }

  /** Closing the others keeps one tab of the ref, which is then active. */
  lemma CloseOthersSelects(s: State, id: string)
    requires Named(s.tabsRef)
    ensures var s' := Step(s, CloseOthers(id));
      if id !in Ids(s.tabsRef) then s' == s
      else
        && Ids(s'.tabs) == [id] && s'.active == Some(id) && s'.session == id && s'.tabsRef == s.tabsRef
        && s'.returnTab == s.returnTab && s'.connected == s.connected
        && s'.disconnected == s.disconnected + (Sessions(s.tabsRef) - {id})
  {
    FindIffId(s.tabsRef, id);
    NamedFilter(s.tabsRef, id);
  }

  /** Closing all leaves nothing. */
  lemma CloseAllSelects(s: State)
    ensures var s' := Step(s, CloseAll);
      && s'.tabs == [] && s'.active.None? && s'.session == "" && s'.tabsRef == s.tabsRef
      && s'.returnTab == s.returnTab && s'.connected == s.connected
      && s'.disconnected == s.disconnected + Sessions(s.tabsRef)
  {
  }

  /** A duplicate made in the dialog remembers the tab it came from; one of a Linux host is a host
      being opened; other managed tabs are left as they are. */
  lemma DuplicateSelects(s: State, id: string, host: Host)
    requires Named(s.tabs) && id in Ids(s.tabs)
    ensures var s', tab := Step(s, Duplicate(id, host)), FindTab(s.tabs, id);
      && tab.Some? && tab.value.id == id && OnlySelects(s, s')
      && (if !tab.value.managed then s'.returnTab == s.active && s'.active.None? && s'.session == ""
          else
            && s'.returnTab == s.returnTab
            && (if host.Linux? then s'.active.None? && s'.session == ""
                else s'.active == s.active && s'.session == s.session))
  {
    FindIffId(s.tabs, id);
  }

  /** Closing the client closes the active tab in the servers section; otherwise it returns to the
      tab that a duplicate came from, or else ends the session. */
  lemma ClientSelects(s: State, inServers: bool)
    requires Named(s.tabsRef)
    ensures var s' := Step(s, ClientClosed(inServers));
      if inServers && s.active.Some? then s' == Step(s, Close(s.active.value))
      else
        && s'.tabs == s.tabs && s'.tabsRef == s.tabsRef && s'.connected == s.connected && s'.returnTab.None?
        && (if s.returnTab.Some? && s.returnTab.value in Ids(s.tabsRef)
            then s'.active == s.returnTab && s'.session == s.returnTab.value && s'.disconnected == s.disconnected
            else s'.active == s.active && s'.session == ""
                 && s'.disconnected == s.disconnected + (if s.session == "" then {} else {s.session}))
  {
    if s.returnTab.Some? { FindIffId(s.tabsRef, s.returnTab.value); }
  }

  /** Making a duplicate and closing its dialog leads back to where one was. */
  lemma DuplicateReturns(s: State, id: string)
    requires Inv(s) && s.tabsRef == s.tabs && s.active.Some?
    requires id in Ids(s.tabs) && forall t | t in s.tabs && t.id == id :: !t.managed
    ensures var s' := Step(Step(s, Duplicate(id, Unlisted)), ClientClosed(true));
      s'.active == s.active && s'.session == s.session && OnlySelects(s, s')
  {
    var s1 := Step(s, Duplicate(id, Unlisted));
    DuplicateSelects(s, id, Unlisted);
    FindIffSession(s.tabs, s.active.value);
    FindIffId(s.tabs, s.active.value);
    ClientSelects(s1, true);
  }

  /** The rest: the copy, the cache, and when an eviction is due. */
  lemma CopyAndCache(s: State)
    ensures Step(s, SyncRef) == s.(tabsRef := s.tabs)
    ensures Step(s, TerminalCached) == if s.session == "" then s else s.(cache := s.cache + {s.session})
    ensures var s' := Step(s, Evict);
      && s' == s.(cache := s'.cache, evictDue := false)
      && forall id :: id in s'.cache <==>
           (id in s.cache
            && (s.evictDue ==> ((id == s.session && id != "") || exists t | t in s.tabs :: t.session == id)))
  {
  }

  /** An eviction becomes due when the tabs or the session change, and only an eviction ends that. */
  lemma EvictionDueIff(s: State, e: Event)
    ensures var s' := Step(s, e);
      s'.evictDue <==> s'.tabs != s.tabs || s'.session != s.session || (s.evictDue && !e.Evict?)
  {
  }

  // ---------- The code as it runs ----------

  class Workspace {
    var tabs: seq<Tab>
    var tabsRef: seq<Tab>
    var active: Option<string>
    var session: string
    var returnTab: Option<string>
    var cache: set<string>
    var evictDue: bool
    ghost var connected: set<string>
    var disconnected: set<string>

    /** The events that have been handled since the start. */
    ghost var history: seq<Event>

    ghost function View(): State
      reads this
    {
      State(tabs, tabsRef, active, session, returnTab, cache, evictDue, connected, disconnected)
    }

    /** The state is that of a run, so that every result about runs holds of the object. */
    ghost predicate Reached()
      reads this
    {
      View() == Run(Init(), history)
    }

    lemma Safe()
      requires Reached() && GuardsMet(Init(), history)
      ensures Lawful(View())
    {
      SessionsConservedIff(history);
      assert history[..|history|] == history;
    }

    constructor ()
      ensures Reached() && history == [] && View() == Init()
      ensures tabs == tabsRef == [] && active.None? && session == "" && returnTab.None? && cache == {}
    {
      history := [];
      tabs, tabsRef, active, session, returnTab := [], [], None, "", None;
      cache, evictDue, connected, disconnected := {}, false, {}, {};
    }

    method ActivateTab(tab: Tab)
      modifies this
      ensures View() == Activated(old(View()), tab) && history == old(history)
    {
      active := Some(tab.id);
      session := tab.session;
    }

    /** A connection made in the workspace, for a managed host or from the dialog. */
    method SessionConnected(newSession: string, managed: bool)
      requires newSession != "" && newSession !in disconnected
      modifies this
      ensures View() == Act(old(View()), if managed then HostConnected(newSession) else DialogConnected(newSession))
      ensures history == old(history)
    {
      session := newSession;
      var tab := Tab(newSession, newSession, managed);
      tabs := WithoutTab(tabs, tab.id) + [tab];
      active := Some(tab.id);
      connected := connected + {newSession};
      if !managed { returnTab := None; }
    }

    method CloseTerminalTab(id: string)
      modifies this
      ensures View() == Act(old(View()), Close(id)) && history == old(history)
    {
      var tab := FindTab(tabsRef, id);
      if tab.None? { return; }
      var remaining := WithoutTab(tabsRef, id);
      var closingActiveTab := active == Some(id);
      tabs := remaining;
      if closingActiveTab {
        if remaining != [] {
          ActivateTab(remaining[|remaining| - 1]);
        } else {
          active := None;
          session := "";
        }
      }
      disconnected := disconnected + {tab.value.session};
    }

    method CloseOtherTerminalTabs(id: string)
      modifies this
      ensures View() == Act(old(View()), CloseOthers(id)) && history == old(history)
    {
      var keep := FindTab(tabsRef, id);
      if keep.None? { return; }
      var closing := WithoutTab(tabsRef, id);
      tabs := [keep.value];
      ActivateTab(keep.value);
      disconnected := disconnected + Sessions(closing);
    }

    method CloseAllTerminalTabs()
      modifies this
      ensures View() == Act(old(View()), CloseAll) && history == old(history)
    {
      var closing := tabsRef;
      tabs := [];
      active := None;
      session := "";
      disconnected := disconnected + Sessions(closing);
    }

    method DuplicateTerminalTab(tab: Tab, host: Host)
      modifies this
      ensures View() == Duplicated(old(View()), tab, host) && history == old(history)
    {
      if tab.managed {
        if host.Linux? {
          active := None;
          session := "";
        }
        return;
      }
      returnTab := active;
      active := None;
      session := "";
    }

    method CloseSshClient(inServers: bool)
      modifies this
      ensures View() == Act(old(View()), ClientClosed(inServers)) && history == old(history)
    {
      if inServers && active.Some? {
        CloseTerminalTab(active.value);
        return;
      }
      if returnTab.Some? {
        var tab := FindTab(tabsRef, returnTab.value);
        returnTab := None;
        if tab.Some? {
          ActivateTab(tab.value);
          return;
        }
      }
      if session != "" { disconnected := disconnected + {session}; }
      session := "";
    }

    /** A host is being opened: no tab is active until it has connected. */
    method Detach()
      modifies this
      ensures View() == Act(old(View()), HostOpening) && history == old(history)
    {
      active := None;
      session := "";
    }

    /** The eviction effect. */
    method EvictTerminals()
      modifies this`cache, this`evictDue
      ensures old(evictDue) ==> View() == Act(old(View()), Evict)
      ensures !old(evictDue) ==> View() == old(View())
    {
      if !evictDue { return; }
      var live := Sessions(tabs) + (if session == "" then {} else {session});
      cache := Evicted(cache, live);
      evictDue := false;
    }

    /** The event loop: one event after another is handed to its handler, and the eviction effect
        becomes due when what it depends on has changed. */
    method Handle(e: Event)
      requires Reached()
      modifies this
      ensures Reached() && history == old(history) + [e] && View() == Step(old(View()), e)
    {
      var oldTabs, oldSession := tabs, session;
      Dispatch(e);
      if tabs != oldTabs || session != oldSession { evictDue := true; }
      RunSnoc(Init(), history, e);
      history := history + [e];
    }

    method Dispatch(e: Event)
      modifies this
      ensures View() == Act(old(View()), e) && history == old(history)
    {
      match e {
        case HostOpening => Detach();
        case HostConnected(id) => if id != "" && id !in disconnected { SessionConnected(id, true); }
        case DialogConnected(id) => if id != "" && id !in disconnected { SessionConnected(id, false); }
        case Activate(id) =>
          var tab := FindTab(tabs, id);
          if tab.Some? { ActivateTab(tab.value); }
        case Close(id) => CloseTerminalTab(id);
        case CloseOthers(id) => CloseOtherTerminalTabs(id);
        case CloseAll => CloseAllTerminalTabs();
        case Duplicate(id, host) =>
          var tab := FindTab(tabs, id);
          if tab.Some? { DuplicateTerminalTab(tab.value, host); }
        case ClientClosed(inServers) => CloseSshClient(inServers);
        case SyncRef => tabsRef := tabs;
        case TerminalCached => if session != "" { cache := cache + {session}; }
        case Evict => EvictTerminals();
      }
    }
  }

  /** One pass over the cached terminals, which drops those of sessions that are not live. */
  method Evicted(cached: set<string>, live: set<string>) returns (kept: set<string>)
    ensures kept == cached * live
  {
    kept := cached;
    var left := cached;
    while left != {}
      invariant left <= kept <= cached
      invariant forall id | id in cached && id !in left :: id in kept <==> id in live
      decreases |left|
    {
      var id :| id in left;
      left := left - {id};
      if id !in live { kept := kept - {id}; }
    }
  }
}
