/** What each event of the panel refresh does (src/mobile/useMobilePanelRefresh.ts), said of the
    fields alone: when the list is written, when rounds begin and end, and when timers are set. */
module PanelOutcomes {
  import opened Sequences
  import opened PanelRefresh

  // ---------- When an outcome is written ----------

  /** The round of instance `i` begun at generation `g` has been overtaken: its instance has been
      cleaned up, or a visibility change has hit it since. */
  predicate Outdated(s: State, i: nat, g: nat) {
    i < |s.instances| && (s.instances[i].disposed || s.instances[i].generation > g)
  }

  /** The event brings the outcome of something that round `k` awaits. */
  predicate ComesBack(e: Event, k: nat) { (e.WorkerResumes? || e.CacheResumes?) && e.round == k }

  /** An outcome is written if and only if the instance is neither cleaned up nor at a later
      generation, and the page is neither hidden nor paused: then the panel with that id, and no
      other, is replaced in its place. */
  lemma OutcomeWrittenIff(s: State, k: nat, which: Which, outcome: Outcome)
    requires k < |s.rounds| && s.rounds[k].QueueRound? && WorkerOf(s.rounds[k], which).Waiting?
    requires s.rounds[k].owner < |s.instances|
    ensures var s', inst := Step(s, WorkerResumes(k, which, outcome)), s.instances[s.rounds[k].owner];
      if outcome.Updated? && !inst.disposed && inst.generation == s.rounds[k].generation
         && !s.hidden && !s.latestPaused
      then
        && |s'.panels| == |s.panels|
        && forall j | 0 <= j < |s.panels| ::
             s'.panels[j] == if s.panels[j].id == outcome.panel.id then outcome.panel else s.panels[j]
      else s'.panels == s.panels
  {
    if outcome.Updated? { ReplacedKeepsIds(s.panels, outcome.panel); }
  }

  /** The list that is read outside the app is written under the same guard. */
  lemma CachedListWrittenIff(s: State, k: nat, cached: Cached)
    requires k < |s.rounds| && s.rounds[k].CacheRound? && s.rounds[k].owner < |s.instances|
    ensures var s', inst := Step(s, CacheResumes(k, cached)), s.instances[s.rounds[k].owner];
      s'.panels ==
        if cached.Read? && !inst.disposed && inst.generation == s.rounds[k].generation && !s.hidden && !s.latestPaused
        then cached.panels else s.panels
  {
    var panels := if cached.Read? && Valid(s, s.rounds[k]) then cached.panels else s.panels;
    FinishPanels(s.(panels := panels), k, cached.Unread?);
  }

  /** Nothing else than an outcome and the rest of the program writes the list. */
  lemma ListWrittenBy(s: State, e: Event)
    requires !e.WorkerResumes? && !e.CacheResumes?
    ensures Step(s, e).panels == if e.SetPanels? then e.panels else s.panels
  {
    if !e.SetPanels? { PanelsAfterStep(s, e); }
  }

  lemma OutdatedUnwritten(s: State, e: Event, k: nat)
    requires k < |s.rounds| && ComesBack(e, k)
    requires Outdated(s, s.rounds[k].owner, s.rounds[k].generation) || s.hidden || s.latestPaused
    ensures Step(s, e).panels == s.panels
  {
    match e
    case WorkerResumes(_, which, outcome) =>
      if s.rounds[k].QueueRound? && WorkerOf(s.rounds[k], which).Waiting? { assert !Valid(s, s.rounds[k]); }
    case CacheResumes(_, cached) =>
      if s.rounds[k].CacheRound? { FinishPanels(s, k, cached.Unread?); }
  }

  /** The same instances at the same generations, for the same props. */
  predicate SameInstances(s: State, s': State) {
    && |s'.instances| == |s.instances| && s'.deps == s.deps && s'.effectsPending == s.effectsPending
    && forall i | 0 <= i < |s.instances| ::
         s'.instances[i].disposed == s.instances[i].disposed && s'.instances[i].generation == s.instances[i].generation
  }

  lemma RefreshSame(s: State, i: nat)
    requires i < |s.instances|
    ensures SameInstances(s, Schedule(s, i)) && SameInstances(s, Refresh(s, i))
  {
  }

  lemma TimerSame(s: State, i: nat, timer: nat)
    ensures SameInstances(s, Step(s, TimerFires(i, timer)))
  {
    if i < |s.instances| {
      var inst := s.instances[i].(pending := s.instances[i].pending - {timer});
      RefreshSame(s.(instances := s.instances[i := inst]), i);
    }
  }

  lemma FinishSame(s: State, k: nat, errors: bool)
    requires k < |s.rounds|
    ensures SameInstances(s, Finish(s, k, errors))
  {
  }

  lemma CacheSame(s: State, k: nat, cached: Cached)
    ensures SameInstances(s, Step(s, CacheResumes(k, cached)))
  {
    if k < |s.rounds| && s.rounds[k].CacheRound? {
      FinishSame(s.(panels := if cached.Read? && Valid(s, s.rounds[k]) then cached.panels else s.panels), k,
                 cached.Unread?);
    }
  }

  lemma EndSame(s: State, k: nat)
    ensures SameInstances(s, Step(s, RoundEnds(k)))
  {
    if k < |s.rounds| && s.rounds[k].QueueRound? { FinishSame(s, k, s.rounds[k].errors); }
  }

  /** Only changes of visibility and effects touch the instances otherwise than by their timers. */
  lemma InstancesAfterStep(s: State, e: Event)
    requires !e.Render? && !e.VisibilityChanged? && !e.FlushEffects?
    ensures SameInstances(s, Step(s, e))
  {
    match e
    case TimerFires(i, timer) => TimerSame(s, i, timer);
    case CacheResumes(k, cached) => CacheSame(s, k, cached);
    case RoundEnds(k) => EndSame(s, k);
    case _ =>
  }

  lemma OutdatedAfterCleanup(s: State, i: nat, g: nat)
    requires Outdated(s, i, g)
    ensures Outdated(EffectsFlushed(s), i, g)
  {
  }

  lemma OutdatedAfterChange(s: State, i: nat, g: nat)
    requires Outdated(s, i, g)
    ensures Outdated(VisibilityHandled(s), i, g)
  {
  }

  /** What the hits leave behind them stays: generations only grow, and disposal is for good. */
  lemma OutdatedStep(s: State, e: Event, i: nat, g: nat)
    requires Outdated(s, i, g)
    ensures Outdated(Step(s, e), i, g)
  {
    match e
    case FlushEffects => OutdatedAfterCleanup(s, i, g);
    case VisibilityChanged(hidden) => OutdatedAfterChange(s.(hidden := hidden), i, g);
    case Render(deps) =>
    case _ => InstancesAfterStep(s, e);
  }

  lemma {:induction false} OutdatedRun(s: State, events: seq<Event>, i: nat, g: nat)
    requires Outdated(s, i, g)
    ensures Outdated(Run(s, events), i, g)
  {
    if events != [] {
      var before := events[..|events| - 1];
      OutdatedRun(s, before, i, g);
      OutdatedStep(Run(s, before), events[|events| - 1], i, g);
    }
  }

  /** A change of visibility, or the cleanup of the effect, overtakes the round in flight. */
  lemma HitOutdates(s: State, hit: Event, k: nat)
    requires Inv(s) && k < |s.rounds| && (hit.VisibilityChanged? || (hit.FlushEffects? && s.effectsPending))
    ensures Outdated(Step(s, hit), s.rounds[k].owner, s.rounds[k].generation)
  {
    assert InstanceKept(s, s.rounds[k].owner);
  }

  /** In every run: once a change of visibility or a cleanup has hit the owner of a round, no
      outcome that comes back to that round changes the list, whatever happens in between, also
      when the page is visible again by then. Nor does one that comes back while the page is
      hidden or paused. */
  lemma LateOutcomeUnwritten(native: bool, hidden: bool, deps: Deps, panels: seq<Panel>, before: seq<Event>,
                             hit: Event, k: nat, between: seq<Event>, e: Event, j: nat)
    ensures var s := Run(Init(native, hidden, deps, panels), before);
      var t := Run(Step(s, hit), between);
      && (k < |s.rounds| && (hit.VisibilityChanged? || (hit.FlushEffects? && s.effectsPending))
          && j < |t.rounds| && t.rounds[j].owner == s.rounds[k].owner
          && t.rounds[j].generation == s.rounds[k].generation && ComesBack(e, j)
          ==> Step(t, e).panels == t.panels)
      && (j < |t.rounds| && (t.hidden || t.latestPaused) && ComesBack(e, j) ==> Step(t, e).panels == t.panels)
  {
    var s := Run(Init(native, hidden, deps, panels), before);
    var t := Run(Step(s, hit), between);
    RunKeeps(native, hidden, deps, panels, before);
    if k < |s.rounds| && (hit.VisibilityChanged? || (hit.FlushEffects? && s.effectsPending)) {
      HitOutdates(s, hit, k);
      OutdatedRun(Step(s, hit), between, s.rounds[k].owner, s.rounds[k].generation);
    }
    if j < |t.rounds| && ComesBack(e, j)
       && (Outdated(t, t.rounds[j].owner, t.rounds[j].generation) || t.hidden || t.latestPaused) {
      OutdatedUnwritten(t, e, j);
    }
  }

  // ---------- When a round begins, goes on and ends ----------

  predicate Fires(s: State, e: Event) {
    e.TimerFires? && e.instance < |s.instances| && e.timer in s.instances[e.instance].pending
  }

  /** What a new round starts with: the panels with a saved key, of which the two workers claim
      the first two. */
  predicate Fresh(s: State, i: nat, r: Round)
    requires i < |s.instances|
  {
    && r.owner == i && r.generation == s.instances[i].generation && r.QueueRound? == s.native
    && (r.QueueRound? ==>
          && (forall p | p in r.queue :: p in s.latestPanels && p.keySaved)
          && (forall p | p in s.latestPanels && p.keySaved :: p in r.queue)
          && r.index == (if |r.queue| < 2 then |r.queue| else 2) && !r.errors
          && r.first == (if |r.queue| > 0 then Waiting(0) else Stopped)
          && r.second == (if |r.queue| > 1 then Waiting(1) else Stopped))
  }

  lemma NewRoundFresh(s: State, i: nat)
    requires i < |s.instances|
    ensures Fresh(s, i, NewRound(s, i))
  {
    FilterMembers(s.latestPanels, HasKey());
  }

  /** A timer that fires starts a round if the page is live, visible and not paused, no round is
      in flight and there is a panel. A live and visible instance sets its timer anew otherwise. */
  lemma FiringMeans(s: State, i: nat, timer: nat)
    requires i < |s.instances| && timer in s.instances[i].pending
    ensures var s', left := Step(s, TimerFires(i, timer)), s.instances[i].pending - {timer};
      && i < |s'.instances|
      && (if s.instances[i].disposed || s.hidden then s'.rounds == s.rounds && s'.instances[i].pending == left
          else if s.latestPaused || s.inFlight || s.latestPanels == [] then
            && s'.rounds == s.rounds && s'.instances[i].pending == left + {s.nextTimer}
            && s'.instances[i].timer == s.nextTimer && s'.nextTimer == s.nextTimer + 1
          else
            && s'.inFlight && s'.instances[i].pending == left && |s'.rounds| == |s.rounds| + 1
            && s'.rounds[..|s.rounds|] == s.rounds && Fresh(s, i, s'.rounds[|s.rounds|]))
  {
    var s1 := s.(instances := s.instances[i := s.instances[i].(pending := s.instances[i].pending - {timer})]);
    NewRoundFresh(s1, i);
    FilterMembers(s.latestPanels, HasKey());
  }

  lemma FiringBegins(s: State, i: nat, timer: nat)
    requires Inv(s)
    ensures var e := TimerFires(i, timer);
      |Step(s, e).rounds| > |s.rounds| <==> Fires(s, e) && !s.latestPaused && s.rounds == [] && s.latestPanels != []
  {
    if Fires(s, TimerFires(i, timer)) {
      assert InstanceKept(s, i);
      FiringMeans(s, i, timer);
    }
  }

  /** In every run a round begins exactly when a timer fires on a page that is not paused, with
      no round in flight and at least one panel. */
  lemma RoundBeginsIff(native: bool, hidden: bool, deps: Deps, panels: seq<Panel>, events: seq<Event>, e: Event)
    ensures var s := Run(Init(native, hidden, deps, panels), events);
      |Step(s, e).rounds| > |s.rounds| <==> Fires(s, e) && !s.latestPaused && s.rounds == [] && s.latestPanels != []
  {
    var s := Run(Init(native, hidden, deps, panels), events);
    RunKeeps(native, hidden, deps, panels, events);
    if e.TimerFires? { FiringBegins(s, e.instance, e.timer); } else { OthersBeginNone(s, e); }
  }

  lemma OthersBeginNone(s: State, e: Event)
    requires !e.TimerFires?
    ensures |Step(s, e).rounds| <= |s.rounds|
  {
    match e
    case FlushEffects => FlushErrors(s);
    case VisibilityChanged(hidden) => FlushErrors(s.(hidden := hidden));
    case CacheResumes(k, cached) => EndingMeans(s, k, cached);
    case RoundEnds(k) => EndingMeans(s, k, Unread);
    case _ =>
  }

  /** A worker whose refresh has come back claims the next panel of the queue if its round may
      still write, and stops if it may not or the queue is used up. The outcome is an error if
      the refresh failed or the panel is not online. */
  lemma WorkerGoesOn(s: State, k: nat, which: Which, outcome: Outcome)
    requires k < |s.rounds| && s.rounds[k].QueueRound? && WorkerOf(s.rounds[k], which).Waiting?
    requires s.rounds[k].owner < |s.instances|
    ensures var s', r, inst := Step(s, WorkerResumes(k, which, outcome)), s.rounds[k], s.instances[s.rounds[k].owner];
      && |s'.rounds| == |s.rounds| && s'.rounds[k].QueueRound? && s'.rounds[k].queue == r.queue
      && var r', more := s'.rounds[k], !inst.disposed && inst.generation == r.generation && !s.hidden
                                       && !s.latestPaused && r.index < |r.queue|;
         && r'.index == (if more then r.index + 1 else r.index)
         && (if which.First? then r'.first else r'.second) == (if more then Waiting(r.index) else Stopped)
         && (if which.First? then r'.second == r.second else r'.first == r.first)
         && r'.errors == (r.errors || outcome.Failed? || !outcome.panel.online)
  {
  }

  /** A cached read ends its round, and so do two workers that have stopped: nothing is in flight
      then, an owner that is live on a visible page gets a timer, and the mark of failure is
      written if the round may still write. */
  lemma EndingMeans(s: State, k: nat, cached: Cached)
    ensures var e := CacheResumes(k, cached);
      if k < |s.rounds| && s.rounds[k].CacheRound? then Ended(s, k, cached.Unread?, Step(s, e)) else Step(s, e) == s
    ensures var e := RoundEnds(k);
      if k < |s.rounds| && s.rounds[k].QueueRound? && s.rounds[k].first.Stopped? && s.rounds[k].second.Stopped?
      then Ended(s, k, s.rounds[k].errors, Step(s, e)) else Step(s, e) == s
  {
    if k < |s.rounds| && s.rounds[k].CacheRound? {
      CacheEndMeans(s, k, cached);
    } else if k < |s.rounds| {
      FinishMeans(s, k, s.rounds[k].errors);
    }
  }

  lemma CacheEndMeans(s: State, k: nat, cached: Cached)
    requires k < |s.rounds| && s.rounds[k].CacheRound?
    ensures Ended(s, k, cached.Unread?, Step(s, CacheResumes(k, cached)))
  {
    FinishMeans(s.(panels := if cached.Read? && Valid(s, s.rounds[k]) then cached.panels else s.panels), k,
                cached.Unread?);
  }

  predicate Ended(s: State, k: nat, errors: bool, s': State)
    requires k < |s.rounds|
  {
    var r := s.rounds[k];
    && !s'.inFlight && s'.rounds == s.rounds[..k] + s.rounds[k + 1..] && s'.hidden == s.hidden
    && (r.owner < |s.instances| && |s'.instances| == |s.instances| ==>
          var inst, inst' := s.instances[r.owner], s'.instances[r.owner];
          && s'.failed == (if !inst.disposed && inst.generation == r.generation && !s.hidden && !s.latestPaused
                           then errors else s.failed)
          && inst'.pending == (if inst.disposed || s.hidden then inst.pending else inst.pending + {s.nextTimer}))
    && |s'.instances| == |s.instances|
  }

  lemma FinishMeans(s: State, k: nat, errors: bool)
    requires k < |s.rounds|
    ensures Ended(s, k, errors, Finish(s, k, errors))
  {
  }

  // ---------- Visibility and effects ----------

  /** A change of visibility hits the instance in force: it is a generation further, its timer is
      cleared, and it gets a new one exactly if the page is visible and nothing is in flight. */
  lemma VisibilityMeans(s: State, hidden: bool, i: nat)
    requires Inv(s) && i < |s.instances|
    ensures var s' := Step(s, VisibilityChanged(hidden));
      && s'.hidden == hidden && s'.rounds == s.rounds && |s'.instances| == |s.instances|
      && (if s.instances[i].disposed then s'.instances[i] == s.instances[i]
          else
            && s'.instances[i].generation == s.instances[i].generation + 1 && !s'.instances[i].disposed
            && s'.instances[i].pending == (if hidden || s.inFlight then {} else {s.nextTimer}))
  {
    assert InstanceKept(s, i);
    assert {} + {s.nextTimer} == {s.nextTimer};
  }

  /** When the effect runs again the old instance is disposed and has no timer; the new one, which
      is there exactly if the page is active, not paused and the interval positive, starts at
      generation 0 with a timer if the page is visible. */
  lemma EffectsMean(s: State, i: nat)
    requires Inv(s) && s.effectsPending
    ensures var s', n := Step(s, FlushEffects), |s.instances|;
      && !s'.effectsPending && s'.rounds == s.rounds
      && |s'.instances| == (if s.deps.active && !s.deps.paused && s.deps.seconds > 0 then n + 1 else n)
      && (i < n ==> s'.instances[i].disposed && s'.instances[i].pending == {})
      && (i == n < |s'.instances| ==>
            && !s'.instances[i].disposed && s'.instances[i].generation == 0
            && s'.instances[i].pending == (if s.hidden then {} else {s.nextTimer}))
  {
    if i < |s.instances| { assert InstanceKept(s, i); }
    MountedTimer(s.nextTimer);
  }

  /** A render writes the latest props, and changed dependencies make the effect run again. */
  lemma RenderMeans(s: State, deps: Deps)
    requires !s.effectsPending
    ensures var s' := Step(s, Render(deps));
      && s'.latestPaused == deps.paused && s'.latestPanels == s.panels && s'.deps == deps
      && (s'.effectsPending <==> s.deps != deps) && s'.instances == s.instances && s'.rounds == s.rounds
  {
  }

  /** In every run, once its effects have run, the page is being refreshed exactly if it is active,
      not paused and the interval positive. */
  lemma {:induction false} LiveIffWanted(native: bool, hidden: bool, deps: Deps, panels: seq<Panel>, events: seq<Event>)
    ensures var s := Run(Init(native, hidden, deps, panels), events);
      !s.effectsPending ==> (Live(s) <==> s.deps.active && !s.deps.paused && s.deps.seconds > 0)
  {
    if events != [] {
      var before := events[..|events| - 1];
      LiveIffWanted(native, hidden, deps, panels, before);
      RunKeeps(native, hidden, deps, panels, before);
      StepLive(Run(Init(native, hidden, deps, panels), before), events[|events| - 1]);
    }
  }

  lemma StepLive(s: State, e: Event)
    requires Inv(s) && (!s.effectsPending ==> (Live(s) <==> s.deps.Wants()))
    ensures var s' := Step(s, e); !s'.effectsPending ==> (Live(s') <==> s'.deps.Wants())
  {
    if e.FlushEffects? {
      if s.effectsPending { CleanupKeeps(s); }
    } else {
      LiveKept(s, e);
    }
  }

  lemma LiveKept(s: State, e: Event)
    requires !e.FlushEffects?
    ensures var s' := Step(s, e);
      && Live(s') == Live(s) && (e.Render? || (s'.deps == s.deps && s'.effectsPending == s.effectsPending))
  {
    if e.VisibilityChanged? {
      LiveThroughVisibility(s, e.hidden);
    } else if !e.Render? {
      InstancesAfterStep(s, e);
    }
  }

  lemma LiveThroughVisibility(s: State, hidden: bool)
    ensures var s' := Step(s, VisibilityChanged(hidden));
      Live(s') == Live(s) && s'.deps == s.deps && s'.effectsPending == s.effectsPending
  {
  }
}
