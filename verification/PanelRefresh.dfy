/** Automatic refreshing of the panels on mobile (src/mobile/useMobilePanelRefresh.ts).

    Each run of the effect is an instance with its own timer, generation and disposal flag; the
    flag `inFlight` and the latest props are shared by all instances. JavaScript runs one piece
    of code at a time, so the steps are the pieces between two awaits, in any order. */
module PanelRefresh {
  import opened Sequences

  datatype Panel = Panel(id: int, keySaved: bool, online: bool)

  /** What the effect depends on. */
  datatype Deps = Deps(active: bool, paused: bool, seconds: nat) {
    predicate Wants() { active && !paused && seconds > 0 }
  }

  /** `pending` are the timers that will still fire, `timer` the handle of the newest one.
      `starved` is history: the last visibility change found the page visible while a round of
      another instance was in flight. */
  datatype Instance = Instance(disposed: bool, generation: nat, pending: set<nat>, timer: nat, starved: bool)

  datatype Worker = Waiting(claim: nat) | Stopped

  datatype Which = First | Second

  /** A round of refreshing. `listed`, `claims`, `settled` and `outcomes` are history: the panels
      the round set out from, the queue positions whose refresh was started, those whose refresh
      has come back, and what each of these came back with. */
  datatype Round =
    | QueueRound(owner: nat, generation: nat, queue: seq<Panel>, index: nat, first: Worker, second: Worker,
                 errors: bool, listed: seq<Panel>, claims: seq<nat>, settled: seq<nat>, outcomes: seq<Outcome>)
    | CacheRound(owner: nat, generation: nat)

  datatype State = State(
    native: bool, hidden: bool, inFlight: bool, failed: bool,
    deps: Deps, effectsPending: bool,
    latestPaused: bool, latestPanels: seq<Panel>, panels: seq<Panel>,
    instances: seq<Instance>, rounds: seq<Round>, nextTimer: nat)

  datatype Outcome = Failed | Updated(panel: Panel)

  datatype Cached = Unread | Read(panels: seq<Panel>)

  datatype Event =
    | Render(deps: Deps)
    | FlushEffects
    | SetPanels(panels: seq<Panel>)
    | VisibilityChanged(hidden: bool)
    | TimerFires(instance: nat, timer: nat)
    | WorkerResumes(round: nat, which: Which, outcome: Outcome)
    | CacheResumes(round: nat, cached: Cached)
    | RoundEnds(round: nat)

  // ---------- The pieces of code ----------

  function Schedule(s: State, i: nat): State
    requires i < |s.instances|
  {
    var inst := s.instances[i];
    if inst.disposed || s.hidden then s
    else s.(instances := s.instances[i := inst.(pending := inst.pending + {s.nextTimer}, timer := s.nextTimer)],
            nextTimer := s.nextTimer + 1)
  }

  function ClearTimer(inst: Instance): Instance { inst.(pending := inst.pending - {inst.timer}) }

  predicate Valid(s: State, r: Round) {
    && r.owner < |s.instances|
    && !s.instances[r.owner].disposed && r.generation == s.instances[r.owner].generation
    && !s.hidden && !s.latestPaused
  }

  function HasKey(): Panel -> bool { (p: Panel) => p.keySaved }

  function WorkerOf(r: Round, which: Which): Worker
    requires r.QueueRound?
  {
    if which.First? then r.first else r.second
  }

  function WithWorker(r: Round, which: Which, w: Worker): (r': Round)
    requires r.QueueRound?
    ensures r'.QueueRound?
  {
    if which.First? then r.(first := w) else r.(second := w)
  }

  /** The loop of a worker up to its next await: claim the next panel, or stop. */
  function Claim(r: Round, which: Which, valid: bool): Round
    requires r.QueueRound?
  {
    if valid && r.index < |r.queue|
    then WithWorker(r.(index := r.index + 1, claims := r.claims + [r.index]), which, Waiting(r.index))
    else WithWorker(r, which, Stopped)
  }

  function NewRound(s: State, i: nat): Round
    requires i < |s.instances|
  {
    if s.native then
      var r := QueueRound(i, s.instances[i].generation, Filter(s.latestPanels, HasKey()), 0, Stopped, Stopped, false,
                          s.latestPanels, [], [], []);
      Claim(Claim(r, First, true), Second, true)
    else CacheRound(i, s.instances[i].generation)
  }

  function Refresh(s: State, i: nat): State
    requires i < |s.instances|
  {
    if s.instances[i].disposed || s.hidden then s
    else if s.latestPaused || s.inFlight || s.latestPanels == [] then Schedule(s, i)
    else s.(inFlight := true, rounds := s.rounds + [NewRound(s, i)])
  }

  /** The list with the updated panel in place of the one that has its id. */
  function Replaced(panels: seq<Panel>, updated: Panel): seq<Panel> {
    if panels == [] then []
    else [if panels[0].id == updated.id then updated else panels[0]] + Replaced(panels[1..], updated)
  }

  /** The refresh that a worker waited for has come back. */
  function Settled(r: Round, which: Which, outcome: Outcome): (r': Round)
    requires r.QueueRound? && WorkerOf(r, which).Waiting?
    ensures r'.QueueRound?
  {
    WithWorker(r.(errors := r.errors || outcome.Failed? || !outcome.panel.online,
                  settled := r.settled + [WorkerOf(r, which).claim],
                  outcomes := r.outcomes + [outcome]), which, Stopped)
  }

  function Resume(s: State, k: nat, which: Which, outcome: Outcome): State
    requires k < |s.rounds| && s.rounds[k].QueueRound? && WorkerOf(s.rounds[k], which).Waiting?
  {
    var r, valid := s.rounds[k], Valid(s, s.rounds[k]);
    s.(panels := if outcome.Updated? && valid then Replaced(s.panels, outcome.panel) else s.panels,
       rounds := s.rounds[k := Claim(Settled(r, which, outcome), which, valid)])
  }

  /** The `finally` block of round `k`. */
  function Finish(s: State, k: nat, errors: bool): State
    requires k < |s.rounds|
  {
    var r := s.rounds[k];
    var s1 := s.(inFlight := false, failed := if Valid(s, r) then errors else s.failed,
                 rounds := s.rounds[..k] + s.rounds[k + 1..]);
    if r.owner < |s1.instances| then Schedule(s1, r.owner) else s1
  }

  predicate OwnsRound(s: State, i: nat) { exists k | 0 <= k < |s.rounds| :: s.rounds[k].owner == i }

  /** The handler of the instance whose listener is attached, if any. */
  function VisibilityHandled(s: State): State {
    var i := |s.instances| - 1;
    if i < 0 || s.instances[i].disposed then s
    else
      var inst := ClearTimer(s.instances[i].(generation := s.instances[i].generation + 1,
                                             starved := !s.hidden && s.inFlight && !OwnsRound(s, i)));
      var s1 := s.(instances := s.instances[i := inst]);
      if !s.hidden && !s.inFlight then Schedule(s1, i) else s1
  }

  function Disposed(inst: Instance): Instance { ClearTimer(inst.(disposed := true)) }

  /** The cleanup of the old effect. */
  function CleanedUp(s: State): State {
    var n := |s.instances|;
    s.(effectsPending := false,
       instances := if n > 0 && !s.instances[n - 1].disposed
                    then s.instances[n - 1 := Disposed(s.instances[n - 1])] else s.instances)
  }

  /** The new effect: an instance of its own, with its first timer. */
  function Mounted(s: State): State {
    Schedule(s.(instances := s.instances + [Instance(false, 0, {}, 0, false)]), |s.instances|)
  }

  /** React runs the cleanup of the old effect and then the new effect. */
  function EffectsFlushed(s: State): State {
    if s.deps.Wants() then Mounted(CleanedUp(s)) else CleanedUp(s)
  }

  /** One step; an event that cannot happen in a state leaves it alone. React flushes the
      effects of a render before it renders again. */
  function Step(s: State, e: Event): State {
    match e
    case Render(deps) =>
      if s.effectsPending then s
      else s.(deps := deps, effectsPending := deps != s.deps, latestPaused := deps.paused, latestPanels := s.panels)
    case FlushEffects => if s.effectsPending then EffectsFlushed(s) else s
    case SetPanels(panels) => s.(panels := panels)
    case VisibilityChanged(hidden) => VisibilityHandled(s.(hidden := hidden))
    case TimerFires(i, timer) =>
      if i < |s.instances| && timer in s.instances[i].pending
      then Refresh(s.(instances := s.instances[i := s.instances[i].(pending := s.instances[i].pending - {timer})]), i)
      else s
    case WorkerResumes(k, which, outcome) =>
      if k < |s.rounds| && s.rounds[k].QueueRound? && WorkerOf(s.rounds[k], which).Waiting?
      then Resume(s, k, which, outcome) else s
    case CacheResumes(k, cached) =>
      if k < |s.rounds| && s.rounds[k].CacheRound?
      then Finish(s.(panels := if cached.Read? && Valid(s, s.rounds[k]) then cached.panels else s.panels), k,
                  cached.Unread?)
      else s
    case RoundEnds(k) =>
      if k < |s.rounds| && s.rounds[k].QueueRound? && s.rounds[k].first.Stopped? && s.rounds[k].second.Stopped?
      then Finish(s, k, s.rounds[k].errors) else s
  }

  function Init(native: bool, hidden: bool, deps: Deps, panels: seq<Panel>): State {
    State(native, hidden, false, false, deps, true, deps.paused, panels, panels, [], [], 1)
  }

  function Run(s: State, events: seq<Event>): State {
    if events == [] then s else Step(Run(s, events[..|events| - 1]), events[|events| - 1])
  }

  // ---------- Invariants of a round ----------

  /** Every claim once, in queue order; a claim is either settled or held by one worker. */
  predicate RoundKept(r: Round) {
    r.QueueRound? ==>
      && r.queue == Filter(r.listed, HasKey())
      && |r.claims| == r.index <= |r.queue|
      && (forall k | 0 <= k < r.index :: r.claims[k] == k)
      && multiset(r.claims) == multiset(r.settled) + Held(r.first) + Held(r.second)
  }

  function Held(w: Worker): multiset<nat> { if w.Waiting? then multiset{w.claim} else multiset{} }

  /** In a round that is still valid a worker stops only when the queue is used up. */
  predicate StoppedAtEnd(r: Round) {
    r.QueueRound? && (r.first.Stopped? || r.second.Stopped?) ==> r.index == |r.queue|
  }

  /** A worker that held nothing claims or stops. */
  lemma ClaimKeepsRound(r: Round, which: Which, valid: bool)
    requires r.QueueRound? && WorkerOf(r, which).Stopped? && RoundKept(r)
    ensures RoundKept(Claim(r, which, valid))
  {
    if valid && r.index < |r.queue| {
      ClaimHeld(r, which);
      OneMoreClaim(r, Claim(r, which, valid));
    } else {
      SameWorker(r, which);
    }
  }

  lemma SameWorker(r: Round, which: Which)
    requires r.QueueRound? && WorkerOf(r, which).Stopped?
    ensures WithWorker(r, which, Stopped) == r
  {
  }

  lemma ClaimHeld(r: Round, which: Which)
    requires r.QueueRound? && WorkerOf(r, which).Stopped? && r.index < |r.queue|
    ensures var r' := Claim(r, which, true);
      && Held(r'.first) + Held(r'.second) == Held(r.first) + Held(r.second) + multiset{r.index}
      && r' == r.(first := r'.first, second := r'.second, index := r.index + 1, claims := r.claims + [r.index])
  {
  }

  lemma OneMoreClaim(r: Round, r': Round)
    requires r.QueueRound? && r'.QueueRound? && RoundKept(r) && r.index < |r.queue|
    requires r'.queue == r.queue && r'.listed == r.listed && r'.settled == r.settled
    requires r'.index == r.index + 1 && r'.claims == r.claims + [r.index]
    requires Held(r'.first) + Held(r'.second) == Held(r.first) + Held(r.second) + multiset{r.index}
    ensures RoundKept(r')
  {
    var held := Held(r.first) + Held(r.second);
    assert multiset(r'.claims) == multiset(r.claims) + multiset{r.index};
    assert multiset(r.claims) == multiset(r.settled) + held;
    assert multiset(r'.settled) + (held + multiset{r.index}) == multiset(r'.settled) + Held(r'.first) + Held(r'.second);
  }

  lemma NewRoundKept(s: State, i: nat)
    requires i < |s.instances|
    ensures RoundKept(NewRound(s, i)) && StoppedAtEnd(NewRound(s, i))
    ensures NewRound(s, i).owner == i && NewRound(s, i).generation == s.instances[i].generation
  {
    if s.native {
      var r := QueueRound(i, s.instances[i].generation, Filter(s.latestPanels, HasKey()), 0, Stopped, Stopped, false,
                          s.latestPanels, [], [], []);
      FirstClaims(r);
    }
  }

  /** The first two claims of a round that has claimed nothing yet. */
  lemma FirstClaims(r: Round)
    requires r.QueueRound? && r.first.Stopped? && r.second.Stopped? && r.index == 0 && RoundKept(r)
    ensures var r' := Claim(Claim(r, First, true), Second, true);
      RoundKept(r') && StoppedAtEnd(r') && r'.owner == r.owner && r'.generation == r.generation
  {
    ClaimKeepsRound(r, First, true);
    ClaimStops(r, First);
    ClaimKeepsRound(Claim(r, First, true), Second, true);
    ClaimStops(Claim(r, First, true), Second);
  }

  /** A worker of a valid round stops only at the end of the queue; the other one is as before. */
  lemma ClaimStops(r: Round, which: Which)
    requires r.QueueRound? && r.index <= |r.queue| && WorkerOf(r, which).Stopped?
    ensures var r', other := Claim(r, which, true), if which.First? then Second else First;
      && r'.QueueRound? && r'.owner == r.owner && r'.generation == r.generation && r'.queue == r.queue
      && r.index <= r'.index <= |r'.queue| && WorkerOf(r', other) == WorkerOf(r, other)
      && (WorkerOf(r', which).Stopped? ==> r'.index == |r'.queue|)
      && (r.index == |r.queue| ==> r'.index == |r'.queue|)
  {
  }

  lemma SettledKeepsRound(r: Round, which: Which, outcome: Outcome)
    requires r.QueueRound? && WorkerOf(r, which).Waiting? && RoundKept(r)
    ensures RoundKept(Settled(r, which, outcome))
  {
    var claim := WorkerOf(r, which).claim;
    assert multiset(r.settled + [claim]) == multiset(r.settled) + multiset{claim};
  }

  lemma ResumeKeepsRound(r: Round, which: Which, outcome: Outcome, valid: bool)
    requires r.QueueRound? && WorkerOf(r, which).Waiting? && RoundKept(r)
    ensures var r' := Claim(Settled(r, which, outcome), which, valid);
      && RoundKept(r') && r'.owner == r.owner && r'.generation == r.generation
      && (valid && StoppedAtEnd(r) ==> StoppedAtEnd(r'))
  {
    var settled := Settled(r, which, outcome);
    SettledKeepsRound(r, which, outcome);
    SettledSame(r, which, outcome);
    ClaimKeepsRound(settled, which, valid);
    if valid { ClaimStops(settled, which); } else { SameWorker(settled, which); }
  }

  lemma SettledSame(r: Round, which: Which, outcome: Outcome)
    requires r.QueueRound? && WorkerOf(r, which).Waiting?
    ensures var r', other := Settled(r, which, outcome), if which.First? then Second else First;
      && r'.owner == r.owner && r'.generation == r.generation && r'.queue == r.queue && r'.index == r.index
      && WorkerOf(r', which).Stopped? && WorkerOf(r', other) == WorkerOf(r, other)
  {
  }

  // ---------- The invariant of every run ----------

  predicate Live(s: State) { |s.instances| > 0 && !s.instances[|s.instances| - 1].disposed }

  predicate InstanceKept(s: State, i: nat)
    requires i < |s.instances|
  {
    var inst := s.instances[i];
    && inst.pending <= {inst.timer} && inst.timer < s.nextTimer
    && (i < |s.instances| - 1 ==> inst.disposed)
    && (inst.disposed || s.hidden || OwnsRound(s, i) ==> inst.pending == {})
  }

  /** The instance whose effect is in force goes on: while the page is visible it has a timer or
      a round of its own, never both, unless it was starved by a visibility change, in which
      case it has neither. */
  predicate GoesOn(s: State) {
    Live(s) ==>
      var i := |s.instances| - 1;
      && (s.instances[i].starved ==> !s.hidden && s.instances[i].pending == {} && !OwnsRound(s, i))
      && (!s.instances[i].starved && !s.hidden ==> (s.instances[i].pending != {}) != OwnsRound(s, i))
  }

  predicate RoundsKept(s: State) {
    && |s.rounds| <= 1 && (s.inFlight <==> |s.rounds| == 1)
    && (|s.rounds| == 1 ==>
          var r := s.rounds[0];
          && r.owner < |s.instances| && r.generation <= s.instances[r.owner].generation
          && RoundKept(r) && (Valid(s, r) ==> StoppedAtEnd(r)))
  }

  predicate PropsKept(s: State) {
    s.nextTimer > 0 && s.latestPaused == s.deps.paused && (Live(s) && !s.effectsPending ==> s.deps.Wants())
  }

  predicate Inv(s: State) {
    && RoundsKept(s) && PropsKept(s) && GoesOn(s)
    && forall i | 0 <= i < |s.instances| :: InstanceKept(s, i)
  }

  // ---------- Steps that leave timers and rounds alone ----------

  lemma TimersKept(s: State, s': State)
    requires Inv(s)
    requires s'.instances == s.instances && s'.hidden == s.hidden
    requires |s'.rounds| == |s.rounds| && (|s.rounds| == 1 ==> s'.rounds[0].owner == s.rounds[0].owner)
    requires s'.inFlight == s.inFlight && s'.nextTimer == s.nextTimer
    ensures GoesOn(s') && forall i | 0 <= i < |s'.instances| :: InstanceKept(s', i)
  {
    forall i | 0 <= i < |s'.instances|
      ensures OwnsRound(s', i) == OwnsRound(s, i) && InstanceKept(s', i)
    {
      assert InstanceKept(s, i);
      OwnersOf(s, i);
      OwnersOf(s', i);
    }
  }

  lemma RenderKeeps(s: State, deps: Deps)
    requires Inv(s)
    ensures Inv(Step(s, Render(deps)))
  {
    if !s.effectsPending {
      TimersKept(s, Step(s, Render(deps)));
      if |s.rounds| == 1 {
        assert InstanceKept(s, s.rounds[0].owner);
      }
    }
  }

  lemma SetPanelsKeeps(s: State, panels: seq<Panel>)
    requires Inv(s)
    ensures Inv(Step(s, SetPanels(panels)))
  {
    TimersKept(s, Step(s, SetPanels(panels)));
  }

  lemma RoundReplaced(s: State, r': Round, panels: seq<Panel>)
    requires Inv(s) && |s.rounds| == 1
    requires r'.owner == s.rounds[0].owner && r'.generation == s.rounds[0].generation && RoundKept(r')
    requires Valid(s, s.rounds[0]) ==> StoppedAtEnd(r')
    ensures Inv(s.(panels := panels, rounds := [r']))
  {
    TimersKept(s, s.(panels := panels, rounds := [r']));
  }

  lemma WorkerKeeps(s: State, k: nat, which: Which, outcome: Outcome)
    requires Inv(s)
    ensures Inv(Step(s, WorkerResumes(k, which, outcome)))
  {
    if k < |s.rounds| && s.rounds[k].QueueRound? && WorkerOf(s.rounds[k], which).Waiting? {
      ResumeKeeps(s, which, outcome);
    }
  }

  lemma ResumeKeeps(s: State, which: Which, outcome: Outcome)
    requires Inv(s) && |s.rounds| == 1 && s.rounds[0].QueueRound? && WorkerOf(s.rounds[0], which).Waiting?
    ensures Inv(Resume(s, 0, which, outcome))
  {
    var r, valid := s.rounds[0], Valid(s, s.rounds[0]);
    var r' := Claim(Settled(r, which, outcome), which, valid);
    ResumeKeepsRound(r, which, outcome, valid);
    assert s.rounds[0 := r'] == [r'];
    RoundReplaced(s, r', Resume(s, 0, which, outcome).panels);
  }

  lemma OwnersOf(s: State, i: nat)
    requires |s.rounds| <= 1
    ensures OwnsRound(s, i) <==> |s.rounds| == 1 && s.rounds[0].owner == i
  {
  }

  // ---------- Steps that schedule ----------

  /** All but the scheduling of one instance: it may lack a timer, but has no round either. */
  predicate Due(s: State, i: nat) {
    && i < |s.instances| && RoundsKept(s) && PropsKept(s)
    && !OwnsRound(s, i) && s.instances[i].pending == {}
    && (!s.instances[i].disposed ==> i == |s.instances| - 1 && !s.instances[i].starved)
    && (i < |s.instances| - 1 ==> GoesOn(s))
    && forall j | 0 <= j < |s.instances| :: InstanceKept(s, j)
  }

  lemma ScheduleKeeps(s: State, i: nat)
    requires Due(s, i) && (i == |s.instances| - 1 || s.instances[i].disposed)
    ensures Inv(Schedule(s, i))
  {
    var s' := Schedule(s, i);
    forall j | 0 <= j < |s'.instances|
      ensures InstanceKept(s', j) && OwnsRound(s', j) == OwnsRound(s, j)
    {
      assert InstanceKept(s, j);
      OwnersOf(s, j);
      OwnersOf(s', j);
    }
  }

  lemma TimerKeeps(s: State, i: nat, timer: nat)
    requires Inv(s)
    ensures Inv(Step(s, TimerFires(i, timer)))
  {
    if i < |s.instances| && timer in s.instances[i].pending {
      assert InstanceKept(s, i);
      var s1 := s.(instances := s.instances[i := s.instances[i].(pending := s.instances[i].pending - {timer})]);
      FiredIsDue(s, i, timer, s1);
      if s1.latestPaused || s1.inFlight || s1.latestPanels == [] {
        ScheduleKeeps(s1, i);
      } else {
        StartKeeps(s1, i);
      }
    }
  }

  lemma FiredIsDue(s: State, i: nat, timer: nat, s1: State)
    requires Inv(s) && i < |s.instances| && timer in s.instances[i].pending
    requires s1 == s.(instances := s.instances[i := s.instances[i].(pending := s.instances[i].pending - {timer})])
    ensures Due(s1, i) && !s1.instances[i].disposed && !s1.hidden && i == |s1.instances| - 1
  {
    assert InstanceKept(s, i);
    forall j | 0 <= j < |s1.instances|
      ensures InstanceKept(s1, j) && OwnsRound(s1, j) == OwnsRound(s, j)
    {
      assert InstanceKept(s, j);
      OwnersOf(s, j);
      OwnersOf(s1, j);
    }
  }

  lemma StartKeeps(s: State, i: nat)
    requires Due(s, i) && !s.instances[i].disposed && !s.hidden && !s.inFlight && i == |s.instances| - 1
    ensures Inv(s.(inFlight := true, rounds := s.rounds + [NewRound(s, i)]))
  {
    var s' := s.(inFlight := true, rounds := s.rounds + [NewRound(s, i)]);
    NewRoundKept(s, i);
    assert s'.rounds == [NewRound(s, i)];
    forall j | 0 <= j < |s'.instances|
      ensures InstanceKept(s', j)
    {
      assert InstanceKept(s, j);
      OwnersOf(s', j);
    }
    OwnersOf(s', i);
  }

  lemma FinishKeeps(s: State, errors: bool)
    requires Inv(s) && |s.rounds| == 1
    ensures Inv(Finish(s, 0, errors))
  {
    var i := s.rounds[0].owner;
    var s1 := s.(inFlight := false, failed := if Valid(s, s.rounds[0]) then errors else s.failed, rounds := []);
    assert s.rounds[..0] + s.rounds[1..] == [];
    OwnersOf(s, i);
    assert InstanceKept(s, i);
    forall j | 0 <= j < |s1.instances|
      ensures InstanceKept(s1, j)
    {
      assert InstanceKept(s, j);
    }
    OwnersOf(s, |s.instances| - 1);
    ScheduleKeeps(s1, i);
  }

  lemma CacheKeeps(s: State, k: nat, cached: Cached)
    requires Inv(s)
    ensures Inv(Step(s, CacheResumes(k, cached)))
  {
    if k < |s.rounds| && s.rounds[k].CacheRound? {
      var s1 := s.(panels := if cached.Read? && Valid(s, s.rounds[k]) then cached.panels else s.panels);
      TimersKept(s, s1);
      FinishKeeps(s1, cached.Unread?);
    }
  }

  lemma EndKeeps(s: State, k: nat)
    requires Inv(s)
    ensures Inv(Step(s, RoundEnds(k)))
  {
    if k < |s.rounds| && s.rounds[k].QueueRound? {
      FinishKeeps(s, s.rounds[k].errors);
    }
  }

  lemma VisibilityKeeps(s: State, hidden: bool)
    requires Inv(s)
    ensures Inv(Step(s, VisibilityChanged(hidden)))
  {
    if Live(s) { LiveVisibilityKeeps(s, hidden); } else { DeadVisibilityKeeps(s, hidden); }
  }

  lemma DeadVisibilityKeeps(s: State, hidden: bool)
    requires Inv(s) && !Live(s)
    ensures Inv(s.(hidden := hidden))
  {
    var h := s.(hidden := hidden);
    forall j | 0 <= j < |h.instances|
      ensures InstanceKept(h, j)
    {
      assert InstanceKept(s, j);
    }
    if |s.rounds| == 1 { assert InstanceKept(s, s.rounds[0].owner); }
  }

  lemma LiveVisibilityKeeps(s: State, hidden: bool)
    requires Inv(s) && Live(s)
    ensures Inv(VisibilityHandled(s.(hidden := hidden)))
  {
    var i := |s.instances| - 1;
    var h := s.(hidden := hidden);
    assert InstanceKept(s, i);
    OwnersOf(s, i);
    OwnersOf(h, i);
    var inst := ClearTimer(s.instances[i].(generation := s.instances[i].generation + 1,
                                           starved := !hidden && s.inFlight && !OwnsRound(h, i)));
    var s1 := h.(instances := s.instances[i := inst]);
    HandledKeeps(s, i, inst, s1);
    if !hidden && !s.inFlight { ScheduleKeeps(s1, i); }
  }

  lemma HandledKeeps(s: State, i: nat, inst: Instance, s1: State)
    requires Inv(s) && i == |s.instances| - 1 && !s.instances[i].disposed
    requires inst.pending == {} && inst.timer == s.instances[i].timer && !inst.disposed
    requires inst.generation == s.instances[i].generation + 1
    requires inst.starved == (!s1.hidden && s.inFlight && !OwnsRound(s, i))
    requires s1 == s.(hidden := s1.hidden, instances := s.instances[i := inst])
    ensures RoundsKept(s1) && PropsKept(s1) && forall j | 0 <= j < |s1.instances| :: InstanceKept(s1, j)
    ensures if s1.hidden || s.inFlight then Inv(s1) else Due(s1, i)
  {
    OwnersOf(s, i);
    OwnersOf(s1, i);
    forall j | 0 <= j < |s1.instances|
      ensures InstanceKept(s1, j)
    {
      assert InstanceKept(s, j);
      OwnersOf(s, j);
      OwnersOf(s1, j);
    }
    if |s.rounds| == 1 { assert InstanceKept(s, s.rounds[0].owner); }
  }

  lemma FlushKeeps(s: State)
    requires Inv(s)
    ensures Inv(Step(s, FlushEffects))
  {
    if s.effectsPending {
      CleanupKeeps(s);
      if s.deps.Wants() { MountKeeps(CleanedUp(s)); }
    }
  }

  lemma MountKeeps(s: State)
    requires Inv(s) && !Live(s) && !s.effectsPending && s.deps.Wants()
    ensures Inv(Mounted(s))
  {
    var s' := s.(instances := s.instances + [Instance(false, 0, {}, 0, false)]);
    MountedIsDue(s, s');
    ScheduleKeeps(s', |s.instances|);
  }

  lemma CleanupKeeps(s: State)
    requires Inv(s) && s.effectsPending
    ensures Inv(CleanedUp(s)) && !Live(CleanedUp(s))
  {
    var s1 := CleanedUp(s);
    forall j | 0 <= j < |s1.instances|
      ensures InstanceKept(s1, j)
    {
      assert InstanceKept(s, j);
      OwnersOf(s, j);
      OwnersOf(s1, j);
    }
    if |s.rounds| == 1 { assert InstanceKept(s, s.rounds[0].owner); }
  }

  lemma MountedIsDue(s: State, s': State)
    requires Inv(s) && !Live(s) && !s.effectsPending && s.deps.Wants()
    requires s' == s.(instances := s.instances + [Instance(false, 0, {}, 0, false)])
    ensures Due(s', |s.instances|)
  {
    var n := |s.instances|;
    OwnersOf(s', n);
    forall j | 0 <= j < |s'.instances|
      ensures InstanceKept(s', j)
    {
      if j < n { assert InstanceKept(s, j); OwnersOf(s, j); OwnersOf(s', j); }
    }
    if |s.rounds| == 1 { assert InstanceKept(s, s.rounds[0].owner); }
  }

  lemma StepKeeps(s: State, e: Event)
    requires Inv(s)
    ensures Inv(Step(s, e))
  {
    match e
    case Render(deps) => RenderKeeps(s, deps);
    case FlushEffects => FlushKeeps(s);
    case SetPanels(panels) => SetPanelsKeeps(s, panels);
    case VisibilityChanged(hidden) => VisibilityKeeps(s, hidden);
    case TimerFires(i, timer) => TimerKeeps(s, i, timer);
    case WorkerResumes(k, which, outcome) => WorkerKeeps(s, k, which, outcome);
    case CacheResumes(k, cached) => CacheKeeps(s, k, cached);
    case RoundEnds(k) => EndKeeps(s, k);
  }

  // ---------- Main results, for every run ----------

  lemma {:induction false} RunKeeps(native: bool, hidden: bool, deps: Deps, panels: seq<Panel>, events: seq<Event>)
    ensures Inv(Run(Init(native, hidden, deps, panels), events))
  {
    if events != [] {
      var before := events[..|events| - 1];
      RunKeeps(native, hidden, deps, panels, before);
      StepKeeps(Run(Init(native, hidden, deps, panels), before), events[|events| - 1]);
    }
  }

  /** No two rounds, and no timer beside a round or after disposal. */
  predicate Separate(s: State) {
    && |s.rounds| <= 1 && (s.inFlight <==> |s.rounds| == 1)
    && forall i | 0 <= i < |s.instances| ::
         && |s.instances[i].pending| <= 1
         && (s.instances[i].disposed || s.hidden || OwnsRound(s, i) ==> s.instances[i].pending == {})
  }

  /** The claimed positions are distinct and form a prefix of the queue of keyed panels. */
  predicate ClaimsInOrder(r: Round) {
    r.QueueRound? ==>
      && r.queue == Filter(r.listed, HasKey())
      && |r.claims| <= |r.queue| && forall j | 0 <= j < |r.claims| :: r.claims[j] == j
  }

  lemma InvMeans(s: State)
    requires Inv(s)
    ensures Separate(s) && forall k | 0 <= k < |s.rounds| :: ClaimsInOrder(s.rounds[k])
  {
    InvSeparates(s);
    if |s.rounds| == 1 { KeptInOrder(s.rounds[0]); }
  }

  /** Rounds never overlap, not even those of different instances; each instance has at most one
      timer, none beside its own round, none while the page is hidden and none once disposed;
      and the round in flight has claimed its panels in order, each once. */
  lemma NeverOverlaps(native: bool, hidden: bool, deps: Deps, panels: seq<Panel>, events: seq<Event>)
    ensures var s := Run(Init(native, hidden, deps, panels), events);
      Separate(s) && forall k | 0 <= k < |s.rounds| :: ClaimsInOrder(s.rounds[k])
  {
    RunKeeps(native, hidden, deps, panels, events);
    InvMeans(Run(Init(native, hidden, deps, panels), events));
  }

  lemma InvSeparates(s: State)
    requires Inv(s)
    ensures Separate(s)
  {
    forall i | 0 <= i < |s.instances|
      ensures |s.instances[i].pending| <= 1
      ensures s.instances[i].disposed || s.hidden || OwnsRound(s, i) ==> s.instances[i].pending == {}
    {
      assert InstanceKept(s, i);
      AtMostOne(s.instances[i].pending, s.instances[i].timer);
    }
  }

  lemma KeptInOrder(r: Round)
    requires RoundKept(r)
    ensures ClaimsInOrder(r)
  {
  }

  /** A round that ends while still valid has refreshed each panel of its queue exactly once,
      and every one of those refreshes has come back. */
  lemma ValidRoundIsComplete(native: bool, hidden: bool, deps: Deps, panels: seq<Panel>, events: seq<Event>, k: nat)
    ensures var s := Run(Init(native, hidden, deps, panels), events);
      k < |s.rounds| && s.rounds[k].QueueRound? && s.rounds[k].first.Stopped? && s.rounds[k].second.Stopped?
      && Valid(s, s.rounds[k]) ==>
        var r := s.rounds[k];
        && |r.claims| == |Filter(r.listed, HasKey())| && (forall j | 0 <= j < |r.claims| :: r.claims[j] == j)
        && multiset(r.settled) == multiset(r.claims)
  {
    RunKeeps(native, hidden, deps, panels, events);
    var s := Run(Init(native, hidden, deps, panels), events);
    if k < |s.rounds| { StoppedIsComplete(s, k); }
  }

  lemma StoppedIsComplete(s: State, k: nat)
    requires Inv(s) && k < |s.rounds|
    ensures var r := s.rounds[k];
      r.QueueRound? && r.first.Stopped? && r.second.Stopped? && Valid(s, r) ==>
        && |r.claims| == |Filter(r.listed, HasKey())| && (forall j | 0 <= j < |r.claims| :: r.claims[j] == j)
        && multiset(r.settled) == multiset(r.claims)
  {
  }

  // ---------- What the failure mark means ----------

  predicate Bad(outcome: Outcome) { outcome.Failed? || !outcome.panel.online }

  /** One outcome for each refresh that has come back, and an error exactly if one of them is bad. */
  predicate ErrorsKept(r: Round) {
    r.QueueRound? ==> |r.outcomes| == |r.settled| && (r.errors <==> exists o | o in r.outcomes :: Bad(o))
  }

  predicate AllErrorsKept(s: State) { forall k | 0 <= k < |s.rounds| :: ErrorsKept(s.rounds[k]) }

  lemma SettledErrors(r: Round, which: Which, outcome: Outcome)
    requires r.QueueRound? && WorkerOf(r, which).Waiting? && ErrorsKept(r)
    ensures ErrorsKept(Settled(r, which, outcome))
  {
    var after := r.outcomes + [outcome];
    assert outcome in after && forall o | o in r.outcomes :: o in after;
  }

  lemma ClaimErrors(r: Round, which: Which, valid: bool)
    requires r.QueueRound? && ErrorsKept(r)
    ensures ErrorsKept(Claim(r, which, valid))
  {
  }

  lemma NewErrors(s: State, i: nat)
    requires i < |s.instances|
    ensures ErrorsKept(NewRound(s, i))
  {
    if s.native {
      var r := QueueRound(i, s.instances[i].generation, Filter(s.latestPanels, HasKey()), 0, Stopped, Stopped, false,
                          s.latestPanels, [], [], []);
      ClaimErrors(r, First, true);
      ClaimErrors(Claim(r, First, true), Second, true);
    }
  }

  lemma RefreshErrors(s: State, i: nat)
    requires i < |s.instances| && AllErrorsKept(s)
    ensures AllErrorsKept(Refresh(s, i))
  {
    NewErrors(s, i);
  }

  lemma ResumeErrors(s: State, k: nat, which: Which, outcome: Outcome)
    requires k < |s.rounds| && s.rounds[k].QueueRound? && WorkerOf(s.rounds[k], which).Waiting? && AllErrorsKept(s)
    ensures AllErrorsKept(Resume(s, k, which, outcome))
  {
    SettledErrors(s.rounds[k], which, outcome);
    ClaimErrors(Settled(s.rounds[k], which, outcome), which, Valid(s, s.rounds[k]));
  }

  lemma FinishErrors(s: State, k: nat, errors: bool)
    requires k < |s.rounds| && AllErrorsKept(s)
    ensures AllErrorsKept(Finish(s, k, errors))
  {
    var after := s.rounds[..k] + s.rounds[k + 1..];
    assert forall j | 0 <= j < |after| :: after[j] == s.rounds[if j < k then j else j + 1];
  }

  lemma FlushErrors(s: State)
    ensures EffectsFlushed(s).rounds == s.rounds && VisibilityHandled(s).rounds == s.rounds
  {
  }

  lemma TimerErrors(s: State, i: nat, timer: nat)
    requires i < |s.instances| && AllErrorsKept(s)
    ensures AllErrorsKept(Step(s, TimerFires(i, timer)))
  {
    var inst := s.instances[i].(pending := s.instances[i].pending - {timer});
    RefreshErrors(s.(instances := s.instances[i := inst]), i);
  }

  lemma CacheErrors(s: State, k: nat, cached: Cached)
    requires k < |s.rounds| && s.rounds[k].CacheRound? && AllErrorsKept(s)
    ensures AllErrorsKept(Step(s, CacheResumes(k, cached)))
  {
    var panels := if cached.Read? && Valid(s, s.rounds[k]) then cached.panels else s.panels;
    FinishErrors(s.(panels := panels), k, cached.Unread?);
  }

  lemma StepErrors(s: State, e: Event)
    requires AllErrorsKept(s)
    ensures AllErrorsKept(Step(s, e))
  {
    match e
    case FlushEffects => FlushErrors(s);
    case VisibilityChanged(hidden) => FlushErrors(s.(hidden := hidden));
    case TimerFires(i, timer) =>
      if i < |s.instances| { TimerErrors(s, i, timer); }
    case WorkerResumes(k, which, outcome) =>
      if k < |s.rounds| && s.rounds[k].QueueRound? && WorkerOf(s.rounds[k], which).Waiting? {
        ResumeErrors(s, k, which, outcome);
      }
    case CacheResumes(k, cached) =>
      if k < |s.rounds| && s.rounds[k].CacheRound? { CacheErrors(s, k, cached); }
    case RoundEnds(k) => if k < |s.rounds| && s.rounds[k].QueueRound? { FinishErrors(s, k, s.rounds[k].errors); }
    case _ =>
  }

  lemma {:induction false} RunErrors(native: bool, hidden: bool, deps: Deps, panels: seq<Panel>, events: seq<Event>)
    ensures AllErrorsKept(Run(Init(native, hidden, deps, panels), events))
  {
    if events != [] {
      var before := events[..|events| - 1];
      RunErrors(native, hidden, deps, panels, before);
      StepErrors(Run(Init(native, hidden, deps, panels), before), events[|events| - 1]);
    }
  }

  lemma FinishMarks(s: State, k: nat)
    requires k < |s.rounds| && s.rounds[k].QueueRound? && s.rounds[k].first.Stopped? && s.rounds[k].second.Stopped?
    ensures Step(s, RoundEnds(k)).failed == if Valid(s, s.rounds[k]) then s.rounds[k].errors else s.failed
  {
  }

  /** A round that ends valid has one outcome for each panel of its queue, and leaves the mark of
      failure exactly if one of them failed or came back not online; another round leaves the
      mark as it is. */
  lemma FailedMeans(native: bool, hidden: bool, deps: Deps, panels: seq<Panel>, events: seq<Event>, k: nat)
    ensures var s := Run(Init(native, hidden, deps, panels), events);
      k < |s.rounds| && s.rounds[k].QueueRound? && s.rounds[k].first.Stopped? && s.rounds[k].second.Stopped? ==>
        var r, after := s.rounds[k], Step(s, RoundEnds(k));
        if Valid(s, r) then
          && |r.outcomes| == |Filter(r.listed, HasKey())|
          && (after.failed <==> exists o | o in r.outcomes :: o.Failed? || !o.panel.online)
        else after.failed == s.failed
  {
    var s := Run(Init(native, hidden, deps, panels), events);
    if k < |s.rounds| && s.rounds[k].QueueRound? && s.rounds[k].first.Stopped? && s.rounds[k].second.Stopped? {
      RunKeeps(native, hidden, deps, panels, events);
      RunErrors(native, hidden, deps, panels, events);
      StoppedIsComplete(s, k);
      FinishMarks(s, k);
      SameSize(s.rounds[k].settled, s.rounds[k].claims);
    }
  }

  lemma SameSize(a: seq<nat>, b: seq<nat>)
    ensures multiset(a) == multiset(b) ==> |a| == |b|
  {
    assert |multiset(a)| == |a| && |multiset(b)| == |b|;
  }

  /** Validity is lost for good: a step never makes an invalid round valid again. */
  lemma ValidityIsLost(s: State, e: Event, r: Round)
    requires Inv(s) && r.owner < |s.instances| && r.generation <= s.instances[r.owner].generation
    ensures Valid(Step(s, e), r) ==> Valid(s, r)
  {
    match e
    case Render(deps) => assert InstanceKept(s, r.owner);
    case FlushEffects => FlushLosesValidity(s, r);
    case SetPanels(panels) =>
    case VisibilityChanged(hidden) => VisibilityLosesValidity(s, hidden, r);
    case TimerFires(i, timer) => TimerKeepsValidity(s, i, timer, r);
    case WorkerResumes(k, which, outcome) =>
    case CacheResumes(k, cached) => CacheKeepsValidity(s, k, cached, r);
    case RoundEnds(k) => EndKeepsValidity(s, k, r);
  }

  lemma FlushLosesValidity(s: State, r: Round)
    requires r.owner < |s.instances|
    ensures Valid(Step(s, FlushEffects), r) ==> Valid(s, r)
  {
  }

  lemma VisibilityLosesValidity(s: State, hidden: bool, r: Round)
    requires Inv(s) && r.owner < |s.instances| && r.generation <= s.instances[r.owner].generation
    ensures !Valid(Step(s, VisibilityChanged(hidden)), r)
  {
    assert InstanceKept(s, r.owner);
  }

  lemma TimerKeepsValidity(s: State, i: nat, timer: nat, r: Round)
    requires r.owner < |s.instances|
    ensures Valid(Step(s, TimerFires(i, timer)), r) == Valid(s, r)
  {
  }

  lemma CacheKeepsValidity(s: State, k: nat, cached: Cached, r: Round)
    requires r.owner < |s.instances|
    ensures Valid(Step(s, CacheResumes(k, cached)), r) == Valid(s, r)
  {
  }

  lemma EndKeepsValidity(s: State, k: nat, r: Round)
    requires r.owner < |s.instances|
    ensures Valid(Step(s, RoundEnds(k)), r) == Valid(s, r)
  {
  }

  /** A refreshed panel replaces the one with its id; ids and their order stay. */
  lemma {:induction false} ReplacedKeepsIds(panels: seq<Panel>, updated: Panel)
    ensures var after := Replaced(panels, updated);
      && |after| == |panels|
      && forall i | 0 <= i < |panels| :: after[i].id == panels[i].id
           && after[i] == if panels[i].id == updated.id then updated else panels[i]
  {
    if panels != [] {
      ReplacedKeepsIds(panels[1..], updated);
    }
  }

  // ---------- What becomes of the panels ----------

  function PanelId(): Panel -> int { (p: Panel) => p.id }

  function PanelIds(panels: seq<Panel>): seq<int> { Keys(panels, PanelId()) }

  /** The list of panels changes by outcomes of refreshes only. */
  predicate OutcomesOnly(events: seq<Event>) {
    forall k | 0 <= k < |events| :: !events[k].SetPanels? && !events[k].CacheResumes?
  }

  lemma {:induction false} ReplacedIds(panels: seq<Panel>, updated: Panel)
    ensures PanelIds(Replaced(panels, updated)) == PanelIds(panels)
  {
    if panels != [] { ReplacedIds(panels[1..], updated); }
  }

  lemma SchedulePanels(s: State, i: nat)
    requires i < |s.instances|
    ensures Schedule(s, i).panels == s.panels && Refresh(s, i).panels == s.panels
  {
  }

  lemma FlushedPanels(s: State)
    ensures EffectsFlushed(s).panels == s.panels && VisibilityHandled(s).panels == s.panels
  {
  }

  lemma FinishPanels(s: State, k: nat, errors: bool)
    requires k < |s.rounds|
    ensures Finish(s, k, errors).panels == s.panels
  {
  }

  lemma PanelsAfterStep(s: State, e: Event)
    requires !e.SetPanels? && !e.CacheResumes?
    ensures Step(s, e).panels == s.panels
      || (e.WorkerResumes? && e.outcome.Updated? && Step(s, e).panels == Replaced(s.panels, e.outcome.panel))
  {
    match e
    case FlushEffects => FlushedPanels(s);
    case VisibilityChanged(hidden) => FlushedPanels(s.(hidden := hidden));
    case TimerFires(i, timer) =>
      if i < |s.instances| {
        var inst := s.instances[i].(pending := s.instances[i].pending - {timer});
        SchedulePanels(s.(instances := s.instances[i := inst]), i);
      }
    case RoundEnds(k) => if k < |s.rounds| && s.rounds[k].QueueRound? { FinishPanels(s, k, s.rounds[k].errors); }
    case WorkerResumes(k, which, outcome) => ResumePanels(s, k, which, outcome);
    case Render(deps) =>
  }

  lemma ResumePanels(s: State, k: nat, which: Which, outcome: Outcome)
    ensures var after := Step(s, WorkerResumes(k, which, outcome)).panels;
      after == s.panels || (outcome.Updated? && after == Replaced(s.panels, outcome.panel))
  {
  }

  /** However many rounds run, valid or not, the ids of the panels and their order stay. */
  lemma {:induction false} IdsKept(s: State, events: seq<Event>)
    requires OutcomesOnly(events)
    ensures PanelIds(Run(s, events).panels) == PanelIds(s.panels)
  {
    if events != [] {
      var before, e := events[..|events| - 1], events[|events| - 1];
      assert forall k | 0 <= k < |before| :: before[k] == events[k];
      IdsKept(s, before);
      var s' := Run(s, before);
      PanelsAfterStep(s', e);
      if e.WorkerResumes? && e.outcome.Updated? { ReplacedIds(s'.panels, e.outcome.panel); }
    }
  }

  predicate Refreshes(e: Event, id: int) {
    e.WorkerResumes? && e.outcome.Updated? && e.outcome.panel.id == id
  }

  lemma {:induction false} ReplacedShows(panels: seq<Panel>, updated: Panel)
    requires updated.id in PanelIds(panels)
    ensures updated in Replaced(panels, updated)
  {
    if panels[0].id != updated.id { ReplacedShows(panels[1..], updated); }
  }

  lemma {:induction false} ReplacedLeaves(panels: seq<Panel>, updated: Panel, p: Panel)
    requires p in panels && p.id != updated.id
    ensures p in Replaced(panels, updated)
  {
    if panels[0] != p { ReplacedLeaves(panels[1..], updated, p); }
  }

  lemma {:induction false} PanelStays(s: State, p: Panel, events: seq<Event>)
    requires p in s.panels && OutcomesOnly(events)
    requires forall k | 0 <= k < |events| :: !Refreshes(events[k], p.id)
    ensures p in Run(s, events).panels
  {
    if events != [] {
      var before, e := events[..|events| - 1], events[|events| - 1];
      assert forall k | 0 <= k < |before| :: before[k] == events[k];
      PanelStays(s, p, before);
      var s' := Run(s, before);
      PanelsAfterStep(s', e);
      if e.WorkerResumes? && e.outcome.Updated? {
        assert !Refreshes(e, p.id);
        ReplacedLeaves(s'.panels, e.outcome.panel, p);
      }
    }
  }

  lemma OutcomeWritten(s: State, k: nat, which: Which, p: Panel)
    requires k < |s.rounds| && s.rounds[k].QueueRound? && WorkerOf(s.rounds[k], which).Waiting?
    requires Valid(s, s.rounds[k])
    ensures Step(s, WorkerResumes(k, which, Updated(p))).panels == Replaced(s.panels, p)
  {
  }

  /** A panel that comes back to a round that is still valid is in the list from then on, until
      the same panel is refreshed again. */
  lemma OutcomeShown(s: State, k: nat, which: Which, p: Panel, events: seq<Event>)
    requires k < |s.rounds| && s.rounds[k].QueueRound? && WorkerOf(s.rounds[k], which).Waiting?
    requires Valid(s, s.rounds[k]) && p.id in PanelIds(s.panels)
    requires OutcomesOnly(events) && forall j | 0 <= j < |events| :: !Refreshes(events[j], p.id)
    ensures p in Run(Step(s, WorkerResumes(k, which, Updated(p))), events).panels
  {
    ReplacedShows(s.panels, p);
    OutcomeWritten(s, k, which, p);
    PanelStays(Step(s, WorkerResumes(k, which, Updated(p))), p, events);
  }

  // ---------- Going on ----------

  /** While its effect is in force and the page is visible, the instance has a timer or a round
      of its own, exactly one of them, if and only if its last visibility change did not find a
      round of another instance in flight. */
  lemma GoesOnUnlessStarved(native: bool, hidden: bool, deps: Deps, panels: seq<Panel>, events: seq<Event>)
    ensures var s := Run(Init(native, hidden, deps, panels), events);
      Live(s) && !s.hidden ==>
        var i := |s.instances| - 1;
        && (s.instances[i].pending != {} || OwnsRound(s, i) <==> !s.instances[i].starved)
        && !(s.instances[i].pending != {} && OwnsRound(s, i))
  {
    RunKeeps(native, hidden, deps, panels, events);
  }

  predicate Passive(e: Event) { !e.VisibilityChanged? && !e.FlushEffects? }

  predicate Starved(s: State) { Inv(s) && Live(s) && s.instances[|s.instances| - 1].starved }

  lemma StarvedTimer(s: State, i: nat)
    requires Starved(s) && i < |s.instances|
    ensures s.instances[i].pending == {}
  {
    assert InstanceKept(s, i);
  }

  lemma StarvedFinish(s: State, errors: bool)
    requires Starved(s) && |s.rounds| == 1
    ensures var s' := Finish(s, 0, errors); s'.instances == s.instances && s'.rounds == [] && s'.hidden == s.hidden
  {
    OwnersOf(s, |s.instances| - 1);
    assert InstanceKept(s, s.rounds[0].owner);
    assert s.rounds[..0] + s.rounds[1..] == [];
  }

  lemma StarvedCache(s: State, cached: Cached)
    requires Starved(s) && |s.rounds| == 1 && s.rounds[0].CacheRound?
    ensures var s' := Step(s, CacheResumes(0, cached));
      s'.instances == s.instances && s'.rounds == [] && s'.hidden == s.hidden
  {
    var s1 := s.(panels := if cached.Read? && Valid(s, s.rounds[0]) then cached.panels else s.panels);
    TimersKept(s, s1);
    StarvedFinish(s1, cached.Unread?);
  }

  lemma StarvedStep(s: State, e: Event)
    requires Starved(s) && Passive(e)
    ensures var s' := Step(s, e);
      s'.instances == s.instances && |s'.rounds| <= |s.rounds| && s'.hidden == s.hidden
  {
    match e
    case TimerFires(i, timer) => if i < |s.instances| { StarvedTimer(s, i); }
    case CacheResumes(k, cached) =>
      if k < |s.rounds| && s.rounds[k].CacheRound? { StarvedCache(s, cached); }
    case RoundEnds(k) => if k < |s.rounds| && s.rounds[k].QueueRound? { StarvedFinish(s, s.rounds[k].errors); }
    case _ =>
  }

  lemma {:induction false} StarvedRun(s: State, events: seq<Event>)
    requires Starved(s)
    requires forall k | 0 <= k < |events| :: Passive(events[k])
    ensures var s' := Run(s, events);
      Starved(s') && s'.instances == s.instances && |s'.rounds| <= |s.rounds| && s'.hidden == s.hidden
  {
    if events != [] {
      var before, e := events[..|events| - 1], events[|events| - 1];
      assert forall k | 0 <= k < |before| :: before[k] == events[k];
      StarvedRun(s, before);
      StarvedStep(Run(s, before), e);
      StepKeeps(Run(s, before), e);
    }
  }

  /** Once starved, the page refreshes no more: whatever happens, also when the round of the other
      instance ends, short of a change of visibility or of the effect's dependencies, the visible
      page gets no timer and no round starts. */
  lemma StarvedStaysIdle(s: State, events: seq<Event>)
    requires Starved(s)
    requires forall k | 0 <= k < |events| :: Passive(events[k])
    ensures var s' := Run(s, events);
      && Starved(s') && !s'.hidden && |s'.rounds| <= |s.rounds|
      && s'.instances[|s'.instances| - 1].pending == {} && !OwnsRound(s', |s'.instances| - 1)
  {
    StarvedRun(s, events);
  }

  lemma RunSnoc(s: State, events: seq<Event>, e: Event)
    ensures Run(s, events + [e]) == Step(Run(s, events), e)
  {
    assert (events + [e])[..|events|] == events;
  }

  lemma MountedTimer(timer: nat)
    ensures var none: set<nat> := {}; none + {timer} == {timer}
  {
  }

  lemma RoundOfOne(s: State, p: Panel)
    requires s.native && s.latestPanels == [p] && p.keySaved && |s.instances| > 0
    ensures NewRound(s, 0)
         == QueueRound(0, s.instances[0].generation, [p], 1, Waiting(0), Stopped, false, [p], [0], [], [])
  {
    assert HasKey()(p) && Filter([p], HasKey()) == [p];
  }

  /** Such a state is reached: a round is in flight when the interval is changed, the page is
      hidden and shown again before the round ends, and from then on there is no timer. */
  lemma StarvationHappens() returns (events: seq<Event>)
    ensures var s := Run(Init(true, false, Deps(true, false, 5), [Panel(1, true, true)]), events);
      && Live(s) && !s.hidden && !s.effectsPending && s.deps.Wants() && s.rounds == []
      && s.instances[|s.instances| - 1].starved && s.instances[|s.instances| - 1].pending == {}
  {
    var p := Panel(1, true, true);
    var s0 := Init(true, false, Deps(true, false, 5), [p]);
    var s: State;
    events, s := Next(s0, [], s0, FlushEffects);
    MountedTimer(1);
    assert s == s0.(effectsPending := false, nextTimer := 2, instances := [Instance(false, 0, {1}, 1, false)]);
    RoundOfOne(s, p);
    events, s := Next(s0, events, s, TimerFires(0, 1));
    var first := Instance(false, 0, {}, 1, false);
    assert s == s0.(effectsPending := false, nextTimer := 2, instances := [first], inFlight := true,
                    rounds := [QueueRound(0, 0, [p], 1, Waiting(0), Stopped, false, [p], [0], [], [])]);
    events := StarvedByShowing(s0, events, s, p);
  }

  lemma StarvedByShowing(s0: State, before: seq<Event>, s2: State, p: Panel) returns (events: seq<Event>)
    requires Run(s0, before) == s2 && p.online
    requires s2 == s0.(effectsPending := false, nextTimer := 2, instances := [Instance(false, 0, {}, 1, false)],
                       inFlight := true,
                       rounds := [QueueRound(0, 0, [p], 1, Waiting(0), Stopped, false, [p], [0], [], [])])
    requires s0.deps == Deps(true, false, 5) && !s0.hidden && !s0.latestPaused
    ensures var s := Run(s0, events);
      && Live(s) && !s.hidden && !s.effectsPending && s.deps.Wants() && s.rounds == []
      && s.instances[|s.instances| - 1].starved && s.instances[|s.instances| - 1].pending == {}
  {
    var s: State;
    var first := Instance(true, 0, {}, 1, false);
    events, s := Next(s0, before, s2, Render(Deps(true, false, 10)));
    events, s := Next(s0, events, s, FlushEffects);
    assert Disposed(s2.instances[0]) == first;
    MountedTimer(2);
    assert s.instances == [first, Instance(false, 0, {2}, 2, false)];
    events, s := Next(s0, events, s, VisibilityChanged(true));
    assert s == s2.(hidden := true, deps := Deps(true, false, 10), nextTimer := 3, latestPanels := s.latestPanels,
                    instances := [first, Instance(false, 1, {}, 2, false)]);
    events := StarvedAtLast(s0, events, s, p);
  }

  lemma StarvedAtLast(s0: State, before: seq<Event>, s3: State, p: Panel) returns (events: seq<Event>)
    requires Run(s0, before) == s3 && p.online
    requires s3.instances == [Instance(true, 0, {}, 1, false), Instance(false, 1, {}, 2, false)]
    requires s3.rounds == [QueueRound(0, 0, [p], 1, Waiting(0), Stopped, false, [p], [0], [], [])]
    requires s3.inFlight && s3.hidden && !s3.effectsPending && s3.deps == Deps(true, false, 10)
    ensures var s := Run(s0, events);
      && Live(s) && !s.hidden && !s.effectsPending && s.deps.Wants() && s.rounds == []
      && s.instances[|s.instances| - 1].starved && s.instances[|s.instances| - 1].pending == {}
  {
    var s;
    events, s := Next(s0, before, s3, VisibilityChanged(false));
    ShownStarved(s3);
    events := EndedStarved(s0, events, s, p);
  }

  lemma ShownStarved(s: State)
    requires |s.instances| == 2 && s.instances[1] == Instance(false, 1, {}, 2, false) && s.inFlight
    requires |s.rounds| == 1 && s.rounds[0].owner == 0
    ensures Step(s, VisibilityChanged(false))
         == s.(hidden := false, instances := [s.instances[0], Instance(false, 2, {}, 2, true)])
  {
    OwnersOf(s.(hidden := false), 1);
    assert ClearTimer(Instance(false, 2, {}, 2, true)) == Instance(false, 2, {}, 2, true);
    assert s.instances[1 := Instance(false, 2, {}, 2, true)] == [s.instances[0], Instance(false, 2, {}, 2, true)];
  }

  /** The worker comes back and the round ends, which schedules for the disposed instance only. */
  lemma EndedStarved(s0: State, before: seq<Event>, s4: State, p: Panel) returns (events: seq<Event>)
    requires Run(s0, before) == s4 && p.online
    requires s4.instances == [Instance(true, 0, {}, 1, false), Instance(false, 2, {}, 2, true)]
    requires s4.rounds == [QueueRound(0, 0, [p], 1, Waiting(0), Stopped, false, [p], [0], [], [])]
    requires !s4.hidden && !s4.effectsPending && s4.deps == Deps(true, false, 10)
    ensures var s := Run(s0, events);
      && Live(s) && !s.hidden && !s.effectsPending && s.deps.Wants() && s.rounds == []
      && s.instances[|s.instances| - 1].starved && s.instances[|s.instances| - 1].pending == {}
  {
    var s;
    LateResume(s4, p);
    events, s := Next(s0, before, s4, WorkerResumes(0, First, Updated(p)));
    LateEnd(s);
    events, s := Next(s0, events, s, RoundEnds(0));
  }

  /** The round of a disposed instance: its worker stops, and writes nothing. */
  lemma LateResume(s: State, p: Panel)
    requires |s.instances| > 0 && s.instances[0].disposed && p.online
    requires s.rounds == [QueueRound(0, 0, [p], 1, Waiting(0), Stopped, false, [p], [0], [], [])]
    ensures Step(s, WorkerResumes(0, First, Updated(p)))
         == s.(rounds := [QueueRound(0, 0, [p], 1, Stopped, Stopped, false, [p], [0], [0], [Updated(p)])])
  {
    var r, r' := s.rounds[0], QueueRound(0, 0, [p], 1, Stopped, Stopped, false, [p], [0], [0], [Updated(p)]);
    assert r.settled + [0] == r'.settled && r.outcomes + [Updated(p)] == r'.outcomes;
    assert Claim(Settled(r, First, Updated(p)), First, false) == r';
    assert s.rounds[0 := r'] == [r'];
  }

  lemma LateEnd(s: State)
    requires |s.instances| > 0 && s.instances[0].disposed
    requires |s.rounds| == 1 && s.rounds[0].QueueRound? && s.rounds[0].owner == 0
    requires s.rounds[0].first.Stopped? && s.rounds[0].second.Stopped?
    ensures Step(s, RoundEnds(0)) == s.(inFlight := false, rounds := [])
  {
    assert s.rounds[..0] + s.rounds[1..] == [];
  }

  lemma Next(s0: State, events: seq<Event>, s: State, e: Event) returns (events': seq<Event>, s': State)
    requires Run(s0, events) == s
    ensures events' == events + [e] && s' == Step(s, e) && Run(s0, events') == s'
  {
    events', s' := events + [e], Step(s, e);
    RunSnoc(s0, events, e);
  }
}
