/** The code of the panel refresh hook as it runs: the closures of the effect update the shared
    refs, the instances and the rounds in place. Each handler takes the step the specification
    gives for it. */
module PanelRefreshHook {
  import opened Sequences
  import opened PanelRefresh

  class RefreshHook {
    const native: bool
    var hidden: bool
    var inFlight: bool
    var failed: bool
    var deps: Deps
    var effectsPending: bool
    var latestPaused: bool
    var latestPanels: seq<Panel>
    var panels: seq<Panel>
    var instances: seq<Instance>
    var rounds: seq<Round>
    var nextTimer: nat

    /** The events that have been handled since the start. */
    ghost const start: State
    ghost var history: seq<Event>

    ghost function View(): State
      reads this
    {
      State(native, hidden, inFlight, failed, deps, effectsPending, latestPaused, latestPanels, panels,
            instances, rounds, nextTimer)
    }

    /** The state is that of a run, so that every result about runs holds of the object. */
    ghost predicate Reached()
      reads this
    {
      start == Init(native, start.hidden, start.deps, start.panels) && View() == Run(start, history)
    }

    lemma Safe()
      requires Reached()
      ensures Inv(View()) && Separate(View())
    {
      RunKeeps(native, start.hidden, start.deps, start.panels, history);
      InvMeans(View());
    }

    constructor (native: bool, hidden: bool, deps: Deps, panels: seq<Panel>)
      ensures Reached() && history == [] && View() == Init(native, hidden, deps, panels)
      ensures instances == [] && rounds == [] && effectsPending && !inFlight && !failed && this.panels == panels
    {
      start, history := Init(native, hidden, deps, panels), [];
      this.native, this.hidden, this.deps, this.panels := native, hidden, deps, panels;
      inFlight, failed, effectsPending := false, false, true;
      latestPaused, latestPanels := deps.paused, panels;
      instances, rounds, nextTimer := [], [], 1;
    }

    method Rendered(newDeps: Deps)
      modifies this
      ensures View() == Step(old(View()), Render(newDeps)) && history == old(history)
    {
      if effectsPending { return; }
      latestPaused, latestPanels := newDeps.paused, panels;
      effectsPending := newDeps != deps;
      deps := newDeps;
    }

    method ScheduleRefresh(i: nat)
      requires i < |instances|
      modifies this
      ensures View() == Schedule(old(View()), i) && history == old(history)
    {
      if !instances[i].disposed && !hidden {
        instances := instances[i := instances[i].(pending := instances[i].pending + {nextTimer}, timer := nextTimer)];
        nextTimer := nextTimer + 1;
      }
    }

    method RefreshPanels(i: nat)
      requires i < |instances|
      modifies this
      ensures View() == Refresh(old(View()), i) && history == old(history)
    {
      if instances[i].disposed || hidden { return; }
      if latestPaused || inFlight || latestPanels == [] {
        ScheduleRefresh(i);
        return;
      }
      inFlight := true;
      var generation := instances[i].generation;
      if native {
        var queue := Filter(latestPanels, HasKey());
        var round := QueueRound(i, generation, queue, 0, Stopped, Stopped, false, latestPanels, [], [], []);
        round := Claim(round, First, true);
        round := Claim(round, Second, true);
        rounds := rounds + [round];
      } else {
        rounds := rounds + [CacheRound(i, generation)];
      }
    }

    method TimerFired(i: nat, timer: nat)
      modifies this
      ensures View() == Step(old(View()), TimerFires(i, timer)) && history == old(history)
    {
      if i < |instances| && timer in instances[i].pending {
        instances := instances[i := instances[i].(pending := instances[i].pending - {timer})];
        RefreshPanels(i);
      }
    }

    method FinishRound(k: nat, errors: bool)
      requires k < |rounds|
      modifies this
      ensures View() == Finish(old(View()), k, errors) && history == old(history)
    {
      var round := rounds[k];
      var valid := StillValid(round);
      inFlight := false;
      if valid { failed := errors; }
      rounds := rounds[..k] + rounds[k + 1..];
      if round.owner < |instances| {
        ScheduleRefresh(round.owner);
      }
    }

    method WorkerResumed(k: nat, which: Which, outcome: Outcome)
      modifies this
      ensures View() == Step(old(View()), WorkerResumes(k, which, outcome)) && history == old(history)
    {
      if k < |rounds| && rounds[k].QueueRound? && WorkerOf(rounds[k], which).Waiting? {
        var round := rounds[k];
        var valid := StillValid(round);
        if outcome.Updated? && valid { panels := Replaced(panels, outcome.panel); }
        round := Settled(round, which, outcome);
        round := Claim(round, which, valid);
        rounds := rounds[k := round];
      }
    }

    method CacheResumed(k: nat, cached: Cached)
      modifies this
      ensures View() == Step(old(View()), CacheResumes(k, cached)) && history == old(history)
    {
      if k < |rounds| && rounds[k].CacheRound? {
        var valid := StillValid(rounds[k]);
        if cached.Read? && valid { panels := cached.panels; }
        FinishRound(k, cached.Unread?);
      }
    }

    method RoundEnded(k: nat)
      modifies this
      ensures View() == Step(old(View()), RoundEnds(k)) && history == old(history)
    {
      if k < |rounds| && rounds[k].QueueRound? && rounds[k].first.Stopped? && rounds[k].second.Stopped? {
        FinishRound(k, rounds[k].errors);
      }
    }

    /** Whether a round may still write its results. */
    method StillValid(round: Round) returns (valid: bool)
      ensures valid == Valid(View(), round)
    {
      valid := round.owner < |instances| && !instances[round.owner].disposed
               && round.generation == instances[round.owner].generation && !hidden && !latestPaused;
    }

    method Owned(i: nat) returns (owned: bool)
      ensures owned == OwnsRound(View(), i)
    {
      owned := exists k | 0 <= k < |rounds| :: rounds[k].owner == i;
    }

    method VisibilityChange(nowHidden: bool)
      modifies this
      ensures View() == Step(old(View()), VisibilityChanged(nowHidden)) && history == old(history)
    {
      hidden := nowHidden;
      var i := |instances| - 1;
      if i < 0 || instances[i].disposed { return; }
      var owned := Owned(i);
      var inst := instances[i];
      inst := inst.(generation := inst.generation + 1, starved := !hidden && inFlight && !owned);
      instances := instances[i := ClearTimer(inst)];
      if !hidden && !inFlight { ScheduleRefresh(i); }
    }

    method RunEffects()
      modifies this
      ensures View() == Step(old(View()), FlushEffects) && history == old(history)
    {
      if !effectsPending { return; }
      effectsPending := false;
      var n := |instances|;
      if n > 0 && !instances[n - 1].disposed {
        instances := instances[n - 1 := Disposed(instances[n - 1])];
      }
      if deps.Wants() {
        instances := instances + [Instance(false, 0, {}, 0, false)];
        ScheduleRefresh(n);
      }
    }

    method PanelsSet(newPanels: seq<Panel>)
      modifies this
      ensures View() == Step(old(View()), SetPanels(newPanels)) && history == old(history)
    {
      panels := newPanels;
    }

    /** The event loop: one event after another is handed to its handler. */
    method Handle(e: Event)
      requires Reached()
      modifies this
      ensures Reached() && history == old(history) + [e] && View() == Step(old(View()), e)
    {
      match e {
        case Render(newDeps) => Rendered(newDeps);
        case FlushEffects => RunEffects();
        case SetPanels(newPanels) => PanelsSet(newPanels);
        case VisibilityChanged(nowHidden) => VisibilityChange(nowHidden);
        case TimerFires(i, timer) => TimerFired(i, timer);
        case WorkerResumes(k, which, outcome) => WorkerResumed(k, which, outcome);
        case CacheResumes(k, cached) => CacheResumed(k, cached);
        case RoundEnds(k) => RoundEnded(k);
      }
      RunSnoc(start, history, e);
      history := history + [e];
    }
  }
}
