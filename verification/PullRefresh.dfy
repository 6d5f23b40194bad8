/** The pull-to-refresh gesture (src/mobile/MobilePullRefresh.tsx): five phases, two timers, the
    promises of started refreshes, and a version that a change of scope or of `disabled` bumps. */
module PullRefresh {
  import opened Sequences
  import opened Text

  const TRIGGER_DISTANCE: real := 64.0
  const RESTING_DISTANCE: real := 48.0
  const MAX_DISTANCE: real := 104.0

  datatype Phase = Idle | Pulling | Ready | Refreshing | Settling

  datatype Touch = Touch(id: int, x: real, y: real)

  datatype Tracked = Tracked(start: Touch, locked: bool)

  /** A refresh whose promise is still open: the version that started it, and how far the drag
      had pulled (history). */
  datatype Flight = Flight(version: nat, pulled: real)

  datatype State = State(
    alive: bool, disabled: bool, version: nat, phase: Phase, distance: real, tracking: Option<Tracked>,
    settlePending: set<nat>, settleTimer: nat, finishPending: set<nat>, finishTimer: nat, nextTimer: nat,
    flights: seq<Flight>, errors: nat)

  /** `free` at a start: not inert, scrolled to the top, an action given, no nested scroller.
      `free` in a move: scrolled to the top and not inert. `pulled` is the eased distance. */
  datatype Event =
    | TouchStart(touches: nat, touch: Touch, free: bool)
    | TouchMove(touches: nat, touch: Touch, free: bool, cancelable: bool, pulled: real)
    | TouchEnd(action: bool)
    | TouchCancel
    | SettleFires(timer: nat)
    | FinishFires(timer: nat)
    | Resolves(flight: nat, ok: bool)
    | ScopeChange(disabled: bool)
    | Unmount

  /** The resistance curve as far as the gesture depends on it: below the maximum, and zero
      exactly up to 8 pixels. */
  predicate Eased(y: real, pulled: real) {
    0.0 <= pulled < MAX_DISTANCE && (pulled == 0.0 <==> y <= 8.0)
  }

  function Abs(x: real): real { if x < 0.0 then -x else x }

  // ---------- The pieces of code ----------

  function Settle(s: State): State {
    s.(tracking := None, phase := Settling, distance := 0.0,
       settlePending := s.settlePending - {s.settleTimer} + {s.nextTimer}, settleTimer := s.nextTimer,
       nextTimer := s.nextTimer + 1)
  }

  function Reset(s: State): State {
    s.(tracking := None, settlePending := s.settlePending - {s.settleTimer},
       finishPending := s.finishPending - {s.finishTimer}, distance := 0.0, phase := Idle)
  }

  function Start(s: State, touches: nat, touch: Touch, free: bool): State {
    if s.tracking.Some? then Settle(s)
    else if touches != 1 || s.disabled || !free || !s.phase.Idle? then s
    else s.(tracking := Some(Tracked(touch, false)))
  }

  function Drag(s: State, touches: nat, touch: Touch, free: bool, cancelable: bool, pulled: real): State {
    if s.tracking.None? then s
    else
      var t := s.tracking.value;
      if touches != 1 || !free || touch.id != t.start.id then Settle(s)
      else
        var x, y := touch.x - t.start.x, touch.y - t.start.y;
        if !t.locked && Abs(x) < 8.0 && Abs(y) < 8.0 then s
        else if !t.locked && (y <= 0.0 || Abs(x) > y || !cancelable) then s.(tracking := None)
        else if !Eased(y, pulled) then s
        else s.(tracking := Some(t.(locked := true)), distance := pulled,
                phase := if pulled >= TRIGGER_DISTANCE then Ready else Pulling)
  }

  function End(s: State, action: bool): State {
    if s.tracking.None? then s
    else
      var refresh := s.tracking.value.locked && s.distance >= TRIGGER_DISTANCE && action;
      if refresh then s.(tracking := None, phase := Refreshing, distance := RESTING_DISTANCE,
                         flights := s.flights + [Flight(s.version, s.distance)])
      else if s.distance > 0.0 then Settle(s)
      else s.(tracking := None)
  }

  /** The promise of flight `k` has settled; only a current one touches the gesture. */
  function Resolved(s: State, k: nat, ok: bool): State
    requires k < |s.flights|
  {
    var s1 := s.(flights := s.flights[..k] + s.flights[k + 1..]);
    if !s.alive || s.flights[k].version != s.version then s1
    else s1.(errors := if ok then s.errors else s.errors + 1,
             finishPending := s.finishPending + {s.nextTimer}, finishTimer := s.nextTimer,
             nextTimer := s.nextTimer + 1)
  }

  /** One step; touch events reach the gesture only while its listeners are attached. */
  function Step(s: State, e: Event): State {
    match e
    case TouchStart(touches, touch, free) => if s.alive then Start(s, touches, touch, free) else s
    case TouchMove(touches, touch, free, cancelable, pulled) =>
      if s.alive then Drag(s, touches, touch, free, cancelable, pulled) else s
    case TouchEnd(action) => if s.alive then End(s, action) else s
    case TouchCancel => if s.alive && s.tracking.Some? then Settle(s) else s
    case SettleFires(timer) =>
      if timer !in s.settlePending then s
      else s.(settlePending := s.settlePending - {timer}, phase := if s.alive then Idle else s.phase)
    case FinishFires(timer) =>
      if timer !in s.finishPending then s else Settle(s.(finishPending := s.finishPending - {timer}))
    case Resolves(k, ok) => if k < |s.flights| then Resolved(s, k, ok) else s
    case ScopeChange(disabled) =>
      var s1 := s.(version := s.version + 1, disabled := disabled);
      if s.alive then Reset(s1) else s1
    case Unmount =>
      s.(alive := false, settlePending := s.settlePending - {s.settleTimer},
         finishPending := s.finishPending - {s.finishTimer})
  }

  function Init(disabled: bool): State {
    State(true, disabled, 1, Idle, 0.0, None, {}, 0, {}, 0, 1, [], 0)
  }

  function Run(s: State, events: seq<Event>): State {
    if events == [] then s else Step(Run(s, events[..|events| - 1]), events[|events| - 1])
  }

  lemma RunSnoc(s: State, events: seq<Event>, e: Event)
    ensures Run(s, events + [e]) == Step(Run(s, events), e)
  {
    assert (events + [e])[..|events|] == events;
  }

  // ---------- The invariant of every run ----------

  predicate InFlight(s: State, version: nat) { exists k | 0 <= k < |s.flights| :: s.flights[k].version == version }

  /** Each version has at most one open refresh, begun by a drag of at least the trigger
      distance. */
  predicate FlightsKept(s: State) {
    && (forall k | 0 <= k < |s.flights| :: s.flights[k].version <= s.version && s.flights[k].pulled >= TRIGGER_DISTANCE)
    && (forall i, j | 0 <= i < j < |s.flights| :: s.flights[i].version != s.flights[j].version)
  }

  predicate TimersKept(s: State) {
    && s.settlePending <= {s.settleTimer} && s.finishPending <= {s.finishTimer}
    && s.settleTimer < s.nextTimer && s.finishTimer < s.nextTimer
    && (!s.alive ==> s.settlePending == {} && s.finishPending == {})
  }

  /** What each phase says about the touch, the distance, the timers and the promises. */
  predicate PhaseKept(s: State) {
    && (s.settlePending != {} <==> s.phase.Settling?)
    && (s.phase.Refreshing? <==> s.finishPending != {} || InFlight(s, s.version))
    && !(s.finishPending != {} && InFlight(s, s.version))
    && (s.tracking.Some? ==> if s.tracking.value.locked then s.phase.Pulling? || s.phase.Ready? else s.phase.Idle?)
    && (match s.phase
        case Idle => s.distance == 0.0
        case Pulling => 0.0 <= s.distance < TRIGGER_DISTANCE && (s.tracking.None? ==> s.distance == 0.0)
        case Ready => s.distance >= TRIGGER_DISTANCE && s.tracking.Some?
        case Refreshing => s.tracking.None?
        case Settling => s.distance == 0.0 && s.tracking.None?)
  }

  predicate Inv(s: State) { FlightsKept(s) && TimersKept(s) && (s.alive ==> PhaseKept(s)) }

  lemma SettleKeeps(s: State)
    requires FlightsKept(s) && TimersKept(s) && s.alive
    requires s.finishPending == {} && !InFlight(s, s.version)
    ensures Inv(Settle(s))
  {
    assert s.settlePending - {s.settleTimer} == {};
    assert InFlight(Settle(s), s.version) == InFlight(s, s.version);
    assert s.nextTimer in Settle(s).settlePending;
  }

  lemma TouchKeeps(s: State, e: Event)
    requires Inv(s) && (e.TouchStart? || e.TouchMove? || e.TouchCancel?)
    ensures Inv(Step(s, e))
  {
    if s.alive {
      if s.tracking.Some? { SettleKeeps(s); }
      assert InFlight(Step(s, e), s.version) == InFlight(s, s.version);
    }
  }

  lemma EndKeeps(s: State, action: bool)
    requires Inv(s)
    ensures Inv(Step(s, TouchEnd(action)))
  {
    if s.alive && s.tracking.Some? {
      SettleKeeps(s);
      var s' := End(s, action);
      if s'.phase.Refreshing? {
        assert s'.flights[|s.flights|].version == s.version;
        forall k | 0 <= k < |s.flights|
          ensures s.flights[k].version != s.version
        {
          assert !InFlight(s, s.version);
        }
      } else {
        assert InFlight(s', s.version) == InFlight(s, s.version);
      }
    }
  }

  lemma TimerKeeps(s: State, e: Event)
    requires Inv(s) && (e.SettleFires? || e.FinishFires?)
    ensures Inv(Step(s, e))
  {
    if e.SettleFires? && e.timer in s.settlePending {
      assert InFlight(Step(s, e), s.version) == InFlight(s, s.version);
    } else if e.FinishFires? && e.timer in s.finishPending {
      var s1 := s.(finishPending := s.finishPending - {e.timer});
      assert InFlight(s1, s.version) == InFlight(s, s.version);
      SettleKeeps(s1);
    }
  }

  lemma OthersInFlight(s: State, k: nat, s': State)
    requires k < |s.flights| && FlightsKept(s)
    requires s'.flights == s.flights[..k] + s.flights[k + 1..] && s'.version == s.version
    ensures FlightsKept(s')
    ensures InFlight(s', s.version) <==> InFlight(s, s.version) && s.flights[k].version != s.version
  {
    forall i | 0 <= i < |s'.flights|
      ensures s'.flights[i] == s.flights[if i < k then i else i + 1]
    {
    }
    forall i | 0 <= i < |s.flights| && i != k && s.flights[i].version == s.version
      ensures InFlight(s', s.version)
    {
      assert s'.flights[if i < k then i else i - 1] == s.flights[i];
    }
  }

  lemma ResolvesKeeps(s: State, k: nat, ok: bool)
    requires Inv(s)
    ensures Inv(Step(s, Resolves(k, ok)))
  {
    if k < |s.flights| {
      var s' := Resolved(s, k, ok);
      OthersInFlight(s, k, s');
      if s.alive && s.flights[k].version == s.version {
        assert InFlight(s, s.version);
        assert s.nextTimer in s'.finishPending;
      }
    }
  }

  lemma ScopeKeeps(s: State, e: Event)
    requires Inv(s) && (e.ScopeChange? || e.Unmount?)
    ensures Inv(Step(s, e))
  {
    if e.ScopeChange? { assert !InFlight(Step(s, e), s.version + 1); }
  }

  lemma StepKeeps(s: State, e: Event)
    requires Inv(s)
    ensures Inv(Step(s, e))
  {
    match e
    case TouchStart(_, _, _) => TouchKeeps(s, e);
    case TouchMove(_, _, _, _, _) => TouchKeeps(s, e);
    case TouchEnd(action) => EndKeeps(s, action);
    case TouchCancel => TouchKeeps(s, e);
    case SettleFires(_) => TimerKeeps(s, e);
    case FinishFires(_) => TimerKeeps(s, e);
    case Resolves(k, ok) => ResolvesKeeps(s, k, ok);
    case ScopeChange(_) => ScopeKeeps(s, e);
    case Unmount => ScopeKeeps(s, e);
  }

  // ---------- Main results ----------

  lemma {:induction false} RunKeeps(disabled: bool, events: seq<Event>)
    ensures Inv(Run(Init(disabled), events))
  {
    if events != [] {
      RunKeeps(disabled, events[..|events| - 1]);
      StepKeeps(Run(Init(disabled), events[..|events| - 1]), events[|events| - 1]);
    }
  }

  /** In every run: a refresh is shown exactly while one promise of the current version is open
      or the finish timer is pending, never both; each version has at most one open promise, and
      it began with a drag of at least the trigger distance; a settling phase is exactly a
      pending settle timer; and a tracked touch is idle until it locks, then pulling or ready. */
  lemma PhasesOwned(disabled: bool, events: seq<Event>)
    ensures var s := Run(Init(disabled), events);
      && FlightsKept(s) && |s.settlePending| <= 1 && |s.finishPending| <= 1
      && (s.alive ==>
            && (s.phase.Refreshing? <==> s.finishPending != {} || InFlight(s, s.version))
            && !(s.finishPending != {} && InFlight(s, s.version))
            && (s.phase.Settling? <==> s.settlePending != {})
            && (s.tracking.Some? ==>
                  if s.tracking.value.locked then s.phase == (if s.distance >= TRIGGER_DISTANCE then Ready else Pulling)
                  else s.phase.Idle? && s.distance == 0.0))
  {
    RunKeeps(disabled, events);
    var s := Run(Init(disabled), events);
    AtMostOne(s.settlePending, s.settleTimer);
    AtMostOne(s.finishPending, s.finishTimer);
  }

  /** Nothing will bring the gesture back to rest: no touch, no timer, no current refresh. */
  predicate Stuck(s: State) {
    s.alive && !s.phase.Idle? && s.tracking.None? && s.settlePending == {} && s.finishPending == {}
    && !InFlight(s, s.version)
  }

  /** In every run the gesture is stuck in one state only: released while pulling at distance 0. */
  lemma StuckOnlyAtZero(disabled: bool, events: seq<Event>)
    ensures var s := Run(Init(disabled), events);
      Stuck(s) <==> s.alive && s.phase.Pulling? && s.tracking.None?
    ensures var s := Run(Init(disabled), events); Stuck(s) ==> s.distance == 0.0
  {
    RunKeeps(disabled, events);
  }

  /** A release gets stuck exactly when the drag was locked and had come back to distance 0. */
  lemma ReleaseSticks(s: State, action: bool)
    requires Inv(s) && s.alive && s.tracking.Some?
    ensures Stuck(Step(s, TouchEnd(action))) <==> s.tracking.value.locked && s.distance == 0.0
  {
    EndKeeps(s, action);
    var s' := End(s, action);
    if s'.phase.Refreshing? { assert s'.flights[|s.flights|].version == s.version; }
  }

  /** Of all events only a release makes the gesture stick, and exactly such a release. */
  lemma SticksIff(s: State, e: Event)
    requires Inv(s) && !Stuck(s)
    ensures Stuck(Step(s, e)) <==>
      e.TouchEnd? && s.alive && s.tracking.Some? && s.tracking.value.locked && s.distance == 0.0
  {
    StepKeeps(s, e);
    match e
    case TouchEnd(action) => if s.alive && s.tracking.Some? { ReleaseSticks(s, action); }
    case Resolves(k, ok) => if k < |s.flights| { ResolvedNotStuck(s, k, ok); }
    case _ =>
  }

  lemma ResolvedNotStuck(s: State, k: nat, ok: bool)
    requires Inv(s) && !Stuck(s) && k < |s.flights|
    ensures !Stuck(Resolved(s, k, ok))
  {
    var s' := Resolved(s, k, ok);
    OthersInFlight(s, k, s');
    if s.alive && s.flights[k].version == s.version { assert s.nextTimer in s'.finishPending; }
  }

  /** Once stuck, only a change of scope or the unmounting helps. */
  lemma {:induction false} StuckUntilReset(s: State, events: seq<Event>)
    requires Inv(s) && Stuck(s)
    requires forall k | 0 <= k < |events| :: !events[k].ScopeChange? && !events[k].Unmount?
    ensures Inv(Run(s, events)) && Stuck(Run(s, events))
  {
    if events != [] {
      var before, e := events[..|events| - 1], events[|events| - 1];
      assert forall k | 0 <= k < |before| :: before[k] == events[k];
      StuckUntilReset(s, before);
      StuckStep(Run(s, before), e);
    }
  }

  lemma StuckStep(s: State, e: Event)
    requires Inv(s) && Stuck(s) && !e.ScopeChange? && !e.Unmount?
    ensures Inv(Step(s, e)) && Stuck(Step(s, e))
  {
    StepKeeps(s, e);
    if e.Resolves? && e.flight < |s.flights| {
      assert s.flights[e.flight].version != s.version;
    }
  }

  /** That state is reached: a locked drag comes back to within 8 pixels and is released. */
  lemma StuckHappens()
    ensures Stuck(Run(Init(false), [TouchStart(1, Touch(0, 0.0, 0.0), true),
                                    TouchMove(1, Touch(0, 0.0, 20.0), true, true, 8.0),
                                    TouchMove(1, Touch(0, 0.0, 5.0), true, true, 0.0),
                                    TouchEnd(true)]))
  {
    var start, pull := TouchStart(1, Touch(0, 0.0, 0.0), true), TouchMove(1, Touch(0, 0.0, 20.0), true, true, 8.0);
    var back, release := TouchMove(1, Touch(0, 0.0, 5.0), true, true, 0.0), TouchEnd(true);
    var s0 := Init(false);
    var s1 := s0.(tracking := Some(Tracked(Touch(0, 0.0, 0.0), false)));
    var s2 := s1.(tracking := Some(Tracked(Touch(0, 0.0, 0.0), true)), distance := 8.0, phase := Pulling);
    var s3 := s2.(distance := 0.0);
    RunSnoc(s0, [], start);
    assert [] + [start] == [start] && Step(s0, start) == s1;
    RunSnoc(s0, [start], pull);
    assert [start] + [pull] == [start, pull] && Step(s1, pull) == s2;
    RunSnoc(s0, [start, pull], back);
    assert [start, pull] + [back] == [start, pull, back] && Step(s2, back) == s3;
    RunSnoc(s0, [start, pull, back], release);
    assert [start, pull, back] + [release] == [start, pull, back, release];
  }

  /** The completion of a refresh of an older version, or after unmounting, changes nothing but
      the set of open promises. */
  lemma StaleResolvesChangeNothing(s: State, k: nat, ok: bool)
    requires k < |s.flights| && (s.flights[k].version != s.version || !s.alive)
    ensures Step(s, Resolves(k, ok)) == s.(flights := s.flights[..k] + s.flights[k + 1..])
  {
  }

  // ---------- When a refresh begins and how it ends ----------

  /** The releases that start a refresh: with an action, of a locked drag at 64 pixels or more. */
  predicate Starts(s: State, e: Event) {
    e.TouchEnd? && e.action && s.alive && s.tracking.Some? && s.tracking.value.locked && s.distance >= 64.0
  }

  /** Exactly these releases start a refresh, for the current version, and no other event adds one;
      the phase is then refreshing, at the resting distance, with no touch tracked. */
  lemma RefreshBegins(s: State, e: Event)
    ensures var s' := Step(s, e);
      if Starts(s, e) then
        && s'.flights == s.flights + [Flight(s.version, s.distance)] && s'.version == s.version
        && s'.phase.Refreshing? && s'.distance == 48.0 && s'.tracking.None?
      else |s'.flights| <= |s.flights|
  {
  }

  /** The refreshing phase begins in no other way. */
  lemma RefreshingOnlyBegins(s: State, e: Event)
    requires !s.phase.Refreshing? && Step(s, e).phase.Refreshing?
    ensures Starts(s, e)
  {
  }

  /** The completion of a current refresh starts the finish timer and reports a failure; the timer
      leads to settling, and the settle timer to rest. */
  lemma RefreshEnds(s: State, k: nat, ok: bool)
    requires Inv(s) && s.alive && k < |s.flights| && s.flights[k].version == s.version
    ensures var s1 := Step(s, Resolves(k, ok));
      var s2 := Step(s1, FinishFires(s1.finishTimer));
      var s3 := Step(s2, SettleFires(s2.settleTimer));
      && s1.flights == s.flights[..k] + s.flights[k + 1..] && s1.phase.Refreshing? && s1.distance == s.distance
      && s1.finishPending == {s1.finishTimer} && s1.errors == s.errors + (if ok then 0 else 1)
      && s2.phase.Settling? && s2.distance == 0.0 && s2.finishPending == {} && s2.settlePending == {s2.settleTimer}
      && s3.phase.Idle? && s3.distance == 0.0 && s3.settlePending == {} && s3.errors == s1.errors
  {
    assert InFlight(s, s.version);
    var none: set<nat> := {};
    assert s.finishPending == none && none + {s.nextTimer} == {s.nextTimer};
    assert {s.nextTimer} - {s.nextTimer} == none;
    assert s.settlePending == none && s.settlePending - {s.settleTimer} + {s.nextTimer + 1} == {s.nextTimer + 1};
    assert {s.nextTimer + 1} - {s.nextTimer + 1} == none;
  }

  /** What is reported: a failure of a refresh of the current version while mounted. */
  lemma ReportedIff(s: State, e: Event)
    ensures var s' := Step(s, e);
      if e.Resolves? && !e.ok && s.alive && e.flight < |s.flights| && s.flights[e.flight].version == s.version
      then s'.errors == s.errors + 1 else s'.errors == s.errors
  {
  }

  // ---------- What a touch does ----------

  /** In every run the list is pulled down by less than 104 pixels, and never up. */
  lemma {:induction false} DistanceBounded(disabled: bool, events: seq<Event>)
    ensures 0.0 <= Run(Init(disabled), events).distance < 104.0
  {
    if events != [] {
      var before := events[..|events| - 1];
      DistanceBounded(disabled, before);
      StepBounded(Run(Init(disabled), before), events[|events| - 1]);
    }
  }

  lemma StepBounded(s: State, e: Event)
    requires 0.0 <= s.distance < 104.0
    ensures 0.0 <= Step(s, e).distance < 104.0
  {
  }

  /** Tracking begins exactly with a single free touch at rest, while mounted and not disabled. */
  lemma TrackingBegins(s: State, e: Event)
    requires s.tracking.None?
    ensures var s' := Step(s, e);
      if e.TouchStart? && e.touches == 1 && e.free && s.alive && !s.disabled && s.phase.Idle?
      then s' == s.(tracking := Some(Tracked(e.touch, false))) else s'.tracking.None?
  {
  }

  /** How far a move has gone from where its touch began. */
  function Right(s: State, touch: Touch): real
    requires s.tracking.Some?
  {
    touch.x - s.tracking.value.start.x
  }

  function Down(s: State, touch: Touch): real
    requires s.tracking.Some?
  {
    touch.y - s.tracking.value.start.y
  }

  /** A move of the tracked touch alone, in a place where it may pull. */
  predicate Follows(s: State, e: Event) {
    s.alive && s.tracking.Some? && e.TouchMove? && e.touches == 1 && e.free && e.touch.id == s.tracking.value.start.id
  }

  /** What the resistance curve may give for a move: less than 104 pixels, and 0 exactly up to 8. */
  predicate Gives(s: State, e: Event)
    requires e.TouchMove? && s.tracking.Some?
  {
    0.0 <= e.pulled < 104.0 && (e.pulled == 0.0 <==> Down(s, e.touch) <= 8.0)
  }

  /** A drag locks exactly when it has left the 8-pixel square, downwards and not more sideways,
      and can be claimed; within the square nothing happens, and otherwise the touch is let go. */
  lemma DragLocksIff(s: State, e: Event)
    requires Follows(s, e) && !s.tracking.value.locked && Gives(s, e)
    ensures var s', x, y := Step(s, e), Right(s, e.touch), Down(s, e.touch);
      if -8.0 < x < 8.0 && -8.0 < y < 8.0 then s' == s
      else if y > 0.0 && -y <= x <= y && e.cancelable
      then s'.tracking == Some(Tracked(s.tracking.value.start, true)) && s' == Shows(s, s', e.pulled)
      else s' == s.(tracking := None)
  {
  }

  /** The state with this distance on show: ready from 64 pixels on, and pulling below. */
  function Shows(s: State, s': State, pulled: real): State {
    s.(tracking := s'.tracking, distance := pulled, phase := if pulled >= 64.0 then Ready else Pulling)
  }

  /** A locked drag follows the touch wherever it goes, up and sideways too. */
  lemma LockedDragShows(s: State, e: Event)
    requires Follows(s, e) && s.tracking.value.locked && Gives(s, e)
    ensures Step(s, e) == Shows(s, s, e.pulled)
  {
  }

  /** The events that give a tracked touch up for good: a second touch, a move of another touch or
      in a wrong place, and a cancellation. */
  predicate GivesUp(s: State, e: Event) {
    && s.alive && s.tracking.Some?
    && (e.TouchStart? || e.TouchCancel? || (e.TouchMove? && !Follows(s, e)))
  }

  /** Giving up settles, and so does a release that refreshes nothing but has pulled. */
  lemma GivingUpSettles(s: State, e: Event)
    requires Inv(s)
    requires GivesUp(s, e)
      || (e.TouchEnd? && s.alive && s.tracking.Some? && s.distance > 0.0 && !Starts(s, e))
    ensures var s' := Step(s, e);
      && s'.phase.Settling? && s'.distance == 0.0 && s'.tracking.None? && s'.flights == s.flights
      && s'.settlePending == {s'.settleTimer} && Step(s', SettleFires(s'.settleTimer)).phase.Idle?
  {
    assert s.settlePending - {s.settleTimer} + {s.nextTimer} == {s.nextTimer};
  }

  /** A change of scope makes every open refresh outdated and brings the gesture to rest at once. */
  lemma ScopeChangeResets(s: State, disabled: bool)
    requires Inv(s) && s.alive
    ensures var s' := Step(s, ScopeChange(disabled));
      && s'.version == s.version + 1 && s'.disabled == disabled && s'.flights == s.flights
      && s'.phase.Idle? && s'.distance == 0.0 && s'.tracking.None? && s'.settlePending == {} && s'.finishPending == {}
      && forall k | 0 <= k < |s'.flights| :: s'.flights[k].version != s'.version
  {
  }

  /** After unmounting no touch or timer does anything. */
  lemma UnmountEnds(s: State)
    requires Inv(s)
    ensures var s' := Step(s, Unmount);
      !s'.alive && s'.settlePending == {} && s'.finishPending == {} && s'.flights == s.flights
  {
  }
}
