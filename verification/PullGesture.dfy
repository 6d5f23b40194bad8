/** The code of the pull gesture as it runs: event handlers and timer callbacks update the
    variables of the effect in place, each taking the step the specification gives for it. */
module PullGesture {
  import opened Text
  import opened PullRefresh

  class Gesture {
    var alive: bool
    var disabled: bool
    var version: nat
    var phase: Phase
    var distance: real
    var tracking: Option<Tracked>
    var settlePending: set<nat>
    var settleTimer: nat
    var finishPending: set<nat>
    var finishTimer: nat
    var nextTimer: nat
    var flights: seq<Flight>
    var errors: nat

    /** The events that have been handled since the start. */
    ghost const start: State
    ghost var history: seq<Event>

    ghost function View(): State
      reads this
    {
      State(alive, disabled, version, phase, distance, tracking, settlePending, settleTimer,
            finishPending, finishTimer, nextTimer, flights, errors)
    }

    /** The state is that of a run, so that every result about runs holds of the object. */
    ghost predicate Reached()
      reads this
    {
      start == Init(start.disabled) && View() == Run(start, history)
    }

    lemma Safe()
      requires Reached()
      ensures Inv(View())
    {
      RunKeeps(start.disabled, history);
    }

    constructor (disabled: bool)
      ensures Reached() && history == [] && View() == Init(disabled)
      ensures phase.Idle? && distance == 0.0 && tracking.None? && alive && flights == []
    {
      start, history := Init(disabled), [];
      alive, this.disabled, version, phase, distance, tracking := true, disabled, 1, Idle, 0.0, None;
      settlePending, settleTimer, finishPending, finishTimer, nextTimer := {}, 0, {}, 0, 1;
      flights, errors := [], 0;
    }

    method SettleDown()
      modifies this
      ensures View() == Settle(old(View())) && history == old(history)
    {
      tracking := None;
      phase := Settling;
      distance := 0.0;
      settlePending := settlePending - {settleTimer};
      settleTimer := nextTimer;
      settlePending := settlePending + {settleTimer};
      nextTimer := nextTimer + 1;
    }

    method Started(touches: nat, touch: Touch, free: bool)
      modifies this
      ensures View() == Step(old(View()), TouchStart(touches, touch, free)) && history == old(history)
    {
      if !alive { return; }
      if tracking.Some? || touches != 1 {
        if tracking.Some? { SettleDown(); }
        return;
      }
      if disabled || !free || phase != Idle { return; }
      tracking := Some(Tracked(touch, false));
    }

    method Dragged(touches: nat, touch: Touch, free: bool, cancelable: bool, pulled: real)
      requires tracking.Some? ==> Eased(touch.y - tracking.value.start.y, pulled)
      modifies this
      ensures View() == Step(old(View()), TouchMove(touches, touch, free, cancelable, pulled))
      ensures history == old(history)
    {
      if !alive || tracking.None? { return; }
      if touches != 1 || !free { SettleDown(); return; }
      var t := tracking.value;
      if touch.id != t.start.id { SettleDown(); return; }
      var x, y := touch.x - t.start.x, touch.y - t.start.y;
      if !t.locked {
        if Abs(x) < 8.0 && Abs(y) < 8.0 { return; }
        if y <= 0.0 || Abs(x) > y { tracking := None; return; }
        if !cancelable { tracking := None; return; }
        tracking := Some(t.(locked := true));
      }
      distance := pulled;
      phase := if distance >= TRIGGER_DISTANCE then Ready else Pulling;
    }

    method Ended(action: bool)
      modifies this
      ensures View() == Step(old(View()), TouchEnd(action)) && history == old(history)
    {
      if !alive || tracking.None? { return; }
      var refresh := tracking.value.locked && distance >= TRIGGER_DISTANCE && action;
      tracking := None;
      if !refresh {
        if distance > 0.0 { SettleDown(); }
        return;
      }
      flights := flights + [Flight(version, distance)];
      phase := Refreshing;
      distance := RESTING_DISTANCE;
    }

    method Cancelled()
      modifies this
      ensures View() == Step(old(View()), TouchCancel) && history == old(history)
    {
      if alive && tracking.Some? { SettleDown(); }
    }

    method SettleTimerFired(timer: nat)
      modifies this
      ensures View() == Step(old(View()), SettleFires(timer)) && history == old(history)
    {
      if timer !in settlePending { return; }
      settlePending := settlePending - {timer};
      if alive { phase := Idle; }
    }

    method FinishTimerFired(timer: nat)
      modifies this
      ensures View() == Step(old(View()), FinishFires(timer)) && history == old(history)
    {
      if timer !in finishPending { return; }
      finishPending := finishPending - {timer};
      SettleDown();
    }

    method PromiseSettled(k: nat, ok: bool)
      modifies this
      ensures View() == Step(old(View()), Resolves(k, ok)) && history == old(history)
    {
      if k >= |flights| { return; }
      var started := flights[k].version;
      flights := flights[..k] + flights[k + 1..];
      if !ok && alive && started == version { errors := errors + 1; }
      if !alive || started != version { return; }
      StartFinishTimer();
    }

    method StartFinishTimer()
      modifies this
      ensures history == old(history)
      ensures View() == old(View().(finishPending := finishPending + {nextTimer}, finishTimer := nextTimer,
                                    nextTimer := nextTimer + 1))
    {
      finishTimer := nextTimer;
      finishPending := finishPending + {finishTimer};
      nextTimer := nextTimer + 1;
    }

    /** The layout effect of a new scope: bump the version and reset the interaction. */
    method ScopeChanged(nowDisabled: bool)
      modifies this
      ensures View() == Step(old(View()), ScopeChange(nowDisabled)) && history == old(history)
    {
      disabled := nowDisabled;
      version := version + 1;
      if alive { ResetInteraction(); }
    }

    method ResetInteraction()
      modifies this
      ensures View() == Reset(old(View())) && history == old(history)
    {
      tracking := None;
      settlePending := settlePending - {settleTimer};
      finishPending := finishPending - {finishTimer};
      distance := 0.0;
      phase := Idle;
    }

    method Unmounted()
      modifies this
      ensures View() == Step(old(View()), Unmount) && history == old(history)
    {
      alive := false;
      settlePending := settlePending - {settleTimer};
      finishPending := finishPending - {finishTimer};
    }

    /** The event loop: one event after another is handed to its handler. */
    method Handle(e: Event)
      requires Reached()
      requires e.TouchMove? && tracking.Some? ==> Eased(e.touch.y - tracking.value.start.y, e.pulled)
      modifies this
      ensures Reached() && history == old(history) + [e] && View() == Step(old(View()), e)
    {
      match e {
        case TouchStart(touches, touch, free) => Started(touches, touch, free);
        case TouchMove(touches, touch, free, cancelable, pulled) => Dragged(touches, touch, free, cancelable, pulled);
        case TouchEnd(action) => Ended(action);
        case TouchCancel => Cancelled();
        case SettleFires(timer) => SettleTimerFired(timer);
        case FinishFires(timer) => FinishTimerFired(timer);
        case Resolves(k, ok) => PromiseSettled(k, ok);
        case ScopeChange(nowDisabled) => ScopeChanged(nowDisabled);
        case Unmount => Unmounted();
      }
      RunSnoc(start, history, e);
      history := history + [e];
    }
  }
}
