/** Revealing a saved credential (src/shared/SecretField.tsx). The saved value is shown beside the
    form value and never becomes part of it. */
module SecretField {
  import opened Text

  /** `value` is the controlled form value, if any; its owner takes over every edit. `open` are
      the generations of the reveals that have not come back. */
  datatype State = State(
    alive: bool, disabled: bool, canReveal: bool, value: Option<string>, localValue: string,
    visible: bool, saved: Option<string>, busy: bool, failed: bool, generation: nat, open: seq<nat>)

  datatype Event =
    | Edit(text: string)
    | Toggle
    | Resolves(request: nat, secret: Option<string>)
    | Unmount

  function CurrentValue(s: State): string { if s.value.Some? then s.value.value else s.localValue }

  function Edited(s: State, text: string): State {
    s.(generation := s.generation + 1, saved := None, busy := false, failed := false, localValue := text,
       value := if s.value.Some? then Some(text) else None)
  }

  function Toggled(s: State): State {
    if s.visible then s.(failed := false, generation := s.generation + 1, visible := false, saved := None)
    else if CurrentValue(s) != "" || !s.canReveal then s.(failed := false, visible := true)
    else s.(failed := false, generation := s.generation + 1, busy := true, open := s.open + [s.generation + 1])
  }

  function Resolved(s: State, k: nat, secret: Option<string>): State
    requires k < |s.open|
  {
    var s1 := s.(open := s.open[..k] + s.open[k + 1..]);
    if s.open[k] != s.generation then s1
    else if secret.Some? then s1.(saved := secret, visible := true, busy := false)
    else s1.(failed := true, busy := false)
  }

  /** One step; the eye button is disabled while a reveal is busy. */
  function Step(s: State, e: Event): State {
    match e
    case Edit(text) => if s.alive then Edited(s, text) else s
    case Toggle => if s.alive && !s.disabled && !s.busy then Toggled(s) else s
    case Resolves(k, secret) => if k < |s.open| then Resolved(s, k, secret) else s
    case Unmount => if s.alive then s.(alive := false, generation := s.generation + 1) else s
  }

  function Init(disabled: bool, canReveal: bool, value: Option<string>, initial: string): State {
    State(true, disabled, canReveal, value, initial, false, None, false, false, 0, [])
  }

  function Run(s: State, events: seq<Event>): State {
    if events == [] then s else Step(Run(s, events[..|events| - 1]), events[|events| - 1])
  }

  lemma RunSnoc(s: State, events: seq<Event>, e: Event)
    ensures Run(s, events + [e]) == Step(Run(s, events), e)
  {
    assert (events + [e])[..|events|] == events;
  }

  // ---------- The invariant of every run ----------

  predicate Inv(s: State) {
    && (forall k | 0 <= k < |s.open| :: s.open[k] <= s.generation)
    && (forall i, j | 0 <= i < j < |s.open| :: s.open[i] != s.open[j])
    && (s.alive ==>
          && (s.saved.Some? ==> s.visible && CurrentValue(s) == "" && !s.busy)
          && (s.busy ==> !s.visible && CurrentValue(s) == "")
          && (s.busy <==> s.generation in s.open))
    && (!s.alive ==> s.generation !in s.open)
  }

  lemma RemovedOpen(open: seq<nat>, k: nat, g: nat)
    requires k < |open| && forall i, j | 0 <= i < j < |open| :: open[i] != open[j]
    ensures var rest := open[..k] + open[k + 1..];
      && (forall i | 0 <= i < |rest| :: rest[i] in open)
      && (forall i, j | 0 <= i < j < |rest| :: rest[i] != rest[j])
      && (g in rest <==> g in open && g != open[k])
  {
    var rest := open[..k] + open[k + 1..];
    assert forall i | 0 <= i < |rest| :: rest[i] == open[if i < k then i else i + 1];
    if g in open && g != open[k] {
      var j :| 0 <= j < |open| && open[j] == g;
      assert rest[if j < k then j else j - 1] == g;
    }
  }

  lemma ResolvesKeeps(s: State, k: nat, secret: Option<string>)
    requires Inv(s) && k < |s.open|
    ensures Inv(Resolved(s, k, secret))
  {
    RemovedOpen(s.open, k, s.generation);
    assert s.open[k] in s.open;
  }

  lemma ToggleKeeps(s: State)
    requires Inv(s) && s.alive && !s.busy
    ensures Inv(Toggled(s))
  {
    assert s.generation + 1 !in s.open;
  }

  lemma StepKeeps(s: State, e: Event)
    requires Inv(s)
    ensures Inv(Step(s, e))
  {
    match e
    case Edit(text) => assert s.generation + 1 !in s.open;
    case Toggle => if s.alive && !s.busy { ToggleKeeps(s); }
    case Resolves(k, secret) => if k < |s.open| { ResolvesKeeps(s, k, secret); }
    case Unmount => assert s.generation + 1 !in s.open;
  }

  // ---------- Main results ----------

  lemma {:induction false} RunKeeps(disabled: bool, canReveal: bool, value: Option<string>, initial: string,
                                    events: seq<Event>)
    ensures Inv(Run(Init(disabled, canReveal, value, initial), events))
  {
    if events != [] {
      RunKeeps(disabled, canReveal, value, initial, events[..|events| - 1]);
      StepKeeps(Run(Init(disabled, canReveal, value, initial), events[..|events| - 1]), events[|events| - 1]);
    }
  }

  /** In every run: a saved value is shown only in a visible field whose form value is empty;
      the field is busy exactly while a reveal of the current generation is open, and then it is
      hidden and empty. */
  lemma SavedValueApart(disabled: bool, canReveal: bool, value: Option<string>, initial: string, events: seq<Event>)
    ensures var s := Run(Init(disabled, canReveal, value, initial), events);
      s.alive ==>
        && (s.saved.Some? ==> s.visible && CurrentValue(s) == "" && !s.busy)
        && (s.busy <==> s.generation in s.open)
        && (s.busy ==> !s.visible && CurrentValue(s) == "" && s.saved.None?)
  {
    RunKeeps(disabled, canReveal, value, initial, events);
  }

  /** The form value is the initial one until the first edit and the last edit from then on: no
      reveal ever reaches it. */
  function FormValue(value: Option<string>, initial: string, events: seq<Event>): string {
    if events == [] then (if value.Some? then value.value else initial)
    else if events[|events| - 1].Edit? then events[|events| - 1].text
    else FormValue(value, initial, events[..|events| - 1])
  }

  lemma {:induction false} FormValueFromEdits(disabled: bool, canReveal: bool, value: Option<string>, initial: string,
                                              events: seq<Event>)
    requires Unmount !in events
    ensures var s := Run(Init(disabled, canReveal, value, initial), events);
      s.alive && CurrentValue(s) == FormValue(value, initial, events)
  {
    if events != [] {
      var before, e := events[..|events| - 1], events[|events| - 1];
      assert e in events && forall x | x in before :: x in events;
      FormValueFromEdits(disabled, canReveal, value, initial, before);
      StepKeepsForm(Run(Init(disabled, canReveal, value, initial), before), e);
    }
  }

  lemma StepKeepsForm(s: State, e: Event)
    requires s.alive && !e.Unmount?
    ensures Step(s, e).alive && CurrentValue(Step(s, e)) == if e.Edit? then e.text else CurrentValue(s)
  {
    match e
    case Edit(text) =>
    case Toggle => ToggleKeepsForm(s);
    case Resolves(k, secret) => if k < |s.open| { ResolveKeepsForm(s, k, secret); }
  }

  lemma ToggleKeepsForm(s: State)
    ensures Toggled(s).alive == s.alive && CurrentValue(Toggled(s)) == CurrentValue(s)
  {
  }

  lemma ResolveKeepsForm(s: State, k: nat, secret: Option<string>)
    requires k < |s.open|
    ensures var s' := Resolved(s, k, secret); s'.alive == s.alive && CurrentValue(s') == CurrentValue(s)
  {
  }

  /** A reveal that has been superseded changes nothing but the set of open reveals. */
  lemma SupersededChangesNothing(s: State, k: nat, secret: Option<string>)
    requires Inv(s) && k < |s.open| && (s.open[k] != s.generation || !s.alive)
    ensures Step(s, Resolves(k, secret)) == s.(open := s.open[..k] + s.open[k + 1..])
  {
    if !s.alive { assert s.open[k] in s.open; }
  }

  // ---------- What each event does ----------

  /** The reveal of the current generation shows the secret it got, or the message that it got
      none, and the field is no longer busy; the form value stays. */
  lemma CurrentRevealShows(s: State, k: nat, secret: Option<string>)
    requires k < |s.open| && s.open[k] == s.generation
    ensures var s' := Step(s, Resolves(k, secret));
      && !s'.busy && s'.open == s.open[..k] + s.open[k + 1..]
      && (if secret.Some? then s'.saved == secret && s'.visible && s'.failed == s.failed
          else s'.failed && s'.saved == s.saved && s'.visible == s.visible)
      && s'.value == s.value && s'.localValue == s.localValue && s'.generation == s.generation && s'.alive == s.alive
  {
  }

  /** The button shows a hidden field that has text or nothing to reveal, asks for the saved value
      of another, and hides a visible one; it clears the message each time. It does nothing while
      it is disabled. */
  lemma ButtonMeans(s: State)
    ensures var s', text := Step(s, Toggle), if s.value.Some? then s.value.value else s.localValue;
      if !s.alive || s.disabled || s.busy then s' == s
      else
        && !s'.failed && s'.value == s.value && s'.localValue == s.localValue && s'.alive
        && (if s.visible then
              !s'.visible && s'.saved.None? && !s'.busy && s'.open == s.open && s'.generation == s.generation + 1
            else if text != "" || !s.canReveal then
              s'.visible && s'.saved == s.saved && !s'.busy && s'.open == s.open && s'.generation == s.generation
            else
              && !s'.visible && s'.saved == s.saved && s'.busy && s'.generation == s.generation + 1
              && s'.open == s.open + [s'.generation])
  {
  }

  /** An edit is the form value from then on, and takes the saved value and the message away. */
  lemma EditMeans(s: State, text: string)
    requires s.alive
    ensures var s' := Step(s, Edit(text));
      && (if s'.value.Some? then s'.value.value else s'.localValue) == text && s'.value.Some? == s.value.Some?
      && s'.saved.None? && !s'.busy && !s'.failed && s'.visible == s.visible && s'.open == s.open
      && s'.generation == s.generation + 1
  {
  }

  /** Pressing the button, getting the secret, and pressing again: the secret is shown in between
      and the field is then as it was. */
  lemma RevealAndHide(s: State, secret: string)
    requires s.alive && !s.disabled && s.canReveal && !s.visible && !s.busy && s.saved.None? && CurrentValue(s) == ""
    ensures var shown := Step(Step(s, Toggle), Resolves(|s.open|, Some(secret)));
      && shown.visible && shown.saved == Some(secret) && CurrentValue(shown) == ""
      && Step(shown, Toggle) == s.(failed := false, generation := s.generation + 2)
  {
    var asked := Step(s, Toggle);
    assert asked.open[..|s.open|] + asked.open[|s.open| + 1..] == s.open;
  }

  /** What overtakes the open reveals: an edit, hiding the field, or unmounting it. */
  predicate Overtakes(e: Event, s: State) {
    s.alive && (e.Edit? || e.Unmount? || (e.Toggle? && s.visible && !s.disabled && !s.busy))
  }

  lemma {:induction false} GenerationGrows(s: State, events: seq<Event>)
    ensures Run(s, events).generation >= s.generation
  {
    if events != [] {
      GenerationGrows(s, events[..|events| - 1]);
      StepGrows(Run(s, events[..|events| - 1]), events[|events| - 1]);
    }
  }

  lemma StepGrows(s: State, e: Event)
    ensures Step(s, e).generation >= s.generation
  {
  }

  /** In every run: once an edit, the hiding or the unmounting of the field has overtaken a
      reveal, its outcome changes nothing but the list of open reveals, whenever it comes. */
  lemma OvertakenRevealChangesNothing(disabled: bool, canReveal: bool, value: Option<string>, initial: string,
                                      before: seq<Event>, hit: Event, k: nat, between: seq<Event>, j: nat,
                                      secret: Option<string>)
    ensures var s := Run(Init(disabled, canReveal, value, initial), before);
      var t := Run(Step(s, hit), between);
      Overtakes(hit, s) && k < |s.open| && j < |t.open| && t.open[j] == s.open[k] ==>
        Step(t, Resolves(j, secret)) == t.(open := t.open[..j] + t.open[j + 1..])
  {
    var s := Run(Init(disabled, canReveal, value, initial), before);
    RunKeeps(disabled, canReveal, value, initial, before);
    GenerationGrows(Step(s, hit), between);
    assert Overtakes(hit, s) ==> Step(s, hit).generation == s.generation + 1;
  }

  // ---------- The code as it runs ----------

  class Field {
    const disabled: bool
    const canReveal: bool
    var alive: bool
    var value: Option<string>
    var localValue: string
    var visible: bool
    var saved: Option<string>
    var busy: bool
    var failed: bool
    var generation: nat
    var open: seq<nat>

    /** The events that have been handled since the start. */
    ghost const start: State
    ghost var history: seq<Event>

    ghost function View(): State
      reads this
    {
      State(alive, disabled, canReveal, value, localValue, visible, saved, busy, failed, generation, open)
    }

    /** The state is that of a run, so that every result about runs holds of the object. */
    ghost predicate Reached()
      reads this
    {
      start == Init(disabled, canReveal, start.value, start.localValue) && View() == Run(start, history)
    }

    lemma Safe()
      requires Reached()
      ensures Inv(View())
    {
      RunKeeps(disabled, canReveal, start.value, start.localValue, history);
    }

    constructor (disabled: bool, canReveal: bool, value: Option<string>, initial: string)
      ensures Reached() && history == [] && View() == Init(disabled, canReveal, value, initial)
      ensures !visible && saved.None? && !busy && !failed && open == []
    {
      start, history := Init(disabled, canReveal, value, initial), [];
      this.disabled, this.canReveal, this.value, localValue := disabled, canReveal, value, initial;
      alive, visible, saved, busy, failed, generation, open := true, false, None, false, false, 0, [];
    }

    method Change(text: string)
      modifies this
      ensures View() == Step(old(View()), Edit(text)) && history == old(history)
    {
      if !alive { return; }
      generation := generation + 1;
      saved := None;
      busy := false;
      failed := false;
      localValue := text;
      if value.Some? { value := Some(text); }
    }

    method ToggleVisibility()
      modifies this
      ensures View() == Step(old(View()), Toggle) && history == old(history)
    {
      if !alive || disabled || busy { return; }
      failed := false;
      if visible {
        generation := generation + 1;
        visible := false;
        saved := None;
        return;
      }
      var current := if value.Some? then value.value else localValue;
      if current != "" || !canReveal { visible := true; return; }
      generation := generation + 1;
      busy := true;
      open := open + [generation];
    }

    /** What follows the await of a reveal, its `finally` included. */
    method RevealSettled(k: nat, secret: Option<string>)
      modifies this
      ensures View() == Step(old(View()), Resolves(k, secret)) && history == old(history)
    {
      if k >= |open| { return; }
      var request := open[k];
      open := open[..k] + open[k + 1..];
      if secret.Some? {
        if generation == request {
          saved := secret;
          visible := true;
        }
      } else if generation == request {
        failed := true;
      }
      if generation == request { busy := false; }
    }

    method Unmounted()
      modifies this
      ensures View() == Step(old(View()), Unmount) && history == old(history)
    {
      if alive {
        alive := false;
        generation := generation + 1;
      }
    }

    /** The event loop: one event after another is handed to its handler. */
    method Handle(e: Event)
      requires Reached()
      modifies this
      ensures Reached() && history == old(history) + [e] && View() == Step(old(View()), e)
    {
      match e {
        case Edit(text) => Change(text);
        case Toggle => ToggleVisibility();
        case Resolves(k, secret) => RevealSettled(k, secret);
        case Unmount => Unmounted();
      }
      RunSnoc(start, history, e);
      history := history + [e];
    }
  }
}
