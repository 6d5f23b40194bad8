/** Guarded resource reads on mobile (src/mobile/MobileApp.tsx): a read may write its result only
    while its sequence number is the newest one and its scope is the one on screen. */
module ResourceReads {
  import opened Text

  datatype Scope = Scope(tab: string, account: Option<int>)

  /** An open read. `onScope` and `changes` are history: whether it began for the scope on
      screen, and how many scope changes there had been. */
  datatype Read = Read(sequence: nat, target: Scope, onScope: bool, changes: nat)

  datatype Applied = Applied(read: Read, changes: nat)

  datatype State = State(sequence: nat, scope: Scope, effectPending: bool, changes: nat,
                         open: seq<Read>, applied: seq<Applied>)

  datatype Event =
    | Render(scope: Scope)
    | FlushEffect
    | Begin(target: Scope)
    | Complete(read: nat)

  predicate Current(s: State, r: Read) { r.sequence == s.sequence && s.scope == r.target }

  function Removed(open: seq<Read>, k: nat): seq<Read>
    requires k < |open|
  {
    open[..k] + open[k + 1..]
  }

  /** One step. A render writes the scope at once, the effect that bumps the sequence number
      follows later, and React runs it before the next render. */
  function Step(s: State, e: Event): State {
    match e
    case Render(scope) =>
      if s.effectPending then s
      else s.(scope := scope, effectPending := scope != s.scope,
              changes := if scope != s.scope then s.changes + 1 else s.changes)
    case FlushEffect => if s.effectPending then s.(sequence := s.sequence + 1, effectPending := false) else s
    case Begin(target) =>
      s.(sequence := s.sequence + 1,
         open := s.open + [Read(s.sequence + 1, target, target == s.scope, s.changes)])
    case Complete(k) =>
      if k >= |s.open| then s
      else s.(open := Removed(s.open, k),
              applied := if Current(s, s.open[k]) then s.applied + [Applied(s.open[k], s.changes)] else s.applied)
  }

  function Init(scope: Scope): State { State(0, scope, true, 0, [], []) }

  function Run(s: State, events: seq<Event>): State {
    if events == [] then s else Step(Run(s, events[..|events| - 1]), events[|events| - 1])
  }

  lemma RunSnoc(s: State, events: seq<Event>, e: Event)
    ensures Run(s, events + [e]) == Step(Run(s, events), e)
  {
    assert (events + [e])[..|events|] == events;
  }

  // ---------- The invariant of every run ----------

  /** What an open read with the newest number knows about the scope. */
  predicate NewestKept(s: State, r: Read) {
    r.sequence == s.sequence ==>
      if s.changes == r.changes then s.scope == r.target <==> r.onScope
      else s.changes == r.changes + 1 && s.effectPending && (r.onScope ==> s.scope != r.target)
  }

  predicate OpenKept(s: State) {
    && (forall k | 0 <= k < |s.open| :: s.open[k].sequence <= s.sequence && NewestKept(s, s.open[k]))
    && (forall i, j | 0 <= i < j < |s.open| :: s.open[i].sequence != s.open[j].sequence)
  }

  predicate AppliedKept(s: State) {
    && (forall k | 0 <= k < |s.applied| :: s.applied[k].read.sequence <= s.sequence)
    && (forall i, j | 0 <= i < j < |s.applied| :: s.applied[i].read.sequence < s.applied[j].read.sequence)
    && (forall k | 0 <= k < |s.applied| ::
          s.applied[k].changes == s.applied[k].read.changes + (if s.applied[k].read.onScope then 0 else 1))
    && (forall i, k | 0 <= i < |s.applied| && 0 <= k < |s.open| ::
          s.applied[i].read.sequence != s.open[k].sequence)
  }

  predicate Inv(s: State) { OpenKept(s) && AppliedKept(s) }

  lemma CompleteKeeps(s: State, k: nat)
    requires Inv(s) && k < |s.open|
    ensures Inv(Step(s, Complete(k)))
  {
    var s' := Step(s, Complete(k));
    forall i | 0 <= i < |s'.open|
      ensures s'.open[i] == s.open[if i < k then i else i + 1] && NewestKept(s', s'.open[i])
    {
      assert NewestKept(s, s.open[if i < k then i else i + 1]);
    }
    if Current(s, s.open[k]) {
      assert NewestKept(s, s.open[k]);
      forall i | 0 <= i < |s.applied|
        ensures s.applied[i].read.sequence < s.open[k].sequence
      {
        assert s.applied[i].read.sequence != s.open[k].sequence;
      }
    }
  }

  lemma StepKeeps(s: State, e: Event)
    requires Inv(s)
    ensures Inv(Step(s, e))
  {
    var s' := Step(s, e);
    if e.Complete? {
      if e.read < |s.open| { CompleteKeeps(s, e.read); }
    } else {
      forall k | 0 <= k < |s.open|
        ensures NewestKept(s', s.open[k])
      {
        assert NewestKept(s, s.open[k]);
      }
    }
  }

  // ---------- Main results ----------

  lemma {:induction false} RunKeeps(scope: Scope, events: seq<Event>)
    ensures Inv(Run(Init(scope), events))
  {
    if events != [] {
      RunKeeps(scope, events[..|events| - 1]);
      StepKeeps(Run(Init(scope), events[..|events| - 1]), events[|events| - 1]);
    }
  }

  /** Latest wins: at most one open read is current, and applied numbers strictly increase. */
  lemma LatestWins(scope: Scope, events: seq<Event>)
    ensures var s := Run(Init(scope), events);
      && (forall i, j | 0 <= i < j < |s.open| :: !(Current(s, s.open[i]) && Current(s, s.open[j])))
      && (forall i, j | 0 <= i < j < |s.applied| :: s.applied[i].read.sequence < s.applied[j].read.sequence)
  {
    RunKeeps(scope, events);
  }

  /** In every run, a read that is applied was begun before a scope change exactly when it was
      begun for a scope other than the one on screen; a read begun for the scope on screen is
      never applied after a change of scope, even when the scope has come back. */
  lemma StaleOnlyIfBegunElsewhere(scope: Scope, events: seq<Event>, k: nat)
    ensures var s := Run(Init(scope), events);
      k < |s.applied| ==>
        (s.applied[k].changes > s.applied[k].read.changes <==> !s.applied[k].read.onScope)
  {
    RunKeeps(scope, events);
  }

  /** A read begun elsewhere does get through: the screen changes to its scope, and it completes
      before the effect of that render has run. */
  lemma BegunElsewhereApplies(first: Scope, second: Scope)
    requires first != second
    ensures var s := Run(Init(first), [FlushEffect, Begin(second), Render(second), Complete(0)]);
      |s.applied| == 1 && s.applied[0].changes > s.applied[0].read.changes
  {
    var all := [FlushEffect, Begin(second), Render(second), Complete(0)];
    assert all[..3] == [FlushEffect, Begin(second), Render(second)];
    assert all[..3][..2] == [FlushEffect, Begin(second)] && all[..3][..2][..1] == [FlushEffect];
    var s1 := Step(Init(first), FlushEffect);
    assert [FlushEffect][..0] == [] && Run(Init(first), [FlushEffect]) == s1;
    var s2 := Step(s1, Begin(second));
    assert Run(Init(first), all[..3][..2]) == s2;
    var s3 := Step(s2, Render(second));
    assert Run(Init(first), all[..3]) == s3;
  }

  // ---------- What each event does ----------

  /** A read that completes is written if and only if its number is the newest one and the screen
      shows its tab and its account; and it is over either way. */
  lemma AppliedIff(s: State, k: nat)
    requires k < |s.open|
    ensures var s', r := Step(s, Complete(k)), s.open[k];
      && s'.open == s.open[..k] + s.open[k + 1..]
      && s'.applied == (if r.sequence == s.sequence && r.target.tab == s.scope.tab
                           && r.target.account == s.scope.account
                        then s.applied + [Applied(r, s.changes)] else s.applied)
      && s'.sequence == s.sequence && s'.scope == s.scope && s'.effectPending == s.effectPending
  {
  }

  /** The number counts the reads begun and the effects run; the scope is that of the last render,
      and an effect is due after a render that changed it. */
  lemma GuardMoves(s: State, e: Event)
    ensures var s' := Step(s, e);
      && s'.sequence == s.sequence + (if e.Begin? || (e.FlushEffect? && s.effectPending) then 1 else 0)
      && s'.scope == (if e.Render? && !s.effectPending then e.scope else s.scope)
      && s'.effectPending == (if e.FlushEffect? then false else s.effectPending || s'.scope != s.scope)
      && (e.Begin? ==>
            && |s'.open| == |s.open| + 1 && s'.open[..|s.open|] == s.open
            && s'.open[|s.open|].sequence == s'.sequence && s'.open[|s.open|].target == e.target)
      && (!e.Complete? ==> s'.applied == s.applied) && (!e.Complete? && !e.Begin? ==> s'.open == s.open)
  {
  }

  /** Nothing that moves the guard: no other read, no change of scope, and no effect that is due. */
  predicate Quiet(e: Event, s: State) {
    match e
    case Begin(_) => false
    case Render(scope) => scope == s.scope
    case FlushEffect => !s.effectPending
    case Complete(_) => true
  }

  /** The read has been written, or it is still open and may be written. */
  predicate Gets(s: State, r: Read) {
    && (r in s.open || exists a | a in s.applied :: a.read == r)
    && r.sequence == s.sequence && r.target == s.scope
  }

  lemma GetsOn(s: State, r: Read, k: nat)
    requires Gets(s, r)
    ensures Gets(Step(s, Complete(k)), r)
  {
    var s' := Step(s, Complete(k));
    if k < |s.open| {
      assert forall a | a in s.applied :: a in s'.applied;
      if s.open[k] == r {
        assert Applied(r, s.changes) in s'.applied;
      } else if r in s.open {
        assert s.open == s.open[..k] + [s.open[k]] + s.open[k + 1..];
        assert r in s'.open;
      }
    }
  }

  lemma {:induction false} QuietRun(s: State, r: Read, events: seq<Event>)
    requires Gets(s, r) && forall e | e in events :: Quiet(e, s)
    ensures var t := Run(s, events); Gets(t, r) && t.scope == s.scope && t.effectPending == s.effectPending
  {
    if events != [] {
      var before, e := events[..|events| - 1], events[|events| - 1];
      assert e in events && forall x | x in before :: x in events;
      QuietRun(s, r, before);
      if e.Complete? { GetsOn(Run(s, before), r, e.read); }
    }
  }

  /** A read begun for the scope on screen is written when it comes back, unless another read is
      begun, the scope changes or a due effect runs in between: until then it is open, and its
      completion writes it. */
  lemma UndisturbedReadIsWritten(s: State, target: Scope, events: seq<Event>)
    requires target == s.scope && forall e | e in events :: Quiet(e, s)
    ensures var s1 := Step(s, Begin(target));
      var r, t := s1.open[|s.open|], Run(s1, events);
      && (r in t.open || exists a | a in t.applied :: a.read == r)
      && forall k | 0 <= k < |t.open| && t.open[k] == r ::
           exists a | a in Step(t, Complete(k)).applied :: a.read == r
  {
    var s1 := Step(s, Begin(target));
    var r := s1.open[|s.open|];
    forall e | e in events
      ensures Quiet(e, s1)
    {
    }
    QuietRun(s1, r, events);
    var t := Run(s1, events);
    forall k | 0 <= k < |t.open| && t.open[k] == r
      ensures exists a | a in Step(t, Complete(k)).applied :: a.read == r
    {
      assert Applied(r, t.changes) in Step(t, Complete(k)).applied;
    }
  }

  // ---------- The code as it runs ----------

  class ReadGuard {
    var sequence: nat
    var scope: Scope
    var effectPending: bool
    var changes: nat
    var open: seq<Read>
    var applied: seq<Applied>

    /** The events that have been handled since the start. */
    ghost const start: State
    ghost var history: seq<Event>

    ghost function View(): State
      reads this
    {
      State(sequence, scope, effectPending, changes, open, applied)
    }

    /** The state is that of a run, so that every result about runs holds of the object. */
    ghost predicate Reached()
      reads this
    {
      start == Init(start.scope) && View() == Run(start, history)
    }

    lemma Safe()
      requires Reached()
      ensures Inv(View())
    {
      RunKeeps(start.scope, history);
    }

    constructor (scope: Scope)
      ensures Reached() && history == [] && View() == Init(scope)
      ensures this.scope == scope && effectPending && open == [] && applied == []
    {
      start, history := Init(scope), [];
      sequence, this.scope, effectPending, changes, open, applied := 0, scope, true, 0, [], [];
    }

    method Rendered(next: Scope)
      modifies this
      ensures View() == Step(old(View()), Render(next)) && history == old(history)
    {
      if effectPending { return; }
      if next != scope {
        effectPending := true;
        changes := changes + 1;
      }
      scope := next;
    }

    method EffectRan()
      modifies this
      ensures View() == Step(old(View()), FlushEffect) && history == old(history)
    {
      if !effectPending { return; }
      sequence := sequence + 1;
      effectPending := false;
    }

    method BeginResourceRead(target: Scope)
      modifies this
      ensures View() == Step(old(View()), Begin(target)) && history == old(history)
    {
      sequence := sequence + 1;
      open := open + [Read(sequence, target, target == scope, changes)];
    }

    method ReadCompleted(k: nat)
      modifies this
      ensures View() == Step(old(View()), Complete(k)) && history == old(history)
    {
      if k >= |open| { return; }
      var read := open[k];
      open := Removed(open, k);
      if read.sequence == sequence && scope.tab == read.target.tab && scope.account == read.target.account {
        applied := applied + [Applied(read, changes)];
      }
    }

    /** The event loop: one event after another is handed to its handler. */
    method Handle(e: Event)
      requires Reached()
      modifies this
      ensures Reached() && history == old(history) + [e] && View() == Step(old(View()), e)
    {
      match e {
        case Render(next) => Rendered(next);
        case FlushEffect => EffectRan();
        case Begin(target) => BeginResourceRead(target);
        case Complete(k) => ReadCompleted(k);
      }
      RunSnoc(start, history, e);
      history := history + [e];
    }
  }
}
