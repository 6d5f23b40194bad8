/** The cancellable fetch with retries (src-tauri/src/lib.rs). Time is counted in milliseconds;
    the cancel flag is never cleared, so it is given by the moment it is set, if ever. */
module Retry {
  import opened Text

  // ---------- Which answers are fetched again ----------

  const PARTIAL_REGIONS := "部分地域未完成"
  const TRANSIENT_WORDS := ["超时", "网络", "连接", "请求失败", "timeout", "network",
                            "connection", "429", "502", "503", "504"]

  datatype Response = Response(items: seq<string>, errors: seq<string>)

  predicate Transient(error: string) {
    exists word | word in TRANSIENT_WORDS :: Occurs(Lower(error), word)
  }

  predicate Retryable(errors: seq<string>) {
    && errors != []
    && !(exists error | error in errors :: Occurs(error, PARTIAL_REGIONS))
    && forall error | error in errors :: Transient(error)
  }

  predicate NeedsRetry(response: Response) {
    response.items == [] && response.errors != [] && Retryable(response.errors)
  }

  // ---------- One request under cancellation ----------

  const TICK: nat := 100

  /** One request: how long it takes to answer (`None`: it never does), its answer, and whether a
      timer that fires in the same millisecond as the answer is served first. */
  datatype Attempt = Attempt(latency: Option<nat>, response: Response, tickFirst: bool)

  datatype Result = Fetched(response: Response) | Cancelled

  datatype Once = Once(result: Result, end: nat, polled: bool)

  predicate IsCancelled(cancelAt: Option<nat>, now: nat) { cancelAt.Some? && cancelAt.value <= now }

  /** A request that never answers ends only by cancellation. */
  predicate Ends(a: Attempt, cancelAt: Option<nat>) { a.latency.Some? || cancelAt.Some? }

  /** The first timer of a request begun at `start` that finds the flag set. */
  function NoticedAt(start: nat, cancelAt: nat): (tick: nat)
    ensures tick >= start + TICK && tick >= cancelAt
    ensures tick == start + TICK || tick < cancelAt + TICK
    decreases cancelAt - start
  {
    if cancelAt <= start + TICK then start + TICK else NoticedAt(start + TICK, cancelAt)
  }

  /** Whether an answer at `end` is served before a timer at `tick`. */
  predicate ServedBefore(end: nat, tick: nat, tickFirst: bool) { end < tick || (end == tick && !tickFirst) }

  predicate Answers(a: Attempt, start: nat, cancelAt: Option<nat>) {
    a.latency.Some? && (cancelAt.Some? ==>
      ServedBefore(start + a.latency.value, NoticedAt(start, cancelAt.value), a.tickFirst))
  }

  /** What the polling loop amounts to, without the loop. */
  function FetchOnce(a: Attempt, start: nat, cancelAt: Option<nat>): Once
    requires Ends(a, cancelAt)
  {
    if IsCancelled(cancelAt, start) then Once(Cancelled, start, false)
    else if Answers(a, start, cancelAt) then Once(Fetched(a.response), start + a.latency.value, true)
    else Once(Cancelled, NoticedAt(start, cancelAt.value), true)
  }

  method FetchOnceWithCancellation(a: Attempt, start: nat, cancelAt: Option<nat>) returns (once: Once)
    requires Ends(a, cancelAt)
    ensures once == FetchOnce(a, start, cancelAt)
  {
    if IsCancelled(cancelAt, start) { return Once(Cancelled, start, false); }
    var now := start;
    while true
      invariant start <= now && !IsCancelled(cancelAt, now)
      invariant cancelAt.Some? ==> NoticedAt(start, cancelAt.value) == NoticedAt(now, cancelAt.value)
      invariant a.latency.Some? ==> start + a.latency.value >= now
      invariant a.latency.Some? && start + a.latency.value == now > start ==> a.tickFirst
      decreases (if a.latency.Some? then start + a.latency.value else cancelAt.value) + TICK - now
    {
      if a.latency.Some? && ServedBefore(start + a.latency.value, now + TICK, a.tickFirst) {
        return Once(Fetched(a.response), start + a.latency.value, true);
      }
      now := now + TICK;
      if IsCancelled(cancelAt, now) { return Once(Cancelled, now, true); }
    }
  }

  // ---------- The retry loop ----------

  const DELAYS: seq<nat> := [250, 750]

  /** The outcome, when it was reached, and when each request was first polled. */
  datatype Run = Run(result: Result, end: nat, starts: seq<nat>)

  predicate AllEnd(attempts: seq<Attempt>, cancelAt: Option<nat>) {
    |attempts| == |DELAYS| + 1 && forall k | 0 <= k < |attempts| :: Ends(attempts[k], cancelAt)
  }

  function After(starts: seq<nat>, rest: Run): Run { Run(rest.result, rest.end, starts + rest.starts) }

  /** What comes of one request: the run ends, or the next request is due. */
  datatype Round = Stop(result: Result, end: nat, polled: bool) | Again(at: nat)

  function AfterAnswer(again: Response -> bool, response: Response, pause: Option<nat>, now: nat, cancelAt: Option<nat>)
    : (r: Round)
    ensures r.Again? ==> pause.Some?
  {
    if pause.Some? && !again(response) then Stop(Fetched(response), now, true)
    else if IsCancelled(cancelAt, now) then Stop(Cancelled, now, true)
    else if pause.Some? then Again(now + pause.value)
    else Stop(Fetched(response), now, true)
  }

  function RoundOf(again: Response -> bool, a: Attempt, pause: Option<nat>, now: nat, cancelAt: Option<nat>): (r: Round)
    requires Ends(a, cancelAt)
    ensures r.Again? ==> pause.Some?
  {
    var once := FetchOnce(a, now, cancelAt);
    if once.result.Cancelled? then Stop(Cancelled, once.end, once.polled)
    else AfterAnswer(again, once.result.response, pause, once.end, cancelAt)
  }

  function Pause(k: nat): (pause: Option<nat>)
    ensures pause.Some? <==> k < |DELAYS|
  {
    if k < |DELAYS| then Some(DELAYS[k]) else None
  }

  /** The run from just before request `k`. */
  function From(again: Response -> bool, attempts: seq<Attempt>, k: nat, now: nat, cancelAt: Option<nat>): Run
    requires AllEnd(attempts, cancelAt) && k <= |DELAYS|
    decreases |DELAYS| - k
  {
    var round := RoundOf(again, attempts[k], Pause(k), now, cancelAt);
    if round.Stop? then Run(round.result, round.end, if round.polled then [now] else [])
    else After([now], From(again, attempts, k + 1, round.at, cancelAt))
  }

  function Step(again: Response -> bool, attempts: seq<Attempt>, k: nat, now: nat, cancelAt: Option<nat>): Round
    requires AllEnd(attempts, cancelAt) && k <= |DELAYS|
  {
    RoundOf(again, attempts[k], Pause(k), now, cancelAt)
  }

  /** The same run with the requests polled so far collected on the way. */
  function Continued(again: Response -> bool, attempts: seq<Attempt>, k: nat, now: nat, cancelAt: Option<nat>,
                     starts: seq<nat>): Run
    requires AllEnd(attempts, cancelAt) && k <= |DELAYS|
    decreases |DELAYS| - k
  {
    var round := Step(again, attempts, k, now, cancelAt);
    if round.Stop? then Run(round.result, round.end, if round.polled then starts + [now] else starts)
    else Continued(again, attempts, k + 1, round.at, cancelAt, starts + [now])
  }

  lemma {:induction false} ContinuedIsRun(again: Response -> bool, attempts: seq<Attempt>, k: nat, now: nat,
                                          cancelAt: Option<nat>, starts: seq<nat>)
    requires AllEnd(attempts, cancelAt) && k <= |DELAYS|
    ensures Continued(again, attempts, k, now, cancelAt, starts)
         == After(starts, From(again, attempts, k, now, cancelAt))
    decreases |DELAYS| - k
  {
    var round := Step(again, attempts, k, now, cancelAt);
    if round.Again? {
      var rest := From(again, attempts, k + 1, round.at, cancelAt);
      ContinuedIsRun(again, attempts, k + 1, round.at, cancelAt, starts + [now]);
      assert starts + ([now] + rest.starts) == starts + [now] + rest.starts;
    } else {
      assert starts + [] == starts;
    }
  }

  /** What follows an answer: the run ends, or the next request is due after a pause. */
  method NextRound(response: Response, pause: Option<nat>, now: nat, cancelAt: Option<nat>) returns (round: Round)
    ensures round == AfterAnswer(NeedsRetry, response, pause, now, cancelAt)
  {
    if pause.Some? && (response.items != [] || response.errors == [] || !Retryable(response.errors)) {
      return Stop(Fetched(response), now, true);
    }
    if IsCancelled(cancelAt, now) { return Stop(Cancelled, now, true); }
    if pause.Some? { return Again(now + pause.value); }
    return Stop(Fetched(response), now, true);
  }

  /** The loop, as it collects the requests on the way. */
  method FetchRounds(attempts: seq<Attempt>, start: nat, cancelAt: Option<nat>) returns (run: Run)
    requires AllEnd(attempts, cancelAt)
    ensures run == Continued(NeedsRetry, attempts, 0, start, cancelAt, [])
  {
    var once := FetchOnceWithCancellation(attempts[0], start, cancelAt);
    var now, starts := start, [];
    for k := 0 to |DELAYS|
      invariant once == FetchOnce(attempts[k], now, cancelAt)
      invariant Continued(NeedsRetry, attempts, 0, start, cancelAt, []) ==
                Continued(NeedsRetry, attempts, k, now, cancelAt, starts)
    {
      var started := starts + [now];
      if once.result.Cancelled? { return Run(Cancelled, once.end, if once.polled then started else starts); }
      var round := NextRound(once.result.response, Some(DELAYS[k]), once.end, cancelAt);
      if round.Stop? { return Run(round.result, round.end, started); }
      now, starts := round.at, started;
      once := FetchOnceWithCancellation(attempts[k + 1], now, cancelAt);
    }
    var started := starts + [now];
    if once.result.Cancelled? { return Run(Cancelled, once.end, if once.polled then started else starts); }
    var round := NextRound(once.result.response, None, once.end, cancelAt);
    return Run(round.result, round.end, started);
  }

  // ---------- Main results ----------

  /** Request `k + j` was polled after request `k + j - 1` came back empty with transient errors
      only, and after the full pause. */
  predicate Repeats(again: Response -> bool, attempts: seq<Attempt>, k: nat, starts: seq<nat>, j: nat)
    requires |attempts| == |DELAYS| + 1 && 0 < j < |starts| && k + |starts| <= |attempts|
  {
    var before := attempts[k + j - 1];
    && again(before.response) && before.latency.Some?
    && starts[j] == starts[j - 1] + before.latency.value + DELAYS[k + j - 1]
  }

  predicate StartsJustified(again: Response -> bool, attempts: seq<Attempt>, k: nat, cancelAt: Option<nat>,
                            starts: seq<nat>)
    requires |attempts| == |DELAYS| + 1
  {
    && k + |starts| <= |attempts|
    && (forall j | 0 <= j < |starts| :: !IsCancelled(cancelAt, starts[j]))
    && (forall j | 0 < j < |starts| :: Repeats(again, attempts, k, starts, j))
  }

  function Later(attempts: seq<Attempt>, k: nat, now: nat): nat
    requires |attempts| == |DELAYS| + 1 && k < |DELAYS| && attempts[k].latency.Some?
  {
    now + attempts[k].latency.value + DELAYS[k]
  }

  lemma GoesOnAfter(again: Response -> bool, attempts: seq<Attempt>, k: nat, now: nat, cancelAt: Option<nat>)
    requires AllEnd(attempts, cancelAt) && k <= |DELAYS|
    requires Step(again, attempts, k, now, cancelAt).Again?
    ensures k < |DELAYS| && attempts[k].latency.Some? && again(attempts[k].response) && !IsCancelled(cancelAt, now)
    ensures Step(again, attempts, k, now, cancelAt).at == Later(attempts, k, now)
  {
  }

  lemma JustifiedFirst(again: Response -> bool, attempts: seq<Attempt>, k: nat, now: nat, cancelAt: Option<nat>,
                       rest: seq<nat>)
    requires |attempts| == |DELAYS| + 1 && k < |DELAYS| && attempts[k].latency.Some?
    requires !IsCancelled(cancelAt, now) && again(attempts[k].response)
    requires StartsJustified(again, attempts, k + 1, cancelAt, rest)
    requires rest != [] ==> rest[0] == Later(attempts, k, now)
    ensures StartsJustified(again, attempts, k, cancelAt, [now] + rest)
  {
    var starts := [now] + rest;
    forall j | 0 < j < |starts|
      ensures Repeats(again, attempts, k, starts, j)
    {
      assert starts[j] == rest[j - 1];
      if j > 1 {
        assert Repeats(again, attempts, k + 1, rest, j - 1);
      }
    }
  }

  /** Never more than three requests, none begun under a set flag, each later one justified. */
  lemma {:induction false} RequestsJustified(again: Response -> bool, attempts: seq<Attempt>, k: nat, now: nat,
                                             cancelAt: Option<nat>)
    requires AllEnd(attempts, cancelAt) && k <= |DELAYS|
    ensures var starts := From(again, attempts, k, now, cancelAt).starts;
      StartsJustified(again, attempts, k, cancelAt, starts) && (starts != [] ==> starts[0] == now)
    decreases |DELAYS| - k
  {
    if Step(again, attempts, k, now, cancelAt).Again? {
      var later := Later(attempts, k, now);
      GoesOnAfter(again, attempts, k, now, cancelAt);
      RequestsJustified(again, attempts, k + 1, later, cancelAt);
      JustifiedFirst(again, attempts, k, now, cancelAt, From(again, attempts, k + 1, later, cancelAt).starts);
    }
  }

  /** What an answered run must look like. */
  predicate EndsWithAnswer(again: Response -> bool, attempts: seq<Attempt>, k: nat, run: Run)
    requires |attempts| == |DELAYS| + 1
  {
    && 0 < |run.starts| <= |attempts| - k
    && var last := attempts[k + |run.starts| - 1];
       && run.result == Fetched(last.response)
       && last.latency.Some? && run.end == run.starts[|run.starts| - 1] + last.latency.value
       && (k + |run.starts| < |attempts| ==> !again(last.response))
  }

  lemma AnsweredFirst(again: Response -> bool, attempts: seq<Attempt>, k: nat, now: nat, rest: Run)
    requires |attempts| == |DELAYS| + 1 && k < |DELAYS|
    requires EndsWithAnswer(again, attempts, k + 1, rest)
    ensures EndsWithAnswer(again, attempts, k, After([now], rest))
  {
    var run := After([now], rest);
    assert run.starts[|run.starts| - 1] == rest.starts[|rest.starts| - 1];
  }

  /** An answer that is returned is the answer of the last request polled, and it is final. */
  lemma {:induction false} ResultIsLastAnswer(again: Response -> bool, attempts: seq<Attempt>, k: nat, now: nat,
                                              cancelAt: Option<nat>)
    requires AllEnd(attempts, cancelAt) && k <= |DELAYS|
    requires From(again, attempts, k, now, cancelAt).result.Fetched?
    ensures EndsWithAnswer(again, attempts, k, From(again, attempts, k, now, cancelAt))
    decreases |DELAYS| - k
  {
    if Step(again, attempts, k, now, cancelAt).Again? {
      var later := Later(attempts, k, now);
      GoesOnAfter(again, attempts, k, now, cancelAt);
      ResultIsLastAnswer(again, attempts, k + 1, later, cancelAt);
      AnsweredFirst(again, attempts, k, now, From(again, attempts, k + 1, later, cancelAt));
    }
  }

  /** The request whose answer settles a run that nobody cancels: the first one not to be repeated,
      or the last one. */
  function Settled(again: Response -> bool, attempts: seq<Attempt>, k: nat): (j: nat)
    requires |attempts| == |DELAYS| + 1 && k <= |DELAYS|
    ensures k <= j <= |DELAYS|
    decreases |DELAYS| - k
  {
    if k < |DELAYS| && again(attempts[k].response) then Settled(again, attempts, k + 1) else k
  }

  lemma {:induction false} UncancelledRunSettles(again: Response -> bool, attempts: seq<Attempt>, k: nat, now: nat)
    requires AllEnd(attempts, None) && k <= |DELAYS|
    ensures var run := From(again, attempts, k, now, None);
      && run.result == Fetched(attempts[Settled(again, attempts, k)].response)
      && |run.starts| == Settled(again, attempts, k) - k + 1
    decreases |DELAYS| - k
  {
    if k < |DELAYS| && again(attempts[k].response) {
      UncancelledRunSettles(again, attempts, k + 1, now + attempts[k].latency.value + DELAYS[k]);
    }
  }

  /** The last moment at which the uncancelled run looks at the flag; `None` if it looks for ever. */
  function LastLook(again: Response -> bool, attempts: seq<Attempt>, k: nat, now: nat): (look: Option<nat>)
    requires |attempts| == |DELAYS| + 1 && k <= |DELAYS|
    ensures look.Some? ==> look.value >= now
    decreases |DELAYS| - k
  {
    var a := attempts[k];
    if a.latency.None? then None
    else if k == |DELAYS| then Some(now + a.latency.value)
    else if again(a.response) then LastLook(again, attempts, k + 1, now + a.latency.value + DELAYS[k])
    else Some(LastTick(now, now + a.latency.value, a.tickFirst))
  }

  /** The last timer served before an answer at `end`, or the start if there is none. */
  function LastTick(start: nat, end: nat, tickFirst: bool): (tick: nat)
    requires start <= end
    ensures start <= tick <= end
    decreases end - start
  {
    if ServedBefore(end, start + TICK, tickFirst) then start else LastTick(start + TICK, end, tickFirst)
  }

  lemma {:induction false} NoticedUnlessServed(start: nat, end: nat, tickFirst: bool, cancelAt: nat)
    requires start <= end && start < cancelAt
    ensures ServedBefore(end, NoticedAt(start, cancelAt), tickFirst) <==> LastTick(start, end, tickFirst) < cancelAt
    decreases end - start
  {
    if cancelAt > start + TICK && !ServedBefore(end, start + TICK, tickFirst) {
      NoticedUnlessServed(start + TICK, end, tickFirst, cancelAt);
    }
  }

  /** The last look of the uncancelled run if request `k` were its last one. */
  function RoundLook(again: Response -> bool, a: Attempt, pause: Option<nat>, now: nat): Option<nat> {
    if a.latency.None? then None
    else if pause.None? || again(a.response) then Some(now + a.latency.value)
    else Some(LastTick(now, now + a.latency.value, a.tickFirst))
  }

  predicate SeenBy(cancelAt: Option<nat>, look: Option<nat>) {
    cancelAt.Some? && (look.None? || cancelAt.value <= look.value)
  }

  lemma StepSeenIff(again: Response -> bool, a: Attempt, pause: Option<nat>, now: nat, cancelAt: Option<nat>)
    requires Ends(a, cancelAt)
    ensures var round := RoundOf(again, a, pause, now, cancelAt);
      (round.Stop? && round.result.Cancelled?) <==> SeenBy(cancelAt, RoundLook(again, a, pause, now))
  {
    if !IsCancelled(cancelAt, now) && a.latency.Some? && cancelAt.Some? {
      NoticedUnlessServed(now, now + a.latency.value, a.tickFirst, cancelAt.value);
    }
  }

  /** The last look of the run is the last look of its last request. */
  lemma LookOfStop(again: Response -> bool, attempts: seq<Attempt>, k: nat, now: nat, cancelAt: Option<nat>)
    requires AllEnd(attempts, cancelAt) && k <= |DELAYS| && Step(again, attempts, k, now, cancelAt).Stop?
    ensures SeenBy(cancelAt, LastLook(again, attempts, k, now))
       <==> SeenBy(cancelAt, RoundLook(again, attempts[k], Pause(k), now))
  {
  }

  lemma LookGoesOn(again: Response -> bool, attempts: seq<Attempt>, k: nat, now: nat, cancelAt: Option<nat>)
    requires AllEnd(attempts, cancelAt) && k <= |DELAYS| && Step(again, attempts, k, now, cancelAt).Again?
    ensures k < |DELAYS| && attempts[k].latency.Some?
    ensures LastLook(again, attempts, k, now) == LastLook(again, attempts, k + 1, Later(attempts, k, now))
    ensures From(again, attempts, k, now, cancelAt).result
         == From(again, attempts, k + 1, Later(attempts, k, now), cancelAt).result
  {
    GoesOnAfter(again, attempts, k, now, cancelAt);
  }

  /** A run is cancelled exactly when the flag is set by the time of its last look. */
  lemma {:induction false} CancelledIff(again: Response -> bool, attempts: seq<Attempt>, k: nat, now: nat,
                                        cancelAt: Option<nat>)
    requires AllEnd(attempts, cancelAt) && k <= |DELAYS|
    ensures From(again, attempts, k, now, cancelAt).result.Cancelled? <==>
      SeenBy(cancelAt, LastLook(again, attempts, k, now))
    decreases |DELAYS| - k
  {
    if Step(again, attempts, k, now, cancelAt).Again? {
      LookGoesOn(again, attempts, k, now, cancelAt);
      CancelledIff(again, attempts, k + 1, Later(attempts, k, now), cancelAt);
    } else {
      StepSeenIff(again, attempts[k], Pause(k), now, cancelAt);
      LookOfStop(again, attempts, k, now, cancelAt);
    }
  }

  /** A cancelled run ends less than the longest pause after the flag was set, or at once. */
  lemma {:induction false} CancelledSoon(again: Response -> bool, attempts: seq<Attempt>, k: nat, now: nat,
                                         cancelAt: Option<nat>)
    requires AllEnd(attempts, cancelAt) && k <= |DELAYS|
    requires From(again, attempts, k, now, cancelAt).result.Cancelled?
    ensures var end := From(again, attempts, k, now, cancelAt).end;
      && cancelAt.Some? && cancelAt.value <= end
      && if cancelAt.value <= now then end == now else end < cancelAt.value + 750
    decreases |DELAYS| - k
  {
    if Step(again, attempts, k, now, cancelAt).Again? {
      GoesOnAfter(again, attempts, k, now, cancelAt);
      CancelledSoon(again, attempts, k + 1, Later(attempts, k, now), cancelAt);
    }
  }

  /** A request in flight when the flag is set is given up within one timer period. */
  lemma RequestGivenUp(a: Attempt, start: nat, cancelAt: nat)
    requires cancelAt > start
    ensures FetchOnce(a, start, Some(cancelAt)).end < cancelAt + 100
  {
  }

  /** The flag is noticed at the first of the moments 100, 200, 300 ... milliseconds after the
      start at which it is set. */
  lemma {:induction false} NoticedIsFirstTick(start: nat, cancelAt: nat)
    ensures var tick := NoticedAt(start, cancelAt);
      && tick > start && tick >= cancelAt && (tick - start) % 100 == 0
      && (tick - 100 == start || tick - 100 < cancelAt)
    decreases cancelAt - start
  {
    if cancelAt > start + TICK { NoticedIsFirstTick(start + TICK, cancelAt); }
  }

  // ---------- What a run does, in terms of the answers ----------

  /** An error that a later request may not meet again. */
  predicate Passing(error: string) {
    var text := Lower(error);
    && !Occurs(error, "部分地域未完成")
    && (|| Occurs(text, "超时") || Occurs(text, "网络") || Occurs(text, "连接") || Occurs(text, "请求失败")
        || Occurs(text, "timeout") || Occurs(text, "network") || Occurs(text, "connection")
        || Occurs(text, "429") || Occurs(text, "502") || Occurs(text, "503") || Occurs(text, "504"))
  }

  /** Nothing but passing errors: no item, and at least one error. */
  predicate OnlyPassing(response: Response) {
    response.items == [] && response.errors != [] && forall error | error in response.errors :: Passing(error)
  }

  lemma TransientIff(error: string)
    ensures Transient(error) && !Occurs(error, PARTIAL_REGIONS) <==> Passing(error)
  {
    var text := Lower(error);
    if word :| word in TRANSIENT_WORDS && Occurs(text, word) {
      WordIsOneOf(word);
    }
    AllWords();
  }

  lemma WordIsOneOf(word: string)
    requires word in TRANSIENT_WORDS
    ensures word == "超时" || word == "网络" || word == "连接" || word == "请求失败" || word == "timeout" || word == "network"
      || word == "connection" || word == "429" || word == "502" || word == "503" || word == "504"
  {
  }

  lemma AllWords()
    ensures "超时" in TRANSIENT_WORDS && "网络" in TRANSIENT_WORDS && "连接" in TRANSIENT_WORDS
    ensures "请求失败" in TRANSIENT_WORDS && "timeout" in TRANSIENT_WORDS && "network" in TRANSIENT_WORDS
    ensures "connection" in TRANSIENT_WORDS && "429" in TRANSIENT_WORDS && "502" in TRANSIENT_WORDS
    ensures "503" in TRANSIENT_WORDS && "504" in TRANSIENT_WORDS
  {
    assert TRANSIENT_WORDS[0] == "超时" && TRANSIENT_WORDS[1] == "网络" && TRANSIENT_WORDS[2] == "连接";
    assert TRANSIENT_WORDS[3] == "请求失败" && TRANSIENT_WORDS[4] == "timeout" && TRANSIENT_WORDS[5] == "network";
    assert TRANSIENT_WORDS[6] == "connection" && TRANSIENT_WORDS[7] == "429" && TRANSIENT_WORDS[8] == "502";
    assert TRANSIENT_WORDS[9] == "503" && TRANSIENT_WORDS[10] == "504";
  }

  lemma NeedsRetryIff(response: Response)
    ensures NeedsRetry(response) <==> OnlyPassing(response)
  {
    forall error | error in response.errors
      ensures Transient(error) && !Occurs(error, PARTIAL_REGIONS) <==> Passing(error)
    {
      TransientIff(error);
    }
  }

  /** Request `j` follows an answer with nothing but passing errors, after the full pause. */
  predicate FollowsPassing(attempts: seq<Attempt>, starts: seq<nat>, j: nat)
    requires 0 < j < |starts| <= |attempts|
  {
    var before := attempts[j - 1];
    && OnlyPassing(before.response) && before.latency.Some?
    && starts[j] == starts[j - 1] + before.latency.value + (if j == 1 then 250 else 750)
  }

  /** An answer to one of the first two requests that is not to be repeated ends the run. */
  predicate ReturnsFinal(attempts: seq<Attempt>, cancelAt: Option<nat>, run: Run, j: nat)
    requires AllEnd(attempts, cancelAt) && j < |run.starts| <= |attempts|
  {
    j < 2 && !OnlyPassing(attempts[j].response) && FetchOnce(attempts[j], run.starts[j], cancelAt).result.Fetched? ==>
      run.result == Fetched(attempts[j].response) && |run.starts| == j + 1
  }

  lemma {:induction false} FinalAnswer(again: Response -> bool, attempts: seq<Attempt>, k: nat, now: nat,
                                       cancelAt: Option<nat>)
    requires AllEnd(attempts, cancelAt) && k <= |DELAYS|
    requires var starts := From(again, attempts, k, now, cancelAt).starts;
      && 0 < |starts| && k + |starts| - 1 < |DELAYS|
      && !again(attempts[k + |starts| - 1].response)
      && FetchOnce(attempts[k + |starts| - 1], starts[|starts| - 1], cancelAt).result.Fetched?
    ensures From(again, attempts, k, now, cancelAt).result.Fetched?
    decreases |DELAYS| - k
  {
    if Step(again, attempts, k, now, cancelAt).Again? {
      var later := Later(attempts, k, now);
      GoesOnAfter(again, attempts, k, now, cancelAt);
      var rest := From(again, attempts, k + 1, later, cancelAt);
      assert From(again, attempts, k, now, cancelAt).starts == [now] + rest.starts;
      FinalAnswer(again, attempts, k + 1, later, cancelAt);
    }
  }

  lemma RunContract(attempts: seq<Attempt>, start: nat, cancelAt: Option<nat>)
    requires AllEnd(attempts, cancelAt)
    ensures var run := From(NeedsRetry, attempts, 0, start, cancelAt);
      && |run.starts| <= 3 && (run.starts != [] ==> run.starts[0] == start)
      && (forall j | 0 < j < |run.starts| :: FollowsPassing(attempts, run.starts, j))
      && (forall j | 0 <= j < |run.starts| :: ReturnsFinal(attempts, cancelAt, run, j))
      && (run.result.Fetched? ==> 0 < |run.starts| && run.result == Fetched(attempts[|run.starts| - 1].response))
  {
    var run := From(NeedsRetry, attempts, 0, start, cancelAt);
    RequestsJustified(NeedsRetry, attempts, 0, start, cancelAt);
    if run.result.Fetched? { ResultIsLastAnswer(NeedsRetry, attempts, 0, start, cancelAt); }
    forall j | 0 < j < |run.starts|
      ensures FollowsPassing(attempts, run.starts, j)
    {
      RepeatFollows(attempts, run.starts, j);
    }
    forall j | 0 <= j < |run.starts|
      ensures ReturnsFinal(attempts, cancelAt, run, j)
    {
      FinalReturned(attempts, start, cancelAt, j);
    }
  }

  lemma RepeatFollows(attempts: seq<Attempt>, starts: seq<nat>, j: nat)
    requires |attempts| == |DELAYS| + 1 && 0 < j < |starts| <= |attempts| && Repeats(NeedsRetry, attempts, 0, starts, j)
    ensures FollowsPassing(attempts, starts, j)
  {
    NeedsRetryIff(attempts[j - 1].response);
  }

  lemma FinalReturned(attempts: seq<Attempt>, start: nat, cancelAt: Option<nat>, j: nat)
    requires AllEnd(attempts, cancelAt)
    requires var run := From(NeedsRetry, attempts, 0, start, cancelAt); j < |run.starts| <= |attempts|
    ensures ReturnsFinal(attempts, cancelAt, From(NeedsRetry, attempts, 0, start, cancelAt), j)
  {
    var run := From(NeedsRetry, attempts, 0, start, cancelAt);
    NeedsRetryIff(attempts[j].response);
    RequestsJustified(NeedsRetry, attempts, 0, start, cancelAt);
    if j + 1 < |run.starts| {
      assert Repeats(NeedsRetry, attempts, 0, run.starts, j + 1);
    } else if j < 2 && !NeedsRetry(attempts[j].response)
              && FetchOnce(attempts[j], run.starts[j], cancelAt).result.Fetched? {
      FinalAnswer(NeedsRetry, attempts, 0, start, cancelAt);
      ResultIsLastAnswer(NeedsRetry, attempts, 0, start, cancelAt);
    }
  }

  /** At most three requests. Each later one follows an answer without items, whose errors all
      pass, and a pause of 250 or 750 milliseconds; any other answer to one of the first two
      requests is returned at once. What is returned is the answer of the last request. */
  method FetchResourceWithRetry(attempts: seq<Attempt>, start: nat, cancelAt: Option<nat>) returns (run: Run)
    requires AllEnd(attempts, cancelAt)
    ensures run == From(NeedsRetry, attempts, 0, start, cancelAt)
    ensures |run.starts| <= 3 && (run.starts != [] ==> run.starts[0] == start)
    ensures forall j | 0 < j < |run.starts| :: FollowsPassing(attempts, run.starts, j)
    ensures forall j | 0 <= j < |run.starts| :: ReturnsFinal(attempts, cancelAt, run, j)
    ensures run.result.Fetched? ==> 0 < |run.starts| && run.result == Fetched(attempts[|run.starts| - 1].response)
  {
    run := FetchRounds(attempts, start, cancelAt);
    RoundsAreRun(attempts, start, cancelAt);
    RunContract(attempts, start, cancelAt);
  }

  lemma RoundsAreRun(attempts: seq<Attempt>, start: nat, cancelAt: Option<nat>)
    requires AllEnd(attempts, cancelAt)
    ensures Continued(NeedsRetry, attempts, 0, start, cancelAt, []) == From(NeedsRetry, attempts, 0, start, cancelAt)
  {
    ContinuedIsRun(NeedsRetry, attempts, 0, start, cancelAt, []);
    var run := From(NeedsRetry, attempts, 0, start, cancelAt);
    assert [] + run.starts == run.starts;
  }
}
