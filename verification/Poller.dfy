/**
 * internal/controller/unifi_poller.go: the observe loop, its ticker and the webhook nudges.
 * Time is an integer count of nanoseconds supplied by the environment's script.
 */
module Poller {
  import opened Text
  import opened Debounce
  import opened StateStore
  import opened StoreHistory

  const PROVIDER := "unifi"
  const DEFAULT_INTERVAL: int := 30_000_000_000
  const DEFAULT_MIN_INTERVAL: int := 500_000_000

  /** What reaches the select while the poller waits, and how late it is served. */
  datatype Wake =
    | Nudge(after: nat)        // a webhook delivery, this long after the previous event
    | Tick(late: nat)          // the ticker is chosen, this long after it was due
    | Done                     // the context ends

  /**
   * One turn of the loop: how long the console takes, its answer, what the wait meets, and how much
   * a sleep after a nudge overruns, or None if the context ends inside it.
   */
  datatype Turn = Turn(takes: nat, answer: Option<State>, wakes: seq<Wake>, sleep: Option<nat>)

  /** One observation attempt: when it began and ended, and the state if the console answered. */
  datatype Attempt = Attempt(begin: int, end: int, state: Option<State>)

  // ------------------------------------------------------------- what a log says

  function Answers(log: seq<Attempt>): seq<State> {
    if |log| == 0 then []
    else
      var earlier, last := Answers(log[..|log| - 1]), log[|log| - 1].state;
      if last.None? then earlier else earlier + [last.value]
  }

  function WithAnswer(log: seq<Attempt>, answer: Option<State>): seq<State> {
    if answer.None? then Answers(log) else Answers(log) + [answer.value]
  }

  /** Some value was still proving itself once the attempts in `log` were over. */
  ghost predicate Settling(config: Option<DebounceConfig>, log: seq<Attempt>) {
    After(config, Answers(log)).pending != map[]
  }

  /** The two limits on how soon an attempt follows the one before it. */
  ghost predicate FollowsInTime(config: Option<DebounceConfig>, interval: int, minInterval: int,
                                before: seq<Attempt>, next: Attempt)
    requires |before| > 0
  {
    var last := before[|before| - 1];
    && next.begin >= last.end + (if interval <= minInterval then interval else minInterval)
    && (Settling(config, before) ==> next.begin >= last.end + interval)
  }

  ghost predicate KeepsPace(config: Option<DebounceConfig>, interval: int, minInterval: int,
                            log: seq<Attempt>, i: nat)
    requires 0 < i < |log|
  {
    FollowsInTime(config, interval, minInterval, log[..i], log[i])
  }

  ghost predicate Paced(config: Option<DebounceConfig>, interval: int, minInterval: int, log: seq<Attempt>) {
    && (forall i | 0 <= i < |log| :: log[i].begin <= log[i].end)
    && forall i | 0 < i < |log| :: KeepsPace(config, interval, minInterval, log, i)
  }

  lemma AnswersOneMore(log: seq<Attempt>, next: Attempt)
    ensures Answers(log + [next]) == WithAnswer(log, next.state)
  {
    assert (log + [next])[..|log|] == log;
  }

  lemma PaceKept(config: Option<DebounceConfig>, interval: int, minInterval: int, log: seq<Attempt>, next: Attempt,
                 i: nat)
    requires 0 < i < |log| && KeepsPace(config, interval, minInterval, log, i)
    ensures KeepsPace(config, interval, minInterval, log + [next], i)
  {
    assert (log + [next])[..i] == log[..i];
  }

  lemma OneMoreAttempt(config: Option<DebounceConfig>, interval: int, minInterval: int,
                       log: seq<Attempt>, next: Attempt)
    requires Paced(config, interval, minInterval, log) && next.begin <= next.end
    requires |log| > 0 ==> FollowsInTime(config, interval, minInterval, log, Attempt(next.begin, next.begin, None))
    ensures Paced(config, interval, minInterval, log + [next])
    ensures Answers(log + [next]) == WithAnswer(log, next.state)
  {
    AnswersOneMore(log, next);
    var more := log + [next];
    forall i | 0 < i < |more| ensures KeepsPace(config, interval, minInterval, more, i) {
      if i < |log| { PaceKept(config, interval, minInterval, log, next, i); } else { assert more[..i] == log; }
    }
  }

  // ------------------------------------------------------------------- how a wait ends

  /** A nudge is refused while a value is proving itself. */
  predicate Refused(wakes: seq<Wake>, proving: bool, i: nat)
    requires i < |wakes|
  {
    proving && wakes[i].Nudge?
  }

  /** The first wake to count. */
  ghost predicate Decides(wakes: seq<Wake>, proving: bool, i: nat) {
    && i < |wakes| && !Refused(wakes, proving, i)
    && forall j: nat | j < i :: Refused(wakes, proving, j)
  }

  /** How long the nudges up to the `n`-th wake took to arrive. */
  function Elapsed(wakes: seq<Wake>, n: nat): nat
    requires n <= |wakes|
  {
    if n == 0 then 0 else Elapsed(wakes, n - 1) + if wakes[n - 1].Nudge? then wakes[n - 1].after else 0
  }

  /**
   * What the wake at `i` makes of a wait that began at `from`. A tick ends it as late as the tick is,
   * from when it was due or, if the nudges took longer, from when they came; a nudge as soon as the
   * smaller interval is over, unless the context ends first.
   */
  ghost predicate EndsBy(t: Turn, interval: int, minInterval: int, from: int, again: bool, at: int, i: nat)
    requires i < |t.wakes|
  {
    match t.wakes[i]
    case Done => !again
    case Tick(late) => again && at == Max(from + Elapsed(t.wakes, i), from + interval) + late
    case Nudge(_) =>
      var now := from + Elapsed(t.wakes, i + 1);
      if now >= from + minInterval then again && at == now
      else if t.sleep.None? then !again
      else again && at == from + minInterval + t.sleep.value
  }

  /** The wait ends as the first wake to count makes it end, and in no observation if none counts. */
  ghost predicate Ends(t: Turn, proving: bool, interval: int, minInterval: int, from: int, again: bool, at: int) {
    && (again ==> exists i: nat :: Decides(t.wakes, proving, i))
    && forall i: nat | Decides(t.wakes, proving, i) :: EndsBy(t, interval, minInterval, from, again, at, i)
  }

  function Max(a: int, b: int): int { if a >= b then a else b }

  /** The wait after the last attempt of `log`, which made the last turn of it. */
  ghost predicate WaitEnds(config: Option<DebounceConfig>, interval: int, minInterval: int, script: seq<Turn>,
                           log: seq<Attempt>, again: bool, at: int)
    requires 0 < |log| <= |script|
  {
    var last := |log| - 1;
    Ends(script[last], Settling(config, log), interval, minInterval, log[last].end, again, at)
  }

  /** Attempt `i` began when the wait before it ended. */
  ghost predicate BeginsInTime(config: Option<DebounceConfig>, interval: int, minInterval: int, script: seq<Turn>,
                               log: seq<Attempt>, i: nat)
    requires 0 < i < |log| <= |script|
  {
    WaitEnds(config, interval, minInterval, script, log[..i], true, log[i].begin)
  }

  /** Every attempt of the log is its turn's, begun when the wait before it ended. */
  ghost predicate Follows(config: Option<DebounceConfig>, interval: int, minInterval: int, script: seq<Turn>,
                          start: int, log: seq<Attempt>)
  {
    && |log| <= |script| && (|log| > 0 ==> log[0].begin == start)
    && (forall i | 0 <= i < |log| :: log[i] == Attempt(log[i].begin, log[i].begin + script[i].takes, script[i].answer))
    && (forall i | 0 < i < |log| :: BeginsInTime(config, interval, minInterval, script, log, i))
  }

  lemma FollowsOneMore(config: Option<DebounceConfig>, interval: int, minInterval: int, script: seq<Turn>,
                       start: int, log: seq<Attempt>, begin: int)
    requires Follows(config, interval, minInterval, script, start, log) && |log| < |script|
    requires if |log| == 0 then begin == start else WaitEnds(config, interval, minInterval, script, log, true, begin)
    ensures var next := Attempt(begin, begin + script[|log|].takes, script[|log|].answer);
      Follows(config, interval, minInterval, script, start, log + [next])
  {
    var more := log + [Attempt(begin, begin + script[|log|].takes, script[|log|].answer)];
    forall i | 0 < i < |more| ensures BeginsInTime(config, interval, minInterval, script, more, i) {
      if i < |log| {
        assert more[..i] == log[..i];
        assert BeginsInTime(config, interval, minInterval, script, log, i);
      } else {
        assert more[..i] == log;
      }
    }
  }

  lemma OneDecides(wakes: seq<Wake>, proving: bool, i: nat, k: nat)
    requires Decides(wakes, proving, i) && Decides(wakes, proving, k)
    ensures i == k
  {
  }

  lemma EndsHere(t: Turn, proving: bool, interval: int, minInterval: int, from: int, again: bool, at: int, i: nat)
    requires Decides(t.wakes, proving, i) && EndsBy(t, interval, minInterval, from, again, at, i)
    ensures Ends(t, proving, interval, minInterval, from, again, at)
  {
    forall k: nat | Decides(t.wakes, proving, k) ensures k == i { OneDecides(t.wakes, proving, i, k); }
  }

  /** All the wakes before the `i`-th were refused, and `at` is when the nudges among them had come. */
  ghost predicate Passed(wakes: seq<Wake>, proving: bool, from: int, at: int, i: nat) {
    && i <= |wakes| && at == from + Elapsed(wakes, i)
    && forall j: nat | j < i :: Refused(wakes, proving, j)
  }

  lemma DoneEnds(t: Turn, proving: bool, interval: int, minInterval: int, from: int, at: int, i: nat)
    requires Passed(t.wakes, proving, from, at, i) && i < |t.wakes| && t.wakes[i].Done?
    ensures Ends(t, proving, interval, minInterval, from, false, at)
  {
    EndsHere(t, proving, interval, minInterval, from, false, at, i);
  }

  lemma TickEnds(t: Turn, proving: bool, interval: int, minInterval: int, from: int, at: int, i: nat)
    requires Passed(t.wakes, proving, from, at, i) && i < |t.wakes| && t.wakes[i].Tick?
    ensures Ends(t, proving, interval, minInterval, from, true, Max(at, from + interval) + t.wakes[i].late)
  {
    EndsHere(t, proving, interval, minInterval, from, true, Max(at, from + interval) + t.wakes[i].late, i);
  }

  lemma NudgeEnds(t: Turn, proving: bool, interval: int, minInterval: int, from: int, at: int, i: nat,
                  again: bool, woken: int)
    requires Passed(t.wakes, proving, from, at, i) && i < |t.wakes| && t.wakes[i].Nudge? && !proving
    requires var now := at + t.wakes[i].after;
      if now >= from + minInterval then again && woken == now
      else (again <==> t.sleep.Some?) && (again ==> woken == from + minInterval + t.sleep.value)
    ensures Ends(t, proving, interval, minInterval, from, again, woken)
  {
    EndsHere(t, proving, interval, minInterval, from, again, woken, i);
  }

  lemma NudgePasses(wakes: seq<Wake>, from: int, at: int, i: nat)
    requires Passed(wakes, true, from, at, i) && i < |wakes| && wakes[i].Nudge?
    ensures Passed(wakes, true, from, at + wakes[i].after, i + 1)
  {
  }

  /** However a wait ends, the attempt it ends in is not too early. */
  lemma EndsInTime(config: Option<DebounceConfig>, interval: int, minInterval: int, log: seq<Attempt>, t: Turn, at: int)
    requires |log| > 0 && Ends(t, Settling(config, log), interval, minInterval, log[|log| - 1].end, true, at)
    ensures FollowsInTime(config, interval, minInterval, log, Attempt(at, at, None))
  {
    var i: nat :| Decides(t.wakes, Settling(config, log), i);
    assert EndsBy(t, interval, minInterval, log[|log| - 1].end, true, at, i);
  }

  lemma NothingCounts(t: Turn, proving: bool, interval: int, minInterval: int, from: int, at: int)
    requires forall j: nat | j < |t.wakes| :: Refused(t.wakes, proving, j)
    ensures Ends(t, proving, interval, minInterval, from, false, at)
  {
  }

  /** The loop between two turns: what was logged, and when the next attempt is to begin. */
  ghost predicate Running(config: Option<DebounceConfig>, interval: int, minInterval: int, script: seq<Turn>,
                          start: int, log: seq<Attempt>, now: int)
  {
    && Paced(config, interval, minInterval, log) && Follows(config, interval, minInterval, script, start, log)
    && if |log| == 0 then now == start
       else
         && FollowsInTime(config, interval, minInterval, log, Attempt(now, now, None))
         && WaitEnds(config, interval, minInterval, script, log, true, now)
  }

  lemma TurnTaken(config: Option<DebounceConfig>, interval: int, minInterval: int, script: seq<Turn>,
                  start: int, log: seq<Attempt>, now: int)
    requires Running(config, interval, minInterval, script, start, log, now) && |log| < |script|
    ensures var t := script[|log|];
      var more := log + [Attempt(now, now + t.takes, t.answer)];
      && Paced(config, interval, minInterval, more) && Follows(config, interval, minInterval, script, start, more)
      && Answers(more) == WithAnswer(log, t.answer)
  {
    var t := script[|log|];
    OneMoreAttempt(config, interval, minInterval, log, Attempt(now, now + t.takes, t.answer));
    FollowsOneMore(config, interval, minInterval, script, start, log, now);
  }

  // --------------------------------------------------------------------- the loop

  class UniFiPoller {
    const store: StateStore
    const interval: int
    const minObserveInterval: int

    constructor (store: StateStore, interval: int, minObserveInterval: int)
      ensures this.store == store && this.interval == interval && this.minObserveInterval == minObserveInterval
    {
      this.store := store;
      this.interval := interval;
      this.minObserveInterval := minObserveInterval;
    }

    function Interval(): (d: int)
      ensures d > 0 && (interval > 0 ==> d == interval) && (interval <= 0 ==> d == 30_000_000_000)
    {
      if interval <= 0 then DEFAULT_INTERVAL else interval
    }

    function MinInterval(): (d: int)
      ensures d > 0 && (minObserveInterval > 0 ==> d == minObserveInterval)
      ensures minObserveInterval <= 0 ==> d == 500_000_000
    {
      if minObserveInterval <= 0 then DEFAULT_MIN_INTERVAL else minObserveInterval
    }

    /** The store's state for the provider is what these answers make it. */
    ghost predicate Tracks(answers: seq<State>)
      reads store
    {
      InStep(store.ConfigOf(PROVIDER), answers, store.StateOf(PROVIDER))
    }

    /** Runs the loop against a script: one attempt a turn, until the script or a wait ends it. */
    method Start(script: seq<Turn>, start: int) returns (log: seq<Attempt>)
      requires store.current == map[]
      modifies store
      ensures store.Valid() && Tracks(Answers(log))
      ensures Paced(store.ConfigOf(PROVIDER), Interval(), MinInterval(), log)
      ensures Follows(store.ConfigOf(PROVIDER), Interval(), MinInterval(), script, start, log)
      ensures |log| < |script| ==> |log| > 0 && exists at ::
        WaitEnds(store.ConfigOf(PROVIDER), Interval(), MinInterval(), script, log, false, at)
    {
      log := [];
      var now := start;
      var turn := 0;
      while turn < |script|
        invariant 0 <= turn <= |script| && |log| == turn
        invariant store.Valid() && Tracks(Answers(log))
        invariant Running(store.ConfigOf(PROVIDER), Interval(), MinInterval(), script, start, log, now)
      {
        var attempt, again, wokenAt := TakeTurn(script, start, now, log);
        log := log + [attempt];
        if !again { return; }
        now := wokenAt;
        turn := turn + 1;
      }
    }

    /** One turn of the loop: an observation, and the wait for the next. */
    method TakeTurn(script: seq<Turn>, ghost start: int, now: int, log: seq<Attempt>)
      returns (attempt: Attempt, again: bool, wokenAt: int)
      requires store.Valid() && Tracks(Answers(log)) && |log| < |script|
      requires Running(store.ConfigOf(PROVIDER), Interval(), MinInterval(), script, start, log, now)
      modifies store
      ensures store.Valid() && Tracks(Answers(log + [attempt]))
      ensures Paced(store.ConfigOf(PROVIDER), Interval(), MinInterval(), log + [attempt])
      ensures Follows(store.ConfigOf(PROVIDER), Interval(), MinInterval(), script, start, log + [attempt])
      ensures WaitEnds(store.ConfigOf(PROVIDER), Interval(), MinInterval(), script, log + [attempt], again, wokenAt)
      ensures again ==>
        Running(store.ConfigOf(PROVIDER), Interval(), MinInterval(), script, start, log + [attempt], wokenAt)
    {
      var t := script[|log|];
      attempt := Attempt(now, now + t.takes, t.answer);
      Observe(t.answer, attempt.end, log);
      TurnTaken(store.ConfigOf(PROVIDER), Interval(), MinInterval(), script, start, log, now);
      // The next tick is a whole interval away from here.
      again, wokenAt := AwaitNextObservation(t, attempt.end, attempt.end, log + [attempt]);
      if again {
        EndsInTime(store.ConfigOf(PROVIDER), Interval(), MinInterval(), log + [attempt], t, wokenAt);
      }
    }

    /** A failed observation is dropped; a successful one goes to the store. */
    method Observe(answer: Option<State>, at: int, ghost log: seq<Attempt>)
      requires store.Valid() && Tracks(Answers(log))
      modifies store
      ensures store.Valid() && Tracks(WithAnswer(log, answer))
      ensures answer.None? ==> store.current == old(store.current)
      ensures answer.Some? ==> store.StateOf(PROVIDER).observedAt == at
      ensures forall provider | provider != PROVIDER :: store.StateOf(provider) == old(store.StateOf(provider))
    {
      if answer.None? { return; }
      ObserveStaysInStep(store.ConfigOf(PROVIDER), Answers(log), store.StateOf(PROVIDER), answer.value, at);
      var _ := store.Observe(Observation(PROVIDER, answer.value, at));
    }

    /** Sleeps `rest` from `now` on, if any is left, unless the context ends first. */
    method WaitFor(rest: int, now: int, sleep: Option<nat>) returns (again: bool, at: int)
      ensures rest <= 0 ==> again && at == now
      ensures rest > 0 ==> (again <==> sleep.Some?) && (again ==> at == now + rest + sleep.value)
    {
      if rest <= 0 { return true, now; }
      if sleep.None? { return false, now; }
      return true, now + rest + sleep.value;
    }

    /** Waits for the ticker, or for a nudge that the store's debounce does not refuse. */
    method AwaitNextObservation(t: Turn, resetAt: int, observedAt: int, ghost log: seq<Attempt>)
      returns (again: bool, at: int)
      requires |log| > 0 && log[|log| - 1].end == resetAt == observedAt && Tracks(Answers(log))
      ensures Ends(t, Settling(store.ConfigOf(PROVIDER), log), Interval(), MinInterval(), observedAt, again, at)
    {
      at := observedAt;
      ghost var settling := Settling(store.ConfigOf(PROVIDER), log);
      ghost var every, least := Interval(), MinInterval();
      assert settling <==> store.StateOf(PROVIDER).pending != map[];
      for i := 0 to |t.wakes|
        invariant Passed(t.wakes, settling, observedAt, at, i)
      {
        match t.wakes[i] {
          case Done =>
            DoneEnds(t, settling, every, least, observedAt, at, i);
            return false, at;
          case Tick(late) =>
            TickEnds(t, settling, every, least, observedAt, at, i);
            var due := resetAt + Interval();
            return true, (if at >= due then at else due) + late;
          case Nudge(after) =>
            var now := at + after;
            var proving := store.Proving(PROVIDER);
            if proving {
              NudgePasses(t.wakes, observedAt, at, i);
              at := now;
              continue;
            }
            var woken;
            again, woken := WaitFor(MinInterval() - (now - observedAt), now, t.sleep);
            NudgeEnds(t, settling, every, least, observedAt, at, i, again, woken);
            return again, woken;
        }
      }
      NothingCounts(t, settling, every, least, observedAt, at);
      again := false;
    }
  }

  // ------------------------------------------------------------ what nudges cannot do

  lemma PacedFront(config: Option<DebounceConfig>, interval: int, minInterval: int, log: seq<Attempt>)
    requires Paced(config, interval, minInterval, log) && |log| > 0
    ensures Paced(config, interval, minInterval, log[..|log| - 1])
    ensures |log| > 1 ==> FollowsInTime(config, interval, minInterval, log[..|log| - 1], log[|log| - 1])
  {
    var front := log[..|log| - 1];
    assert |log| > 1 ==> KeepsPace(config, interval, minInterval, log, |log| - 1);
    forall i | 0 < i < |front| ensures KeepsPace(config, interval, minInterval, front, i) {
      assert front[..i] == log[..i];
      assert KeepsPace(config, interval, minInterval, log, i);
    }
  }

  /** A burst of deliveries is never a burst of requests: attempts keep the smaller interval apart. */
  lemma {:induction false} AttemptsKeepApart(config: Option<DebounceConfig>, interval: int, minInterval: int,
                                             log: seq<Attempt>, a: nat, b: nat)
    requires Paced(config, interval, minInterval, log) && interval > 0 && minInterval > 0
    requires a < b < |log|
    ensures log[b].begin >= log[a].end + (if interval <= minInterval then interval else minInterval)
  {
    assert KeepsPace(config, interval, minInterval, log, b);
    if a < b - 1 { AttemptsKeepApart(config, interval, minInterval, log, a, b - 1); }
  }

  /** Attempt `j` was answered with `value` at `key`, and so was every answered attempt since. */
  ghost predicate SaysSince(log: seq<Attempt>, key: string, value: string, j: nat) {
    && j < |log| && log[j].state.Some?
    && forall i | j <= i < |log| && log[i].state.Some? :: Lookup(log[i].state.value, key) == Some(value)
  }

  lemma AnswersFront(log: seq<Attempt>)
    requires |log| > 0
    ensures var front, last := log[..|log| - 1], log[|log| - 1].state;
      && (last.None? ==> Answers(log) == Answers(front))
      && (last.Some? ==> |Answers(log)| > 0 && Answers(log)[..|Answers(log)| - 1] == Answers(front)
                         && Answers(log)[|Answers(log)| - 1] == last.value)
  {
  }

  lemma OneMoreInterval(count: int, interval: int)
    ensures count * interval == (count - 1) * interval + interval
  {
  }

  lemma CandidateGrows(config: Option<DebounceConfig>, before: ProviderState, o: State, key: string)
    requires key in Advance(config, before, o, 0).pending
    ensures key in o
    ensures var c := Advance(config, before, o, 0).pending[key];
      || c == Candidate(o[key], 1)
      || (key in before.pending && before.pending[key].value == o[key]
          && c == Candidate(o[key], before.pending[key].count + 1))
  {
  }

  lemma PromotionNeedsCandidate(config: Option<DebounceConfig>, h: seq<State>, o: State, key: string)
    requires var was, now := After(config, h).stable, Advance(config, After(config, h), o, 0).stable;
      key in was && key in now && was[key] != now[key]
    ensures key in o && Advance(config, After(config, h), o, 0).stable[key] == o[key]
    ensures Needed(config, key) > 1 ==>
      key in After(config, h).pending && After(config, h).pending[key] == Candidate(o[key], Needed(config, key) - 1)
  {
    StoreIsExplained(config, h, key);
  }

  lemma SaysSinceGrows(log: seq<Attempt>, key: string, value: string, j: nat)
    requires |log| > 0 && SaysSince(log[..|log| - 1], key, value, j)
    requires log[|log| - 1].state.Some? ==> Lookup(log[|log| - 1].state.value, key) == Some(value)
    ensures SaysSince(log, key, value, j)
  {
    var front := log[..|log| - 1];
    assert forall i | 0 <= i < |front| :: log[i] == front[i];
  }

  /** The bound a candidate carries: watched for one interval less than it has samples. */
  ghost predicate Watched(log: seq<Attempt>, key: string, c: Candidate, interval: int, j: nat) {
    SaysSince(log, key, c.value, j) && log[|log| - 1].end >= log[j].end + (c.count - 1) * interval
  }

  lemma WatchedLonger(log: seq<Attempt>, key: string, c: Candidate, interval: int, j: nat)
    requires |log| > 1 && Watched(log[..|log| - 1], key, c, interval, j) && interval > 0
    requires log[|log| - 1].end >= log[|log| - 2].end + interval
    requires log[|log| - 1].state.Some? ==> Lookup(log[|log| - 1].state.value, key) == Some(c.value)
    ensures Watched(log, key, c, interval, j)
    ensures Watched(log, key, c.(count := c.count + 1), interval, j)
  {
    SaysSinceGrows(log, key, c.value, j);
    OneMoreInterval(c.count, interval);
    assert log[..|log| - 1][j] == log[j];
  }

  lemma WatchedThenPromoted(log: seq<Attempt>, key: string, c: Candidate, interval: int, j: nat)
    requires |log| > 1 && Watched(log[..|log| - 1], key, c, interval, j)
    requires log[|log| - 1].begin >= log[|log| - 2].end + interval
    requires log[|log| - 1].state.Some? && Lookup(log[|log| - 1].state.value, key) == Some(c.value)
    ensures SaysSince(log, key, c.value, j)
    ensures j < |log| - 1 && log[|log| - 1].begin >= log[j].end + c.count * interval
  {
    SaysSinceGrows(log, key, c.value, j);
    OneMoreInterval(c.count, interval);
    assert log[..|log| - 1][j] == log[j];
  }

  /** A candidate seen `count` times has been watched for `count - 1` whole poll intervals. */
  lemma {:induction false} PendingSince(config: Option<DebounceConfig>, interval: int, minInterval: int,
                                        log: seq<Attempt>, key: string) returns (j: nat)
    requires Paced(config, interval, minInterval, log) && interval > 0 && minInterval > 0
    requires key in After(config, Answers(log)).pending
    ensures Watched(log, key, After(config, Answers(log)).pending[key], interval, j)
  {
    PendingBefore(config, log, key);
    PacedFront(config, interval, minInterval, log);
    var last, c := log[|log| - 1], After(config, Answers(log)).pending[key];
    if last.state.Some? && c == Candidate(last.state.value[key], 1) {
      j := |log| - 1;
    } else {
      j := PendingSince(config, interval, minInterval, log[..|log| - 1], key);
      WatchedLonger(log, key, After(config, Answers(log[..|log| - 1])).pending[key], interval, j);
    }
  }

  /** A candidate is new with the last answer, or was there before and has that answer behind it. */
  lemma PendingBefore(config: Option<DebounceConfig>, log: seq<Attempt>, key: string)
    requires |log| > 0 && key in After(config, Answers(log)).pending
    ensures var was, c, last :=
        After(config, Answers(log[..|log| - 1])).pending,
        After(config, Answers(log)).pending[key], log[|log| - 1].state;
      if last.None? then key in was && c == was[key]
      else
        key in last.value && (c == Candidate(last.value[key], 1)
          || (key in was && c == Candidate(last.value[key], was[key].count + 1) && was[key].value == last.value[key]))
  {
    AnswersFront(log);
    if log[|log| - 1].state.Some? {
      CandidateGrows(config, After(config, Answers(log[..|log| - 1])), log[|log| - 1].state.value, key);
    }
  }

  /**
   * Whatever nudges arrived, a known key that needs n samples and moves to a new value does so at
   * least n - 1 whole poll intervals after the attempt that first saw that value.
   */
  lemma PromotionTakesIntervals(config: Option<DebounceConfig>, interval: int, minInterval: int,
                                log: seq<Attempt>, key: string) returns (first: nat)
    requires Paced(config, interval, minInterval, log) && interval > 0 && minInterval > 0 && |log| > 0
    requires var was, now := After(config, Answers(log[..|log| - 1])).stable, After(config, Answers(log)).stable;
      key in was && key in now && was[key] != now[key]
    ensures SaysSince(log, key, After(config, Answers(log)).stable[key], first)
    ensures Needed(config, key) > 1 ==>
      first < |log| - 1 && log[|log| - 1].begin >= log[first].end + (Needed(config, key) - 1) * interval
  {
    var front, last := log[..|log| - 1], log[|log| - 1];
    AnswersFront(log);
    PacedFront(config, interval, minInterval, log);
    PromotionNeedsCandidate(config, Answers(front), last.state.value, key);
    if Needed(config, key) == 1 {
      first := |log| - 1;
    } else {
      first := PendingSince(config, interval, minInterval, front, key);
      WatchedThenPromoted(log, key, After(config, Answers(front)).pending[key], interval, first);
    }
  }
}
