/**
 * What the store reports after any history of observations of one provider, said in terms of the
 * observations alone (internal/engine/state.go:174-233).
 */
module StoreHistory {
  import opened Text
  import opened Debounce
  import opened StateStore

  type State = map<string, string>

  /** The store's state for a provider after the observations in `h`. */
  ghost function After(config: Option<DebounceConfig>, h: seq<State>): ProviderState {
    if |h| == 0 then FRESH
    else Advance(config, After(config, h[..|h| - 1]), h[|h| - 1], 0)
  }

  /** The samples a changed value needs, counting "report at once" as one. */
  ghost function Needed(config: Option<DebounceConfig>, key: string): (n: nat)
    ensures n >= 1
  {
    if SamplesFor(config, key) <= 1 then 1 else SamplesFor(config, key)
  }

  /** The last `n` observations all give `key` one value. */
  ghost predicate Held(h: seq<State>, key: string, n: nat) {
    0 < n <= |h| && key in h[|h| - 1]
    && forall i | |h| - n <= i < |h| :: Lookup(h[i], key) == Lookup(h[|h| - 1], key)
  }

  // ----------------------------------------------------- the reference, on `h` alone

  /** How many observations up to `i`, without a gap, give `key` the value `h[i]` gives it. */
  function RunAt(h: seq<State>, key: string, i: nat): nat
    requires i < |h|
  {
    if key !in h[i] then 0
    else if i == 0 || Lookup(h[i - 1], key) != Lookup(h[i], key) then 1
    else RunAt(h, key, i - 1) + 1
  }

  /** The length of the run of equal samples `h` ends in. */
  function RunLength(h: seq<State>, key: string): nat {
    if |h| == 0 then 0 else RunAt(h, key, |h| - 1)
  }

  lemma {:induction false} FrontRun(h: seq<State>, key: string, i: nat)
    requires i < |h| - 1
    ensures RunAt(h[..|h| - 1], key, i) == RunAt(h, key, i)
  {
    if i > 0 { FrontRun(h, key, i - 1); }
  }

  /**
   * Observation `i` settles `key`: it is the first to report it after a gap, or the last of as
   * many equal samples in a row as the key needs.
   */
  ghost predicate Settles(config: Option<DebounceConfig>, h: seq<State>, key: string, i: nat)
    requires i < |h|
  {
    key in h[i] && (i == 0 || key !in h[i - 1] || RunAt(h, key, i) >= Needed(config, key))
  }

  /** `i` is the most recent observation to settle `key`, which has been reported ever since. */
  ghost predicate LastSettled(config: Option<DebounceConfig>, h: seq<State>, key: string, i: int) {
    && 0 <= i < |h| && Settles(config, h, key, i)
    && forall j | i < j < |h| :: key in h[j] && !Settles(config, h, key, j)
  }

  lemma {:induction false} SomethingSettled(config: Option<DebounceConfig>, h: seq<State>, key: string) returns (i: int)
    requires |h| > 0 && key in h[|h| - 1]
    ensures LastSettled(config, h, key, i)
  {
    if Settles(config, h, key, |h| - 1) {
      i := |h| - 1;
    } else {
      var front := h[..|h| - 1];
      i := SomethingSettled(config, front, key);
      forall j: nat | j < |front| ensures Settles(config, front, key, j) == Settles(config, h, key, j) {
        FrontRun(h, key, j);
      }
    }
  }

  // ------------------------------------------------------------------ refinement

  /** The invariant behind everything below: what one key's part of the state is. */
  ghost predicate Explained(config: Option<DebounceConfig>, h: seq<State>, key: string, p: ProviderState) {
    if |h| == 0 || key !in h[|h| - 1] then key !in p.stable && key !in p.pending
    else
      && key in p.stable
      && (key in p.pending <==> p.stable[key] != h[|h| - 1][key])
      && (key in p.pending ==>
            && p.pending[key] == Candidate(h[|h| - 1][key], RunLength(h, key))
            && RunLength(h, key) < Needed(config, key))
      && forall i | LastSettled(config, h, key, i) :: p.stable[key] == h[i][key]
  }

  lemma {:induction false} RunSaysSame(h: seq<State>, key: string)
    ensures RunLength(h, key) <= |h|
    ensures forall i | |h| - RunLength(h, key) <= i < |h| :: key in h[i] && h[i][key] == h[|h| - 1][key]
    ensures 0 < RunLength(h, key) < |h| ==>
      Lookup(h[|h| - RunLength(h, key) - 1], key) != Lookup(h[|h| - 1], key)
  {
    if RunLength(h, key) > 1 {
      var front := h[..|h| - 1];
      FrontRun(h, key, |h| - 2);
      RunSaysSame(front, key);
      assert front[|front| - 1] == h[|h| - 2];
    } else if |h| > 1 {
      assert key in h[|h| - 2] ==> RunAt(h, key, |h| - 2) >= 1;
    }
  }

  lemma {:induction false} RunIsLongest(h: seq<State>, key: string, n: nat)
    requires Held(h, key, n)
    ensures RunLength(h, key) >= n
  {
    if n > 1 {
      assert Lookup(h[|h| - 2], key) == Lookup(h[|h| - 1], key);
      FrontRun(h, key, |h| - 2);
      RunIsLongest(h[..|h| - 1], key, n - 1);
    }
  }

  /** The last settling observation does not move when a later one settles nothing. */
  lemma SettledBefore(config: Option<DebounceConfig>, h: seq<State>, key: string, i: int)
    requires |h| > 1 && LastSettled(config, h, key, i) && i < |h| - 1
    ensures LastSettled(config, h[..|h| - 1], key, i)
  {
    var front := h[..|h| - 1];
    forall j: nat | j < |front| ensures Settles(config, front, key, j) == Settles(config, h, key, j) {
      FrontRun(h, key, j);
    }
  }

  lemma {:induction false} StoreIsExplained(config: Option<DebounceConfig>, h: seq<State>, key: string)
    ensures Explained(config, h, key, After(config, h))
  {
    if |h| > 0 {
      var front, last := h[..|h| - 1], h[|h| - 1];
      StoreIsExplained(config, front, key);
      if key in last { OneMoreSample(config, h, key, After(config, front)); }
    }
  }

  lemma OneMoreSample(config: Option<DebounceConfig>, h: seq<State>, key: string, before: ProviderState)
    requires |h| > 0 && key in h[|h| - 1]
    requires Explained(config, h[..|h| - 1], key, before)
    ensures Explained(config, h, key, Advance(config, before, h[|h| - 1], 0))
  {
    var front, last := h[..|h| - 1], h[|h| - 1];
    var p := Advance(config, before, last, 0);
    var to, n := last[key], Needed(config, key);
    if |front| == 0 || key !in front[|front| - 1] {
      assert forall i | LastSettled(config, h, key, i) :: i == |h| - 1;
    } else {
      assert front[|front| - 1] == h[|h| - 2];
      var was := before.stable[key];
      var run := RunLength(h, key);
      FrontRun(h, key, |h| - 2);
      assert run == if h[|h| - 2][key] == to then RunLength(front, key) + 1 else 1;
      forall i | LastSettled(config, h, key, i) ensures p.stable[key] == h[i][key] {
        if i < |h| - 1 {
          assert !Settles(config, h, key, |h| - 1);
          assert run < n;
          SettledBefore(config, h, key, i);
          assert was == h[i][key];
        }
      }
    }
  }

  /**
   * The store refines this: exactly the last observation's keys are reported; each holds the value
   * of the most recent observation that settles it; what differs is pending, with a count equal to
   * the length of the trailing run, which is short of what the key needs.
   */
  lemma StoreRefinesHistory(config: Option<DebounceConfig>, h: seq<State>)
    requires |h| > 0
    ensures var p, last := After(config, h), h[|h| - 1];
      && p.stable.Keys == last.Keys
      && (forall key, i | key in last && LastSettled(config, h, key, i) :: p.stable[key] == h[i][key])
      && (forall key :: key in p.pending <==> key in last && p.stable[key] != last[key])
      && (forall key | key in p.pending ::
            && p.pending[key] == Candidate(last[key], RunLength(h, key))
            && RunLength(h, key) < Needed(config, key))
  {
    var p, last := After(config, h), h[|h| - 1];
    assert p.stable.Keys == last.Keys;
    forall key, i | key in last && LastSettled(config, h, key, i) ensures p.stable[key] == h[i][key] {
      StoreIsExplained(config, h, key);
    }
    forall key ensures key in p.pending <==> key in last && p.stable[key] != last[key] {
      StoreIsExplained(config, h, key);
    }
    forall key | key in p.pending
      ensures key in last && p.pending[key] == Candidate(last[key], RunLength(h, key))
      ensures RunLength(h, key) < Needed(config, key)
    {
      StoreIsExplained(config, h, key);
    }
  }

  /**
   * Debounce, both ways. A key known before at another value than the one just observed is
   * reported at the new one exactly when that many observations in a row have said so.
   */
  lemma MovesExactlyAfterEnoughSamples(config: Option<DebounceConfig>, h: seq<State>, key: string)
    requires |h| > 1 && key in h[|h| - 2] && key in h[|h| - 1]
    requires Lookup(After(config, h[..|h| - 1]).stable, key) != Lookup(h[|h| - 1], key)
    ensures var n := Needed(config, key);
      key in After(config, h).stable
      && (After(config, h).stable[key] == h[|h| - 1][key] <==> Held(h, key, n))
  {
    var front, last, n := h[..|h| - 1], h[|h| - 1], Needed(config, key);
    StoreIsExplained(config, front, key);
    StoreIsExplained(config, h, key);
    RunSaysSame(h, key);
    if RunLength(h, key) >= n {
      assert Settles(config, h, key, |h| - 1);
      assert LastSettled(config, h, key, |h| - 1);
    } else {
      var i := SomethingSettled(config, h, key);
      assert i < |h| - 1;
      SettledBefore(config, h, key, i);
    }
  }

  lemma UnsettledKeepsValue(config: Option<DebounceConfig>, h: seq<State>, key: string)
    requires |h| > 1 && key in h[|h| - 2] && key in h[|h| - 1] && !Settles(config, h, key, |h| - 1)
    ensures Lookup(After(config, h).stable, key) == Lookup(After(config, h[..|h| - 1]).stable, key)
  {
    StoreIsExplained(config, h, key);
    StoreIsExplained(config, h[..|h| - 1], key);
    var i := SomethingSettled(config, h, key);
    SettledBefore(config, h, key, i);
  }

  /** However long a signal flaps, a key that never holds a value long enough does not move. */
  lemma {:induction false} NeverHeldNeverMoves(config: Option<DebounceConfig>, h: seq<State>, key: string, from: nat)
    requires 0 < from <= |h| && key in h[from - 1]
    requires forall i | from <= i < |h| :: key in h[i] && RunAt(h, key, i) < Needed(config, key)
    ensures Lookup(After(config, h).stable, key) == Lookup(After(config, h[..from]).stable, key) != None
  {
    if from == |h| {
      assert h[..from] == h;
      StoreIsExplained(config, h, key);
    } else {
      var front := h[..|h| - 1];
      forall i | from <= i < |front| ensures key in front[i] && RunAt(front, key, i) < Needed(config, key) {
        FrontRun(h, key, i);
      }
      assert front[..from] == h[..from];
      NeverHeldNeverMoves(config, front, key, from);
      UnsettledKeepsValue(config, h, key);
    }
  }

  // ------------------------------------------------------------- repeated readings

  function Repeated(h: seq<State>, o: State, times: nat): seq<State> {
    if times == 0 then h else Repeated(h, o, times - 1) + [o]
  }

  lemma {:induction false} RepeatedEnds(h: seq<State>, o: State, times: nat)
    ensures |Repeated(h, o, times)| == |h| + times
    ensures forall i | |h| <= i < |h| + times :: Repeated(h, o, times)[i] == o
  {
    if times > 0 { RepeatedEnds(h, o, times - 1); }
  }

  lemma HeldIsReported(config: Option<DebounceConfig>, h: seq<State>, key: string)
    requires Held(h, key, Needed(config, key))
    ensures Lookup(After(config, h).stable, key) == Lookup(h[|h| - 1], key)
    ensures key !in After(config, h).pending
  {
    StoreIsExplained(config, h, key);
    RunIsLongest(h, key, Needed(config, key));
    assert LastSettled(config, h, key, |h| - 1);
  }

  /**
   * Repeating one reading as often as its slowest key needs reaches that reading exactly, with
   * nothing left to prove.
   */
  lemma RepeatsConverge(config: Option<DebounceConfig>, h: seq<State>, o: State, times: nat)
    requires times > 0 && forall key | key in o :: times >= Needed(config, key)
    ensures var p := After(config, Repeated(h, o, times)); p.stable == o && p.pending == map[]
  {
    var all := Repeated(h, o, times);
    RepeatedEnds(h, o, times);
    forall key | key in o
      ensures Lookup(After(config, all).stable, key) == Lookup(o, key) && key !in After(config, all).pending
    {
      HeldIsReported(config, all, key);
    }
    ExactlyThese(config, all, o);
  }

  lemma ExactlyThese(config: Option<DebounceConfig>, h: seq<State>, o: State)
    requires |h| > 0 && h[|h| - 1] == o
    requires forall key | key in o ::
      Lookup(After(config, h).stable, key) == Lookup(o, key) && key !in After(config, h).pending
    ensures After(config, h).stable == o && After(config, h).pending == map[]
  {
    var p := After(config, h);
    assert p.stable.Keys == o.Keys && p.pending.Keys <= o.Keys;
    assert p.pending.Keys == {};
  }

  ghost function ReportedAfter(config: Option<DebounceConfig>, h: seq<State>, o: State, times: nat,
                               key: string): Option<string>
  {
    Lookup(After(config, Repeated(h, o, times)).stable, key)
  }

  lemma OneRepeat(config: Option<DebounceConfig>, h: seq<State>, o: State, times: nat, key: string)
    ensures var was, now := ReportedAfter(config, h, o, times, key), ReportedAfter(config, h, o, times + 1, key);
      now == was || now == Lookup(o, key)
    ensures ReportedAfter(config, h, o, times, key) == Lookup(o, key) ==>
      ReportedAfter(config, h, o, times + 1, key) == Lookup(o, key)
  {
    assert Repeated(h, o, times + 1)[..|Repeated(h, o, times)|] == Repeated(h, o, times);
    var before := After(config, Repeated(h, o, times));
    assert After(config, Repeated(h, o, times + 1)) == Advance(config, before, o, 0);
  }

  /** Over any number of repeats of one reading each key moves at most once, to that reading for good. */
  lemma RepeatsMoveOnce(config: Option<DebounceConfig>, h: seq<State>, o: State, key: string, a: nat, b: nat)
    requires a < b
    requires ReportedAfter(config, h, o, a, key) != ReportedAfter(config, h, o, a + 1, key)
    ensures ReportedAfter(config, h, o, b, key) == Lookup(o, key)
  {
    var reported := (times: nat) => ReportedAfter(config, h, o, times, key);
    forall times: nat ensures MovesOnlyTo(reported, Lookup(o, key), times) {
      OneRepeat(config, h, o, times, key);
    }
    MovesOnce(reported, Lookup(o, key), a, b);
  }

  ghost predicate MovesOnlyTo(reported: nat -> Option<string>, goal: Option<string>, t: nat) {
    && (reported(t + 1) == reported(t) || reported(t + 1) == goal)
    && (reported(t) == goal ==> reported(t + 1) == goal)
  }

  lemma {:induction false} MovesOnce(reported: nat -> Option<string>, goal: Option<string>, a: nat, b: nat)
    requires a < b && reported(a) != reported(a + 1)
    requires forall t: nat :: MovesOnlyTo(reported, goal, t)
    ensures reported(b) == goal
  {
    assert MovesOnlyTo(reported, goal, b - 1);
    if b > a + 1 { MovesOnce(reported, goal, a, b - 1); }
  }

  // ---------------------------------------------------------------------- replay

  /** What a listener holds after applying the transitions it is told of: "" means gone. */
  function Replay(ts: seq<Transition>, held: State): State {
    if |ts| == 0 then held
    else
      var before, t := Replay(ts[..|ts| - 1], held), ts[|ts| - 1];
      if t.to == "" then before - {t.key} else before[t.key := t.to]
  }

  function NonEmpty(state: State): State { map key | key in state && state[key] != "" :: state[key] }

  lemma {:induction false} ReplaySkips(ts: seq<Transition>, held: State, key: string)
    requires forall t | t in ts :: t.key != key
    ensures Lookup(Replay(ts, held), key) == Lookup(held, key)
  {
    if |ts| > 0 { ReplaySkips(ts[..|ts| - 1], held, key); }
  }

  lemma {:induction false} ReplayTakesLast(ts: seq<Transition>, held: State, i: nat)
    requires i < |ts| && forall j | i < j < |ts| :: ts[j].key != ts[i].key
    ensures Lookup(Replay(ts, held), ts[i].key) == if ts[i].to == "" then None else Some(ts[i].to)
  {
    if i < |ts| - 1 { ReplayTakesLast(ts[..|ts| - 1], held, i); }
  }

  lemma ReplayOneObservation(ts: seq<Transition>, provider: string, before: State, after: State)
    requires Reports(ts, provider, before, after)
    ensures Replay(ts, NonEmpty(before)) == NonEmpty(after)
  {
    var got := Replay(ts, NonEmpty(before));
    forall key ensures Lookup(got, key) == Lookup(NonEmpty(after), key) {
      if Moved(key, before, after) {
        var t := Move(provider, key, before, after);
        assert t in ts;
        var i :| 0 <= i < |ts| && ts[i] == t;
        ReplayTakesLast(ts, NonEmpty(before), i);
      } else {
        ReplaySkips(ts, NonEmpty(before), key);
      }
    }
    forall key ensures key in got <==> key in NonEmpty(after) {
      assert Lookup(got, key) == Lookup(NonEmpty(after), key);
    }
    forall key | key in got ensures got[key] == NonEmpty(after)[key] {
      assert Lookup(got, key) == Lookup(NonEmpty(after), key);
    }
  }

  ghost predicate Reported(config: Option<DebounceConfig>, provider: string, h: seq<State>,
                           reports: seq<seq<Transition>>)
  {
    && |reports| == |h|
    && forall i | 0 <= i < |h| ::
         Reports(reports[i], provider, After(config, h[..i]).stable, After(config, h[..i + 1]).stable)
  }

  function ReplayAll(reports: seq<seq<Transition>>): State {
    if |reports| == 0 then map[]
    else Replay(reports[|reports| - 1], ReplayAll(reports[..|reports| - 1]))
  }

  /**
   * Replaying every transition ever returned, in whatever order each call listed them, gives the
   * reported state without its empty values: "" is how a transition spells "gone".
   */
  lemma {:induction false} ReplayGivesNonEmptyState(
    config: Option<DebounceConfig>, provider: string, h: seq<State>, reports: seq<seq<Transition>>)
    requires Reported(config, provider, h, reports)
    ensures ReplayAll(reports) == NonEmpty(After(config, h).stable)
  {
    if |h| > 0 {
      var front, before := h[..|h| - 1], reports[..|h| - 1];
      assert forall i | 0 <= i <= |front| :: front[..i] == h[..i];
      ReplayGivesNonEmptyState(config, provider, front, before);
      assert h[..|h|] == h;
      ReplayOneObservation(reports[|h| - 1], provider, After(config, front).stable, After(config, h).stable);
    }
  }

  /** An empty value is believed: the last observation to settle some key still observed gave it "". */
  ghost predicate BelievesEmpty(config: Option<DebounceConfig>, h: seq<State>) {
    |h| > 0 && exists key, i ::
      key in h[|h| - 1] && LastSettled(config, h, key, i) && key in h[i] && h[i][key] == ""
  }

  lemma EmptyIsBelievedFromHistory(config: Option<DebounceConfig>, h: seq<State>)
    ensures BelievesEmpty(config, h) <==>
      exists key :: key in After(config, h).stable && After(config, h).stable[key] == ""
  {
    if |h| > 0 {
      var stable, last := After(config, h).stable, h[|h| - 1];
      StoreRefinesHistory(config, h);
      if key :| key in stable && stable[key] == "" {
        var i := SomethingSettled(config, h, key);
        assert key in last && stable[key] == h[i][key];
      }
      if BelievesEmpty(config, h) {
        var key, i :| key in last && LastSettled(config, h, key, i) && key in h[i] && h[i][key] == "";
        assert key in stable && stable[key] == "";
      }
    }
  }

  /** So replay reproduces what Get returns if and only if no key's last settling observation was empty. */
  lemma ReplayReproducesGet(
    config: Option<DebounceConfig>, provider: string, h: seq<State>, reports: seq<seq<Transition>>)
    requires Reported(config, provider, h, reports)
    ensures ReplayAll(reports) == After(config, h).stable <==> !BelievesEmpty(config, h)
  {
    ReplayGivesNonEmptyState(config, provider, h, reports);
    EmptyIsBelievedFromHistory(config, h);
    var s := After(config, h).stable;
    if forall key | key in s :: s[key] != "" {
      assert NonEmpty(s) == s;
    } else {
      var key :| key in s && s[key] == "";
      assert key !in NonEmpty(s);
    }
  }

  // ----------------------------------------------------------- the class and its history

  /** The class is in step with a history when its state for the provider is After's. */
  ghost predicate InStep(config: Option<DebounceConfig>, h: seq<State>, p: ProviderState) {
    p.stable == After(config, h).stable && p.pending == After(config, h).pending
  }

  lemma ObserveStaysInStep(config: Option<DebounceConfig>, h: seq<State>, p: ProviderState, o: State, at: int)
    requires InStep(config, h, p)
    ensures InStep(config, h + [o], Advance(config, p, o, at))
  {
    assert (h + [o])[..|h|] == h;
    var q := After(config, h);
    forall key | key in o
      ensures Sample(SamplesFor(config, key), p, key, o[key]) == Sample(SamplesFor(config, key), q, key, o[key])
    {
    }
  }
}
