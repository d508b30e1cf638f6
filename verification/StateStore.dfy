/**
 * internal/engine/state.go: the latest reported state of each provider, its debounce, and the
 * transitions between consecutive observations.
 */
module StateStore {
  import opened Text
  import opened Debounce

  datatype Observation = Observation(provider: string, state: map<string, string>, observedAt: int)

  datatype Transition = Transition(provider: string, key: string, from: string, to: string)

  datatype Candidate = Candidate(value: string, count: int)

  datatype ProviderState = ProviderState(
    stable: map<string, string>, pending: map<string, Candidate>, observedAt: int)

  const FRESH := ProviderState(map[], map[], 0)

  // ------------------------------------------------- one observation, as a function

  /** What one key's sample `to` makes of it: the value reported and what is left proving. */
  function Sample(samples: int, before: ProviderState, key: string, to: string):
    (string, Option<Candidate>)
  {
    if key !in before.stable || before.stable[key] == to || samples <= 1 then (to, None)
    else
      var count :=
        if key in before.pending && before.pending[key].value == to then before.pending[key].count + 1
        else 1;
      if count < samples then (before.stable[key], Some(Candidate(to, count))) else (to, None)
  }

  lemma SampleDependsOnKey(config: Option<DebounceConfig>, p: ProviderState, q: ProviderState, key: string, to: string)
    requires At(p, key) == At(q, key)
    ensures Sampled(config, p, key, to) == Sampled(config, q, key, to)
  {
  }

  ghost function At(p: ProviderState, key: string): (Option<string>, Option<Candidate>) {
    (Lookup(p.stable, key), if key in p.pending then Some(p.pending[key]) else None)
  }

  /** What a sample leaves at its key: the reported value and the candidate, if any. */
  ghost function Sampled(config: Option<DebounceConfig>, before: ProviderState, key: string, to: string):
    (Option<string>, Option<Candidate>)
  {
    (Some(Sample(SamplesFor(config, key), before, key, to).0), Sample(SamplesFor(config, key), before, key, to).1)
  }

  ghost function Advance(config: Option<DebounceConfig>, before: ProviderState,
                         state: map<string, string>, at: int): ProviderState
  {
    ProviderState(
      map key | key in state :: Sample(SamplesFor(config, key), before, key, state[key]).0,
      map key | key in state && Sample(SamplesFor(config, key), before, key, state[key]).1.Some? ::
        Sample(SamplesFor(config, key), before, key, state[key]).1.value,
      at)
  }

  function Lookup(state: map<string, string>, key: string): Option<string> {
    if key in state then Some(state[key]) else None
  }

  /** An absent value is spelled "" in a transition. */
  function Spelled(value: Option<string>): string {
    if value.Some? then value.value else ""
  }

  /** The transition a key makes between two reported states, one of which holds another value. */
  function Move(provider: string, key: string, before: map<string, string>, after: map<string, string>): Transition {
    Transition(provider, key, Spelled(Lookup(before, key)), Spelled(Lookup(after, key)))
  }

  predicate Moved(key: string, before: map<string, string>, after: map<string, string>) {
    Lookup(before, key) != Lookup(after, key)
  }

  /** `ts` names every key whose reported value changed, once, in some order, and nothing else. */
  ghost predicate Reports(ts: seq<Transition>, provider: string,
                          before: map<string, string>, after: map<string, string>)
  {
    && (forall t | t in ts :: Moved(t.key, before, after) && t == Move(provider, t.key, before, after))
    && (forall key | Moved(key, before, after) :: Move(provider, key, before, after) in ts)
    && (forall i, j | 0 <= i < j < |ts| :: ts[i].key != ts[j].key)
  }

  /** The same, for the keys in `keys` only. */
  ghost predicate ReportsOn(keys: iset<string>, ts: seq<Transition>, provider: string,
                            before: map<string, string>, after: map<string, string>)
  {
    && (forall t | t in ts ::
          t.key in keys && Moved(t.key, before, after) && t == Move(provider, t.key, before, after))
    && (forall key | key in keys && Moved(key, before, after) :: Move(provider, key, before, after) in ts)
    && (forall i, j | 0 <= i < j < |ts| :: ts[i].key != ts[j].key)
  }

  lemma ReportMore(keys: iset<string>, key: string, ts: seq<Transition>, provider: string,
                   before: map<string, string>, after: map<string, string>)
    requires ReportsOn(keys, ts, provider, before, after) && key !in keys
    ensures Moved(key, before, after) ==>
      ReportsOn(keys + iset{key}, ts + [Move(provider, key, before, after)], provider, before, after)
    ensures !Moved(key, before, after) ==> ReportsOn(keys + iset{key}, ts, provider, before, after)
  {
  }

  lemma ReportAll(done: iset<string>, ts: seq<Transition>, provider: string,
                  before: map<string, string>, after: map<string, string>)
    requires ReportsOn(done, ts, provider, before, after)
    requires forall k | k !in done :: k !in before && k !in after
    ensures Reports(ts, provider, before, after)
  {
  }

  /** `p` without anything about `key`. */
  function Forget(p: ProviderState, key: string): (q: ProviderState)
    ensures At(q, key) == (None, None) && forall k | k != key :: At(q, k) == At(p, k)
  {
    p.(stable := p.stable - {key}, pending := p.pending - {key})
  }

  /** The state of the vanishing loop: `done` holds the keys settled, `left` those still to visit. */
  ghost predicate Dropping(before: ProviderState, after: ProviderState, o: Observation, now: ProviderState,
                           left: set<string>, done: iset<string>, transitions: seq<Transition>)
  {
    && after.stable.Keys == o.state.Keys && after.pending.Keys <= o.state.Keys
    && before.pending.Keys <= before.stable.Keys
    && (forall k | k in o.state :: k in done)
    && (forall k | k in left :: k in o.state || (k in before.stable && k !in done))
    && (forall k | k in done :: At(now, k) == At(after, k))
    && (forall k | k !in done :: At(now, k) == At(before, k))
    && (forall k | k in before.stable && k !in left :: k in done)
    && ReportsOn(done, transitions, o.provider, before.stable, after.stable)
  }

  lemma DropOne(before: ProviderState, after: ProviderState, o: Observation, now: ProviderState,
                left: set<string>, done: iset<string>, ts: seq<Transition>, key: string)
    requires Dropping(before, after, o, now, left, done, ts) && key in left && key !in o.state
    ensures Dropping(before, after, o, Forget(now, key), left - {key}, done + iset{key},
                     ts + [Transition(o.provider, key, Spelled(Lookup(now.stable, key)), "")])
  {
    assert At(now, key) == At(before, key) && At(after, key) == (None, None);
    ReportMore(done, key, ts, o.provider, before.stable, after.stable);
  }

  lemma AllDropped(before: ProviderState, after: ProviderState, o: Observation, now: ProviderState,
                   done: iset<string>, ts: seq<Transition>)
    requires Dropping(before, after, o, now, {}, done, ts)
    ensures now.stable == after.stable && now.pending == after.pending
    ensures Reports(ts, o.provider, before.stable, after.stable)
  {
    forall k | k !in done ensures At(before, k) == At(after, k) == (None, None) {
      assert k !in before.stable && k !in before.pending;
    }
    SameEverywhere(now, after);
    ReportAll(done, ts, o.provider, before.stable, after.stable);
  }

  lemma SameEverywhere(p: ProviderState, q: ProviderState)
    requires forall k :: At(p, k) == At(q, k)
    ensures p.stable == q.stable && p.pending == q.pending
  {
    forall k ensures k in p.stable <==> k in q.stable { assert At(p, k) == At(q, k); }
    forall k | k in p.stable ensures p.stable[k] == q.stable[k] { assert At(p, k) == At(q, k); }
    forall k ensures k in p.pending <==> k in q.pending { assert At(p, k) == At(q, k); }
    forall k | k in p.pending ensures p.pending[k] == q.pending[k] { assert At(p, k) == At(q, k); }
  }

  // ------------------------------------------------------------------ the store

  class StateStore {
    var current: map<string, ProviderState>
    const debounce: map<string, DebounceConfig>

    constructor (debounce: map<string, DebounceConfig>)
      ensures current == map[] && this.debounce == debounce
    {
      current := map[];
      this.debounce := debounce;
    }

    function ConfigOf(provider: string): Option<DebounceConfig> {
      if provider in debounce then Some(debounce[provider]) else None
    }

    function StateOf(provider: string): ProviderState
      reads this
    {
      if provider in current then current[provider] else FRESH
    }

    /** Only a key with a reported value can have another one proving itself. */
    ghost predicate Valid()
      reads this
    {
      forall p | p in current :: current[p].pending.Keys <= current[p].stable.Keys
    }

    method Observe(o: Observation) returns (transitions: seq<Transition>)
      requires Valid()
      modifies this
      ensures Valid()
      ensures current == old(current)[
        o.provider := Advance(ConfigOf(o.provider), old(StateOf(o.provider)), o.state, o.observedAt)]
      ensures ConfigOf(o.provider) == if o.provider in debounce then Some(debounce[o.provider]) else None
      ensures Reports(transitions, o.provider, old(StateOf(o.provider)).stable, StateOf(o.provider).stable)
    {
      ghost var before := StateOf(o.provider);
      ghost var after := Advance(ConfigOf(o.provider), before, o.state, o.observedAt);
      var now := StateOf(o.provider);
      now, transitions := TakeSamples(ConfigOf(o.provider), now, o, after);
      now, transitions := DropVanished(before, after, now, o, transitions);
      current := current[o.provider := now.(observedAt := o.observedAt)];
    }

    /** One key's sample: believe it, start or continue proving it, or forget a candidate. */
    static method TakeSample(config: Option<DebounceConfig>, before: ProviderState, key: string, to: string)
      returns (now: ProviderState, moved: bool)
      ensures At(now, key) == Sampled(config, before, key, to)
      ensures forall k | k != key :: At(now, k) == At(before, k)
      ensures moved <==> Lookup(before.stable, key) != Lookup(now.stable, key)
    {
      if key in before.stable && before.stable[key] == to {
        return before.(pending := before.pending - {key}), false;
      }
      var samples := Samples(config, key);
      if key !in before.stable || samples <= 1 {
        return before.(stable := before.stable[key := to], pending := before.pending - {key}), true;
      }
      var proving := if key in before.pending then before.pending[key] else Candidate("", 0);
      if proving.value != to {
        proving := Candidate(to, 0);
      }
      proving := proving.(count := proving.count + 1);
      if proving.count < samples {
        return before.(pending := before.pending[key := proving]), false;
      }
      return before.(stable := before.stable[key := to], pending := before.pending - {key}), true;
    }

    /** Every key of the observation, in whatever order the map gives them. */
    static method TakeSamples(config: Option<DebounceConfig>, before: ProviderState, o: Observation,
                              ghost after: ProviderState)
      returns (now: ProviderState, transitions: seq<Transition>)
      requires forall k | k in o.state :: At(after, k) == Sampled(config, before, k, o.state[k])
      ensures forall k | k in o.state :: At(now, k) == At(after, k)
      ensures forall k | k !in o.state :: At(now, k) == At(before, k)
      ensures ReportsOn((iset k | k in o.state), transitions, o.provider, before.stable, after.stable)
    {
      now, transitions := before, [];
      var left := o.state.Keys;
      ghost var done := iset{};
      while left != {}
        invariant left <= o.state.Keys
        invariant forall k :: k in done <==> k in o.state && k !in left
        invariant forall k | k in done :: At(now, k) == At(after, k)
        invariant forall k | k !in done :: At(now, k) == At(before, k)
        invariant ReportsOn(done, transitions, o.provider, before.stable, after.stable)
        decreases left
      {
        var key :| key in left;
        left := left - {key};
        assert At(now, key) == At(before, key);
        SampleDependsOnKey(config, now, before, key, o.state[key]);
        var next, moved := TakeSample(config, now, key, o.state[key]);
        ReportMore(done, key, transitions, o.provider, before.stable, after.stable);
        if moved {
          transitions := transitions + [Transition(o.provider, key, Spelled(Lookup(now.stable, key)), o.state[key])];
        }
        now := next;
        done := done + iset{key};
      }
      assert done == iset k | k in o.state;
    }

    /** A reported key missing from the observation goes at once, with whatever it was proving. */
    static method DropVanished(ghost before: ProviderState, ghost after: ProviderState, sampled: ProviderState,
                               o: Observation, reported: seq<Transition>)
      returns (now: ProviderState, transitions: seq<Transition>)
      requires after.stable.Keys == o.state.Keys && after.pending.Keys <= o.state.Keys
      requires before.pending.Keys <= before.stable.Keys
      requires forall k | k in o.state :: At(sampled, k) == At(after, k)
      requires forall k | k !in o.state :: At(sampled, k) == At(before, k)
      requires ReportsOn((iset k | k in o.state), reported, o.provider, before.stable, after.stable)
      ensures now.stable == after.stable && now.pending == after.pending
      ensures Reports(transitions, o.provider, before.stable, after.stable)
    {
      now, transitions := sampled, reported;
      var left := now.stable.Keys;
      ghost var done := iset k | k in o.state;
      while left != {}
        invariant Dropping(before, after, o, now, left, done, transitions)
        decreases left
      {
        var key :| key in left;
        if key !in o.state {
          DropOne(before, after, o, now, left, done, transitions, key);
          done := done + iset{key};
          transitions := transitions + [Transition(o.provider, key, Spelled(Lookup(now.stable, key)), "")];
          now := Forget(now, key);
        }
        left := left - {key};
      }
      AllDropped(before, after, o, now, done, transitions);
    }

    /** Is any key of the provider short of the samples it needs? */
    method Proving(provider: string) returns (proving: bool)
      ensures proving <==> provider in current && current[provider].pending != map[]
    {
      proving := |StateOf(provider).pending| > 0;
    }

    /** The reported state only: a value still proving itself is nobody's to see. */
    method Get(provider: string) returns (o: Option<Observation>)
      ensures o == if provider in current
        then Some(Observation(provider, current[provider].stable, current[provider].observedAt)) else None
    {
      if provider !in current { return None; }
      o := Some(Observation(provider, current[provider].stable, current[provider].observedAt));
    }
  }
}
