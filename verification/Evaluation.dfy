/** internal/controller/automation_controller.go:330-383 and arbitration.go:730-742: does a condition hold? */
module Evaluation {
  import opened Text
  import opened Automations

  /** What the store reports: a state for each provider that has been observed at all. */
  type View = map<string, map<string, string>>

  datatype Assessment = Assessment(matching: bool, observed: map<string, string>, missing: seq<string>, known: bool)

  /** Every key the condition asks for is being reported. */
  predicate Readable(view: View, a: Automation) {
    && a.condition.Some?
    && a.condition.value.provider in view
    && forall key | key in a.condition.value.state :: key in view[a.condition.value.provider]
  }

  predicate ConditionHolds(view: View, a: Automation)
    requires Readable(view, a)
  {
    forall key | key in a.condition.value.state ::
      view[a.condition.value.provider][key] == a.condition.value.state[key]
  }

  /** The current answer where there is one, the last committed answer where there is not. */
  predicate Matching(view: View, a: Automation) {
    if Readable(view, a) then ConditionHolds(view, a) else a.IsMatching()
  }

  /** Whether the Automation puts its claim on its targets. */
  predicate Contributes(view: View, a: Automation) { a.InForce() && Matching(view, a) }

  /** What comparing a reported state with a wanted one finds on `keys`. */
  ghost predicate Compared(keys: set<string>, wanted: map<string, string>, state: map<string, string>, e: Assessment)
    requires keys <= wanted.Keys
  {
    && e.known
    && e.observed.Keys == keys * state.Keys
    && (forall key | key in keys && key in state :: e.observed[key] == state[key])
    && (forall key :: key in e.missing <==> key in keys && key !in state)
    && (e.matching <==> forall key | key in keys && key in state :: state[key] == wanted[key])
  }

  lemma ComparedOneMore(keys: set<string>, wanted: map<string, string>, state: map<string, string>, e: Assessment,
                        key: string)
    requires keys <= wanted.Keys && key in wanted && key !in keys && Compared(keys, wanted, state, e)
    ensures var next :=
        if key !in state then e.(missing := e.missing + [key])
        else e.(observed := e.observed[key := state[key]], matching := e.matching && state[key] == wanted[key]);
      Compared(keys + {key}, wanted, state, next)
  {
  }

  /** Walks the wanted keys in whatever order the map gives them. */
  method Compare(wanted: map<string, string>, state: map<string, string>) returns (e: Assessment)
    ensures Compared(wanted.Keys, wanted, state, e)
  {
    e := Assessment(true, map[], [], true);
    var left := wanted.Keys;
    while left != {}
      invariant left <= wanted.Keys
      invariant Compared(wanted.Keys - left, wanted, state, e)
      decreases left
    {
      var key :| key in left;
      ComparedOneMore(wanted.Keys - left, wanted, state, e, key);
      assert wanted.Keys - (left - {key}) == wanted.Keys - left + {key};
      left := left - {key};
      if key !in state {
        e := e.(missing := e.missing + [key]);
        continue;
      }
      e := e.(observed := e.observed[key := state[key]], matching := e.matching && state[key] == wanted[key]);
    }
    assert wanted.Keys - left == wanted.Keys;
  }

  method Evaluate(view: View, a: Automation) returns (e: Assessment)
    ensures e.known <==> a.condition.Some? && a.condition.value.provider in view
    ensures e.known ==>
      Compared(a.condition.value.state.Keys, a.condition.value.state, view[a.condition.value.provider], e)
    ensures SortedBy(e.missing, Itself)
    ensures e.known && e.missing == [] <==> Readable(view, a)
  {
    if a.condition.None? || a.condition.value.provider !in view { return Assessment(true, map[], [], false); }
    e := Compare(a.condition.value.state, view[a.condition.value.provider]);
    ghost var missing := e.missing;
    e := e.(missing := Sorted(e.missing));
    SameMembers(missing, e.missing);
    if e.missing != [] { assert e.missing[0] in e.missing; }
  }

  method MatchingOf(view: View, a: Automation) returns (matching: bool)
    ensures matching == Matching(view, a)
    // Every wanted key reported: whether each has the wanted value. Otherwise: the last answer committed.
    ensures match a.condition
      case Some(When(provider, wanted)) =>
        if provider in view && forall key | key in wanted :: key in view[provider]
        then matching <==> forall key | key in wanted :: view[provider][key] == wanted[key]
        else matching <==> a.matching == Some(true)
      case None => matching <==> a.matching == Some(true)
  {
    var e := Evaluate(view, a);
    if !e.known || e.missing != [] { return a.IsMatching(); }
    assert Readable(view, a);
    return e.matching;
  }
}
