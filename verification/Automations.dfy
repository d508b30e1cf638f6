/**
 * api/v1alpha1/automation_types.go and the pure half of internal/controller/arbitration.go: what one
 * Automation says about one target.
 */
module Automations {
  import opened Text
  import opened Arbiter
  import opened TargetKinds
  import opened Collecting

  datatype TargetRef = TargetRef(kind: Kind, namespace: string, name: string)

  /** The three desired-state types, and every other type, which fires on its own edge. */
  datatype ActionType = Scale | CronJobSuspend | Cordon | Edge(name: string)

  datatype Action = Action(
    kind: ActionType, target: Option<TargetRef>,
    replicas: Option<int32>, suspended: Option<bool>, cordoned: Option<bool>)

  datatype Reversal = Unset | Declared | Baseline | NoReversal

  datatype When = When(provider: string, state: map<string, string>)

  datatype Automation = Automation(
    namespace: string, name: string,
    condition: Option<When>, actions: seq<Action>, onExit: seq<Action>, reversal: Reversal,
    suspend: bool, dryRun: bool, deleting: bool,
    matching: Option<bool>)
  {
    function EffectiveReversal(): Reversal {
      if !reversal.Unset? then reversal
      else if |onExit| > 0 then Declared
      else Baseline
    }

    predicate IsMatching() { matching == Some(true) }

    predicate InForce() { !deleting && !suspend && !dryRun }

    /** The identity it claims targets under. */
    function Claimant(): string { namespace + "/" + name }
  }

  datatype TargetKey = TargetKey(kind: Kind, namespace: string, name: string)

  function KindName(kind: Kind): string {
    match kind
    case Deployment => "Deployment"
    case StatefulSet => "StatefulSet"
    case CronJob => "CronJob"
    case Node => "Node"
    case OtherKind(name) => name
  }

  function KeyString(key: TargetKey): string {
    if key.namespace == "" then KindName(key.kind) + "/" + key.name
    else KindName(key.kind) + "/" + key.namespace + "/" + key.name
  }

  predicate IsDesiredState(kind: ActionType) { !kind.Edge? }

  /** A cluster-scoped kind has no namespace; any other defaults to the Automation's own. */
  function TargetKeyFor(a: Automation, action: Action): Option<TargetKey> {
    if action.target.None? then None
    else
      var t := action.target.value;
      var namespace :=
        if ClusterScoped(t.kind) then ""
        else if t.namespace == "" then a.namespace
        else t.namespace;
      Some(TargetKey(t.kind, namespace, t.name))
  }

  /** The target a desired-state action addresses. */
  function Addressed(a: Automation, action: Action): Option<TargetKey> {
    if IsDesiredState(action.kind) then TargetKeyFor(a, action) else None
  }

  function LevelOfAction(action: Action): Option<int> {
    match action.kind
    case Scale => if action.replicas.None? then None else Some(action.replicas.value as int)
    case CronJobSuspend => Some(LevelOfFlag(action.suspended != Some(false)))
    case Cordon => Some(LevelOfFlag(action.cordoned != Some(false)))
    case Edge(_) => None
  }

  // ------------------------------------------------------------- targets referenced

  predicate Mentions(a: Automation, key: TargetKey) {
    exists i :: 0 <= i < |a.actions + a.onExit| && Addressed(a, (a.actions + a.onExit)[i]) == Some(key)
  }

  /** Each element once, where it first occurs. */
  function Deduped<T(==,!new)>(s: seq<T>): (r: seq<T>)
    ensures forall x :: x in r <==> x in s
    ensures forall i, j | 0 <= i < j < |r| :: r[i] != r[j]
  {
    if |s| == 0 then []
    else
      var front := Deduped(s[..|s| - 1]);
      assert s == s[..|s| - 1] + [s[|s| - 1]];
      if s[|s| - 1] in front then front else front + [s[|s| - 1]]
  }

  function Targets(a: Automation): seq<TargetKey> {
    SortBy(Deduped(Collect(a.actions + a.onExit, (action: Action) => Addressed(a, action))), KeyString)
  }

  predicate References(a: Automation, key: TargetKey) { key in Targets(a) }

  /** Every target mentioned in either direction, once. */
  lemma TargetsAreWhatItMentions(a: Automation)
    ensures forall key :: References(a, key) <==> Mentions(a, key)
    ensures forall i, j | 0 <= i < j < |Targets(a)| :: Targets(a)[i] != Targets(a)[j]
  {
    var all := Collect(a.actions + a.onExit, (action: Action) => Addressed(a, action));
    CollectMembers(a.actions + a.onExit, (action: Action) => Addressed(a, action));
    SameMembers(Deduped(all), Targets(a));
    DistinctByCount(Deduped(all), Targets(a));
  }

  lemma {:induction false} CountInDistinct<T>(s: seq<T>, x: T)
    requires forall i, j | 0 <= i < j < |s| :: s[i] != s[j]
    ensures multiset(s)[x] <= 1
  {
    if |s| > 0 {
      CountInDistinct(s[..|s| - 1], x);
      assert s == s[..|s| - 1] + [s[|s| - 1]];
    }
  }

  lemma CountOfRepeat<T>(s: seq<T>, i: int, j: int)
    requires 0 <= i < j < |s| && s[i] == s[j]
    ensures multiset(s)[s[i]] >= 2
  {
    assert s == s[..i] + [s[i]] + s[i + 1..j] + [s[j]] + s[j + 1..];
  }

  lemma DistinctByCount<T>(a: seq<T>, b: seq<T>)
    requires forall i, j | 0 <= i < j < |a| :: a[i] != a[j]
    requires multiset(a) == multiset(b)
    ensures forall i, j | 0 <= i < j < |b| :: b[i] != b[j]
  {
    forall i, j | 0 <= i < j < |b| ensures b[i] != b[j] {
      CountInDistinct(a, b[i]);
      if b[i] == b[j] { CountOfRepeat(b, i, j); }
    }
  }

  lemma DedupedOneMore(a: Automation, actions: seq<Action>, action: Action)
    ensures var f := (x: Action) => Addressed(a, x);
      var before, key := Deduped(Collect(actions, f)), Addressed(a, action);
      Deduped(Collect(actions + [action], f)) ==
        if key.None? || key.value in before then before else before + [key.value]
  {
    var f := (x: Action) => Addressed(a, x);
    CollectSnoc(actions, action, f);
    if Addressed(a, action).Some? {
      assert (Collect(actions, f) + [Addressed(a, action).value])[..|Collect(actions, f)|] == Collect(actions, f);
    }
  }

  method TargetsOf(a: Automation) returns (keys: seq<TargetKey>)
    ensures keys == Targets(a)
  {
    keys := [];
    var actions := a.actions + a.onExit;
    for i := 0 to |actions|
      invariant keys == Deduped(Collect(actions[..i], (action: Action) => Addressed(a, action)))
    {
      assert actions[..i + 1] == actions[..i] + [actions[i]];
      DedupedOneMore(a, actions[..i], actions[i]);
      var key := TargetKeyFor(a, actions[i]);
      if key.None? || !IsDesiredState(actions[i].kind) { continue; }
      if key.value in keys { continue; }
      keys := keys + [key.value];
    }
    assert actions[..|actions|] == actions;
    keys := SortBy(keys, KeyString);
  }

  // ------------------------------------------------------------- claims and reversals

  /** Of several actions on the target the first with a level wins. */
  function LevelFor(a: Automation, actions: seq<Action>, key: TargetKey): Option<int> {
    if |actions| == 0 then None
    else if Addressed(a, actions[0]) == Some(key) && LevelOfAction(actions[0]).Some? then LevelOfAction(actions[0])
    else LevelFor(a, actions[1..], key)
  }

  lemma {:induction false} LevelForFits(a: Automation, actions: seq<Action>, key: TargetKey)
    ensures LevelFor(a, actions, key).Some? ==> Fits(LevelFor(a, actions, key).value)
  {
    if |actions| > 0 { LevelForFits(a, actions[1..], key); }
  }

  /** The action at `i` asks for a level on the target. */
  predicate AsksAt(a: Automation, actions: seq<Action>, key: TargetKey, i: nat)
    requires i < |actions|
  {
    Addressed(a, actions[i]) == Some(key) && LevelOfAction(actions[i]).Some?
  }

  /** Among several actions on one target the first with a level decides; with none there is no level. */
  lemma {:induction false} LevelForIsTheFirst(a: Automation, actions: seq<Action>, key: TargetKey)
    ensures LevelFor(a, actions, key).None? ==> forall i: nat | i < |actions| :: !AsksAt(a, actions, key, i)
    ensures LevelFor(a, actions, key).Some? ==> exists i: nat ::
      i < |actions| && AsksAt(a, actions, key, i) && LevelFor(a, actions, key) == LevelOfAction(actions[i])
      && forall j: nat | j < i :: !AsksAt(a, actions, key, j)
  {
    if |actions| > 0 {
      LevelForIsTheFirst(a, actions[1..], key);
      assert forall i: nat | 0 < i < |actions| :: AsksAt(a, actions, key, i) == AsksAt(a, actions[1..], key, i - 1);
      if !AsksAt(a, actions, key, 0) && LevelFor(a, actions, key).Some? {
        var i: nat :| i < |actions| - 1 && AsksAt(a, actions[1..], key, i)
          && LevelFor(a, actions[1..], key) == LevelOfAction(actions[1..][i])
          && forall j: nat | j < i :: !AsksAt(a, actions[1..], key, j);
        assert AsksAt(a, actions, key, i + 1);
      }
    }
  }

  function ClaimFor(a: Automation, key: TargetKey, matching: bool): Option<Intent> {
    if !matching then None
    else
      var level := LevelFor(a, a.actions, key);
      if level.None? then None else Some(Intent(a.Claimant(), level.value))
  }

  function ReversalFor(a: Automation, key: TargetKey, baseline: Option<int>): Option<Intent> {
    match a.EffectiveReversal()
    case NoReversal => None
    case Baseline => if baseline.None? then None else Some(Intent(a.Claimant(), baseline.value))
    case _ =>
      var level := LevelFor(a, a.onExit, key);
      if level.None? then None else Some(Intent(a.Claimant(), level.value))
  }

  /** The same spec under the same name, whatever the status and the holds on it. */
  predicate SameSpec(a: Automation, b: Automation) {
    && a.namespace == b.namespace && a.name == b.name && a.condition == b.condition
    && a.actions == b.actions && a.onExit == b.onExit && a.reversal == b.reversal
  }

  lemma {:induction false} LevelForNeedsNamespace(a: Automation, b: Automation, actions: seq<Action>, key: TargetKey)
    requires a.namespace == b.namespace
    ensures LevelFor(a, actions, key) == LevelFor(b, actions, key)
  {
    if |actions| > 0 { LevelForNeedsNamespace(a, b, actions[1..], key); }
  }

  lemma TargetsNeedSpec(a: Automation, b: Automation)
    requires SameSpec(a, b)
    ensures Targets(a) == Targets(b)
  {
    CollectAgrees(a.actions + a.onExit, (action: Action) => Addressed(a, action),
                  (action: Action) => Addressed(b, action));
  }

  /** Only the spec decides which targets an Automation references and what it says about them. */
  lemma SameSpecSameOpinions(a: Automation, b: Automation, key: TargetKey, baseline: Option<int>, matching: bool)
    requires SameSpec(a, b)
    ensures References(a, key) == References(b, key) && a.Claimant() == b.Claimant()
    ensures LevelFor(a, a.actions, key) == LevelFor(b, b.actions, key)
    ensures ClaimFor(a, key, matching) == ClaimFor(b, key, matching)
    ensures ReversalFor(a, key, baseline) == ReversalFor(b, key, baseline)
  {
    TargetsNeedSpec(a, b);
    LevelForNeedsNamespace(a, b, a.actions, key);
    LevelForNeedsNamespace(a, b, a.onExit, key);
  }
}
