/**
 * What one Automation says about one target, read off the fields of its spec and the reported state
 * alone (api/v1alpha1/automation_types.go:747-759; internal/controller/arbitration.go:84-164;
 * internal/controller/automation_controller.go:356-383). Nothing the controller computes is used to
 * say it; the lemmas connect the two.
 */
module Fields {
  import opened Text
  import opened Arbiter
  import opened TargetKinds
  import opened Automations
  import opened Evaluation

  function FullName(a: Automation): string { a.namespace + "/" + a.name }

  /** A level is set by a scaling, a suspension or a cordon; any other action fires on an edge. */
  predicate SetsALevel(action: Action) {
    action.kind == Scale || action.kind == CronJobSuspend || action.kind == Cordon
  }

  /** The action sets a level on this target. */
  predicate Names(a: Automation, action: Action, key: TargetKey) {
    && SetsALevel(action) && action.target.Some?
    && action.target.value.kind == key.kind && action.target.value.name == key.name
    && key.namespace ==
       if key.kind == Kind.Node then ""
       else if action.target.value.namespace != "" then action.target.value.namespace
       else a.namespace
  }

  /** The level it sets: a count, or 0 for suspended and cordoned, which is what a bare action asks for. */
  predicate Says(a: Automation, action: Action, key: TargetKey, level: int) {
    && Names(a, action, key)
    && (action.kind == Scale ==> action.replicas.Some? && action.replicas.value == level)
    && (action.kind == CronJobSuspend ==> level == if action.suspended == Some(false) then 1 else 0)
    && (action.kind == Cordon ==> level == if action.cordoned == Some(false) then 1 else 0)
  }

  ghost predicate SaysFirst(a: Automation, actions: seq<Action>, key: TargetKey, level: int, i: nat) {
    && i < |actions| && Says(a, actions[i], key, level)
    && forall j: nat, other | j < i :: !Says(a, actions[j], key, other)
  }

  /** The first of the actions with a level for the target sets this one. */
  ghost predicate FirstSays(a: Automation, actions: seq<Action>, key: TargetKey, level: int) {
    exists i: nat :: SaysFirst(a, actions, key, level, i)
  }

  ghost predicate Mentioned(a: Automation, key: TargetKey) {
    exists action :: (action in a.actions || action in a.onExit) && Names(a, action, key)
  }

  /** Nothing holds it back. */
  predicate Acting(a: Automation) { a.suspend == false && a.dryRun == false && a.deleting == false }

  /** Every wanted key is reported. */
  predicate Sees(view: View, a: Automation) {
    a.condition.Some? && a.condition.value.provider in view
    && a.condition.value.state.Keys <= view[a.condition.value.provider].Keys
  }

  /** The reported state, cut down to the wanted keys, is the wanted state; unseen, the last answer stands. */
  ghost predicate Believed(view: View, a: Automation) {
    if Sees(view, a) then
      var wanted, reported := a.condition.value.state, view[a.condition.value.provider];
      wanted == map key | key in wanted.Keys :: reported[key]
    else a.matching == Some(true)
  }

  /** What it wants the target handed back at. */
  ghost predicate GivesBack(a: Automation, key: TargetKey, baseline: Option<int>, level: int) {
    match a.reversal
    case Baseline => baseline == Some(level)
    case Declared => FirstSays(a, a.onExit, key, level)
    case NoReversal => false
    case Unset => if |a.onExit| == 0 then baseline == Some(level) else FirstSays(a, a.onExit, key, level)
  }

  // ------------------------------------------------------------------- what a target shows

  /** Where a target told to go to `level` stands: a count there, a switch set by 0 and clear by anything else. */
  function Placed(kind: Kind, level: int): int {
    match kind
    case CronJob => if level == 0 then 0 else 1
    case Node => if level == 0 then 0 else 1
    case _ => level
  }

  const MARK := "reactor.robbeverhelst.com/"

  /** Where the level found is kept. */
  function BaselineName(kind: Kind): string
    requires !kind.OtherKind?
  {
    match kind
    case CronJob => MARK + "baseline-suspend"
    case Node => MARK + "baseline-unschedulable"
    case _ => MARK + "baseline-replicas"
  }

  /** How it is written there. */
  function BaselineText(kind: Kind, level: int): string {
    match kind
    case CronJob => if level == 0 then "true" else "false"
    case Node => if level == 0 then "true" else "false"
    case _ => FormatInt(level)
  }

  /** Everything a claim leaves on a target. */
  const MARKS := {
    MARK + "baseline-replicas", MARK + "baseline-suspend", MARK + "baseline-unschedulable",
    MARK + "claimed-by", MARK + "claimed-at"}

  function InWords(kind: Kind, level: int): string {
    match kind
    case CronJob => if level == 0 then "suspended" else "running"
    case Node => if level == 0 then "cordoned" else "schedulable"
    case _ => FormatInt(level) + " replicas"
  }

  lemma KindsMean(kind: Kind, level: int)
    requires Handled(kind)
    ensures Written(kind, level) == Placed(kind, level) && Describe(kind, level) == InWords(kind, level)
    ensures Format(kind, level) == BaselineText(kind, level)
    ensures BaselineKey(kind) == BaselineName(kind) && CLAIM_ANNOTATIONS == MARKS
    ensures CLAIMED_BY == MARK + "claimed-by" && CLAIMED_AT == MARK + "claimed-at"
  {
  }

  // ----------------------------------------------------------- what the controller computes

  lemma SaysMeans(a: Automation, action: Action, key: TargetKey, level: int)
    ensures Addressed(a, action) == Some(key) <==> Names(a, action, key)
    ensures Says(a, action, key, level) <==> Addressed(a, action) == Some(key) && LevelOfAction(action) == Some(level)
  {
  }

  lemma {:induction false} LevelForMeans(a: Automation, actions: seq<Action>, key: TargetKey, level: int)
    ensures LevelFor(a, actions, key) == Some(level) <==> FirstSays(a, actions, key, level)
  {
    LevelForIsTheFirst(a, actions, key);
    forall i: nat, l | i < |actions|
      ensures Says(a, actions[i], key, l) <==> AsksAt(a, actions, key, i) && LevelOfAction(actions[i]) == Some(l)
    {
      SaysMeans(a, actions[i], key, l);
    }
    if LevelFor(a, actions, key) == Some(level) {
      var i: nat :| i < |actions| && AsksAt(a, actions, key, i)
        && LevelFor(a, actions, key) == LevelOfAction(actions[i])
        && forall j: nat | j < i :: !AsksAt(a, actions, key, j);
      assert SaysFirst(a, actions, key, level, i);
    }
    if i: nat :| SaysFirst(a, actions, key, level, i) {
      assert AsksAt(a, actions, key, i);
      var k: nat :| k < |actions| && AsksAt(a, actions, key, k)
        && LevelFor(a, actions, key) == LevelOfAction(actions[k])
        && forall j: nat | j < k :: !AsksAt(a, actions, key, j);
      assert Says(a, actions[k], key, LevelOfAction(actions[k]).value);
      assert k == i;
    }
  }

  /** An Automation references exactly the targets its actions name, in either direction. */
  lemma ReferencesMeans(a: Automation, key: TargetKey)
    ensures References(a, key) <==> Mentioned(a, key)
  {
    TargetsAreWhatItMentions(a);
    var all := a.actions + a.onExit;
    forall i | 0 <= i < |all| ensures Addressed(a, all[i]) == Some(key) <==> Names(a, all[i], key) {
      SaysMeans(a, all[i], key, 0);
    }
    if Mentioned(a, key) {
      var action :| (action in a.actions || action in a.onExit) && Names(a, action, key);
      assert action in all;
      var i :| 0 <= i < |all| && all[i] == action;
    }
    if Mentions(a, key) {
      var i :| 0 <= i < |all| && Addressed(a, all[i]) == Some(key);
      assert all[i] in a.actions || all[i] in a.onExit;
    }
  }

  /** With every wanted key reported the answer is the comparison; with one missing it is the last one committed. */
  lemma MatchingMeans(view: View, a: Automation)
    ensures Readable(view, a) <==> Sees(view, a)
    ensures Matching(view, a) <==> Believed(view, a)
    ensures a.InForce() <==> Acting(a)
  {
    if Sees(view, a) {
      var wanted, reported := a.condition.value.state, view[a.condition.value.provider];
      forall key | key in wanted ensures key in reported { assert key in wanted.Keys && key in reported.Keys; }
      if Believed(view, a) {
        forall key | key in wanted ensures reported[key] == wanted[key] {
          assert wanted[key] == (map k | k in wanted.Keys :: reported[k])[key];
        }
      }
    }
  }

  /** A claim: in its own name, at the first level its actions set, and only if it stands. */
  lemma ClaimMeans(a: Automation, key: TargetKey, stands: bool, claim: Intent)
    ensures ClaimFor(a, key, stands) == Some(claim) <==>
      stands && claim.claimant == FullName(a) && FirstSays(a, a.actions, key, claim.level)
  {
    LevelForMeans(a, a.actions, key, claim.level);
  }

  /** A reversal: in its own name, at the level its policy and its onExit give. */
  lemma ReversalMeans(a: Automation, key: TargetKey, baseline: Option<int>, intent: Intent)
    ensures ReversalFor(a, key, baseline) == Some(intent) <==>
      intent.claimant == FullName(a) && GivesBack(a, key, baseline, intent.level)
  {
    LevelForMeans(a, a.onExit, key, intent.level);
  }

  lemma SlashSplits(a: string, b: string, c: string, d: string)
    requires '/' !in a && '/' !in c && a + "/" + b == c + "/" + d
    ensures a == c && b == d
  {
    var s := a + "/" + b;
    assert s[..|a|] == a && s[|a|] == '/' && s[|a| + 1..] == b;
    assert s[..|c|] == c && s[|c|] == '/' && s[|c| + 1..] == d;
    assert forall i | 0 <= i < |a| :: s[i] == a[i] && a[i] in a;
    assert forall i | 0 <= i < |c| :: s[i] == c[i] && c[i] in c;
    assert |a| == |c|;
  }

  /** Two Automations claim under one identity only if both namespace and name are equal. */
  lemma ClaimantsIdentify(a: Automation, b: Automation)
    requires '/' !in a.namespace && '/' !in b.namespace
    ensures a.Claimant() == b.Claimant() <==> a.namespace == b.namespace && a.name == b.name
  {
    assert a.Claimant() == FullName(a) && b.Claimant() == FullName(b);
    if a.Claimant() == b.Claimant() { SlashSplits(a.namespace, a.name, b.namespace, b.name); }
  }

  lemma {:induction false} NoSlashInKinds(kind: Kind)
    requires Handled(kind)
    ensures '/' !in KindName(kind)
  {
  }

  /** No two targets print alike, so sorting them by what they print is sorting them in one way only. */
  lemma KeyStringsIdentify(k: TargetKey, l: TargetKey)
    requires Handled(k.kind) && Handled(l.kind) && KeyString(k) == KeyString(l)
    requires '/' !in k.namespace && '/' !in k.name && '/' !in l.namespace && '/' !in l.name
    ensures k == l
  {
    NoSlashInKinds(k.kind);
    NoSlashInKinds(l.kind);
    var x := if k.namespace == "" then k.name else k.namespace + "/" + k.name;
    var y := if l.namespace == "" then l.name else l.namespace + "/" + l.name;
    assert KeyString(k) == KindName(k.kind) + "/" + x && KeyString(l) == KindName(l.kind) + "/" + y;
    SlashSplits(KindName(k.kind), x, KindName(l.kind), y);
    assert k.namespace != "" <==> '/' in x;
    assert l.namespace != "" <==> '/' in y;
    if k.namespace != "" { SlashSplits(k.namespace, k.name, l.namespace, l.name); }
    KindNamesDiffer(k.kind, l.kind);
  }

  lemma KindNamesDiffer(k: Kind, l: Kind)
    requires Handled(k) && Handled(l) && KindName(k) == KindName(l)
    ensures k == l
  {
    assert |"Deployment"| == 10 && |"StatefulSet"| == 11 && |"CronJob"| == 7 && |"Node"| == 4;
  }
}
