/**
 * Whole runs of claims, releases, edits by others and failures at any call, one pass at a time, over
 * one target (internal/controller/arbitration.go:752-948).
 */
module ClaimRuns {
  import opened Text
  import opened Arbiter
  import opened TargetKinds
  import opened ApiServer
  import opened Collecting
  import opened Automations
  import opened ClaimProtocol
  import opened Fields

  /** The recorded pre-claim level; one that cannot be parsed is recorded all the same. */
  function BaselineOf(kind: Kind, s: Server): Option<int>
    requires Handled(kind)
  {
    if Recorded(kind, s) then Parse(kind, s.annotations[BaselineKey(kind)]) else None
  }

  function Reversing(key: TargetKey, baseline: Option<int>): Automation -> Option<Intent> {
    (peer: Automation) => ReversalFor(peer, key, baseline)
  }

  /** The level a release applies: the meet of the given reversals, if there are any. */
  function ReleaseLevel(reversals: seq<Intent>): Option<int> {
    var r := Resolved(reversals);
    if r.None? then None else Some(r.value.level)
  }

  datatype Step =
    | Claim(level: int, claimedBy: string, now: string, outcome: Outcome)
    | Release(peers: seq<Automation>, outcome: Outcome)
    | Rescale(level: int)                       // somebody else sets the level
    | Annotate(name: string, value: string)     // somebody else's annotation
    | Unannotate(name: string)

  ghost predicate Follows(key: TargetKey, s: Server, step: Step, t: Server)
    requires Handled(key.kind)
  {
    match step
    case Claim(level, claimedBy, now, outcome) =>
      Fits(level) && ClaimReaches(key.kind, s, level, claimedBy, now, t, outcome)
    case Release(peers, outcome) =>
      Recorded(key.kind, s)
      && ReleaseReaches(key.kind, s, ReleaseLevel(Collect(peers, Reversing(key, BaselineOf(key.kind, s)))), t, outcome)
    case Rescale(level) => Holds(key.kind, level) && t == Store(s, level, s.annotations)
    case Annotate(name, value) => name !in CLAIM_ANNOTATIONS && t == Store(s, s.level, s.annotations[name := value])
    case Unannotate(name) => name !in CLAIM_ANNOTATIONS && t == Store(s, s.level, s.annotations - {name})
  }

  /** Any run on a target Reactor has not claimed yet. */
  ghost predicate Run(key: TargetKey, states: seq<Server>, steps: seq<Step>)
    requires Handled(key.kind)
  {
    && |states| == |steps| + 1
    && !Recorded(key.kind, states[0]) && Holds(key.kind, states[0].level)
    && forall i | 0 <= i < |steps| :: Follows(key, states[i], steps[i], states[i + 1])
  }

  /** State `j` is the last one up to `n` in which nothing was recorded: the target before this claim. */
  ghost predicate BeforeClaim(kind: Kind, states: seq<Server>, j: int, n: int)
    requires Handled(kind)
  {
    && 0 <= j <= n < |states| && !Recorded(kind, states[j])
    && forall i | j < i <= n :: Recorded(kind, states[i])
  }

  // ------------------------------------------------------------------- single steps

  lemma {:induction false} ReversalsFit(key: TargetKey, peers: seq<Automation>, baseline: Option<int>)
    requires baseline.Some? ==> Fits(baseline.value)
    ensures forall intent | intent in Collect(peers, Reversing(key, baseline)) :: Fits(intent.level)
  {
    CollectMembers(peers, Reversing(key, baseline));
    forall intent | intent in Collect(peers, Reversing(key, baseline)) ensures Fits(intent.level) {
      var i :| 0 <= i < |peers| && Reversing(key, baseline)(peers[i]) == Some(intent);
      LevelForFits(peers[i], peers[i].onExit, key);
    }
  }

  lemma ReleaseLevelFits(key: TargetKey, peers: seq<Automation>, baseline: Option<int>)
    requires baseline.Some? ==> Fits(baseline.value)
    ensures var level := ReleaseLevel(Collect(peers, Reversing(key, baseline))); level.Some? ==> Fits(level.value)
  {
    var reversals := Collect(peers, Reversing(key, baseline));
    ReversalsFit(key, peers, baseline);
    if |reversals| > 0 {
      MinLevelIsAttained(reversals);
      var i :| 0 <= i < |reversals| && reversals[i].level == MinLevel(reversals);
      assert reversals[i] in reversals;
    }
  }

  lemma StepKeepsRange(key: TargetKey, s: Server, step: Step, t: Server)
    requires Handled(key.kind) && Follows(key, s, step, t) && Holds(key.kind, s.level)
    ensures Holds(key.kind, t.level)
  {
    if step.Release? {
      ParsedHolds(key.kind, s.annotations[BaselineKey(key.kind)]);
      ReleaseLevelFits(key, step.peers, BaselineOf(key.kind, s));
    }
  }

  /** A step that leaves a baseline in place leaves the one that was there, or records the level it found. */
  lemma StepKeepsBaseline(key: TargetKey, s: Server, step: Step, t: Server)
    requires Handled(key.kind) && Follows(key, s, step, t) && Recorded(key.kind, t)
    ensures t.annotations[BaselineKey(key.kind)] ==
      if Recorded(key.kind, s) then s.annotations[BaselineKey(key.kind)] else Format(key.kind, s.level)
  {
    AnnotationsDiffer();
  }

  /** A claim that moves the level leaves the baseline recorded, wherever it stopped. */
  lemma ClaimMovesOnlyWhenRecorded(key: TargetKey, s: Server, step: Step, t: Server)
    requires Handled(key.kind) && Follows(key, s, step, t) && step.Claim? && t.level != s.level
    ensures Recorded(key.kind, t)
  {
    AnnotationsDiffer();
  }

  // ---------------------------------------------------------------------- whole runs

  lemma {:induction false} LevelsStayInRange(key: TargetKey, states: seq<Server>, steps: seq<Step>, n: nat)
    requires Handled(key.kind) && Run(key, states, steps) && n < |states|
    ensures Holds(key.kind, states[n].level)
  {
    if n > 0 {
      LevelsStayInRange(key, states, steps, n - 1);
      StepKeepsRange(key, states[n - 1], steps[n - 1], states[n]);
    }
  }

  /**
   * However claims, crashes and edits follow one another, the recorded baseline is the level the
   * target had when it was last unclaimed, and it reads back as exactly that level.
   */
  lemma {:induction false} BaselineIsThePreClaimLevel(key: TargetKey, states: seq<Server>, steps: seq<Step>, j: int,
                                                      n: nat)
    requires Handled(key.kind) && Run(key, states, steps)
    requires BeforeClaim(key.kind, states, j, n) && j < n
    ensures states[n].annotations[BaselineKey(key.kind)] == Format(key.kind, states[j].level)
    ensures BaselineOf(key.kind, states[n]) == Some(states[j].level)
  {
    StepKeepsBaseline(key, states[n - 1], steps[n - 1], states[n]);
    if j < n - 1 { BaselineIsThePreClaimLevel(key, states, steps, j, n - 1); }
    LevelsStayInRange(key, states, steps, j);
    BaselineRoundTrip(key.kind, states[j].level);
  }

  /** It says so, or says nothing and has no onExit. */
  predicate ToBaseline(a: Automation) {
    a.reversal == Reversal.Baseline || (a.reversal == Unset && |a.onExit| == 0)
  }

  /** `level` is the most restrictive of what the peers want the target handed back at. */
  ghost predicate LeastReversal(key: TargetKey, peers: seq<Automation>, baseline: Option<int>, level: int) {
    && (exists peer :: peer in peers && GivesBack(peer, key, baseline, level))
    && (forall peer, other | peer in peers && GivesBack(peer, key, baseline, other) :: level <= other)
  }

  ghost predicate NobodyReverses(key: TargetKey, peers: seq<Automation>, baseline: Option<int>) {
    forall peer, level | peer in peers :: !GivesBack(peer, key, baseline, level)
  }

  /** The reversals gathered are those of the peers, each in its own name. */
  lemma ReversalsMean(key: TargetKey, peers: seq<Automation>, baseline: Option<int>, intent: Intent)
    ensures intent in Collect(peers, Reversing(key, baseline)) <==>
      exists peer :: peer in peers && intent.claimant == FullName(peer) && GivesBack(peer, key, baseline, intent.level)
  {
    var reverses := Reversing(key, baseline);
    CollectMembers(peers, reverses);
    forall peer | peer in peers
      ensures reverses(peer) == Some(intent) <==>
        intent.claimant == FullName(peer) && GivesBack(peer, key, baseline, intent.level)
    {
      ReversalMeans(peer, key, baseline, intent);
    }
    if peer :| peer in peers && reverses(peer) == Some(intent) {
      var i :| 0 <= i < |peers| && peers[i] == peer;
    }
  }

  lemma ReleaseLevelMeans(key: TargetKey, peers: seq<Automation>, baseline: Option<int>)
    ensures var level := ReleaseLevel(Collect(peers, Reversing(key, baseline)));
      if level.None? then NobodyReverses(key, peers, baseline) else LeastReversal(key, peers, baseline, level.value)
  {
    var reversals := Collect(peers, Reversing(key, baseline));
    forall peer, level | peer in peers && GivesBack(peer, key, baseline, level)
      ensures Intent(FullName(peer), level) in reversals
    {
      ReversalsMean(key, peers, baseline, Intent(FullName(peer), level));
    }
    if |reversals| > 0 {
      MinLevelIsAttained(reversals);
      var k :| 0 <= k < |reversals| && reversals[k].level == MinLevel(reversals);
      ReversalsMean(key, peers, baseline, reversals[k]);
    }
  }

  /**
   * A release that completes, after any run: the level is the most restrictive reversal, or what it
   * was if nobody reverses; all five claim annotations are gone and every other one is as it was.
   */
  lemma CompletedRelease(key: TargetKey, s: Server, peers: seq<Automation>, t: Server)
    requires Handled(key.kind) && Follows(key, s, Release(peers, Ok), t)
    ensures t.annotations == s.annotations - MARKS
    ensures NobodyReverses(key, peers, BaselineOf(key.kind, s)) ==> t.level == s.level
    ensures forall level | LeastReversal(key, peers, BaselineOf(key.kind, s), level) ::
      t.level == Placed(key.kind, level)
    ensures NobodyReverses(key, peers, BaselineOf(key.kind, s))
      || exists level :: LeastReversal(key, peers, BaselineOf(key.kind, s), level)
  {
    ReleaseLevelMeans(key, peers, BaselineOf(key.kind, s));
    forall level ensures Written(key.kind, level) == Placed(key.kind, level) && CLAIM_ANNOTATIONS == MARKS {
      KindsMean(key.kind, level);
    }
  }

  /**
   * One Automation's say, policy by policy: no reversal leaves the level alone; the baseline, which is
   * also the default without an onExit, goes back to what was recorded; a declared reversal, which is
   * the default with one, goes where the first onExit action on the target says.
   */
  lemma ReleaseByOne(key: TargetKey, s: Server, a: Automation, t: Server)
    requires Handled(key.kind) && Follows(key, s, Release([a], Ok), t)
    ensures a.reversal == NoReversal ==> t.level == s.level
    ensures ToBaseline(a) ==>
      match BaselineOf(key.kind, s)
      case Some(level) => t.level == Placed(key.kind, level)
      case None => t.level == s.level
    ensures a.reversal == Reversal.Declared || (a.reversal == Unset && |a.onExit| > 0) ==>
      && (forall level | FirstSays(a, a.onExit, key, level) :: t.level == Placed(key.kind, level))
      && ((forall level :: !FirstSays(a, a.onExit, key, level)) ==> t.level == s.level)
  {
    var baseline := BaselineOf(key.kind, s);
    CompletedRelease(key, s, [a], t);
    ReleaseByOneIs(key, a, baseline);
  }

  lemma ReleaseByOneIs(key: TargetKey, a: Automation, baseline: Option<int>)
    ensures NobodyReverses(key, [a], baseline) <==> forall level :: !GivesBack(a, key, baseline, level)
    ensures forall level :: LeastReversal(key, [a], baseline, level) <==> GivesBack(a, key, baseline, level)
  {
    assert a in [a];
    forall level, other | GivesBack(a, key, baseline, level) && GivesBack(a, key, baseline, other)
      ensures level == other
    {
      ReversalMeans(a, key, baseline, Intent(FullName(a), level));
      ReversalMeans(a, key, baseline, Intent(FullName(a), other));
    }
  }

  /**
   * When every peer hands the target back to its baseline, a completed release puts it exactly where
   * it was before the claim, whatever crashed or was edited in between.
   */
  lemma ReleaseRestoresPreClaimLevel(key: TargetKey, states: seq<Server>, steps: seq<Step>, j: int, n: nat)
    requires Handled(key.kind) && Run(key, states, steps) && n < |steps|
    requires BeforeClaim(key.kind, states, j, n) && j < n
    requires steps[n].Release? && steps[n].outcome.Ok? && |steps[n].peers| > 0
    requires forall peer | peer in steps[n].peers :: ToBaseline(peer)
    ensures states[n + 1].level == states[j].level
    ensures states[n + 1].annotations == states[n].annotations - MARKS
  {
    KindsMean(key.kind, states[j].level);
    BaselineIsThePreClaimLevel(key, states, steps, j, n);
    LevelsStayInRange(key, states, steps, j);
    var peers, baseline := steps[n].peers, BaselineOf(key.kind, states[n]);
    CompletedRelease(key, states[n], peers, states[n + 1]);
    BaselinePeersAgree(key, peers, states[j].level);
  }

  lemma BaselinePeersAgree(key: TargetKey, peers: seq<Automation>, level: int)
    requires |peers| > 0 && forall peer | peer in peers :: ToBaseline(peer)
    ensures LeastReversal(key, peers, Some(level), level)
  {
    assert peers[0] in peers && GivesBack(peers[0], key, Some(level), level);
  }

  /** And over the whole run, a level only ever moves under a recorded baseline, by a release, or by others. */
  lemma ClaimsNeverMoveAnUnrecordedTarget(key: TargetKey, states: seq<Server>, steps: seq<Step>, n: nat)
    requires Handled(key.kind) && Run(key, states, steps) && n < |steps| && steps[n].Claim?
    requires states[n + 1].level != states[n].level
    ensures Recorded(key.kind, states[n + 1])
    ensures exists j ::
      && BeforeClaim(key.kind, states, j, n + 1) && j < n + 1
      && BaselineOf(key.kind, states[n + 1]) == Some(states[j].level)
  {
    ClaimMovesOnlyWhenRecorded(key, states[n], steps[n], states[n + 1]);
    var j := LastUnrecorded(key.kind, states, n + 1);
    BaselineIsThePreClaimLevel(key, states, steps, j, n + 1);
  }

  lemma {:induction false} LastUnrecorded(kind: Kind, states: seq<Server>, n: nat) returns (j: int)
    requires Handled(kind) && n < |states| && !Recorded(kind, states[0])
    ensures BeforeClaim(kind, states, j, n)
  {
    if Recorded(kind, states[n]) { j := LastUnrecorded(kind, states, n - 1); } else { j := n; }
  }
}
