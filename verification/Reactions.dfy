/**
 * One reconcile, from the fields of the Automation it read to the targets, the status and what leaves
 * the cluster (internal/controller/automation_controller.go:395-714).
 */
module Reactions {
  import opened Text
  import opened TargetKinds
  import opened ApiServer
  import opened Automations
  import opened ClaimRuns
  import opened Evaluation
  import opened Arbitration
  import opened EdgeActions
  import opened TargetPasses
  import opened Reconciling
  import opened Fields
  import opened Outcomes
  import Retry

  /** Where the target was taken: to the lowest level wanted, or handed back if nobody wants it. */
  ghost predicate TakenThere(view: View, list: seq<Automation>, key: TargetKey, self: Automation, claiming: bool,
                             now: string, s: Server, t: Server)
    requires Handled(key.kind)
  {
    if Unclaimed(view, list, key, self, claiming) then HandedBack(view, list, key, self, claiming, s, t)
    else exists level, names ::
      && LeastWanted(view, list, key, self, claiming, level) && NamesThem(view, list, key, self, claiming, names)
      && t.level == Placed(key.kind, level) && t.annotations == MarkedBy(key.kind, s, names, now)
  }

  /** Never claimed, it is left alone; claimed, it is cleared, at the lowest level it is handed back at. */
  ghost predicate HandedBack(view: View, list: seq<Automation>, key: TargetKey, self: Automation, claiming: bool,
                             s: Server, t: Server)
    requires Handled(key.kind)
  {
    if BaselineName(key.kind) !in s.annotations then t == s
    else
      && t.annotations == s.annotations - MARKS
      && if forall a, level :: !Offers(view, list, key, self, claiming, BaselineOf(key.kind, s), a, level)
         then t.level == s.level
         else exists level :: t.level == Placed(key.kind, level)
                && LeastOffered(view, list, key, self, claiming, BaselineOf(key.kind, s), level)
  }

  lemma PassTakesItThere(view: View, list: seq<Automation>, key: TargetKey, self: Automation, claiming: bool,
                         now: string, s: Server)
    requires Handled(key.kind)
    ensures TakenThere(view, list, key, self, claiming, now, s, Reconciled(view, list, key, self, claiming, s, now))
  {
    if Unclaimed(view, list, key, self, claiming) {
      ReleasedPass(view, list, key, self, claiming, s, now);
    } else {
      var level, names := ClaimedPass(view, list, key, self, claiming, s, now);
    }
  }

  /** A pass that got through them all took every target the Automation mentions there. */
  lemma EveryTargetTaken(view: View, list: seq<Automation>, a: Automation, claiming: bool, now: string,
                         was: map<TargetKey, Server>, reached: map<TargetKey, Server>, key: TargetKey)
    requires PassedUpTo(view, list, a, claiming, now, was, reached, |Targets(a)|) && Mentioned(a, key)
    ensures Handled(key.kind) && key in was && key in reached
    ensures TakenThere(view, list, key, a, claiming, now, was[key], reached[key])
  {
    ReferencesMeans(a, key);
    var i :| 0 <= i < |Targets(a)| && Targets(a)[i] == key;
    assert Done(view, list, a, claiming, now, was, reached, Targets(a)[i]);
    PassTakesItThere(view, list, key, a, claiming, now, was[key]);
  }

  /** And no other target moved. */
  lemma NoOtherTargetTaken(view: View, list: seq<Automation>, a: Automation, claiming: bool, now: string,
                           was: map<TargetKey, Server>, reached: map<TargetKey, Server>, n: nat, key: TargetKey)
    requires PassedUpTo(view, list, a, claiming, now, was, reached, n) && !Mentioned(a, key) && key in was
    ensures key in reached && reached[key] == was[key]
  {
    ReferencesMeans(a, key);
  }

  /**
   * What a deleted Automation leaves when every call answers: each target it mentions where the others
   * want it, or handed back if none does; its own reversal counts, its claim does not.
   */
  lemma DeletedHandsBack(view: View, list: seq<Automation>, a: Automation, now: string,
                         was: map<TargetKey, Server>, reached: map<TargetKey, Server>, key: TargetKey)
    requires PassedUpTo(view, list, a, false, now, was, reached, |Targets(a)|) && Mentioned(a, key)
    requires forall b, level | Peer(list, key, a, b) && Acting(b) && Believed(view, b) ::
      !FirstSays(b, b.actions, key, level)
    ensures Handled(key.kind) && key in was && key in reached
    ensures HandedBack(view, list, key, a, false, was[key], reached[key])
    ensures forall level :: Offers(view, list, key, a, false, BaselineOf(key.kind, was[key]), a, level) <==>
      GivesBack(a, key, BaselineOf(key.kind, was[key]), level)
  {
    EveryTargetTaken(view, list, a, false, now, was, reached, key);
    assert Unclaimed(view, list, key, a, false);
  }

  /**
   * What a committed reconcile stores and sends. The matching stored is the comparison of what is
   * reported with what is wanted, or the last answer if it cannot be made. The edge is sent exactly if
   * that is news and nothing holds the Automation back: entering, the edge actions of `actions`;
   * leaving, those of `onExit`.
   */
  lemma CommittedReaction(view: View, list: seq<Automation>, read: Snapshot, now: string, budget: nat,
                          result: Result, before: Snapshot, after: Snapshot, was: map<TargetKey, Server>,
                          reached: map<TargetKey, Server>, said: seq<Firing>, says: seq<Firing>)
    requires CommitsBeforeFiring(view, list, read, now, budget, result, before, after, was, reached, said, says)
    requires result.Committed?
    ensures var a := read.automation;
      && after.automation.matching.Some? && (after.automation.matching.value <==> Believed(view, a))
      && (result.fired <==> Acting(a) && (Believed(view, a) <==> a.matching != Some(true)))
      && said <= says
      && (!result.fired ==> says == said)
      && (result.fired && Believed(view, a) ==> Sends(a.actions, false, budget, says[|said|..]))
      && (result.fired && !Believed(view, a) ==> Sends(a.onExit, true, budget, says[|said|..]))
  {
    var a := read.automation;
    MatchingMeans(view, a);
    EdgesAreTheBlocks(a, Matching(view, a), budget);
    assert says[|said|..] == Announced(view, a, budget);
  }

  /** Its targets: all of them, under the claim the fields give it, and told of in the status. */
  lemma CommittedTargets(view: View, list: seq<Automation>, read: Snapshot, now: string, budget: nat,
                         result: Result, before: Snapshot, after: Snapshot, was: map<TargetKey, Server>,
                         reached: map<TargetKey, Server>, said: seq<Firing>, says: seq<Firing>, key: TargetKey)
    requires CommitsBeforeFiring(view, list, read, now, budget, result, before, after, was, reached, said, says)
    requires result.Committed? && Mentioned(read.automation, key)
    ensures Handled(key.kind) && key in was && key in reached
    ensures var a := read.automation;
      && TakenThere(view, list, key, a, Acting(a) && Believed(view, a), now, was[key], reached[key])
      && Said(view, list, key, a, Acting(a) && Believed(view, a), !Acting(a), BaselineOf(key.kind, was[key]))
           .(changed := reached[key] != was[key]) in after.targets
  {
    var a := read.automation;
    MatchingMeans(view, a);
    EveryTargetTaken(view, list, a, Contributes(view, a), now, was, reached, key);
    ReferencesMeans(a, key);
    var i :| 0 <= i < |Targets(a)| && Targets(a)[i] == key;
    assert Tells(view, list, a, Contributes(view, a), !a.InForce(), was, reached, Targets(a)[i], after.targets[i]);
  }

  lemma DelayInNumbers(attempts: nat)
    requires attempts >= 1
    ensures DelayAfter(attempts) ==
      if attempts == 1 then 2_000_000_000 else if attempts == 2 then 4_000_000_000
      else if attempts == 3 then 8_000_000_000 else if attempts == 4 then 16_000_000_000
      else 15_000_000_000
  {
    if attempts < 5 {
      Retry.BackoffIsExact(attempts);
      Retry.FourDoublings(2_000_000_000);
    }
  }

  /** What a failed pass records: one failure more, or the first again, and when to come back. */
  lemma FailedReaction(view: View, list: seq<Automation>, read: Snapshot, now: string, budget: nat,
                       result: Result, before: Snapshot, after: Snapshot, was: map<TargetKey, Server>,
                       reached: map<TargetKey, Server>, said: seq<Firing>, says: seq<Firing>)
    requires CommitsBeforeFiring(view, list, read, now, budget, result, before, after, was, reached, said, says)
    requires result.Retry?
    ensures says == said && after.automation.matching == before.automation.matching
    ensures after.execution.Some? && after.execution.value.failed && after.execution.value.attempts >= 1
    ensures var a, n := read.automation, after.execution.value.attempts;
      && (after.execution.value.onExit <==> !(Acting(a) && Believed(view, a)))
      && (n != 1 ==> read.execution.Some? && read.execution.value.failed && n == read.execution.value.attempts + 1)
      && result.after ==
         if n == 1 then 2_000_000_000 else if n == 2 then 4_000_000_000
         else if n == 3 then 8_000_000_000 else if n == 4 then 16_000_000_000
         else 15_000_000_000
  {
    MatchingMeans(view, read.automation);
    DelayInNumbers(after.execution.value.attempts);
  }
}
