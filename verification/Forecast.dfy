/**
 * The reported disagreement, against the release it warns of
 * (internal/controller/arbitration.go:179-222, 431-442; internal/controller/events.go:319-329).
 */
module Forecast {
  import opened Text
  import opened Arbiter
  import opened TargetKinds
  import opened ApiServer
  import opened Collecting
  import opened Automations
  import opened ClaimProtocol
  import opened ClaimRuns
  import opened Evaluation
  import opened Disagreement
  import opened Arbitration
  import opened Confluence
  import opened Preview

  /** What a pass by `self` reports as declared for the target once it is released. */
  function ReportedBy(list: seq<Automation>, key: TargetKey, self: Automation,
                      baseline: Option<int>): seq<ReversalIntent>
  {
    Declaring(key.kind, Collect(Peers(list, key, self), Reversing(key, baseline)))
  }

  function Declares(key: TargetKey, baseline: Option<int>): Automation -> Option<Intent> {
    (a: Automation) => if a.condition.Some? && References(a, key) then ReversalFor(a, key, baseline) else None
  }

  lemma DeclarationsAreEverybodys(list: seq<Automation>, key: TargetKey, self: Automation, baseline: Option<int>)
    requires Distinct(list) && Participates(list, key, self)
    ensures multiset(Collect(Peers(list, key, self), Reversing(key, baseline))) ==
      multiset(Collect(list, Declares(key, baseline)))
  {
    SelfIsNobodySpecial(list, key, self, Reversing(key, baseline), Reversing(key, baseline), Declares(key, baseline));
  }

  lemma OneDeclarationEach(list: seq<Automation>, key: TargetKey, self: Automation, baseline: Option<int>)
    requires Distinct(list)
    ensures DistinctClaimants(Collect(Peers(list, key, self), Reversing(key, baseline)))
  {
    PeersDistinct(list, key, self);
    CollectedDistinct(Peers(list, key, self), Reversing(key, baseline));
  }

  /** Every Automation sharing the target reports the same disagreement, entry for entry. */
  lemma SameReportFromEverybody(list: seq<Automation>, key: TargetKey, self: Automation, other: Automation,
                                baseline: Option<int>)
    requires Distinct(list) && Participates(list, key, self) && Participates(list, key, other)
    ensures ReportedBy(list, key, self, baseline) == ReportedBy(list, key, other, baseline)
  {
    DeclarationsAreEverybodys(list, key, self, baseline);
    DeclarationsAreEverybodys(list, key, other, baseline);
    OneDeclarationEach(list, key, self, baseline);
    ReportForgetsOrder(key.kind, Collect(Peers(list, key, self), Reversing(key, baseline)),
                       Collect(Peers(list, key, other), Reversing(key, baseline)));
  }

  /** Some listed Automation that references the target would hand it back as `intent` says. */
  ghost predicate Voiced(list: seq<Automation>, key: TargetKey, baseline: Option<int>, intent: Intent) {
    exists i :: 0 <= i < |list| && Declares(key, baseline)(list[i]) == Some(intent)
  }

  ghost predicate TwoDisagree(list: seq<Automation>, key: TargetKey, baseline: Option<int>) {
    exists x, y :: Voiced(list, key, baseline, x) && Voiced(list, key, baseline, y) && x.level != y.level
  }

  lemma VoicedAreCollected(list: seq<Automation>, key: TargetKey, baseline: Option<int>)
    ensures forall x :: Voiced(list, key, baseline, x) <==> x in Collect(list, Declares(key, baseline))
  {
    CollectMembers(list, Declares(key, baseline));
  }

  lemma SomeDiffer(intents: seq<Intent>)
    ensures (exists i, j :: 0 <= i < |intents| && 0 <= j < |intents| && intents[i].level != intents[j].level) <==>
      exists x, y :: x in intents && y in intents && x.level != y.level
  {
    if x, y :| x in intents && y in intents && x.level != y.level {
      var i, j := Position(intents, x), Position(intents, y);
      assert intents[i].level != intents[j].level;
    }
  }

  /** A disagreement is reported exactly when two listed Automations declare different levels. */
  lemma ReportedExactlyWhenTwoDisagree(list: seq<Automation>, key: TargetKey, self: Automation, baseline: Option<int>)
    requires Distinct(list) && Participates(list, key, self)
    ensures ReportedBy(list, key, self, baseline) != [] <==> TwoDisagree(list, key, baseline)
  {
    var mine := Collect(Peers(list, key, self), Reversing(key, baseline));
    DeclarationsAreEverybodys(list, key, self, baseline);
    SameMembers(mine, Collect(list, Declares(key, baseline)));
    ReportsExactlyWhenTwoDiffer(key.kind, mine);
    SomeDiffer(mine);
    VoicedAreCollected(list, key, baseline);
  }

  /** With nobody claiming, a pass hands the target back to the fold of everything declared. */
  lemma ReleaseFoldsWhatIsDeclared(view: View, list: seq<Automation>, key: TargetKey, self: Automation, s: Server,
                                   now: string)
    requires Handled(key.kind) && Recorded(key.kind, s)
    requires forall a | a in list :: !Contributes(view, a)
    ensures Reconciled(view, list, key, self, false, s, now) ==
      Cleared(Restored(key.kind, s,
                       ReleaseLevel(Collect(Peers(list, key, self), Reversing(key, BaselineOf(key.kind, s))))))
  {
    var peers, baseline := Peers(list, key, self), BaselineOf(key.kind, s);
    CollectMembers(list, OtherPeer(key, self));
    forall a | a in peers ensures !Stands(view, self, false, a) {
      if a in Collect(list, OtherPeer(key, self)) {
        var i :| 0 <= i < |list| && OtherPeer(key, self)(list[i]) == Some(a);
        assert list[i] in list;
      }
    }
    CollectNothing(peers, Asking(view, key, self, false));
    CollectAgrees(peers, Yielding(view, key, self, false, baseline), Reversing(key, baseline));
  }

  /** The entry an Event singles out is the level a release then applies, in words and in effect. */
  lemma TheReportForetellsTheRelease(view: View, list: seq<Automation>, key: TargetKey, self: Automation,
                                     s: Server, now: string, i: int)
    requires Handled(key.kind) && Recorded(key.kind, s)
    requires forall a | a in list :: !Contributes(view, a)
    requires FirstLeast(ReportedBy(list, key, self, BaselineOf(key.kind, s)), i)
    ensures var named := ReportedBy(list, key, self, BaselineOf(key.kind, s))[i];
      && Reconciled(view, list, key, self, false, s, now) == Cleared(Levelled(key.kind, s, named.desired))
      && named.level == Describe(key.kind, named.desired)
  {
    var intents := Collect(Peers(list, key, self), Reversing(key, BaselineOf(key.kind, s)));
    ReleaseFoldsWhatIsDeclared(view, list, key, self, s, now);
    MostRestrictiveIsTheFold(key.kind, intents, i);
    assert ReleaseLevel(intents) == Some(MinLevel(intents));
  }
}
