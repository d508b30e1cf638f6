/**
 * The counterfactual a dry run reports is what would happen
 * (internal/controller/arbitration.go:414-429, 522-560, 599-611).
 */
module Preview {
  import opened Text
  import opened Arbiter
  import opened TargetKinds
  import opened ApiServer
  import opened Collecting
  import opened Automations
  import opened ClaimProtocol
  import opened ClaimRuns
  import opened Evaluation
  import opened Disagreement
  import opened Arbitration
  import opened Confluence

  /** The same Automation with every hold on it lifted. */
  function PutInForce(a: Automation): (b: Automation)
    ensures b.InForce() && SameSpec(a, b)
  {
    a.(suspend := false, dryRun := false, deleting := false)
  }

  // --------------------------------------------------------------- the claims, with and without

  /** What the other peers ask in a pass by `self` does not depend on self's own stance. */
  function OtherClaims(view: View, list: seq<Automation>, key: TargetKey, self: Automation): seq<Intent> {
    Collect(Collect(list, OtherPeer(key, self)), Holding(view, key))
  }

  function OwnClaim(key: TargetKey, self: Automation, claiming: bool): seq<Intent> {
    var own := ClaimFor(self, key, claiming);
    if own.Some? then [own.value] else []
  }

  lemma OthersStandAlone(view: View, list: seq<Automation>, key: TargetKey, self: Automation, claiming: bool)
    ensures Collect(Collect(list, OtherPeer(key, self)), Asking(view, key, self, claiming)) ==
      OtherClaims(view, list, key, self)
  {
    var others := Collect(list, OtherPeer(key, self));
    CollectMembers(list, OtherPeer(key, self));
    CollectAgrees(others, Asking(view, key, self, claiming), Holding(view, key));
  }

  /** A pass's claims: self's own, if it makes one, and then the others'. */
  lemma ClaimsSplit(view: View, list: seq<Automation>, key: TargetKey, self: Automation, claiming: bool)
    ensures Claims(view, list, key, self, claiming) ==
      OwnClaim(key, self, claiming) + OtherClaims(view, list, key, self)
  {
    var f := Asking(view, key, self, claiming);
    CollectConcat([self], Collect(list, OtherPeer(key, self)), f);
    CollectSnoc([], self, f);
    assert [] + [self] == [self];
    OthersStandAlone(view, list, key, self, claiming);
  }

  lemma OthersIgnoreHolds(view: View, list: seq<Automation>, key: TargetKey, self: Automation)
    ensures OtherClaims(view, list, key, PutInForce(self)) == OtherClaims(view, list, key, self)
  {
    CollectAgrees(list, OtherPeer(key, PutInForce(self)), OtherPeer(key, self));
  }

  lemma AppendOrPrepend<T>(x: T, s: seq<T>)
    ensures multiset([x] + s) == multiset(s + [x])
  {
  }

  /** The preview folds the very claims the pass would fold, in another order. */
  lemma SameClaims(view: View, list: seq<Automation>, key: TargetKey, self: Automation)
    requires LevelFor(self, self.actions, key).Some?
    ensures var claim := Intent(self.Claimant(), LevelFor(self, self.actions, key).value);
      && ClaimFor(self, key, true) == Some(claim)
      && multiset(Claims(view, list, key, PutInForce(self), true)) ==
        multiset(Claims(view, list, key, self, false) + [claim])
  {
    var claim := Intent(self.Claimant(), LevelFor(self, self.actions, key).value);
    SameSpecSameOpinions(self, PutInForce(self), key, None, true);
    ClaimsSplit(view, list, key, PutInForce(self), true);
    ClaimsSplit(view, list, key, self, false);
    OthersIgnoreHolds(view, list, key, self);
    assert [] + OtherClaims(view, list, key, self) == OtherClaims(view, list, key, self);
    AppendOrPrepend(claim, OtherClaims(view, list, key, self));
  }

  /**
   * What is previewed for an Automation held out of force is, field by field, what a pass would report
   * with it in force and its condition holding. The fold behind the live answer is not touched by it.
   */
  lemma PreviewIsFaithful(view: View, list: seq<Automation>, key: TargetKey, self: Automation,
                          preview: bool, baseline: Option<int>)
    requires LevelFor(self, self.actions, key).Some?
    ensures var shown := PreviewFor(key.kind, self, key, Claims(view, list, key, self, false));
      var report := Report(key, PutInForce(self), true, preview, Peers(list, key, PutInForce(self)),
                         Claims(view, list, key, PutInForce(self), true), baseline);
      && shown.desired == report.desired && shown.effective == report.effective
      && shown.level == report.level && shown.deferredBy == report.deferredBy && shown.effective.Some?
  {
    var claims := Claims(view, list, key, self, false);
    var would := Claims(view, list, key, PutInForce(self), true);
    var claim := ClaimFor(self, key, true).value;
    SameSpecSameOpinions(self, PutInForce(self), key, None, true);
    SameClaims(view, list, key, self);
    ResolveForgetsOrder(would, claims + [claim]);
  }

  /** With no level asked for, nothing is previewed, and indeed putting it in force adds no claim. */
  lemma NothingToPreview(view: View, list: seq<Automation>, key: TargetKey, self: Automation)
    requires LevelFor(self, self.actions, key).None?
    ensures PreviewFor(key.kind, self, key, Claims(view, list, key, self, false)) ==
      TargetPreview(None, None, "", [], [])
    ensures Claims(view, list, key, PutInForce(self), true) == Claims(view, list, key, self, false)
  {
    SameSpecSameOpinions(self, PutInForce(self), key, None, true);
    ClaimsSplit(view, list, key, PutInForce(self), true);
    ClaimsSplit(view, list, key, self, false);
    OthersIgnoreHolds(view, list, key, self);
  }

  // ------------------------------------------------------------------------ who would give way

  lemma {:induction false} FilterKeepsSorted(names: seq<string>, f: string -> Option<string>)
    requires SortedBy(names, Itself) && forall x | x in names && f(x).Some? :: f(x).value == x
    ensures SortedBy(Collect(names, f), Itself)
    ensures forall x | x in Collect(names, f) :: x in names
  {
    if |names| > 0 {
      var front, last := names[..|names| - 1], names[|names| - 1];
      assert forall x | x in front :: x in names;
      FilterKeepsSorted(front, f);
      forall x | x in Collect(front, f) ensures Leq(x, last) {
        var i := Position(front, x);
        assert Leq(Itself(names[i]), Itself(last));
      }
    }
  }

  function NotYet(before: seq<string>, self: string): string -> Option<string> {
    (name: string) => if name == self || name in before then None else Some(name)
  }

  /** The names outside `before` among all the claimants are those whose intents sit at the level. */
  lemma {:induction false} NamesNotBefore(intents: seq<Intent>, level: int, before: seq<string>, self: string)
    requires forall intent | intent in intents ::
      intent.claimant != self && (intent.claimant in before <==> intent.level != level)
    ensures Collect(Claimants(intents), NotYet(before, self)) == Names(intents, level, true)
  {
    if |intents| > 0 {
      var front, last := intents[..|intents| - 1], intents[|intents| - 1];
      assert last in intents && forall i | i in front :: i in intents;
      NamesNotBefore(front, level, before, self);
      CollectSnoc(Claimants(front), last.claimant, NotYet(before, self));
    }
  }

  lemma NewlyDeferredIs(before: seq<string>, after: seq<string>, self: string)
    ensures NewlyDeferred(before, after, self) == Collect(after, NotYet(before, self))
  {
    var f := (name: string) => if name == self || name in before then None else Some(name);
    CollectAgrees(after, f, NotYet(before, self));
  }

  lemma MinLevelWithOneMore(claims: seq<Intent>, claim: Intent)
    requires |claims| > 0
    ensures MinLevel(claims + [claim]) == Min(MinLevel(claims), claim.level)
  {
    assert (claims + [claim])[..|claims|] == claims;
  }

  lemma NamesWithOneMore(claims: seq<Intent>, claim: Intent, level: int, at: bool)
    ensures Names(claims + [claim], level, at) ==
      Names(claims, level, at) + (if (claim.level == level) == at then [claim.claimant] else [])
  {
    assert (claims + [claim])[..|claims|] == claims;
  }

  lemma {:induction false} AllBelow(claims: seq<Intent>, level: int)
    requires forall c | c in claims :: c.level != level
    ensures Names(claims, level, false) == Claimants(claims)
  {
    if |claims| > 0 {
      assert claims[|claims| - 1] in claims;
      AllBelow(claims[..|claims| - 1], level);
    }
  }

  /** The deferred of a fold, by name: with one claim each, exactly those off the level. */
  lemma DeferredByName(claims: seq<Intent>, level: int)
    requires DistinctClaimants(claims)
    ensures forall c | c in claims :: c.claimant in Sorted(Names(claims, level, false)) <==> c.level != level
  {
    NamesAre(claims, level, false);
    SameMembers(Names(claims, level, false), Sorted(Names(claims, level, false)));
    forall c | c in claims ensures c.claimant in Names(claims, level, false) <==> c.level != level {
      var i := Position(claims, c);
      if c.claimant in Names(claims, level, false) {
        var j :| 0 <= j < |claims| && claims[j].claimant == c.claimant && (claims[j].level == level) == false;
        assert i == j;
      }
    }
  }

  lemma LowerClaimDefersEverybody(claims: seq<Intent>, claim: Intent)
    requires |claims| > 0 && claim.level < MinLevel(claims)
    ensures Resolved(claims + [claim]).value.deferred == Sorted(Claimants(claims))
  {
    MinLevelWithOneMore(claims, claim);
    NamesWithOneMore(claims, claim, claim.level, false);
    MinLevelIsAttained(claims);
    forall c | c in claims ensures c.level != claim.level { var i := Position(claims, c); }
    AllBelow(claims, claim.level);
    assert Claimants(claims) + [] == Claimants(claims);
  }

  lemma FilterOfSorted(names: seq<string>, before: seq<string>, self: string)
    ensures Collect(Sorted(names), NotYet(before, self)) == Sorted(Collect(names, NotYet(before, self)))
  {
    var f := NotYet(before, self);
    FilterKeepsSorted(Sorted(names), f);
    CollectForgetsOrder(Sorted(names), names, f);
    SortedIsUnique(Collect(Sorted(names), f), Sorted(Collect(names, f)), Itself);
  }

  /** A claim strictly below all of them displaces exactly the ones that were getting their way. */
  lemma LowerClaimDefersTheWinners(claims: seq<Intent>, claim: Intent)
    requires |claims| > 0 && DistinctClaimants(claims) && forall c | c in claims :: c.claimant != claim.claimant
    requires claim.level < MinLevel(claims)
    ensures NewlyDeferred(Resolved(claims).value.deferred, Resolved(claims + [claim]).value.deferred, claim.claimant)
         == Resolved(claims).value.winners
  {
    var level := MinLevel(claims);
    var before := Sorted(Names(claims, level, false));
    LowerClaimDefersEverybody(claims, claim);
    NewlyDeferredIs(before, Sorted(Claimants(claims)), claim.claimant);
    FilterOfSorted(Claimants(claims), before, claim.claimant);
    DeferredByName(claims, level);
    NamesNotBefore(claims, level, before, claim.claimant);
  }

  lemma DeferredWithOneMore(claims: seq<Intent>, claim: Intent, level: int)
    ensures forall x | x in Sorted(Names(claims + [claim], level, false)) ::
      x == claim.claimant || x in Sorted(Names(claims, level, false))
  {
    NamesWithOneMore(claims, claim, level, false);
    SameMembers(Names(claims, level, false), Sorted(Names(claims, level, false)));
    SameMembers(Names(claims + [claim], level, false), Sorted(Names(claims + [claim], level, false)));
  }

  lemma NobodyNew(before: seq<string>, after: seq<string>, self: string)
    requires forall x | x in after :: x == self || x in before
    ensures NewlyDeferred(before, after, self) == []
  {
    NewlyDeferredIs(before, after, self);
    CollectNothing(after, NotYet(before, self));
  }

  lemma LoneClaimDefersNobody(claim: Intent)
    ensures Resolved([claim]).value.deferred == []
  {
    assert Names([claim], claim.level, false) == [];
  }

  lemma NoLowerClaimAddsNobody(claims: seq<Intent>, claim: Intent)
    requires |claims| > 0 && MinLevel(claims) <= claim.level
    ensures forall x | x in Resolved(claims + [claim]).value.deferred ::
      x == claim.claimant || x in Resolved(claims).value.deferred
  {
    MinLevelWithOneMore(claims, claim);
    DeferredWithOneMore(claims, claim, MinLevel(claims));
  }

  /** Any other claim displaces nobody who was not displaced already. */
  lemma OtherClaimDefersNobody(claims: seq<Intent>, claim: Intent)
    requires |claims| == 0 || MinLevel(claims) <= claim.level
    ensures NewlyDeferred(if |claims| == 0 then [] else Resolved(claims).value.deferred,
                          Resolved(claims + [claim]).value.deferred, claim.claimant) == []
  {
    if |claims| > 0 {
      NoLowerClaimAddsNobody(claims, claim);
      NobodyNew(Resolved(claims).value.deferred, Resolved(claims + [claim]).value.deferred, claim.claimant);
    } else {
      LoneClaimDefersNobody(claim);
      assert claims + [claim] == [claim];
      NobodyNew([], [], claim.claimant);
    }
  }

  // ------------------------------------------------------------------- one claim per claimant

  lemma {:induction false} CollectedDistinct(s: seq<Automation>, f: Automation -> Option<Intent>)
    requires Distinct(s) && forall a | a in s && f(a).Some? :: f(a).value.claimant == a.Claimant()
    ensures DistinctClaimants(Collect(s, f))
    ensures forall c | c in Collect(s, f) :: exists a :: a in s && c.claimant == a.Claimant()
  {
    if |s| > 0 {
      var front, last := s[..|s| - 1], s[|s| - 1];
      assert last in s && forall a | a in front :: a in s;
      CollectedDistinct(front, f);
      forall c | c in Collect(front, f) ensures c.claimant != last.Claimant() {
        var a :| a in front && c.claimant == a.Claimant();
        var i := Position(front, a);
        assert s[i] == a;
      }
    }
  }

  lemma {:induction false} OthersDistinct(list: seq<Automation>, key: TargetKey, self: Automation)
    requires Distinct(list)
    ensures Distinct(Collect(list, OtherPeer(key, self)))
    ensures forall a | a in Collect(list, OtherPeer(key, self)) :: a in list && a.Claimant() != self.Claimant()
  {
    if |list| > 0 {
      var front, last := list[..|list| - 1], list[|list| - 1];
      OthersDistinct(front, key, self);
      forall a | a in Collect(front, OtherPeer(key, self)) ensures a.Claimant() != last.Claimant() {
        var i := Position(front, a);
        assert list[i] == a;
      }
    }
  }

  lemma PeersDistinct(list: seq<Automation>, key: TargetKey, self: Automation)
    requires Distinct(list)
    ensures Distinct(Peers(list, key, self))
  {
    OthersDistinct(list, key, self);
  }

  /** Each Automation claims a target at most once, so `who would give way` is a question about names. */
  lemma OneClaimEach(view: View, list: seq<Automation>, key: TargetKey, self: Automation)
    requires Distinct(list)
    ensures DistinctClaimants(Claims(view, list, key, self, false))
    ensures forall c | c in Claims(view, list, key, self, false) :: c.claimant != self.Claimant()
  {
    var others := Collect(list, OtherPeer(key, self));
    OthersDistinct(list, key, self);
    ClaimsSplit(view, list, key, self, false);
    CollectedDistinct(others, Holding(view, key));
    assert [] + OtherClaims(view, list, key, self) == OtherClaims(view, list, key, self);
  }

  /** WouldDefer: the current winners if the added claim is strictly lower than all of them, else nobody. */
  lemma WouldDeferIsExact(view: View, list: seq<Automation>, key: TargetKey, self: Automation)
    requires Distinct(list) && LevelFor(self, self.actions, key).Some?
    ensures var claims := Claims(view, list, key, self, false);
      PreviewFor(key.kind, self, key, claims).wouldDefer ==
        if |claims| > 0 && LevelFor(self, self.actions, key).value < MinLevel(claims)
        then Resolved(claims).value.winners else []
  {
    var claims := Claims(view, list, key, self, false);
    var claim := ClaimFor(self, key, true).value;
    OneClaimEach(view, list, key, self);
    if |claims| > 0 && claim.level < MinLevel(claims) {
      LowerClaimDefersTheWinners(claims, claim);
    } else {
      OtherClaimDefersNobody(claims, claim);
    }
  }

  // --------------------------------------------------------- what a silent Automation does change

  /** What the other peers hand the target back at does not depend on self's stance either. */
  function OtherReversals(view: View, list: seq<Automation>, key: TargetKey, self: Automation,
                          baseline: Option<int>): seq<Intent>
  {
    Collect(Collect(list, OtherPeer(key, self)), Returning(view, key, baseline))
  }

  function OwnReversal(key: TargetKey, self: Automation, claiming: bool, baseline: Option<int>): seq<Intent> {
    var own := ReversalFor(self, key, baseline);
    if claiming || own.None? then [] else [own.value]
  }

  lemma OthersYieldAlone(view: View, list: seq<Automation>, key: TargetKey, self: Automation, claiming: bool,
                         baseline: Option<int>)
    ensures Collect(Collect(list, OtherPeer(key, self)), Yielding(view, key, self, claiming, baseline))
         == OtherReversals(view, list, key, self, baseline)
  {
    CollectMembers(list, OtherPeer(key, self));
    CollectAgrees(Collect(list, OtherPeer(key, self)), Yielding(view, key, self, claiming, baseline),
                  Returning(view, key, baseline));
  }

  /** A pass's reversals: self's own, unless it claims, and then the others'. */
  lemma ReversalsSplit(view: View, list: seq<Automation>, key: TargetKey, self: Automation, claiming: bool, s: Server)
    requires Handled(key.kind)
    ensures var baseline := BaselineOf(key.kind, s);
      Reversals(view, list, key, self, claiming, s) ==
        OwnReversal(key, self, claiming, baseline) + OtherReversals(view, list, key, self, baseline)
  {
    var f := Yielding(view, key, self, claiming, BaselineOf(key.kind, s));
    CollectConcat([self], Collect(list, OtherPeer(key, self)), f);
    CollectSnoc([], self, f);
    assert [] + [self] == [self];
    OthersYieldAlone(view, list, key, self, claiming, BaselineOf(key.kind, s));
  }

  lemma OtherReversalsIgnoreHolds(view: View, list: seq<Automation>, key: TargetKey, self: Automation,
                                  baseline: Option<int>)
    ensures OtherReversals(view, list, key, PutInForce(self), baseline) ==
      OtherReversals(view, list, key, self, baseline)
  {
    CollectAgrees(list, OtherPeer(key, PutInForce(self)), OtherPeer(key, self));
  }

  /** The level a release leaves. */
  function HandedTo(kind: Kind, s: Server, reversals: seq<Intent>): int {
    if |reversals| == 0 then s.level else Written(kind, MinLevel(reversals))
  }

  lemma ReleasesDifferByLevel(kind: Kind, s: Server, a: seq<Intent>, b: seq<Intent>)
    requires Handled(kind)
    ensures Cleared(Restored(kind, s, ReleaseLevel(a))) == Cleared(Restored(kind, s, ReleaseLevel(b))) <==>
      HandedTo(kind, s, a) == HandedTo(kind, s, b)
  {
    assert Restored(kind, s, ReleaseLevel(a)) == PatchLevel(s, HandedTo(kind, s, a));
    assert Restored(kind, s, ReleaseLevel(b)) == PatchLevel(s, HandedTo(kind, s, b));
  }

  lemma {:induction false} MinLevelInFront(own: Intent, rest: seq<Intent>)
    requires |rest| > 0
    ensures MinLevel([own] + rest) == Min(own.level, MinLevel(rest))
  {
    var all, front := [own] + rest, rest[..|rest| - 1];
    if |rest| == 1 {
      assert all[..1] == [own];
    } else {
      MinLevelInFront(own, front);
      assert all[..|all| - 1] == [own] + front;
    }
  }

  /**
   * Putting self in force changes nothing about the target: it is not claimed and was not; somebody
   * else claims it; self hands nothing back; or the others hand it back just as low without self. Each
   * can be checked before a pass.
   */
  predicate ChangesNothing(view: View, list: seq<Automation>, key: TargetKey, self: Automation, s: Server)
    requires Handled(key.kind)
  {
    var baseline := BaselineOf(key.kind, s);
    var own, rest := ReversalFor(self, key, baseline), OtherReversals(view, list, key, self, baseline);
    || !Recorded(key.kind, s)
    || OtherClaims(view, list, key, self) != []
    || own.None?
    || (if |rest| == 0 then Written(key.kind, own.value.level) == s.level
        else Written(key.kind, Min(own.value.level, MinLevel(rest))) == Written(key.kind, MinLevel(rest)))
  }

  /** An Automation that asks for no level leaves the claims as they are, and takes back its reversal. */
  lemma SilentPasses(view: View, list: seq<Automation>, key: TargetKey, self: Automation, s: Server)
    requires Handled(key.kind) && LevelFor(self, self.actions, key).None?
    ensures var baseline := BaselineOf(key.kind, s);
      && Claims(view, list, key, self, false) == OtherClaims(view, list, key, self)
      && Claims(view, list, key, PutInForce(self), true) == OtherClaims(view, list, key, self)
      && Reversals(view, list, key, self, false, s) ==
           OwnReversal(key, self, false, baseline) + OtherReversals(view, list, key, self, baseline)
      && Reversals(view, list, key, PutInForce(self), true, s) == OtherReversals(view, list, key, self, baseline)
  {
    var baseline, held := BaselineOf(key.kind, s), PutInForce(self);
    SameSpecSameOpinions(self, held, key, baseline, true);
    ClaimsSplit(view, list, key, self, false);
    ClaimsSplit(view, list, key, held, true);
    OthersIgnoreHolds(view, list, key, self);
    ReversalsSplit(view, list, key, self, false, s);
    ReversalsSplit(view, list, key, held, true, s);
    OtherReversalsIgnoreHolds(view, list, key, self, baseline);
    assert [] + OtherClaims(view, list, key, self) == OtherClaims(view, list, key, self);
    assert [] + OtherReversals(view, list, key, self, baseline) == OtherReversals(view, list, key, self, baseline);
  }

  /**
   * An Automation that asks for no level on a target still has a say while it is out of force: its
   * declared reversal counts in a release. So putting it in force can change the target, and does
   * exactly when none of the four conditions holds.
   */
  lemma SilentAutomationChangesNothingWhen(view: View, list: seq<Automation>, key: TargetKey, self: Automation,
                                           s: Server, now: string)
    requires Handled(key.kind) && LevelFor(self, self.actions, key).None?
    ensures Reconciled(view, list, key, PutInForce(self), true, s, now) ==
      Reconciled(view, list, key, self, false, s, now)
      <==> ChangesNothing(view, list, key, self, s)
  {
    SilentPasses(view, list, key, self, s);
    var baseline := BaselineOf(key.kind, s);
    var own, rest := ReversalFor(self, key, baseline), OtherReversals(view, list, key, self, baseline);
    if Recorded(key.kind, s) && OtherClaims(view, list, key, self) == [] {
      if own.None? {
        assert OwnReversal(key, self, false, baseline) + rest == rest;
      } else {
        assert OwnReversal(key, self, false, baseline) + rest == [own.value] + rest;
        ReleasesDifferByLevel(key.kind, s, rest, [own.value] + rest);
        if |rest| > 0 { MinLevelInFront(own.value, rest); } else { assert [own.value] + rest == [own.value]; }
      }
    }
  }

  /** One such target: a Deployment at 0 that only this Automation references and would hand back at 3. */
  lemma SilentAutomationChangesThis(view: View, now: string)
    returns (key: TargetKey, self: Automation, s: Server)
    ensures LevelFor(self, self.actions, key).None? && !self.InForce() && Handled(key.kind)
    ensures Reconciled(view, [self], key, PutInForce(self), true, s, now) !=
      Reconciled(view, [self], key, self, false, s, now)
  {
    key := TargetKey(Deployment, "media", "sonarr");
    var up := Action(Scale, Some(TargetRef(Deployment, "media", "sonarr")), Some(3), None, None);
    self := Automation("media", "night", Some(When("unifi", map[])), [], [up], Unset, true, false, false, Some(true));
    s := Server(0, map[BASELINE_REPLICAS := "5"], 1);
    assert LevelFor(self, self.onExit, key) == Some(3);
    CollectSnoc([], self, OtherPeer(key, self));
    assert [] + [self] == [self] && Collect([self], OtherPeer(key, self)) == [];
    SilentAutomationChangesNothingWhen(view, [self], key, self, s, now);
  }
}
