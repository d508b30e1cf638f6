/**
 * What a pass does to a target and says about it, from the fields of the Automations that reference it
 * (internal/controller/arbitration.go:84-222, 323-454, 704-742).
 */
module Outcomes {
  import opened Text
  import opened Arbiter
  import opened TargetKinds
  import opened ApiServer
  import opened Collecting
  import opened Automations
  import opened ClaimProtocol
  import opened ClaimRuns
  import opened Evaluation
  import opened Disagreement
  import opened Arbitration
  import opened Fields

  // ----------------------------------------------------------------- who has a say, and what

  /** A listed Automation by another name, with a condition, that mentions the target. */
  ghost predicate Peer(list: seq<Automation>, key: TargetKey, self: Automation, a: Automation) {
    a in list && a.condition.Some? && FullName(a) != FullName(self) && Mentioned(a, key)
  }

  ghost predicate HasASay(list: seq<Automation>, key: TargetKey, self: Automation, a: Automation) {
    a == self || Peer(list, key, self, a)
  }

  /** It stands behind its claim: self as it was told, a peer if it acts and its condition holds. */
  ghost predicate Claiming(view: View, self: Automation, claiming: bool, a: Automation) {
    if a == self then claiming else Acting(a) && Believed(view, a)
  }

  /** `a` claims the target at this level. */
  ghost predicate Wants(view: View, list: seq<Automation>, key: TargetKey, self: Automation, claiming: bool,
                        a: Automation, level: int)
  {
    HasASay(list, key, self, a) && Claiming(view, self, claiming, a) && FirstSays(a, a.actions, key, level)
  }

  /** `a` claims nothing and would hand the target back at this level. */
  ghost predicate Offers(view: View, list: seq<Automation>, key: TargetKey, self: Automation, claiming: bool,
                         baseline: Option<int>, a: Automation, level: int)
  {
    HasASay(list, key, self, a) && !Claiming(view, self, claiming, a) && GivesBack(a, key, baseline, level)
  }

  ghost predicate Unclaimed(view: View, list: seq<Automation>, key: TargetKey, self: Automation, claiming: bool) {
    forall a, level :: !Wants(view, list, key, self, claiming, a, level)
  }

  /** The lowest level anybody claims the target at. */
  ghost predicate LeastWanted(view: View, list: seq<Automation>, key: TargetKey, self: Automation, claiming: bool,
                              level: int)
  {
    && (exists a :: Wants(view, list, key, self, claiming, a, level))
    && (forall a, other | Wants(view, list, key, self, claiming, a, other) :: level <= other)
  }

  ghost predicate LeastOffered(view: View, list: seq<Automation>, key: TargetKey, self: Automation, claiming: bool,
                               baseline: Option<int>, level: int)
  {
    && (exists a :: Offers(view, list, key, self, claiming, baseline, a, level))
    && (forall a, other | Offers(view, list, key, self, claiming, baseline, a, other) :: level <= other)
  }

  // ---------------------------------------------------------- what the controller gathers

  lemma PeersMean(list: seq<Automation>, key: TargetKey, self: Automation, a: Automation)
    ensures a in Peers(list, key, self) <==> HasASay(list, key, self, a)
  {
    CollectMembers(list, OtherPeer(key, self));
    ReferencesMeans(a, key);
    if Peer(list, key, self, a) {
      var i :| 0 <= i < |list| && list[i] == a;
      assert OtherPeer(key, self)(list[i]) == Some(a);
    }
  }

  lemma StandsMeans(view: View, list: seq<Automation>, key: TargetKey, self: Automation, claiming: bool, a: Automation)
    requires HasASay(list, key, self, a)
    ensures Stands(view, self, claiming, a) <==> Claiming(view, self, claiming, a)
  {
    MatchingMeans(view, a);
  }

  /** The claims gathered are those of the Automations that want the target, each in its own name. */
  lemma ClaimsMean(view: View, list: seq<Automation>, key: TargetKey, self: Automation, claiming: bool, claim: Intent)
    ensures claim in Claims(view, list, key, self, claiming) <==>
      exists a :: claim.claimant == FullName(a) && Wants(view, list, key, self, claiming, a, claim.level)
  {
    var peers, asks := Peers(list, key, self), Asking(view, key, self, claiming);
    CollectMembers(peers, asks);
    forall a | a in peers
      ensures asks(a) == Some(claim) <==>
        claim.claimant == FullName(a) && Wants(view, list, key, self, claiming, a, claim.level)
    {
      PeersMean(list, key, self, a);
      StandsMeans(view, list, key, self, claiming, a);
      ClaimMeans(a, key, Stands(view, self, claiming, a), claim);
    }
    if a :| claim.claimant == FullName(a) && Wants(view, list, key, self, claiming, a, claim.level) {
      PeersMean(list, key, self, a);
      var i :| 0 <= i < |peers| && peers[i] == a;
    }
  }

  /** And the reversals those of the ones that claim nothing. */
  lemma YieldedMean(view: View, list: seq<Automation>, key: TargetKey, self: Automation, claiming: bool,
                    baseline: Option<int>, intent: Intent)
    ensures intent in Collect(Peers(list, key, self), Yielding(view, key, self, claiming, baseline)) <==>
      exists a :: intent.claimant == FullName(a) && Offers(view, list, key, self, claiming, baseline, a, intent.level)
  {
    var peers, handed := Peers(list, key, self), Yielding(view, key, self, claiming, baseline);
    CollectMembers(peers, handed);
    forall a | a in peers
      ensures handed(a) == Some(intent) <==>
        intent.claimant == FullName(a) && Offers(view, list, key, self, claiming, baseline, a, intent.level)
    {
      PeersMean(list, key, self, a);
      StandsMeans(view, list, key, self, claiming, a);
      ReversalMeans(a, key, baseline, intent);
    }
    if a :| intent.claimant == FullName(a) && Offers(view, list, key, self, claiming, baseline, a, intent.level) {
      PeersMean(list, key, self, a);
      var i :| 0 <= i < |peers| && peers[i] == a;
    }
  }

  // ------------------------------------------------------------------ where a pass leaves it

  lemma LeastIsMin(intents: seq<Intent>, level: int)
    requires |intents| > 0
    ensures MinLevel(intents) == level <==>
      (exists x :: x in intents && x.level == level) && forall x | x in intents :: level <= x.level
  {
    MinLevelIsAttained(intents);
    var i :| 0 <= i < |intents| && intents[i].level == MinLevel(intents);
    assert intents[i] in intents;
  }

  lemma UnclaimedMeans(view: View, list: seq<Automation>, key: TargetKey, self: Automation, claiming: bool)
    ensures Unclaimed(view, list, key, self, claiming) <==> Claims(view, list, key, self, claiming) == []
  {
    var claims := Claims(view, list, key, self, claiming);
    forall a, level | Wants(view, list, key, self, claiming, a, level) ensures claims != [] {
      ClaimsMean(view, list, key, self, claiming, Intent(FullName(a), level));
    }
    if |claims| > 0 { ClaimsMean(view, list, key, self, claiming, claims[0]); }
  }

  /** The level the fold takes is the lowest wanted. */
  lemma LeastWantedMeans(view: View, list: seq<Automation>, key: TargetKey, self: Automation, claiming: bool,
                         level: int)
    ensures LeastWanted(view, list, key, self, claiming, level) <==>
      var claims := Claims(view, list, key, self, claiming); |claims| > 0 && MinLevel(claims) == level
  {
    var claims := Claims(view, list, key, self, claiming);
    if |claims| > 0 && MinLevel(claims) == level {
      LeastIsMin(claims, level);
      var x :| x in claims && x.level == level;
      ClaimsMean(view, list, key, self, claiming, x);
      forall a, other | Wants(view, list, key, self, claiming, a, other) ensures level <= other {
        ClaimsMean(view, list, key, self, claiming, Intent(FullName(a), other));
      }
    }
    if LeastWanted(view, list, key, self, claiming, level) {
      var a :| Wants(view, list, key, self, claiming, a, level);
      ClaimsMean(view, list, key, self, claiming, Intent(FullName(a), level));
      forall x | x in claims ensures level <= x.level { ClaimsMean(view, list, key, self, claiming, x); }
      LeastIsMin(claims, level);
    }
  }

  lemma NobodyOffersMeans(view: View, list: seq<Automation>, key: TargetKey, self: Automation, claiming: bool,
                          baseline: Option<int>)
    ensures Collect(Peers(list, key, self), Yielding(view, key, self, claiming, baseline)) == [] <==>
      forall a, level :: !Offers(view, list, key, self, claiming, baseline, a, level)
  {
    var reversals := Collect(Peers(list, key, self), Yielding(view, key, self, claiming, baseline));
    forall a, level | Offers(view, list, key, self, claiming, baseline, a, level) ensures reversals != [] {
      YieldedMean(view, list, key, self, claiming, baseline, Intent(FullName(a), level));
    }
    if |reversals| > 0 { YieldedMean(view, list, key, self, claiming, baseline, reversals[0]); }
  }

  lemma LeastOfferedMeans(view: View, list: seq<Automation>, key: TargetKey, self: Automation, claiming: bool,
                          baseline: Option<int>, level: int)
    ensures LeastOffered(view, list, key, self, claiming, baseline, level) <==>
      var reversals := Collect(Peers(list, key, self), Yielding(view, key, self, claiming, baseline));
      |reversals| > 0 && MinLevel(reversals) == level
  {
    var reversals := Collect(Peers(list, key, self), Yielding(view, key, self, claiming, baseline));
    if |reversals| > 0 && MinLevel(reversals) == level {
      LeastIsMin(reversals, level);
      var x :| x in reversals && x.level == level;
      YieldedMean(view, list, key, self, claiming, baseline, x);
      forall a, other | Offers(view, list, key, self, claiming, baseline, a, other) ensures level <= other {
        YieldedMean(view, list, key, self, claiming, baseline, Intent(FullName(a), other));
      }
    }
    if LeastOffered(view, list, key, self, claiming, baseline, level) {
      var a :| Offers(view, list, key, self, claiming, baseline, a, level);
      YieldedMean(view, list, key, self, claiming, baseline, Intent(FullName(a), level));
      forall x | x in reversals ensures level <= x.level {
        YieldedMean(view, list, key, self, claiming, baseline, x);
      }
      LeastIsMin(reversals, level);
    }
  }

  /** The names on a claimed target: everybody who wants it, in order. */
  ghost predicate NamesThem(view: View, list: seq<Automation>, key: TargetKey, self: Automation, claiming: bool,
                            names: seq<string>)
  {
    && SortedBy(names, Itself)
    && forall name :: name in names <==>
         exists a, level :: name == FullName(a) && Wants(view, list, key, self, claiming, a, level)
  }

  lemma {:induction false} ClaimantsAre(intents: seq<Intent>, name: string)
    ensures name in Claimants(intents) <==> exists x :: x in intents && x.claimant == name
  {
    if |intents| > 0 {
      ClaimantsAre(intents[..|intents| - 1], name);
      assert intents == intents[..|intents| - 1] + [intents[|intents| - 1]];
    }
  }

  lemma NamesAreTheirs(view: View, list: seq<Automation>, key: TargetKey, self: Automation, claiming: bool)
    ensures NamesThem(view, list, key, self, claiming, Sorted(Claimants(Claims(view, list, key, self, claiming))))
  {
    var claims := Claims(view, list, key, self, claiming);
    SameMembers(Claimants(claims), Sorted(Claimants(claims)));
    forall name
      ensures name in Claimants(claims) <==>
        exists a, level :: name == FullName(a) && Wants(view, list, key, self, claiming, a, level)
    {
      ClaimantsAre(claims, name);
      forall claim: Intent | claim.claimant == name
        ensures claim in claims <==>
          exists a :: name == FullName(a) && Wants(view, list, key, self, claiming, a, claim.level)
      {
        ClaimsMean(view, list, key, self, claiming, claim);
      }
      if a, level :| name == FullName(a) && Wants(view, list, key, self, claiming, a, level) {
        assert Intent(name, level) in claims;
      }
    }
  }

  /** The annotations of a target claimed by these, when it was found at `s`. */
  function MarkedBy(kind: Kind, s: Server, names: seq<string>, now: string): map<string, string>
    requires !kind.OtherKind?
  {
    if BaselineName(kind) in s.annotations then s.annotations + map[MARK + "claimed-by" := JoinComma(names)]
    else s.annotations + map[MARK + "claimed-by" := JoinComma(names), MARK + "claimed-at" := now,
                             BaselineName(kind) := BaselineText(kind, s.level)]
  }

  lemma MarkedByIs(kind: Kind, s: Server, names: seq<string>, now: string)
    requires Handled(kind)
    ensures Claimed(kind, s, JoinComma(names), now).annotations == MarkedBy(kind, s, names, now)
  {
    KindsMean(kind, s.level);
    AnnotationsDiffer();
  }

  lemma ClaimsSettle(kind: Kind, s: Server, claims: seq<Intent>, reversals: seq<Intent>, now: string)
    requires Handled(kind) && |claims| > 0
    ensures var t, names := Settled(kind, s, claims, reversals, now), Sorted(Claimants(claims));
      t.level == Placed(kind, MinLevel(claims)) && t.annotations == MarkedBy(kind, s, names, now)
  {
    KindsMean(kind, MinLevel(claims));
    MarkedByIs(kind, s, Sorted(Claimants(claims)), now);
  }

  /**
   * A completed pass over a target somebody wants: it stands at the lowest level anybody wants it at,
   * under the names of all who do, with the level it was found at recorded unless one was before.
   */
  lemma ClaimedPass(view: View, list: seq<Automation>, key: TargetKey, self: Automation, claiming: bool, s: Server,
                    now: string) returns (level: int, names: seq<string>)
    requires Handled(key.kind) && !Unclaimed(view, list, key, self, claiming)
    ensures LeastWanted(view, list, key, self, claiming, level) && NamesThem(view, list, key, self, claiming, names)
    ensures var t := Reconciled(view, list, key, self, claiming, s, now);
      t.level == Placed(key.kind, level) && t.annotations == MarkedBy(key.kind, s, names, now)
  {
    var claims := Claims(view, list, key, self, claiming);
    UnclaimedMeans(view, list, key, self, claiming);
    level, names := MinLevel(claims), Sorted(Claimants(claims));
    LeastWantedMeans(view, list, key, self, claiming, level);
    NamesAreTheirs(view, list, key, self, claiming);
    ClaimsSettle(key.kind, s, claims, Reversals(view, list, key, self, claiming, s), now);
  }

  /**
   * A completed pass over a target nobody wants. If it was claimed, it stands at the lowest level any
   * of them hands it back at, or where it stood if none does, and no mark of a claim is left on it. If
   * it was not, it is left alone.
   */
  lemma ReleasedPass(view: View, list: seq<Automation>, key: TargetKey, self: Automation, claiming: bool, s: Server,
                     now: string)
    requires Handled(key.kind) && Unclaimed(view, list, key, self, claiming)
    ensures var t, baseline := Reconciled(view, list, key, self, claiming, s, now), BaselineOf(key.kind, s);
      if BaselineName(key.kind) !in s.annotations then t == s
      else
        && t.annotations == s.annotations - MARKS
        && (forall level | LeastOffered(view, list, key, self, claiming, baseline, level) ::
              t.level == Placed(key.kind, level))
        && ((forall a, level :: !Offers(view, list, key, self, claiming, baseline, a, level)) ==> t.level == s.level)
        && ((exists a, level :: Offers(view, list, key, self, claiming, baseline, a, level)) ==>
              exists level :: LeastOffered(view, list, key, self, claiming, baseline, level))
  {
    UnclaimedMeans(view, list, key, self, claiming);
    NobodySettles(key.kind, s, Reversals(view, list, key, self, claiming, s), now);
    if BaselineName(key.kind) in s.annotations {
      ReleasedLevel(view, list, key, self, claiming, s, BaselineOf(key.kind, s));
    }
  }

  lemma NobodySettles(kind: Kind, s: Server, reversals: seq<Intent>, now: string)
    requires Handled(kind)
    ensures var t, r := Settled(kind, s, [], reversals, now), Restored(kind, s, ReleaseLevel(reversals));
      if BaselineName(kind) !in s.annotations then t == s
      else t.level == r.level && t.annotations == r.annotations - MARKS
  {
    KindsMean(kind, s.level);
  }

  lemma ReleasedLevel(view: View, list: seq<Automation>, key: TargetKey, self: Automation, claiming: bool, s: Server,
                      baseline: Option<int>)
    requires Handled(key.kind)
    ensures var t := Restored(key.kind, s,
        ReleaseLevel(Collect(Peers(list, key, self), Yielding(view, key, self, claiming, baseline))));
      && t.annotations == s.annotations
      && (forall level | LeastOffered(view, list, key, self, claiming, baseline, level) ::
            t.level == Placed(key.kind, level))
      && ((forall a, level :: !Offers(view, list, key, self, claiming, baseline, a, level)) ==> t.level == s.level)
      && ((exists a, level :: Offers(view, list, key, self, claiming, baseline, a, level)) ==>
            exists level :: LeastOffered(view, list, key, self, claiming, baseline, level))
  {
    var reversals := Collect(Peers(list, key, self), Yielding(view, key, self, claiming, baseline));
    NobodyOffersMeans(view, list, key, self, claiming, baseline);
    if |reversals| > 0 {
      var least := MinLevel(reversals);
      LeastOfferedMeans(view, list, key, self, claiming, baseline, least);
      KindsMean(key.kind, least);
      forall level | LeastOffered(view, list, key, self, claiming, baseline, level) ensures level == least {
        LeastOfferedMeans(view, list, key, self, claiming, baseline, level);
      }
    }
  }

  // ------------------------------------------------------------------- what a pass says of it

  /** What a pass by `self` reports of the target, `changed` apart. */
  function Said(view: View, list: seq<Automation>, key: TargetKey, self: Automation, claiming: bool, preview: bool,
                baseline: Option<int>): TargetOutcome
  {
    Report(key, self, claiming, preview, Peers(list, key, self), Claims(view, list, key, self, claiming), baseline)
  }

  lemma ReportHolds(key: TargetKey, self: Automation, claiming: bool, preview: bool, peers: seq<Automation>,
                    claims: seq<Intent>, baseline: Option<int>)
    ensures var o := Report(key, self, claiming, preview, peers, claims, baseline);
      && o.desired == SelfLevel(self, key, claiming, baseline)
      && o.preview == if preview then Some(PreviewFor(key.kind, self, key, claims)) else None
  {
  }

  lemma SelfLevelMeans(self: Automation, key: TargetKey, claiming: bool, baseline: Option<int>, level: int)
    ensures SelfLevel(self, key, claiming, baseline) == Some(level) <==>
      if claiming then FirstSays(self, self.actions, key, level) else GivesBack(self, key, baseline, level)
  {
    LevelForMeans(self, self.actions, key, level);
    ReversalMeans(self, key, baseline, Intent(FullName(self), level));
  }

  lemma PreviewedMeans(kind: Kind, self: Automation, key: TargetKey, claims: seq<Intent>, level: int)
    ensures PreviewFor(kind, self, key, claims).desired == Some(level) <==> FirstSays(self, self.actions, key, level)
  {
    LevelForMeans(self, self.actions, key, level);
  }

  /**
   * Desired is what the one that runs the pass asks for, or would hand the target back at; a preview,
   * if it is to be shown, is of the level it would ask for.
   */
  lemma ReportedDesire(view: View, list: seq<Automation>, key: TargetKey, self: Automation, claiming: bool,
                       preview: bool, baseline: Option<int>, level: int)
    ensures var o := Said(view, list, key, self, claiming, preview, baseline);
      && (o.desired == Some(level) <==>
            if claiming then FirstSays(self, self.actions, key, level) else GivesBack(self, key, baseline, level))
      && (o.preview.Some? <==> preview)
      && (preview ==> (o.preview.value.desired == Some(level) <==> FirstSays(self, self.actions, key, level)))
  {
    var peers, claims := Peers(list, key, self), Claims(view, list, key, self, claiming);
    ReportHolds(key, self, claiming, preview, peers, claims, baseline);
    SelfLevelMeans(self, key, claiming, baseline, level);
    PreviewedMeans(key.kind, self, key, claims, level);
  }

  /** Effective is the lowest level anybody wants, in numbers and in words. */
  lemma ReportedLevel(view: View, list: seq<Automation>, key: TargetKey, self: Automation, claiming: bool,
                      preview: bool, baseline: Option<int>, level: int)
    requires Handled(key.kind)
    ensures var o := Said(view, list, key, self, claiming, preview, baseline);
      && (o.effective == Some(level) <==> LeastWanted(view, list, key, self, claiming, level))
      && (o.effective == Some(level) ==> o.level == InWords(key.kind, level))
      && (o.effective.None? ==> o.level == "")
  {
    LeastWantedMeans(view, list, key, self, claiming, level);
    KindsMean(key.kind, level);
  }

  lemma WithoutMeans(names: seq<string>, self: string, name: string)
    ensures name in WithoutClaimant(names, self) <==> name in names && name != self
  {
    CollectMembers(names, (n: string) => if n != self then Some(n) else None);
    if name in names {
      var i :| 0 <= i < |names| && names[i] == name;
    }
  }

  lemma WinnersMean(view: View, list: seq<Automation>, key: TargetKey, self: Automation, claiming: bool,
                    r: Resolution, name: string)
    requires Resolved(Claims(view, list, key, self, claiming)) == Some(r)
    ensures name in r.winners <==> exists a :: name == FullName(a) && Wants(view, list, key, self, claiming, a, r.level)
  {
    var claims := Claims(view, list, key, self, claiming);
    WinnersAndDeferred(claims, r);
    ClaimsMean(view, list, key, self, claiming, Intent(name, r.level));
    assert name in r.winners <==> Intent(name, r.level) in claims;
  }

  /** Deferred by are all who want it there, when that is not where it was asked to be. */
  lemma ReportedDeferral(view: View, list: seq<Automation>, key: TargetKey, self: Automation, claiming: bool,
                         preview: bool, baseline: Option<int>, name: string)
    ensures var o := Said(view, list, key, self, claiming, preview, baseline);
      name in o.deferredBy <==>
        && o.desired.Some? && o.effective.Some? && o.desired != o.effective && name != FullName(self)
        && exists a :: name == FullName(a) && Wants(view, list, key, self, claiming, a, o.effective.value)
  {
    var r := Resolved(Claims(view, list, key, self, claiming));
    if r.Some? {
      WinnersMean(view, list, key, self, claiming, r.value, name);
      WithoutMeans(r.value.winners, FullName(self), name);
    }
  }

  /** Somebody with a say would hand the target back at this level. */
  ghost predicate Declares(list: seq<Automation>, key: TargetKey, self: Automation, baseline: Option<int>,
                           a: Automation, level: int)
  {
    HasASay(list, key, self, a) && GivesBack(a, key, baseline, level)
  }

  ghost predicate Disagreeing(list: seq<Automation>, key: TargetKey, self: Automation, baseline: Option<int>) {
    exists a, x, b, y ::
      Declares(list, key, self, baseline, a, x) && Declares(list, key, self, baseline, b, y) && x != y
  }

  lemma DeclaresMeans(list: seq<Automation>, key: TargetKey, self: Automation, baseline: Option<int>, intent: Intent)
    ensures intent in Collect(Peers(list, key, self), Reversing(key, baseline)) <==>
      exists a :: intent.claimant == FullName(a) && Declares(list, key, self, baseline, a, intent.level)
  {
    var peers := Peers(list, key, self);
    ReversalsMean(key, peers, baseline, intent);
    forall a ensures a in peers <==> HasASay(list, key, self, a) { PeersMean(list, key, self, a); }
  }

  lemma SomeDisagree(list: seq<Automation>, key: TargetKey, self: Automation, baseline: Option<int>)
    ensures Disagree(Collect(Peers(list, key, self), Reversing(key, baseline))) <==>
      Disagreeing(list, key, self, baseline)
  {
    var intents := Collect(Peers(list, key, self), Reversing(key, baseline));
    DisagreeMeans(intents);
    if Disagree(intents) {
      var i, j :| 0 <= i < |intents| && 0 <= j < |intents| && intents[i].level != intents[j].level;
      DeclaresMeans(list, key, self, baseline, intents[i]);
      DeclaresMeans(list, key, self, baseline, intents[j]);
    }
    if Disagreeing(list, key, self, baseline) {
      var a, x, b, y :|
        Declares(list, key, self, baseline, a, x) && Declares(list, key, self, baseline, b, y) && x != y;
      DeclaresMeans(list, key, self, baseline, Intent(FullName(a), x));
      DeclaresMeans(list, key, self, baseline, Intent(FullName(b), y));
      var i, j := Position(intents, Intent(FullName(a), x)), Position(intents, Intent(FullName(b), y));
      assert intents[i].level != intents[j].level;
    }
  }

  /** The disagreement a pass reports: everybody's level and its words, but only if two of them differ. */
  lemma ReportedDisagreement(list: seq<Automation>, key: TargetKey, self: Automation, baseline: Option<int>,
                             r: ReversalIntent)
    requires Handled(key.kind)
    ensures r in Declaring(key.kind, Collect(Peers(list, key, self), Reversing(key, baseline))) <==>
      && Disagreeing(list, key, self, baseline) && r.level == InWords(key.kind, r.desired)
      && exists a :: r.claimant == FullName(a) && Declares(list, key, self, baseline, a, r.desired)
  {
    var intents := Collect(Peers(list, key, self), Reversing(key, baseline));
    SomeDisagree(list, key, self, baseline);
    DeclaresMeans(list, key, self, baseline, Intent(r.claimant, r.desired));
    KindsMean(key.kind, r.desired);
    CollectMembers(intents, Declare(key.kind));
    var declared := Disagreement.Declared(key.kind, intents);
    SameMembers(declared, SortBy(declared, ByClaimant));
    if Intent(r.claimant, r.desired) in intents {
      var i := Position(intents, Intent(r.claimant, r.desired));
      var told := ReversalIntent(r.claimant, r.desired, Describe(key.kind, r.desired));
      assert Declare(key.kind)(intents[i]) == Some(told);
    }
  }
}
