/**
 * Arbitration is confluent: what a pass leaves a target at depends on the conditions that hold, not on
 * which Automation runs it nor on the order they run in (internal/controller/arbitration.go:319-454,
 * 707-742; internal/controller/automation_controller.go:442-503).
 */
module Confluence {
  import opened Text
  import opened Arbiter
  import opened TargetKinds
  import opened ApiServer
  import opened Collecting
  import opened Automations
  import opened ClaimProtocol
  import opened ClaimRuns
  import opened Evaluation
  import opened Arbitration

  // ----------------------------------------------------- the answer, without a self

  function Asks(view: View, key: TargetKey): Automation -> Option<Intent> {
    (a: Automation) =>
      if a.condition.Some? && References(a, key) then ClaimFor(a, key, Contributes(view, a)) else None
  }

  function Yields(view: View, key: TargetKey, baseline: Option<int>): Automation -> Option<Intent> {
    (a: Automation) =>
      if a.condition.Some? && References(a, key) && !Contributes(view, a) then ReversalFor(a, key, baseline) else None
  }

  /** The level everything asks for together: nobody's own pass, and in no particular order. */
  function Resting(view: View, list: seq<Automation>, key: TargetKey, s: Server, now: string): Server
    requires Handled(key.kind)
  {
    Settled(key.kind, s, Collect(list, Asks(view, key)), Collect(list, Yields(view, key, BaselineOf(key.kind, s))), now)
  }

  /** No two listed Automations share a namespace and a name. */
  ghost predicate Distinct(list: seq<Automation>) {
    forall i, j | 0 <= i < j < |list| :: list[i].Claimant() != list[j].Claimant()
  }

  /** `self` is listed and may run a pass over the target. */
  ghost predicate Participates(list: seq<Automation>, key: TargetKey, self: Automation) {
    self in list && self.condition.Some? && References(self, key)
  }

  // ------------------------------------------------------------------ self is nobody special

  function Referencing(key: TargetKey): Automation -> Option<Automation> {
    (a: Automation) => if a.condition.Some? && References(a, key) then Some(a) else None
  }

  lemma OthersReference(s: seq<Automation>, key: TargetKey, self: Automation)
    requires forall a | a in s :: a.Claimant() != self.Claimant()
    ensures Collect(s, OtherPeer(key, self)) == Collect(s, Referencing(key))
  {
    CollectAgrees(s, OtherPeer(key, self), Referencing(key));
  }

  lemma CollectAround<A, B>(x: seq<A>, y: A, z: seq<A>, f: A -> Option<B>)
    ensures Collect(x + [y] + z, f) == Collect(x, f) + (if f(y).Some? then [f(y).value] else []) + Collect(z, f)
  {
    CollectConcat(x + [y], z, f);
    CollectSnoc(x, y, f);
  }

  lemma RotateToFront<T>(x: seq<T>, y: T, z: seq<T>)
    ensures multiset([y] + (x + z)) == multiset(x + [y] + z)
  {
  }

  lemma PeersAround(x: seq<Automation>, self: Automation, z: seq<Automation>, key: TargetKey)
    requires forall a | a in x :: a.Claimant() != self.Claimant()
    requires forall a | a in z :: a.Claimant() != self.Claimant()
    requires self.condition.Some? && References(self, key)
    ensures multiset(Peers(x + [self] + z, key, self)) == multiset(Collect(x + [self] + z, Referencing(key)))
  {
    OthersReference(x, key, self);
    OthersReference(z, key, self);
    CollectAround(x, self, z, OtherPeer(key, self));
    CollectAround(x, self, z, Referencing(key));
    var px, pz := Collect(x, Referencing(key)), Collect(z, Referencing(key));
    assert px + [] + pz == px + pz;
    RotateToFront(px, self, pz);
  }

  lemma Around(list: seq<Automation>, i: nat) returns (x: seq<Automation>, z: seq<Automation>)
    requires Distinct(list) && i < |list|
    ensures list == x + [list[i]] + z
    ensures forall a | a in x :: a.Claimant() != list[i].Claimant()
    ensures forall a | a in z :: a.Claimant() != list[i].Claimant()
  {
    x, z := list[..i], list[i + 1..];
    forall a | a in x ensures a.Claimant() != list[i].Claimant() { var j :| 0 <= j < i && x[j] == a; }
    forall a | a in z ensures a.Claimant() != list[i].Claimant() {
      var j :| 0 <= j < |z| && z[j] == a;
      assert list[j + i + 1] == a;
    }
  }

  /** Whoever runs the pass, the peers gathered are the listed Automations that reference the target. */
  lemma PeersAreTheReferencing(list: seq<Automation>, key: TargetKey, self: Automation)
    requires Distinct(list) && Participates(list, key, self)
    ensures multiset(Peers(list, key, self)) == multiset(Collect(list, Referencing(key)))
  {
    var x, z := Around(list, Position(list, self));
    PeersAround(x, self, z, key);
  }

  /** Gathering, then asking, is asking. */
  lemma {:induction false} AskTheReferencing<B>(list: seq<Automation>, key: TargetKey,
                                                f: Automation -> Option<B>, g: Automation -> Option<B>)
    requires forall a | a in list :: g(a) == if a.condition.Some? && References(a, key) then f(a) else None
    ensures Collect(Collect(list, Referencing(key)), f) == Collect(list, g)
  {
    if |list| > 0 {
      var front, last := list[..|list| - 1], list[|list| - 1];
      assert last in list && forall a | a in front :: a in list;
      AskTheReferencing(front, key, f, g);
      CollectSnoc(Collect(front, Referencing(key)), last, f);
    }
  }

  /** Every question put to the peers of `self` gets the same answers as when put to the list. */
  lemma SelfIsNobodySpecial<B>(list: seq<Automation>, key: TargetKey, self: Automation,
                               mine: Automation -> Option<B>, f: Automation -> Option<B>, g: Automation -> Option<B>)
    requires Distinct(list) && Participates(list, key, self)
    requires forall a | a in Peers(list, key, self) :: mine(a) == f(a)
    requires forall a | a in list :: g(a) == if a.condition.Some? && References(a, key) then f(a) else None
    ensures multiset(Collect(Peers(list, key, self), mine)) == multiset(Collect(list, g))
  {
    CollectAgrees(Peers(list, key, self), mine, f);
    PeersAreTheReferencing(list, key, self);
    CollectForgetsOrder(Peers(list, key, self), Collect(list, Referencing(key)), f);
    AskTheReferencing(list, key, f, g);
  }

  /** A peer with self's name is self. */
  lemma NamesakesAreSelf(list: seq<Automation>, key: TargetKey, self: Automation)
    ensures forall a | a in Peers(list, key, self) && a.Claimant() == self.Claimant() :: a == self
  {
    CollectMembers(list, OtherPeer(key, self));
  }

  function Holding(view: View, key: TargetKey): Automation -> Option<Intent> {
    (a: Automation) => ClaimFor(a, key, Contributes(view, a))
  }

  function Returning(view: View, key: TargetKey, baseline: Option<int>): Automation -> Option<Intent> {
    (a: Automation) => if Contributes(view, a) then None else ReversalFor(a, key, baseline)
  }

  /** Any referencing Automation whose own condition is weighed like its peers' gathers the same claims. */
  lemma ClaimsAreEverybodys(view: View, list: seq<Automation>, key: TargetKey, self: Automation)
    requires Distinct(list) && Participates(list, key, self)
    ensures multiset(Claims(view, list, key, self, Contributes(view, self))) == multiset(Collect(list, Asks(view, key)))
  {
    NamesakesAreSelf(list, key, self);
    SelfIsNobodySpecial(list, key, self, Asking(view, key, self, Contributes(view, self)), Holding(view, key),
                        Asks(view, key));
  }

  lemma ReversalsAreEverybodys(view: View, list: seq<Automation>, key: TargetKey, self: Automation, s: Server)
    requires Handled(key.kind) && Distinct(list) && Participates(list, key, self)
    ensures multiset(Reversals(view, list, key, self, Contributes(view, self), s))
         == multiset(Collect(list, Yields(view, key, BaselineOf(key.kind, s))))
  {
    var baseline := BaselineOf(key.kind, s);
    NamesakesAreSelf(list, key, self);
    SelfIsNobodySpecial(list, key, self, Yielding(view, key, self, Contributes(view, self), baseline),
                        Returning(view, key, baseline), Yields(view, key, baseline));
  }

  lemma SettledForgetsOrder(kind: Kind, s: Server, a: seq<Intent>, b: seq<Intent>,
                            x: seq<Intent>, y: seq<Intent>, now: string)
    requires Handled(kind) && multiset(a) == multiset(b) && multiset(x) == multiset(y)
    ensures Settled(kind, s, a, x, now) == Settled(kind, s, b, y, now)
  {
    ResolveForgetsOrder(a, b);
    ClaimantsForgetOrder(a, b);
    ResolveForgetsOrder(x, y);
  }

  /** Whichever of the Automations referencing a target runs the pass, it leaves the same target. */
  lemma AnybodyReconcilesAlike(view: View, list: seq<Automation>, key: TargetKey, self: Automation, s: Server,
                               now: string)
    requires Handled(key.kind) && Distinct(list) && Participates(list, key, self)
    ensures Reconciled(view, list, key, self, Contributes(view, self), s, now) == Resting(view, list, key, s, now)
  {
    ClaimsAreEverybodys(view, list, key, self);
    ReversalsAreEverybodys(view, list, key, self, s);
    SettledForgetsOrder(key.kind, s, Claims(view, list, key, self, Contributes(view, self)),
                        Collect(list, Asks(view, key)),
      Reversals(view, list, key, self, Contributes(view, self), s),
      Collect(list, Yields(view, key, BaselineOf(key.kind, s))), now);
  }

  // ---------------------------------------------------------------- the second pass is idle

  /** A target left settled is settled: the same claims write nothing more, whenever and by whom they are asked. */
  lemma SettledStays(kind: Kind, s: Server, claims: seq<Intent>, before: seq<Intent>, after: seq<Intent>, now: string,
                     later: string)
    requires Handled(kind)
    ensures var t := Settled(kind, s, claims, before, now); Settled(kind, t, claims, after, later) == t
  {
    AnnotationsDiffer();
    var r := Resolved(claims);
    if r.Some? {
      ClaimedStays(kind, s, JoinComma(Sorted(Claimants(claims))), r.value.level, now, later);
    }
  }

  lemma ClaimedStays(kind: Kind, s: Server, claimedBy: string, level: int, now: string, later: string)
    requires Handled(kind)
    ensures var t := Levelled(kind, Claimed(kind, s, claimedBy, now), level);
      Levelled(kind, Claimed(kind, t, claimedBy, later), level) == t
  {
    AnnotationsDiffer();
    var t := Levelled(kind, Claimed(kind, s, claimedBy, now), level);
    assert Recorded(kind, t) && CLAIMED_BY in t.annotations && t.annotations[CLAIMED_BY] == claimedBy;
    assert t.annotations[CLAIMED_BY := claimedBy] == t.annotations;
  }

  /** The clock a pass reads shows in one annotation and nowhere else. */
  ghost predicate SameButForTime(s: Server, t: Server) {
    s.level == t.level && s.version == t.version && s.annotations - {CLAIMED_AT} == t.annotations - {CLAIMED_AT}
  }

  lemma TimeShowsInTheAnnotation(kind: Kind, s: Server, claimedBy: string, now: string, later: string)
    requires Handled(kind)
    ensures SameButForTime(Claimed(kind, s, claimedBy, now), Claimed(kind, s, claimedBy, later))
  {
    AnnotationsDiffer();
    var a, b := ClaimAnnotations(kind, s, claimedBy, now), ClaimAnnotations(kind, s, claimedBy, later);
    assert a - {CLAIMED_AT} == b - {CLAIMED_AT};
    if !Recorded(kind, s) { assert BaselineKey(kind) in a && BaselineKey(kind) in b; }
  }

  lemma LevelledKeepsTimeApart(kind: Kind, s: Server, t: Server, level: int)
    requires SameButForTime(s, t)
    ensures SameButForTime(Levelled(kind, s, level), Levelled(kind, t, level))
  {
  }

  lemma TimeShowsOnlyAsTime(kind: Kind, s: Server, claims: seq<Intent>, reversals: seq<Intent>, now: string,
                            later: string)
    requires Handled(kind)
    ensures SameButForTime(Settled(kind, s, claims, reversals, now), Settled(kind, s, claims, reversals, later))
  {
    var r := Resolved(claims);
    if r.Some? {
      var claimedBy := JoinComma(Sorted(Claimants(claims)));
      TimeShowsInTheAnnotation(kind, s, claimedBy, now, later);
      LevelledKeepsTimeApart(kind, Claimed(kind, s, claimedBy, now), Claimed(kind, s, claimedBy, later), r.value.level);
    }
  }

  // -------------------------------------------------------------------- whole runs of passes

  /** An Automation in force acts only on state it can see. */
  predicate MayAct(view: View, a: Automation) { a.InForce() ==> Readable(view, a) }

  /** What one reconcile may do to its own recorded matching: nothing, or bring it up to date. */
  predicate MayCommit(view: View, a: Automation, b: Automation) {
    b == a || (MayAct(view, a) && b == a.(matching := Some(Matching(view, a))))
  }

  lemma CommitKeepsTheAnswer(view: View, a: Automation, b: Automation)
    requires MayCommit(view, a, b)
    ensures Contributes(view, b) == Contributes(view, a)
  {
    assert Readable(view, b) == Readable(view, a);
  }

  /** Recording the answer does not change the question: the Automation asks for what it asked for. */
  lemma CommitChangesNoOpinion(view: View, key: TargetKey, baseline: Option<int>, a: Automation, b: Automation)
    requires MayCommit(view, a, b)
    ensures Asks(view, key)(b) == Asks(view, key)(a) && Yields(view, key, baseline)(b) == Yields(view, key, baseline)(a)
    ensures b.Claimant() == a.Claimant()
  {
    CommitKeepsTheAnswer(view, a, b);
    SameSpecSameOpinions(a, b, key, baseline, Contributes(view, a));
  }

  ghost predicate AllCommitted(view: View, list: seq<Automation>, later: seq<Automation>) {
    |list| == |later| && forall i | 0 <= i < |list| :: MayCommit(view, list[i], later[i])
  }

  lemma CommitsChangeNoAnswer(view: View, key: TargetKey, list: seq<Automation>, later: seq<Automation>, s: Server,
                              now: string)
    requires Handled(key.kind) && AllCommitted(view, list, later)
    ensures Resting(view, later, key, s, now) == Resting(view, list, key, s, now)
    ensures Distinct(list) ==> Distinct(later)
  {
    var baseline := BaselineOf(key.kind, s);
    forall i | 0 <= i < |list|
      ensures Asks(view, key)(later[i]) == Asks(view, key)(list[i])
      ensures Yields(view, key, baseline)(later[i]) == Yields(view, key, baseline)(list[i])
      ensures later[i].Claimant() == list[i].Claimant()
    {
      CommitChangesNoOpinion(view, key, baseline, list[i], later[i]);
    }
    CollectPointwise(list, later, Asks(view, key), Asks(view, key));
    CollectPointwise(list, later, Yields(view, key, baseline), Yields(view, key, baseline));
  }

  /** One pass: who ran it, and the time it read. */
  datatype Pass = Pass(self: Automation, now: string)

  ghost predicate PassStep(view: View, key: TargetKey, list: seq<Automation>, s: Server, pass: Pass,
                           later: seq<Automation>, t: Server)
    requires Handled(key.kind)
  {
    && Participates(list, key, pass.self) && MayAct(view, pass.self)
    && t == Reconciled(view, list, key, pass.self, Contributes(view, pass.self), s, pass.now)
    && AllCommitted(view, list, later)
  }

  /** Passes over one target while the reported state and the specs stay put. */
  ghost predicate Passes(view: View, key: TargetKey, lists: seq<seq<Automation>>, states: seq<Server>,
                         passes: seq<Pass>)
    requires Handled(key.kind)
  {
    && |lists| == |states| == |passes| + 1 && Distinct(lists[0])
    && forall i | 0 <= i < |passes| :: PassStep(view, key, lists[i], states[i], passes[i], lists[i + 1], states[i + 1])
  }

  /**
   * Any nonempty sequence of completed passes, by any of the Automations in any order, ends where the
   * first one ended: every later one writes nothing at all, not even a new version.
   */
  lemma {:induction false} PassesConverge(view: View, key: TargetKey, lists: seq<seq<Automation>>, states: seq<Server>,
                                          passes: seq<Pass>, n: nat)
    requires Handled(key.kind) && Passes(view, key, lists, states, passes) && 0 < n <= |passes|
    ensures states[n] == Resting(view, lists[0], key, states[0], passes[0].now)
    ensures Distinct(lists[n])
    ensures forall now :: Resting(view, lists[n], key, states[n], now) == states[n]
  {
    var pass := passes[n - 1];
    assert PassStep(view, key, lists[n - 1], states[n - 1], pass, lists[n], states[n]);
    if n > 1 { PassesConverge(view, key, lists, states, passes, n - 1); }
    AnybodyReconcilesAlike(view, lists[n - 1], key, pass.self, states[n - 1], pass.now);
    forall now ensures Resting(view, lists[n], key, states[n], now) == states[n] {
      CommitsChangeNoAnswer(view, key, lists[n - 1], lists[n], states[n], now);
      RestingStays(view, lists[n - 1], key, states[n - 1], pass.now, now);
    }
    CommitsChangeNoAnswer(view, key, lists[n - 1], lists[n], states[n], pass.now);
  }

  lemma RestingStays(view: View, list: seq<Automation>, key: TargetKey, s: Server, now: string, later: string)
    requires Handled(key.kind)
    ensures var t := Resting(view, list, key, s, now); Resting(view, list, key, t, later) == t
  {
    var t := Resting(view, list, key, s, now);
    SettledStays(key.kind, s, Collect(list, Asks(view, key)), Collect(list, Yields(view, key, BaselineOf(key.kind, s))),
                 Collect(list, Yields(view, key, BaselineOf(key.kind, t))), now, later);
  }

  /** Two such runs from the same target differ in nothing but the time of the claim. */
  lemma OrderDoesNotMatter(view: View, key: TargetKey, lists: seq<seq<Automation>>, states: seq<Server>,
                           passes: seq<Pass>,
                           lists': seq<seq<Automation>>, states': seq<Server>, passes': seq<Pass>)
    requires Handled(key.kind) && Passes(view, key, lists, states, passes)
      && Passes(view, key, lists', states', passes')
    requires lists[0] == lists'[0] && states[0] == states'[0] && |passes| > 0 && |passes'| > 0
    ensures SameButForTime(states[|passes|], states'[|passes'|])
  {
    PassesConverge(view, key, lists, states, passes, |passes|);
    PassesConverge(view, key, lists', states', passes', |passes'|);
    var s := states[0];
    TimeShowsOnlyAsTime(key.kind, s, Collect(lists[0], Asks(view, key)),
                        Collect(lists[0], Yields(view, key, BaselineOf(key.kind, s))), passes[0].now, passes'[0].now);
  }
}
