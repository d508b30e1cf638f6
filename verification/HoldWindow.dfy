/**
 * An Automation in force that loses sight of its provider holds its last answer
 * (internal/controller/automation_controller.go:461-492; internal/controller/arbitration.go:736-742).
 */
module HoldWindow {
  import opened Text
  import opened Arbiter
  import opened TargetKinds
  import opened ApiServer
  import opened Collecting
  import opened Automations
  import opened ClaimRuns
  import opened Evaluation
  import opened Arbitration
  import opened Confluence

  /** What the store reports, what is listed, and one target, at one moment. */
  datatype Moment = Moment(view: View, list: seq<Automation>, target: Server)

  /** Listed at `h`: in force, and without the state its condition needs. */
  ghost predicate Blind(m: Moment, h: nat) {
    h < |m.list| && m.list[h].InForce() && !Readable(m.view, m.list[h])
  }

  /** A pass by `self`, done or stopped by a call that failed, found the target in `m` and left it at `t`. */
  ghost predicate PassedBy(key: TargetKey, m: Moment, t: Server, self: Automation, now: string, done: bool)
    requires Handled(key.kind)
  {
    && Participates(m.list, key, self) && MayAct(m.view, self)
    && PassReaches(key.kind, m.target, Claims(m.view, m.list, key, self, Contributes(m.view, self)),
                   Reversals(m.view, m.list, key, self, Contributes(m.view, self), m.target), now, t, done)
  }

  /** Some Automation's pass over the target, as far as it got, or none. */
  ghost predicate PassedOrNot(key: TargetKey, m: Moment, t: Server)
    requires Handled(key.kind)
  {
    t == m.target || exists self, now, done :: PassedBy(key, m, t, self, now, done)
  }

  /**
   * From one moment to the next the store may report anything, any other Automation may be edited or
   * record anything, and anybody may run a pass. The one at `h` only does what a reconcile of it does.
   */
  ghost predicate Moves(key: TargetKey, h: nat, m: Moment, n: Moment)
    requires Handled(key.kind)
  {
    && h < |m.list| == |n.list|
    && (forall j | 0 <= j < |m.list| :: n.list[j].Claimant() == m.list[j].Claimant())
    && MayCommit(m.view, m.list[h], n.list[h])
    && PassedOrNot(key, m, n.target)
  }

  ghost predicate MovesAt(key: TargetKey, h: nat, moments: seq<Moment>, i: nat)
    requires Handled(key.kind) && i < |moments| - 1
  {
    Moves(key, h, moments[i], moments[i + 1])
  }

  ghost predicate BlindAt(h: nat, moments: seq<Moment>, i: nat)
    requires i < |moments|
  {
    Blind(moments[i], h)
  }

  ghost predicate Window(key: TargetKey, h: nat, moments: seq<Moment>)
    requires Handled(key.kind)
  {
    && |moments| > 0 && Distinct(moments[0].list)
    && (forall i | 0 <= i < |moments| :: BlindAt(h, moments, i))
    && forall i | 0 <= i < |moments| - 1 :: MovesAt(key, h, moments, i)
  }

  /** The blind Automation's own part: nothing is committed, and its claim stays what it last committed. */
  lemma {:induction false} ContributionHolds(key: TargetKey, h: nat, moments: seq<Moment>, n: nat)
    requires Handled(key.kind) && Window(key, h, moments) && n < |moments|
    ensures h < |moments[n].list| == |moments[0].list| && moments[n].list[h] == moments[0].list[h]
    ensures Contributes(moments[n].view, moments[n].list[h]) <==> moments[0].list[h].matching == Some(true)
    ensures Asks(moments[n].view, key)(moments[n].list[h]) == Asks(moments[0].view, key)(moments[0].list[h])
    ensures Distinct(moments[n].list)
  {
    assert BlindAt(h, moments, 0) && BlindAt(h, moments, n);
    if n > 0 {
      ContributionHolds(key, h, moments, n - 1);
      assert BlindAt(h, moments, n - 1) && MovesAt(key, h, moments, n - 1);
      assert Distinct(moments[n].list);
    }
  }

  /** The others ask at moment `i` what they asked at the first. */
  ghost predicate SteadyAt(key: TargetKey, h: nat, moments: seq<Moment>, i: nat)
    requires i < |moments|
  {
    forall j | 0 <= j < |moments[i].list| && j != h && j < |moments[0].list| ::
      Asks(moments[i].view, key)(moments[i].list[j]) == Asks(moments[0].view, key)(moments[0].list[j])
  }

  ghost predicate OthersSteady(key: TargetKey, h: nat, moments: seq<Moment>) {
    forall i | 0 <= i < |moments| :: SteadyAt(key, h, moments, i)
  }

  lemma ClaimsHold(key: TargetKey, h: nat, moments: seq<Moment>, n: nat)
    requires Handled(key.kind) && Window(key, h, moments) && n < |moments| && OthersSteady(key, h, moments)
    ensures Collect(moments[n].list, Asks(moments[n].view, key)) == Collect(moments[0].list, Asks(moments[0].view, key))
  {
    ContributionHolds(key, h, moments, n);
    assert SteadyAt(key, h, moments, n);
    forall j | 0 <= j < |moments[n].list|
      ensures Asks(moments[n].view, key)(moments[n].list[j]) == Asks(moments[0].view, key)(moments[0].list[j])
    {
    }
    CollectPointwise(moments[n].list, moments[0].list, Asks(moments[n].view, key), Asks(moments[0].view, key));
  }

  /** A completed pass over the target would leave it as it is; by RestsAgain, whatever time it reads. */
  predicate AtRest(key: TargetKey, m: Moment)
    requires Handled(key.kind)
  {
    Resting(m.view, m.list, key, m.target, "") == m.target
  }

  /** Whoever runs a pass, and however far it gets, these are the states it can stop in. */
  ghost predicate AnybodyReaches(key: TargetKey, m: Moment, now: string, t: Server, done: bool)
    requires Handled(key.kind)
  {
    PassReaches(key.kind, m.target, Collect(m.list, Asks(m.view, key)),
                Collect(m.list, Yields(m.view, key, BaselineOf(key.kind, m.target))), now, t, done)
  }

  lemma ReachesForgetOrder(kind: Kind, s: Server, a: seq<Intent>, b: seq<Intent>, x: seq<Intent>, y: seq<Intent>,
                           now: string, t: Server, done: bool)
    requires Handled(kind) && multiset(a) == multiset(b) && multiset(x) == multiset(y)
    ensures PassReaches(kind, s, a, x, now, t, done) == PassReaches(kind, s, b, y, now, t, done)
  {
    ResolveForgetsOrder(a, b);
    ClaimantsForgetOrder(a, b);
    ResolveForgetsOrder(x, y);
    var claimedBy := JoinComma(Sorted(Claimants(a)));
    assert claimedBy == JoinComma(Sorted(Claimants(b)));
  }

  lemma AnybodysPass(key: TargetKey, m: Moment, t: Server, self: Automation, now: string, done: bool)
    requires Handled(key.kind) && Distinct(m.list) && PassedBy(key, m, t, self, now, done)
    ensures AnybodyReaches(key, m, now, t, done)
  {
    ClaimsAreEverybodys(m.view, m.list, key, self);
    ReversalsAreEverybodys(m.view, m.list, key, self, m.target);
    var mine := Claims(m.view, m.list, key, self, Contributes(m.view, self));
    var yielded := Reversals(m.view, m.list, key, self, Contributes(m.view, self), m.target);
    ReachesForgetOrder(key.kind, m.target, mine, Collect(m.list, Asks(m.view, key)), yielded,
                       Collect(m.list, Yields(m.view, key, BaselineOf(key.kind, m.target))), now, t, done);
  }

  /** At rest, no call of a pass writes anything, so it does not matter where one stops. */
  lemma StoppedPassStays(kind: Kind, s: Server, claims: seq<Intent>, reversals: seq<Intent>, now: string, t: Server,
                         done: bool)
    requires Handled(kind) && Settled(kind, s, claims, reversals, now) == s
    requires PassReaches(kind, s, claims, reversals, now, t, done)
    ensures t == s
  {
  }

  lemma RestsAgain(key: TargetKey, first: Moment, m: Moment, later: string)
    requires Handled(key.kind) && m.target == first.target
    requires Collect(m.list, Asks(m.view, key)) == Collect(first.list, Asks(first.view, key))
    requires AtRest(key, first)
    ensures Resting(m.view, m.list, key, m.target, later) == m.target
  {
    var baseline := BaselineOf(key.kind, first.target);
    SettledStays(key.kind, first.target, Collect(first.list, Asks(first.view, key)),
                 Collect(first.list, Yields(first.view, key, baseline)),
                 Collect(m.list, Yields(m.view, key, baseline)), "", later);
  }

  lemma PassWritesNothing(key: TargetKey, first: Moment, m: Moment, t: Server)
    requires Handled(key.kind) && Distinct(m.list) && m.target == first.target && PassedOrNot(key, m, t)
    requires Collect(m.list, Asks(m.view, key)) == Collect(first.list, Asks(first.view, key))
    requires AtRest(key, first)
    ensures t == m.target
  {
    if t != m.target {
      var self, later, done :| PassedBy(key, m, t, self, later, done);
      AnybodysPass(key, m, t, self, later, done);
      RestsAgain(key, first, m, later);
      StoppedPassStays(key.kind, m.target, Collect(m.list, Asks(m.view, key)),
                       Collect(m.list, Yields(m.view, key, BaselineOf(key.kind, m.target))), later, t, done);
    }
  }

  lemma TargetHoldsOnce(key: TargetKey, h: nat, moments: seq<Moment>, i: nat, n: nat)
    requires Handled(key.kind) && Window(key, h, moments) && i <= n < |moments| - 1 && OthersSteady(key, h, moments)
    requires AtRest(key, moments[i])
    requires moments[n].target == moments[i].target
    ensures moments[n + 1].target == moments[i].target
  {
    ContributionHolds(key, h, moments, n);
    ClaimsHold(key, h, moments, i);
    ClaimsHold(key, h, moments, n);
    var first, m, t := moments[i], moments[n], moments[n + 1].target;
    assert PassedOrNot(key, m, t) by { assert MovesAt(key, h, moments, n); }
    PassWritesNothing(key, first, m, t);
  }

  /**
   * A target at rest at some moment of the window does not move for the rest of it, whatever the store
   * reports, whoever runs a pass and wherever that pass stops, as long as nobody else's claim changes.
   */
  lemma {:induction false} TargetHolds(key: TargetKey, h: nat, moments: seq<Moment>, i: nat, n: nat)
    requires Handled(key.kind) && Window(key, h, moments) && i <= n < |moments| && OthersSteady(key, h, moments)
    requires AtRest(key, moments[i])
    ensures moments[n].target == moments[i].target
  {
    if n > i {
      TargetHolds(key, h, moments, i, n - 1);
      TargetHoldsOnce(key, h, moments, i, n - 1);
    }
  }

  /** A completed pass that left the target as it is at moment `j` left it at rest. */
  lemma CompletedPassRests(key: TargetKey, h: nat, moments: seq<Moment>, i: nat, j: nat, self: Automation, now: string)
    requires Handled(key.kind) && Window(key, h, moments) && i + 1 == j < |moments| && OthersSteady(key, h, moments)
    requires PassedBy(key, moments[i], moments[j].target, self, now, true)
    ensures AtRest(key, moments[j])
  {
    var m, next := moments[i], moments[j];
    ContributionHolds(key, h, moments, i);
    AnybodysPass(key, m, next.target, self, now, true);
    ClaimsHold(key, h, moments, i);
    ClaimsHold(key, h, moments, j);
    SettlesForGood(key, m, next, now);
  }

  lemma SettlesForGood(key: TargetKey, m: Moment, next: Moment, now: string)
    requires Handled(key.kind) && AnybodyReaches(key, m, now, next.target, true)
    requires Collect(next.list, Asks(next.view, key)) == Collect(m.list, Asks(m.view, key))
    ensures AtRest(key, next)
  {
    var claims := Collect(m.list, Asks(m.view, key));
    var before := Collect(m.list, Yields(m.view, key, BaselineOf(key.kind, m.target)));
    var after := Collect(next.list, Yields(next.view, key, BaselineOf(key.kind, next.target)));
    CompletedPassSettles(key.kind, m.target, claims, before, now, next.target);
    SettledStays(key.kind, m.target, claims, before, after, now, "");
  }

  /** A target still moving when the window opens: the first pass to complete is the last to move it. */
  lemma FirstPassIsTheLast(key: TargetKey, h: nat, moments: seq<Moment>, i: nat, j: nat,
                           self: Automation, now: string, n: nat)
    requires Handled(key.kind) && Window(key, h, moments) && OthersSteady(key, h, moments)
    requires i + 1 == j <= n < |moments|
    requires PassedBy(key, moments[i], moments[j].target, self, now, true)
    ensures moments[n].target == moments[j].target
  {
    CompletedPassRests(key, h, moments, i, j, self, now);
    TargetHolds(key, h, moments, j, n);
  }
}
