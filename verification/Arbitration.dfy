/** internal/controller/arbitration.go:157-222, 323-454, 707-728: one target, every Automation that references it. */
module Arbitration {
  import opened Text
  import opened Arbiter
  import opened TargetKinds
  import opened ApiServer
  import opened Collecting
  import opened Automations
  import opened ClaimProtocol
  import opened ClaimRuns
  import opened Evaluation
  import opened Disagreement

  // ------------------------------------------------------------------------ peers

  /** A listed Automation other than `self` with an opinion about the target. */
  function OtherPeer(key: TargetKey, self: Automation): Automation -> Option<Automation> {
    (a: Automation) =>
      if a.condition.Some? && a.Claimant() != self.Claimant() && References(a, key) then Some(a) else None
  }

  function Peers(list: seq<Automation>, key: TargetKey, self: Automation): seq<Automation> {
    [self] + Collect(list, OtherPeer(key, self))
  }

  method ReferencingAutomations(list: seq<Automation>, key: TargetKey, self: Automation)
    returns (peers: seq<Automation>)
    ensures peers == Peers(list, key, self)
  {
    peers := [self];
    for i := 0 to |list|
      invariant peers == [self] + Collect(list[..i], OtherPeer(key, self))
    {
      assert list[..i + 1] == list[..i] + [list[i]];
      CollectSnoc(list[..i], list[i], OtherPeer(key, self));
      if list[i].condition.None? || list[i].Claimant() == self.Claimant() { continue; }
      var targets := TargetsOf(list[i]);
      if key in targets {
        peers := peers + [list[i]];
      }
    }
    assert list[..|list|] == list;
  }

  /** Whether a peer stands behind its claim in a pass run by `self`, whose own stance is given. */
  predicate Stands(view: View, self: Automation, claiming: bool, peer: Automation) {
    if peer.Claimant() == self.Claimant() then claiming else Contributes(view, peer)
  }

  function Asking(view: View, key: TargetKey, self: Automation, claiming: bool): Automation -> Option<Intent> {
    (peer: Automation) => ClaimFor(peer, key, Stands(view, self, claiming, peer))
  }

  function Yielding(view: View, key: TargetKey, self: Automation, claiming: bool, baseline: Option<int>):
    Automation -> Option<Intent>
  {
    (peer: Automation) =>
      if Stands(view, self, claiming, peer) then None else ReversalFor(peer, key, baseline)
  }

  // ------------------------------------------------------------------ the resolved state

  /** Where one completed pass leaves the target, given what is claimed and what is handed back. */
  function Settled(kind: Kind, s: Server, claims: seq<Intent>, reversals: seq<Intent>, now: string): Server
    requires Handled(kind)
  {
    match Resolved(claims)
    case Some(r) => Levelled(kind, Claimed(kind, s, JoinComma(Sorted(Claimants(claims))), now), r.level)
    case None => if Recorded(kind, s) then Cleared(Restored(kind, s, ReleaseLevel(reversals))) else s
  }

  /** The states a pass may stop in, done or not: any of its calls may be the last. */
  ghost predicate PassReaches(kind: Kind, s: Server, claims: seq<Intent>, reversals: seq<Intent>, now: string,
                              t: Server, done: bool)
    requires Handled(kind)
  {
    var o := if done then Ok else Failed(Unavailable);
    match Resolved(claims)
    case Some(r) => ClaimReaches(kind, s, r.level, JoinComma(Sorted(Claimants(claims))), now, t, o)
    case None => if Recorded(kind, s) then ReleaseReaches(kind, s, ReleaseLevel(reversals), t, o) else t == s
  }

  /** A pass in which every call succeeded stops where Settled says. */
  lemma CompletedPassSettles(kind: Kind, s: Server, claims: seq<Intent>, reversals: seq<Intent>, now: string, t: Server)
    requires Handled(kind)
    ensures PassReaches(kind, s, claims, reversals, now, t, true) <==> t == Settled(kind, s, claims, reversals, now)
  {
  }

  lemma StandingStillIsAllowed(kind: Kind, s: Server, claims: seq<Intent>, reversals: seq<Intent>, now: string)
    requires Handled(kind)
    ensures PassReaches(kind, s, claims, reversals, now, s, false)
  {
  }

  // --------------------------------------------------------------------- the report

  datatype TargetPreview = TargetPreview(
    desired: Option<int>, effective: Option<int>, level: string, deferredBy: seq<string>, wouldDefer: seq<string>)

  datatype TargetOutcome = TargetOutcome(
    ref: string, desired: Option<int>, effective: Option<int>, level: string, deferredBy: seq<string>,
    changed: bool, preview: Option<TargetPreview>, disagreement: seq<ReversalIntent>)

  datatype PassError = NoHandler | Unreachable | WriteFailed

  function WithoutClaimant(names: seq<string>, self: string): seq<string> {
    Collect(names, (name: string) => if name != self then Some(name) else None)
  }

  function SelfLevel(self: Automation, key: TargetKey, claiming: bool, baseline: Option<int>): Option<int> {
    if claiming then LevelFor(self, self.actions, key)
    else
      var intent := ReversalFor(self, key, baseline);
      if intent.None? then None else Some(intent.value.level)
  }

  /** Who holds the target away from what this Automation wants, if anybody does. */
  function DeferredBy(desired: Option<int>, r: Resolution, self: string): seq<string> {
    if desired.Some? && desired.value != r.level then WithoutClaimant(r.winners, self) else []
  }

  function NewlyDeferred(before: seq<string>, after: seq<string>, self: string): seq<string> {
    Collect(after, (name: string) => if name == self || name in before then None else Some(name))
  }

  /** What the same fold gives when one claim more, this Automation's own, is put at its end. */
  function PreviewFor(kind: Kind, self: Automation, key: TargetKey, claims: seq<Intent>): TargetPreview {
    var claim := ClaimFor(self, key, true);
    if claim.None? then TargetPreview(None, None, "", [], [])
    else
      var resolution := Resolved(claims + [claim.value]).value;
      var current := Resolved(claims);
      TargetPreview(
        Some(claim.value.level), Some(resolution.level), Describe(kind, resolution.level),
        DeferredBy(Some(claim.value.level), resolution, claim.value.claimant),
        NewlyDeferred(if current.None? then [] else current.value.deferred, resolution.deferred, claim.value.claimant))
  }

  /** What a pass says about the target, `changed` aside. */
  function Report(key: TargetKey, self: Automation, claiming: bool, preview: bool,
                  peers: seq<Automation>, claims: seq<Intent>, baseline: Option<int>): TargetOutcome
  {
    var desired := SelfLevel(self, key, claiming, baseline);
    var shown := if preview then Some(PreviewFor(key.kind, self, key, claims)) else None;
    var declared := Declaring(key.kind, Collect(peers, Reversing(key, baseline)));
    match Resolved(claims)
    case Some(r) =>
      TargetOutcome(KeyString(key), desired, Some(r.level), Describe(key.kind, r.level),
                    DeferredBy(desired, r, self.Claimant()), false, shown, declared)
    case None => TargetOutcome(KeyString(key), desired, None, "", [], false, shown, declared)
  }

  // ------------------------------------------------------------------------ the pass

  method Gather(view: View, key: TargetKey, self: Automation, claiming: bool, peers: seq<Automation>,
                baseline: Option<int>)
    returns (claims: seq<Intent>, reversals: seq<Intent>)
    ensures claims == Collect(peers, Asking(view, key, self, claiming))
    ensures reversals == Collect(peers, Yielding(view, key, self, claiming, baseline))
  {
    claims, reversals := [], [];
    for i := 0 to |peers|
      invariant claims == Collect(peers[..i], Asking(view, key, self, claiming))
      invariant reversals == Collect(peers[..i], Yielding(view, key, self, claiming, baseline))
    {
      var peer := peers[i];
      assert peers[..i + 1] == peers[..i] + [peer];
      CollectSnoc(peers[..i], peer, Asking(view, key, self, claiming));
      CollectSnoc(peers[..i], peer, Yielding(view, key, self, claiming, baseline));
      var matching := claiming;
      if peer.Claimant() != self.Claimant() {
        var holds := MatchingOf(view, peer);
        matching := peer.InForce() && holds;
      }
      var claim := ClaimFor(peer, key, matching);
      if claim.Some? {
        claims := claims + [claim.value];
        continue;
      }
      if matching { continue; }
      var reversal := ReversalFor(peer, key, baseline);
      if reversal.Some? {
        reversals := reversals + [reversal.value];
      }
    }
    assert peers[..|peers|] == peers;
  }

  /** Whatever the resolution asks for, written; `changed` says whether the object moved. */
  method WriteOutcome(api: Api, key: TargetKey, target: Target, claims: seq<Intent>, reversals: seq<Intent>,
                      now: string)
    returns (outcome: Outcome, changed: bool)
    requires Handled(key.kind) && target.copy == api.server
    modifies api, target
    ensures PassReaches(key.kind, old(api.server), claims, reversals, now, api.server, outcome.Ok?)
    ensures changed ==> api.server != old(api.server)
    ensures outcome.Ok? && api.server != old(api.server) ==> changed
    ensures old(api.faults) == [] ==> outcome.Ok?
  {
    var resolution := Resolve(claims);
    if resolution.Some? {
      outcome, changed :=
        ClaimTarget(api, key.kind, target, resolution.value.level, JoinComma(Sorted(Claimants(claims))), now);
    } else if Recorded(key.kind, target.copy) {
      var release := Resolve(reversals);
      var level := if release.Some? then Some(release.value.level) else None;
      outcome, changed := ReleaseTarget(api, key.kind, target, level);
    } else {
      outcome, changed := Ok, false;
    }
  }

  /** The report of a pass, assembled before anything is written. */
  method Compose(key: TargetKey, self: Automation, claiming: bool, preview: bool,
                 peers: seq<Automation>, claims: seq<Intent>, baseline: Option<int>)
    returns (outcome: TargetOutcome)
    ensures outcome == Report(key, self, claiming, preview, peers, claims, baseline)
  {
    var declared := ReversalIntents(peers, key, baseline);
    var disagreement := DisagreementOver(key.kind, declared);
    outcome := TargetOutcome(KeyString(key), SelfLevel(self, key, claiming, baseline), None, "", [], false, None,
                             disagreement);
    if preview {
      outcome := outcome.(preview := Some(PreviewFor(key.kind, self, key, claims)));
    }
    var resolution := Resolve(claims);
    if resolution.Some? {
      var r := resolution.value;
      outcome := outcome.(effective := Some(r.level), level := Describe(key.kind, r.level),
                          deferredBy := DeferredBy(outcome.desired, r, self.Claimant()));
    }
  }

  method ReversalIntents(peers: seq<Automation>, key: TargetKey, baseline: Option<int>) returns (intents: seq<Intent>)
    ensures intents == Collect(peers, Reversing(key, baseline))
  {
    intents := [];
    for i := 0 to |peers|
      invariant intents == Collect(peers[..i], Reversing(key, baseline))
    {
      assert peers[..i + 1] == peers[..i] + [peers[i]];
      CollectSnoc(peers[..i], peers[i], Reversing(key, baseline));
      var intent := ReversalFor(peers[i], key, baseline);
      if intent.Some? {
        intents := intents + [intent.value];
      }
    }
    assert peers[..|peers|] == peers;
  }

  // What a pass gathers, named once.

  function Claims(view: View, list: seq<Automation>, key: TargetKey, self: Automation, claiming: bool): seq<Intent> {
    Collect(Peers(list, key, self), Asking(view, key, self, claiming))
  }

  function Reversals(view: View, list: seq<Automation>, key: TargetKey, self: Automation, claiming: bool,
                     s: Server): seq<Intent>
    requires Handled(key.kind)
  {
    Collect(Peers(list, key, self), Yielding(view, key, self, claiming, BaselineOf(key.kind, s)))
  }

  /** Where a pass run by `self` leaves the target when nothing fails. */
  function Reconciled(view: View, list: seq<Automation>, key: TargetKey, self: Automation, claiming: bool, s: Server,
                      now: string): Server
    requires Handled(key.kind)
  {
    Settled(key.kind, s, Claims(view, list, key, self, claiming), Reversals(view, list, key, self, claiming, s), now)
  }

  /** One pass over one target: read it, gather what its peers say, resolve, report, write. */
  method ReconcileTarget(api: Api, view: View, list: seq<Automation>, key: TargetKey, self: Automation,
                         claiming: bool, preview: bool, now: string)
    returns (outcome: TargetOutcome, error: Option<PassError>)
    modifies api
    ensures !Handled(key.kind) ==> error == Some(NoHandler) && api.server == old(api.server)
    ensures Handled(key.kind) ==>
      PassReaches(key.kind, old(api.server), Claims(view, list, key, self, claiming),
        Reversals(view, list, key, self, claiming, old(api.server)), now, api.server, error.None?)
    ensures Handled(key.kind) && old(api.faults) == [] ==> error.None?
    ensures outcome.changed ==> api.server != old(api.server)
    ensures error.None? ==> api.server == Reconciled(view, list, key, self, claiming, old(api.server), now)
    ensures error.None? ==>
      (outcome == Report(key, self, claiming, preview, Peers(list, key, self), Claims(view, list, key, self, claiming),
                         BaselineOf(key.kind, old(api.server))).(changed := api.server != old(api.server)))
  {
    outcome := TargetOutcome(KeyString(key), None, None, "", [], false, None, []);
    if !Handled(key.kind) { return outcome, Some(NoHandler); }
    var peers := ReferencingAutomations(list, key, self);
    var target := new Target();
    var read := api.Get(target);
    ghost var before := api.server;
    ghost var wanted := Claims(view, list, key, self, claiming);
    ghost var yielded := Reversals(view, list, key, self, claiming, before);
    if read.Failed? {
      StandingStillIsAllowed(key.kind, before, wanted, yielded, now);
      return outcome, Some(Unreachable);
    }
    var baseline := BaselineOf(key.kind, target.copy);
    var claims, reversals := Gather(view, key, self, claiming, peers, baseline);
    outcome := Compose(key, self, claiming, preview, peers, claims, baseline);
    var written, changed := WriteOutcome(api, key, target, claims, reversals, now);
    assert claims == wanted && reversals == yielded;
    CompletedPassSettles(key.kind, before, wanted, yielded, now, api.server);
    outcome := outcome.(changed := changed);
    error := if written.Ok? then None else Some(WriteFailed);
  }
}
