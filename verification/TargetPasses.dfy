/** internal/controller/automation_controller.go:694-714: one Automation's pass over all its targets. */
module TargetPasses {
  import opened Text
  import opened TargetKinds
  import opened ApiServer
  import opened Automations
  import opened ClaimProtocol
  import opened ClaimRuns
  import opened Evaluation
  import opened Arbitration

  /** The targets that exist, one API object each. */
  ghost predicate Separate(apis: map<TargetKey, Api>) {
    forall k, l | k in apis && l in apis && k != l :: apis[k] != apis[l]
  }

  ghost function Servers(apis: map<TargetKey, Api>): map<TargetKey, Server>
    reads apis.Values
  {
    map k | k in apis :: apis[k].server
  }

  /** The target exists, is of a kind with a handler, and no call to it will fail. */
  ghost predicate Answers(apis: map<TargetKey, Api>, key: TargetKey)
    reads apis.Values
  {
    Handled(key.kind) && key in apis && apis[key].faults == []
  }

  /** One completed pass took the target from where it was to where it is. */
  ghost predicate Done(view: View, list: seq<Automation>, self: Automation, claiming: bool, now: string,
                       before: map<TargetKey, Server>, after: map<TargetKey, Server>, key: TargetKey)
  {
    && Handled(key.kind) && key in before && key in after
    && after[key] == Reconciled(view, list, key, self, claiming, before[key], now)
  }

  /** A pass that failed left the target somewhere a pass can stop. */
  ghost predicate Tried(view: View, list: seq<Automation>, self: Automation, claiming: bool, now: string,
                        before: map<TargetKey, Server>, after: map<TargetKey, Server>, key: TargetKey)
  {
    key in before && key in after ==>
      if Handled(key.kind) then
        PassReaches(key.kind, before[key], Claims(view, list, key, self, claiming),
                    Reversals(view, list, key, self, claiming, before[key]), now, after[key], false)
      else after[key] == before[key]
  }

  /** The first `n` targets are done, and nothing but the first `touched` has moved. */
  ghost predicate DoneUpTo(view: View, list: seq<Automation>, self: Automation, claiming: bool, now: string,
                           before: map<TargetKey, Server>, after: map<TargetKey, Server>, n: nat, touched: nat)
    requires n <= touched <= |Targets(self)|
  {
    && after.Keys == before.Keys
    && (forall i | 0 <= i < n :: Done(view, list, self, claiming, now, before, after, Targets(self)[i]))
    && (forall key | key in before && key !in Targets(self)[..touched] :: after[key] == before[key])
  }

  /** A pass that got through the first `n` targets and no further: the next, if any, was tried, the rest not. */
  ghost predicate PassedUpTo(view: View, list: seq<Automation>, self: Automation, claiming: bool, now: string,
                             before: map<TargetKey, Server>, after: map<TargetKey, Server>, n: nat)
  {
    && n <= |Targets(self)|
    && DoneUpTo(view, list, self, claiming, now, before, after, n, if n < |Targets(self)| then n + 1 else n)
    && (n < |Targets(self)| ==> Tried(view, list, self, claiming, now, before, after, Targets(self)[n]))
  }

  /** Only the target at `n` moves, and it moves as `done` says. */
  ghost predicate Touched(view: View, list: seq<Automation>, self: Automation, claiming: bool, now: string,
                          before: map<TargetKey, Server>, after: map<TargetKey, Server>, key: TargetKey, done: bool)
  {
    && after.Keys == before.Keys
    && (forall other | other in before && other != key :: after[other] == before[other])
    && (if done then Done(view, list, self, claiming, now, before, after, key)
        else Tried(view, list, self, claiming, now, before, after, key))
  }

  lemma UntouchedStayDone(view: View, list: seq<Automation>, self: Automation, claiming: bool, now: string,
                          before: map<TargetKey, Server>, middle: map<TargetKey, Server>,
                          after: map<TargetKey, Server>, n: nat, done: bool)
    requires n < |Targets(self)| && DoneUpTo(view, list, self, claiming, now, before, middle, n, n)
    requires Touched(view, list, self, claiming, now, middle, after, Targets(self)[n], done)
    ensures DoneUpTo(view, list, self, claiming, now, before, after, n, n + 1)
  {
    var keys := Targets(self);
    TargetsAreWhatItMentions(self);
    assert forall key | key in before && key !in keys[..n + 1] :: key !in keys[..n] && key != keys[n];
    forall i | 0 <= i < n ensures Done(view, list, self, claiming, now, before, after, keys[i]) {
      assert Done(view, list, self, claiming, now, before, middle, keys[i]) && keys[i] != keys[n];
    }
  }

  lemma OneMoreDone(view: View, list: seq<Automation>, self: Automation, claiming: bool, now: string,
                    before: map<TargetKey, Server>, middle: map<TargetKey, Server>, after: map<TargetKey, Server>,
                    n: nat, done: bool)
    requires n < |Targets(self)| && DoneUpTo(view, list, self, claiming, now, before, middle, n, n)
    requires Touched(view, list, self, claiming, now, middle, after, Targets(self)[n], done)
    ensures DoneUpTo(view, list, self, claiming, now, before, after, if done then n + 1 else n, n + 1)
    ensures !done ==> Tried(view, list, self, claiming, now, before, after, Targets(self)[n])
  {
    var keys := Targets(self);
    UntouchedStayDone(view, list, self, claiming, now, before, middle, after, n, done);
    TargetsAreWhatItMentions(self);
    assert keys[n] !in keys[..n];
    if keys[n] in before { assert middle[keys[n]] == before[keys[n]]; }
  }

  /** The pass found the target one way and left it another. */
  predicate Moved(before: map<TargetKey, Server>, after: map<TargetKey, Server>, key: TargetKey) {
    key in before && key in after && after[key] != before[key]
  }

  /** A change is reported of no target that stayed put, and of every done one that moved. */
  ghost predicate ReportsMoves(outcomes: seq<TargetOutcome>, keys: seq<TargetKey>,
                               before: map<TargetKey, Server>, after: map<TargetKey, Server>, done: nat)
    requires done <= |outcomes| <= |keys|
  {
    && (forall i | 0 <= i < |outcomes| && outcomes[i].changed :: Moved(before, after, keys[i]))
    && (forall i | 0 <= i < done && Moved(before, after, keys[i]) :: outcomes[i].changed)
  }

  lemma ReportsOneMore(outcomes: seq<TargetOutcome>, keys: seq<TargetKey>, outcome: TargetOutcome,
                       before: map<TargetKey, Server>,
                       middle: map<TargetKey, Server>, after: map<TargetKey, Server>, done: bool)
    requires |outcomes| < |keys| && ReportsMoves(outcomes, keys, before, middle, |outcomes|)
    requires forall i | 0 <= i < |outcomes| :: keys[i] != keys[|outcomes|]
    requires middle.Keys == before.Keys == after.Keys
    requires forall key | key in middle && key != keys[|outcomes|] :: after[key] == middle[key]
    requires keys[|outcomes|] in before ==> middle[keys[|outcomes|]] == before[keys[|outcomes|]]
    requires outcome.changed ==> Moved(middle, after, keys[|outcomes|])
    requires done && Moved(middle, after, keys[|outcomes|]) ==> outcome.changed
    ensures ReportsMoves(outcomes + [outcome], keys, before, after, if done then |outcomes| + 1 else |outcomes|)
  {
    forall i | 0 <= i < |outcomes| ensures Moved(before, after, keys[i]) <==> Moved(before, middle, keys[i]) {
    }
  }

  /** The outcomes so far, the first `done` of them successes, and what they say of the targets. */
  ghost predicate PassedOver(view: View, list: seq<Automation>, self: Automation, claiming: bool, now: string,
                             before: map<TargetKey, Server>, after: map<TargetKey, Server>,
                             outcomes: seq<TargetOutcome>, done: nat)
  {
    && done <= |outcomes| <= |Targets(self)|
    && DoneUpTo(view, list, self, claiming, now, before, after, done, |outcomes|)
    && ReportsMoves(outcomes, Targets(self), before, after, done)
  }

  lemma PassOneMore(view: View, list: seq<Automation>, self: Automation, claiming: bool, now: string,
                    before: map<TargetKey, Server>, middle: map<TargetKey, Server>, after: map<TargetKey, Server>,
                    outcomes: seq<TargetOutcome>, outcome: TargetOutcome, done: bool)
    requires PassedOver(view, list, self, claiming, now, before, middle, outcomes, |outcomes|)
    requires |outcomes| < |Targets(self)|
    requires Touched(view, list, self, claiming, now, middle, after, Targets(self)[|outcomes|], done)
    requires outcome.changed ==> Moved(middle, after, Targets(self)[|outcomes|])
    requires done && Moved(middle, after, Targets(self)[|outcomes|]) ==> outcome.changed
    ensures PassedOver(view, list, self, claiming, now, before, after, outcomes + [outcome],
                       if done then |outcomes| + 1 else |outcomes|)
    ensures !done ==> Tried(view, list, self, claiming, now, before, after, Targets(self)[|outcomes|])
  {
    OneMoreDone(view, list, self, claiming, now, before, middle, after, |outcomes|, done);
    TargetsAreWhatItMentions(self);
    assert Targets(self)[|outcomes|] !in Targets(self)[..|outcomes|];
    ReportsOneMore(outcomes, Targets(self), outcome, before, middle, after, done);
  }

  /** What is said of a done target: the whole report, over what was gathered, and whether it moved. */
  ghost predicate Tells(view: View, list: seq<Automation>, self: Automation, claiming: bool, preview: bool,
                        before: map<TargetKey, Server>, after: map<TargetKey, Server>, key: TargetKey,
                        outcome: TargetOutcome)
  {
    && Handled(key.kind) && key in before && key in after
    && outcome == Report(key, self, claiming, preview, Peers(list, key, self), Claims(view, list, key, self, claiming),
                         BaselineOf(key.kind, before[key])).(changed := after[key] != before[key])
  }

  ghost predicate TellsAll(view: View, list: seq<Automation>, self: Automation, claiming: bool, preview: bool,
                           before: map<TargetKey, Server>, after: map<TargetKey, Server>,
                           outcomes: seq<TargetOutcome>, done: nat)
    requires done <= |outcomes| <= |Targets(self)|
  {
    forall i | 0 <= i < done :: Tells(view, list, self, claiming, preview, before, after, Targets(self)[i], outcomes[i])
  }

  lemma TellsOneMore(view: View, list: seq<Automation>, self: Automation, claiming: bool, preview: bool,
                     before: map<TargetKey, Server>, middle: map<TargetKey, Server>, after: map<TargetKey, Server>,
                     outcomes: seq<TargetOutcome>, outcome: TargetOutcome, done: bool)
    requires |outcomes| < |Targets(self)|
    requires TellsAll(view, list, self, claiming, preview, before, middle, outcomes, |outcomes|)
    requires after.Keys == middle.Keys == before.Keys
    requires forall key | key in middle && key != Targets(self)[|outcomes|] :: after[key] == middle[key]
    requires Targets(self)[|outcomes|] in before ==>
      middle[Targets(self)[|outcomes|]] == before[Targets(self)[|outcomes|]]
    requires done ==> Tells(view, list, self, claiming, preview, middle, after, Targets(self)[|outcomes|], outcome)
    ensures TellsAll(view, list, self, claiming, preview, before, after, outcomes + [outcome],
                     if done then |outcomes| + 1 else |outcomes|)
  {
    var keys := Targets(self);
    TargetsAreWhatItMentions(self);
    forall i | 0 <= i < |outcomes|
      ensures Tells(view, list, self, claiming, preview, before, after, keys[i], outcomes[i])
    {
      assert Tells(view, list, self, claiming, preview, before, middle, keys[i], outcomes[i]);
      assert keys[i] != keys[|outcomes|];
    }
  }

  /** The pass so far, and what was said of it. */
  ghost predicate Progress(view: View, list: seq<Automation>, self: Automation, claiming: bool, preview: bool,
                           now: string, before: map<TargetKey, Server>, after: map<TargetKey, Server>,
                           outcomes: seq<TargetOutcome>, done: nat)
  {
    && PassedOver(view, list, self, claiming, now, before, after, outcomes, done)
    && TellsAll(view, list, self, claiming, preview, before, after, outcomes, done)
  }

  lemma ProgressOneMore(view: View, list: seq<Automation>, self: Automation, claiming: bool, preview: bool, now: string,
                        before: map<TargetKey, Server>, middle: map<TargetKey, Server>, after: map<TargetKey, Server>,
                        outcomes: seq<TargetOutcome>, outcome: TargetOutcome, done: bool)
    requires Progress(view, list, self, claiming, preview, now, before, middle, outcomes, |outcomes|)
    requires |outcomes| < |Targets(self)|
    requires Touched(view, list, self, claiming, now, middle, after, Targets(self)[|outcomes|], done)
    requires outcome.changed ==> Moved(middle, after, Targets(self)[|outcomes|])
    requires done ==> Tells(view, list, self, claiming, preview, middle, after, Targets(self)[|outcomes|], outcome)
    ensures Progress(view, list, self, claiming, preview, now, before, after, outcomes + [outcome],
                     if done then |outcomes| + 1 else |outcomes|)
    ensures !done ==> Tried(view, list, self, claiming, now, before, after, Targets(self)[|outcomes|])
  {
    TargetsAreWhatItMentions(self);
    assert Targets(self)[|outcomes|] !in Targets(self)[..|outcomes|];
    PassOneMore(view, list, self, claiming, now, before, middle, after, outcomes, outcome, done);
    TellsOneMore(view, list, self, claiming, preview, before, middle, after, outcomes, outcome, done);
  }

  lemma NothingPassedYet(view: View, list: seq<Automation>, self: Automation, claiming: bool, now: string,
                         s: map<TargetKey, Server>)
    ensures PassedOver(view, list, self, claiming, now, s, s, [], 0)
  {
  }

  /** In order, stopping at the first failure. */
  method ReconcileTargets(apis: map<TargetKey, Api>, view: View, list: seq<Automation>, self: Automation,
                          claiming: bool, preview: bool, now: string)
    returns (outcomes: seq<TargetOutcome>, error: Option<PassError>)
    requires Separate(apis)
    modifies apis.Values
    ensures error.None? ==> |outcomes| == |Targets(self)|
    ensures error.Some? ==> |outcomes| > 0
    ensures Progress(view, list, self, claiming, preview, now, old(Servers(apis)), Servers(apis), outcomes,
                     if error.None? then |outcomes| else |outcomes| - 1)
    ensures error.Some? ==>
      Tried(view, list, self, claiming, now, old(Servers(apis)), Servers(apis), Targets(self)[|outcomes| - 1])
    ensures (forall key | key in Targets(self) :: old(Answers(apis, key))) ==> error.None?
  {
    outcomes, error := [], None;
    ghost var before := Servers(apis);
    var keys := TargetsOf(self);
    TargetsAreWhatItMentions(self);
    NothingPassedYet(view, list, self, claiming, now, before);
    for i := 0 to |keys|
      invariant error.None? && |outcomes| == i
      invariant Progress(view, list, self, claiming, preview, now, before, Servers(apis), outcomes, i)
      invariant forall k | i <= k < |keys| && old(Answers(apis, keys[k])) :: Answers(apis, keys[k])
    {
      ghost var middle := Servers(apis);
      var outcome;
      outcome, error := ReachTarget(apis, keys[i], view, list, self, claiming, preview, now);
      ProgressOneMore(view, list, self, claiming, preview, now, before, middle, Servers(apis), outcomes, outcome,
                      error.None?);
      outcomes := outcomes + [outcome];
      if error.Some? {
        assert !old(Answers(apis, keys[i])) && keys[i] in Targets(self);
        return;
      }
    }
  }

  /** A target that does not exist cannot be read. */
  method ReachTarget(apis: map<TargetKey, Api>, key: TargetKey, view: View, list: seq<Automation>, self: Automation,
                     claiming: bool, preview: bool, now: string)
    returns (outcome: TargetOutcome, error: Option<PassError>)
    requires Separate(apis)
    modifies apis.Values
    ensures Touched(view, list, self, claiming, now, old(Servers(apis)), Servers(apis), key, error.None?)
    ensures error.None? ==>
      Tells(view, list, self, claiming, preview, old(Servers(apis)), Servers(apis), key, outcome)
    ensures outcome.changed ==> Moved(old(Servers(apis)), Servers(apis), key)
    ensures forall other | other != key && old(Answers(apis, other)) :: Answers(apis, other)
    ensures old(Answers(apis, key)) ==> error.None?
  {
    if key !in apis {
      outcome := TargetOutcome(KeyString(key), None, None, "", [], false, None, []);
      return outcome, Some(if Handled(key.kind) then Unreachable else NoHandler);
    }
    outcome, error := ReconcileTarget(apis[key], view, list, key, self, claiming, preview, now);
  }
}
