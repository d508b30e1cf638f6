/**
 * internal/controller/automation_controller.go:182-187, 395-628: one reconcile of one Automation. The
 * transition is written before anything that announces it is sent.
 */
module Reconciling {
  import opened Text
  import opened ApiServer
  import opened Automations
  import opened ClaimProtocol
  import opened Evaluation
  import opened Arbitration
  import opened Confluence
  import opened EdgeActions
  import opened Fields
  import opened TargetPasses
  import Retry

  const MAX_ACTION_ATTEMPTS := 5
  const REEVALUATE_INTERVAL := 15_000_000_000

  /** How the last run that wrote or failed to write a target went. */
  datatype Execution = Execution(failed: bool, onExit: bool, attempts: nat)

  /** One stored version of the Automation; `matching` inside it is status, as are the fields beside it. */
  datatype Snapshot = Snapshot(automation: Automation, execution: Option<Execution>, targets: seq<TargetOutcome>,
                               edges: seq<EdgeResult>, report: string, version: nat)

  function StatusStored(s: Snapshot, want: Snapshot): Snapshot {
    var t := Snapshot(s.automation.(matching := want.automation.matching), want.execution, want.targets, want.edges,
                      want.report, s.version);
    if t == s then s else t.(version := s.version + 1)
  }

  /** The API object of one Automation. A status update is refused unless it carries the current version. */
  class AutomationApi {
    var stored: Snapshot
    var faults: seq<Fault>

    constructor (stored: Snapshot, faults: seq<Fault>)
      ensures this.stored == stored && this.faults == faults
    {
      this.stored := stored;
      this.faults := faults;
    }

    method UpdateStatus(want: Snapshot) returns (outcome: Outcome, answer: Snapshot)
      modifies this
      ensures stored == old(stored)
        || (want.version == old(stored).version && stored == StatusStored(old(stored), want))
      ensures outcome.Ok? ==>
        want.version == old(stored).version && stored == StatusStored(old(stored), want) && answer == stored
      ensures old(faults) == [] ==> faults == [] && (want.version == old(stored).version ==> outcome.Ok?)
    {
      answer := want;
      var fault := Deliver;
      if |faults| > 0 {
        fault := faults[0];
        faults := faults[1..];
      }
      if fault == Drop { return Failed(Unavailable), want; }
      if want.version != stored.version { return Failed(Conflict), want; }
      stored := StatusStored(stored, want);
      if fault == LoseAnswer { return Failed(Unavailable), want; }
      return Ok, stored;
    }
  }

  function AttemptsAfter(last: Option<Execution>): nat {
    if last.None? || !last.value.failed then 1 else last.value.attempts + 1
  }

  /** A target that changed makes a run a success, whatever becomes of the targets after it. */
  function AfterChanges(last: Option<Execution>, changed: bool, claiming: bool): Option<Execution> {
    if changed then Some(Execution(false, !claiming, 0)) else last
  }

  /** What a failing pass records: one more failure, counted afresh if it changed a target. */
  function Failure(last: Option<Execution>, changed: bool, claiming: bool): Execution {
    Execution(true, !claiming, AttemptsAfter(AfterChanges(last, changed, claiming)))
  }

  function DelayAfter(attempts: nat): int
    requires attempts >= 1
  {
    if attempts >= MAX_ACTION_ATTEMPTS then REEVALUATE_INTERVAL else Retry.RetryBackoff(attempts)
  }

  datatype Result =
    | Ignored                 // nothing this Automation could do
    | Held                    // in force, and blind
    | Refused                 // the status write was not acknowledged
    | Retry(after: int)       // a target could not be written
    | Committed(fired: bool)  // the pass is recorded, and its edge, if any, was sent
    | Releasing               // being deleted

  /** The edge a pass by `a` commits, if its condition no longer is what was last recorded. */
  predicate Flips(view: View, a: Automation) { Matching(view, a) != a.IsMatching() }

  /** Everything a committed transition sends, and nothing else does. */
  function Announced(view: View, a: Automation, budget: nat): seq<Firing> {
    if Flips(view, a) && a.InForce()
    then Fired(Started(Edges(a, Matching(view, a)), budget), !Matching(view, a))
    else []
  }

  /** Every target the Automation references was taken where one completed pass takes it. */
  ghost predicate AllDone(view: View, list: seq<Automation>, a: Automation, now: string,
                          before: map<TargetKey, Server>, after: map<TargetKey, Server>)
  {
    PassedUpTo(view, list, a, Contributes(view, a), now, before, after, |Targets(a)|)
  }

  /** What a reconcile may do to the stored matching: nothing, or bring it up to date from the version it read. */
  ghost predicate MatchingKept(view: View, read: Snapshot, before: Snapshot, after: Snapshot) {
    || after.automation.matching == before.automation.matching
    || (read.version == before.version && after.automation.matching == Some(Matching(view, read.automation)))
  }

  /** Only a matching read at the current version is the current matching. */
  ghost predicate ReadOnce(read: Snapshot, stored: Snapshot) {
    read.version <= stored.version && (read.version == stored.version ==> read == stored)
  }

  /** Counts the failure and says when to come back. The matching is not written, so the edge stays open. */
  method RecordApplyFailure(api: AutomationApi, copy: Snapshot, claiming: bool) returns (result: Result)
    modifies api
    ensures api.stored == old(api.stored)
      || (copy.version == old(api.stored).version && api.stored.automation.matching == copy.automation.matching
          && api.stored.execution == Some(Execution(true, !claiming, AttemptsAfter(copy.execution))))
    ensures result.Refused? || result.Retry?
    ensures result.Retry? ==>
      && copy.version == old(api.stored).version
      && api.stored.automation.matching == copy.automation.matching
      && api.stored.execution == Some(Execution(true, !claiming, AttemptsAfter(copy.execution)))
      && result.after == DelayAfter(AttemptsAfter(copy.execution))
    ensures old(api.faults) == [] && copy.version == old(api.stored).version ==> result.Retry?
  {
    var attempts := AttemptsAfter(copy.execution);
    var next := copy.(execution := Some(Execution(true, !claiming, attempts)));
    var outcome, answer := api.UpdateStatus(next);
    if outcome.Failed? { return Refused; }
    result := if attempts >= MAX_ACTION_ATTEMPTS then Retry(REEVALUATE_INTERVAL)
              else Retry(Retry.RetryBackoff(attempts));
  }

  /** The block of the spec a transition in this direction runs. */
  function Block(a: Automation, matching: bool): seq<Action> { if matching then a.actions else a.onExit }

  /** What the status says of a transition's edge actions: nothing new if there were none. */
  ghost predicate EdgesRecorded(a: Automation, matching: bool, weather: Weather, was: seq<EdgeResult>,
                                edges: seq<EdgeResult>)
  {
    exists results :: Records(Block(a, matching), !matching, weather, results)
      && edges == if |results| == 0 then was else results
  }

  /** The edge, once the transition is stored; its results are recorded without touching the transition. */
  method Announce(api: AutomationApi, outbox: Outbox, copy: Snapshot, matching: bool, weather: Weather)
    modifies api, outbox
    ensures outbox.sent ==
      old(outbox.sent) + Fired(Started(Edges(copy.automation, matching), weather.budget), !matching)
    ensures api.stored.automation == old(api.stored.automation)
      || (copy.version == old(api.stored).version && api.stored.automation.matching == copy.automation.matching)
    ensures api.stored.execution == old(api.stored.execution) || api.stored.execution == copy.execution
    ensures api.stored.targets == old(api.stored.targets) || api.stored.targets == copy.targets
    ensures old(api.faults) == [] && copy == old(api.stored) ==>
      EdgesRecorded(copy.automation, matching, weather, copy.edges, api.stored.edges)
  {
    var results := RunEdgeActions(outbox, copy.automation, matching, weather);
    assert Records(Block(copy.automation, matching), !matching, weather, results);
    if |results| > 0 {
      var outcome, answer := api.UpdateStatus(copy.(edges := results));
    }
  }

  /** What a committed pass leaves in the status besides the matching. */
  ghost predicate Committing(view: View, read: Snapshot, after: Snapshot, changed: bool, outcomes: seq<TargetOutcome>) {
    && after.automation.matching == Some(Matching(view, read.automation))
    && after.execution == AfterChanges(read.execution, changed, Contributes(view, read.automation))
    && after.targets == outcomes
  }

  /** The write that makes a transition observed, and then, if it was acknowledged, the edge. */
  method Commit(api: AutomationApi, read: Snapshot, outbox: Outbox, view: View, changed: bool,
                outcomes: seq<TargetOutcome>, weather: Weather)
    returns (result: Result)
    requires ReadOnce(read, api.stored)
    modifies api, outbox
    ensures MatchingKept(view, read, old(api.stored), api.stored)
    ensures result.Committed? || result.Refused?
    ensures result.Committed? ==>
      && old(api.stored) == read && Committing(view, read, api.stored, changed, outcomes)
      && outbox.sent == old(outbox.sent) + Announced(view, read.automation, weather.budget)
      && (result.fired <==> Flips(view, read.automation) && read.automation.InForce())
    ensures result.Refused? ==> outbox.sent == old(outbox.sent)
    ensures old(api.faults) == [] && read.version == old(api.stored).version ==> result.Committed?
    ensures old(api.faults) == [] && result.Committed? && result.fired ==>
      EdgesRecorded(read.automation, Matching(view, read.automation), weather, read.edges, api.stored.edges)
  {
    var a, matching := read.automation, Matching(view, read.automation);
    var copy := read.(report := "applied", targets := outcomes, automation := a.(matching := Some(matching)));
    if changed {
      copy := copy.(execution := Some(Execution(false, !(matching && a.InForce()), 0)));
    }
    var outcome, answer := api.UpdateStatus(copy);
    if outcome.Failed? { return Refused; }
    if matching == a.IsMatching() || !a.InForce() { return Committed(false); }
    assert answer.automation == copy.automation && answer.execution == copy.execution;
    Announce(api, outbox, answer, matching, weather);
    result := Committed(true);
  }

  ghost predicate AnyMoved(keys: seq<TargetKey>, before: map<TargetKey, Server>, after: map<TargetKey, Server>) {
    exists key :: key in keys && Moved(before, after, key)
  }

  /**
   * A pass that got through the first `n` targets and failed on the next. It counts as a change if one
   * of those moved, and only if one of those or the failing one did.
   */
  ghost predicate FailedAt(view: View, list: seq<Automation>, a: Automation, now: string,
                           before: map<TargetKey, Server>, after: map<TargetKey, Server>, changed: bool, n: nat)
  {
    && n < |Targets(a)|
    && PassedUpTo(view, list, a, Contributes(view, a), now, before, after, n)
    && (AnyMoved(Targets(a)[..n], before, after) ==> changed)
    && (changed ==> AnyMoved(Targets(a)[..n + 1], before, after))
  }

  predicate RecordsFailure(result: Result, after: Snapshot, failure: Execution) {
    && result.Retry? && failure.attempts >= 1 && after.execution == Some(failure)
    && result.after == DelayAfter(failure.attempts)
  }

  /** What a failed pass leaves in the status, and when the next one is due. */
  ghost predicate CountsTheFailure(view: View, list: seq<Automation>, read: Snapshot, now: string, result: Result,
                                   after: Snapshot,
                                   was: map<TargetKey, Server>, reached: map<TargetKey, Server>)
  {
    exists changed, n :: FailedAt(view, list, read.automation, now, was, reached, changed, n)
      && RecordsFailure(result, after, Failure(read.execution, changed, Contributes(view, read.automation)))
  }

  /** Every target was taken where one completed pass takes it, and the status says so, target by target. */
  ghost predicate CommitsThePass(view: View, list: seq<Automation>, read: Snapshot, now: string, after: Snapshot,
                                 was: map<TargetKey, Server>, reached: map<TargetKey, Server>)
  {
    var a := read.automation;
    && AllDone(view, list, a, now, was, reached)
    && Committing(view, read, after, AnyMoved(Targets(a), was, reached), after.targets)
    && |after.targets| == |Targets(a)|
    && TellsAll(view, list, a, Contributes(view, a), !a.InForce(), was, reached, after.targets, |Targets(a)|)
  }

  /** The whole promise of one reconcile, from one state of the world to the next. */
  ghost predicate CommitsBeforeFiring(view: View, list: seq<Automation>, read: Snapshot, now: string, budget: nat,
                                      result: Result,
                                      before: Snapshot, after: Snapshot, was: map<TargetKey, Server>,
                                      reached: map<TargetKey, Server>,
                                      said: seq<Firing>, says: seq<Firing>)
  {
    // The stored matching moves only from what was read to what holds, and only after every target did.
    && MatchingKept(view, read, before, after)
    && (after.automation.matching != before.automation.matching ==>
          MayAct(view, read.automation) && AllDone(view, list, read.automation, now, was, reached))
    // What is sent is sent for a transition that is stored, and for every such transition in force.
    && (result.Committed? ==>
          && MayAct(view, read.automation)
          && before == read && CommitsThePass(view, list, read, now, after, was, reached)
          && says == said + Announced(view, read.automation, budget)
          && (result.fired <==> Flips(view, read.automation) && read.automation.InForce()))
    && (!result.Committed? ==> says == said)
    // A failed target, like blindness, leaves the transition uncommitted.
    && (result.Retry? || result.Held? ==> after.automation.matching == before.automation.matching)
    && (result.Held? ==> reached == was && after.execution == before.execution && after.targets == before.targets
                         && after.edges == before.edges)
    // Whatever became of the status, the targets are where a pass over them may leave them.
    && (MayAct(view, read.automation) && (result.Committed? || result.Refused? || result.Retry?) ==>
          exists n :: PassedUpTo(view, list, read.automation, Contributes(view, read.automation), now, was, reached, n))
    && (result.Retry? ==> before == read && MayAct(view, read.automation)
                          && CountsTheFailure(view, list, read, now, result, after, was, reached))
  }

  ghost predicate AllAnswer(apis: map<TargetKey, Api>, a: Automation)
    reads apis.Values
  {
    forall key | key in Targets(a) :: Answers(apis, key)
  }

  lemma OutcomesShowMoves(outcomes: seq<TargetOutcome>, keys: seq<TargetKey>, before: map<TargetKey, Server>,
                          after: map<TargetKey, Server>, done: nat)
    requires done <= |outcomes| <= |keys| && ReportsMoves(outcomes, keys, before, after, done)
    ensures var changed := exists o :: o in outcomes && o.changed;
      && (AnyMoved(keys[..done], before, after) ==> changed)
      && (changed ==> AnyMoved(keys[..|outcomes|], before, after))
  {
    if key :| key in keys[..done] && Moved(before, after, key) {
      var i :| 0 <= i < done && keys[i] == key;
      assert outcomes[i] in outcomes;
    }
    if o :| o in outcomes && o.changed {
      var i :| 0 <= i < |outcomes| && outcomes[i] == o;
      assert keys[i] == keys[..|outcomes|][i];
    }
  }

  lemma FailedPassAt(view: View, list: seq<Automation>, a: Automation, now: string, was: map<TargetKey, Server>,
                     reached: map<TargetKey, Server>, outcomes: seq<TargetOutcome>)
    requires |outcomes| > 0
    requires PassedOver(view, list, a, Contributes(view, a), now, was, reached, outcomes, |outcomes| - 1)
    requires Tried(view, list, a, Contributes(view, a), now, was, reached, Targets(a)[|outcomes| - 1])
    ensures FailedAt(view, list, a, now, was, reached, exists o :: o in outcomes && o.changed, |outcomes| - 1)
  {
    OutcomesShowMoves(outcomes, Targets(a), was, reached, |outcomes| - 1);
  }

  lemma CompletedPass(view: View, list: seq<Automation>, a: Automation, now: string, was: map<TargetKey, Server>,
                      reached: map<TargetKey, Server>, outcomes: seq<TargetOutcome>)
    requires |outcomes| == |Targets(a)|
    requires PassedOver(view, list, a, Contributes(view, a), now, was, reached, outcomes, |outcomes|)
    ensures AllDone(view, list, a, now, was, reached)
    ensures (exists o :: o in outcomes && o.changed) <==> AnyMoved(Targets(a), was, reached)
  {
    OutcomesShowMoves(outcomes, Targets(a), was, reached, |outcomes|);
    assert Targets(a)[..|outcomes|] == Targets(a);
  }

  /** How the targets went: all done and reported on, or up to a failure. */
  ghost predicate Attempted(view: View, list: seq<Automation>, a: Automation, now: string,
                            was: map<TargetKey, Server>, reached: map<TargetKey, Server>,
                            outcomes: seq<TargetOutcome>, changed: bool, error: Option<PassError>)
  {
    if error.Some? then exists n :: FailedAt(view, list, a, now, was, reached, changed, n)
    else
      && AllDone(view, list, a, now, was, reached) && changed == AnyMoved(Targets(a), was, reached)
      && |outcomes| == |Targets(a)|
      && TellsAll(view, list, a, Contributes(view, a), !a.InForce(), was, reached, outcomes, |outcomes|)
  }

  lemma AttemptedPasses(view: View, list: seq<Automation>, a: Automation, now: string, was: map<TargetKey, Server>,
                        reached: map<TargetKey, Server>, outcomes: seq<TargetOutcome>, changed: bool,
                        error: Option<PassError>)
    requires Attempted(view, list, a, now, was, reached, outcomes, changed, error)
    ensures exists n :: PassedUpTo(view, list, a, Contributes(view, a), now, was, reached, n)
  {
    if error.Some? {
      var n :| FailedAt(view, list, a, now, was, reached, changed, n);
      assert PassedUpTo(view, list, a, Contributes(view, a), now, was, reached, n);
    } else {
      assert PassedUpTo(view, list, a, Contributes(view, a), now, was, reached, |Targets(a)|);
    }
  }

  /** Every target of an Automation, under the stance its condition gives it. */
  method ApplyAll(apis: map<TargetKey, Api>, view: View, list: seq<Automation>, a: Automation, now: string)
    returns (claiming: bool, outcomes: seq<TargetOutcome>, changed: bool, error: Option<PassError>)
    requires Separate(apis)
    modifies apis.Values
    ensures claiming == Contributes(view, a)
    ensures Attempted(view, list, a, now, old(Servers(apis)), Servers(apis), outcomes, changed, error)
    ensures old(AllAnswer(apis, a)) ==> error.None?
  {
    ghost var was := Servers(apis);
    var matching := MatchingOf(view, a);
    claiming := matching && a.InForce();
    outcomes, error := ReconcileTargets(apis, view, list, a, claiming, !a.InForce(), now);
    changed := exists o :: o in outcomes && o.changed;
    if error.Some? {
      FailedPassAt(view, list, a, now, was, Servers(apis), outcomes);
    } else {
      CompletedPass(view, list, a, now, was, Servers(apis), outcomes);
    }
  }

  /** A failed pass: a success if it changed a target, and then a failure on top of that. */
  method ConcludeFailure(api: AutomationApi, read: Snapshot, claiming: bool, changed: bool,
                         outcomes: seq<TargetOutcome>)
    returns (result: Result)
    requires ReadOnce(read, api.stored)
    modifies api
    ensures result.Refused? || result.Retry?
    ensures api.stored.automation.matching == old(api.stored).automation.matching
    ensures result.Retry? ==>
      old(api.stored) == read && RecordsFailure(result, api.stored, Failure(read.execution, changed, claiming))
    ensures old(api.faults) == [] && read == old(api.stored) ==> result.Retry?
  {
    var copy := read.(report := "failed", targets := outcomes);
    if changed {
      copy := copy.(execution := Some(Execution(false, !claiming, 0)));
    }
    result := RecordApplyFailure(api, copy, claiming);
  }

  /** What is recorded and sent once the targets have been attempted. */
  method Conclude(api: AutomationApi, read: Snapshot, outbox: Outbox, view: View, ghost list: seq<Automation>,
                  ghost now: string, claiming: bool, outcomes: seq<TargetOutcome>, changed: bool,
                  error: Option<PassError>, weather: Weather,
                  ghost was: map<TargetKey, Server>, ghost reached: map<TargetKey, Server>)
    returns (result: Result)
    requires ReadOnce(read, api.stored) && MayAct(view, read.automation)
    requires claiming == Contributes(view, read.automation)
    requires Attempted(view, list, read.automation, now, was, reached, outcomes, changed, error)
    modifies api, outbox
    ensures result.Committed? || result.Refused? || result.Retry?
    ensures old(api.faults) == [] && read == old(api.stored) ==>
      if error.None? then result.Committed? else result.Retry?
    ensures old(api.faults) == [] && result.Committed? && result.fired ==>
      EdgesRecorded(read.automation, Matching(view, read.automation), weather, read.edges, api.stored.edges)
    ensures CommitsBeforeFiring(view, list, read, now, weather.budget, result, old(api.stored), api.stored,
                                was, reached, old(outbox.sent), outbox.sent)
  {
    AttemptedPasses(view, list, read.automation, now, was, reached, outcomes, changed, error);
    if error.Some? {
      result := ConcludeFailure(api, read, claiming, changed, outcomes);
    } else {
      result := Commit(api, read, outbox, view, changed, outcomes, weather);
    }
  }

  /** Recording a pass moves no target. */
  twostate lemma ServersStay(apis: map<TargetKey, Api>)
    requires forall key | key in apis :: apis[key].server == old(apis[key].server)
    ensures Servers(apis) == old(Servers(apis))
  {
  }

  /** The pass of an Automation that may act: all its targets, and then the commit. */
  method ActOn(api: AutomationApi, read: Snapshot, apis: map<TargetKey, Api>, outbox: Outbox,
               view: View, list: seq<Automation>, now: string, weather: Weather)
    returns (result: Result, ghost reached: map<TargetKey, Server>)
    requires ReadOnce(read, api.stored) && Separate(apis) && MayAct(view, read.automation)
    modifies api, apis.Values, outbox
    ensures result.Committed? || result.Refused? || result.Retry?
    ensures old(api.faults) == [] && read == old(api.stored) ==> !result.Refused?
    ensures (old(AllAnswer(apis, read.automation)) && old(api.faults) == [] && read == old(api.stored)) ==>
      result.Committed?
    ensures old(api.faults) == [] && result.Committed? && result.fired ==>
      EdgesRecorded(read.automation, Matching(view, read.automation), weather, read.edges, api.stored.edges)
    ensures reached == Servers(apis)
    ensures CommitsBeforeFiring(view, list, read, now, weather.budget, result, old(api.stored), api.stored,
                                old(Servers(apis)), reached, old(outbox.sent), outbox.sent)
  {
    ghost var was := Servers(apis);
    var claiming, outcomes, changed, error := ApplyAll(apis, view, list, read.automation, now);
    reached := Servers(apis);
    label attempted:
    result := Conclude(api, read, outbox, view, list, now, claiming, outcomes, changed, error, weather, was, reached);
    ServersStay@attempted(apis);
  }

  /** A deleted Automation hands back what nobody else claims: a pass over all its targets without its claim. */
  method HandBack(apis: map<TargetKey, Api>, view: View, list: seq<Automation>, a: Automation, now: string)
    requires Separate(apis)
    modifies apis.Values
    ensures exists n :: PassedUpTo(view, list, a, false, now, old(Servers(apis)), Servers(apis), n)
    ensures old(AllAnswer(apis, a)) ==>
      PassedUpTo(view, list, a, false, now, old(Servers(apis)), Servers(apis), |Targets(a)|)
  {
    ghost var was := Servers(apis);
    var outcomes, error := ReconcileTargets(apis, view, list, a, false, false, now);
    ghost var done := if error.None? then |outcomes| else |outcomes| - 1;
    assert PassedUpTo(view, list, a, false, now, was, Servers(apis), done);
  }

  method Reconcile(api: AutomationApi, read: Snapshot, apis: map<TargetKey, Api>, outbox: Outbox,
                   view: View, list: seq<Automation>, now: string, weather: Weather)
    returns (result: Result)
    requires ReadOnce(read, api.stored) && Separate(apis)
    modifies api, apis.Values, outbox
    ensures CommitsBeforeFiring(view, list, read, now, weather.budget, result, old(api.stored), api.stored,
                                old(Servers(apis)), Servers(apis), old(outbox.sent), outbox.sent)
    // With the current version in hand and every call answered, a pass that may act is committed; and a
    // status write that is answered is never refused.
    ensures (
      && !read.automation.deleting && read.automation.condition.Some?
      && (Acting(read.automation) ==> Sees(view, read.automation))
      && old(AllAnswer(apis, read.automation)) && old(api.faults) == [] && read == old(api.stored)) ==>
        result.Committed?
    ensures old(api.faults) == [] && read == old(api.stored) ==> !result.Refused?
    ensures old(api.faults) == [] && result.Committed? && result.fired ==>
      EdgesRecorded(read.automation, Matching(view, read.automation), weather, read.edges, api.stored.edges)
    // In force and blind: no target is touched and no transition recorded, whatever becomes of the report.
    ensures read.automation.condition.Some? && Acting(read.automation) && !Sees(view, read.automation) ==>
      && (result.Held? || result.Refused?)
      && Servers(apis) == old(Servers(apis)) && outbox.sent == old(outbox.sent)
      && api.stored.automation.matching == old(api.stored.automation.matching)
    // Being deleted: its targets are handed back, all of them if they answer, and nothing is announced.
    ensures result.Releasing? <==> read.automation.deleting
    ensures result.Releasing? ==>
      && api.stored == old(api.stored) && outbox.sent == old(outbox.sent)
      && (exists n :: PassedUpTo(view, list, read.automation, false, now, old(Servers(apis)), Servers(apis), n))
      && (old(AllAnswer(apis, read.automation)) ==>
            PassedUpTo(view, list, read.automation, false, now, old(Servers(apis)), Servers(apis),
                       |Targets(read.automation)|))
    // Without a condition it does nothing at all.
    ensures result.Ignored? <==> !read.automation.deleting && read.automation.condition.None?
    ensures result.Ignored? ==>
      api.stored == old(api.stored) && Servers(apis) == old(Servers(apis)) && outbox.sent == old(outbox.sent)
  {
    var a := read.automation;
    if a.deleting {
      HandBack(apis, view, list, a, now);
      return Releasing;
    }
    if a.condition.None? { return Ignored; }
    MatchingMeans(view, a);
    var assessment := Evaluate(view, a);
    if a.InForce() && (!assessment.known || assessment.missing != []) {
      var outcome, answer := api.UpdateStatus(read.(report := "held"));
      return if outcome.Ok? then Held else Refused;
    }
    ghost var reached;
    result, reached := ActOn(api, read, apis, outbox, view, list, now, weather);
  }

  // ------------------------------------------------------------------------ the retry budget

  /** Failures counted so far: none, if the last run succeeded or there was none. */
  function Counted(last: Option<Execution>): nat {
    if last.None? || !last.value.failed then 0 else last.value.attempts
  }

  /** The count after failing passes, each saying whether it changed a target, on top of `counted`. */
  function CountAfter(counted: nat, passes: seq<bool>): nat {
    if |passes| == 0 then counted
    else if passes[|passes| - 1] then 1
    else CountAfter(counted, passes[..|passes| - 1]) + 1
  }

  /** Each recorded execution is the failure of a pass over the one before. */
  ghost predicate FailingRun(executions: seq<Option<Execution>>, passes: seq<bool>, claiming: seq<bool>) {
    && |executions| == |passes| + 1 == |claiming| + 1
    && forall i | 0 <= i < |passes| :: executions[i + 1] == Some(Failure(executions[i], passes[i], claiming[i]))
  }

  /** What is recorded over a run of failing passes is the count. */
  lemma {:induction false} RecordedCount(executions: seq<Option<Execution>>, passes: seq<bool>, claiming: seq<bool>,
                                         n: nat)
    requires FailingRun(executions, passes, claiming) && n <= |passes|
    ensures Counted(executions[n]) == CountAfter(Counted(executions[0]), passes[..n])
  {
    if n > 0 {
      RecordedCount(executions, passes, claiming, n - 1);
      assert passes[..n][..n - 1] == passes[..n - 1];
    }
  }

  /** A count of `m` needs a quiet tail: the last `m - 1` passes changed nothing, and there were enough. */
  lemma {:induction false} CountNeedsQuiet(counted: nat, passes: seq<bool>, m: nat)
    requires m >= 1
    ensures CountAfter(counted, passes) >= m <==>
      && (forall i | 0 <= i < |passes| && i > |passes| - m :: !passes[i])
      && (|passes| >= m || counted + |passes| >= m)
  {
    if |passes| > 0 {
      var front := passes[..|passes| - 1];
      if m > 1 {
        CountNeedsQuiet(counted, front, m - 1);
        assert forall i | 0 <= i < |front| :: front[i] == passes[i];
      }
    }
  }

  /**
   * The budget over a run of failing passes: Reactor stops backing off after the n-th if and only if
   * none of the four passes up to it changed a target, and at least five failures are counted in all.
   * A pass that fails after changing a target therefore starts the budget again.
   */
  lemma BudgetIsSpentWhen(executions: seq<Option<Execution>>, passes: seq<bool>, claiming: seq<bool>, n: nat)
    requires FailingRun(executions, passes, claiming) && 0 < n <= |passes|
    ensures executions[n].Some? && executions[n].value.attempts >= 1
    ensures executions[n].value.attempts >= MAX_ACTION_ATTEMPTS <==>
      && (forall i | 0 <= i < n && i >= n - 4 :: !passes[i])
      && (n >= 5 || Counted(executions[0]) + n >= 5)
  {
    RecordedCount(executions, passes, claiming, n);
    CountNeedsQuiet(Counted(executions[0]), passes[..n], MAX_ACTION_ATTEMPTS);
    assert executions[n] == Some(Failure(executions[n - 1], passes[n - 1], claiming[n - 1]));
    assert forall i | 0 <= i < n :: passes[..n][i] == passes[i];
  }

  /** Failing passes that each change a target never spend it, however many there are. */
  lemma {:induction false} ChangingPassesNeverSpend(last: Option<Execution>, n: nat)
    returns (executions: seq<Option<Execution>>, passes: seq<bool>, claiming: seq<bool>)
    ensures FailingRun(executions, passes, claiming) && |passes| == n && executions[0] == last
    ensures forall i | 0 < i <= n :: executions[i].Some? && executions[i].value.attempts == 1
  {
    if n == 0 {
      return [last], [], [];
    }
    executions, passes, claiming := ChangingPassesNeverSpend(last, n - 1);
    var more := executions + [Some(Failure(executions[n - 1], true, true))];
    forall i | 0 <= i < n
      ensures more[i + 1] == Some(Failure(more[i], (passes + [true])[i], (claiming + [true])[i]))
    {
      if i < n - 1 { assert executions[i + 1] == Some(Failure(executions[i], passes[i], claiming[i])); }
    }
    executions, passes, claiming := more, passes + [true], claiming + [true];
  }
}
