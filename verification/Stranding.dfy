/**
 * When, exactly, a claim can come to write a level onto a target with no baseline: the gap between the
 * lock on recording one and the writes that go without (internal/controller/arbitration.go:863-868,
 * 908-923). LostLevels is about the levels that are recorded afterwards.
 */
module Stranding {
  import opened Arbiter
  import opened Text
  import opened TargetKinds
  import opened ApiServer
  import opened ClaimProtocol
  import opened Interleaving

  /** The last step is a claim's call that moves the level of a target with nothing recorded. */
  ghost predicate EndsInLoss(kind: Kind, states: seq<System>, events: seq<Event>)
    requires Handled(kind)
  {
    && |states| == |events| + 1 && |events| > 0
    && var before, after, e := states[|events| - 1], states[|events|], events[|events| - 1];
       && ClaimCall(before, e) && after.server.level != before.server.level
       && !Recorded(kind, before.server) && !Recorded(kind, after.server)
  }

  /** From here, without any further step that strands a claim, some claim writes with nothing recorded. */
  ghost predicate Loses(kind: Kind, sys: System)
    requires Handled(kind)
  {
    exists states, events :: LosesBy(kind, sys, states, events)
  }

  ghost predicate LosesBy(kind: Kind, sys: System, states: seq<System>, events: seq<Event>)
    requires Handled(kind)
  {
    && Path(kind, states, events) && states[0] == sys
    && NeverStrands(kind, states, events) && EndsInLoss(kind, states, events)
  }

  // ------------------------------------------------------------------- safe states stay safe

  lemma {:induction false} PathKeepsSafe(kind: Kind, states: seq<System>, events: seq<Event>, n: nat)
    requires Handled(kind) && Path(kind, states, events) && NeverStrands(kind, states, events) && n < |states|
    requires Inv(kind, states[0]) && Safe(kind, states[0])
    ensures Inv(kind, states[n]) && Safe(kind, states[n])
  {
    if n > 0 {
      PathKeepsSafe(kind, states, events, n - 1);
      assert StepAt(kind, states, events, n - 1) && !StrandsAt(kind, states, events, n - 1);
      NextKeepsInv(kind, states[n - 1], events[n - 1], states[n]);
      SafeUnlessStranded(kind, states[n - 1], events[n - 1], states[n]);
    }
  }

  lemma SafeDoesNotLose(kind: Kind, sys: System, states: seq<System>, events: seq<Event>)
    requires Handled(kind) && Inv(kind, sys) && Safe(kind, sys)
    ensures !LosesBy(kind, sys, states, events)
  {
    if LosesBy(kind, sys, states, events) {
      var n := |events| - 1;
      PathKeepsSafe(kind, states, events, n);
      assert StepAt(kind, states, events, n);
      SafeClaimWritesRecorded(kind, states[n].tasks[events[n].id], states[n].server);
      assert false;
    }
  }

  // --------------------------------------------------------------- an endangered claim writes

  /** Steps nobody could object to: calls of claims, and levels set by others. */
  predicate Harmless(sys: System, e: Event) { ClaimCall(sys, e) || e.SetLevel? }

  ghost predicate StepLoses(kind: Kind, sys: System, e: Event, next: System)
    requires Handled(kind)
  {
    && Next(kind, sys, e, next) && ClaimCall(sys, e) && next.server.level != sys.server.level
    && !Recorded(kind, sys.server) && !Recorded(kind, next.server)
  }

  lemma LosesNow(kind: Kind, sys: System, e: Event, next: System)
    requires Handled(kind) && StepLoses(kind, sys, e, next)
    ensures Loses(kind, sys)
  {
    var states, events := [sys, next], [e];
    assert StepAt(kind, states, events, 0) && !StrandsAt(kind, states, events, 0);
    assert LosesBy(kind, sys, states, events);
  }

  lemma LosesNext(kind: Kind, sys: System, e: Event, next: System)
    requires Handled(kind) && Next(kind, sys, e, next) && Harmless(sys, e) && Loses(kind, next)
    ensures Loses(kind, sys)
  {
    var states, events :| LosesBy(kind, next, states, events);
    var all, more := [sys] + states, [e] + events;
    forall i | 0 <= i < |more| ensures StepAt(kind, all, more, i) && !StrandsAt(kind, all, more, i) {
      if i > 0 { assert StepAt(kind, states, events, i - 1) && !StrandsAt(kind, states, events, i - 1); }
    }
    assert all[|more|] == states[|events|] && all[|more| - 1] == states[|events| - 1];
    assert LosesBy(kind, sys, all, more);
  }

  function AfterCall(kind: Kind, sys: System, id: nat): System
    requires Handled(kind) && id in sys.tasks
  {
    var (after, s) := Act(kind, sys.tasks[id], sys.server);
    System(s, sys.past + [s], if after.Some? then sys.tasks[id := after.value] else sys.tasks - {id})
  }

  function AfterSetLevel(sys: System, to: int): System { Seen(sys, PatchLevel(sys.server, to)) }

  /** A scale read at the current version, at another level: the update goes through. */
  lemma ScalingLoses(kind: Kind, sys: System, id: nat)
    requires Handled(kind) && id in sys.tasks && sys.tasks[id].Scaling? && !Recorded(kind, sys.server)
    requires sys.tasks[id].version == sys.server.version && sys.tasks[id].claim.level != sys.server.level
    ensures Loses(kind, sys)
  {
    LosesNow(kind, sys, Call(id), AfterCall(kind, sys, id));
  }

  /** An unsatisfied claim on a target at some other level. */
  lemma ApplyingLoses(kind: Kind, sys: System, id: nat)
    requires Handled(kind) && id in sys.tasks && sys.tasks[id].Applying? && !Recorded(kind, sys.server)
    requires !Satisfied(kind, sys.tasks[id].copy, sys.tasks[id].claim.level)
    requires sys.server.level != Written(kind, sys.tasks[id].claim.level)
    ensures Loses(kind, sys)
  {
    var next := AfterCall(kind, sys, id);
    if Scalable(kind) {
      ScalingLoses(kind, next, id);
      LosesNext(kind, sys, Call(id), next);
    } else {
      LosesNow(kind, sys, Call(id), next);
    }
  }

  lemma ReadingLoses(kind: Kind, sys: System, id: nat)
    requires Handled(kind) && id in sys.tasks && sys.tasks[id].Reading? && !Recorded(kind, sys.server)
    requires Exposed(kind, sys.tasks[id]) && sys.server.level != Written(kind, sys.tasks[id].claim.level)
    ensures Loses(kind, sys)
  {
    var t, next := sys.tasks[id], AfterCall(kind, sys, id);
    ClaimantsSent(kind, t.copy, sys.server, t.claim.claimedBy);
    ApplyingLoses(kind, next, id);
    LosesNext(kind, sys, Call(id), next);
  }

  /** Some level the target may be given that is not the one the claim is after. */
  function Elsewhere(kind: Kind, job: Job): (to: int)
    ensures Holds(kind, to) && to != Written(kind, job.level)
  {
    if Written(kind, job.level) == 0 then 1 else 0
  }

  /** An endangered claim needs no further help than somebody else moving the level out of its way. */
  lemma EndangeredLoses(kind: Kind, sys: System, id: nat)
    requires Handled(kind) && Inv(kind, sys) && id in sys.tasks && Endangered(kind, sys.tasks[id], sys.server)
    ensures Loses(kind, sys)
  {
    var t := sys.tasks[id];
    if t.Scaling? { ScalingLoses(kind, sys, id); return; }
    var to := Elsewhere(kind, t.claim);
    var apart := if sys.server.level != Written(kind, t.claim.level) then sys else AfterSetLevel(sys, to);
    assert apart.tasks == sys.tasks && apart.server.annotations == sys.server.annotations;
    if t.Reading? { ReadingLoses(kind, apart, id); } else { ApplyingLoses(kind, apart, id); }
    if apart != sys { LosesNext(kind, sys, SetLevel(to), apart); }
  }

  // ------------------------------------------------------------------------------ theorems

  /**
   * In every state any interleaving can reach: some claim goes on to write a level onto a target with
   * no baseline, without a step that strands it, if and only if one is endangered already.
   */
  lemma LossIsEndangerment(kind: Kind, states: seq<System>, events: seq<Event>, n: nat)
    requires Handled(kind) && Trace(kind, states, events) && n < |states|
    ensures Loses(kind, states[n]) <==> !Safe(kind, states[n])
  {
    TraceKeepsInv(kind, states, events, n);
    if Safe(kind, states[n]) {
      forall more, all ensures !LosesBy(kind, states[n], more, all) { SafeDoesNotLose(kind, states[n], more, all); }
    } else {
      var id :| id in states[n].tasks && Endangered(kind, states[n].tasks[id], states[n].server);
      EndangeredLoses(kind, states[n], id);
    }
  }

  /**
   * The guard is exact. After a run in which no step stranded a claim, the next step lets some claim
   * write a level onto a target with no baseline if and only if that step strands one.
   */
  lemma LossBeginsByStranding(kind: Kind, states: seq<System>, events: seq<Event>, n: nat)
    requires Handled(kind) && Trace(kind, states, events) && n < |events|
    requires NeverStrands(kind, states[..n + 1], events[..n])
    ensures !Loses(kind, states[n])
    ensures Loses(kind, states[n + 1]) <==> Strands(kind, states[n], events[n])
  {
    var past, sofar := states[..n + 1], events[..n];
    assert Trace(kind, past, sofar) by {
      forall i | 0 <= i < n ensures StepAt(kind, past, sofar, i) { assert StepAt(kind, states, events, i); }
    }
    TraceKeepsInv(kind, past, sofar, n);
    assert StepAt(kind, states, events, n);
    SafeUnlessStranded(kind, states[n], events[n], states[n + 1]);
    LossIsEndangerment(kind, states, events, n);
    LossIsEndangerment(kind, states, events, n + 1);
  }

  /**
   * For a release in particular: once it takes the baseline off, a claim can lose the level if and only
   * if one was in flight that had seen that baseline and was not satisfied with its copy.
   */
  lemma ClearingLosesByExposedClaims(kind: Kind, states: seq<System>, events: seq<Event>, n: nat)
    requires Handled(kind) && Trace(kind, states, events) && n < |events|
    requires NeverStrands(kind, states[..n + 1], events[..n]) && Unrecords(kind, states[n], events[n])
    ensures Loses(kind, states[n + 1]) <==>
      exists id :: id in states[n].tasks && Exposed(kind, states[n].tasks[id])
  {
    LossBeginsByStranding(kind, states, events, n);
  }

  // ---------------------------------------------------------------------- both ways happen

  function Last(states: seq<System>): System
    requires |states| > 0
  {
    states[|states| - 1]
  }

  /** A run in which no step stranded a claim. */
  ghost predicate Clean(kind: Kind, states: seq<System>, events: seq<Event>)
    requires Handled(kind)
  {
    Trace(kind, states, events) && NeverStrands(kind, states, events)
  }

  lemma Extend(kind: Kind, states: seq<System>, events: seq<Event>, e: Event, next: System)
    requires Handled(kind) && Trace(kind, states, events) && Next(kind, Last(states), e, next)
    ensures Trace(kind, states + [next], events + [e])
    ensures NeverStrands(kind, states, events) && !Strands(kind, Last(states), e) ==>
      NeverStrands(kind, states + [next], events + [e])
  {
    var more, all := states + [next], events + [e];
    forall i | 0 <= i < |all| ensures StepAt(kind, more, all, i) {
      if i < |events| { assert StepAt(kind, states, events, i); }
    }
    if NeverStrands(kind, states, events) && !Strands(kind, Last(states), e) {
      forall i | 0 <= i < |all| ensures !StrandsAt(kind, more, all, i) {
        if i < |events| { assert !StrandsAt(kind, states, events, i); }
      }
    }
  }

  lemma TakeStep(kind: Kind, states: seq<System>, events: seq<Event>, e: Event, next: System)
    returns (more: seq<System>, all: seq<Event>)
    requires Handled(kind) && Clean(kind, states, events)
    requires Next(kind, Last(states), e, next) && !Strands(kind, Last(states), e)
    ensures Clean(kind, more, all) && Last(more) == next && more[0] == states[0]
    ensures more == states + [next] && all == events + [e]
  {
    more, all := states + [next], events + [e];
    Extend(kind, states, events, e, next);
  }

  /** What a claim's calls do to a target with nothing recorded. */
  lemma ClaimCalls(kind: Kind, s: Server, job: Job, held: Server)
    requires Handled(kind) && !Recorded(kind, s) && held == Claimed(kind, s, job.claimedBy, job.now)
    ensures Recorded(kind, held) && held.level == s.level
    ensures Act(kind, Reading(job, 0, s), s) == (Some(Recording(job, 0, s, s.level)), s)
    ensures Act(kind, Recording(job, 0, s, s.level), s) == (Some(Applying(job, held)), held)
  {
    BaselinePatch(kind, s, job.claimedBy, job.now);
    AnnotationsDiffer();
  }

  /** What a release's calls do to one at the level it is handed back at. */
  lemma ReleaseCalls(kind: Kind, held: Server)
    requires Handled(kind) && Recorded(kind, held) && Holds(kind, held.level)
    ensures Act(kind, Restoring(Some(held.level), held), held) == (Some(Clearing(Some(held.level), held)), held)
    ensures Act(kind, Clearing(Some(held.level), held), held) == (None, Cleared(held)) && !Recorded(kind, Cleared(held))
  {
    PatchFromExactCopy(held.annotations, held.annotations - CLAIM_ANNOTATIONS);
  }

  /** A claim gets as far as its level. */
  lemma ClaimRecords(kind: Kind, s: Server, job: Job, held: Server) returns (states: seq<System>, events: seq<Event>)
    requires Handled(kind) && Holds(kind, s.level) && !Recorded(kind, s) && Fits(job.level)
    requires held == Claimed(kind, s, job.claimedBy, job.now)
    ensures Clean(kind, states, events) && states[0].server == s
    ensures Last(states).server == held && Last(states).tasks == map[0 := Applying(job, held)]
    ensures held in Last(states).past
  {
    ClaimCalls(kind, s, job, held);
    states, events := [System(s, [s], map[])], [];
    states, events := TakeStep(kind, states, events, BeginClaim(0, job, 0),
                               System(s, [s], map[0 := Reading(job, 0, s)]));
    states, events := TakeStep(kind, states, events, Call(0), AfterCall(kind, Last(states), 0));
    states, events := TakeStep(kind, states, events, Call(0), AfterCall(kind, Last(states), 0));
  }

  /** A release starts from there, hands back the level the target still has, and is about to clear. */
  lemma ReleaseRestores(kind: Kind, held: Server, states: seq<System>, events: seq<Event>)
    returns (more: seq<System>, all: seq<Event>)
    requires Handled(kind) && Clean(kind, states, events) && Last(states).server == held && held in Last(states).past
    requires Recorded(kind, held) && Holds(kind, held.level) && Fits(held.level) && 1 !in Last(states).tasks
    ensures Clean(kind, more, all) && more[0] == states[0] && Last(more).server == held && held in Last(more).past
    ensures Last(more).tasks == Last(states).tasks[1 := Clearing(Some(held.level), held)]
  {
    var sys := Last(states);
    var reading := Position(sys.past, held);
    ReleaseCalls(kind, held);
    more, all := TakeStep(kind, states, events, BeginRelease(1, Some(held.level), reading),
                      sys.(tasks := sys.tasks[1 := Restoring(Some(held.level), held)]));
    more, all := TakeStep(kind, more, all, Call(1), AfterCall(kind, Last(more), 1));
  }

  /**
   * The first way. On a target of any kind, at any level, a release that completes between a claim's
   * recording and its level strands that claim, and the level the target had can be lost.
   */
  lemma OverlappingReleaseLosesTheBaseline(kind: Kind, s: Server, job: Job)
    returns (states: seq<System>, events: seq<Event>, e: Event, next: System)
    requires Handled(kind) && Holds(kind, s.level) && !Recorded(kind, s) && Fits(job.level)
    requires Written(kind, job.level) != s.level
    ensures Clean(kind, states, events) && states[0].server == s
    ensures Next(kind, Last(states), e, next) && Unrecords(kind, Last(states), e) && Strands(kind, Last(states), e)
    ensures Loses(kind, next)
  {
    var held := Claimed(kind, s, job.claimedBy, job.now);
    ClaimCalls(kind, s, job, held);
    states, events := ClaimRecords(kind, s, job, held);
    states, events := ReleaseRestores(kind, held, states, events);
    ReleaseCalls(kind, held);
    e, next := Call(1), AfterCall(kind, Last(states), 1);
    Extend(kind, states, events, e, next);
    TraceKeepsInv(kind, states + [next], events + [e], |events| + 1);
    assert Exposed(kind, Last(states).tasks[0]);
    EndangeredLoses(kind, next, 0);
  }

  /** A claim that crashes once it is recorded, and a release with the target to itself. */
  lemma ClaimThenRelease(kind: Kind, s: Server, job: Job, held: Server)
    returns (states: seq<System>, events: seq<Event>)
    requires Handled(kind) && Holds(kind, s.level) && !Recorded(kind, s) && Fits(job.level)
    requires held == Claimed(kind, s, job.claimedBy, job.now)
    ensures Clean(kind, states, events) && states[0].server == s
    ensures Last(states).server == Cleared(held) && Last(states).tasks == map[] && held in Last(states).past
  {
    ClaimCalls(kind, s, job, held);
    states, events := ClaimRecords(kind, s, job, held);
    states, events := TakeStep(kind, states, events, Stop(0), Last(states).(tasks := map[]));
    states, events := ReleaseRestores(kind, held, states, events);
    ReleaseCalls(kind, held);
    var reading := Position(Last(states).past, held);
    states, events := TakeStep(kind, states, events, Call(1), AfterCall(kind, Last(states), 1));
    assert Last(states).past[reading] == held;
  }

  /**
   * The second way. So does a claim that starts after the release has completed, alone, but from a
   * reading made before it: its copy shows a baseline the target no longer has.
   */
  lemma OldReadingLosesTheBaseline(kind: Kind, s: Server, job: Job)
    returns (states: seq<System>, events: seq<Event>, e: Event, next: System)
    requires Handled(kind) && Holds(kind, s.level) && !Recorded(kind, s) && Fits(job.level)
    requires Written(kind, job.level) != s.level
    ensures Clean(kind, states, events) && states[0].server == s && Last(states).tasks == map[]
    ensures Next(kind, Last(states), e, next) && e.BeginClaim? && Strands(kind, Last(states), e)
    ensures Loses(kind, next)
  {
    var held := Claimed(kind, s, job.claimedBy, job.now);
    ClaimCalls(kind, s, job, held);
    ReleaseCalls(kind, held);
    states, events := ClaimThenRelease(kind, s, job, held);
    var sys := Last(states);
    var reading := Position(sys.past, held);
    e, next := BeginClaim(0, job, reading), sys.(tasks := map[0 := Reading(job, 0, held)]);
    Extend(kind, states, events, e, next);
    TraceKeepsInv(kind, states + [next], events + [e], |events| + 1);
    EndangeredLoses(kind, next, 0);
  }
}
