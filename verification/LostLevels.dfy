/**
 * When, exactly, a baseline names a level that only a claim ever set: recording never overwrites one,
 * but a release takes the baseline off without a lock and without looking at the level it leaves
 * (internal/controller/arbitration.go:832-842, 908-923).
 */
module LostLevels {
  import opened Arbiter
  import opened Text
  import opened TargetKinds
  import opened ApiServer
  import opened ClaimProtocol
  import opened ClaimRuns
  import opened Interleaving
  import opened Stranding

  // ------------------------------------------------------------------ who moved the level last

  predicate LevelKept(states: seq<System>, k: nat)
    requires k + 1 < |states|
  {
    states[k + 1].server.level == states[k].server.level
  }

  /** Step `i` is the last one before state `n` to move the level. */
  ghost predicate LastMove(states: seq<System>, i: nat, n: nat)
    requires n < |states|
  {
    i < n && !LevelKept(states, i) && forall k: nat | i < k < n :: LevelKept(states, k)
  }

  /** The level at state `n` is where some claim's call put it. */
  ghost predicate ByClaim(states: seq<System>, events: seq<Event>, n: nat)
    requires |states| == |events| + 1 && n < |states|
  {
    exists i: nat :: LastMove(states, i, n) && ClaimCall(states[i], events[i])
  }

  lemma LastMoveStep(states: seq<System>, i: nat, n: nat, next: nat)
    requires n + 1 == next < |states|
    ensures LastMove(states, i, next) <==> if LevelKept(states, n) then LastMove(states, i, n) else i == n
  {
  }

  lemma ByClaimStep(states: seq<System>, events: seq<Event>, n: nat, next: nat)
    requires |states| == |events| + 1 && n + 1 == next < |states|
    ensures ByClaim(states, events, next) <==>
      if LevelKept(states, n) then ByClaim(states, events, n) else ClaimCall(states[n], events[n])
  {
    forall i: nat
      ensures LastMove(states, i, next) <==> if LevelKept(states, n) then LastMove(states, i, n) else i == n
    {
      LastMoveStep(states, i, n, next);
    }
    if !LevelKept(states, n) { assert LastMove(states, n, next); }
  }

  // ------------------------------------------------------------------------ orphaned levels

  /** Nothing is recorded of a target that stands where a claim put it. */
  ghost predicate Orphaned(kind: Kind, states: seq<System>, events: seq<Event>, n: nat)
    requires Handled(kind) && |states| == |events| + 1 && n < |states|
  {
    !Recorded(kind, states[n].server) && ByClaim(states, events, n)
  }

  /**
   * A step orphans a level if it takes the baseline off a target a claim moved last, or if it is a
   * claim's write onto a target with nothing recorded.
   */
  ghost predicate Orphans(kind: Kind, states: seq<System>, events: seq<Event>, m: nat)
    requires Handled(kind) && |states| == |events| + 1 && m < |events|
  {
    || (Unrecords(kind, states[m], events[m]) && ByClaim(states, events, m))
    || (ClaimCall(states[m], events[m]) && !LevelKept(states, m) && !Recorded(kind, states[m].server))
  }

  /** From the step after `m` up to state `n` nothing is recorded and nobody moves the level. */
  ghost predicate UntouchedSince(kind: Kind, states: seq<System>, m: nat, n: nat)
    requires Handled(kind) && n < |states|
  {
    && m < n
    && (forall k: nat | m < k <= n :: !Recorded(kind, states[k].server))
    && (forall k: nat | m < k < n :: LevelKept(states, k))
  }

  lemma OrphanedStep(kind: Kind, states: seq<System>, events: seq<Event>, n: nat)
    requires Handled(kind) && Trace(kind, states, events) && n < |events|
    ensures Orphaned(kind, states, events, n + 1) <==>
      || Orphans(kind, states, events, n)
      || (Orphaned(kind, states, events, n) && LevelKept(states, n) && !Recorded(kind, states[n + 1].server))
  {
    ByClaimStep(states, events, n, n + 1);
    TraceKeepsInv(kind, states, events, n);
    assert StepAt(kind, states, events, n);
    OnlyClearingUnrecords(kind, states[n], events[n], states[n + 1]);
    if !Recorded(kind, states[n].server) && Recorded(kind, states[n + 1].server) {
      BaselineIsRecordedFromTheObject(kind, states, events, n);
    }
  }

  ghost predicate OrphanedFrom(kind: Kind, states: seq<System>, events: seq<Event>, m: nat, n: nat)
    requires Handled(kind) && |states| == |events| + 1 && n < |states|
  {
    UntouchedSince(kind, states, m, n) && Orphans(kind, states, events, m)
  }

  lemma UntouchedStep(kind: Kind, states: seq<System>, m: nat, n: nat, next: nat)
    requires Handled(kind) && n + 1 == next < |states|
    ensures UntouchedSince(kind, states, m, next) <==>
      && !Recorded(kind, states[next].server)
      && (m == n || (LevelKept(states, n) && UntouchedSince(kind, states, m, n)))
  {
  }

  lemma OrphanedFromStep(kind: Kind, states: seq<System>, events: seq<Event>, m: nat, n: nat, next: nat)
    requires Handled(kind) && |states| == |events| + 1 && n + 1 == next < |states|
    ensures OrphanedFrom(kind, states, events, m, next) <==>
      && !Recorded(kind, states[next].server)
      && (if m == n then Orphans(kind, states, events, n)
          else LevelKept(states, n) && OrphanedFrom(kind, states, events, m, n))
  {
    UntouchedStep(kind, states, m, n, next);
  }

  /** Over any run, a level is orphaned exactly from the step that orphans it until somebody touches it. */
  lemma {:induction false} OrphanedExactlySince(kind: Kind, states: seq<System>, events: seq<Event>, n: nat)
    requires Handled(kind) && Trace(kind, states, events) && n < |states|
    ensures Orphaned(kind, states, events, n) <==> exists m: nat :: OrphanedFrom(kind, states, events, m, n)
  {
    if n > 0 {
      var last := n - 1;
      OrphanedExactlySince(kind, states, events, last);
      OrphanedStep(kind, states, events, last);
      OrphanedFromStep(kind, states, events, last, last, n);
      if Orphaned(kind, states, events, n) && !Orphans(kind, states, events, last) {
        var m: nat :| OrphanedFrom(kind, states, events, m, last);
        OrphanedFromStep(kind, states, events, m, last, n);
      }
      if m: nat :| OrphanedFrom(kind, states, events, m, n) {
        OrphanedFromStep(kind, states, events, m, last, n);
      }
    }
  }

  /** And there is one such step only. */
  lemma OriginIsUnique(kind: Kind, states: seq<System>, events: seq<Event>, m: nat, m': nat, n: nat)
    requires Handled(kind) && |states| == |events| + 1 && n < |states|
    requires OrphanedFrom(kind, states, events, m, n) && OrphanedFrom(kind, states, events, m', n)
    ensures m == m'
  {
  }

  /**
   * As long as no step strands a claim, only a release's clearing orphans a level: one that takes the
   * baseline off while the target stands where a claim put it.
   */
  lemma CleanRunsOrphanByClearing(kind: Kind, states: seq<System>, events: seq<Event>, m: nat)
    requires Handled(kind) && Trace(kind, states, events) && NeverStrands(kind, states, events) && m < |events|
    ensures Orphans(kind, states, events, m) <==>
      Unrecords(kind, states[m], events[m]) && ByClaim(states, events, m)
  {
    if ClaimCall(states[m], events[m]) && !LevelKept(states, m) {
      ClaimsWriteOnlyRecordedTargets(kind, states, events, m);
    }
  }

  // --------------------------------------------------------------- what is recorded afterwards

  /**
   * A recorded baseline names the level of the last state without one, and that is a level a claim put
   * there if and only if a step orphaned it before and nobody touched it since.
   */
  lemma BaselineIsAClaimsLevelWhen(kind: Kind, states: seq<System>, events: seq<Event>, j: nat, n: nat)
    requires Handled(kind) && Trace(kind, states, events) && n < |states|
    requires BeforeClaim(kind, ServerStates(states), j, n) && j < n
    ensures BaselineOf(kind, states[n].server) == Some(states[j].server.level)
    ensures ByClaim(states, events, j) <==> exists m: nat :: OrphanedFrom(kind, states, events, m, j)
  {
    Interleaving.BaselineIsThePreClaimLevel(kind, states, events, j, n);
    OrphanedExactlySince(kind, states, events, j);
  }

  /** A claim left alone records the level it finds, and a release to the baseline then keeps the target there. */
  lemma FoundLevelIsKept(kind: Kind, states: seq<System>, events: seq<Event>, n: nat, job: Job)
    requires Handled(kind) && Trace(kind, states, events) && n < |states| && !Recorded(kind, states[n].server)
    ensures var s := states[n].server;
      var (claim, held) := RunAlone(kind, Reading(job, 0, s), s, 4);
      && claim.None? && BaselineOf(kind, held) == Some(s.level)
      && var (release, after) := RunAlone(kind, Restoring(BaselineOf(kind, held), held), held, 3);
         release.None? && after.level == s.level && !Recorded(kind, after)
  {
    var s := states[n].server;
    LevelInRange(kind, states, events, n);
    ClaimAlone(kind, job, s);
    BaselineRoundTrip(kind, s.level);
    AnnotationsDiffer();
    var held := Levelled(kind, Claimed(kind, s, job.claimedBy, job.now), job.level);
    ReleaseAlone(kind, Some(s.level), held);
  }

  /** The target is where the release about to clear it wanted it, or the release wanted it nowhere. */
  predicate AsAsked(kind: Kind, sys: System, e: Event)
    requires Clears(sys, e)
  {
    var level := sys.tasks[e.id].level;
    level.None? || sys.server.level == Written(kind, level.value)
  }

  /**
   * The level is lost, not left on purpose: a clearing takes the baseline off a target a claim moved
   * last, though the release had asked for another level, or a claim writes with nothing recorded.
   */
  ghost predicate Forgets(kind: Kind, states: seq<System>, events: seq<Event>, m: nat)
    requires Handled(kind) && |states| == |events| + 1 && m < |events|
  {
    Orphans(kind, states, events, m) && (Clears(states[m], events[m]) ==> !AsAsked(kind, states[m], events[m]))
  }

  /** The target stands unrecorded where a claim put it and no release asked for it to be. */
  ghost predicate Forgotten(kind: Kind, states: seq<System>, events: seq<Event>, n: nat)
    requires Handled(kind) && |states| == |events| + 1 && n < |states|
  {
    && Orphaned(kind, states, events, n)
    && forall m: nat | UntouchedSince(kind, states, m, n) && Unrecords(kind, states[m], events[m]) ::
         !AsAsked(kind, states[m], events[m])
  }

  /** The guard, exactly: a level is forgotten from the step that forgets it until somebody touches the target. */
  lemma ForgottenExactlySince(kind: Kind, states: seq<System>, events: seq<Event>, n: nat)
    requires Handled(kind) && Trace(kind, states, events) && n < |states|
    ensures Forgotten(kind, states, events, n) <==>
      exists m: nat :: OrphanedFrom(kind, states, events, m, n) && Forgets(kind, states, events, m)
  {
    OrphanedExactlySince(kind, states, events, n);
    if Orphaned(kind, states, events, n) {
      var m: nat :| OrphanedFrom(kind, states, events, m, n);
      if Clears(states[m], events[m]) { assert Unrecords(kind, states[m], events[m]); }
      forall k: nat | UntouchedSince(kind, states, k, n) && Unrecords(kind, states[k], events[k]) ensures k == m {
        UnrecordedOnce(kind, states, events, k, m, n);
      }
      forall k: nat | OrphanedFrom(kind, states, events, k, n) ensures k == m {
        OriginIsUnique(kind, states, events, k, m, n);
      }
    }
  }

  lemma UnrecordedOnce(kind: Kind, states: seq<System>, events: seq<Event>, k: nat, m: nat, n: nat)
    requires Handled(kind) && |states| == |events| + 1 && n < |states|
    requires UntouchedSince(kind, states, k, n) && Unrecords(kind, states[k], events[k])
    requires OrphanedFrom(kind, states, events, m, n)
    ensures k == m
  {
  }

  // ------------------------------------------------------------------------------ it happens

  /** Nobody but Reactor does anything. */
  ghost predicate OnlyReactor(events: seq<Event>) {
    forall e | e in events :: e.BeginClaim? || e.BeginRelease? || e.Call?
  }

  /** A run without strangers and without a stranded claim. */
  ghost predicate Quietly(kind: Kind, states: seq<System>, events: seq<Event>)
    requires Handled(kind)
  {
    Clean(kind, states, events) && OnlyReactor(events) && PastIsCurrent(Last(states))
  }

  /** The present version has been seen, as it always has. */
  ghost predicate PastIsCurrent(sys: System) { sys.server in sys.past }

  lemma Call1(kind: Kind, states: seq<System>, events: seq<Event>, id: nat)
    returns (more: seq<System>, all: seq<Event>)
    requires Handled(kind) && Quietly(kind, states, events) && id in Last(states).tasks
    requires !Strands(kind, Last(states), Call(id))
    ensures more == states + [AfterCall(kind, Last(states), id)] && all == events + [Call(id)]
    ensures Quietly(kind, more, all) && more[0] == states[0]
  {
    more, all := TakeStep(kind, states, events, Call(id), AfterCall(kind, Last(states), id));
  }

  lemma StartClaim(kind: Kind, states: seq<System>, events: seq<Event>, id: nat, job: Job)
    returns (more: seq<System>, all: seq<Event>)
    requires Handled(kind) && Quietly(kind, states, events) && id !in Last(states).tasks && Fits(job.level)
    requires !Recorded(kind, Last(states).server)
    ensures Quietly(kind, more, all) && more[0] == states[0] && Last(more).server == Last(states).server
    ensures Last(more).tasks == Last(states).tasks[id := Reading(job, 0, Last(states).server)]
  {
    var sys := Last(states);
    var reading := Position(sys.past, sys.server);
    more, all := TakeStep(kind, states, events, BeginClaim(id, job, reading),
                          sys.(tasks := sys.tasks[id := Reading(job, 0, sys.server)]));
  }

  lemma StartRelease(kind: Kind, states: seq<System>, events: seq<Event>, id: nat, level: int)
    returns (more: seq<System>, all: seq<Event>)
    requires Handled(kind) && Quietly(kind, states, events) && id !in Last(states).tasks && Fits(level)
    requires Recorded(kind, Last(states).server)
    ensures Quietly(kind, more, all) && more[0] == states[0] && Last(more).server == Last(states).server
    ensures Last(more).tasks == Last(states).tasks[id := Restoring(Some(level), Last(states).server)]
  {
    var sys := Last(states);
    var reading := Position(sys.past, sys.server);
    more, all := TakeStep(kind, states, events, BeginRelease(id, Some(level), reading),
                          sys.(tasks := sys.tasks[id := Restoring(Some(level), sys.server)]));
  }

  /** Everything from step `from` on is a claim's call. */
  ghost predicate ClaimsOnly(states: seq<System>, events: seq<Event>, from: nat)
    requires |states| == |events| + 1
  {
    forall k: nat | from <= k < |events| :: ClaimCall(states[k], events[k])
  }

  /** A task that needs no more than `calls` calls, if nobody disturbs it, makes them. */
  lemma {:induction false} FinishClaim(kind: Kind, states: seq<System>, events: seq<Event>, id: nat, calls: nat)
    returns (more: seq<System>, all: seq<Event>)
    requires Handled(kind) && Quietly(kind, states, events) && id in Last(states).tasks
    requires IsClaim(Last(states).tasks[id])
    requires RunAlone(kind, Last(states).tasks[id], Last(states).server, calls).0 == None
    ensures Quietly(kind, more, all) && more[0] == states[0] && |events| <= |all| && states <= more && events <= all
    ensures Last(more).server == RunAlone(kind, Last(states).tasks[id], Last(states).server, calls).1
    ensures Last(more).tasks == Last(states).tasks - {id}
    ensures ClaimsOnly(more, all, |events|)
    decreases calls
  {
    var sys := Last(states);
    more, all := Call1(kind, states, events, id);
    var (after, s) := Act(kind, sys.tasks[id], sys.server);
    if after.Some? {
      var rest := Last(more).tasks;
      more, all := FinishClaim(kind, more, all, id, calls - 1);
      assert rest - {id} == sys.tasks - {id};
    }
    assert ClaimCall(states[|events|], Call(id));
  }

  /** If only claims acted since `from` and the level is another now, a claim put it where it is. */
  lemma {:induction false} MovedByClaims(states: seq<System>, events: seq<Event>, from: nat, n: nat)
    requires |states| == |events| + 1 && from <= n < |states| && ClaimsOnly(states, events, from)
    requires states[n].server.level != states[from].server.level
    ensures ByClaim(states, events, n)
  {
    var last := n - 1;
    ByClaimStep(states, events, last, n);
    if LevelKept(states, last) { MovedByClaims(states, events, from, last); }
  }

  /** A claim from start to end, with nobody else moving. */
  lemma WholeClaim(kind: Kind, states: seq<System>, events: seq<Event>, id: nat, job: Job)
    returns (more: seq<System>, all: seq<Event>)
    requires Handled(kind) && Quietly(kind, states, events) && id !in Last(states).tasks && Fits(job.level)
    requires !Recorded(kind, Last(states).server) && Last(states).server.level != Written(kind, job.level)
    ensures Quietly(kind, more, all) && more[0] == states[0] && Last(more).tasks == Last(states).tasks
    ensures var s := Last(states).server;
      Last(more).server == Levelled(kind, Claimed(kind, s, job.claimedBy, job.now), job.level)
    ensures ByClaim(more, all, |all|)
  {
    var sys := Last(states);
    ClaimAlone(kind, job, sys.server);
    more, all := StartClaim(kind, states, events, id, job);
    ghost var from := |all|;
    more, all := FinishClaim(kind, more, all, id, 4);
    assert sys.tasks[id := Reading(job, 0, sys.server)] - {id} == sys.tasks;
    MovedByClaims(more, all, from, |all|);
  }

  /** A release as far as its clearing, with nobody else moving and no claim in flight. */
  lemma Restores(kind: Kind, states: seq<System>, events: seq<Event>, id: nat, level: int)
    returns (more: seq<System>, all: seq<Event>, copy: Server)
    requires Handled(kind) && Quietly(kind, states, events) && id !in Last(states).tasks && Holds(kind, level)
    requires Recorded(kind, Last(states).server)
    ensures Quietly(kind, more, all) && more[0] == states[0]
    ensures Last(more).server == Levelled(kind, Last(states).server, level)
    ensures Last(more).tasks == Last(states).tasks[id := Clearing(Some(level), copy)]
    ensures copy.annotations == Last(states).server.annotations
  {
    var sys := Last(states);
    more, all := StartRelease(kind, states, events, id, level);
    more, all := Call1(kind, more, all, id);
    if Last(more).tasks[id].Rescaling? {
      more, all := Call1(kind, more, all, id);
    }
    copy := Last(more).tasks[id].copy;
  }

  /** A release's clearing, with no claim in flight, from a copy whose annotations are the object's. */
  lemma Clears1(kind: Kind, states: seq<System>, events: seq<Event>, id: nat)
    returns (more: seq<System>, all: seq<Event>)
    requires Handled(kind) && Quietly(kind, states, events) && id in Last(states).tasks
    requires Last(states).tasks[id].Clearing? && forall u | u in Last(states).tasks :: !IsClaim(Last(states).tasks[u])
    requires BaselineKey(kind) in Last(states).tasks[id].copy.annotations
    ensures Quietly(kind, more, all) && more[0] == states[0] && |more| == |states| + 1
    ensures !Recorded(kind, Last(more).server) && Last(more).server.level == Last(states).server.level
    ensures Last(more).tasks == Last(states).tasks - {id} && all == events + [Call(id)] && states <= more
  {
    ClearingUnrecords(kind, Last(states).tasks[id].copy, Last(states).server);
    more, all := Call1(kind, states, events, id);
  }

  /** One release is left: it wanted `level`, and is about to take off a baseline it has seen. */
  ghost predicate Waiting(kind: Kind, sys: System, level: int)
    requires Handled(kind)
  {
    && sys.tasks.Keys == {2} && sys.tasks[2].Clearing? && sys.tasks[2].level == Some(level)
    && BaselineKey(kind) in sys.tasks[2].copy.annotations
  }

  /** A claim, a release that restores it, a second release that finds it restored, and the first one's clearing. */
  lemma FirstEpisode(kind: Kind, s: Server, job: Job) returns (states: seq<System>, events: seq<Event>)
    requires Handled(kind) && Holds(kind, s.level) && !Recorded(kind, s) && Fits(job.level)
    requires Written(kind, job.level) != s.level
    ensures Quietly(kind, states, events) && states[0].server == s
    ensures !Recorded(kind, Last(states).server) && Last(states).server.level == s.level
    ensures Waiting(kind, Last(states), s.level)
  {
    states, events := [System(s, [s], map[])], [];
    states, events := WholeClaim(kind, states, events, 0, job);
    AnnotationsDiffer();
    assert Recorded(kind, Last(states).server);
    var first, second;
    states, events, first := Restores(kind, states, events, 1, s.level);
    states, events, second := Restores(kind, states, events, 2, s.level);
    var rest := Last(states).tasks;
    assert rest == map[1 := Clearing(Some(s.level), first), 2 := Clearing(Some(s.level), second)];
    states, events := Clears1(kind, states, events, 1);
    assert rest - {1} == map[2 := Clearing(Some(s.level), second)];
  }

  lemma ByClaimEarlier(states: seq<System>, events: seq<Event>, more: seq<System>, all: seq<Event>, n: nat)
    requires |states| == |events| + 1 && |more| == |all| + 1 && states <= more && events <= all && n < |states|
    requires ByClaim(states, events, n)
    ensures ByClaim(more, all, n)
  {
    var i: nat :| LastMove(states, i, n) && ClaimCall(states[i], events[i]);
    assert forall k: nat | k < n :: LevelKept(more, k) == LevelKept(states, k);
    assert LastMove(more, i, n);
  }

  /** Taking the baseline off where a claim put the target, against what the release asked for. */
  lemma ClearingForgets(kind: Kind, states: seq<System>, events: seq<Event>, m: nat, n: nat)
    requires Handled(kind) && Trace(kind, states, events) && m + 1 == n == |events|
    requires Unrecords(kind, states[m], events[m]) && ByClaim(states, events, m) && !AsAsked(kind, states[m], events[m])
    ensures Forgets(kind, states, events, m) && Forgotten(kind, states, events, n)
  {
    TraceKeepsInv(kind, states, events, m);
    assert StepAt(kind, states, events, m);
    OnlyClearingUnrecords(kind, states[m], events[m], states[n]);
    OrphanedFromStep(kind, states, events, m, m, n);
    ForgottenExactlySince(kind, states, events, n);
  }

  /** Another claim runs to its end while that release waits. */
  lemma SecondEpisode(kind: Kind, s: Server, job: Job) returns (states: seq<System>, events: seq<Event>)
    requires Handled(kind) && Holds(kind, s.level) && !Recorded(kind, s) && Fits(job.level)
    requires Written(kind, job.level) != s.level
    ensures Quietly(kind, states, events) && states[0].server == s && Waiting(kind, Last(states), s.level)
    ensures Recorded(kind, Last(states).server) && Last(states).server.level == Written(kind, job.level)
    ensures ByClaim(states, events, |events|)
  {
    states, events := FirstEpisode(kind, s, job);
    states, events := WholeClaim(kind, states, events, 3, job);
    AnnotationsDiffer();
  }

  /** And then it clears. */
  lemma WaitingForgets(kind: Kind, before: seq<System>, sofar: seq<Event>, level: int)
    returns (states: seq<System>, events: seq<Event>, m: nat)
    requires Handled(kind) && Quietly(kind, before, sofar) && Waiting(kind, Last(before), level)
    requires Recorded(kind, Last(before).server) && ByClaim(before, sofar, |sofar|)
    requires Last(before).server.level != Written(kind, level)
    ensures Quietly(kind, states, events) && states[0] == before[0] && |events| == m + 1
    ensures Unrecords(kind, states[m], events[m]) && Forgets(kind, states, events, m)
    ensures Forgotten(kind, states, events, |events|) && Last(states).tasks == map[]
    ensures Last(states).server.level == Last(before).server.level
  {
    m := |sofar|;
    states, events := Clears1(kind, before, sofar, 2);
    assert Last(before).tasks - {2} == map[];
    ByClaimEarlier(before, sofar, states, events, m);
    assert states[m] == Last(before) && events[m] == Call(2);
    ClearingForgets(kind, states, events, m, |events|);
  }

  /**
   * It happens on a target of any kind, at any level, with nobody but Reactor moving it and no claim
   * ever stranded. A claim runs to its end. A release restores the level; a second one starts, finds
   * the level right, and waits; the first one clears. Another claim runs to its end, recording the
   * level the target had. Then the second release clears, and that level is known to nobody.
   */
  lemma SlowReleaseForgetsTheLevel(kind: Kind, s: Server, job: Job)
    returns (states: seq<System>, events: seq<Event>, m: nat)
    requires Handled(kind) && Holds(kind, s.level) && !Recorded(kind, s) && Fits(job.level)
    requires Written(kind, job.level) != s.level
    ensures Quietly(kind, states, events) && |events| == m + 1
    ensures states[0].server == s && Last(states).tasks == map[]
    ensures Unrecords(kind, states[m], events[m]) && Forgets(kind, states, events, m)
    ensures Forgotten(kind, states, events, |events|) && Last(states).server.level == Written(kind, job.level)
  {
    var before, sofar := SecondEpisode(kind, s, job);
    states, events, m := WaitingForgets(kind, before, sofar, s.level);
  }
}
