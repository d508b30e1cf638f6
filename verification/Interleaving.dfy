/**
 * Any number of claims and releases of one target in flight at once, one API call a step, each able
 * to stop between any two calls (internal/controller/arbitration.go:752-948,
 * internal/controller/targets.go:234-347).
 */
module Interleaving {
  import opened Text
  import opened TargetKinds
  import opened ApiServer
  import opened ClaimProtocol
  import opened ClaimRuns

  /** Where a task is: the call it makes next, and what it remembers of the ones before. */
  datatype Task =
    | Reading(claim: Job, attempt: nat, copy: Server)                // has a copy; decides what to record
    | Recording(claim: Job, attempt: nat, copy: Server, found: int)  // guarded patch with a baseline
    | Rereading(claim: Job)                                          // after a conflict
    | Applying(claim: Job, copy: Server)                             // the claim is recorded; level next
    | Scaling(claim: Job, version: nat)
    | Restoring(level: Option<int>, copy: Server)                    // a release: level first
    | Rescaling(level: Option<int>, copy: Server, version: nat)
    | Clearing(level: Option<int>, copy: Server)                     // then the annotations

  datatype Job = Job(level: int, claimedBy: string, now: string)

  predicate IsClaim(t: Task) { t.Reading? || t.Recording? || t.Rereading? || t.Applying? || t.Scaling? }

  /** `past` is every state the object has ever been in: what a slow reader may hold. */
  datatype System = System(server: Server, past: seq<Server>, tasks: map<nat, Task>)

  datatype Event =
    | BeginClaim(id: nat, job: Job, reading: nat)
    | BeginRelease(id: nat, level: Option<int>, reading: nat)
    | Call(id: nat)
    | Stop(id: nat)                                // a crash, a timeout, a call that fails or whose answer is lost
    | SetLevel(to: int)                            // somebody else
    | SetAnnotation(name: string, value: string)
    | RemoveAnnotation(name: string)

  // ----------------------------------------------------------------- one call of one task

  function ClaimantWant(copy: Server, claimedBy: string): map<string, string> {
    copy.annotations + map[CLAIMED_BY := claimedBy]
  }

  /** The task after its next call, None once it is over, and the object after that call. */
  function Act(kind: Kind, t: Task, s: Server): (Option<Task>, Server)
    requires Handled(kind)
  {
    match t
    case Reading(job, attempt, copy) =>
      if Recorded(kind, copy) then
        var want := ClaimantWant(copy, job.claimedBy);
        if want == copy.annotations then (Some(Applying(job, copy)), s)
        else
          var sent := PatchAnnotations(s, Diff(copy.annotations, want));
          (Some(Applying(job, sent)), sent)
      else (Some(Recording(job, attempt, copy, if Scalable(kind) then s.level else copy.level)), s)
    case Recording(job, attempt, copy, found) =>
      if copy.version != s.version then (if attempt == 0 then Some(Rereading(job)) else None, s)
      else
        var want := copy.annotations + BaselineAnnotations(kind, found, job.claimedBy, job.now);
        var sent := PatchAnnotations(s, Diff(copy.annotations, want));
        (Some(Applying(job, sent)), sent)
    case Rereading(job) => (Some(Reading(job, 1, s)), s)
    case Applying(job, copy) =>
      if Scalable(kind) then
        if s.level == job.level then (None, s) else (Some(Scaling(job, s.version)), s)
      else if copy.level == Written(kind, job.level) then (None, s)
      else (None, PatchLevel(s, Written(kind, job.level)))
    case Scaling(job, version) =>
      (None, if version == s.version then PatchLevel(s, job.level) else s)
    case Restoring(level, copy) =>
      if level.None? then (Some(Clearing(level, copy)), s)
      else if Scalable(kind) then
        if s.level == level.value then (Some(Clearing(level, copy)), s)
        else (Some(Rescaling(level, copy, s.version)), s)
      else if copy.level == Written(kind, level.value) then (Some(Clearing(level, copy)), s)
      else
        var sent := PatchLevel(s, Written(kind, level.value));
        (Some(Clearing(level, sent)), sent)
    case Rescaling(level, copy, version) =>
      if level.Some? && version == s.version then (Some(Clearing(level, copy)), PatchLevel(s, level.value))
      else (None, s)
    case Clearing(_, copy) =>
      (None, PatchAnnotations(s, Diff(copy.annotations, copy.annotations - CLAIM_ANNOTATIONS)))
  }

  function Seen(sys: System, s: Server): System {
    System(s, sys.past + [s], sys.tasks)
  }

  ghost predicate Next(kind: Kind, sys: System, e: Event, next: System)
    requires Handled(kind)
  {
    match e
    case BeginClaim(id, job, reading) =>
      && id !in sys.tasks && reading < |sys.past| && Fits(job.level)
      && next == sys.(tasks := sys.tasks[id := Reading(job, 0, sys.past[reading])])
    case BeginRelease(id, level, reading) =>
      && id !in sys.tasks && reading < |sys.past| && Recorded(kind, sys.past[reading])
      && (level.Some? ==> Fits(level.value))
      && next == sys.(tasks := sys.tasks[id := Restoring(level, sys.past[reading])])
    case Call(id) =>
      && id in sys.tasks
      && var (after, s) := Act(kind, sys.tasks[id], sys.server);
         var tasks := if after.Some? then sys.tasks[id := after.value] else sys.tasks - {id};
         next == System(s, sys.past + [s], tasks)
    case Stop(id) => id in sys.tasks && next == sys.(tasks := sys.tasks - {id})
    case SetLevel(to) => Holds(kind, to) && next == Seen(sys, PatchLevel(sys.server, to))
    case SetAnnotation(name, value) =>
      name !in CLAIM_ANNOTATIONS
      && next == Seen(sys, Store(sys.server, sys.server.level, sys.server.annotations[name := value]))
    case RemoveAnnotation(name) =>
      name !in CLAIM_ANNOTATIONS
      && next == Seen(sys, Store(sys.server, sys.server.level, sys.server.annotations - {name}))
  }

  /** The step is a release taking the annotations off. */
  predicate Clears(sys: System, e: Event) {
    e.Call? && e.id in sys.tasks && sys.tasks[e.id].Clearing?
  }

  predicate ClaimCall(sys: System, e: Event) {
    e.Call? && e.id in sys.tasks && IsClaim(sys.tasks[e.id])
  }

  ghost predicate Start(kind: Kind, sys: System)
    requires Handled(kind)
  {
    sys.tasks == map[] && sys.past == [sys.server] && !Recorded(kind, sys.server) && Holds(kind, sys.server.level)
  }

  ghost predicate StepAt(kind: Kind, states: seq<System>, events: seq<Event>, i: int)
    requires Handled(kind) && |states| == |events| + 1 && 0 <= i < |events|
  {
    Next(kind, states[i], events[i], states[i + 1])
  }

  /** Any number of steps, from wherever the first state is. */
  ghost predicate Path(kind: Kind, states: seq<System>, events: seq<Event>)
    requires Handled(kind)
  {
    |states| == |events| + 1 && forall i | 0 <= i < |events| :: StepAt(kind, states, events, i)
  }

  ghost predicate Trace(kind: Kind, states: seq<System>, events: seq<Event>)
    requires Handled(kind)
  {
    Path(kind, states, events) && Start(kind, states[0])
  }

  // -------------------------------------------------------------------------- exposure

  /**
   * A claim that takes a baseline for granted because its copy shows one, and that will write a level
   * unless it finds the target already there. Nothing it sends from here on is guarded by its copy.
   */
  predicate Exposed(kind: Kind, t: Task)
    requires Handled(kind)
  {
    match t
    case Reading(job, _, copy) =>
      && Recorded(kind, copy)
      && (ClaimantWant(copy, job.claimedBy) != copy.annotations || !Satisfied(kind, copy, job.level))
    case Applying(job, copy) => !Satisfied(kind, copy, job.level)
    case _ => false
  }

  /** The step takes the recorded baseline off. */
  predicate Unrecords(kind: Kind, sys: System, e: Event)
    requires Handled(kind)
  {
    Clears(sys, e) && Recorded(kind, sys.server) && BaselineKey(kind) in sys.tasks[e.id].copy.annotations
  }

  /**
   * The guard. A step strands a claim if it takes the baseline off while an exposed claim is in flight,
   * or starts an exposed claim, from a reading older than a release, on a target with no baseline.
   */
  ghost predicate Strands(kind: Kind, sys: System, e: Event)
    requires Handled(kind)
  {
    || (Unrecords(kind, sys, e) && exists id :: id in sys.tasks && Exposed(kind, sys.tasks[id]))
    || (e.BeginClaim? && e.reading < |sys.past| && !Recorded(kind, sys.server)
          && Exposed(kind, Reading(e.job, 0, sys.past[e.reading])))
  }

  ghost predicate StrandsAt(kind: Kind, states: seq<System>, events: seq<Event>, i: int)
    requires Handled(kind) && |states| == |events| + 1 && 0 <= i < |events|
  {
    Strands(kind, states[i], events[i])
  }

  ghost predicate NeverStrands(kind: Kind, states: seq<System>, events: seq<Event>)
    requires Handled(kind) && |states| == |events| + 1
  {
    forall i | 0 <= i < |events| :: !StrandsAt(kind, states, events, i)
  }

  // ------------------------------------------------------------------------- invariants

  /** What a task remembers is no newer than the object, and at the current version it is the object. */
  ghost predicate TaskInv(kind: Kind, t: Task, s: Server)
    requires Handled(kind)
  {
    match t
    case Reading(_, _, copy) => NoNewer(copy, s)
    case Recording(_, _, copy, found) =>
      NoNewer(copy, s) && !Recorded(kind, copy) && (copy.version == s.version ==> found == s.level)
    case Scaling(job, version) =>
      Scalable(kind) && version <= s.version && (version == s.version ==> s.level != job.level)
    case Rescaling(level, _, version) =>
      Scalable(kind) && level.Some? && version <= s.version && (version == s.version ==> s.level != level.value)
    case _ => true
  }

  ghost predicate Inv(kind: Kind, sys: System)
    requires Handled(kind)
  {
    && |sys.past| > 0
    && (forall p | p in sys.past :: NoNewer(p, sys.server))
    && (forall id | id in sys.tasks :: TaskInv(kind, sys.tasks[id], sys.server))
  }

  /** A claim about to write a level onto a target with nothing recorded. */
  predicate Endangered(kind: Kind, t: Task, s: Server)
    requires Handled(kind)
  {
    !Recorded(kind, s) && (Exposed(kind, t) || (t.Scaling? && t.version == s.version))
  }

  ghost predicate Safe(kind: Kind, sys: System)
    requires Handled(kind)
  {
    forall id | id in sys.tasks :: !Endangered(kind, sys.tasks[id], sys.server)
  }

  /** The object stays as it is or moves to a newer version. */
  predicate MovesOn(s: Server, t: Server) { t == s || t.version > s.version }

  /** And a recorded baseline is kept. */
  ghost predicate Grows(kind: Kind, s: Server, t: Server)
    requires Handled(kind)
  {
    && MovesOn(s, t)
    && (Recorded(kind, s) ==> Recorded(kind, t) && t.annotations[BaselineKey(kind)] == s.annotations[BaselineKey(kind)])
  }

  lemma TaskInvSurvives(kind: Kind, task: Task, s: Server, t: Server)
    requires Handled(kind) && TaskInv(kind, task, s) && MovesOn(s, t)
    ensures TaskInv(kind, task, t)
  {
  }

  /** Every call but the one that clears keeps the baseline, and records only what the object holds. */
  lemma CallGrows(kind: Kind, t: Task, s: Server)
    requires Handled(kind) && TaskInv(kind, t, s) && !t.Clearing?
    ensures Grows(kind, s, Act(kind, t, s).1)
    ensures !Recorded(kind, s) && Recorded(kind, Act(kind, t, s).1) ==>
      Act(kind, t, s).1.annotations[BaselineKey(kind)] == Format(kind, s.level) && Act(kind, t, s).1.level == s.level
  {
    AnnotationsDiffer();
    match t
    case Reading(job, attempt, copy) =>
      if Recorded(kind, copy) { ClaimantsSent(kind, copy, s, job.claimedBy); }
    case Recording(job, attempt, copy, found) =>
      if copy.version == s.version { BaselinePatch(kind, s, job.claimedBy, job.now); }
    case _ =>
  }

  /** A claim's patch from any copy touches the claimants and nothing else. */
  lemma ClaimantsSent(kind: Kind, copy: Server, s: Server, claimedBy: string)
    requires Handled(kind)
    ensures var sent := PatchAnnotations(s, Diff(copy.annotations, ClaimantWant(copy, claimedBy)));
      && sent.level == s.level && sent.annotations - {CLAIMED_BY} == s.annotations - {CLAIMED_BY}
      && (Recorded(kind, sent) <==> Recorded(kind, s))
      && (Recorded(kind, s) ==> sent.annotations[BaselineKey(kind)] == s.annotations[BaselineKey(kind)])
  {
    AnnotationsDiffer();
    var sent := PatchAnnotations(s, Diff(copy.annotations, ClaimantWant(copy, claimedBy)));
    assert BaselineKey(kind) in sent.annotations - {CLAIMED_BY} <==> BaselineKey(kind) in s.annotations - {CLAIMED_BY};
  }

  lemma CallKeepsTaskInv(kind: Kind, t: Task, s: Server)
    requires Handled(kind) && TaskInv(kind, t, s)
    ensures MovesOn(s, Act(kind, t, s).1)
    ensures Act(kind, t, s).0.Some? ==> TaskInv(kind, Act(kind, t, s).0.value, Act(kind, t, s).1)
  {
  }

  lemma OthersGrow(kind: Kind, sys: System, e: Event, next: System)
    requires Handled(kind) && Next(kind, sys, e, next) && !e.Call?
    ensures Grows(kind, sys.server, next.server)
    ensures Recorded(kind, next.server) ==> Recorded(kind, sys.server)
  {
  }

  lemma NextMovesOn(kind: Kind, sys: System, e: Event, next: System)
    requires Handled(kind) && Inv(kind, sys) && Next(kind, sys, e, next)
    ensures MovesOn(sys.server, next.server)
  {
    if e.Call? { CallKeepsTaskInv(kind, sys.tasks[e.id], sys.server); } else { OthersGrow(kind, sys, e, next); }
  }

  /** Whatever happens, memories stay no newer than the object. */
  lemma NextKeepsInv(kind: Kind, sys: System, e: Event, next: System)
    requires Handled(kind) && Inv(kind, sys) && Next(kind, sys, e, next)
    ensures Inv(kind, next)
  {
    NextMovesOn(kind, sys, e, next);
    if e.Call? { CallKeepsTaskInv(kind, sys.tasks[e.id], sys.server); }
    forall id | id in next.tasks ensures TaskInv(kind, next.tasks[id], next.server) {
      if id in sys.tasks && next.tasks[id] == sys.tasks[id] {
        TaskInvSurvives(kind, sys.tasks[id], sys.server, next.server);
      }
    }
  }

  // ------------------------------------------------------------- what the guard is worth

  /** Claims in flight besides the one that moves are endangered as before, or by losing the baseline. */
  lemma BystandersStaySafe(kind: Kind, t: Task, s: Server, after: Server)
    requires Handled(kind) && TaskInv(kind, t, s) && MovesOn(s, after) && !Endangered(kind, t, s)
    ensures Endangered(kind, t, after) <==> Exposed(kind, t) && Recorded(kind, s) && !Recorded(kind, after)
  {
  }

  /** A claim that is not endangered does not endanger itself by its next call. */
  lemma ClaimStaysSafe(kind: Kind, t: Task, s: Server)
    requires Handled(kind) && TaskInv(kind, t, s) && !Endangered(kind, t, s) && !t.Clearing?
    ensures var (after, next) := Act(kind, t, s); after.Some? ==> !Endangered(kind, after.value, next)
  {
    CallGrows(kind, t, s);
  }

  lemma ClearingUnrecords(kind: Kind, copy: Server, s: Server)
    requires Handled(kind)
    ensures var sent := PatchAnnotations(s, Diff(copy.annotations, copy.annotations - CLAIM_ANNOTATIONS));
      && (Recorded(kind, sent) <==> Recorded(kind, s) && BaselineKey(kind) !in copy.annotations)
      && (Recorded(kind, sent) ==> sent.annotations[BaselineKey(kind)] == s.annotations[BaselineKey(kind)])
  {
  }

  /** A step loses the recorded baseline exactly when it is a release's clearing of one its copy shows. */
  lemma OnlyClearingUnrecords(kind: Kind, sys: System, e: Event, next: System)
    requires Handled(kind) && Inv(kind, sys) && Next(kind, sys, e, next)
    ensures Recorded(kind, sys.server) && !Recorded(kind, next.server) <==> Unrecords(kind, sys, e)
  {
    if e.Call? {
      if sys.tasks[e.id].Clearing? {
        ClearingUnrecords(kind, sys.tasks[e.id].copy, sys.server);
      } else {
        CallGrows(kind, sys.tasks[e.id], sys.server);
      }
    } else {
      OthersGrow(kind, sys, e, next);
    }
  }

  /** The guard is exact: from a safe state, a step leaves a safe state if and only if it strands nobody. */
  lemma SafeUnlessStranded(kind: Kind, sys: System, e: Event, next: System)
    requires Handled(kind) && Inv(kind, sys) && Safe(kind, sys) && Next(kind, sys, e, next)
    ensures Safe(kind, next) <==> !Strands(kind, sys, e)
  {
    NextMovesOn(kind, sys, e, next);
    OnlyClearingUnrecords(kind, sys, e, next);
    forall id | id in sys.tasks && id in next.tasks && next.tasks[id] == sys.tasks[id]
      ensures Endangered(kind, next.tasks[id], next.server) <==> Exposed(kind, sys.tasks[id]) && Unrecords(kind, sys, e)
    {
      BystandersStaySafe(kind, sys.tasks[id], sys.server, next.server);
    }
    if e.Call? && !sys.tasks[e.id].Clearing? { ClaimStaysSafe(kind, sys.tasks[e.id], sys.server); }
    if e.BeginClaim? {
      assert next.tasks[e.id] == Reading(e.job, 0, sys.past[e.reading]);
      assert Endangered(kind, next.tasks[e.id], next.server) <==> Strands(kind, sys, e);
    }
    if Unrecords(kind, sys, e) {
      forall id | id in sys.tasks && Exposed(kind, sys.tasks[id])
        ensures id in next.tasks && Endangered(kind, next.tasks[id], next.server)
      {
        assert id != e.id && next.tasks[id] == sys.tasks[id];
      }
    }
  }

  lemma {:induction false} TraceKeepsInv(kind: Kind, states: seq<System>, events: seq<Event>, n: nat)
    requires Handled(kind) && Trace(kind, states, events) && n < |states|
    ensures Inv(kind, states[n])
    ensures NeverStrands(kind, states, events) ==> Safe(kind, states[n])
  {
    if n > 0 {
      TraceKeepsInv(kind, states, events, n - 1);
      assert StepAt(kind, states, events, n - 1);
      NextKeepsInv(kind, states[n - 1], events[n - 1], states[n]);
      if NeverStrands(kind, states, events) {
        assert !StrandsAt(kind, states, events, n - 1);
        SafeUnlessStranded(kind, states[n - 1], events[n - 1], states[n]);
      }
    }
  }

  // ------------------------------------------------------------------------- theorems

  function ServerStates(states: seq<System>): (servers: seq<Server>)
    ensures |servers| == |states| && forall i | 0 <= i < |states| :: servers[i] == states[i].server
  {
    seq(|states|, i requires 0 <= i < |states| => states[i].server)
  }

  /** A claim that is not endangered moves a level only under a recorded baseline. */
  lemma SafeClaimWritesRecorded(kind: Kind, t: Task, s: Server)
    requires Handled(kind) && TaskInv(kind, t, s) && IsClaim(t) && !Endangered(kind, t, s)
    ensures Act(kind, t, s).1.level != s.level ==> Recorded(kind, s) && Recorded(kind, Act(kind, t, s).1)
  {
    CallGrows(kind, t, s);
  }

  /** If no step strands a claim, every level a claim writes lands on a target with its baseline recorded. */
  lemma ClaimsWriteOnlyRecordedTargets(kind: Kind, states: seq<System>, events: seq<Event>, n: nat)
    requires Handled(kind) && Trace(kind, states, events) && NeverStrands(kind, states, events) && n < |events|
    requires ClaimCall(states[n], events[n])
    requires states[n + 1].server.level != states[n].server.level
    ensures Recorded(kind, states[n].server) && Recorded(kind, states[n + 1].server)
  {
    TraceKeepsInv(kind, states, events, n);
    assert StepAt(kind, states, events, n);
    SafeClaimWritesRecorded(kind, states[n].tasks[events[n].id], states[n].server);
  }

  /** Once recorded, a baseline stays what it is until a release clears it, whatever else overlaps. */
  lemma BaselineNeverChanges(kind: Kind, states: seq<System>, events: seq<Event>, n: nat)
    requires Handled(kind) && Trace(kind, states, events) && n < |events|
    requires Recorded(kind, states[n].server) && !Unrecords(kind, states[n], events[n])
    ensures Recorded(kind, states[n + 1].server)
    ensures states[n + 1].server.annotations[BaselineKey(kind)] == states[n].server.annotations[BaselineKey(kind)]
  {
    TraceKeepsInv(kind, states, events, n);
    assert StepAt(kind, states, events, n);
    if Clears(states[n], events[n]) {
      ClearingUnrecords(kind, states[n].tasks[events[n].id].copy, states[n].server);
    } else if events[n].Call? {
      CallGrows(kind, states[n].tasks[events[n].id], states[n].server);
    } else {
      OthersGrow(kind, states[n], events[n], states[n + 1]);
    }
  }

  /** A baseline appears only by recording the level the object has at that very step. */
  lemma BaselineIsRecordedFromTheObject(kind: Kind, states: seq<System>, events: seq<Event>, n: nat)
    requires Handled(kind) && Trace(kind, states, events) && n < |events|
    requires !Recorded(kind, states[n].server) && Recorded(kind, states[n + 1].server)
    ensures states[n + 1].server.annotations[BaselineKey(kind)] == Format(kind, states[n].server.level)
    ensures ClaimCall(states[n], events[n]) && states[n + 1].server.level == states[n].server.level
  {
    TraceKeepsInv(kind, states, events, n);
    assert StepAt(kind, states, events, n);
    if Clears(states[n], events[n]) {
      ClearingUnrecords(kind, states[n].tasks[events[n].id].copy, states[n].server);
    } else if events[n].Call? {
      CallGrows(kind, states[n].tasks[events[n].id], states[n].server);
    } else {
      OthersGrow(kind, states[n], events[n], states[n + 1]);
    }
  }

  lemma ActInRange(kind: Kind, t: Task, s: Server)
    requires Handled(kind) && Holds(kind, s.level) && FitsTask(kind, t)
    ensures Holds(kind, Act(kind, t, s).1.level)
    ensures Act(kind, t, s).0.Some? ==> FitsTask(kind, Act(kind, t, s).0.value)
  {
  }

  lemma {:induction false} LevelInRange(kind: Kind, states: seq<System>, events: seq<Event>, n: nat)
    requires Handled(kind) && Trace(kind, states, events) && n < |states|
    ensures Holds(kind, states[n].server.level)
    ensures forall id | id in states[n].tasks :: FitsTask(kind, states[n].tasks[id])
  {
    if n > 0 {
      LevelInRange(kind, states, events, n - 1);
      assert StepAt(kind, states, events, n - 1);
      if events[n - 1].Call? {
        ActInRange(kind, states[n - 1].tasks[events[n - 1].id], states[n - 1].server);
      }
    }
  }

  predicate FitsTask(kind: Kind, t: Task) {
    match t
    case Reading(job, _, _) => Fits(job.level)
    case Recording(job, _, _, _) => Fits(job.level)
    case Rereading(job) => Fits(job.level)
    case Applying(job, _) => Fits(job.level)
    case Scaling(job, _) => Fits(job.level) && Scalable(kind)
    case Restoring(level, _) => level.Some? ==> Fits(level.value)
    case Rescaling(level, _, _) => Scalable(kind) && (level.Some? ==> Fits(level.value))
    case Clearing(level, _) => level.Some? ==> Fits(level.value)
  }

  /**
   * However claims and releases overlap, start from readings however old and stop anywhere, a recorded
   * baseline reads back as the level the target held when it last had none recorded.
   */
  lemma BaselineIsThePreClaimLevel(kind: Kind, states: seq<System>, events: seq<Event>, j: int, n: nat)
    requires Handled(kind) && Trace(kind, states, events)
    requires BeforeClaim(kind, ServerStates(states), j, n) && j < n
    ensures BaselineOf(kind, states[n].server) == Some(states[j].server.level)
  {
    forall i | 0 < i < |states| ensures KeepsOrRecords(kind, states[i - 1].server, states[i].server) {
      BaselineStep(kind, states, events, i - 1);
    }
    BaselineText(kind, ServerStates(states), j, n);
    LevelInRange(kind, states, events, j);
    BaselineRoundTrip(kind, states[j].server.level);
  }

  ghost predicate KeepsOrRecords(kind: Kind, s: Server, t: Server)
    requires Handled(kind)
  {
    Recorded(kind, t) ==>
      && (Recorded(kind, s) ==> t.annotations[BaselineKey(kind)] == s.annotations[BaselineKey(kind)])
      && (!Recorded(kind, s) ==> t.annotations[BaselineKey(kind)] == Format(kind, s.level))
  }

  /** From one state to the next, a recorded baseline is the one before or the level just found. */
  lemma BaselineStep(kind: Kind, states: seq<System>, events: seq<Event>, n: nat)
    requires Handled(kind) && Trace(kind, states, events) && n < |events|
    ensures KeepsOrRecords(kind, states[n].server, states[n + 1].server)
  {
    if !Recorded(kind, states[n + 1].server) { return; }
    if !Recorded(kind, states[n].server) {
      BaselineIsRecordedFromTheObject(kind, states, events, n);
    } else {
      TraceKeepsInv(kind, states, events, n);
      assert StepAt(kind, states, events, n);
      OnlyClearingUnrecords(kind, states[n], events[n], states[n + 1]);
      BaselineNeverChanges(kind, states, events, n);
    }
  }

  lemma {:induction false} BaselineText(kind: Kind, servers: seq<Server>, j: int, n: nat)
    requires Handled(kind) && BeforeClaim(kind, servers, j, n) && j < n
    requires forall i | 0 < i < |servers| :: KeepsOrRecords(kind, servers[i - 1], servers[i])
    ensures servers[n].annotations[BaselineKey(kind)] == Format(kind, servers[j].level)
  {
    assert KeepsOrRecords(kind, servers[n - 1], servers[n]);
    if j < n - 1 { BaselineText(kind, servers, j, n - 1); }
  }

  // ------------------------------------------------------- a task with the target to itself

  /** Up to `calls` calls of one task, nothing else moving. */
  function RunAlone(kind: Kind, t: Task, s: Server, calls: nat): (Option<Task>, Server)
    requires Handled(kind)
    decreases calls
  {
    if calls == 0 then (Some(t), s)
    else
      var (after, next) := Act(kind, t, s);
      if after.None? then (None, next) else RunAlone(kind, after.value, next, calls - 1)
  }

  /** A copy whose annotations are exact clears as well as an exact copy. */
  lemma ClearingStaleLevel(kind: Kind, level: Option<int>, copy: Server, s: Server, calls: nat)
    requires Handled(kind) && calls > 0 && copy.annotations == s.annotations
    ensures RunAlone(kind, Clearing(level, copy), s, calls) == (None, Cleared(s))
  {
    PatchFromExactCopy(s.annotations, s.annotations - CLAIM_ANNOTATIONS);
  }

  /** Alone, a release does what ReleaseTarget is proved to do. */
  lemma ReleaseAlone(kind: Kind, level: Option<int>, s: Server)
    requires Handled(kind)
    ensures RunAlone(kind, Restoring(level, s), s, 3) == (None, Cleared(Restored(kind, s, level)))
  {
    var (t, r) := Act(kind, Restoring(level, s), s);
    if t.value.Clearing? {
      ClearingStaleLevel(kind, level, t.value.copy, r, 2);
    } else {
      var (u, q) := Act(kind, t.value, r);
      ClearingStaleLevel(kind, level, u.value.copy, q, 1);
    }
  }

  lemma ApplyingAlone(kind: Kind, job: Job, s: Server, calls: nat)
    requires Handled(kind) && calls >= 2
    ensures RunAlone(kind, Applying(job, s), s, calls) == (None, Levelled(kind, s, job.level))
  {
    var (t, r) := Act(kind, Applying(job, s), s);
    if t.Some? {
      var (u, q) := Act(kind, t.value, r);
    }
  }

  /** Alone, a claim does what ClaimTarget is proved to do. */
  lemma ClaimAlone(kind: Kind, job: Job, s: Server)
    requires Handled(kind)
    ensures RunAlone(kind, Reading(job, 0, s), s, 4)
      == (None, Levelled(kind, Claimed(kind, s, job.claimedBy, job.now), job.level))
  {
    var (t, r) := Act(kind, Reading(job, 0, s), s);
    if Recorded(kind, s) {
      ClaimantsPatch(kind, s, s, job.claimedBy, job.now);
      SameMapsPatchNothing(s.annotations, s.annotations);
      assert r == Claimed(kind, s, job.claimedBy, job.now) && t.value == Applying(job, r);
      ApplyingAlone(kind, job, r, 3);
    } else {
      BaselinePatch(kind, s, job.claimedBy, job.now);
      var (u, q) := Act(kind, t.value, r);
      assert q == Claimed(kind, s, job.claimedBy, job.now) && u.value == Applying(job, q);
      ApplyingAlone(kind, job, q, 2);
    }
  }

  /**
   * Whatever came before, a release to the baseline that then has the target to itself puts the level
   * back where it was when nothing was last recorded. LostLevels says when a claim had put it there.
   */
  lemma ReleaseAfterAnyInterleaving(kind: Kind, states: seq<System>, events: seq<Event>, j: int, n: nat)
    requires Handled(kind) && Trace(kind, states, events)
    requires BeforeClaim(kind, ServerStates(states), j, n) && j < n
    ensures var s := states[n].server;
      var (rest, after) := RunAlone(kind, Restoring(BaselineOf(kind, s), s), s, 3);
      rest == None && after.level == states[j].server.level && after.annotations == s.annotations - CLAIM_ANNOTATIONS
  {
    BaselineIsThePreClaimLevel(kind, states, events, j, n);
    LevelInRange(kind, states, events, j);
    ReleaseAlone(kind, BaselineOf(kind, states[n].server), states[n].server);
  }
}
