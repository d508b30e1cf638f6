/**
 * Where releases and claims that overlap leave the level
 * (internal/controller/arbitration.go:752-811, internal/controller/targets.go:246-336).
 */
module LevelWrites {
  import opened Text
  import opened TargetKinds
  import opened ApiServer
  import opened ClaimProtocol
  import opened Interleaving

  // ------------------------------------------------------- releases of a target nobody holds

  /** A release about to move the level of a target with nothing recorded. */
  predicate Overdue(kind: Kind, t: Task, s: Server)
    requires Handled(kind)
  {
    && !Recorded(kind, s)
    && match t
       case Restoring(level, copy) =>
         && !Scalable(kind) && level.Some? && !Satisfied(kind, copy, level.value)
         && s.level != Written(kind, level.value)
       case Rescaling(_, _, version) => version == s.version
       case _ => false
  }

  lemma OverdueReleaseWrites(kind: Kind, t: Task, s: Server)
    requires Handled(kind) && TaskInv(kind, t, s) && !IsClaim(t)
    ensures !Recorded(kind, s) && Act(kind, t, s).1.level != s.level <==> Overdue(kind, t, s)
  {
  }

  /** The release has the level still to restore. */
  predicate Restores(sys: System, id: nat) {
    id in sys.tasks && (sys.tasks[id].Restoring? || sys.tasks[id].Rescaling?)
  }

  /** It restores the level of a target with nothing recorded any more. */
  ghost predicate RestoresUnheld(kind: Kind, sys: System, id: nat)
    requires Handled(kind)
  {
    Restores(sys, id) && !Recorded(kind, sys.server)
  }

  /** Another release takes the baseline off under it, or it starts from a reading older than that. */
  predicate ComesLate(kind: Kind, sys: System, e: Event, id: nat)
    requires Handled(kind)
  {
    || (Unrecords(kind, sys, e) && Restores(sys, id))
    || (e.BeginRelease? && e.id == id && !Recorded(kind, sys.server))
  }

  lemma RestoresUnheldStep(kind: Kind, sys: System, e: Event, next: System, id: nat)
    requires Handled(kind) && Inv(kind, sys) && Next(kind, sys, e, next)
    ensures RestoresUnheld(kind, next, id) <==>
      && Restores(next, id) && !Recorded(kind, next.server)
      && (ComesLate(kind, sys, e, id) || RestoresUnheld(kind, sys, id))
  {
    OnlyClearingUnrecords(kind, sys, e, next);
  }

  ghost predicate LateFrom(kind: Kind, states: seq<System>, events: seq<Event>, id: nat, m: nat, n: nat)
    requires Handled(kind) && |states| == |events| + 1 && n < |states|
  {
    && m < n && ComesLate(kind, states[m], events[m], id)
    && forall k: nat | m < k <= n :: RestoresUnheld(kind, states[k], id)
  }

  /**
   * Over any run, a release in flight restores a target nobody holds exactly from the step by which it
   * comes late: only then can it move, by OverdueReleaseWrites, a level that is not Reactor's to move.
   */
  lemma {:induction false} RestoresUnheldExactlySince(kind: Kind, states: seq<System>, events: seq<Event>, id: nat,
                                                      n: nat)
    requires Handled(kind) && Trace(kind, states, events) && n < |states|
    ensures RestoresUnheld(kind, states[n], id) <==> exists m: nat :: LateFrom(kind, states, events, id, m, n)
  {
    if n > 0 {
      var last := n - 1;
      RestoresUnheldExactlySince(kind, states, events, id, last);
      TraceKeepsInv(kind, states, events, last);
      assert StepAt(kind, states, events, last);
      RestoresUnheldStep(kind, states[last], events[last], states[n], id);
      if RestoresUnheld(kind, states[n], id) {
        if ComesLate(kind, states[last], events[last], id) {
          assert LateFrom(kind, states, events, id, last, n);
        } else {
          var m: nat :| LateFrom(kind, states, events, id, m, last);
          assert LateFrom(kind, states, events, id, m, n);
        }
      }
    }
  }

  // ------------------------------------------------------------------ claims of one fold

  /** The claim's next call is its last, and it is not refused. */
  predicate Completes(kind: Kind, t: Task, s: Server) {
    || (t.Applying? && (Scalable(kind) ==> s.level == t.claim.level))
    || (t.Scaling? && t.version == s.version)
  }

  /** It leaves the level it asks for, unless an old copy of a switch satisfied it and the switch moved since. */
  lemma CompletedClaimLeaves(kind: Kind, t: Task, s: Server)
    requires Handled(kind) && TaskInv(kind, t, s) && Completes(kind, t, s)
    ensures Act(kind, t, s).0 == None
    ensures Act(kind, t, s).1.level == Written(kind, t.claim.level) <==>
      !(t.Applying? && Satisfied(kind, t.copy, t.claim.level) && s.level != Written(kind, t.claim.level))
  {
  }

  /** Only claims are in flight, and they agree on the level. */
  predicate Agreed(sys: System, level: int) {
    forall id | id in sys.tasks :: IsClaim(sys.tasks[id]) && sys.tasks[id].claim.level == level
  }

  /** The step is another such claim's, or nobody's that moves the level. */
  predicate Joins(e: Event, level: int) {
    match e
    case BeginClaim(_, job, _) => job.level == level
    case BeginRelease(_, _, _) => false
    case SetLevel(_) => false
    case _ => true
  }

  lemma AgreedStep(kind: Kind, sys: System, e: Event, next: System, level: int)
    requires Handled(kind) && Inv(kind, sys) && Next(kind, sys, e, next) && Agreed(sys, level) && Joins(e, level)
    ensures Agreed(next, level)
    ensures next.server.level == sys.server.level
      || (ClaimCall(sys, e) && next.server.level == Written(kind, level))
  {
    if e.Call? && sys.tasks[e.id].Reading? {
      ClaimantsSent(kind, sys.tasks[e.id].copy, sys.server, sys.tasks[e.id].claim.claimedBy);
    }
  }

  ghost predicate FoldRun(kind: Kind, states: seq<System>, events: seq<Event>, level: int)
    requires Handled(kind)
  {
    && Path(kind, states, events) && Inv(kind, states[0]) && Agreed(states[0], level)
    && forall i | 0 <= i < |events| :: Joins(events[i], level)
  }

  lemma {:induction false} FoldRunStaysAgreed(kind: Kind, states: seq<System>, events: seq<Event>, level: int, n: nat)
    requires Handled(kind) && FoldRun(kind, states, events, level) && n < |states|
    ensures Inv(kind, states[n]) && Agreed(states[n], level)
  {
    if n > 0 {
      FoldRunStaysAgreed(kind, states, events, level, n - 1);
      assert StepAt(kind, states, events, n - 1);
      NextKeepsInv(kind, states[n - 1], events[n - 1], states[n]);
      AgreedStep(kind, states[n - 1], events[n - 1], states[n], level);
    }
  }

  predicate Wrote(states: seq<System>, k: nat)
    requires k + 1 < |states|
  {
    states[k + 1].server.level != states[k].server.level
  }

  /**
   * However many claims of one fold overlap, they never pull the level apart: from any moment on it is
   * where it was until one of them writes, and where they agree from then on.
   */
  lemma {:induction false} OneFoldOneLevel(kind: Kind, states: seq<System>, events: seq<Event>, level: int,
                                           from: nat, n: nat)
    requires Handled(kind) && FoldRun(kind, states, events, level) && from <= n < |states|
    ensures states[n].server.level ==
      if exists i: nat :: from <= i < n && Wrote(states, i) then Written(kind, level) else states[from].server.level
  {
    if n > from {
      var last := n - 1;
      OneFoldOneLevel(kind, states, events, level, from, last);
      FoldRunStaysAgreed(kind, states, events, level, last);
      assert StepAt(kind, states, events, last);
      AgreedStep(kind, states[last], events[last], states[n], level);
      assert Wrote(states, last) <==> states[n].server.level != states[last].server.level;
      if i: nat :| from <= i < n && Wrote(states, i) {
        if i < last { assert exists j: nat :: from <= j < last && Wrote(states, j); }
      }
    }
  }

  /**
   * So once a claim has completed, the level is the agreed one for good, unless the claim was a
   * switch's that an old copy satisfied, the switch stood elsewhere, and nobody has written since.
   */
  lemma CompletedFoldSettles(kind: Kind, states: seq<System>, events: seq<Event>, level: int, k: nat, n: nat)
    requires Handled(kind) && FoldRun(kind, states, events, level) && k < n < |states|
    requires ClaimCall(states[k], events[k])
    requires Completes(kind, states[k].tasks[events[k].id], states[k].server)
    ensures var t := states[k].tasks[events[k].id];
      states[n].server.level == Written(kind, level) <==>
        || !(t.Applying? && Satisfied(kind, t.copy, level) && states[k].server.level != Written(kind, level))
        || exists i: nat :: k < i < n && Wrote(states, i)
  {
    FoldRunStaysAgreed(kind, states, events, level, k);
    assert StepAt(kind, states, events, k);
    CompletedClaimLeaves(kind, states[k].tasks[events[k].id], states[k].server);
    OneFoldOneLevel(kind, states, events, level, k + 1, n);
  }
}
