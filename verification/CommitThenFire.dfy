/**
 * The edge of one Automation, over every interleaving of its reconciles: workers that read any version
 * ever stored, crash anywhere, and get lost or ambiguous answers to their status writes
 * (internal/controller/automation_controller.go:487-571).
 */
module CommitThenFire {
  import opened Text
  import opened ApiServer
  import opened Automations
  import opened Evaluation
  import opened Confluence
  import opened TargetPasses
  import Reconciling
  import EdgeActions

  /** status.matching in every stored version, oldest first; the index is the version. */
  type History = seq<Option<bool>>

  predicate MatchingAt(h: History, v: nat)
    requires v < |h|
  {
    h[v] == Some(true)
  }

  /** Version `v` is where the recorded matching turned to `matching`. */
  predicate Flip(h: History, v: nat, matching: bool) {
    0 < v < |h| && MatchingAt(h, v) == matching && MatchingAt(h, v - 1) != matching
  }

  /**
   * One pass over the targets of `self`, as it was read: where each target was found and left, and how
   * many of them, in order, were done before a call failed.
   */
  datatype TargetRun = TargetRun(view: View, list: seq<Automation>, self: Automation, now: string,
                                 before: map<TargetKey, Server>, after: map<TargetKey, Server>, done: nat)
  {
    predicate Complete() { done == |Targets(self)| }

    predicate Answer() { Matching(view, self) }

    /** What ReconcileTargets promises of such a pass. */
    ghost predicate Happened() {
      MayAct(view, self) && PassedUpTo(view, list, self, Contributes(view, self), now, before, after, done)
    }
  }

  datatype Worker =
    | Idle
    | Deciding(seen: nat)                   // has read version `seen`
    | Applied(seen: nat, run: TargetRun)    // and has done every target
    | Observed(at: nat, matching: bool)     // its transition was stored as version `at`, and it knows
    | Sent(at: nat, matching: bool)

  datatype Answer = Stored | AnswerLost | Failed

  datatype Event =
    | Read(w: nat, seen: nat)
    | Note(w: nat, answer: Answer)          // a held pass or a failed target: status, matching as read
    | Apply(w: nat, run: TargetRun)
    | Commit(w: nat, answer: Answer)
    | Fire(w: nat)
    | Record(w: nat, answer: Answer)        // the results of the edge actions, matching as stored
    | Crash(w: nat)
    | Edit                                  // somebody else's write: the spec, a finalizer

  datatype System = System(history: History, workers: seq<Worker>, fired: seq<(nat, bool)>)

  /** A write from the version `seen`: refused unless that is still the current one. */
  predicate Writes(h: History, seen: nat, matching: Option<bool>, answer: Answer, after: History) {
    if answer == Failed then after == h
    else seen + 1 == |h| && (after == h + [matching] || (matching == h[seen] && after == h))
  }

  ghost predicate Next(s: System, e: Event, t: System) {
    match e
    case Edit => |s.history| > 0 && t == s.(history := s.history + [s.history[|s.history| - 1]])
    case _ =>
      && e.w < |s.workers|
      && |t.workers| == |s.workers|
      && (forall u | 0 <= u < |s.workers| && u != e.w :: t.workers[u] == s.workers[u])
      && WorkerActs(s, e, s.workers[e.w], t, t.workers[e.w])
  }

  /** The transition a completed pass makes, if its commit is stored and acknowledged. */
  predicate Transits(h: History, seen: nat, run: TargetRun)
    requires seen < |h|
  {
    run.self.InForce() && run.Answer() != MatchingAt(h, seen)
  }

  /** What the worker of an event does, and what becomes of it. */
  ghost predicate WorkerActs(s: System, e: Event, was: Worker, t: System, becomes: Worker) {
    match e
    case Read(_, seen) =>
      seen < |s.history| && was.Idle? && becomes == Deciding(seen) && t.history == s.history && t.fired == s.fired
    case Note(_, answer) =>
      && was.Deciding? && was.seen < |s.history| && becomes == Idle && t.fired == s.fired
      && Writes(s.history, was.seen, s.history[was.seen], answer, t.history)
    case Apply(_, run) =>
      && was.Deciding? && was.seen < |s.history| && t.history == s.history && t.fired == s.fired
      && run.Happened() && run.self.matching == s.history[was.seen]
      && becomes == if run.Complete() then Applied(was.seen, run) else was
    case Commit(_, answer) =>
      && was.Applied? && was.seen < |s.history| && t.fired == s.fired
      && Writes(s.history, was.seen, Some(was.run.Answer()), answer, t.history)
      && becomes ==
         if answer == Stored && Transits(s.history, was.seen, was.run)
         then Observed(|t.history| - 1, was.run.Answer()) else Idle
    case Fire(_) =>
      was.Observed? && becomes == Sent(was.at, was.matching)
      && t.history == s.history && t.fired == s.fired + [(was.at, was.matching)]
    case Record(_, answer) =>
      && was.Sent? && was.at < |s.history| && becomes == Idle && t.fired == s.fired
      && Writes(s.history, was.at, s.history[was.at], answer, t.history)
    case Crash(_) => becomes == Idle && t.history == s.history && t.fired == s.fired
    case Edit => false
  }

  ghost predicate NextAt(states: seq<System>, events: seq<Event>, i: nat)
    requires |states| == |events| + 1 && i < |events|
  {
    Next(states[i], events[i], states[i + 1])
  }

  /** Any number of workers, nothing recorded or sent yet beyond the first version. */
  ghost predicate Trace(states: seq<System>, events: seq<Event>) {
    && |states| == |events| + 1
    && |states[0].history| > 0 && states[0].fired == []
    && (forall u | 0 <= u < |states[0].workers| :: states[0].workers[u].Idle?)
    && (forall i: nat | i < |events| :: NextAt(states, events, i))
  }

  // --------------------------------------------------------------------------- the invariant

  /** A transition this worker knows of and has not announced yet. */
  predicate Owes(s: System, u: nat, v: nat)  { u < |s.workers| && s.workers[u].Observed? && s.workers[u].at == v }

  predicate Told(s: System, i: nat, v: nat) { i < |s.fired| && s.fired[i].0 == v }

  ghost predicate Inv(s: System) {
    && |s.history| > 0
    && (forall u: nat, v: nat | Owes(s, u, v) :: Flip(s.history, v, s.workers[u].matching))
    && (forall i: nat, v: nat | Told(s, i, v) :: Flip(s.history, v, s.fired[i].1))
    && (forall u: nat, u': nat, v: nat | Owes(s, u, v) && Owes(s, u', v) :: u == u')
    && (forall i: nat, i': nat, v: nat | Told(s, i, v) && Told(s, i', v) :: i == i')
    && (forall u: nat, i: nat, v: nat | Owes(s, u, v) :: !Told(s, i, v))
  }

  /** History only grows, so a flip once stored stays one. */
  lemma FlipsStay(h: History, after: History, v: nat, matching: bool)
    requires |h| <= |after| && after[..|h|] == h && Flip(h, v, matching)
    ensures Flip(after, v, matching)
  {
    assert after[v] == after[..|h|][v] && after[v - 1] == after[..|h|][v - 1];
  }

  lemma HistoryGrows(s: System, e: Event, t: System)
    requires Next(s, e, t)
    ensures |s.history| <= |t.history| && t.history[..|s.history|] == s.history
  {
  }

  /** A debt is an old one, or this very commit's, at a version that did not exist before. */
  lemma NewDebts(s: System, e: Event, t: System, u: nat, v: nat)
    requires Next(s, e, t) && Inv(s) && Owes(t, u, v)
    ensures (Owes(s, u, v) && t.workers[u] == s.workers[u])
      || (v == |s.history| && e.Commit? && u == e.w && Flip(t.history, v, t.workers[u].matching))
  {
  }

  /** An announcement is an old one, or this very firing's, and settles a debt. */
  lemma NewAnnouncements(s: System, e: Event, t: System, i: nat, v: nat)
    requires Next(s, e, t) && Told(t, i, v)
    ensures (Told(s, i, v) && t.fired[i] == s.fired[i])
      || (i == |s.fired| && e.Fire? && Owes(s, e.w, v) && t.fired[i].1 == s.workers[e.w].matching && !Owes(t, e.w, v))
  {
  }

  lemma StepKeepsInv(s: System, e: Event, t: System)
    requires Inv(s) && Next(s, e, t)
    ensures Inv(t)
  {
    HistoryGrows(s, e, t);
    forall v: nat, matching | Flip(s.history, v, matching) ensures Flip(t.history, v, matching) {
      FlipsStay(s.history, t.history, v, matching);
    }
    forall u: nat, v: nat | Owes(t, u, v)
      ensures (Owes(s, u, v) && t.workers[u] == s.workers[u])
        || (v == |s.history| && e.Commit? && u == e.w && Flip(t.history, v, t.workers[u].matching))
    {
      NewDebts(s, e, t, u, v);
    }
    forall i: nat, v: nat | Told(t, i, v)
      ensures (Told(s, i, v) && t.fired[i] == s.fired[i])
        || (i == |s.fired| && e.Fire? && Owes(s, e.w, v) && t.fired[i].1 == s.workers[e.w].matching && !Owes(t, e.w, v))
    {
      NewAnnouncements(s, e, t, i, v);
    }
  }

  lemma {:induction false} TraceKeepsInv(states: seq<System>, events: seq<Event>, n: nat)
    requires Trace(states, events) && n < |states|
    ensures Inv(states[n])
  {
    if n > 0 {
      TraceKeepsInv(states, events, n - 1);
      assert NextAt(states, events, n - 1);
      StepKeepsInv(states[n - 1], events[n - 1], states[n]);
    }
  }

  // ------------------------------------------------------------------------------- theorems

  /** Each firing announces a stored flip in its own direction, and no flip is announced twice. */
  lemma FiringsAreFlips(states: seq<System>, events: seq<Event>, n: nat)
    requires Trace(states, events) && n < |states|
    ensures forall i | 0 <= i < |states[n].fired| ::
      Flip(states[n].history, states[n].fired[i].0, states[n].fired[i].1)
    ensures forall i, j | 0 <= i < j < |states[n].fired| :: states[n].fired[i].0 != states[n].fired[j].0
  {
    TraceKeepsInv(states, events, n);
    var s := states[n];
    forall i | 0 <= i < |s.fired| ensures Flip(s.history, s.fired[i].0, s.fired[i].1) {
      assert Told(s, i, s.fired[i].0);
    }
    forall i, j | 0 <= i < j < |s.fired| ensures s.fired[i].0 != s.fired[j].0 {
      assert Told(s, i, s.fired[i].0) && Told(s, j, s.fired[j].0);
    }
  }

  /** Of any record of answers: between two flips in one direction lies one in the other. */
  lemma FlipsAlternate(h: History, v: nat, w: nat, matching: bool, other: bool)
    requires other != matching && v < w && Flip(h, v, matching) && Flip(h, w, matching)
    ensures exists m: nat :: v < m < w && Flip(h, m, other)
  {
    var m := w - 1;
    while MatchingAt(h, m - 1) != matching
      invariant v < m < w && MatchingAt(h, m) != matching
      decreases m
    {
      m := m - 1;
    }
    assert Flip(h, m, other);
  }

  /** So no two firings announce one direction unless the other was stored, announced or not, in between. */
  lemma FiringsAlternateOnRecord(states: seq<System>, events: seq<Event>, n: nat, i: nat, j: nat)
    requires Trace(states, events) && n < |states| && i < |states[n].fired| && j < |states[n].fired| && i != j
    requires states[n].fired[i].1 == states[n].fired[j].1 && states[n].fired[i].0 <= states[n].fired[j].0
    ensures exists m: nat, other: bool ::
      && states[n].fired[i].0 < m < states[n].fired[j].0 && other != states[n].fired[i].1
      && Flip(states[n].history, m, other)
  {
    FiringsAreFlips(states, events, n);
    var x, y := states[n].fired[i], states[n].fired[j];
    assert x.0 != y.0;
    var other := !x.1;
    FlipsAlternate(states[n].history, x.0, y.0, x.1, other);
  }

  /** Worker `w` did nothing from the event after `from` up to `to`. */
  predicate Quiet(events: seq<Event>, w: nat, from: nat, to: nat) {
    forall i | from < i < to && i < |events| :: events[i].Edit? || events[i].w != w
  }

  /** Where a worker that knows of a stored transition got it: an acknowledged commit, and nothing since. */
  lemma {:induction false} ObservedComesFromCommit(states: seq<System>, events: seq<Event>, w: nat, n: nat)
    returns (c: nat)
    requires Trace(states, events) && n < |states| && w < |states[n].workers| && states[n].workers[w].Observed?
    ensures c < n && events[c].Commit? && events[c].w == w && events[c].answer == Stored
    ensures Quiet(events, w, c, n)
    ensures w < |states[c].workers| && states[c].workers[w].Applied?
    ensures states[c].workers[w].run.Answer() == states[n].workers[w].matching
    ensures states[c].workers[w].run.self.InForce()
    ensures states[c].workers[w].seen + 1 == |states[c].history| && states[n].workers[w].at == |states[c].history|
    ensures Flip(states[c + 1].history, |states[c].history|, states[n].workers[w].matching)
  {
    if n == 0 { assert false; }
    assert NextAt(states, events, n - 1);
    if events[n - 1].Edit? || events[n - 1].w != w {
      c := ObservedComesFromCommit(states, events, w, n - 1);
    } else {
      c := n - 1;
    }
  }

  lemma AppliedByItsOwnPass(s: System, e: Event, t: System, w: nat)
    requires Next(s, e, t) && w < |t.workers| && t.workers[w].Applied?
    ensures w < |s.workers|
    ensures if e.Edit? || e.w != w then s.workers[w] == t.workers[w] else e.Apply? && e.run == t.workers[w].run
  {
  }

  /** And where a worker whose targets are all done got there: by its own pass, and nothing since. */
  lemma {:induction false} AppliedComesFromPass(states: seq<System>, events: seq<Event>, w: nat, n: nat)
    returns (p: nat)
    requires Trace(states, events) && n < |states| && w < |states[n].workers| && states[n].workers[w].Applied?
    ensures p < n && events[p].Apply? && events[p].w == w && events[p].run == states[n].workers[w].run
    ensures Quiet(events, w, p, n)
  {
    if n == 0 { assert false; }
    assert NextAt(states, events, n - 1);
    AppliedByItsOwnPass(states[n - 1], events[n - 1], states[n], w);
    if events[n - 1].Edit? || events[n - 1].w != w {
      p := AppliedComesFromPass(states, events, w, n - 1);
    } else {
      p := n - 1;
    }
  }

  /** A worker that has done every target did so in a pass over the version it had read. */
  ghost predicate Grounded(s: System, u: nat) {
    u < |s.workers| && s.workers[u].Applied? ==>
      && s.workers[u].seen < |s.history| && s.workers[u].run.self.matching == s.history[s.workers[u].seen]
      && s.workers[u].run.Happened() && s.workers[u].run.Complete()
  }

  lemma StepKeepsGrounded(s: System, e: Event, t: System, u: nat)
    requires Next(s, e, t) && Grounded(s, u)
    ensures Grounded(t, u)
  {
    HistoryGrows(s, e, t);
    if u < |s.workers| && s.workers[u].Applied? && t.workers[u] == s.workers[u] {
      assert t.history[..|s.history|][s.workers[u].seen] == s.history[s.workers[u].seen];
    }
  }

  lemma {:induction false} TraceKeepsGrounded(states: seq<System>, events: seq<Event>, u: nat, n: nat)
    requires Trace(states, events) && n < |states|
    ensures Grounded(states[n], u)
  {
    if n > 0 {
      TraceKeepsGrounded(states, events, u, n - 1);
      assert NextAt(states, events, n - 1);
      StepKeepsGrounded(states[n - 1], events[n - 1], states[n], u);
    }
  }

  /** Every target of the Automation was left where a completed pass in its name leaves it. */
  ghost predicate EveryTargetDone(run: TargetRun) {
    forall key | key in Targets(run.self) ::
      Done(run.view, run.list, run.self, Contributes(run.view, run.self), run.now, run.before, run.after, key)
  }

  lemma CompleteRunsAreDone(run: TargetRun)
    requires run.Happened()
    ensures run.Complete() ==> EveryTargetDone(run)
  {
    if run.Complete() {
      var keys := Targets(run.self);
      forall key | key in keys
        ensures Done(run.view, run.list, run.self, Contributes(run.view, run.self), run.now, run.before, run.after, key)
      {
        var i :| 0 <= i < |keys| && keys[i] == key;
      }
    }
  }

  /** What a firing appends is not among what was appended before. */
  lemma FiringIsNew(states: seq<System>, events: seq<Event>, n: nat)
    requires Trace(states, events) && n < |events| && events[n].Fire?
    ensures |states[n + 1].fired| == |states[n].fired| + 1
    ensures states[n + 1].fired[..|states[n].fired|] == states[n].fired
    ensures forall i | 0 <= i < |states[n].fired| :: states[n].fired[i].0 != states[n + 1].fired[|states[n].fired|].0
  {
    assert NextAt(states, events, n);
    FiringsAreFlips(states, events, n + 1);
    var said, last := states[n + 1].fired, |states[n].fired|;
    forall i | 0 <= i < last ensures states[n].fired[i].0 != said[last].0 {
      assert said[i] == states[n].fired[i] && said[i].0 != said[last].0;
    }
  }

  /** What a worker about to fire appends. */
  lemma FiringSays(states: seq<System>, events: seq<Event>, n: nat)
    requires Trace(states, events) && n < |events| && events[n].Fire?
    ensures var w := events[n].w;
      && w < |states[n].workers| && states[n].workers[w].Observed?
      && states[n + 1].fired == states[n].fired + [(states[n].workers[w].at, states[n].workers[w].matching)]
  {
    assert NextAt(states, events, n);
  }

  /** The run behind a worker that is about to commit: complete, and over the version it read. */
  lemma RunBehind(states: seq<System>, events: seq<Event>, w: nat, c: nat)
    requires Trace(states, events) && c < |states| && w < |states[c].workers| && states[c].workers[w].Applied?
    ensures EveryTargetDone(states[c].workers[w].run)
    ensures states[c].workers[w].seen < |states[c].history|
    ensures states[c].workers[w].run.self.matching == states[c].history[states[c].workers[w].seen]
  {
    TraceKeepsGrounded(states, events, w, c);
    CompleteRunsAreDone(states[c].workers[w].run);
  }

  /**
   * The main result. A firing announces, in its direction, a transition that nothing else announces. In
   * the same pass and with nothing of that worker's in between, every target of the Automation was
   * first taken where the answer just evaluated takes it, and the transition was then stored, from the
   * very version that had been read, and acknowledged.
   */
  lemma NothingIsAnnouncedEarly(states: seq<System>, events: seq<Event>, n: nat) returns (p: nat, c: nat)
    requires Trace(states, events) && n < |events| && events[n].Fire?
    ensures p < c < n && events[p].Apply? && events[c].Commit? && events[p].w == events[c].w == events[n].w
    ensures Quiet(events, events[n].w, p, c) && Quiet(events, events[n].w, c, n)
    ensures EveryTargetDone(events[p].run) && events[c].answer == Stored && events[p].run.self.InForce()
    ensures Flip(states[c + 1].history, |states[c].history|, events[p].run.Answer())
    ensures events[p].run.self.matching == states[c].history[|states[c].history| - 1]
    ensures states[n + 1].fired == states[n].fired + [(|states[c].history|, events[p].run.Answer())]
    ensures forall i | 0 <= i < |states[n].fired| :: states[n].fired[i].0 != |states[c].history|
  {
    var w := events[n].w;
    FiringSays(states, events, n);
    FiringIsNew(states, events, n);
    c := ObservedComesFromCommit(states, events, w, n);
    p := AppliedComesFromPass(states, events, w, c);
    RunBehind(states, events, w, c);
  }

  // -------------------------------------------------------------- the code as one worker

  /** The pass one committed reconcile made over its targets. */
  function RunOf(view: View, list: seq<Automation>, a: Automation, now: string,
                 before: map<TargetKey, Server>, after: map<TargetKey, Server>): TargetRun
  {
    TargetRun(view, list, a, now, before, after, |Targets(a)|)
  }

  /** A run over all the targets happened exactly when AllDone holds of what it found and left. */
  lemma RunIsAllDone(view: View, list: seq<Automation>, a: Automation, now: string,
                     before: map<TargetKey, Server>, after: map<TargetKey, Server>)
    requires MayAct(view, a)
    ensures RunOf(view, list, a, now, before, after).Complete()
    ensures RunOf(view, list, a, now, before, after).Happened() <==>
      Reconciling.AllDone(view, list, a, now, before, after)
  {
  }

  /** One worker's pass from reading to the commit, everything stored and acknowledged. */
  ghost predicate CommitsBy(s: System, w: nat, run: TargetRun, begun: System, applied: System, committed: System) {
    && |s.history| > 0
    && Next(s, Read(w, |s.history| - 1), begun) && Next(begun, Apply(w, run), applied)
    && Next(applied, Commit(w, Stored), committed)
  }

  function With(s: System, w: nat, worker: Worker): System
    requires w < |s.workers|
  {
    s.(workers := s.workers[w := worker])
  }

  /** The state a stored and acknowledged commit leaves. */
  function Committing(s: System, w: nat, seen: nat, run: TargetRun): System
    requires w < |s.workers| && seen + 1 == |s.history|
  {
    var becomes := if Transits(s.history, seen, run) then Observed(|s.history|, run.Answer()) else Idle;
    With(s, w, becomes).(history := s.history + [Some(run.Answer())])
  }

  lemma ApplyIsOpen(s: System, w: nat, seen: nat, run: TargetRun)
    requires w < |s.workers| && s.workers[w] == Deciding(seen) && seen < |s.history|
    requires run.Happened() && run.Complete() && run.self.matching == s.history[seen]
    ensures Next(s, Apply(w, run), With(s, w, Applied(seen, run)))
  {
  }

  lemma CommitIsOpen(s: System, w: nat, seen: nat, run: TargetRun)
    requires w < |s.workers| && s.workers[w] == Applied(seen, run) && seen + 1 == |s.history|
    ensures Next(s, Commit(w, Stored), Committing(s, w, seen, run))
  {
  }

  lemma FireIsOpenWhenObserved(s: System, w: nat)
    requires w < |s.workers|
    ensures s.workers[w].Observed? <==> exists fired :: Next(s, Fire(w), fired)
  {
    if s.workers[w].Observed? {
      var at, matching := s.workers[w].at, s.workers[w].matching;
      assert Next(s, Fire(w), With(s, w, Sent(at, matching)).(fired := s.fired + [(at, matching)]));
    }
  }

  /** An idle worker may make any pass over the current version, and announce it exactly if it is a transition. */
  lemma PassIsOpen(s: System, w: nat, run: TargetRun) returns (begun: System, applied: System, committed: System)
    requires |s.history| > 0 && w < |s.workers| && s.workers[w].Idle?
    requires run.Happened() && run.Complete() && run.self.matching == s.history[|s.history| - 1]
    ensures CommitsBy(s, w, run, begun, applied, committed)
    ensures committed.history == s.history + [Some(run.Answer())]
    ensures Transits(s.history, |s.history| - 1, run) <==> exists fired :: Next(committed, Fire(w), fired)
  {
    var seen := |s.history| - 1;
    begun := With(s, w, Deciding(seen));
    assert Next(s, Read(w, seen), begun);
    applied := With(begun, w, Applied(seen, run));
    ApplyIsOpen(begun, w, seen, run);
    committed := Committing(applied, w, seen, run);
    CommitIsOpen(applied, w, seen, run);
    FireIsOpenWhenObserved(committed, w);
  }

  /**
   * A reconcile that commits is a worker's pass: whatever state the machine is in, as long as the
   * current version is the one that was read, the same steps are open to an idle worker, end at the
   * same recorded matching, and may announce exactly if the reconcile did.
   */
  lemma ReconcileIsAPass(view: View, list: seq<Automation>, read: Reconciling.Snapshot, now: string, budget: nat,
                         result: Reconciling.Result, before: Reconciling.Snapshot, after: Reconciling.Snapshot,
                         was: map<TargetKey, Server>, reached: map<TargetKey, Server>,
                         said: seq<EdgeActions.Firing>, says: seq<EdgeActions.Firing>, s: System, w: nat)
    returns (begun: System, applied: System, committed: System)
    requires Reconciling.CommitsBeforeFiring(view, list, read, now, budget, result, before, after, was, reached, said,
                                             says)
    requires result.Committed?
    requires |s.history| > 0 && s.history[|s.history| - 1] == before.automation.matching
    requires w < |s.workers| && s.workers[w].Idle?
    ensures CommitsBy(s, w, RunOf(view, list, read.automation, now, was, reached), begun, applied, committed)
    ensures committed.history == s.history + [after.automation.matching]
    ensures result.fired <==> exists fired :: Next(committed, Fire(w), fired)
  {
    RunIsAllDone(view, list, read.automation, now, was, reached);
    begun, applied, committed := PassIsOpen(s, w, RunOf(view, list, read.automation, now, was, reached));
  }

  /** A few steps of one worker, from one state of the machine to another. */
  ghost predicate Steps(states: seq<System>, events: seq<Event>) {
    |states| == |events| + 1 && forall i: nat | i < |events| :: NextAt(states, events, i)
  }

  /** What a worker does in a reconcile that was held, failed on a target, or was not acknowledged. */
  ghost predicate EndsIdle(s: System, w: nat, states: seq<System>, events: seq<Event>, matching: Option<bool>) {
    && Steps(states, events) && states[0] == s
    && var t := states[|events|];
       && w < |t.workers| && t.workers[w].Idle? && t.fired == s.fired
       && |t.history| > 0 && t.history[|t.history| - 1] == matching
  }

  lemma ReadIsOpen(s: System, w: nat)
    requires |s.history| > 0 && w < |s.workers| && s.workers[w].Idle?
    ensures Next(s, Read(w, |s.history| - 1), With(s, w, Deciding(|s.history| - 1)))
  {
  }

  lemma NoteIsOpen(s: System, w: nat, seen: nat, answer: Answer)
    requires w < |s.workers| && s.workers[w] == Deciding(seen) && seen + 1 == |s.history|
    ensures Next(s, Note(w, answer), With(s, w, Idle))
  {
  }

  lemma PartIsOpen(s: System, w: nat, seen: nat, run: TargetRun)
    requires w < |s.workers| && s.workers[w] == Deciding(seen) && seen < |s.history|
    requires run.Happened() && !run.Complete() && run.self.matching == s.history[seen]
    ensures Next(s, Apply(w, run), s)
  {
  }

  /** The state a commit leaves that was stored, but whose answer was lost. */
  function StoredUnknown(s: System, w: nat, run: TargetRun): System
    requires w < |s.workers|
  {
    With(s, w, Idle).(history := s.history + [Some(run.Answer())])
  }

  lemma UnansweredIsOpen(s: System, w: nat, seen: nat, run: TargetRun)
    requires w < |s.workers| && s.workers[w] == Applied(seen, run) && seen + 1 == |s.history|
    ensures Next(s, Commit(w, AnswerLost), StoredUnknown(s, w, run))
  {
  }

  /** Three steps that leave the worker idle, having announced nothing. */
  lemma ThreeSteps(s: System, w: nat, b: System, c: System, d: System, e: Event, f: Event, g: Event,
                   matching: Option<bool>)
    requires Next(s, e, b) && Next(b, f, c) && Next(c, g, d)
    requires w < |d.workers| && d.workers[w].Idle? && d.fired == s.fired
    requires |d.history| > 0 && d.history[|d.history| - 1] == matching
    ensures EndsIdle(s, w, [s, b, c, d], [e, f, g], matching)
  {
    var states, events := [s, b, c, d], [e, f, g];
    forall i: nat | i < |events| ensures NextAt(states, events, i) {
      assert i == 0 || i == 1 || i == 2;
    }
  }

  /** Held, or refused without a trace: read, and note. */
  lemma NotingPass(s: System, w: nat, answer: Answer) returns (states: seq<System>, events: seq<Event>)
    requires |s.history| > 0 && w < |s.workers| && s.workers[w].Idle?
    ensures EndsIdle(s, w, states, events, s.history[|s.history| - 1])
    ensures events == [Read(w, |s.history| - 1), Note(w, answer)]
  {
    var seen := |s.history| - 1;
    var begun := With(s, w, Deciding(seen));
    ReadIsOpen(s, w);
    NoteIsOpen(begun, w, seen, answer);
    states, events := [s, begun, With(begun, w, Idle)], [Read(w, seen), Note(w, answer)];
    assert NextAt(states, events, 0) && NextAt(states, events, 1);
  }

  /** A target failed: read, apply as far as it went, and note. */
  lemma FailingPass(s: System, w: nat, run: TargetRun) returns (states: seq<System>, events: seq<Event>)
    requires |s.history| > 0 && w < |s.workers| && s.workers[w].Idle?
    requires run.Happened() && !run.Complete() && run.self.matching == s.history[|s.history| - 1]
    ensures EndsIdle(s, w, states, events, s.history[|s.history| - 1])
    ensures events == [Read(w, |s.history| - 1), Apply(w, run), Note(w, Stored)]
  {
    var seen := |s.history| - 1;
    var begun := With(s, w, Deciding(seen));
    var noted := With(begun, w, Idle);
    ReadIsOpen(s, w);
    PartIsOpen(begun, w, seen, run);
    NoteIsOpen(begun, w, seen, Stored);
    ThreeSteps(s, w, begun, begun, noted, Read(w, seen), Apply(w, run), Note(w, Stored), s.history[seen]);
    states, events := [s, begun, begun, noted], [Read(w, seen), Apply(w, run), Note(w, Stored)];
  }

  /** Every target done and the transition stored, but the answer lost: nothing is announced. */
  lemma UnansweredPass(s: System, w: nat, run: TargetRun) returns (states: seq<System>, events: seq<Event>)
    requires |s.history| > 0 && w < |s.workers| && s.workers[w].Idle?
    requires run.Happened() && run.Complete() && run.self.matching == s.history[|s.history| - 1]
    ensures EndsIdle(s, w, states, events, Some(run.Answer()))
    ensures events == [Read(w, |s.history| - 1), Apply(w, run), Commit(w, AnswerLost)]
  {
    var seen := |s.history| - 1;
    var begun := With(s, w, Deciding(seen));
    var applied := With(begun, w, Applied(seen, run));
    var stored := StoredUnknown(applied, w, run);
    ReadIsOpen(s, w);
    ApplyIsOpen(begun, w, seen, run);
    UnansweredIsOpen(applied, w, seen, run);
    ThreeSteps(s, w, begun, applied, stored, Read(w, seen), Apply(w, run), Commit(w, AnswerLost), Some(run.Answer()));
    states, events := [s, begun, applied, stored], [Read(w, seen), Apply(w, run), Commit(w, AnswerLost)];
  }

  /**
   * And so is every other reconcile: one that was held notes it, one that failed on a target applied the
   * ones before it and notes that, one that was refused may have stored its transition without knowing.
   * The worker ends idle, at the same recorded matching, and has announced nothing.
   */
  lemma OtherReconcilesArePasses(
    view: View, list: seq<Automation>, read: Reconciling.Snapshot, now: string, budget: nat,
    result: Reconciling.Result, before: Reconciling.Snapshot, after: Reconciling.Snapshot,
    was: map<TargetKey, Server>, reached: map<TargetKey, Server>,
    said: seq<EdgeActions.Firing>, says: seq<EdgeActions.Firing>, s: System, w: nat)
    returns (states: seq<System>, events: seq<Event>)
    requires Reconciling.CommitsBeforeFiring(view, list, read, now, budget, result, before, after, was, reached,
                                             said, says)
    requires !result.Committed? && Reconciling.ReadOnce(read, before)
    requires |s.history| > 0 && s.history[|s.history| - 1] == before.automation.matching
    requires w < |s.workers| && s.workers[w].Idle?
    ensures EndsIdle(s, w, states, events, after.automation.matching)
    ensures result.Held? ==> events == [Read(w, |s.history| - 1), Note(w, Stored)]
    ensures result.Retry? ==> exists n: nat ::
      var run := TargetRun(view, list, read.automation, now, was, reached, n);
      !run.Complete() && events == [Read(w, |s.history| - 1), Apply(w, run), Note(w, Stored)]
    ensures result.Refused? ==>
      var run := RunOf(view, list, read.automation, now, was, reached);
      || events == [Read(w, |s.history| - 1), Note(w, Failed)]
      || (run.Complete() && events == [Read(w, |s.history| - 1), Apply(w, run), Commit(w, AnswerLost)])
    ensures said == says
  {
    var a := read.automation;
    if result.Retry? {
      var changed, n :| Reconciling.FailedAt(view, list, a, now, was, reached, changed, n);
      var run := TargetRun(view, list, a, now, was, reached, n);
      states, events := FailingPass(s, w, run);
      assert !run.Complete();
    } else if after.automation.matching == before.automation.matching {
      states, events := NotingPass(s, w, if result.Held? then Stored else Failed);
    } else {
      RunIsAllDone(view, list, a, now, was, reached);
      states, events := UnansweredPass(s, w, RunOf(view, list, a, now, was, reached));
    }
  }
}
