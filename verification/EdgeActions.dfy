/** internal/controller/edge_actions.go:68-157: the actions that fire on an edge, each at most once. */
module EdgeActions {
  import opened Text
  import opened Collecting
  import opened Automations
  import opened Fields

  function EdgeOnly(action: Action): Option<Action> {
    if IsDesiredState(action.kind) then None else Some(action)
  }

  /** Entering the condition runs `actions`, leaving it runs `onExit`. */
  function Edges(a: Automation, matching: bool): seq<Action> {
    Collect(if matching then a.actions else a.onExit, EdgeOnly)
  }

  // ------------------------------------------------------------- the block of the spec it is

  /** `at` picks out, in order, the actions of the block that set no level. */
  ghost predicate EdgesAt(block: seq<Action>, at: seq<nat>) {
    && (forall i, j | 0 <= i < j < |at| :: at[i] < at[j])
    && (forall k: nat :: k in at <==> k < |block| && !SetsALevel(block[k]))
  }

  /** Exactly those, in order. */
  ghost predicate Picked(block: seq<Action>, edges: seq<Action>) {
    exists at: seq<nat> :: EdgesAt(block, at) && PickedAt(block, at, edges)
  }

  ghost predicate PickedAt(block: seq<Action>, at: seq<nat>, edges: seq<Action>)
    requires EdgesAt(block, at)
  {
    |edges| == |at| && forall i | 0 <= i < |at| :: at[i] in at && edges[i] == block[at[i]]
  }

  lemma EdgesAtOneMore(block: seq<Action>, action: Action, at: seq<nat>)
    requires EdgesAt(block, at)
    ensures EdgesAt(block + [action], if SetsALevel(action) then at else at + [|block|])
  {
    var more := if SetsALevel(action) then at else at + [|block|];
    forall k: nat ensures k in more <==> k < |block + [action]| && !SetsALevel((block + [action])[k]) {
      if k < |block| { assert (block + [action])[k] == block[k]; }
    }
    assert forall i | 0 <= i < |at| :: at[i] in at;
  }

  lemma PickedStill(block: seq<Action>, action: Action, at: seq<nat>, edges: seq<Action>)
    requires EdgesAt(block, at) && PickedAt(block, at, edges) && EdgesAt(block + [action], at)
    ensures PickedAt(block + [action], at, edges)
  {
    forall i | 0 <= i < |at| ensures at[i] in at && edges[i] == (block + [action])[at[i]] {
      assert at[i] in at && at[i] < |block|;
    }
  }

  lemma PickedOneMore(block: seq<Action>, action: Action, at: seq<nat>, edges: seq<Action>)
    requires EdgesAt(block, at) && PickedAt(block, at, edges) && EdgesAt(block + [action], at + [|block|])
    ensures PickedAt(block + [action], at + [|block|], edges + [action])
  {
    var more := at + [|block|];
    forall i | 0 <= i < |more| ensures more[i] in more && (edges + [action])[i] == (block + [action])[more[i]] {
      if i < |at| { assert more[i] == at[i] && at[i] in at && at[i] < |block|; }
    }
  }

  lemma {:induction false} EdgesPickedOut(block: seq<Action>) returns (at: seq<nat>)
    ensures EdgesAt(block, at) && PickedAt(block, at, Collect(block, EdgeOnly))
  {
    if |block| == 0 {
      at := [];
    } else {
      var front, last := block[..|block| - 1], block[|block| - 1];
      var before := EdgesPickedOut(front);
      assert front + [last] == block;
      EdgesAtOneMore(front, last, before);
      if SetsALevel(last) {
        at := before;
        PickedStill(front, last, before, Collect(front, EdgeOnly));
      } else {
        at := before + [|front|];
        PickedOneMore(front, last, before, Collect(front, EdgeOnly));
      }
    }
  }

  method EdgeActionsOf(a: Automation, matching: bool) returns (edges: seq<Action>)
    ensures edges == Edges(a, matching)
    ensures Picked(if matching then a.actions else a.onExit, edges)
  {
    var list := a.actions;
    if !matching {
      list := a.onExit;
    }
    edges := [];
    for i := 0 to |list|
      invariant edges == Collect(list[..i], EdgeOnly)
    {
      assert list[..i + 1] == list[..i] + [list[i]];
      CollectSnoc(list[..i], list[i], EdgeOnly);
      if !IsDesiredState(list[i].kind) {
        edges := edges + [list[i]];
      }
    }
    assert list[..|list|] == list;
    ghost var at := EdgesPickedOut(list);
  }

  datatype EdgeStatus = Success | ActionFailed | Skipped

  datatype EdgeResult = EdgeResult(kind: ActionType, onExit: bool, status: EdgeStatus)

  /** One action leaving the cluster. */
  datatype Firing = Firing(action: Action, onExit: bool)

  /** Everything that has been sent, in order. */
  class Outbox {
    var sent: seq<Firing>

    constructor ()
      ensures sent == []
    {
      sent := [];
    }
  }

  /** How the attempt at each action goes; the budget may run out before some of them start. */
  datatype Weather = Weather(budget: nat, answers: seq<bool>)

  function Fired(edges: seq<Action>, onExit: bool): (r: seq<Firing>)
    ensures |r| == |edges| && forall i | 0 <= i < |r| :: r[i] == Firing(edges[i], onExit)
  {
    seq(|edges|, i requires 0 <= i < |edges| => Firing(edges[i], onExit))
  }

  function Started(edges: seq<Action>, budget: nat): seq<Action> {
    if budget < |edges| then edges[..budget] else edges
  }

  /** The first `budget` of them leave the cluster, marked with the direction. */
  ghost predicate SentAt(block: seq<Action>, at: seq<nat>, onExit: bool, budget: nat, firings: seq<Firing>)
    requires EdgesAt(block, at)
  {
    && |firings| == Min(budget, |at|)
    && forall i | 0 <= i < |firings| :: at[i] in at && firings[i] == Firing(block[at[i]], onExit)
  }

  ghost predicate Sends(block: seq<Action>, onExit: bool, budget: nat, firings: seq<Firing>) {
    exists at: seq<nat> :: EdgesAt(block, at) && SentAt(block, at, onExit, budget, firings)
  }

  /** What is recorded of the attempts: every edge action of the block, the ones past the budget as skipped. */
  ghost predicate Records(block: seq<Action>, onExit: bool, weather: Weather, results: seq<EdgeResult>) {
    exists at: seq<nat> :: EdgesAt(block, at) && RecordsAt(block, at, onExit, weather, results)
  }

  ghost predicate RecordsAt(block: seq<Action>, at: seq<nat>, onExit: bool, weather: Weather, results: seq<EdgeResult>)
    requires EdgesAt(block, at)
  {
    && |results| == |at|
    && forall i | 0 <= i < |results| :: at[i] in at && ToldOf(results[i], block[at[i]].kind, onExit, weather, i)
  }

  /** What is recorded of the `i`-th attempt. */
  predicate ToldOf(result: EdgeResult, kind: ActionType, onExit: bool, weather: Weather, i: nat) {
    && result.kind == kind && result.onExit == onExit
    && (result.status == Skipped <==> i >= weather.budget)
    && (result.status == Success <==> i < weather.budget && i < |weather.answers| && weather.answers[i])
  }

  /** Entering the condition sends the edge actions of `actions`, leaving it those of `onExit`. */
  lemma EdgesAreTheBlocks(a: Automation, matching: bool, budget: nat)
    ensures Sends(if matching then a.actions else a.onExit, !matching, budget,
                  Fired(Started(Edges(a, matching), budget), !matching))
  {
    var block := if matching then a.actions else a.onExit;
    var at := EdgesPickedOut(block);
    assert SentAt(block, at, !matching, budget, Fired(Started(Edges(a, matching), budget), !matching));
  }

  lemma {:induction false} IncreasingIsUnique(a: seq<nat>, b: seq<nat>)
    requires forall i, j | 0 <= i < j < |a| :: a[i] < a[j]
    requires forall i, j | 0 <= i < j < |b| :: b[i] < b[j]
    requires forall k: nat :: k in a <==> k in b
    ensures a == b
  {
    assert (|a| > 0 ==> a[0] in a) && (|b| > 0 ==> b[0] in b);
    if |a| > 0 {
      assert a[0] == b[0];
      forall k: nat ensures k in a[1..] <==> k in b[1..] {
        assert k in a <==> k == a[0] || k in a[1..];
        assert k in b <==> k == b[0] || k in b[1..];
      }
      IncreasingIsUnique(a[1..], b[1..]);
    }
  }

  /** That leaves nothing open: the block, the direction and the budget decide what is sent. */
  lemma SendsOneWay(block: seq<Action>, onExit: bool, budget: nat, x: seq<Firing>, y: seq<Firing>)
    requires Sends(block, onExit, budget, x) && Sends(block, onExit, budget, y)
    ensures x == y
  {
    var at: seq<nat> :| EdgesAt(block, at) && SentAt(block, at, onExit, budget, x);
    var to: seq<nat> :| EdgesAt(block, to) && SentAt(block, to, onExit, budget, y);
    IncreasingIsUnique(at, to);
  }

  // ------------------------------------------------------------------------ the attempts

  /**
   * Each edge action of the direction is attempted once, in order, until the budget runs out; the
   * rest are recorded as skipped. A failure stops nothing.
   */
  method RunEdgeActions(outbox: Outbox, a: Automation, matching: bool, weather: Weather)
    returns (results: seq<EdgeResult>)
    modifies outbox
    ensures outbox.sent == old(outbox.sent) + Fired(Started(Edges(a, matching), weather.budget), !matching)
    ensures old(outbox.sent) <= outbox.sent
    ensures Sends(if matching then a.actions else a.onExit, !matching, weather.budget,
                  outbox.sent[|old(outbox.sent)|..])
    ensures Records(if matching then a.actions else a.onExit, !matching, weather, results)
  {
    var edges := EdgeActionsOf(a, matching);
    results := AttemptAll(outbox, edges, !matching, weather);
    EdgesAreTheBlocks(a, matching, weather.budget);
    ghost var at := EdgesPickedOut(if matching then a.actions else a.onExit);
    assert RecordsAt(if matching then a.actions else a.onExit, at, !matching, weather, results);
  }

  method AttemptAll(outbox: Outbox, edges: seq<Action>, onExit: bool, weather: Weather)
    returns (results: seq<EdgeResult>)
    modifies outbox
    ensures outbox.sent == old(outbox.sent) + Fired(Started(edges, weather.budget), onExit)
    ensures |results| == |edges|
    ensures forall i | 0 <= i < |results| :: ToldOf(results[i], edges[i].kind, onExit, weather, i)
  {
    results := [];
    for i := 0 to |edges|
      invariant |results| == i
      invariant outbox.sent == old(outbox.sent) + Fired(Started(edges[..i], weather.budget), onExit)
      invariant forall k | 0 <= k < i :: ToldOf(results[k], edges[k].kind, onExit, weather, k)
    {
      var entry := EdgeResult(edges[i].kind, onExit, Skipped);
      if i < weather.budget {
        outbox.sent := outbox.sent + [Firing(edges[i], onExit)];
        var sent := i < |weather.answers| && weather.answers[i];
        entry := entry.(status := if sent then Success else ActionFailed);
        assert Fired(edges[..i + 1], onExit) == Fired(edges[..i], onExit) + [Firing(edges[i], onExit)];
      } else {
        assert Started(edges[..i + 1], weather.budget) == Started(edges[..i], weather.budget);
      }
      results := results + [entry];
    }
    assert edges[..|edges|] == edges;
  }
}
