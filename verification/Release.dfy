/** internal/controller/release.go:138-245: the sweep that hands everything back when Reactor is uninstalled. */
module Release {
  import opened Text
  import opened Arbiter
  import opened TargetKinds
  import opened ApiServer
  import opened Collecting
  import opened Automations
  import opened ClaimProtocol
  import opened ClaimRuns
  import opened Evaluation
  import opened Arbitration
  import opened Confluence
  import opened TargetPasses
  import opened Fields

  // ---------------------------------------------------------------------- grouping by target

  function Entry(claimants: map<TargetKey, seq<Automation>>, key: TargetKey): seq<Automation> {
    if key in claimants then claimants[key] else []
  }

  ghost predicate NoRepeats<T(!new)>(s: seq<T>) { forall i, j | 0 <= i < j < |s| :: s[i] != s[j] }

  /** `order` names once each key of `claimants`, which holds what `gathered` says. */
  ghost predicate Tabulates(gathered: TargetKey -> seq<Automation>, claimants: map<TargetKey, seq<Automation>>,
                            order: seq<TargetKey>)
  {
    && NoRepeats(order)
    && (forall key :: key in order <==> key in claimants)
    && (forall key | key in claimants :: claimants[key] != [])
    && (forall key :: Entry(claimants, key) == gathered(key))
  }

  /** Every target once, with exactly the Automations that reference it. */
  ghost predicate Grouped(list: seq<Automation>, claimants: map<TargetKey, seq<Automation>>, order: seq<TargetKey>) {
    Tabulates((key: TargetKey) => Collect(list, Referencing(key)), claimants, order)
  }

  function WithOneMore(gathered: TargetKey -> seq<Automation>, a: Automation,
                       seen: seq<TargetKey>): TargetKey -> seq<Automation>
  {
    (key: TargetKey) => if key in seen then gathered(key) + [a] else gathered(key)
  }

  lemma TabulatesOneMore(gathered: TargetKey -> seq<Automation>, a: Automation, seen: seq<TargetKey>,
                     claimants: map<TargetKey, seq<Automation>>, order: seq<TargetKey>, key: TargetKey)
    requires Tabulates(WithOneMore(gathered, a, seen), claimants, order) && key !in seen
    ensures Tabulates(WithOneMore(gathered, a, seen + [key]), claimants[key := Entry(claimants, key) + [a]],
                  if key in claimants then order else order + [key])
  {
    assert Entry(claimants, key) == WithOneMore(gathered, a, seen)(key);
    assert forall k | k != key :: WithOneMore(gathered, a, seen + [key])(k) == WithOneMore(gathered, a, seen)(k);
  }

  lemma TabulatesAlike(gathered: TargetKey -> seq<Automation>, other: TargetKey -> seq<Automation>,
                   claimants: map<TargetKey, seq<Automation>>, order: seq<TargetKey>)
    requires Tabulates(gathered, claimants, order) && forall key :: gathered(key) == other(key)
    ensures Tabulates(other, claimants, order)
  {
  }

  /** Lists `a` under each of the keys. */
  method GroupUnder(ghost gathered: TargetKey -> seq<Automation>, a: Automation, keys: seq<TargetKey>,
                    before: map<TargetKey, seq<Automation>>, first: seq<TargetKey>)
    returns (claimants: map<TargetKey, seq<Automation>>, order: seq<TargetKey>)
    requires Tabulates(gathered, before, first) && NoRepeats(keys)
    ensures Tabulates(WithOneMore(gathered, a, keys), claimants, order)
  {
    claimants, order := before, first;
    TabulatesAlike(gathered, WithOneMore(gathered, a, []), claimants, order);
    for j := 0 to |keys|
      invariant Tabulates(WithOneMore(gathered, a, keys[..j]), claimants, order)
    {
      var key := keys[j];
      assert keys[..j + 1] == keys[..j] + [key] && key !in keys[..j];
      TabulatesOneMore(gathered, a, keys[..j], claimants, order, key);
      if key !in claimants {
        order := order + [key];
      }
      claimants := claimants[key := (if key in claimants then claimants[key] else []) + [a]];
    }
    assert keys[..|keys|] == keys;
  }

  lemma GroupedOneMore(list: seq<Automation>, a: Automation, claimants: map<TargetKey, seq<Automation>>,
                       order: seq<TargetKey>)
    requires Tabulates(WithOneMore((key: TargetKey) => Collect(list, Referencing(key)), a,
                               if a.condition.Some? then Targets(a) else []), claimants, order)
    ensures Grouped(list + [a], claimants, order)
  {
    var was := (key: TargetKey) => Collect(list, Referencing(key));
    var next := (key: TargetKey) => Collect(list + [a], Referencing(key));
    var keys := if a.condition.Some? then Targets(a) else [];
    forall key ensures WithOneMore(was, a, keys)(key) == next(key) {
      CollectSnoc(list, a, Referencing(key));
    }
    TabulatesAlike(WithOneMore(was, a, keys), next, claimants, order);
  }

  /** One group a target, however many Automations reference it. */
  method GroupByTarget(list: seq<Automation>)
    returns (claimants: map<TargetKey, seq<Automation>>, order: seq<TargetKey>)
    ensures Grouped(list, claimants, order)
  {
    claimants, order := map[], [];
    assert list[..0] == [];
    for i := 0 to |list|
      invariant Grouped(list[..i], claimants, order)
    {
      var a := list[i];
      var keys := [];
      if a.condition.Some? {
        keys := TargetsOf(a);
        TargetsAreWhatItMentions(a);
      }
      claimants, order := GroupUnder((key: TargetKey) => Collect(list[..i], Referencing(key)), a, keys, claimants,
                                     order);
      GroupedOneMore(list[..i], a, claimants, order);
      assert list[..i + 1] == list[..i] + [a];
    }
    assert list[..|list|] == list;
  }

  // --------------------------------------------------------------------------- the sweep

  /** Where a target is handed back to when none of these Automations claims it. */
  function HandedBack(key: TargetKey, automations: seq<Automation>, s: Server): Server
    requires Handled(key.kind)
  {
    if Recorded(key.kind, s)
    then Cleared(Restored(key.kind, s, ReleaseLevel(Collect(automations, Reversing(key, BaselineOf(key.kind, s))))))
    else s
  }

  /** What one attempt may do: it ends handed back, or somewhere a release can stop. */
  ghost predicate Attempted(key: TargetKey, automations: seq<Automation>, s: Server, t: Server, failed: bool)
    requires Handled(key.kind)
  {
    && (!failed ==> t == HandedBack(key, automations, s))
    && (if Recorded(key.kind, s)
        then ReleaseReaches(key.kind, s, ReleaseLevel(Collect(automations, Reversing(key, BaselineOf(key.kind, s)))), t,
                            if failed then Failed(Unavailable) else Ok)
        else t == s)
  }

  method ReleaseClaimedTarget(api: Api, key: TargetKey, automations: seq<Automation>) returns (failed: bool)
    modifies api
    ensures !Handled(key.kind) ==> failed && api.server == old(api.server)
    ensures Handled(key.kind) ==> Attempted(key, automations, old(api.server), api.server, failed)
    ensures Handled(key.kind) && old(api.faults) == [] ==> !failed
    ensures api.refusals == old(api.refusals) + if Handled(key.kind) && failed then 1 else 0
  {
    if !Handled(key.kind) { return true; }
    var target := new Target();
    var read := api.Get(target);
    if read.Failed? { return true; }
    if !Recorded(key.kind, target.copy) { return false; }
    var reversals := ReversalIntents(automations, key, BaselineOf(key.kind, target.copy));
    var release := Resolve(reversals);
    var level := if release.Some? then Some(release.value.level) else None;
    var released, changed := ReleaseTarget(api, key.kind, target, level);
    failed := released.Failed?;
  }

  /** The targets to be swept, what became of each, and which of them failed. */
  ghost predicate SweptUpTo(gathered: TargetKey -> seq<Automation>, order: seq<TargetKey>, n: nat,
                            failed: set<TargetKey>,
                            before: map<TargetKey, Server>, after: map<TargetKey, Server>)
    requires n <= |order|
  {
    && after.Keys == before.Keys
    && (forall key | key in failed :: key in order[..n])
    && (forall key | key in order[..n] && key in before && Handled(key.kind) ::
          Attempted(key, gathered(key), before[key], after[key], key in failed))
    && (forall key | key in before && (key !in order[..n] || !Handled(key.kind)) :: after[key] == before[key])
    && (forall key | key in order[..n] && !Handled(key.kind) :: key in failed)
    && (forall key | key in failed :: key in before || !Handled(key.kind))
  }

  lemma SweepOneMore(gathered: TargetKey -> seq<Automation>, order: seq<TargetKey>, n: nat, failed: set<TargetKey>,
                     fails: bool,
                     before: map<TargetKey, Server>, middle: map<TargetKey, Server>, after: map<TargetKey, Server>)
    requires n < |order| && NoRepeats(order) && SweptUpTo(gathered, order, n, failed, before, middle)
    requires after.Keys == middle.Keys && forall key | key in middle && key != order[n] :: after[key] == middle[key]
    requires var key := order[n];
      if !Handled(key.kind) then fails && (key in middle ==> after[key] == middle[key])
      else if key in middle then Attempted(key, gathered(key), middle[key], after[key], fails)
      else !fails
    ensures SweptUpTo(gathered, order, n + 1, if fails then failed + {order[n]} else failed, before, after)
  {
    assert order[..n + 1] == order[..n] + [order[n]] && order[n] !in order[..n];
    if order[n] in before { assert middle[order[n]] == before[order[n]]; }
  }

  ghost function Refusals(apis: map<TargetKey, Api>): map<TargetKey, nat>
    reads apis.Values
  {
    map k | k in apis :: apis[k].refusals
  }

  /** One more failed call for `key`, or none. */
  ghost function Refuse(refusals: map<TargetKey, nat>, key: TargetKey, failed: bool): map<TargetKey, nat> {
    if failed && key in refusals then refusals[key := refusals[key] + 1] else refusals
  }

  /** A target is counted as failed if and only if a call made for it failed, or none could be made. */
  ghost predicate CountsFailures(order: seq<TargetKey>, n: nat, failed: set<TargetKey>,
                                 before: map<TargetKey, nat>, after: map<TargetKey, nat>)
    requires n <= |order|
  {
    && after.Keys == before.Keys
    && (forall key | key in order[..n] ::
          key in failed <==> !Handled(key.kind) || (key in before && after[key] > before[key]))
    && (forall key | key in before && key !in order[..n] :: after[key] == before[key])
  }

  lemma CountOneMore(order: seq<TargetKey>, n: nat, failed: set<TargetKey>, fails: bool,
                     before: map<TargetKey, nat>, middle: map<TargetKey, nat>, after: map<TargetKey, nat>)
    requires n < |order| && NoRepeats(order) && CountsFailures(order, n, failed, before, middle)
    requires forall key | key in failed :: key in order[..n]
    requires after == Refuse(middle, order[n], Handled(order[n].kind) && fails)
    requires !Handled(order[n].kind) ==> fails
    requires order[n] !in before && Handled(order[n].kind) ==> !fails
    ensures CountsFailures(order, n + 1, if fails then failed + {order[n]} else failed, before, after)
  {
    assert order[..n + 1] == order[..n] + [order[n]] && order[n] !in order[..n];
  }

  /** A target that no longer exists is handed back already. */
  method ReleaseIfThere(apis: map<TargetKey, Api>, key: TargetKey, automations: seq<Automation>) returns (failed: bool)
    requires Separate(apis)
    modifies apis.Values
    ensures forall other | other in apis && other != key :: apis[other].server == old(apis[other].server)
    ensures forall other | other != key && old(Answers(apis, other)) :: Answers(apis, other)
    ensures !Handled(key.kind) ==> failed && (key in apis ==> apis[key].server == old(apis[key].server))
    ensures Handled(key.kind) && key in apis ==>
      Attempted(key, automations, old(apis[key].server), apis[key].server, failed)
    ensures Handled(key.kind) && (key !in apis || old(Answers(apis, key))) ==> !failed
    ensures Refusals(apis) == Refuse(old(Refusals(apis)), key, Handled(key.kind) && failed)
  {
    if key !in apis { return !Handled(key.kind); }
    failed := ReleaseClaimedTarget(apis[key], key, automations);
  }

  /**
   * Every target is attempted once, whatever became of the others: a failure is counted and the next
   * target tried. One whose calls all answer is handed back.
   */
  method Sweep(apis: map<TargetKey, Api>, ghost gathered: TargetKey -> seq<Automation>,
               claimants: map<TargetKey, seq<Automation>>, order: seq<TargetKey>)
    returns (failures: nat, ghost failed: set<TargetKey>)
    requires Separate(apis) && Tabulates(gathered, claimants, order)
    modifies apis.Values
    ensures SweptUpTo(gathered, order, |order|, failed, old(Servers(apis)), Servers(apis))
    ensures CountsFailures(order, |order|, failed, old(Refusals(apis)), Refusals(apis))
    ensures failures == |failed| && forall key | old(Answers(apis, key)) :: key !in failed
  {
    failures, failed := 0, {};
    ghost var before := Servers(apis);
    for i := 0 to |order|
      invariant SweptUpTo(gathered, order, i, failed, before, Servers(apis)) && failures == |failed|
      invariant CountsFailures(order, i, failed, old(Refusals(apis)), Refusals(apis))
      invariant forall k | i <= k < |order| && old(Answers(apis, order[k])) :: Answers(apis, order[k])
      invariant forall key | old(Answers(apis, key)) :: key !in failed
    {
      ghost var middle, refused := Servers(apis), Refusals(apis);
      var key := order[i];
      assert Entry(claimants, key) == gathered(key);
      var fails := ReleaseIfThere(apis, key, claimants[key]);
      SweepOneMore(gathered, order, i, failed, fails, before, middle, Servers(apis));
      CountOneMore(order, i, failed, fails, old(Refusals(apis)), refused, Refusals(apis));
      assert order[i] !in order[..i];
      if fails {
        failures := failures + 1;
        failed := failed + {key};
      }
    }
  }

  /** The whole sweep: the targets some listed Automation references, each in the name of all that do. */
  method ReleaseAllClaims(apis: map<TargetKey, Api>, list: seq<Automation>)
    returns (failures: nat, ghost order: seq<TargetKey>, ghost failed: set<TargetKey>)
    requires Separate(apis)
    modifies apis.Values
    ensures NoRepeats(order) && forall key :: key in order <==> Collect(list, Referencing(key)) != []
    ensures SweptUpTo((key: TargetKey) => Collect(list, Referencing(key)), order, |order|, failed,
                      old(Servers(apis)), Servers(apis))
    ensures CountsFailures(order, |order|, failed, old(Refusals(apis)), Refusals(apis))
    ensures failures == |failed| && forall key | old(Answers(apis, key)) :: key !in failed
  {
    var claimants, targets := GroupByTarget(list);
    order := targets;
    failures, failed := Sweep(apis, (key: TargetKey) => Collect(list, Referencing(key)), claimants, targets);
    forall key ensures key in order <==> Collect(list, Referencing(key)) != [] {
      assert Entry(claimants, key) == Collect(list, Referencing(key));
    }
  }

  // -------------------------------------------------------------- the sweep, by the fields

  /** A target is swept in the name of every listed Automation with a condition that mentions it. */
  lemma SweptInTheNameOf(list: seq<Automation>, key: TargetKey, a: Automation)
    ensures a in Collect(list, Referencing(key)) <==> a in list && a.condition.Some? && Mentioned(a, key)
  {
    CollectMembers(list, Referencing(key));
    ReferencesMeans(a, key);
    if a in list {
      var i :| 0 <= i < |list| && list[i] == a;
    }
  }

  /**
   * Where the sweep leaves a target: alone if nothing was recorded of it; otherwise at the lowest level
   * any of them hands it back at, or where it was if none does, and without a mark of a claim.
   */
  lemma SweptTarget(list: seq<Automation>, key: TargetKey, s: Server)
    requires Handled(key.kind)
    ensures var t, named, baseline :=
        HandedBack(key, Collect(list, Referencing(key)), s), Collect(list, Referencing(key)), BaselineOf(key.kind, s);
      if BaselineName(key.kind) !in s.annotations then t == s
      else
        && t.annotations == s.annotations - MARKS
        && (forall level | LeastReversal(key, named, baseline, level) :: t.level == Placed(key.kind, level))
        && (NobodyReverses(key, named, baseline) ==> t.level == s.level)
        && (NobodyReverses(key, named, baseline) || exists level :: LeastReversal(key, named, baseline, level))
  {
    KindsMean(key.kind, s.level);
    var named := Collect(list, Referencing(key));
    if Recorded(key.kind, s) { CompletedRelease(key, s, named, HandedBack(key, named, s)); }
  }

  // -------------------------------------------------------------------- the sweep as a pass

  function Paused(a: Automation): (b: Automation)
    ensures b.suspend && SameSpec(a, b)
  {
    a.(suspend := true)
  }

  function AllPaused(list: seq<Automation>): (r: seq<Automation>)
    ensures |r| == |list|
  {
    seq(|list|, i requires 0 <= i < |list| => Paused(list[i]))
  }

  /** The reversals of the paused are the reversals the sweep folds. */
  lemma PausedYieldAll(view: View, list: seq<Automation>, key: TargetKey, baseline: Option<int>)
    ensures Collect(AllPaused(list), Yields(view, key, baseline)) ==
      Collect(Collect(list, Referencing(key)), Reversing(key, baseline))
  {
    var f := (a: Automation) => if a.condition.Some? && References(a, key) then ReversalFor(a, key, baseline) else None;
    forall i | 0 <= i < |list| ensures Yields(view, key, baseline)(AllPaused(list)[i]) == f(list[i]) {
      SameSpecSameOpinions(list[i], Paused(list[i]), key, baseline, false);
    }
    CollectPointwise(AllPaused(list), list, Yields(view, key, baseline), f);
    AskTheReferencing(list, key, Reversing(key, baseline), f);
  }

  lemma PausedAreDistinct(list: seq<Automation>)
    requires Distinct(list)
    ensures Distinct(AllPaused(list)) && forall a | a in AllPaused(list) :: a.suspend
  {
    var paused := AllPaused(list);
    forall i, j | 0 <= i < j < |paused| ensures paused[i].Claimant() != paused[j].Claimant() {
      assert list[i].Claimant() != list[j].Claimant();
    }
  }

  lemma NobodyClaiming(view: View, list: seq<Automation>, key: TargetKey, s: Server, now: string)
    requires Handled(key.kind) && Collect(list, Asks(view, key)) == []
    ensures Resting(view, list, key, s, now) ==
      if Recorded(key.kind, s)
      then Cleared(Restored(key.kind, s, ReleaseLevel(Collect(list, Yields(view, key, BaselineOf(key.kind, s))))))
      else s
  {
  }

  lemma SweepIsRest(view: View, list: seq<Automation>, key: TargetKey, s: Server, now: string)
    requires Handled(key.kind)
    ensures HandedBack(key, Collect(list, Referencing(key)), s) == Resting(view, AllPaused(list), key, s, now)
  {
    CollectNothing(AllPaused(list), Asks(view, key));
    NobodyClaiming(view, AllPaused(list), key, s, now);
    PausedYieldAll(view, list, key, BaselineOf(key.kind, s));
  }

  lemma PausedTakesPart(list: seq<Automation>, key: TargetKey, i: nat)
    requires Distinct(list) && i < |list| && list[i].condition.Some? && References(list[i], key)
    ensures Distinct(AllPaused(list)) && Participates(AllPaused(list), key, Paused(list[i]))
  {
    PausedAreDistinct(list);
    SameSpecSameOpinions(list[i], Paused(list[i]), key, None, false);
    assert AllPaused(list)[i] == Paused(list[i]);
  }

  /**
   * The sweep leaves a target where an ordinary pass would with every Automation out of force,
   * whichever of them ran it and whatever the store reported.
   */
  lemma SweepIsOnePass(view: View, list: seq<Automation>, key: TargetKey, i: nat, s: Server, now: string)
    requires Handled(key.kind) && Distinct(list) && i < |list| && list[i].condition.Some? && References(list[i], key)
    ensures HandedBack(key, Collect(list, Referencing(key)), s) ==
      Reconciled(view, AllPaused(list), key, Paused(list[i]), false, s, now)
  {
    PausedTakesPart(list, key, i);
    AnybodyReconcilesAlike(view, AllPaused(list), key, Paused(list[i]), s, now);
    SweepIsRest(view, list, key, s, now);
  }
}
