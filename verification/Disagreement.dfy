/** internal/controller/arbitration.go:179-222 and events.go:319-329: who declares which level once released. */
module Disagreement {
  import opened Text
  import opened Arbiter
  import opened TargetKinds
  import opened Collecting

  datatype ReversalIntent = ReversalIntent(claimant: string, desired: int, level: string)

  function ByClaimant(r: ReversalIntent): string { r.claimant }

  function Declare(kind: Kind): Intent -> Option<ReversalIntent> {
    (i: Intent) => Some(ReversalIntent(i.claimant, i.level, Describe(kind, i.level)))
  }

  function Declared(kind: Kind, intents: seq<Intent>): seq<ReversalIntent> { Collect(intents, Declare(kind)) }

  predicate Disagree(intents: seq<Intent>) {
    exists i :: 0 < i < |intents| && intents[i].level != intents[0].level
  }

  function Declaring(kind: Kind, intents: seq<Intent>): seq<ReversalIntent> {
    if Disagree(intents) then SortBy(Declared(kind, intents), ByClaimant) else []
  }

  method DisagreementOver(kind: Kind, intents: seq<Intent>) returns (reported: seq<ReversalIntent>)
    ensures reported == Declaring(kind, intents)
  {
    if |intents| < 2 { return []; }
    var differ := false;
    for i := 0 to |intents|
      invariant differ <==> exists k :: 0 < k < i && intents[k].level != intents[0].level
    {
      if intents[i].level != intents[0].level { differ := true; }
    }
    if !differ { return []; }
    reported := [];
    for i := 0 to |intents|
      invariant reported == Declared(kind, intents[..i])
    {
      assert intents[..i + 1] == intents[..i] + [intents[i]];
      CollectSnoc(intents[..i], intents[i], Declare(kind));
      reported := reported + [ReversalIntent(intents[i].claimant, intents[i].level, Describe(kind, intents[i].level))];
    }
    assert intents[..|intents|] == intents;
    reported := SortBy(reported, ByClaimant);
  }

  /** The first of the lowest. */
  ghost predicate FirstLeast(intents: seq<ReversalIntent>, i: int) {
    && 0 <= i < |intents|
    && (forall j | 0 <= j < |intents| :: intents[i].desired <= intents[j].desired)
    && (forall j | 0 <= j < i :: intents[i].desired < intents[j].desired)
  }

  /** The lowest level on the list, in words. */
  method MostRestrictive(intents: seq<ReversalIntent>) returns (level: string)
    requires |intents| > 0
    ensures exists i :: FirstLeast(intents, i) && level == intents[i].level
  {
    var winner := 0;
    for i := 1 to |intents|
      invariant 0 <= winner < i && FirstLeast(intents[..i], winner)
    {
      if intents[i].desired < intents[winner].desired {
        winner := i;
      }
    }
    assert intents[..|intents|] == intents;
    level := intents[winner].level;
  }

  // ------------------------------------------------------------------- what it reports

  /** Every intent is reported once, under its own claimant, in the words of its own level. */
  lemma {:induction false} DeclaredLists(kind: Kind, intents: seq<Intent>)
    ensures |Declared(kind, intents)| == |intents|
    ensures forall i | 0 <= i < |intents| ::
      Declared(kind, intents)[i] ==
        ReversalIntent(intents[i].claimant, intents[i].level, Describe(kind, intents[i].level))
  {
    if |intents| > 0 { DeclaredLists(kind, intents[..|intents| - 1]); }
  }

  lemma DisagreeMeans(intents: seq<Intent>)
    ensures Disagree(intents) <==>
      exists i, j :: 0 <= i < |intents| && 0 <= j < |intents| && intents[i].level != intents[j].level
  {
    if i, j :| 0 <= i < |intents| && 0 <= j < |intents| && intents[i].level != intents[j].level {
      assert intents[i].level != intents[0].level || intents[j].level != intents[0].level;
    }
  }

  /** All or nothing: exactly when two of them differ, everybody is listed, in order of claimant. */
  lemma ReportsExactlyWhenTwoDiffer(kind: Kind, intents: seq<Intent>)
    ensures Declaring(kind, intents) != [] <==>
      exists i, j :: 0 <= i < |intents| && 0 <= j < |intents| && intents[i].level != intents[j].level
    ensures Declaring(kind, intents) != [] ==> multiset(Declaring(kind, intents)) == multiset(Declared(kind, intents))
    ensures SortedBy(Declaring(kind, intents), ByClaimant)
  {
    DisagreeMeans(intents);
    DeclaredLists(kind, intents);
    if Disagree(intents) { SameMembers(Declared(kind, intents), SortBy(Declared(kind, intents), ByClaimant)); }
  }

  ghost predicate DistinctClaimants(intents: seq<Intent>) {
    forall i, j | 0 <= i < j < |intents| :: intents[i].claimant != intents[j].claimant
  }

  lemma DeclaredHasOneEach(kind: Kind, intents: seq<Intent>)
    requires DistinctClaimants(intents)
    ensures KeyIdentifies(Declared(kind, intents), ByClaimant)
  {
    DeclaredLists(kind, intents);
    var declared := Declared(kind, intents);
    forall x, y | x in declared && y in declared && ByClaimant(x) == ByClaimant(y) ensures x == y {
      var i, j := Position(declared, x), Position(declared, y);
      assert intents[i].claimant == intents[j].claimant;
    }
  }

  lemma DisagreeForgetsOrder(a: seq<Intent>, b: seq<Intent>)
    requires multiset(a) == multiset(b)
    ensures Disagree(a) <==> Disagree(b)
  {
    SameMembers(a, b);
    if Disagree(a) { DisagreeOnMembers(a, b); }
    if Disagree(b) { DisagreeOnMembers(b, a); }
  }

  /** The report does not depend on the order the peers were gathered in. */
  lemma ReportForgetsOrder(kind: Kind, a: seq<Intent>, b: seq<Intent>)
    requires multiset(a) == multiset(b) && DistinctClaimants(a)
    ensures Declaring(kind, a) == Declaring(kind, b)
  {
    DisagreeForgetsOrder(a, b);
    DeclaredHasOneEach(kind, a);
    CollectForgetsOrder(a, b, Declare(kind));
    SortForgetsOrder(Declared(kind, a), Declared(kind, b), ByClaimant);
  }

  lemma DisagreeOnMembers(a: seq<Intent>, b: seq<Intent>)
    requires Disagree(a) && forall x | x in a :: x in b
    ensures Disagree(b)
  {
    var i :| 0 < i < |a| && a[i].level != a[0].level;
    var p, q := Position(b, a[i]), Position(b, a[0]);
    assert b[p].level != b[q].level;
    DisagreeMeans(b);
  }

  /** What the report calls most restrictive is what the fold over the same intents gives. */
  lemma {:induction false} MostRestrictiveIsTheFold(kind: Kind, intents: seq<Intent>, i: int)
    requires FirstLeast(Declaring(kind, intents), i)
    ensures |intents| > 0
    ensures Declaring(kind, intents)[i].desired == MinLevel(intents)
    ensures Declaring(kind, intents)[i].level == Describe(kind, MinLevel(intents))
  {
    var declared, reported := Declared(kind, intents), Declaring(kind, intents);
    DeclaredLists(kind, intents);
    SameMembers(declared, reported);
    MinLevelIsAttained(intents);
    var k := Position(declared, reported[i]);
    var least :| 0 <= least < |intents| && intents[least].level == MinLevel(intents);
    var m := Position(reported, declared[least]);
    assert reported[i].desired <= reported[m].desired;
  }
}
