/** internal/engine/arbiter.go: one target's level out of competing intents. */
module Arbiter {
  import opened Text

  /** One claimant's desired level. Lower is more restrictive. */
  datatype Intent = Intent(claimant: string, level: int)

  datatype Resolution = Resolution(level: int, winners: seq<string>, deferred: seq<string>)

  function MinLevel(intents: seq<Intent>): int
    requires |intents| > 0
  {
    if |intents| == 1 then intents[0].level
    else Min(MinLevel(intents[..|intents| - 1]), intents[|intents| - 1].level)
  }

  /** The claimants, in order, whose level is (at = true) or is not (at = false) `level`. */
  function Names(intents: seq<Intent>, level: int, at: bool): seq<string> {
    if |intents| == 0 then []
    else
      var last := intents[|intents| - 1];
      Names(intents[..|intents| - 1], level, at)
        + (if (last.level == level) == at then [last.claimant] else [])
  }

  function Claimants(intents: seq<Intent>): seq<string> {
    if |intents| == 0 then []
    else Claimants(intents[..|intents| - 1]) + [intents[|intents| - 1].claimant]
  }

  function Resolved(intents: seq<Intent>): Option<Resolution> {
    if |intents| == 0 then None
    else
      var level := MinLevel(intents);
      Some(Resolution(level, Sorted(Names(intents, level, true)), Sorted(Names(intents, level, false))))
  }

  /** What the fold promises, said without computing it. */
  ghost predicate IsMeet(intents: seq<Intent>, r: Resolution) {
    && (exists i :: 0 <= i < |intents| && intents[i].level == r.level)
    && (forall i | 0 <= i < |intents| :: r.level <= intents[i].level)
    && multiset(r.winners) + multiset(r.deferred) == multiset(Claimants(intents))
    && (forall name :: name in r.winners <==>
          exists i :: 0 <= i < |intents| && intents[i] == Intent(name, r.level))
    && (forall name :: name in r.deferred <==>
          exists i :: 0 <= i < |intents| && intents[i].claimant == name && intents[i].level > r.level)
    && SortedBy(r.winners, Itself) && SortedBy(r.deferred, Itself)
  }

  method Resolve(intents: seq<Intent>) returns (r: Option<Resolution>)
    ensures r == Resolved(intents)
    ensures r.None? <==> intents == []
    ensures r.Some? ==> IsMeet(intents, r.value)
  {
    if |intents| == 0 { return None; }
    var level := intents[0].level;
    assert intents[..1] == [intents[0]];
    for i := 1 to |intents|
      invariant level == MinLevel(intents[..i])
    {
      assert intents[..i + 1][..i] == intents[..i];
      level := Min(level, intents[i].level);
    }
    assert intents[..|intents|] == intents;
    var winners, deferred := [], [];
    for i := 0 to |intents|
      invariant winners == Names(intents[..i], level, true)
      invariant deferred == Names(intents[..i], level, false)
    {
      assert intents[..i + 1][..i] == intents[..i];
      if intents[i].level == level {
        winners := winners + [intents[i].claimant];
      } else {
        deferred := deferred + [intents[i].claimant];
      }
    }
    winners, deferred := Sorted(winners), Sorted(deferred);
    r := Some(Resolution(level, winners, deferred));
    ResolvedIsMeet(intents);
  }

  // ------------------------------------------------------------ the meet

  lemma {:induction false} MinLevelIsAttained(intents: seq<Intent>)
    requires |intents| > 0
    ensures exists i :: 0 <= i < |intents| && intents[i].level == MinLevel(intents)
    ensures forall i | 0 <= i < |intents| :: MinLevel(intents) <= intents[i].level
  {
    if |intents| > 1 {
      var front := intents[..|intents| - 1];
      MinLevelIsAttained(front);
      var i :| 0 <= i < |front| && front[i].level == MinLevel(front);
      assert intents[i].level == MinLevel(front);
      forall j | 0 <= j < |intents| ensures MinLevel(intents) <= intents[j].level {
        if j < |front| { assert front[j] == intents[j]; }
      }
    } else {
      assert intents[0].level == MinLevel(intents);
    }
  }

  lemma {:induction false} NamesAre(intents: seq<Intent>, level: int, at: bool)
    ensures forall name :: name in Names(intents, level, at) <==>
      exists i :: 0 <= i < |intents| && intents[i].claimant == name && (intents[i].level == level) == at
  {
    if |intents| > 0 {
      var front, last := intents[..|intents| - 1], intents[|intents| - 1];
      NamesAre(front, level, at);
      assert forall i | 0 <= i < |front| :: front[i] == intents[i];
      assert intents[|front|] == last;
    }
  }

  lemma {:induction false} NamesPartition(intents: seq<Intent>, level: int)
    ensures multiset(Names(intents, level, true)) + multiset(Names(intents, level, false))
         == multiset(Claimants(intents))
  {
    if |intents| > 0 {
      var front, last := intents[..|intents| - 1], intents[|intents| - 1];
      NamesPartition(front, level);
      AppendToOne(Names(front, level, true), Names(front, level, false), Claimants(front), last.claimant);
    }
  }

  lemma AppendToOne<T>(s: seq<T>, t: seq<T>, all: seq<T>, x: T)
    requires multiset(s) + multiset(t) == multiset(all)
    ensures multiset(s + [x]) + multiset(t + []) == multiset(all + [x])
    ensures multiset(s + []) + multiset(t + [x]) == multiset(all + [x])
  {
    assert s + [] == s && t + [] == t;
  }

  lemma SortedNamesAre(intents: seq<Intent>, level: int, at: bool)
    ensures forall name :: name in Sorted(Names(intents, level, at)) <==>
      exists i :: 0 <= i < |intents| && intents[i].claimant == name && (intents[i].level == level) == at
    ensures multiset(Sorted(Names(intents, level, at))) == multiset(Names(intents, level, at))
  {
    NamesAre(intents, level, at);
    SameMembers(Names(intents, level, at), Sorted(Names(intents, level, at)));
  }

  lemma WinnersAndDeferred(intents: seq<Intent>, r: Resolution)
    requires |intents| > 0 && Resolved(intents) == Some(r)
    ensures forall name :: name in r.winners <==> exists i :: 0 <= i < |intents| && intents[i] == Intent(name, r.level)
    ensures forall name :: name in r.deferred <==>
      exists i :: 0 <= i < |intents| && intents[i].claimant == name && intents[i].level > r.level
  {
    MinLevelIsAttained(intents);
    SortedNamesAre(intents, r.level, true);
    SortedNamesAre(intents, r.level, false);
    forall name | name in r.winners ensures exists i :: 0 <= i < |intents| && intents[i] == Intent(name, r.level) {
      var i :| 0 <= i < |intents| && intents[i].claimant == name && (intents[i].level == r.level) == true;
      assert intents[i] == Intent(name, r.level);
    }
  }

  lemma ResolvedIsMeet(intents: seq<Intent>)
    requires |intents| > 0
    ensures Resolved(intents).Some? && IsMeet(intents, Resolved(intents).value)
  {
    MinLevelIsAttained(intents);
    NamesPartition(intents, MinLevel(intents));
    WinnersAndDeferred(intents, Resolved(intents).value);
  }

  // -------------------------------------------------- order independence

  lemma {:induction false} NamesConcat(a: seq<Intent>, b: seq<Intent>, level: int, at: bool)
    ensures Names(a + b, level, at) == Names(a, level, at) + Names(b, level, at)
  {
    if |b| == 0 {
      assert a + b == a;
    } else {
      NamesConcat(a, b[..|b| - 1], level, at);
      assert (a + b)[..|a + b| - 1] == a + b[..|b| - 1];
    }
  }

  /** `b` with its occurrence at `i` taken out. */
  function Without<T>(b: seq<T>, i: nat): seq<T>
    requires i < |b|
  {
    b[..i] + b[i + 1..]
  }

  lemma WithoutRemovesOne<T>(b: seq<T>, i: nat)
    requires i < |b|
    ensures multiset(Without(b, i)) == multiset(b) - multiset{b[i]}
  {
    assert b == b[..i] + [b[i]] + b[i + 1..];
  }

  lemma MiddleOut<T>(x: seq<T>, y: seq<T>, z: seq<T>)
    ensures multiset(x + (y + z)) == multiset(x + z) + multiset(y)
  {
  }

  lemma NamesMiddleOut(x: seq<Intent>, y: seq<Intent>, z: seq<Intent>, level: int, at: bool)
    ensures multiset(Names(x + (y + z), level, at)) ==
      multiset(Names(x + z, level, at)) + multiset(Names(y, level, at))
  {
    NamesConcat(x, y + z, level, at);
    NamesConcat(y, z, level, at);
    NamesConcat(x, z, level, at);
    MiddleOut(Names(x, level, at), Names(y, level, at), Names(z, level, at));
  }

  lemma {:induction false} NamesForgetOrder(a: seq<Intent>, b: seq<Intent>, level: int, at: bool)
    requires multiset(a) == multiset(b)
    ensures multiset(Names(a, level, at)) == multiset(Names(b, level, at))
  {
    SameMembers(a, b);
    if |a| > 0 {
      var x, z := SplitAtFirst(a, b);
      NamesForgetOrder(a[1..], x + z, level, at);
      NamesMiddleOut(x, [a[0]], z, level, at);
      NamesMiddleOut([], [a[0]], a[1..], level, at);
      assert [] + ([a[0]] + a[1..]) == a && [] + a[1..] == a[1..];
    }
  }

  ghost function Position<T>(s: seq<T>, x: T): (i: nat)
    requires x in s
    ensures i < |s| && s[i] == x
  {
    var i: nat :| i < |s| && s[i] == x;
    i
  }

  lemma TakeOneEach<T>(a: seq<T>, b: seq<T>, i: nat)
    requires multiset(a) == multiset(b) && |a| > 0 && i < |b| && b[i] == a[0]
    ensures multiset(Without(a, 0)) == multiset(Without(b, i))
  {
    WithoutRemovesOne(a, 0);
    WithoutRemovesOne(b, i);
  }

  /** Two arrangements of the same members: `b` is the first member of `a` put into the rest. */
  lemma SplitAtFirst<A>(a: seq<A>, b: seq<A>) returns (x: seq<A>, z: seq<A>)
    requires multiset(a) == multiset(b) && |a| > 0
    ensures b == x + ([a[0]] + z) && multiset(a[1..]) == multiset(x + z)
  {
    SameMembers(a, b);
    var i := Position(b, a[0]);
    x, z := b[..i], b[i + 1..];
    TakeOneEach(a, b, i);
    assert Without(a, 0) == a[1..] && Without(b, i) == x + z;
  }

  lemma MinLevelForgetsOrder(a: seq<Intent>, b: seq<Intent>)
    requires |a| > 0 && |b| > 0 && forall x :: x in a <==> x in b
    ensures MinLevel(a) == MinLevel(b)
  {
    MinLevelIsAttained(a);
    MinLevelIsAttained(b);
    var i :| 0 <= i < |a| && a[i].level == MinLevel(a);
    var j :| 0 <= j < |b| && b[j].level == MinLevel(b);
    assert a[i] in b && b[j] in a;
  }

  /** The result is a function of the intents as a collection, not of their order. */
  lemma ResolveForgetsOrder(a: seq<Intent>, b: seq<Intent>)
    requires multiset(a) == multiset(b)
    ensures Resolved(a) == Resolved(b)
  {
    SameMembers(a, b);
    if |a| > 0 {
      MinLevelForgetsOrder(a, b);
      var level := MinLevel(a);
      SortedNamesForgetOrder(a, b, level, true);
      SortedNamesForgetOrder(a, b, level, false);
    }
  }

  lemma SortedNamesForgetOrder(a: seq<Intent>, b: seq<Intent>, level: int, at: bool)
    requires multiset(a) == multiset(b)
    ensures Sorted(Names(a, level, at)) == Sorted(Names(b, level, at))
  {
    NamesForgetOrder(a, b, level, at);
    SortForgetsOrder(Names(a, level, at), Names(b, level, at), Itself);
  }

  lemma ClaimantsForgetOrder(a: seq<Intent>, b: seq<Intent>)
    requires multiset(a) == multiset(b)
    ensures Sorted(Claimants(a)) == Sorted(Claimants(b))
  {
    NamesForgetOrder(a, b, 0, true);
    NamesForgetOrder(a, b, 0, false);
    NamesPartition(a, 0);
    NamesPartition(b, 0);
    SortForgetsOrder(Claimants(a), Claimants(b), Itself);
  }
}
