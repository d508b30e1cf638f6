/** Gathering optional answers from a list: the shape of every peer loop in the controller. */
module Collecting {
  import opened Text
  import opened Arbiter

  function Collect<A, B>(s: seq<A>, f: A -> Option<B>): seq<B> {
    if |s| == 0 then []
    else
      var front, last := Collect(s[..|s| - 1], f), f(s[|s| - 1]);
      if last.Some? then front + [last.value] else front
  }

  lemma {:induction false} CollectConcat<A, B>(a: seq<A>, b: seq<A>, f: A -> Option<B>)
    ensures Collect(a + b, f) == Collect(a, f) + Collect(b, f)
  {
    if |b| == 0 {
      assert a + b == a;
    } else {
      CollectConcat(a, b[..|b| - 1], f);
      assert (a + b)[..|a + b| - 1] == a + b[..|b| - 1];
    }
  }

  lemma {:induction false} CollectMembers<A, B>(s: seq<A>, f: A -> Option<B>)
    ensures forall y :: y in Collect(s, f) <==> exists i :: 0 <= i < |s| && f(s[i]) == Some(y)
    ensures forall i | 0 <= i < |s| && f(s[i]).Some? :: f(s[i]).value in Collect(s, f)
  {
    if |s| > 0 {
      CollectMembers(s[..|s| - 1], f);
      assert forall i | 0 <= i < |s| - 1 :: s[..|s| - 1][i] == s[i];
    }
  }

  lemma {:induction false} CollectAgrees<A, B>(s: seq<A>, f: A -> Option<B>, g: A -> Option<B>)
    requires forall x | x in s :: f(x) == g(x)
    ensures Collect(s, f) == Collect(s, g)
  {
    if |s| > 0 {
      assert s[|s| - 1] in s;
      CollectAgrees(s[..|s| - 1], f, g);
    }
  }

  lemma CollectMiddleOut<A, B>(x: seq<A>, y: seq<A>, z: seq<A>, f: A -> Option<B>)
    ensures multiset(Collect(x + (y + z), f)) == multiset(Collect(x + z, f)) + multiset(Collect(y, f))
  {
    CollectConcat(x, y + z, f);
    CollectConcat(y, z, f);
    CollectConcat(x, z, f);
    MiddleOut(Collect(x, f), Collect(y, f), Collect(z, f));
  }

  lemma {:induction false} CollectForgetsOrder<A, B>(a: seq<A>, b: seq<A>, f: A -> Option<B>)
    requires multiset(a) == multiset(b)
    ensures multiset(Collect(a, f)) == multiset(Collect(b, f))
  {
    SameMembers(a, b);
    if |a| > 0 {
      var x, z := SplitAtFirst(a, b);
      CollectForgetsOrder(a[1..], x + z, f);
      CollectMiddleOut(x, [a[0]], z, f);
      CollectMiddleOut([], [a[0]], a[1..], f);
      assert [] + ([a[0]] + a[1..]) == a && [] + a[1..] == a[1..];
    }
  }

  lemma CollectSnoc<A, B>(s: seq<A>, x: A, f: A -> Option<B>)
    ensures Collect(s + [x], f) == Collect(s, f) + (if f(x).Some? then [f(x).value] else [])
  {
    assert (s + [x])[..|s|] == s;
  }

  lemma {:induction false} CollectPointwise<A, B>(s: seq<A>, t: seq<A>, f: A -> Option<B>, g: A -> Option<B>)
    requires |s| == |t| && forall i | 0 <= i < |s| :: f(s[i]) == g(t[i])
    ensures Collect(s, f) == Collect(t, g)
  {
    if |s| > 0 {
      CollectPointwise(s[..|s| - 1], t[..|t| - 1], f, g);
    }
  }

  lemma {:induction false} CollectNothing<A, B>(s: seq<A>, f: A -> Option<B>)
    requires forall x | x in s :: f(x).None?
    ensures Collect(s, f) == []
  {
    if |s| > 0 {
      assert s[|s| - 1] in s;
      CollectNothing(s[..|s| - 1], f);
    }
  }
}
