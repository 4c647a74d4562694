/**
 Sizes of finite sets.
 */
module FiniteSets {
  import opened Sequences

  /** The numbers smaller than n. */
  ghost function Below(n: nat): (s: set<nat>)
    ensures |s| == n && forall i: nat :: i in s <==> i < n
  {
    if n == 0 then {} else Below(n - 1) + {n - 1}
  }

  lemma SubsetSize<A>(s: set<A>, t: set<A>)
    requires s <= t
    ensures |s| <= |t| && (|s| == |t| ==> s == t)
  {
    assert t == s + (t - s);
    assert |t| == |s| + |t - s|;
  }

  lemma UnionSize<A>(s: set<A>, t: set<A>)
    ensures |s + t| <= |s| + |t|
  {
    assert s + t == s + (t - s) && t == (t - s) + (s * t);
  }

  lemma Element(s: set<int>) returns (x: int)
    requires s != {}
    ensures x in s
  {
    assert (forall y :: y !in s) ==> s == {};
    x :| x in s;
  }

  /** Different elements with different images are no more than the images. */
  lemma {:induction false} InjectionCard<R>(s: set<int>, m: map<int, R>, t: set<R>)
    requires forall x | x in s :: x in m && m[x] in t
    requires forall x, y | x in s && y in s && x != y :: m[x] != m[y]
    ensures |s| <= |t|
  {
    if s != {} {
      var x := Element(s);
      InjectionCard(s - {x}, m, t - {m[x]});
    }
  }

  /** The numbers in a sequence. */
  ghost function Image(s: seq<nat>): set<nat> {
    set i | 0 <= i < |s| :: s[i]
  }

  lemma {:induction false} ImageSize(s: seq<nat>)
    requires Distinct(s)
    ensures |Image(s)| == |s|
  {
    if s != [] {
      var rest := s[..|s| - 1];
      ImageSize(rest);
      assert Image(s) == Image(rest) + {s[|s| - 1]};
    }
  }

  /** Different numbers below m are no more than m. */
  lemma Pigeonhole(s: seq<nat>, m: nat)
    requires forall i | 0 <= i < |s| :: s[i] < m
    requires Distinct(s)
    ensures |s| <= m
  {
    ImageSize(s);
    SubsetSize(Image(s), Below(m));
  }
}
