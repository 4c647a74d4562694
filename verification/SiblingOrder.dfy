/**
 Where a child moves among its siblings when its count changes by one.  Siblings are kept in
 order of nonincreasing count; the counts alone, as a sequence, decide the place.
 */
module SiblingOrder {
  ghost predicate InOrder(cs: seq<int>, i: int, j: int)
    requires 0 <= i < j < |cs|
  {
    cs[i] >= cs[j]
  }

  ghost predicate Descending(cs: seq<int>) {
    forall i, j {:trigger InOrder(cs, i, j)} | 0 <= i < j < |cs| :: InOrder(cs, i, j)
  }

  /** First index of the run of equal counts that i lies in. */
  function RunStart(cs: seq<int>, i: nat): (h: nat)
    requires i < |cs|
    ensures h <= i
    ensures forall k | h <= k <= i :: cs[k] == cs[i]
    ensures h > 0 ==> cs[h - 1] != cs[i]
  {
    if i > 0 && cs[i - 1] == cs[i] then RunStart(cs, i - 1) else i
  }

  /** Last index of the run of equal counts that i lies in. */
  function RunEnd(cs: seq<int>, i: nat): (e: nat)
    requires i < |cs|
    ensures i <= e < |cs|
    ensures forall k | i <= k <= e :: cs[k] == cs[i]
    ensures e + 1 < |cs| ==> cs[e + 1] != cs[i]
    decreases |cs| - i
  {
    if i + 1 < |cs| && cs[i + 1] == cs[i] then RunEnd(cs, i + 1) else i
  }

  /** The new index of child i when its count is about to grow by one. */
  function RaisedIndex(cs: seq<int>, i: nat): nat
    requires i < |cs|
  {
    if i == 0 || cs[i - 1] > cs[i] + 1 then i else RunStart(cs, i - 1)
  }

  /** The new index of child i when its count is about to drop by one. */
  function LoweredIndex(cs: seq<int>, i: nat): nat
    requires i < |cs|
  {
    if i + 1 == |cs| || cs[i + 1] < cs[i] then i else RunEnd(cs, i)
  }

  function RemoveAt<T>(s: seq<T>, i: nat): (r: seq<T>)
    requires i < |s|
    ensures |r| == |s| - 1
    ensures forall k | 0 <= k < |r| :: r[k] == if k < i then s[k] else s[k + 1]
  {
    s[..i] + s[i + 1..]
  }

  function InsertAt<T>(s: seq<T>, j: nat, x: T): (r: seq<T>)
    requires j <= |s|
    ensures |r| == |s| + 1
    ensures forall k | 0 <= k < |r| :: r[k] == if k < j then s[k] else if k == j then x else s[k - 1]
  {
    s[..j] + [x] + s[j..]
  }

  /** Element i taken out and put back so that its index becomes j. */
  function Moved<T>(s: seq<T>, i: nat, j: nat): seq<T>
    requires i < |s| && j < |s|
  {
    InsertAt(RemoveAt(s, i), j, s[i])
  }

  /** The old index of what is at index k after a move from i to j, and the other way round. */
  function MovedFrom(i: nat, j: nat, k: nat): nat {
    if k == j then i else var r := if k < j then k else k - 1; if r < i then r else r + 1
  }

  function MovedTo(i: nat, j: nat, k: nat): nat {
    if k == i then j else var r := if k < i then k else k - 1; if r < j then r else r + 1
  }

  lemma MovedAt<T>(s: seq<T>, i: nat, j: nat, k: nat)
    requires i < |s| && j < |s| && k < |s|
    ensures |Moved(s, i, j)| == |s|
    ensures MovedFrom(i, j, k) < |s| && Moved(s, i, j)[k] == s[MovedFrom(i, j, k)]
    ensures MovedTo(i, j, k) < |s| && Moved(s, i, j)[MovedTo(i, j, k)] == s[k]
    ensures MovedTo(i, j, MovedFrom(i, j, k)) == k
  {
  }

  lemma RemoveAtElements<T>(s: seq<T>, i: nat)
    requires i < |s|
    ensures multiset(s) == multiset(RemoveAt(s, i)) + multiset{s[i]}
  {
    assert s == s[..i] + [s[i]] + s[i + 1..];
  }

  lemma InsertAtElements<T>(s: seq<T>, j: nat, x: T)
    requires j <= |s|
    ensures multiset(InsertAt(s, j, x)) == multiset(s) + multiset{x}
  {
    assert s == s[..j] + s[j..];
  }

  lemma MovedElements<T>(s: seq<T>, i: nat, j: nat)
    requires i < |s| && j < |s|
    ensures multiset(Moved(s, i, j)) == multiset(s)
  {
    RemoveAtElements(s, i);
    InsertAtElements(RemoveAt(s, i), j, s[i]);
  }

  /** Raising a count where the code moves it keeps the siblings in order. */
  lemma RaisedDescending(cs: seq<int>, i: nat)
    requires Descending(cs) && i < |cs|
    ensures RaisedIndex(cs, i) <= i
    ensures Descending(Moved(cs, i, RaisedIndex(cs, i))[RaisedIndex(cs, i) := cs[i] + 1])
  {
    var h := RaisedIndex(cs, i);
    var r := Moved(cs, i, h)[h := cs[i] + 1];
    forall a, b | 0 <= a < b < |r| ensures InOrder(r, a, b) {
      RaisedPair(cs, i, h, a, b);
    }
  }

  /** The children before the new place have a higher count than the old one, the others one that is
      not higher than the new one. */
  lemma RaisedBounds(cs: seq<int>, i: nat, k: nat)
    requires Descending(cs) && i < |cs| && k < |cs|
    ensures RaisedIndex(cs, i) <= i
    ensures if k < RaisedIndex(cs, i) then cs[k] >= cs[i] + 1 else cs[k] <= cs[i] + 1
  {
    var h := RaisedIndex(cs, i);
    if i > 0 {
      assert InOrder(cs, i - 1, i);
    }
    if k < h {
      assert k == h - 1 || InOrder(cs, k, h - 1);
      if h < i {
        assert InOrder(cs, h - 1, i - 1);
      }
    } else if k > i {
      assert InOrder(cs, i, k);
    }
  }

  lemma RaisedPair(cs: seq<int>, i: nat, h: nat, a: nat, b: nat)
    requires Descending(cs) && i < |cs| && h == RaisedIndex(cs, i) <= i && a < b < |cs|
    ensures |Moved(cs, i, h)| == |cs| && InOrder(Moved(cs, i, h)[h := cs[i] + 1], a, b)
  {
    hide Moved, RaisedIndex;
    MovedAt(cs, i, h, a);
    MovedAt(cs, i, h, b);
    var a', b' := MovedFrom(i, h, a), MovedFrom(i, h, b);
    RaisedBounds(cs, i, a');
    RaisedBounds(cs, i, b');
    if a != h && b != h {
      assert a' < b' && InOrder(cs, a', b');
    }
  }

  lemma LoweredDescending(cs: seq<int>, i: nat)
    requires Descending(cs) && i < |cs|
    ensures i <= LoweredIndex(cs, i) < |cs|
    ensures Descending(Moved(cs, i, LoweredIndex(cs, i))[LoweredIndex(cs, i) := cs[i] - 1])
  {
    var e := LoweredIndex(cs, i);
    var r := Moved(cs, i, e)[e := cs[i] - 1];
    forall a, b | 0 <= a < b < |r| ensures InOrder(r, a, b) {
      var a' := if a < i || a > e then a else a + 1;
      var b' := if b < i || b > e then b else b + 1;
      if a == e {
        assert e < b && (e + 1 < b ==> InOrder(cs, e + 1, b));
        assert InOrder(cs, e, b) && InOrder(cs, e, e + 1);
      } else if b == e {
        assert a < i ==> InOrder(cs, a, i);
      } else {
        assert a' < b' && InOrder(cs, a', b');
      }
    }
  }
}
