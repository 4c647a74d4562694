/**
 What a valid suffix tree says about the stored sequences: which strings occur and how often,
 that the tree is determined by the sequences, how large it can be, and where labels are read.
 */
module Occurrences {
  import opened FiniteSets
  import opened Suffixes
  import opened Contents
  import opened Nodes
  import opened Trie
  import opened TrieKids

  // ----- Occurrences -----

  ghost predicate OccursAt(seqs: Seqs, w: Str, p: Pos)
    requires p in Positions(seqs)
  {
    p.start + |w| <= |seqs[p.sid]| && seqs[p.sid][p.start..p.start + |w|] == w
  }

  /** All places where w occurs in a stored sequence. */
  ghost function OccurrencesOf(seqs: Seqs, w: Str): set<Pos> {
    set p | p in Positions(seqs) && OccursAt(seqs, w, p)
  }

  /** Up to the depth, the tree counts exactly the occurrences in the sequences. */
  lemma StoredThrough(seqs: Seqs, depth: int, w: Str)
    requires depth >= 1
    ensures |w| <= depth ==> Through(Stored(seqs, depth), w) == OccurrencesOf(seqs, w)
    ensures |w| > depth ==> Through(Stored(seqs, depth), w) == {}
  {
    var ins := Stored(seqs, depth);
    forall p | p in Positions(seqs) ensures w <= ins[p] <==> |w| <= depth && OccursAt(seqs, w, p) {
      var s := seqs[p.sid];
      var c := Cut(s, p.start, depth);
      assert |c| <= depth && c == s[p.start..p.start + |c|];
      if |w| <= |c| {
        assert c[..|w|] == s[p.start..p.start + |w|];
      }
    }
  }

  // ----- The tree is determined by what is stored -----

  /** The nodes at w in two trees agree in everything but the label window and the order of children. */
  ghost predicate SameAt(V1: Snapshot, loc1: Places, V2: Snapshot, loc2: Places, w: Str) {
    && w in loc1 && w in loc2 && loc1[w] in V1 && loc2[w] in V2
    && var r1 := V1[loc1[w]]; var r2 := V2[loc2[w]];
    && r1.count == r2.count && r1.children.Keys == r2.children.Keys && r1.endpoints == r2.endpoints
    && (w != [] ==> Linked(V1, loc1[w]) && Linked(V2, loc2[w]) && r1.length == r2.length && r1.token == r2.token
                    && V1[r1.parent].path == V2[r2.parent].path)
  }

  /** Two good trees for the same contents have nodes for the same strings, with the same counts,
      labels, parents, next tokens and endpoints. */
  lemma SameTree(V1: Snapshot, loc1: Places, root1: Node, V2: Snapshot, loc2: Places, root2: Node, ins: Inserted)
    requires Good(V1, loc1, root1, ins) && Good(V2, loc2, root2, ins)
    ensures loc1.Keys == loc2.Keys
    ensures forall w | w in loc1 :: SameAt(V1, loc1, V2, loc2, w)
  {
    forall x ensures x in loc1 <==> x in loc2 {
      assert Boundary(ins, x) || !Boundary(ins, x);
    }
    forall w | w in loc1 ensures SameAt(V1, loc1, V2, loc2, w) {
      var n1, n2 := loc1[w], loc2[w];
      assert Counted(V1, root1, ins, n1) && Counted(V2, root2, ins, n2);
      SameChildren(V1, loc1, root1, V2, loc2, root2, ins, n1, n2);
      SameEndpoints(V1, loc1, V2, loc2, ins, n1, n2);
      if w != [] {
        assert Linked(V1, n1) && Linked(V2, n2);
        NotLonger(V1, loc1, root1, V2, loc2, root2, ins, w);
        NotLonger(V2, loc2, root2, V1, loc1, root1, ins, w);
      }
    }
  }

  /** A node has a child for exactly the tokens that continue its string somewhere. */
  lemma ChildTokens(V: Snapshot, loc: Places, root: Node, ins: Inserted, n: Node)
    requires Good(V, loc, root, ins) && n in V
    ensures forall t :: t in V[n].children <==> Through(ins, V[n].path + [t]) != {}
  {
    forall t ensures t in V[n].children <==> Through(ins, V[n].path + [t]) != {} {
      if t in V[n].children {
        ChildThrough(V, loc, root, ins, n, t);
      }
      if q :| q in Through(ins, V[n].path + [t]) {
        ChildExists(V, loc, root, ins, n, t, q);
      }
    }
  }

  lemma SameChildren(V1: Snapshot, loc1: Places, root1: Node, V2: Snapshot, loc2: Places, root2: Node, ins: Inserted,
                     n1: Node, n2: Node)
    requires Good(V1, loc1, root1, ins) && Good(V2, loc2, root2, ins)
    requires n1 in V1 && n2 in V2 && V1[n1].path == V2[n2].path
    ensures V1[n1].children.Keys == V2[n2].children.Keys
  {
    ChildTokens(V1, loc1, root1, ins, n1);
    ChildTokens(V2, loc2, root2, ins, n2);
    forall t ensures t in V1[n1].children <==> t in V2[n2].children {
      assert V1[n1].path + [t] == V2[n2].path + [t];
    }
  }

  /** The sequences of which a stored suffix ends at w. */
  ghost function EndingSids(ins: Inserted, w: Str): set<int> {
    set p | p in ins && ins[p] == w :: p.sid
  }

  lemma EndpointSids(V: Snapshot, loc: Places, ins: Inserted, n: Node)
    requires Placed(V, loc) && EndpointsSound(V, ins) && EndpointsComplete(V, loc, ins, {}) && n in V
    ensures V[n].endpoints.Keys == EndingSids(ins, V[n].path)
  {
    forall s ensures s in V[n].endpoints <==> s in EndingSids(ins, V[n].path) {
      if s in V[n].endpoints {
        assert EndpointOk(V, ins, n, s);
      }
      if p :| p in ins && p.sid == s && ins[p] == V[n].path {
        assert EndRecorded(V, loc, ins, p);
      }
    }
  }

  /** The endpoints of a node are determined by what is stored: each is that of the last suffix of its sequence
      that ends there. */
  lemma SameEndpoints(V1: Snapshot, loc1: Places, V2: Snapshot, loc2: Places, ins: Inserted, n1: Node, n2: Node)
    requires Placed(V1, loc1) && EndpointsSound(V1, ins) && EndpointsComplete(V1, loc1, ins, {}) && n1 in V1
    requires Placed(V2, loc2) && EndpointsSound(V2, ins) && EndpointsComplete(V2, loc2, ins, {}) && n2 in V2
    requires V1[n1].path == V2[n2].path
    ensures V1[n1].endpoints == V2[n2].endpoints
  {
    EndpointSids(V1, loc1, ins, n1);
    EndpointSids(V2, loc2, ins, n2);
    forall s | s in V1[n1].endpoints ensures V1[n1].endpoints[s] == V2[n2].endpoints[s] {
      assert s in V1[n1].endpoints.Keys && s in V2[n2].endpoints.Keys;
      assert EndpointOk(V1, ins, n1, s) && EndpointOk(V2, ins, n2, s);
    }
  }

  /** Where an endpoint is: at the end of the sequence for a string shorter than the depth, and at the end of its
      last occurrence in the sequence for one of that length. */
  lemma EndpointIs(V: Snapshot, seqs: Seqs, depth: int, n: Node, s: int)
    requires depth >= 1 && EndpointsSound(V, Stored(seqs, depth)) && n in V && s in V[n].endpoints
    ensures s in seqs && |V[n].path| <= depth
    ensures var w, e := V[n].path, V[n].endpoints[s];
            && |w| <= e <= |seqs[s]| && seqs[s][e - |w|..e] == w
            && (|w| < depth ==> e == |seqs[s]|)
            && (|w| == depth ==> forall p | p in OccurrencesOf(seqs, w) && p.sid == s :: p.start + |w| <= e)
  {
    var ins, w, e := Stored(seqs, depth), V[n].path, V[n].endpoints[s];
    assert EndpointOk(V, ins, n, s);
    var p := Pos(s, e - |w|);
    assert ins[p] == Cut(seqs[s], p.start, depth) == w;
    if |w| == depth {
      forall q | q in OccurrencesOf(seqs, w) && q.sid == s ensures q.start + |w| <= e {
        assert ins[q] == w;
      }
    }
  }

  lemma NotLonger(V1: Snapshot, loc1: Places, root1: Node, V2: Snapshot, loc2: Places, root2: Node, ins: Inserted,
                  w: Str)
    requires Good(V1, loc1, root1, ins) && Good(V2, loc2, root2, ins) && w in loc1 && w in loc2 && w != []
    requires Linked(V1, loc1[w]) && Linked(V2, loc2[w])
    ensures V1[loc1[w]].length <= V2[loc2[w]].length
  {
    var n1, n2 := loc1[w], loc2[w];
    var u := Above(V2[n2]);
    if V2[n2].length < V1[n1].length {
      assert Boundary(ins, u);
      LabelEndsNone(V1, root1, ins, n1, u);
      assert false;
    }
  }

  /** Extending a new sequence and removing it again leaves the same sequences. */
  lemma UndoSeqs(seqs: Seqs, sid: int, tokens: Str)
    requires sid !in seqs
    ensures Extended(seqs, sid, tokens) - {sid} == seqs
  {
  }

  // ----- Size -----

  /** Among any boundaries, at most two stop being boundaries when one position goes, so there
      are at most twice as many boundaries as positions. */
  lemma {:induction false} BoundaryBound(ins: Inserted, S: set<Str>)
    requires forall x | x in S :: Boundary(ins, x)
    ensures |S| <= 2 * |ins|
    decreases |ins|
  {
    if ins == map[] {
      assert forall x :: Through(ins, x) == {};
      assert S == {};
    } else {
      var p :| p in ins;
      var ins' := ins - {p};
      assert ins'.Keys == ins.Keys - {p};
      assert |ins'| == |ins| - 1;
      var S' := set x | x in S && Boundary(ins', x);
      BoundaryBound(ins', S');
      var lost := S - S' - {ins[p]};
      forall x, y | x in lost && y in lost ensures x == y {
        LostOnce(ins, p, x, y);
      }
      AtMostOne(lost);
      assert S <= S' + {ins[p]} + lost;
      SubsetSize(S, S' + {ins[p]} + lost);
    }
  }

  lemma AtMostOne(s: set<Str>)
    requires forall x, y | x in s && y in s :: x == y
    ensures |s| <= 1
  {
    if x :| x in s {
      assert s == {x};
    }
  }

  lemma LostOnce(ins: Inserted, p: Pos, x: Str, y: Str)
    requires p in ins && Boundary(ins, x) && Boundary(ins, y) && x != ins[p] && y != ins[p]
    requires !Boundary(ins - {p}, x) && !Boundary(ins - {p}, y)
    ensures x == y
  {
    LostAbove(ins, p, x);
    LostAbove(ins, p, y);
    PrefixesCompare(x, y, ins[p]);
    PrefixesCompare(y, x, ins[p]);
    if |x| < |y| {
      AncestorStays(ins, p, y, x);
      assert false;
    } else if |y| < |x| {
      AncestorStays(ins, p, x, y);
      assert false;
    }
  }

  /** A boundary that is lost lies on the way to the end of p, and others still pass it. */
  lemma LostAbove(ins: Inserted, p: Pos, x: Str)
    requires p in ins && Boundary(ins, x) && !Boundary(ins - {p}, x) && x != ins[p]
    ensures x <= ins[p] && |x| < |ins[p]| && Through(ins - {p}, x) != {}
  {
    var ins' := ins - {p};
    RemoveThrough(ins, p, x);
    if !(x <= ins[p]) {
      forall t ensures Through(ins', x + [t]) == Through(ins, x + [t]) {
        RemoveThrough(ins, p, x + [t]);
        ThroughShrinks(ins, x, x + [t]);
      }
      assert false;
    }
    assert |x| < |ins[p]|;
    assert Through(ins, x) <= Through(ins', x) + {p};
    if Through(ins', x) == {} {
      var t := ins[p][|x|];
      PrefixStep(x, ins[p], t);
      assert p in Through(ins, x + [t]);
      ThroughShrinks(ins, x, x + [t]);
      assert false;
    }
  }

  /** A good tree has at most twice as many nodes below the root as there are positions, which is
      what the root counts. */
  lemma SizeBound(V: Snapshot, loc: Places, root: Node, ins: Inserted)
    requires Good(V, loc, root, ins)
    ensures V[root].count == |ins|
    ensures |V| <= 2 * V[root].count + 1
  {
    assert Counted(V, root, ins, root);
    assert Through(ins, []) == ins.Keys;
    var S := loc.Keys - {[]};
    forall x | x in S ensures Boundary(ins, x) {
    }
    BoundaryBound(ins, S);
    assert loc.Keys == S + {[]};
    SameSize(V, loc);
  }

  lemma {:induction false} SameSize(V: Snapshot, loc: Places)
    requires Placed(V, loc)
    ensures |V| == |loc|
    decreases |V|
  {
    if n :| n in V {
      var V', loc' := V - {n}, loc - {V[n].path};
      assert V'.Keys == V.Keys - {n} && loc'.Keys == loc.Keys - {V[n].path};
      SameSize(V', loc');
    } else {
      assert loc.Keys == {};
    }
  }

  // ----- Counts add up -----

  /** The stored suffixes that end exactly at w. */
  ghost function EndingAt(ins: Inserted, w: Str): set<Pos> {
    set p | p in ins && ins[p] == w
  }

  ghost function KidSum(V: Snapshot, s: seq<Node>): int {
    if s == [] then 0 else KidSum(V, s[..|s| - 1]) + CountOf(V, s[|s| - 1])
  }

  /** Occurrences of w followed by the first token of one of the nodes in s. */
  ghost function Continuing(V: Snapshot, ins: Inserted, w: Str, s: seq<Node>): set<Pos> {
    set p | p in ins && w <= ins[p] && |ins[p]| > |w| && exists i ::
        0 <= i < |s| && s[i] in V && V[s[i]].token == ins[p][|w|]
  }

  lemma {:induction false} KidSumCounts(V: Snapshot, loc: Places, root: Node, ins: Inserted, n: Node, s: seq<Node>,
                                        k: nat)
    requires Good(V, loc, root, ins) && n in V && ListOk(V, n, s) && k <= |s|
    ensures |Continuing(V, ins, V[n].path, s[..k])| == KidSum(V, s[..k])
  {
    if k == 0 {
      assert Continuing(V, ins, V[n].path, s[..0]) == {};
    } else {
      var w, c := V[n].path, s[k - 1];
      KidSumCounts(V, loc, root, ins, n, s, k - 1);
      assert s[..k][..k - 1] == s[..k - 1];
      assert KidOk(V, n, s, k - 1);
      ChildThrough(V, loc, root, ins, n, V[c].token);
      var before, more := Continuing(V, ins, w, s[..k - 1]), Through(ins, w + [V[c].token]);
      forall p | p in ins ensures p in more <==> w <= ins[p] && |ins[p]| > |w| && ins[p][|w|] == V[c].token {
        PrefixStep(w, ins[p], V[c].token);
      }
      forall p | p in before ensures p !in more {
        var i :| 0 <= i < |s[..k - 1]| && s[..k - 1][i] in V && V[s[i]].token == ins[p][|w|];
        assert KidOk(V, n, s, i) && s[i] != s[k - 1];
      }
      ContinuingMore(V, ins, w, s, k);
      assert Continuing(V, ins, w, s[..k]) == before + more;
    }
  }

  lemma ContinuingMore(V: Snapshot, ins: Inserted, w: Str, s: seq<Node>, k: nat)
    requires 0 < k <= |s| && s[k - 1] in V
    ensures Continuing(V, ins, w, s[..k]) == Continuing(V, ins, w, s[..k - 1]) + Through(ins, w + [V[s[k - 1]].token])
  {
    var t := V[s[k - 1]].token;
    forall p | p in ins
      ensures p in Continuing(V, ins, w, s[..k]) <==>
                p in Continuing(V, ins, w, s[..k - 1]) || p in Through(ins, w + [t])
    {
      PrefixStep(w, ins[p], t);
      if p in Continuing(V, ins, w, s[..k]) {
        var i :| 0 <= i < |s[..k]| && s[..k][i] in V && V[s[..k][i]].token == ins[p][|w|];
        assert i < k - 1 ==> s[..k - 1][i] == s[i];
      }
      if p in Continuing(V, ins, w, s[..k - 1]) {
        var i :| 0 <= i < |s[..k - 1]| && s[..k - 1][i] in V && V[s[..k - 1][i]].token == ins[p][|w|];
        assert s[..k][i] == s[i];
      }
      if p in Through(ins, w + [t]) {
        assert s[..k][k - 1] == s[k - 1];
      }
    }
  }

  /** The count of a node is the number of stored suffixes that end there plus the counts of its
      children; below the root every child counts strictly less. */
  lemma CountsAddUp(V: Snapshot, K: Lists, loc: Places, root: Node, ins: Inserted, n: Node)
    requires Good(V, loc, root, ins) && AllKids(V, K) && n in V
    ensures V[n].count == |EndingAt(ins, V[n].path)| + KidSum(V, K[n])
    ensures n != root ==> forall c | c in K[n] :: c in V && V[c].count < V[n].count
  {
    var w, s := V[n].path, K[n];
    assert KidsAt(V, K, n) && Counted(V, root, ins, n);
    KidSumCounts(V, loc, root, ins, n, s, |s|);
    assert s[..|s|] == s;
    var ends, on := EndingAt(ins, w), Continuing(V, ins, w, s);
    forall p | p in Through(ins, w) && ins[p] != w ensures p in on {
      PrefixStep(w, ins[p], ins[p][|w|]);
      ChildExists(V, loc, root, ins, n, ins[p][|w|], p);
      assert Listed(V, n, s, ins[p][|w|]) && ChildrenOk(V, root, n);
    }
    assert Through(ins, w) == ends + on;
    if n != root {
      assert Boundary(ins, w);
      forall c | c in s ensures c in V && V[c].count < V[n].count {
        var i :| 0 <= i < |s| && s[i] == c;
        assert KidOk(V, n, s, i);
        ChildThrough(V, loc, root, ins, n, V[c].token);
        ThroughShrinks(ins, w, w + [V[c].token]);
      }
    }
  }
}
