/**
 Removing one stored suffix, seen on snapshots: the walk that takes one off every count on the
 way, the loss of a leaf or a merge at the end of the walk, and the repair of the references.
 */
module TrieRemove {
  import opened FiniteSets
  import opened Suffixes
  import opened Nodes
  import opened Trie

  /** While sequence sid is being removed, a node that still refers to it is still passed by
      one of its suffixes, so a later visit can repair the reference. */
  ghost predicate PendingOk(V: Snapshot, ins: Inserted, sid: int, n: Node)
    requires n in V
  {
    V[n].refSeq == sid ==> exists q :: q in Through(ins, V[n].path) && q.sid == sid
  }

  /** Pending references everywhere but on the path spelled by y. */
  ghost predicate PendingOff(V: Snapshot, root: Node, ins: Inserted, sid: int, y: Str) {
    forall n {:trigger PendingOk(V, ins, sid, n)} | n in V && n != root && !(V[n].path <= y) ::
             PendingOk(V, ins, sid, n)
  }

  ghost predicate Pending(V: Snapshot, root: Node, ins: Inserted, sid: int) {
    forall n {:trigger PendingOk(V, ins, sid, n)} | n in V && n != root :: PendingOk(V, ins, sid, n)
  }

  /** A good trie for ins, except that references may still point into ins0, what was stored
      when the removal of sid began. */
  ghost predicate Trimmed(V: Snapshot, loc: Places, root: Node, ins: Inserted, ins0: Inserted, sid: int) {
    && Shape(V, root)
    && Placed(V, loc)
    && Canonical(loc, ins)
    && AllCounted(V, root, ins)
    && RefsOk(V, root, ins0)
    && EndpointsSound(V, ins)
    && EndpointsComplete(V, loc, ins, {sid})
  }

  ghost predicate Waning(V: Snapshot, loc: Places, root: Node, ins: Inserted, ins0: Inserted, sid: int) {
    Trimmed(V, loc, root, ins, ins0, sid) && Pending(V, root, ins, sid)
  }

  lemma WaningStarts(V: Snapshot, loc: Places, root: Node, ins: Inserted, sid: int)
    requires Good(V, loc, root, ins)
    ensures Waning(V, loc, root, ins, ins, sid)
  {
    forall n | n in V && n != root ensures PendingOk(V, ins, sid, n) {
      assert RefOk(V, ins, n);
    }
  }

  /** Once none of its suffixes is left, nothing refers to the removed sequence any more. */
  lemma WaningEnds(V: Snapshot, loc: Places, root: Node, ins: Inserted, ins0: Inserted, sid: int)
    requires Waning(V, loc, root, ins, ins0, sid)
    requires forall q | q in ins :: q.sid != sid
    requires forall q | q in ins0 && q.sid != sid :: q in ins && ins[q] == ins0[q]
    ensures Good(V, loc, root, ins)
    ensures forall n | n in V && n != root :: V[n].refSeq != sid
  {
    forall n | n in V && n != root ensures RefOk(V, ins, n) && V[n].refSeq != sid {
      assert PendingOk(V, ins, sid, n);
      assert RefOk(V, ins0, n);
    }
    forall q | q in ins ensures EndRecorded(V, loc, ins, q) {
    }
  }

  // ----- The walk -----

  ghost predicate OnWalk(r: Rec, y: Str, d: int) {
    r.path <= y && |r.path| <= d
  }

  /** The records after the walk along y has reached depth d. */
  ghost function Walked(V: Snapshot, y: Str, d: int, sid: int): Snapshot {
    map n | n in V :: if OnWalk(V[n], y, d)
                      then V[n].(count := V[n].count - 1, endpoints := V[n].endpoints - {sid})
                      else V[n]
  }

  /** Where the walk stands at a node above the end of the suffix, the next child is on the way. */
  lemma NextOnWalk(V: Snapshot, loc: Places, root: Node, ins: Inserted, p: Pos, n: Node)
    requires Shape(V, root) && Placed(V, loc) && Canonical(loc, ins) && AllCounted(V, root, ins)
    requires p in ins && n in V && V[n].path <= ins[p] && |V[n].path| < |ins[p]|
    ensures var t := ins[p][|V[n].path|];
            && t in V[n].children
            && var c := V[n].children[t];
            && c in V && c != root && c != n && Linked(V, c) && V[c].parent == n && V[n].path == Above(V[c])
            && V[c].path <= ins[p] && |V[n].path| < |V[c].path| == |V[n].path| + V[c].length
            && V[c].count == Occ(ins, V[c].path) && p in Through(ins, V[c].path)
  {
    var t := ins[p][|V[n].path|];
    PrefixStep(V[n].path, ins[p], t);
    ChildExists(V, loc, root, ins, n, t, p);
    ChildThrough(V, loc, root, ins, n, t);
  }

  /** Nodes on the way are met one after the other. */
  lemma NoneBetween(V: Snapshot, loc: Places, root: Node, ins: Inserted, c: Node, x: Node)
    requires Shape(V, root) && Placed(V, loc) && Canonical(loc, ins) && AllCounted(V, root, ins)
    requires c in V && c != root && x in V && V[x].path <= V[c].path
    requires |V[c].path| - V[c].length < |V[x].path|
    ensures x == c
  {
    assert Linked(V, c) && Counted(V, root, ins, c);
    if |V[x].path| < |V[c].path| {
      var next := V[c].path[|V[x].path|];
      PrefixStep(V[x].path, V[c].path, next);
      assert Boundary(ins, V[x].path);
      LabelThrough(V, root, ins, c, V[x].path);
      LabelThrough(V, root, ins, c, V[x].path + [next]);
      assert false;
    }
    assert V[x].path == V[c].path;
  }

  /** The walk starts by taking one off the count of the root. */
  lemma WalkStart(V: Snapshot, loc: Places, root: Node, ins: Inserted, p: Pos)
    requires root in V && V[root].path == [] && Placed(V, loc) && EndpointsSound(V, ins)
    requires p in ins && forall q | q in ins :: ins[q] != []
    ensures V[root := V[root].(count := V[root].count - 1)] == Walked(V, ins[p], 0, p.sid)
  {
    assert p.sid in V[root].endpoints ==> EndpointOk(V, ins, root, p.sid);
    assert V[root].endpoints - {p.sid} == V[root].endpoints;
    forall x | x in V && x != root ensures V[x].path != [] {
      assert loc[V[x].path] == x;
    }
  }

  /** The code looks for a child by the next token of the sequence; it finds one exactly while
      the stored suffix has not ended, and then the one on the way. */
  lemma WalkChild(V: Snapshot, loc: Places, root: Node, ins: Inserted, p: Pos, n: Node, s: Str, depth: int)
    requires Shape(V, root) && Placed(V, loc) && Canonical(loc, ins) && AllCounted(V, root, ins)
    requires p in ins && n in V && V[n].path <= ins[p] && 0 <= p.start && p.start + |V[n].path| < |s|
    requires ins[p] <= s[p.start..] && (|ins[p]| == depth || p.start + |ins[p]| == |s|)
    requires forall q | q in ins :: |ins[q]| <= depth
    ensures var t := s[p.start + |V[n].path|];
            && (t in V[n].children <==> |V[n].path| < |ins[p]|)
            && (|V[n].path| < |ins[p]| ==> t == ins[p][|V[n].path|])
  {
    var t := s[p.start + |V[n].path|];
    if |V[n].path| < |ins[p]| {
      NextOnWalk(V, loc, root, ins, p, n);
    } else {
      assert |V[n].path + [t]| > depth;
      if t in V[n].children {
        ChildThrough(V, loc, root, ins, n, t);
        assert false;
      }
    }
  }

  /** The next node on the way as the walk sees it: not yet changed. */
  lemma WalkNext(V: Snapshot, loc: Places, root: Node, ins: Inserted, p: Pos, n: Node)
    requires Shape(V, root) && Placed(V, loc) && Canonical(loc, ins) && AllCounted(V, root, ins)
    requires p in ins && n in V && V[n].path <= ins[p] && |V[n].path| < |ins[p]|
    ensures var t := ins[p][|V[n].path|]; var W := Walked(V, ins[p], |V[n].path|, p.sid);
            && n in W && W[n].children == V[n].children && t in V[n].children
            && var c := V[n].children[t];
            && c in V && c in W && W[c] == V[c] && c != root && c != n && Linked(V, c) && V[c].parent == n
            && V[c].path <= ins[p] && |V[c].path| == |V[n].path| + V[c].length && V[c].length > 0
  {
    NextOnWalk(V, loc, root, ins, p, n);
  }

  lemma WalkStep(V: Snapshot, loc: Places, root: Node, ins: Inserted, p: Pos, n: Node, c: Node)
    requires Shape(V, root) && Placed(V, loc) && Canonical(loc, ins) && AllCounted(V, root, ins)
    requires p in ins && n in V && c in V && c != root && V[c].path <= ins[p]
    requires Linked(V, c) && V[c].parent == n
    ensures var W := Walked(V, ins[p], |V[n].path|, p.sid);
            W[c := W[c].(count := W[c].count - 1, endpoints := W[c].endpoints - {p.sid})]
            == Walked(V, ins[p], |V[c].path|, p.sid)
  {
    var y := ins[p];
    forall x | x in V && x != c ensures OnWalk(V[x], y, |V[n].path|) == OnWalk(V[x], y, |V[c].path|) {
      if OnWalk(V[x], y, |V[c].path|) && |V[n].path| < |V[x].path| {
        PrefixesCompare(V[x].path, V[c].path, y);
        NoneBetween(V, loc, root, ins, c, x);
      }
    }
  }

  // ----- The end of the walk -----

  /** Canonical form except, perhaps, at w. */
  ghost predicate CanonicalBut(loc: Places, ins: Inserted, w: Str) {
    forall x {:trigger Boundary(ins, x)} | x != w :: x in loc <==> x == [] || Boundary(ins, x)
  }

  ghost predicate ChildrenExact(V: Snapshot, ins: Inserted, n: Node)
    requires n in V
  {
    forall t :: t in V[n].children <==> Through(ins, V[n].path + [t]) != {}
  }

  /** After the walk along y and the loss of a leaf, if any: n is the last node left on the way,
      and only n may have lost its reason to be a node. */
  ghost predicate Walk(V: Snapshot, loc: Places, root: Node, ins: Inserted, ins0: Inserted, sid: int, y: Str, n: Node) {
    && n in V && V[n].path <= y
    && Shape(V, root)
    && Placed(V, loc)
    && CanonicalBut(loc, ins, V[n].path)
    && (n != root ==> Through(ins, V[n].path) != {})
    && ChildrenExact(V, ins, n)
    && (forall x | x in V && V[x].path <= y :: |V[x].path| <= |V[n].path|)
    && AllCounted(V, root, ins)
    && RefsOk(V, root, ins0)
    && EndpointsSound(V, ins)
    && EndpointsComplete(V, loc, ins, {sid})
    && PendingOff(V, root, ins, sid, y)
  }

  /** V1 keeps part of V, with the counts and endpoints on the way along y reduced. */
  ghost predicate Reduced(V: Snapshot, V1: Snapshot, y: Str, sid: int) {
    forall x | x in V1 ::
      && x in V && V1[x].path == V[x].path && V1[x].length == V[x].length && RefPos(V1[x]) == RefPos(V[x])
      && V1[x].refSeq == V[x].refSeq
      && V1[x].count == V[x].count - (if V[x].path <= y then 1 else 0)
      && V1[x].endpoints == (if V[x].path <= y then V[x].endpoints - {sid} else V[x].endpoints)
  }

  lemma ReducedCounted(V: Snapshot, V1: Snapshot, root: Node, ins: Inserted, p: Pos)
    requires AllCounted(V, root, ins) && p in ins && Reduced(V, V1, ins[p], p.sid)
    ensures AllCounted(V1, root, ins - {p})
  {
    forall x | x in V1 ensures Counted(V1, root, ins - {p}, x) {
      assert Counted(V, root, ins, x);
      RemoveThrough(ins, p, V[x].path);
      if x != root {
        RemoveThrough(ins, p, Entry(V[x]));
      }
    }
  }

  lemma ReducedEndpoints(V: Snapshot, V1: Snapshot, loc: Places, loc1: Places, root: Node, ins: Inserted, p: Pos)
    requires EndpointsSound(V, ins) && EndpointsComplete(V, loc, ins, {p.sid}) && Placed(V, loc)
    requires p in ins && Reduced(V, V1, ins[p], p.sid)
    requires forall q | q in ins && q != p && ins[q] in loc ::
               ins[q] in loc1 && loc1[ins[q]] == loc[ins[q]] && loc[ins[q]] in V1
    ensures EndpointsSound(V1, ins - {p})
    ensures EndpointsComplete(V1, loc1, ins - {p}, {p.sid})
  {
    var ins1 := ins - {p};
    forall x, s | x in V1 && s in V1[x].endpoints ensures EndpointOk(V1, ins1, x, s) {
      assert EndpointOk(V, ins, x, s);
    }
    forall q | q in ins1 && q.sid != p.sid ensures EndRecorded(V1, loc1, ins1, q) {
      assert EndRecorded(V, loc, ins, q);
    }
  }

  lemma ReducedRefs(V: Snapshot, V1: Snapshot, root: Node, ins: Inserted, ins0: Inserted, p: Pos)
    requires RefsOk(V, root, ins0) && Pending(V, root, ins, p.sid)
    requires p in ins && Reduced(V, V1, ins[p], p.sid)
    ensures RefsOk(V1, root, ins0)
    ensures PendingOff(V1, root, ins - {p}, p.sid, ins[p])
  {
    forall x | x in V1 && x != root ensures RefOk(V1, ins0, x) {
      assert RefOk(V, ins0, x);
    }
    forall x | x in V1 && x != root && !(V1[x].path <= ins[p]) ensures PendingOk(V1, ins - {p}, p.sid, x) {
      assert PendingOk(V, ins, p.sid, x);
      if V1[x].refSeq == p.sid {
        var q :| q in Through(ins, V[x].path) && q.sid == p.sid;
        assert q in Through(ins - {p}, V1[x].path);
      }
    }
  }

  // The suffix ends at an inner node, or at a leaf that others share.

  lemma EndAtNode(V: Snapshot, loc: Places, root: Node, ins: Inserted, ins0: Inserted, p: Pos, n: Node)
    requires Waning(V, loc, root, ins, ins0, p.sid)
    requires p in ins && n in V && V[n].path == ins[p] && V[n].count > 1 && n != root
    ensures Walk(Walked(V, ins[p], |ins[p]|, p.sid), loc, root, ins - {p}, ins0, p.sid, ins[p], n)
  {
    var y := ins[p];
    var V1 := Walked(V, y, |y|, p.sid);
    assert Counted(V, root, ins, n);
    RemoveThrough(ins, p, y);
    ReducedCounted(V, V1, root, ins, p);
    ReducedEndpoints(V, V1, loc, loc, root, ins, p);
    ReducedRefs(V, V1, root, ins, ins0, p);
    WalkedShape(V, root, y, |y|, p.sid);
    EndAtNodeCanonical(V, loc, root, ins, p, n);
    EndAtNodeChildren(V, loc, root, ins, p, n);
  }

  lemma WalkedShape(V: Snapshot, root: Node, y: Str, d: int, sid: int)
    requires Shape(V, root)
    ensures Shape(Walked(V, y, d, sid), root)
  {
    var V1 := Walked(V, y, d, sid);
    forall x | x in V1 && x != root ensures Linked(V1, x) {
      assert Linked(V, x);
    }
    forall x | x in V1 ensures ChildrenOk(V1, root, x) {
      assert ChildrenOk(V, root, x);
    }
  }

  lemma EndAtNodeCanonical(V: Snapshot, loc: Places, root: Node, ins: Inserted, p: Pos, n: Node)
    requires Canonical(loc, ins) && p in ins && Through(ins - {p}, ins[p]) != {}
    ensures CanonicalBut(loc, ins - {p}, ins[p])
  {
    forall x | x != ins[p] ensures x in loc <==> x == [] || Boundary(ins - {p}, x) {
      RemoveBoundary(ins, p, ins[p], x);
    }
  }

  lemma EndAtNodeChildren(V: Snapshot, loc: Places, root: Node, ins: Inserted, p: Pos, n: Node)
    requires Shape(V, root) && Placed(V, loc) && Canonical(loc, ins) && AllCounted(V, root, ins)
    requires p in ins && n in V && V[n].path == ins[p]
    ensures ChildrenExact(Walked(V, ins[p], |ins[p]|, p.sid), ins - {p}, n)
  {
    forall t ensures t in V[n].children <==> Through(ins - {p}, ins[p] + [t]) != {} {
      RemoveThrough(ins, p, ins[p] + [t]);
      if t in V[n].children {
        ChildThrough(V, loc, root, ins, n, t);
      } else {
        NoChild(V, loc, root, ins, n, t);
      }
    }
  }

  // The suffix is the only one through a leaf, which goes away with it.

  ghost function DropLeaf(V: Snapshot, n: Node, c: Node, t: Token): Snapshot
    requires n in V
  {
    V[n := V[n].(children := V[n].children - {t})] - {c}
  }

  /** A child counted once on the way is the leaf at the end of the suffix. */
  lemma LoneChild(V: Snapshot, loc: Places, root: Node, ins: Inserted, p: Pos, c: Node)
    requires Shape(V, root) && Placed(V, loc) && Canonical(loc, ins) && AllCounted(V, root, ins)
    requires p in ins && c in V && c != root && V[c].path <= ins[p] && V[c].count == 1
    ensures V[c].path == ins[p] && Through(ins, ins[p]) == {p} && V[c].children == map[]
  {
    assert Counted(V, root, ins, c);
    var y := V[c].path;
    assert p in Through(ins, y);
    SubsetSize({p}, Through(ins, y));
    if |y| < |ins[p]| {
      var t := ins[p][|y|];
      assert Boundary(ins, y);
      PrefixStep(y, ins[p], t);
      assert p in Through(ins, y + [t]);
      ThroughShrinks(ins, y, y + [t]);
      assert false;
    }
    assert y == ins[p];
    forall t ensures t !in V[c].children {
      if t in V[c].children {
        assert p !in Through(ins, y + [t]);
        ThroughShrinks(ins, y, y + [t]);
        ChildThrough(V, loc, root, ins, c, t);
        assert false;
      }
    }
  }

  lemma EndAtLeaf(V: Snapshot, loc: Places, root: Node, ins: Inserted, ins0: Inserted, p: Pos, n: Node, c: Node,
                  t: Token)
    requires Waning(V, loc, root, ins, ins0, p.sid)
    requires p in ins && n in V && t in V[n].children && V[n].children[t] == c && c in V && c != root
    requires V[c].path == ins[p] && V[c].count == 1 && V[n].path <= ins[p] && (n != root ==> V[n].count > 1)
    ensures var W := Walked(V, ins[p], |V[n].path|, p.sid);
            && n in W && Walk(DropLeaf(W, n, c, t), loc - {ins[p]}, root, ins - {p}, ins0, p.sid, ins[p], n)
  {
    var y := ins[p];
    var W := Walked(V, y, |V[n].path|, p.sid);
    var V1 := DropLeaf(W, n, c, t);
    LoneChild(V, loc, root, ins, p, c);
    ChildThrough(V, loc, root, ins, n, t);
    DropLeafReduced(V, loc, root, ins, p, n, c, t);
    EndAtLeafEnds(V, V1, loc, root, ins, ins0, p, c);
    EndAtLeafShape(V, root, y, p.sid, n, c, t);
    EndAtLeafCanonical(V, loc, root, ins, p, n, c);
    EndAtLeafChildren(V, loc, root, ins, p, n, c, t);
  }

  lemma EndAtLeafShape(V: Snapshot, root: Node, y: Str, sid: int, n: Node, c: Node, t: Token)
    requires Shape(V, root)
    requires n in V && t in V[n].children && V[n].children[t] == c && c in V && c != root && V[c].children == map[]
    ensures Shape(DropLeaf(Walked(V, y, |V[n].path|, sid), n, c, t), root)
  {
    WalkedShape(V, root, y, |V[n].path|, sid);
    DropLeafShape(Walked(V, y, |V[n].path|, sid), root, n, c, t);
  }

  lemma EndAtLeafEnds(V: Snapshot, V1: Snapshot, loc: Places, root: Node, ins: Inserted, ins0: Inserted, p: Pos,
                      c: Node)
    requires AllCounted(V, root, ins) && EndpointsSound(V, ins) && EndpointsComplete(V, loc, ins, {p.sid})
             && Placed(V, loc)
    requires RefsOk(V, root, ins0) && Pending(V, root, ins, p.sid)
    requires p in ins && c in V && V[c].path == ins[p] && Through(ins, ins[p]) == {p}
    requires V1.Keys == V.Keys - {c} && Reduced(V, V1, ins[p], p.sid)
    ensures AllCounted(V1, root, ins - {p}) && RefsOk(V1, root, ins0) && PendingOff(V1, root, ins - {p}, p.sid, ins[p])
    ensures EndpointsSound(V1, ins - {p}) && EndpointsComplete(V1, loc - {ins[p]}, ins - {p}, {p.sid})
    ensures Placed(V1, loc - {ins[p]})
  {
    ReducedCounted(V, V1, root, ins, p);
    assert forall q | q in ins && ins[q] == ins[p] :: q in Through(ins, ins[p]);
    ReducedEndpoints(V, V1, loc, loc - {ins[p]}, root, ins, p);
    ReducedRefs(V, V1, root, ins, ins0, p);
  }

  lemma DropLeafReduced(V: Snapshot, loc: Places, root: Node, ins: Inserted, p: Pos, n: Node, c: Node, t: Token)
    requires Shape(V, root) && Placed(V, loc) && Canonical(loc, ins) && AllCounted(V, root, ins)
    requires p in ins && n in V && c in V && c != root && V[c].path == ins[p] && Linked(V, c) && V[c].parent == n
    ensures Reduced(V, DropLeaf(Walked(V, ins[p], |V[n].path|, p.sid), n, c, t), ins[p], p.sid)
    ensures forall x | x in V && x != c && V[x].path <= ins[p] :: |V[x].path| <= |V[n].path|
  {
    forall x | x in V && V[x].path <= ins[p] && x != c ensures |V[x].path| <= |V[n].path| {
      if |V[n].path| < |V[x].path| {
        NoneBetween(V, loc, root, ins, c, x);
      }
    }
  }

  lemma DropLeafShape(W: Snapshot, root: Node, n: Node, c: Node, t: Token)
    requires Shape(W, root)
    requires n in W && t in W[n].children && W[n].children[t] == c && c in W && c != root && W[c].children == map[]
    ensures Shape(DropLeaf(W, n, c, t), root)
  {
    var V1 := DropLeaf(W, n, c, t);
    forall x | x in V1 && x != root ensures Linked(V1, x) {
      DropLeafLinked(W, root, n, c, t, x);
    }
    forall x | x in V1 ensures ChildrenOk(V1, root, x) {
      DropLeafChildren(W, root, n, c, t, x);
    }
  }

  lemma DropLeafLinked(W: Snapshot, root: Node, n: Node, c: Node, t: Token, x: Node)
    requires Shape(W, root) && x in W && x != root && x != c
    requires n in W && t in W[n].children && W[n].children[t] == c && c in W && c != root && W[c].children == map[]
    ensures Linked(DropLeaf(W, n, c, t), x)
  {
    assert Linked(W, x) && Linked(W, c) && ChildrenOk(W, root, n);
  }

  lemma DropLeafChildren(W: Snapshot, root: Node, n: Node, c: Node, t: Token, x: Node)
    requires Shape(W, root) && x in W && x != c
    requires n in W && t in W[n].children && W[n].children[t] == c && c in W && c != root
    ensures ChildrenOk(DropLeaf(W, n, c, t), root, x)
  {
    assert ChildrenOk(W, root, x) && ChildrenOk(W, root, n) && Linked(W, c);
  }

  lemma EndAtLeafCanonical(V: Snapshot, loc: Places, root: Node, ins: Inserted, p: Pos, n: Node, c: Node)
    requires Shape(V, root) && Placed(V, loc) && Canonical(loc, ins) && AllCounted(V, root, ins)
    requires p in ins && n in V && c in V && c != root && V[c].path == ins[p] && Linked(V, c) && V[c].parent == n
    requires Through(ins, ins[p]) == {p} && (n != root ==> V[n].count > 1)
    ensures CanonicalBut(loc - {ins[p]}, ins - {p}, V[n].path)
    ensures n != root ==> Through(ins - {p}, V[n].path) != {}
  {
    var w := V[n].path;
    assert w <= ins[p];
    assert Counted(V, root, ins, n);
    RemoveThrough(ins, p, w);
    forall x | x != w ensures x in loc - {ins[p]} <==> x == [] || Boundary(ins - {p}, x) {
      if x <= ins[p] && |x| > |w| {
        RemoveThrough(ins, p, x);
        if Boundary(ins, x) {
          NoneBetween(V, loc, root, ins, c, loc[x]);
        } else {
          PrefixStays(ins, p, x);
        }
      } else {
        RemoveBoundary(ins, p, w, x);
      }
    }
  }

  lemma EndAtLeafChildren(V: Snapshot, loc: Places, root: Node, ins: Inserted, p: Pos, n: Node, c: Node, t: Token)
    requires Shape(V, root) && Placed(V, loc) && Canonical(loc, ins) && AllCounted(V, root, ins)
    requires p in ins && n in V && t in V[n].children && V[n].children[t] == c && c in V && c != root && c != n
    requires V[c].path == ins[p] && Through(ins, ins[p]) == {p}
    ensures ChildrenExact(DropLeaf(Walked(V, ins[p], |V[n].path|, p.sid), n, c, t), ins - {p}, n)
  {
    var w := V[n].path;
    ChildThrough(V, loc, root, ins, n, t);
    forall u ensures u in V[n].children && u != t <==> Through(ins - {p}, w + [u]) != {} {
      RemoveThrough(ins, p, w + [u]);
      if u in V[n].children {
        ChildThrough(V, loc, root, ins, n, u);
        if u != t {
          BranchesDisjoint(ins, w, t, u);
          assert p !in Through(ins, w + [u]);
        }
      } else {
        NoChild(V, loc, root, ins, n, u);
      }
    }
  }

  // ----- The merge -----

  /** A node with a single child that carries all its occurrences. */
  ghost predicate Mergeable(V: Snapshot, root: Node, n: Node) {
    n in V && n != root && exists t ::
        V[n].children.Keys == {t} && V[n].children[t] in V && V[V[n].children[t]].count == V[n].count
  }

  ghost function Merge(V: Snapshot, n: Node, c: Node): Snapshot
    requires n in V && c in V && V[n].parent != null && V[n].parent in V
  {
    var u := V[n].parent;
    (V[c := V[c].(token := V[n].token,
                  length := V[c].length + V[n].length,
                  refIdx := V[c].refIdx - V[n].length,
                  parent := u)]
      [u := V[u].(children := V[u].children[V[n].token := c])]) - {n}
  }

  /** The merge test of the code decides exactly whether the node is still needed. */
  lemma MergeTest(V: Snapshot, loc: Places, root: Node, ins: Inserted, ins0: Inserted, sid: int, y: Str, n: Node)
    requires Walk(V, loc, root, ins, ins0, sid, y, n) && n != root
    ensures Mergeable(V, root, n) <==> !Boundary(ins, V[n].path)
  {
    var w := V[n].path;
    assert Counted(V, root, ins, n) && ChildrenOk(V, root, n) && Linked(V, n);
    if !Boundary(ins, w) {
      var t :| Through(ins, w + [t]) == Through(ins, w);
      assert t in V[n].children;
      forall u ensures u in V[n].children ==> u == t {
        if u != t {
          BranchesDisjoint(ins, w, t, u);
          ThroughShrinks(ins, w, w + [u]);
        }
      }
      MergeChildCount(V, root, ins, n, t);
      assert V[n].children.Keys == {t};
    }
    if Mergeable(V, root, n) {
      var t :| V[n].children.Keys == {t} && V[n].children[t] in V && V[V[n].children[t]].count == V[n].count;
      assert t in V[n].children;
      MergeChildCount(V, root, ins, n, t);
      ThroughShrinks(ins, w, w + [t]);
    }
  }

  lemma MergeChildCount(V: Snapshot, root: Node, ins: Inserted, n: Node, t: Token)
    requires Shape(V, root) && AllCounted(V, root, ins) && n in V && t in V[n].children
    ensures var c := V[n].children[t];
            && c in V && c != root && c != n && Linked(V, c) && V[c].parent == n && V[c].token == t
            && Above(V[c]) == V[n].path
            && V[c].count == Occ(ins, V[n].path + [t]) && Through(ins, V[c].path) == Through(ins, V[n].path + [t])
  {
    assert ChildrenOk(V, root, n);
    var c := V[n].children[t];
    assert Linked(V, c) && Counted(V, root, ins, c);
  }

  lemma MergeShape(V: Snapshot, root: Node, n: Node, c: Node, t: Token)
    requires Shape(V, root)
    requires n in V && n != root && V[n].children.Keys == {t} && V[n].children[t] == c && Linked(V, n)
    requires c in V && c != n && c != root && Linked(V, c) && V[c].parent == n && V[n].parent != n && V[n].parent != c
    ensures Shape(Merge(V, n, c), root)
  {
    var V1 := Merge(V, n, c);
    assert Above(V1[c]) == Above(V[n]) by {
      assert V[n].path == Above(V[c]);
    }
    forall x | x in V1 && x != root ensures Linked(V1, x) {
      assert Linked(V, x);
    }
    forall x | x in V1 ensures ChildrenOk(V1, root, x) {
      MergeChildren(V, root, n, c, t, x);
    }
  }

  lemma MergeChildren(V: Snapshot, root: Node, n: Node, c: Node, t: Token, x: Node)
    requires Shape(V, root)
    requires n in V && n != root && V[n].children.Keys == {t} && V[n].children[t] == c && Linked(V, n)
    requires c in V && c != n && c != root && V[n].parent != n && V[n].parent != c && x in V && x != n
    ensures ChildrenOk(Merge(V, n, c), root, x)
  {
    assert ChildrenOk(V, root, x) && ChildrenOk(V, root, n);
  }

  lemma MergeCounted(V: Snapshot, root: Node, ins: Inserted, n: Node, c: Node, t: Token)
    requires Shape(V, root) && AllCounted(V, root, ins)
    requires n in V && n != root && t in V[n].children && V[n].children[t] == c && c in V && V[c].count == V[n].count
             && Linked(V, n)
    ensures AllCounted(Merge(V, n, c), root, ins)
  {
    var V1 := Merge(V, n, c);
    MergeChildCount(V, root, ins, n, t);
    assert Counted(V, root, ins, n) && Counted(V, root, ins, c);
    ThroughShrinks(ins, V[n].path, V[n].path + [t]);
    assert V[n].path == Above(V[c]);
    assert Entry(V1[c]) == Entry(V[n]);
    forall x | x in V1 ensures Counted(V1, root, ins, x) {
      assert Counted(V, root, ins, x);
    }
  }

  lemma MergeEnds(V: Snapshot, loc: Places, root: Node, ins: Inserted, ins0: Inserted, sid: int, y: Str, n: Node,
                  c: Node)
    requires Placed(V, loc) && RefsOk(V, root, ins0) && EndpointsSound(V, ins) && EndpointsComplete(V, loc, ins, {sid})
    requires PendingOff(V, root, ins, sid, y)
    requires n in V && n != root && V[n].parent != null && V[n].parent in V && V[n].parent != n && V[n].parent != c
    requires c in V && c != n && c != root
    requires forall q | q in ins :: ins[q] != V[n].path
    ensures var V1 := Merge(V, n, c);
            && RefsOk(V1, root, ins0) && EndpointsSound(V1, ins) && EndpointsComplete(V1, loc - {V[n].path}, ins, {sid})
            && PendingOff(V1, root, ins, sid, y)
  {
    var V1 := Merge(V, n, c);
    forall x | x in V1 && x != root ensures RefOk(V1, ins0, x) {
      assert RefOk(V, ins0, x);
    }
    forall x, s | x in V1 && s in V1[x].endpoints ensures EndpointOk(V1, ins, x, s) {
      assert EndpointOk(V, ins, x, s);
    }
    forall q | q in ins && q.sid != sid ensures EndRecorded(V1, loc - {V[n].path}, ins, q) {
      assert EndRecorded(V, loc, ins, q);
    }
    forall x | x in V1 && x != root && !(V1[x].path <= y) ensures PendingOk(V1, ins, sid, x) {
      assert PendingOk(V, ins, sid, x);
    }
  }

  /** What holds before the references on the way are looked at; z is the path of the node
      from which the code searches a leaf. */
  ghost predicate Unrepaired(V: Snapshot, loc: Places, root: Node, ins: Inserted, ins0: Inserted, sid: int, y: Str,
                             z: Str)
  {
    && Trimmed(V, loc, root, ins, ins0, sid)
    && PendingOff(V, root, ins, sid, y)
    && forall x | x in V && V[x].path <= y :: V[x].path <= z
  }

  lemma NoMergeOk(V: Snapshot, loc: Places, root: Node, ins: Inserted, ins0: Inserted, sid: int, y: Str, n: Node)
    requires Walk(V, loc, root, ins, ins0, sid, y, n) && !Mergeable(V, root, n)
    ensures Unrepaired(V, loc, root, ins, ins0, sid, y, V[n].path)
  {
    if n != root {
      MergeTest(V, loc, root, ins, ins0, sid, y, n);
    }
    forall x ensures x in loc <==> x == [] || Boundary(ins, x) {
      if x != V[n].path {
        assert Boundary(ins, x) || !Boundary(ins, x);
      }
    }
    forall x | x in V && V[x].path <= y ensures V[x].path <= V[n].path {
      PrefixesCompare(V[x].path, V[n].path, y);
    }
  }

  lemma MergeOk(V: Snapshot, loc: Places, root: Node, ins: Inserted, ins0: Inserted, sid: int, y: Str, n: Node,
                c: Node, t: Token)
    requires Walk(V, loc, root, ins, ins0, sid, y, n) && n != root
    requires V[n].children.Keys == {t} && V[n].children[t] == c && c in V && V[c].count == V[n].count
    ensures V[n].parent != null && V[n].parent in V
    ensures Unrepaired(Merge(V, n, c), loc - {V[n].path}, root, ins, ins0, sid, y, V[c].path)
    ensures forall q | q in ins :: ins[q] != V[n].path
  {
    var w := V[n].path;
    assert t in V[n].children;
    MergeTest(V, loc, root, ins, ins0, sid, y, n);
    MergeChildCount(V, root, ins, n, t);
    assert Linked(V, n) && Mergeable(V, root, n);
    forall q | q in ins ensures ins[q] != w {
      if ins[q] == w {
        EndIsBoundary(ins, q);
      }
    }
    MergeShape(V, root, n, c, t);
    MergeCounted(V, root, ins, n, c, t);
    MergeEnds(V, loc, root, ins, ins0, sid, y, n, c);
    MergePlaces(V, loc, root, ins, n, c, y);
  }

  lemma MergePlaces(V: Snapshot, loc: Places, root: Node, ins: Inserted, n: Node, c: Node, y: Str)
    requires Placed(V, loc) && n in V && CanonicalBut(loc, ins, V[n].path) && !Boundary(ins, V[n].path)
    requires c in V && c != n && V[n].path != [] && V[n].path <= y && V[n].path <= V[c].path
    requires V[n].parent != null && V[n].parent in V && V[n].parent != n
    requires forall x | x in V && V[x].path <= y :: |V[x].path| <= |V[n].path|
    ensures Placed(Merge(V, n, c), loc - {V[n].path})
    ensures Canonical(loc - {V[n].path}, ins)
    ensures forall x | x in V && V[x].path <= y :: V[x].path <= V[c].path
  {
    forall x ensures x in loc - {V[n].path} <==> x == [] || Boundary(ins, x) {
      if x != V[n].path {
        assert Boundary(ins, x) || !Boundary(ins, x);
      }
    }
    forall x | x in V && V[x].path <= y ensures V[x].path <= V[c].path {
      PrefixesCompare(V[x].path, V[n].path, y);
      PrefixesCompare(V[x].path, V[c].path, V[c].path);
    }
  }

  // ----- The repair of references -----

  /** On the way to z, references to sid become references to the occurrence at q. */
  ghost function Repaired(V: Snapshot, z: Str, q: Pos, sid: int): Snapshot {
    map x | x in V :: if V[x].path != [] && V[x].path <= z && V[x].refSeq == sid
                      then V[x].(refSeq := q.sid, refIdx := q.start + |V[x].path| - V[x].length)
                      else V[x]
  }

  /** Nothing to repair from: the leaf is where a suffix of the removed sequence still ends, so
      all nodes on the way are still passed by one. */
  lemma SkipRepair(V: Snapshot, loc: Places, root: Node, ins: Inserted, ins0: Inserted, sid: int, y: Str, z: Str,
                   leaf: Node)
    requires Unrepaired(V, loc, root, ins, ins0, sid, y, z)
    requires leaf in V && z <= V[leaf].path && V[leaf].children == map[]
    requires V[leaf].endpoints == map[] || sid in V[leaf].endpoints
    ensures Waning(V, loc, root, ins, ins0, sid)
  {
    if leaf != root {
      var q := LeafPending(V, loc, root, ins, sid, leaf);
      forall x | x in V && x != root ensures PendingOk(V, ins, sid, x) {
        if V[x].path <= y {
          ThroughShrinks(ins, V[x].path, V[leaf].path);
        }
      }
    } else {
      forall x | x in V && x != root ensures PendingOk(V, ins, sid, x) {
        assert Linked(V, x);
      }
    }
  }

  lemma LeafPending(V: Snapshot, loc: Places, root: Node, ins: Inserted, sid: int, leaf: Node) returns (q: Pos)
    requires Shape(V, root) && Placed(V, loc) && Canonical(loc, ins) && AllCounted(V, root, ins)
    requires EndpointsSound(V, ins) && EndpointsComplete(V, loc, ins, {sid})
    requires leaf in V && leaf != root && V[leaf].children == map[]
    requires V[leaf].endpoints == map[] || sid in V[leaf].endpoints
    ensures q in Through(ins, V[leaf].path) && q.sid == sid
  {
    if sid in V[leaf].endpoints {
      assert EndpointOk(V, ins, leaf, sid);
      q := Pos(sid, V[leaf].endpoints[sid] - |V[leaf].path|);
    } else {
      assert Boundary(ins, V[leaf].path);
      q :| q in Through(ins, V[leaf].path);
      if |V[leaf].path| < |ins[q]| {
        PrefixStep(V[leaf].path, ins[q], ins[q][|V[leaf].path|]);
        ChildExists(V, loc, root, ins, leaf, ins[q][|V[leaf].path|], q);
        assert false;
      }
      assert ins[q] == V[leaf].path;
      assert EndRecorded(V, loc, ins, q) || q.sid == sid;
    }
  }

  lemma RepairOk(V: Snapshot, loc: Places, root: Node, ins: Inserted, ins0: Inserted, sid: int, y: Str, z: Str,
                 leaf: Node, s: int)
    requires Unrepaired(V, loc, root, ins, ins0, sid, y, z)
    requires leaf in V && z <= V[leaf].path && s in V[leaf].endpoints && s != sid
    requires forall q | q in ins :: q in ins0 && ins0[q] == ins[q]
    ensures Waning(Repaired(V, z, Pos(s, V[leaf].endpoints[s] - |V[leaf].path|), sid), loc, root, ins, ins0, sid)
  {
    var q := Pos(s, V[leaf].endpoints[s] - |V[leaf].path|);
    var V1 := Repaired(V, z, q, sid);
    assert EndpointOk(V, ins, leaf, s);
    assert z <= ins0[q];
    RepairKeeps(V, V1, loc, root, ins, sid);
    forall x | x in V1 && x != root ensures RefOk(V1, ins0, x) {
      assert RefOk(V, ins0, x);
    }
    forall x | x in V1 && x != root ensures PendingOk(V1, ins, sid, x) {
      assert Linked(V, x);
      assert PendingOk(V, ins, sid, x) || V[x].path <= y;
    }
  }

  ghost predicate SameButRefs(V: Snapshot, V1: Snapshot) {
    && V1.Keys == V.Keys
    && forall x | x in V :: V1[x] == V[x].(refSeq := V1[x].refSeq, refIdx := V1[x].refIdx)
  }

  /** Changing references alone keeps everything else. */
  lemma RepairKeeps(V: Snapshot, V1: Snapshot, loc: Places, root: Node, ins: Inserted, sid: int)
    requires Shape(V, root) && Placed(V, loc) && AllCounted(V, root, ins)
    requires EndpointsSound(V, ins) && EndpointsComplete(V, loc, ins, {sid})
    requires SameButRefs(V, V1)
    ensures Shape(V1, root) && Placed(V1, loc) && AllCounted(V1, root, ins)
    ensures EndpointsSound(V1, ins) && EndpointsComplete(V1, loc, ins, {sid})
  {
    RepairShape(V, V1, root);
    RepairEnds(V, V1, loc, ins, sid);
    forall x | x in V1 ensures Counted(V1, root, ins, x) {
      assert Counted(V, root, ins, x);
    }
  }

  lemma RepairShape(V: Snapshot, V1: Snapshot, root: Node)
    requires Shape(V, root) && SameButRefs(V, V1)
    ensures Shape(V1, root)
  {
    forall x | x in V1 && x != root ensures Linked(V1, x) {
      assert Linked(V, x);
    }
    forall x | x in V1 ensures ChildrenOk(V1, root, x) {
      assert ChildrenOk(V, root, x);
    }
  }

  lemma RepairEnds(V: Snapshot, V1: Snapshot, loc: Places, ins: Inserted, sid: int)
    requires EndpointsSound(V, ins) && EndpointsComplete(V, loc, ins, {sid}) && SameButRefs(V, V1)
    ensures EndpointsSound(V1, ins) && EndpointsComplete(V1, loc, ins, {sid})
  {
    forall x, s | x in V1 && s in V1[x].endpoints ensures EndpointOk(V1, ins, x, s) {
      assert EndpointOk(V, ins, x, s);
    }
    forall q | q in ins && q.sid != sid ensures EndRecorded(V1, loc, ins, q) {
      assert EndRecorded(V, loc, ins, q);
    }
  }

  // ----- The nodes on the way, as the code collects them -----

  /** The list holds the nodes below the root on the way to z, each right below the one before. */
  ghost predicate PathTo(V: Snapshot, path: seq<Node>, z: Str) {
    && (forall x | x in path :: x in V && V[x].path != [] && V[x].path <= z)
    && (forall x | x in V && V[x].path != [] && V[x].path <= z :: x in path)
    && (forall i {:trigger Step(V, path, i)} | 0 <= i < |path| :: Step(V, path, i))
    && (if path == [] then z == [] else path[|path| - 1] in V && V[path[|path| - 1]].path == z)
  }

  ghost predicate Step(V: Snapshot, path: seq<Node>, i: int)
    requires 0 <= i < |path|
  {
    && path[i] in V
    && (i > 0 ==> path[i - 1] in V)
    && |V[path[i]].path| - V[path[i]].length == if i == 0 then 0 else |V[path[i - 1]].path|
  }

  lemma PathStart(V: Snapshot, loc: Places, root: Node)
    requires Placed(V, loc)
    ensures PathTo(V, [], [])
  {
  }

  lemma PathKept(V: Snapshot, V': Snapshot, path: seq<Node>, z: Str)
    requires PathTo(V, path, z)
    requires forall x | x in V' :: x in V && V'[x].path == V[x].path && V'[x].length == V[x].length
    requires forall x | x in V && x !in V' :: !(V[x].path <= z)
    ensures PathTo(V', path, z)
  {
    forall i | 0 <= i < |path| ensures Step(V', path, i) {
      assert Step(V, path, i);
      assert path[i] in path && (i > 0 ==> path[i - 1] in path);
    }
    assert path != [] ==> path[|path| - 1] in path;
  }

  lemma PathExtend(V: Snapshot, loc: Places, root: Node, ins: Inserted, path: seq<Node>, n: Node, c: Node)
    requires Shape(V, root) && Placed(V, loc) && Canonical(loc, ins) && AllCounted(V, root, ins)
    requires n in V && PathTo(V, path, V[n].path) && c in V && c != root && Linked(V, c) && V[c].parent == n
    ensures PathTo(V, path + [c], V[c].path)
  {
    var path' := path + [c];
    assert V[n].path <= V[c].path;
    forall x ensures x in path' <==> x in V && V[x].path != [] && V[x].path <= V[c].path {
      if x in V && V[x].path <= V[c].path && |V[n].path| < |V[x].path| {
        NoneBetween(V, loc, root, ins, c, x);
      }
      if x in V && V[x].path <= V[c].path && |V[x].path| <= |V[n].path| {
        PrefixesCompare(V[x].path, V[n].path, V[c].path);
      }
    }
    forall i | 0 <= i < |path'| ensures Step(V, path', i) {
      if i < |path| {
        assert Step(V, path, i);
      }
    }
  }

  /** In the list, paths get longer, so its last node occurs nowhere else. */
  lemma {:induction false} PathLonger(V: Snapshot, path: seq<Node>, z: Str, i: int)
    requires PathTo(V, path, z) && 0 <= i < |path| - 1
    requires forall x | x in path :: x in V && V[x].length > 0
    ensures path[i] in V && |V[path[i]].path| < |z| && path[i] != path[|path| - 1]
    decreases |path| - i
  {
    assert Step(V, path, i + 1) && path[i + 1] in path;
    if i + 1 < |path| - 1 {
      PathLonger(V, path, z, i + 1);
    }
  }

  lemma PathMergeMember(V: Snapshot, loc: Places, root: Node, ins: Inserted, path: seq<Node>, n: Node, c: Node, x: Node)
    requires n in V && Placed(V, loc) && CanonicalBut(loc, ins, V[n].path) && AllCounted(V, root, ins)
    requires PathTo(V, path, V[n].path)
    requires c in V && c != root && c != n && Linked(V, c) && V[c].parent == n && x in V && x != n
    ensures x == c || x in path <==> V[x].path != [] && V[x].path <= V[c].path
  {
    if V[x].path <= V[c].path && V[x].path != [] {
      if |V[x].path| <= |V[n].path| {
        PrefixesCompare(V[x].path, V[n].path, V[c].path);
      } else if x != c {
        assert V[x].path != V[c].path && Boundary(ins, V[x].path);
        LabelEndsNone(V, root, ins, c, V[x].path);
      }
    }
  }

  /** The node is last in the list, and those before it are above it. */
  lemma PathBefore(V: Snapshot, root: Node, path: seq<Node>, n: Node, c: Node)
    requires n in V && Shape(V, root) && n != root && PathTo(V, path, V[n].path) && Linked(V, n)
    requires c in V && c != root && Linked(V, c) && V[c].parent == n
    ensures path != [] && path[|path| - 1] == n
    ensures forall i | 0 <= i < |path| - 1 ::
              path[i] in V && path[i] != n && path[i] != c && |V[path[i]].path| < |V[n].path|
    ensures forall i | 0 <= i < |path| :: path[i] in V && V[path[i]].path != [] && V[path[i]].length > 0
  {
    assert n in path;
    assert path[|path| - 1] in path;
    forall i | 0 <= i < |path| ensures path[i] in V && V[path[i]].path != [] && V[path[i]].length > 0 {
      assert path[i] in path;
      assert Linked(V, path[i]);
    }
    forall i | 0 <= i < |path| - 1 ensures path[i] != n && path[i] != c && |V[path[i]].path| < |V[n].path| {
      PathLonger(V, path, V[n].path, i);
    }
  }

  /** After a merge the child stands in for the node at the end of the list. */
  lemma PathMerge(V: Snapshot, loc: Places, root: Node, ins: Inserted, path: seq<Node>, n: Node, c: Node)
    requires n in V && Shape(V, root) && Placed(V, loc) && CanonicalBut(loc, ins, V[n].path) && AllCounted(V, root, ins)
    requires n != root && PathTo(V, path, V[n].path) && Linked(V, n)
    requires c in V && c != root && c != n && Linked(V, c) && V[c].parent == n && V[n].parent != c && V[n].parent != n
    ensures path != []
    ensures PathTo(Merge(V, n, c), path[|path| - 1 := c], V[c].path)
  {
    var V1 := Merge(V, n, c);
    PathBefore(V, root, path, n, c);
    var last := |path| - 1;
    var path' := path[last := c];
    forall x ensures x in path' <==> x in V1 && V1[x].path != [] && V1[x].path <= V[c].path {
      PathMergeIn(V, loc, root, ins, path, n, c, x);
    }
    forall i | 0 <= i < |path'| ensures Step(V1, path', i) {
      PathMergeStep(V, root, path, n, c, i);
    }
  }

  lemma PathMergeStep(V: Snapshot, root: Node, path: seq<Node>, n: Node, c: Node, i: nat)
    requires n in V && Shape(V, root) && n != root && PathTo(V, path, V[n].path) && Linked(V, n)
    requires c in V && c != root && c != n && Linked(V, c) && V[c].parent == n && V[n].parent != c && V[n].parent != n
             && i < |path|
    ensures path != [] && Step(Merge(V, n, c), path[|path| - 1 := c], i)
  {
    PathBefore(V, root, path, n, c);
    assert Step(V, path, i);
  }

  lemma PathMergeIn(V: Snapshot, loc: Places, root: Node, ins: Inserted, path: seq<Node>, n: Node, c: Node, x: Node)
    requires n in V && Shape(V, root) && Placed(V, loc) && CanonicalBut(loc, ins, V[n].path) && AllCounted(V, root, ins)
    requires n != root && PathTo(V, path, V[n].path) && Linked(V, n)
    requires c in V && c != root && c != n && Linked(V, c) && V[c].parent == n && V[n].parent != c && V[n].parent != n
    ensures path != []
    ensures var V1 := Merge(V, n, c); x in path[|path| - 1 := c] <==>
              x in V1 && V1[x].path != [] && V1[x].path <= V[c].path
  {
    PathBefore(V, root, path, n, c);
    var last := |path| - 1;
    var path' := path[last := c];
    if x in V && x != n {
      PathMergeMember(V, loc, root, ins, path, n, c, x);
      if x in path {
        var i :| 0 <= i <= last && path[i] == x;
        assert path'[i] == x;
      }
    }
    assert path'[last] == c;
  }

  // ----- The repair, node by node up the list -----

  ghost function RepairedAt(V: Snapshot, n: Node, sid: int, refSeq: int, refIdx: int): Snapshot
    requires n in V
  {
    V[n := if V[n].refSeq == sid then V[n].(refSeq := refSeq, refIdx := refIdx) else V[n]]
  }

  /** The repair of the nodes of a list only. */
  ghost function RepairedPart(V: Snapshot, part: seq<Node>, q: Pos, sid: int): Snapshot {
    map x | x in V :: if x in part && V[x].refSeq == sid
                      then V[x].(refSeq := q.sid, refIdx := q.start + |V[x].path| - V[x].length)
                      else V[x]
  }

  /** Length of the string down to entry k - 1 of the list. */
  ghost function PathLength(V: Snapshot, path: seq<Node>, k: int): int
    requires 0 <= k <= |path|
  {
    if k == 0 then 0 else if path[k - 1] in V then |V[path[k - 1]].path| else 0
  }

  lemma RepairedPartStarts(V: Snapshot, path: seq<Node>, z: Str, q: Pos, sid: int)
    requires PathTo(V, path, z)
    ensures V == RepairedPart(V, path[|path|..], q, sid) && PathLength(V, path, |path|) == |z|
  {
  }

  lemma RepairedPartStep(V: Snapshot, W: Snapshot, path: seq<Node>, z: Str, q: Pos, sid: int, k: nat)
    requires PathTo(V, path, z) && k < |path| && W == RepairedPart(V, path[k + 1..], q, sid) && q.sid != sid
    ensures path[k] in V && path[k] in W && W[path[k]].length == V[path[k]].length
    ensures PathLength(V, path, k) == PathLength(V, path, k + 1) - V[path[k]].length
    ensures RepairedPart(V, path[k..], q, sid) == RepairedAt(W, path[k], sid, q.sid, q.start + PathLength(V, path, k))
  {
    assert Step(V, path, k) && path[k] in path;
    assert path[k..] == [path[k]] + path[k + 1..];
    hide PathTo;
    RepairedMore(V, path[k], path[k + 1..], q, sid);
  }

  lemma RepairedMore(V: Snapshot, n: Node, rest: seq<Node>, q: Pos, sid: int)
    requires n in V && q.sid != sid
    ensures n in RepairedPart(V, rest, q, sid)
    ensures RepairedPart(V, [n] + rest, q, sid)
            == RepairedAt(RepairedPart(V, rest, q, sid), n, sid, q.sid, q.start + |V[n].path| - V[n].length)
  {
  }

  lemma RepairedPartEnds(V: Snapshot, path: seq<Node>, z: Str, q: Pos, sid: int)
    requires PathTo(V, path, z)
    ensures RepairedPart(V, path[0..], q, sid) == Repaired(V, z, q, sid)
  {
    assert path[0..] == path;
    forall x | x in V ensures x in path <==> V[x].path != [] && V[x].path <= z {
    }
  }
}
