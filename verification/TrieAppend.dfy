/**
 Appending one token to one stored suffix, seen on snapshots: for each branch of the append
 loop, the records after the step and the proof that they again form the trie of what is stored.
 */
module TrieAppend {
  import opened FiniteSets
  import opened Suffixes
  import opened Nodes
  import opened Trie

  // ----- One active suffix takes in the next token -----

  /** Suffix p ends at node n, no other suffix of its sequence does, the later ones are not longer,
      and the token that follows it sits at index last of the sequence. */
  ghost predicate Ready(loc: Places, ins: Inserted, p: Pos, n: Node, last: int) {
    && p in ins && ins[p] in loc && loc[ins[p]] == n
    && p.start + |ins[p]| == last
    && (forall q | q in ins && q.sid == p.sid && ins[q] == ins[p] :: q == p)
    && forall q | q in ins && q.sid == p.sid && q.start > p.start :: |ins[q]| <= |ins[p]|
  }

  /** The endpoint of the suffix is recorded, and recorded as the index of the next token. */
  lemma ReadyEndpoint(V: Snapshot, loc: Places, ins: Inserted, p: Pos, n: Node, last: int)
    requires Ready(loc, ins, p, n, last)
    requires n in V && V[n].path == ins[p]
    requires EndpointsSound(V, ins) && EndpointsComplete(V, loc, ins, {})
    ensures p.sid in V[n].endpoints && V[n].endpoints[p.sid] == last
  {
    assert EndRecorded(V, loc, ins, p);
    assert EndpointOk(V, ins, n, p.sid);
  }

  lemma CanonicalStep(loc: Places, loc': Places, ins: Inserted, p: Pos, t: Token)
    requires Canonical(loc, ins) && p in ins
    requires var w := ins[p];
             forall x :: x in loc' <==>
               x == w + [t] || (x in loc && (x == w && w != [] ==> Occ(ins, w) != Occ(ins, w + [t]) + 1))
    ensures Canonical(loc', ins[p := ins[p] + [t]])
  {
    if ins[p] != [] {
      EndIsBoundary(ins, p);
    }
    forall x ensures x in loc' <==> x == [] || Boundary(ins[p := ins[p] + [t]], x) {
      ExtendBoundary(ins, p, t, x);
    }
  }

  /** A node away from the step keeps its count and its label. */
  lemma CountedAway(V: Snapshot, V': Snapshot, root: Node, ins: Inserted, p: Pos, t: Token, x: Node)
    requires p in ins && x in V && x in V' && Counted(V, root, ins, x)
    requires V'[x].path == V[x].path && V'[x].count == V[x].count && V'[x].length == V[x].length
    requires x == root ==> V[x].path == []
    requires x != root ==> Entry(V[x]) != ins[p] + [t]
    ensures Counted(V', root, ins[p := ins[p] + [t]], x)
  {
    ExtendThrough(ins, p, t, V[x].path);
    if x != root {
      var w, y, e := ins[p], V[x].path, Entry(V[x]);
      ExtendThrough(ins, p, t, e);
      assert e == y[..|y| - V[x].length + 1];
      assert y == w + [t] ==> e <= w && p in Through(ins, e);
    }
  }

  /** The node the suffix moves to: a fresh or existing end, or the old node grown by a token. */
  lemma CountedEnd(V': Snapshot, root: Node, ins: Inserted, p: Pos, t: Token, m: Node)
    requires p in ins && m in V' && m != root
    requires var w := ins[p]; var r := V'[m];
             && r.path == w + [t] && r.count == Occ(ins, w + [t]) + 1 && 0 < r.length <= |r.path|
             && (r.length == 1 || (Occ(ins, w) == Occ(ins, w + [t]) + 1 && Through(ins, Entry(r)) == Through(ins, w)))
    ensures Counted(V', root, ins[p := ins[p] + [t]], m)
  {
    var w := ins[p];
    var r := V'[m];
    ExtendThrough(ins, p, t, w + [t]);
    if r.length > 1 {
      assert |Entry(r)| < |r.path|;
      ExtendThrough(ins, p, t, Entry(r));
      ThroughShrinks(ins, w, w + [t]);
      assert Through(ins, w + [t]) + {p} <= Through(ins, w);
      SubsetSize(Through(ins, w + [t]) + {p}, Through(ins, w));
    }
  }

  /** A child whose label loses its first token still carries the same occurrences. */
  lemma CountedShrunk(V: Snapshot, V': Snapshot, root: Node, ins: Inserted, p: Pos, t: Token, c: Node)
    requires p in ins && c in V && c in V' && c != root && Counted(V, root, ins, c)
    requires V'[c].path == V[c].path && V'[c].count == V[c].count && V'[c].length == V[c].length - 1 > 0
    requires Above(V[c]) == ins[p]
    ensures Counted(V', root, ins[p := ins[p] + [t]], c)
  {
    ExtendThrough(ins, p, t, V[c].path);
    ExtendThrough(ins, p, t, Entry(V'[c]));
    assert Entry(V'[c]) == V[c].path[..|V[c].path| - V[c].length + 2];
    LabelThrough(V, root, ins, c, Entry(V'[c]));
  }

  /** Only the child for t enters its label with the node's string followed by t. */
  lemma AwayFromChild(V: Snapshot, loc: Places, root: Node, n: Node, t: Token, x: Node)
    requires Shape(V, root) && Placed(V, loc) && n in V && x in V && x != root
    ensures Linked(V, x)
    ensures Entry(V[x]) == V[n].path + [t] <==> t in V[n].children && V[n].children[t] == x
  {
    assert Linked(V, x) && ChildrenOk(V, root, n);
    AppendInjective(Above(V[x]), V[x].token, V[n].path, t);
  }

  lemma AllCountedStep(V: Snapshot, V': Snapshot, loc: Places, root: Node, ins: Inserted,
                       p: Pos, n: Node, t: Token, near: set<Node>)
    requires Shape(V, root) && Placed(V, loc) && AllCounted(V, root, ins)
    requires p in ins && n in V && V[n].path == ins[p]
    requires forall x | x in V' && x in near :: Counted(V', root, ins[p := ins[p] + [t]], x)
    requires forall x | x in V' && x !in near ::
               && x in V && V'[x].path == V[x].path && V'[x].count == V[x].count && V'[x].length == V[x].length
    requires t in V[n].children ==> V[n].children[t] in near
    ensures AllCounted(V', root, ins[p := ins[p] + [t]])
  {
    forall x | x in V' ensures Counted(V', root, ins[p := ins[p] + [t]], x) {
      if x !in near {
        assert Counted(V, root, ins, x);
        if x != root {
          AwayFromChild(V, loc, root, n, t, x);
        }
        CountedAway(V, V', root, ins, p, t, x);
      }
    }
  }

  lemma RefsStep(V: Snapshot, V': Snapshot, root: Node, ins: Inserted, p: Pos, t: Token)
    requires RefsOk(V, root, ins) && p in ins
    requires forall x | x in V' && x != root ::
               || (x in V && V'[x].path == V[x].path && RefPos(V'[x]) == RefPos(V[x]))
               || (V'[x].path == ins[p] + [t] && RefPos(V'[x]) == p)
    ensures RefsOk(V', root, ins[p := ins[p] + [t]])
  {
    forall x | x in V' && x != root
      ensures RefOk(V', ins[p := ins[p] + [t]], x)
    {
      assert x in V ==> RefOk(V, ins, x);
      ExtendThrough(ins, p, t, V'[x].path);
    }
  }

  /** Endpoints after the step: the suffix is recorded at m instead of n, all else stays. */
  lemma EndpointsStep(V: Snapshot, loc: Places, V': Snapshot, loc': Places,
                      ins: Inserted, p: Pos, n: Node, last: int, t: Token, m: Node)
    requires EndpointsSound(V, ins) && EndpointsComplete(V, loc, ins, {}) && Placed(V, loc)
    requires Ready(loc, ins, p, n, last)
    requires m in V' && V'[m].path == ins[p] + [t] && ins[p] + [t] in loc' && loc'[ins[p] + [t]] == m
    requires forall x | x in loc && x != ins[p] :: x in loc' && loc'[x] == loc[x]
    requires forall x | x in V' && x != n && x != m ::
               x in V && V'[x].path == V[x].path && V'[x].endpoints == V[x].endpoints
    requires forall x | x in V && x != n :: x in V'
    requires V'[m].endpoints == (if m in V then V[m].endpoints else map[])[p.sid := last + 1]
    requires m in V && m != n ==> V[m].path == ins[p] + [t]
    requires n !in V' || m == n ==> forall q | q in ins && ins[q] == ins[p] :: q == p
    requires n in V' && n != m ==>
               V'[n].path == ins[p] && V'[n].endpoints == V[n].endpoints - {p.sid} && ins[p] in loc'
                 && loc'[ins[p]] == n
    ensures EndpointsSound(V', ins[p := ins[p] + [t]])
    ensures EndpointsComplete(V', loc', ins[p := ins[p] + [t]], {})
  {
    var w := ins[p];
    var ins' := ins[p := w + [t]];
    forall x, s | x in V' && s in V'[x].endpoints
      ensures EndpointOk(V', ins', x, s)
    {
      if x != m || s != p.sid {
        assert EndpointOk(V, ins, x, s);
        var r := Pos(s, V[x].endpoints[s] - |V[x].path|);
        assert forall q | q in ins' && q.sid == s && ins'[q] == ins[r] && q != p :: ins[q] == ins[r];
      }
    }
    forall q | q in ins' ensures EndRecorded(V', loc', ins', q) {
      assert EndRecorded(V, loc, ins, q);
    }
  }

  /** Only the suffix moved: every other stored suffix still ends at the node it ended at. */
  ghost predicate EndsKept(loc: Places, loc': Places, ins: Inserted, p: Pos, t: Token, m: Node)
    requires p in ins
  {
    && ins[p] + [t] in loc' && loc'[ins[p] + [t]] == m
    && forall q | q in ins && q != p :: ins[q] in loc && ins[q] in loc' && loc'[ins[q]] == loc[ins[q]]
  }

  lemma PlacedMoved(V: Snapshot, V': Snapshot, loc: Places, n: Node, w': Str)
    requires Placed(V, loc) && n in V && w' !in loc
    requires V'.Keys == V.Keys && V'[n].path == w'
    requires forall x | x in V && x != n :: V'[x].path == V[x].path
    ensures Placed(V', loc - {V[n].path} + map[w' := n])
  {
  }

  lemma EndsKeptStep(V: Snapshot, loc: Places, loc': Places, ins: Inserted, p: Pos, t: Token, m: Node)
    requires EndpointsComplete(V, loc, ins, {}) && p in ins
    requires ins[p] + [t] in loc' && loc'[ins[p] + [t]] == m
    requires forall x | x in loc && x != ins[p] :: x in loc' && loc'[x] == loc[x]
    requires (ins[p] in loc && ins[p] in loc' && loc'[ins[p]] == loc[ins[p]])
             || forall q | q in ins && ins[q] == ins[p] :: q == p
    ensures EndsKept(loc, loc', ins, p, t, m)
  {
    forall q | q in ins && q != p ensures ins[q] in loc && ins[q] in loc' && loc'[ins[q]] == loc[ins[q]] {
      assert EndRecorded(V, loc, ins, q);
    }
  }

  // ----- A new suffix starts at the root -----

  ghost function Plant(V: Snapshot, root: Node, p: Pos): Snapshot
    requires root in V
  {
    V[root := V[root].(count := V[root].count + 1, endpoints := V[root].endpoints[p.sid := p.start])]
  }

  /** No suffix of the same sequence starts after p. */
  ghost predicate Latest(ins: Inserted, p: Pos) {
    forall q | q in ins && q.sid == p.sid :: q.start <= p.start
  }

  lemma PlantOk(V: Snapshot, loc: Places, root: Node, ins: Inserted, p: Pos)
    requires Good(V, loc, root, ins) && p !in ins && Latest(ins, p)
    ensures Good(Plant(V, root, p), loc, root, ins[p := []])
  {
    PlantTree(V, loc, root, ins, p);
    PlantEnds(V, loc, root, ins, p);
  }

  lemma PlantThrough(ins: Inserted, p: Pos, x: Str)
    requires p !in ins
    ensures Through(ins[p := []], x) == if x == [] then Through(ins, x) + {p} else Through(ins, x)
    ensures Occ(ins[p := []], x) == Occ(ins, x) + if x == [] then 1 else 0
  {
    assert Through(ins[p := []], x) == if x == [] then Through(ins, x) + {p} else Through(ins, x);
  }

  lemma PlantTree(V: Snapshot, loc: Places, root: Node, ins: Inserted, p: Pos)
    requires Shape(V, root) && Canonical(loc, ins) && AllCounted(V, root, ins) && Placed(V, loc) && p !in ins
    ensures var V' := Plant(V, root, p);
            Shape(V', root) && Canonical(loc, ins[p := []]) && AllCounted(V', root, ins[p := []]) && Placed(V', loc)
  {
    var V' := Plant(V, root, p);
    forall x | x in V' && x != root ensures Linked(V', x) {
      assert Linked(V, x);
    }
    forall x | x in V' ensures ChildrenOk(V', root, x) && Counted(V', root, ins[p := []], x) {
      assert ChildrenOk(V, root, x);
      PlantCounted(V, root, ins, p, x);
    }
    forall w ensures w in loc <==> w == [] || Boundary(ins[p := []], w) {
      PlantBoundary(ins, p, w);
    }
  }

  lemma PlantCounted(V: Snapshot, root: Node, ins: Inserted, p: Pos, x: Node)
    requires Shape(V, root) && AllCounted(V, root, ins) && p !in ins && x in V
    ensures Counted(Plant(V, root, p), root, ins[p := []], x)
  {
    assert Counted(V, root, ins, x);
    PlantThrough(ins, p, V[x].path);
    if x != root {
      assert Linked(V, x);
      PlantThrough(ins, p, Entry(V[x]));
    }
  }

  lemma PlantBoundary(ins: Inserted, p: Pos, w: Str)
    requires p !in ins
    ensures Boundary(ins[p := []], w) <==> Boundary(ins, w)
  {
    PlantThrough(ins, p, w);
    forall t ensures Through(ins[p := []], w + [t]) == Through(ins, w + [t]) {
      PlantThrough(ins, p, w + [t]);
    }
  }

  lemma PlantEnds(V: Snapshot, loc: Places, root: Node, ins: Inserted, p: Pos)
    requires RefsOk(V, root, ins) && EndpointsSound(V, ins) && EndpointsComplete(V, loc, ins, {}) && p !in ins
    requires Latest(ins, p)
    requires root in V && V[root].path == [] && Placed(V, loc)
    ensures var V' := Plant(V, root, p); var ins' := ins[p := []];
            RefsOk(V', root, ins') && EndpointsSound(V', ins') && EndpointsComplete(V', loc, ins', {})
  {
    var V' := Plant(V, root, p);
    var ins' := ins[p := []];
    forall x | x in V' && x != root ensures RefOk(V', ins', x) {
      assert RefOk(V, ins, x);
    }
    forall x, s | x in V' && s in V'[x].endpoints ensures EndpointOk(V', ins', x, s) {
      assert (x == root && s == p.sid) || EndpointOk(V, ins, x, s);
    }
    forall q | q in ins' ensures EndRecorded(V', loc, ins', q) {
      assert q == p || EndRecorded(V, loc, ins, q);
    }
  }

  // ----- Case 1a: the only suffix through a leaf grows, and the leaf's label with it -----

  ghost function GrowLeaf(V: Snapshot, n: Node, sid: int, t: Token): Snapshot
    requires n in V && sid in V[n].endpoints
  {
    V[n := V[n].(length := V[n].length + 1,
                 endpoints := V[n].endpoints[sid := V[n].endpoints[sid] + 1],
                 path := V[n].path + [t])]
  }

  lemma GrowLeafShape(V: Snapshot, root: Node, n: Node, sid: int, t: Token)
    requires Shape(V, root)
    requires n != root && n in V && V[n].children == map[] && sid in V[n].endpoints
    ensures Shape(GrowLeaf(V, n, sid, t), root)
  {
    var V' := GrowLeaf(V, n, sid, t);
    forall x | x in V' && x != root ensures Linked(V', x) {
      assert Linked(V, x);
    }
    forall x | x in V' ensures ChildrenOk(V', root, x) {
      assert ChildrenOk(V, root, x);
    }
  }

  lemma GrowLeafCounted(V: Snapshot, loc: Places, root: Node, ins: Inserted, p: Pos, n: Node, t: Token)
    requires Shape(V, root) && Placed(V, loc) && AllCounted(V, root, ins)
    requires p in ins && n in V && n != root && V[n].path == ins[p] && p.sid in V[n].endpoints
    requires Through(ins, ins[p]) == {p} && t !in V[n].children && Through(ins, ins[p] + [t]) == {}
    ensures AllCounted(GrowLeaf(V, n, p.sid, t), root, ins[p := ins[p] + [t]])
  {
    var V' := GrowLeaf(V, n, p.sid, t);
    assert Counted(V', root, ins[p := ins[p] + [t]], n) by {
      assert Linked(V, n) && Counted(V, root, ins, n);
      assert Entry(V'[n]) == Entry(V[n]);
      CountedEnd(V', root, ins, p, t, n);
    }
    AllCountedStep(V, V', loc, root, ins, p, n, t, {n});
  }

  lemma GrowLeafEnds(V: Snapshot, loc: Places, root: Node, ins: Inserted, p: Pos, n: Node, last: int, t: Token)
    requires Placed(V, loc) && RefsOk(V, root, ins) && EndpointsSound(V, ins) && EndpointsComplete(V, loc, ins, {})
    requires Ready(loc, ins, p, n, last) && n != root && p.sid in V[n].endpoints && V[n].endpoints[p.sid] == last
    requires Through(ins, ins[p]) == {p} && ins[p] + [t] !in loc
    ensures var loc' := loc - {ins[p]} + map[ins[p] + [t] := n];
            var V' := GrowLeaf(V, n, p.sid, t);
            var ins' := ins[p := ins[p] + [t]];
            RefsOk(V', root, ins') && EndpointsSound(V', ins') && EndpointsComplete(V', loc', ins', {})
              && EndsKept(loc, loc', ins, p, t, n)
  {
    var loc' := loc - {ins[p]} + map[ins[p] + [t] := n];
    assert RefOk(V, ins, n);
    assert forall q | q in ins && ins[q] == ins[p] :: q in Through(ins, ins[p]);
    EndsKeptStep(V, loc, loc', ins, p, t, n);
    EndpointsStep(V, loc, GrowLeaf(V, n, p.sid, t), loc', ins, p, n, last, t, n);
    RefsStep(V, GrowLeaf(V, n, p.sid, t), root, ins, p, t);
  }

  lemma GrowLeafOk(V: Snapshot, loc: Places, root: Node, ins: Inserted, p: Pos, n: Node, last: int, t: Token)
    requires Good(V, loc, root, ins) && Ready(loc, ins, p, n, last)
    requires n in V && n != root && V[n].count == 1 && t !in V[n].children
    ensures p.sid in V[n].endpoints && V[n].children == map[]
    ensures var loc' := loc - {ins[p]} + map[ins[p] + [t] := n];
            && Good(GrowLeaf(V, n, p.sid, t), loc', root, ins[p := ins[p] + [t]])
            && EndsKept(loc, loc', ins, p, t, n)
  {
    var w := ins[p];
    ReadyEndpoint(V, loc, ins, p, n, last);
    LoneSuffix(V, loc, root, ins, p, n);
    assert !Boundary(ins, w + [t]);
    GrowLeafShape(V, root, n, p.sid, t);
    GrowLeafCounted(V, loc, root, ins, p, n, t);
    CanonicalStep(loc, loc - {w} + map[w + [t] := n], ins, p, t);
    GrowLeafEnds(V, loc, root, ins, p, n, last, t);
  }

  /** A node counted once is a leaf that only its own suffix reaches. */
  lemma LoneSuffix(V: Snapshot, loc: Places, root: Node, ins: Inserted, p: Pos, n: Node)
    requires Shape(V, root) && AllCounted(V, root, ins) && Placed(V, loc) && Canonical(loc, ins)
    requires RefsOk(V, root, ins) && p in ins && n in V && n != root && V[n].path == ins[p] && V[n].count == 1
    ensures Through(ins, ins[p]) == {p} && V[n].children == map[] && V[n].refSeq == p.sid
    ensures forall t :: Through(ins, ins[p] + [t]) == {}
  {
    var w := ins[p];
    assert Counted(V, root, ins, n) && RefOk(V, ins, n);
    SubsetSize({p}, Through(ins, w));
    forall t ensures Through(ins, w + [t]) == {} && t !in V[n].children {
      ThroughShrinks(ins, w, w + [t]);
      if t in V[n].children {
        ChildThrough(V, loc, root, ins, n, t);
        assert false;
      }
    }
  }

  // ----- Case 1b: a new leaf below the node -----

  ghost function AddLeaf(V: Snapshot, n: Node, m: Node, sid: int, last: int, t: Token): Snapshot
    requires n in V
  {
    V[m := Rec(1, t, 1, sid, last, map[sid := last + 1], n, map[], V[n].path + [t])]
     [n := V[n].(children := V[n].children[t := m], endpoints := V[n].endpoints - {sid})]
  }

  lemma AddLeafShape(V: Snapshot, root: Node, n: Node, m: Node, sid: int, last: int, t: Token)
    requires Shape(V, root)
    requires n in V && m !in V && t !in V[n].children
    ensures Shape(AddLeaf(V, n, m, sid, last, t), root)
  {
    var V' := AddLeaf(V, n, m, sid, last, t);
    forall x | x in V' && x != root ensures Linked(V', x) {
      AddLeafLinked(V, root, n, m, sid, last, t, x);
    }
    forall x | x in V' ensures ChildrenOk(V', root, x) {
      AddLeafChildren(V, root, n, m, sid, last, t, x);
    }
  }

  lemma AddLeafLinked(V: Snapshot, root: Node, n: Node, m: Node, sid: int, last: int, t: Token, x: Node)
    requires Shape(V, root)
    requires n in V && m !in V && t !in V[n].children && (x == m || (x in V && x != root))
    ensures Linked(AddLeaf(V, n, m, sid, last, t), x)
  {
    assert x in V ==> Linked(V, x);
  }

  lemma AddLeafChildren(V: Snapshot, root: Node, n: Node, m: Node, sid: int, last: int, t: Token, x: Node)
    requires Shape(V, root)
    requires n in V && m !in V && t !in V[n].children && (x == m || x in V)
    ensures ChildrenOk(AddLeaf(V, n, m, sid, last, t), root, x)
  {
    assert x in V ==> ChildrenOk(V, root, x);
  }

  lemma AddLeafCounted(V: Snapshot, loc: Places, root: Node, ins: Inserted, p: Pos, n: Node, m: Node, last: int,
                       t: Token)
    requires Shape(V, root) && Placed(V, loc) && AllCounted(V, root, ins)
    requires p in ins && n in V && m !in V && V[n].path == ins[p] && t !in V[n].children
    requires Through(ins, ins[p] + [t]) == {}
    ensures AllCounted(AddLeaf(V, n, m, p.sid, last, t), root, ins[p := ins[p] + [t]])
  {
    var V' := AddLeaf(V, n, m, p.sid, last, t);
    CountedEnd(V', root, ins, p, t, m);
    AllCountedStep(V, V', loc, root, ins, p, n, t, {m});
  }

  lemma AddLeafEnds(V: Snapshot, loc: Places, root: Node, ins: Inserted, p: Pos, n: Node, m: Node, last: int, t: Token)
    requires Placed(V, loc) && RefsOk(V, root, ins) && EndpointsSound(V, ins) && EndpointsComplete(V, loc, ins, {})
    requires Ready(loc, ins, p, n, last) && m !in V && ins[p] + [t] !in loc
    ensures var loc' := loc[ins[p] + [t] := m];
            var V' := AddLeaf(V, n, m, p.sid, last, t);
            var ins' := ins[p := ins[p] + [t]];
            RefsOk(V', root, ins') && EndpointsSound(V', ins') && EndpointsComplete(V', loc', ins', {})
              && EndsKept(loc, loc', ins, p, t, m)
  {
    var loc' := loc[ins[p] + [t] := m];
    EndsKeptStep(V, loc, loc', ins, p, t, m);
    EndpointsStep(V, loc, AddLeaf(V, n, m, p.sid, last, t), loc', ins, p, n, last, t, m);
    RefsStep(V, AddLeaf(V, n, m, p.sid, last, t), root, ins, p, t);
  }

  lemma AddLeafOk(V: Snapshot, loc: Places, root: Node, ins: Inserted, p: Pos, n: Node, m: Node, last: int, t: Token)
    requires Good(V, loc, root, ins) && Ready(loc, ins, p, n, last)
    requires n in V && m !in V && t !in V[n].children && !(V[n].count == 1 && n != root)
    ensures var loc' := loc[ins[p] + [t] := m];
            && Good(AddLeaf(V, n, m, p.sid, last, t), loc', root, ins[p := ins[p] + [t]])
            && EndsKept(loc, loc', ins, p, t, m)
  {
    NoChild(V, loc, root, ins, n, t);
    assert Counted(V, root, ins, n);
    assert !Boundary(ins, ins[p] + [t]);
    AddLeafShape(V, root, n, m, p.sid, last, t);
    AddLeafCounted(V, loc, root, ins, p, n, m, last, t);
    CanonicalStep(loc, loc[ins[p] + [t] := m], ins, p, t);
    AddLeafEnds(V, loc, root, ins, p, n, m, last, t);
  }

  // ----- Case 2: all other suffixes through the node continue with the token -----

  /** When a child counts one less than its parent, only p ends at the parent, and the child is
      the only one. */
  lemma OnlyChild(V: Snapshot, loc: Places, root: Node, ins: Inserted, p: Pos, n: Node, t: Token)
    requires Shape(V, root) && AllCounted(V, root, ins) && Placed(V, loc) && Canonical(loc, ins)
    requires p in ins && n in V && n != root && V[n].path == ins[p] && t in V[n].children
    requires V[n].children[t] in V && V[n].count == V[V[n].children[t]].count + 1
    ensures Occ(ins, ins[p]) == Occ(ins, ins[p] + [t]) + 1
    ensures forall q | q in ins && ins[q] == ins[p] :: q == p
    ensures V[n].children == map[t := V[n].children[t]]
  {
    var w := ins[p];
    assert Counted(V, root, ins, n);
    ChildThrough(V, loc, root, ins, n, t);
    ThroughShrinks(ins, w, w + [t]);
    assert p in Through(ins, w) && p !in Through(ins, w + [t]);
    SubsetSize(Through(ins, w + [t]) + {p}, Through(ins, w));
    forall q | q in ins && ins[q] == w ensures q == p {
      assert q in Through(ins, w) && q !in Through(ins, w + [t]);
    }
    forall u | u in V[n].children ensures u == t {
      if u != t {
        assert p !in Through(ins, w + [u]);
        BranchesDisjoint(ins, w, t, u);
        ThroughShrinks(ins, w, w + [u]);
        ChildThrough(V, loc, root, ins, n, u);
        assert false;
      }
    }
  }

  // Case 2a: the child's label is that one token, so the node is absorbed by the child.

  ghost function Fuse(V: Snapshot, n: Node, c: Node, sid: int, last: int): Snapshot
    requires n in V && c in V && V[n].parent != null && V[n].parent in V
  {
    var u := V[n].parent;
    (V[c := V[c].(count := V[c].count + 1,
                  token := V[n].token,
                  length := V[n].length + 1,
                  refSeq := sid,
                  refIdx := last + 1 - (V[n].length + 1),
                  endpoints := V[c].endpoints[sid := last + 1],
                  parent := u)]
      [u := V[u].(children := V[u].children[V[n].token := c])]) - {n}
  }

  lemma FuseShape(V: Snapshot, loc: Places, root: Node, n: Node, c: Node, sid: int, last: int, t: Token)
    requires Shape(V, root) && Placed(V, loc)
    requires n in V && n != root && t in V[n].children && V[n].children == map[t := c] && c in V && V[c].length == 1
    ensures V[n].parent != null && V[n].parent in V
    ensures Shape(Fuse(V, n, c, sid, last), root)
  {
    assert Linked(V, n) && Linked(V, c) && ChildrenOk(V, root, n);
    var u := V[n].parent;
    var V' := Fuse(V, n, c, sid, last);
    forall x | x in V' && x != root ensures Linked(V', x) {
      FuseLinked(V, loc, root, n, c, sid, last, t, x);
    }
    forall x | x in V' ensures ChildrenOk(V', root, x) {
      FuseChildren(V, root, n, c, sid, last, t, x);
    }
  }

  lemma FuseLinked(V: Snapshot, loc: Places, root: Node, n: Node, c: Node, sid: int, last: int, t: Token, x: Node)
    requires Shape(V, root) && Placed(V, loc)
    requires n in V && n != root && t in V[n].children && V[n].children == map[t := c] && c in V && V[c].length == 1
    requires V[n].parent != null && V[n].parent in V && x in V && x != n && x != root
    ensures Linked(Fuse(V, n, c, sid, last), x)
  {
    assert Linked(V, n) && Linked(V, c) && ChildrenOk(V, root, n) && Linked(V, x);
  }

  lemma FuseChildren(V: Snapshot, root: Node, n: Node, c: Node, sid: int, last: int, t: Token, x: Node)
    requires Shape(V, root)
    requires n in V && n != root && t in V[n].children && V[n].children == map[t := c] && c in V && x in V && x != n
    requires V[n].parent != null && V[n].parent in V && V[n].parent != c
    ensures ChildrenOk(Fuse(V, n, c, sid, last), root, x)
  {
    assert ChildrenOk(V, root, x) && ChildrenOk(V, root, n) && Linked(V, n);
  }

  lemma FuseCounted(V: Snapshot, loc: Places, root: Node, ins: Inserted, p: Pos, n: Node, c: Node, last: int, t: Token)
    requires Shape(V, root) && Placed(V, loc) && AllCounted(V, root, ins) && Canonical(loc, ins)
    requires p in ins && n in V && n != root && V[n].path == ins[p] && t in V[n].children && V[n].children[t] == c
    requires c in V && V[c].length == 1 && Occ(ins, ins[p]) == Occ(ins, ins[p] + [t]) + 1
    requires V[n].parent != null && V[n].parent in V
    ensures AllCounted(Fuse(V, n, c, p.sid, last), root, ins[p := ins[p] + [t]])
  {
    var V' := Fuse(V, n, c, p.sid, last);
    ChildThrough(V, loc, root, ins, n, t);
    assert V[c].path == ins[p] + [t];
    assert Linked(V, n) && Counted(V, root, ins, n);
    assert Entry(V'[c]) == Entry(V[n]);
    CountedEnd(V', root, ins, p, t, c);
    AllCountedStep(V, V', loc, root, ins, p, n, t, {c});
  }

  lemma FuseEnds(V: Snapshot, loc: Places, root: Node, ins: Inserted, p: Pos, n: Node, c: Node, last: int, t: Token)
    requires Placed(V, loc) && RefsOk(V, root, ins) && EndpointsSound(V, ins) && EndpointsComplete(V, loc, ins, {})
    requires Ready(loc, ins, p, n, last) && c in V && c != n && V[c].path == ins[p] + [t]
    requires V[n].parent != null && V[n].parent in V && V[n].parent != n && V[n].parent != c
    requires forall q | q in ins && ins[q] == ins[p] :: q == p
    ensures var loc' := loc - {ins[p]};
            var V' := Fuse(V, n, c, p.sid, last);
            var ins' := ins[p := ins[p] + [t]];
            RefsOk(V', root, ins') && EndpointsSound(V', ins') && EndpointsComplete(V', loc', ins', {})
              && EndsKept(loc, loc', ins, p, t, c)
  {
    var loc' := loc - {ins[p]};
    EndsKeptStep(V, loc, loc', ins, p, t, c);
    EndpointsStep(V, loc, Fuse(V, n, c, p.sid, last), loc', ins, p, n, last, t, c);
    RefsStep(V, Fuse(V, n, c, p.sid, last), root, ins, p, t);
  }

  lemma FuseOk(V: Snapshot, loc: Places, root: Node, ins: Inserted, p: Pos, n: Node, c: Node, last: int, t: Token)
    requires Good(V, loc, root, ins) && Ready(loc, ins, p, n, last)
    requires n in V && n != root && t in V[n].children && V[n].children[t] == c && c in V
    requires V[n].count == V[c].count + 1 && V[c].length == 1
    ensures V[n].parent != null && V[n].parent in V
    ensures Good(Fuse(V, n, c, p.sid, last), loc - {ins[p]}, root, ins[p := ins[p] + [t]])
    ensures EndsKept(loc, loc - {ins[p]}, ins, p, t, c)
  {
    OnlyChild(V, loc, root, ins, p, n, t);
    ChildThrough(V, loc, root, ins, n, t);
    assert Linked(V, n);
    assert V[c].path == ins[p] + [t];
    FuseShape(V, loc, root, n, c, p.sid, last, t);
    FuseCounted(V, loc, root, ins, p, n, c, last, t);
    CanonicalStep(loc, loc - {ins[p]}, ins, p, t);
    FuseEnds(V, loc, root, ins, p, n, c, last, t);
  }

  // Case 2b: the child's label is longer, so its first token moves up into the node's label.

  ghost function Slide(V: Snapshot, n: Node, c: Node, sid: int, last: int, t: Token, t2: Token): Snapshot
    requires n in V && c in V && sid in V[n].endpoints
  {
    V[n := V[n].(length := V[n].length + 1,
                 endpoints := V[n].endpoints[sid := V[n].endpoints[sid] + 1],
                 refSeq := sid,
                 refIdx := last + 1 - (V[n].length + 1),
                 children := (V[n].children - {t})[t2 := c],
                 path := V[n].path + [t])]
     [c := V[c].(length := V[c].length - 1, refIdx := V[c].refIdx + 1, token := t2)]
  }

  lemma SlideLinked(V: Snapshot, root: Node, n: Node, c: Node, sid: int, last: int, t: Token, t2: Token, x: Node)
    requires Shape(V, root)
    requires n in V && n != root && V[n].children == map[t := c] && sid in V[n].endpoints
    requires c in V && c != n && V[c].length > 1 && Linked(V, c) && V[c].parent == n && V[c].token == t
    requires |V[n].path| + 1 < |V[c].path| && t2 == V[c].path[|V[n].path| + 1]
    requires x in V && x != root
    ensures Linked(Slide(V, n, c, sid, last, t, t2), x)
  {
    assert Linked(V, x);
    var V' := Slide(V, n, c, sid, last, t, t2);
    if x == c {
      assert Above(V'[c]) == Above(V[c]) + [t];
    } else if x == n {
      assert Above(V'[n]) == Above(V[n]);
    }
  }

  lemma SlideShape(V: Snapshot, loc: Places, root: Node, n: Node, c: Node, sid: int, last: int, t: Token, t2: Token)
    requires Shape(V, root) && Placed(V, loc)
    requires n in V && n != root && V[n].children == map[t := c] && sid in V[n].endpoints
    requires c in V && V[c].length > 1 && |V[n].path| + 1 < |V[c].path| && t2 == V[c].path[|V[n].path| + 1]
    ensures Shape(Slide(V, n, c, sid, last, t, t2), root)
  {
    assert ChildrenOk(V, root, n);
    assert V[n].children[t] == c && Linked(V, c);
    var V' := Slide(V, n, c, sid, last, t, t2);
    forall x | x in V' && x != root ensures Linked(V', x) {
      SlideLinked(V, root, n, c, sid, last, t, t2, x);
    }
    forall x | x in V' ensures ChildrenOk(V', root, x) {
      SlideChildren(V, root, n, c, sid, last, t, t2, x);
    }
  }

  lemma SlideChildren(V: Snapshot, root: Node, n: Node, c: Node, sid: int, last: int, t: Token, t2: Token, x: Node)
    requires Shape(V, root) && n in V && V[n].children == map[t := c] && sid in V[n].endpoints && c in V && c != n
             && x in V
    ensures ChildrenOk(Slide(V, n, c, sid, last, t, t2), root, x)
  {
    assert ChildrenOk(V, root, x) && ChildrenOk(V, root, n);
    assert t in V[n].children && V[n].children[t] == c;
    var V' := Slide(V, n, c, sid, last, t, t2);
    forall u | u in V'[x].children ensures var d := V'[x].children[u];
           d in V' && d != root && V'[d].parent == x && V'[d].token == u {
      if x != n {
        assert u in V[x].children && V[x].children[u] != c;
      }
    }
  }

  lemma SlideCounted(V: Snapshot, loc: Places, root: Node, ins: Inserted, p: Pos, n: Node, c: Node, last: int,
                     t: Token, t2: Token)
    requires Shape(V, root) && Placed(V, loc) && AllCounted(V, root, ins) && Canonical(loc, ins)
    requires p in ins && n in V && n != root && V[n].path == ins[p] && t in V[n].children && V[n].children[t] == c
    requires c in V && c != n && V[c].length > 1 && V[n].count == V[c].count + 1
    requires Occ(ins, ins[p]) == Occ(ins, ins[p] + [t]) + 1 && p.sid in V[n].endpoints
    ensures AllCounted(Slide(V, n, c, p.sid, last, t, t2), root, ins[p := ins[p] + [t]])
  {
    var V' := Slide(V, n, c, p.sid, last, t, t2);
    ChildThrough(V, loc, root, ins, n, t);
    assert Linked(V, n) && Counted(V, root, ins, n);
    assert Entry(V'[n]) == Entry(V[n]);
    CountedEnd(V', root, ins, p, t, n);
    CountedShrunk(V, V', root, ins, p, t, c);
    AllCountedStep(V, V', loc, root, ins, p, n, t, {n, c});
  }

  lemma SlideRefs(V: Snapshot, root: Node, ins: Inserted, p: Pos, n: Node, c: Node, last: int, t: Token, t2: Token)
    requires RefsOk(V, root, ins) && p in ins && p.start + |ins[p]| == last
    requires n in V && V[n].path == ins[p] && c in V && c != n && p.sid in V[n].endpoints
    ensures RefsOk(Slide(V, n, c, p.sid, last, t, t2), root, ins[p := ins[p] + [t]])
  {
    RefsStep(V, Slide(V, n, c, p.sid, last, t, t2), root, ins, p, t);
  }

  lemma SlideEndpoints(V: Snapshot, loc: Places, ins: Inserted, p: Pos, n: Node, c: Node, last: int, t: Token,
                       t2: Token)
    requires Placed(V, loc) && EndpointsSound(V, ins) && EndpointsComplete(V, loc, ins, {})
    requires Ready(loc, ins, p, n, last) && p.sid in V[n].endpoints && V[n].endpoints[p.sid] == last
    requires c in V && c != n && ins[p] + [t] !in loc
    requires forall q | q in ins && ins[q] == ins[p] :: q == p
    ensures var loc' := loc - {ins[p]} + map[ins[p] + [t] := n];
            var V' := Slide(V, n, c, p.sid, last, t, t2);
            var ins' := ins[p := ins[p] + [t]];
            EndpointsSound(V', ins') && EndpointsComplete(V', loc', ins', {})
  {
    var loc' := loc - {ins[p]} + map[ins[p] + [t] := n];
    EndpointsStep(V, loc, Slide(V, n, c, p.sid, last, t, t2), loc', ins, p, n, last, t, n);
  }

  lemma SlideEnds(V: Snapshot, loc: Places, root: Node, ins: Inserted, p: Pos, n: Node, c: Node, last: int, t: Token,
                  t2: Token)
    requires Placed(V, loc) && RefsOk(V, root, ins) && EndpointsSound(V, ins) && EndpointsComplete(V, loc, ins, {})
    requires Ready(loc, ins, p, n, last) && p.sid in V[n].endpoints && V[n].endpoints[p.sid] == last
    requires c in V && c != n && ins[p] + [t] !in loc
    requires forall q | q in ins && ins[q] == ins[p] :: q == p
    ensures var loc' := loc - {ins[p]} + map[ins[p] + [t] := n];
            var V' := Slide(V, n, c, p.sid, last, t, t2);
            var ins' := ins[p := ins[p] + [t]];
            RefsOk(V', root, ins') && EndpointsSound(V', ins') && EndpointsComplete(V', loc', ins', {})
              && EndsKept(loc, loc', ins, p, t, n)
  {
    var loc' := loc - {ins[p]} + map[ins[p] + [t] := n];
    EndsKeptStep(V, loc, loc', ins, p, t, n);
    SlideEndpoints(V, loc, ins, p, n, c, last, t, t2);
    SlideRefs(V, root, ins, p, n, c, last, t, t2);
  }

  lemma SlideCanonical(V: Snapshot, loc: Places, ins: Inserted, p: Pos, n: Node, t: Token)
    requires Canonical(loc, ins) && p in ins && ins[p] != []
    requires Occ(ins, ins[p]) == Occ(ins, ins[p] + [t]) + 1 && ins[p] + [t] !in loc
    ensures Canonical(loc - {ins[p]} + map[ins[p] + [t] := n], ins[p := ins[p] + [t]])
  {
    CanonicalStep(loc, loc - {ins[p]} + map[ins[p] + [t] := n], ins, p, t);
  }

  lemma SlideTree(V: Snapshot, loc: Places, root: Node, ins: Inserted, p: Pos, n: Node, c: Node, last: int, t: Token,
                  t2: Token)
    requires Shape(V, root) && AllCounted(V, root, ins) && Placed(V, loc) && Canonical(loc, ins)
    requires p in ins && n in V && V[n].path == ins[p] && ins[p] != [] && n != root && V[n].children == map[t := c]
             && c in V
    requires V[n].count == V[c].count + 1 && V[c].length > 1 && p.sid in V[n].endpoints
    requires Occ(ins, ins[p]) == Occ(ins, ins[p] + [t]) + 1 && ins[p] + [t] !in loc
    requires |V[n].path| + V[c].length == |V[c].path| && t2 == V[c].path[|V[n].path| + 1]
    ensures var loc' := loc - {ins[p]} + map[ins[p] + [t] := n];
            var V' := Slide(V, n, c, p.sid, last, t, t2);
            var ins' := ins[p := ins[p] + [t]];
            Shape(V', root) && Placed(V', loc') && Canonical(loc', ins') && AllCounted(V', root, ins')
  {
    var w := ins[p];
    assert V[n].children[t] == c;
    SlideShape(V, loc, root, n, c, p.sid, last, t, t2);
    SlideCounted(V, loc, root, ins, p, n, c, last, t, t2);
    PlacedMoved(V, Slide(V, n, c, p.sid, last, t, t2), loc, n, w + [t]);
    SlideCanonical(V, loc, ins, p, n, t);
  }

  lemma SlideOk(V: Snapshot, loc: Places, root: Node, ins: Inserted, p: Pos, n: Node, c: Node, last: int, t: Token,
                t2: Token)
    requires Good(V, loc, root, ins) && Ready(loc, ins, p, n, last)
    requires n in V && n != root && t in V[n].children && V[n].children[t] == c && c in V
    requires V[n].count == V[c].count + 1 && V[c].length != 1
    requires |V[n].path| + 1 < |V[c].path| ==> t2 == V[c].path[|V[n].path| + 1]
    ensures p.sid in V[n].endpoints
    ensures var loc' := loc - {ins[p]} + map[ins[p] + [t] := n];
            && Good(Slide(V, n, c, p.sid, last, t, t2), loc', root, ins[p := ins[p] + [t]])
            && EndsKept(loc, loc', ins, p, t, n)
  {
    ReadyEndpoint(V, loc, ins, p, n, last);
    OnlyChild(V, loc, root, ins, p, n, t);
    InsideLabel(V, loc, root, ins, n, c, t);
    SlideTree(V, loc, root, ins, p, n, c, last, t, t2);
    SlideEnds(V, loc, root, ins, p, n, c, last, t, t2);
  }

  // ----- Case 3: the suffix moves on into the child -----

  // Case 3a: the child's label is that one token.

  ghost function Descend(V: Snapshot, n: Node, c: Node, sid: int, last: int): Snapshot
    requires n in V && c in V
  {
    V[n := V[n].(endpoints := V[n].endpoints - {sid})]
     [c := V[c].(count := V[c].count + 1, endpoints := V[c].endpoints[sid := last + 1])]
  }

  lemma DescendShape(V: Snapshot, root: Node, n: Node, c: Node, sid: int, last: int)
    requires Shape(V, root) && n in V && c in V && c != n
    ensures Shape(Descend(V, n, c, sid, last), root)
  {
    var V' := Descend(V, n, c, sid, last);
    forall x | x in V' && x != root ensures Linked(V', x) {
      assert Linked(V, x);
    }
    forall x | x in V' ensures ChildrenOk(V', root, x) {
      assert ChildrenOk(V, root, x);
    }
  }

  lemma DescendCounted(V: Snapshot, loc: Places, root: Node, ins: Inserted, p: Pos, n: Node, c: Node, last: int,
                       t: Token)
    requires Shape(V, root) && Placed(V, loc) && AllCounted(V, root, ins) && Canonical(loc, ins)
    requires p in ins && n in V && V[n].path == ins[p] && t in V[n].children && V[n].children[t] == c
    requires c in V && c != n && V[c].length == 1
    ensures AllCounted(Descend(V, n, c, p.sid, last), root, ins[p := ins[p] + [t]])
  {
    var V' := Descend(V, n, c, p.sid, last);
    ChildThrough(V, loc, root, ins, n, t);
    assert V[c].path == ins[p] + [t];
    CountedEnd(V', root, ins, p, t, c);
    AllCountedStep(V, V', loc, root, ins, p, n, t, {c});
  }

  lemma DescendEnds(V: Snapshot, loc: Places, root: Node, ins: Inserted, p: Pos, n: Node, c: Node, last: int, t: Token)
    requires Placed(V, loc) && RefsOk(V, root, ins) && EndpointsSound(V, ins) && EndpointsComplete(V, loc, ins, {})
    requires Ready(loc, ins, p, n, last) && c in V && c != n && V[c].path == ins[p] + [t]
    ensures var V' := Descend(V, n, c, p.sid, last);
            var ins' := ins[p := ins[p] + [t]];
            RefsOk(V', root, ins') && EndpointsSound(V', ins') && EndpointsComplete(V', loc, ins', {})
              && EndsKept(loc, loc, ins, p, t, c)
  {
    EndsKeptStep(V, loc, loc, ins, p, t, c);
    EndpointsStep(V, loc, Descend(V, n, c, p.sid, last), loc, ins, p, n, last, t, c);
    RefsStep(V, Descend(V, n, c, p.sid, last), root, ins, p, t);
  }

  /** The child with a label of one token ends where the suffix does after the turn. */
  lemma DescendPlace(V: Snapshot, loc: Places, root: Node, ins: Inserted, p: Pos, n: Node, c: Node, last: int, t: Token)
    requires Good(V, loc, root, ins) && Ready(loc, ins, p, n, last)
    requires n in V && t in V[n].children && V[n].children[t] == c && c in V && V[c].length == 1
    ensures c != n && V[n].path == ins[p] && V[c].path == ins[p] + [t]
  {
    assert V[n].path == ins[p] by {
      hide Shape, Canonical, AllCounted, RefsOk, EndpointsSound, EndpointsComplete;
    }
    hide Ready, RefsOk, EndpointsSound, EndpointsComplete;
    ChildThrough(V, loc, root, ins, n, t);
    hide *;
    ChildAbove(V, n, c, t);
  }

  lemma ChildAbove(V: Snapshot, n: Node, c: Node, t: Token)
    requires n in V && c in V && V[n].path + [t] <= V[c].path && V[c].length == 1 && V[n].path == Above(V[c])
    ensures V[c].path == V[n].path + [t] && c != n
  {
  }

  /** No place comes or goes: the child is one already, and the node stays one. */
  lemma DescendStays(V: Snapshot, loc: Places, root: Node, ins: Inserted, p: Pos, n: Node, c: Node, last: int, t: Token)
    requires Good(V, loc, root, ins) && Ready(loc, ins, p, n, last)
    requires n in V && t in V[n].children && V[n].children[t] == c && c in V
    requires V[n].path == ins[p] && V[c].path == ins[p] + [t]
    requires !(V[n].count == V[c].count + 1 && n != root)
    ensures ins[p] in loc && ins[p] + [t] in loc
    ensures ins[p] != [] ==> Occ(ins, ins[p]) != Occ(ins, ins[p] + [t]) + 1
  {
    assert V[n].count == Occ(ins, ins[p]) by {
      assert Counted(V, root, ins, n);
    }
    ChildThrough(V, loc, root, ins, n, t);
    hide AllCounted, Canonical, RefsOk, EndpointsSound, EndpointsComplete;
  }

  lemma DescendPlaced(V: Snapshot, loc: Places, root: Node, n: Node, c: Node, sid: int, last: int)
    requires Placed(V, loc) && n in V && c in V && c != n
    ensures Placed(Descend(V, n, c, sid, last), loc)
  {
  }

  lemma DescendOk(V: Snapshot, loc: Places, root: Node, ins: Inserted, p: Pos, n: Node, c: Node, last: int, t: Token)
    requires Good(V, loc, root, ins) && Ready(loc, ins, p, n, last)
    requires n in V && t in V[n].children && V[n].children[t] == c && c in V
    requires !(V[n].count == V[c].count + 1 && n != root) && V[c].length == 1
    ensures Good(Descend(V, n, c, p.sid, last), loc, root, ins[p := ins[p] + [t]])
    ensures EndsKept(loc, loc, ins, p, t, c)
  {
    DescendPlace(V, loc, root, ins, p, n, c, last, t);
    DescendStays(V, loc, root, ins, p, n, c, last, t);
    GoodParts(V, loc, root, ins);
    DescendPlaced(V, loc, root, n, c, p.sid, last);
    hide *;
    DescendShape(V, root, n, c, p.sid, last);
    DescendCounted(V, loc, root, ins, p, n, c, last, t);
    CanonicalStep(loc, loc, ins, p, t);
    DescendEnds(V, loc, root, ins, p, n, c, last, t);
  }

  // Case 3b: the child's label is longer, so its first token becomes a node of its own.

  ghost function Split(V: Snapshot, n: Node, c: Node, m: Node, sid: int, last: int, t: Token, t2: Token): Snapshot
    requires n in V && c in V
  {
    V[n := V[n].(endpoints := V[n].endpoints - {sid}, children := V[n].children[t := m])]
     [c := V[c].(length := V[c].length - 1, refIdx := V[c].refIdx + 1, token := t2, parent := m)]
     [m := Rec(V[c].count + 1, t, 1, sid, last, map[sid := last + 1], n, map[t2 := c], V[n].path + [t])]
  }

  lemma SplitLinked(V: Snapshot, root: Node, n: Node, c: Node, m: Node, sid: int, last: int, t: Token, t2: Token,
                    x: Node)
    requires Shape(V, root)
    requires n in V && m !in V && c in V && c != n && t in V[n].children && V[n].children[t] == c
    requires V[c].length > 1 && Linked(V, c) && V[c].parent == n && V[c].token == t
    requires |V[n].path| + 1 < |V[c].path| && t2 == V[c].path[|V[n].path| + 1]
    requires x == m || (x in V && x != root)
    ensures Linked(Split(V, n, c, m, sid, last, t, t2), x)
  {
    var V' := Split(V, n, c, m, sid, last, t, t2);
    if x == c {
      assert Above(V'[c]) == Above(V[c]) + [t];
    } else if x == m {
      assert Above(V'[m]) == V[n].path;
    } else {
      assert Linked(V, x);
    }
  }

  lemma SplitChildren(V: Snapshot, root: Node, n: Node, c: Node, m: Node, sid: int, last: int, t: Token, t2: Token,
                      x: Node)
    requires Shape(V, root)
    requires n in V && m !in V && c in V && c != n && t in V[n].children && V[n].children[t] == c
    requires x == m || x in V
    ensures ChildrenOk(Split(V, n, c, m, sid, last, t, t2), root, x)
  {
    assert ChildrenOk(V, root, n);
    if x != m {
      assert ChildrenOk(V, root, x);
    }
  }

  lemma SplitShape(V: Snapshot, root: Node, n: Node, c: Node, m: Node, sid: int, last: int, t: Token, t2: Token)
    requires Shape(V, root)
    requires n in V && m !in V && c in V && c != n && t in V[n].children && V[n].children[t] == c
    requires V[c].length > 1 && |V[n].path| + 1 < |V[c].path| && t2 == V[c].path[|V[n].path| + 1]
    ensures Shape(Split(V, n, c, m, sid, last, t, t2), root)
  {
    var V' := Split(V, n, c, m, sid, last, t, t2);
    assert ChildrenOk(V, root, n) && Linked(V, c);
    forall x | x in V' && x != root ensures Linked(V', x) {
      SplitLinked(V, root, n, c, m, sid, last, t, t2, x);
    }
    forall x | x in V' ensures ChildrenOk(V', root, x) {
      SplitChildren(V, root, n, c, m, sid, last, t, t2, x);
    }
  }

  lemma SplitCounted(V: Snapshot, loc: Places, root: Node, ins: Inserted, p: Pos, n: Node, c: Node, m: Node,
                     last: int, t: Token, t2: Token)
    requires Shape(V, root) && Placed(V, loc) && AllCounted(V, root, ins) && Canonical(loc, ins)
    requires p in ins && n in V && V[n].path == ins[p] && t in V[n].children && V[n].children[t] == c
    requires c in V && c != n && m !in V && V[c].length > 1
    ensures AllCounted(Split(V, n, c, m, p.sid, last, t, t2), root, ins[p := ins[p] + [t]])
  {
    var V' := Split(V, n, c, m, p.sid, last, t, t2);
    ChildThrough(V, loc, root, ins, n, t);
    CountedEnd(V', root, ins, p, t, m);
    CountedShrunk(V, V', root, ins, p, t, c);
    AllCountedStep(V, V', loc, root, ins, p, n, t, {m, c});
  }

  lemma SplitEnds(V: Snapshot, loc: Places, root: Node, ins: Inserted, p: Pos, n: Node, c: Node, m: Node, last: int,
                  t: Token, t2: Token)
    requires Placed(V, loc) && RefsOk(V, root, ins) && EndpointsSound(V, ins) && EndpointsComplete(V, loc, ins, {})
    requires Ready(loc, ins, p, n, last) && c in V && c != n && m !in V && ins[p] + [t] !in loc
    ensures var loc' := loc[ins[p] + [t] := m];
            var V' := Split(V, n, c, m, p.sid, last, t, t2);
            var ins' := ins[p := ins[p] + [t]];
            RefsOk(V', root, ins') && EndpointsSound(V', ins') && EndpointsComplete(V', loc', ins', {})
              && EndsKept(loc, loc', ins, p, t, m)
  {
    var loc' := loc[ins[p] + [t] := m];
    EndsKeptStep(V, loc, loc', ins, p, t, m);
    EndpointsStep(V, loc, Split(V, n, c, m, p.sid, last, t, t2), loc', ins, p, n, last, t, m);
    RefsStep(V, Split(V, n, c, m, p.sid, last, t, t2), root, ins, p, t);
  }

  lemma SplitTree(V: Snapshot, loc: Places, root: Node, ins: Inserted, p: Pos, n: Node, c: Node, m: Node, last: int,
                  t: Token, t2: Token)
    requires Shape(V, root) && AllCounted(V, root, ins) && Placed(V, loc) && Canonical(loc, ins)
    requires p in ins && n in V && V[n].path == ins[p] && t in V[n].children && V[n].children[t] == c && c in V
             && c != n
    requires ins[p] == [] || Occ(ins, ins[p]) != Occ(ins, ins[p] + [t]) + 1
    requires m !in V && V[c].length > 1 && ins[p] + [t] !in loc
    requires |V[n].path| + V[c].length == |V[c].path| && t2 == V[c].path[|V[n].path| + 1]
    ensures var loc' := loc[ins[p] + [t] := m];
            var V' := Split(V, n, c, m, p.sid, last, t, t2);
            var ins' := ins[p := ins[p] + [t]];
            Shape(V', root) && Placed(V', loc') && Canonical(loc', ins') && AllCounted(V', root, ins')
  {
    hide Shape, AllCounted, Canonical, Linked;
    SplitShape(V, root, n, c, m, p.sid, last, t, t2);
    SplitCounted(V, loc, root, ins, p, n, c, m, last, t, t2);
    CanonicalStep(loc, loc[ins[p] + [t] := m], ins, p, t);
  }

  lemma SplitOk(V: Snapshot, loc: Places, root: Node, ins: Inserted, p: Pos, n: Node, c: Node, m: Node, last: int,
                t: Token, t2: Token)
    requires Good(V, loc, root, ins) && Ready(loc, ins, p, n, last)
    requires n in V && t in V[n].children && V[n].children[t] == c && c in V && m !in V
    requires !(V[n].count == V[c].count + 1 && n != root) && V[c].length != 1
    requires |V[n].path| + 1 < |V[c].path| ==> t2 == V[c].path[|V[n].path| + 1]
    ensures var loc' := loc[ins[p] + [t] := m];
            && Good(Split(V, n, c, m, p.sid, last, t, t2), loc', root, ins[p := ins[p] + [t]])
            && EndsKept(loc, loc', ins, p, t, m)
  {
    ChildThrough(V, loc, root, ins, n, t);
    InsideLabel(V, loc, root, ins, n, c, t);
    assert Counted(V, root, ins, n);
    SplitTree(V, loc, root, ins, p, n, c, m, last, t, t2);
    SplitEnds(V, loc, root, ins, p, n, c, m, last, t, t2);
  }
}
