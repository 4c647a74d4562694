/**
 The suffix tree (class SuffixTree): append, extend and remove, changing nodes in place.
 */
module SuffixTrees {
  import opened Suffixes
  import opened Contents
  import opened Nodes
  import opened Trie
  import opened TrieAppend
  import opened TrieRemove
  import opened TrieKids
  import opened Sequences
  import opened SiblingOrder
  import opened NodeWrites

  lemma KidIndex(V: Snapshot, K: Lists, root: Node, n: Node, t: Token)
    requires Shape(V, root) && AllKids(V, K) && n in V && t in V[n].children
    ensures n in K
    ensures var c := V[n].children[t]; c in K[n] && Kid(V, K, root, n, IndexOf(K[n], c), c) && V[c].token == t
  {
    assert KidsAt(V, K, n) && Listed(V, n, K[n], t) && ChildrenOk(V, root, n);
    KidAt(V, K, root, n, IndexOf(K[n], V[n].children[t]));
  }

  // ----- The windows of active nodes -----

  ghost predicate ActiveAt(act: seq<Node>, loc: Places, ins: Inserted, sid: int, first: int, j: int)
    requires 0 <= j < |act|
  {
    var p := Pos(sid, first + j);
    p in ins && ins[p] in loc && act[j] == loc[ins[p]]
  }

  /** Entry j of the window is the node where the suffix from position first + j ends. */
  ghost predicate Window(act: seq<Node>, loc: Places, ins: Inserted, sid: int, first: int) {
    forall j {:trigger ActiveAt(act, loc, ins, sid, first, j)} | 0 <= j < |act| ::
             ActiveAt(act, loc, ins, sid, first, j)
  }

  ghost predicate ActiveFor(active: map<int, seq<Node>>, seqs: Seqs, depth: int, loc: Places, ins: Inserted, sid: int)
    requires sid in seqs
  {
    && sid in active
    && |active[sid]| == (if |seqs[sid]| <= depth then |seqs[sid]| else depth)
    && Window(active[sid], loc, ins, sid, |seqs[sid]| - |active[sid]|)
  }

  /** The active nodes of a sequence are where its last suffixes, at most depth many, end. */
  ghost predicate ActiveOk(active: map<int, seq<Node>>, seqs: Seqs, depth: int, loc: Places, ins: Inserted,
                           but: set<int>)
  {
    forall s {:trigger ActiveFor(active, seqs, depth, loc, ins, s)} | s in seqs && s !in but ::
             ActiveFor(active, seqs, depth, loc, ins, s)
  }

  lemma ActiveKept(active: map<int, seq<Node>>, seqs: Seqs, active': map<int, seq<Node>>, seqs': Seqs, depth: int,
                   loc: Places, loc': Places, ins: Inserted, ins': Inserted, but: set<int>)
    requires ActiveOk(active, seqs, depth, loc, ins, but)
    requires forall s | s in seqs' && s !in but :: s in seqs && seqs'[s] == seqs[s]
    requires forall s | s in active && s !in but :: s in active' && active'[s] == active[s]
    requires forall q | q in ins && q.sid !in but ::
               q in ins' && ins'[q] == ins[q] && ins[q] in loc && ins[q] in loc' && loc'[ins[q]] == loc[ins[q]]
    ensures ActiveOk(active', seqs', depth, loc', ins', but)
  {
    forall s | s in seqs' && s !in but ensures ActiveFor(active', seqs', depth, loc', ins', s) {
      assert ActiveFor(active, seqs, depth, loc, ins, s);
      var act, first := active'[s], |seqs'[s]| - |active'[s]|;
      forall j | 0 <= j < |act| ensures ActiveAt(act, loc', ins', s, first, j) {
        assert ActiveAt(act, loc, ins, s, first, j);
      }
    }
  }

  lemma WindowStep(act: seq<Node>, loc: Places, loc': Places, ins: Inserted, sid: int, first: int, i: nat, t: Token,
                   m: Node)
    requires Window(act, loc, ins, sid, first) && i < |act| && Pos(sid, first + i) in ins
    requires EndsKept(loc, loc', ins, Pos(sid, first + i), t, m)
    ensures var p := Pos(sid, first + i); Window(act[i := m], loc', ins[p := ins[p] + [t]], sid, first)
  {
    var p := Pos(sid, first + i);
    var act', ins' := act[i := m], ins[p := ins[p] + [t]];
    forall j | 0 <= j < |act'| ensures ActiveAt(act', loc', ins', sid, first, j) {
      assert ActiveAt(act, loc, ins, sid, first, j);
    }
  }

  /** The state of the windows between two turns of the append loop: suffixes of sid from before
      position cut have the token. */
  ghost predicate Midway(active: map<int, seq<Node>>, seqs0: Seqs, depth: int, loc: Places, sid: int, t: Token,
                         act: seq<Node>, cut: int)
  {
    && depth >= 1 && sid in seqs0 && sid in active
    && var s := seqs0[sid];
    && |act| == |s| + 1 - WindowStart(s, depth)
    && Window(act, loc, Growing(seqs0, sid, t, depth, cut), sid, WindowStart(s, depth))
    && ActiveOk(active, seqs0, depth, loc, Growing(seqs0, sid, t, depth, cut), {sid})
  }

  /** An entry of the window for the longer sequence, from the window before it. */
  lemma WindowShifts(was: seq<Node>, act: seq<Node>, loc: Places, st: Inserted, ins: Inserted, sid: int, n: nat,
                     first: nat, drop: nat, root: Node, j: nat)
    requires Window(was, loc, st, sid, n - |was|) && drop <= 1 <= |was| + 1 - drop && act == (was + [root])[drop..]
             && j < |act|
    requires first == n - |was| + drop && ins == st[Pos(sid, n) := []] && Pos(sid, n) !in st && [] in loc
             && loc[[]] == root
    ensures ActiveAt(act, loc, ins, sid, first, j)
  {
    if j < |act| - 1 {
      assert ActiveAt(was, loc, st, sid, n - |was|, j + drop);
    }
  }

  /** Adding the root and dropping the oldest entry gives the window for the longer sequence. */
  lemma BeginWindow(active: map<int, seq<Node>>, seqs: Seqs, depth: int, loc: Places, root: Node, sid: int, t: Token)
    requires depth >= 1 && sid in seqs && ActiveOk(active, seqs, depth, loc, Stored(seqs, depth), {})
    requires [] in loc && loc[[]] == root
    ensures sid in active
    ensures var act := active[sid] + [root];
            Midway(active, seqs, depth, loc, sid, t, if |act| > depth then act[1..] else act,
                   WindowStart(seqs[sid], depth))
  {
    var s := seqs[sid];
    var st, p, first := Stored(seqs, depth), Pos(sid, |s|), WindowStart(s, depth);
    var ins := Growing(seqs, sid, t, depth, first);
    assert ins == st[p := []] && p !in st by { GrowingStarts(seqs, sid, t, depth); }
    assert ActiveFor(active, seqs, depth, loc, st, sid);
    hide Growing, Stored, Appended;
    var was := active[sid];
    var drop := if |was| + 1 > depth then 1 else 0;
    var act := (was + [root])[drop..];
    assert act == if |was + [root]| > depth then (was + [root])[1..] else was + [root];
    forall j: nat | j < |act| ensures ActiveAt(act, loc, ins, sid, first, j) {
      WindowShifts(was, act, loc, st, ins, sid, |s|, first, drop, root, j);
    }
    forall x | x in seqs && x != sid ensures ActiveFor(active, seqs, depth, loc, ins, x) {
      BeginOthers(active, seqs, depth, loc, st, ins, x);
    }
  }

  lemma BeginOthers(active: map<int, seq<Node>>, seqs: Seqs, depth: int, loc: Places, st: Inserted, ins: Inserted,
                    x: int)
    requires x in seqs && ActiveFor(active, seqs, depth, loc, st, x)
    requires forall q | q in st :: q in ins && ins[q] == st[q]
    ensures ActiveFor(active, seqs, depth, loc, ins, x)
  {
    var act, first := active[x], |seqs[x]| - |active[x]|;
    forall j | 0 <= j < |act| ensures ActiveAt(act, loc, ins, x, first, j) {
      assert ActiveAt(act, loc, st, x, first, j);
    }
  }

  lemma MidwayStep(active: map<int, seq<Node>>, seqs0: Seqs, depth: int, loc: Places, loc': Places, sid: int, t: Token,
                   act: seq<Node>, i: nat, m: Node)
    requires i < |act| && depth >= 1 && sid in seqs0
    requires Midway(active, seqs0, depth, loc, sid, t, act, WindowStart(seqs0[sid], depth) + i)
    requires var p := Pos(sid, WindowStart(seqs0[sid], depth) + i); var ins := Growing(seqs0, sid, t, depth, p.start);
             p in ins && EndsKept(loc, loc', ins, p, t, m)
    ensures Midway(active, seqs0, depth, loc', sid, t, act[i := m], WindowStart(seqs0[sid], depth) + i + 1)
  {
    var first := WindowStart(seqs0[sid], depth);
    var p := Pos(sid, first + i);
    var ins := Growing(seqs0, sid, t, depth, first + i);
    GrowingStep(seqs0, sid, t, depth, first + i);
    WindowStep(act, loc, loc', ins, sid, first, i, t, m);
    ActiveKept(active, seqs0, active, seqs0, depth, loc, loc', ins, ins[p := ins[p] + [t]], {sid});
  }

  /** In the window, the next suffix to take the token is ready for it. */
  lemma MidwayReady(active: map<int, seq<Node>>, seqs0: Seqs, depth: int, loc: Places, sid: int, t: Token,
                    act: seq<Node>, i: nat)
    requires i < |act| && depth >= 1 && sid in seqs0
    requires Midway(active, seqs0, depth, loc, sid, t, act, WindowStart(seqs0[sid], depth) + i)
    ensures var p := Pos(sid, WindowStart(seqs0[sid], depth) + i);
            Ready(loc, Growing(seqs0, sid, t, depth, p.start), p, act[i], |seqs0[sid]|)
  {
    var first := WindowStart(seqs0[sid], depth);
    var ins := Growing(seqs0, sid, t, depth, first + i);
    GrowingStep(seqs0, sid, t, depth, first + i);
    assert ActiveAt(act, loc, ins, sid, first, i);
    forall q | q in ins && q.sid == sid && ins[q] == seqs0[sid][first + i..] ensures q == Pos(sid, first + i) {
      GrowingUnique(seqs0, sid, t, depth, first + i, q);
    }
    forall q | q in ins && q.sid == sid && q.start > first + i ensures |ins[q]| <= |seqs0[sid][first + i..]| {
      GrowingShorter(seqs0, sid, t, depth, first + i, q);
    }
  }

  lemma MidwayEnds(active: map<int, seq<Node>>, seqs0: Seqs, depth: int, loc: Places, sid: int, t: Token,
                   act: seq<Node>)
    requires sid in seqs0 && Midway(active, seqs0, depth, loc, sid, t, act, |seqs0[sid]| + 1)
    ensures var seqs := Appended(seqs0, sid, t);
            && Growing(seqs0, sid, t, depth, |seqs0[sid]| + 1) == Stored(seqs, depth)
            && ActiveOk(active[sid := act], seqs, depth, loc, Stored(seqs, depth), {})
  {
    GrowingEnds(seqs0, sid, t, depth);
    var seqs := Appended(seqs0, sid, t);
    var active', ins := active[sid := act], Stored(seqs, depth);
    forall s | s in seqs ensures ActiveFor(active', seqs, depth, loc, ins, s) {
      if s != sid {
        assert ActiveFor(active, seqs0, depth, loc, ins, s);
      }
    }
  }

  lemma EmptyStores(seqs: Seqs, depth: int, sid: int)
    requires depth >= 1 && sid !in seqs
    ensures Stored(seqs[sid := []], depth) == Stored(seqs, depth)
  {
    var seqs' := seqs[sid := []];
    forall p ensures p in Stored(seqs', depth) <==> p in Stored(seqs, depth) {
    }
    forall p | p in Stored(seqs, depth) ensures Stored(seqs', depth)[p] == Stored(seqs, depth)[p] {
    }
  }

  lemma NewSequence(active: map<int, seq<Node>>, seqs: Seqs, depth: int, loc: Places, sid: int)
    requires depth >= 1 && sid !in seqs && ActiveOk(active, seqs, depth, loc, Stored(seqs, depth), {})
    ensures Stored(seqs[sid := []], depth) == Stored(seqs, depth)
    ensures ActiveOk(active[sid := []], seqs[sid := []], depth, loc, Stored(seqs, depth), {})
  {
    EmptyStores(seqs, depth, sid);
    hide Stored;
    var active', seqs', ins := active[sid := []], seqs[sid := []], Stored(seqs, depth);
    forall s | s in seqs' ensures ActiveFor(active', seqs', depth, loc, ins, s) {
      if s != sid {
        assert ActiveFor(active, seqs, depth, loc, ins, s);
      }
    }
  }

  lemma ChildFacts(V: Snapshot, root: Node, n: Node, t: Token)
    requires Shape(V, root) && n in V && t in V[n].children
    ensures var c := V[n].children[t];
            c in V && c != n && c != root && Linked(V, c) && V[c].parent == n && V[c].token == t
  {
    assert ChildrenOk(V, root, n);
    assert Linked(V, V[n].children[t]);
  }

  lemma ParentFacts(V: Snapshot, K: Lists, root: Node, n: Node)
    requires Shape(V, root) && AllKids(V, K) && n in V && n != root
    ensures Linked(V, n) && V[n].parent != n
    ensures var u: Node := V[n].parent; n in K[u] && Kid(V, K, root, u, IndexOf(K[u], n), n)
  {
    assert Linked(V, n);
    KidIndex(V, K, root, V[n].parent, V[n].token);
  }

  lemma ChildAboveParent(V: Snapshot, root: Node, n: Node, c: Node)
    requires n in V && c in V && Linked(V, n) && Linked(V, c) && V[c].parent == n
    ensures V[n].parent != c
  {
  }

  lemma CountsPositive(V: Snapshot, loc: Places, root: Node, ins: Inserted)
    requires Placed(V, loc) && Canonical(loc, ins) && AllCounted(V, root, ins) && root in V && V[root].path == []
    ensures forall x | x in V && x != root :: V[x].count >= 1
  {
    forall x | x in V && x != root ensures V[x].count >= 1 {
      assert Counted(V, root, ins, x);
      assert Boundary(ins, V[x].path);
    }
  }

  /** The second token of a label is read from the reference sequence. */
  lemma SecondToken(V: Snapshot, loc: Places, root: Node, ins: Inserted, seqs: Seqs, n: Node, t: Token)
    requires Shape(V, root) && Placed(V, loc) && Canonical(loc, ins) && AllCounted(V, root, ins)
             && RefsOk(V, root, ins) && Spelled(ins, seqs)
    requires n in V && t in V[n].children && V[n].children[t] in V && V[V[n].children[t]].length != 1
    ensures var r := V[V[n].children[t]];
            && r.refSeq in seqs && 0 <= r.refIdx + 1 < |seqs[r.refSeq]|
            && |V[n].path| + 1 < |r.path| && seqs[r.refSeq][r.refIdx + 1] == r.path[|V[n].path| + 1]
  {
    var c := V[n].children[t];
    ChildFacts(V, root, n, t);
    InsideLabel(V, loc, root, ins, n, c, t);
    LabelText(V, root, ins, seqs, c, 1);
  }

  lemma EmptyHolds(V: Snapshot, K: Lists, loc: Places, root: Node, ins: Inserted)
    requires V == map[root := Rec(0, 0, 0, 0, -1, map[], null, map[], [])] && K == map[root := []]
             && loc == map[[] := root]
    requires ins == map[]
    ensures Good(V, loc, root, ins) && AllKids(V, K)
  {
    forall w ensures w in loc <==> w == [] || Boundary(ins, w) {
    }
    assert KidsAt(V, K, root);
  }

  /** One suffix of sequence sid less at c. */
  ghost function Lowered(W: Snapshot, c: Node, sid: int): Snapshot
    requires c in W
  {
    W[c := W[c].(count := W[c].count - 1, endpoints := W[c].endpoints - {sid})]
  }

  lemma WalkTurnOk(V0: Snapshot, W: Snapshot, K: Lists, loc: Places, root: Node, ins: Inserted, ins0: Inserted,
                   p: Pos, n: Node, c: Node, path: seq<Node>)
    requires Waning(V0, loc, root, ins, ins0, p.sid) && p in ins && n in V0 && V0[n].path <= ins[p]
             && |V0[n].path| < |ins[p]|
    requires W == Walked(V0, ins[p], |V0[n].path|, p.sid) && AllKids(W, K) && PathTo(V0, path, V0[n].path)
    requires ins[p][|V0[n].path|] in W[n].children && W[n].children[ins[p][|V0[n].path|]] == c
    ensures c in V0 && c in W && n in W && W[c].length == V0[c].length > 0 && W[c].count == V0[c].count && c != n
            && c != root
    ensures V0[c].path <= ins[p] && |V0[c].path| == |V0[n].path| + V0[c].length
    ensures Lowered(W, c, p.sid) == Walked(V0, ins[p], |V0[c].path|, p.sid)
    ensures PathTo(V0, path + [c], V0[c].path)
    ensures n in K && c in K[n]
    ensures var i := IndexOf(K[n], c); var j := LoweredIndex(Counts(W, K[n]), i);
            && j < |K[n]|
            && AllKids(Lowered(W, c, p.sid), K[n := Moved(K[n], i, j)])
  {
    hide Walked, AllKids, PathTo, Placed, Canonical, AllCounted, Shape, Linked, Kid, Pending;
    WalkNext(V0, loc, root, ins, p, n);
    WalkStep(V0, loc, root, ins, p, n, c);
    PathExtend(V0, loc, root, ins, path, n, c);
    WalkedShape(V0, root, ins[p], |V0[n].path|, p.sid);
    KidIndex(W, K, root, n, ins[p][|V0[n].path|]);
    LowerKids(W, K, root, n, c, p.sid, IndexOf(K[n], c));
  }

  /** The stored strings are nonempty, at most depth long, and among those of ins0. */
  ghost predicate Within(ins: Inserted, ins0: Inserted, depth: int) {
    forall q {:trigger ins[q]} | q in ins :: 1 <= |ins[q]| <= depth && q in ins0 && ins0[q] == ins[q]
  }

  lemma WithinLess(ins: Inserted, ins0: Inserted, depth: int, p: Pos)
    requires Within(ins, ins0, depth)
    ensures Within(ins - {p}, ins0, depth)
  {
  }

  ghost predicate EndsSame(loc: Places, loc': Places, ins: Inserted) {
    forall q {:trigger ins[q]} | q in ins && ins[q] in loc :: ins[q] in loc' && loc'[ins[q]] == loc[ins[q]]
  }

  lemma EndsSameTwice(loc: Places, loc': Places, loc'': Places, ins: Inserted)
    requires EndsSame(loc, loc', ins) && EndsSame(loc', loc'', ins)
    ensures EndsSame(loc, loc'', ins)
  {
  }

  /** The windows of the other sequences while the suffixes of sid go. */
  lemma RemovingActive(active: map<int, seq<Node>>, seqs: Seqs, depth: int, loc: Places, loc': Places, V: Snapshot,
                       sid: int, start: int)
    requires depth >= 1 && sid in seqs && 0 <= start < |seqs[sid]|
    requires ActiveOk(active, seqs, depth, loc, Waned(seqs, sid, depth, start), {sid})
    requires EndpointsComplete(V, loc, Waned(seqs, sid, depth, start), {sid})
    requires EndsSame(loc, loc', Waned(seqs, sid, depth, start + 1))
    ensures ActiveOk(active, seqs, depth, loc', Waned(seqs, sid, depth, start + 1), {sid})
  {
    var ins, ins' := Waned(seqs, sid, depth, start), Waned(seqs, sid, depth, start + 1);
    WanedStep(seqs, sid, depth, start);
    forall q | q in ins && q.sid != sid ensures q in ins' && ins'[q] == ins[q] && ins[q] in loc && ins[q] in loc'
           && loc'[ins[q]] == loc[ins[q]] {
      assert EndRecorded(V, loc, ins, q);
    }
    ActiveKept(active, seqs, active, seqs, depth, loc, loc', ins, ins', {sid});
  }

  lemma RemovedActive(active: map<int, seq<Node>>, seqs: Seqs, depth: int, loc: Places, sid: int, ins: Inserted)
    requires ActiveOk(active, seqs, depth, loc, ins, {sid})
    ensures ActiveOk(active - {sid}, seqs - {sid}, depth, loc, ins, {})
  {
    var active', seqs' := active - {sid}, seqs - {sid};
    forall s | s in seqs' ensures ActiveFor(active', seqs', depth, loc, ins, s) {
      assert ActiveFor(active, seqs, depth, loc, ins, s);
    }
  }

  lemma DropTurnOk(V0: Snapshot, W: Snapshot, K: Lists, loc: Places, root: Node, ins: Inserted, ins0: Inserted,
                   p: Pos, n: Node, c: Node, path: seq<Node>)
    requires Waning(V0, loc, root, ins, ins0, p.sid) && p in ins && n in V0 && V0[n].path <= ins[p]
             && |V0[n].path| < |ins[p]|
    requires n != root ==> V0[n].count > 1
    requires W == Walked(V0, ins[p], |V0[n].path|, p.sid) && AllKids(W, K) && PathTo(V0, path, V0[n].path)
    requires ins[p][|V0[n].path|] in W[n].children && W[n].children[ins[p][|V0[n].path|]] == c
             && (c in W ==> W[c].count == 1)
    ensures n in W && c in W && c != n && c != root && W[c].path == ins[p]
    ensures var V1 := DropLeaf(W, n, c, ins[p][|V0[n].path|]);
            && n in V1 && Walk(V1, loc - {ins[p]}, root, ins - {p}, ins0, p.sid, ins[p], n)
            && n in K && c in K[n] && AllKids(V1, (K - {c})[n := RemoveAt(K[n], IndexOf(K[n], c))])
            && PathTo(V1, path, V1[n].path)
    ensures EndsSame(loc, loc - {ins[p]}, ins - {p})
  {
    hide AllKids, PathTo, Placed, Canonical, AllCounted, Shape, Linked, Kid, Pending, Walk;
    var t := ins[p][|V0[n].path|];
    WalkNext(V0, loc, root, ins, p, n);
    LoneChild(V0, loc, root, ins, p, c);
    EndAtLeaf(V0, loc, root, ins, ins0, p, n, c, t);
    WalkedShape(V0, root, ins[p], |V0[n].path|, p.sid);
    KidIndex(W, K, root, n, t);
    DropLeafKids(W, K, root, n, c, t, IndexOf(K[n], c));
    PathKept(V0, DropLeaf(W, n, c, t), path, V0[n].path);
    assert forall q | q in ins && ins[q] == ins[p] :: q in Through(ins, ins[p]);
  }

  lemma WalkEndOk(V0: Snapshot, W: Snapshot, K: Lists, loc: Places, root: Node, ins: Inserted, ins0: Inserted, p: Pos,
                  n: Node, path: seq<Node>)
    requires Waning(V0, loc, root, ins, ins0, p.sid) && p in ins && n in V0 && V0[n].path == ins[p] && ins[p] != []
    requires n != root ==> V0[n].count > 1
    requires W == Walked(V0, ins[p], |V0[n].path|, p.sid) && AllKids(W, K) && PathTo(V0, path, V0[n].path)
    ensures n in W && Walk(W, loc, root, ins - {p}, ins0, p.sid, ins[p], n) && PathTo(W, path, W[n].path)
  {
    EndAtNode(V0, loc, root, ins, ins0, p, n);
    PathKept(V0, W, path, V0[n].path);
  }

  lemma WalkChildOk(V0: Snapshot, W: Snapshot, loc: Places, root: Node, ins: Inserted, ins0: Inserted, p: Pos,
                    n: Node, s: Str, depth: int)
    requires Waning(V0, loc, root, ins, ins0, p.sid) && p in ins && n in V0 && V0[n].path <= ins[p]
    requires W == Walked(V0, ins[p], |V0[n].path|, p.sid)
    requires 0 <= p.start && p.start + |V0[n].path| < |s| && depth >= 0 && ins[p] == Cut(s, p.start, depth)
    requires forall q | q in ins :: |ins[q]| <= depth
    ensures n in W
    ensures var t := s[p.start + |V0[n].path|];
            && (t in W[n].children <==> |V0[n].path| < |ins[p]|)
            && (|V0[n].path| < |ins[p]| ==>
                 t == ins[p][|V0[n].path|] && W[n].children[t] in W && W[W[n].children[t]].count >= 1)
  {
    assert ins[p] <= s[p.start..];
    WalkChild(V0, loc, root, ins, p, n, s, depth);
    if |V0[n].path| < |ins[p]| {
      WalkNext(V0, loc, root, ins, p, n);
      CountsPositive(V0, loc, root, ins);
    }
  }

  lemma UnrepairedFacts(V: Snapshot, loc: Places, root: Node, ins: Inserted, ins0: Inserted, sid: int, y: Str, z: Str,
                        depth: int)
    requires Unrepaired(V, loc, root, ins, ins0, sid, y, z) && depth >= 0 && forall q | q in ins :: |ins[q]| <= depth
    ensures Shape(V, root) && forall x | x in V :: |V[x].path| <= depth
  {
    forall x | x in V ensures |V[x].path| <= depth {
      if V[x].path != [] {
        assert Boundary(ins, V[x].path);
        var q :| q in Through(ins, V[x].path);
        assert |V[x].path| <= |ins[q]|;
      }
    }
  }

  lemma RepairedIsSame(V: Snapshot, z: Str, q: Pos, sid: int)
    ensures SameButRefs(V, Repaired(V, z, q, sid))
  {
  }

  lemma WaningEndpoints(V: Snapshot, loc: Places, root: Node, ins: Inserted, ins0: Inserted, sid: int)
    requires Waning(V, loc, root, ins, ins0, sid)
    ensures EndpointsComplete(V, loc, ins, {sid})
  {
  }

  lemma WanedWithin(seqs: Seqs, sid: int, depth: int, start: int)
    requires depth >= 1
    ensures Within(Waned(seqs, sid, depth, start), Stored(seqs, depth), depth)
  {
    WanedBounds(seqs, sid, depth, start);
  }

  lemma SeqOfKnown(seqs: Seqs, sid: int)
    requires sid in seqs
    ensures SeqOf(seqs, sid) == seqs[sid]
  {
  }

  lemma RootPath(V: Snapshot, loc: Places, root: Node, ins: Inserted, ins0: Inserted, sid: int)
    requires Waning(V, loc, root, ins, ins0, sid)
    ensures root in V && V[root].path == []
  {
  }

  lemma PrefixFull(a: Str, b: Str)
    requires a <= b && |a| == |b|
    ensures a == b
  {
  }

  lemma SomeKey<T>(m: map<int, T>)
    requires m != map[]
    ensures exists t :: t in m
  {
    assert (forall t :: t !in m) ==> m == map[];
  }

  lemma OneKey(m: map<Token, Node>, t: Token)
    requires t in m && |m| == 1
    ensures m.Keys == {t}
  {
    assert m.Keys == {t} + (m.Keys - {t});
    assert |m.Keys| == 1 + |m.Keys - {t}|;
  }

  lemma MergeStepFacts(V: Snapshot, K: Lists, loc: Places, root: Node, ins: Inserted, ins0: Inserted, sid: int,
                       y: Str, n: Node, path: seq<Node>)
    requires Walk(V, loc, root, ins, ins0, sid, y, n)
    ensures n in V && forall t | t in V[n].children :: V[n].children[t] in V
    ensures Mergeable(V, root, n) ==> n != root && |V[n].children| == 1 && forall t | t in V[n].children ::
              V[V[n].children[t]].count == V[n].count
  {
    assert ChildrenOk(V, root, n);
    if Mergeable(V, root, n) {
      var t :| V[n].children.Keys == {t} && V[n].children[t] in V && V[V[n].children[t]].count == V[n].count;
      assert |V[n].children| == |V[n].children.Keys| == 1;
    }
  }

  lemma MergeStepOk(V: Snapshot, K: Lists, loc: Places, root: Node, ins: Inserted, ins0: Inserted, sid: int, y: Str,
                    n: Node, c: Node, t: Token, path: seq<Node>)
    requires Walk(V, loc, root, ins, ins0, sid, y, n) && n != root && AllKids(V, K) && PathTo(V, path, V[n].path)
    requires V[n].children.Keys == {t} && V[n].children[t] == c && c in V && V[c].count == V[n].count
    ensures V[n].parent != null && V[n].parent in V && c != n && V[n].parent != n && V[n].parent != c
    ensures var u: Node := V[n].parent; var V1 := Merge(V, n, c);
            && u in K && n in K[u] && AllKids(V1, (K - {n})[u := K[u][IndexOf(K[u], n) := c]])
            && c in V1 && V1[c].path == V[c].path
            && Unrepaired(V1, loc - {V[n].path}, root, ins, ins0, sid, y, V[c].path)
            && path != [] && PathTo(V1, path[|path| - 1 := c], V[c].path)
    ensures EndsSame(loc, loc - {V[n].path}, ins)
  {
    assert t in V[n].children;
    MergeChildCount(V, root, ins, n, t);
    ParentFacts(V, K, root, n);
    ChildAboveParent(V, root, n, c);
    MergeOk(V, loc, root, ins, ins0, sid, y, n, c, t);
    MergeKids(V, K, root, n, c, V[n].parent, IndexOf(K[V[n].parent], n));
    PathMerge(V, loc, root, ins, path, n, c);
  }

  class SuffixTree {
    const maxDepth: int
    const root: Node
    var seqs: Seqs
    var active: map<int, seq<Node>>
    ghost var nodes: set<Node>
    ghost var loc: Places

    ghost function V(): Snapshot
      reads this`nodes, nodes
    {
      map n | n in nodes :: n.Get()
    }

    ghost function K(): Lists
      reads this`nodes, nodes
    {
      map n | n in nodes :: n.kids
    }

    /** The nodes form the trie of what is stored, and list their children by count. */
    ghost predicate Holds(ins: Inserted)
      reads this`nodes, this`loc, nodes
    {
      Good(V(), loc, root, ins) && AllKids(V(), K())
    }

    ghost predicate Valid()
      reads this, nodes
    {
      && maxDepth >= 1
      && active.Keys == seqs.Keys
      && Holds(Stored(seqs, maxDepth))
      && ActiveOk(active, seqs, maxDepth, loc, Stored(seqs, maxDepth), {})
    }

    constructor (maxDepth: int)
      requires maxDepth >= 1
      ensures Valid() && this.maxDepth == maxDepth && seqs == map[] && fresh(nodes)
    {
      this.maxDepth := maxDepth;
      var r := new Node.Root();
      root := r;
      seqs, active := map[], map[];
      nodes, loc := {r}, map[[] := r];
      new;
      hide Good, AllKids;
      EmptyHolds(V(), K(), loc, root, Stored(seqs, maxDepth));
    }

    lemma CountsNow(n: Node)
      requires n in nodes && AllKids(V(), K())
      ensures KidCounts(n.kids) == Counts(V(), n.kids)
    {
      assert KidsAt(V(), K(), n);
      forall i | 0 <= i < |n.kids| ensures n.kids[i] in nodes {
        assert KidOk(V(), n, n.kids, i);
      }
    }

    // ----- The branches of append: what changes -----

    method GrowLeafChange(sid: int, t: Token, n: Node)
      requires n in nodes && sid in n.endpoints
      modifies this`loc, n
      ensures V() == GrowLeaf(old(V()), n, sid, t) && K() == old(K())
      ensures loc == old(loc) - {old(n.path)} + map[old(n.path) + [t] := n]
    {
      hide Node.Get;
      n.GetIs();
      loc := loc - {n.path} + map[n.path + [t] := n];
      GrowLeafWrites(sid, t, n);
    }

    method AddLeafChange(sid: int, last: int, t: Token, n: Node) returns (m: Node)
      requires n in nodes
      modifies this`loc, this`nodes, n
      ensures fresh(m) && nodes == old(nodes) + {m}
      ensures V() == AddLeaf(old(V()), n, m, sid, last, t) && K() == old(K())[m := []][n := old(n.kids) + [m]]
      ensures loc == old(loc)[old(n.path) + [t] := m]
    {
      hide Node.Get;
      n.GetIs();
      ghost var V0, K0 := V(), K();
      ghost var w := n.path + [t];
      m := AddLeafWrites(sid, last, t, n);
      loc := loc[w := m];
      nodes := nodes + {m};
      forall x | x in nodes && x != n && x != m ensures x.Get() == V0[x] && x.kids == K0[x] {
      }
      ghost var W, K1 := AddLeaf(V0, n, m, sid, last, t), K0[m := []][n := K0[n] + [m]];
      forall x | x in nodes ensures x in W && x.Get() == W[x] && x in K1 && x.kids == K1[x] {
      }
      assert V() == W && K() == K1;
    }

    method FuseChange(sid: int, last: int, n: Node, c: Node, u: Node)
      requires n in nodes && c in nodes && n != c && n.parent == u && u in nodes && u != n && u != c && n in u.kids
      modifies this`loc, this`nodes, c, u
      ensures nodes == old(nodes) - {n}
      ensures V() == Fuse(old(V()), n, c, sid, last)
      ensures K() == (old(K()) - {n})[u := old(u.kids)[IndexOf(old(u.kids), n) := c]]
      ensures loc == old(loc) - {old(n.path)}
    {
      hide Node.Get;
      n.GetIs();
      c.GetIs();
      u.GetIs();
      FuseWrites(sid, last, n, c, u);
      nodes := nodes - {n};
      loc := loc - {n.path};
    }

    method SlideChange(sid: int, last: int, t: Token, t2: Token, n: Node, c: Node)
      requires n in nodes && c in nodes && n != c && sid in n.endpoints && t in n.children && n.children[t] == c
      modifies this`loc, n, c
      ensures V() == Slide(old(V()), n, c, sid, last, t, t2) && K() == old(K())
      ensures loc == old(loc) - {old(n.path)} + map[old(n.path) + [t] := n]
    {
      hide Node.Get;
      n.GetIs();
      c.GetIs();
      loc := loc - {n.path} + map[n.path + [t] := n];
      SlideWrites(sid, last, t, t2, n, c);
    }

    method DescendChange(sid: int, last: int, n: Node, c: Node)
      requires n in nodes && c in nodes && n != c && c in n.kids
      modifies n, c
      ensures V() == Descend(old(V()), n, c, sid, last)
      ensures var i := IndexOf(old(n.kids), c); var j := RaisedIndex(old(KidCounts(n.kids)), i);
              j < |old(n.kids)| && K() == old(K())[n := Moved(old(n.kids), i, j)]
    {
      hide Node.Get;
      n.GetIs();
      c.GetIs();
      ghost var V0, K0 := V(), K();
      DescendWrites(sid, last, n, c);
      ghost var W, K1 := Descend(V0, n, c, sid, last), K0[n := n.kids];
      forall x | x in nodes ensures x in W && x.Get() == W[x] && x in K1 && x.kids == K1[x] {
      }
      assert V() == W && K() == K1;
    }

    method SplitChange(sid: int, last: int, t: Token, t2: Token, n: Node, c: Node) returns (m: Node)
      requires n in nodes && c in nodes && n != c && c in n.kids
      modifies this`loc, this`nodes, n, c
      ensures fresh(m) && nodes == old(nodes) + {m}
      ensures V() == Split(old(V()), n, c, m, sid, last, t, t2)
      ensures K() == old(K())[m := [c]][n := n.kids]
      ensures var i := IndexOf(old(n.kids), c); var j := RaisedIndex(old(KidCounts(n.kids)), i);
              j < |old(n.kids)| && n.kids == Moved(old(n.kids)[i := m], i, j)
      ensures loc == old(loc)[old(n.path) + [t] := m]
    {
      hide Node.Get;
      n.GetIs();
      c.GetIs();
      ghost var V0, K0 := V(), K();
      ghost var w := n.path + [t];
      m := SplitWrites(sid, last, t, t2, n, c);
      loc := loc[w := m];
      nodes := nodes + {m};
      ghost var W, K1 := Split(V0, n, c, m, sid, last, t, t2), K0[m := [c]][n := n.kids];
      forall x | x in nodes ensures x in W && x.Get() == W[x] && x in K1 && x.kids == K1[x] {
      }
      assert V() == W && K() == K1;
    }

    // ----- The branches of append: what is kept -----

    method GrowLeafStep(sid: int, last: int, t: Token, n: Node, ghost ins: Inserted, ghost p: Pos)
      requires Holds(ins) && Ready(loc, ins, p, n, last) && p.sid == sid
      requires t !in n.children && n.count == 1 && n != root
      modifies this`loc, nodes
      ensures Holds(ins[p := ins[p] + [t]]) && EndsKept(old(loc), loc, ins, p, t, n)
    {
      GrowLeafOk(V(), loc, root, ins, p, n, last, t);
      GrowLeafKids(V(), K(), root, n, sid, t);
      GrowLeafChange(sid, t, n);
    }

    method AddLeafStep(sid: int, last: int, t: Token, n: Node, ghost ins: Inserted, ghost p: Pos) returns (m: Node)
      requires Holds(ins) && Ready(loc, ins, p, n, last) && p.sid == sid
      requires t !in n.children && !(n.count == 1 && n != root)
      modifies this`loc, this`nodes, nodes
      ensures Holds(ins[p := ins[p] + [t]]) && EndsKept(old(loc), loc, ins, p, t, m)
      ensures fresh(nodes - old(nodes))
    {
      ghost var V0, K0, loc0 := V(), K(), loc;
      CountsPositive(V0, loc0, root, ins);
      m := AddLeafChange(sid, last, t, n);
      AddLeafOk(V0, loc0, root, ins, p, n, m, last, t);
      AddLeafKids(V0, K0, root, n, m, sid, last, t);
    }

    method FuseStep(sid: int, last: int, t: Token, n: Node, c: Node, ghost ins: Inserted, ghost p: Pos)
      requires Holds(ins) && Ready(loc, ins, p, n, last) && p.sid == sid
      requires t in n.children && n.children[t] == c && n != root && n.count == c.count + 1 && c.length == 1
      modifies this`loc, this`nodes, nodes
      ensures Holds(ins[p := ins[p] + [t]]) && EndsKept(old(loc), loc, ins, p, t, c)
      ensures nodes <= old(nodes)
    {
      ghost var V0, K0 := V(), K();
      ChildFacts(V0, root, n, t);
      ParentFacts(V0, K0, root, n);
      ChildAboveParent(V0, root, n, c);
      FuseOk(V0, loc, root, ins, p, n, c, last, t);
      var u: Node := n.parent;
      FuseKids(V0, K0, root, n, c, sid, last, u, IndexOf(K0[u], n));
      FuseChange(sid, last, n, c, u);
    }

    method SlideStep(sid: int, last: int, t: Token, n: Node, c: Node, ghost ins: Inserted, ghost p: Pos)
      requires Holds(ins) && Ready(loc, ins, p, n, last) && p.sid == sid && Spelled(ins, seqs)
      requires t in n.children && n.children[t] == c && n != root && n.count == c.count + 1 && c.length != 1
      modifies this`loc, nodes
      ensures Holds(ins[p := ins[p] + [t]]) && EndsKept(old(loc), loc, ins, p, t, n)
    {
      ghost var V0, K0 := V(), K();
      ChildFacts(V0, root, n, t);
      SecondToken(V0, loc, root, ins, seqs, n, t);
      var t2 := seqs[c.refSeq][c.refIdx + 1];
      SlideOk(V0, loc, root, ins, p, n, c, last, t, t2);
      OnlyChild(V0, loc, root, ins, p, n, t);
      SlideKids(V0, K0, root, n, c, sid, last, t, t2);
      SlideChange(sid, last, t, t2, n, c);
    }

    method DescendStep(sid: int, last: int, t: Token, n: Node, c: Node, ghost ins: Inserted, ghost p: Pos)
      requires Holds(ins) && Ready(loc, ins, p, n, last) && p.sid == sid
      requires t in n.children && n.children[t] == c && !(n != root && n.count == c.count + 1) && c.length == 1
      modifies nodes
      ensures Holds(ins[p := ins[p] + [t]]) && EndsKept(old(loc), loc, ins, p, t, c)
    {
      ghost var V0, K0 := V(), K();
      ChildFacts(V0, root, n, t);
      KidIndex(V0, K0, root, n, t);
      CountsNow(n);
      DescendOk(V0, loc, root, ins, p, n, c, last, t);
      DescendKids(V0, K0, root, n, c, sid, last, IndexOf(K0[n], c));
      DescendChange(sid, last, n, c);
    }

    method SplitStep(sid: int, last: int, t: Token, n: Node, c: Node, ghost ins: Inserted, ghost p: Pos)
      returns (m: Node)
      requires Holds(ins) && Ready(loc, ins, p, n, last) && p.sid == sid && Spelled(ins, seqs)
      requires t in n.children && n.children[t] == c && !(n != root && n.count == c.count + 1) && c.length != 1
      modifies this`loc, this`nodes, nodes
      ensures Holds(ins[p := ins[p] + [t]]) && EndsKept(old(loc), loc, ins, p, t, m)
      ensures fresh(nodes - old(nodes))
    {
      hide AllKids, EndsKept, Split, Spelled;
      ghost var V0, K0, loc0 := V(), K(), loc;
      ChildFacts(V0, root, n, t);
      KidIndex(V0, K0, root, n, t);
      CountsNow(n);
      SecondToken(V0, loc, root, ins, seqs, n, t);
      var t2 := seqs[c.refSeq][c.refIdx + 1];
      m := SplitChange(sid, last, t, t2, n, c);
      SplitOk(V0, loc0, root, ins, p, n, c, m, last, t, t2);
      SplitKids(V0, K0, root, n, c, m, sid, last, t, t2, IndexOf(K0[n], c));
    }

    /** One turn of the append loop: the suffix at p takes in the token and ends at m. */
    method Advance(sid: int, last: int, t: Token, n: Node, ghost ins: Inserted, ghost p: Pos) returns (m: Node)
      requires Holds(ins) && Ready(loc, ins, p, n, last) && p.sid == sid && Spelled(ins, seqs)
      modifies this`loc, this`nodes, nodes
      ensures Holds(ins[p := ins[p] + [t]]) && EndsKept(old(loc), loc, ins, p, t, m)
      ensures fresh(nodes - old(nodes))
    {
      if t !in n.children {
        if n.count == 1 && n != root {
          GrowLeafStep(sid, last, t, n, ins, p);
          m := n;
        } else {
          m := AddLeafStep(sid, last, t, n, ins, p);
        }
      } else {
        var c := n.children[t];
        ChildFacts(V(), root, n, t);
        if n.count == c.count + 1 && n != root {
          if c.length == 1 {
            FuseStep(sid, last, t, n, c, ins, p);
            m := c;
          } else {
            SlideStep(sid, last, t, n, c, ins, p);
            m := n;
          }
        } else {
          if c.length == 1 {
            DescendStep(sid, last, t, n, c, ins, p);
            m := c;
          } else {
            m := SplitStep(sid, last, t, n, c, ins, p);
          }
        }
      }
    }

    /** A new suffix, still empty, starts at the root. */
    method Plant(sid: int, at: int, ghost ins: Inserted)
      requires Holds(ins) && Pos(sid, at) !in ins && Latest(ins, Pos(sid, at))
      modifies root
      ensures Holds(ins[Pos(sid, at) := []])
    {
      ghost var V0, K0 := V(), K();
      root.endpoints := root.endpoints[sid := at];
      root.count := root.count + 1;
      PlantOk(V0, loc, root, ins, Pos(sid, at));
      PlantKids(V0, K0, root, Pos(sid, at));
      assert V() == TrieAppend.Plant(V0, root, Pos(sid, at));
      assert K() == K0;
    }

    /** Between two turns of the append loop. */
    ghost predicate Appending(seqs0: Seqs, sid: int, t: Token, act: seq<Node>, cut: int)
      reads this, nodes
    {
      && Midway(active, seqs0, maxDepth, loc, sid, t, act, cut)
      && active.Keys == seqs.Keys && seqs == Appended(seqs0, sid, t)
      && Holds(Growing(seqs0, sid, t, maxDepth, cut))
    }

    method EnsureSequence(sid: int)
      requires Valid()
      modifies this`seqs, this`active
      ensures Valid() && maxDepth >= 1 && sid in seqs && seqs == old(seqs)[sid := SeqOf(old(seqs), sid)]
    {
      hide Holds, ActiveOk, Stored;
      if sid !in seqs {
        NewSequence(active, seqs, maxDepth, loc, sid);
        seqs := seqs[sid := []];
        active := active[sid := []];
      }
    }

    method BeginAppend(sid: int, t: Token) returns (act: seq<Node>)
      requires Valid() && maxDepth >= 1 && sid in seqs
      modifies this`seqs, nodes
      ensures |act| == |old(seqs)[sid]| + 1 - WindowStart(old(seqs)[sid], maxDepth)
      ensures Appending(old(seqs), sid, t, act, WindowStart(old(seqs)[sid], maxDepth))
    {
      BeginWindow(active, seqs, maxDepth, loc, root, sid, t);
      GrowingStarts(seqs, sid, t, maxDepth);
      act := active[sid] + [root];
      Plant(sid, |seqs[sid]|, Stored(seqs, maxDepth));
      if |act| > maxDepth {
        act := act[1..];
      }
      seqs := seqs[sid := seqs[sid] + [t]];
    }

    method AppendTurn(sid: int, t: Token, act: seq<Node>, i: nat, ghost seqs0: Seqs, ghost cut: int)
      returns (act': seq<Node>)
      requires maxDepth >= 1 && sid in seqs0 && i < |act| && cut == WindowStart(seqs0[sid], maxDepth) + i
      requires Appending(seqs0, sid, t, act, cut)
      modifies this`loc, this`nodes, nodes
      ensures Appending(seqs0, sid, t, act', cut + 1) && |act'| == |act|
      ensures fresh(nodes - old(nodes))
    {
      hide Ready, Holds, EndsKept, Growing, Spelled, Midway, WindowStart;
      ghost var ins, p, loc0 := Growing(seqs0, sid, t, maxDepth, cut), Pos(sid, cut), loc;
      MidwayReady(active, seqs0, maxDepth, loc, sid, t, act, i);
      GrowingStep(seqs0, sid, t, maxDepth, cut);
      GrowingSpelled(seqs0, sid, t, maxDepth, cut);
      var m := Advance(sid, |seqs[sid]| - 1, t, act[i], ins, p);
      MidwayStep(active, seqs0, maxDepth, loc0, loc, sid, t, act, i, m);
      act' := act[i := m];
    }

    method EndAppend(sid: int, t: Token, act: seq<Node>, ghost seqs0: Seqs)
      requires sid in seqs0 && Appending(seqs0, sid, t, act, |seqs0[sid]| + 1)
      modifies this`active
      ensures Valid() && seqs == Appended(seqs0, sid, t)
    {
      MidwayEnds(active, seqs0, maxDepth, loc, sid, t, act);
      active := active[sid := act];
    }

    method AppendLoop(sid: int, t: Token, act0: seq<Node>, ghost seqs0: Seqs) returns (act: seq<Node>)
      requires maxDepth >= 1 && sid in seqs0 && Appending(seqs0, sid, t, act0, WindowStart(seqs0[sid], maxDepth))
      requires |act0| == |seqs0[sid]| + 1 - WindowStart(seqs0[sid], maxDepth)
      modifies this`loc, this`nodes, nodes
      ensures Appending(seqs0, sid, t, act, |seqs0[sid]| + 1)
      ensures fresh(nodes - old(nodes))
    {
      hide *;
      act := act0;
      ghost var cut: int := WindowStart(seqs0[sid], maxDepth);
      for i := 0 to |act0|
        invariant |act| == |act0| && cut == WindowStart(seqs0[sid], maxDepth) + i
        invariant Appending(seqs0, sid, t, act, cut)
        invariant fresh(nodes - old(nodes))
      {
        ghost var before := nodes;
        act := AppendTurn(sid, t, act, i, seqs0, cut);
        assert nodes - old(nodes) <= (nodes - before) + (before - old(nodes));
        cut := cut + 1;
      }
    }

    /** Append a token to a new or existing sequence. */
    method Append(sid: int, t: Token)
      requires Valid()
      modifies this, nodes
      ensures Valid() && seqs == Appended(old(seqs), sid, t) && fresh(nodes - old(nodes))
    {
      hide *;
      AppendedTwice(seqs, sid, t);
      EnsureSequence(sid);
      ghost var seqs0 := seqs;
      var act := BeginAppend(sid, t);
      act := AppendLoop(sid, t, act, seqs0);
      EndAppend(sid, t, act, seqs0);
    }

    /** Append tokens one by one. */
    method Extend(sid: int, tokens: seq<Token>)
      requires Valid()
      modifies this, nodes
      ensures Valid() && fresh(nodes - old(nodes))
      ensures seqs == Extended(old(seqs), sid, tokens)
    {
      hide *;
      ExtendedNone(seqs, sid);
      for i := 0 to |tokens|
        invariant Valid() && fresh(nodes - old(nodes))
        invariant seqs == Extended(old(seqs), sid, tokens[..i])
      {
        ExtendedMore(old(seqs), sid, tokens, i);
        Append(sid, tokens[i]);
      }
      assert tokens[..|tokens|] == tokens;
    }

    // ----- Remove -----

    /** On the way down: every node met so far counts one less, and path lists them. */
    ghost predicate Walking(V0: Snapshot, ins: Inserted, ins0: Inserted, p: Pos, n: Node, path: seq<Node>)
      reads this`nodes, this`loc, nodes
    {
      && p in ins && n in V0 && V0[n].path <= ins[p] && (n != root ==> V0[n].count > 1)
      && Waning(V0, loc, root, ins, ins0, p.sid)
      && V() == Walked(V0, ins[p], |V0[n].path|, p.sid)
      && AllKids(V(), K())
      && PathTo(V0, path, V0[n].path)
    }

    method WalkBegin(ghost ins: Inserted, ghost ins0: Inserted, ghost p: Pos)
      requires Waning(V(), loc, root, ins, ins0, p.sid) && AllKids(V(), K()) && p in ins
               && forall q | q in ins :: ins[q] != []
      modifies root
      ensures Walking(old(V()), ins, ins0, p, root, [])
    {
      ghost var V0, K0 := V(), K();
      WalkStart(V0, loc, root, ins, p);
      PathStart(V0, loc, root);
      RootKids(V0, K0, root, V0[root := V0[root].(count := V0[root].count - 1)]);
      root.count := root.count - 1;
      assert V() == V0[root := V0[root].(count := V0[root].count - 1)];
      assert K() == K0;
    }

    method WalkChange(sid: int, n: Node, c: Node)
      requires n in nodes && c in nodes && n != c && c in n.kids
      modifies n, c
      ensures c in old(V()) && n in old(K()) && V() == Lowered(old(V()), c, sid) && c.length == old(c.length)
      ensures var i := IndexOf(old(n.kids), c); var j := LoweredIndex(old(KidCounts(n.kids)), i);
              j < |old(n.kids)| && K() == old(K())[n := Moved(old(n.kids), i, j)]
    {
      hide Node.Get;
      n.GetIs();
      c.GetIs();
      WalkWrites(sid, n, c);
      c.GetIs();
    }

    lemma WalkTurnFacts(n: Node, c: Node, t: Token, path: seq<Node>, V0: Snapshot, ins: Inserted, ins0: Inserted,
                        p: Pos)
      requires Walking(V0, ins, ins0, p, n, path) && n in nodes
      requires |V0[n].path| < |ins[p]| && t == ins[p][|V0[n].path|] && t in n.children && n.children[t] == c
      ensures c in nodes && c != n && c != root && c in n.kids && c in V() && n in K() && n.kids == K()[n]
      ensures c in V0 && V()[c].length == c.length == V0[c].length > 0 && V()[c].count == c.count == V0[c].count
      ensures V0[c].path <= ins[p] && |V0[c].path| == |V0[n].path| + c.length
      ensures Lowered(V(), c, p.sid) == Walked(V0, ins[p], |V0[c].path|, p.sid)
      ensures PathTo(V0, path + [c], V0[c].path)
      ensures var i := IndexOf(n.kids, c); var j := LoweredIndex(KidCounts(n.kids), i);
              j < |n.kids| && AllKids(Lowered(V(), c, p.sid), K()[n := Moved(n.kids, i, j)])
    {
      hide Waning, Walked, AllKids, PathTo;
      assert V()[n] == n.Get() && K()[n] == n.kids;
      WalkTurnOk(V0, V(), K(), loc, root, ins, ins0, p, n, c, path);
      assert V()[c] == c.Get();
      CountsNow(n);
    }

    lemma WalkTurned(n: Node, c: Node, path: seq<Node>, V0: Snapshot, ins: Inserted, ins0: Inserted, p: Pos)
      requires p in ins && c in V0 && V0[c].path <= ins[p] && V0[c].count > 1
      requires Waning(V0, loc, root, ins, ins0, p.sid) && PathTo(V0, path, V0[c].path)
      requires V() == Walked(V0, ins[p], |V0[c].path|, p.sid) && AllKids(V(), K())
      ensures Walking(V0, ins, ins0, p, c, path)
    {
      hide Waning, Walked, AllKids, PathTo, V, K;
    }

    method WalkTurn(sid: int, t: Token, n: Node, c: Node, path: seq<Node>, ghost V0: Snapshot, ghost ins: Inserted,
                    ghost ins0: Inserted, ghost p: Pos)
      requires Walking(V0, ins, ins0, p, n, path) && p.sid == sid && n in nodes
      requires |V0[n].path| < |ins[p]| && t == ins[p][|V0[n].path|] && t in n.children && n.children[t] == c
               && c.count > 1
      modifies nodes
      ensures Walking(V0, ins, ins0, p, c, path + [c])
      ensures c in V0 && |V0[c].path| == |V0[n].path| + c.length && c.length > 0
    {
      hide Waning, Walked, AllKids, PathTo, V, K, Lowered;
      WalkTurnFacts(n, c, t, path, V0, ins, ins0, p);
      WalkChange(sid, n, c);
      WalkTurned(n, c, path + [c], V0, ins, ins0, p);
    }

    method DropChange(t: Token, n: Node, c: Node)
      requires n in nodes && c in nodes && n != c && c in n.kids
      modifies this`nodes, this`loc, n
      ensures nodes == old(nodes) - {c} && loc == old(loc) - {old(c.path)}
      ensures V() == DropLeaf(old(V()), n, c, t)
      ensures K() == (old(K()) - {c})[n := RemoveAt(old(n.kids), IndexOf(old(n.kids), c))]
    {
      hide Node.Get;
      n.GetIs();
      c.GetIs();
      DropWrites(t, n, c);
      loc := loc - {c.path};
      nodes := nodes - {c};
    }

    /** The walk has ended at n; the suffix is no longer counted. */
    ghost predicate AtEnd(ins: Inserted, ins0: Inserted, sid: int, y: Str, n: Node, path: seq<Node>)
      reads this`nodes, this`loc, nodes
    {
      n in nodes && Walk(V(), loc, root, ins, ins0, sid, y, n) && AllKids(V(), K()) && PathTo(V(), path, V()[n].path)
    }

    method DropTurn(sid: int, t: Token, n: Node, c: Node, path: seq<Node>, ghost V0: Snapshot, ghost ins: Inserted,
                    ghost ins0: Inserted, ghost p: Pos)
      requires Walking(V0, ins, ins0, p, n, path) && p.sid == sid && n in nodes
      requires |V0[n].path| < |ins[p]| && t == ins[p][|V0[n].path|] && t in n.children && n.children[t] == c
               && c.count == 1
      modifies this`nodes, this`loc, nodes
      ensures AtEnd(ins - {p}, ins0, sid, ins[p], n, path)
      ensures nodes <= old(nodes) && EndsSame(old(loc), loc, ins - {p})
    {
      hide Waning, Walked, AllKids, PathTo, Walk;
      assert V()[n] == n.Get() && K()[n] == n.kids;
      DropTurnOk(V0, V(), K(), loc, root, ins, ins0, p, n, c, path);
      assert V()[c] == c.Get();
      DropChange(t, n, c);
    }

    method WalkEnd(n: Node, path: seq<Node>, ghost V0: Snapshot, ghost ins: Inserted, ghost ins0: Inserted,
                   ghost p: Pos)
      requires Walking(V0, ins, ins0, p, n, path) && n in nodes && V0[n].path == ins[p] && ins[p] != []
      ensures AtEnd(ins - {p}, ins0, p.sid, ins[p], n, path)
    {
      hide Walked, AllKids, PathTo, Walk;
      WalkEndOk(V0, V(), K(), loc, root, ins, ins0, p, n, path);
    }

    method WalkDown(sid: int, start: int, ghost ins: Inserted, ghost ins0: Inserted, ghost p: Pos)
      returns (n: Node, path: seq<Node>)
      requires maxDepth >= 1 && sid in seqs && 0 <= start < |seqs[sid]| && p == Pos(sid, start)
      requires Waning(V(), loc, root, ins, ins0, sid) && AllKids(V(), K()) && p in ins && root in nodes
      requires ins[p] == Cut(seqs[sid], start, maxDepth)
      requires Within(ins, ins0, maxDepth)
      modifies this`nodes, this`loc, nodes
      ensures AtEnd(ins - {p}, ins0, sid, ins[p], n, path)
      ensures nodes <= old(nodes) && EndsSame(old(loc), loc, ins - {p})
    {
      hide Waning, Walked, AllKids, PathTo, Walk;
      ghost var V0 := V();
      WalkBegin(ins, ins0, p);
      n, path := root, [];
      var idx := start;
      RootPath(V0, loc, root, ins, ins0, sid);
      while idx < |seqs[sid]|
        invariant Walking(V0, ins, ins0, p, n, path) && n in nodes && nodes == old(nodes) && loc == old(loc)
        invariant idx == start + |V0[n].path|
        decreases |seqs[sid]| - idx
      {
        var t := seqs[sid][idx];
        WalkChildOk(V0, V(), loc, root, ins, ins0, p, n, seqs[sid], maxDepth);
        assert V()[n] == n.Get();
        if t !in n.children {
          break;
        }
        var c := n.children[t];
        if c.count > 1 {
          WalkTurn(sid, t, n, c, path, V0, ins, ins0, p);
          idx := idx + c.length;
          n := c;
          path := path + [c];
        } else {
          DropTurn(sid, t, n, c, path, V0, ins, ins0, p);
          return;
        }
      }
      PrefixFull(V0[n].path, ins[p]);
      WalkEnd(n, path, V0, ins, ins0, p);
    }

    method MergeChange(n: Node, c: Node, u: Node)
      requires n in nodes && c in nodes && u in nodes && n.parent == u && n != c && n != u && c != u && n in u.kids
      modifies this`nodes, this`loc, c, u
      ensures nodes == old(nodes) - {n} && loc == old(loc) - {old(n.path)}
      ensures V() == Merge(old(V()), n, c)
      ensures K() == (old(K()) - {n})[u := old(u.kids)[IndexOf(old(u.kids), n) := c]]
    {
      hide Node.Get;
      n.GetIs();
      c.GetIs();
      u.GetIs();
      MergeWrites(n, c, u);
      loc := loc - {n.path};
      nodes := nodes - {n};
    }

    /** References on the way are still to be looked at; path lists the nodes down to n. */
    ghost predicate ToRepair(ins: Inserted, ins0: Inserted, sid: int, y: Str, n: Node, path: seq<Node>)
      reads this`nodes, this`loc, nodes
    {
      n in nodes && Unrepaired(V(), loc, root, ins, ins0, sid, y, V()[n].path) && AllKids(V(), K())
        && PathTo(V(), path, V()[n].path)
    }

    /** The last visited node may be mergeable with its child. */
    method MergeStep(sid: int, n: Node, path: seq<Node>, ghost ins: Inserted, ghost ins0: Inserted, ghost y: Str)
      returns (n': Node, path': seq<Node>)
      requires AtEnd(ins, ins0, sid, y, n, path)
      modifies this`nodes, this`loc, nodes
      ensures ToRepair(ins, ins0, sid, y, n', path')
      ensures nodes <= old(nodes) && EndsSame(old(loc), loc, ins)
    {
      hide Walk, Unrepaired, AllKids, PathTo;
      n', path' := n, path;
      assert V()[n] == n.Get();
      MergeStepFacts(V(), K(), loc, root, ins, ins0, sid, y, n, path);
      if n != root && |n.children| == 1 {
        SomeKey(n.children);
        var t :| t in n.children;
        OneKey(n.children, t);
        var c := n.children[t];
        assert V()[c] == c.Get();
        if n.count == c.count {
          MergeStepOk(V(), K(), loc, root, ins, ins0, sid, y, n, c, t, path);
          MergeChange(n, c, n.parent);
          n' := c;
          path' := path[|path| - 1 := c];
          return;
        }
      }
      NoMergeOk(V(), loc, root, ins, ins0, sid, y, n);
    }

    /** Go to an arbitrary leaf below n. */
    method FindLeaf(n: Node) returns (leaf: Node, distance: int)
      requires n in nodes && Shape(V(), root) && maxDepth >= 1 && forall x | x in nodes :: |x.path| <= maxDepth
      ensures leaf in nodes && n.path <= leaf.path && leaf.children == map[] && distance == |leaf.path| - |n.path|
    {
      leaf, distance := n, 0;
      while leaf.children != map[]
        invariant leaf in nodes && n.path <= leaf.path && distance == |leaf.path| - |n.path|
        decreases maxDepth - |leaf.path|
      {
        SomeKey(leaf.children);
        var t :| t in leaf.children;
        assert V()[leaf] == leaf.Get();
        ChildFacts(V(), root, leaf, t);
        assert V()[leaf.children[t]] == leaf.children[t].Get();
        leaf := leaf.children[t];
        distance := distance + leaf.length;
      }
    }

    /** One node of the path: its reference changes if it is to sid. */
    method RepairTurn(sid: int, n: Node, refSeq: int, refIdx: int)
      requires n in nodes
      modifies n
      ensures V() == RepairedAt(old(V()), n, sid, refSeq, refIdx) && K() == old(K())
    {
      if n.refSeq == sid {
        n.refSeq := refSeq;
        n.refIdx := refIdx;
      }
      assert n.Get() == old(n.Get()).(refSeq := n.refSeq, refIdx := n.refIdx);
    }

    /** Go back up the path and let references to sid point at the occurrence at q. */
    method RepairRefs(sid: int, path: seq<Node>, refSeq: int, refEnd: int, ghost q: Pos, ghost z: Str)
      requires PathTo(V(), path, z) && q == Pos(refSeq, refEnd - |z|) && refSeq != sid
      modifies nodes
      ensures V() == Repaired(old(V()), z, q, sid) && K() == old(K())
    {
      hide PathTo, RepairedPart, Repaired, RepairedAt;
      ghost var V0 := V();
      var refIdx := refEnd;
      var k := |path|;
      RepairedPartStarts(V0, path, z, q, sid);
      while k > 0
        invariant 0 <= k <= |path| && K() == old(K())
        invariant refIdx == q.start + PathLength(V0, path, k)
        invariant V() == RepairedPart(V0, path[k..], q, sid)
      {
        k := k - 1;
        RepairedPartStep(V0, V(), path, z, q, sid, k);
        var n := path[k];
        assert V()[n] == n.Get();
        refIdx := refIdx - n.length;
        RepairTurn(sid, n, refSeq, refIdx);
      }
      RepairedPartEnds(V0, path, z, q, sid);
    }

    /** References on the way are repaired, unless the leaf is where sid still ends. */
    method RepairStep(sid: int, n: Node, path: seq<Node>, ghost ins: Inserted, ghost ins0: Inserted, ghost y: Str)
      requires ToRepair(ins, ins0, sid, y, n, path) && maxDepth >= 1
      requires Within(ins, ins0, maxDepth)
      modifies nodes
      ensures Waning(V(), loc, root, ins, ins0, sid) && AllKids(V(), K())
    {
      hide Waning, AllKids, PathTo, Repaired, Unrepaired, SameButRefs;
      assert V()[n] == n.Get();
      UnrepairedFacts(V(), loc, root, ins, ins0, sid, y, n.path, maxDepth);
      assert forall x | x in nodes :: V()[x] == x.Get();
      var leaf, distance := FindLeaf(n);
      assert V()[leaf] == leaf.Get();
      if leaf.endpoints == map[] || sid in leaf.endpoints {
        SkipRepair(V(), loc, root, ins, ins0, sid, y, n.path, leaf);
      } else {
        SomeKey(leaf.endpoints);
        var s :| s in leaf.endpoints;
        ghost var q := Pos(s, leaf.endpoints[s] - |leaf.path|);
        RepairOk(V(), loc, root, ins, ins0, sid, y, n.path, leaf, s);
        RepairedIsSame(V(), n.path, q, sid);
        RepairKids(V(), Repaired(V(), n.path, q, sid), K(), root);
        RepairRefs(sid, path, s, leaf.endpoints[s] - distance, q, n.path);
      }
    }

    /** Take one suffix of sequence sid out of the tree. */
    method RemoveSuffix(sid: int, start: int, ghost ins: Inserted, ghost ins0: Inserted)
      requires maxDepth >= 1 && sid in seqs && 0 <= start < |seqs[sid]| && root in nodes
      requires Waning(V(), loc, root, ins, ins0, sid) && AllKids(V(), K())
      requires Pos(sid, start) in ins && ins[Pos(sid, start)] == Cut(seqs[sid], start, maxDepth)
      requires Within(ins, ins0, maxDepth)
      modifies this`nodes, this`loc, nodes
      ensures Waning(V(), loc, root, ins - {Pos(sid, start)}, ins0, sid) && AllKids(V(), K())
      ensures nodes <= old(nodes) && EndsSame(old(loc), loc, ins - {Pos(sid, start)})
    {
      hide *;
      WithinLess(ins, ins0, maxDepth, Pos(sid, start));
      ghost var p, loc0 := Pos(sid, start), loc;
      var n, path := WalkDown(sid, start, ins, ins0, p);
      ghost var loc1 := loc;
      n, path := MergeStep(sid, n, path, ins - {p}, ins0, ins[p]);
      EndsSameTwice(loc0, loc1, loc, ins - {p});
      RepairStep(sid, n, path, ins - {p}, ins0, ins[p]);
    }

    /** While sequence sid is being removed: its suffixes from before start are gone. */
    ghost predicate Removing(sid: int, start: int)
      reads this, nodes
    {
      && maxDepth >= 1 && sid in seqs && active.Keys == seqs.Keys
      && Waning(V(), loc, root, Waned(seqs, sid, maxDepth, start), Stored(seqs, maxDepth), sid)
      && AllKids(V(), K())
      && ActiveOk(active, seqs, maxDepth, loc, Waned(seqs, sid, maxDepth, start), {sid})
    }

    lemma RemovingStarts(sid: int)
      requires Valid() && sid in seqs
      ensures Removing(sid, 0)
    {
      WanedStarts(seqs, sid, maxDepth);
      WaningStarts(V(), loc, root, Stored(seqs, maxDepth), sid);
    }

    method RemovingTurn(sid: int, start: int)
      requires Removing(sid, start) && sid in seqs && 0 <= start < |seqs[sid]|
      modifies this`nodes, this`loc, nodes
      ensures Removing(sid, start + 1) && nodes <= old(nodes)
    {
      hide Waning, AllKids, ActiveOk, Within, EndsSame;
      ghost var ins, ins0, V0, loc0 := Waned(seqs, sid, maxDepth, start), Stored(seqs, maxDepth), V(), loc;
      WanedStep(seqs, sid, maxDepth, start);
      WanedWithin(seqs, sid, maxDepth, start);
      RootPath(V0, loc, root, ins, ins0, sid);
      RemoveSuffix(sid, start, ins, ins0);
      WaningEndpoints(V0, loc0, root, ins, ins0, sid);
      RemovingActive(active, seqs, maxDepth, loc0, loc, V0, sid, start);
    }

    lemma RemovingEnds(sid: int)
      requires Removing(sid, |SeqOf(seqs, sid)|)
      ensures maxDepth >= 1 && (active - {sid}).Keys == (seqs - {sid}).Keys && Holds(Stored(seqs - {sid}, maxDepth))
      ensures ActiveOk(active - {sid}, seqs - {sid}, maxDepth, loc, Stored(seqs - {sid}, maxDepth), {})
      ensures forall n | n in nodes && n != root :: n.refSeq != sid
    {
      hide AllKids, ActiveOk, Good;
      ghost var ins := Waned(seqs, sid, maxDepth, |SeqOf(seqs, sid)|);
      WanedEnds(seqs, sid, maxDepth);
      WanedWithin(seqs, sid, maxDepth, |SeqOf(seqs, sid)|);
      WanedBounds(seqs, sid, maxDepth, |SeqOf(seqs, sid)|);
      WaningEnds(V(), loc, root, ins, Stored(seqs, maxDepth), sid);
      RemovedActive(active, seqs, maxDepth, loc, sid, ins);
      assert forall n | n in nodes :: V()[n] == n.Get();
    }

    method RemovingDone(sid: int)
      requires Removing(sid, |SeqOf(seqs, sid)|)
      modifies this`seqs, this`active
      ensures Valid() && seqs == old(seqs) - {sid}
      ensures forall n | n in nodes && n != root :: n.refSeq != sid
    {
      hide Removing, Holds, ActiveOk, Stored;
      RemovingEnds(sid);
      seqs := seqs - {sid};
      active := active - {sid};
    }

    /** Remove a sequence, if present. */
    method Remove(sid: int)
      requires Valid()
      modifies this, nodes
      ensures Valid() && seqs == old(seqs) - {sid} && nodes <= old(nodes)
      ensures sid in old(seqs) ==> forall n | n in nodes && n != root :: n.refSeq != sid
    {
      hide *;
      if sid in seqs {
        RemovingStarts(sid);
        SeqOfKnown(seqs, sid);
        for start := 0 to |seqs[sid]|
          invariant Removing(sid, start) && nodes <= old(nodes) && seqs == old(seqs)
        {
          RemovingTurn(sid, start);
        }
        RemovingDone(sid);
      } else {
        assert seqs - {sid} == seqs;
      }
    }
  }
}
