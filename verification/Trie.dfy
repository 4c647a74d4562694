/**
 The compressed suffix trie as a value: one record per node, holding exactly the fields of a
 node that the suffix tree stores, plus (ghost) the string spelled from the root to the node.
 Nodes are references; the records are snapshots of their fields.
 */
module Trie {
  import opened Suffixes
  import opened Nodes

  type Snapshot = map<Node, Rec>
  type Places = map<Str, Node>

  /** The string spelled from the root to the node's parent. */
  ghost function Above(r: Rec): Str
    requires 0 <= r.length <= |r.path|
  {
    r.path[..|r.path| - r.length]
  }

  /** The first token of a node's label, as a string from the root. */
  ghost function Entry(r: Rec): Str
    requires 0 < r.length <= |r.path|
  {
    Above(r) + [r.path[|r.path| - r.length]]
  }

  /** Parent and child point at each other, and the node's label spells the rest of its path. */
  ghost predicate Linked(V: Snapshot, n: Node)
    requires n in V
  {
    var r := V[n];
    && r.parent != null && r.parent in V
    && 0 < r.length <= |r.path|
    && V[r.parent].path == Above(r)
    && r.token == r.path[|r.path| - r.length]
    && r.token in V[r.parent].children && V[r.parent].children[r.token] == n
  }

  ghost predicate ChildrenOk(V: Snapshot, root: Node, n: Node)
    requires n in V
  {
    forall t | t in V[n].children ::
      var c := V[n].children[t];
      c in V && c != root && V[c].parent == n && V[c].token == t
  }

  ghost predicate Placed(V: Snapshot, loc: Places) {
    && (forall w | w in loc :: loc[w] in V && V[loc[w]].path == w)
    && (forall n | n in V :: V[n].path in loc && loc[V[n].path] == n)
  }

  ghost predicate Shape(V: Snapshot, root: Node) {
    && root in V && V[root].path == [] && V[root].length == 0
    && (forall n {:trigger Linked(V, n)} | n in V && n != root :: Linked(V, n))
    && (forall n {:trigger ChildrenOk(V, root, n)} | n in V :: ChildrenOk(V, root, n))
  }

  /** Canonical form: besides the root, exactly the boundaries have nodes. */
  ghost predicate Canonical(loc: Places, ins: Inserted) {
    forall w {:trigger Boundary(ins, w)} :: w in loc <==> w == [] || Boundary(ins, w)
  }

  /** The count is the number of occurrences, and the occurrences that enter the node's label
      all reach its end. */
  ghost predicate Counted(V: Snapshot, root: Node, ins: Inserted, n: Node)
    requires n in V
  {
    var r := V[n];
    && r.count == Occ(ins, r.path)
    && (n != root ==> 0 < r.length <= |r.path| && Through(ins, Entry(r)) == Through(ins, r.path))
  }

  ghost predicate AllCounted(V: Snapshot, root: Node, ins: Inserted) {
    forall n {:trigger Counted(V, root, ins, n)} | n in V :: Counted(V, root, ins, n)
  }

  /** The start, in the reference sequence, of the occurrence a node's label window ends. */
  ghost function RefPos(r: Rec): Pos {
    Pos(r.refSeq, r.refIdx + r.length - |r.path|)
  }

  ghost predicate RefOk(V: Snapshot, ins: Inserted, n: Node)
    requires n in V
  {
    RefPos(V[n]) in Through(ins, V[n].path)
  }

  /** Every label window ends an occurrence of the whole root-to-node string. */
  ghost predicate RefsOk(V: Snapshot, root: Node, ins: Inserted) {
    forall n {:trigger RefOk(V, ins, n)} | n in V && n != root :: RefOk(V, ins, n)
  }

  /** No later suffix of the sequence of p ends where p ends. */
  ghost predicate EndsLast(ins: Inserted, p: Pos)
    requires p in ins
  {
    forall q {:trigger ins[q]} | q in ins && q.sid == p.sid && ins[q] == ins[p] :: q.start <= p.start
  }

  ghost predicate EndpointOk(V: Snapshot, ins: Inserted, n: Node, s: int)
    requires n in V && s in V[n].endpoints
  {
    var p := Pos(s, V[n].endpoints[s] - |V[n].path|);
    p in ins && ins[p] == V[n].path && EndsLast(ins, p)
  }

  /** Each recorded endpoint is the end of the last stored suffix of its sequence that ends at the node. */
  ghost predicate EndpointsSound(V: Snapshot, ins: Inserted) {
    forall n, s {:trigger EndpointOk(V, ins, n, s)} | n in V && s in V[n].endpoints :: EndpointOk(V, ins, n, s)
  }

  ghost predicate EndRecorded(V: Snapshot, loc: Places, ins: Inserted, p: Pos)
    requires p in ins
  {
    ins[p] in loc && loc[ins[p]] in V && p.sid in V[loc[ins[p]]].endpoints
  }

  /** Each stored suffix (of a sequence other than those in gone) is recorded where it ends. */
  ghost predicate EndpointsComplete(V: Snapshot, loc: Places, ins: Inserted, gone: set<int>) {
    forall p {:trigger EndRecorded(V, loc, ins, p)} | p in ins && p.sid !in gone :: EndRecorded(V, loc, ins, p)
  }

  /** Everything the suffix tree promises about its nodes, for what is stored in it. */
  ghost predicate Good(V: Snapshot, loc: Places, root: Node, ins: Inserted) {
    && Shape(V, root)
    && Placed(V, loc)
    && Canonical(loc, ins)
    && AllCounted(V, root, ins)
    && RefsOk(V, root, ins)
    && EndpointsSound(V, ins)
    && EndpointsComplete(V, loc, ins, {})
  }

  lemma GoodParts(V: Snapshot, loc: Places, root: Node, ins: Inserted)
    requires Good(V, loc, root, ins)
    ensures Shape(V, root) && Placed(V, loc) && Canonical(loc, ins) && AllCounted(V, root, ins)
    ensures RefsOk(V, root, ins) && EndpointsSound(V, ins) && EndpointsComplete(V, loc, ins, {})
  {
  }

  // ----- Reading the trie -----

  /** All strings that end inside or at the end of a node's label occur equally often. */
  lemma LabelThrough(V: Snapshot, root: Node, ins: Inserted, c: Node, y: Str)
    requires c in V && c != root && Counted(V, root, ins, c)
    requires y <= V[c].path && |V[c].path| - V[c].length < |y|
    ensures Through(ins, y) == Through(ins, V[c].path)
  {
    var r := V[c];
    var first := Entry(r);
    assert first == r.path[..|r.path| - r.length + 1];
    assert y == r.path[..|y|];
    ThroughShrinks(ins, first, y);
    ThroughShrinks(ins, y, r.path);
  }

  /** A child for token t carries exactly the occurrences of the node's string followed by t. */
  lemma ChildThrough(V: Snapshot, loc: Places, root: Node, ins: Inserted, n: Node, t: Token)
    requires Shape(V, root) && AllCounted(V, root, ins) && Placed(V, loc) && Canonical(loc, ins)
    requires n in V && t in V[n].children
    ensures Through(ins, V[n].path + [t]) != {}
    ensures var c := V[n].children[t];
            && c in V && c != root && V[c].parent == n && V[n].path + [t] <= V[c].path
            && Linked(V, c) && Counted(V, root, ins, c) && V[n].path == Above(V[c])
            && Through(ins, V[c].path) == Through(ins, V[n].path + [t])
            && V[c].count == Occ(ins, V[n].path + [t])
  {
    var c := V[n].children[t];
    assert ChildrenOk(V, root, n);
    assert Linked(V, c);
    assert Counted(V, root, ins, c);
    PrefixStep(V[n].path, V[c].path, t);
    assert Boundary(ins, V[c].path);
  }

  /** Wherever a node's string occurs followed by t, the node has a child for t. */
  lemma ChildExists(V: Snapshot, loc: Places, root: Node, ins: Inserted, n: Node, t: Token, q: Pos)
    requires Shape(V, root) && Placed(V, loc) && AllCounted(V, root, ins) && Canonical(loc, ins)
    requires n in V && q in Through(ins, V[n].path + [t])
    ensures t in V[n].children
  {
    var w := V[n].path;
    var x := Locus(ins, w + [t], q);
    PrefixStep(w, x, t);
    assert Boundary(ins, x) && x in loc;
    var m := loc[x];
    assert Linked(V, m) && Counted(V, root, ins, m);
    var u := Above(V[m]);
    assert u == V[V[m].parent].path && u in loc;
    if |u| < |w| {
      assert Boundary(ins, w);
      LabelThrough(V, root, ins, m, w);
      LabelThrough(V, root, ins, m, w + [t]);
      assert false;
    }
    assert u == x[..|u|] && w == x[..|w|];
    assert |w| < |u| ==> !Boundary(ins, u);
    assert u == w;
  }

  /** A string that ends strictly inside a label is no boundary. */
  lemma LabelEndsNone(V: Snapshot, root: Node, ins: Inserted, c: Node, y: Str)
    requires c in V && c != root && Linked(V, c) && AllCounted(V, root, ins)
    requires y <= V[c].path && |V[c].path| - V[c].length < |y| < |V[c].path|
    ensures !Boundary(ins, y)
  {
    assert Counted(V, root, ins, c);
    var next := V[c].path[|y|];
    PrefixStep(y, V[c].path, next);
    LabelThrough(V, root, ins, c, y);
    LabelThrough(V, root, ins, c, y + [next]);
  }

  /** A string that ends inside a label has no node. */
  lemma InsideLabel(V: Snapshot, loc: Places, root: Node, ins: Inserted, n: Node, c: Node, t: Token)
    requires Shape(V, root) && AllCounted(V, root, ins) && Placed(V, loc) && Canonical(loc, ins)
    requires n in V && t in V[n].children && V[n].children[t] == c && c in V && V[c].length != 1
    ensures V[c].length > 1 && |V[n].path| + V[c].length == |V[c].path|
    ensures V[n].path + [t] !in loc && !Boundary(ins, V[n].path + [t])
  {
    ChildThrough(V, loc, root, ins, n, t);
    var y := V[n].path + [t];
    var next := V[c].path[|y|];
    PrefixStep(y, V[c].path, next);
    LabelThrough(V, root, ins, c, y);
    LabelThrough(V, root, ins, c, y + [next]);
    assert !Boundary(ins, y);
  }

  lemma NoChild(V: Snapshot, loc: Places, root: Node, ins: Inserted, n: Node, t: Token)
    requires Shape(V, root) && AllCounted(V, root, ins) && Placed(V, loc) && Canonical(loc, ins)
    requires n in V && t !in V[n].children
    ensures Through(ins, V[n].path + [t]) == {}
  {
    if q :| q in Through(ins, V[n].path + [t]) {
      ChildExists(V, loc, root, ins, n, t, q);
      assert false;
    }
  }

  /** Label windows can be read in the reference sequences. */
  lemma LabelText(V: Snapshot, root: Node, ins: Inserted, seqs: Seqs, c: Node, k: nat)
    requires RefsOk(V, root, ins) && Spelled(ins, seqs)
    requires c in V && c != root && Linked(V, c) && k < V[c].length
    ensures V[c].refSeq in seqs && 0 <= V[c].refIdx && V[c].refIdx + V[c].length <= |seqs[V[c].refSeq]|
    ensures seqs[V[c].refSeq][V[c].refIdx + k] == V[c].path[|V[c].path| - V[c].length + k]
  {
    var r := V[c];
    assert RefOk(V, ins, c);
    var q := RefPos(r);
    assert SpelledAt(ins, seqs, q);
    var j := |r.path| - r.length + k;
    assert r.path[j] == ins[q][j] == seqs[q.sid][q.start + j];
  }
}
