/**
 Matching a context in the suffix tree and drafting what may follow it (_match_context,
 _speculate_path, _speculate_tree and speculate).  Floating point numbers are exact reals.
 */
module Drafting {
  import opened Suffixes
  import opened Contents
  import opened Nodes
  import opened Trie
  import opened TrieKids
  import opened SiblingOrder
  import opened SuffixTrees
  import opened Occurrences

  datatype Draft = Draft(tokens: seq<Token>, parents: seq<int>, probs: seq<real>, score: real, matchLen: int)

  const NoDraft := Draft([], [], [], 0.0, 0)

  // ----- Places in the tree -----

  /** idx tokens into the label of node n, below its parent, the string y has been spelled. */
  ghost predicate At(V: Snapshot, root: Node, n: Node, idx: int, y: Str) {
    && n in V && n != root && Linked(V, n) && 0 <= idx <= V[n].length
    && y == V[n].path[..|V[n].path| - V[n].length + idx]
  }

  /** Inside a label, the count of the node is the count of the string. */
  lemma AtCount(V: Snapshot, loc: Places, root: Node, ins: Inserted, n: Node, idx: int, y: Str)
    requires Good(V, loc, root, ins) && At(V, root, n, idx, y)
    ensures idx > 0 ==> Through(ins, y) == Through(ins, V[n].path) && Occ(ins, y) == V[n].count
    ensures V[n].count > 0 && V[n].count <= Occ(ins, y)
    ensures idx == V[n].length <==> y == V[n].path
  {
    assert Counted(V, root, ins, n);
    assert Boundary(ins, V[n].path);
    if idx > 0 {
      LabelThrough(V, root, ins, n, y);
    }
    ThroughShrinks(ins, y, V[n].path);
  }

  /** The next token of the label spells one more, and nothing else continues inside a label. */
  lemma AtNext(V: Snapshot, loc: Places, root: Node, ins: Inserted, n: Node, idx: int, y: Str)
    requires Good(V, loc, root, ins) && At(V, root, n, idx, y) && idx < V[n].length
    ensures var t := V[n].path[|y|];
            && At(V, root, n, idx + 1, y + [t]) && Occ(ins, y + [t]) == V[n].count
            && (idx > 0 ==> forall u | u != t :: Through(ins, y + [u]) == {})
  {
    var t := V[n].path[|y|];
    assert V[n].path[..|y| + 1] == y + [t];
    AtCount(V, loc, root, ins, n, idx + 1, y + [t]);
    if idx > 0 {
      AtCount(V, loc, root, ins, n, idx, y);
      forall u | u != t ensures Through(ins, y + [u]) == {} {
        BranchesDisjoint(ins, y, t, u);
        ThroughShrinks(ins, y, y + [u]);
      }
    }
  }

  /** At the end of a label, or at the root, the children continue. */
  lemma AtChild(V: Snapshot, loc: Places, root: Node, ins: Inserted, n: Node, t: Token)
    requires Good(V, loc, root, ins) && n in V
    ensures t in V[n].children <==> Through(ins, V[n].path + [t]) != {}
    ensures t in V[n].children ==>
              var c := V[n].children[t];
              At(V, root, c, 0, V[n].path) && V[c].token == t && V[c].count == Occ(ins, V[n].path + [t])
              && V[c].path[|V[n].path|] == t
  {
    if t in V[n].children {
      ChildThrough(V, loc, root, ins, n, t);
      ChildFacts(V, root, n, t);
    } else {
      NoChild(V, loc, root, ins, n, t);
    }
  }

  /** The token at a place in a label, read from the reference sequence. */
  lemma AtToken(V: Snapshot, loc: Places, root: Node, seqs: Seqs, depth: int, n: Node, idx: int, y: Str)
    requires depth >= 1 && Good(V, loc, root, Stored(seqs, depth)) && At(V, root, n, idx, y) && idx < V[n].length
    ensures V[n].refSeq in seqs && 0 <= V[n].refIdx + idx < |seqs[V[n].refSeq]|
    ensures seqs[V[n].refSeq][V[n].refIdx + idx] == V[n].path[|y|]
  {
    StoredSpelled(seqs, depth);
    LabelText(V, root, Stored(seqs, depth), seqs, n, idx);
  }

  // ----- Matching -----

  /** The nodes of a valid tree are good for what it stores. */
  ghost predicate Sound(V: Snapshot, K: Lists, loc: Places, root: Node, seqs: Seqs, depth: int) {
    depth >= 1 && Good(V, loc, root, Stored(seqs, depth)) && AllKids(V, K)
  }

  /** The tokens matched so far end idx tokens into the label of node n. */
  ghost predicate Matched(V: Snapshot, root: Node, n: Node, idx: int, y: Str) {
    n in V && if y == [] then n == root && idx == 0 else At(V, root, n, idx, y) && idx > 0
  }

  lemma MatchStarts(V: Snapshot, K: Lists, loc: Places, root: Node, seqs: Seqs, depth: int, context: Str)
    requires Sound(V, K, loc, root, seqs, depth)
    ensures Matched(V, root, root, 0, context[..0])
  {
  }

  /** Entering the child for the next token, or finding that there is none. */
  lemma MatchEnter(V: Snapshot, K: Lists, loc: Places, root: Node, seqs: Seqs, depth: int, n: Node, idx: int, y: Str,
                   t: Token)
    requires Sound(V, K, loc, root, seqs, depth) && Matched(V, root, n, idx, y) && idx >= V[n].length
    ensures t !in V[n].children ==> Through(Stored(seqs, depth), y + [t]) == {}
    ensures t in V[n].children ==>
              V[n].children[t] in V && At(V, root, V[n].children[t], 0, y) && V[V[n].children[t]].token == t
    ensures t in V[n].children ==> V[V[n].children[t]].length > 0
  {
    var ins := Stored(seqs, depth);
    if y != [] {
      AtCount(V, loc, root, ins, n, idx, y);
    }
    AtChild(V, loc, root, ins, n, t);
  }

  lemma MatchInside(V: Snapshot, root: Node, n: Node, idx: int, y: Str)
    requires Matched(V, root, n, idx, y) && idx < V[n].length && root in V && V[root].length == 0
    ensures At(V, root, n, idx, y) && idx > 0
  {
  }

  /** Comparing the next token of the label. */
  lemma MatchNext(V: Snapshot, K: Lists, loc: Places, root: Node, seqs: Seqs, depth: int, n: Node, idx: int, y: Str,
                  t: Token)
    requires Sound(V, K, loc, root, seqs, depth) && At(V, root, n, idx, y) && idx < V[n].length
    ensures V[n].refSeq in seqs && 0 <= V[n].refIdx + idx < |seqs[V[n].refSeq]|
    ensures var u := seqs[V[n].refSeq][V[n].refIdx + idx];
            && (u == t ==> Matched(V, root, n, idx + 1, y + [t]) && idx + 1 <= V[n].length)
            && (u != t && idx > 0 ==> Through(Stored(seqs, depth), y + [t]) == {})
            && (idx == 0 ==> u == V[n].token)
  {
    AtNext(V, loc, root, Stored(seqs, depth), n, idx, y);
    AtToken(V, loc, root, seqs, depth, n, idx, y);
  }

  lemma MatchEnds(V: Snapshot, K: Lists, loc: Places, root: Node, seqs: Seqs, depth: int, n: Node, idx: int, y: Str)
    requires Sound(V, K, loc, root, seqs, depth) && Matched(V, root, n, idx, y)
    ensures V[n].count == |OccurrencesOf(seqs, y)|
    ensures y == [] || (|y| <= depth && OccurrencesOf(seqs, y) != {})
  {
    var ins := Stored(seqs, depth);
    StoredThrough(seqs, depth, y);
    if y == [] {
      assert Counted(V, root, ins, root);
    } else {
      AtCount(V, loc, root, ins, n, idx, y);
    }
  }

  /** If a prefix does not occur, the context does not. */
  lemma MatchFails(seqs: Seqs, depth: int, y: Str, t: Token, context: Str)
    requires depth >= 1 && y + [t] <= context && Through(Stored(seqs, depth), y + [t]) == {}
    ensures context != [] && !(|context| <= depth && OccurrencesOf(seqs, context) != {})
  {
    ThroughShrinks(Stored(seqs, depth), y + [t], context);
    StoredThrough(seqs, depth, context);
  }

  lemma NextPrefix(context: Str, i: nat)
    requires i < |context|
    ensures context[..i + 1] == context[..i] + [context[i]] && context[..i] + [context[i]] <= context
  {
  }

  lemma SoundTree(tree: SuffixTree)
    requires tree.Valid()
    ensures Sound(tree.V(), tree.K(), tree.loc, tree.root, tree.seqs, tree.maxDepth) && tree.root in tree.nodes
    ensures forall x | x in tree.nodes :: tree.V()[x] == x.Get() && tree.K()[x] == x.kids
    ensures tree.V().Keys == tree.nodes == tree.K().Keys && tree.root.length == 0 && tree.maxDepth >= 1
  {
  }

  /** One token of the context: the next place, or no place when the longer string does not occur. */
  method MatchToken(tree: SuffixTree, n: Node, idx: int, t: Token, ghost y: Str) returns (node: Node?, idx': int)
    requires tree.Valid() && Matched(tree.V(), tree.root, n, idx, y)
    ensures node == null ==> Through(Stored(tree.seqs, tree.maxDepth), y + [t]) == {}
    ensures node != null ==> Matched(tree.V(), tree.root, node, idx', y + [t]) && node in tree.nodes
  {
    hide Matched, At;
    ghost var V, K, loc, D := tree.V(), tree.K(), tree.loc, tree.maxDepth;
    SoundTree(tree);
    InNodes(V, tree.root, n, idx, y);
    hide *;
    node, idx' := n, idx;
    if idx' >= n.length {
      MatchEnter(V, K, loc, tree.root, tree.seqs, D, n, idx, y, t);
      if t !in n.children {
        return null, -1;
      }
      node := n.children[t];
      idx' := 0;
    } else {
      MatchInside(V, tree.root, n, idx, y);
    }
    MatchNext(V, K, loc, tree.root, tree.seqs, D, node, idx', y, t);
    if tree.seqs[node.refSeq][node.refIdx + idx'] != t {
      return null, -1;
    }
    idx' := idx' + 1;
  }

  lemma InNodes(V: Snapshot, root: Node, n: Node, idx: int, y: Str)
    requires Matched(V, root, n, idx, y)
    ensures n in V
  {
  }

  /** Follow the context from the root; no result when it does not occur. */
  method MatchContext(tree: SuffixTree, context: Str) returns (node: Node?, idx: int)
    requires tree.Valid()
    ensures node != null <==> context == [] || (|context| <= tree.maxDepth && OccurrencesOf(tree.seqs, context) != {})
    ensures node != null ==> node.count == |OccurrencesOf(tree.seqs, context)|
    ensures node != null ==> Matched(tree.V(), tree.root, node, idx, context) && node in tree.nodes
  {
    hide Sound, Matched, At;
    SoundTree(tree);
    ghost var V, K, loc, D := tree.V(), tree.K(), tree.loc, tree.maxDepth;
    MatchStarts(V, K, loc, tree.root, tree.seqs, D, context);
    hide *;
    var n := tree.root;
    idx := 0;
    for i := 0 to |context|
      invariant n in tree.nodes && Matched(V, tree.root, n, idx, context[..i])
    {
      NextPrefix(context, i);
      var next, nextIdx := MatchToken(tree, n, idx, context[i], context[..i]);
      if next == null {
        MatchFails(tree.seqs, D, context[..i], context[i], context);
        return null, -1;
      }
      n, idx := next, nextIdx;
    }
    assert context[..|context|] == context;
    MatchEnds(V, K, loc, tree.root, tree.seqs, D, n, idx, context);
    node := n;
  }
}
