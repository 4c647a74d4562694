/**
 Whole runs of a suffix tree: what any interleaving of extending and removing sequences leaves,
 and what can be read off the nodes of the tree afterwards.
 */
module TreeRuns {
  import opened Suffixes
  import opened Contents
  import opened Nodes
  import opened Trie
  import opened TrieKids
  import opened Occurrences
  import opened SuffixTrees
  import opened Drafting

  datatype Update = Extend(sid: int, tokens: Str) | Remove(sid: int)

  function After(seqs: Seqs, u: Update): Seqs {
    match u
    case Extend(sid, tokens) => Extended(seqs, sid, tokens)
    case Remove(sid) => seqs - {sid}
  }

  /** The sequences that are left after all updates, in order. */
  function AfterAll(seqs: Seqs, us: seq<Update>): Seqs {
    if us == [] then seqs else After(AfterAll(seqs, us[..|us| - 1]), us[|us| - 1])
  }

  method Run(depth: int, us: seq<Update>) returns (tree: SuffixTree)
    requires depth >= 1
    ensures tree.Valid() && tree.maxDepth == depth && tree.seqs == AfterAll(map[], us)
    ensures fresh(tree) && fresh(tree.nodes)
  {
    hide *;
    tree := new SuffixTree(depth);
    AfterNone();
    for i := 0 to |us|
      invariant tree.Valid() && tree.maxDepth == depth && tree.seqs == AfterAll(map[], us[..i])
      invariant fresh(tree) && fresh(tree.nodes)
    {
      AfterMore(us, i);
      match us[i] {
        case Extend(sid, tokens) => tree.Extend(sid, tokens);
        case Remove(sid) => tree.Remove(sid);
      }
    }
    assert us[..|us|] == us;
  }

  lemma AfterNone()
    ensures forall us: seq<Update> :: AfterAll(map[], us[..0]) == map[]
  {
  }

  lemma AfterMore(us: seq<Update>, i: nat)
    requires i < |us|
    ensures AfterAll(map[], us[..i + 1]) == match us[i] {
              case Extend(sid, tokens) => Extended(AfterAll(map[], us[..i]), sid, tokens)
              case Remove(sid) => AfterAll(map[], us[..i]) - {sid}
            }
  {
    assert us[..i + 1][..i] == us[..i];
  }

  /** After any updates, a nonempty string that is not too long is found exactly when it occurs in
      a sequence that is left, and the node it leads to counts its occurrences. */
  method CountAfter(depth: int, us: seq<Update>, w: Str) returns (n: nat)
    requires depth >= 1 && w != []
    ensures n == if |w| <= depth then |OccurrencesOf(AfterAll(map[], us), w)| else 0
  {
    var tree := Run(depth, us);
    hide tree.Valid;
    var node, idx := MatchContext(tree, w);
    n := if node == null then 0 else node.count;
  }

  /** Extending by a new sequence and removing it again restores the tree, up to label windows and
      the order of children. */
  method Undo(tree: SuffixTree, sid: int, tokens: Str)
    requires tree.Valid() && sid !in tree.seqs
    modifies tree, tree.nodes
    ensures tree.Valid() && tree.seqs == old(tree.seqs)
    ensures tree.loc.Keys == old(tree.loc.Keys)
    ensures forall w | w in tree.loc :: SameAt(old(tree.V()), old(tree.loc), tree.V(), tree.loc, w)
  {
    hide *;
    ghost var seqs := tree.seqs;
    GoodTree(tree);
    UndoSeqs(seqs, sid, tokens);
    tree.Extend(sid, tokens);
    tree.Remove(sid);
    GoodTree(tree);
    SameTree(old(tree.V()), old(tree.loc), tree.root, tree.V(), tree.loc, tree.root, Stored(seqs, tree.maxDepth));
  }

  lemma GoodTree(tree: SuffixTree)
    requires tree.Valid()
    ensures tree.maxDepth >= 1 && Good(tree.V(), tree.loc, tree.root, Stored(tree.seqs, tree.maxDepth))
  {
  }

  /** Every label window lies in a sequence that is stored, and ends an occurrence there of the
      whole string from the root to the node. */
  lemma WindowsLive(tree: SuffixTree, n: Node)
    requires tree.Valid() && n in tree.nodes && n != tree.root
    ensures n.refSeq in tree.seqs && 0 < n.length <= |n.path|
    ensures |n.path| <= n.refIdx + n.length <= |tree.seqs[n.refSeq]|
    ensures tree.seqs[n.refSeq][n.refIdx + n.length - |n.path|..n.refIdx + n.length] == n.path
  {
    GoodTree(tree);
    var V, ins := tree.V(), Stored(tree.seqs, tree.maxDepth);
    assert V[n] == n.Get();
    assert RefOk(V, ins, n) && Linked(V, n);
    StoredSpelled(tree.seqs, tree.maxDepth);
    WindowText(tree.seqs, ins, RefPos(V[n]), n.path);
  }

  lemma WindowText(seqs: Seqs, ins: Inserted, q: Pos, w: Str)
    requires Spelled(ins, seqs) && q in Through(ins, w)
    ensures q.sid in seqs && 0 <= q.start && q.start + |w| <= |seqs[q.sid]|
    ensures seqs[q.sid][q.start..q.start + |w|] == w
  {
    assert SpelledAt(ins, seqs, q);
    assert ins[q][..|w|] == seqs[q.sid][q.start..q.start + |w|];
  }

  /** The root counts the tokens stored, and there are at most twice as many other nodes. */
  lemma NodeBound(tree: SuffixTree)
    requires tree.Valid()
    ensures tree.root in tree.nodes && tree.root.count == |Positions(tree.seqs)|
    ensures |tree.nodes| <= 2 * |Positions(tree.seqs)| + 1
  {
    GoodTree(tree);
    var V, ins := tree.V(), Stored(tree.seqs, tree.maxDepth);
    SizeBound(V, tree.loc, tree.root, ins);
    assert V[tree.root] == tree.root.Get();
    assert ins.Keys == Positions(tree.seqs) && V.Keys == tree.nodes;
  }
}
