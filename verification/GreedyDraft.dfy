/**
 Greedy drafting (_speculate_path): from the matched place always follow the child with the
 highest count.
 */
module GreedyDraft {
  import opened Suffixes
  import opened Contents
  import opened Nodes
  import opened Trie
  import opened TrieKids
  import opened SiblingOrder
  import opened SuffixTrees
  import opened Drafting

  /** Estimated probability that x follows, given that m has been seen. */
  ghost function Prob(ins: Inserted, m: Str, x: Str): real {
    Ratio(Occ(ins, x), Occ(ins, m))
  }

  function Ratio(a: int, b: int): real {
    if b == 0 then 0.0 else a as real / b as real
  }

  /** It is the fraction of the occurrences of m after which x follows. */
  lemma ProbIs(ins: Inserted, m: Str, x: Str)
    ensures Occ(ins, m) > 0 ==> Prob(ins, m, x) * Occ(ins, m) as real == Occ(ins, x) as real
  {
    if Occ(ins, m) > 0 {
      Fraction(Occ(ins, x), Occ(ins, m));
    }
  }

  lemma Fraction(a: int, b: int)
    requires b > 0
    ensures Ratio(a, b) * b as real == a as real
  {
    var x, y := a as real, b as real;
    assert x / y * y == x;
  }

  function Sum(s: seq<real>): real {
    if s == [] then 0.0 else Sum(s[..|s| - 1]) + s[|s| - 1]
  }

  lemma RatioMono(a: int, c: int, b: int)
    requires a <= c && b > 0
    ensures Ratio(a, b) <= Ratio(c, b)
    ensures a < c ==> Ratio(a, b) < Ratio(c, b)
  {
    DivMono(a as real, c as real, b as real);
  }

  lemma DivMono(a: real, c: real, b: real)
    requires b > 0.0 && a <= c
    ensures a / b <= c / b
    ensures a < c ==> a / b < c / b
  {
    assert (c - a) / b == c / b - a / b;
  }

  lemma RatioSelf(a: int)
    requires a > 0
    ensures Ratio(a, a) == 1.0
  {
    var x := a as real;
    assert x / x == 1.0;
  }

  /** Probabilities telescope along a chain of counts. */
  lemma RatioChain(a: int, b: int, c: int)
    requires b > 0 && c > 0
    ensures Ratio(b, c) * Ratio(a, b) == Ratio(a, c)
  {
    var x, y, z := a as real, b as real, c as real;
    assert (y / z) * (x / y) == x / z;
  }

  /** Entry i of a chain: its token continues the draft before it at least as often as any other,
      and its probability is that of the whole string up to it. */
  ghost predicate ChainEntry(ins: Inserted, m: Str, minProb: real, d: Draft, i: int)
    requires 0 <= i < |d.tokens| && |d.parents| == |d.tokens| == |d.probs|
  {
    var x := m + d.tokens[..i + 1];
    && d.parents[i] == i - 1
    && Occ(ins, x) > 0 && d.probs[i] == Prob(ins, m, x) && d.probs[i] >= minProb
    && forall t :: Occ(ins, m + d.tokens[..i] + [t]) <= Occ(ins, x)
  }

  ghost predicate Chain(ins: Inserted, m: Str, minProb: real, d: Draft) {
    && |d.parents| == |d.tokens| == |d.probs|
    && (forall i {:trigger ChainEntry(ins, m, minProb, d, i)} | 0 <= i < |d.tokens| ::
         ChainEntry(ins, m, minProb, d, i))
    && d.score == Sum(d.probs)
  }

  /** No token continues y, or every continuation is too unlikely. */
  ghost predicate Exhausted(ins: Inserted, m: Str, minProb: real, y: Str) {
    forall t {:trigger y + [t]} :: Occ(ins, y + [t]) == 0 || Prob(ins, m, y + [t]) < minProb
  }

  // ----- The state of the loop -----

  ghost predicate Following(V: Snapshot, root: Node, ins: Inserted, m: Str, minProb: real, d: Draft, n: Node,
                            idx: int, prob: real)
  {
    && At(V, root, n, idx, m + d.tokens)
    && Occ(ins, m) > 0 && prob == Ratio(V[n].count, Occ(ins, m))
    && (forall t {:trigger m + d.tokens + [t]} :: Occ(ins, m + d.tokens + [t]) <= V[n].count)
    && Chain(ins, m, minProb, d)
  }

  lemma FollowStarts(V: Snapshot, loc: Places, root: Node, ins: Inserted, m: Str, minProb: real, n: Node, idx: int)
    requires Good(V, loc, root, ins) && At(V, root, n, idx, m) && idx > 0
    ensures Following(V, root, ins, m, minProb, NoDraft, n, idx, 1.0)
  {
    AtCount(V, loc, root, ins, n, idx, m);
    RatioSelf(V[n].count);
    assert m + [] == m;
    forall t ensures Occ(ins, m + NoDraft.tokens + [t]) <= V[n].count {
      ThroughShrinks(ins, m, m + [t]);
    }
  }

  function Emitted(d: Draft, t: Token, prob: real): Draft {
    d.(tokens := d.tokens + [t], parents := d.parents + [|d.tokens| - 1], probs := d.probs + [prob],
       score := d.score + prob)
  }

  lemma FollowEmits(V: Snapshot, loc: Places, root: Node, ins: Inserted, m: Str, minProb: real, d: Draft, n: Node,
                    idx: int, prob: real)
    requires Good(V, loc, root, ins) && Following(V, root, ins, m, minProb, d, n, idx, prob) && idx < V[n].length
             && prob >= minProb
    ensures |m + d.tokens| < |V[n].path|
    ensures Following(V, root, ins, m, minProb, Emitted(d, V[n].path[|m + d.tokens|], prob), n, idx + 1, prob)
  {
    var y := m + d.tokens;
    var t := V[n].path[|y|];
    var d' := Emitted(d, t, prob);
    AtNext(V, loc, root, ins, n, idx, y);
    AtCount(V, loc, root, ins, n, idx + 1, y + [t]);
    assert m + d'.tokens == y + [t];
    forall u ensures Occ(ins, m + d'.tokens + [u]) <= V[n].count {
      ThroughShrinks(ins, y + [t], y + [t] + [u]);
    }
    forall i | 0 <= i < |d'.tokens| ensures ChainEntry(ins, m, minProb, d', i) {
      EmittedEntry(ins, m, minProb, d, t, prob, i);
    }
    assert d'.probs[..|d.probs|] == d.probs;
  }

  lemma EmittedEntry(ins: Inserted, m: Str, minProb: real, d: Draft, t: Token, prob: real, i: int)
    requires Chain(ins, m, minProb, d) && 0 <= i <= |d.tokens|
    requires Occ(ins, m + d.tokens + [t]) > 0 && prob == Prob(ins, m, m + d.tokens + [t]) && prob >= minProb
    requires forall u {:trigger m + d.tokens + [u]} :: Occ(ins, m + d.tokens + [u]) <= Occ(ins, m + d.tokens + [t])
    ensures ChainEntry(ins, m, minProb, Emitted(d, t, prob), i)
  {
    var d' := Emitted(d, t, prob);
    if i < |d.tokens| {
      assert ChainEntry(ins, m, minProb, d, i);
      assert d'.tokens[..i + 1] == d.tokens[..i + 1] && d'.tokens[..i] == d.tokens[..i];
    } else {
      assert d'.tokens[..i] == d.tokens && m + d'.tokens[..i + 1] == m + d.tokens + [t];
      forall u ensures Occ(ins, m + d'.tokens[..i] + [u]) <= Occ(ins, m + d'.tokens[..i + 1]) {
        assert m + d'.tokens[..i] + [u] == m + d.tokens + [u];
      }
    }
  }

  /** The first child of a node is the most frequent continuation. */
  lemma HeadIsMost(V: Snapshot, K: Lists, loc: Places, root: Node, ins: Inserted, n: Node)
    requires Good(V, loc, root, ins) && AllKids(V, K) && n in V && K[n] != []
    ensures var c := K[n][0];
            && At(V, root, c, 0, V[n].path) && V[c].count > 0
            && forall t :: Occ(ins, V[n].path + [t]) <= V[c].count
  {
    var c := K[n][0];
    assert KidsAt(V, K, n) && KidOk(V, n, K[n], 0);
    AtChild(V, loc, root, ins, n, V[c].token);
    AtCount(V, loc, root, ins, c, 0, V[n].path);
    forall t ensures Occ(ins, V[n].path + [t]) <= V[c].count {
      AtChild(V, loc, root, ins, n, t);
      if t in V[n].children {
        assert Listed(V, n, K[n], t);
        var i :| 0 <= i < |K[n]| && K[n][i] == V[n].children[t];
        assert i > 0 ==> InOrder(Counts(V, K[n]), 0, i);
      }
    }
  }

  lemma NoKidsNoMore(V: Snapshot, K: Lists, loc: Places, root: Node, ins: Inserted, n: Node)
    requires Good(V, loc, root, ins) && AllKids(V, K) && n in V && K[n] == []
    ensures forall t :: Occ(ins, V[n].path + [t]) == 0
  {
    assert KidsAt(V, K, n);
    forall t ensures Occ(ins, V[n].path + [t]) == 0 {
      AtChild(V, loc, root, ins, n, t);
      assert t in V[n].children ==> Listed(V, n, K[n], t);
    }
  }

  lemma FollowDescends(V: Snapshot, K: Lists, loc: Places, root: Node, ins: Inserted, m: Str, minProb: real, d: Draft,
                       n: Node, idx: int, prob: real)
    requires Good(V, loc, root, ins) && AllKids(V, K) && n in K && K[n] != []
    requires Following(V, root, ins, m, minProb, d, n, idx, prob) && idx >= V[n].length
    ensures var c := K[n][0];
            && c in V && V[c].length > 0 && V[n].count > 0
            && Following(V, root, ins, m, minProb, d, c, 0, prob * Ratio(V[c].count, V[n].count))
  {
    var c := K[n][0];
    AtCount(V, loc, root, ins, n, idx, m + d.tokens);
    HeadIsMost(V, K, loc, root, ins, n);
    RatioChain(V[c].count, V[n].count, Occ(ins, m));
  }

  lemma FollowStops(V: Snapshot, K: Lists, loc: Places, root: Node, ins: Inserted, m: Str, minProb: real, d: Draft,
                    n: Node, idx: int, prob: real)
    requires Good(V, loc, root, ins) && AllKids(V, K) && n in K && Following(V, root, ins, m, minProb, d, n, idx, prob)
    requires prob < minProb || (idx >= V[n].length && K[n] == [])
    ensures Exhausted(ins, m, minProb, m + d.tokens)
  {
    var y := m + d.tokens;
    if prob < minProb {
      forall t ensures Prob(ins, m, y + [t]) < minProb {
        assert Occ(ins, y + [t]) <= V[n].count;
        RatioMono(Occ(ins, y + [t]), V[n].count, Occ(ins, m));
      }
    } else {
      AtCount(V, loc, root, ins, n, idx, y);
      NoKidsNoMore(V, K, loc, root, ins, n);
    }
  }

  lemma AtNode(V: Snapshot, root: Node, n: Node, idx: int, y: Str)
    requires At(V, root, n, idx, y)
    ensures n in V
  {
  }

  lemma FollowChain(V: Snapshot, root: Node, ins: Inserted, m: Str, minProb: real, d: Draft, n: Node, idx: int,
                    prob: real)
    requires Following(V, root, ins, m, minProb, d, n, idx, prob)
    ensures Chain(ins, m, minProb, d)
  {
  }

  /** The token the code reads, and the draft it makes. */
  lemma FollowToken(V: Snapshot, K: Lists, loc: Places, root: Node, seqs: Seqs, depth: int, m: Str, minProb: real,
                    d: Draft, n: Node, idx: int, prob: real)
    requires Sound(V, K, loc, root, seqs, depth)
             && Following(V, root, Stored(seqs, depth), m, minProb, d, n, idx, prob) && idx < V[n].length
    ensures V[n].refSeq in seqs && 0 <= V[n].refIdx + idx < |seqs[V[n].refSeq]|
    ensures |m + d.tokens| < |V[n].path| && seqs[V[n].refSeq][V[n].refIdx + idx] == V[n].path[|m + d.tokens|]
    ensures forall t :: Emitted(d, t, prob) ==
              d.(tokens := d.tokens + [t], parents := d.parents + [|d.tokens| - 1], probs := d.probs + [prob],
                 score := d.score + prob)
  {
    AtToken(V, loc, root, seqs, depth, n, idx, m + d.tokens);
  }

  /** Draft the most frequent continuation, token by token. */
  method SpeculatePath(tree: SuffixTree, node: Node, start: int, max: int, minProb: real, ghost m: Str)
    returns (d: Draft)
    requires tree.Valid() && At(tree.V(), tree.root, node, start, m) && start > 0 && max >= 0
    ensures Chain(Stored(tree.seqs, tree.maxDepth), m, minProb, d) && |d.tokens| <= max && d.matchLen == 0
    ensures |d.tokens| == max || Exhausted(Stored(tree.seqs, tree.maxDepth), m, minProb, m + d.tokens)
  {
    hide Chain, At, Good, AllKids, Exhausted;
    SoundTree(tree);
    ghost var V, K, loc, ins := tree.V(), tree.K(), tree.loc, Stored(tree.seqs, tree.maxDepth);
    FollowStarts(V, loc, tree.root, ins, m, minProb, node, start);
    AtNode(V, tree.root, node, start, m);
    hide *;
    d := NoDraft;
    var prob := 1.0;
    var n, idx := node, start;
    while |d.tokens| < max && prob >= minProb
      invariant n in tree.nodes && |d.tokens| <= max && d.matchLen == 0
      invariant Following(V, tree.root, ins, m, minProb, d, n, idx, prob)
      decreases max - |d.tokens|, if idx >= n.length then 1 else 0
    {
      if idx < n.length {
        FollowEmits(V, loc, tree.root, ins, m, minProb, d, n, idx, prob);
        FollowToken(V, K, loc, tree.root, tree.seqs, tree.maxDepth, m, minProb, d, n, idx, prob);
        d := d.(tokens := d.tokens + [tree.seqs[n.refSeq][n.refIdx + idx]], parents := d.parents + [|d.tokens| - 1],
                probs := d.probs + [prob], score := d.score + prob);
        idx := idx + 1;
      } else {
        if n.kids == [] {
          break;
        }
        FollowDescends(V, K, loc, tree.root, ins, m, minProb, d, n, idx, prob);
        var child := n.kids[0];
        prob := prob * (child.count as real / n.count as real);
        n := child;
        idx := 0;
      }
    }
    if |d.tokens| < max {
      FollowStops(V, K, loc, tree.root, ins, m, minProb, d, n, idx, prob);
    }
    FollowChain(V, tree.root, ins, m, minProb, d, n, idx, prob);
  }
}
