/**
 Best-first drafting (_speculate_tree): a priority queue of places in the tree yields a tree of
 tokens whose total probability no other choice of as many continuations exceeds.
 */
module TreeDraft {
  import opened Suffixes
  import opened Contents
  import opened Nodes
  import opened Trie
  import opened TrieKids
  import opened SiblingOrder
  import opened SuffixTrees
  import opened Drafting
  import opened GreedyDraft
  import opened Occurrences

  /** An entry of the queue: everything beyond idx tokens of the node's label is still to come. */
  datatype Item = Item(prob: real, node: Node, idx: int, parent: int)

  // ----- Continuations -----

  /** A continuation of m that occurs, and is likely enough to be drafted. */
  ghost predicate Eligible(ins: Inserted, m: Str, minProb: real, x: Str) {
    m <= x && |m| < |x| && Occ(ins, x) > 0 && Prob(ins, m, x) >= minProb
  }

  ghost function SumProb(ins: Inserted, m: Str, xs: seq<Str>): real {
    if xs == [] then 0.0 else SumProb(ins, m, xs[..|xs| - 1]) + Prob(ins, m, xs[|xs| - 1])
  }

  ghost predicate NoRepeats(xs: seq<Str>) {
    forall i, j {:trigger xs[i], xs[j]} | 0 <= i < j < |xs| :: xs[i] != xs[j]
  }

  /** Entry i of a drafted tree spells the string at its parent followed by its token. */
  ghost predicate TreeEntry(ins: Inserted, m: Str, minProb: real, d: Draft, strs: seq<Str>, i: int)
    requires 0 <= i < |d.tokens| && |d.parents| == |d.tokens| == |d.probs| == |strs|
  {
    && -1 <= d.parents[i] < i
    && strs[i] == (if d.parents[i] == -1 then m else strs[d.parents[i]]) + [d.tokens[i]]
    && Eligible(ins, m, minProb, strs[i])
    && d.probs[i] == Prob(ins, m, strs[i])
  }

  ghost predicate Tree(ins: Inserted, m: Str, minProb: real, d: Draft, strs: seq<Str>) {
    && |d.parents| == |d.tokens| == |d.probs| == |strs|
    && (forall i {:trigger TreeEntry(ins, m, minProb, d, strs, i)} | 0 <= i < |strs| ::
         TreeEntry(ins, m, minProb, d, strs, i))
    && d.score == Sum(d.probs) == SumProb(ins, m, strs)
    && Descends(d.probs)
  }

  ghost predicate Descends(ps: seq<real>) {
    forall i, j {:trigger ps[i], ps[j]} | 0 <= i < j < |ps| :: ps[i] >= ps[j]
  }

  // ----- What the queue still covers -----

  ghost predicate Covers(V: Snapshot, it: Item, x: Str) {
    && it.node in V
    && var r := V[it.node];
    && |r.path| - r.length + it.idx < |x|
    && (x <= r.path || r.path <= x)
  }

  ghost function One(V: Snapshot, it: Item, x: Str): nat {
    if Covers(V, it, x) then 1 else 0
  }

  ghost function CoverCount(V: Snapshot, Q: seq<Item>, x: Str): nat {
    if Q == [] then 0 else CoverCount(V, Q[..|Q| - 1], x) + One(V, Q[|Q| - 1], x)
  }

  ghost function Times(xs: seq<Str>, x: Str): nat {
    if xs == [] then 0 else Times(xs[..|xs| - 1], x) + if xs[|xs| - 1] == x then 1 else 0
  }

  lemma {:induction false} CoverCountConcat(V: Snapshot, Q: seq<Item>, R: seq<Item>, x: Str)
    ensures CoverCount(V, Q + R, x) == CoverCount(V, Q, x) + CoverCount(V, R, x)
    decreases |R|
  {
    if R == [] {
      assert Q + R == Q;
    } else {
      CoverCountConcat(V, Q, R[..|R| - 1], x);
      assert (Q + R)[..|Q + R| - 1] == Q + R[..|R| - 1];
    }
  }

  lemma CoverCountRemove(V: Snapshot, Q: seq<Item>, k: nat, x: Str)
    requires k < |Q|
    ensures CoverCount(V, RemoveAt(Q, k), x) + One(V, Q[k], x) == CoverCount(V, Q, x)
  {
    CoverCountConcat(V, Q[..k], Q[k + 1..], x);
    CoverCountConcat(V, Q[..k], [Q[k]], x);
    CoverCountConcat(V, Q[..k] + [Q[k]], Q[k + 1..], x);
    assert Q == Q[..k] + [Q[k]] + Q[k + 1..];
    assert [Q[k]][..0] == [];
  }

  lemma {:induction false} CoverCountNone(V: Snapshot, Q: seq<Item>, x: Str)
    requires forall i | 0 <= i < |Q| :: !Covers(V, Q[i], x)
    ensures CoverCount(V, Q, x) == 0
  {
    if Q != [] {
      CoverCountNone(V, Q[..|Q| - 1], x);
    }
  }

  lemma CoverCountOnce(V: Snapshot, Q: seq<Item>, k: nat, x: Str)
    requires k < |Q| && Covers(V, Q[k], x) && forall i | 0 <= i < |Q| && i != k :: !Covers(V, Q[i], x)
    ensures CoverCount(V, Q, x) == 1
  {
    CoverCountRemove(V, Q, k, x);
    CoverCountNone(V, RemoveAt(Q, k), x);
  }

  lemma {:induction false} CoverCountSome(V: Snapshot, Q: seq<Item>, x: Str) returns (k: nat)
    requires CoverCount(V, Q, x) > 0
    ensures k < |Q| && Covers(V, Q[k], x)
  {
    if Covers(V, Q[|Q| - 1], x) {
      k := |Q| - 1;
    } else {
      k := CoverCountSome(V, Q[..|Q| - 1], x);
    }
  }

  lemma {:induction false} TimesIn(xs: seq<Str>, x: Str)
    ensures Times(xs, x) > 0 <==> x in xs
  {
    if xs != [] {
      TimesIn(xs[..|xs| - 1], x);
      assert xs == xs[..|xs| - 1] + [xs[|xs| - 1]];
    }
  }

  lemma {:induction false} TimesOnce(xs: seq<Str>)
    requires forall x | x in xs :: Times(xs, x) <= 1
    ensures NoRepeats(xs)
  {
    if xs != [] {
      var ys, l := xs[..|xs| - 1], xs[|xs| - 1];
      assert xs == ys + [l];
      forall x | x in ys ensures Times(ys, x) <= 1 {
        assert x in xs && Times(ys, x) <= Times(xs, x);
      }
      TimesOnce(ys);
      TimesIn(ys, l);
      assert Times(xs, l) == Times(ys, l) + 1;
    }
  }

  // ----- One step of the loop -----

  ghost predicate ItemOk(V: Snapshot, root: Node, ins: Inserted, m: Str, minProb: real, strs: seq<Str>, it: Item) {
    && it.node in V && 0 <= V[it.node].length <= |V[it.node].path| && 0 <= it.idx <= V[it.node].length
    && var y := V[it.node].path[..|V[it.node].path| - V[it.node].length + it.idx];
    && At(V, root, it.node, it.idx, y) && m <= y
    && it.prob == Ratio(V[it.node].count, Occ(ins, m)) && it.prob >= minProb
    && (if it.parent == -1 then y == m else 0 <= it.parent < |strs| && strs[it.parent] == y)
  }

  ghost predicate ItemsOk(V: Snapshot, root: Node, ins: Inserted, m: Str, minProb: real, strs: seq<Str>, Q: seq<Item>) {
    forall k {:trigger ItemOk(V, root, ins, m, minProb, strs, Q[k])} | 0 <= k < |Q| ::
             ItemOk(V, root, ins, m, minProb, strs, Q[k])
  }

  /** Each eligible continuation is either drafted or still covered by the queue, exactly once. */
  ghost predicate Accounted(V: Snapshot, ins: Inserted, m: Str, minProb: real, strs: seq<Str>, Q: seq<Item>) {
    forall x {:trigger Eligible(ins, m, minProb, x)} | Eligible(ins, m, minProb, x) ::
             CoverCount(V, Q, x) + Times(strs, x) == 1
  }

  /** Everything drafted is at least as likely as bound, everything queued at most. */
  ghost predicate Bounded(d: Draft, Q: seq<Item>, bound: real) {
    && bound >= 0.0
    && (forall i | 0 <= i < |d.probs| :: d.probs[i] >= bound)
    && (forall k | 0 <= k < |Q| :: Q[k].prob <= bound)
  }

  ghost predicate Frontier(V: Snapshot, root: Node, ins: Inserted, m: Str, minProb: real, d: Draft, strs: seq<Str>,
                           Q: seq<Item>, bound: real)
  {
    && Occ(ins, m) > 0
    && Tree(ins, m, minProb, d, strs)
    && ItemsOk(V, root, ins, m, minProb, strs, Q)
    && Accounted(V, ins, m, minProb, strs, Q)
    && Bounded(d, Q, bound)
  }

  // A token is drafted.

  function Drafted(d: Draft, t: Token, it: Item): Draft {
    d.(tokens := d.tokens + [t], parents := d.parents + [it.parent], probs := d.probs + [it.prob],
       score := d.score + it.prob)
  }

  ghost function StringAt(V: Snapshot, it: Item): Str
    requires it.node in V && 0 <= it.idx <= V[it.node].length <= |V[it.node].path|
  {
    V[it.node].path[..|V[it.node].path| - V[it.node].length + it.idx]
  }

  /** One more token of the label leaves what is beyond it. */
  lemma CoverNext(V: Snapshot, it: Item, x: Str, parent: int)
    requires it.node in V && 0 <= it.idx < V[it.node].length <= |V[it.node].path|
    ensures var x0 := V[it.node].path[..|V[it.node].path| - V[it.node].length + it.idx + 1];
            One(V, it, x) == One(V, it.(idx := it.idx + 1, parent := parent), x) + if x == x0 then 1 else 0
  {
    var path := V[it.node].path;
    var l := |path| - V[it.node].length + it.idx;
    if |x| == l + 1 && x <= path {
      assert x == path[..l + 1];
    }
  }

  lemma DraftedAccounts(V: Snapshot, ins: Inserted, m: Str, minProb: real, strs: seq<Str>, Q: seq<Item>, k: nat,
                        x0: Str, parent: int)
    requires Accounted(V, ins, m, minProb, strs, Q) && k < |Q|
    requires Q[k].node in V && 0 <= Q[k].idx < V[Q[k].node].length <= |V[Q[k].node].path|
    requires x0 == V[Q[k].node].path[..|V[Q[k].node].path| - V[Q[k].node].length + Q[k].idx + 1]
    ensures Accounted(V, ins, m, minProb, strs + [x0], RemoveAt(Q, k) + [Q[k].(idx := Q[k].idx + 1, parent := parent)])
  {
    var it' := Q[k].(idx := Q[k].idx + 1, parent := parent);
    var Q', strs' := RemoveAt(Q, k) + [it'], strs + [x0];
    forall x | Eligible(ins, m, minProb, x) ensures CoverCount(V, Q', x) + Times(strs', x) == 1 {
      CoverCountRemove(V, Q, k, x);
      CoverCountConcat(V, RemoveAt(Q, k), [it'], x);
      assert [it'][..0] == [];
      CoverNext(V, Q[k], x, parent);
      assert strs'[..|strs|] == strs;
    }
  }

  lemma DraftedTree(ins: Inserted, m: Str, minProb: real, d: Draft, strs: seq<Str>, t: Token, it: Item, y: Str,
                    Q: seq<Item>, bound: real)
    requires Tree(ins, m, minProb, d, strs) && Bounded(d, Q, bound) && it in Q
    requires if it.parent == -1 then y == m else 0 <= it.parent < |strs| && strs[it.parent] == y
    requires Eligible(ins, m, minProb, y + [t]) && it.prob == Prob(ins, m, y + [t])
    ensures Tree(ins, m, minProb, Drafted(d, t, it), strs + [y + [t]])
  {
    var d', strs' := Drafted(d, t, it), strs + [y + [t]];
    forall i | 0 <= i < |strs'| ensures TreeEntry(ins, m, minProb, d', strs', i) {
      if i < |strs| {
        assert TreeEntry(ins, m, minProb, d, strs, i);
      }
    }
    assert d'.probs[..|d.probs|] == d.probs && strs'[..|strs|] == strs;
    assert it.prob <= bound;
  }

  lemma DraftedItems(V: Snapshot, root: Node, ins: Inserted, m: Str, minProb: real, strs: seq<Str>, Q: seq<Item>,
                     k: nat, x0: Str)
    requires ItemsOk(V, root, ins, m, minProb, strs, Q) && k < |Q|
    requires ItemOk(V, root, ins, m, minProb, strs + [x0], Q[k].(idx := Q[k].idx + 1, parent := |strs|))
    ensures ItemsOk(V, root, ins, m, minProb, strs + [x0],
                    RemoveAt(Q, k) + [Q[k].(idx := Q[k].idx + 1, parent := |strs|)])
  {
    var Q' := RemoveAt(Q, k) + [Q[k].(idx := Q[k].idx + 1, parent := |strs|)];
    forall j | 0 <= j < |Q'| ensures ItemOk(V, root, ins, m, minProb, strs + [x0], Q'[j]) {
      if j < |Q| - 1 {
        var j' := if j < k then j else j + 1;
        assert ItemOk(V, root, ins, m, minProb, strs, Q[j']) && Q'[j] == Q[j'];
      }
    }
  }

  lemma FrontierDrafts(V: Snapshot, loc: Places, root: Node, ins: Inserted, m: Str, minProb: real, d: Draft,
                       strs: seq<Str>, Q: seq<Item>, bound: real, k: nat)
    requires Good(V, loc, root, ins) && Frontier(V, root, ins, m, minProb, d, strs, Q, bound)
    requires k < |Q| && (forall j | 0 <= j < |Q| :: Q[j].prob <= Q[k].prob) && Q[k].node in V
             && Q[k].idx < V[Q[k].node].length
    ensures ItemOk(V, root, ins, m, minProb, strs, Q[k])
    ensures var it := Q[k]; var y := StringAt(V, it); var t := V[it.node].path[|y|];
            Frontier(V, root, ins, m, minProb, Drafted(d, t, it), strs + [y + [t]],
                     RemoveAt(Q, k) + [it.(idx := it.idx + 1, parent := |strs|)], it.prob)
  {
    var it := Q[k];
    assert ItemOk(V, root, ins, m, minProb, strs, it);
    var y := StringAt(V, it);
    var t := V[it.node].path[|y|];
    AtNext(V, loc, root, ins, it.node, it.idx, y);
    AtCount(V, loc, root, ins, it.node, it.idx + 1, y + [t]);
    PrefixExtends(m, y, t);
    DraftedTree(ins, m, minProb, d, strs, t, it, y, Q, bound);
    DraftedItems(V, root, ins, m, minProb, strs, Q, k, y + [t]);
    DraftedAccounts(V, ins, m, minProb, strs, Q, k, y + [t], |strs|);
    assert Bounded(Drafted(d, t, it), RemoveAt(Q, k) + [it.(idx := it.idx + 1, parent := |strs|)], it.prob);
  }

  lemma PrefixExtends(m: Str, y: Str, t: Token)
    requires m <= y
    ensures m <= y + [t] && |m| < |y + [t]|
  {
  }

  // A node is expanded.

  function KidItem(it: Item, c: Node, count: int, total: int): Item {
    Item(it.prob * Ratio(count, total), c, 0, it.parent)
  }

  ghost function KidItems(V: Snapshot, s: seq<Node>, it: Item, j: nat): seq<Item>
    requires j <= |s| && it.node in V
  {
    seq(j, i requires 0 <= i < j => KidItem(it, s[i], CountOf(V, s[i]), V[it.node].count))
  }

  /** Past the end of a label, each eligible continuation goes through exactly one child, and the
      children that the loop leaves out because they are too unlikely have none. */
  lemma KidsCover(V: Snapshot, K: Lists, loc: Places, root: Node, ins: Inserted, m: Str, minProb: real, it: Item,
                  j: nat, x: Str)
    requires Good(V, loc, root, ins) && AllKids(V, K) && it.node in V && j <= |K[it.node]| && Occ(ins, m) > 0
    requires it.idx == V[it.node].length && it.prob == Ratio(V[it.node].count, Occ(ins, m)) && V[it.node].count > 0
    requires j < |K[it.node]| ==> KidItem(it, K[it.node][j], CountOf(V, K[it.node][j]), V[it.node].count).prob < minProb
    requires Eligible(ins, m, minProb, x)
    ensures CoverCount(V, KidItems(V, K[it.node], it, j), x) == One(V, it, x)
  {
    var n, s := it.node, K[it.node];
    var items := KidItems(V, s, it, j);
    forall i | 0 <= i < j ensures Covers(V, items[i], x) ==>
             Covers(V, it, x) && |V[n].path| < |x| && x[|V[n].path|] == V[s[i]].token {
      if Covers(V, items[i], x) {
        KidCovers(V, K, loc, root, ins, n, i, x, items[i]);
      }
    }
    if Covers(V, it, x) {
      var q :| q in Through(ins, x);
      var i := KidThrough(V, K, loc, root, ins, m, minProb, it, j, x, q);
      assert Covers(V, items[i], x);
      forall i' | 0 <= i' < j && i' != i ensures !Covers(V, items[i'], x) {
        assert KidsAt(V, K, n) && KidOk(V, n, s, i) && KidOk(V, n, s, i') && (i != i' ==> s[i] != s[i']);
      }
      CoverCountOnce(V, items, i, x);
    } else {
      CoverCountNone(V, items, x);
    }
  }

  lemma KidCovers(V: Snapshot, K: Lists, loc: Places, root: Node, ins: Inserted, n: Node, i: nat, x: Str, kid: Item)
    requires Good(V, loc, root, ins) && AllKids(V, K) && n in V && i < |K[n]| && kid.node == K[n][i] && kid.idx == 0
    requires Covers(V, kid, x)
    ensures V[n].path <= x && |V[n].path| < |x| && x[|V[n].path|] == V[K[n][i]].token
  {
    var c := K[n][i];
    assert KidsAt(V, K, n) && KidOk(V, n, K[n], i);
    ChildFacts(V, root, n, V[c].token);
    var p := V[c].path;
    assert p[..|V[n].path|] == V[n].path && p[|V[n].path|] == V[c].token;
    if x <= p {
      assert x[..|V[n].path|] == p[..|V[n].path|];
    } else {
      assert x[..|p|] == p;
    }
  }

  /** The child that an occurrence of x goes through is in the part of the list that is queued. */
  lemma KidThrough(V: Snapshot, K: Lists, loc: Places, root: Node, ins: Inserted, m: Str, minProb: real, it: Item,
                   j: nat, x: Str, q: Pos) returns (i: nat)
    requires Good(V, loc, root, ins) && AllKids(V, K) && it.node in V && j <= |K[it.node]| && Occ(ins, m) > 0
    requires it.idx == V[it.node].length && it.prob == Ratio(V[it.node].count, Occ(ins, m)) && V[it.node].count > 0
    requires j < |K[it.node]| ==> KidItem(it, K[it.node][j], CountOf(V, K[it.node][j]), V[it.node].count).prob < minProb
    requires Eligible(ins, m, minProb, x) && Covers(V, it, x) && q in Through(ins, x)
    ensures i < j && Covers(V, KidItems(V, K[it.node], it, j)[i], x)
  {
    var n, s := it.node, K[it.node];
    var w := V[n].path;
    var t := x[|w|];
    assert w <= x;
    PrefixStep(w, x, t);
    ThroughShrinks(ins, w + [t], x);
    AtChild(V, loc, root, ins, n, t);
    ChildThrough(V, loc, root, ins, n, t);
    var c := V[n].children[t];
    assert KidsAt(V, K, n) && Listed(V, n, s, t);
    i :| 0 <= i < |s| && s[i] == c;
    PrefixesCompare(x, V[c].path, ins[q]);
    PrefixesCompare(V[c].path, x, ins[q]);
    RatioChain(V[c].count, V[n].count, Occ(ins, m));
    RatioMono(Occ(ins, x), V[c].count, Occ(ins, m));
    if j <= i {
      assert KidOk(V, n, s, j);
      RatioChain(V[s[j]].count, V[n].count, Occ(ins, m));
      assert j < i ==> InOrder(Counts(V, s), j, i);
      RatioMono(V[c].count, V[s[j]].count, Occ(ins, m));
      assert false;
    }
  }

  lemma KidItemOk(V: Snapshot, K: Lists, loc: Places, root: Node, ins: Inserted, m: Str, minProb: real,
                  strs: seq<Str>, it: Item, i: nat)
    requires Good(V, loc, root, ins) && AllKids(V, K) && ItemOk(V, root, ins, m, minProb, strs, it) && Occ(ins, m) > 0
    requires it.idx == V[it.node].length && i < |K[it.node]|
    ensures V[it.node].count > 0 && K[it.node][i] in V && V[K[it.node][i]].length > 0
    ensures var kid := KidItem(it, K[it.node][i], CountOf(V, K[it.node][i]), V[it.node].count);
            && kid.prob <= it.prob
            && (kid.prob >= minProb ==> ItemOk(V, root, ins, m, minProb, strs, kid))
  {
    var n, c := it.node, K[it.node][i];
    assert KidsAt(V, K, n) && KidOk(V, n, K[n], i);
    AtCount(V, loc, root, ins, n, it.idx, V[n].path);
    AtChild(V, loc, root, ins, n, V[c].token);
    ThroughShrinks(ins, V[n].path, V[n].path + [V[c].token]);
    assert Counted(V, root, ins, n);
    RatioChain(V[c].count, V[n].count, Occ(ins, m));
    RatioMono(V[c].count, V[n].count, Occ(ins, m));
  }

  lemma ExpandedAccounts(V: Snapshot, K: Lists, loc: Places, root: Node, ins: Inserted, m: Str, minProb: real,
                         strs: seq<Str>, Q: seq<Item>, k: nat, j: nat)
    requires Good(V, loc, root, ins) && AllKids(V, K) && Accounted(V, ins, m, minProb, strs, Q) && k < |Q|
             && Occ(ins, m) > 0
    requires Q[k].node in V && Q[k].idx == V[Q[k].node].length && j <= |K[Q[k].node]|
    requires Q[k].prob == Ratio(V[Q[k].node].count, Occ(ins, m)) && V[Q[k].node].count > 0
    requires j < |K[Q[k].node]| ==>
               KidItem(Q[k], K[Q[k].node][j], CountOf(V, K[Q[k].node][j]), V[Q[k].node].count).prob < minProb
    ensures Accounted(V, ins, m, minProb, strs, RemoveAt(Q, k) + KidItems(V, K[Q[k].node], Q[k], j))
  {
    var parts := KidItems(V, K[Q[k].node], Q[k], j);
    forall x | Eligible(ins, m, minProb, x) ensures CoverCount(V, RemoveAt(Q, k) + parts, x) + Times(strs, x) == 1 {
      CoverCountRemove(V, Q, k, x);
      CoverCountConcat(V, RemoveAt(Q, k), parts, x);
      KidsCover(V, K, loc, root, ins, m, minProb, Q[k], j, x);
    }
  }

  lemma FrontierExpands(V: Snapshot, K: Lists, loc: Places, root: Node, ins: Inserted, m: Str, minProb: real,
                        d: Draft, strs: seq<Str>, Q: seq<Item>, bound: real, k: nat, j: nat)
    requires Good(V, loc, root, ins) && AllKids(V, K) && Frontier(V, root, ins, m, minProb, d, strs, Q, bound)
    requires k < |Q| && (forall i | 0 <= i < |Q| :: Q[i].prob <= Q[k].prob) && Q[k].node in V
             && Q[k].idx >= V[Q[k].node].length
    requires j <= |K[Q[k].node]|
    requires forall i | 0 <= i < j ::
               KidItem(Q[k], K[Q[k].node][i], CountOf(V, K[Q[k].node][i]), V[Q[k].node].count).prob >= minProb
    requires j < |K[Q[k].node]| ==>
               KidItem(Q[k], K[Q[k].node][j], CountOf(V, K[Q[k].node][j]), V[Q[k].node].count).prob < minProb
    ensures Frontier(V, root, ins, m, minProb, d, strs, RemoveAt(Q, k) + KidItems(V, K[Q[k].node], Q[k], j), Q[k].prob)
    ensures forall i | 0 <= i < j :: K[Q[k].node][i] in V && V[K[Q[k].node][i]].length > 0
  {
    var it, s := Q[k], K[Q[k].node];
    assert ItemOk(V, root, ins, m, minProb, strs, it);
    AtCount(V, loc, root, ins, it.node, it.idx, StringAt(V, it));
    ExpandedAccounts(V, K, loc, root, ins, m, minProb, strs, Q, k, j);
    var parts := KidItems(V, s, it, j);
    var Q' := RemoveAt(Q, k) + parts;
    forall i | 0 <= i < j ensures parts[i].prob <= it.prob && ItemOk(V, root, ins, m, minProb, strs, parts[i])
           && s[i] in V && V[s[i]].length > 0 {
      KidItemOk(V, K, loc, root, ins, m, minProb, strs, it, i);
    }
    forall i | 0 <= i < |Q'| ensures ItemOk(V, root, ins, m, minProb, strs, Q'[i]) {
      if i < |Q| - 1 {
        var i' := if i < k then i else i + 1;
        assert ItemOk(V, root, ins, m, minProb, strs, Q[i']) && Q'[i] == Q[i'];
      } else {
        assert Q'[i] == parts[i - (|Q| - 1)];
      }
    }
  }

  lemma FrontierStarts(V: Snapshot, loc: Places, root: Node, ins: Inserted, m: Str, minProb: real, n: Node, idx: int)
    requires Good(V, loc, root, ins) && At(V, root, n, idx, m) && idx > 0 && minProb <= 1.0
    ensures Frontier(V, root, ins, m, minProb, NoDraft, [], [Item(1.0, n, idx, -1)], 1.0)
  {
    var it := Item(1.0, n, idx, -1);
    AtCount(V, loc, root, ins, n, idx, m);
    RatioSelf(V[n].count);
    assert ItemOk(V, root, ins, m, minProb, [], it);
    forall x | Eligible(ins, m, minProb, x) ensures CoverCount(V, [it], x) + Times([], x) == 1 {
      var q :| q in Through(ins, x);
      assert q in Through(ins, m) by { ThroughShrinks(ins, m, x); }
      assert q in Through(ins, V[n].path);
      PrefixesCompare(x, V[n].path, ins[q]);
      PrefixesCompare(V[n].path, x, ins[q]);
      assert Covers(V, it, x) && [it][..0] == [];
    }
  }

  // ----- No other choice is better -----

  /** Strings of probability at least c sum to no less than at most as many of probability at most c. */
  lemma {:induction false} ApartSum(ins: Inserted, m: Str, S: seq<Str>, T: seq<Str>, c: real)
    requires c >= 0.0 && |T| <= |S|
    requires forall i | 0 <= i < |S| :: Prob(ins, m, S[i]) >= c
    requires forall i | 0 <= i < |T| :: Prob(ins, m, T[i]) <= c
    ensures SumProb(ins, m, T) <= SumProb(ins, m, S)
    decreases |S|
  {
    hide Prob;
    if S != [] {
      ApartSum(ins, m, S[..|S| - 1], if T == [] then [] else T[..|T| - 1], c);
    }
  }

  lemma {:induction false} SumRemove(ins: Inserted, m: Str, xs: seq<Str>, k: nat)
    requires k < |xs|
    ensures SumProb(ins, m, xs) == SumProb(ins, m, RemoveAt(xs, k)) + Prob(ins, m, xs[k])
    decreases |xs|
  {
    var l := |xs| - 1;
    if k == l {
      assert RemoveAt(xs, k) == xs[..l];
    } else {
      SumRemove(ins, m, xs[..l], k);
      assert RemoveAt(xs, k)[..l - 1] == RemoveAt(xs[..l], k);
    }
  }

  /** The most likely strings, down to probability c, have the highest sum among all choices of
      at most as many strings. */
  lemma {:induction false} TopSum(ins: Inserted, m: Str, S: seq<Str>, T: seq<Str>, c: real)
    requires NoRepeats(S) && NoRepeats(T) && c >= 0.0
    requires forall i | 0 <= i < |S| :: Prob(ins, m, S[i]) >= c
    requires forall i | 0 <= i < |T| && T[i] !in S :: Prob(ins, m, T[i]) <= c
    requires |T| <= |S| || forall i | 0 <= i < |T| :: T[i] in S
    ensures SumProb(ins, m, T) <= SumProb(ins, m, S)
    decreases |T|
  {
    hide Prob, SumProb;
    if i :| 0 <= i < |T| && T[i] in S {
      var k :| 0 <= k < |S| && S[k] == T[i];
      var S', T' := RemoveAt(S, k), RemoveAt(T, i);
      SumRemove(ins, m, S, k);
      SumRemove(ins, m, T, i);
      RemoveKeeps(S, k);
      RemoveKeeps(T, i);
      TopSum(ins, m, S', T', c);
    } else {
      assert |T| <= |S| by {
        if T != [] {
          assert T[0] !in S;
        }
      }
      ApartSum(ins, m, S, T, c);
    }
  }

  lemma RemoveKeeps(xs: seq<Str>, k: nat)
    requires NoRepeats(xs) && k < |xs|
    ensures NoRepeats(RemoveAt(xs, k))
    ensures forall x :: x in RemoveAt(xs, k) <==> x in xs && x != xs[k]
  {
    var r := RemoveAt(xs, k);
    forall x ensures x in r <==> x in xs && x != xs[k] {
      if x in xs && x != xs[k] {
        var i :| 0 <= i < |xs| && xs[i] == x;
        assert r[if i < k then i else i - 1] == x;
      }
      if x in r {
        var i :| 0 <= i < |r| && r[i] == x;
        assert xs[if i < k then i else i + 1] == x;
      }
    }
  }

  /** A choice of at most max different eligible continuations. */
  ghost predicate Choice(ins: Inserted, m: Str, minProb: real, T: seq<Str>, max: int) {
    NoRepeats(T) && |T| <= max && forall i | 0 <= i < |T| :: Eligible(ins, m, minProb, T[i])
  }

  /** No choice has a higher total probability. */
  ghost predicate Best(ins: Inserted, m: Str, minProb: real, max: int, score: real) {
    forall T {:trigger SumProb(ins, m, T)} | Choice(ins, m, minProb, T, max) :: SumProb(ins, m, T) <= score
  }

  /** Nothing likely enough is left out. */
  ghost predicate Complete(ins: Inserted, m: Str, minProb: real, strs: seq<Str>) {
    forall x {:trigger Eligible(ins, m, minProb, x)} | Eligible(ins, m, minProb, x) :: x in strs
  }

  /** What the queue still covers is at most as likely as its most likely item. */
  lemma CoveredProb(V: Snapshot, loc: Places, root: Node, ins: Inserted, m: Str, minProb: real, strs: seq<Str>,
                    it: Item, x: Str)
    requires Good(V, loc, root, ins) && ItemOk(V, root, ins, m, minProb, strs, it) && Covers(V, it, x)
             && Occ(ins, m) > 0
    ensures Prob(ins, m, x) <= it.prob
  {
    var n := it.node;
    assert Counted(V, root, ins, n);
    if x <= V[n].path {
      LabelThrough(V, root, ins, n, x);
    } else {
      ThroughShrinks(ins, V[n].path, x);
    }
    RatioMono(Occ(ins, x), V[n].count, Occ(ins, m));
  }

  lemma FrontierStrings(V: Snapshot, root: Node, ins: Inserted, m: Str, minProb: real, d: Draft, strs: seq<Str>,
                        Q: seq<Item>, bound: real)
    requires Frontier(V, root, ins, m, minProb, d, strs, Q, bound)
    ensures NoRepeats(strs)
    ensures forall i | 0 <= i < |strs| :: Eligible(ins, m, minProb, strs[i]) && Prob(ins, m, strs[i]) >= bound
  {
    forall i | 0 <= i < |strs| ensures Eligible(ins, m, minProb, strs[i]) && Prob(ins, m, strs[i]) >= bound {
      assert TreeEntry(ins, m, minProb, d, strs, i);
    }
    forall x | x in strs ensures Times(strs, x) <= 1 {
      assert Eligible(ins, m, minProb, x);
    }
    TimesOnce(strs);
  }

  lemma FrontierRest(V: Snapshot, loc: Places, root: Node, ins: Inserted, m: Str, minProb: real, d: Draft,
                     strs: seq<Str>, Q: seq<Item>, bound: real, x: Str)
    requires Good(V, loc, root, ins) && Frontier(V, root, ins, m, minProb, d, strs, Q, bound)
    requires Eligible(ins, m, minProb, x) && x !in strs
    ensures Q != [] && Prob(ins, m, x) <= bound
  {
    TimesIn(strs, x);
    var k := CoverCountSome(V, Q, x);
    assert ItemOk(V, root, ins, m, minProb, strs, Q[k]);
    CoveredProb(V, loc, root, ins, m, minProb, strs, Q[k], x);
  }

  /** When the budget is used up, or nothing is left, no choice is better. */
  lemma FrontierEnds(V: Snapshot, loc: Places, root: Node, ins: Inserted, m: Str, minProb: real, d: Draft,
                     strs: seq<Str>, Q: seq<Item>, bound: real, max: int)
    requires Good(V, loc, root, ins) && Frontier(V, root, ins, m, minProb, d, strs, Q, bound)
    requires |strs| == max || Q == []
    ensures Tree(ins, m, minProb, d, strs) && NoRepeats(strs) && Best(ins, m, minProb, max, d.score)
    ensures |strs| == max || Complete(ins, m, minProb, strs)
  {
    FrontierStrings(V, root, ins, m, minProb, d, strs, Q, bound);
    forall T | Choice(ins, m, minProb, T, max) ensures SumProb(ins, m, T) <= d.score {
      forall i | 0 <= i < |T| && T[i] !in strs ensures Q != [] && Prob(ins, m, T[i]) <= bound {
        FrontierRest(V, loc, root, ins, m, minProb, d, strs, Q, bound, T[i]);
      }
      TopSum(ins, m, strs, T, bound);
    }
    forall x | Eligible(ins, m, minProb, x) && |strs| != max ensures x in strs {
      if x !in strs {
        FrontierRest(V, loc, root, ins, m, minProb, d, strs, Q, bound, x);
        assert false;
      }
    }
  }

  // ----- The loop -----

  /** Items at the end of a label, which will be expanded. */
  ghost function FullCount(V: Snapshot, Q: seq<Item>): nat {
    if Q == [] then 0 else FullCount(V, Q[..|Q| - 1]) + IsFull(V, Q[|Q| - 1])
  }

  ghost function IsFull(V: Snapshot, it: Item): nat {
    if it.node in V && it.idx < V[it.node].length then 0 else 1
  }

  lemma {:induction false} FullCountConcat(V: Snapshot, Q: seq<Item>, R: seq<Item>)
    ensures FullCount(V, Q + R) == FullCount(V, Q) + FullCount(V, R)
    decreases |R|
  {
    if R == [] {
      assert Q + R == Q;
    } else {
      FullCountConcat(V, Q, R[..|R| - 1]);
      assert (Q + R)[..|Q + R| - 1] == Q + R[..|R| - 1];
    }
  }

  lemma {:induction false} FullCountNone(V: Snapshot, R: seq<Item>)
    requires forall i | 0 <= i < |R| :: IsFull(V, R[i]) == 0
    ensures FullCount(V, R) == 0
  {
    if R != [] {
      FullCountNone(V, R[..|R| - 1]);
    }
  }

  /** Expanding a full item leaves one full item less. */
  lemma FullCountSplit(V: Snapshot, Q: seq<Item>, k: nat)
    requires k < |Q| && Q[k].node in V && Q[k].idx >= V[Q[k].node].length
    ensures FullCount(V, Q) == FullCount(V, RemoveAt(Q, k)) + 1
  {
    FullCountConcat(V, Q[..k], Q[k + 1..]);
    FullCountConcat(V, Q[..k], [Q[k]]);
    FullCountConcat(V, Q[..k] + [Q[k]], Q[k + 1..]);
    assert Q == Q[..k] + [Q[k]] + Q[k + 1..] && [Q[k]][..0] == [];
  }

  lemma ExpandShrinks(V: Snapshot, K: Lists, Q: seq<Item>, k: nat, j: nat)
    requires k < |Q| && Q[k].node in V && Q[k].node in K && Q[k].idx >= V[Q[k].node].length && j <= |K[Q[k].node]|
    requires forall i | 0 <= i < j :: K[Q[k].node][i] in V && V[K[Q[k].node][i]].length > 0
    ensures FullCount(V, RemoveAt(Q, k) + KidItems(V, K[Q[k].node], Q[k], j)) < FullCount(V, Q)
  {
    var parts := KidItems(V, K[Q[k].node], Q[k], j);
    FullCountConcat(V, RemoveAt(Q, k), parts);
    FullCountNone(V, parts);
    FullCountSplit(V, Q, k);
  }

  lemma {:induction false} SomeMax(Q: seq<Item>)
    requires Q != []
    ensures exists k :: 0 <= k < |Q| && forall j | 0 <= j < |Q| :: Q[j].prob <= Q[k].prob
  {
    if |Q| == 1 {
      assert forall j | 0 <= j < |Q| :: Q[j].prob <= Q[0].prob;
    } else {
      var R := Q[..|Q| - 1];
      SomeMax(R);
      var k :| 0 <= k < |R| && forall j | 0 <= j < |R| :: R[j].prob <= R[k].prob;
      var b := if R[k].prob >= Q[|Q| - 1].prob then k else |Q| - 1;
      forall j | 0 <= j < |Q| ensures Q[j].prob <= Q[b].prob {
        assert j < |R| ==> R[j] == Q[j];
      }
    }
  }

  lemma KidItemsMore(V: Snapshot, s: seq<Node>, it: Item, j: nat)
    requires j < |s| && it.node in V
    ensures KidItems(V, s, it, j + 1) == KidItems(V, s, it, j) + [KidItem(it, s[j], CountOf(V, s[j]), V[it.node].count)]
  {
  }

  /** The children of an expanded node, up to the first that is too unlikely. */
  method QueueKids(tree: SuffixTree, it: Item, minProb: real, rest: seq<Item>) returns (Q: seq<Item>, ghost j: nat)
    requires tree.Valid() && it.node in tree.nodes && it.node.count > 0
    requires forall i | 0 <= i < |it.node.kids| :: it.node.kids[i] in tree.nodes
    ensures j <= |it.node.kids| && Q == rest + KidItems(tree.V(), it.node.kids, it, j)
    ensures forall i | 0 <= i < j :: KidItem(it, it.node.kids[i], it.node.kids[i].count, it.node.count).prob >= minProb
    ensures j < |it.node.kids| ==> KidItem(it, it.node.kids[j], it.node.kids[j].count, it.node.count).prob < minProb
  {
    hide Good, AllKids, ActiveOk;
    Q := rest;
    j := 0;
    var i := 0;
    while i < |it.node.kids|
      invariant i == j <= |it.node.kids| && Q == rest + KidItems(tree.V(), it.node.kids, it, j)
      invariant forall a | 0 <= a < j ::
                  KidItem(it, it.node.kids[a], it.node.kids[a].count, it.node.count).prob >= minProb
    {
      var child := it.node.kids[i];
      var prob := it.prob * (child.count as real / it.node.count as real);
      if prob < minProb {
        return;
      }
      KidItemsMore(tree.V(), it.node.kids, it, j);
      assert tree.V()[child] == child.Get() && tree.V()[it.node] == it.node.Get();
      assert Item(prob, child, 0, it.parent) == KidItem(it, child, child.count, it.node.count);
      Q := Q + [Item(prob, child, 0, it.parent)];
      i := i + 1;
      j := j + 1;
    }
  }

  lemma FrontierItem(V: Snapshot, K: Lists, loc: Places, root: Node, ins: Inserted, m: Str, minProb: real, d: Draft,
                     strs: seq<Str>, Q: seq<Item>, bound: real, k: nat)
    requires Good(V, loc, root, ins) && AllKids(V, K) && Frontier(V, root, ins, m, minProb, d, strs, Q, bound)
             && k < |Q|
    ensures var it := Q[k];
            && it.node in V && 0 <= it.idx <= V[it.node].length <= |V[it.node].path| && V[it.node].count > 0
            && At(V, root, it.node, it.idx, StringAt(V, it))
            && it.node in K && forall i | 0 <= i < |K[it.node]| :: K[it.node][i] in V
  {
    assert ItemOk(V, root, ins, m, minProb, strs, Q[k]);
    AtCount(V, loc, root, ins, Q[k].node, Q[k].idx, StringAt(V, Q[k]));
    assert KidsAt(V, K, Q[k].node);
    forall i | 0 <= i < |K[Q[k].node]| ensures K[Q[k].node][i] in V {
      assert KidOk(V, Q[k].node, K[Q[k].node], i);
    }
  }

  lemma FrontierLengths(V: Snapshot, root: Node, ins: Inserted, m: Str, minProb: real, d: Draft, strs: seq<Str>,
                        Q: seq<Item>, bound: real)
    requires Frontier(V, root, ins, m, minProb, d, strs, Q, bound)
    ensures |d.tokens| == |strs|
  {
  }

  /** The code does not test the first label against the threshold.  Its tokens have probability
      one, and below a node every child is less likely, so a threshold above one acts as one. */
  function Threshold(minProb: real): real {
    if minProb > 1.0 then 1.0 else minProb
  }

  lemma KidBelowOne(V: Snapshot, K: Lists, loc: Places, root: Node, ins: Inserted, m: Str, minProb: real, d: Draft,
                    strs: seq<Str>, Q: seq<Item>, bound: real, k: nat, i: nat)
    requires Good(V, loc, root, ins) && AllKids(V, K) && Frontier(V, root, ins, m, minProb, d, strs, Q, bound)
             && k < |Q|
    requires Q[k].node in K && Q[k].node in V && Q[k].idx >= V[Q[k].node].length && i < |K[Q[k].node]|
    ensures KidItem(Q[k], K[Q[k].node][i], CountOf(V, K[Q[k].node][i]), V[Q[k].node].count).prob < 1.0
  {
    var it, n, c := Q[k], Q[k].node, K[Q[k].node][i];
    assert ItemOk(V, root, ins, m, minProb, strs, it);
    assert KidsAt(V, K, n) && KidOk(V, n, K[n], i) && c in K[n];
    CountsAddUp(V, K, loc, root, ins, n);
    AtCount(V, loc, root, ins, n, it.idx, StringAt(V, it));
    ThroughShrinks(ins, m, StringAt(V, it));
    RatioChain(V[c].count, V[n].count, Occ(ins, m));
    RatioMono(V[c].count, Occ(ins, m), Occ(ins, m));
    RatioSelf(Occ(ins, m));
  }

  /** Draft a tree of continuations, most likely first. */
  method SpeculateTree(tree: SuffixTree, node: Node, start: int, max: int, minProb: real, ghost m: Str)
    returns (d: Draft, ghost strs: seq<Str>)
    requires tree.Valid() && At(tree.V(), tree.root, node, start, m) && start > 0 && max >= 0
    ensures Tree(Stored(tree.seqs, tree.maxDepth), m, Threshold(minProb), d, strs) && |d.tokens| <= max
            && d.matchLen == 0
    ensures NoRepeats(strs) && Best(Stored(tree.seqs, tree.maxDepth), m, Threshold(minProb), max, d.score)
    ensures |d.tokens| == max || Complete(Stored(tree.seqs, tree.maxDepth), m, Threshold(minProb), strs)
  {
    hide tree.Valid, At, Good, AllKids, Frontier, Stored;
    SoundTree(tree);
    ghost var V, K, loc, ins, low := tree.V(), tree.K(), tree.loc, Stored(tree.seqs, tree.maxDepth), Threshold(minProb);
    FrontierStarts(V, loc, tree.root, ins, m, low, node, start);
    AtNode(V, tree.root, node, start, m);
    hide *;
    d, strs := NoDraft, [];
    var queue := [Item(1.0, node, start, -1)];
    ghost var bound := 1.0;
    FrontierLengths(V, tree.root, ins, m, low, d, strs, queue, bound);
    while |d.tokens| < max && queue != []
      invariant Frontier(V, tree.root, ins, m, low, d, strs, queue, bound)
      invariant |d.tokens| == |strs| <= max && d.matchLen == 0
      decreases max - |d.tokens|, FullCount(V, queue)
    {
      SomeMax(queue);
      var k :| 0 <= k < |queue| && forall j | 0 <= j < |queue| :: queue[j].prob <= queue[k].prob;
      var it := queue[k];
      FrontierItem(V, K, loc, tree.root, ins, m, low, d, strs, queue, bound, k);
      assert V[it.node] == it.node.Get() && K[it.node] == it.node.kids;
      if it.idx < it.node.length {
        DraftTurn(V, K, loc, tree.root, tree.seqs, tree.maxDepth, m, low, d, strs, queue, bound, k);
        var token := tree.seqs[it.node.refSeq][it.node.refIdx + it.idx];
        ghost var y := StringAt(V, it);
        d := d.(tokens := d.tokens + [token], parents := d.parents + [it.parent], probs := d.probs + [it.prob],
                score := d.score + it.prob);
        queue := RemoveAt(queue, k) + [it.(idx := it.idx + 1, parent := |d.tokens| - 1)];
        strs := strs + [y + [token]];
      } else {
        ghost var Q, j := queue, 0;
        queue, j := QueueKids(tree, it, minProb, RemoveAt(queue, k));
        QueuedKids(tree, it, j);
        ExpandTurn(V, K, loc, tree.root, ins, m, minProb, d, strs, Q, bound, k, j);
      }
      bound := it.prob;
    }
    FrontierEnds(V, loc, tree.root, ins, m, low, d, strs, queue, bound, max);
  }

  /** The turn of an item within a label. */
  lemma DraftTurn(V: Snapshot, K: Lists, loc: Places, root: Node, seqs: Seqs, depth: int, m: Str, minProb: real,
                  d: Draft, strs: seq<Str>, Q: seq<Item>, bound: real, k: nat)
    requires Sound(V, K, loc, root, seqs, depth)
             && Frontier(V, root, Stored(seqs, depth), m, minProb, d, strs, Q, bound) && |d.tokens| == |strs|
    requires k < |Q| && (forall j | 0 <= j < |Q| :: Q[j].prob <= Q[k].prob)
    requires Q[k].node in V && 0 <= Q[k].idx < V[Q[k].node].length <= |V[Q[k].node].path|
             && At(V, root, Q[k].node, Q[k].idx, StringAt(V, Q[k]))
    ensures var it, r := Q[k], V[Q[k].node];
            && r.refSeq in seqs && 0 <= r.refIdx + it.idx < |seqs[r.refSeq]|
            && var token := seqs[r.refSeq][r.refIdx + it.idx];
            Frontier(V, root, Stored(seqs, depth), m, minProb,
                     d.(tokens := d.tokens + [token], parents := d.parents + [it.parent],
                        probs := d.probs + [it.prob], score := d.score + it.prob),
                     strs + [StringAt(V, it) + [token]],
                     RemoveAt(Q, k) + [it.(idx := it.idx + 1, parent := |d.tokens|)], it.prob)
  {
    hide Frontier, Good, AllKids, At;
    FrontierDrafts(V, loc, root, Stored(seqs, depth), m, minProb, d, strs, Q, bound, k);
    ItemToken(V, K, loc, root, seqs, depth, Q[k]);
  }

  /** The turn of an item at the end of a label. */
  lemma ExpandTurn(V: Snapshot, K: Lists, loc: Places, root: Node, ins: Inserted, m: Str, minProb: real,
                   d: Draft, strs: seq<Str>, Q: seq<Item>, bound: real, k: nat, j: nat)
    requires Good(V, loc, root, ins) && AllKids(V, K)
             && Frontier(V, root, ins, m, Threshold(minProb), d, strs, Q, bound)
    requires k < |Q| && (forall i | 0 <= i < |Q| :: Q[i].prob <= Q[k].prob)
    requires Q[k].node in V && Q[k].node in K && Q[k].idx >= V[Q[k].node].length && j <= |K[Q[k].node]|
    requires forall i | 0 <= i < j ::
               KidItem(Q[k], K[Q[k].node][i], CountOf(V, K[Q[k].node][i]), V[Q[k].node].count).prob >= minProb
    requires j < |K[Q[k].node]| ==>
               KidItem(Q[k], K[Q[k].node][j], CountOf(V, K[Q[k].node][j]), V[Q[k].node].count).prob < minProb
    ensures var Q' := RemoveAt(Q, k) + KidItems(V, K[Q[k].node], Q[k], j);
            Frontier(V, root, ins, m, Threshold(minProb), d, strs, Q', Q[k].prob) && FullCount(V, Q') < FullCount(V, Q)
  {
    hide Frontier, Good, AllKids, KidItem;
    if j < |K[Q[k].node]| {
      KidBelowOne(V, K, loc, root, ins, m, Threshold(minProb), d, strs, Q, bound, k, j);
    }
    FrontierExpands(V, K, loc, root, ins, m, Threshold(minProb), d, strs, Q, bound, k, j);
    ExpandShrinks(V, K, Q, k, j);
  }

  lemma ItemToken(V: Snapshot, K: Lists, loc: Places, root: Node, seqs: Seqs, depth: int, it: Item)
    requires Sound(V, K, loc, root, seqs, depth) && it.node in V && 0 <= it.idx < V[it.node].length <= |V[it.node].path|
    requires At(V, root, it.node, it.idx, StringAt(V, it))
    ensures V[it.node].refSeq in seqs && 0 <= V[it.node].refIdx + it.idx < |seqs[V[it.node].refSeq]|
    ensures |StringAt(V, it)| < |V[it.node].path|
    ensures seqs[V[it.node].refSeq][V[it.node].refIdx + it.idx] == V[it.node].path[|StringAt(V, it)|]
  {
    AtToken(V, loc, root, seqs, depth, it.node, it.idx, StringAt(V, it));
  }

  /** The counts the loop reads are those of the snapshot. */
  lemma QueuedKids(tree: SuffixTree, it: Item, j: nat)
    requires it.node in tree.nodes && (forall i | 0 <= i < |it.node.kids| :: it.node.kids[i] in tree.nodes)
             && j <= |it.node.kids|
    ensures var V, s := tree.V(), it.node.kids;
            && forall i | 0 <= i < |s| ::
                 KidItem(it, s[i], s[i].count, it.node.count) == KidItem(it, s[i], CountOf(V, s[i]), V[it.node].count)
  {
  }
}
