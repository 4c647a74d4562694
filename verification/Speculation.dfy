/**
 speculate: draft from every suffix of the context that matches, and keep the best draft.
 */
module Speculation {
  import opened Options
  import opened Suffixes
  import opened Contents
  import opened Nodes
  import opened Occurrences
  import opened SuffixTrees
  import opened Drafting
  import opened GreedyDraft
  import opened TreeDraft

  // ----- The budget -----

  /** Conversion of a floating point number to an integer drops the fraction. */
  function Truncate(x: real): int {
    if x >= 0.0 then x.Floor else -((-x).Floor)
  }

  function Budget(matchLen: int, maxTokens: int, factor: real, offset: real): nat {
    var limit := Truncate(matchLen as real * factor + offset + 0.000001);
    var n := if maxTokens <= limit then maxTokens else limit;
    if n >= 0 then n else 0
  }

  /** The budget is the largest number of tokens within both limits, or none. */
  lemma BudgetIs(matchLen: int, maxTokens: int, factor: real, offset: real, n: nat)
    ensures n <= Budget(matchLen, maxTokens, factor, offset) <==>
              n == 0 || (n <= maxTokens && n as real <= matchLen as real * factor + offset + 0.000001)
  {
    var x := matchLen as real * factor + offset + 0.000001;
    if x >= 0.0 {
      FloorIs(x, n);
    } else {
      assert (-x).Floor >= 0;
    }
  }

  lemma FloorIs(x: real, n: int)
    ensures n <= x.Floor <==> n as real <= x
  {
    assert x.Floor as real <= x < (x.Floor + 1) as real;
  }

  // ----- What a draft for a match of m promises -----

  ghost predicate DraftFor(ins: Inserted, m: Str, max: int, minProb: real, useTree: bool, d: Draft) {
    if useTree then
      exists strs {:trigger Tree(ins, m, Threshold(minProb), d, strs)} ::
        && Tree(ins, m, Threshold(minProb), d, strs) && NoRepeats(strs) && |d.tokens| <= max
        && Best(ins, m, Threshold(minProb), max, d.score)
        && (|d.tokens| == max || Complete(ins, m, Threshold(minProb), strs))
    else
      Chain(ins, m, minProb, d) && |d.tokens| <= max && (|d.tokens| == max || Exhausted(ins, m, minProb, m + d.tokens))
  }

  /** The last n tokens of the context. */
  function Tail(context: Str, n: nat): Str
    requires n <= |context|
  {
    context[|context| - n..]
  }

  /** The text ends in w. */
  ghost predicate Ends(text: Str, w: Str) {
    exists u {:trigger u + w} :: text == u + w
  }

  lemma TailEnds(text: Str, n: nat)
    requires n <= |text|
    ensures |Tail(text, n)| == n && Ends(text, Tail(text, n))
  {
    assert text == text[..|text| - n] + Tail(text, n);
  }

  /** A text has one end of each length. */
  lemma EndsTail(text: Str, w: Str)
    requires Ends(text, w)
    ensures |w| <= |text| && w == Tail(text, |w|)
  {
  }

  lemma TailOnly(text: Str, n: nat)
    requires n <= |text|
    ensures forall w {:trigger Ends(text, w)} | Ends(text, w) && |w| == n :: w == Tail(text, n)
  {
    forall w | Ends(text, w) && |w| == n ensures w == Tail(text, n) {
      EndsTail(text, w);
    }
  }

  /** What _match_context finds: the string is short enough and occurs in a stored sequence. */
  ghost predicate Matches(seqs: Seqs, depth: int, w: Str) {
    |w| <= depth && OccurrencesOf(seqs, w) != {}
  }

  lemma MatchesIs(seqs: Seqs, depth: int, w: Str)
    ensures Matches(seqs, depth, w) <==> |w| <= depth && OccurrencesOf(seqs, w) != {}
  {
  }

  /** What a string that matches ends in also matches. */
  lemma ShorterMatches(seqs: Seqs, depth: int, w: Str, v: Str)
    requires Ends(w, v) && v != [] && Matches(seqs, depth, w)
    ensures Matches(seqs, depth, v)
  {
    EndsTail(w, v);
    var p :| p in OccurrencesOf(seqs, w);
    var q := Pos(p.sid, p.start + |w| - |v|);
    assert v == w[|w| - |v|..];
    assert seqs[p.sid][q.start..q.start + |v|] == seqs[p.sid][p.start..p.start + |w|][|w| - |v|..];
    assert OccursAt(seqs, v, q);
    assert q in OccurrencesOf(seqs, v);
  }

  lemma EndsBoth(text: Str, v: Str, w: Str)
    requires Ends(text, v) && Ends(text, w) && |v| <= |w|
    ensures Ends(w, v)
  {
    EndsTail(text, v);
    EndsTail(text, w);
    assert w == w[..|w| - |v|] + v;
  }

  /** So once an end of the context does not match, no longer one does. */
  lemma NoneLonger(seqs: Seqs, depth: int, context: Str, v: Str)
    requires Ends(context, v) && v != [] && !Matches(seqs, depth, v)
    ensures forall w {:trigger Ends(context, w)} | Ends(context, w) && |v| <= |w| :: !Matches(seqs, depth, w)
  {
    forall w | Ends(context, w) && |v| <= |w| ensures !Matches(seqs, depth, w) {
      EndsBoth(context, v, w);
      if Matches(seqs, depth, w) {
        ShorterMatches(seqs, depth, w, v);
      }
    }
  }

  /** Scores are never negative, so the first match always yields a draft. */
  lemma ScoreNonneg(ins: Inserted, m: Str, max: int, minProb: real, useTree: bool, d: Draft)
    requires DraftFor(ins, m, max, minProb, useTree, d)
    ensures d.score >= 0.0
  {
    if useTree {
      var strs :| Tree(ins, m, Threshold(minProb), d, strs);
      forall i | 0 <= i < |d.probs| ensures d.probs[i] >= 0.0 {
        assert TreeEntry(ins, m, Threshold(minProb), d, strs, i);
        ProbNonneg(ins, m, strs[i]);
      }
    } else {
      forall i | 0 <= i < |d.probs| ensures d.probs[i] >= 0.0 {
        assert ChainEntry(ins, m, minProb, d, i);
        ProbNonneg(ins, m, m + d.tokens[..i + 1]);
      }
    }
    SumNonneg(d.probs);
  }

  lemma ProbNonneg(ins: Inserted, m: Str, x: Str)
    ensures Prob(ins, m, x) >= 0.0
  {
  }

  lemma {:induction false} SumNonneg(ps: seq<real>)
    requires forall i | 0 <= i < |ps| :: ps[i] >= 0.0
    ensures Sum(ps) >= 0.0
  {
    if ps != [] {
      SumNonneg(ps[..|ps| - 1]);
    }
  }

  /** How much to draft and from where. */
  datatype Limits = Limits(maxTokens: int, factor: real, offset: real, minProb: real, useTree: bool)

  /** The draft d was made for a match of the string w. */
  ghost predicate Made(seqs: Seqs, depth: int, how: Limits, w: Str, d: Draft) {
    && depth >= 0 && Matches(seqs, depth, w)
    && DraftFor(Stored(seqs, depth), w, Budget(|w|, how.maxTokens, how.factor, how.offset), how.minProb, how.useTree, d)
  }

  /** The draft d was made for the end of length n of the context, which matches. */
  ghost predicate Tried(seqs: Seqs, depth: int, context: Str, how: Limits, n: nat, d: Draft) {
    && 1 <= n < |context|
    && exists w {:trigger Ends(context, w)} :: Ends(context, w) && |w| == n && Made(seqs, depth, how, w, d)
  }

  /** The best of the drafts, with ties to the longest match. */
  ghost predicate BestOf(tried: seq<Draft>, best: Draft) {
    if tried == [] then best == NoDraft
    else exists j {:trigger tried[j]} ::
           && 0 <= j < |tried| && best == tried[j].(matchLen := j + 1)
           && (forall i | 0 <= i < |tried| :: tried[i].score <= best.score)
           && (forall i | j < i < |tried| :: tried[i].score < best.score)
  }

  lemma BestOfMore(tried: seq<Draft>, best: Draft, d: Draft)
    requires BestOf(tried, best) && d.score >= 0.0
    ensures BestOf(tried + [d], if d.score >= best.score then d.(matchLen := |tried| + 1) else best)
  {
    var more := tried + [d];
    if d.score >= best.score {
      assert more[|tried|] == d;
    } else {
      var j :| 0 <= j < |tried| && best == tried[j].(matchLen := j + 1)
               && (forall i | 0 <= i < |tried| :: tried[i].score <= best.score)
               && (forall i | j < i < |tried| :: tried[i].score < best.score);
      assert more[j] == tried[j];
    }
  }

  /** The draft for one match. */
  method DraftMatch(tree: SuffixTree, node: Node, idx: int, max: nat, minProb: real, useTree: bool, ghost m: Str)
    returns (d: Draft)
    requires tree.Valid() && Matched(tree.V(), tree.root, node, idx, m) && m != []
    ensures DraftFor(Stored(tree.seqs, tree.maxDepth), m, max, minProb, useTree, d)
  {
    hide At;
    if useTree {
      ghost var strs;
      d, strs := SpeculateTree(tree, node, idx, max, minProb, m);
    } else {
      d := SpeculatePath(tree, node, idx, max, minProb, m);
    }
  }

  /** The best draft over all ends of the context, shorter than the context, that match. */
  ghost predicate BestDraft(seqs: Seqs, depth: int, context: Str, how: Limits, best: Draft) {
    exists tried {:trigger BestOf(tried, best)} ::
      && BestOf(tried, best)
      && (forall i {:trigger tried[i]} | 0 <= i < |tried| :: Tried(seqs, depth, context, how, i + 1, tried[i]))
      && (forall w {:trigger Ends(context, w)} | Ends(context, w) && |tried| < |w| < |context| ::
            !Matches(seqs, depth, w))
  }

  /** A best draft is that of an end of the context, and no end that matches has a draft that has to be better, or
      that is longer and has to be as good; without one that matches there is no draft. */
  lemma BestOverAll(seqs: Seqs, depth: int, context: Str, how: Limits, best: Draft)
    requires BestDraft(seqs, depth, context, how, best)
    ensures best == NoDraft ||
            exists v, d {:trigger Made(seqs, depth, how, v, d)} ::
              (exists u :: context == u + v) && 0 < |v| < |context|
              && Made(seqs, depth, how, v, d) && best == d.(matchLen := |v|)
    ensures forall u: Str, w: Str {:trigger u + w} |
              context == u + w && u != [] && w != [] && Matches(seqs, depth, w) ::
              best != NoDraft && exists d {:trigger Made(seqs, depth, how, w, d)} ::
                Made(seqs, depth, how, w, d) && d.score <= best.score && (|w| > best.matchLen ==> d.score < best.score)
  {
    var tried :| BestOf(tried, best)
      && (forall i {:trigger tried[i]} | 0 <= i < |tried| :: Tried(seqs, depth, context, how, i + 1, tried[i]))
      && (forall w {:trigger Ends(context, w)} | Ends(context, w) && |tried| < |w| < |context| ::
            !Matches(seqs, depth, w));
    hide Matches, Made, Stored;
    if tried != [] {
      BestFound(seqs, depth, context, how, best, tried);
    }
    forall u: Str, w: Str | context == u + w && u != [] && w != [] && Matches(seqs, depth, w)
      ensures best != NoDraft && exists d {:trigger Made(seqs, depth, how, w, d)} ::
                Made(seqs, depth, how, w, d) && d.score <= best.score && (|w| > best.matchLen ==> d.score < best.score)
    {
      assert Ends(context, w);
      TriedAt(seqs, depth, context, how, w, tried[|w| - 1]);
      var d := tried[|w| - 1];
      assert Made(seqs, depth, how, w, d);
    }
  }

  lemma BestFound(seqs: Seqs, depth: int, context: Str, how: Limits, best: Draft, tried: seq<Draft>)
    requires BestOf(tried, best) && tried != []
    requires forall i {:trigger tried[i]} | 0 <= i < |tried| :: Tried(seqs, depth, context, how, i + 1, tried[i])
    ensures exists v, d {:trigger Made(seqs, depth, how, v, d)} ::
              (exists u :: context == u + v) && 0 < |v| < |context|
              && Made(seqs, depth, how, v, d) && best == d.(matchLen := |v|)
  {
    hide Made;
    var j :| 0 <= j < |tried| && best == tried[j].(matchLen := j + 1);
    assert Tried(seqs, depth, context, how, j + 1, tried[j]);
  }

  /** The draft tried for the length of an end is the draft of that end. */
  lemma TriedAt(seqs: Seqs, depth: int, context: Str, how: Limits, w: Str, d: Draft)
    requires Tried(seqs, depth, context, how, |w|, d) && Ends(context, w)
    ensures Made(seqs, depth, how, w, d)
  {
    hide Made;
    var v :| Ends(context, v) && |v| == |w| && Made(seqs, depth, how, v, d);
    EndsTail(context, v);
    EndsTail(context, w);
  }

  lemma TriedMore(seqs: Seqs, depth: int, context: Str, how: Limits, tried: seq<Draft>, d: Draft)
    requires forall i {:trigger tried[i]} | 0 <= i < |tried| :: Tried(seqs, depth, context, how, i + 1, tried[i])
    requires Tried(seqs, depth, context, how, |tried| + 1, d)
    ensures forall i {:trigger (tried + [d])[i]} | 0 <= i < |tried| + 1 ::
              Tried(seqs, depth, context, how, i + 1, (tried + [d])[i])
  {
  }

  /** Draft the continuation of the context with the highest score, over every suffix that matches. */
  method Speculate(tree: SuffixTree, context: Str, how: Limits) returns (best: Draft)
    requires tree.Valid()
    ensures BestDraft(tree.seqs, tree.maxDepth, context, how, best)
  {
    hide DraftFor, BestOf, Tried, Matches, tree.Valid, Stored, Tail, Ends;
    ghost var seqs, depth := tree.seqs, tree.maxDepth;
    best := NoDraft;
    ghost var tried := [];
    BestOfNone();
    var matchLen := 1;
    while matchLen < |context|
      invariant matchLen == |tried| + 1
      invariant forall i {:trigger tried[i]} | 0 <= i < |tried| :: Tried(seqs, depth, context, how, i + 1, tried[i])
      invariant BestOf(tried, best)
    {
      var d := DraftSuffix(tree, context, matchLen, how);
      if d.None? {
        TailEnds(context, matchLen);
        NoneLonger(seqs, depth, context, Tail(context, matchLen));
        return;
      }
      BestOfMore(tried, best, d.value);
      TriedMore(seqs, depth, context, how, tried, d.value);
      if d.value.score >= best.score {
        best := d.value.(matchLen := matchLen);
      }
      tried := tried + [d.value];
      matchLen := matchLen + 1;
    }
  }

  /** One round of the loop: the draft for the end of length n, if it matches. */
  method DraftSuffix(tree: SuffixTree, context: Str, n: nat, how: Limits) returns (d: Option<Draft>)
    requires tree.Valid() && 1 <= n < |context|
    ensures forall w {:trigger Ends(context, w)} | Ends(context, w) && |w| == n ::
              d.Some? <==> Matches(tree.seqs, tree.maxDepth, w)
    ensures d.Some? ==> Tried(tree.seqs, tree.maxDepth, context, how, n, d.value) && d.value.score >= 0.0
  {
    hide DraftFor, At, tree.Valid, Matches, Budget;
    assert tree.maxDepth >= 1 by {
      SoundTree(tree);
    }
    var w := Tail(context, n);
    TailEnds(context, n);
    TailOnly(context, n);
    MatchesIs(tree.seqs, tree.maxDepth, w);
    var max := Budget(n, how.maxTokens, how.factor, how.offset);
    var node, idx := MatchContext(tree, w);
    if node == null {
      return None;
    }
    var draft := DraftMatch(tree, node, idx, max, how.minProb, how.useTree, w);
    ScoreNonneg(Stored(tree.seqs, tree.maxDepth), w, max, how.minProb, how.useTree, draft);
    d := Some(draft);
  }

  lemma BestOfNone()
    ensures BestOf([], NoDraft)
  {
  }
}
