/**
 What a suffix tree of a given depth stores for given sequences, and how that grows, position
 by position, while one token is appended.
 */
module Contents {
  import opened Suffixes

  /** The part of the suffix of s from i on that the tree keeps. */
  function Cut(s: Str, i: int, depth: int): Str
    requires 0 <= i <= |s| && depth >= 0
  {
    if i + depth <= |s| then s[i..i + depth] else s[i..]
  }

  ghost function Positions(seqs: Seqs): set<Pos> {
    set s, i | s in seqs && 0 <= i < |seqs[s]| :: Pos(s, i)
  }

  /** What the tree stores: for every position the suffix from there, cut at the depth. */
  ghost function Stored(seqs: Seqs, depth: int): Inserted
    requires depth >= 0
  {
    map p | p in Positions(seqs) :: Cut(seqs[p.sid], p.start, depth)
  }

  function SeqOf(seqs: Seqs, sid: int): Str {
    if sid in seqs then seqs[sid] else []
  }

  function Appended(seqs: Seqs, sid: int, t: Token): Seqs {
    seqs[sid := SeqOf(seqs, sid) + [t]]
  }

  /** The sequences after extending one of them; extending by nothing does not create it. */
  function Extended(seqs: Seqs, sid: int, tokens: Str): Seqs {
    if tokens == [] then seqs else seqs[sid := SeqOf(seqs, sid) + tokens]
  }

  lemma ExtendedNone(seqs: Seqs, sid: int)
    ensures forall tokens: Str :: tokens[..0] == [] && Extended(seqs, sid, tokens[..0]) == seqs
  {
  }

  lemma ExtendedMore(seqs: Seqs, sid: int, tokens: Str, i: nat)
    requires i < |tokens|
    ensures Appended(Extended(seqs, sid, tokens[..i]), sid, tokens[i]) == Extended(seqs, sid, tokens[..i + 1])
  {
    assert tokens[..i + 1] == tokens[..i] + [tokens[i]];
    assert SeqOf(seqs, sid) + [] == SeqOf(seqs, sid);
    assert SeqOf(seqs, sid) + tokens[..i + 1] == (SeqOf(seqs, sid) + tokens[..i]) + [tokens[i]];
  }

  lemma AppendedTwice(seqs: Seqs, sid: int, t: Token)
    ensures Appended(seqs[sid := SeqOf(seqs, sid)], sid, t) == Appended(seqs, sid, t)
  {
  }

  /** First position of the window of active suffixes while a token is appended to s. */
  function WindowStart(s: Str, depth: int): nat
    requires depth >= 1
  {
    if |s| + 1 <= depth then 0 else |s| + 1 - depth
  }

  /** What is stored while token t is being appended to sequence sid: the suffixes from before
      position cut have it, the others do not yet. */
  ghost function Growing(seqs: Seqs, sid: int, t: Token, depth: int, cut: int): Inserted
    requires depth >= 1
  {
    map p | p in Positions(Appended(seqs, sid, t)) ::
      if p.sid == sid && cut <= p.start then SeqOf(seqs, sid)[p.start..]
         else Cut(Appended(seqs, sid, t)[p.sid], p.start, depth)
  }

  lemma GrowingStartsAt(seqs: Seqs, sid: int, t: Token, depth: int, p: Pos)
    requires depth >= 1
    ensures var s := SeqOf(seqs, sid); var g := Growing(seqs, sid, t, depth, WindowStart(s, depth));
            && (p in g <==> p in Stored(seqs, depth) || p == Pos(sid, |s|))
            && (p in g ==> g[p] == if p == Pos(sid, |s|) then [] else Stored(seqs, depth)[p])
  {
    var s := SeqOf(seqs, sid);
    if p.sid == sid && 0 <= p.start < WindowStart(s, depth) {
      assert Cut(s + [t], p.start, depth) == Cut(s, p.start, depth);
    }
  }

  lemma GrowingStarts(seqs: Seqs, sid: int, t: Token, depth: int)
    requires depth >= 1
    ensures var s := SeqOf(seqs, sid); var p := Pos(sid, |s|);
            p !in Stored(seqs, depth)
              && Growing(seqs, sid, t, depth, WindowStart(s, depth)) == Stored(seqs, depth)[p := []]
  {
    var s := SeqOf(seqs, sid);
    var g := Growing(seqs, sid, t, depth, WindowStart(s, depth));
    forall p ensures p in g <==> p in Stored(seqs, depth)[Pos(sid, |s|) := []] {
      GrowingStartsAt(seqs, sid, t, depth, p);
    }
    forall p | p in g ensures g[p] == Stored(seqs, depth)[Pos(sid, |s|) := []][p] {
      GrowingStartsAt(seqs, sid, t, depth, p);
    }
  }

  lemma GrowingStep(seqs: Seqs, sid: int, t: Token, depth: int, cut: int)
    requires depth >= 1 && WindowStart(SeqOf(seqs, sid), depth) <= cut <= |SeqOf(seqs, sid)|
    ensures var g := Growing(seqs, sid, t, depth, cut); var p := Pos(sid, cut);
            p in g && g[p] == SeqOf(seqs, sid)[cut..] && Growing(seqs, sid, t, depth, cut + 1) == g[p := g[p] + [t]]
  {
    var s := SeqOf(seqs, sid);
    assert Cut(s + [t], cut, depth) == s[cut..] + [t];
  }

  lemma GrowingEnds(seqs: Seqs, sid: int, t: Token, depth: int)
    requires depth >= 1
    ensures Growing(seqs, sid, t, depth, |SeqOf(seqs, sid)| + 1) == Stored(Appended(seqs, sid, t), depth)
  {
  }

  lemma GrowingSpelled(seqs: Seqs, sid: int, t: Token, depth: int, cut: int)
    requires depth >= 1
    ensures Spelled(Growing(seqs, sid, t, depth, cut), Appended(seqs, sid, t))
  {
    var g := Growing(seqs, sid, t, depth, cut);
    var s := SeqOf(seqs, sid);
    forall q | q in g ensures SpelledAt(g, Appended(seqs, sid, t), q) {
      if q.sid == sid && cut <= q.start {
        assert s[q.start..] == (s + [t])[q.start..q.start + |g[q]|];
      }
    }
  }

  lemma StoredSpelled(seqs: Seqs, depth: int)
    requires depth >= 0
    ensures Spelled(Stored(seqs, depth), seqs)
  {
    forall q | q in Stored(seqs, depth) ensures SpelledAt(Stored(seqs, depth), seqs, q) {
    }
  }

  /** While a token is appended, at most one suffix of the sequence ends where the next active
      suffix ends: the longer ones already have the token. */
  lemma GrowingUnique(seqs: Seqs, sid: int, t: Token, depth: int, cut: int, q: Pos)
    requires depth >= 1 && WindowStart(SeqOf(seqs, sid), depth) <= cut <= |SeqOf(seqs, sid)|
    requires q in Growing(seqs, sid, t, depth, cut) && q.sid == sid
    requires Growing(seqs, sid, t, depth, cut)[q] == SeqOf(seqs, sid)[cut..]
    ensures q == Pos(sid, cut)
  {
  }

  /** The suffixes after that are shorter. */
  lemma GrowingShorter(seqs: Seqs, sid: int, t: Token, depth: int, cut: int, q: Pos)
    requires depth >= 1 && WindowStart(SeqOf(seqs, sid), depth) <= cut <= |SeqOf(seqs, sid)|
    requires q in Growing(seqs, sid, t, depth, cut) && q.sid == sid && q.start > cut
    ensures |Growing(seqs, sid, t, depth, cut)[q]| < |SeqOf(seqs, sid)[cut..]|
  {
  }

  // ----- Removal -----

  /** What is stored while sequence sid is being removed: its suffixes from before start are gone. */
  ghost function Waned(seqs: Seqs, sid: int, depth: int, start: int): Inserted
    requires depth >= 0
  {
    map p | p in Positions(seqs) && !(p.sid == sid && p.start < start) :: Cut(seqs[p.sid], p.start, depth)
  }

  lemma WanedStarts(seqs: Seqs, sid: int, depth: int)
    requires depth >= 0
    ensures Waned(seqs, sid, depth, 0) == Stored(seqs, depth)
  {
  }

  lemma WanedStep(seqs: Seqs, sid: int, depth: int, start: int)
    requires depth >= 1 && sid in seqs && 0 <= start < |seqs[sid]|
    ensures var w := Waned(seqs, sid, depth, start); var p := Pos(sid, start);
            && p in w && w[p] == Cut(seqs[sid], start, depth) && w[p] != []
            && Waned(seqs, sid, depth, start + 1) == w - {p}
  {
  }

  lemma WanedBounds(seqs: Seqs, sid: int, depth: int, start: int)
    requires depth >= 1
    ensures forall q | q in Waned(seqs, sid, depth, start) ::
              && q in Stored(seqs, depth) && Waned(seqs, sid, depth, start)[q] == Stored(seqs, depth)[q]
              && 1 <= |Waned(seqs, sid, depth, start)[q]| <= depth
    ensures forall q | q in Stored(seqs, depth) && q.sid != sid :: q in Waned(seqs, sid, depth, start)
  {
  }

  lemma WanedEnds(seqs: Seqs, sid: int, depth: int)
    requires depth >= 0
    ensures Waned(seqs, sid, depth, |SeqOf(seqs, sid)|) == Stored(seqs - {sid}, depth)
    ensures forall q | q in Waned(seqs, sid, depth, |SeqOf(seqs, sid)|) :: q.sid != sid
  {
    var w := Waned(seqs, sid, depth, |SeqOf(seqs, sid)|);
    var st := Stored(seqs - {sid}, depth);
    forall p ensures p in w <==> p in st {
    }
  }
}
