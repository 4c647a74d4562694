/**
 The meaning of a suffix tree, independent of any tree.

 A tree stores one string per position (sequence id, start index): the part of the suffix
 starting there that has been inserted so far, cut at the maximum depth.  How often a string
 occurs is the number of positions whose inserted string starts with it.
 */
module Suffixes {
  import opened FiniteSets

  type Token = int
  type Str = seq<Token>
  datatype Pos = Pos(sid: int, start: int)
  type Inserted = map<Pos, Str>
  type Seqs = map<int, Str>

  /** The positions whose inserted string starts with w. */
  ghost function Through(ins: Inserted, w: Str): set<Pos> {
    set p | p in ins && w <= ins[p]
  }

  ghost function Occ(ins: Inserted, w: Str): nat {
    |Through(ins, w)|
  }

  /** Strings that need a node of their own: they occur, and no single token continues all
      of their occurrences (so some occurrence ends there, or two continuations differ). */
  ghost predicate Boundary(ins: Inserted, w: Str) {
    && w != []
    && Through(ins, w) != {}
    && forall t :: Through(ins, w + [t]) != Through(ins, w)
  }

  /** Every inserted string is a piece of its sequence, from its start. */
  ghost predicate SpelledAt(ins: Inserted, seqs: Seqs, q: Pos)
    requires q in ins
  {
    && q.sid in seqs && 0 <= q.start && q.start + |ins[q]| <= |seqs[q.sid]|
    && ins[q] == seqs[q.sid][q.start..q.start + |ins[q]|]
  }

  ghost predicate Spelled(ins: Inserted, seqs: Seqs) {
    forall q {:trigger SpelledAt(ins, seqs, q)} | q in ins :: SpelledAt(ins, seqs, q)
  }

  // ----- Strings and prefixes -----

  lemma PrefixStep(w: Str, s: Str, t: Token)
    ensures w + [t] <= s <==> w <= s && |w| < |s| && s[|w|] == t
  {
    if w + [t] <= s {
      assert s[..|w|] == (w + [t])[..|w|] == w;
      assert s[|w|] == (w + [t])[|w|];
    }
    if w <= s && |w| < |s| && s[|w|] == t {
      assert s[..|w| + 1] == w + [t];
    }
  }

  lemma PrefixesCompare(a: Str, b: Str, s: Str)
    requires a <= s && b <= s
    ensures |a| <= |b| ==> a <= b
    ensures |a| == |b| ==> a == b
  {
    assert s[..|a|] == a && s[..|b|] == b;
  }

  lemma AppendInjective(a: Str, t: Token, b: Str, u: Token)
    ensures a + [t] == b + [u] <==> a == b && t == u
  {
    if a + [t] == b + [u] {
      assert (a + [t])[..|a|] == a && (b + [u])[..|b|] == b;
      assert (a + [t])[|a|] == t && (b + [u])[|b|] == u;
    }
  }

  // ----- Sets of occurrences -----

  lemma ThroughShrinks(ins: Inserted, a: Str, b: Str)
    requires a <= b
    ensures Through(ins, b) <= Through(ins, a)
    ensures Occ(ins, b) <= Occ(ins, a)
    ensures Occ(ins, b) == Occ(ins, a) <==> Through(ins, b) == Through(ins, a)
  {
    SubsetSize(Through(ins, b), Through(ins, a));
  }

  lemma BranchesDisjoint(ins: Inserted, w: Str, t: Token, u: Token)
    requires t != u
    ensures Through(ins, w + [t]) !! Through(ins, w + [u])
  {
    forall p | p in Through(ins, w + [t]) ensures p !in Through(ins, w + [u]) {
      PrefixStep(w, ins[p], t);
      PrefixStep(w, ins[p], u);
    }
  }

  /** An occurrence that ends at w stops every continuation from covering all of w. */
  lemma EndIsBoundary(ins: Inserted, p: Pos)
    requires p in ins && ins[p] != []
    ensures Boundary(ins, ins[p])
  {
    assert p in Through(ins, ins[p]);
    forall t ensures Through(ins, ins[p] + [t]) != Through(ins, ins[p]) {
      assert p !in Through(ins, ins[p] + [t]);
    }
  }

  /** Every occurring string leads, without a choice on the way, to one first boundary. */
  lemma {:induction false} Locus(ins: Inserted, y: Str, q: Pos) returns (x: Str)
    requires y != [] && q in Through(ins, y)
    ensures y <= x && x <= ins[q] && Boundary(ins, x)
    ensures Through(ins, x) == Through(ins, y)
    ensures forall k :: |y| <= k < |x| ==> !Boundary(ins, x[..k])
    decreases |ins[q]| - |y|
  {
    if Boundary(ins, y) {
      x := y;
    } else {
      var t :| Through(ins, y + [t]) == Through(ins, y);
      x := Locus(ins, y + [t], q);
      forall k | |y| <= k < |x| ensures !Boundary(ins, x[..k]) {
        if k == |y| {
          assert x[..k] == y;
        }
      }
    }
  }

  // ----- One token is added to one position -----

  lemma ExtendThrough(ins: Inserted, p: Pos, t: Token, x: Str)
    requires p in ins
    ensures var w := ins[p]; var ins' := ins[p := w + [t]];
            && p !in Through(ins, w + [t])
            && Through(ins', x) == Through(ins, x) + (if x == w + [t] then {p} else {})
            && Occ(ins', x) == Occ(ins, x) + (if x == w + [t] then 1 else 0)
  {
    var w := ins[p];
    var ins' := ins[p := w + [t]];
    assert x <= w + [t] <==> x <= w || x == w + [t] by {
      if x <= w + [t] && |x| <= |w| {
        assert (w + [t])[..|x|] == w[..|x|];
      }
      if x <= w {
        assert (w + [t])[..|x|] == w[..|x|];
      }
    }
    forall q ensures q in Through(ins', x) <==> q in Through(ins, x) || (x == w + [t] && q == p) {
    }
  }

  /** Adding token t to a position that ends at w moves the boundaries in at most two places:
      w + [t] is one afterwards, and w stops being one when t now continues all of w. */
  lemma ExtendBoundary(ins: Inserted, p: Pos, t: Token, y: Str)
    requires p in ins
    ensures var w := ins[p]; var ins' := ins[p := w + [t]];
            Boundary(ins', y) <==>
              if y == w + [t] then true
              else if y == w then w != [] && Occ(ins, w) != Occ(ins, w + [t]) + 1
              else Boundary(ins, y)
  {
    var w := ins[p];
    if y == w + [t] {
      EndIsBoundary(ins[p := w + [t]], p);
    } else if y == w {
      BoundaryAtEnd(ins, p, t);
    } else {
      BoundaryAway(ins, p, t, y);
    }
  }

  lemma BoundaryAtEnd(ins: Inserted, p: Pos, t: Token)
    requires p in ins
    ensures var w := ins[p];
            Boundary(ins[p := w + [t]], w) <==> w != [] && Occ(ins, w) != Occ(ins, w + [t]) + 1
  {
    var w := ins[p];
    var ins' := ins[p := w + [t]];
    ExtendThrough(ins, p, t, w);
    ExtendThrough(ins, p, t, w + [t]);
    ThroughShrinks(ins, w, w + [t]);
    assert Through(ins, w + [t]) + {p} <= Through(ins, w);
    SubsetSize(Through(ins, w + [t]) + {p}, Through(ins, w));
    forall u ensures u != t ==> Through(ins', w + [u]) != Through(ins', w) {
      assert p !in Through(ins, w + [u]);
      ExtendThrough(ins, p, t, w + [u]);
      assert (w + [u])[|w|] == u;
    }
  }

  lemma BoundaryAway(ins: Inserted, p: Pos, t: Token, y: Str)
    requires p in ins && y != ins[p] + [t] && y != ins[p]
    ensures Boundary(ins[p := ins[p] + [t]], y) <==> Boundary(ins, y)
  {
    var w := ins[p];
    var ins' := ins[p := w + [t]];
    ExtendThrough(ins, p, t, y);
    forall u ensures Through(ins', y + [u]) == Through(ins, y + [u]) {
      ExtendThrough(ins, p, t, y + [u]);
      AppendInjective(y, u, w, t);
    }
  }

  // ----- One position is removed -----

  lemma RemoveThrough(ins: Inserted, p: Pos, x: Str)
    requires p in ins
    ensures Through(ins - {p}, x) == Through(ins, x) - {p}
    ensures Occ(ins - {p}, x) == Occ(ins, x) - (if x <= ins[p] then 1 else 0)
  {
    assert Through(ins - {p}, x) == Through(ins, x) - {p};
    if x <= ins[p] {
      assert p in Through(ins, x);
    }
  }

  /** Removing p leaves all boundaries alone except possibly w, the last string on the way to
      the end of p that other positions share, and strings beyond it on the same way. */
  lemma RemoveBoundary(ins: Inserted, p: Pos, w: Str, x: Str)
    requires p in ins && w <= ins[p]
    requires w == [] || Through(ins - {p}, w) != {}
    requires x != w && !(x <= ins[p] && |x| > |w|)
    ensures Boundary(ins - {p}, x) <==> Boundary(ins, x)
  {
    var ins' := ins - {p};
    RemoveThrough(ins, p, x);
    forall t ensures Through(ins', x + [t]) == Through(ins, x + [t]) - {p} {
      RemoveThrough(ins, p, x + [t]);
    }
    if !Boundary(ins, x) {
      PrefixStays(ins, p, x);
    }
    if Boundary(ins, x) {
      if x <= ins[p] {
        PrefixesCompare(x, w, ins[p]);
        AncestorStays(ins, p, w, x);
      } else {
        forall t ensures Through(ins', x + [t]) == Through(ins, x + [t]) {
          ThroughShrinks(ins, x, x + [t]);
          RemoveThrough(ins, p, x + [t]);
        }
      }
    }
  }

  lemma PrefixStays(ins: Inserted, p: Pos, x: Str)
    requires p in ins && !Boundary(ins, x)
    ensures !Boundary(ins - {p}, x)
  {
    RemoveThrough(ins, p, x);
    if x != [] && Through(ins, x) != {} {
      var t :| Through(ins, x + [t]) == Through(ins, x);
      RemoveThrough(ins, p, x + [t]);
    }
  }

  lemma AncestorStays(ins: Inserted, p: Pos, w: Str, x: Str)
    requires p in ins && w <= ins[p] && Through(ins - {p}, w) != {}
    requires Boundary(ins, x) && x <= w && |x| < |w|
    ensures Boundary(ins - {p}, x)
  {
    var ins' := ins - {p};
    var r :| r in Through(ins', w);
    RemoveThrough(ins, p, x);
    ThroughShrinks(ins', x, w);
    forall t ensures Through(ins', x + [t]) != Through(ins', x) {
      RemoveThrough(ins, p, x + [t]);
      PrefixStep(x, ins[p], t);
      PrefixStep(x, ins'[r], t);
      assert ins[p][|x|] == w[|x|] == ins'[r][|x|];
      assert r in Through(ins', x + [t]) ==> p in Through(ins, x + [t]);
      assert p in Through(ins, x + [t]) ==> Through(ins, x + [t]) == Through(ins', x + [t]) + {p};
      assert Through(ins, x) == Through(ins', x) + {p};
    }
  }
}
