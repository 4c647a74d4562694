/**
 The two passes of forest cascade attention, their merge, and the result: every query token gets
 what plain causal attention over its own request's blocks gives it.  There are no sliding
 windows, position biases or sinks.
 */
module ForestAttention {
  import opened Sequences
  import opened PrefixGroups
  import opened TokenPacking
  import opened AttentionStates
  import opened ForestCascade

  // ----- The attention kernel, by its meaning -----

  /** Number of key positions that query i of n sees in a sequence of the given length: all of them,
      or, when causal, those up to its own, the queries being the last of the sequence. */
  function Seen(len: nat, n: int, i: int, causal: bool): (k: nat)
    ensures i < n ==> k <= len
  {
    if !causal then len else Max(i + 1 + len - n, 0)
  }

  /** Causally, query i of the last n positions stands at position len - n + i and sees those up to its own. */
  lemma SeenIs(len: nat, n: nat, i: nat, k: nat)
    requires i < n <= len
    ensures k < Seen(len, n, i, true) <==> k <= len - n + i
    ensures k < Seen(len, n, i, false) <==> k < len
  {
  }

  ghost predicate TokenAttends<Q>(c: Cache<Q>, q: Q, row: seq<int>, blockSize: nat, seen: nat, s: State) {
    Covers(row, blockSize, seen) && s == Attend(c, q, FirstSlots(row, blockSize, seen))
  }

  /** Result i of a sequence. */
  ghost predicate TokenAt<Q>(c: Cache<Q>, q: seq<Q>, offset: nat, n: nat, row: seq<int>, len: nat, blockSize: nat,
                             causal: bool, res: seq<State>, i: nat)
    requires i < n && offset + n <= |q| && offset + n <= |res|
  {
    TokenAttends(c, q[offset + i], row, blockSize, Seen(len, n, i, causal), res[offset + i])
  }

  /** The results from an offset on are those of the n queries of one sequence. */
  ghost predicate PartOk<Q>(c: Cache<Q>, q: seq<Q>, offset: nat, n: nat, row: seq<int>, len: nat, blockSize: nat,
                            causal: bool, res: seq<State>)
  {
    offset + n <= |q| && offset + n <= |res| &&
    forall i: nat {:trigger TokenAt(c, q, offset, n, row, len, blockSize, causal, res, i)} | i < n ::
             TokenAt(c, q, offset, n, row, len, blockSize, causal, res, i)
  }

  ghost predicate SequenceOk<Q>(c: Cache<Q>, q: seq<Q>, offsets: seq<nat>, lens: seq<int>, table: Table,
                                blockSize: nat, causal: bool, res: seq<State>, s: nat)
  {
    s + 1 < |offsets| && s < |lens| && s < |table| && lens[s] >= 0 && offsets[s] <= offsets[s + 1] &&
    PartOk(c, q, offsets[s], offsets[s + 1] - offsets[s], table[s], lens[s], blockSize, causal, res)
  }

  ghost predicate Results<Q>(c: Cache<Q>, q: seq<Q>, offsets: seq<nat>, lens: seq<int>, table: Table, blockSize: nat,
                             causal: bool, res: seq<State>)
  {
    |res| == |q| && forall s: nat {:trigger SequenceOk(c, q, offsets, lens, table, blockSize, causal, res,
                                                       s)} | s < |lens| ::
                      SequenceOk(c, q, offsets, lens, table, blockSize, causal, res, s)
  }

  lemma CoversLess(row: seq<int>, blockSize: nat, n: int, k: int)
    requires Covers(row, blockSize, n) && k <= n
    ensures Covers(row, blockSize, k)
  {
  }

  /** The queries of one sequence. */
  method AttendSequence<Q>(c: Cache<Q>, q: seq<Q>, offset: nat, n: nat, row: seq<int>, len: nat, blockSize: nat,
                           causal: bool) returns (part: seq<State>)
    requires offset + n <= |q| && Covers(row, blockSize, len)
    ensures |part| == n
    ensures forall i | 0 <= i < n :: TokenAttends(c, q[offset + i], row, blockSize, Seen(len, n, i, causal), part[i])
  {
    part := [];
    for i := 0 to n
      invariant |part| == i
      invariant forall j | 0 <= j < i ::
                  TokenAttends(c, q[offset + j], row, blockSize, Seen(len, n, j, causal), part[j])
    {
      var seen := Seen(len, n, i, causal);
      CoversLess(row, blockSize, len, seen);
      part := part + [Attend(c, q[offset + i], FirstSlots(row, blockSize, seen))];
    }
  }

  lemma PartGrows<Q>(c: Cache<Q>, q: seq<Q>, offset: nat, n: nat, row: seq<int>, len: nat, blockSize: nat,
                     causal: bool, res: seq<State>, more: seq<State>)
    requires PartOk(c, q, offset, n, row, len, blockSize, causal, res)
    ensures PartOk(c, q, offset, n, row, len, blockSize, causal, res + more)
  {
    forall i: nat | i < n ensures TokenAt(c, q, offset, n, row, len, blockSize, causal, res + more, i) {
      assert TokenAt(c, q, offset, n, row, len, blockSize, causal, res, i);
    }
  }

  lemma PartAdded<Q>(c: Cache<Q>, q: seq<Q>, n: nat, row: seq<int>, len: nat, blockSize: nat, causal: bool,
                     res: seq<State>, part: seq<State>)
    requires |res| + n <= |q| && |part| == n
    requires forall i | 0 <= i < n :: TokenAttends(c, q[|res| + i], row, blockSize, Seen(len, n, i, causal), part[i])
    ensures PartOk(c, q, |res|, n, row, len, blockSize, causal, res + part)
  {
    forall i | 0 <= i < n ensures (res + part)[|res| + i] == part[i] {
    }
  }

  /** flash_attn_varlen_func: sequence s has the queries from offset s up to the next, and the keys of
      its row of the block table. */
  method VarlenAttention<Q>(c: Cache<Q>, q: seq<Q>, offsets: seq<nat>, lens: seq<int>, table: Table, blockSize: nat,
                            causal: bool) returns (res: seq<State>)
    requires Rising(offsets) && offsets[0] == 0 && offsets[|offsets| - 1] == |q|
    requires |lens| == |table| == |offsets| - 1
    requires forall s {:trigger RowHolds(table, lens, blockSize, s)} :: RowHolds(table, lens, blockSize, s)
    ensures Results(c, q, offsets, lens, table, blockSize, causal, res)
  {
    hide PartOk, Covers, TokenAttends;
    res := [];
    for s: nat := 0 to |lens|
      invariant |res| == offsets[s]
      invariant forall s': nat {:trigger SequenceOk(c, q, offsets, lens, table, blockSize, causal, res, s')} | s' < s ::
                  SequenceOk(c, q, offsets, lens, table, blockSize, causal, res, s')
    {
      var n := offsets[s + 1] - offsets[s];
      RisingAll(offsets, s + 1, |offsets| - 1);
      var row := table[s];
      assert RowHolds(table, lens, blockSize, s);
      var part := AttendSequence(c, q, offsets[s], n, row, lens[s], blockSize, causal);
      forall s': nat | s' < s ensures SequenceOk(c, q, offsets, lens, table, blockSize, causal, res + part, s') {
        assert SequenceOk(c, q, offsets, lens, table, blockSize, causal, res, s');
        PartGrows(c, q, offsets[s'], offsets[s' + 1] - offsets[s'], table[s'], lens[s'], blockSize, causal, res, part);
      }
      PartAdded(c, q, n, table[s], lens[s], blockSize, causal, res, part);
      res := res + part;
      assert SequenceOk(c, q, offsets, lens, table, blockSize, causal, res, s);
    }
  }

  // ----- The two passes -----

  /** What is seen of the rest, after all of the head, is what is seen of the whole. */
  lemma SeenSplits(row: seq<int>, head: seq<int>, rest: seq<int>, blockSize: nat, k: nat,
                   headLen: nat, restLen: nat, seqLen: nat, n: nat, i: nat)
    requires RowsFit(row, head, rest, blockSize, k, headLen, restLen, seqLen, n) && i < n
    ensures var seen := Seen(restLen, n, i, true);
            && headLen + seen == Seen(seqLen, n, i, true) && Covers(row, blockSize, headLen + seen)
            && headLen == k * blockSize
            && Cut(row, head, rest, blockSize, k, seen) && Covers(head, blockSize, headLen)
  {
    var seen := Seen(restLen, n, i, true);
    CoversLess(row, blockSize, seqLen, headLen + seen);
    CutLess(row, head, rest, blockSize, k, restLen, seen);
  }

  lemma CutLess(row: seq<int>, head: seq<int>, rest: seq<int>, blockSize: nat, k: nat, m: nat, n: nat)
    requires Cut(row, head, rest, blockSize, k, m) && n <= m
    ensures Cut(row, head, rest, blockSize, k, n)
  {
  }

  /** Attending to the group's blocks and causally to one's own, and merging, is plain causal attention. */
  lemma PassesMerge<Q(!new)>(c: Cache<Q>, q: Q, row: seq<int>, head: seq<int>, rest: seq<int>, blockSize: nat, k: nat,
                             headLen: nat, restLen: nat, seqLen: nat, n: nat, i: nat, x: State, y: State)
    requires Positive(c) && RowsFit(row, head, rest, blockSize, k, headLen, restLen, seqLen, n) && i < n
    requires TokenAttends(c, q, head, blockSize, headLen, x)
    requires TokenAttends(c, q, rest, blockSize, Seen(restLen, n, i, true), y)
    ensures TokenAttends(c, q, row, blockSize, Seen(seqLen, n, i, true), Merge(x, y))
  {
    hide Covers, Cut, Tokens, RowsFit, Seen, Positive, FirstSlots, Attend, Merge;
    var seen := Seen(restLen, n, i, true);
    SeenSplits(row, head, rest, blockSize, k, headLen, restLen, seqLen, n, i);
    SlotsSplit(row, head, rest, blockSize, k, seen, headLen);
    AttendSplits(c, q, FirstSlots(head, blockSize, headLen), FirstSlots(rest, blockSize, seen));
  }

  // ----- Token by token -----

  lemma PlacedParts(b: Batch, m: Meta, p: nat) returns (g: nat, k: nat)
    requires MetaOk(b, m) && p < |b.table|
    ensures RequestOk(b, m, p, g, k) && |m.packedStart| == |b.table| + 1
    ensures m.suffixLens[p] >= 0 && m.prefixLens[g] >= 0 && b.seqLens[m.perm[p]] >= 0
    ensures Covers(m.suffixTable[p], b.blockSize, m.suffixLens[p]) && QueryLen(b, m.perm[p]) <= m.suffixLens[p]
    ensures QueryLen(b, m.perm[p]) <= b.seqLens[m.perm[p]]
    ensures m.packedStart[p] <= m.packedStart[p + 1]
            && m.packedStart[p + 1] - m.packedStart[p] == QueryLen(b, m.perm[p])
    ensures m.groupOffsets[g] <= m.packedStart[p] && m.packedStart[p + 1] <= m.groupOffsets[g + 1]
  {
    assert Placed(b, m, p);
    g, k :| RequestOk(b, m, p, g, k);
    OffsetsRise(PackedLens(b.queryStart, m.perm));
  }

  /** The result of the group pass for token i of packed request p. */
  lemma GroupResult<Q>(c: Cache<Q>, b: Batch, m: Meta, q: seq<Q>, res: seq<State>, p: nat, g: nat, t: nat)
    requires Results(c, q, m.groupOffsets, m.prefixLens, m.prefixTable, b.blockSize, false, res)
    requires g < |m.prefixLens| && g < |m.prefixTable| && g + 1 < |m.groupOffsets|
             && m.groupOffsets[g] <= t < m.groupOffsets[g + 1] && m.prefixLens[g] >= 0
    ensures t < |q| == |res| && TokenAttends(c, q[t], m.prefixTable[g], b.blockSize, m.prefixLens[g], res[t])
  {
    assert SequenceOk(c, q, m.groupOffsets, m.prefixLens, m.prefixTable, b.blockSize, false, res, g);
    assert TokenAt(c, q, m.groupOffsets[g], m.groupOffsets[g + 1] - m.groupOffsets[g], m.prefixTable[g],
                   m.prefixLens[g], b.blockSize, false, res, t - m.groupOffsets[g]);
  }

  /** The result of the request pass. */
  lemma OwnResult<Q>(c: Cache<Q>, b: Batch, m: Meta, q: seq<Q>, res: seq<State>, p: nat, i: nat)
    requires Results(c, q, m.packedStart, m.suffixLens, m.suffixTable, b.blockSize, true, res)
    requires p < |m.suffixLens| && p < |m.suffixTable| && p + 1 < |m.packedStart|
             && m.packedStart[p] + i < m.packedStart[p + 1] && m.suffixLens[p] >= 0
    ensures var t, n := m.packedStart[p] + i, m.packedStart[p + 1] - m.packedStart[p];
            t < |q| == |res| && TokenAttends(c, q[t], m.suffixTable[p], b.blockSize,
                                             Seen(m.suffixLens[p], n, i, true), res[t])
  {
    assert SequenceOk(c, q, m.packedStart, m.suffixLens, m.suffixTable, b.blockSize, true, res, p);
    assert TokenAt(c, q, m.packedStart[p], m.packedStart[p + 1] - m.packedStart[p], m.suffixTable[p], m.suffixLens[p],
                   b.blockSize, true, res, i);
  }

  /** The slots of the positions up to and with pos, in order: each in the block that the row has for it. */
  ghost predicate SlotsUpTo(row: seq<int>, blockSize: nat, pos: int, slots: Slots) {
    && blockSize > 0 && pos >= 0 && |slots| == pos + 1
    && forall k {:trigger slots[k]} | 0 <= k <= pos ::
         k / blockSize < |row| && slots[k] == row[k / blockSize] * blockSize + k % blockSize
  }

  /** What plain causal attention gives query token i of request o: the queries stand at the end of the sequence, and
      each sees the positions up to its own. */
  ghost predicate Plain<Q>(c: Cache<Q>, b: Batch, q: Q, o: nat, i: nat, s: State) {
    && o < |b.table| == |b.seqLens| && |b.queryStart| == |b.table| + 1
    && var n := b.queryStart[o + 1] - b.queryStart[o];
    && i < n <= b.seqLens[o]
    && exists slots {:trigger SlotsUpTo(b.table[o], b.blockSize, b.seqLens[o] - n + i, slots)} ::
         SlotsUpTo(b.table[o], b.blockSize, b.seqLens[o] - n + i, slots) && s == Attend(c, q, slots)
  }

  lemma PlainIf<Q>(c: Cache<Q>, b: Batch, q: Q, o: nat, i: nat, s: State)
    requires o < |b.table| == |b.seqLens| && |b.queryStart| == |b.table| + 1 && b.seqLens[o] >= 0
    requires i < QueryLen(b, o) <= b.seqLens[o]
    requires TokenAttends(c, q, b.table[o], b.blockSize, Seen(b.seqLens[o], QueryLen(b, o), i, true), s)
    ensures Plain(c, b, q, o, i, s)
  {
    var len, n := b.seqLens[o], QueryLen(b, o);
    var slots := FirstSlots(b.table[o], b.blockSize, Seen(len, n, i, true));
    SeenIs(len, n, i, len - n + i);
    SeenIs(len, n, i, len - n + i + 1);
    assert SlotsUpTo(b.table[o], b.blockSize, len - n + i, slots);
  }

  lemma TokenMerges<Q(!new)>(c: Cache<Q>, b: Batch, m: Meta, q: seq<Q>, x: seq<State>, y: seq<State>, p: nat, i: nat)
    requires MetaOk(b, m) && Positive(c) && p < |b.table| && |m.packedStart| == |b.table| + 1
             && m.packedStart[p] + i < m.packedStart[p + 1]
    requires Results(c, q, m.groupOffsets, m.prefixLens, m.prefixTable, b.blockSize, false, x)
    requires Results(c, q, m.packedStart, m.suffixLens, m.suffixTable, b.blockSize, true, y)
    ensures var t := m.packedStart[p] + i; t < |q| == |x| == |y| && Plain(c, b, q[t], m.perm[p], i, Merge(x[t], y[t]))
  {
    var t := m.packedStart[p] + i;
    var g, k := PlacedParts(b, m, p);
    hide MetaOk, Results, Positive, TokenAttends, RowsFit, Merge, Seen, Plain;
    GroupResult(c, b, m, q, x, p, g, t);
    OwnResult(c, b, m, q, y, p, i);
    PassesMerge(c, q[t], b.table[m.perm[p]], m.prefixTable[g], m.suffixTable[p], b.blockSize, k,
                m.prefixLens[g], m.suffixLens[p], b.seqLens[m.perm[p]], QueryLen(b, m.perm[p]), i, x[t], y[t]);
    PlainIf(c, b, q[t], m.perm[p], i, Merge(x[t], y[t]));
  }

  // ----- forest_cascade_attention -----

  /** The pass over the requests' own blocks; when there are none, no tokens see anything. */
  method RequestPass<Q>(c: Cache<Q>, b: Batch, m: Meta, q: seq<Q>) returns (res: seq<State>)
    requires MetaOk(b, m) && b.table != [] && |q| == |m.tokenPerm|
    ensures Results(c, q, m.packedStart, m.suffixLens, m.suffixTable, b.blockSize, true, res)
  {
    hide RowsFit, TokensPlaced, TokenPerm, Results;
    PackedTotal(b, m);
    forall p ensures RowHolds(m.suffixTable, m.suffixLens, b.blockSize, p) {
      if 0 <= p < |b.table| {
        var g, k := PlacedParts(b, m, p);
      }
    }
    if MaxOf(m.suffixLens) > 0 {
      res := VarlenAttention(c, q, m.packedStart, m.suffixLens, m.suffixTable, b.blockSize, true);
    } else {
      res := seq(|q|, _ => State(0.0, 0.0));
      NothingSeen(c, b, m, q, res);
    }
  }

  lemma PackedTotal(b: Batch, m: Meta)
    requires MetaOk(b, m)
    ensures |m.packedStart| == |b.table| + 1 && m.packedStart[|b.table|] == |m.tokenPerm| && Rising(m.packedStart)
            && m.packedStart[0] == 0
  {
    OffsetsRise(PackedLens(b.queryStart, m.perm));
  }

  lemma NothingSeen<Q>(c: Cache<Q>, b: Batch, m: Meta, q: seq<Q>, res: seq<State>)
    requires MetaOk(b, m) && b.table != [] && MaxOf(m.suffixLens) <= 0 && |res| == |q| == |m.tokenPerm|
    ensures Results(c, q, m.packedStart, m.suffixLens, m.suffixTable, b.blockSize, true, res)
  {
    PackedTotal(b, m);
    forall p: nat | p < |m.suffixLens| ensures SequenceOk(c, q, m.packedStart, m.suffixLens, m.suffixTable,
                                                          b.blockSize, true, res, p) {
      var g, k := PlacedParts(b, m, p);
      assert m.suffixLens[p] in m.suffixLens;
      RisingAll(m.packedStart, p + 1, |b.table|);
    }
  }

  /** merge_attn_states */
  function MergeAll(x: seq<State>, y: seq<State>): (z: seq<State>)
    requires |x| == |y|
    ensures |z| == |x| && forall t | 0 <= t < |z| :: z[t] == Merge(x[t], y[t])
  {
    seq(|x|, t requires 0 <= t < |x| => Merge(x[t], y[t]))
  }

  /** Every packed token is one token of one request, and gets what that request's attention gives it. */
  ghost predicate PackedPlain<Q>(c: Cache<Q>, b: Batch, m: Meta, q: seq<Q>, z: seq<State>, p: nat, i: nat) {
    p + 1 < |m.packedStart| && p < |m.perm| && m.packedStart[p] + i < m.packedStart[p + 1] ==>
      m.packedStart[p] + i < |q| == |z| && Plain(c, b, q[m.packedStart[p] + i], m.perm[p], i, z[m.packedStart[p] + i])
  }

  lemma PackedMerges<Q(!new)>(c: Cache<Q>, b: Batch, m: Meta, q: seq<Q>, x: seq<State>, y: seq<State>, z: seq<State>,
                              p: nat, i: nat)
    requires MetaOk(b, m) && Positive(c)
    requires Results(c, q, m.groupOffsets, m.prefixLens, m.prefixTable, b.blockSize, false, x)
    requires Results(c, q, m.packedStart, m.suffixLens, m.suffixTable, b.blockSize, true, y)
    requires |z| == |x| == |y| && forall t | 0 <= t < |z| :: z[t] == Merge(x[t], y[t])
    ensures PackedPlain(c, b, m, q, z, p, i)
  {
    hide *;
    if p + 1 < |m.packedStart| && p < |m.perm| && m.packedStart[p] + i < m.packedStart[p + 1] {
      PackedTotal(b, m);
      TokenMerges(c, b, m, q, x, y, p, i);
    }
    PackedIf(c, b, m, q, z, p, i);
  }

  lemma PackedIf<Q>(c: Cache<Q>, b: Batch, m: Meta, q: seq<Q>, z: seq<State>, p: nat, i: nat)
    requires p + 1 < |m.packedStart| && p < |m.perm| && m.packedStart[p] + i < m.packedStart[p + 1] ==>
               m.packedStart[p] + i < |q| == |z|
                 && Plain(c, b, q[m.packedStart[p] + i], m.perm[p], i, z[m.packedStart[p] + i])
    ensures PackedPlain(c, b, m, q, z, p, i)
  {
  }

  method Passes<Q(!new)>(c: Cache<Q>, b: Batch, m: Meta, q: seq<Q>) returns (z: seq<State>)
    requires MetaOk(b, m) && Positive(c) && b.table != [] && |q| == |m.tokenPerm|
    ensures |z| == |q| && forall p: nat, i: nat {:trigger PackedPlain(c, b, m, q, z, p, i)} ::
              PackedPlain(c, b, m, q, z, p, i)
  {
    PackedTotal(b, m);
    var x := VarlenAttention(c, q, m.groupOffsets, m.prefixLens, m.prefixTable, b.blockSize, false);
    var y := RequestPass(c, b, m, q);
    assert |x| == |q| == |y|;
    z := MergeAll(x, y);
    hide *;
    forall p: nat, i: nat ensures PackedPlain(c, b, m, q, z, p, i) {
      PackedMerges(c, b, m, q, x, y, z, p, i);
    }
  }

  /** output.index_copy_: put every packed result in the place of its token. */
  method Scatter(output: array<real>, places: seq<int>, z: seq<State>)
    requires |places| == |z| && forall t | 0 <= t < |places| :: 0 <= places[t] < output.Length
    requires forall t, u | 0 <= t < u < |places| :: places[t] != places[u]
    modifies output
    ensures forall t | 0 <= t < |places| :: output[places[t]] == z[t].out
    ensures forall x | 0 <= x < output.Length && x !in places :: output[x] == old(output[x])
  {
    for t := 0 to |places|
      invariant forall u | 0 <= u < t :: output[places[u]] == z[u].out
      invariant forall x | 0 <= x < output.Length && x !in places :: output[x] == old(output[x])
    {
      output[places[t]] := z[t].out;
    }
  }

  /** The output at a token is that of plain causal attention. */
  ghost predicate OutputAt<Q>(c: Cache<Q>, b: Batch, query: seq<Q>, output: seq<real>, o: nat, i: nat) {
    o < |b.table| && |b.queryStart| == |b.table| + 1 && b.queryStart[o] + i < b.queryStart[o + 1] ==>
      0 <= b.queryStart[o] + i < |query| && b.queryStart[o] + i < |output| &&
      exists s {:trigger Plain(c, b, query[b.queryStart[o] + i], o, i, s)} ::
        Plain(c, b, query[b.queryStart[o] + i], o, i, s) && output[b.queryStart[o] + i] == s.out
  }

  lemma OutputPlain<Q>(c: Cache<Q>, b: Batch, m: Meta, query: seq<Q>, q: seq<Q>, z: seq<State>, output: seq<real>,
                       o: nat, i: nat)
    requires MetaOk(b, m) && b.queryStart[|b.table|] <= |query| && b.queryStart[|b.table|] <= |output|
    requires |q| == |z| == |m.tokenPerm|
    requires forall t | 0 <= t < |m.tokenPerm| ::
               0 <= m.tokenPerm[t] < b.queryStart[|b.table|] && q[t] == query[m.tokenPerm[t]]
    requires forall t | 0 <= t < |m.tokenPerm| :: output[m.tokenPerm[t]] == z[t].out
    requires forall p: nat, i: nat {:trigger PackedPlain(c, b, m, q, z, p, i)} :: PackedPlain(c, b, m, q, z, p, i)
    ensures OutputAt(c, b, query, output, o, i)
  {
    hide Plain, MetaOk;
    if o < |b.table| && |b.queryStart| == |b.table| + 1 && b.queryStart[o] + i < b.queryStart[o + 1] {
      var t, p := PackedPlace(b, m, o, i);
      assert PackedPlain(c, b, m, q, z, p, i);
      assert 0 <= m.tokenPerm[t] && q[t] == query[m.tokenPerm[t]] && output[m.tokenPerm[t]] == z[t].out;
      var x := b.queryStart[o] + i;
      assert 0 <= x < |query| && x < |output|;
      assert Plain(c, b, query[x], o, i, z[t]);
      OutputIf(c, b, query, output, o, i, z[t]);
    }
  }

  lemma OutputIf<Q>(c: Cache<Q>, b: Batch, query: seq<Q>, output: seq<real>, o: nat, i: nat, s: State)
    requires o < |b.table| && |b.queryStart| == |b.table| + 1 && 0 <= b.queryStart[o] + i < |query|
             && b.queryStart[o] + i < |output|
    requires Plain(c, b, query[b.queryStart[o] + i], o, i, s) && output[b.queryStart[o] + i] == s.out
    ensures OutputAt(c, b, query, output, o, i)
  {
  }

  lemma QueryStarts(b: Batch, m: Meta)
    requires MetaOk(b, m)
    ensures |b.queryStart| == |b.table| + 1 && b.queryStart[|b.table|] >= 0
  {
    RisingAll(b.queryStart, 0, |b.table|);
  }

  /** forest_cascade_attention: every query token of every request gets what plain causal attention over
      the request's own blocks gives it, and nothing beyond the query tokens is written. */
  method ForestCascadeAttention<Q(!new)>(output: array<real>, query: seq<Q>, c: Cache<Q>, b: Batch, m: Meta,
                                         ghost total: nat)
    requires MetaOk(b, m) && Positive(c) && b.table != []
    requires b.queryStart[|b.table|] == total <= |query| && total <= output.Length
    modifies output
    ensures forall o: nat, i: nat {:trigger OutputAt(c, b, query, output[..], o, i)} ::
              OutputAt(c, b, query, output[..], o, i)
    ensures output[total..] == old(output[total..])
  {
    hide MetaOk, PackedPlain, OutputAt, Positive;
    QueryStarts(b, m);
    PlacesOk(b, m, |query|);
    var q := Gather(query, m.tokenPerm);
    var z := Passes(c, b, m, q);
    Scatter(output, m.tokenPerm, z);
    forall o: nat, i: nat ensures OutputAt(c, b, query, output[..], o, i) {
      OutputPlain(c, b, m, query, q, z, output[..], o, i);
    }
  }

  /** index_select */
  function Gather<T>(s: seq<T>, places: seq<int>): (r: seq<T>)
    requires forall t | 0 <= t < |places| :: 0 <= places[t] < |s|
    ensures |r| == |places| && forall t | 0 <= t < |places| :: r[t] == s[places[t]]
  {
    seq(|places|, t requires 0 <= t < |places| => s[places[t]])
  }

  lemma PlacesOk(b: Batch, m: Meta, n: nat)
    requires MetaOk(b, m) && b.queryStart[|b.table|] <= n
    ensures forall t | 0 <= t < |m.tokenPerm| :: 0 <= m.tokenPerm[t] < b.queryStart[|b.table|] <= n
    ensures forall t, u | 0 <= t < u < |m.tokenPerm| :: m.tokenPerm[t] != m.tokenPerm[u]
  {
    hide TokenPerm, Offsets, PackedLens;
    forall t | 0 <= t < |m.tokenPerm| ensures 0 <= m.tokenPerm[t] < b.queryStart[|b.table|] {
      var p, i := PackedOf(b.queryStart, m.perm, t);
      RisingAll(b.queryStart, 0, m.perm[p]);
      RisingAll(b.queryStart, m.perm[p] + 1, |b.table|);
    }
    forall t, u | 0 <= t < u < |m.tokenPerm| ensures m.tokenPerm[t] != m.tokenPerm[u] {
      TokenPermInjective(b.queryStart, m.perm, t, u);
    }
  }

  lemma PackedPlace(b: Batch, m: Meta, o: nat, i: nat) returns (t: nat, p: nat)
    requires MetaOk(b, m) && o < |b.table| && b.queryStart[o] + i < b.queryStart[o + 1]
    ensures p < |m.perm| && p + 1 < |m.packedStart| && m.perm[p] == o
            && t == m.packedStart[p] + i < m.packedStart[p + 1]
    ensures t < |m.tokenPerm| && m.tokenPerm[t] == b.queryStart[o] + i
  {
    p := PermutationOnto(m.perm, |b.table|, o);
    t := m.packedStart[p] + i;
    PackedToken(b.queryStart, m.perm, p, i);
  }
}
