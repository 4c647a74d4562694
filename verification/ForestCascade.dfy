/**
 Forest cascade attention: requests are put in groups, each group attends to the blocks its
 requests share, each request to the blocks after those, and the two are merged.  The order of
 the requests is any permutation, as the result of the lexicographic sort is used as one.
 */
module ForestCascade {
  import opened FiniteSets
  import opened Options
  import opened Sequences
  import opened PrefixGroups
  import opened TokenPacking
  import opened AttentionStates
  import opened Blocks

  /** The settings that decide whether groups are worth their cost. */
  datatype Thresholds = Thresholds(minGroup: int, minAdditional: int, minFraction: real, maxGroups: int)

  // ----- Grouping -----

  /** The requests of the group share its prefix, which is of full blocks and has the start blocks. */
  ghost predicate GroupOk(rows: Table, full: seq<int>, startBlock: nat, r: Range) {
    && 0 <= r.start < r.end <= |rows| == |full| && startBlock <= r.prefix && Share(rows, r.start, r.end, r.prefix)
    && forall i | r.start <= i < r.end :: r.prefix <= full[i]
  }

  ghost predicate GroupsOk(rows: Table, full: seq<int>, startBlock: nat, rs: seq<Range>) {
    Tiles(Bounds(rs), 0, |rows|) && forall i {:trigger rs[i]} | 0 <= i < |rs| :: GroupOk(rows, full, startBlock, rs[i])
  }

  /** Too short a prefix is not worth a pass of its own: only the start blocks are left of it. */
  function Shortened(r: Range, startBlock: nat, minAdditional: int): Range {
    if r.prefix - startBlock < minAdditional then r.(prefix := startBlock) else r
  }

  function CountLarge(rs: seq<Range>, minGroup: int): nat {
    if rs == [] then 0
    else CountLarge(rs[..|rs| - 1], minGroup) +
         if rs[|rs| - 1].end - rs[|rs| - 1].start >= minGroup then 1 else 0
  }

  function SumLarge(rs: seq<Range>, minGroup: int): int {
    if rs == [] then 0
    else SumLarge(rs[..|rs| - 1], minGroup) +
         if rs[|rs| - 1].end - rs[|rs| - 1].start >= minGroup then rs[|rs| - 1].end - rs[|rs| - 1].start else 0
  }

  predicate Worthwhile(rs: seq<Range>, startBlock: nat, t: Thresholds, n: int)
    requires n > 0
  {
    && rs != []
    && CountLarge(rs, t.minGroup) > 0 && CountLarge(rs, t.minGroup) <= t.maxGroups
    && SumLarge(rs, t.minGroup) as real / n as real >= t.minFraction
    && exists i | 0 <= i < |rs| :: rs[i].prefix > startBlock && rs[i].end - rs[i].start >= t.minGroup
  }

  /** Group g has enough requests; request p is in such a group. */
  ghost predicate Large(rs: seq<Range>, minGroup: int, g: nat) {
    g < |rs| && rs[g].end - rs[g].start >= minGroup
  }

  ghost predicate InLarge(rs: seq<Range>, minGroup: int, p: nat) {
    exists g: nat {:trigger Large(rs, minGroup, g)} :: Large(rs, minGroup, g) && rs[g].start <= p < rs[g].end
  }

  ghost function LargeGroups(rs: seq<Range>, minGroup: int): set<nat> {
    set g: nat | g < |rs| && Large(rs, minGroup, g)
  }

  ghost function LargeMembers(rs: seq<Range>, minGroup: int, n: nat): set<nat> {
    set p: nat | p < n && InLarge(rs, minGroup, p)
  }

  lemma {:induction false} LargeCounted(rs: seq<Range>, minGroup: int)
    ensures CountLarge(rs, minGroup) == |LargeGroups(rs, minGroup)|
  {
    if rs != [] {
      var l, s := |rs| - 1, rs[..|rs| - 1];
      LargeCounted(s, minGroup);
      assert forall g: nat | g < l :: Large(s, minGroup, g) <==> Large(rs, minGroup, g);
      assert LargeGroups(rs, minGroup) == LargeGroups(s, minGroup) + if Large(rs, minGroup, l) then {l} else {};
    }
  }

  lemma {:induction false} LargeSummed(rs: seq<Range>, minGroup: int, n: nat)
    requires Tiles(Bounds(rs), 0, n)
    ensures SumLarge(rs, minGroup) == |LargeMembers(rs, minGroup, n)|
  {
    if rs != [] {
      var l, s := |rs| - 1, rs[..|rs| - 1];
      LastTile(rs, n);
      var m: nat := rs[l].start;
      LargeSummed(s, minGroup, m);
      hide Tiles, Bounds;
      LastMembers(rs, minGroup, m, n);
      var last := Below(n) - Below(m);
      SubsetSize(Below(m), Below(n));
      assert Below(n) == last + Below(m);
      assert LargeMembers(s, minGroup, m) !! last;
    }
  }

  /** The last of some groups that tile n requests comes after those that tile the requests before it. */
  lemma LastTile(rs: seq<Range>, n: nat)
    requires Tiles(Bounds(rs), 0, n) && rs != []
    ensures var l := |rs| - 1;
            && 0 <= rs[l].start <= n == rs[l].end && Tiles(Bounds(rs[..l]), 0, rs[l].start)
            && forall g | 0 <= g < l :: rs[g].end <= rs[l].start
  {
    var l, s := |rs| - 1, rs[..|rs| - 1];
    TilesCut(Bounds(rs), 0, n, l);
    TilesOrder(Bounds(rs), 0, n);
    assert Bounds(rs)[..l] == Bounds(s);
    TilesOrder(Bounds(s), 0, rs[l].start);
    forall g | 0 <= g < l ensures rs[g].end <= rs[l].start {
      assert rs[g] == s[g] && Bounds(s)[g].1 == s[g].end;
    }
  }

  lemma LastMembers(rs: seq<Range>, minGroup: int, m: nat, n: nat)
    requires rs != [] && rs[|rs| - 1].start == m <= n == rs[|rs| - 1].end
    requires forall g | 0 <= g < |rs| - 1 :: rs[g].end <= m
    ensures LargeMembers(rs, minGroup, n) == LargeMembers(rs[..|rs| - 1], minGroup, m) +
                                             if n - m >= minGroup then Below(n) - Below(m) else {}
  {
    var s, l := rs[..|rs| - 1], |rs| - 1;
    forall p: nat | p < m ensures InLarge(s, minGroup, p) <==> InLarge(rs, minGroup, p) {
      if g: nat :| Large(s, minGroup, g) && s[g].start <= p < s[g].end {
        assert Large(rs, minGroup, g);
      }
      if g: nat :| Large(rs, minGroup, g) && rs[g].start <= p < rs[g].end {
        assert Large(s, minGroup, g);
      }
    }
    forall p: nat | m <= p < n ensures InLarge(rs, minGroup, p) <==> n - m >= minGroup {
      assert Large(rs, minGroup, l) <==> n - m >= minGroup;
    }
  }

  /** Groups that tile the requests are worth their cost when some are large enough, not too many are, these have
      enough of the requests, and one of them shares more than the start blocks. */
  lemma WorthIs(rs: seq<Range>, startBlock: nat, t: Thresholds, n: nat)
    requires n > 0 && Tiles(Bounds(rs), 0, n)
    ensures Worthwhile(rs, startBlock, t, n) <==>
              && 0 < |LargeGroups(rs, t.minGroup)| <= t.maxGroups
              && |LargeMembers(rs, t.minGroup, n)| as real / n as real >= t.minFraction
              && exists g: nat :: Large(rs, t.minGroup, g) && rs[g].prefix > startBlock
  {
    LargeCounted(rs, t.minGroup);
    LargeSummed(rs, t.minGroup, n);
    if i :| 0 <= i < |rs| && rs[i].prefix > startBlock && rs[i].end - rs[i].start >= t.minGroup {
      assert Large(rs, t.minGroup, i);
    }
    hide CountLarge, SumLarge, LargeMembers, Tiles;
  }

  lemma PermutedShare(rows: Table, perm: seq<nat>, q: nat)
    requires Permutation(perm, |rows|) && Share(rows, 0, |rows|, q)
    ensures Share(Permuted(rows, perm), 0, |rows|, q)
  {
  }

  lemma ShortenedOk(rows: Table, full: seq<int>, startBlock: nat, minAdditional: int, r: Range)
    requires GroupOk(rows, full, startBlock, r)
    ensures GroupOk(rows, full, startBlock, Shortened(r, startBlock, minAdditional))
  {
    forall i | r.start <= i < r.end ensures rows[i][..startBlock] == rows[r.start][..startBlock] {
      PrefixOfEqual(rows[i], rows[r.start], r.prefix, startBlock);
    }
  }

  function ShortenedAll(ranges: seq<Range>, startBlock: nat, minAdditional: int): (rs: seq<Range>)
    ensures |rs| == |ranges| && forall i | 0 <= i < |rs| :: rs[i] == Shortened(ranges[i], startBlock, minAdditional)
  {
    seq(|ranges|, i requires 0 <= i < |ranges| => Shortened(ranges[i], startBlock, minAdditional))
  }

  lemma SplitGroupsOk(rows: Table, full: seq<int>, startBlock: nat, adj: seq<int>, ranges: seq<Range>,
                      minAdditional: int)
    requires AllPairs(rows, full, startBlock, adj) && Tiles(Bounds(ranges), 0, |rows|)
    requires PrefixesOk(adj, full, startBlock, ranges)
    ensures GroupsOk(rows, full, startBlock, ShortenedAll(ranges, startBlock, minAdditional))
  {
    var rs := ShortenedAll(ranges, startBlock, minAdditional);
    forall i | 0 <= i < |rs| ensures GroupOk(rows, full, startBlock, rs[i]) {
      assert PrefixOk(adj, full, startBlock, ranges[i]);
      GroupPrefixShared(rows, full, startBlock, adj, ranges[i]);
      ShortenedOk(rows, full, startBlock, minAdditional, ranges[i]);
    }
    assert Bounds(rs) == Bounds(ranges);
  }

  lemma PermutedTable(table: Table, full: seq<int>, startBlock: nat, perm: seq<nat>, width: nat)
    requires TableOk(table, full, startBlock, width) && Permutation(perm, |table|) && table != []
             && Share(table, 0, |table|, startBlock)
    ensures var rows, fs := Permuted(table, perm), Permuted(full, perm);
            TableOk(rows, fs, startBlock, width) && |fs| > 0 && Share(rows, 0, |rows|, startBlock)
              && |table[0]| == width
  {
    PermutedShare(table, perm, startBlock);
  }

  /** The groups of the recursive split, for the rows in the order of perm, without the prefixes that are too short. */
  ghost function Groups(table: Table, full: seq<int>, startBlock: nat, perm: seq<nat>, t: Thresholds,
                        width: nat): seq<Range>
    requires TableOk(table, full, startBlock, width) && Permutation(perm, |table|) && table != []
    requires Share(table, 0, |table|, startBlock)
  {
    PermutedTable(table, full, startBlock, perm, width);
    var rows, fs := Permuted(table, perm), Permuted(full, perm);
    var adj := AdjacentLcps(rows, fs, startBlock, width);
    ShortenedAll(Split(adj, fs, startBlock, t.minGroup, 0, |fs|), startBlock, t.minAdditional)
  }

  /** Each group is one of the recursive split, with its prefix if that has enough blocks beyond the start block. */
  lemma GroupsAre(table: Table, full: seq<int>, startBlock: nat, perm: seq<nat>, t: Thresholds, width: nat, g: nat)
    requires TableOk(table, full, startBlock, width) && Permutation(perm, |table|) && table != []
    requires Share(table, 0, |table|, startBlock)
    ensures TableOk(Permuted(table, perm), Permuted(full, perm), startBlock, width) && |Permuted(full, perm)| > 0
    ensures var rs := Groups(table, full, startBlock, perm, t, width);
            var rows, fs := Permuted(table, perm), Permuted(full, perm);
            var split := Split(AdjacentLcps(rows, fs, startBlock, width), fs, startBlock, t.minGroup, 0, |fs|);
            && |rs| == |split|
            && (g < |rs| ==>
                  && rs[g].start == split[g].start && rs[g].end == split[g].end
                  && rs[g].prefix == if split[g].prefix >= startBlock + t.minAdditional then split[g].prefix
                     else startBlock)
  {
    PermutedTable(table, full, startBlock, perm, width);
    hide TableOk, AdjacentLcps, Split, Permuted;
  }

  /** There is something to compare, and the groups are worth their cost. */
  ghost predicate WorthGrouping(table: Table, full: seq<int>, startBlock: nat, perm: seq<nat>, t: Thresholds,
                                width: nat)
    requires TableOk(table, full, startBlock, width) && Permutation(perm, |table|)
    requires table != [] ==> Share(table, 0, |table|, startBlock)
  {
    && |table| > 1 && Columns(full, width) > startBlock
    && Worthwhile(Groups(table, full, startBlock, perm, t, width), startBlock, t, |table|)
  }

  /** The groups tile the requests and share their prefixes. */
  lemma GroupsShare(table: Table, full: seq<int>, startBlock: nat, perm: seq<nat>, t: Thresholds, width: nat)
    requires TableOk(table, full, startBlock, width) && Permutation(perm, |table|) && table != []
    requires Share(table, 0, |table|, startBlock)
    ensures GroupsOk(Permuted(table, perm), Permuted(full, perm), startBlock,
                     Groups(table, full, startBlock, perm, t, width))
  {
    PermutedTable(table, full, startBlock, perm, width);
    var rows, fs := Permuted(table, perm), Permuted(full, perm);
    var adj := AdjacentLcps(rows, fs, startBlock, width);
    hide TableOk, GroupsOk, AllPairs, Worthwhile, PrefixesOk, AdjacentLcps, Share, Split, Tiles, Permuted;
    AdjacentPairs(rows, fs, startBlock, width);
    PairLengths(rows, fs, startBlock, adj);
    SplitTiles(adj, fs, startBlock, t.minGroup, 0, |fs|);
    SplitPrefixes(adj, fs, startBlock, t.minGroup, 0, |fs|);
    SplitGroupsOk(rows, fs, startBlock, adj, Split(adj, fs, startBlock, t.minGroup, 0, |fs|), t.minAdditional);
  }

  /** _forest_sort_and_group, for the rows in the order of perm: the groups, exactly when they are worth it. */
  method SortAndGroup(table: Table, full: seq<int>, startBlock: nat, perm: seq<nat>, t: Thresholds, ghost width: nat)
    returns (groups: Option<seq<Range>>)
    requires TableOk(table, full, startBlock, width) && Permutation(perm, |table|)
    requires table != [] ==> Share(table, 0, |table|, startBlock)
    ensures groups.Some? <==> WorthGrouping(table, full, startBlock, perm, t, width)
    ensures groups.Some? ==> groups.value == Groups(table, full, startBlock, perm, t, width) != []
    ensures groups.Some? ==> GroupsOk(Permuted(table, perm), Permuted(full, perm), startBlock, groups.value)
  {
    hide GroupsOk, AllPairs, Worthwhile, AdjacentLcps, Share, Split;
    if |table| <= 1 {
      return None;
    }
    if Columns(full, |table[0]|) - startBlock <= 0 {
      return None;
    }
    PermutedTable(table, full, startBlock, perm, width);
    GroupsShare(table, full, startBlock, perm, t, width);
    var rows, fs := Permuted(table, perm), Permuted(full, perm);
    var adj := AdjacentLcps(rows, fs, startBlock, |table[0]|);
    var ranges := RecursiveLcpSplit(adj, fs, startBlock, t.minGroup);
    var rs := ShortenedAll(ranges, startBlock, t.minAdditional);
    if !Worthwhile(rs, startBlock, t, |table|) {
      return None;
    }
    NoneWorthless(rs, startBlock, t, |table|);
    groups := Some(rs);
  }

  lemma PairLengths(rows: Table, full: seq<int>, startBlock: nat, adj: seq<int>)
    requires AllPairs(rows, full, startBlock, adj)
    ensures |rows| == |full| == |adj| + 1
  {
  }

  lemma NoneWorthless(rs: seq<Range>, startBlock: nat, t: Thresholds, n: int)
    requires n > 0 && Worthwhile(rs, startBlock, t, n)
    ensures rs != []
  {
  }

  // ----- Groups as ranges of packed requests and of packed tokens -----

  ghost predicate Tiled(rs: seq<Range>, n: nat) {
    rs != [] && Tiles(Bounds(rs), 0, n)
  }

  lemma TiledNext(rs: seq<Range>, n: nat, g: nat)
    requires Tiled(rs, n) && g < |rs|
    ensures rs[0].start == 0 && 0 <= rs[g].start < rs[g].end <= n
    ensures rs[g].end == if g + 1 < |rs| then rs[g + 1].start else n
  {
    var b := Bounds(rs);
    TilesCut(b, 0, n, g);
    if g + 1 < |rs| {
      assert b[g + 1..][0] == b[g + 1];
    }
  }

  /** The difference of the offsets at the ends of each range. */
  function Spans(offsets: seq<nat>, rs: seq<Range>): (lens: seq<nat>)
    requires Rising(offsets) && forall i | 0 <= i < |rs| :: 0 <= rs[i].start <= rs[i].end < |offsets|
    ensures |lens| == |rs| && forall i | 0 <= i < |rs| :: lens[i] + offsets[rs[i].start] == offsets[rs[i].end]
  {
    forall i | 0 <= i < |rs| ensures offsets[rs[i].start] <= offsets[rs[i].end] {
      RisingAll(offsets, rs[i].start, rs[i].end);
    }
    seq(|rs|, i
      requires 0 <= i < |rs| && 0 <= rs[i].start <= rs[i].end < |offsets|
               && offsets[rs[i].start] <= offsets[rs[i].end] =>
      offsets[rs[i].end] - offsets[rs[i].start])
  }

  lemma TiledIn(rs: seq<Range>, n: nat)
    requires Tiled(rs, n)
    ensures forall i | 0 <= i < |rs| :: 0 <= rs[i].start < rs[i].end <= n
  {
    forall i | 0 <= i < |rs| ensures 0 <= rs[i].start < rs[i].end <= n {
      TiledNext(rs, n, i);
    }
  }

  /** The spans of ranges that tile the requests add up to the offsets at their starts. */
  lemma {:induction false} SpanOffsets(offsets: seq<nat>, rs: seq<Range>, n: nat, g: nat)
    requires Rising(offsets) && |offsets| == n + 1 && offsets[0] == 0 && Tiled(rs, n) && g <= |rs|
    requires forall i | 0 <= i < |rs| :: 0 <= rs[i].start < rs[i].end <= n
    ensures Offsets(Spans(offsets, rs))[g] == offsets[if g < |rs| then rs[g].start else n]
  {
    if g > 0 {
      SpanOffsets(offsets, rs, n, g - 1);
      TiledNext(rs, n, g - 1);
    } else {
      TiledNext(rs, n, 0);
    }
  }

  function Counting(n: nat): (o: seq<nat>)
    ensures |o| == n + 1 && Rising(o) && forall i | 0 <= i <= n :: o[i] == i
  {
    seq(n + 1, i => i)
  }

  /** Group sizes, and the group of every packed request. */
  function Sizes(rs: seq<Range>): (sizes: seq<nat>)
    ensures |sizes| == |rs| && forall i | 0 <= i < |rs| && rs[i].start <= rs[i].end ::
              sizes[i] == rs[i].end - rs[i].start
  {
    seq(|rs|, i requires 0 <= i < |rs| => if rs[i].start <= rs[i].end then rs[i].end - rs[i].start else 0)
  }

  /** The groups tile the requests, so that every packed request has one. */
  ghost predicate Ranged(rs: seq<Range>, n: nat) {
    && n > 0 && Tiled(rs, n) && |Repeated(Sizes(rs))| == n
    && forall i | 0 <= i < |rs| :: 0 <= rs[i].start < rs[i].end <= n && rs[i].prefix >= 0
  }

  /** The group of packed request p. */
  function GroupId(rs: seq<Range>, p: nat): (g: nat)
    requires p < |Repeated(Sizes(rs))|
    ensures g < |rs|
  {
    Repeated(Sizes(rs))[p]
  }

  lemma GroupOf(rs: seq<Range>, n: nat, p: nat)
    requires Tiled(rs, n) && p < n
    requires forall i | 0 <= i < |rs| :: 0 <= rs[i].start < rs[i].end <= n
    ensures |Repeated(Sizes(rs))| == n
    ensures var g := Repeated(Sizes(rs))[p]; g < |rs| && rs[g].start <= p < rs[g].end
  {
    assert Sizes(rs) == Spans(Counting(n), rs);
    SpanOffsets(Counting(n), rs, n, |rs|);
    RepeatedWithin(Sizes(rs), p);
    var g := Repeated(Sizes(rs))[p];
    SpanOffsets(Counting(n), rs, n, g);
    SpanOffsets(Counting(n), rs, n, g + 1);
    TiledNext(rs, n, g);
  }

  /** The tokens of a packed request are among those of its group. */
  lemma TokensInGroup(offsets: seq<nat>, rs: seq<Range>, n: nat, g: nat, p: nat)
    requires Rising(offsets) && |offsets| == n + 1 && offsets[0] == 0 && Tiled(rs, n) && g < |rs|
             && rs[g].start <= p < rs[g].end
    requires forall i | 0 <= i < |rs| :: 0 <= rs[i].start < rs[i].end <= n
    ensures var o := Offsets(Spans(offsets, rs)); o[g] <= offsets[p] && offsets[p + 1] <= o[g + 1]
    ensures Offsets(Spans(offsets, rs))[|rs|] == offsets[n]
  {
    SpanOffsets(offsets, rs, n, g);
    SpanOffsets(offsets, rs, n, g + 1);
    SpanOffsets(offsets, rs, n, |rs|);
    TiledNext(rs, n, g);
    RisingAll(offsets, rs[g].start, p);
    RisingAll(offsets, p + 1, rs[g].end);
  }

  // ----- Metadata -----

  /** Number of tokens in k blocks. */
  function Tokens(k: int, blockSize: nat): int {
    k * blockSize
  }

  /** A batch: the block table and length of each request, and where its query tokens start. */
  datatype Batch = Batch(table: Table, seqLens: seq<int>, queryStart: seq<int>, blockSize: nat)

  /** What the attention passes need.  Rows of tables and lengths are in the order of perm. */
  datatype Meta = Meta(
    perm: seq<nat>,
    tokenPerm: seq<int>,
    packedStart: seq<nat>,
    groupOffsets: seq<nat>,
    prefixLens: seq<int>,
    prefixTable: Table,
    suffixLens: seq<int>,
    suffixTable: Table)

  function QueryLen(b: Batch, o: nat): int
    requires o + 1 < |b.queryStart|
  {
    b.queryStart[o + 1] - b.queryStart[o]
  }

  /** The requests of the batch: their rows are equally wide, hold their tokens, and agree on the
      blocks of the common prefix. */
  ghost predicate BatchOk(b: Batch, common: int, width: nat) {
    && b.blockSize > 0 && |b.seqLens| == |b.table|
    && (|b.queryStart| > 0 ==> Rising(b.queryStart) && b.queryStart[0] == 0)
    && (forall o | 0 <= o < |b.table| :: |b.table[o]| == width && b.seqLens[o] <= Tokens(width, b.blockSize))
    && (b.table != [] && 0 <= common && common / b.blockSize <= width ==>
         Share(b.table, 0, |b.table|, common / b.blockSize))
  }

  /** The tokens of packed request p, n in number, are tokens of group g. */
  ghost predicate TokensPlaced(m: Meta, p: nat, g: nat, n: int) {
    && p + 1 < |m.packedStart| && g + 1 < |m.groupOffsets|
    && m.groupOffsets[g] <= m.packedStart[p] && m.packedStart[p + 1] <= m.groupOffsets[g + 1]
    && 0 <= n && m.packedStart[p + 1] == m.packedStart[p] + n
  }

  /** The head row has k blocks and the rest row the blocks of the row after those; together they hold the
      tokens of the sequence, the rest its n query tokens. */
  ghost predicate RowsFit(row: seq<int>, head: seq<int>, rest: seq<int>, blockSize: nat, k: nat, headLen: int,
                          restLen: int, seqLen: int, n: int)
  {
    && headLen == Tokens(k, blockSize) >= 0 && n <= restLen && restLen >= 0 && headLen + restLen == seqLen
    && Cut(row, head, rest, blockSize, k, restLen)
    && Covers(row, blockSize, seqLen) && Covers(head, blockSize, headLen) && Covers(rest, blockSize, restLen)
  }

  /** For the packed request p in group g: its tokens are tokens of the group; the blocks of the group's
      row and then those of its own row are its blocks, and hold its tokens; the latter hold its queries. */
  ghost predicate RequestOk(b: Batch, m: Meta, p: nat, g: nat, k: nat) {
    && p < |m.perm| && m.perm[p] < |b.table| == |b.seqLens| && |b.queryStart| == |b.table| + 1
    && p < |m.suffixLens| && p < |m.suffixTable| && g < |m.prefixLens| && g < |m.prefixTable|
    && TokensPlaced(m, p, g, QueryLen(b, m.perm[p]))
    && RowsFit(b.table[m.perm[p]], m.prefixTable[g], m.suffixTable[p], b.blockSize, k,
               m.prefixLens[g], m.suffixLens[p], b.seqLens[m.perm[p]], QueryLen(b, m.perm[p]))
  }

  ghost predicate Placed(b: Batch, m: Meta, p: nat) {
    exists g: nat, k: nat :: RequestOk(b, m, p, g, k)
  }

  ghost predicate MetaOk(b: Batch, m: Meta) {
    && |b.queryStart| == |b.table| + 1 && Rising(b.queryStart) && b.queryStart[0] == 0 && Permutation(m.perm, |b.table|)
    && m.tokenPerm == TokenPerm(b.queryStart, m.perm) && m.packedStart == Offsets(PackedLens(b.queryStart, m.perm))
    && Rising(m.groupOffsets) && |m.prefixLens| == |m.prefixTable| == |m.groupOffsets| - 1
    && m.groupOffsets[0] == 0 && m.groupOffsets[|m.prefixLens|] == m.packedStart[|b.table|]
    && |m.suffixLens| == |m.suffixTable| == |b.table|
    && (forall g {:trigger RowHolds(m.prefixTable, m.prefixLens, b.blockSize, g)} ::
         RowHolds(m.prefixTable, m.prefixLens, b.blockSize, g))
    && forall p {:trigger Placed(b, m, p)} | 0 <= p < |b.table| :: Placed(b, m, p)
  }

  /** The rest of the row after its first k blocks, as far as it holds len tokens, and then zeros. */
  ghost predicate RestRow(row: seq<int>, rest: seq<int>, blockSize: nat, k: nat, len: int) {
    forall j {:trigger rest[j]} | 0 <= j < |rest| ::
      rest[j] == if j * blockSize < len && k + j < |row| then row[k + j] else 0
  }

  /** Packed request p is a member of group g, which has a prefix of k blocks. */
  ghost predicate MemberAt(b: Batch, m: Meta, g: nat, k: nat, p: nat) {
    RequestOk(b, m, p, g, k) && RestRow(b.table[m.perm[p]], m.suffixTable[p], b.blockSize, k, m.suffixLens[p])
  }

  /** Group g: its tokens are those of its members, its row begins as that of its first member and is as wide as the
      longest prefix of a group, and all its members have its prefix. */
  ghost predicate GroupAt(b: Batch, m: Meta, rs: seq<Range>, g: nat)
    requires g < |rs| == |m.prefixLens| == |m.prefixTable| == |m.groupOffsets| - 1 && |m.packedStart| == |m.perm| + 1
  {
    var r, head := rs[g], m.prefixTable[g];
    && 0 <= r.start < r.end <= |m.perm| && r.prefix >= 0 && m.perm[r.start] < |b.table|
    && m.groupOffsets[g] == m.packedStart[r.start] && m.groupOffsets[g + 1] == m.packedStart[r.end]
    && m.prefixLens[g] == r.prefix * b.blockSize
    && |head| <= |b.table[m.perm[r.start]]| && head == b.table[m.perm[r.start]][..|head|]
    && (forall h | 0 <= h < |rs| :: rs[h].prefix <= |head|) && (exists h :: 0 <= h < |rs| && rs[h].prefix == |head|)
    && forall p: nat {:trigger MemberAt(b, m, g, r.prefix, p)} | r.start <= p < r.end :: MemberAt(b, m, g, r.prefix, p)
  }

  /** The rows of the requests' own blocks are as wide as the longest needs. */
  ghost predicate RestWidth(m: Meta, blockSize: nat, w: nat) {
    && |m.suffixTable| == |m.suffixLens|
    && (forall p | 0 <= p < |m.suffixTable| :: |m.suffixTable[p]| == w && m.suffixLens[p] <= w * blockSize)
    && (w > 0 ==> exists p :: 0 <= p < |m.suffixLens| && m.suffixLens[p] > (w - 1) * blockSize)
  }

  /** The metadata is that of these groups. */
  ghost predicate MetaOf(b: Batch, m: Meta, rs: seq<Range>) {
    && |rs| == |m.prefixLens| == |m.prefixTable| == |m.groupOffsets| - 1 && |m.packedStart| == |m.perm| + 1
    && (forall g: nat {:trigger GroupAt(b, m, rs, g)} | g < |rs| :: GroupAt(b, m, rs, g))
    && exists w: nat {:trigger RestWidth(m, b.blockSize, w)} :: RestWidth(m, b.blockSize, w)
  }

  /** _forest_make_suffix_block_table: the blocks of each row after its prefix, padded with zeros. */
  function SuffixTable(table: Table, prefixBlocks: seq<int>, suffixBlocks: seq<int>, maxSuffix: int): (r: Table)
    requires |prefixBlocks| == |suffixBlocks| == |table| && forall i | 0 <= i < |table| :: 0 <= prefixBlocks[i]
    ensures |r| == |table| && forall i | 0 <= i < |r| ::
              r[i] == SuffixRow(table[i], prefixBlocks[i], suffixBlocks[i], maxSuffix)
  {
    seq(|table|, i requires 0 <= i < |table| => SuffixRow(table[i], prefixBlocks[i], suffixBlocks[i], maxSuffix))
  }

  function SuffixRow(row: seq<int>, prefixBlocks: nat, suffixBlocks: int, maxSuffix: int): (r: seq<int>)
    ensures |r| == Max(maxSuffix, 0)
    ensures forall j | 0 <= j < |r| && j < suffixBlocks && prefixBlocks + j < |row| :: r[j] == row[prefixBlocks + j]
  {
    if maxSuffix <= 0 then []
    else
      seq(maxSuffix, j requires 0 <= j < maxSuffix =>
        if j < suffixBlocks && prefixBlocks + j < |row| then row[prefixBlocks + j] else 0)
  }

  /** Blocks enough for a number of tokens. */
  function BlocksFor(n: nat, blockSize: nat): (k: nat)
    requires blockSize > 0
    ensures forall j: nat {:trigger j * blockSize} :: j * blockSize < n <==> j < k
  {
    var k := (n + (blockSize - 1)) / blockSize;
    BlocksEnough(n, blockSize, k);
    k
  }

  lemma BlocksEnough(n: nat, blockSize: nat, k: nat)
    requires blockSize > 0 && k == (n + (blockSize - 1)) / blockSize
    ensures forall j: nat {:trigger j * blockSize} :: j * blockSize < n <==> j < k
  {
    assert k * blockSize < n + blockSize <= (k + 1) * blockSize;
    forall j: nat ensures j * blockSize < n <==> j < k {
      if j < k {
        MulMono(j + 1, k, blockSize);
      } else {
        MulMono(k, j, blockSize);
      }
    }
  }

  // ----- Building the metadata -----

  function Contexts(b: Batch): (c: seq<int>)
    requires |b.queryStart| == |b.seqLens| + 1
    ensures |c| == |b.seqLens| && forall o | 0 <= o < |c| :: c[o] == b.seqLens[o] - QueryLen(b, o)
  {
    seq(|b.seqLens|, o requires 0 <= o < |b.seqLens| => b.seqLens[o] - QueryLen(b, o))
  }

  /** Number of blocks that are full before the query tokens. */
  function FullBlocks(contexts: seq<int>, blockSize: nat): (f: seq<int>)
    requires blockSize > 0
    ensures |f| == |contexts| && forall o | 0 <= o < |f| :: f[o] == contexts[o] / blockSize
  {
    seq(|contexts|, o requires 0 <= o < |contexts| => contexts[o] / blockSize)
  }

  function PrefixBlocks(rs: seq<Range>, ids: seq<nat>): (k: seq<int>)
    requires forall p | 0 <= p < |ids| :: ids[p] < |rs|
    ensures |k| == |ids| && forall p | 0 <= p < |ids| :: k[p] == rs[ids[p]].prefix
  {
    seq(|ids|, p requires 0 <= p < |ids| => rs[ids[p]].prefix)
  }

  function Prefixes(rs: seq<Range>): (k: seq<int>)
    ensures |k| == |rs| && forall g | 0 <= g < |rs| :: k[g] == rs[g].prefix
  {
    seq(|rs|, g requires 0 <= g < |rs| => rs[g].prefix)
  }

  function Scaled(k: seq<int>, blockSize: nat): (l: seq<int>)
    ensures |l| == |k| && forall g | 0 <= g < |k| :: l[g] == Tokens(k[g], blockSize)
  {
    seq(|k|, g requires 0 <= g < |k| => Tokens(k[g], blockSize))
  }

  function Minus(x: seq<int>, y: seq<int>): (d: seq<int>)
    requires |x| == |y|
    ensures |d| == |x| && forall i | 0 <= i < |x| :: d[i] == x[i] - y[i]
  {
    seq(|x|, i requires 0 <= i < |x| => x[i] - y[i])
  }

  /** The first request's row stands for its group. */
  function PrefixRows(rows: Table, rs: seq<Range>, maxPrefix: int): (t: Table)
    requires maxPrefix >= 0 && forall g | 0 <= g < |rs| :: 0 <= rs[g].start < |rows|
    ensures |t| == |rs| && forall g | 0 <= g < |rs| :: t[g] == rows[rs[g].start][..Min(maxPrefix, |rows[rs[g].start]|)]
  {
    seq(|rs|, g requires 0 <= g < |rs| => rows[rs[g].start][..Min(maxPrefix, |rows[rs[g].start]|)])
  }

  function AllBlocksFor(lens: seq<int>, blockSize: nat): (k: seq<int>)
    requires blockSize > 0 && forall p | 0 <= p < |lens| :: lens[p] >= 0
    ensures |k| == |lens| && forall p | 0 <= p < |lens| :: k[p] == BlocksFor(lens[p], blockSize)
  {
    seq(|lens|, p requires 0 <= p < |lens| => BlocksFor(lens[p], blockSize))
  }

  lemma MulMono(a: nat, b: nat, c: nat)
    requires a <= b
    ensures a * c <= b * c
  {
  }

  lemma BlocksBefore(k: nat, context: nat, blockSize: nat)
    requires blockSize > 0 && k <= context / blockSize
    ensures 0 <= Tokens(k, blockSize) <= context
  {
    MulMono(k, context / blockSize, blockSize);
  }

  /** The row of the group's first request, cut off after the longest prefix of all groups. */
  lemma HeadFits(first: seq<int>, k: nat, maxPrefix: int)
    requires k <= |first| && k <= maxPrefix
    ensures var head := first[..Min(maxPrefix, |first|)]; k <= |head| && head[..k] == first[..k]
  {
  }

  /** The row of the blocks after the prefix. */
  lemma RestFits(row: seq<int>, head: seq<int>, blockSize: nat, k: nat, suffixLen: nat, maxSuffix: int)
    requires blockSize > 0 && k <= |row| && k <= |head| && head[..k] == row[..k]
             && maxSuffix >= BlocksFor(suffixLen, blockSize)
    ensures var rest := SuffixRow(row, k, BlocksFor(suffixLen, blockSize), maxSuffix);
            Cut(row, head, rest, blockSize, k, suffixLen) && Covers(rest, blockSize, suffixLen)
              && Covers(head, blockSize, Tokens(k, blockSize))
  {
    var blocks := BlocksFor(suffixLen, blockSize);
    var rest := SuffixRow(row, k, blocks, maxSuffix);
    MulMono(blocks, |rest|, blockSize);
    MulMono(k, |head|, blockSize);
    hide BlocksFor, SuffixRow;
    assert forall j: nat {:trigger rest[j]} | j < |rest| && k + j < |row| && j * blockSize < suffixLen ::
             rest[j] == row[k + j];
  }

  /** What the builder knows when it puts the pieces together. */
  ghost predicate Grouped(b: Batch, width: nat, startBlock: nat, perm: seq<nat>, rs: seq<Range>) {
    && b.blockSize > 0 && |b.seqLens| == |b.table| && |b.queryStart| == |b.table| + 1 && Rising(b.queryStart)
    && b.queryStart[0] == 0
    && (forall o | 0 <= o < |b.table| :: |b.table[o]| == width && b.seqLens[o] <= Tokens(width, b.blockSize))
    && Permutation(perm, |b.table|) && (forall o | 0 <= o < |b.table| :: b.seqLens[o] >= QueryLen(b, o))
    && rs != [] && GroupsOk(Permuted(b.table, perm), Permuted(FullBlocks(Contexts(b), b.blockSize), perm), startBlock,
                            rs)
  }

  lemma GroupedRanges(b: Batch, width: nat, startBlock: nat, perm: seq<nat>, rs: seq<Range>)
    requires Grouped(b, width, startBlock, perm, rs) && |b.table| > 0
    ensures Ranged(rs, |b.table|)
  {
    TiledIn(rs, |b.table|);
    GroupOf(rs, |b.table|, 0);
    forall i | 0 <= i < |rs| ensures rs[i].prefix >= 0 {
      assert GroupOk(Permuted(b.table, perm), Permuted(FullBlocks(Contexts(b), b.blockSize), perm), startBlock, rs[i]);
    }
  }

  /** Tokens of each request left for the pass over its own blocks. */
  function SuffixLens(b: Batch, perm: seq<nat>, rs: seq<Range>): (lens: seq<int>)
    requires |b.seqLens| == |b.table| && Permutation(perm, |b.table|) && Ranged(rs, |b.table|)
    ensures |lens| == |b.table|
    ensures forall p | 0 <= p < |lens| :: lens[p] == b.seqLens[perm[p]] - Tokens(rs[GroupId(rs, p)].prefix, b.blockSize)
  {
    Minus(Permuted(b.seqLens, perm), Scaled(PrefixBlocks(rs, Repeated(Sizes(rs))), b.blockSize))
  }

  function LongestPrefix(rs: seq<Range>): (m: nat)
    requires rs != [] && forall i | 0 <= i < |rs| :: rs[i].prefix >= 0
    ensures forall i | 0 <= i < |rs| :: rs[i].prefix <= m
    ensures exists i :: 0 <= i < |rs| && rs[i].prefix == m
  {
    assert forall i | 0 <= i < |rs| :: Prefixes(rs)[i] in Prefixes(rs);
    MaxOf(Prefixes(rs))
  }

  /** The row for packed request p, wide enough for all. */
  function SuffixRowAt(b: Batch, perm: seq<nat>, rs: seq<Range>, lens: seq<int>, p: nat): seq<int>
    requires b.blockSize > 0 && Permutation(perm, |b.table|) && |lens| == |b.table| && Ranged(rs, |b.table|)
    requires (forall p | 0 <= p < |lens| :: lens[p] >= 0) && p < |lens|
  {
    SuffixRow(b.table[perm[p]], rs[GroupId(rs, p)].prefix, BlocksFor(lens[p], b.blockSize),
              MaxOf(AllBlocksFor(lens, b.blockSize)))
  }

  /** The block table of the pass over the requests' own blocks. */
  function SuffixRows(b: Batch, perm: seq<nat>, rs: seq<Range>, lens: seq<int>): (t: Table)
    requires b.blockSize > 0 && Permutation(perm, |b.table|) && |lens| == |b.table| && Ranged(rs, |b.table|)
    requires forall p | 0 <= p < |lens| :: lens[p] >= 0
    ensures |t| == |b.table|
    ensures forall p | 0 <= p < |t| :: t[p] == SuffixRowAt(b, perm, rs, lens, p)
  {
    var blocks := AllBlocksFor(lens, b.blockSize);
    SuffixTable(Permuted(b.table, perm), PrefixBlocks(rs, Repeated(Sizes(rs))), blocks, MaxOf(blocks))
  }

  /** The rows of the batch fit together, and the requests are in order. */
  ghost predicate Packable(b: Batch, perm: seq<nat>) {
    && b.blockSize > 0 && |b.seqLens| == |b.table| && |b.queryStart| == |b.table| + 1 && Rising(b.queryStart)
    && b.queryStart[0] == 0
    && Permutation(perm, |b.table|)
  }

  /** The metadata for the groups; nothing when there is no query token or a length comes out negative. */
  function Assemble(b: Batch, perm: seq<nat>, rs: seq<Range>): Option<Meta>
    requires Packable(b, perm) && Ranged(rs, |b.table|)
  {
    var packedStart := Offsets(PackedLens(b.queryStart, perm));
    var suffixLens := SuffixLens(b, perm, rs);
    OffsetsRise(PackedLens(b.queryStart, perm));
    if packedStart[|b.table|] <= 0 || (exists p | 0 <= p < |suffixLens| :: suffixLens[p] < 0) then None
    else
      Some(Meta(perm, TokenPerm(b.queryStart, perm), packedStart, Offsets(Spans(packedStart, rs)),
                Scaled(Prefixes(rs), b.blockSize), PrefixRows(Permuted(b.table, perm), rs, LongestPrefix(rs)),
                suffixLens, SuffixRows(b, perm, rs, suffixLens)))
  }

  /** Full blocks hold no more than the context. */
  lemma FullTokens(b: Batch, perm: seq<nat>, p: nat, k: nat)
    requires Packable(b, perm) && p < |b.table| && b.seqLens[perm[p]] >= QueryLen(b, perm[p])
    requires k <= Permuted(FullBlocks(Contexts(b), b.blockSize), perm)[p]
    ensures 0 <= Tokens(k, b.blockSize) <= b.seqLens[perm[p]] - QueryLen(b, perm[p])
  {
    BlocksBefore(k, b.seqLens[perm[p]] - QueryLen(b, perm[p]), b.blockSize);
  }

  /** The group of a packed request, and the blocks they share. */
  lemma GroupBlocks(b: Batch, width: nat, startBlock: nat, perm: seq<nat>, rs: seq<Range>, p: nat)
    requires Grouped(b, width, startBlock, perm, rs) && p < |b.table| && Ranged(rs, |b.table|)
    ensures var g := GroupId(rs, p);
            && rs[g].start <= p < rs[g].end && perm[p] < |b.table| && perm[rs[g].start] < |b.table|
            && var k, first, row := rs[g].prefix, b.table[perm[rs[g].start]], b.table[perm[p]];
            && k <= |row| && k <= |first| && row[..k] == first[..k]
            && 0 <= Tokens(k, b.blockSize) <= b.seqLens[perm[p]] - QueryLen(b, perm[p])
  {
    hide *;
    RangedTiled(rs, |b.table|);
    GroupHere(rs, |b.table|, p);
    MemberBlocks(b, width, startBlock, perm, rs, p, GroupId(rs, p));
  }

  lemma MemberBlocks(b: Batch, width: nat, startBlock: nat, perm: seq<nat>, rs: seq<Range>, p: nat, g: nat)
    requires Grouped(b, width, startBlock, perm, rs) && p < |b.table| && g < |rs| && rs[g].start <= p < rs[g].end
    ensures 0 <= rs[g].start < |perm| && p < |perm| && perm[p] < |b.table| && perm[rs[g].start] < |b.table|
    ensures |b.seqLens| == |b.table| && |b.queryStart| == |b.table| + 1
    ensures var k, first, row := rs[g].prefix, b.table[perm[rs[g].start]], b.table[perm[p]];
            && 0 <= k <= |row| && k <= |first| && row[..k] == first[..k]
            && 0 <= Tokens(k, b.blockSize) <= b.seqLens[perm[p]] - QueryLen(b, perm[p])
  {
    hide Tokens, Tiles, FullBlocks, Contexts, QueryLen, GroupOk, Distinct;
    var rows, full := Permuted(b.table, perm), Permuted(FullBlocks(Contexts(b), b.blockSize), perm);
    assert GroupOk(rows, full, startBlock, rs[g]);
    GroupMember(rows, full, startBlock, rs[g], p);
    FullTokens(b, perm, p, rs[g].prefix);
  }

  lemma GroupMember(rows: Table, full: seq<int>, startBlock: nat, r: Range, p: nat)
    requires GroupOk(rows, full, startBlock, r) && r.start <= p < r.end
    ensures 0 <= r.start < |rows| == |full| && p < |rows| && 0 <= r.prefix <= full[p]
    ensures r.prefix <= |rows[p]| && r.prefix <= |rows[r.start]| && rows[p][..r.prefix] == rows[r.start][..r.prefix]
  {
  }

  /** The fields of the metadata. */
  lemma Fields(b: Batch, perm: seq<nat>, rs: seq<Range>, m: Meta)
    requires Packable(b, perm) && Ranged(rs, |b.table|) && Assemble(b, perm, rs) == Some(m)
    ensures m.perm == perm && m.tokenPerm == TokenPerm(b.queryStart, perm)
            && m.packedStart == Offsets(PackedLens(b.queryStart, perm))
    ensures Rising(m.packedStart) && |m.packedStart| == |b.table| + 1
            && m.groupOffsets == Offsets(Spans(m.packedStart, rs))
    ensures m.prefixLens == Scaled(Prefixes(rs), b.blockSize)
    ensures m.prefixTable == PrefixRows(Permuted(b.table, perm), rs, LongestPrefix(rs))
    ensures m.suffixLens == SuffixLens(b, perm, rs) && (forall p | 0 <= p < |m.suffixLens| :: m.suffixLens[p] >= 0)
    ensures m.suffixTable == SuffixRows(b, perm, rs, m.suffixLens)
  {
    OffsetsRise(PackedLens(b.queryStart, perm));
  }

  lemma PrefixEntry(rows: Table, rs: seq<Range>, n: nat, blockSize: nat, g: nat)
    requires forall i | 0 <= i < |rs| :: 0 <= rs[i].start < |rows|
    requires g < |rs| && 0 <= rs[g].prefix <= n && rs[g].prefix <= |rows[rs[g].start]|
    ensures Scaled(Prefixes(rs), blockSize)[g] == Tokens(rs[g].prefix, blockSize)
    ensures var head, k := PrefixRows(rows, rs, n)[g], rs[g].prefix; k <= |head| && head[..k] == rows[rs[g].start][..k]
    ensures blockSize > 0 ==> Covers(PrefixRows(rows, rs, n)[g], blockSize, Tokens(rs[g].prefix, blockSize))
    ensures Tokens(rs[g].prefix, blockSize) >= 0
  {
    HeadFits(rows[rs[g].start], rs[g].prefix, n);
    MulMono(rs[g].prefix, |PrefixRows(rows, rs, n)[g]|, blockSize);
  }

  lemma SuffixEntry(b: Batch, perm: seq<nat>, rs: seq<Range>, lens: seq<int>, p: nat) returns (maxSuffix: int)
    requires Packable(b, perm) && Ranged(rs, |b.table|) && lens == SuffixLens(b, perm, rs) && p < |b.table|
    requires forall p | 0 <= p < |lens| :: lens[p] >= 0
    ensures var k := rs[GroupId(rs, p)].prefix;
            && lens[p] == b.seqLens[perm[p]] - Tokens(k, b.blockSize) && maxSuffix >= BlocksFor(lens[p], b.blockSize)
            && SuffixRows(b, perm, rs, lens)[p] ==
                 SuffixRow(b.table[perm[p]], k, BlocksFor(lens[p], b.blockSize), maxSuffix)
  {
    var blocks := AllBlocksFor(lens, b.blockSize);
    assert blocks[p] in blocks && MaxOf(blocks) >= blocks[p];
    maxSuffix := MaxOf(blocks);
  }

  lemma PackedLen(b: Batch, perm: seq<nat>, p: nat)
    requires Packable(b, perm) && p < |b.table|
    ensures var o := Offsets(PackedLens(b.queryStart, perm));
            |o| == |b.table| + 1 && o[p + 1] == o[p] + QueryLen(b, perm[p]) && QueryLen(b, perm[p]) >= 0
  {
  }

  lemma RowCovers(row: seq<int>, blockSize: nat, n: int)
    requires blockSize > 0 && n <= Tokens(|row|, blockSize)
    ensures Covers(row, blockSize, n)
  {
  }

  lemma GroupHere(rs: seq<Range>, n: nat, p: nat)
    requires Ranged(rs, n) && p < n
    ensures rs[GroupId(rs, p)].start <= p < rs[GroupId(rs, p)].end
  {
    GroupOf(rs, n, p);
  }

  lemma RangedTiled(rs: seq<Range>, n: nat)
    requires Ranged(rs, n)
    ensures Tiled(rs, n) && (forall i | 0 <= i < |rs| :: 0 <= rs[i].start < rs[i].end <= n)
            && |Repeated(Sizes(rs))| == n
    ensures forall p: nat | p < n :: GroupId(rs, p) < |rs|
  {
  }

  /** The tokens of one request in the metadata. */
  lemma TokensFit(b: Batch, perm: seq<nat>, rs: seq<Range>, m: Meta, p: nat)
    requires Packable(b, perm) && Ranged(rs, |b.table|) && p < |b.table| && Assemble(b, perm, rs) == Some(m)
    ensures TokensPlaced(m, p, GroupId(rs, p), QueryLen(b, perm[p]))
  {
    Fields(b, perm, rs, m);
    PackedLen(b, perm, p);
    GroupHere(rs, |b.table|, p);
    RangedTiled(rs, |b.table|);
    var n, g := QueryLen(b, perm[p]), GroupId(rs, p);
    SpanLengths(m.packedStart, rs);
    hide *;
    TokensInGroup(m.packedStart, rs, |b.table|, g, p);
    TokensPlacedIf(m, p, g, n);
  }

  lemma SpanLengths(offsets: seq<nat>, rs: seq<Range>)
    requires Rising(offsets) && forall i | 0 <= i < |rs| :: 0 <= rs[i].start <= rs[i].end < |offsets|
    ensures |Offsets(Spans(offsets, rs))| == |rs| + 1
  {
  }

  lemma TokensPlacedIf(m: Meta, p: nat, g: nat, n: int)
    requires p + 1 < |m.packedStart| && g + 1 < |m.groupOffsets| && 0 <= n
             && m.packedStart[p + 1] == m.packedStart[p] + n
    requires m.groupOffsets[g] <= m.packedStart[p] && m.packedStart[p + 1] <= m.groupOffsets[g + 1]
    ensures TokensPlaced(m, p, g, n)
  {
  }

  /** The blocks of one request in the metadata. */
  lemma BlocksFit(b: Batch, width: nat, startBlock: nat, perm: seq<nat>, rs: seq<Range>, m: Meta, p: nat)
    requires Grouped(b, width, startBlock, perm, rs) && p < |b.table| && Ranged(rs, |b.table|)
    requires Packable(b, perm) && Assemble(b, perm, rs) == Some(m)
    ensures var g := GroupId(rs, p);
            && p < |m.suffixLens| && p < |m.suffixTable| && g < |m.prefixLens| && g < |m.prefixTable|
            && perm[p] < |b.table|
            && RowsFit(b.table[perm[p]], m.prefixTable[g], m.suffixTable[p], b.blockSize, rs[g].prefix,
                       m.prefixLens[g], m.suffixLens[p], b.seqLens[perm[p]], QueryLen(b, perm[p]))
  {
    hide *;
    RangedTiled(rs, |b.table|);
    var g := GroupId(rs, p);
    GroupBlocks(b, width, startBlock, perm, rs, p);
    HeadEntry(b, width, startBlock, perm, rs, m, g);
    var maxSuffix := RestEntry(b, perm, rs, m, p);
    RequestWidth(b, width, startBlock, perm, rs, p);
    RowsFitIf(b.table[perm[p]], m.prefixTable[g], m.suffixTable[p], b.blockSize, rs[g].prefix,
              m.prefixLens[g], m.suffixLens[p], b.seqLens[perm[p]], QueryLen(b, perm[p]), maxSuffix);
  }

  lemma HeadEntry(b: Batch, width: nat, startBlock: nat, perm: seq<nat>, rs: seq<Range>, m: Meta, g: nat)
    requires Grouped(b, width, startBlock, perm, rs) && Ranged(rs, |b.table|) && g < |rs|
    requires Packable(b, perm) && Assemble(b, perm, rs) == Some(m)
    ensures b.blockSize > 0 && 0 <= rs[g].start < |perm| && perm[rs[g].start] < |b.table|
            && |m.prefixLens| == |m.prefixTable| == |rs|
    ensures var head, first, k := m.prefixTable[g], b.table[perm[rs[g].start]], rs[g].prefix;
            0 <= k <= |head| && k <= |first| && head[..k] == first[..k]
              && m.prefixLens[g] == Tokens(k, b.blockSize) >= 0
  {
    Fields(b, perm, rs, m);
    GroupWidth(b, width, startBlock, perm, rs, g);
    hide Assemble, Tiles, Covers, Tokens, Sizes, Repeated, Grouped;
    PrefixEntry(Permuted(b.table, perm), rs, LongestPrefix(rs), b.blockSize, g);
  }

  lemma RestEntry(b: Batch, perm: seq<nat>, rs: seq<Range>, m: Meta, p: nat) returns (maxSuffix: int)
    requires Ranged(rs, |b.table|) && p < |b.table| && Packable(b, perm) && Assemble(b, perm, rs) == Some(m)
    ensures |b.seqLens| == |b.table| == |perm| == |m.suffixLens| == |m.suffixTable| && perm[p] < |b.table|
            && b.blockSize > 0
    ensures var k, len := rs[GroupId(rs, p)].prefix, m.suffixLens[p];
            && k >= 0 && len >= 0 && len == b.seqLens[perm[p]] - Tokens(k, b.blockSize)
            && maxSuffix >= BlocksFor(len, b.blockSize)
            && m.suffixTable[p] == SuffixRow(b.table[perm[p]], k, BlocksFor(len, b.blockSize), maxSuffix)
  {
    Fields(b, perm, rs, m);
    hide Assemble, Tiles, Tokens, Sizes, Repeated, BlocksFor, SuffixRow;
    maxSuffix := SuffixEntry(b, perm, rs, m.suffixLens, p);
  }

  lemma RequestWidth(b: Batch, width: nat, startBlock: nat, perm: seq<nat>, rs: seq<Range>, p: nat)
    requires Grouped(b, width, startBlock, perm, rs) && p < |b.table|
    ensures p < |perm| && perm[p] < |b.table| == |b.seqLens| && |b.queryStart| == |b.table| + 1
    ensures b.seqLens[perm[p]] <= Tokens(|b.table[perm[p]]|, b.blockSize)
  {
  }

  lemma RowsFitIf(row: seq<int>, head: seq<int>, rest: seq<int>, blockSize: nat, k: nat, headLen: int, restLen: int,
                  seqLen: int, n: int, maxSuffix: int)
    requires blockSize > 0 && restLen >= 0 && k <= |row| && k <= |head| && head[..k] == row[..k]
             && maxSuffix >= BlocksFor(restLen, blockSize)
    requires headLen == Tokens(k, blockSize) && 0 <= headLen <= seqLen - n && restLen == seqLen - headLen
             && seqLen <= Tokens(|row|, blockSize)
    requires rest == SuffixRow(row, k, BlocksFor(restLen, blockSize), maxSuffix)
    ensures RowsFit(row, head, rest, blockSize, k, headLen, restLen, seqLen, n)
  {
    hide BlocksFor, SuffixRow, Cut;
    RestFits(row, head, blockSize, k, restLen, maxSuffix);
    RowCovers(row, blockSize, seqLen);
  }

  lemma TotalTokens(b: Batch, perm: seq<nat>, rs: seq<Range>, m: Meta)
    requires Packable(b, perm) && Ranged(rs, |b.table|) && Assemble(b, perm, rs) == Some(m)
    ensures Rising(m.groupOffsets) && |m.groupOffsets| == |rs| + 1 && m.groupOffsets[0] == 0
    ensures |m.packedStart| == |b.table| + 1 && m.groupOffsets[|rs|] == m.packedStart[|b.table|]
  {
    Fields(b, perm, rs, m);
    RangedTiled(rs, |b.table|);
    OffsetsRise(Spans(m.packedStart, rs));
    SpanOffsets(m.packedStart, rs, |b.table|, |rs|);
  }

  lemma GroupWidth(b: Batch, width: nat, startBlock: nat, perm: seq<nat>, rs: seq<Range>, g: nat)
    requires Grouped(b, width, startBlock, perm, rs) && g < |rs|
    ensures 0 <= rs[g].start < |perm| && perm[rs[g].start] < |b.table|
            && 0 <= rs[g].prefix <= |b.table[perm[rs[g].start]]|
  {
    hide Tiles, Contexts;
    assert GroupOk(Permuted(b.table, perm), Permuted(FullBlocks(Contexts(b), b.blockSize), perm), startBlock, rs[g]);
  }

  lemma PrefixCovers(b: Batch, width: nat, startBlock: nat, perm: seq<nat>, rs: seq<Range>, m: Meta, g: nat)
    requires Grouped(b, width, startBlock, perm, rs) && Ranged(rs, |b.table|) && g < |rs|
    requires Packable(b, perm) && Assemble(b, perm, rs) == Some(m)
    ensures |m.prefixLens| == |m.prefixTable| == |rs| && m.prefixLens[g] >= 0
            && Covers(m.prefixTable[g], b.blockSize, m.prefixLens[g])
  {
    Fields(b, perm, rs, m);
    GroupWidth(b, width, startBlock, perm, rs, g);
    hide Assemble, Tiles, Covers, Tokens, Sizes, Repeated, Grouped;
    PrefixEntry(Permuted(b.table, perm), rs, LongestPrefix(rs), b.blockSize, g);
  }

  lemma RequestPlaced(b: Batch, width: nat, startBlock: nat, perm: seq<nat>, rs: seq<Range>, m: Meta, p: nat)
    requires Grouped(b, width, startBlock, perm, rs) && p < |b.table| && Ranged(rs, |b.table|)
    requires Packable(b, perm) && Assemble(b, perm, rs) == Some(m)
    ensures RequestOk(b, m, p, GroupId(rs, p), rs[GroupId(rs, p)].prefix) && Placed(b, m, p)
  {
    BlocksFit(b, width, startBlock, perm, rs, m, p);
    TokensFit(b, perm, rs, m, p);
    Fields(b, perm, rs, m);
    hide Assemble, GroupsOk, Sizes, Repeated, Spans, Tiles, RowsFit, TokensPlaced, Ranged, Rising;
    assert RequestOk(b, m, p, GroupId(rs, p), rs[GroupId(rs, p)].prefix);
  }

  /** Every packed request has a group, and every group's row holds its prefix. */
  lemma AllPlaced(b: Batch, width: nat, startBlock: nat, perm: seq<nat>, rs: seq<Range>, m: Meta)
    requires Grouped(b, width, startBlock, perm, rs) && Ranged(rs, |b.table|) && Packable(b, perm)
             && Assemble(b, perm, rs) == Some(m)
    ensures |m.prefixLens| == |m.prefixTable| == |rs|
    ensures forall p {:trigger Placed(b, m, p)} | 0 <= p < |b.table| :: Placed(b, m, p)
    ensures forall g {:trigger RowHolds(m.prefixTable, m.prefixLens, b.blockSize, g)} ::
              RowHolds(m.prefixTable, m.prefixLens, b.blockSize, g)
  {
    hide Assemble, Grouped, Ranged, Placed, Covers, Rising, Packable;
    RangedTiled(rs, |b.table|);
    Fields(b, perm, rs, m);
    forall p: nat | p < |b.table| ensures Placed(b, m, p) {
      RequestPlaced(b, width, startBlock, perm, rs, m, p);
    }
    PrefixCoversFirst(b, width, startBlock, perm, rs, m);
    forall g ensures RowHolds(m.prefixTable, m.prefixLens, b.blockSize, g) {
      if 0 <= g < |rs| {
        PrefixCovers(b, width, startBlock, perm, rs, m, g);
      }
    }
  }

  lemma PrefixCoversFirst(b: Batch, width: nat, startBlock: nat, perm: seq<nat>, rs: seq<Range>, m: Meta)
    requires Grouped(b, width, startBlock, perm, rs) && Ranged(rs, |b.table|) && Packable(b, perm)
             && Assemble(b, perm, rs) == Some(m)
    ensures |m.prefixLens| == |m.prefixTable| == |rs|
  {
    Fields(b, perm, rs, m);
  }

  lemma MetaBuilt(b: Batch, width: nat, startBlock: nat, perm: seq<nat>, rs: seq<Range>, m: Meta)
    requires Grouped(b, width, startBlock, perm, rs) && Ranged(rs, |b.table|) && Packable(b, perm)
             && Assemble(b, perm, rs) == Some(m)
    ensures MetaOk(b, m) && m.perm == perm
  {
    hide *;
    Fields(b, perm, rs, m);
    TotalTokens(b, perm, rs, m);
    AllPlaced(b, width, startBlock, perm, rs, m);
    SuffixCounts(b, perm, rs, m);
    MetaOkIf(b, perm, m);
  }

  /** A packed request is a member of the one group whose range it is in. */
  lemma GroupOnly(rs: seq<Range>, n: nat, g: nat, p: nat)
    requires Ranged(rs, n) && g < |rs| && rs[g].start <= p < rs[g].end
    ensures p < n && GroupId(rs, p) == g
  {
    TiledNext(rs, n, g);
    GroupHere(rs, n, p);
    var h := GroupId(rs, p);
    if h < g {
      TilesStarts(Bounds(rs), 0, n, h, g);
    } else if g < h {
      TilesStarts(Bounds(rs), 0, n, g, h);
    }
  }

  lemma RestRowIs(row: seq<int>, blockSize: nat, k: nat, len: nat, maxSuffix: int)
    requires blockSize > 0
    ensures RestRow(row, SuffixRow(row, k, BlocksFor(len, blockSize), maxSuffix), blockSize, k, len)
  {
    var blocks := BlocksFor(len, blockSize);
    var rest := SuffixRow(row, k, blocks, maxSuffix);
    hide BlocksFor;
    forall j | 0 <= j < |rest|
      ensures rest[j] == if j * blockSize < len && k + j < |row| then row[k + j] else 0
    {
      BlocksExact(len, blockSize, j);
    }
  }

  lemma BlocksExact(n: nat, blockSize: nat, j: nat)
    requires blockSize > 0
    ensures j * blockSize < n <==> j < BlocksFor(n, blockSize)
  {
  }

  lemma MemberIs(b: Batch, width: nat, startBlock: nat, perm: seq<nat>, rs: seq<Range>, m: Meta, g: nat, p: nat)
    requires Grouped(b, width, startBlock, perm, rs) && Ranged(rs, |b.table|) && Packable(b, perm)
             && Assemble(b, perm, rs) == Some(m)
    requires g < |rs| && rs[g].start <= p < rs[g].end && rs[g].prefix >= 0 && m.perm == perm
    ensures MemberAt(b, m, g, rs[g].prefix, p)
  {
    hide *;
    GroupOnly(rs, |b.table|, g, p);
    RequestPlaced(b, width, startBlock, perm, rs, m, p);
    var maxSuffix := RestEntry(b, perm, rs, m, p);
    RestRowIs(b.table[perm[p]], b.blockSize, rs[g].prefix, m.suffixLens[p], maxSuffix);
    MemberIf(b, m, g, rs[g].prefix, p);
  }

  lemma MemberIf(b: Batch, m: Meta, g: nat, k: nat, p: nat)
    requires RequestOk(b, m, p, g, k)
    requires RestRow(b.table[m.perm[p]], m.suffixTable[p], b.blockSize, k, m.suffixLens[p])
    ensures MemberAt(b, m, g, k, p)
  {
  }

  lemma LongestFits(b: Batch, width: nat, startBlock: nat, perm: seq<nat>, rs: seq<Range>)
    requires Grouped(b, width, startBlock, perm, rs) && Ranged(rs, |b.table|)
    ensures rs != [] && (forall i | 0 <= i < |rs| :: rs[i].prefix >= 0) && LongestPrefix(rs) <= width
  {
    PrefixesThere(rs, |b.table|);
    var i: nat :| i < |rs| && rs[i].prefix == LongestPrefix(rs);
    GroupWidth(b, width, startBlock, perm, rs, i);
    RowWidth(b, width, startBlock, perm, rs, perm[rs[i].start]);
  }

  lemma RowWidth(b: Batch, width: nat, startBlock: nat, perm: seq<nat>, rs: seq<Range>, o: nat)
    requires Grouped(b, width, startBlock, perm, rs) && o < |b.table|
    ensures |b.table[o]| == width
  {
  }

  lemma HeadRow(rows: Table, rs: seq<Range>, n: nat, g: nat)
    requires (forall i | 0 <= i < |rs| :: 0 <= rs[i].start < |rows|) && g < |rs| && n <= |rows[rs[g].start]|
    ensures var head := PrefixRows(rows, rs, n)[g]; |head| == n && head == rows[rs[g].start][..n]
  {
  }

  /** The row of a group. */
  lemma GroupRow(b: Batch, width: nat, startBlock: nat, perm: seq<nat>, rs: seq<Range>, m: Meta, g: nat)
    requires Grouped(b, width, startBlock, perm, rs) && Ranged(rs, |b.table|) && Packable(b, perm)
             && Assemble(b, perm, rs) == Some(m) && g < |rs|
    ensures |rs| == |m.prefixLens| == |m.prefixTable|
    ensures 0 <= rs[g].start < |perm| && rs[g].prefix >= 0 && perm[rs[g].start] < |b.table|
    ensures m.prefixLens[g] == rs[g].prefix * b.blockSize && rs != [] && forall i | 0 <= i < |rs| :: rs[i].prefix >= 0
    ensures var head, row := m.prefixTable[g], b.table[perm[rs[g].start]];
            |head| == LongestPrefix(rs) <= |row| && head == row[..|head|]
  {
    HeadEntry(b, width, startBlock, perm, rs, m, g);
    LongestFits(b, width, startBlock, perm, rs);
    RowWidth(b, width, startBlock, perm, rs, perm[rs[g].start]);
    Fields(b, perm, rs, m);
    RangedTiled(rs, |b.table|);
    hide Assemble, Grouped, Ranged, LongestPrefix;
    HeadRow(Permuted(b.table, perm), rs, LongestPrefix(rs), g);
  }

  lemma GroupStarts(b: Batch, perm: seq<nat>, rs: seq<Range>, m: Meta, g: nat)
    requires Ranged(rs, |b.table|) && Packable(b, perm) && Assemble(b, perm, rs) == Some(m) && g < |rs|
    ensures |m.groupOffsets| == |rs| + 1 && |m.packedStart| == |b.table| + 1 && |perm| == |b.table|
    ensures 0 <= rs[g].start < rs[g].end <= |b.table|
    ensures m.groupOffsets[g] == m.packedStart[rs[g].start] && m.groupOffsets[g + 1] == m.packedStart[rs[g].end]
  {
    Fields(b, perm, rs, m);
    RangedTiled(rs, |b.table|);
    TiledNext(rs, |b.table|, g);
    SpanOffsets(m.packedStart, rs, |b.table|, g);
    SpanOffsets(m.packedStart, rs, |b.table|, g + 1);
  }

  lemma GroupIs(b: Batch, width: nat, startBlock: nat, perm: seq<nat>, rs: seq<Range>, m: Meta, g: nat)
    requires Grouped(b, width, startBlock, perm, rs) && Ranged(rs, |b.table|) && Packable(b, perm)
             && Assemble(b, perm, rs) == Some(m) && g < |rs| && m.perm == perm
    ensures |rs| == |m.prefixLens| == |m.prefixTable| == |m.groupOffsets| - 1 && |m.packedStart| == |m.perm| + 1
    ensures GroupAt(b, m, rs, g)
  {
    hide MemberAt, Grouped, Ranged, Packable, Assemble;
    GroupRow(b, width, startBlock, perm, rs, m, g);
    GroupStarts(b, perm, rs, m, g);
    forall p: nat | rs[g].start <= p < rs[g].end ensures MemberAt(b, m, g, rs[g].prefix, p) {
      MemberIs(b, width, startBlock, perm, rs, m, g, p);
    }
    PrefixesThere(rs, |b.table|);
  }

  lemma PrefixesThere(rs: seq<Range>, n: nat)
    requires Ranged(rs, n)
    ensures rs != [] && forall i | 0 <= i < |rs| :: rs[i].prefix >= 0
    ensures forall i | 0 <= i < |rs| :: rs[i].prefix <= LongestPrefix(rs)
    ensures exists i :: 0 <= i < |rs| && rs[i].prefix == LongestPrefix(rs)
  {
  }

  lemma WidestNeeded(lens: seq<int>, blockSize: nat, w: nat)
    requires blockSize > 0 && lens != [] && (forall p | 0 <= p < |lens| :: lens[p] >= 0)
    requires w == MaxOf(AllBlocksFor(lens, blockSize))
    ensures forall p | 0 <= p < |lens| :: lens[p] <= w * blockSize
    ensures w > 0 ==> exists p :: 0 <= p < |lens| && lens[p] > (w - 1) * blockSize
  {
    var blocks := AllBlocksFor(lens, blockSize);
    forall p: nat | p < |lens| ensures lens[p] <= w * blockSize {
      assert blocks[p] in blocks;
      BlocksExact(lens[p], blockSize, w);
    }
    if w > 0 {
      var p: nat :| p < |blocks| && blocks[p] == w;
      BlocksExact(lens[p], blockSize, w - 1);
    }
  }

  lemma RestLength(b: Batch, perm: seq<nat>, rs: seq<Range>, lens: seq<int>, p: nat) returns (w: nat)
    requires b.blockSize > 0 && Permutation(perm, |b.table|) && |lens| == |b.table| && Ranged(rs, |b.table|)
    requires (forall p | 0 <= p < |lens| :: lens[p] >= 0) && p < |lens|
    ensures lens != [] && w == MaxOf(AllBlocksFor(lens, b.blockSize)) == |SuffixRows(b, perm, rs, lens)[p]|
  {
    w := BlocksFor(lens[0], b.blockSize);
    assert AllBlocksFor(lens, b.blockSize)[0] == w;
    w := MaxOf(AllBlocksFor(lens, b.blockSize));
  }

  lemma RestFields(b: Batch, perm: seq<nat>, rs: seq<Range>, m: Meta)
    requires Ranged(rs, |b.table|) && Packable(b, perm) && Assemble(b, perm, rs) == Some(m)
    ensures |m.suffixLens| == |m.suffixTable| == |b.table| > 0 && Permutation(perm, |b.table|) && b.blockSize > 0
    ensures forall p | 0 <= p < |m.suffixLens| :: m.suffixLens[p] >= 0
    ensures m.suffixTable == SuffixRows(b, perm, rs, m.suffixLens)
  {
    Fields(b, perm, rs, m);
    hide Assemble, Tiles, Tokens, Sizes, Repeated, BlocksFor, SuffixLens, SuffixRows;
  }

  /** The rows are as wide as the widest has to be. */
  lemma WidthIs(b: Batch, perm: seq<nat>, rs: seq<Range>, m: Meta) returns (w: nat)
    requires Ranged(rs, |b.table|) && Packable(b, perm) && Assemble(b, perm, rs) == Some(m)
    ensures RestWidth(m, b.blockSize, w)
  {
    var lens := m.suffixLens;
    RestFields(b, perm, rs, m);
    hide *;
    w := RestLength(b, perm, rs, lens, 0);
    forall p: nat | p < |lens| ensures |m.suffixTable[p]| == w {
      var _ := RestLength(b, perm, rs, lens, p);
    }
    WidestNeeded(lens, b.blockSize, w);
    RestWidthIf(m, b.blockSize, w);
  }

  lemma RestWidthIf(m: Meta, blockSize: nat, w: nat)
    requires |m.suffixTable| == |m.suffixLens|
    requires forall p: nat | p < |m.suffixLens| :: |m.suffixTable[p]| == w
    requires forall p | 0 <= p < |m.suffixLens| :: m.suffixLens[p] <= w * blockSize
    requires w > 0 ==> exists p :: 0 <= p < |m.suffixLens| && m.suffixLens[p] > (w - 1) * blockSize
    ensures RestWidth(m, blockSize, w)
  {
  }

  lemma MetaIs(b: Batch, width: nat, startBlock: nat, perm: seq<nat>, rs: seq<Range>, m: Meta)
    requires Grouped(b, width, startBlock, perm, rs) && Ranged(rs, |b.table|) && Packable(b, perm)
             && Assemble(b, perm, rs) == Some(m)
    ensures MetaOf(b, m, rs)
  {
    hide *;
    Fields(b, perm, rs, m);
    PrefixesThere(rs, |b.table|);
    GroupIs(b, width, startBlock, perm, rs, m, 0);
    forall g: nat | g < |rs| ensures GroupAt(b, m, rs, g) {
      GroupIs(b, width, startBlock, perm, rs, m, g);
    }
    var w := WidthIs(b, perm, rs, m);
    MetaOfIf(b, m, rs, w);
  }

  lemma MetaOfIf(b: Batch, m: Meta, rs: seq<Range>, w: nat)
    requires |rs| == |m.prefixLens| == |m.prefixTable| == |m.groupOffsets| - 1 && |m.packedStart| == |m.perm| + 1
    requires forall g: nat {:trigger GroupAt(b, m, rs, g)} | g < |rs| :: GroupAt(b, m, rs, g)
    requires RestWidth(m, b.blockSize, w)
    ensures MetaOf(b, m, rs)
  {
  }

  lemma SuffixCounts(b: Batch, perm: seq<nat>, rs: seq<Range>, m: Meta)
    requires Packable(b, perm) && Ranged(rs, |b.table|) && Assemble(b, perm, rs) == Some(m)
    ensures |m.suffixLens| == |m.suffixTable| == |b.table|
  {
    Fields(b, perm, rs, m);
  }

  lemma MetaOkIf(b: Batch, perm: seq<nat>, m: Meta)
    requires Packable(b, perm) && m.perm == perm
    requires m.tokenPerm == TokenPerm(b.queryStart, m.perm)
             && m.packedStart == Offsets(PackedLens(b.queryStart, m.perm))
    requires Rising(m.groupOffsets) && |m.prefixLens| == |m.prefixTable| == |m.groupOffsets| - 1
             && m.groupOffsets[0] == 0
    requires |m.packedStart| == |b.table| + 1 && m.groupOffsets[|m.prefixLens|] == m.packedStart[|b.table|]
    requires |m.suffixLens| == |m.suffixTable| == |b.table|
    requires forall g {:trigger RowHolds(m.prefixTable, m.prefixLens, b.blockSize, g)} ::
               RowHolds(m.prefixTable, m.prefixLens, b.blockSize, g)
    requires forall p {:trigger Placed(b, m, p)} | 0 <= p < |b.table| :: Placed(b, m, p)
    ensures MetaOk(b, m)
  {
  }

  /** The batch can be cut at the common prefix: that is whole blocks, no longer than any context. */
  ghost predicate Viable(b: Batch, common: int)
    requires b.blockSize > 0 && |b.seqLens| == |b.table|
  {
    && b.table != [] && 0 <= common && common % b.blockSize == 0 && |b.queryStart| == |b.table| + 1
    && (forall o | 0 <= o < |b.table| :: Contexts(b)[o] >= 0)
    && common / b.blockSize <= MinOf(Contexts(b)) / b.blockSize
  }

  lemma ViableStart(b: Batch, common: int, width: nat)
    requires BatchOk(b, common, width) && Viable(b, common)
    ensures var startBlock := common / b.blockSize;
            && startBlock >= 0 && |b.queryStart| == |b.seqLens| + 1
            && TableOk(b.table, FullBlocks(Contexts(b), b.blockSize), startBlock, width)
            && Share(b.table, 0, |b.table|, startBlock)
  {
    FullOk(b, width, common / b.blockSize);
  }

  /** Metadata is built when the batch can be cut, grouping is worth it, and there is a query token. */
  ghost predicate Buildable(b: Batch, common: int, perm: seq<nat>, t: Thresholds, width: nat)
    requires BatchOk(b, common, width) && Permutation(perm, |b.table|)
  {
    Viable(b, common) && b.queryStart[|b.table|] > 0 &&
    (ViableStart(b, common, width);
     WorthGrouping(b.table, FullBlocks(Contexts(b), b.blockSize), common / b.blockSize, perm, t, width))
  }

  /** The packed tokens are as many as the tokens: some if and only if the last offset is positive. */
  lemma SomePacked(offsets: seq<int>, perm: seq<nat>)
    requires Rising(offsets) && offsets[0] == 0 && Permutation(perm, |offsets| - 1)
    ensures Offsets(PackedLens(offsets, perm))[|perm|] > 0 <==> offsets[|perm|] > 0
  {
    if offsets[|perm|] > 0 {
      var t := TokenPermOnto(offsets, perm, 0);
    } else if |TokenPerm(offsets, perm)| > 0 {
      var p, i := PackedOf(offsets, perm, 0);
      RisingAll(offsets, 0, perm[p]);
      RisingAll(offsets, perm[p] + 1, |perm|);
    }
  }

  /** The lengths left for the requests' own blocks are never negative, so that only a batch without query
      tokens keeps grouped requests from being assembled. */
  lemma AssembledIf(b: Batch, width: nat, startBlock: nat, perm: seq<nat>, rs: seq<Range>)
    requires Grouped(b, width, startBlock, perm, rs) && Ranged(rs, |b.table|) && Packable(b, perm)
    ensures Assemble(b, perm, rs).Some? <==> b.queryStart[|b.table|] > 0
  {
    SomePacked(b.queryStart, perm);
    var lens := SuffixLens(b, perm, rs);
    forall p | 0 <= p < |lens| ensures lens[p] >= 0 {
      RestLeft(b, width, startBlock, perm, rs, p);
    }
    hide Grouped, Ranged, SuffixLens, SuffixRows, PrefixRows, Spans, Permuted;
  }

  lemma RestLeft(b: Batch, width: nat, startBlock: nat, perm: seq<nat>, rs: seq<Range>, p: nat)
    requires Grouped(b, width, startBlock, perm, rs) && Ranged(rs, |b.table|) && Packable(b, perm) && p < |b.table|
    ensures SuffixLens(b, perm, rs)[p] >= 0
  {
    GroupBlocks(b, width, startBlock, perm, rs, p);
    hide Grouped, Ranged, Tokens, FullBlocks, Contexts;
    assert QueryLen(b, perm[p]) >= 0;
  }

  lemma GroupedIf(b: Batch, common: int, width: nat, startBlock: nat, perm: seq<nat>, rs: seq<Range>)
    requires BatchOk(b, common, width) && Permutation(perm, |b.table|) && Viable(b, common) && rs != []
    requires |b.queryStart| == |b.seqLens| + 1
    requires GroupsOk(Permuted(b.table, perm), Permuted(FullBlocks(Contexts(b), b.blockSize), perm), startBlock, rs)
    ensures Grouped(b, width, startBlock, perm, rs) && Ranged(rs, |b.table|) && Packable(b, perm)
  {
    hide GroupsOk, Ranged;
    GroupedRanges(b, width, startBlock, perm, rs);
  }

  /** _try_build_forest_cascade_metadata, with the order of the requests given: metadata is built exactly when
      it can be and is worth it, and then attention over it means what attention over the batch means. */
  method BuildMetadata(b: Batch, common: int, perm: seq<nat>, t: Thresholds, ghost width: nat) returns (m: Option<Meta>)
    requires BatchOk(b, common, width) && Permutation(perm, |b.table|)
    ensures m.Some? <==> Buildable(b, common, perm, t, width)
    ensures m.Some? ==> MetaOk(b, m.value) && m.value.perm == perm && common % b.blockSize == 0
    ensures m.Some? ==>
              (ViableStart(b, common, width);
               MetaOf(b, m.value, Groups(b.table, FullBlocks(Contexts(b), b.blockSize), common / b.blockSize, perm, t,
                                         width)))
  {
    hide MetaOk, MetaOf, Share, WorthGrouping, GroupsOk, Grouped, Assemble, Groups;
    var n := |b.table|;
    if n == 0 {
      return None;
    }
    if common < 0 {
      return None;
    }
    if common % b.blockSize != 0 {
      return None;
    }
    if |b.queryStart| != n + 1 {
      return None;
    }
    var contexts := Contexts(b);
    if exists o | 0 <= o < n :: contexts[o] < 0 {
      return None;
    }
    var startBlock := common / b.blockSize;
    if startBlock > MinOf(contexts) / b.blockSize {
      return None;
    }
    var full := FullBlocks(contexts, b.blockSize);
    ViableStart(b, common, width);
    var rs := SortAndGroup(b.table, full, startBlock, perm, t, width);
    if rs.None? {
      return None;
    }
    hide BatchOk, Permutation, Viable;
    GroupedIf(b, common, width, startBlock, perm, rs.value);
    AssembledIf(b, width, startBlock, perm, rs.value);
    m := Assemble(b, perm, rs.value);
    if m.Some? {
      MetaBuilt(b, width, startBlock, perm, rs.value, m.value);
      MetaIs(b, width, startBlock, perm, rs.value, m.value);
    }
  }

  lemma FullOk(b: Batch, width: nat, startBlock: nat)
    requires b.table != [] && |b.queryStart| == |b.table| + 1 && |b.seqLens| == |b.table| && b.blockSize > 0
             && Rising(b.queryStart)
    requires forall o | 0 <= o < |b.table| :: |b.table[o]| == width && b.seqLens[o] <= Tokens(width, b.blockSize)
    requires forall o | 0 <= o < |b.table| :: Contexts(b)[o] >= 0
    requires startBlock <= MinOf(Contexts(b)) / b.blockSize
    ensures TableOk(b.table, FullBlocks(Contexts(b), b.blockSize), startBlock, width) && startBlock <= width
  {
    forall o | 0 <= o < |b.table| ensures startBlock <= FullBlocks(Contexts(b), b.blockSize)[o] <= width {
      assert Contexts(b)[o] in Contexts(b) && MinOf(Contexts(b)) in Contexts(b);
      FullWithin(MinOf(Contexts(b)), Contexts(b)[o], b.blockSize, width);
    }
    assert startBlock <= FullBlocks(Contexts(b), b.blockSize)[0] <= width;
  }

  lemma FullWithin(low: nat, context: nat, blockSize: nat, width: nat)
    requires blockSize > 0 && low <= context <= Tokens(width, blockSize)
    ensures low / blockSize <= context / blockSize <= width
  {
    DivMono(low, context, blockSize);
    DivMono(context, width * blockSize, blockSize);
    Quotient(blockSize, width, 0);
  }

  lemma DivMono(x: nat, y: nat, c: nat)
    requires c > 0 && x <= y
    ensures x / c <= y / c
  {
    var d, e := y / c, x / c;
    assert c * e <= x && y < c * d + c;
    assert e >= d + 1 ==> c * e >= c * (d + 1) == c * d + c;
  }
}
