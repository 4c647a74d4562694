/**
 Grouping requests by the block prefix they share (_recursive_lcp_split and
 _forest_sort_and_group of the forest cascade attention).
 */
module PrefixGroups {
  /** Requests from start up to but not including end, with the number of prefix blocks of the group. */
  datatype Range = Range(start: int, end: int, prefix: int)

  // ----- Minima -----

  function Min(a: int, b: int): int {
    if a <= b then a else b
  }

  function Max(a: int, b: int): int {
    if a >= b then a else b
  }

  function MinOf(s: seq<int>): (m: int)
    requires s != []
    ensures m in s && forall x | x in s :: m <= x
  {
    assert s == s[..|s| - 1] + [s[|s| - 1]];
    if |s| == 1 then s[0] else Min(MinOf(s[..|s| - 1]), s[|s| - 1])
  }

  function MaxOf(s: seq<int>): (m: int)
    requires s != []
    ensures m in s && forall x | x in s :: x <= m
  {
    assert s == s[..|s| - 1] + [s[|s| - 1]];
    if |s| == 1 then s[0] else Max(MaxOf(s[..|s| - 1]), s[|s| - 1])
  }

  function ArgMin(s: seq<int>): (i: nat)
    requires s != []
    ensures i < |s| && s[i] == MinOf(s)
  {
    if |s| == 1 then 0
    else if s[|s| - 1] < MinOf(s[..|s| - 1]) then |s| - 1 else ArgMin(s[..|s| - 1])
  }

  /** Of several minima it is the first, as argmin has it. */
  lemma {:induction false} ArgMinFirst(s: seq<int>, j: nat)
    requires s != [] && j < ArgMin(s)
    ensures s[j] > s[ArgMin(s)]
  {
    var rest := s[..|s| - 1];
    if s[|s| - 1] < MinOf(rest) {
      assert s[j] in rest;
    } else {
      ArgMinFirst(rest, j);
    }
  }

  // ----- Splitting -----

  /** Number of blocks that the group from a to b shares, given the prefixes adjacent requests share
      beyond the start block. */
  function GroupPrefix(adj: seq<int>, full: seq<int>, startBlock: int, a: nat, b: nat): int
    requires a < b <= |full| == |adj| + 1
  {
    if b - a <= 1 then full[a] else Min(startBlock + MinOf(adj[a..b - 1]), MinOf(full[a..b]))
  }

  /** Reads of blocks that a group saves: each of its requests has those of the prefix beyond the start block read for
      it by the group, if that is large enough. */
  function Benefit(startBlock: int, minGroup: int, size: int, prefix: int): (n: int)
    ensures n == if size >= minGroup && prefix > startBlock then size * (prefix - startBlock) else 0
  {
    if size >= minGroup then size * Max(prefix - startBlock, 0) else 0
  }

  /** The heuristic choice to split at the smallest shared prefix. */
  predicate ShouldSplit(adj: seq<int>, full: seq<int>, startBlock: int, minGroup: int, s: nat, m: nat, e: nat)
    requires s < m < e <= |full| == |adj| + 1
  {
    var unsplit := Benefit(startBlock, minGroup, e - s, GroupPrefix(adj, full, startBlock, s, e));
    var split := Benefit(startBlock, minGroup, m - s, GroupPrefix(adj, full, startBlock, s, m)) +
                 Benefit(startBlock, minGroup, e - m, GroupPrefix(adj, full, startBlock, m, e));
    split > unsplit || MaxOf(adj[s..e - 1]) > MinOf(adj[s..e - 1]) * 2
  }

  /** A range is split when its two parts save more than it does, or when some neighbours in it share more than
      twice what others do. */
  lemma SplitPays(adj: seq<int>, full: seq<int>, startBlock: int, minGroup: int, s: nat, m: nat, e: nat)
    requires s < m < e <= |full| == |adj| + 1
    ensures ShouldSplit(adj, full, startBlock, minGroup, s, m, e) <==>
              || Benefit(startBlock, minGroup, m - s, GroupPrefix(adj, full, startBlock, s, m)) +
                 Benefit(startBlock, minGroup, e - m, GroupPrefix(adj, full, startBlock, m, e))
                 > Benefit(startBlock, minGroup, e - s, GroupPrefix(adj, full, startBlock, s, e))
              || exists i, j :: s <= i < e - 1 && s <= j < e - 1 && adj[i] > 2 * adj[j]
  {
    Spread(adj, s, e);
    hide GroupPrefix, Benefit, MaxOf, MinOf;
  }

  lemma Spread(adj: seq<int>, s: nat, e: nat)
    requires s < e - 1 <= |adj|
    ensures MaxOf(adj[s..e - 1]) > MinOf(adj[s..e - 1]) * 2 <==>
              exists i, j :: s <= i < e - 1 && s <= j < e - 1 && adj[i] > 2 * adj[j]
  {
    var part := adj[s..e - 1];
    var a: nat :| a < |part| && part[a] == MaxOf(part);
    var b: nat :| b < |part| && part[b] == MinOf(part);
    assert adj[s + a] == part[a] && adj[s + b] == part[b];
    forall i | s <= i < e - 1 ensures MinOf(part) <= adj[i] <= MaxOf(part) {
      assert part[i - s] in part;
    }
  }

  /** A list of nonempty ranges one after the other from a to b. */
  ghost predicate Tiles(ranges: seq<(int, int)>, a: int, b: int) {
    if ranges == [] then a == b
    else ranges[0].0 == a && a < ranges[0].1 <= b && Tiles(ranges[1..], ranges[0].1, b)
  }

  function Bounds(rs: seq<Range>): (bs: seq<(int, int)>)
    ensures |bs| == |rs| && forall i | 0 <= i < |rs| :: bs[i] == (rs[i].start, rs[i].end)
  {
    seq(|rs|, i requires 0 <= i < |rs| => (rs[i].start, rs[i].end))
  }

  function Reverse<T>(s: seq<T>): (r: seq<T>)
    ensures |r| == |s| && forall i | 0 <= i < |s| :: r[i] == s[|s| - 1 - i]
  {
    if s == [] then [] else [s[|s| - 1]] + Reverse(s[..|s| - 1])
  }

  lemma {:induction false} TilesJoin(x: seq<(int, int)>, y: seq<(int, int)>, a: int, m: int, b: int)
    requires Tiles(x, a, m) && Tiles(y, m, b)
    ensures Tiles(x + y, a, b)
  {
    if x == [] {
      assert x + y == y;
    } else {
      TilesJoin(x[1..], y, x[0].1, m, b);
      TilesOrder(y, m, b);
      TilesOrder(x[1..], x[0].1, m);
      assert (x + y)[1..] == x[1..] + y;
    }
  }

  lemma {:induction false} TilesOrder(x: seq<(int, int)>, a: int, b: int)
    requires Tiles(x, a, b)
    ensures a <= b && (x != [] ==> a < b && x[|x| - 1].1 == b)
    ensures forall i | 0 <= i < |x| :: a <= x[i].0 < x[i].1 <= b
  {
    if x != [] {
      TilesOrder(x[1..], x[0].1, b);
      assert forall i | 0 < i < |x| :: x[i] == x[1..][i - 1];
    }
  }

  /** The tiles before a given one, and it with those after. */
  lemma {:induction false} TilesCut(x: seq<(int, int)>, a: int, b: int, k: nat)
    requires Tiles(x, a, b) && k < |x|
    ensures Tiles(x[..k], a, x[k].0) && Tiles(x[k + 1..], x[k].1, b) && a <= x[k].0 < x[k].1 <= b
  {
    if k > 0 {
      TilesCut(x[1..], x[0].1, b, k - 1);
      assert x[..k][1..] == x[1..][..k - 1] && x[1..][k..] == x[k + 1..];
      TilesOrder(x, a, b);
    } else {
      TilesOrder(x[1..], x[0].1, b);
    }
  }

  // ----- Sorting the ranges -----

  predicate Before(x: Range, y: Range) {
    x.start < y.start || (x.start == y.start && (x.end < y.end || (x.end == y.end && x.prefix < y.prefix)))
  }

  function Insert(s: seq<Range>, x: Range): seq<Range> {
    if s == [] || Before(x, s[0]) then [x] + s else [s[0]] + Insert(s[1..], x)
  }

  /** results.sort() */
  function Sort(s: seq<Range>): seq<Range> {
    if s == [] then [] else Insert(Sort(s[..|s| - 1]), s[|s| - 1])
  }

  /** The ranges come out from right to left, so sorting reverses them. */
  lemma {:induction false} SortReverses(s: seq<Range>)
    requires forall i, j | 0 <= i < j < |s| :: s[j].start < s[i].start
    ensures Sort(s) == Reverse(s)
  {
    if s != [] {
      SortReverses(s[..|s| - 1]);
      assert |s| > 1 ==> Reverse(s[..|s| - 1])[0] == s[|s| - 2];
    }
  }

  lemma {:induction false} TilesCount(x: seq<(int, int)>, a: int, b: int)
    requires Tiles(x, a, b)
    ensures |x| <= b - a
  {
    if x != [] {
      TilesCount(x[1..], x[0].1, b);
    }
  }

  lemma TilesStarts(x: seq<(int, int)>, a: int, b: int, i: nat, j: nat)
    requires Tiles(x, a, b) && i < j < |x|
    ensures x[i].0 < x[i].1 <= x[j].0
  {
    TilesCut(x, a, b, i);
    TilesOrder(x[i + 1..], x[i].1, b);
    assert x[j] == x[i + 1..][j - i - 1];
  }

  /** The last tile on the stack ends where the finished ranges begin. */
  lemma PopTile(stack: seq<(int, int)>, r: int)
    requires Tiles(stack, 0, r) && stack != []
    ensures var (s, e) := stack[|stack| - 1];
            && 0 <= s < e == r && Tiles(stack[..|stack| - 1], 0, s) && |stack| <= r
  {
    TilesCut(stack, 0, r, |stack| - 1);
    TilesCount(stack, 0, r);
  }

  lemma SplitTile(rest: seq<(int, int)>, s: int, m: int, e: int)
    requires Tiles(rest, 0, s) && s < m < e
    ensures Tiles(rest + [(s, m), (m, e)], 0, e) && |rest| + 2 <= e
  {
    assert Tiles([(m, e)], m, e) by {
      assert Tiles([], e, e);
    }
    assert [(s, m), (m, e)][1..] == [(m, e)];
    assert Tiles([(s, m), (m, e)], s, e);
    TilesJoin(rest, [(s, m), (m, e)], 0, s, e);
    TilesCount(rest + [(s, m), (m, e)], 0, e);
  }

  /** The finished ranges, from left to right. */
  ghost function Finished(results: seq<Range>): seq<(int, int)> {
    Reverse(Bounds(results))
  }

  lemma EmitTile(results: seq<Range>, x: Range, r: int, b: int)
    requires Tiles(Finished(results), r, b) && x.start < x.end == r
    ensures Tiles(Finished(results + [x]), x.start, b)
  {
    var f := Finished(results + [x]);
    assert Bounds(results + [x])[..|results|] == Bounds(results);
    assert f[0] == (x.start, x.end) && f[1..] == Finished(results);
    TilesOrder(Finished(results), r, b);
  }

  lemma SortedTiles(results: seq<Range>, b: int)
    requires Tiles(Finished(results), 0, b)
    ensures Sort(results) == Reverse(results) && Tiles(Bounds(Sort(results)), 0, b)
  {
    hide Sort, Tiles;
    StartsDescend(results, b);
    SortReverses(results);
    assert Bounds(Reverse(results)) == Finished(results);
  }

  lemma StartsDescend(results: seq<Range>, b: int)
    requires Tiles(Finished(results), 0, b)
    ensures forall i, j | 0 <= i < j < |results| :: results[j].start < results[i].start
  {
    hide Tiles;
    var f := Finished(results);
    forall i, j | 0 <= i < j < |results| ensures results[j].start < results[i].start {
      TilesStarts(f, 0, b, |results| - 1 - j, |results| - 1 - i);
      assert f[|results| - 1 - j].0 == results[j].start && f[|results| - 1 - i].0 == results[i].start;
    }
  }

  ghost predicate PrefixOk(adj: seq<int>, full: seq<int>, startBlock: int, r: Range)
    requires |full| == |adj| + 1 || full == []
  {
    0 <= r.start < r.end <= |full| && r.prefix == GroupPrefix(adj, full, startBlock, r.start, r.end)
  }

  /** The split as a recursion: a range is one group, or is split at its first smallest prefix and so are both parts. */
  function Split(adj: seq<int>, full: seq<int>, startBlock: int, minGroup: int, s: nat, e: nat): seq<Range>
    requires (|full| == |adj| + 1 || full == []) && s <= e <= |full|
    decreases e - s
  {
    if s == e then []
    else if e - s == 1 then [Range(s, e, full[s])]
    else
      var m := s + ArgMin(adj[s..e - 1]) + 1;
      if ShouldSplit(adj, full, startBlock, minGroup, s, m, e)
      then Split(adj, full, startBlock, minGroup, s, m) + Split(adj, full, startBlock, minGroup, m, e)
      else [Range(s, e, GroupPrefix(adj, full, startBlock, s, e))]
  }

  /** A range of several requests is split or not. */
  lemma SplitCase(adj: seq<int>, full: seq<int>, startBlock: int, minGroup: int, s: nat, e: nat)
    requires (|full| == |adj| + 1 || full == []) && s + 1 < e <= |full|
    ensures var m := s + ArgMin(adj[s..e - 1]) + 1;
            Split(adj, full, startBlock, minGroup, s, e) ==
            if ShouldSplit(adj, full, startBlock, minGroup, s, m, e)
            then Split(adj, full, startBlock, minGroup, s, m) + Split(adj, full, startBlock, minGroup, m, e)
            else [Range(s, e, GroupPrefix(adj, full, startBlock, s, e))]
  {
    hide ShouldSplit, GroupPrefix;
  }

  lemma SplitOne(adj: seq<int>, full: seq<int>, startBlock: int, minGroup: int, s: nat)
    requires (|full| == |adj| + 1 || full == []) && s < |full|
    ensures Split(adj, full, startBlock, minGroup, s, s + 1) == [Range(s, s + 1, full[s])]
  {
    hide ShouldSplit, GroupPrefix;
  }

  /** Its groups tile the range. */
  lemma {:induction false} SplitTiles(adj: seq<int>, full: seq<int>, startBlock: int, minGroup: int, s: nat, e: nat)
    requires (|full| == |adj| + 1 || full == []) && s <= e <= |full|
    ensures Tiles(Bounds(Split(adj, full, startBlock, minGroup, s, e)), s, e)
    decreases e - s
  {
    hide Split, ShouldSplit, GroupPrefix, Tiles, MinOf;
    if s == e {
      NoTiles(adj, full, startBlock, minGroup, s);
    } else if e - s == 1 {
      SplitOne(adj, full, startBlock, minGroup, s);
      OneTile(Range(s, e, full[s]));
    } else {
      SplitCase(adj, full, startBlock, minGroup, s, e);
      var m := s + ArgMin(adj[s..e - 1]) + 1;
      if ShouldSplit(adj, full, startBlock, minGroup, s, m, e) {
        SplitTiles(adj, full, startBlock, minGroup, s, m);
        SplitTiles(adj, full, startBlock, minGroup, m, e);
        BoundsJoin(Split(adj, full, startBlock, minGroup, s, m), Split(adj, full, startBlock, minGroup, m, e), s, m, e);
      } else {
        OneTile(Range(s, e, GroupPrefix(adj, full, startBlock, s, e)));
      }
    }
  }

  lemma NoTiles(adj: seq<int>, full: seq<int>, startBlock: int, minGroup: int, s: nat)
    requires (|full| == |adj| + 1 || full == []) && s <= |full|
    ensures Tiles(Bounds(Split(adj, full, startBlock, minGroup, s, s)), s, s)
  {
  }

  lemma OneTile(r: Range)
    requires r.start < r.end
    ensures Tiles(Bounds([r]), r.start, r.end)
  {
    assert Bounds([r])[1..] == [];
  }

  lemma BoundsJoin(x: seq<Range>, y: seq<Range>, s: int, m: int, e: int)
    requires Tiles(Bounds(x), s, m) && Tiles(Bounds(y), m, e)
    ensures Tiles(Bounds(x + y), s, e)
  {
    TilesJoin(Bounds(x), Bounds(y), s, m, e);
    assert Bounds(x + y) == Bounds(x) + Bounds(y);
  }

  ghost predicate PrefixesOk(adj: seq<int>, full: seq<int>, startBlock: int, groups: seq<Range>)
    requires |full| == |adj| + 1 || full == []
  {
    forall i | 0 <= i < |groups| :: PrefixOk(adj, full, startBlock, groups[i])
  }

  lemma PrefixesJoin(adj: seq<int>, full: seq<int>, startBlock: int, x: seq<Range>, y: seq<Range>)
    requires |full| == |adj| + 1 || full == []
    requires PrefixesOk(adj, full, startBlock, x) && PrefixesOk(adj, full, startBlock, y)
    ensures PrefixesOk(adj, full, startBlock, x + y)
  {
    hide PrefixOk;
  }

  /** Each group has the prefix of its requests. */
  lemma {:induction false} SplitPrefixes(adj: seq<int>, full: seq<int>, startBlock: int, minGroup: int, s: nat, e: nat)
    requires (|full| == |adj| + 1 || full == []) && s <= e <= |full|
    ensures PrefixesOk(adj, full, startBlock, Split(adj, full, startBlock, minGroup, s, e))
    decreases e - s
  {
    hide ShouldSplit, Split;
    if e == s + 1 {
      SplitOne(adj, full, startBlock, minGroup, s);
    } else if e > s {
      SplitCase(adj, full, startBlock, minGroup, s, e);
      var m := s + ArgMin(adj[s..e - 1]) + 1;
      if ShouldSplit(adj, full, startBlock, minGroup, s, m, e) {
        SplitPrefixes(adj, full, startBlock, minGroup, s, m);
        SplitPrefixes(adj, full, startBlock, minGroup, m, e);
        hide PrefixesOk;
        PrefixesJoin(adj, full, startBlock, Split(adj, full, startBlock, minGroup, s, m),
                     Split(adj, full, startBlock, minGroup, m, e));
      }
    } else {
      SplitEmpty(adj, full, startBlock, minGroup, s);
    }
  }

  lemma SplitEmpty(adj: seq<int>, full: seq<int>, startBlock: int, minGroup: int, s: nat)
    requires (|full| == |adj| + 1 || full == []) && s <= |full|
    ensures Split(adj, full, startBlock, minGroup, s, s) == []
  {
  }

  ghost predicate Stacked(stack: seq<(int, int)>, n: nat) {
    forall i | 0 <= i < |stack| :: 0 <= stack[i].0 <= stack[i].1 <= n
  }

  /** The groups of the ranges on the stack. */
  ghost function SplitAll(adj: seq<int>, full: seq<int>, startBlock: int, minGroup: int,
                          stack: seq<(int, int)>): seq<Range>
    requires (|full| == |adj| + 1 || full == []) && Stacked(stack, |full|)
  {
    if stack == [] then []
    else
      var top := |stack| - 1;
      SplitAll(adj, full, startBlock, minGroup, stack[..top])
      + Split(adj, full, startBlock, minGroup, stack[top].0, stack[top].1)
  }

  /** Splitting the range on top of the stack leaves the groups as they are. */
  lemma SplitPushed(adj: seq<int>, full: seq<int>, startBlock: int, minGroup: int, rest: seq<(int, int)>, s: nat,
                    m: nat, e: nat)
    requires (|full| == |adj| + 1 || full == []) && Stacked(rest, |full|) && s <= m <= e <= |full|
    ensures Stacked(rest + [(s, m), (m, e)], |full|)
    ensures SplitAll(adj, full, startBlock, minGroup, rest + [(s, m), (m, e)]) ==
            SplitAll(adj, full, startBlock, minGroup, rest)
            + (Split(adj, full, startBlock, minGroup, s, m) + Split(adj, full, startBlock, minGroup, m, e))
  {
    hide Split;
    var one, two := rest + [(s, m)], rest + [(s, m), (m, e)];
    assert two[..|two| - 1] == one && one[..|one| - 1] == rest;
  }

  lemma SplitPopped(adj: seq<int>, full: seq<int>, startBlock: int, minGroup: int, stack: seq<(int, int)>)
    requires (|full| == |adj| + 1 || full == []) && Stacked(stack, |full|) && stack != []
    ensures var top := |stack| - 1;
            && Stacked(stack[..top], |full|) && 0 <= stack[top].0 <= stack[top].1 <= |full|
            && SplitAll(adj, full, startBlock, minGroup, stack) ==
               SplitAll(adj, full, startBlock, minGroup, stack[..top])
               + Split(adj, full, startBlock, minGroup, stack[top].0, stack[top].1)
  {
    hide Split;
  }

  /** What is finished comes after what is on the stack, from right to left. */
  lemma ReverseMore(groups: seq<Range>, x: Range, results: seq<Range>)
    ensures (groups + [x]) + Reverse(results) == groups + Reverse(results + [x])
  {
    assert (results + [x])[..|results|] == results;
  }

  /** The ranges on the stack and the finished ones together make up the requests, and so do their groups. */
  ghost predicate SplitOk(adj: seq<int>, full: seq<int>, startBlock: int, minGroup: int,
                          stack: seq<(int, int)>, results: seq<Range>, r: int) {
    && (|full| == |adj| + 1 || full == []) && Stacked(stack, |full|)
    && (if full == [] then results == [] && r == 0 && |stack| <= 1 else Tiles(stack, 0, r) && |stack| <= r <= |full|)
    && Tiles(Finished(results), r, |full|)
    && SplitAll(adj, full, startBlock, minGroup, stack) + Reverse(results) ==
       Split(adj, full, startBlock, minGroup, 0, |full|)
  }

  lemma SplitStart(adj: seq<int>, full: seq<int>, startBlock: int, minGroup: int)
    requires |full| == |adj| + 1 || full == []
    ensures SplitOk(adj, full, startBlock, minGroup, [(0, |full|)], [], |full|)
  {
    var stack: seq<(int, int)> := [(0, |full|)];
    hide Split;
    assert stack[1..] == [] && stack[..0] == [] && Tiles([], |full|, |full|);
    var groups := Split(adj, full, startBlock, minGroup, 0, |full|);
    assert SplitAll(adj, full, startBlock, minGroup, []) == [];
    assert [] + groups == groups && groups + Reverse([]) == groups;
  }

  /** The range on top of the stack ends where the finished ones begin. */
  lemma SplitTop(adj: seq<int>, full: seq<int>, startBlock: int, minGroup: int, stack: seq<(int, int)>,
                 results: seq<Range>, r: int)
    requires SplitOk(adj, full, startBlock, minGroup, stack, results, r) && stack != []
    ensures var (s, e) := stack[|stack| - 1];
            && 0 <= s <= e == r <= |full| && (full != [] ==> s < e && |stack| <= r)
            && (full != [] ==> Tiles(stack[..|stack| - 1], 0, s) && |stack| - 1 <= s)
  {
    hide Split, SplitAll;
    if full != [] {
      PopTile(stack, r);
      TilesCount(stack[..|stack| - 1], 0, stack[|stack| - 1].0);
    }
  }

  /** No range is left: the finished ones, sorted, are the groups. */
  lemma SplitEnd(adj: seq<int>, full: seq<int>, startBlock: int, minGroup: int, results: seq<Range>, r: int)
    requires SplitOk(adj, full, startBlock, minGroup, [], results, r)
    ensures Sort(results) == Split(adj, full, startBlock, minGroup, 0, |full|)
  {
    hide Split, Sort;
    SortedTiles(results, |full|);
    assert [] + Reverse(results) == Reverse(results);
  }

  /** One turn finishes the range on top of the stack. */
  lemma SplitEmits(adj: seq<int>, full: seq<int>, startBlock: int, minGroup: int, stack: seq<(int, int)>,
                   results: seq<Range>, r: int, x: Range)
    requires SplitOk(adj, full, startBlock, minGroup, stack, results, r) && stack != [] && full != []
    requires (x.start, x.end) == stack[|stack| - 1] && 0 <= x.start < x.end <= |full|
    requires Split(adj, full, startBlock, minGroup, x.start, x.end) == [x]
    ensures SplitOk(adj, full, startBlock, minGroup, stack[..|stack| - 1], results + [x], x.start)
  {
    hide Split, SplitAll;
    SplitTop(adj, full, startBlock, minGroup, stack, results, r);
    SplitPopped(adj, full, startBlock, minGroup, stack);
    EmitTile(results, x, r, |full|);
    ReverseMore(SplitAll(adj, full, startBlock, minGroup, stack[..|stack| - 1]), x, results);
  }

  /** One turn splits the range on top of the stack. */
  lemma SplitPushes(adj: seq<int>, full: seq<int>, startBlock: int, minGroup: int, stack: seq<(int, int)>,
                    results: seq<Range>, r: int, s: nat, m: nat, e: nat)
    requires SplitOk(adj, full, startBlock, minGroup, stack, results, r) && stack != [] && full != []
    requires (s, e) == stack[|stack| - 1] && s < m < e <= |full|
    requires Split(adj, full, startBlock, minGroup, s, e) ==
             Split(adj, full, startBlock, minGroup, s, m) + Split(adj, full, startBlock, minGroup, m, e)
    ensures SplitOk(adj, full, startBlock, minGroup, stack[..|stack| - 1] + [(s, m), (m, e)], results, r)
  {
    hide Split, SplitAll, Tiles;
    SplitTop(adj, full, startBlock, minGroup, stack, results, r);
    SplitPopped(adj, full, startBlock, minGroup, stack);
    SplitPushed(adj, full, startBlock, minGroup, stack[..|stack| - 1], s, m, e);
    SplitTile(stack[..|stack| - 1], s, m, e);
  }

  /** Without requests the only range is empty. */
  lemma SplitNone(adj: seq<int>, full: seq<int>, startBlock: int, minGroup: int, stack: seq<(int, int)>,
                  results: seq<Range>, r: int)
    requires SplitOk(adj, full, startBlock, minGroup, stack, results, r) && stack != [] && full == []
    ensures SplitOk(adj, full, startBlock, minGroup, stack[..|stack| - 1], results, r)
  {
    SplitPopped(adj, full, startBlock, minGroup, stack);
  }

  /** _recursive_lcp_split: the loop over the stack ends for all inputs and finds the groups of the recursion. */
  method RecursiveLcpSplit(adj: seq<int>, full: seq<int>, startBlock: int, minGroup: int) returns (ranges: seq<Range>)
    requires |full| == |adj| + 1 || full == []
    ensures ranges == Split(adj, full, startBlock, minGroup, 0, |full|)
  {
    hide *;
    var results := [];
    var stack := [(0, |full|)];
    ghost var r: int := |full|;
    SplitStart(adj, full, startBlock, minGroup);
    while stack != []
      invariant SplitOk(adj, full, startBlock, minGroup, stack, results, r)
      invariant if full == [] then |stack| <= 1 else |stack| <= r <= |full|
      decreases if full == [] then |stack| else 2 * r - |stack|
    {
      SplitTop(adj, full, startBlock, minGroup, stack, results, r);
      var (s, e) := stack[|stack| - 1];
      var n := e - s;
      if n <= 0 {
        SplitNone(adj, full, startBlock, minGroup, stack, results, r);
        stack := stack[..|stack| - 1];
        continue;
      }
      if n == 1 {
        SplitOne(adj, full, startBlock, minGroup, s);
        SplitEmits(adj, full, startBlock, minGroup, stack, results, r, Range(s, e, full[s]));
        stack := stack[..|stack| - 1];
        results := results + [Range(s, e, full[s])];
        r := s;
        continue;
      }
      SplitCase(adj, full, startBlock, minGroup, s, e);
      var m := s + ArgMin(adj[s..e - 1]) + 1;
      if ShouldSplit(adj, full, startBlock, minGroup, s, m, e) {
        SplitPushes(adj, full, startBlock, minGroup, stack, results, r, s, m, e);
        stack := stack[..|stack| - 1] + [(s, m), (m, e)];
      } else {
        var prefix := GroupPrefix(adj, full, startBlock, s, e);
        SplitEmits(adj, full, startBlock, minGroup, stack, results, r, Range(s, e, prefix));
        stack := stack[..|stack| - 1];
        results := results + [Range(s, e, prefix)];
        r := s;
      }
    }
    SplitEnd(adj, full, startBlock, minGroup, results, r);
    ranges := Sort(results);
  }

  // ----- What the prefixes mean -----

  type Table = seq<seq<int>>

  /** A row beyond the start block, with the entries that are not full blocks blanked out. */
  function Masked(row: seq<int>, full: int, startBlock: nat, cols: nat): (w: seq<int>)
    requires startBlock <= cols <= |row|
    ensures |w| == cols - startBlock
  {
    seq(cols - startBlock, c requires 0 <= c < cols - startBlock =>
      if startBlock + c < full then row[startBlock + c] else -1)
  }

  /** Number of leading columns in which two rows agree. */
  function Leading(u: seq<int>, v: seq<int>): (k: nat)
    requires |u| == |v|
    ensures k <= |u| && u[..k] == v[..k] && (k < |u| ==> u[k] != v[k])
  {
    if u == [] || u[0] != v[0] then 0
    else
      assert u[1..][..Leading(u[1..], v[1..])] == u[..1 + Leading(u[1..], v[1..])][1..];
      assert v[1..][..Leading(u[1..], v[1..])] == v[..1 + Leading(u[1..], v[1..])][1..];
      1 + Leading(u[1..], v[1..])
  }

  /** Every row has the same width and room for its full blocks, and none is without the start blocks. */
  ghost predicate TableOk(rows: Table, full: seq<int>, startBlock: nat, width: nat) {
    |rows| == |full| && forall i | 0 <= i < |rows| :: |rows[i]| == width && startBlock <= full[i] <= width
  }

  /** Number of columns that are compared. */
  function Columns(full: seq<int>, width: nat): int
    requires full != []
  {
    Min(width, MaxOf(full))
  }

  lemma ColumnsCover(rows: Table, full: seq<int>, startBlock: nat, width: nat)
    requires TableOk(rows, full, startBlock, width) && full != []
    ensures startBlock <= Columns(full, width) <= width && forall i | 0 <= i < |full| :: full[i] <= Columns(full, width)
  {
    forall i | 0 <= i < |full| ensures full[i] <= Columns(full, width) && startBlock <= Columns(full, width) {
      assert full[i] in full;
    }
    assert full[0] <= Columns(full, width);
  }

  /** The prefix that two adjacent requests share beyond the start block. */
  function PairLcp(u: seq<int>, v: seq<int>, fu: int, fv: int, startBlock: nat, cols: nat): int
    requires startBlock <= cols <= |u| && cols <= |v|
  {
    Min(Leading(Masked(u, fu, startBlock, cols), Masked(v, fv, startBlock, cols)), Max(Min(fu, fv) - startBlock, 0))
  }

  lemma PairShares(u: seq<int>, v: seq<int>, fu: int, fv: int, startBlock: nat, cols: nat)
    requires startBlock <= fu <= cols <= |u| && startBlock <= fv <= cols <= |v| && u[..startBlock] == v[..startBlock]
    ensures var k := PairLcp(u, v, fu, fv, startBlock, cols);
            && 0 <= k && startBlock + k <= fu && startBlock + k <= fv && u[..startBlock + k] == v[..startBlock + k]
            && (startBlock + k < fu && startBlock + k < fv ==> u[startBlock + k] != v[startBlock + k])
  {
    var mu, mv := Masked(u, fu, startBlock, cols), Masked(v, fv, startBlock, cols);
    var l, k := Leading(mu, mv), PairLcp(u, v, fu, fv, startBlock, cols);
    forall c | 0 <= c < startBlock + k ensures u[c] == v[c] {
      if c < startBlock {
        assert u[..startBlock][c] == v[..startBlock][c];
      } else {
        assert mu[..l][c - startBlock] == mv[..l][c - startBlock];
      }
    }
  }

  function AdjacentLcps(rows: Table, full: seq<int>, startBlock: nat, width: nat): (adj: seq<int>)
    requires TableOk(rows, full, startBlock, width) && full != []
    ensures |adj| == |rows| - 1
  {
    ColumnsCover(rows, full, startBlock, width);
    seq(|rows| - 1, i requires 0 <= i < |rows| - 1 =>
      PairLcp(rows[i], rows[i + 1], full[i], full[i + 1], startBlock, Columns(full, width)))
  }

  /** Requests a up to b have the same first q blocks. */
  ghost predicate Share(rows: Table, a: nat, b: nat, q: int) {
    0 <= q && a < b <= |rows| && q <= |rows[a]|
      && forall i | a <= i < b :: q <= |rows[i]| && rows[i][..q] == rows[a][..q]
  }

  /** adj[i] is how far requests i and i + 1 agree beyond the start block, up to their full blocks. */
  ghost predicate PairOk(rows: Table, full: seq<int>, startBlock: nat, adj: seq<int>, i: int)
    requires 0 <= i < |adj| && |rows| == |full| == |adj| + 1
  {
    var k := startBlock + adj[i];
    && startBlock <= k <= full[i] && k <= full[i + 1] && full[i] <= |rows[i]| && full[i + 1] <= |rows[i + 1]|
    && rows[i][..k] == rows[i + 1][..k]
    && (k < full[i] && k < full[i + 1] ==> rows[i][k] != rows[i + 1][k])
  }

  ghost predicate AllPairs(rows: Table, full: seq<int>, startBlock: nat, adj: seq<int>) {
    && |rows| == |full| == |adj| + 1
    && (forall i {:trigger PairOk(rows, full, startBlock, adj, i)} | 0 <= i < |adj| ::
         PairOk(rows, full, startBlock, adj, i))
    && (forall i | 0 <= i < |rows| :: startBlock <= full[i] <= |rows[i]|)
  }

  /** The comparison of the blanked rows computes this. */
  lemma AdjacentPairs(rows: Table, full: seq<int>, startBlock: nat, width: nat)
    requires TableOk(rows, full, startBlock, width) && full != [] && Share(rows, 0, |rows|, startBlock)
    ensures AllPairs(rows, full, startBlock, AdjacentLcps(rows, full, startBlock, width))
  {
    var adj := AdjacentLcps(rows, full, startBlock, width);
    ColumnsCover(rows, full, startBlock, width);
    forall i | 0 <= i < |adj| ensures PairOk(rows, full, startBlock, adj, i) {
      PairShares(rows[i], rows[i + 1], full[i], full[i + 1], startBlock, Columns(full, width));
    }
  }

  /** The prefixes of adjacent requests give that of all, without any order among the rows. */
  lemma {:induction false} AdjacentShare(rows: Table, full: seq<int>, startBlock: nat, adj: seq<int>, a: nat, b: nat,
                                         q: nat)
    requires AllPairs(rows, full, startBlock, adj) && a < b <= |rows|
    requires q <= full[a] && forall i | a <= i < b - 1 :: q <= startBlock + adj[i]
    ensures Share(rows, a, b, q)
    decreases b
  {
    if b - 1 > a {
      AdjacentShare(rows, full, startBlock, adj, a, b - 1, q);
      assert PairOk(rows, full, startBlock, adj, b - 2);
      PrefixOfEqual(rows[b - 2], rows[b - 1], startBlock + adj[b - 2], q);
    }
  }

  lemma PrefixOfEqual(u: seq<int>, v: seq<int>, k: nat, q: nat)
    requires q <= k <= |u| && k <= |v| && u[..k] == v[..k]
    ensures u[..q] == v[..q]
  {
    assert u[..q] == u[..k][..q];
  }

  /** The smallest of a part of a sequence. */
  lemma MinOfPart(s: seq<int>, a: nat, b: nat) returns (k: nat)
    requires a < b <= |s|
    ensures a <= k < b && s[k] == MinOf(s[a..b]) && forall i | a <= i < b :: s[k] <= s[i]
  {
    var part := s[a..b];
    var j: nat :| j < |part| && part[j] == MinOf(part);
    k := a + j;
    forall i | a <= i < b ensures s[k] <= s[i] {
      assert part[i - a] in part && MinOf(part) <= part[i - a];
    }
  }

  /** The prefix of a group is shared by its requests, is of full blocks, and does not end before
      the start block. */
  lemma GroupPrefixShared(rows: Table, full: seq<int>, startBlock: nat, adj: seq<int>, r: Range)
    requires AllPairs(rows, full, startBlock, adj) && PrefixOk(adj, full, startBlock, r)
    ensures startBlock <= r.prefix && Share(rows, r.start, r.end, r.prefix)
    ensures forall i | r.start <= i < r.end :: r.prefix <= full[i]
  {
    var a, b := r.start, r.end;
    if b - a > 1 {
      var k := MinOfPart(adj, a, b - 1);
      var c := MinOfPart(full, a, b);
      assert PairOk(rows, full, startBlock, adj, k);
      AdjacentShare(rows, full, startBlock, adj, a, b, r.prefix);
    }
  }

  lemma SharedAt(rows: Table, a: nat, b: nat, q: int, k: nat, m: nat)
    requires Share(rows, a, b, q) && a <= k && k + 1 < b
    ensures m < q ==> m < |rows[k]| && m < |rows[k + 1]| && rows[k][m] == rows[k + 1][m]
  {
    if m < q {
      assert rows[k][..q][m] == rows[k + 1][..q][m];
    }
  }

  /** No longer prefix of full blocks is shared by the requests of the group. */
  lemma GroupPrefixLongest(rows: Table, full: seq<int>, startBlock: nat, adj: seq<int>, r: Range, q: int)
    requires AllPairs(rows, full, startBlock, adj) && PrefixOk(adj, full, startBlock, r)
    requires Share(rows, r.start, r.end, q) && forall i | r.start <= i < r.end :: q <= full[i]
    ensures q <= r.prefix
  {
    var a, b := r.start, r.end;
    if b - a > 1 {
      var k := MinOfPart(adj, a, b - 1);
      var c := MinOfPart(full, a, b);
      assert PairOk(rows, full, startBlock, adj, k);
      var m := startBlock + adj[k];
      assert r.prefix == Min(m, full[c]);
      SharedAt(rows, a, b, q, k, m);
    }
  }
}
