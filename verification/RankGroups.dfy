/**
 The rank groups of initialize_model_parallel: the ranks as a tensor of six dimensions, whose axes
 are permuted and whose numbers are cut into groups, and the heads a rank has in each mode.
 */
module RankGroups {
  import opened Blocks
  import opened FiniteSets

  type Dims = seq<nat>

  // ----- Numbering the entries of a tensor, the last axis fastest -----

  function Size(dims: Dims): nat {
    if dims == [] then 1 else Total(Size(dims[..|dims| - 1]), dims[|dims| - 1])
  }

  ghost predicate InRange(dims: Dims, idx: seq<nat>) {
    |idx| == |dims| && forall k | 0 <= k < |dims| :: idx[k] < dims[k]
  }

  function Flat(dims: Dims, idx: seq<nat>): nat
    requires |idx| == |dims|
    decreases |dims|
  {
    if dims == [] then 0 else At(dims[|dims| - 1], Flat(dims[..|dims| - 1], idx[..|dims| - 1]), idx[|dims| - 1])
  }

  function Unflat(dims: Dims, n: nat): (idx: seq<nat>)
    requires forall k | 0 <= k < |dims| :: dims[k] > 0
    ensures |idx| == |dims|
    decreases |dims|
  {
    if dims == [] then [] else Unflat(dims[..|dims| - 1], Block(n, dims[|dims| - 1])) + [Inside(n, dims[|dims| - 1])]
  }

  lemma {:induction false} FlatBound(dims: Dims, idx: seq<nat>)
    requires InRange(dims, idx)
    ensures Flat(dims, idx) < Size(dims)
  {
    hide At, Total;
    if dims != [] {
      FlatBound(dims[..|dims| - 1], idx[..|dims| - 1]);
      Bound(dims[|dims| - 1], Flat(dims[..|dims| - 1], idx[..|dims| - 1]), idx[|dims| - 1], Size(dims[..|dims| - 1]));
    }
  }

  lemma {:induction false} UnflatFlat(dims: Dims, idx: seq<nat>)
    requires InRange(dims, idx) && forall k | 0 <= k < |dims| :: dims[k] > 0
    ensures Unflat(dims, Flat(dims, idx)) == idx
  {
    hide At, Block, Inside;
    if dims != [] {
      UnflatFlat(dims[..|dims| - 1], idx[..|dims| - 1]);
      Quotient(dims[|dims| - 1], Flat(dims[..|dims| - 1], idx[..|dims| - 1]), idx[|dims| - 1]);
    }
  }

  lemma {:induction false} FlatUnflat(dims: Dims, n: nat)
    requires n < Size(dims) && forall k | 0 <= k < |dims| :: dims[k] > 0
    ensures InRange(dims, Unflat(dims, n)) && Flat(dims, Unflat(dims, n)) == n
  {
    if dims != [] {
      var b := dims[|dims| - 1];
      Decompose(n, Size(dims[..|dims| - 1]), b);
      hide At, Total, Block, Inside;
      FlatUnflat(dims[..|dims| - 1], Block(n, b));
      assert Unflat(dims, n)[..|dims| - 1] == Unflat(dims[..|dims| - 1], Block(n, b));
      assert Inside(n, b) < b;
    }
  }

  // ----- Permuting the axes -----

  ghost predicate Axes(axes: seq<nat>, inverse: seq<nat>) {
    && |inverse| == |axes| && (forall k | 0 <= k < |axes| :: axes[k] < |axes| && inverse[k] < |axes|)
    && (forall k | 0 <= k < |axes| :: inverse[axes[k]] == k) && (forall k | 0 <= k < |axes| :: axes[inverse[k]] == k)
  }

  function Permute(x: seq<nat>, axes: seq<nat>): (y: seq<nat>)
    requires |x| == |axes| && forall k | 0 <= k < |axes| :: axes[k] < |axes|
    ensures |y| == |axes| && forall k | 0 <= k < |axes| :: y[k] == x[axes[k]]
  {
    seq(|axes|, k requires 0 <= k < |axes| => x[axes[k]])
  }

  lemma PermuteBack(x: seq<nat>, axes: seq<nat>, inverse: seq<nat>)
    requires Axes(axes, inverse) && |x| == |axes|
    ensures Permute(Permute(x, axes), inverse) == x && Permute(Permute(x, inverse), axes) == x
  {
  }

  ghost predicate Positive(dims: Dims) {
    forall k | 0 <= k < |dims| :: dims[k] > 0
  }

  /** The rank at place n of the tensor with its axes permuted. */
  function RankAt(dims: Dims, axes: seq<nat>, inverse: seq<nat>, n: nat): nat
    requires Axes(axes, inverse) && |axes| == |dims| && Positive(dims)
  {
    Flat(dims, Permute(Unflat(Permute(dims, axes), n), inverse))
  }

  /** The place of rank r there. */
  function PlaceOf(dims: Dims, axes: seq<nat>, inverse: seq<nat>, r: nat): nat
    requires Axes(axes, inverse) && |axes| == |dims| && Positive(dims)
  {
    Flat(Permute(dims, axes), Permute(Unflat(dims, r), axes))
  }

  /** Every rank has a place, and is what is there. */
  lemma RankPlace(dims: Dims, axes: seq<nat>, inverse: seq<nat>, r: nat)
    requires Axes(axes, inverse) && |axes| == |dims| && Positive(dims) && r < Size(dims)
    ensures PlaceOf(dims, axes, inverse, r) < Size(Permute(dims, axes))
    ensures RankAt(dims, axes, inverse, PlaceOf(dims, axes, inverse, r)) == r
  {
    hide Flat, Unflat, Size;
    FlatUnflat(dims, r);
    var idx := Unflat(dims, r);
    UnflatFlat(Permute(dims, axes), Permute(idx, axes));
    FlatBound(Permute(dims, axes), Permute(idx, axes));
    PermuteBack(idx, axes, inverse);
  }

  /** Every place has a rank of the world, and is its place. */
  lemma PlaceRank(dims: Dims, axes: seq<nat>, inverse: seq<nat>, n: nat)
    requires Axes(axes, inverse) && |axes| == |dims| && Positive(dims) && n < Size(Permute(dims, axes))
    ensures RankAt(dims, axes, inverse, n) < Size(dims)
    ensures PlaceOf(dims, axes, inverse, RankAt(dims, axes, inverse, n)) == n
  {
    hide Flat, Unflat, Size;
    var idx := Unflat(Permute(dims, axes), n);
    FlatUnflat(Permute(dims, axes), n);
    PermuteBack(idx, axes, inverse);
    forall k | 0 <= k < |dims| ensures Permute(idx, inverse)[k] < dims[k] {
      assert axes[inverse[k]] == k;
    }
    FlatBound(dims, Permute(idx, inverse));
    UnflatFlat(dims, Permute(idx, inverse));
  }

  // ----- Groups -----

  /** Group k of a family: the ranks at g places in a row. */
  function Group(dims: Dims, axes: seq<nat>, inverse: seq<nat>, g: nat, k: nat): (ranks: seq<nat>)
    requires Axes(axes, inverse) && |axes| == |dims| && Positive(dims)
    ensures |ranks| == g && forall i | 0 <= i < g :: ranks[i] == RankAt(dims, axes, inverse, At(g, k, i))
  {
    seq(g, i requires 0 <= i < g => RankAt(dims, axes, inverse, At(g, k, i)))
  }

  /** The group of a rank in the family, and its place in it. */
  function GroupOf(dims: Dims, axes: seq<nat>, inverse: seq<nat>, g: nat, r: nat): (p: (nat, nat))
    requires Axes(axes, inverse) && |axes| == |dims| && Positive(dims) && g > 0
    ensures p.1 < g
  {
    var n := PlaceOf(dims, axes, inverse, r);
    (Block(n, g), Inside(n, g))
  }

  /** A family of groups partitions the world: every rank is in one group, at one place of it. */
  lemma FamilyPartitions(dims: Dims, axes: seq<nat>, inverse: seq<nat>, g: nat, r: nat)
    requires Axes(axes, inverse) && |axes| == |dims| && Positive(dims) && r < Size(dims) && g > 0
    ensures var (k, i) := GroupOf(dims, axes, inverse, g, r);
            Group(dims, axes, inverse, g, k)[i] == r && At(g, k, i) < Size(Permute(dims, axes))
  {
    hide RankAt, PlaceOf, Size, At, Block, Inside, Axes, Positive;
    RankPlace(dims, axes, inverse, r);
    Parts(PlaceOf(dims, axes, inverse, r), g);
  }

  lemma FamilyOnce(dims: Dims, axes: seq<nat>, inverse: seq<nat>, g: nat, k: nat, i: nat)
    requires Axes(axes, inverse) && |axes| == |dims| && Positive(dims) && g > 0
    requires i < g && At(g, k, i) < Size(Permute(dims, axes))
    ensures var r := Group(dims, axes, inverse, g, k)[i]; r < Size(dims) && GroupOf(dims, axes, inverse, g, r) == (k, i)
  {
    hide RankAt, PlaceOf, Size, At, Block, Inside, Axes, Positive;
    PlaceRank(dims, axes, inverse, At(g, k, i));
    Quotient(g, k, i);
  }

  /** Permuting the axes keeps the size, as ranks and places correspond. */
  lemma SizePermuted(dims: Dims, axes: seq<nat>, inverse: seq<nat>)
    requires Axes(axes, inverse) && |axes| == |dims| && Positive(dims)
    ensures Size(Permute(dims, axes)) == Size(dims)
  {
    NotMorePlaces(dims, axes, inverse);
    NotMoreRanks(dims, axes, inverse);
  }

  lemma NotMoreRanks(dims: Dims, axes: seq<nat>, inverse: seq<nat>)
    requires Axes(axes, inverse) && |axes| == |dims| && Positive(dims)
    ensures Size(dims) <= Size(Permute(dims, axes))
  {
    var n, m := Size(dims), Size(Permute(dims, axes));
    hide RankAt, PlaceOf, Size, Positive, Axes, Permute;
    var places := seq(n, r requires 0 <= r < n => PlaceOf(dims, axes, inverse, r));
    forall r | 0 <= r < n ensures places[r] < m && RankAt(dims, axes, inverse, places[r]) == r {
      RankPlace(dims, axes, inverse, r);
    }
    Pigeonhole(places, m);
  }

  lemma NotMorePlaces(dims: Dims, axes: seq<nat>, inverse: seq<nat>)
    requires Axes(axes, inverse) && |axes| == |dims| && Positive(dims)
    ensures Size(Permute(dims, axes)) <= Size(dims)
  {
    var n, m := Size(dims), Size(Permute(dims, axes));
    hide RankAt, PlaceOf, Size, Positive, Axes, Permute;
    var ranks := seq(m, p requires 0 <= p < m => RankAt(dims, axes, inverse, p));
    forall p | 0 <= p < m ensures ranks[p] < n && PlaceOf(dims, axes, inverse, ranks[p]) == p {
      PlaceRank(dims, axes, inverse, p);
    }
    Pigeonhole(ranks, n);
  }

  /** If groups of g cut the world without a rest, all their places are in it: the groups are whole. */
  lemma WholeGroups(dims: Dims, axes: seq<nat>, inverse: seq<nat>, g: nat, k: nat, i: nat)
    requires Axes(axes, inverse) && |axes| == |dims| && Positive(dims) && g > 0 && Size(dims) % g == 0
    requires k < Size(dims) / g && i < g
    ensures At(g, k, i) < Size(Permute(dims, axes))
  {
    SizePermuted(dims, axes, inverse);
    Exact(Size(dims), g);
    WholeBlock(Size(dims), g, Size(dims) / g, k, i);
  }

  lemma WholeBlock(n: nat, g: nat, q: nat, k: nat, i: nat)
    requires n == Total(g, q) && k < q && i < g
    ensures At(g, k, i) < n
  {
    Commute(g, q);
    Bound(g, k, i, q);
  }

  // ----- Which ranks share a group -----

  lemma {:induction false} SizeJoin(outer: Dims, inner: Dims)
    ensures Size(outer + inner) == Total(Size(outer), Size(inner))
  {
    hide Total;
    if inner == [] {
      assert outer + inner == outer;
      TotalOne(Size(outer));
    } else {
      var rest, b := inner[..|inner| - 1], inner[|inner| - 1];
      SizeJoin(outer, rest);
      assert (outer + inner)[..|outer + inner| - 1] == outer + rest;
      TotalAssoc(Size(outer), Size(rest), b);
    }
  }

  /** A place is a block for the outer coordinates and a place in it for the inner ones. */
  lemma {:induction false} FlatJoin(outer: Dims, inner: Dims, a: seq<nat>, b: seq<nat>)
    requires |a| == |outer| && |b| == |inner|
    ensures Flat(outer + inner, a + b) == At(Size(inner), Flat(outer, a), Flat(inner, b))
  {
    hide At, Total;
    if inner == [] {
      assert outer + inner == outer && a + b == a;
      AtOne(Flat(outer, a));
    } else {
      var l := |inner| - 1;
      FlatJoin(outer, inner[..l], a, b[..l]);
      assert (outer + inner)[..|outer + inner| - 1] == outer + inner[..l];
      assert (a + b)[..|outer + inner| - 1] == a + b[..l];
      Nested(Size(inner[..l]), inner[l], Flat(outer, a), Flat(inner[..l], b[..l]), b[l]);
    }
  }

  /** Groups that hold the last axes, after permuting, have ranks that agree on the axes before those. */
  lemma SameGroup(dims: Dims, axes: seq<nat>, inverse: seq<nat>, k: nat, q: nat, r: nat)
    requires Axes(axes, inverse) && |axes| == |dims| && Positive(dims) && k <= |dims| && q < Size(dims)
             && r < Size(dims)
    ensures Size(Permute(dims, axes)[k..]) > 0
    ensures var g := Size(Permute(dims, axes)[k..]);
            GroupOf(dims, axes, inverse, g, q).0 == GroupOf(dims, axes, inverse, g, r).0
            <==> forall j | 0 <= j < k :: Unflat(dims, q)[axes[j]] == Unflat(dims, r)[axes[j]]
  {
    var p := Permute(dims, axes);
    FlatUnflat(dims, q);
    FlatUnflat(dims, r);
    var x, y := Permute(Unflat(dims, q), axes), Permute(Unflat(dims, r), axes);
    hide Flat, Unflat, Size, At, Block;
    OuterBlock(p, x, k);
    OuterBlock(p, y, k);
    FlatEqual(p[..k], x[..k], y[..k]);
    if x[..k] == y[..k] {
      forall j | 0 <= j < k ensures x[j] == y[j] {
        assert x[..k][j] == y[..k][j];
      }
    }
  }

  lemma OuterBlock(dims: Dims, idx: seq<nat>, k: nat)
    requires InRange(dims, idx) && k <= |dims|
    ensures Size(dims[k..]) > 0 && Block(Flat(dims, idx), Size(dims[k..])) == Flat(dims[..k], idx[..k])
    ensures InRange(dims[..k], idx[..k])
  {
    hide Flat, Size, At, Block;
    FlatJoin(dims[..k], dims[k..], idx[..k], idx[k..]);
    assert dims[..k] + dims[k..] == dims && idx[..k] + idx[k..] == idx;
    FlatBound(dims[k..], idx[k..]);
    Quotient(Size(dims[k..]), Flat(dims[..k], idx[..k]), Flat(dims[k..], idx[k..]));
  }

  lemma FlatEqual(dims: Dims, x: seq<nat>, y: seq<nat>)
    requires InRange(dims, x) && InRange(dims, y)
    ensures Flat(dims, x) == Flat(dims, y) <==> x == y
  {
    hide Flat, Unflat;
    UnflatFlat(dims, x);
    UnflatFlat(dims, y);
  }

  // ----- The layout of the ranks -----

  /** External data parallel, data parallel, pipeline, prefill context, sequence and tensor parallel sizes. */
  datatype Layout = Layout(ext: nat, dp: nat, pp: nat, pcp: nat, sp: nat, tp: nat)

  predicate LayoutOk(l: Layout) {
    l.ext > 0 && l.dp > 0 && l.pp > 0 && l.pcp > 0 && l.sp > 0 && l.tp > 0
  }

  function DimsOf(l: Layout): Dims {
    [l.ext, l.dp, l.pp, l.pcp, l.sp, l.tp]
  }

  /** The axes in order, with two of them exchanged, and as expert parallelism has them. */
  const PLAIN: seq<nat> := [0, 1, 2, 3, 4, 5]
  const SWAP_PCP: seq<nat> := [0, 1, 2, 5, 4, 3]
  const SWAP_PP: seq<nat> := [0, 1, 5, 3, 4, 2]
  const SWAP_DP: seq<nat> := [0, 5, 2, 3, 4, 1]
  const SWAP_SP: seq<nat> := [0, 1, 2, 3, 5, 4]
  const EXPERT: seq<nat> := [0, 4, 2, 1, 3, 5]
  const EXPERT_INVERSE: seq<nat> := [0, 3, 2, 4, 1, 5]

  lemma FamilyAxes()
    ensures Axes(PLAIN, PLAIN) && Axes(SWAP_PCP, SWAP_PCP) && Axes(SWAP_PP, SWAP_PP) && Axes(SWAP_DP, SWAP_DP)
    ensures Axes(SWAP_SP, SWAP_SP) && Axes(EXPERT, EXPERT_INVERSE)
  {
    hide Axes;
    PlainAxes();
    SwapAxes();
    ExpertAxes();
  }

  lemma PlainAxes()
    ensures Axes(PLAIN, PLAIN) && Axes(SWAP_PCP, SWAP_PCP)
  {
  }

  lemma SwapAxes()
    ensures Axes(SWAP_PP, SWAP_PP) && Axes(SWAP_DP, SWAP_DP)
  {
  }

  lemma ExpertAxes()
    ensures Axes(SWAP_SP, SWAP_SP) && Axes(EXPERT, EXPERT_INVERSE)
  {
  }

  // ----- The families -----

  /** The families of groups, but for decode context parallelism. */
  datatype Family = TP | PCP | PP | DP | EP | SP | SPTP

  function AxesOf(f: Family): seq<nat> {
    match f
    case TP => PLAIN
    case PCP => SWAP_PCP
    case PP => SWAP_PP
    case DP => SWAP_DP
    case EP => EXPERT
    case SP => SWAP_SP
    case SPTP => SWAP_SP
  }

  function InverseOf(f: Family): seq<nat> {
    if f == EP then EXPERT_INVERSE else AxesOf(f)
  }

  function GroupSize(l: Layout, f: Family): nat {
    match f
    case TP => l.tp
    case PCP => l.pcp
    case PP => l.pp
    case DP => l.dp
    case EP => l.dp * l.pcp * l.tp
    case SP => l.sp
    case SPTP => l.tp * l.sp
  }

  /** The coordinates in which the ranks of one group differ. */
  function Within(f: Family): set<nat> {
    match f
    case TP => {5}
    case PCP => {3}
    case PP => {2}
    case DP => {1}
    case EP => {1, 3, 5}
    case SP => {4}
    case SPTP => {4, 5}
  }

  function World(l: Layout): nat {
    Size(DimsOf(l))
  }

  lemma {:induction false} SizePositive(dims: Dims)
    ensures Size(dims) > 0 <==> Positive(dims)
  {
    if dims != [] {
      var rest, b := dims[..|dims| - 1], dims[|dims| - 1];
      SizePositive(rest);
      if Size(rest) > 0 && b > 0 {
        PositiveTotal(Size(rest), b);
      } else {
        NoneOfNone(Size(rest), b);
        Commute(Size(rest), b);
        NoneOfNone(b, Size(rest));
      }
      assert Positive(dims) <==> Positive(rest) && b > 0;
    }
  }

  /** Every layout with any ranks is one. */
  lemma AnyLayout(l: Layout)
    ensures LayoutOk(l) <==> World(l) > 0
  {
    var d := DimsOf(l);
    SizePositive(d);
    assert d[0] == l.ext && d[1] == l.dp && d[2] == l.pp && d[3] == l.pcp && d[4] == l.sp && d[5] == l.tp;
  }

  /** The coordinates of a rank. */
  function Coords(l: Layout, r: nat): (c: seq<nat>)
    requires LayoutOk(l)
    ensures |c| == 6
  {
    Unflat(DimsOf(l), r)
  }

  lemma FamilyOk(l: Layout, f: Family)
    requires LayoutOk(l)
    ensures Axes(AxesOf(f), InverseOf(f)) && |AxesOf(f)| == |DimsOf(l)| == 6 && Positive(DimsOf(l))
  {
    hide Axes;
    FamilyAxes();
  }

  /** The axes outside a family, in the order in which it has them. */
  function Outer(f: Family): (x: seq<nat>)
    ensures |x| <= 6
  {
    match f
    case TP => [0, 1, 2, 3, 4]
    case PCP => [0, 1, 2, 5, 4]
    case PP => [0, 1, 5, 3, 4]
    case DP => [0, 5, 2, 3, 4]
    case EP => [0, 4, 2]
    case SP => [0, 1, 2, 3, 5]
    case SPTP => [0, 1, 2, 3]
  }

  lemma OuterAxes(f: Family)
    ensures |AxesOf(f)| == 6 && forall j | 0 <= j < |Outer(f)| ::
              AxesOf(f)[j] == Outer(f)[j] < 6 && Outer(f)[j] !in Within(f)
  {
  }

  lemma OuterAll(f: Family, a: nat) returns (j: nat)
    requires a < 6 && a !in Within(f)
    ensures j < |Outer(f)| && Outer(f)[j] == a
  {
    match f {
      case TP => j := a;
      case PCP => j := if a == 5 then 3 else a;
      case PP => j := if a == 5 then 2 else a;
      case DP => j := if a == 5 then 1 else a;
      case EP => j := if a == 4 then 1 else a;
      case SP => j := if a == 5 then 4 else a;
      case SPTP => j := a;
    }
  }

  lemma AgreeOutside(f: Family, c: seq<nat>, d: seq<nat>)
    requires |c| == |d| == 6
    ensures |AxesOf(f)| == 6 && |Outer(f)| <= 6 && forall j | 0 <= j < |Outer(f)| :: AxesOf(f)[j] < 6
    ensures (forall j | 0 <= j < |Outer(f)| :: c[AxesOf(f)[j]] == d[AxesOf(f)[j]])
            <==> forall a: nat | a < 6 && a !in Within(f) :: c[a] == d[a]
  {
    OuterAxes(f);
    hide AxesOf, Outer, Within, InverseOf;
    if forall j | 0 <= j < |Outer(f)| :: c[AxesOf(f)[j]] == d[AxesOf(f)[j]] {
      forall a: nat | a < 6 && a !in Within(f) ensures c[a] == d[a] {
        var j := OuterAll(f, a);
        assert c[AxesOf(f)[j]] == d[AxesOf(f)[j]];
      }
    }
  }

  /** The sizes of the family's own axes. */
  function Inner(l: Layout, f: Family): seq<nat> {
    match f
    case EP => [l.dp, l.pcp, l.tp]
    case SPTP => [l.tp, l.sp]
    case _ => [GroupSize(l, f)]
  }

  lemma InnerIs(l: Layout, f: Family)
    ensures |AxesOf(f)| == |DimsOf(l)| == 6 && forall k | 0 <= k < 6 :: AxesOf(f)[k] < 6
    ensures Permute(DimsOf(l), AxesOf(f))[|Outer(f)|..] == Inner(l, f)
  {
    var inner := Permute(DimsOf(l), AxesOf(f))[|Outer(f)|..];
    match f {
      case EP => assert inner == [l.dp, l.pcp, l.tp];
      case SPTP => assert inner == [l.tp, l.sp];
      case _ => assert inner == [GroupSize(l, f)];
    }
  }

  lemma InnerSize(l: Layout, f: Family)
    requires LayoutOk(l)
    ensures |Outer(f)| <= |AxesOf(f)| == 6 && Axes(AxesOf(f), InverseOf(f))
    ensures Size(Permute(DimsOf(l), AxesOf(f))[|Outer(f)|..]) == GroupSize(l, f) > 0
  {
    FamilyOk(l, f);
    InnerIs(l, f);
    hide Axes, Size, AxesOf, InverseOf, DimsOf, Permute, Outer;
    match f {
      case EP => SizeThree(l.dp, l.pcp, l.tp);
      case SPTP => SizeTwo(l.tp, l.sp);
      case _ => SizeOne(GroupSize(l, f));
    }
  }

  lemma SizeOne(a: nat)
    ensures Size([a]) == a
  {
    assert [a][..0] == [];
  }

  lemma SizeTwo(a: nat, b: nat)
    requires a > 0 && b > 0
    ensures Size([a, b]) == a * b > 0
  {
    assert [a, b][..1] == [a];
    SizeOne(a);
  }

  lemma SizeThree(a: nat, b: nat, c: nat)
    requires a > 0 && b > 0 && c > 0
    ensures Size([a, b, c]) == a * b * c > 0
  {
    assert [a, b, c][..2] == [a, b];
    SizeTwo(a, b);
  }

  /** The groups of a family cut the world without a rest. */
  lemma FamilyDivides(l: Layout, f: Family)
    requires LayoutOk(l)
    ensures GroupSize(l, f) > 0 && World(l) % GroupSize(l, f) == 0
  {
    InnerSize(l, f);
    FamilyOk(l, f);
    hide Size, Axes, GroupSize, AxesOf, InverseOf, DimsOf, Outer, Permute;
    InnerDivides(DimsOf(l), AxesOf(f), InverseOf(f), |Outer(f)|);
  }

  lemma InnerDivides(dims: Dims, axes: seq<nat>, inverse: seq<nat>, k: nat)
    requires Axes(axes, inverse) && |axes| == |dims| && Positive(dims) && k <= |dims|
    requires Size(Permute(dims, axes)[k..]) > 0
    ensures Size(dims) % Size(Permute(dims, axes)[k..]) == 0
  {
    SizePermuted(dims, axes, inverse);
    hide Size, Axes, Permute;
    JoinDivides(Permute(dims, axes), k);
  }

  lemma JoinDivides(p: Dims, k: nat)
    requires k <= |p| && Size(p[k..]) > 0
    ensures Size(p) % Size(p[k..]) == 0
  {
    hide Size, Total;
    SizeJoin(p[..k], p[k..]);
    assert p[..k] + p[k..] == p;
    NoRest(Size(p[..k]), Size(p[k..]));
  }

  lemma NoRest(n: nat, g: nat)
    requires g > 0
    ensures Total(n, g) % g == 0
  {
    Quotient(g, n, 0);
  }

  /** Two ranks share a group of a family exactly when they differ at most in the family's own coordinates. */
  lemma FamilyGroups(l: Layout, f: Family, q: nat, r: nat)
    requires LayoutOk(l) && q < World(l) && r < World(l)
    ensures Axes(AxesOf(f), InverseOf(f)) && |AxesOf(f)| == |DimsOf(l)| && Positive(DimsOf(l)) && GroupSize(l, f) > 0
    ensures var (dims, g) := (DimsOf(l), GroupSize(l, f));
            GroupOf(dims, AxesOf(f), InverseOf(f), g, q).0 == GroupOf(dims, AxesOf(f), InverseOf(f), g, r).0
            <==> forall a: nat | a < 6 && a !in Within(f) :: Coords(l, q)[a] == Coords(l, r)[a]
  {
    FamilyOk(l, f);
    InnerSize(l, f);
    AgreeOutside(f, Coords(l, q), Coords(l, r));
    hide Size, Axes, GroupSize, Within, Unflat, GroupOf, DimsOf, Permute, AxesOf, InverseOf, Outer;
    SameGroup(DimsOf(l), AxesOf(f), InverseOf(f), |Outer(f)|, q, r);
  }

  /** The groups of a family are whole and partition the world: each of them has its number of ranks, all in the
      world, and each rank is in one, at one place. */
  lemma FamilyPartition(l: Layout, f: Family, r: nat, k: nat, i: nat)
    requires LayoutOk(l)
    ensures Axes(AxesOf(f), InverseOf(f)) && |AxesOf(f)| == |DimsOf(l)| && Positive(DimsOf(l)) && GroupSize(l, f) > 0
    ensures var (dims, g) := (DimsOf(l), GroupSize(l, f));
            var at := GroupOf(dims, AxesOf(f), InverseOf(f), g, r);
            && (r < World(l) ==> at.0 < World(l) / g && Group(dims, AxesOf(f), InverseOf(f), g, at.0)[at.1] == r)
            && (k < World(l) / g && i < g ==>
                  var q := Group(dims, AxesOf(f), InverseOf(f), g, k)[i];
                  q < World(l) && GroupOf(dims, AxesOf(f), InverseOf(f), g, q) == (k, i))
  {
    FamilyOk(l, f);
    FamilyDivides(l, f);
    hide Size, Axes, GroupSize, Group, GroupOf;
    GroupsPartition(DimsOf(l), AxesOf(f), InverseOf(f), GroupSize(l, f), r, k, i);
  }

  lemma GroupsPartition(dims: Dims, axes: seq<nat>, inverse: seq<nat>, g: nat, r: nat, k: nat, i: nat)
    requires Axes(axes, inverse) && |axes| == |dims| && Positive(dims) && g > 0 && Size(dims) % g == 0
    ensures var at := GroupOf(dims, axes, inverse, g, r);
            r < Size(dims) ==> at.0 < Size(dims) / g && Group(dims, axes, inverse, g, at.0)[at.1] == r
    ensures k < Size(dims) / g && i < g ==>
              var q := Group(dims, axes, inverse, g, k)[i];
              q < Size(dims) && GroupOf(dims, axes, inverse, g, q) == (k, i)
  {
    hide Size, Axes, Positive, RankAt, PlaceOf, At, Block, Inside;
    if r < Size(dims) {
      FamilyPartitions(dims, axes, inverse, g, r);
      SizePermuted(dims, axes, inverse);
      var at := GroupOf(dims, axes, inverse, g, r);
      BlockCount(Size(dims), g, at.0, at.1);
    }
    if k < Size(dims) / g && i < g {
      WholeGroups(dims, axes, inverse, g, k, i);
      FamilyOnce(dims, axes, inverse, g, k, i);
    }
  }

  lemma BlockCount(n: nat, g: nat, k: nat, i: nat)
    requires g > 0 && n % g == 0 && At(g, k, i) < n && i < g
    ensures k < n / g
  {
    Exact(n, g);
    Commute(g, n / g);
    hide At, Block, Inside;
    Decompose(At(g, k, i), n / g, g);
    Quotient(g, k, i);
  }

  /** Groups of decode context parallelism, whose size has to divide that of the tensor parallel groups, are
      whole. */
  lemma DecodeDivides(l: Layout, g: nat)
    requires LayoutOk(l) && g > 0 && l.tp % g == 0
    ensures World(l) % g == 0
  {
    var o, n := Size(DimsOf(l)[..5]), Block(l.tp, g);
    Exact(l.tp, g);
    Commute(g, n);
    TotalAssoc(o, n, g);
    NoRest(Total(o, n), g);
  }

  /** Ranks share one when they are in one tensor parallel group and in the same part of it, and have there their
      place in that part. */
  lemma DecodeGroups(l: Layout, g: nat, q: nat, r: nat)
    requires LayoutOk(l) && g > 0 && l.tp % g == 0 && q < World(l) && r < World(l)
    ensures Axes(PLAIN, PLAIN) && Positive(DimsOf(l)) && |PLAIN| == |DimsOf(l)|
    ensures GroupOf(DimsOf(l), PLAIN, PLAIN, g, q).0 == GroupOf(DimsOf(l), PLAIN, PLAIN, g, r).0
            <==> && (forall a: nat | a < 5 :: Coords(l, q)[a] == Coords(l, r)[a])
                 && Block(Coords(l, q)[5], g) == Block(Coords(l, r)[5], g)
    ensures GroupOf(DimsOf(l), PLAIN, PLAIN, g, r).1 == Inside(Coords(l, r)[5], g)
  {
    FamilyOk(l, TP);
    hide Block, Inside;
    DecodePlace(l, g, q);
    DecodePlace(l, g, r);
    hide Axes, Unflat, GroupOf, Flat, Size, DimsOf;
    SamePart(DimsOf(l)[..5] + [Block(l.tp, g)], Coords(l, q), Coords(l, r), Block(Coords(l, q)[5], g),
             Block(Coords(l, r)[5], g));
  }

  lemma SamePart(dims: Dims, x: seq<nat>, y: seq<nat>, i: nat, j: nat)
    requires |x| == |y| == |dims| == 6 && InRange(dims, x[..5] + [i]) && InRange(dims, y[..5] + [j])
    ensures Flat(dims, x[..5] + [i]) == Flat(dims, y[..5] + [j]) <==> (forall a: nat | a < 5 :: x[a] == y[a]) && i == j
  {
    hide Flat;
    var v, w := x[..5] + [i], y[..5] + [j];
    FlatEqual(dims, v, w);
    assert forall a: nat | a < 5 :: v[a] == x[a] && w[a] == y[a];
    assert v[5] == i && w[5] == j;
  }

  lemma DecodePlace(l: Layout, g: nat, r: nat)
    requires LayoutOk(l) && g > 0 && l.tp % g == 0 && r < World(l)
    ensures Axes(PLAIN, PLAIN) && Positive(DimsOf(l)) && |PLAIN| == |DimsOf(l)| == 6
    ensures var x, outer := Coords(l, r), DimsOf(l)[..5] + [Block(l.tp, g)];
            && InRange(outer, x[..5] + [Block(x[5], g)])
            && GroupOf(DimsOf(l), PLAIN, PLAIN, g, r).0 == Flat(outer, x[..5] + [Block(x[5], g)])
            && GroupOf(DimsOf(l), PLAIN, PLAIN, g, r).1 == Inside(x[5], g)
  {
    FamilyOk(l, TP);
    var dims, x, n := DimsOf(l), Coords(l, r), Block(l.tp, g);
    FlatUnflat(dims, r);
    assert Permute(dims, PLAIN) == dims && Permute(x, PLAIN) == x;
    Exact(l.tp, g);
    hide Axes, Flat, Unflat, Size, At, Block, Inside, Permute;
    Commute(g, n);
    PlacePart(dims[..5], x[..5], l.tp, g, n, x[5]);
    assert dims[..5] + [l.tp] == dims && x[..5] + [x[5]] == x;
  }

  lemma PlacePart(outer: Dims, a: seq<nat>, tp: nat, g: nat, n: nat, t: nat)
    requires InRange(outer, a) && g > 0 && tp == Total(n, g) && t < tp
    ensures Block(Flat(outer + [tp], a + [t]), g) == Flat(outer + [n], a + [Block(t, g)]) && Block(t, g) < n
    ensures Inside(Flat(outer + [tp], a + [t]), g) == Inside(t, g)
    ensures InRange(outer + [n], a + [Block(t, g)])
  {
    hide Flat, Block, Inside, At, Total;
    FlatMore(outer, a, tp, t);
    FlatMore(outer, a, n, Block(t, g));
    Decompose(t, n, g);
    Nested(n, g, Flat(outer, a), Block(t, g), Inside(t, g));
    Quotient(g, At(n, Flat(outer, a), Block(t, g)), Inside(t, g));
  }

  // ----- Places in the groups of the shift mode -----

  /** The number of the rank at these coordinates, and its place when the last two axes are exchanged. */
  lemma SwappedPlace(l: Layout, e: nat, d: nat, p: nat, c: nat, s: nat, t: nat)
    requires LayoutOk(l) && e < l.ext && d < l.dp && p < l.pp && c < l.pcp && s < l.sp && t < l.tp
    ensures Axes(SWAP_SP, SWAP_SP) && Positive(DimsOf(l)) && InRange(DimsOf(l), [e, d, p, c, s, t])
    ensures var r, outer := Flat(DimsOf(l), [e, d, p, c, s, t]), Flat([l.ext, l.dp, l.pp, l.pcp], [e, d, p, c]);
            PlaceOf(DimsOf(l), SWAP_SP, SWAP_SP, r) == At(l.sp, At(l.tp, outer, t), s)
  {
    hide Flat, Unflat, At;
    FamilyAxes();
    var dims, idx := DimsOf(l), [e, d, p, c, s, t];
    var outer, at := [l.ext, l.dp, l.pp, l.pcp], [e, d, p, c];
    UnflatFlat(dims, idx);
    assert Permute(dims, SWAP_SP) == outer + [l.tp] + [l.sp] && Permute(idx, SWAP_SP) == at + [t] + [s];
    FlatMore(outer, at, l.tp, t);
    FlatMore(outer + [l.tp], at + [t], l.sp, s);
  }

  lemma FlatMore(dims: Dims, idx: seq<nat>, b: nat, i: nat)
    requires |idx| == |dims|
    ensures Flat(dims + [b], idx + [i]) == At(b, Flat(dims, idx), i)
  {
    assert (dims + [b])[..|dims|] == dims && (idx + [i])[..|idx|] == idx;
  }

  lemma InnerPlace(outer: nat, tp: nat, sp: nat, t: nat, s: nat)
    requires t < tp && s < sp
    ensures Total(tp, sp) > 0 && Inside(At(sp, At(tp, outer, t), s), Total(tp, sp)) == At(sp, t, s)
    ensures Inside(At(sp, At(tp, outer, t), s), sp) == s
  {
    hide At, Total, Inside;
    Nested(tp, sp, outer, t, s);
    Bound(sp, t, s, tp);
    Quotient(Total(tp, sp), outer, At(sp, t, s));
    Quotient(sp, At(tp, outer, t), s);
  }

  /** In the group for the shift mode, which has all sequence and tensor parallel ranks, the rank at s and t has
      place t * sp + s; in its sequence parallel group it has place s. */
  lemma ShiftRank(l: Layout, e: nat, d: nat, p: nat, c: nat, s: nat, t: nat)
    requires LayoutOk(l) && e < l.ext && d < l.dp && p < l.pp && c < l.pcp && s < l.sp && t < l.tp
    ensures Axes(SWAP_SP, SWAP_SP) && Positive(DimsOf(l)) && l.tp * l.sp > 0
    ensures var r := Flat(DimsOf(l), [e, d, p, c, s, t]);
            && GroupOf(DimsOf(l), SWAP_SP, SWAP_SP, l.tp * l.sp, r).1 == t * l.sp + s
            && GroupOf(DimsOf(l), SWAP_SP, SWAP_SP, l.sp, r).1 == s
  {
    hide Flat, Permute, PlaceOf, DimsOf, InRange;
    SwappedPlace(l, e, d, p, c, s, t);
    SameLength(l);
    InnerPlace(Flat([l.ext, l.dp, l.pp, l.pcp], [e, d, p, c]), l.tp, l.sp, t, s);
  }

  lemma SameLength(l: Layout)
    ensures |DimsOf(l)| == |SWAP_SP| == 6
  {
  }

  /** The place of a rank in its group of a family. */
  function PlaceIn(l: Layout, f: Family, r: nat): (i: nat)
    requires LayoutOk(l)
    ensures i < GroupSize(l, f)
  {
    FamilyOk(l, f);
    FamilyDivides(l, f);
    GroupOf(DimsOf(l), AxesOf(f), InverseOf(f), GroupSize(l, f), r).1
  }

  // ----- Ranks, groups and places as numbers -----

  lemma FlatTwo(d: Dims, x: seq<nat>)
    requires |d| == |x| == 2
    ensures Flat(d, x) == x[0] * d[1] + x[1]
  {
    FlatMore([], [], d[0], x[0]);
    FlatMore([d[0]], [x[0]], d[1], x[1]);
    assert d == [] + [d[0]] + [d[1]] && x == [] + [x[0]] + [x[1]] && [] + [d[0]] == [d[0]] && [] + [x[0]] == [x[0]];
  }

  lemma FlatNext(d: Dims, x: seq<nat>, n: nat)
    requires |d| == |x| == n + 1
    ensures Flat(d, x) == Flat(d[..n], x[..n]) * d[n] + x[n]
  {
    FlatMore(d[..n], x[..n], d[n], x[n]);
    assert d == d[..n] + [d[n]] && x == x[..n] + [x[n]];
  }

  lemma FlatOne(d: Dims, x: seq<nat>)
    requires |d| == |x| == 1
    ensures Flat(d, x) == x[0]
  {
    FlatNext(d, x, 0);
    assert d[..0] == [] && x[..0] == [];
  }

  lemma FlatThree(d: Dims, x: seq<nat>)
    requires |d| == |x| == 3
    ensures Flat(d, x) == (x[0] * d[1] + x[1]) * d[2] + x[2]
  {
    FlatNext(d, x, 2);
    FlatTwo(d[..2], x[..2]);
  }

  lemma FlatFour(d: Dims, x: seq<nat>)
    requires |d| == |x| == 4
    ensures Flat(d, x) == ((x[0] * d[1] + x[1]) * d[2] + x[2]) * d[3] + x[3]
  {
    FlatNext(d, x, 3);
    FlatThree(d[..3], x[..3]);
  }

  lemma FlatFive(d: Dims, x: seq<nat>)
    requires |d| == |x| == 5
    ensures Flat(d, x) == (((x[0] * d[1] + x[1]) * d[2] + x[2]) * d[3] + x[3]) * d[4] + x[4]
  {
    FlatNext(d, x, 4);
    FlatFour(d[..4], x[..4]);
  }

  /** A rank is numbered by its coordinates, external data parallelism first and tensor parallelism last. */
  lemma RankNumber(l: Layout, r: nat)
    requires LayoutOk(l) && r < World(l)
    ensures var c := Coords(l, r);
            && c[0] < l.ext && c[1] < l.dp && c[2] < l.pp && c[3] < l.pcp && c[4] < l.sp && c[5] < l.tp
            && r == ((((c[0] * l.dp + c[1]) * l.pp + c[2]) * l.pcp + c[3]) * l.sp + c[4]) * l.tp + c[5]
  {
    var d, c := DimsOf(l), Coords(l, r);
    FlatUnflat(d, r);
    assert c[0] < d[0] && c[1] < d[1] && c[2] < d[2] && c[3] < d[3] && c[4] < d[4] && c[5] < d[5];
    hide Flat, Unflat, Size;
    FlatNext(d, c, 5);
    FlatFive(d[..5], c[..5]);
  }

  /** The last axes of a family are numbered by the place, those before by the group. */
  lemma GroupPlace(l: Layout, f: Family, r: nat)
    requires LayoutOk(l) && r < World(l)
    ensures Axes(AxesOf(f), InverseOf(f)) && |AxesOf(f)| == |DimsOf(l)| == |Coords(l, r)| == 6 && Positive(DimsOf(l))
    ensures GroupSize(l, f) > 0
    ensures var k, d, x := |Outer(f)|, Permute(DimsOf(l), AxesOf(f)), Permute(Coords(l, r), AxesOf(f));
            var at := GroupOf(DimsOf(l), AxesOf(f), InverseOf(f), GroupSize(l, f), r);
            at.0 == Flat(d[..k], x[..k]) && at.1 == Flat(d[k..], x[k..])
  {
    FamilyOk(l, f);
    InnerSize(l, f);
    var k, d, x := |Outer(f)|, Permute(DimsOf(l), AxesOf(f)), Permute(Coords(l, r), AxesOf(f));
    FlatUnflat(DimsOf(l), r);
    assert InRange(d, x);
    hide Flat, Unflat, Size, Axes, AxesOf, InverseOf, DimsOf, Permute, GroupSize, Outer;
    OuterBlock(d, x, k);
    InnerInside(d, x, k);
  }

  lemma InnerInside(dims: Dims, idx: seq<nat>, k: nat)
    requires InRange(dims, idx) && k <= |dims|
    ensures Size(dims[k..]) > 0 && Inside(Flat(dims, idx), Size(dims[k..])) == Flat(dims[k..], idx[k..])
  {
    hide Flat, Size, At, Inside;
    FlatJoin(dims[..k], dims[k..], idx[..k], idx[k..]);
    assert dims[..k] + dims[k..] == dims && idx[..k] + idx[k..] == idx;
    FlatBound(dims[k..], idx[k..]);
    Quotient(Size(dims[k..]), Flat(dims[..k], idx[..k]), Flat(dims[k..], idx[k..]));
  }

  /** The place of a rank in its group of each family: the family's own coordinate, or for the families over several
      axes their number, in the order of the axes. */
  lemma FamilyPlaces(l: Layout, r: nat)
    requires LayoutOk(l) && r < World(l)
    ensures var c := Coords(l, r);
            && PlaceIn(l, TP, r) == c[5] && PlaceIn(l, PCP, r) == c[3] && PlaceIn(l, PP, r) == c[2]
            && PlaceIn(l, DP, r) == c[1] && PlaceIn(l, SP, r) == c[4]
            && PlaceIn(l, EP, r) == (c[1] * l.pcp + c[3]) * l.tp + c[5] && PlaceIn(l, SPTP, r) == c[5] * l.sp + c[4]
  {
    hide Flat, Unflat, Axes, GroupOf, Size;
    OnePlace(l, TP, r);
    OnePlace(l, PCP, r);
    OnePlace(l, PP, r);
    OnePlace(l, DP, r);
    OnePlace(l, SP, r);
    ExpertPlace(l, r);
    ShiftPlace(l, r);
  }

  /** The axis of a family that has one. */
  function OwnAxis(f: Family): nat {
    match f
    case TP => 5
    case PCP => 3
    case PP => 2
    case DP => 1
    case EP => 0
    case SP => 4
    case SPTP => 0
  }

  lemma OnePlace(l: Layout, f: Family, r: nat)
    requires LayoutOk(l) && r < World(l) && f != EP && f != SPTP
    ensures PlaceIn(l, f, r) == Coords(l, r)[OwnAxis(f)]
  {
    GroupPlace(l, f, r);
    hide Flat, Unflat, Axes, GroupOf, Size;
    var d, x := Permute(DimsOf(l), AxesOf(f)), Permute(Coords(l, r), AxesOf(f));
    FlatOne(d[5..], x[5..]);
  }

  lemma ExpertPlace(l: Layout, r: nat)
    requires LayoutOk(l) && r < World(l)
    ensures var c := Coords(l, r); PlaceIn(l, EP, r) == (c[1] * l.pcp + c[3]) * l.tp + c[5]
  {
    GroupPlace(l, EP, r);
    hide Flat, Unflat, Axes, GroupOf, Size;
    var d, x := Permute(DimsOf(l), AxesOf(EP)), Permute(Coords(l, r), AxesOf(EP));
    FlatThree(d[3..], x[3..]);
  }

  lemma ShiftPlace(l: Layout, r: nat)
    requires LayoutOk(l) && r < World(l)
    ensures var c := Coords(l, r); PlaceIn(l, SPTP, r) == c[5] * l.sp + c[4]
  {
    GroupPlace(l, SPTP, r);
    hide Flat, Unflat, Axes, GroupOf, Size;
    var d, x := Permute(DimsOf(l), AxesOf(SPTP)), Permute(Coords(l, r), AxesOf(SPTP));
    FlatTwo(d[4..], x[4..]);
  }

  /** The number of the group of a rank in a family. */
  function NumberIn(l: Layout, f: Family, r: nat): nat
    requires LayoutOk(l)
  {
    FamilyOk(l, f);
    FamilyDivides(l, f);
    GroupOf(DimsOf(l), AxesOf(f), InverseOf(f), GroupSize(l, f), r).0
  }

  /** The groups of a family are numbered by the other coordinates, in the order in which the code has the axes: the
      axis that trades places with the last one is where that was. */
  lemma FamilyNumbers(l: Layout, r: nat)
    requires LayoutOk(l) && r < World(l)
    ensures var c := Coords(l, r);
            && NumberIn(l, TP, r) == (((c[0] * l.dp + c[1]) * l.pp + c[2]) * l.pcp + c[3]) * l.sp + c[4]
            && NumberIn(l, PCP, r) == (((c[0] * l.dp + c[1]) * l.pp + c[2]) * l.tp + c[5]) * l.sp + c[4]
            && NumberIn(l, PP, r) == (((c[0] * l.dp + c[1]) * l.tp + c[5]) * l.pcp + c[3]) * l.sp + c[4]
            && NumberIn(l, DP, r) == (((c[0] * l.tp + c[5]) * l.pp + c[2]) * l.pcp + c[3]) * l.sp + c[4]
            && NumberIn(l, EP, r) == (c[0] * l.sp + c[4]) * l.pp + c[2]
            && NumberIn(l, SP, r) == (((c[0] * l.dp + c[1]) * l.pp + c[2]) * l.pcp + c[3]) * l.tp + c[5]
            && NumberIn(l, SPTP, r) == ((c[0] * l.dp + c[1]) * l.pp + c[2]) * l.pcp + c[3]
  {
    hide Flat, Unflat, Axes, GroupOf, Size, World, LayoutOk, NumberIn, Coords;
    var c := Coords(l, r);
    FiveNumber(l, TP, r, [l.ext, l.dp, l.pp, l.pcp, l.sp], [c[0], c[1], c[2], c[3], c[4]]);
    FiveNumber(l, PCP, r, [l.ext, l.dp, l.pp, l.tp, l.sp], [c[0], c[1], c[2], c[5], c[4]]);
    FiveNumber(l, PP, r, [l.ext, l.dp, l.tp, l.pcp, l.sp], [c[0], c[1], c[5], c[3], c[4]]);
    FiveNumber(l, DP, r, [l.ext, l.tp, l.pp, l.pcp, l.sp], [c[0], c[5], c[2], c[3], c[4]]);
    FiveNumber(l, SP, r, [l.ext, l.dp, l.pp, l.pcp, l.tp], [c[0], c[1], c[2], c[3], c[5]]);
    ExpertNumber(l, r);
    ShiftNumber(l, r);
  }

  ghost predicate FirstFive(v: seq<nat>, axes: seq<nat>, x: seq<nat>) {
    |v| == |axes| == 6 && |x| == 5 && forall k | 0 <= k < 5 :: axes[k] < 6 && x[k] == v[axes[k]]
  }

  lemma FiveNumber(l: Layout, f: Family, r: nat, d: seq<nat>, x: seq<nat>)
    requires LayoutOk(l) && r < World(l) && f != EP && f != SPTP
    requires FirstFive(DimsOf(l), AxesOf(f), d) && FirstFive(Coords(l, r), AxesOf(f), x)
    ensures NumberIn(l, f, r) == (((x[0] * d[1] + x[1]) * d[2] + x[2]) * d[3] + x[3]) * d[4] + x[4]
  {
    GroupPlace(l, f, r);
    assert |Outer(f)| == 5;
    hide Flat, Unflat, Axes, GroupOf, Size, Outer;
    assert Permute(DimsOf(l), AxesOf(f))[..5] == d && Permute(Coords(l, r), AxesOf(f))[..5] == x;
    FlatFive(d, x);
  }

  lemma ExpertNumber(l: Layout, r: nat)
    requires LayoutOk(l) && r < World(l)
    ensures var c := Coords(l, r); NumberIn(l, EP, r) == (c[0] * l.sp + c[4]) * l.pp + c[2]
  {
    GroupPlace(l, EP, r);
    hide Flat, Unflat, Axes, GroupOf, Size;
    var d, x := Permute(DimsOf(l), AxesOf(EP)), Permute(Coords(l, r), AxesOf(EP));
    FlatThree(d[..3], x[..3]);
  }

  lemma ShiftNumber(l: Layout, r: nat)
    requires LayoutOk(l) && r < World(l)
    ensures var c := Coords(l, r); NumberIn(l, SPTP, r) == ((c[0] * l.dp + c[1]) * l.pp + c[2]) * l.pcp + c[3]
  {
    GroupPlace(l, SPTP, r);
    hide Flat, Unflat, Axes, GroupOf, Size;
    var d, x := Permute(DimsOf(l), AxesOf(SPTP)), Permute(Coords(l, r), AxesOf(SPTP));
    FlatFour(d[..4], x[..4]);
  }

  /** The place of a rank in the group of the shift mode, from those in its other two groups. */
  lemma Places(l: Layout, r: nat)
    requires LayoutOk(l) && r < World(l)
    ensures PlaceIn(l, SPTP, r) == PlaceIn(l, TP, r) * l.sp + PlaceIn(l, SP, r)
  {
    FlatUnflat(DimsOf(l), r);
    var c := Coords(l, r);
    assert c == [c[0], c[1], c[2], c[3], c[4], c[5]];
    FamilyOk(l, TP);
    hide Flat, Unflat, Axes, GroupOf;
    ShiftRank(l, c[0], c[1], c[2], c[3], c[4], c[5]);
    TensorRank(l, c[0], c[1], c[2], c[3], c[4], c[5]);
  }

  /** In its tensor parallel group the rank at t has place t. */
  lemma TensorRank(l: Layout, e: nat, d: nat, p: nat, c: nat, s: nat, t: nat)
    requires LayoutOk(l) && e < l.ext && d < l.dp && p < l.pp && c < l.pcp && s < l.sp && t < l.tp
    ensures Axes(PLAIN, PLAIN) && Positive(DimsOf(l))
    ensures GroupOf(DimsOf(l), PLAIN, PLAIN, l.tp, Flat(DimsOf(l), [e, d, p, c, s, t])).1 == t
  {
    FamilyOk(l, TP);
    var dims, idx := DimsOf(l), [e, d, p, c, s, t];
    hide Axes, Flat, Unflat, Inside, At;
    UnflatFlat(dims, idx);
    assert Permute(dims, PLAIN) == dims && Permute(idx, PLAIN) == idx;
    assert dims[..5] + [l.tp] == dims && idx[..5] + [t] == idx;
    FlatMore(dims[..5], idx[..5], l.tp, t);
    Quotient(l.tp, Flat(dims[..5], idx[..5]), t);
  }
}
