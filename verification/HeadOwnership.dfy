/**
 The heads of a rank in base mode, where the tensor parallel rank has a slice of them and the sequence
 parallel ranks share that, and in shift mode, where all these ranks form one tensor parallel group.
 */
module HeadOwnership {
  import opened Blocks
  import opened RankGroups
  import UlyssesAttention

  /** Shift mode: the group of all ranks splits the heads as tensor parallelism does, in rank order. */
  predicate ShiftOwns(heads: nat, n: nat, r: nat, m: nat)
    requires n > 0
  {
    r * (heads / n) <= m < (r + 1) * (heads / n)
  }

  /** Base mode: the tensor parallel rank has a slice of the heads, and the sequence parallel rank a slice of that. */
  predicate BaseOwns(heads: nat, sp: nat, tp: nat, s: nat, t: nat, m: nat)
    requires sp > 0 && tp > 0
  {
    var local := heads / tp / sp;
    t * (heads / tp) + s * local <= m < t * (heads / tp) + (s + 1) * local
  }

  /** Each rank has the same heads in base mode and in shift mode, so the modes can share the cache of keys
      and values. */
  lemma SameHeads(heads: nat, sp: nat, tp: nat, s: nat, t: nat, m: nat)
    requires sp > 0 && tp > 0 && heads % (tp * sp) == 0 && s < sp && t < tp
    ensures tp * sp > 0 && (BaseOwns(heads, sp, tp, s, t, m) <==> ShiftOwns(heads, tp * sp, t * sp + s, m))
  {
    SliceCounts(heads, sp, tp);
    var b := heads / (tp * sp);
    Nested(sp, b, t, s, 0);
    Nested(sp, b, t, s + 1, 0);
  }

  /** A slice of a slice is as long as a slice for all ranks. */
  lemma SliceCounts(heads: nat, sp: nat, tp: nat)
    requires sp > 0 && tp > 0 && heads % (tp * sp) == 0
    ensures tp * sp > 0 && heads / tp == sp * (heads / (tp * sp)) && heads / tp / sp == heads / (tp * sp)
    ensures heads % tp == 0
  {
    PositiveTotal(tp, sp);
    var n, b := Total(tp, sp), heads / (tp * sp);
    assert n == tp * sp && Total(sp, b) == sp * b;
    hide Total;
    Exact(heads, n);
    TotalAssoc(tp, sp, b);
    Divided(heads, tp, Total(sp, b));
    Divided(Total(sp, b), sp, b);
  }

  // ----- Key heads, of which there may be fewer than ranks -----

  /** Some key heads in a row. */
  datatype Keys = Keys(first: nat, count: nat)

  /** The head counts can be split over a tensor parallel group of n ranks: with fewer key heads than ranks, each
      rank has a copy of one. */
  predicate Splits(kvs: nat, n: nat) {
    kvs > 0 && n > 0 && (if kvs >= n then kvs % n == 0 else n % kvs == 0)
  }

  /** The key heads of rank r in a tensor parallel group of n ranks. */
  function TensorKeys(kvs: nat, n: nat, r: nat): Keys
    requires Splits(kvs, n)
  {
    if kvs >= n then Keys(r * (kvs / n), kvs / n) else CopiesPositive(n, kvs); Keys(r / (n / kvs), 1)
  }

  lemma CopiesPositive(n: nat, kvs: nat)
    requires kvs > 0 && n >= kvs
    ensures n / kvs > 0
  {
    UlyssesAttention.DivPositive(n, kvs);
  }

  /** The heads of a layer as a tensor parallel rank has them, to be shared by the sequence parallel ranks. */
  function LayerHeads(queries: nat, kvs: nat, sp: nat, tp: nat): UlyssesAttention.Heads
    requires tp > 0
  {
    UlyssesAttention.Heads(sp, queries / tp, if kvs >= tp then kvs / tp else 1)
  }

  /** The head counts suit both the tensor parallel and the sequence parallel split. */
  predicate Admissible(queries: nat, kvs: nat, sp: nat, tp: nat) {
    && tp > 0 && queries % tp == 0 && Splits(kvs, tp)
    && UlyssesAttention.HeadsOk(LayerHeads(queries, kvs, sp, tp))
  }

  /** In each split the ranks share out the heads or have copies of them: one of the two numbers is a multiple of the
      other; query heads can always be shared out, also among the key heads. */
  lemma AdmissibleIs(queries: nat, kvs: nat, sp: nat, tp: nat)
    ensures Admissible(queries, kvs, sp, tp) <==>
              && queries > 0 && kvs > 0 && sp > 0 && tp > 0
              && queries % tp == 0 && queries / tp % sp == 0 && (kvs % tp == 0 || tp % kvs == 0)
              && var own := if kvs < tp then 1 else kvs / tp;
                 queries / tp % own == 0 && (own % sp == 0 || sp % own == 0)
  {
    if queries > 0 && kvs > 0 && sp > 0 && tp > 0 {
      var own := if kvs < tp then 1 else kvs / tp;
      OneMultiple(kvs, tp);
      if kvs >= tp {
        UlyssesAttention.DivPositive(kvs, tp);
      }
      OneMultiple(own, sp);
      if queries % tp == 0 {
        UlyssesAttention.MultipleAtLeast(queries, tp);
        UlyssesAttention.DivPositive(queries, tp);
      }
    }
  }

  /** Only the larger of two numbers can be a multiple of the other. */
  lemma OneMultiple(x: nat, y: nat)
    requires x > 0 && y > 0
    ensures (if x < y then y % x == 0 else x % y == 0) <==> x % y == 0 || y % x == 0
  {
    if x % y == 0 {
      UlyssesAttention.MultipleAtLeast(x, y);
    }
    if y % x == 0 {
      UlyssesAttention.MultipleAtLeast(y, x);
    }
  }

  /** Base mode: of the key heads of tensor parallel rank t, those that the exchange gives to sequence parallel rank
      s. */
  function BaseKeys(queries: nat, kvs: nat, sp: nat, tp: nat, s: nat, t: nat): Keys
    requires Admissible(queries, kvs, sp, tp)
  {
    var h := LayerHeads(queries, kvs, sp, tp);
    Keys(TensorKeys(kvs, tp, t).first + UlyssesAttention.KvIndex(h, s, 0), UlyssesAttention.LocalKvs(h))
  }

  /** With key heads for all ranks, each rank has the same slice in both modes. */
  lemma SameSlice(kvs: nat, sp: nat, tp: nat, s: nat, t: nat)
    requires sp > 0 && tp > 0 && kvs % (tp * sp) == 0 && s < sp && t < tp
    ensures tp * sp > 0 && t * (kvs / tp) + s * (kvs / tp / sp) == (t * sp + s) * (kvs / (tp * sp))
  {
    SliceCounts(kvs, sp, tp);
    Nested(sp, kvs / (tp * sp), t, s, 0);
  }

  /** With fewer key heads than ranks, each rank has a copy of the same one in both modes. */
  lemma SameReplica(kvs: nat, sp: nat, tp: nat, s: nat, t: nat)
    requires sp > 0 && tp > 0 && kvs > 0 && kvs % tp == 0 && kvs / tp > 0 && sp % (kvs / tp) == 0 && s < sp && t < tp
    ensures sp / (kvs / tp) > 0 && tp * sp / kvs == sp / (kvs / tp) && tp * sp % kvs == 0
    ensures (t * sp + s) / (tp * sp / kvs) == t * (kvs / tp) + s / (sp / (kvs / tp))
  {
    var k := kvs / tp;
    var f := sp / k;
    Exact(kvs, tp);
    Exact(sp, k);
    NoneOfNone(k, f);
    SharedReplicas(kvs, sp, tp, k, f);
    ReplicaPlaces(sp, k, f, s, t);
  }

  lemma SharedReplicas(kvs: nat, sp: nat, tp: nat, k: nat, f: nat)
    requires kvs == Total(tp, k) && sp == Total(k, f) && kvs > 0
    ensures tp * sp / kvs == f && tp * sp % kvs == 0
  {
    Assoc(tp, k, f);
    Quotient(kvs, f, 0);
    assert tp * sp == f * kvs + 0;
  }

  lemma ReplicaPlaces(sp: nat, k: nat, f: nat, s: nat, t: nat)
    requires sp == Total(k, f) && s < sp && f > 0
    ensures (t * sp + s) / f == t * k + s / f
  {
    Parts(s, f);
    Nested(k, f, t, s / f, s % f);
    Quotient(f, At(k, t, s / f), s % f);
  }

  /** With fewer key heads than tensor parallel ranks, these have copies already, and the sequence parallel ranks
      copies of those: again of the same head as in shift mode. */
  lemma SameCopy(kvs: nat, sp: nat, tp: nat, s: nat, t: nat)
    requires sp > 0 && kvs > 0 && kvs < tp && tp % kvs == 0 && s < sp && t < tp
    ensures tp / kvs > 0 && tp * sp / kvs > 0 && tp * sp % kvs == 0
    ensures (t * sp + s) / (tp * sp / kvs) == t / (tp / kvs)
  {
    var c := tp / kvs;
    Exact(tp, kvs);
    NoneOfNone(kvs, c);
    CopyCount(kvs, sp, tp, c);
    Parts(t, c);
    Nested(c, sp, t / c, t % c, s);
    Bound(sp, t % c, s, c);
    Quotient(Total(c, sp), t / c, At(sp, t % c, s));
  }

  lemma CopyCount(kvs: nat, sp: nat, tp: nat, c: nat)
    requires kvs > 0 && tp == Total(kvs, c) && c > 0 && sp > 0
    ensures tp * sp / kvs == Total(c, sp) > 0 && tp * sp % kvs == 0
  {
    Assoc(kvs, c, sp);
    Commute(kvs, c * sp);
    Quotient(kvs, c * sp, 0);
    assert tp * sp == (c * sp) * kvs + 0;
    assert c * sp > 0;
  }

  /** Each rank has the same key heads in both modes, whichever of the splits applies. */
  lemma SameKeys(queries: nat, kvs: nat, sp: nat, tp: nat, s: nat, t: nat)
    requires Admissible(queries, kvs, sp, tp) && s < sp && t < tp
    ensures Splits(kvs, tp * sp)
    ensures BaseKeys(queries, kvs, sp, tp, s, t) == TensorKeys(kvs, tp * sp, t * sp + s)
  {
    if kvs < tp {
      CopiedKeys(queries, kvs, sp, tp, s, t);
    } else if kvs / tp < sp {
      ReplicatedKeys(queries, kvs, sp, tp, s, t);
    } else {
      SlicedKeys(queries, kvs, sp, tp, s, t);
    }
  }

  lemma CopiedKeys(queries: nat, kvs: nat, sp: nat, tp: nat, s: nat, t: nat)
    requires Admissible(queries, kvs, sp, tp) && s < sp && t < tp && kvs < tp
    ensures Splits(kvs, tp * sp)
    ensures BaseKeys(queries, kvs, sp, tp, s, t) == TensorKeys(kvs, tp * sp, t * sp + s)
  {
    SameCopy(kvs, sp, tp, s, t);
    assert tp * sp >= tp;
    assert s / sp == 0;
  }

  lemma ReplicatedKeys(queries: nat, kvs: nat, sp: nat, tp: nat, s: nat, t: nat)
    requires Admissible(queries, kvs, sp, tp) && s < sp && t < tp && kvs >= tp && kvs / tp < sp
    ensures Splits(kvs, tp * sp)
    ensures BaseKeys(queries, kvs, sp, tp, s, t) == TensorKeys(kvs, tp * sp, t * sp + s)
  {
    SameReplica(kvs, sp, tp, s, t);
    Exact(kvs, tp);
    Less(tp, kvs / tp, sp);
  }

  lemma SlicedKeys(queries: nat, kvs: nat, sp: nat, tp: nat, s: nat, t: nat)
    requires Admissible(queries, kvs, sp, tp) && s < sp && t < tp && kvs >= tp && kvs / tp >= sp
    ensures Splits(kvs, tp * sp)
    ensures BaseKeys(queries, kvs, sp, tp, s, t) == TensorKeys(kvs, tp * sp, t * sp + s)
  {
    Exact(kvs, tp);
    Exact(kvs / tp, sp);
    SliceOfSlice(kvs, tp, sp, kvs / tp / sp);
    SameSlice(kvs, sp, tp, s, t);
    SliceCounts(kvs, sp, tp);
  }

  lemma Less(a: nat, b: nat, c: nat)
    requires a > 0 && b < c
    ensures a * b < a * c
  {
    Bound(a, b, 0, c);
    Commute(a, b);
    Commute(a, c);
  }

  lemma SliceOfSlice(kvs: nat, tp: nat, sp: nat, b: nat)
    requires tp > 0 && sp > 0 && kvs == tp * (sp * b) && kvs > 0
    ensures kvs % (tp * sp) == 0 && kvs >= tp * sp
  {
    Assoc(tp, sp, b);
    NoRest(b, tp * sp);
    assert kvs == Total(b, tp * sp);
    assert b >= 1;
  }

  // ----- Query heads as slices of a row -----

  /** Base mode: of a row of all query heads, the slice of tensor parallel rank t, and of that what the exchange
      gives to sequence parallel rank s. */
  function BaseQueries<V>(queries: nat, kvs: nat, sp: nat, tp: nat, s: nat, t: nat, row: seq<V>): seq<V>
    requires Admissible(queries, kvs, sp, tp) && |row| == queries && s < sp && t < tp
  {
    WholeSlices(queries, tp);
    UlyssesAttention.QuerySlice(LayerHeads(queries, kvs, sp, tp), UlyssesAttention.Slice(row, queries / tp, t, tp), s)
  }

  /** Shift mode: the slice of rank r in the group of all. */
  function ShiftQueries<V>(queries: nat, n: nat, r: nat, row: seq<V>): seq<V>
    requires n > 0 && queries % n == 0 && |row| == queries && r < n
  {
    WholeSlices(queries, n);
    UlyssesAttention.Slice(row, queries / n, r, n)
  }

  lemma WholeSlices(queries: nat, n: nat)
    requires n > 0 && queries % n == 0
    ensures queries == Total(n, queries / n)
  {
    Exact(queries, n);
  }

  /** The heads that base mode gives are those it owns. */
  lemma BaseEntry<V>(queries: nat, kvs: nat, sp: nat, tp: nat, s: nat, t: nat, row: seq<V>, c: nat)
    requires Admissible(queries, kvs, sp, tp) && |row| == queries && s < sp && t < tp
    ensures |BaseQueries(queries, kvs, sp, tp, s, t, row)| == queries / tp / sp
    ensures c < queries / tp / sp ==>
              var m := t * (queries / tp) + s * (queries / tp / sp) + c;
              BaseOwns(queries, sp, tp, s, t, m) && m < queries
              && BaseQueries(queries, kvs, sp, tp, s, t, row)[c] == row[m]
  {
    WholeSlices(queries, tp);
    if c < queries / tp / sp {
      var h, b, d := LayerHeads(queries, kvs, sp, tp), queries / tp, queries / tp / sp;
      WholeSlices(b, sp);
      UlyssesAttention.QueryEntry(h, UlyssesAttention.Slice(row, b, t, tp), s, c);
      Bound(d, s, c, sp);
      UlyssesAttention.SliceEntry(row, b, t, tp, At(d, s, c));
      assert At(b, t, At(d, s, c)) == t * b + s * d + c;
      assert (s + 1) * d == s * d + d;
    }
  }

  lemma ShiftEntry<V>(queries: nat, n: nat, r: nat, row: seq<V>, c: nat)
    requires n > 0 && queries % n == 0 && |row| == queries && r < n
    ensures |ShiftQueries(queries, n, r, row)| == queries / n
    ensures c < queries / n ==>
              var m := r * (queries / n) + c;
              ShiftOwns(queries, n, r, m) && m < queries && ShiftQueries(queries, n, r, row)[c] == row[m]
  {
    WholeSlices(queries, n);
    if c < queries / n {
      UlyssesAttention.SliceEntry(row, queries / n, r, n, c);
      assert (r + 1) * (queries / n) == r * (queries / n) + queries / n;
    }
  }

  lemma SameEntry(queries: nat, sp: nat, tp: nat, s: nat, t: nat, c: nat)
    requires sp > 0 && tp > 0 && queries % (tp * sp) == 0
    ensures tp * sp > 0 && queries / tp / sp == queries / (tp * sp)
    ensures t * (queries / tp) + s * (queries / tp / sp) + c == (t * sp + s) * (queries / (tp * sp)) + c
  {
    SliceCounts(queries, sp, tp);
    Nested(sp, queries / (tp * sp), t, s, c);
  }

  /** Each rank has the same slice of the query heads, in the same order, in both modes. */
  lemma SameQueries<V>(queries: nat, kvs: nat, sp: nat, tp: nat, s: nat, t: nat, row: seq<V>)
    requires Admissible(queries, kvs, sp, tp) && |row| == queries && s < sp && t < tp
    ensures tp * sp > 0 && queries % (tp * sp) == 0 && t * sp + s < tp * sp
    ensures BaseQueries(queries, kvs, sp, tp, s, t, row) == ShiftQueries(queries, tp * sp, t * sp + s, row)
  {
    QueriesSplit(queries, kvs, sp, tp);
    Bound(sp, t, s, tp);
    SameEntry(queries, sp, tp, s, t, 0);
    var d := queries / tp / sp;
    var x, y := BaseQueries(queries, kvs, sp, tp, s, t, row), ShiftQueries(queries, tp * sp, t * sp + s, row);
    BaseEntry(queries, kvs, sp, tp, s, t, row, d);
    ShiftEntry(queries, tp * sp, t * sp + s, row, d);
    hide *;
    forall c | 0 <= c < d ensures x[c] == y[c] {
      BaseEntry(queries, kvs, sp, tp, s, t, row, c);
      ShiftEntry(queries, tp * sp, t * sp + s, row, c);
      SameEntry(queries, sp, tp, s, t, c);
    }
  }

  // ----- Ranks of a layout -----

  /** The key heads of rank r in base mode, from its places in its tensor and sequence parallel groups. */
  function BaseKeysOf(l: Layout, queries: nat, kvs: nat, r: nat): Keys
    requires LayoutOk(l) && Admissible(queries, kvs, l.sp, l.tp)
  {
    BaseKeys(queries, kvs, l.sp, l.tp, PlaceIn(l, SP, r), PlaceIn(l, TP, r))
  }

  /** The key heads of rank r in shift mode, from its place in the group of both. */
  function ShiftKeysOf(l: Layout, kvs: nat, r: nat): Keys
    requires LayoutOk(l) && Splits(kvs, l.tp * l.sp)
  {
    TensorKeys(kvs, l.tp * l.sp, PlaceIn(l, SPTP, r))
  }

  /** Whether rank r has query head m, in either mode. */
  predicate BaseHas(l: Layout, queries: nat, r: nat, m: nat)
    requires LayoutOk(l)
  {
    BaseOwns(queries, l.sp, l.tp, PlaceIn(l, SP, r), PlaceIn(l, TP, r), m)
  }

  predicate ShiftHas(l: Layout, queries: nat, r: nat, m: nat)
    requires LayoutOk(l)
  {
    FamilyDivides(l, SPTP);
    ShiftOwns(queries, l.tp * l.sp, PlaceIn(l, SPTP, r), m)
  }

  /** The query heads of rank r in each mode, of a row of all, from its places in its groups. */
  function BaseQueriesOf<V>(l: Layout, queries: nat, kvs: nat, r: nat, row: seq<V>): seq<V>
    requires LayoutOk(l) && Admissible(queries, kvs, l.sp, l.tp) && |row| == queries
  {
    BaseQueries(queries, kvs, l.sp, l.tp, PlaceIn(l, SP, r), PlaceIn(l, TP, r), row)
  }

  function ShiftQueriesOf<V>(l: Layout, queries: nat, r: nat, row: seq<V>): seq<V>
    requires LayoutOk(l) && l.tp * l.sp > 0 && queries % (l.tp * l.sp) == 0 && |row| == queries
  {
    ShiftQueries(queries, l.tp * l.sp, PlaceIn(l, SPTP, r), row)
  }

  /** Of a row of all query heads each rank has the same ones in both modes, in the same order: those that the
      exchange gives it in base mode. */
  lemma QueriesAgree<V>(l: Layout, queries: nat, kvs: nat, r: nat, row: seq<V>)
    requires LayoutOk(l) && r < World(l) && Admissible(queries, kvs, l.sp, l.tp) && |row| == queries
    ensures l.tp * l.sp > 0 && queries % (l.tp * l.sp) == 0
    ensures BaseQueriesOf(l, queries, kvs, r, row) == ShiftQueriesOf(l, queries, r, row)
  {
    Places(l, r);
    var s, t := PlaceIn(l, SP, r), PlaceIn(l, TP, r);
    hide LayoutOk, PlaceIn, World, Admissible, BaseQueries, ShiftQueries;
    SameQueries(queries, kvs, l.sp, l.tp, s, t, row);
  }

  /** Every rank has the same query heads and the same key heads in both modes, for all head counts that base mode
      accepts; these are counts that shift mode accepts, too. */
  lemma ModesAgree(l: Layout, queries: nat, kvs: nat, r: nat)
    requires LayoutOk(l) && r < World(l) && Admissible(queries, kvs, l.sp, l.tp)
    ensures Splits(kvs, l.tp * l.sp) && queries % (l.tp * l.sp) == 0
    ensures BaseKeysOf(l, queries, kvs, r) == ShiftKeysOf(l, kvs, r)
    ensures forall m: nat :: BaseHas(l, queries, r, m) <==> ShiftHas(l, queries, r, m)
  {
    Places(l, r);
    var s, t := PlaceIn(l, SP, r), PlaceIn(l, TP, r);
    hide LayoutOk, PlaceIn, World;
    SameKeys(queries, kvs, l.sp, l.tp, s, t);
    QueriesSplit(queries, kvs, l.sp, l.tp);
    hide Admissible, Splits, BaseOwns, ShiftOwns;
    forall m: nat ensures BaseOwns(queries, l.sp, l.tp, s, t, m) <==> ShiftOwns(queries, l.tp * l.sp, t * l.sp + s, m) {
      SameHeads(queries, l.sp, l.tp, s, t, m);
    }
  }

  lemma QueriesSplit(queries: nat, kvs: nat, sp: nat, tp: nat)
    requires Admissible(queries, kvs, sp, tp)
    ensures tp * sp > 0 && queries % (tp * sp) == 0
  {
    Exact(queries, tp);
    Exact(queries / tp, sp);
    SliceOfSlice(queries, tp, sp, queries / tp / sp);
  }
}
