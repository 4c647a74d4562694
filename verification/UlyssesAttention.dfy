/**
 Ulysses sequence parallel attention: every rank has some of the tokens and all heads, exchanges
 them for all tokens and some of the heads, attends, and exchanges back.  A head's block of numbers
 is one value of type V, and attention is any function of the tokens of one query head, one key head
 and one value head.
 */
module UlyssesAttention {
  import opened Blocks

  type Row<V> = seq<V>
  type Rows<V> = seq<Row<V>>

  // ----- The exchange -----

  /** all_to_all_single: part j of every rank's rows goes to rank j, which puts the parts in rank order. */
  function AllToAll<V>(bufs: seq<Rows<V>>, me: nat, part: nat): (r: Rows<V>)
    requires me < |bufs| && forall i | 0 <= i < |bufs| :: |bufs[i]| == Total(|bufs|, part)
    ensures |r| == Total(|bufs|, part)
    ensures forall x {:trigger r[x]} | 0 <= x < |r| :: part > 0 && r[x] == Sent(bufs, me, part, x)
  {
    NoneOfNone(|bufs|, part);
    seq(Total(|bufs|, part), x requires 0 <= x < Total(|bufs|, part) && part > 0 => Sent(bufs, me, part, x))
  }

  /** Row x comes from the rank whose part of the rows x is in. */
  function Sent<V>(bufs: seq<Rows<V>>, me: nat, part: nat, x: nat): Row<V>
    requires me < |bufs| && (forall i | 0 <= i < |bufs| :: |bufs[i]| == Total(|bufs|, part))
             && x < Total(|bufs|, part) && part > 0
  {
    Decompose(x, |bufs|, part);
    Bound(part, me, Inside(x, part), |bufs|);
    bufs[Block(x, part)][At(part, me, Inside(x, part))]
  }

  lemma Received<V>(bufs: seq<Rows<V>>, me: nat, part: nat, i: nat, t: nat)
    requires me < |bufs| && (forall i | 0 <= i < |bufs| :: |bufs[i]| == Total(|bufs|, part)) && i < |bufs| && t < part
    ensures At(part, i, t) < Total(|bufs|, part) && At(part, me, t) < Total(|bufs|, part)
    ensures AllToAll(bufs, me, part)[At(part, i, t)] == bufs[i][At(part, me, t)]
  {
    Quotient(part, i, t);
    Bound(part, i, t, |bufs|);
    Bound(part, me, t, |bufs|);
    hide At, Total, Block, Inside;
  }

  // ----- Packing -----

  /** The heads of a layer as one rank of a tensor parallel group has them: query heads, key and value heads,
      and what the sequence parallel ranks make of them. */
  datatype Heads = Heads(sp: nat, queries: nat, kvs: nat)

  /** The head counts are divisible as the layer needs. */
  predicate HeadsOk(h: Heads) {
    && h.sp > 0 && h.queries > 0 && h.kvs > 0 && h.queries % h.sp == 0 && h.queries % h.kvs == 0
    && (if Replicated(h) then h.sp % h.kvs == 0 else h.kvs % h.sp == 0)
  }

  /** Fewer key heads than ranks: each rank gets a copy of one. */
  predicate Replicated(h: Heads) {
    h.kvs < h.sp
  }

  function LocalQueries(h: Heads): nat
    requires h.sp > 0
  {
    h.queries / h.sp
  }

  function LocalKvs(h: Heads): nat
    requires h.sp > 0
  {
    if Replicated(h) then 1 else h.kvs / h.sp
  }

  function Replication(h: Heads): nat
    requires h.kvs > 0
  {
    h.sp / h.kvs
  }

  /** The key or value heads that rank j gets of a token. */
  function KvSlice<V>(h: Heads, row: Row<V>, j: nat): (r: Row<V>)
    requires HeadsOk(h) && |row| == h.kvs && j < h.sp
    ensures |r| == LocalKvs(h)
  {
    if Replicated(h) then
      ReplicaBound(h, j);
      [row[Block(j, Replication(h))]]
    else
      Exact(h.kvs, h.sp);
      Slice(row, LocalKvs(h), j, h.sp)
  }

  /** Slice j of a row cut into n slices of b. */
  function Slice<V>(row: Row<V>, b: nat, j: nat, n: nat): (r: Row<V>)
    requires |row| == Total(n, b) && j < n
    ensures |r| == b && forall c | 0 <= c < b :: At(b, j, c) < |row| && r[c] == row[At(b, j, c)]
  {
    SliceBound(n, b, j);
    row[At(b, j, 0)..At(b, j, b)]
  }

  lemma SliceBound(n: nat, b: nat, j: nat)
    requires j < n
    ensures At(b, j, 0) + b == At(b, j, b) <= Total(n, b)
    ensures forall c: nat | c < b :: At(b, j, c) == At(b, j, 0) + c
  {
    Distribute(j + 1, n - j - 1, b);
    Distribute(j, 1, b);
    assert (n - j - 1) * b >= 0;
  }

  lemma ReplicaBound(h: Heads, j: nat)
    requires HeadsOk(h) && Replicated(h) && j < h.sp
    ensures Replication(h) > 0 && Block(j, Replication(h)) < h.kvs
  {
    Exact(h.sp, h.kvs);
    Decompose(j, h.kvs, Replication(h));
  }

  function QuerySlice<V>(h: Heads, row: Row<V>, j: nat): (r: Row<V>)
    requires HeadsOk(h) && |row| == h.queries && j < h.sp
    ensures |r| == LocalQueries(h)
  {
    Exact(h.queries, h.sp);
    Slice(row, LocalQueries(h), j, h.sp)
  }

  ghost predicate TensorOk<V>(x: Rows<V>, rows: nat, width: nat) {
    |x| == rows && forall t | 0 <= t < rows :: |x[t]| == width
  }

  /** A rank's part of the batch: some tokens with all heads of query, key and value. */
  datatype Part<V> = Part(q: Rows<V>, k: Rows<V>, v: Rows<V>)

  ghost predicate PartOk<V>(h: Heads, p: Part<V>, n: nat) {
    TensorOk(p.q, n, h.queries) && TensorOk(p.k, n, h.kvs) && TensorOk(p.v, n, h.kvs)
  }

  /** One packed row: the slices for rank j of the query, key and value of token t. */
  function PackedRow<V>(h: Heads, p: Part<V>, t: nat, j: nat): (r: Row<V>)
    requires HeadsOk(h) && PartOk(h, p, |p.q|) && t < |p.q| && j < h.sp
    ensures |r| == LocalQueries(h) + 2 * LocalKvs(h)
  {
    QuerySlice(h, p.q[t], j) + KvSlice(h, p.k[t], j) + KvSlice(h, p.v[t], j)
  }

  /** The rows to send, those for one rank together. */
  function Pack<V>(h: Heads, p: Part<V>, n: nat): (r: Rows<V>)
    requires HeadsOk(h) && PartOk(h, p, n)
    ensures |r| == Total(h.sp, n)
    ensures forall x {:trigger r[x]} | 0 <= x < |r| ::
              n > 0 && Block(x, n) < h.sp && r[x] == PackedRow(h, p, Inside(x, n), Block(x, n))
  {
    forall x: nat | x < Total(h.sp, n) ensures n > 0 && Block(x, n) < h.sp {
      Decompose(x, h.sp, n);
    }
    seq(Total(h.sp, n), x requires 0 <= x < Total(h.sp, n) && n > 0 && Block(x, n) < h.sp =>
      PackedRow(h, p, Inside(x, n), Block(x, n)))
  }

  // ----- Attention -----

  /** The heads of all tokens in one column. */
  function Column<V>(x: Rows<V>, c: nat): (s: seq<V>)
    requires forall t | 0 <= t < |x| :: c < |x[t]|
    ensures |s| == |x| && forall t | 0 <= t < |x| :: s[t] == x[t][c]
  {
    seq(|x|, t requires 0 <= t < |x| => x[t][c])
  }

  /** Attention at token t, given all tokens of its query head and of the key and value heads paired with it. */
  type Attention<!V> = (seq<V>, seq<V>, seq<V>, nat) -> V

  /** The key head that query head m of so many uses, when consecutive query heads share one. */
  function PairedKv(queries: nat, kvs: nat, m: nat): nat
    requires kvs > 0 && queries >= kvs
  {
    DivPositive(queries, kvs);
    Block(m, queries / kvs)
  }

  /** Of kvs groups of n query heads, all of group c use key head c. */
  lemma PairIs(n: nat, kvs: nat, c: nat, i: nat)
    requires c < kvs && i < n
    ensures Total(kvs, n) >= kvs && PairedKv(Total(kvs, n), kvs, At(n, c, i)) == c
  {
    Divided(Total(kvs, n), kvs, n);
    TotalAtLeast(kvs, n);
    hide At, Total, Block;
    Quotient(n, c, i);
    PairBlock(Total(kvs, n), kvs, n, At(n, c, i));
  }

  lemma PairBlock(queries: nat, kvs: nat, n: nat, m: nat)
    requires kvs > 0 && queries >= kvs && queries / kvs == n
    ensures n > 0 && PairedKv(queries, kvs, m) == Block(m, n)
  {
    DivPositive(queries, kvs);
    hide Block;
  }

  lemma DivPositive(x: nat, y: nat)
    requires y > 0 && x >= y
    ensures x / y > 0
  {
  }

  /** Attention without sequence parallelism, over all tokens and all heads. */
  function Reference<V>(att: Attention<V>, h: Heads, q: Rows<V>, k: Rows<V>, v: Rows<V>, x: nat, m: nat): V
    requires HeadsOk(h) && TensorOk(q, |q|, h.queries) && TensorOk(k, |q|, h.kvs) && TensorOk(v, |q|, h.kvs)
             && m < h.queries
  {
    PairedBound(h, m);
    var c := PairedKv(h.queries, h.kvs, m);
    att(Column(q, m), Column(k, c), Column(v, c), x)
  }

  lemma PairedBound(h: Heads, m: nat)
    requires HeadsOk(h) && m < h.queries
    ensures h.queries >= h.kvs && PairedKv(h.queries, h.kvs, m) < h.kvs
  {
    AtLeast(h);
    Exact(h.queries, h.kvs);
    Decompose(m, h.kvs, h.queries / h.kvs);
  }

  lemma AtLeast(h: Heads)
    requires HeadsOk(h)
    ensures h.queries >= h.kvs > 0 && h.queries / h.kvs > 0 && h.queries >= h.sp && LocalQueries(h) > 0
  {
    MultipleAtLeast(h.queries, h.kvs);
    MultipleAtLeast(h.queries, h.sp);
  }

  lemma MultipleAtLeast(n: nat, d: nat)
    requires n > 0 && d > 0 && n % d == 0
    ensures n >= d && n / d > 0
  {
    Exact(n, d);
    var q := n / d;
    assert q == 0 ==> d * q == 0;
    assert q > 0 ==> d * (q - 1) >= 0;
  }

  lemma CommonFactor(total: nat, a: nat, x: nat, b: nat, y: nat, c: nat)
    requires total == Total(a, x) == Total(b, y) && a == Total(b, c) && b > 0
    ensures y == Total(c, x)
  {
    Assoc(b, c, x);
    SameFactor(b, y, c * x);
  }

  /** The head counts of a rank after the exchange. */
  lemma LocalCounts(h: Heads)
    requires HeadsOk(h)
    ensures LocalQueries(h) >= LocalKvs(h) > 0
    ensures h.queries == Total(h.sp, LocalQueries(h)) && h.queries / h.kvs > 0
    ensures !Replicated(h) ==>
              h.kvs == Total(h.sp, LocalKvs(h)) && LocalQueries(h) == Total(LocalKvs(h), h.queries / h.kvs)
    ensures Replicated(h) ==> h.queries / h.kvs == Total(Replication(h), LocalQueries(h)) && Replication(h) > 0
  {
    var lq, lk, g := LocalQueries(h), LocalKvs(h), h.queries / h.kvs;
    AtLeast(h);
    Exact(h.queries, h.sp);
    Exact(h.queries, h.kvs);
    if Replicated(h) {
      Exact(h.sp, h.kvs);
      CommonFactor(h.queries, h.sp, lq, h.kvs, g, Replication(h));
      DivPositive(h.sp, h.kvs);
    } else {
      Exact(h.kvs, h.sp);
      CommonFactor(h.queries, h.kvs, g, h.sp, lq, lk);
      MultipleAtLeast(h.kvs, h.sp);
      TotalAtLeast(lk, g);
    }
  }

  lemma TotalAtLeast(n: nat, b: nat)
    requires b > 0
    ensures Total(n, b) >= n
  {
    assert n * (b - 1) >= 0;
  }

  /** The column of the whole key tensor that local key head c of rank j is. */
  function KvIndex(h: Heads, j: nat, c: nat): nat
    requires HeadsOk(h)
  {
    if Replicated(h) then DivPositive(h.sp, h.kvs); Block(j, Replication(h)) else At(LocalKvs(h), j, c)
  }

  /** Every query head meets the key head it is paired with. */
  lemma PairingKept(h: Heads, j: nat, l: nat)
    requires HeadsOk(h) && j < h.sp && l < LocalQueries(h)
    ensures LocalQueries(h) >= LocalKvs(h) > 0 && h.queries >= h.kvs
    ensures PairedKv(LocalQueries(h), LocalKvs(h), l) < LocalKvs(h)
    ensures KvIndex(h, j, PairedKv(LocalQueries(h), LocalKvs(h), l)) ==
              PairedKv(h.queries, h.kvs, At(LocalQueries(h), j, l))
  {
    LocalCounts(h);
    AtLeast(h);
    var lq, lk, g := LocalQueries(h), LocalKvs(h), h.queries / h.kvs;
    hide HeadsOk, LocalQueries, Block, At, Total;
    if Replicated(h) {
      ReplicaPair(j, l, lq, Replication(h), g);
    } else {
      PlainPair(j, l, lq, lk, g);
    }
  }

  lemma ReplicaPair(j: nat, l: nat, lq: nat, f: nat, g: nat)
    requires l < lq && f > 0 && g == Total(f, lq) > 0
    ensures lq / 1 == lq && Block(l, lq) == 0 && Block(At(lq, j, l), g) == Block(j, f)
  {
    Zero(lq, l);
    hide At, Total, Block, Inside;
    var d, r := Block(j, f), Inside(j, f);
    Parts(j, f);
    Nested(f, lq, d, r, l);
    Bound(lq, r, l, f);
    Quotient(g, d, At(lq, r, l));
    Quotient(lq, 0, l);
  }

  lemma Zero(b: nat, r: nat)
    ensures At(b, 0, r) == r
  {
  }

  lemma PlainPair(j: nat, l: nat, lq: nat, lk: nat, g: nat)
    requires g > 0 && lk > 0 && l < lq == Total(lk, g)
    ensures lq / lk == g && Block(l, g) < lk && Block(At(lq, j, l), g) == At(lk, j, Block(l, g))
  {
    GroupSize(lk, g);
    hide At, Total, Block, Inside;
    var c, r := Block(l, g), Inside(l, g);
    Decompose(l, lk, g);
    Nested(lk, g, j, c, r);
    Quotient(g, At(lk, j, c), r);
  }

  lemma GroupSize(lk: nat, g: nat)
    requires lk > 0
    ensures Total(lk, g) / lk == g
  {
    Quotient(lk, g, 0);
  }

  /** The attention of one rank over the packed rows it received. */
  function LocalAttend<V>(att: Attention<V>, h: Heads, rows: Rows<V>): (r: Rows<V>)
    requires HeadsOk(h) && TensorOk(rows, |rows|, LocalQueries(h) + 2 * LocalKvs(h))
    ensures TensorOk(r, |rows|, LocalQueries(h))
    ensures forall x, l {:trigger r[x][l]} | 0 <= x < |rows| && 0 <= l < LocalQueries(h) ::
              r[x][l] == LocalHead(att, h, rows, x, l)
  {
    seq(|rows|, x requires 0 <= x < |rows| =>
      seq(LocalQueries(h), l requires 0 <= l < LocalQueries(h) => LocalHead(att, h, rows, x, l)))
  }

  function LocalHead<V>(att: Attention<V>, h: Heads, rows: Rows<V>, x: nat, l: nat): V
    requires HeadsOk(h) && TensorOk(rows, |rows|, LocalQueries(h) + 2 * LocalKvs(h)) && l < LocalQueries(h)
  {
    LocalCounts(h);
    PairingKept(h, 0, l);
    var lq, lk := LocalQueries(h), LocalKvs(h);
    var c := PairedKv(lq, lk, l);
    att(Column(rows, l), Column(rows, lq + c), Column(rows, lq + lk + c), x)
  }

  // ----- All ranks together -----

  ghost predicate PartsOk<V>(h: Heads, parts: seq<Part<V>>, n: nat) {
    HeadsOk(h) && |parts| == h.sp && forall i {:trigger parts[i]} | 0 <= i < |parts| :: PartOk(h, parts[i], n)
  }

  /** The tokens of the whole batch, those of the first rank first. */
  function Whole<V>(xs: seq<Rows<V>>, n: nat): (r: Rows<V>)
    requires forall i | 0 <= i < |xs| :: |xs[i]| == n
    ensures |r| == Total(|xs|, n)
    ensures forall x {:trigger r[x]} | 0 <= x < |r| ::
              n > 0 && Block(x, n) < |xs| && r[x] == xs[Block(x, n)][Inside(x, n)]
  {
    forall x: nat | x < Total(|xs|, n) ensures n > 0 && Block(x, n) < |xs| {
      Decompose(x, |xs|, n);
    }
    seq(Total(|xs|, n), x requires 0 <= x < Total(|xs|, n) && n > 0 && Block(x, n) < |xs| =>
      xs[Block(x, n)][Inside(x, n)])
  }

  function Queries<V>(parts: seq<Part<V>>): (r: seq<Rows<V>>)
    ensures |r| == |parts| && forall i | 0 <= i < |parts| :: r[i] == parts[i].q
  {
    seq(|parts|, i requires 0 <= i < |parts| => parts[i].q)
  }

  function Keys<V>(parts: seq<Part<V>>): (r: seq<Rows<V>>)
    ensures |r| == |parts| && forall i | 0 <= i < |parts| :: r[i] == parts[i].k
  {
    seq(|parts|, i requires 0 <= i < |parts| => parts[i].k)
  }

  function Values<V>(parts: seq<Part<V>>): (r: seq<Rows<V>>)
    ensures |r| == |parts| && forall i | 0 <= i < |parts| :: r[i] == parts[i].v
  {
    seq(|parts|, i requires 0 <= i < |parts| => parts[i].v)
  }

  function Packed<V>(h: Heads, parts: seq<Part<V>>, n: nat): (r: seq<Rows<V>>)
    requires PartsOk(h, parts, n)
    ensures |r| == h.sp && forall i | 0 <= i < h.sp :: r[i] == Pack(h, parts[i], n)
  {
    seq(|parts|, i requires 0 <= i < |parts| => Pack(h, parts[i], n))
  }

  /** What rank j has after the first exchange. */
  function Exchanged<V>(h: Heads, parts: seq<Part<V>>, n: nat, j: nat): (r: Rows<V>)
    requires PartsOk(h, parts, n) && j < h.sp
    ensures |r| == Total(h.sp, n)
  {
    AllToAll(Packed(h, parts, n), j, n)
  }

  /** Row x there is the slice for rank j of token x of the whole batch. */
  lemma ExchangedRow<V>(h: Heads, parts: seq<Part<V>>, n: nat, j: nat, x: nat)
    requires PartsOk(h, parts, n) && j < h.sp && x < Total(h.sp, n)
    ensures n > 0 && Block(x, n) < h.sp && PartOk(h, parts[Block(x, n)], n)
    ensures Exchanged(h, parts, n, j)[x] == PackedRow(h, parts[Block(x, n)], Inside(x, n), j)
  {
    Decompose(x, h.sp, n);
    hide At, Total, Block, Inside, HeadsOk, PackedRow;
    var i, t := Block(x, n), Inside(x, n);
    Quotient(n, j, t);
    Bound(n, j, t, h.sp);
    assert Packed(h, parts, n)[i][At(n, j, t)] == PackedRow(h, parts[i], t, j);
    Received(Packed(h, parts, n), j, n, i, t);
  }

  lemma QueryEntry<V>(h: Heads, row: Row<V>, j: nat, l: nat)
    requires HeadsOk(h) && |row| == h.queries && j < h.sp && l < LocalQueries(h)
    ensures At(LocalQueries(h), j, l) < h.queries && QuerySlice(h, row, j)[l] == row[At(LocalQueries(h), j, l)]
  {
    Exact(h.queries, h.sp);
    hide At, Total, Slice;
    SliceEntry(row, LocalQueries(h), j, h.sp, l);
  }

  lemma SliceEntry<V>(row: Row<V>, b: nat, j: nat, n: nat, c: nat)
    requires |row| == Total(n, b) && j < n && c < b
    ensures At(b, j, c) < |row| && Slice(row, b, j, n)[c] == row[At(b, j, c)]
  {
    Bound(b, j, c, n);
    hide At, Total;
  }

  lemma KvEntry<V>(h: Heads, row: Row<V>, j: nat, c: nat)
    requires HeadsOk(h) && |row| == h.kvs && j < h.sp && c < LocalKvs(h)
    ensures KvIndex(h, j, c) < h.kvs && KvSlice(h, row, j)[c] == row[KvIndex(h, j, c)]
  {
    hide At, Total, Slice, Block;
    if Replicated(h) {
      ReplicaBound(h, j);
    } else {
      Exact(h.kvs, h.sp);
      SliceEntry(row, LocalKvs(h), j, h.sp, c);
    }
  }

  lemma ColumnBounds(h: Heads, j: nat, l: nat, c: nat)
    requires HeadsOk(h) && j < h.sp && l < LocalQueries(h) && c < LocalKvs(h)
    ensures At(LocalQueries(h), j, l) < h.queries && KvIndex(h, j, c) < h.kvs
  {
    LocalCounts(h);
    hide At, Total, Block;
    Bound(LocalQueries(h), j, l, h.sp);
    if Replicated(h) {
      ReplicaBound(h, j);
    } else {
      Bound(LocalKvs(h), j, c, h.sp);
    }
  }

  /** The entries after the exchange are entries of the whole batch. */
  lemma ExchangedEntry<V>(h: Heads, parts: seq<Part<V>>, n: nat, j: nat, l: nat, c: nat, x: nat)
    requires PartsOk(h, parts, n) && j < h.sp && l < LocalQueries(h) && c < LocalKvs(h) && x < Total(h.sp, n)
    requires At(LocalQueries(h), j, l) < h.queries && KvIndex(h, j, c) < h.kvs
    ensures var e, lq, lk := Exchanged(h, parts, n, j), LocalQueries(h), LocalKvs(h);
            var q, k, v := Whole(Queries(parts), n), Whole(Keys(parts), n), Whole(Values(parts), n);
            && |e[x]| == lq + 2 * lk && |q[x]| == h.queries && |k[x]| == |v[x]| == h.kvs
            && e[x][l] == q[x][At(lq, j, l)] && e[x][lq + c] == k[x][KvIndex(h, j, c)]
            && e[x][lq + lk + c] == v[x][KvIndex(h, j, c)]
  {
    hide At, Total, Block, Inside, HeadsOk, LocalQueries, LocalKvs, KvIndex, Exchanged, QuerySlice, KvSlice;
    ExchangedRow(h, parts, n, j, x);
    var p, t := parts[Block(x, n)], Inside(x, n);
    RowLengths(h, p, t, j);
    QueryEntry(h, p.q[t], j, l);
    KvEntry(h, p.k[t], j, c);
    KvEntry(h, p.v[t], j, c);
  }

  lemma RowLengths<V>(h: Heads, p: Part<V>, t: nat, j: nat)
    requires HeadsOk(h) && PartOk(h, p, |p.q|) && t < |p.q| && j < h.sp
    ensures |QuerySlice(h, p.q[t], j)| == LocalQueries(h)
            && |KvSlice(h, p.k[t], j)| == |KvSlice(h, p.v[t], j)| == LocalKvs(h)
  {
  }

  /** The columns after the exchange are columns of the whole batch. */
  lemma ExchangedColumns<V>(h: Heads, parts: seq<Part<V>>, n: nat, j: nat, l: nat, c: nat)
    requires PartsOk(h, parts, n) && j < h.sp && l < LocalQueries(h) && c < LocalKvs(h)
    ensures var e, lq, lk := Exchanged(h, parts, n, j), LocalQueries(h), LocalKvs(h);
            && TensorOk(e, Total(h.sp, n), lq + 2 * lk) && At(lq, j, l) < h.queries && KvIndex(h, j, c) < h.kvs
            && TensorOk(Whole(Queries(parts), n), Total(h.sp, n), h.queries)
            && TensorOk(Whole(Keys(parts), n), Total(h.sp, n), h.kvs)
            && TensorOk(Whole(Values(parts), n), Total(h.sp, n), h.kvs)
            && Column(e, l) == Column(Whole(Queries(parts), n), At(lq, j, l))
            && Column(e, lq + c) == Column(Whole(Keys(parts), n), KvIndex(h, j, c))
            && Column(e, lq + lk + c) == Column(Whole(Values(parts), n), KvIndex(h, j, c))
  {
    var e, lq, lk := Exchanged(h, parts, n, j), LocalQueries(h), LocalKvs(h);
    var q, k, v := Whole(Queries(parts), n), Whole(Keys(parts), n), Whole(Values(parts), n);
    ColumnBounds(h, j, l, c);
    forall x: nat | x < Total(h.sp, n)
      ensures |e[x]| == lq + 2 * lk && |q[x]| == h.queries && |k[x]| == |v[x]| == h.kvs
      ensures e[x][l] == q[x][At(lq, j, l)] && e[x][lq + c] == k[x][KvIndex(h, j, c)]
              && e[x][lq + lk + c] == v[x][KvIndex(h, j, c)]
    {
      ExchangedEntry(h, parts, n, j, l, c, x);
    }
  }

  // ----- The result -----

  /** Rank j's attention for token x and its head l is that of the whole batch for the head it stands for. */
  lemma LocalIsReference<V>(att: Attention<V>, h: Heads, parts: seq<Part<V>>, n: nat, j: nat, x: nat, l: nat)
    requires PartsOk(h, parts, n) && j < h.sp && x < Total(h.sp, n) && l < LocalQueries(h)
    ensures var q, k, v := Whole(Queries(parts), n), Whole(Keys(parts), n), Whole(Values(parts), n);
            && TensorOk(Exchanged(h, parts, n, j), Total(h.sp, n), LocalQueries(h) + 2 * LocalKvs(h))
            && TensorOk(q, Total(h.sp, n), h.queries) && TensorOk(k, Total(h.sp, n), h.kvs)
            && TensorOk(v, Total(h.sp, n), h.kvs)
            && At(LocalQueries(h), j, l) < h.queries
            && LocalHead(att, h, Exchanged(h, parts, n, j), x, l) ==
                 Reference(att, h, q, k, v, x, At(LocalQueries(h), j, l))
  {
    PairingKept(h, j, l);
    ExchangedColumns(h, parts, n, j, l, PairedKv(LocalQueries(h), LocalKvs(h), l));
  }

  /** What rank j sends back: the attention of its heads for all tokens. */
  function Attended<V>(att: Attention<V>, h: Heads, parts: seq<Part<V>>, n: nat, j: nat): (r: Rows<V>)
    requires PartsOk(h, parts, n) && j < h.sp
    ensures TensorOk(r, Total(h.sp, n), LocalQueries(h))
  {
    ExchangedShape(h, parts, n, j);
    LocalAttend(att, h, Exchanged(h, parts, n, j))
  }

  lemma ExchangedShape<V>(h: Heads, parts: seq<Part<V>>, n: nat, j: nat)
    requires PartsOk(h, parts, n) && j < h.sp
    ensures TensorOk(Exchanged(h, parts, n, j), Total(h.sp, n), LocalQueries(h) + 2 * LocalKvs(h))
  {
    LocalCounts(h);
    ExchangedColumns(h, parts, n, j, 0, 0);
  }

  function AllAttended<V>(att: Attention<V>, h: Heads, parts: seq<Part<V>>, n: nat): (r: seq<Rows<V>>)
    requires PartsOk(h, parts, n)
    ensures |r| == h.sp && forall j | 0 <= j < h.sp :: r[j] == Attended(att, h, parts, n, j)
  {
    seq(h.sp, j requires 0 <= j < h.sp => Attended(att, h, parts, n, j))
  }

  /** The second exchange, and the heads of each token side by side. */
  function Output<V>(att: Attention<V>, h: Heads, parts: seq<Part<V>>, n: nat, me: nat): (r: Rows<V>)
    requires PartsOk(h, parts, n) && me < h.sp
    ensures |r| == n && forall t | 0 <= t < n :: r[t] == OutputRow(att, h, parts, n, me, t)
  {
    seq(n, t requires 0 <= t < n => OutputRow(att, h, parts, n, me, t))
  }

  function OutputRow<V>(att: Attention<V>, h: Heads, parts: seq<Part<V>>, n: nat, me: nat, t: nat): (r: Row<V>)
    requires PartsOk(h, parts, n) && me < h.sp && t < n
    ensures |r| == Total(h.sp, LocalQueries(h))
    ensures forall m {:trigger r[m]} | 0 <= m < |r| :: r[m] == OutputHead(att, h, parts, n, me, t, m)
  {
    seq(Total(h.sp, LocalQueries(h)),
        m requires 0 <= m < Total(h.sp, LocalQueries(h)) => OutputHead(att, h, parts, n, me, t, m))
  }

  /** Head m of token t: from the rows of the rank that has the head. */
  function OutputHead<V>(att: Attention<V>, h: Heads, parts: seq<Part<V>>, n: nat, me: nat, t: nat, m: nat): V
    requires PartsOk(h, parts, n) && me < h.sp && t < n && m < Total(h.sp, LocalQueries(h))
  {
    Decompose(m, h.sp, LocalQueries(h));
    ReturnedRow(att, h, parts, n, me, Block(m, LocalQueries(h)), t);
    var rows := AllToAll(AllAttended(att, h, parts, n), me, n);
    rows[At(n, Block(m, LocalQueries(h)), t)][Inside(m, LocalQueries(h))]
  }

  lemma ReturnedRow<V>(att: Attention<V>, h: Heads, parts: seq<Part<V>>, n: nat, me: nat, j: nat, t: nat)
    requires PartsOk(h, parts, n) && me < h.sp && j < h.sp && t < n
    ensures At(n, j, t) < Total(h.sp, n) && At(n, me, t) < Total(h.sp, n)
    ensures AllToAll(AllAttended(att, h, parts, n), me, n)[At(n, j, t)] == Attended(att, h, parts, n, j)[At(n, me, t)]
    ensures |Attended(att, h, parts, n, j)[At(n, me, t)]| == LocalQueries(h)
  {
    Bound(n, me, t, h.sp);
    Received(AllAttended(att, h, parts, n), me, n, j, t);
  }

  /** Every rank gets, for each of its tokens and every head, what attention without sequence parallelism over
      the whole batch gives, with each query head paired with its own key head. */
  lemma UlyssesIsAttention<V>(att: Attention<V>, h: Heads, parts: seq<Part<V>>, n: nat, me: nat, t: nat, m: nat)
    requires PartsOk(h, parts, n) && me < h.sp && t < n && m < h.queries
    ensures var q, k, v := Whole(Queries(parts), n), Whole(Keys(parts), n), Whole(Values(parts), n);
            && TensorOk(q, Total(h.sp, n), h.queries) && TensorOk(k, Total(h.sp, n), h.kvs)
            && TensorOk(v, Total(h.sp, n), h.kvs)
            && m < |Output(att, h, parts, n, me)[t]| == h.queries
            && Output(att, h, parts, n, me)[t][m] == Reference(att, h, q, k, v, At(n, me, t), m)
  {
    LocalCounts(h);
    var lq := LocalQueries(h);
    Decompose(m, h.sp, lq);
    hide At, Total, Block, Inside, Reference, Attended;
    var j, l := Block(m, lq), Inside(m, lq);
    ReturnedRow(att, h, parts, n, me, j, t);
    LocalIsReference(att, h, parts, n, j, At(n, me, t), l);
    AttendedAt(att, h, parts, n, j, At(n, me, t), l);
  }

  lemma AttendedAt<V>(att: Attention<V>, h: Heads, parts: seq<Part<V>>, n: nat, j: nat, x: nat, l: nat)
    requires PartsOk(h, parts, n) && j < h.sp && x < Total(h.sp, n) && l < LocalQueries(h)
    ensures TensorOk(Exchanged(h, parts, n, j), Total(h.sp, n), LocalQueries(h) + 2 * LocalKvs(h))
    ensures Attended(att, h, parts, n, j)[x][l] == LocalHead(att, h, Exchanged(h, parts, n, j), x, l)
  {
    ExchangedShape(h, parts, n, j);
  }
}
