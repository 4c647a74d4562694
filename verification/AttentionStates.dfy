/**
 Attention of one query over key slots, as partial results that can be merged.  The weight of a
 slot for a query is any positive function (the exponential of the scaled score) and the value
 of a slot any real (one component of the value vector).
 */
module AttentionStates {
  import opened Blocks

  /** A normalised output and the total weight it is normalised by, whose logarithm the kernel returns. */
  datatype State = State(out: real, weight: real)

  type Slots = seq<int>

  /** The contents of the caches, as seen by queries of type Q. */
  datatype Cache<!Q> = Cache(weight: (Q, int) -> real, value: int -> real)

  function Weight<Q>(c: Cache<Q>, q: Q, k: int): real {
    c.weight(q, k)
  }

  ghost predicate Positive<Q(!new)>(c: Cache<Q>) {
    forall q, k :: Weight(c, q, k) > 0.0
  }

  function TotalWeight<Q>(c: Cache<Q>, q: Q, slots: Slots): real {
    if slots == [] then 0.0 else TotalWeight(c, q, slots[..|slots| - 1]) + Weight(c, q, slots[|slots| - 1])
  }

  function TotalValue<Q>(c: Cache<Q>, q: Q, slots: Slots): real {
    if slots == [] then 0.0
    else TotalValue(c, q, slots[..|slots| - 1]) + Weight(c, q, slots[|slots| - 1]) * c.value(slots[|slots| - 1])
  }

  /** Attention over the slots; nothing, with no weight, when there are none. */
  function Attend<Q>(c: Cache<Q>, q: Q, slots: Slots): State {
    var weight := TotalWeight(c, q, slots);
    if weight == 0.0 then State(0.0, 0.0) else State(TotalValue(c, q, slots) / weight, weight)
  }

  /** merge_attn_states: the average of the outputs by their weights. */
  function Merge(a: State, b: State): State {
    var weight := a.weight + b.weight;
    if weight == 0.0 then State(0.0, 0.0) else State((a.out * a.weight + b.out * b.weight) / weight, weight)
  }

  lemma {:induction false} WeightPositive<Q(!new)>(c: Cache<Q>, q: Q, slots: Slots)
    requires Positive(c)
    ensures TotalWeight(c, q, slots) >= 0.0 && (TotalWeight(c, q, slots) == 0.0 <==> slots == [])
  {
    if slots != [] {
      assert Weight(c, q, slots[|slots| - 1]) > 0.0;
      WeightPositive(c, q, slots[..|slots| - 1]);
    }
  }

  lemma {:induction false} TotalsAdd<Q>(c: Cache<Q>, q: Q, x: Slots, y: Slots)
    ensures TotalWeight(c, q, x + y) == TotalWeight(c, q, x) + TotalWeight(c, q, y)
    ensures TotalValue(c, q, x + y) == TotalValue(c, q, x) + TotalValue(c, q, y)
  {
    if y == [] {
      assert x + y == x;
    } else {
      TotalsAdd(c, q, x, y[..|y| - 1]);
      assert (x + y)[..|x + y| - 1] == x + y[..|y| - 1];
    }
  }

  lemma Unnormalised<Q(!new)>(c: Cache<Q>, q: Q, slots: Slots)
    requires Positive(c)
    ensures var s := Attend(c, q, slots);
            s.weight == TotalWeight(c, q, slots) && s.out * s.weight == TotalValue(c, q, slots)
  {
    WeightPositive(c, q, slots);
    var v, w := TotalValue(c, q, slots), TotalWeight(c, q, slots);
    if w != 0.0 {
      assert v / w * w == v;
    }
  }

  /** Attending to two lists of slots and merging is attending to all of them, each once. */
  lemma AttendSplits<Q(!new)>(c: Cache<Q>, q: Q, x: Slots, y: Slots)
    requires Positive(c)
    ensures Attend(c, q, x + y) == Merge(Attend(c, q, x), Attend(c, q, y))
  {
    TotalsAdd(c, q, x, y);
    Unnormalised(c, q, x);
    Unnormalised(c, q, y);
  }

  /** One more slot: its weight is added to the total, and its value enters the average with that weight. */
  lemma AttendMore<Q(!new)>(c: Cache<Q>, q: Q, slots: Slots, k: int)
    requires Positive(c)
    ensures Attend(c, q, []) == State(0.0, 0.0)
    ensures var s, t := Attend(c, q, slots), Attend(c, q, slots + [k]);
            && t.weight == s.weight + c.weight(q, k) > 0.0
            && t.out * t.weight == s.out * s.weight + c.value(k) * c.weight(q, k)
  {
    assert (slots + [k])[..|slots|] == slots && (slots + [k])[|slots|] == k;
    WeightPositive(c, q, slots);
    assert Weight(c, q, k) > 0.0;
    Unnormalised(c, q, slots);
    Unnormalised(c, q, slots + [k]);
  }

  // ----- Paged caches -----

  /** The slot of key position k, found through a row of the block table. */
  function SlotOf(row: seq<int>, blockSize: nat, k: nat): int
    requires blockSize > 0 && k / blockSize < |row|
  {
    row[k / blockSize] * blockSize + k % blockSize
  }

  /** Place j of the block with number i is the same place of the block that the row has there. */
  lemma SlotIs(row: seq<int>, blockSize: nat, i: nat, j: nat)
    requires i < |row| && j < blockSize
    ensures (i * blockSize + j) / blockSize == i
    ensures SlotOf(row, blockSize, i * blockSize + j) == row[i] * blockSize + j
  {
    Quotient(blockSize, i, j);
    assert Block(At(blockSize, i, j), blockSize) == (i * blockSize + j) / blockSize;
    assert Inside(At(blockSize, i, j), blockSize) == (i * blockSize + j) % blockSize;
  }

  ghost predicate Covers(row: seq<int>, blockSize: nat, n: int) {
    blockSize > 0 && n <= |row| * blockSize
  }

  /** Row s of the table has room for its tokens. */
  ghost predicate RowHolds(table: seq<seq<int>>, lens: seq<int>, blockSize: nat, s: int) {
    0 <= s < |table| == |lens| ==> lens[s] >= 0 && Covers(table[s], blockSize, lens[s])
  }

  lemma InRow(row: seq<int>, blockSize: nat, n: int, k: nat)
    requires Covers(row, blockSize, n) && k < n
    ensures k / blockSize < |row|
  {
    var d := k / blockSize;
    assert k >= blockSize * d;
    assert d >= |row| ==> blockSize * d >= blockSize * |row|;
  }

  /** The slots of the first n positions. */
  function FirstSlots(row: seq<int>, blockSize: nat, n: nat): (s: Slots)
    requires Covers(row, blockSize, n)
    ensures |s| == n
    ensures forall k | 0 <= k < n :: k / blockSize < |row| && s[k] == SlotOf(row, blockSize, k)
  {
    forall k | 0 <= k < n ensures k / blockSize < |row| {
      InRow(row, blockSize, n, k);
    }
    seq(n, k requires 0 <= k < n && k / blockSize < |row| => SlotOf(row, blockSize, k))
  }

  /** The head row has the first m blocks of the row, the rest row those after, as far as they hold n positions. */
  ghost predicate Cut(row: seq<int>, head: seq<int>, rest: seq<int>, blockSize: nat, m: nat, n: nat) {
    && blockSize > 0 && m <= |head| && m <= |row| && head[..m] == row[..m]
    && forall j {:trigger rest[j]} | 0 <= j < |rest| && m + j < |row| && j * blockSize < n :: rest[j] == row[m + j]
  }

  lemma HeadSlot(row: seq<int>, head: seq<int>, rest: seq<int>, blockSize: nat, m: nat, n: nat, k: nat)
    requires Cut(row, head, rest, blockSize, m, n) && k < m * blockSize
    ensures k / blockSize < m && SlotOf(row, blockSize, k) == SlotOf(head, blockSize, k)
  {
    BlockBelow(k, m, blockSize);
    assert head[..m][k / blockSize] == row[..m][k / blockSize];
  }

  lemma RestSlot(row: seq<int>, head: seq<int>, rest: seq<int>, blockSize: nat, m: nat, n: nat, k: nat)
    requires Cut(row, head, rest, blockSize, m, n) && k < n && k / blockSize < |rest|
             && (m * blockSize + k) / blockSize < |row|
    ensures SlotOf(row, blockSize, m * blockSize + k) == SlotOf(rest, blockSize, k)
  {
    BlockAfter(k, m, blockSize);
    assert rest[k / blockSize] == row[m + k / blockSize];
  }

  /** The positions are those of the head and then those of the rest. */
  lemma SlotsSplit(row: seq<int>, head: seq<int>, rest: seq<int>, blockSize: nat, m: nat, n: nat, len: nat)
    requires Cut(row, head, rest, blockSize, m, n) && len == m * blockSize
    requires Covers(row, blockSize, len + n) && Covers(rest, blockSize, n) && Covers(head, blockSize, len)
    ensures FirstSlots(row, blockSize, len + n) == FirstSlots(head, blockSize, len) + FirstSlots(rest, blockSize, n)
  {
    hide SlotOf, Cut;
    var all, x, y := FirstSlots(row, blockSize, len + n), FirstSlots(head, blockSize, len),
        FirstSlots(rest, blockSize, n);
    forall k | 0 <= k < |all| ensures all[k] == (x + y)[k] {
      if k < len {
        HeadSlot(row, head, rest, blockSize, m, n, k);
      } else {
        assert y[k - len] == SlotOf(rest, blockSize, k - len);
        assert all[k] == SlotOf(row, blockSize, len + (k - len));
        RestSlot(row, head, rest, blockSize, m, n, k - len);
      }
    }
  }

  lemma BlockBelow(k: nat, m: nat, blockSize: nat)
    requires blockSize > 0 && k < m * blockSize
    ensures k / blockSize < m
  {
    var d := k / blockSize;
    assert k >= blockSize * d;
    assert d >= m ==> blockSize * d >= blockSize * m;
  }

  lemma BlockAfter(k: nat, m: nat, blockSize: nat)
    requires blockSize > 0
    ensures (m * blockSize + k) / blockSize == m + k / blockSize && (m * blockSize + k) % blockSize == k % blockSize
    ensures k / blockSize * blockSize <= k
  {
    var d, r := k / blockSize, k % blockSize;
    Quotient(blockSize, m + d, r);
    assert At(blockSize, m + d, r) == m * blockSize + k;
  }
}
