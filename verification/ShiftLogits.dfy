/**
 Putting the logits of the shift mode back in order: the collective gathers the vocabulary shards in
 the order of the sorted ranks, while shard k belongs to the k-th rank of the group as listed.
 */
module ShiftLogits {
  import opened Options
  import opened FiniteSets
  import opened Sequences
  import opened Blocks

  // ----- Sorting -----

  ghost predicate Ascends(keys: seq<int>, order: seq<nat>) {
    && (forall k | 0 <= k < |order| :: order[k] < |keys|)
    && forall i, j | 0 <= i < j < |order| :: keys[order[i]] <= keys[order[j]]
  }

  function Insert(keys: seq<int>, order: seq<nat>, x: nat): (r: seq<nat>)
    requires x < |keys| && Ascends(keys, order)
    ensures |r| == |order| + 1 && Ascends(keys, r)
    ensures forall y :: y in r <==> y == x || y in order
    ensures r[0] == x || (order != [] && r[0] == order[0])
  {
    if order == [] || keys[x] < keys[order[0]] then [x] + order
    else
      var rest := Insert(keys, order[1..], x);
      assert forall y :: y in order <==> y == order[0] || y in order[1..];
      assert forall k | 0 <= k < |rest| :: rest[k] in rest;
      [order[0]] + rest
  }

  /** sorted(range(n), key): the indices in order of their keys. */
  function SortIndices(keys: seq<int>, n: nat): (order: seq<nat>)
    requires n <= |keys|
    ensures |order| == n && Ascends(keys, order) && forall y: nat :: y in order <==> y < n
  {
    if n == 0 then [] else Insert(keys, SortIndices(keys, n - 1), n - 1)
  }

  /** As many indices as places: none comes twice. */
  lemma SortLists(keys: seq<int>, n: nat)
    requires n <= |keys|
    ensures Permutation(SortIndices(keys, n), n)
  {
    var order := SortIndices(keys, n);
    forall k | 0 <= k < n ensures order[k] < n {
      assert order[k] in order;
    }
    forall i, j | 0 <= i < j < n ensures order[i] != order[j] {
      if order[i] == order[j] {
        var rest := order[..j] + order[j + 1..];
        Missing(order, rest, n, j);
        OnlySome(rest, n);
      }
    }
  }

  lemma Missing(order: seq<nat>, rest: seq<nat>, n: nat, j: nat)
    requires |order| == n && (forall y: nat :: y in order <==> y < n) && j < n && order[j] in order[..j]
    requires rest == order[..j] + order[j + 1..]
    ensures forall y: nat | y < n :: y in rest
  {
    forall y: nat | y < n ensures y in rest {
      assert y in order;
      var k :| 0 <= k < n && order[k] == y;
      if k < j {
        assert rest[k] == y;
      } else if k > j {
        assert rest[k - 1] == y;
      } else {
        assert y in order[..j];
      }
    }
  }

  ghost function Elements(s: seq<nat>): (e: set<nat>)
    ensures |e| <= |s| && forall y :: y in e <==> y in s
  {
    if s == [] then {} else assert s == s[..|s| - 1] + [s[|s| - 1]]; Elements(s[..|s| - 1]) + {s[|s| - 1]}
  }

  /** Fewer than n entries do not hold n numbers. */
  lemma OnlySome(s: seq<nat>, n: nat)
    requires forall y: nat | y < n :: y in s
    ensures |s| >= n
  {
    SubsetSize(Below(n), Elements(s));
  }

  /** An ascending list of n different numbers below n is 0, 1, 2 and so on. */
  lemma {:induction false} Counts(s: seq<int>, n: nat, k: nat)
    requires |s| == n && k < n && (forall i | 0 <= i < n :: 0 <= s[i] < n)
             && forall i, j | 0 <= i < j < n :: s[i] < s[j]
    ensures s[k] == k
  {
    AtLeast(s, k);
    AtMost(s, n, k);
  }

  lemma {:induction false} AtLeast(s: seq<int>, k: nat)
    requires k < |s| && (forall i | 0 <= i < |s| :: 0 <= s[i]) && forall i, j | 0 <= i < j < |s| :: s[i] < s[j]
    ensures s[k] >= k
  {
    if k > 0 {
      AtLeast(s, k - 1);
    }
  }

  lemma {:induction false} AtMost(s: seq<int>, n: nat, k: nat)
    requires |s| == n && k < n && (forall i | 0 <= i < n :: s[i] < n) && forall i, j | 0 <= i < j < n :: s[i] < s[j]
    ensures s[k] <= k
    decreases n - k
  {
    if k + 1 < n {
      AtMost(s, n, k + 1);
    }
  }

  function KeysInOrder(keys: seq<int>, order: seq<nat>): (s: seq<int>)
    requires forall k | 0 <= k < |order| :: order[k] < |keys|
    ensures |s| == |order| && forall k | 0 <= k < |s| :: s[k] == keys[order[k]]
  {
    seq(|order|, k requires 0 <= k < |order| => keys[order[k]])
  }

  lemma ListsDiffer(order: seq<nat>, n: nat, i: nat, j: nat)
    requires Permutation(order, n) && i < n && j < n && i != j
    ensures order[i] != order[j]
  {
  }

  /** An ascending order of different keys below n meets them one by one. */
  lemma OrderCounts(keys: seq<nat>, order: seq<nat>, n: nat, k: nat)
    requires Permutation(keys, n) && Permutation(order, n) && Ascends(keys, order) && k < n
    ensures order[k] < n && keys[order[k]] == k
  {
    var s := KeysInOrder(keys, order);
    forall i, j | 0 <= i < j < n ensures s[i] < s[j] {
      ListsDiffer(order, n, i, j);
      ListsDiffer(keys, n, order[i], order[j]);
      assert s[i] == keys[order[i]] && s[j] == keys[order[j]];
    }
    Counts(s, n, k);
  }

  /** Sorting by keys that are themselves a listing of the indices gives the inverse listing. */
  lemma SortInverts(keys: seq<nat>, n: nat, k: nat)
    requires Permutation(keys, n) && k < n
    ensures SortIndices(keys, n)[k] < n && keys[SortIndices(keys, n)[k]] == k
  {
    SortLists(keys, n);
    OrderCounts(keys, SortIndices(keys, n), n, k);
  }

  // ----- The permutation -----

  /** sorted(ranks) */
  function SortedRanks(ranks: seq<int>): (s: seq<int>)
    ensures |s| == |ranks| && forall i | 0 <= i < |s| ::
              SortIndices(ranks, |ranks|)[i] < |ranks| && s[i] == ranks[SortIndices(ranks, |ranks|)[i]]
  {
    KeysInOrder(ranks, SortIndices(ranks, |ranks|))
  }

  /** For each gathered shard the rank of the group it belongs to (ranks.index). */
  function Owners(ranks: seq<int>): (o: seq<nat>)
    ensures |o| == |ranks| && forall i | 0 <= i < |o| :: o[i] < |ranks| && ranks[o[i]] == SortedRanks(ranks)[i]
  {
    var s := SortedRanks(ranks);
    seq(|ranks|, i requires 0 <= i < |ranks| => IndexOf(ranks, s[i]))
  }

  /** _compute_shift_logits_perm: nothing when the ranks are sorted already. */
  function ShiftPerm(ranks: seq<int>): (p: Option<seq<nat>>) {
    if ranks == SortedRanks(ranks) then None else Some(SortIndices(Owners(ranks), |ranks|))
  }

  lemma OwnersList(ranks: seq<int>)
    requires Distinct(ranks)
    ensures Permutation(Owners(ranks), |ranks|)
  {
    var order, o, s := SortIndices(ranks, |ranks|), Owners(ranks), SortedRanks(ranks);
    SortLists(ranks, |ranks|);
    forall i, j | 0 <= i < j < |ranks| ensures o[i] != o[j] {
      ListsDiffer(order, |ranks|, i, j);
      assert s[i] == ranks[order[i]] && s[j] == ranks[order[j]];
      assert ranks[o[i]] == s[i] && ranks[o[j]] == s[j];
    }
  }

  // ----- The logits -----

  /** The vocabulary dimension after the gather: the shards in the order of the sorted ranks. */
  function Gathered<T>(shards: seq<seq<T>>, ranks: seq<int>, size: nat): (row: seq<T>)
    requires |shards| == |ranks| && forall k | 0 <= k < |shards| :: |shards[k]| == size
    ensures |row| == Total(|ranks|, size)
    ensures forall x {:trigger row[x]} | 0 <= x < |row| ::
              size > 0 && Block(x, size) < |ranks| && row[x] == shards[Owners(ranks)[Block(x, size)]][Inside(x, size)]
  {
    forall x: nat | x < Total(|ranks|, size) ensures size > 0 && Block(x, size) < |ranks| {
      Decompose(x, |ranks|, size);
    }
    seq(Total(|ranks|, size), x requires 0 <= x < Total(|ranks|, size) && size > 0 && Block(x, size) < |ranks| =>
      shards[Owners(ranks)[Block(x, size)]][Inside(x, size)])
  }

  /** _fix_shift_logits_ordering for one row: the shards in the order of the permutation, if the vocabulary
      can be cut into that many. */
  function Fixed<T>(row: seq<T>, perm: Option<seq<nat>>): (r: seq<T>)
    requires PermOk(perm)
    ensures |r| == |row|
  {
    if perm.None? || |row| % |perm.value| != 0 then row
    else
      Exact(|row|, |perm.value|);
      Reordered(row, perm.value, |row| / |perm.value|)
  }

  /** The row with its shards in another order. */
  function Reordered<T>(row: seq<T>, perm: seq<nat>, size: nat): (r: seq<T>)
    requires (forall k | 0 <= k < |perm| :: perm[k] < |perm|) && |row| == Total(|perm|, size)
    ensures |r| == |row|
    ensures forall x {:trigger r[x]} | 0 <= x < |r| ::
              size > 0 && Block(x, size) < |perm| && r[x] == Taken(row, perm, size, x)
  {
    forall x: nat | x < |row| ensures size > 0 && Block(x, size) < |perm| {
      Decompose(x, |perm|, size);
    }
    seq(|row|, x requires 0 <= x < |row| && size > 0 && Block(x, size) < |perm| => Taken(row, perm, size, x))
  }

  function Taken<T>(row: seq<T>, perm: seq<nat>, size: nat, x: nat): T
    requires (forall k | 0 <= k < |perm| :: perm[k] < |perm|) && |row| == Total(|perm|, size) && size > 0
             && Block(x, size) < |perm|
  {
    Bound(size, perm[Block(x, size)], Inside(x, size), |perm|);
    row[At(size, perm[Block(x, size)], Inside(x, size))]
  }

  lemma GatheredAt<T>(shards: seq<seq<T>>, ranks: seq<int>, size: nat, i: nat, x: nat)
    requires |shards| == |ranks| && (forall k | 0 <= k < |shards| :: |shards[k]| == size) && i < |ranks| && x < size
    ensures At(size, i, x) < Total(|ranks|, size)
            && Gathered(shards, ranks, size)[At(size, i, x)] == shards[Owners(ranks)[i]][x]
  {
    hide At, Total, Block, Inside, Owners;
    OwnersLength(ranks);
    Bound(size, i, x, |ranks|);
    Quotient(size, i, x);
  }

  lemma OwnersLength(ranks: seq<int>)
    ensures |Owners(ranks)| == |ranks| && forall i | 0 <= i < |ranks| :: Owners(ranks)[i] < |ranks|
  {
  }

  lemma FixedAt<T>(row: seq<T>, perm: seq<nat>, size: nat, k: nat, x: nat)
    requires PermOk(Some(perm)) && |row| == Total(|perm|, size) && k < |perm| && x < size
    ensures At(size, k, x) < |row| && At(size, perm[k], x) < |row|
            && Fixed(row, Some(perm))[At(size, k, x)] == row[At(size, perm[k], x)]
  {
    CutInto(|perm|, size);
    hide At, Total, Block, Inside;
    Bound(size, k, x, |perm|);
    Bound(size, perm[k], x, |perm|);
    Quotient(size, k, x);
  }

  lemma CutInto(n: nat, size: nat)
    requires n > 0
    ensures Total(n, size) / n == size && Total(n, size) % n == 0
  {
    Quotient(n, size, 0);
  }

  ghost predicate PermOk(perm: Option<seq<nat>>) {
    perm.Some? ==> perm.value != [] && forall i | 0 <= i < |perm.value| :: perm.value[i] < |perm.value|
  }

  lemma ShiftPermOk(ranks: seq<int>)
    requires Distinct(ranks)
    ensures PermOk(ShiftPerm(ranks)) && (ShiftPerm(ranks).Some? ==> |ShiftPerm(ranks).value| == |ranks|)
  {
    SortLists(Owners(ranks), |ranks|);
  }

  /** For every order of the ranks, each shard ends up at the place of the rank that has it. */
  lemma FixedInOrder<T>(shards: seq<seq<T>>, ranks: seq<int>, size: nat, k: nat, x: nat)
    requires Distinct(ranks) && |shards| == |ranks| && (forall i | 0 <= i < |shards| :: |shards[i]| == size)
             && k < |ranks| && x < size
    ensures PermOk(ShiftPerm(ranks))
    ensures var fixed, y := Fixed(Gathered(shards, ranks, size), ShiftPerm(ranks)), At(size, k, x);
            y < |fixed| && fixed[y] == shards[k][x]
  {
    hide *;
    ShiftPermOk(ranks);
    ShiftPermIs(ranks);
    var row, perm := Gathered(shards, ranks, size), ShiftPerm(ranks);
    if perm.None? {
      SortedOwners(ranks, k);
      UnmovedAt(shards, ranks, size, k, x, row);
    } else {
      OwnersList(ranks);
      SortInverts(Owners(ranks), |ranks|, k);
      ReorderedAt(shards, ranks, size, k, x, row, perm.value, perm.value[k]);
    }
  }

  lemma ShiftPermIs(ranks: seq<int>)
    ensures |Owners(ranks)| == |ranks|
    ensures ShiftPerm(ranks) == if ranks == SortedRanks(ranks) then None else Some(SortIndices(Owners(ranks), |ranks|))
  {
  }

  lemma UnmovedAt<T>(shards: seq<seq<T>>, ranks: seq<int>, size: nat, k: nat, x: nat, row: seq<T>)
    requires |shards| == |ranks| && (forall i | 0 <= i < |shards| :: |shards[i]| == size) && k < |ranks| && x < size
    requires row == Gathered(shards, ranks, size) && Owners(ranks)[k] == k
    ensures At(size, k, x) < |Fixed(row, None)| && Fixed(row, None)[At(size, k, x)] == shards[k][x]
  {
    GatheredAt(shards, ranks, size, k, x);
  }

  lemma ReorderedAt<T>(shards: seq<seq<T>>, ranks: seq<int>, size: nat, k: nat, x: nat, row: seq<T>, perm: seq<nat>,
                       i: nat)
    requires |shards| == |ranks| == |perm| && (forall i | 0 <= i < |shards| :: |shards[i]| == size) && k < |ranks|
             && x < size
    requires row == Gathered(shards, ranks, size) && PermOk(Some(perm)) && i == perm[k] && i < |ranks|
             && Owners(ranks)[i] == k
    ensures At(size, k, x) < |Fixed(row, Some(perm))| && Fixed(row, Some(perm))[At(size, k, x)] == shards[k][x]
  {
    GatheredAt(shards, ranks, size, i, x);
    FixedAt(row, perm, size, k, x);
    hide At, Total, Block, Inside;
  }

  lemma SortedOwners(ranks: seq<int>, k: nat)
    requires Distinct(ranks) && ranks == SortedRanks(ranks) && k < |ranks|
    ensures Owners(ranks)[k] == k
  {
    assert ranks[Owners(ranks)[k]] == ranks[k];
  }
}
