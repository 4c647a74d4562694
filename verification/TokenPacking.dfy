/**
 Packing the tokens of requests in another order of the requests, and finding them again.
 Offsets are cumulative sums: request i has the tokens from offset i up to offset i + 1.
 */
module TokenPacking {
  import opened FiniteSets
  import opened Sequences

  /** Offsets of sequences with these lengths (zero followed by the cumulative sum). */
  function Offsets(lens: seq<nat>): (o: seq<nat>)
    ensures |o| == |lens| + 1 && o[0] == 0
    ensures forall i | 0 <= i < |lens| :: o[i + 1] == o[i] + lens[i]
  {
    if lens == [] then [0]
    else
      var o := Offsets(lens[..|lens| - 1]);
      o + [o[|lens| - 1] + lens[|lens| - 1]]
  }

  ghost predicate Rising(offsets: seq<int>) {
    |offsets| > 0 && forall i | 0 <= i < |offsets| - 1 :: offsets[i] <= offsets[i + 1]
  }

  lemma {:induction false} RisingAll(offsets: seq<int>, i: nat, j: nat)
    requires Rising(offsets) && i <= j < |offsets|
    ensures offsets[i] <= offsets[j]
  {
    if i < j {
      RisingAll(offsets, i, j - 1);
    }
  }

  /** Token t belongs to request p. */
  ghost predicate Within(offsets: seq<int>, p: int, t: int) {
    0 <= p < |offsets| - 1 && offsets[p] <= t < offsets[p + 1]
  }

  lemma WithinOne(offsets: seq<int>, p: nat, q: nat, t: int)
    requires Rising(offsets) && Within(offsets, p, t) && Within(offsets, q, t)
    ensures p == q
  {
    if p < q {
      RisingAll(offsets, p + 1, q);
    } else if q < p {
      RisingAll(offsets, q + 1, p);
    }
  }

  lemma {:induction false} WithinSome(offsets: seq<int>, t: int) returns (p: nat)
    requires Rising(offsets) && offsets[0] <= t < offsets[|offsets| - 1]
    ensures Within(offsets, p, t)
  {
    var n := |offsets| - 1;
    if offsets[n - 1] <= t {
      p := n - 1;
    } else {
      p := WithinSome(offsets[..n], t);
    }
  }

  /** torch.repeat_interleave of 0, 1, 2 and so on: every id as often as its length says. */
  function Repeated(lens: seq<nat>): (ids: seq<nat>)
    ensures |ids| == Offsets(lens)[|lens|] && forall i | 0 <= i < |ids| :: ids[i] < |lens|
  {
    if lens == [] then []
    else Repeated(lens[..|lens| - 1]) + seq(lens[|lens| - 1], _ => |lens| - 1)
  }

  lemma {:induction false} RepeatedWithin(lens: seq<nat>, t: nat)
    requires t < |Repeated(lens)|
    ensures Within(Offsets(lens), Repeated(lens)[t], t)
  {
    var rest := lens[..|lens| - 1];
    if t < |Repeated(rest)| {
      RepeatedWithin(rest, t);
    }
  }

  // ----- The order of the requests -----

  function Permuted<T>(s: seq<T>, perm: seq<nat>): (r: seq<T>)
    requires forall i | 0 <= i < |perm| :: perm[i] < |s|
    ensures |r| == |perm| && forall i | 0 <= i < |perm| :: r[i] == s[perm[i]]
  {
    seq(|perm|, i requires 0 <= i < |perm| => s[perm[i]])
  }

  /** A permutation reaches every request. */
  lemma PermutationOnto(perm: seq<nat>, n: nat, o: nat) returns (p: nat)
    requires Permutation(perm, n) && o < n
    ensures p < n == |perm| && perm[p] == o
  {
    ImageSize(perm);
    SubsetSize(Image(perm), Below(n));
    assert o in Image(perm);
    p :| p < n && perm[p] == o;
  }

  // ----- The packed tokens -----

  /** Where the token of the packed order is in the original order. */
  function TokenPerm(offsets: seq<int>, perm: seq<nat>): (tp: seq<int>)
    requires Rising(offsets) && Permutation(perm, |offsets| - 1)
    ensures |tp| == Offsets(PackedLens(offsets, perm))[|perm|]
  {
    var lens := PackedLens(offsets, perm);
    var ids := Repeated(lens);
    seq(|ids|, t requires 0 <= t < |ids| => offsets[perm[ids[t]]] + (t - Offsets(lens)[ids[t]]))
  }

  function PackedLens(offsets: seq<int>, perm: seq<nat>): (lens: seq<nat>)
    requires Rising(offsets) && Permutation(perm, |offsets| - 1)
    ensures |lens| == |perm|
    ensures forall p | 0 <= p < |perm| :: lens[p] == offsets[perm[p] + 1] - offsets[perm[p]]
  {
    seq(|perm|, p requires 0 <= p < |perm| => offsets[perm[p] + 1] - offsets[perm[p]])
  }

  lemma OffsetsRise(lens: seq<nat>)
    ensures Rising(Offsets(lens))
  {
  }

  /** Token i of packed request p is token i of the request it stands for. */
  lemma PackedToken(offsets: seq<int>, perm: seq<nat>, p: nat, i: nat)
    requires Rising(offsets) && Permutation(perm, |offsets| - 1) && p < |perm| && i < PackedLens(offsets, perm)[p]
    ensures var t := Offsets(PackedLens(offsets, perm))[p] + i;
            t < |TokenPerm(offsets, perm)| && TokenPerm(offsets, perm)[t] == offsets[perm[p]] + i
  {
    var lens := PackedLens(offsets, perm);
    var t := Offsets(lens)[p] + i;
    OffsetsRise(lens);
    RisingAll(Offsets(lens), p + 1, |perm|);
    assert t < |TokenPerm(offsets, perm)| == |Repeated(lens)|;
    TokenPermAt(offsets, perm, t);
    RepeatedWithin(lens, t);
    hide TokenPerm, PackedLens, Repeated, Rising, Permutation;
    WithinOne(Offsets(lens), Repeated(lens)[t], p, t);
  }

  /** Every packed token is token i of some packed request p. */
  lemma PackedOf(offsets: seq<int>, perm: seq<nat>, t: nat) returns (p: nat, i: nat)
    requires Rising(offsets) && Permutation(perm, |offsets| - 1) && t < |TokenPerm(offsets, perm)|
    ensures p < |perm| && i < PackedLens(offsets, perm)[p] && t == Offsets(PackedLens(offsets, perm))[p] + i
    ensures TokenPerm(offsets, perm)[t] == offsets[perm[p]] + i && Within(offsets, perm[p], TokenPerm(offsets, perm)[t])
  {
    var lens := PackedLens(offsets, perm);
    RepeatedWithin(lens, t);
    p := Repeated(lens)[t];
    TokenPermAt(offsets, perm, t);
    hide TokenPerm, PackedLens, Repeated, Permutation;
    i := t - Offsets(lens)[p];
  }

  lemma TokenPermAt(offsets: seq<int>, perm: seq<nat>, t: nat)
    requires Rising(offsets) && Permutation(perm, |offsets| - 1) && t < |TokenPerm(offsets, perm)|
    ensures var lens := PackedLens(offsets, perm);
            var p := Repeated(lens)[t];
            && p < |perm| && perm[p] + 1 < |offsets| && |lens| == |perm| && |Offsets(lens)| == |perm| + 1
            && lens[p] == offsets[perm[p] + 1] - offsets[perm[p]] && Offsets(lens)[p + 1] == Offsets(lens)[p] + lens[p]
            && TokenPerm(offsets, perm)[t] == offsets[perm[p]] + (t - Offsets(lens)[p])
  {
  }

  /** Different packed tokens are different tokens. */
  lemma TokenPermInjective(offsets: seq<int>, perm: seq<nat>, t: nat, u: nat)
    requires Rising(offsets) && Permutation(perm, |offsets| - 1) && t < u < |TokenPerm(offsets, perm)|
    ensures TokenPerm(offsets, perm)[t] != TokenPerm(offsets, perm)[u]
  {
    var p, i := PackedOf(offsets, perm, t);
    var q, j := PackedOf(offsets, perm, u);
    if TokenPerm(offsets, perm)[t] == TokenPerm(offsets, perm)[u] {
      WithinOne(offsets, perm[p], perm[q], TokenPerm(offsets, perm)[t]);
    }
  }

  /** And every token is one. */
  lemma TokenPermOnto(offsets: seq<int>, perm: seq<nat>, x: int) returns (t: nat)
    requires Rising(offsets) && Permutation(perm, |offsets| - 1) && offsets[0] <= x < offsets[|offsets| - 1]
    ensures t < |TokenPerm(offsets, perm)| && TokenPerm(offsets, perm)[t] == x
  {
    hide Rising, Permutation, TokenPerm, Offsets;
    var o := WithinSome(offsets, x);
    var p := PermutationOnto(perm, |offsets| - 1, o);
    PackedToken(offsets, perm, p, x - offsets[o]);
    t := Offsets(PackedLens(offsets, perm))[p] + (x - offsets[o]);
  }
}
