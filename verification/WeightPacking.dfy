/**
 Packing weights into buckets for sending (send_weights and _flush_bucket_send), with the layout
 of a bucket and what each launch of a send waits for.
 */
module WeightPacking {
  import Blocks

  type Byte = b: int | 0 <= b < 256

  datatype Weight = Weight(name: string, shape: seq<nat>, dtype: string, bytes: seq<Byte>)

  /** What the metadata says of one weight. */
  datatype Entry = Entry(name: string, shape: seq<nat>, dtype: string, offset: nat, nbytes: nat)

  datatype Meta = Meta(tensors: seq<Entry>, isLast: bool)

  /** A bucket as handed to the streams: the buffers it goes through, the weights copied into the data
      buffer, the metadata, and the bucket whose send must be over before the metadata is written, or -1. */
  datatype Launch = Launch(idx: nat, weights: seq<Weight>, meta: Meta, waitsFor: int)

  datatype Result<T> = Ok(value: T) | TooLarge(name: string) | MetaTooLarge

  function EntryFor(w: Weight, offset: nat): Entry {
    Entry(w.name, w.shape, w.dtype, offset, |w.bytes|)
  }

  function TotalBytes(ws: seq<Weight>): nat {
    if ws == [] then 0 else TotalBytes(ws[..|ws| - 1]) + |ws[|ws| - 1].bytes|
  }

  /** The weights lie one after the other from the start of the buffer, and fit. */
  ghost predicate LayoutOk(ws: seq<Weight>, es: seq<Entry>, size: nat) {
    && |es| == |ws| && TotalBytes(ws) <= size
    && forall j {:trigger es[j]} | 0 <= j < |es| ::
         es[j] == Entry(ws[j].name, ws[j].shape, ws[j].dtype, TotalBytes(ws[..j]), |ws[j].bytes|)
  }

  ghost predicate LaunchOk(l: Launch, k: nat, last: bool, size: nat) {
    l.idx == k % 2 && l.waitsFor == k - 1 && LayoutOk(l.weights, l.meta.tensors, size) && l.meta.isLast == last
  }

  function Flatten(plan: seq<Launch>): seq<Weight> {
    if plan == [] then [] else Flatten(plan[..|plan| - 1]) + plan[|plan| - 1].weights
  }

  /** The buckets alternate between the buffers, each waits for the one before, and the last is marked. */
  ghost predicate PlanOk(plan: seq<Launch>, size: nat) {
    plan != [] && forall k {:trigger plan[k]} | 0 <= k < |plan| :: LaunchOk(plan[k], k, k == |plan| - 1, size)
  }

  ghost predicate Unfinished(plan: seq<Launch>, size: nat) {
    forall k {:trigger plan[k]} | 0 <= k < |plan| :: LaunchOk(plan[k], k, false, size)
  }

  /** A new bucket is begun only for a weight that no longer fits into the one before. */
  ghost predicate Greedy(plan: seq<Launch>, size: nat) {
    forall k {:trigger plan[k].weights} | 0 < k < |plan| :: Overflows(plan[k - 1].weights, plan[k].weights, size)
  }

  ghost predicate Overflows(before: seq<Weight>, ws: seq<Weight>, size: nat) {
    ws != [] && TotalBytes(before) + |ws[0].bytes| > size
  }

  /** The weights being packed begin a new bucket. */
  ghost predicate Begun(plan: seq<Launch>, packed: seq<Weight>, size: nat) {
    Greedy(plan, size) && (plan != [] ==> Overflows(plan[|plan| - 1].weights, packed, size))
  }

  ghost predicate MetasFit(plan: seq<Launch>, encode: Meta -> seq<Byte>, metaSize: nat) {
    forall k | 0 <= k < |plan| :: |encode(plan[k].meta)| + 8 <= metaSize
  }

  lemma BegunFlushed(plan: seq<Launch>, packed: seq<Weight>, size: nat, l: Launch, w: Weight)
    requires Begun(plan, packed, size) && l.weights == packed
    ensures Greedy(plan + [l], size)
    ensures TotalBytes(packed) + |w.bytes| > size ==> Begun(plan + [l], [w], size)
  {
  }

  lemma BegunMore(plan: seq<Launch>, packed: seq<Weight>, size: nat, w: Weight)
    requires Begun(plan, packed, size)
    ensures Begun(plan, packed + [w], size)
  {
  }

  /** The first i weights are packed: those of the buckets that are done, and after them those of the bucket that has
      been begun. */
  ghost predicate Reached(weights: seq<Weight>, size: nat, encode: Meta -> seq<Byte>, metaSize: nat,
                          plan: seq<Launch>, packed: seq<Weight>, i: nat)
  {
    && i <= |weights| && Flatten(plan) + packed == weights[..i] && TotalBytes(packed) <= size
    && Unfinished(plan, size) && Begun(plan, packed, size) && MetasFit(plan, encode, metaSize)
  }

  /** A bucket must be sent, as it is the last one or the next weight does not fit into it, and its metadata do not fit
      into their buffer. */
  ghost predicate Overfull(weights: seq<Weight>, size: nat, encode: Meta -> seq<Byte>, metaSize: nat,
                           packed: seq<Weight>, es: seq<Entry>, i: nat)
  {
    && i <= |weights| && LayoutOk(packed, es, size) && |encode(Meta(es, i == |weights|))| + 8 > metaSize
    && (i < |weights| ==> |weights[i].bytes| <= size && TotalBytes(packed) + |weights[i].bytes| > size)
  }

  lemma ReachedIf(weights: seq<Weight>, size: nat, encode: Meta -> seq<Byte>, metaSize: nat, plan: seq<Launch>,
                  packed: seq<Weight>, es: seq<Entry>, i: nat)
    requires i <= |weights| && Flatten(plan) + packed == weights[..i] && LayoutOk(packed, es, size)
    requires Unfinished(plan, size) && Begun(plan, packed, size) && MetasFit(plan, encode, metaSize)
    ensures Reached(weights, size, encode, metaSize, plan, packed, i)
  {
  }

  lemma OverfullIf(weights: seq<Weight>, size: nat, encode: Meta -> seq<Byte>, metaSize: nat, packed: seq<Weight>,
                   es: seq<Entry>, i: nat)
    requires i <= |weights| && LayoutOk(packed, es, size)
    requires |encode(Meta(es, i == |weights|))| + 8 > metaSize
    requires i < |weights| ==> |weights[i].bytes| <= size && TotalBytes(packed) + |weights[i].bytes| > size
    ensures Overfull(weights, size, encode, metaSize, packed, es, i)
  {
  }

  lemma LayoutMore(ws: seq<Weight>, es: seq<Entry>, size: nat, w: Weight)
    requires LayoutOk(ws, es, size) && TotalBytes(ws) + |w.bytes| <= size
    ensures LayoutOk(ws + [w], es + [EntryFor(w, TotalBytes(ws))], size)
            && TotalBytes(ws + [w]) == TotalBytes(ws) + |w.bytes|
  {
    var us, fs := ws + [w], es + [EntryFor(w, TotalBytes(ws))];
    assert us[..|ws|] == ws;
    forall j | 0 <= j < |fs| ensures fs[j] == EntryFor(us[j], TotalBytes(us[..j])) {
      assert j < |ws| ==> us[..j] == ws[..j] && fs[j] == es[j];
    }
  }

  lemma FlattenMore(plan: seq<Launch>, l: Launch)
    ensures Flatten(plan + [l]) == Flatten(plan) + l.weights
  {
    assert (plan + [l])[..|plan|] == plan;
  }

  /** The text of the metadata fits in its buffer after the header. */
  predicate MetaFits(m: Meta, encode: Meta -> seq<Byte>, metaSize: nat) {
    |encode(m)| + META_HEADER <= metaSize
  }

  /** _flush_bucket_send: the default stream waits for the event last recorded for the buffer pair used
      before, and the send of this bucket records the event of its own pair.  Metadata that does not fit is an error. */
  method Flush(plan: seq<Launch>, idx: nat, ws: seq<Weight>, meta: seq<Entry>, isLast: bool, prevIdx: int,
               events: seq<int>,
               encode: Meta -> seq<Byte>, metaSize: nat, ghost size: nat)
    returns (ok: bool, plan': seq<Launch>, events': seq<int>)
    requires idx < 2 && -1 <= prevIdx < 2 && |events| == 2 && Unfinished(plan, size) && LayoutOk(ws, meta, size)
    requires idx == |plan| % 2
             && (if plan == [] then prevIdx == -1 else prevIdx == 1 - idx && events[prevIdx] == |plan| - 1)
    ensures ok <==> |encode(Meta(meta, isLast))| + 8 <= metaSize
    ensures ok ==>
              && Flatten(plan') == Flatten(plan) + ws
              && plan' == plan + [Launch(idx, ws, Meta(meta, isLast), |plan| - 1)]
    ensures ok ==> if isLast then PlanOk(plan', size) else Unfinished(plan', size)
    ensures ok && MetasFit(plan, encode, metaSize) ==> MetasFit(plan', encode, metaSize)
    ensures |events'| == 2 && events'[idx] == |plan|
  {
    var launch := Launch(idx, ws, Meta(meta, isLast), if prevIdx == -1 then -1 else events[prevIdx]);
    ok := MetaFits(launch.meta, encode, metaSize);
    plan' := plan + [launch];
    events' := events[idx := |plan|];
    FlattenMore(plan, launch);
  }

  lemma NothingPacked(size: nat, encode: Meta -> seq<Byte>, metaSize: nat)
    ensures MetasFit([], encode, metaSize)
    ensures LayoutOk([], [], size) && Unfinished([], size) && Begun([], [], size) && TotalBytes([]) == 0
            && Flatten([]) == []
  {
  }

  lemma OneMore(sent: seq<Weight>, packed: seq<Weight>, weights: seq<Weight>, i: nat)
    requires i < |weights| && sent + packed == weights[..i]
    ensures sent + (packed + [weights[i]]) == weights[..i + 1] && (sent + packed) + [weights[i]] == weights[..i + 1]
  {
  }

  /** send_weights: the weights go into buckets in order, each into the current bucket if it still fits.
      A weight larger than a bucket, or a bucket with too much metadata, is an error. */
  method SendWeights(weights: seq<Weight>, size: nat, encode: Meta -> seq<Byte>, metaSize: nat)
    returns (res: Result<seq<Launch>>)
    ensures res.Ok? ==> PlanOk(res.value, size) && Flatten(res.value) == weights && Greedy(res.value, size)
    ensures res.Ok? ==> (forall i | 0 <= i < |weights| :: |weights[i].bytes| <= size)
                        && MetasFit(res.value, encode, metaSize)
    ensures res.TooLarge? ==>
              exists i: nat, plan, packed {:trigger Reached(weights, size, encode, metaSize, plan, packed, i)} ::
                Reached(weights, size, encode, metaSize, plan, packed, i)
                && i < |weights| && |weights[i].bytes| > size && weights[i].name == res.name
                && forall j | 0 <= j < i :: |weights[j].bytes| <= size
    ensures res.MetaTooLarge? ==>
              exists i: nat, plan, packed, es
                {:trigger Reached(weights, size, encode, metaSize, plan, packed, i),
                          Overfull(weights, size, encode, metaSize, packed, es, i)} ::
                Reached(weights, size, encode, metaSize, plan, packed, i)
                && Overfull(weights, size, encode, metaSize, packed, es, i)
  {
    hide *;
    var plan: seq<Launch>, packIdx, prevIdx, events := [], 0, -1, [-1, -1];
    var packed, meta, offset := [], [], 0;
    var ok;
    NothingPacked(size, encode, metaSize);
    for i := 0 to |weights|
      invariant forall j | 0 <= j < i :: |weights[j].bytes| <= size
      invariant MetasFit(plan, encode, metaSize)
      invariant Unfinished(plan, size) && LayoutOk(packed, meta, size) && offset == TotalBytes(packed)
                && Begun(plan, packed, size)
      invariant Flatten(plan) + packed == weights[..i]
      invariant packIdx == |plan| % 2 && |events| == 2
      invariant if plan == [] then prevIdx == -1 else prevIdx == 1 - packIdx && events[prevIdx] == |plan| - 1
    {
      var w := weights[i];
      if |w.bytes| > size {
        ReachedIf(weights, size, encode, metaSize, plan, packed, meta, i);
        return TooLarge(w.name);
      }
      OneMore(Flatten(plan), packed, weights, i);
      if offset + |w.bytes| > size {
        BegunFlushed(plan, packed, size, Launch(packIdx, packed, Meta(meta, false), |plan| - 1), w);
        ReachedIf(weights, size, encode, metaSize, plan, packed, meta, i);
        ok, plan, events := Flush(plan, packIdx, packed, meta, false, prevIdx, events, encode, metaSize, size);
        if !ok {
          OverfullIf(weights, size, encode, metaSize, packed, meta, i);
          return MetaTooLarge;
        }
        prevIdx := packIdx;
        packIdx := 1 - packIdx;
        packed, meta, offset := [], [], 0;
        assert packed + [w] == [w];
      } else {
        BegunMore(plan, packed, size, w);
      }
      LayoutMore(packed, meta, size, w);
      packed, meta, offset := packed + [w], meta + [EntryFor(w, offset)], offset + |w.bytes|;
    }
    assert weights[..|weights|] == weights;
    BegunFlushed(plan, packed, size, Launch(packIdx, packed, Meta(meta, true), |plan| - 1), Weight("", [], "", []));
    ReachedIf(weights, size, encode, metaSize, plan, packed, meta, |weights|);
    ok, plan, events := Flush(plan, packIdx, packed, meta, true, prevIdx, events, encode, metaSize, size);
    if !ok {
      OverfullIf(weights, size, encode, metaSize, packed, meta, |weights|);
      return MetaTooLarge;
    }
    res := Ok(plan);
  }

  // ----- Layout of the metadata buffer -----

  const META_HEADER := 8

  /** n bytes of a number, lowest first. */
  function ToBytes(x: nat, n: nat): (s: seq<Byte>)
    ensures |s| == n
  {
    if n == 0 then [] else [x % 256] + ToBytes(x / 256, n - 1)
  }

  /** The lowest byte comes first. */
  lemma {:induction false} ByteAt(x: nat, n: nat, k: nat)
    requires k < n
    ensures Power(k) > 0 && ToBytes(x, n)[k] == x / Power(k) % 256
  {
    if k > 0 {
      ByteAt(x / 256, n - 1, k - 1);
      Blocks.DivideTwice(x, 256, Power(k - 1));
    }
  }

  function FromBytes(s: seq<Byte>): nat {
    if s == [] then 0 else s[0] + 256 * FromBytes(s[1..])
  }

  function Power(n: nat): nat {
    if n == 0 then 1 else 256 * Power(n - 1)
  }

  lemma {:induction false} NumberRoundTrip(x: nat, n: nat)
    requires x < Power(n)
    ensures FromBytes(ToBytes(x, n)) == x
  {
    if n > 0 {
      NumberRoundTrip(x / 256, n - 1);
      assert ToBytes(x, n)[1..] == ToBytes(x / 256, n - 1);
    }
  }

  /** _write_meta: the buffer is cleared, and gets the length in eight bytes and then the text. */
  method WriteMeta(buf: array<Byte>, text: seq<Byte>) returns (fits: bool)
    modifies buf
    ensures fits <==> |text| + 8 <= buf.Length
    ensures fits ==> buf[..] == ToBytes(|text|, 8) + text + seq(buf.Length - 8 - |text|, _ => 0)
    ensures !fits ==> buf[..] == old(buf[..])
  {
    if |text| + META_HEADER > buf.Length {
      return false;
    }
    var header := ToBytes(|text|, META_HEADER);
    for i := 0 to buf.Length
      invariant forall j | 0 <= j < i :: buf[j] == 0
    {
      buf[i] := 0;
    }
    for i := 0 to META_HEADER
      invariant forall j | 0 <= j < i :: buf[j] == header[j]
      invariant forall j | i <= j < buf.Length :: buf[j] == 0
    {
      buf[i] := header[i];
    }
    for i := 0 to |text|
      invariant forall j | 0 <= j < META_HEADER :: buf[j] == header[j]
      invariant forall j | 0 <= j < i :: buf[META_HEADER + j] == text[j]
      invariant forall j | META_HEADER + i <= j < buf.Length :: buf[j] == 0
    {
      buf[META_HEADER + i] := text[i];
    }
    fits := true;
  }

  /** _parse_meta: the text, from the length in the header; nothing if the buffer does not hold that much. */
  function ParseMeta(buf: seq<Byte>): (text: seq<Byte>) {
    if |buf| < META_HEADER || META_HEADER + FromBytes(buf[..META_HEADER]) > |buf| then []
    else buf[META_HEADER..META_HEADER + FromBytes(buf[..META_HEADER])]
  }

  /** What is written is what is parsed, whatever follows it in the buffer. */
  lemma MetaRoundTrip(text: seq<Byte>, rest: seq<Byte>)
    requires |text| < Power(META_HEADER)
    ensures ParseMeta(ToBytes(|text|, META_HEADER) + text + rest) == text
  {
    var buf := ToBytes(|text|, META_HEADER) + text + rest;
    NumberRoundTrip(|text|, META_HEADER);
    assert buf[..META_HEADER] == ToBytes(|text|, META_HEADER);
  }
}
