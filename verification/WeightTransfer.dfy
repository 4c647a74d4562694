/**
 The pipelined transfer of buckets: on each side two streams that run in order by themselves, wait
 for each other's events, and share two pairs of buffers, as a machine whose steps may interleave
 in any way the waits allow.  The network keeps messages in order.
 */
module WeightTransfer {
  import opened WeightPacking

  type Buffer = seq<Byte>

  datatype Message = MetaMessage(meta: Meta) | DataMessage(data: Buffer)

  /** A pair of buffers being sent or received: first the metadata, then the data. */
  datatype Phase = Idle | MetaMoving | MetaMoved | DataMoving

  /** Where the loop of the receiver is: before parsing a bucket, after it, handing out tensors, or over. */
  datatype Host = Waiting | Parsed | Yielding | Done

  /**
   Sender: the default stream has packed a number of buckets and, of the next, copied a number of
   weights and perhaps passed the wait; the transfer stream has sent a number of buckets.
   Receiver: slots are the buffers of the receives enqueued so far; the loop is at a bucket and a
   buffer; the consumer has been given a number of tensors of the bucket last parsed, which lies in
   the buffer reading, and has read a number of them.
   */
  datatype State = State(
    packed: nat, item: nat, waited: bool, sendMeta: seq<Meta>, sendData: seq<Buffer>, sent: nat, sending: Phase,
    messages: seq<Message>,
    recvMeta: seq<Meta>, recvData: seq<Buffer>, slots: seq<nat>, received: nat, receiving: Phase,
    host: Host, current: nat, buf: nat, known: Meta, reading: nat, yielded: nat, consumed: nat, out: seq<Weight>)

  datatype Action =
    | Copy | PassWait | PackMeta
    | SendMetaStart | SendMetaEnd | SendDataStart | SendDataEnd
    | RecvMetaStart(meta: Meta) | RecvMetaEnd | RecvDataStart(data: Buffer) | RecvDataEnd
    | Parse | Prefetch | Yield | Read | Advance

  // ----- The steps -----

  function Written(data: Buffer, offset: nat, bytes: Buffer): (r: Buffer)
    ensures |r| == |data|
  {
    if offset + |bytes| <= |data| then data[..offset] + bytes + data[offset + |bytes|..] else data
  }

  function Slice(data: Buffer, e: Entry): Buffer {
    if e.offset + e.nbytes <= |data| then data[e.offset..e.offset + e.nbytes] else []
  }

  /** When a step may be taken. */
  ghost predicate Enabled(plan: seq<Launch>, s: State, a: Action) {
    match a
    // The default stream of the sender.
    case Copy => s.packed < |plan| && !s.waited && s.item < |plan[s.packed].weights|
      && s.item < |plan[s.packed].meta.tensors| && plan[s.packed].idx < |s.sendData|
    case PassWait => s.packed < |plan| && !s.waited && s.item == |plan[s.packed].weights|
      && s.sent > plan[s.packed].waitsFor
    case PackMeta => s.packed < |plan| && s.waited && plan[s.packed].idx < |s.sendMeta|
    // Its transfer stream, which waits for a bucket to be packed.
    case SendMetaStart => s.sending == Idle && s.sent < s.packed
    case SendMetaEnd => s.sending == MetaMoving && s.sent < |plan| && plan[s.sent].idx < |s.sendMeta|
    case SendDataStart => s.sending == MetaMoved
    case SendDataEnd => s.sending == DataMoving && s.sent < |plan| && plan[s.sent].idx < |s.sendData|
    // The transfer stream of the receiver.
    case RecvMetaStart(_) => s.receiving == Idle && s.received < |s.slots| && s.slots[s.received] < |s.recvMeta|
    case RecvMetaEnd => s.receiving == MetaMoving && s.received < |s.slots| && s.slots[s.received] < |s.recvMeta|
                        && 2 * s.received < |s.messages| && s.messages[2 * s.received].MetaMessage?
    case RecvDataStart(_) => s.receiving == MetaMoved && s.received < |s.slots| && s.slots[s.received] < |s.recvData|
    case RecvDataEnd => s.receiving == DataMoving && s.received < |s.slots| && s.slots[s.received] < |s.recvData|
                        && 2 * s.received + 1 < |s.messages| && s.messages[2 * s.received + 1].DataMessage?
    // Its loop.  Parsing copies the metadata to the host, which waits for all reads given out before.
    case Parse => s.host == Waiting && s.received > s.current && s.consumed == s.yielded && s.buf < |s.recvMeta|
    case Prefetch => s.host == Parsed && s.buf < 2
    case Yield => s.host == Yielding && s.yielded < |s.known.tensors|
    case Advance => s.host == Yielding && s.yielded == |s.known.tensors| && s.buf < 2
      && (s.known.isLast || s.received > s.current + 1)
    // The consumer, on its default stream.
    case Read => s.consumed < s.yielded <= |s.known.tensors| && s.reading < |s.recvData|
  }

  /** What a step does.  While a buffer is being received into, its contents are arbitrary. */
  ghost function Next(plan: seq<Launch>, s: State, a: Action): State
    requires Enabled(plan, s, a)
  {
    match a
    case Copy =>
      var l := plan[s.packed];
      s.(sendData := s.sendData[l.idx := Written(s.sendData[l.idx], l.meta.tensors[s.item].offset,
                                                 l.weights[s.item].bytes)], item := s.item + 1)
    case PassWait => s.(waited := true)
    case PackMeta => s.(sendMeta := s.sendMeta[plan[s.packed].idx := plan[s.packed].meta], packed := s.packed + 1,
                        item := 0, waited := false)
    case SendMetaStart => s.(sending := MetaMoving)
    case SendMetaEnd => s.(sending := MetaMoved, messages := s.messages + [MetaMessage(s.sendMeta[plan[s.sent].idx])])
    case SendDataStart => s.(sending := DataMoving)
    case SendDataEnd => s.(sending := Idle, sent := s.sent + 1,
                           messages := s.messages + [DataMessage(s.sendData[plan[s.sent].idx])])
    case RecvMetaStart(junk) => s.(receiving := MetaMoving, recvMeta := s.recvMeta[s.slots[s.received] := junk])
    case RecvMetaEnd => s.(receiving := MetaMoved,
                           recvMeta := s.recvMeta[s.slots[s.received] := s.messages[2 * s.received].meta])
    case RecvDataStart(junk) => s.(receiving := DataMoving, recvData := s.recvData[s.slots[s.received] := junk])
    case RecvDataEnd => s.(receiving := Idle, received := s.received + 1,
                           recvData := s.recvData[s.slots[s.received] := s.messages[2 * s.received + 1].data])
    case Parse => s.(host := Parsed, known := s.recvMeta[s.buf], reading := s.buf, yielded := 0, consumed := 0)
    case Prefetch => s.(host := Yielding, slots := if s.known.isLast then s.slots else s.slots + [1 - s.buf])
    case Yield => s.(yielded := s.yielded + 1)
    case Advance => if s.known.isLast then s.(host := Done)
      else s.(host := Waiting, current := s.current + 1, buf := 1 - s.buf)
    case Read =>
      var e := s.known.tensors[s.consumed];
      s.(consumed := s.consumed + 1, out := s.out + [Weight(e.name, e.shape, e.dtype, Slice(s.recvData[s.reading], e))])
  }

  ghost predicate Init(s: State, size: nat) {
    && s.packed == s.item == s.sent == s.received == s.current == s.buf == s.yielded == s.consumed == 0 && !s.waited
    && s.sending == Idle && s.receiving == Idle && s.host == Waiting && s.messages == [] && s.slots == [0]
    && s.out == []
    && |s.sendMeta| == |s.sendData| == |s.recvMeta| == |s.recvData| == 2 && |s.sendData[0]| == |s.sendData[1]| == size
  }

  /** A run: states and the steps between them. */
  ghost predicate Run(plan: seq<Launch>, size: nat, states: seq<State>, actions: seq<Action>) {
    && |states| == |actions| + 1 && Init(states[0], size)
    && forall i: nat {:trigger StepAt(plan, states, actions, i)} | i < |actions| :: StepAt(plan, states, actions, i)
  }

  ghost predicate StepAt(plan: seq<Launch>, states: seq<State>, actions: seq<Action>, i: nat)
    requires |states| == |actions| + 1 && i < |actions|
  {
    Enabled(plan, states[i], actions[i]) && states[i + 1] == Next(plan, states[i], actions[i])
  }

  // ----- Invariants -----

  ghost predicate ItemThere(data: Buffer, l: Launch, j: int)
    requires 0 <= j < |l.weights| == |l.meta.tensors|
  {
    Slice(data, l.meta.tensors[j]) == l.weights[j].bytes
  }

  /** The first n weights of the bucket lie in the buffer. */
  ghost predicate Filled(data: Buffer, l: Launch, n: int) {
    0 <= n <= |l.weights| == |l.meta.tensors|
      && forall j {:trigger ItemThere(data, l, j)} | 0 <= j < n :: ItemThere(data, l, j)
  }

  ghost predicate Full(data: Buffer, l: Launch) {
    Filled(data, l, |l.weights|)
  }

  /** At most one packed bucket is waiting to be sent, it is intact, and the one being packed goes to the other
      buffer. */
  ghost predicate SenderOk(plan: seq<Launch>, size: nat, s: State) {
    && |s.sendMeta| == |s.sendData| == 2 && |s.sendData[0]| == |s.sendData[1]| == size
    && s.sent <= s.packed <= s.sent + 1 && s.packed <= |plan|
    && (s.packed < |plan| ==> Filled(s.sendData[s.packed % 2], plan[s.packed], s.item))
    && (s.packed == |plan| ==> !s.waited && s.item == 0)
    && (s.waited ==> s.sent == s.packed < |plan| && s.item == |plan[s.packed].weights|)
    && (s.sending != Idle ==> s.packed == s.sent + 1)
    && (s.packed == s.sent + 1 ==>
         s.sendMeta[s.sent % 2] == plan[s.sent].meta && Full(s.sendData[s.sent % 2], plan[s.sent]))
  }

  ghost predicate MessageAt(plan: seq<Launch>, messages: seq<Message>, j: nat)
    requires j < |messages|
  {
    j / 2 < |plan| &&
    if j % 2 == 0 then messages[j] == MetaMessage(plan[j / 2].meta)
    else messages[j].DataMessage? && Full(messages[j].data, plan[j / 2])
  }

  /** The messages are the buckets in order. */
  ghost predicate NetworkOk(plan: seq<Launch>, s: State) {
    && |s.messages| == 2 * s.sent + (if s.sending == MetaMoved || s.sending == DataMoving then 1 else 0)
    && forall j: nat {:trigger MessageAt(plan, s.messages, j)} | j < |s.messages| :: MessageAt(plan, s.messages, j)
  }

  ghost predicate Holds(plan: seq<Launch>, s: State, k: nat)
    requires k < |plan| && |s.recvMeta| == |s.recvData| == 2
  {
    s.recvMeta[k % 2] == plan[k].meta && Full(s.recvData[k % 2], plan[k])
  }

  /** The receives enqueued: up to the bucket at hand, and the next once that is parsed, if there is one. */
  ghost function Enqueued(plan: seq<Launch>, s: State): int {
    if (s.host == Yielding || s.host == Done) && s.current + 1 < |plan| then s.current + 2 else s.current + 1
  }

  ghost predicate ReceiverOk(plan: seq<Launch>, s: State) {
    && |s.recvMeta| == |s.recvData| == 2 && s.current < |plan| && s.buf == s.current % 2
    && |s.slots| == Enqueued(plan, s) && (forall k | 0 <= k < |s.slots| :: s.slots[k] == k % 2)
    && s.received <= |s.slots| && (s.receiving != Idle ==> s.received < |s.slots|)
    && (s.host != Waiting ==> s.received > s.current) && (s.host == Waiting && s.current > 0 ==> s.received > s.current)
    && (s.received > 0 ==> Holds(plan, s, s.received - 1))
    && (s.receiving == MetaMoved || s.receiving == DataMoving ==> s.recvMeta[s.received % 2] == plan[s.received].meta)
    && (s.host == Done ==> s.current == |plan| - 1)
  }

  /** The bucket that reads are of: the one at hand, or the one before while the next is waited for. */
  ghost function ReadBucket(s: State): int {
    if s.host == Waiting then s.current - 1 else s.current
  }

  /** Reads that are given out find their bucket intact, and what has been read is what was sent, in order. */
  ghost predicate ReadsOk(plan: seq<Launch>, s: State) {
    var b := ReadBucket(s);
    if b < 0 then s.yielded == s.consumed == 0 && s.out == []
    else
      && b < |plan| && |s.recvData| == 2 && s.known == plan[b].meta && s.reading == b % 2
      && Full(s.recvData[b % 2], plan[b])
      && s.consumed <= s.yielded <= |plan[b].weights|
      && (s.host == Waiting || s.host == Done ==> s.yielded == |plan[b].weights|)
      && s.out == Flatten(plan[..b]) + plan[b].weights[..s.consumed]
  }

  ghost predicate Inv(plan: seq<Launch>, size: nat, s: State) {
    SenderOk(plan, size, s) && NetworkOk(plan, s) && ReceiverOk(plan, s) && ReadsOk(plan, s)
  }

  // ----- Copying into a bucket -----

  lemma EntryAt(l: Launch, size: nat, j: nat)
    requires LayoutOk(l.weights, l.meta.tensors, size) && j < |l.weights|
    ensures var e := l.meta.tensors[j];
            e == EntryFor(l.weights[j], e.offset) && e.offset + e.nbytes <= size && e.nbytes == |l.weights[j].bytes|
    ensures forall i | 0 <= i < j :: l.meta.tensors[i].offset + l.meta.tensors[i].nbytes <= l.meta.tensors[j].offset
  {
    var ws := l.weights;
    assert l.meta.tensors[j] == EntryFor(ws[j], TotalBytes(ws[..j]));
    TotalGrows(ws, j, |ws|);
    assert ws[..|ws|] == ws;
    forall i | 0 <= i < j ensures l.meta.tensors[i].offset + l.meta.tensors[i].nbytes <= l.meta.tensors[j].offset {
      assert l.meta.tensors[i] == EntryFor(ws[i], TotalBytes(ws[..i]));
      TotalGrows(ws, i, j);
    }
  }

  lemma {:induction false} TotalGrows(ws: seq<Weight>, i: nat, n: nat)
    requires i < n <= |ws|
    ensures TotalBytes(ws[..i]) + |ws[i].bytes| <= TotalBytes(ws[..n])
  {
    assert ws[..n][..n - 1] == ws[..n - 1];
    if i < n - 1 {
      TotalGrows(ws, i, n - 1);
    }
  }

  /** A copy adds its weight to the bucket and touches none of those before. */
  lemma CopyFills(data: Buffer, l: Launch, size: nat, n: nat)
    requires LayoutOk(l.weights, l.meta.tensors, size) && |data| == size && Filled(data, l, n) && n < |l.weights|
    ensures Filled(Written(data, l.meta.tensors[n].offset, l.weights[n].bytes), l, n + 1)
  {
    var e := l.meta.tensors[n];
    var r := Written(data, e.offset, l.weights[n].bytes);
    EntryAt(l, size, n);
    forall j | 0 <= j < n + 1 ensures ItemThere(r, l, j) {
      EntryAt(l, size, j);
      if j < n {
        assert ItemThere(data, l, j);
        var f := l.meta.tensors[j];
        assert r[f.offset..f.offset + f.nbytes] == data[f.offset..f.offset + f.nbytes];
      } else {
        assert r[e.offset..e.offset + e.nbytes] == l.weights[n].bytes;
      }
    }
  }

  // ----- Every step keeps the invariants -----

  lemma PlanAt(plan: seq<Launch>, size: nat, k: nat)
    requires PlanOk(plan, size) && k < |plan|
    ensures LaunchOk(plan[k], k, k == |plan| - 1, size) && plan[k].idx == k % 2 && plan[k].waitsFor == k - 1
    ensures LayoutOk(plan[k].weights, plan[k].meta.tensors, size) && |plan[k].weights| == |plan[k].meta.tensors|
  {
  }

  lemma SenderKeeps(plan: seq<Launch>, size: nat, s: State, a: Action)
    requires PlanOk(plan, size) && SenderOk(plan, size, s) && Enabled(plan, s, a)
    ensures SenderOk(plan, size, Next(plan, s, a))
  {
    if a.Copy? {
      SenderCopies(plan, size, s);
    } else {
      hide LayoutOk, PlanOk;
      if s.packed < |plan| {
        PlanAt(plan, size, s.packed);
      }
      if s.packed + 1 < |plan| {
        PlanAt(plan, size, s.packed + 1);
      }
    }
  }

  lemma SenderCopies(plan: seq<Launch>, size: nat, s: State)
    requires PlanOk(plan, size) && SenderOk(plan, size, s) && Enabled(plan, s, Copy)
    ensures SenderOk(plan, size, Next(plan, s, Copy))
  {
    hide Filled, LayoutOk, PlanOk;
    PlanAt(plan, size, s.packed);
    CopyFills(s.sendData[s.packed % 2], plan[s.packed], size, s.item);
  }

  lemma Halves(n: nat)
    ensures 2 * n / 2 == n && 2 * n % 2 == 0 && (2 * n + 1) / 2 == n && (2 * n + 1) % 2 == 1
  {
  }

  /** One more message, at its place. */
  lemma MessageAdded(plan: seq<Launch>, messages: seq<Message>, m: Message)
    requires forall j: nat {:trigger MessageAt(plan, messages, j)} | j < |messages| :: MessageAt(plan, messages, j)
    requires MessageAt(plan, messages + [m], |messages|)
    ensures forall j: nat {:trigger MessageAt(plan, messages + [m], j)} | j < |messages| + 1 ::
              MessageAt(plan, messages + [m], j)
  {
    forall j: nat | j < |messages| + 1 ensures MessageAt(plan, messages + [m], j) {
      assert j < |messages| ==> MessageAt(plan, messages, j);
    }
  }

  lemma NetworkKeeps(plan: seq<Launch>, size: nat, s: State, a: Action)
    requires PlanOk(plan, size) && SenderOk(plan, size, s) && NetworkOk(plan, s) && Enabled(plan, s, a)
    ensures NetworkOk(plan, Next(plan, s, a))
  {
    if a.SendMetaEnd? {
      MetaMessageSent(plan, size, s);
      MessageAdded(plan, s.messages, MetaMessage(s.sendMeta[plan[s.sent].idx]));
    } else if a.SendDataEnd? {
      DataMessageSent(plan, size, s);
      MessageAdded(plan, s.messages, DataMessage(s.sendData[plan[s.sent].idx]));
    }
    hide Full, PlanOk, MessageAt;
  }

  lemma MetaMessageSent(plan: seq<Launch>, size: nat, s: State)
    requires PlanOk(plan, size) && SenderOk(plan, size, s) && NetworkOk(plan, s) && Enabled(plan, s, SendMetaEnd)
    ensures MessageAt(plan, s.messages + [MetaMessage(s.sendMeta[plan[s.sent].idx])], |s.messages|)
  {
    PlanAt(plan, size, s.sent);
    Halves(s.sent);
    hide Full, PlanOk, LayoutOk;
  }

  lemma DataMessageSent(plan: seq<Launch>, size: nat, s: State)
    requires PlanOk(plan, size) && SenderOk(plan, size, s) && NetworkOk(plan, s) && Enabled(plan, s, SendDataEnd)
    ensures MessageAt(plan, s.messages + [DataMessage(s.sendData[plan[s.sent].idx])], |s.messages|)
  {
    PlanAt(plan, size, s.sent);
    Halves(s.sent);
    hide Full, PlanOk, LayoutOk;
  }

  /** A receive starting touches neither the bucket last received nor, in the case of data, the metadata. */
  lemma StartKeeps(plan: seq<Launch>, size: nat, s: State, a: Action)
    requires ReceiverOk(plan, s) && Enabled(plan, s, a) && (a.RecvMetaStart? || a.RecvDataStart?)
    ensures ReceiverOk(plan, Next(plan, s, a))
  {
    hide Full;
  }

  lemma MetaEndKeeps(plan: seq<Launch>, size: nat, s: State)
    requires NetworkOk(plan, s) && ReceiverOk(plan, s) && Enabled(plan, s, RecvMetaEnd)
    ensures ReceiverOk(plan, Next(plan, s, RecvMetaEnd))
  {
    assert MessageAt(plan, s.messages, 2 * s.received);
    hide Full, NetworkOk;
  }

  lemma DataEndKeeps(plan: seq<Launch>, size: nat, s: State)
    requires NetworkOk(plan, s) && ReceiverOk(plan, s) && Enabled(plan, s, RecvDataEnd)
    ensures ReceiverOk(plan, Next(plan, s, RecvDataEnd))
  {
    assert MessageAt(plan, s.messages, 2 * s.received + 1);
    hide Full, NetworkOk;
  }

  lemma AdvanceKeeps(plan: seq<Launch>, size: nat, s: State)
    requires PlanOk(plan, size) && ReceiverOk(plan, s) && ReadsOk(plan, s) && Enabled(plan, s, Advance)
    ensures ReceiverOk(plan, Next(plan, s, Advance))
  {
    PlanAt(plan, size, s.current);
    ReadsKnown(plan, s);
    hide Full, PlanOk, Holds, ReadsOk, LaunchOk, LayoutOk;
    HoldsSame(plan, s, Next(plan, s, Advance));
  }

  lemma PrefetchKeeps(plan: seq<Launch>, size: nat, s: State)
    requires PlanOk(plan, size) && ReceiverOk(plan, s) && ReadsOk(plan, s) && Enabled(plan, s, Prefetch)
    ensures ReceiverOk(plan, Next(plan, s, Prefetch))
  {
    PlanAt(plan, size, s.current);
    ReadsKnown(plan, s);
    hide Full, PlanOk, Holds, ReadsOk, LaunchOk, LayoutOk;
    HoldsSame(plan, s, Next(plan, s, Prefetch));
    assert |s.slots| == s.current + 1 && 1 - s.buf == (s.current + 1) % 2;
  }

  lemma ParseKeeps(plan: seq<Launch>, s: State)
    requires ReceiverOk(plan, s) && Enabled(plan, s, Parse)
    ensures ReceiverOk(plan, Next(plan, s, Parse))
  {
    hide Holds;
    HoldsSame(plan, s, Next(plan, s, Parse));
  }

  lemma YieldKeeps(plan: seq<Launch>, s: State)
    requires ReceiverOk(plan, s) && Enabled(plan, s, Yield)
    ensures ReceiverOk(plan, Next(plan, s, Yield))
  {
    hide Holds;
    HoldsSame(plan, s, Next(plan, s, Yield));
  }

  lemma ReadsKnown(plan: seq<Launch>, s: State)
    requires ReadsOk(plan, s) && s.current < |plan|
    ensures s.host == Parsed || s.host == Yielding ==> s.known == plan[s.current].meta
  {
  }

  lemma HoldsSame(plan: seq<Launch>, s: State, t: State)
    ensures |s.recvMeta| == |s.recvData| == 2 && s.recvMeta == t.recvMeta && s.recvData == t.recvData ==>
              forall k: nat | k < |plan| :: Holds(plan, s, k) == Holds(plan, t, k)
  {
  }

  lemma ReceiverKeeps(plan: seq<Launch>, size: nat, s: State, a: Action)
    requires PlanOk(plan, size) && NetworkOk(plan, s) && ReceiverOk(plan, s) && ReadsOk(plan, s) && Enabled(plan, s, a)
    ensures ReceiverOk(plan, Next(plan, s, a))
  {
    if a.RecvMetaStart? || a.RecvDataStart? {
      StartKeeps(plan, size, s, a);
    } else if a.RecvMetaEnd? {
      MetaEndKeeps(plan, size, s);
    } else if a.RecvDataEnd? {
      DataEndKeeps(plan, size, s);
    } else if a.Advance? {
      AdvanceKeeps(plan, size, s);
    } else if a.Prefetch? {
      PrefetchKeeps(plan, size, s);
    } else if a.Parse? {
      ParseKeeps(plan, s);
    } else if a.Yield? {
      YieldKeeps(plan, s);
    } else {
      hide Full, PlanOk, Holds;
      HoldsSame(plan, s, Next(plan, s, a));
    }
  }

  lemma FlattenNext(plan: seq<Launch>, k: nat)
    requires k < |plan|
    ensures Flatten(plan[..k + 1]) == Flatten(plan[..k]) + plan[k].weights
  {
    assert plan[..k + 1][..k] == plan[..k];
  }

  /** What a read delivers is the weight that was packed. */
  lemma ReadRight(plan: seq<Launch>, size: nat, s: State)
    requires PlanOk(plan, size) && ReadsOk(plan, s) && Enabled(plan, s, Read)
    ensures ReadsOk(plan, Next(plan, s, Read))
  {
    var b := ReadBucket(s);
    var l, j := plan[b], s.consumed;
    PlanAt(plan, size, b);
    EntryAt(l, size, j);
    assert ItemThere(s.recvData[b % 2], l, j);
    assert l.weights[..j + 1] == l.weights[..j] + [l.weights[j]];
  }

  /** Parsing starts on the next bucket when all of the last has been read. */
  lemma ParseRight(plan: seq<Launch>, size: nat, s: State)
    requires PlanOk(plan, size) && ReceiverOk(plan, s) && ReadsOk(plan, s) && Enabled(plan, s, Parse)
    ensures ReadsOk(plan, Next(plan, s, Parse))
  {
    var k := s.current;
    assert Holds(plan, s, s.received - 1) && s.received == k + 1;
    if k > 0 {
      FlattenNext(plan, k - 1);
      assert plan[k - 1].weights[..|plan[k - 1].weights|] == plan[k - 1].weights;
    }
    assert plan[..0] == [];
  }

  /** No receive goes into the buffer that is read. */
  lemma ReadBufferKept(plan: seq<Launch>, s: State, a: Action)
    requires ReceiverOk(plan, s) && Enabled(plan, s, a) && !a.Parse? && ReadBucket(s) >= 0
    ensures var t := Next(plan, s, a);
            && |t.recvData| == 2
            && t.recvData[ReadBucket(s) % 2] == s.recvData[ReadBucket(s) % 2] && t.reading == s.reading
            && t.known == s.known
  {
    hide Holds;
  }

  lemma ReadsKeep(plan: seq<Launch>, size: nat, s: State, a: Action)
    requires PlanOk(plan, size) && ReceiverOk(plan, s) && ReadsOk(plan, s) && Enabled(plan, s, a)
    ensures ReadsOk(plan, Next(plan, s, a))
  {
    if a.Read? {
      ReadRight(plan, size, s);
    } else if a.Parse? {
      ParseRight(plan, size, s);
    } else {
      PlanAt(plan, size, s.current);
      if ReadBucket(s) >= 0 {
        ReadBufferKept(plan, s, a);
      }
      hide PlanOk, LayoutOk, Filled, Full, Flatten, LaunchOk, Holds, ReceiverOk;
      OtherKeeps(plan, s, a);
    }
  }

  lemma OtherKeeps(plan: seq<Launch>, s: State, a: Action)
    requires ReadsOk(plan, s) && Enabled(plan, s, a) && !a.Read? && !a.Parse?
    requires s.current < |plan| && |plan[s.current].weights| == |plan[s.current].meta.tensors|
             && plan[s.current].meta.isLast == (s.current == |plan| - 1)
    requires ReadBucket(s) >= 0 ==> (var t := Next(plan, s, a);
               |t.recvData| == 2 && t.recvData[ReadBucket(s) % 2] == s.recvData[ReadBucket(s) % 2]
                 && t.reading == s.reading && t.known == s.known)
    ensures ReadsOk(plan, Next(plan, s, a))
  {
    hide Full, Flatten;
  }

  // ----- Every run -----

  lemma InitOk(plan: seq<Launch>, size: nat, s: State)
    requires PlanOk(plan, size) && Init(s, size)
    ensures Inv(plan, size, s)
  {
    PlanAt(plan, size, 0);
  }

  /** The invariants hold in every state of every run. */
  lemma {:induction false} RunOk(plan: seq<Launch>, size: nat, states: seq<State>, actions: seq<Action>, i: nat)
    requires PlanOk(plan, size) && Run(plan, size, states, actions) && i < |states|
    ensures Inv(plan, size, states[i])
  {
    if i == 0 {
      InitOk(plan, size, states[0]);
    } else {
      RunOk(plan, size, states, actions, i - 1);
      var s, a := states[i - 1], actions[i - 1];
      assert StepAt(plan, states, actions, i - 1);
      hide PlanOk, Run, SenderOk, NetworkOk, ReceiverOk, ReadsOk, Enabled, Next;
      SenderKeeps(plan, size, s, a);
      NetworkKeeps(plan, size, s, a);
      ReceiverKeeps(plan, size, s, a);
      ReadsKeep(plan, size, s, a);
    }
  }

  lemma {:induction false} FlattenPrefix(plan: seq<Launch>, k: nat)
    requires k <= |plan|
    ensures Flatten(plan[..k]) <= Flatten(plan)
    decreases |plan| - k
  {
    if k < |plan| {
      FlattenNext(plan, k);
      FlattenPrefix(plan, k + 1);
    } else {
      assert plan[..k] == plan;
    }
  }

  /** At all times what the consumer has read is the first of the weights sent, names, shapes and bytes, in
      order; and when the receiver's loop is over and all reads are done, it is all of them. */
  lemma TransferCorrect(plan: seq<Launch>, size: nat, weights: seq<Weight>, states: seq<State>, actions: seq<Action>,
                        i: nat)
    requires PlanOk(plan, size) && Flatten(plan) == weights && Run(plan, size, states, actions) && i < |states|
    ensures states[i].out <= weights
    ensures states[i].host == Done && states[i].consumed == states[i].yielded ==> states[i].out == weights
  {
    RunOk(plan, size, states, actions, i);
    var s := states[i];
    var b := ReadBucket(s);
    if b >= 0 {
      FlattenNext(plan, b);
      FlattenPrefix(plan, b + 1);
      assert s.out <= Flatten(plan[..b + 1]);
      if s.host == Done && s.consumed == s.yielded {
        assert plan[..b + 1] == plan && plan[b].weights[..|plan[b].weights|] == plan[b].weights;
      }
    }
  }

  /** A bucket packed and not yet sent, even while it is being sent, is never written over: the bucket being
      packed uses the other buffer, and metadata is written only when nothing is left to send. */
  lemma NoSendOverwritten(plan: seq<Launch>, size: nat, states: seq<State>, actions: seq<Action>, i: nat, k: nat)
    requires PlanOk(plan, size) && Run(plan, size, states, actions) && i < |actions|
    requires k < |plan| && states[i].sent <= k < states[i].packed
    ensures actions[i].Copy? ==> states[i].packed < |plan| && plan[k].idx != plan[states[i].packed].idx
    ensures !actions[i].PackMeta?
    ensures plan[k].idx < |states[i + 1].sendMeta| == |states[i + 1].sendData|
    ensures states[i + 1].sendMeta[plan[k].idx] == plan[k].meta && Full(states[i + 1].sendData[plan[k].idx], plan[k])
  {
    RunOk(plan, size, states, actions, i);
    assert StepAt(plan, states, actions, i);
    SendIntact(plan, size, states[i], actions[i], k);
  }

  lemma SendIntact(plan: seq<Launch>, size: nat, s: State, a: Action, k: nat)
    requires PlanOk(plan, size) && SenderOk(plan, size, s) && Enabled(plan, s, a) && s.sent <= k < s.packed
    ensures (a.Copy? ==> plan[k].idx != plan[s.packed].idx) && !a.PackMeta?
    ensures var t := Next(plan, s, a);
            plan[k].idx < |t.sendMeta| == |t.sendData| && t.sendMeta[plan[k].idx] == plan[k].meta
              && Full(t.sendData[plan[k].idx], plan[k])
  {
    PlanAt(plan, size, k);
    if s.packed < |plan| {
      PlanAt(plan, size, s.packed);
    }
    hide Full, Filled, PlanOk, LayoutOk;
  }

  /** A buffer is received into only when all reads from it are done and its metadata has been parsed. */
  lemma NoReadOverwritten(plan: seq<Launch>, size: nat, states: seq<State>, actions: seq<Action>, i: nat)
    requires PlanOk(plan, size) && Run(plan, size, states, actions) && i < |states|
    requires states[i].received < |states[i].slots|
    ensures states[i].consumed < states[i].yielded ==> states[i].slots[states[i].received] != states[i].reading
    ensures states[i].host == Waiting ==> states[i].current == states[i].received == 0
  {
    RunOk(plan, size, states, actions, i);
  }

  /** The transfer cannot get stuck: while anything is left to do, some step can be taken. */
  lemma NeverStuck(plan: seq<Launch>, size: nat, states: seq<State>, actions: seq<Action>, i: nat)
    requires PlanOk(plan, size) && Run(plan, size, states, actions) && i < |states|
    requires !(states[i].host == Done && states[i].consumed == states[i].yielded)
    ensures exists a :: Enabled(plan, states[i], a)
  {
    RunOk(plan, size, states, actions, i);
    var s := states[i];
    PlanAt(plan, size, s.current);
    if s.consumed < s.yielded {
      assert Enabled(plan, s, Read);
    } else if s.host == Parsed {
      assert Enabled(plan, s, Prefetch);
    } else if s.host == Yielding && s.yielded < |s.known.tensors| {
      assert Enabled(plan, s, Yield);
    } else if s.host == Waiting && s.received > s.current {
      assert Enabled(plan, s, Parse);
    } else if s.host == Yielding && (s.known.isLast || s.received > s.current + 1) {
      assert Enabled(plan, s, Advance);
    } else {
      StreamsMove(plan, size, s);
    }
  }

  /** While a receive is outstanding, the receiving stream, the sending stream or the packing can go on. */
  lemma StreamsMove(plan: seq<Launch>, size: nat, s: State)
    requires PlanOk(plan, size) && Inv(plan, size, s) && s.received < |s.slots|
    ensures exists a :: Enabled(plan, s, a)
  {
    hide PlanOk, ReadsOk, SenderOk, Holds;
    if s.receiving == Idle {
      assert Enabled(plan, s, RecvMetaStart(plan[0].meta));
    } else if s.receiving == MetaMoved {
      assert Enabled(plan, s, RecvDataStart([]));
    } else if s.receiving == MetaMoving && 2 * s.received < |s.messages| {
      assert MessageAt(plan, s.messages, 2 * s.received);
      assert Enabled(plan, s, RecvMetaEnd);
    } else if s.receiving == DataMoving && 2 * s.received + 1 < |s.messages| {
      assert MessageAt(plan, s.messages, 2 * s.received + 1);
      assert Enabled(plan, s, RecvDataEnd);
    } else {
      SenderMoves(plan, size, s);
    }
  }

  lemma SenderMoves(plan: seq<Launch>, size: nat, s: State)
    requires PlanOk(plan, size) && Inv(plan, size, s) && s.sent < |plan|
    ensures exists a :: Enabled(plan, s, a)
  {
    PlanAt(plan, size, s.sent);
    if s.sending == MetaMoving {
      assert Enabled(plan, s, SendMetaEnd);
    } else if s.sending == MetaMoved {
      assert Enabled(plan, s, SendDataStart);
    } else if s.sending == DataMoving {
      assert Enabled(plan, s, SendDataEnd);
    } else if s.sent < s.packed {
      assert Enabled(plan, s, SendMetaStart);
    } else if s.waited {
      assert Enabled(plan, s, PackMeta);
    } else if s.item < |plan[s.packed].weights| {
      assert Enabled(plan, s, Copy);
    } else {
      assert Enabled(plan, s, PassWait);
    }
  }

  // ----- Every run ends -----

  function Passed(p: Phase): nat {
    match p
    case Idle => 0
    case MetaMoving => 1
    case MetaMoved => 2
    case DataMoving => 3
  }

  function Along(h: Host): nat {
    match h
    case Waiting => 0
    case Parsed => 1
    case Yielding => 2
    case Done => 3
  }

  /** The number of weights in the first k buckets. */
  ghost function Count(plan: seq<Launch>, k: int): nat {
    if 0 <= k <= |plan| then |Flatten(plan[..k])| else 0
  }

  /** The work done by the default stream of the sender: two steps a bucket and one a weight. */
  ghost function Packing(plan: seq<Launch>, s: State): int {
    Count(plan, s.packed) + 2 * s.packed + s.item + (if s.waited then 1 else 0)
  }

  /** The work done by the two transfer streams, four steps a bucket each, and by the loop, three a bucket. */
  ghost function Moving(s: State): int {
    4 * s.sent + Passed(s.sending) + 4 * s.received + Passed(s.receiving) + 3 * s.current + Along(s.host)
  }

  /** The tensors given out and those read, over all buckets. */
  ghost function Giving(plan: seq<Launch>, s: State): int {
    Count(plan, ReadBucket(s)) + s.yielded + |s.out|
  }

  ghost function Work(plan: seq<Launch>, s: State): int {
    Packing(plan, s) + Moving(s) + Giving(plan, s)
  }

  lemma CountNext(plan: seq<Launch>, k: nat)
    requires k < |plan|
    ensures Count(plan, k + 1) == Count(plan, k) + |plan[k].weights| && Count(plan, 0) == 0
  {
    FlattenNext(plan, k);
  }

  lemma CountMost(plan: seq<Launch>, k: int)
    ensures Count(plan, k) <= |Flatten(plan)| == Count(plan, |plan|)
  {
    assert plan[..|plan|] == plan;
    if 0 <= k <= |plan| {
      FlattenPrefix(plan, k);
    }
  }

  lemma PackingAdvances(plan: seq<Launch>, size: nat, s: State, a: Action)
    requires SenderOk(plan, size, s) && Enabled(plan, s, a)
    ensures Packing(plan, Next(plan, s, a)) == Packing(plan, s) + if a.Copy? || a.PassWait? || a.PackMeta? then 1 else 0
  {
    if a.PackMeta? {
      CountNext(plan, s.packed);
    }
    hide Filled, Full, Count;
  }

  lemma MovingAdvances(plan: seq<Launch>, s: State, a: Action)
    requires Enabled(plan, s, a)
    requires s.host == Yielding && s.known.isLast ==> s.current == |plan| - 1
    ensures Moving(Next(plan, s, a)) ==
            Moving(s) + if a.Copy? || a.PassWait? || a.PackMeta? || a.Yield? || a.Read? then 0 else 1
  {
  }

  /** Parsing moves the count to the next bucket, all tensors of the last having been given out. */
  lemma ParseGives(plan: seq<Launch>, s: State)
    requires ReceiverOk(plan, s) && ReadsOk(plan, s) && Enabled(plan, s, Parse)
    ensures Giving(plan, Next(plan, s, Parse)) == Giving(plan, s)
  {
    CountNext(plan, 0);
    if s.current > 0 {
      CountNext(plan, s.current - 1);
    }
    hide Full, Holds, Count, Flatten;
  }

  lemma GivingAdvances(plan: seq<Launch>, s: State, a: Action)
    requires ReceiverOk(plan, s) && ReadsOk(plan, s) && Enabled(plan, s, a)
    ensures Giving(plan, Next(plan, s, a)) == Giving(plan, s) + if a.Yield? || a.Read? then 1 else 0
  {
    hide ReceiverOk, ReadsOk, Count, Flatten;
    if a.Parse? {
      ParseGives(plan, s);
    }
  }

  /** Every step does one unit of the work. */
  lemma StepAdvances(plan: seq<Launch>, size: nat, s: State, a: Action)
    requires PlanOk(plan, size) && Inv(plan, size, s) && Enabled(plan, s, a)
    ensures Work(plan, Next(plan, s, a)) == Work(plan, s) + 1
  {
    PlanAt(plan, size, s.current);
    ReadsKnown(plan, s);
    hide PlanOk, LaunchOk, LayoutOk, SenderOk, NetworkOk, ReceiverOk, ReadsOk, Enabled, Next, Packing, Moving, Giving;
    PackingAdvances(plan, size, s, a);
    MovingAdvances(plan, s, a);
    GivingAdvances(plan, s, a);
  }

  /** All there is to do: thirteen steps a bucket and three a weight. */
  ghost function AllWork(plan: seq<Launch>): nat {
    13 * |plan| + 3 * |Flatten(plan)|
  }

  lemma PackingBounded(plan: seq<Launch>, size: nat, s: State)
    requires SenderOk(plan, size, s)
    ensures Packing(plan, s) <= |Flatten(plan)| + 2 * |plan|
    ensures s.packed == |plan| ==> Packing(plan, s) == |Flatten(plan)| + 2 * |plan|
  {
    CountMost(plan, s.packed);
    if s.packed < |plan| {
      CountNext(plan, s.packed);
      CountMost(plan, s.packed + 1);
    }
    hide Full, Count, Flatten;
  }

  lemma MovingBounded(plan: seq<Launch>, size: nat, s: State)
    requires SenderOk(plan, size, s) && ReceiverOk(plan, s)
    ensures Moving(s) <= 11 * |plan|
    ensures s.sent == |plan| && s.received == |plan| && s.host == Done ==> Moving(s) == 11 * |plan|
  {
    hide Full, Filled, Holds;
  }

  lemma GivingBounded(plan: seq<Launch>, s: State)
    requires ReadsOk(plan, s)
    ensures Giving(plan, s) <= 2 * |Flatten(plan)|
    ensures ReadBucket(s) == |plan| - 1 && s.host == Done && s.consumed == s.yielded ==>
              Giving(plan, s) == 2 * |Flatten(plan)|
  {
    var b := ReadBucket(s);
    if b >= 0 {
      CountNext(plan, b);
      CountMost(plan, b + 1);
    } else {
      CountMost(plan, b);
    }
    hide Full;
  }

  lemma WorkBounded(plan: seq<Launch>, size: nat, s: State)
    requires Inv(plan, size, s)
    ensures Work(plan, s) <= AllWork(plan)
  {
    hide SenderOk, NetworkOk, ReceiverOk, ReadsOk, Packing, Moving, Giving;
    PackingBounded(plan, size, s);
    MovingBounded(plan, size, s);
    GivingBounded(plan, s);
  }

  /** A step of a run, from a state with the invariants. */
  lemma RunStep(plan: seq<Launch>, size: nat, states: seq<State>, actions: seq<Action>, i: nat)
    requires PlanOk(plan, size) && Run(plan, size, states, actions) && i < |actions|
    ensures Inv(plan, size, states[i]) && Inv(plan, size, states[i + 1])
    ensures Enabled(plan, states[i], actions[i]) && states[i + 1] == Next(plan, states[i], actions[i])
  {
    hide PlanOk, Inv, Init, Enabled, Next;
    RunOk(plan, size, states, actions, i);
    RunOk(plan, size, states, actions, i + 1);
    assert StepAt(plan, states, actions, i);
  }

  lemma RunBegins(plan: seq<Launch>, size: nat, states: seq<State>, actions: seq<Action>)
    requires Run(plan, size, states, actions)
    ensures |states| == |actions| + 1 && Init(states[0], size)
  {
  }

  /** A run of n steps has done n units of the work, so no run is longer than all the work. */
  lemma {:induction false} RunBounded(plan: seq<Launch>, size: nat, states: seq<State>, actions: seq<Action>, i: nat)
    requires PlanOk(plan, size) && Run(plan, size, states, actions) && i < |states|
    ensures Work(plan, states[i]) == i <= AllWork(plan)
  {
    hide *;
    RunOk(plan, size, states, actions, i);
    RunBegins(plan, size, states, actions);
    if i == 0 {
      NoWork(plan, size, states[0]);
    } else {
      RunBounded(plan, size, states, actions, i - 1);
      RunStep(plan, size, states, actions, i - 1);
      StepAdvances(plan, size, states[i - 1], actions[i - 1]);
    }
    WorkBounded(plan, size, states[i]);
  }

  lemma NoWork(plan: seq<Launch>, size: nat, s: State)
    requires PlanOk(plan, size) && Init(s, size)
    ensures Work(plan, s) == 0
  {
    CountNext(plan, 0);
  }

  /** In a state where no step can be taken all buckets have been sent and received, and the work is done. */
  lemma StuckDone(plan: seq<Launch>, size: nat, s: State)
    requires PlanOk(plan, size) && Inv(plan, size, s) && s.host == Done && s.consumed == s.yielded
    requires forall a :: !Enabled(plan, s, a)
    ensures Work(plan, s) == AllWork(plan)
  {
    if s.sent < |plan| {
      SenderMoves(plan, size, s);
    }
    if s.received < |s.slots| {
      StreamsMove(plan, size, s);
    }
    AllSent(plan, size, s);
    hide PlanOk, SenderOk, NetworkOk, ReceiverOk, ReadsOk, Enabled, Packing, Moving, Giving;
    PackingBounded(plan, size, s);
    MovingBounded(plan, size, s);
    GivingBounded(plan, s);
  }

  lemma AllSent(plan: seq<Launch>, size: nat, s: State)
    requires SenderOk(plan, size, s) && ReceiverOk(plan, s) && s.host == Done
    ensures s.sent <= s.packed <= |plan| && |s.slots| == |plan| && ReadBucket(s) == |plan| - 1
  {
    hide Full, Filled, Holds;
  }

  /** Every run that cannot go on has done all the work and delivered all weights. */
  lemma RunEnds(plan: seq<Launch>, size: nat, weights: seq<Weight>, states: seq<State>, actions: seq<Action>)
    requires PlanOk(plan, size) && Flatten(plan) == weights && Run(plan, size, states, actions)
    requires forall a :: !Enabled(plan, states[|actions|], a)
    ensures |actions| == AllWork(plan) && states[|actions|].out == weights
  {
    var n := |actions|;
    hide PlanOk, Inv, Enabled, Work, AllWork;
    RunOk(plan, size, states, actions, n);
    RunBounded(plan, size, states, actions, n);
    if !(states[n].host == Done && states[n].consumed == states[n].yielded) {
      NeverStuck(plan, size, states, actions, n);
    }
    StuckDone(plan, size, states[n]);
    TransferCorrect(plan, size, weights, states, actions, n);
  }
}
