/**
 SuffixDecodingCache: one suffix tree of past responses for all requests and one of the prompt and
 response for each active request, with the sequence ids of the first and its eviction.
 */
module Caches {
  import opened FiniteSets
  import opened Sequences
  import opened Suffixes
  import opened Contents
  import opened Nodes
  import opened SuffixTrees
  import opened Drafting
  import opened Speculation

  /** Number of sequence ids: they are nonnegative 32-bit integers. */
  const IDS := 0x8000_0000

  // ----- The two dictionaries between requests and sequence ids -----

  /** The request dictionary in insertion order, and its inverse. */
  datatype Book<R> = Book(reqToSeq: map<R, int>, order: seq<R>, seqToReq: map<int, R>)

  ghost predicate Filed<R>(b: Book<R>, r: R) {
    r in b.reqToSeq ==>
      && 0 <= b.reqToSeq[r] < IDS && b.reqToSeq[r] in b.seqToReq && b.seqToReq[b.reqToSeq[r]] == r
      && r in b.order
  }

  ghost predicate FiledId<R>(b: Book<R>, s: int) {
    s in b.seqToReq ==> b.seqToReq[s] in b.reqToSeq && b.reqToSeq[b.seqToReq[s]] == s
  }

  /** The dictionaries are inverse to each other, and the order lists every request once. */
  ghost predicate BookOk<R(!new)>(b: Book<R>) {
    && (forall r {:trigger Filed(b, r)} :: Filed(b, r))
    && (forall s {:trigger FiledId(b, s)} :: FiledId(b, s))
    && (forall i | 0 <= i < |b.order| :: b.order[i] in b.reqToSeq)
    && Distinct(b.order)
  }

  function Without<R(==, !new)>(s: seq<R>, r: R): (w: seq<R>)
    ensures forall x :: x in w <==> x in s && x != r
    ensures r !in s ==> w == s
    ensures |w| <= |s| && (r in s ==> |w| < |s|)
  {
    if s == [] then [] else Without(s[..|s| - 1], r) + if s[|s| - 1] == r then [] else [s[|s| - 1]]
  }

  /** The others keep their order. */
  lemma {:induction false} WithoutAt<R(!new)>(s: seq<R>, i: nat)
    requires Distinct(s) && i < |s|
    ensures Without(s, s[i]) == s[..i] + s[i + 1..]
  {
    var l := |s| - 1;
    if i < l {
      WithoutAt(s[..l], i);
      AllButLast(s, i);
    } else {
      WithoutAbsent(s[..l], s[l]);
    }
  }

  lemma AllButLast<R>(s: seq<R>, i: nat)
    requires i < |s| - 1
    ensures var l := |s| - 1; s[i] == s[..l][i] && s[..i] + s[i + 1..] == s[..l][..i] + s[..l][i + 1..] + [s[l]]
  {
  }

  /** Removing a request from both dictionaries. */
  function Dropped<R(==, !new)>(b: Book<R>, r: R): Book<R>
    requires r in b.reqToSeq
  {
    Book(b.reqToSeq - {r}, Without(b.order, r), b.seqToReq - {b.reqToSeq[r]})
  }

  /** Entering a request under an id, last in order. */
  function Entered<R(==, !new)>(b: Book<R>, r: R, s: int): Book<R> {
    Book(b.reqToSeq[r := s], b.order + [r], b.seqToReq[s := r])
  }

  lemma {:induction false} WithoutDistinct<R(!new)>(s: seq<R>, r: R)
    requires Distinct(s)
    ensures Distinct(Without(s, r))
    ensures r in s ==> |Without(s, r)| == |s| - 1
  {
    if s != [] {
      WithoutDistinct(s[..|s| - 1], r);
      var w := Without(s[..|s| - 1], r);
      assert forall i | 0 <= i < |w| :: w[i] in w;
      assert s[|s| - 1] !in s[..|s| - 1];
    }
  }

  lemma DroppedOk<R(!new)>(b: Book<R>, r: R)
    requires BookOk(b) && r in b.reqToSeq
    ensures BookOk(Dropped(b, r)) && |Dropped(b, r).order| == |b.order| - 1
    ensures forall q | q in Dropped(b, r).reqToSeq ::
              q != r && q in b.reqToSeq && Dropped(b, r).reqToSeq[q] == b.reqToSeq[q]
                && b.reqToSeq[q] != b.reqToSeq[r]
  {
    var d := Dropped(b, r);
    assert Filed(b, r);
    WithoutDistinct(b.order, r);
    forall q ensures Filed(d, q) && (q in d.reqToSeq ==> b.reqToSeq[q] != b.reqToSeq[r]) {
      assert Filed(b, q);
    }
    forall s ensures FiledId(d, s) {
      assert FiledId(b, s);
    }
    assert forall i | 0 <= i < |d.order| :: d.order[i] in d.order;
    assert forall x | x in b.order :: x in b.reqToSeq;
  }

  lemma EnteredOk<R(!new)>(b: Book<R>, r: R, s: int)
    requires BookOk(b) && r !in b.reqToSeq && s !in b.seqToReq && 0 <= s < IDS
    ensures BookOk(Entered(b, r, s))
  {
    var e := Entered(b, r, s);
    forall q ensures Filed(e, q) {
      assert Filed(b, q);
    }
    forall i ensures FiledId(e, i) {
      assert FiledId(b, i);
    }
  }

  // ----- Choosing an id -----

  function IdAfter(start: int, k: nat): (s: int)
    ensures 0 <= s < IDS
  {
    (start + k) % IDS
  }

  /** The id belongs to a request that is active. */
  ghost predicate Taken<R>(b: Book<R>, active: set<R>, s: int) {
    s in b.seqToReq && b.seqToReq[s] in active
  }

  /** The first id from start on, counting round, that no active request has. */
  ghost predicate FirstFree<R>(b: Book<R>, active: set<R>, start: int, s: int) {
    && !Taken(b, active, s)
    && exists k: nat {:trigger IdAfter(start, k)} ::
         s == IdAfter(start, k) && forall j: nat {:trigger IdAfter(start, j)} | j < k ::
             Taken(b, active, IdAfter(start, j))
  }

  ghost function TriedIds(start: int, k: nat): set<int> {
    if k == 0 then {} else TriedIds(start, k - 1) + {IdAfter(start, k - 1)}
  }

  lemma {:induction false} TriedIdsAre(start: int, k: nat)
    requires k <= IDS
    ensures |TriedIds(start, k)| == k
    ensures forall s :: s in TriedIds(start, k) <==> exists j: nat {:trigger IdAfter(start, j)} | j < k ::
              s == IdAfter(start, j)
  {
    if k > 0 {
      TriedIdsAre(start, k - 1);
      forall j: nat | j < k - 1 ensures IdAfter(start, j) != IdAfter(start, k - 1) {
        IdsDiffer(start, j, k - 1);
      }
    }
  }

  lemma IdsDiffer(start: int, i: nat, j: nat)
    requires i < j < IDS
    ensures IdAfter(start, i) != IdAfter(start, j)
  {
  }

  /** There are no more ids held by active requests than active requests. */
  lemma HeldFew<R(!new)>(b: Book<R>, active: set<R>, start: int, k: nat)
    requires BookOk(b) && k <= IDS && forall j: nat {:trigger IdAfter(start, j)} | j < k ::
               Taken(b, active, IdAfter(start, j))
    ensures k <= |active|
  {
    TriedIdsAre(start, k);
    var s := TriedIds(start, k);
    forall x, y | x in s && y in s && x != y ensures b.seqToReq[x] != b.seqToReq[y] {
      assert FiledId(b, x) && FiledId(b, y);
    }
    InjectionCard(s, b.seqToReq, active);
  }

  // ----- What a start does to the dictionaries -----

  ghost function Forgotten<R(!new)>(b: Book<R>, r: R): Book<R> {
    if r in b.reqToSeq then Dropped(b, r) else b
  }

  /** An id wanted for a new request is taken from the request that has it. */
  ghost function Freed<R(!new)>(b: Book<R>, s: int): Book<R>
    requires BookOk(b)
  {
    assert FiledId(b, s);
    if s in b.seqToReq then Dropped(b, b.seqToReq[s]) else b
  }

  /** The oldest requests go while there are too many; a negative limit is none. */
  ghost function Kept<R(!new)>(b: Book<R>, max: int): Book<R>
    requires BookOk(b)
    decreases |b.order|
  {
    if max < 0 || |b.order| <= max then b
    else
      DroppedOk(b, b.order[0]);
      Kept(Dropped(b, b.order[0]), max)
  }

  /** The dictionaries before eviction, when the request r starts and gets the id s. */
  ghost function Enrolled<R(!new)>(b: Book<R>, r: R, s: int): Book<R>
    requires BookOk(b)
  {
    ForgottenOk(b, r);
    Entered(Freed(Forgotten(b, r), s), r, s)
  }

  ghost function Started<R(!new)>(b: Book<R>, r: R, s: int, max: int): Book<R>
    requires BookOk(b) && 0 <= s < IDS
  {
    EnrolledOk(b, r, s);
    Kept(Enrolled(b, r, s), max)
  }

  function Newest<R>(s: seq<R>, max: int): seq<R> {
    if max < 0 || |s| <= max then s else s[|s| - max..]
  }

  lemma {:induction false} WithoutAbsent<R(!new)>(s: seq<R>, r: R)
    requires r !in s
    ensures Without(s, r) == s
  {
  }

  /** Of the requests in order, eviction keeps the newest, with their ids. */
  lemma {:induction false} KeptNewest<R(!new)>(b: Book<R>, max: int)
    requires BookOk(b)
    ensures BookOk(Kept(b, max)) && (max >= 0 || |b.order| <= max ==> |Kept(b, max).order| <= max)
    ensures Kept(b, max).order == Newest(b.order, max)
    ensures forall q | q in Kept(b, max).reqToSeq :: q in b.reqToSeq && Kept(b, max).reqToSeq[q] == b.reqToSeq[q]
    decreases |b.order|
  {
    if !(max < 0 || |b.order| <= max) {
      var d := Dropped(b, b.order[0]);
      DroppedOk(b, b.order[0]);
      WithoutAt(b.order, 0);
      assert Kept(b, max) == Kept(d, max) && d.order == b.order[1..];
      hide *;
      KeptNewest(d, max);
      NewestRest(b.order, max);
    }
  }

  lemma NewestRest<R>(s: seq<R>, max: int)
    requires 0 <= max < |s|
    ensures Newest(s[1..], max) == Newest(s, max)
  {
  }

  lemma ForgottenOk<R(!new)>(b: Book<R>, r: R)
    requires BookOk(b)
    ensures BookOk(Forgotten(b, r)) && r !in Forgotten(b, r).reqToSeq && Forgotten(b, r).order == Without(b.order, r)
    ensures forall q | q in Forgotten(b, r).reqToSeq :: q in b.reqToSeq && Forgotten(b, r).reqToSeq[q] == b.reqToSeq[q]
    ensures forall s | s in Forgotten(b, r).seqToReq :: s in b.seqToReq && Forgotten(b, r).seqToReq[s] == b.seqToReq[s]
  {
    assert Filed(b, r);
    if r in b.reqToSeq {
      DroppedOk(b, r);
    } else {
      assert forall i | 0 <= i < |b.order| :: b.order[i] in b.reqToSeq;
      WithoutAbsent(b.order, r);
    }
  }

  lemma FreedOk<R(!new)>(b: Book<R>, s: int)
    requires BookOk(b)
    ensures BookOk(Freed(b, s)) && s !in Freed(b, s).seqToReq
    ensures Freed(b, s).order == if s in b.seqToReq then Without(b.order, b.seqToReq[s]) else b.order
    ensures forall q | q in Freed(b, s).reqToSeq :: q in b.reqToSeq && Freed(b, s).reqToSeq[q] == b.reqToSeq[q] != s
  {
    assert FiledId(b, s);
    if s in b.seqToReq {
      DroppedOk(b, b.seqToReq[s]);
    }
    forall q | q in Freed(b, s).reqToSeq ensures Freed(b, s).reqToSeq[q] != s {
      assert Filed(Freed(b, s), q);
    }
  }

  lemma EnrolledOk<R(!new)>(b: Book<R>, r: R, s: int)
    requires BookOk(b) && 0 <= s < IDS
    ensures var e := Enrolled(b, r, s);
            && BookOk(e) && r in e.reqToSeq && e.reqToSeq[r] == s
            && forall q | q in e.reqToSeq && q != r :: q in b.reqToSeq && e.reqToSeq[q] == b.reqToSeq[q] != s
  {
    ForgottenOk(b, r);
    FreedOk(Forgotten(b, r), s);
    EnteredOk(Freed(Forgotten(b, r), s), r, s);
  }

  /** The requests in order once r has the id s: without the entry r had before and without the
      request whose id it takes, and with r last. */
  function Requeued<R(==, !new)>(b: Book<R>, r: R, s: int): seq<R> {
    (if s in b.seqToReq && b.seqToReq[s] != r then Without(Without(b.order, r), b.seqToReq[s])
      else Without(b.order, r)) + [r]
  }

  lemma EnrolledOrder<R(!new)>(b: Book<R>, r: R, s: int)
    requires BookOk(b) && 0 <= s < IDS
    ensures Enrolled(b, r, s).order == Requeued(b, r, s)
  {
    var f := Forgotten(b, r);
    ForgottenOk(b, r);
    FreedOk(f, s);
    assert Filed(b, r) && FiledId(b, s) && FiledId(f, s);
    assert s in f.seqToReq <==> s in b.seqToReq && b.seqToReq[s] != r;
  }

  /** Starting a request puts it last in order, forgets what was cached for it and at most one other
      request, whose id it takes, and keeps the newest up to the limit, the new one among them. */
  lemma StartedOrder<R(!new)>(b: Book<R>, r: R, s: int, max: int)
    requires BookOk(b) && 0 <= s < IDS && max != 0
    ensures var k := Started(b, r, s, max);
            && BookOk(k) && (max > 0 ==> |k.order| <= max) && k.order == Newest(Requeued(b, r, s), max)
            && r in k.reqToSeq && k.reqToSeq[r] == s
            && forall q | q in k.reqToSeq && q != r :: q in b.reqToSeq && k.reqToSeq[q] == b.reqToSeq[q] != s
  {
    EnrolledOk(b, r, s);
    EnrolledOrder(b, r, s);
    var e, k := Enrolled(b, r, s), Started(b, r, s, max);
    KeptNewest(e, max);
    LastStays(Requeued(b, r, s), max);
    assert forall i | 0 <= i < |k.order| :: k.order[i] in k.reqToSeq;
  }

  /** Even when ids wrap around, no other active request loses its response to the new request's id. */
  lemma ActiveKeepIds<R(!new)>(b: Book<R>, r: R, active: set<R>, start: int, s: int, q: R)
    requires BookOk(b) && FirstFree(Forgotten(b, r), active, start, s) && q in active && q in b.reqToSeq && q != r
    ensures q in Requeued(b, r, s)
  {
    ForgottenOk(b, r);
    var f := Forgotten(b, r);
    assert Filed(b, q) && Filed(f, q) && FiledId(f, s) && FiledId(b, s) && Filed(b, r);
    assert s in b.seqToReq && b.seqToReq[s] != r ==> s in f.seqToReq && f.seqToReq[s] == b.seqToReq[s];
  }

  lemma LastStays<R>(s: seq<R>, max: int)
    requires s != [] && max != 0
    ensures Newest(s, max) != [] && Newest(s, max)[|Newest(s, max)| - 1] == s[|s| - 1]
  {
  }

  // ----- What the global tree holds -----

  /** The tree of responses has the response of every cached request under its id, except that an
      empty response has no sequence, and it has nothing else. */
  ghost predicate GlobalIs<R(!new)>(b: Book<R>, responses: map<R, Str>, seqs: Seqs) {
    && responses.Keys == b.reqToSeq.Keys
    && (forall r {:trigger responses[r]} | r in responses :: SeqOf(seqs, b.reqToSeq[r]) == responses[r])
    && (forall s {:trigger s in seqs} | s in seqs :: s in b.seqToReq && seqs[s] != [])
  }

  lemma GlobalDropped<R(!new)>(b: Book<R>, responses: map<R, Str>, seqs: Seqs, r: R)
    requires BookOk(b) && GlobalIs(b, responses, seqs) && r in b.reqToSeq
    ensures GlobalIs(Dropped(b, r), responses - {r}, seqs - {b.reqToSeq[r]})
  {
    DroppedOk(b, r);
    assert Filed(b, r);
  }

  lemma GlobalEntered<R(!new)>(b: Book<R>, responses: map<R, Str>, seqs: Seqs, r: R, s: int)
    requires BookOk(b) && GlobalIs(b, responses, seqs) && r !in b.reqToSeq && s !in b.seqToReq
    ensures GlobalIs(Entered(b, r, s), responses[r := []], seqs)
  {
  }

  lemma GlobalExtended<R(!new)>(b: Book<R>, responses: map<R, Str>, seqs: Seqs, r: R, tokens: Str)
    requires BookOk(b) && GlobalIs(b, responses, seqs) && r in b.reqToSeq
    ensures GlobalIs(b, responses[r := responses[r] + tokens], Extended(seqs, b.reqToSeq[r], tokens))
  {
    var s := b.reqToSeq[r];
    assert Filed(b, r);
    assert responses[r] == SeqOf(seqs, s);
    forall q | q in responses && q != r ensures SeqOf(Extended(seqs, s, tokens), b.reqToSeq[q]) == responses[q] {
      assert Filed(b, q);
    }
  }

  // ----- The cache -----

  datatype Outcome<T> = Ok(value: T) | ValueError

  class SuffixDecodingCache<R(==, !new)> {
    const maxTreeDepth: int
    const maxCachedRequests: int
    const globalTree: SuffixTree
    var localTrees: map<R, SuffixTree>
    var book: Book<R>
    var nextSeqId: int
    /** The tokens added for each cached request since it was last started. */
    ghost var responses: map<R, Str>
    /** The prompt of each active request and the tokens added since. */
    ghost var locals: map<R, Str>
    ghost var repr: set<object>

    /** The tree of an active request holds its prompt and response as its only sequence. */
    ghost predicate LocalAt(r: R)
      reads this`localTrees, this`locals, this`repr, globalTree, repr
    {
      r in localTrees ==>
        r in locals && localTrees[r] in repr && localTrees[r].nodes <= repr && localTrees[r].Valid()
        && localTrees[r].maxDepth == maxTreeDepth && localTrees[r] != globalTree
        && localTrees[r].nodes !! globalTree.nodes
        && localTrees[r].seqs == Extended(map[], 0, locals[r])
    }

    /** Different trees share nothing. */
    ghost predicate Separate(r: R, q: R)
      reads this`localTrees, this`locals, this`repr, globalTree, repr
    {
      r in localTrees && q in localTrees && r != q && localTrees[r] in repr && localTrees[q] in repr ==>
        localTrees[r] != localTrees[q] && localTrees[r].nodes !! localTrees[q].nodes
    }

    ghost predicate Trees()
      reads this`localTrees, this`locals, this`repr, globalTree, repr
    {
      && this !in repr && globalTree in repr && globalTree.nodes <= repr && globalTree.Valid()
      && globalTree.maxDepth == maxTreeDepth
      && locals.Keys == localTrees.Keys
      && (forall r {:trigger LocalAt(r)} :: LocalAt(r))
      && (forall r, q {:trigger Separate(r, q)} :: Separate(r, q))
    }

    /** The response tree holds what was added. */
    ghost predicate Records()
      reads this`book, this`nextSeqId, this`responses, globalTree
    {
      BookOk(book) && 0 <= nextSeqId < IDS && GlobalIs(book, responses, globalTree.seqs)
    }

    ghost predicate Usable()
      reads this, globalTree, repr
    {
      Trees() && Records() && maxTreeDepth >= 1
    }

    /** The number of cached requests is within the limit, if there is one. */
    ghost predicate Valid()
      reads this, globalTree, repr
    {
      Usable() && (maxCachedRequests >= 0 ==> |book.order| <= maxCachedRequests)
    }

    constructor (maxTreeDepth: int, maxCachedRequests: int)
      requires maxTreeDepth >= 1 && maxCachedRequests < IDS
      ensures Valid() && this.maxTreeDepth == maxTreeDepth && this.maxCachedRequests == maxCachedRequests
      ensures locals == map[] && responses == map[] && fresh(repr)
      ensures book == Book(map[], [], map[]) && nextSeqId == 0
    {
      hide SuffixTree.Valid;
      this.maxTreeDepth, this.maxCachedRequests := maxTreeDepth, maxCachedRequests;
      var tree := new SuffixTree(maxTreeDepth);
      globalTree := tree;
      localTrees, book, nextSeqId := map[], Book(map[], [], map[]), 0;
      responses, locals := map[], map[];
      repr := {tree} + tree.nodes;
    }

    // ----- Changes to the trees -----

    method ExtendGlobal(sid: int, tokens: Str)
      requires Trees()
      modifies this`repr, globalTree, globalTree.nodes
      ensures Trees() && globalTree.seqs == Extended(old(globalTree.seqs), sid, tokens)
      ensures repr >= old(repr) && fresh(repr - old(repr))
    {
      hide SuffixTree.Valid;
      assert forall r :: old(LocalAt(r));
      globalTree.Extend(sid, tokens);
      repr := repr + globalTree.nodes;
      forall r ensures LocalAt(r) {
        assert old(LocalAt(r));
      }
      forall r, q ensures Separate(r, q) {
        assert old(Separate(r, q)) && old(LocalAt(r)) && old(LocalAt(q));
      }
    }

    method RemoveGlobal(sid: int)
      requires Trees()
      modifies globalTree, globalTree.nodes
      ensures Trees() && globalTree.seqs == old(globalTree.seqs) - {sid} && globalTree.nodes <= old(globalTree.nodes)
    {
      hide SuffixTree.Valid;
      globalTree.Remove(sid);
      forall r ensures LocalAt(r) {
        assert old(LocalAt(r));
      }
      forall r, q ensures Separate(r, q) {
        assert old(Separate(r, q)) && old(LocalAt(r)) && old(LocalAt(q));
      }
    }

    method ExtendLocal(r: R, tokens: Str)
      requires Trees() && r in localTrees
      modifies this`repr, this`locals, localTrees[r], localTrees[r].nodes
      ensures Trees() && locals == old(locals)[r := old(locals)[r] + tokens]
      ensures repr >= old(repr) && fresh(repr - old(repr)) && globalTree.seqs == old(globalTree.seqs)
              && globalTree.nodes == old(globalTree.nodes)
    {
      hide SuffixTree.Valid;
      assert LocalAt(r);
      ExtendedTwice(locals[r], tokens);
      localTrees[r].Extend(0, tokens);
      repr := repr + localTrees[r].nodes;
      locals := locals[r := locals[r] + tokens];
      forall q ensures LocalAt(q) {
        assert old(LocalAt(q)) && old(Separate(r, q));
      }
      forall x, q ensures Separate(x, q) {
        assert old(Separate(x, q)) && old(LocalAt(x)) && old(LocalAt(q));
        assert old(Separate(r, q)) && old(Separate(r, x));
      }
    }

    method NewLocal(r: R, prompt: Str)
      requires Trees() && r !in localTrees && maxTreeDepth >= 1
      modifies this`localTrees, this`locals, this`repr
      ensures Trees() && locals == old(locals)[r := prompt] && localTrees.Keys == old(localTrees.Keys) + {r}
      ensures repr >= old(repr) && fresh(repr - old(repr))
    {
      hide SuffixTree.Valid;
      var tree := new SuffixTree(maxTreeDepth);
      tree.Extend(0, prompt);
      localTrees := localTrees[r := tree];
      locals := locals[r := prompt];
      repr := repr + {tree} + tree.nodes;
      assert globalTree.Valid();
      ExtendedTwice([], prompt);
      forall q ensures LocalAt(q) {
        assert old(LocalAt(q));
      }
      forall x, q ensures Separate(x, q) {
        assert old(Separate(x, q)) && old(LocalAt(x)) && old(LocalAt(q));
      }
    }

    method DropLocal(r: R)
      requires Trees() && r in localTrees
      modifies this`localTrees, this`locals
      ensures Trees() && locals == old(locals) - {r}
    {
      hide SuffixTree.Valid;
      localTrees := localTrees - {r};
      locals := locals - {r};
      forall q ensures LocalAt(q) {
        assert old(LocalAt(q));
      }
      forall x, q ensures Separate(x, q) {
        assert old(Separate(x, q));
      }
    }

    // ----- Changes to the records -----

    /** The search for an id in _generate_seq_id.  It ends because fewer requests are active than there are ids. */
    method PickSeqId() returns (seqId: int)
      requires BookOk(book) && 0 <= nextSeqId < IDS && |localTrees| < IDS
      modifies this`nextSeqId
      ensures 0 <= seqId < IDS && FirstFree(book, localTrees.Keys, old(nextSeqId), seqId)
              && nextSeqId == IdAfter(seqId, 1)
    {
      ghost var start, k: nat := nextSeqId, 0;
      while true
        invariant k <= |localTrees.Keys| && 0 <= nextSeqId < IDS && nextSeqId == IdAfter(start, k)
        invariant forall j: nat {:trigger IdAfter(start, j)} | j < k :: Taken(book, localTrees.Keys, IdAfter(start, j))
        decreases |localTrees.Keys| - k
      {
        assert |localTrees.Keys| == |localTrees|;
        seqId := nextSeqId;
        nextSeqId := (nextSeqId + 1) % IDS;
        if seqId !in book.seqToReq || book.seqToReq[seqId] !in localTrees {
          break;
        }
        k := k + 1;
        HeldFew(book, localTrees.Keys, start, k);
      }
    }

    /** evict_cached_response */
    method Evict(r: R) returns (res: Outcome<()>)
      requires Usable()
      modifies this`book, this`responses, globalTree, globalTree.nodes
      ensures Usable() && (old(Valid()) ==> Valid()) && res == if r in old(responses) then Ok(()) else ValueError
      ensures responses == old(responses) - {r} && book == Forgotten(old(book), r)
              && globalTree.nodes <= old(globalTree.nodes)
    {
      hide Trees, BookOk, GlobalIs;
      RecordsKeys();
      if r !in book.reqToSeq {
        return ValueError;
      }
      GlobalDropped(book, responses, globalTree.seqs, r);
      DroppedOk(book, r);
      var seqId := book.reqToSeq[r];
      book := Dropped(book, r);
      responses := responses - {r};
      RemoveGlobal(seqId);
      res := Ok(());
    }

    lemma RecordsKeys()
      requires Usable()
      ensures responses.Keys == book.reqToSeq.Keys && this !in repr
    {
    }

    /** _maybe_evict_requests.  The length of the dictionary is that of its order. */
    method MaybeEvict(newSeqId: int, ghost r: R)
      requires Usable() && maxCachedRequests != 0 && LastIs(book, r, newSeqId)
      modifies this`book, this`responses, globalTree, globalTree.nodes
      ensures Valid() && book == Kept(old(book), maxCachedRequests) && responses == Restricted(old(responses), book)
    {
      hide *;
      UsableBook();
      RestrictedAll(book, responses, globalTree.seqs);
      KeptStops(book, maxCachedRequests);
      if maxCachedRequests < 0 {
        ValidIf();
        return;
      }
      while |book.order| > maxCachedRequests
        invariant Usable() && LastIs(book, r, newSeqId) && BookOk(book) && globalTree.nodes <= old(globalTree.nodes)
        invariant Kept(book, maxCachedRequests) == Kept(old(book), maxCachedRequests)
        invariant responses == Restricted(old(responses), book)
        decreases |book.order|
      {
        KeptStep(book, maxCachedRequests);
        RestrictedLess(old(responses), book, book.order[0]);
        EvictOldest(newSeqId, r);
        UsableBook();
      }
      KeptStops(book, maxCachedRequests);
      ValidIf();
    }

    lemma UsableBook()
      requires Usable()
      ensures BookOk(book) && GlobalIs(book, responses, globalTree.seqs) && responses.Keys == book.reqToSeq.Keys
    {
    }

    lemma ValidIf()
      requires Usable() && (maxCachedRequests >= 0 ==> |book.order| <= maxCachedRequests)
      ensures Valid()
    {
    }

    /** The first request in order whose id is another. */
    method FirstOther(seqId: int) returns (i: nat)
      requires forall j | 0 <= j < |book.order| :: book.order[j] in book.reqToSeq
      requires exists j | 0 <= j < |book.order| :: book.reqToSeq[book.order[j]] != seqId
      ensures i < |book.order| && book.reqToSeq[book.order[i]] != seqId
      ensures forall j | 0 <= j < i :: book.reqToSeq[book.order[j]] == seqId
    {
      i := 0;
      while book.reqToSeq[book.order[i]] == seqId
        invariant i < |book.order| && forall j | 0 <= j < i :: book.reqToSeq[book.order[j]] == seqId
        decreases |book.order| - i
      {
        i := i + 1;
      }
    }

    /** One round of the eviction loop, which never takes the new request. */
    method EvictOldest(newSeqId: int, ghost r: R)
      requires Usable() && |book.order| >= 2 && LastIs(book, r, newSeqId)
      modifies this`book, this`responses, globalTree, globalTree.nodes
      ensures Usable() && book == Dropped(old(book), old(book).order[0])
              && responses == old(responses) - {old(book).order[0]}
      ensures LastIs(book, r, newSeqId) && |book.order| == |old(book).order| - 1
              && globalTree.nodes <= old(globalTree.nodes)
    {
      hide Trees, GlobalIs;
      OldestIsOther(book, r, newSeqId);
      OldestStays(book, r, newSeqId);
      var i := FirstOther(newSeqId);
      var res := Evict(book.order[i]);
    }

    lemma UsableParts()
      requires Usable()
      ensures Trees() && BookOk(book) && 0 <= nextSeqId < IDS && GlobalIs(book, responses, globalTree.seqs)
              && maxTreeDepth >= 1
      ensures responses.Keys == book.reqToSeq.Keys && this !in repr
    {
    }

    lemma UsableIf()
      requires Trees() && BookOk(book) && 0 <= nextSeqId < IDS && GlobalIs(book, responses, globalTree.seqs)
               && maxTreeDepth >= 1
      ensures Usable()
    {
    }

    /** _generate_seq_id: the new request gets the first free id, from another cached request if
        need be, and the oldest requests go while there are too many. */
    method GenerateSeqId(r: R) returns (seqId: int)
      requires Usable() && r !in book.reqToSeq && maxCachedRequests != 0 && |localTrees| < IDS
      modifies this`book, this`nextSeqId, this`responses, globalTree, globalTree.nodes
      ensures Valid() && 0 <= seqId < IDS
      ensures FirstFree(old(book), localTrees.Keys, old(nextSeqId), seqId) && nextSeqId == IdAfter(seqId, 1)
      ensures BookOk(old(book)) && book == Started(old(book), r, seqId, maxCachedRequests)
      ensures responses == Restricted(old(responses)[r := []], book)
    {
      hide *;
      UsableParts();
      ghost var b := book;
      seqId := PickSeqId();
      UsableIf();
      FreeId(seqId);
      ghost var f := book;
      Enter(b, r, seqId);
      RestrictedTwice(old(responses), b, f, r, seqId, maxCachedRequests);
    }

    /** The new request is entered under its id. */
    method Enter(ghost b: Book<R>, r: R, seqId: int)
      requires Usable() && BookOk(b) && book == Freed(b, seqId) && r !in b.reqToSeq && 0 <= seqId < IDS
               && maxCachedRequests != 0
      modifies this`book, this`responses, globalTree, globalTree.nodes
      ensures Valid() && book == Started(b, r, seqId, maxCachedRequests)
      ensures responses == Restricted(old(responses)[r := []], book)
    {
      hide *;
      UsableParts();
      FreedOk(b, seqId);
      EnrolledLast(b, r, seqId, maxCachedRequests);
      GlobalEntered(book, responses, globalTree.seqs, r, seqId);
      EnteredIs(book, r, seqId);
      book := Book(book.reqToSeq[r := seqId], book.order + [r], book.seqToReq[seqId := r]);
      responses := responses[r := []];
      UsableIf();
      MaybeEvict(seqId, r);
    }

    /** An id that a cached request has is taken from it. */
    method FreeId(seqId: int)
      requires Usable()
      modifies this`book, this`responses, globalTree, globalTree.nodes
      ensures Usable() && BookOk(old(book)) && book == Freed(old(book), seqId)
              && responses == Restricted(old(responses), book)
      ensures BookOk(book) && GlobalIs(book, responses, globalTree.seqs) && globalTree.nodes <= old(globalTree.nodes)
    {
      hide Trees, GlobalIs;
      UsableParts();
      RestrictedAll(book, responses, globalTree.seqs);
      if seqId in book.seqToReq {
        ghost var q := book.seqToReq[seqId];
        assert FiledId(book, seqId);
        GlobalDropped(book, responses, globalTree.seqs, q);
        DroppedOk(book, q);
        RestrictedLess(responses, book, q);
        book := Dropped(book, book.seqToReq[seqId]);
        responses := responses - {q};
        RemoveGlobal(seqId);
      }
    }

    // ----- The interface -----

    /** start_request.  A response cached for the request is evicted, whether or not it is the new limit's turn. */
    method Start(r: R, prompt: Str) returns (res: Outcome<()>, ghost seqId: int)
      requires Valid() && |localTrees| + 1 < IDS
      modifies this, repr
      ensures Valid() && repr >= old(repr) && fresh(repr - old(repr))
      ensures res == if r in old(locals) then ValueError else Ok(())
      ensures locals == if res.Ok? then old(locals)[r := prompt] else old(locals)
      ensures !res.Ok? || maxCachedRequests == 0 ==>
                responses == old(responses) && book == old(book) && nextSeqId == old(nextSeqId)
      ensures res.Ok? && maxCachedRequests != 0 ==>
                && BookOk(old(book)) && 0 <= seqId < IDS && nextSeqId == IdAfter(seqId, 1)
                && FirstFree(Forgotten(old(book), r), locals.Keys, old(nextSeqId), seqId)
                && book == Started(old(book), r, seqId, maxCachedRequests)
                && responses == Restricted(old(responses)[r := []], book)
    {
      hide *;
      seqId := 0;
      ValidParts();
      UsableParts();
      if r in localTrees {
        return ValueError, seqId;
      }
      LocalKeys();
      NewLocal(r, prompt);
      LocalKeys();
      UsableIf();
      if maxCachedRequests != 0 {
        OneMore(old(localTrees), localTrees, r);
        seqId := Enlist(r);
      } else {
        ValidIf();
      }
      res := Ok(());
    }

    /** The part of start_request for a cache that is enabled. */
    method Enlist(r: R) returns (seqId: int)
      requires Usable() && maxCachedRequests != 0 && |localTrees| < IDS && globalTree in repr
               && globalTree.nodes <= repr
      modifies this`book, this`nextSeqId, this`responses, globalTree, globalTree.nodes
      ensures Valid() && BookOk(old(book)) && 0 <= seqId < IDS && nextSeqId == IdAfter(seqId, 1)
      ensures FirstFree(Forgotten(old(book), r), localTrees.Keys, old(nextSeqId), seqId)
      ensures book == Started(old(book), r, seqId, maxCachedRequests)
      ensures responses == Restricted(old(responses)[r := []], book)
    {
      hide *;
      UsableParts();
      ForgottenOk(book, r);
      ForgottenOther(book, r);
      if r in book.reqToSeq {
        var _ := Evict(r);
      }
      UsableParts();
      ghost var f := book;
      seqId := GenerateSeqId(r);
      StartedForgotten(old(book), r, seqId, maxCachedRequests);
      RestrictedForgotten(old(responses), r, book);
    }

    lemma ValidParts()
      requires Valid()
      ensures Usable() && (maxCachedRequests >= 0 ==> |book.order| <= maxCachedRequests)
    {
    }

    /** stop_request */
    method Stop(r: R) returns (res: Outcome<()>)
      requires Valid()
      modifies this`localTrees, this`locals
      ensures Valid() && res == if r in old(locals) then Ok(()) else ValueError
      ensures locals == old(locals) - {r}
    {
      hide *;
      ValidParts();
      UsableParts();
      LocalKeys();
      if r !in localTrees {
        return ValueError;
      }
      DropLocal(r);
      UsableIf();
      ValidIf();
      res := Ok(());
    }

    lemma LocalKeys()
      requires Trees()
      ensures locals.Keys == localTrees.Keys
              && forall r | r in localTrees :: localTrees[r] in repr && localTrees[r].nodes <= repr
      ensures globalTree in repr && globalTree.nodes <= repr
    {
      forall r | r in localTrees ensures localTrees[r] in repr && localTrees[r].nodes <= repr {
        assert LocalAt(r);
      }
    }

    /** add_active_response */
    method Add(r: R, tokens: Str) returns (res: Outcome<()>)
      requires Valid()
      modifies this`repr, this`locals, this`responses, repr
      ensures Valid() && repr >= old(repr) && fresh(repr - old(repr))
      ensures res == if r in old(locals) then Ok(()) else ValueError
      ensures locals == if res.Ok? then old(locals)[r := old(locals)[r] + tokens] else old(locals)
      ensures responses == if res.Ok? && r in old(responses) then old(responses)[r := old(responses)[r] + tokens]
              else old(responses)
    {
      hide *;
      ValidParts();
      UsableParts();
      LocalKeys();
      if r !in localTrees {
        return ValueError;
      }
      ExtendLocal(r, tokens);
      if r in book.reqToSeq {
        GlobalExtended(book, responses, globalTree.seqs, r, tokens);
        ExtendGlobal(book.reqToSeq[r], tokens);
        responses := responses[r := responses[r] + tokens];
      }
      UsableIf();
      ValidIf();
      res := Ok(());
    }

    /** speculate, with the number of tokens given.  Only the last part of the context, as long as the
        trees are deep, is used; of the best draft from the request's own tree and the best from the
        tree of responses the one with the higher score is taken, the former if they are equal. */
    method Draft(r: R, context: Str, how: Limits)
      returns (res: Outcome<Draft>, ghost own: Draft, ghost shared: Draft, ghost recent: Str)
      requires Valid()
      ensures res.Ok? <==> r in locals
      ensures res.Ok? ==>
                && LastPart(context, maxTreeDepth, recent)
                && BestDraft(Extended(map[], 0, locals[r]), maxTreeDepth, recent, how, own)
                && BestDraft(globalTree.seqs, maxTreeDepth, recent, how, shared)
                && res.value == if own.score >= shared.score then own else shared
    {
      hide *;
      own, shared, recent := NoDraft, NoDraft, [];
      ValidParts();
      UsableParts();
      LocalKeys();
      if r !in localTrees {
        return ValueError, own, shared, recent;
      }
      LocalTree(r);
      var last := if |context| > maxTreeDepth then Tail(context, maxTreeDepth) else context;
      PartLast(context, maxTreeDepth);
      var draft1 := Speculate(localTrees[r], last, how);
      var draft2 := Speculate(globalTree, last, how);
      own, shared, recent := draft1, draft2, last;
      res := Ok(if draft1.score >= draft2.score then draft1 else draft2);
    }

    lemma LocalTree(r: R)
      requires Trees() && r in localTrees
      ensures r in locals && localTrees[r].Valid() && localTrees[r].maxDepth == maxTreeDepth
              && localTrees[r].seqs == Extended(map[], 0, locals[r])
      ensures globalTree.Valid() && globalTree.maxDepth == maxTreeDepth
    {
      assert LocalAt(r);
    }
  }

  /** w is the last part of the text, as long as the trees are deep, or all of it. */
  ghost predicate LastPart(text: Str, depth: int, w: Str) {
    (exists u {:trigger u + w} :: text == u + w) && |w| == if |text| > depth then depth else |text|
  }

  lemma PartLast(text: Str, depth: int)
    requires depth >= 1
    ensures LastPart(text, depth, if |text| > depth then Tail(text, depth) else text)
  {
    if |text| > depth {
      TailEnds(text, depth);
    } else {
      assert text == [] + text;
    }
  }

  /** A limit that does not fit the ids is an error. */
  method Create<R(==, !new)>(maxTreeDepth: int, maxCachedRequests: int) returns (res: Outcome<SuffixDecodingCache<R>>)
    requires maxTreeDepth >= 1
    ensures res.Ok? <==> maxCachedRequests < IDS
    ensures res.Ok? ==> res.value.Valid() && res.value.locals == map[] && res.value.responses == map[]
    ensures res.Ok? ==> res.value.maxTreeDepth == maxTreeDepth && res.value.maxCachedRequests == maxCachedRequests
  {
    if maxCachedRequests > 0x7FFF_FFFF {
      return ValueError;
    }
    var cache := new SuffixDecodingCache(maxTreeDepth, maxCachedRequests);
    res := Ok(cache);
  }

  /** The request entered last, with its id. */
  ghost predicate LastIs<R>(b: Book<R>, r: R, s: int) {
    r in b.reqToSeq && b.reqToSeq[r] == s && b.order != [] && b.order[|b.order| - 1] == r
  }

  lemma KeptStops<R(!new)>(b: Book<R>, max: int)
    requires BookOk(b)
    ensures max < 0 || |b.order| <= max ==> Kept(b, max) == b
  {
  }

  lemma KeptStep<R(!new)>(b: Book<R>, max: int)
    requires BookOk(b) && 0 < max < |b.order|
    ensures b.order[0] in b.reqToSeq && BookOk(Dropped(b, b.order[0]))
            && Kept(b, max) == Kept(Dropped(b, b.order[0]), max)
  {
    DroppedOk(b, b.order[0]);
  }

  lemma ExtendedTwice(s: Str, tokens: Str)
    ensures Extended(Extended(map[], 0, s), 0, tokens) == Extended(map[], 0, s + tokens)
    ensures s == [] ==> s + tokens == tokens
  {
    assert s == [] ==> s + tokens == tokens && SeqOf(map[], 0) + tokens == tokens;
    assert tokens == [] ==> s + tokens == s;
    assert s != [] ==> SeqOf(map[], 0) + s == s;
    assert SeqOf(map[], 0) + (s + tokens) == s + tokens;
  }

  lemma OldestIsOther<R(!new)>(b: Book<R>, r: R, s: int)
    requires BookOk(b) && |b.order| >= 2 && LastIs(b, r, s)
    ensures b.order[0] in b.reqToSeq && b.reqToSeq[b.order[0]] != s
    ensures forall j | 0 <= j < |b.order| :: b.order[j] in b.reqToSeq
  {
    assert Filed(b, r) && Filed(b, b.order[0]);
  }

  lemma OldestStays<R(!new)>(b: Book<R>, r: R, s: int)
    requires BookOk(b) && |b.order| >= 2 && LastIs(b, r, s)
    ensures b.order[0] in b.reqToSeq && Forgotten(b, b.order[0]) == Dropped(b, b.order[0])
    ensures LastIs(Dropped(b, b.order[0]), r, s) && |Dropped(b, b.order[0]).order| == |b.order| - 1
  {
    OldestIsOther(b, r, s);
    DroppedOk(b, b.order[0]);
    WithoutAt(b.order, 0);
  }

  /** What is left of the responses. */
  ghost function Restricted<R(!new)>(responses: map<R, Str>, b: Book<R>): map<R, Str> {
    map r | r in b.reqToSeq && r in responses :: responses[r]
  }

  lemma RestrictedAll<R(!new)>(b: Book<R>, responses: map<R, Str>, seqs: Seqs)
    requires GlobalIs(b, responses, seqs)
    ensures Restricted(responses, b) == responses
  {
  }

  lemma RestrictedLess<R(!new)>(responses: map<R, Str>, b: Book<R>, r: R)
    requires r in b.reqToSeq
    ensures Restricted(responses, b) - {r} == Restricted(responses, Dropped(b, r))
  {
  }

  lemma EnteredIs<R(!new)>(b: Book<R>, r: R, s: int)
    ensures Entered(b, r, s) == Book(b.reqToSeq[r := s], b.order + [r], b.seqToReq[s := r])
  {
  }

  lemma EnrolledLast<R(!new)>(b: Book<R>, r: R, s: int, max: int)
    requires BookOk(b) && r !in b.reqToSeq && 0 <= s < IDS
    ensures var e := Entered(Freed(b, s), r, s);
            BookOk(e) && LastIs(e, r, s) && Started(b, r, s, max) == Kept(e, max) && r !in Freed(b, s).reqToSeq
  {
    EnrolledOk(b, r, s);
    FreedOk(b, s);
  }

  lemma RestrictedTwice<R(!new)>(responses: map<R, Str>, b: Book<R>, f: Book<R>, r: R, s: int, max: int)
    requires BookOk(b) && r !in b.reqToSeq && 0 <= s < IDS && f == Freed(b, s)
    ensures var k := Started(b, r, s, max);
            Restricted(Restricted(responses, f)[r := []], k) == Restricted(responses[r := []], k)
  {
    EnrolledLast(b, r, s, max);
    KeptNewest(Entered(f, r, s), max);
  }

  /** Nothing that evicting the request before it starts again takes away is kept later. */
  lemma RestrictedForgotten<R(!new)>(responses: map<R, Str>, r: R, k: Book<R>)
    ensures Restricted((responses - {r})[r := []], k) == Restricted(responses[r := []], k)
  {
    assert (responses - {r})[r := []] == responses[r := []];
  }

  lemma ForgottenOther<R(!new)>(b: Book<R>, r: R)
    ensures r !in b.reqToSeq ==> Forgotten(b, r) == b
  {
  }

  lemma StartedForgotten<R(!new)>(b: Book<R>, r: R, s: int, max: int)
    requires BookOk(b) && 0 <= s < IDS
    ensures BookOk(Forgotten(b, r)) && Started(Forgotten(b, r), r, s, max) == Started(b, r, s, max)
  {
    ForgottenOk(b, r);
    ForgottenOk(Forgotten(b, r), r);
    assert Forgotten(Forgotten(b, r), r) == Forgotten(b, r);
  }

  lemma OneMore<R, T>(m: map<R, T>, n: map<R, T>, r: R)
    requires n.Keys == m.Keys + {r}
    ensures |n| <= |m| + 1
  {
    assert |n| == |n.Keys| && |m| == |m.Keys|;
  }
}
