/**
 Whole runs of the cache: after any commands, what it holds is what a reading of the log alone says.
 */
module CacheRuns {
  import opened Suffixes
  import opened Contents
  import opened SuffixTrees
  import opened Caches

  datatype Command<R> =
    | StartRequest(req: R, prompt: Str)
    | StopRequest(req: R)
    | AddResponse(req: R, tokens: Str)
    | EvictResponse(req: R)

  // ----- Reading the log -----

  function LocalsStep<R>(m: map<R, Str>, c: Command<R>): map<R, Str> {
    match c
    case StartRequest(r, prompt) => if r in m then m else m[r := prompt]
    case StopRequest(r) => m - {r}
    case AddResponse(r, tokens) => if r in m then m[r := m[r] + tokens] else m
    case EvictResponse(_) => m
  }

  /** The active requests, each with its prompt and the tokens added since. */
  function LocalsAfter<R>(log: seq<Command<R>>): map<R, Str> {
    if log == [] then map[] else LocalsStep(LocalsAfter(log[..|log| - 1]), log[|log| - 1])
  }

  /** A start takes effect for a request that is not active. */
  predicate Begins<R(==)>(m: map<R, Str>, c: Command<R>, r: R) {
    c.StartRequest? && c.req == r && r !in m
  }

  /** The tokens added for a request since its last start. */
  function Since<R(==)>(log: seq<Command<R>>, r: R): Str {
    if log == [] then []
    else
      var before, c := log[..|log| - 1], log[|log| - 1];
      if Begins(LocalsAfter(before), c, r) then []
      else if c.AddResponse? && c.req == r && r in LocalsAfter(before) then Since(before, r) + c.tokens
      else Since(before, r)
  }

  /** The index in the log of the last start of a request, or -1. */
  function LastStart<R(==)>(log: seq<Command<R>>, r: R): (k: int)
    ensures -1 <= k < |log|
  {
    if log == [] then -1
    else if Begins(LocalsAfter(log[..|log| - 1]), log[|log| - 1], r) then |log| - 1
    else LastStart(log[..|log| - 1], r)
  }

  /** Requests in the order of their last starts. */
  ghost predicate InStartOrder<R>(log: seq<Command<R>>, order: seq<R>) {
    && (forall i | 0 <= i < |order| :: LastStart(log, order[i]) >= 0)
    && forall i, j | 0 <= i < j < |order| :: LastStart(log, order[i]) < LastStart(log, order[j])
  }

  ghost predicate Recalled<R(!new)>(log: seq<Command<R>>, responses: map<R, Str>, order: seq<R>) {
    && (forall r {:trigger responses[r]} | r in responses :: responses[r] == Since(log, r))
    && InStartOrder(log, order)
  }

  // ----- Which requests are cached -----

  /** The number of starts that take effect. */
  function Starts<R(==)>(log: seq<Command<R>>): (k: nat)
    ensures k <= |log|
  {
    if log == [] then 0
    else
      var before, c := log[..|log| - 1], log[|log| - 1];
      Starts(before) + if c.StartRequest? && Begins(LocalsAfter(before), c, c.req) then 1 else 0
  }

  /** The requests that are cached, in order, while no id is used twice: a start puts its request last and drops the
      oldest beyond the limit, an eviction takes its request out. */
  function Retained<R(==, !new)>(log: seq<Command<R>>, limit: int): seq<R> {
    if log == [] then []
    else
      var before, c := log[..|log| - 1], log[|log| - 1];
      var order := Retained(before, limit);
      if c.StartRequest? && Begins(LocalsAfter(before), c, c.req) then Newest(Without(order, c.req) + [c.req], limit)
      else if c.EvictResponse? then Without(order, c.req)
      else order
  }

  /** What a command does to the requests that are cached, also when ids are used again: a start may then cost one
      more request, which is not active, its id. */
  ghost predicate Follows<R(!new)>(m: map<R, Str>, before: seq<R>, c: Command<R>, after: seq<R>, limit: int) {
    if c.StartRequest? && Begins(m, c, c.req) then
      || after == Newest(Without(before, c.req) + [c.req], limit)
      || exists q {:trigger Without(Without(before, c.req), q)} ::
           && q in before && q != c.req && q !in m
           && after == Newest(Without(Without(before, c.req), q) + [c.req], limit)
    else if c.EvictResponse? then after == Without(before, c.req)
    else after == before
  }

  /** The requests that are cached before the first command and after each. */
  ghost predicate Retention<R(!new)>(log: seq<Command<R>>, limit: int, orders: seq<seq<R>>) {
    && |orders| == |log| + 1 && orders[0] == []
    && forall k {:trigger orders[k + 1]} | 0 <= k < |log| ::
         Follows(LocalsAfter(log[..k]), orders[k], log[k], orders[k + 1], limit)
  }

  /** The request just started is cached, as the last; an active request that was cached before and is not cached
      any more had to go because of the limit. */
  lemma JustStarted<R(!new)>(m: map<R, Str>, before: seq<R>, c: Command<R>, after: seq<R>, limit: int, q: R)
    requires Follows(m, before, c, after, limit) && c.StartRequest? && Begins(m, c, c.req) && limit != 0
    ensures after != [] && after[|after| - 1] == c.req
    ensures q in m && q in before && q !in after ==> |after| == limit
  {
    if after != Newest(Without(before, c.req) + [c.req], limit) {
      var o :| o in before && o != c.req && o !in m
        && after == Newest(Without(Without(before, c.req), o) + [c.req], limit);
      var w := Without(Without(before, c.req), o);
      assert q in m && q in before ==> q in w;
      NewestLast(w, c.req, limit, q);
    } else {
      NewestLast(Without(before, c.req), c.req, limit, q);
    }
  }

  lemma NewestLast<R>(w: seq<R>, r: R, limit: int, q: R)
    requires limit != 0
    ensures var n := Newest(w + [r], limit); n != [] && n[|n| - 1] == r && (q in w && q !in n ==> |n| == limit)
  {
    var v := w + [r];
    if q in w {
      var i :| 0 <= i < |w| && w[i] == q;
      assert v[i] == q;
    }
  }

  /** No id is in use that is not smaller than the number of starts so far, and the next one is that number. */
  ghost predicate IdsFresh<R(!new)>(b: Book<R>, next: int, k: nat) {
    k <= IDS && next == IdAfter(0, k) && forall s | s in b.seqToReq :: 0 <= s < k
  }

  /** So the next id is free, and nobody loses it. */
  lemma FreshId<R(!new)>(b: Book<R>, r: R, active: set<R>, next: int, k: nat, s: int, max: int)
    requires BookOk(b) && IdsFresh(b, next, k) && k < IDS && FirstFree(Forgotten(b, r), active, next, s) && max != 0
    ensures s == k && IdsFresh(Started(b, r, s, max), IdAfter(s, 1), k + 1)
    ensures Started(b, r, s, max).order == Newest(Without(b.order, r) + [r], max)
  {
    FirstIs(b, r, active, next, k, s);
    StartedOrder(b, r, s, max);
    var e := Started(b, r, s, max);
    forall i | i in e.seqToReq ensures 0 <= i < k + 1 {
      assert FiledId(e, i) && Filed(e, e.seqToReq[i]);
      if e.seqToReq[i] != r {
        assert Filed(b, e.seqToReq[i]);
      }
    }
  }

  lemma FirstIs<R(!new)>(b: Book<R>, r: R, active: set<R>, next: int, k: nat, s: int)
    requires BookOk(b) && IdsFresh(b, next, k) && k < IDS && FirstFree(Forgotten(b, r), active, next, s)
    ensures s == k && s !in b.seqToReq && IdAfter(s, 1) == IdAfter(0, k + 1)
  {
    ForgottenOk(b, r);
    var i: nat :| s == IdAfter(next, i)
                  && forall j: nat {:trigger IdAfter(next, j)} | j < i ::
                       Taken(Forgotten(b, r), active, IdAfter(next, j));
    var zero: nat := 0;
    assert IdAfter(next, zero) == k;
  }

  /** A request that loses its id to a start is not active. */
  lemma StartFollows<R(!new)>(m: map<R, Str>, c: Command<R>, b: Book<R>, active: set<R>, next: int, s: int, limit: int)
    requires BookOk(b) && c.StartRequest? && Begins(m, c, c.req) && 0 <= s < IDS && limit != 0
             && active == m.Keys + {c.req}
    requires FirstFree(Forgotten(b, c.req), active, next, s)
    ensures Follows(m, b.order, c, Started(b, c.req, s, limit).order, limit)
  {
    StartedOrder(b, c.req, s, limit);
    ForgottenOk(b, c.req);
    if s in b.seqToReq && b.seqToReq[s] != c.req {
      var q := b.seqToReq[s];
      assert FiledId(b, s) && Filed(b, q) && Filed(b, c.req);
      assert s in Forgotten(b, c.req).seqToReq;
      assert Requeued(b, c.req, s) == Without(Without(b.order, c.req), q) + [c.req];
    }
  }

  // ----- One command -----

  lemma LogMore<R>(log: seq<Command<R>>, c: Command<R>)
    ensures LocalsAfter(log + [c]) == LocalsStep(LocalsAfter(log), c)
    ensures forall r :: LastStart(log + [c], r) == if Begins(LocalsAfter(log), c, r) then |log| else LastStart(log, r)
    ensures forall r :: Since(log + [c], r) ==
              if Begins(LocalsAfter(log), c, r) then []
              else if c.AddResponse? && c.req == r && r in LocalsAfter(log) then Since(log, r) + c.tokens
              else Since(log, r)
  {
    assert (log + [c])[..|log|] == log;
  }

  lemma {:induction false} WithoutKeepsOrder<R(!new)>(log: seq<Command<R>>, order: seq<R>, r: R)
    requires InStartOrder(log, order)
    ensures InStartOrder(log, Without(order, r))
  {
    if order != [] {
      var rest, last := order[..|order| - 1], order[|order| - 1];
      WithoutKeepsOrder(log, rest, r);
      if last != r {
        var w := Without(rest, r);
        forall i | 0 <= i < |w| ensures LastStart(log, w[i]) < LastStart(log, last) {
          assert w[i] in rest;
          var k :| 0 <= k < |rest| && rest[k] == w[i];
          assert order[k] == w[i];
        }
        LaterKeepsOrder(log, w, last);
      }
    }
  }

  lemma LaterKeepsOrder<R(!new)>(log: seq<Command<R>>, w: seq<R>, r: R)
    requires InStartOrder(log, w) && LastStart(log, r) >= 0
    requires forall i | 0 <= i < |w| :: LastStart(log, w[i]) < LastStart(log, r)
    ensures InStartOrder(log, w + [r])
  {
  }

  lemma NewestKeepsOrder<R(!new)>(log: seq<Command<R>>, order: seq<R>, max: int)
    requires InStartOrder(log, order)
    ensures InStartOrder(log, Newest(order, max))
  {
  }

  /** A request that starts is put after all others. */
  lemma StartKeepsOrder<R(!new)>(log: seq<Command<R>>, c: Command<R>, b: Book<R>, s: int, max: int)
    requires InStartOrder(log, b.order) && Begins(LocalsAfter(log), c, c.req) && max != 0
    ensures InStartOrder(log + [c], Newest(Requeued(b, c.req, s), max))
  {
    hide InStartOrder, LastStart, LocalsAfter;
    var w := Without(b.order, c.req);
    WithoutKeepsOrder(log, b.order, c.req);
    if s in b.seqToReq && b.seqToReq[s] != c.req {
      WithoutKeepsOrder(log, w, b.seqToReq[s]);
      w := Without(w, b.seqToReq[s]);
    }
    BeginKeepsOrder(log, c, w);
    assert Requeued(b, c.req, s) == w + [c.req];
    NewestKeepsOrder(log + [c], w + [c.req], max);
  }

  lemma BeginKeepsOrder<R(!new)>(log: seq<Command<R>>, c: Command<R>, w: seq<R>)
    requires InStartOrder(log, w) && Begins(LocalsAfter(log), c, c.req) && c.req !in w
    ensures InStartOrder(log + [c], w + [c.req])
  {
    LogMore(log, c);
    assert forall i | 0 <= i < |w| :: w[i] in w;
    LaterKeepsOrder(log + [c], w, c.req);
  }

  lemma SameOrder<R(!new)>(log: seq<Command<R>>, c: Command<R>, order: seq<R>)
    requires InStartOrder(log, order) && forall r | r in order :: !Begins(LocalsAfter(log), c, r)
    ensures InStartOrder(log + [c], order)
  {
    LogMore(log, c);
    assert forall i | 0 <= i < |order| :: order[i] in order;
  }

  lemma RecalledStart<R(!new)>(log: seq<Command<R>>, c: Command<R>, responses: map<R, Str>, b: Book<R>, s: int,
                               max: int)
    requires Recalled(log, responses, b.order) && c.StartRequest? && c.req !in LocalsAfter(log)
    requires BookOk(b) && 0 <= s < IDS && max != 0
    ensures var k := Started(b, c.req, s, max); Recalled(log + [c], Restricted(responses[c.req := []], k), k.order)
  {
    LogMore(log, c);
    StartKeepsOrder(log, c, b, s, max);
    StartedOrder(b, c.req, s, max);
  }

  lemma RecalledNothing<R(!new)>(log: seq<Command<R>>)
    ensures Recalled(log, map[], [])
  {
  }

  lemma RecalledIdle<R(!new)>(log: seq<Command<R>>, c: Command<R>, responses: map<R, Str>, order: seq<R>)
    requires Recalled(log, responses, order)
    requires c.StopRequest? || ((c.StartRequest? || c.AddResponse?) && (c.req in LocalsAfter(log) <==> c.StartRequest?))
    ensures Recalled(log + [c], responses, order)
  {
    LogMore(log, c);
    SameOrder(log, c, order);
  }

  lemma RecalledAdd<R(!new)>(log: seq<Command<R>>, c: Command<R>, responses: map<R, Str>, order: seq<R>)
    requires Recalled(log, responses, order) && c.AddResponse? && c.req in LocalsAfter(log)
    ensures Recalled(log + [c], if c.req in responses then responses[c.req := responses[c.req] + c.tokens]
            else responses, order)
  {
    LogMore(log, c);
    SameOrder(log, c, order);
  }

  lemma RecalledEvict<R(!new)>(log: seq<Command<R>>, c: Command<R>, responses: map<R, Str>, b: Book<R>)
    requires Recalled(log, responses, b.order) && c.EvictResponse? && BookOk(b)
    ensures Recalled(log + [c], responses - {c.req}, Forgotten(b, c.req).order)
  {
    LogMore(log, c);
    ForgottenOk(b, c.req);
    WithoutKeepsOrder(log, b.order, c.req);
    SameOrder(log, c, Forgotten(b, c.req).order);
  }

  // ----- All commands -----

  /** The response tree holds, for the requests that are cached, exactly the tokens added since their last
      starts, and the dictionary lists them in the order of those starts. */
  ghost predicate Remembers<R(!new)>(b: Book<R>, seqs: Seqs, log: seq<Command<R>>) {
    && BookOk(b) && InStartOrder(log, b.order)
    && (forall r {:trigger b.reqToSeq[r]} | r in b.reqToSeq :: SeqOf(seqs, b.reqToSeq[r]) == Since(log, r))
    && (forall s {:trigger seqs[s]} | s in seqs :: s in b.seqToReq && seqs[s] == Since(log, b.seqToReq[s]))
  }

  lemma RemembersIf<R(!new)>(b: Book<R>, responses: map<R, Str>, seqs: Seqs, log: seq<Command<R>>)
    requires BookOk(b) && GlobalIs(b, responses, seqs) && Recalled(log, responses, b.order)
    ensures Remembers(b, seqs, log)
  {
    forall r | r in b.reqToSeq ensures SeqOf(seqs, b.reqToSeq[r]) == Since(log, r) {
      assert responses[r] == Since(log, r);
    }
    forall s | s in seqs ensures s in b.seqToReq && seqs[s] == Since(log, b.seqToReq[s]) {
      assert FiledId(b, s);
      assert responses[b.seqToReq[s]] == Since(log, b.seqToReq[s]);
    }
  }

  lemma NothingCached<R(!new)>(cache: SuffixDecodingCache<R>)
    requires cache.Valid()
    ensures cache.maxCachedRequests == 0 || cache.responses == map[] ==>
              cache.responses == map[] && cache.book.order == []
    ensures BookOk(cache.book) && GlobalIs(cache.book, cache.responses, cache.globalTree.seqs)
    ensures cache.maxCachedRequests >= 0 ==> |cache.book.order| <= cache.maxCachedRequests
    ensures |cache.localTrees| == |cache.locals|
    ensures cache.responses.Keys == cache.book.reqToSeq.Keys
  {
    var b := cache.book;
    if b.order == [] {
      forall r ensures r !in b.reqToSeq {
        assert Filed(b, r);
      }
    } else {
      assert b.order[0] in b.reqToSeq;
    }
    assert cache.localTrees.Keys == cache.locals.Keys;
  }

  /** Until ids are used again, the log alone tells which requests are cached. */
  ghost predicate Predicted<R(!new)>(log: seq<Command<R>>, limit: int, b: Book<R>, next: int) {
    if limit == 0 then b.order == []
    else Starts(log) <= IDS ==> b.order == Retained(log, limit) && IdsFresh(b, next, Starts(log))
  }

  lemma PredictedMore<R(!new)>(log: seq<Command<R>>, c: Command<R>, limit: int)
    ensures var begins := c.StartRequest? && Begins(LocalsAfter(log), c, c.req);
            && Starts(log + [c]) == Starts(log) + (if begins then 1 else 0)
            && Retained(log + [c], limit)
               == (if begins then Newest(Without(Retained(log, limit), c.req) + [c.req], limit)
                   else if c.EvictResponse? then Without(Retained(log, limit), c.req) else Retained(log, limit))
  {
    assert (log + [c])[..|log|] == log;
  }

  lemma PredictedStart<R(!new)>(log: seq<Command<R>>, c: Command<R>, limit: int, b: Book<R>, active: set<R>,
                                next: int, s: int)
    requires Predicted(log, limit, b, next) && BookOk(b) && c.StartRequest? && Begins(LocalsAfter(log), c, c.req)
    requires 0 <= s < IDS && limit != 0 && FirstFree(Forgotten(b, c.req), active, next, s)
    ensures Predicted(log + [c], limit, Started(b, c.req, s, limit), IdAfter(s, 1))
  {
    PredictedMore(log, c, limit);
    hide BookOk, Started, Forgotten, FirstFree, IdsFresh, Begins, Retained, Starts, Newest, Without, IdAfter;
    if Starts(log) < IDS {
      FreshId(b, c.req, active, next, Starts(log), s, limit);
    }
  }

  lemma PredictedEvict<R(!new)>(log: seq<Command<R>>, c: Command<R>, limit: int, b: Book<R>, next: int)
    requires Predicted(log, limit, b, next) && BookOk(b) && c.EvictResponse?
    ensures Predicted(log + [c], limit, Forgotten(b, c.req), next)
    ensures Forgotten(b, c.req).order == Without(b.order, c.req)
  {
    PredictedMore(log, c, limit);
    ForgottenOk(b, c.req);
  }

  /** Other commands, and a start for an active request, leave the dictionaries alone; so does any command when the
      limit is zero. */
  lemma PredictedIdle<R(!new)>(log: seq<Command<R>>, c: Command<R>, limit: int, b: Book<R>, next: int)
    requires Predicted(log, limit, b, next)
    requires c.StopRequest? || c.AddResponse? || (c.StartRequest? && (c.req in LocalsAfter(log) || limit == 0))
    ensures Predicted(log + [c], limit, b, next) && Follows(LocalsAfter(log), b.order, c, b.order, limit)
  {
    PredictedMore(log, c, limit);
    assert limit == 0 ==> Newest(Without(b.order, c.req) + [c.req], limit) == [];
  }

  method Step<R(==, !new)>(cache: SuffixDecodingCache<R>, c: Command<R>, ghost log: seq<Command<R>>)
    requires cache.Valid() && |cache.locals| + 1 < IDS && cache.locals == LocalsAfter(log)
    requires Recalled(log, cache.responses, cache.book.order)
    requires Predicted(log, cache.maxCachedRequests, cache.book, cache.nextSeqId)
    modifies cache, cache.repr
    ensures cache.Valid() && cache.repr >= old(cache.repr) && fresh(cache.repr - old(cache.repr))
    ensures cache.locals == LocalsAfter(log + [c]) && Recalled(log + [c], cache.responses, cache.book.order)
    ensures Follows(LocalsAfter(log), old(cache.book.order), c, cache.book.order, cache.maxCachedRequests)
    ensures Predicted(log + [c], cache.maxCachedRequests, cache.book, cache.nextSeqId)
  {
    hide *;
    NothingCached(cache);
    cache.ValidParts();
    cache.UsableParts();
    cache.LocalKeys();
    LocalsMore(log, c);
    match c {
      case StartRequest(r, prompt) =>
        StepStart(cache, r, prompt, log);
      case StopRequest(r) =>
        RecalledIdle(log, c, cache.responses, cache.book.order);
        PredictedIdle(log, c, cache.maxCachedRequests, cache.book, cache.nextSeqId);
        var _ := cache.Stop(r);
      case AddResponse(r, tokens) =>
        if r in cache.locals {
          RecalledAdd(log, c, cache.responses, cache.book.order);
        } else {
          RecalledIdle(log, c, cache.responses, cache.book.order);
        }
        PredictedIdle(log, c, cache.maxCachedRequests, cache.book, cache.nextSeqId);
        var _ := cache.Add(r, tokens);
      case EvictResponse(r) =>
        RecalledEvict(log, c, cache.responses, cache.book);
        PredictedEvict(log, c, cache.maxCachedRequests, cache.book, cache.nextSeqId);
        FollowsEvict(LocalsAfter(log), cache.book.order, c, cache.maxCachedRequests);
        var _ := cache.Evict(r);
    }
  }

  lemma FollowsEvict<R(!new)>(m: map<R, Str>, before: seq<R>, c: Command<R>, limit: int)
    requires c.EvictResponse?
    ensures Follows(m, before, c, Without(before, c.req), limit)
  {
  }

  method StepStart<R(==, !new)>(cache: SuffixDecodingCache<R>, r: R, prompt: Str, ghost log: seq<Command<R>>)
    requires cache.Valid() && |cache.locals| + 1 < IDS && cache.locals == LocalsAfter(log)
    requires Recalled(log, cache.responses, cache.book.order)
    requires Predicted(log, cache.maxCachedRequests, cache.book, cache.nextSeqId)
    modifies cache, cache.repr
    ensures cache.Valid() && cache.repr >= old(cache.repr) && fresh(cache.repr - old(cache.repr))
    ensures var c := StartRequest(r, prompt);
            && cache.locals == LocalsAfter(log + [c]) && Recalled(log + [c], cache.responses, cache.book.order)
            && Follows(LocalsAfter(log), old(cache.book.order), c, cache.book.order, cache.maxCachedRequests)
            && Predicted(log + [c], cache.maxCachedRequests, cache.book, cache.nextSeqId)
  {
    hide *;
    ghost var c := StartRequest(r, prompt);
    NothingCached(cache);
    LocalsMore(log, c);
    ghost var b, responses, next, limit := cache.book, cache.responses, cache.nextSeqId, cache.maxCachedRequests;
    BeginsIs(LocalsAfter(log), c);
    var res, seqId := cache.Start(r, prompt);
    if res.ValueError? {
      RecalledIdle(log, c, responses, b.order);
      PredictedIdle(log, c, limit, b, next);
    } else if limit == 0 {
      RecalledNothing(log + [c]);
      PredictedIdle(log, c, limit, b, next);
    } else {
      RecalledStart(log, c, responses, b, seqId, limit);
      StartFollows(LocalsAfter(log), c, b, cache.locals.Keys, next, seqId, limit);
      PredictedStart(log, c, limit, b, cache.locals.Keys, next, seqId);
    }
  }

  lemma BeginsIs<R>(m: map<R, Str>, c: Command<R>)
    ensures c.StartRequest? ==> (Begins(m, c, c.req) <==> c.req !in m)
  {
  }

  lemma LocalsMore<R>(log: seq<Command<R>>, c: Command<R>)
    ensures var m, m' := LocalsAfter(log), LocalsAfter(log + [c]);
            && (c.StartRequest? ==> m' == if c.req in m then m else m[c.req := c.prompt])
            && (c.StopRequest? ==> m' == m - {c.req})
            && (c.AddResponse? ==> m' == if c.req in m then m[c.req := m[c.req] + c.tokens] else m)
            && (c.EvictResponse? ==> m' == m)
  {
    LogMore(log, c);
  }

  /** A new cache is given the commands of a log; those that are errors leave it alone. */
  method RunAll<R(==, !new)>(depth: int, limit: int, log: seq<Command<R>>)
    returns (cache: SuffixDecodingCache<R>, ghost orders: seq<seq<R>>)
    requires depth >= 1 && limit < IDS && forall k | 0 <= k < |log| :: |LocalsAfter(log[..k])| + 1 < IDS
    ensures fresh(cache) && cache.Valid() && cache.locals == LocalsAfter(log)
    ensures Remembers(cache.book, cache.globalTree.seqs, log)
    ensures Retention(log, limit, orders) && cache.book.order == orders[|log|]
    ensures Starts(log) <= IDS ==> cache.book.order == Retained(log, limit)
    ensures limit >= 0 ==> |cache.book.order| <= limit
  {
    hide *;
    cache := new SuffixDecodingCache(depth, limit);
    NothingCached(cache);
    RecalledNothing<R>([]);
    LocalsNone<R>();
    PredictedNone(cache.book, cache.nextSeqId, limit);
    RetentionNone<R>(limit);
    orders := [[]];
    for i := 0 to |log|
      invariant fresh(cache) && fresh(cache.repr) && cache.Valid() && cache.locals == LocalsAfter(log[..i])
      invariant cache.maxCachedRequests == limit
      invariant Recalled(log[..i], cache.responses, cache.book.order)
      invariant Predicted(log[..i], limit, cache.book, cache.nextSeqId)
      invariant Retention(log[..i], limit, orders) && |orders| == i + 1 && orders[i] == cache.book.order
    {
      assert log[..i + 1] == log[..i] + [log[i]];
      RetentionEnd(log[..i], limit, orders);
      Step(cache, log[i], log[..i]);
      RetentionMore(log[..i], limit, orders, log[i], cache.book.order);
      orders := orders + [cache.book.order];
    }
    assert log[..|log|] == log;
    NothingCached(cache);
    RemembersIf(cache.book, cache.responses, cache.globalTree.seqs, log);
    PredictedEnd(log, limit, cache.book, cache.nextSeqId);
  }

  lemma LocalsNone<R>()
    ensures LocalsAfter<R>([]) == map[]
  {
  }

  lemma PredictedNone<R(!new)>(b: Book<R>, next: int, limit: int)
    requires b.order == [] && b.seqToReq == map[] && next == 0
    ensures Predicted([], limit, b, next)
  {
  }

  lemma RetentionNone<R(!new)>(limit: int)
    ensures Retention<R>([], limit, [[]])
  {
  }

  lemma RetentionEnd<R(!new)>(log: seq<Command<R>>, limit: int, orders: seq<seq<R>>)
    requires Retention(log, limit, orders)
    ensures |orders| == |log| + 1
  {
  }

  lemma RetentionMore<R(!new)>(log: seq<Command<R>>, limit: int, orders: seq<seq<R>>, c: Command<R>, after: seq<R>)
    requires Retention(log, limit, orders) && Follows(LocalsAfter(log), orders[|log|], c, after, limit)
    ensures Retention(log + [c], limit, orders + [after])
  {
    var log', orders' := log + [c], orders + [after];
    forall k | 0 <= k < |log'| ensures Follows(LocalsAfter(log'[..k]), orders'[k], log'[k], orders'[k + 1], limit) {
      if k < |log| {
        assert log'[..k] == log[..k] && orders'[k + 1] == orders[k + 1];
      } else {
        assert log'[..k] == log;
      }
    }
  }

  lemma PredictedEnd<R(!new)>(log: seq<Command<R>>, limit: int, b: Book<R>, next: int)
    requires Predicted(log, limit, b, next)
    ensures Starts(log) <= IDS ==> b.order == Retained(log, limit)
  {
    if limit == 0 {
      RetainedNothing(log);
    }
  }

  lemma {:induction false} RetainedNothing<R(!new)>(log: seq<Command<R>>)
    ensures Retained(log, 0) == []
  {
    if log != [] {
      RetainedNothing(log[..|log| - 1]);
    }
  }
}
