/**
 suffix_decode of the simulator: draft, accept the drafted tokens that agree with the known
 response, add one more token, and tell the cache.
 */
module Simulation {
  import opened Suffixes
  import opened Contents
  import opened Nodes
  import opened Occurrences
  import opened SuffixTrees
  import opened Drafting
  import opened GreedyDraft
  import opened TreeDraft
  import opened Speculation
  import opened Caches

  // ----- Paths in a draft -----

  ghost predicate Shaped(d: Draft) {
    |d.parents| == |d.tokens|
  }

  function Above(path: seq<int>, k: int): int
    requires 0 <= k <= |path|
  {
    if k == 0 then -1 else path[k - 1]
  }

  ghost predicate PathAt(d: Draft, path: seq<int>, k: int)
    requires 0 <= k < |path|
  {
    0 <= path[k] < |d.tokens| == |d.parents| && d.parents[path[k]] == Above(path, k)
  }

  /** A path of entries from the root of the draft. */
  ghost predicate IsPath(d: Draft, path: seq<int>) {
    forall k {:trigger PathAt(d, path, k)} | 0 <= k < |path| :: PathAt(d, path, k)
  }

  /** The tokens on the path are the first of the text. */
  ghost predicate Agrees(d: Draft, path: seq<int>, text: Str) {
    IsPath(d, path) && |path| <= |text| && forall k | 0 <= k < |path| ::
        0 <= path[k] < |d.tokens| && d.tokens[path[k]] == text[k]
  }

  /** Entries with the same parent have different tokens. */
  ghost predicate TrieShaped(d: Draft) {
    Shaped(d) && forall i, j | 0 <= i < j < |d.tokens| && d.parents[i] == d.parents[j] :: d.tokens[i] != d.tokens[j]
  }

  /** n is the length of the longest path that agrees with the text. */
  ghost predicate LongestPath(d: Draft, text: Str, n: nat) {
    (exists path :: Agrees(d, path, text) && |path| == n) && forall path :: Agrees(d, path, text) ==> |path| <= n
  }

  lemma {:induction false} OnePath(d: Draft, p: seq<int>, q: seq<int>, text: Str, k: nat)
    requires TrieShaped(d) && Agrees(d, p, text) && Agrees(d, q, text) && k < |p| && k < |q|
    ensures p[k] == q[k]
  {
    if k > 0 {
      OnePath(d, p, q, text, k - 1);
    }
    assert PathAt(d, p, k) && PathAt(d, q, k);
  }

  /** A longer path that agrees extends the path by an entry. */
  lemma LongerExtends(d: Draft, path: seq<int>, text: Str, p: seq<int>)
    requires TrieShaped(d) && Agrees(d, path, text) && Agrees(d, p, text) && |p| > |path|
    ensures |path| < |text| && 0 <= p[|path|] < |d.tokens| && d.parents[p[|path|]] == Above(path, |path|)
            && d.tokens[p[|path|]] == text[|path|]
  {
    if path != [] {
      OnePath(d, p, path, text, |path| - 1);
    }
    assert PathAt(d, p, |path|);
  }

  /** A path that no entry extends by the next token is the longest. */
  lemma NoExtension(d: Draft, path: seq<int>, text: Str)
    requires TrieShaped(d) && Agrees(d, path, text)
    requires |path| < |text| ==> forall c | 0 <= c < |d.tokens| && d.parents[c] == Above(path, |path|) ::
               d.tokens[c] != text[|path|]
    ensures LongestPath(d, text, |path|)
  {
    forall p | Agrees(d, p, text) ensures |p| <= |path| {
      if |p| > |path| {
        LongerExtends(d, path, text, p);
      }
    }
  }

  lemma PathGrows(d: Draft, path: seq<int>, text: Str, c: int)
    requires Shaped(d) && Agrees(d, path, text) && |path| < |text| && 0 <= c < |d.tokens|
    requires d.parents[c] == Above(path, |path|) && d.tokens[c] == text[|path|]
    ensures Agrees(d, path + [c], text)
  {
    forall k | 0 <= k < |path| + 1 ensures PathAt(d, path + [c], k) {
      assert k < |path| ==> PathAt(d, path, k);
    }
  }

  /** The first child of a node, in order, with the token. */
  method FindChild(d: Draft, node: int, token: Token) returns (c: int)
    requires Shaped(d)
    ensures c == -1 ==> forall i | 0 <= i < |d.tokens| && d.parents[i] == node :: d.tokens[i] != token
    ensures c != -1 ==> 0 <= c < |d.tokens| && d.parents[c] == node && d.tokens[c] == token
  {
    for i := 0 to |d.tokens|
      invariant forall j | 0 <= j < i && d.parents[j] == node :: d.tokens[j] != token
    {
      if d.parents[i] == node && d.tokens[i] == token {
        return i;
      }
    }
    c := -1;
  }

  /** Verification: of a draft shaped like a trie the longest path that agrees with the text is accepted. */
  method Verify(d: Draft, text: Str) returns (accepted: Str)
    requires Shaped(d)
    ensures accepted <= text
    ensures exists path :: Agrees(d, path, text) && |path| == |accepted|
    ensures TrieShaped(d) ==> LongestPath(d, text, |accepted|)
  {
    accepted := [];
    var node := -1;
    ghost var path := [];
    while |accepted| < |text|
      invariant accepted <= text && Agrees(d, path, text) && |path| == |accepted| && node == Above(path, |path|)
    {
      var c := FindChild(d, node, text[|accepted|]);
      if c == -1 {
        break;
      }
      PathGrows(d, path, text, c);
      accepted := accepted + [text[|accepted|]];
      path := path + [c];
      node := c;
    }
    if TrieShaped(d) {
      assert |path| < |text| ==> forall c | 0 <= c < |d.tokens| && d.parents[c] == Above(path, |path|) ::
               d.tokens[c] != text[|path|];
      NoExtension(d, path, text);
    }
  }

  // ----- Drafts are shaped like tries -----

  lemma ChainShaped(ins: Inserted, m: Str, minProb: real, d: Draft)
    requires Chain(ins, m, minProb, d)
    ensures TrieShaped(d)
  {
    forall i, j | 0 <= i < j < |d.tokens| ensures d.parents[i] != d.parents[j] {
      assert ChainEntry(ins, m, minProb, d, i) && ChainEntry(ins, m, minProb, d, j);
    }
  }

  lemma TreeShaped(ins: Inserted, m: Str, minProb: real, d: Draft, strs: seq<Str>)
    requires Tree(ins, m, minProb, d, strs) && NoRepeats(strs)
    ensures TrieShaped(d)
  {
    forall i, j | 0 <= i < j < |d.tokens| && d.parents[i] == d.parents[j] ensures d.tokens[i] != d.tokens[j] {
      assert TreeEntry(ins, m, minProb, d, strs, i) && TreeEntry(ins, m, minProb, d, strs, j);
      assert strs[i] != strs[j];
    }
  }

  lemma BestShaped(seqs: Seqs, depth: int, context: Str, how: Limits, d: Draft)
    requires BestDraft(seqs, depth, context, how, d)
    ensures TrieShaped(d) && Shaped(d)
  {
    var tried: seq<Draft> :| BestOf(tried, d)
      && (forall i {:trigger tried[i]} | 0 <= i < |tried| :: Tried(seqs, depth, context, how, i + 1, tried[i]));
    if tried != [] {
      var j :| 0 <= j < |tried| && d == tried[j].(matchLen := j + 1);
      var ins, t := Stored(seqs, depth), tried[j];
      assert Tried(seqs, depth, context, how, j + 1, t);
      var m :| Ends(context, m) && |m| == j + 1 && Made(seqs, depth, how, m, t);
      if how.useTree {
        var strs :| Tree(ins, m, Threshold(how.minProb), t, strs) && NoRepeats(strs);
        TreeShaped(ins, m, Threshold(how.minProb), t, strs);
      } else {
        ChainShaped(ins, m, how.minProb, t);
      }
    }
  }

  // ----- The decoding loop -----

  /** One entry of the results; the times are left out. */
  datatype Step = Step(step: nat, matchLen: int, score: real, specTokens: nat, acceptedTokens: nat, outTokens: nat)

  /** Step k, which starts at the given position of the response, accepts all it can and adds a token if one is left. */
  ghost predicate StepOk(truth: Str, start: nat, d: Draft, s: Step, k: nat) {
    && start < |truth| && s.step == k && s.specTokens == |d.tokens| && s.score == d.score && s.matchLen == d.matchLen
    && TrieShaped(d) && LongestPath(d, truth[start..], s.acceptedTokens)
    && s.outTokens == (if start + s.acceptedTokens < |truth| then s.acceptedTokens + 1 else s.acceptedTokens) >= 1
  }

  ghost function Before(steps: seq<Step>, k: nat): nat
    requires k <= |steps|
  {
    if k == 0 then 0 else Before(steps, k - 1) + steps[k - 1].outTokens
  }

  ghost predicate StepsOk(truth: Str, drafts: seq<Draft>, steps: seq<Step>) {
    |drafts| == |steps| && forall k {:trigger steps[k]} | 0 <= k < |steps| ::
        StepOk(truth, Before(steps, k), drafts[k], steps[k], k)
  }

  /** The draft is the better of the best draft from the request's own text and the best from all responses, both
      for the last part of the text. */
  ghost predicate Proposes(own: Str, seqs: Seqs, depth: int, text: Str, how: Limits, d: Draft) {
    exists recent, x, y {:trigger LastPart(text, depth, recent), Better(x, y, d)} ::
      && LastPart(text, depth, recent) && BestDraft(Extended(map[], 0, own), depth, recent, how, x)
      && BestDraft(seqs, depth, recent, how, y) && Better(x, y, d)
  }

  ghost predicate Better(x: Draft, y: Draft, d: Draft) {
    d == if x.score >= y.score then x else y
  }

  /** What the cache drafts when its tree of responses holds these. */
  ghost predicate Drafts<R(!new)>(b: Book<R>, responses: map<R, Str>, own: Str, depth: int, text: Str, how: Limits,
                                  d: Draft)
  {
    exists seqs {:trigger GlobalIs(b, responses, seqs)} ::
        GlobalIs(b, responses, seqs) && Proposes(own, seqs, depth, text, how, d)
  }

  /** The responses while the request has been given the response so far. */
  function Saying<R>(responses: map<R, Str>, r: R, response: Str): map<R, Str> {
    if r in responses then responses[r := response] else responses
  }

  /** Draft k is what the cache drafts after the response before step k; the request's own text has the prompt only
      if the flag for it is set. */
  ghost predicate DraftAt<R(!new)>(b: Book<R>, responses: map<R, Str>, r: R, cached: bool, prompt: Str, truth: Str,
                                   depth: int, how: Limits, drafts: seq<Draft>, steps: seq<Step>, k: nat)
    requires k < |drafts| == |steps|
  {
    Before(steps, k) <= |truth| && var said := truth[..Before(steps, k)];
    Drafts(b, Saying(responses, r, said), if cached then prompt + said else said, depth, prompt + said, how, drafts[k])
  }

  ghost predicate DraftsOk<R(!new)>(b: Book<R>, responses: map<R, Str>, r: R, cached: bool, prompt: Str, truth: Str,
                                    depth: int, how: Limits, drafts: seq<Draft>, steps: seq<Step>) {
    && |drafts| == |steps|
    && forall k {:trigger DraftAt(b, responses, r, cached, prompt, truth, depth, how, drafts, steps, k)}
         | 0 <= k < |drafts| ::
         DraftAt(b, responses, r, cached, prompt, truth, depth, how, drafts, steps, k)
  }

  lemma DraftsNone<R(!new)>(b: Book<R>, responses: map<R, Str>, r: R, cached: bool, prompt: Str, truth: Str,
                            depth: int, how: Limits)
    ensures DraftsOk(b, responses, r, cached, prompt, truth, depth, how, [], [])
  {
  }

  lemma SayingTwice<R>(responses: map<R, Str>, r: R, more: Str, said: Str)
    ensures Saying(Saying(responses, r, more), r, said) == Saying(responses, r, said)
    ensures r in responses && responses[r] == said ==> Saying(responses, r, said) == responses
    ensures r !in responses ==> Saying(responses, r, said) == responses
  {
  }

  /** An earlier draft is as it was when the response of the request has grown. */
  lemma DraftKept<R(!new)>(b: Book<R>, responses: map<R, Str>, r: R, cached: bool, prompt: Str, truth: Str, depth: int,
                           how: Limits, drafts: seq<Draft>, steps: seq<Step>, d: Draft, s: Step, more: Str, k: nat)
    requires k < |drafts| == |steps| && DraftAt(b, responses, r, cached, prompt, truth, depth, how, drafts, steps, k)
    ensures DraftAt(b, Saying(responses, r, more), r, cached, prompt, truth, depth, how, drafts + [d], steps + [s], k)
  {
    hide Saying, Drafts;
    BeforeSame(steps, [s], k);
    SayingTwice(responses, r, more, truth[..Before(steps, k)]);
    assert (drafts + [d])[k] == drafts[k];
  }

  /** The draft of the next round. */
  lemma DraftLast<R(!new)>(b: Book<R>, responses: map<R, Str>, r: R, cached: bool, prompt: Str, truth: Str, depth: int,
                           how: Limits, drafts: seq<Draft>, steps: seq<Step>, d: Draft, s: Step, said: Str, more: Str)
    requires |drafts| == |steps| && Before(steps, |steps|) == |said| && said <= truth
    requires r in responses ==> responses[r] == said
    requires Drafts(b, responses, if cached then prompt + said else said, depth, prompt + said, how, d)
    ensures DraftAt(b, Saying(responses, r, more), r, cached, prompt, truth, depth, how, drafts + [d], steps + [s],
                    |drafts|)
  {
    hide Saying, Drafts;
    BeforeSame(steps, [s], |steps|);
    assert truth[..|said|] == said;
    SayingTwice(responses, r, more, said);
    assert (drafts + [d])[|drafts|] == d;
  }

  /** A round adds its draft to the list, and its tokens to the response of the request. */
  lemma DraftsMore<R(!new)>(b: Book<R>, responses: map<R, Str>, r: R, cached: bool, prompt: Str, truth: Str, depth: int,
                            how: Limits, drafts: seq<Draft>, steps: seq<Step>, d: Draft, s: Step, said: Str, more: Str)
    requires DraftsOk(b, responses, r, cached, prompt, truth, depth, how, drafts, steps)
    requires Before(steps, |steps|) == |said| && said <= truth && (r in responses ==> responses[r] == said)
    requires Drafts(b, responses, if cached then prompt + said else said, depth, prompt + said, how, d)
    ensures DraftsOk(b, Saying(responses, r, more), r, cached, prompt, truth, depth, how, drafts + [d], steps + [s])
  {
    hide Saying, Drafts, DraftAt;
    var responses' := Saying(responses, r, more);
    forall k: nat {:trigger DraftAt(b, responses', r, cached, prompt, truth, depth, how, drafts + [d], steps + [s], k)}
      | k < |drafts| + 1
      ensures DraftAt(b, responses', r, cached, prompt, truth, depth, how, drafts + [d], steps + [s], k)
    {
      if k < |drafts| {
        DraftKept(b, responses, r, cached, prompt, truth, depth, how, drafts, steps, d, s, more, k);
      } else {
        DraftLast(b, responses, r, cached, prompt, truth, depth, how, drafts, steps, d, s, said, more);
      }
    }
  }

  lemma DraftsIs<R(!new)>(b: Book<R>, responses: map<R, Str>, own: Str, depth: int, text: Str, how: Limits, d: Draft,
                          seqs: Seqs, recent: Str, x: Draft, y: Draft)
    requires GlobalIs(b, responses, seqs) && LastPart(text, depth, recent)
    requires BestDraft(Extended(map[], 0, own), depth, recent, how, x)
    requires BestDraft(seqs, depth, recent, how, y) && Better(x, y, d)
    ensures Drafts(b, responses, own, depth, text, how, d)
  {
  }

  lemma {:induction false} BeforeSame(steps: seq<Step>, more: seq<Step>, k: nat)
    requires k <= |steps|
    ensures Before(steps + more, k) == Before(steps, k)
  {
    if k > 0 {
      BeforeSame(steps, more, k - 1);
    }
  }

  lemma StepAdded(truth: Str, drafts: seq<Draft>, steps: seq<Step>, d: Draft, s: Step)
    requires StepsOk(truth, drafts, steps) && StepOk(truth, Before(steps, |steps|), d, s, |steps|)
    ensures StepsOk(truth, drafts + [d], steps + [s])
    ensures Before(steps + [s], |steps| + 1) == Before(steps, |steps|) + s.outTokens
  {
    BeforeSame(steps, [s], |steps|);
    forall k | 0 <= k < |steps| + 1 ensures StepOk(truth, Before(steps + [s], k), (drafts + [d])[k], (steps + [s])[k],
                                                   k) {
      BeforeSame(steps, [s], k);
    }
  }

  /** One round: the draft, what is accepted of it, and the tokens the cache gets. */
  method Round<R(==, !new)>(cache: SuffixDecodingCache<R>, r: R, prompt: Str, truth: Str, response: Str, how: Limits,
                            k: nat)
    returns (step: Step, newTokens: Str, d: Draft)
    requires cache.Valid() && r in cache.locals && response <= truth && |response| < |truth|
    modifies cache`repr, cache`locals, cache`responses, cache.repr
    ensures cache.Valid() && cache.repr >= old(cache.repr) && fresh(cache.repr - old(cache.repr))
    ensures StepOk(truth, |response|, d, step, k) && |newTokens| == step.outTokens && response + newTokens <= truth
    ensures Drafts(cache.book, old(cache.responses), old(cache.locals)[r], cache.maxTreeDepth, prompt + response, how,
                   d)
    ensures cache.locals == old(cache.locals)[r := old(cache.locals)[r] + newTokens] && cache.book == old(cache.book)
    ensures cache.responses == if r in old(cache.responses)
            then old(cache.responses)[r := old(cache.responses)[r] + newTokens] else old(cache.responses)
  {
    hide *;
    var sequence := if response != [] then prompt + response else prompt;
    var draft, own, shared, recent := cache.Draft(r, sequence, how);
    d := draft.value;
    ghost var depth := cache.maxTreeDepth;
    BetterIs(own, shared, d);
    cache.ValidParts();
    cache.UsableParts();
    PromptOnly(prompt, response);
    DraftsIs(cache.book, cache.responses, cache.locals[r], depth, sequence, how, d, cache.globalTree.seqs, recent,
             own, shared);
    BestShaped(Extended(map[], 0, cache.locals[r]), depth, recent, how, own);
    BestShaped(cache.globalTree.seqs, depth, recent, how, shared);
    var accepted := Verify(d, truth[|response|..]);
    newTokens := accepted;
    if |response| + |accepted| < |truth| {
      newTokens := newTokens + [truth[|response| + |accepted|]];
    }
    step := Step(k, d.matchLen, d.score, |d.tokens|, |accepted|, |newTokens|);
    StepIs(truth, |response|, d, step, k);
    AgreedPrefix(truth, response, accepted);
    var _ := cache.Add(r, newTokens);
  }

  lemma BetterIs(x: Draft, y: Draft, d: Draft)
    requires d == if x.score >= y.score then x else y
    ensures Better(x, y, d)
  {
  }

  lemma PromptOnly(prompt: Str, response: Str)
    ensures response == [] ==> prompt + response == prompt
  {
  }

  lemma StepIs(truth: Str, start: nat, d: Draft, s: Step, k: nat)
    requires start < |truth| && s.step == k && s.specTokens == |d.tokens| && s.score == d.score
             && s.matchLen == d.matchLen
    requires TrieShaped(d) && LongestPath(d, truth[start..], s.acceptedTokens) && start + s.acceptedTokens <= |truth|
    requires s.outTokens == if start + s.acceptedTokens < |truth| then s.acceptedTokens + 1 else s.acceptedTokens
    ensures StepOk(truth, start, d, s, k)
  {
  }

  /** Accepted tokens, and one more, continue the response as the truth does. */
  lemma AgreedPrefix(truth: Str, response: Str, accepted: Str)
    requires response <= truth && accepted <= truth[|response|..]
    ensures response + accepted <= truth
    ensures |response| + |accepted| < |truth| ==> response + (accepted + [truth[|response| + |accepted|]]) <= truth
  {
  }

  /** The state of the cache in the middle of the loop: it has been given the response so far. */
  ghost predicate Fed<R(!new)>(locals0: map<R, Str>, locals: map<R, Str>, responses: map<R, Str>, r: R, prompt: Str,
                               response: Str, cached: bool)
  {
    && locals == locals0[r := prompt + response]
    && (r in responses ==> responses[r] == response) && (cached ==> r in responses)
  }

  lemma FedMore<R(!new)>(locals0: map<R, Str>, locals: map<R, Str>, responses: map<R, Str>,
                         locals': map<R, Str>, responses': map<R, Str>, r: R, prompt: Str, response: Str, more: Str,
                             cached: bool)
    requires Fed(locals0, locals, responses, r, prompt, response, cached) && r in locals
    requires locals' == locals[r := locals[r] + more]
    requires responses' == if r in responses then responses[r := responses[r] + more] else responses
    ensures Fed(locals0, locals', responses', r, prompt, response + more, cached)
  {
    assert prompt + response + more == prompt + (response + more);
  }

  lemma FedStarts<R(!new)>(b: Book<R>, r: R, s: int, max: int, locals0: map<R, Str>, locals: map<R, Str>,
                           kept: map<R, Str>, responses: map<R, Str>, prompt: Str)
    requires locals == locals0[r := prompt]
    requires max == 0 ==> r !in responses
    requires max != 0 ==> BookOk(b) && 0 <= s < IDS && responses == Restricted(kept[r := []], Started(b, r, s, max))
    ensures Fed(locals0, locals, responses, r, prompt, [], max != 0)
  {
    assert prompt + [] == prompt;
    if max != 0 {
      StartedOrder(b, r, s, max);
    }
  }

  /** suffix_decode: every round adds tokens, so it ends; the response it builds is the truth, and the
      cache is given exactly that.  Zero for the number of tokens means the depth of the trees. */
  method SuffixDecode<R(==, !new)>(cache: SuffixDecodingCache<R>, r: R, prompt: Str, truth: Str, limits: Limits,
                                   useCachedPrompt: bool)
    returns (res: Outcome<seq<Step>>, ghost response: Str, ghost drafts: seq<Draft>)
    requires cache.Valid() && |cache.localTrees| + 1 < IDS
    modifies cache, cache.repr
    ensures cache.Valid()
    ensures res.ValueError? <==> r in old(cache.locals)
    ensures res.Ok? ==> response == truth && cache.locals == old(cache.locals)
    ensures res.Ok? && cache.maxCachedRequests != 0 ==> r in cache.responses && cache.responses[r] == truth
    ensures res.Ok? ==>
              StepsOk(truth, drafts, res.value) && Before(res.value, |res.value|) == |truth| && |res.value| <= |truth|
    ensures res.Ok? ==>
              DraftsOk(cache.book, cache.responses, r, useCachedPrompt, prompt, truth, cache.maxTreeDepth,
                       if limits.maxTokens != 0 then limits
                       else Limits(cache.maxTreeDepth, limits.factor, limits.offset, limits.minProb, limits.useTree),
                       drafts, res.value)
  {
    hide *;
    drafts := [];
    ghost var locals0, b, kept := cache.locals, cache.book, cache.responses;
    var how := if limits.maxTokens == 0 then limits.(maxTokens := cache.maxTreeDepth) else limits;
    var start := if useCachedPrompt then prompt else [];
    NothingKept(cache, r);
    var started, seqId := cache.Start(r, start);
    if started.ValueError? {
      return ValueError, [], [];
    }
    FedStarts(b, r, seqId, cache.maxCachedRequests, locals0, cache.locals, kept, cache.responses, start);
    var results, said := [], [];
    NoSteps(truth);
    ghost var book, depth := cache.book, cache.maxTreeDepth;
    DraftsNone(book, cache.responses, r, useCachedPrompt, prompt, truth, depth, how);
    while |said| < |truth|
      invariant cache.Valid() && cache.repr >= old(cache.repr) && fresh(cache.repr - old(cache.repr))
      invariant said <= truth
                && Fed(locals0, cache.locals, cache.responses, r, start, said, cache.maxCachedRequests != 0)
      invariant StepsOk(truth, drafts, results) && Before(results, |results|) == |said| && |results| <= |said|
      invariant DraftsOk(book, cache.responses, r, useCachedPrompt, prompt, truth, depth, how, drafts, results)
                && cache.book == book
      decreases |truth| - |said|
    {
      FedLocal(locals0, cache.locals, cache.responses, r, start, said, cache.maxCachedRequests != 0);
      ghost var locals1, responses1 := cache.locals, cache.responses;
      var step, newTokens, d := Round(cache, r, prompt, truth, said, how, |results|);
      FedMore(locals0, locals1, responses1, cache.locals, cache.responses, r, start, said, newTokens,
              cache.maxCachedRequests != 0);
      StepAdded(truth, drafts, results, d, step);
      RoundSays(locals0, locals1, responses1, cache.responses, r, start, said, newTokens, cache.maxCachedRequests != 0);
      assert locals1[r] == if useCachedPrompt then prompt + said else said;
      DraftsMore(book, responses1, r, useCachedPrompt, prompt, truth, depth, how, drafts, results, d, step, said,
                 said + newTokens);
      StepAdvances(truth, |said|, d, step, |results|);
      drafts := drafts + [d];
      results := results + [step];
      said := said + newTokens;
    }
    FedLocal(locals0, cache.locals, cache.responses, r, start, said, cache.maxCachedRequests != 0);
    var _ := cache.Stop(r);
    response := said;
    res := Ok(results);
  }

  lemma RoundSays<R(!new)>(locals0: map<R, Str>, locals: map<R, Str>, responses: map<R, Str>,
                           responses': map<R, Str>, r: R, start: Str, said: Str, more: Str, cached: bool)
    requires Fed(locals0, locals, responses, r, start, said, cached)
    requires responses' == if r in responses then responses[r := responses[r] + more] else responses
    ensures responses' == Saying(responses, r, said + more) && r in locals && locals[r] == start + said
    ensures r in responses ==> responses[r] == said
  {
  }

  lemma NoSteps(truth: Str)
    ensures StepsOk(truth, [], []) && Before([], 0) == 0
  {
  }

  lemma StepAdvances(truth: Str, start: nat, d: Draft, s: Step, k: nat)
    requires StepOk(truth, start, d, s, k)
    ensures s.outTokens >= 1
  {
  }

  lemma FedLocal<R(!new)>(locals0: map<R, Str>, locals: map<R, Str>, responses: map<R, Str>, r: R, prompt: Str,
                          response: Str, cached: bool)
    requires Fed(locals0, locals, responses, r, prompt, response, cached)
    ensures r in locals && (r !in locals0 ==> locals - {r} == locals0)
    ensures (r in responses ==> responses[r] == response) && (cached ==> r in responses)
  {
  }

  /** With the cache for responses off, none is there. */
  lemma NothingKept<R(!new)>(cache: SuffixDecodingCache<R>, r: R)
    requires cache.Valid()
    ensures cache.maxCachedRequests == 0 ==> r !in cache.responses
  {
    if r in cache.responses {
      assert Filed(cache.book, r);
    }
  }
}
