/**
 One call of `main_`: the completion loop of llama.cpp, patched so that a call
 stops after `max_tokens` evaluated tokens and leaves the rest of the work in a
 session file.  The fields of `Generation` are the local variables of `main_`.
 */
module Completion {
  import opened Sequences
  import opened Wrappers
  import opened LlamaMemory
  import SelfExtend

  const TWO_64 := 0x1_0000_0000_0000_0000

  type U64 = n: nat | n < TWO_64

  datatype Params = Params(
    maxTokens: U64,       // 0: no limit
    nBatch: nat,
    nPredict: int,        // negative: no limit; -2 also stops at a full context
    nKeep: int,
    ctxShift: bool,
    cacheAll: bool,       // --prompt-cache-all
    cacheRo: bool,        // --prompt-cache-ro
    displayPrompt: bool,
    gaN: int,             // --grp-attn-n
    gaW: int)             // --grp-attn-w

  /**
   The parts of the model `main_` asks: the token picked from the logits over the
   given cells when the sampler has accepted the given tokens, which tokens end a
   generation, and whether a reverse prompt ends the accepted tokens.
   */
  datatype Model = Model(
    predict: (seq<Cell>, seq<Token>) -> Token,
    isEog: Token -> bool,
    antiprompt: seq<Token> -> bool,
    addBos: bool,
    bos: Token)

  /** Why the loop was left. */
  datatype Stop = Continue | Evaluated | ContextFull | Failed | Finished | Trapped

  const INT_MAX := 0x7fff_ffff

  function Max(a: int, b: int): int { if a < b then b else a }

  function Min(a: int, b: int): int { if a < b then a else b }

  /** The first `keep` tokens of a history and its newest ones, n in all. */
  function Window(h: seq<Token>, keep: nat, n: nat): seq<Token> {
    if keep <= n < |h| then h[..keep] + h[|h| - (n - keep)..] else h
  }

  lemma SplitAppend(h: seq<Token>, more: seq<Token>, i: nat)
    requires i <= |h|
    ensures (h + more)[..i] == h[..i]
    ensures (h + more)[i..] == h[i..] + more
  {
  }

  lemma WindowSize(h: seq<Token>, keep: nat, n: nat)
    requires keep <= n <= |h| || n == |h|
    ensures |Window(h, keep, n)| == n
  {
  }

  lemma WindowGrows(h: seq<Token>, more: seq<Token>, keep: nat, n: nat)
    requires keep <= n <= |h| || n == |h|
    ensures Window(h, keep, n) + more == Window(h + more, keep, n + |more|)
  {
    if n < |h| {
      EndsAppend(h, more, keep, |h| - (n - keep));
    }
  }

  lemma EndsAppend(h: seq<Token>, more: seq<Token>, i: nat, j: nat)
    requires i <= j <= |h|
    ensures (h + more)[..i] + (h + more)[j..] == (h[..i] + h[j..]) + more
  {
    hide *;
    SplitAppend(h, more, i);
    SplitAppend(h, more, j);
    Assoc(h[..i], h[j..], more);
  }

  /** A shift keeps the first `keep` tokens and the newest ones, whatever was dropped before. */
  lemma WindowShrinks(h: seq<Token>, keep: nat, n: nat, discard: nat)
    requires keep + discard <= n <= |h|
    ensures var w := Window(h, keep, n);
            |w| == n && w[..keep] + w[keep + discard..] == Window(h, keep, n - discard)
  {
    if n < |h| {
      var front, back := h[..keep], h[|h| - (n - keep)..];
      assert (front + back)[keep + discard..] == back[discard..];
      assert back[discard..] == h[|h| - (n - discard - keep)..];
    }
  }

  /** The two span operations of a shift turn one window into the smaller one. */
  lemma ShiftCells(h: seq<Token>, keep: nat, n: nat, discard: nat)
    requires keep + discard <= n <= |h|
    ensures AddSpan(RemoveSpan(Place(Window(h, keep, n)), keep, keep + discard), keep + discard, n, -(discard as int))
            == Place(Window(h, keep, n - discard))
  {
    WindowShrinks(h, keep, n, discard);
    hide Window;
    CloseHole(Window(h, keep, n), keep, discard);
  }

  /** C++ `/ 2`. */
  function Half(n: int): int { if n >= 0 then n / 2 else -((-n) / 2) }

  // ----- a call seen from outside

  /** The session file of a history that sits in the cache without gaps. */
  function Snapshot(h: seq<Token>): SessionFile { SessionFile(h, Place(h)) }

  /** The token an uninterrupted, unshifted generation puts after `h`. */
  ghost function Continuation(model: Model, h: seq<Token>): Token { model.predict(Place(h), h) }

  /** `h` is a part of `base`, or `base` continued by the model. */
  ghost predicate Continues(model: Model, base: seq<Token>, h: seq<Token>) {
    && (h <= base || base <= h)
    && forall i :: |base| <= i < |h| ==> h[i] == Continuation(model, h[..i])
  }

  /**
   As `Continues`, of a call that finds `reused` tokens of `base` in its session: if that is
   all of them, nothing is evaluated before the first token is picked, from the logits the
   context was left with.
   */
  ghost predicate Resumes(model: Model, logits: seq<Cell>, base: seq<Token>, reused: nat, h: seq<Token>) {
    && (h <= base || base <= h)
    && (reused == |base| < |h| ==> logits != [])
    && forall i :: |base| <= i < |h| ==>
         h[i] == if i == reused then model.predict(logits, base) else Continuation(model, h[..i])
  }

  /** Such a call continues the model exactly if those logits pick the model's token. */
  lemma ResumesContinues(model: Model, logits: seq<Cell>, base: seq<Token>, reused: nat, h: seq<Token>)
    requires Resumes(model, logits, base, reused, h) && reused <= |base|
    ensures Continues(model, base, h) <==>
              (reused == |base| < |h| ==> model.predict(logits, base) == Continuation(model, base))
  {
    if reused == |base| < |h| {
      assert h[..|base|] == base;
    }
  }

  /** Position e ends a generation that started from `base`: it holds the first end token from the last of `base` on. */
  ghost predicate EndsAt(model: Model, base: seq<Token>, h: seq<Token>, e: int) {
    && |base| - 1 <= e < |h| && 0 <= e && model.isEog(h[e])
    && forall i :: |base| - 1 <= i < e && 0 <= i ==> !model.isEog(h[i])
  }

  ghost predicate HasEnd(model: Model, base: seq<Token>, h: seq<Token>) {
    exists i :: |base| - 1 <= i < |h| && 0 <= i && model.isEog(h[i])
  }

  datatype Reply = Reply(
    conversation: seq<Token>,  // tokens reused or evaluated
    pending: seq<Token>,       // sampled or fed, but not evaluated
    fed: seq<Token>,           // what the sampler has been shown
    remaining: seq<Token>,
    eog: bool,
    nEval: nat)

  /**
   What a call promises when `reused` tokens of `inp` were in the session and there
   was room in the context: it goes on evaluating until the budget, the end token
   or the sampling limit, whichever comes first.
   */
  ghost predicate Stands(model: Model, p: Params, inp: seq<Token>, reused: nat, r: Reply) {
    var h := r.conversation + r.pending;
    var n := |r.conversation|;
    && inp != [] && reused <= |inp|
    && (h <= inp || inp <= h)
    && (reused == |inp| ==> |h| > |inp|)
    && r.eog == HasEnd(model, inp, h)
    && r.fed == h && r.nEval == n - reused
    && (p.maxTokens > 0 ==> r.nEval <= p.maxTokens)
    && (p.nPredict > 0 ==> |h| <= |inp| + p.nPredict)
    && r.remaining == inp[Min(|h|, |inp|)..]
    && (if r.pending == [] then
          // stopped by an evaluation
          && n > reused
          && (r.eog || (p.maxTokens > 0 && r.nEval == p.maxTokens))
          && (n - 1 > reused ==> !HasEnd(model, inp, r.conversation[..n - 1]))
          && (p.nPredict > 0 ==> n < |inp| + p.nPredict)
        else
          // stopped by the sampling limit
          && |r.pending| == 1 && p.nPredict > 0 && |h| == |inp| + p.nPredict
          && (n > reused ==> !HasEnd(model, inp, r.conversation))
          && (p.maxTokens > 0 ==> r.nEval < p.maxTokens))
  }

  /** And what it generates continues the model. */
  ghost predicate Served(model: Model, p: Params, inp: seq<Token>, reused: nat, r: Reply) {
    Stands(model, p, inp, reused, r) && Continues(model, inp, r.conversation + r.pending)
  }

  /** What it generates when the context had been left with `logits`. */
  ghost predicate Replied(model: Model, p: Params, inp: seq<Token>, reused: nat, logits: seq<Cell>, r: Reply) {
    Stands(model, p, inp, reused, r) && Resumes(model, logits, inp, reused, r.conversation + r.pending)
  }

  /** The logits the context was left with are those of the input, as far as the next token goes. */
  ghost predicate Primed(model: Model, inp: seq<Token>, reused: nat, logits: seq<Cell>) {
    reused == |inp| ==> logits != [] && model.predict(logits, inp) == Continuation(model, inp)
  }

  /** A reply continues the model if and only if the context was primed. */
  lemma ServedIfPrimed(model: Model, p: Params, inp: seq<Token>, reused: nat, logits: seq<Cell>, r: Reply)
    requires Replied(model, p, inp, reused, logits, r)
    ensures Served(model, p, inp, reused, r) <==> Primed(model, inp, reused, logits)
  {
    ResumesContinues(model, logits, inp, reused, r.conversation + r.pending);
  }

  /** The first chunk of an input of which `nMatch` tokens are in the session. */
  function FirstChunk(p: Params, nMatch: nat, input: nat): int {
    var full := Min(input, p.nBatch);
    if p.maxTokens > 0 then Min(full, Max(1, (nMatch + p.maxTokens) % TWO_64)) else full
  }

  /** How many prompt tokens a call feeds: all of them, unless the budget ends inside the prompt. */
  function PromptFed(p: Params, reused: nat, input: nat): nat {
    if p.nPredict == 0 then 0 else if p.maxTokens > 0 then Min(input, reused + p.maxTokens) else input
  }

  /**
   Whether prompt tokens show up in the output: one chunk among those fed has a single
   token, the last one if n_batch leaves a remainder of one, every one if n_batch is 1, and
   some one if the 64-bit limit wraps around.
   */
  predicate EchoesPrompt(p: Params, nMatch: nat, reused: nat, input: nat)
    requires p.nBatch >= 1
  {
    var fed := PromptFed(p, reused, input);
    p.displayPrompt && fed > 0
    && (p.nBatch == 1 || fed % p.nBatch == 1 || (p.maxTokens > 0 && nMatch + p.maxTokens >= TWO_64))
  }

  /** Where the last chunk of an input begins when the budget covers the input: at a multiple of n_batch. */
  function LastChunk(p: Params, nMatch: nat, input: nat): nat
    requires p.nBatch >= 1 && input >= 1
  {
    if p.maxTokens > 0 && nMatch + p.maxTokens >= TWO_64 then input - 1
    else (input - 1) / p.nBatch * p.nBatch
  }

  /** The call ends before it has sampled a token: nothing may be predicted, or a reverse prompt ends the input. */
  ghost predicate StopsAtPrompt(model: Model, p: Params, inp: seq<Token>, reused: nat) {
    p.nPredict == 0 || (model.antiprompt(inp) && (p.maxTokens == 0 || |inp| <= reused + p.maxTokens))
  }

  /** How many tokens such a call has processed: all but the last chunk, or none. */
  function ProcessedThen(p: Params, nMatch: nat, input: nat): nat
    requires p.nBatch >= 1 && input >= 1
  {
    if p.nPredict == 0 then 0 else LastChunk(p, nMatch, input)
  }

  /**
   The first chunk is longer than n_ctx - 4 tokens, and there is a second pass, which cuts
   it. Only an input that is the session itself can be that long.
   */
  ghost predicate SkipsTokens(model: Model, p: Params, size: nat, inp: seq<Token>) {
    var first := FirstChunk(p, |inp|, |inp|);
    p.nPredict != 0 && first > size - 4 && !(first == |inp| && model.antiprompt(inp))
  }

  /**
   Budget and conservation, for every call that ends. Never more than the budget is
   evaluated; what was fed and what remains make up the input; and what was fed is
   processed or pending, in order and without a gap, if and only if the first chunk is not
   cut. If it is, the tokens between n_ctx - 4 and its end are in neither.
   */
  ghost predicate Accounted(model: Model, p: Params, size: nat, inp: seq<Token>, r: Reply) {
    var first := FirstChunk(p, |inp|, |inp|);
    && (p.maxTokens > 0 ==> r.nEval <= p.maxTokens)
    && (r.fed <= inp || inp <= r.fed)
    && (p.nPredict != 0 ==> r.fed != [] && r.remaining == inp[Min(|r.fed|, |inp|)..])
    && (r.conversation + r.pending == r.fed <==> !SkipsTokens(model, p, size, inp))
    && (SkipsTokens(model, p, size, inp) ==>
          4 <= size && first <= |r.fed| && r.conversation + r.pending <= r.fed[..size - 4] + r.fed[first..])
  }

  /**
   How many tokens of a conversation of n are in the cache: a full context keeps the first
   `keep` and the newer half of the others, and the odd one.
   */
  function Remaining(size: nat, keep: nat, input: nat, n: nat): int {
    if n <= input then n
    else
      var q := Remaining(size, keep, input, n - 1);
      (if q + 1 >= size then keep + (q - keep + 1) / 2 else q) + 1
  }

  class Generation {
    const p: Params
    const model: Model
    const ctx: Context
    const inp: seq<Token>        // embd_inp
    const nMatch: nat            // n_matching_session_tokens
    const nKeep: nat
    const pathGiven: bool

    ghost const start: seq<Token>           // session_tokens when the loop is entered
    ghost const cells0: seq<Cell>           // the context when the loop is entered
    ghost const logits0: seq<Cell>
    ghost const file0: Option<SessionFile>

    var pathSession: bool        // path_session is not empty
    var session: seq<Token>      // session_tokens
    var embd: seq<Token>
    var nPast: int
    var nRemain: int
    var nConsumed: nat
    var nSessionConsumed: nat
    var nEvalTotal: nat
    var gaI: int
    var needToSave: bool
    var isAntiprompt: bool
    var generatedEog: bool
    var display: bool
    var accepted: seq<Token>     // what the sampler has been shown
    var conversation: seq<Token> // conversation_ss
    var output: seq<Token>       // output_ss
    var promptRemaining: seq<Token>
    var file: Option<SessionFile>

    ghost var groups: nat        // Self-Extend groupings made so far

    // ----- facts fixed for the call

    /** Tokens that will be taken from the session instead of being evaluated. */
    ghost function Reuse(): nat { Min(nMatch, |start|) }

    ghost predicate Wired() {
      && 8 <= ctx.size <= INT_MAX
      && p.nBatch >= 1
      && p.gaN > 0 && (p.gaN != 1 ==> p.gaW % p.gaN == 0 && p.gaW > 0)
      && |inp| >= 1 && nMatch <= |inp| <= INT_MAX && nKeep <= |inp| + 1
      && (!pathGiven ==> start == [])
      && start[..Reuse()] == inp[..Reuse()]
      && (Reuse() < |start| && Reuse() < |inp| ==> start[Reuse()] != inp[Reuse()])
      && (Reuse() == |inp| ==> |start| == |inp|)
      && (nMatch != Reuse() ==> nMatch == |inp| == |start| + 1)
    }

    /** The prompt is not longer than `main_` accepts; a session re-entered without a prompt may be. */
    ghost predicate Fits() { |inp| <= ctx.size - 4 }

    /** The re-sent prompt is a proper prefix of the session: its last token is evaluated again. */
    ghost predicate Trimmed() { nMatch > Reuse() }

    /** The context holds just the matching prefix, without gaps. */
    ghost predicate Clean()
      requires Wired()
    {
      cells0 == Place(inp[..nMatch])
    }

    /** n_past after k tokens (grp_attn_n = 1): it drops whenever the context is full. */
    ghost function Past(k: nat): int {
      if k <= |inp| then k
      else
        var q := Past(k - 1);
        (if q + 1 >= ctx.size then q - Half(q - nKeep) else q) + 1
    }

    /** The tokens in the cache once `h` has been processed and n_past is n. */
    ghost function Kept(h: seq<Token>, n: int): seq<Token>
      requires Wired()
    {
      if |h| < Reuse() then inp[..nMatch]
      else if Trimmed() then inp + h[Reuse()..]
      else if n < 0 then h
      else Window(h, nKeep, n)
    }

    /** The token the model continues `h` with. */
    ghost function NextToken(h: seq<Token>): Token
      requires Wired()
    {
      model.predict(Place(Kept(h, Past(|h|))), h)
    }

    function FeedLimit(): nat { (nMatch + p.maxTokens) % TWO_64 }

    /** Where the chunk starting at prompt token n ends: at n_batch tokens, at the budget, or with the prompt. */
    function FeedEnd(n: nat): (e: nat) {
      var full := Min(|inp|, n + p.nBatch);
      if p.maxTokens > 0 then Min(full, Max(n + 1, FeedLimit())) else full
    }

    /** Chunks of a single token among the prompt tokens [n, upto). */
    ghost function OneTokenChunks(n: nat, upto: nat): seq<Token>
      requires p.nBatch >= 1 && upto <= |inp|
      decreases upto - n
    {
      if n >= upto then []
      else (if FeedEnd(n) == n + 1 then [inp[n]] else []) + OneTokenChunks(FeedEnd(n), upto)
    }

    // ----- what holds each time the loop comes round

    /** Tokens fed but not yet processed are exactly `pending`; the counters follow from the two histories. */
    ghost predicate Shape(pending: seq<Token>)
      requires Wired()
      reads `accepted, `conversation, `nConsumed, `nEvalTotal, `nRemain
    {
      && accepted == conversation + pending
      && nConsumed == Min(|accepted|, |inp|)
      && (accepted <= inp || inp <= accepted)
      && (|accepted| > |inp| ==> |pending| <= 1)
      && |pending| <= p.nBatch
      && nEvalTotal == Max(0, |conversation| - Reuse())
      && (p.maxTokens > 0 ==> |accepted| <= Reuse() + p.maxTokens)
      && nRemain == p.nPredict - Max(0, |accepted| - |inp|)
    }

    /** The session list starts with what was processed; anything behind that is the loaded list, still matching. */
    ghost predicate Mirror()
      requires Wired()
      reads `pathSession, `session, `nSessionConsumed, `conversation
    {
      && (pathSession ==> pathGiven)
      && nSessionConsumed <= |session|
      && (pathSession ==>
            && nSessionConsumed == |conversation| <= |session|
            && session[..nSessionConsumed] == conversation
            && (nSessionConsumed < |session| ==> session == start && nSessionConsumed <= Reuse()))
      && (!pathSession ==> nSessionConsumed == |session| && (pathGiven ==> |conversation| >= Reuse()))
    }

    /** Before the first evaluation the session list is the loaded one. */
    ghost predicate Uncut()
      requires Wired()
      reads `pathSession, `session, `nSessionConsumed
    {
      pathSession && nSessionConsumed <= Reuse() ==> session == start
    }

    /** n_past as a function of the number of tokens fed; the path is dropped by the first context shift. */
    ghost predicate PastInStep(fed: nat, ahead: nat)
      requires Wired()
      reads `nPast, `pathSession
    {
      && (p.gaN == 1 ==> nPast + ahead == Past(fed) && pathSession == (pathGiven && Past(fed) == fed) && ShiftedIfMay(fed))
      && (p.gaN != 1 ==> pathSession == pathGiven)
    }

    /** The context is shifted only where that is allowed. */
    ghost predicate ShiftedIfMay(fed: nat)
      requires Wired()
    {
      Past(fed) != fed ==> p.ctxShift && p.nPredict != -2
    }

    ghost predicate CacheKnown(fed: nat)
      requires Wired()
    {
      Clean() && p.gaN == 1 && (Trimmed() ==> Past(fed) == fed)
    }

    /** The cache is the gapless layout of the first n_keep tokens and the newest ones. */
    ghost predicate CacheInStep(fed: nat)
      requires Wired()
      reads `conversation, `nPast, ctx
    {
      CacheKnown(fed) ==> ctx.cells == Place(Kept(conversation, nPast))
    }

    /** The logits are those of the last evaluation, or what the context was left with. */
    ghost predicate Heard()
      reads `nEvalTotal, ctx
    {
      if nEvalTotal == 0 then ctx.logits == logits0 else ctx.logits != []
    }

    ghost predicate LogitsInStep(fed: nat)
      requires Wired()
      reads `conversation, ctx
    {
      CacheKnown(fed) && |conversation| > Reuse() ==> ctx.logits == ctx.cells
    }

    /**
     Every generated token is the model's continuation of what precedes it, except that the
     first one comes from the logits the context was left with if nothing had to be evaluated.
     */
    ghost predicate Faithful(h: seq<Token>)
      requires Wired()
    {
      && (Reuse() == |inp| < |h| ==> logits0 != [] && h[|inp|] == model.predict(logits0, inp))
      && forall i :: |inp| <= i < |h| && i > Reuse() && CacheKnown(i) ==> h[i] == NextToken(h[..i])
    }

    /** Some token from the last one of the prompt on ends the generation. */
    ghost predicate SawEog(h: seq<Token>)
      requires Wired()
    {
      exists i :: |inp| - 1 <= i < |h| && model.isEog(h[i])
    }

    ghost predicate Flags()
      requires Wired()
      reads `generatedEog, `accepted, `isAntiprompt
    {
      && generatedEog == SawEog(accepted)
      && isAntiprompt == (|accepted| >= |inp| && model.antiprompt(accepted))
    }

    /** Nothing evaluated so far has been a reason to stop. */
    ghost predicate MayGoOn()
      requires Wired()
      reads `nEvalTotal, `conversation
    {
      && (p.maxTokens > 0 ==> nEvalTotal < p.maxTokens)
      && (|conversation| > Reuse() ==> !SawEog(conversation))
    }

    /** The file changes once inside the loop: when the prompt is done and was not all in the session. */
    ghost predicate FileInStep()
      requires Wired()
      reads `accepted, `needToSave, `file
    {
      var saved := pathGiven && nMatch < |inp| && !p.cacheRo && |accepted| > |inp|;
      && needToSave == (pathGiven && nMatch < |inp| && !saved)
      && (!saved ==> file == file0)
      && (saved ==>
            && file.Some? && file.value.tokens == inp
            && (CacheKnown(|inp|) ==> file.value == Snapshot(inp)))
    }

    ghost predicate OutputInStep()
      requires Wired()
      reads `accepted, `nConsumed, `output, `display
    {
      && nConsumed <= |inp| && nConsumed <= |accepted|
      && ChunkBoundary(0, nConsumed)
      && output == (if p.displayPrompt then OneTokenChunks(0, nConsumed) else []) + accepted[nConsumed..]
      && display == (p.displayPrompt || nConsumed == |inp|)
    }

    ghost predicate RemainingInStep()
      requires Wired()
      reads `nConsumed, `accepted, `promptRemaining
    {
      nConsumed <= |inp| && (accepted != [] ==> promptRemaining == inp[nConsumed..])
    }

    /** Where the chunk of prompt tokens that ends at `upto` began, counting chunks from n. */
    ghost function ChunkStart(n: nat, upto: nat): (from: nat)
      requires p.nBatch >= 1 && n < upto <= |inp|
      ensures n <= from < upto
      decreases upto - n
    {
      if FeedEnd(n) >= upto then n else ChunkStart(FeedEnd(n), upto)
    }

    /** How much had been processed when the last of `fed` tokens was fed. */
    ghost function LastStart(fed: nat): nat
      requires p.nBatch >= 1 && fed > 0
    {
      if fed <= |inp| then ChunkStart(0, fed) else fed - 1
    }

    /** Self-Extend from an empty context. */
    ghost predicate Groupable() {
      Wired() && p.gaN != 1 && cells0 == [] && start == []
    }

    /** The cells of `h` when its last chunk was decoded after all whole blocks before it had been grouped. */
    ghost function GroupedCells(h: seq<Token>): seq<Cell>
      requires Wired() && h != [] && p.gaN != 1
    {
      SelfExtend.GroupedUpTo(h, LastStart(|h|), p.gaN, p.gaW)
    }

    /** Every generated token is the model's continuation of the squeezed history before it. */
    ghost predicate FaithfulGrouped(h: seq<Token>)
      requires Wired() && p.gaN != 1
    {
      forall i :: |inp| <= i < |h| ==> h[i] == model.predict(GroupedCells(h[..i]), h[..i])
    }

    /** Self-Extend in closed form: cache, n_past and ga_i are those of `groups` groupings of the tokens processed. */
    ghost predicate InGroups(done: seq<Token>, n: int)
      requires Wired() && p.gaN != 1
      reads `gaI, `groups, ctx
    {
      SelfExtend.Grouped(ctx.cells, n, gaI, done, groups, p.gaN, p.gaW / p.gaN)
    }

    /** Each time the loop comes round. */
    ghost predicate Squeezing(pending: seq<Token>)
      requires Wired()
      reads `accepted, `conversation, `nPast, `gaI, `groups, ctx
    {
      && (pending != [] ==> accepted != [] && |conversation| == LastStart(|accepted|))
      && (Groupable() ==>
            && InGroups(conversation, nPast) && FaithfulGrouped(accepted)
            && (conversation != [] ==> ctx.logits == ctx.cells && groups == LastStart(|conversation|) / p.gaW))
    }

    /** Between the grouping and the decode. */
    ghost predicate Widened()
      requires Wired()
      reads `accepted, `conversation, `nPast, `gaI, `groups, ctx
    {
      Groupable() ==>
        && InGroups(conversation, nPast) && FaithfulGrouped(accepted)
        && (accepted != conversation ==> accepted != [] && groups == LastStart(|accepted|) / p.gaW)
    }

    /** The part of the invariant that feeding does not touch. */
    ghost predicate Settled()
      requires Wired()
      reads `pathSession, `session, `nSessionConsumed, `conversation, `nPast, `nEvalTotal, ctx
    {
      && Mirror() && Uncut()
      && PastInStep(|conversation|, 0)
      && CacheInStep(|conversation|) && LogitsInStep(|conversation|)
      && MayGoOn()
    }

    /** The invariant of the loop, with `pending` fed but not processed. */
    ghost predicate Steady(pending: seq<Token>)
      requires Wired()
      reads this, ctx
    {
      && Shape(pending) && Settled()
      && Faithful(accepted) && Flags()
      && FileInStep() && OutputInStep() && RemainingInStep()
      && Squeezing(pending)
    }

    /** Line 842 onwards starts from here; the arguments are the results of the matching phase. */
    constructor (ctx: Context, p: Params, model: Model, inp: seq<Token>, nMatch: nat, nKeep: nat,
                 pathGiven: bool, session: seq<Token>, file: Option<SessionFile>, promptRemaining: seq<Token>)
      ensures this.ctx == ctx && this.p == p && this.model == model && this.inp == inp
      ensures this.nMatch == nMatch && this.nKeep == nKeep && this.pathGiven == pathGiven
      ensures start == session && cells0 == ctx.cells && logits0 == ctx.logits && file0 == file
      ensures Wired() ==> Steady([]) && embd == []
      ensures conversation == [] && accepted == [] && this.promptRemaining == promptRemaining
      ensures nConsumed == 0 && nSessionConsumed == 0 && nPast == 0 && gaI == 0
      ensures Overlong() ==> Long([])
      ensures Heard()
      ensures nRemain == p.nPredict && pathSession == pathGiven && this.session == session && this.file == file
    {
      this.ctx, this.p, this.model, this.inp := ctx, p, model, inp;
      this.nMatch, this.nKeep, this.pathGiven := nMatch, nKeep, pathGiven;
      this.start, this.cells0, this.logits0, this.file0 := session, ctx.cells, ctx.logits, file;
      this.pathSession, this.session, this.file := pathGiven, session, file;
      this.promptRemaining := promptRemaining;
      embd, accepted, conversation, output := [], [], [], [];
      nPast, nRemain, nConsumed, nSessionConsumed, nEvalTotal, gaI := 0, p.nPredict, 0, 0, 0, 0;
      needToSave := pathGiven && nMatch < |inp|;
      isAntiprompt, generatedEog, display := false, false, p.displayPrompt;
      groups := 0;
      new;
      if Wired() && p.gaN != 1 {
        SelfExtend.NothingGrouped(p.gaN, p.gaW / p.gaN);
      }
    }

    // ----- the parts of one pass

    /** With a prompt that fits, n_past stays below n_ctx and a shift frees at least one position. */
    lemma {:induction false} PastBounds(k: nat)
      requires Wired() && Fits()
      ensures 0 <= Past(k) < ctx.size
      ensures Past(k) == k || nKeep < Past(k) < k
      ensures k > |inp| && Past(k - 1) + 1 >= ctx.size ==>
                && Past(k - 1) - nKeep >= 2 && Past(k) == Past(k - 1) - (Past(k - 1) - nKeep) / 2 + 1
                && 1 <= Half(Past(k - 1) - nKeep) && nKeep <= Past(k - 1) - Half(Past(k - 1) - nKeep)
      ensures k > 0 && Past(k) == k ==> Past(k - 1) == k - 1
    {
      if k > |inp| {
        PastBounds(k - 1);
      }
    }

    /** The two span operations of a shift, with the history `h` the cache shows. */
    method Slide(n: int, discard: int, ghost h: seq<Token>)
      modifies ctx
      ensures ctx.logits == old(ctx.logits)
      ensures 0 <= discard && nKeep + discard <= n <= |h| && old(ctx.cells) == Place(Window(h, nKeep, n)) ==>
                ctx.cells == Place(Window(h, nKeep, n - discard))
    {
      ctx.SeqRm(nKeep, nKeep + discard);
      ctx.SeqAdd(nKeep + discard, n, -discard);
      if 0 <= discard && nKeep + discard <= n <= |h| {
        ShiftCells(h, nKeep, n, discard);
      }
    }

    /** What a full context means: a single generated token is waiting, and something can be dropped. */
    lemma FullContext()
      requires Wired() && Fits() && Steady(embd) && embd != []
      requires nPast + |embd| >= ctx.size && p.gaN == 1
      ensures |embd| == 1 && |accepted| == |conversation| + 1 > |inp|
      ensures var nDiscard := Half(nPast - nKeep);
              && nPast - nKeep >= 2 && nDiscard == (nPast - nKeep) / 2 >= 1 && nKeep + nDiscard <= nPast <= |conversation|
              && Past(|accepted|) == nPast - nDiscard + 1 != |accepted|
              && Past(|accepted|) < ctx.size
      ensures nSessionConsumed == |session| && |conversation| >= Reuse()
      ensures CacheKnown(|accepted|) ==> ctx.cells == Place(Window(conversation, nKeep, nPast))
    {
      hide Faithful, FileInStep, OutputInStep, RemainingInStep, Flags, MayGoOn, LogitsInStep, Squeezing;
      PastBounds(|accepted|);
      PastBounds(|accepted| - 1);
    }

    /** Lines 880-899: drop the older half of what lies behind the first n_keep tokens. */
    method ContextShift()
      requires Wired() && embd != []
      requires nPast + |embd| >= ctx.size && p.gaN == 1 && p.ctxShift && p.nPredict != -2
      requires Fits() ==> Steady(embd)
      modifies this`nPast, this`pathSession, ctx
      ensures ctx.logits == old(ctx.logits)
      ensures Fits() ==> Roomy() && !pathSession && |embd| == 1
      ensures Fits() ==> old(nPast) - nKeep >= 2 && nPast == old(nPast) - (old(nPast) - nKeep) / 2
    {
      hide Faithful, FileInStep, OutputInStep, RemainingInStep, Flags, MayGoOn, Shape, Past, Window, Half;
      var nLeft := nPast - nKeep;
      var nDiscard := Half(nLeft);
      if Fits() {
        FullContext();
      }
      Slide(nPast, nDiscard, conversation);
      nPast := nPast - nDiscard;
      pathSession := false;
    }

    /** Lines 901-931: group every whole block of what has been processed. */
    method Group()
      requires Wired() && p.gaN != 1
      requires Fits() ==> embd != [] && Shape(embd) && Squeezing(embd)
      modifies this`nPast, this`gaI, this`groups, ctx
      ensures ctx.logits == old(ctx.logits)
      ensures Fits() ==> Widened()
    {
      hide Shape, FaithfulGrouped, LastStart, InGroups, Groupable;
      ghost var known := Fits() && Groupable();
      if known {
        GroupsFacts();
      }
      nPast, gaI := SelfExtend.Extend(ctx, nPast, gaI, p.gaN, p.gaW, conversation, groups);
      if known {
        groups := |conversation| / p.gaW;
        GroupsAgain();
      }
    }

    lemma GroupsFacts()
      requires Groupable() && embd != [] && Squeezing(embd)
      ensures SelfExtend.Grouped(ctx.cells, nPast, gaI, conversation, groups, p.gaN, p.gaW / p.gaN) && p.gaW > 0
      ensures FaithfulGrouped(accepted) && accepted != [] && |conversation| == LastStart(|accepted|)
    {
    }

    lemma GroupsAgain()
      requires Wired() && p.gaN != 1
      requires SelfExtend.Grouped(ctx.cells, nPast, gaI, conversation, groups, p.gaN, p.gaW / p.gaN)
      requires p.gaW > 0 && FaithfulGrouped(accepted) && accepted != []
      requires |conversation| == LastStart(|accepted|) && groups == |conversation| / p.gaW
      ensures Widened()
    {
    }

    /**
     Lines 860-931: make room for `embd`, by a context shift when grp_attn_n is 1 and
     by Self-Extend otherwise.  `full`: the context is full and may not be shifted.
     */
    method MakeRoom() returns (full: bool)
      requires Wired() && embd != []
      requires Fits() ==> Steady(embd)
      modifies this`nPast, this`pathSession, this`gaI, this`groups, ctx
      ensures full ==> unchanged(this) && unchanged(ctx)
      ensures full ==> p.gaN == 1 && nPast + |embd| >= ctx.size && (!p.ctxShift || p.nPredict == -2)
      ensures old(Heard()) ==> Heard()
      ensures Fits() && !full ==> Roomy()
    {
      hide Faithful, FileInStep, OutputInStep, RemainingInStep, Flags, MayGoOn, Clean, Kept, Squeezing;
      full := false;
      if p.gaN == 1 {
        if nPast + |embd| >= ctx.size {
          if !p.ctxShift { full := true; return; }
          if p.nPredict == -2 { full := true; return; }
          ContextShift();
        } else {
          ghost var k := |accepted|;
          if Fits() {
            PastBounds(k);
            if k > 0 { PastBounds(k - 1); }
          }
        }
      } else {
        Group();
      }
    }

    /** After `MakeRoom`: n_past and the cache are ready for `embd`. */
    ghost predicate Roomy()
      requires Wired()
      reads this, ctx
    {
      && Uncut() && ReadyFor(embd)
    }

    ghost predicate ReadyFor(pending: seq<Token>)
      requires Wired()
      reads this, ctx
    {
      && Shape(pending) && Mirror()
      && PastInStep(|accepted|, |pending|)
      && (p.gaN == 1 ==> nPast + |pending| < ctx.size)
      && CacheInStep(|accepted|)
      && Faithful(accepted) && Flags() && MayGoOn()
      && FileInStep() && OutputInStep() && RemainingInStep()
      && Widened()
    }

    /** After `ReusePrefix`: what is left in `embd` has to be evaluated, and the session list holds nothing stale. */
    ghost predicate Reused()
      requires Wired()
      reads this, ctx
    {
      && ReadyFor(embd)
      && (embd == [] ==> Uncut() && |conversation| <= Reuse())
      && (embd != [] ==>
            && |conversation| >= Reuse()
            && nSessionConsumed == |session|
            && (pathSession ==> session == conversation))
    }

    /** Lines 934-965: take from the session what `embd` has in common with it; cut the session at the first difference. */
    method TakeMatching() returns (ghost k: nat)
      requires nSessionConsumed <= |session|
      modifies `embd, `session, `nPast, `nSessionConsumed, `conversation
      ensures k <= |old(embd)| && embd == old(embd)[k..]
      ensures conversation == old(conversation) + old(embd)[..k]
      ensures nPast == old(nPast) + k
      ensures nSessionConsumed == old(nSessionConsumed) + k <= |old(session)|
      ensures old(session)[old(nSessionConsumed)..nSessionConsumed] == old(embd)[..k]
      ensures if k < |old(embd)| && nSessionConsumed < |old(session)| then
                old(embd)[k] != old(session)[nSessionConsumed] && session == old(session)[..nSessionConsumed]
              else
                session == old(session)
    {
      ghost var n0, s0 := nSessionConsumed, session;
      k := 0;
      if nSessionConsumed < |session| {
        var i := 0;
        while i < |embd|
          invariant 0 <= i <= |embd|
          invariant i < |embd| ==> nSessionConsumed < |session|
          invariant session == s0 && nSessionConsumed == n0 + i <= |session|
          invariant embd == old(embd)
          invariant s0[n0..n0 + i] == embd[..i]
          invariant conversation == old(conversation) + embd[..i]
          invariant nPast == old(nPast) + i
        {
          if embd[i] != session[nSessionConsumed] {
            session := session[..nSessionConsumed];
            break;
          }
          nPast := nPast + 1;
          nSessionConsumed := nSessionConsumed + 1;
          conversation := conversation + [embd[i]];
          assert embd[..i + 1] == embd[..i] + [embd[i]];
          assert s0[n0..n0 + i + 1] == s0[n0..n0 + i] + [s0[n0 + i]];
          if nSessionConsumed >= |session| {
            i := i + 1;
            break;
          }
          i := i + 1;
        }
        k := i;
        if i > 0 {
          embd := embd[i..];
        }
      }
    }

    /** Matching the loaded session goes as far as the two lists agree, and no further. */
    lemma ReuseStops(feed: seq<Token>, n: nat)
      requires Wired()
      requires feed <= inp || inp <= feed
      requires n <= |feed| && n <= |start| && start[..n] == feed[..n]
      requires n <= |inp|
      ensures n <= Reuse()
    {
      assert forall i :: 0 <= i < n ==> start[..n][i] == feed[..n][i];
    }

    /** With nothing loaded there is nothing to match. */
    lemma NothingLoaded()
      requires Groupable() && Mirror()
      ensures nSessionConsumed == |session| && Reuse() == 0
    {
    }

    /** While tokens are taken from the session the cache is the matched prefix. */
    lemma CacheWhileReusing(fed: nat)
      requires Wired() && |conversation| <= Reuse() && conversation == inp[..|conversation|]
      requires p.gaN == 1 ==> nPast == |conversation|
      ensures CacheInStep(fed) <==> (CacheKnown(fed) ==> ctx.cells == Place(inp[..nMatch]))
    {
      hide Place, Past;
      assert |conversation| == Reuse() ==> conversation[Reuse()..] == [];
      assert inp + [] == inp && (Trimmed() ==> inp[..nMatch] == inp);
    }

    lemma ReusedIs()
      requires Wired() && ReadyFor(embd)
      requires embd == [] ==> Uncut() && |conversation| <= Reuse()
      requires embd != [] ==> |conversation| >= Reuse() && nSessionConsumed == |session| && (pathSession ==> session == conversation)
      ensures Reused()
    {
      hide ReadyFor, Uncut;
    }

    /** The lists while tokens are taken from the session. */
    lemma Matching()
      requires Wired() && Roomy() && nSessionConsumed < |session|
      ensures pathSession && session == start && nSessionConsumed == |conversation| <= Reuse() && |accepted| <= |inp|
      ensures conversation == inp[..nSessionConsumed] == start[..nSessionConsumed] && accepted == conversation + embd
      ensures accepted <= inp
    {
      hide Faithful, FileInStep, OutputInStep, RemainingInStep, Flags, SawEog, CacheInStep, PastInStep, Widened;
    }

    /** After taking `k` tokens, at the first difference or with one of the lists used up. */
    lemma Matched(n0: nat)
      requires Wired() && accepted == conversation + embd && accepted <= inp
      requires n0 <= nSessionConsumed == |conversation| <= |start| && start[..nSessionConsumed] == conversation
      requires session == if embd != [] && nSessionConsumed < |start| then start[..nSessionConsumed] else start
      requires embd != [] && nSessionConsumed < |start| ==> embd[0] != start[nSessionConsumed]
      ensures |conversation| <= Reuse() && conversation == inp[..|conversation|]
      ensures embd != [] ==> |conversation| >= Reuse() && nSessionConsumed == |session| && session == conversation
    {
      var n := nSessionConsumed;
      ReuseStops(accepted, n);
      assert embd != [] ==> accepted[n] == embd[0];
      assert n < Reuse() ==> start[..Reuse()][n] == inp[..Reuse()][n];
    }

    /** The session goes on with these tokens. */
    ghost predicate AlignedAt(list: seq<Token>, n: nat, tokens: seq<Token>) {
      n + |tokens| <= |list| && list[n..n + |tokens|] == tokens
    }

    lemma TakenAll(list: seq<Token>, n: nat, tokens: seq<Token>, k: nat)
      requires k <= |tokens| && n + k <= |list|
      ensures tokens[..k] + tokens[k..] == tokens
      ensures AlignedAt(list, n, tokens) && k < |tokens| ==> n + k < |list| && tokens[k] == list[n + k]
    {
      assert AlignedAt(list, n, tokens) && k < |tokens| ==> list[n..n + |tokens|][k] == list[n + k];
    }

    method TakePrefix() returns (ghost k: nat)
      requires nSessionConsumed <= |session|
      modifies `embd, `session, `nPast, `nSessionConsumed, `conversation
      ensures k <= |old(embd)| && embd == old(embd)[k..]
      ensures conversation == old(conversation) + old(embd)[..k]
      ensures nPast == old(nPast) + k
      ensures nSessionConsumed == old(nSessionConsumed) + k <= |old(session)|
      ensures old(session)[old(nSessionConsumed)..nSessionConsumed] == old(embd)[..k]
      ensures if k < |old(embd)| && nSessionConsumed < |old(session)| then
                old(embd)[k] != old(session)[nSessionConsumed] && session == old(session)[..nSessionConsumed]
              else
                session == old(session)
      ensures nSessionConsumed <= |session| && |embd| <= |old(embd)|
      ensures conversation + embd == old(conversation) + old(embd)
      ensures AlignedAt(old(session), old(nSessionConsumed), old(embd)) ==>
                embd == [] && session == old(session) && nSessionConsumed == old(nSessionConsumed) + |old(embd)|
    {
      hide AlignedAt;
      k := TakeMatching();
      TakenAll(old(session), old(nSessionConsumed), old(embd), k);
      Assoc(old(conversation), old(embd)[..k], old(embd)[k..]);
    }

    /**
     A session saved under Self-Extend, re-entered in one chunk: lines 934-965 count `n_past` up
     by its tokens and `ga_i` has started at 0, so what the loop of lines 901-931 relies on
     holds again exactly if nothing was grouped.
     */
    method ReenterSqueezed(ghost k: nat)
      requires Wired() && p.gaN != 1 && embd == inp == session
      requires nSessionConsumed == 0 && nPast == 0 && gaI == 0
      requires k * p.gaW <= |inp| && ctx.cells == SelfExtend.Squeezed(inp, k, p.gaN, p.gaW / p.gaN)
      modifies `embd, `session, `nPast, `nSessionConsumed, `conversation
      ensures embd == [] && nPast == |inp| && session == inp
      ensures NextPos(ctx.cells) == nPast <==> k == 0
      ensures (exists j :: SelfExtend.Grouped(ctx.cells, nPast, gaI, inp, j, p.gaN, p.gaW / p.gaN)) <==> k == 0
    {
      hide *;
      AlignedWhole(inp);
      WidthIs(k);
      ghost var taken := TakePrefix();
      SelfExtend.Reloaded(inp, k, p.gaN, p.gaW / p.gaN);
    }

    lemma AlignedWhole(tokens: seq<Token>)
      ensures AlignedAt(tokens, 0, tokens)
    {
    }

    lemma WidthIs(k: nat)
      requires Wired() && p.gaN != 1
      ensures p.gaN >= 2 && p.gaW / p.gaN >= 1 && k * (p.gaW / p.gaN * p.gaN) == k * p.gaW
    {
      assert p.gaW / p.gaN * p.gaN == p.gaW;
    }

    lemma SplitUp(list: seq<Token>, i: nat, j: nat)
      requires i <= j <= |list|
      ensures list[..j] == list[..i] + list[i..j]
    {
    }

    method ReusePrefix()
      requires Wired() && nSessionConsumed <= |session|
      requires Fits() ==> Roomy() && embd != []
      modifies `embd, `session, `nPast, `nSessionConsumed, `conversation
      ensures nSessionConsumed <= |session|
      ensures |embd| <= |old(embd)|
      ensures conversation + embd == old(conversation) + old(embd)
      ensures AlignedAt(old(session), old(nSessionConsumed), old(embd)) ==>
                embd == [] && session == old(session) && nSessionConsumed == old(nSessionConsumed) + |old(embd)|
      ensures Fits() ==> Reused()
    {
      hide Faithful, FileInStep, OutputInStep, RemainingInStep, Flags, SawEog, Kept, CacheKnown, Place, Reused, AlignedAt;
      hide FaithfulGrouped, InGroups, LastStart, Groupable, CacheInStep, Past, Clean, Trimmed;
      if Fits() && Groupable() {
        NothingLoaded();
      }
      ghost var matching, n0 := nSessionConsumed < |session|, nSessionConsumed;
      if Fits() && matching {
        Matching();
        CacheWhileReusing(|accepted|);
      }
      ghost var k := TakePrefix();
      if Fits() {
        if matching {
          SplitUp(start, n0, nSessionConsumed);
          Matched(n0);
          CacheWhileReusing(|accepted|);
        } else {
          assert conversation == old(conversation) && embd == old(embd);
        }
        ReusedIs();
      }
    }

    /** Evaluating `more` after `h` appends it to what the cache shows. */
    lemma KeptGrows(h: seq<Token>, more: seq<Token>, n: nat)
      requires Wired() && |h| >= Reuse()
      requires n == |h| || nKeep <= n < |h|
      ensures Kept(h, n) + more == Kept(h + more, n + |more|)
      ensures |Kept(h, n)| == if Trimmed() then |h| + 1 else n
    {
      hide Window;
      if Trimmed() {
        SplitAppend(h, more, Reuse());
        assert inp + h[Reuse()..] + more == inp + (h[Reuse()..] + more);
      } else {
        WindowGrows(h, more, nKeep, n);
        WindowSize(h, nKeep, n);
      }
    }

    /** All of `embd` has been decoded; the session list has not been told yet. */
    ghost predicate Decoded()
      requires Wired()
      reads this, ctx
    {
      && Shape([])
      && PastInStep(|conversation|, 0)
      && CacheInStep(|conversation|) && LogitsInStep(|conversation|)
      && Faithful(accepted) && Flags()
      && FileInStep() && OutputInStep() && RemainingInStep()
      && Squeezing([])
      && |conversation| > Reuse() && OnlyLastEnds()
      && (pathSession ==> pathGiven && session + embd == conversation)
      && (!pathSession ==> nSessionConsumed == |session|)
    }

    /** A decode when the cache shows `h` with n_past = n; one slot may be taken by a repeated token. */
    method DecodeShown(tokens: seq<Token>, ghost h: seq<Token>, ghost n: int) returns (ok: bool)
      requires Wired()
      modifies ctx
      ensures ok == (|old(ctx.cells)| + |tokens| <= ctx.size)
      ensures if ok && tokens != [] then ctx.logits != [] else ok || ctx.logits == old(ctx.logits)
      ensures ok ==> ctx.cells == old(ctx.cells) + PlaceFrom(tokens, NextPos(old(ctx.cells))) && ctx.logits == ctx.cells
      ensures |h| >= Reuse() && (n == |h| || nKeep <= n < |h|) && old(ctx.cells) == Place(Kept(h, n)) && (Trimmed() ==> n == |h|)
              && n + |tokens| < ctx.size ==>
                ok && ctx.cells == Place(Kept(h + tokens, n + |tokens|)) && ctx.logits == ctx.cells
    {
      ghost var before := ctx.cells;
      ok := ctx.Decode(tokens);
      if |h| >= Reuse() && (n == |h| || nKeep <= n < |h|) && before == Place(Kept(h, n)) {
        KeptGrows(h, tokens, n);
        NextPosPlace(Kept(h, n));
        PlaceAppend(Kept(h, n), tokens);
        if (Trimmed() ==> n == |h|) && n + |tokens| < ctx.size {
          assert |before| <= n + 1;
          assert ok;
          assert ctx.cells == Place(Kept(h, n) + tokens);
        }
      }
    }

    /** Before its last token the history gave no reason to stop. */
    ghost predicate OnlyLastEnds()
      requires Wired()
      reads `conversation
    {
      var n := |conversation|;
      n > |inp| && n - 1 > Reuse() ==> !SawEog(conversation[..n - 1])
    }

    ghost predicate ShownGrouped()
      requires Wired()
      reads `accepted, `embd, `nPast, `gaI, `groups, ctx
    {
      Groupable() ==>
        && InGroups(accepted, nPast + |embd|) && FaithfulGrouped(accepted)
        && ctx.logits == ctx.cells && accepted != [] && groups == LastStart(|accepted|) / p.gaW
    }

    /** Between the decode and the bookkeeping: the cache already shows all that was fed. */
    ghost predicate Shown()
      requires Wired()
      reads this, ctx
    {
      && embd != [] && Shape(embd)
      && PastInStep(|accepted|, |embd|)
      && (CacheKnown(|accepted|) ==> ctx.cells == Place(Kept(accepted, nPast + |embd|)) && ctx.logits == ctx.cells)
      && Faithful(accepted) && Flags()
      && FileInStep() && OutputInStep() && RemainingInStep()
      && ShownGrouped()
      && |conversation| >= Reuse() && MayGoOn()
      && (pathSession ==> pathGiven && session == conversation)
      && (!pathSession ==> nSessionConsumed == |session|)
    }

    /** Lines 993-1019. */
    method Count(tokens: seq<Token>)
      requires Wired()
      requires Fits() ==> Shown() && tokens == embd
      modifies `nPast, `conversation, `nEvalTotal
      ensures conversation == old(conversation) + tokens && nEvalTotal == old(nEvalTotal) + |tokens|
      ensures Fits() ==> Decoded()
    {
      hide Faithful, FileInStep, OutputInStep, RemainingInStep, Flags, Kept, Clean, Past, SawEog;
      hide Groupable, InGroups, FaithfulGrouped, LastStart;
      ghost var before := conversation;
      nPast := nPast + |tokens|;
      conversation := conversation + tokens;
      nEvalTotal := nEvalTotal + |tokens|;
      if Fits() && |conversation| > |inp| {
        assert conversation[..|conversation| - 1] == before;
      }
    }

    /** How many tokens of `embd` one decode takes, from i on. */
    function BatchSize(i: nat): (n: int)
      requires i < |embd| && p.nBatch >= 1
      reads `embd
      ensures 1 <= n <= |embd| - i
    {
      var n := Min(|embd| - i, p.nBatch);
      if p.maxTokens > 0 && n >= p.maxTokens then p.maxTokens else n
    }

    /** A decode keeps the closed form; the cache has one cell for each token processed. */
    lemma GroupedDecode(cells: seq<Cell>)
      requires Wired() && accepted == conversation + embd && embd != []
      requires Groupable() ==>
                 && SelfExtend.Grouped(cells, nPast, gaI, conversation, groups, p.gaN, p.gaW / p.gaN)
                 && FaithfulGrouped(accepted) && groups == LastStart(|accepted|) / p.gaW
      ensures Groupable() ==> |cells| == |conversation|
      ensures ctx.cells == cells + PlaceFrom(embd, NextPos(cells)) && ctx.logits == ctx.cells ==> ShownGrouped()
    {
      hide LastStart, FaithfulGrouped;
      if Groupable() {
        SelfExtend.MoreTokens(cells, nPast, gaI, conversation, groups, p.gaN, p.gaW / p.gaN, embd);
      }
    }

    /** What a decode needs to know, and what it leaves alone. */
    ghost predicate Waiting()
      requires Wired()
      reads this
    {
      && embd != [] && Shape(embd) && MayGoOn() && |conversation| >= Reuse()
      && PastInStep(|accepted|, |embd|)
      && Faithful(accepted) && Flags() && FileInStep() && OutputInStep() && RemainingInStep()
      && (pathSession ==> pathGiven && session == conversation)
      && (!pathSession ==> nSessionConsumed == |session|)
    }

    lemma ReusedFacts()
      requires Wired() && Fits() && Reused() && embd != []
      ensures Waiting() && accepted == conversation + embd && BatchSize(0) == |embd| && |accepted| > Reuse()
      ensures Groupable() ==>
                && SelfExtend.Grouped(ctx.cells, nPast, gaI, conversation, groups, p.gaN, p.gaW / p.gaN)
                && FaithfulGrouped(accepted) && groups == LastStart(|accepted|) / p.gaW
      ensures CacheKnown(|accepted|) ==>
                && ctx.cells == Place(Kept(conversation, nPast)) && nPast + |embd| < ctx.size && |conversation| >= Reuse()
                && (nPast == |conversation| || nKeep <= nPast < |conversation|) && (Trimmed() ==> nPast == |conversation|)
    {
      hide Faithful, FileInStep, OutputInStep, RemainingInStep, Flags, Uncut, Kept, Clean, SawEog, LastStart, FaithfulGrouped;
      PastBounds(|accepted|);
    }

    lemma ShownNow()
      requires Wired() && Fits() && Waiting() && ShownGrouped()
      requires CacheKnown(|accepted|) ==> ctx.cells == Place(Kept(accepted, nPast + |embd|)) && ctx.logits == ctx.cells
      ensures Shown()
    {
      hide Shape, PastInStep, Faithful, Flags, FileInStep, OutputInStep;
      hide RemainingInStep, MayGoOn, Reuse, ShownGrouped, Kept, CacheKnown;
    }

    /** The body of the loop over batches, up to the budget check. */
    method DecodeBatch(i: nat) returns (ok: bool, nEval: nat)
      requires Wired() && nSessionConsumed <= |session| && i < |embd|
      requires Heard()
      requires Fits() ==> Reused() && i == 0
      modifies `nPast, `conversation, `nEvalTotal, ctx
      ensures nEval == BatchSize(i) && Heard()
      ensures conversation == old(conversation) + if ok then embd[i..i + nEval] else []
      ensures nEvalTotal == old(nEvalTotal) + if ok then nEval else 0
      ensures Fits() && ok ==> Decoded() && nEval == |embd|
      ensures Fits() && !ok ==> !CacheKnown(|accepted|) && |accepted| > Reuse() && (Groupable() ==> |accepted| > ctx.size)
    {
      hide Reused, Waiting, Shown, Decoded, ShownGrouped, CacheKnown, Kept, Groupable, FaithfulGrouped, LastStart, Trimmed, Reuse;
      nEval := BatchSize(i);
      if Fits() {
        ReusedFacts();
        assert embd[i..i + nEval] == embd;
      }
      ghost var cells := ctx.cells;
      ok := DecodeShown(embd[i..i + nEval], conversation, nPast);
      if Fits() {
        GroupedDecode(cells);
      }
      if ok {
        if Fits() {
          ShownNow();
        }
        Count(embd[i..i + nEval]);
      }
    }

    /** What is true when the call stops after an evaluation: everything fed was processed, and the session says so. */
    ghost predicate Stopped()
      requires Wired()
      reads this, ctx
    {
      && Shape([])
      && PastInStep(|conversation|, 0)
      && CacheInStep(|conversation|) && LogitsInStep(|conversation|)
      && Faithful(accepted) && Flags()
      && FileInStep() && OutputInStep() && RemainingInStep()
      && Squeezing([])
      && |conversation| > Reuse() && OnlyLastEnds()
      && (pathSession ==> pathGiven)
      && (pathSession && p.cacheAll && !p.cacheRo ==> session == conversation)
      && (generatedEog || (p.maxTokens > 0 && nEvalTotal >= p.maxTokens))
    }

    /** Lines 1019-1029: the call ends after the end token or when the budget is spent. */
    method CheckBudget(nEval: nat) returns (stop: bool)
      requires Wired() && nSessionConsumed <= |session| && nEval <= |embd|
      requires Fits() ==> Decoded() && nEval == |embd|
      modifies `session, `nSessionConsumed
      ensures nSessionConsumed <= |session|
      ensures stop == (generatedEog || (p.maxTokens > 0 && nEvalTotal >= p.maxTokens))
      ensures Fits() && stop ==> Stopped()
      ensures !stop ==> session == old(session) && nSessionConsumed == old(nSessionConsumed)
      ensures Fits() && !stop ==> Decoded() && MayGoOn()
    {
      hide Faithful, FileInStep, OutputInStep, RemainingInStep, CacheInStep, LogitsInStep, PastInStep, Squeezing;
      stop := generatedEog || (p.maxTokens > 0 && nEvalTotal >= p.maxTokens);
      if Fits() { assert accepted == conversation; }
      if stop && pathSession && p.cacheAll && !p.cacheRo {
        session := session + embd[..nEval];
        nSessionConsumed := |session|;
      }
    }

    /** Lines 967-1041: decode what is left in `embd`, n_batch at a time; stop at the budget or after the end token. */
    method Evaluate() returns (stop: Stop)
      requires Wired() && nSessionConsumed <= |session|
      requires Heard()
      requires Fits() ==> Reused()
      modifies `nPast, `conversation, `nEvalTotal, `session, `nSessionConsumed, ctx
      ensures Heard()
      ensures stop in {Continue, Evaluated, Failed}
      ensures nSessionConsumed <= |session|
      ensures embd == [] ==> stop == Continue && session == old(session) && nSessionConsumed == old(nSessionConsumed)
      ensures |embd| <= p.nBatch && stop == Continue ==>
                && conversation == old(conversation) + embd && nEvalTotal == old(nEvalTotal) + |embd|
                && (embd != [] && p.maxTokens > 0 ==> nEvalTotal < p.maxTokens)
      ensures |embd| <= p.nBatch && stop == Evaluated ==>
                && embd != [] && conversation == old(conversation) + embd[..BatchSize(0)]
                && nEvalTotal == old(nEvalTotal) + BatchSize(0)
      ensures Fits() && stop == Continue ==> Steady([])
      ensures Fits() && stop == Evaluated ==> Stopped()
      ensures Fits() && stop == Failed ==> !CacheKnown(|accepted|) && |accepted| > Reuse() && (Groupable() ==> |accepted| > ctx.size)
    {
      hide Decoded, Reused, Steady, Stopped, MayGoOn, BatchSize, CacheKnown, Groupable, Fits;
      var i := 0;
      assert old(conversation) + [] == old(conversation);
      while i < |embd|
        invariant nSessionConsumed <= |session| && Heard()
        invariant i == 0 ==> conversation == old(conversation) && nEvalTotal == old(nEvalTotal)
        invariant i == 0 ==> session == old(session) && nSessionConsumed == old(nSessionConsumed)
        invariant i > 0 && |embd| <= p.nBatch ==>
                    && i >= |embd| > 0 && conversation == old(conversation) + embd && nEvalTotal == old(nEvalTotal) + |embd|
                    && (p.maxTokens > 0 ==> nEvalTotal < p.maxTokens)
        invariant Fits() && i == 0 ==> Reused()
        invariant Fits() && i > 0 ==> i >= |embd| > 0 && Decoded() && MayGoOn()
      {
        if Fits() { ReusedSize(); }
        var ok, nEval := DecodeBatch(i);
        if !ok {
          return Failed;
        }
        var done := CheckBudget(nEval);
        if done {
          return Evaluated;
        }
        BatchIs(i, nEval);
        i := i + p.nBatch;
      }
      TellSession();
      return Continue;
    }

    lemma ReusedSize()
      requires Wired()
      ensures Reused() ==> |embd| <= p.nBatch
    {
      hide Mirror, PastInStep, CacheInStep, Faithful, Flags;
      hide MayGoOn, FileInStep, OutputInStep, RemainingInStep, Widened, Squeezing;
    }

    /** A chunk of at most n_batch tokens is decoded at once, or the budget is spent. */
    lemma BatchIs(i: nat, nEval: int)
      requires Wired() && i < |embd| && nEval == BatchSize(i)
      ensures i == 0 && |embd| <= p.nBatch && (p.maxTokens > 0 ==> nEval < p.maxTokens) ==> nEval == |embd| && embd[0..nEval] == embd
      ensures i == 0 ==> 0 < nEval <= |embd| && embd[0..nEval] == embd[..nEval]
    {
    }

    /** Lines 1038-1041. */
    method TellSession()
      requires Wired() && nSessionConsumed <= |session|
      requires Fits() ==> if embd == [] then Reused() else Decoded() && MayGoOn()
      modifies `session, `nSessionConsumed
      ensures nSessionConsumed <= |session|
      ensures embd == [] ==> session == old(session) && nSessionConsumed == old(nSessionConsumed)
      ensures Fits() ==> Steady([])
    {
      hide Faithful, FileInStep, OutputInStep, RemainingInStep, Kept, Clean, Past, Flags, SawEog;
      hide Groupable, InGroups, FaithfulGrouped, LastStart;
      if Fits() && embd == [] && Groupable() {
        NothingLoaded();
      }
      if embd != [] && pathSession {
        session := session + embd;
        nSessionConsumed := |session|;
      }
    }

    /** Lines 1052-1080: the first time a token is about to be sampled, store the prompt's state. */
    method SaveBeforeFirstSample()
      requires Wired()
      requires Fits() ==> Steady([]) && |accepted| >= |inp|
      modifies `needToSave, `file
      ensures p.cacheRo ==> file == old(file)
      ensures Fits() ==>
                var saved := pathGiven && nMatch < |inp| && !p.cacheRo;
                && needToSave == (pathGiven && nMatch < |inp| && !saved)
                && (!saved ==> file == file0)
                && (saved ==>
                      && file.Some? && file.value.tokens == inp
                      && (CacheKnown(|inp|) ==> file.value == Snapshot(inp)))
    {
      hide Faithful, OutputInStep, RemainingInStep, Flags, MayGoOn, SawEog, Squeezing;
      if Fits() { assert accepted == conversation; }
      if pathSession && needToSave && !p.cacheRo {
        needToSave := false;
        file := Some(SessionFile(session, ctx.cells));
        if Fits() {
          assert conversation == inp;
        }
      }
    }

    /** Lines 1082-1097. */
    method Sample()
      requires Wired() && Heard() && ctx.logits != []
      requires Fits() ==>
                 && Shape([]) && |accepted| >= |inp|
                 && PastInStep(|conversation|, 0)
                 && CacheInStep(|conversation|) && LogitsInStep(|conversation|)
                 && Faithful(accepted) && Squeezing([])
      modifies `accepted, `embd, `nRemain
      ensures accepted == old(accepted) + embd && embd == [model.predict(ctx.logits, old(accepted))]
      ensures nRemain == old(nRemain) - 1
      ensures Fits() ==> Faithful(accepted) && (Groupable() ==> FaithfulGrouped(accepted))
    {
      hide *;
      if Fits() {
        SampledFaithful();
        if Groupable() {
          SampledGrouped();
        }
      }
      var id := model.predict(ctx.logits, accepted);
      accepted := accepted + [id];
      embd := [id];
      nRemain := nRemain - 1;
    }

    /** The sampled token is the one `Faithful` asks for. */
    lemma SampledFaithful()
      requires Wired() && Heard() && ctx.logits != []
      requires Shape([]) && |accepted| >= |inp| && PastInStep(|conversation|, 0)
      requires CacheInStep(|conversation|) && LogitsInStep(|conversation|) && Faithful(accepted)
      ensures Faithful(accepted + [model.predict(ctx.logits, accepted)]) && accepted == conversation
    {
      hide Faithful;
      LogitsOfHistory();
      FaithfulSnoc(accepted, model.predict(ctx.logits, accepted));
    }

    lemma LogitsOfHistory()
      requires Wired() && Heard()
      requires Shape([]) && |accepted| >= |inp| && PastInStep(|conversation|, 0)
      requires CacheInStep(|conversation|) && LogitsInStep(|conversation|)
      ensures accepted == conversation
      ensures |accepted| == |inp| == Reuse() ==> accepted == inp && ctx.logits == logits0
      ensures CacheKnown(|accepted|) && |accepted| > Reuse() ==> model.predict(ctx.logits, accepted) == NextToken(accepted)
    {
      hide Kept, Past, Clean;
      assert accepted == conversation;
      assert |accepted| == |inp| ==> accepted == inp;
    }

    lemma FaithfulSnoc(h: seq<Token>, id: Token)
      requires Wired() && Faithful(h) && |h| >= |inp|
      requires |h| == |inp| == Reuse() ==> logits0 != [] && id == model.predict(logits0, inp)
      requires |h| > Reuse() && CacheKnown(|h|) ==> id == NextToken(h)
      ensures Faithful(h + [id])
    {
      hide NextToken, CacheKnown;
      var all := h + [id];
      forall i | |inp| <= i < |all| && i > Reuse() && CacheKnown(i)
        ensures all[i] == NextToken(all[..i])
      {
        assert all[..i] == h[..i];
        if i == |h| { assert h[..i] == h; }
      }
    }

    /** What is sampled after a Self-Extend decode is the continuation of the squeezed history. */
    lemma SampledGrouped()
      requires Groupable() && Squeezing([]) && accepted == conversation && |accepted| >= |inp|
      ensures FaithfulGrouped(accepted + [model.predict(ctx.logits, accepted)])
    {
      hide LastStart, FaithfulGrouped;
      SqueezedNow();
      GroupedSnoc(accepted);
    }

    lemma SqueezedNow()
      requires Groupable() && Squeezing([]) && conversation != []
      ensures FaithfulGrouped(accepted) && ctx.logits == GroupedCells(conversation)
    {
      hide LastStart, FaithfulGrouped;
    }

    lemma GroupedSnoc(h: seq<Token>)
      requires Groupable() && |h| >= |inp| && FaithfulGrouped(h)
      ensures FaithfulGrouped(h + [model.predict(GroupedCells(h), h)])
    {
      hide LastStart, GroupedCells;
      var all := h + [model.predict(GroupedCells(h), h)];
      forall i | |inp| <= i < |all|
        ensures all[i] == model.predict(GroupedCells(all[..i]), all[..i])
      {
        assert all[..i] == h[..i];
        if i == |h| { assert h[..i] == h; }
      }
    }

    /** Prompt tokens are nobody's continuation. */
    lemma FaithfulPrompt(h: seq<Token>)
      requires Wired() && p.gaN != 1 && |h| <= |inp|
      ensures FaithfulGrouped(h)
    {
    }

    /** The chunk that follows a chunk boundary starts there. */
    lemma {:induction false} ChunkStartIs(n: nat, from: nat)
      requires Wired() && n <= from < |inp| && ChunkBoundary(n, from)
      ensures from < FeedEnd(from) <= |inp| && ChunkStart(n, FeedEnd(from)) == from
      decreases from - n
    {
      if n < from {
        ChunkStartIs(FeedEnd(n), from);
      }
    }

    lemma GroupableMeans()
      requires Groupable()
      ensures Wired() && p.gaN != 1
    {
    }

    /** What was processed before the tokens just fed is where their chunk began. */
    lemma FedFrom(h: seq<Token>, n0: nat)
      requires Wired() && accepted == h + embd && n0 == Min(|h|, |inp|) && ChunkBoundary(0, n0)
      requires n0 < |inp| ==> nConsumed == FeedEnd(n0) && embd == inp[n0..nConsumed] && n0 < nConsumed <= |inp|
      requires n0 == |inp| ==> |embd| == 1
      ensures embd != [] && |h| == LastStart(|accepted|)
    {
      if n0 < |inp| {
        ChunkStartIs(0, n0);
      }
    }

    /** Feeding keeps the closed form, which speaks of what has been processed. */
    lemma FedGrouped(h: seq<Token>, fed: seq<Token>)
      requires Wired() && accepted == h + fed && conversation == h && fed != []
      requires |conversation| == LastStart(|accepted|)
      requires Groupable() ==> FaithfulGrouped(accepted)
      requires Groupable() ==>
                 && InGroups(conversation, nPast)
                 && (conversation != [] ==> ctx.logits == ctx.cells && groups == LastStart(|conversation|) / p.gaW)
      ensures Squeezing(fed)
    {
    }

    lemma SqueezingFacts()
      requires Wired() && Squeezing([])
      ensures Groupable() ==>
                && InGroups(conversation, nPast) && FaithfulGrouped(accepted)
                && (conversation != [] ==> ctx.logits == ctx.cells && groups == LastStart(|conversation|) / p.gaW)
    {
    }

    /** Lines 1104-1132: take prompt tokens up to a batch or to the budget. */
    method PushPrompt()
      requires Wired() && nConsumed < |inp| && embd == []
      modifies `accepted, `embd, `nConsumed
      ensures nConsumed == FeedEnd(old(nConsumed)) && old(nConsumed) < nConsumed <= |inp|
      ensures embd == inp[old(nConsumed)..nConsumed]
      ensures accepted == old(accepted) + embd
    {
      ghost var n0 := nConsumed;
      while |inp| > nConsumed
        invariant n0 <= nConsumed <= |inp|
        invariant embd == inp[n0..nConsumed]
        invariant accepted == old(accepted) + embd
        invariant nConsumed < FeedEnd(n0) || nConsumed == |inp| == FeedEnd(n0)
        decreases |inp| - nConsumed
      {
        embd := embd + [inp[nConsumed]];
        accepted := accepted + [inp[nConsumed]];
        nConsumed := nConsumed + 1;
        if |embd| >= p.nBatch {
          break;
        }
        if p.maxTokens > 0 && nConsumed >= FeedLimit() {
          break;
        }
      }
    }

    /** Lines 1135-1181: what is left of the prompt, and the echo; a chunk of one token counts as output. */
    method Echo()
      requires Wired() && nConsumed <= |inp|
      modifies `promptRemaining, `output, `display
      ensures promptRemaining == inp[nConsumed..]
      ensures output == old(output) + if old(display) && |embd| <= 1 then embd else []
      ensures display == (old(display) || |inp| == nConsumed)
    {
      promptRemaining := inp[nConsumed..];
      if display {
        if |embd| <= 1 {
          output := output + embd;
        }
      }
      if |inp| == nConsumed {
        display := true;
      }
    }

    /** Lines 1184-1230 and 1374-1386: reverse prompts and the end token, once the prompt is consumed. */
    method CheckEnd()
      requires Wired()
      modifies `isAntiprompt, `generatedEog
      ensures isAntiprompt == if |inp| <= nConsumed then model.antiprompt(accepted) else old(isAntiprompt)
      ensures generatedEog == (old(generatedEog) || (|inp| <= nConsumed && embd != [] && model.isEog(embd[|embd| - 1])))
    {
      if |inp| <= nConsumed {
        isAntiprompt := model.antiprompt(accepted);
        if embd != [] && model.isEog(embd[|embd| - 1]) {
          generatedEog := true;
        }
      }
    }

    /** Chunks are split off one after the other. */
    lemma {:induction false} ChunksSnoc(n: nat, from: nat)
      requires Wired() && n <= from < |inp|
      requires ChunkBoundary(n, from)
      ensures FeedEnd(from) <= |inp|
      ensures OneTokenChunks(n, FeedEnd(from)) ==
              OneTokenChunks(n, from) + if FeedEnd(from) == from + 1 then [inp[from]] else []
      decreases from - n
    {
      if n < from {
        ChunksSnoc(FeedEnd(n), from);
      } else {
        assert OneTokenChunks(FeedEnd(from), FeedEnd(from)) == [];
      }
    }

    /** `upto` is reached from n by whole chunks. */
    ghost predicate ChunkBoundary(n: nat, upto: nat)
      requires p.nBatch >= 1
      decreases upto - n
    {
      n == upto || (n < upto && n < |inp| && ChunkBoundary(FeedEnd(n), upto))
    }

    lemma {:induction false} BoundarySnoc(n: nat, from: nat)
      requires Wired() && n <= from < |inp| && ChunkBoundary(n, from)
      ensures ChunkBoundary(n, FeedEnd(from))
      decreases from - n
    {
      if n < from {
        BoundarySnoc(FeedEnd(n), from);
      }
    }

    /** A chunk never reaches past the budget, also when nMatch + max_tokens wraps around at 2^64. */
    lemma FeedWithinBudget(n: nat)
      requires Wired() && n < |inp|
      requires p.maxTokens > 0 && n < Reuse() + p.maxTokens
      ensures FeedEnd(n) <= Reuse() + p.maxTokens
    {
      var sum := nMatch + p.maxTokens;
      if sum < TWO_64 {
        assert FeedLimit() == sum;
      }
    }

    /** Lines 1051-1133: sample one token, or take the next chunk of the prompt. */
    method NextTokens()
      requires Wired() && nConsumed <= |inp| && embd == [] && Heard()
      requires nConsumed == |inp| ==> ctx.logits != []
      requires Fits() ==> Steady([])
      modifies `accepted, `embd, `nConsumed, `nRemain, `needToSave, `file
      ensures accepted == old(accepted) + embd && embd != []
      ensures old(nConsumed) <= nConsumed <= |inp|
      ensures old(nConsumed) < |inp| ==> nConsumed == FeedEnd(old(nConsumed)) && embd == inp[old(nConsumed)..nConsumed]
      ensures old(nConsumed) == |inp| ==> embd == [model.predict(ctx.logits, old(accepted))]
      ensures nRemain == old(nRemain) - if old(nConsumed) == |inp| then 1 else 0
      ensures p.cacheRo ==> file == old(file)
      ensures Fits() ==> Shape(embd) && Faithful(accepted) && FileInStep() && (Groupable() ==> FaithfulGrouped(accepted))
    {
      hide *;
      if |inp| <= nConsumed {
        SampleNext();
      } else {
        TakePrompt();
      }
    }

    /** Lines 1051-1097. */
    method SampleNext()
      requires Wired() && nConsumed == |inp| && embd == [] && Heard() && ctx.logits != []
      requires Fits() ==> Steady([])
      modifies `accepted, `embd, `nRemain, `needToSave, `file
      ensures accepted == old(accepted) + embd && embd == [model.predict(ctx.logits, old(accepted))]
      ensures nRemain == old(nRemain) - 1
      ensures p.cacheRo ==> file == old(file)
      ensures Fits() ==> Shape(embd) && Faithful(accepted) && FileInStep() && (Groupable() ==> FaithfulGrouped(accepted))
    {
      hide Mirror, Uncut, PastInStep, CacheInStep, LogitsInStep, OutputInStep, RemainingInStep, Flags, SawEog, Clean;
      hide Groupable, InGroups, FaithfulGrouped, Squeezing, Faithful, Heard, CacheKnown;
      SaveBeforeFirstSample();
      Sample();
    }

    /** Lines 1104-1132, with the invariant. */
    method TakePrompt()
      requires Wired() && nConsumed < |inp| && embd == []
      requires Fits() ==> Steady([])
      modifies `accepted, `embd, `nConsumed
      ensures nConsumed == FeedEnd(old(nConsumed)) && old(nConsumed) < nConsumed <= |inp|
      ensures accepted == old(accepted) + embd && embd == inp[old(nConsumed)..nConsumed] && embd != []
      ensures Fits() ==> Shape(embd) && Faithful(accepted) && FileInStep() && (Groupable() ==> FaithfulGrouped(accepted))
    {
      hide Mirror, Uncut, PastInStep, CacheInStep, LogitsInStep, OutputInStep, RemainingInStep, Flags, SawEog, Clean, MayGoOn;
      hide Groupable, InGroups, FaithfulGrouped, Squeezing, FeedEnd, FeedLimit;
      ghost var n0 := nConsumed;
      if Fits() {
        FedWithin(n0);
        assert accepted == conversation == inp[..n0];
        assert forall e :: n0 <= e <= |inp| ==> inp[..n0] + inp[n0..e] == inp[..e];
      }
      PushPrompt();
      if Fits() && Groupable() {
        GroupableMeans();
        FaithfulPrompt(accepted);
      }
    }

    /** The next chunk is neither longer than n_batch nor past the budget. */
    lemma FedWithin(n: nat)
      requires Wired() && Fits() && Steady([]) && n == nConsumed < |inp|
      ensures FeedEnd(n) - n <= p.nBatch
      ensures p.maxTokens > 0 ==> FeedEnd(n) <= Reuse() + p.maxTokens
    {
      hide Mirror, Uncut, PastInStep, CacheInStep, LogitsInStep, OutputInStep, RemainingInStep, Flags, SawEog, Squeezing, Faithful, FileInStep;
      if p.maxTokens > 0 {
        FeedWithinBudget(n);
      }
    }

    /** Of the tokens just fed only the last can be an end token that counts. */
    lemma EogLast(h: seq<Token>, more: seq<Token>)
      requires Wired() && more != []
      requires |h| + |more| <= |inp| || (|h| >= |inp| && |more| == 1)
      ensures SawEog(h + more) <==> SawEog(h) || (|h| + |more| >= |inp| && model.isEog(more[|more| - 1]))
    {
      var all := h + more;
      if SawEog(h) {
        var i :| |inp| - 1 <= i < |h| && model.isEog(h[i]);
        assert all[i] == h[i];
      }
      assert all[|all| - 1] == more[|more| - 1];
      assert forall i :: 0 <= i < |h| ==> all[i] == h[i];
    }

    /** The echo, in terms of chunks. */
    lemma EchoStep(before: seq<Token>, n0: nat, fed: seq<Token>, n1: nat)
      requires Wired() && n0 <= n1 <= |inp| && n0 <= |before| && fed != []
      requires ChunkBoundary(0, n0)
      requires n0 < |inp| ==> n1 == FeedEnd(n0) && |before| == n0 && fed == inp[n0..n1]
      requires n0 == |inp| ==> |fed| == 1
      ensures ChunkBoundary(0, n1)
      ensures var all := before + fed;
              var shown := p.displayPrompt || n0 == |inp|;
              (if p.displayPrompt then OneTokenChunks(0, n0) else []) + before[n0..] + (if shown && |fed| <= 1 then fed else [])
              == (if p.displayPrompt then OneTokenChunks(0, n1) else []) + all[n1..]
    {
      if n0 < |inp| {
        ChunksSnoc(0, n0);
        BoundarySnoc(0, n0);
        assert before[n0..] == [] && (before + fed)[n1..] == [];
        assert |fed| == 1 ==> fed == [inp[n0]];
      } else {
        assert (before + fed)[n1..] == before[n0..] + fed;
      }
    }

    /** Lines 1135-1390 after feeding `embd` to the history `h`. */
    method EchoAndCheck(ghost h: seq<Token>, ghost n0: nat)
      requires Wired() && n0 <= nConsumed <= |inp| && embd != []
      requires Fits() ==>
                 && accepted == h + embd && n0 == Min(|h|, |inp|)
                 && (n0 < |inp| ==> nConsumed == FeedEnd(n0) && embd == inp[n0..nConsumed])
                 && (n0 == |inp| ==> |embd| == 1)
                 && ChunkBoundary(0, n0)
                 && output == (if p.displayPrompt then OneTokenChunks(0, n0) else []) + h[n0..]
                 && display == (p.displayPrompt || n0 == |inp|)
                 && generatedEog == SawEog(h) && (isAntiprompt == (|h| >= |inp| && model.antiprompt(h)))
      modifies `promptRemaining, `output, `display, `isAntiprompt, `generatedEog
      ensures promptRemaining == inp[nConsumed..]
      ensures isAntiprompt == if |inp| <= nConsumed then model.antiprompt(accepted) else old(isAntiprompt)
      ensures Fits() ==> OutputInStep() && RemainingInStep() && Flags()
    {
      hide SawEog, ChunkBoundary, OneTokenChunks;
      if Fits() {
        EchoStep(h, n0, embd, nConsumed);
        EogLast(h, embd);
      }
      Echo();
      assert Fits() ==> OutputInStep() && RemainingInStep();
      hide OutputInStep, RemainingInStep;
      CheckEnd();
    }

    /** The invariant, as the feeding phase finds it. */
    lemma FedSoFar()
      requires Wired() && Steady([])
      ensures nConsumed == Min(|accepted|, |inp|)
      ensures ChunkBoundary(0, nConsumed)
      ensures output == (if p.displayPrompt then OneTokenChunks(0, nConsumed) else []) + accepted[nConsumed..]
      ensures display == (p.displayPrompt || nConsumed == |inp|)
      ensures generatedEog == SawEog(accepted) && isAntiprompt == (|accepted| >= |inp| && model.antiprompt(accepted))
      ensures conversation == accepted
    {
      hide Mirror, Uncut, PastInStep, CacheInStep, LogitsInStep, Faithful, SawEog, MayGoOn, FileInStep, Squeezing;
    }

    /** Lines 1049-1397 of a pass: feed the next tokens and look at where that leaves the call. */
    method FeedNext()
      requires Wired() && nConsumed <= |inp| && Heard()
      requires nConsumed == |inp| ==> ctx.logits != []
      requires Fits() ==> Steady([])
      modifies `accepted, `embd, `nConsumed, `nRemain, `needToSave, `file
      modifies `promptRemaining, `output, `display, `isAntiprompt, `generatedEog
      ensures embd != [] && nConsumed <= |inp|
      ensures accepted == old(accepted) + embd
      ensures old(nConsumed) < |inp| ==> nConsumed == FeedEnd(old(nConsumed)) > old(nConsumed) && embd == inp[old(nConsumed)..nConsumed]
      ensures old(nConsumed) == |inp| ==> embd == [model.predict(ctx.logits, old(accepted))] && nConsumed == |inp|
      ensures nRemain == old(nRemain) - if old(nConsumed) == |inp| then 1 else 0
      ensures promptRemaining == inp[nConsumed..]
      ensures isAntiprompt == if |inp| <= nConsumed then model.antiprompt(accepted) else old(isAntiprompt)
      ensures p.cacheRo ==> file == old(file)
      ensures Fits() ==> Steady(embd)
    {
      hide Settled, FileInStep, Faithful, SawEog, Heard;
      hide OutputInStep, RemainingInStep, Flags, Shape, ChunkBoundary, OneTokenChunks, FeedEnd, Wired;
      hide Groupable, InGroups, FaithfulGrouped, Squeezing, LastStart;
      if Fits() {
        FedSoFar();
        SqueezingFacts();
      }
      embd := [];
      ghost var h, n0 := accepted, nConsumed;
      NextTokens();
      if Fits() {
        FedFrom(h, n0);
        FedGrouped(h, embd);
      }
      EchoAndCheck(h, n0);
    }

    // ----- a session re-entered with an empty prompt may be longer than a prompt may be

    /** The input is the whole session, and longer than n_ctx - 4 tokens. */
    ghost predicate Overlong() {
      && Wired() && pathGiven && start == inp && nMatch == |inp|
      && ctx.size - 4 < |inp| <= ctx.size
    }

    /** The first chunk is longer than `embd` may be (line 848). */
    ghost predicate CutsFirst()
      requires Wired()
    {
      FeedEnd(0) > ctx.size - 4
    }

    /** The tokens that were fed, without those the first chunk lost. */
    ghost function Uncropped(h: seq<Token>): seq<Token>
      requires Wired()
    {
      if CutsFirst() && |h| >= FeedEnd(0) then h[..ctx.size - 4] + h[FeedEnd(0)..] else h
    }

    /** No more has been fed than the session can answer. */
    ghost predicate Early()
      requires Wired()
      reads `accepted
    {
      |accepted| <= |inp| && (CutsFirst() ==> |accepted| <= FeedEnd(0))
    }

    /** The first generated token comes from the logits the context was left with, unless something had to be evaluated before. */
    ghost predicate HeardFirst(h: seq<Token>)
      requires Wired()
    {
      |h| > |inp| && (CutsFirst() ==> FeedEnd(0) == |inp|) ==> h[|inp|] == model.predict(logits0, inp)
    }

    /** What is known about the tokens fed. */
    ghost predicate LongFed()
      requires Wired()
      reads `accepted, `nConsumed, `nRemain, `promptRemaining, `isAntiprompt
    {
      && nConsumed == Min(|accepted|, |inp|) && (accepted <= inp || inp <= accepted)
      && nRemain == p.nPredict - Max(0, |accepted| - |inp|)
      && (accepted != [] ==> |accepted| >= FeedEnd(0) && p.nPredict != 0 && promptRemaining == inp[nConsumed..])
      && isAntiprompt == (|accepted| >= |inp| && model.antiprompt(accepted))
      && (!Early() && p.maxTokens > 0 ==> nConsumed == |inp| || FeedLimit() <= nConsumed)
      && HeardFirst(accepted)
    }

    /** What is known about the tokens evaluated, with `pending` to be processed next. */
    ghost predicate LongPaced(pending: seq<Token>)
      requires Wired()
      reads `accepted, `conversation, `session, `nSessionConsumed, `nEvalTotal
    {
      && |pending| <= p.nBatch && (|accepted| > |inp| ==> |pending| <= 1)
      && (p.maxTokens > 0 ==> nEvalTotal < p.maxTokens && (nEvalTotal > 0 ==> |pending| <= 1))
      && (Early() ==> session == inp && nSessionConsumed == |conversation| && nEvalTotal == 0)
    }

    /** Each time the loop comes round. */
    ghost predicate Long(pending: seq<Token>)
      requires Wired()
      reads `accepted, `nConsumed, `nRemain, `promptRemaining, `isAntiprompt
      reads `conversation, `session, `nSessionConsumed, `nEvalTotal
    {
      && LongFed() && LongPaced(pending)
      && (conversation == [] ==> pending == accepted && |accepted| <= FeedEnd(0))
      && (conversation != [] ==>
            && accepted != [] && conversation + pending == Uncropped(accepted) && |pending| <= ctx.size - 4
            && (FeedEnd(0) == |inp| ==> !model.antiprompt(inp)))
    }

    /** With the truncation of line 852 behind it. */
    ghost predicate LongWork()
      requires Wired()
      reads `accepted, `nConsumed, `nRemain, `promptRemaining, `isAntiprompt
      reads `conversation, `session, `nSessionConsumed, `nEvalTotal, `embd
    {
      && LongFed() && LongPaced(embd) && accepted != []
      && conversation + embd == Uncropped(accepted)
      && (FeedEnd(0) == |inp| ==> !model.antiprompt(inp))
    }

    /** Only the first chunk can be too long, and it is only when nothing has been processed that it is there. */
    lemma LongCropped(whole: seq<Token>)
      requires Overlong() && Long(whole) && whole != [] && !isAntiprompt
      requires embd == if |whole| > ctx.size - 4 then whole[..ctx.size - 4] else whole
      ensures LongWork() && embd != [] && |embd| <= ctx.size - 4
    {
      if conversation == [] {
        assert accepted == inp[..FeedEnd(0)] && inp[..|inp|] == inp;
        assert [] + embd == embd && |embd| <= |whole|;
        assert CutsFirst() ==> accepted[FeedEnd(0)..] == [] && accepted[..ctx.size - 4] + [] == accepted[..ctx.size - 4];
      }
    }

    /** Early chunks are answered by the session. */
    lemma LongAligned()
      requires Overlong() && LongWork() && Early()
      ensures AlignedAt(session, nSessionConsumed, embd)
    {
      var u := Uncropped(accepted);
      assert CutsFirst() ==> accepted[FeedEnd(0)..] == [];
      assert u <= inp;
      assert u[|conversation|..] == embd;
      assert inp[..|u|] == u;
      assert inp[|conversation|..|conversation| + |embd|] == u[|conversation|..];
    }

    /** Later chunks are short, and the budget is out of reach of those that are not. */
    lemma LongNext(n: nat)
      requires Overlong() && FeedEnd(0) <= n < |inp|
      ensures FeedEnd(n) - n <= ctx.size - 4
      ensures p.maxTokens > 0 && FeedLimit() <= n ==> FeedEnd(n) == n + 1
      ensures p.maxTokens > 0 && CutsFirst() ==> FeedEnd(n) == |inp| || FeedLimit() <= FeedEnd(n)
    {
    }

    lemma FirstChunkBounds()
      requires Wired()
      ensures 0 < FeedEnd(0) <= |inp| && ctx.size - 4 > 0
    {
    }

    lemma UncroppedGrows(h: seq<Token>, more: seq<Token>)
      requires Wired() && |h| >= FeedEnd(0)
      ensures Uncropped(h + more) == Uncropped(h) + more
      ensures Uncropped(h) != []
    {
      hide FeedEnd, Wired;
      FirstChunkBounds();
      if CutsFirst() {
        EndsAppend(h, more, ctx.size - 4, FeedEnd(0));
      }
    }

    /** How a call of this kind ends: no token of the input is skipped, unless the first chunk was too long. */
    ghost predicate Skips()
      requires Wired()
    {
      p.nPredict != 0 && CutsFirst() && !(FeedEnd(0) == |inp| && model.antiprompt(inp))
    }

    ghost predicate LongEnded(stop: Stop)
      requires Wired()
      reads `accepted, `promptRemaining, `conversation, `nEvalTotal, `embd
    {
      var h := conversation + Pending(stop);
      && (p.maxTokens > 0 ==> nEvalTotal <= p.maxTokens)
      && (!Skips() ==> h == accepted)
      && (Skips() ==> h <= Uncropped(accepted) && |accepted| >= FeedEnd(0))
      && (accepted <= inp || inp <= accepted) && HeardFirst(accepted)
      && (p.nPredict != 0 ==> accepted != [] && promptRemaining == inp[Min(|accepted|, |inp|)..])
    }

    /** After taking what the session answers. */
    lemma LongReused(c0: seq<Token>, e0: seq<Token>)
      requires Overlong() && LongFed() && accepted != [] && (FeedEnd(0) == |inp| ==> !model.antiprompt(inp))
      requires c0 + e0 == Uncropped(accepted) && |e0| <= p.nBatch && (|accepted| > |inp| ==> |e0| <= 1)
      requires p.maxTokens > 0 ==> nEvalTotal < p.maxTokens && (nEvalTotal > 0 ==> |e0| <= 1)
      requires conversation + embd == c0 + e0 && |embd| <= |e0|
      requires Early() ==> nEvalTotal == 0 && embd == [] && session == inp && nSessionConsumed == |c0| + |e0|
      ensures LongWork() && (Early() ==> embd == [])
    {
      assert embd == [] ==> conversation + embd == conversation;
      hide LongFed, Early, Uncropped;
    }

    /** After evaluating what was left, and going on. */
    lemma LongDone(c1: seq<Token>, e1: seq<Token>, n1: nat)
      requires Overlong() && LongFed() && accepted != [] && (FeedEnd(0) == |inp| ==> !model.antiprompt(inp))
      requires c1 + e1 == Uncropped(accepted) == conversation && nEvalTotal == n1 + |e1|
      requires p.maxTokens > 0 ==> nEvalTotal < p.maxTokens
      requires Early() ==> e1 == [] && n1 == 0 && session == inp && nSessionConsumed == |conversation|
      ensures Long([]) && conversation != []
    {
      UncroppedGrows(accepted, []);
      assert conversation + [] == conversation;
      hide Early, Uncropped;
    }

    /** After an evaluation that ends the call. */
    lemma LongStopped(c1: seq<Token>, e1: seq<Token>, n1: nat, b: nat)
      requires Overlong() && LongFed() && accepted != [] && (FeedEnd(0) == |inp| ==> !model.antiprompt(inp))
      requires c1 + e1 == Uncropped(accepted) && 0 < b <= |e1| && (p.maxTokens > 0 ==> b <= p.maxTokens)
      requires |accepted| > |inp| ==> |e1| <= 1
      requires p.maxTokens > 0 ==> n1 < p.maxTokens && (n1 > 0 ==> |e1| <= 1)
      requires !Early() && conversation == c1 + e1[..b] && nEvalTotal == n1 + b
      ensures LongEnded(Evaluated)
    {
      assert conversation + [] == conversation;
      assert c1 + e1[..b] <= c1 + e1 && (b == |e1| ==> e1[..b] == e1);
      hide FeedEnd, FeedLimit;
    }

    lemma LongFull()
      requires Overlong() && LongWork()
      ensures LongEnded(ContextFull)
    {
      hide FeedEnd, FeedLimit;
    }

    lemma LongFinished()
      requires Overlong() && Long(embd) && (nRemain == 0 || isAntiprompt)
      ensures LongEnded(Finished)
    {
      hide FeedEnd, FeedLimit;
      FirstChunkBounds();
      assert conversation == [] ==> conversation + embd == embd;
      assert conversation == [] && accepted != [] ==> nRemain == p.nPredict != 0 && isAntiprompt && |accepted| == |inp| == FeedEnd(0);
      assert (accepted <= inp || inp <= accepted) && |accepted| == |inp| ==> accepted == inp;
    }

    /** The first generated token after feeding. */
    lemma FirstAfter(h: seq<Token>, n0: nat, heard: seq<Cell>)
      requires Overlong() && accepted == h + embd && n0 == Min(|h|, |inp|) && (h <= inp || inp <= h)
      requires n0 < |inp| ==> nConsumed <= |inp| && n0 <= nConsumed && embd == inp[n0..nConsumed]
      requires n0 == |inp| ==> embd == [model.predict(heard, h)]
      requires HeardFirst(h) && (nEvalTotal == 0 ==> heard == logits0)
      requires |h| <= |inp| && (CutsFirst() ==> |h| <= FeedEnd(0)) ==> nEvalTotal == 0
      ensures HeardFirst(accepted)
    {
      if n0 == |inp| == |h| {
        assert h == inp;
      } else if n0 == |inp| {
        assert accepted[|inp|] == h[|inp|];
      }
    }

    /** Feeding keeps what is known. */
    lemma LongFeeds(h: seq<Token>, n0: nat, heard: seq<Cell>)
      requires Overlong() && accepted == h + embd && n0 == Min(|h|, |inp|) && (h <= inp || inp <= h)
      requires n0 < |inp| ==> nConsumed == FeedEnd(n0) > n0 && embd == inp[n0..nConsumed]
      requires n0 == |inp| ==> embd == [model.predict(heard, h)] && nConsumed == |inp|
      requires HeardFirst(h) && (nEvalTotal == 0 ==> heard == logits0)
      requires nRemain == p.nPredict - Max(0, |h| - |inp|) - if n0 == |inp| then 1 else 0
      requires promptRemaining == inp[nConsumed..] && p.nPredict != 0
      requires isAntiprompt == (|inp| <= nConsumed && model.antiprompt(accepted))
      requires p.maxTokens > 0 ==> nEvalTotal < p.maxTokens
      requires h == [] ==> conversation == []
      requires h != [] ==>
                 && |h| >= FeedEnd(0) && conversation != [] && conversation == Uncropped(h)
                 && (FeedEnd(0) == |inp| ==> !model.antiprompt(inp))
      requires |h| <= |inp| && (CutsFirst() ==> |h| <= FeedEnd(0)) ==> session == inp && nSessionConsumed == |conversation| && nEvalTotal == 0
      requires !(|h| <= |inp| && (CutsFirst() ==> |h| <= FeedEnd(0))) && p.maxTokens > 0 ==> n0 == |inp| || FeedLimit() <= n0
      ensures Long(embd)
    {
      hide CutsFirst, LongFed, LongPaced, HeardFirst;
      FirstAfter(h, n0, heard);
      LongFedAfter(h, n0);
      LongPacedAfter(h, n0);
      if h != [] {
        UncroppedGrows(h, embd);
        if n0 < |inp| {
          LongNext(n0);
        }
      } else {
        FirstChunkBounds();
        assert [] + embd == embd;
      }
    }

    lemma LongFedAfter(h: seq<Token>, n0: nat)
      requires Overlong() && accepted == h + embd && n0 == Min(|h|, |inp|) && (h <= inp || inp <= h) && HeardFirst(accepted)
      requires n0 < |inp| ==> nConsumed == FeedEnd(n0) > n0 && embd == inp[n0..nConsumed]
      requires n0 == |inp| ==> |embd| == 1 && nConsumed == |inp|
      requires nRemain == p.nPredict - Max(0, |h| - |inp|) - if n0 == |inp| then 1 else 0
      requires promptRemaining == inp[nConsumed..] && p.nPredict != 0
      requires isAntiprompt == (|inp| <= nConsumed && model.antiprompt(accepted))
      requires h != [] ==> |h| >= FeedEnd(0)
      requires !(|h| <= |inp| && (CutsFirst() ==> |h| <= FeedEnd(0))) && p.maxTokens > 0 ==> n0 == |inp| || FeedLimit() <= n0
      ensures LongFed()
    {
      hide HeardFirst;
      FirstChunkBounds();
      if n0 < |inp| {
        assert h + embd == inp[..nConsumed];
        if h != [] {
          LongNext(n0);
        }
      }
    }

    lemma LongPacedAfter(h: seq<Token>, n0: nat)
      requires Overlong() && accepted == h + embd && n0 == Min(|h|, |inp|)
      requires n0 < |inp| ==> nConsumed == FeedEnd(n0) > n0 && embd == inp[n0..nConsumed]
      requires n0 == |inp| ==> |embd| == 1
      requires p.maxTokens > 0 ==> nEvalTotal < p.maxTokens
      requires h != [] ==> |h| >= FeedEnd(0)
      requires |h| <= |inp| && (CutsFirst() ==> |h| <= FeedEnd(0)) ==> session == inp && nSessionConsumed == |conversation| && nEvalTotal == 0
      requires !(|h| <= |inp| && (CutsFirst() ==> |h| <= FeedEnd(0))) && p.maxTokens > 0 ==> n0 == |inp| || FeedLimit() <= n0
      ensures LongPaced(embd)
    {
      FirstChunkBounds();
      if n0 < |inp| && h != [] {
        LongNext(n0);
      }
    }

    /** What holds before the next tokens are fed. */
    lemma LongHead(h: seq<Token>)
      requires Overlong() && Long([]) && nRemain != 0 && h == accepted
      ensures (h <= inp || inp <= h) && nConsumed == Min(|h|, |inp|) && p.nPredict != 0 && HeardFirst(h)
      ensures nRemain == p.nPredict - Max(0, |h| - |inp|)
      ensures p.maxTokens > 0 ==> nEvalTotal < p.maxTokens
      ensures h == [] ==> conversation == []
      ensures h != [] ==>
                && |h| >= FeedEnd(0) && conversation != [] && conversation == Uncropped(h)
                && (FeedEnd(0) == |inp| ==> !model.antiprompt(inp))
      ensures |h| <= |inp| && (CutsFirst() ==> |h| <= FeedEnd(0)) ==> session == inp && nSessionConsumed == |conversation| && nEvalTotal == 0
      ensures !(|h| <= |inp| && (CutsFirst() ==> |h| <= FeedEnd(0))) && p.maxTokens > 0 ==> nConsumed == |inp| || FeedLimit() <= nConsumed
    {
      hide FeedEnd, FeedLimit, Uncropped, CutsFirst;
      assert conversation + [] == conversation;
    }

    /** What is known when a decode finds no slot. */
    ghost predicate NoSlot()
      requires Wired()
      reads `accepted, `needToSave, `file
    {
      && !CacheKnown(|accepted|) && FileInStep() && Faithful(accepted) && |accepted| > Reuse()
      && (Groupable() ==> |accepted| > ctx.size)
    }

    lemma NoSlotNow()
      requires Wired() && !CacheKnown(|accepted|) && FileInStep() && Faithful(accepted) && |accepted| > Reuse()
      requires Groupable() ==> |accepted| > ctx.size
      ensures NoSlot()
    {
    }

    /** Lines 844-1042: process the tokens that were fed. */
    method Process() returns (stop: Stop)
      requires Wired() && nSessionConsumed <= |session| && embd != [] && Heard()
      requires Fits() ==> Steady(embd)
      requires Overlong() ==> Long(embd) && !isAntiprompt
      modifies `embd, `session, `nPast, `nSessionConsumed, `conversation, `nEvalTotal, `pathSession, `gaI, `groups, ctx
      ensures stop in {Continue, Evaluated, ContextFull, Failed}
      ensures nSessionConsumed <= |session| && Heard()
      ensures Fits() && stop == Continue ==> Steady([])
      ensures Fits() && stop == Evaluated ==> Stopped()
      ensures Fits() && stop == ContextFull ==>
                Steady(embd) && embd != [] && p.gaN == 1 && nPast + |embd| >= ctx.size && (!p.ctxShift || p.nPredict == -2)
      ensures Fits() && stop == Failed ==> NoSlot()
      ensures Overlong() && stop == Continue ==> Long([]) && conversation != []
      ensures Overlong() && stop in {Evaluated, ContextFull} ==> LongEnded(stop)
      ensures Overlong() && Early() && p.ctxShift && p.nPredict != -2 ==> stop == Continue
    {
      hide Steady, Stopped, Roomy, Reused, FileInStep, CacheKnown, Groupable, Faithful, NoSlot, Heard;
      hide Long, LongWork, LongEnded, LongFed, Early, Uncropped, AlignedAt, BatchSize, FeedEnd, FeedLimit;
      ghost var whole := embd;
      if Fits() {
        SteadySize();
      }
      if |embd| > ctx.size - 4 {
        embd := embd[..ctx.size - 4];
      }
      if Overlong() {
        LongCropped(whole);
      }
      var full := MakeRoom();
      if full {
        if Overlong() {
          LongFull();
        }
        return ContextFull;
      }
      stop := Consume();
    }

    /** Lines 934-1042: take from the session what matches, and evaluate the rest. */
    method Consume() returns (stop: Stop)
      requires Wired() && nSessionConsumed <= |session| && embd != [] && Heard()
      requires Fits() ==> Roomy() && FileInStep() && Faithful(accepted)
      requires Overlong() ==> LongWork()
      modifies `embd, `session, `nPast, `nSessionConsumed, `conversation, `nEvalTotal, ctx
      ensures stop in {Continue, Evaluated, Failed}
      ensures nSessionConsumed <= |session| && Heard()
      ensures Fits() && stop == Continue ==> Steady([])
      ensures Fits() && stop == Evaluated ==> Stopped()
      ensures Fits() && stop == Failed ==> NoSlot()
      ensures Overlong() && stop == Continue ==> Long([]) && conversation != []
      ensures Overlong() && stop == Evaluated ==> LongEnded(stop)
      ensures Overlong() && Early() ==> stop == Continue
    {
      hide *;
      ghost var c0, e0 := conversation, embd;
      if Overlong() {
        LongWorkFacts();
      }
      ReusePrefix();
      if Overlong() {
        LongReused(c0, e0);
        LongWorkFacts();
      }
      ghost var c1, e1, n1 := conversation, embd, nEvalTotal;
      stop := Evaluate();
      if Fits() && stop == Failed {
        NoSlotNow();
      }
      if Overlong() && stop == Continue {
        LongDone(c1, e1, n1);
      } else if Overlong() && stop == Evaluated {
        BatchBound();
        LongStopped(c1, e1, n1, BatchSize(0));
      }
    }

    lemma SteadySize()
      requires Wired() && Fits() && Steady(embd)
      ensures |embd| <= ctx.size - 4 && FileInStep() && Faithful(accepted)
      ensures p.maxTokens > 0 ==> |accepted| <= Reuse() + p.maxTokens
    {
      hide Mirror, Uncut, PastInStep, CacheInStep, LogitsInStep, FileInStep;
      hide Faithful, SawEog, MayGoOn, OutputInStep, RemainingInStep, Flags, Squeezing;
    }

    lemma BatchBound()
      requires Wired() && embd != []
      ensures 0 < BatchSize(0) <= |embd| && (p.maxTokens > 0 ==> BatchSize(0) <= p.maxTokens)
    {
    }

    lemma LongWorkFacts()
      requires Overlong() && LongWork()
      ensures LongFed() && accepted != [] && (FeedEnd(0) == |inp| ==> !model.antiprompt(inp))
      ensures conversation + embd == Uncropped(accepted) && |embd| <= p.nBatch && (|accepted| > |inp| ==> |embd| <= 1)
      ensures p.maxTokens > 0 ==> nEvalTotal < p.maxTokens && (nEvalTotal > 0 ==> |embd| <= 1)
      ensures Early() ==> session == inp && nSessionConsumed == |conversation| && nEvalTotal == 0 && AlignedAt(session, nSessionConsumed, embd)
    {
      hide LongFed, Early, Uncropped, AlignedAt, FeedEnd;
      if Early() { LongAligned(); }
    }

    /** A session re-entered in one chunk to sample a single token: nothing has to be evaluated. */
    ghost predicate OneSample() {
      Overlong() && p.nPredict == 1 && p.ctxShift && FeedEnd(0) == |inp|
    }

    lemma OneSampleEarly()
      requires OneSample() && Long(embd) && nRemain != 0
      requires |accepted| <= |inp| + 1
      ensures Early() && |accepted| <= |inp|
    {
    }

    /** A call that has nothing to sample from has evaluated nothing. */
    lemma NothingHeard()
      requires Wired() && Steady([]) && Heard() && ctx.logits == [] && nConsumed == |inp|
      ensures |accepted| == |conversation| == |inp| == Reuse()
    {
      hide Mirror, Uncut, PastInStep, CacheInStep, LogitsInStep, FileInStep, SawEog, MayGoOn;
      hide OutputInStep, RemainingInStep, Flags, Squeezing, CacheKnown;
    }

    /** One pass of the loop of lines 842-1398. */
    method Pass() returns (stop: Stop)
      requires Wired() && nConsumed <= |inp| && nSessionConsumed <= |session| && Heard()
      requires Fits() ==> Steady(embd)
      requires Overlong() ==> Long(embd) && nRemain != 0 && !isAntiprompt && (embd == [] ==> accepted == [])
      modifies this, ctx
      ensures stop in {Continue, Evaluated, ContextFull, Failed, Trapped}
      ensures nConsumed <= |inp| && nSessionConsumed <= |session| && Heard()
      ensures stop == Trapped ==> logits0 == [] && |inp| <= nConsumed && nEvalTotal == 0
      ensures Fits() && stop == Trapped ==> Steady([]) && |accepted| == |conversation| == |inp| == Reuse()
      ensures old(accepted) <= accepted
      ensures p.cacheRo ==> file == old(file)
      ensures stop != Continue ==> nRemain == old(nRemain) && isAntiprompt == old(isAntiprompt)
      ensures Fits() && stop == Continue ==> Steady(embd) && embd != [] && conversation == old(accepted)
      ensures Fits() && |old(accepted)| < |inp| ==> |accepted| <= |inp|
      ensures Fits() && stop == Evaluated ==> Stopped() && accepted == old(accepted)
      ensures Fits() && stop == ContextFull ==>
                Steady(embd) && embd != [] && p.gaN == 1 && nPast + |embd| >= ctx.size && (!p.ctxShift || p.nPredict == -2)
      ensures Fits() && stop == Failed ==> NoSlot()
      ensures Fits() && stop == Failed && p.maxTokens > 0 ==> |accepted| <= Reuse() + p.maxTokens
      ensures Overlong() && stop == Continue ==> Long(embd) && embd != []
      ensures Overlong() && stop in {Evaluated, ContextFull} ==> LongEnded(stop)
      ensures stop == Continue ==> |accepted| > |old(accepted)|
      ensures Overlong() && stop == Continue ==> |accepted| <= Max(|inp|, |old(accepted)| + 1)
      ensures Overlong() && old(Early()) && p.ctxShift && p.nPredict != -2 ==> stop == Continue || logits0 == []
    {
      hide Wired, Steady, Stopped, NoSlot, Flags, FeedEnd, FeedLimit, Reuse, Uncut, AlignedAt;
      hide Long, LongWork, LongEnded, LongFed, LongPaced, Uncropped, CutsFirst, HeardFirst;
      if embd != [] {
        if Fits() {
          SteadySize();
        }
        stop := Process();
        if stop != Continue {
          return;
        }
      }
      if nConsumed == |inp| && ctx.logits == [] {
        if Fits() { NothingHeard(); }
        return Trapped;
      }
      ghost var h, n0 := accepted, nConsumed;
      if Fits() {
        FedSoFar();
      }
      if Overlong() {
        LongHead(h);
      }
      FeedNext();
      if Overlong() {
        LongFeeds(h, n0, ctx.logits);
      }
      stop := Continue;
    }

    /** A call that goes on has something to sample, and has not met a reverse prompt at the end of its input. */
    lemma GoesOn()
      requires Wired() && Steady(embd) && nRemain != 0 && !isAntiprompt && (p.nPredict == 0 ==> accepted == [])
      ensures p.nPredict != 0
      ensures model.antiprompt(inp) && |accepted| <= |inp| ==> |accepted| < |inp|
      ensures nConsumed == Min(|accepted|, |inp|)
    {
      hide Mirror, Uncut, PastInStep, CacheInStep, LogitsInStep, FileInStep;
      hide Faithful, SawEog, MayGoOn, OutputInStep, RemainingInStep, Squeezing;
      assert (accepted <= inp || inp <= accepted) && |accepted| == |inp| ==> accepted == inp;
    }

    /** Fed to the sampler but not processed when the call ended for this reason. */
    ghost function Pending(stop: Stop): seq<Token>
      reads `embd
    {
      if stop == Evaluated then [] else embd
    }

    /** How a call that was not interrupted ends, before the terminal save. */
    ghost predicate Ended(stop: Stop)
      requires Wired()
      reads this, ctx
    {
      && stop in {Evaluated, ContextFull, Finished}
      && Shape(Pending(stop))
      && PastInStep(|conversation|, 0)
      && CacheInStep(|conversation|) && LogitsInStep(|conversation|)
      && Faithful(accepted) && Flags() && FileInStep() && OutputInStep() && RemainingInStep()
      && Squeezing(Pending(stop))
      && (stop == Evaluated ==> Stopped())
      && (stop != Evaluated ==> Mirror() && Uncut() && MayGoOn())
      && (stop == ContextFull ==>
            embd != [] && p.gaN == 1 && nPast + |embd| >= ctx.size && (!p.ctxShift || p.nPredict == -2))
      && (stop == Finished ==> (nRemain == 0 || isAntiprompt) && (accepted != [] ==> embd != []))
      && (stop != Finished ==> nRemain != 0 && !isAntiprompt)
      && (p.nPredict >= 0 ==> nRemain >= 0)
      && (p.nPredict == 0 ==> accepted == [])
      && (model.antiprompt(inp) ==> |accepted| <= |inp|)
    }

    /**
     The loop of lines 842-1398.  The platform bounds the instructions of a call; `limit`
     stands for that bound, in passes, and a call that reaches it has no effect (`Trapped`).
     */
    method Loop(limit: nat) returns (stop: Stop)
      requires Wired() && nConsumed <= |inp| && nSessionConsumed <= |session| && Heard()
      requires Fits() ==> Steady([]) && embd == [] && conversation == []
      requires Overlong() ==> Long([]) && embd == [] && accepted == []
      modifies this, ctx
      ensures stop in {Evaluated, ContextFull, Finished, Failed, Trapped}
      ensures nSessionConsumed <= |session| && Heard()
      ensures p.cacheRo ==> file == old(file)
      ensures Fits() && stop == Trapped ==> (|conversation| + 1 >= limit && Steady(embd)) || (logits0 == [] && Reuse() == |inp|)
      ensures old(nRemain) == 0 ==>
                && stop == Finished && session == old(session) && conversation == old(conversation)
                && pathSession == old(pathSession) && ctx.cells == old(ctx.cells)
      ensures Fits() && stop == Failed ==> NoSlot()
      ensures Fits() && stop in {Evaluated, ContextFull, Finished} ==> Ended(stop)
      ensures Overlong() && stop in {Evaluated, ContextFull, Finished} ==> LongEnded(stop)
      ensures Fits() && stop == Failed && p.maxTokens > 0 ==> |accepted| <= Reuse() + p.maxTokens
      ensures OneSample() && limit > |inp| && logits0 != [] ==> stop == Finished
    {
      hide Mirror, Uncut, PastInStep, CacheInStep, LogitsInStep, FileInStep;
      hide Faithful, SawEog, MayGoOn, OutputInStep, RemainingInStep, Flags, Squeezing;
      hide Long, LongEnded;
      var passes := 0;
      stop := Continue;
      while nRemain != 0 && !isAntiprompt
        invariant nConsumed <= |inp| && nSessionConsumed <= |session| && 0 <= passes <= limit && Heard()
        invariant p.cacheRo ==> file == old(file)
        invariant Fits() ==> Steady(embd)
        invariant Overlong() ==> Long(embd) && (embd == [] ==> accepted == []) && passes <= |accepted|
        invariant OneSample() ==> |accepted| <= |inp| + 1
        invariant Fits() && model.antiprompt(inp) ==> |accepted| <= |inp|
        invariant Fits() && p.nPredict == 0 ==> accepted == []
        invariant Fits() && (passes > 0 || accepted != []) ==> embd != []
        invariant Fits() ==> passes <= |conversation| + 1
        invariant Fits() && p.nPredict >= 0 ==> nRemain >= 0
        invariant old(nRemain) == 0 ==>
                    && nRemain == 0 && session == old(session) && conversation == old(conversation)
                    && pathSession == old(pathSession) && ctx.cells == old(ctx.cells)
        decreases limit - passes
      {
        if OneSample() {
          OneSampleEarly();
        }
        if passes == limit {
          return Trapped;
        }
        passes := passes + 1;
        if Fits() {
          GoesOn();
        }
        stop := Pass();
        if stop != Continue {
          return;
        }
      }
      if Overlong() {
        LongFinished();
      }
      stop := Finished;
    }

    // ----- what the end of a call means

    lemma {:induction false} PastIsRemaining(k: nat)
      requires Wired() && Fits()
      ensures Past(k) == Remaining(ctx.size, nKeep, |inp|, k)
    {
      PastBounds(k);
      if k > |inp| {
        PastIsRemaining(k - 1);
      }
    }

    /** Without a shift n_past is the number of processed tokens. */
    lemma {:induction false} PastPlain(k: nat)
      requires Wired() && Fits() && k < ctx.size
      ensures Past(k) == k
    {
      if k > |inp| {
        PastPlain(k - 1);
      }
    }

    /** A call with a coherent session, no reverse prompt and room in the context. */
    ghost predicate Plain() {
      && Wired() && Fits() && p.gaN == 1 && !Trimmed() && Clean()
      && p.nPredict != 0
      && !model.antiprompt(inp) && forall h {:trigger model.antiprompt(h)} :: !model.antiprompt(h)
    }

    lemma PlainToken(h: seq<Token>)
      requires Plain() && |inp| <= |h| < ctx.size
      ensures NextToken(h) == Continuation(model, h)
    {
      PastPlain(|h|);
    }

    lemma FaithfulResumes(h: seq<Token>)
      requires Plain() && Faithful(h) && (h <= inp || inp <= h) && |h| <= ctx.size
      ensures Resumes(model, logits0, inp, Reuse(), h)
    {
      forall i | |inp| <= i < |h|
        ensures h[i] == if i == Reuse() then model.predict(logits0, inp) else Continuation(model, h[..i])
      {
        if i > Reuse() {
          assert CacheKnown(i);
          PlainToken(h[..i]);
        }
      }
    }

    /** While there is room in the context, the call keeps what `Served` promises. */
    lemma EndMeansServed(stop: Stop)
      requires Plain() && Ended(stop) && |conversation| < ctx.size - 1
      ensures stop != ContextFull
      ensures Replied(model, p, inp, Reuse(), logits0, ReplyAt(stop))
    {
      hide FileInStep, OutputInStep, CacheInStep, LogitsInStep, Mirror, Uncut, Clean, Kept, NextToken, Resumes, Squeezing;
      PastPlain(|conversation|);
      hide Past;
      assert |Pending(stop)| <= 1 || |accepted| <= |inp|;
      assert isAntiprompt == false;
      assert stop == Finished ==> p.nPredict > 0 && |accepted| == |inp| + p.nPredict;
      FaithfulResumes(accepted);
      hide Faithful;
      assert HasEnd(model, inp, accepted) == SawEog(accepted);
      assert conversation + Pending(stop) == accepted;
    }

    /** Chunks of n_batch tokens end at the multiples of n_batch; past a wrapped limit they have one token. */
    lemma {:induction false} ChunkStartClosed(n: nat)
      requires Wired() && n < |inp|
      requires p.maxTokens > 0 ==> nMatch + p.maxTokens >= |inp|
      ensures ChunkStart(n, |inp|) ==
                if p.maxTokens > 0 && nMatch + p.maxTokens >= TWO_64 then |inp| - 1 else n + (|inp| - n - 1) / p.nBatch * p.nBatch
      decreases |inp| - n
    {
      var e, b := FeedEnd(n), p.nBatch;
      LimitIs();
      if e < |inp| {
        ChunkStartClosed(e);
        if e == n + b {
          DivStepUp(|inp| - e - 1, b);
        }
      } else {
        DivSmall(|inp| - n - 1, b);
      }
    }

    lemma LimitIs()
      requires Wired()
      ensures FeedLimit() == nMatch + p.maxTokens - if nMatch + p.maxTokens >= TWO_64 then TWO_64 else 0
      ensures nMatch + p.maxTokens >= TWO_64 ==> FeedLimit() < |inp|
    {
    }

    lemma DivStepUp(a: nat, b: nat)
      requires b > 0
      ensures (a + b) / b * b == a / b * b + b
    {
      ModStep(a, b);
      assert a == a / b * b + a % b && a + b == (a + b) / b * b + (a + b) % b;
    }

    lemma DivSmall(a: int, b: nat)
      requires 0 <= a < b
      ensures a / b * b == 0
    {
    }

    /** The counters at the end of a call. */
    lemma EndedFacts(stop: Stop)
      requires Wired() && Fits() && Ended(stop)
      ensures stop in {Evaluated, ContextFull, Finished}
      ensures accepted == conversation + Pending(stop) && nConsumed == Min(|accepted|, |inp|)
      ensures (|accepted| > |inp| ==> |Pending(stop)| <= 1) && (Pending(stop) != [] ==> accepted != [] && |conversation| == LastStart(|accepted|))
      ensures nRemain == p.nPredict - Max(0, |accepted| - |inp|) && (p.maxTokens > 0 ==> |accepted| <= Reuse() + p.maxTokens)
      ensures stop == Evaluated ==> |conversation| > Reuse() && (|accepted| >= |inp| || (p.maxTokens > 0 && |accepted| >= Reuse() + p.maxTokens))
      ensures |accepted| == |inp| ==> isAntiprompt == model.antiprompt(inp)
      ensures isAntiprompt ==> |accepted| >= |inp|
      ensures stop == Finished ==> (nRemain == 0 || isAntiprompt) && (accepted != [] ==> Pending(stop) != [])
      ensures stop != Finished ==> nRemain != 0 && !isAntiprompt
      ensures stop == ContextFull ==> |accepted| > |inp| && |Pending(stop)| == 1
      ensures (p.nPredict == 0 ==> accepted == []) && (model.antiprompt(inp) ==> |accepted| <= |inp|)
    {
      hide FileInStep, OutputInStep, RemainingInStep, CacheInStep, LogitsInStep;
      hide Faithful, MayGoOn, Past, Mirror, Uncut, LastStart;
      hide FaithfulGrouped, InGroups, Groupable, PastInStep, OnlyLastEnds;
      if stop == ContextFull {
        FullAtEnd(stop);
      }
      assert (accepted <= inp || inp <= accepted) && |accepted| == |inp| ==> accepted == inp;
    }

    /** Why the call has ended, in terms of its reply. */
    lemma EndsFor(stop: Stop)
      requires Wired() && Fits() && Ended(stop)
      ensures stop == Evaluated ==> Pending(stop) == [] && (generatedEog || (p.maxTokens > 0 && nEvalTotal == p.maxTokens))
      ensures stop == Finished ==>
                p.nPredict == 0 || (p.nPredict > 0 && |accepted| == |inp| + p.nPredict) || (|accepted| >= |inp| && model.antiprompt(accepted))
      ensures stop == ContextFull ==> p.gaN == 1 && (!p.ctxShift || p.nPredict == -2) && |conversation| == ctx.size - 1
      ensures p.gaN == 1 && nPast != |conversation| ==> p.ctxShift && p.nPredict != -2
    {
      hide FileInStep, OutputInStep, RemainingInStep, CacheInStep, LogitsInStep, Faithful, Mirror, Uncut, Squeezing, SawEog, OnlyLastEnds;
      if stop == ContextFull {
        FullAtEnd(stop);
      }
      PastBounds(|conversation|);
    }

    /** Before anything is evaluated the cache has the cells that were matched. */
    lemma ShortCells(stop: Stop)
      requires Wired() && Fits() && Ended(stop) && p.gaN == 1 && Clean() && !Trimmed() && |conversation| < Reuse()
      ensures |ctx.cells| >= |conversation|
    {
      hide FileInStep, OutputInStep, RemainingInStep, LogitsInStep, Faithful, Mirror, Uncut, Squeezing, SawEog, OnlyLastEnds;
      PastPlain(|conversation|);
    }

    lemma PathAtEnd(stop: Stop)
      requires Wired() && Ended(stop) && p.gaN == 1
      ensures nPast == Past(|conversation|) && (nPast != |conversation| ==> !pathSession)
    {
      hide FileInStep, OutputInStep, RemainingInStep, CacheInStep, LogitsInStep, Faithful, Mirror, Uncut, Squeezing, SawEog, OnlyLastEnds, MayGoOn;
    }

    /** What the save before the first sample has left in the file. */
    lemma FirstSaveAtEnd(stop: Stop)
      requires Wired() && Fits() && Ended(stop) && pathGiven && !p.cacheRo
      ensures !(nMatch < |inp| < |accepted|) ==> file == file0
      ensures nMatch < |inp| < |accepted| ==>
                && file.Some? && file.value.tokens == inp
                && (Clean() && p.gaN == 1 ==> file == Some(Snapshot(inp)))
    {
      hide OutputInStep, RemainingInStep, CacheInStep, LogitsInStep, Faithful, Mirror, Uncut, Squeezing, SawEog, OnlyLastEnds, PastInStep, MayGoOn, Clean;
      PastPlain(|inp|);
    }

    /** Whether the call stops at its prompt can be said before it runs, and how much it has processed then. */
    lemma ProcessedAtEnd(stop: Stop)
      requires Wired() && Fits() && Ended(stop)
      ensures StopsAtPrompt(model, p, inp, Reuse()) ==> stop == Finished && |conversation| == ProcessedThen(p, nMatch, |inp|)
      ensures !StopsAtPrompt(model, p, inp, Reuse()) ==> |conversation| > Reuse() || |conversation| == |inp|
    {
      hide Ended, ChunkStart;
      EndedFacts(stop);
      if StopsAtPrompt(model, p, inp, Reuse()) && p.nPredict != 0 {
        ChunkStartClosed(0);
      }
    }

    lemma FullAtEnd(stop: Stop)
      requires Wired() && Fits() && Ended(stop) && stop == ContextFull
      ensures |accepted| == |conversation| + 1 > |inp|
    {
      hide Faithful, FileInStep, OutputInStep, RemainingInStep, Flags, LogitsInStep, CacheInStep, Squeezing;
      PastBounds(|accepted|);
      PastBounds(|accepted| - 1);
    }

    /** At the terminal save the session list is what was processed, unless the call stopped at its prompt before that covered the list. */
    lemma MirrorAtEnd(stop: Stop)
      requires Wired() && Fits() && Ended(stop)
      requires pathSession && p.cacheAll && !p.cacheRo
      ensures var n := ProcessedThen(p, nMatch, |inp|);
              session == conversation <==> !(StopsAtPrompt(model, p, inp, Reuse()) && n <= Reuse() && n < |start|)
    {
      hide FileInStep, OutputInStep, RemainingInStep, CacheInStep, LogitsInStep, Faithful, MayGoOn, Past, Squeezing;
      hide StopsAtPrompt, ProcessedThen, Flags;
      ProcessedAtEnd(stop);
    }

    /**
     At the terminal save cells and tokens agree, exactly when the prompt was not re-sent too
     late and the loaded list was either matched to its end or cut, which takes an evaluation.
     */
    lemma CoherentAtEnd(stop: Stop)
      requires Wired() && Fits() && Ended(stop) && p.gaN == 1 && Clean()
      requires pathSession && p.cacheAll && !p.cacheRo
      ensures ctx.cells == Place(session) <==>
                && !Trimmed()
                && (|start| == Reuse() || !(StopsAtPrompt(model, p, inp, Reuse()) && ProcessedThen(p, nMatch, |inp|) <= Reuse()))
    {
      hide Ended, StopsAtPrompt, ProcessedThen, Place, Kept;
      ProcessedAtEnd(stop);
      if |conversation| > Reuse() {
        CellsOfConversation(stop);
      } else {
        CellsOfMatch(stop);
        PlaceInjective(inp[..nMatch], session);
      }
    }

    lemma PlaceInjective(a: seq<Token>, b: seq<Token>)
      ensures Place(a) == Place(b) <==> a == b
    {
      assert Place(a) == Place(b) ==> forall i :: 0 <= i < |a| ==> a[i] == Place(a)[i].token == Place(b)[i].token == b[i];
    }

    lemma CellsOfConversation(stop: Stop)
      requires Wired() && Fits() && Ended(stop) && p.gaN == 1 && Clean()
      requires pathSession && p.cacheAll && !p.cacheRo && |conversation| > Reuse()
      ensures session == conversation
      ensures ctx.cells == Place(session) <==> !Trimmed()
    {
      hide FileInStep, OutputInStep, RemainingInStep, Faithful, MayGoOn, Squeezing, Flags, SawEog;
      PlaceInjective(Kept(conversation, nPast), conversation);
      assert Trimmed() ==> |inp + conversation[Reuse()..]| == |conversation| + 1;
    }

    lemma CellsOfMatch(stop: Stop)
      requires Wired() && Fits() && Ended(stop) && p.gaN == 1 && Clean()
      requires pathSession && |conversation| <= Reuse()
      ensures session == start && ctx.cells == Place(inp[..nMatch])
      ensures inp[..nMatch] == start <==> !Trimmed() && |start| == Reuse()
      ensures |conversation| == |inp| ==> |start| == Reuse()
    {
      hide FileInStep, OutputInStep, RemainingInStep, Faithful, MayGoOn, Squeezing, Flags, SawEog;
      PastBounds(|conversation|);
      CacheWhileReusing(|conversation|);
    }

    /** With a coherent session and no early exit, what is saved is the snapshot of the conversation. */
    lemma SavedSnapshot(stop: Stop)
      requires Plain() && Ended(stop) && |conversation| < ctx.size - 1
      requires pathGiven && p.cacheAll && !p.cacheRo
      ensures pathSession && SessionFile(session, ctx.cells) == Snapshot(conversation)
    {
      hide FileInStep, OutputInStep, RemainingInStep, Faithful, MayGoOn, Squeezing, ProcessedThen;
      PastPlain(|conversation|);
      MirrorAtEnd(stop);
      ProcessedAtEnd(stop);
      assert CacheKnown(|conversation|);
      if |conversation| <= Reuse() {
        assert stop != Evaluated;
        assert conversation == inp;
      }
    }

    /** The reply of a call that has ended. */
    ghost function ReplyAt(stop: Stop): Reply
      reads this
    {
      Reply(conversation, Pending(stop), accepted, promptRemaining, generatedEog, nEvalTotal)
    }

    /** Budget and conservation at the end of a call. */
    lemma AccountedAtEnd(stop: Stop)
      requires Wired() && ((Fits() && Ended(stop)) || (Overlong() && LongEnded(stop)))
      ensures Accounted(model, p, ctx.size, inp, ReplyAt(stop))
    {
      hide Ended, LongEnded;
      if Overlong() {
        AccountedLong(stop);
      } else {
        AccountedShort(stop);
      }
    }

    lemma AccountedLong(stop: Stop)
      requires Overlong() && LongEnded(stop)
      ensures Accounted(model, p, ctx.size, inp, ReplyAt(stop))
    {
      assert FeedEnd(0) == FirstChunk(p, |inp|, |inp|);
    }

    lemma AccountedShort(stop: Stop)
      requires Wired() && Fits() && Ended(stop)
      ensures Accounted(model, p, ctx.size, inp, ReplyAt(stop))
      ensures nEvalTotal == Max(0, |conversation| - Reuse())
    {
      hide FileInStep, OutputInStep, CacheInStep, LogitsInStep, Faithful, MayGoOn, PastInStep, Mirror, Squeezing;
    }

    /** However often the context was shifted: the first n_keep tokens and the newest ones, without gaps, fewer than n_ctx. */
    lemma CacheAtEnd(stop: Stop)
      requires Wired() && Fits() && Ended(stop)
      requires p.gaN == 1 && Clean() && !Trimmed() && |conversation| >= Reuse()
      ensures 0 <= nPast == Past(|conversation|) == |ctx.cells| < ctx.size
      ensures ctx.cells == Place(Window(conversation, nKeep, nPast))
      ensures |conversation| < ctx.size ==> ctx.cells == Place(conversation)
    {
      hide FileInStep, OutputInStep, Faithful, MayGoOn, Mirror, Squeezing;
      PastBounds(|conversation|);
      if |conversation| < ctx.size {
        PastPlain(|conversation|);
      }
    }

    /**
     Self-Extend from an empty context, at the end of a call: token j sits at j / g or has moved
     down, all whole blocks before the last chunk are grouped, and every generated token
     continues the squeezed history before it.
     */
    lemma GroupedAtEnd(stop: Stop)
      requires Groupable() && Fits() && Ended(stop)
      ensures groups * p.gaW <= |conversation|
      ensures ctx.cells == SelfExtend.Squeezed(conversation, groups, p.gaN, p.gaW / p.gaN)
      ensures nPast == |conversation| - groups * ((p.gaW / p.gaN) * (p.gaN - 1)) && gaI == groups * (p.gaW / p.gaN)
      ensures conversation != [] ==> ctx.logits == ctx.cells == GroupedCells(conversation)
      ensures FaithfulGrouped(accepted)
    {
      hide FileInStep, OutputInStep, RemainingInStep, Faithful, MayGoOn;
      hide Mirror, CacheInStep, LogitsInStep, PastInStep, FaithfulGrouped, LastStart;
      assert p.gaW == (p.gaW / p.gaN) * p.gaN;
    }

    /** The prompt's last token re-evaluated on top of its old cell: the cache then shows it twice. */
    lemma TrimmedCache(stop: Stop)
      requires Wired() && Fits() && Ended(stop)
      requires p.gaN == 1 && Clean() && Trimmed() && |inp| - 1 <= |conversation| < ctx.size
      ensures ctx.cells == Place(inp + conversation[|inp| - 1..])
      ensures |ctx.cells| == nPast + 1
    {
      hide FileInStep, OutputInStep, Faithful, MayGoOn, Mirror, Squeezing;
      PastPlain(|conversation|);
    }

    /** Past a wrapped limit there is a chunk of one token. */
    lemma {:induction false} WrappedChunks(n: nat)
      requires Wired() && n < |inp| && p.maxTokens > 0 && nMatch + p.maxTokens >= TWO_64
      ensures OneTokenChunks(n, |inp|) != []
      decreases |inp| - n
    {
      LimitIs();
      if FeedEnd(n) < |inp| {
        WrappedChunks(FeedEnd(n));
      }
    }

    /** Which logits the context is left with. */
    lemma LogitsAtEnd(stop: Stop)
      requires Wired() && Fits() && Ended(stop) && Heard()
      ensures |conversation| <= Reuse() ==> ctx.logits == logits0
      ensures p.gaN == 1 && Clean() && Reuse() < |conversation| < ctx.size ==> ctx.logits == ctx.cells
    {
      hide FileInStep, OutputInStep, RemainingInStep, Faithful, MayGoOn, Mirror, Squeezing, Flags, CacheInStep, SawEog;
      if |conversation| < ctx.size {
        PastPlain(|conversation|);
      }
    }

    /** The first generated token, when the session covered the whole input. */
    lemma FirstAtEnd(stop: Stop)
      requires Wired() && ((Fits() && Ended(stop)) || (Overlong() && LongEnded(stop)))
      requires Reuse() == |inp| < |accepted| && (CutsFirst() ==> FeedEnd(0) == |inp|)
      ensures accepted[|inp|] == model.predict(logits0, inp) && (Fits() ==> logits0 != [])
    {
      hide FileInStep, OutputInStep, RemainingInStep, CacheInStep, LogitsInStep, MayGoOn, Past, Mirror, Uncut, Squeezing;
    }

    lemma EogAtEnd(stop: Stop)
      requires Wired() && Ended(stop)
      ensures generatedEog <==> HasEnd(model, inp, accepted)
    {
      hide FileInStep, CacheInStep, LogitsInStep, Faithful, MayGoOn, PastInStep;
      hide Mirror, Squeezing, Stopped, OutputInStep, RemainingInStep, Shape;
    }

    /** How much of the prompt has been fed at the end. */
    lemma FedAtEnd(stop: Stop)
      requires Wired() && Fits() && Ended(stop)
      ensures nConsumed == PromptFed(p, Reuse(), |inp|)
    {
      hide Ended;
      EndedFacts(stop);
    }

    /** What a user sees is what was generated, after the one-token chunks of the prompt; the request decides whether there are any. */
    lemma OutputAtEnd(stop: Stop)
      requires Wired() && Fits() && Ended(stop)
      ensures var generated := accepted[Min(|accepted|, |inp|)..];
              && (output == generated <==> !EchoesPrompt(p, nMatch, Reuse(), |inp|))
              && |output| >= |generated| && output[|output| - |generated|..] == generated
    {
      hide Ended, OneTokenChunks, ChunkBoundary;
      OutputFacts(stop);
      EndedFacts(stop);
      FedAtEnd(stop);
      LimitIs();
      if p.maxTokens > 0 && nMatch + p.maxTokens >= TWO_64 {
        if nConsumed > 0 { WrappedChunks(0); }
        NoChunks();
      } else {
        OneTokenChunksEmpty(0, nConsumed);
      }
      var chunks := OneTokenChunks(0, nConsumed);
      assert chunks != [] ==> |chunks + accepted[nConsumed..]| > |accepted[nConsumed..]|;
    }

    lemma NoChunks()
      requires p.nBatch >= 1
      ensures OneTokenChunks(0, 0) == []
    {
    }

    lemma OutputFacts(stop: Stop)
      requires Wired() && Ended(stop)
      ensures nConsumed <= |inp| && nConsumed <= |accepted| && ChunkBoundary(0, nConsumed)
      ensures output == (if p.displayPrompt then OneTokenChunks(0, nConsumed) else []) + accepted[nConsumed..]
    {
      hide FileInStep, CacheInStep, LogitsInStep, Faithful, MayGoOn, PastInStep, Mirror, Squeezing, Stopped, Flags;
    }

    /** No chunk on the way from n to `upto` has a single token exactly when the last one has not. */
    lemma {:induction false} OneTokenChunksEmpty(n: nat, upto: nat)
      requires Wired() && n <= upto <= |inp| && ChunkBoundary(n, upto)
      requires p.maxTokens > 0 ==> upto <= FeedLimit()
      ensures OneTokenChunks(n, upto) == [] <==> n == upto || (p.nBatch >= 2 && (upto - n) % p.nBatch != 1)
      decreases upto - n
    {
      if n < upto {
        var e, b := FeedEnd(n), p.nBatch;
        OneTokenChunksEmpty(e, upto);
        hide OneTokenChunks, ChunkBoundary;
        if e == n + b {
          ModStep(upto - e, b);
          ModSmall(0, b);
        } else {
          ModSmall(upto - n, b);
        }
      }
    }

    lemma ModStep(a: nat, b: nat)
      requires b > 0
      ensures (a + b) % b == a % b
    {
      var q, q' := a / b, (a + b) / b;
      assert a == b * q + a % b && a + b == b * q' + (a + b) % b;
      assert b * (q + 1) == b * q + b;
      SelfExtend.MulMonotone(b, q' + 1, q + 1);
      SelfExtend.MulMonotone(b, q + 2, q');
      assert b * (q' + 1) == b * q' + b && b * (q + 2) == b * q + b + b;
    }

    lemma ModSmall(a: nat, b: nat)
      requires a < b
      ensures a % b == a
    {
    }

    /** `h`, fed so far, has gone on as the model says for as long as the context lasted. */
    lemma FedResumes(h: seq<Token>)
      requires Plain() && Faithful(accepted) && (accepted <= inp || inp <= accepted)
      requires h <= accepted && |h| <= ctx.size
      ensures Resumes(model, logits0, inp, Reuse(), h)
    {
      assert forall i :: 0 <= i <= |h| ==> h[..i] == accepted[..i];
      assert h <= inp || inp <= h;
      assert Faithful(h);
      FaithfulResumes(h);
    }

    /** A call that was cut off had not come to an end. */
    lemma NotEndedYet()
      requires Wired() && Fits() && Steady(embd)
      ensures p.maxTokens > 0 ==> |conversation| <= |inp| + p.maxTokens
      ensures Plain() ==> Resumes(model, logits0, inp, Reuse(), conversation[..Min(|conversation|, ctx.size)])
      ensures |conversation| > Reuse() ==> !HasEnd(model, inp, conversation)
    {
      hide FileInStep, OutputInStep, RemainingInStep, CacheInStep, LogitsInStep, Mirror, PastInStep, Squeezing;
      if Plain() {
        FedResumes(conversation[..Min(|conversation|, ctx.size)]);
      }
      hide Faithful, Plain;
      assert |conversation| > Reuse() ==> !SawEog(conversation);
    }

    /** A call that filled the context had not come to an end inside it. */
    lemma LongRun(stop: Stop)
      requires Plain() && Ended(stop) && |conversation| >= ctx.size - 1
      ensures var h := conversation[..ctx.size - 2];
              Resumes(model, logits0, inp, Reuse(), h) && !HasEnd(model, inp, h)
    {
      hide FileInStep, OutputInStep, RemainingInStep, CacheInStep, LogitsInStep, Mirror, PastInStep, Squeezing;
      var h, n := conversation[..ctx.size - 2], |conversation|;
      FedResumes(h);
      hide Faithful, Plain;
      assert !SawEog(conversation[..n - 1]) by {
        if stop != Evaluated {
          assert forall i :: 0 <= i < n - 1 ==> conversation[..n - 1][i] == conversation[i];
        }
      }
      assert forall i :: 0 <= i < |h| ==> h[i] == conversation[..n - 1][i];
    }

    /** Without a session path, or with a read-only one, nothing is written. */
    lemma FileUntouched(stop: Stop)
      requires Wired() && Fits() && (Ended(stop) || FileInStep())
      requires !pathGiven || p.cacheRo
      ensures file == file0
      ensures Ended(stop) ==> !pathSession || p.cacheRo
    {
    }
  }
}
