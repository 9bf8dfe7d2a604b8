/**
 A whole call of `main_` around the loop: load the session, choose the input,
 match the two, run, save.
 */
module Call {
  import opened Sequences
  import opened Wrappers
  import opened LlamaMemory
  import opened Completion
  import SelfExtend

  datatype Request = Request(
    p: Params,
    promptGiven: bool,     // the prompt text is not empty
    tokens: seq<Token>,    // the prompt text, tokenized
    pathGiven: bool)       // --prompt-cache

  datatype Outcome =
    | Done(reply: Reply, output: seq<Token>)
    | Error(code: int)
    | Trap                 // the instruction limit of the platform; nothing is kept

  /** `session_tokens` after loading. */
  function SessionOf(req: Request, file: Option<SessionFile>): seq<Token> {
    if req.pathGiven && file.Some? then file.value.tokens else []
  }

  /** `embd_inp`: the prompt, or the session itself when the prompt is empty. */
  function InputOf(model: Model, req: Request, session: seq<Token>): seq<Token> {
    var chosen := if req.promptGiven || session == [] then req.tokens else session;
    if chosen == [] && model.addBos then [model.bos] else chosen
  }

  /** Which of them: a prompt is never replaced by the session, and nothing at all becomes a BOS if the vocabulary has one. */
  lemma InputIs(model: Model, req: Request, file: Option<SessionFile>)
    ensures var session := SessionOf(req, file);
            var inp := InputOf(model, req, session);
            && (req.promptGiven && req.tokens != [] ==> inp == req.tokens)
            && (!req.promptGiven && session != [] ==> inp == session && req.pathGiven && file.Some? && session == file.value.tokens)
            && (req.tokens == [] && (req.promptGiven || session == []) ==> inp == if model.addBos then [model.bos] else [])
            && (!req.promptGiven && session == [] && req.tokens != [] ==> inp == req.tokens)
            && (req.pathGiven && file.Some? ==> session == file.value.tokens)
  {
  }

  /** n_keep is capped by the input; a smaller value also keeps the BOS token. */
  function KeepOf(model: Model, p: Params, inp: seq<Token>): nat {
    if p.nKeep < 0 || p.nKeep > |inp| then |inp| else p.nKeep + if model.addBos then 1 else 0
  }

  /** The session goes on beyond the whole input. */
  predicate Resent(inp: seq<Token>, session: seq<Token>) {
    inp < session
  }

  /** The session list when the loop is entered: a session that goes on beyond the input is cut before the input's last token. */
  function ListLeft(session: seq<Token>, inp: seq<Token>): seq<Token>
    requires inp != []
  {
    if Resent(inp, session) then session[..|inp| - 1] else session
  }

  /** How many tokens of the input are taken from the session. */
  function ReusedTokens(session: seq<Token>, inp: seq<Token>): (n: nat)
    requires inp != []
  {
    if Resent(inp, session) then |inp| - 1 else CommonPrefix(session, inp)
  }

  /** Lines 567-608: count the matching tokens, drop the cells behind them, and leave the last prompt token to be evaluated. */
  method MatchSession(ctx: Context, session: seq<Token>, inp: seq<Token>) returns (nMatch: nat, start: seq<Token>)
    requires inp != []
    modifies ctx
    ensures nMatch == CommonPrefix(session, inp)
    ensures start == ListLeft(session, inp)
    ensures ctx.logits == old(ctx.logits)
    ensures ctx.cells == if session == [] then old(ctx.cells) else RemoveSpan(old(ctx.cells), nMatch, -1)
  {
    nMatch := 0;
    start := session;
    if session != [] {
      for k := 0 to |session|
        invariant nMatch == k <= |inp|
        invariant session[..k] == inp[..k]
      {
        if nMatch >= |inp| || session[k] != inp[nMatch] {
          break;
        }
        nMatch := nMatch + 1;
      }
      ctx.SeqRm(nMatch, -1);
    }
    CommonPrefixIs(session, inp, nMatch);
    if nMatch == |inp| && |session| > |inp| {
      start := session[..|inp| - 1];
    }
  }

  /** What the matching phase hands to the loop. */
  lemma MatchedWires(session: seq<Token>, inp: seq<Token>, nMatch: nat, start: seq<Token>)
    requires inp != [] && nMatch == CommonPrefix(session, inp) && start == ListLeft(session, inp)
    ensures var reuse := Min(nMatch, |start|);
            && reuse == ReusedTokens(session, inp)
            && start[..reuse] == inp[..reuse]
            && (reuse < |start| && reuse < |inp| ==> start[reuse] != inp[reuse])
            && (reuse == |inp| ==> |start| == |inp|)
            && (nMatch != reuse ==> nMatch == |inp| == |start| + 1)
            && (nMatch != reuse <==> Resent(inp, session))
            && (reuse == |inp| <==> session == inp)
            && (!Resent(inp, session) && |start| == reuse <==> session <= inp)
  {
    if Resent(inp, session) {
      CommonPrefixIs(session, inp, |inp|);
      assert session[..|inp|] == inp;
      assert start == inp[..|inp| - 1];
    } else if nMatch == |inp| {
      assert session[..nMatch] == inp[..nMatch] == inp;
      assert |session| == |inp|;
    }
    if session <= inp {
      CommonPrefixIs(session, inp, |session|);
    }
    if nMatch == |inp| == |session| {
      assert session == session[..nMatch] == inp[..nMatch] == inp;
    }
  }

  // ----- what a call promises, in terms of its request

  /** The settings the source asserts, and an n_ctx `main_` accepts. */
  predicate Sound(size: nat, p: Params) {
    && 8 <= size <= INT_MAX && p.nBatch >= 1
    && p.gaN > 0 && (p.gaN != 1 ==> p.gaW % p.gaN == 0 && p.gaW > 0)
  }

  /** Inputs the loop may be given: not too long, or a session re-entered as a whole. */
  predicate Admitted(size: nat, req: Request, session: seq<Token>, inp: seq<Token>) {
    && 0 < |inp| <= INT_MAX
    && (|inp| <= size - 4 || (req.pathGiven && session == inp && |inp| <= size))
    && (!req.pathGiven ==> session == [])
  }

  /**
   Why such a call has ended: an evaluation met the end token or used up the budget, as many
   tokens are sampled as may be, a reverse prompt has come up, or the context is full and may
   not be shifted.
   */
  ghost predicate EndsBecause(model: Model, p: Params, size: nat, inp: seq<Token>, r: Reply) {
    || (r.pending == [] && (r.eog || (p.maxTokens > 0 && r.nEval == p.maxTokens)))
    || p.nPredict == 0 || (p.nPredict > 0 && |r.fed| == |inp| + p.nPredict)
    || (|r.fed| >= |inp| && model.antiprompt(r.fed))
    || (p.gaN == 1 && (!p.ctxShift || p.nPredict == -2) && |r.conversation| == size - 1)
  }

  /** Where a call whose input fits stands at its end: what it evaluated, how far it got, and whether it met an end token. */
  ghost predicate Counted(model: Model, p: Params, session: seq<Token>, inp: seq<Token>, r: Reply)
    requires inp != [] && p.nBatch >= 1
  {
    var reused := ReusedTokens(session, inp);
    && r.nEval == Max(0, |r.conversation| - reused)
    && (p.maxTokens > 0 ==> |r.fed| <= reused + p.maxTokens)
    && (r.eog <==> HasEnd(model, inp, r.fed))
    && (if StopsAtPrompt(model, p, inp, reused) then
          |r.conversation| == ProcessedThen(p, CommonPrefix(session, inp), |inp|)
        else
          |r.conversation| > reused || (|r.conversation| == |inp| && |r.fed| > |inp|))
  }

  /**
   The logits a call leaves in the context, which no session file holds: its own if it
   evaluated anything, and otherwise those it found.  If the session covered the input, the
   first generated token comes from those it found.
   */
  ghost predicate Hears(model: Model, p: Params, size: nat, session: seq<Token>, inp: seq<Token>, r: Reply,
                        logits: seq<Cell>, logits': seq<Cell>)
  {
    var first := FirstChunk(p, |inp|, |inp|);
    && (r.nEval == 0 ==> logits' == logits)
    && (r.nEval > 0 ==> logits' != [])
    && (session == inp && |inp| < |r.fed| && (first > size - 4 ==> first == |inp|) ==>
          r.fed[|inp|] == model.predict(logits, inp) && (|inp| <= size - 4 ==> logits != []))
  }

  /** The session covers the input, a token is to be sampled, and nothing has ever been decoded: the sampler aborts. */
  ghost predicate Mute(model: Model, size: nat, p: Params, session: seq<Token>, inp: seq<Token>, logits: seq<Cell>) {
    session == inp && |inp| <= size - 4 && logits == [] && !StopsAtPrompt(model, p, inp, |inp|)
  }

  /** The output is what was generated, unless prompt tokens are echoed: then they come before it. */
  predicate Shows(p: Params, session: seq<Token>, inp: seq<Token>, r: Reply, output: seq<Token>)
    requires inp != [] && p.nBatch >= 1
  {
    var generated := r.fed[Min(|r.fed|, |inp|)..];
    && (output == generated <==> !EchoesPrompt(p, CommonPrefix(session, inp), ReusedTokens(session, inp), |inp|))
    && |output| >= |generated| && output[|output| - |generated|..] == generated
  }

  /**
   Tokens and cells of the saved file agree: the session is a part of the input, or the
   call evaluates something behind the tokens the two have in common.
   */
  ghost predicate SavesAgree(model: Model, p: Params, session: seq<Token>, inp: seq<Token>)
    requires inp != [] && p.nBatch >= 1
  {
    var matched := CommonPrefix(session, inp);
    || session <= inp
    || (!Resent(inp, session)
        && !(StopsAtPrompt(model, p, inp, matched) && ProcessedThen(p, matched, |inp|) <= matched))
  }

  ghost predicate SavesAll(req: Request) {
    req.pathGiven && req.p.cacheAll && !req.p.cacheRo
  }

  /** Cells after a call without Self-Extend that found a coherent session and did not fill the context. */
  ghost predicate KeepsCells(p: Params, size: nat, session: seq<Token>, inp: seq<Token>, r: Reply, cells: seq<Cell>, logits': seq<Cell>)
    requires inp != []
  {
    var n := |r.conversation|;
    p.gaN == 1 && |inp| <= size - 4 && ReusedTokens(session, inp) <= n < size ==>
      && cells == Place(if Resent(inp, session) then inp + r.conversation[|inp| - 1..] else r.conversation)
      && (n > ReusedTokens(session, inp) ==> logits' == cells)
  }

  /** After any number of context shifts: the first n_keep tokens, a BOS included, and the newest ones. */
  ghost predicate Windowed(model: Model, p: Params, size: nat, input: nat, h: seq<Token>, cells: seq<Cell>) {
    var n, m := |h|, |cells|;
    var keep := if p.nKeep < 0 || p.nKeep > input then input else if model.addBos then p.nKeep + 1 else p.nKeep;
    && m == Remaining(size, keep, input, n) && m <= n && m < size
    && (m < n ==> keep < m && p.ctxShift && p.nPredict != -2)
    && cells == Place(if m < n then h[..keep] + h[n - (m - keep)..] else h)
  }

  ghost predicate KeepsWindow(model: Model, p: Params, size: nat, session: seq<Token>, inp: seq<Token>, r: Reply, cells: seq<Cell>)
    requires inp != []
  {
    p.gaN == 1 && |inp| <= size - 4 && !Resent(inp, session) && ReusedTokens(session, inp) <= |r.conversation| ==>
      Windowed(model, p, size, |inp|, r.conversation, cells)
  }

  /** The file after such a call. */
  ghost predicate KeepsFile(model: Model, size: nat, req: Request, session: seq<Token>, inp: seq<Token>, r: Reply, file': Option<SessionFile>)
    requires inp != [] && req.p.nBatch >= 1
  {
    var p, n := req.p, |r.conversation|;
    && (SavesAll(req) && (p.nPredict == 0 || (p.gaN == 1 && |inp| <= size - 4 && n < size)) ==>
          file'.Some? && (file'.value.cells == Place(file'.value.tokens) <==> SavesAgree(model, p, session, inp)))
    && (SavesAll(req) && p.nPredict == 0 ==>
          && file'.value.tokens == ListLeft(session, inp)
          && file'.value.cells == Place(inp[..CommonPrefix(session, inp)]))
  }

  /**
   Where there is no terminal save, because not all is to be cached or the context was shifted:
   the prompt's snapshot, if a token was sampled and the prompt was not in the session before.
   */
  ghost predicate KeepsPrompt(size: nat, req: Request, session: seq<Token>, inp: seq<Token>,
                              r: Reply, cells: seq<Cell>, file: Option<SessionFile>, file': Option<SessionFile>) {
    req.pathGiven && !req.p.cacheRo && |inp| <= size - 4 && req.p.gaN == 1
    && (!req.p.cacheAll || (!Resent(inp, session) && |cells| < |r.conversation|)) ==>
      file' == if CommonPrefix(session, inp) < |inp| < |r.fed| then Some(Snapshot(inp)) else file
  }

  ghost predicate Keeps(model: Model, size: nat, req: Request, session: seq<Token>, inp: seq<Token>,
                        r: Reply, cells: seq<Cell>, logits': seq<Cell>, file: Option<SessionFile>, file': Option<SessionFile>)
    requires inp != [] && req.p.nBatch >= 1
  {
    && KeepsPrompt(size, req, session, inp, r, cells, file, file')
    && KeepsCells(req.p, size, session, inp, r, cells, logits')
    && KeepsWindow(model, req.p, size, session, inp, r, cells)
    && KeepsFile(model, size, req, session, inp, r, file')
  }

  /** Where the chunk began that brought the tokens fed to n, once the whole input has been fed from an empty session. */
  function ChunkBefore(p: Params, input: nat, n: nat): nat
    requires p.nBatch >= 1 && 1 <= input <= n
  {
    if n == input then LastChunk(p, 0, input) else n - 1
  }

  /**
   A Self-Extend call from an empty session: the cache is the squeezed conversation, with all
   whole blocks grouped that lay before its last chunk, and every generated token continues
   the squeezed history before it.
   */
  ghost predicate Squeezes(model: Model, req: Request, inp: seq<Token>, r: Reply, cells: seq<Cell>, file': Option<SessionFile>)
    requires inp != [] && req.p.nBatch >= 1 && req.p.gaN > 0 && req.p.gaW > 0
  {
    var p, n := req.p, |r.conversation|;
    && (exists k: nat :: k * p.gaW <= n && cells == SelfExtend.Squeezed(r.conversation, k, p.gaN, p.gaW / p.gaN))
    && (n >= |inp| ==> cells == SelfExtend.GroupedUpTo(r.conversation, ChunkBefore(p, |inp|, n), p.gaN, p.gaW))
    && (forall i :: |inp| <= i < |r.fed| ==>
          r.fed[i] == model.predict(SelfExtend.GroupedUpTo(r.fed[..i], ChunkBefore(p, |inp|, i), p.gaN, p.gaW), r.fed[..i]))
    && (SavesAll(req) ==> file'.Some? && file'.value.tokens == r.conversation && file'.value.cells == cells)
  }

  /** The context has room for the budget, and the platform instructions enough. */
  predicate BudgetFits(size: nat, p: Params, session: seq<Token>, inp: seq<Token>, limit: nat)
    requires inp != []
  {
    && p.maxTokens > 0 && |inp| <= size - 4 && ReusedTokens(session, inp) + p.maxTokens < size
    && limit > |inp| + p.maxTokens + 1
    && (p.gaN == 1 || session == [])
  }

  /** A session that is re-entered in a single chunk to sample a single token. */
  predicate SamplesOnce(size: nat, req: Request, session: seq<Token>, inp: seq<Token>, limit: nat) {
    && req.pathGiven && session == inp && size - 4 < |inp| <= size && limit > |inp|
    && req.p.nPredict == 1 && req.p.ctxShift && FirstChunk(req.p, |inp|, |inp|) == |inp|
  }

  /** A call with a coherent session file, everything cached, no reverse prompts, and a prompt that is not re-sent too late. */
  ghost predicate PlainCall(model: Model, size: nat, req: Request, file: Option<SessionFile>) {
    var session := SessionOf(req, file);
    var inp := InputOf(model, req, session);
    && (file.Some? ==> Coherent(file.value) && |session| <= size)
    && inp != [] && PlainRun(model, size, req, session, inp)
  }

  ghost predicate PlainRun(model: Model, size: nat, req: Request, session: seq<Token>, inp: seq<Token>) {
    && SavesAll(req)
    && req.p.gaN == 1 && req.p.nPredict != 0
    && |inp| <= size - 4
    && !Resent(inp, session)
    && forall h {:trigger model.antiprompt(h)} :: !model.antiprompt(h)
  }

  /** A generation that has not ended after `h`, as long as the context lasts. */
  ghost predicate StillGoing(model: Model, size: nat, inp: seq<Token>, reused: nat, logits: seq<Cell>, h: seq<Token>) {
    && Resumes(model, logits, inp, reused, h[..Min(|h|, size)])
    && (|h| > reused ==> !HasEnd(model, inp, h))
  }

  /**
   What a plain call promises that finds `logits` in the context and leaves `logits'` there.
   Within the context: `Replied`, and the session file is the snapshot of the conversation.
   Past it: the generation had not ended inside.  Cut off by the instruction limit: it was
   still going, and the budget was too large; or there was nothing to sample from.
   */
  ghost predicate Promise(model: Model, size: nat, p: Params, inp: seq<Token>, reused: nat, logits: seq<Cell>, limit: nat,
                          out: Outcome, logits': seq<Cell>, file': Option<SessionFile>)
    requires size >= 2
  {
    match out
    case Error(_) => false
    case Trap =>
      || (reused == |inp| && logits == [])
      || (&& (p.maxTokens > 0 ==> limit <= |inp| + p.maxTokens + 1)
          && exists h :: |h| + 1 >= limit && StillGoing(model, size, inp, reused, logits, h))
    case Done(r, _) =>
      if |r.conversation| < size - 1 then
        && Replied(model, p, inp, reused, logits, r) && file' == Some(Snapshot(r.conversation))
        && logits' == (if |r.conversation| > reused then Place(r.conversation) else logits)
      else
        StillGoing(model, size, inp, reused, logits, r.conversation[..size - 2])
  }

  // ----- from the matched session to the loop

  /** The cells are those of the session that was loaded. */
  ghost predicate Loaded(ctx: Context, session: seq<Token>)
    reads ctx
  {
    ctx.cells == Place(session)
  }

  lemma LoadedMeans(ctx: Context, session: seq<Token>)
    ensures Loaded(ctx, session) <==> ctx.cells == Place(session)
  {
    hide Place;
  }

  /** The object that runs the loop, as the matching phase leaves it. */
  ghost predicate Ready(c: Generation, req: Request, session: seq<Token>, inp: seq<Token>)
  {
    && c.p == req.p && c.inp == inp && inp != [] && c.pathGiven == req.pathGiven
    && c.nKeep == KeepOf(c.model, req.p, inp)
    && c.start == ListLeft(session, inp) && c.nMatch == CommonPrefix(session, inp)
    && c.Wired() && (c.Trimmed() <==> Resent(inp, session)) && c.Reuse() == ReusedTokens(session, inp)
    && (c.Reuse() == |inp| <==> session == inp)
    && (|inp| > c.ctx.size - 4 ==> c.Overlong())
  }

  method Start(ctx: Context, model: Model, req: Request, file: Option<SessionFile>, session: seq<Token>, inp: seq<Token>)
    returns (c: Generation)
    requires Sound(ctx.size, req.p) && Admitted(ctx.size, req, session, inp)
    modifies ctx
    ensures fresh(c) && c.ctx == ctx && c.model == model && c.file0 == c.file == file
    ensures Ready(c, req, session, inp)
    ensures c.embd == [] && c.conversation == [] && c.accepted == [] && c.nConsumed == 0 && c.nSessionConsumed == 0
    ensures c.session == c.start && c.pathSession == req.pathGiven && c.nRemain == req.p.nPredict
    ensures c.Wired() ==> c.Steady([])
    ensures c.Overlong() ==> c.Long([])
    ensures c.logits0 == old(ctx.logits) && c.Heard()
    ensures old(Loaded(ctx, session)) && c.Wired() ==> c.Clean() && ctx.cells == Place(inp[..CommonPrefix(session, inp)])
    ensures old(Loaded(ctx, session)) && session == [] ==> c.cells0 == []
    ensures PlainRun(model, ctx.size, req, session, inp) && old(Loaded(ctx, session)) ==> c.Plain()
  {
    hide *;
    ghost var loaded := Loaded(ctx, session);
    LoadedMeans(ctx, session);
    AdmittedMeans(ctx.size, req, session, inp);
    var nMatch, start := MatchSession(ctx, session, inp);
    if loaded {
      MatchedCells(session, inp, nMatch);
    }
    NothingToDrop(nMatch);
    KeepBound(model, req.p, inp);
    c := new Generation(ctx, req.p, model, inp, nMatch, KeepOf(model, req.p, inp), req.pathGiven, start, file,
      if req.promptGiven then req.tokens else []);
    StartsReady(c, req, session);
    if loaded {
      StartsClean(c);
    }
    if PlainRun(model, ctx.size, req, session, inp) && loaded {
      StartsPlain(c, req, session);
    }
  }

  lemma AdmittedMeans(size: nat, req: Request, session: seq<Token>, inp: seq<Token>)
    requires Admitted(size, req, session, inp)
    ensures inp != []
  {
  }

  /** Of a loaded session the matching cells stay. */
  lemma MatchedCells(session: seq<Token>, inp: seq<Token>, nMatch: nat)
    requires nMatch == CommonPrefix(session, inp)
    ensures nMatch <= |session| && nMatch <= |inp|
    ensures RemoveSpan(Place(session), nMatch, -1) == Place(inp[..nMatch]) == Place(session[..nMatch])
    ensures session == [] ==> Place(session) == Place(inp[..nMatch]) == []
  {
    assert session[..nMatch] == inp[..nMatch];
    KeepPrefix(session, nMatch);
  }

  lemma NothingToDrop(n: nat)
    ensures RemoveSpan([], n, -1) == [] == Place([])
  {
  }

  lemma KeepBound(model: Model, p: Params, inp: seq<Token>)
    ensures KeepOf(model, p, inp) <= |inp| + 1
  {
  }

  lemma StartsReady(c: Generation, req: Request, session: seq<Token>)
    requires Sound(c.ctx.size, req.p) && Admitted(c.ctx.size, req, session, c.inp)
    requires c.p == req.p && c.pathGiven == req.pathGiven && c.nKeep == KeepOf(c.model, req.p, c.inp)
    requires c.nMatch == CommonPrefix(session, c.inp) && c.start == ListLeft(session, c.inp)
    ensures Ready(c, req, session, c.inp)
  {
    MatchedWires(session, c.inp, c.nMatch, c.start);
    if session == c.inp {
      CommonPrefixIs(session, c.inp, |c.inp|);
    }
  }

  lemma StartsClean(c: Generation)
    requires c.nMatch <= |c.inp| && c.cells0 == Place(c.inp[..c.nMatch])
    ensures c.Wired() ==> c.Clean()
  {
    hide Place;
  }

  lemma StartsPlain(c: Generation, req: Request, session: seq<Token>)
    requires Ready(c, req, session, c.inp) && c.Clean()
    requires PlainRun(c.model, c.ctx.size, req, session, c.inp)
    ensures c.Plain()
  {
  }

  // ----- from the end of the loop to the promises

  /** What the terminal save leaves in the file. */
  ghost function SavedAt(c: Generation): Option<SessionFile>
    reads c, c.ctx
  {
    if c.pathSession && c.p.cacheAll && !c.p.cacheRo then Some(SessionFile(c.session, c.ctx.cells)) else c.file
  }

  /** How the loop can end without an error. */
  ghost predicate OverAt(c: Generation, stop: Stop)
    reads c, c.ctx
  {
    && c.Wired() && stop in {Evaluated, ContextFull, Finished}
    && (c.Fits() ==> c.Ended(stop)) && (c.Overlong() ==> c.LongEnded(stop))
  }

  lemma Accounts(c: Generation, stop: Stop, req: Request, session: seq<Token>)
    requires Ready(c, req, session, c.inp) && OverAt(c, stop)
    ensures Accounted(c.model, c.p, c.ctx.size, c.inp, c.ReplyAt(stop))
  {
    hide Generation.Ended, Generation.LongEnded, Generation.Wired;
    c.AccountedAtEnd(stop);
  }

  lemma Counts(c: Generation, stop: Stop, req: Request, session: seq<Token>)
    requires Ready(c, req, session, c.inp) && OverAt(c, stop) && c.Fits() && req.p.nBatch >= 1
    ensures Counted(c.model, c.p, session, c.inp, c.ReplyAt(stop))
    ensures Shows(c.p, session, c.inp, c.ReplyAt(stop), c.output)
  {
    hide Generation.Ended, StopsAtPrompt, ProcessedThen, EchoesPrompt, HasEnd;
    c.ProcessedAtEnd(stop);
    c.AccountedShort(stop);
    c.EndedFacts(stop);
    c.OutputAtEnd(stop);
    c.EogAtEnd(stop);
  }

  lemma EndsHere(c: Generation, stop: Stop)
    requires OverAt(c, stop) && c.Fits()
    ensures EndsBecause(c.model, c.p, c.ctx.size, c.inp, c.ReplyAt(stop))
  {
    hide Generation.Ended, Generation.LongEnded, Generation.Wired;
    c.EndsFor(stop);
  }

  /** The path is there as long as nothing was shifted. */
  lemma PathStays(c: Generation, stop: Stop)
    requires OverAt(c, stop) && c.Fits() && c.pathGiven && (c.p.gaN != 1 || |c.conversation| < c.ctx.size)
    ensures c.pathSession
  {
    if c.p.gaN == 1 {
      c.PastPlain(|c.conversation|);
    }
  }

  lemma CellsKept(c: Generation, stop: Stop, req: Request, session: seq<Token>)
    requires Ready(c, req, session, c.inp) && OverAt(c, stop) && c.Fits() && c.Clean() && c.p.gaN == 1
    requires c.Reuse() <= |c.conversation| < c.ctx.size
    ensures |c.inp| - 1 <= |c.conversation| || !Resent(c.inp, session)
    ensures c.ctx.cells == Place(if Resent(c.inp, session) then c.inp + c.conversation[|c.inp| - 1..] else c.conversation)
    ensures c.Heard() && |c.conversation| > c.Reuse() ==> c.ctx.logits == c.ctx.cells
  {
    hide Generation.Ended, Place, Generation.Kept;
    if c.Heard() { c.LogitsAtEnd(stop); }
    if c.Trimmed() {
      c.TrimmedCache(stop);
    } else {
      c.CacheAtEnd(stop);
    }
  }

  lemma WindowedIs(model: Model, p: Params, size: nat, inp: seq<Token>, h: seq<Token>, cells: seq<Cell>, keep: nat)
    requires keep == KeepOf(model, p, inp) && |cells| < size && |cells| == Remaining(size, keep, |inp|, |h|)
    requires |cells| == |h| || keep < |cells| < |h|
    requires |cells| != |h| ==> p.ctxShift && p.nPredict != -2
    requires cells == Place(Window(h, keep, |cells|))
    ensures Windowed(model, p, size, |inp|, h, cells)
  {
    hide Place, Remaining;
  }

  /** The window of a conversation, whether it was shifted or not. */
  lemma WindowKept(c: Generation, stop: Stop, req: Request, session: seq<Token>)
    requires Ready(c, req, session, c.inp) && OverAt(c, stop) && c.Fits() && c.Clean() && c.p.gaN == 1
    requires !Resent(c.inp, session) && c.Reuse() <= |c.conversation|
    ensures Windowed(c.model, c.p, c.ctx.size, |c.inp|, c.conversation, c.ctx.cells)
  {
    hide Generation.Ended, Place, Generation.Kept, Generation.Past, Remaining, KeepOf, Windowed, Window, Generation.Clean;
    c.CacheAtEnd(stop);
    c.PastBounds(|c.conversation|);
    c.PastIsRemaining(|c.conversation|);
    c.EndsFor(stop);
    WindowedIs(c.model, c.p, c.ctx.size, c.inp, c.conversation, c.ctx.cells, c.nKeep);
  }

  lemma FileKept(c: Generation, stop: Stop, req: Request, session: seq<Token>)
    requires Ready(c, req, session, c.inp) && OverAt(c, stop) && c.Fits() && c.Clean() && c.p.gaN == 1
    requires SavesAll(req) && |c.conversation| < c.ctx.size && req.p.nBatch >= 1
    ensures SavedAt(c) == Some(SessionFile(c.session, c.ctx.cells))
    ensures c.ctx.cells == Place(c.session) <==> SavesAgree(c.model, c.p, session, c.inp)
  {
    PathStays(c, stop);
    hide Generation.Ended, StopsAtPrompt, ProcessedThen, Place;
    c.CoherentAtEnd(stop);
    MatchedWires(session, c.inp, c.nMatch, c.start);
  }

  /** The loop was not entered. */
  lemma NothingKept(c: Generation, req: Request, session: seq<Token>)
    requires Ready(c, req, session, c.inp) && SavesAll(req) && c.p.nPredict == 0 && c.p.nBatch >= 1
    requires c.pathSession && c.session == c.start && c.ctx.cells == Place(c.inp[..c.nMatch])
    ensures SavedAt(c) == Some(SessionFile(ListLeft(session, c.inp), Place(c.inp[..CommonPrefix(session, c.inp)])))
    ensures c.ctx.cells == Place(c.session) <==> SavesAgree(c.model, c.p, session, c.inp)
  {
    hide Place;
    MatchedWires(session, c.inp, c.nMatch, c.start);
    c.PlaceInjective(c.inp[..c.nMatch], c.session);
  }

  lemma AllKept(c: Generation, stop: Stop, req: Request, session: seq<Token>)
    requires Ready(c, req, session, c.inp) && OverAt(c, stop) && c.Clean() && c.Heard()
    requires c.p.nPredict == 0 ==>
               && c.conversation == [] && c.pathSession == req.pathGiven && c.session == c.start
               && c.ctx.cells == Place(c.inp[..c.nMatch])
    requires c.p.nBatch >= 1
    ensures Keeps(c.model, c.ctx.size, req, session, c.inp, c.ReplyAt(stop), c.ctx.cells, c.ctx.logits, c.file0, SavedAt(c))
  {
    hide OverAt, KeepsPrompt, KeepsCells, KeepsWindow, KeepsFile, Generation.Heard, Generation.Clean;
    CellsKeptIs(c, stop, req, session);
    WindowKeptIs(c, stop, req, session);
    FileKeptIs(c, stop, req, session);
    PromptKeptIs(c, stop, req, session);
  }

  lemma PromptKeptIs(c: Generation, stop: Stop, req: Request, session: seq<Token>)
    requires Ready(c, req, session, c.inp) && OverAt(c, stop) && c.Clean()
    ensures KeepsPrompt(c.ctx.size, req, session, c.inp, c.ReplyAt(stop), c.ctx.cells, c.file0, SavedAt(c))
  {
    hide OverAt, Place, Snapshot, Generation.Clean, Generation.Overlong;
    if req.pathGiven && !req.p.cacheRo && c.Fits() && c.p.gaN == 1
       && (!req.p.cacheAll || (!Resent(c.inp, session) && |c.ctx.cells| < |c.conversation|)) {
      FirstSaveKept(c, stop);
      if req.p.cacheAll {
        PathGone(c, stop);
      }
    }
  }

  lemma FirstSaveKept(c: Generation, stop: Stop)
    requires OverAt(c, stop) && c.Fits() && c.pathGiven && !c.p.cacheRo && c.Clean() && c.p.gaN == 1
    ensures c.file == if c.nMatch < |c.inp| < |c.accepted| then Some(Snapshot(c.inp)) else c.file0
  {
    hide Generation.Ended, Place;
    c.FirstSaveAtEnd(stop);
  }

  /** After a shift there is no path to save to. */
  lemma PathGone(c: Generation, stop: Stop)
    requires OverAt(c, stop) && c.Fits() && c.Clean() && c.p.gaN == 1 && !c.Trimmed() && |c.ctx.cells| < |c.conversation|
    ensures !c.pathSession
  {
    hide Generation.Ended, Place;
    if |c.conversation| >= c.Reuse() {
      c.CacheAtEnd(stop);
    } else {
      c.ShortCells(stop);
    }
    c.PathAtEnd(stop);
  }

  lemma CellsKeptIs(c: Generation, stop: Stop, req: Request, session: seq<Token>)
    requires Ready(c, req, session, c.inp) && OverAt(c, stop) && c.Clean() && c.Heard()
    ensures KeepsCells(c.p, c.ctx.size, session, c.inp, c.ReplyAt(stop), c.ctx.cells, c.ctx.logits)
  {
    hide OverAt, Place, Generation.Heard, Generation.Clean, Generation.Wired, Generation.Overlong;
    if c.p.gaN == 1 && c.Fits() && c.Reuse() <= |c.conversation| < c.ctx.size {
      CellsKept(c, stop, req, session);
    }
  }

  lemma WindowKeptIs(c: Generation, stop: Stop, req: Request, session: seq<Token>)
    requires Ready(c, req, session, c.inp) && OverAt(c, stop) && c.Clean()
    ensures KeepsWindow(c.model, c.p, c.ctx.size, session, c.inp, c.ReplyAt(stop), c.ctx.cells)
  {
    hide OverAt, Windowed, Generation.Clean, Generation.Wired, Generation.Overlong;
    if c.p.gaN == 1 && c.Fits() && !Resent(c.inp, session) && c.Reuse() <= |c.conversation| {
      WindowKept(c, stop, req, session);
    }
  }

  lemma FileKeptIs(c: Generation, stop: Stop, req: Request, session: seq<Token>)
    requires Ready(c, req, session, c.inp) && OverAt(c, stop) && c.Clean()
    requires c.p.nPredict == 0 ==>
               && c.conversation == [] && c.pathSession == req.pathGiven && c.session == c.start
               && c.ctx.cells == Place(c.inp[..c.nMatch])
    requires c.p.nBatch >= 1
    ensures KeepsFile(c.model, c.ctx.size, req, session, c.inp, c.ReplyAt(stop), SavedAt(c))
  {
    hide OverAt, Place, SavesAgree, Generation.Clean, Generation.Wired, Generation.Overlong;
    if SavesAll(req) {
      if c.p.nPredict == 0 {
        NothingKept(c, req, session);
      } else if c.p.gaN == 1 && c.Fits() && |c.conversation| < c.ctx.size {
        FileKept(c, stop, req, session);
      }
    }
  }

  /** The start of a chunk in terms of the request. */
  lemma ChunkBeforeIs(c: Generation, stop: Stop, n: nat)
    requires OverAt(c, stop) && c.Groupable() && c.Fits() && |c.inp| <= n <= |c.accepted|
    ensures c.p.nBatch >= 1 && c.LastStart(n) == ChunkBefore(c.p, |c.inp|, n)
  {
    hide Generation.Ended, Generation.ChunkStart;
    c.EndedFacts(stop);
    if n == |c.inp| {
      c.ChunkStartClosed(0);
    }
  }

  lemma SqueezedCells(c: Generation, stop: Stop)
    requires OverAt(c, stop) && c.Groupable() && c.Fits() && c.p.nBatch >= 1 && c.p.gaW > 0 && c.p.gaN > 0
    ensures exists k: nat ::
              && k * c.p.gaW <= |c.conversation|
              && c.ctx.cells == SelfExtend.Squeezed(c.conversation, k, c.p.gaN, c.p.gaW / c.p.gaN)
    ensures |c.conversation| >= |c.inp| ==>
              c.ctx.cells == SelfExtend.GroupedUpTo(c.conversation, ChunkBefore(c.p, |c.inp|, |c.conversation|), c.p.gaN, c.p.gaW)
  {
    hide Generation.Ended, SelfExtend.GroupedUpTo, SelfExtend.Squeezed, Generation.LastStart, ChunkBefore;
    c.GroupedAtEnd(stop);
    c.EndedFacts(stop);
    if |c.conversation| >= |c.inp| {
      ChunkBeforeIs(c, stop, |c.conversation|);
    }
  }

  lemma SqueezedTokens(c: Generation, stop: Stop, i: nat)
    requires OverAt(c, stop) && c.Groupable() && c.Fits() && c.p.nBatch >= 1 && c.p.gaW > 0 && c.p.gaN > 0
    requires |c.inp| <= i < |c.accepted|
    ensures c.accepted[i] ==
              c.model.predict(SelfExtend.GroupedUpTo(c.accepted[..i], ChunkBefore(c.p, |c.inp|, i), c.p.gaN, c.p.gaW), c.accepted[..i])
  {
    hide Generation.Ended, SelfExtend.GroupedUpTo, SelfExtend.Squeezed, Generation.LastStart, ChunkBefore;
    c.GroupedAtEnd(stop);
    ChunkBeforeIs(c, stop, i);
  }

  lemma AllSqueezed(c: Generation, stop: Stop, req: Request, session: seq<Token>)
    requires Ready(c, req, session, c.inp) && OverAt(c, stop) && c.Groupable() && c.Fits()
    requires c.p.nBatch >= 1 && c.p.gaW > 0 && c.p.gaN > 0
    ensures Squeezes(c.model, req, c.inp, c.ReplyAt(stop), c.ctx.cells, SavedAt(c))
  {
    hide OverAt, SelfExtend.GroupedUpTo, SelfExtend.Squeezed, ChunkBefore, Generation.Wired;
    SqueezedCells(c, stop);
    forall i | |c.inp| <= i < |c.accepted|
      ensures c.accepted[i] ==
                c.model.predict(SelfExtend.GroupedUpTo(c.accepted[..i], ChunkBefore(c.p, |c.inp|, i), c.p.gaN, c.p.gaW), c.accepted[..i])
    {
      SqueezedTokens(c, stop, i);
    }
    if SavesAll(req) {
      SqueezedFile(c, stop);
    }
  }

  lemma SqueezedFile(c: Generation, stop: Stop)
    requires OverAt(c, stop) && c.Groupable() && c.Fits()
    requires c.pathGiven && c.p.cacheAll && !c.p.cacheRo
    ensures c.pathSession && c.session == c.conversation
  {
    PathStays(c, stop);
    c.MirrorAtEnd(stop);
  }

  lemma AtTrap(c: Generation, limit: nat)
    requires c.Plain()
    requires (c.Steady(c.embd) && |c.conversation| + 1 >= limit) || (c.logits0 == [] && c.Reuse() == |c.inp|)
    ensures forall l, f :: Promise(c.model, c.ctx.size, c.p, c.inp, c.Reuse(), c.logits0, limit, Trap, l, f)
  {
    if c.logits0 != [] || c.Reuse() != |c.inp| {
      c.NotEndedYet();
      assert StillGoing(c.model, c.ctx.size, c.inp, c.Reuse(), c.logits0, c.conversation);
    }
  }

  /** A call whose budget fits is not cut off. */
  lemma NotTrapped(c: Generation, req: Request, session: seq<Token>, limit: nat)
    requires Ready(c, req, session, c.inp) && BudgetFits(c.ctx.size, c.p, session, c.inp, limit)
    ensures c.Fits() && !(c.Steady(c.embd) && |c.conversation| + 1 >= limit)
  {
    if c.Steady(c.embd) {
      hide Generation.Steady;
      c.NotEndedYet();
    }
  }

  /** A decode can only fail to find a slot past the context. */
  lemma NotFailed(c: Generation, req: Request, session: seq<Token>, limit: nat)
    requires Ready(c, req, session, c.inp) && BudgetFits(c.ctx.size, c.p, session, c.inp, limit)
    requires if c.p.gaN == 1 then c.Clean() else c.cells0 == []
    requires |c.accepted| <= c.Reuse() + c.p.maxTokens
    ensures c.CacheKnown(|c.accepted|) || (c.Groupable() && |c.accepted| <= c.ctx.size)
  {
    if c.p.gaN == 1 {
      c.PastPlain(|c.accepted|);
    }
  }

  lemma NotFailedPlain(c: Generation)
    requires c.Plain()
    ensures c.CacheKnown(|c.accepted|)
  {
  }

  lemma FileSame(c: Generation, req: Request, session: seq<Token>, stop: Stop)
    requires Ready(c, req, session, c.inp) && (!req.pathGiven || req.p.cacheRo)
    requires c.Fits() ==> c.Ended(stop) || c.FileInStep()
    requires c.p.cacheRo ==> c.file == c.file0
    ensures c.file == c.file0
    ensures OverAt(c, stop) ==> SavedAt(c) == c.file0
  {
    if !c.p.cacheRo {
      c.FileUntouched(stop);
    }
  }

  lemma AtEnd(c: Generation, stop: Stop, req: Request, session: seq<Token>, limit: nat)
    requires Ready(c, req, session, c.inp) && OverAt(c, stop) && c.Plain() && SavesAll(req) && c.Heard()
    ensures Promise(c.model, c.ctx.size, c.p, c.inp, c.Reuse(), c.logits0, limit,
                    Done(c.ReplyAt(stop), c.output), c.ctx.logits, SavedAt(c))
  {
    hide Generation.Ended, Replied, Place, Generation.Heard;
    if |c.conversation| < c.ctx.size - 1 {
      c.EndMeansServed(stop);
      c.SavedSnapshot(stop);
      c.LogitsAtEnd(stop);
    } else {
      c.LongRun(stop);
      var h := c.conversation[..c.ctx.size - 2];
      assert h[..Min(|h|, c.ctx.size)] == h;
    }
  }

  /** Lines 1400-1483: save, and hand the results to the caller. */
  method Conclude(c: Generation, stop: Stop) returns (out: Outcome, file': Option<SessionFile>)
    modifies c`file
    ensures out == Done(old(c.ReplyAt(stop)), old(c.output)) && file' == old(SavedAt(c))
  {
    if c.pathSession && c.p.cacheAll && !c.p.cacheRo {
      c.file := Some(SessionFile(c.session, c.ctx.cells));
    }
    file' := c.file;
    out := Done(
      Reply(c.conversation, if stop == Evaluated then [] else c.embd, c.accepted, c.promptRemaining, c.generatedEog, c.nEvalTotal),
      c.output);
  }

  /** What `Run` and `Perform` promise of a call that comes to an end. */
  ghost predicate Answers(model: Model, size: nat, p: Params, session: seq<Token>, inp: seq<Token>, r: Reply, output: seq<Token>,
                          logits: seq<Cell>, logits': seq<Cell>)
    requires inp != [] && p.nBatch >= 1
  {
    && Accounted(model, p, size, inp, r) && Hears(model, p, size, session, inp, r, logits, logits')
    && (|inp| <= size - 4 ==>
          && Counted(model, p, session, inp, r) && Shows(p, session, inp, r, output)
          && EndsBecause(model, p, size, inp, r))
  }

  /** The same, of a call that was not cut off and found a coherent session. */
  ghost predicate Remembers(model: Model, size: nat, req: Request, session: seq<Token>, inp: seq<Token>,
                            r: Reply, cells: seq<Cell>, logits': seq<Cell>, file: Option<SessionFile>, file': Option<SessionFile>)
    requires inp != [] && Sound(size, req.p)
  {
    && Keeps(model, size, req, session, inp, r, cells, logits', file, file')
    && (req.p.gaN != 1 && session == [] && |inp| <= size - 4 ==> Squeezes(model, req, inp, r, cells, file'))
  }

  lemma AnswersAtEnd(c: Generation, stop: Stop, req: Request, session: seq<Token>)
    requires Ready(c, req, session, c.inp) && OverAt(c, stop) && c.p.nBatch >= 1 && c.Heard()
    ensures Answers(c.model, c.ctx.size, c.p, session, c.inp, c.ReplyAt(stop), c.output, c.logits0, c.ctx.logits)
  {
    hide OverAt, Accounted, Counted, Shows, Hears, EndsBecause, Generation.Wired, Generation.Overlong, Generation.Heard;
    Accounts(c, stop, req, session);
    HearsAtEnd(c, stop, req, session);
    if c.Fits() {
      Counts(c, stop, req, session);
      EndsHere(c, stop);
    }
  }

  lemma HearsAtEnd(c: Generation, stop: Stop, req: Request, session: seq<Token>)
    requires Ready(c, req, session, c.inp) && OverAt(c, stop) && c.Heard()
    ensures Hears(c.model, c.p, c.ctx.size, session, c.inp, c.ReplyAt(stop), c.logits0, c.ctx.logits)
  {
    hide Generation.Ended, Generation.LongEnded;
    if session == c.inp && |c.inp| < |c.accepted| && (c.CutsFirst() ==> c.FeedEnd(0) == |c.inp|) {
      c.FirstAtEnd(stop);
    }
    CommonPrefixWhole(session, c.inp);
  }

  lemma CommonPrefixWhole(session: seq<Token>, inp: seq<Token>)
    ensures session == inp ==> CommonPrefix(session, inp) == |inp|
  {
    if session == inp {
      CommonPrefixIs(session, inp, |inp|);
    }
  }

  lemma RemembersAtEnd(c: Generation, stop: Stop, req: Request, session: seq<Token>)
    requires Ready(c, req, session, c.inp) && OverAt(c, stop) && c.Clean() && Sound(c.ctx.size, req.p) && c.Heard()
    requires session == [] ==> c.cells0 == []
    requires c.p.nPredict == 0 ==>
               && c.conversation == [] && c.pathSession == req.pathGiven && c.session == c.start
               && c.ctx.cells == Place(c.inp[..c.nMatch])
    ensures Remembers(c.model, c.ctx.size, req, session, c.inp, c.ReplyAt(stop), c.ctx.cells, c.ctx.logits, c.file0, SavedAt(c))
  {
    hide OverAt, Place, Keeps, Squeezes, Generation.Clean, Generation.Heard;
    AllKept(c, stop, req, session);
    if c.p.gaN != 1 && session == [] && c.Fits() {
      AllSqueezed(c, stop, req, session);
    }
  }

  lemma ReadyMeans(c: Generation, req: Request, session: seq<Token>, inp: seq<Token>, limit: nat)
    requires Ready(c, req, session, inp)
    ensures c.Wired() && c.inp == inp != [] && c.p == req.p && c.p.nBatch >= 1 && c.nMatch == CommonPrefix(session, inp)
    ensures !Resent(inp, session) ==> ReusedTokens(session, inp) == CommonPrefix(session, inp)
    ensures SamplesOnce(c.ctx.size, req, session, inp, limit) ==> c.OneSample() && limit > |c.inp| && session == inp
    ensures c.Reuse() == |inp| <==> session == inp
  {
  }

  lemma PlainMeans(model: Model, size: nat, req: Request, session: seq<Token>, inp: seq<Token>)
    requires PlainRun(model, size, req, session, inp)
    ensures SavesAll(req) && !Resent(inp, session)
  {
  }

  lemma OnEnd(c: Generation, stop: Stop, req: Request, session: seq<Token>, limit: nat, loaded: bool, plain: bool)
    requires Ready(c, req, session, c.inp) && Sound(c.ctx.size, req.p)
    requires stop in {Evaluated, ContextFull, Finished}
    requires (c.Fits() ==> c.Ended(stop)) && (c.Overlong() ==> c.LongEnded(stop))
    requires c.p.nPredict == 0 ==> c.conversation == [] && c.pathSession == req.pathGiven && c.session == c.start
    requires loaded ==> c.Clean() && (session == [] ==> c.cells0 == [])
    requires loaded && c.p.nPredict == 0 ==> c.ctx.cells == Place(c.inp[..c.nMatch])
    requires c.p.cacheRo ==> c.file == c.file0
    requires plain ==> c.Plain() && PlainRun(c.model, c.ctx.size, req, session, c.inp)
    requires c.Heard()
    ensures Answers(c.model, c.ctx.size, c.p, session, c.inp, c.ReplyAt(stop), c.output, c.logits0, c.ctx.logits)
    ensures !Mute(c.model, c.ctx.size, c.p, session, c.inp, c.logits0)
    ensures !req.pathGiven || req.p.cacheRo ==> SavedAt(c) == c.file0
    ensures loaded ==> Remembers(c.model, c.ctx.size, req, session, c.inp, c.ReplyAt(stop), c.ctx.cells, c.ctx.logits, c.file0, SavedAt(c))
    ensures plain ==>
              Promise(c.model, c.ctx.size, c.p, c.inp, CommonPrefix(session, c.inp), c.logits0, limit,
                      Done(c.ReplyAt(stop), c.output), c.ctx.logits, SavedAt(c))
  {
    hide *;
    ReadyMeans(c, req, session, c.inp, limit);
    OverIs(c, stop);
    AnswersAtEnd(c, stop, req, session);
    NotMute(c.model, c.ctx.size, c.p, session, c.inp, c.ReplyAt(stop), c.output, c.logits0, c.ctx.logits);
    if !req.pathGiven || req.p.cacheRo {
      FileSame(c, req, session, stop);
    }
    if loaded {
      RemembersAtEnd(c, stop, req, session);
    }
    if plain {
      PlainMeans(c.model, c.ctx.size, req, session, c.inp);
      ReuseIs(c, req, session);
      AtEnd(c, stop, req, session, limit);
    }
  }

  /** A call that ends had something to sample from. */
  lemma NotMute(model: Model, size: nat, p: Params, session: seq<Token>, inp: seq<Token>, r: Reply, output: seq<Token>,
                logits: seq<Cell>, logits': seq<Cell>)
    requires inp != [] && p.nBatch >= 1 && Answers(model, size, p, session, inp, r, output, logits, logits')
    ensures !Mute(model, size, p, session, inp, logits)
  {
    CommonPrefixWhole(session, inp);
  }

  lemma OverIs(c: Generation, stop: Stop)
    requires c.Wired() && stop in {Evaluated, ContextFull, Finished}
    requires (c.Fits() ==> c.Ended(stop)) && (c.Overlong() ==> c.LongEnded(stop))
    ensures OverAt(c, stop)
  {
  }

  lemma ReuseIs(c: Generation, req: Request, session: seq<Token>)
    requires Ready(c, req, session, c.inp)
    ensures c.Reuse() == ReusedTokens(session, c.inp)
  {
  }

  lemma OnTrap(c: Generation, req: Request, session: seq<Token>, limit: nat, plain: bool)
    requires Ready(c, req, session, c.inp)
    requires c.Fits() ==> (|c.conversation| + 1 >= limit && c.Steady(c.embd)) || (c.logits0 == [] && c.Reuse() == |c.inp|)
    requires plain ==> c.Plain() && PlainRun(c.model, c.ctx.size, req, session, c.inp)
    ensures BudgetFits(c.ctx.size, req.p, session, c.inp, limit) ==> session == c.inp && c.logits0 == []
    ensures plain ==>
              forall l, f :: Promise(c.model, c.ctx.size, c.p, c.inp, CommonPrefix(session, c.inp), c.logits0, limit, Trap, l, f)
  {
    hide *;
    ReadyMeans(c, req, session, c.inp, limit);
    if BudgetFits(c.ctx.size, req.p, session, c.inp, limit) {
      NotTrapped(c, req, session, limit);
    }
    if plain {
      PlainMeans(c.model, c.ctx.size, req, session, c.inp);
      ReuseIs(c, req, session);
      PlainFits(c);
      AtTrap(c, limit);
    }
  }

  lemma PlainFits(c: Generation)
    requires c.Plain()
    ensures c.Fits()
  {
  }

  lemma OnFailure(c: Generation, req: Request, session: seq<Token>, limit: nat, loaded: bool, plain: bool)
    requires Ready(c, req, session, c.inp)
    requires c.Fits() ==>
               && c.NoSlot()
               && (c.p.maxTokens > 0 ==> |c.accepted| <= c.Reuse() + c.p.maxTokens)
    requires loaded ==> c.Clean() && (session == [] ==> c.cells0 == [])
    requires c.p.cacheRo ==> c.file == c.file0
    requires plain ==> c.Plain()
    ensures !plain && !Mute(c.model, c.ctx.size, req.p, session, c.inp, c.logits0) && !(loaded && BudgetFits(c.ctx.size, req.p, session, c.inp, limit))
    ensures !req.pathGiven || req.p.cacheRo ==> c.file == c.file0
  {
    hide *;
    ReadyMeans(c, req, session, c.inp, limit);
    if c.Fits() {
      NoSlotMeans(c);
    }
    if Mute(c.model, c.ctx.size, req.p, session, c.inp, c.logits0) {
      MuteFits(c, req, session);
      assert false;
    }
    if plain {
      PlainFits(c);
      NotFailedPlain(c);
      assert false;
    }
    if loaded && BudgetFits(c.ctx.size, req.p, session, c.inp, limit) {
      BudgetMeans(c, req, session, limit);
      NotFailed(c, req, session, limit);
      assert false;
    }
    if !req.pathGiven || req.p.cacheRo {
      FileSame(c, req, session, Failed);
    }
  }

  lemma NoSlotMeans(c: Generation)
    requires c.Wired() && c.NoSlot()
    ensures !c.CacheKnown(|c.accepted|) && c.FileInStep() && (c.Groupable() ==> |c.accepted| > c.ctx.size)
    ensures c.Reuse() == |c.inp| ==> c.logits0 != []
  {
  }

  lemma MuteFits(c: Generation, req: Request, session: seq<Token>)
    requires Mute(c.model, c.ctx.size, req.p, session, c.inp, c.logits0)
    ensures c.Fits() && session == c.inp && c.logits0 == []
  {
  }

  lemma BudgetMeans(c: Generation, req: Request, session: seq<Token>, limit: nat)
    requires Ready(c, req, session, c.inp) && BudgetFits(c.ctx.size, req.p, session, c.inp, limit)
    ensures c.Fits() && c.p.maxTokens > 0 && (c.p.gaN != 1 ==> session == [])
  {
  }

  /** Lines 567-1483, once the input is known. */
  method Run(ctx: Context, model: Model, req: Request, file: Option<SessionFile>, session: seq<Token>, inp: seq<Token>, limit: nat)
    returns (out: Outcome, file': Option<SessionFile>)
    requires Sound(ctx.size, req.p) && Admitted(ctx.size, req, session, inp)
    modifies ctx
    ensures out.Done? ==> Answers(model, ctx.size, req.p, session, inp, out.reply, out.output, old(ctx.logits), ctx.logits)
    ensures Mute(model, ctx.size, req.p, session, inp, old(ctx.logits)) ==> out == Trap
    ensures out == Trap || !req.pathGiven || req.p.cacheRo ==> file' == file
    ensures out.Done? && old(Loaded(ctx, session)) ==>
              Remembers(model, ctx.size, req, session, inp, out.reply, ctx.cells, ctx.logits, file, file')
    ensures PlainRun(model, ctx.size, req, session, inp) && old(Loaded(ctx, session)) ==>
              Promise(model, ctx.size, req.p, inp, CommonPrefix(session, inp), old(ctx.logits), limit, out, ctx.logits, file')
    ensures (|| req.p.nPredict == 0
             || (&& (session == inp ==> old(ctx.logits) != [])
                 && (SamplesOnce(ctx.size, req, session, inp, limit)
                     || (BudgetFits(ctx.size, req.p, session, inp, limit) && old(Loaded(ctx, session)))))) ==> out.Done?
  {
    hide *;
    ghost var loaded := Loaded(ctx, session);
    ghost var plain := PlainRun(model, ctx.size, req, session, inp) && loaded;
    file' := file;
    var c := Start(ctx, model, req, file, session, inp);
    ReadyMeans(c, req, session, inp, limit);
    var stop := c.Loop(limit);
    if stop == Trapped {
      out := Trap;
      OnTrap(c, req, session, limit, plain);
    } else if stop == Failed {
      out := Error(1);
      file' := c.file;
      OnFailure(c, req, session, limit, loaded, plain);
    } else {
      OnEnd(c, stop, req, session, limit, loaded, plain);
      out, file' := Conclude(c, stop);
    }
  }

  /** Requests that are turned down before the loop: a session that does not fit, no input, or a prompt that is too long. */
  predicate Refused(model: Model, size: nat, req: Request, file: Option<SessionFile>) {
    var session := SessionOf(req, file);
    var inp := InputOf(model, req, session);
    |session| > size || inp == [] || ((req.promptGiven || session == []) && |inp| > size - 4)
  }

  /** The file that is loaded, if one is, is coherent. */
  predicate Trusted(req: Request, file: Option<SessionFile>) {
    req.pathGiven && file.Some? ==> Coherent(file.value)
  }

  /** The call: an earlier context is cleared, the session loaded and the input chosen before `Run`. */
  method Perform(ctx: Context, model: Model, req: Request, file: Option<SessionFile>, limit: nat)
    returns (out: Outcome, file': Option<SessionFile>)
    requires Sound(ctx.size, req.p) && |req.tokens| <= INT_MAX
    modifies ctx
    ensures Refused(model, ctx.size, req, file) ==>
              && out == Error(if |SessionOf(req, file)| <= ctx.size && InputOf(model, req, SessionOf(req, file)) == [] then -1 else 1)
              && file' == file && ctx.logits == old(ctx.logits)
    ensures out == Trap ==> ctx.cells == old(ctx.cells) && ctx.logits == old(ctx.logits)
    ensures out == Trap || !req.pathGiven || req.p.cacheRo ==> file' == file
    ensures var session := SessionOf(req, file);
            var inp := InputOf(model, req, session);
            out.Done? ==>
              && Answers(model, ctx.size, req.p, session, inp, out.reply, out.output, old(ctx.logits), ctx.logits)
              && (Trusted(req, file) ==> Remembers(model, ctx.size, req, session, inp, out.reply, ctx.cells, ctx.logits, file, file'))
    ensures var session := SessionOf(req, file);
            var inp := InputOf(model, req, session);
            PlainCall(model, ctx.size, req, file) ==>
              Promise(model, ctx.size, req.p, inp, CommonPrefix(session, inp), old(ctx.logits), limit, out, ctx.logits, file')
    ensures var session := SessionOf(req, file);
            var inp := InputOf(model, req, session);
            !Refused(model, ctx.size, req, file) ==>
              && (Mute(model, ctx.size, req.p, session, inp, old(ctx.logits)) ==> out == Trap)
              && ((|| req.p.nPredict == 0
                   || (&& (session == inp ==> old(ctx.logits) != [])
                       && (SamplesOnce(ctx.size, req, session, inp, limit)
                           || (Trusted(req, file) && BudgetFits(ctx.size, req.p, session, inp, limit))))) ==> out.Done?)
  {
    hide Answers, Remembers, Promise, BudgetFits, SamplesOnce, Mute, Place;
    var cells, logits := ctx.cells, ctx.logits;
    file' := file;
    ctx.Clear();
    var session := [];
    if req.pathGiven && file.Some? {
      if |file.value.tokens| > ctx.size {
        out := Error(1);
        return;
      }
      ctx.Load(file.value);
      session := file.value.tokens;
    }
    LoadedAtFirst(ctx, req, file, session);
    var useSession := !(req.promptGiven || session == []);
    var inp := if useSession then session else req.tokens;
    if inp == [] {
      if !model.addBos {
        out := Error(-1);
        return;
      }
      inp := [model.bos];
    }
    if !useSession && |inp| > ctx.size - 4 {
      out := Error(1);
      return;
    }
    out, file' := Run(ctx, model, req, file, session, inp, limit);
    if out == Trap {
      TrapPromise(model, ctx.size, req.p, inp, CommonPrefix(session, inp), logits, limit, ctx.logits, logits, file');
      ctx.RollBack(cells, logits);
    }
  }

  /** What is promised of a trap does not depend on what it leaves, because it leaves nothing. */
  lemma TrapPromise(model: Model, size: nat, p: Params, inp: seq<Token>, reused: nat, logits: seq<Cell>, limit: nat,
                    l1: seq<Cell>, l2: seq<Cell>, file': Option<SessionFile>)
    requires size >= 2
    ensures Promise(model, size, p, inp, reused, logits, limit, Trap, l1, file')
            ==> Promise(model, size, p, inp, reused, logits, limit, Trap, l2, file')
  {
  }

  lemma LoadedAtFirst(ctx: Context, req: Request, file: Option<SessionFile>, session: seq<Token>)
    requires session == SessionOf(req, file)
    requires if req.pathGiven && file.Some? then ctx.cells == file.value.cells else ctx.cells == []
    ensures Trusted(req, file) ==> Loaded(ctx, session)
  {
  }
}
