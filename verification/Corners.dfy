/**
 Concrete requests at which a call does not do what its interface suggests.  For which
 requests it does is part of the contract of `Perform`; each method here is one call.
 */
module Corners {
  import opened Sequences
  import opened Wrappers
  import opened LlamaMemory
  import opened Completion
  import opened Call
  import SelfExtend

  /** Everything cached, no Self-Extend, batches of eight, context shifts allowed. */
  function Settings(maxTokens: U64, nPredict: int, displayPrompt: bool): (p: Params)
    ensures Sound(8, p)
  {
    Params(maxTokens, 8, nPredict, 0, true, true, false, displayPrompt, 1, 1)
  }

  lemma Common(session: seq<Token>, inp: seq<Token>, n: nat)
    requires n <= |session| && n <= |inp| && session[..n] == inp[..n]
    requires n < |session| && n < |inp| ==> session[n] != inp[n]
    ensures CommonPrefix(session, inp) == n
  {
    CommonPrefixIs(session, inp, n);
  }

  /**
   `-n 0` with a session that differs from the prompt: the loop is not entered, the
   list is not cut, and the saved file pairs three tokens with the cell of one.
   */
  method PredictNothing(ctx: Context, model: Model) returns (file': Option<SessionFile>)
    requires 8 <= ctx.size <= INT_MAX
    modifies ctx
    ensures file'.Some? && file'.value.tokens == [1, 2, 3] && file'.value.cells == Place([1])
    ensures file'.value.cells != Place(file'.value.tokens)
  {
    hide Windowed, Squeezes, Promise, PlainRun, Served, Stands;
    var saved := Snapshot([1, 2, 3]);
    var out;
    Common([1, 2, 3], [1, 9], 1);
    out, file' := Perform(ctx, model, Request(Settings(0, 0, true), true, [1, 9], true), Some(saved), 1);
  }

  /** The prompt [1, 2] after a session that goes on with 3: its last token is in the cache twice, and in the saved list once. */
  method ResentPrompt(ctx: Context, model: Model) returns (out: Outcome, file': Option<SessionFile>)
    requires 8 <= ctx.size <= INT_MAX && !model.antiprompt([1, 2])
    modifies ctx
    ensures out.Done? && out.reply.conversation == [1, 2] && ctx.cells == Place([1, 2, 2])
    ensures file'.Some? && file'.value.cells != Place(file'.value.tokens)
  {
    hide Windowed, Squeezes, Promise, PlainRun, Served, Stands;
    var p := Settings(1, -1, true);
    var req := Request(p, true, [1, 2], true);
    Common([1, 2, 3], [1, 2], 2);
    out, file' := Perform(ctx, model, req, Some(Snapshot([1, 2, 3])), 5);
  }

  /** A prompt of one token with a budget of one: the output shows the prompt, although nothing was generated. */
  method EchoedPrompt(ctx: Context, model: Model) returns (out: Outcome)
    requires 8 <= ctx.size <= INT_MAX && !model.antiprompt([7])
    modifies ctx
    ensures out.Done? && out.reply.conversation == out.reply.fed == [7] && out.output != []
  {
    hide Windowed, Squeezes, Promise, PlainRun, Served, Stands;
    var file';
    Common([], [7], 0);
    out, file' := Perform(ctx, model, Request(Settings(1, -1, true), true, [7], false), None, 4);
  }

  /** A session of five tokens, re-entered where n_ctx is 8: the fifth is fed, and neither processed nor pending. */
  method ReenteredSession(ctx: Context, model: Model) returns (out: Outcome)
    requires ctx.size == 8 && ctx.logits != [] && !model.antiprompt([1, 2, 3, 4, 5])
    modifies ctx
    ensures out.Done? && [1, 2, 3, 4, 5] <= out.reply.fed
    ensures out.reply.conversation + out.reply.pending != out.reply.fed
    ensures out.reply.conversation + out.reply.pending <= [1, 2, 3, 4] + out.reply.fed[5..]
  {
    hide Windowed, Squeezes, Promise, PlainRun, Served, Stands;
    var file';
    var session := [1, 2, 3, 4, 5];
    Common(session, session, 5);
    out, file' := Perform(ctx, model, Request(Settings(0, 1, true), false, [], true), Some(Snapshot(session)), 6);
    assert out.reply.fed[..4] == session[..4] == [1, 2, 3, 4];
  }

  /** The prompt [9], in whatever context: its logits are the ones that stay. */
  method OtherConversation(ctx: Context, model: Model) returns (out: Outcome)
    requires 8 <= ctx.size <= INT_MAX && !model.antiprompt([9])
    modifies ctx
    ensures out.Done? && out.reply.conversation == [9] && ctx.logits == Place([9])
  {
    hide Windowed, Squeezes, Promise, PlainRun, Served, Stands;
    var file';
    Common([], [9], 0);
    out, file' := Perform(ctx, model, Request(Settings(1, -1, false), true, [9], false), None, 4);
  }

  /** The session [1, 2, 3], re-entered with an empty prompt: nothing is evaluated before its next token is picked. */
  method ReenteredAfter(ctx: Context, model: Model) returns (out: Outcome)
    requires 8 <= ctx.size <= INT_MAX && ctx.logits != [] && !model.antiprompt([1, 2, 3])
    modifies ctx
    ensures out.Done? && |out.reply.fed| > 3 && out.reply.fed[..3] == [1, 2, 3]
    ensures out.reply.fed[3] == model.predict(old(ctx.logits), [1, 2, 3])
  {
    hide Windowed, Squeezes, Promise, PlainRun, Served, Stands;
    var file';
    var session := [1, 2, 3];
    Common(session, session, 3);
    out, file' := Perform(ctx, model, Request(Settings(1, -1, false), false, [], true), Some(Snapshot(session)), 6);
  }

  /**
   Two conversations take turns in one context.  When the first goes on after the second, its
   next token is the one the second would have come to.
   */
  method TwoConversations(ctx: Context, model: Model) returns (out: Outcome)
    requires 8 <= ctx.size <= INT_MAX && !model.antiprompt([9]) && !model.antiprompt([1, 2, 3])
    modifies ctx
    ensures out.Done? && |out.reply.fed| > 3 && out.reply.fed[..3] == [1, 2, 3]
    ensures out.reply.fed[3] == model.predict(Place([9]), [1, 2, 3])
  {
    var other := OtherConversation(ctx, model);
    assert ctx.logits != [];
    out := ReenteredAfter(ctx, model);
  }

  /** A session that is re-entered in a context in which nothing has been decoded: there is nothing to sample from. */
  method FreshContext(ctx: Context, model: Model) returns (out: Outcome)
    requires 8 <= ctx.size <= INT_MAX && ctx.logits == [] && !model.antiprompt([1, 2, 3])
    modifies ctx
    ensures out == Trap
  {
    hide Windowed, Squeezes, Promise, PlainRun, Served, Stands;
    var file';
    var session := [1, 2, 3];
    Common(session, session, 3);
    out, file' := Perform(ctx, model, Request(Settings(1, -1, false), false, [], true), Some(Snapshot(session)), 6);
  }

  lemma OneGroup(session: seq<Token>)
    requires |session| == 4
    ensures var cells := SelfExtend.Squeezed(session, 1, 2, 1);
            RemoveSpan(cells, 4, -1) == cells && NextPos(cells) == 3
  {
    hide *;
    SelfExtend.Reloaded(session, 1, 2, 1);
    SelfExtend.SqueezedNext(session, 1, 2, 1);
  }

  lemma WiredUp(c: Generation)
    requires 8 <= c.ctx.size <= INT_MAX && c.p == Grouping() && c.pathGiven && c.nKeep == 0
    requires c.inp == c.start && |c.inp| == c.nMatch == 4
    ensures c.Wired() && c.FeedEnd(0) == 4
  {
  }

  function Grouping(): Params { Params(0, 8, -1, 0, true, true, false, false, 2, 2) }

  /** Four tokens saved after one grouping of two: `n_past` says 4 when the next free position is 3. */
  method ReenteredGroups(ctx: Context, model: Model) returns (c: Generation)
    requires 8 <= ctx.size <= INT_MAX
    modifies ctx
    ensures fresh(c) && c.ctx == ctx && c.nPast == 4 && c.gaI == 0 && NextPos(ctx.cells) == 3
  {
    hide *;
    var session := [1, 2, 3, 4];
    OneGroup(session);
    Common(session, session, 4);
    ctx.Load(SessionFile(session, SelfExtend.Squeezed(session, 1, 2, 1)));
    var nMatch, start := MatchSession(ctx, session, session);
    Whole(session);
    c := new Generation(ctx, Grouping(), model, session, nMatch, 0, true, start, None, []);
    WiredUp(c);
    c.PushPrompt();
    assert c.embd == session[0..4] == session;
    GroupingIs();
    c.ReenterSqueezed(1);
  }

  lemma Whole(session: seq<Token>)
    requires session != []
    ensures ListLeft(session, session) == session
  {
  }

  lemma GroupingIs()
    ensures Grouping().gaN == 2 && Grouping().gaW == 2
  {
  }
}
