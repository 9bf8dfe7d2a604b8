/**
 Many calls, one generation: a prompt that is sent again until nothing of it
 remains, and empty prompts after that, leave the session of a single unlimited
 call, whatever the budgets were, exactly if each call finds the logits it needs in
 the context.
 */
module Slicing {
  import opened Sequences
  import opened Wrappers
  import opened LlamaMemory
  import opened Completion
  import opened Call

  /** `t` is the prompt and its generation up to and including the first end token. */
  ghost predicate FullRun(model: Model, prompt: seq<Token>, t: seq<Token>) {
    && prompt != [] && prompt <= t
    && Continues(model, prompt, t)
    && EndsAt(model, prompt, t, |t| - 1)
  }

  /** Two histories the model continues agree as far as both go. */
  lemma {:induction false} Agree(model: Model, prompt: seq<Token>, t: seq<Token>, inp: seq<Token>, h: seq<Token>, n: nat)
    requires prompt <= inp <= t && Continues(model, prompt, t) && Continues(model, inp, h)
    requires n <= |t| && n <= |h|
    ensures h[..n] == t[..n]
  {
    if n > 0 {
      Agree(model, prompt, t, inp, h, n - 1);
      assert h[..n] == h[..n - 1] + [h[n - 1]] && t[..n] == t[..n - 1] + [t[n - 1]];
      if n <= |inp| {
        assert inp[n - 1] == t[n - 1];
        if |h| <= |inp| { assert h <= inp; } else { assert inp <= h; }
      }
    }
  }

  /** A single unlimited call from an empty session is a full run. */
  lemma UnlimitedIsFullRun(model: Model, p: Params, prompt: seq<Token>, r: Reply)
    requires Served(model, p, prompt, 0, r) && p.maxTokens == 0 && p.nPredict < 0
    ensures FullRun(model, prompt, r.conversation)
  {
    var t := r.conversation;
    assert t + [] == t;
    assert HasEnd(model, prompt, t);
    var e :| |prompt| - 1 <= e < |t| && 0 <= e && model.isEog(t[e]);
    if |t| > 1 {
      assert forall i :: |prompt| - 1 <= i < |t| - 1 && 0 <= i ==> t[..|t| - 1][i] == t[i];
    }
  }

  /** Where a call that finds `n` tokens of the run in its session leaves it. */
  function SliceEnd(p: Params, total: nat, inp: nat, n: nat): int {
    var byBudget := if p.maxTokens > 0 then Min(total, n + p.maxTokens) else total;
    if p.nPredict > 0 then Min(byBudget, inp + p.nPredict - 1) else byBudget
  }

  /** The request is the prompt while the session has not reached its end, and empty afterwards. */
  ghost predicate Follows(prompt: seq<Token>, session: seq<Token>, inp: seq<Token>) {
    (inp == prompt && |session| <= |prompt|) || (inp == session && |session| >= |prompt|)
  }

  lemma SessionIsReused(prompt: seq<Token>, t: seq<Token>, session: seq<Token>, inp: seq<Token>)
    requires prompt <= t && session <= t && Follows(prompt, session, inp)
    ensures session <= inp && !Resent(inp, session)
    ensures CommonPrefix(session, inp) == |session|
    ensures prompt <= inp <= t
  {
    CommonPrefixIs(session, inp, |session|);
  }

  /** No history of the model runs past the end of the full run without having met an end token. */
  lemma EndIsMet(model: Model, prompt: seq<Token>, t: seq<Token>, inp: seq<Token>, h: seq<Token>, g: seq<Token>)
    requires FullRun(model, prompt, t) && prompt <= inp <= t
    requires Continues(model, inp, h) && |t| <= |h| && h <= g
    ensures HasEnd(model, inp, g)
  {
    Agree(model, prompt, t, inp, h, |t|);
    var e := |t| - 1;
    assert g[e] == h[e] == h[..|t|][e] == t[..|t|][e] == t[e];
  }

  /** Before its last position the full run has no end token that counts. */
  lemma NoEarlyEnd(model: Model, prompt: seq<Token>, t: seq<Token>, inp: seq<Token>, h: seq<Token>)
    requires FullRun(model, prompt, t) && prompt <= inp <= t
    requires h < t
    ensures !HasEnd(model, inp, h)
  {
    assert forall i :: 0 <= i < |h| ==> h[i] == t[i];
  }

  /** One call: it moves the session along the full run, exactly to `SliceEnd`. */
  lemma OneSlice(model: Model, p: Params, prompt: seq<Token>, t: seq<Token>, session: seq<Token>, inp: seq<Token>, r: Reply)
    requires FullRun(model, prompt, t) && session < t && Follows(prompt, session, inp)
    requires Served(model, p, inp, |session|, r)
    ensures r.conversation <= t
    ensures |r.conversation| == SliceEnd(p, |t|, |inp|, |session|) >= |session|
    ensures r.conversation + r.pending <= t
    ensures r.eog <==> r.conversation + r.pending == t
    ensures r.remaining == inp[Min(|r.conversation + r.pending|, |inp|)..]
    ensures r.remaining == [] <==> |r.conversation| >= |inp|
    ensures r.remaining != [] ==> r.pending == []
    ensures |r.pending| <= 1 && (r.pending != [] ==> p.nPredict > 0)
  {
    StaysInside(model, p, prompt, t, session, inp, r);
    SessionIsReused(prompt, t, session, inp);
    var h := r.conversation + r.pending;
    if h == t {
      EndIsMet(model, prompt, t, inp, h, h);
    } else {
      NoEarlyEnd(model, prompt, t, inp, h);
    }
    hide Continues, FullRun, HasEnd;
    assert r.pending == [] ==> h == r.conversation;
  }

  /** Neither the conversation nor a pending token runs past the end of the full run. */
  lemma StaysInside(model: Model, p: Params, prompt: seq<Token>, t: seq<Token>, session: seq<Token>, inp: seq<Token>, r: Reply)
    requires FullRun(model, prompt, t) && session < t && Follows(prompt, session, inp)
    requires Served(model, p, inp, |session|, r)
    ensures r.conversation <= r.conversation + r.pending <= t
    ensures prompt <= inp <= t && session <= inp
  {
    SessionIsReused(prompt, t, session, inp);
    var h := r.conversation + r.pending;
    hide FullRun, HasEnd;
    assert Continues(model, inp, h) && (r.pending != [] ==> |r.pending| == 1);
    assert r.pending == [] ==> h == r.conversation;
    ConversationInside(model, p, prompt, t, inp, |session|, r);
    if |h| > |t| {
      assert h[..|t|] == r.conversation;
      PastTheEnd(model, prompt, t, inp, h, r.conversation);
      assert false;
    }
    PrefixAgrees(model, prompt, t, inp, h);
  }

  lemma PrefixAgrees(model: Model, prompt: seq<Token>, t: seq<Token>, inp: seq<Token>, h: seq<Token>)
    requires FullRun(model, prompt, t) && prompt <= inp <= t && Continues(model, inp, h) && |h| <= |t|
    ensures h <= t
  {
    Agree(model, prompt, t, inp, h, |h|);
    assert h[..|h|] == h;
  }

  /** What covers the whole run has met its end. */
  lemma PastTheEnd(model: Model, prompt: seq<Token>, t: seq<Token>, inp: seq<Token>, h: seq<Token>, g: seq<Token>)
    requires FullRun(model, prompt, t) && prompt <= inp <= t
    requires Continues(model, inp, h) && |t| <= |h| && h[..|t|] <= g
    ensures HasEnd(model, inp, g)
  {
    PrefixContinues(model, inp, h, |t|);
    EndIsMet(model, prompt, t, inp, h[..|t|], g);
  }

  lemma ConversationInside(model: Model, p: Params, prompt: seq<Token>, t: seq<Token>, inp: seq<Token>, reused: nat, r: Reply)
    requires FullRun(model, prompt, t) && reused < |t| && prompt <= inp <= t
    requires Served(model, p, inp, reused, r)
    ensures |r.conversation| <= |t|
  {
    hide FullRun, HasEnd;
    var c, h, n := r.conversation, r.conversation + r.pending, |r.conversation|;
    if n > |t| {
      var g := if r.pending == [] then c[..n - 1] else c;
      assert h[..|t|] <= g by { assert c[..n - 1][..|t|] == c[..|t|] == h[..|t|]; }
      PastTheEnd(model, prompt, t, inp, h, g);
      assert false;
    }
  }

  lemma PrefixContinues(model: Model, inp: seq<Token>, h: seq<Token>, n: nat)
    requires Continues(model, inp, h) && n <= |h|
    ensures Continues(model, inp, h[..n])
  {
    var g := h[..n];
    assert forall i :: 0 <= i <= n ==> g[..i] == h[..i];
  }

  // ----- a whole conversation

  /** A call: its settings, the logits it found in the context, and its reply. */
  datatype Step = Step(p: Params, found: seq<Cell>, r: Reply)

  function SessionBefore(steps: seq<Step>, k: nat): seq<Token>
    requires k <= |steps|
  {
    if k == 0 then [] else steps[k - 1].r.conversation
  }

  /** The full prompt is sent until a reply says that nothing of it remains. */
  predicate SendsPrompt(steps: seq<Step>, k: nat)
    requires k <= |steps|
  {
    k == 0 || (SendsPrompt(steps, k - 1) && steps[k - 1].r.remaining != [])
  }

  function InputAt(prompt: seq<Token>, steps: seq<Step>, k: nat): seq<Token>
    requires k <= |steps|
  {
    if SendsPrompt(steps, k) then prompt else SessionBefore(steps, k)
  }

  function ReusedAt(prompt: seq<Token>, steps: seq<Step>, k: nat): nat
    requires k < |steps|
  {
    CommonPrefix(SessionBefore(steps, k), InputAt(prompt, steps, k))
  }

  /** Calls made one after the other, each with its own budget and sampling limit, none after the end token. */
  ghost predicate Calls(model: Model, prompt: seq<Token>, steps: seq<Step>) {
    forall k :: 0 <= k < |steps| ==>
      && Replied(model, steps[k].p, InputAt(prompt, steps, k), ReusedAt(prompt, steps, k), steps[k].found, steps[k].r)
      && (k + 1 < |steps| ==> !steps[k].r.eog)
  }

  /** Call k finds the context as it needs it. */
  ghost predicate PrimedAt(model: Model, prompt: seq<Token>, steps: seq<Step>, k: nat)
    requires k < |steps|
  {
    Primed(model, InputAt(prompt, steps, k), ReusedAt(prompt, steps, k), steps[k].found)
  }

  /** Such calls, of which the first n find the context as they need it. */
  ghost predicate Protocol(model: Model, prompt: seq<Token>, steps: seq<Step>, n: nat) {
    Calls(model, prompt, steps) && n <= |steps| && forall k :: 0 <= k < n ==> PrimedAt(model, prompt, steps, k)
  }

  /** Where the conversation stands before call k. */
  lemma {:induction false} Underway(model: Model, prompt: seq<Token>, t: seq<Token>, steps: seq<Step>, k: nat)
    requires FullRun(model, prompt, t) && Protocol(model, prompt, steps, k)
    requires k == |steps| > 0 ==> !steps[k - 1].r.eog
    ensures SessionBefore(steps, k) < t
    ensures Follows(prompt, SessionBefore(steps, k), InputAt(prompt, steps, k))
  {
    hide Protocol, Served, FullRun, CommonPrefix;
    if k > 0 {
      ProtocolAt(model, prompt, steps, k, k - 1);
      Underway(model, prompt, t, steps, k - 1);
      Onwards(model, prompt, t, steps, k);
    } else {
      Nonempty(model, prompt, t);
    }
  }

  /** One call further. */
  lemma Onwards(model: Model, prompt: seq<Token>, t: seq<Token>, steps: seq<Step>, k: nat)
    requires FullRun(model, prompt, t) && 0 < k <= |steps|
    requires SessionBefore(steps, k - 1) < t
    requires Follows(prompt, SessionBefore(steps, k - 1), InputAt(prompt, steps, k - 1))
    requires Served(model, steps[k - 1].p, InputAt(prompt, steps, k - 1),
                    CommonPrefix(SessionBefore(steps, k - 1), InputAt(prompt, steps, k - 1)), steps[k - 1].r)
    requires !steps[k - 1].r.eog
    ensures SessionBefore(steps, k) < t
    ensures Follows(prompt, SessionBefore(steps, k), InputAt(prompt, steps, k))
  {
    hide *;
    var session, inp, r := SessionBefore(steps, k - 1), InputAt(prompt, steps, k - 1), steps[k - 1].r;
    Nonempty(model, prompt, t);
    SessionIsReused(prompt, t, session, inp);
    OneSlice(model, steps[k - 1].p, prompt, t, session, inp, r);
    InputNext(prompt, steps, k);
    FollowOn(prompt, t, session, inp, r);
  }

  lemma InputNext(prompt: seq<Token>, steps: seq<Step>, k: nat)
    requires 0 < k <= |steps|
    ensures SessionBefore(steps, k) == steps[k - 1].r.conversation
    ensures InputAt(prompt, steps, k - 1) == prompt || InputAt(prompt, steps, k - 1) == SessionBefore(steps, k - 1)
    ensures InputAt(prompt, steps, k) ==
              if SendsPrompt(steps, k - 1) && steps[k - 1].r.remaining != [] then prompt else SessionBefore(steps, k)
    ensures InputAt(prompt, steps, k - 1) == if SendsPrompt(steps, k - 1) then prompt else SessionBefore(steps, k - 1)
  {
  }

  /** After a slice that did not end the run: either input the protocol may choose follows. */
  lemma FollowOn(prompt: seq<Token>, t: seq<Token>, session: seq<Token>, inp: seq<Token>, r: Reply)
    requires prompt <= inp <= t && session <= inp && |session| <= |r.conversation|
    requires r.conversation <= r.conversation + r.pending <= t && r.conversation + r.pending != t
    requires r.remaining == [] <==> |r.conversation| >= |inp|
    requires inp == prompt || inp == session
    ensures r.conversation < t
    ensures inp == prompt && r.remaining != [] ==> Follows(prompt, r.conversation, prompt)
    ensures inp == session || r.remaining == [] ==> Follows(prompt, r.conversation, r.conversation)
  {
    assert |r.conversation| == |t| ==> r.conversation == t && r.pending == [];
  }

  lemma ProtocolAt(model: Model, prompt: seq<Token>, steps: seq<Step>, n: nat, k: nat)
    requires Protocol(model, prompt, steps, n) && k < n
    ensures n <= |steps| && Protocol(model, prompt, steps, k)
    ensures Served(model, steps[k].p, InputAt(prompt, steps, k), ReusedAt(prompt, steps, k), steps[k].r)
    ensures k + 1 < |steps| ==> !steps[k].r.eog
  {
    hide Served, Replied, Primed, InputAt, ReusedAt;
    assert PrimedAt(model, prompt, steps, k);
    ServedIfPrimed(model, steps[k].p, InputAt(prompt, steps, k), ReusedAt(prompt, steps, k), steps[k].found, steps[k].r);
  }

  /**
   Slicing is invisible as long as the context is left alone: every session on the way is a
   prefix of the session `u` of one unlimited call, none is shorter than the one before, and
   at the end token nothing is missing but, at most, a sampled token the sampling limit left
   unevaluated.
   */
  lemma SlicingIsInvisible(model: Model, prompt: seq<Token>, p: Params, u: Reply, steps: seq<Step>, k: nat)
    requires Served(model, p, prompt, 0, u) && p.maxTokens == 0 && p.nPredict < 0
    requires k < |steps| && Protocol(model, prompt, steps, k + 1)
    ensures var r := steps[k].r;
            && SessionBefore(steps, k) <= r.conversation <= r.conversation + r.pending <= u.conversation
            && (r.eog <==> r.conversation + r.pending == u.conversation)
            && (r.eog && steps[k].p.nPredict < 0 ==> r.conversation == u.conversation)
            && |r.conversation| ==
                 SliceEnd(steps[k].p, |u.conversation|, |InputAt(prompt, steps, k)|, |SessionBefore(steps, k)|)
  {
    UnlimitedIsFullRun(model, p, prompt, u);
    var t, session, inp, r := u.conversation, SessionBefore(steps, k), InputAt(prompt, steps, k), steps[k].r;
    hide Served, Protocol, FullRun, SliceEnd;
    ProtocolAt(model, prompt, steps, k + 1, k);
    Underway(model, prompt, t, steps, k);
    SessionIsReused(prompt, t, session, inp);
    OneSlice(model, steps[k].p, prompt, t, session, inp, r);
    PrefixOf(session, r.conversation, t);
    assert r.pending == [] ==> r.conversation + r.pending == r.conversation;
  }

  /** The tokens of call k, a sampled one that was left unevaluated included. */
  function History(steps: seq<Step>, k: nat): seq<Token>
    requires k < |steps|
  {
    steps[k].r.conversation + steps[k].r.pending
  }

  /** It is invisible in the first n calls exactly if each of them finds the context as it needs it. */
  lemma {:induction false} InvisibleIfPrimed(model: Model, prompt: seq<Token>, p: Params, u: Reply, steps: seq<Step>, n: nat)
    requires Served(model, p, prompt, 0, u) && p.maxTokens == 0 && p.nPredict < 0
    requires Calls(model, prompt, steps) && n <= |steps|
    ensures (forall k :: 0 <= k < n ==> History(steps, k) <= u.conversation) <==> Protocol(model, prompt, steps, n)
  {
    hide Served, Calls, PrimedAt;
    if n > 0 {
      InvisibleIfPrimed(model, prompt, p, u, steps, n - 1);
      if Protocol(model, prompt, steps, n) {
        SlicingIsInvisible(model, prompt, p, u, steps, n - 1);
      } else if Protocol(model, prompt, steps, n - 1) && History(steps, n - 1) <= u.conversation {
        InsideMeansPrimed(model, prompt, p, u, steps, n - 1);
        assert false;
      }
    }
  }

  /** A call that stays inside the full run has found the context as it needed it. */
  lemma InsideMeansPrimed(model: Model, prompt: seq<Token>, p: Params, u: Reply, steps: seq<Step>, k: nat)
    requires Served(model, p, prompt, 0, u) && p.maxTokens == 0 && p.nPredict < 0
    requires Protocol(model, prompt, steps, k) && k < |steps|
    requires History(steps, k) <= u.conversation
    ensures PrimedAt(model, prompt, steps, k)
  {
    UnlimitedIsFullRun(model, p, prompt, u);
    var t, session, inp, r := u.conversation, SessionBefore(steps, k), InputAt(prompt, steps, k), steps[k].r;
    hide Served, FullRun, Protocol;
    if k > 0 {
      ProtocolAt(model, prompt, steps, k, k - 1);
    }
    RepliedAt(model, prompt, steps, k, k);
    Underway(model, prompt, t, steps, k);
    SessionIsReused(prompt, t, session, inp);
    InsideContinues(model, steps[k].p, prompt, t, inp, |session|, steps[k].found, r);
  }

  lemma RepliedAt(model: Model, prompt: seq<Token>, steps: seq<Step>, n: nat, k: nat)
    requires Protocol(model, prompt, steps, n) && k < |steps|
    ensures Replied(model, steps[k].p, InputAt(prompt, steps, k), ReusedAt(prompt, steps, k), steps[k].found, steps[k].r)
  {
  }

  lemma InsideContinues(model: Model, p: Params, prompt: seq<Token>, t: seq<Token>, inp: seq<Token>, reused: nat,
                        found: seq<Cell>, r: Reply)
    requires FullRun(model, prompt, t) && prompt <= inp <= t
    requires Replied(model, p, inp, reused, found, r) && r.conversation + r.pending <= t
    ensures Primed(model, inp, reused, found)
  {
    var h, i := r.conversation + r.pending, |inp|;
    if reused == |inp| {
      assert h[i] == t[i] && t[..i] == inp;
      assert t[i] == Continuation(model, t[..i]);
    }
  }

  // ----- nobody else decodes in the context

  /** The logits call k leaves behind: its own, or those it found if it evaluated nothing. */
  function LeftBy(prompt: seq<Token>, steps: seq<Step>, k: nat): seq<Cell>
    requires k < |steps|
  {
    if |steps[k].r.conversation| > ReusedAt(prompt, steps, k) then Place(steps[k].r.conversation) else steps[k].found
  }

  /** Between the calls nothing else decodes in the context. */
  ghost predicate Undisturbed(prompt: seq<Token>, steps: seq<Step>) {
    forall k :: 0 < k < |steps| ==> steps[k].found == LeftBy(prompt, steps, k - 1)
  }

  /** Then every call finds the context as it needs it, because it was left that way. */
  lemma {:induction false} UndisturbedIsPrimed(model: Model, prompt: seq<Token>, p: Params, u: Reply, steps: seq<Step>, n: nat)
    requires Served(model, p, prompt, 0, u) && p.maxTokens == 0 && p.nPredict < 0
    requires Calls(model, prompt, steps) && Undisturbed(prompt, steps) && n <= |steps|
    ensures Protocol(model, prompt, steps, n)
    ensures n > 0 ==> LeftBy(prompt, steps, n - 1) == Place(steps[n - 1].r.conversation)
  {
    if n > 0 {
      var k := n - 1;
      UndisturbedIsPrimed(model, prompt, p, u, steps, k);
      UnlimitedIsFullRun(model, p, prompt, u);
      hide Served, FullRun, Undisturbed, Place, Primed;
      FoundAt(prompt, steps, k);
      RepliedAt(model, prompt, steps, k, k);
      if k > 0 {
        hide Protocol;
        ProtocolAt(model, prompt, steps, k, k - 1);
        Underway(model, prompt, u.conversation, steps, k);
        LeftAlone(model, prompt, u.conversation, steps, k);
        OneMore(model, prompt, steps, k);
      } else {
        hide Protocol;
        Underway(model, prompt, u.conversation, steps, k);
        LeftAlone(model, prompt, u.conversation, steps, k);
        OneMore(model, prompt, steps, k);
      }
    }
  }

  lemma FoundAt(prompt: seq<Token>, steps: seq<Step>, k: nat)
    requires Undisturbed(prompt, steps) && k < |steps|
    ensures k > 0 ==> steps[k].found == LeftBy(prompt, steps, k - 1) && SessionBefore(steps, k) == steps[k - 1].r.conversation
  {
  }

  lemma OneMore(model: Model, prompt: seq<Token>, steps: seq<Step>, k: nat)
    requires k < |steps| && Protocol(model, prompt, steps, k) && PrimedAt(model, prompt, steps, k)
    ensures Protocol(model, prompt, steps, k + 1)
  {
  }

  /** One call that finds the logits of its session, or has an empty session. */
  lemma LeftAlone(model: Model, prompt: seq<Token>, t: seq<Token>, steps: seq<Step>, k: nat)
    requires FullRun(model, prompt, t) && k < |steps|
    requires Replied(model, steps[k].p, InputAt(prompt, steps, k), ReusedAt(prompt, steps, k), steps[k].found, steps[k].r)
    requires SessionBefore(steps, k) < t && Follows(prompt, SessionBefore(steps, k), InputAt(prompt, steps, k))
    requires k > 0 ==> steps[k].found == Place(SessionBefore(steps, k))
    ensures PrimedAt(model, prompt, steps, k)
    ensures LeftBy(prompt, steps, k) == Place(steps[k].r.conversation)
  {
    Nonempty(model, prompt, t);
    SessionIsReused(prompt, t, SessionBefore(steps, k), InputAt(prompt, steps, k));
    SessionLength(steps, k);
    WholeSession(model, steps[k].p, SessionBefore(steps, k), InputAt(prompt, steps, k), steps[k].found, steps[k].r);
  }

  /** If nothing is evaluated, the session was the whole input and is the whole conversation. */
  lemma WholeSession(model: Model, p: Params, session: seq<Token>, inp: seq<Token>, found: seq<Cell>, r: Reply)
    requires session <= inp && inp != [] && Replied(model, p, inp, |session|, found, r)
    ensures |r.conversation| <= |session| ==> r.conversation == session == inp
    ensures found == Place(session) || session != inp ==> Primed(model, inp, |session|, found)
  {
    var h := r.conversation + r.pending;
    if |r.conversation| <= |session| {
      assert |r.conversation| == |inp| == |session|;
      assert h[..|inp|] == r.conversation;
    }
    assert |session| == |inp| ==> session == inp;
    assert session != [] ==> Place(session) != [];
  }

  lemma PrefixOf(a: seq<Token>, b: seq<Token>, t: seq<Token>)
    requires a <= t && b <= t && |a| <= |b|
    ensures a <= b
  {
    assert b[..|a|] == t[..|a|] == a;
  }

  /** No call is wasted: with room to sample and evaluate, call k leaves at least k + 1 tokens. */
  lemma {:induction false} EveryCallCounts(model: Model, prompt: seq<Token>, p: Params, u: Reply, steps: seq<Step>, k: nat)
    requires Served(model, p, prompt, 0, u) && p.maxTokens == 0 && p.nPredict < 0
    requires Protocol(model, prompt, steps, k + 1) && k < |steps|
    requires forall i :: 0 <= i < |steps| ==> steps[i].p.nPredict < 0 || steps[i].p.nPredict >= 2
    ensures k + 1 <= |steps[k].r.conversation| <= |u.conversation|
  {
    hide *;
    ProtocolAt(model, prompt, steps, k + 1, k);
    if k > 0 {
      ProtocolAt(model, prompt, steps, k, k - 1);
      EveryCallCounts(model, prompt, p, u, steps, k - 1);
    }
    SlicingIsInvisible(model, prompt, p, u, steps, k);
    UnlimitedIsFullRun(model, p, prompt, u);
    Underway(model, prompt, u.conversation, steps, k);
    UnderwayReuse(model, prompt, u.conversation, steps, k);
    SliceGrows(steps[k].p, |u.conversation|, |InputAt(prompt, steps, k)|, |SessionBefore(steps, k)|);
    SessionLength(steps, k);
  }

  lemma UnderwayReuse(model: Model, prompt: seq<Token>, t: seq<Token>, steps: seq<Step>, k: nat)
    requires FullRun(model, prompt, t) && k < |steps|
    requires SessionBefore(steps, k) < t && Follows(prompt, SessionBefore(steps, k), InputAt(prompt, steps, k))
    ensures |SessionBefore(steps, k)| < |t| && |SessionBefore(steps, k)| <= |InputAt(prompt, steps, k)|
    ensures prompt != []
  {
    SessionIsReused(prompt, t, SessionBefore(steps, k), InputAt(prompt, steps, k));
  }

  lemma SessionLength(steps: seq<Step>, k: nat)
    requires k < |steps|
    ensures k > 0 ==> SessionBefore(steps, k) == steps[k - 1].r.conversation
    ensures k == 0 ==> SessionBefore(steps, k) == []
  {
  }

  lemma SliceGrows(p: Params, total: nat, inp: nat, n: nat)
    requires n < total && n <= inp && (p.nPredict < 0 || p.nPredict >= 2)
    ensures n < SliceEnd(p, total, inp, n) <= total
  {
  }

  // ----- the client of the README, against the calls themselves

  /** The settings under which the README promises equivalence. */
  ghost predicate Settings(model: Model, size: nat, p: Params, t: seq<Token>) {
    && 8 <= size <= INT_MAX && |t| <= size - 4
    && p.nBatch >= 1 && p.gaN == 1 && p.cacheAll && !p.cacheRo
    && forall h {:trigger model.antiprompt(h)} :: !model.antiprompt(h)
  }

  /** A call that finds a part of the run in its file, its logits in the context and enough instructions does one slice. */
  lemma PromiseIsSlice(model: Model, size: nat, p: Params, prompt: seq<Token>, t: seq<Token>, session: seq<Token>,
                       inp: seq<Token>, logits: seq<Cell>, limit: nat, out: Outcome, logits': seq<Cell>, file': Option<SessionFile>)
    requires Settings(model, size, p, t) && FullRun(model, prompt, t)
    requires session < t && Follows(prompt, session, inp) && Primed(model, inp, |session|, logits)
    requires limit >= |t| + 2
    requires Promise(model, size, p, inp, |session|, logits, limit, out, logits', file')
    ensures out.Done? && Replied(model, p, inp, |session|, logits, out.reply)
    ensures Served(model, p, inp, |session|, out.reply) && file' == Some(Snapshot(out.reply.conversation))
    ensures logits' == if |out.reply.conversation| > |session| then Place(out.reply.conversation) else logits
  {
    SessionIsReused(prompt, t, session, inp);
    if out == Trap {
      var h :| |h| + 1 >= limit && StillGoing(model, size, inp, |session|, logits, h);
      ResumesContinues(model, logits, inp, |session|, h[..Min(|h|, size)]);
      EndIsMet(model, prompt, t, inp, h[..Min(|h|, size)], h);
      assert false;
    } else if |out.reply.conversation| >= size - 1 {
      var h := out.reply.conversation[..size - 2];
      ResumesContinues(model, logits, inp, |session|, h[..Min(|h|, size)]);
      EndIsMet(model, prompt, t, inp, h[..Min(|h|, size)], h);
      assert false;
    } else {
      ServedIfPrimed(model, p, inp, |session|, logits, out.reply);
    }
  }

  lemma Nonempty(model: Model, prompt: seq<Token>, t: seq<Token>)
    requires FullRun(model, prompt, t)
    ensures prompt != [] && prompt <= t
  {
  }

  lemma PrimedByItself(model: Model, session: seq<Token>, inp: seq<Token>, logits: seq<Cell>)
    requires session <= inp && inp != [] && (session == inp ==> logits == Place(session))
    ensures Primed(model, inp, |session|, logits)
  {
    assert |session| == |inp| ==> session == inp && Place(session) != [];
  }

  /** One call of the client: the context holds the logits of its session, and then those of its conversation. */
  method OneCall(ctx: Context, model: Model, p: Params, prompt: seq<Token>, sendPrompt: bool, limit: nat,
                 file: Option<SessionFile>, ghost t: seq<Token>, ghost session: seq<Token>)
    returns (r: Reply, file': Option<SessionFile>)
    requires Settings(model, ctx.size, p, t) && p.nPredict != 0 && FullRun(model, prompt, t)
    requires limit >= |t| + 2
    requires if file.Some? then file.value == Snapshot(session) else session == []
    requires session < t && Follows(prompt, session, if sendPrompt then prompt else session)
    requires !sendPrompt ==> session != []
    requires session == (if sendPrompt then prompt else session) ==> ctx.logits == Place(session)
    modifies ctx
    ensures ctx.logits == Place(r.conversation)
    ensures var inp := if sendPrompt then prompt else session;
            && file' == Some(Snapshot(r.conversation)) && Served(model, p, inp, |session|, r)
            && r.conversation <= t && |r.conversation| == SliceEnd(p, |t|, |inp|, |session|) >= |session|
            && (r.eog <==> r.conversation + r.pending == t)
            && (r.remaining == [] <==> |r.conversation| >= |inp|)
            && r.conversation + r.pending <= t
            && (r.remaining != [] ==> r.pending == [])
            && |r.pending| <= 1 && (r.pending != [] ==> p.nPredict > 0)
  {
    hide Remembers, Answers, Refused, BudgetFits, SamplesOnce, Mute;
    ghost var inp := if sendPrompt then prompt else session;
    SessionIsReused(prompt, t, session, inp);
    var req := Request(p, sendPrompt, if sendPrompt then prompt else [], true);
    ghost var logits := ctx.logits;
    PrimedByItself(model, session, inp, logits);
    var out;
    out, file' := Perform(ctx, model, req, file, limit);
    PromiseIsSlice(model, ctx.size, p, prompt, t, session, inp, logits, limit, out, ctx.logits, file');
    r := out.reply;
    WholeSession(model, p, session, inp, logits, r);
    OneSlice(model, p, prompt, t, session, inp, r);
  }

  /**
   Lines 276-312 of the README as a client that has the context to itself: ingest with `ingest`, then generate with
   `generate` until the end token; the file ends as the snapshot of the full run.
   */
  method Converse(ctx: Context, model: Model, ingest: Params, generate: Params, prompt: seq<Token>, limit: nat, ghost t: seq<Token>)
    returns (file: Option<SessionFile>)
    requires Settings(model, ctx.size, ingest, t) && Settings(model, ctx.size, generate, t)
    requires ingest.nPredict != 0 && (generate.nPredict < 0 || generate.nPredict >= 2)
    requires FullRun(model, prompt, t) && limit >= |t| + 2
    modifies ctx
    ensures exists last :: file == Some(Snapshot(last)) && (last == t || (last < t && |last| == |t| - 1))
    ensures ingest.nPredict < 0 && generate.nPredict < 0 ==> file == Some(Snapshot(t))
  {
    hide Served, FullRun, CommonPrefix, Continues, Snapshot, Settings, Place;
    assert [] < t && prompt <= t && prompt != [] by { Nonempty(model, prompt, t); }
    file := None;
    ghost var session := [];
    var r;
    r, file := OneCall(ctx, model, ingest, prompt, true, limit, file, t, session);
    session := r.conversation;
    while r.remaining != []
      invariant file == Some(Snapshot(session)) && session == r.conversation <= t && ctx.logits == Place(session)
      invariant r.conversation + r.pending <= t && (r.eog <==> r.conversation + r.pending == t)
      invariant r.remaining != [] ==> |session| < |prompt| && r.pending == [] && !r.eog
      invariant r.remaining == [] ==> |session| >= |prompt|
      invariant r.pending == [] || (|r.pending| == 1 && ingest.nPredict > 0)
      decreases |prompt| - |session|
    {
      r, file := OneCall(ctx, model, ingest, prompt, true, limit, file, t, session);
      session := r.conversation;
    }
    while !r.eog
      invariant file == Some(Snapshot(session)) && session == r.conversation <= t && ctx.logits == Place(session)
      invariant r.conversation + r.pending <= t && (r.eog <==> r.conversation + r.pending == t)
      invariant |session| >= |prompt|
      invariant r.pending == [] || (|r.pending| == 1 && (ingest.nPredict > 0 || generate.nPredict > 0))
      decreases |t| - |session|
    {
      r, file := OneCall(ctx, model, generate, prompt, false, limit, file, t, session);
      session := r.conversation;
    }
    assert r.pending == [] ==> session + r.pending == session;
  }
}
