# Instruction-bounded inference, verified

Dafny models of the parts of a llama.cpp canister that have to get an invariant right.

A canister call on the Internet Computer may execute only so many instructions. The
completion loop of llama.cpp is therefore patched: a call evaluates at most `max_tokens`
tokens and leaves the rest in a session file. A client sends the whole prompt again and
again until nothing of it remains, and then empty prompts until the end token. The
question behind the first half of this project is whether the slicing can be seen in the
result. It cannot exactly if every call that re-enters its session finds the right logits in
the context, for the session file has none. That is proved for every prompt, every model and
every choice of budgets, as long as prompt and generation together stay within `n_ctx - 4`
tokens; what a single call does is answered beyond that, with context shifts, Self-Extend and
sessions that fill the context.

The second half follows the code around it: the splitter that finds markers in rendered
chat templates, the builder that turns parse events into JSON arguments while the text is
still arriving, Base64, the resumable upload with its metadata file, the removal of
unneeded WebAssembly globals, and two smaller pieces.

## What is modelled

* `LlamaMemory`, `SelfExtend`, `Completion`, `Call`, `Corners`, `Slicing`: the generation loop. A
  context is a list of cells (token, position) and the cells the last logits were computed
  from; it outlives a call, a session file holds only tokens and cells. `Generation` has the local variables of `main_` as its fields and the parts of a
  pass as its methods; the loop invariant is `Steady`. `Call` puts session loading and
  matching in front and the terminal save behind it, and says what a call promises in terms of
  its request; `Corners` has single requests at which it does not do what one expects.
  `Replied` says on plain values what a call promises, given the logits it finds, and `Served`
  what it promises with the right ones; `Slicing` reasons about sequences of such promises and
  about the client that makes the calls.
* `Markers`, `DiffSplit`, `Affixes`: strings split into segments, compared from both ends.
* `JsonScan`, `JsonText`, `QuoteNormalizer`, `QuoteMeaning`, `ToolCalls`, `ToolCallText`,
  `ToolCallValues`, `GemmaRender`: tool-call arguments as JSON, printed piece by piece.
  `JsonValue` has a reader after RFC 8259 (without white space) that shares nothing with the
  printers; what they print is read back with it.
* `Base64` (sections 3.2, 4 and 5 of RFC 4648): the loops on bytes, with the shifts and
  masks of the source, against the bit string of the data.
* `Sequences`, `Wrappers`: what the others share.
* `Metadata`, `Upload`: the list of uploaded files with its bytes on disk, the canister half
  and the client half of the chunk protocol.
* `WasmGlobals` (section 2.5.1 of the WebAssembly Core Specification), `CsvRow` (section 2 of
  RFC 4180), `Pareto`.

The model itself (logits and sampler) is a function from the visible cells and the accepted
tokens to the next token. Text is represented by its tokens, so `prompt_remaining` is a list
of tokens. The instruction limit of the platform is a number of passes; a call that reaches
it has no effect, and neither has one that aborts because there are no logits. SHA-256 is a function of the bytes added so far, and the JSON library a
function `parse`.

## Where the code and its promise differ

* Diff split: the pieces do not always reassemble the inputs. `DiffSplit.SplitLaw` gives the
  exact condition, on the segments of the inputs (`Mishap`), and `DiffSplit.LawFails` an example.
* The README promises that a sequence of calls is equivalent to one run of `llama-cli`. A session
  file holds tokens and cells but no logits (`llama-context.cpp`, lines 2565-2609), and a call
  whose session covers its input evaluates nothing before it samples (lines 934-965 and 1083 of
  `main_.cpp`). So its first token comes from whatever the static context decoded last, which may
  be another conversation (`Corners.TwoConversations`); in a context that has decoded nothing the
  sampler aborts (`Corners.FreshContext`). The equivalence holds if and only if those logits pick
  the right token (`Slicing.InvisibleIfPrimed`), as they do when nothing else decodes between the
  calls (`Slicing.UndisturbedIsPrimed`, `Slicing.Converse`).
* A one-token chunk of the prompt is echoed as if it were output. `EchoesPrompt` says for which
  requests: n_batch is 1, or it leaves a remainder of one token, or the limit wraps around
  (`Call.Perform`, `Completion.Generation.OutputAtEnd`, `Corners.EchoedPrompt`).
* A re-sent prompt that is a proper prefix of the session leaves its last token in the cache
  twice (`Completion.Generation.TrimmedCache`, `Corners.ResentPrompt`).
* A saved file can pair tokens with the wrong cells. With a coherent session before the call and
  no context shift in it, they agree if and only if the session is a part of the input, or the
  prompt is not re-sent too late and the call does not stop at its prompt within the tokens the
  two have in common (`SavesAgree` in `Call.Perform`). A call stops at its prompt under `-n 0`,
  where the condition is just that the session is a part of the input, and when a reverse prompt
  ends the input (`Completion.Generation.CoherentAtEnd`, `Corners.PredictNothing`).
* A session longer than `n_ctx - 4` that is entered again with an empty prompt loses tokens: the
  end of a first chunk longer than that is fed to the sampler but never processed. The budget
  holds all the same, and the tokens are lost if and only if `SkipsTokens` holds of the request
  (`Completion.Generation.AccountedAtEnd`, `Corners.ReenteredSession`).
* A session saved under Self-Extend cannot be re-entered once anything was grouped: `n_past` and
  `ga_i` start over, the cells do not (`Completion.Generation.ReenterSqueezed`,
  `Corners.ReenteredGroups`).
* `ga_w > 0` is needed by the Self-Extend loop but not asserted: below 0 the loop never ends, and
  at 0 it divides by zero (`SelfExtend.Guard`).
* The output of the quote converter is not always monotone
  (`QuoteNormalizer.Streaming`, `QuoteNormalizer.StreamingFails`).
* Renumbering globals is wrong for a module that imports globals and keeps some of its own
  (`WasmGlobals.ReferencesReach`, `WasmGlobals.ImportShiftsIndex`).
* An upload chunk that is neither the first, nor the last delivered, nor the next corrupts hash
  and size; a first chunk that comes late restarts the upload (`Upload.AnyChunk`). An empty file
  is never uploaded (`Upload.UploadFile`).
* After the closing event of a call without a name the mapper keeps a pointer to a call that
  is gone; `ToolCalls.Usable` keeps events that follow it out of the model.

## Model

| member | source | states |
|---|---|---|
| LlamaMemory.KeepPrefix | source/llama_cpp_canister/src/main_.cpp:590-591 | dropping everything from position n on leaves exactly the first n tokens of a gapless cache, still gapless |
| LlamaMemory.CloseHole | source/llama_cpp_canister/src/main_.cpp:887-890 | removing a span and sliding the tail down closes the hole: the result is the gapless layout of the history without the span |
| LlamaMemory.NextPosPlace | source/llama_cpp_canister/src/main_.cpp:972-1000 | a decode on a gapless cache of n tokens writes at position n, as `n_past` assumes |
| LlamaMemory.Context.Decode | source/llama_cpp_canister/src/main_.cpp:984-992 | the whole new state of a decode: cells appended after the largest position, the logits over them, or failure with nothing changed when no slot is left |
| LlamaMemory.AddSpanFrees | source/llama_cpp_canister/src/llama_cpp_onicai_fork/src/llama-kv-cache.cpp:510-553 | a downward shift frees exactly the cells of the span that would get a negative position, moves the rest of the span and leaves every other cell alone |
| SelfExtend.OneGrouping | source/llama_cpp_canister/src/main_.cpp:901-931 | the three span operations of one pass take the closed form for k groupings to the closed form for k + 1 |
| SelfExtend.ExtendOnce | source/llama_cpp_canister/src/main_.cpp:901-931 | one pass, with the divisions of the source: `n_past - ga_i` drops by exactly `ga_w`, and one grouping is added |
| SelfExtend.Extend | source/llama_cpp_canister/src/main_.cpp:901-931 | the loop ends with exactly `tokens / ga_w` groupings, cells, `n_past` and `ga_i` in closed form (token j at j/g, or j minus the gain) |
| SelfExtend.SpotsCover | source/llama_cpp_canister/src/main_.cpp:901-931 | positions cover 0 .. n_past-1: each is the place of some token |
| SelfExtend.SpotsMonotone | source/llama_cpp_canister/src/main_.cpp:901-931 | positions never decrease along the tokens and never step by more than the tokens do |
| SelfExtend.SqueezedNext | source/llama_cpp_canister/src/main_.cpp:901-931 | after any number of groupings the next decoded token lands at `n_past` |
| SelfExtend.MoreTokens | source/llama_cpp_canister/src/main_.cpp:984-1000 | a decode keeps the closed form: the new tokens land where the grouping formula puts them |
| SelfExtend.Reloaded | source/llama_cpp_canister/src/main_.cpp:934-965 | a saved grouped cache with `n_past` counted by tokens and `ga_i` at 0 is in closed form again, and `n_past` the next free position, if and only if nothing was grouped |
| SelfExtend.Guard | source/llama_cpp_canister/src/main_.cpp:726-729 | what the two assertions leave out: the loop guard fails after some number of passes if and only if `ga_w` > 0; below 0 it holds for ever, at 0 the first pass divides by it |
| Completion.ShiftCells | source/llama_cpp_canister/src/main_.cpp:880-899 | one context shift turns the window of a history (first n_keep tokens and newest tail) into the smaller window, without gaps |
| Completion.WindowShrinks | source/llama_cpp_canister/src/main_.cpp:880-899 | shifting a window again gives the window of the same history: earlier shifts leave no trace |
| Completion.WindowGrows | source/llama_cpp_canister/src/main_.cpp:984-1000 | evaluating tokens appends them to the window |
| Completion.Generation.constructor | source/llama_cpp_canister/src/main_.cpp:842-845 | the loop invariant holds when the loop is entered |
| Completion.Generation.PastBounds | source/llama_cpp_canister/src/main_.cpp:860-900 | after any number of shifts `n_past` is below `n_ctx`, at least one token is dropped each time and n_keep tokens stay |
| Completion.Generation.FullContext | source/llama_cpp_canister/src/main_.cpp:860-900 | a shift only ever happens on a single generated token, drops at least one position and ends below `n_ctx` |
| Completion.Generation.ContextShift | source/llama_cpp_canister/src/main_.cpp:880-899 | the shift step keeps the invariant, drops the session path and half of the positions behind n_keep, rounded down; it is only taken where shifting is allowed |
| Completion.Generation.MakeRoom | source/llama_cpp_canister/src/main_.cpp:860-931 | context shift, Self-Extend or a full context: when it is which, what the cache then holds, and that nothing changes when the context is full |
| Completion.Generation.TakeMatching | source/llama_cpp_canister/src/main_.cpp:934-965 | what is taken from the session is a common run; at the first difference the list is cut there, otherwise it is left alone |
| Completion.Generation.ReusePrefix | source/llama_cpp_canister/src/main_.cpp:934-965 | whenever tokens are left to evaluate, the session list has been used up or cut and equals what was processed: nothing stale can be interleaved |
| Completion.Generation.KeptGrows | source/llama_cpp_canister/src/main_.cpp:984-1000 | what the cache shows after a decode, also when the re-sent last prompt token sits in it twice |
| Completion.Generation.DecodeBatch | source/llama_cpp_canister/src/main_.cpp:967-1017 | one decode takes a whole chunk; it can fail only when the cache is neither the one a coherent session gives nor, under Self-Extend from an empty context, shorter than `n_ctx` |
| Completion.Generation.CheckBudget | source/llama_cpp_canister/src/main_.cpp:1019-1029 | stopping after the end token or at the budget leaves the session list equal to the conversation |
| Completion.Generation.Evaluate | source/llama_cpp_canister/src/main_.cpp:967-1041 | stepping by n_batch skips no token: all of `embd` is evaluated before the next pass |
| Completion.Generation.SaveBeforeFirstSample | source/llama_cpp_canister/src/main_.cpp:1052-1080 | the first save happens once, after the prompt, and stores exactly the prompt with its cells |
| Completion.ResumesContinues | source/llama_cpp_canister/src/main_.cpp:1082-1097 | a call whose session covers its input continues the model if and only if the logits left in the context pick the token the model would |
| Completion.ServedIfPrimed | source/llama_cpp_canister/src/main_.cpp:1082-1097 | so does its whole reply |
| Completion.Generation.Sample | source/llama_cpp_canister/src/main_.cpp:1082-1097 | the sampled token is the continuation of the history as the cache shows it, or comes from the logits the context was left with if nothing has been evaluated |
| Completion.Generation.NothingHeard | source/llama_cpp_canister/src/main_.cpp:1082-1097 | a call finds no logits to sample from only if its session covers the input and nothing has been decoded in the context before |
| Completion.Generation.PushPrompt | source/llama_cpp_canister/src/main_.cpp:1104-1132 | the next chunk is the next prompt tokens, up to n_batch, the budget or the end of the prompt |
| Completion.Generation.FeedWithinBudget | source/llama_cpp_canister/src/main_.cpp:1104-1132 | no chunk reaches past reused + max_tokens, also when `n_matching + max_tokens` wraps around at 2^64 |
| Completion.Generation.EogLast | source/llama_cpp_canister/src/main_.cpp:1374-1386 | of the tokens just fed only the last can be the end token that counts |
| Completion.Generation.EchoStep | source/llama_cpp_canister/src/main_.cpp:1153-1181 | the output grows by the one-token prompt chunks and the generated tokens |
| Completion.Generation.FeedNext | source/llama_cpp_canister/src/main_.cpp:1049-1397 | feeding keeps the invariant: prompt and history in order, `prompt_remaining`, echo, end flags, file |
| Completion.Generation.LongCropped | source/llama_cpp_canister/src/main_.cpp:846-858 | of a re-entered session only the first chunk can be cut, and what is lost are its tokens behind `n_ctx - 4` |
| Completion.Generation.LongAligned | source/llama_cpp_canister/src/main_.cpp:934-965 | chunks of a re-entered session are answered by the session alone until its tokens are used up or skipped |
| Completion.Generation.Process | source/llama_cpp_canister/src/main_.cpp:844-1042 | what was fed is processed: the invariant again, or the state in which the call ends; also for a re-entered session above `n_ctx - 4` |
| Completion.Generation.Pass | source/llama_cpp_canister/src/main_.cpp:842-1398 | one pass keeps the invariant or ends the call in a described state; what was fed is processed in the next pass |
| Completion.Generation.Loop | source/llama_cpp_canister/src/main_.cpp:842-1398 | the whole loop, for every parameter setting: how a call can end, and what holds then |
| Completion.Generation.AccountedAtEnd | source/llama_cpp_canister/src/main_.cpp:846-1036 | for every input the source admits: never more than max_tokens tokens are evaluated, fed and remaining tokens make up the input, and what was fed is processed or pending if and only if the first chunk is not cut |
| Completion.Generation.ProcessedAtEnd | source/llama_cpp_canister/src/main_.cpp:842-1398 | how much a call has processed when it stops at its prompt, and that it gets past the reused tokens when it does not |
| Completion.Generation.MirrorAtEnd | source/llama_cpp_canister/src/main_.cpp:1400-1407 | at the terminal save the session list equals the conversation, unless the request stops at its prompt before the loaded list has been matched or cut |
| Completion.Generation.CoherentAtEnd | source/llama_cpp_canister/src/main_.cpp:1400-1407 | at the terminal save the cells are the gapless layout of the session list, if and only if the session was used up or cut and the prompt is not re-sent too late |
| Completion.Generation.SavedSnapshot | source/llama_cpp_canister/src/main_.cpp:1400-1407 | with a coherent session the saved file is the snapshot of the conversation: tokens and cells agree |
| Completion.Generation.CacheAtEnd | source/llama_cpp_canister/src/main_.cpp:860-900 | after any number of context shifts the cache holds the first n_keep tokens and the newest ones, gapless from 0, fewer than `n_ctx` |
| Completion.Generation.PastIsRemaining | source/llama_cpp_canister/src/main_.cpp:880-899 | `n_past` after any number of shifts, by the numbers of the request: a full context keeps n_keep tokens and the newer half of the others |
| Completion.Generation.EndsFor | source/llama_cpp_canister/src/main_.cpp:842-1398 | why a call has ended: end token, budget, sampling limit, reverse prompt, or a full context that may not be shifted |
| Completion.Generation.FirstSaveAtEnd | source/llama_cpp_canister/src/main_.cpp:1052-1080 | what the save before the first sample has left in the file |
| Completion.Generation.GroupedAtEnd | source/llama_cpp_canister/src/main_.cpp:901-931 | Self-Extend from an empty context, at the end of any call: cells, `n_past` and `ga_i` in closed form, and every generated token continues the squeezed history before it |
| Completion.Generation.ReenterSqueezed | source/llama_cpp_canister/src/main_.cpp:934-965 | a session saved under Self-Extend and re-entered in one chunk: what the grouping loop relies on holds again if and only if nothing was grouped |
| Completion.Generation.TrimmedCache | source/llama_cpp_canister/src/main_.cpp:591-607 | a re-sent prompt that is a proper prefix of the session leaves its last token in the cache twice |
| Completion.Generation.OutputAtEnd | source/llama_cpp_canister/src/main_.cpp:1153-1176 | the output ends with what was generated, and is just that if and only if the request echoes no prompt token: by n_batch, the budget and the 64-bit wrap-around |
| Completion.Generation.LogitsAtEnd | source/llama_cpp_canister/src/main_.cpp:984-1000 | the logits a call leaves: those of its last evaluation, or those it found if it evaluated nothing |
| Completion.Generation.FirstAtEnd | source/llama_cpp_canister/src/main_.cpp:934-965 | if the session covers the input, the first generated token comes from the logits the context was left with, and there are some |
| Completion.Generation.EndMeansServed | source/llama_cpp_canister/src/main_.cpp:842-1398 | every end of a plain call that stays inside the context meets the value-level specification, whatever logits it found |
| Completion.Generation.NotEndedYet | source/llama_cpp_canister/src/main_.cpp:842-1398 | a call cut off at the instruction limit was still generating and had not met an end token |
| Completion.Generation.LongRun | source/llama_cpp_canister/src/main_.cpp:842-1398 | a call that filled the context had not come to an end inside it |
| Completion.Generation.FileUntouched | source/llama_cpp_canister/src/main_.cpp:1053-1064 | without a session path, or with a read-only one, the file is never written |
| Call.MatchSession | source/llama_cpp_canister/src/main_.cpp:567-608 | the matching loop finds the longest common prefix, drops the cells behind it and shortens the session when the prompt is re-sent |
| Call.MatchedWires | source/llama_cpp_canister/src/main_.cpp:567-608 | the facts about the two lists that the loop relies on, including that `n_past` and the matched cells differ exactly in the re-sent case |
| Call.Perform | source/llama_cpp_canister/src/main_.cpp:515-608 | a whole call, for every request and every context: refusals with their codes; budget and conservation; why it ended; output; which logits the first token comes from and which stay; cells, also after context shifts, and file with the exact condition for their agreement; Self-Extend in closed form; `Promise` for a plain call; which calls are sure to end, and which abort for want of logits; an aborted call changes nothing |
| Call.Run | source/llama_cpp_canister/src/main_.cpp:567-1483 | the same from the matching phase to the terminal save |
| Call.InputIs | source/llama_cpp_canister/src/main_.cpp:515-545 | which tokens the call works on: the prompt, the session, or a BOS |
| Call.WindowKept | source/llama_cpp_canister/src/main_.cpp:611-615 | how n_keep follows from the request, a BOS included, and that exactly those tokens and the newest ones survive any number of shifts |
| Call.EndsHere | source/llama_cpp_canister/src/main_.cpp:842-1398 | the reason for the end in terms of request and reply |
| Call.FirstSaveKept | source/llama_cpp_canister/src/main_.cpp:1052-1080 | without a terminal save the file is the snapshot of the prompt, or untouched |
| Call.AnswersAtEnd | source/llama_cpp_canister/src/main_.cpp:1400-1483 | the ends of the loop meet what a reply promises |
| Call.HearsAtEnd | source/llama_cpp_canister/src/main_.cpp:1082-1097 | the logits at the ends of the loop, which no session file holds |
| Call.NotMute | source/llama_cpp_canister/src/main_.cpp:1082-1097 | a call that ends had something to sample from |
| Call.RemembersAtEnd | source/llama_cpp_canister/src/main_.cpp:1400-1407 | the ends of the loop meet what cells and file promise |
| Corners.PredictNothing | source/llama_cpp_canister/src/main_.cpp:1400-1407 | `-n 0`, session [1, 2, 3], prompt [1, 9]: the saved file pairs three tokens with the cell of one |
| Corners.ResentPrompt | source/llama_cpp_canister/src/main_.cpp:591-607 | session [1, 2, 3], prompt [1, 2]: the cache shows 1, 2, 2 |
| Corners.EchoedPrompt | source/llama_cpp_canister/src/main_.cpp:1153-1176 | prompt [7], budget 1: output although nothing was generated |
| Corners.ReenteredSession | source/llama_cpp_canister/src/main_.cpp:846-858 | n_ctx 8, a session of five tokens, an empty prompt: the fifth token is neither processed nor pending |
| Corners.TwoConversations | source/llama_cpp_canister/src/llama_cpp_onicai_fork/src/llama-context.cpp:2565-2609 | two conversations in one context: after the other one evaluated [9], the session [1, 2, 3] goes on with the token picked from the logits of [9] |
| Corners.FreshContext | source/llama_cpp_canister/src/llama_cpp_onicai_fork/src/llama-context.cpp:780-810 | a session re-entered in a context that has decoded nothing: the call aborts |
| Corners.ReenteredGroups | source/llama_cpp_canister/src/main_.cpp:934-965 | four tokens saved after one grouping of two: `n_past` is 4 and the next free position 3 |
| Slicing.UnlimitedIsFullRun | source/llama_cpp_canister/src/main_.cpp:842-1398 | one unlimited call from an empty session is the full run up to the first end token |
| Slicing.Agree | source/llama_cpp_canister/src/main_.cpp:842-1398 | two histories the model continues agree as far as both go |
| Slicing.OneSlice | source/llama_cpp_canister/src/main_.cpp:842-1407 | one call moves the session along the full run to exactly `SliceEnd`, says end-of-generation exactly when the run is complete, and asks for more prompt exactly when some remains |
| Slicing.SlicingIsInvisible | source/llama_cpp_canister/README.md:276-312 | for any budgets, as long as each call finds its logits in the context: every session on the way is a prefix of the session of one unlimited call, growing call by call with exact length, and equal to it at the end token |
| Slicing.InvisibleIfPrimed | source/llama_cpp_canister/README.md:276-312 | the exact condition: the first n calls stay inside the unlimited run if and only if each of them that re-enters its session finds logits that pick the token of the run |
| Slicing.UndisturbedIsPrimed | source/llama_cpp_canister/src/main_.cpp:230-298 | they do when nothing else decodes in the context between the calls: each call leaves what the next one needs |
| Slicing.EveryCallCounts | source/llama_cpp_canister/README.md:276-312 | no call is wasted: after call k the session has at least k + 1 tokens, so the protocol ends |
| Slicing.PromiseIsSlice | source/llama_cpp_canister/src/main_.cpp:842-1407 | with its logits in the context and enough instructions a call never traps or fails on the way |
| Slicing.OneCall | source/llama_cpp_canister/README.md:276-312 | the same for the imperative call, file by file: it needs the logits of its session in the context and leaves those of its conversation |
| Slicing.Converse | source/llama_cpp_canister/README.md:276-312 | the documented client with the context to itself: repeat the prompt until nothing remains, then empty prompts until the end token; it terminates and the file is the snapshot of the full run, whatever was decoded before |
| Markers.SegmentizeMarkers | source/llama_cpp_canister/src/llama_cpp_onicai_fork/common/chat-auto-parser-helpers.cpp:269-299 | the loop computes the reference segmentation, and the segments put together are the text |
| Markers.Lossless | source/llama_cpp_canister/src/llama_cpp_onicai_fork/common/chat-auto-parser-helpers.cpp:269-299 | segmentation loses and adds no character |
| Markers.Shapes | source/llama_cpp_canister/src/llama_cpp_onicai_fork/common/chat-auto-parser-helpers.cpp:269-299 | a marker runs from an opener to its first matching closer; text has no opener, except a last one that is never closed |
| Markers.NoneEmpty | source/llama_cpp_canister/src/llama_cpp_onicai_fork/common/chat-auto-parser-helpers.cpp:269-299 | no segment is empty |
| Markers.MarkersExample | source/llama_cpp_canister/src/llama_cpp_onicai_fork/common/chat-auto-parser-helpers.cpp:269-299 | text and both kinds of brackets |
| DiffSplit.CalculateDiffSplit | source/llama_cpp_canister/src/llama_cpp_onicai_fork/common/chat-auto-parser-helpers.cpp:87-207 | the method computes `DiffOf`, and its pieces reassemble both inputs if and only if there is no mishap |
| DiffSplit.SplitLaw | source/llama_cpp_canister/src/llama_cpp_onicai_fork/common/chat-auto-parser-helpers.cpp:87-207 | the law of the splitter with its exact condition on the two lists of segments, for all pairs of strings |
| DiffSplit.TwiceIsRepeats | source/llama_cpp_canister/src/llama_cpp_onicai_fork/common/chat-auto-parser-helpers.cpp:102-165 | a segment is taken twice if and only if the shorter side is the two ends of the longer one and the segment in its middle stands again next to one of them |
| DiffSplit.WalkEnds | source/llama_cpp_canister/src/llama_cpp_onicai_fork/common/chat-auto-parser-helpers.cpp:102-139 | the walk uses up a side exactly when that side is shorter, even, and its halves are the ends of the other |
| DiffSplit.LawWithoutRepeats | source/llama_cpp_canister/src/llama_cpp_onicai_fork/common/chat-auto-parser-helpers.cpp:87-207 | the law holds whenever no segment occurs twice within an input |
| DiffSplit.LawFails | source/llama_cpp_canister/src/llama_cpp_onicai_fork/common/chat-auto-parser-helpers.cpp:87-207 | `<a><b>` against `<a><b><b>` gives an empty difference |
| DiffSplit.WalkLoop | source/llama_cpp_canister/src/llama_cpp_onicai_fork/common/chat-auto-parser-helpers.cpp:102-139 | the loop with four iterators and two flags refines the recursive walk |
| DiffSplit.WalkSound | source/llama_cpp_canister/src/llama_cpp_onicai_fork/common/chat-auto-parser-helpers.cpp:102-139 | the walk keeps what was taken and what is left equal to the inputs, and stops only where neither end matches or a side is down to one segment |
| DiffSplit.WalkGoesFar | source/llama_cpp_canister/src/llama_cpp_onicai_fork/common/chat-auto-parser-helpers.cpp:102-165 | after the walk and the end cases no segment is shared at either end, unless a side is used up or both are down to the same text |
| DiffSplit.SuffixFirst | source/llama_cpp_canister/src/llama_cpp_onicai_fork/common/chat-auto-parser-helpers.cpp:141-165 | of two places where the one segment of a side could go, it goes to the suffix |
| DiffSplit.TrimGoesFar | source/llama_cpp_canister/src/llama_cpp_onicai_fork/common/chat-auto-parser-helpers.cpp:169-183 | where both sides have text at a border, the trimmed pieces share no first and no last character |
| DiffSplit.PlainTexts | source/llama_cpp_canister/src/llama_cpp_onicai_fork/common/chat-auto-parser-helpers.cpp:87-207 | texts without markers: longest shared suffix, then longest shared prefix, and nothing shared is left |
| DiffSplit.HelloExample | source/llama_cpp_canister/src/llama_cpp_onicai_fork/common/chat-auto-parser-helpers.cpp:169-183 | "Hello Ann!" against "Hello Bob!" |
| DiffSplit.LastMatchSound | source/llama_cpp_canister/src/llama_cpp_onicai_fork/common/chat-auto-parser-helpers.cpp:141-165 | the three end cases keep it too unless a segment is taken twice |
| DiffSplit.TrimSum | source/llama_cpp_canister/src/llama_cpp_onicai_fork/common/chat-auto-parser-helpers.cpp:169-183 | trimming text character by character keeps what the pieces add up to |
| DiffSplit.TrimLoop | source/llama_cpp_canister/src/llama_cpp_onicai_fork/common/chat-auto-parser-helpers.cpp:169-183 | the trimming refines its specification |
| DiffSplit.RepairFails | source/llama_cpp_canister/src/llama_cpp_onicai_fork/common/chat-auto-parser-helpers.cpp:185-204 | after a segment was taken twice the two repairs help in exactly two situations |
| Sequences.CommonSuffixLength | source/llama_cpp_canister/src/llama_cpp_onicai_fork/common/chat-auto-parser-helpers.cpp:78-85 | the backward counting loop finds the longest shared suffix |
| Sequences.CommonPrefixLength | source/llama_cpp_canister/src/llama_cpp_onicai_fork/common/chat-auto-parser-helpers.cpp:69-76 | the forward counting loop finds the longest shared prefix |
| Affixes.UntilCommonPrefix | source/llama_cpp_canister/src/llama_cpp_onicai_fork/common/chat-auto-parser-helpers.cpp:210-235 | the method refines `Until` |
| Affixes.AfterCommonSuffix | source/llama_cpp_canister/src/llama_cpp_onicai_fork/common/chat-auto-parser-helpers.cpp:237-264 | the method refines `After` |
| Affixes.SuffixMirrored | source/llama_cpp_canister/src/llama_cpp_onicai_fork/common/chat-auto-parser-helpers.cpp:237-264 | the shared suffix is the shared prefix of the reversals |
| Affixes.Mirrored | source/llama_cpp_canister/src/llama_cpp_onicai_fork/common/chat-auto-parser-helpers.cpp:210-264 | on any three strings `after_common_suffix` is the reversal of `until_common_prefix` on the reversals |
| Affixes.LastIsFirstReversed | source/llama_cpp_canister/src/llama_cpp_onicai_fork/common/chat-auto-parser-helpers.cpp:237-264 | the last occurrence is the first occurrence of the reversal |
| Affixes.UntilIsFirst | source/llama_cpp_canister/src/llama_cpp_onicai_fork/common/chat-auto-parser-helpers.cpp:210-235 | the result ends at the first occurrence of the shared prefix |
| Affixes.UntilNothing | source/llama_cpp_canister/src/llama_cpp_onicai_fork/common/chat-auto-parser-helpers.cpp:210-235 | nothing shared, or nothing found, gives nothing |
| JsonScan.JsonBraceDepth | source/llama_cpp_canister/src/llama_cpp_onicai_fork/common/chat-peg-parser.cpp:41-67 | the scanning loop computes the depth of the scanner state machine |
| JsonScan.OverAppend | source/llama_cpp_canister/src/llama_cpp_onicai_fork/common/chat-peg-parser.cpp:41-67 | scanning can be resumed: the state after two pieces is the state of the second from the first |
| QuoteNormalizer.NormalizeQuotesToJson | source/llama_cpp_canister/src/llama_cpp_onicai_fork/common/chat-peg-parser.cpp:83-160 | the loop refines the recursive converter |
| QuoteNormalizer.Idempotent | source/llama_cpp_canister/src/llama_cpp_onicai_fork/common/chat-peg-parser.cpp:83-160 | normalising twice changes nothing more |
| QuoteNormalizer.LockStep | source/llama_cpp_canister/src/llama_cpp_onicai_fork/common/chat-peg-parser.cpp:83-160 | the brace scanner on the output is inside a string exactly when the converter is in a quote mode; no single quote is left outside a string |
| QuoteNormalizer.Streaming | source/llama_cpp_canister/src/llama_cpp_onicai_fork/common/chat-peg-parser.cpp:83-160 | the output of a prefix is a prefix of the output, exactly unless a backslash waits in a single-quoted string and a single quote follows |
| QuoteNormalizer.StreamingFails | source/llama_cpp_canister/src/llama_cpp_onicai_fork/common/chat-peg-parser.cpp:83-160 | the shortest input at which it is not |
| QuoteMeaning.SingleMeans | source/llama_cpp_canister/src/llama_cpp_onicai_fork/common/chat-peg-parser.cpp:83-160 | a single-quoted literal becomes the JSON string that reads as the same characters, whatever its escapes |
| QuoteMeaning.LiteralMeans | source/llama_cpp_canister/src/llama_cpp_onicai_fork/common/chat-peg-parser.cpp:83-160 | so for the literal of any text, with double quotes bare or escaped |
| QuoteMeaning.DoubleStays | source/llama_cpp_canister/src/llama_cpp_onicai_fork/common/chat-peg-parser.cpp:83-160 | a double-quoted literal stays as it is |
| QuoteMeaning.PlainStays | source/llama_cpp_canister/src/llama_cpp_onicai_fork/common/chat-peg-parser.cpp:83-160 | so do all other characters |
| QuoteMeaning.MeaningKept | source/llama_cpp_canister/src/llama_cpp_onicai_fork/common/chat-peg-parser.cpp:83-160 | the whole text: literal by literal, its meaning is kept |
| QuoteMeaning.PrintStays | source/llama_cpp_canister/src/llama_cpp_onicai_fork/common/chat-peg-parser.cpp:83-160 | what is JSON already stays as it is |
| QuoteMeaning.DoubleInSingle | source/llama_cpp_canister/src/llama_cpp_onicai_fork/common/chat-peg-parser.cpp:78-83 | the example with double quotes in a single-quoted string |
| JsonText.EscapeInside | source/llama_cpp_canister/src/llama_cpp_onicai_fork/common/chat-peg-parser.cpp:69-76 | an escaped string neither ends nor leaves the JSON string it is printed in, whatever its characters |
| JsonText.EscapeAppend | source/llama_cpp_canister/src/llama_cpp_onicai_fork/common/chat-peg-parser.cpp:69-76 | escaping is per character |
| JsonText.TrimmedOne | source/llama_cpp_canister/src/llama_cpp_onicai_fork/common/chat-peg-parser.cpp:12-32 | values lose at most one space on either side |
| JsonText.TrimmedAll | source/llama_cpp_canister/src/llama_cpp_onicai_fork/common/chat-peg-parser.cpp:12-36 | names lose at most one space in front and all of them behind |
| JsonValue.EscapeReads | source/llama_cpp_canister/src/llama_cpp_onicai_fork/common/chat-peg-parser.cpp:69-76 | a reader of JSON strings (section 7 of RFC 8259) gets every text back from its escaped form |
| JsonValue.PrintReads | source/llama_cpp_canister/src/llama_cpp_onicai_fork/common/chat-peg-parser.cpp:69-76 | a reader of JSON values gets every value back from its text |
| ToolCalls.Mapper.Map | source/llama_cpp_canister/src/llama_cpp_onicai_fork/common/chat-peg-parser.cpp:252-424 | one event: the mapper object refines the transition function, and stays well-formed |
| ToolCalls.Mapper.NameTool | source/llama_cpp_canister/src/llama_cpp_onicai_fork/common/chat-peg-parser.cpp:295-310 | a name takes over the buffered arguments and publishes the call |
| ToolCalls.Mapper.CloseTool | source/llama_cpp_canister/src/llama_cpp_onicai_fork/common/chat-peg-parser.cpp:402-424 | closing flushes, closes quote and braces, publishes named calls and drops the others |
| ToolCalls.StepValid | source/llama_cpp_canister/src/llama_cpp_onicai_fork/common/chat-peg-parser.cpp:221-250 | every event keeps the mapper well-formed, and a pending call never has a name: the final flush of `from_ast` never finds one |
| ToolCalls.CloseBraces | source/llama_cpp_canister/src/llama_cpp_onicai_fork/common/chat-peg-parser.cpp:413-416 | the closing loop appends one brace for each open one |
| ToolCallText.CallPrints | source/llama_cpp_canister/src/llama_cpp_onicai_fork/common/chat-peg-parser.cpp:252-424 | for any string arguments and wherever the name comes, the events of a call append exactly that call with the JSON object of its arguments, closed |
| ToolCallValues.CallReadsBack | source/llama_cpp_canister/src/llama_cpp_onicai_fork/common/chat-peg-parser.cpp:252-424 | a JSON reader gets the names and values of the call back from its arguments |
| ToolCallValues.ValuesPrint | source/llama_cpp_canister/src/llama_cpp_onicai_fork/common/chat-peg-parser.cpp:321-400 | arguments of any kind, declared strings or not: the call appears with exactly the JSON object of its arguments, which reads back |
| ToolCallValues.NotJsonShown | source/llama_cpp_canister/src/llama_cpp_onicai_fork/common/chat-peg-parser.cpp:348-388 | a value that is not JSON is printed as a string; an unfinished container as it is; a number or container converted from single quotes |
| ToolCallValues.IdArrives | source/llama_cpp_canister/src/llama_cpp_onicai_fork/common/chat-peg-parser.cpp:287-293 | an id without the space behind it and one pair of quotes |
| ToolCallValues.ObjectArrives | source/llama_cpp_canister/src/llama_cpp_onicai_fork/common/chat-peg-parser.cpp:312-319 | a complete argument object, before or after the name, is the arguments, with the braces it lacks |
| ToolCallValues.NoObject | source/llama_cpp_canister/src/llama_cpp_onicai_fork/common/chat-peg-parser.cpp:312-319 | text that does not begin with a brace is no argument object |
| ToolCallValues.TwoPieces | source/llama_cpp_canister/src/llama_cpp_onicai_fork/common/chat-peg-parser.cpp:340-357 | a string value in two pieces; an empty piece adds a quote |
| ToolCallValues.SecondName | source/llama_cpp_canister/src/llama_cpp_onicai_fork/common/chat-peg-parser.cpp:295-310 | a second name replaces the first and keeps the arguments |
| ToolCallValues.QuoteClosed | source/llama_cpp_canister/src/llama_cpp_onicai_fork/common/chat-peg-parser.cpp:402-412 | a missing argument close is made up for by the close of the call |
| ToolCallValues.ClosedIsClosed | source/llama_cpp_canister/src/llama_cpp_onicai_fork/common/chat-peg-parser.cpp:413-416 | no brace is left open |
| ToolCallValues.ContentInOrder | source/llama_cpp_canister/src/llama_cpp_onicai_fork/common/chat-peg-parser.cpp:252-272 | content and reasoning are the texts of their events, in order |
| ToolCallText.CallsInOrder | source/llama_cpp_canister/src/llama_cpp_onicai_fork/common/chat-peg-parser.cpp:252-424 | each named call appears once, in order, from any state |
| ToolCallText.NamelessIsDropped | source/llama_cpp_canister/src/llama_cpp_onicai_fork/common/chat-peg-parser.cpp:402-424 | a call that never gets a name leaves no trace in the results |
| ToolCallText.NothingTakenBack | source/llama_cpp_canister/src/llama_cpp_onicai_fork/common/chat-peg-parser.cpp:252-424 | once the name is there, the arguments shown are a beginning of the final ones, at every event and in the middle of every string value |
| ToolCallText.EarlyOrLate | source/llama_cpp_canister/src/llama_cpp_onicai_fork/common/chat-peg-parser.cpp:295-338 | opening the object at the name or at the first argument makes no difference to the text |
| ToolCallText.ClosesOnce | source/llama_cpp_canister/src/llama_cpp_onicai_fork/common/chat-peg-parser.cpp:413-416 | after complete members exactly one brace is missing, whatever the strings contain |
| ToolCallText.ArgsPrint | source/llama_cpp_canister/src/llama_cpp_onicai_fork/common/chat-peg-parser.cpp:321-400 | the events of the arguments print the members of the object |
| GemmaRender.Streaming | source/llama_cpp_canister/src/llama_cpp_onicai_fork/common/chat-peg-parser.cpp:875-968 | if one tree is another one cut along its right spine, its rendering is a prefix of the other rendering |
| GemmaRender.PrintsValue | source/llama_cpp_canister/src/llama_cpp_onicai_fork/common/chat.cpp:1122-1152 | the complete tree of a value, as the grammar builds it, renders as the JSON text of the value |
| GemmaRender.EverySnapshot | source/llama_cpp_canister/src/llama_cpp_onicai_fork/common/chat-peg-parser.cpp:875-968 | whatever tree is seen while a value arrives, what is printed is a beginning of its JSON text |
| GemmaRender.ReadsBack | source/llama_cpp_canister/src/llama_cpp_onicai_fork/common/chat-peg-parser.cpp:875-968 | a JSON reader gets the value back from what was rendered |
| GemmaRender.Unfinished | source/llama_cpp_canister/src/llama_cpp_onicai_fork/common/chat-peg-parser.cpp:875-968 | what an unfinished node shows already |
| JsonValue.Balanced | source/llama_cpp_canister/src/llama_cpp_onicai_fork/common/chat-peg-parser.cpp:875-968 | the text of a value is balanced for the brace scanner |
| Base64.Encode | source/llama_cpp_canister/src/llama_cpp_onicai_fork/common/base64.hpp:80-144 | the three-byte loop writes the code defined by the bit string of the data |
| Base64.DecodeDigits | source/llama_cpp_canister/src/llama_cpp_onicai_fork/common/base64.hpp:200-230 | the rolling `last`/`bits` loop writes the bytes of the bit string, with alphabet detection and failure at the first wrong character |
| Base64.Decode | source/llama_cpp_canister/src/llama_cpp_onicai_fork/common/base64.hpp:200-244 | the whole new state of the destination, which may be the source itself; text behind the result is untouched |
| Base64.DecodeInPlace | source/llama_cpp_canister/src/llama_cpp_onicai_fork/common/base64.hpp:294-298 | decoding in place gives the result of decoding to a fresh buffer |
| Base64.DecodeText | source/llama_cpp_canister/src/llama_cpp_onicai_fork/common/base64.hpp:254-264 | the string version, with a buffer of `max_decode_size` |
| Base64.RoundTrip | source/llama_cpp_canister/src/llama_cpp_onicai_fork/common/base64.hpp:80-244 | decoding undoes encoding for all bytes, in both alphabets, under detection and in both behaviours |
| Base64.AnyPadding | source/llama_cpp_canister/src/llama_cpp_onicai_fork/common/base64.hpp:200-244 | the digits decode to the same bytes however much padding follows |
| Base64.EncodedInjective | source/llama_cpp_canister/src/llama_cpp_onicai_fork/common/base64.hpp:80-144 | two byte strings never share a code |
| Base64.AlphabetIs | source/llama_cpp_canister/src/llama_cpp_onicai_fork/common/base64.hpp:344-389 | the characters of the digits, as the tables of RFC 4648 have them |
| Base64.TestVectors | source/llama_cpp_canister/src/llama_cpp_onicai_fork/common/base64.hpp:80-144 | test vectors of section 10 of RFC 4648 |
| Base64.BehindPadding | source/llama_cpp_canister/src/llama_cpp_onicai_fork/common/base64.hpp:232-243 | behind the padding the moderate behaviour takes only padding, the loose one ignores everything |
| Base64.Detection | source/llama_cpp_canister/src/llama_cpp_onicai_fork/common/base64.hpp:344-389 | detection accepts exactly the texts of one of the two alphabets, with the same digits |
| Base64.JoinBits | source/llama_cpp_canister/src/llama_cpp_onicai_fork/common/base64.hpp:218-227 | a byte joined from the previous and the next digit has the waiting bits and the top bits of the next |
| Base64.EncodedSize | source/llama_cpp_canister/src/llama_cpp_onicai_fork/common/base64.hpp:338-341 | n bytes give exactly `required_encode_size(n)` characters |
| Base64.DecodedSize | source/llama_cpp_canister/src/llama_cpp_onicai_fork/common/base64.hpp:324-327 | k characters before the padding give exactly 6k/8 bytes, never more than `max_decode_size` |
| Metadata.Store.Save | source/llama_cpp_canister/src/upload.cpp:47-78 | the file is the byte encoding of the list |
| Metadata.Store.Load | source/llama_cpp_canister/src/upload.cpp:81-129 | loading gives the list read from the bytes, for arbitrary file contents; without a file the memory stays |
| Metadata.Store.UpdateMetadata | source/llama_cpp_canister/src/upload.cpp:132-151 | the list gets the entry in place or at the end, in memory and on disk |
| Metadata.Store.GetMetadata | source/llama_cpp_canister/src/upload.cpp:154-164 | the first entry of the name on disk |
| Metadata.Store.DeleteMetadata | source/llama_cpp_canister/src/upload.cpp:167-178 | the entry is removed in memory and on disk; without one nothing is written |
| Metadata.GotPut | source/llama_cpp_canister/src/upload.cpp:53-65 | a number read back from its eight bytes is the number |
| Metadata.PutAt | source/llama_cpp_canister/src/upload.cpp:53-65 | byte i of a number is its digit of weight 256^i |
| Metadata.SavedOne | source/llama_cpp_canister/src/upload.cpp:47-78 | the file of one entry, byte by byte |
| Metadata.LoadSaved | source/llama_cpp_canister/src/upload.cpp:47-129 | loading what was saved gives the longest prefix of entries within the limits |
| Metadata.UpdateReloaded | source/llama_cpp_canister/src/upload.cpp:132-151 | an update survives the disk; a name over the limit is dropped and nothing else with it |
| Metadata.StepKeeps | source/llama_cpp_canister/src/upload.cpp:132-178 | each operation keeps names unique and sizes within the limits, and has its effect on every name |
| Metadata.LastUpdateWins | source/llama_cpp_canister/src/upload.cpp:47-178 | over every run through disk and restarts: names unique, and a lookup finds the last update not deleted since |
| Upload.Canister.FileUploadChunk | source/llama_cpp_canister/src/upload.cpp:215-321 | one call: reply, sessions and metadata, error returns included |
| Upload.Recorded | source/llama_cpp_canister/src/upload.cpp:284-320 | a new chunk is hashed on and its size and hash recorded |
| Upload.NotRecorded | source/llama_cpp_canister/src/upload.cpp:215-285 | calls that record nothing: why, and that what is recorded of any file stays |
| Upload.NextChunk | source/llama_cpp_canister/src/upload.cpp:215-321 | the next chunk of a file extends the recorded prefix of the file |
| Upload.SameChunk | source/llama_cpp_canister/src/upload.cpp:256-285 | a repeated chunk gets the reply of its first delivery and changes nothing |
| Upload.OtherFile | source/llama_cpp_canister/src/upload.cpp:215-321 | an upload of another file, whatever it sends, leaves this one alone |
| Upload.FirstChunk | source/llama_cpp_canister/src/upload.cpp:256-285 | the first chunk restarts the upload, whatever was recorded before |
| Upload.AnyChunk | source/llama_cpp_canister/src/upload.cpp:256-285 | any chunk of the file at any time: the recorded prefix is one of the file if and only if the chunk is the first, the last delivered or the next one; what is recorded otherwise |
| Upload.ExactlyOnce | source/llama_cpp_canister/src/upload.cpp:215-321 | at-least-once delivery in order, interleaved with other uploads, ends as exactly-once delivery, and every reply is that of the chunk |
| Upload.SendChunk | source/llama_cpp_canister/scripts/upload.py:158-191 | the retry loop: a reply arrives if and only if one of ten attempts gets through, and it is the right one |
| Upload.UploadFile | source/llama_cpp_canister/scripts/upload.py:129-221 | the client reports a match exactly when every chunk gets through, and then size and hash of the whole file are recorded; an empty file sends nothing and can match only if the digest of nothing is the empty hash |
| WasmGlobals.OptimizeGlobals | source/llama_cpp_canister/scripts/optimize_wasm.py:41-118 | the loops compute the rewritten module and count what was removed |
| WasmGlobals.UsedGlobals | source/llama_cpp_canister/scripts/optimize_wasm.py:52-55 | exactly the globals that code or initializers refer to |
| WasmGlobals.ExportedGlobals | source/llama_cpp_canister/scripts/optimize_wasm.py:57-73 | exactly the globals of exports that are kept |
| WasmGlobals.ContainsIs | source/llama_cpp_canister/scripts/optimize_wasm.py:31-37 | a mark occurs in a name exactly if it stands at some position |
| WasmGlobals.ExportsKept | source/llama_cpp_canister/scripts/optimize_wasm.py:57-73 | the exports of the rewritten module are those without a mark of type information or with one of the exception machinery, anywhere in the name |
| WasmGlobals.WantedIsNeeded | source/llama_cpp_canister/scripts/optimize_wasm.py:57-73 | and their globals stay |
| WasmGlobals.ExceptionStaysVtableGoes | source/llama_cpp_canister/scripts/optimize_wasm.py:31-118 | type information of std::exception stays with its global, a vtable goes with its own |
| WasmGlobals.OldToNew | source/llama_cpp_canister/scripts/optimize_wasm.py:87-93 | the map numbers the surviving indices from zero |
| WasmGlobals.Bijection | source/llama_cpp_canister/scripts/optimize_wasm.py:87-93 | old to new is an order-preserving bijection onto 0 .. k-1 |
| WasmGlobals.ReferencesReach | source/llama_cpp_canister/scripts/optimize_wasm.py:82-118 | every remaining reference reaches the global it named before if and only if the module imports no globals or keeps none of its own |
| WasmGlobals.ImportShiftsIndex | source/llama_cpp_canister/scripts/optimize_wasm.py:82-118 | one imported and one used global: the reference is moved to the imported one |
| WasmGlobals.StaysValid | source/llama_cpp_canister/scripts/optimize_wasm.py:95-118 | without imported globals, the rewritten module is valid: all indices in range, initializers refer backwards |
| WasmGlobals.InitMatches | source/llama_cpp_canister/scripts/optimize_wasm.py:95-118 | without imported globals, a surviving global starts with the value it had |
| WasmGlobals.RunSimulates | source/llama_cpp_canister/scripts/optimize_wasm.py:95-118 | without imported globals, any code on the rewritten module simulates the original step by step on the kept globals |
| WasmGlobals.MeaningKept | source/llama_cpp_canister/scripts/optimize_wasm.py:41-118 | without imported globals, from instantiation on and after any number of steps, every kept export shows the same value |
| CsvRow.ParseCsvRow | source/llama_cpp_canister/src/llama_cpp_onicai_fork/common/arg.cpp:957-999 | the scanning loop refines the recursive parser |
| CsvRow.RowRoundTrip | source/llama_cpp_canister/src/llama_cpp_onicai_fork/common/arg.cpp:953-999 | every non-empty list of fields, quoted or bare, parses back |
| CsvRow.BareExactly | source/llama_cpp_canister/src/llama_cpp_onicai_fork/common/arg.cpp:957-999 | a text may stand without quotes exactly when it has no comma and does not begin with a quote |
| CsvRow.Unclosed | source/llama_cpp_canister/src/llama_cpp_onicai_fork/common/arg.cpp:957-999 | quotes that are never closed are closed by the end of the row |
| Pareto.ParetoMask | artifact/scripts/paper_1_5/c2_pareto_analysis.py:77-101 | a row is marked exactly when no row dominates it |
| Pareto.DominatesIs | artifact/scripts/paper_1_5/c2_pareto_analysis.py:77-101 | to dominate is to be different and worse in nothing |
| Pareto.FrontCovers | artifact/scripts/paper_1_5/c2_pareto_analysis.py:77-101 | every variant is on the front or dominated by one that is |

## Left out

- Completion.Generation.Loop: for a session of more than `n_ctx - 4` tokens that is entered again with an empty prompt, budget and conservation are claimed (`Accounted`), and the logits its first token comes from, but nothing about cells, later tokens and output.
- Completion.Generation.GroupedAtEnd: nothing is claimed about the cells when Self-Extend is combined with a loaded session, because `ga_i` starts at 0 whatever the loaded cells are; that the closed form is lost exactly when something was grouped is `ReenterSqueezed`.
- SelfExtend.Guard: integers are unbounded, so the overflow that would end a loop with negative `ga_w` is not seen.
- LlamaMemory.Context.Decode: a decode fails only when no slot is left; other failures of the library are not modelled, here and in `Completion.Generation.DecodeBatch`.
- ToolCallText.CallPrints: arguments declared as strings, the name anywhere; with values of other kinds (`ToolCallValues.ValuesPrint`) the name comes first, and of the JSON library it is only assumed that it recognises the text of the value.
- JsonValue.PrintReads: numbers and literals are words to the reader, and pairs of surrogate escapes are not read.
- QuoteMeaning.MeaningKept: escapes of a single-quoted literal that JSON does not have (`\x41`, `\v`) are passed through and are no JSON afterwards.
- ToolCalls.Mapper.Map: after the close of a call without a name, events that would follow the pointer to that call are excluded, because their effect is undefined in the source.
- Upload.Canister.FileUploadChunk: the bytes written to the uploaded file depend on the open mode and the stream library and are not modelled, nor is an upload to the name of the metadata file itself.
- Metadata.Store.Save: opening the metadata file for writing always succeeds.
- WasmGlobals.MeaningKept: for modules without imported globals, because with them the renumbering is wrong; `ReferencesReach` says when.
- Interactive and conversation mode, encoder models, grammar-constrained sampling and reverse prompts beyond a predicate on the accepted tokens.
- Context shifts and truncation between two calls of one conversation: the equivalence of sliced and unsliced runs is for runs that fit into `n_ctx - 4` tokens.
- Calls that change the context without `main_`: embeddings, a new model, an upgrade. Queries, whose effects the platform discards.
- Tokenization, real sampling, logits, ggml and the layout of the session file on disk.
- Candid messages, access roles, logging, performance counters and thread pools.
- `chat-diff-analyzer.cpp`, `chat-auto-parser-generator.cpp` and the PEG engine: the trees and events are inputs here.
- The whitespace filter on reasoning content at the end of `from_ast`, `parse_key_spec`, and the builders of PEG grammars.
- The text side of `optimize_wasm.py` (regular expressions, `wasm-tools`): the module is modelled, not its text. A second run may remove more when a removed global's initializer was the last to refer to another global; minimality is not claimed.
- Floating-point columns of the Pareto table are real numbers, without NaN.
- Access control, chat retention, the download loop and the option table: true, but each member would be a one-branch fact.
