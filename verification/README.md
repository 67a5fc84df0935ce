# Verified model of StreamCore's stream transformers and protocols

StreamCore is a voice-agent server: it turns a caller's speech into turns, answers them with a language
model and plays synthesized speech back. This project models the parts of it that carry state from one
event to the next, and proves what those parts are there to guarantee. `dafny verify dfyconfig.toml` checks
all of it.

Code that updates fields or loops over a buffer is a class or a method here, with the same branches and
constants, and is proved against a function of values. What matters about a run, an interleaving or a
round trip is then proved of those functions.

| area | modules |
|---|---|
| 24 kHz to 16 kHz conversion, streamed and whole | `Resampler` |
| who owns the audio path, in every interleaving | `ResponseOwnership` |
| the language model's history: repair, pruning, the tool loop | `History`, `HistoryRepair`, `Chat` |
| acting on partial transcripts | `Phrases`, `PhraseSearch`, `Normalize`, `PartialReflex` |
| speech detection and the echo reference | `EchoGuard`, `Detector` |
| ICE restart (section 4.4.2 of RFC 9725, fragments of RFC 8840) | `SdpLines`, `SdpOrigin`, `SdpSections`, `IceRestart`, `IceFragments`, `IceRoundTrip` |
| finals into turns, chunks into utterances | `TurnBuffer`, `Transcript`, `Deepgram` |
| sessions, resume tokens, reaping | `SessionPool`, `Sessions`, `SessionInterleaving` |
| bytes into 20 ms frames | `AudioFraming`, `RealtimeAudio` |
| the rate limiter | `RateLimiter` |

`Whitespace`, `Sequences`, `Bytes`, `TokenIndex` and `Wrappers` hold what several of them share.

## What the proofs found

Seven properties do not hold of the code on all inputs. Each is shown by an input or a run, and the exact
condition is proved.

- A greeting reads the response generation instead of minting one. If the turn of that generation is
  answered, the two share it, and the older one's clean-up drops the greeting's cancel handle
  (`GreetingEscapes`, for every generation from 1 on). Every run is safe in which no response is given
  the generation the greeting read (`SafeWhenUnshared`); with nothing known of who is answered, that is
  generation 0 and no other (`SafeIffGreetingFirst`).
- History repair counts a call as answered if any message answered its id. A provider that reuses an id
  leaves a call unanswered for good (`ReusedIdStaysUnanswered`); repair completes a history exactly when
  every call so counted is answered in place (`RepairCompletesIff`).
- Issuing a resume token takes two locks in turn. A session removed between them is indexed afterwards and
  can be resumed although it no longer exists (`RemovedSessionIsResumed`); two issues of one session that
  overlap leave a stale token even with no removal between them (`OverlappingIssuesLeak`). Tokens lead to
  live sessions only if a session's issues and removals are done one at a time (`TurnsAreSound`), and
  whenever one is done out of turn there is a way to finish what is under way that leaves a stale token
  (`TurnsAreNeeded`, both directions). Step by step, the exact guards are in `IndexSoundIff` and
  `DropSoundIff`. Single use of tokens and the session cap hold in every interleaving (`EveryRunIsSafe`).
- A transcript chunk delivered twice is absorbed word for word, but the text changes if it was the first
  of its utterance and had irregular spaces (`RedeliveryChangesSpacing`, and exactly then:
  `TextAbsorbedIff`).
- Tools are offered under sanitized names and called by their own. Two whose names differ only in refused
  characters read alike, and calls of the first go to the second (`NamesCollide`); a call reaches its tool
  exactly if the last tool that reads like it has its name (`NameComesBackIff`).
- Repeated calls are told by name and arguments joined with a bar. Two tools, one named like the other and a
  bar, can be taken for one, and a call is then not run although it never was (`LookAlikeIsSkipped`; exactly
  such names: `NamesClashIff`). For names without a bar a call is run exactly if it has not succeeded in the
  turn (`TurnRunsIff`).
- The search loops for spoken phrases step past the end of the text when a phrase normalises to nothing,
  and panic there. The manifest refuses blank phrases before it normalises them, so one of punctuation
  alone gets through (`PunctuationIsNotBlank`). A phrase does exactly if it has no letter, digit or
  apostrophe (`NothingSaidIff`); a capture then panics on every text, and a match on every text without
  one of the phrases before it (the contracts of `CaptureAfterAnchor` and `ContainsPhrase`).

The comment on `streamResampler24to16.emit` calls one clamp unreachable; it is, and the bound on kept
history that makes it so is part of the object's invariant. The comment on `pruneHistory` speaks of walking
backward to keep a call with its answers; the code only drops orphans forward, and that is what is modelled.

## Assumptions

- Floating point in the resampler is a record of operations (`Arith`) that both forms call in the same
  order, so the equality is exact whatever they round to. Energies in the detector are reals.
- Clocks do not go back. Where one event reads the clock several times, each reading is a parameter.
- Call ids from the provider are distinct, except where the two lemmas above are about just that.
- The phrases of the reflex object have a letter, digit or apostrophe each; the searches it calls are
  proved for any text and any phrases.
- Letters, digits and case folding are parameters. White space is Unicode's.
- Resume tokens are random: a new one is unlike any given before.

## Main results

- `Resampler.ResampleChunks`: streamed conversion equals the one-shot conversion, for every chunking;
  `IsUpsampleFilterDecimate`: which is the textbook one.
- `ResponseOwnership.SafeInEveryRun`, `SafeWhenUnshared`, `SafeIffGreetingFirst`: one owner of the audio path,
  in every interleaving.
- `History.RepairCompletesIff`, `HistoryRepair.SpliceIsRepair`, `History.PrunedIsWellFormed`,
  `PrunedKeepsWindow`: what repair and pruning make of any history.
- `Chat.ChatClient.Chat` with `TurnIsDetermined`, `TurnRunsIff`, `ToolsGoOn` and `BudgetEndsTurn`: a whole turn of
  requests and tools.
- `PartialReflex.WaitingFiresIff`, `EveryRunRespectsTheUtterance`, `SupersededNeverFires`, `EachCaptureFiresOnce`, and
  `PhraseSearch.CaptureInWords` below them.
- `EchoGuard.CapacityNeverBinds`, `Detector.EdgesAreRuns`, `SpeakingMeans`, `FloorConverges`, `EchoNeverStarts`.
- `IceRestart.RestartsAreTheLast`, `IceRoundTrip.RestartRoundTrip`, `RewriteKeepsTheRest`.
- `TurnBuffer.TurnsHoldAllFinals`, `DeadlineIsHard`; `Transcript.MergeIsBaseThenRest`, `TextAbsorbedIff`;
  `Deepgram.ChunksFoldOnce`, `NoSentenceTwice`, `FinalIsSaidIff`.
- `SessionPool.EveryRunKeepsInv`, `SessionInterleaving.EveryRunIsSafe`, `TurnsAreSound`, `TurnsAreNeeded`.
- `AudioFraming.SynthesizeSentences`, `RealtimeAudio.EveryRunConserves`, `DrainLeavesLittle`.
- `RateLimiter.CollectingDecidesTheSame`, `AtMostTwiceTheLimit`.

## Model

| member | source | states |
|---|---|---|
| Resampler.Resample | internal/tts/speechify.go:199-248 | the whole-utterance loop, with its input window cut to [lo, hi], computes the plain convolution over every input sample, rounded and clamped |
| Resampler.IsUpsampleFilterDecimate | internal/tts/speechify.go:128-146 | the conversion is the textbook one: put zeros between the samples, filter at the higher rate, keep every down-th value, in time with the middle of the kernel |
| Resampler.ImpulseResponse | internal/tts/speechify.go:215-243 | one sample in silence gives, in output m, the tap at m*down - i*up from the middle of the kernel, rounded and clamped, and nothing where there is none |
| Resampler.MiddleTapIsIdentity | internal/tts/speechify.go:215-218 | at equal rates a kernel with one tap in its middle gives the input back |
| Bytes.DecodedAt | internal/audio/rtp.go:36-45 | sample i is made of bytes 2i and 2i + 1 |
| Resampler.FilterWindow | internal/tts/speechify.go:229-235 | the inner loop over a window of trimmed history equals the sum over the whole input |
| Resampler.WindowSuffices | internal/tts/speechify.go:220-227 | samples outside [lo, hi] contribute nothing, with division truncating toward zero |
| Resampler.OutLenMeaning | internal/tts/speechify.go:212 | output m exists exactly when m*down < n*up |
| Resampler.OutSampleStable | internal/tts/resample_stream.go:91-97 | an output whose window has arrived does not change when more input follows |
| Resampler.OutBytesStable | internal/tts/resample_stream.go:68-71 | the bytes returned early are a prefix of what any longer utterance converts to |
| Resampler.StreamResampler.constructor | internal/tts/resample_stream.go:16-32 | an empty stream, for any rates and any odd kernel |
| Resampler.StreamResampler.Buffer | internal/tts/resample_stream.go:41-54 | history and carry hold exactly the bytes written, whole samples and a split byte apart |
| Resampler.StreamResampler.Write | internal/tts/resample_stream.go:40-56 | returns exactly the outputs the input so far settles, and keeps less than a kernel's span of history whose base the next output never reaches below |
| Resampler.StreamResampler.Flush | internal/tts/resample_stream.go:61-66 | everything returned since the last flush is the one-shot conversion of everything written, and the stream starts over |
| Resampler.StreamResampler.Emit | internal/tts/resample_stream.go:72-130 | what has been returned stays a prefix of the one-shot output, complete when final |
| Resampler.StreamResampler.EmitSamples | internal/tts/resample_stream.go:85-126 | the loop stops exactly at the first output still waiting for input, or at the output length |
| Resampler.StreamResampler.Produce | internal/tts/resample_stream.go:99-125 | the output from trimmed history is the output from the whole input; the clamp on lo never acts |
| Resampler.StreamResampler.Trim | internal/tts/resample_stream.go:134-144 | what is dropped from the history is read by no later output |
| Resampler.ResampleChunks | internal/tts/mimo.go:200-261 | for every way of cutting the bytes into chunks, odd splits included, the streamed output is the one-shot output |
| Resampler.KeptAtServerSettings | internal/tts/speechify.go:133-139 | at rates 2/3 with 193 taps at most 96 samples are kept after every write |
| ResponseOwnership.Pipeline.CancelResponse | internal/pipeline/agent.go:506-513 | the stored handle is called once and dropped |
| ResponseOwnership.Pipeline.SupersedeResponse | internal/pipeline/agent.go:421-424 | a new generation, after which the previous owner is cancelled, its queued frames are discarded and the agent is not speaking, stamped if it was |
| ResponseOwnership.Pipeline.RegisterResponse | internal/pipeline/agent.go:457-469 | installs a handle only for the current generation, and cancels the one it replaces |
| ResponseOwnership.Pipeline.FinishResponse | internal/pipeline/agent.go:479-488 | releases the handle only if it is of that generation, and the speaking flag only if it was not superseded |
| ResponseOwnership.StepKeepsInv | internal/pipeline/agent.go:421-514 | every lock operation and atomic step of every participant keeps the ownership invariant |
| ResponseOwnership.RunKeepsInv | internal/pipeline/agent.go:421-514 | so does every interleaving of any number of responses, supersedes and the greeting |
| ResponseOwnership.RegistersIff | internal/pipeline/agent.go:457-469 | a response registers exactly if the counter it reads under the lock is its generation, and then has the handle |
| ResponseOwnership.SupersedeMeans | internal/pipeline/agent.go:421-430 | the counter moves on by one, whoever has the handle is cancelled, and the next response has the new generation |
| ResponseOwnership.DoneLetsGo | internal/pipeline/agent.go:479-488 | in every run a response that has finished has let go of the handle |
| ResponseOwnership.SafeInEveryRun | internal/pipeline/agent.go:401-429 | in every run at most one registered response is live and the stored handle is its own |
| ResponseOwnership.SafeWhenUnshared | internal/pipeline/agent.go:528-555 | so in every run in which the generation the greeting read is given to no response, initial or minted by a barge-in |
| ResponseOwnership.CancelSilencesAll | internal/pipeline/agent.go:421-424 | once a supersede has cancelled, every response of an older generation is cancelled or will be refused |
| ResponseOwnership.RetiredStaysRetired | internal/pipeline/agent.go:457-469 | a response that is cancelled or bound to be refused stays so in every continuation |
| ResponseOwnership.FinishKeepsOthersHandle | internal/pipeline/agent.go:471-488 | a finishing response never drops another response's handle |
| ResponseOwnership.GreetingEscapes | internal/pipeline/agent.go:528-555 | for every generation from 1 on, a run in which that turn is answered and a greeting that read it is left live without a handle |
| ResponseOwnership.SafeIffGreetingFirst | internal/pipeline/agent.go:528-555 | over all interleavings in which the greeting reads a generation, safety holds if and only if that is 0 |
| History.AnchoredAt | internal/llm/openai.go:557-562 | read at an index: each tool message is in the block right after the assistant message that asked for it |
| History.CompleteAt | internal/llm/openai.go:142-149 | read at an index: each call is answered in that block |
| History.RepairAnswers | internal/llm/openai.go:274-296 | repair adds answers exactly for the calls that had none and asks nothing new |
| History.RepairPlaces | internal/llm/openai.go:281-311 | each placeholder stands right behind the message that asked, in call order |
| History.MissingMeans | internal/llm/openai.go:281-296 | the calls that get one are those not answered, each once |
| History.RepairedAnswersAll | internal/llm/openai.go:245-249 | after repair no call is without an answer |
| History.RepairedTwice | internal/llm/openai.go:297-299 | a second repair changes nothing |
| History.RepairKeepsOrder | internal/llm/openai.go:301-311 | taking the placeholders out again gives back the old messages in their order |
| History.RepairAnchored | internal/llm/openai.go:276-293 | repair keeps every tool message in the block of its request |
| History.RepairCompletesIff | internal/llm/openai.go:281-296 | repair leaves every call answered in place if and only if the calls it skips were answered in place |
| History.ReusedIdStaysUnanswered | internal/llm/openai.go:282-284 | a history with a reused id whose second call is never answered |
| History.RepairedIsComplete | internal/llm/openai.go:245-249 | with distinct ids the repaired history is one the provider accepts |
| History.PrunedIsWellFormed | internal/llm/openai.go:557-592 | at most 31 messages, no orphan tool result, and no kept call whose answer was cut off |
| History.PrunedKeepsWindow | internal/llm/openai.go:569-592 | up to 31 messages nothing is pruned; of more, the prompt stays and all of the last 30 but the tool messages they begin with |
| HistoryRepair.SpliceIsRepair | internal/llm/openai.go:250-312 | the three passes with index splicing equal the one-pass reference repair |
| Chat.ChatClient.constructor | internal/llm/openai.go:40-78 | a history of the system prompt alone |
| Chat.ChatClient.AppendSystemPrompt | internal/llm/openai.go:120-132 | only the prompt message changes, and it stays first |
| Chat.ChatClient.ListCalls | internal/llm/openai.go:257-272 | the calls in order of asking, and the ids any tool message answers |
| Chat.ChatClient.FindDangling | internal/llm/openai.go:257-299 | the unanswered calls, each once, with the message each must follow |
| Chat.ChatClient.Splice | internal/llm/openai.go:305-311 | the reversed patches inserted one by one are the specified splice |
| Chat.ChatClient.ReconcileHistory | internal/llm/openai.go:250-312 | the history becomes its reference repair, under the same first message |
| Chat.ChatClient.PruneHistory | internal/llm/openai.go:569-592 | the window loop computes the reference pruning |
| Chat.ChatClient.StreamCompletion | internal/llm/openai.go:340-484 | sends the history as it is; it becomes the pruned history with the reply appended, under the same prompt, or stays as it is on failure; the calls come back under the tools' own names |
| Chat.ChatClient.SetTools | internal/llm/openai.go:82-112 | the map from sanitized names to tools, the later of two alike |
| Chat.NameComesBackIff | internal/llm/openai.go:95-99 | a call reaches the tool it names if and only if the last tool that reads alike sanitized has its name |
| Chat.NamesCollide | internal/llm/openai.go:533-540 | two tools of which the first is never called |
| Chat.ChatClient.ForceTextResponse | internal/llm/openai.go:318-336 | one more request, for the history with the instruction, which then is pruned with the reply appended; its calls stay unanswered for the next repair |
| Chat.ChatClient.RunTool | internal/llm/openai.go:196-223 | a call that succeeded with the same arguments is not run again, one that failed is; the output, or the abort, is that of the reference step |
| Chat.ChatClient.AnswerCalls | internal/llm/openai.go:195-232 | the history grows by exactly the tool messages the reference gives for these calls and tools, cut off where a tool takes the turn with it |
| Chat.AnswerAllInOrder | internal/llm/openai.go:196-231 | those are answers to a prefix of the calls in order, to all of them unless cut off, and nothing that succeeded is run again |
| Chat.ChatClient.Nudge | internal/llm/openai.go:179-182 | the last request of a turn, and what it leaves |
| Chat.ChatClient.Round | internal/llm/openai.go:168-242 | one round either ends the whole turn or leaves the request due that the replies and the tools so far determine |
| Chat.ChatClient.Chat | internal/llm/openai.go:138-243 | the requests, the history, the tools run and the result are those of the whole turn that the replies and the tools determine, from the repaired history with the user message on; wherever it is cut off the history stays well-formed under the very prompt it had, every request but the budget-spent one has every call answered, and no call that succeeded is run again |
| Chat.TurnIsDetermined | internal/llm/openai.go:168-242 | there is one such turn: one that goes on or ends elsewhere, answers otherwise or runs other tools is not it |
| Chat.AtMostSix | internal/llm/openai.go:154-183 | it has at most six requests |
| Chat.WorkedNeverRepeats | internal/llm/openai.go:161-215 | over any number of rounds no call that succeeded is run again, and each round's answers are for its calls in order |
| Chat.TurnRunsIff | internal/llm/openai.go:195-223 | for tool names without a bar: a call is run, with its own arguments and as the next invocation, exactly if no call of that tool with those arguments has succeeded in the turn; and what it is answered |
| Chat.IdleIff | internal/llm/openai.go:195-239 | a round runs nothing exactly if all of its calls had succeeded before it |
| Chat.ToolsGoOn | internal/llm/openai.go:173-242 | a reply that asks for tools leads to the request with it and their answers, which asks for text and is the last if none was run; unless nobody runs tools or one takes the turn with it |
| Chat.TextEndsTurn | internal/llm/openai.go:168-177 | a reply that asks for nothing or fails ends the turn, and is returned |
| Chat.BudgetEndsTurn | internal/llm/openai.go:179-182 | the fifth reply that asks for tools gets none, and the sixth request is the last |
| Chat.NamesClashIff | internal/llm/openai.go:197-203 | two tools can be taken for one exactly if they have one name, or one begins with the other and a bar |
| Chat.LookAlikeIsSkipped | internal/llm/openai.go:197-203 | a call that is not run because another tool was called |
| Chat.PromptInEveryRequest | internal/llm/openai.go:557-558 | every request of a turn starts with the prompt |
| Chat.AppendThenPrune | internal/llm/openai.go:465-468 | the assistant message just appended survives pruning, so its answers are never orphans |
| Chat.AnswersWellFormed | internal/llm/openai.go:225-231 | answers appended in order keep the history well-formed |
| Chat.RepairedWellFormed | internal/llm/openai.go:142-149 | a turn starts from a complete history whatever the last one left |
| Chat.NoneRepeatedAt | internal/llm/openai.go:161-166 | read at two indices: after a success the same call is not invoked again |
| Phrases.RunIffMatch | internal/pipeline/partial.go:302-305 | a boundary match of characters at a word's start is a run of whole words there, and what follows it is the words behind |
| Phrases.MatchStartsWord | internal/pipeline/partial.go:270-271 | every boundary match starts at a word |
| Phrases.JoinOfWords | internal/plugin/manifest.go:443-448 | and the other |
| PhraseSearch.ContainsPhrase | internal/pipeline/partial.go:294-312 | for any text and phrases: whether some phrase stands between word boundaries, and a panic exactly if an empty phrase is reached and stands nowhere |
| PhraseSearch.FoundIsSaid | internal/pipeline/partial.go:291-305 | in normalised text that is that its words are a contiguous run of the text's words |
| PhraseSearch.HasPrefixPhrase | internal/pipeline/partial.go:315-322 | for any text and phrases: whether the text opens with some phrase and a word boundary |
| PhraseSearch.OpensInWords | internal/pipeline/partial.go:314-318 | in normalised text that is that its words begin with the phrase's words |
| PhraseSearch.CaptureAfterAnchor | internal/pipeline/partial.go:258-289 | for any text and anchors: the number of places where an anchor stands and the trimmed text behind the furthest end of one, and a panic exactly if an anchor is empty |
| PhraseSearch.CaptureInWords | internal/pipeline/partial.go:251-257 | in normalised text that is the number of words at which an anchor stands, and the words behind the last |
| PhraseSearch.SearchAnchor | internal/pipeline/partial.go:262-277 | the offset loop records, for each start, the longest anchor there, overlaps included |
| PhraseSearch.CaptureUnique | internal/pipeline/partial.go:251-257 | the meaning determines the capture |
| PhraseSearch.CaptureExists | internal/pipeline/partial.go:251-257 | and every text has one |
| Normalize.NormalizePartial | internal/plugin/manifest.go:449-464 | the loop with its space flag yields the runs of letters, digits and apostrophes of the lowered text, joined by single spaces |
| Normalize.NormalizedIsNormal | internal/plugin/manifest.go:443-448 | the result is words separated by single spaces, and they are the runs |
| Normalize.NormalizedMeans | internal/plugin/manifest.go:449-464 | normalising is folding, blanking out what is no letter, digit or apostrophe, and putting one space between the words left |
| Normalize.NothingSaidIff | internal/plugin/manifest.go:453-463 | a phrase normalises to nothing if and only if it has no letter, digit or apostrophe |
| Normalize.PunctuationIsNotBlank | internal/plugin/manifest.go:407-411 | a phrase that is not blank and normalises to nothing |
| Normalize.NormalizedTwice | internal/plugin/manifest.go:443-448 | normalising twice changes nothing |
| PartialReflex.Reflex.Observe | internal/pipeline/partial.go:146-179 | one partial, entry by entry, is one step of the state machine |
| PartialReflex.Reflex.ObserveEntry | internal/pipeline/partial.go:159-177 | a spent entry is skipped, a capturing one stages, another fires when its phrases say so |
| PartialReflex.Reflex.StageCapture | internal/pipeline/partial.go:182-208 | an unchanged capture keeps its timer; a changed one replaces it |
| PartialReflex.Reflex.Settled | internal/pipeline/partial.go:211-249 | only the capture still waiting fires, and only with more anchors than fired before |
| PartialReflex.EveryRunRespectsTheUtterance | internal/pipeline/partial.go:121-249 | over any run of partials, timers and utterance ends, within an utterance a tool's fired anchor counts strictly increase and a once-per-turn tool fires at most once |
| PartialReflex.WaitingFiresIff | internal/pipeline/partial.go:211-249 | in every run: when the timer of the waiting capture goes off it fires, alone and as staged, exactly if it has more anchors than any capture its tool fired in this utterance |
| PartialReflex.SaidFiresIff | internal/pipeline/partial.go:159-177 | in every run: a partial sets off an entry that does not capture exactly if it says one of its phrases, unless it is a once-per-turn tool that went off in this utterance |
| PartialReflex.CapturedWaits | internal/pipeline/partial.go:182-208 | in every run: what a partial captures is what then waits, unless the tool is spent |
| PartialReflex.UnchangedKeepsWaiting | internal/pipeline/partial.go:189-195 | capturing what already waits leaves the very same record waiting |
| PartialReflex.SupersededNeverFires | internal/pipeline/partial.go:189-229 | in every run: once an event has replaced a waiting capture, settled it or ended its utterance, nothing later makes it fire |
| PartialReflex.EachCaptureFiresOnce | internal/pipeline/partial.go:211-249 | over a whole run, across utterances, each capture ever staged fires at most once |
| PartialReflex.NextWaitsOrRetires | internal/pipeline/partial.go:146-249 | after any event a waiting capture still waits, the same record, or is out for good |
| PartialReflex.RunKeepsInv | internal/pipeline/partial.go:146-249 | what the memory says about the current utterance matches what was fired in it |
| EchoGuard.Guard.constructor | internal/vad/echo.go:53-73 | defaults for parameters that are not positive, and an empty ring |
| EchoGuard.Guard.Prune | internal/vad/echo.go:146-152 | afterwards the ring holds the frames of the window at `now` |
| EchoGuard.Guard.Observe | internal/vad/echo.go:82-98 | the frame joins the history, and the ring still holds exactly the window among its last frames |
| EchoGuard.Guard.Floor | internal/vad/echo.go:106-121 | gain times the peak over the last frames still inside the window, as a function of the whole history |
| EchoGuard.Guard.Threshold | internal/vad/echo.go:126-131 | the floor times the margin |
| EchoGuard.Guard.Loudest | internal/vad/echo.go:114-119 | the loop over the wrapped indices finds the peak of the live entries |
| EchoGuard.BoundIsWindowPeak | internal/vad/echo.go:100-105 | on a monotone clock that peak is the maximum over the frames in the window, attained or zero |
| EchoGuard.CapacityNeverBinds | internal/vad/echo.go:63-65 | with frames at least 5 ms apart it is the exact maximum over all frames in the window |
| EchoGuard.CapacityCovers | internal/vad/echo.go:63-70 | the capacity chosen fits a full window of such frames |
| EchoGuard.ObservedWindow | internal/vad/echo.go:91-97 | evicting the oldest entry only when the ring is full loses no frame of the window among the last ones |
| Detector.Detector.Process | internal/vad/vad.go:134-168 | one frame is one step at the echo bound the guard's history gives |
| Detector.Detector.Judge | internal/vad/vad.go:138-166 | counting, the edges and learning, by the effective threshold |
| Detector.Detector.CurrentNoiseThreshold | internal/vad/vad.go:92-104 | the base until a floor is learned, then the clamped multiple |
| Detector.Detector.UpdateNoiseFloor | internal/vad/vad.go:122-131 | the first quiet frame sets the floor, later ones move it by the average |
| Detector.CountersAreStreaks | internal/vad/vad.go:143-166 | between resets the counters are the lengths of the current loud and quiet streaks, never both positive |
| Detector.EdgesAreRuns | internal/vad/vad.go:146-165 | started and ended are exactly the frames that complete a full loud or quiet run in the other state, and the run is then exactly as long as configured |
| Detector.SpeakingMeans | internal/vad/vad.go:8-10 | speaking if and only if some full run of loud frames has not been followed by a full run of quiet ones |
| Detector.LoudMeans | internal/vad/vad.go:107-155 | a frame is loud exactly if it is above the echo and above three times the floor, between 900 and two and a half times the base; or above the base while there is no floor |
| Detector.EdgesAlternate | internal/vad/vad.go:133-168 | at every point started is ahead of ended by one while speaking and level otherwise; no frame is both |
| Detector.FloorStaysWithin | internal/vad/vad.go:121-131 | the floor stays within the range of the quiet, echo-free frames |
| Detector.FloorMoves | internal/vad/vad.go:120-131 | a quiet frame without echo moves a learned floor a twentieth of the way, or sets it; nothing else touches it |
| Detector.FloorConverges | internal/vad/vad.go:120-131 | after n frames of steady noise the distance is 0.95^n of what it was |
| Detector.FloorHolds | internal/vad/vad.go:154-161 | no frame under a non-zero echo bound moves the floor |
| Detector.ThresholdClamped | internal/vad/vad.go:92-104 | three times the floor, between the adaptive minimum and the cap, which wins where a low base puts it under the minimum |
| Detector.EchoNeverStarts | internal/vad/echo.go:25-31 | audio at or under the echo bound never starts speech and never raises a learned floor, however long it lasts |
| SdpLines.SplitLines | internal/peer/icerestart.go:260-271 | the loop keeps the non-empty pieces between line feeds, less their carriage returns |
| SdpLines.TextRoundTrip | internal/peer/icerestart.go:176 | lines joined by CRLF and split again are the same lines, none included |
| SdpLines.LinesAreClean | internal/peer/icerestart.go:260-271 | whatever a split yields survives being written and read |
| SdpOrigin.BumpMeans | internal/peer/icerestart.go:245-256 | the version moves on by one modulo 2^64 and no other field changes; a line without a version is left alone |
| SdpOrigin.VersionMeans | internal/peer/icerestart.go:246-255 | a line has a version if it has six fields and the third is a 64-bit number |
| SdpOrigin.VersionAfter | internal/peer/icerestart.go:243-244 | after n restarts the version is n further on, wrapping |
| SdpSections.PartsOf | internal/peer/icerestart.go:201-213 | every description is such a head and a tail that is empty or begins with the second media line |
| SdpSections.KindMeans | internal/peer/icerestart.go:105-177 | the kinds of lines by their prefixes |
| IceRestart.RewriteLines | internal/peer/icerestart.go:134-176 | the loop with its media index and inserted flag renews each line in place and puts the candidates at the end of the first media section, once |
| IceRestart.RewriteIceForRestart | internal/peer/icerestart.go:134-177 | the same on text |
| IceRestart.RewriteKeepsOthers | internal/peer/icerestart.go:127-129 | all lines that are neither ICE nor the origin keep content and order |
| IceRestart.RenewMeans | internal/peer/icerestart.go:154-176 | what each line becomes |
| IceRestart.RenewedAt | internal/peer/icerestart.go:154-176 | every line that stays, stays in its place |
| IceRestart.RenewedDropsCandidates | internal/peer/icerestart.go:170-172 | old candidates go without a trace |
| IceRestart.BlockMeans | internal/peer/icerestart.go:140-152 | the new candidates in order, and a line that closes them if there are any |
| IceRestart.RewrittenParts | internal/peer/icerestart.go:131-133 | the candidates are at the end of the first section of the result |
| IceRestart.RewrittenTwice | internal/peer/icerestart.go:134-177 | rewriting a rewritten offer is rewriting the original with the last values, but for the origin version |
| IceRestart.RestartsAreTheLast | internal/peer/icerestart.go:41-48 | after any number of restarts the offer is the original with the last one folded in: nothing accumulates |
| IceRestart.BumpedTimesAt | internal/peer/icerestart.go:161-162 | and its origin lines, only they, count the restarts |
| IceFragments.ParseLines | internal/peer/icerestart.go:106-124 | the first non-empty credentials and all candidates; refused without both |
| IceFragments.ParseIceFragment | internal/peer/icerestart.go:105-125 | the same on a body of CRLF or LF lines |
| IceFragments.FragmentOfLines | internal/peer/icerestart.go:183-240 | the loop reads exactly the session level and the first media section |
| IceFragments.IceFragmentFromSdp | internal/peer/icerestart.go:183-241 | the same on text |
| IceFragments.FragmentMeans | internal/peer/icerestart.go:222-241 | credentials, first media line, mid and candidates of the first section, in that order, and the line that closes them |
| IceFragments.FirstMediaMeans | internal/peer/icerestart.go:189-195 | the media line is the first that starts a section |
| IceRoundTrip.FragmentReads | internal/peer/icerestart.go:180-182 | parsing a fragment written for a description gives the credentials and candidates of its first section |
| IceRoundTrip.RewrittenReads | internal/peer/icerestart.go:163-169 | the first section of a rewritten offer reads as the new values wherever it had old ones |
| IceRoundTrip.ParsedIsClean | internal/peer/icerestart.go:105-125 | whatever a client sends, what is parsed can be written and read again |
| IceRoundTrip.RestartRoundTrip | internal/peer/icerestart.go:105-241 | on the rewritten offer the two functions compose: for every offer and fragment text, the fragment written for it parses to exactly what the client sent if both credential lines come before the second media section, and is refused otherwise |
| IceRoundTrip.SecondRestart | internal/peer/icerestart.go:134-177 | rewriting twice, on text |
| IceRoundTrip.RewriteKeepsTheRest | internal/peer/icerestart.go:127-129 | the other lines are kept, on text |
| TurnBuffer.Buffer.OnFinal | internal/pipeline/turnbuffer.go:97-134 | one final is one step: it opens or extends the turn, and re-arms the timer or closes the turn |
| TurnBuffer.Buffer.Merge | internal/pipeline/turnbuffer.go:102-116 | the held text is its finals joined by single spaces, and the flag their disjunction |
| TurnBuffer.Buffer.OnTimer | internal/pipeline/turnbuffer.go:136-141 | a due timer closes the turn |
| TurnBuffer.Buffer.Flush | internal/pipeline/turnbuffer.go:75-89 | the held turn is emitted once and forgotten, or only forgotten if the pipeline shuts down first |
| TurnBuffer.DeadlineIsHard | internal/pipeline/turnbuffer.go:118-134 | in every run the held turn is due within 2500 ms of its start, plus the time between two clock readings of one final |
| TurnBuffer.LateFinalCloses | internal/pipeline/turnbuffer.go:120-127 | a final closes the turn at once if and only if 2500 ms have gone by; otherwise its timer lies ahead |
| TurnBuffer.HeldAsItReads | internal/pipeline/turnbuffer.go:31-39 | a stop wins over a dangling tail; the wait is 900 ms for a dangling tail without one, the configured window otherwise, and never past the time left |
| TurnBuffer.StopIsTerminal | internal/pipeline/bargein.go:139-149 | a stop counts behind any text and inside any quotes and brackets |
| TurnBuffer.TerminalIff | internal/pipeline/bargein.go:135-149 | a text ends in a stop exactly if nothing but quotes, brackets and space is behind one |
| TurnBuffer.TimerCloses | internal/pipeline/turnbuffer.go:136-141 | the timer closes the turn once it is due and not before |
| TurnBuffer.JoinedBySpaces | internal/pipeline/turnbuffer.go:102-108 | the text of a turn is its finals with single spaces between them |
| TurnBuffer.TurnsHoldAllFinals | internal/pipeline/turnbuffer.go:75-141 | emitted turns followed by the held one are all finals that say something, each once, in order |
| TurnBuffer.TurnsSaySomething | internal/pipeline/turnbuffer.go:98-101 | no turn is empty and all its parts are trimmed |
| Transcript.MergeTranscriptChunks | internal/stt/transcript.go:24-72 | the merge of the words, joined, or the trimmed other side when one is blank |
| Transcript.FindOverlap | internal/stt/transcript.go:42-57 | the nested loops find the longest overlap |
| Transcript.MergeWords | internal/stt/transcript.go:41-71 | every way of building the result is the same merge |
| Transcript.LongestIsLongest | internal/stt/transcript.go:42-57 | it matches, and nothing longer does |
| Transcript.OverlapMeans | internal/stt/transcript.go:42-98 | what is dropped: as many words as repeat, except one digit in the middle of dictation |
| Transcript.MergeSpelling | internal/stt/transcript.go:58-71 | the result is spelled as the base where they overlap, or as the next chunk if that has all of the base and more |
| Transcript.KnownMerges | internal/stt/transcript.go:17-23 | three merges word for word |
| Transcript.MergeIsBaseThenRest | internal/stt/transcript.go:17-23 | up to case, the base followed by the next chunk less the overlap |
| Transcript.DictationIsKept | internal/stt/transcript.go:74-88 | where two digit runs meet on a repeated digit nothing is dropped |
| Transcript.RedeliveryIsAbsorbed | internal/stt/transcript.go:17-23 | on words, merging the same chunk again changes nothing |
| Transcript.MergedTextWords | internal/stt/transcript.go:24-72 | the words of the merged text are the merge of the words |
| Transcript.TextAbsorbedIff | internal/stt/transcript.go:27-32 | on text, redelivery changes nothing if and only if there was a base, or in the trimmed chunk all white space is single space characters |
| Transcript.SingleSpacedIff | internal/stt/transcript.go:71 | that is what splitting into words and joining them leaves alone |
| Transcript.RedeliveryChangesSpacing | internal/stt/transcript.go:27-32 | a first chunk with two spaces, delivered again, loses one |
| Deepgram.Callback.Message | internal/stt/deepgram.go:53-100 | one message is one step |
| Deepgram.Callback.Heard | internal/stt/deepgram.go:63-90 | chunks accumulate as their merge; the branch for an empty merge is never taken |
| Deepgram.Callback.UtteranceEnd | internal/stt/deepgram.go:153-166 | closes what is buffered, if anything |
| Deepgram.Callback.PartialResult | internal/stt/deepgram.go:104-113 | no repeat of the last partial, nor of a recent final |
| Deepgram.NoSentenceTwice | internal/stt/deepgram.go:19-23 | over any events, two finals emitted in a row that are the same transcript are at least five seconds apart |
| Deepgram.FinalIsSaidIff | internal/stt/deepgram.go:63-80 | in every run: what closes an utterance is emitted as final exactly if it is not what was closed last, less than five seconds before |
| Deepgram.ProgressIsShownIff | internal/stt/deepgram.go:80-113 | in every run: any other message that says something shows its progress exactly if that is neither what was shown last nor what was just closed |
| Deepgram.SameMeans | internal/stt/transcript.go:8-15 | transcripts are the same if they have the same words up to case |
| Deepgram.ChunksFoldOnce | internal/stt/deepgram.go:25-46 | each final chunk is folded into exactly one utterance, closed or open, in order, whichever event closes it |
| Deepgram.FinalsAreEmitted | internal/stt/deepgram.go:93-98 | the finals spoken of are all the finals a run emits |
| SessionPool.RemovedIsUnreachable | internal/session/manager.go:140-146 | dropping the current token drops every token of the session |
| SessionPool.GoneIsUnreachable | internal/session/manager.go:129-203 | a removed or reaped session is out of reach of every token |
| SessionPool.DeadTokenStaysDead | internal/session/manager.go:50-53 | a token that leads nowhere stays so unless it is issued again |
| SessionPool.IssueLeads | internal/session/manager.go:54-74 | a token that was issued leads to its session |
| SessionPool.TokenGoesOnLeading | internal/session/manager.go:54-222 | and goes on leading there until it is used or replaced, or the session goes |
| SessionPool.ResumeMeans | internal/session/manager.go:78-98 | resuming takes the peers and the token, and changes nothing else |
| SessionPool.ReapIff | internal/session/manager.go:181-203 | a sweep takes exactly the sessions idle for the grace period |
| SessionPool.StampMeans | internal/session/session.go:216-224 | idle since the last peer was taken off, or since it was made |
| SessionPool.StepKeepsInv | internal/session/manager.go:54-222 | every method keeps: indexed tokens are current tokens of live sessions, stamped exactly when without peers, under the cap |
| SessionPool.EveryRunKeepsInv | internal/session/manager.go:54-222 | so every run of methods does |
| Sessions.Session.AddPeer | internal/session/session.go:116-135 | a peer and no idle stamp if its connection could be made, and no change otherwise |
| Sessions.Session.RemovePeer | internal/session/session.go:216-224 | stamped when the last one goes |
| Sessions.Session.EvictPeers | internal/session/session.go:292-306 | all peers go, and closing them stamps the session |
| Sessions.Session.Close | internal/session/session.go:308-326 | cancelled, without peers |
| Sessions.Manager.GetOrCreate | internal/session/manager.go:104-121 | the existing session, a new one, or none when the cap is reached; all others stay the objects they were |
| Sessions.Manager.IssueResumeToken | internal/session/manager.go:54-74 | rotates and indexes, or changes nothing when there is nothing to resume or no token; on a session still held the index stays right, on another it leads there all the same |
| Sessions.Manager.Resume | internal/session/manager.go:78-98 | the session of an indexed token, once, without its old peers and otherwise as it was |
| Sessions.Manager.Remove | internal/session/manager.go:129-138 | closes the session and forgets it and its token |
| Sessions.Manager.Reap | internal/session/manager.go:181-203 | exactly the sessions idle for the grace period go, with their tokens, and are closed afterwards; those kept are the same objects, untouched |
| Sessions.Manager.TakeExpired | internal/session/manager.go:184-195 | in whatever order the map is walked |
| Sessions.Manager.CloseAll | internal/session/manager.go:213-222 | nothing live, nothing indexed, all closed |
| SessionInterleaving.EveryRunIsSafe | internal/session/manager.go:46-121 | in every interleaving of locked blocks the cap holds and no token resumes twice |
| SessionInterleaving.StepMeans | internal/session/manager.go:54-146 | what each locked block brings about |
| SessionInterleaving.IndexSoundIff | internal/session/manager.go:66-73 | indexing is right if and only if, before it, the session is live and answers to the token, now or until another waiting issue removes it |
| SessionInterleaving.DropSoundIff | internal/session/manager.go:129-146 | dropping is right if and only if no older token leads to the session before it |
| SessionInterleaving.OrderedRunsAreSound | internal/session/manager.go:54-146 | while every indexing and drop finds that, every indexed token leads to a live session |
| SessionInterleaving.SoundUntilStale | internal/session/manager.go:54-146 | and the first that does not is where the index goes wrong |
| SessionInterleaving.TurnsAreSound | internal/session/manager.go:54-146 | if a session is issued tokens, removed or closed one at a time, and issued them only while live, every indexed token leads to a live session at every point, and between issues it is its current one |
| SessionInterleaving.TurnsAreNeeded | internal/session/manager.go:54-146 | after a run in turns, an action takes its turn if and only if the index stays right in whatever order the waiting issues are finished |
| SessionInterleaving.RemovedSessionIsResumed | internal/session/manager.go:59-73 | a run in which a removed session is resumed |
| SessionInterleaving.OverlappingIssuesLeak | internal/session/manager.go:59-73 | a run of two overlapping issues whose older token outlives the session, with no removal in between |
| AudioFraming.PcmAligner.Take | internal/tts/http.go:48-64 | what was held and the chunk come out as whole samples and what is held now |
| AudioFraming.PumpPcmStream | internal/tts/http.go:90-116 | for any pieces, the chunks are non-empty, even and together a prefix of the whole samples of the body; all of them, and the error if reading fails, while the context is alive |
| AudioFraming.Linear16BytesToPcm | internal/audio/rtp.go:36-45 | the loop over pairs gives the samples of the bytes, an odd one dropped |
| AudioFraming.CutFrames | internal/pipeline/agent.go:341-360 | frames and leftover together are the samples so far, less than a frame is left; every new frame had a send of its own, and the first send that fails stops it |
| AudioFraming.EmitSentence | internal/pipeline/agent.go:330-361 | one stream, the leftover carried on; while the context is alive it stops exactly if the stream fails, and less than a frame of what came is not in a frame |
| AudioFraming.SynthesizeSentences | internal/pipeline/agent.go:267-374 | however bytes are split, streams fail and the response is cancelled, all frames are 320 samples, only the first starts a talkspurt, and together they are a prefix of the samples spoken and less than a frame of final silence; while the context is alive at the last look, which is at most one for each piece and frame and one more, all samples are spoken, or all but less than a frame up to the stream that fails |
| AudioFraming.FramesAreDetermined | internal/pipeline/agent.go:271-274 | the frames depend on the samples alone |
| RealtimeAudio.RealtimeAudioQueue.Next | internal/pipeline/realtime_audio.go:94-125 | the chunk that is ready: a whole frame first, then the padded end |
| RealtimeAudio.NextMeans | internal/pipeline/realtime_audio.go:94-125 | nothing is handed out after a close; it waits only for less than a frame of a response still open |
| RealtimeAudio.EveryRunConserves | internal/pipeline/realtime_audio.go:20-40 | in every run frames without padding, followed by what is pending, are all samples pushed since the last discard, and only ends of responses are padded |
| RealtimeAudio.ChunksAreFull | internal/pipeline/realtime_audio.go:104-121 | every frame handed out is full: its content, then silence; a marker without a frame had none |
| RealtimeAudio.EndsAreAsked | internal/pipeline/realtime_audio.go:75-82 | no end of response is made up or announced twice |
| RealtimeAudio.DrainLeavesLittle | internal/pipeline/realtime_audio.go:94-125 | a pump that asks until it would wait gets what was pending in order and leaves less than a frame; after the end of a response it leaves nothing, and the last chunk alone says so |
| RateLimiter.WidgetRateLimiter.constructor | internal/signaling/rate_limiter.go:42-54 | defaults for parameters that are not positive |
| RateLimiter.WidgetRateLimiter.Allow | internal/signaling/rate_limiter.go:59-82 | the client's own count decides, and large maps are collected when a window opens |
| RateLimiter.WidgetRateLimiter.MaybeGC | internal/signaling/rate_limiter.go:87-96 | exactly the expired entries go, in whatever order |
| RateLimiter.CollectingDecidesTheSame | internal/signaling/rate_limiter.go:84-96 | with and without collection every request gets the same answer |
| RateLimiter.AtMostTwiceTheLimit | internal/signaling/rate_limiter.go:56-82 | any interval of the window's length admits at most twice the limit from one client |
| RateLimiter.OthersDoNotCount | internal/signaling/rate_limiter.go:59-82 | a client is answered as if no other client had asked anything |
| RateLimiter.RetryMeans | internal/signaling/rate_limiter.go:73-79 | who is refused is told the whole seconds left, and one at least |
| RateLimiter.CollectedMeans | internal/signaling/rate_limiter.go:87-96 | below 8192 entries nothing is collected, from there exactly what has run out |
| RateLimiter.RefusedOnlyWhenSpent | internal/signaling/rate_limiter.go:73-79 | a refused client has had the full limit admitted within the last window |

## Left out

- Pion, WebRTC, Opus, RTP, TURN and every socket or HTTP client: what arrives from them is a parameter.
- Configuration, manifests beyond `NormalizePartial`, prompts, plugins and their processes, the retrieval store, vision, confirmation tokens and provider parsers: they would add easier members of kinds already here.
- The barge-in loop of internal/pipeline/inbound.go: mostly timing between channels that is not part of this model.
- The outbound channel between the steps of the ownership protocol: a response that is being cancelled may still queue a frame, so nothing is claimed of the channel over runs; nor of the client's state events.
- ResponseOwnership.Pipeline.SupersedeResponse: the generation is unbounded where the source counts in 64 bits.
- Chat.ChatClient.Chat: one turn at a time on a client, whose tools and handler are not changed during it; the order in which a reply's calls come out of the source's map is taken as given by the reply; and the request sent when the tool budget is spent is not claimed complete, because the code sends it with the last calls unanswered.
- Deepgram.Callback.Message: results are delivered in the order of the lock, where the source calls back after releasing it.
- EchoGuard.Guard.Observe: the clock reading and the lock are one step, where the source reads the clock first.
- AudioFraming.SynthesizeSentences: the channel between the reader and the frame loop, and voice tags, are not modelled; how many frames are out when a response is cancelled depends on how those two interleave, and is bounded only by the looks at the context.
- PartialReflex.Reflex.constructor: the phrases are normalised and none is empty; what a panic in the middle of a partial leaves behind is not modelled.
- RealtimeAudio.RealtimeAudioQueue.Next: one pass of the loop; waiting on the condition variable is an answer of its own.
- The connection and the pipeline behind a peer: whether one could be made is a parameter.
- IceRestart.RewriteIceForRestart: applying the offer to the connection, and gathering, are not modelled; the server's own description is any text.
- The filter kernel's values and the accuracy of its Bessel series: the kernel is any odd-length sequence.
