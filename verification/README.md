# A verified model of the chat backend's hard parts

Three parts of the application are modelled and proved.

**The streamed reply** (`Unicode`, `Surrogates`, `Json`, `JsonDump`, `JsonStrings`, `JsonSyntax`,
`Extractor`, `Completion`, `Envelopes`, `StreamedContent`, `ReplyStream`, `RawReplies`, `ReplyTargets`,
`Seams`, `OffContract`, `Sse`, `SseLines`, `JsonPrefix`, `Client`, `Interrupted`). A provider sends a
JSON envelope in arbitrary pieces. After each piece the server re-runs an incremental extractor over the
whole buffer and forwards the newly decoded text; at the end it parses the envelope properly, tops up
what is missing and stores the result. The text then passes through SSE framing, arbitrary network
chunking, an SSE parser and a client-side store. The main result, `Client.EndToEnd`, is that the bubble
shows exactly what was stored, for every chunking on both sides, and that the call fails exactly when
nothing was stored. `Seams` says place by place what is shown for every reply, pairs of surrogates torn
between two pieces included, and `Interrupted` what is left when the connection breaks anywhere. It all
rests on an executable specification of a JSON parser, against which the extractor's scanning loop is
proved. `JsonStrings` and `JsonSyntax` prove that this parser reads exactly the grammar of RFC 8259 with
Python's extras, and `Envelopes` and `ReplyTargets` say in terms of that grammar what is parsed, stored
and sent.

**The one-time-code store and its users** (`Otp`, `OtpService`, `OtpWindows`, `OtpWaits`, `OtpAnswers`,
`OtpPruning`, `OtpLockout`, `OtpLifecycle`, `OtpBudgets`, `OtpSeparation`, `Accounts`, `AccountsProofs`,
`AccountsOrder`, `AccountsSteps`, `AccountsSettings`, `AccountsSwitches`, `AccountsRows`,
`AccountsSessions`, `AccountsSignIn`, `AccountsProgress`, `AccountsEffects`, `AccountsRefusals`,
`AccountsResets`, `AccountsInFlight`, `AccountsOverlaps`, `ResetAuthorizations`). `Otp` is a timed state
machine, one atomic step per public operation; `OtpService` is the class with its dictionaries and
loops, proved to take exactly those steps. The whole-run theorems are about every run of calls in any
order; `OtpAnswers` answers every call from what the run has accepted before. `Accounts` is a second
machine in which sign-in, method switches, enrolment, disabling, password changes, the default method
and password recovery interleave at every `await`, with stale rows and column-wise writes. Where one of
its promises can be lost, the run that loses it is a lemma, and the exact condition under which it is
kept is a theorem.

**The context window** (`ContextWindow`). The greedy selection of history messages is the longest
admissible suffix.

## Modelling assumptions

- Text is a sequence of code points, surrogates included, as in Python; the client's UTF-16 strings
  differ from it only in how they count, which no modelled client operation does.
- Challenge ids and reset tokens are fresh; the keyed hash is injective (`Otp.Mac` is a constructor).
- Time is `real`; the clock never runs backwards and is read once per call. The code reads it two or
  three times in `claim_totp` and `verify`.
- Python's `int(text, 16)` is a parameter of the extractor (`Extractor.HexReader`): it also reads
  signs, underscores and other scripts' digits, and every result holds for any reader that reads four
  hexadecimal digits correctly.
- A request runs atomically between two awaits; a provider's send succeeds, fails or never returns.
- A database session keeps seeing the row it loaded first and writes only the columns it changed; the
  unique constraints on contacts are checked against the table as it is at the commit.
- Passing the first factor is left to the environment: any request may claim to be any user's. So is
  the throttle that may refuse a password change before the current password is looked at.

## Model

| member | source | states |
|---|---|---|
| Surrogates.ReplaceLoneSurrogates | backend/app/ai/context.py:131-157 | the index loop computes the recursive repair: pairs combined as in section 2.2 of RFC 2781, every other surrogate replaced by U+FFFD |
| Surrogates.RepairIsScalar | backend/app/ai/context.py:131-157 | the result never contains a surrogate, so it can always be encoded |
| Surrogates.RepairKeepsScalar | backend/app/ai/context.py:131-157 | text without surrogates is left exactly as it is |
| Surrogates.RepairIdempotent | backend/app/ai/context.py:131-157 | repairing twice is repairing once |
| Surrogates.RepairPiecewise | backend/app/ai/context.py:131-157 | repair distributes over a cut if and only if the cut does not separate a pair, and a separated pair costs exactly one code point more |
| Surrogates.RepairDecodesUtf16 | backend/app/ai/context.py:131-157 | repair inverts UTF-16 encoding of any scalar text |
| Surrogates.Utf16EncodesRepair | backend/app/ai/context.py:131-157 | UTF-16 encoding inverts repair of any well-formed code unit sequence |
| JsonDump.StringRoundTrip | backend/app/ai/context.py:119-128 | decoding an escaped string gives the string back, ASCII-escaped or literal, whatever follows it |
| JsonDump.LoadsDump | backend/app/ai/context.py:111-128 | parsing what a serializer wrote returns the same value, for every nesting of objects, arrays, strings, integers and literals |
| JsonDump.DumpIsPrintable | backend/app/services/ai_service.py:71-73 | serialized JSON has no control characters, so a payload is always one line and cannot break an SSE frame |
| JsonStrings.ReadsExactlySpellings | backend/app/ai/context.py:198-228 | the decoder reads a text up to its closing quote if and only if it is a spelling in the grammar of section 7 of RFC 8259 (literal, every short escape, digits in either case, surrogate pairs), and reads it as the text it spells |
| JsonStrings.SpellingIsPreviewed | backend/app/ai/context.py:198-228 | the extractor reads every such spelling as the text too, whatever comes behind it |
| JsonStrings.CaseIsIgnored | backend/app/ai/context.py:198-228 | folding the case of escape digits changes neither what the decoder reads nor what the extractor previews, lone surrogates included |
| JsonSyntax.LoadsExactlyDocuments | backend/app/ai/context.py:246-249 | a document is loaded if and only if it is one of the ways to write some value (any layout, spelling and number), and it is loaded as that value |
| Extractor.ExtractStreamedContent | backend/app/ai/context.py:171-228 | the extractor, loop by loop, computes the recursive specification `Extract` for every buffer; `SpellingExtracts` says what that is of an envelope in any layout and spelling |
| Extractor.FindValue | backend/app/ai/context.py:181-197 | the position found is the opening quote behind the first content key and the first colon after it |
| Extractor.ScanBody | backend/app/ai/context.py:198-222 | the scanning loop stops exactly where the specification's scan stops, and says whether it stopped on a closing quote |
| Extractor.ScanTurn | backend/app/ai/context.py:200-221 | one turn of the loop decides as the specification does about a dangling backslash, a partial or malformed escape and a surrogate pair cut in half |
| Extractor.CheckLowFollows | backend/app/ai/context.py:160-168 | it holds exactly when an escaped low surrogate follows at the index |
| Extractor.PassedUnit | backend/app/ai/context.py:198-221 | what one turn passes over is a whole unit of a JSON string whatever comes next, or spoils the string whatever comes next |
| Extractor.PreviewParses | backend/app/ai/context.py:198-228 | the part scanned so far, closed with a quote, is read by the JSON string decoder as exactly the previewed text, or refused exactly when there is no preview |
| Extractor.PreviewGrows | backend/app/ai/context.py:198-228 | of two previews of one growing body the first is a prefix of the second |
| Extractor.PreviewPrecedesValue | backend/app/ai/context.py:198-228 | a preview of a body that turns out to be a JSON string is a prefix of its decoded value |
| Extractor.PreviewOfWhole | backend/app/ai/context.py:198-228 | on a complete body the preview is the whole decoded value if and only if no escaped high surrogate is unpaired |
| StreamedContent.ExtractGrows | backend/app/ai/context.py:171-228 | prefix monotonicity: a buffer's extraction is a prefix of any longer buffer's extraction, whatever happened in between; this is what makes forwarding only the new part sound |
| StreamedContent.ExtractGrowsIff | backend/app/ai/context.py:171-228 | for every buffer and every continuation that both extract: what is decoded only grows, and the first extraction is a prefix of the second if and only if no surrogate pair is torn between them |
| StreamedContent.RawHighSurrogate | backend/app/ai/context.py:171-228 | the smallest case: after an envelope that has just opened with one raw high surrogate, the next code point breaks monotonicity if and only if it is a low surrogate |
| StreamedContent.ExtractPrecedesIff | backend/app/ai/context.py:171-262 | for every prefix of a reply within the contract, raw surrogates included: what is decoded is a prefix of the parsed text, and the extraction is a prefix of the content if and only if no pair is torn at its end |
| StreamedContent.ExtractPrecedesContent | backend/app/ai/context.py:171-262 | every prefix of a reply within the contract extracts to nothing or to a prefix of the content the full parser returns |
| StreamedContent.ExtractOfWhole | backend/app/ai/context.py:171-262 | the complete reply extracts to exactly the parsed content if and only if every high-surrogate escape in it is paired |
| StreamedContent.EnvelopeExtracts | backend/app/ai/context.py:171-262 | escaping any scalar text into an envelope, in either spelling, and extracting it is the identity, and the full parser returns the same text and reply target |
| StreamedContent.SpellingExtracts | backend/app/ai/context.py:171-228 | for any layout of the envelope and any spelling of its content the extractor answers the text, before its closing quote has come as well as after |
| StreamedContent.CaseIsIgnored | backend/app/ai/context.py:198-228 | folding the case of escape digits changes no extraction, wherever the buffer ends |
| Completion.LocateAgrees | backend/app/ai/context.py:181-197 | for every envelope within the contract the textual search finds the member the parser finds, even when the content itself looks like the key |
| Completion.PromptShapeKeepsContract | backend/app/ai/context.py:231-262 | the envelope shape the prompt asks for is within the contract, in either member order and whatever the content |
| Envelopes.ParsesExactlyEnvelopes | backend/app/ai/context.py:231-262 | for every raw reply: it has content and target if and only if it is written as an object with usable content behind nothing but a preamble; the content is that member's, repaired, and the target its positive integer; anything else degrades to the raw text and no target |
| Envelopes.PreambleIsTolerated | backend/app/ai/context.py:231-245 | any preamble without a brace before any object with usable content is tolerated, if and only if it does not consist of white space that JSON does not know |
| ReplyStream.StreamResponse | backend/app/services/ai_service.py:240-376 | the receiving loop, its early exits and the closing part produce exactly the events and the stored reply of the specification `Respond` |
| ReplyStream.Receive | backend/app/services/ai_service.py:240-321 | the loop consumes events up to the first that ends the stream, and its buffer, forwarded text and last completion are those of the events consumed |
| ReplyStream.Forward | backend/app/services/ai_service.py:253-265 | one delta is appended and only a longer extraction is forwarded, from where the last one ended |
| ReplyStream.CloseStream | backend/app/services/ai_service.py:339-376 | the content is settled, topped up and stored with a target inside the conversation, or none; `ReplyTargets.StoredReply` says which in terms of the envelope |
| ReplyStream.AlwaysForwards | backend/app/services/ai_service.py:253-263 | after every piece the forwarded text is nothing or an extraction of some prefix of what was received |
| ReplyStream.DeltasSpellEmitted | backend/app/services/ai_service.py:253-263 | while the reply streams, the concatenated delta events are exactly the forwarded text |
| ReplyStream.EmittedPrecedesReply | backend/app/services/ai_service.py:339-350 | the forwarded text is a prefix of the content that is stored |
| ReplyStream.ShownIsPersisted | backend/app/services/ai_service.py:240-376 | for every way the provider cuts its reply, the delta events spell exactly the stored content and the last event carries that content, in the truncated, blank and raw-text cases too |
| ReplyStream.PersistedOnlyWhenCompleted | backend/app/services/ai_service.py:240-376 | a reply is stored if and only if nothing ended the stream early, the provider completed it and the client did not leave, at the topping-up event or while it was being stored, before it was; the completed event is sent if and only if it was stored and the client stayed for it |
| ReplyStream.HowItFails | backend/app/services/ai_service.py:240-337 | exactly which errors are sent: one for an exception or an error of the provider, one for a stream that ends uncompleted, none for a cancellation, a client that has gone, or a reply |
| ReplyStream.HowItBegins | backend/app/services/ai_service.py:217-240 | the first event says that the message was created, and no other does |
| ReplyTargets.StoredReply | backend/app/services/ai_service.py:339-425 | for every reply and every way it is cut, said of what the provider wrote: the stored target is the message its envelope asks for if and only if that is a positive integer and a message of the conversation; the stored content is the envelope's, or without an envelope what was forwarded, or else the raw text; the raw text is what was streamed, or the completion's own when nothing was |
| ReplyTargets.TargetArrives | frontend/src/api/messages.ts:102-125 | however the network cuts the stream, the last event the client reads is the completed message and carries the stored target |
| ReplyStream.DuplicateContent | backend/app/ai/context.py:171-262 | outside the contract: for an envelope with two content members the promise holds if and only if the first text is a prefix of the second |
| RawReplies.RawIsStored | backend/app/services/ai_service.py:339-350 | for every reply, cut in any way: the raw text itself is stored and closes the stream if and only if it holds no usable content and nothing was forwarded from it; `Envelopes.ParsesExactlyEnvelopes` says which replies hold one |
| RawReplies.ContentIsShorter | backend/app/ai/context.py:231-262 | the content a reply decodes to is always shorter than the reply, so comparing the two tells a parsed reply from a raw one |
| RawReplies.ExtractIsShorter | backend/app/ai/context.py:171-228 | what the extractor answers is always shorter than the buffer it was given |
| RawReplies.HollowReplyIsShown | backend/app/services/ai_service.py:339-350 | an input for which the raw JSON does reach the client: the reply `{"content": ""}` is sent and stored as it stands |
| Seams.ShownPlaceByPlace | backend/app/services/ai_service.py:253-265 | for every reply and every way it is cut: each place of the shown text holds what the first extraction long enough had there, and the shown text is as long as the longest extraction |
| Seams.ShownIsEmittedIff | backend/app/services/ai_service.py:253-265 | the deltas spell the text forwarded last if and only if every extraction is a prefix of every longer one |
| Seams.ShownIsPersistedIff | backend/app/services/ai_service.py:240-376 | for every reply, within the contract or not, raw surrogates included, and however it is cut: the deltas spell the stored content if and only if at every place the first extraction that reaches it has what is stored there |
| Seams.ShownIsPersistedExactly | backend/app/services/ai_service.py:240-376 | for every reply within the contract, raw surrogates included: the deltas spell the stored content if and only if what is extracted after each piece is a prefix of the content, or of every longer extraction when there is no content to parse |
| Seams.EveryCutIsShown | backend/app/services/ai_service.py:240-376 | a property of the reply alone: for every way of cutting it the deltas spell the stored content, if and only if the extraction of each of its prefixes is a prefix of the parsed content, or of every longer extraction when there is none |
| Seams.TornPairIsShown | backend/app/services/ai_service.py:253-265 | a run that loses the promise: a raw pair cut in the middle is shown as U+FFFD although the pair is stored |
| OffContract.SeamlessIsPersistedIff | backend/app/services/ai_service.py:240-376 | for every reply of which no pair is torn between pieces: the deltas spell the stored content if and only if the parser finds no usable content or finds one that continues the forwarded text |
| OffContract.EmittedIsExtraction | backend/app/services/ai_service.py:253-265 | without raw high surrogates the forwarded text after the last piece is the extraction of the whole reply, whatever the pieces were |
| OffContract.DecoyContent | backend/app/ai/context.py:171-262 | outside the contract: when a text says `content` before the content member comes, the promise holds if and only if the next member's text is a prefix of the content |
| Sse.ParseBlock | frontend/src/api/sse.ts:15-31 | the line loop computes the last event name and the joined data lines of a block, or nothing without data |
| SseLines.BlockMeans | frontend/src/api/sse.ts:15-31 | a block of any lines (comments, names, data with and without the space, unknown fields, carriage returns) is an event if and only if it has a data line; its name is the last one given and its data all data lines joined by line feeds |
| SseLines.TrimmedExactly | frontend/src/api/sse.ts:15-58 | `trim` takes away the white space at both ends and nothing else |
| SseLines.LastFrameIsRead | frontend/src/api/sse.ts:54-58 | a last frame whose blank line never came is read all the same, without the white space at the end of its data |
| Sse.ParseSseStream | frontend/src/api/sse.ts:33-62 | the nested loops yield the events of the whole text, so they depend on the concatenation of the chunks alone |
| Sse.DrainAppend | frontend/src/api/sse.ts:41-53 | draining a longer text is draining the first part and going on with what it left over, so a chunk may end anywhere, inside a separator too |
| Sse.RoundTrip | frontend/src/api/sse.ts:15-62 | over concatenated frames the parser yields exactly the encoded events in order (the event stream format of the WHATWG HTML standard, section 9.2.6) |
| Sse.CutShort | frontend/src/api/sse.ts:15-62 | over any beginning of concatenated frames, ending anywhere, the parser yields the first so many whole events and at most a beginning of the next one's data |
| JsonPrefix.ValueStable | frontend/src/api/messages.ts:102-124 | a string, array or object at the front of a text is parsed the same whatever follows it, and any other value when it is delimited |
| JsonPrefix.ObjectCutShort | frontend/src/api/messages.ts:102-124 | no proper beginning of an object's text parses |
| Client.StreamingStore.BeginStream | frontend/src/features/chat/streamingStore.ts:40-43 | an empty pending bubble replaces whatever the conversation had; others stay |
| Client.StreamingStore.AppendStreamDelta | frontend/src/features/chat/streamingStore.ts:46-55 | the delta is appended to an existing bubble; without one nothing changes |
| Client.StreamingStore.RemoveStream | frontend/src/features/chat/streamingStore.ts:58-67 | the conversation's bubble goes and no other |
| Client.Consume | frontend/src/api/messages.ts:102-124 | the dispatch loop's outcome is that of replaying the events on the bubble, and it touches no other conversation |
| Client.UnknownIsIgnored | frontend/src/api/messages.ts:102-121 | an event of any other name changes nothing, wherever it comes |
| Client.PlayReply | frontend/src/api/messages.ts:102-124 | replaying a well-ordered reply returns the completed content at the moment the bubble shows all its deltas |
| Client.Arrives | frontend/src/api/messages.ts:69-125 | for every reply, within the contract or not: the call succeeds if and only if the reply was stored, the completed message carries the stored content, and the bubble then shows exactly the deltas |
| Client.EndToEnd | frontend/src/api/messages.ts:69-125 | from provider to bubble, for every chunking on both sides: the call succeeds if and only if the reply was stored, and bubble and completed message then equal the stored content |
| Interrupted.BreaksAnywhere | frontend/src/api/messages.ts:69-125 | for every reply and every beginning of the event stream that arrives: the call fails, or returns exactly what was stored, and the bubble never shows anything but a beginning of what the deltas spell |
| Interrupted.StoredOrNothing | frontend/src/api/messages.ts:69-125 | for replies within the contract the bubble is at every moment a beginning of the stored content, and what the call returns, if it returns, is all of it |
| ContextWindow.ChooseMessages | backend/app/ai/context.py:347-382 | the backward loop returns the longest suffix of the eligible messages that may be shown together |
| ContextWindow.SelectMessages | backend/app/ai/context.py:347-382 | the rendered selection is that suffix in chronological order |
| ContextWindow.LongestIsUnique | backend/app/ai/context.py:347-382 | the property determines the selection |
| ContextWindow.LongestIsGreedy | backend/app/ai/context.py:347-382 | a length is the longest if and only if it is the greedy one: the newest message is shown whatever it costs, more than one only within the budget, and one more would be over the budget or the limit |
| ContextWindow.FetchLimitIsHarmless | backend/app/services/ai_service.py:145-147 | for any history and any window, the newest 500 rows yield the newest messages of the full selection that are eligible on that page; nothing is lost if and only if the full selection is no longer than the eligible part of the page |
| ContextWindow.BodyCannotBeForged | backend/app/ai/context.py:111-128 | whatever its text contains, a rendered message reads back as an object of exactly five members, in which id, role, content, time and reply target are each the message's own |
| ContextWindow.EligibleExactly | backend/app/ai/context.py:347-382 | exactly the non-empty messages of the user and the assistant are eligible |
| ContextWindow.ShownAsWritten | backend/app/ai/context.py:347-382 | every selected message is shown in its own place and role and reads back as itself |
| OtpService.OtpService.PruneAll | backend/app/services/otp_service.py:146-186 | the deletion loops leave exactly the unexpired challenges, recent events, holding locks and running cooldowns |
| OtpService.PruneWindow | backend/app/services/otp_service.py:179-186 | old events leave the front of every queue and empty queues leave the dictionary |
| OtpService.OtpService.Reserve | backend/app/services/otp_service.py:279-357 | the first limit in order refuses; a refused request records nothing, an accepted one is recorded at every limit; `OtpAnswers.ClaimIsAnswered` says the same of whole runs, without the store |
| OtpService.OtpService.ClaimCode | backend/app/services/otp_service.py:406-455 | a claim takes the specified step: a pending challenge for a fresh id, or a refusal |
| OtpService.OtpService.ClaimAuthenticator | backend/app/services/otp_service.py:359-404 | an authenticator claim takes the specified step, pruning twice at one reading of the clock included |
| OtpService.OtpService.CommitChallenge | backend/app/services/otp_service.py:457-474 | a commit takes the specified step: it pops the claim, is refused when it is gone or its predecessor is, and otherwise replaces the user's challenges of that purpose |
| OtpService.OtpService.DiscardChallenge | backend/app/services/otp_service.py:476-493 | a discard takes the specified step: only an owner's challenge goes, with its own cooldown |
| OtpService.OtpService.VerifyCode | backend/app/services/otp_service.py:510-577 | a verification takes the specified step in every outcome: gone, locked, raised, wrong, exhausted, right |
| OtpService.OtpService.RecordTotpFailure | backend/app/services/otp_service.py:221-240 | the failure is appended and the threshold sets the lock |
| OtpService.OtpService.ReserveRequestSlot | backend/app/services/otp_service.py:579-607 | a request is counted at its address, send or no send; without an address nothing happens |
| OtpService.OtpService.InvalidateUser | backend/app/services/otp_service.py:609-618 | live challenges, failures and lock of the user go; pending claims stay |
| OtpAnswers.ClaimIsAnswered | backend/app/services/otp_service.py:279-455 | in every run every claim is refused by the first limit that is used up, counted in what the run has accepted before and in the configured numbers (cooldown, destination, client address, the user's day: one allowance for recovery, another for signing in and contacts together), and issued if none is, with the configured lifetime and attempts |
| OtpAnswers.DayIsHistory | backend/app/services/otp_service.py:247-251 | the day refuses if and only if as many codes as the allowance of that kind of purpose were sent to the user in the last day; sends for the other kind do not count |
| OtpAnswers.AuthenticatorIsAnswered | backend/app/services/otp_service.py:359-404 | in every run an authenticator challenge is refused by the lock, and unless it enrols one by its cooldown, and by nothing else |
| OtpAnswers.RequestIsAnswered | backend/app/services/otp_service.py:579-607 | in every run a recovery request is refused if and only if as many as the limit came from its address within the window |
| OtpAnswers.CodeIsAnswered | backend/app/services/otp_service.py:510-577 | every entered code is answered from the challenge it is entered for: gone, locked, or judged by the validator, or by the hash without one |
| OtpWindows.StepStores | backend/app/services/otp_service.py:279-357 | a counted call found room and is stored once behind the recent events, so the bounded daily queue never evicts; any other call only drops old events |
| OtpWindows.StoredIsRecentHistory | backend/app/services/otp_service.py:146-206 | in every run the pruned queue holds exactly the recent part of the full history of accepted events |
| OtpWindows.WindowBound | backend/app/services/otp_service.py:279-357 | in every run and for every destination, client address and daily allowance, every closed interval of the window's length holds at most the limit's number of accepted events |
| OtpWindows.RoomExactly | backend/app/services/otp_service.py:188-206 | after any run a counter has room if and only if fewer than its limit of accepted events lie in the closed interval that ends now: nothing is refused early and nothing accepted late |
| OtpWindows.RetryAfterIsExact | backend/app/services/otp_service.py:188-206 | however the run goes on, while nothing else is counted a refused window check passes exactly the stated whole number of seconds later, and at no earlier one |
| OtpWaits.CooldownWait | backend/app/services/otp_service.py:307-313 | however the run goes on, while nothing else spends the cooldown its check passes once the stated wait is over; while nothing gives it back, it passes exactly when the time left is over, so the wait is the first whole second that passes if and only if the time left was not whole |
| OtpWaits.LockWait | backend/app/services/otp_service.py:208-219 | the same for the authenticator lock, while no wrong authenticator code of the user is judged, or nothing clears it |
| OtpWaits.DailyWait | backend/app/services/otp_service.py:334-346 | while nothing else is counted, the daily allowance has room a day after the refusal if and only if not all of it was used at the very moment of the refusal |
| OtpPruning.PruningIsInvisible | backend/app/services/otp_service.py:146-206 | over every run whose commits and discards touch unexpired challenges, every answer equals that of a reference store that forgets nothing and filters by time |
| OtpPruning.CommitAgreesIffPunctual | backend/app/services/otp_service.py:457-474 | a commit answers like the reference store if and only if what it finds in the store has not expired |
| OtpPruning.DiscardAgreesIff | backend/app/services/otp_service.py:476-493 | a discard has the reference store's effect if and only if it does not release a running cooldown on behalf of an expired challenge |
| OtpPruning.LateCommitIsAccepted | backend/app/services/otp_service.py:457-474 | a run in which the send of a texted code returns at the moment the code expires, and its commit is accepted although a store that looks at the time would refuse it |
| OtpPruning.LateCommitClearsCurrent | backend/app/services/otp_service.py:457-474 | a run in which such a commit takes away the authenticator challenge that the user has started meanwhile, good for longer, and leaves a code that has expired |
| OtpLockout.GrindingBound | backend/app/services/otp_service.py:208-240 | in any closed interval of the rate window without success or invalidation, at most maxAttempts + floor(window / lockout) wrong authenticator codes of a user are judged, over all challenges and purposes |
| OtpLockout.LocksAddUp | backend/app/services/otp_service.py:208-240 | from the threshold on, every further wrong code has cost a whole lockout |
| OtpLockout.StoredFailures | backend/app/services/otp_service.py:164-168 | the pruned queue of failures holds exactly the recent part of the user's wrong codes since they were last cleared |
| OtpLockout.LockedExactly | backend/app/services/otp_service.py:221-240 | a wrong authenticator code locks its user, for the lockout from that moment, if and only if it is at least the maxAttempts-th uncleared one in the window, and no other call ever locks |
| OtpLifecycle.AlwaysConsistent | backend/app/services/otp_service.py:457-577 | in every reachable store at most one challenge is live per user and purpose, no id is both pending and live, and every live challenge has between one and the maximum number of attempts left |
| OtpLifecycle.LifeCycle | backend/app/services/otp_service.py:359-577 | over every run an id is issued, committed and verified at most once, in that order, and judged wrong at most maxAttempts times; its attempts left are what has not been used up |
| OtpLifecycle.VerifiedOnce | backend/app/services/otp_service.py:510-577 | no two calls of a run verify the same challenge |
| OtpLifecycle.VerifiedOrigin | backend/app/services/otp_service.py:406-577 | a verified challenge was claimed and then committed earlier in the run, for that user, purpose, channel and destination, and had not expired |
| OtpLifecycle.StaysDead | backend/app/services/otp_service.py:457-577 | an id that has been drawn and is neither pending nor live never comes back |
| OtpLifecycle.ValidatorReplacesHash | backend/app/services/otp_service.py:544-549 | a validator given for a challenge with a hash leaves the outcome as it is if and only if it says what the hash says |
| OtpLifecycle.ValidatorOverridesHash | backend/app/services/otp_service.py:544-549 | an input where it does not: a wrong texted code passes with a validator that accepts it |
| OtpBudgets.OtherGroupUnchanged | backend/app/services/otp_service.py:242-270 | a claim, commit or discard for one limit group leaves the other group's live and pending codes, cooldowns and daily counts as they were |
| OtpBudgets.ClaimDependsOnOwnBudget | backend/app/services/otp_service.py:303-357 | a claim's answer depends only on its own group's allowance, its destination and address windows and the lock |
| OtpSeparation.OtherGroupIsInvisible | backend/app/services/otp_service.py:242-270 | over whole runs: unless a window that both use or the lock refuses, or the other group proves an authenticator, every call of one group, coming in time for its own challenges, is answered as if no claim, commit, discard, read or verification of the other had ever been made |
| OtpSeparation.SharedWindowIsVisible | backend/app/services/otp_service.py:314-322 | why the windows are excepted: with room for one code per destination, a recovery code makes a sign-in code be refused |
| OtpSeparation.LateCommitIsVisible | backend/app/services/otp_service.py:457-474 | why the calls have to come in time: a commit at the moment its code expires is refused where a recovery request has looked at the store before, and accepted where none has |
| OtpBudgets.CooldownSpacing | backend/app/services/otp_service.py:307-313 | two accepted claims on one cooldown lie at least its length apart, unless a discard in between gave it back |
| OtpBudgets.DiscardIsLocal | backend/app/services/otp_service.py:476-493 | a discard takes away exactly the owner's one challenge and its own channel's cooldown; a stranger's changes nothing, and no counted send is given back |
| AccountsProofs.EveryRunIsSound | backend/app/services/auth_service.py:162-208 | in every run of all flows together, whatever rests on a code rests on a verified one of the right user and purpose, and no verified code is relied on twice |
| AccountsProofs.ProvenSessions | backend/app/services/auth_service.py:301-335 | every session with a code rests on a verified sign-in challenge of that user, and no two sessions on the same one, over all interleavings |
| AccountsSessions.SessionsRestOnCodes | backend/app/services/auth_service.py:162-335 | in every run a session's request had loaded the account's row, active, at a definite earlier moment, and the session lacks a code if and only if two-step verification was off in that row |
| AccountsSessions.NoSessionWithoutCode | backend/app/services/auth_service.py:162-335 | an account that has two-step verification on from the loading of its row to the session gets no session without a code |
| AccountsSignIn.StaleRowSkipsCode | backend/app/services/auth_service.py:162-208 | the run that loses it, from any moment at which a contact may be confirmed: a request that loaded the row before two-step verification was turned on is issued its session without a code afterwards |
| AccountsSessions.PasswordIsEarned | backend/app/services/auth_service.py:210-248 | in every run an account's password is the one it was created with, or was set by a reset with a verified recovery code of the account spent in time, or by a request that gave the password the row held, or by one that found the row to hold none |
| AccountsProofs.PasswordsRestOnCodes | backend/app/services/password_reset_service.py:243-336 | every password set by a completed reset maps injectively to a consumed recovery challenge of that user, through an authorization minted after the code was verified and spent less than its lifetime after that |
| AccountsResets.LeftByReturn | backend/app/services/password_reset_service.py:307-323 | the store holds a code of the user after a reset returns if and only if the code was claimed and not yet sent when it did |
| AccountsResets.ResetEndsWhatWasLive | backend/app/services/password_reset_service.py:307-323 | the live codes: in every run a code of the user that is verified after a reset returned was committed after it |
| AccountsResets.MintedAfterwards | backend/app/services/password_reset_service.py:307-342 | in every run every authorization that the user has after a reset returned was minted at that moment or later |
| AccountsInFlight.ResetCutsOffIff | backend/app/services/password_reset_service.py:307-323 | exactly when nothing that was in flight can act: from the return on, in every continuation, no request, authorization, session, password or contact of the user's rests on a code claimed before it, nor any request, session or password of the user's on a row read before it, if and only if no request of the user's is past its check at the return and no unexpired claim of the user's, other than a switch's, has its send awaited |
| AccountsInFlight.VerifiedIsClaimedAfterwards | backend/app/services/password_reset_service.py:307-323 | where nothing is left in flight, every code of the user that is verified after the return was claimed after it |
| AccountsOverlaps.OldSignInFinishes | backend/app/services/password_reset_service.py:307-323 | an input of the failing kind, a claim: from any moment at which a reset is about to save the new password, a sign-in whose password was checked before the save can have its code sent after the return and still end in a session |
| AccountsOverlaps.OldProofFinishes | backend/app/services/password_reset_service.py:307-323 | and a proof: from any such moment, a sign-in whose password and code were checked before the save can still end in a session after the return |
| AccountsOverlaps.ProvenSignInFinishes | backend/app/services/auth_service.py:301-335 | a request that holds a verified sign-in when the reset returns gets its session, with no further check, if and only if the account it acts on is active and has two-step verification on |
| AccountsOverlaps.ProvenRecoveryFinishes | backend/app/services/password_reset_service.py:243-287 | a request that holds a verified recovery when the reset returns is given an authorization if and only if the account it acts on is active, and the authorization sets yet another password |
| AccountsOverlaps.OldSignIns | backend/app/services/password_reset_service.py:307-323 | both old sign-ins spelled out from one new account, through a contact confirmation and a recovery by e-mail |
| AccountsProofs.ContactsRestOnCodes | backend/app/services/two_factor_service.py:189-268 | every contact written by a confirmation is the destination of a distinct consumed contact challenge of that user |
| AccountsSettings.ReadyUnlessStranded | backend/app/services/user_service.py:46-56 | in every run that starts with two-step verification off, every account that has it on can at every moment be served by its default method if and only if no step saves an authenticator it does not have as the default of such an account, or confirms a first contact behind such a save |
| AccountsSettings.EnabledIsReady | backend/app/services/two_factor_service.py:76-282 | in every run in which an authenticator is only saved as the default of an account that has one, an account with two-step verification on has the contact or secret its default method needs; `AccountsEffects.DisableTurnsOff` is how it goes off |
| AccountsSignIn.PreferenceStrands | backend/app/services/user_service.py:46-56 | the run that loses it, from any moment at which a mobile number may be confirmed: confirming it and then preferring an authenticator leaves an enabled account that cannot be served |
| AccountsSignIn.LostPromises | backend/app/services/user_service.py:46-56 | both runs that lose a promise, spelled out from one new account |
| AccountsSettings.ConfirmedAdvances | backend/app/services/two_factor_service.py:230-246 | a confirmation that writes only changed columns onto a row that moved on meanwhile still leaves a default method that can be served |
| AccountsRows.RowsRestOnCodes | backend/app/services/two_factor_service.py:230-246 | in every run an account's e-mail address or mobile number is the one it was created with, or the destination of a verified contact challenge of that account |
| AccountsSignIn.SignInSucceeds | backend/app/services/auth_service.py:162-408 | the guarantees are not bought by refusing: from any moment of any run, an active account with two-step verification on that its default method can serve, authenticators included, and whose claim no limit refuses, gets a session that rests on a code when the code is right and in time |
| AccountsSignIn.ContactConfirms | backend/app/services/two_factor_service.py:189-268 | from any moment of any run, a contact nobody else has is confirmed, and turns two-step verification on, when no limit refuses the claim and the code is entered in time |
| AccountsProgress.NobodyIsShutOut | backend/app/services/otp_service.py:279-404 | from any moment of any run, once the windows, the cooldown, a day and the lock have run out, no limit refuses, and an active account that its default method can serve gets its session |
| AccountsProgress.SwitchSucceeds | backend/app/services/auth_service.py:379-483 | from any moment of any run at which a sign-in challenge is live, a switch to a method that can serve the account and that no limit refuses makes the new code live and ends the old one, and the new code in time ends in a session |
| AccountsProgress.RecoverySucceeds | backend/app/services/password_reset_service.py:153-324 | from any moment of any run, an active account that the method can serve and that no limit refuses gets its new password when the code is right and in time, and keeps no live code and no authorization |
| AccountsEffects.DisableTurnsOff | backend/app/services/two_factor_service.py:270-282 | from any moment of any run, disabling leaves the user's row as it was but for two-step verification being off, no live code, no counted failure and no lock of the user's, and everything else as it was |
| AccountsEffects.DisabledNeedsNoCode | backend/app/services/auth_service.py:162-208 | and the next sign-in of an active account then gets a session without a code |
| AccountsEffects.DisableIsSaved | backend/app/services/two_factor_service.py:270-282 | what a save writes on a row that moved on meanwhile: off if it was on when it was loaded, and otherwise the row as it is |
| AccountsEffects.PlainSignIn | backend/app/services/auth_service.py:162-208 | from any moment of any run, an account without two-step verification gets a session without a code if and only if it is active |
| AccountsEffects.EnrolmentEnables | backend/app/services/two_factor_service.py:139-268 | from any moment of any run at which the user is not locked, the secret is stored and a right code from it in time turns two-step verification on, by the authenticator if it was off; no cooldown or allowance refuses it |
| AccountsEffects.ChangeSetsPassword | backend/app/services/auth_service.py:210-248 | from any moment of any run an owner's change takes effect if and only if the password given is the one held, or none is held |
| AccountsEffects.PreferenceIsSaved | backend/app/services/user_service.py:46-56 | from any moment of any run a default method is saved if and only if the account has an e-mail address, for e-mail, or a mobile number, for any other |
| AccountsEffects.FailedSendIsUndone | backend/app/services/auth_service.py:390-395 | from any moment of any run at which a send is awaited, its failure ends the request, removes its code, which was never live, and gives back the cooldown it started; nothing else changes, and counted sends stay counted |
| AccountsEffects.RetryIsNotCooling | backend/app/services/auth_service.py:390-395 | so the retry runs into no cooldown |
| AccountsRefusals.FirstFactorLeads | backend/app/services/auth_service.py:162-208 | exactly when the first factor leads to a code (an active row with two-step verification on, reached by its default method; the code goes to the row's own address), to a session, or to nothing |
| AccountsRefusals.SwitchLeads | backend/app/services/auth_service.py:448-483 | exactly when a switch claims a code, and that it goes to the row's own address for the chosen method |
| AccountsRefusals.RecoveryLeads | backend/app/services/password_reset_service.py:153-241 | exactly when a recovery claims a code, that it goes to the account's own address, and that no client address is counted for it |
| AccountsRefusals.RequestsLead | backend/app/services/password_reset_service.py:153-241 | a request for recovery is counted at its client's address before an account is looked for, and goes on if and only if the limit accepts it; a contact's code goes to the contact itself |
| AccountsRefusals.StrangersConfirmNothing | backend/app/services/two_factor_service.py:189-229 | a contact's code confirms nothing for a stranger, texted or an authenticator's, whatever it is and whatever a validator says |
| AccountsRefusals.OwnerLeads | backend/app/services/password_reset_service.py:291-324 | exactly when an authenticator code is judged, and when a reset goes on to its password |
| AccountsRefusals.ContactsStayDistinct | backend/app/services/two_factor_service.py:189-268 | in every run that starts with distinct contacts no two accounts ever share one, however confirmations and registrations interleave |
| AccountsSwitches.AtMostOneSwitch | backend/app/services/auth_service.py:379-483 | however switches interleave at the provider, at most one switch away from a challenge succeeds, and a challenge whose commit was refused never was and never will be live |
| AccountsOrder.CommitOutcome | backend/app/services/otp_service.py:457-474 | an accepted switch commit kills a challenge that was not dead before; a refused one kills its own |
| AccountsSwitches.HeldCodeWorks | backend/app/services/auth_service.py:448-483 | in every run of all flows, until a commit of the same flow succeeds, the code the user holds verifies, apart from expiry, use, disabling, a completed password reset, exhausted attempts and the authenticator lock; no flow ever discards it |
| AccountsSwitches.ValidatorsJudgeAuthenticators | backend/app/services/auth_service.py:301-335 | in every run of all flows a code given with a validator is either not looked at, its challenge being gone, or belongs to a challenge without a hash, whatever the answer |
| AccountsSwitches.RecoverySparesAddresses | backend/app/services/password_reset_service.py:153-241 | in every run of all flows no call of password recovery is counted among the sends of any client address |
| ResetAuthorizations.AuthorizationStore.Prune | backend/app/services/password_reset_service.py:115-118 | exactly the unexpired authorizations stay |
| ResetAuthorizations.AuthorizationStore.Mint | backend/app/services/password_reset_service.py:271-276 | a verified code becomes an authorization of its user that expires after the configured lifetime |
| ResetAuthorizations.AuthorizationStore.Consume | backend/app/services/password_reset_service.py:326-336 | a token opens what it was minted for if and only if it is known and unexpired, and is gone afterwards either way |
| ResetAuthorizations.AuthorizationStore.InvalidateUser | backend/app/services/password_reset_service.py:338-342 | exactly the user's authorizations go |

## Where code and documentation differ

- "The raw JSON never reaches the client" (ai_service.py:210-211) is false of `{"content": ""}`
  (`RawReplies.HollowReplyIsShown`); `RawReplies.RawIsStored` says exactly which replies it is true of.
- "A hash challenge ignores any validator" (otp_service.py:544-545) is not what lines 546-549 do
  (`OtpLifecycle.ValidatorOverridesHash`). A validator that agrees with the hash changes nothing, and
  any other changes the answer (`OtpLifecycle.ValidatorReplacesHash`); the flows never give one to
  such a challenge (`AccountsSwitches.ValidatorsJudgeAuthenticators`).
- "The preference may only ever name a channel that exists" (user_service.py:47-48, and likewise
  schemas/users.py:85-87): for an authenticator the code asks for a mobile number instead of a secret
  (`AccountsSignIn.PreferenceStrands`), and sign-ins are then refused (`AccountsSignIn.UnreadyIsRefused`).
  `AccountsSettings.ReadyUnlessStranded` is what holds instead.
- "Nothing that was in flight may authorize anything now" (password_reset_service.py:318-320) holds
  exactly when no request of the user's is past its check at the return and no unexpired claim of the
  user's, other than a switch's, has its send awaited (`AccountsInFlight.ResetCutsOffIff`). What is
  dropped are the live codes and the authorizations: a code whose send is awaited goes live afterwards
  (`AccountsOverlaps.OldSignInFinishes`), and a verified code is put to its use afterwards, by a sign-in
  (`AccountsOverlaps.OldProofFinishes`) or a recovery (`AccountsOverlaps.ProvenRecoveryFinishes`).
- "A preamble before the first `{` is tolerated" (context.py:236-237): not one that consists of white
  space JSON does not know, such as a no-break space; the raw text is then the reply
  (`Envelopes.PreambleIsTolerated`).
- A commit does not look at the time, so it can install an expired code and clear the user's current
  one (`OtpPruning.LateCommitIsAccepted`, `OtpPruning.LateCommitClearsCurrent`).

## Left out

- StreamedContent.ExtractGrows: only for buffers without raw (unescaped) high surrogates, because a raw pair split by the provider is first shown as U+FFFD; `StreamedContent.ExtractGrowsIff` gives the exact condition for every buffer and continuation.
- ReplyStream.ShownIsPersisted: only for replies within the contract (`Completion.WithinContract`) and without raw high surrogates. `Seams.ShownIsPersistedExactly` gives the exact condition within the contract, surrogates included, `Seams.ShownIsPersistedIff` and `Seams.EveryCutIsShown` the exact conditions for every reply, and `ReplyStream.DuplicateContent` and `OffContract.DecoyContent` spell it out for two families outside the contract.
- Client.EndToEnd: only where the deltas spell the stored content; `Client.Arrives` is for every reply. Payloads the server never writes (other event names, floats beside the content) and the store's listeners are not part of the model; a failing database write after the stream is I/O, and so is text the serializer cannot encode.
- OtpSeparation.OtherGroupIsInvisible: assumes that the run is punctual, as `OtpPruning.PruningIsInvisible` does, and that the group's own commits and discards come before their challenges expire (`LateCommitIsVisible` is why); what the two groups do share is left to `OtpBudgets.ClaimDependsOnOwnBudget`.
- OtpPruning.PruningIsInvisible: assumes punctual commits and discards; `CommitAgreesIffPunctual` and `DiscardAgreesIff` say exactly when that is needed.
- The flows of auth_service.py, two_factor_service.py and password_reset_service.py are a state machine with one step per stretch between awaits rather than methods on objects, because their interleaving is the point; the checks a contact request makes on possibly stale rows before its claim are left to chance.
- AccountsSignIn.SignInSucceeds: the steps of the one request follow each other with no other request in between, here and in the other lemmas about progress; `AccountsSwitches.HeldCodeWorks` is about what others may do meanwhile.
- LoginAttemptTracker: check and record are separated by an await, so only a weaker form of the window theorem would hold.
- Database sessions, HTTP routes, logging, the OTP log, email, SMS, Google and Cloudinary clients, React components: I/O or UI.
- Argon2, JWT and RFC 6238 arithmetic: libraries; a validator is a verdict that may also raise.
- JSON nesting so deep that Python raises RecursionError, and JSON integers beyond Python's 4300 digits written by a serializer.
- TextDecoder and byte-level UTF-8: SSE is modelled on characters; CRLF-separated blocks are not split by the original either.
- Persona, clock and system-prompt assembly; timestamps are opaque text.
- Character, conversation, model, persona and profile CRUD, contact normalisation: easy members.
