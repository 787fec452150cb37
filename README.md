# Chat relay: a Dafny model

This project models the chat relay of a small Next.js chat application. The
relay is the `POST /api/chat` route. It does four things:

- It authenticates the caller.
- It resolves or creates the conversation, validates the request and stores the user's message.
- It sends the conversation to a local Ollama model server.
- It relays the streamed answer to the client token by token, then stores the reply and titles the conversation.

The project also models the four user-display helpers of `lib/supabase/utils.ts`.

Modules, one per concern of the route:

- `Wrappers`: the `Option` type.
- `Text`: the string operations the route relies on. These are `trim()`, white-space splitting, `split('\n')`, ASCII case mapping and `join`.
- `Title`: `generateConversationTitle`. It trims the message, strips one leading stop word and the trailing question marks, keeps at most seven words and sentence-cases them. It falls back to "New Conversation".
- `Prompt`: `getSystemPrompt`, the history filter and the `messagesToSend` array.
- `Relay`: the `start` callback of the response stream.
  - `Run` is the read loop, a function over the sequence of reader events (chunk, end of body, abort, other error).
  - `LinesStep` is the `for` loop over the non-blank lines of one chunk.
  - `Pump` and `ForwardLines` are the imperative loops. Each is proved to forward exactly what `Run` and `LinesStep` say, while keeping `assistantText` equal to everything forwarded so far.
- `Store`: the two tables the route touches. It is a class whose methods are the three writes the route performs.
- `ChatRoute`: `POST` itself.
  - `Handle` is the order of checks as a function of what the collaborators answer. The auth result, each store call's success, the upstream status and events, and the JSON parser are bundled in `Env`.
  - `Post` is the method that performs the same steps on a `Store` object.
  - `Persist` / `PersistReply` model the `finally` block.
- `UserDisplay`: `isAuthenticated`, `getUserEmail`, `getUserDisplayName` and `formatUserDisplay`.

Two behaviours of the code are easy to miss; the model states both:

- Stream lines are not buffered across reads: each chunk is split on its own, and a line that does not parse is skipped. So a frame whose text is split over two chunks is dropped (`Relay.SplitFrameIsLost`).
- An existing title can be overwritten. A failed title lookup counts as "no title", so a titled conversation is retitled once a reply is stored (`ChatRoute.FailedLookupRetitles`).

## Model

| member | source | states |
|---|---|---|
| Text.LeadingSpace | app/api/chat/route.ts:21 | reference count of the white space a text starts with: every character before it is white space and the next one is not; `Text.Trim`, `Text.TrimStart` and `Text.TrimIsMiddle` are stated with it |
| Text.TrailingSpace | app/api/chat/route.ts:21 | reference count of the white space a text ends with: every character after the rest is white space and the one before is not; `Text.Trim` and `Text.TrimOfPadded` are stated with it |
| Text.TrimStart | app/api/chat/route.ts:22 | the `\s+` run the stop-word pattern consumes: the result is a suffix of the text, only white space comes before it, and it does not start with white space; `Title.StripLeadingWord` uses it |
| Text.Trim | app/api/chat/route.ts:21 | `trim()` gives the empty string exactly when the text is all white space; otherwise the result neither starts nor ends with white space |
| Text.TrimIsMiddle | app/api/chat/route.ts:21 | what `trim()` keeps is the slice of the text that starts right after its leading white space, and only white space follows it |
| Text.TrimOfPadded | app/api/chat/route.ts:21 | text whose ends are not white space comes back unchanged from `trim()` whatever white space surrounds it |
| Text.Words | app/api/chat/route.ts:27 | `split(/\s+/).filter(w => w.length > 0)` yields only non-empty pieces without white space |
| Text.WordsOfSpaced | app/api/chat/route.ts:27 | white space splits: the words of two texts with white space between them are the words of the first, then those of the second |
| Text.Join | app/api/chat/route.ts:42 | reference definition of `join(' ')`: the words with one space between each two; `Text.WordsOfJoin`, `Text.JoinLowerEach` and `Title.CasedJoin` state its properties |
| Text.WordsOfJoin | app/api/chat/route.ts:27 | splitting words that were joined by single spaces gives back the same words (round trip of the split and the `join(' ')`) |
| Text.LowerAll | app/api/chat/route.ts:38-40 | `toLowerCase` keeps the length and lower-cases each character |
| Text.LowerEach | app/api/chat/route.ts:40 | each word lower-cased, same number of words; `Text.JoinLowerEach` relates it to joining |
| Text.JoinLowerEach | app/api/chat/route.ts:35-42 | lower-casing the words one by one and joining them is lower-casing the joined text |
| Text.SplitLines | app/api/chat/route.ts:294 | `split('\n')` yields at least one piece, and no piece holds a line feed |
| Text.SplitLinesRoundTrip | app/api/chat/route.ts:294 | joining the pieces of `split('\n')` with line feeds restores the chunk |
| Text.SplitLinesAppend | app/api/chat/route.ts:294 | the text on the two sides of a line feed is split independently |
| Title.LeadingWordIndex | app/api/chat/route.ts:22 | the alternative picked is the first in the pattern's order that starts the text followed by white space; when none is picked, no alternative does |
| Title.StripLeadingWord | app/api/chat/route.ts:22 | the result is a suffix of the text; it is the text unchanged exactly when no stop word followed by white space starts it; otherwise it does not start with white space |
| Title.StrippedPrefix | app/api/chat/route.ts:22 | what is removed is one alternative, in any letter case, followed by a run of white space |
| Title.StripsExactlyOneWord | app/api/chat/route.ts:22 | a stop word in any case, then white space, then text not starting with white space, loses exactly the stop word and the white space, so a second stop word is kept |
| Title.StopWordsAreWords | app/api/chat/route.ts:22 | every alternative of the pattern is a non-empty word without white space |
| Title.StripTrailingQuestionMarks | app/api/chat/route.ts:23 | the result is a prefix, everything removed is `?`, and the result does not end with `?` |
| Title.CleanedDropsOneStopWord | app/api/chat/route.ts:20-24 | a message made of a stop word, white space and the rest is cleaned to the rest, without trailing question marks and trimmed |
| Title.Cleaned | app/api/chat/route.ts:20-24 | reference definition of `cleaned`: trim, strip one stop word and its white space, strip trailing `?`, trim again; `Title.CleanedDropsOneStopWord`, `Title.ConversationTitle` and `Title.TitleKeepsFirstWords` state its properties |
| Title.Kept | app/api/chat/route.ts:28 | `slice(0, 7)` keeps the first min(n, 7) words |
| Title.Capitalised | app/api/chat/route.ts:38 | reference definition of `charAt(0).toUpperCase() + slice(1).toLowerCase()`; `Title.SentenceCaseWords`, `Title.CasedJoin` and `Title.TitleIsSentenceCased` state its properties |
| Title.SentenceCase | app/api/chat/route.ts:35-41 | reference definition of the `map`: the first word capitalised, every later word lower-cased; `Title.SentenceCaseWords` and `Title.TitleIsSentenceCased` state its properties |
| Title.SentenceCaseWords | app/api/chat/route.ts:35-41 | sentence-casing keeps the number of words, and each word stays a word equal to the original up to letter case |
| Title.CasedJoin | app/api/chat/route.ts:35-42 | sentence-casing then joining is upper-casing the first character of the joined words and lower-casing the rest |
| Title.TitleOf | app/api/chat/route.ts:30-42 | the title is never empty, and it is "New Conversation" exactly when there are no words |
| Title.ConversationTitle | app/api/chat/route.ts:18-45 | `generateConversationTitle` never gives an empty title, and gives "New Conversation" exactly when no word remains after cleaning |
| Title.TitleKeepsFirstWords | app/api/chat/route.ts:27-42 | the title has 1 to 7 words: the first min(n, 7) words of the cleaned message, in order, equal up to letter case, joined by single spaces |
| Title.TitleIsSentenceCased | app/api/chat/route.ts:35-42 | the title's first character is the first word's first character upper-cased, and no later character is upper case |
| Prompt.SystemPrompt | app/api/chat/route.ts:183-204 | `deepseek-r1:7b` gets the reasoning prompt, `llama3.1:8b` the fast prompt, and every other model the fallback, each exactly for those ids |
| Prompt.PriorTurns | app/api/chat/route.ts:171-179 | the filtered history is no longer than the history; each kept entry comes from it and differs from the new message |
| Prompt.PriorTurnsMembership | app/api/chat/route.ts:173-178 | a stored turn is passed on exactly when its content differs from the trimmed message |
| Prompt.PriorTurnsAppend | app/api/chat/route.ts:173-178 | the filter distributes over concatenation, so kept turns stay in stored order |
| Prompt.PriorTurnsKeepsDistinct | app/api/chat/route.ts:173-178 | a history with no turn equal to the message is passed on whole |
| Prompt.PriorTurnsDropsNewMessage | app/api/chat/route.ts:172-174 | the user turn stored just before the history read is filtered out |
| Prompt.MessagesToSend | app/api/chat/route.ts:207-217 | reference definition of `messagesToSend`: system entry, filtered history (none when the read failed), user turn; `Prompt.MessagesToSendShape` and `ChatRoute.RelayedSent` state its properties |
| Prompt.MessagesToSendShape | app/api/chat/route.ts:207-217 | the array has the system entry, then the filtered history, then the user turn. Its length is 2 + the filtered history, and it has exactly 2 entries when the history read failed. No entry in between carries the message, and those entries are exactly the stored turns that differ from it |
| Relay.EndOf | app/api/chat/route.ts:322-330 | the client's stream errors exactly on a non-abort error; every other exit closes it |
| Relay.Lines | app/api/chat/route.ts:294 | every line kept from a chunk is non-blank and holds no line feed |
| Relay.NonBlankMembership | app/api/chat/route.ts:294 | a piece of a chunk is handled exactly when it is not blank |
| Relay.NonBlankAppend | app/api/chat/route.ts:294 | the blank-line filter distributes over concatenation |
| Relay.LinesAppend | app/api/chat/route.ts:294 | the lines on the two sides of a line feed are those of the two parts |
| Relay.LinesOfOneLine | app/api/chat/route.ts:294 | a chunk that is one non-blank line yields exactly that line |
| Relay.LinesStep | app/api/chat/route.ts:297-320 | reference definition of the `for` loop over one chunk's lines; `Relay.LinesStepWithoutDone`, `Relay.LinesStepStopsAtDone`, `Relay.LinesStepAppend` and `Relay.LinesStepForwardsFrames` state its properties, and `Relay.ForwardLines` is proved to compute it |
| Relay.Run | app/api/chat/route.ts:284-330 | reference definition of the read loop over reader events; `Relay.RunAppend`, `Relay.RunStopsAtExit`, `Relay.RunStopsAtReaderDone`, `Relay.RunForwardsFrames` and `Relay.SplitFrameIsLost` state its properties, and `Relay.Pump` is proved to compute it |
| Relay.Concat | app/api/chat/route.ts:304 | reference definition of `assistantText` after `+=` of each piece; `Relay.ConcatAppend` states it distributes over appending, and `Relay.Pump` keeps `assistantText` equal to it |
| Relay.Emitted | app/api/chat/route.ts:302-309 | a frame forwards nothing when its content is empty, and otherwise its content, once |
| Relay.ConcatAppend | app/api/chat/route.ts:304 | the accumulated text of two runs of pieces is the concatenation of their texts |
| Relay.ForwardLines | app/api/chat/route.ts:297-320 | the `for` loop appends exactly the batch of the lines to what was forwarded, reports its `done`, and keeps `assistantText` equal to all pieces forwarded |
| Relay.Pump | app/api/chat/route.ts:270-330 | the read loop forwards exactly the pieces of `Run`, stops for `Run`'s reason, and ends with `assistantText` equal to everything enqueued (enqueueing never fails in the model); the stream is closed or errored as `EndOf` says |
| Relay.LinesStepForwardsFrames | app/api/chat/route.ts:302-309 | every piece a chunk forwards is non-empty and is the content of a frame parsed from one of its lines |
| Relay.RunForwardsFrames | app/api/chat/route.ts:284-321 | nothing is invented: every piece the loop forwards is non-empty and is the content of a frame that arrived in some chunk |
| Relay.LinesStepWithoutDone | app/api/chat/route.ts:297-320 | without a `done` frame, every frame's non-empty content is forwarded once, in arrival order, and the batch is not done |
| Relay.LinesStepStopsAtDone | app/api/chat/route.ts:312-315 | the first `done` frame forwards its own content after all earlier ones and ends the batch; later lines are ignored |
| Relay.LinesStepAppend | app/api/chat/route.ts:297-320 | lines are handled one after another: the second part continues where the first left off, unless the first met `done` |
| Relay.RunStopsAtExit | app/api/chat/route.ts:312-330 | after a `done` frame, an abort or an error, no later event changes what is forwarded |
| Relay.RunStopsAtReaderDone | app/api/chat/route.ts:285-290 | the end of the body ends the loop: events after it are never read |
| Relay.RunAppend | app/api/chat/route.ts:284-321 | chunks are handled independently: after chunks without `done`, the loop continues with later events as if from the start, the earlier pieces first |
| Relay.RunOfOneLineChunk | app/api/chat/route.ts:293-320 | a chunk that is one line forwards that line's frame content; an unparsable line is skipped and the loop goes on |
| Relay.UnparsableChunksForwardNothing | app/api/chat/route.ts:316-319 | two chunks holding one unparsable line each forward nothing, and the loop goes on with what follows |
| Relay.OneFrameChunkForwardsContent | app/api/chat/route.ts:302-309 | a single-line chunk holding a frame forwards that frame's content |
| Relay.SplitFrameIsLost | app/api/chat/route.ts:293-294 | a frame split over two chunks forwards nothing, while the same text in one chunk forwards its content: lines are not buffered across reads |
| Store.Thread | app/api/chat/route.ts:165-169 | reference definition of the history query: the conversation's turns in stored order, no more of them than messages; `Store.ThreadAppend` and `ChatRoute.SentContextIsEarlierThread` state its properties |
| Store.HasTitle | app/api/chat/route.ts:114 | `Boolean(existingConversation?.title)`: the row exists and its title is not empty; `ChatRoute.ExistingTitleKept` and `ChatRoute.FailedLookupRetitles` use it |
| Store.WithConversation | app/api/chat/route.ts:84-91 | reference effect of the conversation insert; `Store.Store.CreateConversation` is proved to perform it and `ChatRoute.Resolved` states what it changes |
| Store.WithMessage | app/api/chat/route.ts:141-148 | reference effect of a message insert, appended last; `Store.Store.InsertMessage` is proved to perform it, and `Store.ThreadAppend` and `ChatRoute.MessagesOnlyGrow` state its properties |
| Store.WithTitle | app/api/chat/route.ts:353-356 | reference effect of the title update; `Store.Store.UpdateTitle` is proved to perform it and `Store.WithTitleChangesOnlyTitle` states what it changes |
| Store.ThreadAppend | app/api/chat/route.ts:165-169 | a message stored after the others comes last in its conversation's history and leaves every other history unchanged |
| Store.WithTitleChangesOnlyTitle | app/api/chat/route.ts:353-356 | the title update keeps every row and every message, changes no other conversation, and keeps the owner |
| Store.Store.CreateConversation | app/api/chat/route.ts:84-91 | the store gains an untitled conversation owned by the user under the new id |
| Store.Store.InsertMessage | app/api/chat/route.ts:141-148 | the message is appended after all stored messages |
| Store.Store.UpdateTitle | app/api/chat/route.ts:353-356 | the conversation with that id gets the title; an id that matches no row changes nothing |
| ChatRoute.IsOk | app/api/chat/route.ts:253 | `response.ok`: a status from 200 to 299 |
| ChatRoute.BodyStatus | app/api/chat/route.ts:257-266 | the statuses the `Response` constructor accepts together with a body: 200 to 599 except 204, 205 and 304 |
| ChatRoute.UpstreamErrorStatus | app/api/chat/route.ts:257-266 | the error status is the upstream's own status when the `Response` constructor accepts it with a body, and 500 otherwise (0 through the fallback to 500; 1xx, 304 and 600 and above because the constructor throws into the outer `catch`); it is always a status the constructor accepts |
| ChatRoute.ValidMessage | app/api/chat/route.ts:118-126 | a message is accepted exactly when it is a string that is not all white space; the accepted value is its trimmed, non-empty form |
| ChatRoute.ValidModel | app/api/chat/route.ts:129-137 | a model is refused exactly when it is present but not a string; an absent one is `llama3.1:8b` |
| ChatRoute.ResolvedId | app/api/chat/route.ts:79-104 | a conversation id is resolved exactly when the request names one or a new conversation was created; a named id is used as given, and a request naming none gets the created conversation's id |
| ChatRoute.Resolved | app/api/chat/route.ts:83-105 | a request naming a conversation leaves the store as it was; one naming none adds exactly one row, the user's untitled conversation under the new id; every other row and every message is untouched |
| ChatRoute.Handle | app/api/chat/route.ts:58-394 | reference definition of `POST` as a function of the collaborators' answers; `ChatRoute.HandleRelays`, `ChatRoute.HandleRefuses`, the status lemmas, `ChatRoute.StreamsExactlyWhenChecksPass` and `ChatRoute.MessagesOnlyGrow` state its properties, and `ChatRoute.Post` is proved to perform it |
| ChatRoute.Authorised | app/api/chat/route.ts:78-115 | reference definition of the request once the user is known: resolution or creation (500 when creation fails) and the title flag; `ChatRoute.StoreFailureStatuses` and `ChatRoute.InvalidRequestKeepsCreatedConversation` state its properties |
| ChatRoute.Validated | app/api/chat/route.ts:117-137 | reference definition of the message and model checks, each failing with 400; `ChatRoute.HandleRefuses` states its properties |
| ChatRoute.Relayed | app/api/chat/route.ts:139-217 | reference definition of the user-turn insert (500 when it fails), the history read and the prompt; `ChatRoute.RelayedSent`, `ChatRoute.RelayedStatus` and `ChatRoute.RelayedReply` state its properties, and `ChatRoute.RelayMessage` is proved to perform it |
| ChatRoute.Upstreamed | app/api/chat/route.ts:243-280 | reference definition of the dispatch on the upstream's answer: 499, 500, the error status, an empty stream when there is no body, or the stream; `ChatRoute.RelayedStatus` and `ChatRoute.UpstreamFailureStatuses` state its properties |
| ChatRoute.Streamed | app/api/chat/route.ts:273-364 | reference definition of the stream: `Run`'s pieces, the end `EndOf` gives, then `Persist` of their concatenation; `ChatRoute.RelayedReply` and `ChatRoute.ReplyStoredOnEveryExit` state its properties |
| ChatRoute.Persist | app/api/chat/route.ts:331-364 | reference definition of the `finally` block's store writes; `ChatRoute.PersistAppends`, `ChatRoute.PersistKeepsConversations`, `ChatRoute.PersistKeepsOtherConversations` and `ChatRoute.PersistTitlesUntitled` state its properties, and `ChatRoute.PersistReply` is proved to perform it |
| ChatRoute.HadTitle | app/api/chat/route.ts:107-115 | reference definition of `conversationHasTitle`: a named conversation whose title lookup succeeded and found a title; `ChatRoute.ExistingTitleKept` and `ChatRoute.FailedLookupRetitles` state its properties |
| ChatRoute.PassesChecks | app/api/chat/route.ts:61-159 | every check before the upstream call passes: body read, user, resolution, message, model and user-turn insert |
| ChatRoute.HandleRelays | app/api/chat/route.ts:58-159 | a request that passes every check reaches the upstream call with the resolved id, the title flag, the trimmed message and the model |
| ChatRoute.HandleRefuses | app/api/chat/route.ts:58-159 | a request failing a check gets 400, 401, 499 or 500, nothing is sent upstream, and the only store work left is a conversation created for it |
| ChatRoute.StoreFailureStatuses | app/api/chat/route.ts:83-158 | a conversation that cannot be created gives 500 whatever the message, and a user message that cannot be stored gives 500 |
| ChatRoute.UpstreamFailureStatuses | app/api/chat/route.ts:243-394 | past the checks, an aborted `fetch` gives 499, any other throw from it 500, and a non-2xx answer the upstream's status when it is from 300 to 599 and not 304, and 500 for any other |
| ChatRoute.RelayedStatus | app/api/chat/route.ts:243-267 | past the checks, the response streams exactly when the upstream answers 2xx; an aborted `fetch` gives 499, any other throw 500, and a non-2xx answer `UpstreamErrorStatus` of its status, never 0 or 2xx |
| ChatRoute.ErrorStatusIsNotOk | app/api/chat/route.ts:68-267 | every error response of `POST` has a status that is neither 0 nor 2xx |
| ChatRoute.StreamsExactlyWhenChecksPass | app/api/chat/route.ts:369-377 | the 200 stream comes back exactly when every check passes and the upstream answers 2xx; a prompt is sent exactly when every check passes |
| ChatRoute.NoStoreWorkBeforeAuth | app/api/chat/route.ts:61-76 | a body that cannot be read gives 499 or 500, and a missing user gives 401; either way the store is untouched and nothing is sent |
| ChatRoute.InvalidRequestKeepsCreatedConversation | app/api/chat/route.ts:83-137 | an invalid message or model gives 400 after resolution, so a conversation created for the request stays behind |
| ChatRoute.MessagesOnlyGrow | app/api/chat/route.ts:139-159 | stored messages are only ever appended to, and no conversation is removed |
| ChatRoute.RelayedSent | app/api/chat/route.ts:161-217 | the prompt is the system entry, the conversation's earlier turns without those equal to the message (none when the read fails or the id is empty), and the user turn |
| ChatRoute.SentContextIsEarlierThread | app/api/chat/route.ts:161-217 | for a named conversation, the prompt's context is its history as it stood before the request, minus the turns equal to the message, so the just-stored turn is never sent twice |
| ChatRoute.NewConversationSendsNoContext | app/api/chat/route.ts:161-180 | the first request of a new conversation sends only the system entry and the user turn |
| ChatRoute.UserTurnKeptOnUpstreamFailure | app/api/chat/route.ts:139-267 | the user's turn is stored before the upstream call, so it stays stored when the upstream fails or answers with an error |
| ChatRoute.PersistAppends | app/api/chat/route.ts:335-348 | the reply is appended untrimmed exactly when it has something besides white space and its insert succeeds |
| ChatRoute.PersistKeepsConversations | app/api/chat/route.ts:350-357 | the `finally` block removes no conversation and never changes one that had a title |
| ChatRoute.PersistKeepsOtherConversations | app/api/chat/route.ts:353-356 | the `finally` block changes no conversation but the request's own |
| ChatRoute.PersistTitlesUntitled | app/api/chat/route.ts:349-357 | for every input, the conversation changes only when the reply was stored, it had no title, the id is set and the title update succeeds; in that case its title becomes the non-empty title made from the message |
| ChatRoute.RelayedReply | app/api/chat/route.ts:331-348 | past the checks with a 2xx body, the stream carries the loop's pieces, and the last stored message is the reply exactly when it has something besides white space and its insert succeeds |
| ChatRoute.ReplyStoredOnEveryExit | app/api/chat/route.ts:331-348 | whichever way the loop ends (done frame, end of body, abort, error), the response carries the resolved id and the pieces forwarded, and the reply is stored exactly when it is not blank and its insert succeeds |
| ChatRoute.ExistingTitleKept | app/api/chat/route.ts:107-115 | a conversation whose title was read keeps it |
| ChatRoute.FailedLookupRetitles | app/api/chat/route.ts:108-114 | a failed title lookup counts as no title: a titled conversation is retitled from the message once a reply is stored |
| ChatRoute.PersistReply | app/api/chat/route.ts:331-364 | the `finally` block leaves the store as `Persist` describes |
| ChatRoute.Post | app/api/chat/route.ts:58-159 | `POST` answers, stores and sends exactly what `Handle` describes for the same collaborator answers |
| ChatRoute.RelayMessage | app/api/chat/route.ts:139-377 | from the user-message insert on, the method answers, stores and sends exactly what `Relayed` describes |
| UserDisplay.Truthy | lib/supabase/utils.ts:20 | a field is truthy, as the `or` chains test it, when it is a non-empty string |
| UserDisplay.IsAuthenticated | lib/supabase/utils.ts:12-14 | `user !== null`; `UserDisplay.FormatTellsSignedIn` states its relation to the formatted text |
| UserDisplay.UserEmail | lib/supabase/utils.ts:19-21 | the email when it is present and non-empty, "Unknown" otherwise (also with no user); never empty |
| UserDisplay.DisplayName | lib/supabase/utils.ts:26-28 | the full name if non-empty, else the email if non-empty, else "User"; never empty |
| UserDisplay.DisplayNameIsAField | lib/supabase/utils.ts:26-28 | the display name is the user's full name, the user's email, or "User" |
| UserDisplay.DisplayNameFallsBackToEmail | lib/supabase/utils.ts:26-28 | without a full name, the display name equals what `getUserEmail` returns for a user with an email |
| UserDisplay.EmailText | lib/supabase/utils.ts:35 | how the template prints `user.email`: the text, "undefined" when missing, "null" when `null`; `UserDisplay.FormatParts` states its place in the formatted text |
| UserDisplay.FormatUserDisplay | lib/supabase/utils.ts:33-36 | no user is shown as "Not signed in" |
| UserDisplay.FormatParts | lib/supabase/utils.ts:35 | a user is shown as the display name, " (", the email as the template prints it, and ")" |
| UserDisplay.FormatTellsSignedIn | lib/supabase/utils.ts:33-36 | the text is "Not signed in" exactly when `isAuthenticated` fails: a signed-in user's text always has an opening parenthesis |

## Left out

- Network, streaming and framework objects are not modelled: `fetch`, `ReadableStream`, `AbortController` and the abort-listener wiring. Each reader result is an event, either a decoded chunk, the end of the body, an abort or another error. The controller is modelled by the sequence of pieces enqueued and by how the stream ends.
- `TextDecoder` / `TextEncoder` are not modelled: chunks are given as already-decoded text, so multi-byte characters split across reads are not modelled.
- `JSON.parse` is an input function, `Env.parse`. It maps a line to a frame, or to nothing when the line does not parse. Frame content counts as present when it is a non-empty string. Non-string truthy content is not modelled.
- Request body: `JSON.parse` of the body is not modelled. The body arrives already parsed, aborted or failed (not JSON, or JSON `null`, whose destructuring throws); a JSON value that is not an object reads as a body whose fields are all missing. A falsy `conversationId` (absent, `null` or "") is the empty string. A non-string truthy `conversationId` is not modelled.
- Collaborator results are inputs. This covers the auth lookup, each store call's success, the title lookup and the history read.
  - Exceptions thrown by the store client are not modelled. Before the stream is returned, such a throw reaches the outer `catch` and gives 500. The two store calls of the `finally` block (route.ts:337-357) run in a detached async task whose own `catch` (route.ts:359-361) only logs: a throw there has the same effect as the failed insert or update the model has (`assistantInsertFails`, `titleUpdateFails`), after the 200 stream was already returned.
  - `ChatRoute.Post` requires a newly created conversation id to be non-empty and unused. That is a property of the database, not of the caller.
- The `finally` block is a fire-and-forget async task. The model runs it to completion, sequentially, before `POST` returns. Races with other requests, and the title update racing another session, are not modelled.
- Response and error bodies are not modelled: only statuses and the `X-Conversation-Id` header are. The JSON error texts, the other headers and the upstream `details` text are left out. So are the upstream URL, the payload's `model`/`stream` fields and the float sampling options (temperature, top_p, penalties), which have no behaviour to verify.
- Console logging is not modelled.
- Letter case is ASCII only: `toUpperCase`/`toLowerCase` of non-ASCII letters are not modelled. White space is the ECMAScript set that `trim()` and `\s` use.
- `user_metadata.full_name` and `email` are modelled as string fields that may be missing or `null`. A non-string truthy `full_name` is not modelled.
- Store.Thread: `.order('created_at')` is modelled as insertion order. Messages with equal timestamps, and an assistant reply of an earlier request whose detached insert lands after this request's user turn, are not modelled.
- `Store.Thread` is the history query. Its own contract states only a length bound; what it returns is stated by `Store.ThreadAppend` and the route lemmas that use it.
- Relay.Pump: a throw from `controller.enqueue` or `controller.close` (the runtime throws once the client has cancelled the stream) is not modelled. In the code the inner `catch` swallows it, so `assistantText` keeps growing without the piece being forwarded, and a `done` frame no longer ends the loop; the model assumes enqueueing always succeeds.
- ChatRoute.RelayedStatus: a throw from reading the upstream's error body (`ollamaResponse.text()`) is not modelled. In the code it reaches the outer `catch` and gives 499 or 500 instead of the upstream's status.
