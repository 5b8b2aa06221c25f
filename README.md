# chatrelaybot: the relay core, modelled in Dafny

chatrelaybot is a Slack bot that passes user questions to an HTTP chat
backend and posts the backend's answer back to the channel. Its core is in
`main.go`:

- **`processMention`** takes an `app_mention` event. It removes every
  `<@BOTID>` token, trims white space, drops the event if nothing is left,
  and otherwise submits one task to the worker pool.
- **`processDirectMessage`** accepts a message only when it is in a
  one-to-one `im` channel, is not from a bot, and has non-empty text. It
  submits the raw, untrimmed text.
- **`processTask`** sends the JSON request `{user_id, query, channel_id}`.
  It makes up to three connection attempts. After failed attempt `i` it
  sleeps `i + 1` seconds, and this includes the third failure. If every
  attempt fails, it posts "Service unavailable, please try later". Otherwise
  it reads the reply in one of two ways:
  - a server-sent-event stream, when the Content-Type is exactly
    `text/event-stream`: each `data: ` line that decodes to a
    `message_part` record has its text posted;
  - otherwise one JSON document: its `full_response` is cut after every
    ". ", each piece is trimmed, and the non-empty pieces are posted.

  Every post of a reply is followed by a 500 ms pause; the fallback notice
  is not.

The model has six modules:

- **`Wrappers`**: an `Option` type.
- **`GoStrings`**: the Go `strings` functions the core calls
  (`TrimSpace`, `ReplaceAll`, `SplitAfter`, `HasPrefix`, `TrimPrefix`,
  and the `Index` they rely on). Each comes with the lemma that inverts or
  characterises it.
- **`Events`**: the records and event acceptance.
- **`Backend`**: the retry loop and the Content-Type switch. The network
  is a `Dialer`, a function that gives the outcome of each numbered
  attempt. Sleeps are recorded as the list of delays, in seconds.
- **`Normalize`**: which texts a stream or a document yields. JSON
  decoding is an abstract `Decoder`.
- **`Relay`**:
  - the Slack client, as a class whose `posts` field records what was
    posted;
  - the two imperative relay loops and `ProcessTask`, each proved against
    the specification functions of `Normalize`;
  - the end-to-end properties.

## Model

| member | source | states |
|---|---|---|
| GoStrings.TrimSpace | main.go:172 | the result has no white space at either end |
| GoStrings.TrimSpaceInfix | main.go:172 | TrimSpace removes only white space, and only from the two ends: the input is leading blanks, then the result, then trailing blanks |
| GoStrings.TrimSpaceEmptyIff | main.go:173 | the trimmed text is empty exactly when the input is all white space (the condition on which a mention is dropped) |
| GoStrings.TrimSpaceOf | main.go:247 | blanks around a trimmed core trim back to exactly that core |
| GoStrings.TrimSpaceIdempotent | main.go:172 | trimmed text is unchanged by TrimSpace, so trimming twice equals trimming once |
| GoStrings.TrimPrefix | main.go:233 | with the prefix present, the prefix plus the result gives back the line; without it, the line is unchanged |
| GoStrings.Index | main.go:172 | -1 exactly when the pattern does not occur; otherwise the position of the leftmost occurrence |
| GoStrings.IndexIs | main.go:172 | any leftmost occurrence is the one Index finds |
| GoStrings.ReplaceAllAt | main.go:172 | replacement works left to right: the first occurrence is replaced and the rest of the text is processed in turn |
| GoStrings.ReplaceAllJoin | main.go:172 | on text made of token-free pieces joined by the token, ReplaceAll gives the same pieces joined by the replacement, so every occurrence is replaced |
| GoStrings.SplitAfter | main.go:245 | the pieces concatenate back to the input; every piece but the last ends at the first separator it contains; the last piece contains none |
| GoStrings.SplitAfterConcat | main.go:245 | the inverse direction: pieces of that shape, once concatenated, split back into themselves |
| Events.MentionToken | main.go:172 | a mention token is "<@", the bot ID, then ">" |
| Events.CleanQuery | main.go:172 | the cleaned query is always trimmed |
| Events.ProcessMention | main.go:172-188 | a task is submitted exactly when the cleaned query is non-empty; the task carries the event itself and that non-empty, trimmed query |
| Events.ProcessDirectMessage | main.go:341-362 | a task is submitted exactly when there is no bot ID, the text is non-empty and the channel type is "im"; the query is the raw text, and the event keeps only the user, the channel and the text |
| Events.RequestFor | main.go:195-199 | the request carries the event's user and channel and the task's query |
| Events.CleanQueryRemovesEveryMention | main.go:172 | mentions are removed wherever they stand: text with mention tokens between mention-free pieces cleans to the pieces concatenated and trimmed |
| Events.CleanLeadingMention | main.go:172 | a leading mention followed by text without '<' cleans to that text, trimmed |
| Events.NestedMentionSurvives | main.go:172 | ReplaceAll makes a single pass, so a mention split by another mention of the same bot comes back together and stays in the query |
| Events.BlankMentionDropped | main_test.go:88-105 | the mention "<@B456>   " is dropped |
| Events.QuestionMentionSubmitted | main_test.go:61-86 | the mention "<@B456>   What is Go?" is submitted with the query "What is Go?" |
| Events.BlankDirectMessageAccepted | main.go:341-347 | a direct message made only of white space is still accepted, and its query is not trimmed |
| Events.DirectMessageTests | main_test.go:169-226 | a plain direct message is accepted as the expected task; the same message from a bot, or in a non-"im" channel, is not |
| Backend.Backoff | main.go:211 | after failed attempt i the relay waits i + 1 seconds |
| Backend.ConnectFrom | main.go:204-212 | from attempt k on: stops at the first attempt that connects and returns its reply; otherwise all three attempts are used, each failure followed by its wait |
| Backend.Connect | main.go:204-212 | one to three attempts; every attempt before the last failed; success exactly when the last attempt connected, with that attempt's reply; failure means three attempts and all three waits |
| Backend.CallBackend | main.go:204-212 | the step-by-step retry loop computes exactly Connect |
| Backend.ConnectSucceedsIff | main.go:204-214 | the call fails exactly when all three attempts fail to connect |
| Backend.FirstAttemptConnects | main.go:207-210 | a first-attempt connection makes one attempt and does not sleep |
| Backend.FullFailureBackoff | main.go:204-212 | total failure sleeps 1, 2 and 3 seconds, six in all, the wait after the last attempt included |
| Backend.Route | main.go:222-242 | a reply is read as a stream exactly when its Content-Type is the exact string "text/event-stream" |
| Backend.RouteWithParameters | main.go:222 | "text/event-stream; charset=utf-8" and a missing header both take the document path |
| Normalize.LineText | main.go:230-237 | a line yields a text exactly when it starts with "data: ", its payload decodes, and the record's event is "message_part"; the text is then the record's text_chunk |
| Normalize.StreamTexts | main.go:225-241 | a stream yields at most one text per line |
| Normalize.StreamTextsAppend | main.go:225-241 | each line is handled independently: the texts of two stretches of lines are the two lists laid end to end |
| Normalize.SkippedLineNeutral | main.go:231-239 | a line that yields nothing (no prefix, bad JSON, another event) changes nothing |
| Normalize.StreamTextsFromLines | main.go:225-241 | a text is posted exactly when some line of the stream yields it |
| Normalize.DataLineText | main.go:231-234 | a "data: " line yields its payload's text exactly when the payload decodes to a message_part record |
| Normalize.StreamTestExample | main_test.go:134-165 | the test stream gives "part1" and "part2", and its stream_end record posts nothing |
| Normalize.KeepChunk | main.go:247-248 | a piece is kept exactly when it is not all white space; the kept chunk is non-empty, trimmed, and is the piece with only its leading and trailing white space cut off |
| Normalize.FlatMapAppend | main.go:246 | the pieces are handled one at a time and in order |
| Normalize.TrimmedNonEmptyPostable | main.go:246-251 | every posted chunk is non-empty and trimmed, and there are no more chunks than pieces |
| Normalize.DocumentTexts | main.go:243-244 | a body that does not decode posts nothing |
| Normalize.SplitAfterFirst | main.go:245 | a piece that ends at its first ". " is split off as it is |
| Normalize.KeepSentence | main.go:247-248 | a sentence followed by its separator blank is posted without the blank |
| Normalize.ChunksOfJoinedSentences | main.go:245-252 | a reply made of sentences joined by single blanks, each sentence ending in "." and holding no ". ", posts exactly those sentences, in order |
| Normalize.DocumentTestExample | main_test.go:109-132 | "Sentence one. Sentence two." posts "Sentence one." and then "Sentence two." |
| Relay.SlackClient.constructor | main.go:114-116 | a new client has posted nothing |
| Relay.SlackClient.PostMessage | main.go:114-116 | a post appends one message, for that channel and with that text, to what the client has posted |
| Relay.PostsTo | main.go:249 | one post per text, in order, each to the given channel |
| Relay.PostsToAppend | main.go:246-252 | posting two lists of texts in turn equals posting them together |
| Relay.RelayStream | main.go:224-241 | the stream loop posts exactly StreamTexts, in order, to the event's channel, and pauses once per post |
| Relay.RelayPieces | main.go:246-252 | the chunk loop posts exactly the trimmed non-empty pieces, in order, and pauses once per post |
| Relay.RelayDocument | main.go:243-253 | the document path posts exactly DocumentTexts, in order, and pauses once per post |
| Relay.ProcessTask | main.go:191-255 | processTask posts exactly TaskPosts; its sleeps are the backoff of the retry loop, then one pause per post of a reply (none for the fallback message) |
| Relay.TaskPostsToOwnChannel | main.go:217 | every message a task posts goes to the channel of its event |
| Relay.UnavailableIffAllAttemptsFail | main.go:214-218 | the fallback is taken exactly when all three attempts fail, and then the only post is "Service unavailable, please try later" |
| Relay.StatusNotInspected | main.go:220-222 | the HTTP status is never read: a 500 reply is relayed like a 200 |
| Relay.DocumentRepliesPostable | main.go:242-253 | on the document path every post is non-empty and trimmed; an undecodable body posts nothing |
| Relay.StreamRepliesFollowLines | main.go:223-241 | on the stream path there are at most as many posts as lines, and a text is posted exactly when some line yields it |
| Relay.MentionRepliesReturn | main.go:186-199 | an accepted mention sends its user, cleaned query and channel, and every reply goes back to the mention's channel |
| Relay.DirectMessageRepliesReturn | main.go:357-362 | an accepted direct message sends its user, raw text and channel, and every reply goes back to its channel |

## Left out

- WorkerPool: the bounded pool of goroutines is not modelled, because
  concurrency is out of scope. Submitting a task is modelled as returning
  it, and the queue capacity, twice the number of workers, is kept as the
  constant `Events.QueueCapacity`.
- The Slack socket-mode loop and `main`, which dispatch events and
  acknowledge them, are I/O.
- OpenTelemetry spans and `logWithTrace` are not modelled. They have no
  effect on what is posted.
- `mockBackend`, the test backend, is not modelled.
- Sleeps are not modelled as time. They are recorded as the list of backoff
  delays in seconds and as a count of 500 ms pauses.
- Cancellation through `ctx.Done()` inside the stream loop is not modelled.
  The model reads the whole stream.
- JSON encoding and decoding are not modelled:
  - Decoding is an abstract `Decoder` parameter.
  - A reply body is given both as the lines a line scanner yields and as
    the result of decoding it as one document.
  - The scanner's line-length limit and the HTTP, header and body-close
    handling are not modelled.
  - The `Accept: text/event-stream` request header has no effect on what
    is posted, so it is not modelled.
- PostMessage errors are ignored by the code. The model's client never
  fails.
- Strings are sequences of code points, not UTF-8 bytes. `GoStrings.IsSpace`
  lists the Unicode white-space code points that Go's `unicode.IsSpace`
  accepts.
- GoStrings.ReplaceAll and GoStrings.SplitAfter require a non-empty
  separator. Go gives an empty separator a special meaning, but the core
  only ever uses "<@BOTID>" and ". ", which are never empty.
- Behaviour the code does not have is not modelled. Each point below
  describes the code as written:
  - The stream loop does not stop at a `stream_end` record. It reads until
    the body ends.
  - A reply with an error status takes the same path as a successful
    one; no non-2xx status is rejected.
  - The wait after a failure includes a 3-second sleep after the third and
    last attempt.
  - A mention is not dropped for lacking a bot ID. The token "<@>" is
    removed as any other would be.
  - `Submit` after `Shutdown` is not guarded: it sends on the closed
    channel, which panics. No error is returned to the caller.
