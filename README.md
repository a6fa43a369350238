# agent0 chat core in Dafny

This project models the logic of the agent0 chat system in Dafny and proves
properties about it. The system has a Node server that streams an assistant's
reply to browsers over Server-Sent Events, and a React client that shows the
transcript as the tokens arrive. The model covers three pieces:

- **The server's subscriber registry and broadcaster** (`SSEService`). It keeps
  a map from topic (a conversation id, or the sentinel `"conversations"`) to
  the set of open event-stream responses. It attaches and detaches responses
  and writes one event-stream frame to every live subscriber. Responses that
  have ended, or whose write throws, are dropped in the same pass. The model is
  a class `Registry` over a `map<Topic, set<Client>>`. Each `Client` is an
  object with an "ended" flag, a "write throws" flag and the outbox of what was
  written to it.
- **The chat service** (`ChatService`), which covers:
  - appending to a conversation;
  - backward cursor pagination (sort by time, keep the messages before the
    cursor, take the newest `limit`, report `hasMore`, `nextCursor` and
    `total`);
  - conversation summaries and the list limit clamp;
  - the simulated streaming run. It splits the generated reply on single
    spaces, emits each piece followed by a space, persists the trimmed text,
    then emits `done`. On any failure it emits one `error` and rethrows.
- **The client session**, as two explicit state machines without React:
  - `useSSE`: the connection status `idle/connecting/open/closed/error`, the
    effect that opens one stream per conversation, its cleanup, `reconnect`
    and `disconnect`.
  - `useChat`: the transcript, the single in-progress assistant entry that
    tokens extend, the optimistic send with rollback, loading older pages
    with the cursor, the de-duplicated and capped list of new conversations,
    starting a new chat, switching conversations, and reading the
    conversation id from the path.

The modules, one per file:

| file | module | models |
|---|---|---|
| `text.dfy` | `Text` | JavaScript `split(" ")`, the join that inverts it, and `trim()` |
| `wire.dfy` | `Wire` | JSON string literals as `JSON.stringify` writes them, a reader for them, event-stream frames, and an event-stream interpreter following WHATWG HTML, "Server-sent events", section 9.2.6 "Interpreting an event stream" |
| `sse_service.dfy` | `SseService` | `agent-back/src/services/sse.service.ts` |
| `chat_service.dfy` | `ChatService` | `agent-back/src/services/chat.service.ts` |
| `sse_session.dfy` | `SseSession` | `agent-ui/src/hooks/useSSE.ts` |
| `chat_session.dfy` | `ChatSession` | `agent-ui/src/hooks/useChat.ts` |
| `sse_client.dfy` | `SseClient` | what the listeners of `openChatStream` in `agent-ui/src/api/sse.ts` hand to the handlers |

Modelling choices:

- Timestamps are integer milliseconds and the cursor is an `Option<int>`. The
  store is a `map` from conversation id to conversation.
- `uuid()` hands out client ids `Local(n)` from a counter, so they are fresh
  and distinct. Ids that come from the server are `Server(key)`.
- A request's outcome is a parameter:
  - the `postChat` and history requests settle as `Reply<T>`, either
    `Replied(value)` or `Failed(message)`;
  - a rejection inside the streaming run is a `Fault(step, error)`;
  - the clock reading of `new Date()` is `now`.
- React state updates are applied at once, in program order. Each handler is
  one sequential step.
- The `useSSE` hook's callbacks and the `useChat` handlers are separate
  methods. A scenario calls them in the order the events arrive.

Three behaviours of the code worth knowing:

- `getMessagesPage` only floors `limit` at 1. It has no upper cap: limits
  above 100 are refused by the request schema in the controller, before the
  service is called.
- There is no guard against a second concurrent run on the same conversation.
  Nothing is rejected with a conflict error.
- When the conversation is missing, the simulated run still emits all the
  tokens. The 404 comes from the final `addMessage`, and it is reported as an
  `error` event and rethrown.

## Model

| member | source | states |
|---|---|---|
| Text.SplitOnSpace | agent-back/src/services/chat.service.ts:166 | `split(" ")` always gives at least one piece, and no piece holds a space |
| Text.SplitWithoutSpace | agent-back/src/services/chat.service.ts:166 | a string without a space splits into itself alone |
| Text.SplitAtSpace | agent-back/src/services/chat.service.ts:166 | splitting `a + " " + c` gives the pieces of `a` followed by the pieces of `c` |
| Text.JoinSplit | agent-back/src/services/chat.service.ts:166 | joining the pieces of a split with single spaces gives the original string back |
| Text.SplitJoin | agent-back/src/services/chat.service.ts:166 | splitting a join of space-free pieces gives the pieces back |
| Text.TrimShape | agent-back/src/services/chat.service.ts:176 | `trim()` leaves no whitespace at either end, and the input is that result with whitespace-only text before and after it |
| Text.TrimFixpoint | agent-ui/src/hooks/useChat.ts:174 | a string is its own trim exactly when it has no whitespace at either end |
| Text.TrimIdempotent | agent-back/src/models/conversation.model.ts:24-28 | trimming text that is already trimmed changes nothing, so the schema's trim keeps the streamed reply's trimmed text as it is |
| Text.TrimAppendWhitespace | agent-back/src/services/chat.service.ts:170-176 | a trailing whitespace character does not change the trim |
| Wire.Escape | agent-back/src/services/sse.service.ts:59 | the body of a JSON string literal never holds a CR or LF, so a payload stays on one `data:` line |
| Wire.UnescapeEscape | agent-back/src/services/sse.service.ts:59 | reading the escaped text back gives the original string, for every string |
| Wire.JsonRoundTrip | agent-back/src/services/sse.service.ts:59 | `JSON.parse(JSON.stringify(s)) == s` for every string `s` |
| Wire.PayloadRoundTrip | agent-back/src/services/sse.service.ts:37-47 | the `{token}` and `{message}` payloads give back exactly their string, and no payload holds a line break |
| Wire.FeedFrame | agent-back/src/services/sse.service.ts:59 | an event-stream reader that reads one rendered frame dispatches exactly that frame's event (event name, or `message` when empty, and data); a comment frame dispatches nothing |
| Wire.FeedFrames | agent-back/src/services/sse.service.ts:59 | a stream of well-formed frames is read back as their events, in order |
| SseService.WithoutProperties | agent-back/src/services/sse.service.ts:28-35 | detaching touches only the given topic; a topic whose set becomes empty loses its entry, so no topic maps to an empty set; an unknown topic or an absent handle leaves the map unchanged |
| SseService.WithoutTwice | agent-back/src/services/sse.service.ts:28-35 | detaching two groups one after the other is detaching both at once |
| SseService.Registry.constructor | agent-back/src/services/sse.service.ts:6 | the registry starts empty |
| SseService.Registry.AddClient | agent-back/src/services/sse.service.ts:8-26 | a response that has already ended (setting its headers throws) or whose greeting write throws is not attached, and the map is unchanged; otherwise the greeting `: connected to t` is written first, then the client is in `t`'s set, which grows by one only if it was not there already, and other topics are unchanged |
| SseService.Registry.RemoveClient | agent-back/src/services/sse.service.ts:28-35 | the new map is the old one with the handle detached from `t` (see `WithoutProperties`) |
| SseService.Registry.Broadcast | agent-back/src/services/sse.service.ts:56-73 | every subscriber of `t` that has not ended and does not throw receives exactly one `event: E\ndata: P\n\n` frame; the others receive nothing and are detached; other topics are unchanged and nothing is thrown; a topic with no subscribers changes nothing |
| SseService.Registry.EmitToken | agent-back/src/services/sse.service.ts:37-39 | a broadcast of event `token` with payload `{token}` on the conversation's own topic |
| SseService.Registry.EmitDone | agent-back/src/services/sse.service.ts:41-43 | a broadcast of event `done` with payload `{"status":"completed"}` on the conversation's topic |
| SseService.Registry.EmitError | agent-back/src/services/sse.service.ts:45-47 | a broadcast of event `error` with payload `{message}` on the conversation's topic |
| SseService.Registry.EmitConversationCreated | agent-back/src/services/sse.service.ts:49-54 | a broadcast of event `conversation` on the `"conversations"` topic only |
| SseService.EmittedFramesReadBack | agent-back/src/services/sse.service.ts:37-47 | a browser that reads an emitted token, error or done frame receives exactly one event of that name, and its data gives back the token or message |
| SseService.GreetingDispatchesNothing | agent-back/src/services/sse.service.ts:13 | the greeting comment dispatches no event |
| ChatService.AddMessage | agent-back/src/services/chat.service.ts:49-71 | an unknown id is a 404 `Conversation not found` exactly; otherwise only that conversation changes: one message stamped `now`, holding the trimmed content (the message schema's `trim: true`, agent-back/src/models/conversation.model.ts:24-28), is appended and `updatedAt` is `now` |
| ChatService.InsertSorted | agent-back/src/services/chat.service.ts:87-90 | inserting into a time-sorted list keeps it sorted |
| ChatService.SortByTime | agent-back/src/services/chat.service.ts:87-90 | the result is in ascending time and is a permutation of the input |
| ChatService.SortSorted | agent-back/src/services/chat.service.ts:87-90 | a list already in time order is left exactly as it is |
| ChatService.SortStrict | agent-back/src/services/chat.service.ts:87-90 | with distinct times the sorted list is strictly increasing |
| ChatService.FilterBefore | agent-back/src/services/chat.service.ts:92-97 | a message is kept exactly when it is in the input and strictly older than `before` (all of them without `before`); order and multiplicity are stated by the two lemmas below |
| ChatService.FilterBeforeCounts | agent-back/src/services/chat.service.ts:92-97 | each eligible message is kept as often as it occurs in the input, and no other message is kept |
| ChatService.FilterBeforeConcat | agent-back/src/services/chat.service.ts:92-97 | filtering a concatenation is concatenating the filtered parts, so the kept messages keep their input order |
| ChatService.FilterSorted | agent-back/src/services/chat.service.ts:92-97 | filtering a sorted list keeps it sorted |
| ChatService.FilterIsPrefix | agent-back/src/services/chat.service.ts:92-97 | on a sorted list the filter keeps a prefix |
| ChatService.FilterAtIndex | agent-back/src/services/chat.service.ts:92-97 | on a strictly increasing list, filtering before the time of index `k` keeps exactly the first `k` messages |
| ChatService.FilterSort | agent-back/src/services/chat.service.ts:87-97 | sorting and then filtering keeps the same messages as filtering alone |
| ChatService.EffectiveLimit | agent-back/src/services/chat.service.ts:78 | the page size is `limit` when `limit >= 1`, and 1 otherwise |
| ChatService.GetMessagesPage | agent-back/src/services/chat.service.ts:73-114 | an unknown conversation is a 404 exactly; otherwise the result is its page |
| ChatService.PageIsNewest | agent-back/src/services/chat.service.ts:92-101 | the page and the messages it leaves behind are together exactly the messages before `before`; none left behind is newer than a page message; the page is in ascending time; `hasMore` holds exactly when some are left behind |
| ChatService.PageCounts | agent-back/src/services/chat.service.ts:78-113 | every page message is from the conversation and older than `before`; the page holds `min(max(1, limit), eligible)` messages; `hasMore` holds exactly when more than `max(1, limit)` are eligible; `nextCursor` is the time of the page's first message when `hasMore`, else none; `total` counts all the conversation's messages |
| ChatService.EmptyConversationPage | agent-back/src/services/chat.service.ts:99-113 | an empty conversation gives an empty page, no more, no cursor and total 0 |
| ChatService.TwoPagesOfThree | agent-back/src/services/chat.service.ts:99-105 | three messages with pages of two: the newest two with the middle one's time as cursor, then the oldest with no more |
| ChatService.PagingFrom | agent-back/src/services/chat.service.ts:92-105 | with distinct times, following `nextCursor` until `hasMore` is false returns every eligible message exactly once, oldest page first, in time order |
| ChatService.PagingCoversConversation | agent-back/src/services/chat.service.ts:92-105 | with distinct times, paging from the newest page reproduces the whole conversation in time order |
| ChatService.EqualTimesLoseAMessage | agent-back/src/services/chat.service.ts:92-105 | without distinct times the cursor skips messages: two messages with the same time and pages of one deliver only the second |
| ChatService.SummaryProperties | agent-back/src/services/chat.service.ts:194-210 | a summary counts the messages and shows the last one (the newest appended), or none exactly when there are none; after `addMessage` it counts one more, shows the message just added, with its content trimmed, and carries the new `updatedAt` |
| ChatService.ClampListLimit | agent-back/src/services/chat.service.ts:117 | the list limit is in [1, 100]: kept inside the range, 1 below it, 100 above it |
| ChatService.Summaries | agent-back/src/services/chat.service.ts:123-137 | one summary per conversation, in order |
| ChatService.ListConversations | agent-back/src/services/chat.service.ts:116-139 | the first `min(clamped limit, n)` conversations by recency, each summarised |
| ChatService.SimulatedTokens | agent-back/src/services/chat.service.ts:188-192 | the reply's pieces are the template's pieces followed by the pieces of the user's input |
| ChatService.TokenEvents | agent-back/src/services/chat.service.ts:169-172 | one token event per piece, the i-th carrying piece i followed by a space |
| ChatService.AssembledIsJoin | agent-back/src/services/chat.service.ts:167-171 | the accumulated text is the pieces joined by spaces, plus one trailing space |
| ChatService.PersistedText | agent-back/src/services/chat.service.ts:165-176 | the persisted text is the generated reply, trimmed |
| ChatService.StreamReply | agent-back/src/services/chat.service.ts:165-185 | on success: one token per piece in order, the trimmed reply appended as an assistant message (the stored conversation gains exactly that message), then `done` last, and the tokens put together trim to the reply; on failure: the tokens sent so far, then exactly one `error` with the thrown message ("Streaming failed" for a non-Error), nothing stored, and the error rethrown |
| ChatService.StreamAssistantResponse | agent-back/src/services/chat.service.ts:141-186 | the run above for `buildSimulatedResponse(userInput)`; it completes exactly when nothing rejects and the conversation exists |
| SseSession.Session.constructor | agent-ui/src/hooks/useSSE.ts:16-19 | `idle`, no error, key 0, no stream |
| SseSession.Session.CloseStream | agent-ui/src/hooks/useSSE.ts:39-42 | closing a stream makes it not live, and the `onClose` wrapper sets `closed` |
| SseSession.Session.AtMostOneLive | agent-ui/src/hooks/useSSE.ts:50-56 | at most one stream is live at any time |
| SseSession.Session.RunCleanup | agent-ui/src/hooks/useSSE.ts:52-55 | the cleanup closes the effect's stream (status `closed`) and drops the handle |
| SseSession.Session.RunEffect | agent-ui/src/hooks/useSSE.ts:21-50 | disabled (no id or `enabled === false`): `idle` and no stream; otherwise `connecting`, error cleared, one new stream for the conversation, and its handle kept |
| SseSession.Session.Render | agent-ui/src/hooks/useSSE.ts:21-56 | unchanged dependencies change nothing at all; changed ones close the previous stream and then run the effect; at most one stream stays live |
| SseSession.Session.OnOpen | agent-ui/src/hooks/useSSE.ts:35-38 | the live stream's `open` sets `open` |
| SseSession.Session.OnError | agent-ui/src/hooks/useSSE.ts:43-47 | the live stream's `error(m)` sets `error` and records `m` |
| SseSession.Session.Reconnect | agent-ui/src/hooks/useSSE.ts:58 | only the key goes up by one |
| SseSession.Session.Disconnect | agent-ui/src/hooks/useSSE.ts:60-66 | without a held stream nothing changes; otherwise the stream is closed, the handle dropped and the status is `closed` |
| SseSession.Session.Unmount | agent-ui/src/hooks/useSSE.ts:52-55 | unmounting leaves no stream live |
| ChatSession.StripLeadingSlashes | agent-ui/src/hooks/useChat.ts:35 | the result is a suffix of the input that does not start with `/`, and everything removed is a slash |
| ChatSession.StripTrailingSlashes | agent-ui/src/hooks/useChat.ts:35 | the result is a prefix of the input that does not end with `/`, and everything removed is a slash |
| ChatSession.GetConversationIdFromUrl | agent-ui/src/hooks/useChat.ts:33-37 | no window gives none; a path of slashes only (or empty) gives none; any other path gives the id left once its leading and trailing slashes are stripped, which is non-empty and neither starts nor ends with `/` |
| ChatSession.UrlRoundTrip | agent-ui/src/hooks/useChat.ts:33-43 | what `updateUrl` writes is read back: `/id` gives `id`, and `/` gives none |
| ChatSession.AppendToken | agent-ui/src/hooks/useChat.ts:133-139 | the length, order, ids, roles and times of the transcript are kept |
| ChatSession.AppendTokenAt | agent-ui/src/hooks/useChat.ts:133-139 | when exactly one entry has the id, the token extends exactly that entry |
| ChatSession.AppendTokenMissing | agent-ui/src/hooks/useChat.ts:133-139 | when no entry has the id, the transcript is unchanged |
| ChatSession.TokenForMarked | agent-ui/src/hooks/useChat.ts:133-139 | for a client id, the token extends the one entry with it, or is dropped when there is none |
| ChatSession.TokenStartsEntry | agent-ui/src/hooks/useChat.ts:127-139 | the first token fills the empty assistant entry just appended |
| ChatSession.RemoveById | agent-ui/src/hooks/useChat.ts:209-211 | no entry with the id is left, and the transcript does not grow |
| ChatSession.RemoveByIdKeepsOthers | agent-ui/src/hooks/useChat.ts:209-211 | every entry without the id is kept, as many times as it occurs; every entry with it is dropped |
| ChatSession.RemoveByIdConcat | agent-ui/src/hooks/useChat.ts:209-211 | filtering a concatenation concatenates the filtered parts, so the entries kept stay in their order |
| ChatSession.RemoveByIdOne | agent-ui/src/hooks/useChat.ts:209-211 | a single entry is dropped exactly when it has the id |
| ChatSession.RemoveAppended | agent-ui/src/hooks/useChat.ts:187-211 | the rollback removes exactly the optimistic entry |
| ChatSession.Normalize | agent-ui/src/hooks/useChat.ts:320-323 | the page in order, each message keeping its server id or getting its own fresh client id |
| ChatSession.OlderCursor | agent-ui/src/hooks/useChat.ts:306-309 | the stored cursor, else the first entry's time, else none |
| ChatSession.PrependConversationProperties | agent-ui/src/hooks/useChat.ts:276-280 | a known id leaves the list unchanged; otherwise the new conversation comes first, followed by the old list in order, cut to 50; the list never outgrows 50 and never lists an id twice |
| ChatSession.PrependFresh | agent-ui/src/hooks/useChat.ts:320-325 | a normalised page in front of the transcript keeps client ids distinct |
| ChatSession.Chat.constructor | agent-ui/src/hooks/useChat.ts:45-65 | the initial state, with the conversation id read from the path and history loading requested exactly when there is one; the embedded stream hook starts in its own initial state (`idle`, no error, key 0, no stream, no previous deps), so the first render runs its effect |
| ChatSession.Chat.EnsureAssistantMessage | agent-ui/src/hooks/useChat.ts:123-128 | with a marker set, nothing changes; otherwise exactly one empty assistant entry with a fresh id is appended and marked |
| ChatSession.Chat.HandleToken | agent-ui/src/hooks/useChat.ts:130-140 | streaming is on; without a marker, a new assistant entry holding the token is appended and marked, using one fresh id; with one, no id is used and only the marked entry grows by the token, or nothing changes when that entry is gone |
| ChatSession.Chat.HandleDone | agent-ui/src/hooks/useChat.ts:142-145 | streaming is off and the marker cleared, so the next token starts a new entry |
| ChatSession.Chat.HandleSseError | agent-ui/src/hooks/useChat.ts:147-151 | as `HandleDone`, and the message is recorded |
| ChatSession.Chat.HandleSseOpen | agent-ui/src/hooks/useChat.ts:153-155 | the stream error is cleared |
| ChatSession.Chat.Render | agent-ui/src/hooks/useChat.ts:157-167 | the stream follows the conversation and is enabled only once its history has loaded: with the same conversation, key and flag as the last effect run nothing changes; otherwise, with no conversation or while history loads, the hook is `idle` with no stream and no pending cleanup, and else exactly one new stream for the conversation is live and the hook is `connecting` with no error; at most one stream is live and the key is kept |
| ChatSession.Chat.SendMessage | agent-ui/src/hooks/useChat.ts:173-216 | blank input, or a send or reply in progress, changes nothing, the id counter included. Otherwise, on success: the trimmed user entry and an empty marked assistant entry are appended, two client ids are spent, and the conversation id is adopted if there was none. On failure: the transcript is exactly as before, the error is recorded, and the rolled-back entry's id stays spent. `sending` ends false |
| ChatSession.Chat.Send | agent-ui/src/hooks/useChat.ts:177-215 | the steps of `sendMessage` past its guard, with the same outcomes |
| ChatSession.Chat.Accepted | agent-ui/src/hooks/useChat.ts:190-206 | the answered id is adopted only when there is no conversation, and one empty assistant entry is appended and marked |
| ChatSession.Chat.AppendLocal | agent-ui/src/hooks/useChat.ts:181-187 | one entry with a fresh client id is appended |
| ChatSession.Chat.TakeBack | agent-ui/src/hooks/useChat.ts:208-211 | the entry just appended is removed and nothing else |
| ChatSession.Chat.StartNewChat | agent-ui/src/hooks/useChat.ts:218-233 | an empty session with no conversation, no marker, nothing loading, and the stream disconnected: no stream live, no handle, and status `closed` if a stream was held, else as before; no other stream state changes |
| ChatSession.Chat.SelectConversationAsWritten | agent-ui/src/hooks/useChat.ts:235-249 | an empty or current id changes nothing at all, in the session or its stream; otherwise the stream is disconnected as in `StartNewChat`, the transcript emptied, streaming and errors cleared, `hasMore` off, the cursor cleared, and history requested for the new id; the marker is left as it was |
| ChatSession.Chat.SelectConversation | agent-ui/src/hooks/useChat.ts:235-249 | as above, and the marker is cleared |
| ChatSession.Chat.LoadOlderMessages | agent-ui/src/hooks/useChat.ts:296-335 | with no conversation, a load in progress, history loading, nothing more to load or no cursor: returns 0, makes no request and changes nothing. Otherwise it always makes the request, before the stored cursor, else the first entry's time; on success the page goes in order in front of the transcript with one fresh id per entry lacking one, `hasMore` and the cursor come from the answer, the error is kept, and the page length is returned. A failure records the error, changes nothing else and returns 0 |
| ChatSession.Chat.OnConversationCreated | agent-ui/src/hooks/useChat.ts:269-281 | the list becomes the de-duplicated, capped prepend, which lists the new id and keeps at most 50 |
| ChatSession.SwitchBackDropsTokens | agent-ui/src/hooks/useChat.ts:235-249 | as written: a reply that streams, then a switch away and back, means the next token is shown nowhere |
| ChatSession.SwitchBackShowsTokens | agent-ui/src/hooks/useChat.ts:218-249 | with the marker cleared on a switch, the next token starts a new assistant entry holding it |
| SseClient.ErrorMessage | agent-ui/src/api/sse.ts:54-61 | the message handed to the error handler is never empty, and an event without data gives `Stream connection error` |
| SseClient.TokenReachesHandler | agent-ui/src/api/sse.ts:25-48 | the data of a `token` frame reaches the token handler as exactly the token |
| SseClient.ErrorShowsRawJson | agent-ui/src/api/sse.ts:25-61 | as written: the server's `error` event reaches the error handler as its raw JSON text, never as the message |
| SseClient.ParseDataFixed | agent-ui/src/api/sse.ts:25-36 | the corrected parse agrees with the one as written on every text without a `message` member |
| SseClient.ErrorMessageFixed | agent-ui/src/api/sse.ts:54-61 | with the corrected parse, the message is still never empty and an event without data still gives the fallback |
| SseClient.ErrorShowsMessage | agent-ui/src/api/sse.ts:25-61 | with the corrected parse, the server's `error` event reaches the error handler as its message (the fallback for an empty one) |

## Left out

- The HTTP headers, `flushHeaders` and the `close`/`error` listeners that `addClient` registers (agent-back/src/services/sse.service.ts:9-12, 19-25) are transport plumbing. Of the headers, only one effect is modelled: setting them throws on a response that has already ended. Those listeners only call `removeClient`, which is modelled.
- SseService.Registry.Broadcast: the iteration order over the set is left open. The contract does not depend on it.
- The `console.error` log in `broadcast`.
- `getConversation`'s 400 for an id that is not a valid ObjectId (agent-back/src/services/chat.service.ts:31-33). Ids are arbitrary strings here, and only the 404 is modelled.
- `ensureConversation` and the controller that calls the service: they are request handling, not core logic.
- Dates are integer milliseconds. The ISO-string conversion of dates, and the JSON text of a summary, are left out. `emitConversationCreated` takes the summary already serialised.
- The commented-out OpenAI streaming path is a foreign client. The 120 ms `delay` is timing: only its possible rejection is modelled, as a `Fault`.
- ChatService.SortByTime: stability, meaning that equal times keep their input order, holds by construction (insertion before the first message that is not older). It is not stated as a contract of its own.
- ChatService.ListConversations: the database query that orders conversations by `updatedAt` descending is not modelled. The function takes the conversations already in that order.
- ChatService.StreamReply: the 404 for a conversation that disappears during the run is the only failure of the final append that is modelled. Other storage errors are covered by the generic `Fault`.
- The history hydration effect of `useChat` (agent-ui/src/hooks/useChat.ts:67-121) is asynchronous loading and cancellation. Its transforms are modelled (`Normalize`, the cursor), but the effect itself is not.
- `refreshConversations`, `conversationsLoading`, and opening and closing the conversations stream (agent-ui/src/hooks/useChat.ts:251-294). They are requests and subscriptions. Only the `onConversation` list update is modelled.
- The `statusError` mirror effect (agent-ui/src/hooks/useChat.ts:169-171) is React bookkeeping.
- The `history.replaceState` side effect of `updateUrl`: only its round trip with `getConversationIdFromUrl` is stated. A missing `window` is a `None` path.
- SseClient.ParseData: `JSON.parse` is recognised only for a JSON string literal and for the one-member objects `{"key":"value"}` the server writes. For any other text the model returns the text unchanged, including an object that has a `token` member among others, where the source would return that member.
- The chat hooks receive the handlers' arguments directly: `ChatSession.Chat.HandleToken` and `HandleSseError` are not wired to `SseClient`. The `open`, `done` and connection-close listeners of the wrapper only forward their calls.
- The `payload.conversation` shape check in `onConversation`: the handler receives a summary.
- React batching, stale closures and interleaved promises: the handlers are sequential steps.
- ChatSession.Chat.LoadOlderMessages: the transient `loadingOlder = true` while the request is pending is not observable here, because the request settles within the call.
- ChatSession.SwitchBackDropsTokens: the history reload after switching back is not part of the scenario. The reloaded entries carry server ids or new client ids, so the stale marker still names no entry.

## Findings

| source | as written | input that shows it | evidently intended | confidence | as-written member | corrected member |
|---|---|---|---|---|---|---|
| agent-ui/src/api/sse.ts:25-61 | `parseData` extracts only a `token` member, so the `error` listener passes the server's `{"message":...}` payload on as raw JSON text, and `handleSseError` records that text | the server emits `error` with message `Conversation not found`: `sseError` becomes `{"message":"Conversation not found"}` | the error handler receives the message itself | medium; not executed | SseClient.ParseData, SseClient.ErrorShowsRawJson | SseClient.ParseDataFixed, SseClient.ErrorShowsMessage |
| agent-ui/src/hooks/useChat.ts:235-249 | `selectConversation` clears the transcript but not `streamingMessageId`, which `startNewChat` clears (line 223) | open conversation `a`, receive a token (the marker names the new entry), select `b`, select `a` again, receive the next token: the marked entry is gone, so `handleToken` drops the token and the reply stays invisible | switching conversations clears the marker, so the next token starts a new assistant entry | medium; not executed | ChatSession.Chat.SelectConversationAsWritten, ChatSession.SwitchBackDropsTokens | ChatSession.Chat.SelectConversation, ChatSession.SwitchBackShowsTokens |
