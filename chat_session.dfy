/** The client's chat session (the `useChat` hook), without React: the
    transcript, the in-progress assistant entry that tokens extend, the
    optimistic send with rollback, backward loading of older pages, the
    conversation list fed by creation events, and conversation switching. */
module ChatSession {
  import opened Text
  import CS = ChatService
  import SseSession

  /** A message id: one made by `uuid()` on the client, or the server's. */
  datatype MessageId = Local(n: nat) | Server(key: string)

  /** A transcript entry; `createdAt` is absent for entries made on the client
      for the assistant. */
  datatype UiMessage = UiMessage(id: MessageId, role: CS.Role, content: string, createdAt: Option<int>)

  /** A message of a history page as the server sends it; `""` stands for a missing id. */
  datatype FetchedMessage = FetchedMessage(id: string, role: CS.Role, content: string, createdAt: Option<int>)

  datatype HistoryPage = HistoryPage(messages: seq<FetchedMessage>, hasMore: bool, nextCursor: Option<int>)

  /** How a request's promise settled: its value, or the message of the error thrown. */
  datatype Reply<T> = Replied(value: T) | Failed(message: string)

  /** The number of conversations the list keeps. */
  const ListCap: nat := 50

  /** JavaScript truthiness of a `string | null`. */
  predicate Truthy(s: Option<string>) {
    s.Some? && s.value != ""
  }

  // ---------------------------------------------------------------------
  // The conversation id in the address bar

  /** The `^\/+` half of the path's `replace`: everything before the result is a slash. */
  function StripLeadingSlashes(s: string): (r: string)
    ensures r == [] || r[0] != '/'
    ensures |r| <= |s| && r == s[|s| - |r|..]
    ensures forall i :: 0 <= i < |s| - |r| ==> s[i] == '/'
  {
    if s != [] && s[0] == '/' then StripLeadingSlashes(s[1..]) else s
  }

  /** The `\/+$` half of the path's `replace`: everything after the result is a slash. */
  function StripTrailingSlashes(s: string): (r: string)
    ensures r == [] || r[|r| - 1] != '/'
    ensures |r| <= |s| && r == s[..|r|]
    ensures forall i :: |r| <= i < |s| ==> s[i] == '/'
  {
    if s != [] && s[|s| - 1] == '/' then StripTrailingSlashes(s[..|s| - 1]) else s
  }

  /** `getConversationIdFromUrl`: the path without its leading and trailing
      slashes, or `None` when nothing is left or there is no window. The id
      found never starts or ends with a slash. */
  function GetConversationIdFromUrl(pathname: Option<string>): (r: Option<string>)
    ensures r.Some? ==> r.value != [] && r.value[0] != '/' && r.value[|r.value| - 1] != '/'
    ensures pathname.None? ==> r.None?
    ensures r.Some? ==> r.value == StripTrailingSlashes(StripLeadingSlashes(pathname.value))
    ensures pathname.Some? && r.None? ==> forall i :: 0 <= i < |pathname.value| ==> pathname.value[i] == '/'
  {
    match pathname
    case None => None
    case Some(p) =>
      var path := StripTrailingSlashes(StripLeadingSlashes(p));
      if path == [] then
        AllSlashes(p);
        None
      else
        NoSlashAtEnds(p);
        Some(path)
  }

  /** A path that strips to something neither starts nor ends with a slash. */
  lemma NoSlashAtEnds(p: string)
    requires StripTrailingSlashes(StripLeadingSlashes(p)) != []
    ensures var path := StripTrailingSlashes(StripLeadingSlashes(p));
      path[0] != '/' && path[|path| - 1] != '/'
  {
    var l := StripLeadingSlashes(p);
    var path := StripTrailingSlashes(l);
    assert path == l[..|path|];
    assert path[0] == l[0];
  }

  /** A path that strips to nothing is slashes only. */
  lemma {:induction false} AllSlashes(p: string)
    requires StripTrailingSlashes(StripLeadingSlashes(p)) == []
    ensures forall i :: 0 <= i < |p| ==> p[i] == '/'
    decreases |p|
  {
    if p != [] && p[0] == '/' {
      AllSlashes(p[1..]);
      forall i | 1 <= i < |p|
        ensures p[i] == '/'
      {
        assert p[i] == p[1..][i - 1];
      }
    }
  }

  /** What `updateUrl` writes is read back: `"/" + id` gives `id`, and `"/"`
      (written for no conversation) gives none. */
  lemma UrlRoundTrip(id: string)
    requires id != [] && id[0] != '/' && id[|id| - 1] != '/'
    ensures GetConversationIdFromUrl(Some("/" + id)) == Some(id)
    ensures GetConversationIdFromUrl(Some("/")) == None
  {
    assert ("/" + id)[1..] == id;
    assert StripLeadingSlashes("/" + id) == id;
    assert StripLeadingSlashes("/") == StripLeadingSlashes("");
  }

  // ---------------------------------------------------------------------
  // Transcript transforms

  /** The update `handleToken` maps over the transcript: the entry with id
      `id` gets `token` appended. Ids, roles, times and order are kept. */
  function AppendToken(messages: seq<UiMessage>, id: MessageId, token: string): (r: seq<UiMessage>)
    ensures |r| == |messages|
    ensures forall i :: 0 <= i < |r| ==>
      r[i].id == messages[i].id && r[i].role == messages[i].role && r[i].createdAt == messages[i].createdAt
  {
    if messages == [] then []
    else
      var m := messages[0];
      [if m.id == id then m.(content := m.content + token) else m] + AppendToken(messages[1..], id, token)
  }

  /** When exactly one entry has the id, the token extends that entry and
      nothing else changes. */
  lemma {:induction false} AppendTokenAt(messages: seq<UiMessage>, k: nat, token: string)
    requires k < |messages|
    requires forall i :: 0 <= i < |messages| && i != k ==> messages[i].id != messages[k].id
    ensures AppendToken(messages, messages[k].id, token)
         == messages[k := messages[k].(content := messages[k].content + token)]
  {
    if k == 0 {
      AppendTokenMissing(messages[1..], messages[0].id, token);
    } else {
      AppendTokenAt(messages[1..], k - 1, token);
    }
  }

  /** When no entry has the id, the token is dropped. */
  lemma {:induction false} AppendTokenMissing(messages: seq<UiMessage>, id: MessageId, token: string)
    requires forall i :: 0 <= i < |messages| ==> messages[i].id != id
    ensures AppendToken(messages, id, token) == messages
  {
    if messages != [] {
      AppendTokenMissing(messages[1..], id, token);
    }
  }

  /** The rollback filter of `sendMessage`: no entry with `id` is left. */
  function RemoveById(messages: seq<UiMessage>, id: MessageId): (r: seq<UiMessage>)
    ensures |r| <= |messages|
    ensures forall i :: 0 <= i < |r| ==> r[i].id != id
  {
    if messages == [] then []
    else (if messages[0].id == id then [] else [messages[0]]) + RemoveById(messages[1..], id)
  }

  /** The filter keeps every entry without the id, as often as it occurs. */
  lemma {:induction false} RemoveByIdKeepsOthers(messages: seq<UiMessage>, id: MessageId)
    ensures forall x :: multiset(RemoveById(messages, id))[x] == if x.id == id then 0 else multiset(messages)[x]
  {
    if messages != [] {
      RemoveByIdKeepsOthers(messages[1..], id);
      assert messages == [messages[0]] + messages[1..];
    }
  }

  /** The filter works entry by entry: filtering a concatenation is
      concatenating the filtered parts, so the kept entries keep their order. */
  lemma {:induction false} RemoveByIdConcat(a: seq<UiMessage>, b: seq<UiMessage>, id: MessageId)
    ensures RemoveById(a + b, id) == RemoveById(a, id) + RemoveById(b, id)
  {
    if a == [] {
      assert [] + b == b;
    } else {
      var head := if a[0].id == id then [] else [a[0]];
      assert (a + b)[0] == a[0] && (a + b)[1..] == a[1..] + b;
      RemoveByIdConcat(a[1..], b, id);
      assert RemoveById(a + b, id) == head + (RemoveById(a[1..], id) + RemoveById(b, id));
      CS.SeqAssoc(head, RemoveById(a[1..], id), RemoveById(b, id));
    }
  }

  /** One entry is dropped exactly when it has the id. */
  lemma RemoveByIdOne(x: UiMessage, id: MessageId)
    ensures RemoveById([x], id) == if x.id == id then [] else [x]
  {
    assert [x][1..] == [];
  }

  /** Rolling back an optimistic append removes exactly the appended entry. */
  lemma {:induction false} RemoveAppended(prev: seq<UiMessage>, m: UiMessage)
    requires forall i :: 0 <= i < |prev| ==> prev[i].id != m.id
    ensures RemoveById(prev + [m], m.id) == prev
  {
    if prev == [] {
      assert RemoveById([m], m.id) == [] + RemoveById([m][1..], m.id);
      assert [m][1..] == [];
    } else {
      var s := prev + [m];
      assert s[0] == prev[0] && s[1..] == prev[1..] + [m];
      RemoveAppended(prev[1..], m);
      assert RemoveById(s, m.id) == [prev[0]] + prev[1..];
      assert prev == [prev[0]] + prev[1..];
    }
  }

  function NormalizeOne(f: FetchedMessage, nextId: nat): (r: UiMessage) {
    UiMessage(if f.id == "" then Local(nextId) else Server(f.id), f.role, f.content, f.createdAt)
  }

  /** `messages.map(msg => ({...msg, id: msg.id || uuid()}))`, with `next`
      the first unused client id: the page in order, each message keeping
      its server id or, lacking one, getting a client id of its own. */
  function Normalize(fetched: seq<FetchedMessage>, next: nat): (r: seq<UiMessage>)
    ensures |r| == |fetched|
    ensures forall i :: 0 <= i < |r| ==>
      && r[i].role == fetched[i].role && r[i].content == fetched[i].content
      && r[i].createdAt == fetched[i].createdAt
      && r[i].id == (if fetched[i].id == "" then Local(next + i) else Server(fetched[i].id))
  {
    if fetched == [] then [] else [NormalizeOne(fetched[0], next)] + Normalize(fetched[1..], next + 1)
  }

  /** The cursor `loadOlderMessages` asks with: the stored cursor, else the
      first entry's time, else none. */
  function OlderCursor(oldestCursor: Option<int>, messages: seq<UiMessage>): (r: Option<int>)
    ensures oldestCursor.Some? ==> r == oldestCursor
    ensures oldestCursor.None? && messages != [] ==> r == messages[0].createdAt
    ensures oldestCursor.None? && messages == [] ==> r == None
  {
    if oldestCursor.Some? then oldestCursor
    else if messages != [] then messages[0].createdAt
    else None
  }

  // ---------------------------------------------------------------------
  // The conversation list

  predicate HasId(list: seq<CS.Summary>, id: string) {
    exists i :: 0 <= i < |list| && list[i].id == id
  }

  predicate DistinctIds(list: seq<CS.Summary>) {
    forall i, j :: 0 <= i < j < |list| ==> list[i].id != list[j].id
  }

  /** The update on a created-conversation event: a known id leaves the
      list alone; otherwise the conversation goes first and the list is cut
      to `ListCap`. */
  function PrependConversation(list: seq<CS.Summary>, conv: CS.Summary): (r: seq<CS.Summary>) {
    if HasId(list, conv.id) then list
    else ([conv] + list)[..CS.Min(ListCap, |list| + 1)]
  }

  /** A created conversation is listed once, first, ahead of the newest
      `ListCap - 1` it already had; the list never outgrows `ListCap` and
      never lists an id twice. */
  lemma PrependConversationProperties(list: seq<CS.Summary>, conv: CS.Summary)
    ensures HasId(list, conv.id) ==> PrependConversation(list, conv) == list
    ensures !HasId(list, conv.id) ==>
      var r := PrependConversation(list, conv);
      && |r| == CS.Min(ListCap, |list| + 1)
      && r[0] == conv
      && r[1..] == list[..|r| - 1]
    ensures |list| <= ListCap ==> |PrependConversation(list, conv)| <= ListCap
    ensures DistinctIds(list) ==> DistinctIds(PrependConversation(list, conv))
  {
    if !HasId(list, conv.id) {
      var r := PrependConversation(list, conv);
      assert r[1..] == list[..|r| - 1];
      if DistinctIds(list) {
        forall i, j | 0 <= i < j < |r| ensures r[i].id != r[j].id {
          if i == 0 {
            assert r[j] == list[j - 1];
          } else {
            assert r[i] == list[i - 1] && r[j] == list[j - 1];
          }
        }
      }
    }
  }

  // ---------------------------------------------------------------------
  // The session

  predicate LocalIdsBelow(ms: seq<UiMessage>, bound: nat) {
    forall i :: 0 <= i < |ms| && ms[i].id.Local? ==> ms[i].id.n < bound
  }

  predicate LocalIdsDistinct(ms: seq<UiMessage>) {
    forall i, j :: 0 <= i < j < |ms| && ms[i].id.Local? ==> ms[i].id != ms[j].id
  }

  /** A page of fresh client ids in front of a transcript keeps client ids
      distinct and below the new bound. */
  lemma PrependFresh(page: seq<UiMessage>, ms: seq<UiMessage>, next: nat, count: nat)
    requires LocalIdsBelow(ms, next) && LocalIdsDistinct(ms)
    requires |page| == count
    requires forall i :: 0 <= i < |page| && page[i].id.Local? ==> page[i].id == Local(next + i)
    ensures LocalIdsBelow(page + ms, next + count) && LocalIdsDistinct(page + ms)
  {
    var r := page + ms;
    forall i, j | 0 <= i < j < |r| && r[i].id.Local? ensures r[i].id != r[j].id {
      if j < |page| {
        assert r[i] == page[i] && r[j] == page[j];
      } else if i < |page| {
        assert r[j] == ms[j - |page|];
      } else {
        assert r[i] == ms[i - |page|] && r[j] == ms[j - |page|];
      }
    }
  }

  /** A token for an entry with a client id extends that entry when it is
      in the transcript and is dropped when it is not. */
  lemma TokenForMarked(ms: seq<UiMessage>, id: MessageId, token: string)
    requires LocalIdsDistinct(ms) && id.Local?
    ensures forall k :: 0 <= k < |ms| && ms[k].id == id ==>
      AppendToken(ms, id, token) == ms[k := ms[k].(content := ms[k].content + token)]
    ensures (forall i :: 0 <= i < |ms| ==> ms[i].id != id) ==> AppendToken(ms, id, token) == ms
  {
    forall k | 0 <= k < |ms| && ms[k].id == id
      ensures AppendToken(ms, id, token) == ms[k := ms[k].(content := ms[k].content + token)]
    {
      AppendTokenAt(ms, k, token);
    }
    if forall i :: 0 <= i < |ms| ==> ms[i].id != id {
      AppendTokenMissing(ms, id, token);
    }
  }

  /** The first token of a reply fills the empty entry just created for it. */
  lemma TokenStartsEntry(before: seq<UiMessage>, id: MessageId, token: string)
    requires id.Local? && LocalIdsDistinct(before + [UiMessage(id, CS.Assistant, "", None)])
    ensures AppendToken(before + [UiMessage(id, CS.Assistant, "", None)], id, token)
         == before + [UiMessage(id, CS.Assistant, token, None)]
  {
    var ms := before + [UiMessage(id, CS.Assistant, "", None)];
    AppendTokenAt(ms, |before|, token);
    assert "" + token == token;
    assert ms[|before| := ms[|before|].(content := "" + token)] == before + [UiMessage(id, CS.Assistant, token, None)];
  }

  class Chat {
    var conversationId: Option<string>
    var hydrateHistory: bool
    var messages: seq<UiMessage>
    var sending: bool
    var isStreaming: bool
    var error: Option<string>
    var sseError: Option<string>
    var historyLoading: bool
    var hasMore: bool
    var loadingOlder: bool
    var conversations: seq<CS.Summary>
    var notFound: bool
    /** `streamingMessageId.current`: the entry tokens are appended to. */
    var streamingMessageId: Option<MessageId>
    /** `oldestCursorRef.current`. */
    var oldestCursor: Option<int>
    /** The next id `uuid()` hands out; ids are fresh and distinct. */
    var nextLocal: nat
    /** The conversation stream, as `useSSE` manages it. */
    var sse: SseSession.Session

    /** Client ids are used once, and the in-progress marker is a client id
        already handed out, so it names at most one entry. */
    ghost predicate Valid()
      reads this, sse
    {
      && sse.Valid()
      && LocalIdsBelow(messages, nextLocal)
      && LocalIdsDistinct(messages)
      && (streamingMessageId.Some? ==> streamingMessageId.value.Local? && streamingMessageId.value.n < nextLocal)
    }

    /** The hook's initial state, reading the conversation id from the path. */
    constructor (pathname: Option<string>)
      ensures Valid() && fresh(sse)
      ensures sse.status == SseSession.Idle && sse.error == None && sse.reconnectKey == 0
      ensures sse.closeRef == None && sse.cleanup == None && sse.streams == [] && sse.live == {}
      ensures sse.lastDeps == None
      ensures conversationId == GetConversationIdFromUrl(pathname)
      ensures hydrateHistory == conversationId.Some?
      ensures messages == [] && conversations == [] && streamingMessageId == None && oldestCursor == None
      ensures !sending && !isStreaming && !historyLoading && !hasMore && !loadingOlder && !notFound
      ensures error == None && sseError == None && nextLocal == 0
    {
      conversationId := GetConversationIdFromUrl(pathname);
      hydrateHistory := GetConversationIdFromUrl(pathname).Some?;
      messages := [];
      sending := false;
      isStreaming := false;
      error := None;
      sseError := None;
      historyLoading := false;
      hasMore := false;
      loadingOlder := false;
      conversations := [];
      notFound := false;
      streamingMessageId := None;
      oldestCursor := None;
      nextLocal := 0;
      sse := new SseSession.Session();
    }

    /** `ensureAssistantMessage`: with a marker set, nothing; otherwise one
        empty assistant entry with a fresh id is appended and marked. */
    method EnsureAssistantMessage()
      requires Valid()
      modifies this`streamingMessageId, this`messages, this`nextLocal
      ensures Valid() && streamingMessageId.Some?
      ensures old(streamingMessageId).Some? ==>
        streamingMessageId == old(streamingMessageId) && messages == old(messages) && nextLocal == old(nextLocal)
      ensures old(streamingMessageId).None? ==>
        && streamingMessageId == Some(Local(old(nextLocal)))
        && messages == old(messages) + [UiMessage(Local(old(nextLocal)), CS.Assistant, "", None)]
        && nextLocal == old(nextLocal) + 1
    {
      if streamingMessageId.Some? {
        return;
      }
      var id := Local(nextLocal);
      nextLocal := nextLocal + 1;
      streamingMessageId := Some(id);
      messages := messages + [UiMessage(id, CS.Assistant, "", None)];
    }

    /** `handleToken`: the token extends the marked entry, which is created
        first if no marker is set; every other entry is left as it was. An
        entry no longer in the transcript means the token is dropped. */
    method HandleToken(token: string)
      requires Valid()
      modifies this`streamingMessageId, this`messages, this`nextLocal, this`isStreaming
      ensures Valid() && isStreaming
      ensures old(streamingMessageId).None? ==>
        && streamingMessageId == Some(Local(old(nextLocal)))
        && messages == old(messages) + [UiMessage(Local(old(nextLocal)), CS.Assistant, token, None)]
        && nextLocal == old(nextLocal) + 1
      ensures old(streamingMessageId).Some? ==> streamingMessageId == old(streamingMessageId) && nextLocal == old(nextLocal)
      ensures forall k :: 0 <= k < |old(messages)| && old(streamingMessageId) == Some(old(messages)[k].id) ==>
        messages == old(messages)[k := old(messages)[k].(content := old(messages)[k].content + token)]
      ensures old(streamingMessageId).Some? && (forall i :: 0 <= i < |old(messages)| ==> old(messages)[i].id != old(streamingMessageId).value) ==>
        messages == old(messages)
    {
      ghost var before := messages;
      EnsureAssistantMessage();
      isStreaming := true;
      var id := streamingMessageId.value;
      if old(streamingMessageId).None? {
        TokenStartsEntry(before, id, token);
      } else {
        TokenForMarked(before, id, token);
      }
      messages := AppendToken(messages, id, token);
    }

    /** `handleDone`: the run is over; the next token starts a new entry. */
    method HandleDone()
      requires Valid()
      modifies this`isStreaming, this`streamingMessageId
      ensures Valid()
      ensures !isStreaming && streamingMessageId == None
    {
      isStreaming := false;
      streamingMessageId := None;
    }

    /** `handleSseError`: as `handleDone`, and the message is recorded. */
    method HandleSseError(message: string)
      requires Valid()
      modifies this`isStreaming, this`streamingMessageId, this`sseError
      ensures Valid()
      ensures !isStreaming && streamingMessageId == None && sseError == Some(message)
    {
      isStreaming := false;
      streamingMessageId := None;
      sseError := Some(message);
    }

    /** `handleSseOpen`: a new connection clears the stream error. */
    method HandleSseOpen()
      requires Valid()
      modifies this`sseError
      ensures Valid() && sseError == None
    {
      sseError := None;
    }

    /** The `useSSE` call: the stream follows the conversation and is
        enabled only once its history has loaded. With the same
        conversation, key and enabled flag as the last effect run, nothing
        happens; otherwise the previous stream is closed and, with no
        conversation or while history loads, the hook goes `idle` with no
        stream, else it opens one new stream for the conversation. */
    method Render()
      requires Valid()
      modifies sse
      ensures Valid()
      ensures sse.reconnectKey == old(sse.reconnectKey)
      ensures sse.lastDeps == Some(SseSession.Deps(conversationId, sse.reconnectKey, Some(Truthy(conversationId) && !historyLoading)))
      ensures |sse.live| <= 1
      ensures old(sse.lastDeps) == sse.lastDeps ==> unchanged(sse)
      ensures old(sse.lastDeps) != sse.lastDeps && (!Truthy(conversationId) || historyLoading) ==>
        && sse.status == SseSession.Idle && sse.error == old(sse.error)
        && sse.closeRef == None && sse.cleanup == None && sse.live == {} && sse.streams == old(sse.streams)
      ensures old(sse.lastDeps) != sse.lastDeps && Truthy(conversationId) && !historyLoading ==>
        && sse.status == SseSession.Connecting && sse.error == None
        && sse.streams == old(sse.streams) + [conversationId.value]
        && sse.live == {|old(sse.streams)|} && sse.closeRef == Some(|old(sse.streams)|)
    {
      sse.Render(conversationId, Some(Truthy(conversationId) && !historyLoading));
    }

    /** `sendMessage(input)`, the post settling as `post` (the conversation
        id the server answers with). Blank input, or a send or reply in
        progress, changes nothing. Otherwise the trimmed text is shown at
        once as a user entry; on success an empty assistant entry follows
        and is marked for the reply's tokens, and on failure exactly the
        user entry is taken back and the error recorded. */
    method SendMessage(input: string, now: int, post: Reply<string>)
      requires Valid()
      modifies this`sending, this`error, this`sseError, this`messages, this`nextLocal, this`conversationId,
              this`streamingMessageId, this`isStreaming
      ensures Valid()
      ensures Trim(input) == [] || old(sending) || old(isStreaming) ==>
        && messages == old(messages) && sending == old(sending) && isStreaming == old(isStreaming)
        && error == old(error) && sseError == old(sseError) && conversationId == old(conversationId)
        && streamingMessageId == old(streamingMessageId) && nextLocal == old(nextLocal)
      ensures !(Trim(input) == [] || old(sending) || old(isStreaming)) ==>
        !sending && sseError == None && isStreaming == post.Replied?
      ensures !(Trim(input) == [] || old(sending) || old(isStreaming)) && post.Replied? ==>
        && messages == old(messages) + [UiMessage(Local(old(nextLocal)), CS.User, Trim(input), Some(now)),
                                        UiMessage(Local(old(nextLocal) + 1), CS.Assistant, "", None)]
        && streamingMessageId == Some(Local(old(nextLocal) + 1))
        && nextLocal == old(nextLocal) + 2
        && error == None
        && conversationId == (if Truthy(old(conversationId)) then old(conversationId) else Some(post.value))
      ensures !(Trim(input) == [] || old(sending) || old(isStreaming)) && post.Failed? ==>
        && messages == old(messages)
        && error == Some(post.message)
        && conversationId == old(conversationId)
        && streamingMessageId == old(streamingMessageId)
        && nextLocal == old(nextLocal) + 1
    {
      var text := Trim(input);
      if text == [] || sending || isStreaming {
        return;
      }
      Send(text, now, post);
    }

    /** The body of `sendMessage` past its guard, for the trimmed text. */
    method Send(text: string, now: int, post: Reply<string>)
      requires Valid() && !isStreaming
      modifies this`sending, this`error, this`sseError, this`messages, this`nextLocal, this`conversationId,
              this`streamingMessageId, this`isStreaming
      ensures Valid()
      ensures !sending && sseError == None && isStreaming == post.Replied?
      ensures post.Replied? ==>
        && messages == old(messages) + [UiMessage(Local(old(nextLocal)), CS.User, text, Some(now)),
                                        UiMessage(Local(old(nextLocal) + 1), CS.Assistant, "", None)]
        && streamingMessageId == Some(Local(old(nextLocal) + 1))
        && nextLocal == old(nextLocal) + 2
        && error == None
        && conversationId == (if Truthy(old(conversationId)) then old(conversationId) else Some(post.value))
      ensures post.Failed? ==>
        && messages == old(messages)
        && error == Some(post.message)
        && conversationId == old(conversationId)
        && streamingMessageId == old(streamingMessageId)
        && nextLocal == old(nextLocal) + 1
    {
      sending := true;
      error := None;
      sseError := None;
      var userMessage := AppendLocal(CS.User, text, Some(now));
      match post {
        case Replied(id) => Accepted(id);
        case Failed(m) =>
          TakeBack(userMessage);
          error := Some(m);
      }
      sending := false;
    }

    /** The post succeeded with conversation `id`: it becomes the current
        one if none was set, and an empty assistant entry is appended and
        marked for the reply's tokens. */
    method Accepted(id: string)
      requires Valid()
      modifies this`messages, this`nextLocal, this`conversationId, this`streamingMessageId, this`isStreaming
      ensures Valid() && isStreaming
      ensures messages == old(messages) + [UiMessage(Local(old(nextLocal)), CS.Assistant, "", None)]
      ensures nextLocal == old(nextLocal) + 1
      ensures streamingMessageId == Some(Local(old(nextLocal)))
      ensures conversationId == (if Truthy(old(conversationId)) then old(conversationId) else Some(id))
    {
      if !Truthy(conversationId) {
        conversationId := Some(id);
      }
      var assistant := AppendLocal(CS.Assistant, "", None);
      streamingMessageId := Some(assistant.id);
      isStreaming := true;
    }

    /** Appends an entry with a fresh client id. */
    method AppendLocal(role: CS.Role, content: string, createdAt: Option<int>) returns (m: UiMessage)
      requires Valid()
      modifies this`messages, this`nextLocal
      ensures Valid()
      ensures m == UiMessage(Local(old(nextLocal)), role, content, createdAt)
      ensures messages == old(messages) + [m] && nextLocal == old(nextLocal) + 1
    {
      m := UiMessage(Local(nextLocal), role, content, createdAt);
      nextLocal := nextLocal + 1;
      messages := messages + [m];
    }

    /** The rollback of an optimistic append of `m`. */
    method TakeBack(m: UiMessage)
      requires Valid()
      requires |messages| > 0 && messages[|messages| - 1] == m && m.id.Local?
      modifies this`messages
      ensures Valid()
      ensures messages == old(messages)[..|old(messages)| - 1]
    {
      ghost var prev := messages[..|messages| - 1];
      assert messages == prev + [m];
      RemoveAppended(prev, m);
      messages := RemoveById(messages, m.id);
    }

    /** `startNewChat`: an empty session with no conversation, and the
        stream disconnected. */
    method StartNewChat()
      requires Valid()
      modifies this`messages, this`conversationId, this`hydrateHistory, this`streamingMessageId,
        this`isStreaming, this`error, this`sseError, this`historyLoading, this`hasMore, this`oldestCursor,
        this`notFound, sse`closeRef, sse`live, sse`status
      ensures Valid()
      ensures messages == [] && conversationId == None && !hydrateHistory && streamingMessageId == None
      ensures !isStreaming && error == None && sseError == None && !historyLoading && !hasMore
      ensures oldestCursor == None && !notFound
      ensures sse.closeRef == None && sse.live == {}
      ensures sse.status == if old(sse.closeRef).Some? then SseSession.Closed else old(sse.status)
    {
      sse.Disconnect();
      messages := [];
      conversationId := None;
      hydrateHistory := false;
      streamingMessageId := None;
      isStreaming := false;
      error := None;
      sseError := None;
      historyLoading := false;
      hasMore := false;
      oldestCursor := None;
      notFound := false;
    }

    /** `selectConversation(id)` as written: an empty or current id changes
        nothing; otherwise the stream is disconnected and the session is
        emptied for `id`, whose history is to be loaded. The in-progress
        marker is left as it was. */
    method SelectConversationAsWritten(id: string)
      requires Valid()
      modifies this`messages, this`conversationId, this`hydrateHistory, this`isStreaming, this`error,
        this`sseError, this`historyLoading, this`hasMore, this`oldestCursor, sse`closeRef, sse`live, sse`status
      ensures Valid()
      ensures id == "" || old(conversationId) == Some(id) ==> unchanged(this) && unchanged(sse)
      ensures !(id == "" || old(conversationId) == Some(id)) ==>
        && messages == [] && conversationId == Some(id) && hydrateHistory
        && !isStreaming && error == None && sseError == None && !historyLoading && !hasMore
        && oldestCursor == None && sse.closeRef == None && sse.live == {}
        && sse.status == (if old(sse.closeRef).Some? then SseSession.Closed else old(sse.status))
        && streamingMessageId == old(streamingMessageId)
    {
      if id == "" || conversationId == Some(id) {
        return;
      }
      sse.Disconnect();
      messages := [];
      conversationId := Some(id);
      hydrateHistory := true;
      isStreaming := false;
      error := None;
      sseError := None;
      historyLoading := false;
      hasMore := false;
      oldestCursor := None;
    }

    /** `selectConversation(id)`, with the in-progress marker cleared as
        `startNewChat` clears it, so that the next token starts a new entry. */
    method SelectConversation(id: string)
      requires Valid()
      modifies this`messages, this`conversationId, this`hydrateHistory, this`isStreaming, this`error,
        this`sseError, this`historyLoading, this`hasMore, this`oldestCursor, this`streamingMessageId, sse`closeRef, sse`live, sse`status
      ensures Valid()
      ensures id == "" || old(conversationId) == Some(id) ==> unchanged(this) && unchanged(sse)
      ensures !(id == "" || old(conversationId) == Some(id)) ==>
        && messages == [] && conversationId == Some(id) && hydrateHistory
        && !isStreaming && error == None && sseError == None && !historyLoading && !hasMore
        && oldestCursor == None && sse.closeRef == None && sse.live == {}
        && sse.status == (if old(sse.closeRef).Some? then SseSession.Closed else old(sse.status))
        && streamingMessageId == None
    {
      if id == "" || conversationId == Some(id) {
        return;
      }
      SelectConversationAsWritten(id);
      streamingMessageId := None;
    }

    /** `loadOlderMessages`, the history request settling as `response`.
        Without a conversation, while a load runs, with nothing more to
        load or with no cursor, it returns 0 and changes nothing. Otherwise
        it asks for the page before the stored cursor (else the first
        entry's time); the page goes, in order, in front of the transcript,
        `hasMore` and the cursor come from the answer, and its length is
        returned. A failed request records its error and returns 0. */
    method LoadOlderMessages(response: Reply<HistoryPage>) returns (n: nat, requested: Option<int>)
      requires Valid()
      modifies this`messages, this`nextLocal, this`hasMore, this`oldestCursor, this`error, this`loadingOlder
      ensures Valid()
      ensures requested == (if !Truthy(old(conversationId)) || old(loadingOlder) || old(historyLoading) || !old(hasMore)
                            then None else OlderCursor(old(oldestCursor), old(messages)))
      ensures !Truthy(old(conversationId)) || old(loadingOlder) || old(historyLoading) || !old(hasMore)
              || OlderCursor(old(oldestCursor), old(messages)).None? ==>
        && n == 0 && requested == None && unchanged(this)
      ensures requested.Some? ==>
        requested == OlderCursor(old(oldestCursor), old(messages)) && !loadingOlder
      ensures requested.Some? && response.Replied? ==>
        && messages == Normalize(response.value.messages, old(nextLocal)) + old(messages)
        && n == |response.value.messages|
        && nextLocal == old(nextLocal) + n
        && hasMore == response.value.hasMore
        && oldestCursor == response.value.nextCursor
        && error == old(error)
      ensures requested.Some? && response.Failed? ==>
        && n == 0 && messages == old(messages) && nextLocal == old(nextLocal) && hasMore == old(hasMore)
        && oldestCursor == old(oldestCursor) && error == Some(response.message)
    {
      if !Truthy(conversationId) || loadingOlder || historyLoading || !hasMore {
        return 0, None;
      }
      var before := OlderCursor(oldestCursor, messages);
      if before.None? {
        return 0, None;
      }
      requested := before;
      loadingOlder := true;
      match response {
        case Replied(page) =>
          var normalized := Normalize(page.messages, nextLocal);
          PrependFresh(normalized, messages, nextLocal, |page.messages|);
          nextLocal := nextLocal + |page.messages|;
          messages := normalized + messages;
          hasMore := page.hasMore;
          oldestCursor := page.nextCursor;
          n := |normalized|;
        case Failed(m) =>
          error := Some(m);
          n := 0;
      }
      loadingOlder := false;
    }

    /** The `onConversation` handler for a created conversation. */
    method OnConversationCreated(conv: CS.Summary)
      requires Valid()
      modifies this`conversations
      ensures Valid()
      ensures conversations == PrependConversation(old(conversations), conv)
      ensures |old(conversations)| <= ListCap ==> |conversations| <= ListCap
      ensures HasId(conversations, conv.id)
    {
      PrependConversationProperties(conversations, conv);
      if !HasId(conversations, conv.id) {
        assert PrependConversation(conversations, conv)[0] == conv;
      }
      conversations := PrependConversation(conversations, conv);
    }
  }

  /** Switching away from a conversation while its reply streams, and back:
      as written, the reply's later tokens are not shown. */
  method SwitchBackDropsTokens() returns (shown: seq<UiMessage>)
    ensures shown == []
  {
    var chat := new Chat(None);
    chat.SelectConversationAsWritten("a");
    chat.HandleToken("Simulated ");
    assert chat.streamingMessageId == Some(Local(0));
    chat.SelectConversationAsWritten("b");
    chat.SelectConversationAsWritten("a");
    assert chat.messages == [] && chat.streamingMessageId == Some(Local(0));
    chat.HandleToken("reply ");
    shown := chat.messages;
  }

  /** The same steps with the marker cleared on a switch: the later tokens
      start a new assistant entry. */
  method SwitchBackShowsTokens() returns (shown: seq<UiMessage>)
    ensures |shown| == 1 && shown[0].role == CS.Assistant && shown[0].content == "reply "
  {
    var chat := new Chat(None);
    chat.SelectConversation("a");
    chat.HandleToken("Simulated ");
    chat.SelectConversation("b");
    chat.SelectConversation("a");
    assert chat.messages == [] && chat.streamingMessageId == None;
    chat.HandleToken("reply ");
    shown := chat.messages;
  }
}
