/** The browser side of a conversation stream (`openChatStream`): what its
    `token` and `error` listeners hand to the hook's handlers, given the
    data of the event the `EventSource` dispatched. `JSON.parse` is
    recognised here for the shapes the server writes: a string literal and
    a one-member object with a string value. */
module SseClient {
  import opened Text
  import opened Wire

  /** The message the `error` listener reports when the event has no data. */
  const ConnectionError: string := "Stream connection error"

  /** `parseData` as written: a JSON string gives its value, an object with
      a `token` member gives the token, and anything else is returned raw. */
  function ParseData(raw: string): (r: string) {
    if JsonUnquote(raw).Some? then JsonUnquote(raw).value
    else if StringMember("token", raw).Some? then StringMember("token", raw).value
    else raw
  }

  /** The `error` listener as written: the parsed data when the event
      carries some and it parses to a non-empty string, else the fallback. */
  function ErrorMessage(data: Option<string>): (r: string)
    ensures r != []
    ensures data.None? || data == Some("") ==> r == ConnectionError
  {
    if data.Some? && data.value != "" && ParseData(data.value) != "" then ParseData(data.value)
    else ConnectionError
  }

  /** `parseData` reading the `message` member as well, as the server's
      `error` payload needs. */
  function ParseDataFixed(raw: string): (r: string)
    ensures StringMember("message", raw).None? ==> r == ParseData(raw)
  {
    if JsonUnquote(raw).Some? || StringMember("token", raw).Some? then ParseData(raw)
    else if StringMember("message", raw).Some? then StringMember("message", raw).value
    else raw
  }

  /** The `error` listener with the corrected parse. */
  function ErrorMessageFixed(data: Option<string>): (r: string)
    ensures r != []
    ensures data.None? || data == Some("") ==> r == ConnectionError
  {
    if data.Some? && data.value != "" && ParseDataFixed(data.value) != "" then ParseDataFixed(data.value)
    else ConnectionError
  }

  lemma {:induction false} EscapeLength(s: string)
    ensures |Escape(s)| >= |s|
  {
    if s != [] {
      EscapeLength(s[1..]);
    }
  }

  /** A one-member object is not a JSON string. */
  lemma ObjectIsNotString(key: string, s: string)
    ensures JsonUnquote(StringObject(key, s)) == None
  {
    assert StringObject(key, s)[0] == '{';
  }

  /** A one-member object's member is not read under another key. */
  lemma OtherKeyAbsent(key: string, other: string, s: string)
    requires |key| > 0 && |other| > 0 && key[0] != other[0]
    ensures StringMember(other, StringObject(key, s)) == None
  {
    var p := StringObject(key, s);
    var prefix := "{\"" + other + "\":";
    if |p| > |prefix| {
      assert p[2] == key[0] && prefix[2] == other[0];
      assert p[..|prefix|][2] == p[2];
    }
  }

  /** A token frame's data reaches `handleToken` as exactly the token, by
      the wrapper as written and by the corrected one. */
  lemma TokenReachesHandler(token: string)
    ensures ParseData(TokenPayload(token)) == token
    ensures ParseDataFixed(TokenPayload(token)) == token
  {
    ObjectIsNotString("token", token);
    MemberRoundTrip("token", token);
  }

  /** As written, the server's `error` event reaches `handleSseError` as its
      raw JSON text `{"message":...}`, never as the message itself. */
  lemma ErrorShowsRawJson(message: string)
    ensures ErrorMessage(Some(ErrorPayload(message))) == ErrorPayload(message)
    ensures ErrorMessage(Some(ErrorPayload(message))) != message
  {
    ObjectIsNotString("message", message);
    OtherKeyAbsent("message", "token", message);
    EscapeLength(message);
    assert |ErrorPayload(message)| > |message|;
  }

  /** With the corrected parse, the handler receives the server's message
      (or the fallback for an empty one). */
  lemma ErrorShowsMessage(message: string)
    ensures ErrorMessageFixed(Some(ErrorPayload(message)))
         == if message == [] then ConnectionError else message
  {
    ObjectIsNotString("message", message);
    OtherKeyAbsent("message", "token", message);
    MemberRoundTrip("message", message);
  }
}
