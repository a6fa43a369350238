/** What the server puts on the wire: JSON text for string-valued payloads
    (as `JSON.stringify` writes it) and Server-Sent Events frames, with an
    interpreter of the event-stream format (WHATWG HTML, "Server-sent events",
    section 9.2.6 "Interpreting an event stream") as their partner. */
module Wire {
  import opened Text

  // ---------------------------------------------------------------------
  // JSON string literals

  function HexDigit(n: nat): (c: char)
    requires n < 16
    ensures HexValue(c) == Some(n)
  {
    if n < 10 then (48 + n) as char else (87 + n) as char
  }

  function HexValue(c: char): (r: Option<nat>)
    ensures r.Some? ==> r.value < 16
  {
    if '0' <= c <= '9' then Some(c as int - 48)
    else if 'a' <= c <= 'f' then Some(c as int - 87)
    else if 'A' <= c <= 'F' then Some(c as int - 55)
    else None
  }

  /** How `JSON.stringify` writes one character inside a string literal:
      the seven short escapes, `\u00xx` (lower-case hex) for the remaining
      control characters, the character itself otherwise. */
  function EscapeChar(c: char): (r: string) {
    if c == '"' then "\\\""
    else if c == '\\' then "\\\\"
    else if c == '\U{0008}' then "\\b"
    else if c == '\t' then "\\t"
    else if c == '\n' then "\\n"
    else if c == '\U{000C}' then "\\f"
    else if c == '\r' then "\\r"
    else if (c as int) < 0x20 then "\\u00" + [HexDigit(c as int / 16), HexDigit(c as int % 16)]
    else [c]
  }

  /** The body of a JSON string literal; it never holds a line break. */
  function Escape(s: string): (r: string)
    ensures '\n' !in r && '\r' !in r
  {
    if s == [] then "" else EscapeChar(s[0]) + Escape(s[1..])
  }

  /** `JSON.stringify(s)` for a string `s`. */
  function JsonQuote(s: string): (r: string) {
    "\"" + Escape(s) + "\""
  }

  function Prepend(c: char, r: Option<string>): (out: Option<string>) {
    match r
    case None => None
    case Some(s) => Some([c] + s)
  }

  function ShortEscape(c: char): (r: Option<char>) {
    if c == '"' then Some('"')
    else if c == '\\' then Some('\\')
    else if c == '/' then Some('/')
    else if c == 'b' then Some('\U{0008}')
    else if c == 'f' then Some('\U{000C}')
    else if c == 'n' then Some('\n')
    else if c == 'r' then Some('\r')
    else if c == 't' then Some('\t')
    else None
  }

  /** The character named by the four hex digits of a `\uXXXX` escape;
      surrogate halves are refused. */
  function CodeUnit(h: string): (r: Option<char>)
    requires |h| == 4
  {
    var a, b, c, d := HexValue(h[0]), HexValue(h[1]), HexValue(h[2]), HexValue(h[3]);
    if a.None? || b.None? || c.None? || d.None? then None
    else
      var v := 4096 * a.value + 256 * b.value + 16 * c.value + d.value;
      if 0xD800 <= v < 0xE000 then None else Some(v as char)
  }

  /** Reads the body of a JSON string literal back into the string it denotes. */
  function Unescape(e: string): (r: Option<string>)
    decreases |e|
  {
    if e == [] then Some("")
    else if e[0] == '\\' then
      if |e| < 2 then None
      else if ShortEscape(e[1]).Some? then Prepend(ShortEscape(e[1]).value, Unescape(e[2..]))
      else if e[1] == 'u' && |e| >= 6 then
        match CodeUnit(e[2..6])
        case None => None
        case Some(c) => Prepend(c, Unescape(e[6..]))
      else None
    else if e[0] == '"' || (e[0] as int) < 0x20 then None
    else Prepend(e[0], Unescape(e[1..]))
  }

  /** Reads a JSON string literal. */
  function JsonUnquote(t: string): (r: Option<string>) {
    if |t| >= 2 && t[0] == '"' && t[|t| - 1] == '"' then Unescape(t[1..|t| - 1]) else None
  }

  lemma UnescapeChar(c: char, rest: string)
    ensures Unescape(EscapeChar(c) + rest) == Prepend(c, Unescape(rest))
  {
    var e := EscapeChar(c) + rest;
    if (c as int) < 0x20 && c !in {'\U{0008}', '\t', '\n', '\U{000C}', '\r'} {
      var n := c as int;
      assert e[0] == '\\' && e[1] == 'u' && e[2..6] == ['0', '0', HexDigit(n / 16), HexDigit(n % 16)];
      assert 16 * (n / 16) + n % 16 == n;
      assert e[6..] == rest;
    } else if c == '"' || c == '\\' || c == '\U{0008}' || c == '\t' || c == '\n' || c == '\U{000C}' || c == '\r' {
      assert e[2..] == rest;
    } else {
      assert e[0] == c && e[1..] == rest;
    }
  }

  /** Reading back what `Escape` wrote gives the original string. */
  lemma {:induction false} UnescapeEscape(s: string)
    ensures Unescape(Escape(s)) == Some(s)
  {
    if s != [] {
      UnescapeEscape(s[1..]);
      UnescapeChar(s[0], Escape(s[1..]));
      assert [s[0]] + s[1..] == s;
    }
  }

  /** `JSON.parse(JSON.stringify(s)) == s` for every string `s`. */
  lemma JsonRoundTrip(s: string)
    ensures JsonUnquote(JsonQuote(s)) == Some(s)
  {
    var t := JsonQuote(s);
    assert t[1..|t| - 1] == Escape(s);
    UnescapeEscape(s);
  }

  // ---------------------------------------------------------------------
  // Event payloads (the JSON objects the broadcaster serialises)

  /** `JSON.stringify({ [key]: value })` for a string `value`. */
  function StringObject(key: string, value: string): (r: string) {
    "{\"" + key + "\":" + JsonQuote(value) + "}"
  }

  /** `JSON.stringify({ token })`. */
  function TokenPayload(token: string): (r: string) {
    StringObject("token", token)
  }

  /** `JSON.stringify({ status: "completed" })`. */
  function DonePayload(): (r: string) {
    "{\"status\":\"completed\"}"
  }

  /** `JSON.stringify({ message })`. */
  function ErrorPayload(message: string): (r: string) {
    StringObject("message", message)
  }

  /** `JSON.stringify({ type: "created", conversation: summary })`, where
      `summaryJson` is the serialised summary. */
  function CreatedPayload(summaryJson: string): (r: string) {
    "{\"type\":\"created\",\"conversation\":" + summaryJson + "}"
  }

  /** The string member `key` of a one-member JSON object, as a reader of the payload sees it. */
  function StringMember(key: string, payload: string): (r: Option<string>) {
    var prefix := "{\"" + key + "\":";
    if |payload| > |prefix| && payload[..|prefix|] == prefix && payload[|payload| - 1] == '}'
    then JsonUnquote(payload[|prefix|..|payload| - 1])
    else None
  }

  /** A one-member object holding a quoted string gives that string back. */
  lemma MemberRoundTrip(key: string, s: string)
    ensures StringMember(key, StringObject(key, s)) == Some(s)
  {
    JsonRoundTrip(s);
    var prefix := "{\"" + key + "\":";
    var p := StringObject(key, s);
    assert p == prefix + JsonQuote(s) + "}";
    assert p[..|prefix|] == prefix;
    assert p[|prefix|..|p| - 1] == JsonQuote(s);
  }

  lemma NoLineBreakAppend(a: string, b: string)
    requires NoLineBreak(a) && NoLineBreak(b)
    ensures NoLineBreak(a + b)
  {
    assert forall ch :: ch in a + b ==> ch in a || ch in b;
  }

  /** A one-member object fits on one line when its key does. */
  lemma ObjectOneLine(key: string, s: string)
    requires NoLineBreak(key)
    ensures NoLineBreak(StringObject(key, s))
  {
    NoLineBreakAppend("{\"", key);
    NoLineBreakAppend("{\"" + key, "\":");
    NoLineBreakAppend("\"", Escape(s));
    NoLineBreakAppend("\"" + Escape(s), "\"");
    NoLineBreakAppend("{\"" + key + "\":", JsonQuote(s));
    NoLineBreakAppend("{\"" + key + "\":" + JsonQuote(s), "}");
  }

  /** The token and error payloads carry their string losslessly and fit on one line. */
  lemma PayloadRoundTrip(s: string)
    ensures StringMember("token", TokenPayload(s)) == Some(s)
    ensures StringMember("message", ErrorPayload(s)) == Some(s)
    ensures NoLineBreak(TokenPayload(s)) && NoLineBreak(ErrorPayload(s)) && NoLineBreak(DonePayload())
  {
    MemberRoundTrip("token", s);
    MemberRoundTrip("message", s);
    ObjectOneLine("token", s);
    ObjectOneLine("message", s);
  }

  // ---------------------------------------------------------------------
  // Server-Sent Events frames

  predicate NoLineBreak(s: string) {
    '\n' !in s && '\r' !in s
  }

  /** One block written to an event stream: a comment line or an event. */
  datatype Frame = Comment(text: string) | Event(name: string, data: string)

  /** The text of a frame: `":" text "\n\n"` or `"event: " name "\ndata: " data "\n\n"`. */
  function Render(f: Frame): (r: string) {
    match f
    case Comment(text) => ":" + text + "\n\n"
    case Event(name, data) => "event: " + name + "\ndata: " + data + "\n\n"
  }

  predicate WellFormed(f: Frame) {
    match f
    case Comment(text) => NoLineBreak(text)
    case Event(name, data) => NoLineBreak(name) && NoLineBreak(data)
  }

  function Concat(frames: seq<string>): (r: string) {
    if frames == [] then "" else frames[0] + Concat(frames[1..])
  }

  function RenderAll(frames: seq<Frame>): (r: seq<string>) {
    if frames == [] then [] else [Render(frames[0])] + RenderAll(frames[1..])
  }

  // ---------------------------------------------------------------------
  // Interpreting an event stream

  /** An event as a listening `EventSource` receives it. */
  datatype Dispatched = Dispatched(eventType: string, data: string)

  /** The interpreter's buffers: the current line, the event type and data
      buffers, whether the last character was a CR, and the events dispatched. */
  datatype Reader = Reader(line: string, eventType: string, data: string, afterCr: bool,
                           dispatched: seq<Dispatched>)

  function Idle(dispatched: seq<Dispatched>): (r: Reader) {
    Reader("", "", "", false, dispatched)
  }

  /** The field name of a line: everything before its first colon. */
  function FieldName(line: string): (r: string) {
    if line == [] || line[0] == ':' then [] else [line[0]] + FieldName(line[1..])
  }

  lemma {:induction false} FieldNameBound(line: string)
    ensures |FieldName(line)| <= |line|
    ensures |FieldName(line)| < |line| ==> line[|FieldName(line)|] == ':'
  {
    if line != [] && line[0] != ':' {
      FieldNameBound(line[1..]);
    }
  }

  lemma {:induction false} FieldNameOf(name: string, rest: string)
    requires ':' !in name
    ensures FieldName(name + ":" + rest) == name
  {
    if name != [] {
      assert (name + ":" + rest)[1..] == name[1..] + ":" + rest;
      assert forall c :: c in name[1..] ==> c in name;
      FieldNameOf(name[1..], rest);
      assert [name[0]] + name[1..] == name;
    }
  }

  /** The field value of a line: what follows the first colon, less one leading space. */
  function FieldValue(line: string): (r: string) {
    FieldNameBound(line);
    var n := |FieldName(line)|;
    if n == |line| then ""
    else
      var v := line[n + 1..];
      if v != [] && v[0] == ' ' then v[1..] else v
  }

  function Dispatch(r: Reader): (next: Reader) {
    if r.data == [] then r.(eventType := "")
    else
      var data := if r.data[|r.data| - 1] == '\n' then r.data[..|r.data| - 1] else r.data;
      var name := if r.eventType == [] then "message" else r.eventType;
      r.(eventType := "", data := "", dispatched := r.dispatched + [Dispatched(name, data)])
  }

  /** Processes one complete line (the line buffer already emptied). */
  function ProcessLine(r: Reader, line: string): (next: Reader) {
    if line == [] then Dispatch(r)
    else if line[0] == ':' then r
    else
      var field := FieldName(line);
      if field == "event" then r.(eventType := FieldValue(line))
      else if field == "data" then r.(data := r.data + FieldValue(line) + "\n")
      else r
  }

  /** Feeds one character: CR, LF and CRLF end a line. */
  function Step(r: Reader, c: char): (next: Reader) {
    if c == '\n' && r.afterCr then r.(afterCr := false)
    else if c == '\n' || c == '\r' then ProcessLine(r.(line := "", afterCr := c == '\r'), r.line)
    else r.(line := r.line + [c], afterCr := false)
  }

  function Feed(r: Reader, s: string): (next: Reader)
    decreases |s|
  {
    if s == [] then r else Feed(Step(r, s[0]), s[1..])
  }

  lemma {:induction false} FeedConcat(r: Reader, a: string, b: string)
    ensures Feed(r, a + b) == Feed(Feed(r, a), b)
    decreases |a|
  {
    if a != [] {
      assert (a + b)[0] == a[0] && (a + b)[1..] == a[1..] + b;
      FeedConcat(Step(r, a[0]), a[1..], b);
    } else {
      assert a + b == b;
    }
  }

  lemma {:induction false} FeedLine(r: Reader, s: string)
    requires NoLineBreak(s) && !r.afterCr
    ensures Feed(r, s) == r.(line := r.line + s)
    decreases |s|
  {
    if s != [] {
      assert s[0] in s;
      assert forall c :: c in s[1..] ==> c in s;
      FeedLine(Step(r, s[0]), s[1..]);
      assert r.line + [s[0]] + s[1..] == r.line + s;
    }
  }

  /** Feeds a full line `s` followed by LF, from an empty line buffer. */
  lemma FeedFullLine(r: Reader, s: string)
    requires NoLineBreak(s) && !r.afterCr && r.line == ""
    ensures Feed(r, s + "\n") == ProcessLine(r, s)
  {
    FeedConcat(r, s, "\n");
    FeedLine(r, s);
    var r' := r.(line := r.line + s);
    assert r'.line == s;
    assert "\n"[0] == '\n' && "\n"[1..] == "";
    assert Feed(r', "\n") == Step(r', '\n');
    assert r'.(line := "", afterCr := false) == r;
  }

  lemma FeedComment(l: seq<Dispatched>, text: string)
    requires NoLineBreak(text)
    ensures Feed(Idle(l), Render(Comment(text))) == Idle(l)
  {
    var line := ":" + text;
    assert Render(Comment(text)) == line + "\n" + "\n";
    FeedConcat(Idle(l), line + "\n", "\n");
    FeedFullLine(Idle(l), line);
    FeedFullLine(Idle(l), "");
  }

  lemma EventLine(name: string)
    ensures FieldName("event: " + name) == "event" && FieldValue("event: " + name) == name
  {
    FieldNameOf("event", " " + name);
    assert "event: " + name == "event" + ":" + (" " + name);
    assert ("event: " + name)[6..] == " " + name;
  }

  lemma DataLine(data: string)
    ensures FieldName("data: " + data) == "data" && FieldValue("data: " + data) == data
  {
    FieldNameOf("data", " " + data);
    assert "data: " + data == "data" + ":" + (" " + data);
    assert ("data: " + data)[5..] == " " + data;
  }

  lemma FeedEvent(l: seq<Dispatched>, name: string, data: string)
    requires NoLineBreak(name) && NoLineBreak(data)
    ensures Feed(Idle(l), Render(Event(name, data)))
         == Idle(l + [Dispatched(if name == [] then "message" else name, data)])
  {
    var l1 := "event: " + name;
    var l2 := "data: " + data;
    assert Render(Event(name, data)) == (l1 + "\n") + ((l2 + "\n") + "\n");
    FeedConcat(Idle(l), l1 + "\n", (l2 + "\n") + "\n");
    FeedFullLine(Idle(l), l1);
    EventLine(name);
    var r1 := Reader("", name, "", false, l);
    assert ProcessLine(Idle(l), l1) == r1;
    FeedConcat(r1, l2 + "\n", "\n");
    FeedFullLine(r1, l2);
    DataLine(data);
    var r2 := Reader("", name, data + "\n", false, l);
    assert ProcessLine(r1, l2) == r2;
    FeedFullLine(r2, "");
    assert (data + "\n")[..|data + "\n"| - 1] == data;
  }

  /** A rendered well-formed frame is read back as exactly that frame:
      a comment dispatches nothing, an event dispatches its name and data. */
  lemma FeedFrame(l: seq<Dispatched>, f: Frame)
    requires WellFormed(f)
    ensures Feed(Idle(l), Render(f)) == Idle(l + Carried(f))
  {
    match f
    case Comment(text) =>
      FeedComment(l, text);
      assert l + [] == l;
    case Event(name, data) =>
      FeedEvent(l, name, data);
  }

  /** The event a frame dispatches, if any. */
  function Carried(f: Frame): (r: seq<Dispatched>) {
    match f
    case Comment(_) => []
    case Event(name, data) => [Dispatched(if name == [] then "message" else name, data)]
  }

  function DispatchedAll(frames: seq<Frame>): (r: seq<Dispatched>) {
    if frames == [] then [] else Carried(frames[0]) + DispatchedAll(frames[1..])
  }

  lemma RenderAllCons(frames: seq<Frame>)
    requires frames != []
    ensures Concat(RenderAll(frames)) == Render(frames[0]) + Concat(RenderAll(frames[1..]))
  {
    var r := RenderAll(frames);
    assert r[0] == Render(frames[0]) && r[1..] == RenderAll(frames[1..]);
  }

  lemma DispatchedAllCons(l: seq<Dispatched>, frames: seq<Frame>)
    requires frames != []
    ensures l + Carried(frames[0]) + DispatchedAll(frames[1..]) == l + DispatchedAll(frames)
  {
  }

  /** A stream of well-formed frames is read back as the events they carry, in order. */
  lemma {:induction false} FeedFrames(l: seq<Dispatched>, frames: seq<Frame>)
    requires forall i :: 0 <= i < |frames| ==> WellFormed(frames[i])
    ensures Feed(Idle(l), Concat(RenderAll(frames))) == Idle(l + DispatchedAll(frames))
    decreases |frames|
  {
    if frames != [] {
      var head := Render(frames[0]);
      var tail := Concat(RenderAll(frames[1..]));
      RenderAllCons(frames);
      FeedConcat(Idle(l), head, tail);
      FeedFrame(l, frames[0]);
      FeedFrames(l + Carried(frames[0]), frames[1..]);
      DispatchedAllCons(l, frames);
    } else {
      assert l + [] == l;
    }
  }
}
