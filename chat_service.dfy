/** The chat service: backward cursor pagination over a conversation's
    messages, conversation summaries and listing, and the simulated
    streaming run that emits a reply token by token and persists it. */
module ChatService {
  import opened Text

  datatype Role = User | Assistant

  /** A stored message; `createdAt` is a time in milliseconds. */
  datatype Message = Message(role: Role, content: string, createdAt: int)

  datatype Conversation = Conversation(id: string, createdAt: int, updatedAt: int, messages: seq<Message>)

  /** The conversation collection, by id. */
  type Store = map<string, Conversation>

  datatype HttpError = HttpError(status: int, message: string)

  datatype Result<+T> = Ok(value: T) | Err(error: HttpError)

  const NotFound := HttpError(404, "Conversation not found")

  function Max(a: int, b: int): (r: int) { if a < b then b else a }
  function Min(a: int, b: int): (r: int) { if a < b then a else b }

  // ---------------------------------------------------------------------
  // Storage

  /** `addMessage`: pushes a message stamped `now` and bumps `updatedAt`;
      a missing conversation is a 404. The message schema trims `content`
      on the push, so the stored text is the trimmed one. */
  function AddMessage(store: Store, id: string, role: Role, content: string, now: int): (r: Result<Store>)
    ensures id !in store <==> r == Err(NotFound)
    ensures r.Ok? ==> r.value.Keys == store.Keys
    ensures r.Ok? ==> forall other :: other in store && other != id ==> r.value[other] == store[other]
    ensures r.Ok? ==> r.value[id].messages == store[id].messages + [Message(role, Trim(content), now)]
    ensures r.Ok? ==> r.value[id].updatedAt == now
    ensures r.Ok? ==> r.value[id].id == store[id].id && r.value[id].createdAt == store[id].createdAt
  {
    if id !in store then Err(NotFound)
    else
      var c := store[id];
      Ok(store[id := c.(messages := c.messages + [Message(role, Trim(content), now)], updatedAt := now)])
  }

  // ---------------------------------------------------------------------
  // Sorting by time (a stable sort, as `Array.prototype.sort` is)

  predicate SortedByTime(s: seq<Message>) {
    forall i, j :: 0 <= i < j < |s| ==> s[i].createdAt <= s[j].createdAt
  }

  predicate StrictlyIncreasing(s: seq<Message>) {
    forall i, j :: 0 <= i < j < |s| ==> s[i].createdAt < s[j].createdAt
  }

  predicate DistinctTimes(s: seq<Message>) {
    forall i, j :: 0 <= i < j < |s| ==> s[i].createdAt != s[j].createdAt
  }

  /** Inserts `m` before the first message that is not older than it. */
  function InsertByTime(m: Message, s: seq<Message>): (r: seq<Message>)
    ensures multiset(r) == multiset(s) + multiset{m}
  {
    if s == [] || m.createdAt <= s[0].createdAt then [m] + s
    else
      assert s == [s[0]] + s[1..];
      [s[0]] + InsertByTime(m, s[1..])
  }

  /** Every message of an insertion is the inserted one or an old one. */
  lemma InsertedFrom(m: Message, s: seq<Message>, j: nat)
    requires j < |InsertByTime(m, s)|
    ensures InsertByTime(m, s)[j] == m || InsertByTime(m, s)[j] in s
  {
    var r := InsertByTime(m, s);
    assert r[j] in multiset(r);
  }

  lemma {:induction false} InsertSorted(m: Message, s: seq<Message>)
    requires SortedByTime(s)
    ensures SortedByTime(InsertByTime(m, s))
  {
    if s != [] && m.createdAt > s[0].createdAt {
      InsertSorted(m, s[1..]);
      var r := InsertByTime(m, s[1..]);
      forall j | 0 <= j < |r| ensures s[0].createdAt <= r[j].createdAt {
        InsertedFrom(m, s[1..], j);
      }
      assert InsertByTime(m, s) == [s[0]] + r;
    }
  }

  /** The messages in ascending time; messages with equal times keep their order. */
  function SortByTime(s: seq<Message>): (r: seq<Message>)
    ensures SortedByTime(r)
    ensures multiset(r) == multiset(s)
  {
    if s == [] then []
    else
      assert s == [s[0]] + s[1..];
      InsertSorted(s[0], SortByTime(s[1..]));
      InsertByTime(s[0], SortByTime(s[1..]))
  }

  /** Sorting what is already in time order changes nothing. */
  lemma {:induction false} SortSorted(s: seq<Message>)
    requires SortedByTime(s)
    ensures SortByTime(s) == s
  {
    if s != [] {
      SortSorted(s[1..]);
      assert s == [s[0]] + s[1..];
    }
  }

  lemma {:induction false} InsertStrict(m: Message, s: seq<Message>)
    requires StrictlyIncreasing(s)
    requires forall x :: x in s ==> x.createdAt != m.createdAt
    ensures StrictlyIncreasing(InsertByTime(m, s))
  {
    if s != [] && m.createdAt > s[0].createdAt {
      InsertStrict(m, s[1..]);
      var r := InsertByTime(m, s[1..]);
      forall j | 0 <= j < |r| ensures s[0].createdAt < r[j].createdAt {
        InsertedFrom(m, s[1..], j);
      }
      assert InsertByTime(m, s) == [s[0]] + r;
    }
  }

  /** With distinct timestamps the sorted list is strictly increasing. */
  lemma {:induction false} SortStrict(s: seq<Message>)
    requires DistinctTimes(s)
    ensures StrictlyIncreasing(SortByTime(s))
  {
    if s != [] {
      SortStrict(s[1..]);
      var r := SortByTime(s[1..]);
      forall x | x in r ensures x.createdAt != s[0].createdAt {
        assert x in multiset(r);
        assert x in s[1..];
      }
      InsertStrict(s[0], r);
    }
  }

  // ---------------------------------------------------------------------
  // The `before` filter

  /** The messages strictly older than `before`, in order. */
  function FilterBefore(s: seq<Message>, before: Option<int>): (r: seq<Message>)
    ensures |r| <= |s|
    ensures forall x :: x in r <==> x in s && (before.None? || x.createdAt < before.value)
  {
    match before
    case None => s
    case Some(b) =>
      if s == [] then []
      else
        assert s == [s[0]] + s[1..];
        if s[0].createdAt < b then [s[0]] + FilterBefore(s[1..], before)
        else FilterBefore(s[1..], before)
  }

  lemma {:induction false} FilterSorted(s: seq<Message>, before: Option<int>)
    requires SortedByTime(s)
    ensures SortedByTime(FilterBefore(s, before))
  {
    if before.Some? && s != [] {
      FilterSorted(s[1..], before);
    }
  }

  /** Nothing passes a cut below every message. */
  lemma {:induction false} FilterAllLate(s: seq<Message>, b: int)
    requires forall i :: 0 <= i < |s| ==> s[i].createdAt >= b
    ensures FilterBefore(s, Some(b)) == []
  {
    if s != [] {
      FilterAllLate(s[1..], b);
    }
  }

  /** On a sorted list the filter keeps a prefix. */
  lemma {:induction false} FilterIsPrefix(s: seq<Message>, before: Option<int>)
    requires SortedByTime(s)
    ensures FilterBefore(s, before) == s[..|FilterBefore(s, before)|]
  {
    if before.Some? && s != [] {
      if s[0].createdAt < before.value {
        FilterIsPrefix(s[1..], before);
      } else {
        FilterAllLate(s, before.value);
      }
    }
  }

  /** On a sorted list, a cut at or below the time of index `k` keeps at
      most `k` messages. */
  lemma {:induction false} FilterLength(s: seq<Message>, b: int, k: nat)
    requires SortedByTime(s) && k < |s| && s[k].createdAt >= b
    ensures |FilterBefore(s, Some(b))| <= k
  {
    if s[0].createdAt < b {
      FilterLength(s[1..], b, k - 1);
    } else {
      FilterAllLate(s, b);
    }
  }

  /** Cutting a strictly increasing list at the time of its `k`-th message
      keeps exactly the messages before index `k`. */
  lemma {:induction false} FilterAtIndex(s: seq<Message>, k: nat)
    requires StrictlyIncreasing(s) && k < |s|
    ensures FilterBefore(s, Some(s[k].createdAt)) == s[..k]
  {
    if k == 0 {
      FilterAllLate(s, s[k].createdAt);
    } else {
      var t := s[1..];
      assert StrictlyIncreasing(t);
      assert t[k - 1] == s[k];
      FilterAtIndex(t, k - 1);
      assert s[0].createdAt < s[k].createdAt;
      TakeCons(s, k);
      FilterCons(s[0], t, s[k].createdAt);
    }
  }

  lemma TakeCons<T>(s: seq<T>, k: nat)
    requires 0 < k <= |s|
    ensures s == [s[0]] + s[1..]
    ensures s[..k] == [s[0]] + s[1..][..k - 1]
  {
  }

  lemma SeqAssoc<T>(x: seq<T>, y: seq<T>, z: seq<T>)
    ensures x + (y + z) == (x + y) + z
  {
  }

  /** One step of the filter: the first message, then the rest. */
  lemma FilterCons(m: Message, t: seq<Message>, b: int)
    ensures FilterBefore([m] + t, Some(b))
         == (if m.createdAt < b then [m] else []) + FilterBefore(t, Some(b))
  {
    assert ([m] + t)[0] == m && ([m] + t)[1..] == t;
  }

  /** The filter keeps every eligible message as often as it occurs, and
      no other. */
  lemma {:induction false} FilterBeforeCounts(s: seq<Message>, before: Option<int>)
    ensures forall x :: multiset(FilterBefore(s, before))[x]
                     == if before.None? || x.createdAt < before.value then multiset(s)[x] else 0
  {
    if before.Some? && s != [] {
      FilterBeforeCounts(s[1..], before);
      assert s == [s[0]] + s[1..];
      FilterCons(s[0], s[1..], before.value);
    }
  }

  /** The filter works message by message: filtering a concatenation is
      concatenating the filtered parts, so the kept messages keep their
      order. */
  lemma {:induction false} FilterBeforeConcat(a: seq<Message>, b: seq<Message>, before: Option<int>)
    ensures FilterBefore(a + b, before) == FilterBefore(a, before) + FilterBefore(b, before)
  {
    if before.Some? {
      if a == [] {
        assert [] + b == b;
      } else {
        var c := before.value;
        var t := a[1..];
        var head := if a[0].createdAt < c then [a[0]] else [];
        assert a == [a[0]] + t;
        assert a + b == [a[0]] + (t + b);
        FilterCons(a[0], t + b, c);
        FilterCons(a[0], t, c);
        FilterBeforeConcat(t, b, before);
        SeqAssoc(head, FilterBefore(t, before), FilterBefore(b, before));
      }
    }
  }


  lemma {:induction false} FilterInsert(m: Message, s: seq<Message>, before: Option<int>)
    ensures multiset(FilterBefore(InsertByTime(m, s), before))
         == multiset(FilterBefore(s, before)) + (if before.None? || m.createdAt < before.value then multiset{m} else multiset{})
  {
    if before.Some? {
      var b := before.value;
      if s == [] || m.createdAt <= s[0].createdAt {
        assert InsertByTime(m, s) == [m] + s;
        FilterCons(m, s, b);
      } else {
        var t := s[1..];
        assert s == [s[0]] + t;
        assert InsertByTime(m, s) == [s[0]] + InsertByTime(m, t);
        FilterInsert(m, t, before);
        FilterCons(s[0], InsertByTime(m, t), b);
        FilterCons(s[0], t, b);
      }
    }
  }

  /** Sorting does not change which messages pass the filter. */
  lemma {:induction false} FilterSort(s: seq<Message>, before: Option<int>)
    ensures multiset(FilterBefore(SortByTime(s), before)) == multiset(FilterBefore(s, before))
  {
    if s != [] {
      FilterSort(s[1..], before);
      FilterInsert(s[0], SortByTime(s[1..]), before);
    }
  }

  // ---------------------------------------------------------------------
  // Backward cursor pagination

  /** One page of history; `nextCursor` is the time to pass as `before` next. */
  datatype MessagesPage = MessagesPage(conversationId: string, messages: seq<Message>, total: nat,
                                       hasMore: bool, nextCursor: Option<int>)

  /** `Math.max(1, limit)`: the page size actually used. */
  function EffectiveLimit(limit: int): (r: nat)
    ensures r >= 1
    ensures limit >= 1 ==> r == limit
    ensures limit < 1 ==> r == 1
  {
    Max(1, limit)
  }

  /** The messages eligible for a page: sorted, and older than `before`. */
  function Eligible(messages: seq<Message>, before: Option<int>): (r: seq<Message>) {
    FilterBefore(SortByTime(messages), before)
  }

  /** Where the page starts within the eligible messages. */
  function PageStart(eligible: nat, limit: int): (r: nat) {
    Max(eligible - EffectiveLimit(limit), 0)
  }

  /** The page taken from the conversation's messages once they are in
      time order: the last `limit` of those older than `before`. */
  function PageOf(id: string, sorted: seq<Message>, before: Option<int>, limit: int): (r: MessagesPage) {
    var filtered := FilterBefore(sorted, before);
    var start := PageStart(|filtered|, limit);
    var page := filtered[start..];
    var hasMore := start > 0;
    var nextCursor := if hasMore && |page| > 0 then Some(page[0].createdAt) else None;
    MessagesPage(id, page, |sorted|, hasMore, nextCursor)
  }

  /** `getMessagesPage` once the conversation is found: its page of the
      messages sorted by time. */
  function BuildPage(id: string, messages: seq<Message>, before: Option<int>, limit: int): (r: MessagesPage) {
    PageOf(id, SortByTime(messages), before, limit)
  }

  /** `getMessagesPage`: 404 for an unknown conversation, else its page. */
  function GetMessagesPage(store: Store, id: string, before: Option<int>, limit: int): (r: Result<MessagesPage>)
    ensures id !in store <==> r == Err(NotFound)
    ensures r.Ok? ==> r.value == BuildPage(store[id].id, store[id].messages, before, limit)
  {
    if id !in store then Err(NotFound)
    else Ok(BuildPage(store[id].id, store[id].messages, before, limit))
  }

  /** The page of a sorted list, in terms of its eligible messages `e`. */
  lemma SortedPageParts(id: string, sorted: seq<Message>, before: Option<int>, limit: int)
    ensures var e := FilterBefore(sorted, before);
      var p := PageOf(id, sorted, before, limit);
      && PageStart(|e|, limit) <= |e|
      && p.messages == e[PageStart(|e|, limit)..]
      && (p.hasMore <==> PageStart(|e|, limit) > 0)
      && p.nextCursor == (if p.hasMore then Some(e[PageStart(|e|, limit)].createdAt) else None)
      && p.total == |sorted|
      && p.conversationId == id
  {
  }

  lemma PageParts(id: string, messages: seq<Message>, before: Option<int>, limit: int)
    ensures var e := Eligible(messages, before);
      var p := BuildPage(id, messages, before, limit);
      && PageStart(|e|, limit) <= |e|
      && p.messages == e[PageStart(|e|, limit)..]
      && (p.hasMore <==> PageStart(|e|, limit) > 0)
      && p.nextCursor == (if p.hasMore then Some(e[PageStart(|e|, limit)].createdAt) else None)
      && p.total == |messages|
      && p.conversationId == id
  {
    var sorted := SortByTime(messages);
    SortedPageParts(id, sorted, before, limit);
    assert |sorted| == |multiset(sorted)| == |multiset(messages)| == |messages|;
  }

  lemma TakeDrop(s: seq<Message>, k: nat)
    requires k <= |s|
    ensures s[..k] + s[k..] == s
  {
  }

  /** Cutting a sorted list in two: each part is sorted, nothing in the
      first part is newer than anything in the second, and nothing is lost. */
  lemma CutSorted(f: seq<Message>, start: nat)
    requires SortedByTime(f) && start <= |f|
    ensures SortedByTime(f[start..])
    ensures forall x, y :: x in f[..start] && y in f[start..] ==> x.createdAt <= y.createdAt
    ensures multiset(f[..start]) + multiset(f[start..]) == multiset(f)
  {
    forall x, y | x in f[..start] && y in f[start..] ensures x.createdAt <= y.createdAt {
      var i :| 0 <= i < start && f[i] == x;
      var j :| start <= j < |f| && f[j] == y;
    }
    assert f[..start] + f[start..] == f;
  }

  /** Which messages a page holds: the page and the `older` messages it
      leaves behind are together exactly the messages before `before`, and
      none left behind is newer than any on the page, which is in time order. */
  lemma PageIsNewest(id: string, messages: seq<Message>, before: Option<int>, limit: int)
    returns (older: seq<Message>)
    ensures var p := BuildPage(id, messages, before, limit);
      && multiset(older) + multiset(p.messages) == multiset(FilterBefore(messages, before))
      && (forall x, y :: x in older && y in p.messages ==> x.createdAt <= y.createdAt)
      && SortedByTime(p.messages)
      && (p.hasMore <==> older != [])
  {
    var filtered := Eligible(messages, before);
    PageParts(id, messages, before, limit);
    var start := PageStart(|filtered|, limit);
    older := filtered[..start];
    FilterSort(messages, before);
    FilterSorted(SortByTime(messages), before);
    CutSorted(filtered, start);
  }

  /** How big a page is and what it reports: `max(1, limit)` messages or
      all eligible ones, `hasMore` exactly when some are left behind, the
      cursor the time of the page's oldest message, and the total count. */
  lemma PageCounts(id: string, messages: seq<Message>, before: Option<int>, limit: int)
    ensures var p := BuildPage(id, messages, before, limit);
      && (forall y :: y in p.messages ==> y in messages && (before.None? || y.createdAt < before.value))
      && |p.messages| == Min(EffectiveLimit(limit), |FilterBefore(messages, before)|)
      && (p.hasMore <==> |FilterBefore(messages, before)| > EffectiveLimit(limit))
      && p.nextCursor == (if p.hasMore then Some(p.messages[0].createdAt) else None)
      && p.total == |messages|
      && p.conversationId == id
  {
    var filtered := Eligible(messages, before);
    PageParts(id, messages, before, limit);
    EligibleFromMessages(messages, before);
    forall y | y in filtered[PageStart(|filtered|, limit)..] ensures y in filtered { }
  }

  /** Sorting then filtering keeps as many messages as filtering alone,
      all of them from the conversation. */
  lemma EligibleFromMessages(messages: seq<Message>, before: Option<int>)
    ensures |Eligible(messages, before)| == |FilterBefore(messages, before)|
    ensures forall y :: y in Eligible(messages, before) ==> y in messages
  {
    var sorted := SortByTime(messages);
    var filtered := FilterBefore(sorted, before);
    FilterSort(messages, before);
    assert |filtered| == |multiset(filtered)| == |multiset(FilterBefore(messages, before))|;
    forall y | y in filtered ensures y in messages {
      assert y in multiset(sorted);
    }
  }

  /** An empty conversation has an empty first page, no more, and no cursor. */
  lemma EmptyConversationPage(id: string, before: Option<int>, limit: int)
    ensures BuildPage(id, [], before, limit) == MessagesPage(id, [], 0, false, None)
  {
    PageParts(id, [], before, limit);
  }

  /** The worked example: three messages, pages of two. */
  lemma TwoPagesOfThree(s: seq<Message>)
    requires |s| == 3 && StrictlyIncreasing(s)
    ensures BuildPage("c", s, None, 2) == MessagesPage("c", s[1..], 3, true, Some(s[1].createdAt))
    ensures BuildPage("c", s, Some(s[1].createdAt), 2) == MessagesPage("c", s[..1], 3, false, None)
  {
    SortSorted(s);
    PageParts("c", s, None, 2);
    PageParts("c", s, Some(s[1].createdAt), 2);
    FilterAtIndex(s, 1);
  }

  /** Follows the cursor from `before` to the oldest page of the time-sorted
      messages `sorted`, concatenating the pages oldest first: what a client
      sees after loading everything. */
  function AllPages(sorted: seq<Message>, before: Option<int>, limit: int): (r: seq<Message>)
    requires SortedByTime(sorted)
    decreases |FilterBefore(sorted, before)|
  {
    var p := PageOf("", sorted, before, limit);
    if p.hasMore then
      PagingShrinks(sorted, before, limit);
      AllPages(sorted, p.nextCursor, limit) + p.messages
    else p.messages
  }

  /** Each cursor step leaves fewer eligible messages, so paging ends. */
  lemma PagingShrinks(sorted: seq<Message>, before: Option<int>, limit: int)
    requires SortedByTime(sorted)
    requires PageOf("", sorted, before, limit).hasMore
    ensures |FilterBefore(sorted, PageOf("", sorted, before, limit).nextCursor)| < |FilterBefore(sorted, before)|
  {
    var filtered := FilterBefore(sorted, before);
    SortedPageParts("", sorted, before, limit);
    var start := PageStart(|filtered|, limit);
    FilterIsPrefix(sorted, before);
    assert filtered[start] == sorted[start];
    FilterLength(sorted, sorted[start].createdAt, start);
  }

  /** The next cursor selects exactly the messages the page left behind. */
  lemma NextPageIsPrefix(sorted: seq<Message>, before: Option<int>, limit: int)
    requires StrictlyIncreasing(sorted)
    requires PageOf("", sorted, before, limit).hasMore
    ensures var e := FilterBefore(sorted, before);
      FilterBefore(sorted, PageOf("", sorted, before, limit).nextCursor) == e[..PageStart(|e|, limit)]
  {
    var filtered := FilterBefore(sorted, before);
    SortedPageParts("", sorted, before, limit);
    var start := PageStart(|filtered|, limit);
    FilterIsPrefix(sorted, before);
    assert filtered[start] == sorted[start];
    FilterAtIndex(sorted, start);
  }

  /** One step of the paging, as `AllPages` defines it. */
  lemma AllPagesUnfold(sorted: seq<Message>, before: Option<int>, limit: int)
    requires SortedByTime(sorted)
    ensures var p := PageOf("", sorted, before, limit);
      AllPages(sorted, before, limit)
      == if p.hasMore then AllPages(sorted, p.nextCursor, limit) + p.messages else p.messages
  {
  }

  /** The page of a strictly increasing list and its cursor `next`, which
      selects exactly the messages the page left behind. */
  lemma PagingNext(sorted: seq<Message>, before: Option<int>, limit: int) returns (next: Option<int>)
    requires StrictlyIncreasing(sorted)
    ensures var e := FilterBefore(sorted, before);
      var start := PageStart(|e|, limit);
      var p := PageOf("", sorted, before, limit);
      && start <= |e|
      && p.nextCursor == next
      && (p.hasMore <==> start > 0)
      && p.messages == e[start..]
      && (start > 0 ==> FilterBefore(sorted, next) + e[start..] == e)
      && (start > 0 ==> |FilterBefore(sorted, next)| < |e|)
  {
    var e := FilterBefore(sorted, before);
    var start := PageStart(|e|, limit);
    SortedPageParts("", sorted, before, limit);
    next := PageOf("", sorted, before, limit).nextCursor;
    if start > 0 {
      PagingShrinks(sorted, before, limit);
      NextPageIsPrefix(sorted, before, limit);
      TakeDrop(e, start);
    }
  }

  /** With distinct timestamps, following `nextCursor` until `hasMore` is
      false delivers every eligible message exactly once, in time order. */
  lemma {:induction false} PagingFrom(sorted: seq<Message>, before: Option<int>, limit: int)
    requires StrictlyIncreasing(sorted)
    ensures AllPages(sorted, before, limit) == FilterBefore(sorted, before)
    decreases |FilterBefore(sorted, before)|
  {
    var e := FilterBefore(sorted, before);
    var start := PageStart(|e|, limit);
    var next := PagingNext(sorted, before, limit);
    AllPagesUnfold(sorted, before, limit);
    if start > 0 {
      PagingFrom(sorted, next, limit);
    }
  }

  /** Paging a conversation with distinct timestamps from its newest page
      reproduces all its messages in time order. */
  lemma PagingCoversConversation(messages: seq<Message>, limit: int)
    requires DistinctTimes(messages)
    ensures AllPages(SortByTime(messages), None, limit) == SortByTime(messages)
  {
    SortStrict(messages);
    PagingFrom(SortByTime(messages), None, limit);
  }

  /** Without distinct timestamps the cursor can skip a message: of two
      messages stamped alike, pages of one deliver only the second. */
  lemma EqualTimesLoseAMessage(a: Message, b: Message)
    requires a.createdAt == b.createdAt && a != b
    ensures SortByTime([a, b]) == [a, b]
    ensures AllPages([a, b], None, 1) == [b]
  {
    var s := [a, b];
    SortSorted(s);
    SortedPageParts("", s, None, 1);
    assert s[1..] == [b];
    FilterAllLate(s, b.createdAt);
    SortedPageParts("", s, Some(b.createdAt), 1);
  }

  // ---------------------------------------------------------------------
  // Conversation summaries and listing

  datatype Summary = Summary(id: string, createdAt: int, updatedAt: int, messagesCount: nat,
                             lastMessage: Option<Message>)

  /** `buildConversationSummary`, and the mapping inside `listConversations`. */
  function BuildConversationSummary(c: Conversation): (r: Summary) {
    Summary(c.id, c.createdAt, c.updatedAt, |c.messages|,
            if c.messages == [] then None else Some(c.messages[|c.messages| - 1]))
  }

  /** A summary counts the messages and shows the newest one, if any; after
      `addMessage` it counts one more and shows the message just added. */
  lemma SummaryProperties(c: Conversation, store: Store, role: Role, content: string, now: int)
    ensures BuildConversationSummary(c).messagesCount == |c.messages|
    ensures BuildConversationSummary(c).lastMessage.None? <==> c.messages == []
    ensures c.messages != [] ==> BuildConversationSummary(c).lastMessage == Some(c.messages[|c.messages| - 1])
    ensures AddMessage(store, c.id, role, content, now).Ok? ==>
      var after := BuildConversationSummary(AddMessage(store, c.id, role, content, now).value[c.id]);
      && after.messagesCount == |store[c.id].messages| + 1
      && after.lastMessage == Some(Message(role, Trim(content), now))
      && after.updatedAt == now
  {
  }

  /** `Math.min(Math.max(limit, 1), 100)`. */
  function ClampListLimit(limit: int): (r: int)
    ensures 1 <= r <= 100
    ensures 1 <= limit <= 100 ==> r == limit
    ensures limit < 1 ==> r == 1
    ensures limit > 100 ==> r == 100
  {
    Min(Max(limit, 1), 100)
  }

  function Summaries(cs: seq<Conversation>): (r: seq<Summary>)
    ensures |r| == |cs|
    ensures forall i :: 0 <= i < |cs| ==> r[i] == BuildConversationSummary(cs[i])
  {
    if cs == [] then [] else [BuildConversationSummary(cs[0])] + Summaries(cs[1..])
  }

  /** `listConversations`, given the collection ordered by recency: the
      first `ClampListLimit(limit)` conversations, summarised. */
  function ListConversations(byRecency: seq<Conversation>, limit: int): (r: seq<Summary>)
    ensures |r| == Min(ClampListLimit(limit), |byRecency|)
    ensures forall i :: 0 <= i < |r| ==> r[i] == BuildConversationSummary(byRecency[i])
  {
    Summaries(byRecency[..Min(ClampListLimit(limit), |byRecency|)])
  }

  // ---------------------------------------------------------------------
  // The simulated streaming run

  const Template: string := "Simulated assistant reply for your message. Streaming tokens one by one."

  /** `buildSimulatedResponse`. */
  function BuildSimulatedResponse(userInput: string): (r: string) {
    Template + " Detail: " + userInput
  }

  /** The reply's space-separated pieces end with the pieces of the user's input. */
  lemma SimulatedTokens(userInput: string)
    ensures SplitOnSpace(BuildSimulatedResponse(userInput))
         == SplitOnSpace(Template + " Detail:") + SplitOnSpace(userInput)
  {
    assert BuildSimulatedResponse(userInput) == (Template + " Detail:") + " " + userInput;
    SplitAtSpace(Template + " Detail:", userInput);
  }

  /** An event the run hands to the broadcaster for its conversation. */
  datatype StreamEvent = TokenSent(token: string) | DoneSent | ErrorSent(message: string)

  /** A rejection at the `step`-th await of a run: the pacing delay after
      token `step`, or the store write when `step` is past the last token.
      `error` is the message of a thrown `Error`, `None` for anything else. */
  datatype Fault = Fault(step: nat, error: Option<string>)

  datatype RunOutcome = Completed | Rethrown(message: string)

  /** The message the run reports for a caught value. */
  function ThrownMessage(error: Option<string>): (r: string) {
    match error
    case Some(m) => m
    case None => "Streaming failed"
  }

  /** The chunks `piece + " "`, concatenated. */
  function Assembled(pieces: seq<string>): (r: string) {
    if pieces == [] then "" else pieces[0] + " " + Assembled(pieces[1..])
  }

  function TokenEvents(pieces: seq<string>): (r: seq<StreamEvent>)
    ensures |r| == |pieces|
    ensures forall i :: 0 <= i < |pieces| ==> r[i] == TokenSent(pieces[i] + " ")
  {
    if pieces == [] then [] else [TokenSent(pieces[0] + " ")] + TokenEvents(pieces[1..])
  }

  /** The text of the token events, concatenated. */
  function TokenText(events: seq<StreamEvent>): (r: string) {
    if events == [] then ""
    else (if events[0].TokenSent? then events[0].token else "") + TokenText(events[1..])
  }

  lemma {:induction false} AssembledSnoc(pieces: seq<string>, p: string)
    ensures Assembled(pieces + [p]) == Assembled(pieces) + (p + " ")
    ensures TokenEvents(pieces + [p]) == TokenEvents(pieces) + [TokenSent(p + " ")]
  {
    if pieces != [] {
      assert (pieces + [p])[1..] == pieces[1..] + [p];
      AssembledSnoc(pieces[1..], p);
    } else {
      assert [] + [p] == [p];
    }
  }

  lemma {:induction false} TokenTextOf(pieces: seq<string>, tail: seq<StreamEvent>)
    requires forall i :: 0 <= i < |tail| ==> !tail[i].TokenSent?
    ensures TokenText(TokenEvents(pieces) + tail) == Assembled(pieces)
  {
    if pieces != [] {
      assert (TokenEvents(pieces) + tail)[1..] == TokenEvents(pieces[1..]) + tail;
      TokenTextOf(pieces[1..], tail);
    } else {
      assert TokenEvents(pieces) + tail == tail;
      NoTokenText(tail);
    }
  }

  lemma {:induction false} NoTokenText(events: seq<StreamEvent>)
    requires forall i :: 0 <= i < |events| ==> !events[i].TokenSent?
    ensures TokenText(events) == ""
  {
    if events != [] {
      NoTokenText(events[1..]);
    }
  }

  /** The chunks of a split put the text back together, with one trailing space. */
  lemma {:induction false} AssembledIsJoin(pieces: seq<string>)
    requires |pieces| >= 1
    ensures Assembled(pieces) == JoinWithSpace(pieces) + " "
  {
    if |pieces| > 1 {
      AssembledIsJoin(pieces[1..]);
    }
  }

  /** The persisted text of a run is the generated reply, trimmed. */
  lemma PersistedText(s: string)
    ensures Trim(Assembled(SplitOnSpace(s))) == Trim(s)
  {
    AssembledIsJoin(SplitOnSpace(s));
    JoinSplit(s);
    TrimAppendWhitespace(s, ' ');
  }

  /** How many token events go out before the run stops. */
  function TokensBeforeStop(fault: Option<Fault>, n: nat): (r: nat) {
    if fault.Some? && fault.value.step < n then fault.value.step + 1 else n
  }

  lemma TakeSnoc<T>(s: seq<T>, i: nat)
    requires i < |s|
    ensures s[..i + 1] == s[..i] + [s[i]]
  {
  }

  /** The body of `streamAssistantResponse` for the generated text `reply`:
      each piece of the reply goes out as `piece + " "` in order; then the
      trimmed text is appended as an assistant message and `done` goes out
      last. If an await rejects, or the conversation is gone, exactly one
      `error` event follows the tokens sent so far, nothing is stored, and
      the error is rethrown. */
  method StreamReply(store: Store, conversationId: string, reply: string, now: int, fault: Option<Fault>)
    returns (events: seq<StreamEvent>, updated: Store, outcome: RunOutcome)
    ensures outcome.Completed? <==> fault.None? && conversationId in store
    ensures outcome.Completed? ==> events == TokenEvents(SplitOnSpace(reply)) + [DoneSent]
    ensures outcome.Completed? ==> AddMessage(store, conversationId, Assistant, Trim(reply), now) == Ok(updated)
    ensures outcome.Completed? ==>
      updated[conversationId].messages == store[conversationId].messages + [Message(Assistant, Trim(reply), now)]
    ensures outcome.Completed? ==> Trim(TokenText(events)) == Trim(reply)
    ensures outcome.Rethrown? ==> updated == store
    ensures outcome.Rethrown? ==>
      events == TokenEvents(SplitOnSpace(reply)[..TokensBeforeStop(fault, |SplitOnSpace(reply)|)]) + [ErrorSent(outcome.message)]
    ensures outcome.Rethrown? ==>
      outcome.message == (if fault.Some? then ThrownMessage(fault.value.error) else NotFound.message)
  {
    var tokens := SplitOnSpace(reply);
    var assembled := "";
    events := [];
    var i := 0;
    while i < |tokens|
      invariant 0 <= i <= |tokens|
      invariant assembled == Assembled(tokens[..i])
      invariant events == TokenEvents(tokens[..i])
      invariant fault.Some? ==> fault.value.step >= i
    {
      var chunk := tokens[i] + " ";
      AssembledSnoc(tokens[..i], tokens[i]);
      TakeSnoc(tokens, i);
      assembled := assembled + chunk;
      events := events + [TokenSent(chunk)];
      // await delay(120)
      if fault.Some? && fault.value.step == i {
        var message := ThrownMessage(fault.value.error);
        events := events + [ErrorSent(message)];
        return events, store, Rethrown(message);
      }
      i := i + 1;
    }
    assert tokens[..i] == tokens;
    var finalMessage := Trim(assembled);
    // await this.addMessage(...)
    if fault.Some? {
      var message := ThrownMessage(fault.value.error);
      events := events + [ErrorSent(message)];
      return events, store, Rethrown(message);
    }
    PersistedText(reply);
    TrimIdempotent(reply);
    match AddMessage(store, conversationId, Assistant, finalMessage, now)
    case Err(e) =>
      events := events + [ErrorSent(e.message)];
      return events, store, Rethrown(e.message);
    case Ok(s) =>
      events := events + [DoneSent];
      TokenTextOf(tokens, [DoneSent]);
      return events, s, Completed;
  }

  /** `streamAssistantResponse` on the simulated path, for one conversation:
      the pieces of `buildSimulatedResponse(userInput)` stream out, then the
      reply is stored and `done` follows; on a rejection or a missing
      conversation, one `error` follows the tokens sent so far and nothing
      is stored. */
  method StreamAssistantResponse(store: Store, conversationId: string, userInput: string, now: int,
                                 fault: Option<Fault>)
    returns (events: seq<StreamEvent>, updated: Store, outcome: RunOutcome)
    ensures outcome.Completed? <==> fault.None? && conversationId in store
    ensures outcome.Completed? ==>
      events == TokenEvents(SplitOnSpace(BuildSimulatedResponse(userInput))) + [DoneSent]
    ensures outcome.Completed? ==>
      AddMessage(store, conversationId, Assistant, Trim(BuildSimulatedResponse(userInput)), now) == Ok(updated)
    ensures outcome.Completed? ==> Trim(TokenText(events)) == Trim(BuildSimulatedResponse(userInput))
    ensures outcome.Rethrown? ==> updated == store
    ensures outcome.Rethrown? ==>
      var tokens := SplitOnSpace(BuildSimulatedResponse(userInput));
      events == TokenEvents(tokens[..TokensBeforeStop(fault, |tokens|)]) + [ErrorSent(outcome.message)]
    ensures outcome.Rethrown? ==>
      outcome.message == (if fault.Some? then ThrownMessage(fault.value.error) else NotFound.message)
  {
    events, updated, outcome := StreamReply(store, conversationId, BuildSimulatedResponse(userInput), now, fault);
  }
}
