/** The server's subscriber registry and broadcaster: a map from topic (a
    conversation id, or the sentinel "conversations") to the set of live
    event-stream responses, and the typed `emit*` operations over it. */
module SseService {
  import opened Text
  import opened Wire

  type Topic = string

  /** The topic that receives `conversation` events for every new conversation. */
  const ConversationsTopic: Topic := "conversations"

  /** An HTTP response held open as an event stream. */
  class Client {
    /** `writableEnded || writableFinished`: the response has been ended. */
    var ended: bool
    /** Whether `write` on this response throws. */
    var failing: bool
    /** What has been written to the response, one entry per `write`. */
    var outbox: seq<string>

    constructor (ended: bool, failing: bool)
      ensures this.ended == ended && this.failing == failing && outbox == []
    {
      this.ended := ended;
      this.failing := failing;
      outbox := [];
    }
  }

  /** The clients of `s` that a broadcast drops: ended, or whose write throws. */
  function DeadOf(s: set<Client>): (r: set<Client>)
    reads s
  {
    set c | c in s && (c.ended || c.failing)
  }

  /** The registry after the clients `gone` leave topic `t`: the topic keeps
      its remaining clients, or loses its entry once none remain. */
  function Without(m: map<Topic, set<Client>>, t: Topic, gone: set<Client>): (r: map<Topic, set<Client>>) {
    if t !in m then m
    else if m[t] - gone == {} then m - {t}
    else m[t := m[t] - gone]
  }

  ghost predicate NoEmptyTopic(m: map<Topic, set<Client>>) {
    forall t :: t in m ==> m[t] != {}
  }

  /** Removing clients touches only topic `t`, keeps every topic non-empty,
      and is a no-op when none of `gone` is subscribed to `t`. */
  lemma WithoutProperties(m: map<Topic, set<Client>>, t: Topic, gone: set<Client>)
    ensures forall u :: u != t ==> (u in Without(m, t, gone) <==> u in m)
    ensures forall u :: u != t && u in m ==> Without(m, t, gone)[u] == m[u]
    ensures t in Without(m, t, gone) <==> t in m && m[t] - gone != {}
    ensures t in Without(m, t, gone) ==> Without(m, t, gone)[t] == m[t] - gone
    ensures NoEmptyTopic(m) ==> NoEmptyTopic(Without(m, t, gone))
    ensures NoEmptyTopic(m) && (t !in m || m[t] !! gone) ==> Without(m, t, gone) == m
  {
    if NoEmptyTopic(m) && t in m && m[t] !! gone {
      assert m[t] - gone == m[t];
    }
  }

  lemma WithoutTwice(m: map<Topic, set<Client>>, t: Topic, a: set<Client>, b: set<Client>)
    ensures Without(Without(m, t, a), t, b) == Without(m, t, a + b)
  {
    if t in m {
      assert m[t] - a - b == m[t] - (a + b);
    }
  }

  class Registry {
    var clients: map<Topic, set<Client>>

    /** No topic is kept with an empty client set. */
    ghost predicate Valid()
      reads this
    {
      NoEmptyTopic(clients)
    }

    constructor ()
      ensures Valid() && clients == map[]
    {
      clients := map[];
    }

    function Subscribers(t: Topic): (r: set<Client>)
      reads this
    {
      if t in clients then clients[t] else {}
    }

    /** Attaches `c` to `t` after writing the comment line `: connected to t`.
        On a response that has already ended, setting the stream headers
        throws, and a greeting whose write throws leaves `addClient` too;
        either way `c` is not attached. */
    method AddClient(t: Topic, c: Client) returns (threw: bool)
      requires Valid()
      modifies this`clients, c`outbox
      ensures Valid()
      ensures threw == (c.ended || c.failing)
      ensures threw ==> clients == old(clients) && c.outbox == old(c.outbox)
      ensures !threw ==> clients == old(clients)[t := old(Subscribers(t)) + {c}]
      ensures !threw ==> c.outbox == old(c.outbox) + [Render(Comment(" connected to " + t))]
      ensures !threw ==> c in Subscribers(t)
      ensures !threw ==> |Subscribers(t)| == |old(Subscribers(t))| + (if c in old(Subscribers(t)) then 0 else 1)
    {
      if c.ended || c.failing {
        return true;
      }
      c.outbox := c.outbox + [Render(Comment(" connected to " + t))];
      var existing := if t in clients then clients[t] else {};
      clients := clients[t := existing + {c}];
      threw := false;
    }

    /** Detaches `c` from `t`; the topic's entry goes once its set is empty. */
    method RemoveClient(t: Topic, c: Client)
      requires Valid()
      modifies this`clients
      ensures Valid()
      ensures clients == Without(old(clients), t, {c})
    {
      WithoutProperties(clients, t, {c});
      if t !in clients {
        return;
      }
      var rest := clients[t] - {c};
      if rest == {} {
        clients := clients - {t};
      } else {
        clients := clients[t := rest];
      }
    }

    /** The effect of one broadcast of `frame` to `t`, whose subscribers were `subs`: every subscriber that
        had not ended and whose write does not throw received exactly that
        frame; the others received nothing and were detached from `t`. */
    twostate predicate Delivered(t: Topic, subs: set<Client>, frame: string)
      requires subs == old(Subscribers(t))
      reads this, subs
    {
      && clients == Without(old(clients), t, old(DeadOf(subs)))
      && forall c :: c in subs ==>
           c.outbox == old(c.outbox) + (if old(c.ended) || old(c.failing) then [] else [frame])
    }

    /** Writes `event: E\ndata: P\n\n` to every live client of `t`; ended
        clients and clients whose write throws are removed in the same pass,
        and nothing is thrown to the caller. */
    method Broadcast(t: Topic, event: string, payload: string)
      requires Valid()
      modifies this`clients, Subscribers(t)`outbox
      ensures Valid()
      ensures Delivered(t, old(Subscribers(t)), Render(Event(event, payload)))
    {
      WithoutProperties(clients, t, {});
      if t !in clients || clients[t] == {} {
        return;
      }
      var data := Render(Event(event, payload));
      ghost var subs := clients[t];
      ghost var dead := DeadOf(subs);
      ghost var start := clients;
      var todo := clients[t];
      assert dead * (subs - todo) == {};
      while todo != {}
        invariant todo <= subs
        invariant Valid()
        invariant forall c :: c in subs ==> (c in dead <==> c.ended || c.failing)
        invariant clients == Without(start, t, dead * (subs - todo))
        invariant forall c :: c in subs - todo ==>
          c.outbox == old(c.outbox) + (if c.ended || c.failing then [] else [data])
        invariant forall c :: c in todo ==> c.outbox == old(c.outbox)
        decreases todo
      {
        var c :| c in todo;
        ghost var done := dead * (subs - todo);
        assert dead * (subs - (todo - {c})) == done + (if c in dead then {c} else {});
        if c.ended {
          RemoveClient(t, c);
          WithoutTwice(start, t, done, {c});
        } else if c.failing {
          // `write` throws: the client is removed and the loop goes on.
          RemoveClient(t, c);
          WithoutTwice(start, t, done, {c});
        } else {
          c.outbox := c.outbox + [data];
          assert done + {} == done;
        }
        todo := todo - {c};
      }
      assert dead * (subs - todo) == dead;
    }

    /** `emitToken`: a `token` event carrying `{token}` on the conversation's own topic. */
    method EmitToken(conversationId: Topic, token: string)
      requires Valid()
      modifies this`clients, Subscribers(conversationId)`outbox
      ensures Valid()
      ensures Delivered(conversationId, old(Subscribers(conversationId)), Render(Event("token", TokenPayload(token))))
    {
      Broadcast(conversationId, "token", TokenPayload(token));
    }

    /** `emitDone`: a `done` event carrying `{status: "completed"}`. */
    method EmitDone(conversationId: Topic)
      requires Valid()
      modifies this`clients, Subscribers(conversationId)`outbox
      ensures Valid()
      ensures Delivered(conversationId, old(Subscribers(conversationId)), Render(Event("done", DonePayload())))
    {
      Broadcast(conversationId, "done", DonePayload());
    }

    /** `emitError`: an `error` event carrying `{message}`. */
    method EmitError(conversationId: Topic, message: string)
      requires Valid()
      modifies this`clients, Subscribers(conversationId)`outbox
      ensures Valid()
      ensures Delivered(conversationId, old(Subscribers(conversationId)), Render(Event("error", ErrorPayload(message))))
    {
      Broadcast(conversationId, "error", ErrorPayload(message));
    }

    /** `emitConversationCreated`: a `conversation` event on the sentinel topic only. */
    method EmitConversationCreated(summaryJson: string)
      requires Valid()
      modifies this`clients, Subscribers(ConversationsTopic)`outbox
      ensures Valid()
      ensures Delivered(ConversationsTopic, old(Subscribers(ConversationsTopic)), Render(Event("conversation", CreatedPayload(summaryJson))))
    {
      Broadcast(ConversationsTopic, "conversation", CreatedPayload(summaryJson));
    }
  }

  /** What an `EventSource` makes of an emitted token frame: one `token`
      event whose data holds exactly the token. Likewise for `error`. */
  lemma EmittedFramesReadBack(l: seq<Dispatched>, text: string)
    ensures Feed(Idle(l), Render(Event("token", TokenPayload(text))))
         == Idle(l + [Dispatched("token", TokenPayload(text))])
    ensures Feed(Idle(l), Render(Event("error", ErrorPayload(text))))
         == Idle(l + [Dispatched("error", ErrorPayload(text))])
    ensures Feed(Idle(l), Render(Event("done", DonePayload())))
         == Idle(l + [Dispatched("done", DonePayload())])
    ensures StringMember("token", TokenPayload(text)) == Some(text)
    ensures StringMember("message", ErrorPayload(text)) == Some(text)
  {
    PayloadRoundTrip(text);
    FeedFrame(l, Event("token", TokenPayload(text)));
    FeedFrame(l, Event("error", ErrorPayload(text)));
    FeedFrame(l, Event("done", DonePayload()));
  }

  /** The greeting comment dispatches no event. */
  lemma GreetingDispatchesNothing(l: seq<Dispatched>, t: Topic)
    requires NoLineBreak(t)
    ensures Feed(Idle(l), Render(Comment(" connected to " + t))) == Idle(l)
  {
    assert NoLineBreak(" connected to " + t) by {
      assert forall ch :: ch in " connected to " + t ==> ch in " connected to " || ch in t;
    }
    FeedFrame(l, Comment(" connected to " + t));
    assert l + [] == l;
  }
}
