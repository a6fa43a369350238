/** The client's connection-status state machine for one conversation
    stream (the `useSSE` hook), without React: the hook's state and ref are
    fields, the effect is a method that runs when its dependencies change,
    and each `EventSource` the effect opens is a numbered stream. */
module SseSession {
  import opened Text

  datatype Status = Idle | Connecting | Open | Closed | Error

  /** The effect's dependency list `[conversationId, reconnectKey, options?.enabled]`;
      `enabled` is `None` when the option is not given. */
  datatype Deps = Deps(conversationId: Option<string>, reconnectKey: nat, enabled: Option<bool>)

  /** The index of an `EventSource` among all the streams the hook has opened. */
  type StreamId = nat

  /** `!conversationId || options?.enabled === false`. */
  predicate Disabled(conversationId: Option<string>, enabled: Option<bool>) {
    conversationId == None || conversationId == Some("") || enabled == Some(false)
  }

  class Session {
    var status: Status
    var error: Option<string>
    var reconnectKey: nat
    /** `closeRef.current`: the close handle of the stream the hook holds. */
    var closeRef: Option<StreamId>
    /** The cleanup the last effect run returned, which closes its stream. */
    var cleanup: Option<StreamId>
    /** The conversation each stream opened so far subscribes to. */
    var streams: seq<string>
    /** The streams not yet closed. */
    var live: set<StreamId>
    /** The dependencies of the last effect run; `None` before the first. */
    var lastDeps: Option<Deps>

    /** The live stream, if any, is the one whose handle the hook holds,
        and that handle is also what the pending cleanup closes. */
    ghost predicate Valid()
      reads this
    {
      && (forall s :: s in live ==> s < |streams|)
      && (closeRef.Some? ==> cleanup == closeRef)
      && live == (if closeRef.Some? then {closeRef.value} else {})
    }

    constructor ()
      ensures Valid()
      ensures status == Idle && error == None && reconnectKey == 0
      ensures closeRef == None && cleanup == None && streams == [] && live == {} && lastDeps == None
    {
      status := Idle;
      error := None;
      reconnectKey := 0;
      closeRef := None;
      cleanup := None;
      streams := [];
      live := {};
      lastDeps := None;
    }

    /** The `close` that `openChatStream` returns: the source is closed and the
        hook's `onClose` wrapper sets the status to `closed`. */
    method CloseStream(s: StreamId)
      modifies this`live, this`status
      ensures live == old(live) - {s}
      ensures status == Closed
    {
      live := live - {s};
      status := Closed;
    }

    /** Only one stream can be live at a time. */
    lemma AtMostOneLive()
      requires Valid()
      ensures |live| <= 1
    {
      if closeRef.Some? {
        assert |{closeRef.value}| == 1;
      }
    }

    /** The returned cleanup, `close(); closeRef.current = null`: afterwards
        no stream is live and no handle is held. */
    method RunCleanup()
      requires Valid()
      modifies this`live, this`status, this`closeRef, this`cleanup
      ensures Valid()
      ensures live == {} && closeRef == None && cleanup == None
      ensures status == (if old(cleanup).Some? then Closed else old(status))
    {
      if cleanup.Some? {
        CloseStream(cleanup.value);
        closeRef := None;
        cleanup := None;
      }
    }

    /** The effect body. Disabled, it goes `idle`;
        enabled, it goes `connecting`, clears the error and opens a new
        stream for the conversation, keeping its close handle. */
    method RunEffect(conversationId: Option<string>, enabled: Option<bool>)
      requires Valid() && live == {} && cleanup == None
      modifies this`live, this`status, this`error, this`closeRef, this`cleanup, this`streams
      ensures Valid()
      ensures Disabled(conversationId, enabled) ==>
        status == Idle && error == old(error) && closeRef == None && cleanup == None
        && streams == old(streams) && live == {}
      ensures !Disabled(conversationId, enabled) ==>
        status == Connecting && error == None && streams == old(streams) + [conversationId.value]
        && live == {|old(streams)|} && closeRef == Some(|old(streams)|) && cleanup == closeRef
    {
      if Disabled(conversationId, enabled) {
        // `if (closeRef.current)`: never taken here, as the cleanup that
        // ran before this body has already cleared the handle.
        status := Idle;
        return;
      }
      status := Connecting;
      error := None;
      var s := |streams|;
      streams := streams + [conversationId.value];
      live := live + {s};
      closeRef := Some(s);
      cleanup := Some(s);
    }

    /** A render with the given dependencies. When they differ from the last
        effect run's, the previous cleanup closes the previous stream and the
        effect body runs; otherwise nothing happens. At most one stream is
        ever live. */
    method Render(conversationId: Option<string>, enabled: Option<bool>)
      requires Valid()
      modifies this
      ensures Valid()
      ensures |live| <= 1
      ensures reconnectKey == old(reconnectKey)
      ensures lastDeps == Some(Deps(conversationId, reconnectKey, enabled))
      ensures old(lastDeps) == Some(Deps(conversationId, reconnectKey, enabled)) ==> unchanged(this)
      ensures old(lastDeps) != Some(Deps(conversationId, reconnectKey, enabled)) && Disabled(conversationId, enabled) ==>
        status == Idle && error == old(error) && closeRef == None && cleanup == None
        && streams == old(streams) && live == {}
      ensures old(lastDeps) != Some(Deps(conversationId, reconnectKey, enabled)) && !Disabled(conversationId, enabled) ==>
        status == Connecting && error == None && streams == old(streams) + [conversationId.value]
        && live == {|old(streams)|} && closeRef == Some(|old(streams)|) && cleanup == closeRef
    {
      var deps := Deps(conversationId, reconnectKey, enabled);
      if lastDeps == Some(deps) {
        AtMostOneLive();
        return;
      }
      RunCleanup();
      RunEffect(conversationId, enabled);
      lastDeps := Some(deps);
      AtMostOneLive();
    }

    /** The stream's `open` event: `open`, if the stream is still live. */
    method OnOpen(s: StreamId)
      requires Valid()
      modifies this`status
      ensures Valid()
      ensures status == if s in live then Open else old(status)
    {
      if s in live {
        status := Open;
      }
    }

    /** The stream's `error` event with message `m`: `error`, recording `m`. */
    method OnError(s: StreamId, m: string)
      requires Valid()
      modifies this`status, this`error
      ensures Valid()
      ensures status == (if s in live then Error else old(status))
      ensures error == (if s in live then Some(m) else old(error))
    {
      if s in live {
        status := Error;
        error := Some(m);
      }
    }

    /** `reconnect`: bumps the key, so the next render re-runs the effect. */
    method Reconnect()
      requires Valid()
      modifies this`reconnectKey
      ensures Valid()
      ensures reconnectKey == old(reconnectKey) + 1
    {
      reconnectKey := reconnectKey + 1;
    }

    /** `disconnect`: without a held stream nothing happens; otherwise the
        stream is closed, the handle dropped, and the status is `closed`. */
    method Disconnect()
      requires Valid()
      modifies this`closeRef, this`live, this`status
      ensures Valid()
      ensures closeRef == None && live == {}
      ensures status == (if old(closeRef).Some? then Closed else old(status))
    {
      if closeRef.Some? {
        CloseStream(closeRef.value);
        closeRef := None;
        status := Closed;
      }
    }

    /** Unmounting runs the last cleanup, if any: no stream is left live. */
    method Unmount()
      requires Valid()
      modifies this`live, this`status, this`closeRef, this`cleanup
      ensures Valid()
      ensures live == {} && closeRef == None && cleanup == None
      ensures status == (if old(cleanup).Some? then Closed else old(status))
    {
      RunCleanup();
    }
  }
}
