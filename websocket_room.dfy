/**
 * The room page's connection hook (client/src/hooks/useWebSocketRoom.ts):
 * one mounted instance for one room, its refs and state as fields, and the
 * socket and timer callbacks as methods that the environment invokes.
 *
 * The socket is the `readyState` of the latest socket `connectWs` created,
 * with `CLOSED` meaning that its `close` event has been delivered;
 * timers are the set of ids scheduled and neither fired nor cleared, with
 * `reconnectTimeoutRef` holding the last id stored (0 stands for `null`, as
 * browser timer ids are positive). `Math.random() * 300` enters as the
 * integer jitter of `Backoff`.
 */
module WebSocketRoom {
  import opened Wrappers
  import JsText
  import Backoff
  import opened WebSocketApi

  /** `base` in the close handler. */
  const BASE_DELAY_MS: nat := 1000

  /** `ConnectionStatus` of client/src/types.ts, as `wsState` and `onStatus` see it. */
  datatype ConnectionStatus = Connecting | Connected | Disconnected

  /** The one error the hook reports: reconnecting was given up. */
  datatype HookError = RetriesExhausted

  /** What `send` does with a text: transmit a frame, alert, or neither. */
  datatype SendOutcome = Transmitted(frame: string) | AlertedNotConnected | Ignored

  class RoomHook {
    const room: string
    var history: seq<string>
    var loading: bool
    var error: Option<HookError>
    var wsState: ConnectionStatus
    /** The latest socket created, if any. */
    var socket: Option<ReadyState>
    /** Whether `wsRef.current` still refers to that socket. */
    var wsRefHeld: bool
    var reconnectAttempts: nat
    var reconnectTimeoutRef: nat
    var pendingTimers: set<nat>
    var nextTimerId: nat
    /** The delay of the latest reconnect timer scheduled. */
    var timerDelay: nat
    var shouldReconnect: bool

    /** Whether the latest socket can still deliver events. */
    predicate SocketLive()
      reads this
    {
      socket.Some? && socket.value != CLOSED
    }

    ghost predicate Valid()
      reads this
    {
      && nextTimerId >= 1
      && (forall id :: id in pendingTimers ==> id == reconnectTimeoutRef && id > 0)
      && (SocketLive() ==> pendingTimers == {} && reconnectAttempts <= Backoff.MAX_ATTEMPTS)
      && (pendingTimers != {} ==>
            socket == Some(CLOSED) && shouldReconnect && 1 <= reconnectAttempts <= Backoff.MAX_ATTEMPTS)
      && reconnectAttempts <= Backoff.MAX_ATTEMPTS + 1
      && (error.Some? <==> reconnectAttempts > Backoff.MAX_ATTEMPTS)
      && (wsRefHeld ==> socket.Some?)
      && (shouldReconnect && socket == Some(CONNECTING) ==> wsState == Connecting)
      && (shouldReconnect && socket == Some(OPEN) ==> wsState == Connected)
      && (shouldReconnect && socket == Some(CLOSED) ==> wsState == Disconnected)
      && (socket.None? ==> wsState == Disconnected)
    }

    /** The hook's first render followed by its effect, which connects unless `room` is empty. */
    constructor (room: string, initialHistory: seq<string>)
      ensures Valid()
      ensures this.room == room && history == initialHistory && error.None?
      ensures reconnectAttempts == 0 && pendingTimers == {} && shouldReconnect
      ensures room == "" ==> loading && socket.None? && wsState == Disconnected
      ensures room != "" ==> !loading && socket == Some(CONNECTING) && wsRefHeld && wsState == Connecting
    {
      this.room := room;
      history := initialHistory;
      loading := true;
      error := None;
      wsState := Disconnected;
      socket := None;
      wsRefHeld := false;
      reconnectAttempts := 0;
      reconnectTimeoutRef := 0;
      pendingTimers := {};
      nextTimerId := 1;
      timerDelay := 0;
      shouldReconnect := true;
      new;
      if room != "" {
        shouldReconnect := true;
        loading := false;
        ConnectWs();
      }
    }

    /** `connectWs`: open a new socket, unless the hook was torn down. */
    method ConnectWs()
      requires Valid() && !SocketLive() && pendingTimers == {}
      requires reconnectAttempts <= Backoff.MAX_ATTEMPTS
      modifies this
      ensures Valid()
      ensures !old(shouldReconnect) ==> unchanged(this)
      ensures old(shouldReconnect) ==>
                socket == Some(CONNECTING) && wsRefHeld && wsState == Connecting
      ensures old(shouldReconnect) ==>
                history == old(history) && error == old(error) && pendingTimers == {} &&
                reconnectAttempts == old(reconnectAttempts) && shouldReconnect &&
                reconnectTimeoutRef == old(reconnectTimeoutRef) && nextTimerId == old(nextTimerId) &&
                timerDelay == old(timerDelay) && loading == old(loading)
    {
      if !shouldReconnect {
        return;
      }
      wsState := Connecting;
      socket := Some(CONNECTING);
      wsRefHeld := true;
    }

    /** The socket's `open` event. */
    method OnOpen()
      requires Valid() && socket == Some(CONNECTING)
      modifies this
      ensures Valid()
      ensures socket == Some(OPEN) && reconnectAttempts == 0 && error.None? && wsState == Connected
      ensures history == old(history) && pendingTimers == old(pendingTimers) &&
              shouldReconnect == old(shouldReconnect) && wsRefHeld == old(wsRefHeld) &&
              reconnectTimeoutRef == old(reconnectTimeoutRef) && nextTimerId == old(nextTimerId) &&
              timerDelay == old(timerDelay) && loading == old(loading)
    {
      socket := Some(OPEN);
      reconnectAttempts := 0;
      error := None;
      wsState := Connected;
    }

    /** The socket's `message` event: the text is appended verbatim to the history. */
    method OnMessage(data: string)
      requires Valid() && socket == Some(OPEN)
      modifies this`history
      ensures Valid()
      ensures history == old(history) + [data]
    {
      history := history + [data];
    }

    /** The socket's `error` event, which only closes the socket. */
    method OnError()
      requires Valid() && SocketLive()
      modifies this`socket
      ensures Valid()
      ensures socket == Some(AfterClose(old(socket.value)))
    {
      socket := Some(AfterClose(socket.value));
    }

    /**
     * The socket's `close` event: after teardown it changes nothing else;
     * otherwise the status turns disconnected, the attempt counter grows,
     * and either retries are given up for good (attempts > 10) or exactly
     * one reconnect timer is pending, any earlier one having been cleared.
     */
    method OnClose(jitter: int)
      requires Valid() && SocketLive() && Backoff.ValidJitter(jitter)
      modifies this`socket, this`wsState, this`reconnectAttempts, this`error, this`pendingTimers,
               this`reconnectTimeoutRef, this`nextTimerId, this`timerDelay
      ensures Valid()
      ensures socket == Some(CLOSED)
      ensures history == old(history) && shouldReconnect == old(shouldReconnect) &&
              wsRefHeld == old(wsRefHeld) && loading == old(loading)
      ensures !old(shouldReconnect) ==>
                wsState == old(wsState) && reconnectAttempts == old(reconnectAttempts) &&
                error == old(error) && pendingTimers == {} &&
                reconnectTimeoutRef == old(reconnectTimeoutRef) && timerDelay == old(timerDelay)
      ensures old(shouldReconnect) ==>
                wsState == Disconnected && reconnectAttempts == old(reconnectAttempts) + 1
      ensures old(shouldReconnect) && reconnectAttempts > Backoff.MAX_ATTEMPTS ==>
                error == Some(RetriesExhausted) && pendingTimers == {}
      ensures old(shouldReconnect) && reconnectAttempts <= Backoff.MAX_ATTEMPTS ==>
                error.None? && pendingTimers == {reconnectTimeoutRef} &&
                timerDelay == Backoff.RetryDelay(BASE_DELAY_MS, reconnectAttempts, jitter)
    {
      assert pendingTimers == {};
      socket := Some(CLOSED);
      if !shouldReconnect {
        return;
      }
      wsState := Disconnected;
      reconnectAttempts := reconnectAttempts + 1;
      if reconnectAttempts > Backoff.MAX_ATTEMPTS {
        error := Some(RetriesExhausted);
        return;
      }
      var delay := Backoff.RetryDelay(BASE_DELAY_MS, reconnectAttempts, jitter);
      if reconnectTimeoutRef != 0 {
        pendingTimers := pendingTimers - {reconnectTimeoutRef};
      }
      assert pendingTimers == {};
      reconnectTimeoutRef := nextTimerId;
      nextTimerId := nextTimerId + 1;
      pendingTimers := pendingTimers + {reconnectTimeoutRef};
      assert pendingTimers == {reconnectTimeoutRef};
      timerDelay := delay;
    }

    /** A pending reconnect timer firing: it calls `connectWs`. */
    method TimerFires(id: nat)
      requires Valid() && id in pendingTimers
      modifies this
      ensures Valid()
      ensures pendingTimers == {}
      ensures socket == Some(CONNECTING) && wsRefHeld && wsState == Connecting
      ensures reconnectAttempts == old(reconnectAttempts) && history == old(history) && error == old(error)
      ensures shouldReconnect && loading == old(loading) && reconnectTimeoutRef == old(reconnectTimeoutRef) &&
              nextTimerId == old(nextTimerId) && timerDelay == old(timerDelay)
    {
      pendingTimers := pendingTimers - {id};
      assert pendingTimers == {};
      ConnectWs();
    }

    /**
     * The effect's cleanup: no more reconnects, the pending timer cleared,
     * the socket closed and `wsRef` emptied. Running it again changes nothing.
     */
    method Teardown()
      requires Valid()
      modifies this
      ensures Valid()
      ensures room != "" ==> !shouldReconnect && pendingTimers == {} && !wsRefHeld
      ensures room != "" && old(wsRefHeld) ==> socket == Some(AfterClose(old(socket.value)))
      ensures room != "" && !old(wsRefHeld) ==> socket == old(socket)
      ensures room == "" ==> unchanged(this)
      ensures old(!shouldReconnect && !wsRefHeld) ==> unchanged(this)
      ensures history == old(history) && wsState == old(wsState) && error == old(error) &&
              reconnectAttempts == old(reconnectAttempts) && loading == old(loading)
    {
      if room == "" {
        return;
      }
      shouldReconnect := false;
      if reconnectTimeoutRef != 0 {
        pendingTimers := pendingTimers - {reconnectTimeoutRef};
      }
      if wsRefHeld {
        socket := Some(AfterClose(socket.value));
      }
      wsRefHeld := false;
    }

    /**
     * `send`: whitespace-only text is ignored; otherwise the trimmed text is
     * transmitted if `wsRef` holds an open socket, and the user is alerted
     * if not. Nothing is queued, and the hook's state is not changed.
     */
    method Send(text: string) returns (outcome: SendOutcome)
      ensures outcome == Ignored <==> JsText.AllWhitespace(text)
      ensures outcome.Transmitted? <==>
                !JsText.AllWhitespace(text) && wsRefHeld && socket == Some(OPEN)
      ensures outcome.Transmitted? ==> outcome.frame == JsText.Trim(text) && outcome.frame != ""
      ensures outcome == AlertedNotConnected <==>
                !JsText.AllWhitespace(text) && !(wsRefHeld && socket == Some(OPEN))
    {
      var t := JsText.Trim(text);
      JsText.TrimEmptyIff(text);
      if t == "" {
        return Ignored;
      }
      if wsRefHeld && socket == Some(OPEN) {
        outcome := Transmitted(t);
      } else {
        outcome := AlertedNotConnected;
      }
    }
  }

  /**
   * A mounted hook whose every connection closes before opening: each close
   * raises the shared counter, so after `n` failures the counter is `n`; the
   * first ten schedule a backoff retry and the eleventh gives up for good.
   */
  method ConsecutiveFailures(room: string, jitters: seq<int>) returns (hook: RoomHook)
    requires room != "" && 1 <= |jitters| <= Backoff.MAX_ATTEMPTS + 1
    requires forall i :: 0 <= i < |jitters| ==> Backoff.ValidJitter(jitters[i])
    ensures hook.Valid() && hook.room == room && hook.shouldReconnect
    ensures hook.reconnectAttempts == |jitters| && hook.socket == Some(CLOSED) && hook.wsState == Disconnected
    ensures |jitters| <= Backoff.MAX_ATTEMPTS ==>
              hook.error.None? && hook.pendingTimers == {hook.reconnectTimeoutRef} &&
              hook.timerDelay == Backoff.RetryDelay(BASE_DELAY_MS, |jitters|, jitters[|jitters| - 1])
    ensures |jitters| > Backoff.MAX_ATTEMPTS ==>
              hook.error == Some(RetriesExhausted) && hook.pendingTimers == {}
  {
    hook := new RoomHook(room, []);
    hook.OnClose(jitters[0]);
    var i := 1;
    while i < |jitters|
      invariant 1 <= i <= |jitters|
      invariant hook.Valid() && hook.room == room && hook.shouldReconnect
      invariant hook.reconnectAttempts == i && hook.socket == Some(CLOSED) && hook.wsState == Disconnected
      invariant i <= Backoff.MAX_ATTEMPTS ==>
                  hook.error.None? && hook.pendingTimers == {hook.reconnectTimeoutRef} &&
                  hook.timerDelay == Backoff.RetryDelay(BASE_DELAY_MS, i, jitters[i - 1])
      invariant i > Backoff.MAX_ATTEMPTS ==> hook.error == Some(RetriesExhausted) && hook.pendingTimers == {}
    {
      hook.TimerFires(hook.reconnectTimeoutRef);
      hook.OnClose(jitters[i]);
      i := i + 1;
    }
  }

  /** At most one reconnect timer is ever pending. */
  lemma AtMostOneTimer(hook: RoomHook)
    requires hook.Valid()
    ensures |hook.pendingTimers| <= 1
    ensures hook.pendingTimers != {} ==> hook.pendingTimers == {hook.reconnectTimeoutRef}
  {
    if hook.pendingTimers != {} {
      var id :| id in hook.pendingTimers;
      assert hook.pendingTimers == {hook.reconnectTimeoutRef};
    }
  }

  /**
   * Once retries are exhausted, no socket is live and no timer is pending, so
   * no further event can reach the hook: the terminal error is raised once.
   */
  lemma ExhaustedIsFinal(hook: RoomHook)
    requires hook.Valid() && hook.reconnectAttempts > Backoff.MAX_ATTEMPTS
    ensures !hook.SocketLive() && hook.pendingTimers == {} && hook.error == Some(RetriesExhausted)
  {
    assert hook.error.value.RetriesExhausted?;
  }
}
