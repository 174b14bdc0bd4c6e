/**
 * The stream page's connection logic (stream/script.js): `connectWebSocket`,
 * its socket handlers, the connect button and the `?room=` parameter read at
 * load time.
 *
 * Every call of `connectWebSocket` that opens a socket gets its own
 * `attempts` and `reconnectTimeout`; the model keeps one `Call` record per
 * such call, and the global `ws` is the socket of the latest one. Alerts and
 * the status line are recorded; the rest of the DOM is left out.
 */
module StreamConnection {
  import opened Wrappers
  import JsText
  import Backoff
  import opened WebSocketApi
  import opened StreamRandom
  import opened StreamOverlay

  /** `base` in `onclose`. */
  const BASE_DELAY_MS: nat := 500

  /** The text of the status line. */
  datatype StatusText = Initial | Connecting | Connected | ConnectionClosed | ConnectionError

  /** The alerts the page shows. */
  datatype Alert = ConnectionErrorAlert | EmptyRoomNameAlert

  /**
   * One call of `connectWebSocket` that created a socket: the room it was
   * given, its socket, and its closure's `attempts` and pending
   * `reconnectTimeout` (as the timer's delay).
   */
  datatype Call = Call(room: string, socket: ReadyState, attempts: nat, reconnectTimer: Option<nat>)

  /**
   * What the handlers can make of one call's locals: its socket closes at
   * most once, so its `attempts` never passes 1.
   */
  predicate CallInvariant(c: Call) {
    && c.attempts <= 1
    && (c.socket != CLOSED ==> c.attempts == 0 && c.reconnectTimer.None?)
    && (c.reconnectTimer.Some? ==> c.attempts == 1)
  }

  class StreamPage {
    var calls: seq<Call>
    var status: StatusText
    var alerts: seq<Alert>
    var roomInputDisabled: bool
    var roomInputWarned: bool
    const overlay: Overlay

    ghost predicate Valid()
      reads this, overlay
    {
      && overlay.Valid()
      && forall k :: 0 <= k < |calls| ==> CallInvariant(calls[k])
    }

    /** Whether the global `ws` is open or connecting, which makes `connectWebSocket` return at once. */
    predicate WsBusy()
      reads this
    {
      |calls| > 0 && (calls[|calls| - 1].socket == OPEN || calls[|calls| - 1].socket == CONNECTING)
    }

    /**
     * Loading the script and the page: the overlay and its samplers on a
     * viewport-sized canvas, then a connection when the `room` parameter
     * trims to a non-empty name.
     */
    constructor (viewportWidth: nat, viewportHeight: nat, roomParam: Option<string>)
      ensures Valid() && fresh(overlay) && fresh(overlay.colorRandom) && fresh(overlay.yPosRandom)
      ensures overlay.activeComments == [] && alerts == [] && !roomInputWarned && !roomInputDisabled
      ensures overlay.canvasWidth == viewportWidth && overlay.canvasHeight == viewportHeight
      ensures overlay.colorRandom.lastValue == 0 && overlay.yPosRandom.lastValue == 0
      ensures roomParam.None? || JsText.AllWhitespace(roomParam.value) ==> calls == [] && status == Initial
      ensures roomParam.Some? && !JsText.AllWhitespace(roomParam.value) ==>
                calls == [Call(JsText.Trim(roomParam.value), CONNECTING, 0, None)] && status == Connecting
    {
      calls := [];
      status := Initial;
      alerts := [];
      roomInputDisabled := false;
      roomInputWarned := false;
      overlay := new Overlay(viewportWidth, viewportHeight);
      new;
      if roomParam.Some? && roomParam.value != "" {
        var name := JsText.Trim(roomParam.value);
        JsText.TrimEmptyIff(roomParam.value);
        if name != "" {
          ConnectWebSocket(name);
        }
      }
    }

    /**
     * `connectWebSocket`: nothing while the current socket is open or
     * connecting; otherwise a new socket with fresh closure locals.
     */
    method ConnectWebSocket(room: string)
      requires Valid()
      modifies this`calls, this`status
      ensures Valid()
      ensures old(WsBusy()) ==> calls == old(calls) && status == old(status)
      ensures !old(WsBusy()) ==> calls == old(calls) + [Call(room, CONNECTING, 0, None)] && status == Connecting
    {
      if WsBusy() {
        return;
      }
      calls := calls + [Call(room, CONNECTING, 0, None)];
      status := Connecting;
    }

    /** `onopen` of call `k`'s socket. */
    method OnOpen(k: nat)
      requires Valid() && k < |calls| && calls[k].socket == CONNECTING
      modifies this`calls, this`status, this`roomInputDisabled
      ensures Valid()
      ensures calls == old(calls)[k := old(calls[k]).(socket := OPEN, reconnectTimer := None)]
      ensures status == Connected && roomInputDisabled
    {
      calls := calls[k := calls[k].(socket := OPEN, reconnectTimer := None)];
      status := Connected;
      roomInputDisabled := true;
    }

    /**
     * `onmessage` of call `k`'s socket: a text that trims to nothing is
     * dropped, any other goes, untrimmed, to `addCommentToCanvas`.
     */
    method OnMessage(k: nat, data: string, allowFlow: bool, sliderValue: Option<int>, sliderMin: int,
                     textWidth: real, now: int, rowDraws: seq<real>, colorDraws: seq<real>)
      requires Valid() && k < |calls| && calls[k].socket == OPEN
      requires sliderMin + ROW_PADDING > 0
      requires ValidDraws(rowDraws) && HasFresh(rowDraws, 0, ROW_SAMPLES, overlay.yPosRandom.lastValue)
      requires ValidDraws(colorDraws) &&
               HasFresh(colorDraws, 0, |AVAILABLE_COLORS|, overlay.colorRandom.lastValue)
      modifies overlay`activeComments, overlay.yPosRandom`lastValue, overlay.colorRandom`lastValue
      ensures Valid()
      ensures JsText.AllWhitespace(data) || !allowFlow ==>
                overlay.activeComments == old(overlay.activeComments) &&
                overlay.yPosRandom.lastValue == old(overlay.yPosRandom.lastValue) &&
                overlay.colorRandom.lastValue == old(overlay.colorRandom.lastValue)
      ensures !JsText.AllWhitespace(data) && allowFlow ==>
                |overlay.activeComments| == |old(overlay.activeComments)| + 1 &&
                overlay.activeComments[..|old(overlay.activeComments)|] == old(overlay.activeComments) &&
                0 <= overlay.yPosRandom.lastValue < ROW_SAMPLES &&
                0 <= overlay.colorRandom.lastValue < |AVAILABLE_COLORS|
      ensures !JsText.AllWhitespace(data) && allowFlow ==>
                var c := overlay.activeComments[|overlay.activeComments| - 1];
                var size := FontSize(sliderValue, sliderMin);
                && c.text == data && c.x == overlay.canvasWidth && c.startTime == now
                && c.duration == COMMENT_DURATION_MS && c.width == textWidth && c.fontSize == size
                && c.row == RowIndex(overlay.yPosRandom.lastValue, RowCount(overlay.canvasHeight, size))
                && c.color == AVAILABLE_COLORS[overlay.colorRandom.lastValue]
      ensures !JsText.AllWhitespace(data) && allowFlow ==>
                overlay.yPosRandom.lastValue != old(overlay.yPosRandom.lastValue) &&
                overlay.colorRandom.lastValue != old(overlay.colorRandom.lastValue)
    {
      JsText.TrimEmptyIff(data);
      if data != "" && JsText.Trim(data) != "" {
        overlay.AddComment(data, allowFlow, sliderValue, sliderMin, textWidth, now, rowDraws, colorDraws);
      }
    }

    /**
     * `onclose` of call `k`'s socket: the status shows the connection
     * closed, the call's `attempts` grows, and unless it exceeds 10 a retry
     * is scheduled. A call's socket closes once, so `attempts` is 1 here and
     * a retry after 500 to 800 ms is always scheduled.
     */
    method OnClose(k: nat, jitter: int)
      requires Valid() && k < |calls| && calls[k].socket != CLOSED && Backoff.ValidJitter(jitter)
      modifies this`calls, this`status, this`roomInputDisabled
      ensures Valid()
      ensures |calls| == |old(calls)|
      ensures forall j :: 0 <= j < |calls| && j != k ==> calls[j] == old(calls[j])
      ensures calls[k].room == old(calls[k].room) && calls[k].socket == CLOSED
      ensures calls[k].attempts == old(calls[k].attempts) + 1
      ensures calls[k].reconnectTimer == Backoff.NextRetry(BASE_DELAY_MS, calls[k].attempts, jitter)
      ensures calls[k].attempts == 1
      ensures calls[k].reconnectTimer == Some(Backoff.RetryDelay(BASE_DELAY_MS, 1, jitter))
      ensures status == ConnectionClosed && !roomInputDisabled
    {
      status := ConnectionClosed;
      roomInputDisabled := false;
      var attempts := calls[k].attempts + 1;
      calls := calls[k := calls[k].(socket := CLOSED, attempts := attempts)];
      if attempts > Backoff.MAX_ATTEMPTS {
        return;
      }
      var delay := Backoff.RetryDelay(BASE_DELAY_MS, attempts, jitter);
      calls := calls[k := calls[k].(reconnectTimer := Some(delay))];
    }

    /**
     * `onerror` of call `k`'s socket: the status shows an error, an alert is
     * raised on every error, and the global `ws`, the latest socket, is closed.
     */
    method OnError(k: nat)
      requires Valid() && k < |calls| && calls[k].socket != CLOSED
      modifies this`calls, this`status, this`alerts, this`roomInputDisabled
      ensures Valid()
      ensures status == ConnectionError && alerts == old(alerts) + [ConnectionErrorAlert]
      ensures !roomInputDisabled && |calls| == |old(calls)|
      ensures var last := |old(calls)| - 1;
              calls == old(calls)[last := old(calls[last]).(socket := AfterClose(old(calls[last].socket)))]
    {
      status := ConnectionError;
      alerts := alerts + [ConnectionErrorAlert];
      roomInputDisabled := false;
      var last := |calls| - 1;
      calls := calls[last := calls[last].(socket := AfterClose(calls[last].socket))];
    }

    /** Call `k`'s reconnect timer firing: `connectWebSocket` with that call's room. */
    method TimerFires(k: nat)
      requires Valid() && k < |calls| && calls[k].reconnectTimer.Some?
      modifies this`calls, this`status
      ensures Valid()
      ensures var fired := old(calls)[k := old(calls[k]).(reconnectTimer := None)];
              if old(WsBusy()) then calls == fired && status == old(status)
              else calls == fired + [Call(old(calls[k].room), CONNECTING, 0, None)] && status == Connecting
    {
      calls := calls[k := calls[k].(reconnectTimer := None)];
      ConnectWebSocket(calls[k].room);
    }

    /** The connect button: an empty trimmed name only warns; any other connects to that name. */
    method ConnectClicked(input: string)
      requires Valid()
      modifies this`calls, this`status, this`alerts, this`roomInputWarned
      ensures Valid()
      ensures JsText.AllWhitespace(input) ==>
                roomInputWarned && alerts == old(alerts) + [EmptyRoomNameAlert] &&
                calls == old(calls) && status == old(status)
      ensures !JsText.AllWhitespace(input) ==> !roomInputWarned && alerts == old(alerts)
      ensures !JsText.AllWhitespace(input) && !old(WsBusy()) ==>
                calls == old(calls) + [Call(JsText.Trim(input), CONNECTING, 0, None)] && status == Connecting
      ensures !JsText.AllWhitespace(input) && old(WsBusy()) ==> calls == old(calls) && status == old(status)
    {
      var roomName := JsText.Trim(input);
      JsText.TrimEmptyIff(input);
      if roomName == "" {
        roomInputWarned := true;
        alerts := alerts + [EmptyRoomNameAlert];
        return;
      }
      roomInputWarned := false;
      ConnectWebSocket(roomName);
    }
  }

  // ---------------------------------------------------------------------------
  // The retry cap, as written and as evidently intended

  predicate ValidJitters(jitters: seq<int>) {
    forall i :: 0 <= i < |jitters| ==> Backoff.ValidJitter(jitters[i])
  }

  /**
   * What consecutive failed connections schedule as written: each failure
   * closes the socket of a new call, whose `attempts` goes from 0 to 1.
   */
  function AsWrittenRetries(jitters: seq<int>): (r: seq<Option<nat>>)
    requires ValidJitters(jitters)
    ensures |r| == |jitters|
  {
    seq(|jitters|, i requires 0 <= i < |jitters| => Backoff.NextRetry(BASE_DELAY_MS, 1, jitters[i]))
  }

  /**
   * What they would schedule with one counter shared by all calls, as the
   * "max 10 attempts" comment in `onclose` and the room page's hook have it.
   */
  function IntendedRetries(jitters: seq<int>): (r: seq<Option<nat>>)
    requires ValidJitters(jitters)
    ensures |r| == |jitters|
  {
    seq(|jitters|, i requires 0 <= i < |jitters| => Backoff.NextRetry(BASE_DELAY_MS, i + 1, jitters[i]))
  }

  /**
   * The page opened with `?room=` whose every connection closes before
   * opening: each close schedules a retry, whose timer opens the next call.
   * The retries the page schedules are exactly `AsWrittenRetries`.
   */
  method ConsecutiveFailures(viewportWidth: nat, viewportHeight: nat, room: string, jitters: seq<int>)
    returns (page: StreamPage, retries: seq<Option<nat>>)
    requires !JsText.AllWhitespace(room) && |jitters| >= 1 && ValidJitters(jitters)
    ensures page.Valid() && |page.calls| == |jitters|
    ensures forall j :: 0 <= j < |page.calls| ==>
              page.calls[j].room == JsText.Trim(room) && page.calls[j].socket == CLOSED &&
              page.calls[j].attempts == 1
    ensures retries == AsWrittenRetries(jitters)
  {
    page := new StreamPage(viewportWidth, viewportHeight, Some(room));
    page.OnClose(0, jitters[0]);
    retries := [page.calls[0].reconnectTimer];
    var i := 1;
    while i < |jitters|
      invariant 1 <= i <= |jitters|
      invariant page.Valid() && |page.calls| == i && |retries| == i
      invariant page.calls[i - 1].reconnectTimer.Some?
      invariant forall j :: 0 <= j < i ==>
                  page.calls[j].room == JsText.Trim(room) && page.calls[j].socket == CLOSED &&
                  page.calls[j].attempts == 1
      invariant forall j :: 0 <= j < i ==> retries[j] == Backoff.NextRetry(BASE_DELAY_MS, 1, jitters[j])
    {
      page.TimerFires(i - 1);
      page.OnClose(i, jitters[i]);
      retries := retries + [page.calls[i].reconnectTimer];
      i := i + 1;
    }
  }

  /** As written, the page never gives up, and it retries after 500 to 800 ms every time. */
  lemma AsWrittenNeverGivesUp(jitters: seq<int>)
    requires ValidJitters(jitters)
    ensures forall i :: 0 <= i < |jitters| ==>
              AsWrittenRetries(jitters)[i].Some? && 500 <= AsWrittenRetries(jitters)[i].value <= 800
  {
  }

  /**
   * With a shared counter, failure n (from 1) schedules a retry after the
   * exponential part for attempt n plus the jitter while n <= 10 (the
   * exponential part doubles up to the 30 s cap, `Backoff.ExpoDoublesUntilCap`),
   * and the eleventh and later schedule nothing.
   */
  lemma IntendedGivesUpAfterTen(jitters: seq<int>)
    requires ValidJitters(jitters)
    ensures forall i :: 0 <= i < |jitters| ==> (IntendedRetries(jitters)[i].None? <==> i >= Backoff.MAX_ATTEMPTS)
    ensures forall i :: 0 <= i < |jitters| && i < Backoff.MAX_ATTEMPTS ==>
              Backoff.ExpoDelay(BASE_DELAY_MS, i + 1) <= IntendedRetries(jitters)[i].value
    ensures forall i :: 0 <= i < |jitters| && i < Backoff.MAX_ATTEMPTS ==>
              IntendedRetries(jitters)[i].value <= Backoff.ExpoDelay(BASE_DELAY_MS, i + 1) + Backoff.JITTER_BOUND_MS
  {
  }

  /** For 11 failures in a row the two differ exactly at the eleventh. */
  lemma EleventhFailureDiffers(jitters: seq<int>)
    requires ValidJitters(jitters) && |jitters| == 11
    ensures AsWrittenRetries(jitters)[10].Some? && IntendedRetries(jitters)[10].None?
  {
  }
}
