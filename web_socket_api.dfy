/** The part of the browser's `WebSocket` interface both front ends observe. */
module WebSocketApi {
  /**
   * `WebSocket.readyState`, except that `CLOSED` marks a socket whose `close`
   * event has been delivered (the browser reports CLOSED slightly earlier,
   * while it dispatches `error` and `close`, which no handler can observe).
   */
  datatype ReadyState = CONNECTING | OPEN | CLOSING | CLOSED

  /** `ws.close()`: a connecting or open socket starts closing; otherwise nothing happens. */
  function AfterClose(state: ReadyState): (r: ReadyState)
    ensures r == CLOSING || r == CLOSED
    ensures state == CLOSED <==> r == CLOSED
  {
    match state
    case CONNECTING => CLOSING
    case OPEN => CLOSING
    case CLOSING => CLOSING
    case CLOSED => CLOSED
  }
}
