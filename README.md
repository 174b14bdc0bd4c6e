# Meteor room chat: a Dafny model of its room registry, reconnecting client and comment overlay

Meteor lets browsers join a named room and exchange short text messages over a
WebSocket. The stream page can also scroll incoming messages across a shared
screen, in the niconico style. This project models three sequential parts of
it and proves properties of them:

- **The server's room registry** (`server/src/state.rs`). It is a map from room
  name to room. Each room keeps a history of at most 100 messages, dropping
  the oldest first. It also keeps a status: `Active(n)` counts the live
  connections, and `Inactive` carries a removal task that starts when the last
  connection leaves. Module `RoomState` has classes `AppState` and `Room`. The
  removal task is a pending flag plus the explicit event
  `AppState.RemovalFires`.
- **The room page's reconnecting hook**
  (`client/src/hooks/useWebSocketRoom.ts`). Module `WebSocketRoom` has class
  `RoomHook`. Its fields are the hook's refs and state. The socket events, the
  timer firing, the effect cleanup and `send` are its methods. Retries use an
  exponential backoff from 1000 ms, capped at 30000 ms, plus a jitter in
  [0, 300]. Retrying stops for good after more than 10 attempts.
- **The stream overlay page** (`stream/script.js`). It has four parts:
  - Module `StreamRandom` is the `CustomRandom` sampler. It never repeats its
    previous value.
  - Module `StreamOverlay` holds the font-size and row arithmetic, and the
    `activeComments` list. Messages append to that list, and each animation
    frame removes expired comments in place.
  - Module `StreamConnection` holds `connectWebSocket` and its handlers, the
    connect button, and the `?room=` parameter read when the page loads.
  - Each call of `connectWebSocket` has its own `attempts` counter, so the
    model keeps one `Call` record per call.

Shared pieces:
- `JsText.Trim` is JavaScript's `String.prototype.trim`, over the ECMAScript
  whitespace and line-terminator code points.
- `Backoff` is the delay arithmetic that both front ends share.
- `WebSocketApi` is the `readyState` of a socket and what `close()` does to it.

Inputs the model takes as parameters:
- Clocks (`performance.now()`) are integer milliseconds.
- `Math.random()` enters in two ways. The first is the integer jitter, the
  floored delay `Math.floor(expo + Math.random() * 300)` minus `expo`. It lies
  in [0, 300]: the value 300 comes from IEEE-754 rounding when the draw is just
  below 1 (for example 1 - 2^-52). The second is sequences of draws in [0, 1)
  for the samplers.
- Canvas, video and viewport sizes, the slider's value and minimum, the flow
  checkbox and the measured text width.

Socket and timer callbacks are methods that the environment calls. Their
preconditions state what the browser guarantees. For example, each socket's
`close` event arrives once, after any `error` event, and a timer fires only
while it is pending. The model's `CLOSED` marks a socket whose `close` event
has been delivered. The browser already reports `readyState` as CLOSED while
it dispatches `error` and `close`; no handler can tell the two apart.

The model keeps these behaviours of the code as written:
- The stream page alerts on every socket error, not only the first.
- The room hook never reports a separate "error" connection status. Its
  `error` value is set only when retries run out.
- A new `connectWebSocket` call on the stream page does not cancel the
  reconnect timers of earlier calls.
- The reconnect base is 1000 ms on the room page and 500 ms on the stream page.
- On the stream page, the retry cap of 10 is never reached (see Findings).

## Model

| member | source | states |
|---|---|---|
| `RoomState.PushBounded` | server/src/state.rs:64-70 | Below capacity the history grows by the new message at the back. At capacity it keeps 100 entries, the newest 99 old ones followed by the new message, so exactly the oldest is dropped. |
| `RoomState.Replay` | server/src/state.rs:64-70 | Any sequence of `add_history` calls keeps the history within 100 entries. |
| `RoomState.ReplayKeepsNewest` | server/src/state.rs:64-70 | A room created empty holds exactly the last min(n, 100) of the n messages it received, oldest first (FIFO order). |
| `RoomState.Room.AddHistory` | server/src/state.rs:64-70 | The history becomes `PushBounded(old history, message)` and stays within 100 entries. |
| `RoomState.Room.GetHistory` | server/src/state.rs:71-73 | Returns a value equal to the current history. The room is not modified. |
| `RoomState.Room.IsActive` | server/src/state.rs:77-79 | True exactly when the status is `Active`. |
| `RoomState.Room.ConnectionCount` | server/src/state.rs:80-86 | n for `Active(n)`, 0 for an inactive room. |
| `RoomState.Incremented` | server/src/state.rs:87-92 | `Active(n)` becomes `Active(n+1)`. `Inactive` is unchanged. |
| `RoomState.Room.IncrementConnection` | server/src/state.rs:87-92 | The status becomes `Incremented(old status)`. |
| `RoomState.Decremented` | server/src/state.rs:93-107 | `Active(n)` with n >= 2 becomes `Active(n-1)`. `Active(1)` becomes `Inactive` with the removal pending. `Inactive` is unchanged. `Active(0)` is the `usize` underflow (no result). |
| `RoomState.Room.DecrementConnectionAndCheck` | server/src/state.rs:93-107 | The status becomes `Decremented(old status)`. At `Active(0)` the method reports the panic and the status is unchanged. |
| `RoomState.DecrementUndoesIncrement` | server/src/state.rs:87-107 | A connection leaving undoes the one that joined. If it was the room's only connection, the room goes inactive with its removal pending. |
| `RoomState.OccupiedRoomCountsConnections` | server/src/state.rs:87-107 | A room opened at `Active(0)` whose connections never all leave is `Active(joins - leaves)`, so `connection_count` is the number of live connections. |
| `RoomState.InactiveIgnoresConnections` | server/src/state.rs:87-107 | Joins and leaves never change an inactive room's status. |
| `RoomState.LastLeaveSchedulesRemoval` | server/src/state.rs:93-105 | When the last remaining connection leaves an occupied room, its removal is scheduled. |
| `RoomState.Reactivated` | server/src/state.rs:46-50 | An inactive room is reopened as `Active(0)`. An active room keeps its status. |
| `RoomState.Room.constructor` | server/src/state.rs:31-37 | A new room has the given name, status `Active(0)` and an empty history. |
| `RoomState.AppState.constructor` | server/src/state.rs:26-28 | The registry starts empty. |
| `RoomState.AppState.NewRoom` | server/src/state.rs:29-38 | A fresh room, `Active(0)`, with empty history. It is not registered. |
| `RoomState.AppState.GetOrCreateRoom` | server/src/state.rs:39-52 | Afterwards the map has `name` bound to the returned room. An existing room is returned with its history kept and its status `Reactivated` (a pending removal is aborted). A missing one is created `Active(0)` and empty. No other room changes. |
| `RoomState.AppState.RemovalFires` | server/src/state.rs:101-104 | A pending removal removes exactly that room's name from the map. An aborted or finished task changes nothing. |
| `Backoff.ExpoDelay` | client/src/hooks/useWebSocketRoom.ts:81-82 | The exponential part never exceeds 30000 ms. |
| `Backoff.RetryDelay` | client/src/hooks/useWebSocketRoom.ts:81-84 | The delay lies in [expo, expo + 300] and is at most 30300 ms. The top value comes from double rounding. |
| `Backoff.NextRetry` | client/src/hooks/useWebSocketRoom.ts:75-84 | Nothing is scheduled exactly when the raised counter exceeds 10. Otherwise the delay lies in [expo, expo + 300]. |
| `Backoff.ExpoDoublesUntilCap` | client/src/hooks/useWebSocketRoom.ts:82 | Each attempt doubles the exponential part until it reaches the 30000 ms cap. |
| `Backoff.ExpoMonotone` | client/src/hooks/useWebSocketRoom.ts:82 | A later attempt never waits less, ignoring the jitter. |
| `Backoff.CapReached` | client/src/hooks/useWebSocketRoom.ts:81-82 | The cap applies from the 6th attempt with base 1000 ms, and from the 7th with base 500 ms. |
| `JsText.TrimSpec` | client/src/hooks/useWebSocketRoom.ts:111 | `trim` removes only whitespace, all of it at both ends, and keeps the middle unchanged. |
| `JsText.TrimEmptyIff` | client/src/hooks/useWebSocketRoom.ts:111-112 | A text trims to "" exactly when it is all whitespace (or empty). |
| `JsText.TrimIdempotent` | client/src/hooks/useWebSocketRoom.ts:111 | Trimming a trimmed text changes nothing. |
| `WebSocketApi.AfterClose` | client/src/hooks/useWebSocketRoom.ts:93 | `close()` moves a connecting or open socket to closing. A closed socket stays closed, and only a closed one. |
| `WebSocketRoom.RoomHook.constructor` | client/src/hooks/useWebSocketRoom.ts:23-100 | With a room name, the effect connects: status connecting, a connecting socket, 0 attempts, no timer. With an empty name nothing connects. |
| `WebSocketRoom.RoomHook.ConnectWs` | client/src/hooks/useWebSocketRoom.ts:47-52 | After teardown it does nothing. Otherwise it sets status connecting and stores a new connecting socket in `wsRef`. |
| `WebSocketRoom.RoomHook.OnOpen` | client/src/hooks/useWebSocketRoom.ts:54-59 | Attempts reset to 0, the error is cleared, and the status becomes connected. |
| `WebSocketRoom.RoomHook.OnMessage` | client/src/hooks/useWebSocketRoom.ts:61-63 | The received text is appended verbatim at the end of the history. |
| `WebSocketRoom.RoomHook.OnError` | client/src/hooks/useWebSocketRoom.ts:91-97 | It only closes the socket. |
| `WebSocketRoom.RoomHook.OnClose` | client/src/hooks/useWebSocketRoom.ts:70-89 | After teardown, only the socket state changes. Otherwise: status disconnected, attempts + 1. Past 10 attempts, the terminal error is set and no timer is pending. Otherwise exactly one timer is pending, its delay is `RetryDelay(1000, attempts, jitter)`, and any earlier timer was cleared. |
| `WebSocketRoom.RoomHook.TimerFires` | client/src/hooks/useWebSocketRoom.ts:86-88 | The fired timer is no longer pending, and a new connecting socket replaces the closed one. Reconnecting stays enabled, and the attempt counter, the error and the timer bookkeeping are kept, so the next close continues the count. |
| `WebSocketRoom.RoomHook.Teardown` | client/src/hooks/useWebSocketRoom.ts:102-107 | Reconnecting stops, no timer is pending, the socket is closed and `wsRef` is emptied. A second teardown changes nothing. |
| `WebSocketRoom.RoomHook.Send` | client/src/hooks/useWebSocketRoom.ts:110-123 | All-whitespace text does nothing and raises no alert. Otherwise the trimmed text is transmitted exactly when `wsRef` holds an open socket; if not, the user is alerted and nothing is sent or queued. |
| `WebSocketRoom.AtMostOneTimer` | client/src/hooks/useWebSocketRoom.ts:85-88 | In every reachable state at most one reconnect timer is pending, and it is the one in `reconnectTimeoutRef`. |
| `WebSocketRoom.ConsecutiveFailures` | client/src/hooks/useWebSocketRoom.ts:70-88 | After n consecutive connections of a mounted hook close before opening, the shared counter is n. For n <= 10 exactly one retry is pending, with delay `RetryDelay(1000, n, jitter)`. At n = 11 the terminal error is set and nothing is pending. |
| `WebSocketRoom.ExhaustedIsFinal` | client/src/hooks/useWebSocketRoom.ts:75-80 | Once attempts exceed 10, no socket is live and no timer is pending, so no further event arrives and the terminal error is raised once. |
| `StreamRandom.FirstFresh` | stream/script.js:28-30 | The accepted draw is the first whose value differs from `lastValue`. Every earlier draw repeated it. |
| `StreamRandom.SampleInRange` | stream/script.js:29 | `floor(u * (end - start)) + start` lies in [start, end) for u in [0, 1). |
| `StreamRandom.Abs` | stream/script.js:38 | `abs(v - last) == 0` holds exactly when `v == last`. |
| `StreamRandom.RepeatedSamplesExample` | stream/script.js:21-41 | A fresh sampler over [0, 10) fed draws whose samples are 2, 2, 5, 5, 2 returns 2, 5, 2. The repeated sample is resampled, and the first output can be 2 (it differs from the initial `lastValue` 0). |
| `StreamRandom.CustomRandom.constructor` | stream/script.js:21-25 | Keeps `start` and `end`, ignores the seed, and starts `lastValue` at 0. |
| `StreamRandom.CustomRandom.GetRandomValue` | stream/script.js:26-33 | Returns a value in [start, end) that differs from the previous `lastValue`, namely the first such draw, and records it as `lastValue`. |
| `StreamRandom.CustomRandom.GetNotNearlyRandomValue` | stream/script.js:34-41 | Has the same postcondition as `GetRandomValue`, so the two policies agree. |
| `StreamOverlay.FontSize` | stream/script.js:100-103 | The size is at least the slider minimum. It equals the slider value whenever that is a number at or above the minimum, and is the minimum otherwise. |
| `StreamOverlay.RowCount` | stream/script.js:105-108 | At least 1. It is the largest number of rows of height fontSize + 10 that fit in the canvas, or 1 when none fit. |
| `StreamOverlay.RowIndex` | stream/script.js:109 | The row lies in [0, rowCount). |
| `StreamOverlay.TallRowsCollapse` | stream/script.js:105-109 | When one row is taller than the canvas, there is one row and every comment is put on row 0. |
| `StreamOverlay.SurvivorsExact` | stream/script.js:136-150 | A frame removes exactly the comments with elapsed >= duration. Every other comment is kept as often as it occurred. |
| `StreamOverlay.SurvivorsAppend` | stream/script.js:136-150 | The filter distributes over concatenation, so survivors keep their relative order. |
| `StreamOverlay.CommentLifetime` | stream/script.js:139 | A 6000 ms comment is still present 5999 ms after it spawned, and is gone from 6000 ms on. |
| `StreamOverlay.Overlay.constructor` | stream/script.js:15-44 | Starts with no comments, a canvas the size of the viewport, and two samplers (colors over [0, 6), rows over [0, 10)), each with `lastValue` 0. The viewport-sized canvas itself is set at script.js:195-196. |
| `StreamOverlay.Overlay.AddComment` | stream/script.js:98-124 | With flow disabled nothing changes. Otherwise exactly one comment is appended with the text, x = canvas width, duration 6000, the clamped font size, a row in [0, rowCount) and a palette color, and both samplers move off their previous value. |
| `StreamOverlay.Overlay.AnimateFrame` | stream/script.js:126-152 | The canvas takes the video's size once the video has data, or the viewport's size otherwise. The reverse splice loop leaves exactly `Survivors(old comments, now)`. |
| `StreamConnection.StreamPage.constructor` | stream/script.js:194-212 | With a `room` parameter that trims to a non-empty name, the page connects to the trimmed name. Otherwise it does not connect. Either way the canvas has the viewport's size, there are no comments, and both samplers start with `lastValue` 0. |
| `StreamConnection.StreamPage.ConnectWebSocket` | stream/script.js:47-53 | It does nothing while the current socket is open or connecting. Otherwise it adds a new call with a connecting socket, attempts 0 and no timer. |
| `StreamConnection.StreamPage.OnOpen` | stream/script.js:54-64 | The socket is open, the status shows connected, and the call's timer is cleared. |
| `StreamConnection.StreamPage.OnMessage` | stream/script.js:65-68 | A text that trims to nothing adds no comment. Any other text is passed untrimmed to `addCommentToCanvas`. With flow enabled, one comment is appended carrying the text, the canvas width as x, the arrival time, 6000 ms, the clamped font size, the sampled row and the sampled colour, and both samplers move off their previous value. Otherwise the comments and both samplers are unchanged. |
| `StreamConnection.StreamPage.OnClose` | stream/script.js:69-85 | The call's `attempts` grows and a retry is scheduled per `NextRetry(500, ...)`. Since a call's socket closes once, `attempts` is 1 and a retry after 500 to 800 ms is always scheduled. |
| `StreamConnection.StreamPage.OnError` | stream/script.js:86-94 | It alerts on every error, shows the error status, and closes the global `ws`, which is the latest socket. |
| `StreamConnection.StreamPage.TimerFires` | stream/script.js:82-84 | The call's timer is consumed and `connectWebSocket` runs with that call's room. |
| `StreamConnection.StreamPage.ConnectClicked` | stream/script.js:177-186 | An input that trims to "" only warns. Any other input connects to the trimmed name. |
| `StreamConnection.AsWrittenRetries` | stream/script.js:52-53 | Consecutive failures as written produce one retry decision per failure. |
| `StreamConnection.IntendedRetries` | stream/script.js:75-77 | With one shared counter, consecutive failures produce one retry decision per failure. |
| `StreamConnection.ConsecutiveFailures` | stream/script.js:47-84 | Driving the page through n failed connections to one room (each retry timer opens the next call) leaves n closed calls for that room, each with `attempts` 1. The retries scheduled are exactly `AsWrittenRetries`. |
| `StreamConnection.AsWrittenNeverGivesUp` | stream/script.js:76-84 | As written, every failure schedules a retry after 500 to 800 ms, however many came before. |
| `StreamConnection.IntendedGivesUpAfterTen` | stream/script.js:75-81 | With a shared counter, failures 1 to 10 schedule backoff retries and the eleventh and later schedule none. |
| `StreamConnection.EleventhFailureDiffers` | stream/script.js:76-77 | After 11 consecutive failures, the code as written still retries and the intended code does not. |

## Left out

- native-client/src/main.rs, server/src/handlers.rs and server/src/main.rs are not part of this model. They are threads, async socket plumbing, a UI and a command loop.
- The React pages, `useRoomParam`, the shared types file and the lint configuration are not part of this model. They are presentation and routing glue.
- `Room::get_tx_rx` and the broadcast channel are left out. They belong to the async message fan-out.
- The locks, `Arc` sharing, `tokio::spawn`, the 60-second sleep and `JoinHandle::abort` are not modelled as concurrency. Each operation is atomic. The task is the `removalPending` flag, firing it is `RemovalFires`, and aborting it is the status change in `GetOrCreateRoom`.
- RoomState.Room.DecrementConnectionAndCheck: it models `count - 1` at `Active(0)` as the debug build's checked subtraction, a panic that leaves the status unchanged. A release build would wrap to `usize::MAX` instead. The model does not say which interleavings of handlers reach `Active(0)`.
- WebSocketRoom.RoomHook.constructor: the model covers one run of the effect for one room. Any re-run of the effect on the same hook instance is not modelled. That includes a re-run for a new `room`. It also includes the mount, cleanup and mount again for the same room that `<React.StrictMode>` (client/src/main.tsx:36) performs in development. There the first socket's `close` event can find `shouldReconnectRef` set again (useWebSocketRoom.ts:37, 71), schedule a reconnect, and replace `wsRef`, orphaning the second socket: its messages would be appended too and cleanup would not close it. This is read from the code, not executed.
- The hook's `onStatus` callback is not modelled separately; it always receives the same value as `wsState`. Also left out: the scroll timers, `attachAutoResize`, `listRef`/`inputRef`, clearing the input box after a send, and building the socket URL (scheme choice and `encodeURIComponent`).
- WebSocketRoom.RoomHook.OnOpen, OnMessage, OnError, OnClose and TimerFires require the socket or timer states in which the browser delivers those events. Events in other states are not modelled.
- StreamRandom.CustomRandom.GetRandomValue: it requires the given draws to contain one that differs from `lastValue`. The source's loop runs until such a draw occurs. For a range of two or more values this happens with probability 1. For a one-value range that contains `lastValue` it never happens: `new CustomRandom(seed, 0, 1)` always draws 0, and its first call loops forever. The page's own samplers have ranges of 6 and 10 values.
- StreamRandom.CustomRandom.GetNotNearlyRandomValue: it has the same requirement on its draws, for the same reason.
- StreamOverlay.RowCount: it requires a positive row height (fontSize + 10 > 0). A slider minimum of -10 or less, where JavaScript would divide by zero or by a negative number, is not modelled.
- StreamOverlay.Overlay.AddComment: it requires the slider minimum to exceed -10, for the same reason.
- StreamConnection.StreamPage.OnMessage: it requires the slider minimum to exceed -10 as well, because it calls `AddComment`. The slider minimum is taken as a number (`parseInt` of a non-numeric minimum is not modelled).
- StreamOverlay.Overlay.AnimateFrame: it leaves out the floating-point update of each survivor's `x` and all drawing. A comment's `x` stays its spawn position, and its `y` is represented by its row.
- Screen capture, the font-size display, status texts beyond their kind, button colours and alert wording are left out. They are DOM effects.

## Findings

| source | as written | input that shows it | evidently intended | confidence | as-written member | corrected member |
|---|---|---|---|---|---|---|
| stream/script.js:52-77 | `attempts` is a local of each `connectWebSocket` call. Each reconnect builds a new call with `attempts = 0`, so at every close `attempts` is 1 and `attempts > 10` never holds. | Eleven connections in a row that close before opening: the eleventh close still schedules a retry after 500 to 800 ms, and so does every later one. | One counter shared across reconnects, as the comment "max 10 attempts" and the room page's hook have it: the eleventh consecutive failure schedules nothing. | high; not executed | `StreamConnection.AsWrittenNeverGivesUp` | `StreamConnection.IntendedGivesUpAfterTen` |

The stream page model (`StreamConnection.StreamPage`) keeps the code as
written, because that is what the page does. `StreamConnection.ConsecutiveFailures`
derives the as-written retries from the page's own handlers. `IntendedRetries`
is the corrected reference. The room page's hook implements the same corrected
rule with a base of 1000 ms, as `WebSocketRoom.ConsecutiveFailures` shows.
