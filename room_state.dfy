/**
 * The server's room registry (server/src/state.rs): a map from room name to
 * room, where each room keeps a bounded message history and a status that
 * counts live connections and, once the last connection leaves, carries a
 * scheduled removal of the room from the registry.
 *
 * Locks, `Arc` sharing and the spawned removal task are not modelled as
 * concurrency: every operation runs atomically, and the removal task is a
 * pending flag on the status plus the explicit event `RemovalFires`.
 */
module RoomState {
  import opened Wrappers

  /** `MAX_HISTORY_SIZE`: the most messages a room remembers. */
  const MAX_HISTORY_SIZE: nat := 100

  /**
   * `RoomStatus`: `Active(count)` counts the room's connections;
   * `Inactive` holds the removal task, pending until it fires or is aborted.
   */
  datatype RoomStatus = Active(count: nat) | Inactive(removalPending: bool)

  // ---------------------------------------------------------------------------
  // History: a FIFO ring of at most MAX_HISTORY_SIZE messages

  /**
   * `add_history` on a history value: when full, the oldest message is popped
   * from the front; the new message is pushed at the back.
   */
  function PushBounded(history: seq<string>, message: string): (r: seq<string>)
    requires |history| <= MAX_HISTORY_SIZE
    ensures |r| == if |history| < MAX_HISTORY_SIZE then |history| + 1 else MAX_HISTORY_SIZE
    ensures r == (history + [message])[|history| + 1 - |r|..]
  {
    if |history| == MAX_HISTORY_SIZE then history[1..] + [message] else history + [message]
  }

  /** The history after `messages` arrive, in order, at a room whose history is `history`. */
  function Replay(history: seq<string>, messages: seq<string>): (r: seq<string>)
    requires |history| <= MAX_HISTORY_SIZE
    ensures |r| <= MAX_HISTORY_SIZE
  {
    if messages == [] then history
    else PushBounded(Replay(history, messages[..|messages| - 1]), messages[|messages| - 1])
  }

  function Min(a: nat, b: nat): nat {
    if a < b then a else b
  }

  /**
   * A room created empty remembers exactly the last MAX_HISTORY_SIZE messages
   * it received (all of them while there are fewer), oldest first.
   */
  lemma {:induction false} ReplayKeepsNewest(messages: seq<string>)
    ensures Replay([], messages) == messages[|messages| - Min(|messages|, MAX_HISTORY_SIZE)..]
  {
    if messages != [] {
      var n := |messages|;
      var prefix := messages[..n - 1];
      ReplayKeepsNewest(prefix);
      var window := Replay([], prefix);
      assert Replay([], messages) == PushBounded(window, messages[n - 1]);
      if n - 1 < MAX_HISTORY_SIZE {
        assert window == prefix;
        assert messages == prefix + [messages[n - 1]];
      } else {
        assert window == messages[n - 1 - MAX_HISTORY_SIZE..n - 1];
        PushFullWindow(messages);
      }
    }
  }

  /** Pushing onto the full window of all but the last message slides it by one. */
  lemma PushFullWindow(messages: seq<string>)
    requires |messages| > MAX_HISTORY_SIZE
    ensures var n := |messages|;
      PushBounded(messages[n - 1 - MAX_HISTORY_SIZE..n - 1], messages[n - 1])
        == messages[n - MAX_HISTORY_SIZE..]
  {
    var n := |messages|;
    var window := messages[n - 1 - MAX_HISTORY_SIZE..n - 1];
    assert window[1..] == messages[n - MAX_HISTORY_SIZE..n - 1];
    assert messages[n - MAX_HISTORY_SIZE..] == messages[n - MAX_HISTORY_SIZE..n - 1] + [messages[n - 1]];
  }

  // ---------------------------------------------------------------------------
  // Status: the connection counter and the scheduled removal

  /** `connection_count`: the count of an active room, 0 for an inactive one. */
  function CountOf(status: RoomStatus): nat {
    match status
    case Active(n) => n
    case Inactive(_) => 0
  }

  /** `increment_connection`: an active room gains one connection; an inactive one is left alone. */
  function Incremented(status: RoomStatus): (r: RoomStatus)
    ensures r.Active? <==> status.Active?
    ensures status.Active? ==> CountOf(r) == CountOf(status) + 1
    ensures status.Inactive? ==> r == status
  {
    match status
    case Active(n) => Active(n + 1)
    case Inactive(_) => status
  }

  /**
   * `decrement_connection_and_check`: an active room loses one connection, and
   * the last one leaving makes it inactive with its removal scheduled. `None`
   * is the `usize` underflow of `count - 1` at `Active(0)`, which panics.
   */
  function Decremented(status: RoomStatus): (r: Option<RoomStatus>)
    ensures r.None? <==> status == Active(0)
    ensures status.Inactive? ==> r == Some(status)
    ensures status.Active? && status.count >= 2 ==> r == Some(Active(status.count - 1))
    ensures status == Active(1) ==> r == Some(Inactive(true))
  {
    match status
    case Active(n) => if n == 0 then None else if n == 1 then Some(Inactive(true)) else Some(Active(n - 1))
    case Inactive(_) => Some(status)
  }

  /** What `get_or_create_room` does to an existing room: abort a pending removal and reopen. */
  function Reactivated(status: RoomStatus): (r: RoomStatus)
    ensures r.Active?
    ensures status.Active? ==> r == status
    ensures status.Inactive? ==> r == Active(0)
  {
    if status.Inactive? then Active(0) else status
  }

  /** A connection that leaves undoes the one that joined, unless it was the room's only one. */
  lemma DecrementUndoesIncrement(status: RoomStatus)
    ensures Decremented(Incremented(status)) ==
              if status == Active(0) then Some(Inactive(true)) else Some(status)
  {
  }

  /** Connection events reaching a room: `true` joins (increment), `false` leaves (decrement). */
  function Run(status: RoomStatus, events: seq<bool>): Option<RoomStatus>
  {
    if events == [] then Some(status)
    else
      match Run(status, events[..|events| - 1])
      case None => None
      case Some(s) => if events[|events| - 1] then Some(Incremented(s)) else Decremented(s)
  }

  /** Live connections after `events`: joins minus leaves. */
  function Balance(events: seq<bool>): int {
    if events == [] then 0
    else Balance(events[..|events| - 1]) + (if events[|events| - 1] then 1 else -1)
  }

  /** After the first event, at least one connection is live at every step. */
  predicate StaysOccupied(events: seq<bool>) {
    forall k :: 1 <= k <= |events| ==> Balance(events[..k]) >= 1
  }

  /**
   * A room opened with `Active(0)` whose connections never all leave counts
   * exactly its live connections.
   */
  lemma {:induction false} OccupiedRoomCountsConnections(events: seq<bool>)
    requires StaysOccupied(events)
    ensures Balance(events) >= 0
    ensures Run(Active(0), events) == Some(Active(Balance(events) as nat))
  {
    if events != [] {
      var prefix := events[..|events| - 1];
      assert events[..|events|] == events;
      if prefix == [] {
        assert Balance(events) == Balance(prefix) + (if events[0] then 1 else -1);
      } else {
        assert StaysOccupied(prefix) by {
          forall k | 1 <= k <= |prefix| ensures Balance(prefix[..k]) >= 1 {
            assert prefix[..k] == events[..k];
          }
        }
        OccupiedRoomCountsConnections(prefix);
        assert Balance(prefix) >= 1 by { assert events[..|prefix|] == prefix; }
      }
    }
  }

  /** Once inactive, joins and leaves leave the status alone: only reopening revives the room. */
  lemma {:induction false} InactiveIgnoresConnections(pending: bool, events: seq<bool>)
    ensures Run(Inactive(pending), events) == Some(Inactive(pending))
  {
    if events != [] {
      InactiveIgnoresConnections(pending, events[..|events| - 1]);
    }
  }

  /** When the only remaining connection leaves an occupied room, its removal is scheduled. */
  lemma LastLeaveSchedulesRemoval(events: seq<bool>)
    requires StaysOccupied(events) && Balance(events) == 1
    ensures Run(Active(0), events + [false]) == Some(Inactive(true))
  {
    OccupiedRoomCountsConnections(events);
    assert (events + [false])[..|events|] == events;
  }

  // ---------------------------------------------------------------------------
  // The room and the registry, updated in place

  /** `Room`: its history and status are shared by every handle to the room. */
  class Room {
    const name: string
    var status: RoomStatus
    var history: seq<string>

    ghost predicate Valid()
      reads this
    {
      |history| <= MAX_HISTORY_SIZE
    }

    /** The fields `AppState::new_room` fills in. */
    constructor (name: string)
      ensures Valid()
      ensures this.name == name && status == Active(0) && history == []
    {
      this.name := name;
      status := Active(0);
      history := [];
    }

    /** `add_history`. */
    method AddHistory(message: string)
      requires Valid()
      modifies this`history
      ensures Valid()
      ensures history == PushBounded(old(history), message)
    {
      if |history| == MAX_HISTORY_SIZE {
        history := history[1..];
      }
      history := history + [message];
    }

    /** `get_history`: a copy of the history, the room unchanged. */
    method GetHistory() returns (h: seq<string>)
      ensures h == history
    {
      h := history;
    }

    /** `is_active`. */
    method IsActive() returns (active: bool)
      ensures active <==> status.Active?
    {
      active := status.Active?;
    }

    /** `connection_count`. */
    method ConnectionCount() returns (count: nat)
      ensures count == CountOf(status)
      ensures status.Inactive? ==> count == 0
    {
      if status.Active? {
        count := status.count;
      } else {
        count := 0;
      }
    }

    /** `increment_connection`. */
    method IncrementConnection()
      modifies this`status
      ensures status == Incremented(old(status))
    {
      if status.Active? {
        status := Active(status.count + 1);
      }
    }

    /**
     * `decrement_connection_and_check`. `panicked` reports the `usize`
     * underflow at `Active(0)`; the panic leaves the status as it was.
     */
    method DecrementConnectionAndCheck() returns (panicked: bool)
      modifies this`status
      ensures panicked <==> old(status) == Active(0)
      ensures panicked ==> status == old(status)
      ensures !panicked ==> Some(status) == Decremented(old(status))
    {
      panicked := false;
      if status.Active? {
        var count := status.count;
        if count == 0 {
          panicked := true;
          return;
        }
        status := Active(count - 1);
        if count == 1 {
          status := Inactive(true);
        }
      }
    }
  }

  /** `AppState`: the registry of rooms by name. */
  class AppState {
    var rooms: map<string, Room>

    ghost predicate Valid()
      reads this, rooms.Values
    {
      forall k :: k in rooms ==> rooms[k].name == k && rooms[k].Valid()
    }

    constructor ()
      ensures Valid() && rooms == map[]
    {
      rooms := map[];
    }

    /** `new_room`: a fresh, active, empty room, not yet registered. */
    method NewRoom(name: string) returns (room: Room)
      ensures fresh(room) && room.Valid()
      ensures room.name == name && room.status == Active(0) && room.history == []
    {
      room := new Room(name);
    }

    /**
     * `get_or_create_room`: the room registered under `name`, created if
     * missing; an inactive room has its removal aborted and is reopened with
     * `Active(0)`, keeping its history.
     */
    method GetOrCreateRoom(name: string) returns (room: Room)
      requires Valid()
      modifies this, rooms.Values
      ensures Valid()
      ensures rooms == old(rooms)[name := room]
      ensures name in old(rooms) ==>
                room == old(rooms[name]) && room.history == old(room.history) &&
                room.status == Reactivated(old(room.status))
      ensures name !in old(rooms) ==> fresh(room) && room.status == Active(0) && room.history == []
      ensures forall k :: k in old(rooms) && k != name ==> unchanged(old(rooms[k]))
    {
      if name in rooms {
        room := rooms[name];
      } else {
        room := NewRoom(name);
        rooms := rooms[name := room];
      }
      if room.status.Inactive? {
        room.status := Active(0);
      }
    }

    /**
     * The spawned removal task running to completion, 60 seconds after the
     * last connection left: it removes the room's name from the registry.
     * An aborted task (the room was reopened) does nothing.
     */
    method RemovalFires(room: Room)
      requires Valid()
      modifies this, room
      ensures Valid()
      ensures old(room.status) == Inactive(true) ==> rooms == old(rooms) - {room.name} && room.status == Inactive(false)
      ensures old(room.status) != Inactive(true) ==> rooms == old(rooms) && room.status == old(room.status)
      ensures room.history == old(room.history)
    {
      if room.status == Inactive(true) {
        rooms := rooms - {room.name};
        room.status := Inactive(false);
      }
    }
  }
}
