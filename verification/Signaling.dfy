/** Signalling rooms: bounded, numbered message logs with long polling. Times are nanoseconds. */
module Signaling {
  import opened Collections

  type Key = string

  const MAX_MESSAGES := 256
  const ROOM_TTL := 600_000_000_000

  /** The channel handed to pollers of a room that does not exist. Channels are numbered as they are made. */
  const PENDING := 0

  datatype Message = Message(number: int, body: string)

  datatype Room = Room(number: int, messages: seq<Message>, notify: nat, updatedAt: int)

  datatype Store = Store(rooms: map<Key, Room>, made: nat, closed: set<nat>)

  const EMPTY := Store(map[], 1, {})

  // --------------------------------------------------------------------------- the operations on values

  function Later(messages: seq<Message>, after: int): seq<Message> {
    if messages == [] then
      []
    else
      Later(messages[..|messages| - 1], after) + if messages[|messages| - 1].number > after then [messages[|messages| - 1]] else []
  }

  function Poll(s: Store, key: Key, after: int): (seq<Message>, nat) {
    if key in s.rooms then (Later(s.rooms[key].messages, after), s.rooms[key].notify) else ([], PENDING)
  }

  function Open(s: Store, key: Key, now: int): Store {
    if key in s.rooms then
      s.(rooms := s.rooms[key := s.rooms[key].(updatedAt := now)])
    else
      Store(s.rooms[key := Room(0, [], s.made, now)], s.made + 1, s.closed)
  }

  /** A room with one more message, and without its oldest if it has too many. */
  function Added(room: Room, body: string): Room {
    Room(room.number + 1, Last(room.messages + [Message(room.number + 1, body)], MAX_MESSAGES), room.notify, room.updatedAt)
  }

  /** Close the room's channel, and give the room a new one. */
  function Notified(s: Store, key: Key): Store
    requires key in s.rooms
  {
    Store(s.rooms[key := s.rooms[key].(notify := s.made)], s.made + 1, s.closed + {s.rooms[key].notify})
  }

  function Appending(s: Store, key: Key, body: string, now: int): Store {
    var o := Open(s, key, now);
    Notified(o.(rooms := o.rooms[key := Added(o.rooms[key], body)]), key)
  }

  predicate Stale(room: Room, now: int) {
    now - room.updatedAt > ROOM_TTL
  }

  function Sweeping(s: Store, now: int): Store {
    Store(
      map k | k in s.rooms && !Stale(s.rooms[k], now) :: s.rooms[k],
      s.made,
      s.closed + set k | k in s.rooms && Stale(s.rooms[k], now) :: s.rooms[k].notify)
  }

  // --------------------------------------------------------------------------- the store

  class SignalRoom {
    var number: int
    var messages: seq<Message>
    var notify: nat
    var updatedAt: int

    constructor (notify: nat, now: int)
      ensures Value() == Room(0, [], notify, now)
    {
      number, messages, this.notify, updatedAt := 0, [], notify, now;
    }

    ghost function Value(): Room
      reads this
    {
      Room(number, messages, notify, updatedAt)
    }

    method Add(body: string) returns (message: Message)
      modifies this
      ensures message == Message(old(number) + 1, body)
      ensures Value() == Added(old(Value()), body)
    {
      number := number + 1;
      message := Message(number, body);
      messages := messages + [message];
      if |messages| > MAX_MESSAGES {
        messages := messages[|messages| - MAX_MESSAGES..];
      }
    }
  }

  class SignalStore {
    var rooms: map<Key, SignalRoom>
    var made: nat
    var closed: set<nat>

    ghost predicate Distinct()
      reads this
    {
      forall j, k :: j in rooms && k in rooms && rooms[j] == rooms[k] ==> j == k
    }

    ghost function Contents(): Store
      reads this, rooms.Values
    {
      Store(map k | k in rooms :: rooms[k].Value(), made, closed)
    }

    ghost predicate Valid()
      reads this, rooms.Values
    {
      Distinct() && Inv(Contents())
    }

    constructor ()
      ensures Valid() && Contents() == EMPTY && rooms == map[]
    {
      rooms, made, closed := map[], 1, {};
    }

    method MakeChannel() returns (c: nat)
      modifies this`made
      ensures c == old(made) && made == old(made) + 1
    {
      c := made;
      made := made + 1;
    }

    /** Closing a closed channel would be a run-time failure. */
    method CloseChannel(c: nat)
      requires c !in closed
      modifies this`closed
      ensures closed == old(closed) + {c}
    {
      closed := closed + {c};
    }

    method MessagesAfter(key: Key, after: int) returns (messages: seq<Message>, notify: nat)
      ensures (messages, notify) == Poll(Contents(), key, after)
    {
      messages := [];
      if key !in rooms {
        return messages, PENDING;
      }
      var all := rooms[key].messages;
      for k := 0 to |all|
        invariant messages == Later(all[..k], after)
      {
        assert all[..k + 1][..k] == all[..k];
        if all[k].number > after {
          messages := messages + [all[k]];
        }
      }
      assert all[..|all|] == all;
      notify := rooms[key].notify;
    }

    method GetOrCreateLocked(key: Key, now: int) returns (room: SignalRoom)
      requires Distinct()
      modifies this`rooms, this`made, rooms.Values
      ensures Distinct() && key in rooms && room == rooms[key]
      ensures Contents() == Open(old(Contents()), key, now)
      ensures rooms.Values <= old(rooms.Values) + {room} && (room in old(rooms.Values) || fresh(room))
    {
      if key !in rooms {
        Create(key, now);
      }
      room := rooms[key];
      room.updatedAt := now;
    }

    method Create(key: Key, now: int)
      requires Distinct() && key !in rooms
      modifies this`rooms, this`made
      ensures Distinct() && key in rooms && fresh(rooms[key]) && rooms == old(rooms)[key := rooms[key]]
      ensures Contents() == Open(old(Contents()), key, now)
    {
      var channel := MakeChannel();
      var created := new SignalRoom(channel, now);
      rooms := rooms[key := created];
    }

    method Notify(key: Key, room: SignalRoom)
      requires Distinct() && key in rooms && room == rooms[key] && room.notify !in closed
      modifies this`made, this`closed, room`notify
      ensures Contents() == Notified(old(Contents()), key)
    {
      CloseChannel(room.notify);
      var channel := MakeChannel();
      room.notify := channel;
    }

    method AddTo(key: Key, room: SignalRoom, body: string) returns (message: Message)
      requires Distinct() && key in rooms && room == rooms[key]
      modifies room
      ensures message == Message(old(room.number) + 1, body) && room.number == message.number
      ensures Contents() == old(Contents()).(rooms := old(Contents()).rooms[key := Added(old(Contents()).rooms[key], body)])
    {
      hide Last;
      message := room.Add(body);
    }

    method Append(key: Key, body: string, now: int) returns (message: Message)
      requires Valid()
      modifies this, rooms.Values
      ensures Valid() && Contents() == Appending(old(Contents()), key, body, now)
      ensures message == Message(Contents().rooms[key].number, body)
      ensures forall room :: room in rooms.Values ==> room in old(rooms.Values) || fresh(room)
    {
      AppendKeepsInv(Contents(), key, body, now);
      OpenIsOpen(Contents(), key, now);
      hide Inv, Last;
      var room := GetOrCreateLocked(key, now);
      message := AddTo(key, room, body);
      Notify(key, room);
    }

    method Drop(key: Key)
      requires Distinct() && key in rooms && rooms[key].notify !in closed
      modifies this`rooms, this`closed
      ensures Distinct() && rooms == old(rooms) - {key} && closed == old(closed) + {old(rooms)[key].notify}
    {
      CloseChannel(rooms[key].notify);
      rooms := rooms - {key};
    }

    method DropStale(now: int)
      requires Valid()
      modifies this`rooms, this`closed
      ensures Distinct() && forall k :: k in rooms ==> k in old(rooms) && rooms[k] == old(rooms)[k]
      ensures forall k :: k in old(rooms) ==> (k in rooms <==> !Stale(old(rooms[k].Value()), now))
      ensures closed == old(closed) + Gone(old(Contents()), rooms.Keys)
    {
      hide Inv, Gone, Stale;
      ghost var before := Contents();
      var unseen := rooms.Keys;
      NothingGone(before, rooms.Keys);
      while unseen != {}
        invariant unseen <= rooms.Keys <= before.rooms.Keys && Distinct()
        invariant forall k :: k in rooms ==> rooms[k] == old(rooms)[k]
        invariant forall k :: k in before.rooms && k !in unseen ==> (k in rooms <==> !Stale(before.rooms[k], now))
        invariant closed == before.closed + Gone(before, rooms.Keys)
        decreases |unseen|
      {
        var key :| key in unseen;
        unseen := unseen - {key};
        assert rooms[key].Value() == before.rooms[key];
        StaleIs(before.rooms[key], now);
        if now - rooms[key].updatedAt > ROOM_TTL {
          OneMoreGone(before, rooms.Keys, key);
          Drop(key);
        }
      }
    }

    method Sweep(now: int)
      requires Valid()
      modifies this`rooms, this`closed
      ensures Valid() && Contents() == Sweeping(old(Contents()), now)
      ensures rooms.Values <= old(rooms.Values)
    {
      SweepKeepsInv(Contents(), now);
      hide Inv, Gone, Stale, Sweeping;
      ghost var before := Contents();
      DropStale(now);
      SweptStore(before, Contents(), now);
    }
  }

  /** The channels of the rooms that are not left. */
  function Gone(s: Store, left: set<Key>): set<nat> {
    set k | k in s.rooms && k !in left :: s.rooms[k].notify
  }

  lemma StaleIs(room: Room, now: int)
    ensures Stale(room, now) <==> now - room.updatedAt > ROOM_TTL
  {
  }

  lemma NothingGone(s: Store, left: set<Key>)
    requires s.rooms.Keys <= left
    ensures s.closed + Gone(s, left) == s.closed
  {
  }

  lemma OneMoreGone(s: Store, left: set<Key>, key: Key)
    requires Inv(s) && left <= s.rooms.Keys && key in left
    ensures s.rooms[key].notify !in s.closed + Gone(s, left)
    ensures Gone(s, left - {key}) == Gone(s, left) + {s.rooms[key].notify}
  {
    hide Numbered;
    assert s.rooms[key].notify in Gone(s, left - {key});
  }

  lemma SweptStore(s: Store, t: Store, now: int)
    requires forall k :: k in t.rooms ==> k in s.rooms && t.rooms[k] == s.rooms[k]
    requires forall k :: k in s.rooms ==> (k in t.rooms <==> !Stale(s.rooms[k], now))
    requires t.made == s.made && t.closed == s.closed + Gone(s, t.rooms.Keys)
    ensures t == Sweeping(s, now)
  {
    hide Stale;
  }

  // --------------------------------------------------------------------------- what every step keeps

  /** A room holds the newest messages, at most 256, numbered without gaps up to the room's number. */
  ghost predicate Numbered(room: Room) {
    && room.number >= 0 && |room.messages| == (if room.number < 256 then room.number else 256)
    && forall k :: 0 <= k < |room.messages| ==> room.messages[k].number == room.number - |room.messages| + 1 + k
  }

  /** The rooms' channels are open and their own; the channel of missing rooms is never closed. */
  ghost predicate ChannelsOk(s: Store) {
    && s.made >= 1
    && (forall c :: c in s.closed ==> PENDING < c < s.made)
    && (forall k :: k in s.rooms ==> PENDING < s.rooms[k].notify < s.made && s.rooms[k].notify !in s.closed)
    && forall j, k :: j in s.rooms && k in s.rooms && s.rooms[j].notify == s.rooms[k].notify ==> j == k
  }

  ghost predicate AllNumbered(s: Store) {
    forall k :: k in s.rooms ==> Numbered(s.rooms[k])
  }

  ghost predicate Inv(s: Store) {
    ChannelsOk(s) && AllNumbered(s)
  }

  lemma NumberedAppend(room: Room, body: string)
    requires Numbered(room)
    ensures Numbered(Added(room, body))
  {
  }

  lemma AppendKeepsChannels(s: Store, key: Key, body: string, now: int)
    requires ChannelsOk(s)
    ensures ChannelsOk(Appending(s, key, body, now))
  {
    hide Last;
  }

  lemma AppendKeepsNumbers(s: Store, key: Key, body: string, now: int)
    requires AllNumbered(s)
    ensures AllNumbered(Appending(s, key, body, now))
  {
    NumberedAppend(Open(s, key, now).rooms[key], body);
    hide Last;
  }

  lemma AppendKeepsInv(s: Store, key: Key, body: string, now: int)
    requires Inv(s)
    ensures Inv(Appending(s, key, body, now))
  {
    hide ChannelsOk, AllNumbered, Appending;
    AppendKeepsChannels(s, key, body, now);
    AppendKeepsNumbers(s, key, body, now);
  }

  lemma OpenIsOpen(s: Store, key: Key, now: int)
    requires Inv(s)
    ensures Open(s, key, now).rooms[key].notify !in Open(s, key, now).closed
  {
  }

  lemma SweepKeepsInv(s: Store, now: int)
    requires Inv(s)
    ensures Inv(Sweeping(s, now))
  {
    hide Numbered;
  }

  // --------------------------------------------------------------------------- runs

  datatype Event = Appended(key: Key, body: string, now: int) | Swept(now: int)

  function Apply(s: Store, e: Event): Store {
    match e
    case Appended(key, body, now) => Appending(s, key, body, now)
    case Swept(now) => Sweeping(s, now)
  }

  function After(s: Store, events: seq<Event>): Store {
    if events == [] then s else Apply(After(s, events[..|events| - 1]), events[|events| - 1])
  }

  lemma {:induction false} AfterKeepsInv(s: Store, events: seq<Event>)
    requires Inv(s)
    ensures Inv(After(s, events))
  {
    hide Inv;
    if events != [] {
      AfterKeepsInv(s, events[..|events| - 1]);
      ApplyKeepsInv(After(s, events[..|events| - 1]), events[|events| - 1]);
    }
  }

  lemma ApplyKeepsInv(s: Store, e: Event)
    requires Inv(s)
    ensures Inv(Apply(s, e))
  {
    hide Inv;
    match e {
      case Appended(key, body, now) => AppendKeepsInv(s, key, body, now);
      case Swept(now) => SweepKeepsInv(s, now);
    }
  }

  /** The time of the last append to a room, if there was one. */
  function LastAppend(events: seq<Event>, key: Key): Option<int> {
    if events == [] then
      None
    else
      var e := events[|events| - 1];
      if e.Appended? && e.key == key then Some(e.now) else LastAppend(events[..|events| - 1], key)
  }

  lemma {:induction false} UpdatedByAppends(events: seq<Event>, key: Key)
    ensures key in After(EMPTY, events).rooms ==> LastAppend(events, key) == Some(After(EMPTY, events).rooms[key].updatedAt)
  {
    if events != [] {
      UpdatedByAppends(events[..|events| - 1], key);
      hide Last;
    }
  }

  /** A room is made by its first append, and a sweep takes it exactly if more than ten minutes have passed since the last. */
  lemma RoomsLiveTenMinutes(events: seq<Event>, key: Key, e: Event)
    ensures var s, t := After(EMPTY, events), After(EMPTY, events + [e]);
      match e
      case Appended(k, _, _) => key in t.rooms <==> key in s.rooms || k == key
      case Swept(now) =>
        key in t.rooms <==>
          key in s.rooms && LastAppend(events, key).Some? && now <= LastAppend(events, key).value + 600_000_000_000
  {
    UpdatedByAppends(events, key);
    assert (events + [e])[..|events|] == events;
    hide Last, LastAppend;
  }

  /** Whether an event adds to a room or takes it away. */
  predicate Touches(s: Store, key: Key, e: Event)
    requires key in s.rooms
  {
    match e
    case Appended(k, _, _) => k == key
    case Swept(now) => Stale(s.rooms[key], now)
  }

  /** The channel of a room is either still the room's, which is as it was, or it is closed for good. */
  ghost predicate Watching(s: Store, key: Key, room: Room) {
    if key in s.rooms && s.rooms[key].notify == room.notify then
      s.rooms[key] == room && room.notify !in s.closed
    else
      room.notify in s.closed
  }

  lemma WatchStep(s: Store, key: Key, room: Room, e: Event)
    requires Inv(s) && room.notify < s.made && Watching(s, key, room)
    ensures Watching(Apply(s, e), key, room) && room.notify < Apply(s, e).made
    ensures room.notify in Apply(s, e).closed <==>
      room.notify in s.closed || (key in s.rooms && s.rooms[key].notify == room.notify && Touches(s, key, e))
  {
    hide Numbered, Last;
    match e {
      case Appended(k, body, now) =>
      case Swept(now) =>
        var gone := set k | k in s.rooms && Stale(s.rooms[k], now) :: s.rooms[k].notify;
        assert key in s.rooms && Stale(s.rooms[key], now) ==> s.rooms[key].notify in gone;
    }
  }

  /** Whether the run from s changes the room, or takes it away, at some point. */
  ghost predicate Disturbed(s: Store, key: Key, events: seq<Event>)
    requires key in s.rooms
  {
    exists k :: 0 <= k < |events| && DisturbedAt(s, key, events, k)
  }

  ghost predicate DisturbedAt(s: Store, key: Key, events: seq<Event>, k: nat)
    requires key in s.rooms && k < |events|
  {
    var t := After(s, events[..k]);
    key in t.rooms && t.rooms[key].notify == s.rooms[key].notify && Touches(t, key, events[k])
  }

  /**
   * A poller that was handed a room's channel is woken by the first append to the room, or by the sweep that takes
   * the room, and by nothing else; until then the room is exactly as the poller saw it.
   */
  lemma {:induction false} WokenExactlyOnChange(s: Store, key: Key, events: seq<Event>)
    requires Inv(s) && key in s.rooms
    ensures Watching(After(s, events), key, s.rooms[key]) && s.rooms[key].notify < After(s, events).made
    ensures s.rooms[key].notify in After(s, events).closed <==> Disturbed(s, key, events)
  {
    var room := s.rooms[key];
    if events == [] {
    } else {
      hide Inv, Watching, Touches, After;
      var n := |events| - 1;
      var init, e := events[..n], events[n];
      var t := After(s, init);
      WokenExactlyOnChange(s, key, init);
      AfterKeepsInv(s, init);
      AfterLast(s, events);
      WatchStep(t, key, room, e);
      forall k | 0 <= k < n ensures DisturbedAt(s, key, events, k) <==> DisturbedAt(s, key, init, k) {
        assert events[..k] == init[..k];
      }
      assert Disturbed(s, key, events) <==> Disturbed(s, key, init) || DisturbedAt(s, key, events, n);
    }
  }

  lemma AfterLast(s: Store, events: seq<Event>)
    requires events != []
    ensures After(s, events) == Apply(After(s, events[..|events| - 1]), events[|events| - 1])
  {
  }

  /** So a poller that found nothing and is not woken would still find nothing. */
  lemma NoMessageIsMissedAsleep(s: Store, key: Key, events: seq<Event>, after: int)
    requires Inv(s) && key in s.rooms && s.rooms[key].notify !in After(s, events).closed
    ensures Poll(After(s, events), key, after) == Poll(s, key, after)
  {
    WokenExactlyOnChange(s, key, events);
  }

  /** A poller of a room that does not exist is never woken, not even when the room comes to be. */
  lemma MissingRoomNeverWakes(s: Store, key: Key, events: seq<Event>, after: int)
    requires Inv(s) && key !in s.rooms
    ensures Poll(s, key, after).1 !in After(s, events).closed
  {
    AfterKeepsInv(s, events);
  }

  // --------------------------------------------------------------------------- the log

  /** What was appended to a room since it was last made. */
  function History(events: seq<Event>, key: Key): seq<string> {
    if events == [] then
      []
    else
      var before, e := History(events[..|events| - 1], key), events[|events| - 1];
      match e
      case Appended(k, body, _) => if k == key then before + [body] else before
      case Swept(_) => if key in After(EMPTY, events).rooms then before else []
  }

  function Log(history: seq<string>): (log: seq<Message>)
    ensures |log| == |history|
    ensures forall k :: 0 <= k < |log| ==> log[k] == Message(k + 1, history[k])
  {
    if history == [] then [] else Log(history[..|history| - 1]) + [Message(|history|, history[|history| - 1])]
  }

  /** The newest messages of a log. */
  ghost predicate Holds(room: Room, history: seq<string>) {
    room.number == |history| && room.messages == Last(Log(history), 256)
  }

  lemma HoldsAppend(room: Room, history: seq<string>, body: string, notify: nat)
    requires Holds(room, history)
    ensures Holds(Added(room, body).(notify := notify), history + [body])
  {
    var more := history + [body];
    assert more[..|history|] == history;
    assert Log(more) == Log(history) + [Message(|history| + 1, body)];
    hide Log;
    NewestOneMore(Log(history), Message(|history| + 1, body));
  }

  lemma NewestOneMore(log: seq<Message>, m: Message)
    ensures Last(Last(log, 256) + [m], 256) == Last(log + [m], 256)
  {
    if |log| > 256 {
      assert log == log[..|log| - 256] + Last(log, 256);
    }
  }

  lemma NothingHeld(notify: nat, now: int)
    ensures Holds(Room(0, [], notify, now), [])
  {
  }

  /** In every reachable store a room holds the newest 256 of what was appended to it since it was made. */
  lemma {:induction false} RoomsHoldTheirHistory(events: seq<Event>, key: Key)
    ensures var s := After(EMPTY, events);
      if key in s.rooms then Holds(s.rooms[key], History(events, key)) else History(events, key) == []
  {
    hide Holds, Last;
    if events != [] {
      var init, e := events[..|events| - 1], events[|events| - 1];
      var s := After(EMPTY, init);
      RoomsHoldTheirHistory(init, key);
      if e.Appended? && e.key == key {
        if key !in s.rooms {
          NothingHeld(s.made, e.now);
        }
        var o := Open(s, key, e.now);
        HoldsLater(s, key, e.now, History(init, key));
        HoldsAppend(o.rooms[key], History(init, key), e.body, o.made);
      }
    }
  }

  lemma HoldsLater(s: Store, key: Key, now: int, history: seq<string>)
    requires if key in s.rooms then Holds(s.rooms[key], history) else history == []
    ensures Holds(Open(s, key, now).rooms[key], history)
  {
  }

  lemma SuffixWithLast(messages: seq<Message>, at: nat)
    requires at < |messages|
    ensures messages[at..] == messages[..|messages| - 1][at..] + [messages[|messages| - 1]]
  {
  }

  lemma {:induction false} LaterIsSuffix(messages: seq<Message>, base: int, after: int)
    requires forall k :: 0 <= k < |messages| ==> messages[k].number == base + 1 + k
    ensures Later(messages, after)
      == messages[if after <= base then 0 else if after - base > |messages| then |messages| else after - base..]
  {
    if messages != [] {
      var n := |messages| - 1;
      var init, last := messages[..n], messages[n];
      assert forall k :: 0 <= k < n ==> init[k] == messages[k];
      LaterIsSuffix(init, base, after);
      assert Later(messages, after) == Later(init, after) + if last.number > after then [last] else [];
      hide Later;
      if after - base <= n {
        SuffixWithLast(messages, if after <= base then 0 else after - base);
      } else {
        assert init[n..] == [] && messages[n + 1..] == [];
      }
    }
  }

  /** The part of a log that a poll with this place returns: what is numbered later, at most the newest 256. */
  function Newer(log: seq<Message>, after: nat): seq<Message> {
    Last(if after <= |log| then log[after..] else [], 256)
  }

  /**
   * A poll returns what came after the poller's place, unless more than 256 did; then it returns the newest 256. A
   * place beyond the newest number, left over from a room that was swept, gets nothing.
   */
  lemma PollReturns(events: seq<Event>, key: Key, after: nat)
    requires key in After(EMPTY, events).rooms
    ensures Poll(After(EMPTY, events), key, after).0 == Newer(Log(History(events, key)), after)
  {
    var h := History(events, key);
    RoomsHoldTheirHistory(events, key);
    hide Log, Later, History, After;
    var from := if |h| > 256 then |h| - 256 else 0;
    var messages := Log(h)[from..];
    assert Last(Log(h), 256) == messages;
    LaterIsSuffix(messages, from, after);
    assert after <= |h| && after > from ==> messages[after - from..] == Log(h)[after..];
    assert after <= from ==> Last(Log(h)[after..], 256) == messages[0..];
  }

  lemma LogPrefix(history: seq<string>, n: nat)
    requires n <= |history|
    ensures Log(history[..n]) == Log(history)[..n]
  {
  }

  // --------------------------------------------------------------------------- a poller

  /** What a stretch of events appends to a room. */
  function Arrived(events: seq<Event>, key: Key): seq<string> {
    if events == [] then
      []
    else
      Arrived(events[..|events| - 1], key) + Brought(events[|events| - 1], key)
  }

  /** The room exists from after the first p events until after the first q. */
  ghost predicate Lives(events: seq<Event>, key: Key, p: nat, q: nat)
    requires q <= |events|
  {
    forall r :: p <= r <= q ==> key in After(EMPTY, events[..r]).rooms
  }

  /** While a room lives its history only grows, by what arrives. */
  lemma {:induction false} HistoryGrows(events: seq<Event>, key: Key, p: nat, q: nat)
    requires p <= q <= |events| && Lives(events, key, p, q)
    ensures History(events[..q], key) == History(events[..p], key) + Arrived(events[p..q], key)
    decreases q
  {
    if p == q {
      hide After, History;
      assert events[p..q] == [];
    } else {
      hide *;
      LivesBefore(events, key, p, q);
      HistoryGrows(events, key, p, q - 1);
      SlicesBefore(events, p, q);
      OneMoreHappens(events[..q], key);
      OneMoreArrives(events[p..q], key);
      ConcatAssociates(History(events[..p], key), Arrived(events[p..q - 1], key), Brought(events[q - 1], key));
    }
  }

  lemma LivesBefore(events: seq<Event>, key: Key, p: nat, q: nat)
    requires p < q <= |events| && Lives(events, key, p, q)
    ensures Lives(events, key, p, q - 1) && key in After(EMPTY, events[..q]).rooms
  {
    hide After;
  }

  lemma SlicesBefore<T>(s: seq<T>, p: nat, q: nat)
    requires p < q <= |s|
    ensures s[..q][..|s[..q]| - 1] == s[..q - 1] && s[..q][|s[..q]| - 1] == s[q - 1]
    ensures s[p..q][..|s[p..q]| - 1] == s[p..q - 1] && s[p..q][|s[p..q]| - 1] == s[q - 1]
  {
  }

  /** What one event appends to a room. */
  function Brought(e: Event, key: Key): seq<string> {
    if e.Appended? && e.key == key then [e.body] else []
  }

  lemma OneMoreHappens(events: seq<Event>, key: Key)
    requires events != [] && key in After(EMPTY, events).rooms
    ensures History(events, key) == History(events[..|events| - 1], key) + Brought(events[|events| - 1], key)
  {
    hide After;
    var before := History(events[..|events| - 1], key);
    assert before + [] == before;
  }

  lemma OneMoreArrives(events: seq<Event>, key: Key)
    requires events != []
    ensures Arrived(events, key) == Arrived(events[..|events| - 1], key) + Brought(events[|events| - 1], key)
  {
  }

  /** The number from which a poller resumes: that of the last message received, or the place it came with. */
  function Place(received: seq<Message>, from: nat): int {
    if received == [] then from else received[|received| - 1].number
  }

  /** Polls after the first at[0], at[1], ... events, all in one lifetime of the room. */
  ghost predicate InOneLifetime(events: seq<Event>, key: Key, at: seq<nat>) {
    && (forall k :: 0 <= k < |at| ==> at[k] <= |events|)
    && (forall j, k :: 0 <= j <= k < |at| ==> at[j] <= at[k])
    && (at != [] ==> Lives(events, key, at[0], at[|at| - 1]))
  }

  /**
   * What a poller receives in all that polls at these times, each time from the last number it received. It comes with
   * the place `from`: 0 if it is new, another number if it polled a room of this name before.
   */
  ghost function Received(events: seq<Event>, key: Key, at: seq<nat>, from: nat): seq<Message>
    requires InOneLifetime(events, key, at)
  {
    if at == [] then
      []
    else
      var before := Received(events, key, at[..|at| - 1], from);
      before + Poll(After(EMPTY, events[..at[|at| - 1]]), key, Place(before, from)).0
  }

  /** How many of n messages are numbered beyond a place. */
  function Beyond(n: nat, from: nat): nat {
    if n > from then n - from else 0
  }

  /** How much of the history there was at the poll before poll k. */
  function Before(events: seq<Event>, key: Key, at: seq<nat>, k: nat): seq<string>
    requires k <= |at| && (k > 0 ==> at[k - 1] <= |events|)
  {
    if k == 0 then [] else History(events[..at[k - 1]], key)
  }

  /** How many messages beyond the place the poller came with a poll finds new since the poll before. */
  function NewAt(events: seq<Event>, key: Key, at: seq<nat>, from: nat, k: nat): int
    requires k < |at| && at[k] <= |events| && (k > 0 ==> at[k - 1] <= |events|)
  {
    Beyond(|History(events[..at[k]], key)|, from) - Beyond(|Before(events, key, at, k)|, from)
  }

  ghost predicate PollsKeepUp(events: seq<Event>, key: Key, at: seq<nat>, from: nat)
    requires InOneLifetime(events, key, at)
  {
    forall k :: 0 <= k < |at| ==> NewAt(events, key, at, from, k) <= 256
  }

  lemma LastKeepsUp(events: seq<Event>, key: Key, at: seq<nat>, from: nat)
    requires InOneLifetime(events, key, at) && at != []
    ensures PollsKeepUp(events, key, at, from) <==>
      PollsKeepUp(events, key, at[..|at| - 1], from) && NewAt(events, key, at, from, |at| - 1) <= 256
  {
    hide History, Arrived, Lives;
    var n := |at| - 1;
    forall k | 0 <= k < n ensures NewAt(events, key, at[..n], from, k) == NewAt(events, key, at, from, k) {
    }
  }

  lemma SameHead<T>(a: seq<T>, b: seq<T>, tail: seq<T>)
    ensures a + tail == b + tail <==> a == b
  {
    if a + tail == b + tail {
      assert |a| == |b| && (a + tail)[..|a|] == a && (b + tail)[..|b|] == b;
    }
  }

  /** The log from a place on. */
  function Wanted(log: seq<Message>, from: nat): seq<Message> {
    if from <= |log| then log[from..] else []
  }

  /** What a poller must have received in all when the history was `before`. */
  ghost predicate UpTo(before: seq<string>, from: nat, got: seq<Message>) {
    && Place(got, from) == from + Beyond(|before|, from) && |got| <= Beyond(|before|, from)
    && forall m :: m in got ==> m.number > from
  }

  lemma TailCutShort<T>(got: seq<T>, all: seq<T>, tail: seq<T>, n: nat)
    requires |got| <= |all|
    ensures got + Last(tail, n) == all + tail <==> got == all && |tail| <= n
  {
    if |tail| <= n { SameHead(got, all, tail); }
  }

  /** What is wanted of a log that has grown: what was wanted before, and the messages numbered beyond that. */
  lemma WantedMore(before: seq<string>, now: seq<string>, from: nat)
    requires before <= now
    ensures var place := from + Beyond(|before|, from);
      var tail := Wanted(Log(now), place);
      && Wanted(Log(now), from) == Wanted(Log(before), from) + tail && Newer(Log(now), place) == Last(tail, 256)
      && |Wanted(Log(before), from)| == Beyond(|before|, from)
      && |tail| == Beyond(|now|, from) - Beyond(|before|, from)
      && forall k :: 0 <= k < |tail| ==> tail[k].number == place + 1 + k
  {
    hide Log;
    assert now[..|before|] == before;
    LogPrefix(now, |before|);
    TailOfTail(Log(now), |before|, from);
  }

  lemma TailOfTail(log: seq<Message>, n: nat, from: nat)
    requires n <= |log|
    ensures Wanted(log, from) == Wanted(log[..n], from) + Wanted(log, from + Beyond(n, from))
  {
    if from <= n {
      assert log[from..] == log[from..n] + log[n..];
      assert log[..n][from..] == log[from..n];
    }
  }

  lemma UpToMore(before: seq<string>, from: nat, got: seq<Message>, more: seq<Message>, now: seq<string>)
    requires UpTo(before, from, got) && |more| <= Beyond(|now|, from) - Beyond(|before|, from)
    requires more == [] ==> Beyond(|now|, from) == Beyond(|before|, from)
    requires more != [] ==> more[|more| - 1].number == from + Beyond(|now|, from)
    requires forall k :: 0 <= k < |more| ==> more[k].number > from
    ensures UpTo(now, from, got + more)
  {
    if more == [] { assert got + more == got; }
    hide Beyond;
  }

  /** One poll more, from the end of a history that was all of the log when the poll before was made. */
  lemma OneMorePoll(before: seq<string>, now: seq<string>, from: nat, got: seq<Message>, more: seq<Message>)
    requires before <= now && UpTo(before, from, got)
    requires more == Newer(Log(now), from + Beyond(|before|, from))
    ensures UpTo(now, from, got + more)
    ensures got + more == Wanted(Log(now), from) <==>
      got == Wanted(Log(before), from) && Beyond(|now|, from) - Beyond(|before|, from) <= 256
  {
    WantedMore(before, now, from);
    OneMorePart(before, now, from, got, more, Wanted(Log(now), from + Beyond(|before|, from)));
  }

  lemma OneMorePart(before: seq<string>, now: seq<string>, from: nat, got: seq<Message>, more: seq<Message>,
          tail: seq<Message>)
    requires UpTo(before, from, got) && more == Last(tail, 256)
    requires Wanted(Log(now), from) == Wanted(Log(before), from) + tail
    requires |Wanted(Log(before), from)| == Beyond(|before|, from)
    requires |tail| == Beyond(|now|, from) - Beyond(|before|, from)
    requires forall k :: 0 <= k < |tail| ==> tail[k].number == from + Beyond(|before|, from) + 1 + k
    ensures UpTo(now, from, got + more)
    ensures got + more == Wanted(Log(now), from) <==>
      got == Wanted(Log(before), from) && Beyond(|now|, from) - Beyond(|before|, from) <= 256
  {
    hide Log, Wanted, Place, UpTo, Beyond, Last;
    PlaceUpTo(before, from, got);
    TailCutShort(got, Wanted(Log(before), from), tail, 256);
    LastNumbers(tail, 256, from + Beyond(|before|, from));
    UpToMore(before, from, got, more, now);
  }

  lemma LastNumbers(tail: seq<Message>, n: nat, place: nat)
    requires forall k :: 0 <= k < |tail| ==> tail[k].number == place + 1 + k
    ensures n > 0 && tail != [] ==> Last(tail, n) != [] && Last(tail, n)[|Last(tail, n)| - 1].number == place + |tail|
    ensures forall k :: 0 <= k < |Last(tail, n)| ==> Last(tail, n)[k].number > place
  {
  }

  /** The last poll of several, in terms of the histories at it and at the one before. */
  lemma LastPoll(events: seq<Event>, key: Key, at: seq<nat>, place: nat)
    requires InOneLifetime(events, key, at) && at != []
    ensures var n := |at| - 1;
      var now := History(events[..at[n]], key);
      && Before(events, key, at, n) <= now
      && Poll(After(EMPTY, events[..at[n]]), key, place).0 == Newer(Log(now), place)
  {
    hide Log, History, Arrived, After, Poll, Newer;
    var n := |at| - 1;
    assert key in After(EMPTY, events[..at[n]]).rooms;
    if n > 0 {
      HistoryGrows(events, key, at[n - 1], at[n]);
    }
    PollReturns(events[..at[n]], key, place);
  }

  /**
   * Within one lifetime of a room, a poller that resumes each time from the number of the last message it received
   * gets every message numbered beyond the place it came with, once and in order, if and only if at most 256 such
   * messages arrive between two polls; and it never gets another. A new poller comes with 0, so it gets all messages;
   * one that has polled the room before a sweep misses as many of the new messages as its place says.
   */
  lemma EveryMessageOnce(events: seq<Event>, key: Key, at: seq<nat>, from: nat)
    requires InOneLifetime(events, key, at) && at != []
    ensures var now, got := History(events[..at[|at| - 1]], key), Received(events, key, at, from);
      && (got == Wanted(Log(now), from) <==> PollsKeepUp(events, key, at, from))
      && Place(got, from) == from + Beyond(|now|, from) && |got| <= Beyond(|now|, from)
      && forall m :: m in got ==> m.number > from
  {
    ReceivedSoFar(events, key, at, from);
    hide Log, History, After, Poll, Lives, Place, PollsKeepUp, Wanted, Beyond, Received;
  }

  lemma {:induction false} ReceivedSoFar(events: seq<Event>, key: Key, at: seq<nat>, from: nat)
    requires InOneLifetime(events, key, at)
    ensures var now, got := Before(events, key, at, |at|), Received(events, key, at, from);
      UpTo(now, from, got) && (got == Wanted(Log(now), from) <==> PollsKeepUp(events, key, at, from))
    decreases |at|
  {
    if at == [] {
      NoPolls(events, key, from);
    } else {
      InitInLifetime(events, key, at);
      ReceivedSoFar(events, key, at[..|at| - 1], from);
      ReceivedThen(events, key, at, from);
    }
  }

  lemma ReceivedThen(events: seq<Event>, key: Key, at: seq<nat>, from: nat)
    requires InOneLifetime(events, key, at) && at != []
    requires var init := at[..|at| - 1];
      && InOneLifetime(events, key, init)
      && var before, got := Before(events, key, init, |init|), Received(events, key, init, from);
      UpTo(before, from, got) && (got == Wanted(Log(before), from) <==> PollsKeepUp(events, key, init, from))
    ensures var now, got := Before(events, key, at, |at|), Received(events, key, at, from);
      UpTo(now, from, got) && (got == Wanted(Log(now), from) <==> PollsKeepUp(events, key, at, from))
  {
    hide UpTo, Place, Beyond, History, Log, Wanted, Newer, After, Poll, Lives, Received, Before, NewAt, PollsKeepUp;
    var n := |at| - 1;
    var before, got := Before(events, key, at, n), Received(events, key, at[..n], from);
    BeforeLast(events, key, at);
    LastKeepsUp(events, key, at, from);
    PlaceUpTo(before, from, got);
    LastPoll(events, key, at, from + Beyond(|before|, from));
    OneMorePoll(before, Before(events, key, at, |at|), from, got,
      Poll(After(EMPTY, events[..at[n]]), key, from + Beyond(|before|, from)).0);
    ReceivedMore(events, key, at, from);
    NewAtLast(events, key, at, from);
  }

  lemma BeforeLast(events: seq<Event>, key: Key, at: seq<nat>)
    requires InOneLifetime(events, key, at) && at != []
    ensures Before(events, key, at[..|at| - 1], |at| - 1) == Before(events, key, at, |at| - 1)
    ensures Before(events, key, at, |at|) == History(events[..at[|at| - 1]], key)
  {
    hide History, Lives;
  }

  lemma ReceivedMore(events: seq<Event>, key: Key, at: seq<nat>, from: nat)
    requires InOneLifetime(events, key, at) && at != [] && InOneLifetime(events, key, at[..|at| - 1])
    ensures var before := Received(events, key, at[..|at| - 1], from);
      Received(events, key, at, from) == before + Poll(After(EMPTY, events[..at[|at| - 1]]), key, Place(before, from)).0
  {
    hide Poll, After, Place, Lives;
  }

  lemma NewAtLast(events: seq<Event>, key: Key, at: seq<nat>, from: nat)
    requires InOneLifetime(events, key, at) && at != []
    ensures NewAt(events, key, at, from, |at| - 1)
         == Beyond(|Before(events, key, at, |at|)|, from) - Beyond(|Before(events, key, at, |at| - 1)|, from)
  {
    hide Beyond, History, Lives;
  }

  lemma PlaceUpTo(before: seq<string>, from: nat, got: seq<Message>)
    requires UpTo(before, from, got)
    ensures Place(got, from) == from + Beyond(|before|, from) && |got| <= Beyond(|before|, from)
  {
    hide Place, Beyond;
  }

  lemma InitInLifetime(events: seq<Event>, key: Key, at: seq<nat>)
    requires InOneLifetime(events, key, at) && at != []
    ensures InOneLifetime(events, key, at[..|at| - 1])
  {
    hide After;
  }

  lemma NoPolls(events: seq<Event>, key: Key, from: nat)
    ensures InOneLifetime(events, key, []) && PollsKeepUp(events, key, [], from)
    ensures Received(events, key, [], from) == [] == Wanted(Log([]), from) && UpTo([], from, [])
  {
  }
}
