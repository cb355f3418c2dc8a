/**
 * The room registry of the relay (`ConnectionManager`): which connections
 * are in which room, each room's spoken language, each connection's last
 * payload, and the subscribers to metrics. Connections are identified by
 * number; the outcome of a send is given as the set of connections whose
 * send fails.
 */
module Rooms {

  /** The three registry maps together. */
  datatype Registry = Registry(
    rooms: map<string, set<nat>>,
    languages: map<string, string>,
    lastMessage: map<nat, string>)

  /** The members of a room (none for an unknown room). */
  function Members(st: Registry, room: string): set<nat> {
    if room in st.rooms then st.rooms[room] else {}
  }

  /** No room holds more than `cap` connections. */
  predicate WithinCapacity(rooms: map<string, set<nat>>, cap: nat) {
    forall r :: r in rooms ==> |rooms[r]| <= cap
  }

  /** Replacing one room's members by a set within the bound keeps the
      bound. */
  lemma UpdateWithinCapacity(rooms: map<string, set<nat>>, room: string, members: set<nat>, cap: nat)
    requires WithinCapacity(rooms, cap) && |members| <= cap
    ensures WithinCapacity(rooms[room := members], cap)
  {
  }

  /** The language a room translates from: `id` unless set. */
  function RoomLanguage(languages: map<string, string>, room: string): string {
    if room in languages then languages[room] else "id"
  }

  /** The target language paired with a source language. */
  function TargetFor(source: string): (r: string)
    ensures r == "en" <==> source == "id"
    ensures r != "en" ==> r == "id"
  {
    if source == "id" then "en" else "id"
  }

  // ----------------------------------------------------------- disconnect

  /** `disconnect(ws, room)`: the connection leaves the room; an emptied
      room is dropped with its language; the connection's last payload is
      forgotten whichever room it named. */
  function Disconnected(st: Registry, ws: nat, room: string): Registry {
    var lm := st.lastMessage - {ws};
    if room in st.rooms then
      var rest := st.rooms[room] - {ws};
      if rest == {} then Registry(st.rooms - {room}, st.languages - {room}, lm)
      else Registry(st.rooms[room := rest], st.languages, lm)
    else st.(lastMessage := lm)
  }

  /** Disconnecting twice is the same as disconnecting once. */
  lemma DisconnectIdempotent(st: Registry, ws: nat, room: string)
    ensures Disconnected(Disconnected(st, ws, room), ws, room) == Disconnected(st, ws, room)
  {
    var once := Disconnected(st, ws, room);
    if room in once.rooms {
      assert once.rooms[room] - {ws} == once.rooms[room];
      assert once.rooms[room := once.rooms[room]] == once.rooms;
    }
    assert once.lastMessage - {ws} == once.lastMessage;
  }

  /** Disconnecting removes exactly the given connection from the given
      room, keeps every other room and language as they were, and drops
      the room's language exactly when the room empties. */
  lemma DisconnectSpec(st: Registry, ws: nat, room: string, r: string, c: nat)
    ensures c in Members(Disconnected(st, ws, room), r) <==>
      c in Members(st, r) && !(r == room && c == ws)
    ensures r != room ==> (r in Disconnected(st, ws, room).rooms <==> r in st.rooms)
    ensures r != room ==> (r in Disconnected(st, ws, room).languages <==> r in st.languages)
    ensures r != room && r in st.languages ==> Disconnected(st, ws, room).languages[r] == st.languages[r]
    ensures room in st.rooms ==>
      (room !in Disconnected(st, ws, room).rooms <==> st.rooms[room] <= {ws})
    ensures room in st.rooms && st.rooms[room] <= {ws} ==> room !in Disconnected(st, ws, room).languages
    ensures !(room in st.rooms && st.rooms[room] <= {ws}) ==> Disconnected(st, ws, room).languages == st.languages
    ensures room !in st.rooms ==> Disconnected(st, ws, room).rooms == st.rooms
    ensures Disconnected(st, ws, room).lastMessage == st.lastMessage - {ws}
  {
  }

  /** Disconnecting never breaks the capacity bound. */
  lemma DisconnectWithinCapacity(st: Registry, ws: nat, room: string, cap: nat)
    requires WithinCapacity(st.rooms, cap)
    ensures WithinCapacity(Disconnected(st, ws, room).rooms, cap)
  {
    if room in st.rooms {
      assert |st.rooms[room] - {ws}| <= |st.rooms[room]|;
    }
  }

  /** `disconnect` applied to each connection of `cs` in turn. */
  function DisconnectAll(st: Registry, cs: seq<nat>, room: string): Registry {
    if cs == [] then st else Disconnected(DisconnectAll(st, cs[..|cs| - 1], room), cs[|cs| - 1], room)
  }

  function Elems(cs: seq<nat>): set<nat> {
    set i | 0 <= i < |cs| :: cs[i]
  }

  lemma ElemsSnoc(cs: seq<nat>, c: nat)
    ensures Elems(cs + [c]) == Elems(cs) + {c}
  {
    var a := cs + [c];
    forall x | x in Elems(a) ensures x in Elems(cs) + {c} {
      var i :| 0 <= i < |a| && a[i] == x;
      if i < |cs| { assert cs[i] == x; }
    }
    forall x | x in Elems(cs) ensures x in Elems(a) {
      var i :| 0 <= i < |cs| && cs[i] == x;
      assert a[i] == x;
    }
    assert a[|cs|] == c;
  }

  /** The registry once the connections `gone` of a room have left. */
  function Pruned(st: Registry, room: string, gone: set<nat>): Registry
    requires room in st.rooms
  {
    var rest := st.rooms[room] - gone;
    var lm := st.lastMessage - gone;
    if rest == {} then Registry(st.rooms - {room}, st.languages - {room}, lm)
    else Registry(st.rooms[room := rest], st.languages, lm)
  }

  /** One more member leaving a pruned room. */
  lemma PrunedStep(st: Registry, room: string, before: set<nat>, c: nat)
    requires room in st.rooms && c in st.rooms[room]
    ensures Disconnected(Pruned(st, room, before), c, room) == Pruned(st, room, before + {c})
  {
    var mid := Pruned(st, room, before);
    var all := before + {c};
    assert st.rooms[room] - before - {c} == st.rooms[room] - all;
    assert st.lastMessage - before - {c} == st.lastMessage - all;
    if room !in mid.rooms {
      assert st.rooms[room] - before == {};
      assert c !in st.rooms[room] - before;
      assert all == before;
    }
  }

  /** Disconnecting several members one after another removes all of them
      at once, and drops the room only if nobody is left. */
  lemma {:induction false} DisconnectAllPrunes(st: Registry, cs: seq<nat>, room: string)
    requires room in st.rooms && cs != []
    requires forall i :: 0 <= i < |cs| ==> cs[i] in st.rooms[room]
    ensures DisconnectAll(st, cs, room) == Pruned(st, room, Elems(cs))
  {
    var p := cs[..|cs| - 1];
    var c := cs[|cs| - 1];
    assert cs == p + [c];
    ElemsSnoc(p, c);
    if p == [] {
      assert st.rooms[room] - {} == st.rooms[room] != {};
      assert st.rooms[room := st.rooms[room]] == st.rooms;
      assert st.lastMessage - {} == st.lastMessage;
      assert Pruned(st, room, {}) == st;
      assert Elems(p) == {};
      PrunedStep(st, room, {}, c);
    } else {
      DisconnectAllPrunes(st, p, room);
      PrunedStep(st, room, Elems(p), c);
    }
  }

  // ------------------------------------------------------------ broadcast

  /** The registry after `broadcast_to_room(room, ...)` when the sends to
      `failing` fail: every member whose send failed is disconnected. */
  function AfterBroadcast(st: Registry, room: string, failing: set<nat>): Registry {
    if room !in st.rooms || st.rooms[room] * failing == {} then st
    else Pruned(st, room, st.rooms[room] * failing)
  }

  /** Exactly the members whose send failed are gone; every other member,
      and every other room, stays. */
  lemma BroadcastRemovesExactlyFailed(st: Registry, room: string, failing: set<nat>, r: string, c: nat)
    ensures c in Members(AfterBroadcast(st, room, failing), r) <==>
      c in Members(st, r) && !(r == room && c in failing)
    ensures r != room ==> (r in AfterBroadcast(st, room, failing).rooms <==> r in st.rooms)
    ensures room !in st.rooms ==> AfterBroadcast(st, room, failing) == st
  {
    if room in st.rooms && st.rooms[room] * failing != {} {
      var gone := st.rooms[room] * failing;
      PrunedMembers(st, room, gone, r, c);
    } else if room in st.rooms {
      assert c !in st.rooms[room] * failing;
    }
  }

  /** Pruning removes exactly the gone members of that one room. */
  lemma PrunedMembers(st: Registry, room: string, gone: set<nat>, r: string, c: nat)
    requires room in st.rooms
    ensures c in Members(Pruned(st, room, gone), r) <==> c in Members(st, r) && !(r == room && c in gone)
    ensures r != room ==> (r in Pruned(st, room, gone).rooms <==> r in st.rooms)
  {
    var rest := st.rooms[room] - gone;
    if r == room && rest == {} {
      assert c !in rest;
    }
  }

  lemma BroadcastWithinCapacity(st: Registry, room: string, failing: set<nat>, cap: nat)
    requires WithinCapacity(st.rooms, cap)
    ensures WithinCapacity(AfterBroadcast(st, room, failing).rooms, cap)
  {
    if room in st.rooms {
      assert |st.rooms[room] - st.rooms[room] * failing| <= |st.rooms[room]|;
    }
  }

  /** The first pass of `broadcast_to_room`: send to every member of
      `members`; the sends to `failing` fail and are collected, in the
      order they happened. Returns the members reached and the failures. */
  method SendAll(members: set<nat>, failing: set<nat>) returns (delivered: set<nat>, disconnected: seq<nat>)
    ensures delivered == members - failing
    ensures Elems(disconnected) == members * failing
    ensures forall i :: 0 <= i < |disconnected| ==> disconnected[i] in members
  {
    var pending := members;
    disconnected := [];
    delivered := {};
    while pending != {}
      invariant pending <= members
      invariant delivered == (members - pending) - failing
      invariant forall i :: 0 <= i < |disconnected| ==> disconnected[i] in members
      invariant Elems(disconnected) == (members - pending) * failing
      decreases |pending|
    {
      var c :| c in pending;
      if c in failing {
        ElemsSnoc(disconnected, c);
        disconnected := disconnected + [c];
      } else {
        delivered := delivered + {c};
      }
      pending := pending - {c};
    }
  }

  // ------------------------------------------------------------ duplicates

  /** `is_duplicate_message` on the last-payload map: the verdict and the
      map it leaves. */
  function DuplicateStep(last: map<nat, string>, ws: nat, payload: string): (bool, map<nat, string>) {
    if ws in last && last[ws] == payload then (true, last) else (false, last[ws := payload])
  }

  /** The verdicts for payloads sent one after another by `ws`. */
  function DuplicateVerdicts(last: map<nat, string>, ws: nat, payloads: seq<string>): (r: seq<bool>)
    ensures |r| == |payloads|
    decreases |payloads|
  {
    if payloads == [] then []
    else
      var (d, last') := DuplicateStep(last, ws, payloads[0]);
      [d] + DuplicateVerdicts(last', ws, payloads[1..])
  }

  /** Whatever the verdict, the payload is afterwards the connection's last
      one, and nobody else's record changes. */
  lemma DuplicateStepRemembers(last: map<nat, string>, ws: nat, payload: string)
    ensures DuplicateStep(last, ws, payload).1 == last[ws := payload]
    ensures DuplicateStep(last, ws, payload).0 <==> ws in last && last[ws] == payload
  {
  }

  /** A run of identical payloads: the second and every later one is
      flagged; the first is flagged only if it repeats the stored one. */
  lemma {:induction false} RepeatsFlagged(last: map<nat, string>, ws: nat, payloads: seq<string>, m: string)
    requires forall i :: 0 <= i < |payloads| ==> payloads[i] == m
    ensures forall i :: 1 <= i < |payloads| ==> DuplicateVerdicts(last, ws, payloads)[i]
    ensures payloads != [] ==> (DuplicateVerdicts(last, ws, payloads)[0] <==> ws in last && last[ws] == m)
    decreases |payloads|
  {
    if payloads != [] {
      var last' := DuplicateStep(last, ws, m).1;
      assert ws in last' && last'[ws] == m;
      RepeatsFlagged(last', ws, payloads[1..], m);
      var rest := payloads[1..];
      if rest != [] {
        assert DuplicateVerdicts(last', ws, rest)[0];
      }
      assert DuplicateVerdicts(last, ws, payloads) == [DuplicateStep(last, ws, m).0] + DuplicateVerdicts(last', ws, rest);
    }
  }

  // -------------------------------------------------------------- manager

  /** `ConnectionManager`. */
  class ConnectionManager {
    var activeConnections: map<string, set<nat>>
    var roomLanguages: map<string, string>
    var clientLastMessage: map<nat, string>
    var metricsConnections: set<nat>
    /** `MAX_CONNECTIONS_PER_ROOM`. */
    const maxPerRoom: nat

    function State(): Registry
      reads this
    {
      Registry(activeConnections, roomLanguages, clientLastMessage)
    }

    ghost predicate Valid()
      reads this
    {
      WithinCapacity(activeConnections, maxPerRoom)
    }

    constructor (maxPerRoom: nat)
      ensures Valid() && this.maxPerRoom == maxPerRoom
      ensures State() == Registry(map[], map[], map[]) && metricsConnections == {}
    {
      this.maxPerRoom := maxPerRoom;
      activeConnections := map[];
      roomLanguages := map[];
      clientLastMessage := map[];
      metricsConnections := {};
    }

    /** `connect(ws, room)`: the room entry is created if absent, even when
        the connection is then refused for a full room. */
    method Connect(ws: nat, room: string) returns (ok: bool)
      requires Valid()
      modifies this
      ensures Valid()
      ensures ok <==> |Members(old(State()), room)| < maxPerRoom
      ensures activeConnections == old(activeConnections)[room := Members(old(State()), room) + (if ok then {ws} else {})]
      ensures roomLanguages == old(roomLanguages) && clientLastMessage == old(clientLastMessage)
      ensures metricsConnections == old(metricsConnections)
    {
      ghost var before := activeConnections;
      if room !in activeConnections {
        activeConnections := activeConnections[room := {}];
        UpdateWithinCapacity(before, room, {}, maxPerRoom);
      } else {
        assert before[room := before[room]] == before;
      }
      assert activeConnections == before[room := Members(old(State()), room)];
      if |activeConnections[room]| >= maxPerRoom {
        return false;
      }
      var joined := activeConnections[room] + {ws};
      assert |joined| <= |activeConnections[room]| + 1;
      UpdateWithinCapacity(before, room, joined, maxPerRoom);
      activeConnections := activeConnections[room := joined];
      assert activeConnections == before[room := joined];
      return true;
    }

    /** `disconnect(ws, room)`. */
    method Disconnect(ws: nat, room: string)
      requires Valid()
      modifies this
      ensures Valid()
      ensures State() == Disconnected(old(State()), ws, room)
      ensures metricsConnections == old(metricsConnections)
    {
      LeaveRoom(ws, room);
      if ws in clientLastMessage {
        clientLastMessage := clientLastMessage - {ws};
      } else {
        assert old(clientLastMessage) - {ws} == old(clientLastMessage);
      }
    }

    /** The room half of `disconnect`: leave the room, and drop it with its
        language once it is empty. */
    method LeaveRoom(ws: nat, room: string)
      requires Valid()
      modifies this
      ensures Valid()
      ensures activeConnections == Disconnected(old(State()), ws, room).rooms
      ensures roomLanguages == Disconnected(old(State()), ws, room).languages
      ensures clientLastMessage == old(clientLastMessage) && metricsConnections == old(metricsConnections)
    {
      ghost var st := State();
      DisconnectWithinCapacity(st, ws, room, maxPerRoom);
      if room in activeConnections {
        activeConnections := activeConnections[room := activeConnections[room] - {ws}];
        if activeConnections[room] == {} {
          assert activeConnections - {room} == st.rooms - {room};
          activeConnections := activeConnections - {room};
          if room in roomLanguages {
            roomLanguages := roomLanguages - {room};
          }
          assert roomLanguages == st.languages - {room};
        }
      }
    }

    method SetRoomLanguage(room: string, language: string)
      modifies this
      ensures roomLanguages == old(roomLanguages)[room := language]
      ensures activeConnections == old(activeConnections) && clientLastMessage == old(clientLastMessage)
      ensures metricsConnections == old(metricsConnections)
    {
      roomLanguages := roomLanguages[room := language];
    }

    /** `get_room_language`: the language set for the room, `id` if none. */
    function GetRoomLanguage(room: string): (r: string)
      reads this
      ensures room in roomLanguages ==> r == roomLanguages[room]
      ensures room !in roomLanguages ==> r == "id"
    {
      RoomLanguage(roomLanguages, room)
    }

    method IsDuplicateMessage(ws: nat, payload: string) returns (dup: bool)
      modifies this
      ensures (dup, clientLastMessage) == DuplicateStep(old(clientLastMessage), ws, payload)
      ensures activeConnections == old(activeConnections) && roomLanguages == old(roomLanguages)
      ensures metricsConnections == old(metricsConnections)
    {
      if ws in clientLastMessage && clientLastMessage[ws] == payload {
        return true;
      }
      clientLastMessage := clientLastMessage[ws := payload];
      return false;
    }

    /** `broadcast_to_room(room, message)` when the sends to `failing`
        fail: one pass sends and collects the failures, a second pass
        disconnects them. Returns the members reached. */
    method BroadcastToRoom(room: string, failing: set<nat>) returns (delivered: set<nat>)
      requires Valid()
      modifies this
      ensures Valid()
      ensures delivered == Members(old(State()), room) - failing
      ensures State() == AfterBroadcast(old(State()), room, failing)
      ensures metricsConnections == old(metricsConnections)
    {
      if room !in activeConnections {
        return {};
      }
      ghost var st := State();
      var disconnected;
      delivered, disconnected := SendAll(activeConnections[room], failing);
      DisconnectEach(disconnected, room);
      if disconnected != [] {
        DisconnectAllPrunes(st, disconnected, room);
        assert disconnected[0] in Elems(disconnected);
      } else {
        assert Elems(disconnected) == {};
      }
    }

    /** The second pass of `broadcast_to_room`: `disconnect` each collected
        failure in turn. */
    method DisconnectEach(cs: seq<nat>, room: string)
      requires Valid()
      modifies this
      ensures Valid() && State() == DisconnectAll(old(State()), cs, room)
      ensures metricsConnections == old(metricsConnections)
    {
      ghost var st := State();
      var i := 0;
      while i < |cs|
        invariant 0 <= i <= |cs|
        invariant Valid() && State() == DisconnectAll(st, cs[..i], room)
        invariant metricsConnections == old(metricsConnections)
      {
        assert cs[..i + 1][..i] == cs[..i];
        Disconnect(cs[i], room);
        i := i + 1;
      }
      assert cs[..|cs|] == cs;
    }

    /** `broadcast_metrics`: every metrics subscriber whose send fails is
        dropped. Returns the subscribers reached. */
    method BroadcastMetrics(failing: set<nat>) returns (delivered: set<nat>)
      modifies this
      ensures delivered == old(metricsConnections) - failing
      ensures metricsConnections == old(metricsConnections) - failing
      ensures State() == old(State())
    {
      var pending := metricsConnections;
      var disconnected: set<nat> := {};
      delivered := {};
      while pending != {}
        invariant pending <= metricsConnections
        invariant delivered == (metricsConnections - pending) - failing
        invariant disconnected == (metricsConnections - pending) * failing
        decreases |pending|
      {
        var c :| c in pending;
        if c in failing {
          disconnected := disconnected + {c};
        } else {
          delivered := delivered + {c};
        }
        pending := pending - {c};
      }
      metricsConnections := metricsConnections - disconnected;
    }

    /** The metrics endpoint accepting a subscriber. */
    method AddMetricsClient(ws: nat)
      modifies this
      ensures metricsConnections == old(metricsConnections) + {ws}
      ensures State() == old(State())
    {
      metricsConnections := metricsConnections + {ws};
    }

    /** The metrics endpoint losing a subscriber. */
    method RemoveMetricsClient(ws: nat)
      modifies this
      ensures metricsConnections == old(metricsConnections) - {ws}
      ensures State() == old(State())
    {
      metricsConnections := metricsConnections - {ws};
    }
  }
}
