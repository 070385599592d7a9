/** The gateway over the registry: connecting, room frames, and broadcasting. */
module RealtimeGateway {
  import opened Common
  import opened Rooms
  import opened Realtime

  datatype Intent = ToJoin | ToLeave

  /** A room frame off the wire: something else, or a list of what should be names. */
  datatype Body = NotARequest | Request(names: seq<Option<string>>)

  datatype Refusal = MalformedPayload | RoomLimitExceeded | UnknownRoom | ForbiddenRoom

  // ---------------------------------------------------------------- reading a frame

  predicate NameOk(who: Audience, name: Option<string>, intent: Intent) {
    ParseRoom(name).Some? && (intent == ToJoin ==> CanJoin(who, ParseRoom(name).value))
  }

  predicate NamesOk(who: Audience, names: seq<Option<string>>, intent: Intent) {
    forall i :: 0 <= i < |names| ==> NameOk(who, names[i], intent)
  }

  /** The rooms named, in the order they are. */
  function RoomsOf(names: seq<Option<string>>): seq<Room> {
    if names == [] then []
    else
      var last := ParseRoom(names[|names| - 1]);
      RoomsOf(names[..|names| - 1]) + if last.Some? then [last.value] else []
  }

  lemma RoomsOfMore(names: seq<Option<string>>, i: nat)
    requires i < |names|
    ensures var last := ParseRoom(names[i]);
            RoomsOf(names[..i + 1]) == RoomsOf(names[..i]) + if last.Some? then [last.value] else []
  {
    assert names[..i + 1][..i] == names[..i];
  }

  /** Every room named in a frame that may be joined is one that may be joined. */
  lemma {:induction false} NamedMayBeJoined(who: Audience, names: seq<Option<string>>)
    requires NamesOk(who, names, ToJoin)
    ensures forall r :: r in RoomsOf(names) ==> CanJoin(who, r)
  {
    if names != [] {
      NamedMayBeJoined(who, names[..|names| - 1]);
      assert NameOk(who, names[|names| - 1], ToJoin);
    }
  }

  function Named(names: seq<Option<string>>): set<Room> {
    Elements(RoomsOf(names))
  }

  predicate SizeOk(names: seq<Option<string>>, limit: nat) {
    1 <= |names| <= limit
  }

  /** A frame is accepted when every name in it is good and the connection stays within its limit. */
  predicate Accepted(who: Audience, current: set<Room>, body: Body, intent: Intent, limit: nat) {
    && body.Request? && SizeOk(body.names, limit) && NamesOk(who, body.names, intent)
    && (intent == ToJoin ==> |current + Named(body.names)| <= limit)
  }

  /** The first bad name says why the whole frame is refused. */
  predicate FirstBad(who: Audience, names: seq<Option<string>>, intent: Intent, i: nat, why: Refusal) {
    && i < |names| && NamesOk(who, names[..i], intent) && !NameOk(who, names[i], intent)
    && why == if ParseRoom(names[i]).None? then UnknownRoom else ForbiddenRoom
  }

  ghost predicate RefusedFor(who: Audience, current: set<Room>, body: Body, intent: Intent, limit: nat, why: Refusal) {
    if body.NotARequest? || body.names == [] then why == MalformedPayload
    else if |body.names| > limit then why == RoomLimitExceeded
    else if NamesOk(who, body.names, intent) then why == RoomLimitExceeded && intent == ToJoin && |current + Named(body.names)| > limit
    else exists i :: FirstBad(who, body.names, intent, i, why)
  }

  method ParseRooms(who: Audience, current: set<Room>, body: Body, intent: Intent, limit: nat)
    returns (r: Result<seq<Room>, Refusal>)
    ensures r.Ok? <==> Accepted(who, current, body, intent, limit)
    ensures r.Ok? ==> r.value == RoomsOf(body.names) && |r.value| == |body.names|
    ensures r.Err? ==> RefusedFor(who, current, body, intent, limit, r.error)
  {
    if body.NotARequest? {
      return Err(MalformedPayload);
    }
    var names := body.names;
    if |names| == 0 || |names| > limit {
      return Err(if |names| == 0 then MalformedPayload else RoomLimitExceeded);
    }
    var rooms: seq<Room> := [];
    for i := 0 to |names|
      invariant NamesOk(who, names[..i], intent)
      invariant |rooms| == i && rooms == RoomsOf(names[..i])
    {
      var room := ParseRoom(names[i]);
      assert names[..i + 1] == names[..i] + [names[i]];
      RoomsOfMore(names, i);
      if room.None? {
        assert FirstBad(who, names, intent, i, UnknownRoom);
        return Err(UnknownRoom);
      }
      if intent == ToJoin && !CanJoin(who, room.value) {
        assert FirstBad(who, names, intent, i, ForbiddenRoom);
        return Err(ForbiddenRoom);
      }
      rooms := rooms + [room.value];
    }
    assert names[..|names|] == names;
    if intent == ToJoin && |current + Named(names)| > limit {
      return Err(RoomLimitExceeded);
    }
    return Ok(rooms);
  }

  // ---------------------------------------------------------------- what a frame reports

  /** The rooms that were not held already when their turn came: the first mention of each new one. */
  function NewlyIn(rooms: seq<Room>, held: set<Room>): seq<Room> {
    if rooms == [] then []
    else
      var front, r := rooms[..|rooms| - 1], rooms[|rooms| - 1];
      if r in held + Elements(front) then NewlyIn(front, held) else NewlyIn(front, held) + [r]
  }

  /** The rooms that were still held when their turn came: the first mention of each one held. */
  function NewlyOut(rooms: seq<Room>, held: set<Room>): seq<Room> {
    if rooms == [] then []
    else
      var front, r := rooms[..|rooms| - 1], rooms[|rooms| - 1];
      if r in held - Elements(front) then NewlyOut(front, held) + [r] else NewlyOut(front, held)
  }

  predicate EachOnce<T(==)>(s: seq<T>) {
    forall i, j :: 0 <= i < j < |s| ==> s[i] != s[j]
  }

  lemma OnceMore<T>(s: seq<T>, x: T)
    requires EachOnce(s) && x !in s
    ensures EachOnce(s + [x])
  {
  }

  lemma NewlyInMore(rooms: seq<Room>, i: nat, held: set<Room>)
    requires i < |rooms|
    ensures var new_ := rooms[i] !in held + Elements(rooms[..i]);
            NewlyIn(rooms[..i + 1], held) == NewlyIn(rooms[..i], held) + if new_ then [rooms[i]] else []
    ensures held + Elements(rooms[..i + 1]) == held + Elements(rooms[..i]) + {rooms[i]}
  {
    assert rooms[..i + 1] == rooms[..i] + [rooms[i]];
    assert rooms[..i + 1][..i] == rooms[..i];
  }

  lemma NewlyOutMore(rooms: seq<Room>, i: nat, held: set<Room>)
    requires i < |rooms|
    ensures var out := rooms[i] in held - Elements(rooms[..i]);
            NewlyOut(rooms[..i + 1], held) == NewlyOut(rooms[..i], held) + if out then [rooms[i]] else []
    ensures held - Elements(rooms[..i + 1]) == held - Elements(rooms[..i]) - {rooms[i]}
  {
    assert rooms[..i + 1] == rooms[..i] + [rooms[i]];
    assert rooms[..i + 1][..i] == rooms[..i];
  }

  lemma {:induction false} NewlyInIsExact(rooms: seq<Room>, held: set<Room>)
    ensures Elements(NewlyIn(rooms, held)) == Elements(rooms) - held && EachOnce(NewlyIn(rooms, held))
  {
    if rooms != [] {
      var front, r := rooms[..|rooms| - 1], rooms[|rooms| - 1];
      NewlyInIsExact(front, held);
      assert rooms == front + [r];
      Pushed(front, r);
      Pushed(NewlyIn(front, held), r);
      if r !in NewlyIn(front, held) {
        OnceMore(NewlyIn(front, held), r);
      }
    }
  }

  lemma {:induction false} NewlyOutIsExact(rooms: seq<Room>, held: set<Room>)
    ensures Elements(NewlyOut(rooms, held)) == Elements(rooms) * held && EachOnce(NewlyOut(rooms, held))
  {
    if rooms != [] {
      var front, r := rooms[..|rooms| - 1], rooms[|rooms| - 1];
      NewlyOutIsExact(front, held);
      assert rooms == front + [r];
      Pushed(front, r);
      Pushed(NewlyOut(front, held), r);
      if r !in NewlyOut(front, held) {
        OnceMore(NewlyOut(front, held), r);
      }
    }
  }

  // ---------------------------------------------------------------- the gateway

  /** Nothing for a socket that is not registered; else a refusal, or what changed and all that is held now. */
  datatype Reply = NoReply | Refused(why: Refusal) | Changed(changed: seq<Room>, all: set<Room>)

  datatype Limits = Limits(maxConnections: nat, maxRooms: nat)

  /** No connection holds more rooms than it may. */
  predicate WithinLimit(rooms: map<Connection, set<Room>>, limit: nat) {
    forall c :: c in rooms ==> |rooms[c]| <= limit
  }

  /** Everyone is only in rooms they were allowed to join. */
  predicate OnlyAllowed(rooms: map<Connection, set<Room>>, audience: map<Connection, Audience>) {
    forall c, r :: c in rooms && r in rooms[c] && c in audience ==> CanJoin(audience[c], r)
  }

  class Gateway {
    const registry: ConnectionRegistry
    const limits: Limits

    constructor (limits: Limits)
      requires limits.maxRooms > 0
      ensures this.limits == limits && fresh(registry) && Valid() && registry.rooms == map[]
    {
      this.limits := limits;
      registry := new ConnectionRegistry();
    }

    ghost predicate Valid()
      reads registry
    {
      && registry.Valid() && limits.maxRooms > 0
      && WithinLimit(registry.rooms, limits.maxRooms) && OnlyAllowed(registry.rooms, registry.audience)
    }

    /** Admits an authenticated socket into its own room, unless the process is full. */
    method HandleConnection(socket: Socket, c: Connection, who: Audience) returns (admitted: bool)
      requires Valid() && socket !in registry.bySocket && c !in registry.rooms
      modifies registry
      ensures Valid() && admitted == (|old(registry.bySocket)| < limits.maxConnections)
      ensures admitted ==> registry.rooms == old(registry.rooms)[c := DefaultRooms(who)]
                           && registry.bySocket == old(registry.bySocket)[socket := c]
                           && registry.audience == old(registry.audience)[c := who]
      ensures !admitted ==> unchanged(registry)
    {
      if |registry.bySocket| >= limits.maxConnections {
        return false;
      }
      registry.Add(socket, c, who, DefaultRooms(who));
      return true;
    }

    method HandleDisconnect(socket: Socket)
      requires Valid()
      modifies registry
      ensures Valid() && registry.bySocket == old(registry.bySocket) - {socket} && registry.audience == old(registry.audience)
      ensures registry.rooms == if socket in old(registry.bySocket) then old(registry.rooms) - {old(registry.bySocket)[socket]} else old(registry.rooms)
      ensures forall s :: s in registry.bySocket ==> registry.rooms[registry.bySocket[s]] == old(registry.rooms)[old(registry.bySocket)[s]]
    {
      var gone := registry.Remove(socket);
      assert gone.None? ==> old(registry.bySocket) - {socket} == old(registry.bySocket);
    }

    /** What a room frame may do to whoever sent it. */
    ghost predicate Answered(socket: Socket, body: Body, intent: Intent, bySocket: map<Socket, Connection>,
                             rooms: map<Connection, set<Room>>, byRoom: map<Room, set<Connection>>, reply: Reply)
      requires socket in bySocket ==> bySocket[socket] in rooms && bySocket[socket] in registry.audience
      reads registry
    {
      && (reply.Changed? <==> socket in bySocket
                              && Accepted(registry.audience[bySocket[socket]], rooms[bySocket[socket]], body, intent, limits.maxRooms))
      && (reply.NoReply? <==> socket !in bySocket)
      && (!reply.Changed? ==> registry.rooms == rooms && registry.byRoom == byRoom)
      && (reply.Changed? ==>
            var c := bySocket[socket];
            var named := Named(body.names);
            && registry.rooms == rooms[c := if intent == ToJoin then rooms[c] + named else rooms[c] - named]
            && reply.all == registry.rooms[c]
            && reply.changed == if intent == ToJoin then NewlyIn(RoomsOf(body.names), rooms[c]) else NewlyOut(RoomsOf(body.names), rooms[c]))
      && (reply.Refused? ==> RefusedFor(registry.audience[bySocket[socket]], rooms[bySocket[socket]], body, intent, limits.maxRooms, reply.why))
    }

    /** All or nothing: a refused frame changes nothing, an accepted one joins every room it names. */
    method HandleSubscribe(socket: Socket, body: Body) returns (reply: Reply)
      requires Valid()
      modifies registry
      ensures Valid() && registry.bySocket == old(registry.bySocket) && registry.audience == old(registry.audience)
      ensures Answered(socket, body, ToJoin, old(registry.bySocket), old(registry.rooms), old(registry.byRoom), reply)
    {
      if socket !in registry.bySocket {
        return NoReply;
      }
      var c := registry.bySocket[socket];
      var who, current := registry.audience[c], registry.rooms[c];
      var parsed := ParseRooms(who, current, body, ToJoin, limits.maxRooms);
      if parsed.Err? {
        return Refused(parsed.error);
      }
      var joined := JoinAll(c, parsed.value);
      AllowedAfter(registry.rooms, old(registry.rooms), registry.audience, c, who, body.names);
      return Changed(joined, registry.rooms[c]);
    }

    /** Leaving is allowed whatever the audience may join now. */
    method HandleUnsubscribe(socket: Socket, body: Body) returns (reply: Reply)
      requires Valid()
      modifies registry
      ensures Valid() && registry.bySocket == old(registry.bySocket) && registry.audience == old(registry.audience)
      ensures Answered(socket, body, ToLeave, old(registry.bySocket), old(registry.rooms), old(registry.byRoom), reply)
    {
      if socket !in registry.bySocket {
        return NoReply;
      }
      var c := registry.bySocket[socket];
      var who, current := registry.audience[c], registry.rooms[c];
      var parsed := ParseRooms(who, current, body, ToLeave, limits.maxRooms);
      if parsed.Err? {
        return Refused(parsed.error);
      }
      var left := LeaveAll(c, parsed.value);
      KeptAfterLeaving(old(registry.rooms), registry.audience, c, Named(body.names), limits.maxRooms);
      return Changed(left, registry.rooms[c]);
    }

    method JoinAll(c: Connection, rooms: seq<Room>) returns (joined: seq<Room>)
      requires registry.Valid() && c in registry.rooms
      modifies registry
      ensures registry.Valid() && registry.bySocket == old(registry.bySocket) && registry.audience == old(registry.audience)
      ensures registry.rooms == old(registry.rooms)[c := old(registry.rooms)[c] + Elements(rooms)]
      ensures joined == NewlyIn(rooms, old(registry.rooms)[c])
      ensures Elements(joined) == Elements(rooms) - old(registry.rooms)[c] && EachOnce(joined)
    {
      joined := [];
      ghost var all, was := registry.rooms, registry.rooms[c];
      assert was + Elements(rooms[..0]) == was && all[c := was] == all;
      for i := 0 to |rooms|
        invariant registry.Valid() && registry.bySocket == old(registry.bySocket) && registry.audience == old(registry.audience)
        invariant registry.rooms == all[c := was + Elements(rooms[..i])]
        invariant joined == NewlyIn(rooms[..i], was)
      {
        NewlyInMore(rooms, i, was);
        SetTwice(all, c, was + Elements(rooms[..i]), was + Elements(rooms[..i + 1]));
        var isNew := registry.Join(c, rooms[i]);
        if isNew {
          joined := joined + [rooms[i]];
        }
      }
      assert rooms[..|rooms|] == rooms;
      NewlyInIsExact(rooms, was);
    }

    method LeaveAll(c: Connection, rooms: seq<Room>) returns (left: seq<Room>)
      requires registry.Valid() && c in registry.rooms
      modifies registry
      ensures registry.Valid() && registry.bySocket == old(registry.bySocket) && registry.audience == old(registry.audience)
      ensures registry.rooms == old(registry.rooms)[c := old(registry.rooms)[c] - Elements(rooms)]
      ensures left == NewlyOut(rooms, old(registry.rooms)[c])
      ensures Elements(left) == Elements(rooms) * old(registry.rooms)[c] && EachOnce(left)
    {
      left := [];
      ghost var all, was := registry.rooms, registry.rooms[c];
      assert was - Elements(rooms[..0]) == was && all[c := was] == all;
      for i := 0 to |rooms|
        invariant registry.Valid() && registry.bySocket == old(registry.bySocket) && registry.audience == old(registry.audience)
        invariant registry.rooms == all[c := was - Elements(rooms[..i])]
        invariant left == NewlyOut(rooms[..i], was)
      {
        NewlyOutMore(rooms, i, was);
        SetTwice(all, c, was - Elements(rooms[..i]), was - Elements(rooms[..i + 1]));
        var wasIn := registry.Leave(c, rooms[i]);
        if wasIn {
          left := left + [rooms[i]];
        }
      }
      assert rooms[..|rooms|] == rooms;
      NewlyOutIsExact(rooms, was);
    }

    /** What a scan of every open socket would pick: in a room of the event's, and allowed to see it. */
    ghost predicate Wanted(e: Event, s: Socket, c: Connection)
      requires registry.Valid()
      reads registry
    {
      && s in registry.bySocket && registry.bySocket[s] == c
      && Interested(e, registry.rooms[c]) && IsVisibleTo(e, registry.audience[c])
    }

    /** Offers the event once to exactly the connections a scan of every open socket would pick. */
    method Broadcast(e: Event) returns (offered: seq<Connection>)
      requires Valid()
      ensures EachOnce(offered)
      ensures forall c :: c in offered <==> exists s :: Wanted(e, s, c)
    {
      offered := [];
      var considered: set<Connection> := {};
      var targets := RoomsFor(e);
      for k := 0 to |targets|
        invariant forall c :: c in considered <==> exists j :: 0 <= j < k && Indexed(registry.byRoom, targets[j], c)
        invariant Once(e, registry.audience, offered, considered)
      {
        var members := if targets[k] in registry.byRoom then registry.byRoom[targets[k]] else {};
        assert forall c :: c in members <==> Indexed(registry.byRoom, targets[k], c);
        assert forall c :: c in members ==> InRoom(registry.rooms, c, targets[k]);
        offered, considered := Offer(e, registry.audience, members, offered, considered);
      }
      forall c
        ensures c in offered <==> exists s :: Wanted(e, s, c)
      {
        assert Indexed(registry.byRoom, targets[0], c) <==> InRoom(registry.rooms, c, targets[0]);
        assert Indexed(registry.byRoom, targets[1], c) <==> InRoom(registry.rooms, c, targets[1]);
        if c in offered {
          assert c in registry.rooms;
          assert Carried(registry.bySocket, c);
          var s :| s in registry.bySocket && registry.bySocket[s] == c;
          assert Wanted(e, s, c);
        }
      }
    }
  }

  /** Everyone considered who may see the event has been offered it once, and nobody else has. */
  predicate Once(e: Event, audience: map<Connection, Audience>, offered: seq<Connection>, considered: set<Connection>) {
    && EachOnce(offered)
    && (forall c :: c in offered ==> c in considered && c in audience && IsVisibleTo(e, audience[c]))
    && (forall c :: c in considered && c in audience && IsVisibleTo(e, audience[c]) ==> c in offered)
  }

  /** Considers a room's members, skipping those considered already. */
  method Offer(e: Event, audience: map<Connection, Audience>, members: set<Connection>, offered: seq<Connection>, considered: set<Connection>)
    returns (out: seq<Connection>, seen: set<Connection>)
    requires (forall c :: c in members ==> c in audience) && Once(e, audience, offered, considered)
    ensures seen == considered + members && Once(e, audience, out, seen)
  {
    out, seen := offered, considered;
    var todo := members;
    while todo != {}
      invariant todo <= members && seen == considered + (members - todo)
      invariant Once(e, audience, out, seen)
      decreases |todo|
    {
      var c :| c in todo;
      todo := todo - {c};
      if c !in seen {
        seen := seen + {c};
        if IsVisibleTo(e, audience[c]) {
          out := out + [c];
        }
      }
    }
  }

  // ---------------------------------------------------------------- helpers

  function Elements(rooms: seq<Room>): set<Room> {
    set r | r in rooms
  }

  lemma Pushed(rooms: seq<Room>, r: Room)
    ensures Elements(rooms + [r]) == Elements(rooms) + {r}
  {
  }

  lemma SetTwice<K, V>(m: map<K, V>, k: K, v: V, w: V)
    ensures m[k := v][k := w] == m[k := w]
  {
  }

  lemma AllowedAfter(now: map<Connection, set<Room>>, was: map<Connection, set<Room>>, audience: map<Connection, Audience>,
                     c: Connection, who: Audience, names: seq<Option<string>>)
    requires c in was && c in audience && audience[c] == who && OnlyAllowed(was, audience)
    requires NamesOk(who, names, ToJoin) && now == was[c := was[c] + Named(names)]
    ensures OnlyAllowed(now, audience)
  {
    NamedMayBeJoined(who, names);
  }

  lemma KeptAfterLeaving(was: map<Connection, set<Room>>, audience: map<Connection, Audience>, c: Connection, gone: set<Room>, limit: nat)
    requires c in was && WithinLimit(was, limit) && OnlyAllowed(was, audience)
    ensures var now := was[c := was[c] - gone]; WithinLimit(now, limit) && OnlyAllowed(now, audience)
  {
    assert was[c] == (was[c] - gone) + (was[c] * gone);
  }
}
