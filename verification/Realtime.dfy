/** Who is connected, who is in which room, and how one event reaches them. */
module Realtime {
  import opened Common
  import opened Rooms

  datatype Socket = Socket(fd: nat)

  datatype Connection = Connection(id: nat)

  // ---------------------------------------------------------------- the index

  predicate InRoom(rooms: map<Connection, set<Room>>, c: Connection, r: Room) {
    c in rooms && r in rooms[c]
  }

  predicate Indexed(byRoom: map<Room, set<Connection>>, r: Room, c: Connection) {
    r in byRoom && c in byRoom[r]
  }

  /** The reverse index says what the connections' own sets say, and keeps no empty room. */
  ghost predicate IndexOk(rooms: map<Connection, set<Room>>, byRoom: map<Room, set<Connection>>) {
    && (forall r, c :: Indexed(byRoom, r, c) <==> InRoom(rooms, c, r))
    && (forall r :: r in byRoom ==> byRoom[r] != {})
  }

  function WithMember(byRoom: map<Room, set<Connection>>, r: Room, c: Connection): map<Room, set<Connection>> {
    byRoom[r := if r in byRoom then byRoom[r] + {c} else {c}]
  }

  function WithoutMember(byRoom: map<Room, set<Connection>>, r: Room, c: Connection): map<Room, set<Connection>> {
    if r !in byRoom then byRoom
    else if byRoom[r] - {c} == {} then byRoom - {r}
    else byRoom[r := byRoom[r] - {c}]
  }

  lemma IndexGrows(rooms: map<Connection, set<Room>>, byRoom: map<Room, set<Connection>>, c: Connection, was: set<Room>, r: Room)
    requires IndexOk(rooms[c := was], byRoom)
    ensures IndexOk(rooms[c := was + {r}], WithMember(byRoom, r, c))
  {
    var after := WithMember(byRoom, r, c);
    forall x, d
      ensures Indexed(after, x, d) <==> InRoom(rooms[c := was + {r}], d, x)
    {
      assert Indexed(byRoom, x, d) <==> InRoom(rooms[c := was], d, x);
    }
    assert c in after[r];
  }

  lemma IndexShrinks(rooms: map<Connection, set<Room>>, byRoom: map<Room, set<Connection>>, c: Connection, was: set<Room>, r: Room)
    requires IndexOk(rooms[c := was], byRoom)
    ensures IndexOk(rooms[c := was - {r}], WithoutMember(byRoom, r, c))
  {
    var after := WithoutMember(byRoom, r, c);
    forall x, d
      ensures Indexed(after, x, d) <==> InRoom(rooms[c := was - {r}], d, x)
    {
      assert Indexed(byRoom, x, d) <==> InRoom(rooms[c := was], d, x);
      assert x == r && r in byRoom && byRoom[r] - {c} == {} ==> d !in byRoom[r] - {c};
    }
  }

  lemma IndexForgets(rooms: map<Connection, set<Room>>, byRoom: map<Room, set<Connection>>, c: Connection)
    requires IndexOk(rooms[c := {}], byRoom)
    ensures IndexOk(rooms - {c}, byRoom)
  {
    forall x, d
      ensures Indexed(byRoom, x, d) <==> InRoom(rooms - {c}, d, x)
    {
      assert Indexed(byRoom, x, d) <==> InRoom(rooms[c := {}], d, x);
    }
  }

  lemma IndexKnows(rooms: map<Connection, set<Room>>, byRoom: map<Room, set<Connection>>, c: Connection)
    requires IndexOk(rooms, byRoom) && c !in rooms
    ensures IndexOk(rooms[c := {}], byRoom)
  {
    forall x, d
      ensures Indexed(byRoom, x, d) <==> InRoom(rooms[c := {}], d, x)
    {
      assert Indexed(byRoom, x, d) <==> InRoom(rooms, d, x);
    }
  }

  /** Some socket carries the connection. */
  predicate Carried(bySocket: map<Socket, Connection>, c: Connection) {
    exists s :: s in bySocket && bySocket[s] == c
  }

  lemma CarriedMore(bySocket: map<Socket, Connection>, socket: Socket, c: Connection)
    requires socket !in bySocket
    ensures Carried(bySocket[socket := c], c)
    ensures forall d :: Carried(bySocket, d) ==> Carried(bySocket[socket := c], d)
  {
    var after := bySocket[socket := c];
    assert after[socket] == c;
    forall d | Carried(bySocket, d)
      ensures Carried(after, d)
    {
      var s :| s in bySocket && bySocket[s] == d;
      assert after[s] == d;
    }
  }

  /** Whoever is on another socket stays on it. */
  lemma CarriedStill(bySocket: map<Socket, Connection>, socket: Socket)
    requires socket in bySocket
    ensures forall d :: Carried(bySocket, d) && d != bySocket[socket] ==> Carried(bySocket - {socket}, d)
  {
    forall d | Carried(bySocket, d) && d != bySocket[socket]
      ensures Carried(bySocket - {socket}, d)
    {
      var s :| s in bySocket && bySocket[s] == d;
      assert (bySocket - {socket})[s] == d;
    }
  }

  class ConnectionRegistry {
    var bySocket: map<Socket, Connection>
    var byRoom: map<Room, set<Connection>>
    /** The set each connection holds of its own rooms. */
    var rooms: map<Connection, set<Room>>
    var audience: map<Connection, Audience>

    constructor ()
      ensures Valid() && bySocket == map[] && rooms == map[] && audience == map[]
    {
      bySocket, byRoom, rooms, audience := map[], map[], map[], map[];
    }

    ghost predicate Valid()
      reads this
    {
      && IndexOk(rooms, byRoom)
      && (forall s :: s in bySocket ==> bySocket[s] in rooms)
      && (forall s, t :: s in bySocket && t in bySocket && s != t ==> bySocket[s] != bySocket[t])
      && (forall c :: c in rooms ==> c in audience && Carried(bySocket, c))
    }

    method Index(r: Room, c: Connection)
      modifies `byRoom
      ensures byRoom == WithMember(old(byRoom), r, c)
    {
      if r in byRoom {
        byRoom := byRoom[r := byRoom[r] + {c}];
      } else {
        byRoom := byRoom[r := {c}];
      }
    }

    method Deindex(r: Room, c: Connection)
      modifies `byRoom
      ensures byRoom == WithoutMember(old(byRoom), r, c)
    {
      if r !in byRoom {
        return;
      }
      var members := byRoom[r] - {c};
      if members == {} {
        byRoom := byRoom - {r};
      } else {
        byRoom := byRoom[r := members];
      }
    }

    method Add(socket: Socket, c: Connection, who: Audience, initial: set<Room>)
      requires Valid() && socket !in bySocket && c !in rooms
      modifies this
      ensures Valid() && bySocket == old(bySocket)[socket := c]
      ensures rooms == old(rooms)[c := initial] && audience == old(audience)[c := who]
    {
      bySocket := bySocket[socket := c];
      audience := audience[c := who];
      var todo := initial;
      IndexKnows(rooms, byRoom, c);
      while todo != {}
        invariant todo <= initial && IndexOk(rooms[c := initial - todo], byRoom)
        invariant rooms == old(rooms) && bySocket == old(bySocket)[socket := c] && audience == old(audience)[c := who]
        decreases |todo|
      {
        var r :| r in todo;
        IndexGrows(rooms, byRoom, c, initial - todo, r);
        Index(r, c);
        assert initial - todo + {r} == initial - (todo - {r});
        todo := todo - {r};
      }
      assert initial - {} == initial;
      rooms := rooms[c := initial];
      CarriedMore(old(bySocket), socket, c);
    }

    /** Forgets a socket, and its connection leaves all its rooms. */
    method Remove(socket: Socket) returns (gone: Option<Connection>)
      requires Valid()
      modifies this
      ensures Valid() && audience == old(audience)
      ensures gone == if socket in old(bySocket) then Some(old(bySocket)[socket]) else None
      ensures gone.Some? ==> bySocket == old(bySocket) - {socket} && rooms == old(rooms) - {gone.value}
      ensures gone.None? ==> bySocket == old(bySocket) && rooms == old(rooms) && byRoom == old(byRoom)
    {
      if socket !in bySocket {
        return None;
      }
      var c := bySocket[socket];
      bySocket := bySocket - {socket};
      var todo := rooms[c];
      assert rooms[c := todo] == rooms;
      while todo != {}
        invariant IndexOk(rooms[c := todo], byRoom)
        invariant rooms == old(rooms) && bySocket == old(bySocket) - {socket} && audience == old(audience)
        decreases |todo|
      {
        var r :| r in todo;
        IndexShrinks(rooms, byRoom, c, todo, r);
        Deindex(r, c);
        todo := todo - {r};
      }
      IndexForgets(rooms, byRoom, c);
      rooms := rooms - {c};
      CarriedStill(old(bySocket), socket);
      return Some(c);
    }

    method Join(c: Connection, r: Room) returns (joined: bool)
      requires Valid() && c in rooms
      modifies this
      ensures Valid() && joined == (r !in old(rooms)[c])
      ensures bySocket == old(bySocket) && audience == old(audience) && rooms == old(rooms)[c := old(rooms)[c] + {r}]
    {
      if r in rooms[c] {
        assert rooms[c] + {r} == rooms[c];
        assert rooms[c := rooms[c]] == rooms;
        return false;
      }
      assert rooms[c := rooms[c]] == rooms;
      IndexGrows(rooms, byRoom, c, rooms[c], r);
      rooms := rooms[c := rooms[c] + {r}];
      Index(r, c);
      return true;
    }

    method Leave(c: Connection, r: Room) returns (left: bool)
      requires Valid() && c in rooms
      modifies this
      ensures Valid() && left == (r in old(rooms)[c])
      ensures bySocket == old(bySocket) && audience == old(audience) && rooms == old(rooms)[c := old(rooms)[c] - {r}]
    {
      if r !in rooms[c] {
        assert rooms[c] - {r} == rooms[c];
        assert rooms[c := rooms[c]] == rooms;
        return false;
      }
      assert rooms[c := rooms[c]] == rooms;
      IndexShrinks(rooms, byRoom, c, rooms[c], r);
      rooms := rooms[c := rooms[c] - {r}];
      Deindex(r, c);
      return true;
    }
  }
}
