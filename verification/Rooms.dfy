/** Room names, which rooms an event goes to, who may join one and who may see what. */
module Rooms {
  import opened CanonicalJson
  import opened Common

  datatype EventName = UserRegistered | UserDeleted | OrderPlaced | OrderConfirmed | OrderCancelled

  datatype Event = Event(name: EventName, userId: string, body: nat)

  datatype Role = Admin | User

  datatype Audience = Audience(id: string, role: Role)

  datatype Room = UserRoom(id: string) | EventRoom(name: EventName)

  const MAX_USER_ID_LENGTH := 128

  // ---------------------------------------------------------------- names

  function NameText(n: EventName): string {
    match n
    case UserRegistered => "user.registered"
    case UserDeleted => "user.deleted"
    case OrderPlaced => "order.placed"
    case OrderConfirmed => "order.confirmed"
    case OrderCancelled => "order.cancelled"
  }

  function ParseName(s: string): (r: Option<EventName>)
    ensures r.Some? ==> NameText(r.value) == s
  {
    if s == NameText(UserRegistered) then Some(UserRegistered)
    else if s == NameText(UserDeleted) then Some(UserDeleted)
    else if s == NameText(OrderPlaced) then Some(OrderPlaced)
    else if s == NameText(OrderConfirmed) then Some(OrderConfirmed)
    else if s == NameText(OrderCancelled) then Some(OrderCancelled)
    else None
  }

  lemma ParseOfName(n: EventName)
    ensures ParseName(NameText(n)) == Some(n)
  {
    assert NameText(UserRegistered)[0] == 'u' && NameText(UserDeleted)[0] == 'u';
    assert NameText(UserRegistered)[5] == 'r' && NameText(UserDeleted)[5] == 'd';
    assert NameText(OrderPlaced)[0] == 'o' && NameText(OrderConfirmed)[0] == 'o' && NameText(OrderCancelled)[0] == 'o';
    assert NameText(OrderPlaced)[6] == 'p' && NameText(OrderConfirmed)[7] == 'o' && NameText(OrderCancelled)[7] == 'a';
    assert NameText(OrderConfirmed)[6] == 'c' && NameText(OrderCancelled)[6] == 'c';
  }

  const USER_PREFIX := "user"
  const EVENTS_PREFIX := "events"

  function RoomText(r: Room): string {
    match r
    case UserRoom(id) => USER_PREFIX + ":" + id
    case EventRoom(name) => EVENTS_PREFIX + ":" + NameText(name)
  }

  /** The first colon, or the length when there is none. */
  function FirstColon(s: string): (k: nat)
    ensures k <= |s| && (k < |s| ==> s[k] == ':')
    ensures forall i :: 0 <= i < k ==> s[i] != ':'
  {
    if s == [] || s[0] == ':' then 0 else 1 + FirstColon(s[1..])
  }

  /** The length limit counts UTF-16 code units. */
  predicate IsUserId(s: string) {
    0 < |Units(s)| <= MAX_USER_ID_LENGTH && forall i :: 0 <= i < |s| ==> !IsSpace(s[i]) && s[i] != ':' && s[i] != ','
  }

  /** The room a client asked for, if it asked for one; only strings name rooms. */
  function ParseRoom(raw: Option<string>): Option<Room> {
    if raw.None? then None
    else
      var s := raw.value;
      var k := FirstColon(s);
      if k == |s| then None
      else
        var rest := s[k + 1..];
        if s[..k] == USER_PREFIX then if IsUserId(rest) then Some(UserRoom(rest)) else None
        else if s[..k] == EVENTS_PREFIX then
          match ParseName(rest)
          case Some(n) => Some(EventRoom(n))
          case None => None
        else None
  }

  /** A name read off the wire is spelled exactly as the room is written. */
  lemma ParsedRoomIsItsText(s: string)
    requires ParseRoom(Some(s)).Some?
    ensures RoomText(ParseRoom(Some(s)).value) == s
  {
    var k := FirstColon(s);
    assert s == s[..k] + ":" + s[k + 1..];
  }

  lemma ColonAt(prefix: string, rest: string)
    requires ':' !in prefix
    ensures var s := prefix + ":" + rest; FirstColon(s) == |prefix| && s[..|prefix|] == prefix && s[|prefix| + 1..] == rest
  {
    var s := prefix + ":" + rest;
    assert s[|prefix|] == ':';
    assert forall i :: 0 <= i < |prefix| ==> s[i] == prefix[i] && s[i] != ':';
  }

  /** Every room this build issues can be asked for by its text. */
  lemma TextOfRoomParses(r: Room)
    requires r.UserRoom? ==> IsUserId(r.id)
    ensures ParseRoom(Some(RoomText(r))) == Some(r)
  {
    match r
    case UserRoom(id) =>
      ColonAt(USER_PREFIX, id);
    case EventRoom(name) =>
      ColonAt(EVENTS_PREFIX, NameText(name));
      ParseOfName(name);
      assert EVENTS_PREFIX[0] == 'e' && USER_PREFIX[0] == 'u';
  }

  /** What is read as a room, exactly: the room's own text, an account's id being of the kind issued. */
  lemma RoomReadIff(s: string, r: Room)
    ensures ParseRoom(Some(s)) == Some(r) <==>
            && s == RoomText(r)
            && (r.UserRoom? ==> && r.id != "" && |Units(r.id)| <= 128 && ':' !in r.id && ',' !in r.id
                                && forall c :: c in r.id ==> !IsSpace(c))
  {
    if ParseRoom(Some(s)) == Some(r) {
      ParsedRoomIsItsText(s);
    }
    if r.UserRoom? && r.id != "" {
      assert Units(r.id) != [];
    }
    if s == RoomText(r) && (r.UserRoom? ==> IsUserId(r.id)) {
      TextOfRoomParses(r);
    }
  }

  // ---------------------------------------------------------------- who hears what

  function RoomsFor(e: Event): seq<Room> {
    [UserRoom(e.userId), EventRoom(e.name)]
  }

  predicate CanJoin(a: Audience, r: Room) {
    a.role == Admin || r == UserRoom(a.id)
  }

  predicate IsVisibleTo(e: Event, a: Audience) {
    a.role == Admin || e.userId == a.id
  }

  function DefaultRooms(a: Audience): set<Room> {
    {UserRoom(a.id)}
  }

  /** Some room the event goes to is one of these. */
  predicate Interested(e: Event, rooms: set<Room>) {
    UserRoom(e.userId) in rooms || EventRoom(e.name) in rooms
  }

  /** An account in its own room, and in none it may not join, is reached by exactly what it may see. */
  lemma OwnRoomHearsWhatIsVisible(e: Event, a: Audience, rooms: set<Room>)
    requires forall r :: r in rooms ==> CanJoin(a, r)
    requires UserRoom(a.id) in rooms && a.role == User
    ensures Interested(e, rooms) <==> IsVisibleTo(e, a)
  {
    assert EventRoom(e.name) in rooms ==> CanJoin(a, EventRoom(e.name));
  }

  /** An administrator may join every room, its own included, and may see every event; anyone else joins only their own room. */
  lemma WhoMayJoinAndSee(a: Audience, r: Room, e: Event)
    ensures CanJoin(a, r) <==> a.role == Admin || (r.UserRoom? && r.id == a.id)
    ensures a.role == Admin ==> IsVisibleTo(e, a) && forall q :: CanJoin(a, q)
    ensures a.role == User ==> (IsVisibleTo(e, a) <==> CanJoin(a, UserRoom(e.userId))) && !CanJoin(a, EventRoom(e.name))
    ensures forall q :: q in DefaultRooms(a) <==> q == UserRoom(a.id)
  {
  }

  /** An administrator is reached by an event exactly by being in one of the rooms it goes to. */
  lemma AdministratorsHearWhatTheyJoin(e: Event, a: Audience, rooms: set<Room>)
    requires a.role == Admin
    ensures Interested(e, rooms) && IsVisibleTo(e, a) <==> exists i :: 0 <= i < |RoomsFor(e)| && RoomsFor(e)[i] in rooms
  {
    assert RoomsFor(e)[0] == UserRoom(e.userId) && RoomsFor(e)[1] == EventRoom(e.name);
  }
}
