/** Reference model of the relay (MultiCastServer.java) as values: the registry, the
    two allocation counters and the live handlers, and one function per command of a
    handler's read loop. Every line a handler would `println` is appended to that
    handler's `out`.

    Abstractions fixed here: room ids are the registry keys `1 .. roomIdCounter - 1`
    (rooms are never deleted), and iterating the registry visits them in ascending id
    order; a room's user set keeps its members in insertion order, without repeats;
    the `currentRoom` reference of a handler is the id of that room, which is sound
    because ids are never reused; the handler running a command is its index `i` in
    the handler list. */
module RelaySpec {
  import opened Wrappers
  import opened JavaString

  /** `MultiCastServer.Room`. `users` is the `HashSet` of member names, kept
      duplicate-free in insertion order. */
  datatype Room = Room(id: nat, name: string, creator: string, address: string, port: nat,
                       users: seq<string>)

  /** `MultiCastServer.ClientHandler` without its socket: `peer` is the host address
      of the connection, `out` every line written to it so far. */
  datatype Session = Session(peer: string, userName: Option<string>, currentRoom: Option<nat>,
                             out: seq<string>)

  /** The static state shared by all handlers. */
  datatype State = State(rooms: map<nat, Room>, roomIdCounter: nat, addressCounter: nat,
                         handlers: seq<Session>)

  const BaseAddress: string := "230.0.0."
  const BasePort: nat := 5000

  /** The state before the first connection. */
  function Initial(): State {
    State(map[], 1, 1, [])
  }

  // ---------------------------------------------------------------------------
  // Invariant

  ghost predicate NoDup(users: seq<string>) {
    forall a, b :: 0 <= a < b < |users| ==> users[a] != users[b]
  }

  /** What the allocation in `createRoom` makes true of every room of the registry. */
  ghost predicate RoomOk(k: nat, r: Room) {
    r.id == k && r.port == BasePort + k && r.address == BaseAddress + NatToString(k)
    && NoDup(r.users)
  }

  /** A handler only points at a registered room, and only after it joined under a name. */
  predicate SessionOk(rooms: map<nat, Room>, h: Session) {
    h.currentRoom.Some? ==> h.currentRoom.value in rooms && h.userName.Some?
  }

  ghost predicate Inv(s: State) {
    && s.roomIdCounter >= 1
    && s.addressCounter == s.roomIdCounter
    && (forall k :: k in s.rooms <==> 1 <= k < s.roomIdCounter)
    && (forall k :: k in s.rooms ==> RoomOk(k, s.rooms[k]))
    && (forall j :: 0 <= j < |s.handlers| ==> SessionOk(s.rooms, s.handlers[j]))
  }

  // ---------------------------------------------------------------------------
  // Membership (`Room.addUser` / `Room.removeUser`)

  /** `users.add(u)`. */
  function AddUser(users: seq<string>, u: string): (r: seq<string>)
    ensures forall x :: x in r <==> x in users || x == u
    ensures NoDup(users) ==> NoDup(r)
  {
    if u in users then users else users + [u]
  }

  /** `users.remove(u)`. */
  function RemoveUser(users: seq<string>, u: string): (r: seq<string>)
    ensures forall x :: x in r <==> x in users && x != u
    ensures NoDup(users) ==> NoDup(r)
    ensures |r| <= |users|
  {
    if users == [] then []
    else
      var init, last := users[..|users| - 1], users[|users| - 1];
      var r0 := RemoveUser(init, u);
      assert NoDup(users) ==> last !in r0;
      assert NoDup(users) ==> NoDup(init) by {
        if NoDup(users) {
          forall a, b | 0 <= a < b < |init| ensures init[a] != init[b] {
            assert init[a] == users[a] && init[b] == users[b];
          }
        }
      }
      if last == u then r0 else r0 + [last]
  }

  /** Removing a name that is not there changes nothing. */
  lemma {:induction false} RemoveAbsent(users: seq<string>, u: string)
    requires u !in users
    ensures RemoveUser(users, u) == users
    decreases |users|
  {
    if users != [] {
      var init := users[..|users| - 1];
      assert u !in init;
      RemoveAbsent(init, u);
      assert init + [users[|users| - 1]] == users;
    }
  }

  /** Adding a new member and removing it again gives back the same member list. */
  lemma AddThenRemove(users: seq<string>, u: string)
    requires u !in users
    ensures RemoveUser(AddUser(users, u), u) == users
  {
    var added := users + [u];
    assert added[..|added| - 1] == users;
    RemoveAbsent(users, u);
  }

  // ---------------------------------------------------------------------------
  // Wire lines written by the relay

  /** The five descriptor fields, in the order in which every room line carries them. */
  function DescriptorFields(r: Room): seq<string> {
    [NatToString(r.id), r.name, r.creator, r.address, NatToString(r.port)]
  }

  /** `sendRoomList`'s line for one room. */
  function RoomLine(r: Room): string {
    "Room " + NatToString(r.id) + " " + r.name + " " + r.creator + " " + r.address
    + " " + NatToString(r.port)
  }

  /** `createRoom`'s confirmation to the creator. */
  function RoomCreatedLine(r: Room): string {
    "RoomCreated " + NatToString(r.id) + " " + r.name + " " + r.creator + " " + r.address
    + " " + NatToString(r.port)
  }

  /** `broadcastNewRoom`'s notice to everybody else. */
  function NewRoomLine(r: Room): string {
    "NewRoom " + NatToString(r.id) + " " + r.name + " " + r.creator + " " + r.address
    + " " + NatToString(r.port)
  }

  /** The three room lines carry the same five fields in the same order; only the
      leading keyword differs. */
  lemma DescriptorLinesAgree(r: Room)
    ensures RoomLine(r) == JoinSpaces(["Room"] + DescriptorFields(r))
    ensures RoomCreatedLine(r) == JoinSpaces(["RoomCreated"] + DescriptorFields(r))
    ensures NewRoomLine(r) == JoinSpaces(["NewRoom"] + DescriptorFields(r))
  {
    DescriptorLine("Room", r);
    assert "Room" + " " == "Room ";
    DescriptorLine("RoomCreated", r);
    assert "RoomCreated" + " " == "RoomCreated ";
    DescriptorLine("NewRoom", r);
    assert "NewRoom" + " " == "NewRoom ";
  }

  lemma DescriptorLine(prefix: string, r: Room)
    ensures JoinSpaces([prefix] + DescriptorFields(r))
            == prefix + " " + NatToString(r.id) + " " + r.name + " " + r.creator + " "
               + r.address + " " + NatToString(r.port)
  {
    var ps := [prefix] + DescriptorFields(r);
    JoinSix(ps);
    assert ps[0] == prefix && ps[1] == NatToString(r.id) && ps[2] == r.name;
    assert ps[3] == r.creator && ps[4] == r.address && ps[5] == NatToString(r.port);
  }

  lemma JoinSix(ps: seq<string>)
    requires |ps| == 6
    ensures JoinSpaces(ps) == ps[0] + " " + ps[1] + " " + ps[2] + " " + ps[3] + " " + ps[4]
                              + " " + ps[5]
  {
    var x1 := ps[0];
    assert JoinSpaces(ps) == x1 + " " + JoinSpaces(ps[1..]);
    var x2 := x1 + " " + ps[1];
    JoinStep(ps, 1, x1);
    var x3 := x2 + " " + ps[2];
    JoinStep(ps, 2, x2);
    var x4 := x3 + " " + ps[3];
    JoinStep(ps, 3, x3);
    var x5 := x4 + " " + ps[4];
    JoinStep(ps, 4, x4);
    assert JoinSpaces(ps[5..]) == ps[5];
    assert JoinSpaces(ps) == x5 + " " + ps[5];
  }

  /** One more field moved from the tail of a join to its already joined prefix. */
  lemma JoinStep(ps: seq<string>, m: nat, x: string)
    requires m + 1 < |ps|
    ensures x + " " + JoinSpaces(ps[m..]) == x + " " + ps[m] + " " + JoinSpaces(ps[m + 1..])
  {
    assert ps[m..][1..] == ps[m + 1..];
    var y := JoinSpaces(ps[m + 1..]);
    assert JoinSpaces(ps[m..]) == ps[m] + " " + y;
  }

  /** The `Room` lines `sendRoomList` writes for the ids below `n`, ascending. */
  function RoomLines(rooms: map<nat, Room>, n: nat): seq<string> {
    if n == 0 then []
    else RoomLines(rooms, n - 1) + (if n - 1 in rooms then [RoomLine(rooms[n - 1])] else [])
  }

  /** Everything `sendRoomList` writes. */
  function RoomList(s: State): seq<string> {
    RoomLines(s.rooms, s.roomIdCounter) + ["EndOfRoomList"]
  }

  function UserLines(users: seq<string>): (r: seq<string>)
    ensures |r| == |users|
    ensures forall m :: 0 <= m < |users| ==> r[m] == "User " + users[m]
  {
    if users == [] then [] else ["User " + users[0]] + UserLines(users[1..])
  }

  /** Everything `sendUserList` writes for a room with these members. */
  function UserListLines(users: seq<string>): seq<string> {
    ["ClearUserList", "User All"] + UserLines(users) + ["EndOfUserList"]
  }

  function JoinNotice(user: string): string {
    "System - Người dùng '" + user + "' đã vào phòng"
  }

  function LeaveNotice(user: string): string {
    "System - Người dùng '" + user + "' đã rời phòng"
  }

  /** What Java's string concatenation writes for a possibly null name. */
  function NameText(u: Option<string>): string {
    if u.Some? then u.value else "null"
  }

  function ChatLine(from: Session, text: string): string {
    "Message [" + from.peer + "] - " + NameText(from.userName) + ": " + text
  }

  function PrivateFromLine(from: Session, text: string): string {
    "PrivateMessage From [" + from.peer + "] - " + NameText(from.userName) + ": " + text
  }

  function PrivateToLine(from: Session, recipient: string, text: string): string {
    "PrivateMessage To [" + from.peer + "] - " + recipient + ": " + text
  }

  const SelfMessageError: string := "Error: " + "Cannot send private message to yourself."

  // ---------------------------------------------------------------------------
  // Delivery

  function Print(h: Session, lines: seq<string>): Session {
    h.(out := h.out + lines)
  }

  /** Handler `i` alone receives `lines`. */
  function ToOne(hs: seq<Session>, i: nat, lines: seq<string>): seq<Session>
    requires i < |hs|
  {
    hs[i := Print(hs[i], lines)]
  }

  /** Exactly the handlers whose current room is `k` receive `lines`. */
  function ToRoom(hs: seq<Session>, k: nat, lines: seq<string>): seq<Session> {
    seq(|hs|, j requires 0 <= j < |hs| =>
      if hs[j].currentRoom == Some(k) then Print(hs[j], lines) else hs[j])
  }

  /** Every handler except `i` receives `line`. */
  function ToOthers(hs: seq<Session>, i: nat, line: string): seq<Session> {
    seq(|hs|, j requires 0 <= j < |hs| => if j != i then Print(hs[j], [line]) else hs[j])
  }

  // ---------------------------------------------------------------------------
  // Lookups

  /** The first room (in ascending id order from `k`) below `n` named `name`. */
  function FindRoom(rooms: map<nat, Room>, name: string, k: nat, n: nat): (r: Option<nat>)
    ensures r.Some? ==> k <= r.value < n && r.value in rooms && rooms[r.value].name == name
    ensures r.Some? ==> forall m :: k <= m < r.value && m in rooms ==> rooms[m].name != name
    ensures r.None? ==> forall m :: k <= m < n && m in rooms ==> rooms[m].name != name
    decreases n - k
  {
    if k >= n then None
    else if k in rooms && rooms[k].name == name then Some(k)
    else FindRoom(rooms, name, k + 1, n)
  }

  /** The first handler from position `k` on whose name is `name`. */
  function FindUser(hs: seq<Session>, name: string, k: nat): (r: Option<nat>)
    ensures r.Some? ==> k <= r.value < |hs| && hs[r.value].userName == Some(name)
    ensures r.Some? ==> forall m :: k <= m < r.value ==> hs[m].userName != Some(name)
    ensures r.None? ==> forall m :: k <= m < |hs| ==> hs[m].userName != Some(name)
    decreases |hs| - k
  {
    if k >= |hs| then None
    else if hs[k].userName == Some(name) then Some(k)
    else FindUser(hs, name, k + 1)
  }

  // ---------------------------------------------------------------------------
  // Commands

  /** `createRoom`: the next id and the next address suffix are allocated, the room is
      registered, its creator is told `RoomCreated`, everybody else `NewRoom`. */
  function CreateRoom(s: State, i: nat, name: string, creator: string): State
    requires i < |s.handlers|
  {
    var id := s.roomIdCounter;
    var room := Room(id, name, creator, BaseAddress + NatToString(s.addressCounter),
                     BasePort + id, []);
    var hs := ToOne(s.handlers, i, [RoomCreatedLine(room)]);
    State(s.rooms[id := room], id + 1, s.addressCounter + 1, ToOthers(hs, i, NewRoomLine(room)))
  }

  /** `joinRoom`, after the read loop stored the user name: the first room with that
      name becomes the handler's current room and gains the name as member; the room
      hears the join notice and a fresh user list. Without a match only `RoomNotFound`
      is written, to the handler. */
  function JoinRoom(s: State, i: nat, name: string): State
    requires i < |s.handlers| && s.handlers[i].userName.Some?
  {
    match FindRoom(s.rooms, name, 0, s.roomIdCounter)
    case None => s.(handlers := ToOne(s.handlers, i, ["RoomNotFound"]))
    case Some(k) =>
      var user := s.handlers[i].userName.value;
      var room := s.rooms[k].(users := AddUser(s.rooms[k].users, user));
      var hs1 := s.handlers[i := s.handlers[i].(currentRoom := Some(k))];
      var hs2 := ToOne(hs1, i, ["JoinedRoom " + NatToString(room.id) + " " + room.name]);
      var hs3 := ToRoom(hs2, k, [JoinNotice(user)]);
      s.(rooms := s.rooms[k := room], handlers := ToRoom(hs3, k, UserListLines(room.users)))
  }

  /** The part of `leaveRoom` that happens while the handler still points at room `k`:
      the name leaves the member set, the handlers now in `s.handlers` that point at
      `k` hear the leave notice and the new user list. */
  function Depart(s: State, k: nat, user: string): State
    requires k in s.rooms
  {
    var room := s.rooms[k].(users := RemoveUser(s.rooms[k].users, user));
    var hs := ToRoom(s.handlers, k, [LeaveNotice(user)]);
    s.(rooms := s.rooms[k := room], handlers := ToRoom(hs, k, UserListLines(room.users)))
  }

  /** `leaveRoom`: nothing at all without a current room. */
  function LeaveRoom(s: State, i: nat): State
    requires Inv(s) && i < |s.handlers|
  {
    var me := s.handlers[i];
    match me.currentRoom
    case None => s
    case Some(k) =>
      var t := Depart(s, k, me.userName.value);
      t.(handlers := t.handlers[i := t.handlers[i].(currentRoom := None)])
  }

  /** `broadcastMessageToRoom`. */
  function SendAll(s: State, i: nat, text: string): State
    requires i < |s.handlers|
  {
    var me := s.handlers[i];
    match me.currentRoom
    case None => s
    case Some(k) => s.(handlers := ToRoom(s.handlers, k, [ChatLine(me, text)]))
  }

  /** `sendPrivateMessage`. */
  function SendPrivate(s: State, i: nat, recipient: string, text: string): State
    requires i < |s.handlers|
  {
    var me := s.handlers[i];
    if me.userName == Some(recipient) then
      s.(handlers := ToOne(s.handlers, i, [SelfMessageError]))
    else
      match FindUser(s.handlers, recipient, 0)
      case None => s.(handlers := ToOne(s.handlers, i, ["UserNotFound " + recipient]))
      case Some(j) =>
        var hs := ToOne(s.handlers, j, [PrivateFromLine(me, text)]);
        s.(handlers := ToOne(hs, i, [PrivateToLine(me, recipient, text)]))
  }

  /** The log line after a delivered private message reads `currentRoom.getName()`:
      for a sender without a room it throws, which ends the handler's read loop. */
  predicate PrivateAborts(s: State, i: nat, recipient: string)
    requires i < |s.handlers|
  {
    && s.handlers[i].userName != Some(recipient)
    && FindUser(s.handlers, recipient, 0).Some?
    && s.handlers[i].currentRoom.None?
  }

  // ---------------------------------------------------------------------------
  // The read loop

  /** What the `if` chain of `ClientHandler.run` makes of one line. */
  datatype Command =
    | GetRooms
    | CreateRoomCmd(name: string, creator: string)
    | JoinRoomCmd(name: string, user: string)
    | LeaveRoomCmd
    | SendAllCmd(text: string)
    | SendToCmd(recipient: string, text: string)
    | Dropped   // a known verb with fewer than three fields: ignored
    | Unknown

  /** Dispatch by prefix, in the source's order; the third field of `split(" ", 3)`
      keeps the rest of the line. */
  function ParseCommand(line: string): Command {
    if StartsWith(line, "GetRooms") then GetRooms
    else if StartsWith(line, "CreateRoom") then
      var t := Split(line, 3);
      if |t| == 3 then CreateRoomCmd(t[1], t[2]) else Dropped
    else if StartsWith(line, "JoinRoom") then
      var t := Split(line, 3);
      if |t| == 3 then JoinRoomCmd(t[1], t[2]) else Dropped
    else if StartsWith(line, "LeaveRoom") then LeaveRoomCmd
    else if StartsWith(line, "SendMessage") then
      var t := Split(line, 3);
      if |t| == 3 then (if t[1] == "All" then SendAllCmd(t[2]) else SendToCmd(t[1], t[2]))
      else Dropped
    else Unknown
  }

  /** One iteration of the read loop of handler `i`. */
  function Step(s: State, i: nat, line: string): State
    requires Inv(s) && i < |s.handlers|
  {
    match ParseCommand(line)
    case GetRooms => s.(handlers := ToOne(s.handlers, i, RoomList(s)))
    case CreateRoomCmd(name, creator) => CreateRoom(s, i, name, creator)
    case JoinRoomCmd(name, user) =>
      JoinRoom(s.(handlers := s.handlers[i := s.handlers[i].(userName := Some(user))]), i, name)
    case LeaveRoomCmd => LeaveRoom(s, i)
    case SendAllCmd(text) => SendAll(s, i, text)
    case SendToCmd(recipient, text) => SendPrivate(s, i, recipient, text)
    case Dropped => s
    case Unknown => s.(handlers := ToOne(s.handlers, i, ["UnknownCommand"]))
  }

  /** The line ends the read loop with an exception. */
  predicate StepAborts(s: State, i: nat, line: string)
    requires i < |s.handlers|
  {
    ParseCommand(line).SendToCmd? && PrivateAborts(s, i, ParseCommand(line).recipient)
  }

  /** `main` accepting a connection: a new handler at the end of the list. */
  function Connect(s: State, peer: string): State {
    s.(handlers := s.handlers + [Session(peer, None, None, [])])
  }

  /** The `finally` block: the handler leaves the list first, then `leaveRoom` runs,
      so only the handlers that remain hear about the departure. */
  function Disconnect(s: State, i: nat): State
    requires Inv(s) && i < |s.handlers|
  {
    var me := s.handlers[i];
    var t := s.(handlers := s.handlers[..i] + s.handlers[i + 1..]);
    match me.currentRoom
    case None => t
    case Some(k) => Depart(t, k, me.userName.value)
  }

  /** A whole connection of handler `i`: its lines one by one until the input ends or a
      line aborts the loop, then the clean-up. */
  function Serve(s: State, i: nat, lines: seq<string>): State
    requires Inv(s) && i < |s.handlers|
    decreases |lines|
  {
    if lines == [] then Disconnect(s, i)
    else
      StepKeepsInv(s, i, lines[0]);
      var t := Step(s, i, lines[0]);
      if StepAborts(s, i, lines[0]) then Disconnect(t, i) else Serve(t, i, lines[1..])
  }

  // ---------------------------------------------------------------------------
  // The invariant is kept

  lemma InitialInv()
    ensures Inv(Initial())
  {
  }

  lemma ConnectKeepsInv(s: State, peer: string)
    requires Inv(s)
    ensures Inv(Connect(s, peer))
  {
  }

  lemma DepartKeepsInv(s: State, k: nat, user: string)
    requires Inv(s) && k in s.rooms
    ensures Inv(Depart(s, k, user)) && |Depart(s, k, user).handlers| == |s.handlers|
  {
    var t := Depart(s, k, user);
    assert t.rooms.Keys == s.rooms.Keys;
    forall j | 0 <= j < |t.handlers| ensures SessionOk(t.rooms, t.handlers[j]) {
      assert SessionOk(s.rooms, s.handlers[j]);
    }
  }

  /** A change that only appends output keeps the invariant. */
  lemma OutputOnlyKeepsInv(s: State, t: State)
    requires Inv(s)
    requires t.rooms == s.rooms && t.roomIdCounter == s.roomIdCounter
    requires t.addressCounter == s.addressCounter && |t.handlers| == |s.handlers|
    requires forall j :: 0 <= j < |s.handlers| ==>
               t.handlers[j].currentRoom == s.handlers[j].currentRoom
               && t.handlers[j].userName == s.handlers[j].userName
    ensures Inv(t)
  {
    forall j | 0 <= j < |t.handlers| ensures SessionOk(t.rooms, t.handlers[j]) {
      assert SessionOk(s.rooms, s.handlers[j]);
    }
  }

  lemma CreateRoomKeepsInv(s: State, i: nat, name: string, creator: string)
    requires Inv(s) && i < |s.handlers|
    ensures Inv(CreateRoom(s, i, name, creator))
    ensures |CreateRoom(s, i, name, creator).handlers| == |s.handlers|
  {
    var t := CreateRoom(s, i, name, creator);
    assert t.rooms.Keys == s.rooms.Keys + {s.roomIdCounter};
    forall j | 0 <= j < |t.handlers| ensures SessionOk(t.rooms, t.handlers[j]) {
      assert SessionOk(s.rooms, s.handlers[j]);
    }
  }

  lemma JoinRoomKeepsInv(s: State, i: nat, name: string, user: string)
    requires Inv(s) && i < |s.handlers|
    ensures var s1 := s.(handlers := s.handlers[i := s.handlers[i].(userName := Some(user))]);
            Inv(JoinRoom(s1, i, name)) && |JoinRoom(s1, i, name).handlers| == |s.handlers|
  {
    var s1 := s.(handlers := s.handlers[i := s.handlers[i].(userName := Some(user))]);
    forall j | 0 <= j < |s1.handlers| ensures SessionOk(s1.rooms, s1.handlers[j]) {
      assert SessionOk(s.rooms, s.handlers[j]);
    }
    assert Inv(s1);
    var t := JoinRoom(s1, i, name);
    match FindRoom(s1.rooms, name, 0, s1.roomIdCounter) {
      case None =>
        OutputOnlyKeepsInv(s1, t);
      case Some(k) =>
        assert t.rooms.Keys == s.rooms.Keys;
        forall j | 0 <= j < |t.handlers| ensures SessionOk(t.rooms, t.handlers[j]) {
          assert SessionOk(s1.rooms, s1.handlers[j]);
        }
    }
  }

  lemma LeaveRoomKeepsInv(s: State, i: nat)
    requires Inv(s) && i < |s.handlers|
    ensures Inv(LeaveRoom(s, i)) && |LeaveRoom(s, i).handlers| == |s.handlers|
  {
    if s.handlers[i].currentRoom.Some? {
      assert SessionOk(s.rooms, s.handlers[i]);
      DepartKeepsInv(s, s.handlers[i].currentRoom.value, s.handlers[i].userName.value);
    }
  }

  lemma {:induction false} StepKeepsInv(s: State, i: nat, line: string)
    requires Inv(s) && i < |s.handlers|
    ensures Inv(Step(s, i, line)) && |Step(s, i, line).handlers| == |s.handlers|
  {
    match ParseCommand(line)
    case GetRooms => ToOneKeepsInv(s, i, RoomList(s));
    case CreateRoomCmd(name, creator) => CreateRoomKeepsInv(s, i, name, creator);
    case JoinRoomCmd(name, user) => JoinRoomKeepsInv(s, i, name, user);
    case LeaveRoomCmd => LeaveRoomKeepsInv(s, i);
    case SendAllCmd(text) => SendAllKeepsInv(s, i, text);
    case SendToCmd(recipient, text) => SendPrivateKeepsInv(s, i, recipient, text);
    case Dropped =>
    case Unknown => ToOneKeepsInv(s, i, ["UnknownCommand"]);
  }

  lemma ToOneKeepsInv(s: State, i: nat, lines: seq<string>)
    requires Inv(s) && i < |s.handlers|
    ensures Inv(s.(handlers := ToOne(s.handlers, i, lines)))
  {
    OutputOnlyKeepsInv(s, s.(handlers := ToOne(s.handlers, i, lines)));
  }

  lemma SendAllKeepsInv(s: State, i: nat, text: string)
    requires Inv(s) && i < |s.handlers|
    ensures Inv(SendAll(s, i, text)) && |SendAll(s, i, text).handlers| == |s.handlers|
  {
    OutputOnlyKeepsInv(s, SendAll(s, i, text));
  }

  lemma SendPrivateKeepsInv(s: State, i: nat, recipient: string, text: string)
    requires Inv(s) && i < |s.handlers|
    ensures Inv(SendPrivate(s, i, recipient, text))
    ensures |SendPrivate(s, i, recipient, text).handlers| == |s.handlers|
  {
    var me := s.handlers[i];
    if me.userName == Some(recipient) {
      ToOneKeepsInv(s, i, [SelfMessageError]);
    } else {
      match FindUser(s.handlers, recipient, 0)
      case None => ToOneKeepsInv(s, i, ["UserNotFound " + recipient]);
      case Some(j) =>
        var s1 := s.(handlers := ToOne(s.handlers, j, [PrivateFromLine(me, text)]));
        ToOneKeepsInv(s, j, [PrivateFromLine(me, text)]);
        ToOneKeepsInv(s1, i, [PrivateToLine(me, recipient, text)]);
    }
  }

  lemma DisconnectKeepsInv(s: State, i: nat)
    requires Inv(s) && i < |s.handlers|
    ensures Inv(Disconnect(s, i)) && |Disconnect(s, i).handlers| == |s.handlers| - 1
  {
    var t := s.(handlers := s.handlers[..i] + s.handlers[i + 1..]);
    forall j | 0 <= j < |t.handlers| ensures SessionOk(t.rooms, t.handlers[j]) {
      if j < i {
        assert t.handlers[j] == s.handlers[j];
      } else {
        assert t.handlers[j] == s.handlers[j + 1];
      }
    }
    match s.handlers[i].currentRoom
    case None =>
    case Some(k) =>
      assert SessionOk(s.rooms, s.handlers[i]);
      DepartKeepsInv(t, k, s.handlers[i].userName.value);
  }
}
