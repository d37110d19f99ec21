/** What the relay's commands promise, stated over the reference model: who receives
    which line, what the registry looks like afterwards, and what stays unchanged. */
module RelayProperties {
  import opened Wrappers
  import opened JavaString
  import opened RelaySpec

  /** The handlers keep their identity and room when a command only writes output. */
  ghost predicate SameSessions(a: seq<Session>, b: seq<Session>) {
    |a| == |b|
    && forall j :: 0 <= j < |a| ==>
         a[j].peer == b[j].peer && a[j].userName == b[j].userName
         && a[j].currentRoom == b[j].currentRoom
  }

  // ---------------------------------------------------------------------------
  // CreateRoom

  /** `CreateRoom` takes the current id counter as the new id, never one in use and
      above every id in use, derives port `5000 + id` and address `230.0.0.<id>` from
      the counters, registers the room with no members and advances both counters. */
  lemma CreateRoomAllocates(s: State, i: nat, line: string, name: string, creator: string)
    requires Inv(s) && i < |s.handlers|
    requires ParseCommand(line) == CreateRoomCmd(name, creator)
    ensures var t := Step(s, i, line);
            var id := s.roomIdCounter;
            && id !in s.rooms
            && (forall k :: k in s.rooms ==> k < id)
            && t.rooms == s.rooms[id := Room(id, name, creator, BaseAddress + NatToString(id),
                                             BasePort + id, [])]
            && t.roomIdCounter == id + 1 && t.addressCounter == s.addressCounter + 1
  {
  }

  /** The creator receives exactly one `RoomCreated` line, every other handler exactly
      one `NewRoom` line for the same room, and nobody changes room or name: the creator
      is not made a member. */
  lemma CreateRoomDelivery(s: State, i: nat, line: string, name: string, creator: string)
    requires Inv(s) && i < |s.handlers|
    requires ParseCommand(line) == CreateRoomCmd(name, creator)
    ensures var t := Step(s, i, line);
            var room := t.rooms[s.roomIdCounter];
            && SameSessions(t.handlers, s.handlers)
            && t.handlers[i].out == s.handlers[i].out + [RoomCreatedLine(room)]
            && (forall j :: 0 <= j < |s.handlers| && j != i ==>
                  t.handlers[j].out == s.handlers[j].out + [NewRoomLine(room)])
  {
  }

  // ---------------------------------------------------------------------------
  // GetRooms

  lemma {:induction false} RangeCardinality(ks: set<nat>, n: nat)
    requires n >= 1 && forall k :: k in ks <==> 1 <= k < n
    ensures |ks| == n - 1
    decreases n
  {
    if n > 1 {
      var smaller := ks - {n - 1};
      RangeCardinality(smaller, n - 1);
    } else {
      assert ks == {};
    }
  }

  /** With the ids `1 .. n - 1` registered, line `k - 1` is the line of room `k`. */
  lemma {:induction false} RoomLinesAt(rooms: map<nat, Room>, n: nat)
    requires n >= 1 && 0 !in rooms && forall k :: 1 <= k < n ==> k in rooms
    ensures |RoomLines(rooms, n)| == n - 1
    ensures forall k :: 1 <= k < n ==> RoomLines(rooms, n)[k - 1] == RoomLine(rooms[k])
    decreases n
  {
    if n > 1 {
      RoomLinesAt(rooms, n - 1);
      assert RoomLines(rooms, n) == RoomLines(rooms, n - 1) + [RoomLine(rooms[n - 1])];
    }
  }

  /** `GetRooms` writes one `Room` line per registered room, in ascending id order, and
      then a single `EndOfRoomList`; only the asking handler receives anything. */
  lemma RoomListComplete(s: State, i: nat, line: string)
    requires Inv(s) && i < |s.handlers|
    requires ParseCommand(line) == GetRooms
    ensures var lines := RoomList(s);
            && |lines| == |s.rooms| + 1
            && lines[|lines| - 1] == "EndOfRoomList"
            && (forall k :: k in s.rooms ==> 1 <= k < |lines| && lines[k - 1] == RoomLine(s.rooms[k]))
            && (forall m :: 0 <= m < |lines| - 1 ==>
                  m + 1 in s.rooms && lines[m] == RoomLine(s.rooms[m + 1]))
            && Step(s, i, line) == s.(handlers := ToOne(s.handlers, i, lines))
  {
    RangeCardinality(s.rooms.Keys, s.roomIdCounter);
    RoomLinesAt(s.rooms, s.roomIdCounter);
  }

  // ---------------------------------------------------------------------------
  // JoinRoom

  /** `JoinRoom <name> <user>` always stores `user` as the handler's name. If some room
      is called `name`, the handler's current room becomes the one of them with the
      lowest id and `user` is added to its members; no other room changes, so a room
      joined earlier still lists the user. Otherwise the registry and the handler's
      room are untouched and the handler alone receives `RoomNotFound`. */
  lemma JoinRoomEffects(s: State, i: nat, line: string, name: string, user: string)
    requires Inv(s) && i < |s.handlers|
    requires ParseCommand(line) == JoinRoomCmd(name, user)
    ensures var t := Step(s, i, line);
            && t.handlers[i].userName == Some(user)
            && t.roomIdCounter == s.roomIdCounter
            && ((exists k :: k in s.rooms && s.rooms[k].name == name) ==>
                  && t.handlers[i].currentRoom.Some?
                  && var k := t.handlers[i].currentRoom.value;
                  && k in s.rooms && s.rooms[k].name == name
                  && (forall m :: m in s.rooms && m < k ==> s.rooms[m].name != name)
                  && t.rooms == s.rooms[k := s.rooms[k].(users := AddUser(s.rooms[k].users, user))]
                  && user in t.rooms[k].users)
            && ((forall k :: k in s.rooms ==> s.rooms[k].name != name) ==>
                  && t.rooms == s.rooms
                  && t.handlers[i] == s.handlers[i].(userName := Some(user),
                                                     out := s.handlers[i].out + ["RoomNotFound"])
                  && (forall j :: 0 <= j < |s.handlers| && j != i ==> t.handlers[j] == s.handlers[j]))
  {
  }

  /** After a successful join the joiner receives `JoinedRoom`, and then everybody in the
      room, the joiner included, receives the join notice and the whole new member list;
      nobody outside the room receives anything. */
  lemma JoinRoomDelivery(s: State, i: nat, line: string, name: string, user: string)
    requires Inv(s) && i < |s.handlers|
    requires ParseCommand(line) == JoinRoomCmd(name, user)
    requires exists k :: k in s.rooms && s.rooms[k].name == name
    ensures var t := Step(s, i, line);
            && t.handlers[i].currentRoom.Some?
            && var k := t.handlers[i].currentRoom.value;
            && k in t.rooms
            && var refresh := [JoinNotice(user)] + UserListLines(t.rooms[k].users);
            && t.handlers[i].out
               == s.handlers[i].out + ["JoinedRoom " + NatToString(k) + " " + name] + refresh
            && (forall j :: 0 <= j < |s.handlers| && j != i ==>
                  && t.handlers[j].currentRoom == s.handlers[j].currentRoom
                  && t.handlers[j].userName == s.handlers[j].userName
                  && t.handlers[j].out == if s.handlers[j].currentRoom == Some(k)
                                          then s.handlers[j].out + refresh
                                          else s.handlers[j].out)
  {
    var s1 := s.(handlers := s.handlers[i := s.handlers[i].(userName := Some(user))]);
    var k0 :| k0 in s.rooms && s.rooms[k0].name == name;
    assert FindRoom(s1.rooms, name, 0, s1.roomIdCounter).Some?;
    var k := FindRoom(s1.rooms, name, 0, s1.roomIdCounter).value;
    var room := s.rooms[k].(users := AddUser(s.rooms[k].users, user));
    var joined := "JoinedRoom " + NatToString(k) + " " + name;
    var refresh := [JoinNotice(user)] + UserListLines(room.users);
    var t := Step(s, i, line);
    assert t == JoinRoom(s1, i, name);
    JoinedHandlers(s1.handlers, i, k, joined, JoinNotice(user), UserListLines(room.users));
    assert t.rooms[k] == room;
  }

  /** The handler list after a successful join, handler by handler. */
  lemma JoinedHandlers(hs: seq<Session>, i: nat, k: nat, joined: string, notice: string,
                       list: seq<string>)
    requires i < |hs|
    ensures var hs1 := hs[i := hs[i].(currentRoom := Some(k))];
            var r := ToRoom(ToRoom(ToOne(hs1, i, [joined]), k, [notice]), k, list);
            && |r| == |hs|
            && r[i] == hs1[i].(out := hs[i].out + [joined] + ([notice] + list))
            && forall j :: 0 <= j < |hs| && j != i ==>
                 r[j] == if hs[j].currentRoom == Some(k) then Print(hs[j], [notice] + list) else hs[j]
  {
    var hs1 := hs[i := hs[i].(currentRoom := Some(k))];
    assert hs[i].out + [joined] + [notice] + list == hs[i].out + [joined] + ([notice] + list);
    forall j | 0 <= j < |hs| && j != i && hs[j].currentRoom == Some(k)
      ensures hs[j].out + [notice] + list == hs[j].out + ([notice] + list)
    {
    }
  }

  // ---------------------------------------------------------------------------
  // LeaveRoom

  /** Without a current room `LeaveRoom` does nothing at all. */
  lemma LeaveWithoutRoom(s: State, i: nat, line: string)
    requires Inv(s) && i < |s.handlers|
    requires ParseCommand(line) == LeaveRoomCmd && s.handlers[i].currentRoom.None?
    ensures Step(s, i, line) == s
  {
  }

  /** Leaving removes the handler's name from its room and clears its current room; the
      handlers in that room, the leaver included, receive the leave notice and the new
      member list; the registry is otherwise unchanged. */
  lemma LeaveRoomEffects(s: State, i: nat, line: string)
    requires Inv(s) && i < |s.handlers|
    requires ParseCommand(line) == LeaveRoomCmd && s.handlers[i].currentRoom.Some?
    ensures var t := Step(s, i, line);
            var k := s.handlers[i].currentRoom.value;
            var user := s.handlers[i].userName.value;
            && k in s.rooms
            && t.rooms == s.rooms[k := s.rooms[k].(users := RemoveUser(s.rooms[k].users, user))]
            && user !in t.rooms[k].users
            && t.handlers[i].currentRoom.None?
            && var refresh := [LeaveNotice(user)] + UserListLines(t.rooms[k].users);
            && |t.handlers| == |s.handlers|
            && (forall j :: 0 <= j < |s.handlers| ==>
                  && t.handlers[j].peer == s.handlers[j].peer
                  && t.handlers[j].userName == s.handlers[j].userName
                  && t.handlers[j].out == if s.handlers[j].currentRoom == Some(k)
                                          then s.handlers[j].out + refresh
                                          else s.handlers[j].out)
            && (forall j :: 0 <= j < |s.handlers| && j != i ==>
                  t.handlers[j].currentRoom == s.handlers[j].currentRoom)
  {
    assert SessionOk(s.rooms, s.handlers[i]);
  }

  /** A second `LeaveRoom` changes nothing. */
  lemma LeaveTwice(s: State, i: nat)
    requires Inv(s) && i < |s.handlers|
    ensures Inv(LeaveRoom(s, i)) && i < |LeaveRoom(s, i).handlers|
            && LeaveRoom(LeaveRoom(s, i), i) == LeaveRoom(s, i)
  {
    LeaveRoomKeepsInv(s, i);
  }

  /** Joining a room one is not a member of and leaving it again restores the whole
      registry, members included. */
  lemma JoinThenLeave(s: State, i: nat, join: string, leave: string, name: string, user: string)
    requires Inv(s) && i < |s.handlers|
    requires ParseCommand(join) == JoinRoomCmd(name, user) && ParseCommand(leave) == LeaveRoomCmd
    requires exists k :: k in s.rooms && s.rooms[k].name == name
    requires forall k :: k in s.rooms && s.rooms[k].name == name ==> user !in s.rooms[k].users
    ensures var t := Step(s, i, join);
            && Inv(t) && i < |t.handlers|
            && Step(t, i, leave).rooms == s.rooms
            && Step(t, i, leave).handlers[i].currentRoom.None?
  {
    StepKeepsInv(s, i, join);
    var t := Step(s, i, join);
    JoinRoomEffects(s, i, join, name, user);
    var k := t.handlers[i].currentRoom.value;
    var before := s.rooms[k].users;
    assert t.rooms == s.rooms[k := s.rooms[k].(users := AddUser(before, user))];
    LeaveRoomEffects(t, i, leave);
    var u := Step(t, i, leave);
    assert u.rooms == t.rooms[k := t.rooms[k].(users := RemoveUser(t.rooms[k].users, user))];
    AddThenRemove(before, user);
    RestoreRoom(s.rooms, k, AddUser(before, user));
  }

  /** Overwriting a room's members and then putting the old members back restores the map. */
  lemma RestoreRoom(rooms: map<nat, Room>, k: nat, users: seq<string>)
    requires k in rooms
    ensures var m := rooms[k := rooms[k].(users := users)];
            m[k := m[k].(users := rooms[k].users)] == rooms
  {
    var m := rooms[k := rooms[k].(users := users)];
    assert m[k].(users := rooms[k].users) == rooms[k];
  }

  // ---------------------------------------------------------------------------
  // SendMessage

  /** `SendMessage All <text>` writes one `Message` line to exactly the handlers whose
      current room is the sender's, the sender included, and nothing when the sender has
      no room; no state other than output changes. */
  lemma SendAllDelivery(s: State, i: nat, line: string, text: string)
    requires Inv(s) && i < |s.handlers|
    requires ParseCommand(line) == SendAllCmd(text)
    ensures var t := Step(s, i, line);
            var me := s.handlers[i];
            && t.rooms == s.rooms
            && SameSessions(t.handlers, s.handlers)
            && (me.currentRoom.None? ==> t == s)
            && (me.currentRoom.Some? ==>
                  && t.handlers[i].out == me.out + [ChatLine(me, text)]
                  && forall j :: 0 <= j < |s.handlers| ==>
                       t.handlers[j].out == if s.handlers[j].currentRoom == me.currentRoom
                                            then s.handlers[j].out + [ChatLine(me, text)]
                                            else s.handlers[j].out)
  {
  }

  /** A private message to one's own name yields one error line to the sender and
      nothing else, before any lookup. */
  lemma PrivateToSelf(s: State, i: nat, line: string, recipient: string, text: string)
    requires Inv(s) && i < |s.handlers|
    requires ParseCommand(line) == SendToCmd(recipient, text)
    requires s.handlers[i].userName == Some(recipient)
    ensures Step(s, i, line) == s.(handlers := ToOne(s.handlers, i, [SelfMessageError]))
    ensures !StepAborts(s, i, line)
  {
  }

  /** When some handler carries the recipient's name, the first such handler alone
      receives `PrivateMessage From` and the sender receives `PrivateMessage To`; the
      read loop then aborts exactly when the sender has no room. */
  lemma PrivateDelivered(s: State, i: nat, line: string, recipient: string, text: string)
    requires Inv(s) && i < |s.handlers|
    requires ParseCommand(line) == SendToCmd(recipient, text)
    requires s.handlers[i].userName != Some(recipient)
    requires exists j :: 0 <= j < |s.handlers| && s.handlers[j].userName == Some(recipient)
    ensures var t := Step(s, i, line);
            var me := s.handlers[i];
            exists r ::
              && 0 <= r < |s.handlers| && r != i
              && s.handlers[r].userName == Some(recipient)
              && (forall m :: 0 <= m < r ==> s.handlers[m].userName != Some(recipient))
              && t.rooms == s.rooms && SameSessions(t.handlers, s.handlers)
              && t.handlers[r].out == s.handlers[r].out + [PrivateFromLine(me, text)]
              && t.handlers[i].out == me.out + [PrivateToLine(me, recipient, text)]
              && (forall j :: 0 <= j < |s.handlers| && j != r && j != i ==>
                    t.handlers[j] == s.handlers[j])
    ensures StepAborts(s, i, line) <==> s.handlers[i].currentRoom.None?
  {
    var me := s.handlers[i];
    var t := Step(s, i, line);
    assert t == SendPrivate(s, i, recipient, text);
    var f := FindUser(s.handlers, recipient, 0);
    assert f.Some?;
    var r := f.value;
    assert r != i;
    var hs := ToOne(s.handlers, r, [PrivateFromLine(me, text)]);
    assert t.handlers == ToOne(hs, i, [PrivateToLine(me, recipient, text)]);
    assert t.handlers[r] == hs[r] && t.handlers[i] == Print(me, [PrivateToLine(me, recipient, text)]);
  }

  /** When nobody carries the recipient's name, the sender alone receives
      `UserNotFound <recipient>`. */
  lemma PrivateNotFound(s: State, i: nat, line: string, recipient: string, text: string)
    requires Inv(s) && i < |s.handlers|
    requires ParseCommand(line) == SendToCmd(recipient, text)
    requires forall j :: 0 <= j < |s.handlers| ==> s.handlers[j].userName != Some(recipient)
    ensures Step(s, i, line)
            == s.(handlers := ToOne(s.handlers, i, ["UserNotFound " + recipient]))
    ensures !StepAborts(s, i, line)
  {
  }

  // ---------------------------------------------------------------------------
  // Dispatch

  /** A known verb with too few fields is dropped: no output, no change. */
  lemma DroppedChangesNothing(s: State, i: nat, line: string)
    requires Inv(s) && i < |s.handlers|
    requires ParseCommand(line) == Dropped
    ensures Step(s, i, line) == s && !StepAborts(s, i, line)
  {
  }

  /** Exactly the lines with none of the five verbs as prefix are unknown, and they
      yield one `UnknownCommand` line to the handler and nothing else. */
  lemma UnknownCommandReply(s: State, i: nat, line: string)
    requires Inv(s) && i < |s.handlers|
    ensures ParseCommand(line) == Unknown <==>
              !StartsWith(line, "GetRooms") && !StartsWith(line, "CreateRoom")
              && !StartsWith(line, "JoinRoom") && !StartsWith(line, "LeaveRoom")
              && !StartsWith(line, "SendMessage")
    ensures ParseCommand(line) == Unknown ==>
              Step(s, i, line) == s.(handlers := ToOne(s.handlers, i, ["UnknownCommand"]))
  {
  }

  /** The verbs are matched as prefixes: `CreateRoom`, `JoinRoom` and `SendMessage` with
      fewer than three space-separated fields are dropped. */
  lemma ShortCommandsDropped(line: string)
    requires StartsWith(line, "CreateRoom") || StartsWith(line, "JoinRoom")
             || StartsWith(line, "SendMessage")
    requires |Split(line, 3)| < 3
    ensures ParseCommand(line) == Dropped
  {
  }

  // ---------------------------------------------------------------------------
  // Disconnect

  /** On disconnect the handler leaves the list before `leaveRoom` runs: its name leaves
      its room and exactly the remaining handlers in that room receive the leave notice
      and the new member list. */
  lemma DisconnectEffects(s: State, i: nat)
    requires Inv(s) && i < |s.handlers|
    ensures var t := Disconnect(s, i);
            var rest := s.handlers[..i] + s.handlers[i + 1..];
            var me := s.handlers[i];
            && |t.handlers| == |rest|
            && t.roomIdCounter == s.roomIdCounter
            && (me.currentRoom.None? ==> t.rooms == s.rooms && t.handlers == rest)
            && (me.currentRoom.Some? ==>
                  var k := me.currentRoom.value;
                  var user := me.userName.value;
                  && k in s.rooms
                  && t.rooms == s.rooms[k := s.rooms[k].(users := RemoveUser(s.rooms[k].users, user))]
                  && var refresh := [LeaveNotice(user)] + UserListLines(t.rooms[k].users);
                  && forall j :: 0 <= j < |rest| ==>
                       t.handlers[j] == if rest[j].currentRoom == Some(k)
                                        then Print(rest[j], refresh) else rest[j])
  {
    assert SessionOk(s.rooms, s.handlers[i]);
  }

  // ---------------------------------------------------------------------------
  // Room ids

  /** `b` still holds every room of `a` under the same id, with the same name, creator,
      address and port. */
  ghost predicate KeepsRooms(a: map<nat, Room>, b: map<nat, Room>) {
    forall k :: k in a ==> k in b && b[k].(users := []) == a[k].(users := [])
  }

  lemma MembersOnlyKeepRooms(rooms: map<nat, Room>, k: nat, users: seq<string>)
    requires k in rooms
    ensures KeepsRooms(rooms, rooms[k := rooms[k].(users := users)])
  {
  }

  /** No command reuses or forgets a room: the id counter never decreases, grows by one
      exactly on `CreateRoom`, every registered room keeps its id, name, creator, address
      and port, and a room that is new has an id no smaller than the old counter. */
  lemma IdsNeverReused(s: State, i: nat, line: string)
    requires Inv(s) && i < |s.handlers|
    ensures var t := Step(s, i, line);
            && t.roomIdCounter == s.roomIdCounter + (if ParseCommand(line).CreateRoomCmd? then 1 else 0)
            && KeepsRooms(s.rooms, t.rooms)
            && (forall k :: k in t.rooms && k !in s.rooms ==> k >= s.roomIdCounter)
  {
    var t := Step(s, i, line);
    match ParseCommand(line)
    case CreateRoomCmd(name, creator) =>
      CreateRoomAllocates(s, i, line, name, creator);
    case JoinRoomCmd(name, user) =>
      JoinKeepsRooms(s, i, line, name, user);
    case LeaveRoomCmd =>
      LeaveKeepsRooms(s, i, line);
    case _ =>
      OutputOnlyCommands(s, i, line);
  }

  lemma JoinKeepsRooms(s: State, i: nat, line: string, name: string, user: string)
    requires Inv(s) && i < |s.handlers|
    requires ParseCommand(line) == JoinRoomCmd(name, user)
    ensures var t := Step(s, i, line);
            t.roomIdCounter == s.roomIdCounter && t.rooms.Keys == s.rooms.Keys
            && KeepsRooms(s.rooms, t.rooms)
  {
    var t := Step(s, i, line);
    JoinRoomEffects(s, i, line, name, user);
    if t.rooms != s.rooms {
      var k := t.handlers[i].currentRoom.value;
      MembersOnlyKeepRooms(s.rooms, k, AddUser(s.rooms[k].users, user));
    }
  }

  lemma LeaveKeepsRooms(s: State, i: nat, line: string)
    requires Inv(s) && i < |s.handlers|
    requires ParseCommand(line) == LeaveRoomCmd
    ensures var t := Step(s, i, line);
            t.roomIdCounter == s.roomIdCounter && t.rooms.Keys == s.rooms.Keys
            && KeepsRooms(s.rooms, t.rooms)
  {
    if s.handlers[i].currentRoom.Some? {
      LeaveRoomEffects(s, i, line);
      var k := s.handlers[i].currentRoom.value;
      MembersOnlyKeepRooms(s.rooms, k, RemoveUser(s.rooms[k].users, s.handlers[i].userName.value));
    }
  }

  /** The commands other than `CreateRoom`, `JoinRoom` and `LeaveRoom` leave the registry
      and the counters alone. */
  lemma OutputOnlyCommands(s: State, i: nat, line: string)
    requires Inv(s) && i < |s.handlers|
    requires !ParseCommand(line).CreateRoomCmd? && !ParseCommand(line).JoinRoomCmd?
             && !ParseCommand(line).LeaveRoomCmd?
    ensures Step(s, i, line).rooms == s.rooms
    ensures Step(s, i, line).roomIdCounter == s.roomIdCounter
  {
  }
}
