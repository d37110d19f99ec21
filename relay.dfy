/** The relay as an object: the static registry, the two counters and the handler
    list of MultiCastServer.java are fields that the command methods update in place,
    and every `for` loop over the handlers or the registry is a loop here. Each method
    is proved to make exactly the change the matching function of `RelaySpec` describes,
    so everything proved about those functions holds of this class. A handler is named
    by its position `i` in `handlers`. */
module Relay {
  import opened Wrappers
  import opened JavaString
  import opened RelaySpec

  class Server {
    var rooms: map<nat, Room>
    var roomIdCounter: nat
    var addressCounter: nat
    var handlers: seq<Session>

    function State(): RelaySpec.State
      reads this
    {
      RelaySpec.State(rooms, roomIdCounter, addressCounter, handlers)
    }

    ghost predicate Valid()
      reads this
    {
      Inv(State())
    }

    /** Class initialisation: no rooms, both counters at 1, no handlers. */
    constructor()
      ensures State() == Initial() && Valid()
    {
      rooms := map[];
      roomIdCounter := 1;
      addressCounter := 1;
      handlers := [];
      InitialInv();
    }

    /** `main` accepting a connection. */
    method Connect(peer: string)
      requires Valid()
      modifies this
      ensures State() == RelaySpec.Connect(old(State()), peer) && Valid()
    {
      handlers := handlers + [Session(peer, None, None, [])];
      ConnectKeepsInv(old(State()), peer);
    }

    /** `out.println` on handler `j`'s stream. */
    method Println(j: nat, line: string)
      requires j < |handlers|
      modifies this
      ensures State() == old(State()).(handlers := ToOne(old(handlers), j, [line]))
    {
      handlers := handlers[j := Print(handlers[j], [line])];
    }

    // -------------------------------------------------------------------------
    // Lines to one handler

    method SendRoomList(i: nat)
      requires i < |handlers|
      modifies this
      ensures State() == old(State()).(handlers := ToOne(old(handlers), i, RoomList(old(State()))))
    {
      var k := 0;
      assert Print(handlers[i], []) == handlers[i];
      while k < roomIdCounter
        invariant k <= roomIdCounter && rooms == old(rooms)
        invariant State() == old(State()).(handlers := ToOne(old(handlers), i, RoomLines(rooms, k)))
      {
        if k in rooms {
          Println(i, RoomLine(rooms[k]));
        }
        assert old(handlers)[i].out + RoomLines(rooms, k + 1) == handlers[i].out;
        k := k + 1;
      }
      Println(i, "EndOfRoomList");
      assert old(handlers)[i].out + RoomList(old(State())) == handlers[i].out;
    }

    /** `sendUserList` on handler `j`: the member list of its own current room. */
    method SendUserList(j: nat)
      requires j < |handlers|
      requires handlers[j].currentRoom.Some? ==> handlers[j].currentRoom.value in rooms
      modifies this
      ensures var h := old(handlers)[j];
              State() == old(State()).(handlers := ToOne(old(handlers), j,
                if h.currentRoom.Some? then UserListLines(old(rooms)[h.currentRoom.value].users) else []))
    {
      var h := handlers[j];
      if h.currentRoom.Some? {
        var users := rooms[h.currentRoom.value].users;
        var header := ["ClearUserList", "User All"];
        Println(j, "ClearUserList");
        Println(j, "User All");
        var m := 0;
        assert h.out + ["ClearUserList"] + ["User All"] == h.out + header + UserLines(users[..0]);
        while m < |users|
          invariant m <= |users| && |handlers| == |old(handlers)|
          invariant rooms == old(rooms) && roomIdCounter == old(roomIdCounter)
          invariant addressCounter == old(addressCounter)
          invariant handlers == old(handlers)[j := h.(out := h.out + header + UserLines(users[..m]))]
        {
          Println(j, "User " + users[m]);
          UserLinesSnoc(users, m);
          assert h.out + header + UserLines(users[..m]) + ["User " + users[m]]
                 == h.out + header + UserLines(users[..m + 1]);
          m := m + 1;
        }
        Println(j, "EndOfUserList");
        assert users[..m] == users;
        assert h.out + header + UserLines(users) + ["EndOfUserList"] == h.out + UserListLines(users);
      } else {
        assert Print(h, []) == h;
        assert handlers == ToOne(old(handlers), j, []);
      }
    }

    // -------------------------------------------------------------------------
    // Lines to a room, to everybody else

    /** `broadcastSystemMessageToRoom` for a handler whose current room is `room`. */
    method BroadcastSystemMessageToRoom(room: Option<nat>, message: string)
      modifies this
      ensures State() == old(State()).(handlers :=
                if room.Some? then ToRoom(old(handlers), room.value, [message]) else old(handlers))
    {
      if room.Some? {
        var j := 0;
        while j < |handlers|
          invariant j <= |handlers| == |old(handlers)|
          invariant rooms == old(rooms) && roomIdCounter == old(roomIdCounter)
          invariant addressCounter == old(addressCounter)
          invariant forall m :: 0 <= m < |handlers| ==>
                      handlers[m] == if m < j then ToRoom(old(handlers), room.value, [message])[m]
                                     else old(handlers)[m]
        {
          if handlers[j].currentRoom == room {
            Println(j, message);
          }
          j := j + 1;
        }
        assert handlers == ToRoom(old(handlers), room.value, [message]);
      }
    }

    /** `updateUserListInRoom` for a handler whose current room is `room`. */
    method UpdateUserListInRoom(room: Option<nat>)
      requires room.Some? ==> room.value in rooms
      modifies this
      ensures State() == old(State()).(handlers :=
                if room.Some? then ToRoom(old(handlers), room.value, UserListLines(old(rooms)[room.value].users))
                else old(handlers))
    {
      if room.Some? {
        var lines := UserListLines(rooms[room.value].users);
        var j := 0;
        while j < |handlers|
          invariant j <= |handlers| == |old(handlers)|
          invariant rooms == old(rooms) && roomIdCounter == old(roomIdCounter)
          invariant addressCounter == old(addressCounter)
          invariant forall m :: 0 <= m < |handlers| ==>
                      handlers[m] == if m < j then ToRoom(old(handlers), room.value, lines)[m]
                                     else old(handlers)[m]
        {
          if handlers[j].currentRoom == room {
            SendUserList(j);
          }
          j := j + 1;
        }
        assert handlers == ToRoom(old(handlers), room.value, lines);
      }
    }

    method BroadcastNewRoom(i: nat, room: Room)
      modifies this
      ensures State() == old(State()).(handlers := ToOthers(old(handlers), i, NewRoomLine(room)))
    {
      var message := NewRoomLine(room);
      var j := 0;
      while j < |handlers|
        invariant j <= |handlers| == |old(handlers)|
        invariant rooms == old(rooms) && roomIdCounter == old(roomIdCounter)
        invariant addressCounter == old(addressCounter)
        invariant forall m :: 0 <= m < |handlers| ==>
                    handlers[m] == if m < j then ToOthers(old(handlers), i, message)[m]
                                   else old(handlers)[m]
      {
        if j != i {
          Println(j, message);
        }
        j := j + 1;
      }
      assert handlers == ToOthers(old(handlers), i, message);
    }

    // -------------------------------------------------------------------------
    // Commands

    method CreateRoom(i: nat, roomName: string, creatorName: string)
      requires i < |handlers|
      modifies this
      ensures State() == RelaySpec.CreateRoom(old(State()), i, roomName, creatorName)
    {
      var multicastAddress := BaseAddress + NatToString(addressCounter);
      addressCounter := addressCounter + 1;
      var port := BasePort + roomIdCounter;
      var room := Room(roomIdCounter, roomName, creatorName, multicastAddress, port, []);
      roomIdCounter := roomIdCounter + 1;
      rooms := rooms[room.id := room];
      Println(i, RoomCreatedLine(room));
      BroadcastNewRoom(i, room);
    }

    /** `joinRoom`, with the handler's name already stored: the registry is searched in
        ascending id order and the first room with the name is joined. */
    method JoinRoom(i: nat, roomName: string)
      requires i < |handlers| && handlers[i].userName.Some?
      requires Valid()
      modifies this
      ensures State() == RelaySpec.JoinRoom(old(State()), i, roomName)
    {
      var k := 0;
      while k < roomIdCounter
        invariant k <= roomIdCounter && State() == old(State())
        invariant FindRoom(rooms, roomName, 0, roomIdCounter) == FindRoom(rooms, roomName, k, roomIdCounter)
      {
        if k in rooms && rooms[k].name == roomName {
          var user := handlers[i].userName.value;
          handlers := handlers[i := handlers[i].(currentRoom := Some(k))];
          rooms := rooms[k := rooms[k].(users := AddUser(rooms[k].users, user))];
          Println(i, "JoinedRoom " + NatToString(rooms[k].id) + " " + rooms[k].name);
          BroadcastSystemMessageToRoom(Some(k), JoinNotice(user));
          UpdateUserListInRoom(Some(k));
          return;
        }
        k := k + 1;
      }
      Println(i, "RoomNotFound");
    }

    /** The part of `leaveRoom` that runs while the handler still points at room `k`. */
    method Depart(k: nat, user: string)
      requires k in rooms
      modifies this
      ensures State() == RelaySpec.Depart(old(State()), k, user)
    {
      rooms := rooms[k := rooms[k].(users := RemoveUser(rooms[k].users, user))];
      BroadcastSystemMessageToRoom(Some(k), LeaveNotice(user));
      UpdateUserListInRoom(Some(k));
    }

    method LeaveRoom(i: nat)
      requires Valid() && i < |handlers|
      modifies this
      ensures State() == RelaySpec.LeaveRoom(old(State()), i)
    {
      var me := handlers[i];
      if me.currentRoom.Some? {
        assert SessionOk(rooms, me);
        Depart(me.currentRoom.value, me.userName.value);
        handlers := handlers[i := handlers[i].(currentRoom := None)];
      }
    }

    method BroadcastMessageToRoom(i: nat, message: string)
      requires i < |handlers|
      modifies this
      ensures State() == SendAll(old(State()), i, message)
    {
      var me := handlers[i];
      BroadcastSystemMessageToRoom(me.currentRoom, ChatLine(me, message));
    }

    /** `sendPrivateMessage`; `aborted` is the exception of its log line. */
    method SendPrivateMessage(i: nat, recipient: string, message: string) returns (aborted: bool)
      requires i < |handlers|
      modifies this
      ensures State() == SendPrivate(old(State()), i, recipient, message)
      ensures aborted == PrivateAborts(old(State()), i, recipient)
    {
      var me := handlers[i];
      if me.userName == Some(recipient) {
        Println(i, SelfMessageError);
        return false;
      }
      var j := 0;
      while j < |handlers|
        invariant j <= |handlers| && State() == old(State())
        invariant FindUser(handlers, recipient, 0) == FindUser(handlers, recipient, j)
      {
        if handlers[j].userName.Some? && handlers[j].userName.value == recipient {
          Println(j, PrivateFromLine(me, message));
          Println(i, PrivateToLine(me, recipient, message));
          return me.currentRoom.None?;
        }
        j := j + 1;
      }
      Println(i, "UserNotFound " + recipient);
      return false;
    }

    // -------------------------------------------------------------------------
    // The read loop

    /** One line of `ClientHandler.run`; `aborted` when it throws. */
    method Step(i: nat, line: string) returns (aborted: bool)
      requires Valid() && i < |handlers|
      modifies this
      ensures State() == RelaySpec.Step(old(State()), i, line)
      ensures aborted == StepAborts(old(State()), i, line)
      ensures Valid() && i < |handlers|
    {
      ghost var cmd := ParseCommand(line);
      aborted := false;
      if StartsWith(line, "GetRooms") {
        assert cmd == GetRooms;
        SendRoomList(i);
      } else if StartsWith(line, "CreateRoom") {
        var tokens := Split(line, 3);
        if |tokens| == 3 {
          assert cmd == CreateRoomCmd(tokens[1], tokens[2]);
          CreateRoom(i, tokens[1], tokens[2]);
        } else {
          assert cmd == Dropped;
        }
      } else if StartsWith(line, "JoinRoom") {
        var tokens := Split(line, 3);
        if |tokens| == 3 {
          assert cmd == JoinRoomCmd(tokens[1], tokens[2]);
          handlers := handlers[i := handlers[i].(userName := Some(tokens[2]))];
          SetNameKeepsInv(old(State()), i, tokens[2]);
          JoinRoom(i, tokens[1]);
        } else {
          assert cmd == Dropped;
        }
      } else {
        aborted := StepOther(i, line);
      }
      StepKeepsInv(old(State()), i, line);
    }

    /** The branches of the read loop after the first three. */
    method StepOther(i: nat, line: string) returns (aborted: bool)
      requires Valid() && i < |handlers|
      requires !StartsWith(line, "GetRooms") && !StartsWith(line, "CreateRoom")
      requires !StartsWith(line, "JoinRoom")
      modifies this
      ensures State() == RelaySpec.Step(old(State()), i, line)
      ensures aborted == StepAborts(old(State()), i, line)
    {
      ghost var cmd := ParseCommand(line);
      aborted := false;
      if StartsWith(line, "LeaveRoom") {
        assert cmd == LeaveRoomCmd;
        LeaveRoom(i);
      } else if StartsWith(line, "SendMessage") {
        var tokens := Split(line, 3);
        if |tokens| == 3 {
          if tokens[1] == "All" {
            assert cmd == SendAllCmd(tokens[2]);
            BroadcastMessageToRoom(i, tokens[2]);
          } else {
            assert cmd == SendToCmd(tokens[1], tokens[2]);
            aborted := SendPrivateMessage(i, tokens[1], tokens[2]);
          }
        } else {
          assert cmd == Dropped;
        }
      } else {
        assert cmd == Unknown;
        Println(i, "UnknownCommand");
      }
    }

    /** The `finally` block. */
    method Disconnect(i: nat)
      requires Valid() && i < |handlers|
      modifies this
      ensures State() == RelaySpec.Disconnect(old(State()), i) && Valid()
    {
      var me := handlers[i];
      handlers := handlers[..i] + handlers[i + 1..];
      if me.currentRoom.Some? {
        assert SessionOk(rooms, me);
        Depart(me.currentRoom.value, me.userName.value);
      }
      DisconnectKeepsInv(old(State()), i);
    }

    /** `ClientHandler.run` for handler `i` reading `lines`: the loop ends when the input
        ends or a line throws, and the clean-up runs either way. */
    method Run(i: nat, lines: seq<string>)
      requires Valid() && i < |handlers|
      modifies this
      ensures State() == Serve(old(State()), i, lines) && Valid()
    {
      var k := 0;
      while k < |lines|
        invariant k <= |lines| && Valid() && i < |handlers|
        invariant Serve(old(State()), i, lines) == Serve(State(), i, lines[k..])
      {
        assert lines[k..][0] == lines[k] && lines[k..][1..] == lines[k + 1..];
        var aborted := Step(i, lines[k]);
        if aborted {
          Disconnect(i);
          return;
        }
        k := k + 1;
      }
      Disconnect(i);
    }
  }

  /** Storing a name keeps the invariant. */
  lemma SetNameKeepsInv(s: State, i: nat, user: string)
    requires Inv(s) && i < |s.handlers|
    ensures Inv(s.(handlers := s.handlers[i := s.handlers[i].(userName := Some(user))]))
  {
    var t := s.(handlers := s.handlers[i := s.handlers[i].(userName := Some(user))]);
    forall j | 0 <= j < |t.handlers| ensures SessionOk(t.rooms, t.handlers[j]) {
      assert SessionOk(s.rooms, s.handlers[j]);
    }
  }

  /** The member lines for one more member. */
  lemma UserLinesSnoc(users: seq<string>, m: nat)
    requires m < |users|
    ensures UserLines(users[..m + 1]) == UserLines(users[..m]) + ["User " + users[m]]
  {
    var a, b := UserLines(users[..m + 1]), UserLines(users[..m]) + ["User " + users[m]];
    assert |a| == |b|;
    forall j | 0 <= j < |a| ensures a[j] == b[j] {
      assert users[..m + 1][j] == users[j];
    }
  }
}
