/** The chat client's state as an object: the listener thread's loop and the command
    methods update its fields in place. Each method is proved to make exactly the
    change the matching function of `ClientSpec` describes. */
module Client {
  import opened Wrappers
  import opened JavaString
  import opened ClientSpec

  class ChatClient {
    var userName: string
    var rooms: seq<RoomInfo>
    var currentRoom: Option<RoomInfo>
    var createdRoom: Option<RoomInfo>
    var initialRoomListLoaded: bool
    /** Every string appended to the chat area. */
    var transcript: seq<string>
    /** Every line written to the relay. */
    var sent: seq<string>
    /** The listener thread is still running. */
    var listening: bool

    function State(): ClientState
      reads this
    {
      ClientState(userName, rooms, currentRoom, createdRoom, initialRoomListLoaded,
                  transcript, sent, listening)
    }

    /** The login button: the trimmed name becomes the user name, and only a non-empty
        one gets as far as connecting and starting the listener. */
    constructor(loginText: string)
      requires Trim(loginText) != []
      ensures State() == ClientState(Trim(loginText), [], None, None, false, [], [], true)
    {
      userName := Trim(loginText);
      rooms := [];
      currentRoom := None;
      createdRoom := None;
      initialRoomListLoaded := false;
      transcript := [];
      sent := [];
      listening := true;
    }

    /** Appends the room a descriptor line describes, or ends the listener when the line
        does not parse. */
    method AddDescriptor(line: string) returns (room: Option<RoomInfo>)
      modifies this
      ensures room == ParseRoom(line)
      ensures room.Some? ==> State() == old(State()).(rooms := old(rooms) + [room.value])
      ensures room.None? ==> State() == old(State()).(listening := false)
    {
      var tokens := Split(line, 6);
      if |tokens| < 6 {
        listening := false;
        return None;
      }
      var id := ParseInt(tokens[1]);
      var port := ParseInt(tokens[5]);
      if id.None? || port.None? {
        listening := false;
        return None;
      }
      room := Some(RoomInfo(id.value, tokens[2], tokens[3], tokens[4], port.value));
      rooms := rooms + [room.value];
    }

    /** One iteration of the listener's loop. */
    method Receive(line: string)
      modifies this
      ensures State() == OnLine(old(State()), line)
    {
      ghost var e := Classify(line);
      if StartsWith(line, "NewRoom") {
        assert e == NewRoomEv;
        var _ := AddDescriptor(line);
      } else if StartsWith(line, "RoomCreated") {
        assert e == RoomCreatedEv;
        var room := AddDescriptor(line);
        if room.Some? && room.value.creator == userName {
          createdRoom := room;
        }
      } else if StartsWith(line, "Room") {
        assert e == RoomEv;
        var _ := AddDescriptor(line);
      } else {
        ReceiveText(line);
      }
    }

    /** The branches of the listener for lines that are not room descriptors. */
    method ReceiveText(line: string)
      requires !StartsWith(line, "NewRoom") && !StartsWith(line, "RoomCreated")
      requires !StartsWith(line, "Room")
      modifies this
      ensures State() == OnLine(old(State()), line)
    {
      ghost var e := Classify(line);
      if StartsWith(line, "Message") {
        assert e == MessageEv;
        var message := Substring(line, 8);
        if message.None? {
          listening := false;
        } else {
          transcript := transcript + [message.value];
        }
      } else if StartsWith(line, "PrivateMessage") {
        assert e == PrivateMessageEv;
        var message := Substring(line, 15);
        if message.None? {
          listening := false;
        } else {
          transcript := transcript + [message.value];
        }
      } else if StartsWith(line, "System") {
        assert e == SystemEv;
        transcript := transcript + [line];
      } else if line == "EndOfRoomList" {
        assert e == EndOfRoomListEv;
        initialRoomListLoaded := true;
      } else if StartsWith(line, "ClearUserList") {
        assert e == ClearUserListEv;
      } else if StartsWith(line, "User") {
        assert e == UserEv;
        var user := Substring(line, 5);
        if user.None? {
          listening := false;
        }
      } else {
        assert !Aborts(line);
      }
    }

    /** The listener reading `incoming` until the input ends, the thread dies, or the
        thread blocked on `w` is released; `used` lines were read. */
    method Listen(incoming: seq<string>, w: Wait) returns (used: nat)
      modifies this
      ensures used <= |incoming|
      ensures State() == Feed(old(State()), incoming, w)
      ensures State() == Feed(old(State()), incoming[..used], Forever)
    {
      used := 0;
      while used < |incoming| && listening && !Released(State(), w)
        invariant used <= |incoming|
        invariant Feed(old(State()), incoming, w) == Feed(State(), incoming[used..], w)
        invariant State() == Feed(old(State()), incoming[..used], Forever)
        decreases |incoming| - used
      {
        Receive(incoming[used]);
        assert incoming[used..][1..] == incoming[used + 1..];
        FeedForeverStep(old(State()), incoming[..used], incoming[used]);
        assert incoming[..used + 1] == incoming[..used] + [incoming[used]];
        used := used + 1;
      }
    }

    /** `loadRoomList`: the request, then the wait for `EndOfRoomList`, during which the
        listener reads `replies`. `released` is false when the wait would block forever. */
    method LoadRoomList(replies: seq<string>) returns (released: bool)
      modifies this
      ensures State() == Feed(RequestRoomList(old(State())), replies, RoomListLoaded)
      ensures released == initialRoomListLoaded
    {
      rooms := [];
      initialRoomListLoaded := false;
      sent := sent + ["GetRooms"];
      var _ := Listen(replies, RoomListLoaded);
      released := initialRoomListLoaded;
    }

    /** `createRoom`: the request, the wait for the hand-over of the created room while
        the listener reads `replies`, then joining it and emptying the slot. */
    method CreateRoom(roomName: string, replies: seq<string>) returns (released: bool)
      modifies this
      ensures var c := Feed(RequestRoom(old(State()), roomName), replies, RoomCreated);
              && released == c.createdRoom.Some?
              && State() == if released then FinishCreateRoom(c) else c
    {
      sent := sent + ["CreateRoom " + roomName + " " + userName];
      var _ := Listen(replies, RoomCreated);
      released := createdRoom.Some?;
      if released {
        JoinRoom(createdRoom.value);
        createdRoom := None;
      }
    }

    method JoinRoom(room: RoomInfo)
      modifies this
      ensures State() == ClientSpec.JoinRoom(old(State()), room)
    {
      currentRoom := Some(room);
      sent := sent + ["JoinRoom " + room.name + " " + userName];
    }

    method SendMessage(text: string)
      modifies this
      ensures State() == ClientSpec.SendMessage(old(State()), text)
    {
      var message := Trim(text);
      if message != [] {
        assert "SendMessage " + "All" + " " + message == "SendMessage All " + message;
        sent := sent + ["SendMessage " + "All" + " " + message];
      }
    }

    method LeaveRoom()
      modifies this
      ensures State() == ClientSpec.LeaveRoom(old(State()))
    {
      if currentRoom.Some? {
        sent := sent + ["LeaveRoom"];
        currentRoom := None;
      }
    }
  }

  /** Reading one more line with nobody waiting extends the run by one step. */
  lemma {:induction false} FeedForeverStep(c: ClientState, lines: seq<string>, line: string)
    requires Feed(c, lines, Forever).listening
    ensures Feed(c, lines + [line], Forever) == OnLine(Feed(c, lines, Forever), line)
    decreases |lines|
  {
    if lines == [] {
      assert ([] + [line])[1..] == [];
    } else {
      assert c.listening;
      assert (lines + [line])[1..] == lines[1..] + [line];
      FeedForeverStep(OnLine(c, lines[0]), lines[1..], line);
    }
  }
}
