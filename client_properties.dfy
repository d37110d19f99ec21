/** What the client's listener and commands promise, stated over `ClientSpec`. */
module ClientProperties {
  import opened Wrappers
  import opened JavaString
  import opened ClientSpec

  // ---------------------------------------------------------------------------
  // Classification

  /** Each branch of the listener is taken by exactly the lines that pass its own test
      and none before it; since no keyword but `Room` is a prefix of another, this
      amounts to the line's own test alone, and a `RoomCreated` line is never treated as a
      plain `Room` line. */
  lemma ClassifyFirstMatch(line: string)
    ensures Classify(line) == NewRoomEv <==> StartsWith(line, "NewRoom")
    ensures Classify(line) == RoomCreatedEv <==> StartsWith(line, "RoomCreated")
    ensures Classify(line) == RoomEv <==>
              StartsWith(line, "Room") && !StartsWith(line, "RoomCreated")
    ensures Classify(line) == MessageEv <==> StartsWith(line, "Message")
    ensures Classify(line) == PrivateMessageEv <==> StartsWith(line, "PrivateMessage")
    ensures Classify(line) == SystemEv <==> StartsWith(line, "System")
    ensures Classify(line) == EndOfRoomListEv <==> line == "EndOfRoomList"
    ensures Classify(line) == ClearUserListEv <==> StartsWith(line, "ClearUserList")
    ensures Classify(line) == UserEv <==> StartsWith(line, "User")
    ensures Classify(line) == EndOfUserListEv <==> line == "EndOfUserList"
  {
    StartsWithHead(line, "NewRoom");
    StartsWithHead(line, "RoomCreated");
    StartsWithHead(line, "Room");
    StartsWithHead(line, "Message");
    StartsWithHead(line, "PrivateMessage");
    StartsWithHead(line, "System");
    StartsWithHead(line, "ClearUserList");
    StartsWithHead(line, "User");
  }

  /** The relay's reply to a failed join passes the `Room` test, has one field only and
      ends the listener. */
  lemma RoomNotFoundKillsListener(c: ClientState)
    ensures Classify("RoomNotFound") == RoomEv
    ensures ParseRoom("RoomNotFound") == None
    ensures OnLine(c, "RoomNotFound") == c.(listening := false)
  {
    var line := "RoomNotFound";
    assert StartsWith(line, "Room") by {
      assert line[..4] == "Room";
    }
    Mismatch(line, "NewRoom", 0);
    Mismatch(line, "RoomCreated", 4);
    SplitWithoutSpace(line, 6);
    assert Classify(line) == RoomEv;
    assert ParseRoom(line) == None;
    assert Aborts(line);
  }

  // ---------------------------------------------------------------------------
  // The room cache

  /** A line appends at most one entry to the cache and removes none; it appends exactly
      one when it is a `NewRoom`, `RoomCreated` or `Room` line that parses, and that entry
      is the parsed room. */
  lemma OneEntryPerDescriptor(c: ClientState, line: string)
    ensures var r := OnLine(c, line);
            var e := Classify(line);
            && (r.rooms == c.rooms || r.rooms == c.rooms + [r.rooms[|r.rooms| - 1]])
            && (|r.rooms| == |c.rooms| + 1 <==>
                  (e == NewRoomEv || e == RoomCreatedEv || e == RoomEv) && ParseRoom(line).Some?)
            && (|r.rooms| == |c.rooms| + 1 ==> r.rooms[|c.rooms|] == ParseRoom(line).value)
  {
    var e := Classify(line);
    if !Aborts(line) {
      match e
      case NewRoomEv =>
      case RoomCreatedEv =>
      case RoomEv =>
      case _ =>
        assert OnLine(c, line).rooms == c.rooms;
    }
  }

  /** The listener never removes an entry: what was cached before stays a prefix. */
  lemma {:induction false} FeedOnlyAppends(c: ClientState, lines: seq<string>, w: Wait)
    ensures var r := Feed(c, lines, w);
            |c.rooms| <= |r.rooms| && r.rooms[..|c.rooms|] == c.rooms
    decreases |lines|
  {
    if lines != [] && c.listening && !Released(c, w) {
      var d := OnLine(c, lines[0]);
      assert |c.rooms| <= |d.rooms| && d.rooms[..|c.rooms|] == c.rooms by {
        OneEntryPerDescriptor(c, lines[0]);
      }
      assert Feed(c, lines, w) == Feed(d, lines[1..], w);
      var r := Feed(d, lines[1..], w);
      assert |d.rooms| <= |r.rooms| && r.rooms[..|d.rooms|] == d.rooms by {
        FeedOnlyAppends(d, lines[1..], w);
      }
      assert r.rooms[..|c.rooms|] == r.rooms[..|d.rooms|][..|c.rooms|];
    }
  }

  /** `loadRoomList` is the only place the cache is emptied; it also clears the flag
      before `GetRooms` goes out. */
  lemma RequestRoomListResets(c: ClientState)
    ensures var r := RequestRoomList(c);
            && r.rooms == [] && !r.roomListLoaded
            && r.sent == c.sent + ["GetRooms"]
            && r.(rooms := c.rooms, roomListLoaded := c.roomListLoaded, sent := c.sent) == c
  {
  }

  // ---------------------------------------------------------------------------
  // The two hand-over flags

  /** Only a `RoomCreated` line whose creator is the local user changes `createdRoom`,
      and then to the room it describes; such a line always sets it. */
  lemma CreatedRoomOnlyForOwnRoom(c: ClientState, line: string)
    ensures var r := OnLine(c, line);
            && (r.createdRoom != c.createdRoom ==>
                  && Classify(line) == RoomCreatedEv
                  && r.createdRoom == ParseRoom(line)
                  && r.createdRoom.value.creator == c.userName)
            && ((Classify(line) == RoomCreatedEv && ParseRoom(line).Some?
                 && ParseRoom(line).value.creator == c.userName) ==> r.createdRoom == ParseRoom(line))
  {
  }

  /** Only the exact line `EndOfRoomList` changes `initialRoomListLoaded`, and only to
      true. */
  lemma LoadedOnlyByEndOfRoomList(c: ClientState, line: string)
    ensures var r := OnLine(c, line);
            && (r.roomListLoaded != c.roomListLoaded ==> line == "EndOfRoomList" && r.roomListLoaded)
            && (line == "EndOfRoomList" ==> r == c.(roomListLoaded := true))
  {
    if line == "EndOfRoomList" {
      ClassifyFirstMatch(line);
      assert Classify(line) == EndOfRoomListEv;
    } else if !Aborts(line) {
      assert Classify(line) != EndOfRoomListEv;
      match Classify(line)
      case NewRoomEv =>
      case RoomCreatedEv =>
      case RoomEv =>
      case _ =>
    }
  }

  // ---------------------------------------------------------------------------
  // Display

  /** A `Message` line is shown without its first 8 characters, a `PrivateMessage` line
      without its first 15 and a `System` line whole; nothing else is shown. */
  lemma ShownText(c: ClientState, line: string)
    ensures var r := OnLine(c, line);
            && (Classify(line) == MessageEv && |line| >= 8 ==>
                  r == c.(transcript := c.transcript + [line[8..]]))
            && (Classify(line) == PrivateMessageEv && |line| >= 15 ==>
                  r == c.(transcript := c.transcript + [line[15..]]))
            && (Classify(line) == SystemEv ==> r == c.(transcript := c.transcript + [line]))
            && (Classify(line) !in {MessageEv, PrivateMessageEv, SystemEv} ==>
                  r.transcript == c.transcript)
  {
  }

  /** The member-list lines change nothing, as long as a `User` line has a name part. */
  lemma UserListLinesInert(c: ClientState, line: string)
    requires Classify(line) in {ClearUserListEv, UserEv, EndOfUserListEv, Ignored}
    requires Classify(line) == UserEv ==> |line| >= 5
    ensures OnLine(c, line) == c
  {
  }

  /** The listener dies exactly on the lines `Aborts` names, and then nothing else
      changes. */
  lemma AbortsExactly(c: ClientState, line: string)
    ensures !OnLine(c, line).listening <==> Aborts(line) || !c.listening
    ensures Aborts(line) ==> OnLine(c, line) == c.(listening := false)
  {
  }

  // ---------------------------------------------------------------------------
  // The listener over many lines

  /** Feeding two batches one after the other is feeding them at once. */
  lemma {:induction false} FeedAppend(c: ClientState, a: seq<string>, b: seq<string>, w: Wait)
    ensures Feed(c, a + b, w) == Feed(Feed(c, a, w), b, w)
    decreases |a|
  {
    if a == [] {
      assert a + b == b;
    } else if c.listening && !Released(c, w) {
      assert (a + b)[0] == a[0];
      assert (a + b)[1..] == a[1..] + b;
      FeedAppend(OnLine(c, a[0]), a[1..], b, w);
    }
  }

  /** Once the waiting thread is released, or the listener has died, further lines are
      not read by the wait. */
  lemma FeedStops(c: ClientState, lines: seq<string>, w: Wait)
    requires !c.listening || Released(c, w)
    ensures Feed(c, lines, w) == c
  {
  }

  // ---------------------------------------------------------------------------
  // Commands

  /** `sendMessage` writes `SendMessage All <trimmed text>` exactly when the trimmed text
      is not empty, and changes nothing else. */
  lemma SendMessageSends(c: ClientState, text: string)
    ensures var r := SendMessage(c, text);
            && r.(sent := c.sent) == c
            && (Trim(text) != [] <==> r.sent == c.sent + ["SendMessage All " + Trim(text)])
            && (Trim(text) == [] <==> r == c)
  {
  }

  /** `leaveRoom` writes `LeaveRoom` and clears the room only when there is one, so a
      second leave sends nothing. */
  lemma LeaveRoomOnce(c: ClientState)
    ensures LeaveRoom(c).currentRoom.None?
    ensures c.currentRoom.Some? <==> LeaveRoom(c).sent == c.sent + ["LeaveRoom"]
    ensures LeaveRoom(LeaveRoom(c)) == LeaveRoom(c)
  {
  }

  /** `joinRoom` makes the room current and sends `JoinRoom <name> <userName>`; after
      `createRoom` the slot for the hand-over is empty again and the created room is the
      current one. */
  lemma JoinAndCreateCommands(c: ClientState, room: RoomInfo, roomName: string)
    ensures JoinRoom(c, room).currentRoom == Some(room)
    ensures JoinRoom(c, room).sent == c.sent + ["JoinRoom " + room.name + " " + c.userName]
    ensures RequestRoom(c, roomName).sent == c.sent + ["CreateRoom " + roomName + " " + c.userName]
    ensures c.createdRoom.Some? ==>
              && FinishCreateRoom(c).createdRoom.None?
              && FinishCreateRoom(c).currentRoom == c.createdRoom
  {
  }
}
