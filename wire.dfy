/** The line protocol between the two programs: what the client makes of the lines the
    relay writes, and what the relay makes of the lines the client writes. */
module Wire {
  import opened Wrappers
  import opened JavaString
  import opened RelaySpec
  import opened ClientSpec
  import opened ClientProperties
  import opened RelayProperties

  /** The client's record of a relay room. */
  function Info(r: Room): RoomInfo {
    RoomInfo(r.id, r.name, r.creator, r.address, r.port)
  }

  /** The client's records of the rooms with ids below `n`, ascending. */
  function Infos(rooms: map<nat, Room>, n: nat): seq<RoomInfo> {
    if n == 0 then []
    else Infos(rooms, n - 1) + (if n - 1 in rooms then [Info(rooms[n - 1])] else [])
  }

  /** A room whose descriptor survives `split(" ", 6)` and `parseInt`. */
  predicate Portable(r: Room) {
    && ' ' !in r.name && ' ' !in r.creator && ' ' !in r.address
    && r.id <= IntMax && r.port <= IntMax
  }

  /** Every registered room is portable once names and creators are free of spaces and
      the ports are within `int` range. */
  lemma RegisteredRoomPortable(s: State, k: nat)
    requires Inv(s) && k in s.rooms
    requires ' ' !in s.rooms[k].name && ' ' !in s.rooms[k].creator
    requires BasePort + k <= IntMax
    ensures Portable(s.rooms[k])
  {
    NatToStringHasNoSpace(k);
    assert RoomOk(k, s.rooms[k]);
    assert ' ' !in BaseAddress;
  }

  // ---------------------------------------------------------------------------
  // Room descriptors

  /** The fields of a descriptor line written by the relay come back out of the client's
      `split(" ", 6)` unchanged. */
  lemma DescriptorSplits(keyword: string, r: Room)
    requires ' ' !in keyword && Portable(r)
    ensures Split(JoinSpaces([keyword] + DescriptorFields(r)), 6) == [keyword] + DescriptorFields(r)
  {
    var ps := [keyword] + DescriptorFields(r);
    NatToStringHasNoSpace(r.id);
    NatToStringHasNoSpace(r.port);
    assert forall j :: 0 <= j < |ps| - 1 ==> ' ' !in ps[j] by {
      assert ps[0] == keyword && ps[1] == NatToString(r.id) && ps[2] == r.name;
      assert ps[3] == r.creator && ps[4] == r.address;
    }
    JoinThenSplit(ps, 6);
  }

  /** Parsing any of the three descriptor lines recovers the room, field by field. */
  lemma DescriptorRoundTrip(r: Room)
    requires Portable(r)
    ensures ParseRoom(RoomLine(r)) == Some(Info(r))
    ensures ParseRoom(RoomCreatedLine(r)) == Some(Info(r))
    ensures ParseRoom(NewRoomLine(r)) == Some(Info(r))
  {
    RoomLineParses(r);
    RoomCreatedLineParses(r);
    NewRoomLineParses(r);
  }

  lemma RoomLineParses(r: Room)
    requires Portable(r)
    ensures ParseRoom(RoomLine(r)) == Some(Info(r))
  {
    DescriptorLinesAgree(r);
    DescriptorParses("Room", r);
  }

  lemma RoomCreatedLineParses(r: Room)
    requires Portable(r)
    ensures ParseRoom(RoomCreatedLine(r)) == Some(Info(r))
  {
    DescriptorLinesAgree(r);
    DescriptorParses("RoomCreated", r);
  }

  lemma NewRoomLineParses(r: Room)
    requires Portable(r)
    ensures ParseRoom(NewRoomLine(r)) == Some(Info(r))
  {
    DescriptorLinesAgree(r);
    DescriptorParses("NewRoom", r);
  }

  lemma DescriptorParses(keyword: string, r: Room)
    requires ' ' !in keyword && Portable(r)
    ensures ParseRoom(JoinSpaces([keyword] + DescriptorFields(r))) == Some(Info(r))
  {
    var t := [keyword] + DescriptorFields(r);
    DescriptorSplits(keyword, r);
    assert t[1] == NatToString(r.id) && t[2] == r.name && t[3] == r.creator;
    assert t[4] == r.address && t[5] == NatToString(r.port);
    ParseIntOfNatToString(r.id);
    ParseIntOfNatToString(r.port);
    ParsePieces(JoinSpaces(t), t, r.id, r.port);
  }

  /** `ParseRoom` on a line whose six pieces are known. */
  lemma ParsePieces(line: string, t: seq<string>, id: int, port: int)
    requires Split(line, 6) == t && |t| == 6
    requires ParseInt(t[1]) == Some(id) && ParseInt(t[5]) == Some(port)
    ensures ParseRoom(line) == Some(RoomInfo(id, t[2], t[3], t[4], port))
  {
  }

  /** Each descriptor line takes the listener branch of its own keyword. */
  lemma DescriptorClasses(r: Room)
    ensures Classify(RoomLine(r)) == RoomEv
    ensures Classify(RoomCreatedLine(r)) == RoomCreatedEv
    ensures Classify(NewRoomLine(r)) == NewRoomEv
  {
    var a, b, c := RoomLine(r), RoomCreatedLine(r), NewRoomLine(r);
    assert a[..4] == "Room" && a[4] == ' ';
    Mismatch(a, "NewRoom", 0);
    Mismatch(a, "RoomCreated", 4);
    assert b[..11] == "RoomCreated";
    Mismatch(b, "NewRoom", 0);
    assert c[..7] == "NewRoom";
  }

  /** A listening client appends the room of each descriptor line, and a `RoomCreated`
      line for a room of its own user also fills the hand-over slot. */
  lemma ClientReadsDescriptors(c: ClientState, r: Room)
    requires Portable(r)
    ensures OnLine(c, RoomLine(r)) == c.(rooms := c.rooms + [Info(r)])
    ensures OnLine(c, NewRoomLine(r)) == c.(rooms := c.rooms + [Info(r)])
    ensures OnLine(c, RoomCreatedLine(r))
            == c.(rooms := c.rooms + [Info(r)],
                  createdRoom := if r.creator == c.userName then Some(Info(r)) else c.createdRoom)
  {
    DescriptorRoundTrip(r);
    DescriptorClasses(r);
  }

  // ---------------------------------------------------------------------------
  // The room list

  lemma {:induction false} FeedRoomLines(c: ClientState, rooms: map<nat, Room>, n: nat)
    requires c.listening && !c.roomListLoaded
    requires forall k :: k < n && k in rooms ==> Portable(rooms[k])
    ensures Feed(c, RoomLines(rooms, n), RoomListLoaded) == c.(rooms := c.rooms + Infos(rooms, n))
    decreases n
  {
    if n == 0 {
      assert c.rooms + [] == c.rooms;
    } else {
      FeedRoomLines(c, rooms, n - 1);
      FeedRoomLinesStep(c, rooms, n);
    }
  }

  /** One more registry slot: its line, if any, adds its room. */
  lemma FeedRoomLinesStep(c: ClientState, rooms: map<nat, Room>, n: nat)
    requires n >= 1 && c.listening && !c.roomListLoaded
    requires n - 1 in rooms ==> Portable(rooms[n - 1])
    requires Feed(c, RoomLines(rooms, n - 1), RoomListLoaded) == c.(rooms := c.rooms + Infos(rooms, n - 1))
    ensures Feed(c, RoomLines(rooms, n), RoomListLoaded) == c.(rooms := c.rooms + Infos(rooms, n))
  {
    var d := c.(rooms := c.rooms + Infos(rooms, n - 1));
    if n - 1 in rooms {
      var r := rooms[n - 1];
      assert RoomLines(rooms, n) == RoomLines(rooms, n - 1) + [RoomLine(r)];
      FeedAppend(c, RoomLines(rooms, n - 1), [RoomLine(r)], RoomListLoaded);
      FeedOneRoomLine(d, r);
      assert c.rooms + Infos(rooms, n - 1) + [Info(r)] == c.rooms + Infos(rooms, n);
    } else {
      assert RoomLines(rooms, n) == RoomLines(rooms, n - 1);
      assert Infos(rooms, n) == Infos(rooms, n - 1);
    }
  }

  /** A client still waiting for the end of the list records the room of a `Room` line. */
  lemma FeedOneRoomLine(d: ClientState, r: Room)
    requires d.listening && !d.roomListLoaded && Portable(r)
    ensures Feed(d, [RoomLine(r)], RoomListLoaded) == d.(rooms := d.rooms + [Info(r)])
  {
    ClientReadsDescriptors(d, r);
    assert Feed(d, [RoomLine(r)], RoomListLoaded) == Feed(OnLine(d, RoomLine(r)), [], RoomListLoaded);
  }

  /** `loadRoomList` meeting the relay's answer to `GetRooms`: the client is released and
      its cache holds exactly the registry's rooms, in the order the relay listed them. */
  lemma LoadRoomListReceivesRegistry(s: State, c: ClientState)
    requires Inv(s) && c.listening
    requires forall k :: k in s.rooms ==> ' ' !in s.rooms[k].name && ' ' !in s.rooms[k].creator
    requires BasePort + s.roomIdCounter <= IntMax
    ensures var r := Feed(RequestRoomList(c), RoomList(s), RoomListLoaded);
            && r.roomListLoaded && r.listening
            && r.rooms == Infos(s.rooms, s.roomIdCounter)
            && r.(rooms := c.rooms, roomListLoaded := c.roomListLoaded) == RequestRoomList(c).(rooms := c.rooms, roomListLoaded := c.roomListLoaded)
  {
    var c0 := RequestRoomList(c);
    forall k | k < s.roomIdCounter && k in s.rooms ensures Portable(s.rooms[k]) {
      RegisteredRoomPortable(s, k);
    }
    FeedRoomLines(c0, s.rooms, s.roomIdCounter);
    FeedAppend(c0, RoomLines(s.rooms, s.roomIdCounter), ["EndOfRoomList"], RoomListLoaded);
    var d := c0.(rooms := c0.rooms + Infos(s.rooms, s.roomIdCounter));
    LoadedOnlyByEndOfRoomList(d, "EndOfRoomList");
    assert Feed(d, ["EndOfRoomList"], RoomListLoaded) == OnLine(d, "EndOfRoomList");
    assert c0.rooms + Infos(s.rooms, s.roomIdCounter) == Infos(s.rooms, s.roomIdCounter);
  }

  /** The client's records are the registry's rooms, id `k` at position `k - 1`. */
  lemma {:induction false} InfosAt(rooms: map<nat, Room>, n: nat)
    requires n >= 1 && 0 !in rooms && forall k :: 1 <= k < n ==> k in rooms
    ensures |Infos(rooms, n)| == n - 1
    ensures forall k :: 1 <= k < n ==> Infos(rooms, n)[k - 1] == Info(rooms[k])
    decreases n
  {
    if n > 1 {
      InfosAt(rooms, n - 1);
      assert Infos(rooms, n) == Infos(rooms, n - 1) + [Info(rooms[n - 1])];
    }
  }

  // ---------------------------------------------------------------------------
  // Commands from the client

  /** The relay reads back the commands the client writes. A room name without spaces
      is one field; the last field, the user name or the text, may contain spaces. */
  lemma CommandsParse(c: ClientState, name: string, room: RoomInfo, text: string)
    requires ' ' !in name && ' ' !in room.name
    ensures ParseCommand(RequestRoom(c, name).sent[|c.sent|]) == CreateRoomCmd(name, c.userName)
    ensures ParseCommand(ClientSpec.JoinRoom(c, room).sent[|c.sent|]) == JoinRoomCmd(room.name, c.userName)
    ensures Trim(text) != [] ==>
              ParseCommand(SendMessage(c, text).sent[|c.sent|]) == SendAllCmd(Trim(text))
    ensures c.currentRoom.Some? ==> ParseCommand(ClientSpec.LeaveRoom(c).sent[|c.sent|]) == LeaveRoomCmd
    ensures ParseCommand(RequestRoomList(c).sent[|c.sent|]) == GetRooms
  {
    assert RequestRoom(c, name).sent[|c.sent|] == "CreateRoom " + name + " " + c.userName;
    CreateParses(name, c.userName);
    assert ClientSpec.JoinRoom(c, room).sent[|c.sent|] == "JoinRoom " + room.name + " " + c.userName;
    JoinParses(room.name, c.userName);
    if Trim(text) != [] {
      assert SendMessage(c, text).sent[|c.sent|] == "SendMessage All " + Trim(text);
      SendAllParses(Trim(text));
    }
    if c.currentRoom.Some? {
      assert ClientSpec.LeaveRoom(c).sent[|c.sent|] == "LeaveRoom";
      LeaveParses();
    }
    assert RequestRoomList(c).sent[|c.sent|] == "GetRooms";
    GetRoomsParses();
  }

  lemma LeaveParses()
    ensures ParseCommand("LeaveRoom") == LeaveRoomCmd
  {
    assert StartsWith("LeaveRoom", "LeaveRoom");
    Mismatch("LeaveRoom", "GetRooms", 0);
    Mismatch("LeaveRoom", "CreateRoom", 0);
    Mismatch("LeaveRoom", "JoinRoom", 0);
  }

  lemma GetRoomsParses()
    ensures ParseCommand("GetRooms") == GetRooms
  {
    assert StartsWith("GetRooms", "GetRooms");
  }

  lemma CreateParses(name: string, user: string)
    requires ' ' !in name
    ensures ParseCommand("CreateRoom " + name + " " + user) == CreateRoomCmd(name, user)
  {
    var line := "CreateRoom " + name + " " + user;
    assert Split(line, 3) == ["CreateRoom", name, user] by {
      assert line == "CreateRoom" + " " + name + " " + user;
      SplitThree("CreateRoom", name, user);
    }
    assert StartsWith(line, "CreateRoom") && !StartsWith(line, "GetRooms") by {
      assert line[..10] == "CreateRoom";
      Mismatch(line, "GetRooms", 0);
    }
  }

  lemma JoinParses(name: string, user: string)
    requires ' ' !in name
    ensures ParseCommand("JoinRoom " + name + " " + user) == JoinRoomCmd(name, user)
  {
    var line := "JoinRoom " + name + " " + user;
    assert Split(line, 3) == ["JoinRoom", name, user] by {
      assert line == "JoinRoom" + " " + name + " " + user;
      SplitThree("JoinRoom", name, user);
    }
    assert StartsWith(line, "JoinRoom") by {
      assert line[..8] == "JoinRoom";
    }
    assert !StartsWith(line, "GetRooms") && !StartsWith(line, "CreateRoom") by {
      Mismatch(line, "GetRooms", 0);
      Mismatch(line, "CreateRoom", 0);
    }
  }

  lemma SendAllParses(message: string)
    ensures ParseCommand("SendMessage All " + message) == SendAllCmd(message)
  {
    var line := "SendMessage All " + message;
    assert Split(line, 3) == ["SendMessage", "All", message] by {
      assert line == "SendMessage" + " " + "All" + " " + message;
      SplitThree("SendMessage", "All", message);
    }
    assert StartsWith(line, "SendMessage") by {
      assert line[..11] == "SendMessage";
    }
    assert !StartsWith(line, "GetRooms") && !StartsWith(line, "CreateRoom") by {
      Mismatch(line, "GetRooms", 0);
      Mismatch(line, "CreateRoom", 0);
    }
    assert !StartsWith(line, "JoinRoom") && !StartsWith(line, "LeaveRoom") by {
      Mismatch(line, "JoinRoom", 0);
      Mismatch(line, "LeaveRoom", 0);
    }
  }

  /** A keyword and a word without spaces, then any text: `split(" ", 3)` gives the three. */
  lemma SplitThree(keyword: string, word: string, rest: string)
    requires ' ' !in keyword && ' ' !in word
    ensures Split(keyword + " " + word + " " + rest, 3) == [keyword, word, rest]
  {
    assert keyword + " " + word + " " + rest == keyword + " " + (word + " " + rest);
    SplitAtFirstSpace(keyword, word + " " + rest, 3);
    SplitAtFirstSpace(word, rest, 2);
  }

  // ---------------------------------------------------------------------------
  // Creating a room end to end

  /** `createRoom` with a space-free room name and user name: the relay registers the
      room under the client's name, answers the creator with `RoomCreated`, and reading
      that answer releases the client's wait with the new room. */
  lemma CreateHandshake(s: State, i: nat, c: ClientState, name: string)
    requires Inv(s) && i < |s.handlers| && c.listening && c.createdRoom.None?
    requires ' ' !in name && ' ' !in c.userName
    requires BasePort + s.roomIdCounter <= IntMax
    ensures var c1 := RequestRoom(c, name);
            var line := c1.sent[|c.sent|];
            && ParseCommand(line) == CreateRoomCmd(name, c.userName)
            && var t := Step(s, i, line);
            && s.roomIdCounter in t.rooms
            && var room := t.rooms[s.roomIdCounter];
            && room.name == name && room.creator == c.userName
            && t.handlers[i].out == s.handlers[i].out + [RoomCreatedLine(room)]
            && Feed(c1, [RoomCreatedLine(room)], RoomCreated).createdRoom == Some(Info(room))
  {
    var u := c.userName;
    var c1 := RequestRoom(c, name);
    var line := c1.sent[|c.sent|];
    assert line == "CreateRoom " + name + " " + u;
    CreateParses(name, u);
    var id := s.roomIdCounter;
    var room := Room(id, name, u, BaseAddress + NatToString(id), BasePort + id, []);
    CreateAnswer(s, i, line, name, u, room);
    NewRoomPortable(id, room);
    ClientGetsOwnRoom(c1, room);
  }

  lemma CreateAnswer(s: State, i: nat, line: string, name: string, u: string, room: Room)
    requires Inv(s) && i < |s.handlers|
    requires ParseCommand(line) == CreateRoomCmd(name, u)
    requires room == Room(s.roomIdCounter, name, u, BaseAddress + NatToString(s.roomIdCounter),
                          BasePort + s.roomIdCounter, [])
    ensures var t := Step(s, i, line);
            && s.roomIdCounter in t.rooms && t.rooms[s.roomIdCounter] == room
            && t.handlers[i].out == s.handlers[i].out + [RoomCreatedLine(room)]
  {
    CreateRoomAllocates(s, i, line, name, u);
    CreateRoomDelivery(s, i, line, name, u);
  }

  lemma ClientGetsOwnRoom(c: ClientState, room: Room)
    requires Portable(room) && room.creator == c.userName && c.listening && c.createdRoom.None?
    ensures Feed(c, [RoomCreatedLine(room)], RoomCreated).createdRoom == Some(Info(room))
  {
    ClientReadsDescriptors(c, room);
    assert Feed(c, [RoomCreatedLine(room)], RoomCreated) == OnLine(c, RoomCreatedLine(room));
  }

  lemma NewRoomPortable(id: nat, room: Room)
    requires room.id == id && room.port == BasePort + id && room.address == BaseAddress + NatToString(id)
    requires ' ' !in room.name && ' ' !in room.creator && BasePort + id <= IntMax
    ensures Portable(room)
  {
    NatToStringHasNoSpace(id);
    assert ' ' !in BaseAddress;
  }

  /** A room name with a space shifts the fields: the relay takes its second word and
      the user name together as the creator, and the client's `split(" ", 6)` of the
      answer leaves the port glued to the address, so `parseInt` fails, the listener
      dies and `createRoom` waits forever. */
  lemma SpacedRoomNameBreaksCreate(s: State, i: nat, c: ClientState, a: string, b: string)
    requires Inv(s) && i < |s.handlers| && c.listening && c.createdRoom.None?
    requires ' ' !in a && ' ' !in b && ' ' !in c.userName
    ensures var c1 := RequestRoom(c, a + " " + b);
            var line := c1.sent[|c.sent|];
            && ParseCommand(line) == CreateRoomCmd(a, b + " " + c.userName)
            && var t := Step(s, i, line);
            && s.roomIdCounter in t.rooms
            && var room := t.rooms[s.roomIdCounter];
            && room.creator != c.userName
            && ParseRoom(RoomCreatedLine(room)) == None
            && var r := Feed(c1, [RoomCreatedLine(room)], RoomCreated);
            && !r.listening && r.createdRoom.None?
  {
    var u := c.userName;
    var c1 := RequestRoom(c, a + " " + b);
    var line := c1.sent[|c.sent|];
    assert line == "CreateRoom " + a + " " + (b + " " + u);
    SpacedNameAtRelay(s, i, line, a, b, u);
    var room := Step(s, i, line).rooms[s.roomIdCounter];
    assert |room.creator| > |u|;
    RoomCreatedAborts(c1, room);
    assert Feed(c1, [RoomCreatedLine(room)], RoomCreated) == OnLine(c1, RoomCreatedLine(room));
  }

  /** The relay's side of a spaced room name: the room it registers has the shifted
      creator and an answer the client cannot parse. */
  lemma SpacedNameAtRelay(s: State, i: nat, line: string, a: string, b: string, u: string)
    requires Inv(s) && i < |s.handlers|
    requires ' ' !in a && ' ' !in b && ' ' !in u
    requires line == "CreateRoom " + a + " " + (b + " " + u)
    ensures ParseCommand(line) == CreateRoomCmd(a, b + " " + u)
    ensures s.roomIdCounter in Step(s, i, line).rooms
    ensures Step(s, i, line).rooms[s.roomIdCounter].creator == b + " " + u
    ensures ParseRoom(RoomCreatedLine(Step(s, i, line).rooms[s.roomIdCounter])) == None
  {
    CreateParses(a, b + " " + u);
    var t := Step(s, i, line);
    assert t == CreateRoom(s, i, a, b + " " + u);
    var room := t.rooms[s.roomIdCounter];
    CreateRoomKeepsInv(s, i, a, b + " " + u);
    assert RoomOk(s.roomIdCounter, room);
    SpacedCreatorUnparsable(room, b, u);
  }

  lemma SpacedCreatorUnparsable(room: Room, b: string, u: string)
    requires room.creator == b + " " + u && ' ' !in b && ' ' !in u
    requires ' ' !in room.name && ' ' !in room.address
    ensures ParseRoom(RoomCreatedLine(room)) == None
  {
    var tail := room.address + " " + NatToString(room.port);
    var ps := ["RoomCreated", NatToString(room.id), room.name, b, u, tail];
    NatToStringHasNoSpace(room.id);
    ShiftedDescriptor(room, b, u, ps);
    JoinThenSplit(ps, 6);
    assert Split(RoomCreatedLine(room), 6)[5] == tail;
    assert tail[|room.address|] == ' ';
    ParseIntRejectsSpace(tail, |room.address|);
  }

  lemma ShiftedDescriptor(room: Room, b: string, u: string, ps: seq<string>)
    requires room.creator == b + " " + u
    requires ps == ["RoomCreated", NatToString(room.id), room.name, b, u,
                    room.address + " " + NatToString(room.port)]
    ensures RoomCreatedLine(room) == JoinSpaces(ps)
  {
    JoinSix(ps);
    assert ps[0] == "RoomCreated" && ps[1] == NatToString(room.id) && ps[2] == room.name;
    assert ps[3] == b && ps[4] == u && ps[5] == room.address + " " + NatToString(room.port);
    assert "RoomCreated" + " " == "RoomCreated ";
  }

  lemma RoomCreatedAborts(c: ClientState, room: Room)
    requires ParseRoom(RoomCreatedLine(room)) == None
    ensures OnLine(c, RoomCreatedLine(room)) == c.(listening := false)
  {
    DescriptorClasses(room);
  }

  // ---------------------------------------------------------------------------
  // Chat and notices

  /** A client shows a chat line from the relay minus `Message `, a private message
      minus `PrivateMessage `, and a notice whole. */
  lemma ClientShowsChat(c: ClientState, from: Session, text: string)
    ensures OnLine(c, ChatLine(from, text))
            == c.(transcript := c.transcript + ["[" + from.peer + "] - " + NameText(from.userName) + ": " + text])
  {
    var m := ChatLine(from, text);
    assert m[..7] == "Message" && m[8..] == "[" + from.peer + "] - " + NameText(from.userName) + ": " + text;
    Mismatch(m, "NewRoom", 0);
    Mismatch(m, "RoomCreated", 0);
    Mismatch(m, "Room", 0);
    assert Classify(m) == MessageEv;
  }

  lemma ClientShowsPrivateFrom(c: ClientState, from: Session, text: string)
    ensures OnLine(c, PrivateFromLine(from, text))
            == c.(transcript := c.transcript + ["From [" + from.peer + "] - " + NameText(from.userName) + ": " + text])
  {
    var p := PrivateFromLine(from, text);
    assert p[..14] == "PrivateMessage" && p[15..] == "From [" + from.peer + "] - " + NameText(from.userName) + ": " + text;
    PrivatePrefixOnly(p);
    assert Classify(p) == PrivateMessageEv;
  }

  lemma ClientShowsPrivateTo(c: ClientState, from: Session, recipient: string, text: string)
    ensures OnLine(c, PrivateToLine(from, recipient, text))
            == c.(transcript := c.transcript + ["To [" + from.peer + "] - " + recipient + ": " + text])
  {
    var q := PrivateToLine(from, recipient, text);
    assert q[..14] == "PrivateMessage" && q[15..] == "To [" + from.peer + "] - " + recipient + ": " + text;
    PrivatePrefixOnly(q);
    assert Classify(q) == PrivateMessageEv;
  }

  lemma ClientShowsNotices(c: ClientState, user: string)
    ensures OnLine(c, JoinNotice(user)) == c.(transcript := c.transcript + [JoinNotice(user)])
    ensures OnLine(c, LeaveNotice(user)) == c.(transcript := c.transcript + [LeaveNotice(user)])
  {
    var j := JoinNotice(user);
    assert j[..6] == "System";
    SystemPrefixOnly(j);
    assert Classify(j) == SystemEv;
    var l := LeaveNotice(user);
    assert l[..6] == "System";
    SystemPrefixOnly(l);
    assert Classify(l) == SystemEv;
  }

  lemma PrivatePrefixOnly(p: string)
    requires |p| >= 14 && p[0] == 'P'
    ensures !StartsWith(p, "NewRoom") && !StartsWith(p, "RoomCreated") && !StartsWith(p, "Room")
    ensures !StartsWith(p, "Message")
  {
    Mismatch(p, "NewRoom", 0);
    Mismatch(p, "RoomCreated", 0);
    Mismatch(p, "Room", 0);
    Mismatch(p, "Message", 0);
  }

  lemma SystemPrefixOnly(p: string)
    requires |p| >= 6 && p[0] == 'S'
    ensures !StartsWith(p, "NewRoom") && !StartsWith(p, "RoomCreated") && !StartsWith(p, "Room")
    ensures !StartsWith(p, "Message") && !StartsWith(p, "PrivateMessage")
  {
    Mismatch(p, "NewRoom", 0);
    Mismatch(p, "RoomCreated", 0);
    Mismatch(p, "Room", 0);
    Mismatch(p, "Message", 0);
    Mismatch(p, "PrivateMessage", 0);
  }

  /** The member-list refresh changes nothing the client keeps. */
  lemma {:induction false} ClientIgnoresUserList(c: ClientState, users: seq<string>, w: Wait)
    ensures Feed(c, UserListLines(users), w) == c
  {
    var lines := UserListLines(users);
    forall j | 0 <= j < |lines| ensures OnLine(c, lines[j]) == c {
      UserListLineInert(c, users, j);
    }
    FeedInert(c, lines, w);
  }

  lemma UserListLineInert(c: ClientState, users: seq<string>, j: nat)
    requires j < |UserListLines(users)|
    ensures OnLine(c, UserListLines(users)[j]) == c
  {
    var lines := UserListLines(users);
    var line := lines[j];
    ClassifyFirstMatch(line);
    if j == 0 {
      assert line == "ClearUserList";
      assert StartsWith(line, "ClearUserList");
    } else if j == |lines| - 1 {
      assert line == "EndOfUserList";
      Mismatch(line, "User", 0);
      Mismatch(line, "ClearUserList", 0);
    } else {
      var name := if j == 1 then "All" else users[j - 2];
      assert line == "User " + name;
      assert line[..4] == "User";
      Mismatch(line, "ClearUserList", 0);
    }
    UserListLinesInert(c, line);
  }

  /** Lines that each leave the client alone leave it alone together. */
  lemma {:induction false} FeedInert(c: ClientState, lines: seq<string>, w: Wait)
    requires forall j :: 0 <= j < |lines| ==> OnLine(c, lines[j]) == c
    ensures Feed(c, lines, w) == c
    decreases |lines|
  {
    if lines != [] && c.listening && !Released(c, w) {
      assert OnLine(c, lines[0]) == c;
      forall j | 0 <= j < |lines[1..]| ensures OnLine(c, lines[1..][j]) == c {
        assert lines[1..][j] == lines[j + 1];
      }
      FeedInert(c, lines[1..], w);
    }
  }

  /** The relay's short replies that the client does not act on. */
  lemma ClientIgnoresJoined(c: ClientState, k: nat, name: string)
    ensures OnLine(c, "JoinedRoom " + NatToString(k) + " " + name) == c
  {
    var j := "JoinedRoom " + NatToString(k) + " " + name;
    assert j[0] == 'J';
    ClassifyFirstMatch(j);
    StartsWithHead(j, "NewRoom");
    StartsWithHead(j, "RoomCreated");
    StartsWithHead(j, "Room");
    StartsWithHead(j, "Message");
    StartsWithHead(j, "PrivateMessage");
    StartsWithHead(j, "System");
    StartsWithHead(j, "ClearUserList");
    StartsWithHead(j, "User");
    assert Classify(j) == Ignored;
    UserListLinesInert(c, j);
  }

  lemma ClientIgnoresUnknownCommand(c: ClientState)
    ensures OnLine(c, "UnknownCommand") == c
  {
    var u := "UnknownCommand";
    Mismatch(u, "User", 1);
    OtherInitial(u);
    assert Classify(u) == Ignored;
    UserListLinesInert(c, u);
  }

  lemma ClientIgnoresSelfMessageError(c: ClientState)
    ensures OnLine(c, SelfMessageError) == c
  {
    var e := SelfMessageError;
    assert e[0] == 'E';
    OtherInitial(e);
    Mismatch(e, "User", 0);
    assert Classify(e) == Ignored;
    UserListLinesInert(c, e);
  }

  lemma ClientIgnoresUserNotFound(c: ClientState, recipient: string)
    ensures OnLine(c, "UserNotFound " + recipient) == c
  {
    var n := "UserNotFound " + recipient;
    assert n[..4] == "User";
    OtherInitial(n);
    assert Classify(n) == UserEv;
    UserListLinesInert(c, n);
  }

  /** A line whose first character is none of `N`, `R`, `M`, `P`, `S` and `C` fails the
      first eight tests of the listener. */
  lemma OtherInitial(line: string)
    requires line != [] && line[0] !in {'N', 'R', 'M', 'P', 'S', 'C'}
    ensures !StartsWith(line, "NewRoom") && !StartsWith(line, "RoomCreated")
    ensures !StartsWith(line, "Room") && !StartsWith(line, "Message")
    ensures !StartsWith(line, "PrivateMessage") && !StartsWith(line, "System")
    ensures !StartsWith(line, "ClearUserList")
  {
    Mismatch(line, "NewRoom", 0);
    Mismatch(line, "RoomCreated", 0);
    Mismatch(line, "Room", 0);
    Mismatch(line, "Message", 0);
    Mismatch(line, "PrivateMessage", 0);
    Mismatch(line, "System", 0);
    Mismatch(line, "ClearUserList", 0);
  }
}
