/** Reference model of the chat client (MultiCastClient.java) as values: how the
    listener classifies and parses each line from the relay, what each line does to the
    client's state, and the state parts of the user's commands. The Swing table and the
    chat area are reduced to the `rooms` cache and a `transcript` of displayed strings;
    `sent` is every line written to the relay. */
module ClientSpec {
  import opened Wrappers
  import opened JavaString

  /** `MultiCastClient.Room`; the multicast address is kept as the text it came as. */
  datatype RoomInfo = RoomInfo(id: int, name: string, creator: string, address: string, port: int)

  /** The fields of the client the listener and the commands read and write. `listening`
      turns false when the listener thread has ended with an exception. */
  datatype ClientState = ClientState(
    userName: string,
    rooms: seq<RoomInfo>,
    currentRoom: Option<RoomInfo>,
    createdRoom: Option<RoomInfo>,
    roomListLoaded: bool,
    transcript: seq<string>,
    sent: seq<string>,
    listening: bool)

  // ---------------------------------------------------------------------------
  // The listener's reading of one line

  /** The branch of the listener's `if` chain a line takes. */
  datatype Inbound =
    | NewRoomEv
    | RoomCreatedEv
    | RoomEv
    | MessageEv
    | PrivateMessageEv
    | SystemEv
    | EndOfRoomListEv
    | ClearUserListEv
    | UserEv
    | EndOfUserListEv
    | Ignored

  /** The first test of the chain that the line passes; two of them compare the whole
      line, the others a prefix. */
  function Classify(line: string): Inbound {
    if StartsWith(line, "NewRoom") then NewRoomEv
    else if StartsWith(line, "RoomCreated") then RoomCreatedEv
    else if StartsWith(line, "Room") then RoomEv
    else if StartsWith(line, "Message") then MessageEv
    else if StartsWith(line, "PrivateMessage") then PrivateMessageEv
    else if StartsWith(line, "System") then SystemEv
    else if line == "EndOfRoomList" then EndOfRoomListEv
    else if StartsWith(line, "ClearUserList") then ClearUserListEv
    else if StartsWith(line, "User") then UserEv
    else if line == "EndOfUserList" then EndOfUserListEv
    else Ignored
  }

  /** A room descriptor: `split(" ", 6)` gives keyword, id, name, creator, address and
      port, the last of which keeps any further spaces. `None` stands for the exception
      the listener hits: fewer than six pieces, or an id or port `parseInt` rejects. */
  function ParseRoom(line: string): (r: Option<RoomInfo>)
    ensures |Split(line, 6)| < 6 ==> r.None?
    ensures r.Some? ==>
              var t := Split(line, 6);
              && |t| == 6
              && ParseInt(t[1]) == Some(r.value.id) && ParseInt(t[5]) == Some(r.value.port)
              && r.value.name == t[2] && r.value.creator == t[3] && r.value.address == t[4]
  {
    var t := Split(line, 6);
    if |t| < 6 then None
    else
      match (ParseInt(t[1]), ParseInt(t[5]))
      case (Some(id), Some(port)) => Some(RoomInfo(id, t[2], t[3], t[4], port))
      case _ => None
  }

  /** The listener thread ends with a runtime exception on this line. */
  predicate Aborts(line: string) {
    match Classify(line)
    case NewRoomEv => ParseRoom(line).None?
    case RoomCreatedEv => ParseRoom(line).None?
    case RoomEv => ParseRoom(line).None?
    case MessageEv => |line| < 8
    case PrivateMessageEv => |line| < 15
    case UserEv => |line| < 5
    case _ => false
  }

  /** One iteration of the listener's loop. A `RoomCreated` line for a room of the
      local user also hands the room to the waiting `createRoom`. */
  function OnLine(c: ClientState, line: string): ClientState {
    if Aborts(line) then c.(listening := false)
    else
      match Classify(line)
      case NewRoomEv => c.(rooms := c.rooms + [ParseRoom(line).value])
      case RoomCreatedEv =>
        var room := ParseRoom(line).value;
        c.(rooms := c.rooms + [room],
           createdRoom := if room.creator == c.userName then Some(room) else c.createdRoom)
      case RoomEv => c.(rooms := c.rooms + [ParseRoom(line).value])
      case MessageEv => c.(transcript := c.transcript + [line[8..]])
      case PrivateMessageEv => c.(transcript := c.transcript + [line[15..]])
      case SystemEv => c.(transcript := c.transcript + [line])
      case EndOfRoomListEv => c.(roomListLoaded := true)
      case _ => c
  }

  /** What a thread blocked on the listener waits for. */
  datatype Wait = Forever | RoomListLoaded | RoomCreated

  predicate Released(c: ClientState, w: Wait) {
    match w
    case Forever => false
    case RoomListLoaded => c.roomListLoaded
    case RoomCreated => c.createdRoom.Some?
  }

  /** The listener consuming `lines` until they run out, it dies, or the thread waiting
      for `w` is released. */
  function Feed(c: ClientState, lines: seq<string>, w: Wait): ClientState
    decreases |lines|
  {
    if lines == [] || !c.listening || Released(c, w) then c
    else Feed(OnLine(c, lines[0]), lines[1..], w)
  }

  // ---------------------------------------------------------------------------
  // The user's commands

  /** The state before `loadRoomList` blocks: the cache is emptied, the flag cleared
      and `GetRooms` sent. */
  function RequestRoomList(c: ClientState): ClientState {
    c.(rooms := [], roomListLoaded := false, sent := c.sent + ["GetRooms"])
  }

  /** `createRoom` up to its wait. */
  function RequestRoom(c: ClientState, roomName: string): ClientState {
    c.(sent := c.sent + ["CreateRoom " + roomName + " " + c.userName])
  }

  /** `joinRoom`. */
  function JoinRoom(c: ClientState, room: RoomInfo): ClientState {
    c.(currentRoom := Some(room), sent := c.sent + ["JoinRoom " + room.name + " " + c.userName])
  }

  /** `createRoom` after its wait returned: the created room is joined and the hand-over
      slot emptied. */
  function FinishCreateRoom(c: ClientState): ClientState
    requires c.createdRoom.Some?
  {
    JoinRoom(c, c.createdRoom.value).(createdRoom := None)
  }

  /** `sendMessage`: the trimmed text goes to the whole room unless it is empty. */
  function SendMessage(c: ClientState, text: string): ClientState {
    var message := Trim(text);
    if message == [] then c else c.(sent := c.sent + ["SendMessage All " + message])
  }

  /** `leaveRoom`. */
  function LeaveRoom(c: ClientState): ClientState {
    if c.currentRoom.None? then c else c.(currentRoom := None, sent := c.sent + ["LeaveRoom"])
  }
}
