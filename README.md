# MultiCast chat relay and client, modelled in Dafny

MultiCast is a small chat system. A central relay (`MultiCastServer`) keeps a
registry of chat rooms. Each room gets a numeric id and a multicast address and
port derived from that id. The relay serves one line-oriented text session per
connected client. A Swing client (`MultiCastClient`) logs in under a name, loads
the room list, creates or joins a room, and then chats. Chat text is relayed
through the relay to the members of the sender's room.

The model has four layers.

* `RelaySpec` is the relay as values. A `State` holds the room registry (a map
  from id to `Room`), the id and address counters, and one `Session` per client
  thread with its user name, current room and everything written to it (`out`).
  `ParseCommand` reads a request line the way the relay's `if` chain does, and
  `Step` applies it. `StepAborts` is true when the request ends the thread with an
  exception. `Disconnect` is the thread's `finally` block, and `Serve` runs a
  whole session. `Inv` is the registry invariant: ids are exactly `1 ..
  roomIdCounter-1`, both counters agree, and every room's members are
  duplicate-free. Every session's room is registered and named.
* `Relay.Server` is the relay as an object. Its fields are the registry, the
  counters and the client threads. Each method is proved to produce exactly the
  state the matching `RelaySpec` function gives. The methods that make up a client
  thread's life, `Connect`, `Step`, `Disconnect` and `Run`, are also proved to keep
  `Inv`. The methods `Step` calls have it through the `RelaySpec` lemmas
  `CreateRoomKeepsInv`, `JoinRoomKeepsInv`, `LeaveRoomKeepsInv` and `StepKeepsInv`.
* `ClientSpec` and `Client.ChatClient` do the same for the client.
  * `OnLine` is one pass of the listener thread's `if` chain.
  * `Feed` is the listener reading lines until they run out, it dies, or the
    thread blocked in `loadRoomList` or `createRoom` is released.
  * The command functions (`RequestRoomList`, `RequestRoom`, `JoinRoom`,
    `SendMessage`, `LeaveRoom`) give the state changes of the user's actions.
* `RelayProperties`, `ClientProperties` and `Wire` state what each side promises:
  * room allocation, room-list completeness, join/leave effects, message routing
    and the error replies;
  * the listener's dispatch and its exceptions;
  * the round trips between the relay's output and the client's parser, and back.

`JavaString` models the parts of `java.lang.String` and `Integer` the two
programs use:
* `split(" ", limit)`, including empty pieces and the rest kept in the last
  piece;
* `trim`, `substring(k)` and `startsWith`;
* `Integer.parseInt`, with its `int` range;
* decimal printing of ids and ports.

Where the code differs from what the protocol appears to intend, the model follows
the code:
* `createRoom` on the relay does not record the creator's name on the session
  and does not put the creator into the room. The client joins afterwards with a
  separate `JoinRoom`.
* A `CreateRoom`, `JoinRoom` or `SendMessage` request with fewer than three
  fields is ignored without any reply (`Dropped`). `split` yields one piece and
  the branch does nothing.
* `JoinRoom` stores the user name on the session before looking the room up, so
  the name sticks even when the answer is `RoomNotFound`.
* `RoomNotFound` starts with `Room`, so the client treats it as a room descriptor
  and its listener thread dies on `tokens[1]`.
* A private message from a client that is not in a room is delivered, but then
  the relay's log line dereferences the missing room and the thread ends. It
  leaves through `finally` like any other ending.
* A room name containing a space shifts the fields of `CreateRoom`. The relay
  records the second word plus the user name as the creator. The client's
  `RoomCreated` parser then fails and its `createRoom` waits forever
  (`Wire.SpacedRoomNameBreaksCreate`).

## Model

| member | source | states |
|---|---|---|
| JavaString.Split | MultiCastServer.java:56 | `split(" ", limit)` gives between one and `limit` pieces; no piece but the last contains a space, and the last is space-free too when fewer than `limit` pieces came out |
| JavaString.SplitThenJoin | MultiCastServer.java:56 | splitting loses nothing: the pieces joined with single spaces are the original line |
| JavaString.JoinThenSplit | MultiCastClient.java:86 | fields with no space inside, the last one excepted when there are exactly `limit` of them, come back unchanged from joining and splitting |
| JavaString.SplitWithoutSpace | MultiCastClient.java:86 | a line with no space splits into itself alone |
| JavaString.Substring | MultiCastClient.java:132 | `substring(k)` succeeds exactly when `k` is at most the length, and the result is the suffix after the first `k` characters |
| JavaString.TrimStart | MultiCastClient.java:286 | strips exactly the leading characters at or below the space character and keeps a suffix of the input |
| JavaString.TrimEnd | MultiCastClient.java:286 | strips exactly the trailing characters at or below the space character and keeps a prefix of the input |
| JavaString.Trim | MultiCastClient.java:286 | the result is the infix of the input left after removing characters at or below space from both ends: it neither starts nor ends with such a character, and is empty exactly when every character of the input is one |
| JavaString.NatToString | MultiCastServer.java:102 | the decimal text of a number is non-empty and all digits |
| JavaString.ParseInt | MultiCastClient.java:87 | `parseInt` yields only values in 32-bit `int` range and rejects the empty string; a run of digits, optionally behind `-` or `+`, gives its decimal value, or an error when that value is out of range |
| JavaString.ParseIntRejectsNonDigit | MultiCastClient.java:87 | any character other than a digit, except a sign in front, makes `parseInt` fail |
| JavaString.ParseIntRejectsSign | MultiCastClient.java:87 | a lone sign is not a number |
| JavaString.ParseIntRejectsSpace | MultiCastClient.java:91 | a field containing a space is not a number |
| JavaString.ParseIntOfNatToString | MultiCastClient.java:87 | printing a number within `int` range and parsing it back gives the number |
| JavaString.NatToStringHasNoSpace | MultiCastServer.java:102-103 | printed ids and ports never contain a space, so they stay single fields |
| RelaySpec.AddUser | MultiCastServer.java:253 | after `addUser` the members are the old members plus the new user, still without duplicates |
| RelaySpec.RemoveUser | MultiCastServer.java:254 | after `removeUser` the members are the old members except that user, still without duplicates |
| RelaySpec.RemoveAbsent | MultiCastServer.java:254 | removing a user who is not a member changes nothing |
| RelaySpec.AddThenRemove | MultiCastServer.java:253-254 | adding a new member and removing them again restores the member list |
| RelaySpec.DescriptorLinesAgree | MultiCastServer.java:100-117 | the `Room`, `RoomCreated` and `NewRoom` lines are the same five fields (id, name, creator, address, port) joined by spaces behind their keyword |
| RelaySpec.UserLines | MultiCastServer.java:206-208 | one `User <name>` line per member, in member order |
| RelaySpec.FindRoom | MultiCastServer.java:129-130 | the room found is the first registered one with the requested name, and none is found only when no registered room has that name |
| RelaySpec.FindUser | MultiCastServer.java:169-170 | the session found is the first one logged in under the recipient's name, and none is found only when no session has that name |
| RelaySpec.ParseCommand | MultiCastServer.java:52-84 | reference definition of the relay's reading of a request: the first keyword prefix that matches decides, and the three-field commands need three `split(" ", 3)` fields or are dropped (see `RelayProperties.UnknownCommandReply`, `RelayProperties.ShortCommandsDropped`, `Wire.CommandsParse`) |
| RelaySpec.Step | MultiCastServer.java:52-84 | reference definition of one pass of the read loop (see `RelaySpec.StepKeepsInv`, the `RelayProperties` lemmas) |
| RelaySpec.StepAborts | MultiCastServer.java:71-81 | a request ends the thread with an exception only as a private message that aborts (see `RelayProperties.PrivateDelivered`) |
| RelaySpec.PrivateAborts | MultiCastServer.java:169-173 | reference definition of the null dereference in the log line: not to oneself, a recipient found, and no current room |
| RelaySpec.Connect | MultiCastServer.java:24-27 | reference definition of accepting a client (see `RelaySpec.ConnectKeepsInv`) |
| RelaySpec.CreateRoom | MultiCastServer.java:108-126 | reference definition of `createRoom` (see `RelayProperties.CreateRoomAllocates`, `RelayProperties.CreateRoomDelivery`) |
| RelaySpec.JoinRoom | MultiCastServer.java:128-141 | reference definition of `joinRoom` (see `RelayProperties.JoinRoomEffects`, `RelayProperties.JoinRoomDelivery`) |
| RelaySpec.Depart | MultiCastServer.java:145-148 | reference definition of the part of `leaveRoom` before the room is cleared (see `RelaySpec.DepartKeepsInv`) |
| RelaySpec.LeaveRoom | MultiCastServer.java:143-151 | reference definition of `leaveRoom` (see `RelayProperties.LeaveRoomEffects`, `RelayProperties.LeaveTwice`) |
| RelaySpec.SendAll | MultiCastServer.java:153-162 | reference definition of `broadcastMessageToRoom` (see `RelayProperties.SendAllDelivery`) |
| RelaySpec.SendPrivate | MultiCastServer.java:164-178 | reference definition of `sendPrivateMessage` (see `RelayProperties.PrivateToSelf`, `PrivateDelivered`, `PrivateNotFound`) |
| RelaySpec.Disconnect | MultiCastServer.java:89-91 | reference definition of the `finally` block (see `RelayProperties.DisconnectEffects`) |
| RelaySpec.Serve | MultiCastServer.java:46-98 | reference definition of a whole session: requests until the input ends or one aborts, then the `finally` block (see `Relay.Server.Run`) |
| RelaySpec.InitialInv | MultiCastServer.java:10-15 | the empty registry with both counters at 1 satisfies the registry invariant |
| RelaySpec.ConnectKeepsInv | MultiCastServer.java:24-27 | accepting a client keeps the invariant |
| RelaySpec.DepartKeepsInv | MultiCastServer.java:143-148 | removing a member from a room and notifying the room keeps the invariant |
| RelaySpec.CreateRoomKeepsInv | MultiCastServer.java:108-126 | creating a room keeps the invariant and the set of threads |
| RelaySpec.JoinRoomKeepsInv | MultiCastServer.java:62-67 | storing the user name and joining keeps the invariant and the set of threads |
| RelaySpec.LeaveRoomKeepsInv | MultiCastServer.java:143-151 | leaving keeps the invariant and the set of threads |
| RelaySpec.SendAllKeepsInv | MultiCastServer.java:153-162 | a room message keeps the invariant |
| RelaySpec.SendPrivateKeepsInv | MultiCastServer.java:164-178 | a private message, or its error reply, keeps the invariant |
| RelaySpec.StepKeepsInv | MultiCastServer.java:52-84 | every request line, whatever it holds, keeps the invariant and the set of threads |
| RelaySpec.DisconnectKeepsInv | MultiCastServer.java:89-91 | a thread's `finally` keeps the invariant and leaves one thread fewer; `RelayProperties.DisconnectEffects` states that the removed one is exactly the departing thread |
| Relay.Server.constructor | MultiCastServer.java:10-15 | a new relay has no rooms, both counters at 1 and no clients |
| Relay.Server.Connect | MultiCastServer.java:24-27 | an accepted client adds one thread at the end, with no name, no room and no output |
| Relay.Server.Println | MultiCastServer.java:83 | one `println` appends the line to that client's output and changes nothing else |
| Relay.Server.SendRoomList | MultiCastServer.java:100-106 | the requesting client alone receives one `Room` line per registered room, by ascending id, then `EndOfRoomList` |
| Relay.Server.SendUserList | MultiCastServer.java:202-211 | one client receives `ClearUserList`, `User All`, a line per member of its room and `EndOfUserList`, or nothing when it is in no room |
| Relay.Server.BroadcastSystemMessageToRoom | MultiCastServer.java:180-189 | exactly the clients in the given room receive the notice; with no room nobody does |
| Relay.Server.UpdateUserListInRoom | MultiCastServer.java:191-200 | every client in the room receives that room's user list |
| Relay.Server.BroadcastNewRoom | MultiCastServer.java:213-223 | every client except the creator receives the `NewRoom` line |
| Relay.Server.CreateRoom | MultiCastServer.java:108-126 | the state after `createRoom` is the one `RelaySpec.CreateRoom` gives (see `RelayProperties.CreateRoomAllocates`) |
| Relay.Server.JoinRoom | MultiCastServer.java:128-141 | the search over the registry and the join equal `RelaySpec.JoinRoom` |
| Relay.Server.Depart | MultiCastServer.java:143-148 | removal from the room plus the leave notice and user list equal `RelaySpec.Depart` |
| Relay.Server.LeaveRoom | MultiCastServer.java:143-151 | equals `RelaySpec.LeaveRoom`: nothing happens for a client in no room |
| Relay.Server.BroadcastMessageToRoom | MultiCastServer.java:153-162 | equals `RelaySpec.SendAll` (see `RelayProperties.SendAllDelivery`) |
| Relay.Server.SendPrivateMessage | MultiCastServer.java:164-178 | equals `RelaySpec.SendPrivate`, and reports the abort of the logging line exactly when the sender has no room and the recipient was found |
| Relay.Server.Step | MultiCastServer.java:52-84 | one request line equals `RelaySpec.Step`, aborts exactly when `StepAborts` says so, and keeps the invariant |
| Relay.Server.StepOther | MultiCastServer.java:69-84 | the `LeaveRoom`, `SendMessage` and unknown-command branches equal `RelaySpec.Step` |
| Relay.Server.Disconnect | MultiCastServer.java:89-91 | `finally` leaves the room as `leaveRoom` would, removes the thread and keeps the invariant |
| Relay.Server.Run | MultiCastServer.java:46-98 | a whole session, read until the input ends or a request aborts and then disconnected, equals `RelaySpec.Serve` |
| Relay.SetNameKeepsInv | MultiCastServer.java:66 | storing a user name on a session keeps the invariant |
| RelayProperties.CreateRoomAllocates | MultiCastServer.java:110-114 | the new id is the id counter, never in use and above every id in use; port is `5000 + id`, address `230.0.0.<id>`, the room starts with no members, and both counters advance by one |
| RelayProperties.CreateRoomDelivery | MultiCastServer.java:108-121 | the creator alone receives `RoomCreated`, every other client receives `NewRoom`, and no session's name or room changes |
| RelayProperties.RoomListComplete | MultiCastServer.java:100-106 | the room list holds exactly one line per registered room, in id order, and ends with `EndOfRoomList`; nothing else changes |
| RelayProperties.JoinRoomEffects | MultiCastServer.java:128-141 | the name is stored in both cases. When a room has the name, the client enters the one with the lowest id, as the search over ascending ids finds it, and becomes a member. When none does, it alone receives `RoomNotFound` and nothing else changes |
| RelayProperties.JoinRoomDelivery | MultiCastServer.java:131-136 | the joiner receives `JoinedRoom <id> <name>`; the joiner and the room's earlier members then receive the join notice and the new user list; other clients receive nothing |
| RelayProperties.LeaveWithoutRoom | MultiCastServer.java:143-144 | `LeaveRoom` from a client in no room changes nothing |
| RelayProperties.LeaveRoomEffects | MultiCastServer.java:143-151 | the user stops being a member and the client has no room, while every other client keeps its room. Every client that was in the room, the leaver included because the broadcast runs before `currentRoom` is cleared, receives the leave notice and the new user list; nobody else receives anything |
| RelayProperties.LeaveTwice | MultiCastServer.java:143-151 | leaving twice is the same as leaving once |
| RelayProperties.JoinThenLeave | MultiCastServer.java:128-151 | joining a room one was not in and then leaving restores the registry exactly |
| RelayProperties.SendAllDelivery | MultiCastServer.java:153-162 | a room message reaches every client in the sender's room, the sender included, and nobody else; from a client in no room it does nothing |
| RelayProperties.PrivateToSelf | MultiCastServer.java:165-168 | a private message to one's own name only earns the sender the error line |
| RelayProperties.PrivateDelivered | MultiCastServer.java:169-175 | the first session with the recipient's name receives `From …`, the sender receives `To …`, nobody else is touched; the thread aborts exactly when the sender is in no room |
| RelayProperties.PrivateNotFound | MultiCastServer.java:169-177 | with no session of that name the sender alone receives `UserNotFound <name>` |
| RelayProperties.DroppedChangesNothing | MultiCastServer.java:55-81 | a request with too few fields leaves the relay unchanged and does not abort |
| RelayProperties.UnknownCommandReply | MultiCastServer.java:82-84 | a line is an unknown command exactly when it starts with none of the five keywords, and then its sender alone receives `UnknownCommand` |
| RelayProperties.ShortCommandsDropped | MultiCastServer.java:55-81 | a `CreateRoom`, `JoinRoom` or `SendMessage` line with fewer than three fields is dropped |
| RelayProperties.DisconnectEffects | MultiCastServer.java:89-91 | a departing client is removed from the thread list; if it was in a room it stops being a member and the room's other clients receive the leave notice and user list |
| RelayProperties.IdsNeverReused | MultiCastServer.java:110-113 | no request removes a room or changes its id, name, creator, address or port; only `CreateRoom` advances the id counter, and a new room's id is at least the old counter |
| RelayProperties.JoinKeepsRooms | MultiCastServer.java:128-141 | a join changes only member lists |
| RelayProperties.LeaveKeepsRooms | MultiCastServer.java:143-151 | a leave changes only member lists |
| RelayProperties.OutputOnlyCommands | MultiCastServer.java:52-84 | listing rooms, messages, dropped and unknown requests leave the registry and the id counter alone |
| ClientSpec.ParseRoom | MultiCastClient.java:86-92 | a descriptor parses only when it splits into six fields whose id and port `parseInt` accepts, and the record holds exactly those fields |
| ClientSpec.Classify | MultiCastClient.java:85-152 | reference definition of the listener's `if` chain (see `ClientProperties.ClassifyFirstMatch`) |
| ClientSpec.Aborts | MultiCastClient.java:84-152 | reference definition of the lines on which the listener thread dies (see `ClientProperties.AbortsExactly`) |
| ClientSpec.OnLine | MultiCastClient.java:84-152 | reference definition of one listener iteration (see `ClientProperties.OneEntryPerDescriptor`, `ShownText`, `CreatedRoomOnlyForOwnRoom`, `LoadedOnlyByEndOfRoomList`, `UserListLinesInert`) |
| ClientSpec.Feed | MultiCastClient.java:80-159 | reference definition of the listener reading lines while another thread waits (see `ClientProperties.FeedOnlyAppends`, `FeedAppend`, `FeedStops`) |
| ClientSpec.RequestRoomList | MultiCastClient.java:206-211 | reference definition of `loadRoomList` before its wait (see `ClientProperties.RequestRoomListResets`) |
| ClientSpec.RequestRoom | MultiCastClient.java:225 | reference definition of `createRoom`'s request (see `ClientProperties.JoinAndCreateCommands`) |
| ClientSpec.FinishCreateRoom | MultiCastClient.java:237-240 | reference definition of `createRoom` after its wait (see `ClientProperties.JoinAndCreateCommands`) |
| ClientSpec.JoinRoom | MultiCastClient.java:243-246 | reference definition of `joinRoom` (see `ClientProperties.JoinAndCreateCommands`) |
| ClientSpec.SendMessage | MultiCastClient.java:285-291 | reference definition of `sendMessage` (see `ClientProperties.SendMessageSends`) |
| ClientSpec.LeaveRoom | MultiCastClient.java:293-297 | reference definition of `leaveRoom`'s state change (see `ClientProperties.LeaveRoomOnce`) |
| Client.ChatClient.constructor | MultiCastClient.java:53-59 | after login the user name is the trimmed input, nothing is loaded or sent yet, and the listener runs |
| Client.ChatClient.AddDescriptor | MultiCastClient.java:86-93 | a descriptor that parses is appended to the room cache; one that does not ends the listener and changes nothing else |
| Client.ChatClient.Receive | MultiCastClient.java:84-152 | one listener iteration equals `ClientSpec.OnLine` |
| Client.ChatClient.ReceiveText | MultiCastClient.java:131-152 | the non-descriptor branches of the listener equal `ClientSpec.OnLine` |
| Client.ChatClient.Listen | MultiCastClient.java:80-159 | the listener loop equals `ClientSpec.Feed`: it reads lines until the input ends, an exception ends the thread, or the waiting thread is released |
| Client.ChatClient.LoadRoomList | MultiCastClient.java:206-222 | clears the cache, sends `GetRooms` and waits; it is released exactly when `EndOfRoomList` has been read |
| Client.ChatClient.CreateRoom | MultiCastClient.java:224-241 | sends `CreateRoom <name> <user>` and waits for its own room; once released it joins that room and empties the hand-over slot |
| Client.ChatClient.JoinRoom | MultiCastClient.java:243-246 | the room becomes current and `JoinRoom <name> <user>` is sent |
| Client.ChatClient.SendMessage | MultiCastClient.java:285-291 | equals `ClientSpec.SendMessage` (see `ClientProperties.SendMessageSends`) |
| Client.ChatClient.LeaveRoom | MultiCastClient.java:293-297 | equals `ClientSpec.LeaveRoom` (see `ClientProperties.LeaveRoomOnce`) |
| ClientProperties.ClassifyFirstMatch | MultiCastClient.java:85-152 | each listener branch is taken exactly when its test passes; `Room` loses only the `RoomCreated` lines to an earlier test |
| ClientProperties.RoomNotFoundKillsListener | MultiCastClient.java:118-124 | the relay's `RoomNotFound` reply is taken as a room descriptor, fails to parse and ends the listener |
| ClientProperties.OneEntryPerDescriptor | MultiCastClient.java:85-130 | a line adds at most one room to the cache, and adds one exactly when it is a descriptor that parses, the room being the parsed one |
| ClientProperties.FeedOnlyAppends | MultiCastClient.java:80-159 | the listener never removes or reorders cached rooms, whatever it reads |
| ClientProperties.RequestRoomListResets | MultiCastClient.java:206-211 | `loadRoomList` empties the cache, clears the flag, sends `GetRooms` and changes nothing else |
| ClientProperties.CreatedRoomOnlyForOwnRoom | MultiCastClient.java:112-117 | only a parsed `RoomCreated` line for a room of the local user fills the hand-over slot, and such a line always does |
| ClientProperties.LoadedOnlyByEndOfRoomList | MultiCastClient.java:140-144 | only the exact line `EndOfRoomList` sets the loaded flag, and it does nothing else |
| ClientProperties.ShownText | MultiCastClient.java:131-139 | `Message` and `PrivateMessage` lines show their text after the keyword, `System` lines are shown whole, and no other line adds to the chat area |
| ClientProperties.UserListLinesInert | MultiCastClient.java:145-152 | user-list lines and unrecognised lines change nothing |
| ClientProperties.AbortsExactly | MultiCastClient.java:80-159 | the listener stops exactly on a malformed descriptor or a line too short for its `substring`, and it dies without recording anything |
| ClientProperties.FeedAppend | MultiCastClient.java:80-159 | reading two batches of lines one after the other is reading them together |
| ClientProperties.FeedStops | MultiCastClient.java:213-221 | once the listener is dead or the wait is released, further lines have no effect on the waiting thread's view |
| ClientProperties.SendMessageSends | MultiCastClient.java:285-291 | a message is sent, as `SendMessage All <trimmed text>`, exactly when its trimmed text is non-empty, and nothing else changes |
| ClientProperties.LeaveRoomOnce | MultiCastClient.java:293-297 | after leaving there is no current room; `LeaveRoom` is sent exactly when there was one, and leaving twice is leaving once |
| ClientProperties.JoinAndCreateCommands | MultiCastClient.java:224-246 | the exact request lines of `joinRoom` and `createRoom`; finishing `createRoom` makes the created room current and empties the slot |
| Wire.RegisteredRoomPortable | MultiCastServer.java:110-113 | every registered room with a space-free name and creator and a port within `int` range has a descriptor the client can parse |
| Wire.DescriptorSplits | MultiCastClient.java:86 | a descriptor of such a room splits back into its keyword and five fields |
| Wire.DescriptorRoundTrip | MultiCastClient.java:86-92 | the client parses each of the relay's `Room`, `RoomCreated` and `NewRoom` lines back into the room's id, name, creator, address and port |
| Wire.RoomLineParses | MultiCastClient.java:118-125 | the relay's `Room` line parses back into the room |
| Wire.RoomCreatedLineParses | MultiCastClient.java:98-105 | the relay's `RoomCreated` line parses back into the room |
| Wire.NewRoomLineParses | MultiCastClient.java:85-92 | the relay's `NewRoom` line parses back into the room |
| Wire.DescriptorClasses | MultiCastClient.java:85-118 | each descriptor line reaches the listener branch for its own keyword |
| Wire.ClientReadsDescriptors | MultiCastClient.java:85-130 | reading any of the three descriptors appends the room to the cache; `RoomCreated` also hands the room over when the local user created it |
| Wire.FeedRoomLines | MultiCastClient.java:118-126 | reading the relay's room lines appends exactly the rooms they describe, in order |
| Wire.LoadRoomListReceivesRegistry | MultiCastClient.java:206-222 | when `loadRoomList` meets the relay's answer, the client is released with a cache holding exactly the registry's rooms, by ascending id |
| Wire.InfosAt | MultiCastClient.java:196 | the cached room at table row `k - 1` is the room with id `k` |
| Wire.CommandsParse | MultiCastServer.java:52-84 | the relay reads each line the client's commands write as the intended command, with its fields |
| Wire.LeaveParses | MultiCastServer.java:69-70 | `LeaveRoom` is read as the leave command |
| Wire.GetRoomsParses | MultiCastServer.java:53-54 | `GetRooms` is read as the room-list command |
| Wire.CreateParses | MultiCastServer.java:55-61 | `CreateRoom <name> <user>` with a space-free room name is read with exactly those two fields |
| Wire.JoinParses | MultiCastServer.java:62-68 | `JoinRoom <name> <user>` with a space-free room name is read with exactly those two fields |
| Wire.SendAllParses | MultiCastServer.java:71-77 | `SendMessage All <text>` is a room message carrying the whole text, spaces included |
| Wire.CreateHandshake | MultiCastClient.java:224-237 | with space-free names, the relay creates the room under the client's user name, answers `RoomCreated`, and that answer releases the client's wait with the new room |
| Wire.SpacedRoomNameBreaksCreate | MultiCastClient.java:224-235 | with a room name `a b`, the relay registers room `a` with creator `b <user>`; the client's listener dies on the answer and `createRoom` is never released |
| Wire.SpacedNameAtRelay | MultiCastServer.java:55-61 | the relay's side of the spaced room name: the shifted creator and a `RoomCreated` line that cannot be parsed |
| Wire.SpacedCreatorUnparsable | MultiCastClient.java:98-105 | a descriptor whose creator holds a space does not parse |
| Wire.ClientShowsChat | MultiCastClient.java:131-133 | the client shows a room message as `[<peer>] - <name>: <text>` |
| Wire.ClientShowsPrivateFrom | MultiCastClient.java:134-136 | the recipient is shown `From [<peer>] - <sender>: <text>` |
| Wire.ClientShowsPrivateTo | MultiCastClient.java:134-136 | the sender is shown `To [<peer>] - <recipient>: <text>` |
| Wire.ClientShowsNotices | MultiCastClient.java:137-139 | join and leave notices are shown whole |
| Wire.ClientIgnoresUserList | MultiCastClient.java:145-152 | the relay's user-list block leaves the client unchanged |
| Wire.ClientIgnoresJoined | MultiCastClient.java:85-152 | the `JoinedRoom` confirmation matches no listener branch and changes nothing |
| Wire.ClientIgnoresUnknownCommand | MultiCastClient.java:85-152 | the `UnknownCommand` reply changes nothing on the client |
| Wire.ClientIgnoresSelfMessageError | MultiCastClient.java:85-152 | the error for a private message to oneself changes nothing on the client |
| Wire.ClientIgnoresUserNotFound | MultiCastClient.java:85-152 | the `UserNotFound` reply changes nothing on the client |

## Left out

- Sockets, streams and the accept loop of `MultiCastServer.main` are not modelled. Reading a line is a sequence element and `println` appends to a session's `out`. One accepted client is `Connect`. The client's `connectToServer`, with its fixed host and port, is left out too.
- Threads and concurrency are not modelled: the relay's client threads, `CopyOnWriteArrayList`, `ConcurrentHashMap`, the unsynchronised counters, and the client's `wait`/`notifyAll` pairs. Each relay thread's requests are applied one at a time. The client's waits are `Feed` with a `Wait` that stops reading once the waiting thread would wake; a `false` `released` stands for waiting forever.
- Iteration order: `ConcurrentHashMap` does not specify one, so the model lists rooms by ascending id. A room's members form a `HashSet`; they are kept as a duplicate-free sequence in insertion order.
- `InetAddress.getByName` and the `UnknownHostException` branch with its "Error Creating Room" reply are left out. The address is always the text `230.0.0.<id>`. An id above 255 is not rejected: it gives an invalid IPv4 address, which Java would reject with that error.
- ClientSpec.ParseRoom: the client's `InetAddress.getByName(tokens[4])` is left out. An address text it cannot resolve raises `UnknownHostException`, which the listener's `catch (IOException …)` turns into the end of the listener thread. The model accepts any address text, so it does not promise that the thread dies on an unresolvable address.
- Timestamps and the relay's console logging are not modelled. The one exception is the null dereference in the private-message log line, which is modelled because it ends the thread.
- The `int` counters are unbounded: 32-bit wrap-around after 2^31 rooms is not modelled. `JavaString.ParseInt` accepts only ASCII digits; Java's `parseInt` also accepts other Unicode decimal digits.
- The Swing user interface is not modelled. The room table, dialogs and frames are reduced to the `rooms` cache and the `transcript` of displayed text, and `EndOfUserList`, `ClearUserList` and `User` lines only touch the hidden user-list widget.
- Client.ChatClient.LeaveRoom: `leaveRoom` re-opens the room window afterwards, whose `loadRoomList` is the separate `Client.ChatClient.LoadRoomList`.
- Client.ChatClient.CreateRoom: the create button trims the room name before calling `createRoom`, and the method takes the already-trimmed name.
- Client.ChatClient.constructor: an empty trimmed login name keeps the login window open and creates no session, so it is a precondition. The name is not otherwise checked. The peer string is the relay's `getHostAddress` text and is a parameter.
