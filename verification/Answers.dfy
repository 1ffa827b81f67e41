/** What a task tells its sender, told from the state of the database before it runs. */
module Answers {
  import opened Text
  import opened Numbers
  import opened Ordering
  import opened Codec
  import opened Connections
  import opened Tasks
  import opened DbService
  import opened Social
  import opened Executor
  import R = Rows
  import T = Tables

  // ---------------------------------------------------------------- what requests say to a connection

  /** The responses sent to a connection, in order. */
  function TextsTo(reqs: seq<Request>, fd: int): seq<string> {
    if reqs == [] then []
    else TextsTo(reqs[..|reqs| - 1], fd) + TextOf(reqs[|reqs| - 1], fd)
  }

  function TextOf(req: Request, fd: int): seq<string> {
    if req.SendOne? && req.fd == fd && req.cmd.Response? then [req.cmd.text] else []
  }

  lemma TextsSnoc(reqs: seq<Request>, req: Request, fd: int)
    ensures TextsTo(reqs + [req], fd) == TextsTo(reqs, fd) + TextOf(req, fd)
  {
    assert (reqs + [req])[..|reqs|] == reqs;
  }

  lemma {:induction false} TextsAppend(a: seq<Request>, b: seq<Request>, fd: int)
    ensures TextsTo(a + b, fd) == TextsTo(a, fd) + TextsTo(b, fd)
  {
    if b == [] {
      assert a + b == a;
    } else {
      var init, last := b[..|b| - 1], b[|b| - 1];
      assert b == init + [last] && a + b == a + init + [last];
      TextsAppend(a, init, fd);
      TextsSnoc(a + init, last, fd);
      Assoc(TextsTo(a, fd), TextsTo(init, fd), TextOf(last, fd));
    }
  }

  lemma {:induction false} TextsOfReplies(texts: seq<string>, fd: int)
    ensures TextsTo(Replies(fd, texts), fd) == texts
  {
    if texts == [] {
      assert Replies(fd, texts) == [];
    } else {
      var n := |texts| - 1;
      TextsOfReplies(texts[..n], fd);
      TextsSnoc(Replies(fd, texts[..n]), Reply(fd, texts[n]), fd);
      assert Replies(fd, texts) == Replies(fd, texts[..n]) + [Reply(fd, texts[n])];
    }
  }

  lemma TextsOfOne(req: Request, fd: int)
    ensures TextsTo([req], fd) == TextOf(req, fd)
  {
    TextsSnoc([], req, fd);
    assert [] + [req] == [req];
  }

  // ---------------------------------------------------------------- the table of answers

  function YesOrNo(c: Chance, did: bool, failed: string, no: string, yes: string): seq<string> {
    if c.failure.Some? then [failed] else if did then [yes] else [no]
  }

  /** What the sender is told. A transaction that fails for the database's own reasons is told as failed; otherwise the
      answer depends on the rows alone. */
  ghost function Told(db: T.Db, t: Task, c: Chance): seq<string>
    requires T.Sound(db)
  {
    var user := t.userId;
    match t.cmd
    case Response(_) => []
    case Login(id, pw) =>
      if c.failure.None? && id in db.users && db.users[id].pw == pw && c.reload.None?
      then ["login success"] else ["login failed"]
    case Register(id, _) => YesOrNo(c, id !in db.users, "register failed", "id already exists", "register success")
    case _ => if user == "" then ["login first"] else ToldMember(db, t.cmd, user, c)
  }

  ghost function ToldMember(db: T.Db, cmd: Command, user: string, c: Chance): seq<string>
    requires T.Sound(db)
  {
    match cmd
    case Say(room, _) => ToldSay(db, ParseRoomId(room), user, c)
    case Nick(_) => if c.failure.None? && user in db.users then ["nick change success"] else ["nick change failed"]
    case FriendRequest(to) =>
      if to == user then ["cannot request yourself"]
      else if !(user in db.users && to in db.users) then ["friend request failed"]
      else YesOrNo(c, R.MakesRequest(db, T.RequestFriend(user, to), user, to), "friend request failed",
                   "friend request already exists or already friends", "friend request sent")
    case FriendAccept(from) =>
      YesOrNo(c, T.IsPending(db, from, user), "friend request accept failed", "no pending friend request",
              "friend request accepted")
    case FriendReject(from) =>
      YesOrNo(c, T.IsPending(db, from, user), "friend request reject failed", "no pending friend request",
              "friend request rejected")
    case FriendRemove(other) =>
      if other == user then ["cannot remove yourself"]
      else YesOrNo(c, T.AreFriends(db, user, other), "friend remove failed", "friend not found", "friend removed")
    case CreateRoom(name) =>
      if name == "" then ["room name is empty"]
      else if c.failure.None? && user in db.users
      then ["room created: " + Number(db.nextRoom + c.gap) + " (" + name + ")"] else ["create room failed"]
    case DeleteRoom(room) => ToldDelete(db, ParseRoomId(room), user, c)
    case InviteRoom(room, other) =>
      if other == user then ["cannot invite yourself"] else ToldInvite(db, ParseRoomId(room), user, other, c)
    case LeaveRoom(room) => ToldLeave(db, ParseRoomId(room), user, c)
    case _ => ToldList(db, cmd, user, c)
  }

  ghost function ToldSay(db: T.Db, room: Option<int>, user: string, c: Chance): seq<string>
    requires T.Sound(db)
  {
    if room.None? then ["invalid room id"]
    else if c.failure.Some? then ["send failed"]
    else if (room.value, user) !in db.members then ["room not found or no permission"] else []
  }

  ghost function ToldDelete(db: T.Db, room: Option<int>, user: string, c: Chance): seq<string>
    requires T.Sound(db)
  {
    if room.None? then ["invalid room id"]
    else YesOrNo(c, room.value in db.rooms && db.rooms[room.value].owner == user, "delete room failed",
                 "room not found or no permission", "room deleted: " + Number(room.value))
  }

  ghost function ToldInvite(db: T.Db, room: Option<int>, user: string, other: string, c: Chance): seq<string>
    requires T.Sound(db)
  {
    if room.None? then ["invalid room id"]
    else if c.failure.Some? then ["invite room failed"]
    else if (room.value, user) !in db.members then ["room not found or no permission"]
    else if !T.AreFriends(db, user, other) then ["can invite friends only"]
    else if (room.value, other) in db.members then ["user already in room"]
    else ["room invite sent: room=" + Number(room.value) + " user=" + other]
  }

  ghost function ToldLeave(db: T.Db, room: Option<int>, user: string, c: Chance): seq<string>
    requires T.Sound(db)
  {
    if room.None? then ["invalid room id"]
    else if c.failure.Some? then ["leave room failed"]
    else if (room.value, user) !in db.members then ["room not found or not joined"]
    else if db.rooms[room.value].owner == user then ["room owner cannot leave (delete room instead)"]
    else ["left room: " + Number(room.value)]
  }

  ghost function ToldList(db: T.Db, cmd: Command, user: string, c: Chance): seq<string>
    requires T.Sound(db)
  {
    match cmd
    case ListFriend =>
      if c.failure.Some? then ["friend list failed"]
      else if exists other :: T.AreFriends(db, user, other) then [] else ["no friends"]
    case ListFriendRequest =>
      if c.failure.Some? then ["friend requests list failed"]
      else if exists from :: T.IsPending(db, from, user) then ToldPending(PendingRows(db, user, c.order))
      else ["no pending friend requests"]
    case ListRoom =>
      if c.failure.Some? then ["list room failed"]
      else if exists r :: r in db.rooms && (r, user) in db.members then ToldRooms(db, RoomList(db, user))
      else ["no rooms"]
    case History(room, limit) => ToldHistory(db, ParseRoomId(room), ParseLimit(limit), user, c)
    case _ => []
  }

  function ToldPending(users: seq<string>): seq<string> {
    ["pending friend requests: " + Digits(|users|)] + seq(|users|, i requires 0 <= i < |users| => "from: " + users[i])
  }

  function ToldRooms(db: T.Db, ids: seq<int>): seq<string> {
    ["rooms: " + Digits(|ids|)] + seq(|ids|, i requires 0 <= i < |ids| => ToldRoom(db, ids[i]))
  }

  function ToldRoom(db: T.Db, id: int): string {
    var room := if id in db.rooms then db.rooms[id] else T.Room("", "");
    "room: id=" + Number(id) + " name=" + room.name + " owner=" + room.owner + " members="
    + Digits(|set m | m in db.members && m.0 == id :: m.1|)
  }

  function ToldHistory(db: T.Db, room: Option<int>, limit: Option<nat>, user: string, c: Chance): seq<string> {
    if room.None? then ["invalid room id"]
    else if limit.None? then ["invalid limit (1-100)"]
    else if c.failure.Some? then ["history query failed"]
    else if (room.value, user) !in db.members then ["room not found or no permission"]
    else
      var ms := Read(db, user, room.value, limit.value).value;
      ["history: room=" + Number(room.value) + " count=" + Digits(|ms|)] + ToldMessages(ms, c.clock)
  }

  function ToldMessages(ms: seq<T.Message>, clock: int -> string): seq<string> {
    seq(|ms|, i requires 0 <= i < |ms| => ToldMessage(ms[i], clock))
  }

  function ToldMessage(m: T.Message, clock: int -> string): string {
    "history: id=" + Number(m.id) + " at=" + clock(m.at) + " from=" + m.sender + " text=" + m.body
  }

  // ---------------------------------------------------------------- every task tells that

  lemma TwoTexts(a: Request, b: Request, fd: int)
    ensures TextsTo([a, b], fd) == TextOf(a, fd) + TextOf(b, fd)
  {
    TextsOfOne(a, fd);
    TextsSnoc([a], b, fd);
    assert [a] + [b] == [a, b];
  }

  lemma FourTexts(a: Request, b: Request, c: Request, d: Request, fd: int)
    ensures TextsTo([a, b, c, d], fd) == TextOf(a, fd) + TextOf(b, fd) + TextOf(c, fd) + TextOf(d, fd)
  {
    TwoTexts(a, b, fd);
    TextsSnoc([a, b], c, fd);
    TextsSnoc([a, b, c], d, fd);
    assert [a, b] + [c] == [a, b, c] && [a, b, c] + [d] == [a, b, c, d];
  }

  /** Refreshing room lists says nothing. */
  lemma RefreshIsSilent(db: T.Db, fd: int, user: string, failure: Option<T.DbError>, text: string)
    ensures var reply, one, all := Reply(fd, text), RefreshOne(db, fd, user, failure), RefreshAll(db, user, failure);
      && TextsTo([reply] + one, fd) == TextsTo(one + [reply], fd) == TextsTo(all + [reply], fd) == [text]
      && TextsTo(all, fd) == []
  {
    var reply, one, all := Reply(fd, text), RefreshOne(db, fd, user, failure), RefreshAll(db, user, failure);
    TextsOfOne(reply, fd);
    TextsOfOne(SetJoinedRooms(fd, RoomList(db, user)), fd);
    TextsOfOne(SetJoinedRoomsForUser(user, RoomList(db, user)), fd);
    TextsAppend([reply], one, fd);
    TextsAppend(one, [reply], fd);
    TextsAppend(all, [reply], fd);
  }

  lemma LoginTold(db: T.Db, id: string, pw: string, fd: int, c: Chance)
    ensures TextsTo(LoginEffect(db, id, pw, fd, c).requests, fd) ==
      if c.failure.None? && id in db.users && db.users[id].pw == pw && c.reload.None?
      then ["login success"] else ["login failed"]
  {
    var failed, out := Reply(fd, "login failed"), LoggedOut(fd);
    FourTexts(failed, out[0], out[1], out[2], fd);
    FourTexts(out[0], out[1], out[2], failed, fd);
    assert [failed] + out == [failed, out[0], out[1], out[2]] && out + [failed] == [out[0], out[1], out[2], failed];
    if id in db.users {
      FourTexts(SetUserId(fd, id), SetJoinedRooms(fd, RoomList(db, id)), ChangeNickname(fd, db.users[id].nickname),
                Reply(fd, "login success"), fd);
    }
  }

  lemma SignupTold(db: T.Db, id: string, pw: string, fd: int, c: Chance)
    ensures TextsTo(SignupEffect(db, id, pw, fd, c).requests, fd) ==
      YesOrNo(c, id !in db.users, "register failed", "id already exists", "register success")
  {
    TextsOfOne(SignupEffect(db, id, pw, fd, c).requests[0], fd);
  }

  lemma NickTold(db: T.Db, nick: string, fd: int, user: string, c: Chance)
    requires user != ""
    ensures TextsTo(NickEffect(db, nick, fd, user, c).requests, fd) ==
      if c.failure.None? && user in db.users then ["nick change success"] else ["nick change failed"]
  {
    TextsOfOne(Reply(fd, "nick change failed"), fd);
    TwoTexts(ChangeNickname(fd, nick), Reply(fd, "nick change success"), fd);
  }

  lemma YesNoTold(db: T.Db, o: T.Outcome<bool>, fd: int, c: Chance, failed: string, no: string, yes: string)
    ensures TextsTo(YesNo(db, o, fd, c, failed, no, yes).requests, fd) ==
      if o.result.Err? then [failed] else YesOrNo(c, o.result.value, failed, no, yes)
  {
    TextsOfOne(YesNo(db, o, fd, c, failed, no, yes).requests[0], fd);
  }

  lemma FriendRequestTold(db: T.Db, to: string, fd: int, user: string, c: Chance)
    requires T.Sound(db) && user != ""
    ensures TextsTo(FriendRequestEffect(db, to, fd, user, c).requests, fd) == ToldMember(db, FriendRequest(to), user, c)
  {
    R.SocialAnswers(db, user, to);
    TextsOfOne(Reply(fd, "cannot request yourself"), fd);
    YesNoTold(db, T.RequestFriendTxn(db, user, to), fd, c, "friend request failed",
              "friend request already exists or already friends", "friend request sent");
  }

  lemma FriendRemoveTold(db: T.Db, other: string, fd: int, user: string, c: Chance)
    requires T.Sound(db) && user != ""
    ensures TextsTo(FriendRemoveEffect(db, other, fd, user, c).requests, fd) ==
            ToldMember(db, FriendRemove(other), user, c)
  {
    R.SocialAnswers(db, user, other);
    TextsOfOne(Reply(fd, "cannot remove yourself"), fd);
    YesNoTold(db, T.RemoveFriendTxn(db, user, other), fd, c, "friend remove failed", "friend not found",
              "friend removed");
  }

  lemma FriendAcceptTold(db: T.Db, from: string, fd: int, user: string, c: Chance)
    requires T.Sound(db) && user != ""
    ensures TextsTo(FriendAcceptEffect(db, from, fd, user, c).requests, fd) ==
            ToldMember(db, FriendAccept(from), user, c)
  {
    R.SocialAnswers(db, from, user);
    YesNoTold(db, T.AcceptFriendTxn(db, from, user), fd, c, "friend request accept failed",
              "no pending friend request", "friend request accepted");
  }

  lemma FriendRejectTold(db: T.Db, from: string, fd: int, user: string, c: Chance)
    requires T.Sound(db) && user != ""
    ensures TextsTo(FriendRejectEffect(db, from, fd, user, c).requests, fd) ==
            ToldMember(db, FriendReject(from), user, c)
  {
    R.SocialAnswers(db, from, user);
    YesNoTold(db, T.RejectFriendTxn(db, from, user), fd, c, "friend request reject failed",
              "no pending friend request", "friend request rejected");
  }

  /** A message that is not refused is broadcast instead, with its text. */
  lemma SayTold(db: T.Db, roomId: string, text: string, fd: int, user: string, c: Chance)
    requires T.Sound(db) && user != ""
    ensures var room := ParseRoomId(roomId);
      var reqs := SayEffect(db, room, text, fd, user, c).requests;
      && TextsTo(reqs, fd) == ToldMember(db, Say(roomId, text), user, c)
      && (TextsTo(reqs, fd) == [] ==> reqs == [RoomBroadcast(fd, room.value, Response(text))])
  {
    var room := ParseRoomId(roomId);
    if room.Some? { R.MessageAnswers(db, room.value, user, text, c.gap, c.at); }
    TextsOfOne(SayEffect(db, room, text, fd, user, c).requests[0], fd);
  }

  lemma CreatedTold(db: T.Db, name: string, fd: int, user: string, c: Chance)
    requires user != "" && name != "" && c.failure.None? && user in db.users
    ensures TextsTo(CreateRoomEffect(db, name, fd, user, c).requests, fd) ==
            ["room created: " + Number(db.nextRoom + c.gap) + " (" + name + ")"]
  {
    var o := T.CreateRoomTxn(db, user, name, c.gap);
    var text := "room created: " + Number(db.nextRoom + c.gap) + " (" + name + ")";
    RefreshIsSilent(o.db, fd, user, c.reload, text);
    assert CreateRoomEffect(db, name, fd, user, c).requests == [Reply(fd, text)] + RefreshOne(o.db, fd, user, c.reload);
  }

  lemma CreateTold(db: T.Db, name: string, fd: int, user: string, c: Chance)
    requires T.Sound(db) && user != ""
    ensures TextsTo(CreateRoomEffect(db, name, fd, user, c).requests, fd) == ToldMember(db, CreateRoom(name), user, c)
  {
    R.CreateAnswers(db, user, name, c.gap);
    var reqs := CreateRoomEffect(db, name, fd, user, c).requests;
    if name != "" && c.failure.None? && user in db.users {
      CreatedTold(db, name, fd, user, c);
    } else {
      TextsOfOne(reqs[0], fd);
      assert reqs == [reqs[0]];
    }
  }

  lemma DeleteTold(db: T.Db, roomId: string, fd: int, user: string, c: Chance)
    requires T.Sound(db) && user != ""
    ensures TextsTo(DeleteRoomEffect(db, ParseRoomId(roomId), fd, user, c).requests, fd) ==
            ToldMember(db, DeleteRoom(roomId), user, c)
  {
    var room := ParseRoomId(roomId);
    TextsOfOne(Reply(fd, "invalid room id"), fd);
    if room.Some? {
      R.RoomAnswers(db, user, room.value, user);
      TextsOfOne(Reply(fd, "delete room failed"), fd);
      TextsOfOne(Reply(fd, "room not found or no permission"), fd);
      var o := T.DeleteRoomTxn(db, user, room.value);
      RefreshIsSilent(o.db, fd, user, c.reload, "room deleted: " + Number(room.value));
    }
  }

  lemma RefreshAllIsSilent(db: T.Db, fd: int, user: string, failure: Option<T.DbError>)
    ensures TextsTo(RefreshAll(db, user, failure), fd) == []
  {
    TextsOfOne(SetJoinedRoomsForUser(user, RoomList(db, user)), fd);
  }

  lemma InvitedRequests(db: T.Db, id: int, other: string, fd: int, user: string, c: Chance, reply: Request)
    requires user != "" && other != user && c.failure.None?
    requires T.InviteRoomTxn(db, user, id, other).result == Ok(T.Invited)
    requires reply == Reply(fd, "room invite sent: room=" + Number(id) + " user=" + other)
    ensures var db' := T.InviteRoomTxn(db, user, id, other).db;
      InviteRoomEffect(db, Some(id), other, fd, user, c).requests ==
      RefreshAll(db', user, c.reload) + RefreshAll(db', other, c.reload2) + [reply]
  {}

  lemma InvitedTold(db: T.Db, id: int, other: string, fd: int, user: string, c: Chance, text: string)
    requires user != "" && other != user && c.failure.None?
    requires T.InviteRoomTxn(db, user, id, other).result == Ok(T.Invited)
    requires text == "room invite sent: room=" + Number(id) + " user=" + other
    ensures TextsTo(InviteRoomEffect(db, Some(id), other, fd, user, c).requests, fd) == [text]
  {
    var db' := T.InviteRoomTxn(db, user, id, other).db;
    InvitedRequests(db, id, other, fd, user, c, Reply(fd, text));
    RefreshAllIsSilent(db', fd, user, c.reload);
    RefreshAllIsSilent(db', fd, other, c.reload2);
    ReplyAfter(RefreshAll(db', user, c.reload), RefreshAll(db', other, c.reload2), fd, text);
  }

  lemma ReplyAfter(first: seq<Request>, second: seq<Request>, fd: int, text: string)
    requires TextsTo(first, fd) == [] && TextsTo(second, fd) == []
    ensures TextsTo(first + second + [Reply(fd, text)], fd) == [text]
  {
    TextsAppend(first, second, fd);
    TextsSnoc(first + second, Reply(fd, text), fd);
  }

  lemma InviteRefusedTold(db: T.Db, id: int, other: string, fd: int, user: string, c: Chance)
    requires user != "" && other != user && c.failure.None?
    requires var r := T.InviteRoomTxn(db, user, id, other).result; r.Ok? && r.value != T.Invited
    ensures TextsTo(InviteRoomEffect(db, Some(id), other, fd, user, c).requests, fd) ==
      match T.InviteRoomTxn(db, user, id, other).result.value
      case AlreadyMember => ["user already in room"]
      case NotFriend => ["can invite friends only"]
      case _ => ["room not found or no permission"]
  {
    TextsOfOne(InviteRoomEffect(db, Some(id), other, fd, user, c).requests[0], fd);
  }

  lemma InviteTold(db: T.Db, room: Option<int>, other: string, fd: int, user: string, c: Chance)
    requires T.Sound(db) && user != "" && other != user
    ensures TextsTo(InviteRoomEffect(db, room, other, fd, user, c).requests, fd) == ToldInvite(db, room, user, other, c)
  {
    if room.None? || c.failure.Some? {
      TextsOfOne(InviteRoomEffect(db, room, other, fd, user, c).requests[0], fd);
    } else {
      R.RoomAnswers(db, user, room.value, other);
      if T.InviteRoomTxn(db, user, room.value, other).result == Ok(T.Invited) {
        InvitedTold(db, room.value, other, fd, user, c,
                    "room invite sent: room=" + Number(room.value) + " user=" + other);
      } else {
        InviteRefusedTold(db, room.value, other, fd, user, c);
      }
    }
  }

  lemma LeftTold(db: T.Db, id: int, fd: int, user: string, c: Chance)
    requires user != "" && c.failure.None? && T.LeaveRoomTxn(db, user, id).result == Ok(T.Left)
    ensures TextsTo(LeaveRoomEffect(db, Some(id), fd, user, c).requests, fd) == ["left room: " + Number(id)]
  {
    RefreshIsSilent(T.LeaveRoomTxn(db, user, id).db, fd, user, c.reload, "left room: " + Number(id));
  }

  lemma LeaveRefusedTold(db: T.Db, id: int, fd: int, user: string, c: Chance)
    requires user != "" && c.failure.None?
    requires var r := T.LeaveRoomTxn(db, user, id).result; r.Ok? && r.value != T.Left
    ensures TextsTo(LeaveRoomEffect(db, Some(id), fd, user, c).requests, fd) ==
      if T.LeaveRoomTxn(db, user, id).result.value == T.NotMember then ["room not found or not joined"]
      else ["room owner cannot leave (delete room instead)"]
  {
    TextsOfOne(LeaveRoomEffect(db, Some(id), fd, user, c).requests[0], fd);
  }

  lemma LeaveTold(db: T.Db, room: Option<int>, fd: int, user: string, c: Chance)
    requires T.Sound(db) && user != ""
    ensures TextsTo(LeaveRoomEffect(db, room, fd, user, c).requests, fd) == ToldLeave(db, room, user, c)
  {
    if room.None? || c.failure.Some? {
      TextsOfOne(LeaveRoomEffect(db, room, fd, user, c).requests[0], fd);
    } else {
      R.RoomAnswers(db, user, room.value, user);
      if T.LeaveRoomTxn(db, user, room.value).result == Ok(T.Left) {
        LeftTold(db, room.value, fd, user, c);
      } else {
        LeaveRefusedTold(db, room.value, fd, user, c);
      }
    }
  }

  /** A header and lines. */
  lemma ListTold(fd: int, head: string, lines: seq<string>)
    ensures TextsTo([Reply(fd, head)] + Replies(fd, lines), fd) == [head] + lines
  {
    TextsAppend([Reply(fd, head)], Replies(fd, lines), fd);
    TextsOfOne(Reply(fd, head), fd);
    TextsOfReplies(lines, fd);
  }

  /** A friend list is sent by the registry, which knows who is online; it names exactly the friends, in order. */
  lemma FriendListTold(db: T.Db, fd: int, user: string, c: Chance)
    requires T.Sound(db) && user != ""
    ensures var reqs := ListFriendEffect(db, fd, user, c).requests;
      && TextsTo(reqs, fd) == ToldList(db, ListFriend, user, c)
      && (TextsTo(reqs, fd) == [] ==>
            && reqs == [SendFriendList(fd, reqs[0].friendIds)] && Ascending(Less, reqs[0].friendIds)
            && forall other :: other in reqs[0].friendIds <==> T.AreFriends(db, user, other))
  {
    var friends := T.FriendsOf(db, user);
    forall other ensures other in friends <==> T.AreFriends(db, user, other) {
      FriendListIsExact(db, user, other);
    }
    TextOrder();
    assert friends == {} <==> !exists other :: T.AreFriends(db, user, other);
    TextsOfOne(ListFriendEffect(db, fd, user, c).requests[0], fd);
  }

  lemma PendingTold(db: T.Db, fd: int, user: string, c: Chance)
    requires T.Sound(db) && user != ""
    ensures TextsTo(ListFriendRequestEffect(db, fd, user, c).requests, fd) == ToldList(db, ListFriendRequest, user, c)
  {
    var rows := PendingRows(db, user, c.order);
    SomePending(db, user, rows);
    if c.failure.Some? {
      TextsOfOne(Reply(fd, "friend requests list failed"), fd);
    } else if rows == [] {
      TextsOfOne(Reply(fd, "no pending friend requests"), fd);
    } else {
      PendingListTold(db, fd, user, c);
    }
  }

  lemma PendingListTold(db: T.Db, fd: int, user: string, c: Chance)
    requires user != "" && c.failure.None? && PendingRows(db, user, c.order) != []
    ensures TextsTo(ListFriendRequestEffect(db, fd, user, c).requests, fd) == ToldPending(PendingRows(db, user, c.order))
  {
    var rows := PendingRows(db, user, c.order);
    ListTold(fd, "pending friend requests: " + Digits(|rows|), FromLines(rows));
    PendingLinesTold(rows);
  }

  lemma PendingLinesTold(rows: seq<string>)
    ensures ToldPending(rows) == ["pending friend requests: " + Digits(|rows|)] + FromLines(rows)
  {
    SameTexts(FromLines(rows), seq(|rows|, i requires 0 <= i < |rows| => "from: " + rows[i]));
  }

  lemma SomePending(db: T.Db, user: string, rows: seq<string>)
    requires IsListing(rows, PendingTo(db, user))
    ensures rows == [] <==> !exists from :: T.IsPending(db, from, user)
  {
    ListedArePending(db, user, rows);
    if rows != [] { assert rows[0] in rows; }
  }

  lemma RoomsTold(db: T.Db, fd: int, user: string, c: Chance)
    requires T.Sound(db) && user != ""
    ensures TextsTo(ListRoomEffect(db, fd, user, c).requests, fd) == ToldList(db, ListRoom, user, c)
  {
    var ids := RoomList(db, user);
    var rooms := InfosOf(db, ids);
    TextsOfOne(Reply(fd, "list room failed"), fd);
    TextsOfOne(Reply(fd, "no rooms"), fd);
    ListTold(fd, "rooms: " + Digits(|rooms|), RoomLines(rooms));
    SomeRoom(db, user, ids);
    RoomLinesTold(db, ids);
  }

  lemma SomeRoom(db: T.Db, user: string, ids: seq<int>)
    requires forall r :: r in ids <==> r in T.RoomsOf(db, user)
    ensures ids == [] <==> !exists r :: r in db.rooms && (r, user) in db.members
    ensures forall r :: r in ids ==> r in db.rooms
  {
    if ids != [] {
      var r := ids[0];
      assert r in ids;
      assert r in db.rooms && (r, user) in db.members;
    }
    forall r | r in db.rooms && (r, user) in db.members ensures ids != [] {
      assert r in T.RoomsOf(db, user);
    }
  }

  lemma RoomLinesTold(db: T.Db, ids: seq<int>)
    requires forall r :: r in ids ==> r in db.rooms
    ensures ToldRooms(db, ids) == ["rooms: " + Digits(|ids|)] + RoomLines(InfosOf(db, ids))
  {
    var a, b := RoomLines(InfosOf(db, ids)), seq(|ids|, i requires 0 <= i < |ids| => ToldRoom(db, ids[i]));
    forall i | 0 <= i < |ids| ensures a[i] == b[i] {
      assert ids[i] in ids;
      RoomTold(db, ids, i);
    }
    SameTexts(a, b);
  }

  lemma SameTexts(a: seq<string>, b: seq<string>)
    requires |a| == |b| && forall i :: 0 <= i < |a| ==> a[i] == b[i]
    ensures a == b
  {}

  lemma RoomTold(db: T.Db, ids: seq<int>, i: nat)
    requires i < |ids| && ids[i] in db.rooms
    ensures RoomLines(InfosOf(db, ids))[i] == ToldRoom(db, ids[i])
  {
    var room := InfosOf(db, ids)[i];
    assert MembersOf(db, ids[i]) == (set m | m in db.members && m.0 == ids[i] :: m.1);
    assert RoomLines(InfosOf(db, ids))[i] == RoomLine(room);
  }

  lemma HistoryLinesTold(ms: seq<T.Message>, clock: int -> string)
    ensures HistoryLines(ms, clock) == ToldMessages(ms, clock)
  {
    SameTexts(HistoryLines(ms, clock), ToldMessages(ms, clock));
  }

  lemma HistoryTold(db: T.Db, room: Option<int>, limit: Option<nat>, fd: int, user: string, c: Chance)
    requires T.Sound(db) && user != ""
    ensures TextsTo(HistoryEffect(db, room, limit, fd, user, c).requests, fd) == ToldHistory(db, room, limit, user, c)
  {
    var reqs := HistoryEffect(db, room, limit, fd, user, c).requests;
    if room.Some? && limit.Some? && c.failure.None? && (room.value, user) in db.members {
      var ms := Read(db, user, room.value, limit.value).value;
      ListTold(fd, "history: room=" + Number(room.value) + " count=" + Digits(|ms|), HistoryLines(ms, c.clock));
      HistoryLinesTold(ms, c.clock);
    } else {
      TextsOfOne(reqs[0], fd);
      assert reqs == [reqs[0]];
    }
  }

  lemma LoggedOffTold(db: T.Db, t: Task, c: Chance)
    requires T.Sound(db) && t.userId == "" && IsDbCommand(t.cmd) && !t.cmd.Login? && !t.cmd.Register?
    ensures TextsTo(Execute(db, t, c).requests, t.fd) == ["login first"]
  {
    assert Execute(db, t, c).requests == [Reply(t.fd, "login first")];
    TextsOfOne(Reply(t.fd, "login first"), t.fd);
  }

  lemma SayTaskTold(db: T.Db, t: Task, c: Chance)
    requires T.Sound(db) && t.userId != "" && t.cmd.Say?
    ensures TextsTo(Execute(db, t, c).requests, t.fd) == ToldMember(db, t.cmd, t.userId, c)
  {
    SayTold(db, t.cmd.roomId, t.cmd.text, t.fd, t.userId, c);
  }

  lemma DeleteTaskTold(db: T.Db, t: Task, c: Chance)
    requires T.Sound(db) && t.userId != "" && t.cmd.DeleteRoom?
    ensures TextsTo(Execute(db, t, c).requests, t.fd) == ToldMember(db, t.cmd, t.userId, c)
  {
    DeleteTold(db, t.cmd.roomId, t.fd, t.userId, c);
  }

  lemma InviteTaskTold(db: T.Db, t: Task, c: Chance)
    requires T.Sound(db) && t.userId != "" && t.cmd.InviteRoom?
    ensures TextsTo(Execute(db, t, c).requests, t.fd) == ToldMember(db, t.cmd, t.userId, c)
  {
    if t.cmd.friendUserId == t.userId {
      TextsOfOne(Reply(t.fd, "cannot invite yourself"), t.fd);
    } else {
      InviteTold(db, ParseRoomId(t.cmd.roomId), t.cmd.friendUserId, t.fd, t.userId, c);
    }
  }

  lemma LeaveTaskTold(db: T.Db, t: Task, c: Chance)
    requires T.Sound(db) && t.userId != "" && t.cmd.LeaveRoom?
    ensures TextsTo(Execute(db, t, c).requests, t.fd) == ToldMember(db, t.cmd, t.userId, c)
  {
    LeaveTold(db, ParseRoomId(t.cmd.roomId), t.fd, t.userId, c);
  }

  lemma RoomTaskTold(db: T.Db, t: Task, c: Chance)
    requires T.Sound(db) && t.userId != ""
    requires t.cmd.Say? || t.cmd.CreateRoom? || t.cmd.DeleteRoom? || t.cmd.InviteRoom? || t.cmd.LeaveRoom?
    ensures TextsTo(Execute(db, t, c).requests, t.fd) == ToldMember(db, t.cmd, t.userId, c)
  {
    match t.cmd {
      case Say(_, _) => SayTaskTold(db, t, c);
      case CreateRoom(name) => CreateTold(db, name, t.fd, t.userId, c);
      case DeleteRoom(_) => DeleteTaskTold(db, t, c);
      case InviteRoom(_, _) => InviteTaskTold(db, t, c);
      case LeaveRoom(_) => LeaveTaskTold(db, t, c);
    }
  }

  lemma OtherTaskTold(db: T.Db, t: Task, c: Chance)
    requires T.Sound(db) && t.userId != "" && IsDbCommand(t.cmd) && !t.cmd.Login? && !t.cmd.Register?
    requires !t.cmd.Say? && !t.cmd.CreateRoom? && !t.cmd.DeleteRoom? && !t.cmd.InviteRoom? && !t.cmd.LeaveRoom?
    ensures TextsTo(Execute(db, t, c).requests, t.fd) == ToldMember(db, t.cmd, t.userId, c)
  {
    match t.cmd {
      case Nick(nick) => NickTold(db, nick, t.fd, t.userId, c);
      case FriendRequest(to) => FriendRequestTold(db, to, t.fd, t.userId, c);
      case FriendAccept(from) => FriendAcceptTold(db, from, t.fd, t.userId, c);
      case FriendReject(from) => FriendRejectTold(db, from, t.fd, t.userId, c);
      case FriendRemove(other) => FriendRemoveTold(db, other, t.fd, t.userId, c);
      case ListFriend => FriendListTold(db, t.fd, t.userId, c);
      case ListFriendRequest => PendingTold(db, t.fd, t.userId, c);
      case ListRoom => RoomsTold(db, t.fd, t.userId, c);
      case History(room, limit) => HistoryTold(db, ParseRoomId(room), ParseLimit(limit), t.fd, t.userId, c);
    }
  }

  lemma MemberTold(db: T.Db, t: Task, c: Chance)
    requires T.Sound(db) && t.userId != "" && IsDbCommand(t.cmd) && !t.cmd.Login? && !t.cmd.Register?
    ensures TextsTo(Execute(db, t, c).requests, t.fd) == ToldMember(db, t.cmd, t.userId, c)
  {
    if t.cmd.Say? || t.cmd.CreateRoom? || t.cmd.DeleteRoom? || t.cmd.InviteRoom? || t.cmd.LeaveRoom? {
      RoomTaskTold(db, t, c);
    } else {
      OtherTaskTold(db, t, c);
    }
  }

  /** Every task tells its sender exactly what the rows say, whatever fails. */
  lemma TaskTold(db: T.Db, t: Task, c: Chance)
    requires T.Sound(db)
    ensures TextsTo(Execute(db, t, c).requests, t.fd) == Told(db, t, c)
  {
    match t.cmd {
      case Response(_) =>
      case Login(id, pw) => LoginTold(db, id, pw, t.fd, c);
      case Register(id, pw) => SignupTold(db, id, pw, t.fd, c);
      case _ => if t.userId == "" { LoggedOffTold(db, t, c); } else { MemberTold(db, t, c); }
    }
  }

  // ---------------------------------------------------------------- names and numbers

  /** The name requests leave a connection with. */
  function NameAfter(reqs: seq<Request>, fd: int, name: string): string {
    if reqs == [] then name
    else
      var last := reqs[|reqs| - 1];
      if last.ChangeNickname? && last.fd == fd then last.nick else NameAfter(reqs[..|reqs| - 1], fd, name)
  }

  /** A successful login names the connection as the account, a successful change of nickname names account and
      connection alike, and a failed login names the connection `guest`; no task renames another connection. */
  lemma TaskNames(db: T.Db, t: Task, c: Chance, fd: int, name: string)
    ensures var e := Execute(db, t, c);
      var name' := NameAfter(e.requests, fd, name);
      if fd != t.fd then name' == name
      else match t.cmd
        case Login(id, pw) =>
          if c.failure.None? && c.reload.None? && id in db.users && db.users[id].pw == pw
          then name' == db.users[id].nickname else name' == "guest"
        case Nick(nick) =>
          if t.userId != "" && c.failure.None? && t.userId in db.users
          then name' == nick && e.db.users[t.userId].nickname == nick else name' == name
        case _ => name' == name
  {
    var reqs := Execute(db, t, c).requests;
    if t.cmd.Login? {
      NamesOfFour(reqs, fd, name);
    } else if t.cmd.Nick? {
      if |reqs| == 2 {
        NamesOfTwo(reqs, fd, name);
      } else {
        NoNames(reqs, fd, name);
      }
    } else {
      OthersDoNotName(db, t, c);
      NoNames(reqs, fd, name);
    }
  }

  lemma NamesOfTwo(reqs: seq<Request>, fd: int, name: string)
    requires |reqs| == 2 && !reqs[1].ChangeNickname?
    ensures NameAfter(reqs, fd, name) ==
      if reqs[0].ChangeNickname? && reqs[0].fd == fd then reqs[0].nick else name
  {
    assert reqs[..1] == [reqs[0]] && [reqs[0]][..0] == [];
    assert NameAfter(reqs, fd, name) == NameAfter([reqs[0]], fd, name);
  }

  lemma NamesOfFour(reqs: seq<Request>, fd: int, name: string)
    requires |reqs| == 4 && !reqs[0].ChangeNickname? && !reqs[1].ChangeNickname?
    requires reqs[2].ChangeNickname? != reqs[3].ChangeNickname?
    ensures var r := if reqs[2].ChangeNickname? then reqs[2] else reqs[3];
      NameAfter(reqs, fd, name) == if r.fd == fd then r.nick else name
  {
    NoNames(reqs[..2], fd, name);
    assert reqs[..3][..2] == reqs[..2] && reqs[..3][2] == reqs[2];
    assert NameAfter(reqs[..3], fd, name) ==
      if reqs[2].ChangeNickname? && reqs[2].fd == fd then reqs[2].nick else name;
  }

  lemma {:induction false} NoNames(reqs: seq<Request>, fd: int, name: string)
    requires forall i :: 0 <= i < |reqs| ==> !reqs[i].ChangeNickname?
    ensures NameAfter(reqs, fd, name) == name
  {
    if reqs != [] {
      NoNames(reqs[..|reqs| - 1], fd, name);
    }
  }

  lemma OthersDoNotName(db: T.Db, t: Task, c: Chance)
    requires !t.cmd.Login? && !t.cmd.Nick?
    ensures forall i :: 0 <= i < |Execute(db, t, c).requests| ==> !Execute(db, t, c).requests[i].ChangeNickname?
  {
    match t.cmd {
      case CreateRoom(_) => RoomTasksDoNotName(db, t, c);
      case DeleteRoom(_) => RoomTasksDoNotName(db, t, c);
      case InviteRoom(_, _) => InvitingDoesNotName(db, t, c);
      case LeaveRoom(_) => RoomTasksDoNotName(db, t, c);
      case Say(_, _) => RoomTasksDoNotName(db, t, c);
      case FriendRequest(_) => FriendsDoNotName(db, t, c);
      case FriendAccept(_) => FriendsDoNotName(db, t, c);
      case FriendReject(_) => FriendsDoNotName(db, t, c);
      case FriendRemove(_) => FriendsDoNotName(db, t, c);
      case Register(_, _) => case Response(_) =>
      case ListFriend => ListsDoNotName(db, t, c);
      case ListFriendRequest => ListsDoNotName(db, t, c);
      case ListRoom => ListsDoNotName(db, t, c);
      case History(_, _) => ListsDoNotName(db, t, c);
    }
  }

  lemma RoomTasksDoNotName(db: T.Db, t: Task, c: Chance)
    requires t.cmd.CreateRoom? || t.cmd.DeleteRoom? || t.cmd.LeaveRoom? || t.cmd.Say?
    ensures forall i :: 0 <= i < |Execute(db, t, c).requests| ==> !Execute(db, t, c).requests[i].ChangeNickname?
  {
    match t.cmd {
      case CreateRoom(_) => case Say(_, _) =>
      case DeleteRoom(_) => LosingDoesNotName(db, t, c);
      case LeaveRoom(_) => LosingDoesNotName(db, t, c);
    }
  }

  lemma LosingDoesNotName(db: T.Db, t: Task, c: Chance)
    requires t.cmd.DeleteRoom? || t.cmd.LeaveRoom?
    ensures forall i :: 0 <= i < |Execute(db, t, c).requests| ==> !Execute(db, t, c).requests[i].ChangeNickname?
  {
    match t.cmd {
      case DeleteRoom(_) => case LeaveRoom(_) =>
    }
  }

  lemma InvitingDoesNotName(db: T.Db, t: Task, c: Chance)
    requires t.cmd.InviteRoom?
    ensures forall i :: 0 <= i < |Execute(db, t, c).requests| ==> !Execute(db, t, c).requests[i].ChangeNickname?
  {
    match t.cmd {
      case InviteRoom(_, _) =>
    }
  }

  lemma FriendsDoNotName(db: T.Db, t: Task, c: Chance)
    requires t.cmd.FriendRequest? || t.cmd.FriendAccept? || t.cmd.FriendReject? || t.cmd.FriendRemove?
    ensures forall i :: 0 <= i < |Execute(db, t, c).requests| ==> !Execute(db, t, c).requests[i].ChangeNickname?
  {
    match t.cmd {
      case FriendRequest(_) => case FriendAccept(_) => case FriendReject(_) => case FriendRemove(_) =>
    }
  }

  lemma ListsDoNotName(db: T.Db, t: Task, c: Chance)
    requires t.cmd.ListFriend? || t.cmd.ListFriendRequest? || t.cmd.ListRoom? || t.cmd.History?
    ensures forall i :: 0 <= i < |Execute(db, t, c).requests| ==> !Execute(db, t, c).requests[i].ChangeNickname?
  {
    match t.cmd {
      case ListFriend => case ListFriendRequest => case ListRoom => case History(_, _) =>
    }
  }

  /** A new room is told before the list is loaded again, and a login is told last, unless the database failed it. */
  lemma AnswerPlace(db: T.Db, t: Task, c: Chance)
    requires t.cmd.CreateRoom? || t.cmd.Login?
    ensures var reqs := Execute(db, t, c).requests;
      && reqs != []
      && (t.cmd.CreateRoom? ==> reqs[0].SendOne?)
      && (t.cmd.Login? ==>
            var known := t.cmd.id in db.users && db.users[t.cmd.id].pw == t.cmd.pw;
            if c.failure.None? && (!known || c.reload.None?) then reqs[|reqs| - 1].SendOne? else reqs[0].SendOne?)
  {
    match t.cmd {
      case Login(_, _) => case CreateRoom(_) =>
    }
  }

  /** Leaving, deleting and inviting are told behind the reloads. */
  lemma AnswerIsLast(db: T.Db, t: Task, c: Chance)
    requires t.cmd.DeleteRoom? || t.cmd.InviteRoom? || t.cmd.LeaveRoom?
    ensures var reqs := Execute(db, t, c).requests; reqs != [] && reqs[|reqs| - 1].SendOne?
  {
    match t.cmd {
      case DeleteRoom(_) => case LeaveRoom(_) =>
      case InviteRoom(_, _) => InviteAnswersLast(db, t, c);
    }
  }

  lemma InviteAnswersLast(db: T.Db, t: Task, c: Chance)
    requires t.cmd.InviteRoom?
    ensures var reqs := Execute(db, t, c).requests; reqs != [] && reqs[|reqs| - 1].SendOne?
  {
    match t.cmd {
      case InviteRoom(_, _) =>
    }
  }

  /** A number in an answer is a spelling of itself, so a room id that is sent back is understood. */
  lemma NumberIsSpelled(n: int)
    requires -INT64_MAX - 1 <= n <= INT64_MAX
    ensures Spells(Number(n), n) && (n > 0 ==> ParseRoomId(Number(n)) == Some(n))
  {
    var m: nat := if n < 0 then -n else n;
    DigitsAreDigits(m);
    assert "" + Digits(m) == Digits(m) && "" + ("-" + Digits(m)) == "-" + Digits(m);
    assert Spelled(Number(n), "", if n < 0 then "-" else "", Digits(m), n);
    RoomIdIff(Number(n), n);
  }
}
