/** The database executor: what one task does to the database and which requests it sends to the registry,
    in order. */
module Executor {
  import opened Text
  import opened Numbers
  import opened Ordering
  import opened Codec
  import opened Connections
  import opened Tasks
  import T = Tables
  import opened DbService
  import opened Registry

  /** What is outside the task's control: whether its own transaction fails, whether each of the two
      room-list reloads after it fails, the identity gap, the time, how times are printed, and the order in
      which pending friend requests were created. */
  datatype Chance = Chance(failure: Option<T.DbError>, reload: Option<T.DbError>, reload2: Option<T.DbError>,
                           gap: nat, at: int, clock: int -> string, order: seq<string>)

  datatype Effect = Effect(db: T.Db, requests: seq<Request>)

  function Reply(fd: int, text: string): Request {
    SendOne(fd, Response(text))
  }

  function Replies(fd: int, texts: seq<string>): seq<Request> {
    seq(|texts|, i requires 0 <= i < |texts| => Reply(fd, texts[i]))
  }

  /** The room list of a user as the database returns it. */
  ghost function RoomList(db: T.Db, user: string): seq<int> {
    SortedList(Below, T.RoomsOf(db, user))
  }

  function LoggedOut(fd: int): seq<Request> {
    [SetUserId(fd, ""), SetJoinedRooms(fd, []), ChangeNickname(fd, "guest")]
  }

  ghost function LoginEffect(db: T.Db, id: string, pw: string, fd: int, c: Chance): Effect {
    if c.failure.Some? then Effect(db, [Reply(fd, "login failed")] + LoggedOut(fd))
    else if id !in db.users || db.users[id].pw != pw then Effect(db, LoggedOut(fd) + [Reply(fd, "login failed")])
    else if c.reload.Some? then Effect(db, [Reply(fd, "login failed")] + LoggedOut(fd))
    else Effect(db, [SetUserId(fd, id), SetJoinedRooms(fd, RoomList(db, id)),
                     ChangeNickname(fd, db.users[id].nickname), Reply(fd, "login success")])
  }

  function SignupEffect(db: T.Db, id: string, pw: string, fd: int, c: Chance): Effect {
    if c.failure.Some? then Effect(db, [Reply(fd, "register failed")])
    else
      var o := T.SignupTxn(db, id, pw);
      Effect(o.db, [Reply(fd, if o.result == Ok(true) then "register success" else "id already exists")])
  }

  function SayEffect(db: T.Db, roomId: Option<int>, text: string, fd: int, user: string, c: Chance): Effect {
    if user == "" then Effect(db, [Reply(fd, "login first")])
    else match roomId
      case None => Effect(db, [Reply(fd, "invalid room id")])
      case Some(id) =>
        var o := T.CreateMessageTxn(db, id, user, text, c.gap, c.at);
        if c.failure.Some? then Effect(db, [Reply(fd, "send failed")])
        else if o.result.Err? then Effect(db, [Reply(fd, "send failed")])
        else if o.result.value.None? then Effect(db, [Reply(fd, "room not found or no permission")])
        else Effect(o.db, [RoomBroadcast(fd, id, Response(text))])
  }

  function NickEffect(db: T.Db, nick: string, fd: int, user: string, c: Chance): Effect {
    if user == "" then Effect(db, [Reply(fd, "login first")])
    else if c.failure.Some? || user !in db.users then Effect(db, [Reply(fd, "nick change failed")])
    else Effect(T.ChangeNicknameTxn(db, user, nick).db, [ChangeNickname(fd, nick), Reply(fd, "nick change success")])
  }

  /** A transaction that answers yes or no, each answer with its reply. */
  function YesNo(db: T.Db, o: T.Outcome<bool>, fd: int, c: Chance, failed: string, no: string, yes: string): Effect {
    if c.failure.Some? || o.result.Err? then Effect(db, [Reply(fd, failed)])
    else if !o.result.value then Effect(db, [Reply(fd, no)])
    else Effect(o.db, [Reply(fd, yes)])
  }

  function FriendRequestEffect(db: T.Db, to: string, fd: int, user: string, c: Chance): Effect {
    if user == "" then Effect(db, [Reply(fd, "login first")])
    else if user == to then Effect(db, [Reply(fd, "cannot request yourself")])
    else YesNo(db, T.RequestFriendTxn(db, user, to), fd, c,
               "friend request failed", "friend request already exists or already friends", "friend request sent")
  }

  function FriendAcceptEffect(db: T.Db, from: string, fd: int, user: string, c: Chance): Effect {
    if user == "" then Effect(db, [Reply(fd, "login first")])
    else YesNo(db, T.AcceptFriendTxn(db, from, user), fd, c,
               "friend request accept failed", "no pending friend request", "friend request accepted")
  }

  function FriendRejectEffect(db: T.Db, from: string, fd: int, user: string, c: Chance): Effect {
    if user == "" then Effect(db, [Reply(fd, "login first")])
    else YesNo(db, T.RejectFriendTxn(db, from, user), fd, c,
               "friend request reject failed", "no pending friend request", "friend request rejected")
  }

  function FriendRemoveEffect(db: T.Db, other: string, fd: int, user: string, c: Chance): Effect {
    if user == "" then Effect(db, [Reply(fd, "login first")])
    else if user == other then Effect(db, [Reply(fd, "cannot remove yourself")])
    else
      YesNo(db, T.RemoveFriendTxn(db, user, other), fd, c, "friend remove failed", "friend not found", "friend removed")
  }

  ghost function ListFriendEffect(db: T.Db, fd: int, user: string, c: Chance): Effect {
    if user == "" then Effect(db, [Reply(fd, "login first")])
    else if c.failure.Some? then Effect(db, [Reply(fd, "friend list failed")])
    else if T.FriendsOf(db, user) == {} then Effect(db, [Reply(fd, "no friends")])
    else
      TextOrder();
      Effect(db, [SendFriendList(fd, SortedList(Less, T.FriendsOf(db, user)))])
  }

  /** Tells a connection, or every connection of a user, the user's rooms, unless the reload fails. */
  ghost function RefreshOne(db: T.Db, fd: int, user: string, failure: Option<T.DbError>): seq<Request> {
    if failure.Some? then [] else [SetJoinedRooms(fd, RoomList(db, user))]
  }

  ghost function RefreshAll(db: T.Db, user: string, failure: Option<T.DbError>): seq<Request> {
    if failure.Some? then [] else [SetJoinedRoomsForUser(user, RoomList(db, user))]
  }

  ghost function CreateRoomEffect(db: T.Db, name: string, fd: int, user: string, c: Chance): Effect {
    if user == "" then Effect(db, [Reply(fd, "login first")])
    else if name == "" then Effect(db, [Reply(fd, "room name is empty")])
    else
      var o := T.CreateRoomTxn(db, user, name, c.gap);
      if c.failure.Some? || o.result.Err? then Effect(db, [Reply(fd, "create room failed")])
      else Effect(o.db, [Reply(fd, "room created: " + Number(o.result.value) + " (" + name + ")")]
                        + RefreshOne(o.db, fd, user, c.reload))
  }

  function Number(n: int): string {
    if n < 0 then "-" + Digits(-n) else Digits(n)
  }

  ghost function DeleteRoomEffect(db: T.Db, roomId: Option<int>, fd: int, user: string, c: Chance): Effect {
    if user == "" then Effect(db, [Reply(fd, "login first")])
    else match roomId
      case None => Effect(db, [Reply(fd, "invalid room id")])
      case Some(id) =>
        var o := T.DeleteRoomTxn(db, user, id);
        if c.failure.Some? || o.result.Err? then Effect(db, [Reply(fd, "delete room failed")])
        else if !o.result.value then Effect(db, [Reply(fd, "room not found or no permission")])
        else Effect(o.db, RefreshOne(o.db, fd, user, c.reload) + [Reply(fd, "room deleted: " + Number(id))])
  }

  ghost function InviteRoomEffect(db: T.Db, roomId: Option<int>, other: string, fd: int, user: string, c: Chance)
    : Effect
  {
    if user == "" then Effect(db, [Reply(fd, "login first")])
    else if user == other then Effect(db, [Reply(fd, "cannot invite yourself")])
    else match roomId
      case None => Effect(db, [Reply(fd, "invalid room id")])
      case Some(id) =>
        var o := T.InviteRoomTxn(db, user, id, other);
        if c.failure.Some? || o.result.Err? then Effect(db, [Reply(fd, "invite room failed")])
        else match o.result.value
          case AlreadyMember => Effect(db, [Reply(fd, "user already in room")])
          case NotFriend => Effect(db, [Reply(fd, "can invite friends only")])
          case InviteNotPermitted => Effect(db, [Reply(fd, "room not found or no permission")])
          case Invited =>
            Effect(o.db, RefreshAll(o.db, user, c.reload) + RefreshAll(o.db, other, c.reload2)
                         + [Reply(fd, "room invite sent: room=" + Number(id) + " user=" + other)])
  }

  ghost function LeaveRoomEffect(db: T.Db, roomId: Option<int>, fd: int, user: string, c: Chance): Effect {
    if user == "" then Effect(db, [Reply(fd, "login first")])
    else match roomId
      case None => Effect(db, [Reply(fd, "invalid room id")])
      case Some(id) =>
        var o := T.LeaveRoomTxn(db, user, id);
        if c.failure.Some? || o.result.Err? then Effect(db, [Reply(fd, "leave room failed")])
        else match o.result.value
          case NotMember => Effect(db, [Reply(fd, "room not found or not joined")])
          case OwnerCannotLeave => Effect(db, [Reply(fd, "room owner cannot leave (delete room instead)")])
          case Left =>
            Effect(o.db, RefreshAll(o.db, user, c.reload) + [Reply(fd, "left room: " + Number(id))])
  }

  ghost function ListFriendRequestEffect(db: T.Db, fd: int, user: string, c: Chance): Effect {
    if user == "" then Effect(db, [Reply(fd, "login first")])
    else if c.failure.Some? then Effect(db, [Reply(fd, "friend requests list failed")])
    else
      var rows := PendingRows(db, user, c.order);
      if rows == [] then Effect(db, [Reply(fd, "no pending friend requests")])
      else Effect(db, [Reply(fd, "pending friend requests: " + Digits(|rows|))] + Replies(fd, FromLines(rows)))
  }

  function FromLines(users: seq<string>): seq<string> {
    seq(|users|, i requires 0 <= i < |users| => "from: " + users[i])
  }

  function RoomLine(room: RoomInfo): string {
    "room: id=" + Number(room.id) + " name=" + room.name + " owner=" + room.owner
    + " members=" + Digits(room.memberCount)
  }

  function RoomLines(rooms: seq<RoomInfo>): seq<string> {
    seq(|rooms|, i requires 0 <= i < |rooms| => RoomLine(rooms[i]))
  }

  ghost function ListRoomEffect(db: T.Db, fd: int, user: string, c: Chance): Effect {
    if user == "" then Effect(db, [Reply(fd, "login first")])
    else if c.failure.Some? then Effect(db, [Reply(fd, "list room failed")])
    else
      var rooms := InfosOf(db, RoomList(db, user));
      if rooms == [] then Effect(db, [Reply(fd, "no rooms")])
      else Effect(db, [Reply(fd, "rooms: " + Digits(|rooms|))] + Replies(fd, RoomLines(rooms)))
  }

  function HistoryLine(m: T.Message, clock: int -> string): string {
    "history: id=" + Number(m.id) + " at=" + clock(m.at) + " from=" + m.sender + " text=" + m.body
  }

  function HistoryLines(ms: seq<T.Message>, clock: int -> string): seq<string> {
    seq(|ms|, i requires 0 <= i < |ms| => HistoryLine(ms[i], clock))
  }

  function HistoryEffect(db: T.Db, roomId: Option<int>, limit: Option<nat>, fd: int, user: string, c: Chance): Effect {
    if user == "" then Effect(db, [Reply(fd, "login first")])
    else if roomId.None? then Effect(db, [Reply(fd, "invalid room id")])
    else if limit.None? then Effect(db, [Reply(fd, "invalid limit (1-100)")])
    else if c.failure.Some? then Effect(db, [Reply(fd, "history query failed")])
    else
      var r := Read(db, user, roomId.value, limit.value);
      if r.None? then Effect(db, [Reply(fd, "room not found or no permission")])
      else HistoryShown(db, roomId.value, r.value, fd, c)
  }

  function HistoryShown(db: T.Db, roomId: int, ms: seq<T.Message>, fd: int, c: Chance): Effect {
    Effect(db, [Reply(fd, "history: room=" + Number(roomId) + " count=" + Digits(|ms|))]
               + Replies(fd, HistoryLines(ms, c.clock)))
  }

  /** Everything one task does. */
  ghost function Execute(db: T.Db, t: Task, c: Chance): Effect {
    match t.cmd
    case Login(id, pw) => LoginEffect(db, id, pw, t.fd, c)
    case Register(id, pw) => SignupEffect(db, id, pw, t.fd, c)
    case Say(roomId, text) => SayEffect(db, ParseRoomId(roomId), text, t.fd, t.userId, c)
    case Nick(nick) => NickEffect(db, nick, t.fd, t.userId, c)
    case FriendRequest(to) => FriendRequestEffect(db, to, t.fd, t.userId, c)
    case FriendAccept(from) => FriendAcceptEffect(db, from, t.fd, t.userId, c)
    case FriendReject(from) => FriendRejectEffect(db, from, t.fd, t.userId, c)
    case FriendRemove(other) => FriendRemoveEffect(db, other, t.fd, t.userId, c)
    case ListFriend => ListFriendEffect(db, t.fd, t.userId, c)
    case CreateRoom(name) => CreateRoomEffect(db, name, t.fd, t.userId, c)
    case DeleteRoom(roomId) => DeleteRoomEffect(db, ParseRoomId(roomId), t.fd, t.userId, c)
    case InviteRoom(roomId, other) => InviteRoomEffect(db, ParseRoomId(roomId), other, t.fd, t.userId, c)
    case LeaveRoom(roomId) => LeaveRoomEffect(db, ParseRoomId(roomId), t.fd, t.userId, c)
    case ListFriendRequest => ListFriendRequestEffect(db, t.fd, t.userId, c)
    case ListRoom => ListRoomEffect(db, t.fd, t.userId, c)
    case History(roomId, limit) => HistoryEffect(db, ParseRoomId(roomId), ParseLimit(limit), t.fd, t.userId, c)
    case Response(_) => Effect(db, [])
  }

  ghost predicate Performed(e: Effect, db: T.Db, before: seq<Request>, after: seq<Request>) {
    db == e.db && after == before + e.requests
  }

  /** The executor as the program runs it: transactions on the service, requests into the registry's queue,
      one after the other. */
  class DbExecutor {
    const service: Service
    const registry: EpollRegistry

    constructor (service: Service, registry: EpollRegistry)
      ensures this.service == service && this.registry == registry
    {
      this.service := service;
      this.registry := registry;
    }

    method Push(req: Request)
      modifies registry`cmdQ
      ensures registry.cmdQ == old(registry.cmdQ) + [req]
    {
      registry.Push(req);
    }

    method LoadJoinedRoomIds(user: string, failure: Option<T.DbError>) returns (r: Result<seq<int>, T.DbError>)
      ensures r == if failure.Some? then Err(failure.value) else Ok(RoomList(service.db, user))
    {
      var rooms := service.ListRooms(user, failure);
      if rooms.Err? { return Err(rooms.error); }
      ListIsUnique(Below, RoomIds(rooms.value), RoomList(service.db, user), T.RoomsOf(service.db, user));
      return Ok(RoomIds(rooms.value));
    }

    method RefreshConnection(fd: int, user: string, failure: Option<T.DbError>)
      modifies registry`cmdQ
      ensures registry.cmdQ == old(registry.cmdQ) + RefreshOne(service.db, fd, user, failure)
    {
      var ids := LoadJoinedRoomIds(user, failure);
      if ids.Ok? { Push(SetJoinedRooms(fd, ids.value)); }
    }

    method RefreshUser(user: string, failure: Option<T.DbError>)
      modifies registry`cmdQ
      ensures registry.cmdQ == old(registry.cmdQ) + RefreshAll(service.db, user, failure)
    {
      var ids := LoadJoinedRoomIds(user, failure);
      if ids.Ok? { Push(SetJoinedRoomsForUser(user, ids.value)); }
    }

    method LogOut(fd: int)
      modifies registry`cmdQ
      ensures registry.cmdQ == old(registry.cmdQ) + LoggedOut(fd)
    {
      Push(SetUserId(fd, ""));
      Push(SetJoinedRooms(fd, []));
      Push(ChangeNickname(fd, "guest"));
    }

    method ExecuteLogin(id: string, pw: string, fd: int, c: Chance)
      modifies registry`cmdQ
      ensures Performed(LoginEffect(service.db, id, pw, fd, c),
                        service.db, old(registry.cmdQ), registry.cmdQ)
    {
      ghost var q := registry.cmdQ;
      var nickname := service.Login(id, pw, c.failure);
      if nickname.Err? {
        Push(Reply(fd, "login failed"));
        LogOut(fd);
        Assoc(q, [Reply(fd, "login failed")], LoggedOut(fd));
        return;
      }
      if nickname.value.None? {
        LogOut(fd);
        Push(Reply(fd, "login failed"));
        Assoc(q, LoggedOut(fd), [Reply(fd, "login failed")]);
        return;
      }
      var ids := LoadJoinedRoomIds(id, c.reload);
      if ids.Err? {
        Push(Reply(fd, "login failed"));
        LogOut(fd);
        Assoc(q, [Reply(fd, "login failed")], LoggedOut(fd));
        return;
      }
      Push(SetUserId(fd, id));
      Push(SetJoinedRooms(fd, ids.value));
      Push(ChangeNickname(fd, nickname.value.value));
      Push(Reply(fd, "login success"));
    }

    method ExecuteSay(roomId: string, text: string, fd: int, user: string, c: Chance)
      modifies service, registry`cmdQ
      ensures Performed(SayEffect(old(service.db), ParseRoomId(roomId), text, fd, user, c),
                        service.db, old(registry.cmdQ), registry.cmdQ)
    {
      if user == "" { Push(Reply(fd, "login first")); return; }
      var id := ParseRoomId(roomId);
      if id.None? { Push(Reply(fd, "invalid room id")); return; }
      var msg := service.CreateRoomMessage(id.value, user, text, c.gap, c.at, c.failure);
      if msg.Err? { Push(Reply(fd, "send failed")); return; }
      if msg.value.None? { Push(Reply(fd, "room not found or no permission")); return; }
      Push(RoomBroadcast(fd, id.value, Response(text)));
    }

    method ExecuteCreateRoom(name: string, fd: int, user: string, c: Chance)
      modifies service, registry`cmdQ
      ensures Performed(CreateRoomEffect(old(service.db), name, fd, user, c),
                        service.db, old(registry.cmdQ), registry.cmdQ)
    {
      ghost var q := registry.cmdQ;
      if user == "" { Push(Reply(fd, "login first")); return; }
      if name == "" { Push(Reply(fd, "room name is empty")); return; }
      var id := service.CreateRoom(user, name, c.gap, c.failure);
      if id.Err? { Push(Reply(fd, "create room failed")); return; }
      var reply := Reply(fd, "room created: " + Number(id.value) + " (" + name + ")");
      Push(reply);
      RefreshConnection(fd, user, c.reload);
      Assoc(q, [reply], RefreshOne(service.db, fd, user, c.reload));
    }

    method ExecuteDeleteRoom(roomId: string, fd: int, user: string, c: Chance)
      modifies service, registry`cmdQ
      ensures Performed(DeleteRoomEffect(old(service.db), ParseRoomId(roomId), fd, user, c),
                        service.db, old(registry.cmdQ), registry.cmdQ)
    {
      ghost var q := registry.cmdQ;
      if user == "" { Push(Reply(fd, "login first")); return; }
      var id := ParseRoomId(roomId);
      if id.None? { Push(Reply(fd, "invalid room id")); return; }
      var deleted := service.DeleteRoom(user, id.value, c.failure);
      if deleted.Err? { Push(Reply(fd, "delete room failed")); return; }
      if !deleted.value { Push(Reply(fd, "room not found or no permission")); return; }
      RefreshConnection(fd, user, c.reload);
      Push(Reply(fd, "room deleted: " + Number(id.value)));
      Assoc(q, RefreshOne(service.db, fd, user, c.reload), [Reply(fd, "room deleted: " + Number(id.value))]);
    }

    method ExecuteInviteRoom(roomId: string, other: string, fd: int, user: string, c: Chance)
      modifies service, registry`cmdQ
      ensures Performed(InviteRoomEffect(old(service.db), ParseRoomId(roomId), other, fd, user, c),
                        service.db, old(registry.cmdQ), registry.cmdQ)
    {
      ghost var q := registry.cmdQ;
      if user == "" { Push(Reply(fd, "login first")); return; }
      if user == other { Push(Reply(fd, "cannot invite yourself")); return; }
      var id := ParseRoomId(roomId);
      if id.None? { Push(Reply(fd, "invalid room id")); return; }
      var result := service.InviteRoom(user, id.value, other, c.failure);
      if result.Err? { Push(Reply(fd, "invite room failed")); return; }
      match result.value
      case AlreadyMember => Push(Reply(fd, "user already in room"));
      case NotFriend => Push(Reply(fd, "can invite friends only"));
      case InviteNotPermitted => Push(Reply(fd, "room not found or no permission"));
      case Invited =>
        RefreshUser(user, c.reload);
        RefreshUser(other, c.reload2);
        var reply := Reply(fd, "room invite sent: room=" + Number(id.value) + " user=" + other);
        Push(reply);
        ghost var a, b := RefreshAll(service.db, user, c.reload), RefreshAll(service.db, other, c.reload2);
        Assoc(q, a, b);
        Assoc(q, a + b, [reply]);
    }

    method ExecuteLeaveRoom(roomId: string, fd: int, user: string, c: Chance)
      modifies service, registry`cmdQ
      ensures Performed(LeaveRoomEffect(old(service.db), ParseRoomId(roomId), fd, user, c),
                        service.db, old(registry.cmdQ), registry.cmdQ)
    {
      ghost var q := registry.cmdQ;
      if user == "" { Push(Reply(fd, "login first")); return; }
      var id := ParseRoomId(roomId);
      if id.None? { Push(Reply(fd, "invalid room id")); return; }
      var result := service.LeaveRoom(user, id.value, c.failure);
      if result.Err? { Push(Reply(fd, "leave room failed")); return; }
      match result.value
      case NotMember => Push(Reply(fd, "room not found or not joined"));
      case OwnerCannotLeave => Push(Reply(fd, "room owner cannot leave (delete room instead)"));
      case Left =>
        RefreshUser(user, c.reload);
        Push(Reply(fd, "left room: " + Number(id.value)));
        Assoc(q, RefreshAll(service.db, user, c.reload), [Reply(fd, "left room: " + Number(id.value))]);
    }

    method ExecuteRegister(id: string, pw: string, fd: int, c: Chance)
      modifies service, registry`cmdQ
      ensures Performed(SignupEffect(old(service.db), id, pw, fd, c), service.db, old(registry.cmdQ), registry.cmdQ)
    {
      var signup := service.Signup(id, pw, c.failure);
      if signup.Err? { Push(Reply(fd, "register failed")); return; }
      Push(Reply(fd, if signup.value then "register success" else "id already exists"));
    }

    method ExecuteNick(nick: string, fd: int, user: string, c: Chance)
      modifies service, registry`cmdQ
      ensures Performed(NickEffect(old(service.db), nick, fd, user, c), service.db, old(registry.cmdQ), registry.cmdQ)
    {
      if user == "" { Push(Reply(fd, "login first")); return; }
      var changed := service.ChangeNickname(user, nick, c.failure);
      if changed.Err? { Push(Reply(fd, "nick change failed")); return; }
      if !changed.value { Push(Reply(fd, "nick change failed")); return; }
      Push(ChangeNickname(fd, nick));
      Push(Reply(fd, "nick change success"));
    }

    method ExecuteFriendRequest(to: string, fd: int, user: string, c: Chance)
      modifies service, registry`cmdQ
      ensures Performed(FriendRequestEffect(old(service.db), to, fd, user, c),
                        service.db, old(registry.cmdQ), registry.cmdQ)
    {
      if user == "" { Push(Reply(fd, "login first")); return; }
      if user == to { Push(Reply(fd, "cannot request yourself")); return; }
      var requested := service.RequestFriend(user, to, c.failure);
      if requested.Err? { Push(Reply(fd, "friend request failed")); return; }
      if !requested.value { Push(Reply(fd, "friend request already exists or already friends")); return; }
      Push(Reply(fd, "friend request sent"));
    }

    method ExecuteFriendAccept(from: string, fd: int, user: string, c: Chance)
      modifies service, registry`cmdQ
      ensures Performed(FriendAcceptEffect(old(service.db), from, fd, user, c),
                        service.db, old(registry.cmdQ), registry.cmdQ)
    {
      if user == "" { Push(Reply(fd, "login first")); return; }
      var accepted := service.AcceptFriendRequest(from, user, c.failure);
      if accepted.Err? { Push(Reply(fd, "friend request accept failed")); return; }
      if !accepted.value { Push(Reply(fd, "no pending friend request")); return; }
      Push(Reply(fd, "friend request accepted"));
    }

    method ExecuteFriendReject(from: string, fd: int, user: string, c: Chance)
      modifies service, registry`cmdQ
      ensures Performed(FriendRejectEffect(old(service.db), from, fd, user, c),
                        service.db, old(registry.cmdQ), registry.cmdQ)
    {
      if user == "" { Push(Reply(fd, "login first")); return; }
      var rejected := service.RejectFriendRequest(from, user, c.failure);
      if rejected.Err? { Push(Reply(fd, "friend request reject failed")); return; }
      if !rejected.value { Push(Reply(fd, "no pending friend request")); return; }
      Push(Reply(fd, "friend request rejected"));
    }

    method ExecuteFriendRemove(other: string, fd: int, user: string, c: Chance)
      modifies service, registry`cmdQ
      ensures Performed(FriendRemoveEffect(old(service.db), other, fd, user, c),
                        service.db, old(registry.cmdQ), registry.cmdQ)
    {
      if user == "" { Push(Reply(fd, "login first")); return; }
      if user == other { Push(Reply(fd, "cannot remove yourself")); return; }
      var removed := service.RemoveFriend(user, other, c.failure);
      if removed.Err? { Push(Reply(fd, "friend remove failed")); return; }
      if !removed.value { Push(Reply(fd, "friend not found")); return; }
      Push(Reply(fd, "friend removed"));
    }

    method ExecuteListFriend(fd: int, user: string, c: Chance)
      modifies registry`cmdQ
      ensures Performed(ListFriendEffect(service.db, fd, user, c), service.db, old(registry.cmdQ), registry.cmdQ)
    {
      if user == "" { Push(Reply(fd, "login first")); return; }
      var friends := service.ListFriends(user, c.failure);
      if friends.Err? { Push(Reply(fd, "friend list failed")); return; }
      TextOrder();
      ListIsUnique(Less, friends.value, SortedList(Less, T.FriendsOf(service.db, user)), T.FriendsOf(service.db, user));
      if friends.value == [] {
        NothingListed(Less, T.FriendsOf(service.db, user));
        Push(Reply(fd, "no friends"));
        return;
      }
      assert friends.value[0] in T.FriendsOf(service.db, user);
      Push(SendFriendList(fd, friends.value));
    }

    /** One reply a line. */
    method PushAll(fd: int, texts: seq<string>)
      modifies registry`cmdQ
      ensures registry.cmdQ == old(registry.cmdQ) + Replies(fd, texts)
    {
      for i := 0 to |texts|
        invariant registry.cmdQ == old(registry.cmdQ) + Replies(fd, texts)[..i]
      {
        Push(Reply(fd, texts[i]));
      }
    }

    method ExecuteListFriendRequest(fd: int, user: string, c: Chance)
      modifies registry`cmdQ
      ensures Performed(ListFriendRequestEffect(service.db, fd, user, c), service.db, old(registry.cmdQ), registry.cmdQ)
    {
      ghost var q := registry.cmdQ;
      if user == "" { Push(Reply(fd, "login first")); return; }
      var rows := service.ListFriendRequests(user, c.order, c.failure);
      if rows.Err? { Push(Reply(fd, "friend requests list failed")); return; }
      if rows.value == [] { Push(Reply(fd, "no pending friend requests")); return; }
      var header := Reply(fd, "pending friend requests: " + Digits(|rows.value|));
      Push(header);
      PushAll(fd, FromLines(rows.value));
      Assoc(q, [header], Replies(fd, FromLines(rows.value)));
    }

    method ExecuteListRoom(fd: int, user: string, c: Chance)
      modifies registry`cmdQ
      ensures Performed(ListRoomEffect(service.db, fd, user, c), service.db, old(registry.cmdQ), registry.cmdQ)
    {
      ghost var q := registry.cmdQ;
      if user == "" { Push(Reply(fd, "login first")); return; }
      var rooms := service.ListRooms(user, c.failure);
      if rooms.Err? { Push(Reply(fd, "list room failed")); return; }
      ListIsUnique(Below, RoomIds(rooms.value), RoomList(service.db, user), T.RoomsOf(service.db, user));
      InfosAreUnique(service.db, rooms.value);
      if rooms.value == [] { Push(Reply(fd, "no rooms")); return; }
      var header := Reply(fd, "rooms: " + Digits(|rooms.value|));
      Push(header);
      PushAll(fd, RoomLines(rooms.value));
      Assoc(q, [header], Replies(fd, RoomLines(rooms.value)));
    }

    method ExecuteHistory(roomId: string, limit: string, fd: int, user: string, c: Chance)
      modifies registry`cmdQ
      ensures Performed(HistoryEffect(service.db, ParseRoomId(roomId), ParseLimit(limit), fd, user, c),
                        service.db, old(registry.cmdQ), registry.cmdQ)
    {
      ghost var q := registry.cmdQ;
      if user == "" { Push(Reply(fd, "login first")); return; }
      var id := ParseRoomId(roomId);
      if id.None? { Push(Reply(fd, "invalid room id")); return; }
      var count := ParseLimit(limit);
      if count.None? { Push(Reply(fd, "invalid limit (1-100)")); return; }
      var history := service.ListRoomMessages(user, id.value, count.value, c.failure);
      if history.Err? { Push(Reply(fd, "history query failed")); return; }
      if history.value.None? { Push(Reply(fd, "room not found or no permission")); return; }
      var ms := history.value.value;
      var header := Reply(fd, "history: room=" + Number(id.value) + " count=" + Digits(|ms|));
      Push(header);
      PushAll(fd, HistoryLines(ms, c.clock));
      Assoc(q, [header], Replies(fd, HistoryLines(ms, c.clock)));
    }

    method RunRoomQuery(t: Task, c: Chance)
      requires t.cmd.ListRoom? || t.cmd.History?
      modifies service, registry`cmdQ
      ensures Performed(Execute(old(service.db), t, c), service.db, old(registry.cmdQ), registry.cmdQ)
    {
      match t.cmd
      case ListRoom => ExecuteListRoom(t.fd, t.userId, c);
      case History(roomId, limit) => ExecuteHistory(roomId, limit, t.fd, t.userId, c);
    }

    method RunRoomTask(t: Task, c: Chance)
      requires t.cmd.Say? || t.cmd.CreateRoom? || t.cmd.DeleteRoom?
      modifies service, registry`cmdQ
      ensures Performed(Execute(old(service.db), t, c), service.db, old(registry.cmdQ), registry.cmdQ)
    {
      match t.cmd
      case Say(roomId, text) => ExecuteSay(roomId, text, t.fd, t.userId, c);
      case CreateRoom(name) => ExecuteCreateRoom(name, t.fd, t.userId, c);
      case DeleteRoom(roomId) => ExecuteDeleteRoom(roomId, t.fd, t.userId, c);
    }

    method RunMemberTask(t: Task, c: Chance)
      requires t.cmd.InviteRoom? || t.cmd.LeaveRoom?
      modifies service, registry`cmdQ
      ensures Performed(Execute(old(service.db), t, c), service.db, old(registry.cmdQ), registry.cmdQ)
    {
      match t.cmd
      case InviteRoom(roomId, other) => ExecuteInviteRoom(roomId, other, t.fd, t.userId, c);
      case LeaveRoom(roomId) => ExecuteLeaveRoom(roomId, t.fd, t.userId, c);
    }

    /** One turn of the worker loop: the task's command decides. */
    method Run(t: Task, c: Chance)
      modifies service, registry`cmdQ
      ensures Performed(Execute(old(service.db), t, c), service.db, old(registry.cmdQ), registry.cmdQ)
    {
      match t.cmd
      case Login(id, pw) => ExecuteLogin(id, pw, t.fd, c);
      case Register(id, pw) => ExecuteRegister(id, pw, t.fd, c);
      case Nick(nick) => ExecuteNick(nick, t.fd, t.userId, c);
      case FriendRequest(to) => ExecuteFriendRequest(to, t.fd, t.userId, c);
      case FriendAccept(from) => ExecuteFriendAccept(from, t.fd, t.userId, c);
      case FriendReject(from) => ExecuteFriendReject(from, t.fd, t.userId, c);
      case FriendRemove(other) => ExecuteFriendRemove(other, t.fd, t.userId, c);
      case ListFriend => ExecuteListFriend(t.fd, t.userId, c);
      case ListFriendRequest => ExecuteListFriendRequest(t.fd, t.userId, c);
      case Response(_) =>
      case ListRoom => RunRoomQuery(t, c);
      case History(_, _) => RunRoomQuery(t, c);
      case InviteRoom(_, _) => RunMemberTask(t, c);
      case LeaveRoom(_) => RunMemberTask(t, c);
      case _ => RunRoomTask(t, c);
    }
  }
}
