/** What the registry knows of one connection - its user and its rooms - as a fold over the requests sent to it,
    and how one task changes it. */
module Cells {
  import opened Text
  import opened Numbers
  import opened Ordering
  import opened Codec
  import opened Connections
  import opened Tasks
  import opened Executor
  import T = Tables

  datatype Cell = Cell(user: string, rooms: set<int>)

  const UNKNOWN := Cell("", {})

  function CellOf(c: Conn): Cell {
    Cell(c.userId, c.joined)
  }

  function CellStep(c: Cell, req: Request, fd: int): Cell {
    match req
    case SetUserId(f, user) => if f == fd then Cell(user, {}) else c
    case SetJoinedRooms(f, ids) => if f == fd then c.(rooms := PositiveIds(ids)) else c
    case SetJoinedRoomsForUser(user, ids) => if c.user == user && user != "" then c.(rooms := PositiveIds(ids)) else c
    case _ => c
  }

  function Fold(c: Cell, reqs: seq<Request>, fd: int): Cell {
    if reqs == [] then c else CellStep(Fold(c, reqs[..|reqs| - 1], fd), reqs[|reqs| - 1], fd)
  }

  lemma {:induction false} FoldAppend(c: Cell, a: seq<Request>, b: seq<Request>, fd: int)
    ensures Fold(c, a + b, fd) == Fold(Fold(c, a, fd), b, fd)
  {
    if b == [] {
      assert a + b == a;
    } else {
      assert (a + b)[..|a + b| - 1] == a + b[..|b| - 1];
      FoldAppend(c, a, b[..|b| - 1], fd);
    }
  }

  lemma FoldOne(c: Cell, req: Request, fd: int)
    ensures Fold(c, [req], fd) == CellStep(c, req, fd)
  {
    assert [req][..0] == [];
  }

  predicate Neutral(req: Request) {
    !req.SetUserId? && !req.SetJoinedRooms? && !req.SetJoinedRoomsForUser?
  }

  lemma {:induction false} FoldNeutral(c: Cell, reqs: seq<Request>, fd: int)
    requires forall i :: 0 <= i < |reqs| ==> Neutral(reqs[i])
    ensures Fold(c, reqs, fd) == c
  {
    if reqs != [] {
      FoldNeutral(c, reqs[..|reqs| - 1], fd);
    }
  }

  lemma {:induction false} AppendedAllKeepsCell(c: Conn, cmds: seq<Command>)
    ensures CellOf(AppendedAll(c, cmds)) == CellOf(c)
  {
    if cmds != [] {
      AppendedAllKeepsCell(c, cmds[..|cmds| - 1]);
    }
  }

  /** Handling a request changes a connection's user and rooms exactly as the fold says,
      and a new connection starts unknown. */
  lemma HandleCell(t: Table, req: Request, k: Kernel, fd: int)
    requires fd in Handle(t, req, k)
    ensures fd in t ==> CellOf(Handle(t, req, k)[fd]) == CellStep(CellOf(t[fd]), req, fd)
    ensures fd !in t ==> req.RegisterFd? && req.fd == fd && CellOf(Handle(t, req, k)[fd]) == UNKNOWN
  {
    if req.SendFriendList? && req.fd in t {
      var header := Response("friends: " + Digits(|req.friendIds|));
      AppendedAllKeepsCell(t[req.fd], [header] + FriendLines(t, req.friendIds));
    }
  }

  // ---------------------------------------------------------------- what a cell should be

  /** Every existing room in the cell has its user as a member; and no room that does not exist yet is in it. */
  ghost predicate Fits(db: T.Db, c: Cell) {
    && (c.user == "" ==> c.rooms == {})
    && forall r :: r in c.rooms ==> r < db.nextRoom && (r in db.rooms ==> (r, c.user) in db.members)
  }

  /** Every room of the cell's user is in it. */
  ghost predicate Covers(db: T.Db, c: Cell) {
    c.user != "" ==> T.RoomsOf(db, c.user) <= c.rooms
  }

  lemma RoomListIsRooms(db: T.Db, user: string)
    requires T.Sound(db)
    ensures PositiveIds(RoomList(db, user)) == T.RoomsOf(db, user)
  {
    var ids := RoomList(db, user);
    assert Lists(Below, ids, T.RoomsOf(db, user));
  }

  predicate FieldsNotEmpty(cmd: Command) {
    forall f :: f in Fields(cmd) ==> f != ""
  }

  // ---------------------------------------------------------------- effects, request by request

  lemma RefreshOneFolds(db: T.Db, c: Cell, fd: int, user: string, failure: Option<T.DbError>, g: int)
    requires T.Sound(db)
    ensures Fold(c, RefreshOne(db, fd, user, failure), g) ==
      if failure.None? && g == fd then c.(rooms := T.RoomsOf(db, user)) else c
  {
    RoomListIsRooms(db, user);
    FoldOne(c, SetJoinedRooms(fd, RoomList(db, user)), g);
  }

  lemma RefreshAllFolds(db: T.Db, c: Cell, user: string, failure: Option<T.DbError>, g: int)
    requires T.Sound(db)
    ensures Fold(c, RefreshAll(db, user, failure), g) ==
      if failure.None? && c.user == user && user != "" then c.(rooms := T.RoomsOf(db, user)) else c
  {
    RoomListIsRooms(db, user);
    FoldOne(c, SetJoinedRoomsForUser(user, RoomList(db, user)), g);
  }

  /** The requests of a task that matter to cells, and the database they leave behind. */
  datatype Change =
    | NoChange
    | LoggedIn(user: string)
    | LoggedOff
    | Reload(user: string)      // this connection's list
    | ReloadUser(user: string)  // the lists of all connections of a user
    | ReloadUsers(user: string, other: string, first: bool, second: bool)

  function Changed(db: T.Db, c: Cell, ch: Change, fd: int, g: int): Cell {
    match ch
    case NoChange => c
    case LoggedIn(user) => if g == fd then Cell(user, T.RoomsOf(db, user)) else c
    case LoggedOff => if g == fd then UNKNOWN else c
    case Reload(user) => if g == fd then c.(rooms := T.RoomsOf(db, user)) else c
    case ReloadUser(user) => if c.user == user && user != "" then c.(rooms := T.RoomsOf(db, user)) else c
    case ReloadUsers(user, other, first, second) =>
      if (first && c.user == user && user != "") || (second && c.user == other && other != "")
      then c.(rooms := T.RoomsOf(db, c.user)) else c
  }

  ghost function LoginChange(db: T.Db, id: string, pw: string, c: Chance): Change {
    if c.failure.None? && c.reload.None? && id in db.users && db.users[id].pw == pw then LoggedIn(id) else LoggedOff
  }

  ghost function CreateChange(db: T.Db, name: string, user: string, c: Chance): Change {
    if user != "" && name != "" && c.failure.None? && c.reload.None? && user in db.users then Reload(user) else NoChange
  }

  ghost function DeleteChange(db: T.Db, roomId: Option<int>, user: string, c: Chance): Change {
    if user != "" && roomId.Some? && c.failure.None? && c.reload.None?
       && roomId.value in db.rooms && db.rooms[roomId.value].owner == user
    then Reload(user) else NoChange
  }

  ghost function InviteChange(db: T.Db, roomId: Option<int>, other: string, user: string, c: Chance): Change {
    if user != "" && user != other && roomId.Some? && c.failure.None?
       && T.InviteRoomTxn(db, user, roomId.value, other).result == Ok(T.Invited)
    then ReloadUsers(user, other, c.reload.None?, c.reload2.None?) else NoChange
  }

  ghost function LeaveChange(db: T.Db, roomId: Option<int>, user: string, c: Chance): Change {
    if user != "" && roomId.Some? && c.failure.None? && c.reload.None?
       && T.LeaveRoomTxn(db, user, roomId.value).result == Ok(T.Left)
    then ReloadUser(user) else NoChange
  }

  ghost function ChangeOf(db: T.Db, t: Task, c: Chance): Change {
    match t.cmd
    case Login(id, pw) => LoginChange(db, id, pw, c)
    case CreateRoom(name) => CreateChange(db, name, t.userId, c)
    case DeleteRoom(roomId) => DeleteChange(db, ParseRoomId(roomId), t.userId, c)
    case InviteRoom(roomId, other) => InviteChange(db, ParseRoomId(roomId), other, t.userId, c)
    case LeaveRoom(roomId) => LeaveChange(db, ParseRoomId(roomId), t.userId, c)
    case _ => NoChange
  }

  lemma LoginFolds(db: T.Db, id: string, pw: string, fd: int, ch: Chance, c: Cell, g: int)
    requires T.Sound(db)
    ensures var e := LoginEffect(db, id, pw, fd, ch);
      Fold(c, e.requests, g) == Changed(e.db, c, LoginChange(db, id, pw, ch), fd, g)
  {
    assert PositiveIds([]) == {};
    var off := LoggedOut(fd);
    var failed := Reply(fd, "login failed");
    FoldSome(c, SetUserId(fd, ""), SetJoinedRooms(fd, []), ChangeNickname(fd, "guest"), g);
    FoldAppend(c, [failed], off, g);
    FoldOne(c, failed, g);
    FoldAppend(c, off, [failed], g);
    FoldOne(Fold(c, off, g), failed, g);
    if LoginChange(db, id, pw, ch).LoggedIn? {
      RoomListIsRooms(db, id);
      var nick := ChangeNickname(fd, db.users[id].nickname);
      var on := [SetUserId(fd, id), SetJoinedRooms(fd, RoomList(db, id)), nick];
      FoldSome(c, on[0], on[1], on[2], g);
      var done := Reply(fd, "login success");
      FoldAppend(c, on, [done], g);
      FoldOne(Fold(c, on, g), done, g);
      assert on + [done] == LoginEffect(db, id, pw, fd, ch).requests;
    }
  }

  lemma FoldSome(c: Cell, a: Request, b: Request, d: Request, g: int)
    ensures Fold(c, [a, b, d], g) == CellStep(CellStep(CellStep(c, a, g), b, g), d, g)
  {
    assert [a, b, d] == [a, b] + [d] && [a, b] == [a] + [b];
    FoldAppend(c, [a, b], [d], g);
    FoldAppend(c, [a], [b], g);
    FoldOne(c, a, g);
    FoldOne(CellStep(c, a, g), b, g);
    FoldOne(CellStep(CellStep(c, a, g), b, g), d, g);
  }

  ghost predicate AllNeutral(reqs: seq<Request>) {
    forall i :: 0 <= i < |reqs| ==> Neutral(reqs[i])
  }

  lemma CreateRoomShape(db: T.Db, name: string, fd: int, user: string, ch: Chance)
    ensures var e := CreateRoomEffect(db, name, fd, user, ch);
      if CreateChange(db, name, user, ch).NoChange? then AllNeutral(e.requests)
      else
        var o := T.CreateRoomTxn(db, user, name, ch.gap);
        o.result.Ok? && e == Effect(o.db, [Reply(fd, "room created: " + Number(o.result.value) + " (" + name + ")")]
                                          + RefreshOne(o.db, fd, user, ch.reload))
  {}

  lemma CreateRoomFolds(db: T.Db, name: string, fd: int, user: string, ch: Chance, c: Cell, g: int)
    requires T.Sound(db)
    ensures var e := CreateRoomEffect(db, name, fd, user, ch);
      Fold(c, e.requests, g) == Changed(e.db, c, CreateChange(db, name, user, ch), fd, g)
  {
    var e := CreateRoomEffect(db, name, fd, user, ch);
    CreateRoomShape(db, name, fd, user, ch);
    if CreateChange(db, name, user, ch).NoChange? {
      FoldNeutral(c, e.requests, g);
    } else {
      T.CommitKeepsSound(db, T.CreateRoom(user, name, ch.gap));
      ReplyThenRefresh(e.requests[0], RefreshOne(e.db, fd, user, ch.reload), c, g);
      RefreshOneFolds(e.db, c, fd, user, ch.reload, g);
    }
  }

  lemma ReplyThenRefresh(reply: Request, refresh: seq<Request>, c: Cell, g: int)
    requires reply.SendOne?
    ensures Fold(c, [reply] + refresh, g) == Fold(c, refresh, g)
  {
    FoldAppend(c, [reply], refresh, g);
    FoldOne(c, reply, g);
  }

  /** A refresh followed by a reply. */
  lemma RefreshThenReply(db: T.Db, refresh: seq<Request>, fd: int, text: string, c: Cell, g: int)
    ensures Fold(c, refresh + [Reply(fd, text)], g) == Fold(c, refresh, g)
  {
    FoldAppend(c, refresh, [Reply(fd, text)], g);
    FoldOne(Fold(c, refresh, g), Reply(fd, text), g);
  }

  lemma DeleteRoomShape(db: T.Db, roomId: Option<int>, fd: int, user: string, ch: Chance)
    ensures var e := DeleteRoomEffect(db, roomId, fd, user, ch);
      if DeleteChange(db, roomId, user, ch).NoChange? then AllNeutral(e.requests)
      else e == Effect(T.DeleteRoomTxn(db, user, roomId.value).db,
                       RefreshOne(T.DeleteRoomTxn(db, user, roomId.value).db, fd, user, ch.reload)
                       + [Reply(fd, "room deleted: " + Number(roomId.value))])
  {}

  lemma DeleteRoomFolds(db: T.Db, roomId: Option<int>, fd: int, user: string, ch: Chance, c: Cell, g: int)
    requires T.Sound(db)
    ensures var e := DeleteRoomEffect(db, roomId, fd, user, ch);
      Fold(c, e.requests, g) == Changed(e.db, c, DeleteChange(db, roomId, user, ch), fd, g)
  {
    var e := DeleteRoomEffect(db, roomId, fd, user, ch);
    DeleteRoomShape(db, roomId, fd, user, ch);
    if DeleteChange(db, roomId, user, ch).NoChange? {
      FoldNeutral(c, e.requests, g);
    } else {
      var id := roomId.value;
      T.CommitKeepsSound(db, T.DeleteRoom(user, id));
      RefreshThenReply(e.db, RefreshOne(e.db, fd, user, ch.reload), fd, "room deleted: " + Number(id), c, g);
      RefreshOneFolds(e.db, c, fd, user, ch.reload, g);
    }
  }

  lemma InviteRoomShape(db: T.Db, roomId: Option<int>, other: string, fd: int, user: string, ch: Chance)
    ensures var e := InviteRoomEffect(db, roomId, other, fd, user, ch);
      if InviteChange(db, roomId, other, user, ch).NoChange? then AllNeutral(e.requests)
      else
        var db' := T.InviteRoomTxn(db, user, roomId.value, other).db;
        e == Effect(db', RefreshAll(db', user, ch.reload) + RefreshAll(db', other, ch.reload2)
                         + [Reply(fd, "room invite sent: room=" + Number(roomId.value) + " user=" + other)])
  {}

  lemma TwoRefreshes(db: T.Db, user: string, other: string, f: Option<T.DbError>, f2: Option<T.DbError>, c: Cell,
                     fd: int, g: int)
    requires T.Sound(db)
    ensures Fold(c, RefreshAll(db, user, f) + RefreshAll(db, other, f2), g) ==
      Changed(db, c, ReloadUsers(user, other, f.None?, f2.None?), fd, g)
  {
    var first := RefreshAll(db, user, f);
    FoldAppend(c, first, RefreshAll(db, other, f2), g);
    RefreshAllFolds(db, c, user, f, g);
    RefreshAllFolds(db, Fold(c, first, g), other, f2, g);
  }

  lemma InviteRoomFolds(db: T.Db, roomId: Option<int>, other: string, fd: int, user: string, ch: Chance, c: Cell,
                        g: int)
    requires T.Sound(db)
    ensures var e := InviteRoomEffect(db, roomId, other, fd, user, ch);
      Fold(c, e.requests, g) == Changed(e.db, c, InviteChange(db, roomId, other, user, ch), fd, g)
  {
    var e := InviteRoomEffect(db, roomId, other, fd, user, ch);
    InviteRoomShape(db, roomId, other, fd, user, ch);
    if InviteChange(db, roomId, other, user, ch).NoChange? {
      FoldNeutral(c, e.requests, g);
    } else {
      var id := roomId.value;
      T.CommitKeepsSound(db, T.InviteRoom(user, id, other));
      var refresh := RefreshAll(e.db, user, ch.reload) + RefreshAll(e.db, other, ch.reload2);
      RefreshThenReply(e.db, refresh, fd, "room invite sent: room=" + Number(id) + " user=" + other, c, g);
      TwoRefreshes(e.db, user, other, ch.reload, ch.reload2, c, fd, g);
    }
  }

  lemma LeaveRoomShape(db: T.Db, roomId: Option<int>, fd: int, user: string, ch: Chance)
    ensures var e := LeaveRoomEffect(db, roomId, fd, user, ch);
      if LeaveChange(db, roomId, user, ch).NoChange? then AllNeutral(e.requests)
      else e == Effect(T.LeaveRoomTxn(db, user, roomId.value).db,
                       RefreshAll(T.LeaveRoomTxn(db, user, roomId.value).db, user, ch.reload)
                       + [Reply(fd, "left room: " + Number(roomId.value))])
  {}

  lemma LeaveRoomFolds(db: T.Db, roomId: Option<int>, fd: int, user: string, ch: Chance, c: Cell, g: int)
    requires T.Sound(db)
    ensures var e := LeaveRoomEffect(db, roomId, fd, user, ch);
      Fold(c, e.requests, g) == Changed(e.db, c, LeaveChange(db, roomId, user, ch), fd, g)
  {
    var e := LeaveRoomEffect(db, roomId, fd, user, ch);
    LeaveRoomShape(db, roomId, fd, user, ch);
    if LeaveChange(db, roomId, user, ch).NoChange? {
      FoldNeutral(c, e.requests, g);
    } else {
      var id := roomId.value;
      T.CommitKeepsSound(db, T.LeaveRoom(user, id));
      RefreshThenReply(e.db, RefreshAll(e.db, user, ch.reload), fd, "left room: " + Number(id), c, g);
      RefreshAllFolds(e.db, c, user, ch.reload, g);
    }
  }

  predicate TouchesRooms(cmd: Command) {
    cmd.Login? || cmd.CreateRoom? || cmd.DeleteRoom? || cmd.InviteRoom? || cmd.LeaveRoom?
  }

  predicate IsList(cmd: Command) {
    cmd.ListFriendRequest? || cmd.ListRoom? || cmd.History?
  }

  /** Lists only answer. */
  lemma ListsOnlyReply(db: T.Db, t: Task, ch: Chance)
    requires IsList(t.cmd)
    ensures var e := Execute(db, t, ch); e.db == db && forall i :: 0 <= i < |e.requests| ==> e.requests[i].SendOne?
  {
    match t.cmd {
      case ListFriendRequest => case ListRoom => case History(_, _) =>
    }
  }

  predicate IsFriendTask(cmd: Command) {
    cmd.FriendRequest? || cmd.FriendAccept? || cmd.FriendReject? || cmd.FriendRemove?
  }

  lemma FriendTasksOnlyReply(db: T.Db, t: Task, ch: Chance)
    requires IsFriendTask(t.cmd)
    ensures forall i :: 0 <= i < |Execute(db, t, ch).requests| ==> Execute(db, t, ch).requests[i].SendOne?
  {
    match t.cmd {
      case FriendRequest(_) => case FriendAccept(_) => case FriendReject(_) => case FriendRemove(_) =>
    }
  }

  lemma OthersAreNeutral(db: T.Db, t: Task, ch: Chance)
    requires !TouchesRooms(t.cmd)
    ensures forall i :: 0 <= i < |Execute(db, t, ch).requests| ==> Neutral(Execute(db, t, ch).requests[i])
  {
    match t.cmd {
      case ListFriendRequest => ListsOnlyReply(db, t, ch);
      case ListRoom => ListsOnlyReply(db, t, ch);
      case History(_, _) => ListsOnlyReply(db, t, ch);
      case Register(_, _) => case Say(_, _) => case Nick(_) =>
      case ListFriend => case Response(_) =>
      case _ => FriendTasksOnlyReply(db, t, ch);
    }
  }

  /** What any task does to what the registry will know of any connection, once its requests are handled. */
  lemma TaskFolds(db: T.Db, t: Task, ch: Chance, c: Cell, g: int)
    requires T.Sound(db)
    ensures Fold(c, Execute(db, t, ch).requests, g) == Changed(Execute(db, t, ch).db, c, ChangeOf(db, t, ch), t.fd, g)
  {
    match t.cmd {
      case Login(id, pw) => LoginFolds(db, id, pw, t.fd, ch, c, g);
      case CreateRoom(name) => CreateRoomFolds(db, name, t.fd, t.userId, ch, c, g);
      case DeleteRoom(roomId) => DeleteRoomFolds(db, ParseRoomId(roomId), t.fd, t.userId, ch, c, g);
      case InviteRoom(roomId, other) => InviteRoomFolds(db, ParseRoomId(roomId), other, t.fd, t.userId, ch, c, g);
      case LeaveRoom(roomId) => LeaveRoomFolds(db, ParseRoomId(roomId), t.fd, t.userId, ch, c, g);
      case _ =>
        OthersAreNeutral(db, t, ch);
        FoldNeutral(c, Execute(db, t, ch).requests, g);
    }
  }

  // ---------------------------------------------------------------- the database side

  /** A task of somebody logged in, whose transaction does not fail, commits it. */
  function Acting(user: string, c: Chance, txn: T.Txn): Option<T.Txn> {
    if user == "" || c.failure.Some? then None else Some(txn)
  }

  function ActingOn(roomId: Option<int>, user: string, c: Chance, txn: int -> T.Txn): Option<T.Txn> {
    if roomId.None? then None else Acting(user, c, txn(roomId.value))
  }

  function TxnOf(t: Task, c: Chance): Option<T.Txn> {
    var u := t.userId;
    match t.cmd
    case Register(id, pw) => if c.failure.None? then Some(T.Signup(id, pw)) else None
    case Say(roomId, text) => ActingOn(ParseRoomId(roomId), u, c, id => T.CreateMessage(id, u, text, c.gap, c.at))
    case Nick(nick) => Acting(u, c, T.ChangeNickname(u, nick))
    case FriendRequest(to) => if u == to then None else Acting(u, c, T.RequestFriend(u, to))
    case FriendAccept(from) => Acting(u, c, T.AcceptFriend(from, u))
    case FriendReject(from) => Acting(u, c, T.RejectFriend(from, u))
    case FriendRemove(other) => if u == other then None else Acting(u, c, T.RemoveFriend(u, other))
    case CreateRoom(name) => if name == "" then None else Acting(u, c, T.CreateRoom(u, name, c.gap))
    case DeleteRoom(roomId) => ActingOn(ParseRoomId(roomId), u, c, id => T.DeleteRoom(u, id))
    case InviteRoom(roomId, other) =>
      if u == other then None else ActingOn(ParseRoomId(roomId), u, c, id => T.InviteRoom(u, id, other))
    case LeaveRoom(roomId) => ActingOn(ParseRoomId(roomId), u, c, id => T.LeaveRoom(u, id))
    case _ => None
  }

  lemma OwnerTaskCommits(db: T.Db, t: Task, c: Chance)
    requires t.cmd.CreateRoom? || t.cmd.DeleteRoom? || t.cmd.Say?
    ensures Execute(db, t, c).db == match TxnOf(t, c) case None => db case Some(txn) => T.Commit(db, txn)
  {
    match t.cmd {
      case CreateRoom(_) => case DeleteRoom(_) => case Say(_, _) =>
    }
  }

  lemma InviteTaskCommits(db: T.Db, t: Task, c: Chance)
    requires t.cmd.InviteRoom?
    ensures Execute(db, t, c).db == match TxnOf(t, c) case None => db case Some(txn) => T.Commit(db, txn)
  {
    match t.cmd {
      case InviteRoom(_, _) =>
    }
  }

  lemma LeaveTaskCommits(db: T.Db, t: Task, c: Chance)
    requires t.cmd.LeaveRoom?
    ensures Execute(db, t, c).db == match TxnOf(t, c) case None => db case Some(txn) => T.Commit(db, txn)
  {
    match t.cmd {
      case LeaveRoom(_) =>
    }
  }

  lemma AskTaskCommits(db: T.Db, t: Task, c: Chance)
    requires t.cmd.FriendRequest? || t.cmd.FriendRemove?
    ensures Execute(db, t, c).db == match TxnOf(t, c) case None => db case Some(txn) => T.Commit(db, txn)
  {
    match t.cmd {
      case FriendRequest(_) => case FriendRemove(_) =>
    }
  }

  lemma AnswerTaskCommits(db: T.Db, t: Task, c: Chance)
    requires t.cmd.FriendAccept? || t.cmd.FriendReject?
    ensures Execute(db, t, c).db == match TxnOf(t, c) case None => db case Some(txn) => T.Commit(db, txn)
  {
    match t.cmd {
      case FriendAccept(_) => case FriendReject(_) =>
    }
  }

  /** A task commits at most one transaction, and it acts as the user the task was sent by. */
  lemma TaskCommits(db: T.Db, t: Task, c: Chance)
    ensures Execute(db, t, c).db == match TxnOf(t, c) case None => db case Some(txn) => T.Commit(db, txn)
  {
    match t.cmd {
      case CreateRoom(_) => OwnerTaskCommits(db, t, c);
      case DeleteRoom(_) => OwnerTaskCommits(db, t, c);
      case Say(_, _) => OwnerTaskCommits(db, t, c);
      case InviteRoom(_, _) => InviteTaskCommits(db, t, c);
      case LeaveRoom(_) => LeaveTaskCommits(db, t, c);
      case ListFriendRequest => ListsOnlyReply(db, t, c);
      case ListRoom => ListsOnlyReply(db, t, c);
      case History(_, _) => ListsOnlyReply(db, t, c);
      case Login(_, _) => case Register(_, _) => case Nick(_) => case ListFriend => case Response(_) =>
      case FriendRequest(_) => AskTaskCommits(db, t, c);
      case FriendRemove(_) => AskTaskCommits(db, t, c);
      case FriendAccept(_) => AnswerTaskCommits(db, t, c);
      case FriendReject(_) => AnswerTaskCommits(db, t, c);
    }
  }

  lemma TaskKeepsSound(db: T.Db, t: Task, c: Chance)
    requires T.Sound(db)
    ensures T.Sound(Execute(db, t, c).db)
  {
    TaskCommits(db, t, c);
    if TxnOf(t, c).Some? {
      T.CommitKeepsSound(db, TxnOf(t, c).value);
    }
  }

  // ---------------------------------------------------------------- when cells stay right

  /** The transaction makes the user leave: a member, and not the owner, of an existing room. */
  predicate Leaves(db: T.Db, txn: T.Txn, user: string) {
    && txn.LeaveRoom? && txn.user == user
    && txn.roomId in db.rooms && db.rooms[txn.roomId].owner != user && (txn.roomId, user) in db.members
  }

  /** The transaction makes the user enter: by creating a room with an account, or by the invitation of a member
      who is a friend to a room the user is not in. */
  predicate Enters(db: T.Db, txn: T.Txn, user: string) {
    || (txn.CreateRoom? && txn.owner == user && user in db.users)
    || (txn.InviteRoom? && txn.other == user && (txn.roomId, txn.user) in db.members
        && T.AreFriends(db, txn.user, user) && (txn.roomId, user) !in db.members)
  }

  /** Only its own user's leaving a room can make a cell claim a room too many. */
  lemma CommitFits(db: T.Db, txn: T.Txn, c: Cell)
    requires T.Sound(db) && Fits(db, c) && !Leaves(db, txn, c.user)
    ensures Fits(T.Commit(db, txn), c)
  {
    match txn {
      case CreateRoom(_, _, _) => case DeleteRoom(_, _) => case InviteRoom(_, _, _) => case LeaveRoom(_, _) =>
      case CreateMessage(_, _, _, _, _) => case Signup(_, _) => case ChangeNickname(_, _) =>
      case RequestFriend(_, _) => case AcceptFriend(_, _) => case RejectFriend(_, _) => case RemoveFriend(_, _) =>
    }
  }

  /** Only its own user's creating a room or being invited can make a cell miss a room. */
  lemma CommitCovers(db: T.Db, txn: T.Txn, c: Cell)
    requires T.Sound(db) && Covers(db, c) && !Enters(db, txn, c.user)
    ensures Covers(T.Commit(db, txn), c)
  {
    match txn {
      case CreateRoom(_, _, _) => case DeleteRoom(_, _) => case InviteRoom(_, _, _) => case LeaveRoom(_, _) =>
      case CreateMessage(_, _, _, _, _) => case Signup(_, _) => case ChangeNickname(_, _) =>
      case RequestFriend(_, _) => case AcceptFriend(_, _) => case RejectFriend(_, _) => case RemoveFriend(_, _) =>
    }
  }

  predicate Touches(c: Cell, ch: Change, fd: int, g: int) {
    match ch
    case NoChange => false
    case LoggedIn(_) => g == fd
    case LoggedOff => g == fd
    case Reload(_) => g == fd
    case ReloadUser(user) => c.user == user && user != ""
    case ReloadUsers(user, other, first, second) =>
      (first && c.user == user && user != "") || (second && c.user == other && other != "")
  }

  /** A change that touches a cell, other than a reload of its own, loads its user's list anew or forgets the user. */
  lemma TouchedIsRight(db: T.Db, c: Cell, ch: Change, fd: int, g: int)
    requires T.Sound(db)
    requires ch.LoggedIn? ==> ch.user != ""
    ensures var c' := Changed(db, c, ch, fd, g);
      if !Touches(c, ch, fd, g) then c' == c else !ch.Reload? ==> Fits(db, c') && Covers(db, c')
  {}

  /** Loading a user's list onto a connection, whoever the connection is logged in as by now: it claims no room too
      many exactly if the connection's user is in all these rooms, and misses none exactly if it is in no other. */
  lemma ReloadIff(db: T.Db, c: Cell, user: string)
    requires T.Sound(db)
    ensures var c', listed := c.(rooms := T.RoomsOf(db, user)), T.RoomsOf(db, user);
      && (Fits(db, c') <==> (listed == {} || c.user != "") && forall r :: r in listed ==> (r, c.user) in db.members)
      && (Fits(db, c') <==> (listed == {} || c.user != "") && listed <= T.RoomsOf(db, c.user))
      && (Covers(db, c') <==> c.user == "" || T.RoomsOf(db, c.user) <= listed)
  {
    var c' := c.(rooms := T.RoomsOf(db, user));
    assert forall r :: r in c'.rooms ==> r in db.rooms && r < db.nextRoom;
  }

  /** The task was sent by whoever the connection is logged in as. */
  predicate Rightful(t: Task, c: Cell, g: int) {
    g == t.fd && t.userId != "" ==> c.user == t.userId
  }

  lemma LoginIsNamed(db: T.Db, t: Task, ch: Chance)
    requires t.cmd.Login? ==> t.cmd.id != ""
    ensures ChangeOf(db, t, ch).LoggedIn? ==> ChangeOf(db, t, ch).user != ""
  {}

  lemma LeavingTouches(db: T.Db, t: Task, ch: Chance, c: Cell, g: int)
    requires TxnOf(t, ch).Some? && Leaves(db, TxnOf(t, ch).value, c.user)
    ensures t.cmd.LeaveRoom?
    ensures Touches(c, ChangeOf(db, t, ch), t.fd, g) <==> ch.reload.None?
  {
    assert t.cmd.LeaveRoom?;
  }

  /** The list of a user who enters a room is loaded again on the connection that created it, and on all of
      the invited user's connections - as far as the reload succeeds. */
  predicate Reentered(t: Task, ch: Chance, g: int) {
    if t.cmd.CreateRoom? then g == t.fd && ch.reload.None? else ch.reload2.None?
  }

  lemma EnteringTouches(db: T.Db, t: Task, ch: Chance, c: Cell, g: int)
    requires T.Sound(db)
    requires c.user != "" && TxnOf(t, ch).Some? && Enters(db, TxnOf(t, ch).value, c.user)
    ensures t.cmd.CreateRoom? || t.cmd.InviteRoom?
    ensures Reentered(t, ch, g) ==> Touches(c, ChangeOf(db, t, ch), t.fd, g)
    ensures !Reentered(t, ch, g) ==> !Touches(c, ChangeOf(db, t, ch), t.fd, g)
  {
    assert t.cmd.CreateRoom? || t.cmd.InviteRoom?;
    if t.cmd.InviteRoom? {
      InvitedBy(db, TxnOf(t, ch).value);
    }
  }

  /** In a sound database an invitation that meets its guards succeeds. */
  lemma InvitedBy(db: T.Db, txn: T.Txn)
    requires T.Sound(db) && txn.InviteRoom? && Enters(db, txn, txn.other)
    ensures T.InviteRoomTxn(db, txn.user, txn.roomId, txn.other).result == Ok(T.Invited)
    ensures txn.user != txn.other
  {
    PairLaws(txn.user, txn.other);
  }

  // ---------------------------------------------------------------- the four ways to go wrong

  /** The task makes a user leave a listed room without telling the user's connections. */
  predicate LeavesQuietly(db: T.Db, t: Task, ch: Chance, c: Cell) {
    && TxnOf(t, ch).Some? && Leaves(db, TxnOf(t, ch).value, c.user)
    && ch.reload.Some? && TxnOf(t, ch).value.roomId in c.rooms
  }

  /** The task makes a user enter a room without telling this connection of the user. */
  predicate EntersQuietly(db: T.Db, t: Task, ch: Chance, c: Cell, g: int) {
    && c.user != "" && TxnOf(t, ch).Some? && Enters(db, TxnOf(t, ch).value, c.user)
    && !Reentered(t, ch, g)
  }

  /** The room the task deletes, if that is what it does. */
  predicate Deletes(t: Task, r: int) {
    t.cmd.DeleteRoom? && ParseRoomId(t.cmd.roomId) == Some(r)
  }

  /** The task was sent under another user than the connection has by now, and shows the connection a room its
      user is not in: the room just created, or any other room left to the task's user. */
  ghost predicate ShowsStranger(db: T.Db, t: Task, ch: Chance, c: Cell, g: int) {
    && g == t.fd && ChangeOf(db, t, ch).Reload? && c.user != t.userId
    && (t.cmd.CreateRoom? || exists r :: r in T.RoomsOf(db, t.userId) && !Deletes(t, r) && NotIn(db, r, c.user))
  }

  predicate NotIn(db: T.Db, r: int, user: string) {
    user == "" || (r, user) !in db.members
  }

  /** Such a task hides from the connection a room its user is in and the task's user is not. */
  ghost predicate HidesRoom(db: T.Db, t: Task, ch: Chance, c: Cell, g: int) {
    && g == t.fd && ChangeOf(db, t, ch).Reload? && c.user != ""
    && exists r :: r in T.RoomsOf(db, c.user) && !Deletes(t, r) && r !in T.RoomsOf(db, t.userId)
  }

  lemma CreatedRooms(db: T.Db, t: Task, ch: Chance, user: string)
    requires T.Sound(db) && ChangeOf(db, t, ch).Reload? && t.cmd.CreateRoom?
    ensures var id := db.nextRoom + ch.gap;
      && id !in T.RoomsOf(db, user)
      && T.RoomsOf(Execute(db, t, ch).db, user) == T.RoomsOf(db, user) + if user == t.userId then {id} else {}
  {
    TaskCommits(db, t, ch);
    var e, id := Execute(db, t, ch), db.nextRoom + ch.gap;
    var after := T.RoomsOf(db, user) + if user == t.userId then {id} else {};
    assert forall r :: r in T.RoomsOf(e.db, user) <==> r in after;
    assert T.RoomsOf(e.db, user) == after;
  }

  lemma DeletedRooms(db: T.Db, t: Task, ch: Chance, user: string)
    requires ChangeOf(db, t, ch).Reload? && t.cmd.DeleteRoom?
    ensures ParseRoomId(t.cmd.roomId).Some?
    ensures T.RoomsOf(Execute(db, t, ch).db, user) == T.RoomsOf(db, user) - {ParseRoomId(t.cmd.roomId).value}
  {
    TaskCommits(db, t, ch);
    var e, id := Execute(db, t, ch), ParseRoomId(t.cmd.roomId).value;
    assert forall r :: r in T.RoomsOf(e.db, user) <==> r in T.RoomsOf(db, user) && r != id;
    assert T.RoomsOf(e.db, user) == T.RoomsOf(db, user) - {id};
  }

  /** What a reload after creating a room makes of the list, told before the task runs. */
  lemma CreateReloadIff(db: T.Db, t: Task, ch: Chance, c: Cell)
    requires T.Sound(db) && ChangeOf(db, t, ch).Reload? && t.cmd.CreateRoom?
    ensures var e := Execute(db, t, ch);
      var c' := c.(rooms := T.RoomsOf(e.db, t.userId));
      (Fits(e.db, c') <==> !ShowsStranger(db, t, ch, c, t.fd)) && (Covers(e.db, c') <==> !HidesRoom(db, t, ch, c, t.fd))
  {
    var e, id := Execute(db, t, ch), db.nextRoom + ch.gap;
    TaskKeepsSound(db, t, ch);
    ReloadIff(e.db, c, t.userId);
    CreatedRooms(db, t, ch, t.userId);
    CreatedRooms(db, t, ch, c.user);
    assert id in T.RoomsOf(e.db, t.userId);
    HiddenAfterCreate(T.RoomsOf(db, t.userId), T.RoomsOf(db, c.user), T.RoomsOf(e.db, c.user), id, c.user == t.userId);
  }

  lemma Outside<E>(a: set<E>, b: set<E>) returns (x: E)
    requires !(a <= b)
    ensures x in a && x !in b
  {
    x :| x in a && x !in b;
  }

  lemma HiddenAfterCreate(listed: set<int>, own: set<int>, own': set<int>, id: int, same: bool)
    requires own' == own + (if same then {id} else {}) && id !in own && (same ==> own == listed)
    ensures own' <= listed + {id} <==> forall r :: r in own ==> r in listed
  {
    assert forall r :: r in own' <==> r in own || (same && r == id);
    if own' <= listed + {id} {
      forall r | r in own ensures r in listed {
        assert r in own' && r != id;
      }
    } else {
      var r: int := Outside(own', listed + {id});
      assert r in own && r !in listed;
    }
  }

  /** And after deleting one. */
  lemma DeleteReloadIff(db: T.Db, t: Task, ch: Chance, c: Cell)
    requires T.Sound(db) && ChangeOf(db, t, ch).Reload? && t.cmd.DeleteRoom?
    ensures var e := Execute(db, t, ch);
      var c' := c.(rooms := T.RoomsOf(e.db, t.userId));
      (Fits(e.db, c') <==> !ShowsStranger(db, t, ch, c, t.fd)) && (Covers(e.db, c') <==> !HidesRoom(db, t, ch, c, t.fd))
  {
    var e := Execute(db, t, ch);
    TaskKeepsSound(db, t, ch);
    ReloadIff(e.db, c, t.userId);
    DeletedRooms(db, t, ch, t.userId);
    DeletedRooms(db, t, ch, c.user);
    var id := ParseRoomId(t.cmd.roomId).value;
    var before, after := T.RoomsOf(db, t.userId), T.RoomsOf(e.db, t.userId);
    assert forall r :: Deletes(t, r) <==> r == id;
    ShownAfterDelete(before, after, T.RoomsOf(e.db, c.user), id, db, c.user);
    HiddenAfterDelete(before, T.RoomsOf(db, c.user), id);
  }

  lemma HiddenAfterDelete(listed: set<int>, own: set<int>, id: int)
    ensures own - {id} <= listed - {id} <==> forall r :: r in own && r != id ==> r in listed
  {
    assert forall r :: r in own - {id} <==> r in own && r != id;
  }

  lemma ShownAfterDelete(before: set<int>, after: set<int>, own: set<int>, id: int, db: T.Db, user: string)
    requires after == before - {id} && own == T.RoomsOf(db, user) - {id} && before <= db.rooms.Keys
    ensures (after == {} || user != "") && after <= own <==> forall r :: r in before && r != id ==> !NotIn(db, r, user)
  {
    if after != {} && user == "" {
      var r := Inhabited(after);
      assert NotIn(db, r, user) && r in before && r != id;
    }
    assert forall r :: r in after <==> r in before && r != id;
  }

  // ---------------------------------------------------------------- any task, any connection

  /** A connection's room list claims no room too many across a task, whoever sent it, unless the task leaves a room
      of the list and the reload after it fails, or shows the connection a room of another user. */
  lemma TaskFitsIff(db: T.Db, t: Task, ch: Chance, c: Cell, g: int)
    requires T.Sound(db) && Fits(db, c) && (t.cmd.Login? ==> t.cmd.id != "")
    ensures var e := Execute(db, t, ch);
      Fits(e.db, Changed(e.db, c, ChangeOf(db, t, ch), t.fd, g)) <==>
        !LeavesQuietly(db, t, ch, c) && !ShowsStranger(db, t, ch, c, g)
  {
    var e, change := Execute(db, t, ch), ChangeOf(db, t, ch);
    if change.Reload? && g == t.fd {
      ReloadsDoNotLeave(db, t, ch, c);
      if t.cmd.CreateRoom? { CreateReloadIff(db, t, ch, c); } else { DeleteReloadIff(db, t, ch, c); }
    } else {
      OtherTaskFitsIff(db, t, ch, c, g);
    }
  }

  lemma ReloadsDoNotLeave(db: T.Db, t: Task, ch: Chance, c: Cell)
    requires ChangeOf(db, t, ch).Reload?
    ensures t.cmd.CreateRoom? || t.cmd.DeleteRoom?
    ensures !LeavesQuietly(db, t, ch, c)
  {
    assert t.cmd.CreateRoom? || t.cmd.DeleteRoom?;
  }

  lemma OtherTaskFitsIff(db: T.Db, t: Task, ch: Chance, c: Cell, g: int)
    requires T.Sound(db) && Fits(db, c) && (t.cmd.Login? ==> t.cmd.id != "")
    requires !(ChangeOf(db, t, ch).Reload? && g == t.fd)
    ensures var e := Execute(db, t, ch);
      Fits(e.db, Changed(e.db, c, ChangeOf(db, t, ch), t.fd, g)) <==> !LeavesQuietly(db, t, ch, c)
  {
    var e, txn := Execute(db, t, ch), TxnOf(t, ch);
    TaskKeepsSound(db, t, ch);
    TaskCommits(db, t, ch);
    LoginIsNamed(db, t, ch);
    TouchedIsRight(e.db, c, ChangeOf(db, t, ch), t.fd, g);
    if txn.Some? {
      if Leaves(db, txn.value, c.user) {
        LeavingTouches(db, t, ch, c, g);
        LeftBehind(db, txn.value, c);
      } else {
        CommitFits(db, txn.value, c);
      }
    }
  }

  lemma LeftBehind(db: T.Db, txn: T.Txn, c: Cell)
    requires T.Sound(db) && Fits(db, c) && Leaves(db, txn, c.user)
    ensures Fits(T.Commit(db, txn), c) <==> txn.roomId !in c.rooms
  {
    var db' := T.Commit(db, txn);
    assert txn.roomId in db'.rooms && (txn.roomId, c.user) !in db'.members;
  }

  /** Nor does it miss a room, unless the task makes the connection's user enter a room from another connection or
      without a reload, or hides a room from the connection. */
  lemma TaskCoversIff(db: T.Db, t: Task, ch: Chance, c: Cell, g: int)
    requires T.Sound(db) && Fits(db, c) && Covers(db, c) && (t.cmd.Login? ==> t.cmd.id != "")
    ensures var e := Execute(db, t, ch);
      Covers(e.db, Changed(e.db, c, ChangeOf(db, t, ch), t.fd, g)) <==>
        !EntersQuietly(db, t, ch, c, g) && !HidesRoom(db, t, ch, c, g)
  {
    var e, change := Execute(db, t, ch), ChangeOf(db, t, ch);
    if change.Reload? && g == t.fd {
      ReloadsDoNotLeave(db, t, ch, c);
      ReloadsEnterLoudly(db, t, ch, c);
      if t.cmd.CreateRoom? { CreateReloadIff(db, t, ch, c); } else { DeleteReloadIff(db, t, ch, c); }
    } else {
      OtherTaskCoversIff(db, t, ch, c, g);
    }
  }

  lemma ReloadsEnterLoudly(db: T.Db, t: Task, ch: Chance, c: Cell)
    requires ChangeOf(db, t, ch).Reload?
    ensures !EntersQuietly(db, t, ch, c, t.fd)
  {
    assert t.cmd.CreateRoom? || t.cmd.DeleteRoom?;
  }

  lemma OtherTaskCoversIff(db: T.Db, t: Task, ch: Chance, c: Cell, g: int)
    requires T.Sound(db) && Fits(db, c) && Covers(db, c) && (t.cmd.Login? ==> t.cmd.id != "")
    requires !(ChangeOf(db, t, ch).Reload? && g == t.fd)
    ensures var e := Execute(db, t, ch);
      Covers(e.db, Changed(e.db, c, ChangeOf(db, t, ch), t.fd, g)) <==> !EntersQuietly(db, t, ch, c, g)
  {
    var e, txn := Execute(db, t, ch), TxnOf(t, ch);
    TaskKeepsSound(db, t, ch);
    TaskCommits(db, t, ch);
    LoginIsNamed(db, t, ch);
    TouchedIsRight(e.db, c, ChangeOf(db, t, ch), t.fd, g);
    if txn.Some? {
      if c.user != "" && Enters(db, txn.value, c.user) {
        EnteringTouches(db, t, ch, c, g);
        Missed(db, txn.value, c);
      } else if c.user != "" {
        CommitCovers(db, txn.value, c);
      }
    }
  }

  lemma Missed(db: T.Db, txn: T.Txn, c: Cell)
    requires T.Sound(db) && Fits(db, c) && Enters(db, txn, c.user) && c.user != ""
    ensures !Covers(T.Commit(db, txn), c)
  {
    var db' := T.Commit(db, txn);
    if txn.InviteRoom? {
      InvitedBy(db, txn);
    }
    var id := if txn.CreateRoom? then db.nextRoom + txn.gap else txn.roomId;
    assert id in T.RoomsOf(db', c.user) && id !in c.rooms;
  }

  /** A room created under another user than the connection's is shown to it although its user is no member. */
  lemma StaleCreateFitsIff(db: T.Db, t: Task, ch: Chance, c: Cell)
    requires T.Sound(db) && Fits(db, c)
    requires ChangeOf(db, t, ch).Reload? && t.cmd.CreateRoom?
    ensures var e := Execute(db, t, ch);
      Fits(e.db, Changed(e.db, c, ChangeOf(db, t, ch), t.fd, t.fd)) <==> c.user == t.userId
  {
    CreateReloadIff(db, t, ch, c);
  }
}
