/** Room delivery through the whole server: acceptor and event loop, one database worker, and the registry,
    whose steps interleave freely. Every request on its way to the registry remembers the database as it was
    when the request was made. */
module Delivery {
  import opened Text
  import opened Numbers
  import opened Codec
  import opened Connections
  import opened Tasks
  import opened Executor
  import opened Cells
  import T = Tables

  datatype Stamped = Stamped(req: Request, db: T.Db)

  /** `out` are the requests the running task has still to push; `seen` are the descriptors ever accepted, `known`
      those whose registration was handled, `logged` those on which a login succeeded. */
  datatype World = World(db: T.Db, tasks: seq<Task>, out: seq<Stamped>, queue: seq<Stamped>, infos: Table,
                         seen: set<int>, known: set<int>, logged: set<int>)

  function Boot(db: T.Db): World {
    World(db, [], [], [], map[], {}, {}, {})
  }

  datatype Step =
    | Accept(fd: int, interest: Mask)  // a new connection, its registration queued
    | Ask(cmd: Command, fd: int)       // the loop hands a received command to the workers
    | Tell(req: Request)               // the loop queues a request of its own
    | Start(chance: Chance)            // the worker takes the oldest task and runs its transactions
    | Push                             // the worker queues its next request
    | HandleNext(kernel: Kernel)       // the loop handles the oldest request
    | Io(fd: int, conn: Conn)          // the loop moves bytes of a connection

  function Stamps(reqs: seq<Request>, db: T.Db): seq<Stamped> {
    seq(|reqs|, i requires 0 <= i < |reqs| => Stamped(reqs[i], db))
  }

  /** All requests made and not yet handled, in the order they will be handled. */
  function Pending(w: World): seq<Stamped> {
    w.queue + w.out
  }

  /** What the registry will know of a connection once it has handled some requests. */
  function Settled(c: Cell, items: seq<Stamped>, fd: int): Cell
    decreases items
  {
    if items == [] then c else Settled(CellStep(c, items[0].req, fd), items[1..], fd)
  }

  /** The connections that are, or are about to be, logged in as a user. */
  function Sessions(w: World, user: string): set<int> {
    set fd | fd in w.infos && Eventual(w, fd).user == user
  }

  ghost predicate Possible(w: World, step: Step) {
    match step
    case Accept(fd, _) => fd !in w.seen
    case Ask(cmd, fd) => fd in w.infos && IsDbCommand(cmd) && FieldsNotEmpty(cmd)
    case Tell(req) => req.UnregisterFd? || req.SendOne?
    case Start(_) => w.tasks != [] && w.out == []
    case Push => w.out != []
    case HandleNext(_) => w.queue != []
    case Io(fd, conn) => fd in w.infos && CellOf(conn) == CellOf(w.infos[fd])
  }

  /** What a run promises: whether room lists never miss a room, and whether nobody logs in twice on a connection. */
  datatype Promise = Promise(exact: bool, once: bool)

  /** What the registry will know of a connection once it has handled everything sent so far. */
  function Eventual(w: World, g: int): Cell
    requires g in w.infos
  {
    Settled(CellOf(w.infos[g]), Pending(w), g)
  }

  /** The task about to run breaks no connection's room list. */
  ghost predicate Harmless(w: World, step: Step, p: Promise) {
    step.Start? && w.tasks != [] ==>
      forall g :: g in w.infos ==> Spares(w.db, w.tasks[0], step.chance, Eventual(w, g), g, p)
  }

  ghost predicate Spares(db: T.Db, t: Task, ch: Chance, c: Cell, g: int, p: Promise) {
    && !LeavesQuietly(db, t, ch, c) && !ShowsStranger(db, t, ch, c, g)
    && (p.exact ==> !EntersQuietly(db, t, ch, c, g) && !HidesRoom(db, t, ch, c, g))
    && (p.once && t.cmd.Login? && g == t.fd ==> c.user == "")
  }

  /** Rules a caller can check: nobody logs in again on a connection, and the room list is loaded again after leaving
      a room; for exact delivery also after creating a room and inviting, and users with several connections create
      no rooms. */
  ghost predicate Orderly(w: World, step: Step, exact: bool) {
    step.Start? && w.tasks != [] ==>
      var t, ch := w.tasks[0], step.chance;
      && (t.cmd.Login? ==> t.fd !in w.logged)
      && (t.cmd.LeaveRoom? ==> ch.reload.None?)
      && (exact && t.cmd.CreateRoom? && t.userId != "" ==> ch.reload.None? && Sessions(w, t.userId) <= {t.fd})
      && (exact && t.cmd.InviteRoom? ==> ch.reload2.None?)
  }

  ghost function Next(w: World, step: Step): World
    requires Possible(w, step)
  {
    match step
    case Accept(fd, interest) =>
      w.(queue := w.queue + [Stamped(RegisterFd(fd, interest), w.db)], seen := w.seen + {fd})
    case Ask(cmd, fd) => w.(tasks := w.tasks + [Task(cmd, fd, w.infos[fd].userId)])
    case Tell(req) => w.(queue := w.queue + [Stamped(req, w.db)])
    case Start(ch) =>
      var t := w.tasks[0];
      var e := Execute(w.db, t, ch);
      w.(db := e.db, tasks := w.tasks[1..], out := Stamps(e.requests, e.db),
         logged := if ChangeOf(w.db, t, ch).LoggedIn? then w.logged + {t.fd} else w.logged)
    case Push => w.(queue := w.queue + [w.out[0]], out := w.out[1..])
    case HandleNext(k) =>
      var req := w.queue[0].req;
      w.(infos := Handle(w.infos, req, k), queue := w.queue[1..],
         known := if req.RegisterFd? then w.known + {req.fd} else w.known)
    case Io(fd, conn) => w.(infos := w.infos[fd := conn])
  }

  // ---------------------------------------------------------------- what holds of one connection

  /** When a request reaches the registry: a room broadcast finds the room in the connection's list only if the
      connection's user was a member when the message was written; and, if so promised, nobody logs in over a login. */
  predicate Due(c: Cell, item: Stamped, fd: int, p: Promise) {
    match item.req
    case SetUserId(f, _) => p.once && f == fd ==> c.user == ""
    case RoomBroadcast(_, r, _) =>
      && (r in c.rooms ==> c.user != "" && (r, c.user) in item.db.members)
      && (p.exact && c.user != "" && (r, c.user) in item.db.members ==> r in c.rooms)
    case _ => true
  }

  predicate AllDue(c: Cell, items: seq<Stamped>, fd: int, p: Promise)
    decreases items
  {
    items == [] || (Due(c, items[0], fd, p) && AllDue(CellStep(c, items[0].req, fd), items[1..], fd, p))
  }

  lemma {:induction false} SettledAppend(c: Cell, a: seq<Stamped>, b: seq<Stamped>, fd: int, p: Promise)
    ensures Settled(c, a + b, fd) == Settled(Settled(c, a, fd), b, fd)
    ensures AllDue(c, a + b, fd, p) <==> AllDue(c, a, fd, p) && AllDue(Settled(c, a, fd), b, fd, p)
    decreases a
  {
    if a == [] {
      assert a + b == b;
    } else {
      assert (a + b)[1..] == a[1..] + b;
      SettledAppend(CellStep(c, a[0].req, fd), a[1..], b, fd, p);
    }
  }

  lemma {:induction false} SettledIsFold(c: Cell, reqs: seq<Request>, db: T.Db, fd: int)
    ensures Settled(c, Stamps(reqs, db), fd) == Fold(c, reqs, fd)
    decreases reqs
  {
    if reqs != [] {
      assert Stamps(reqs, db)[1..] == Stamps(reqs[1..], db);
      SettledIsFold(CellStep(c, reqs[0], fd), reqs[1..], db, fd);
      FoldAppend(c, [reqs[0]], reqs[1..], fd);
      FoldOne(c, reqs[0], fd);
      assert reqs == [reqs[0]] + reqs[1..];
    }
  }

  /** A request that does not matter to any connection's cell, and is no room broadcast, can be put anywhere. */
  lemma Inserted(c: Cell, a: seq<Stamped>, item: Stamped, b: seq<Stamped>, fd: int, p: Promise)
    requires Neutral(item.req) && !item.req.RoomBroadcast?
    ensures Settled(c, a + [item] + b, fd) == Settled(c, a + b, fd)
    ensures AllDue(c, a + [item] + b, fd, p) <==> AllDue(c, a + b, fd, p)
  {
    SettledAppend(c, a, b, fd, p);
    SettledAppend(c, a, [item], fd, p);
    SettledAppend(c, a + [item], b, fd, p);
    assert [item][1..] == [];
  }

  /** Once logged in, a connection keeps its user. */
  lemma {:induction false} UserStays(c: Cell, items: seq<Stamped>, fd: int, p: Promise)
    requires AllDue(c, items, fd, p) && p.once && c.user != ""
    ensures Settled(c, items, fd).user == c.user
    decreases items
  {
    if items != [] {
      UserStays(CellStep(c, items[0].req, fd), items[1..], fd, p);
    }
  }

  /** Neither a login of this connection nor a room broadcast. */
  predicate Plain(req: Request, fd: int) {
    !(req.SetUserId? && req.fd == fd) && !req.RoomBroadcast?
  }

  lemma {:induction false} PlainIsDue(c: Cell, items: seq<Stamped>, fd: int, p: Promise)
    requires forall i :: 0 <= i < |items| ==> Plain(items[i].req, fd)
    ensures AllDue(c, items, fd, p)
    ensures Settled(c, items, fd).user == c.user
    decreases items
  {
    if items != [] {
      PlainIsDue(CellStep(c, items[0].req, fd), items[1..], fd, p);
    }
  }

  /** A request that names the descriptor. */
  predicate Names(req: Request, fd: int) {
    (req.SetUserId? || req.SetJoinedRooms?) && req.fd == fd
  }

  /** Requests that do not name it leave a new connection unknown, and no broadcast finds it. */
  lemma {:induction false} UnnamedStaysUnknown(items: seq<Stamped>, fd: int, p: Promise)
    requires forall i :: 0 <= i < |items| ==> !Names(items[i].req, fd)
    ensures Settled(UNKNOWN, items, fd) == UNKNOWN
    ensures AllDue(UNKNOWN, items, fd, p)
  {
    if items != [] {
      UnnamedStaysUnknown(items[1..], fd, p);
    }
  }

  // ---------------------------------------------------------------- what a task sends

  /** A task registers and removes nobody and speaks only for its own connection; only a login changes the user, and
      only a message is broadcast to a room. */
  predicate Own(req: Request, cmd: Command, fd: int) {
    match req
    case SetUserId(f, _) => f == fd && cmd.Login?
    case SetJoinedRooms(f, _) => f == fd
    case RoomBroadcast(f, _, _) => f == fd && cmd.Say?
    case SetJoinedRoomsForUser(_, _) => cmd.InviteRoom? || cmd.LeaveRoom?
    case SendOne(f, _) => f == fd
    case ChangeNickname(f, _) => f == fd
    case SendFriendList(f, _) => f == fd
    case _ => false
  }

  ghost predicate AllOwn(reqs: seq<Request>, cmd: Command, fd: int) {
    forall i :: 0 <= i < |reqs| ==> Own(reqs[i], cmd, fd)
  }

  /** Its first or its last request answers it. */
  predicate IsAnswered(reqs: seq<Request>, fd: int) {
    reqs != [] && (Answers(reqs[0], fd) || Answers(reqs[|reqs| - 1], fd))
  }

  predicate Answers(req: Request, fd: int) {
    (req.SendOne? || req.SendFriendList? || req.RoomBroadcast?) && req.fd == fd
  }

  ghost predicate WellSent(reqs: seq<Request>, cmd: Command, fd: int) {
    AllOwn(reqs, cmd, fd) && IsAnswered(reqs, fd)
  }

  lemma CreateIsOwn(db: T.Db, cmd: Command, fd: int, user: string, ch: Chance)
    requires cmd.CreateRoom?
    ensures WellSent(CreateRoomEffect(db, cmd.roomName, fd, user, ch).requests, cmd, fd)
  {}

  lemma DeleteIsOwn(db: T.Db, cmd: Command, roomId: Option<int>, fd: int, user: string, ch: Chance)
    requires cmd.DeleteRoom?
    ensures WellSent(DeleteRoomEffect(db, roomId, fd, user, ch).requests, cmd, fd)
  {}

  lemma LeaveIsOwn(db: T.Db, cmd: Command, roomId: Option<int>, fd: int, user: string, ch: Chance)
    requires cmd.LeaveRoom?
    ensures WellSent(LeaveRoomEffect(db, roomId, fd, user, ch).requests, cmd, fd)
  {}

  lemma InviteIsOwn(db: T.Db, cmd: Command, roomId: Option<int>, fd: int, user: string, ch: Chance)
    requires cmd.InviteRoom?
    ensures WellSent(InviteRoomEffect(db, roomId, cmd.friendUserId, fd, user, ch).requests, cmd, fd)
  {}

  lemma SayIsOwn(db: T.Db, cmd: Command, roomId: Option<int>, fd: int, user: string, ch: Chance)
    requires cmd.Say?
    ensures WellSent(SayEffect(db, roomId, cmd.text, fd, user, ch).requests, cmd, fd)
  {}

  lemma ListsAreOwn(db: T.Db, cmd: Command, fd: int, user: string, ch: Chance)
    requires cmd.ListFriend? || cmd.ListFriendRequest? || cmd.ListRoom?
    ensures WellSent(ListFriendEffect(db, fd, user, ch).requests, cmd, fd)
    ensures WellSent(ListFriendRequestEffect(db, fd, user, ch).requests, cmd, fd)
    ensures WellSent(ListRoomEffect(db, fd, user, ch).requests, cmd, fd)
  {}

  lemma HistoryIsOwn(db: T.Db, cmd: Command, roomId: Option<int>, limit: Option<nat>, fd: int, user: string, ch: Chance)
    requires cmd.History?
    ensures WellSent(HistoryEffect(db, roomId, limit, fd, user, ch).requests, cmd, fd)
  {}

  lemma AccountIsOwn(db: T.Db, cmd: Command, fd: int, user: string, ch: Chance)
    ensures cmd.Login? ==> WellSent(LoginEffect(db, cmd.id, cmd.pw, fd, ch).requests, cmd, fd)
    ensures cmd.Register? ==> WellSent(SignupEffect(db, cmd.id, cmd.pw, fd, ch).requests, cmd, fd)
    ensures cmd.Nick? ==> WellSent(NickEffect(db, cmd.nick, fd, user, ch).requests, cmd, fd)
  {}

  lemma FriendTaskIsOwn(db: T.Db, t: Task, ch: Chance)
    requires IsFriendTask(t.cmd)
    ensures WellSent(Execute(db, t, ch).requests, t.cmd, t.fd)
  {
    match t.cmd {
      case FriendRequest(_) => case FriendAccept(_) => case FriendReject(_) => case FriendRemove(_) =>
    }
  }

  /** Every task is answered, and speaks only for its own connection. */
  lemma TaskIsOwn(db: T.Db, t: Task, ch: Chance)
    ensures AllOwn(Execute(db, t, ch).requests, t.cmd, t.fd)
    ensures IsDbCommand(t.cmd) ==> IsAnswered(Execute(db, t, ch).requests, t.fd)
  {
    match t.cmd {
      case Login(_, _) => AccountIsOwn(db, t.cmd, t.fd, t.userId, ch);
      case Register(_, _) => AccountIsOwn(db, t.cmd, t.fd, t.userId, ch);
      case Nick(_) => AccountIsOwn(db, t.cmd, t.fd, t.userId, ch);
      case Say(roomId, _) => SayIsOwn(db, t.cmd, ParseRoomId(roomId), t.fd, t.userId, ch);
      case CreateRoom(_) => CreateIsOwn(db, t.cmd, t.fd, t.userId, ch);
      case DeleteRoom(roomId) => DeleteIsOwn(db, t.cmd, ParseRoomId(roomId), t.fd, t.userId, ch);
      case InviteRoom(roomId, _) => InviteIsOwn(db, t.cmd, ParseRoomId(roomId), t.fd, t.userId, ch);
      case LeaveRoom(roomId) => LeaveIsOwn(db, t.cmd, ParseRoomId(roomId), t.fd, t.userId, ch);
      case ListFriendRequest => ListsAreOwn(db, t.cmd, t.fd, t.userId, ch);
      case ListRoom => ListsAreOwn(db, t.cmd, t.fd, t.userId, ch);
      case ListFriend => ListsAreOwn(db, t.cmd, t.fd, t.userId, ch);
      case History(roomId, limit) =>
        HistoryIsOwn(db, t.cmd, ParseRoomId(roomId), ParseLimit(limit), t.fd, t.userId, ch);
      case Response(_) =>
      case _ => FriendTaskIsOwn(db, t, ch);
    }
  }

  /** A login task sets the user once. */
  ghost predicate SetsUserAt(reqs: seq<Request>, k: nat, fd: int) {
    && k < |reqs| && reqs[k].SetUserId? && reqs[k].fd == fd
    && forall i :: 0 <= i < |reqs| && i != k ==> Plain(reqs[i], fd)
  }

  lemma LoginSetsUserOnce(db: T.Db, id: string, pw: string, fd: int, ch: Chance) returns (k: nat)
    ensures SetsUserAt(LoginEffect(db, id, pw, fd, ch).requests, k, fd)
  {
    var reqs := LoginEffect(db, id, pw, fd, ch).requests;
    k := if reqs[0].SetUserId? then 0 else 1;
  }

  lemma SetsUserIsDue(c: Cell, reqs: seq<Request>, k: nat, db: T.Db, fd: int, p: Promise)
    requires SetsUserAt(reqs, k, fd) && (p.once ==> c.user == "")
    ensures AllDue(c, Stamps(reqs, db), fd, p)
  {
    var items := Stamps(reqs, db);
    var a, b := items[..k], items[k + 1..];
    var d := Settled(c, a, fd);
    assert items == a + ([items[k]] + b);
    SettledAppend(c, a, [items[k]] + b, fd, p);
    PlainIsDue(c, a, fd, p);
    assert ([items[k]] + b)[1..] == b;
    PlainIsDue(CellStep(d, items[k].req, fd), b, fd, p);
  }

  /** A room broadcast announces the message its task has just written. */
  ghost predicate Announces(item: Stamped) {
    item.req.RoomBroadcast? ==>
      && |item.db.messages| > 0
      && var m := item.db.messages[|item.db.messages| - 1];
         m.roomId == item.req.roomId && item.req.cmd == Response(m.body) && (m.roomId, m.sender) in item.db.members
         && m.roomId in item.db.rooms
  }

  lemma SayAnnounces(db: T.Db, roomId: Option<int>, text: string, fd: int, user: string, ch: Chance)
    ensures var e := SayEffect(db, roomId, text, fd, user, ch);
      && |e.requests| == 1
      && e.db.members == db.members && e.db.rooms == db.rooms
      && Announces(Stamped(e.requests[0], e.db))
      && (e.requests[0].RoomBroadcast? || Plain(e.requests[0], fd))
  {}

  lemma SayIsDue(db: T.Db, roomId: Option<int>, text: string, fd: int, user: string, ch: Chance, c: Cell, g: int,
                 p: Promise)
    requires Fits(db, c) && (p.exact ==> Covers(db, c))
    ensures var e := SayEffect(db, roomId, text, fd, user, ch); AllDue(c, Stamps(e.requests, e.db), g, p)
  {
    SayAnnounces(db, roomId, text, fd, user, ch);
    var e := SayEffect(db, roomId, text, fd, user, ch);
    var item := Stamped(e.requests[0], e.db);
    assert Stamps(e.requests, e.db) == [item] && [item][1..] == [];
    if item.req.RoomBroadcast? {
      assert item.req.roomId in T.RoomsOf(db, c.user) <==> (item.req.roomId, c.user) in db.members;
    }
  }

  /** What a task sends is in order for a connection whose list is in order. */
  lemma TaskIsDue(db: T.Db, t: Task, ch: Chance, c: Cell, g: int, p: Promise)
    requires Fits(db, c) && (p.exact ==> Covers(db, c))
    requires p.once && t.cmd.Login? && g == t.fd ==> c.user == ""
    ensures var e := Execute(db, t, ch); AllDue(c, Stamps(e.requests, e.db), g, p)
  {
    var e := Execute(db, t, ch);
    if t.cmd.Say? {
      SayIsDue(db, ParseRoomId(t.cmd.roomId), t.cmd.text, t.fd, t.userId, ch, c, g, p);
    } else if t.cmd.Login? && g == t.fd {
      var k := LoginSetsUserOnce(db, t.cmd.id, t.cmd.pw, t.fd, ch);
      SetsUserIsDue(c, e.requests, k, e.db, g, p);
    } else {
      TaskIsOwn(db, t, ch);
      PlainIsDue(c, Stamps(e.requests, e.db), g, p);
    }
  }

  lemma TaskAnnounces(db: T.Db, t: Task, ch: Chance)
    ensures var e := Execute(db, t, ch); forall i :: 0 <= i < |e.requests| ==> Announces(Stamped(e.requests[i], e.db))
  {
    if t.cmd.Say? {
      SayAnnounces(db, ParseRoomId(t.cmd.roomId), t.cmd.text, t.fd, t.userId, ch);
    } else {
      TaskIsOwn(db, t, ch);
    }
  }

  // ---------------------------------------------------------------- what every step keeps of one connection

  ghost predicate ConnOk(c: Cell, items: seq<Stamped>, g: int, db: T.Db, tasks: seq<Task>, logged: set<int>, p: Promise)
  {
    var last := Settled(c, items, g);
    && AllDue(c, items, g, p)
    && Fits(db, last) && (p.exact ==> Covers(db, last))
    && (p.once ==> last.user != "" ==> g in logged)
    && (p.once ==> forall i :: 0 <= i < |tasks| ==> Rightful(tasks[i], last, g))
  }

  lemma AskKeepsConn(c: Cell, items: seq<Stamped>, g: int, db: T.Db, tasks: seq<Task>, logged: set<int>, p: Promise,
                     t: Task)
    requires ConnOk(c, items, g, db, tasks, logged, p)
    requires g == t.fd ==> t.userId == c.user
    ensures ConnOk(c, items, g, db, tasks + [t], logged, p)
  {
    if p.once && g == t.fd && t.userId != "" {
      UserStays(c, items, g, p);
    }
  }

  lemma InsertKeepsConn(c: Cell, a: seq<Stamped>, item: Stamped, b: seq<Stamped>, g: int, db: T.Db, tasks: seq<Task>,
                        logged: set<int>, p: Promise)
    requires ConnOk(c, a + b, g, db, tasks, logged, p)
    requires Neutral(item.req) && !item.req.RoomBroadcast?
    ensures ConnOk(c, a + [item] + b, g, db, tasks, logged, p)
  {
    Inserted(c, a, item, b, g, p);
  }

  lemma HandleKeepsConn(c: Cell, items: seq<Stamped>, g: int, db: T.Db, tasks: seq<Task>, logged: set<int>, p: Promise)
    requires items != [] && ConnOk(c, items, g, db, tasks, logged, p)
    ensures ConnOk(CellStep(c, items[0].req, g), items[1..], g, db, tasks, logged, p)
  {}

  /** Running a task that spares the connection keeps everything in order; a login task of this connection, and the
      tasks waiting behind it, carry no user. */
  lemma StartKeepsConn(c: Cell, items: seq<Stamped>, g: int, db: T.Db, tasks: seq<Task>, logged: set<int>, p: Promise,
                       ch: Chance)
    requires tasks != [] && ConnOk(c, items, g, db, tasks, logged, p)
    requires T.Sound(db) && FieldsNotEmpty(tasks[0].cmd) && Spares(db, tasks[0], ch, Settled(c, items, g), g, p)
    ensures var t := tasks[0];
      var e := Execute(db, t, ch);
      var logged' := if ChangeOf(db, t, ch).LoggedIn? then logged + {t.fd} else logged;
      ConnOk(c, items + Stamps(e.requests, e.db), g, e.db, tasks[1..], logged', p)
  {
    var t, last := tasks[0], Settled(c, items, g);
    var e := Execute(db, t, ch);
    var news := Stamps(e.requests, e.db);
    SettledAppend(c, items, news, g, p);
    SettledIsFold(last, e.requests, e.db, g);
    TaskFolds(db, t, ch, last, g);
    TaskIsDue(db, t, ch, last, g, p);
    LoginNamed(t.cmd);
    TaskFitsIff(db, t, ch, last, g);
    if p.exact {
      TaskCoversIff(db, t, ch, last, g);
    }
    StartKeepsUser(db, t, ch, last, g);
  }

  lemma LoginNamed(cmd: Command)
    requires FieldsNotEmpty(cmd)
    ensures cmd.Login? ==> cmd.id != ""
  {
    assert cmd.Login? ==> cmd.id in Fields(cmd);
  }

  /** Only a login of this very connection changes its user. */
  lemma StartKeepsUser(db: T.Db, t: Task, ch: Chance, c: Cell, g: int)
    ensures var change := ChangeOf(db, t, ch);
      && ((change.LoggedIn? || change.LoggedOff?) ==> t.cmd.Login?)
      && (Changed(Execute(db, t, ch).db, c, change, t.fd, g).user == c.user || (g == t.fd && t.cmd.Login?))
  {}

  // ---------------------------------------------------------------- what every step keeps

  predicate Arrives(item: Stamped) {
    item.req.RegisterFd?
  }

  /** Registrations under way are those of descriptors not known yet, each only once. */
  ghost predicate Arriving(items: seq<Stamped>, known: set<int>, seen: set<int>) {
    && known <= seen
    && (forall i :: 0 <= i < |items| && Arrives(items[i]) ==> items[i].req.fd in seen - known)
    && (forall i, j :: 0 <= i < j < |items| && Arrives(items[i]) && Arrives(items[j]) ==>
          items[i].req.fd != items[j].req.fd)
  }

  /** Requests concern known descriptors, and room broadcasts announce messages. */
  ghost predicate Addressed(item: Stamped, known: set<int>) {
    Announces(item) && forall fd :: Names(item.req, fd) ==> fd in known
  }

  ghost predicate AllAddressed(items: seq<Stamped>, known: set<int>) {
    forall i :: 0 <= i < |items| ==> Addressed(items[i], known)
  }

  ghost predicate TasksOk(tasks: seq<Task>, known: set<int>) {
    forall i :: 0 <= i < |tasks| ==> tasks[i].fd in known && FieldsNotEmpty(tasks[i].cmd)
  }

  ghost predicate InOrder(w: World, g: int, p: Promise)
    requires g in w.infos
  {
    ConnOk(CellOf(w.infos[g]), Pending(w), g, w.db, w.tasks, w.logged, p)
  }

  ghost predicate Inv(w: World, p: Promise) {
    && T.Sound(w.db)
    && Arriving(Pending(w), w.known, w.seen) && AllAddressed(Pending(w), w.known) && TasksOk(w.tasks, w.known)
    && w.infos.Keys <= w.known
    && forall g :: g in w.infos ==> InOrder(w, g, p)
  }

  lemma ArrivingInsert(a: seq<Stamped>, item: Stamped, b: seq<Stamped>, known: set<int>, seen: set<int>)
    requires Arriving(a + b, known, seen) && (Arrives(item) ==> item.req.fd !in seen)
    ensures Arriving(a + [item] + b, known, if Arrives(item) then seen + {item.req.fd} else seen)
  {
    var before, after := a + b, a + [item] + b;
    assert forall i :: 0 <= i < |a| ==> after[i] == before[i];
    assert forall i :: |a| < i < |after| ==> after[i] == before[i - 1];
    assert after[|a|] == item;
  }

  lemma AddressedInsert(a: seq<Stamped>, item: Stamped, b: seq<Stamped>, known: set<int>)
    requires AllAddressed(a + b, known) && Addressed(item, known)
    ensures AllAddressed(a + [item] + b, known)
  {
    var before, after := a + b, a + [item] + b;
    assert forall i :: 0 <= i < |a| ==> after[i] == before[i];
    assert forall i :: |a| < i < |after| ==> after[i] == before[i - 1];
    assert after[|a|] == item;
  }

  lemma ArrivingTail(items: seq<Stamped>, known: set<int>, seen: set<int>)
    requires items != [] && Arriving(items, known, seen)
    ensures Arriving(items[1..], if Arrives(items[0]) then known + {items[0].req.fd} else known, seen)
  {
    assert forall i :: 0 <= i < |items| - 1 ==> items[1..][i] == items[i + 1];
  }

  lemma NewsAreFine(items: seq<Stamped>, reqs: seq<Request>, cmd: Command, fd: int, db: T.Db, known: set<int>,
                    seen: set<int>)
    requires Arriving(items, known, seen) && AllAddressed(items, known) && fd in known
    requires AllOwn(reqs, cmd, fd) && forall i :: 0 <= i < |reqs| ==> Announces(Stamped(reqs[i], db))
    ensures Arriving(items + Stamps(reqs, db), known, seen) && AllAddressed(items + Stamps(reqs, db), known)
  {
    var all := items + Stamps(reqs, db);
    assert forall i :: 0 <= i < |items| ==> all[i] == items[i];
    assert forall i :: |items| <= i < |all| ==> all[i] == Stamped(reqs[i - |items|], db) && Own(all[i].req, cmd, fd);
  }

  lemma QueueStep(w: World, w': World, item: Stamped, p: Promise)
    requires Inv(w, p)
    requires Neutral(item.req) && !item.req.RoomBroadcast? && (Arrives(item) ==> item.req.fd !in w.seen)
    requires w' == w.(queue := w.queue + [item], seen := if Arrives(item) then w.seen + {item.req.fd} else w.seen)
    ensures Inv(w', p)
  {
    ArrivingInsert(w.queue, item, w.out, w.known, w.seen);
    AddressedInsert(w.queue, item, w.out, w.known);
    forall g | g in w'.infos ensures InOrder(w', g, p) {
      assert InOrder(w, g, p);
      InsertKeepsConn(CellOf(w.infos[g]), w.queue, item, w.out, g, w.db, w.tasks, w.logged, p);
    }
  }

  lemma StartStep(w: World, step: Step, p: Promise)
    requires Inv(w, p) && Possible(w, step) && Harmless(w, step, p) && step.Start?
    ensures Inv(Next(w, step), p)
  {
    var w', t, e := Next(w, step), w.tasks[0], Execute(w.db, w.tasks[0], step.chance);
    assert Pending(w') == Pending(w) + Stamps(e.requests, e.db);
    TaskKeepsSound(w.db, t, step.chance);
    TaskAnnounces(w.db, t, step.chance);
    TaskIsOwn(w.db, t, step.chance);
    NewsAreFine(Pending(w), e.requests, t.cmd, t.fd, e.db, w.known, w.seen);
    forall g | g in w'.infos ensures InOrder(w', g, p) {
      assert InOrder(w, g, p);
      StartKeepsConn(CellOf(w.infos[g]), Pending(w), g, w.db, w.tasks, w.logged, p, step.chance);
    }
  }

  lemma HandleStep(w: World, step: Step, p: Promise)
    requires Inv(w, p) && Possible(w, step) && step.HandleNext?
    ensures Inv(Next(w, step), p)
  {
    var w', req := Next(w, step), w.queue[0].req;
    assert Pending(w') == Pending(w)[1..] && Pending(w)[0] == w.queue[0];
    ArrivingTail(Pending(w), w.known, w.seen);
    forall g | g in w'.infos ensures g in w'.known && InOrder(w', g, p) {
      HandleCell(w.infos, req, step.kernel, g);
      if g in w.infos {
        assert InOrder(w, g, p);
        HandleKeepsConn(CellOf(w.infos[g]), Pending(w), g, w.db, w.tasks, w.logged, p);
      } else {
        NewcomerIsOk(w, g, p);
      }
    }
  }

  lemma NewcomerIsOk(w: World, g: int, p: Promise)
    requires Inv(w, p) && w.queue != [] && w.queue[0].req.RegisterFd? && w.queue[0].req.fd == g
    ensures ConnOk(UNKNOWN, Pending(w)[1..], g, w.db, w.tasks, w.logged, p)
  {
    assert Pending(w)[0] == w.queue[0];
    assert forall i :: 0 <= i < |Pending(w)| - 1 ==> Addressed(Pending(w)[1..][i], w.known);
    UnnamedStaysUnknown(Pending(w)[1..], g, p);
  }

  lemma StepKeepsInv(w: World, step: Step, p: Promise)
    requires Inv(w, p) && Possible(w, step) && Harmless(w, step, p)
    ensures Inv(Next(w, step), p)
  {
    var w' := Next(w, step);
    match step {
      case Accept(fd, interest) => QueueStep(w, w', Stamped(RegisterFd(fd, interest), w.db), p);
      case Tell(req) => QueueStep(w, w', Stamped(req, w.db), p);
      case Start(_) => StartStep(w, step, p);
      case HandleNext(_) => HandleStep(w, step, p);
      case Push => assert Pending(w') == Pending(w);
      case Ask(cmd, fd) =>
        forall g | g in w'.infos ensures InOrder(w', g, p) {
          assert InOrder(w, g, p);
          AskKeepsConn(CellOf(w.infos[g]), Pending(w), g, w.db, w.tasks, w.logged, p,
                       Task(cmd, fd, w.infos[fd].userId));
        }
      case Io(fd, conn) =>
        forall g | g in w'.infos ensures InOrder(w', g, p) {
          assert InOrder(w, g, p);
        }
    }
  }

  // ---------------------------------------------------------------- runs

  /** A run of the server from start-up on an existing database, any step following any other. */
  ghost predicate Run(states: seq<World>, steps: seq<Step>, db: T.Db) {
    && |states| == |steps| + 1 && states[0] == Boot(db)
    && forall i :: 0 <= i < |steps| ==> Moves(states[i], steps[i], states[i + 1])
  }

  ghost predicate Moves(w: World, step: Step, w': World) {
    Possible(w, step) && w' == Next(w, step)
  }

  ghost predicate HarmlessRun(states: seq<World>, steps: seq<Step>, p: Promise) {
    |states| == |steps| + 1 && forall i :: 0 <= i < |steps| ==> Harmless(states[i], steps[i], p)
  }

  ghost predicate OrderlyRun(states: seq<World>, steps: seq<Step>, exact: bool) {
    |states| == |steps| + 1 && forall i :: 0 <= i < |steps| ==> Orderly(states[i], steps[i], exact)
  }

  lemma {:induction false} RunKeepsInv(states: seq<World>, steps: seq<Step>, db: T.Db, p: Promise, i: nat)
    requires T.Sound(db) && Run(states, steps, db) && HarmlessRun(states, steps, p) && i <= |steps|
    ensures Inv(states[i], p)
  {
    if i > 0 {
      RunKeepsInv(states, steps, db, p, i - 1);
      assert Moves(states[i - 1], steps[i - 1], states[i - 1 + 1]);
      StepKeepsInv(states[i - 1], steps[i - 1], p);
    }
  }

  predicate BroadcastIsNext(w: World) {
    w.queue != [] && w.queue[0].req.RoomBroadcast?
  }

  /** In a state that keeps the invariant, the next room message goes only to connections logged in as then-members;
      and, if lists never miss a room, to all of them. */
  lemma InvDelivers(w: World, p: Promise)
    requires Inv(w, p) && BroadcastIsNext(w)
    ensures Announces(w.queue[0])
    ensures Members(w.infos, w.queue[0].req.roomId) <= OnlineMembers(w)
    ensures p.exact ==> Members(w.infos, w.queue[0].req.roomId) == OnlineMembers(w)
  {
    assert Pending(w)[0] == w.queue[0];
    forall fd | fd in w.infos
      ensures fd in Members(w.infos, w.queue[0].req.roomId) ==> fd in OnlineMembers(w)
      ensures p.exact && fd in OnlineMembers(w) ==> fd in Members(w.infos, w.queue[0].req.roomId)
    {
      assert InOrder(w, fd, p);
    }
  }

  /** As long as no task breaks a room list: whenever a room message is about to be handed out, every connection it
      goes to is logged in as somebody who was a member of the room when the message was written. */
  lemma DeliveredToMembersOnly(states: seq<World>, steps: seq<Step>, db: T.Db, fd: int)
    requires T.Sound(db) && Run(states, steps, db) && HarmlessRun(states, steps, Promise(false, false))
    requires BroadcastIsNext(states[|steps|])
    requires fd in Members(states[|steps|].infos, states[|steps|].queue[0].req.roomId)
    ensures var w := states[|steps|];
      && Announces(w.queue[0])
      && w.infos[fd].userId != "" && (w.queue[0].req.roomId, w.infos[fd].userId) in w.queue[0].db.members
  {
    RunKeepsInv(states, steps, db, Promise(false, false), |steps|);
    InvDelivers(states[|steps|], Promise(false, false));
    assert fd in OnlineMembers(states[|steps|]);
  }

  /** If no task makes a list miss a room either, it goes to every connection logged in as a member, and to no other. */
  lemma DeliveredExactly(states: seq<World>, steps: seq<Step>, db: T.Db)
    requires T.Sound(db) && Run(states, steps, db) && HarmlessRun(states, steps, Promise(true, false))
    requires BroadcastIsNext(states[|steps|])
    ensures var w := states[|steps|]; Members(w.infos, w.queue[0].req.roomId) == OnlineMembers(w)
  {
    RunKeepsInv(states, steps, db, Promise(true, false), |steps|);
    InvDelivers(states[|steps|], Promise(true, false));
  }

  /** The connections logged in as users who were members of the room when its message was written. */
  function OnlineMembers(w: World): set<int>
    requires BroadcastIsNext(w)
  {
    set fd | fd in w.infos && w.infos[fd].userId != ""
             && (w.queue[0].req.roomId, w.infos[fd].userId) in w.queue[0].db.members
  }

  // ---------------------------------------------------------------- rules that keep tasks harmless

  /** The rules keep every task harmless, and nobody logs in twice. */
  lemma OrderlySpares(db: T.Db, t: Task, ch: Chance, c: Cell, g: int, exact: bool, logged: set<int>)
    requires Rightful(t, c, g) && (c.user != "" ==> g in logged)
    requires t.cmd.Login? ==> t.fd !in logged
    requires t.cmd.LeaveRoom? ==> ch.reload.None?
    requires exact && t.cmd.CreateRoom? && t.userId != "" ==> ch.reload.None? && (g != t.fd ==> c.user != t.userId)
    requires exact && t.cmd.InviteRoom? ==> ch.reload2.None?
    ensures Spares(db, t, ch, c, g, Promise(exact, true))
  {
    assert TxnOf(t, ch).Some? && TxnOf(t, ch).value.LeaveRoom? ==> t.cmd.LeaveRoom?;
    assert ChangeOf(db, t, ch).Reload? ==> t.userId != "";
    assert TxnOf(t, ch).Some? && TxnOf(t, ch).value.CreateRoom? ==> t.cmd.CreateRoom?;
    assert TxnOf(t, ch).Some? && TxnOf(t, ch).value.InviteRoom? ==> t.cmd.InviteRoom?;
  }

  lemma {:induction false} OrderlyKeepsInv(states: seq<World>, steps: seq<Step>, db: T.Db, exact: bool, i: nat)
    requires T.Sound(db) && Run(states, steps, db) && OrderlyRun(states, steps, exact) && i <= |steps|
    ensures Inv(states[i], Promise(exact, true))
  {
    if i > 0 {
      OrderlyKeepsInv(states, steps, db, exact, i - 1);
      assert Moves(states[i - 1], steps[i - 1], states[i - 1 + 1]);
      OrderlyIsHarmless(states[i - 1], steps[i - 1], exact);
      StepKeepsInv(states[i - 1], steps[i - 1], Promise(exact, true));
    }
  }

  lemma OrderlyIsHarmless(w: World, step: Step, exact: bool)
    requires Inv(w, Promise(exact, true)) && Orderly(w, step, exact)
    ensures Harmless(w, step, Promise(exact, true))
  {
    if step.Start? && w.tasks != [] {
      var t := w.tasks[0];
      forall g | g in w.infos ensures Spares(w.db, t, step.chance, Eventual(w, g), g, Promise(exact, true)) {
        assert InOrder(w, g, Promise(exact, true));
        assert g in Sessions(w, t.userId) <==> Eventual(w, g).user == t.userId;
        OrderlySpares(w.db, t, step.chance, Eventual(w, g), g, exact, w.logged);
      }
    }
  }

  /** So a run that keeps the rules is harmless, and delivers as promised. */
  lemma OrderlyRunIsHarmless(states: seq<World>, steps: seq<Step>, db: T.Db, exact: bool)
    requires T.Sound(db) && Run(states, steps, db) && OrderlyRun(states, steps, exact)
    ensures HarmlessRun(states, steps, Promise(exact, false))
  {
    forall i | 0 <= i < |steps| ensures Harmless(states[i], steps[i], Promise(exact, false)) {
      OrderlyKeepsInv(states, steps, db, exact, i);
      OrderlyIsHarmless(states[i], steps[i], exact);
    }
  }

  /** In one piece: in a run that keeps the rules, a room message goes only to connections logged in as somebody who was
      a member of the room when it was written; and, under the rules for exact delivery, to all of them. */
  lemma OrderlyDelivery(states: seq<World>, steps: seq<Step>, db: T.Db, exact: bool)
    requires T.Sound(db) && Run(states, steps, db) && OrderlyRun(states, steps, exact)
    requires BroadcastIsNext(states[|steps|])
    ensures var w := states[|steps|];
      var targets := Members(w.infos, w.queue[0].req.roomId);
      && Announces(w.queue[0])
      && if exact then targets == OnlineMembers(w) else targets <= OnlineMembers(w)
  {
    OrderlyRunIsHarmless(states, steps, db, exact);
    RunKeepsInv(states, steps, db, Promise(exact, false), |steps|);
    InvDelivers(states[|steps|], Promise(exact, false));
  }
}
