/** Two runs of the server in which a room message goes to a connection whose user is not in the room: one in which
    the reload after leaving fails, one in which a task outlives the login it was sent under. */
module Misdelivery {
  import opened Text
  import opened Numbers
  import opened Codec
  import opened Connections
  import opened Tasks
  import opened Executor
  import opened Cells
  import opened Delivery
  import opened Ordering
  import opened Witnesses
  import P = Provenance
  import T = Tables

  // ---------------------------------------------------------------- paths

  ghost predicate Path(states: seq<World>, steps: seq<Step>, w: World, w': World) {
    && |states| == |steps| + 1 && states[0] == w && states[|steps|] == w'
    && forall i :: 0 <= i < |steps| ==> Moves(states[i], steps[i], states[i + 1])
  }

  ghost predicate Reaches(w: World, w': World) {
    exists states, steps :: Path(states, steps, w, w')
  }

  lemma ReachesSelf(w: World)
    ensures Reaches(w, w)
  {
    assert Path([w], [], w, w);
  }

  lemma ReachesNext(w: World, v: World, step: Step)
    requires Reaches(w, v) && Possible(v, step)
    ensures Reaches(w, Next(v, step))
  {
    var v' := Next(v, step);
    var states, steps :| Path(states, steps, w, v);
    var states', steps' := states + [v'], steps + [step];
    forall i | 0 <= i < |steps'| ensures Moves(states'[i], steps'[i], states'[i + 1]) {
      if i < |steps| {
        assert Moves(states[i], steps[i], states[i + 1]);
      }
    }
    assert Path(states', steps', w, v');
  }

  // ---------------------------------------------------------------- the server at rest

  /** Nothing is under way but these tasks, and these connections are known with these users and rooms. */
  ghost predicate AtRest(w: World, db: T.Db, cells: map<int, Cell>, tasks: seq<Task>) {
    w.out == [] && w.queue == [] && w.db == db && w.tasks == tasks && Holds(w.infos, cells)
  }

  ghost predicate Holds(t: Table, cells: map<int, Cell>) {
    forall g :: g in cells ==> g in t && CellOf(t[g]) == cells[g]
  }

  const OBLIGING := Kernel({}, true)

  /** A kernel that refuses nothing loses no connection that is not unregistered. */
  lemma NobodyLost(t: Table, req: Request, g: int)
    requires g in t && !req.UnregisterFd?
    ensures g in Handle(t, req, OBLIGING)
  {}

  lemma Connects(w0: World, w: World, db: T.Db, cells: map<int, Cell>, fd: int) returns (w': World)
    requires Reaches(w0, w) && AtRest(w, db, cells, []) && fd !in cells && fd != -1 && fd !in w.infos && fd !in w.seen
    ensures Reaches(w0, w') && AtRest(w', db, cells[fd := UNKNOWN], [])
    ensures w'.infos.Keys == w.infos.Keys + {fd} && w'.seen == w.seen + {fd}
  {
    var v := Next(w, Accept(fd, {In}));
    ReachesNext(w0, w, Accept(fd, {In}));
    ReachesNext(w0, v, HandleNext(OBLIGING));
    w' := Next(v, HandleNext(OBLIGING));
    assert w'.infos == w.infos[fd := FreshConn({In})];
  }

  lemma Asks(w0: World, w: World, db: T.Db, cells: map<int, Cell>, tasks: seq<Task>, cmd: Command, fd: int)
    returns (w': World)
    requires Reaches(w0, w) && AtRest(w, db, cells, tasks) && fd in cells && IsDbCommand(cmd) && FieldsNotEmpty(cmd)
    ensures Reaches(w0, w') && AtRest(w', db, cells, tasks + [Task(cmd, fd, cells[fd].user)]) && w'.infos == w.infos
  {
    ReachesNext(w0, w, Delivery.Ask(cmd, fd));
    w' := Next(w, Delivery.Ask(cmd, fd));
  }

  /** The worker pushes all it has to push. */
  lemma {:induction false} PushesAll(w0: World, w: World)
    requires Reaches(w0, w)
    ensures Reaches(w0, w.(queue := w.queue + w.out, out := []))
    decreases |w.out|
  {
    if w.out == [] {
      assert w.queue + [] == w.queue;
    } else {
      ReachesNext(w0, w, Push);
      var v := Next(w, Push);
      PushesAll(w0, v);
      assert v.queue + v.out == w.queue + w.out;
    }
  }

  /** The loop handles all requests, and each connection ends up as they say. */
  lemma {:induction false} HandlesAll(w0: World, w: World, cells: map<int, Cell>) returns (w': World)
    requires Reaches(w0, w) && Holds(w.infos, cells)
    requires forall i :: 0 <= i < |w.queue| ==> !w.queue[i].req.UnregisterFd? && !w.queue[i].req.RegisterFd?
    ensures Reaches(w0, w') && w' == w.(infos := w'.infos, queue := [])
    ensures Holds(w'.infos, map g | g in cells :: Settled(cells[g], w.queue, g))
    decreases |w.queue|
  {
    if w.queue == [] {
      w' := w;
    } else {
      ReachesNext(w0, w, HandleNext(OBLIGING));
      var v := Next(w, HandleNext(OBLIGING));
      var item := w.queue[0];
      var cells' := map g | g in cells :: CellStep(cells[g], item.req, g);
      forall g | g in cells' ensures g in v.infos && CellOf(v.infos[g]) == cells'[g] {
        NobodyLost(w.infos, item.req, g);
        HandleCell(w.infos, item.req, OBLIGING, g);
      }
      w' := HandlesAll(w0, v, cells');
    }
  }

  /** What a task makes of the connections' cells. */
  ghost function CellsAfter(db: T.Db, t: Task, ch: Chance, cells: map<int, Cell>): map<int, Cell> {
    map g | g in cells :: Changed(Execute(db, t, ch).db, cells[g], ChangeOf(db, t, ch), t.fd, g)
  }

  /** The worker runs a task, and the loop handles all it sends. */
  lemma Serves(w0: World, w: World, db: T.Db, cells: map<int, Cell>, t: Task, rest: seq<Task>, ch: Chance)
    returns (w': World)
    requires T.Sound(db) && Reaches(w0, w) && AtRest(w, db, cells, [t] + rest)
    ensures Reaches(w0, w') && AtRest(w', Execute(db, t, ch).db, CellsAfter(db, t, ch, cells), rest)
  {
    var e := Execute(db, t, ch);
    ReachesNext(w0, w, Start(ch));
    var v := Next(w, Start(ch));
    PushesAll(w0, v);
    var u := v.(queue := v.queue + v.out, out := []);
    assert u.queue == Stamps(e.requests, e.db) && u.tasks == rest;
    SendsNoRegistration(db, t, ch);
    w' := HandlesAll(w0, u, cells);
    forall g | g in cells ensures Settled(cells[g], u.queue, g) == CellsAfter(db, t, ch, cells)[g] {
      TaskSettles(db, t, ch, cells[g], g);
    }
  }

  lemma TaskSettles(db: T.Db, t: Task, ch: Chance, c: Cell, g: int)
    requires T.Sound(db)
    ensures var e := Execute(db, t, ch);
      Settled(c, Stamps(e.requests, e.db), g) == Changed(e.db, c, ChangeOf(db, t, ch), t.fd, g)
  {
    SettledIsFold(c, Execute(db, t, ch).requests, Execute(db, t, ch).db, g);
    TaskFolds(db, t, ch, c, g);
  }

  lemma SendsNoRegistration(db: T.Db, t: Task, ch: Chance)
    ensures var reqs := Execute(db, t, ch).requests;
      forall i :: 0 <= i < |reqs| ==> !reqs[i].UnregisterFd? && !reqs[i].RegisterFd?
  {
    TaskIsOwn(db, t, ch);
    var reqs := Execute(db, t, ch).requests;
    assert forall i :: 0 <= i < |reqs| ==> Own(reqs[i], t.cmd, t.fd);
  }

  // ---------------------------------------------------------------- going astray

  /** A room message is about to go to a connection whose user was not in the room when it was written. */
  ghost predicate GoesAstray(w: World, fd: int) {
    && BroadcastIsNext(w) && fd in Members(w.infos, w.queue[0].req.roomId)
    && NotIn(w.queue[0].db, w.queue[0].req.roomId, w.infos[fd].userId)
  }

  /** Nothing fails. */
  const CALM := Chance(None, None, None, 0, 0, at => Number(at), [])

  /** No request is under way, and the oldest task is a member saying something in a room. */
  ghost predicate AboutToSay(w: World, room: int) {
    w.out == [] && w.queue == [] && w.tasks != [] && Saying(w.tasks[0], w.db, room)
  }

  ghost predicate Saying(t: Task, db: T.Db, room: int) {
    t.cmd.Say? && ParseRoomId(t.cmd.roomId) == Some(room) && t.userId != "" && (room, t.userId) in db.members
  }

  /** The connection's list holds the room, and its user is not in it. */
  predicate WronglyListed(w: World, room: int, fd: int) {
    fd in w.infos && room in w.infos[fd].joined && NotIn(w.db, room, w.infos[fd].userId)
  }

  /** What is said in a room is handed to the strangers among those whose list holds the room. */
  lemma Says(w0: World, w: World, room: int) returns (w': World)
    requires Reaches(w0, w) && T.Sound(w.db) && AboutToSay(w, room)
    ensures Reaches(w0, w') && w'.infos == w.infos && forall fd :: GoesAstray(w', fd) <==> WronglyListed(w, room, fd)
  {
    var t := w.tasks[0];
    var e := Execute(w.db, t, CALM);
    assert e.requests == [RoomBroadcast(t.fd, room, Response(t.cmd.text))] && e.db.members == w.db.members;
    ReachesNext(w0, w, Start(CALM));
    var v := Next(w, Start(CALM));
    ReachesNext(w0, v, Push);
    w' := Next(v, Push);
  }

  ghost predicate Idle(w: World) {
    w.out == [] && w.queue == [] && w.tasks == []
  }

  /** Somebody is logged in who can say something in the room. */
  ghost predicate HasSpeaker(w: World, room: int, sender: int) {
    sender in w.infos && w.infos[sender].userId != "" && (room, w.infos[sender].userId) in w.db.members
  }

  /** The converse of delivery to members only: when a member says something in a room of an idle server, the message
      is handed to exactly those strangers whose connection lists the room. */
  lemma WrongListGoesAstray(w0: World, w: World, sender: int, roomId: string, room: int, text: string)
    requires Reaches(w0, w) && T.Sound(w.db) && Idle(w) && HasSpeaker(w, room, sender)
    requires ParseRoomId(roomId) == Some(room) && text != ""
    ensures exists w' ::
      Reaches(w0, w') && w'.infos == w.infos && forall fd :: GoesAstray(w', fd) <==> WronglyListed(w, room, fd)
  {
    var ask := Delivery.Ask(Say(roomId, text), sender);
    assert Fields(ask.cmd) == [roomId, text];
    ReachesNext(w0, w, ask);
    var w' := Says(w0, Next(w, ask), room);
    assert forall fd :: WronglyListed(Next(w, ask), room, fd) <==> WronglyListed(w, room, fd);
  }

  /** The room a task makes a list hold wrongly. */
  lemma WrongRoom(db: T.Db, t: Task, ch: Chance, c: Cell, g: int) returns (room: int)
    requires T.Sound(db) && (LeavesQuietly(db, t, ch, c) || ShowsStranger(db, t, ch, c, g))
    ensures var e := Execute(db, t, ch);
      var c' := Changed(e.db, c, ChangeOf(db, t, ch), t.fd, g);
      room in c'.rooms && room in e.db.rooms && NotIn(e.db, room, c'.user)
  {
    TaskCommits(db, t, ch);
    if LeavesQuietly(db, t, ch, c) {
      assert t.cmd.LeaveRoom?;
      room := TxnOf(t, ch).value.roomId;
    } else if t.cmd.CreateRoom? {
      CreatedRooms(db, t, ch, t.userId);
      CreatedRooms(db, t, ch, c.user);
      room := db.nextRoom + ch.gap;
    } else {
      room := Shown(db, t, c);
      ReloadsDoNotLeave(db, t, ch, c);
      DeletedRooms(db, t, ch, t.userId);
    }
  }

  lemma Shown(db: T.Db, t: Task, c: Cell) returns (room: int)
    requires exists r :: r in T.RoomsOf(db, t.userId) && !Deletes(t, r) && NotIn(db, r, c.user)
    ensures room in T.RoomsOf(db, t.userId) && !Deletes(t, room) && NotIn(db, room, c.user)
  {
    room :| room in T.RoomsOf(db, t.userId) && !Deletes(t, room) && NotIn(db, room, c.user);
  }

  /** And every task that does not spare a connection has that effect: once it is done, the connection wrongly lists an
      existing room, and whatever is said in that room next goes astray to it. */
  lemma HarmfulTaskGoesAstray(w0: World, w: World, t: Task, ch: Chance, fd: int) returns (w': World, room: int)
    requires Reaches(w0, w) && T.Sound(w.db) && w.out == [] && w.queue == [] && w.tasks == [t] && fd in w.infos
    requires LeavesQuietly(w.db, t, ch, CellOf(w.infos[fd])) || ShowsStranger(w.db, t, ch, CellOf(w.infos[fd]), fd)
    ensures Reaches(w0, w') && Idle(w') && w'.db == Execute(w.db, t, ch).db
    ensures WronglyListed(w', room, fd) && room in w'.db.rooms
    ensures forall sender, roomId: string :: HasSpeaker(w', room, sender) && ParseRoomId(roomId) == Some(room) ==>
      CanGoAstray(w0, fd)
  {
    var cells := map[fd := CellOf(w.infos[fd])];
    assert [t] + [] == [t];
    w' := Serves(w0, w, w.db, cells, t, [], ch);
    room := WrongRoom(w.db, t, ch, cells[fd], fd);
    TaskKeepsSound(w.db, t, ch);
    forall sender, roomId: string | HasSpeaker(w', room, sender) && ParseRoomId(roomId) == Some(room)
      ensures CanGoAstray(w0, fd)
    {
      WrongListGoesAstray(w0, w', sender, roomId, room, "hi");
    }
  }

  ghost predicate CanGoAstray(w0: World, fd: int) {
    exists w :: Reaches(w0, w) && GoesAstray(w, fd)
  }

  /** The oldest task says something in a room whose list still holds a stranger. */
  lemma SaysToStranger(w0: World, w: World, db: T.Db, cells: map<int, Cell>, t: Task, rest: seq<Task>, fd: int,
                       room: int)
    returns (w': World)
    requires Reaches(w0, w) && AtRest(w, db, cells, [t] + rest) && T.Sound(db) && Saying(t, db, room)
    requires fd in cells && room in cells[fd].rooms && NotIn(db, room, cells[fd].user)
    ensures Reaches(w0, w') && GoesAstray(w', fd)
  {
    w' := Says(w0, w, room);
    assert WronglyListed(w, room, fd);
  }

  lemma OneIsOne()
    ensures ParseRoomId("1") == Some(1)
  {
    assert Digits(1) == "1";
    RoomIdRoundTrip(1);
  }

  /** A login of an existing account. */
  lemma LogsIn(w0: World, w: World, db: T.Db, cells: map<int, Cell>, t: Task, rest: seq<Task>) returns (w': World)
    requires T.Sound(db) && Reaches(w0, w) && AtRest(w, db, cells, [t] + rest) && t.fd in cells
    requires t.cmd.Login? && t.cmd.id in db.users && db.users[t.cmd.id].pw == t.cmd.pw
    ensures Reaches(w0, w') && AtRest(w', db, cells[t.fd := Cell(t.cmd.id, T.RoomsOf(db, t.cmd.id))], rest)
  {
    w' := Serves(w0, w, db, cells, t, rest, CALM);
    TaskCommits(db, t, CALM);
    assert ChangeOf(db, t, CALM) == LoggedIn(t.cmd.id);
    var after := cells[t.fd := Cell(t.cmd.id, T.RoomsOf(db, t.cmd.id))];
    assert forall g :: g in after ==> g in cells && CellsAfter(db, t, CALM, cells)[g] == after[g];
  }

  /** Some run from start-up on this database sends a room message astray. */
  ghost predicate SomeRunGoesAstray(db: T.Db) {
    exists states, steps, fd :: Run(states, steps, db) && GoesAstray(states[|steps|], fd)
  }

  lemma PathIsRun(db: T.Db, w: World, fd: int)
    requires Reaches(Boot(db), w) && GoesAstray(w, fd)
    ensures SomeRunGoesAstray(db)
  {
    var states, steps :| Path(states, steps, Boot(db), w);
    assert Run(states, steps, db) && GoesAstray(states[|steps|], fd);
  }

  // ---------------------------------------------------------------- a task that outlives its login

  lemma TwoUsers(a: string, b: string) returns (log: seq<T.Txn>)
    requires a != b
    ensures |log| == 3
    ensures var db := T.Run(log);
      && T.Sound(db) && a in db.users && db.users[a].pw == "p" && b in db.users && db.users[b].pw == "p"
      && 1 in db.rooms && db.rooms[1].owner == a && db.nextRoom == 2 && db.friendships == {} && db.requests == map[]
      && (1, a) in db.members && (1, b) !in db.members
  {
    log := [T.Signup(a, "p"), T.Signup(b, "p"), T.CreateRoom(a, "r", 0)];
    RunsTo(log, 3);
    P.EmptyIsSound();
    T.RunIsSound(T.EMPTY, log);
  }

  lemma CommandsAreFine(user: string)
    requires user != ""
    ensures FieldsNotEmpty(Login(user, "p")) && FieldsNotEmpty(CreateRoom("x")) && FieldsNotEmpty(Say("1", "hi"))
    ensures FieldsNotEmpty(LeaveRoom("1"))
  {}

  /** Logged in as a, one client sends in one go: log in as b, create a room, say something in a's room. The last two
      still run as a, and the room list loaded for a stays on b's connection. */
  lemma StaleTaskGoesAstray(a: string, b: string) returns (log: seq<T.Txn>)
    requires a != b && a != "" && b != ""
    ensures SomeRunGoesAstray(T.Run(log))
  {
    log := TwoUsers(a, b);
    var db := T.Run(log);
    var w0 := Boot(db);
    CommandsAreFine(a);
    CommandsAreFine(b);
    ReachesSelf(w0);
    var w := Connects(w0, w0, db, map[], 1);
    w := Asks(w0, w, db, map[1 := UNKNOWN], [], Login(a, "p"), 1);
    assert [] + [Task(Login(a, "p"), 1, "")] == [Task(Login(a, "p"), 1, "")] + [];
    w := LogsIn(w0, w, db, map[1 := UNKNOWN], Task(Login(a, "p"), 1, ""), []);
    var asA := map[1 := Cell(a, T.RoomsOf(db, a))];
    assert map[1 := UNKNOWN][1 := Cell(a, T.RoomsOf(db, a))] == asA;
    StaleFromA(w0, w, db, a, b);
    var w' :| Reaches(w0, w') && GoesAstray(w', 1);
    PathIsRun(db, w', 1);
  }

  lemma StaleFromA(w0: World, w: World, db: T.Db, a: string, b: string)
    requires a != b && a != "" && b != "" && T.Sound(db) && b in db.users && db.users[b].pw == "p" && a in db.users
    requires (1, a) in db.members && (1, b) !in db.members && db.nextRoom == 2
    requires Reaches(w0, w) && AtRest(w, db, map[1 := Cell(a, T.RoomsOf(db, a))], [])
    ensures CanGoAstray(w0, 1)
  {
    CommandsAreFine(b);
    var asA, asB := map[1 := Cell(a, T.RoomsOf(db, a))], map[1 := Cell(b, T.RoomsOf(db, b))];
    var login, create, say := Task(Login(b, "p"), 1, a), Task(CreateRoom("x"), 1, a), Task(Say("1", "hi"), 1, a);
    var v := Asks(w0, w, db, asA, [], login.cmd, 1);
    v := Asks(w0, v, db, asA, [] + [login], create.cmd, 1);
    v := Asks(w0, v, db, asA, [] + [login] + [create], say.cmd, 1);
    assert [] + [login] + [create] + [say] == [login] + [create, say] && [create] + [say] == [create, say];
    v := LogsIn(w0, v, db, asA, login, [create, say]);
    assert asA[1 := Cell(b, T.RoomsOf(db, b))] == asB;
    CreatesThenSays(w0, v, db, a, b, create, say);
  }

  lemma CreatesThenSays(w0: World, w: World, db: T.Db, a: string, b: string, create: Task, say: Task)
    requires a != b && a != "" && T.Sound(db) && a in db.users && db.nextRoom == 2
    requires (1, a) in db.members && (1, b) !in db.members
    requires create == Task(CreateRoom("x"), 1, a) && say == Task(Say("1", "hi"), 1, a)
    requires Reaches(w0, w) && AtRest(w, db, map[1 := Cell(b, T.RoomsOf(db, b))], [create] + [say])
    ensures CanGoAstray(w0, 1)
  {
    OneIsOne();
    var asB := map[1 := Cell(b, T.RoomsOf(db, b))];
    var v := Serves(w0, w, db, asB, create, [say], CALM);
    CreatesStale(db, a, b, create);
    var e := Execute(db, create, CALM);
    TaskKeepsSound(db, create, CALM);
    assert [say] + [] == [say];
    v := SaysToStranger(w0, v, e.db, CellsAfter(db, create, CALM, asB), say, [], 1, 1);
  }

  lemma CreatesStale(db: T.Db, a: string, b: string, t: Task)
    requires a != b && a != "" && T.Sound(db) && a in db.users && db.nextRoom == 2
    requires (1, a) in db.members && (1, b) !in db.members
    requires t == Task(CreateRoom("x"), 1, a)
    ensures var e := Execute(db, t, CALM);
      && (1, a) in e.db.members && (1, b) !in e.db.members
      && CellsAfter(db, t, CALM, map[1 := Cell(b, T.RoomsOf(db, b))])[1] == Cell(b, T.RoomsOf(e.db, a))
      && 1 in T.RoomsOf(e.db, a)
  {
    TaskCommits(db, t, CALM);
    assert ChangeOf(db, t, CALM) == Reload(a);
  }

  // ---------------------------------------------------------------- a reload that fails

  lemma TwoMembers(a: string, b: string) returns (log: seq<T.Txn>)
    requires a != b
    ensures var db := T.Run(log);
      && T.Sound(db) && a in db.users && db.users[a].pw == "p" && b in db.users && db.users[b].pw == "p"
      && 1 in db.rooms && db.rooms[1].owner == a && (1, a) in db.members && (1, b) in db.members
  {
    var init := TwoUsers(a, b);
    log := init + [T.RequestFriend(a, b), T.AcceptFriend(a, b), T.InviteRoom(a, 1, b)];
    var db := T.Run(init);
    assert log[..3] == init && log[..6] == log;
    T.RunStep(T.EMPTY, log, 3);
    T.RunStep(T.EMPTY, log, 4);
    T.RunStep(T.EMPTY, log, 5);
    Invited(db, a, b);
    P.EmptyIsSound();
    T.RunIsSound(T.EMPTY, log);
  }

  lemma Invited(db: T.Db, a: string, b: string)
    requires a != b && a in db.users && b in db.users && 1 in db.rooms && (1, a) in db.members && (1, b) !in db.members
    requires db.friendships == {} && db.requests == map[]
    ensures T.Commit(T.Commit(T.Commit(db, T.RequestFriend(a, b)), T.AcceptFriend(a, b)), T.InviteRoom(a, 1, b)) ==
      db.(requests := map[(a, b) := T.Accepted], friendships := {Pair(a, b)}, members := db.members[(1, b) := T.Member])
  {
    PairLaws(a, b);
    assert T.Commit(db, T.RequestFriend(a, b)).requests == map[(a, b) := T.Pending];
    var d := T.Commit(T.Commit(db, T.RequestFriend(a, b)), T.AcceptFriend(a, b));
    assert d.requests == map[(a, b) := T.Accepted] && d.friendships == {Pair(a, b)};
  }

  /** Nothing fails but the reload after the transaction. */
  const UNLOADED := CALM.(reload := Some(T.ConnectionFailure))

  /** b leaves, the reload fails, and b's connection still gets what a says next. */
  lemma FailedReloadGoesAstray(a: string, b: string) returns (log: seq<T.Txn>)
    requires a != b && a != "" && b != ""
    ensures SomeRunGoesAstray(T.Run(log))
  {
    log := TwoMembers(a, b);
    var db := T.Run(log);
    var w0 := Boot(db);
    CommandsAreFine(a);
    CommandsAreFine(b);
    ReachesSelf(w0);
    var w := Connects(w0, w0, db, map[], 1);
    w := Connects(w0, w, db, map[][1 := UNKNOWN], 2);
    var cells := map[][1 := UNKNOWN][2 := UNKNOWN];
    var login := Task(Login(b, "p"), 1, "");
    w := Asks(w0, w, db, cells, [], login.cmd, 1);
    assert [] + [login] == [login] + [];
    w := LogsIn(w0, w, db, cells, login, []);
    cells := cells[1 := Cell(b, T.RoomsOf(db, b))];
    login := Task(Login(a, "p"), 2, "");
    w := Asks(w0, w, db, cells, [], login.cmd, 2);
    assert [] + [login] == [login] + [];
    w := LogsIn(w0, w, db, cells, login, []);
    cells := cells[2 := Cell(a, T.RoomsOf(db, a))];
    LeavesUntold(w0, w, db, cells, a, b);
    var w' :| Reaches(w0, w') && GoesAstray(w', 1);
    PathIsRun(db, w', 1);
  }

  lemma LeavesUntold(w0: World, w: World, db: T.Db, cells: map<int, Cell>, a: string, b: string)
    requires a != b && a != "" && b != "" && T.Sound(db)
    requires 1 in db.rooms && db.rooms[1].owner == a && (1, a) in db.members && (1, b) in db.members
    requires cells.Keys == {1, 2} && cells[1] == Cell(b, T.RoomsOf(db, b)) && cells[2].user == a
    requires Reaches(w0, w) && AtRest(w, db, cells, [])
    ensures CanGoAstray(w0, 1)
  {
    CommandsAreFine(b);
    OneIsOne();
    var leave, say := Task(LeaveRoom("1"), 1, b), Task(Say("1", "hi"), 2, a);
    var v := Asks(w0, w, db, cells, [], leave.cmd, 1);
    v := Asks(w0, v, db, cells, [] + [leave], say.cmd, 2);
    assert [] + [leave] + [say] == [leave] + [say] && [say] + [] == [say];
    v := Serves(w0, v, db, cells, leave, [say], UNLOADED);
    LeftUntold(db, cells, leave);
    TaskKeepsSound(db, leave, UNLOADED);
    v := SaysToStranger(w0, v, Execute(db, leave, UNLOADED).db, CellsAfter(db, leave, UNLOADED, cells), say, [], 1, 1);
  }

  lemma LeftUntold(db: T.Db, cells: map<int, Cell>, t: Task)
    requires T.Sound(db) && t.cmd == LeaveRoom("1") && t.userId != "" && 1 in cells
    requires 1 in db.rooms && db.rooms[1].owner != t.userId && (1, t.userId) in db.members
    ensures var e := Execute(db, t, UNLOADED);
      && e.db.members == db.members - {(1, t.userId)}
      && CellsAfter(db, t, UNLOADED, cells)[1] == cells[1]
  {
    OneIsOne();
    TaskCommits(db, t, UNLOADED);
    assert ChangeOf(db, t, UNLOADED) == NoChange;
  }
}
