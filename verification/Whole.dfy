/** The whole server: the event loop with its handlers, among acceptor and database worker. Every run of it is a run of
    the room-delivery model, in which moving bytes and receiving commands are free choices; so what is proved there of
    room messages holds of the handlers. */
module Whole {
  import opened Text
  import opened Codec
  import opened Connections
  import opened Tasks
  import opened Handlers
  import opened Executor
  import opened Outgoing
  import opened Cells
  import D = Delivery
  import R = Reactor
  import T = Tables

  /** `done` counts the tasks taken by the worker, `out` are the requests it has still to push, and `dbs` are, for each
      request waiting in batch and queue, the database as it was when the request was made. `known` are the descriptors
      registered so far, `logged` those on which a login succeeded. */
  datatype Server = Server(loop: R.Loop, db: T.Db, done: nat, out: seq<D.Stamped>, dbs: seq<T.Db>,
                           known: set<int>, logged: set<int>)

  datatype Move =
    | LoopStep(step: R.Step)  // the acceptor queues a connection, or the loop makes a step
    | Start(chance: Chance)   // the worker takes the oldest task and runs its transactions
    | Push                    // the worker queues its next request

  function Boot(db: T.Db): Server {
    Server(R.START, db, 0, [], [], {}, {})
  }

  function Waiting(s: Server): seq<Request> {
    s.loop.batch + s.loop.queue
  }

  predicate Possible(s: Server, move: Move) {
    match move
    case LoopStep(step) => !step.Ask? && R.Possible(s.loop, step)
    case Start(_) => s.done < |s.loop.tasks| && s.out == []
    case Push => s.out != [] && R.Possible(s.loop, R.Ask(s.out[0].req))
  }

  ghost predicate Consistent(s: Server) {
    && |s.dbs| == |Waiting(s)| && s.done <= |s.loop.tasks|
    && forall i :: 0 <= i < |s.out| ==> !s.out[i].req.RegisterFd? && !s.out[i].req.UnregisterFd?
  }

  function Copies(db: T.Db, n: int): seq<T.Db> {
    if n <= 0 then [] else Copies(db, n - 1) + [db]
  }

  ghost function Next(s: Server, move: Move): Server
    requires Possible(s, move)
  {
    match move
    case LoopStep(step) => Looped(s, step)
    case Start(ch) =>
      var t := s.loop.tasks[s.done];
      var e := Execute(s.db, t, ch);
      s.(db := e.db, done := s.done + 1, out := D.Stamps(e.requests, e.db),
         logged := if ChangeOf(s.db, t, ch).LoggedIn? then s.logged + {t.fd} else s.logged)
    case Push =>
      s.(loop := R.Next(s.loop, R.Ask(s.out[0].req)), dbs := s.dbs + [s.out[0].db], out := s.out[1..])
  }

  /** A request handled leaves with its database; each one queued comes with today's. */
  ghost function Looped(s: Server, step: R.Step): Server
    requires Possible(s, LoopStep(step))
  {
    var loop' := R.Next(s.loop, step);
    match step
    case HandleOne(_) =>
      var req := s.loop.batch[0];
      s.(loop := loop', dbs := if s.dbs == [] then [] else s.dbs[1..],
         known := if req.RegisterFd? then s.known + {req.fd} else s.known)
    case Wait(_) => s.(loop := loop')
    case _ => s.(loop := loop', dbs := s.dbs + Copies(s.db, |loop'.queue| - |s.loop.queue|))
  }

  // ---------------------------------------------------------------- as a run of the delivery model

  function Zip(reqs: seq<Request>, dbs: seq<T.Db>): seq<D.Stamped> {
    seq(|reqs|, i requires 0 <= i < |reqs| => D.Stamped(reqs[i], if i < |dbs| then dbs[i] else T.EMPTY))
  }

  lemma ZipSnoc(reqs: seq<Request>, dbs: seq<T.Db>, req: Request, db: T.Db)
    requires |reqs| == |dbs|
    ensures Zip(reqs + [req], dbs + [db]) == Zip(reqs, dbs) + [D.Stamped(req, db)]
  {}

  function WorldOf(s: Server): D.World {
    var tasks := if s.done <= |s.loop.tasks| then s.loop.tasks[s.done..] else [];
    D.World(s.db, tasks, s.out, Zip(Waiting(s), s.dbs), s.loop.infos, s.loop.seen, s.known, s.logged)
  }

  /** These steps of the delivery model lead from one state to the other, and they begin no task. */
  ghost predicate Quietly(w: D.World, steps: seq<D.Step>, w': D.World)
    decreases |steps|
  {
    if steps == [] then w == w'
    else !steps[0].Start? && D.Possible(w, steps[0]) && Quietly(D.Next(w, steps[0]), steps[1..], w')
  }

  lemma OneStep(w: D.World, step: D.Step)
    requires !step.Start? && D.Possible(w, step)
    ensures Quietly(w, [step], D.Next(w, step))
  {
    assert [step][1..] == [];
  }

  lemma TwoSteps(w: D.World, a: D.Step, b: D.Step)
    requires !a.Start? && D.Possible(w, a) && !b.Start? && D.Possible(D.Next(w, a), b)
    ensures Quietly(w, [a, b], D.Next(D.Next(w, a), b))
  {
    assert [a, b][1..] == [b];
    OneStep(D.Next(w, a), b);
  }

  lemma WaitingGrows(s: Server, s': Server, req: Request)
    requires Consistent(s) && s'.loop.batch == s.loop.batch && s'.loop.queue == s.loop.queue + [req]
    requires s'.dbs == s.dbs + [s.db]
    ensures |s'.dbs| == |Waiting(s')|
    ensures Zip(Waiting(s'), s'.dbs) == Zip(Waiting(s), s.dbs) + [D.Stamped(req, s.db)]
  {
    assert Waiting(s') == Waiting(s) + [req];
    ZipSnoc(Waiting(s), s.dbs, req, s.db);
  }

  lemma AcceptMove(s: Server, step: R.Step) returns (steps: seq<D.Step>)
    requires Consistent(s) && Possible(s, LoopStep(step)) && step.Accept?
    ensures Consistent(Looped(s, step)) && Quietly(WorldOf(s), steps, WorldOf(Looped(s, step)))
  {
    var s' := Looped(s, step);
    OneCopy(s.db);
    WaitingGrows(s, s', RegisterFd(step.fd, step.interest));
    steps := [D.Accept(step.fd, step.interest)];
    OneStep(WorldOf(s), steps[0]);
  }

  lemma OneCopy(db: T.Db)
    ensures Copies(db, 1) == [db] && Copies(db, 0) == []
  {
    assert Copies(db, 1) == Copies(db, 0) + [db];
  }

  lemma HandleMove(s: Server, step: R.Step) returns (steps: seq<D.Step>)
    requires Consistent(s) && Possible(s, LoopStep(step)) && step.HandleOne?
    ensures Consistent(Looped(s, step)) && Quietly(WorldOf(s), steps, WorldOf(Looped(s, step)))
  {
    var s' := Looped(s, step);
    assert Waiting(s') == Waiting(s)[1..] && Waiting(s)[0] == s.loop.batch[0];
    assert Zip(Waiting(s'), s'.dbs) == Zip(Waiting(s), s.dbs)[1..];
    steps := [D.HandleNext(step.kernel)];
    OneStep(WorldOf(s), steps[0]);
  }

  /** A step that changes nothing but what the loop has in hand. */
  lemma IdleMove(s: Server, s': Server)
    requires Consistent(s) && s' == s.(loop := s'.loop) && Waiting(s') == Waiting(s)
    requires s'.loop.infos == s.loop.infos && s'.loop.seen == s.loop.seen && s'.loop.tasks == s.loop.tasks
    ensures Consistent(s') && Quietly(WorldOf(s), [], WorldOf(s'))
  {}

  /** A handler moves bytes of one connection, and queues its removal if it closes it. */
  lemma IoMove(s: Server, s': Server, fd: int, c': Conn) returns (steps: seq<D.Step>)
    requires Consistent(s) && fd in s.loop.infos && Carries(s.loop.infos[fd], c')
    requires var more := Removal(s.loop.infos[fd], c', fd);
      && s' == s.(loop := s'.loop, dbs := s.dbs + Copies(s.db, |more|))
      && s'.loop.infos == s.loop.infos[fd := c'] && s'.loop.batch == s.loop.batch
      && s'.loop.queue == s.loop.queue + more
      && s'.loop.seen == s.loop.seen && s'.loop.tasks == s.loop.tasks
    ensures Consistent(s') && Quietly(WorldOf(s), steps, WorldOf(s'))
  {
    OneCopy(s.db);
    var io := D.Io(fd, c');
    if Removal(s.loop.infos[fd], c', fd) == [] {
      assert s'.loop.queue == s.loop.queue && s'.dbs == s.dbs;
      steps := [io];
      OneStep(WorldOf(s), io);
    } else {
      WaitingGrows(s, s', UnregisterFd(fd));
      steps := [io, D.Tell(UnregisterFd(fd))];
      TwoSteps(WorldOf(s), io, steps[1]);
    }
  }

  /** Executing a line takes it out of the inbox, and hands on its task or its echo. */
  lemma ExecuteMove(s: Server, step: R.Step) returns (steps: seq<D.Step>)
    requires Consistent(s) && Possible(s, LoopStep(step)) && step.Execute?
    requires NextLine(s.loop.infos[s.loop.current.value.fd].inbox).Some?
    ensures Consistent(Looped(s, step)) && Quietly(WorldOf(s), steps, WorldOf(Looped(s, step)))
  {
    var s', fd := Looped(s, step), s.loop.current.value.fd;
    var c := s.loop.infos[fd];
    var line := NextLine(c.inbox).value;
    var io := D.Io(fd, c.(inbox := Behind(c.inbox)));
    OneCopy(s.db);
    if Decode(line).Err? || (IsDbCommand(Decode(line).value) && !step.accepting) {
      assert s'.loop.queue == s.loop.queue && s'.loop.tasks == s.loop.tasks && s'.dbs == s.dbs;
      steps := [io];
      OneStep(WorldOf(s), io);
    } else if IsDbCommand(Decode(line).value) {
      var cmd := Decode(line).value;
      AskedFields(line, cmd);
      assert s'.loop.queue == s.loop.queue && s'.dbs == s.dbs;
      assert s'.loop.tasks[s.done..] == s.loop.tasks[s.done..] + [Task(cmd, fd, c.userId)];
      steps := [io, D.Ask(cmd, fd)];
      TwoSteps(WorldOf(s), io, steps[1]);
    } else {
      var echo := SendOne(fd, Decode(line).value);
      WaitingGrows(s, s', echo);
      assert s'.loop.tasks == s.loop.tasks;
      steps := [io, D.Tell(echo)];
      TwoSteps(WorldOf(s), io, steps[1]);
    }
  }

  lemma AskedFields(line: string, cmd: Command)
    requires Decode(line) == Ok(cmd)
    ensures FieldsNotEmpty(cmd)
  {
    DecodedFieldsAreNotEmpty(line, cmd);
  }

  /** Every step of the acceptor and the loop is made of steps of the delivery model. */
  lemma LoopMove(s: Server, step: R.Step) returns (steps: seq<D.Step>)
    requires Consistent(s) && Possible(s, LoopStep(step))
    ensures Consistent(Looped(s, step)) && Quietly(WorldOf(s), steps, WorldOf(Looped(s, step)))
  {
    var s' := Looped(s, step);
    OneCopy(s.db);
    match step {
      case Accept(_, _) => steps := AcceptMove(s, step);
      case HandleOne(_) => steps := HandleMove(s, step);
      case Wait(_) =>
        assert s.loop.batch + s.loop.queue == s'.loop.batch + s'.loop.queue;
        IdleMove(s, s');
        steps := [];
      case Begin =>
        assert s'.dbs == s.dbs;
        IdleMove(s, s');
        steps := [];
      case _ => steps := DispatchMove(s, step);
    }
  }

  lemma DispatchMove(s: Server, step: R.Step) returns (steps: seq<D.Step>)
    requires Consistent(s) && Possible(s, LoopStep(step))
    requires step.ClientError? || step.Recv? || step.Send? || step.Execute?
    ensures Consistent(Looped(s, step)) && Quietly(WorldOf(s), steps, WorldOf(Looped(s, step)))
  {
    var s', d := Looped(s, step), s.loop.current.value;
    var c := s.loop.infos[d.fd];
    if (step.Recv? && !IsRead(d.bits)) || (step.Send? && Out !in d.bits)
       || (step.Execute? && NextLine(c.inbox).None?) {
      assert s'.dbs == s.dbs;
      IdleMove(s, s');
      steps := [];
    } else if step.Execute? {
      steps := ExecuteMove(s, step);
    } else {
      if step.Recv? { RecvOutcome(c, d.bits, step.env); }
      if step.Send? { SendOutcome(c, step.env); }
      var c' := if step.ClientError? then c.(closed := true)
                else if step.Recv? then AfterRecv(c, d.bits, step.env) else AfterSend(c, step.env);
      steps := IoMove(s, s', d.fd, c');
    }
  }

  lemma StartMove(s: Server, ch: Chance)
    requires Consistent(s) && Possible(s, Start(ch))
    ensures Consistent(Next(s, Start(ch)))
    ensures D.Possible(WorldOf(s), D.Start(ch)) && WorldOf(Next(s, Start(ch))) == D.Next(WorldOf(s), D.Start(ch))
  {
    var t := s.loop.tasks[s.done];
    D.TaskIsOwn(s.db, t, ch);
    var reqs := Execute(s.db, t, ch).requests;
    assert forall i :: 0 <= i < |reqs| ==> D.Own(reqs[i], t.cmd, t.fd);
  }

  lemma PushMove(s: Server)
    requires Consistent(s) && Possible(s, Push)
    ensures Consistent(Next(s, Push))
    ensures D.Possible(WorldOf(s), D.Push) && WorldOf(Next(s, Push)) == D.Next(WorldOf(s), D.Push)
  {
    var s', item := Next(s, Push), s.out[0];
    assert Waiting(s') == Waiting(s) + [item.req];
    ZipSnoc(Waiting(s), s.dbs, item.req, item.db);
  }

  // ---------------------------------------------------------------- runs

  ghost predicate Moves(s: Server, move: Move, s': Server) {
    Possible(s, move) && s' == Next(s, move)
  }

  ghost predicate Run(states: seq<Server>, moves: seq<Move>, db: T.Db) {
    && |states| == |moves| + 1 && states[0] == Boot(db)
    && forall i :: 0 <= i < |moves| ==> Moves(states[i], moves[i], states[i + 1])
  }

  /** The rules of orderly delivery, kept whenever the worker begins a task. */
  ghost predicate OrderlyRun(states: seq<Server>, moves: seq<Move>, exact: bool) {
    |states| == |moves| + 1 &&
    forall i :: 0 <= i < |moves| && moves[i].Start? ==> D.Orderly(WorldOf(states[i]), D.Start(moves[i].chance), exact)
  }

  lemma {:induction false} QuietKeepsInv(w: D.World, steps: seq<D.Step>, w': D.World, p: D.Promise)
    requires D.Inv(w, p) && Quietly(w, steps, w')
    ensures D.Inv(w', p)
    decreases |steps|
  {
    if steps != [] {
      D.StepKeepsInv(w, steps[0], p);
      QuietKeepsInv(D.Next(w, steps[0]), steps[1..], w', p);
    }
  }

  lemma MoveKeepsInv(s: Server, move: Move, exact: bool)
    requires Consistent(s) && Possible(s, move) && D.Inv(WorldOf(s), D.Promise(exact, true))
    requires move.Start? ==> D.Orderly(WorldOf(s), D.Start(move.chance), exact)
    ensures Consistent(Next(s, move)) && D.Inv(WorldOf(Next(s, move)), D.Promise(exact, true))
  {
    var p := D.Promise(exact, true);
    match move {
      case LoopStep(step) =>
        var steps := LoopMove(s, step);
        QuietKeepsInv(WorldOf(s), steps, WorldOf(Next(s, move)), p);
      case Start(ch) =>
        StartMove(s, ch);
        D.OrderlyIsHarmless(WorldOf(s), D.Start(ch), exact);
        D.StepKeepsInv(WorldOf(s), D.Start(ch), p);
      case Push =>
        PushMove(s);
        D.StepKeepsInv(WorldOf(s), D.Push, p);
    }
  }

  lemma {:induction false} RunKeepsInv(states: seq<Server>, moves: seq<Move>, db: T.Db, exact: bool, i: nat)
    requires T.Sound(db) && Run(states, moves, db) && OrderlyRun(states, moves, exact) && i <= |moves|
    ensures Consistent(states[i]) && D.Inv(WorldOf(states[i]), D.Promise(exact, true))
  {
    if i == 0 {
      assert WorldOf(Boot(db)) == D.Boot(db);
    } else {
      RunKeepsInv(states, moves, db, exact, i - 1);
      assert Moves(states[i - 1], moves[i - 1], states[i - 1 + 1]);
      MoveKeepsInv(states[i - 1], moves[i - 1], exact);
    }
  }

  /** The connections logged in as somebody who was in the room then. */
  function OnlineThen(t: Table, roomId: int, past: T.Db): set<int> {
    set fd | fd in t && t[fd].userId != "" && (roomId, t[fd].userId) in past.members
  }

  /** Room delivery by the loop and its handlers: in every run that keeps the rules, whenever the loop is about to
      handle a room message, the connections it goes to are logged in as somebody who was a member of the room when the
      message was written; and, under the rules for exact delivery, they are all the connections of which this holds. */
  lemma WholeDelivery(states: seq<Server>, moves: seq<Move>, db: T.Db, exact: bool)
    requires T.Sound(db) && Run(states, moves, db) && OrderlyRun(states, moves, exact)
    requires var s := states[|moves|]; s.loop.batch != [] && s.loop.batch[0].RoomBroadcast?
    ensures var s := states[|moves|];
      var req, infos := s.loop.batch[0], s.loop.infos;
      && |s.dbs| > 0 && D.Announces(D.Stamped(req, s.dbs[0]))
      && Members(infos, req.roomId) <= OnlineThen(infos, req.roomId, s.dbs[0])
      && (exact ==> Members(infos, req.roomId) == OnlineThen(infos, req.roomId, s.dbs[0]))
  {
    RunKeepsInv(states, moves, db, exact, |moves|);
    var w := WorldOf(states[|moves|]);
    assert Waiting(states[|moves|])[0] == states[|moves|].loop.batch[0];
    D.InvDelivers(w, D.Promise(exact, true));
    assert OnlineThen(w.infos, w.queue[0].req.roomId, w.queue[0].db) == D.OnlineMembers(w);
  }

  /** And what they read is the message just written, signed with the nickname of the connection it came from. */
  lemma WholeReading(states: seq<Server>, moves: seq<Move>, db: T.Db, exact: bool, k: Kernel, fd: int)
    requires T.Sound(db) && Run(states, moves, db) && OrderlyRun(states, moves, exact)
    requires var s := states[|moves|]; s.loop.batch != [] && s.loop.batch[0].RoomBroadcast?
    requires var s := states[|moves|];
      fd in Members(s.loop.infos, s.loop.batch[0].roomId) && fd in Handle(s.loop.infos, s.loop.batch[0], k)
    ensures var s := states[|moves|];
      && |s.dbs| > 0 && |s.dbs[0].messages| > 0
      && var req, t, m := s.loop.batch[0], s.loop.infos, s.dbs[0].messages[|s.dbs[0].messages| - 1];
         var name := if req.fd in t && t[req.fd].nickname != "" then t[req.fd].nickname else "guest";
         && m.roomId == req.roomId && (m.roomId, m.sender) in s.dbs[0].members
         && Stream(Handle(t, req, k)[fd]) == Stream(t[fd]) + Encode(Response(name + ": " + m.body))
  {
    WholeDelivery(states, moves, db, exact);
    var s := states[|moves|];
    var req, m := s.loop.batch[0], s.dbs[0].messages[|s.dbs[0].messages| - 1];
    RoomMessageIsSigned(s.loop.infos, req.fd, req.roomId, m.body, k, fd);
    assert "guest" + ": " == "guest: ";
  }
}
