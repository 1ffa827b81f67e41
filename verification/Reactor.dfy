/** The event loop among its producers: the acceptor and the workers queue requests at any moment, also while the
    loop handles a batch or dispatches an event. Any interleaving of the steps is a run. */
module Reactor {
  import opened Text
  import opened Connections
  import opened Indexes
  import opened Lifecycle
  import opened Tasks
  import opened Handlers

  /** An event as the wait reports it. */
  datatype Report = Report(fd: int, bits: Mask)

  /** What the dispatch of an event does next. */
  datatype Stage = Failing | Receiving | Sending | Executing

  datatype Dispatch = Dispatch(fd: int, bits: Mask, stage: Stage)

  /** `batch` is what the loop took from the queue and has still to handle; `events` are the reports of the last wait
      not dispatched yet; `current` is the dispatch under way; `seen` are all descriptors ever accepted; `tasks` are
      all tasks handed to the executor. */
  datatype Loop = Loop(infos: Table, masks: map<int, Mask>, batch: seq<Request>, queue: seq<Request>,
                       events: seq<Report>, current: Option<Dispatch>, seen: set<int>, tasks: seq<Task>)

  const START := Loop(map[], map[], [], [], [], None, {}, [])

  /** The steps of the loop carry what TLS, the peer, the kernel and the executor answer; what becomes of the
      connection and its mask is the handlers' doing. */
  datatype Step =
    | Accept(fd: int, interest: Mask)  // the acceptor queues a new connection
    | Ask(req: Request)                // a worker queues a request
    | Wait(events: seq<Report>)        // the wait returns, and the loop takes the whole queue
    | HandleOne(kernel: Kernel)        // the loop handles the oldest request of the batch
    | Begin                            // the dispatch of the next event begins
    | ClientError                      // the error handler runs
    | Recv(env: Env)                   // the receive handler runs, if the event is one to read
    | Send(env: Env)                   // the send handler runs, if the event is one to write
    | Execute(accepting: bool)         // the next complete line is executed, or there is none

  predicate Distinct(events: seq<Report>) {
    forall i, j :: 0 <= i < j < |events| ==> events[i].fd != events[j].fd
  }

  predicate AtStage(s: Loop, stage: Stage) {
    s.current.Some? && s.current.value.stage == stage && s.current.value.fd in s.infos && s.current.value.fd in s.masks
  }

  predicate Possible(s: Loop, step: Step) {
    match step
    case Accept(fd, _) => fd !in s.seen
    case Ask(req) => !req.RegisterFd? && !req.UnregisterFd?
    case Wait(events) => s.batch == [] && s.events == [] && s.current == None && Distinct(events)
    case HandleOne(_) => s.batch != []
    case Begin => s.batch == [] && s.current == None && s.events != []
    case ClientError => AtStage(s, Failing)
    case Recv(_) => AtStage(s, Receiving)
    case Send(_) => AtStage(s, Sending)
    case Execute(_) => AtStage(s, Executing)
  }

  /** The current connection and its mask change, its removal is queued if it is closed for the first time, and the
      dispatch goes on or ends. */
  function Changed(s: Loop, c': Conn, mask': Mask, next: Option<Stage>): Loop
    requires s.current.Some? && s.current.value.fd in s.infos
  {
    var fd := s.current.value.fd;
    s.(infos := s.infos[fd := c'], masks := s.masks[fd := mask'], queue := s.queue + Removal(s.infos[fd], c', fd),
       current := GoTo(s.current.value, next))
  }

  function GoTo(d: Dispatch, next: Option<Stage>): Option<Dispatch> {
    match next case None => None case Some(stage) => Some(d.(stage := stage))
  }

  function Begun(s: Loop): Loop
    requires s.events != []
  {
    var r := s.events[0];
    var first := if Trouble in r.bits then Failing else Receiving;
    s.(events := s.events[1..], current := if r.fd in s.infos then Some(Dispatch(r.fd, r.bits, first)) else None)
  }

  function Received(s: Loop, e: Env): Loop
    requires AtStage(s, Receiving)
  {
    var d := s.current.value;
    var c := s.infos[d.fd];
    if !IsRead(d.bits) then s.(current := Some(d.(stage := Sending)))
    else Changed(s, AfterRecv(c, d.bits, e), RecvMask(c, e, s.masks[d.fd]),
                 if KeepsAlive(c, d.bits, e) then Some(Sending) else None)
  }

  function Sent(s: Loop, e: Env): Loop
    requires AtStage(s, Sending)
  {
    var d := s.current.value;
    var c := s.infos[d.fd];
    var next := if IsRead(d.bits) then Some(Executing) else None;
    if Out !in d.bits then s.(current := GoTo(d, next))
    else Changed(s, AfterSend(c, e), SendMask(c, e, s.masks[d.fd]), next)
  }

  ghost function Executed(s: Loop, accepting: bool): Loop
    requires AtStage(s, Executing)
  {
    var d := s.current.value;
    var c := s.infos[d.fd];
    if NextLine(c.inbox).None? then s.(current := None)
    else
      var line := NextLine(c.inbox).value;
      s.(infos := s.infos[d.fd := c.(inbox := Behind(c.inbox))], queue := s.queue + LineEcho(line, d.fd),
         tasks := s.tasks + if accepting then LineTask(line, d.fd, c.userId) else [],
         current := if GoesOn(line, accepting) then s.current else None)
  }

  ghost function Next(s: Loop, step: Step): Loop
    requires Possible(s, step)
  {
    match step
    case Accept(fd, interest) => s.(queue := s.queue + [RegisterFd(fd, interest)], seen := s.seen + {fd})
    case Ask(req) => s.(queue := s.queue + [req])
    case Wait(events) => s.(events := events, batch := s.queue, queue := [])
    case HandleOne(k) =>
      var t' := Handle(s.infos, s.batch[0], k);
      s.(infos := t', masks := MasksAfter(s.infos, t', s.masks), batch := s.batch[1..])
    case Begin => Begun(s)
    case ClientError =>
      var fd := s.current.value.fd;
      Changed(s, s.infos[fd].(closed := true), s.masks[fd], None)
    case Recv(e) => Received(s, e)
    case Send(e) => Sent(s, e)
    case Execute(accepting) => Executed(s, accepting)
  }

  ghost predicate Moves(s: Loop, step: Step, s': Loop) {
    Possible(s, step) && s' == Next(s, step)
  }

  ghost predicate Run(states: seq<Loop>, steps: seq<Step>) {
    && |states| == |steps| + 1
    && forall i :: 0 <= i < |steps| ==> Moves(states[i], steps[i], states[i + 1])
  }

  // ---------------------------------------------------------------- what every step keeps

  /** Whoever is registered, or named by a waiting register or unregister request, was accepted before. */
  ghost predicate AllSeen(t: Table, waiting: seq<Request>, seen: set<int>) {
    && t.Keys <= seen
    && forall i, fd :: 0 <= i < |waiting| && Mentions(waiting[i], fd) ==> fd in seen
  }

  /** No event still to be dispatched is the current one, or one whose removal has just been queued; and a dispatch
      is only under way when no batch is in hand. */
  ghost predicate EventsOpen(s: Loop) {
    && Distinct(s.events)
    && (s.current.Some? ==> s.batch == [] && s.current.value.fd in s.infos)
    && forall i :: 0 <= i < |s.events| ==>
         (s.current.Some? ==> s.events[i].fd != s.current.value.fd) && UnregisterFd(s.events[i].fd) !in s.queue
  }

  ghost predicate Inv(s: Loop) {
    && TeardownExact(s.infos, s.batch + s.queue)
    && FreshIds(s.infos, s.batch + s.queue)
    && AllSeen(s.infos, s.batch + s.queue, s.seen)
    && AllWatched(s.infos, s.masks)
    && EventsOpen(s)
  }

  lemma AcceptKeeps(t: Table, fd: int, interest: Mask, waiting: seq<Request>, seen: set<int>)
    requires TeardownExact(t, waiting) && FreshIds(t, waiting) && AllSeen(t, waiting, seen) && fd !in seen
    ensures TeardownExact(t, waiting + [RegisterFd(fd, interest)]) && FreshIds(t, waiting + [RegisterFd(fd, interest)])
    ensures AllSeen(t, waiting + [RegisterFd(fd, interest)], seen + {fd})
  {
    var w' := waiting + [RegisterFd(fd, interest)];
    assert multiset(w') == multiset(waiting) + multiset{RegisterFd(fd, interest)};
    assert forall j :: 0 <= j < |waiting| ==> w'[j] == waiting[j];
    assert w'[|waiting|] == RegisterFd(fd, interest);
  }

  lemma SeenStays(t: Table, waiting: seq<Request>, req: Request, seen: set<int>)
    requires AllSeen(t, waiting, seen) && forall fd :: Mentions(req, fd) ==> fd in seen
    ensures AllSeen(t, waiting + [req], seen)
  {
    assert forall j :: 0 <= j < |waiting| ==> (waiting + [req])[j] == waiting[j];
  }

  lemma HandleKeeps(t: Table, req: Request, rest: seq<Request>, k: Kernel, seen: set<int>)
    requires AllSeen(t, [req] + rest, seen)
    ensures AllSeen(Handle(t, req, k), rest, seen)
  {
    var all := [req] + rest;
    assert forall j :: 0 <= j < |rest| ==> rest[j] == all[j + 1];
    assert all[0] == req;
    forall fd | fd in Handle(t, req, k) ensures fd in seen {
      if fd !in t {
        HandleAddsOnlyRegistered(t, req, k, fd);
        assert Mentions(all[0], fd);
      }
    }
  }

  lemma HandleOneStep(s: Loop, k: Kernel)
    requires Inv(s) && Possible(s, HandleOne(k))
    ensures Inv(Next(s, HandleOne(k)))
  {
    var rest := s.batch[1..] + s.queue;
    assert s.batch + s.queue == [s.batch[0]] + rest;
    TeardownStep(s.infos, s.batch[0], rest, k);
    HandleKeeps(s.infos, s.batch[0], rest, k, s.seen);
    HandleKeepsWatched(s.infos, s.batch[0], k, s.masks);
  }

  /** A change of one connection, with its removal if it closes it, keeps removals exact. */
  lemma RemovalKeeps(t: Table, fd: int, c': Conn, queue: seq<Request>, seen: set<int>)
    requires TeardownExact(t, queue) && FreshIds(t, queue) && AllSeen(t, queue, seen)
    requires fd in t && (t[fd].closed ==> c'.closed)
    ensures var t', queue' := t[fd := c'], queue + Removal(t[fd], c', fd);
      TeardownExact(t', queue') && FreshIds(t', queue') && AllSeen(t', queue', seen)
  {
    if c'.closed && !t[fd].closed {
      CloseKeepsTeardown(t, fd, c', queue);
      SeenStays(t, queue, UnregisterFd(fd), seen);
    } else {
      assert queue + [] == queue;
      ChangeKeepsTeardown(t, fd, c', queue);
    }
  }

  /** A handler that keeps its connection watched keeps everything. */
  lemma ChangedKeepsInv(s: Loop, c': Conn, mask': Mask, next: Option<Stage>)
    requires Inv(s) && s.current.Some? && s.current.value.fd in s.infos
    requires Carries(s.infos[s.current.value.fd], c') && Watched(c', mask')
    ensures Inv(Changed(s, c', mask', next))
  {
    var fd, s' := s.current.value.fd, Changed(s, c', mask', next);
    assert s.batch + s.queue == s.queue && s'.batch + s'.queue == s'.queue;
    RemovalKeeps(s.infos, fd, c', s.queue, s.seen);
    assert forall i :: 0 <= i < |s.events| ==> s.events[i].fd != fd;
  }

  lemma RecvStep(s: Loop, e: Env)
    requires Inv(s) && Possible(s, Recv(e))
    ensures Inv(Received(s, e))
  {
    var d := s.current.value;
    var c := s.infos[d.fd];
    if IsRead(d.bits) {
      RecvOutcome(c, d.bits, e);
      RecvWatches(c, d.bits, e, s.masks[d.fd]);
      ChangedKeepsInv(s, AfterRecv(c, d.bits, e), RecvMask(c, e, s.masks[d.fd]),
                      if KeepsAlive(c, d.bits, e) then Some(Sending) else None);
    }
  }

  lemma SendStep(s: Loop, e: Env)
    requires Inv(s) && Possible(s, Send(e))
    ensures Inv(Sent(s, e))
  {
    var d := s.current.value;
    var c := s.infos[d.fd];
    if Out in d.bits {
      SendOutcome(c, e);
      SendWatches(c, e, s.masks[d.fd]);
      ChangedKeepsInv(s, AfterSend(c, e), SendMask(c, e, s.masks[d.fd]),
                      if IsRead(d.bits) then Some(Executing) else None);
    }
  }

  lemma ExecuteStep(s: Loop, accepting: bool)
    requires Inv(s) && Possible(s, Execute(accepting))
    ensures Inv(Executed(s, accepting))
  {
    var fd := s.current.value.fd;
    var c := s.infos[fd];
    if NextLine(c.inbox).Some? {
      EchoShape(NextLine(c.inbox).value, fd);
      LineTakenKeepsInv(s, Executed(s, accepting), LineEcho(NextLine(c.inbox).value, fd));
    }
  }

  lemma EchoShape(line: string, fd: int)
    ensures var echo := LineEcho(line, fd); echo == [] || (|echo| == 1 && echo[0].SendOne?)
  {}

  lemma LineTakenKeepsInv(s: Loop, s': Loop, echo: seq<Request>)
    requires Inv(s) && s.current.Some? && s.current.value.fd in s.infos
    requires echo == [] || (|echo| == 1 && echo[0].SendOne?)
    requires s' == s.(infos := s'.infos, queue := s.queue + echo, tasks := s'.tasks, current := s'.current)
    requires s'.current == s.current || s'.current == None
    requires var fd := s.current.value.fd;
      fd in s'.infos && s'.infos == s.infos[fd := s.infos[fd].(inbox := s'.infos[fd].inbox)]
    ensures Inv(s')
  {
    var fd := s.current.value.fd;
    assert s.batch + s.queue == s.queue && s'.batch + s'.queue == s.queue + echo;
    ChangeKeepsTeardown(s.infos, fd, s'.infos[fd], s.queue);
    EchoKeeps(s'.infos, s.queue, echo, s.seen);
  }

  lemma EchoKeeps(t: Table, queue: seq<Request>, echo: seq<Request>, seen: set<int>)
    requires TeardownExact(t, queue) && FreshIds(t, queue) && AllSeen(t, queue, seen)
    requires echo == [] || (|echo| == 1 && echo[0].SendOne?)
    ensures TeardownExact(t, queue + echo) && FreshIds(t, queue + echo) && AllSeen(t, queue + echo, seen)
  {
    if echo == [] {
      assert queue + echo == queue;
    } else {
      assert echo == [echo[0]];
      PushKeepsTeardown(t, queue, echo[0]);
      SeenStays(t, queue, echo[0], seen);
    }
  }

  lemma BeginStep(s: Loop)
    requires Inv(s) && Possible(s, Begin)
    ensures Inv(Begun(s))
  {
    var s' := Begun(s);
    assert forall i :: 0 <= i < |s'.events| ==> s'.events[i] == s.events[i + 1];
  }

  lemma QueueStep(s: Loop, step: Step)
    requires Inv(s) && Possible(s, step) && (step.Accept? || step.Ask?)
    ensures Inv(Next(s, step))
  {
    var waiting, s' := s.batch + s.queue, Next(s, step);
    var req := if step.Accept? then RegisterFd(step.fd, step.interest) else step.req;
    assert s'.batch + s'.queue == waiting + [req];
    if step.Accept? {
      AcceptKeeps(s.infos, step.fd, step.interest, waiting, s.seen);
    } else {
      PushKeepsTeardown(s.infos, waiting, req);
      SeenStays(s.infos, waiting, req, s.seen);
    }
  }

  lemma ClientErrorStep(s: Loop)
    requires Inv(s) && Possible(s, ClientError)
    ensures Inv(Next(s, ClientError))
  {
    var fd := s.current.value.fd;
    ChangedKeepsInv(s, s.infos[fd].(closed := true), s.masks[fd], None);
  }

  lemma StepKeepsInv(s: Loop, step: Step)
    requires Inv(s) && Possible(s, step)
    ensures Inv(Next(s, step))
  {
    match step {
      case Accept(_, _) => QueueStep(s, step);
      case Ask(_) => QueueStep(s, step);
      case Wait(_) => assert Next(s, step).batch + Next(s, step).queue == s.batch + s.queue;
      case HandleOne(k) => HandleOneStep(s, k);
      case Begin => BeginStep(s);
      case ClientError => ClientErrorStep(s);
      case Recv(e) => RecvStep(s, e);
      case Send(e) => SendStep(s, e);
      case Execute(accepting) => ExecuteStep(s, accepting);
    }
  }

  /** With no batch in hand, the handlers find what they need. */
  lemma HandlersMayRun(s: Loop)
    requires Inv(s) && s.batch == []
    ensures TeardownExact(s.infos, s.queue) && FreshIds(s.infos, s.queue)
  {
    assert s.batch + s.queue == s.queue;
  }

  lemma {:induction false} RunKeepsInv(states: seq<Loop>, steps: seq<Step>, i: nat)
    requires Run(states, steps) && Inv(states[0]) && i <= |steps|
    ensures Inv(states[i])
  {
    if i > 0 {
      RunKeepsInv(states, steps, i - 1);
      assert Moves(states[i - 1], steps[i - 1], states[i - 1 + 1]);
      StepKeepsInv(states[i - 1], steps[i - 1]);
    }
  }

  // ---------------------------------------------------------------- the promises

  /** At every moment a closed connection has exactly one removal waiting, in the batch or in the queue, and an
      open one has none. */
  lemma ClosedHasOneRemoval(states: seq<Loop>, steps: seq<Step>, fd: int)
    requires Run(states, steps) && states[0] == START && fd in states[|steps|].infos
    ensures var s := states[|steps|];
      multiset(s.batch + s.queue)[UnregisterFd(fd)] == if s.infos[fd].closed then 1 else 0
  {
    RunKeepsInv(states, steps, |steps|);
  }

  /** At every moment a live connection with something to write is watched for writability, and the kernel's mask
      is the connection's. */
  lemma WriteInterestIsKept(states: seq<Loop>, steps: seq<Step>, fd: int)
    requires Run(states, steps) && states[0] == START && fd in states[|steps|].infos
    ensures var s := states[|steps|];
      fd in s.masks && Watched(s.infos[fd], s.masks[fd])
  {
    RunKeepsInv(states, steps, |steps|);
  }

  /** Once the batch is handled, no connection with an event still to be dispatched is closed; so none is closed
      when its dispatch begins. */
  lemma NoEventForTheClosed(states: seq<Loop>, steps: seq<Step>, i: nat)
    requires Run(states, steps) && states[0] == START
    requires var s := states[|steps|]; s.batch == [] && i < |s.events| && s.events[i].fd in s.infos
    ensures var s := states[|steps|]; !s.infos[s.events[i].fd].closed
  {
    RunKeepsInv(states, steps, |steps|);
    var s := states[|steps|];
    assert s.batch + s.queue == s.queue;
    assert UnregisterFd(s.events[i].fd) !in s.queue;
  }

  /** Whenever the loop has no batch in hand, what it needs to handle a queue or dispatch an event holds of the queue
      alone, whoever has been queueing meanwhile. */
  lemma LoopMayGoOn(states: seq<Loop>, steps: seq<Step>)
    requires Run(states, steps) && states[0] == START && states[|steps|].batch == []
    ensures var s := states[|steps|];
      TeardownExact(s.infos, s.queue) && FreshIds(s.infos, s.queue) && AllWatched(s.infos, s.masks)
  {
    RunKeepsInv(states, steps, |steps|);
    HandlersMayRun(states[|steps|]);
  }

  // ---------------------------------------------------------------- runs as paths

  ghost predicate Path(states: seq<Loop>, steps: seq<Step>, s: Loop, s': Loop) {
    Run(states, steps) && states[0] == s && states[|steps|] == s'
  }

  ghost predicate Reaches(s: Loop, s': Loop) {
    exists states, steps :: Path(states, steps, s, s')
  }

  lemma ReachesSelf(s: Loop)
    ensures Reaches(s, s)
  {
    assert Path([s], [], s, s);
  }

  lemma ReachesNext(s: Loop, t: Loop, step: Step)
    requires Reaches(s, t) && Possible(t, step)
    ensures Reaches(s, Next(t, step))
  {
    var t' := Next(t, step);
    var states, steps :| Path(states, steps, s, t);
    var states', steps' := states + [t'], steps + [step];
    forall i | 0 <= i < |steps'| ensures Moves(states'[i], steps'[i], states'[i + 1]) {
      if i < |steps| {
        assert Moves(states[i], steps[i], states[i + 1]);
      }
    }
    assert Path(states', steps', s, t');
  }

  /** Handling a whole batch is a path. */
  lemma {:induction false} BatchIsPath(s: Loop, ks: nat -> Kernel, n: nat)
    requires n <= |s.batch|
    ensures Reaches(s, s.(infos := HandleAll(s.infos, s.batch[..n], ks),
                          masks := MasksAll(s.infos, s.batch[..n], ks, s.masks), batch := s.batch[n..]))
  {
    if n == 0 {
      assert s.batch[0..] == s.batch;
      ReachesSelf(s);
    } else {
      BatchIsPath(s, ks, n - 1);
      var init := s.batch[..n - 1];
      var t := s.(infos := HandleAll(s.infos, init, ks), masks := MasksAll(s.infos, init, ks, s.masks),
                  batch := s.batch[n - 1..]);
      assert s.batch[..n][..n - 1] == init && s.batch[..n][n - 1] == s.batch[n - 1];
      assert s.batch[n - 1..][1..] == s.batch[n..];
      ReachesNext(s, t, HandleOne(ks(n - 1)));
    }
  }

  lemma ReachesTrans(s: Loop, t: Loop, u: Loop)
    requires Reaches(s, t) && Reaches(t, u)
    ensures Reaches(s, u)
  {
    var states, steps :| Path(states, steps, t, u);
    PathExtends(s, states, steps, |steps|);
  }

  lemma {:induction false} PathExtends(s: Loop, states: seq<Loop>, steps: seq<Step>, n: nat)
    requires Run(states, steps) && Reaches(s, states[0]) && n <= |steps|
    ensures Reaches(s, states[n])
  {
    if n > 0 {
      PathExtends(s, states, steps, n - 1);
      assert Moves(states[n - 1], steps[n - 1], states[n - 1 + 1]);
      ReachesNext(s, states[n - 1], steps[n - 1]);
    }
  }

  /** The lines of a connection have been executed. */
  ghost function LinesDone(s: Loop, accepting: bool): Loop
    requires AtStage(s, Executing)
  {
    var fd := s.current.value.fd;
    var c := s.infos[fd];
    var lines := LinesRun(c.inbox, accepting);
    s.(infos := s.infos[fd := c.(inbox := LeftOver(c.inbox, accepting))], queue := s.queue + EchoesOf(lines, fd),
       tasks := s.tasks + TasksRun(lines, fd, c.userId, accepting), current := None)
  }

  /** The last line, or its absence, ends the dispatch. */
  lemma LastLine(s: Loop, accepting: bool)
    requires AtStage(s, Executing)
    requires var inbox := s.infos[s.current.value.fd].inbox;
      NextLine(inbox).Some? ==> !GoesOn(NextLine(inbox).value, accepting)
    ensures LinesDone(s, accepting) == Executed(s, accepting)
  {
    var fd := s.current.value.fd;
    var c := s.infos[fd];
    if NextLine(c.inbox).None? {
      assert s.infos[fd := c] == s.infos && s.queue + [] == s.queue && s.tasks + [] == s.tasks;
      assert c.(inbox := c.inbox) == c;
    } else {
      LineThenLines(s.queue, s.tasks, NextLine(c.inbox).value, [], fd, c.userId, accepting);
      assert [NextLine(c.inbox).value] + [] == [NextLine(c.inbox).value];
    }
  }

  /** Any other line leaves the rest to be executed. */
  lemma LineByLine(s: Loop, accepting: bool)
    requires AtStage(s, Executing)
    requires var inbox := s.infos[s.current.value.fd].inbox;
      NextLine(inbox).Some? && GoesOn(NextLine(inbox).value, accepting)
    ensures AtStage(Executed(s, accepting), Executing)
    ensures LinesDone(Executed(s, accepting), accepting) == LinesDone(s, accepting)
  {
    var fd := s.current.value.fd;
    var c := s.infos[fd];
    var line, rest := NextLine(c.inbox).value, Behind(c.inbox);
    var d, left := c.(inbox := rest), c.(inbox := LeftOver(c.inbox, accepting));
    var t := Executed(s, accepting);
    LineThenLines(s.queue, s.tasks, line, LinesRun(rest, accepting), fd, c.userId, accepting);
    UpdatedTwice(s.infos, fd, d, left);
    assert t.infos == s.infos[fd := d] && t.current == s.current;
  }

  /** Executing them one by one is a path. */
  lemma {:induction false} LinesArePath(s0: Loop, s: Loop, accepting: bool)
    requires Reaches(s0, s) && AtStage(s, Executing)
    ensures Reaches(s0, LinesDone(s, accepting))
    decreases |s.infos[s.current.value.fd].inbox|
  {
    var inbox := s.infos[s.current.value.fd].inbox;
    ReachesNext(s0, s, Execute(accepting));
    if NextLine(inbox).Some? && GoesOn(NextLine(inbox).value, accepting) {
      LineByLine(s, accepting);
      LinesArePath(s0, Executed(s, accepting), accepting);
    } else {
      LastLine(s, accepting);
    }
  }

  lemma LineThenLines(q: seq<Request>, ts: seq<Task>, line: string, rest: seq<string>, fd: int, user: string,
                      accepting: bool)
    ensures q + LineEcho(line, fd) + EchoesOf(rest, fd) == q + EchoesOf([line] + rest, fd)
    ensures ts + (if accepting then LineTask(line, fd, user) else []) + TasksRun(rest, fd, user, accepting) ==
            ts + TasksRun([line] + rest, fd, user, accepting)
  {
    RunCons(line, rest, fd, user);
    Assoc(q, LineEcho(line, fd), EchoesOf(rest, fd));
    Assoc(ts, if accepting then LineTask(line, fd, user) else [], TasksRun(rest, fd, user, accepting));
  }

  /** A whole event has been dispatched. */
  ghost function Dispatched(s: Loop, e: Event, accepting: bool): Loop
    requires s.events != [] && e.fd in s.infos && e.fd in s.masks
  {
    var c := s.infos[e.fd];
    s.(infos := s.infos[e.fd := AfterEvent(c, e, accepting)], masks := s.masks[e.fd := IoMask(c, e, s.masks[e.fd])],
       queue := s.queue + RequestsOfEvent(c, e, accepting), events := s.events[1..],
       tasks := s.tasks + TasksRun(LinesOfEvent(c, e, accepting), e.fd, c.userId, accepting))
  }

  /** Reading and writing have been done, and lines may be executed. */
  ghost function IoDone(s: Loop, e: Event): Loop
    requires s.events != [] && e.fd in s.infos && e.fd in s.masks
  {
    var c := s.infos[e.fd];
    s.(infos := s.infos[e.fd := AfterIo(c, e)], masks := s.masks[e.fd := IoMask(c, e, s.masks[e.fd])],
       queue := s.queue + Removal(c, AfterIo(c, e), e.fd), events := s.events[1..],
       current := if GoesToLines(c, e) then Some(Dispatch(e.fd, e.bits, Executing)) else None)
  }

  lemma IoIsPath(s0: Loop, s: Loop, e: Event)
    requires Reaches(s0, s) && s.batch == [] && s.current == None
    requires s.events != [] && s.events[0] == Report(e.fd, e.bits)
    requires e.fd in s.infos && e.fd in s.masks
    ensures Reaches(s0, IoDone(s, e))
  {
    var c := s.infos[e.fd];
    ReachesNext(s0, s, Begin);
    var b := Begun(s);
    if Trouble in e.bits {
      ReachesNext(s0, b, ClientError);
    } else {
      ReachesNext(s0, b, Recv(e.onRecv));
      var r := Received(b, e.onRecv);
      ReceivedIs(b, e);
      if IsRead(e.bits) && !KeepsAlive(c, e.bits, e.onRecv) {
        assert IoDone(s, e) == r;
      } else {
        ReachesNext(s0, r, Send(e.onSend));
        SentIs(s, b, r, e);
      }
    }
  }

  /** After receiving. */
  lemma ReceivedIs(b: Loop, e: Event)
    requires AtStage(b, Receiving) && b.current.value.fd == e.fd && b.current.value.bits == e.bits
    ensures var c, r := b.infos[e.fd], Received(b, e.onRecv);
      if IsRead(e.bits)
      then r == b.(infos := b.infos[e.fd := AfterRecv(c, e.bits, e.onRecv)],
                   masks := b.masks[e.fd := RecvMask(c, e.onRecv, b.masks[e.fd])],
                   queue := b.queue + Removal(c, AfterRecv(c, e.bits, e.onRecv), e.fd),
                   current := if KeepsAlive(c, e.bits, e.onRecv) then Some(Dispatch(e.fd, e.bits, Sending)) else None)
      else r == b.(current := Some(Dispatch(e.fd, e.bits, Sending)))
  {}

  /** And after sending. */
  lemma SentIs(s: Loop, b: Loop, r: Loop, e: Event)
    requires s.events != [] && e.fd in s.infos && e.fd in s.masks && Trouble !in e.bits
    requires b == s.(events := s.events[1..], current := Some(Dispatch(e.fd, e.bits, Receiving)))
    requires r == Received(b, e.onRecv) && AtStage(r, Sending)
    requires IsRead(e.bits) ==> KeepsAlive(s.infos[e.fd], e.bits, e.onRecv)
    ensures Sent(r, e.onSend) == IoDone(s, e)
  {
    ReceivedIs(b, e);
    var c, d := s.infos[e.fd], r.infos[e.fd];
    RecvOutcome(c, e.bits, e.onRecv);
    SendOutcome(d, e.onSend);
    if Out in e.bits {
      var f := AfterSend(d, e.onSend);
      RemovalOnce(c, d, f, e.fd);
      Assoc(s.queue, Removal(c, d, e.fd), Removal(d, f, e.fd));
      assert s.infos[e.fd := d][e.fd := f] == s.infos[e.fd := f];
      assert Removal(c, c, e.fd) == [] && s.queue + [] == s.queue;
    } else {
      assert s.infos[e.fd := c] == s.infos && s.masks[e.fd := s.masks[e.fd]] == s.masks;
      assert Removal(c, c, e.fd) == [] && s.queue + [] == s.queue;
    }
  }

  /** Dispatching one event is a path. */
  lemma EventIsPath(s0: Loop, s: Loop, e: Event, accepting: bool)
    requires Reaches(s0, s) && s.batch == [] && s.current == None
    requires s.events != [] && s.events[0] == Report(e.fd, e.bits)
    requires e.fd in s.infos && e.fd in s.masks
    ensures Reaches(s0, Dispatched(s, e, accepting))
  {
    IoIsPath(s0, s, e);
    var t, c := IoDone(s, e), s.infos[e.fd];
    if GoesToLines(c, e) {
      LinesArePath(s0, t, accepting);
      LinesAfterIo(s, e, accepting);
    } else {
      assert s.tasks + [] == s.tasks && t.queue + [] == t.queue;
      Assoc(s.queue, Removal(c, AfterIo(c, e), e.fd), []);
      assert Dispatched(s, e, accepting) == t;
    }
  }

  lemma LinesAfterIo(s: Loop, e: Event, accepting: bool)
    requires s.current == None && s.events != [] && e.fd in s.infos && e.fd in s.masks && GoesToLines(s.infos[e.fd], e)
    ensures LinesDone(IoDone(s, e), accepting) == Dispatched(s, e, accepting)
  {
    var c, t := s.infos[e.fd], IoDone(s, e);
    var d := AfterIo(c, e);
    IoOutcome(c, e);
    UpdatedTwice(s.infos, e.fd, d, AfterEvent(c, e, accepting));
    Assoc(s.queue, Removal(c, d, e.fd), EchoesOf(LinesRun(d.inbox, accepting), e.fd));
    assert LinesDone(t, accepting).queue == Dispatched(s, e, accepting).queue;
  }

  /** An event of a connection that no longer exists is passed over. */
  lemma LostEventIsPath(s0: Loop, s: Loop)
    requires Reaches(s0, s) && s.batch == [] && s.current == None && s.events != [] && s.events[0].fd !in s.infos
    ensures Reaches(s0, s.(events := s.events[1..]))
  {
    ReachesNext(s0, s, Begin);
    assert Begun(s) == s.(events := s.events[1..]);
  }

  /** The wait, the swap, and the handling of the whole batch. */
  lemma WorkIsPath(s: Loop, events: seq<Report>, ks: nat -> Kernel)
    requires s.batch == [] && s.events == [] && s.current == None && Distinct(events)
    ensures Reaches(s, s.(infos := HandleAll(s.infos, s.queue, ks), masks := MasksAll(s.infos, s.queue, ks, s.masks),
                          queue := [], events := events))
  {
    var t := s.(events := events, batch := s.queue, queue := []);
    ReachesSelf(s);
    ReachesNext(s, s, Wait(events));
    BatchIsPath(t, ks, |s.queue|);
    assert s.queue[..|s.queue|] == s.queue && s.queue[|s.queue|..] == [];
    ReachesTrans(s, t, s.(infos := HandleAll(s.infos, s.queue, ks), masks := MasksAll(s.infos, s.queue, ks, s.masks),
                          queue := [], events := events));
  }
}
