/** The event loop and the server's handlers as methods that work on one connection of the registry: each is proved to
    do to it, to its mask, to the queue and to the executor's tasks what `Handlers` says. */
module Server {
  import opened Text
  import opened Codec
  import opened Buffers
  import opened Connections
  import opened Tasks
  import opened Streams
  import opened Handlers
  import opened Lifecycle
  import opened Reactor
  import opened Registry

  class EpollServer {
    const registry: EpollRegistry
    var tasks: seq<Task>   // the executor's queue
    var running: bool      // whether the executor still accepts tasks

    /** Indexes and masks agree, closing is promised exactly, and identities are fresh. */
    ghost predicate Ready()
      reads this, registry
    {
      && registry.Valid()
      && TeardownExact(registry.infos, registry.cmdQ)
      && FreshIds(registry.infos, registry.cmdQ)
    }

    /** The same while one connection's mask may be out of date, the kernel still holding its interest. */
    ghost predicate ReadyBut(fd: int)
      reads this, registry
    {
      && registry.ValidBut(fd)
      && (fd in registry.infos && !registry.infos[fd].closed ==> registry.masks[fd] == registry.infos[fd].interest)
      && TeardownExact(registry.infos, registry.cmdQ)
      && FreshIds(registry.infos, registry.cmdQ)
    }

    constructor (registry: EpollRegistry)
      requires registry.Valid() && registry.infos == map[] && registry.cmdQ == []
      ensures Ready() && this.registry == registry && tasks == [] && running
    {
      this.registry := registry;
      tasks, running := [], true;
    }

    // -------------------------------------------------------------- closing

    method HandleDisconnect(fd: int)
      requires registry.ValidBut(fd) && fd in registry.infos
      requires TeardownExact(registry.infos, registry.cmdQ) && FreshIds(registry.infos, registry.cmdQ)
      modifies registry`infos, registry`cmdQ
      ensures Ready()
      ensures registry.infos == old(registry.infos)[fd := old(registry.infos)[fd].(closed := true)]
      ensures registry.cmdQ == old(registry.cmdQ) + Removal(old(registry.infos)[fd], registry.infos[fd], fd)
    {
      var c := registry.infos[fd];
      if c.closed {
        UpdatedSame(registry.infos, fd);
        return;
      }
      CloseKeepsTeardown(registry.infos, fd, c.(closed := true), registry.cmdQ);
      registry.Store(fd, c.(closed := true));
      registry.Push(UnregisterFd(fd));
    }

    // -------------------------------------------------------------- write interest

    /** Brings the mask in line with what the connection has to write; false when the kernel refuses. */
    method SyncTlsInterest(fd: int, modOk: bool) returns (ok: bool)
      requires ReadyBut(fd) && fd in registry.infos
      modifies registry`infos, registry`masks
      ensures registry.infos == old(registry.infos)[fd := Synced(old(registry.infos)[fd])]
      ensures ok <==> Syncs(old(registry.infos)[fd], modOk)
      ensures ok ==> Ready()
      ensures !ok ==> registry.ValidBut(fd)
      ensures var c, m := old(registry.infos)[fd], old(registry.masks)[fd];
        registry.masks == old(registry.masks)[fd := SettledMask(c, false, modOk, m)]
      ensures TeardownExact(registry.infos, registry.cmdQ) && FreshIds(registry.infos, registry.cmdQ)
    {
      var c := registry.infos[fd];
      UpdatedSame(registry.masks, fd);
      var next := if c.outbox != "" || c.tls.wantWrite then c.interest + {Out} else c.interest - {Out};
      if next == c.interest {
        UpdatedSame(registry.infos, fd);
        return true;
      }
      ChangeKeepsTeardown(registry.infos, fd, c.(interest := next), registry.cmdQ);
      registry.Store(fd, c.(interest := next));
      if !modOk { return false; }
      registry.SetMask(fd);
      return true;
    }

    /** Stores a connection whose buffers or session moved on, leaving its interest to be synchronised. */
    method Update(fd: int, c: Conn)
      requires ReadyBut(fd) && fd in registry.infos
      requires c == registry.infos[fd].(inbox := c.inbox, outbox := c.outbox, tls := c.tls)
      modifies registry`infos
      ensures ReadyBut(fd) && registry.infos == old(registry.infos)[fd := c]
    {
      ChangeKeepsTeardown(registry.infos, fd, c, registry.cmdQ);
      registry.Store(fd, c);
    }

    method Settle(fd: int, failed: bool, modOk: bool) returns (ok: bool)
      requires ReadyBut(fd) && fd in registry.infos
      modifies registry`infos, registry`masks, registry`cmdQ
      ensures Ready()
      ensures registry.infos == old(registry.infos)[fd := Settled(old(registry.infos)[fd], failed, modOk)]
      ensures registry.cmdQ == old(registry.cmdQ) + Removal(old(registry.infos)[fd], registry.infos[fd], fd)
      ensures var c, m := old(registry.infos)[fd], old(registry.masks)[fd];
        registry.masks == old(registry.masks)[fd := SettledMask(c, failed, modOk, m)]
      ensures ok <==> Settles(old(registry.infos)[fd], failed, modOk)
    {
      UpdatedSame(registry.masks, fd);
      if failed {
        HandleDisconnect(fd);
        return false;
      }
      ghost var t, c := registry.infos, registry.infos[fd];
      ok := SyncTlsInterest(fd, modOk);
      if !ok {
        HandleDisconnect(fd);
        UpdatedTwice(t, fd, Synced(c), Synced(c).(closed := true));
      }
    }

    // -------------------------------------------------------------- TLS

    /** One step of the handshake, if it is still running; false when the connection was closed over it. */
    method ProgressTlsHandshake(fd: int, e: Env) returns (ok: bool)
      requires Ready() && fd in registry.infos
      modifies registry`infos, registry`masks, registry`cmdQ
      ensures Ready()
      ensures registry.infos == old(registry.infos)[fd := AfterHandshake(old(registry.infos)[fd], e)]
      ensures registry.cmdQ == old(registry.cmdQ) + Removal(old(registry.infos)[fd], registry.infos[fd], fd)
      ensures var c, m := old(registry.infos)[fd], old(registry.masks)[fd];
        registry.masks == old(registry.masks)[fd := HandshakeMask(c, e, m)]
      ensures ok <==> HandshakeOk(old(registry.infos)[fd], e)
    {
      ghost var t := registry.infos;
      var c := registry.infos[fd];
      UpdatedSame(registry.masks, fd);
      if c.tls.handshakeDone {
        UpdatedSame(registry.infos, fd);
        return true;
      }
      var d := c.(tls := Handshaken(c.tls, e.handshake));
      Update(fd, d);
      ok := Settle(fd, StepFails(e.handshake), e.handshakeModOk);
      UpdatedTwice(t, fd, d, AfterHandshake(c, e));
    }

    /** Flushes what is pending, once the handshake is done. */
    method HandleSend(fd: int, e: Env)
      requires Ready() && fd in registry.infos
      modifies registry`infos, registry`masks, registry`cmdQ
      ensures Ready()
      ensures registry.infos == old(registry.infos)[fd := AfterSend(old(registry.infos)[fd], e)]
      ensures registry.cmdQ == old(registry.cmdQ) + Removal(old(registry.infos)[fd], registry.infos[fd], fd)
      ensures registry.masks == old(registry.masks)[fd := SendMask(old(registry.infos)[fd], e, old(registry.masks)[fd])]
    {
      var ok := ProgressTlsHandshake(fd, e);
      if !ok || !registry.infos[fd].tls.handshakeDone { return; }
      ok := FlushAndSettle(fd, e);
      HandshakeOutcome(old(registry.infos[fd]), e);
      Chain(old(registry.infos), fd, AfterHandshake(old(registry.infos[fd]), e), registry.infos[fd],
            old(registry.cmdQ), old(registry.masks), registry.masks[fd]);
    }

    method FlushAndSettle(fd: int, e: Env) returns (ok: bool)
      requires Ready() && fd in registry.infos
      modifies registry`infos, registry`masks, registry`cmdQ
      ensures Ready()
      ensures var h := old(registry.infos)[fd];
        registry.infos ==
          old(registry.infos)[fd := Settled(WithFlushed(h, FlushOf(h, e)), FlushOf(h, e).result.Err?, e.modOk)]
      ensures registry.cmdQ == old(registry.cmdQ) + Removal(old(registry.infos)[fd], registry.infos[fd], fd)
      ensures var h, m := old(registry.infos)[fd], old(registry.masks)[fd];
        registry.masks ==
          old(registry.masks)[fd := SettledMask(WithFlushed(h, FlushOf(h, e)), FlushOf(h, e).result.Err?, e.modOk, m)]
    {
      ghost var t := registry.infos;
      var c := registry.infos[fd];
      var f := Flush(c.outbox, c.tls, e.replies, 0, 0);
      Update(fd, c.(outbox := f.out, tls := f.tls));
      ok := Settle(fd, f.result.Err?, e.modOk);
      UpdatedTwice(t, fd, WithFlushed(c, f), registry.infos[fd]);
    }

    method DrainAndSettle(fd: int, e: Env) returns (ok: bool, peerClosed: bool)
      requires Ready() && fd in registry.infos
      modifies registry`infos, registry`masks, registry`cmdQ
      ensures Ready()
      ensures var h := old(registry.infos)[fd];
        && registry.infos ==
             old(registry.infos)[fd := Settled(WithDrained(h, DrainOf(h, e)), DrainOf(h, e).result.Err?, e.modOk)]
        && (ok <==> DrainSettles(h, e))
        && (ok ==> peerClosed == DrainOf(h, e).result.value.closed)
      ensures registry.cmdQ == old(registry.cmdQ) + Removal(old(registry.infos)[fd], registry.infos[fd], fd)
      ensures var c, m := old(registry.infos)[fd], old(registry.masks)[fd];
        registry.masks == old(registry.masks)[fd := DrainMask(c, e, m)]
    {
      ghost var t := registry.infos;
      var c := registry.infos[fd];
      var d := Drain(c.inbox, c.tls, e.arrivals, RecvInfo(0, false));
      Update(fd, c.(inbox := d.inbox, tls := d.tls));
      ok := Settle(fd, d.result.Err?, e.modOk);
      peerClosed := d.result.Ok? && d.result.value.closed;
      UpdatedTwice(t, fd, WithDrained(c, d), registry.infos[fd]);
    }

    /** Takes in what has arrived. True only for a connection that stays open. */
    method HandleRecv(fd: int, bits: Mask, e: Env) returns (keepAlive: bool)
      requires Ready() && fd in registry.infos
      modifies registry`infos, registry`masks, registry`cmdQ
      ensures Ready()
      ensures registry.infos == old(registry.infos)[fd := AfterRecv(old(registry.infos)[fd], bits, e)]
      ensures registry.cmdQ == old(registry.cmdQ) + Removal(old(registry.infos)[fd], registry.infos[fd], fd)
      ensures registry.masks == old(registry.masks)[fd := RecvMask(old(registry.infos)[fd], e, old(registry.masks)[fd])]
      ensures keepAlive <==> KeepsAlive(old(registry.infos)[fd], bits, e)
    {
      var ok := ProgressTlsHandshake(fd, e);
      if !ok { return false; }
      if !registry.infos[fd].tls.handshakeDone { return true; }
      keepAlive := DrainAndClose(fd, bits, e);
      HandshakeOutcome(old(registry.infos[fd]), e);
      Chain(old(registry.infos), fd, AfterHandshake(old(registry.infos[fd]), e), registry.infos[fd],
            old(registry.cmdQ), old(registry.masks), registry.masks[fd]);
    }

    method DrainAndClose(fd: int, bits: Mask, e: Env) returns (keepAlive: bool)
      requires Ready() && fd in registry.infos
      modifies registry`infos, registry`masks, registry`cmdQ
      ensures Ready()
      ensures registry.infos == old(registry.infos)[fd := AfterDrain(old(registry.infos)[fd], bits, e)]
      ensures registry.cmdQ == old(registry.cmdQ) + Removal(old(registry.infos)[fd], registry.infos[fd], fd)
      ensures var c, m := old(registry.infos)[fd], old(registry.masks)[fd];
        registry.masks == old(registry.masks)[fd := DrainMask(c, e, m)]
      ensures keepAlive <==> DrainSettles(old(registry.infos)[fd], e) && !PeerGone(old(registry.infos)[fd], bits, e)
    {
      var ok, peerClosed := DrainAndSettle(fd, e);
      if !ok { return false; }
      if peerClosed || RdHup in bits {
        ghost var c := registry.infos[fd];
        HandleDisconnect(fd);
        Chain(old(registry.infos), fd, c, registry.infos[fd], old(registry.cmdQ), old(registry.masks),
              registry.masks[fd]);
        return false;
      }
      return true;
    }

    method HandleClientError(fd: int)
      requires Ready()
      modifies registry`infos, registry`cmdQ
      ensures Ready()
      ensures fd !in old(registry.infos) ==>
        registry.infos == old(registry.infos) && registry.cmdQ == old(registry.cmdQ)
      ensures fd in old(registry.infos) ==>
        && registry.infos == old(registry.infos)[fd := old(registry.infos)[fd].(closed := true)]
        && registry.cmdQ == old(registry.cmdQ) + Removal(old(registry.infos)[fd], registry.infos[fd], fd)
    {
      if fd !in registry.infos { return; }
      if registry.infos[fd].closed {
        UpdatedSame(registry.infos, fd);
        return;
      }
      HandleDisconnect(fd);
    }

    // -------------------------------------------------------------- received lines

    /** Executes the next complete line: a database command becomes a task under the connection's current
        user, a response is echoed through the queue, an undecodable line is skipped. Says whether to go on. */
    method HandleExecute(fd: int) returns (more: bool, ghost line: Option<string>)
      requires Ready() && fd in registry.infos
      modifies registry`infos, registry`cmdQ, this`tasks
      ensures Ready() && fd in registry.infos
      ensures registry.infos == old(registry.infos)[fd := old(registry.infos)[fd].(inbox := registry.infos[fd].inbox)]
      ensures line == NextLine(old(registry.infos)[fd].inbox)
      ensures more <==> line.Some? && GoesOn(line.value, running)
      ensures line.Some? ==> registry.infos[fd].inbox == Behind(old(registry.infos)[fd].inbox)
      ensures line.None? ==> LF !in registry.infos[fd].inbox
      ensures line.None? ==>
        tasks == old(tasks) && registry.infos == old(registry.infos) && registry.cmdQ == old(registry.cmdQ)
      ensures line.Some? ==> LF !in line.value
      ensures line.Some? ==> old(registry.infos)[fd].inbox == line.value + [LF] + registry.infos[fd].inbox
      ensures line.Some? ==>
        tasks == old(tasks) + if running then LineTask(line.value, fd, registry.infos[fd].userId) else []
      ensures line.Some? ==> registry.cmdQ == old(registry.cmdQ) + LineEcho(line.value, fd)
      ensures line.Some? && Decode(line.value).Ok? ==>
        var cmd := Decode(line.value).value;
        if cmd.Response? then tasks == old(tasks) && registry.cmdQ == old(registry.cmdQ) + [SendOne(fd, cmd)]
        else if running then tasks == old(tasks) + [Task(cmd, fd, registry.infos[fd].userId)]
        else tasks == old(tasks)
    {
      var c := registry.infos[fd];
      var pos := Find(c.inbox, LF, 0);
      if pos.None? {
        UpdatedSame(registry.infos, fd);
        return false, None;
      }
      var text := c.inbox[..pos.value];
      line := Some(text);
      assert c.inbox == text + [LF] + c.inbox[pos.value + 1..];
      ChangeKeepsTeardown(registry.infos, fd, c.(inbox := c.inbox[pos.value + 1..]), registry.cmdQ);
      registry.Store(fd, c.(inbox := c.inbox[pos.value + 1..]));
      more := ExecuteLine(fd, text);
      return more, line;
    }

    method ExecuteLine(fd: int, text: string) returns (more: bool)
      requires Ready() && fd in registry.infos
      modifies registry`cmdQ, this`tasks
      ensures Ready()
      ensures tasks == old(tasks) + if running then LineTask(text, fd, registry.infos[fd].userId) else []
      ensures registry.cmdQ == old(registry.cmdQ) + LineEcho(text, fd)
      ensures more <==> GoesOn(text, running)
    {
      var d := DecodeCommand(text);
      more := ExecuteDecoded(fd, d);
    }

    method ExecuteDecoded(fd: int, d: Result<Command, DecodeError>) returns (more: bool)
      requires Ready() && fd in registry.infos
      modifies registry`cmdQ, this`tasks
      ensures Ready()
      ensures tasks == old(tasks) + if running then CommandTask(d, fd, registry.infos[fd].userId) else []
      ensures registry.cmdQ == old(registry.cmdQ) + CommandEcho(d, fd)
      ensures more <==> CommandGoesOn(d, running)
    {
      if d.Err? { return true; }
      if IsDbCommand(d.value) {
        if !running { return false; }
        tasks := tasks + [Task(d.value, fd, registry.infos[fd].userId)];
        return true;
      }
      PushKeepsTeardown(registry.infos, registry.cmdQ, SendOne(fd, d.value));
      registry.Push(SendOne(fd, d.value));
      return true;
    }

    /** Runs every complete line that has arrived, up to a database command the executor refuses. While the executor
        accepts tasks, none is left over. The tasks queued and the responses echoed are those of exactly the lines
        run, in order. */
    method ExecuteAll(fd: int) returns (ghost lines: seq<string>)
      requires Ready() && fd in registry.infos
      modifies registry`infos, registry`cmdQ, this`tasks
      ensures Ready() && fd in registry.infos
      ensures lines == LinesRun(old(registry.infos)[fd].inbox, running)
      ensures AllFree(lines, LF) && Terminated(lines) + registry.infos[fd].inbox == old(registry.infos)[fd].inbox
      ensures running ==> LF !in registry.infos[fd].inbox
      ensures var c := old(registry.infos)[fd];
        registry.infos == old(registry.infos)[fd := c.(inbox := LeftOver(c.inbox, running))]
      ensures tasks == old(tasks) + TasksRun(lines, fd, registry.infos[fd].userId, running)
      ensures registry.cmdQ == old(registry.cmdQ) + EchoesOf(lines, fd)
    {
      lines := [];
      ghost var t, c := registry.infos, registry.infos[fd];
      UpdatedSame(t, fd);
      LinesRunSplit(c.inbox, running);
      var more := true;
      while more
        invariant Ready() && fd in registry.infos
        invariant registry.infos == t[fd := c.(inbox := registry.infos[fd].inbox)]
        invariant RunSoFar(c.inbox, running, lines, registry.infos[fd].inbox, more)
        invariant tasks == old(tasks) + TasksRun(lines, fd, c.userId, running)
        invariant registry.cmdQ == old(registry.cmdQ) + EchoesOf(lines, fd)
        decreases more, |registry.infos[fd].inbox|
      {
        ghost var line: Option<string>;
        ghost var before := registry.infos[fd];
        more, line := HandleExecute(fd);
        UpdatedTwice(t, fd, before, registry.infos[fd]);
        if line.Some? {
          RunGoesOn(c.inbox, running, lines, before.inbox);
          TasksSnoc(lines, line.value, fd, c.userId);
          Assoc(old(tasks), TasksOf(lines, fd, c.userId), LineTask(line.value, fd, c.userId));
          Assoc(old(registry.cmdQ), EchoesOf(lines, fd), LineEcho(line.value, fd));
          lines := lines + [line.value];
        }
      }
    }

    // -------------------------------------------------------------- the loop

    /** Dispatches one event: what becomes of the connection and its mask, the lines executed and the tasks they give,
        and the requests queued are exactly those of the event. An event of a lost connection changes nothing. */
    method Dispatch(e: Event)
      requires Ready()
      modifies registry`infos, registry`masks, registry`cmdQ, this`tasks
      ensures Ready()
      ensures e.fd !in old(registry.infos) ==>
        && registry.infos == old(registry.infos) && registry.masks == old(registry.masks)
        && registry.cmdQ == old(registry.cmdQ) && tasks == old(tasks)
      ensures e.fd in old(registry.infos) ==>
        var c := old(registry.infos)[e.fd];
        && registry.infos == old(registry.infos)[e.fd := AfterEvent(c, e, running)]
        && registry.masks == old(registry.masks)[e.fd := IoMask(c, e, old(registry.masks)[e.fd])]
        && registry.cmdQ == old(registry.cmdQ) + RequestsOfEvent(c, e, running)
        && tasks == old(tasks) + TasksRun(LinesOfEvent(c, e, running), e.fd, c.userId, running)
    {
      if e.fd !in registry.infos {
        if Trouble in e.bits { HandleClientError(e.fd); }
        return;
      }
      ghost var t, c := registry.infos, registry.infos[e.fd];
      var goOn := DispatchIo(e);
      IoOutcome(c, e);
      if goOn {
        ghost var d := registry.infos[e.fd];
        ghost var lines := ExecuteAll(e.fd);
        UpdatedTwice(t, e.fd, d, registry.infos[e.fd]);
        Assoc(old(registry.cmdQ), Removal(c, d, e.fd), EchoesOf(lines, e.fd));
      }
    }

    /** The reading and writing of an event; says whether lines are to be executed. */
    method DispatchIo(e: Event) returns (goOn: bool)
      requires Ready() && e.fd in registry.infos
      modifies registry`infos, registry`masks, registry`cmdQ
      ensures Ready()
      ensures registry.infos == old(registry.infos)[e.fd := AfterIo(old(registry.infos)[e.fd], e)]
      ensures registry.cmdQ == old(registry.cmdQ) + Removal(old(registry.infos)[e.fd], registry.infos[e.fd], e.fd)
      ensures var c, m := old(registry.infos)[e.fd], old(registry.masks)[e.fd];
        registry.masks == old(registry.masks)[e.fd := IoMask(c, e, m)]
      ensures goOn <==> GoesToLines(old(registry.infos)[e.fd], e)
    {
      if Trouble in e.bits {
        UpdatedSame(registry.masks, e.fd);
        HandleClientError(e.fd);
        return false;
      }
      var isRead := In in e.bits || RdHup in e.bits || Hup in e.bits;
      var keepAlive := ReadIfReported(e, isRead);
      if !keepAlive { return false; }
      RecvOutcome(old(registry.infos)[e.fd], e.bits, e.onRecv);
      if Out in e.bits {
        WriteNext(e.fd, e.onSend, old(registry.infos), old(registry.cmdQ), old(registry.masks));
      }
      return isRead;
    }

    /** Sending after another step of the same dispatch. */
    method WriteNext(fd: int, e: Env, ghost t: Table, ghost q: seq<Request>, ghost masks: map<int, Mask>)
      requires Ready() && fd in t && fd in masks && fd in registry.infos && Carries(t[fd], registry.infos[fd])
      requires registry.infos == t[fd := registry.infos[fd]] && registry.masks == masks[fd := registry.masks[fd]]
      requires registry.cmdQ == q + Removal(t[fd], registry.infos[fd], fd)
      modifies registry`infos, registry`masks, registry`cmdQ
      ensures Ready() && registry.infos == t[fd := AfterSend(old(registry.infos)[fd], e)]
      ensures registry.cmdQ == q + Removal(t[fd], registry.infos[fd], fd)
      ensures registry.masks == masks[fd := SendMask(old(registry.infos)[fd], e, old(registry.masks)[fd])]
    {
      ghost var d := registry.infos[fd];
      HandleSend(fd, e);
      SendOutcome(d, e);
      Chain(t, fd, d, registry.infos[fd], q, masks, registry.masks[fd]);
    }

    method ReadIfReported(e: Event, isRead: bool) returns (keepAlive: bool)
      requires Ready() && e.fd in registry.infos
      modifies registry`infos, registry`masks, registry`cmdQ
      ensures Ready()
      ensures var c := old(registry.infos)[e.fd];
        && registry.infos == old(registry.infos)[e.fd := if isRead then AfterRecv(c, e.bits, e.onRecv) else c]
        && (keepAlive <==> isRead ==> KeepsAlive(c, e.bits, e.onRecv))
      ensures registry.cmdQ == old(registry.cmdQ) + Removal(old(registry.infos)[e.fd], registry.infos[e.fd], e.fd)
      ensures var c, m := old(registry.infos)[e.fd], old(registry.masks)[e.fd];
        registry.masks == old(registry.masks)[e.fd := if isRead then RecvMask(c, e.onRecv, m) else m]
    {
      if isRead {
        keepAlive := HandleRecv(e.fd, e.bits, e.onRecv);
      } else {
        UpdatedSame(registry.infos, e.fd);
        UpdatedSame(registry.masks, e.fd);
        keepAlive := true;
      }
    }

    /** The loop as `Reactor` sees it between two of its steps. */
    ghost function At(events: seq<Report>, seen: set<int>): Loop
      reads this, registry
    {
      Loop(registry.infos, registry.masks, [], registry.cmdQ, events, None, seen, tasks)
    }

    /** Dispatching the first of the events still to come continues any path so far. */
    method DispatchNext(e: Event, ghost s0: Loop, ghost rest: seq<Report>, ghost seen: set<int>)
      requires Ready()
      requires Reaches(s0, At([Report(e.fd, e.bits)] + rest, seen))
      modifies registry`infos, registry`masks, registry`cmdQ, this`tasks
      ensures Ready() && SameStreams(old(registry.infos), registry.infos)
      ensures Reaches(s0, At(rest, seen))
    {
      ghost var s := At([Report(e.fd, e.bits)] + rest, seen);
      assert s.events[1..] == rest;
      Dispatch(e);
      if e.fd in s.infos {
        IoOutcome(s.infos[e.fd], e);
        EventIsPath(s0, s, e, running);
        assert At(rest, seen) == Dispatched(s, e, running);
      } else {
        LostEventIsPath(s0, s);
      }
    }

    method DispatchAll(events: seq<Event>, ghost s0: Loop, ghost seen: set<int>)
      requires Ready()
      requires Reaches(s0, At(ReportsOf(events), seen))
      modifies registry`infos, registry`masks, registry`cmdQ, this`tasks
      ensures Ready() && SameStreams(old(registry.infos), registry.infos)
      ensures Reaches(s0, At([], seen))
    {
      ghost var t, reports := registry.infos, ReportsOf(events);
      for i := 0 to |events|
        invariant Ready() && SameStreams(t, registry.infos)
        invariant Reaches(s0, At(reports[i..], seen))
      {
        assert reports[i..] == [reports[i]] + reports[i + 1..];
        DispatchNext(events[i], s0, reports[i + 1..], seen);
      }
      assert reports[|events|..] == [];
    }

    /** Handles everything queued, which leaves no closed connection. */
    method HandleQueue(ks: nat -> Kernel, ghost reports: seq<Report>, ghost seen: set<int>)
      requires Ready() && Distinct(reports)
      modifies registry
      ensures Ready() && NoneClosed(registry.infos)
      ensures registry.infos == HandleAll(old(registry.infos), old(registry.cmdQ), ks)
      ensures Reaches(old(At([], seen)), At(reports, seen))
    {
      BatchLeavesNoneClosed(registry.infos, registry.cmdQ, ks);
      TeardownAlongBatch(registry.infos, registry.cmdQ, ks, |registry.cmdQ|);
      WorkIsPath(At([], seen), reports, ks);
      TakeAll(registry.cmdQ);
      registry.Work(ks);
    }

    /** One turn of the loop on its own: handle the queue, then dispatch each reported event. Every connection keeps
        its user, its rooms and the bytes meant for its peer while events are dispatched, and the whole turn is a run
        of the loop's single steps. */
    method Turn(events: seq<Event>, ks: nat -> Kernel, ghost seen: set<int>)
      requires Ready()
      requires Distinct(ReportsOf(events))
      modifies registry, this`tasks
      ensures Ready()
      ensures SameStreams(HandleAll(old(registry.infos), old(registry.cmdQ), ks), registry.infos)
      ensures Reaches(old(At([], seen)), At([], seen))
    {
      ghost var s0 := At([], seen);
      HandleQueue(ks, ReportsOf(events), seen);
      DispatchAll(events, s0, seen);
    }
  }

  lemma TakeAll(q: seq<Request>)
    ensures q[..|q|] == q && q[|q|..] == []
  {}

  function ReportsOf(events: seq<Event>): seq<Report> {
    seq(|events|, i requires 0 <= i < |events| => Report(events[i].fd, events[i].bits))
  }

  /** What is left of a run of lines. */
  ghost predicate RunSoFar(inbox: string, accepting: bool, lines: seq<string>, rest: string, more: bool) {
    && LinesRun(inbox, accepting) == lines + (if more then LinesRun(rest, accepting) else [])
    && LeftOver(inbox, accepting) == if more then LeftOver(rest, accepting) else rest
  }

  lemma RunGoesOn(inbox: string, accepting: bool, lines: seq<string>, rest: string)
    requires RunSoFar(inbox, accepting, lines, rest, true) && NextLine(rest).Some?
    ensures var line := NextLine(rest).value;
      RunSoFar(inbox, accepting, lines + [line], Behind(rest), GoesOn(line, accepting))
  {
    var line := NextLine(rest).value;
    var more := if GoesOn(line, accepting) then LinesRun(Behind(rest), accepting) else [];
    assert LinesRun(rest, accepting) == [line] + more;
    Assoc(lines, [line], more);
  }

  /** Same connections under the same users in the same rooms, each with the same bytes meant for its peer. */
  ghost predicate SameStreams(t: Table, t': Table) {
    && t'.Keys == t.Keys
    && forall fd :: fd in t ==>
         t'[fd].userId == t[fd].userId && t'[fd].joined == t[fd].joined && Stream(t'[fd]) == Stream(t[fd])
  }
}
