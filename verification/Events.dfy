/** What one event does to a connection, told by its bits and by what TLS, the peer and the kernel answer. */
module Events {
  import opened Text
  import opened Codec
  import opened Buffers
  import opened Connections
  import opened Tasks
  import opened Streams
  import opened Handlers

  // ---------------------------------------------------------------- handshakes

  /** Writing is watched for, or not watched for, though it should be the other way round. */
  predicate OutOfStep(interest: Mask, pending: bool) {
    (Out in interest) != pending
  }

  predicate WantsWrite(r: HandshakeReply) {
    r.Blocked? && r.wantWrite
  }

  /** The step fails, the peer is gone, or the kernel refuses the mask the step needs. */
  predicate HandshakeBreaks(c: Conn, e: Env) {
    && !c.tls.handshakeDone
    && (|| e.handshake.HandshakeFailed?
        || (e.handshake.Blocked? && e.handshake.closed)
        || (OutOfStep(c.interest, c.outbox != "" || WantsWrite(e.handshake)) && !e.handshakeModOk))
  }

  /** The session is ready for bytes: the handshake was done before, or this step completes it. */
  predicate Ready(c: Conn, e: Env) {
    c.tls.handshakeDone || e.handshake.Completed?
  }

  /** Write interest is exactly as needed, and the other bits are as before. */
  predicate InStep(c: Conn, c': Conn) {
    !OutOfStep(c'.interest, c'.outbox != "" || c'.tls.wantWrite) && c'.interest - {Out} == c.interest - {Out}
  }

  /** A handshake step moves no byte, and closes the connection exactly if it breaks. Once done it is not repeated. */
  lemma HandshakeExactly(c: Conn, e: Env)
    ensures var h := AfterHandshake(c, e);
      && (c.tls.handshakeDone ==> h == c)
      && h == c.(tls := h.tls, interest := h.interest, closed := h.closed)
      && h.tls.handed == c.tls.handed && h.tls.delivered == c.tls.delivered
      && (h.tls.handshakeDone <==> Ready(c, e))
      && (h.closed <==> c.closed || HandshakeBreaks(c, e))
      && (HandshakeOk(c, e) <==> !HandshakeBreaks(c, e))
      && (!c.tls.handshakeDone && !HandshakeBreaks(c, e) ==>
            InStep(c, h) && (h.tls.wantWrite <==> WantsWrite(e.handshake)))
  {}

  // ---------------------------------------------------------------- sending and receiving

  /** A send flushes the outbox once the session is ready, and closes the connection exactly if the handshake breaks,
      the flush fails, or the kernel refuses the mask it needs. */
  lemma SendExactly(c: Conn, e: Env)
    ensures var h, c' := AfterHandshake(c, e), AfterSend(c, e);
      var f := Flush(c.outbox, h.tls, e.replies, 0, 0);
      && c'.inbox == c.inbox && SameIdentity(c, c')
      && (HandshakeBreaks(c, e) || !Ready(c, e) ==> c' == h)
      && (!HandshakeBreaks(c, e) && Ready(c, e) ==>
            var refused := OutOfStep(h.interest, f.out != "" || f.tls.wantWrite) && !e.modOk;
            && c'.outbox == f.out && c'.tls == f.tls
            && (c'.closed <==> c.closed || f.result.Err? || refused)
            && (f.result.Ok? ==> InStep(c, c')))
  {
    HandshakeExactly(c, e);
  }

  /** The peer has closed its end, as the drain or the event's bits say. */
  predicate HungUp(d: Drained, bits: Mask) {
    d.result.Ok? && (d.result.value.closed || RdHup in bits)
  }

  /** Receiving drains the session once it is ready, and closes the connection exactly if the handshake breaks, the
      drain fails, the kernel refuses the mask it needs, or the peer has hung up. Dispatch goes on exactly otherwise. */
  lemma RecvExactly(c: Conn, bits: Mask, e: Env)
    ensures var h, c' := AfterHandshake(c, e), AfterRecv(c, bits, e);
      var d := Drain(c.inbox, h.tls, e.arrivals, RecvInfo(0, false));
      var refused := OutOfStep(h.interest, c.outbox != "" || d.tls.wantWrite) && !e.modOk;
      && c'.outbox == c.outbox && SameIdentity(c, c')
      && (HandshakeBreaks(c, e) || !Ready(c, e) ==> c' == h && (KeepsAlive(c, bits, e) <==> !HandshakeBreaks(c, e)))
      && (!HandshakeBreaks(c, e) && Ready(c, e) ==>
            && c'.inbox == d.inbox && c'.tls == d.tls
            && (c'.closed <==> c.closed || d.result.Err? || refused || HungUp(d, bits))
            && (KeepsAlive(c, bits, e) <==> d.result.Ok? && !refused && !HungUp(d, bits))
            && (d.result.Ok? ==> InStep(c, c')))
  {
    HandshakeExactly(c, e);
  }

  // ---------------------------------------------------------------- whole events

  /** The bits that announce something to read. */
  predicate Readable(bits: Mask) {
    In in bits || RdHup in bits || Hup in bits
  }

  predicate ReadsOn(c: Conn, e: Event) {
    !HandshakeBreaks(c, e.onRecv) && Ready(c, e.onRecv)
  }

  /** Whatever announces something to read, what has arrived is taken in; and if the connection stays open, its complete
      lines are executed. */
  lemma EventReads(c: Conn, e: Event, accepting: bool)
    requires Trouble !in e.bits && Readable(e.bits) && !c.closed && ReadsOn(c, e)
    ensures var h := AfterHandshake(c, e.onRecv);
      var d := Drain(c.inbox, h.tls, e.onRecv.arrivals, RecvInfo(0, false));
      var refused := OutOfStep(h.interest, c.outbox != "" || d.tls.wantWrite) && !e.onRecv.modOk;
      var lines, after := LinesOfEvent(c, e, accepting), AfterEvent(c, e, accepting);
      if d.result.Err? || refused || HungUp(d, e.bits)
      then after.closed && after.inbox == d.inbox && lines == []
      else
        && AllFree(lines, LF) && Terminated(lines) + after.inbox == d.inbox
        && (accepting ==> LF !in after.inbox)
  {
    RecvExactly(c, e.bits, e.onRecv);
    SendExactly(AfterRecv(c, e.bits, e.onRecv), e.onSend);
    LinesRunSplit(AfterIo(c, e).inbox, accepting);
  }

  /** If the event announces room to write and the connection is still open after the reading, its outbox is flushed
      once the session is ready. */
  lemma EventWrites(c: Conn, e: Event, accepting: bool)
    requires Trouble !in e.bits && Out in e.bits && !c.closed
    ensures var r := AfterIo(c, e.(bits := e.bits - {Out}));
      !r.closed && !HandshakeBreaks(r, e.onSend) && Ready(r, e.onSend) ==>
        var f := Flush(r.outbox, AfterHandshake(r, e.onSend).tls, e.onSend.replies, 0, 0);
        AfterEvent(c, e, accepting).outbox == f.out && AfterEvent(c, e, accepting).tls == f.tls
  {
    var bits := e.bits - {Out};
    RecvExactly(c, bits, e.onRecv);
    RecvExactly(c, e.bits, e.onRecv);
    SameDrain(c, e.bits, bits, e.onRecv);
    SendExactly(AfterIo(c, e.(bits := bits)), e.onSend);
  }

  /** Whether the peer can be written to does not change what is read. */
  lemma SameDrain(c: Conn, bits: Mask, bits': Mask, e: Env)
    requires RdHup in bits <==> RdHup in bits'
    ensures AfterRecv(c, bits, e) == AfterRecv(c, bits', e) && (KeepsAlive(c, bits, e) <==> KeepsAlive(c, bits', e))
  {}

  /** An event that announces nothing to read takes nothing in and executes nothing; one that announces no room to write
      writes nothing; and an error only closes the connection. */
  lemma EventIsQuiet(c: Conn, e: Event, accepting: bool)
    ensures var lines, after := LinesOfEvent(c, e, accepting), AfterEvent(c, e, accepting);
      && (Trouble in e.bits ==> after == c.(closed := true) && lines == [])
      && (!Readable(e.bits) ==> after.inbox == c.inbox && after.tls.delivered == c.tls.delivered && lines == [])
      && (Out !in e.bits ==> after.outbox == c.outbox && after.tls.handed == c.tls.handed)
      && SameIdentity(c, after)
  {
    var r := AfterRecv(c, e.bits, e.onRecv);
    RecvOutcome(c, e.bits, e.onRecv);
    RecvExactly(c, e.bits, e.onRecv);
    SendExactly(c, e.onSend);
    SendOutcome(c, e.onSend);
    SendExactly(r, e.onSend);
    HandedStays(c, e.bits, e.onRecv);
  }

  lemma HandedStays(c: Conn, bits: Mask, e: Env)
    ensures AfterRecv(c, bits, e).tls.handed == c.tls.handed
  {
    HandshakeExactly(c, e);
    var h := AfterHandshake(c, e);
    DrainKeepsHanded(h.inbox, h.tls, e.arrivals, RecvInfo(0, false));
  }

  // ---------------------------------------------------------------- lines

  /** A command for the database, which the executor does not take any more. */
  ghost predicate Declined(line: string, accepting: bool) {
    !accepting && Decode(line).Ok? && !Decode(line).value.Response?
  }

  /** Lines are executed up to the first that is declined. */
  lemma {:induction false} LinesRunExactly(inbox: string, accepting: bool)
    ensures var lines := LinesRun(inbox, accepting);
      && (forall k :: 0 <= k < |lines| - 1 ==> !Declined(lines[k], accepting))
      && (LF in LeftOver(inbox, accepting) ==> lines != [] && Declined(lines[|lines| - 1], accepting))
    decreases |inbox|
  {
    if NextLine(inbox).Some? && GoesOn(NextLine(inbox).value, accepting) {
      var rest := Behind(inbox);
      LinesRunExactly(rest, accepting);
      assert LinesRun(inbox, accepting)[1..] == LinesRun(rest, accepting);
    }
  }

  /** What one line gives rise to: a task of the connection under its user if it decodes to a database command, a
      request to send it back if it decodes to a response, and nothing otherwise. */
  ghost predicate Yields(line: string, fd: int, user: string, tasks: seq<Task>, echoes: seq<Request>) {
    match Decode(line)
    case Err(_) => tasks == [] && echoes == []
    case Ok(cmd) =>
      if cmd.Response? then tasks == [] && echoes == [SendOne(fd, cmd)]
      else tasks == [Task(cmd, fd, user)] && echoes == []
  }

  /** The tasks and echoes of a list of lines are what each line yields, in order. */
  lemma LinesYield(lines: seq<string>, line: string, fd: int, user: string)
    returns (tasks: seq<Task>, echoes: seq<Request>)
    ensures Yields(line, fd, user, tasks, echoes)
    ensures TasksOf([], fd, user) == [] && EchoesOf([], fd) == []
    ensures TasksOf(lines + [line], fd, user) == TasksOf(lines, fd, user) + tasks
    ensures EchoesOf(lines + [line], fd) == EchoesOf(lines, fd) + echoes
  {
    TasksSnoc(lines, line, fd, user);
    tasks, echoes := LineTask(line, fd, user), LineEcho(line, fd);
  }
}
