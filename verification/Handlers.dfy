/** What the server's handlers do to one connection, whatever TLS, the peer and the kernel answer: TLS progress,
    flushing, draining, executing received lines, closing - and the kernel's mask along with it. */
module Handlers {
  import opened Text
  import opened Codec
  import opened Buffers
  import opened Connections
  import opened Indexes
  import opened Tasks
  import opened Streams

  /** What one handshake step reports. */
  datatype HandshakeReply =
    | Completed
    | HandshakeFailed(error: IoError)
    | Blocked(closed: bool, wantRead: bool, wantWrite: bool)

  /** What TLS and the kernel answer during one handler call. */
  datatype Env = Env(handshake: HandshakeReply, arrivals: seq<ReadReply>, replies: WriteReplies,
                     handshakeModOk: bool, modOk: bool)

  function Handshaken(tls: Tls, r: HandshakeReply): Tls {
    match r
    case Completed => ApplyState(tls, false, false, false).(handshakeDone := true)
    case HandshakeFailed(_) => tls
    case Blocked(c, wr, ww) => ApplyState(tls, c, wr, ww)
  }

  /** An event as epoll reports it, with what happens while it is dispatched. */
  datatype Event = Event(fd: int, bits: Mask, onRecv: Env, onSend: Env)

  // ---------------------------------------------------------------- what handlers do to a connection

  /** Write interest follows pending bytes and the session's wish to write. */
  function Synced(c: Conn): Conn {
    c.(interest := if c.outbox != "" || c.tls.wantWrite then c.interest + {Out} else c.interest - {Out})
  }

  /** The kernel is only asked when the mask changes. */
  predicate Syncs(c: Conn, modOk: bool) {
    Synced(c).interest == c.interest || modOk
  }

  predicate Settles(c: Conn, failed: bool, modOk: bool) {
    !failed && Syncs(c, modOk)
  }

  /** The common end of every I/O step: close on failure, otherwise synchronise the mask or close. */
  function Settled(c: Conn, failed: bool, modOk: bool): Conn {
    if failed then c.(closed := true)
    else if Syncs(c, modOk) then Synced(c)
    else Synced(c).(closed := true)
  }

  /** The kernel's mask afterwards: the new interest if the kernel was asked and agreed. */
  function SettledMask(c: Conn, failed: bool, modOk: bool, mask: Mask): Mask {
    if !failed && Synced(c).interest != c.interest && modOk then Synced(c).interest else mask
  }

  predicate StepFails(r: HandshakeReply) {
    r.HandshakeFailed? || (r.Blocked? && r.closed)
  }

  predicate HandshakeOk(c: Conn, e: Env) {
    c.tls.handshakeDone || Settles(c.(tls := Handshaken(c.tls, e.handshake)), StepFails(e.handshake), e.handshakeModOk)
  }

  function AfterHandshake(c: Conn, e: Env): Conn {
    if c.tls.handshakeDone then c
    else Settled(c.(tls := Handshaken(c.tls, e.handshake)), StepFails(e.handshake), e.handshakeModOk)
  }

  function HandshakeMask(c: Conn, e: Env, mask: Mask): Mask {
    if c.tls.handshakeDone then mask
    else SettledMask(c.(tls := Handshaken(c.tls, e.handshake)), StepFails(e.handshake), e.handshakeModOk, mask)
  }

  /** The connection lets its handlers go on to its bytes. */
  predicate BytesMayFlow(c: Conn, e: Env) {
    HandshakeOk(c, e) && AfterHandshake(c, e).tls.handshakeDone
  }

  function FlushOf(c: Conn, e: Env): Flushed {
    Flush(c.outbox, c.tls, e.replies, 0, 0)
  }

  function DrainOf(c: Conn, e: Env): Drained {
    Drain(c.inbox, c.tls, e.arrivals, RecvInfo(0, false))
  }

  function WithFlushed(c: Conn, f: Flushed): Conn {
    c.(outbox := f.out, tls := f.tls)
  }

  function WithDrained(c: Conn, d: Drained): Conn {
    c.(inbox := d.inbox, tls := d.tls)
  }

  function AfterSend(c: Conn, e: Env): Conn {
    var h := AfterHandshake(c, e);
    if !BytesMayFlow(c, e) then h else Settled(WithFlushed(h, FlushOf(h, e)), FlushOf(h, e).result.Err?, e.modOk)
  }

  function SendMask(c: Conn, e: Env, mask: Mask): Mask {
    var h, m := AfterHandshake(c, e), HandshakeMask(c, e, mask);
    if !BytesMayFlow(c, e) then m else SettledMask(WithFlushed(h, FlushOf(h, e)), FlushOf(h, e).result.Err?, e.modOk, m)
  }

  predicate DrainSettles(h: Conn, e: Env) {
    Settles(WithDrained(h, DrainOf(h, e)), DrainOf(h, e).result.Err?, e.modOk)
  }

  /** The peer has closed its end. */
  predicate PeerGone(h: Conn, bits: Mask, e: Env) {
    DrainOf(h, e).result.Ok? && (DrainOf(h, e).result.value.closed || RdHup in bits)
  }

  function AfterDrain(h: Conn, bits: Mask, e: Env): Conn {
    var s := Settled(WithDrained(h, DrainOf(h, e)), DrainOf(h, e).result.Err?, e.modOk);
    if DrainSettles(h, e) && PeerGone(h, bits, e) then s.(closed := true) else s
  }

  function AfterRecv(c: Conn, bits: Mask, e: Env): Conn {
    var h := AfterHandshake(c, e);
    if BytesMayFlow(c, e) then AfterDrain(h, bits, e) else h
  }

  function DrainMask(h: Conn, e: Env, mask: Mask): Mask {
    SettledMask(WithDrained(h, DrainOf(h, e)), DrainOf(h, e).result.Err?, e.modOk, mask)
  }

  function RecvMask(c: Conn, e: Env, mask: Mask): Mask {
    var h, m := AfterHandshake(c, e), HandshakeMask(c, e, mask);
    if BytesMayFlow(c, e) then DrainMask(h, e, m) else m
  }

  /** Whether dispatch goes on after receiving. */
  predicate KeepsAlive(c: Conn, bits: Mask, e: Env) {
    var h := AfterHandshake(c, e);
    HandshakeOk(c, e) && (h.tls.handshakeDone ==> DrainSettles(h, e) && !PeerGone(h, bits, e))
  }

  predicate IsRead(bits: Mask) {
    In in bits || RdHup in bits || Hup in bits
  }

  /** The connection after an event's reading and writing, before its lines are executed. */
  function AfterIo(c: Conn, e: Event): Conn {
    if Trouble in e.bits then c.(closed := true)
    else
      var r := if IsRead(e.bits) then AfterRecv(c, e.bits, e.onRecv) else c;
      if IsRead(e.bits) && !KeepsAlive(c, e.bits, e.onRecv) then r
      else if Out in e.bits then AfterSend(r, e.onSend) else r
  }

  function IoMask(c: Conn, e: Event, mask: Mask): Mask {
    if Trouble in e.bits then mask
    else
      var r := if IsRead(e.bits) then AfterRecv(c, e.bits, e.onRecv) else c;
      var m := if IsRead(e.bits) then RecvMask(c, e.onRecv, mask) else mask;
      if IsRead(e.bits) && !KeepsAlive(c, e.bits, e.onRecv) then m
      else if Out in e.bits then SendMask(r, e.onSend, m) else m
  }

  /** Whether the connection's lines are executed after the event's reading and writing. */
  predicate GoesToLines(c: Conn, e: Event) {
    Trouble !in e.bits && IsRead(e.bits) && KeepsAlive(c, e.bits, e.onRecv)
  }

  /** A connection that is closed for the first time has its removal queued. */
  function Removal(c: Conn, c': Conn, fd: int): seq<Request> {
    if c'.closed && !c.closed then [UnregisterFd(fd)] else []
  }

  // ---------------------------------------------------------------- what that means

  predicate FlushCloses(h: Conn, e: Env) {
    FlushOf(h, e).result.Err? || !Syncs(WithFlushed(h, FlushOf(h, e)), e.modOk)
  }

  predicate DrainCloses(h: Conn, bits: Mask, e: Env) {
    DrainOf(h, e).result.Err? || !Syncs(WithDrained(h, DrainOf(h, e)), e.modOk) || PeerGone(h, bits, e)
  }

  /** Moving bytes changes neither user nor rooms. */
  predicate SameIdentity(c: Conn, c': Conn) {
    c'.userId == c.userId && c'.joined == c.joined && c'.nickname == c.nickname
  }

  /** Nobody is renamed or reopened on the way. */
  predicate Carries(c: Conn, c': Conn) {
    SameIdentity(c, c') && (c.closed ==> c'.closed)
  }

  /** The handshake is done when a step completes it, and it closes the connection exactly if a step fails, the
      peer is gone, or the kernel refuses the mask it needs. No byte moves. */
  lemma HandshakeOutcome(c: Conn, e: Env)
    ensures var h := AfterHandshake(c, e);
      && Carries(c, h) && Stream(h) == Stream(c) && h.inbox == c.inbox && h.tls.delivered == c.tls.delivered
      && (h.tls.handshakeDone <==> c.tls.handshakeDone || e.handshake.Completed?)
      && (!c.closed ==> (h.closed <==> !HandshakeOk(c, e)))
      && (HandshakeOk(c, e) ==> h.closed == c.closed)
  {}

  /** A send loses no byte, and closes the connection exactly if the handshake closes it, the flush fails, or the
      kernel refuses the mask. */
  lemma SendOutcome(c: Conn, e: Env)
    ensures var h, c' := AfterHandshake(c, e), AfterSend(c, e);
      && Carries(c, c') && Stream(c') == Stream(c) && c'.inbox == c.inbox && c'.tls.delivered == c.tls.delivered
      && (BytesMayFlow(c, e) ==> c'.outbox == FlushOf(h, e).out && c'.tls == FlushOf(h, e).tls)
      && (!c.closed ==> (c'.closed <==> !HandshakeOk(c, e) || (BytesMayFlow(c, e) && FlushCloses(h, e))))
  {
    HandshakeOutcome(c, e);
    var h := AfterHandshake(c, e);
    FlushConserves(h.outbox, h.tls, e.replies, 0, 0);
    FlushKeepsDelivered(h.outbox, h.tls, e.replies, 0, 0);
  }

  /** Receiving takes in exactly what TLS delivers, and closes the connection exactly if the handshake closes it,
      the drain fails, the kernel refuses the mask, or the peer has gone; dispatch goes on exactly otherwise. */
  lemma RecvOutcome(c: Conn, bits: Mask, e: Env)
    ensures var h, c' := AfterHandshake(c, e), AfterRecv(c, bits, e);
      && Carries(c, c') && Stream(c') == Stream(c)
      && Grows(c.inbox, c.tls.delivered, c'.inbox, c'.tls.delivered)
      && (!c.closed ==> (c'.closed <==> !HandshakeOk(c, e) || (BytesMayFlow(c, e) && DrainCloses(h, bits, e))))
      && (!c.closed ==> (KeepsAlive(c, bits, e) <==> !c'.closed))
      && (!KeepsAlive(c, bits, e) ==> c'.closed)
  {
    HandshakeOutcome(c, e);
    var h := AfterHandshake(c, e);
    assert c.inbox == c.inbox + "" && c.tls.delivered == c.tls.delivered + "";
    assert Grows(c.inbox, c.tls.delivered, h.inbox, h.tls.delivered);
    DrainConserves(h.inbox, h.tls, e.arrivals, RecvInfo(0, false));
    DrainKeepsHanded(h.inbox, h.tls, e.arrivals, RecvInfo(0, false));
  }

  lemma IoOutcome(c: Conn, e: Event)
    ensures var c' := AfterIo(c, e); Carries(c, c') && Stream(c') == Stream(c)
  {
    RecvOutcome(c, e.bits, e.onRecv);
    SendOutcome(c, e.onSend);
    SendOutcome(AfterRecv(c, e.bits, e.onRecv), e.onSend);
  }

  // ---------------------------------------------------------------- write interest

  /** Settling sets the interest to what is left to write, and the kernel's mask with it unless it refuses - in
      which case the connection is closed. */
  lemma SettleWatches(c: Conn, failed: bool, modOk: bool, mask: Mask)
    requires !c.closed ==> mask == c.interest
    ensures Watched(Settled(c, failed, modOk), SettledMask(c, failed, modOk, mask))
  {}

  lemma HandshakeWatches(c: Conn, e: Env, mask: Mask)
    requires Watched(c, mask)
    ensures Watched(AfterHandshake(c, e), HandshakeMask(c, e, mask))
  {
    SettleWatches(c.(tls := Handshaken(c.tls, e.handshake)), StepFails(e.handshake), e.handshakeModOk, mask);
  }

  /** Write interest is right after a send, whatever TLS and the kernel answer. */
  lemma SendWatches(c: Conn, e: Env, mask: Mask)
    requires Watched(c, mask)
    ensures Watched(AfterSend(c, e), SendMask(c, e, mask))
  {
    HandshakeWatches(c, e, mask);
    var h, m := AfterHandshake(c, e), HandshakeMask(c, e, mask);
    SettleWatches(WithFlushed(h, FlushOf(h, e)), FlushOf(h, e).result.Err?, e.modOk, m);
  }

  /** And after receiving. */
  lemma RecvWatches(c: Conn, bits: Mask, e: Env, mask: Mask)
    requires Watched(c, mask)
    ensures Watched(AfterRecv(c, bits, e), RecvMask(c, e, mask))
  {
    HandshakeWatches(c, e, mask);
    var h, m := AfterHandshake(c, e), HandshakeMask(c, e, mask);
    SettleWatches(WithDrained(h, DrainOf(h, e)), DrainOf(h, e).result.Err?, e.modOk, m);
  }

  lemma RemovalOnce(c: Conn, d: Conn, f: Conn, fd: int)
    requires (c.closed ==> d.closed) && (d.closed ==> f.closed)
    ensures Removal(c, d, fd) + Removal(d, f, fd) == Removal(c, f, fd)
  {}

  lemma UpdatedTwice<V>(t: map<int, V>, fd: int, a: V, b: V)
    ensures t[fd := a][fd := b] == t[fd := b]
  {}

  lemma UpdatedSame<V>(t: map<int, V>, fd: int)
    requires fd in t
    ensures t[fd := t[fd]] == t
  {}

  /** Two changes of one connection are one. */
  lemma Chain(t: Table, fd: int, d: Conn, f: Conn, q: seq<Request>, masks: map<int, Mask>, mask: Mask)
    requires fd in t && fd in masks && (t[fd].closed ==> d.closed) && (d.closed ==> f.closed)
    ensures t[fd := d][fd := f] == t[fd := f]
    ensures q + Removal(t[fd], d, fd) + Removal(d, f, fd) == q + Removal(t[fd], f, fd)
    ensures forall m: Mask {:trigger masks[fd := m]} :: masks[fd := m][fd := mask] == masks[fd := mask]
  {
    RemovalOnce(t[fd], d, f, fd);
    Assoc(q, Removal(t[fd], d, fd), Removal(d, f, fd));
  }

  function CommandTask(d: Result<Command, DecodeError>, fd: int, userId: string): seq<Task> {
    if d.Ok? && IsDbCommand(d.value) then [Task(d.value, fd, userId)] else []
  }

  /** A response is sent back to the connection it came from. */
  function CommandEcho(d: Result<Command, DecodeError>, fd: int): seq<Request> {
    if d.Ok? && !IsDbCommand(d.value) then [SendOne(fd, d.value)] else []
  }

  ghost function LineEcho(line: string, fd: int): seq<Request> {
    CommandEcho(Decode(line), fd)
  }

  ghost function EchoesOf(lines: seq<string>, fd: int): seq<Request> {
    if lines == [] then [] else EchoesOf(lines[..|lines| - 1], fd) + LineEcho(lines[|lines| - 1], fd)
  }

  lemma {:induction false} EchoesAreOwn(lines: seq<string>, fd: int)
    ensures forall i :: 0 <= i < |EchoesOf(lines, fd)| ==>
      EchoesOf(lines, fd)[i].SendOne? && EchoesOf(lines, fd)[i].fd == fd
  {
    if lines != [] {
      EchoesAreOwn(lines[..|lines| - 1], fd);
    }
  }

  ghost function LineTask(line: string, fd: int, userId: string): seq<Task> {
    CommandTask(Decode(line), fd, userId)
  }

  /** The tasks the complete lines of a connection give rise to. */
  ghost function TasksOf(lines: seq<string>, fd: int, userId: string): seq<Task> {
    if lines == [] then []
    else TasksOf(lines[..|lines| - 1], fd, userId) + LineTask(lines[|lines| - 1], fd, userId)
  }

  lemma TasksSnoc(lines: seq<string>, line: string, fd: int, userId: string)
    ensures TasksOf(lines + [line], fd, userId) == TasksOf(lines, fd, userId) + LineTask(line, fd, userId)
    ensures EchoesOf(lines + [line], fd) == EchoesOf(lines, fd) + LineEcho(line, fd)
  {
    assert (lines + [line])[..|lines|] == lines;
  }

  lemma {:induction false} FlushKeepsDelivered(out: string, tls: Tls, replies: WriteReplies, k: nat, sent: nat)
    ensures Flush(out, tls, replies, k, sent).tls.delivered == tls.delivered
    decreases |out|
  {
    if out != "" && replies(k).Io? && Min(replies(k).byte, |out|) > 0 {
      var m := Min(replies(k).byte, |out|);
      FlushKeepsDelivered(out[m..], WriteTo(tls, out, replies(k)), replies, k + 1, sent + m);
    }
  }

  lemma {:induction false} DrainKeepsHanded(inbox: string, tls: Tls, arrivals: seq<ReadReply>, info: RecvInfo)
    ensures Drain(inbox, tls, arrivals, info).tls.handed == tls.handed
    decreases |arrivals|
  {
    if arrivals != [] {
      var data := Delivered(arrivals[0]);
      if data != "" && !arrivals[0].wantRead && !arrivals[0].wantWrite {
        DrainKeepsHanded(inbox + data, ReadFrom(tls, arrivals[0]), arrivals[1..], info.(byte := info.byte + |data|));
      }
    }
  }

  // ---------------------------------------------------------------- received lines

  /** The next complete line. */
  function NextLine(inbox: string): Option<string> {
    match Find(inbox, LF, 0) case None => None case Some(p) => Some(inbox[..p])
  }

  /** What is left behind the next line. */
  function Behind(inbox: string): string
    requires NextLine(inbox).Some?
  {
    inbox[|NextLine(inbox).value| + 1..]
  }

  lemma NextLineSplits(inbox: string)
    ensures NextLine(inbox).None? ==> LF !in inbox
    ensures NextLine(inbox).Some? ==>
      LF !in NextLine(inbox).value && inbox == NextLine(inbox).value + [LF] + Behind(inbox)
  {}

  /** Only a database command that the executor refuses stops the execution of lines. */
  predicate CommandGoesOn(d: Result<Command, DecodeError>, accepting: bool) {
    d.Ok? && IsDbCommand(d.value) ==> accepting
  }

  ghost predicate GoesOn(line: string, accepting: bool) {
    CommandGoesOn(Decode(line), accepting)
  }

  /** The lines executed, and what stays in the inbox. */
  ghost function LinesRun(inbox: string, accepting: bool): seq<string>
    decreases |inbox|
  {
    if NextLine(inbox).None? then []
    else
      var line := NextLine(inbox).value;
      [line] + if GoesOn(line, accepting) then LinesRun(Behind(inbox), accepting) else []
  }

  ghost function LeftOver(inbox: string, accepting: bool): string
    decreases |inbox|
  {
    if NextLine(inbox).None? then inbox
    else if GoesOn(NextLine(inbox).value, accepting) then LeftOver(Behind(inbox), accepting)
    else Behind(inbox)
  }

  /** No byte of the inbox is lost; and while the executor accepts tasks, every complete line is executed. */
  lemma {:induction false} LinesRunSplit(inbox: string, accepting: bool)
    ensures var lines, left := LinesRun(inbox, accepting), LeftOver(inbox, accepting);
      AllFree(lines, LF) && Terminated(lines) + left == inbox && (accepting ==> LF !in left)
    decreases |inbox|
  {
    NextLineSplits(inbox);
    if NextLine(inbox).None? {
      assert "" + inbox == inbox;
    } else {
      var line, rest := NextLine(inbox).value, Behind(inbox);
      if GoesOn(line, accepting) {
        LinesRunSplit(rest, accepting);
        var lines := LinesRun(rest, accepting);
        assert LinesRun(inbox, accepting) == [line] + lines && ([line] + lines)[1..] == lines;
        Assoc(line + [LF], Terminated(lines), LeftOver(rest, accepting));
      } else {
        assert LinesRun(inbox, accepting) == [line] && [line][1..] == [];
        assert Terminated([line]) == line + [LF] + "" == line + [LF];
      }
    }
  }

  ghost function TasksRun(lines: seq<string>, fd: int, userId: string, accepting: bool): seq<Task> {
    if accepting then TasksOf(lines, fd, userId) else []
  }

  lemma {:induction false} RunCons(line: string, lines: seq<string>, fd: int, userId: string)
    ensures TasksOf([line] + lines, fd, userId) == LineTask(line, fd, userId) + TasksOf(lines, fd, userId)
    ensures EchoesOf([line] + lines, fd) == LineEcho(line, fd) + EchoesOf(lines, fd)
    decreases |lines|
  {
    if lines == [] {
      assert [line] + lines == [] + [line];
      TasksSnoc([], line, fd, userId);
    } else {
      var init, last := lines[..|lines| - 1], lines[|lines| - 1];
      assert [line] + lines == [line] + init + [last] && lines == init + [last];
      RunCons(line, init, fd, userId);
      TasksSnoc([line] + init, last, fd, userId);
      TasksSnoc(init, last, fd, userId);
      Assoc(LineTask(line, fd, userId), TasksOf(init, fd, userId), LineTask(last, fd, userId));
      Assoc(LineEcho(line, fd), EchoesOf(init, fd), LineEcho(last, fd));
    }
  }

  // ---------------------------------------------------------------- a whole event

  ghost function LinesOfEvent(c: Conn, e: Event, accepting: bool): seq<string> {
    if GoesToLines(c, e) then LinesRun(AfterIo(c, e).inbox, accepting) else []
  }

  ghost function AfterEvent(c: Conn, e: Event, accepting: bool): Conn {
    var d := AfterIo(c, e);
    if GoesToLines(c, e) then d.(inbox := LeftOver(d.inbox, accepting)) else d
  }

  /** The requests an event makes the loop queue: the connection's removal, if it was closed, then its echoes. */
  ghost function RequestsOfEvent(c: Conn, e: Event, accepting: bool): seq<Request> {
    Removal(c, AfterIo(c, e), e.fd) + EchoesOf(LinesOfEvent(c, e, accepting), e.fd)
  }
}
