/** Whole connections: what a reader gets out of arbitrary chunks, and what a peer decodes
    after arbitrary partial writes. */
module Streams {
  import opened Text
  import opened Buffers
  import opened Codec

  // ---------------------------------------------------------------- lines and streams

  /** The bytes a list of lines came from. */
  function Terminated(lines: seq<string>): string {
    if lines == [] then "" else lines[0] + [LF] + Terminated(lines[1..])
  }

  lemma {:induction false} TerminatedSnoc(lines: seq<string>, line: string)
    ensures Terminated(lines + [line]) == Terminated(lines) + (line + [LF])
  {
    if lines == [] {
      assert [line][1..] == [];
      assert Terminated([line]) == line + [LF] + "";
    } else {
      var all := lines + [line];
      assert all[1..] == lines[1..] + [line];
      TerminatedSnoc(lines[1..], line);
      Assoc(lines[0] + [LF], Terminated(lines[1..]), line + [LF]);
    }
  }

  /** Cutting a stream at its LFs has one result, whatever way the stream was cut up in transit. */
  lemma {:induction false} LinesAreUnique(lines: seq<string>, rest: string)
    requires AllFree(lines, LF) && Free(rest, LF)
    ensures Split(Terminated(lines) + rest, LF) == lines + [rest]
  {
    if lines == [] {
      assert "" + rest == rest;
    } else {
      assert Free(lines[0], LF) && AllFree(lines[1..], LF);
      LinesAreUnique(lines[1..], rest);
      Assoc(lines[0] + [LF], Terminated(lines[1..]), rest);
      SplitAt(lines[0], Terminated(lines[1..]) + rest, LF);
      assert lines + [rest] == [lines[0]] + (lines[1..] + [rest]);
    }
  }

  /** Lines already cut from the front of a stream of whole lines are its first lines. */
  lemma {:induction false} CutLinesArePrefix(cut: seq<string>, rest: string, whole: seq<string>)
    requires AllFree(cut, LF) && AllFree(whole, LF)
    requires Terminated(cut) + rest == Terminated(whole)
    ensures |cut| <= |whole| && cut == whole[..|cut|] && rest == Terminated(whole[|cut|..])
  {
    if cut == [] {
      assert rest == "" + rest;
      assert whole[0..] == whole;
    } else {
      Assoc(cut[0] + [LF], Terminated(cut[1..]), rest);
      var tail := Terminated(cut[1..]) + rest;
      assert Free(cut[0], LF);
      SplitAt(cut[0], tail, LF);
      assert |Terminated(whole)| == |cut[0] + [LF] + tail| >= 1;
      assert Free(whole[0], LF);
      SplitAt(whole[0], Terminated(whole[1..]), LF);
      assert |cut[0]| == |whole[0]|;
      SameHead(cut[0], tail, whole[0], Terminated(whole[1..]));
      assert AllFree(cut[1..], LF) && AllFree(whole[1..], LF);
      CutLinesArePrefix(cut[1..], rest, whole[1..]);
      assert cut == [cut[0]] + cut[1..];
      assert whole[..|cut|] == [whole[0]] + whole[1..][..|cut| - 1];
      assert whole[1..][|cut| - 1..] == whole[|cut|..];
    }
  }

  lemma SameHead(a: string, x: string, b: string, y: string)
    requires |a| == |b| && a + [LF] + x == b + [LF] + y
    ensures a == b && x == y
  {
    var s, t := a + [LF] + x, b + [LF] + y;
    assert a == s[..|a|] && b == t[..|b|];
    assert x == s[|a| + 1..] && y == t[|b| + 1..];
  }

  // ---------------------------------------------------------------- readers

  datatype ReadOp = Arrive(bytes: string) | Parse

  function BytesOf(op: ReadOp): string {
    match op case Arrive(bytes) => bytes case Parse => ""
  }

  /** The bytes that arrived during the first operations of a script. */
  function Arrived(script: seq<ReadOp>, n: nat): string
    requires n <= |script|
  {
    if n == 0 then "" else Arrived(script, n - 1) + BytesOf(script[n - 1])
  }

  /** One operation on a receive buffer: it returns a line and keeps the rest, or keeps everything. */
  method ReadStep(recv: OffsetBuffer, op: ReadOp) returns (line: Option<string>)
    requires recv.Valid()
    modifies recv
    ensures recv.Valid()
    ensures line.None? ==> recv.Unread() == old(recv.Unread()) + BytesOf(op) && recv.consumed == old(recv.consumed)
    ensures line.Some? ==>
      && LF !in line.value && old(recv.Unread()) + BytesOf(op) == line.value + [LF] + recv.Unread()
      && recv.consumed == old(recv.consumed) + |line.value| + 1
  {
    match op
    case Arrive(bytes) =>
      var _ := recv.Append(bytes);
      return None;
    case Parse =>
      assert recv.Unread() == recv.Unread() + "";
      line := recv.ParseLine();
  }

  /** The account of a run: what was returned, what is unread, what arrived. */
  lemma Accounted(lines: seq<string>, view: string, script: seq<ReadOp>, i: nat, line: string, rest: string)
    requires i < |script| && Terminated(lines) + view == Arrived(script, i)
    requires view + BytesOf(script[i]) == line + [LF] + rest
    ensures Terminated(lines + [line]) + rest == Arrived(script, i + 1)
    ensures |Terminated(lines + [line])| == |Terminated(lines)| + |line| + 1
  {
    TerminatedSnoc(lines, line);
    Assoc(Terminated(lines), line + [LF], rest);
    Assoc(Terminated(lines), view, BytesOf(script[i]));
  }

  /** Drives a receive buffer through any interleaving of arrivals and parse calls. The lines returned,
      each with its LF, and the unread rest are exactly the bytes that arrived; and all compactions
      together moved no more bytes than were read. */
  method RunReader(script: seq<ReadOp>) returns (lines: seq<string>, rest: string, ghost moved: nat, ghost read: nat)
    ensures Terminated(lines) + rest == Arrived(script, |script|)
    ensures AllFree(lines, LF)
    ensures moved <= read && read + |rest| == |Arrived(script, |script|)|
  {
    var recv := new OffsetBuffer();
    lines := [];
    for i := 0 to |script|
      invariant recv.Valid() && fresh(recv)
      invariant AllFree(lines, LF)
      invariant Terminated(lines) + recv.Unread() == Arrived(script, i)
      invariant recv.consumed == |Terminated(lines)|
    {
      ghost var view := recv.Unread();
      var line := ReadStep(recv, script[i]);
      if line.Some? {
        Accounted(lines, view, script, i, line.value, recv.Unread());
        lines := lines + [line.value];
      } else {
        Assoc(Terminated(lines), view, BytesOf(script[i]));
      }
    }
    rest := recv.Unread();
    moved, read := recv.shifted, recv.consumed;
  }

  /** Chunking is invisible: once no complete line is left unread, what was returned depends only on
      the bytes, and is the split of the whole stream. */
  lemma ChunkingIsInvisible(lines: seq<string>, rest: string, arrived: string)
    requires AllFree(lines, LF) && Free(rest, LF) && Terminated(lines) + rest == arrived
    ensures lines == Split(arrived, LF)[..|Split(arrived, LF)| - 1]
    ensures rest == Split(arrived, LF)[|Split(arrived, LF)| - 1]
  {
    LinesAreUnique(lines, rest);
  }

  // ---------------------------------------------------------------- two ends of a connection

  /** How one read of the receiving session turns out: it takes some of the bytes on the wire, or fails. */
  datatype Cut = Cut(n: nat, closed: bool, wantRead: bool, wantWrite: bool) | NoCut(error: IoError)

  /** One step of a one-way connection: the sender queues a command or flushes, the receiver drains its session
      or parses one line. */
  datatype LinkOp = Queue(cmd: Command) | FlushOut(replies: WriteReplies) | Deliver(cuts: seq<Cut>) | ParseNext

  /** What the reads bring when these bytes are on the wire. */
  function Reads(wire: string, cuts: seq<Cut>): seq<ReadReply> {
    if cuts == [] then []
    else match cuts[0]
      case NoCut(e) => [ReadFailed(e)] + Reads(wire, cuts[1..])
      case Cut(n, closed, wr, ww) =>
        var m := Min(Min(n, BUF_SIZE), |wire|);
        [Read(wire[..m], closed, wr, ww)] + Reads(wire[m..], cuts[1..])
  }

  /** A drain moves an initial part of the wire into the buffer, however it ends. */
  lemma {:induction false} DrainTakesPrefix(inbox: string, tls: Tls, wire: string, cuts: seq<Cut>, info: RecvInfo)
    ensures var d := Drain(inbox, tls, Reads(wire, cuts), info);
      |inbox| <= |d.inbox| <= |inbox| + |wire| && d.inbox == inbox + wire[..|d.inbox| - |inbox|]
    decreases |cuts|
  {
    assert wire[..0] == "" && inbox + "" == inbox;
    if cuts != [] && cuts[0].Cut? {
      var m := Min(Min(cuts[0].n, BUF_SIZE), |wire|);
      var data := wire[..m];
      var r := Reads(wire, cuts);
      assert r[0] == Read(data, cuts[0].closed, cuts[0].wantRead, cuts[0].wantWrite) && Delivered(r[0]) == data;
      assert r[1..] == Reads(wire[m..], cuts[1..]);
      if data != "" && !cuts[0].wantRead && !cuts[0].wantWrite {
        var info' := info.(byte := info.byte + |data|);
        DrainTakesPrefix(inbox + data, ReadFrom(tls, r[0]), wire[m..], cuts[1..], info');
        var d := Drain(inbox + data, ReadFrom(tls, r[0]), r[1..], info');
        PrefixGrows(inbox, wire, m, |d.inbox| - |inbox|);
      }
    }
  }

  lemma PrefixGrows(inbox: string, wire: string, m: nat, n: nat)
    requires m <= n <= |wire|
    ensures inbox + wire[..m] + wire[m..][..n - m] == inbox + wire[..n]
  {
    assert wire[..n] == wire[..m] + wire[m..][..n - m];
    Assoc(inbox, wire[..m], wire[m..][..n - m]);
  }

  /** The commands queued by the first operations of a script. */
  function Queued(script: seq<LinkOp>, n: nat): seq<Command>
    requires n <= |script|
  {
    if n == 0 then [] else Extended(Queued(script, n - 1), script[n - 1])
  }

  function Extended(cmds: seq<Command>, op: LinkOp): seq<Command> {
    if op.Queue? then cmds + [op.cmd] else cmds
  }

  /** The line a command is sent as. */
  function LineOf(c: Command): string {
    Body(Name(c), Fields(c))
  }

  function LinesOf(cmds: seq<Command>): seq<string> {
    seq(|cmds|, i requires 0 <= i < |cmds| => LineOf(cmds[i]))
  }

  /** A field as the client and the server may put it into a command. */
  predicate Sendable(c: Command) {
    forall f :: f in Fields(c) ==> f != "" && CR !in f && LF !in f
  }

  lemma SendableRoundTrip(c: Command)
    requires Sendable(c)
    ensures Encode(c) == LineOf(c) + [LF] && LF !in LineOf(c) && Decode(LineOf(c)) == Ok(c)
  {
    EncodeIsOneLine(c);
    RoundTripIff(c);
    forall f | f in Fields(c) ensures Carried(f) {
      assert f[0] in f;
    }
    DecodeOfEncode(c);
    assert EraseDelimiter(LineOf(c)) == LineOf(c) by {
      assert forall i :: 0 <= i < |LineOf(c)| ==> LineOf(c)[i] in LineOf(c);
    }
  }

  lemma LinesOfSendable(cmds: seq<Command>)
    requires forall c :: c in cmds ==> Sendable(c)
    ensures AllFree(LinesOf(cmds), LF)
  {
    forall i | 0 <= i < |cmds| ensures LF !in LineOf(cmds[i]) {
      SendableRoundTrip(cmds[i]);
    }
  }

  /** A one-way connection: the sender's buffer and session, the bytes in flight, the receiver's buffer,
      and what the receiver has decoded. */
  class Link {
    const send: OffsetBuffer
    const recv: OffsetBuffer
    const tls: TlsSession      // the sender's session
    const inbound: TlsSession  // the receiver's session
    var wire: string
    var decoded: seq<Result<Command, DecodeError>>
    ghost var queued: seq<Command>
    ghost var lines: seq<string>

    /** The lines parsed and the bytes under way are together the lines of all queued commands. */
    ghost predicate Valid()
      reads this, send, recv, tls, inbound
    {
      && send != recv && tls != inbound && tls.live && inbound.live && send.Valid() && recv.Valid()
      && (forall c :: c in queued ==> Sendable(c))
      && AllFree(lines, LF) && Decoded()
      && InTransit(lines, recv.Unread(), wire, send.Unread()) == Terminated(LinesOf(queued))
    }

    ghost predicate Decoded()
      reads this
    {
      |decoded| == |lines| && forall j :: 0 <= j < |lines| ==> decoded[j] == Decode(lines[j])
    }

    constructor ()
      ensures Valid() && queued == [] && fresh(send) && fresh(recv) && fresh(tls) && fresh(inbound)
    {
      send := new OffsetBuffer();
      recv := new OffsetBuffer();
      tls := new TlsSession(true);
      inbound := new TlsSession(true);
      wire, decoded := "", [];
      queued, lines := [], [];
    }

    method QueueCommand(c: Command)
      requires Valid() && Sendable(c)
      modifies this, send
      ensures Valid() && queued == old(queued) + [c]
    {
      ghost var outbox := send.Unread();
      SendableRoundTrip(c);
      var _ := send.Append(Encode(c));
      TransitQueues(lines, recv.Unread(), wire, outbox, Encode(c));
      TransitSnoc(queued, c);
      queued := queued + [c];
    }

    method FlushOut(replies: WriteReplies)
      requires Valid()
      modifies this, send, tls
      ensures Valid() && queued == old(queued)
    {
      var out := FlushToWire(send, tls, replies);
      TransitFlushes(lines, recv.Unread(), wire, out, send.Unread());
      wire := wire + out;
    }

    /** The receiver drains its session. */
    method Deliver(cuts: seq<Cut>)
      requires Valid()
      modifies this, recv, inbound
      ensures Valid() && queued == old(queued)
    {
      var before := recv.Unread();
      ghost var tls0 := inbound.st;
      DrainTakesPrefix(before, tls0, wire, cuts, RecvInfo(0, false));
      var _ := DrainRecv(recv, inbound, Reads(wire, cuts));
      var m := |recv.Unread()| - |before|;
      TransitSplits(lines, before, wire, m, send.Unread());
      wire := wire[m..];
    }

    method ParseNext()
      requires Valid()
      modifies this, recv
      ensures Valid() && queued == old(queued)
    {
      var line := recv.ParseLine();
      if line.Some? {
        var d := DecodeCommand(line.value);
        TransitParses(lines, line.value, recv.Unread(), wire, send.Unread());
        decoded := decoded + [d];
        lines := lines + [line.value];
      }
    }

    method Perform(op: LinkOp)
      requires Valid() && (op.Queue? ==> Sendable(op.cmd))
      modifies this, send, recv, tls, inbound
      ensures Valid() && queued == Extended(old(queued), op)
    {
      match op
      case Queue(c) => QueueCommand(c);
      case FlushOut(replies) => FlushOut(replies);
      case Deliver(cuts) => Deliver(cuts);
      case ParseNext => ParseNext();
    }
  }

  /** Every command is recovered: whatever the receiver has decoded at any moment is an initial part of
      what the sender queued, in order and unchanged; and once nothing is in transit it is all of it. */
  method RunLink(script: seq<LinkOp>)
    returns (decoded: seq<Result<Command, DecodeError>>, unsent: string, wire: string, unread: string)
    requires forall i :: 0 <= i < |script| && script[i].Queue? ==> Sendable(script[i].cmd)
    ensures var queued := Queued(script, |script|);
      && |decoded| <= |queued| && (forall i :: 0 <= i < |decoded| ==> decoded[i] == Ok(queued[i]))
      && (unsent == "" && wire == "" && LF !in unread ==> |decoded| == |queued| && unread == "")
  {
    var link := new Link();
    for i := 0 to |script|
      invariant fresh(link) && fresh(link.send) && fresh(link.recv) && fresh(link.tls) && fresh(link.inbound)
      invariant link.Valid() && link.queued == Queued(script, i)
    {
      link.Perform(script[i]);
    }
    decoded, unsent, wire, unread := link.decoded, link.send.Unread(), link.wire, link.recv.Unread();
    LinkIsFaithful(link.lines, unread, wire, unsent, link.queued);
  }

  lemma TransitSnoc(cmds: seq<Command>, c: Command)
    ensures Terminated(LinesOf(cmds + [c])) == Terminated(LinesOf(cmds)) + Encode(c)
  {
    EncodeIsBody(c);
    assert LinesOf(cmds + [c]) == LinesOf(cmds) + [LineOf(c)];
    TerminatedSnoc(LinesOf(cmds), LineOf(c));
  }

  /** A flush moves an initial part of the buffer to the wire, however it ends. */
  method FlushToWire(send: OffsetBuffer, tls: TlsSession, replies: WriteReplies) returns (out: string)
    requires send.Valid() && tls.live
    modifies send, tls
    ensures send.Valid() && old(send.Unread()) == out + send.Unread()
  {
    var before := tls.st.handed;
    ghost var waiting := send.Unread();
    FlushNeverGrows(waiting, tls.st, replies, 0, 0);
    var _ := FlushSend(send, tls, replies);
    SplitLater(tls.st.handed, send.Unread(), before, waiting);
    out := tls.st.handed[|before|..];
  }

  lemma {:induction false} FlushNeverGrows(out: string, tls: Tls, replies: WriteReplies, k: nat, sent: nat)
    ensures |Flush(out, tls, replies, k, sent).out| <= |out|
    decreases |out|
  {
    if out != "" && replies(k).Io? && Min(replies(k).byte, |out|) > 0 {
      var m := Min(replies(k).byte, |out|);
      FlushNeverGrows(out[m..], WriteTo(tls, out, replies(k)), replies, k + 1, sent + m);
    }
  }

  /** Splitting the same bytes further along. */
  lemma SplitLater(a': string, b': string, a: string, b: string)
    requires a' + b' == a + b && |b'| <= |b|
    ensures |a| <= |a'| && b == a'[|a|..] + b'
  {
    assert |a'| + |b'| == |a' + b'| == |a + b| == |a| + |b|;
    assert b == (a + b)[|a|..] == (a' + b')[|a|..];
  }

  /** All bytes of a connection, oldest first: parsed, received, on the wire, not yet sent. */
  function InTransit(lines: seq<string>, inbox: string, wire: string, outbox: string): string {
    Terminated(lines) + (inbox + (wire + outbox))
  }

  lemma TransitQueues(lines: seq<string>, inbox: string, wire: string, outbox: string, x: string)
    ensures InTransit(lines, inbox, wire, outbox + x) == InTransit(lines, inbox, wire, outbox) + x
  {
    Assoc(wire, outbox, x);
    Assoc(inbox, wire + outbox, x);
    Assoc(Terminated(lines), inbox + (wire + outbox), x);
  }

  lemma TransitSplits(lines: seq<string>, inbox: string, wire: string, m: nat, outbox: string)
    requires m <= |wire|
    ensures InTransit(lines, inbox + wire[..m], wire[m..], outbox) == InTransit(lines, inbox, wire, outbox)
  {
    assert wire == wire[..m] + wire[m..];
    TransitDelivers(lines, inbox, wire[..m], wire[m..], outbox);
  }

  lemma TransitFlushes(lines: seq<string>, inbox: string, wire: string, x: string, outbox: string)
    ensures InTransit(lines, inbox, wire + x, outbox) == InTransit(lines, inbox, wire, x + outbox)
  {
    Assoc(wire, x, outbox);
  }

  lemma TransitDelivers(lines: seq<string>, inbox: string, x: string, wire: string, outbox: string)
    ensures InTransit(lines, inbox + x, wire, outbox) == InTransit(lines, inbox, x + wire, outbox)
  {
    Assoc(x, wire, outbox);
    Assoc(inbox, x, wire + outbox);
  }

  lemma TransitParses(lines: seq<string>, line: string, inbox: string, wire: string, outbox: string)
    ensures InTransit(lines + [line], inbox, wire, outbox) ==
            InTransit(lines, line + [LF] + inbox, wire, outbox)
  {
    TerminatedSnoc(lines, line);
    Assoc(line + [LF], inbox, wire + outbox);
    Assoc(Terminated(lines), line + [LF], inbox + (wire + outbox));
  }

  lemma LinkIsFaithful(lines: seq<string>, inbox: string, wire: string, outbox: string, cmds: seq<Command>)
    requires AllFree(lines, LF)
    requires forall c :: c in cmds ==> Sendable(c)
    requires InTransit(lines, inbox, wire, outbox) == Terminated(LinesOf(cmds))
    ensures |lines| <= |cmds| && forall i :: 0 <= i < |lines| ==> Decode(lines[i]) == Ok(cmds[i])
    ensures outbox == "" && wire == "" && LF !in inbox ==> |lines| == |cmds| && inbox == ""
  {
    var whole := LinesOf(cmds);
    LinesOfSendable(cmds);
    CutLinesArePrefix(lines, inbox + (wire + outbox), whole);
    forall i | 0 <= i < |lines| ensures Decode(lines[i]) == Ok(cmds[i]) {
      assert lines[i] == whole[i];
      SendableRoundTrip(cmds[i]);
    }
    if outbox == "" && wire == "" && LF !in inbox {
      assert inbox + (wire + outbox) == inbox;
      if whole[|lines|..] != [] {
        TerminatedHoldsLf(whole[|lines|..]);
      }
    }
  }

  lemma TerminatedHoldsLf(lines: seq<string>)
    requires lines != []
    ensures LF in Terminated(lines)
  {
    assert Terminated(lines)[|lines[0]|] == LF;
  }
}
