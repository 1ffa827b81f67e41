/** The per-connection byte buffers, the TLS session they are flushed to and drained from,
    and the line splitter. */
module Buffers {
  import opened Text
  import Codec

  /** An append-only string with a read position; the read part is erased lazily. */
  class OffsetBuffer {
    var buf: string
    var offset: nat
    ghost var consumed: nat  // bytes read past since construction
    ghost var shifted: nat   // bytes moved to the front by compaction since construction

    /** Compaction never moves more bytes than have been read past: the bytes still in front of
        the read position pay for the next move. */
    ghost predicate Valid()
      reads this
    {
      offset <= |buf| && shifted + offset <= consumed
    }

    function Unread(): string
      reads this
      requires Valid()
    {
      buf[offset..]
    }

    constructor ()
      ensures Valid() && Unread() == "" && consumed == shifted == 0
    {
      buf, offset, consumed, shifted := "", 0, 0, 0;
    }

    method ClearIfDone() returns (cleared: bool)
      requires Valid()
      modifies this
      ensures Valid() && Unread() == old(Unread())
      ensures cleared <==> old(Unread()) == ""
      ensures cleared ==> buf == "" && offset == 0
      ensures !cleared ==> buf == old(buf) && offset == old(offset)
      ensures consumed == old(consumed) && shifted == old(shifted)
    {
      if |buf| != offset { return false; }
      buf, offset := "", 0;
      return true;
    }

    method CompactIfNeeded() returns (compacted: bool)
      requires Valid()
      modifies this
      ensures Valid() && Unread() == old(Unread())
      ensures offset < 8192 || 2 * offset < |buf|
      ensures compacted <==> old(offset) >= 8192 && 2 * old(offset) >= |old(buf)|
      ensures if compacted then offset == 0 else buf == old(buf) && offset == old(offset)
      ensures consumed == old(consumed)
      ensures shifted == old(shifted) + if compacted then |Unread()| else 0
    {
      if offset < 8192 { return false; }
      if offset * 2 < |buf| { return false; }
      shifted := shifted + (|buf| - offset);
      buf := buf[offset..];
      offset := 0;
      return true;
    }

    method Advance(n: nat)
      requires Valid() && n <= |Unread()|
      modifies this
      ensures Valid() && Unread() == old(Unread())[n..]
      ensures buf == old(buf) && consumed == old(consumed) + n && shifted == old(shifted)
    {
      offset := offset + n;
      consumed := consumed + n;
    }

    predicate HasPending()
      reads this
      requires Valid()
      ensures HasPending() <==> Unread() != ""
    {
      offset < |buf|
    }

    /** Appends; says whether the buffer went from drained to pending. */
    method Append(bytes: string) returns (edge: bool)
      requires Valid()
      modifies this
      ensures Valid() && Unread() == old(Unread()) + bytes
      ensures edge <==> old(Unread()) == "" && bytes != ""
      ensures consumed == old(consumed) && shifted == old(shifted)
    {
      var wasPending := HasPending();
      buf := buf + bytes;
      edge := !wasPending && HasPending();
    }

    /** The next complete line without its LF, if one has arrived. */
    method ParseLine() returns (line: Option<string>)
      requires Valid()
      modifies this
      ensures Valid()
      ensures line.None? ==> Codec.LF !in Unread() && Unread() == old(Unread()) && consumed == old(consumed)
      ensures line.Some? ==> Codec.LF !in line.value && old(Unread()) == line.value + [Codec.LF] + Unread()
      ensures line.Some? ==> consumed == old(consumed) + |line.value| + 1
      ensures line.Some? ==> offset < 8192 || 2 * offset < |buf|
    {
      ghost var before := Unread();
      var pos := Find(buf, Codec.LF, offset);
      if pos.None? { return None; }
      var text := buf[offset..pos.value];
      line := Some(text);
      assert before == text + [Codec.LF] + buf[pos.value + 1..];
      consumed := consumed + (pos.value + 1 - offset);
      offset := pos.value + 1;
      var cleared := ClearIfDone();
      if !cleared { var _ := CompactIfNeeded(); }
    }
  }

  // ---------------------------------------------------------------- TLS sessions

  datatype IoError = InvalidArgument | BrokenPipe | ConnectionReset | ProtocolError | TlsFailure(code: int)

  /** What one TLS write or handshake step reports. */
  datatype IoReply = Failed(error: IoError) | Io(byte: nat, closed: bool, wantRead: bool, wantWrite: bool)

  /** What one TLS read reports: the bytes it delivers come with it. */
  datatype ReadReply = ReadFailed(error: IoError) | Read(data: string, closed: bool, wantRead: bool, wantWrite: bool)

  /** A session's flags, with the plaintext it has taken to send and delivered so far. */
  datatype Tls = Tls(handshakeDone: bool, wantRead: bool, wantWrite: bool, peerClosed: bool,
                     handed: string, delivered: string)

  const FRESH_TLS := Tls(false, false, false, false, "", "")

  const BUF_SIZE := 4096

  /** The kernel answers as it likes; the k-th write of a flush gets reply `replies(k)`. */
  type WriteReplies = nat -> IoReply

  function Min(a: nat, b: nat): nat { if a <= b then a else b }

  function ApplyState(tls: Tls, closed: bool, wantRead: bool, wantWrite: bool): Tls {
    tls.(wantRead := wantRead, wantWrite := wantWrite, peerClosed := tls.peerClosed || closed)
  }

  /** Whatever a reply claims, no more than the offered bytes are taken. */
  function WriteTo(tls: Tls, src: string, r: IoReply): Tls {
    match r
    case Failed(_) => tls
    case Io(n, c, wr, ww) => ApplyState(tls, c, wr, ww).(handed := tls.handed + src[..Min(n, |src|)])
  }

  function Delivered(r: ReadReply): string {
    match r
    case ReadFailed(_) => ""
    case Read(data, _, _, _) => data[..Min(|data|, BUF_SIZE)]
  }

  /** A read delivers what fits its buffer, and all of it if it fits. */
  lemma DeliveredFits(r: ReadReply)
    ensures |Delivered(r)| <= BUF_SIZE
    ensures r.Read? ==> Delivered(r) <= r.data && (|r.data| <= BUF_SIZE ==> Delivered(r) == r.data)
  {}

  function ReadFrom(tls: Tls, r: ReadReply): Tls {
    match r
    case ReadFailed(_) => tls
    case Read(_, c, wr, ww) => ApplyState(tls, c, wr, ww).(delivered := tls.delivered + Delivered(r))
  }

  class TlsSession {
    var st: Tls
    const live: bool  // a moved-from or default session has no SSL object

    constructor (live: bool)
      ensures st == FRESH_TLS && this.live == live
    {
      st := FRESH_TLS;
      this.live := live;
    }

    method Write(src: string, r: IoReply) returns (res: Result<IoReply, IoError>)
      requires live && src != ""
      modifies this
      ensures st == WriteTo(old(st), src, r)
      ensures r.Failed? ==> res == Err(r.error)
      ensures r.Io? ==> res == Ok(r.(byte := Min(r.byte, |src|)))
    {
      st := WriteTo(st, src, r);
      match r
      case Failed(e) => return Err(e);
      case Io(n, _, _, _) => return Ok(r.(byte := Min(n, |src|)));
    }
  }

  // ---------------------------------------------------------------- flushing

  datatype Flushed = Flushed(result: Result<nat, IoError>, out: string, tls: Tls)

  /** Flushing by its meaning: offer what is left until the session blocks, fails, or has taken all. */
  function Flush(out: string, tls: Tls, replies: WriteReplies, k: nat, sent: nat): Flushed
    decreases |out|
  {
    if out == "" then Flushed(Ok(sent), out, tls)
    else
      var r := replies(k);
      var tls' := WriteTo(tls, out, r);
      match r
      case Failed(e) => Flushed(Err(e), out, tls')
      case Io(n, closed, wr, ww) =>
        var m := Min(n, |out|);
        if closed then Flushed(Err(BrokenPipe), out[m..], tls')
        else if wr || ww then Flushed(Ok(sent + m), out[m..], tls')
        else if m == 0 then Flushed(Err(ProtocolError), out, tls')
        else Flush(out[m..], tls', replies, k + 1, sent + m)
  }

  /** No byte is lost or duplicated on any exit, errors included, and success counts the bytes handed over. */
  lemma {:induction false} FlushConserves(out: string, tls: Tls, replies: WriteReplies, k: nat, sent: nat)
    ensures var f := Flush(out, tls, replies, k, sent);
      && f.tls.handed + f.out == tls.handed + out
      && (f.result.Ok? ==> |f.tls.handed| == |tls.handed| + f.result.value - sent)
    decreases |out|
  {
    if out != "" && replies(k).Io? {
      var m := Min(replies(k).byte, |out|);
      var tls' := WriteTo(tls, out, replies(k));
      assert tls'.handed + out[m..] == tls.handed + out by {
        assert out == out[..m] + out[m..];
        Assoc(tls.handed, out[..m], out[m..]);
      }
      if m > 0 {
        FlushConserves(out[m..], tls', replies, k + 1, sent + m);
      }
    }
  }

  /** A flush that succeeds leaves bytes behind only while the session still wants I/O, so write
      interest computed afterwards from "pending or wants write" or a coming read event covers them. */
  lemma {:induction false} FlushStopsOnlyWhenBlocked(out: string, tls: Tls, replies: WriteReplies, k: nat, sent: nat)
    ensures var f := Flush(out, tls, replies, k, sent);
      f.result.Ok? && f.out != "" ==> f.tls.wantRead || f.tls.wantWrite
    decreases |out|
  {
    if out != "" && replies(k).Io? {
      var m := Min(replies(k).byte, |out|);
      if m > 0 {
        FlushStopsOnlyWhenBlocked(out[m..], WriteTo(tls, out, replies(k)), replies, k + 1, sent + m);
      }
    }
  }

  // ---------------------------------------------------------------- where a flush ends

  /** The write went through, and the next one follows. */
  predicate Smooth(r: IoReply) {
    r.Io? && !r.closed && !r.wantRead && !r.wantWrite && r.byte > 0
  }

  function Bytes(r: IoReply): nat {
    if r.Io? then r.byte else 0
  }

  /** The bytes the k-th up to the j-th write report. */
  function Sum(replies: WriteReplies, k: nat, j: nat): nat
    decreases j - k
  {
    if j <= k then 0 else Bytes(replies(k)) + Sum(replies, k + 1, j)
  }

  ghost predicate AllSmooth(replies: WriteReplies, k: nat, j: nat) {
    k <= j && forall i :: k <= i < j ==> Smooth(replies(i))
  }

  /** The j-th write is made: all before it went through, and bytes are left. */
  ghost predicate Offered(out: string, replies: WriteReplies, k: nat, j: nat) {
    AllSmooth(replies, k, j) && Sum(replies, k, j) < |out|
  }

  /** How the j-th write ends a flush, told by its reply alone. */
  ghost predicate EndsAt(f: Flushed, out: string, tls: Tls, replies: WriteReplies, k: nat, sent: nat, j: nat) {
    var r, before := replies(j), Sum(replies, k, j);
    var after := Min(before + Bytes(r), |out|);
    && f.out == out[after..] && f.tls.handed == tls.handed + out[..after]
    && (r.Failed? ==> f.result == Err(r.error))
    && (r.Io? && r.closed ==> f.result == Err(BrokenPipe))
    && (r.Io? && !r.closed && !r.wantRead && !r.wantWrite ==> f.result == Err(ProtocolError))
    && (r.Io? && !r.closed && (r.wantRead || r.wantWrite) ==> f.result == Ok(sent + after))
    && (r.Io? ==> f.tls.wantRead == r.wantRead && f.tls.wantWrite == r.wantWrite)
    && f.tls.handshakeDone == tls.handshakeDone
  }

  lemma EndsNow(out: string, tls: Tls, replies: WriteReplies, k: nat, sent: nat)
    requires out != "" && !Smooth(replies(k))
    ensures EndsAt(Flush(out, tls, replies, k, sent), out, tls, replies, k, sent, k)
  {
    assert Sum(replies, k, k) == 0;
    match replies(k) {
      case Failed(_) => assert out[0..] == out && tls.handed + out[..0] == tls.handed;
      case Io(n, _, _, _) => assert Min(0 + n, |out|) == Min(n, |out|);
    }
  }

  lemma EndsLater(f: Flushed, out: string, tls: Tls, replies: WriteReplies, k: nat, sent: nat, j: nat)
    requires k < j && Smooth(replies(k)) && replies(k).byte < |out|
    requires var m := replies(k).byte; EndsAt(f, out[m..], WriteTo(tls, out, replies(k)), replies, k + 1, sent + m, j)
    ensures EndsAt(f, out, tls, replies, k, sent, j)
  {
    Cut(out, tls.handed, replies(k).byte, Min(Sum(replies, k, j) + Bytes(replies(j)), |out|));
  }

  lemma Cut(out: string, handed: string, m: nat, n: nat)
    requires m <= n <= |out|
    ensures out[m..][n - m..] == out[n..] && handed + out[..m] + out[m..][..n - m] == handed + out[..n]
  {
    assert out[..n] == out[..m] + out[m..][..n - m];
    Assoc(handed, out[..m], out[m..][..n - m]);
  }

  /** The flush ends with the first write that does not go through. */
  lemma {:induction false} FlushEndsAt(out: string, tls: Tls, replies: WriteReplies, k: nat, sent: nat, j: nat)
    requires Offered(out, replies, k, j) && !Smooth(replies(j))
    ensures EndsAt(Flush(out, tls, replies, k, sent), out, tls, replies, k, sent, j)
    decreases j - k
  {
    if j == k {
      EndsNow(out, tls, replies, k, sent);
    } else {
      var m := replies(k).byte;
      assert Smooth(replies(k)) && m < |out|;
      FlushEndsAt(out[m..], WriteTo(tls, out, replies(k)), replies, k + 1, sent + m, j);
      EndsLater(Flush(out, tls, replies, k, sent), out, tls, replies, k, sent, j);
    }
  }

  /** If all go through until nothing is left, the whole buffer is handed over. */
  lemma {:induction false} FlushTakesAll(out: string, tls: Tls, replies: WriteReplies, k: nat, sent: nat, j: nat)
    requires AllSmooth(replies, k, j) && Sum(replies, k, j) >= |out|
    ensures var f := Flush(out, tls, replies, k, sent);
      && f.result == Ok(sent + |out|) && f.out == "" && f.tls.handed == tls.handed + out
      && f.tls.handshakeDone == tls.handshakeDone
      && (if out == "" then f.tls == tls else !f.tls.wantRead && !f.tls.wantWrite)
    decreases j - k
  {
    if out != "" {
      assert Smooth(replies(k));
      var m := Min(replies(k).byte, |out|);
      assert out == out[..m] + out[m..];
      FlushTakesAll(out[m..], WriteTo(tls, out, replies(k)), replies, k + 1, sent + m, j);
      Assoc(tls.handed, out[..m], out[m..]);
    } else {
      assert tls.handed + "" == tls.handed;
    }
  }

  /** One of the two happens. */
  lemma {:induction false} FlushEnds(out: string, replies: WriteReplies, k: nat) returns (j: nat)
    ensures AllSmooth(replies, k, j)
    ensures Sum(replies, k, j) >= |out| || (Offered(out, replies, k, j) && !Smooth(replies(j)))
    decreases |out|
  {
    if out == "" || !Smooth(replies(k)) {
      j := k;
    } else {
      var m := Min(replies(k).byte, |out|);
      j := FlushEnds(out[m..], replies, k + 1);
      assert Sum(replies, k, j) == replies(k).byte + Sum(replies, k + 1, j);
    }
  }

  /** A failed write, with its error; a peer that has closed; or a write that takes nothing and waits for nothing. */
  predicate Breaks(r: IoReply, e: IoError) {
    match r
    case Failed(error) => e == error
    case Io(n, closed, wr, ww) => if closed then e == BrokenPipe else !wr && !ww && n == 0 && e == ProtocolError
  }

  /** A flush fails exactly if it gets to such a write; so a session that is only busy never makes it fail. */
  lemma FlushFailsIff(out: string, tls: Tls, replies: WriteReplies, sent: nat, e: IoError)
    ensures Flush(out, tls, replies, 0, sent).result == Err(e) <==>
      exists j: nat :: Offered(out, replies, 0, j) && Breaks(replies(j), e)
  {
    var j := FlushEnds(out, replies, 0);
    if Sum(replies, 0, j) >= |out| {
      FlushTakesAll(out, tls, replies, 0, sent, j);
    } else {
      FlushEndsAt(out, tls, replies, 0, sent, j);
    }
    forall i: nat | Offered(out, replies, 0, i) && Breaks(replies(i), e)
      ensures Flush(out, tls, replies, 0, sent).result == Err(e)
    {
      FlushEndsAt(out, tls, replies, 0, sent, i);
    }
  }

  /** The flush loop on the real buffer. */
  method FlushSend(send: OffsetBuffer, tls: TlsSession, replies: WriteReplies) returns (r: Result<nat, IoError>)
    requires send.Valid()
    modifies send, tls
    ensures send.Valid()
    ensures !tls.live ==> r == Err(InvalidArgument) && send.Unread() == old(send.Unread()) && tls.st == old(tls.st)
    ensures tls.live ==> Flushed(r, send.Unread(), tls.st) == Flush(old(send.Unread()), old(tls.st), replies, 0, 0)
    ensures tls.st.handed + send.Unread() == old(tls.st.handed) + old(send.Unread())
    ensures r.Ok? ==> send.offset < 8192 || 2 * send.offset < |send.buf|
  {
    if !tls.live { return Err(InvalidArgument); }
    ghost var out0, tls0 := send.Unread(), tls.st;
    FlushConserves(out0, tls0, replies, 0, 0);
    var sent: nat, k: nat := 0, 0;
    while send.HasPending()
      invariant send.Valid()
      invariant Flush(out0, tls0, replies, 0, 0) == Flush(send.Unread(), tls.st, replies, k, sent)
      decreases |send.Unread()|
    {
      ghost var out := send.Unread();
      var wr := tls.Write(send.Unread(), replies(k));
      if wr.Err? { return Err(wr.error); }
      if wr.value.byte > 0 {
        send.Advance(wr.value.byte);
        sent := sent + wr.value.byte;
      }
      assert send.Unread() == out[wr.value.byte..];
      if wr.value.closed { return Err(BrokenPipe); }
      if wr.value.wantRead || wr.value.wantWrite {
        var _ := send.CompactIfNeeded();
        return Ok(sent);
      }
      if wr.value.byte == 0 { return Err(ProtocolError); }
      k := k + 1;
    }
    var _ := send.ClearIfDone();
    return Ok(sent);
  }

  // ---------------------------------------------------------------- draining

  datatype RecvInfo = RecvInfo(byte: nat, closed: bool)

  datatype Drained = Drained(result: Result<RecvInfo, IoError>, inbox: string, tls: Tls)

  /** Draining by its meaning; when the listed replies are used up the socket would block. */
  function Drain(inbox: string, tls: Tls, arrivals: seq<ReadReply>, info: RecvInfo): Drained
    decreases |arrivals|
  {
    if arrivals == [] then Drained(Ok(info), inbox, ApplyState(tls, false, true, false))
    else
      var r := arrivals[0];
      var tls' := ReadFrom(tls, r);
      match r
      case ReadFailed(e) => Drained(Err(e), inbox, tls')
      case Read(_, closed, wr, ww) =>
        var data := Delivered(r);
        var info' := info.(byte := info.byte + |data|);
        if data != "" then
          if wr || ww then Drained(Ok(info'), inbox + data, tls')
          else Drain(inbox + data, tls', arrivals[1..], info')
        else if closed then Drained(Ok(info.(closed := true)), inbox, tls')
        else Drained(Ok(info), inbox, tls')
  }

  ghost predicate Grows(a: string, b: string, a': string, b': string) {
    exists x: string :: a' == a + x && b' == b + x
  }

  /** Exactly the delivered bytes reach the buffer, in order and on every exit, and success counts them. */
  lemma {:induction false} DrainConserves(inbox: string, tls: Tls, arrivals: seq<ReadReply>, info: RecvInfo)
    ensures var d := Drain(inbox, tls, arrivals, info);
      && Grows(inbox, tls.delivered, d.inbox, d.tls.delivered)
      && (d.result.Ok? ==> d.result.value.byte == info.byte + |d.inbox| - |inbox|)
    decreases |arrivals|
  {
    assert inbox == inbox + "" && tls.delivered == tls.delivered + "";
    if arrivals != [] {
      var data := Delivered(arrivals[0]);
      var tls' := ReadFrom(tls, arrivals[0]);
      assert Grows(inbox, tls.delivered, inbox + data, tls.delivered + data);
      if data != "" && !arrivals[0].wantRead && !arrivals[0].wantWrite {
        var info' := info.(byte := info.byte + |data|);
        DrainConserves(inbox + data, tls', arrivals[1..], info');
        var d := Drain(inbox + data, tls', arrivals[1..], info');
        var x: string :| d.inbox == inbox + data + x && d.tls.delivered == tls'.delivered + x;
        Assoc(inbox, data, x);
        Assoc(tls.delivered, data, x);
        assert Grows(inbox, tls.delivered, d.inbox, d.tls.delivered);
      }
    }
  }

  // ---------------------------------------------------------------- where a drain ends

  /** The read delivered bytes, and the next one follows. */
  predicate Fetches(r: ReadReply) {
    r.Read? && r.data != "" && !r.wantRead && !r.wantWrite
  }

  /** What the reads hand over, each no more than its buffer holds. */
  function AllDelivered(arrivals: seq<ReadReply>): string {
    if arrivals == [] then "" else Delivered(arrivals[0]) + AllDelivered(arrivals[1..])
  }

  /** How the n-th read ends a drain, told by its reply alone; behind the last one the socket blocks. */
  ghost predicate DrainedAt(d: Drained, inbox: string, tls: Tls, arrivals: seq<ReadReply>, info: RecvInfo, n: nat)
    requires n <= |arrivals|
  {
    var got := AllDelivered(if n < |arrivals| then arrivals[..n + 1] else arrivals);
    && d.inbox == inbox + got && d.tls.delivered == tls.delivered + got && d.tls.handshakeDone == tls.handshakeDone
    && (n == |arrivals| ==>
          d.result == Ok(RecvInfo(info.byte + |got|, info.closed)) && d.tls.wantRead && !d.tls.wantWrite)
    && (n < |arrivals| ==>
          var r := arrivals[n];
          && (r.ReadFailed? ==> d.result == Err(r.error))
          && (r.Read? ==> d.tls.wantRead == r.wantRead && d.tls.wantWrite == r.wantWrite)
          && (r.Read? ==> d.result == Ok(RecvInfo(info.byte + |got|, info.closed || (r.data == "" && r.closed)))))
  }

  lemma DrainedNow(inbox: string, tls: Tls, arrivals: seq<ReadReply>, info: RecvInfo)
    requires arrivals != [] ==> !Fetches(arrivals[0])
    ensures DrainedAt(Drain(inbox, tls, arrivals, info), inbox, tls, arrivals, info, 0)
  {
    assert inbox + "" == inbox && tls.delivered + "" == tls.delivered;
    if arrivals != [] {
      assert arrivals[..1][0] == arrivals[0] && arrivals[..1][1..] == [];
      assert Delivered(arrivals[0]) + "" == Delivered(arrivals[0]);
    }
  }

  lemma DrainedLater(d: Drained, inbox: string, tls: Tls, arrivals: seq<ReadReply>, info: RecvInfo, n: nat)
    requires 0 < n <= |arrivals| && Fetches(arrivals[0])
    requires var data := Delivered(arrivals[0]);
      DrainedAt(d, inbox + data, ReadFrom(tls, arrivals[0]), arrivals[1..], info.(byte := info.byte + |data|), n - 1)
    ensures DrainedAt(d, inbox, tls, arrivals, info, n)
  {
    var data, rest := Delivered(arrivals[0]), arrivals[1..];
    var all := if n < |arrivals| then arrivals[..n + 1] else arrivals;
    var tail := if n - 1 < |rest| then rest[..n] else rest;
    assert all[1..] == tail && all[0] == arrivals[0];
    Assoc(inbox, data, AllDelivered(tail));
    Assoc(tls.delivered, data, AllDelivered(tail));
    assert AllDelivered(all) == data + AllDelivered(tail);
  }

  /** The drain ends with the first read that fails, delivers nothing, or is told to wait. */
  lemma {:induction false} DrainEndsAt(inbox: string, tls: Tls, arrivals: seq<ReadReply>, info: RecvInfo, n: nat)
    requires n <= |arrivals| && (forall i :: 0 <= i < n ==> Fetches(arrivals[i]))
    requires n < |arrivals| ==> !Fetches(arrivals[n])
    ensures DrainedAt(Drain(inbox, tls, arrivals, info), inbox, tls, arrivals, info, n)
    decreases n
  {
    if n == 0 {
      DrainedNow(inbox, tls, arrivals, info);
    } else {
      assert Fetches(arrivals[0]);
      var data := Delivered(arrivals[0]);
      DrainEndsAt(inbox + data, ReadFrom(tls, arrivals[0]), arrivals[1..], info.(byte := info.byte + |data|), n - 1);
      DrainedLater(Drain(inbox, tls, arrivals, info), inbox, tls, arrivals, info, n);
    }
  }

  /** Such a read, or none. */
  lemma {:induction false} DrainEnds(arrivals: seq<ReadReply>) returns (n: nat)
    ensures n <= |arrivals| && (forall i :: 0 <= i < n ==> Fetches(arrivals[i]))
    ensures n < |arrivals| ==> !Fetches(arrivals[n])
  {
    if arrivals == [] || !Fetches(arrivals[0]) {
      n := 0;
    } else {
      n := DrainEnds(arrivals[1..]);
      assert forall i :: 0 < i <= n ==> arrivals[i] == arrivals[1..][i - 1];
      assert n < |arrivals[1..]| ==> arrivals[n + 1] == arrivals[1..][n];
      n := n + 1;
    }
  }

  /** The receive loop on the real buffer. */
  method DrainRecv(recv: OffsetBuffer, tls: TlsSession, arrivals: seq<ReadReply>) returns (r: Result<RecvInfo, IoError>)
    requires recv.Valid()
    modifies recv, tls
    ensures recv.Valid()
    ensures !tls.live ==> r == Err(InvalidArgument) && recv.Unread() == old(recv.Unread()) && tls.st == old(tls.st)
    ensures tls.live ==>
      Drained(r, recv.Unread(), tls.st) == Drain(old(recv.Unread()), old(tls.st), arrivals, RecvInfo(0, false))
    ensures Grows(old(recv.Unread()), old(tls.st.delivered), recv.Unread(), tls.st.delivered)
  {
    ghost var in0, tls0 := recv.Unread(), tls.st;
    assert in0 == in0 + "" && tls0.delivered == tls0.delivered + "";
    if !tls.live { return Err(InvalidArgument); }
    DrainConserves(in0, tls0, arrivals, RecvInfo(0, false));
    var info := RecvInfo(0, false);
    var rest := arrivals;
    while rest != []
      invariant recv.Valid()
      invariant Drain(in0, tls0, arrivals, RecvInfo(0, false)) == Drain(recv.Unread(), tls.st, rest, info)
      decreases |rest|
    {
      var rd := rest[0];
      tls.st := ReadFrom(tls.st, rd);
      if rd.ReadFailed? { return Err(rd.error); }
      var data := Delivered(rd);
      if data != "" {
        var _ := recv.Append(data);
        info := info.(byte := info.byte + |data|);
        if rd.wantRead || rd.wantWrite { return Ok(info); }
        rest := rest[1..];
        continue;
      }
      if rd.closed { return Ok(info.(closed := true)); }
      return Ok(info);
    }
    tls.st := ApplyState(tls.st, false, true, false);
    return Ok(info);
  }
}
