/** What the reactor does to its connections, told on the plain table of connections alone.
    The registry's indexes, counters and kernel masks do not occur here: they must follow. */
module Connections {
  import opened Text
  import opened Codec
  import opened Buffers
  import opened Numbers

  /** The readiness bits of an epoll mask. */
  datatype Bit = In | Out | RdHup | Hup | Trouble

  type Mask = set<Bit>

  /** A connection. Its buffers appear as their unread bytes. */
  datatype Conn = Conn(inbox: string, outbox: string, tls: Tls, closed: bool, interest: Mask,
                       userId: string, nickname: string, joined: set<int>)

  function FreshConn(interest: Mask): Conn {
    Conn("", "", FRESH_TLS, false, interest, "", "guest", {})
  }

  type Table = map<int, Conn>

  datatype Request =
    | RegisterFd(fd: int, interest: Mask)
    | UnregisterFd(fd: int)
    | SendOne(fd: int, cmd: Command)
    | Broadcast(fd: int, cmd: Command)
    | ChangeNickname(fd: int, nick: string)
    | SetUserId(fd: int, userId: string)
    | SetJoinedRooms(fd: int, roomIds: seq<int>)
    | SetJoinedRoomsForUser(userId: string, roomIds: seq<int>)
    | SendFriendList(fd: int, friendIds: seq<string>)
    | RoomBroadcast(fd: int, roomId: int, cmd: Command)

  /** What the kernel decides while a request is handled: the descriptors whose mask cannot be changed,
      and whether setting up a new connection succeeds. */
  datatype Kernel = Kernel(modFails: set<int>, setupOk: bool)

  /** The bytes ever meant for the peer: those handed to TLS and those still waiting. */
  function Stream(c: Conn): string {
    c.tls.handed + c.outbox
  }

  function Appended(c: Conn, cmd: Command): Conn {
    c.(outbox := c.outbox + Encode(cmd), interest := if c.outbox == "" then c.interest + {Out} else c.interest)
  }

  function AppendedAll(c: Conn, cmds: seq<Command>): Conn {
    if cmds == [] then c else Appended(AppendedAll(c, cmds[..|cmds| - 1]), cmds[|cmds| - 1])
  }

  /** Only the first byte into an empty outbox touches the kernel mask, so only then can the kernel refuse;
      a connection whose mask it refuses to change is dropped. */
  predicate Refused(c: Conn, fd: int, k: Kernel) {
    c.outbox == "" && fd in k.modFails
  }

  /** Serves one message to a set of connections. */
  function Served(t: Table, targets: set<int>, cmd: Command, k: Kernel): Table {
    map fd | fd in t && !(fd in targets && Refused(t[fd], fd, k)) ::
      if fd in targets then Appended(t[fd], cmd) else t[fd]
  }

  function PositiveIds(ids: seq<int>): set<int> {
    set r | r in ids && r > 0
  }

  function Members(t: Table, roomId: int): set<int> {
    set fd | fd in t && roomId in t[fd].joined
  }

  function SessionsOf(t: Table, userId: string): set<int> {
    set fd | fd in t && t[fd].userId == userId && userId != ""
  }

  /** A response is shown under its sender's nickname. */
  function Signed(t: Table, fd: int, cmd: Command): Command {
    if !cmd.Response? then cmd
    else if fd in t && t[fd].nickname != "" then Response(t[fd].nickname + ": " + cmd.text)
    else Response("guest" + ": " + cmd.text)
  }

  /** Each friend is reported online exactly when some connection is logged in as that friend. */
  function FriendLine(t: Table, friendId: string): Command {
    Response("friend: " + friendId + " (" + (if SessionsOf(t, friendId) != {} then "online" else "offline") + ")")
  }

  function FriendLines(t: Table, friendIds: seq<string>): seq<Command> {
    seq(|friendIds|, i requires 0 <= i < |friendIds| => FriendLine(t, friendIds[i]))
  }

  function WithRooms(t: Table, fds: set<int>, rooms: set<int>): Table {
    map fd | fd in t :: if fd in fds then t[fd].(joined := rooms) else t[fd]
  }

  function Handle(t: Table, req: Request, k: Kernel): Table {
    match req
    case RegisterFd(fd, interest) =>
      if fd == -1 || fd in t || !k.setupOk then t else t[fd := FreshConn(interest)]
    case UnregisterFd(fd) => t - {fd}
    case SendOne(fd, cmd) => Served(t, {fd}, cmd, k)
    case Broadcast(fd, cmd) => Served(t, t.Keys, Signed(t, fd, cmd), k.(modFails := {}))
    case ChangeNickname(fd, nick) => if fd in t then t[fd := t[fd].(nickname := nick)] else t
    case SetUserId(fd, userId) => if fd in t then t[fd := t[fd].(userId := userId, joined := {})] else t
    case SetJoinedRooms(fd, ids) => WithRooms(t, {fd}, PositiveIds(ids))
    case SetJoinedRoomsForUser(userId, ids) => WithRooms(t, SessionsOf(t, userId), PositiveIds(ids))
    case SendFriendList(fd, ids) =>
      var header := Response("friends: " + Digits(|ids|));
      if fd in t && !Refused(t[fd], fd, k)
      then t[fd := AppendedAll(t[fd], [header] + FriendLines(t, ids))]
      else t - {fd}
    case RoomBroadcast(fd, roomId, cmd) => Served(t, Members(t, roomId), Signed(t, fd, cmd), k)
  }

  /** The kernel's masks after a request has changed the table: a mask is set when its connection is registered
      and when the connection's outbox stops being empty, and at no other time. */
  function MasksAfter(t: Table, t': Table, masks: map<int, Mask>): map<int, Mask> {
    map fd | fd in t' :: if fd in t && fd in masks && !Fills(t[fd], t'[fd]) then masks[fd] else t'[fd].interest
  }

  predicate Fills(c: Conn, c': Conn) {
    c.outbox == "" && c'.outbox != ""
  }

  /** A whole batch, oldest first; `ks[i]` is the kernel's behaviour during the i-th request. */
  function HandleAll(t: Table, reqs: seq<Request>, ks: nat -> Kernel): Table {
    if reqs == [] then t
    else Handle(HandleAll(t, reqs[..|reqs| - 1], ks), reqs[|reqs| - 1], ks(|reqs| - 1))
  }

  function MasksAll(t: Table, reqs: seq<Request>, ks: nat -> Kernel, masks: map<int, Mask>): map<int, Mask> {
    if reqs == [] then masks
    else
      var init, n := reqs[..|reqs| - 1], |reqs| - 1;
      MasksAfter(HandleAll(t, init, ks), Handle(HandleAll(t, init, ks), reqs[n], ks(n)), MasksAll(t, init, ks, masks))
  }

  /** The first requests of a batch have been handled. */
  ghost predicate Progress(t: Table, masks: map<int, Mask>, reqs: seq<Request>, ks: nat -> Kernel, n: nat,
                           t': Table, masks': map<int, Mask>) {
    n <= |reqs| && t' == HandleAll(t, reqs[..n], ks) && masks' == MasksAll(t, reqs[..n], ks, masks)
  }

  lemma ProgressStarts(t: Table, masks: map<int, Mask>, reqs: seq<Request>, ks: nat -> Kernel)
    ensures Progress(t, masks, reqs, ks, 0, t, masks)
  {}

  lemma ProgressGoesOn(t: Table, masks: map<int, Mask>, reqs: seq<Request>, ks: nat -> Kernel, n: nat,
                       t': Table, masks': map<int, Mask>)
    requires n < |reqs| && Progress(t, masks, reqs, ks, n, t', masks')
    ensures var t'' := Handle(t', reqs[n], ks(n)); Progress(t, masks, reqs, ks, n + 1, t'', MasksAfter(t', t'', masks'))
  {
    assert reqs[..n + 1][..n] == reqs[..n];
  }

  lemma ProgressEnds(t: Table, masks: map<int, Mask>, reqs: seq<Request>, ks: nat -> Kernel,
                     t': Table, masks': map<int, Mask>)
    requires Progress(t, masks, reqs, ks, |reqs|, t', masks')
    ensures t' == HandleAll(t, reqs, ks) && masks' == MasksAll(t, reqs, ks, masks)
  {
    assert reqs[..|reqs|] == reqs;
  }

  // ---------------------------------------------------------------- consequences

  lemma EncodeIsNotEmpty(cmd: Command)
    ensures Encode(cmd) != ""
  {
    EncodeIsBody(cmd);
  }

  /** A room broadcast reaches exactly the connections that were in the room when it began, once each;
      a target is lost only if the kernel refused it, and never makes another target miss the message. */
  lemma RoomBroadcastIsExact(t: Table, sender: int, roomId: int, cmd: Command, k: Kernel, fd: int)
    requires fd in t
    ensures var t' := Handle(t, RoomBroadcast(sender, roomId, cmd), k);
      && (roomId !in t[fd].joined ==> fd in t' && t'[fd] == t[fd])
      && (roomId in t[fd].joined ==> (fd !in t' <==> t[fd].outbox == "" && fd in k.modFails))
      && (roomId in t[fd].joined && fd in t' ==> Stream(t'[fd]) == Stream(t[fd]) + Encode(Signed(t, sender, cmd)))
  {
    Assoc(t[fd].tls.handed, t[fd].outbox, Encode(Signed(t, sender, cmd)));
  }

  /** Only its own register request ever adds a connection. */
  lemma HandleAddsOnlyRegistered(t: Table, req: Request, k: Kernel, fd: int)
    requires fd in Handle(t, req, k) && fd !in t
    ensures req == RegisterFd(fd, Handle(t, req, k)[fd].interest)
  {}
}
