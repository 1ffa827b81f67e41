/** The registry as one connection sees it: which requests let it in, drop it, rename it, and what it is sent - over
    whole batches from start-up. */
module Outgoing {
  import opened Text
  import opened Numbers
  import opened Codec
  import opened Connections

  // ---------------------------------------------------------------- one request

  /** A response carries the sender's nickname, `guest` if the sender is gone or has none. */
  function NameOf(t: Table, sender: int): string {
    if sender in t && t[sender].nickname != "" then t[sender].nickname else "guest"
  }

  function Shown(t: Table, sender: int, cmd: Command): Command {
    match cmd case Response(text) => Response(NameOf(t, sender) + ": " + text) case _ => cmd
  }

  ghost predicate Online(t: Table, user: string) {
    user != "" && exists g :: g in t && t[g].userId == user
  }

  ghost function Presence(t: Table, user: string): Command {
    Response(if Online(t, user) then "friend: " + user + " (online)" else "friend: " + user + " (offline)")
  }

  /** The commands a request sends to a connection. */
  ghost function Heard(t: Table, req: Request, fd: int): seq<Command>
    requires fd in t
  {
    match req
    case SendOne(f, cmd) => if f == fd then [cmd] else []
    case Broadcast(sender, cmd) => [Shown(t, sender, cmd)]
    case RoomBroadcast(sender, roomId, cmd) => if roomId in t[fd].joined then [Shown(t, sender, cmd)] else []
    case SendFriendList(f, ids) =>
      if f == fd
      then [Response("friends: " + Digits(|ids|))] + seq(|ids|, i requires 0 <= i < |ids| => Presence(t, ids[i]))
      else []
    case _ => []
  }

  function Encodings(cmds: seq<Command>): string {
    if cmds == [] then "" else Encodings(cmds[..|cmds| - 1]) + Encode(cmds[|cmds| - 1])
  }

  /** The connection is taken out: by its removal, or because something is to be written into its empty outbox and the
      kernel refuses to watch for it. */
  ghost predicate Dropped(t: Table, req: Request, k: Kernel, fd: int)
    requires fd in t
  {
    req == UnregisterFd(fd) || (Heard(t, req, fd) != [] && t[fd].outbox == "" && fd in k.modFails && !req.Broadcast?)
  }

  lemma {:induction false} AppendedAllSays(c: Conn, cmds: seq<Command>)
    ensures var c' := AppendedAll(c, cmds);
      && Stream(c') == Stream(c) + Encodings(cmds)
      && c' == c.(outbox := c'.outbox,
                  interest := if cmds != [] && c.outbox == "" then c.interest + {Out} else c.interest)
      && (cmds != [] ==> c'.outbox != "")
  {
    if cmds == [] {
      assert Stream(c) + "" == Stream(c);
    } else {
      var init, last := cmds[..|cmds| - 1], cmds[|cmds| - 1];
      AppendedAllSays(c, init);
      var d := AppendedAll(c, init);
      Assoc(d.tls.handed, d.outbox, Encode(last));
      Assoc(Stream(c), Encodings(init), Encode(last));
      EncodeIsNotEmpty(last);
    }
  }

  lemma PresenceIsFriendLine(t: Table, user: string)
    ensures FriendLine(t, user) == Presence(t, user)
  {
    if Online(t, user) {
      var g :| g in t && t[g].userId == user;
      assert g in SessionsOf(t, user);
    }
    if SessionsOf(t, user) != {} {
      var g := Inhabited(SessionsOf(t, user));
      assert g in t && t[g].userId == user;
    }
    var head := "friend: " + user + " (";
    Assoc(head, "online", ")");
    Assoc(head, "offline", ")");
    Assoc("friend: " + user, " (", "online)");
    Assoc("friend: " + user, " (", "offline)");
    assert " (" + "online)" == " (online)" && " (" + "offline)" == " (offline)";
  }

  lemma OneSays(c: Conn, cmd: Command)
    ensures Encodings([cmd]) == Encode(cmd) && Stream(Appended(c, cmd)) == Stream(c) + Encodings([cmd])
  {
    assert [cmd][..0] == [];
    assert Encodings([cmd]) == "" + Encode(cmd) == Encode(cmd);
    Assoc(c.tls.handed, c.outbox, Encode(cmd));
  }

  /** Others than friend lists send one command at most. */
  lemma OneRequestSays(t: Table, req: Request, k: Kernel, fd: int)
    requires fd in t && !(req.SendFriendList? && req.fd == fd)
    ensures var t', heard := Handle(t, req, k), Heard(t, req, fd);
      && (fd !in t' <==> Dropped(t, req, k, fd))
      && (heard == [] || heard == [heard[0]])
      && (fd in t' && heard != [] ==> t'[fd] == Appended(t[fd], heard[0]))
      && (fd in t' && heard == [] ==> t'[fd] == t[fd].(nickname := t'[fd].nickname, userId := t'[fd].userId,
                                                       joined := t'[fd].joined))
  {}

  /** What a request does to the bytes of a connection: whether it is dropped, and otherwise exactly what it is sent.
      Write interest is added when its outbox fills. */
  lemma HandleSays(t: Table, req: Request, k: Kernel, fd: int)
    requires fd in t
    ensures var t' := Handle(t, req, k);
      && (fd !in t' <==> Dropped(t, req, k, fd))
      && (fd in t' ==>
            var c, c' := t[fd], t'[fd];
            && Stream(c') == Stream(c) + Encodings(Heard(t, req, fd))
            && c'.tls == c.tls && c'.inbox == c.inbox && c'.closed == c.closed
            && c'.interest == (if Heard(t, req, fd) != [] && c.outbox == "" then c.interest + {Out} else c.interest))
  {
    if req.SendFriendList? && req.fd == fd {
      FriendListSays(t, req, k);
    } else {
      OneRequestSays(t, req, k, fd);
      assert Stream(t[fd]) + "" == Stream(t[fd]);
      if Heard(t, req, fd) != [] {
        OneSays(t[fd], Heard(t, req, fd)[0]);
      }
    }
  }

  /** And to what is known of it: whether it gets another name, user or rooms. */
  lemma HandleNames(t: Table, req: Request, k: Kernel, fd: int)
    requires fd in t && fd in Handle(t, req, k)
    ensures var c, c' := t[fd], Handle(t, req, k)[fd];
      && c'.nickname == (if req.ChangeNickname? && req.fd == fd then req.nick else c.nickname)
      && c'.userId == (if req.SetUserId? && req.fd == fd then req.userId else c.userId)
      && (forall r :: r in c'.joined <==> Lists(c, req, fd, r))
  {
    if req.SendFriendList? && req.fd == fd {
      AppendedAllSays(t[fd], [Response("friends: " + Digits(|req.friendIds|))] + FriendLines(t, req.friendIds));
    }
  }

  /** The room is in the connection's list after the request. */
  predicate Lists(c: Conn, req: Request, fd: int, r: int) {
    match req
    case SetUserId(f, _) => f != fd && r in c.joined
    case SetJoinedRooms(f, ids) => if f == fd then r in ids && r > 0 else r in c.joined
    case SetJoinedRoomsForUser(user, ids) =>
      if c.userId == user && user != "" then r in ids && r > 0 else r in c.joined
    case _ => r in c.joined
  }

  lemma FriendListSays(t: Table, req: Request, k: Kernel)
    requires req.SendFriendList? && req.fd in t
    ensures var fd, t' := req.fd, Handle(t, req, k);
      && (fd !in t' <==> t[fd].outbox == "" && fd in k.modFails)
      && (fd in t' ==> t'[fd] == AppendedAll(t[fd], Heard(t, req, fd)))
      && (fd in t' ==> Stream(t'[fd]) == Stream(t[fd]) + Encodings(Heard(t, req, fd)))
      && (fd in t' ==> t'[fd] == t[fd].(outbox := t'[fd].outbox, interest :=
                         if t[fd].outbox == "" then t[fd].interest + {Out} else t[fd].interest))
  {
    var ids := req.friendIds;
    forall i | 0 <= i < |ids| ensures FriendLines(t, ids)[i] == Presence(t, ids[i]) {
      PresenceIsFriendLine(t, ids[i]);
    }
    assert FriendLines(t, ids) == seq(|ids|, i requires 0 <= i < |ids| => Presence(t, ids[i]));
    AppendedAllSays(t[req.fd], Heard(t, req, req.fd));
  }

  /** A connection is let in exactly by its own registration, if that can be set up: open, unknown, named `guest`, in no
      room, watched as asked, and with no bytes behind it. */
  lemma HandleAdmits(t: Table, req: Request, k: Kernel, fd: int)
    requires fd !in t
    ensures var t' := Handle(t, req, k);
      && (fd in t' <==> req.RegisterFd? && req.fd == fd && fd != -1 && k.setupOk)
      && (fd in t' ==>
            var c := t'[fd];
            && c.inbox == "" && Stream(c) == "" && !c.closed && !c.tls.handshakeDone
            && c.userId == "" && c.nickname == "guest" && c.joined == {} && c.interest == req.interest)
  {}

  /** What a target of a room message reads: the sender's nickname, or `guest`, and the text. */
  lemma RoomMessageIsSigned(t: Table, sender: int, roomId: int, text: string, k: Kernel, fd: int)
    requires fd in t && roomId in t[fd].joined && fd in Handle(t, RoomBroadcast(sender, roomId, Response(text)), k)
    ensures var c' := Handle(t, RoomBroadcast(sender, roomId, Response(text)), k)[fd];
      if sender in t && t[sender].nickname != ""
      then Stream(c') == Stream(t[fd]) + Encode(Response(t[sender].nickname + ": " + text))
      else Stream(c') == Stream(t[fd]) + Encode(Response("guest: " + text))
  {
    var req := RoomBroadcast(sender, roomId, Response(text));
    OneRequestSays(t, req, k, fd);
    OneSays(t[fd], Shown(t, sender, Response(text)));
    assert "guest" + ": " == "guest: ";
  }

  // ---------------------------------------------------------------- a whole history

  /** The tables since start-up, one after each request. */
  ghost predicate History(ts: seq<Table>, reqs: seq<Request>, ks: nat -> Kernel) {
    && |ts| == |reqs| + 1 && ts[0] == map[]
    && forall i: nat {:trigger Follows(ts, reqs, ks, i)} :: i < |reqs| ==> Follows(ts, reqs, ks, i)
  }

  ghost predicate Follows(ts: seq<Table>, reqs: seq<Request>, ks: nat -> Kernel, i: nat) {
    i < |reqs| == |ts| - 1 && ts[i + 1] == Handle(ts[i], reqs[i], ks(i))
  }

  /** Every batch has one, and it ends as the batch does. */
  lemma {:induction false} HistoryOf(reqs: seq<Request>, ks: nat -> Kernel) returns (ts: seq<Table>)
    ensures History(ts, reqs, ks) && ts[|reqs|] == HandleAll(map[], reqs, ks)
  {
    if reqs == [] {
      ts := [map[]];
    } else {
      var init := HistoryOf(reqs[..|reqs| - 1], ks);
      ts := init + [HandleAll(map[], reqs, ks)];
      forall i: nat | i < |reqs| ensures Follows(ts, reqs, ks, i) {
        assert i < |reqs| - 1 ==> Follows(init, reqs[..|reqs| - 1], ks, i);
      }
    }
  }

  lemma HistoryInit(ts: seq<Table>, reqs: seq<Request>, ks: nat -> Kernel)
    requires History(ts, reqs, ks) && reqs != []
    ensures History(ts[..|reqs|], reqs[..|reqs| - 1], ks)
  {
    var ts', reqs' := ts[..|reqs|], reqs[..|reqs| - 1];
    forall i: nat | i < |reqs'| ensures Follows(ts', reqs', ks, i) {
      assert Follows(ts, reqs, ks, i);
    }
  }

  /** The i-th request let the connection in or gave it this name, and it has been there and kept the name since. */
  ghost predicate NamedAt(ts: seq<Table>, reqs: seq<Request>, i: nat, fd: int, name: string) {
    && i < |reqs| == |ts| - 1 && (forall j :: i < j <= |reqs| ==> fd in ts[j])
    && (forall j :: i < j < |reqs| ==> !(reqs[j].ChangeNickname? && reqs[j].fd == fd))
    && if fd in ts[i] then reqs[i] == ChangeNickname(fd, name) else name == "guest"
  }

  lemma {:induction false} NameWasGiven(ts: seq<Table>, reqs: seq<Request>, ks: nat -> Kernel, fd: int) returns (i: nat)
    requires History(ts, reqs, ks) && fd in ts[|reqs|]
    ensures NamedAt(ts, reqs, i, fd, ts[|reqs|][fd].nickname)
  {
    var n := |reqs| - 1;
    assert Follows(ts, reqs, ks, n);
    if fd !in ts[n] {
      HandleAdmits(ts[n], reqs[n], ks(n), fd);
      i := n;
    } else {
      HandleNames(ts[n], reqs[n], ks(n), fd);
      if reqs[n].ChangeNickname? && reqs[n].fd == fd {
        i := n;
      } else {
        HistoryInit(ts, reqs, ks);
        i := NameWasGiven(ts[..n + 1], reqs[..n], ks, fd);
      }
    }
  }

  /** The name a room message is signed with: the last one given to the connection since it came, `guest` before any. */
  lemma NicknameIsLast(ts: seq<Table>, reqs: seq<Request>, ks: nat -> Kernel, fd: int, name: string)
    requires History(ts, reqs, ks) && fd in ts[|reqs|]
    ensures ts[|reqs|][fd].nickname == name <==> exists i: nat :: NamedAt(ts, reqs, i, fd, name)
  {
    var i := NameWasGiven(ts, reqs, ks, fd);
    forall k: nat | NamedAt(ts, reqs, k, fd, name) ensures ts[|reqs|][fd].nickname == name {
      assert !(i < k) && !(k < i);
    }
  }

  /** The text is what the n-th request sent to the connection. */
  ghost predicate SaidAt(ts: seq<Table>, reqs: seq<Request>, fd: int, n: nat, text: string) {
    n < |reqs| == |ts| - 1 && fd in ts[n] && text == Encodings(Heard(ts[n], reqs[n], fd))
  }

  ghost predicate AllSaid(ts: seq<Table>, reqs: seq<Request>, fd: int, i: nat, said: seq<string>) {
    && |said| == |reqs|
    && forall j: nat {:trigger SaidAt(ts, reqs, fd, j, said[j])} :: i <= j < |said| ==> SaidAt(ts, reqs, fd, j, said[j])
  }

  /** The texts from the i-th on. */
  function Joined(said: seq<string>, i: nat): string {
    if |said| <= i then "" else Joined(said[..|said| - 1], i) + said[|said| - 1]
  }

  ghost predicate Holds(ts: seq<Table>, n: nat, fd: int, stream: string) {
    n < |ts| && fd in ts[n] && Stream(ts[n][fd]) == stream
  }

  lemma Extends(t: Table, req: Request, k: Kernel, fd: int, text: string, stream: string)
    requires fd in t && fd in Handle(t, req, k) && text == Encodings(Heard(t, req, fd)) && Stream(t[fd]) == stream
    ensures Stream(Handle(t, req, k)[fd]) == stream + text
  {
    HandleSays(t, req, k, fd);
  }

  lemma HeardNext(ts: seq<Table>, reqs: seq<Request>, ks: nat -> Kernel, i: nat, fd: int, said: seq<string>,
                  stream: string)
    requires History(ts, reqs, ks) && AllSaid(ts, reqs, fd, i, said) && i < |said|
    requires Holds(ts, |reqs| - 1, fd, stream) && fd in ts[|reqs|]
    ensures Holds(ts, |reqs|, fd, stream + said[|said| - 1])
  {
    var n := |reqs| - 1;
    assert Follows(ts, reqs, ks, n);
    assert SaidAt(ts, reqs, fd, n, said[n]);
    Extends(ts[n], reqs[n], ks(n), fd, said[n], stream);
  }

  lemma FirstHeard(ts: seq<Table>, reqs: seq<Request>, ks: nat -> Kernel, n: nat, fd: int)
    requires History(ts, reqs, ks) && n < |reqs| && fd !in ts[n] && fd in ts[n + 1]
    ensures Holds(ts, n + 1, fd, "")
  {
    assert Follows(ts, reqs, ks, n);
    HandleAdmits(ts[n], reqs[n], ks(n), fd);
  }

  lemma SaidInit(ts: seq<Table>, reqs: seq<Request>, fd: int, i: nat, said: seq<string>)
    requires AllSaid(ts, reqs, fd, i, said) && said != [] && |ts| == |reqs| + 1
    ensures AllSaid(ts[..|reqs|], reqs[..|reqs| - 1], fd, i, said[..|said| - 1])
  {
    var ts', reqs', said' := ts[..|reqs|], reqs[..|reqs| - 1], said[..|said| - 1];
    forall j: nat | i <= j < |said'| ensures SaidAt(ts', reqs', fd, j, said'[j]) {
      assert SaidAt(ts, reqs, fd, j, said[j]);
    }
  }

  /** The bytes meant for a peer are exactly what the requests since its registration sent to it, each once and in
      order. */
  lemma {:induction false} StreamIsHeard(ts: seq<Table>, reqs: seq<Request>, ks: nat -> Kernel, i: nat, fd: int,
                                         said: seq<string>)
    requires History(ts, reqs, ks) && AllSaid(ts, reqs, fd, i, said)
    requires 0 < i <= |reqs| && fd !in ts[i - 1] && forall j :: i <= j <= |reqs| ==> fd in ts[j]
    ensures Holds(ts, |reqs|, fd, Joined(said, i))
    decreases |said|
  {
    if |said| == i {
      FirstHeard(ts, reqs, ks, i - 1, fd);
    } else {
      var n := |reqs| - 1;
      HistoryInit(ts, reqs, ks);
      SaidInit(ts, reqs, fd, i, said);
      StreamIsHeard(ts[..n + 1], reqs[..n], ks, i, fd, said[..|said| - 1]);
      HeardNext(ts, reqs, ks, i, fd, said, Joined(said[..|said| - 1], i));
    }
  }
}
