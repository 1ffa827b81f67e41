/** The registry: the table of connections, two reverse indexes kept in step with it, a client count,
    and the kernel's copy of every connection's mask. */
module Registry {
  import opened Text
  import opened Codec
  import opened Numbers
  import opened Connections
  import opened Indexes

  class EpollRegistry {
    var infos: Table
    var roomOnline: Index<int>
    var userOnline: Index<string>
    var clientCount: nat
    var masks: map<int, Mask>  // the kernel's interest list
    var cmdQ: seq<Request>

    ghost predicate Valid()
      reads this
    {
      IndexesValid() && AllWatched(infos, masks)
    }

    ghost predicate IndexesValid()
      reads this
    {
      && RoomsAgree(infos, roomOnline)
      && UsersAgree(infos, userOnline)
      && clientCount == |infos|
    }

    /** Everything is in order, except perhaps the mask of one connection. */
    ghost predicate ValidBut(fd: int)
      reads this
    {
      IndexesValid() && masks.Keys == infos.Keys && forall g :: g in infos && g != fd ==> Watched(infos[g], masks[g])
    }

    constructor ()
      ensures Valid() && infos == map[] && cmdQ == []
    {
      infos, roomOnline, userOnline, clientCount, masks, cmdQ := map[], map[], map[], 0, map[], [];
    }

    // -------------------------------------------------------------- index maintenance

    method RemoveFdFromRoomIndex(fd: int)
      requires fd in infos && RoomsAgree(infos, roomOnline)
      modifies this`infos, this`roomOnline
      ensures infos == old(infos)[fd := old(infos)[fd].(joined := {})]
      ensures RoomsAgree(infos, roomOnline)
    {
      var rest := infos[fd].joined;
      while rest != {}
        invariant infos == old(infos) && rest <= infos[fd].joined
        invariant NoEmptyEntry(roomOnline)
        invariant forall r, g :: Indexed(roomOnline, r, g) <==>
          g in infos && r in infos[g].joined && (g == fd ==> r in rest)
        decreases rest
      {
        var r := Pick(rest);
        WithoutIndexed(roomOnline, r, fd);
        roomOnline := Without(roomOnline, r, fd);
        rest := rest - {r};
      }
      infos := infos[fd := infos[fd].(joined := {})];
    }

    method RemoveFdFromUserIndex(fd: int)
      requires fd in infos && UsersAgree(infos, userOnline)
      modifies this`userOnline
      ensures NoEmptyEntry(userOnline)
      ensures forall u, g :: Indexed(userOnline, u, g) <==> g in infos && infos[g].userId == u && u != "" && g != fd
    {
      if infos[fd].userId == "" { return; }
      WithoutIndexed(userOnline, infos[fd].userId, fd);
      userOnline := Without(userOnline, infos[fd].userId, fd);
    }

    method SetFdJoinedRooms(fd: int, ids: seq<int>)
      requires fd in infos && RoomsAgree(infos, roomOnline)
      modifies this`infos, this`roomOnline
      ensures infos == old(infos)[fd := old(infos)[fd].(joined := PositiveIds(ids))]
      ensures RoomsAgree(infos, roomOnline)
    {
      RemoveFdFromRoomIndex(fd);
      assert PositiveIds(ids[..0]) == {};
      for i := 0 to |ids|
        invariant infos == old(infos)[fd := old(infos)[fd].(joined := PositiveIds(ids[..i]))]
        invariant RoomsAgree(infos, roomOnline)
      {
        var r := ids[i];
        assert PositiveIds(ids[..i + 1]) == if r > 0 then PositiveIds(ids[..i]) + {r} else PositiveIds(ids[..i]);
        if r > 0 {
          WithIndexed(roomOnline, r, fd);
          infos := infos[fd := infos[fd].(joined := infos[fd].joined + {r})];
          roomOnline := With(roomOnline, r, fd);
        }
      }
      assert ids[..|ids|] == ids;
    }

    // -------------------------------------------------------------- connections come and go

    method Register(fd: int, interest: Mask, k: Kernel)
      requires Valid()
      modifies this`infos, this`roomOnline, this`userOnline, this`clientCount, this`masks
      ensures Valid()
      ensures infos == Handle(old(infos), RegisterFd(fd, interest), k)
      ensures masks == MasksAfter(old(infos), infos, old(masks))
    {
      if fd == -1 || fd in infos || !k.setupOk {
        MasksStay(infos, infos, masks);
        return;
      }
      MasksAdmit(infos, fd, interest, masks);
      IndexesAdmit(infos, fd, FreshConn(interest), roomOnline, userOnline);
      infos := infos[fd := FreshConn(interest)];
      masks := masks[fd := interest];
      clientCount := |infos|;
    }

    method Unregister(fd: int)
      requires ValidBut(fd)
      modifies this`infos, this`roomOnline, this`userOnline, this`clientCount, this`masks
      ensures Valid()
      ensures infos == old(infos) - {fd} && masks == old(masks) - {fd}
    {
      if fd !in infos {
        assert infos - {fd} == infos && masks - {fd} == masks;
        return;
      }
      RemoveFdFromRoomIndex(fd);
      UsersCarryOver(old(infos), infos, userOnline);
      RemoveFdFromUserIndex(fd);
      ForgetTouched(old(infos), fd, infos[fd]);
      EraseInfo(fd);
    }

    /** Forgets a connection that no index mentions any more. */
    method EraseInfo(fd: int)
      requires fd in infos && infos[fd].joined == {} && RoomsAgree(infos, roomOnline) && NoEmptyEntry(userOnline)
      requires forall u, g :: Indexed(userOnline, u, g) <==> g in infos && infos[g].userId == u && u != "" && g != fd
      requires masks.Keys == infos.Keys && forall g :: g in infos && g != fd ==> Watched(infos[g], masks[g])
      modifies this`infos, this`masks, this`clientCount
      ensures Valid() && infos == old(infos) - {fd} && masks == old(masks) - {fd}
    {
      IndexesForget(infos, fd, roomOnline, userOnline);
      MasksForget(infos, fd, masks);
      infos := infos - {fd};
      masks := masks - {fd};
      clientCount := |infos|;
    }

    // -------------------------------------------------------------- sending

    /** Queues a message; only the step from drained to pending asks the kernel for write readiness. */
    method AppendSend(fd: int, cmd: Command, k: Kernel) returns (ok: bool)
      requires Valid() && fd in infos
      modifies this`infos, this`roomOnline, this`userOnline, this`clientCount, this`masks
      ensures Valid()
      ensures infos == Served(old(infos), {fd}, cmd, k)
      ensures masks == MasksAfter(old(infos), infos, old(masks))
      ensures ok <==> !Refused(old(infos)[fd], fd, k)
    {
      EncodeIsNotEmpty(cmd);
      ServedOne(infos, fd, cmd, k);
      var c := infos[fd];
      var edge := c.outbox == "";
      c := c.(outbox := c.outbox + Encode(cmd));
      if edge { c := c.(interest := c.interest + {Out}); }
      IndexesCarryOver(infos, infos[fd := c], roomOnline, userOnline);
      MasksCarryOver(infos, infos[fd := c], fd, masks);
      MasksServed(infos, fd, c, masks);
      MasksDrop(infos, fd, masks);
      ForgetTouched(infos, fd, c);
      infos := infos[fd := c];
      if !edge { return true; }
      ok := SyncInterest(fd, k);
    }

    /** Tells the kernel the connection's mask; a connection it refuses is dropped. */
    method SyncInterest(fd: int, k: Kernel) returns (ok: bool)
      requires ValidBut(fd) && fd in infos
      requires infos[fd].outbox != "" || infos[fd].tls.wantWrite ==> Out in infos[fd].interest
      modifies this`infos, this`roomOnline, this`userOnline, this`clientCount, this`masks
      ensures Valid()
      ensures ok <==> fd !in k.modFails
      ensures infos == if ok then old(infos) else old(infos) - {fd}
      ensures masks == if ok then old(masks)[fd := infos[fd].interest] else old(masks) - {fd}
    {
      if fd in k.modFails {
        Unregister(fd);
        return false;
      }
      masks := masks[fd := infos[fd].interest];
      return true;
    }

    // -------------------------------------------------------------- requests

    method HandleSendOne(fd: int, cmd: Command, k: Kernel)
      requires Valid()
      modifies this`infos, this`roomOnline, this`userOnline, this`clientCount, this`masks
      ensures Valid() && infos == Handle(old(infos), SendOne(fd, cmd), k)
      ensures masks == MasksAfter(old(infos), infos, old(masks))
    {
      if fd !in infos {
        MasksStay(infos, infos, masks);
        return;
      }
      var _ := AppendSend(fd, cmd, k);
    }

    /** Appends one message to every connection; the kernel is taken to accept each mask. */
    method HandleBroadcast(fd: int, cmd: Command, k: Kernel)
      requires Valid()
      modifies this`infos, this`roomOnline, this`userOnline, this`clientCount, this`masks
      ensures Valid() && infos == Handle(old(infos), Broadcast(fd, cmd), k)
      ensures masks == MasksAfter(old(infos), infos, old(masks))
    {
      ServeAll(infos.Keys, Signed(infos, fd, cmd), k.(modFails := {}));
    }

    method HandleChangeNickname(fd: int, nick: string)
      requires Valid()
      modifies this`infos
      ensures Valid()
      ensures infos == if fd in old(infos) then old(infos)[fd := old(infos)[fd].(nickname := nick)] else old(infos)
    {
      if fd !in infos { return; }
      var c := infos[fd].(nickname := nick);
      IndexesCarryOver(infos, infos[fd := c], roomOnline, userOnline);
      MasksCarryOver(infos, infos[fd := c], fd, masks);
      infos := infos[fd := c];
    }

    method HandleSetUserId(fd: int, userId: string)
      requires Valid()
      modifies this`infos, this`roomOnline, this`userOnline
      ensures Valid()
      ensures infos ==
        if fd in old(infos) then old(infos)[fd := old(infos)[fd].(userId := userId, joined := {})] else old(infos)
    {
      if fd !in infos { return; }
      RemoveFdFromUserIndex(fd);
      SetFdJoinedRooms(fd, []);
      assert PositiveIds([]) == {};
      MasksCarryOver(old(infos), infos, fd, masks);
      FileUnder(fd, userId);
      RenamedTwice(old(infos), fd, userId);
    }

    /** Names the user of a connection no user entry mentions, and files it there. */
    method FileUnder(fd: int, userId: string)
      requires fd in infos && RoomsAgree(infos, roomOnline) && NoEmptyEntry(userOnline)
      requires forall u, g :: Indexed(userOnline, u, g) <==> g in infos && infos[g].userId == u && u != "" && g != fd
      modifies this`infos, this`userOnline
      ensures infos == old(infos)[fd := old(infos)[fd].(userId := userId)]
      ensures RoomsAgree(infos, roomOnline) && UsersAgree(infos, userOnline)
    {
      var c := infos[fd].(userId := userId);
      RoomsCarryOver(infos, infos[fd := c], roomOnline);
      infos := infos[fd := c];
      if userId != "" {
        WithIndexed(userOnline, userId, fd);
        userOnline := With(userOnline, userId, fd);
      }
      UsersRenamed(old(infos), infos, fd, userOnline);
    }

    method HandleSetJoinedRooms(fd: int, ids: seq<int>)
      requires Valid()
      modifies this`infos, this`roomOnline
      ensures Valid() && infos == WithRooms(old(infos), {fd}, PositiveIds(ids))
    {
      if fd !in infos {
        assert WithRooms(infos, {fd}, PositiveIds(ids)) == infos;
        return;
      }
      WithRoomsStep(infos, {}, fd, PositiveIds(ids));
      var c := infos[fd].(joined := PositiveIds(ids));
      UsersCarryOver(infos, infos[fd := c], userOnline);
      MasksCarryOver(infos, infos[fd := c], fd, masks);
      SetFdJoinedRooms(fd, ids);
    }

    method HandleSetJoinedRoomsForUser(userId: string, ids: seq<int>)
      requires Valid()
      modifies this`infos, this`roomOnline
      ensures Valid() && infos == WithRooms(old(infos), SessionsOf(old(infos), userId), PositiveIds(ids))
    {
      ghost var rooms := PositiveIds(ids);
      var fds := if userId in userOnline then userOnline[userId] else {};
      EntryIsSessions(infos, userOnline, userId);
      assert WithRooms(infos, {}, rooms) == infos;
      var rest := fds;
      while rest != {}
        invariant rest <= fds && Valid()
        invariant infos == WithRooms(old(infos), fds - rest, rooms)
        decreases rest
      {
        var fd := Pick(rest);
        WithRoomsStep(old(infos), fds - rest, fd, rooms);
        HandleSetJoinedRooms(fd, ids);
        assert fds - (rest - {fd}) == fds - rest + {fd};
        rest := rest - {fd};
      }
      assert fds - {} == fds;
    }

    /** The header makes the outbox non-empty, so no later line can be refused. */
    method HandleSendFriendList(fd: int, friendIds: seq<string>, k: Kernel)
      requires Valid()
      modifies this`infos, this`roomOnline, this`userOnline, this`clientCount, this`masks
      ensures Valid() && infos == Handle(old(infos), SendFriendList(fd, friendIds), k)
      ensures masks == MasksAfter(old(infos), infos, old(masks))
    {
      if fd !in infos {
        MasksStay(infos, infos, masks);
        return;
      }
      ghost var t := infos;
      var header := Response("friends: " + Digits(|friendIds|));
      ServedOne(infos, fd, header, k);
      var ok := AppendSend(fd, header, k);
      if !ok { return; }
      FriendReportStart(t, fd, header);
      for i := 0 to |friendIds|
        invariant Valid() && infos == FriendReport(t, fd, header, friendIds[..i])
        invariant masks == MasksAfter(t, t[fd := Appended(t[fd], header)], old(masks))
      {
        FriendReportStep(t, fd, header, friendIds, i);
        AppendFriendLine(fd, friendIds[i], k);
      }
      FriendReportMasks(t, fd, header, friendIds, old(masks));
      assert friendIds[..|friendIds|] == friendIds;
    }

    method AppendFriendLine(fd: int, friendId: string, k: Kernel)
      requires Valid() && fd in infos && infos[fd].outbox != ""
      modifies this`infos, this`roomOnline, this`userOnline, this`clientCount, this`masks
      ensures Valid() && infos == old(infos)[fd := Appended(old(infos)[fd], FriendLine(old(infos), friendId))]
      ensures masks == old(masks)
    {
      var isOnline := friendId in userOnline;
      OnlineIffSession(infos, userOnline, friendId);
      var line := Response("friend: " + friendId + " (" + (if isOnline then "online" else "offline") + ")");
      ServedOne(infos, fd, line, k);
      MasksServed(infos, fd, Appended(infos[fd], line), masks);
      var _ := AppendSend(fd, line, k);
    }

    /** The set of targets is fixed before the first append, so a target dropped on the way
        does not disturb the others. */
    method HandleRoomBroadcast(fd: int, roomId: int, cmd: Command, k: Kernel)
      requires Valid()
      modifies this`infos, this`roomOnline, this`userOnline, this`clientCount, this`masks
      ensures Valid() && infos == Handle(old(infos), RoomBroadcast(fd, roomId, cmd), k)
      ensures masks == MasksAfter(old(infos), infos, old(masks))
    {
      var targets := if roomId in roomOnline then roomOnline[roomId] else {};
      EntryIsMembers(infos, roomOnline, roomId);
      ServeAll(targets, Signed(infos, fd, cmd), k);
    }

    method ServeAll(targets: set<int>, cmd: Command, k: Kernel)
      requires Valid() && targets <= infos.Keys
      modifies this`infos, this`roomOnline, this`userOnline, this`clientCount, this`masks
      ensures Valid() && infos == Served(old(infos), targets, cmd, k)
      ensures masks == MasksAfter(old(infos), infos, old(masks))
    {
      var rest := targets;
      ServingStarts(infos, masks, cmd, k);
      while rest != {}
        invariant rest <= targets && Valid()
        invariant ServedSoFar(old(infos), old(masks), targets - rest, cmd, k, infos, masks)
        decreases rest
      {
        var fd := Pick(rest);
        ServingGoesOn(old(infos), old(masks), targets - rest, fd, cmd, k, infos, masks);
        if fd in infos {
          var _ := AppendSend(fd, cmd, k);
        }
        assert targets - (rest - {fd}) == targets - rest + {fd};
        rest := rest - {fd};
      }
      assert targets - {} == targets;
    }

    // -------------------------------------------------------------- the queue

    /** A request joins the queue behind all others. */
    method Push(req: Request)
      modifies this`cmdQ
      ensures cmdQ == old(cmdQ) + [req]
    {
      cmdQ := cmdQ + [req];
    }

    /** Takes everything queued so far. */
    method TakeQueue() returns (pending: seq<Request>)
      modifies this`cmdQ
      ensures pending == old(cmdQ) && cmdQ == []
    {
      pending := cmdQ;
      cmdQ := [];
    }

    method HandleRequest(req: Request, k: Kernel)
      requires Valid()
      modifies this`infos, this`roomOnline, this`userOnline, this`clientCount, this`masks
      ensures Valid() && infos == Handle(old(infos), req, k)
      ensures masks == MasksAfter(old(infos), infos, old(masks))
    {
      match req
      case RegisterFd(fd, interest) => Register(fd, interest, k);
      case UnregisterFd(fd) =>
        MasksDrop(infos, fd, masks);
        Unregister(fd);
      case SendOne(fd, cmd) => HandleSendOne(fd, cmd, k);
      case Broadcast(fd, cmd) => HandleBroadcast(fd, cmd, k);
      case ChangeNickname(fd, nick) =>
        HandleChangeNickname(fd, nick);
        MasksStay(old(infos), infos, masks);
      case SetUserId(fd, userId) =>
        HandleSetUserId(fd, userId);
        MasksStay(old(infos), infos, masks);
      case SetJoinedRooms(fd, ids) =>
        HandleSetJoinedRooms(fd, ids);
        MasksStay(old(infos), infos, masks);
      case SetJoinedRoomsForUser(userId, ids) =>
        HandleSetJoinedRoomsForUser(userId, ids);
        MasksStay(old(infos), infos, masks);
      case SendFriendList(fd, ids) => HandleSendFriendList(fd, ids, k);
      case RoomBroadcast(fd, roomId, cmd) => HandleRoomBroadcast(fd, roomId, cmd, k);
    }

    /** Takes the whole queue and handles it in order. */
    method Work(ks: nat -> Kernel)
      requires Valid()
      modifies this
      ensures Valid() && infos == HandleAll(old(infos), old(cmdQ), ks) && cmdQ == []
      ensures masks == MasksAll(old(infos), old(cmdQ), ks, old(masks))
    {
      var pending := TakeQueue();
      ProgressStarts(infos, masks, pending, ks);
      for i := 0 to |pending|
        invariant Valid() && cmdQ == []
        invariant Progress(old(infos), old(masks), pending, ks, i, infos, masks)
      {
        ProgressGoesOn(old(infos), old(masks), pending, ks, i, infos, masks);
        HandleRequest(pending[i], ks(i));
      }
      ProgressEnds(old(infos), old(masks), pending, ks, infos, masks);
    }

    // -------------------------------------------------------------- for the server's handlers

    /** Replaces what the table holds for a connection, leaving its user and rooms alone. */
    method Store(fd: int, c: Conn)
      requires ValidBut(fd) && fd in infos && c.userId == infos[fd].userId && c.joined == infos[fd].joined
      modifies this`infos
      ensures ValidBut(fd) && infos == old(infos)[fd := c]
    {
      IndexesCarryOver(infos, infos[fd := c], roomOnline, userOnline);
      infos := infos[fd := c];
    }

    /** Tells the kernel a connection's interest. */
    method SetMask(fd: int)
      requires ValidBut(fd) && fd in infos && Watched(infos[fd], infos[fd].interest)
      modifies this`masks
      ensures Valid() && masks == old(masks)[fd := infos[fd].interest]
    {
      masks := masks[fd := infos[fd].interest];
    }
  }

  /** In every state reachable from start-up, over any requests and any kernel behaviour, both indexes, the
      client count and the kernel's masks say exactly what the plain table says, and the table is what
      handling the requests in order makes it. */
  method RunRegistry(reqs: seq<Request>, ks: nat -> Kernel)
    returns (t: Table, rooms: Index<int>, users: Index<string>, count: nat, masks: map<int, Mask>)
    ensures t == HandleAll(map[], reqs, ks)
    ensures forall r, fd :: Indexed(rooms, r, fd) <==> fd in t && r in t[fd].joined
    ensures forall r :: r in rooms ==> r > 0 && rooms[r] != {}
    ensures forall u, fd :: Indexed(users, u, fd) <==> fd in t && t[fd].userId == u && u != ""
    ensures forall u :: u in users <==> SessionsOf(t, u) != {}
    ensures count == |t| && AllWatched(t, masks)
  {
    var registry := new EpollRegistry();
    for i := 0 to |reqs|
      invariant fresh(registry) && registry.Valid()
      invariant registry.infos == HandleAll(map[], reqs[..i], ks)
    {
      assert reqs[..i + 1][..i] == reqs[..i];
      registry.HandleRequest(reqs[i], ks(i));
    }
    assert reqs[..|reqs|] == reqs;
    t, rooms, users := registry.infos, registry.roomOnline, registry.userOnline;
    count, masks := registry.clientCount, registry.masks;
    IndexesSay(t, rooms, users);
  }

  lemma IndexesSay(t: Table, rooms: Index<int>, users: Index<string>)
    requires RoomsAgree(t, rooms) && UsersAgree(t, users)
    ensures forall r, fd :: Indexed(rooms, r, fd) <==> fd in t && r in t[fd].joined
    ensures forall r :: r in rooms ==> r > 0 && rooms[r] != {}
    ensures forall u, fd :: Indexed(users, u, fd) <==> fd in t && t[fd].userId == u && u != ""
    ensures forall u :: u in users <==> SessionsOf(t, u) != {}
  {
    forall u ensures u in users <==> SessionsOf(t, u) != {} {
      OnlineIffSession(t, users, u);
    }
    forall r | r in rooms ensures r > 0 && rooms[r] != {} {
      var fd := Inhabited(rooms[r]);
      assert Indexed(rooms, r, fd);
    }
  }
}
