/** The registry's derived data, and what it means for them to agree with the table of connections. */
module Indexes {
  import opened Text
  import opened Codec
  import opened Connections
  import opened Numbers

  // ---------------------------------------------------------------- reverse indexes

  type Index<K(==)> = map<K, set<int>>

  ghost predicate Indexed<K>(m: Index<K>, k: K, fd: int) {
    k in m && fd in m[k]
  }

  /** An index never keeps an empty entry, so having a key means having a connection under it. */
  ghost predicate NoEmptyEntry<K(!new)>(m: Index<K>) {
    forall k :: k in m ==> m[k] != {}
  }

  function Without<K>(m: Index<K>, k: K, fd: int): Index<K> {
    if k !in m then m
    else if m[k] - {fd} == {} then m - {k}
    else m[k := m[k] - {fd}]
  }

  function With<K>(m: Index<K>, k: K, fd: int): Index<K> {
    m[k := (if k in m then m[k] else {}) + {fd}]
  }

  ghost predicate RoomsAgree(t: Table, m: Index<int>) {
    && NoEmptyEntry(m)
    && (forall r, fd :: Indexed(m, r, fd) <==> fd in t && r in t[fd].joined)
    && (forall fd :: fd in t ==> forall r :: r in t[fd].joined ==> r > 0)
  }

  ghost predicate UsersAgree(t: Table, m: Index<string>) {
    && NoEmptyEntry(m)
    && (forall u, fd :: Indexed(m, u, fd) <==> fd in t && t[fd].userId == u && u != "")
  }

  /** A live connection with something to write, or whose session waits to write, is watched for
      writability; and the kernel watches what the connection says. */
  predicate Watched(c: Conn, mask: Mask) {
    !c.closed ==> mask == c.interest && (c.outbox != "" || c.tls.wantWrite ==> Out in c.interest)
  }

  ghost predicate AllWatched(t: Table, masks: map<int, Mask>) {
    masks.Keys == t.Keys && forall fd :: fd in t ==> Watched(t[fd], masks[fd])
  }

  lemma WithoutIndexed<K(!new)>(m: Index<K>, k: K, fd: int)
    requires NoEmptyEntry(m)
    ensures NoEmptyEntry(Without(m, k, fd))
    ensures forall k', fd' :: Indexed(Without(m, k, fd), k', fd') <==> Indexed(m, k', fd') && !(k' == k && fd' == fd)
  {
    if k in m {
      forall k', fd' ensures Indexed(Without(m, k, fd), k', fd') <==> Indexed(m, k', fd') && !(k' == k && fd' == fd) {
        if k' == k && Indexed(m, k', fd') && fd' != fd {
          assert fd' in m[k] - {fd};
        }
      }
    }
  }

  lemma WithIndexed<K(!new)>(m: Index<K>, k: K, fd: int)
    requires NoEmptyEntry(m)
    ensures NoEmptyEntry(With(m, k, fd))
    ensures forall k', fd' :: Indexed(With(m, k, fd), k', fd') <==> Indexed(m, k', fd') || (k' == k && fd' == fd)
  {}

  /** The two tables have the same connections in the same rooms under the same users. */
  ghost predicate SameIdentities(t: Table, t': Table) {
    t'.Keys == t.Keys && forall fd :: fd in t ==> t'[fd].joined == t[fd].joined && t'[fd].userId == t[fd].userId
  }

  lemma IndexesCarryOver(t: Table, t': Table, rooms: Index<int>, users: Index<string>)
    requires RoomsAgree(t, rooms) && UsersAgree(t, users) && SameIdentities(t, t')
    ensures RoomsAgree(t', rooms) && UsersAgree(t', users) && |t'| == |t|
  {
    assert |t'.Keys| == |t'| && |t.Keys| == |t|;
  }

  /** Once a connection is in no room and under no user, it can leave the table. */
  lemma IndexesForget(t: Table, fd: int, rooms: Index<int>, users: Index<string>)
    requires fd in t && t[fd].joined == {} && RoomsAgree(t, rooms) && NoEmptyEntry(users)
    requires forall u, g :: Indexed(users, u, g) <==> g in t && t[g].userId == u && u != "" && g != fd
    ensures RoomsAgree(t - {fd}, rooms) && UsersAgree(t - {fd}, users)
  {}

  /** A connection in no room and under no user can enter the table. */
  lemma IndexesAdmit(t: Table, fd: int, c: Conn, rooms: Index<int>, users: Index<string>)
    requires RoomsAgree(t, rooms) && UsersAgree(t, users) && fd !in t && c.joined == {} && c.userId == ""
    ensures RoomsAgree(t[fd := c], rooms) && UsersAgree(t[fd := c], users)
  {}

  lemma UsersCarryOver(t: Table, t': Table, users: Index<string>)
    requires UsersAgree(t, users) && t'.Keys == t.Keys && forall fd :: fd in t ==> t'[fd].userId == t[fd].userId
    ensures UsersAgree(t', users)
  {}

  lemma ForgetTouched(t: Table, fd: int, c: Conn)
    ensures t[fd := c] - {fd} == t - {fd}
  {}

  lemma MasksForget(t: Table, fd: int, masks: map<int, Mask>)
    requires masks.Keys == t.Keys && forall g :: g in t && g != fd ==> Watched(t[g], masks[g])
    ensures AllWatched(t - {fd}, masks - {fd})
  {}

  lemma MasksCarryOver(t: Table, t': Table, fd: int, masks: map<int, Mask>)
    requires AllWatched(t, masks) && t'.Keys == t.Keys && forall g :: g in t && g != fd ==> t'[g] == t[g]
    ensures masks.Keys == t'.Keys && forall g :: g in t' && g != fd ==> Watched(t'[g], masks[g])
  {}

  lemma ServedOne(t: Table, fd: int, cmd: Command, k: Kernel)
    requires fd in t
    ensures Served(t, {fd}, cmd, k) == if Refused(t[fd], fd, k) then t - {fd} else t[fd := Appended(t[fd], cmd)]
  {}

  /** One more target served. */
  lemma ServedStep(t: Table, done: set<int>, fd: int, cmd: Command, k: Kernel)
    requires fd in t && fd !in done
    ensures fd in Served(t, done, cmd, k) && Served(t, done, cmd, k)[fd] == t[fd]
    ensures Served(Served(t, done, cmd, k), {fd}, cmd, k) == Served(t, done + {fd}, cmd, k)
  {}

  lemma ServedNone(t: Table, cmd: Command, k: Kernel)
    ensures Served(t, {}, cmd, k) == t
  {}

  lemma WithRoomsStep(t: Table, done: set<int>, fd: int, rooms: set<int>)
    requires fd in t && fd !in done
    ensures WithRooms(WithRooms(t, done, rooms), {fd}, rooms) == WithRooms(t, done + {fd}, rooms)
    ensures WithRooms(t, {fd}, rooms) == t[fd := t[fd].(joined := rooms)]
  {}

  lemma RoomsCarryOver(t: Table, t': Table, rooms: Index<int>)
    requires RoomsAgree(t, rooms) && t'.Keys == t.Keys && forall fd :: fd in t ==> t'[fd].joined == t[fd].joined
    ensures RoomsAgree(t', rooms)
  {}

  /** Re-filing one connection under its new user. */
  lemma UsersRenamed(t: Table, t': Table, fd: int, users: Index<string>)
    requires fd in t && t'.Keys == t.Keys && NoEmptyEntry(users)
    requires forall g :: g in t && g != fd ==> t'[g].userId == t[g].userId
    requires forall u, g :: Indexed(users, u, g) <==>
      (g in t && t[g].userId == u && u != "" && g != fd) || (g == fd && t'[fd].userId == u && u != "")
    ensures UsersAgree(t', users)
  {}

  /** A user has an index entry exactly when some connection is logged in as that user. */
  lemma OnlineIffSession(t: Table, users: Index<string>, userId: string)
    requires UsersAgree(t, users)
    ensures userId in users <==> SessionsOf(t, userId) != {}
  {
    if userId in users {
      var fd := Inhabited(users[userId]);
      assert Indexed(users, userId, fd);
      assert fd in SessionsOf(t, userId);
    }
    if SessionsOf(t, userId) != {} {
      var fd := Inhabited(SessionsOf(t, userId));
      assert Indexed(users, userId, fd);
    }
  }

  lemma SessionsMoved(t: Table, fd: int, c: Conn, userId: string)
    requires fd in t && c.userId == t[fd].userId
    ensures SessionsOf(t[fd := c], userId) == SessionsOf(t, userId)
  {}

  lemma EntryIsSessions(t: Table, users: Index<string>, userId: string)
    requires UsersAgree(t, users)
    ensures (if userId in users then users[userId] else {}) == SessionsOf(t, userId)
  {
    var s := if userId in users then users[userId] else {};
    forall fd ensures fd in s <==> fd in SessionsOf(t, userId) {
      assert fd in s <==> Indexed(users, userId, fd);
    }
  }

  lemma EntryIsMembers(t: Table, rooms: Index<int>, roomId: int)
    requires RoomsAgree(t, rooms)
    ensures (if roomId in rooms then rooms[roomId] else {}) == Members(t, roomId)
  {
    var s := if roomId in rooms then rooms[roomId] else {};
    forall fd ensures fd in s <==> fd in Members(t, roomId) {
      assert fd in s <==> Indexed(rooms, roomId, fd);
    }
  }

  lemma {:induction false} AppendedAllKeeps(c: Conn, cmds: seq<Command>)
    ensures AppendedAll(c, cmds).userId == c.userId
    ensures cmds != [] ==> AppendedAll(c, cmds).outbox != ""
  {
    if cmds != [] {
      AppendedAllKeeps(c, cmds[..|cmds| - 1]);
      EncodeIsNotEmpty(cmds[|cmds| - 1]);
    }
  }

  lemma AppendedAllSnoc(c: Conn, cmds: seq<Command>, cmd: Command)
    ensures AppendedAll(c, cmds + [cmd]) == Appended(AppendedAll(c, cmds), cmd)
  {
    assert (cmds + [cmd])[..|cmds|] == cmds;
  }

  /** The table once the header and the lines of these friends have been appended. */
  ghost function FriendReport(t: Table, fd: int, header: Command, ids: seq<string>): Table
    requires fd in t
  {
    t[fd := AppendedAll(t[fd], [header] + FriendLines(t, ids))]
  }

  lemma FriendReportStart(t: Table, fd: int, header: Command)
    requires fd in t
    ensures FriendReport(t, fd, header, []) == t[fd := Appended(t[fd], header)]
  {
    assert [header] + FriendLines(t, []) == [] + [header];
    AppendedAllSnoc(t[fd], [], header);
  }

  lemma FriendLinesSnoc(t: Table, ids: seq<string>, i: nat)
    requires i < |ids|
    ensures FriendLines(t, ids[..i + 1]) == FriendLines(t, ids[..i]) + [FriendLine(t, ids[i])]
  {}

  lemma FriendLineMoved(t: Table, fd: int, c: Conn, id: string)
    requires fd in t && c.userId == t[fd].userId
    ensures FriendLine(t[fd := c], id) == FriendLine(t, id)
  {
    SessionsMoved(t, fd, c, id);
  }

  lemma FriendReportStep(t: Table, fd: int, header: Command, ids: seq<string>, i: nat)
    requires fd in t && i < |ids|
    ensures var t' := FriendReport(t, fd, header, ids[..i]);
      && t'[fd].outbox != ""
      && t'[fd := Appended(t'[fd], FriendLine(t', ids[i]))] == FriendReport(t, fd, header, ids[..i + 1])
  {
    var lines, line := FriendLines(t, ids[..i]), FriendLine(t, ids[i]);
    var c := AppendedAll(t[fd], [header] + lines);
    AppendedAllKeeps(t[fd], [header] + lines);
    FriendLineMoved(t, fd, c, ids[i]);
    AppendedAllSnoc(t[fd], [header] + lines, line);
    FriendLinesSnoc(t, ids, i);
    Assoc([header], lines, [line]);
    assert t[fd := c][fd := Appended(c, line)] == t[fd := Appended(c, line)];
  }

  lemma RenamedTwice(t: Table, fd: int, userId: string)
    requires fd in t
    ensures t[fd := t[fd].(joined := {})][fd := t[fd].(joined := {}).(userId := userId)] ==
            t[fd := t[fd].(userId := userId, joined := {})]
  {}

  // ---------------------------------------------------------------- the kernel's masks

  lemma MasksKeys(t: Table, t': Table, masks: map<int, Mask>)
    ensures MasksAfter(t, t', masks).Keys == t'.Keys
  {
    var m := MasksAfter(t, t', masks);
    assert forall fd :: fd in m <==> fd in t'.Keys;
  }

  lemma MasksStay(t: Table, t': Table, masks: map<int, Mask>)
    requires masks.Keys == t.Keys == t'.Keys && forall fd :: fd in t ==> t'[fd].outbox == t[fd].outbox
    ensures MasksAfter(t, t', masks) == masks
  {
    MasksKeys(t, t', masks);
    var m := MasksAfter(t, t', masks);
    var n := masks;
    assert forall g :: g in m <==> g in n;
    assert m.Keys == n.Keys;
    assert forall g :: g in m ==> m[g] == n[g];
    assert m == n;
  }

  lemma MasksAdmit(t: Table, fd: int, interest: Mask, masks: map<int, Mask>)
    requires masks.Keys == t.Keys && fd !in t
    ensures MasksAfter(t, t[fd := FreshConn(interest)], masks) == masks[fd := interest]
  {
    MasksKeys(t, t[fd := FreshConn(interest)], masks);
    var m := MasksAfter(t, t[fd := FreshConn(interest)], masks);
    var n := masks[fd := interest];
    assert forall g :: g in m <==> g in n;
    assert m.Keys == n.Keys;
    assert forall g :: g in m ==> m[g] == n[g];
    assert m == n;
  }

  lemma MasksDrop(t: Table, fd: int, masks: map<int, Mask>)
    requires masks.Keys == t.Keys
    ensures MasksAfter(t, t - {fd}, masks) == masks - {fd}
  {
    MasksKeys(t, t - {fd}, masks);
    var m := MasksAfter(t, t - {fd}, masks);
    var n := masks - {fd};
    assert forall g :: g in m <==> g in n;
    assert m.Keys == n.Keys;
    assert forall g :: g in m ==> m[g] == n[g];
    assert m == n;
  }

  lemma MasksServed(t: Table, fd: int, c: Conn, masks: map<int, Mask>)
    requires masks.Keys == t.Keys && fd in t
    ensures MasksAfter(t, t[fd := c], masks) == if Fills(t[fd], c) then masks[fd := c.interest] else masks
  {
    MasksKeys(t, t[fd := c], masks);
    var m := MasksAfter(t, t[fd := c], masks);
    var n := if Fills(t[fd], c) then masks[fd := c.interest] else masks;
    assert forall g :: g in m <==> g in n;
    assert m.Keys == n.Keys;
    assert forall g :: g in m ==> m[g] == n[g];
    assert m == n;
  }

  /** Once its outbox is filled, a connection is not filled again by later appends. */
  lemma MasksTwice(t: Table, t1: Table, t2: Table, masks: map<int, Mask>)
    requires masks.Keys == t.Keys && t2.Keys <= t1.Keys <= t.Keys
    requires forall fd :: fd in t1 && t[fd].outbox != "" ==> t1[fd].outbox != ""
    requires forall fd :: fd in t2 && t1[fd].outbox != "" ==> t2[fd].outbox != "" && t2[fd].interest == t1[fd].interest
    ensures MasksAfter(t1, t2, MasksAfter(t, t1, masks)) == MasksAfter(t, t2, masks)
  {
    var m1 := MasksAfter(t, t1, masks);
    MasksKeys(t, t1, masks);
    MasksKeys(t1, t2, m1);
    MasksKeys(t, t2, masks);
    assert forall g :: g in t2.Keys ==> g in t1.Keys && g in t.Keys;
    var m := MasksAfter(t1, t2, m1);
    var n := MasksAfter(t, t2, masks);
    assert forall g :: g in m <==> g in n;
    assert m.Keys == n.Keys;
    assert forall g :: g in m ==> m[g] == n[g];
    assert m == n;
  }

  /** Only the header of a friend list can fill an outbox. */
  lemma FriendReportMasks(t: Table, fd: int, header: Command, ids: seq<string>, masks: map<int, Mask>)
    requires masks.Keys == t.Keys && fd in t
    ensures MasksAfter(t, FriendReport(t, fd, header, ids), masks) ==
            MasksAfter(t, t[fd := Appended(t[fd], header)], masks)
  {
    var cmds := [header] + FriendLines(t, ids);
    AppendedAllWatches(t[fd], cmds);
    AppendedAllKeeps(t[fd], cmds);
    EncodeIsNotEmpty(header);
    MasksServed(t, fd, AppendedAll(t[fd], cmds), masks);
    MasksServed(t, fd, Appended(t[fd], header), masks);
  }

  /** Some of the targets have been served. */
  ghost predicate ServedSoFar(t: Table, masks: map<int, Mask>, done: set<int>, cmd: Command, k: Kernel,
                              t': Table, masks': map<int, Mask>) {
    t' == Served(t, done, cmd, k) && masks' == MasksAfter(t, t', masks)
  }

  lemma ServingStarts(t: Table, masks: map<int, Mask>, cmd: Command, k: Kernel)
    requires masks.Keys == t.Keys
    ensures ServedSoFar(t, masks, {}, cmd, k, t, masks)
  {
    ServedNone(t, cmd, k);
    MasksStay(t, t, masks);
  }

  lemma ServingGoesOn(t: Table, masks: map<int, Mask>, done: set<int>, fd: int, cmd: Command, k: Kernel,
                      t': Table, masks': map<int, Mask>)
    requires masks.Keys == t.Keys && fd in t && fd !in done && ServedSoFar(t, masks, done, cmd, k, t', masks')
    ensures fd in t'
    ensures var t'' := Served(t', {fd}, cmd, k);
      ServedSoFar(t, masks, done + {fd}, cmd, k, t'', MasksAfter(t', t'', masks'))
  {
    ServedStep(t, done, fd, cmd, k);
    ServedFillsOnce(t, done, fd, cmd, k, masks);
  }

  /** Serving one more target fills no outbox a second time. */
  lemma ServedFillsOnce(t: Table, done: set<int>, fd: int, cmd: Command, k: Kernel, masks: map<int, Mask>)
    requires masks.Keys == t.Keys && fd in t && fd !in done
    ensures var t1, t2 := Served(t, done, cmd, k), Served(t, done + {fd}, cmd, k);
      MasksAfter(t1, t2, MasksAfter(t, t1, masks)) == MasksAfter(t, t2, masks)
  {
    EncodeIsNotEmpty(cmd);
    MasksTwice(t, Served(t, done, cmd, k), Served(t, done + {fd}, cmd, k), masks);
  }

  /** Handling a request leaves every live connection with something to write watched for it. */
  lemma HandleKeepsWatched(t: Table, req: Request, k: Kernel, masks: map<int, Mask>)
    requires AllWatched(t, masks)
    ensures AllWatched(Handle(t, req, k), MasksAfter(t, Handle(t, req, k), masks))
  {
    if req.SendFriendList? && req.fd in t {
      var lines := [Response("friends: " + Digits(|req.friendIds|))] + FriendLines(t, req.friendIds);
      AppendedAllWatches(t[req.fd], lines);
      AppendedAllKeeps(t[req.fd], lines);
    }
    if req.SendOne? || req.Broadcast? || req.RoomBroadcast? {
      EncodeIsNotEmpty(if req.SendOne? then req.cmd else Signed(t, req.fd, req.cmd));
    }
  }

  lemma {:induction false} AppendedAllWatches(c: Conn, cmds: seq<Command>)
    ensures var c' := AppendedAll(c, cmds);
      && c'.closed == c.closed && c'.tls == c.tls
      && (c.outbox != "" ==> c'.outbox != "")
      && c'.interest == if c.outbox == "" && cmds != [] then c.interest + {Out} else c.interest
  {
    if cmds != [] {
      AppendedAllWatches(c, cmds[..|cmds| - 1]);
      AppendedAllKeeps(c, cmds[..|cmds| - 1]);
      EncodeIsNotEmpty(cmds[|cmds| - 1]);
    }
  }
}
