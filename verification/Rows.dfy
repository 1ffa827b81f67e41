/** Which rows the tables hold: after one transaction, and after any history. A row is there exactly if some transaction
    brought it in and none has taken it out since. */
module Rows {
  import opened Text
  import opened Ordering
  import opened Tables
  import opened Provenance

  // ---------------------------------------------------------------- one transaction

  /** Accounts only come, keep their password, and change their nickname by their own transaction. */
  lemma UsersAfter(db: Db, t: Txn, id: string)
    ensures var users := Commit(db, t).users;
      && (id in users <==> id in db.users || (t.Signup? && t.id == id))
      && (id in db.users ==> users[id].pw == db.users[id].pw)
      && (id in db.users && t.ChangeNickname? && t.id == id ==> users[id].nickname == t.nickname)
      && (id in db.users && !(t.ChangeNickname? && t.id == id) ==> users[id].nickname == db.users[id].nickname)
      && (id !in db.users && id in users ==> users[id] == User(t.pw, "guest"))
  {}

  predicate SamePair(a: string, b: string, x: string, y: string) {
    (a == x && b == y) || (a == y && b == x)
  }

  predicate Unfriends(t: Txn, a: string, b: string) {
    t.RemoveFriend? && SamePair(t.user, t.other, a, b)
  }

  predicate Befriends(db: Db, t: Txn, a: string, b: string) {
    t.AcceptFriend? && SamePair(t.from, t.to, a, b) && IsPending(db, t.from, t.to)
  }

  /** Two users become friends by accepting a pending request and cease to be by removing each other; nobody else's
      friendship changes. */
  lemma FriendsAfter(db: Db, t: Txn, a: string, b: string)
    requires Sound(db)
    ensures AreFriends(Commit(db, t), a, b) <==> (AreFriends(db, a, b) && !Unfriends(t, a, b)) || Befriends(db, t, a, b)
  {
    if t.RemoveFriend? { SameRow(t.user, t.other, a, b); }
    if t.AcceptFriend? { SameRow(t.from, t.to, a, b); }
  }

  lemma SameRow(a: string, b: string, x: string, y: string)
    ensures Pair(a, b) == Pair(x, y) <==> SamePair(a, b, x, y)
  {
    PairLaws(a, b);
    PairLaws(x, y);
  }

  function StatusOf(db: Db, from: string, to: string): Option<Status> {
    if (from, to) in db.requests then Some(db.requests[(from, to)]) else None
  }

  /** A request between users who are not friends is made, or made again after a rejection. */
  predicate MakesRequest(db: Db, t: Txn, from: string, to: string) {
    && t == RequestFriend(from, to) && from != to && from in db.users && to in db.users && !AreFriends(db, from, to)
    && (StatusOf(db, from, to) == None || StatusOf(db, from, to) == Some(Rejected)
        || StatusOf(db, from, to) == Some(Canceled))
  }

  /** How requests move: none or rejected to pending, pending to accepted or rejected, and no other way. */
  lemma RequestAfter(db: Db, t: Txn, from: string, to: string)
    requires Sound(db)
    ensures StatusOf(Commit(db, t), from, to) ==
      if MakesRequest(db, t, from, to) then Some(Pending)
      else if t == AcceptFriend(from, to) && StatusOf(db, from, to) == Some(Pending) then Some(Accepted)
      else if t == RejectFriend(from, to) && StatusOf(db, from, to) == Some(Pending) then Some(Rejected)
      else StatusOf(db, from, to)
  {}

  predicate Deletes(db: Db, t: Txn, roomId: int) {
    t.DeleteRoom? && t.roomId == roomId && roomId in db.rooms && t.user == db.rooms[roomId].owner
  }

  predicate Creates(db: Db, t: Txn, roomId: int) {
    t.CreateRoom? && t.owner in db.users && roomId == db.nextRoom + t.gap
  }

  /** A room comes by its creation, goes by its owner's deletion, and keeps its row meanwhile. */
  lemma RoomsAfter(db: Db, t: Txn, roomId: int)
    requires Sound(db)
    ensures var rooms := Commit(db, t).rooms;
      && (roomId in rooms <==> (roomId in db.rooms && !Deletes(db, t, roomId)) || Creates(db, t, roomId))
      && (roomId in rooms && roomId in db.rooms ==> rooms[roomId] == db.rooms[roomId])
      && (roomId in rooms && roomId !in db.rooms ==> rooms[roomId] == Room(t.name, t.owner))
  {}

  /** The user leaves, or the room goes. */
  predicate Departs(db: Db, t: Txn, roomId: int, user: string) {
    Deletes(db, t, roomId) || (t == LeaveRoom(user, roomId) && roomId in db.rooms && db.rooms[roomId].owner != user)
  }

  /** The user creates the room, or a member who is a friend invites the user. */
  predicate Joins(db: Db, t: Txn, roomId: int, user: string) {
    || (Creates(db, t, roomId) && t.owner == user)
    || (t.InviteRoom? && t.roomId == roomId && t.other == user
        && (roomId, t.user) in db.members && AreFriends(db, t.user, user))
  }

  lemma MembersAfter(db: Db, t: Txn, roomId: int, user: string)
    requires Sound(db)
    ensures (roomId, user) in Commit(db, t).members <==>
      ((roomId, user) in db.members && !Departs(db, t, roomId, user)) || Joins(db, t, roomId, user)
  {
    if t.InviteRoom? {
      PairLaws(t.user, t.other);
      InvitedMembers(db, t, roomId, user);
    }
  }

  lemma InvitedMembers(db: Db, t: Txn, roomId: int, user: string)
    requires Sound(db) && t.InviteRoom?
    requires Pair(t.user, t.other) == (t.user, t.other) || Pair(t.user, t.other) == (t.other, t.user)
    ensures (roomId, user) in Commit(db, t).members <==> (roomId, user) in db.members || Joins(db, t, roomId, user)
  {}

  /** The message a transaction stores: a member's, under the next free id. */
  predicate Writes(db: Db, t: Txn, m: Message) {
    && t.CreateMessage? && (t.roomId, t.user) in db.members
    && m == Message(db.nextMessage + t.gap, t.roomId, t.user, t.body, t.at)
  }

  /** A message is stored by its sender and goes only with its room; all others stay. */
  lemma MessagesAfter(db: Db, t: Txn, m: Message)
    requires Sound(db)
    ensures m in Commit(db, t).messages <==>
      (m in db.messages && !Deletes(db, t, m.roomId)) || Writes(db, t, m)
  {
    if t.DeleteRoom? {
      WithoutKeeps(db.messages, t.roomId);
      if m in db.messages { Housed(db, m); }
    }
  }

  lemma Housed(db: Db, m: Message)
    requires Sound(db) && m in db.messages
    ensures m.roomId in db.rooms
  {
    var i :| 0 <= i < |db.messages| && db.messages[i] == m;
  }

  // ---------------------------------------------------------------- what the answers mean

  /** Each transaction on accounts and friendships answers what it has done. */
  lemma SocialAnswers(db: Db, a: string, b: string)
    requires Sound(db)
    ensures SignupTxn(db, a, b).result == Ok(a !in db.users)
    ensures ChangeNicknameTxn(db, a, b).result == Ok(a in db.users)
    ensures RequestFriendTxn(db, a, b).result ==
      if a == b then Err(CheckViolation)
      else if MakesRequest(db, RequestFriend(a, b), a, b) then Ok(true)
      else if a in db.users && b in db.users then Ok(false) else Err(ForeignKeyViolation)
    ensures AcceptFriendTxn(db, a, b).result == Ok(IsPending(db, a, b))
    ensures RejectFriendTxn(db, a, b).result == Ok(IsPending(db, a, b))
    ensures RemoveFriendTxn(db, a, b).result == Ok(AreFriends(db, a, b))
  {
    PairLaws(a, b);
    if Pair(a, b) in db.friendships && a == b {
      LessAsymmetric(Pair(a, b).0, Pair(a, b).1);
    }
  }

  /** So does each on rooms. */
  lemma RoomAnswers(db: Db, user: string, roomId: int, other: string)
    requires Sound(db)
    ensures DeleteRoomTxn(db, user, roomId).result == Ok(Deletes(db, DeleteRoom(user, roomId), roomId))
    ensures InviteRoomTxn(db, user, roomId, other).result == Ok(
      if (roomId, user) !in db.members then InviteNotPermitted
      else if !AreFriends(db, user, other) then NotFriend
      else if (roomId, other) in db.members then AlreadyMember else Invited)
    ensures LeaveRoomTxn(db, user, roomId).result == Ok(
      if (roomId, user) !in db.members then NotMember
      else if db.rooms[roomId].owner == user then OwnerCannotLeave else Left)
  {
    PairLaws(user, other);
  }

  lemma CreateAnswers(db: Db, owner: string, name: string, gap: nat)
    ensures CreateRoomTxn(db, owner, name, gap).result ==
      if owner in db.users then Ok(db.nextRoom + gap) else Err(ForeignKeyViolation)
  {}

  lemma MessageAnswers(db: Db, roomId: int, user: string, body: string, gap: nat, at: int)
    requires Sound(db)
    ensures CreateMessageTxn(db, roomId, user, body, gap, at).result ==
      Ok(if (roomId, user) in db.members then Some(db.nextMessage + gap) else None)
  {}

  // ---------------------------------------------------------------- over every history

  /** The last transaction of a history, and the states before and after it. */
  lemma LastOf(log: seq<Txn>) returns (init: seq<Txn>, t: Txn)
    requires log != []
    ensures log == init + [t] && |init| == |log| - 1
    ensures Run(log) == Commit(Run(init), t) && Sound(Run(init)) && Sound(Run(log))
    ensures forall i: nat :: i <= |init| ==> log[..i] == init[..i]
    ensures log[..|init|] == init
  {
    init, t := log[..|log| - 1], log[|log| - 1];
    LastStep(init, t);
    EmptyIsSound();
    RunIsSound(EMPTY, init);
    RunIsSound(EMPTY, log);
  }

  ghost predicate OpensAt(log: seq<Txn>, i: nat, id: string) {
    i < |log| && log[i].Signup? && log[i].id == id && id !in Run(log[..i]).users
  }

  ghost predicate RenamesAt(log: seq<Txn>, i: nat, id: string) {
    i < |log| && log[i].ChangeNickname? && log[i].id == id && id in Run(log[..i]).users
  }

  /** The i-th transaction opened the account or named it so, and nobody has renamed it since. */
  ghost predicate NamedSince(log: seq<Txn>, i: nat, id: string, name: string) {
    && ((OpensAt(log, i, id) && name == "guest") || (RenamesAt(log, i, id) && log[i].nickname == name))
    && forall j: nat :: i < j < |log| ==> !RenamesAt(log, j, id)
  }

  /** There is an account exactly if somebody signed up for it, with the password of the first who did; and its nickname
      is the last it was given, `guest` before any. */
  lemma {:induction false} AccountIff(log: seq<Txn>, id: string, pw: string, name: string)
    ensures var users := Run(log).users;
      && (id in users && users[id].pw == pw <==> exists i: nat :: OpensAt(log, i, id) && log[i].pw == pw)
      && (id in users && users[id].nickname == name <==> exists i: nat :: NamedSince(log, i, id, name))
  {
    if log != [] {
      var init, t := LastOf(log);
      AccountIff(init, id, pw, name);
      UsersAfter(Run(init), t, id);
      AccountSteps(init, t, log, id, name);
      var before, after := Run(init).users, Run(log).users;
      if id in before && before[id].pw == pw {
        var i: nat :| OpensAt(init, i, id) && init[i].pw == pw;
        assert OpensAt(log, i, id);
      }
      if id in before && before[id].nickname == name && after[id].nickname == name && !RenamesAt(log, |init|, id) {
        var i: nat :| NamedSince(init, i, id, name);
        assert NamedSince(log, i, id, name);
      }
    }
  }

  lemma AccountSteps(init: seq<Txn>, t: Txn, log: seq<Txn>, id: string, name: string)
    requires log == init + [t] && (forall i: nat :: i <= |init| ==> log[..i] == init[..i]) && log[..|init|] == init
    ensures forall i: nat :: i < |init| ==> (OpensAt(log, i, id) <==> OpensAt(init, i, id))
    ensures forall i: nat :: i < |init| ==> (RenamesAt(log, i, id) <==> RenamesAt(init, i, id))
    ensures OpensAt(log, |init|, id) <==> t.Signup? && t.id == id && id !in Run(init).users
    ensures RenamesAt(log, |init|, id) <==> t.ChangeNickname? && t.id == id && id in Run(init).users
    ensures forall i: nat :: i < |init| ==>
      (NamedSince(log, i, id, name) <==> NamedSince(init, i, id, name) && !RenamesAt(log, |init|, id))
    ensures NamedSince(log, |init|, id, name) <==>
      (OpensAt(log, |init|, id) && name == "guest") || (RenamesAt(log, |init|, id) && t.nickname == name)
  {}

  predicate UnfriendsAt(log: seq<Txn>, i: nat, a: string, b: string) {
    i < |log| && Unfriends(log[i], a, b)
  }

  /** The i-th transaction made them friends, and none has parted them since. */
  ghost predicate FriendsSince(log: seq<Txn>, i: nat, a: string, b: string) {
    && i < |log| && Befriends(Run(log[..i]), log[i], a, b)
    && forall j: nat :: i < j < |log| ==> !UnfriendsAt(log, j, a, b)
  }

  /** Two users are friends exactly if a pending request between them was accepted and neither has removed the other
      since. */
  lemma {:induction false} FriendsIff(log: seq<Txn>, a: string, b: string)
    ensures AreFriends(Run(log), a, b) <==> exists i: nat :: FriendsSince(log, i, a, b)
  {
    if log != [] {
      var init, t := LastOf(log);
      FriendsIff(init, a, b);
      FriendsAfter(Run(init), t, a, b);
      FriendsSteps(init, t, log, a, b);
      if AreFriends(Run(init), a, b) && !Unfriends(t, a, b) {
        var i: nat :| FriendsSince(init, i, a, b);
        assert FriendsSince(log, i, a, b);
      }
    }
  }

  lemma FriendsSteps(init: seq<Txn>, t: Txn, log: seq<Txn>, a: string, b: string)
    requires log == init + [t] && (forall i: nat :: i <= |init| ==> log[..i] == init[..i]) && log[..|init|] == init
    ensures forall i: nat :: i < |init| ==> (UnfriendsAt(log, i, a, b) <==> UnfriendsAt(init, i, a, b))
    ensures UnfriendsAt(log, |init|, a, b) <==> Unfriends(t, a, b)
    ensures forall i: nat :: i < |init| ==>
      (FriendsSince(log, i, a, b) <==> FriendsSince(init, i, a, b) && !Unfriends(t, a, b))
    ensures FriendsSince(log, |init|, a, b) <==> Befriends(Run(init), t, a, b)
  {}

  ghost predicate DeletesAt(log: seq<Txn>, i: nat, roomId: int) {
    i < |log| && Deletes(Run(log[..i]), log[i], roomId)
  }

  /** The i-th transaction created the room, and its owner has not deleted it since. */
  ghost predicate RoomSince(log: seq<Txn>, i: nat, roomId: int) {
    && i < |log| && Creates(Run(log[..i]), log[i], roomId)
    && forall j: nat :: i < j < |log| ==> !DeletesAt(log, j, roomId)
  }

  /** A room exists exactly if it was created and not deleted since, and has the name and owner it was created with. */
  lemma {:induction false} RoomIff(log: seq<Txn>, roomId: int, room: Room)
    ensures roomId in Run(log).rooms && Run(log).rooms[roomId] == room <==>
      exists i: nat :: RoomSince(log, i, roomId) && room == Room(log[i].name, log[i].owner)
  {
    if log != [] {
      var init, t := LastOf(log);
      RoomIff(init, roomId, room);
      RoomsAfter(Run(init), t, roomId);
      RoomSteps(init, t, log, roomId);
      if roomId in Run(init).rooms && Run(init).rooms[roomId] == room && !Deletes(Run(init), t, roomId) {
        var i: nat :| RoomSince(init, i, roomId) && room == Room(init[i].name, init[i].owner);
        assert RoomSince(log, i, roomId) && log[i] == init[i];
      }
      if Creates(Run(init), t, roomId) && room == Room(t.name, t.owner) {
        assert RoomSince(log, |init|, roomId);
      }
    }
  }

  lemma RoomSteps(init: seq<Txn>, t: Txn, log: seq<Txn>, roomId: int)
    requires log == init + [t] && (forall i: nat :: i <= |init| ==> log[..i] == init[..i]) && log[..|init|] == init
    ensures forall i: nat :: i < |init| ==> (DeletesAt(log, i, roomId) <==> DeletesAt(init, i, roomId))
    ensures DeletesAt(log, |init|, roomId) <==> Deletes(Run(init), t, roomId)
    ensures forall i: nat :: i < |init| ==>
      (RoomSince(log, i, roomId) <==> RoomSince(init, i, roomId) && !Deletes(Run(init), t, roomId))
    ensures RoomSince(log, |init|, roomId) <==> Creates(Run(init), t, roomId)
  {}

  ghost predicate DepartsAt(log: seq<Txn>, i: nat, roomId: int, user: string) {
    i < |log| && Departs(Run(log[..i]), log[i], roomId, user)
  }

  /** The i-th transaction made the user a member; since, the room has not been deleted and the user has not left. */
  ghost predicate MemberSince(log: seq<Txn>, i: nat, roomId: int, user: string) {
    && i < |log| && Joins(Run(log[..i]), log[i], roomId, user)
    && forall j: nat :: i < j < |log| ==> !DepartsAt(log, j, roomId, user)
  }

  /** Members are exactly those who created the room or were invited by a member who was a friend, and have not left. */
  lemma {:induction false} MemberIff(log: seq<Txn>, roomId: int, user: string)
    ensures (roomId, user) in Run(log).members <==> exists i: nat :: MemberSince(log, i, roomId, user)
  {
    if log != [] {
      var init, t := LastOf(log);
      MemberIff(init, roomId, user);
      MembersAfter(Run(init), t, roomId, user);
      MemberSteps(init, t, log, roomId, user);
      if (roomId, user) in Run(init).members && !Departs(Run(init), t, roomId, user) {
        var i: nat :| MemberSince(init, i, roomId, user);
        assert MemberSince(log, i, roomId, user);
      }
    }
  }

  lemma MemberSteps(init: seq<Txn>, t: Txn, log: seq<Txn>, roomId: int, user: string)
    requires log == init + [t] && (forall i: nat :: i <= |init| ==> log[..i] == init[..i]) && log[..|init|] == init
    ensures forall i: nat :: i < |init| ==> (DepartsAt(log, i, roomId, user) <==> DepartsAt(init, i, roomId, user))
    ensures DepartsAt(log, |init|, roomId, user) <==> Departs(Run(init), t, roomId, user)
    ensures forall i: nat :: i < |init| ==>
      (MemberSince(log, i, roomId, user) <==>
        MemberSince(init, i, roomId, user) && !Departs(Run(init), t, roomId, user))
    ensures MemberSince(log, |init|, roomId, user) <==> Joins(Run(init), t, roomId, user)
  {}

  /** Stored are exactly the messages that members have written and whose room has not been deleted since, by id. */
  lemma {:induction false} StoredIff(log: seq<Txn>, m: Message)
    ensures m in Run(log).messages <==> m.roomId in Run(log).rooms && exists i: nat :: WrittenAt(log, i, m)
    ensures IdsAscend(Run(log).messages)
  {
    if log != [] {
      var init, t := LastOf(log);
      StoredIff(init, m);
      MessagesAfter(Run(init), t, m);
      RoomsAfter(Run(init), t, m.roomId);
      WrittenSteps(init, t, log, m);
      if m in Run(log).messages {
        MessagesWereWritten(log, m);
      }
      if !(m.roomId in Run(init).rooms) && exists i: nat :: WrittenAt(init, i, m) {
        var i: nat :| WrittenAt(init, i, m);
        GoneForGood(init, i, m, t);
      }
    }
  }

  lemma WrittenSteps(init: seq<Txn>, t: Txn, log: seq<Txn>, m: Message)
    requires log == init + [t] && (forall i: nat :: i <= |init| ==> log[..i] == init[..i]) && log[..|init|] == init
    ensures forall i: nat :: i < |init| ==> (WrittenAt(log, i, m) <==> WrittenAt(init, i, m))
    ensures WrittenAt(log, |init|, m) <==> Writes(Run(init), t, m)
  {}

  /** A room that has been written in and is gone does not come back. */
  lemma GoneForGood(init: seq<Txn>, i: nat, m: Message, t: Txn)
    requires WrittenAt(init, i, m) && m.roomId !in Run(init).rooms
    ensures m.roomId !in Commit(Run(init), t).rooms
  {
    EmptyIsSound();
    RunIsSound(EMPTY, init[..i]);
    KnownIds(init[..i], init[i..], m.roomId);
    assert init[..i] + init[i..] == init;
    RoomIdsOfOneStep(Run(init), t, m.roomId);
  }

  lemma NextRoomGrows(db: Db, t: Txn)
    ensures Commit(db, t).nextRoom >= db.nextRoom
  {}

  lemma {:induction false} KnownIds(log: seq<Txn>, more: seq<Txn>, roomId: int)
    requires roomId < Run(log).nextRoom
    ensures roomId < Run(log + more).nextRoom
    decreases |more|
  {
    if more == [] {
      assert log + more == log;
    } else {
      var init, t := more[..|more| - 1], more[|more| - 1];
      KnownIds(log, init, roomId);
      LastStep(log + init, t);
      NextRoomGrows(Run(log + init), t);
      assert log + more == log + init + [t];
    }
  }
}
