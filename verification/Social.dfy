/** What holds of friendships and requests over every history of transactions. */
module Social {
  import opened Ordering
  import opened Tables

  /** A friend list names exactly the users one is friends with, so it is symmetric and never names oneself. */
  lemma FriendListIsExact(db: Db, a: string, b: string)
    requires Sound(db)
    ensures b in FriendsOf(db, a) <==> AreFriends(db, a, b)
    ensures b in FriendsOf(db, a) <==> a in FriendsOf(db, b)
    ensures a !in FriendsOf(db, a)
  {
    ListedIffFriends(db, a, b);
    ListedIffFriends(db, b, a);
    ListedIffFriends(db, a, a);
    PairLaws(a, b);
    if AreFriends(db, a, a) { LessAsymmetric(Pair(a, a).0, Pair(a, a).1); }
  }

  lemma ListedIffFriends(db: Db, a: string, b: string)
    requires FriendshipsSound(db)
    ensures b in FriendsOf(db, a) <==> AreFriends(db, a, b)
  {
    PairLaws(a, b);
    if b in FriendsOf(db, a) {
      var row :| row in db.friendships && (row.0 == a || row.1 == a) && FriendIn(row, a) == b;
      LessAsymmetric(row.0, row.1);
      assert row == (a, b) || row == (b, a);
      assert Pair(row.0, row.1) == row;
    }
    if AreFriends(db, a, b) {
      var row := Pair(a, b);
      assert (row.0 == a || row.1 == a) && FriendIn(row, a) == b;
    }
  }

  /** Distinct rows name distinct friends: the list has no duplicates and misses no row. */
  lemma RowsNameDistinctFriends(db: Db, user: string, r: (string, string), s: (string, string))
    requires Sound(db) && r in db.friendships && s in db.friendships
    requires (r.0 == user || r.1 == user) && (s.0 == user || s.1 == user)
    requires FriendIn(r, user) == FriendIn(s, user)
    ensures r == s
  {
    assert Less(r.0, r.1) && Less(s.0, s.1);
    LessAsymmetric(r.0, r.1);
    LessAsymmetric(s.0, s.1);
  }

  // ---------------------------------------------------------------- accepted requests

  lemma AcceptedStaysOnce(db: Db, t: Txn, from: string, to: string)
    requires IsAccepted(db, from, to)
    ensures IsAccepted(Commit(db, t), from, to)
  {}

  /** 'accepted' is absorbing: no transaction ever changes such a request row again. */
  lemma {:induction false} AcceptedIsAbsorbing(db: Db, log: seq<Txn>, from: string, to: string)
    requires IsAccepted(db, from, to)
    ensures IsAccepted(RunFrom(db, log), from, to)
  {
    if log != [] {
      AcceptedIsAbsorbing(db, log[..|log| - 1], from, to);
      AcceptedStaysOnce(RunFrom(db, log[..|log| - 1]), log[|log| - 1], from, to);
    }
  }

  lemma EstrangedStaysOnce(db: Db, t: Txn, a: string, b: string)
    requires IsAccepted(db, a, b) && IsAccepted(db, b, a) && !AreFriends(db, a, b)
    requires FriendshipsSound(db)
    ensures !AreFriends(Commit(db, t), a, b)
  {
    if t.AcceptFriend? && IsPending(db, t.from, t.to) {
      PairLaws(a, b);
      PairLaws(t.from, t.to);
    }
  }

  /** Two users whose requests were accepted in both directions and who are no longer friends
      can never become friends again. */
  lemma {:induction false} EstrangedForever(db: Db, log: seq<Txn>, a: string, b: string)
    requires Sound(db)
    requires IsAccepted(db, a, b) && IsAccepted(db, b, a) && !AreFriends(db, a, b)
    ensures !AreFriends(RunFrom(db, log), a, b)
  {
    if log != [] {
      var before := RunFrom(db, log[..|log| - 1]);
      EstrangedForever(db, log[..|log| - 1], a, b);
      AcceptedIsAbsorbing(db, log[..|log| - 1], a, b);
      AcceptedIsAbsorbing(db, log[..|log| - 1], b, a);
      RunIsSound(db, log[..|log| - 1]);
      EstrangedStaysOnce(before, log[|log| - 1], a, b);
    }
  }

  lemma FriendsAreMutual(db: Db, a: string, b: string)
    ensures AreFriends(db, a, b) <==> AreFriends(db, b, a)
  {
    PairLaws(a, b);
  }

  /** A direction that has not been accepted can always be walked: ask, then accept. */
  lemma AskAndAccept(db: Db, from: string, to: string)
    requires Sound(db) && from in db.users && to in db.users && from != to
    requires !AreFriends(db, from, to) && !IsAccepted(db, from, to)
    ensures AreFriends(RunFrom(db, [RequestFriend(from, to), AcceptFriend(from, to)]), from, to)
  {
    var log := [RequestFriend(from, to), AcceptFriend(from, to)];
    var asked := Commit(db, log[0]);
    assert log[..2] == log && log[..1] == [log[0]] && log[..0] == [];
    RunStep(db, log, 0);
    RunStep(db, log, 1);
    assert IsPending(asked, from, to);
  }

  /** Some history from here on makes them friends. */
  ghost predicate CanBefriend(db: Db, a: string, b: string) {
    exists log :: AreFriends(RunFrom(db, log), a, b)
  }

  lemma Witness(db: Db, log: seq<Txn>, a: string, b: string)
    requires AreFriends(RunFrom(db, log), a, b)
    ensures CanBefriend(db, a, b)
  {}

  /** Exactly when two distinct users who are not friends can still become friends: when at least one
      direction has not been accepted yet. */
  lemma CanBefriendIff(db: Db, a: string, b: string)
    requires Sound(db) && a in db.users && b in db.users && a != b && !AreFriends(db, a, b)
    ensures CanBefriend(db, a, b) <==> !(IsAccepted(db, a, b) && IsAccepted(db, b, a))
  {
    PairLaws(a, b);
    if !IsAccepted(db, a, b) {
      AskAndAccept(db, a, b);
    } else if !IsAccepted(db, b, a) {
      var log := [RequestFriend(b, a), AcceptFriend(b, a)];
      AskAndAccept(db, b, a);
      FriendsAreMutual(RunFrom(db, log), a, b);
      Witness(db, log, a, b);
    } else {
      forall log ensures !AreFriends(RunFrom(db, log), a, b) {
        EstrangedForever(db, log, a, b);
      }
    }
  }
}

/** Where memberships and messages come from, over every history of transactions. */
module Provenance {
  import opened Tables

  lemma EmptyIsSound()
    ensures Sound(EMPTY)
  {}

  /** Each existing room has exactly one owner row, and it is its owner's. */
  lemma OneOwnerRow(log: seq<Txn>, roomId: int, user: string)
    requires roomId in Run(log).rooms
    ensures var db := Run(log);
      (roomId, user) in db.members && db.members[(roomId, user)] == Owner <==> user == db.rooms[roomId].owner
  {
    EmptyIsSound();
    RunIsSound(EMPTY, log);
  }

  /** The i-th transaction made `user` a member of the room, who has been one ever since: it is an invitation, and
      the inviter was then a member and then a friend. */
  ghost predicate InvitedAt(log: seq<Txn>, i: nat, roomId: int, user: string) {
    && i < |log| && log[i].InviteRoom? && log[i].roomId == roomId && log[i].other == user
    && (roomId, log[i].user) in Run(log[..i]).members
    && AreFriends(Run(log[..i]), log[i].user, user)
    && (roomId, user) !in Run(log[..i]).members
    && forall j :: i < j <= |log| ==> (roomId, user) in Run(log[..j]).members
  }

  lemma InvitedAtGrows(log: seq<Txn>, t: Txn, i: nat, roomId: int, user: string)
    requires InvitedAt(log, i, roomId, user) && (roomId, user) in Run(log + [t]).members
    ensures InvitedAt(log + [t], i, roomId, user)
  {
    var log' := log + [t];
    forall j | i < j <= |log'| ensures (roomId, user) in Run(log'[..j]).members {
      assert log'[..j] == if j <= |log| then log[..j] else log';
    }
    assert log'[..i] == log[..i];
  }

  /** One transaction makes a user a member only by an invitation or by creating the room. */
  lemma MembersOfOneStep(db: Db, t: Txn, roomId: int, user: string)
    requires Sound(db) && (roomId, user) in Commit(db, t).members && (roomId, user) !in db.members
    ensures (t.InviteRoom? && t.roomId == roomId && t.other == user
             && (roomId, t.user) in db.members && AreFriends(db, t.user, user))
         || (t.CreateRoom? && roomId in Commit(db, t).rooms && Commit(db, t).rooms[roomId].owner == user)
  {}

  /** Every member is the room's owner, or was invited by a then-member who was then a friend. */
  lemma {:induction false} MembersWereInvited(log: seq<Txn>, roomId: int, user: string)
    requires (roomId, user) in Run(log).members
    ensures roomId in Run(log).rooms
    ensures user == Run(log).rooms[roomId].owner || exists i: nat :: InvitedAt(log, i, roomId, user)
    decreases |log|, 1
  {
    EmptyIsSound();
    RunIsSound(EMPTY, log);
    if log != [] {
      var init, t := log[..|log| - 1], log[|log| - 1];
      assert log == init + [t] && log[..|init|] == init;
      RunIsSound(EMPTY, init);
      MemberStep(init, t, roomId, user);
    }
  }

  lemma {:induction false} MemberStep(init: seq<Txn>, t: Txn, roomId: int, user: string)
    requires Sound(Run(init)) && Sound(Commit(Run(init), t))
    requires (roomId, user) in Commit(Run(init), t).members
    ensures user == Commit(Run(init), t).rooms[roomId].owner || exists i: nat :: InvitedAt(init + [t], i, roomId, user)
    decreases |init| + 1, 0
  {
    var before := Run(init);
    if (roomId, user) in before.members {
      MembersWereInvited(init, roomId, user);
      OwnersStay(before, t, roomId);
      if user != before.rooms[roomId].owner {
        var i: nat :| InvitedAt(init, i, roomId, user);
        LastStep(init, t);
        InvitedAtGrows(init, t, i, roomId, user);
      }
    } else {
      MembersOfOneStep(before, t, roomId, user);
      if t.InviteRoom? {
        LastStep(init, t);
        assert InvitedAt(init + [t], |init|, roomId, user);
      }
    }
  }

  lemma LastStep(init: seq<Txn>, t: Txn)
    ensures Run(init + [t]) == Commit(Run(init), t)
    ensures (init + [t])[..|init|] == init && (init + [t])[..|init| + 1] == init + [t]
  {
    assert (init + [t])[..|init|] == init;
  }

  lemma OwnersStay(db: Db, t: Txn, roomId: int)
    requires Sound(db) && roomId in db.rooms && roomId in Commit(db, t).rooms
    ensures Commit(db, t).rooms[roomId].owner == db.rooms[roomId].owner
  {}

  /** The i-th transaction wrote the message, under the next free id, and its sender was then a member. */
  ghost predicate WrittenAt(log: seq<Txn>, i: nat, m: Message) {
    && i < |log| && log[i].CreateMessage? && log[i].roomId == m.roomId && log[i].user == m.sender
    && log[i].body == m.body && log[i].at == m.at && m.id == Run(log[..i]).nextMessage + log[i].gap
    && (m.roomId, m.sender) in Run(log[..i]).members
  }

  lemma WrittenAtGrows(log: seq<Txn>, t: Txn, i: nat, m: Message)
    requires WrittenAt(log, i, m)
    ensures WrittenAt(log + [t], i, m)
  {
    assert (log + [t])[..i] == log[..i];
  }

  lemma MessagesOfOneStep(db: Db, t: Txn, m: Message)
    requires m in Commit(db, t).messages && m !in db.messages
    ensures t.CreateMessage? && t.roomId == m.roomId && t.user == m.sender && t.body == m.body && t.at == m.at
    ensures m.id == db.nextMessage + t.gap
    ensures (m.roomId, m.sender) in db.members
  {
    if t.DeleteRoom? {
      WithoutKeeps(db.messages, t.roomId);
    }
  }

  /** Every stored message was written by someone who was a member of its room at that moment. */
  lemma {:induction false} MessagesWereWritten(log: seq<Txn>, m: Message)
    requires m in Run(log).messages
    ensures m.roomId in Run(log).rooms
    ensures exists i: nat :: WrittenAt(log, i, m)
  {
    EmptyIsSound();
    RunIsSound(EMPTY, log);
    if log != [] {
      var init, t := log[..|log| - 1], log[|log| - 1];
      assert log == init + [t] && log[..|init|] == init;
      if m in Run(init).messages {
        MessagesWereWritten(init, m);
        var i: nat :| WrittenAt(init, i, m);
        WrittenAtGrows(init, t, i, m);
      } else {
        MessagesOfOneStep(Run(init), t, m);
        assert WrittenAt(log, |init|, m);
      }
    }
  }

  lemma RoomIdsOfOneStep(db: Db, t: Txn, roomId: int)
    requires roomId < db.nextRoom && roomId !in db.rooms
    ensures roomId !in Commit(db, t).rooms && roomId < Commit(db, t).nextRoom
  {}

  /** Room identities are never reused: once a room is gone, no later history brings its id back. */
  lemma {:induction false} RoomIdsAreFresh(db: Db, log: seq<Txn>, roomId: int)
    requires roomId < db.nextRoom && roomId !in db.rooms
    ensures roomId !in RunFrom(db, log).rooms && roomId < RunFrom(db, log).nextRoom
  {
    if log != [] {
      var init := log[..|log| - 1];
      RoomIdsAreFresh(db, init, roomId);
      RoomIdsOfOneStep(RunFrom(db, init), log[|log| - 1], roomId);
    }
  }
}
