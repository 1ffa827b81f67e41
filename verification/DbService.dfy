/** The database service: one method per transaction. A transaction works on its own copy of the tables
    and publishes it by committing, so every early exit and every failure leaves the tables untouched. */
module DbService {
  import opened Text
  import opened Ordering
  import opened Tables
  import History

  datatype RoomInfo = RoomInfo(id: int, name: string, owner: string, memberCount: nat)

  function MembersOf(db: Db, roomId: int): set<string> {
    set m | m in db.members && m.0 == roomId :: m.1
  }

  predicate Describes(db: Db, room: RoomInfo) {
    && room.id in db.rooms
    && room.name == db.rooms[room.id].name && room.owner == db.rooms[room.id].owner
    && room.memberCount == |MembersOf(db, room.id)|
  }

  /** The rows of list_rooms for these rooms. */
  function InfosOf(db: Db, ids: seq<int>): seq<RoomInfo> {
    seq(|ids|, i requires 0 <= i < |ids| =>
      if ids[i] in db.rooms
      then RoomInfo(ids[i], db.rooms[ids[i]].name, db.rooms[ids[i]].owner, |MembersOf(db, ids[i])|)
      else RoomInfo(ids[i], "", "", 0))
  }

  lemma InfosAreUnique(db: Db, rooms: seq<RoomInfo>)
    requires forall i :: 0 <= i < |rooms| ==> Describes(db, rooms[i])
    ensures rooms == InfosOf(db, RoomIds(rooms))
  {
    var again := InfosOf(db, RoomIds(rooms));
    assert forall i :: 0 <= i < |rooms| ==> RoomIds(rooms)[i] == rooms[i].id && again[i] == rooms[i];
  }

  /** Who has a pending request to the user. */
  function PendingTo(db: Db, user: string): set<string> {
    set k | k in db.requests && k.1 == user && db.requests[k] == Pending :: k.0
  }

  lemma PendingToIsPending(db: Db, from: string, user: string)
    ensures from in PendingTo(db, user) <==> IsPending(db, from, user)
  {
    if IsPending(db, from, user) {
      assert (from, user) in db.requests && (from, user).0 == from;
    }
  }

  /** The rows name exactly these users, each once. */
  predicate IsListing(rows: seq<string>, users: set<string>) {
    (set r | r in rows) == users && forall i, j :: 0 <= i < j < |rows| ==> rows[i] != rows[j]
  }

  lemma AscendingIsListing(rows: seq<string>, users: set<string>)
    requires Lists(Less, rows, users)
    ensures IsListing(rows, users)
  {
    TextOrder();
    assert forall u :: u in (set r | r in rows) <==> u in users;
    assert (set r | r in rows) == users;
  }

  lemma ListedArePending(db: Db, user: string, rows: seq<string>)
    requires IsListing(rows, PendingTo(db, user))
    ensures forall from :: from in rows <==> IsPending(db, from, user)
  {
    forall from ensures from in rows <==> IsPending(db, from, user) {
      PendingToIsPending(db, from, user);
      assert from in rows <==> from in (set r | r in rows);
    }
  }

  /** The pending requests to the user in the order of their creation, which the tables do not keep: `order` if it
      lists them, otherwise by name. */
  ghost function PendingRows(db: Db, user: string, order: seq<string>): (rows: seq<string>)
    ensures IsListing(rows, PendingTo(db, user))
  {
    TextOrder();
    var byName := SortedList(Less, PendingTo(db, user));
    AscendingIsListing(byName, PendingTo(db, user));
    if IsListing(order, PendingTo(db, user)) then order else byName
  }

  class Service {
    var db: Db

    constructor ()
      ensures db == EMPTY
    {
      db := EMPTY;
    }

    /** The nickname of the account, if the password is the stored one. */
    method Login(id: string, pw: string, failure: Option<DbError>) returns (r: Result<Option<string>, DbError>)
      ensures failure.Some? ==> r == Err(failure.value)
      ensures failure.None? ==> r.Ok? && (r.value.Some? <==> id in db.users && db.users[id].pw == pw)
      ensures failure.None? && r.value.Some? ==> r.value.value == db.users[id].nickname
    {
      if failure.Some? { return Err(failure.value); }
      if id in db.users && db.users[id].pw == pw { return Ok(Some(db.users[id].nickname)); }
      return Ok(None);
    }

    method Signup(id: string, pw: string, failure: Option<DbError>) returns (r: Result<bool, DbError>)
      modifies this
      ensures failure.Some? ==> r == Err(failure.value) && db == old(db)
      ensures failure.None? ==> Outcome(r, db) == SignupTxn(old(db), id, pw)
    {
      if failure.Some? { return Err(failure.value); }
      var inserted := id !in db.users;
      if inserted { db := db.(users := db.users[id := User(pw, "guest")]); }
      return Ok(inserted);
    }

    method ChangeNickname(id: string, nickname: string, failure: Option<DbError>) returns (r: Result<bool, DbError>)
      modifies this
      ensures failure.Some? ==> r == Err(failure.value) && db == old(db)
      ensures failure.None? ==> Outcome(r, db) == ChangeNicknameTxn(old(db), id, nickname)
    {
      if failure.Some? { return Err(failure.value); }
      var updated := id in db.users;
      if updated { db := db.(users := db.users[id := db.users[id].(nickname := nickname)]); }
      return Ok(updated);
    }

    method RequestFriend(from: string, to: string, failure: Option<DbError>) returns (r: Result<bool, DbError>)
      modifies this
      ensures failure.Some? ==> r == Err(failure.value) && db == old(db)
      ensures failure.None? ==> Outcome(r, db) == RequestFriendTxn(old(db), from, to)
    {
      if failure.Some? { return Err(failure.value); }
      if AreFriends(db, from, to) { return Ok(false); }
      if from == to { return Err(CheckViolation); }
      var row := (from, to);
      if row in db.requests {
        if db.requests[row] != Rejected && db.requests[row] != Canceled { return Ok(false); }
      } else if from !in db.users || to !in db.users {
        return Err(ForeignKeyViolation);
      }
      db := db.(requests := db.requests[row := Pending]);
      return Ok(true);
    }

    method AcceptFriendRequest(from: string, to: string, failure: Option<DbError>) returns (r: Result<bool, DbError>)
      modifies this
      ensures failure.Some? ==> r == Err(failure.value) && db == old(db)
      ensures failure.None? ==> Outcome(r, db) == AcceptFriendTxn(old(db), from, to)
    {
      if failure.Some? { return Err(failure.value); }
      if !IsPending(db, from, to) { return Ok(false); }
      var tx := db.(requests := db.requests[(from, to) := Accepted]);
      var row := Pair(from, to);
      if row !in tx.friendships {
        PairLaws(from, to);
        if row.0 == row.1 { return Err(CheckViolation); }
        if row.0 !in tx.users || row.1 !in tx.users { return Err(ForeignKeyViolation); }
      }
      tx := tx.(friendships := tx.friendships + {row});
      db := tx;
      return Ok(true);
    }

    method RejectFriendRequest(from: string, to: string, failure: Option<DbError>) returns (r: Result<bool, DbError>)
      modifies this
      ensures failure.Some? ==> r == Err(failure.value) && db == old(db)
      ensures failure.None? ==> Outcome(r, db) == RejectFriendTxn(old(db), from, to)
    {
      if failure.Some? { return Err(failure.value); }
      if !IsPending(db, from, to) { return Ok(false); }
      db := db.(requests := db.requests[(from, to) := Rejected]);
      return Ok(true);
    }

    method RemoveFriend(user: string, other: string, failure: Option<DbError>) returns (r: Result<bool, DbError>)
      modifies this
      ensures failure.Some? ==> r == Err(failure.value) && db == old(db)
      ensures failure.None? ==> Outcome(r, db) == RemoveFriendTxn(old(db), user, other)
    {
      if failure.Some? { return Err(failure.value); }
      var row := Pair(user, other);
      var removed := row in db.friendships;
      if removed { db := db.(friendships := db.friendships - {row}); }
      return Ok(removed);
    }

    method CreateRoom(owner: string, name: string, gap: nat, failure: Option<DbError>) returns (r: Result<int, DbError>)
      modifies this
      ensures failure.Some? ==> r == Err(failure.value) && db == old(db)
      ensures failure.None? ==> Outcome(r, db) == CreateRoomTxn(old(db), owner, name, gap)
    {
      if failure.Some? { return Err(failure.value); }
      if owner !in db.users { return Err(ForeignKeyViolation); }
      var id := db.nextRoom + gap;
      var tx := db.(rooms := db.rooms[id := Room(name, owner)], nextRoom := id + 1);
      if (id, owner) !in tx.members {
        tx := tx.(members := tx.members[(id, owner) := Owner]);
      }
      db := tx;
      return Ok(id);
    }

    method DeleteRoom(user: string, roomId: int, failure: Option<DbError>) returns (r: Result<bool, DbError>)
      modifies this
      ensures failure.Some? ==> r == Err(failure.value) && db == old(db)
      ensures failure.None? ==> Outcome(r, db) == DeleteRoomTxn(old(db), user, roomId)
    {
      if failure.Some? { return Err(failure.value); }
      if roomId !in db.rooms || db.rooms[roomId].owner != user { return Ok(false); }
      db := db.(rooms := db.rooms - {roomId},
                members := map m | m in db.members && m.0 != roomId :: db.members[m],
                messages := Without(db.messages, roomId));
      return Ok(true);
    }

    method InviteRoom(user: string, roomId: int, other: string, failure: Option<DbError>)
      returns (r: Result<InviteResult, DbError>)
      modifies this
      ensures failure.Some? ==> r == Err(failure.value) && db == old(db)
      ensures failure.None? ==> Outcome(r, db) == InviteRoomTxn(old(db), user, roomId, other)
    {
      if failure.Some? { return Err(failure.value); }
      if (roomId, user) !in db.members { return Ok(InviteNotPermitted); }
      if Pair(user, other) !in db.friendships { return Ok(NotFriend); }
      if (roomId, other) in db.members { return Ok(AlreadyMember); }
      if other !in db.users || roomId !in db.rooms { return Err(ForeignKeyViolation); }
      db := db.(members := db.members[(roomId, other) := Member]);
      return Ok(Invited);
    }

    method CreateRoomMessage(roomId: int, sender: string, body: string, gap: nat, at: int, failure: Option<DbError>)
      returns (r: Result<Option<int>, DbError>)
      modifies this
      ensures failure.Some? ==> r == Err(failure.value) && db == old(db)
      ensures failure.None? ==> Outcome(r, db) == CreateMessageTxn(old(db), roomId, sender, body, gap, at)
    {
      if failure.Some? { return Err(failure.value); }
      if (roomId, sender) !in db.members { return Ok(None); }
      if sender !in db.users || roomId !in db.rooms { return Err(ForeignKeyViolation); }
      var id := db.nextMessage + gap;
      db := db.(messages := db.messages + [Message(id, roomId, sender, body, at)], nextMessage := id + 1);
      return Ok(Some(id));
    }

    method LeaveRoom(user: string, roomId: int, failure: Option<DbError>) returns (r: Result<LeaveResult, DbError>)
      modifies this
      ensures failure.Some? ==> r == Err(failure.value) && db == old(db)
      ensures failure.None? ==> Outcome(r, db) == LeaveRoomTxn(old(db), user, roomId)
    {
      if failure.Some? { return Err(failure.value); }
      if roomId !in db.rooms { return Ok(NotMember); }
      if db.rooms[roomId].owner == user { return Ok(OwnerCannotLeave); }
      if (roomId, user) !in db.members { return Ok(NotMember); }
      db := db.(members := db.members - {(roomId, user)});
      return Ok(Left);
    }

    /** The user's friends, sorted. */
    method ListFriends(user: string, failure: Option<DbError>) returns (r: Result<seq<string>, DbError>)
      ensures failure.Some? ==> r == Err(failure.value)
      ensures failure.None? ==> r.Ok? && Lists(Less, r.value, FriendsOf(db, user))
    {
      if failure.Some? { return Err(failure.value); }
      TextOrder();
      var out := Sort(Less, FriendsOf(db, user));
      return Ok(out);
    }

    /** The users with a pending request to this one, each once. */
    method ListFriendRequests(user: string, order: seq<string>, failure: Option<DbError>)
      returns (r: Result<seq<string>, DbError>)
      ensures failure.Some? ==> r == Err(failure.value)
      ensures failure.None? ==> r == Ok(PendingRows(db, user, order)) && IsListing(r.value, PendingTo(db, user))
      ensures failure.None? ==> forall from :: from in r.value <==> IsPending(db, from, user)
    {
      ListedArePending(db, user, PendingRows(db, user, order));
      if failure.Some? { return Err(failure.value); }
      if IsListing(order, PendingTo(db, user)) { return Ok(order); }
      TextOrder();
      var out := Sort(Less, PendingTo(db, user));
      ListIsUnique(Less, out, SortedList(Less, PendingTo(db, user)), PendingTo(db, user));
      return Ok(out);
    }

    /** The rooms a user is in, by ascending id, each with its owner and its number of members. */
    method ListRooms(user: string, failure: Option<DbError>) returns (r: Result<seq<RoomInfo>, DbError>)
      ensures failure.Some? ==> r == Err(failure.value)
      ensures failure.None? ==> r.Ok? && Lists(Below, RoomIds(r.value), RoomsOf(db, user))
      ensures failure.None? ==> forall i :: 0 <= i < |r.value| ==> Describes(db, r.value[i])
    {
      if failure.Some? { return Err(failure.value); }
      var ids := Sort(Below, RoomsOf(db, user));
      var out: seq<RoomInfo> := [];
      for i := 0 to |ids|
        invariant |out| == i
        invariant forall j :: 0 <= j < i ==> Describes(db, out[j]) && out[j].id == ids[j]
      {
        assert ids[i] in RoomsOf(db, user);
        out := out + [RoomInfo(ids[i], db.rooms[ids[i]].name, db.rooms[ids[i]].owner, |MembersOf(db, ids[i])|)];
      }
      assert RoomIds(out) == ids;
      return Ok(out);
    }

    /** The last messages of a room for a member, nothing for anyone else. */
    method ListRoomMessages(user: string, roomId: int, limit: nat, failure: Option<DbError>)
      returns (r: Result<Option<seq<Message>>, DbError>)
      ensures failure.Some? ==> r == Err(failure.value)
      ensures failure.None? ==> r == Ok(Read(db, user, roomId, limit))
    {
      if failure.Some? { return Err(failure.value); }
      if (roomId, user) !in db.members { return Ok(None); }
      return Ok(Some(History.Window(History.InRoom(db.messages, roomId), limit)));
    }
  }

  function RoomIds(rooms: seq<RoomInfo>): seq<int> {
    seq(|rooms|, i requires 0 <= i < |rooms| => rooms[i].id)
  }

  /** What list_room_messages returns to a user. */
  function Read(db: Db, user: string, roomId: int, limit: nat): Option<seq<Message>> {
    if (roomId, user) in db.members then Some(History.Window(History.InRoom(db.messages, roomId), limit)) else None
  }

  /** In a sound database, if the clock never went back while the room was written to, a member reads exactly the
      last messages of this room and of no other, oldest first, and nobody else reads anything. */
  lemma HistoryIsLastMessages(db: Db, user: string, roomId: int, limit: nat)
    requires Sound(db) && History.ClockAscends(History.InRoom(db.messages, roomId))
    ensures var all, r := History.InRoom(db.messages, roomId), Read(db, user, roomId, limit);
      && (r.Some? <==> (roomId, user) in db.members)
      && (r.Some? ==> r.value == History.Last(all, limit) && IdsAscend(r.value))
      && forall m :: m in all <==> m in db.messages && m.roomId == roomId
  {
    History.InRoomIsExact(db.messages, roomId);
    History.WindowIsLast(History.InRoom(db.messages, roomId), limit);
  }

  /** A clock that never went back at all has not gone back in any room. */
  lemma {:induction false} InRoomKeepsClock(ms: seq<Message>, roomId: int)
    requires IdsAscend(ms) && History.ClockAscends(ms)
    ensures History.ClockAscends(History.InRoom(ms, roomId))
  {
    if ms != [] {
      var init, last := ms[..|ms| - 1], ms[|ms| - 1];
      InRoomKeepsClock(init, roomId);
      History.InRoomIsExact(init, roomId);
      forall m | m in History.InRoom(init, roomId) ensures m.at <= last.at {
        var i :| 0 <= i < |init| && init[i] == m;
        assert ms[i] == m;
      }
    }
  }
}
