/** The database as tables and transactions. Each transaction either commits its whole effect or leaves
    the tables as they were; the schema's constraints decide which. */
module Tables {
  import opened Text
  import opened Ordering

  datatype User = User(pw: string, nickname: string)

  datatype Status = Pending | Accepted | Rejected | Canceled

  datatype Role = Owner | Admin | Member

  datatype Room = Room(name: string, owner: string)

  datatype Message = Message(id: int, roomId: int, sender: string, body: string, at: int)

  /** Rows by primary key. Messages are kept in order of their id. */
  datatype Db = Db(
    users: map<string, User>,
    friendships: set<(string, string)>,
    requests: map<(string, string), Status>,
    rooms: map<int, Room>,
    members: map<(int, string), Role>,
    messages: seq<Message>,
    nextRoom: int,
    nextMessage: int)

  const EMPTY := Db(map[], {}, map[], map[], map[], [], 1, 1)

  datatype DbError = CheckViolation | ForeignKeyViolation | ConnectionFailure

  datatype InviteResult = Invited | AlreadyMember | NotFriend | InviteNotPermitted

  datatype LeaveResult = Left | NotMember | OwnerCannotLeave

  /** Every transaction the executor can commit. Identity columns and the clock are the database's own
      choice: `gap` identity values may have been burnt before, and `at` is the transaction time. */
  datatype Txn =
    | Signup(id: string, pw: string)
    | ChangeNickname(id: string, nickname: string)
    | RequestFriend(from: string, to: string)
    | AcceptFriend(from: string, to: string)
    | RejectFriend(from: string, to: string)
    | RemoveFriend(user: string, other: string)
    | CreateRoom(owner: string, name: string, gap: nat)
    | DeleteRoom(user: string, roomId: int)
    | InviteRoom(user: string, roomId: int, other: string)
    | CreateMessage(roomId: int, user: string, body: string, gap: nat, at: int)
    | LeaveRoom(user: string, roomId: int)

  datatype Outcome<+T> = Outcome(result: Result<T, DbError>, db: Db)

  // ---------------------------------------------------------------- transactions

  predicate AreFriends(db: Db, a: string, b: string) {
    Pair(a, b) in db.friendships
  }

  function SignupTxn(db: Db, id: string, pw: string): Outcome<bool> {
    if id in db.users then Outcome(Ok(false), db)
    else Outcome(Ok(true), db.(users := db.users[id := User(pw, "guest")]))
  }

  function ChangeNicknameTxn(db: Db, id: string, nickname: string): Outcome<bool> {
    if id !in db.users then Outcome(Ok(false), db)
    else Outcome(Ok(true), db.(users := db.users[id := db.users[id].(nickname := nickname)]))
  }

  /** Between users who are not friends, a new request is made, and one rejected or canceled before is made again. */
  function RequestFriendTxn(db: Db, from: string, to: string): Outcome<bool> {
    if AreFriends(db, from, to) then Outcome(Ok(false), db)
    else if from == to then Outcome(Err(CheckViolation), db)
    else if (from, to) in db.requests then
      if db.requests[(from, to)] in {Rejected, Canceled}
      then Outcome(Ok(true), db.(requests := db.requests[(from, to) := Pending]))
      else Outcome(Ok(false), db)
    else if from !in db.users || to !in db.users then Outcome(Err(ForeignKeyViolation), db)
    else Outcome(Ok(true), db.(requests := db.requests[(from, to) := Pending]))
  }

  predicate IsPending(db: Db, from: string, to: string) {
    (from, to) in db.requests && db.requests[(from, to)] == Pending
  }

  /** The update and the insert commit together, or neither does. */
  function AcceptFriendTxn(db: Db, from: string, to: string): Outcome<bool> {
    if !IsPending(db, from, to) then Outcome(Ok(false), db)
    else if !AreFriends(db, from, to) && from == to then Outcome(Err(CheckViolation), db)
    else if !AreFriends(db, from, to) && (from !in db.users || to !in db.users)
    then Outcome(Err(ForeignKeyViolation), db)
    else Outcome(Ok(true), db.(requests := db.requests[(from, to) := Accepted],
                               friendships := db.friendships + {Pair(from, to)}))
  }

  function RejectFriendTxn(db: Db, from: string, to: string): Outcome<bool> {
    if !IsPending(db, from, to) then Outcome(Ok(false), db)
    else Outcome(Ok(true), db.(requests := db.requests[(from, to) := Rejected]))
  }

  function RemoveFriendTxn(db: Db, user: string, other: string): Outcome<bool> {
    if !AreFriends(db, user, other) then Outcome(Ok(false), db)
    else Outcome(Ok(true), db.(friendships := db.friendships - {Pair(user, other)}))
  }

  function CreateRoomTxn(db: Db, owner: string, name: string, gap: nat): Outcome<int> {
    if owner !in db.users then Outcome(Err(ForeignKeyViolation), db)
    else
      var id := db.nextRoom + gap;
      Outcome(Ok(id), db.(rooms := db.rooms[id := Room(name, owner)],
                          members := if (id, owner) in db.members then db.members else db.members[(id, owner) := Owner],
                          nextRoom := id + 1))
  }

  /** Deleting a room cascades to its members and messages. */
  function DeleteRoomTxn(db: Db, user: string, roomId: int): Outcome<bool> {
    if roomId !in db.rooms || db.rooms[roomId].owner != user then Outcome(Ok(false), db)
    else Outcome(Ok(true), db.(rooms := db.rooms - {roomId},
                               members := map m | m in db.members && m.0 != roomId :: db.members[m],
                               messages := Without(db.messages, roomId)))
  }

  function Without(ms: seq<Message>, roomId: int): seq<Message> {
    if ms == [] then []
    else
      var rest := Without(ms[..|ms| - 1], roomId);
      if ms[|ms| - 1].roomId == roomId then rest else rest + [ms[|ms| - 1]]
  }

  function InviteRoomTxn(db: Db, user: string, roomId: int, other: string): Outcome<InviteResult> {
    if (roomId, user) !in db.members then Outcome(Ok(InviteNotPermitted), db)
    else if !AreFriends(db, user, other) then Outcome(Ok(NotFriend), db)
    else if (roomId, other) in db.members then Outcome(Ok(AlreadyMember), db)
    else if other !in db.users || roomId !in db.rooms then Outcome(Err(ForeignKeyViolation), db)
    else Outcome(Ok(Invited), db.(members := db.members[(roomId, other) := Member]))
  }

  function CreateMessageTxn(db: Db, roomId: int, user: string, body: string, gap: nat, at: int): Outcome<Option<int>> {
    if (roomId, user) !in db.members then Outcome(Ok(None), db)
    else if user !in db.users || roomId !in db.rooms then Outcome(Err(ForeignKeyViolation), db)
    else
      var id := db.nextMessage + gap;
      Outcome(Ok(Some(id)), db.(messages := db.messages + [Message(id, roomId, user, body, at)], nextMessage := id + 1))
  }

  function LeaveRoomTxn(db: Db, user: string, roomId: int): Outcome<LeaveResult> {
    if roomId !in db.rooms then Outcome(Ok(NotMember), db)
    else if db.rooms[roomId].owner == user then Outcome(Ok(OwnerCannotLeave), db)
    else if (roomId, user) !in db.members then Outcome(Ok(NotMember), db)
    else Outcome(Ok(Left), db.(members := db.members - {(roomId, user)}))
  }

  function Commit(db: Db, t: Txn): Db {
    match t
    case Signup(id, pw) => SignupTxn(db, id, pw).db
    case ChangeNickname(id, nick) => ChangeNicknameTxn(db, id, nick).db
    case RequestFriend(from, to) => RequestFriendTxn(db, from, to).db
    case AcceptFriend(from, to) => AcceptFriendTxn(db, from, to).db
    case RejectFriend(from, to) => RejectFriendTxn(db, from, to).db
    case RemoveFriend(user, other) => RemoveFriendTxn(db, user, other).db
    case CreateRoom(owner, name, gap) => CreateRoomTxn(db, owner, name, gap).db
    case DeleteRoom(user, roomId) => DeleteRoomTxn(db, user, roomId).db
    case InviteRoom(user, roomId, other) => InviteRoomTxn(db, user, roomId, other).db
    case CreateMessage(roomId, user, body, gap, at) => CreateMessageTxn(db, roomId, user, body, gap, at).db
    case LeaveRoom(user, roomId) => LeaveRoomTxn(db, user, roomId).db
  }

  /** All transactions so far, oldest first, from a state. */
  function RunFrom(db: Db, log: seq<Txn>): Db {
    if log == [] then db else Commit(RunFrom(db, log[..|log| - 1]), log[|log| - 1])
  }

  function Run(log: seq<Txn>): Db {
    RunFrom(EMPTY, log)
  }

  lemma RunStep(db: Db, log: seq<Txn>, i: nat)
    requires i < |log|
    ensures RunFrom(db, log[..i + 1]) == Commit(RunFrom(db, log[..i]), log[i])
  {
    assert log[..i + 1][..i] == log[..i];
  }

  // ---------------------------------------------------------------- queries

  function RoomsOf(db: Db, user: string): set<int> {
    set r | r in db.rooms && (r, user) in db.members
  }

  function FriendIn(row: (string, string), user: string): string {
    if row.0 == user then row.1 else row.0
  }

  /** The other user of each friendship the user has. */
  function FriendsOf(db: Db, user: string): set<string> {
    set row | row in db.friendships && (row.0 == user || row.1 == user) :: FriendIn(row, user)
  }

  // ---------------------------------------------------------------- what the schema and the queries keep

  /** Foreign keys, checks, one owner row per room which is the owner's, and friendships that were accepted. */
  ghost predicate Sound(db: Db) {
    && FriendshipsSound(db)
    && RequestsSound(db)
    && RoomsSound(db)
    && MembersSound(db)
    && MessagesSound(db)
  }

  ghost predicate FriendshipsSound(db: Db) {
    forall row :: row in db.friendships ==>
      && Less(row.0, row.1) && row.0 in db.users && row.1 in db.users
      && (IsAccepted(db, row.0, row.1) || IsAccepted(db, row.1, row.0))
  }

  predicate IsAccepted(db: Db, from: string, to: string) {
    (from, to) in db.requests && db.requests[(from, to)] == Accepted
  }

  ghost predicate RequestsSound(db: Db) {
    forall k :: k in db.requests ==> k.0 != k.1 && k.0 in db.users && k.1 in db.users
  }

  ghost predicate RoomsSound(db: Db) {
    db.nextRoom >= 1 &&
    forall r :: r in db.rooms ==>
      && 1 <= r < db.nextRoom && db.rooms[r].owner in db.users
      && (r, db.rooms[r].owner) in db.members
  }

  ghost predicate MembersSound(db: Db) {
    forall m :: m in db.members ==>
      && m.0 in db.rooms && m.1 in db.users
      && (db.members[m] == Owner <==> m.1 == db.rooms[m.0].owner)
      && (db.members[m] == Owner || db.members[m] == Member)
  }

  ghost predicate MessagesSound(db: Db) {
    && (forall i :: 0 <= i < |db.messages| ==>
         db.messages[i].roomId in db.rooms && db.messages[i].sender in db.users && db.messages[i].id < db.nextMessage)
    && IdsAscend(db.messages)
  }

  lemma {:induction false} WithoutKeeps(ms: seq<Message>, roomId: int)
    ensures forall m :: m in Without(ms, roomId) <==> m in ms && m.roomId != roomId
  {
    if ms != [] {
      WithoutKeeps(ms[..|ms| - 1], roomId);
      assert ms == ms[..|ms| - 1] + [ms[|ms| - 1]];
    }
  }

  ghost predicate IdsAscend(ms: seq<Message>) {
    forall i, j :: 0 <= i < j < |ms| ==> ms[i].id < ms[j].id
  }

  lemma {:induction false} WithoutAscends(ms: seq<Message>, roomId: int)
    requires IdsAscend(ms)
    ensures IdsAscend(Without(ms, roomId))
  {
    if ms != [] {
      var init, last := ms[..|ms| - 1], ms[|ms| - 1];
      WithoutAscends(init, roomId);
      WithoutKeeps(init, roomId);
      forall m | m in Without(init, roomId) ensures m.id < last.id {
        var i :| 0 <= i < |init| && init[i] == m;
        assert ms[i] == m;
      }
    }
  }

  lemma SocialKept(db: Db, t: Txn)
    requires Sound(db)
    requires t.RequestFriend? || t.AcceptFriend? || t.RejectFriend? || t.RemoveFriend?
    ensures Sound(Commit(db, t))
  {
    if t.AcceptFriend? {
      PairLaws(t.from, t.to);
    }
  }

  lemma UsersKept(db: Db, t: Txn)
    requires Sound(db)
    requires t.Signup? || t.ChangeNickname?
    ensures Sound(Commit(db, t))
  {}

  lemma CreateRoomKept(db: Db, t: Txn)
    requires Sound(db) && t.CreateRoom?
    ensures Sound(Commit(db, t))
  {}

  lemma MembershipKept(db: Db, t: Txn)
    requires Sound(db)
    requires t.InviteRoom? || t.LeaveRoom?
    ensures Sound(Commit(db, t))
  {}

  lemma CreateMessageKept(db: Db, t: Txn)
    requires Sound(db) && t.CreateMessage?
    ensures Sound(Commit(db, t))
  {}

  lemma DeleteRoomKept(db: Db, t: Txn)
    requires Sound(db) && t.DeleteRoom?
    ensures Sound(Commit(db, t))
  {
    var db' := Commit(db, t);
    WithoutKeeps(db.messages, t.roomId);
    WithoutAscends(db.messages, t.roomId);
    assert MessagesSound(db') by {
      assert forall i :: 0 <= i < |db'.messages| ==> db'.messages[i] in db'.messages;
    }
  }

  lemma CommitKeepsSound(db: Db, t: Txn)
    requires Sound(db)
    ensures Sound(Commit(db, t))
  {
    match t {
      case Signup(_, _) => UsersKept(db, t);
      case ChangeNickname(_, _) => UsersKept(db, t);
      case CreateRoom(_, _, _) => CreateRoomKept(db, t);
      case DeleteRoom(_, _) => DeleteRoomKept(db, t);
      case InviteRoom(_, _, _) => MembershipKept(db, t);
      case LeaveRoom(_, _) => MembershipKept(db, t);
      case CreateMessage(_, _, _, _, _) => CreateMessageKept(db, t);
      case _ => SocialKept(db, t);
    }
  }

  /** Every state the server can bring the database into is sound. */
  lemma {:induction false} RunIsSound(db: Db, log: seq<Txn>)
    requires Sound(db)
    ensures Sound(RunFrom(db, log))
  {
    if log != [] {
      RunIsSound(db, log[..|log| - 1]);
      CommitKeepsSound(RunFrom(db, log[..|log| - 1]), log[|log| - 1]);
    }
  }
}
