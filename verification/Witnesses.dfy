/** Runs from an empty database in which the properties stated with a condition fail, because the condition does. */
module Witnesses {
  import opened Ordering
  import H = History
  import S = Social
  import P = Provenance
  import T = Tables

  // ---------------------------------------------------------------- friends for the last time

  lemma BothAsk(db: T.Db, a: string, b: string)
    requires a != b && a in db.users && b in db.users && db.friendships == {} && db.requests == map[]
    ensures T.Commit(T.Commit(db, T.RequestFriend(a, b)), T.RequestFriend(b, a)) ==
      db.(requests := map[(a, b) := T.Pending, (b, a) := T.Pending])
  {
    PairLaws(a, b);
    assert map[(a, b) := T.Pending][(b, a) := T.Pending] == map[(a, b) := T.Pending, (b, a) := T.Pending];
  }

  lemma BothAccept(db: T.Db, a: string, b: string)
    requires a != b && a in db.users && b in db.users && db.friendships == {}
    requires db.requests == map[(a, b) := T.Pending, (b, a) := T.Pending]
    ensures T.Commit(T.Commit(db, T.AcceptFriend(a, b)), T.AcceptFriend(b, a)) ==
      db.(requests := map[(a, b) := T.Accepted, (b, a) := T.Accepted], friendships := {Pair(a, b)})
  {
    PairLaws(a, b);
    var d := T.Commit(db, T.AcceptFriend(a, b));
    assert d.friendships == {Pair(a, b)} && d.requests == map[(a, b) := T.Accepted, (b, a) := T.Pending];
    assert d.requests[(b, a) := T.Accepted] == map[(a, b) := T.Accepted, (b, a) := T.Accepted];
  }

  lemma Parted(db: T.Db, a: string, b: string)
    requires db.friendships == {Pair(a, b)}
    ensures T.Commit(db, T.RemoveFriend(a, b)) == db.(friendships := {}) && !T.AreFriends(db.(friendships := {}), a, b)
  {}

  lemma TwoAccounts(log: seq<T.Txn>, a: string, b: string)
    requires |log| >= 2 && log[0] == T.Signup(a, "p") && log[1] == T.Signup(b, "p") && a != b
    ensures var db := T.Run(log[..2]); a in db.users && b in db.users && db.friendships == {} && db.requests == map[]
  {
    RunsTo(log, 2);
  }

  /** Two crossing requests, both accepted, and the friendship removed: these two can never be friends again. */
  lemma EstrangedUsers(a: string, b: string) returns (log: seq<T.Txn>)
    requires a != b
    ensures var db := T.Run(log);
      && a in db.users && b in db.users && !T.AreFriends(db, a, b) && T.IsAccepted(db, a, b) && T.IsAccepted(db, b, a)
      && !S.CanBefriend(db, a, b)
  {
    log := [T.Signup(a, "p"), T.Signup(b, "p"), T.RequestFriend(a, b), T.RequestFriend(b, a),
            T.AcceptFriend(a, b), T.AcceptFriend(b, a), T.RemoveFriend(a, b)];
    TwoAccounts(log, a, b);
    RunsTo(log, 7);
    var db := T.Run(log[..2]);
    BothAsk(db, a, b);
    var asked := db.(requests := map[(a, b) := T.Pending, (b, a) := T.Pending]);
    assert T.Run(log[..4]) == asked;
    BothAccept(asked, a, b);
    var befriended := asked.(requests := map[(a, b) := T.Accepted, (b, a) := T.Accepted], friendships := {Pair(a, b)});
    assert T.Run(log[..6]) == befriended;
    Parted(befriended, a, b);
    P.EmptyIsSound();
    T.RunIsSound(T.EMPTY, log);
    S.CanBefriendIff(T.Run(log), a, b);
  }

  /** The states of a run, one by one. */
  lemma {:induction false} RunsTo(log: seq<T.Txn>, n: nat)
    requires n <= |log|
    ensures T.Run(log[..0]) == T.EMPTY && log[..|log|] == log
    ensures forall i :: 0 <= i < n ==> T.Run(log[..i + 1]) == T.Commit(T.Run(log[..i]), log[i])
  {
    if n > 0 {
      RunsTo(log, n - 1);
      T.RunStep(T.EMPTY, log, n - 1);
    }
  }

  // ---------------------------------------------------------------- a clock that goes back

  /** A room with one member and no messages. */
  lemma RoomOf(a: string) returns (log: seq<T.Txn>)
    ensures |log| == 2
    ensures var db := T.Run(log);
      && a in db.users && 1 in db.rooms && (1, a) in db.members && db.messages == [] && db.nextMessage == 1
  {
    log := [T.Signup(a, "p"), T.CreateRoom(a, "r", 0)];
    RunsTo(log, 2);
  }

  /** Two messages of which the second is dated before the first: the newest message alone is not the last one. */
  lemma FallingClock(a: string) returns (log: seq<T.Txn>)
    ensures var ms := H.InRoom(T.Run(log).messages, 1);
      !H.ClockAscends(ms) && H.Window(ms, 1) != H.Last(ms, 1)
  {
    var init := RoomOf(a);
    log := init + [T.CreateMessage(1, a, "x", 0, 2), T.CreateMessage(1, a, "y", 0, 1)];
    var x, y := T.Message(1, 1, a, "x", 2), T.Message(2, 1, a, "y", 1);
    T.RunStep(T.EMPTY, log, 2);
    T.RunStep(T.EMPTY, log, 3);
    assert log[..2] == init && log[..4] == log;
    assert T.Run(log[..3]).messages == [] + [x] == [x];
    assert T.Run(log).messages == [x] + [y] == [x, y];
    WindowOfTwo(x, y);
  }

  lemma WindowOfTwo(x: T.Message, y: T.Message)
    requires x.roomId == y.roomId == 1 && x.at > y.at && x.id < y.id
    ensures H.InRoom([x, y], 1) == [x, y] && !H.ClockAscends([x, y])
    ensures H.Window([x, y], 1) == [x] && H.Last([x, y], 1) == [y]
  {
    assert [x, y][..1] == [x] && [x][..0] == [];
    assert H.InRoom([x], 1) == [] + [x] == [x];
    assert H.InRoom([x, y], 1) == [x] + [y] == [x, y];
    assert H.NewestFirst([x]) == [x];
    assert H.InsertNewest(y, []) == [y] && [x][1..] == [];
    assert H.NewestFirst([x, y]) == [x] + [y] == [x, y];
    assert H.ById([x]) == [x];
    assert [x, y][0].at > [x, y][1].at;
  }
}
