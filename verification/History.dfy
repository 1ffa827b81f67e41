/** The history window: the newest messages of a room, shown oldest first. */
module History {
  import opened Tables

  function InRoom(ms: seq<Message>, roomId: int): seq<Message> {
    if ms == [] then []
    else
      var rest := InRoom(ms[..|ms| - 1], roomId);
      if ms[|ms| - 1].roomId == roomId then rest + [ms[|ms| - 1]] else rest
  }

  /** Later time of writing first, and of two written at one time the greater id. */
  predicate Newer(a: Message, b: Message) {
    a.at > b.at || (a.at == b.at && a.id > b.id)
  }

  function InsertNewest(m: Message, s: seq<Message>): seq<Message> {
    if s == [] then [m]
    else if Newer(s[0], m) then [s[0]] + InsertNewest(m, s[1..])
    else [m] + s
  }

  function NewestFirst(ms: seq<Message>): seq<Message> {
    if ms == [] then [] else InsertNewest(ms[|ms| - 1], NewestFirst(ms[..|ms| - 1]))
  }

  function InsertById(m: Message, s: seq<Message>): seq<Message> {
    if s == [] then [m]
    else if s[0].id < m.id then [s[0]] + InsertById(m, s[1..])
    else [m] + s
  }

  function ById(ms: seq<Message>): seq<Message> {
    if ms == [] then [] else InsertById(ms[|ms| - 1], ById(ms[..|ms| - 1]))
  }

  function Take(s: seq<Message>, n: nat): seq<Message> {
    if n < |s| then s[..n] else s
  }

  /** The newest messages up to the limit, put back in the order of their ids. */
  function Window(ms: seq<Message>, limit: nat): seq<Message> {
    ById(Take(NewestFirst(ms), limit))
  }

  /** What a user expects of it: the last messages, in the order they were written. */
  function Last(ms: seq<Message>, limit: nat): seq<Message> {
    if limit < |ms| then ms[|ms| - limit..] else ms
  }

  ghost predicate ClockAscends(ms: seq<Message>) {
    forall i, j :: 0 <= i < j < |ms| ==> ms[i].at <= ms[j].at
  }

  // ---------------------------------------------------------------- a clock that never goes back

  function Reverse(s: seq<Message>): seq<Message> {
    if s == [] then [] else [s[|s| - 1]] + Reverse(s[..|s| - 1])
  }

  lemma {:induction false} ReverseAt(s: seq<Message>)
    ensures |Reverse(s)| == |s|
    ensures forall k :: 0 <= k < |s| ==> Reverse(s)[k] == s[|s| - 1 - k]
  {
    if s != [] {
      ReverseAt(s[..|s| - 1]);
    }
  }

  lemma {:induction false} AscendingIsReversed(ms: seq<Message>)
    requires IdsAscend(ms) && ClockAscends(ms)
    ensures NewestFirst(ms) == Reverse(ms)
  {
    if ms != [] {
      var init := ms[..|ms| - 1];
      AscendingIsReversed(init);
      ReverseAt(init);
      if init != [] {
        assert Reverse(init)[0] == ms[|ms| - 2];
      }
    }
  }

  /** Sorting a reversed run by id puts it right again. */
  lemma {:induction false} ByIdOfReverse(s: seq<Message>)
    requires IdsAscend(s)
    ensures ById(Reverse(s)) == s
    decreases |s|
  {
    if s != [] {
      var tail := s[1..];
      ReverseOfCons(s);
      assert Reverse(s)[..|s| - 1] == Reverse(tail) by { ReverseAt(tail); }
      assert IdsAscend(tail);
      ByIdOfReverse(tail);
      ReverseAt(s);
      assert s == [s[0]] + tail;
    }
  }

  lemma ReverseOfCons(s: seq<Message>)
    requires s != []
    ensures Reverse(s) == Reverse(s[1..]) + [s[0]]
  {
    ReverseAt(s);
    ReverseAt(s[1..]);
  }

  lemma WindowIsLast(ms: seq<Message>, limit: nat)
    requires IdsAscend(ms) && ClockAscends(ms)
    ensures Window(ms, limit) == Last(ms, limit)
  {
    AscendingIsReversed(ms);
    ReverseAt(ms);
    if limit < |ms| {
      ReverseAt(ms[|ms| - limit..]);
      assert Reverse(ms)[..limit] == Reverse(ms[|ms| - limit..]);
      ByIdOfReverse(ms[|ms| - limit..]);
    } else {
      ByIdOfReverse(ms);
    }
  }

  // ---------------------------------------------------------------- a clock that does

  ghost predicate NewestSorted(s: seq<Message>) {
    forall i, j :: 0 <= i < j < |s| ==> !Newer(s[j], s[i])
  }

  lemma {:induction false} InsertNewestKeeps(m: Message, s: seq<Message>)
    requires NewestSorted(s)
    ensures NewestSorted(InsertNewest(m, s)) && |InsertNewest(m, s)| == |s| + 1
    ensures forall x :: x in InsertNewest(m, s) <==> x == m || x in s
  {
    if s != [] {
      assert s == [s[0]] + s[1..];
      if Newer(s[0], m) {
        InsertNewestKeeps(m, s[1..]);
        var r := InsertNewest(m, s[1..]);
        forall x | x in r ensures !Newer(x, s[0]) {
          if x in s[1..] {
            var i :| 0 <= i < |s[1..]| && s[1..][i] == x;
            assert s[i + 1] == x;
          }
        }
      }
    }
  }

  lemma {:induction false} NewestFirstKeeps(ms: seq<Message>)
    ensures NewestSorted(NewestFirst(ms)) && |NewestFirst(ms)| == |ms|
    ensures forall x :: x in NewestFirst(ms) <==> x in ms
  {
    if ms != [] {
      var init := ms[..|ms| - 1];
      NewestFirstKeeps(init);
      InsertNewestKeeps(ms[|ms| - 1], NewestFirst(init));
      assert ms == init + [ms[|ms| - 1]];
    }
  }

  lemma {:induction false} InsertByIdKeeps(m: Message, s: seq<Message>)
    ensures forall x :: x in InsertById(m, s) <==> x == m || x in s
  {
    if s != [] {
      assert s == [s[0]] + s[1..];
      InsertByIdKeeps(m, s[1..]);
    }
  }

  lemma {:induction false} ByIdKeeps(ms: seq<Message>)
    ensures forall x :: x in ById(ms) <==> x in ms
  {
    if ms != [] {
      var init := ms[..|ms| - 1];
      ByIdKeeps(init);
      InsertByIdKeeps(ms[|ms| - 1], ById(init));
      assert ms == init + [ms[|ms| - 1]];
    }
  }

  ghost predicate DistinctIds(s: seq<Message>) {
    forall i, j :: 0 <= i < j < |s| ==> s[i].id != s[j].id
  }

  lemma {:induction false} InsertNewestDistinct(m: Message, s: seq<Message>)
    requires DistinctIds(s) && forall x :: x in s ==> x.id != m.id
    ensures DistinctIds(InsertNewest(m, s))
    ensures forall x :: x in InsertNewest(m, s) <==> x == m || x in s
  {
    if s != [] {
      assert s == [s[0]] + s[1..];
      assert forall x :: x in s[1..] ==> x.id != s[0].id;
      if Newer(s[0], m) {
        InsertNewestDistinct(m, s[1..]);
        assert forall x :: x in InsertNewest(m, s[1..]) ==> x.id != s[0].id;
      }
    }
  }

  lemma {:induction false} NewestFirstDistinct(ms: seq<Message>)
    requires IdsAscend(ms)
    ensures DistinctIds(NewestFirst(ms))
  {
    if ms != [] {
      var init, last := ms[..|ms| - 1], ms[|ms| - 1];
      NewestFirstDistinct(init);
      NewestFirstKeeps(init);
      forall x | x in NewestFirst(init) ensures x.id != last.id {
        var i :| 0 <= i < |init| && init[i] == x;
        assert ms[i] == x;
      }
      InsertNewestDistinct(last, NewestFirst(init));
    }
  }

  lemma {:induction false} InsertByIdAscends(m: Message, s: seq<Message>)
    requires IdsAscend(s) && forall x :: x in s ==> x.id != m.id
    ensures IdsAscend(InsertById(m, s)) && |InsertById(m, s)| == |s| + 1
  {
    if s != [] && s[0].id < m.id {
      InsertByIdAscends(m, s[1..]);
      InsertByIdKeeps(m, s[1..]);
      var r := InsertById(m, s[1..]);
      forall x | x in r ensures s[0].id < x.id {
        if x in s[1..] {
          var i :| 0 <= i < |s[1..]| && s[1..][i] == x;
          assert s[i + 1] == x;
        }
      }
    }
  }

  lemma {:induction false} ByIdAscends(s: seq<Message>)
    requires DistinctIds(s)
    ensures IdsAscend(ById(s)) && |ById(s)| == |s|
  {
    if s != [] {
      var init, last := s[..|s| - 1], s[|s| - 1];
      ByIdAscends(init);
      ByIdKeeps(init);
      forall x | x in ById(init) ensures x.id != last.id {
        var i :| 0 <= i < |init| && init[i] == x;
        assert s[i] == x;
      }
      InsertByIdAscends(last, ById(init));
    }
  }

  /** With any clock, the window has as many messages as asked for, if there are so many, each once and by ascending
      id. */
  lemma WindowIsFull(ms: seq<Message>, limit: nat)
    requires IdsAscend(ms)
    ensures |Window(ms, limit)| == (if limit < |ms| then limit else |ms|) && IdsAscend(Window(ms, limit))
    ensures forall x :: x in Window(ms, limit) ==> x in ms
  {
    NewestFirstDistinct(ms);
    NewestFirstKeeps(ms);
    ByIdAscends(Take(NewestFirst(ms), limit));
    ByIdKeeps(Take(NewestFirst(ms), limit));
  }

  /** A message in the window brings every newer one of its room along. */
  lemma WindowIsNewest(ms: seq<Message>, limit: nat, x: Message, y: Message)
    requires x in Window(ms, limit) && y in ms && Newer(y, x)
    ensures y in Window(ms, limit)
  {
    var s := NewestFirst(ms);
    NewestFirstKeeps(ms);
    ByIdKeeps(Take(s, limit));
    var i :| 0 <= i < |Take(s, limit)| && Take(s, limit)[i] == x;
    assert s[i] == x;
    var j :| 0 <= j < |s| && s[j] == y;
    assert j <= i;
    assert Take(s, limit)[j] == y;
  }

  /** The query shows the last messages for every limit exactly when the stored times never go back. */
  lemma WindowIsLastIff(ms: seq<Message>)
    requires IdsAscend(ms)
    ensures (forall limit: nat :: Window(ms, limit) == Last(ms, limit)) <==> ClockAscends(ms)
  {
    if ClockAscends(ms) {
      forall limit: nat ensures Window(ms, limit) == Last(ms, limit) {
        WindowIsLast(ms, limit);
      }
    } else {
      var i, j :| 0 <= i < j < |ms| && ms[i].at > ms[j].at;
      var limit: nat := |ms| - j;
      var last := Last(ms, limit);
      assert last[0] == ms[j];
      assert ms[i] !in last by {
        assert forall k :: 0 <= k < |last| ==> last[k] == ms[j + k];
      }
      if ms[j] in Window(ms, limit) {
        WindowIsNewest(ms, limit, ms[j], ms[i]);
      }
      assert Window(ms, limit) != last;
    }
  }

  lemma {:induction false} InRoomIsExact(ms: seq<Message>, roomId: int)
    requires IdsAscend(ms)
    ensures IdsAscend(InRoom(ms, roomId))
    ensures forall m :: m in InRoom(ms, roomId) <==> m in ms && m.roomId == roomId
  {
    if ms != [] {
      var init, last := ms[..|ms| - 1], ms[|ms| - 1];
      InRoomIsExact(init, roomId);
      assert ms == init + [last];
      forall m | m in InRoom(init, roomId) ensures m.id < last.id {
        var i :| 0 <= i < |init| && init[i] == m;
        assert ms[i] == m;
      }
    }
  }
}
