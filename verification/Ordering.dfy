/** Orders the database relies on: text order, unordered pairs as ordered rows, and sorted result lists. */
module Ordering {

  /** Text order, character by character. */
  predicate Less(a: string, b: string)
    decreases |a|
  {
    b != "" && (a == "" || a[0] < b[0] || (a[0] == b[0] && Less(a[1..], b[1..])))
  }

  lemma {:induction false} LessTotal(a: string, b: string)
    ensures Less(a, b) || a == b || Less(b, a)
    decreases |a|
  {
    if a != "" && b != "" && a[0] == b[0] {
      LessTotal(a[1..], b[1..]);
      if a[1..] == b[1..] {
        assert a == [a[0]] + a[1..] && b == [b[0]] + b[1..];
      }
    }
  }

  lemma {:induction false} LessAsymmetric(a: string, b: string)
    requires Less(a, b)
    ensures !Less(b, a) && a != b
    decreases |a|
  {
    if a != "" && a[0] == b[0] {
      LessAsymmetric(a[1..], b[1..]);
    }
  }

  lemma {:induction false} LessTransitive(a: string, b: string, c: string)
    requires Less(a, b) && Less(b, c)
    ensures Less(a, c)
    decreases |a|
  {
    if a != "" && a[0] == b[0] && b[0] == c[0] {
      LessTransitive(a[1..], b[1..], c[1..]);
    }
  }

  /** The row a pair of users is stored under: LEAST first, GREATEST second. */
  function Pair(a: string, b: string): (string, string) {
    if Less(b, a) then (b, a) else (a, b)
  }

  lemma PairLaws(a: string, b: string)
    ensures Pair(a, b) == Pair(b, a)
    ensures a != b ==> Less(Pair(a, b).0, Pair(a, b).1)
    ensures Pair(a, b) == (a, b) || Pair(a, b) == (b, a)
  {
    LessTotal(a, b);
    if Less(a, b) { LessAsymmetric(a, b); }
    if Less(b, a) { LessAsymmetric(b, a); }
  }

  // ---------------------------------------------------------------- sorted lists of a set

  ghost predicate StrictOrder<T(!new)>(lt: (T, T) -> bool) {
    && (forall a :: !lt(a, a))
    && (forall a, b, c :: lt(a, b) && lt(b, c) ==> lt(a, c))
    && (forall a, b :: lt(a, b) || a == b || lt(b, a))
  }

  lemma TextOrder()
    ensures StrictOrder(Less)
  {
    forall a, b: string ensures Less(a, b) || a == b || Less(b, a) { LessTotal(a, b); }
    forall a: string ensures !Less(a, a) { if Less(a, a) { LessAsymmetric(a, a); } }
    forall a, b, c: string | Less(a, b) && Less(b, c) ensures Less(a, c) { LessTransitive(a, b, c); }
  }

  predicate Below(a: int, b: int) { a < b }

  ghost predicate Ascending<T>(lt: (T, T) -> bool, xs: seq<T>) {
    forall i, j :: 0 <= i < j < |xs| ==> lt(xs[i], xs[j])
  }

  /** `xs` is what a query makes of the rows `s` when it sorts them. */
  ghost predicate Lists<T(!new)>(lt: (T, T) -> bool, xs: seq<T>, s: set<T>) {
    Ascending(lt, xs) && forall x :: x in xs <==> x in s
  }

  lemma FirstIsIn<T>(xs: seq<T>)
    ensures xs != [] ==> xs[0] in xs
  {}

  lemma NothingListed<T(!new)>(lt: (T, T) -> bool, s: set<T>)
    requires Lists(lt, [], s)
    ensures s == {}
  {
    assert forall x :: x in s ==> x in [];
  }

  /** Sorting by a key has one result. */
  lemma {:induction false} ListIsUnique<T(!new)>(lt: (T, T) -> bool, xs: seq<T>, ys: seq<T>, s: set<T>)
    requires StrictOrder(lt) && Lists(lt, xs, s) && Lists(lt, ys, s)
    ensures xs == ys
    decreases |xs|
  {
    if xs == [] {
      NothingListed(lt, s);
      FirstIsIn(ys);
    } else {
      assert xs[0] in s;
      assert ys != [];
      assert ys[0] in xs && xs[0] in ys;
      assert xs[0] == ys[0];
      var s' := s - {xs[0]};
      TailLists(lt, xs, s);
      TailLists(lt, ys, s);
      ListIsUnique(lt, xs[1..], ys[1..], s');
      assert xs == [xs[0]] + xs[1..] && ys == [ys[0]] + ys[1..];
    }
  }

  lemma TailLists<T(!new)>(lt: (T, T) -> bool, xs: seq<T>, s: set<T>)
    requires StrictOrder(lt) && Lists(lt, xs, s) && xs != []
    ensures Lists(lt, xs[1..], s - {xs[0]})
  {
    forall x ensures x in xs[1..] <==> x in s - {xs[0]} {
      if x in s - {xs[0]} {
        var i :| 0 <= i < |xs| && xs[i] == x;
        assert xs[1..][i - 1] == x;
      }
    }
  }

  /** Puts a new key in its place; the step of a sorted fill. */
  function Insert<T(==, !new)>(lt: (T, T) -> bool, xs: seq<T>, x: T): (ys: seq<T>)
    requires StrictOrder(lt) && Ascending(lt, xs) && x !in xs
    ensures Ascending(lt, ys)
    ensures forall y :: y in ys <==> y in xs || y == x
  {
    if xs == [] then [x]
    else if lt(x, xs[0]) then [x] + xs
    else
      var ys := Insert(lt, xs[1..], x);
      assert forall y :: y in xs <==> y == xs[0] || y in xs[1..];
      assert forall y :: y in ys ==> lt(xs[0], y);
      [xs[0]] + ys
  }

  /** Every finite set of rows has its sorted list. */
  method Sort<T(==, !new)>(lt: (T, T) -> bool, s: set<T>) returns (xs: seq<T>)
    requires StrictOrder(lt)
    ensures Lists(lt, xs, s)
  {
    xs := [];
    var rest := s;
    while rest != {}
      invariant rest <= s && Lists(lt, xs, s - rest)
      decreases rest
    {
      var x :| x in rest;
      xs := Insert(lt, xs, x);
      rest := rest - {x};
    }
  }

  lemma {:induction false} SortedListExists<T(!new)>(lt: (T, T) -> bool, s: set<T>)
    requires StrictOrder(lt)
    ensures exists xs :: Lists(lt, xs, s)
    decreases s
  {
    if s == {} {
      assert Lists(lt, [], s);
    } else {
      var x :| x in s;
      SortedListExists(lt, s - {x});
      var xs :| Lists(lt, xs, s - {x});
      assert Lists(lt, Insert(lt, xs, x), s);
    }
  }

  /** The sorted list of a set, as a value. */
  ghost function SortedList<T(!new)>(lt: (T, T) -> bool, s: set<T>): (xs: seq<T>)
    requires StrictOrder(lt)
    ensures Lists(lt, xs, s)
  {
    SortedListExists(lt, s);
    var xs :| Lists(lt, xs, s); xs
  }
}
