/** Strings as the wire sees them: searching, splitting at a separator, and joining again.
    Bytes are modelled as `char`. */
module Text {

  datatype Option<+T> = None | Some(value: T)

  datatype Result<+T, +E> = Ok(value: T) | Err(error: E)

  /** `std::string::find(ch, start)`: the first position at or after `start`. */
  function Find(s: string, ch: char, start: nat): (r: Option<nat>)
    requires start <= |s|
    ensures r.Some? ==> start <= r.value < |s| && s[r.value] == ch
    ensures r.Some? ==> forall i :: start <= i < r.value ==> s[i] != ch
    ensures r.None? ==> forall i :: start <= i < |s| ==> s[i] != ch
    decreases |s| - start
  {
    if start == |s| then None
    else if s[start] == ch then Some(start)
    else Find(s, ch, start + 1)
  }

  lemma Assoc<T>(a: seq<T>, b: seq<T>, c: seq<T>)
    ensures (a + b) + c == a + (b + c)
  {}

  /** The pieces between the separators: always one more piece than separators. */
  function Split(s: string, ch: char): (pieces: seq<string>)
    ensures |pieces| >= 1
    decreases |s|
  {
    match Find(s, ch, 0)
    case None => [s]
    case Some(p) => [s[..p]] + Split(s[p + 1..], ch)
  }

  function Join(pieces: seq<string>, ch: char): string
    requires |pieces| >= 1
  {
    if |pieces| == 1 then pieces[0] else pieces[0] + [ch] + Join(pieces[1..], ch)
  }

  ghost predicate Free(s: string, ch: char) {
    ch !in s
  }

  ghost predicate AllFree(pieces: seq<string>, ch: char) {
    forall p :: p in pieces ==> Free(p, ch)
  }

  /** The reference split cuts at every separator. */
  lemma {:induction false} SplitIsFree(s: string, ch: char)
    ensures AllFree(Split(s, ch), ch)
    decreases |s|
  {
    match Find(s, ch, 0)
    case None =>
    case Some(p) => SplitIsFree(s[p + 1..], ch);
  }

  lemma JoinCons(head: string, tail: seq<string>, ch: char)
    requires tail != []
    ensures Join([head] + tail, ch) == head + [ch] + Join(tail, ch)
  {
    assert ([head] + tail)[1..] == tail;
  }

  /** And it loses nothing: joining undoes splitting, for every string. */
  lemma {:induction false} JoinSplit(s: string, ch: char)
    ensures Join(Split(s, ch), ch) == s
    decreases |s|
  {
    match Find(s, ch, 0)
    case None =>
    case Some(p) =>
      JoinSplit(s[p + 1..], ch);
      JoinCons(s[..p], Split(s[p + 1..], ch), ch);
      assert s == s[..p] + [ch] + s[p + 1..];
  }

  /** The first occurrence is unique, so a search finds exactly it. */
  lemma {:induction false} FindFirst(s: string, ch: char, start: nat, p: nat)
    requires start <= p < |s| && s[p] == ch
    requires forall i :: start <= i < p ==> s[i] != ch
    ensures Find(s, ch, start) == Some(p)
    decreases p - start
  {
    if start < p {
      FindFirst(s, ch, start + 1, p);
    }
  }

  /** A separator-free head followed by a separator is the first piece. */
  lemma SplitAt(head: string, rest: string, ch: char)
    requires Free(head, ch)
    ensures Find(head + [ch] + rest, ch, 0) == Some(|head|)
    ensures Split(head + [ch] + rest, ch) == [head] + Split(rest, ch)
  {
    var s := head + [ch] + rest;
    assert forall i :: 0 <= i < |head| ==> s[i] == head[i] && head[i] in head;
    FindFirst(s, ch, 0, |head|);
    assert s[..|head|] == head && s[|head| + 1..] == rest;
  }

  /** Some element of a set: the order of iteration is nobody's choice. */
  method Pick<T(==)>(s: set<T>) returns (x: T)
    requires s != {}
    ensures x in s
  {
    x :| x in s;
  }

  lemma Inhabited<T>(s: set<T>) returns (x: T)
    requires s != {}
    ensures x in s
  {
    x :| x in s;
  }
}
