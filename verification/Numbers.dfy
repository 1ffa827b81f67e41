/** Numbers in commands: `std::to_string` one way, `std::stoll` with a whole-string check the other. */
module Numbers {
  import opened Text

  const INT64_MAX := 0x7FFF_FFFF_FFFF_FFFF

  function Digits(n: nat): (s: string)
    ensures s != ""
  {
    if n < 10 then [Digit(n)] else Digits(n / 10) + [Digit(n % 10)]
  }

  function Digit(n: nat): char
    requires n < 10
  {
    ('0' as int + n) as char
  }

  predicate IsDigit(c: char) {
    '0' <= c <= '9'
  }

  predicate IsSpace(c: char) {
    c == ' ' || '\t' <= c <= '\r'
  }

  predicate AllDigits(s: string) {
    s != "" && forall i :: 0 <= i < |s| ==> IsDigit(s[i])
  }

  function Value(s: string): nat
    requires forall i :: 0 <= i < |s| ==> IsDigit(s[i])
  {
    if s == "" then 0
    else
      assert IsDigit(s[|s| - 1]);
      10 * Value(s[..|s| - 1]) + (s[|s| - 1] as int - '0' as int)
  }

  function SkipSpaces(s: string): string {
    if s != "" && IsSpace(s[0]) then SkipSpaces(s[1..]) else s
  }

  /** `stoll` over the whole string: leading white space, an optional sign, and only digits after that;
      anything else, and any value out of range, is refused. */
  function Parse(s: string): Option<int> {
    var t := SkipSpaces(s);
    var negative := t != "" && t[0] == '-';
    var digits := if t != "" && (t[0] == '-' || t[0] == '+') then t[1..] else t;
    if !AllDigits(digits) then None
    else
      var magnitude: int := Value(digits);
      var v := if negative then -magnitude else magnitude;
      if -INT64_MAX - 1 <= v <= INT64_MAX then Some(v) else None
  }

  /** A room id must be positive; a history limit at most one hundred. */
  function ParseRoomId(s: string): (r: Option<int>)
    ensures r.Some? ==> 0 < r.value <= INT64_MAX
  {
    match Parse(s)
    case None => None
    case Some(v) => if v <= 0 then None else Some(v)
  }

  function ParseLimit(s: string): (r: Option<nat>)
    ensures r.Some? ==> 1 <= r.value <= 100
  {
    match Parse(s)
    case None => None
    case Some(v) => if v <= 0 || v > 100 then None else Some(v)
  }

  lemma {:induction false} DigitsAreDigits(n: nat)
    ensures AllDigits(Digits(n)) && Value(Digits(n)) == n
  {
    if n >= 10 {
      DigitsAreDigits(n / 10);
      var s := Digits(n);
      assert s[..|s| - 1] == Digits(n / 10);
    } else {
      assert Digits(n)[..0] == "";
    }
  }

  /** The id a client reads in a reply is the id the server understands when it is sent back. */
  lemma RoomIdRoundTrip(id: nat)
    requires 0 < id <= INT64_MAX
    ensures ParseRoomId(Digits(id)) == Some(id)
  {
    DigitsAreDigits(id);
    assert IsDigit(Digits(id)[0]);
  }

  // ---------------------------------------------------------------- which strings are accepted

  predicate AllSpaces(s: string) {
    forall i :: 0 <= i < |s| ==> IsSpace(s[i])
  }

  /** White space, a sign or none, and digits that say `v`. */
  ghost predicate Spelled(s: string, spaces: string, sign: string, digits: string, v: int) {
    && s == spaces + (sign + digits) && AllSpaces(spaces) && AllDigits(digits)
    && (sign == "" || sign == "+" || sign == "-")
    && v == (if sign == "-" then -(Value(digits) as int) else Value(digits))
  }

  ghost predicate Spells(s: string, v: int) {
    -INT64_MAX - 1 <= v <= INT64_MAX && exists spaces, sign, digits :: Spelled(s, spaces, sign, digits, v)
  }

  lemma {:induction false} SkipSpacesSplits(s: string)
    ensures var t := SkipSpaces(s);
      |t| <= |s| && s == s[..|s| - |t|] + t && AllSpaces(s[..|s| - |t|]) && (t != "" ==> !IsSpace(t[0]))
    decreases |s|
  {
    if s != "" && IsSpace(s[0]) {
      SkipSpacesSplits(s[1..]);
      var n := |s| - |SkipSpaces(s[1..])|;
      assert s[..n] == [s[0]] + s[1..][..n - 1];
      assert s == [s[0]] + s[1..];
    } else {
      assert s[..0] == "" && s == "" + s;
    }
  }

  lemma {:induction false} SkipSpacesOf(spaces: string, t: string)
    requires AllSpaces(spaces) && (t == "" || !IsSpace(t[0]))
    ensures SkipSpaces(spaces + t) == t
    decreases |spaces|
  {
    if spaces == "" {
      assert spaces + t == t;
    } else {
      assert (spaces + t)[0] == spaces[0] && (spaces + t)[1..] == spaces[1..] + t;
      SkipSpacesOf(spaces[1..], t);
    }
  }

  lemma ParsedIsSpelled(s: string, v: int)
    requires Parse(s) == Some(v)
    ensures Spells(s, v)
  {
    SkipSpacesSplits(s);
    var t := SkipSpaces(s);
    var k := if t != "" && (t[0] == '-' || t[0] == '+') then 1 else 0;
    assert t == t[..k] + t[k..];
    assert k == 0 ==> t[..k] == "" && t[k..] == t;
    assert k == 1 ==> t[..k] == [t[0]];
    assert Spelled(s, s[..|s| - |t|], t[..k], t[k..], v);
  }

  lemma SpelledIsParsed(s: string, spaces: string, sign: string, digits: string, v: int)
    requires Spelled(s, spaces, sign, digits, v) && -INT64_MAX - 1 <= v <= INT64_MAX
    ensures Parse(s) == Some(v)
  {
    assert IsDigit(digits[0]);
    var t := sign + digits;
    SkipSpacesOf(spaces, t);
    if sign == "" {
      assert t == digits;
    } else {
      assert t[0] == sign[0] && t[1..] == digits;
    }
  }

  /** Exactly the spellings of a 64-bit number are accepted, with their value. */
  lemma ParseIff(s: string, v: int)
    ensures Parse(s) == Some(v) <==> Spells(s, v)
  {
    if Parse(s) == Some(v) {
      ParsedIsSpelled(s, v);
    }
    if Spells(s, v) {
      var spaces, sign, digits :| Spelled(s, spaces, sign, digits, v);
      SpelledIsParsed(s, spaces, sign, digits, v);
    }
  }

  /** A room id is any spelling of a positive number. */
  lemma RoomIdIff(s: string, v: int)
    ensures ParseRoomId(s) == Some(v) <==> v > 0 && Spells(s, v)
  {
    ParseIff(s, v);
    if Parse(s).Some? { ParseIff(s, Parse(s).value); }
  }

  /** A history limit is any spelling of a number from 1 to 100. */
  lemma LimitIff(s: string, v: nat)
    ensures ParseLimit(s) == Some(v) <==> 1 <= v <= 100 && Spells(s, v)
  {
    ParseIff(s, v);
    if Parse(s).Some? { ParseIff(s, Parse(s).value); }
  }
}
