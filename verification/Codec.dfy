/** The wire protocol: seventeen commands, one line each, fields separated by CR. */
module Codec {
  import opened Text

  const CR := '\r'
  const LF := '\n'

  datatype Command =
    | Say(roomId: string, text: string)
    | Nick(nick: string)
    | Response(text: string)
    | Login(id: string, pw: string)
    | Register(id: string, pw: string)
    | FriendRequest(toUserId: string)
    | FriendAccept(fromUserId: string)
    | FriendReject(fromUserId: string)
    | FriendRemove(friendUserId: string)
    | ListFriend
    | ListFriendRequest
    | CreateRoom(roomName: string)
    | DeleteRoom(roomId: string)
    | InviteRoom(roomId: string, friendUserId: string)
    | LeaveRoom(roomId: string)
    | ListRoom
    | History(roomId: string, limit: string)

  datatype DecodeError = EmptyLine | InvalidCommand | UnexpectedArgument

  function Name(c: Command): string {
    match c
    case Say(_, _) => "say"
    case Nick(_) => "nick"
    case Response(_) => "response"
    case Login(_, _) => "login"
    case Register(_, _) => "register"
    case FriendRequest(_) => "friend_request"
    case FriendAccept(_) => "friend_accept"
    case FriendReject(_) => "friend_reject"
    case FriendRemove(_) => "friend_remove"
    case ListFriend => "list_friend"
    case ListFriendRequest => "list_friend_request"
    case CreateRoom(_) => "create_room"
    case DeleteRoom(_) => "delete_room"
    case InviteRoom(_, _) => "invite_room"
    case LeaveRoom(_) => "leave_room"
    case ListRoom => "list_room"
    case History(_, _) => "history"
  }

  function Fields(c: Command): seq<string> {
    match c
    case Say(a, b) => [a, b]
    case Nick(a) => [a]
    case Response(a) => [a]
    case Login(a, b) => [a, b]
    case Register(a, b) => [a, b]
    case FriendRequest(a) => [a]
    case FriendAccept(a) => [a]
    case FriendReject(a) => [a]
    case FriendRemove(a) => [a]
    case ListFriend => []
    case ListFriendRequest => []
    case CreateRoom(a) => [a]
    case DeleteRoom(a) => [a]
    case InviteRoom(a, b) => [a, b]
    case LeaveRoom(a) => [a]
    case ListRoom => []
    case History(a, b) => [a, b]
  }

  function Encode(c: Command): string {
    match c
    case Nick(nick) => "nick" + "\r" + nick + "\n"
    case Say(roomId, text) => "say" + "\r" + roomId + "\r" + text + "\n"
    case Response(text) => "response" + "\r" + text + "\n"
    case Login(id, pw) => "login" + "\r" + id + "\r" + pw + "\n"
    case Register(id, pw) => "register" + "\r" + id + "\r" + pw + "\n"
    case FriendRequest(to) => "friend_request" + "\r" + to + "\n"
    case FriendAccept(from) => "friend_accept" + "\r" + from + "\n"
    case FriendReject(from) => "friend_reject" + "\r" + from + "\n"
    case FriendRemove(other) => "friend_remove" + "\r" + other + "\n"
    case ListFriend => "list_friend" + "\n"
    case ListFriendRequest => "list_friend_request" + "\n"
    case CreateRoom(name) => "create_room" + "\r" + name + "\n"
    case DeleteRoom(roomId) => "delete_room" + "\r" + roomId + "\n"
    case InviteRoom(roomId, other) => "invite_room" + "\r" + roomId + "\r" + other + "\n"
    case LeaveRoom(roomId) => "leave_room" + "\r" + roomId + "\n"
    case ListRoom => "list_room" + "\n"
    case History(roomId, limit) => "history" + "\r" + roomId + "\r" + limit + "\n"
  }

  /** At most one trailing LF is dropped. */
  function EraseDelimiter(line: string): (r: string)
    ensures line == r || line == r + [LF]
    ensures line != "" && line[|line| - 1] == LF ==> line == r + [LF]
  {
    if line != "" && line[|line| - 1] == LF then line[..|line| - 1] else line
  }

  function NonEmpty(s: string): seq<string> {
    if s == "" then [] else [s]
  }

  /** One if an LF stands at position `i`, and must be stepped over. */
  function LfAt(line: string, i: nat): nat {
    if i < |line| && line[i] == LF then 1 else 0
  }

  /** The tokens from position `start` on: non-empty pieces, where a CR ends a piece and
      swallows one LF after it. */
  ghost function TokensFrom(line: string, start: nat): seq<string>
    decreases |line| - start
  {
    if start >= |line| then []
    else NonEmpty(line[start..EndOf(line, start)]) + TokensFrom(line, NextOf(line, start))
  }

  /** Where the piece starting at `start` ends, and where the next one starts. */
  ghost function EndOf(line: string, start: nat): (e: nat)
    requires start <= |line|
    ensures Ends(line, start, e)
  {
    EndExists(line, start);
    var e: nat :| Ends(line, start, e);
    e
  }

  ghost predicate Ends(line: string, start: nat, e: nat) {
    && start <= e <= |line| && (e < |line| ==> line[e] == CR)
    && forall i :: start <= i < e ==> line[i] != CR
  }

  lemma EndExists(line: string, start: nat)
    requires start <= |line|
    ensures exists e: nat :: Ends(line, start, e)
  {
    var pos := Find(line, CR, start);
    assert Ends(line, start, if pos.None? then |line| else pos.value);
  }

  ghost function NextOf(line: string, start: nat): (n: nat)
    requires start <= |line|
    ensures n > EndOf(line, start)
  {
    var e := EndOf(line, start);
    e + 1 + LfAt(line, e + 1)
  }

  ghost function Tokens(line: string): seq<string> {
    TokensFrom(line, 0)
  }

  /** What the scan has stored so far: the first token names the command. */
  function Found(cmd: string, args: seq<string>): seq<string> {
    if cmd == "" then [] else [cmd] + args
  }

  /** The scan of a line: the first token is the command, the others its arguments. */
  method DecodeLine(line: string) returns (cmd: string, args: seq<string>)
    ensures Found(cmd, args) == Tokens(line)
    ensures cmd == "" ==> args == []
  {
    cmd, args := "", [];
    var start: nat := 0;
    ghost var found: seq<string> := [];
    ScanStarts(line);
    while start < |line|
      invariant (cmd == "" ==> args == []) && found == Found(cmd, args)
      invariant SoFar(line, found, start)
      decreases |line| - start
    {
      var pos := FindCr(line, start);
      if pos.None? {
        var tail := line[start..|line|];
        cmd, args := Store(cmd, args, tail);
        ScanKeeps(line, found, start, |line|, |line| + 1);
        ScanEnds(line, found + NonEmpty(tail), |line| + 1);
        return;
      }
      var token := line[start..pos.value];
      cmd, args := Store(cmd, args, token);
      ghost var from := start;
      start := pos.value + 1;
      if start < |line| && line[start] == LF { start := start + 1; }
      ScanKeeps(line, found, from, pos.value, start);
      found := found + NonEmpty(token);
    }
    ScanEnds(line, found, start);
  }

  /** The next CR, which ends the piece at `start`. */
  method FindCr(line: string, start: nat) returns (pos: Option<nat>)
    requires start <= |line|
    ensures Ends(line, start, if pos.None? then |line| else pos.value)
    ensures pos.Some? ==> pos.value < |line|
  {
    pos := Find(line, CR, start);
  }

  lemma TokensUnfold(line: string, start: nat, e: nat, n: nat)
    requires start < |line| && e == EndOf(line, start) && n == NextOf(line, start)
    ensures TokensFrom(line, start) == NonEmpty(line[start..e]) + TokensFrom(line, n)
  {}

  /** A piece ends at the first CR, so knowing its end is knowing the piece. */
  lemma EndIs(line: string, start: nat, e: nat)
    requires Ends(line, start, e)
    ensures EndOf(line, start) == e && NextOf(line, start) == e + 1 + LfAt(line, e + 1)
  {}

  /** The tokens found so far and those still to come are all tokens. */
  ghost predicate SoFar(line: string, found: seq<string>, start: nat) {
    Tokens(line) == found + TokensFrom(line, start)
  }

  lemma ScanKeeps(line: string, found: seq<string>, start: nat, e: nat, n: nat)
    requires start < |line| && Ends(line, start, e) && n == e + 1 + LfAt(line, e + 1)
    requires SoFar(line, found, start)
    ensures SoFar(line, found + NonEmpty(line[start..e]), n)
  {
    EndIs(line, start, e);
    TokensUnfold(line, start, e, n);
    Assoc(found, NonEmpty(line[start..e]), TokensFrom(line, n));
  }

  lemma ScanStarts(line: string)
    ensures SoFar(line, [], 0)
  {}

  lemma ScanEnds(line: string, found: seq<string>, start: nat)
    requires |line| <= start && SoFar(line, found, start)
    ensures Tokens(line) == found
  {}

  method Store(cmd: string, args: seq<string>, token: string) returns (cmd': string, args': seq<string>)
    requires cmd == "" ==> args == []
    ensures cmd' == "" ==> args' == []
    ensures Found(cmd', args') == Found(cmd, args) + NonEmpty(token)
  {
    cmd', args' := cmd, args;
    if token != "" {
      if cmd == "" { cmd' := token; } else { args' := args + [token]; }
    }
  }

  /** The command a name and an argument list stand for. */
  function Build(name: string, args: seq<string>): Result<Command, DecodeError> {
    if name == "say" then Two(args, (a, b) => Say(a, b))
    else if name == "nick" then One(args, a => Nick(a))
    else if name == "response" then One(args, a => Response(a))
    else if name == "login" then Two(args, (a, b) => Login(a, b))
    else if name == "register" then Two(args, (a, b) => Register(a, b))
    else if name == "friend_request" then One(args, a => FriendRequest(a))
    else if name == "friend_accept" then One(args, a => FriendAccept(a))
    else if name == "friend_reject" then One(args, a => FriendReject(a))
    else if name == "friend_remove" then One(args, a => FriendRemove(a))
    else if name == "list_friend" then Zero(args, ListFriend)
    else if name == "list_friend_request" then Zero(args, ListFriendRequest)
    else if name == "create_room" then One(args, a => CreateRoom(a))
    else if name == "delete_room" then One(args, a => DeleteRoom(a))
    else if name == "invite_room" then Two(args, (a, b) => InviteRoom(a, b))
    else if name == "leave_room" then One(args, a => LeaveRoom(a))
    else if name == "list_room" then Zero(args, ListRoom)
    else if name == "history" then Two(args, (a, b) => History(a, b))
    else Err(InvalidCommand)
  }

  function Zero(args: seq<string>, c: Command): Result<Command, DecodeError> {
    if args == [] then Ok(c) else Err(UnexpectedArgument)
  }

  function One(args: seq<string>, make: string -> Command): Result<Command, DecodeError> {
    if |args| == 1 then Ok(make(args[0])) else Err(UnexpectedArgument)
  }

  function Two(args: seq<string>, make: (string, string) -> Command): Result<Command, DecodeError> {
    if |args| == 2 then Ok(make(args[0], args[1])) else Err(UnexpectedArgument)
  }

  ghost function Decode(line: string): Result<Command, DecodeError> {
    var tokens := Tokens(EraseDelimiter(line));
    if tokens == [] then Err(EmptyLine) else Build(tokens[0], tokens[1..])
  }

  /** The decoder as the program runs it, on top of the scan. */
  method DecodeCommand(line: string) returns (r: Result<Command, DecodeError>)
    ensures r == Decode(line)
  {
    var body := EraseDelimiter(line);
    if body == "" { return Err(EmptyLine); }
    var cmd, args := DecodeLine(body);
    if cmd == "" { return Err(EmptyLine); }
    assert Tokens(body)[0] == cmd && Tokens(body)[1..] == args;
    r := Build(cmd, args);
  }

  // ---------------------------------------------------------------- names and arguments

  lemma TwoBuilds(c: Command)
    requires |Fields(c)| == 2
    ensures Build(Name(c), Fields(c)) == Ok(c)
  {}

  lemma FriendBuilds(c: Command)
    requires c.FriendRequest? || c.FriendAccept? || c.FriendReject? || c.FriendRemove?
    ensures Build(Name(c), Fields(c)) == Ok(c)
  {}

  /** Building from a command's own name and fields gives the command. */
  lemma BuildInvertsFields(c: Command)
    ensures Build(Name(c), Fields(c)) == Ok(c)
  {
    if |Fields(c)| == 2 {
      TwoBuilds(c);
    } else if c.FriendRequest? || c.FriendAccept? || c.FriendReject? || c.FriendRemove? {
      FriendBuilds(c);
    }
  }

  lemma BuildArity(c: Command, args: seq<string>)
    requires |args| != |Fields(c)|
    ensures Build(Name(c), args) == Err(UnexpectedArgument)
  {
    match c {
      case Say(_, _) => case Nick(_) => case Response(_) => case Login(_, _) => case Register(_, _) =>
      case FriendRequest(_) => case FriendAccept(_) => case FriendReject(_) => case FriendRemove(_) =>
      case ListFriend => case ListFriendRequest => case CreateRoom(_) => case DeleteRoom(_) =>
      case InviteRoom(_, _) => case LeaveRoom(_) => case ListRoom => case History(_, _) =>
    }
  }

  lemma FieldsInvertBuild(name: string, args: seq<string>, c: Command)
    requires Build(name, args) == Ok(c)
    ensures Name(c) == name && Fields(c) == args
  {
    if |args| == 0 {
      ZeroInverts(name, args, c);
    } else if |args| == 1 {
      OneInverts(name, args, c);
    } else {
      TwoInverts(name, args, c);
    }
  }

  lemma ZeroInverts(name: string, args: seq<string>, c: Command)
    requires |args| == 0 && Build(name, args) == Ok(c)
    ensures Name(c) == name && Fields(c) == args
  {}

  lemma OneInverts(name: string, args: seq<string>, c: Command)
    requires |args| == 1 && Build(name, args) == Ok(c)
    ensures Name(c) == name && Fields(c) == args
  {
    assert args == [args[0]];
  }

  lemma TwoInverts(name: string, args: seq<string>, c: Command)
    requires |args| >= 2 && Build(name, args) == Ok(c)
    ensures Name(c) == name && Fields(c) == args
  {
    assert |args| == 2 ==> args == [args[0], args[1]];
  }

  // ---------------------------------------------------------------- what encoding writes

  /** A name and its arguments, CR between them. */
  function Body(name: string, args: seq<string>): string {
    Join([name] + args, CR)
  }

  lemma BodyByArity(name: string, args: seq<string>)
    requires |args| <= 2
    ensures |args| == 0 ==> Body(name, args) == name
    ensures |args| == 1 ==> Body(name, args) == name + [CR] + args[0]
    ensures |args| == 2 ==> Body(name, args) == name + [CR] + (args[0] + [CR] + args[1])
  {
    var pieces := [name] + args;
    assert pieces[1..] == args;
    if |args| == 2 {
      assert args[1..] == [args[1]];
      assert Join(args, CR) == args[0] + [CR] + Join(args[1..], CR);
    }
  }

  lemma EncodeIsBody(c: Command)
    ensures Encode(c) == Body(Name(c), Fields(c)) + [LF]
  {
    BodyByArity(Name(c), Fields(c));
    match c {
      case Say(a, b) => OneLine("say", a, b);
      case Login(a, b) => OneLine("login", a, b);
      case Register(a, b) => OneLine("register", a, b);
      case InviteRoom(a, b) => OneLine("invite_room", a, b);
      case History(a, b) => OneLine("history", a, b);
      case Nick(_) => case Response(_) =>
      case FriendRequest(_) => case FriendAccept(_) => case FriendReject(_) => case FriendRemove(_) =>
      case ListFriend => case ListFriendRequest => case CreateRoom(_) => case DeleteRoom(_) =>
      case LeaveRoom(_) => case ListRoom =>
    }
  }

  lemma OneLine(name: string, a: string, b: string)
    ensures name + "\r" + a + "\r" + b + "\n" == name + [CR] + (a + [CR] + b) + [LF]
  {}

  lemma NameIsPlain(c: Command)
    ensures Name(c) != "" && CR !in Name(c) && LF !in Name(c)
  {}

  ghost function DecodeBody(body: string): Result<Command, DecodeError> {
    var tokens := Tokens(body);
    if tokens == [] then Err(EmptyLine) else Build(tokens[0], tokens[1..])
  }

  lemma DecodeOfEncode(c: Command)
    ensures Decode(Encode(c)) == DecodeBody(Body(Name(c), Fields(c)))
  {
    EncodeIsBody(c);
    ErasesOneDelimiter(Body(Name(c), Fields(c)));
  }

  lemma ErasesOneDelimiter(body: string)
    ensures EraseDelimiter(body + [LF]) == body
  {
    assert (body + [LF])[|body|] == LF;
  }

  // ---------------------------------------------------------------- tokens

  /** `s` is the end of `line`, `d` characters in. */
  ghost predicate EndsWith(line: string, d: nat, s: string) {
    |line| == d + |s| && forall i :: d <= i < |line| ==> line[i] == s[i - d]
  }

  /** Tokens do not depend on what stands before the starting position. */
  lemma {:induction false} TokensShift(line: string, d: nat, s: string, k: nat)
    requires EndsWith(line, d, s)
    ensures TokensFrom(line, d + k) == TokensFrom(s, k)
    decreases |s| - k
  {
    if k < |s| {
      TokensShift(line, d, s, NextOf(s, k));
      ShiftOne(line, d, s, k, NextOf(s, k));
    }
  }

  lemma ShiftOne(line: string, d: nat, s: string, k: nat, n: nat)
    requires EndsWith(line, d, s) && k < |s| && n == NextOf(s, k)
    requires TokensFrom(line, d + n) == TokensFrom(s, n)
    ensures TokensFrom(line, d + k) == TokensFrom(s, k)
  {
    PieceShift(line, d, s, k);
    SameTokens(line, d + k, s, k, d + n, n);
  }

  lemma SameTokens(line: string, i: nat, s: string, k: nat, n: nat, m: nat)
    requires i < |line| && k < |s| && n == NextOf(line, i) && m == NextOf(s, k)
    requires line[i..EndOf(line, i)] == s[k..EndOf(s, k)] && TokensFrom(line, n) == TokensFrom(s, m)
    ensures TokensFrom(line, i) == TokensFrom(s, k)
  {
    TokensUnfold(line, i, EndOf(line, i), n);
    TokensUnfold(s, k, EndOf(s, k), m);
  }

  lemma PieceShift(line: string, d: nat, s: string, k: nat)
    requires EndsWith(line, d, s) && k < |s|
    ensures EndOf(line, d + k) == d + EndOf(s, k) && NextOf(line, d + k) == d + NextOf(s, k)
    ensures line[d + k..EndOf(line, d + k)] == s[k..EndOf(s, k)]
  {
    EndIs(line, d + k, d + EndOf(s, k));
  }

  /** A CR-free head gives one token, and the scan goes on behind the CR. */
  lemma TokensCut(head: string, k: nat, rest: string)
    requires Free(head, CR) && k <= |head|
    ensures TokensFrom(head + [CR] + rest, k) == NonEmpty(head[k..]) + TokensFrom(rest, LfAt(rest, 0))
  {
    var line := head + [CR] + rest;
    CutPiece(head, k, rest, line);
    TokensBehind(line, k, |head|, rest);
  }

  lemma CutPiece(head: string, k: nat, rest: string, line: string)
    requires Free(head, CR) && k <= |head| && line == head + [CR] + rest
    ensures Ends(line, k, |head|) && EndsWith(line, |head| + 1, rest)
    ensures line[k..|head|] == head[k..]
  {}

  lemma TokensBehind(line: string, k: nat, e: nat, rest: string)
    requires k < |line| && Ends(line, k, e) && EndsWith(line, e + 1, rest)
    ensures TokensFrom(line, k) == NonEmpty(line[k..e]) + TokensFrom(rest, LfAt(rest, 0))
  {
    EndIs(line, k, e);
    assert LfAt(line, e + 1) == LfAt(rest, 0);
    TokensShift(line, e + 1, rest, LfAt(rest, 0));
    TokensUnfold(line, k, e, e + 1 + LfAt(rest, 0));
  }

  lemma TokensPlain(s: string, k: nat)
    requires Free(s, CR) && k <= |s|
    ensures TokensFrom(s, k) == NonEmpty(s[k..])
  {
    if k < |s| {
      EndIs(s, k, |s|);
      assert TokensFrom(s, NextOf(s, k)) == [];
      assert s[k..|s|] == s[k..];
      assert TokensFrom(s, k) == NonEmpty(s[k..]) + [];
    }
  }

  ghost predicate CleanToken(t: string) {
    t != "" && CR !in t
  }

  /** Every token is non-empty and free of CR. */
  lemma {:induction false} TokensAreClean(line: string, start: nat)
    ensures forall t :: t in TokensFrom(line, start) ==> CleanToken(t)
    decreases |line| - start
  {
    if start < |line| {
      TokensAreClean(line, NextOf(line, start));
    }
  }

  /** Every token of a line without LF is without LF. */
  lemma {:induction false} TokensKeepLfOut(line: string, start: nat)
    requires LF !in line
    ensures AllFree(TokensFrom(line, start), LF)
    decreases |line| - start
  {
    if start < |line| {
      TokensKeepLfOut(line, NextOf(line, start));
      assert Free(line[start..EndOf(line, start)], LF);
    }
  }

  function DropEmpty(pieces: seq<string>): seq<string> {
    if pieces == [] then [] else NonEmpty(pieces[0]) + DropEmpty(pieces[1..])
  }

  /** On a line without LF the scan is: split at every CR and drop the empty pieces. */
  lemma {:induction false} TokensAreSplitPieces(line: string)
    requires LF !in line
    ensures Tokens(line) == DropEmpty(Split(line, CR))
    decreases |line|
  {
    match Find(line, CR, 0)
    case None =>
      TokensPlain(line, 0);
      assert line[0..] == line;
      assert DropEmpty([line]) == NonEmpty(line) + [];
    case Some(p) =>
      var head, rest := line[..p], line[p + 1..];
      assert line == head + [CR] + rest;
      assert LF !in rest by { assert forall c :: c in rest ==> c in line; }
      assert head[0..] == head;
      TokensCut(head, 0, rest);
      TokensAreSplitPieces(rest);
      assert Split(line, CR)[1..] == Split(rest, CR);
  }

  // ---------------------------------------------------------------- round trips

  /** A field the wire can carry: not empty, no CR, and not starting with LF. */
  predicate Carried(f: string) {
    f != "" && CR !in f && f[0] != LF
  }

  /** An argument without its LF at the head, if it has one. */
  function SkipLf(s: string): string {
    s[LfAt(s, 0)..]
  }

  function Skipped(args: seq<string>): seq<string> {
    if |args| == 0 then []
    else if |args| == 1 then NonEmpty(SkipLf(args[0]))
    else NonEmpty(SkipLf(args[0])) + NonEmpty(SkipLf(args[1]))
  }

  /** The tokens of a body whose arguments hold no CR: an LF at the head of an argument is lost. */
  lemma TokensOfBody(name: string, args: seq<string>)
    requires |args| <= 2 && name != "" && Free(name, CR) && AllFree(args, CR)
    ensures Tokens(Body(name, args)) == [name] + Skipped(args)
  {
    BodyByArity(name, args);
    assert name[0..] == name;
    if |args| == 0 {
      TokensPlain(name, 0);
    } else if |args| == 1 {
      TokensCut(name, 0, args[0]);
      assert Free(args[0], CR);
      TokensPlain(args[0], LfAt(args[0], 0));
    } else {
      TokensCut(name, 0, args[0] + [CR] + args[1]);
      assert Free(args[0], CR) && Free(args[1], CR);
      TwoArguments(args[0], args[1]);
    }
  }

  lemma TwoArguments(a: string, b: string)
    requires Free(a, CR) && Free(b, CR)
    ensures var rest := a + [CR] + b;
      TokensFrom(rest, LfAt(rest, 0)) == NonEmpty(SkipLf(a)) + NonEmpty(SkipLf(b))
  {
    var rest := a + [CR] + b;
    assert LfAt(rest, 0) == LfAt(a, 0);
    TokensCut(a, LfAt(a, 0), b);
    TokensPlain(b, LfAt(b, 0));
  }

  /** Nothing is lost from carried arguments. */
  lemma SkippedKeepsCarried(args: seq<string>)
    requires |args| <= 2
    ensures (forall f :: f in args ==> Carried(f)) ==> Skipped(args) == args
    ensures Skipped(args) == args ==> forall f :: f in args && f != "" ==> f[0] != LF
  {
    assert |args| >= 1 ==> args[0] in args;
    assert |args| >= 2 ==> args[1] in args;
    if Skipped(args) == args {
      forall f | f in args && f != "" ensures f[0] != LF {
        if |args| == 1 {
          assert f == args[0];
        } else {
          assert f == args[0] || f == args[1];
        }
      }
    }
  }

  /** Decoding a body gives its own name and arguments back exactly when each argument is carried. */
  lemma TokensRoundTrip(name: string, args: seq<string>)
    requires |args| <= 2 && name != "" && Free(name, CR)
    ensures Tokens(Body(name, args)) == [name] + args <==> forall f :: f in args ==> Carried(f)
  {
    var ts := Tokens(Body(name, args));
    TokensAreClean(Body(name, args), 0);
    SkippedKeepsCarried(args);
    if ts == [name] + args {
      assert forall f :: f in args ==> f in ts && CleanToken(f) && Free(f, CR);
      TokensOfBody(name, args);
      assert ts[1..] == Skipped(args) == args;
    } else if forall f :: f in args ==> Carried(f) {
      assert forall f :: f in args ==> Carried(f) && Free(f, CR);
      TokensOfBody(name, args);
    }
  }

  /** The codec is lossless on a command exactly when every field can be carried. */
  lemma RoundTripIff(c: Command)
    ensures Decode(Encode(c)) == Ok(c) <==> forall f :: f in Fields(c) ==> Carried(f)
  {
    DecodeOfEncode(c);
    NameIsPlain(c);
    ArityIsAtMostTwo(c);
    TokensRoundTrip(Name(c), Fields(c));
    BuildInvertsFields(c);
    var ts := Tokens(Body(Name(c), Fields(c)));
    if ts == [Name(c)] + Fields(c) {
      assert ts[1..] == Fields(c);
    } else if Decode(Encode(c)) == Ok(c) {
      FieldsInvertBuild(ts[0], ts[1..], c);
    }
  }

  lemma ArityIsAtMostTwo(c: Command)
    ensures |Fields(c)| <= 2
  {}

  /** For fields the line splitter lets through, an empty field is the only obstacle,
      and it is reported as a wrong number of arguments. */
  lemma EmptyFieldIsRejected(c: Command)
    requires forall f :: f in Fields(c) ==> CR !in f && LF !in f
    ensures Decode(Encode(c)) == if "" in Fields(c) then Err(UnexpectedArgument) else Ok(c)
  {
    RoundTripIff(c);
    var n, fs := Name(c), Fields(c);
    if "" in fs {
      DecodeOfEncode(c);
      NameIsPlain(c);
      ArityIsAtMostTwo(c);
      FewerTokens(n, fs);
      BuildArity(c, Tokens(Body(n, fs))[1..]);
    } else {
      forall f | f in fs ensures Carried(f) {
        assert f[0] in f;
      }
    }
  }

  lemma FewerTokens(name: string, args: seq<string>)
    requires |args| <= 2 && name != "" && Free(name, CR) && "" in args
    requires forall f :: f in args ==> CR !in f && LF !in f
    ensures Tokens(Body(name, args)) != [] && Tokens(Body(name, args))[0] == name
    ensures |Tokens(Body(name, args))| <= |args|
  {
    assert forall f :: f in args ==> Free(f, CR);
    TokensOfBody(name, args);
  }

  /** Whatever a received line decodes to is carried unchanged from then on. */
  lemma DecodedIsStable(line: string, c: Command)
    requires LF !in line && Decode(line) == Ok(c)
    ensures Decode(Encode(c)) == Ok(c)
  {
    assert EraseDelimiter(line) == line;
    var ts := Tokens(line);
    TokensAreClean(line, 0);
    TokensKeepLfOut(line, 0);
    FieldsInvertBuild(ts[0], ts[1..], c);
    forall f | f in Fields(c) ensures Carried(f) {
      assert f in ts && CleanToken(f) && Free(f, LF);
      assert f[0] in f;
    }
    RoundTripIff(c);
  }

  /** No decoded command has an empty field. */
  lemma DecodedFieldsAreNotEmpty(line: string, c: Command)
    requires Decode(line) == Ok(c)
    ensures forall f :: f in Fields(c) ==> f != ""
  {
    var body := EraseDelimiter(line);
    var ts := Tokens(body);
    TokensAreClean(body, 0);
    FieldsInvertBuild(ts[0], ts[1..], c);
    forall f | f in Fields(c) ensures f != "" {
      assert f in ts && CleanToken(f);
    }
  }

  /** An encoded command is one line exactly when its fields hold no LF. */
  lemma EncodeIsOneLine(c: Command)
    ensures Encode(c) == Body(Name(c), Fields(c)) + [LF]
    ensures LF !in Body(Name(c), Fields(c)) <==> forall f :: f in Fields(c) ==> LF !in f
  {
    EncodeIsBody(c);
    NameIsPlain(c);
    ArityIsAtMostTwo(c);
    LfOfBody(Name(c), Fields(c));
  }

  lemma LfOfBody(name: string, args: seq<string>)
    requires |args| <= 2 && LF !in name
    ensures LF !in Body(name, args) <==> forall f :: f in args ==> LF !in f
  {
    BodyByArity(name, args);
    assert |args| >= 1 ==> args[0] in args;
    assert |args| >= 2 ==> args[1] in args;
    assert |args| == 1 ==> forall f :: f in args ==> f == args[0];
    assert |args| == 2 ==> forall f :: f in args ==> f == args[0] || f == args[1];
  }
}
