/**
 The messages with several fields: ANNOUNCE_BROADCAST with its counted hop list, and the acceptor's
 AUTH_OK and AUTH_ERROR behind their type.
 */
module Replies {
  import opened Wrappers
  import opened VarintCodec
  import opened Messages

  // ANNOUNCE_BROADCAST.

  datatype Broadcast = Broadcast(status: Byte, suffix: Str, hops: seq<nat>)

  predicate BroadcastFits(m: Broadcast) {
    Fits(|m.suffix|) && Fits(|m.hops|) && AllFit(m.hops)
  }

  function BroadcastBody(m: Broadcast): seq<Byte>
    requires BroadcastFits(m)
  {
    Varint(m.status) + (Block(m.suffix) + (Varint(|m.hops|) + Varints(m.hops)))
  }

  /** What AnnounceBroadcastMessage.Decode makes of a body; the status is cut to a byte. */
  function ParseBroadcast(b: seq<Byte>): Result<Broadcast> {
    match ParseVarint(b)
    case Bad(e) => Err(e)
    case Got(num, n) => ParseSuffix(num % 256, b[n..])
  }

  function ParseSuffix(status: Byte, b: seq<Byte>): Result<Broadcast> {
    match ParseBytes(b)
    case Bad(e) => Err(e)
    case Got(suffix, n) => ParseHops(status, suffix, b[n..])
  }

  function ParseHops(status: Byte, suffix: Str, b: seq<Byte>): Result<Broadcast> {
    match ParseVarint(b)
    case Bad(e) => Err(e)
    case Got(count, n) =>
      match ParseVarints(b[n..], count)
      case Bad(e) => Err(e)
      case Got(hops, m) => if m == |b[n..]| then Ok(Broadcast(status, suffix, hops)) else Err(TooShort)
  }

  lemma ParseHopsRoundTrip(status: Byte, suffix: Str, hops: seq<nat>)
    requires Fits(|hops|) && AllFit(hops)
    ensures ParseHops(status, suffix, Varint(|hops|) + Varints(hops)) == Ok(Broadcast(status, suffix, hops))
  {
    var b := Varint(|hops|) + Varints(hops);
    VarintRoundTrip(|hops|, Varints(hops));
    Halves(Varint(|hops|), Varints(hops));
    VarintsRoundTrip(hops, []);
    assert Varints(hops) + [] == Varints(hops);
  }

  lemma ParseSuffixRoundTrip(m: Broadcast)
    requires BroadcastFits(m) && |m.suffix| <= MAX_MESSAGE_SIZE
    ensures ParseSuffix(m.status, Block(m.suffix) + (Varint(|m.hops|) + Varints(m.hops))) == Ok(m)
  {
    var list := Varint(|m.hops|) + Varints(m.hops);
    BlockRoundTrip(m.suffix, list);
    Halves(Block(m.suffix), list);
    ParseHopsRoundTrip(m.status, m.suffix, m.hops);
  }

  lemma StatusRoundTrip(status: Byte, rest: seq<Byte>)
    ensures ParseBroadcast(Varint(status) + rest) == ParseSuffix(status, rest)
  {
    VarintRoundTrip(status, rest);
    Halves(Varint(status), rest);
    assert status % 256 == status;
  }

  /** The status is read modulo 256: a larger number on the wire passes for its low byte. */
  lemma StatusAliases(num: nat, rest: seq<Byte>)
    requires Fits(num)
    ensures ParseBroadcast(Varint(num) + rest) == ParseBroadcast(Varint(num % 256) + rest)
  {
    VarintRoundTrip(num, rest);
    Halves(Varint(num), rest);
    StatusRoundTrip(num % 256, rest);
  }

  lemma BroadcastRoundTrip(m: Broadcast)
    requires BroadcastFits(m) && |m.suffix| <= MAX_MESSAGE_SIZE
    ensures ParseBroadcast(BroadcastBody(m)) == Ok(m)
  {
    StatusRoundTrip(m.status, Block(m.suffix) + (Varint(|m.hops|) + Varints(m.hops)));
    ParseSuffixRoundTrip(m);
  }

  method BroadcastLen(m: Broadcast) returns (l: nat)
    requires BroadcastFits(m)
    ensures l == |BroadcastBody(m)|
  {
    l := VarintLen(m.status) + StringLen(m.suffix) + VarintLen(|m.hops|);
    ghost var before := l;
    for i := 0 to |m.hops|
      invariant l == before + |Varints(m.hops[..i])|
    {
      Longer(m.hops, i);
      VarintsAppend(m.hops[..i], m.hops[i]);
      l := l + VarintLen(m.hops[i]);
    }
    assert m.hops[..|m.hops|] == m.hops;
  }

  method WriteHops(dest: seq<Byte>, hops: seq<nat>) returns (b: seq<Byte>)
    requires AllFit(hops)
    ensures b == dest + Varints(hops)
  {
    b := dest;
    for i := 0 to |hops|
      invariant b == dest + Varints(hops[..i])
    {
      Longer(hops, i);
      VarintsAppend(hops[..i], hops[i]);
      var n;
      b, n := WriteVarint(b, hops[i]);
      Associative(dest, Varints(hops[..i]), Varint(hops[i]));
    }
    assert hops[..|hops|] == hops;
  }

  method EncodeBroadcast(m: Broadcast) returns (b: seq<Byte>)
    requires BroadcastFits(m) && Fits(|BroadcastBody(m)|)
    ensures b == Framed(BroadcastBody(m))
  {
    var msgLen := BroadcastLen(m);
    var n;
    b, n := WriteVarint([], msgLen);
    b, n := WriteVarint(b, m.status);
    b, n := WriteString(b, m.suffix);
    b, n := WriteVarint(b, |m.hops|);
    b := WriteHops(b, m.hops);
    Chain([] + Varint(msgLen), Varint(m.status), Block(m.suffix), Varint(|m.hops|), Varints(m.hops));
    assert [] + Varint(msgLen) == Varint(msgLen);
  }

  method ReadHops(body: seq<Byte>, count: nat) returns (r: Parsed<seq<nat>>)
    ensures r == ParseVarints(body, count)
  {
    var b, hops: seq<nat>, total: nat := body, [], 0;
    BeforeNothing(ParseVarints(body, count));
    for i := 0 to count
      invariant Before(hops, total, ParseVarints(b, count - i)) == ParseVarints(body, count)
    {
      var v := ReadVarint(b);
      if v.Bad? { return Bad(v.error); }
      BeforeCons(hops, total, v.value, v.n, ParseVarints(b[v.n..], count - i - 1));
      hops, total := hops + [v.value], total + v.n;
      b := b[v.n..];
    }
    assert hops + [] == hops;
    return Got(hops, total);
  }

  method DecodeBroadcast(src: Source) returns (r: Result<Broadcast>)
    modifies src
    ensures src.rest == Body(old(src.rest), src.end).1
    ensures var body := Body(old(src.rest), src.end).0; r == if body.Err? then Err(body.error) else ParseBroadcast(body.value)
  {
    var body := ReadBody(src);
    if body.Err? { return Err(body.error); }
    var b := body.value;
    var status := ReadVarint(b);
    if status.Bad? { return Err(status.error); }
    b := b[status.n..];
    var suffix := ReadBytes(b);
    if suffix.Bad? { return Err(suffix.error); }
    b := b[suffix.n..];
    var count := ReadVarint(b);
    if count.Bad? { return Err(count.error); }
    b := b[count.n..];
    var hops := ReadHops(b, count.value);
    if hops.Bad? { return Err(hops.error); }
    b := b[hops.n..];
    if |b| != 0 { return Err(TooShort); }
    return Ok(Broadcast(status.value % 256, suffix.value, hops.value));
  }

  // The acceptor's replies on an auth stream.

  datatype Reply =
    | AuthOk(root: Str, publish: seq<Str>, subscribe: seq<Str>, expires: nat)
    | AuthError(errorCode: nat, reason: Str)
    | UnknownType(t: nat)

  const AUTH_REPLY_OK := 0x0
  const AUTH_REPLY_ERROR := 0x1

  predicate ReplyFits(m: Reply) {
    match m
    case AuthOk(root, publish, subscribe, expires) =>
      Fits(|root|) && Fits(|publish|) && StringsFit(publish) && Fits(|subscribe|) && StringsFit(subscribe) && Fits(expires)
    case AuthError(errorCode, reason) => Fits(errorCode) && Fits(|reason|)
    case UnknownType(_) => false
  }

  function ReplyBody(m: Reply): seq<Byte>
    requires ReplyFits(m)
  {
    match m
    case AuthOk(root, publish, subscribe, expires) =>
      Block(root) + (StringArray(publish) + (StringArray(subscribe) + Varint(expires)))
    case AuthError(errorCode, reason) => Varint(errorCode) + Block(reason)
  }

  /** A reply behind its type, as Encode writes it. */
  function ReplyBytes(m: Reply): seq<Byte>
    requires ReplyFits(m) && Fits(|ReplyBody(m)|)
  {
    Varint(if m.AuthOk? then AUTH_REPLY_OK else AUTH_REPLY_ERROR) + Framed(ReplyBody(m))
  }

  function ParseAuthOk(b: seq<Byte>): Result<Reply> {
    match ParseBytes(b)
    case Bad(e) => Err(e)
    case Got(root, n) => ParsePublish(root, b[n..])
  }

  function ParsePublish(root: Str, b: seq<Byte>): Result<Reply> {
    match ParseStringArray(b)
    case Bad(e) => Err(e)
    case Got(publish, n) => ParseSubscribe(root, publish, b[n..])
  }

  function ParseSubscribe(root: Str, publish: seq<Str>, b: seq<Byte>): Result<Reply> {
    match ParseStringArray(b)
    case Bad(e) => Err(e)
    case Got(subscribe, n) =>
      match ParseVarint(b[n..])
      case Bad(e) => Err(e)
      case Got(expires, m) => if m == |b[n..]| then Ok(AuthOk(root, publish, subscribe, expires)) else Err(TooShort)
  }

  function ParseAuthError(b: seq<Byte>): Result<Reply> {
    match ParseVarint(b)
    case Bad(e) => Err(e)
    case Got(errorCode, n) =>
      match ParseBytes(b[n..])
      case Bad(e) => Err(e)
      case Got(reason, m) => if m == |b[n..]| then Ok(AuthError(errorCode, reason)) else Err(TooShort)
  }

  /** Reading the next reply: its type, then the message of that type; and what is left of the stream. */
  function NextReply(rest: seq<Byte>, end: Error): (Result<Reply>, seq<Byte>) {
    var (t, after) := Length(rest, end);
    match t
    case Err(e) => (Err(e), after)
    case Ok(num) =>
      if num != AUTH_REPLY_OK && num != AUTH_REPLY_ERROR then (Ok(UnknownType(num)), after)
      else
        var (body, left) := Body(after, end);
        (if body.Err? then Err(body.error) else if num == AUTH_REPLY_OK then ParseAuthOk(body.value) else ParseAuthError(body.value), left)
  }

  lemma ParseSubscribeRoundTrip(root: Str, publish: seq<Str>, subscribe: seq<Str>, expires: nat)
    requires |subscribe| <= MAX_MESSAGE_SIZE && StringsShort(subscribe) && Fits(expires)
    ensures ParseSubscribe(root, publish, StringArray(subscribe) + Varint(expires)) == Ok(AuthOk(root, publish, subscribe, expires))
  {
    var b := StringArray(subscribe) + Varint(expires);
    StringArrayRoundTrip(subscribe, Varint(expires));
    VarintRoundTrip(expires, []);
    Halves(StringArray(subscribe), Varint(expires));
    assert Varint(expires) + [] == Varint(expires);
  }

  lemma AuthOkRoundTrip(m: Reply)
    requires m.AuthOk? && |m.root| <= MAX_MESSAGE_SIZE && Fits(m.expires)
    requires |m.publish| <= MAX_MESSAGE_SIZE && StringsShort(m.publish)
    requires |m.subscribe| <= MAX_MESSAGE_SIZE && StringsShort(m.subscribe)
    ensures ParseAuthOk(ReplyBody(m)) == Ok(m)
  {
    var last := StringArray(m.subscribe) + Varint(m.expires);
    var more := StringArray(m.publish) + last;
    BlockRoundTrip(m.root, more);
    Halves(Block(m.root), more);
    StringArrayRoundTrip(m.publish, last);
    Halves(StringArray(m.publish), last);
    ParseSubscribeRoundTrip(m.root, m.publish, m.subscribe, m.expires);
  }

  lemma AuthErrorRoundTrip(m: Reply)
    requires m.AuthError? && Fits(m.errorCode) && |m.reason| <= MAX_MESSAGE_SIZE
    ensures ParseAuthError(ReplyBody(m)) == Ok(m)
  {
    VarintRoundTrip(m.errorCode, Block(m.reason));
    BlockRoundTrip(m.reason, []);
    Halves(Varint(m.errorCode), Block(m.reason));
    assert Block(m.reason) + [] == Block(m.reason);
  }

  lemma {:induction false} StringsInBlocks(arr: seq<Str>)
    requires StringsFit(arr)
    ensures |arr| <= |Blocks(arr)|
    ensures forall i :: 0 <= i < |arr| ==> |arr[i]| <= |Blocks(arr)|
  {
    if arr != [] {
      StringsInBlocks(arr[1..]);
      assert forall i :: 0 < i < |arr| ==> arr[i] == arr[1..][i - 1];
    }
  }

  /** A reply whose body is within the limit is read back, and the stream stands at what follows it. */
  lemma ReplyRoundTrip(m: Reply, rest: seq<Byte>, end: Error)
    requires ReplyFits(m) && |ReplyBody(m)| <= MAX_MESSAGE_SIZE
    ensures NextReply(ReplyBytes(m) + rest, end) == (Ok(m), rest)
  {
    var t := if m.AuthOk? then AUTH_REPLY_OK else AUTH_REPLY_ERROR;
    var after := Framed(ReplyBody(m)) + rest;
    Associative(Varint(t), Framed(ReplyBody(m)), rest);
    VarintRoundTrip(t, after);
    BodyRoundTrip(ReplyBody(m), rest, end);
    Halves(Varint(t), after);
    ReplyBodyRoundTrip(m);
  }

  lemma ReplyBodyRoundTrip(m: Reply)
    requires ReplyFits(m) && |ReplyBody(m)| <= MAX_MESSAGE_SIZE
    ensures m.AuthOk? ==> ParseAuthOk(ReplyBody(m)) == Ok(m)
    ensures m.AuthError? ==> ParseAuthError(ReplyBody(m)) == Ok(m)
  {
    if m.AuthOk? {
      StringsInBlocks(m.publish);
      StringsInBlocks(m.subscribe);
      AuthOkRoundTrip(m);
    } else {
      AuthErrorRoundTrip(m);
    }
  }

  /** ANNOUNCE_BROADCAST likewise. */
  lemma BroadcastStreamRoundTrip(m: Broadcast, rest: seq<Byte>, end: Error)
    requires BroadcastFits(m) && |BroadcastBody(m)| <= MAX_MESSAGE_SIZE
    ensures var (body, left) := Body(Framed(BroadcastBody(m)) + rest, end);
            body.Ok? && ParseBroadcast(body.value) == Ok(m) && left == rest
  {
    BodyRoundTrip(BroadcastBody(m), rest, end);
    BroadcastRoundTrip(m);
  }

  /** SETUP likewise, up to its duplicates. */
  lemma SetupStreamRoundTrip(ps: seq<Param>, rest: seq<Byte>, end: Error)
    requires Fits(|ps|) && ParamsFit(ps) && |SetupBody(ps)| <= MAX_MESSAGE_SIZE
    ensures var (body, left) := Body(Framed(SetupBody(ps)) + rest, end);
            body.Ok? && ParseSetup(body.value) == (if Distinct(ps) then Ok(ps) else Err(DuplicateParameter)) && left == rest
  {
    BodyRoundTrip(SetupBody(ps), rest, end);
    ParamsInBody(ps);
    SetupRoundTrip(ps);
  }

  lemma {:induction false} ParamsInBody(ps: seq<Param>)
    requires ParamsFit(ps)
    ensures forall i :: 0 <= i < |ps| ==> |ps[i].value| <= |ParamsBytes(ps)|
  {
    if ps != [] {
      ParamsInBody(ps[1..]);
      assert forall i :: 0 < i < |ps| ==> ps[i] == ps[1..][i - 1];
    }
  }

  method ReplyLen(m: Reply) returns (l: nat)
    requires ReplyFits(m)
    ensures l == |ReplyBody(m)|
  {
    match m
    case AuthOk(root, publish, subscribe, expires) =>
      var p := StringArrayLen(publish);
      var s := StringArrayLen(subscribe);
      l := StringLen(root) + p + s + VarintLen(expires);
    case AuthError(errorCode, reason) =>
      l := VarintLen(errorCode) + StringLen(reason);
  }

  lemma HeadOf(t: nat, msgLen: nat, body: seq<Byte>)
    requires Fits(t) && Fits(msgLen)
    ensures [] + Varint(t) + Varint(msgLen) + body == Varint(t) + (Varint(msgLen) + body)
  {
    assert [] + Varint(t) == Varint(t);
    Associative(Varint(t), Varint(msgLen), body);
  }

  method EncodeAuthOk(m: Reply) returns (b: seq<Byte>)
    requires m.AuthOk? && ReplyFits(m) && Fits(|ReplyBody(m)|)
    ensures b == ReplyBytes(m)
  {
    var msgLen := ReplyLen(m);
    var n;
    b, n := WriteVarint([], AUTH_REPLY_OK);
    b, n := WriteVarint(b, msgLen);
    ghost var head := b;
    b, n := WriteString(b, m.root);
    b, n := WriteStringArray(b, m.publish);
    b, n := WriteStringArray(b, m.subscribe);
    b, n := WriteVarint(b, m.expires);
    Chain(head, Block(m.root), StringArray(m.publish), StringArray(m.subscribe), Varint(m.expires));
    HeadOf(AUTH_REPLY_OK, msgLen, ReplyBody(m));
  }

  method EncodeAuthError(m: Reply) returns (b: seq<Byte>)
    requires m.AuthError? && ReplyFits(m) && Fits(|ReplyBody(m)|)
    ensures b == ReplyBytes(m)
  {
    var msgLen := ReplyLen(m);
    var n;
    b, n := WriteVarint([], AUTH_REPLY_ERROR);
    b, n := WriteVarint(b, msgLen);
    ghost var head := b;
    b, n := WriteVarint(b, m.errorCode);
    b, n := WriteString(b, m.reason);
    Associative(head, Varint(m.errorCode), Block(m.reason));
    HeadOf(AUTH_REPLY_ERROR, msgLen, ReplyBody(m));
  }

  method DecodeAuthOk(src: Source) returns (r: Result<Reply>)
    modifies src
    ensures src.rest == Body(old(src.rest), src.end).1
    ensures var body := Body(old(src.rest), src.end).0; r == if body.Err? then Err(body.error) else ParseAuthOk(body.value)
  {
    var body := ReadBody(src);
    if body.Err? { return Err(body.error); }
    var b := body.value;
    var root := ReadBytes(b);
    if root.Bad? { return Err(root.error); }
    b := b[root.n..];
    var publish := ReadStringArray(b);
    if publish.Bad? { return Err(publish.error); }
    b := b[publish.n..];
    var subscribe := ReadStringArray(b);
    if subscribe.Bad? { return Err(subscribe.error); }
    b := b[subscribe.n..];
    var expires := ReadVarint(b);
    if expires.Bad? { return Err(expires.error); }
    b := b[expires.n..];
    if |b| != 0 { return Err(TooShort); }
    return Ok(AuthOk(root.value, publish.value, subscribe.value, expires.value));
  }

  method DecodeAuthError(src: Source) returns (r: Result<Reply>)
    modifies src
    ensures src.rest == Body(old(src.rest), src.end).1
    ensures var body := Body(old(src.rest), src.end).0; r == if body.Err? then Err(body.error) else ParseAuthError(body.value)
  {
    var body := ReadBody(src);
    if body.Err? { return Err(body.error); }
    var b := body.value;
    var errorCode := ReadVarint(b);
    if errorCode.Bad? { return Err(errorCode.error); }
    b := b[errorCode.n..];
    var reason := ReadBytes(b);
    if reason.Bad? { return Err(reason.error); }
    b := b[reason.n..];
    if |b| != 0 { return Err(TooShort); }
    return Ok(AuthError(errorCode.value, reason.value));
  }

  /** ReadAuthReplyType, then the decoder for that type. */
  method ReadReply(src: Source) returns (r: Result<Reply>)
    modifies src
    ensures (r, src.rest) == NextReply(old(src.rest), src.end)
  {
    var t := ReadMessageLengthBytewise(src);
    if t.Err? { return Err(t.error); }
    if t.value == AUTH_REPLY_OK {
      r := DecodeAuthOk(src);
    } else if t.value == AUTH_REPLY_ERROR {
      r := DecodeAuthError(src);
    } else {
      return Ok(UnknownType(t.value));
    }
  }
}
