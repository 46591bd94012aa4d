/**
 Control messages: a length, then fields one after another. Each message is its own body specification;
 Encode and Decode are proved against it and decoding undoes encoding.
 */
module Messages {
  import opened Wrappers
  import opened VarintCodec

  /** A Go string: bytes, not characters. */
  type Str = seq<Byte>

  const MAX_MESSAGE_SIZE := 64 * 1024

  // Fields.

  function Block(s: Str): seq<Byte>
    requires Fits(|s|)
  {
    Varint(|s|) + s
  }

  function ParseBytes(b: seq<Byte>): (r: Parsed<Str>)
    ensures r.Got? ==> 1 <= r.n <= |b| && |r.value| < r.n
  {
    match ParseVarint(b)
    case Bad(e) => Bad(e)
    case Got(num, n) =>
      if num > MAX_MESSAGE_SIZE then Bad(TooLarge)
      else if |b| - n < num then Bad(Eof)
      else Got(b[n..n + num], n + num)
  }

  lemma BlockRoundTrip(s: Str, rest: seq<Byte>)
    requires |s| <= MAX_MESSAGE_SIZE
    ensures ParseBytes(Block(s) + rest) == Got(s, |Block(s)|)
  {
    Associative(Varint(|s|), s, rest);
    VarintRoundTrip(|s|, s + rest);
    Halves(Varint(|s|), s + rest);
    Halves(s, rest);
    SlicesOf(Varint(|s|), s, rest);
  }

  lemma SlicesOf(a: seq<Byte>, b: seq<Byte>, c: seq<Byte>)
    ensures (a + (b + c))[|a|..|a| + |b|] == b
  {
  }

  predicate AllFit(xs: seq<nat>) {
    forall i :: 0 <= i < |xs| ==> Fits(xs[i])
  }

  /** A list of fields, without its count. */
  function Varints(xs: seq<nat>): seq<Byte>
    requires AllFit(xs)
  {
    if xs == [] then [] else Varint(xs[0]) + Varints(xs[1..])
  }

  predicate StringsFit(arr: seq<Str>) {
    forall i :: 0 <= i < |arr| ==> Fits(|arr[i]|)
  }

  /** What ReadBytes takes. */
  predicate StringsShort(arr: seq<Str>) {
    forall i :: 0 <= i < |arr| ==> |arr[i]| <= MAX_MESSAGE_SIZE
  }

  function Blocks(arr: seq<Str>): seq<Byte>
    requires StringsFit(arr)
  {
    if arr == [] then [] else Block(arr[0]) + Blocks(arr[1..])
  }

  function StringArray(arr: seq<Str>): seq<Byte>
    requires Fits(|arr|) && StringsFit(arr)
  {
    Varint(|arr|) + Blocks(arr)
  }

  /** A parsed list with one more element, of n bytes, before it. */
  function Cons<T>(x: T, n: nat, r: Parsed<seq<T>>): Parsed<seq<T>> {
    if r.Got? then Got([x] + r.value, n + r.n) else r
  }

  /** A parsed list with elements, of n bytes in all, before it. */
  function Before<T>(xs: seq<T>, n: nat, r: Parsed<seq<T>>): Parsed<seq<T>> {
    if r.Got? then Got(xs + r.value, n + r.n) else r
  }

  lemma BeforeNothing<T>(r: Parsed<seq<T>>)
    ensures Before([], 0, r) == r
  {
    if r.Got? {
      assert [] + r.value == r.value;
    }
  }

  lemma BeforeCons<T>(xs: seq<T>, n: nat, x: T, m: nat, r: Parsed<seq<T>>)
    ensures Before(xs, n, Cons(x, m, r)) == Before(xs + [x], n + m, r)
  {
    if r.Got? {
      assert xs + ([x] + r.value) == xs + [x] + r.value;
    }
  }

  function ParseVarints(b: seq<Byte>, count: nat): (r: Parsed<seq<nat>>)
    ensures r.Got? ==> |r.value| == count && r.n <= |b|
  {
    if count == 0 then Got([], 0)
    else
      match ParseVarint(b)
      case Bad(e) => Bad(e)
      case Got(x, n) => Cons(x, n, ParseVarints(b[n..], count - 1))
  }

  function ParseBlocks(b: seq<Byte>, count: nat): (r: Parsed<seq<Str>>)
    ensures r.Got? ==> |r.value| == count && r.n <= |b|
  {
    if count == 0 then Got([], 0)
    else
      match ParseBytes(b)
      case Bad(e) => Bad(e)
      case Got(s, n) => Cons(s, n, ParseBlocks(b[n..], count - 1))
  }

  function ParseStringArray(b: seq<Byte>): (r: Parsed<seq<Str>>)
    ensures r.Got? ==> r.n <= |b|
  {
    match ParseVarint(b)
    case Bad(e) => Bad(e)
    case Got(count, n) => if count > MAX_MESSAGE_SIZE then Bad(TooLarge) else Before([], n, ParseBlocks(b[n..], count))
  }

  lemma VarintThenMore(x: nat, more: seq<nat>, tail: seq<Byte>)
    requires Fits(x)
    ensures ParseVarints(Varint(x) + tail, |more| + 1) == Cons(x, VarintLen(x), ParseVarints(tail, |more|))
  {
    VarintRoundTrip(x, tail);
    Halves(Varint(x), tail);
  }

  lemma {:induction false} VarintsRoundTrip(xs: seq<nat>, rest: seq<Byte>)
    requires AllFit(xs)
    ensures ParseVarints(Varints(xs) + rest, |xs|) == Got(xs, |Varints(xs)|)
  {
    if xs != [] {
      var x, more := xs[0], xs[1..];
      VarintsRoundTrip(more, rest);
      VarintThenMore(x, more, Varints(more) + rest);
      Associative(Varint(x), Varints(more), rest);
      HeadTail(xs);
    }
  }

  lemma BlockThenMore(s: Str, more: seq<Str>, tail: seq<Byte>)
    requires |s| <= MAX_MESSAGE_SIZE
    ensures ParseBlocks(Block(s) + tail, |more| + 1) == Cons(s, |Block(s)|, ParseBlocks(tail, |more|))
  {
    BlockRoundTrip(s, tail);
    Halves(Block(s), tail);
  }

  lemma {:induction false} BlocksRoundTrip(arr: seq<Str>, rest: seq<Byte>)
    requires StringsShort(arr)
    ensures ParseBlocks(Blocks(arr) + rest, |arr|) == Got(arr, |Blocks(arr)|)
    ensures |Blocks(arr)| >= |arr|
  {
    if arr != [] {
      var s, more := arr[0], arr[1..];
      BlocksRoundTrip(more, rest);
      BlockThenMore(s, more, Blocks(more) + rest);
      Associative(Block(s), Blocks(more), rest);
      HeadTail(arr);
    }
  }

  lemma StringArrayRoundTrip(arr: seq<Str>, rest: seq<Byte>)
    requires |arr| <= MAX_MESSAGE_SIZE && StringsShort(arr)
    ensures ParseStringArray(StringArray(arr) + rest) == Got(arr, |StringArray(arr)|)
  {
    Associative(Varint(|arr|), Blocks(arr), rest);
    CountThenBlocks(|arr|, Blocks(arr) + rest);
    BlocksRoundTrip(arr, rest);
    assert [] + arr == arr;
  }

  lemma CountThenBlocks(count: nat, tail: seq<Byte>)
    requires count <= MAX_MESSAGE_SIZE
    ensures ParseStringArray(Varint(count) + tail) == Before([], VarintLen(count), ParseBlocks(tail, count))
  {
    VarintRoundTrip(count, tail);
    Halves(Varint(count), tail);
  }

  // Lengths.

  function StringLen(s: Str): (n: nat)
    requires Fits(|s|)
    ensures n == |Block(s)|
  {
    VarintLen(|s|) + |s|
  }

  lemma {:induction false} BlocksAppend(arr: seq<Str>, s: Str)
    requires Fits(|s|) && StringsFit(arr)
    ensures Blocks(arr + [s]) == Blocks(arr) + Block(s)
  {
    if arr == [] {
      assert Blocks([s]) == Block(s) + Blocks([]);
    } else {
      assert (arr + [s])[1..] == arr[1..] + [s];
      BlocksAppend(arr[1..], s);
    }
  }

  lemma {:induction false} VarintsAppend(xs: seq<nat>, x: nat)
    requires Fits(x) && AllFit(xs)
    ensures Varints(xs + [x]) == Varints(xs) + Varint(x)
  {
    if xs == [] {
      assert Varints([x]) == Varint(x) + Varints([]);
    } else {
      assert (xs + [x])[1..] == xs[1..] + [x];
      VarintsAppend(xs[1..], x);
    }
  }

  method StringArrayLen(arr: seq<Str>) returns (total: nat)
    requires Fits(|arr|) && StringsFit(arr)
    ensures total == |StringArray(arr)|
  {
    total := VarintLen(|arr|);
    for i := 0 to |arr|
      invariant total == VarintLen(|arr|) + |Blocks(arr[..i])|
    {
      assert arr[..i + 1] == arr[..i] + [arr[i]];
      BlocksAppend(arr[..i], arr[i]);
      total := total + StringLen(arr[i]);
    }
    assert arr[..|arr|] == arr;
  }

  // Writers and readers of fields.

  method WriteString(dest: seq<Byte>, s: Str) returns (out: seq<Byte>, n: nat)
    requires Fits(|s|)
    ensures out == dest + Block(s) && n == StringLen(s)
  {
    out, n := WriteVarint(dest, |s|);
    out, n := out + s, n + |s|;
  }

  method WriteStringArray(dest: seq<Byte>, arr: seq<Str>) returns (out: seq<Byte>, n: nat)
    requires Fits(|arr|) && StringsFit(arr)
    ensures out == dest + StringArray(arr) && n == |StringArray(arr)|
  {
    out, n := WriteVarint(dest, |arr|);
    for i := 0 to |arr|
      invariant out == dest + (Varint(|arr|) + Blocks(arr[..i]))
      invariant n == |Varint(|arr|) + Blocks(arr[..i])|
    {
      assert arr[..i + 1] == arr[..i] + [arr[i]];
      BlocksAppend(arr[..i], arr[i]);
      var m;
      out, m := WriteString(out, arr[i]);
      n := n + m;
    }
    assert arr[..|arr|] == arr;
  }

  method ReadBytes(b: seq<Byte>) returns (r: Parsed<Str>)
    ensures r == ParseBytes(b)
  {
    var v := ReadVarint(b);
    if v.Bad? { return Bad(v.error); }
    var rest := b[v.n..];
    if v.value > MAX_MESSAGE_SIZE { return Bad(TooLarge); }
    if |rest| < v.value { return Bad(Eof); }
    assert rest[..v.value] == b[v.n..v.n + v.value];
    return Got(rest[..v.value], v.n + v.value);
  }

  /** The loop of ReadStringArray: count strings, one after another. */
  method ReadStrings(b: seq<Byte>, count: nat) returns (r: Parsed<seq<Str>>)
    ensures r == ParseBlocks(b, count)
  {
    var rest, arr: seq<Str>, total: nat := b, [], 0;
    BeforeNothing(ParseBlocks(b, count));
    for i := 0 to count
      invariant Before(arr, total, ParseBlocks(rest, count - i)) == ParseBlocks(b, count)
    {
      var s := ReadBytes(rest);
      if s.Bad? { return Bad(s.error); }
      BeforeCons(arr, total, s.value, s.n, ParseBlocks(rest[s.n..], count - i - 1));
      arr, total := arr + [s.value], total + s.n;
      rest := rest[s.n..];
    }
    assert arr + [] == arr;
    return Got(arr, total);
  }

  method ReadStringArray(b: seq<Byte>) returns (r: Parsed<seq<Str>>)
    ensures r == ParseStringArray(b)
  {
    var count := ReadVarint(b);
    if count.Bad? { return Bad(count.error); }
    if count.value > MAX_MESSAGE_SIZE { return Bad(TooLarge); }
    r := ReadStrings(b[count.n..], count.value);
    if r.Got? {
      assert [] + r.value == r.value;
      r := Got(r.value, count.n + r.n);
    }
  }

  // Bodies.

  /** A message body with its length before it. */
  function Framed(body: seq<Byte>): seq<Byte>
    requires Fits(|body|)
  {
    Varint(|body|) + body
  }

  /** What readBody makes of a stream, and what is left of it. */
  function Body(rest: seq<Byte>, end: Error): (Result<seq<Byte>>, seq<Byte>) {
    var (length, after) := Length(rest, end);
    match length
    case Err(e) => (Err(e), after)
    case Ok(num) =>
      if num > MAX_MESSAGE_SIZE then (Err(TooLarge), after)
      else if |after| < num then (Err(if end == Eof && after != [] then UnexpectedEof else end), [])
      else (Ok(after[..num]), after[num..])
  }

  method ReadBody(src: Source) returns (r: Result<seq<Byte>>)
    modifies src
    ensures (r, src.rest) == Body(old(src.rest), src.end)
  {
    var num := ReadMessageLengthBytewise(src);
    if num.Err? { return Err(num.error); }
    if num.value > MAX_MESSAGE_SIZE { return Err(TooLarge); }
    r := src.ReadFull(num.value);
  }

  lemma BodyRoundTrip(body: seq<Byte>, rest: seq<Byte>, end: Error)
    requires |body| <= MAX_MESSAGE_SIZE
    ensures Body(Framed(body) + rest, end) == (Ok(body), rest)
  {
    Associative(Varint(|body|), body, rest);
    VarintRoundTrip(|body|, body + rest);
    Halves(Varint(|body|), body + rest);
    Halves(body, rest);
    assert Length(Framed(body) + rest, end) == (Ok(|body| as nat), body + rest);
  }

  /** A body longer than MAX_MESSAGE_SIZE is refused before any of it is read. */
  lemma LongBodyRefused(body: seq<Byte>, rest: seq<Byte>, end: Error)
    requires MAX_MESSAGE_SIZE < |body| && Fits(|body|)
    ensures Body(Framed(body) + rest, end) == (Err(TooLarge), body + rest)
  {
    Associative(Varint(|body|), body, rest);
    VarintRoundTrip(|body|, body + rest);
    Halves(Varint(|body|), body + rest);
  }

  /** A message cut short reads as a clean end of the stream exactly when it is cut before its length or right behind it. */
  lemma CutBody(body: seq<Byte>, n: nat)
    requires |body| <= MAX_MESSAGE_SIZE && n < |Framed(body)|
    ensures Body(Framed(body)[..n], Eof) == (Err(if n == 0 || n == VarintLen(|body|) then Eof else UnexpectedEof), [])
  {
    var v := Varint(|body|);
    if n < |v| {
      assert Framed(body)[..n] == v[..n];
      TruncatedVarint(|body|, n, Eof);
    } else {
      var part := body[..n - |v|];
      assert Framed(body)[..n] == v + part;
      VarintRoundTrip(|body|, part);
      Halves(v, part);
    }
  }

  // SETUP.

  datatype Param = Param(id: nat, value: Str)

  predicate ParamFits(p: Param) {
    Fits(p.id) && Fits(|p.value|)
  }

  predicate ParamsFit(ps: seq<Param>) {
    forall i :: 0 <= i < |ps| ==> ParamFits(ps[i])
  }

  predicate ParamsShort(ps: seq<Param>) {
    forall i :: 0 <= i < |ps| ==> Fits(ps[i].id) && |ps[i].value| <= MAX_MESSAGE_SIZE
  }

  function ParamBytes(p: Param): seq<Byte>
    requires ParamFits(p)
  {
    Varint(p.id) + Block(p.value)
  }

  function ParamsBytes(ps: seq<Param>): seq<Byte>
    requires ParamsFit(ps)
  {
    if ps == [] then [] else ParamBytes(ps[0]) + ParamsBytes(ps[1..])
  }

  function SetupBody(ps: seq<Param>): seq<Byte>
    requires Fits(|ps|) && ParamsFit(ps)
  {
    Varint(|ps|) + ParamsBytes(ps)
  }

  predicate Distinct(ps: seq<Param>) {
    forall i, j :: 0 <= i < j < |ps| ==> ps[i].id != ps[j].id
  }

  function ParseParam(b: seq<Byte>, seen: set<nat>): (r: Parsed<Param>)
    ensures r.Got? ==> r.n <= |b|
  {
    match ParseVarint(b)
    case Bad(e) => Bad(e)
    case Got(id, n) =>
      if id in seen then Bad(DuplicateParameter)
      else
        match ParseBytes(b[n..])
        case Bad(e) => Bad(e)
        case Got(value, m) => Got(Param(id, value), n + m)
  }

  function ParseParams(b: seq<Byte>, count: nat, seen: set<nat>): (r: Parsed<seq<Param>>)
    ensures r.Got? ==> |r.value| == count && r.n <= |b|
  {
    if count == 0 then Got([], 0)
    else
      match ParseParam(b, seen)
      case Bad(e) => Bad(e)
      case Got(p, n) => Cons(p, n, ParseParams(b[n..], count - 1, seen + {p.id}))
  }

  /** What SetupMessage.Decode makes of a body. */
  function ParseSetup(b: seq<Byte>): Result<seq<Param>> {
    match ParseVarint(b)
    case Bad(e) => Err(e)
    case Got(count, n) =>
      match ParseParams(b[n..], count, {})
      case Bad(e) => Err(e)
      case Got(ps, m) => if n + m == |b| then Ok(ps) else Err(TooShort)
  }

  /** The ids are distinct and none has been seen. */
  predicate AllNew(ps: seq<Param>, seen: set<nat>) {
    ps == [] || (ps[0].id !in seen && AllNew(ps[1..], seen + {ps[0].id}))
  }

  lemma {:induction false} AllNewMeans(ps: seq<Param>, seen: set<nat>)
    ensures AllNew(ps, seen) <==> Distinct(ps) && forall i :: 0 <= i < |ps| ==> ps[i].id !in seen
  {
    if ps != [] {
      var tail := ps[1..];
      AllNewMeans(tail, seen + {ps[0].id});
      assert forall i :: 0 < i < |ps| ==> ps[i] == tail[i - 1];
      assert forall i :: 0 <= i < |tail| ==> tail[i] == ps[i + 1];
    }
  }

  lemma ParamRoundTrip(p: Param, tail: seq<Byte>)
    requires Fits(p.id) && |p.value| <= MAX_MESSAGE_SIZE
    ensures var b := ParamBytes(p) + tail; var n := VarintLen(p.id); var m := |Block(p.value)|;
            && ParseVarint(b) == Got(p.id, n)
            && ParseBytes(b[n..]) == Got(p.value, m)
            && b[n + m..] == tail && |ParamBytes(p)| == n + m
  {
    Associative(Varint(p.id), Block(p.value), tail);
    VarintRoundTrip(p.id, Block(p.value) + tail);
    Halves(Varint(p.id), Block(p.value) + tail);
    BlockRoundTrip(p.value, tail);
    Halves(ParamBytes(p), tail);
  }

  /** What a failed decode leaves as the parameters: those of a body with bytes left over, else what was there. */
  function LeftBehind(body: Result<seq<Byte>>, was: seq<Param>): seq<Param> {
    if body.Err? || ParseVarint(body.value).Bad? then was
    else
      var count := ParseVarint(body.value);
      var params := ParseParams(body.value[count.n..], count.value, {});
      if params.Got? then params.value else was
  }

  lemma {:induction false} ParamsRoundTrip(ps: seq<Param>, seen: set<nat>, rest: seq<Byte>)
    requires ParamsShort(ps)
    ensures ParseParams(ParamsBytes(ps) + rest, |ps|, seen) ==
            if AllNew(ps, seen) then Got(ps, |ParamsBytes(ps)|) else Bad(DuplicateParameter)
  {
    if ps != [] {
      var p, more := ps[0], ps[1..];
      Associative(ParamBytes(p), ParamsBytes(more), rest);
      ParamRoundTrip(p, ParamsBytes(more) + rest);
      ParamsRoundTrip(more, seen + {p.id}, rest);
      HeadTail(ps);
    }
  }

  /** SETUP survives the wire exactly when its parameter ids are distinct; otherwise the decoder names the duplicate. */
  lemma SetupRoundTrip(ps: seq<Param>)
    requires Fits(|ps|) && ParamsShort(ps)
    ensures ParseSetup(SetupBody(ps)) == if Distinct(ps) then Ok(ps) else Err(DuplicateParameter)
  {
    VarintRoundTrip(|ps|, ParamsBytes(ps));
    ParamsRoundTrip(ps, {}, []);
    AllNewMeans(ps, {});
    assert ParamsBytes(ps) + [] == ParamsBytes(ps);
    assert SetupBody(ps)[VarintLen(|ps|)..] == ParamsBytes(ps);
  }

  /** Bytes behind the last parameter are refused. */
  lemma TrailingRefused(ps: seq<Param>, extra: seq<Byte>)
    requires Fits(|ps|) && ParamsShort(ps) && Distinct(ps) && extra != []
    ensures ParseSetup(SetupBody(ps) + extra) == Err(TooShort)
  {
    Associative(Varint(|ps|), ParamsBytes(ps), extra);
    VarintRoundTrip(|ps|, ParamsBytes(ps) + extra);
    Halves(Varint(|ps|), ParamsBytes(ps) + extra);
    ParamsRoundTrip(ps, {}, extra);
    AllNewMeans(ps, {});
  }

  lemma {:induction false} ParamsAppend(ps: seq<Param>, p: Param)
    requires ParamFits(p) && ParamsFit(ps)
    ensures ParamsBytes(ps + [p]) == ParamsBytes(ps) + ParamBytes(p)
  {
    if ps == [] {
      assert ParamsBytes([p]) == ParamBytes(p) + ParamsBytes([]);
    } else {
      assert (ps + [p])[1..] == ps[1..] + [p];
      ParamsAppend(ps[1..], p);
    }
  }

  const SETUP_PARAM_PROBE := 0x1
  const SETUP_PARAM_PATH := 0x2
  const SETUP_PARAM_REDIRECT := 0x7d01

  class SetupMessage {
    var parameters: seq<Param>

    predicate Encodable()
      reads this
    {
      Fits(|parameters|) && ParamsFit(parameters) && Fits(|SetupBody(parameters)|)
    }

    constructor ()
      ensures parameters == []
    {
      parameters := [];
    }

    method AddProbe(level: nat)
      requires Fits(level)
      modifies this
      ensures parameters == old(parameters) + [Param(SETUP_PARAM_PROBE, Varint(level))]
    {
      var value, _ := WriteVarint([], level);
      assert value == Varint(level);
      parameters := parameters + [Param(SETUP_PARAM_PROBE, value)];
    }

    method AddPath(path: Str)
      modifies this
      ensures parameters == old(parameters) + [Param(SETUP_PARAM_PATH, path)]
    {
      parameters := parameters + [Param(SETUP_PARAM_PATH, path)];
    }

    /** Whether the first redirect parameter is empty or a varint and nothing else. */
    method FollowsRedirect() returns (follows: bool)
      ensures forall i :: 0 <= i < |parameters| && parameters[i].id == SETUP_PARAM_REDIRECT && (forall j :: 0 <= j < i ==> parameters[j].id != SETUP_PARAM_REDIRECT) ==>
                (follows <==> parameters[i].value == [] || (ParseVarint(parameters[i].value).Got? && ParseVarint(parameters[i].value).n == |parameters[i].value|))
      ensures (forall p <- parameters :: p.id != SETUP_PARAM_REDIRECT) ==> !follows
    {
      for i := 0 to |parameters|
        invariant forall j :: 0 <= j < i ==> parameters[j].id != SETUP_PARAM_REDIRECT
      {
        var p := parameters[i];
        if p.id != SETUP_PARAM_REDIRECT { continue; }
        if |p.value| == 0 { return true; }
        var v := ReadVarint(p.value);
        return v.Got? && v.n == |p.value|;
      }
      return false;
    }

    method Len() returns (l: nat)
      requires Encodable()
      ensures l == |SetupBody(parameters)|
    {
      l := VarintLen(|parameters|);
      for i := 0 to |parameters|
        invariant l == VarintLen(|parameters|) + |ParamsBytes(parameters[..i])|
      {
        var p := parameters[i];
        assert parameters[..i + 1] == parameters[..i] + [p];
        ParamsAppend(parameters[..i], p);
        l := l + VarintLen(p.id) + StringLen(p.value);
      }
      assert parameters[..|parameters|] == parameters;
    }

    method WriteParams(dest: seq<Byte>) returns (b: seq<Byte>)
      requires ParamsFit(parameters)
      ensures b == dest + ParamsBytes(parameters)
    {
      b := dest;
      for i := 0 to |parameters|
        invariant b == dest + ParamsBytes(parameters[..i])
      {
        var p := parameters[i];
        Longer(parameters, i);
        ParamsAppend(parameters[..i], p);
        var n;
        b, n := WriteVarint(b, p.id);
        b, n := WriteString(b, p.value);
        Associative(dest + ParamsBytes(parameters[..i]), Varint(p.id), Block(p.value));
        Associative(dest, ParamsBytes(parameters[..i]), ParamBytes(p));
      }
      assert parameters[..|parameters|] == parameters;
    }

    method Encode() returns (b: seq<Byte>)
      requires Encodable()
      ensures b == Framed(SetupBody(parameters))
    {
      var msgLen := Len();
      var n;
      b, n := WriteVarint([], msgLen);
      b, n := WriteVarint(b, |parameters|);
      b := WriteParams(b);
      Associative([] + Varint(msgLen), Varint(|parameters|), ParamsBytes(parameters));
      assert [] + Varint(msgLen) == Varint(msgLen);
    }

    method Decode(src: Source) returns (e: Result<()>)
      modifies this, src
      ensures src.rest == Body(old(src.rest), src.end).1
      ensures var body := Body(old(src.rest), src.end).0;
              if body.Err? then e == Err(body.error)
              else if ParseSetup(body.value).Ok? then e == Ok(()) && parameters == ParseSetup(body.value).value
              else e == Err(ParseSetup(body.value).error)
      ensures e.Err? ==> parameters == LeftBehind(Body(old(src.rest), src.end).0, old(parameters))
    {
      var body := ReadBody(src);
      if body.Err? { return Err(body.error); }
      var v := ReadVarint(body.value);
      if v.Bad? { return Err(v.error); }
      var count := v.value;
      var params, b := ReadParams(body.value[v.n..], count);
      if params.Bad? { return Err(params.error); }
      parameters := params.value;
      if |b| != 0 { return Err(TooShort); }
      return Ok(());
    }
  }

  method ReadParam(body: seq<Byte>, seen: set<nat>) returns (r: Parsed<Param>)
    ensures r == ParseParam(body, seen)
  {
    var id := ReadVarint(body);
    if id.Bad? { return Bad(id.error); }
    if id.value in seen { return Bad(DuplicateParameter); }
    var value := ReadBytes(body[id.n..]);
    if value.Bad? { return Bad(value.error); }
    return Got(Param(id.value, value.value), id.n + value.n);
  }

  method ReadParams(body: seq<Byte>, count: nat) returns (r: Parsed<seq<Param>>, b: seq<Byte>)
    ensures r == ParseParams(body, count, {})
    ensures r.Got? ==> b == body[r.n..]
  {
    b := body;
    var params: seq<Param>, seen: set<nat>, total: nat := [], {}, 0;
    BeforeNothing(ParseParams(body, count, {}));
    for i := 0 to count
      invariant total <= |body| && b == body[total..]
      invariant Before(params, total, ParseParams(b, count - i, seen)) == ParseParams(body, count, {})
    {
      var p := ReadParam(b, seen);
      if p.Bad? { return Bad(p.error), b; }
      BeforeCons(params, total, p.value, p.n, ParseParams(b[p.n..], count - i - 1, seen + {p.value.id}));
      ShorterRest(body, total, p.n);
      params, seen, total := params + [p.value], seen + {p.value.id}, total + p.n;
      b := b[p.n..];
    }
    assert params + [] == params;
    return Got(params, total), b;
  }
}
