/**
 Frames of a group: a zigzag timestamp delta in 64-bit arithmetic, a length and a payload, read into a
 buffer that grows as the payload arrives.
 */
module Frames {
  import opened Wrappers
  import opened VarintCodec

  // 64-bit integers.

  const TWO_63 := 0x8000_0000_0000_0000
  const TWO_64 := 0x1_0000_0000_0000_0000

  predicate IsUint64(u: int) {
    0 <= u < TWO_64
  }

  predicate IsInt64(v: int) {
    -TWO_63 <= v < TWO_63
  }

  /** int64(x): x modulo 2^64, read as two's complement. */
  function ToInt64(x: int): (v: int)
    ensures IsInt64(v)
    ensures IsInt64(x) ==> v == x
  {
    var u := x % TWO_64;
    if u < TWO_63 then u else u - TWO_64
  }

  function ToUint64(x: int): (u: int)
    ensures IsUint64(u)
  {
    x % TWO_64
  }

  /** x ^ mask for a mask of all zeros (0) or all ones (-1): the bits of x, or their complement. */
  function XorMask(x: int, mask: int): int
    requires mask == 0 || mask == -1
  {
    if mask == 0 then x else -x - 1
  }

  function ZigzagEncode(v: int): (u: int)
    requires IsInt64(v)
    ensures IsUint64(u)
  {
    ToUint64(XorMask(ToInt64(2 * v), v / TWO_63))
  }

  function ZigzagDecode(u: int): (v: int)
    requires IsUint64(u)
    ensures IsInt64(v)
  {
    XorMask(ToInt64(u / 2), -(u % 2))
  }

  lemma ZigzagRoundTrip(v: int)
    requires IsInt64(v)
    ensures ZigzagDecode(ZigzagEncode(v)) == v
  {
    ZigzagMeans(v);
  }

  /** Small magnitudes of either sign get small codes. */
  lemma ZigzagMeans(v: int)
    requires IsInt64(v)
    ensures ZigzagEncode(v) == if v >= 0 then 2 * v else -2 * v - 1
  {
    assert v / TWO_63 == if v >= 0 then 0 else -1;
  }

  lemma ZigzagOnto(u: int)
    requires IsUint64(u)
    ensures ZigzagEncode(ZigzagDecode(u)) == u
  {
    ZigzagMeans(ZigzagDecode(u));
  }

  // The wire form.

  const MAX_FRAME_SIZE := 50 * 1024 * 1024
  const MAX_DELTA := 0x1fff_ffff_ffff_ffff
  const MIN_DELTA := -0x2000_0000_0000_0000

  datatype Content = Content(timestamp: int, payload: seq<Byte>)

  function SignedDelta(timestamp: int, prev: int): int {
    ToInt64(ToInt64(timestamp) - ToInt64(prev))
  }

  predicate Accepts(prev: int, timestamp: int) {
    MIN_DELTA <= SignedDelta(timestamp, prev) <= MAX_DELTA
  }

  lemma AcceptedFits(prev: int, timestamp: int)
    requires Accepts(prev, timestamp)
    ensures Fits(ZigzagEncode(SignedDelta(timestamp, prev)))
  {
    ZigzagMeans(SignedDelta(timestamp, prev));
  }

  function FrameBytes(prev: int, f: Content): seq<Byte>
    requires Accepts(prev, f.timestamp) && Fits(|f.payload|)
  {
    AcceptedFits(prev, f.timestamp);
    DeltaBytes(SignedDelta(f.timestamp, prev), f.payload)
  }

  function DeltaBytes(delta: int, payload: seq<Byte>): seq<Byte>
    requires IsInt64(delta) && Fits(ZigzagEncode(delta)) && Fits(|payload|)
  {
    Varint(ZigzagEncode(delta)) + (Varint(|payload|) + payload)
  }

  /** An end of the stream within a frame is never a clean end. */
  function Cut(e: Error): Error {
    if e == Eof then UnexpectedEof else e
  }

  /** What decode makes of a stream, and what is left of it. */
  function NextFrame(prev: int, rest: seq<Byte>, end: Error): (Result<Content>, seq<Byte>) {
    var (delta, after) := Length(rest, end);
    match delta
    case Err(e) => (Err(e), after)
    case Ok(d) =>
      var timestamp := DecodedTimestamp(prev, d);
      if timestamp < 0 then (Err(TimestampOutOfRange), after) else NextPayload(timestamp, after, end)
  }

  function DecodedTimestamp(prev: int, delta: nat): int {
    ToInt64(ToInt64(prev) + ZigzagDecode(ToUint64(delta)))
  }

  /** The timestamp a failed decode leaves behind: the frame's, if it was read and in range. */
  function TimestampLeft(prev: int, rest: seq<Byte>, end: Error, was: int): int {
    match Length(rest, end).0
    case Err(_) => was
    case Ok(d) => if DecodedTimestamp(prev, d) < 0 then was else DecodedTimestamp(prev, d)
  }

  /** The stream reaches a payload that decode starts to read. */
  predicate StartsPayload(prev: int, rest: seq<Byte>, end: Error) {
    var (delta, after) := Length(rest, end);
    var (length, _) := Length(after, end);
    delta.Ok? && DecodedTimestamp(prev, delta.value) >= 0 && length.Ok? && 0 < length.value <= MAX_FRAME_SIZE
  }

  function NextPayload(timestamp: int, rest: seq<Byte>, end: Error): (Result<Content>, seq<Byte>) {
    var (length, after) := Length(rest, end);
    match length
    case Err(e) => (Err(Cut(e)), after)
    case Ok(num) =>
      if num == 0 then (Ok(Content(timestamp, [])), after)
      else if num > MAX_FRAME_SIZE then (Err(TooLarge), after)
      else if |after| < num then (Err(Cut(end)), [])
      else (Ok(Content(timestamp, after[..num])), after[num..])
  }

  // The writer accepts what the reader can rebuild.

  /** Below 2^63 the writer takes a frame exactly when its delta lies in [-2^61, 2^61 - 1]. */
  lemma AcceptsIff(prev: int, timestamp: int)
    requires 0 <= prev < TWO_63 && 0 <= timestamp < TWO_63
    ensures Accepts(prev, timestamp) <==> -0x2000_0000_0000_0000 <= timestamp - prev <= 0x1fff_ffff_ffff_ffff
  {
  }

  lemma PayloadRoundTrip(timestamp: int, payload: seq<Byte>, rest: seq<Byte>, end: Error)
    requires |payload| <= MAX_FRAME_SIZE
    ensures NextPayload(timestamp, Varint(|payload|) + payload + rest, end) == (Ok(Content(timestamp, payload)), rest)
  {
    Associative(Varint(|payload|), payload, rest);
    VarintRoundTrip(|payload|, payload + rest);
    Halves(Varint(|payload|), payload + rest);
    Halves(payload, rest);
  }

  /**
   An accepted frame is read back exactly when its timestamp is below 2^63, whatever 64-bit timestamp the writer was
   given; above, the deltas wrap and the reader reports the timestamp out of range.
   */
  lemma FrameRoundTrip(prev: int, f: Content, rest: seq<Byte>, end: Error)
    requires 0 <= prev < TWO_63 && IsUint64(f.timestamp) && Accepts(prev, f.timestamp)
    requires |f.payload| <= MAX_FRAME_SIZE
    ensures f.timestamp < TWO_63 ==> NextFrame(prev, FrameBytes(prev, f) + rest, end) == (Ok(f), rest)
    ensures f.timestamp >= TWO_63 ==> NextFrame(prev, FrameBytes(prev, f) + rest, end).0 == Err(TimestampOutOfRange)
  {
    AcceptedFits(prev, f.timestamp);
    DeltaRebuilds(prev, f.timestamp);
    if f.timestamp < TWO_63 {
      DeltaInRange(prev, SignedDelta(f.timestamp, prev), f, rest, end);
    } else {
      DeltaOutOfRange(prev, SignedDelta(f.timestamp, prev), f.payload, rest, end);
    }
  }

  lemma DeltaInRange(prev: int, delta: int, f: Content, rest: seq<Byte>, end: Error)
    requires IsInt64(delta) && Fits(ZigzagEncode(delta)) && |f.payload| <= MAX_FRAME_SIZE
    requires ToInt64(ToInt64(prev) + delta) == f.timestamp >= 0
    ensures NextFrame(prev, DeltaBytes(delta, f.payload) + rest, end) == (Ok(f), rest)
  {
    DeltaBytesRoundTrip(prev, delta, f.payload, rest, end);
  }

  lemma DeltaOutOfRange(prev: int, delta: int, payload: seq<Byte>, rest: seq<Byte>, end: Error)
    requires IsInt64(delta) && Fits(ZigzagEncode(delta)) && |payload| <= MAX_FRAME_SIZE
    requires ToInt64(ToInt64(prev) + delta) < 0
    ensures NextFrame(prev, DeltaBytes(delta, payload) + rest, end).0 == Err(TimestampOutOfRange)
  {
    DeltaBytesRoundTrip(prev, delta, payload, rest, end);
  }

  lemma DeltaBytesRoundTrip(prev: int, delta: int, payload: seq<Byte>, rest: seq<Byte>, end: Error)
    requires IsInt64(delta) && Fits(ZigzagEncode(delta)) && |payload| <= MAX_FRAME_SIZE
    ensures var t := ToInt64(ToInt64(prev) + delta);
            var r := NextFrame(prev, DeltaBytes(delta, payload) + rest, end);
            if t < 0 then r.0 == Err(TimestampOutOfRange) else r == (Ok(Content(t, payload)), rest)
  {
    var t := ToInt64(ToInt64(prev) + delta);
    Associative(Varint(ZigzagEncode(delta)), Varint(|payload|) + payload, rest);
    DeltaRoundTrip(prev, delta, Varint(|payload|) + payload + rest, end);
    if t >= 0 {
      PayloadRoundTrip(t, payload, rest, end);
    }
  }

  lemma WrapsBy(x: int) returns (k: int)
    ensures ToInt64(x) == x + k * TWO_64
  {
    var q := x / TWO_64;
    assert x == q * TWO_64 + x % TWO_64;
    k := if x % TWO_64 < TWO_63 then -q else -q - 1;
  }

  lemma WrapsAlike(x: int, k: int)
    ensures ToInt64(x + k * TWO_64) == ToInt64(x)
  {
    assert (x + k * TWO_64) % TWO_64 == x % TWO_64;
  }

  lemma DeltaRebuilds(prev: int, timestamp: int)
    requires IsUint64(timestamp)
    ensures var t := ToInt64(ToInt64(prev) + SignedDelta(timestamp, prev)); if timestamp < TWO_63 then t == timestamp else t < 0
  {
    var k := WrapsBy(timestamp);
    var n := WrapsBy(ToInt64(timestamp) - ToInt64(prev));
    WrapsAlike(timestamp, k + n);
  }

  lemma DeltaRoundTrip(prev: int, delta: int, tail: seq<Byte>, end: Error)
    requires IsInt64(delta) && Fits(ZigzagEncode(delta))
    ensures var t := ToInt64(ToInt64(prev) + delta);
            NextFrame(prev, Varint(ZigzagEncode(delta)) + tail, end) == if t < 0 then (Err(TimestampOutOfRange), tail) else NextPayload(t, tail, end)
  {
    var code := ZigzagEncode(delta);
    VarintRoundTrip(code, tail);
    Halves(Varint(code), tail);
    ZigzagRoundTrip(delta);
  }

  // Streams that end, or lie, within a frame.

  function CutBefore(n: nat, end: Error): Error {
    if n > 0 && end == Eof then UnexpectedEof else end
  }

  lemma Prefix(a: seq<Byte>, b: seq<Byte>, n: nat)
    requires n <= |a| + |b|
    ensures (a + b)[..n] == if n < |a| then a[..n] else a + b[..n - |a|]
  {
  }

  lemma CutPayload(timestamp: int, payload: seq<Byte>, n: nat, end: Error)
    requires |payload| <= MAX_FRAME_SIZE && n < |Varint(|payload|) + payload|
    ensures NextPayload(timestamp, (Varint(|payload|) + payload)[..n], end).0 == Err(Cut(end))
  {
    var v := Varint(|payload|);
    Prefix(v, payload, n);
    if n < |v| {
      TruncatedVarint(|payload|, n, end);
    } else {
      VarintRoundTrip(|payload|, payload[..n - |v|]);
      Halves(v, payload[..n - |v|]);
    }
  }

  /** A stream that ends within a frame gives an io.EOF only if it ends before the frame: a truncated frame is never a clean end. */
  lemma CutFrame(prev: int, f: Content, n: nat, end: Error)
    requires 0 <= prev < TWO_63 && 0 <= f.timestamp < TWO_63 && Accepts(prev, f.timestamp)
    requires |f.payload| <= MAX_FRAME_SIZE && n < |FrameBytes(prev, f)|
    ensures NextFrame(prev, FrameBytes(prev, f)[..n], end).0 == Err(CutBefore(n, end))
  {
    AcceptedFits(prev, f.timestamp);
    DeltaRebuilds(prev, f.timestamp);
    CutDelta(prev, SignedDelta(f.timestamp, prev), f.payload, n, end);
  }

  lemma CutDelta(prev: int, delta: int, payload: seq<Byte>, n: nat, end: Error)
    requires IsInt64(delta) && Fits(ZigzagEncode(delta)) && ToInt64(ToInt64(prev) + delta) >= 0
    requires |payload| <= MAX_FRAME_SIZE && n < |DeltaBytes(delta, payload)|
    ensures NextFrame(prev, DeltaBytes(delta, payload)[..n], end).0 == Err(CutBefore(n, end))
  {
    var v, tail := Varint(ZigzagEncode(delta)), Varint(|payload|) + payload;
    Prefix(v, tail, n);
    if n < |v| {
      TruncatedVarint(ZigzagEncode(delta), n, end);
    } else {
      DeltaRoundTrip(prev, delta, tail[..n - |v|], end);
      CutPayload(ToInt64(ToInt64(prev) + delta), payload, n - |v|, end);
    }
  }

  /** A length above the limit is refused before any of the payload is read. */
  lemma LongPayloadRefused(prev: int, delta: int, num: nat, tail: seq<Byte>, end: Error)
    requires IsInt64(delta) && Fits(ZigzagEncode(delta)) && ToInt64(ToInt64(prev) + delta) >= 0
    requires MAX_FRAME_SIZE < num && Fits(num)
    ensures NextFrame(prev, Varint(ZigzagEncode(delta)) + (Varint(num) + tail), end) == (Err(TooLarge), tail)
  {
    DeltaRoundTrip(prev, delta, Varint(num) + tail, end);
    VarintRoundTrip(num, tail);
    Halves(Varint(num), tail);
  }

  // A whole group.

  /** The frames of a list the writer takes, each measured from the last one taken. */
  function Accepted(prev: int, frames: seq<Content>): seq<Content>
    decreases |frames|
  {
    if frames == [] then []
    else if Accepts(prev, frames[0].timestamp) then [frames[0]] + Accepted(frames[0].timestamp, frames[1..])
    else Accepted(prev, frames[1..])
  }

  predicate PayloadsFit(frames: seq<Content>) {
    forall i :: 0 <= i < |frames| ==> |frames[i].payload| <= MAX_FRAME_SIZE
  }

  function GroupBytes(prev: int, frames: seq<Content>): seq<Byte>
    requires PayloadsFit(frames)
    decreases |frames|
  {
    if frames == [] then []
    else if Accepts(prev, frames[0].timestamp) then FrameBytes(prev, frames[0]) + GroupBytes(frames[0].timestamp, frames[1..])
    else GroupBytes(prev, frames[1..])
  }

  /** Every frame read from a stream until an error, and the error. */
  function ReadGroup(prev: int, rest: seq<Byte>, end: Error): (seq<Content>, Error)
    decreases |rest|
  {
    var (f, after) := NextFrame(prev, rest, end);
    match f
    case Err(e) => ([], e)
    case Ok(c) =>
      NextFrameTakes(prev, rest, end);
      var (more, e) := ReadGroup(c.timestamp, after, end);
      ([c] + more, e)
  }

  lemma NextFrameTakes(prev: int, rest: seq<Byte>, end: Error)
    ensures NextFrame(prev, rest, end).0.Ok? ==> |NextFrame(prev, rest, end).1| < |rest|
  {
  }

  /** Reading a group back gives the accepted frames, and then the end of the stream. */
  lemma {:induction false} GroupRoundTrip(prev: int, frames: seq<Content>, end: Error)
    requires 0 <= prev < TWO_63 && PayloadsFit(frames)
    requires forall i :: 0 <= i < |frames| ==> 0 <= frames[i].timestamp < TWO_63
    ensures ReadGroup(prev, GroupBytes(prev, frames), end) == (Accepted(prev, frames), end)
    decreases |frames|
  {
    if frames != [] {
      var f, more := frames[0], frames[1..];
      if Accepts(prev, f.timestamp) {
        GroupRoundTrip(f.timestamp, more, end);
        FrameRoundTrip(prev, f, GroupBytes(f.timestamp, more), end);
      } else {
        GroupRoundTrip(prev, more, end);
      }
    }
  }

  lemma OneMoreFrame(prev: int, f: Content, got: seq<Content>, accepted: seq<Content>)
    requires Accepts(prev, f.timestamp) && |f.payload| <= MAX_FRAME_SIZE && PayloadsFit(got) && got <= accepted
    ensures PayloadsFit([f] + got) && [f] + got <= [f] + accepted
    ensures |GroupBytes(prev, [f] + got)| == |FrameBytes(prev, f)| + |GroupBytes(f.timestamp, got)|
  {
    assert ([f] + got)[1..] == got;
  }

  lemma CutInFirst(prev: int, frames: seq<Content>, n: nat)
    requires 0 <= prev < TWO_63 && PayloadsFit(frames) && frames != [] && 0 <= frames[0].timestamp < TWO_63
    requires Accepts(prev, frames[0].timestamp) && n < |FrameBytes(prev, frames[0])|
    ensures ReadGroup(prev, GroupBytes(prev, frames)[..n], Eof) == ([], CutBefore(n, Eof))
  {
    Prefix(FrameBytes(prev, frames[0]), GroupBytes(frames[0].timestamp, frames[1..]), n);
    CutFrame(prev, frames[0], n, Eof);
  }

  lemma CutPastFirst(prev: int, frames: seq<Content>, n: nat)
    requires 0 <= prev < TWO_63 && PayloadsFit(frames) && frames != [] && 0 <= frames[0].timestamp < TWO_63
    requires Accepts(prev, frames[0].timestamp) && |FrameBytes(prev, frames[0])| <= n <= |GroupBytes(prev, frames)|
    ensures var f := frames[0];
            var (got, e) := ReadGroup(f.timestamp, GroupBytes(f.timestamp, frames[1..])[..n - |FrameBytes(prev, f)|], Eof);
            && ReadGroup(prev, GroupBytes(prev, frames)[..n], Eof) == ([f] + got, e)
            && (got <= Accepted(f.timestamp, frames[1..]) && PayloadsFit(got) ==>
                  && PayloadsFit([f] + got) && [f] + got <= Accepted(prev, frames)
                  && |GroupBytes(prev, [f] + got)| == |FrameBytes(prev, f)| + |GroupBytes(f.timestamp, got)|)
  {
    var f, tail := frames[0], GroupBytes(frames[0].timestamp, frames[1..]);
    var rest := tail[..n - |FrameBytes(prev, f)|];
    Prefix(FrameBytes(prev, f), tail, n);
    FrameRoundTrip(prev, f, rest, Eof);
    var (got, e) := ReadGroup(f.timestamp, rest, Eof);
    if got <= Accepted(f.timestamp, frames[1..]) && PayloadsFit(got) {
      OneMoreFrame(prev, f, got, Accepted(f.timestamp, frames[1..]));
    }
  }

  /** Cut anywhere, a group gives its whole frames, in order, and a clean end exactly when those are all the bytes there were. */
  lemma {:induction false} CutGroup(prev: int, frames: seq<Content>, n: nat)
    requires 0 <= prev < TWO_63 && PayloadsFit(frames) && n <= |GroupBytes(prev, frames)|
    requires forall i :: 0 <= i < |frames| ==> 0 <= frames[i].timestamp < TWO_63
    ensures var (got, e) := ReadGroup(prev, GroupBytes(prev, frames)[..n], Eof);
            && got <= Accepted(prev, frames) && PayloadsFit(got)
            && e == (if |GroupBytes(prev, got)| == n then Eof else UnexpectedEof)
    decreases |frames|
  {
    if frames != [] {
      var f, more := frames[0], frames[1..];
      if Accepts(prev, f.timestamp) {
        var head := |FrameBytes(prev, f)|;
        if n < head {
          CutInFirst(prev, frames, n);
        } else {
          CutGroup(f.timestamp, more, n - head);
          CutPastFirst(prev, frames, n);
        }
      } else {
        CutGroup(prev, more, n);
      }
    }
  }

  // The frame and its buffer.

  const FRAME_HEADER_SIZE := 16
  const FRAME_READ_CHUNK := 64 * 1024

  function Max(a: int, b: int): int {
    if a > b then a else b
  }

  function Min(a: int, b: int): int {
    if a < b then a else b
  }

  /** A buffer allocated during decode: the payload room it has, and the payload bytes received before. */
  datatype Growth = Growth(capacity: nat, received: nat)

  /** The body is the length bytes of buf behind the room for the header. A zero Frame has no buffer yet. */
  class Frame {
    var timestamp: int
    var buf: array<Byte>
    var length: nat

    predicate Valid()
      reads this
    {
      IsUint64(timestamp) && (if buf.Length == 0 then length == 0 else FRAME_HEADER_SIZE + length <= buf.Length)
    }

    function Cap(): nat
      reads this
    {
      if buf.Length < FRAME_HEADER_SIZE then 0 else buf.Length - FRAME_HEADER_SIZE
    }

    function Body(): (s: seq<Byte>)
      requires Valid()
      reads this, buf
      ensures |s| == length
    {
      if buf.Length == 0 then [] else buf[FRAME_HEADER_SIZE..FRAME_HEADER_SIZE + length]
    }

    constructor (capacity: nat)
      ensures Valid() && fresh(buf) && Body() == [] && Cap() == capacity && timestamp == 0
    {
      timestamp, length := 0, 0;
      buf := new Byte[FRAME_HEADER_SIZE + capacity](_ => 0);
    }

    method Init(capacity: nat)
      requires Valid() && length <= capacity
      modifies this`buf
      ensures Valid() && fresh(buf) && Cap() == capacity && buf.Length >= FRAME_HEADER_SIZE
      ensures Body() == old(Body())
    {
      var bigger := new Byte[FRAME_HEADER_SIZE + capacity](_ => 0);
      if buf.Length > 0 {
        CopyBody(bigger);
      }
      buf := bigger;
    }

    method CopyBody(bigger: array<Byte>)
      requires Valid() && buf.Length > 0 && bigger != buf && FRAME_HEADER_SIZE + length <= bigger.Length
      modifies bigger
      ensures bigger[FRAME_HEADER_SIZE..FRAME_HEADER_SIZE + length] == Body()
    {
      for i := 0 to length
        invariant bigger[FRAME_HEADER_SIZE..FRAME_HEADER_SIZE + i] == buf[FRAME_HEADER_SIZE..FRAME_HEADER_SIZE + i]
      {
        bigger[FRAME_HEADER_SIZE + i] := buf[FRAME_HEADER_SIZE + i];
        LongerSlice(buf[..], FRAME_HEADER_SIZE, FRAME_HEADER_SIZE + i);
        LongerSlice(bigger[..], FRAME_HEADER_SIZE, FRAME_HEADER_SIZE + i);
        assert bigger[FRAME_HEADER_SIZE..FRAME_HEADER_SIZE + i] == buf[FRAME_HEADER_SIZE..FRAME_HEADER_SIZE + i];
      }
    }

    /** Copies bytes behind the body, which has room for them. */
    method Extend(b: seq<Byte>)
      requires Valid() && length + |b| <= Cap()
      modifies this`length, buf
      ensures Valid() && Body() == old(Body()) + b
    {
      var start := FRAME_HEADER_SIZE + length;
      for i := 0 to |b|
        invariant length == old(length)
        invariant forall k :: start <= k < start + i ==> buf[k] == b[k - start]
        invariant forall k :: FRAME_HEADER_SIZE <= k < start ==> buf[k] == old(buf[k])
      {
        buf[start + i] := b[i];
      }
      length := length + |b|;
      assert |b| > 0 ==> buf.Length > 0;
      assert Body() == old(Body()) + b;
    }

    method Append(b: seq<Byte>)
      requires Valid()
      modifies this`buf, this`length, buf
      ensures Valid() && Body() == old(Body()) + b
      ensures buf == old(buf) || fresh(buf)
      ensures Cap() >= old(Cap())
    {
      if |b| + length > Cap() {
        Init(Max(length + |b|, 2 * Cap()));
      }
      Extend(b);
    }

    /** The bytes written; the prefix is put right before the body, so that one write takes both. */
    method Encode(prev: int) returns (r: Result<seq<Byte>>)
      requires Valid() && IsUint64(prev) && buf.Length > 0 && Fits(length)
      modifies buf
      ensures Valid() && Body() == old(Body())
      ensures r == if Accepts(prev, timestamp) then Ok(FrameBytes(prev, Content(timestamp, Body()))) else Err(TimestampOutOfRange)
    {
      var signed := SignedDelta(timestamp, prev);
      if signed > MAX_DELTA || signed < MIN_DELTA {
        return Err(TimestampOutOfRange);
      }
      AcceptedFits(prev, timestamp);
      var delta := ZigzagEncode(signed);
      var prefix, n := WriteVarint([], delta);
      prefix, n := WriteVarint(prefix, length);
      var start := FRAME_HEADER_SIZE - |prefix|;
      CopyTo(start, prefix);
      Adjacent(buf[..], start, FRAME_HEADER_SIZE, FRAME_HEADER_SIZE + length);
      assert buf[start..FRAME_HEADER_SIZE + length] == buf[..][start..FRAME_HEADER_SIZE + length];
      assert [] + Varint(delta) == Varint(delta);
      Associative(Varint(delta), Varint(length), Body());
      return Ok(buf[start..FRAME_HEADER_SIZE + length]);
    }

    method CopyTo(start: nat, prefix: seq<Byte>)
      requires start + |prefix| == FRAME_HEADER_SIZE <= buf.Length
      modifies buf
      ensures buf[..][start..FRAME_HEADER_SIZE] == prefix
      ensures forall n :: FRAME_HEADER_SIZE <= n <= buf.Length ==> buf[FRAME_HEADER_SIZE..n] == old(buf[FRAME_HEADER_SIZE..n])
      ensures forall k :: FRAME_HEADER_SIZE <= k < buf.Length ==> buf[k] == old(buf[k])
    {
      for i := 0 to |prefix|
        invariant forall k :: start <= k < start + i ==> buf[k] == prefix[k - start]
        invariant forall k :: FRAME_HEADER_SIZE <= k < buf.Length ==> buf[k] == old(buf[k])
      {
        buf[start + i] := prefix[i];
      }
    }

    /** Grows the buffer if it is full, to no more than the payload still needs. */
    method MakeRoom(remaining: nat) returns (ghost grown: seq<Growth>)
      requires Valid() && remaining > 0
      modifies this`buf
      ensures Valid() && length < Cap() && (buf == old(buf) || fresh(buf))
      ensures Body() == old(Body())
      ensures grown == if length < old(Cap()) then [] else [Growth(Cap(), length)]
      ensures length == old(Cap()) ==> Cap() <= Max(FRAME_READ_CHUNK, 2 * length)
    {
      grown := [];
      if length == Cap() {
        Init(Min(length + remaining, Max(FRAME_READ_CHUNK, 2 * Cap())));
        grown := [Growth(Cap(), length)];
      }
    }

    /** Each growth is bounded by the payload received before it, of which there is some missing. */
    static ghost predicate Bounded(growths: seq<Growth>, num: nat, available: nat) {
      forall i :: 0 <= i < |growths| ==>
        && growths[i].capacity <= Max(FRAME_READ_CHUNK, 2 * growths[i].received)
        && growths[i].received < num && growths[i].received <= available
    }

    /** One step of the read loop: room for at least a byte, and as much of the payload as the room takes. */
    method ReadChunk(src: Source, remaining: nat) returns (r: Result<nat>, ghost grown: seq<Growth>)
      requires Valid() && remaining > 0
      modifies this`buf, this`length, buf, src
      ensures Valid() && (buf == old(buf) || fresh(buf))
      ensures r.Ok? ==> 0 < r.value <= remaining && r.value <= |old(src.rest)|
      ensures r.Ok? ==> Body() == old(Body()) + old(src.rest)[..r.value] && src.rest == old(src.rest)[r.value..]
      ensures r.Err? ==> |old(src.rest)| < remaining && r.error == Cut(src.end) && src.rest == []
      ensures forall i :: 0 <= i < |grown| ==>
                grown[i].received == old(length) && grown[i].capacity <= Max(FRAME_READ_CHUNK, 2 * old(length))
    {
      grown := MakeRoom(remaining);
      var n := Min(remaining, Cap() - length);
      var bytes := src.ReadFull(n);
      if bytes.Err? {
        return Err(Cut(bytes.error)), grown;
      }
      Extend(bytes.value);
      return Ok(n), grown;
    }

    /** The payload, in steps no longer than the buffer, which grows only once it is full. */
    method ReadPayload(src: Source, num: nat) returns (r: Result<()>, ghost growths: seq<Growth>)
      requires Valid() && length == 0
      modifies this`buf, this`length, buf, src
      ensures Valid() && (buf == old(buf) || fresh(buf))
      ensures |old(src.rest)| >= num ==> r == Ok(()) && Body() == old(src.rest)[..num] && src.rest == old(src.rest)[num..]
      ensures |old(src.rest)| < num ==> r == Err(Cut(src.end)) && src.rest == []
      ensures Bounded(growths, num, |old(src.rest)|)
    {
      growths := [];
      var remaining := num;
      ghost var all := src.rest;
      assert all[..0] == [];
      while remaining > 0
        invariant Valid() && (buf == old(buf) || fresh(buf))
        invariant 0 <= remaining <= num && length == num - remaining <= |all|
        invariant Body() == all[..length] && src.rest == all[length..]
        invariant Bounded(growths, num, |all|)
        decreases remaining
      {
        ghost var at := length;
        var n, grown := ReadChunk(src, remaining);
        growths := growths + grown;
        if n.Err? {
          return Err(n.error), growths;
        }
        Taken(all, at, n.value);
        ShorterRest(all, at, n.value);
        remaining := remaining - n.value;
      }
      return Ok(()), growths;
    }

    method Decode(src: Source, prev: int) returns (r: Result<()>, ghost growths: seq<Growth>)
      requires Valid() && IsUint64(prev)
      modifies this, buf, src
      ensures Valid() && (buf == old(buf) || fresh(buf))
      ensures src.rest == NextFrame(prev, old(src.rest), src.end).1
      ensures var f := NextFrame(prev, old(src.rest), src.end).0;
              if f.Ok? then r == Ok(()) && timestamp == f.value.timestamp && Body() == f.value.payload else r == Err(f.error)
      ensures r.Err? ==> timestamp == TimestampLeft(prev, old(src.rest), src.end, old(timestamp))
      ensures !StartsPayload(prev, old(src.rest), src.end) && r.Err? ==> Body() == old(Body())
      ensures Bounded(growths, MAX_FRAME_SIZE, |old(src.rest)|)
    {
      growths := [];
      var delta := ReadMessageLengthBytewise(src);
      if delta.Err? { return Err(delta.error), growths; }
      var t := DecodedTimestamp(prev, delta.value);
      if t < 0 { return Err(TimestampOutOfRange), growths; }
      timestamp := t;
      var num := ReadMessageLengthBytewise(src);
      if num.Err? { return Err(Cut(num.error)), growths; }
      if num.value == 0 {
        length := 0;
        return Ok(()), growths;
      }
      if num.value > MAX_FRAME_SIZE { return Err(TooLarge), growths; }
      length := 0;
      r, growths := ReadPayload(src, num.value);
    }
  }

  // The two ends of a group stream.

  class GroupWriter {
    var prevTimestamp: int
    var frameCount: nat
    var stream: seq<Byte>

    constructor ()
      ensures prevTimestamp == 0 && frameCount == 0 && stream == []
    {
      prevTimestamp, frameCount, stream := 0, 0, [];
    }

    /** taken is how many bytes the stream takes before it fails; a failed write may leave part of a frame behind. */
    method WriteFrame(frame: Frame, taken: nat) returns (r: Result<()>)
      requires frame.Valid() && frame.buf.Length > 0 && Fits(frame.length) && IsUint64(prevTimestamp)
      modifies this, frame.buf
      ensures frame.Valid() && frame.Body() == old(frame.Body()) && IsUint64(prevTimestamp)
      ensures if !Accepts(old(prevTimestamp), frame.timestamp) then r == Err(TimestampOutOfRange) && stream == old(stream)
              else
                var bytes := FrameBytes(old(prevTimestamp), Content(frame.timestamp, frame.Body()));
                r.Ok? == (taken >= |bytes|) && stream == old(stream) + bytes[..Min(taken, |bytes|)]
      ensures prevTimestamp == if r.Ok? then frame.timestamp else old(prevTimestamp)
      ensures frameCount == if r.Ok? then old(frameCount) + 1 else old(frameCount)
    {
      var bytes := frame.Encode(prevTimestamp);
      if bytes.Err? { return Err(bytes.error); }
      stream := stream + bytes.value[..Min(taken, |bytes.value|)];
      if taken < |bytes.value| { return Err(Transport(0)); }
      prevTimestamp, frameCount := frame.timestamp, frameCount + 1;
      return Ok(());
    }
  }

  class GroupReader {
    var prevTimestamp: int
    var frameCount: nat
    const stream: Source

    constructor (stream: Source)
      ensures prevTimestamp == 0 && frameCount == 0 && this.stream == stream
    {
      prevTimestamp, frameCount := 0, 0;
      this.stream := stream;
    }

    /** The next call reads the rest of the group: one frame, then what ReadGroup says of the remaining bytes. */
    method ReadFrame(frame: Frame) returns (r: Result<()>)
      requires frame.Valid() && IsUint64(prevTimestamp)
      modifies this, frame, frame.buf, stream
      ensures frame.Valid() && IsUint64(prevTimestamp)
      ensures var (frames, e) := ReadGroup(old(prevTimestamp), old(stream.rest), stream.end);
              if frames == [] then r == Err(e) && frameCount == old(frameCount)
              else
                && r == Ok(()) && frame.timestamp == frames[0].timestamp && frame.Body() == frames[0].payload
                && frameCount == old(frameCount) + 1
                && ReadGroup(prevTimestamp, stream.rest, stream.end) == (frames[1..], e)
    {
      ghost var growths;
      r, growths := frame.Decode(stream, prevTimestamp);
      if r.Err? { return; }
      prevTimestamp, frameCount := frame.timestamp, frameCount + 1;
    }
  }
}
