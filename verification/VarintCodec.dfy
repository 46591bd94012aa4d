/**
 Variable-length integers (section 16 of RFC 9000): written in the shortest of four widths, read from a
 buffer or from a stream that may end anywhere.
 */
module VarintCodec {
  import opened Wrappers

  type Byte = x: int | 0 <= x < 256

  datatype Error = Eof | UnexpectedEof | TooLarge | TooShort | DuplicateParameter | TimestampOutOfRange | Transport(code: int)

  datatype Result<T> = Ok(value: T) | Err(error: Error)

  /** A value read from the front of a buffer and the bytes it took. */
  datatype Parsed<T> = Got(value: T, n: nat) | Bad(error: Error)

  const MAX_VARINT_1 := 0x3f
  const MAX_VARINT_2 := 0x3fff
  const MAX_VARINT_4 := 0x3fff_ffff
  const MAX_VARINT_8 := 0x3fff_ffff_ffff_ffff

  predicate Fits(i: int) {
    0 <= i <= MAX_VARINT_8
  }

  function VarintLen(i: int): (n: nat)
    requires Fits(i)
    ensures n in {1, 2, 4, 8}
  {
    if i <= MAX_VARINT_1 then 1 else if i <= MAX_VARINT_2 then 2 else if i <= MAX_VARINT_4 then 4 else 8
  }

  // Big-endian numbers.

  function Value(bs: seq<Byte>): nat {
    if bs == [] then 0 else 256 * Value(bs[..|bs| - 1]) + bs[|bs| - 1]
  }

  function Bytes(i: nat, n: nat): (bs: seq<Byte>)
    ensures |bs| == n
  {
    if n == 0 then [] else Bytes(i / 256, n - 1) + [i % 256]
  }

  function Pow256(n: nat): (p: nat)
    ensures p > 0
  {
    if n == 0 then 1 else 256 * Pow256(n - 1)
  }

  lemma {:induction false} ValueOfBytes(i: nat, n: nat)
    requires i < Pow256(n)
    ensures Value(Bytes(i, n)) == i
  {
    if n > 0 {
      assert i / 256 < Pow256(n - 1);
      ValueOfBytes(i / 256, n - 1);
      assert Bytes(i, n)[..n - 1] == Bytes(i / 256, n - 1);
    }
  }

  lemma {:induction false} TopByte(i: nat, n: nat)
    requires n > 0 && i < 64 * Pow256(n - 1)
    ensures Bytes(i, n)[0] < 64
  {
    if n == 1 {
      assert Bytes(i, 1) == [i % 256];
    } else {
      assert i / 256 < 64 * Pow256(n - 2);
      TopByte(i / 256, n - 1);
    }
  }

  lemma VarintLenFits(i: int)
    requires Fits(i)
    ensures var n := VarintLen(i); i < 64 * Pow256(n - 1) && i < Pow256(n)
  {
    assert Pow256(1) == 256 && Pow256(2) == 0x1_0000 && Pow256(3) == 0x100_0000;
    assert Pow256(4) == 0x1_0000_0000 && Pow256(7) == 256 * (256 * (256 * Pow256(4)));
    assert Pow256(8) == 256 * Pow256(7);
  }

  // The encoding.

  /** The two high bits of the first byte, which give the width. */
  function Tag(n: nat): nat
    requires n in {1, 2, 4, 8}
  {
    if n == 1 then 0 else if n == 2 then 1 else if n == 4 then 2 else 3
  }

  function Width(first: Byte): (n: nat)
    ensures n in {1, 2, 4, 8} && Tag(n) == first / 64
  {
    if first < 64 then 1 else if first < 128 then 2 else if first < 192 then 4 else 8
  }

  /** i big-endian in its shortest width, the width in the two high bits. */
  function Varint(i: int): (bs: seq<Byte>)
    requires Fits(i)
    ensures |bs| == VarintLen(i)
  {
    var n := VarintLen(i);
    var bs := Bytes(i, n);
    VarintLenFits(i);
    TopByte(i, n);
    [64 * Tag(n) + bs[0]] + bs[1..]
  }

  function ParseVarint(b: seq<Byte>): (r: Parsed<nat>)
    ensures r.Got? ==> 1 <= r.n <= |b|
    ensures r.Bad? ==> r.error == Eof
  {
    if |b| < 1 || |b| < Width(b[0]) then Bad(Eof) else Got(Value([b[0] % 64] + b[1..Width(b[0])]), Width(b[0]))
  }

  /** What is written is read back, whatever follows it. */
  lemma VarintRoundTrip(i: int, rest: seq<Byte>)
    requires Fits(i)
    ensures ParseVarint(Varint(i) + rest) == Got(i, VarintLen(i))
  {
    var n := VarintLen(i);
    var b := Varint(i) + rest;
    var bs := Bytes(i, n);
    VarintLenFits(i);
    TopByte(i, n);
    ValueOfBytes(i, n);
    assert b[0] == 64 * Tag(n) + bs[0];
    assert Width(b[0]) == n;
    assert [b[0] % 64] + b[1..n] == bs;
  }

  method WriteVarint(b: seq<Byte>, i: int) returns (out: seq<Byte>, n: nat)
    requires Fits(i)
    ensures out == b + Varint(i) && n == VarintLen(i)
  {
    if i <= MAX_VARINT_1 {
      BytesOf1(i);
      return b + [i], 1;
    }
    if i <= MAX_VARINT_2 {
      BytesOf2(i);
      return b + [i / 0x100 + 0x40, i % 0x100], 2;
    }
    if i <= MAX_VARINT_4 {
      BytesOf4(i);
      return b + [i / 0x100_0000 + 0x80, i / 0x1_0000 % 0x100, i / 0x100 % 0x100, i % 0x100], 4;
    }
    VarintOf8(i);
    return b + [i / 0x100_0000_0000_0000 + 0xc0, i / 0x1_0000_0000_0000 % 0x100, i / 0x100_0000_0000 % 0x100,
                i / 0x1_0000_0000 % 0x100, i / 0x100_0000 % 0x100, i / 0x1_0000 % 0x100, i / 0x100 % 0x100, i % 0x100], 8;
  }

  lemma BytesOf1(i: nat)
    requires i < 0x100
    ensures Bytes(i, 1) == [i]
  {
    assert Bytes(i / 0x100, 0) == [];
  }

  lemma BytesOf2(i: nat)
    requires i < 0x1_0000
    ensures Bytes(i, 2) == [i / 0x100, i % 0x100]
  {
    BytesOf1(i / 0x100);
  }

  lemma LowFour(i: nat, n: nat)
    requires n >= 4
    ensures Bytes(i, n) == Bytes(i / 0x1_0000_0000, n - 4) + [i / 0x100_0000 % 0x100, i / 0x1_0000 % 0x100, i / 0x100 % 0x100, i % 0x100]
  {
    var i1, i2, i3 := i / 0x100, i / 0x1_0000, i / 0x100_0000;
    assert i1 / 0x100 == i2 && i2 / 0x100 == i3 && i3 / 0x100 == i / 0x1_0000_0000;
    assert Bytes(i, n) == Bytes(i1, n - 1) + [i % 0x100];
    assert Bytes(i1, n - 1) == Bytes(i2, n - 2) + [i1 % 0x100];
    assert Bytes(i2, n - 2) == Bytes(i3, n - 3) + [i2 % 0x100];
  }

  lemma BytesOf4(i: nat)
    requires i < 0x1_0000_0000
    ensures Bytes(i, 4) == [i / 0x100_0000, i / 0x1_0000 % 0x100, i / 0x100 % 0x100, i % 0x100]
  {
    LowFour(i, 4);
    assert Bytes(i / 0x1_0000_0000, 0) == [];
  }

  lemma BytesOf8(i: nat)
    requires i < 0x1_0000_0000_0000_0000
    ensures Bytes(i, 8) == [i / 0x100_0000_0000_0000, i / 0x1_0000_0000_0000 % 0x100, i / 0x100_0000_0000 % 0x100,
                            i / 0x1_0000_0000 % 0x100, i / 0x100_0000 % 0x100, i / 0x1_0000 % 0x100, i / 0x100 % 0x100, i % 0x100]
  {
    LowFour(i, 8);
    var top := i / 0x1_0000_0000;
    BytesOf4(top);
    assert top / 0x100_0000 == i / 0x100_0000_0000_0000;
    assert top / 0x1_0000 == i / 0x1_0000_0000_0000;
    assert top / 0x100 == i / 0x100_0000_0000;
  }

  lemma VarintOf8(i: int)
    requires MAX_VARINT_4 < i <= MAX_VARINT_8
    ensures Varint(i) == [i / 0x100_0000_0000_0000 + 0xc0, i / 0x1_0000_0000_0000 % 0x100, i / 0x100_0000_0000 % 0x100,
                          i / 0x1_0000_0000 % 0x100, i / 0x100_0000 % 0x100, i / 0x1_0000 % 0x100, i / 0x100 % 0x100, i % 0x100]
  {
    BytesOf8(i);
  }

  lemma FourByteSample()
    ensures Varint(494878333) == [0x9d, 0x7f, 0x3e, 0x7d]
  {
    BytesOf4(494878333);
  }

  /** The sample encodings of RFC 9000, appendix A.1. */
  lemma SampleEncodings()
    ensures Varint(37) == [0x25] && Varint(15293) == [0x7b, 0xbd] && Varint(494878333) == [0x9d, 0x7f, 0x3e, 0x7d]
    ensures Varint(151288809941952652) == [0xc2, 0x19, 0x7c, 0x5e, 0xff, 0x14, 0xe8, 0x8c]
  {
    BytesOf1(37);
    BytesOf2(15293);
    FourByteSample();
    VarintOf8(151288809941952652);
  }

  method ReadVarint(b: seq<Byte>) returns (r: Parsed<nat>)
    ensures r == ParseVarint(b)
  {
    if |b| < 1 { return Bad(Eof); }
    var l := Width(b[0]);
    if |b| < l { return Bad(Eof); }
    ghost var bs := [b[0] % 64] + b[1..l];
    ValueUnrolls(bs);
    var i: nat;
    match l {
      case 1 => i := b[0] % 64;
      case 2 => i := (b[0] % 64) as int * 0x100 + b[1];
      case 4 => i := (b[0] % 64) as int * 0x100_0000 + b[1] as int * 0x1_0000 + b[2] as int * 0x100 + b[3];
      case _ => i := (b[0] % 64) as int * 0x100_0000_0000_0000 + b[1] as int * 0x1_0000_0000_0000 + b[2] as int * 0x100_0000_0000
                     + b[3] as int * 0x1_0000_0000 + b[4] as int * 0x100_0000 + b[5] as int * 0x1_0000 + b[6] as int * 0x100 + b[7];
    }
    return Got(i, l);
  }

  lemma ValueAppend(bs: seq<Byte>, b: Byte)
    ensures Value(bs + [b]) == 256 * Value(bs) + b
  {
    assert (bs + [b])[..|bs|] == bs;
  }

  lemma ValueUnrolls(bs: seq<Byte>)
    ensures |bs| == 1 ==> Value(bs) == bs[0]
    ensures |bs| == 2 ==> Value(bs) == bs[0] as int * 0x100 + bs[1]
    ensures |bs| == 4 ==> Value(bs) == bs[0] as int * 0x100_0000 + bs[1] as int * 0x1_0000 + bs[2] as int * 0x100 + bs[3]
    ensures |bs| == 8 ==> Value(bs) == bs[0] as int * 0x100_0000_0000_0000 + bs[1] as int * 0x1_0000_0000_0000 + bs[2] as int * 0x100_0000_0000
                                       + bs[3] as int * 0x1_0000_0000 + bs[4] as int * 0x100_0000 + bs[5] as int * 0x1_0000 + bs[6] as int * 0x100 + bs[7]
  {
    if |bs| > 0 && |bs| <= 8 {
      ValuePrefix(bs, 0);
    }
  }

  lemma ValuePrefix(bs: seq<Byte>, k: nat)
    requires k < |bs|
    ensures forall j :: k <= j < |bs| ==> Value(bs[..j + 1]) == 256 * Value(bs[..j]) + bs[j]
    ensures bs[..|bs|] == bs && Value(bs[..0]) == 0
  {
    forall j | k <= j < |bs| ensures Value(bs[..j + 1]) == 256 * Value(bs[..j]) + bs[j] {
      assert bs[..j + 1] == bs[..j] + [bs[j]];
      ValueAppend(bs[..j], bs[j]);
    }
    assert bs[..|bs|] == bs;
  }

  // Reading from a stream.

  /** The bytes still to come from a stream and the error it then gives: io.EOF, or a reset. */
  class Source {
    var rest: seq<Byte>
    const end: Error

    constructor (bytes: seq<Byte>, end: Error)
      ensures rest == bytes && this.end == end
    {
      rest, this.end := bytes, end;
    }

    method ReadByte() returns (r: Result<Byte>)
      modifies this
      ensures old(rest) == [] ==> r == Err(end) && rest == []
      ensures old(rest) != [] ==> r == Ok(old(rest)[0]) && rest == old(rest)[1..]
    {
      if rest == [] { return Err(end); }
      r := Ok(rest[0]);
      rest := rest[1..];
    }

    /** io.ReadFull: all n bytes, or an error that tells an early end from an end before the first byte. */
    method ReadFull(n: nat) returns (r: Result<seq<Byte>>)
      modifies this
      ensures |old(rest)| >= n ==> r == Ok(old(rest)[..n]) && rest == old(rest)[n..]
      ensures |old(rest)| < n ==> r == Err(if end == Eof && old(rest) != [] then UnexpectedEof else end) && rest == []
    {
      if |rest| >= n {
        r := Ok(rest[..n]);
        rest := rest[n..];
      } else {
        r := Err(if end == Eof && rest != [] then UnexpectedEof else end);
        rest := [];
      }
    }
  }

  /** What ReadMessageLength makes of a stream, and what is left of it. */
  function Length(rest: seq<Byte>, end: Error): (Result<nat>, seq<Byte>) {
    if rest == [] then (Err(end), [])
    else
      match ParseVarint(rest)
      case Got(i, n) => (Ok(i), rest[n..])
      case Bad(_) => (Err(if end == Eof then UnexpectedEof else end), [])
  }

  /** A stream that ends inside a number never ends cleanly: an io.EOF is reported only before the first byte. */
  lemma TruncatedVarint(i: int, n: nat, end: Error)
    requires Fits(i) && n < VarintLen(i)
    ensures Length(Varint(i)[..n], end) == (Err(if n > 0 && end == Eof then UnexpectedEof else end), [])
  {
    VarintLenFits(i);
    TopByte(i, VarintLen(i));
    assert Width(Varint(i)[0]) == VarintLen(i);
  }

  /** The io.ByteReader form. */
  method ReadMessageLengthBytewise(src: Source) returns (r: Result<nat>)
    modifies src
    ensures (r, src.rest) == Length(old(src.rest), src.end)
  {
    ghost var all := src.rest;
    var f := src.ReadByte();
    if f.Err? { return Err(f.error); }
    var first := f.value;
    var l := Width(first);
    var val := first % 64;
    ghost var bs := [first % 64];
    ValueAppend([], first % 64);
    for i := 1 to l
      invariant i <= |all| && src.rest == all[i..]
      invariant bs == [first % 64] + all[1..i] && val == Value(bs)
    {
      var b := src.ReadByte();
      if b.Err? {
        return Err(if b.error == Eof then UnexpectedEof else b.error);
      }
      ValueAppend(bs, b.value);
      LongerMiddle(all, i, [first % 64]);
      ShorterRest(all, i, 1);
      val, bs := val * 256 + b.value, bs + [b.value];
    }
    return Ok(val);
  }

  /** The form for any other io.Reader. */
  method ReadMessageLengthFallback(src: Source) returns (r: Result<nat>)
    modifies src
    ensures (r, src.rest) == Length(old(src.rest), src.end)
  {
    ghost var all := src.rest;
    var head := src.ReadFull(1);
    if head.Err? { return Err(head.error); }
    var l := Width(head.value[0]);
    var buf := head.value;
    if l > 1 {
      var tail := src.ReadFull(l - 1);
      if tail.Err? {
        return Err(if tail.error == Eof then UnexpectedEof else tail.error);
      }
      buf := buf + tail.value;
    }
    assert buf == all[..l] && buf[1..l] == all[1..l] && src.rest == all[l..];
    var v := ReadVarint(buf);
    return Ok(v.value);
  }
}
