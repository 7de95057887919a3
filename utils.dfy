/**
 * The primitive reader of spyparty-rs/src/utils.rs: exact-length
 * little-endian reads from a byte stream.
 *
 * The stream is a `Reader`, a cursor whose `rest` is the input not yet
 * consumed. std's `read_exact` fills a caller-supplied buffer in place; the
 * little-endian conversion of that buffer is the pure `LittleEndian`.
 */
module Utils {
  import opened Results

  type u8 = x: int | 0 <= x < 0x100
  type u16 = x: int | 0 <= x < 0x1_0000
  type u32 = x: int | 0 <= x < 0x1_0000_0000
  type u128 = x: int | 0 <= x < 0x1_0000_0000_0000_0000_0000_0000_0000_0000

  /** The failure `read_exact` reports when the input ends before the buffer is full. */
  datatype IoError = UnexpectedEof

  /**
   * A 32-bit float, kept as its bit pattern: `LittleEndian::read_f32` is
   * `f32::from_bits` of the little-endian word, a bijection, and the decoder
   * never computes with the value.
   */
  datatype F32 = F32(bits: u32)

  function Pow256(n: nat): (r: nat)
    ensures r > 0
  {
    if n == 0 then 1 else 256 * Pow256(n - 1)
  }

  /** The little-endian value of `s`: the sum of s[i] * 256^i. */
  function LittleEndian(s: seq<u8>): (r: nat)
    ensures r < Pow256(|s|)
  {
    if s == [] then 0 else s[0] + 256 * LittleEndian(s[1..])
  }

  /** The `n`-byte little-endian encoding of `x` (the low `n` bytes). */
  function ToLittleEndian(x: nat, n: nat): (s: seq<u8>)
    ensures |s| == n
  {
    if n == 0 then [] else [x % 256] + ToLittleEndian(x / 256, n - 1)
  }

  lemma {:induction false} LittleEndianOfEncoding(x: nat, n: nat)
    requires x < Pow256(n)
    ensures LittleEndian(ToLittleEndian(x, n)) == x
  {
    if n > 0 {
      LittleEndianOfEncoding(x / 256, n - 1);
      var s := ToLittleEndian(x, n);
      assert s[1..] == ToLittleEndian(x / 256, n - 1);
    }
  }

  lemma {:induction false} EncodingOfLittleEndian(s: seq<u8>)
    ensures ToLittleEndian(LittleEndian(s), |s|) == s
  {
    if s != [] {
      EncodingOfLittleEndian(s[1..]);
      var x := LittleEndian(s);
      assert x % 256 == s[0] && x / 256 == LittleEndian(s[1..]);
    }
  }

  lemma Pow256Widths()
    ensures Pow256(1) == 0x100 && Pow256(2) == 0x1_0000 && Pow256(4) == 0x1_0000_0000
    ensures Pow256(16) == 0x1_0000_0000_0000_0000_0000_0000_0000_0000
  {
    assert Pow256(4) == 0x1_0000_0000;
    assert Pow256(8) == 0x1_0000_0000_0000_0000;
    assert Pow256(12) == 0x1_0000_0000_0000_0000_0000_0000;
  }

  /** `byteorder`'s explicit formula for a 2-byte and a 4-byte little-endian word. */
  lemma {:induction false} LittleEndianWords(s: seq<u8>)
    ensures |s| == 2 ==> LittleEndian(s) == s[0] as int + 0x100 * (s[1] as int)
    ensures |s| == 4 ==> LittleEndian(s) == s[0] as int + 0x100 * (s[1] as int) + 0x1_0000 * (s[2] as int) + 0x100_0000 * (s[3] as int)
  {
    if |s| == 2 {
      assert LittleEndian(s[1..]) == s[1] + 256 * LittleEndian(s[2..]);
      assert s[2..] == [];
    }
    if |s| == 4 {
      assert LittleEndian(s[1..]) == s[1] + 256 * LittleEndian(s[2..]);
      assert LittleEndian(s[2..]) == s[2] + 256 * LittleEndian(s[3..]);
      assert LittleEndian(s[3..]) == s[3] + 256 * LittleEndian(s[4..]);
      assert s[4..] == [];
    }
  }

  // The pure readers: the value of the first `n` bytes and what is left, or
  // an I/O error when fewer than `n` bytes remain.

  function ParseBytes(s: seq<u8>, n: nat): (r: Result<(seq<u8>, seq<u8>), IoError>)
    ensures r.Success? <==> n <= |s|
    ensures r.Success? ==> |r.value.0| == n && |r.value.1| == |s| - n
    ensures r.Failure? ==> r.error == UnexpectedEof
  {
    if |s| < n then Failure(UnexpectedEof) else Success((s[..n], s[n..]))
  }

  /** The bytes read and the bytes left are the input, split. */
  lemma ParseBytesSplits(s: seq<u8>, n: nat)
    requires n <= |s|
    ensures ParseBytes(s, n).value.0 + ParseBytes(s, n).value.1 == s
  {
    assert s[..n] + s[n..] == s;
  }

  function ParseU8(s: seq<u8>): (r: Result<(u8, seq<u8>), IoError>)
    ensures r.Success? <==> 1 <= |s|
    ensures r.Success? ==> [r.value.0] + r.value.1 == s
  {
    if |s| < 1 then Failure(UnexpectedEof) else Success((s[0], s[1..]))
  }

  function ParseU16(s: seq<u8>): (r: Result<(u16, seq<u8>), IoError>)
    ensures r.Success? <==> 2 <= |s|
    ensures r.Success? ==> ToLittleEndian(r.value.0, 2) + r.value.1 == s
  {
    if |s| < 2 then Failure(UnexpectedEof)
    else
      Pow256Widths();
      EncodingOfLittleEndian(s[..2]);
      Success((LittleEndian(s[..2]), s[2..]))
  }

  function ParseU32(s: seq<u8>): (r: Result<(u32, seq<u8>), IoError>)
    ensures r.Success? <==> 4 <= |s|
    ensures r.Success? ==> ToLittleEndian(r.value.0, 4) + r.value.1 == s
  {
    if |s| < 4 then Failure(UnexpectedEof)
    else
      Pow256Widths();
      EncodingOfLittleEndian(s[..4]);
      Success((LittleEndian(s[..4]), s[4..]))
  }

  function ParseU128(s: seq<u8>): (r: Result<(u128, seq<u8>), IoError>)
    ensures r.Success? <==> 16 <= |s|
    ensures r.Success? ==> ToLittleEndian(r.value.0, 16) + r.value.1 == s
  {
    if |s| < 16 then Failure(UnexpectedEof)
    else
      Pow256Widths();
      EncodingOfLittleEndian(s[..16]);
      Success((LittleEndian(s[..16]), s[16..]))
  }

  function ParseF32(s: seq<u8>): (r: Result<(F32, seq<u8>), IoError>)
    ensures r.Success? <==> 4 <= |s|
    ensures r.Success? ==> ToLittleEndian(r.value.0.bits, 4) + r.value.1 == s
  {
    var w :- ParseU32(s);
    Success((F32(w.0), w.1))
  }

  /** The little-endian word at byte `i`. */
  function WordAt(s: seq<u8>, i: nat): u32
    requires i + 4 <= |s|
  {
    Pow256Widths();
    LittleEndian(s[i..i + 4])
  }

  /** The little-endian 16-bit value at byte `i`. */
  function HalfAt(s: seq<u8>, i: nat): u16
    requires i + 2 <= |s|
  {
    Pow256Widths();
    LittleEndian(s[i..i + 2])
  }

  /** The little-endian 128-bit value at byte `i`. */
  function WideAt(s: seq<u8>, i: nat): u128
    requires i + 16 <= |s|
  {
    Pow256Widths();
    LittleEndian(s[i..i + 16])
  }

  // Each pure reader applied at byte `i` of an input reads the bytes there.

  lemma ParseBytesAt(s: seq<u8>, i: nat, n: nat)
    requires i <= |s|
    ensures ParseBytes(s[i..], n).Success? <==> i + n <= |s|
    ensures i + n <= |s| ==> ParseBytes(s[i..], n) == Success((s[i..i + n], s[i + n..]))
  {
    if i + n <= |s| {
      assert s[i..][..n] == s[i..i + n];
      assert s[i..][n..] == s[i + n..];
    }
  }

  lemma ParseU8At(s: seq<u8>, i: nat)
    requires i <= |s|
    ensures ParseU8(s[i..]).Success? <==> i + 1 <= |s|
    ensures i + 1 <= |s| ==> ParseU8(s[i..]) == Success((s[i], s[i + 1..]))
  {
    if i + 1 <= |s| {
      assert s[i..][1..] == s[i + 1..];
    }
  }

  lemma ParseU16At(s: seq<u8>, i: nat)
    requires i <= |s|
    ensures ParseU16(s[i..]).Success? <==> i + 2 <= |s|
    ensures i + 2 <= |s| ==> ParseU16(s[i..]) == Success((HalfAt(s, i), s[i + 2..]))
  {
    if i + 2 <= |s| {
      assert s[i..][..2] == s[i..i + 2];
      assert s[i..][2..] == s[i + 2..];
    }
  }

  lemma ParseU32At(s: seq<u8>, i: nat)
    requires i <= |s|
    ensures ParseU32(s[i..]).Success? <==> i + 4 <= |s|
    ensures i + 4 <= |s| ==> ParseU32(s[i..]) == Success((WordAt(s, i), s[i + 4..]))
  {
    if i + 4 <= |s| {
      assert s[i..][..4] == s[i..i + 4];
      assert s[i..][4..] == s[i + 4..];
    }
  }

  lemma ParseU128At(s: seq<u8>, i: nat)
    requires i <= |s|
    ensures ParseU128(s[i..]).Success? <==> i + 16 <= |s|
    ensures i + 16 <= |s| ==> ParseU128(s[i..]) == Success((WideAt(s, i), s[i + 16..]))
  {
    if i + 16 <= |s| {
      assert s[i..][..16] == s[i..i + 16];
      assert s[i..][16..] == s[i + 16..];
    }
  }

  lemma ParseF32At(s: seq<u8>, i: nat)
    requires i <= |s|
    ensures ParseF32(s[i..]).Success? <==> i + 4 <= |s|
    ensures i + 4 <= |s| ==> ParseF32(s[i..]) == Success((F32(WordAt(s, i)), s[i + 4..]))
  {
    ParseU32At(s, i);
  }

  // Each pure reader takes back what the encoding puts in front of the rest.

  lemma ParseBytesOfPrefix(b: seq<u8>, t: seq<u8>)
    ensures ParseBytes(b + t, |b|) == Success((b, t))
  {
    assert (b + t)[..|b|] == b && (b + t)[|b|..] == t;
  }

  lemma ParseU8OfEncoding(x: u8, t: seq<u8>)
    ensures ParseU8([x] + t) == Success((x, t))
  {
    assert ([x] + t)[1..] == t;
  }

  lemma ParseU16OfEncoding(x: u16, t: seq<u8>)
    ensures ParseU16(ToLittleEndian(x, 2) + t) == Success((x, t))
  {
    var e := ToLittleEndian(x, 2);
    assert (e + t)[..2] == e && (e + t)[2..] == t;
    Pow256Widths();
    LittleEndianOfEncoding(x, 2);
  }

  lemma ParseU32OfEncoding(x: u32, t: seq<u8>)
    ensures ParseU32(ToLittleEndian(x, 4) + t) == Success((x, t))
  {
    var e := ToLittleEndian(x, 4);
    assert (e + t)[..4] == e && (e + t)[4..] == t;
    Pow256Widths();
    LittleEndianOfEncoding(x, 4);
  }

  lemma ParseU128OfEncoding(x: u128, t: seq<u8>)
    ensures ParseU128(ToLittleEndian(x, 16) + t) == Success((x, t))
  {
    var e := ToLittleEndian(x, 16);
    assert (e + t)[..16] == e && (e + t)[16..] == t;
    Pow256Widths();
    LittleEndianOfEncoding(x, 16);
  }

  lemma ParseF32OfEncoding(x: F32, t: seq<u8>)
    ensures ParseF32(ToLittleEndian(x.bits, 4) + t) == Success((x, t))
  {
    ParseU32OfEncoding(x.bits, t);
  }

  /** A cursor over the input bytes; `rest` is what has not been read yet. */
  class Reader {
    var rest: seq<u8>

    constructor (input: seq<u8>)
      ensures rest == input
    {
      rest := input;
    }

    /**
     * std's `read_exact`: fill all of `buf` from the front of the input, or
     * fail with `UnexpectedEof` when fewer than `buf.Length` bytes remain.
     * A failed read leaves the cursor where it was, as a byte-slice reader does.
     */
    method ReadExact(buf: array<u8>) returns (o: Outcome<IoError>)
      modifies this, buf
      ensures o.Fail? <==> |old(rest)| < buf.Length
      ensures o.Fail? ==> o.error == UnexpectedEof && rest == old(rest)
      ensures o.Pass? ==> buf[..] == old(rest)[..buf.Length] && rest == old(rest)[buf.Length..]
    {
      if |rest| < buf.Length {
        return Fail(UnexpectedEof);
      }
      var i := 0;
      while i < buf.Length
        modifies buf
        invariant 0 <= i <= buf.Length
        invariant buf[..i] == rest[..i]
      {
        buf[i] := rest[i];
        i := i + 1;
      }
      rest := rest[buf.Length..];
      return Pass;
    }
  }

  method ReadU8(reader: Reader) returns (r: Result<u8, IoError>)
    modifies reader
    ensures r.Failure? <==> |old(reader.rest)| < 1
    ensures r.Failure? ==> r.error == UnexpectedEof && reader.rest == old(reader.rest)
    ensures r.Success? ==> r.value == old(reader.rest)[0] && reader.rest == old(reader.rest)[1..]
  {
    var buf := new u8[1](_ => 0);
    var o := reader.ReadExact(buf);
    if o.Fail? {
      return Failure(o.error);
    }
    r := Success(buf[0]);
  }

  method ReadU16(reader: Reader) returns (r: Result<u16, IoError>)
    modifies reader
    ensures r.Failure? <==> |old(reader.rest)| < 2
    ensures r.Failure? ==> r.error == UnexpectedEof && reader.rest == old(reader.rest)
    ensures r.Success? ==> r.value == LittleEndian(old(reader.rest)[..2]) && reader.rest == old(reader.rest)[2..]
  {
    var buf := new u8[2](_ => 0);
    var o := reader.ReadExact(buf);
    if o.Fail? {
      return Failure(o.error);
    }
    Pow256Widths();
    r := Success(LittleEndian(buf[..]));
  }

  method ReadU32(reader: Reader) returns (r: Result<u32, IoError>)
    modifies reader
    ensures r.Failure? <==> |old(reader.rest)| < 4
    ensures r.Failure? ==> r.error == UnexpectedEof && reader.rest == old(reader.rest)
    ensures r.Success? ==> r.value == LittleEndian(old(reader.rest)[..4]) && reader.rest == old(reader.rest)[4..]
  {
    var buf := new u8[4](_ => 0);
    var o := reader.ReadExact(buf);
    if o.Fail? {
      return Failure(o.error);
    }
    Pow256Widths();
    r := Success(LittleEndian(buf[..]));
  }

  method ReadU128(reader: Reader) returns (r: Result<u128, IoError>)
    modifies reader
    ensures r.Failure? <==> |old(reader.rest)| < 16
    ensures r.Failure? ==> r.error == UnexpectedEof && reader.rest == old(reader.rest)
    ensures r.Success? ==> r.value == LittleEndian(old(reader.rest)[..16]) && reader.rest == old(reader.rest)[16..]
  {
    var buf := new u8[16](_ => 0);
    var o := reader.ReadExact(buf);
    if o.Fail? {
      return Failure(o.error);
    }
    Pow256Widths();
    r := Success(LittleEndian(buf[..]));
  }

  method ReadF32(reader: Reader) returns (r: Result<F32, IoError>)
    modifies reader
    ensures r.Failure? <==> |old(reader.rest)| < 4
    ensures r.Failure? ==> r.error == UnexpectedEof && reader.rest == old(reader.rest)
    ensures r.Success? ==> r.value == F32(LittleEndian(old(reader.rest)[..4])) && reader.rest == old(reader.rest)[4..]
  {
    var buf := new u8[4](_ => 0);
    var o := reader.ReadExact(buf);
    if o.Fail? {
      return Failure(o.error);
    }
    Pow256Widths();
    r := Success(F32(LittleEndian(buf[..])));
  }
}
