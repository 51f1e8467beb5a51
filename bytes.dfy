/**
 * Big-endian fixed-width integers as the object stream writes them.
 *
 * A buffer is a sequence of octets; every reader here names a position and
 * a width, and the caller guarantees (with `Has`) that the bytes exist. The
 * signed forms are the two's-complement reinterpretation of the unsigned
 * ones, which is what `DataView.getInt8/16/32` return.
 */
module Bytes {

  type byte = x: int | 0 <= x < 256

  const TWO_8: int := 0x100
  const TWO_16: int := 0x1_0000
  const TWO_32: int := 0x1_0000_0000
  const TWO_64: int := 0x1_0000_0000_0000_0000

  /** `n` bytes can be read starting at `pos`. */
  predicate Has(data: seq<byte>, pos: int, n: int)
  {
    0 <= pos && 0 <= n && pos + n <= |data|
  }

  /** Two's-complement reading of an unsigned word `u` modulo `m`. */
  function ToSigned(u: int, m: int): (r: int)
    requires 0 < m && m % 2 == 0 && 0 <= u < m
    ensures -(m / 2) <= r < m / 2
    ensures (r - u) % m == 0
  {
    if u >= m / 2 then u - m else u
  }

  /** Unsigned 16-bit word: splits back into its high and low byte. */
  function U16(data: seq<byte>, pos: int): (r: int)
    requires Has(data, pos, 2)
    ensures 0 <= r < TWO_16
    ensures r / TWO_8 == data[pos] && r % TWO_8 == data[pos + 1]
  {
    data[pos] * TWO_8 + data[pos + 1]
  }

  /** Unsigned 32-bit word: splits back into its two 16-bit halves. */
  function U32(data: seq<byte>, pos: int): (r: int)
    requires Has(data, pos, 4)
    ensures 0 <= r < TWO_32
    ensures r / TWO_16 == U16(data, pos) && r % TWO_16 == U16(data, pos + 2)
  {
    U16(data, pos) * TWO_16 + U16(data, pos + 2)
  }

  function I8(data: seq<byte>, pos: int): (r: int)
    requires Has(data, pos, 1)
    ensures -0x80 <= r < 0x80 && (r - data[pos]) % TWO_8 == 0
  {
    ToSigned(data[pos], TWO_8)
  }

  function I16(data: seq<byte>, pos: int): (r: int)
    requires Has(data, pos, 2)
    ensures -0x8000 <= r < 0x8000 && (r - U16(data, pos)) % TWO_16 == 0
  {
    ToSigned(U16(data, pos), TWO_16)
  }

  function I32(data: seq<byte>, pos: int): (r: int)
    requires Has(data, pos, 4)
    ensures -0x8000_0000 <= r < 0x8000_0000 && (r - U32(data, pos)) % TWO_32 == 0
  {
    ToSigned(U32(data, pos), TWO_32)
  }

  /**
   * The 64-bit read of the stream: a signed high word shifted left by 32
   * and or-ed with an unsigned low word. The two operands have disjoint
   * bits, so the or is a sum.
   */
  function I64(data: seq<byte>, pos: int): (r: int)
    requires Has(data, pos, 8)
    ensures -0x8000_0000_0000_0000 <= r < 0x8000_0000_0000_0000
  {
    I32(data, pos) * TWO_32 + U32(data, pos + 4)
  }

  /** Reference reading of a big-endian unsigned number of any width. */
  function BigEndian(s: seq<byte>): nat
  {
    if s == [] then 0 else BigEndian(s[..|s| - 1]) * TWO_8 + s[|s| - 1]
  }

  function Pow256(n: nat): (r: nat)
    ensures r > 0
  {
    if n == 0 then 1 else TWO_8 * Pow256(n - 1)
  }

  lemma {:induction false} BigEndianBound(s: seq<byte>)
    ensures BigEndian(s) < Pow256(|s|)
  {
    if s != [] {
      BigEndianBound(s[..|s| - 1]);
    }
  }

  /** A big-endian number is its high part shifted past the low part. */
  lemma {:induction false} BigEndianConcat(a: seq<byte>, b: seq<byte>)
    ensures BigEndian(a + b) == BigEndian(a) * Pow256(|b|) + BigEndian(b)
  {
    if b == [] {
      assert a + b == a;
    } else {
      var b' := b[..|b| - 1];
      assert (a + b)[..|a + b| - 1] == a + b';
      BigEndianConcat(a, b');
      calc {
        BigEndian(a + b);
        BigEndian(a + b') * TWO_8 + b[|b| - 1];
        (BigEndian(a) * Pow256(|b'|) + BigEndian(b')) * TWO_8 + b[|b| - 1];
        { Shift(BigEndian(a), Pow256(|b'|), BigEndian(b'), b[|b| - 1]); }
        BigEndian(a) * (Pow256(|b'|) * TWO_8) + (BigEndian(b') * TWO_8 + b[|b| - 1]);
        BigEndian(a) * Pow256(|b|) + BigEndian(b);
      }
    }
  }

  lemma Shift(x: int, p: int, y: int, c: int)
    ensures (x * p + y) * TWO_8 + c == x * (p * TWO_8) + (y * TWO_8 + c)
  {
  }

  lemma U32IsBigEndian(data: seq<byte>, pos: int)
    requires Has(data, pos, 4)
    ensures U32(data, pos) == BigEndian(data[pos..pos + 4])
  {
    var w := data[pos..pos + 4];
    assert w[..1][..0] == [];
    assert w[..2][..1] == w[..1];
    assert w[..3][..2] == w[..2];
    assert w[..4][..3] == w[..3];
    assert BigEndian(w[..1]) == data[pos];
    assert BigEndian(w[..2]) == data[pos] * TWO_8 + data[pos + 1];
    assert BigEndian(w[..3]) == (data[pos] * TWO_8 + data[pos + 1]) * TWO_8 + data[pos + 2];
    assert w[..4] == w;
  }

  /**
   * The stream's 64-bit composition equals the two's-complement reading of
   * the eight bytes as one big-endian word.
   */
  lemma Int64IsSignedWord(data: seq<byte>, pos: int)
    requires Has(data, pos, 8)
    ensures BigEndian(data[pos..pos + 8]) < TWO_64
    ensures I64(data, pos) == ToSigned(BigEndian(data[pos..pos + 8]), TWO_64)
  {
    var hi, lo := U32(data, pos), U32(data, pos + 4);
    U32IsBigEndian(data, pos);
    U32IsBigEndian(data, pos + 4);
    assert data[pos..pos + 8] == data[pos..pos + 4] + data[pos + 4..pos + 8];
    BigEndianConcat(data[pos..pos + 4], data[pos + 4..pos + 8]);
    assert Pow256(4) == TWO_32;
    BigEndianBound(data[pos..pos + 8]);
    assert Pow256(8) == TWO_64;
    var w := BigEndian(data[pos..pos + 8]);
    assert w == hi * TWO_32 + lo;
    if hi >= TWO_32 / 2 {
      assert w >= TWO_64 / 2;
      assert I64(data, pos) == (hi - TWO_32) * TWO_32 + lo;
    } else {
      assert w < TWO_64 / 2 by {
        assert hi <= TWO_32 / 2 - 1;
        assert w <= (TWO_32 / 2 - 1) * TWO_32 + lo;
      }
    }
  }

  /** The four big-endian bytes of a signed 32-bit integer. */
  function Int32Bytes(x: int): (r: seq<byte>)
    requires -0x8000_0000 <= x < 0x8000_0000
    ensures |r| == 4
  {
    var u := if x < 0 then x + TWO_32 else x;
    [u / 0x100_0000, (u / 0x1_0000) % TWO_8, (u / TWO_8) % TWO_8, u % TWO_8]
  }

  /** `I32` inverts `Int32Bytes`. */
  lemma Int32RoundTrip(x: int)
    requires -0x8000_0000 <= x < 0x8000_0000
    ensures I32(Int32Bytes(x), 0) == x
  {
    var b := Int32Bytes(x);
    var u := if x < 0 then x + TWO_32 else x;
    assert U16(b, 0) == u / TWO_16;
    assert U16(b, 2) == u % TWO_16;
    assert U32(b, 0) == u;
  }
}
