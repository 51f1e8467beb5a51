/**
 * The "modified UTF-8" text encoding of `java.io.DataInput`: each UTF-16
 * code unit is written in one, two or three bytes. The decoder accepts a
 * raw zero byte as well as Java's two-byte form of U+0000, does not check
 * continuation bytes, and reads a continuation byte missing at the end of
 * the input as zero (JavaScript's `undefined & 0x3f`).
 */
module ModifiedUtf8 {
  import opened Bytes
  import opened Values

  function Min(a: int, b: int): int { if a < b then a else b }

  /** Bytes taken by the form a lead byte starts: 1, 2, 3, or 0 when it starts none. */
  function LeadWidth(c: byte): (w: nat)
    ensures w <= 3
    ensures w == 1 <==> c < 0x80                  // 0xxxxxxx
    ensures w == 2 <==> 0xC0 <= c < 0xE0          // 110xxxxx
    ensures w == 3 <==> 0xE0 <= c < 0xF0          // 1110xxxx
  {
    if c < 0x80 then 1
    else if c / 0x20 == 0x6 then 2
    else if c / 0x10 == 0xE then 3
    else 0
  }

  /** `bytes[i]`, with a read past the end giving 0. */
  function ByteOr0(b: seq<byte>, i: int): byte
  {
    if 0 <= i < |b| then b[i] else 0
  }

  /** The code unit of the form starting at `b[0]`. */
  function UnitAt(b: seq<byte>): CodeUnit
    requires |b| > 0 && LeadWidth(b[0]) != 0
  {
    var c: int := b[0];
    if LeadWidth(b[0]) == 1 then c
    else if LeadWidth(b[0]) == 2 then (c % 0x20) * 0x40 + ByteOr0(b, 1) % 0x40
    else (c % 0x10) * 0x1000 + (ByteOr0(b, 1) % 0x40) * 0x40 + ByteOr0(b, 2) % 0x40
  }

  /** Prefixes `p` to a successful decoding. */
  function Prepend(p: JString, r: Option<JString>): Option<JString>
  {
    match r
    case None => None
    case Some(t) => Some(p + t)
  }

  /**
   * The decoded text, or None where a lead byte starts no form. Each code
   * unit consumes at least one byte, so the text is never longer than the
   * input.
   */
  function Decode(b: seq<byte>): (r: Option<JString>)
    ensures r.Some? ==> |r.value| <= |b|
    decreases |b|
  {
    if b == [] then Some([])
    else if LeadWidth(b[0]) == 0 then None
    else Prepend([UnitAt(b)], Decode(b[Min(LeadWidth(b[0]), |b|)..]))
  }

  /** Java's `DataOutput.writeUTF` encoding of one code unit. */
  function EncodeUnit(u: CodeUnit): (r: seq<byte>)
    ensures 1 <= |r| <= 3
  {
    if 1 <= u < 0x80 then [u]
    else if u < 0x800 then [0xC0 + u / 0x40, 0x80 + u % 0x40]
    else [0xE0 + u / 0x1000, 0x80 + (u / 0x40) % 0x40, 0x80 + u % 0x40]
  }

  function Encode(s: JString): seq<byte>
  {
    if s == [] then [] else EncodeUnit(s[0]) + Encode(s[1..])
  }

  lemma SplitTwo(u: int)
    requires 0 <= u < 0x800
    ensures u / 0x40 < 0x20 && (u / 0x40) * 0x40 + u % 0x40 == u
  {
  }

  lemma SplitThree(u: int)
    requires 0 <= u < 0x1_0000
    ensures u / 0x1000 < 0x10
    ensures (u / 0x1000) * 0x1000 + ((u / 0x40) % 0x40) * 0x40 + u % 0x40 == u
  {
    var q := u / 0x40;
    assert u == q * 0x40 + u % 0x40;
    assert q == (q / 0x40) * 0x40 + q % 0x40;
    assert q / 0x40 == u / 0x1000;
  }

  lemma EncodeUnitDecodes(u: CodeUnit, rest: seq<byte>)
    ensures var b := EncodeUnit(u) + rest;
      LeadWidth(b[0]) == |EncodeUnit(u)| && UnitAt(b) == u
  {
    var e := EncodeUnit(u);
    var b := e + rest;
    if 1 <= u < 0x80 {
      assert b[0] == u;
    } else if u < 0x800 {
      SplitTwo(u);
      assert b[0] == 0xC0 + u / 0x40 && b[1] == 0x80 + u % 0x40;
      assert b[0] % 0x20 == u / 0x40;
      assert ByteOr0(b, 1) % 0x40 == u % 0x40;
    } else {
      SplitThree(u);
      assert b[0] == 0xE0 + u / 0x1000;
      assert b[1] == 0x80 + (u / 0x40) % 0x40 && b[2] == 0x80 + u % 0x40;
      assert b[0] % 0x10 == u / 0x1000;
      assert ByteOr0(b, 1) % 0x40 == (u / 0x40) % 0x40;
      assert ByteOr0(b, 2) % 0x40 == u % 0x40;
    }
  }

  /** Decoding inverts Java's encoder, U+0000 and lone surrogates included. */
  lemma {:induction false} DecodeEncode(s: JString)
    ensures Decode(Encode(s)) == Some(s)
  {
    if s != [] {
      var e, rest := EncodeUnit(s[0]), Encode(s[1..]);
      var b := e + rest;
      assert Encode(s) == b;
      EncodeUnitDecodes(s[0], rest);
      assert b[Min(LeadWidth(b[0]), |b|)..] == rest;
      DecodeEncode(s[1..]);
      assert [s[0]] + s[1..] == s;
    }
  }

  /** A byte below 0x80, zero included, stands for itself. */
  lemma {:induction false} AsciiDecodesToItself(b: seq<byte>)
    requires forall k :: 0 <= k < |b| ==> b[k] < 0x80
    ensures Decode(b) == Some(b)
  {
    if b != [] {
      AsciiDecodesToItself(b[1..]);
      assert [b[0]] + b[1..] == b;
    }
  }

  /** A lead byte that starts none of the three forms fails the whole decoding. */
  lemma BadLeadFails(c: byte, rest: seq<byte>)
    requires 0x80 <= c < 0xC0 || 0xF0 <= c
    ensures Decode([c] + rest) == None
  {
  }

  /** A lead byte's form consumes exactly its width, the decoding goes on after it. */
  lemma {:induction false} DecodeSplits(b: seq<byte>, rest: seq<byte>)
    requires |b| > 0 && LeadWidth(b[0]) == |b|
    ensures Decode(b + rest) == Prepend([UnitAt(b)], Decode(rest))
  {
    var br := b + rest;
    assert br[Min(LeadWidth(br[0]), |br|)..] == rest;
    assert UnitAt(br) == UnitAt(b) by {
      assert ByteOr0(br, 1) == ByteOr0(b, 1) || LeadWidth(b[0]) < 2;
      assert ByteOr0(br, 2) == ByteOr0(b, 2) || LeadWidth(b[0]) < 3;
    }
  }

  lemma PrependTwice(p: JString, q: JString, r: Option<JString>)
    ensures Prepend(p, Prepend(q, r)) == Prepend(p + q, r)
  {
    if r.Some? {
      assert p + (q + r.value) == (p + q) + r.value;
    }
  }

  /** The decoder's loop, over an index that may step past the end. */
  method DecodeModifiedUtf8(bytes: seq<byte>) returns (r: Option<JString>)
    ensures r == Decode(bytes)
  {
    var result: JString := [];
    var i := 0;
    assert bytes[Min(i, |bytes|)..] == bytes;
    assert Prepend(result, Decode(bytes)) == Decode(bytes) by {
      if Decode(bytes).Some? { assert [] + Decode(bytes).value == Decode(bytes).value; }
    }
    while i < |bytes|
      invariant 0 <= i
      invariant Decode(bytes) == Prepend(result, Decode(bytes[Min(i, |bytes|)..]))
      decreases |bytes| - i
    {
      ghost var tail, before := bytes[i..], result;
      assert ByteOr0(tail, 1) == ByteOr0(bytes, i + 1);
      assert ByteOr0(tail, 2) == ByteOr0(bytes, i + 2);
      var c: int := bytes[i];
      if c < 0x80 {
        // (c & 0x80) === 0; the zero byte is U+0000
        result := result + [c];
      } else if c / 0x20 == 0x6 {
        // (c & 0xe0) === 0xc0
        i := i + 1;
        var c2: int := ByteOr0(bytes, i);
        result := result + [(c % 0x20) * 0x40 + c2 % 0x40];
      } else if c / 0x10 == 0xE {
        // (c & 0xf0) === 0xe0
        i := i + 1;
        var c2: int := ByteOr0(bytes, i);
        i := i + 1;
        var c3: int := ByteOr0(bytes, i);
        result := result + [(c % 0x10) * 0x1000 + (c2 % 0x40) * 0x40 + c3 % 0x40];
      } else {
        return None;
      }
      i := i + 1;
      assert result == before + [UnitAt(tail)];
      assert tail[Min(LeadWidth(tail[0]), |tail|)..] == bytes[Min(i, |bytes|)..];
      PrependTwice(before, [UnitAt(tail)], Decode(bytes[Min(i, |bytes|)..]));
    }
    assert bytes[Min(i, |bytes|)..] == [];
    assert result + [] == result;
    r := Some(result);
  }
}
