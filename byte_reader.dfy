/**
 * The cursor the decoder reads the stream through: a fixed buffer and an
 * offset into it. Every read is big-endian. A read whose bytes are not all
 * there fails with OutOfRange and leaves the offset where it was; a read
 * that succeeds moves the offset past exactly the bytes it consumed.
 */
module Reader {
  import opened Bytes
  import opened Values

  class ByteReader {
    const data: seq<byte>
    var offset: nat

    ghost predicate Valid()
      reads this
    {
      offset <= |data|
    }

    constructor(buffer: seq<byte>)
      ensures data == buffer && offset == 0 && Valid()
    {
      data := buffer;
      offset := 0;
    }

    method ReadUint8() returns (r: Result<byte>)
      requires Valid()
      modifies this
      ensures Valid()
      ensures r.Success? <==> Has(data, old(offset), 1)
      ensures r.Success? ==> r.value == data[old(offset)] && offset == old(offset) + 1
      ensures r.Failure? ==> r.error == OutOfRange && offset == old(offset)
    {
      if offset + 1 > |data| {
        return Failure(OutOfRange);
      }
      r := Success(data[offset]);
      offset := offset + 1;
    }

    method ReadInt8() returns (r: Result<int>)
      requires Valid()
      modifies this
      ensures Valid()
      ensures r.Success? <==> Has(data, old(offset), 1)
      ensures r.Success? ==> r.value == I8(data, old(offset)) && offset == old(offset) + 1
      ensures r.Failure? ==> r.error == OutOfRange && offset == old(offset)
    {
      if offset + 1 > |data| {
        return Failure(OutOfRange);
      }
      r := Success(ToSigned(data[offset], TWO_8));
      offset := offset + 1;
    }

    method ReadUint16() returns (r: Result<int>)
      requires Valid()
      modifies this
      ensures Valid()
      ensures r.Success? <==> Has(data, old(offset), 2)
      ensures r.Success? ==> r.value == U16(data, old(offset)) && offset == old(offset) + 2
      ensures r.Failure? ==> r.error == OutOfRange && offset == old(offset)
    {
      if offset + 2 > |data| {
        return Failure(OutOfRange);
      }
      r := Success(data[offset] * TWO_8 + data[offset + 1]);
      offset := offset + 2;
    }

    method ReadInt16() returns (r: Result<int>)
      requires Valid()
      modifies this
      ensures Valid()
      ensures r.Success? <==> Has(data, old(offset), 2)
      ensures r.Success? ==> r.value == I16(data, old(offset)) && offset == old(offset) + 2
      ensures r.Failure? ==> r.error == OutOfRange && offset == old(offset)
    {
      if offset + 2 > |data| {
        return Failure(OutOfRange);
      }
      r := Success(ToSigned(U16(data, offset), TWO_16));
      offset := offset + 2;
    }

    method ReadInt32() returns (r: Result<int>)
      requires Valid()
      modifies this
      ensures Valid()
      ensures r.Success? <==> Has(data, old(offset), 4)
      ensures r.Success? ==> r.value == I32(data, old(offset)) && offset == old(offset) + 4
      ensures r.Failure? ==> r.error == OutOfRange && offset == old(offset)
    {
      if offset + 4 > |data| {
        return Failure(OutOfRange);
      }
      r := Success(ToSigned(U32(data, offset), TWO_32));
      offset := offset + 4;
    }

    method ReadUint32() returns (r: Result<int>)
      requires Valid()
      modifies this
      ensures Valid()
      ensures r.Success? <==> Has(data, old(offset), 4)
      ensures r.Success? ==> r.value == U32(data, old(offset)) && offset == old(offset) + 4
      ensures r.Failure? ==> r.error == OutOfRange && offset == old(offset)
    {
      if offset + 4 > |data| {
        return Failure(OutOfRange);
      }
      r := Success(U16(data, offset) * TWO_16 + U16(data, offset + 2));
      offset := offset + 4;
    }

    /** A 32-bit float, kept as its four raw bytes. */
    method ReadFloat32() returns (r: Result<seq<byte>>)
      requires Valid()
      modifies this
      ensures Valid()
      ensures r.Success? <==> Has(data, old(offset), 4)
      ensures r.Success? ==> r.value == data[old(offset)..old(offset) + 4] && offset == old(offset) + 4
      ensures r.Failure? ==> r.error == OutOfRange && offset == old(offset)
    {
      if offset + 4 > |data| {
        return Failure(OutOfRange);
      }
      r := Success(data[offset..offset + 4]);
      offset := offset + 4;
    }

    /** A 64-bit float, kept as its eight raw bytes. */
    method ReadFloat64() returns (r: Result<seq<byte>>)
      requires Valid()
      modifies this
      ensures Valid()
      ensures r.Success? <==> Has(data, old(offset), 8)
      ensures r.Success? ==> r.value == data[old(offset)..old(offset) + 8] && offset == old(offset) + 8
      ensures r.Failure? ==> r.error == OutOfRange && offset == old(offset)
    {
      if offset + 8 > |data| {
        return Failure(OutOfRange);
      }
      r := Success(data[offset..offset + 8]);
      offset := offset + 8;
    }

    /**
     * The signed high word shifted left by 32, or-ed with the unsigned low
     * word; `Bytes.Int64IsSignedWord` shows this is the two's-complement
     * reading of the eight bytes.
     */
    method ReadInt64() returns (r: Result<int>)
      requires Valid()
      modifies this
      ensures Valid()
      ensures r.Success? <==> Has(data, old(offset), 8)
      ensures r.Success? ==> r.value == I64(data, old(offset)) && offset == old(offset) + 8
      ensures r.Failure? ==> r.error == OutOfRange && offset == old(offset)
    {
      if offset + 8 > |data| {
        return Failure(OutOfRange);
      }
      var high := ToSigned(U32(data, offset), TWO_32);
      var low := U32(data, offset + 4);
      r := Success(high * TWO_32 + low);
      offset := offset + 8;
    }

    /** A copy of the next `length` bytes; a negative length fails like a short buffer. */
    method ReadBytes(length: int) returns (r: Result<seq<byte>>)
      requires Valid()
      modifies this
      ensures Valid()
      ensures r.Success? <==> Has(data, old(offset), length)
      ensures r.Success? ==> r.value == data[old(offset)..old(offset) + length] && offset == old(offset) + length
      ensures r.Failure? ==> r.error == OutOfRange && offset == old(offset)
    {
      if length < 0 || offset + length > |data| {
        return Failure(OutOfRange);
      }
      r := Success(data[offset..offset + length]);
      offset := offset + length;
    }

    /**
     * Moves past `length` bytes. Unlike `skip` in javaDeserialization.ts,
     * which adds any length to the offset, a negative length or one past
     * the end fails instead of moving the offset there.
     */
    method Skip(length: int) returns (r: Result<()>)
      requires Valid()
      modifies this
      ensures Valid()
      ensures r.Success? <==> Has(data, old(offset), length)
      ensures r.Success? ==> offset == old(offset) + length
      ensures r.Failure? ==> r.error == OutOfRange && offset == old(offset)
    {
      if length < 0 || offset + length > |data| {
        return Failure(OutOfRange);
      }
      offset := offset + length;
      r := Success(());
    }
  }
}
