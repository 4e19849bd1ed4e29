/** The packer's bit stream: fields are collected in a 32-bit cache and written
  * out two bytes at a time; a final flush writes what is left. */
module BitWriter {
  import opened Bits

  const WORD := 0x1_0000_0000

  class Writer {
    const data: array<byte>
    const start: nat
    var ptr: nat
    var cache: nat
    var count: nat
    /** Everything put so far. */
    ghost var stream: seq<bool>

    ghost predicate Valid()
      reads this, data
    {
      && start <= ptr <= data.Length
      && cache < WORD && count < 16
      && stream == ByteBits(data[start..ptr]) + BitsOf(cache, count)
    }

    /** Bits that still fit. */
    ghost function Room(): int
      reads this
    {
      8 * (data.Length - start) - |stream|
    }

    constructor (data: array<byte>, start: nat)
      requires start <= data.Length
      ensures Valid() && stream == [] && this.data == data && this.start == start && ptr == start
    {
      this.data := data;
      this.start := start;
      ptr := start;
      cache := 0;
      count := 0;
      stream := [];
    }

    /** Append the low `n` bits of `v`. */
    method PutBits(v: nat, n: nat)
      requires Valid() && n <= 16 && v < Pow2(n) && n <= Room()
      modifies this, data
      ensures Valid() && stream == old(stream) + BitsOf(v, n)
      ensures data[..start] == old(data[..start])
    {
      hide BitsOf, ByteBits, Pow2, Shl;
      CacheShift(cache, v, count, n);
      assert (ByteBits(data[start..ptr]) + BitsOf(cache, count)) + BitsOf(v, n)
          == ByteBits(data[start..ptr]) + (BitsOf(cache, count) + BitsOf(v, n));
      cache := (v + Shl(cache, n)) % WORD;
      count := count + n;
      stream := stream + BitsOf(v, n);
      if count >= 16 {
        PutByte();
        PutByte();
      }
    }

    /** Write the top byte of the cache. */
    method PutByte()
      requires start <= ptr < data.Length && cache < WORD && 8 <= count < 32
      requires stream == ByteBits(data[start..ptr]) + BitsOf(cache, count)
      modifies this`ptr, this`count, data
      ensures start <= ptr == old(ptr) + 1 <= data.Length && count == old(count) - 8
      ensures stream == ByteBits(data[start..ptr]) + BitsOf(cache, count)
      ensures forall k :: 0 <= k < start ==> data[k] == old(data[k])
    {
      hide BitsOf, ByteBits, Shr;
      ghost var done := data[start..ptr];
      count := count - 8;
      var top := Shr(cache, count) % 256;
      data[ptr] := top;
      ptr := ptr + 1;
      assert data[start..ptr] == done + [top];
      ByteOut(done, cache, count);
    }

    /** Write out whatever the cache still holds, filling the last byte with zero bits. */
    method FlushBits()
      requires Valid() && 0 <= Room()
      modifies this, data
      ensures start <= ptr <= data.Length && stream == old(stream)
      ensures data[start..ptr] == ToBytes(stream)
      ensures data[..start] == old(data[..start])
    {
      hide BitsOf, ByteBits, ToBytes;
      while count >= 8
        invariant Valid() && 0 <= Room() && stream == old(stream)
        invariant data[..start] == old(data[..start])
      {
        PutByte();
      }
      if count > 0 {
        PutLast();
      }
      FilledUp(stream, data[start..ptr]);
      count := 0;
    }

    /** Write the last, partial byte. */
    method PutLast()
      requires Valid() && 0 < count < 8 && 0 <= Room()
      modifies this`ptr, data
      ensures start <= ptr == old(ptr) + 1 <= data.Length
      ensures ByteBits(data[start..ptr]) == stream + Zeros(8 - count)
      ensures forall k :: 0 <= k < start ==> data[k] == old(data[k])
    {
      hide BitsOf, ByteBits, Shl, Zeros;
      ghost var done := data[start..ptr];
      LastByteOut(done, cache, count);
      var last := Shl(cache, 8 - count) % 256;
      data[ptr] := last;
      ptr := ptr + 1;
      assert data[start..ptr] == done + [last];
    }
  }

  /** Shifting a field into the cache appends its bits to the pending ones; the
    * shifted cache has zeros where the field goes, so the code's `|` is a sum. */
  lemma CacheShift(cache: nat, v: nat, count: nat, n: nat)
    requires v < Pow2(n) && count + n <= 32
    ensures 0 <= (v + Shl(cache, n)) % WORD < WORD
    ensures BitsOf((v + Shl(cache, n)) % WORD, count + n) == BitsOf(cache, count) + BitsOf(v, n)
  {
    Pow2Constants();
    BitsOfConcat(cache, v, count, n);
    BitsOfMod(Shl(cache, n) + v, 32, count + n);
  }

  lemma TopByte(cache: nat, n: nat)
    ensures BitsOf(cache, n + 8) == BitsOf(Shr(cache, n) % 256, 8) + BitsOf(cache, n)
  {
    BitsOfSplit(cache, 8, n);
    Pow2Constants();
    BitsOfMod(Shr(cache, n), 8, 8);
  }

  lemma ByteOut(done: seq<byte>, cache: nat, n: nat)
    ensures ByteBits(done + [Shr(cache, n) % 256]) + BitsOf(cache, n) == ByteBits(done) + BitsOf(cache, n + 8)
  {
    var top := Shr(cache, n) % 256;
    TopByte(cache, n);
    hide BitsOf, Shr, ByteBits;
    ByteBitsAppend(done, [top]);
    ByteBitsOne(top);
    assert (ByteBits(done) + BitsOf(top, 8)) + BitsOf(cache, n) == ByteBits(done) + (BitsOf(top, 8) + BitsOf(cache, n));
  }

  lemma LastByteOut(done: seq<byte>, cache: nat, n: nat)
    requires n < 8
    ensures ByteBits(done + [Shl(cache, 8 - n) % 256]) == (ByteBits(done) + BitsOf(cache, n)) + Zeros(8 - n)
  {
    var last := Shl(cache, 8 - n) % 256;
    LastByte(cache, n);
    hide BitsOf, Shl, ByteBits, Zeros;
    ByteBitsAppend(done, [last]);
    ByteBitsOne(last);
    assert (ByteBits(done) + BitsOf(cache, n)) + Zeros(8 - n) == ByteBits(done) + (BitsOf(cache, n) + Zeros(8 - n));
  }

  lemma {:induction false} LastByte(cache: nat, n: nat)
    requires n < 8
    ensures BitsOf(Shl(cache, 8 - n) % 256, 8) == BitsOf(cache, n) + Zeros(8 - n)
  {
    BitsOfConcat(cache, 0, n, 8 - n);
    BitsOfZero(8 - n);
    assert Pow2(8) == 256 by { Pow2Constants(); }
    BitsOfMod(Shl(cache, 8 - n), 8, 8);
  }

  /** Bytes whose bits are the stream and fewer than eight zeros are the stream's bytes. */
  lemma {:induction false} FilledUp(stream: seq<bool>, bytes: seq<byte>)
    requires |stream| <= 8 * |bytes| < |stream| + 8
    requires ByteBits(bytes) == stream + Zeros(8 * |bytes| - |stream|)
    ensures bytes == ToBytes(stream)
  {
    ByteBitsOfToBytes(stream);
    assert |bytes| == (|stream| + 7) / 8;
    ByteBitsInjective(bytes, ToBytes(stream));
  }
}
