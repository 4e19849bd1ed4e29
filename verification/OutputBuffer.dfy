/** The receiver's output side: byte order conversions, done in place, and the
  * buffer between decoder and client with its trimmed start. */
module OutputBuffer {
  import opened Bits
  import opened Concealment

  // ----- byte order -----

  /** Every pair of bytes in the other order. */
  function Swapped(b: seq<byte>): (r: seq<byte>)
    requires |b| % 2 == 0
    ensures |r| == |b|
  {
    seq(|b|, i requires 0 <= i < |b| => if i % 2 == 0 then b[i + 1] else b[i - 1])
  }

  lemma SwappedTwice(b: seq<byte>)
    requires |b| % 2 == 0
    ensures Swapped(Swapped(b)) == b
  {
  }

  /** Big endian to little endian, in place. */
  method BeToLe(buf: array<byte>)
    requires buf.Length % 2 == 0
    modifies buf
    ensures buf[..] == Swapped(old(buf[..]))
  {
    var i := 0;
    while i < buf.Length
      invariant 0 <= i <= buf.Length && i % 2 == 0
      invariant forall k :: 0 <= k < i ==> buf[k] == Swapped(old(buf[..]))[k]
      invariant forall k :: i <= k < buf.Length ==> buf[k] == old(buf[k])
    {
      var tmp := buf[i];
      buf[i] := buf[i + 1];
      buf[i + 1] := tmp;
      i := i + 2;
    }
  }

  /** A 16-bit sample from its low and its high byte. */
  function Sample16(lo: byte, hi: byte): (x: int)
    ensures IsSample(x)
  {
    var u := 256 * hi + lo;
    if u < 0x8000 then u else u - 0x1_0000
  }

  function Low(x: int): byte { x % 256 }

  function High(x: int): byte { (x / 256) % 256 }

  lemma SampleBytes(lo: byte, hi: byte)
    ensures Low(Sample16(lo, hi)) == lo && High(Sample16(lo, hi)) == hi
  {
    var u := 256 * hi + lo;
    assert u % 256 == lo && u / 256 == hi;
    assert (u - 0x1_0000) % 256 == lo && (u - 0x1_0000) / 256 == hi - 256;
  }

  lemma SampleFromBytes(x: int)
    requires IsSample(x)
    ensures Sample16(Low(x), High(x)) == x
  {
    assert x / 256 == if x >= 0 then High(x) else High(x) - 256;
  }

  function ToSamples(b: seq<byte>): (s: seq<int>)
    ensures |s| == |b| / 2 && AreSamples(s)
  {
    seq(|b| / 2, i requires 0 <= i < |b| / 2 => Sample16(b[2 * i], b[2 * i + 1]))
  }

  function ToLittle(s: seq<int>): (b: seq<byte>)
    ensures |b| == 2 * |s|
  {
    seq(2 * |s|, i requires 0 <= i < 2 * |s| => if i % 2 == 0 then Low(s[i / 2]) else High(s[i / 2]))
  }

  /** Bytes to samples and back. */
  lemma BytesRoundTrip(b: seq<byte>)
    requires |b| % 2 == 0
    ensures ToLittle(ToSamples(b)) == b
  {
    hide Sample16, Low, High;
    forall i | 0 <= i < |b| ensures ToLittle(ToSamples(b))[i] == b[i] {
      var k := i / 2;
      SampleBytes(b[2 * k], b[2 * k + 1]);
    }
  }

  /** Samples to bytes and back. */
  lemma {:induction false} SamplesRoundTrip(s: seq<int>)
    requires AreSamples(s)
    ensures ToSamples(ToLittle(s)) == s
  {
    hide Sample16, Low, High;
    forall i | 0 <= i < |s| ensures ToSamples(ToLittle(s))[i] == s[i] {
      SampleFromBytes(s[i]);
      assert ToLittle(s)[2 * i] == Low(s[i]) && ToLittle(s)[2 * i + 1] == High(s[i]);
    }
  }

  /** The low byte of a sample comes first, and a negative one is its complement to 2^16. */
  lemma {:induction false} LittleEndian(s: seq<int>, k: nat)
    requires AreSamples(s) && k < |s|
    ensures var lo: int := ToLittle(s)[2 * k];
      var hi: int := ToLittle(s)[2 * k + 1];
      lo + 256 * hi == if s[k] < 0 then s[k] + 0x1_0000 else s[k]
  {
    SampleFromBytes(s[k]);
    assert ToLittle(s)[2 * k] == Low(s[k]) && ToLittle(s)[2 * k + 1] == High(s[k]);
  }

  lemma ToLittleAppend(a: seq<int>, b: seq<int>)
    ensures ToLittle(a + b) == ToLittle(a) + ToLittle(b)
  {
  }

  method UcharToShort(buf: array<byte>) returns (s: seq<int>)
    ensures s == ToSamples(buf[..])
  {
    s := [];
    for i := 0 to buf.Length / 2
      invariant s == ToSamples(buf[..])[..i]
    {
      s := s + [Sample16(buf[2 * i], buf[2 * i + 1])];
    }
  }

  method ShortToUchar(s: seq<int>, buf: array<byte>)
    requires buf.Length == 2 * |s|
    modifies buf
    ensures buf[..] == ToLittle(s)
  {
    for i := 0 to |s|
      invariant forall k :: 0 <= k < 2 * i ==> buf[k] == ToLittle(s)[k]
    {
      buf[2 * i] := Low(s[i]);
      buf[2 * i + 1] := High(s[i]);
    }
  }

  // ----- the buffer -----

  /** What the client is owed of the bytes taken in: everything after the trimmed start. */
  function Owed(accepted: seq<byte>, trim: nat): seq<byte> {
    if |accepted| <= trim then [] else accepted[trim..]
  }

  lemma OwedMore(accepted: seq<byte>, more: seq<byte>, trim: nat)
    ensures |accepted| >= trim ==> Owed(accepted + more, trim) == Owed(accepted, trim) + more
  {
  }

  /** Where the waiting bytes are, and how many chunks were dropped. */
  datatype Level = Level(head: nat, tail: nat, dropped: nat)

  /** After `n` chunks of this size more. */
  function Filled(l: Level, n: nat, size: nat, capacity: nat): (r: Level)
    ensures l.tail <= capacity ==> r.tail <= capacity
  {
    if n == 0 then l else
      var p := Filled(l, n - 1, size, capacity);
      if p.tail + size <= capacity then p.(tail := p.tail + size) else p.(dropped := p.dropped + 1)
  }

  /** Nothing is dropped exactly if there is room for all chunks. */
  lemma {:induction false} FilledIff(l: Level, n: nat, size: nat, capacity: nat)
    requires l.tail <= capacity
    ensures var r := Filled(l, n, size, capacity);
      && r.head == l.head && r.dropped >= l.dropped
      && (r.dropped == l.dropped <==> l.tail + n * size <= capacity)
      && (r.dropped == l.dropped ==> r.tail == l.tail + n * size)
  {
    if n > 0 {
      FilledIff(l, n - 1, size, capacity);
      assert n * size == (n - 1) * size + size;
    }
  }

  lemma {:induction false} FilledTwice(l: Level, m: nat, n: nat, size: nat, capacity: nat)
    ensures Filled(Filled(l, m, size, capacity), n, size, capacity) == Filled(l, m + n, size, capacity)
  {
    if n > 0 {
      FilledTwice(l, m, n - 1, size, capacity);
    }
  }

  /** After the client's socket took up to `room` bytes, or failed with a negative count. */
  function Drained(l: Level, room: int): Level {
    if l.tail < l.head || room < 0 then l
    else if room >= l.tail - l.head then l.(head := 0, tail := 0)
    else l.(head := l.head + room)
  }

  class MainBuffer {
    const data: array<byte>
    const trim: nat
    var head: nat
    var tail: nat
    /** Since the buffer was last cleared: bytes taken in, bytes sent, and chunks dropped. */
    ghost var accepted: seq<byte>
    ghost var delivered: seq<byte>
    ghost var dropped: nat

    /** Bytes waiting to be sent; none while the start is still being trimmed. */
    ghost function Pending(): seq<byte>
      reads this, data
      requires tail <= data.Length
    {
      if tail < head then [] else data[head..tail]
    }

    ghost function Fill(): Level
      reads this
    {
      Level(head, tail, dropped)
    }

    ghost predicate Valid()
      reads this, data
    {
      && tail <= data.Length
      && delivered + Pending() == Owed(accepted, trim)
      && (if |accepted| < trim then head == trim && data[..tail] == accepted else head <= tail)
    }

    constructor (capacity: nat, trim: nat)
      ensures Valid() && fresh(data) && data.Length == capacity && this.trim == trim
      ensures accepted == [] && delivered == [] && dropped == 0
    {
      data := new byte[capacity](_ => 0);
      this.trim := trim;
      head := trim;
      tail := 0;
      accepted := [];
      delivered := [];
      dropped := 0;
    }

    /** A new session: forget what is left and trim the start again. */
    method Clear()
      modifies this
      ensures Valid() && accepted == [] && delivered == [] && dropped == 0
    {
      head := trim;
      tail := 0;
      accepted := [];
      delivered := [];
      dropped := 0;
    }

    /** Take in a chunk, or drop it whole if it does not fit. */
    method Append(chunk: seq<byte>)
      requires Valid()
      modifies this`tail, this`accepted, this`dropped, data
      ensures Valid()
      ensures if old(tail) + |chunk| <= data.Length
        then accepted == old(accepted) + chunk && tail == old(tail) + |chunk| && dropped == old(dropped)
        else accepted == old(accepted) && tail == old(tail) && dropped == old(dropped) + 1
    {
      if tail + |chunk| <= data.Length {
        ghost var before := data[..tail];
        forall k | 0 <= k < |chunk| {
          data[tail + k] := chunk[k];
        }
        assert data[..tail + |chunk|] == before + chunk;
        Appended(before, chunk, head, accepted, delivered, trim);
        tail := tail + |chunk|;
        accepted := accepted + chunk;
        assert data[..tail] == before + chunk;
        assert head <= tail ==> data[head..tail] == data[..tail][head..];
      } else {
        dropped := dropped + 1;
      }
    }

    /** Offer the waiting bytes to the client's socket, which takes `sent` of them or
      * fails with a negative count; nothing is offered while the start is being trimmed. */
    method WriteToClient(sent: int) returns (ok: bool)
      requires Valid() && sent <= |Pending()|
      modifies this`head, this`tail, this`delivered
      ensures Valid() && accepted == old(accepted) && ok == (old(tail < head) || sent >= 0)
      ensures delivered == old(delivered) + if sent >= 0 then old(Pending())[..sent] else []
      ensures old(head <= tail) && sent == |old(Pending())| ==> head == tail == 0
      ensures sent < 0 || old(tail < head) ==> head == old(head) && tail == old(tail)
      ensures 0 <= sent < |old(Pending())| ==> head == old(head) + sent && tail == old(tail)
    {
      if tail < head {
        return true;
      }
      ok := sent >= 0;
      if ok {
        ghost var waiting := Pending();
        delivered := delivered + waiting[..sent];
        head := head + sent;
        SentSome(data[..], head - sent, tail, sent, delivered[..|delivered| - sent], Owed(accepted, trim));
        if head >= tail {
          head, tail := 0, 0;
        }
      }
    }
  }

  /** Taking in a chunk adds exactly its part after the trimmed start to what waits. */
  lemma Appended(before: seq<byte>, chunk: seq<byte>, head: nat, accepted: seq<byte>, delivered: seq<byte>, trim: nat)
    requires delivered + (if |before| < head then [] else before[head..]) == Owed(accepted, trim)
    requires if |accepted| < trim then head == trim && before == accepted else head <= |before|
    ensures var now := before + chunk;
      && delivered + (if |now| < head then [] else now[head..]) == Owed(accepted + chunk, trim)
      && if |accepted + chunk| < trim then now == accepted + chunk else head <= |now|
  {
    var now := before + chunk;
    OwedMore(accepted, chunk, trim);
    if |accepted| < trim {
      assert delivered == [];
    } else {
      assert now[head..] == before[head..] + chunk;
      assert delivered + (before[head..] + chunk) == (delivered + before[head..]) + chunk;
    }
  }

  lemma SentSome(data: seq<byte>, head: nat, tail: nat, n: nat, delivered: seq<byte>, owed: seq<byte>)
    requires head + n <= tail <= |data| && delivered + data[head..tail] == owed
    ensures (delivered + data[head..tail][..n]) + data[head + n..tail] == owed
  {
    assert data[head..tail] == data[head..tail][..n] + data[head + n..tail];
  }
}
