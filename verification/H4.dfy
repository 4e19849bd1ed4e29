/** Reassembly of HCI packets from a UART (Volume 4 Part A section 2 of the
  * Bluetooth Core specification; packet formats in Volume 2 Part E section 5.4).
  *
  * A read returns some of the bytes that were asked for, and none at the end of
  * the file; where the source aborts the process, the methods return false.
  */
module H4 {
  import opened Bits
  import opened Sequences

  const UNKNOWN: byte := 0
  const COMMAND: byte := 1
  const ACL_DATA: byte := 2
  const SCO_DATA: byte := 3
  const EVENT: byte := 4

  predicate Known(t: byte) { t == ACL_DATA || t == SCO_DATA || t == EVENT }

  function PreambleSize(t: byte): nat {
    if t == ACL_DATA then 4 else if t == EVENT then 2 else if t == COMMAND || t == SCO_DATA then 3 else 0
  }

  function LengthOffset(t: byte): nat {
    if t == EVENT then 1 else if Known(t) || t == COMMAND then 2 else 0
  }

  /** The payload length a preamble announces. */
  function PacketLength(t: byte, preamble: seq<byte>): nat
    requires Known(t) && |preamble| >= PreambleSize(t)
  {
    var offset := LengthOffset(t);
    if t != ACL_DATA then preamble[offset] else
      var high: nat := preamble[offset + 1];
      256 * high + preamble[offset]
  }

  // ----- the stream, byte by byte -----

  /** A packet: its type, and preamble and payload together. */
  datatype Packet = Packet(kind: byte, bytes: seq<byte>) {
    /** The length field is the length. */
    ghost predicate WellFormed() {
      Known(kind) && |bytes| >= PreambleSize(kind) && |bytes| == PreambleSize(kind) + PacketLength(kind, bytes)
    }

    ghost predicate HasPayload() { |bytes| > PreambleSize(kind) }
  }

  /** A packet being received: its type, or UNKNOWN before the type byte, and what is there of it. */
  datatype Partial = Partial(kind: byte, got: seq<byte>) {
    ghost predicate Shape() {
      if kind == UNKNOWN then got == [] else
        && Known(kind)
        && (|got| >= PreambleSize(kind) ==>
              || |got| < PreambleSize(kind) + PacketLength(kind, got)
              || (|got| == PreambleSize(kind) && PacketLength(kind, got) == 0))
    }

    /** The bytes of the stream it stands for. */
    function Bytes(): seq<byte> {
      if kind == UNKNOWN then [] else [kind] + got
    }
  }

  const IDLE := Partial(UNKNOWN, [])

  datatype Stream = Dead | Live(partial: Partial, delivered: seq<Packet>)

  /** One more byte: the standard's framing, except that a packet without payload
    * is never complete and the byte after it is fatal, as is an unknown type. */
  function Feed(s: Stream, b: byte): Stream {
    match s
    case Dead => Dead
    case Live(p, delivered) =>
      if p.kind == UNKNOWN then (if Known(b) then Live(Partial(b, []), delivered) else Dead)
      else if !Known(p.kind) || Stuck(p) then Dead
      else Grown(p.kind, p.got + [b], delivered)
  }

  /** A whole preamble that announces no payload. */
  predicate Stuck(p: Partial)
    requires Known(p.kind)
  {
    |p.got| == PreambleSize(p.kind) && PacketLength(p.kind, p.got) == 0
  }

  predicate Complete(t: byte, got: seq<byte>)
    requires Known(t)
  {
    |got| > PreambleSize(t) && |got| == PreambleSize(t) + PacketLength(t, got)
  }

  function Grown(t: byte, got: seq<byte>, delivered: seq<Packet>): Stream
    requires Known(t)
  {
    if Complete(t, got) then Live(IDLE, delivered + [Packet(t, got)]) else Live(Partial(t, got), delivered)
  }

  function FeedAll(s: Stream, input: seq<byte>): Stream {
    if input == [] then s else Feed(FeedAll(s, input[..|input| - 1]), input[|input| - 1])
  }

  /** The bytes that carry these packets. */
  function Framed(packets: seq<Packet>): seq<byte> {
    if packets == [] then [] else
      var p := packets[|packets| - 1];
      Framed(packets[..|packets| - 1]) + ([p.kind] + p.bytes)
  }

  lemma {:induction false} FeedAllAppend(s: Stream, a: seq<byte>, b: seq<byte>)
    ensures FeedAll(s, a + b) == FeedAll(FeedAll(s, a), b)
  {
    if b == [] {
      assert a + b == a;
    } else {
      FeedAllAppend(s, a, b[..|b| - 1]);
      assert (a + b)[..|a + b| - 1] == a + b[..|b| - 1];
    }
  }

  /** Nothing is lost and nothing is made up: the bytes consumed are the delivered
    * packets, framed again, and the packet being received. */
  lemma {:induction false} Conservation(input: seq<byte>)
    ensures var s := FeedAll(Live(IDLE, []), input);
      s.Live? ==> s.partial.Shape() && input == Framed(s.delivered) + s.partial.Bytes()
  {
    if input != [] {
      var (n, b) := (|input| - 1, input[|input| - 1]);
      Conservation(input[..n]);
      var s := FeedAll(Live(IDLE, []), input[..n]);
      assert FeedAll(Live(IDLE, []), input) == Feed(s, b);
      assert input == input[..n] + [b];
      hide *;
      if s.Live? {
        FeedKeeps(s.partial, s.delivered, b, input[..n]);
      } else {
        DeadStaysDead(b);
      }
    }
  }

  lemma DeadStaysDead(b: byte)
    ensures Feed(Dead, b) == Dead
  {
  }

  lemma FeedKeeps(p: Partial, delivered: seq<Packet>, b: byte, input: seq<byte>)
    requires p.Shape() && input == Framed(delivered) + p.Bytes()
    ensures var s := Feed(Live(p, delivered), b);
      s.Live? ==> s.partial.Shape() && input + [b] == Framed(s.delivered) + s.partial.Bytes()
  {
    hide Framed, PacketLength;
    if p.kind == UNKNOWN {
      assert input == Framed(delivered);
    } else if !Stuck(p) {
      var (t, got) := (p.kind, p.got + [b]);
      if |p.got| >= PreambleSize(t) {
        SameLength(t, p.got, [b]);
      }
      Associative([t], p.got, [b]);
      Associative(Framed(delivered), [t] + p.got, [b]);
      if Complete(t, got) {
        FramedMore(delivered, Packet(t, got));
      }
    }
  }

  lemma FramedMore(packets: seq<Packet>, p: Packet)
    ensures Framed(packets + [p]) == Framed(packets) + ([p.kind] + p.bytes)
  {
    assert (packets + [p])[..|packets|] == packets;
  }

  lemma SameLength(t: byte, got: seq<byte>, more: seq<byte>)
    requires Known(t) && |got| >= PreambleSize(t)
    ensures PacketLength(t, got + more) == PacketLength(t, got)
  {
  }

  /** Bytes that stay within a packet are collected, and delivered with the last one. */
  lemma {:induction false} FeedWithin(t: byte, got: seq<byte>, chunk: seq<byte>, delivered: seq<Packet>)
    requires Known(t) && chunk != [] && |got| + |chunk| <= Boundary(t, got)
    ensures FeedAll(Live(Partial(t, got), delivered), chunk) == Grown(t, got + chunk, delivered)
  {
    var (n, b) := (|chunk| - 1, chunk[|chunk| - 1]);
    assert got + chunk == (got + chunk[..n]) + [b];
    if n == 0 {
      assert got + chunk[..0] == got;
      assert FeedAll(Live(Partial(t, got), delivered), chunk[..0]) == Live(Partial(t, got), delivered);
    } else {
      FeedWithin(t, got, chunk[..n], delivered);
    }
    WithinOpen(t, got, chunk[..n]);
  }

  /** Where the read that is due next has to stop. */
  function Boundary(t: byte, got: seq<byte>): nat
    requires Known(t)
  {
    if |got| < PreambleSize(t) then PreambleSize(t) else PreambleSize(t) + PacketLength(t, got)
  }

  lemma WithinOpen(t: byte, got: seq<byte>, more: seq<byte>)
    requires Known(t) && |got| + |more| < Boundary(t, got)
    ensures !Complete(t, got + more) && !Stuck(Partial(t, got + more))
  {
    if |got| >= PreambleSize(t) {
      SameLength(t, got, more);
    }
  }

  /** A well-formed packet with a payload is delivered as soon as its bytes are in. */
  lemma OnePacket(p: Packet, delivered: seq<Packet>)
    requires p.WellFormed()
    ensures FeedAll(Live(IDLE, delivered), [p.kind] + p.bytes)
         == if p.HasPayload() then Live(IDLE, delivered + [p]) else Live(Partial(p.kind, p.bytes), delivered)
  {
    var (t, n) := (p.kind, PreambleSize(p.kind));
    var (head, body) := (p.bytes[..n], p.bytes[n..]);
    FeedAllAppend(Live(IDLE, delivered), [t], p.bytes);
    FeedOne(Live(IDLE, delivered), t);
    FeedAllAppend(Live(Partial(t, []), delivered), head, body);
    Halves(p.bytes, n);
    SameLength(t, head, body);
    hide PacketLength, FeedAll;
    assert [] + head == head;
    FeedWithin(t, [], head, delivered);
    if p.HasPayload() {
      FeedWithin(t, head, body, delivered);
    } else {
      assert head == p.bytes;
      FeedNone(Live(Partial(t, head), delivered), body);
    }
  }

  lemma FeedOne(s: Stream, b: byte)
    ensures FeedAll(s, [b]) == Feed(s, b)
  {
    assert [b][..0] == [] && FeedAll(s, []) == s;
  }

  lemma FeedNone(s: Stream, none: seq<byte>)
    requires none == []
    ensures FeedAll(s, none) == s
  {
  }

  ghost predicate AllWellFormed(packets: seq<Packet>) { forall k :: 0 <= k < |packets| ==> packets[k].WellFormed() }

  ghost predicate AllHavePayload(packets: seq<Packet>) { forall k :: 0 <= k < |packets| ==> packets[k].HasPayload() }

  /** A stream of well-formed packets is delivered packet by packet, in order, and
    * leaves nothing over - exactly if every packet has a payload. */
  lemma {:induction false} PacketsDelivered(packets: seq<Packet>)
    requires AllWellFormed(packets)
    ensures FeedAll(Live(IDLE, []), Framed(packets)) == Live(IDLE, packets) <==> AllHavePayload(packets)
    decreases |packets|, 1
  {
    if packets != [] {
      var (n, p) := (|packets| - 1, packets[|packets| - 1]);
      assert packets == packets[..n] + [p];
      LastPacket(packets[..n], p);
      PacketsDelivered(packets[..n]);
      hide *;
      if AllHavePayload(packets[..n]) {
        OnePacket(p, packets[..n]);
      } else {
        NeverRecovers(packets);
        HaltedIsNotIdle(FeedAll(Live(IDLE, []), Framed(packets)));
      }
    }
  }

  /** One packet more. */
  lemma LastPacket(before: seq<Packet>, p: Packet)
    ensures AllWellFormed(before + [p]) <==> (AllWellFormed(before) && p.WellFormed())
    ensures AllHavePayload(before + [p]) <==> (AllHavePayload(before) && p.HasPayload())
    ensures FeedAll(Live(IDLE, []), Framed(before + [p]))
         == FeedAll(FeedAll(Live(IDLE, []), Framed(before)), [p.kind] + p.bytes)
  {
    hide *;
    FramedMore(before, p);
    FeedAllAppend(Live(IDLE, []), Framed(before), [p.kind] + p.bytes);
    AllWellFormedLast(before, p);
    AllHavePayloadLast(before, p);
  }

  lemma AllWellFormedLast(packets: seq<Packet>, p: Packet)
    ensures AllWellFormed(packets + [p]) <==> (AllWellFormed(packets) && p.WellFormed())
  {
    hide Packet.WellFormed;
    assert (packets + [p])[|packets|] == p;
    assert forall k :: 0 <= k < |packets| ==> (packets + [p])[k] == packets[k];
  }

  lemma AllHavePayloadLast(packets: seq<Packet>, p: Packet)
    ensures AllHavePayload(packets + [p]) <==> (AllHavePayload(packets) && p.HasPayload())
  {
    hide Packet.HasPayload;
    assert (packets + [p])[|packets|] == p;
    assert forall k :: 0 <= k < |packets| ==> (packets + [p])[k] == packets[k];
  }

  /** The process is gone, or waits for a payload of no bytes. */
  predicate Halted(s: Stream) {
    s.Dead? || (Known(s.partial.kind) && Stuck(s.partial))
  }

  lemma HaltedIsNotIdle(s: Stream)
    requires Halted(s)
    ensures forall d :: s != Live(IDLE, d)
  {
  }

  /** Once halted, any further byte is fatal. */
  lemma HaltedThenDead(s: Stream, input: seq<byte>)
    requires Halted(s) && input != []
    ensures FeedAll(s, input) == Dead
  {
    assert input == [input[0]] + input[1..];
    FeedAllAppend(s, [input[0]], input[1..]);
    FeedOne(s, input[0]);
    DeadStays(input[1..]);
  }

  /** The first packet without payload is the last that is received. */
  lemma {:induction false} NeverRecovers(packets: seq<Packet>)
    requires AllWellFormed(packets) && !AllHavePayload(packets)
    ensures Halted(FeedAll(Live(IDLE, []), Framed(packets)))
    decreases |packets|, 0
  {
    var (n, p) := (|packets| - 1, packets[|packets| - 1]);
    assert packets == packets[..n] + [p];
    LastPacket(packets[..n], p);
    if AllHavePayload(packets[..n]) {
      hide FeedAll, Framed, AllWellFormed, AllHavePayload;
      PacketsDelivered(packets[..n]);
      OnePacket(p, packets[..n]);
    } else {
      NeverRecovers(packets[..n]);
      HaltedThenDead(FeedAll(Live(IDLE, []), Framed(packets[..n])), [p.kind] + p.bytes);
    }
  }

  lemma {:induction false} DeadStays(input: seq<byte>)
    ensures FeedAll(Dead, input) == Dead
  {
    if input != [] {
      DeadStays(input[..|input| - 1]);
    }
  }

  // ----- packets as the standard writes them -----

  /** The packets a controller sends, field by field (Volume 2 Part E sections 5.4.2 to
    * 5.4.4): two bytes of handle and flags and a length of two bytes, low byte first; the
    * same with a length of one byte; an event code and a length of one byte. */
  datatype Wire =
    | Acl(handle: byte, flags: byte, payload: seq<byte>)
    | Sco(handle: byte, flags: byte, payload: seq<byte>)
    | Event(code: byte, payload: seq<byte>)
  {
    /** The length has to fit its field. */
    ghost predicate Fits() { |payload| < if Acl? then 0x1_0000 else 0x100 }

    function Type(): byte { match this case Acl(_, _, _) => 2 case Sco(_, _, _) => 3 case Event(_, _) => 4 }

    function Bytes(): seq<byte>
      requires Fits()
    {
      var n := |payload|;
      match this
      case Acl(h, f, _) => [h, f, n % 256, n / 256] + payload
      case Sco(h, f, _) => [h, f, n] + payload
      case Event(code, _) => [code, n] + payload
    }

    function AsPacket(): Packet
      requires Fits()
    {
      Packet(Type(), Bytes())
    }
  }

  ghost predicate AllFit(wires: seq<Wire>) { forall k :: 0 <= k < |wires| ==> wires[k].Fits() }

  /** The bytes on the wire: each packet behind its type byte. */
  function OnTheWire(wires: seq<Wire>): seq<byte>
    requires AllFit(wires)
  {
    if wires == [] then [] else [wires[0].Type()] + wires[0].Bytes() + OnTheWire(wires[1..])
  }

  function AsPackets(wires: seq<Wire>): (packets: seq<Packet>)
    requires AllFit(wires)
    ensures |packets| == |wires| && forall k :: 0 <= k < |wires| ==> packets[k] == wires[k].AsPacket()
  {
    seq(|wires|, k requires 0 <= k < |wires| => wires[k].AsPacket())
  }

  /** The length is found where the standard puts it, so such a packet ends where its payload does. */
  lemma {:induction false} WireWellFormed(w: Wire)
    requires w.Fits()
    ensures w.AsPacket().WellFormed() && (w.AsPacket().HasPayload() <==> w.payload != [])
  {
    if w.Acl? {
      var n := |w.payload|;
      assert 256 * (n / 256) + n % 256 == n;
    }
  }

  lemma {:induction false} FramedHead(p: Packet, packets: seq<Packet>)
    ensures Framed([p] + packets) == [p.kind] + p.bytes + Framed(packets)
  {
    if packets == [] {
      assert [p] + packets == [p] && [p][..0] == [];
      assert Framed([p]) == Framed([]) + ([p.kind] + p.bytes);
    } else {
      var n := |packets| - 1;
      FramedHead(p, packets[..n]);
      assert ([p] + packets)[..n + 1] == [p] + packets[..n];
      Associative([p.kind] + p.bytes, Framed(packets[..n]), [packets[n].kind] + packets[n].bytes);
    }
  }

  lemma {:induction false} WireFramed(wires: seq<Wire>)
    requires AllFit(wires)
    ensures OnTheWire(wires) == Framed(AsPackets(wires))
  {
    if wires != [] {
      WireFramed(wires[1..]);
      assert AsPackets(wires) == [wires[0].AsPacket()] + AsPackets(wires[1..]);
      FramedHead(wires[0].AsPacket(), AsPackets(wires[1..]));
    }
  }

  /** Any sequence of the standard's packets is taken apart into exactly those - if and
    * only if each has a payload. */
  lemma {:induction false} WireDelivered(wires: seq<Wire>)
    requires AllFit(wires)
    ensures FeedAll(Live(IDLE, []), OnTheWire(wires)) == Live(IDLE, AsPackets(wires))
      <==> forall k :: 0 <= k < |wires| ==> wires[k].payload != []
  {
    WiresWellFormed(wires);
    WireFramed(wires);
    PacketsDelivered(AsPackets(wires));
  }

  lemma WiresWellFormed(wires: seq<Wire>)
    requires AllFit(wires)
    ensures AllWellFormed(AsPackets(wires))
    ensures AllHavePayload(AsPackets(wires)) <==> forall k :: 0 <= k < |wires| ==> wires[k].payload != []
  {
    hide Wire.AsPacket, Packet.WellFormed, Packet.HasPayload;
    forall k | 0 <= k < |wires|
      ensures AsPackets(wires)[k].WellFormed() && (AsPackets(wires)[k].HasPayload() <==> wires[k].payload != [])
    {
      WireWellFormed(wires[k]);
    }
    if !AllHavePayload(AsPackets(wires)) {
      var k :| 0 <= k < |wires| && !AsPackets(wires)[k].HasPayload();
      assert wires[k].payload == [];
    }
  }

  /** Between packets a byte starts one if and only if it is the type of ACL data, SCO data or an event. */
  lemma TypeByte(b: byte, delivered: seq<Packet>)
    ensures FeedAll(Live(IDLE, delivered), [b])
      == if b == 2 || b == 3 || b == 4 then Live(Partial(b, []), delivered) else Dead
  {
    FeedOne(Live(IDLE, delivered), b);
  }

  // ----- the packetizer -----

  datatype State = HciPreamble | HciPayload

  class HciPacketizer {
    var state: State
    const preamble: array<byte>
    var packet: array<byte>
    var bytesRemaining: nat
    var bytesRead: nat

    /** Between packets. */
    ghost predicate Ready()
      reads this
    {
      state == HciPreamble && bytesRead == 0 && preamble.Length == 4 && preamble != packet
    }

    /** Within a packet of type `t`, of which `got` is there. */
    ghost predicate Receiving(t: byte, got: seq<byte>)
      reads this, preamble, packet
    {
      && Known(t) && preamble.Length == 4 && preamble != packet
      && match state
         case HciPreamble => bytesRead < PreambleSize(t) && got == preamble[..bytesRead]
         case HciPayload =>
           && packet.Length == PreambleSize(t) + bytesRead + bytesRemaining
           && got == packet[..PreambleSize(t) + bytesRead]
           && PacketLength(t, got) == bytesRead + bytesRemaining
           && (bytesRemaining == 0 ==> bytesRead == 0)
    }

    /** Bytes the next read asks for. */
    function Wanted(t: byte): int
      reads this
    {
      if state.HciPreamble? then PreambleSize(t) - bytesRead else bytesRemaining
    }

    constructor ()
      ensures Ready() && fresh(preamble) && fresh(packet)
    {
      state := HciPreamble;
      preamble := new byte[4](_ => 0);
      packet := new byte[0];
      bytesRemaining := 0;
      bytesRead := 0;
    }

    /** Take what one read returned; `ready` when that completes the packet. */
    method OnDataReady(t: byte, chunk: seq<byte>, ghost got: seq<byte>) returns (ok: bool, ready: bool)
      requires Receiving(t, got) && |chunk| <= Wanted(t)
      modifies this, preamble, packet
      ensures ok == (chunk != []) && fresh({packet} - {old(packet)})
      ensures ok ==> ready == Complete(t, got + chunk)
      ensures ok && ready ==> Ready() && packet[..] == got + chunk
      ensures ok && !ready ==> Receiving(t, got + chunk)
    {
      if chunk == [] {
        return false, false;
      }
      ok := true;
      match state {
        case HciPreamble =>
          ReadPreamble(t, chunk, got);
          ready := false;
          PreambleOpen(t, got + chunk);
        case HciPayload =>
          ready := ReadPayload(t, chunk, got);
      }
    }

    method ReadPreamble(t: byte, chunk: seq<byte>, ghost got: seq<byte>)
      requires Receiving(t, got) && state.HciPreamble? && 0 < |chunk| <= Wanted(t)
      modifies this, preamble
      ensures Receiving(t, got + chunk) && fresh({packet} - {old(packet)}) && |got + chunk| <= PreambleSize(t)
    {
      forall k | 0 <= k < |chunk| {
        preamble[bytesRead + k] := chunk[k];
      }
      bytesRead := bytesRead + |chunk|;
      assert preamble[..bytesRead] == got + chunk;
      if bytesRead == PreambleSize(t) {
        var size := PreambleSize(t);
        var packetLength := PacketLength(t, preamble[..]);
        SamePreamble(t, preamble[..], got + chunk);
        var head := preamble[..size];
        packet := new byte[size + packetLength](k => if 0 <= k < size then head[k] else 0);
        assert packet[..size] == head == got + chunk;
        bytesRemaining := packetLength;
        state := HciPayload;
        bytesRead := 0;
      }
    }

    method ReadPayload(t: byte, chunk: seq<byte>, ghost got: seq<byte>) returns (ready: bool)
      requires Receiving(t, got) && state.HciPayload? && 0 < |chunk| <= Wanted(t)
      modifies this`state, this`bytesRemaining, this`bytesRead, packet
      ensures ready == Complete(t, got + chunk)
      ensures if ready then Ready() && packet[..] == got + chunk else Receiving(t, got + chunk)
    {
      var from := PreambleSize(t) + bytesRead;
      forall k | 0 <= k < |chunk| {
        packet[from + k] := chunk[k];
      }
      bytesRemaining := bytesRemaining - |chunk|;
      bytesRead := bytesRead + |chunk|;
      assert packet[..from + |chunk|] == got + chunk;
      SameLength(t, got, chunk);
      ready := bytesRemaining == 0;
      if ready {
        assert packet[..from + |chunk|] == packet[..];
        state := HciPreamble;
        bytesRead := 0;
      }
    }
  }

  lemma PreambleOpen(t: byte, got: seq<byte>)
    requires Known(t) && |got| <= PreambleSize(t)
    ensures !Complete(t, got)
  {
  }

  lemma SamePreamble(t: byte, preamble: seq<byte>, got: seq<byte>)
    requires Known(t) && |preamble| == 4 && got == preamble[..PreambleSize(t)]
    ensures PacketLength(t, preamble) == PacketLength(t, got)
  {
  }

  // ----- the protocol -----

  class H4Protocol {
    var hciPacketType: byte
    const packetizer: HciPacketizer
    /** Everything read, every packet handed to a callback, and the packet being received. */
    ghost var consumed: seq<byte>
    ghost var delivered: seq<Packet>
    ghost var partial: Partial

    ghost predicate Valid()
      reads this, packetizer, packetizer.preamble, packetizer.packet
    {
      && Live(partial, delivered) == FeedAll(Live(IDLE, []), consumed)
      && partial.kind == hciPacketType
      && if hciPacketType == UNKNOWN then packetizer.Ready() else packetizer.Receiving(hciPacketType, partial.got)
    }

    /** Bytes the next read asks for: one while the type is unknown. */
    function Wanted(): int
      reads this, packetizer
    {
      if hciPacketType == UNKNOWN then 1 else packetizer.Wanted(hciPacketType)
    }

    constructor ()
      ensures Valid() && consumed == [] && delivered == [] && partial == IDLE
      ensures fresh(packetizer) && fresh(packetizer.preamble) && fresh(packetizer.packet)
    {
      hciPacketType := UNKNOWN;
      packetizer := new HciPacketizer();
      consumed, delivered, partial := [], [], IDLE;
    }

    /** Take what one read returned.  The process dies on an empty read, on an
      * unknown type, and nowhere else. */
    method OnDataReady(chunk: seq<byte>) returns (ok: bool)
      requires Valid() && |chunk| <= Wanted()
      modifies this, packetizer, packetizer.preamble, packetizer.packet
      ensures fresh({packetizer.packet} - {old(packetizer.packet)})
      ensures ok ==> Valid() && consumed == old(consumed) + chunk && chunk != []
      ensures !ok && chunk != [] ==> FeedAll(Live(IDLE, []), old(consumed) + chunk) == Dead
    {
      FeedAllAppend(Live(IDLE, []), consumed, chunk);
      if hciPacketType == UNKNOWN {
        ok := ReadType(chunk);
      } else {
        ok := ReadPacket(chunk);
      }
    }

    method ReadType(chunk: seq<byte>) returns (ok: bool)
      requires Valid() && hciPacketType == UNKNOWN && |chunk| <= 1
      requires FeedAll(Live(IDLE, []), consumed + chunk) == FeedAll(Live(partial, delivered), chunk)
      modifies this
      ensures ok ==> Valid() && consumed == old(consumed) + chunk && chunk != []
      ensures !ok && chunk != [] ==> FeedAll(Live(IDLE, []), old(consumed) + chunk) == Dead
    {
      if |chunk| != 1 {
        return false;
      }
      assert chunk == [chunk[0]];
      FeedOne(Live(partial, delivered), chunk[0]);
      hide FeedAll;
      hciPacketType := chunk[0];
      if !Known(hciPacketType) {
        return false;
      }
      ok := true;
      consumed := consumed + chunk;
      partial := Partial(hciPacketType, []);
    }

    method ReadPacket(chunk: seq<byte>) returns (ok: bool)
      requires Valid() && hciPacketType != UNKNOWN && |chunk| <= Wanted()
      requires FeedAll(Live(IDLE, []), consumed + chunk) == FeedAll(Live(partial, delivered), chunk)
      modifies this, packetizer, packetizer.preamble, packetizer.packet
      ensures fresh({packetizer.packet} - {old(packetizer.packet)})
      ensures ok ==> Valid() && consumed == old(consumed) + chunk && chunk != []
      ensures !ok ==> chunk == []
    {
      hide FeedAll;
      ghost var got, t := partial.got, hciPacketType;
      WantedWithin(got, |chunk|);
      var ready;
      ok, ready := packetizer.OnDataReady(hciPacketType, chunk, got);
      if !ok {
        return;
      }
      FeedWithin(t, got, chunk, delivered);
      consumed := consumed + chunk;
      if ready {
        OnPacketReady(got + chunk);
      } else {
        partial := Partial(t, got + chunk);
      }
    }

    /** Hand the packet on and wait for the next type byte. */
    method OnPacketReady(ghost bytes: seq<byte>)
      requires packetizer.packet[..] == bytes
      modifies this`delivered, this`hciPacketType, this`partial
      ensures delivered == old(delivered) + [Packet(old(hciPacketType), bytes)] && hciPacketType == UNKNOWN
      ensures partial == IDLE
    {
      delivered := delivered + [Packet(hciPacketType, packetizer.packet[..])];
      hciPacketType := UNKNOWN;
      partial := IDLE;
    }

    lemma WantedWithin(got: seq<byte>, n: nat)
      requires hciPacketType != UNKNOWN && packetizer.Receiving(hciPacketType, got) && n <= Wanted()
      ensures |got| + n <= Boundary(hciPacketType, got)
      ensures Wanted() == 0 ==> Stuck(Partial(hciPacketType, got))
    {
    }

    /** Read a whole input, each read returning as many bytes as `sizes` says within
      * what was asked for and is there.  Whatever the sizes, the outcome is that of
      * the input alone. */
    method Pump(input: seq<byte>, sizes: seq<nat>) returns (ok: bool)
      requires Valid()
      modifies this, packetizer, packetizer.preamble, packetizer.packet
      ensures ok <==> FeedAll(Live(IDLE, []), old(consumed) + input).Live?
      ensures ok ==> Valid() && consumed == old(consumed) + input
    {
      var done, i := 0, 0;
      ok := true;
      ghost var start := consumed;
      while done < |input|
        invariant 0 <= done <= |input| && Valid() && consumed == start + input[..done]
        invariant fresh({packetizer.packet} - {old(packetizer.packet)})
      {
        var n := Size(Wanted(), |input| - done, if i < |sizes| then sizes[i] else 0);
        var chunk := input[done..done + n];
        ghost var before := consumed;
        Unread(start, input, done, n);
        if n == 0 {
          StuckThenDead(input[done..]);
        }
        var went := OnDataReady(chunk);
        if !went {
          if n > 0 {
            FeedAllAppend(Live(IDLE, []), before + chunk, input[done + n..]);
            DeadStays(input[done + n..]);
          }
          return false;
        }
        done, i := done + n, i + 1;
      }
      assert input[..done] == input;
    }

    /** Nothing is asked for only within a packet that announced no payload. */
    lemma StuckThenDead(rest: seq<byte>)
      requires Valid() && Wanted() == 0 && rest != []
      ensures FeedAll(Live(IDLE, []), consumed + rest) == Dead
    {
      FeedAllAppend(Live(IDLE, []), consumed, rest);
      hide FeedAll;
      WantedWithin(partial.got, 0);
      HaltedThenDead(Live(partial, delivered), rest);
    }

    /** A stream of packets, all with payload, arrives complete and in order however it is read. */
    method PumpPackets(input: seq<byte>, sizes: seq<nat>, ghost packets: seq<Packet>) returns (ok: bool)
      requires Valid() && consumed == [] && AllWellFormed(packets) && AllHavePayload(packets)
      requires input == Framed(packets)
      modifies this, packetizer, packetizer.preamble, packetizer.packet
      ensures ok && Valid() && delivered == packets && partial == IDLE
    {
      PacketsDelivered(packets);
      assert consumed + input == input;
      ok := Pump(input, sizes);
    }

    /** The same for packets as the standard writes them. */
    method PumpWire(input: seq<byte>, sizes: seq<nat>, ghost wires: seq<Wire>) returns (ok: bool)
      requires Valid() && consumed == [] && AllFit(wires) && input == OnTheWire(wires)
      requires forall k :: 0 <= k < |wires| ==> wires[k].payload != []
      modifies this, packetizer, packetizer.preamble, packetizer.packet
      ensures ok && Valid() && delivered == AsPackets(wires) && partial == IDLE
    {
      WiresWellFormed(wires);
      WireFramed(wires);
      ok := PumpPackets(input, sizes, AsPackets(wires));
    }
  }

  /** Bytes a read returns: at least one if there is one and one was asked for. */
  function Size(wanted: int, available: nat, size: nat): (n: nat)
    requires available > 0
    ensures n <= available && (n == 0 <==> wanted <= 0) && (wanted >= 0 ==> n <= wanted)
  {
    if wanted <= 0 then 0
    else
      var most := if wanted < available then wanted else available;
      if size == 0 then 1 else if size < most then size else most
  }

  lemma Unread(start: seq<byte>, input: seq<byte>, done: nat, n: nat)
    requires done + n <= |input|
    ensures (start + input[..done]) + input[done..] == start + input
    ensures ((start + input[..done]) + input[done..done + n]) + input[done + n..] == start + input
    ensures (start + input[..done]) + input[done..done + n] == start + input[..done + n]
  {
    assert input == input[..done] + input[done..];
    assert input[done..] == input[done..done + n] + input[done + n..];
    assert input[..done] + input[done..done + n] == input[..done + n];
  }

  /** A packet to be sent: the type, then the data. */
  method Send(kind: byte, data: array<byte>) returns (adapted: array<byte>)
    ensures fresh(adapted) && adapted[..] == [kind] + data[..] == Framed([Packet(kind, data[..])])
  {
    adapted := new byte[data.Length + 1];
    adapted[0] := kind;
    forall k | 0 <= k < data.Length {
      adapted[1 + k] := data[k];
    }
    assert adapted[..] == [kind] + data[..];
    FramedMore([], Packet(kind, data[..]));
    assert [] + [Packet(kind, data[..])] == [Packet(kind, data[..])];
  }
}
