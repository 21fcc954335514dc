/**
 The length-prefix assembler of TCP packets: the length goes into the first
 bytes, and the bytes it displaces go to the end.
 */
module Framing {
  import opened Wrappers

  type Byte = x: nat | x < 256

  type Packet = seq<Byte>

  function Pow256(n: nat): (p: nat)
    ensures p > 0
  {
    if n == 0 then 1 else 256 * Pow256(n - 1)
  }

  function LeBytes(v: nat, n: nat): (b: seq<Byte>)
    ensures |b| == n
  {
    if n == 0 then [] else [v % 256] + LeBytes(v / 256, n - 1)
  }

  function FromLe(b: seq<Byte>): nat {
    if b == [] then 0 else b[0] + 256 * FromLe(b[1..])
  }

  lemma {:induction false} FromLeOfLe(v: nat, n: nat)
    requires v < Pow256(n)
    ensures FromLe(LeBytes(v, n)) == v
  {
    if n > 0 {
      FromLeOfLe(v / 256, n - 1);
      assert LeBytes(v, n)[1..] == LeBytes(v / 256, n - 1);
    }
  }

  // ---------------------------------------------------------------- the assembler

  /** `PacketWithLenAssembler`. */
  datatype Assembler = Assembler(dataLenBytes: nat, maxDataLen: nat)

  /** What its constructor asserts: the largest packet, prefix included, has a length that fits the prefix. */
  ghost predicate WellFormed(a: Assembler) {
    1 <= a.dataLenBytes <= 3 && 0 < a.maxDataLen && a.maxDataLen + a.dataLenBytes < Pow256(a.dataLenBytes)
  }

  const DEFAULT_ASSEMBLER := Assembler(3, 0xff_ffff - 3)

  lemma DefaultIsWellFormed()
    ensures WellFormed(DEFAULT_ASSEMBLER)
  {
    assert Pow256(3) == 0x100_0000;
  }

  predicate IsOversized(a: Assembler, length: nat) { length > a.maxDataLen }

  /** The bytes sent for `data`. */
  function Framed(a: Assembler, data: Packet): (r: seq<Byte>)
    ensures |r| == |data| + a.dataLenBytes
  {
    var n := a.dataLenBytes;
    LeBytes(|data|, n) + if |data| < n then data else data[n..] + data[..n]
  }

  /** `assemble`: edits the packet in place. */
  method Assemble(a: Assembler, packet: Packet) returns (r: Option<seq<Byte>>)
    requires WellFormed(a)
    ensures r == if IsOversized(a, |packet|) then None else Some(Framed(a, packet))
  {
    if IsOversized(a, |packet|) {
      return None;
    }
    var data := packet;
    var n := a.dataLenBytes;
    var swapped := data[..if n <= |data| then n else |data|];
    var dataLen := |data|;
    data := data + seq(n, _ => 0);
    data := LeBytes(dataLen, n) + data[n..];
    var start := |data| - |swapped|;
    data := data[..start] + swapped;
    assert dataLen < n ==> data == LeBytes(dataLen, n) + packet;
    assert dataLen >= n ==> data == LeBytes(dataLen, n) + (packet[n..] + packet[..n]);
    return Some(data);
  }

  datatype LoadResult = NotReady | Loaded(packet: Packet, rest: seq<Byte>)

  /** What the buffer holds: a whole packet and what follows it, or not yet one. */
  function Load(a: Assembler, buf: seq<Byte>): LoadResult {
    var n := a.dataLenBytes;
    if |buf| < n then NotReady
    else
      var size := FromLe(buf[..n]);
      if |buf| < n + size then NotReady
      else
        var packet := buf[..n + size];
        Loaded(if size >= n then packet[size..] + packet[n..size] else packet[n..], buf[n + size..])
  }

  /** `load`: splits the packet off the buffer and moves its displaced bytes back. */
  method TakePacket(a: Assembler, recvBuf: seq<Byte>) returns (packet: Option<Packet>, buf: seq<Byte>)
    ensures Load(a, recvBuf) == NotReady ==> packet == None && buf == recvBuf
    ensures Load(a, recvBuf).Loaded? ==> packet == Some(Load(a, recvBuf).packet) && buf == Load(a, recvBuf).rest
  {
    buf := recvBuf;
    var n := a.dataLenBytes;
    if |buf| < n {
      return None, buf;
    }
    var dataSize := FromLe(buf[..n]);
    if |buf| < n + dataSize {
      return None, buf;
    }
    var p := buf[..n + dataSize];
    buf := buf[n + dataSize..];
    if dataSize >= n {
      var swapped := p[dataSize..];
      p := p[..dataSize];
      p := swapped + p[n..];
      assert p == recvBuf[..n + dataSize][dataSize..] + recvBuf[..n + dataSize][n..dataSize];
    } else {
      p := p[n..];
    }
    return Some(p), buf;
  }

  // ---------------------------------------------------------------- one packet

  /** Loading undoes framing, whatever follows. */
  lemma LoadFramed(a: Assembler, data: Packet, rest: seq<Byte>)
    requires WellFormed(a) && !IsOversized(a, |data|)
    ensures Load(a, Framed(a, data) + rest) == Loaded(data, rest)
  {
    var n, buf := a.dataLenBytes, Framed(a, data) + rest;
    FromLeOfLe(|data|, n);
    assert buf[..n] == LeBytes(|data|, n);
    assert buf[..n + |data|] == Framed(a, data);
    assert buf[n + |data|..] == rest;
    if |data| >= n {
      assert Framed(a, data)[|data|..] == data[..n];
      assert Framed(a, data)[n..|data|] == data[n..];
      assert data[..n] + data[n..] == data;
    } else {
      assert Framed(a, data)[n..] == data;
    }
  }

  /** Nothing is loaded before the last byte of a packet. */
  lemma LoadPartial(a: Assembler, data: Packet, buf: seq<Byte>)
    requires WellFormed(a) && !IsOversized(a, |data|)
    requires buf < Framed(a, data)
    ensures Load(a, buf) == NotReady
  {
    var n := a.dataLenBytes;
    if |buf| >= n {
      FromLeOfLe(|data|, n);
      assert buf[..n] == Framed(a, data)[..n] == LeBytes(|data|, n);
    }
  }

  // ---------------------------------------------------------------- streams of packets

  ghost predicate AllFit(a: Assembler, packets: seq<Packet>) {
    forall i :: 0 <= i < |packets| ==> !IsOversized(a, |packets[i]|)
  }

  /** The bytes of all packets, in order. */
  function Stream(a: Assembler, packets: seq<Packet>): seq<Byte> {
    if packets == [] then [] else Framed(a, packets[0]) + Stream(a, packets[1..])
  }

  lemma {:induction false} StreamConcat(a: Assembler, ps: seq<Packet>, qs: seq<Packet>)
    ensures Stream(a, ps + qs) == Stream(a, ps) + Stream(a, qs)
  {
    if ps == [] {
      assert ps + qs == qs;
    } else {
      assert (ps + qs)[1..] == ps[1..] + qs;
      StreamConcat(a, ps[1..], qs);
    }
  }

  /** From any part of the stream at most the next packet is loaded, and the rest of the part is left. */
  lemma LoadFromStream(a: Assembler, packets: seq<Packet>, buf: seq<Byte>)
    requires WellFormed(a) && AllFit(a, packets) && buf <= Stream(a, packets)
    ensures Load(a, buf) == NotReady ==> packets == [] || |buf| < |Framed(a, packets[0])|
    ensures Load(a, buf).Loaded? ==>
              && packets != [] && Load(a, buf).packet == packets[0]
              && buf == Framed(a, packets[0]) + Load(a, buf).rest
              && Load(a, buf).rest <= Stream(a, packets[1..])
  {
    if packets == [] {
      assert |buf| < a.dataLenBytes;
    } else {
      var frame := Framed(a, packets[0]);
      assert buf <= frame + Stream(a, packets[1..]);
      if |buf| < |frame| {
        assert buf == (frame + Stream(a, packets[1..]))[..|buf|] == frame[..|buf|];
        LoadPartial(a, packets[0], buf);
      } else {
        var rest := buf[|frame|..];
        assert buf == frame + rest;
        assert rest <= Stream(a, packets[1..]);
        LoadFramed(a, packets[0], rest);
      }
    }
  }

  /** All packets in a buffer, and the bytes left over. */
  function LoadAll(a: Assembler, buf: seq<Byte>): (seq<Packet>, seq<Byte>)
    requires a.dataLenBytes > 0
    decreases |buf|
  {
    match Load(a, buf)
    case NotReady => ([], buf)
    case Loaded(p, rest) =>
      var (ps, left) := LoadAll(a, rest);
      ([p] + ps, left)
  }

  /** However much of a stream has arrived, repeated loading yields its packets in order. */
  lemma {:induction false} LoadAllOfStream(a: Assembler, packets: seq<Packet>, buf: seq<Byte>)
    requires WellFormed(a) && AllFit(a, packets) && buf <= Stream(a, packets)
    ensures var (ps, left) := LoadAll(a, buf);
            && ps <= packets && buf == Stream(a, ps) + left
            && (buf == Stream(a, packets) ==> ps == packets && left == [])
    decreases |packets|
  {
    LoadFromStream(a, packets, buf);
    if Load(a, buf).Loaded? {
      var rest := Load(a, buf).rest;
      LoadAllOfStream(a, packets[1..], rest);
      var (ps, left) := LoadAll(a, rest);
      AfterFirst(a, packets, rest, ps, left);
    }
  }

  /** What is loaded from the rest of a buffer, put behind its first packet. */
  lemma AfterFirst(a: Assembler, packets: seq<Packet>, rest: seq<Byte>, ps: seq<Packet>, left: seq<Byte>)
    requires packets != [] && ps <= packets[1..] && rest == Stream(a, ps) + left
    ensures var f := Framed(a, packets[0]);
            && [packets[0]] + ps <= packets
            && f + rest == Stream(a, [packets[0]] + ps) + left
            && (f + rest == Stream(a, packets) ==> rest == Stream(a, packets[1..]))
            && (ps == packets[1..] ==> [packets[0]] + ps == packets)
  {
    var f := Framed(a, packets[0]);
    assert packets == [packets[0]] + packets[1..];
    assert ([packets[0]] + ps)[1..] == ps;
    assert f + (Stream(a, ps) + left) == (f + Stream(a, ps)) + left;
    if f + rest == f + Stream(a, packets[1..]) {
      assert rest == (f + rest)[|f|..] == Stream(a, packets[1..]);
    }
  }
}
