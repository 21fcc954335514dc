/**
 A framed connection: packets wait in three priority queues, one is being
 written in pieces, and the other side reads the bytes in pieces of its own.
 */
module Connection {
  import opened Framing
  import opened Sequences
  import opened Throttling
  import opened Wrappers

  datatype Priority = High | Normal | Low

  /** A packet waiting to be written, with the price paid for it when it was created. */
  datatype Queued = Queued(data: Packet, priority: Priority, throttlingSize: nat)

  function NewQueued(data: Packet, priority: Priority): Queued { Queued(data, priority, |data|) }

  /** The packet being written: its framed bytes, the position reached, and the price paid for it. */
  datatype Sending = Sending(data: seq<Byte>, pos: nat, charge: Charge)

  datatype Conn = Conn(
    high: seq<Queued>, normal: seq<Queued>, low: seq<Queued>, sending: Option<Sending>, writable: bool)

  const NEW_CONNECTION := Conn([], [], [], None, false)

  function ChargeOf(q: Queued): Charge { Charge(q.throttlingSize, q.priority == High) }

  // ---------------------------------------------------------------- the priority queue

  predicate QueueEmpty(c: Conn) { c.high == [] && c.normal == [] && c.low == [] }

  function QueueOf(c: Conn, p: Priority): seq<Queued> {
    match p case High => c.high case Normal => c.normal case Low => c.low
  }

  function PushBack(c: Conn, q: Queued): Conn {
    match q.priority
    case High => c.(high := c.high + [q])
    case Normal => c.(normal := c.normal + [q])
    case Low => c.(low := c.low + [q])
  }

  /** The first packet of the most urgent queue that has one. */
  function Front(c: Conn): Queued
    requires !QueueEmpty(c)
  {
    if c.high != [] then c.high[0] else if c.normal != [] then c.normal[0] else c.low[0]
  }

  function PopFront(c: Conn): Conn
    requires !QueueEmpty(c)
  {
    if c.high != [] then c.(high := c.high[1..])
    else if c.normal != [] then c.(normal := c.normal[1..])
    else c.(low := c.low[1..])
  }

  // ---------------------------------------------------------------- sending and writing

  /** `send`; `charged` is whether the throttling service admits the packet. */
  function AfterSend(a: Assembler, c: Conn, q: Queued, charged: bool): Conn {
    if Accepted(a, q, charged) then PushBack(c, q).(writable := true) else c
  }

  predicate Accepted(a: Assembler, q: Queued, charged: bool) {
    q.data != [] && !IsOversized(a, |q.data|) && charged
  }

  /** What the socket does with a write. */
  datatype WriteResult = Wrote(size: nat) | WriteError

  datatype WriteStatus = Ongoing | Complete | Failed

  function Min(x: nat, y: nat): nat { if x < y then x else y }

  /** The bytes the socket takes from the packet being written. */
  function Taken(s: Sending, io: WriteResult): seq<Byte> {
    if s.pos >= |s.data| || io.WriteError? then [] else s.data[s.pos..Min(|s.data|, s.pos + io.size)]
  }

  /** The connection after the socket took `bytes`. */
  function Advanced(c: Conn, bytes: nat): Conn
    requires c.sending.Some?
  {
    var s := c.sending.value;
    if s.pos + bytes >= |s.data| then c.(sending := None) else c.(sending := Some(s.(pos := s.pos + bytes)))
  }

  function WithInterest(c: Conn): Conn {
    if c.sending.None? && QueueEmpty(c) then c.(writable := false) else c
  }

  // ---------------------------------------------------------------- both ends and the socket between them

  /**
   The connection; what it has admitted, popped for writing, lost to a failed
   assembly, written and refunded; and the reader on the other side.
   */
  datatype System = System(
    conn: Conn, admitted: seq<Queued>, popped: seq<Queued>, lost: seq<Queued>,
    emitted: seq<Byte>, refunded: seq<Charge>, received: nat, recvBuf: seq<Byte>, delivered: seq<Packet>)

  const NEW_SYSTEM := System(NEW_CONNECTION, [], [], [], [], [], 0, [], [])

  datatype Event =
    | Send(data: Packet, priority: Priority, charged: bool)
    | Writable(io: WriteResult)
    | Readable(count: nat)

  function Step(a: Assembler, s: System, e: Event): System {
    match e
    case Send(data, priority, charged) =>
      var q := NewQueued(data, priority);
      s.(conn := AfterSend(a, s.conn, q, charged),
         admitted := if Accepted(a, q, charged) then s.admitted + [q] else s.admitted)
    case Writable(io) => WriteStep(a, s, io)
    case Readable(count) => ReadStep(a, s, count)
  }

  /** `writable`. */
  function WriteStep(a: Assembler, s: System, io: WriteResult): System {
    var c := s.conn;
    if c.sending.None? && QueueEmpty(c) then s.(conn := WithInterest(c))
    else if c.sending.None? && IsOversized(a, |Front(c).data|) then
      s.(conn := PopFront(c), lost := s.lost + [Front(c)], refunded := s.refunded + [ChargeOf(Front(c))])
    else if c.sending.None? then AdvanceStep(PopStep(a, s), io)
    else AdvanceStep(s, io)
  }

  /** The next packet leaves its queue and is framed. */
  function PopStep(a: Assembler, s: System): System
    requires !QueueEmpty(s.conn)
  {
    var q := Front(s.conn);
    s.(conn := PopFront(s.conn).(sending := Some(Sending(Framed(a, q.data), 0, ChargeOf(q)))),
       popped := s.popped + [q])
  }

  /** The socket takes some bytes of the packet being written. */
  function AdvanceStep(s: System, io: WriteResult): System
    requires s.conn.sending.Some?
  {
    var w := s.conn.sending.value;
    if io.WriteError? && w.pos < |w.data| then s
    else
      var bytes := Taken(w, io);
      var moved := Advanced(s.conn, |bytes|);
      s.(conn := WithInterest(moved),
         emitted := s.emitted + bytes,
         refunded := if moved.sending.None? then s.refunded + [w.charge] else s.refunded)
  }

  /** `readable`: `count` more bytes arrive, then at most one packet is taken out. */
  function ReadStep(a: Assembler, s: System, count: nat): System {
    var upTo := Min(|s.emitted|, s.received + count);
    if upTo < s.received then s
    else
      var buf := s.recvBuf + s.emitted[s.received..upTo];
      match Load(a, buf)
      case NotReady => s.(received := upTo, recvBuf := buf)
      case Loaded(p, rest) => s.(received := upTo, recvBuf := rest, delivered := s.delivered + [p])
  }

  function Run(a: Assembler, events: seq<Event>): System {
    if events == [] then NEW_SYSTEM else Step(a, Run(a, events[..|events| - 1]), events[|events| - 1])
  }

  // ---------------------------------------------------------------- the invariant

  function Datas(qs: seq<Queued>): (ds: seq<Packet>)
    ensures |ds| == |qs| && forall i :: 0 <= i < |qs| ==> ds[i] == qs[i].data
  {
    seq(|qs|, i requires 0 <= i < |qs| => qs[i].data)
  }

  function Charges(qs: seq<Queued>): (cs: seq<Charge>)
    ensures |cs| == |qs| && forall i :: 0 <= i < |qs| ==> cs[i] == ChargeOf(qs[i])
  {
    seq(|qs|, i requires 0 <= i < |qs| => ChargeOf(qs[i]))
  }

  /** The packets of one priority, in order. */
  function Of(qs: seq<Queued>, p: Priority): seq<Queued> {
    if qs == [] then []
    else Of(qs[..|qs| - 1], p) + if qs[|qs| - 1].priority == p then [qs[|qs| - 1]] else []
  }

  lemma OfSnoc(qs: seq<Queued>, q: Queued, p: Priority)
    ensures Of(qs + [q], p) == Of(qs, p) + if q.priority == p then [q] else []
  {
    assert (qs + [q])[..|qs|] == qs;
  }

  ghost predicate Fit(a: Assembler, qs: seq<Queued>) {
    forall i :: 0 <= i < |qs| ==> Priced(a, qs[i])
  }

  /** An admitted packet can be framed, and its price is its size. */
  predicate Priced(a: Assembler, q: Queued) {
    q.data != [] && !IsOversized(a, |q.data|) && q.throttlingSize == |q.data|
  }

  ghost predicate Sorted(c: Conn, p: Priority) {
    forall i :: 0 <= i < |QueueOf(c, p)| ==> QueueOf(c, p)[i].priority == p
  }

  /** Every admitted packet is either popped or waiting in its own queue, first in first out. */
  ghost predicate Conserved(s: System) {
    forall p: Priority :: Sorted(s.conn, p) && Of(s.admitted, p) == Of(s.popped, p) + QueueOf(s.conn, p)
  }

  /** What has been written is the stream of the popped packets, up to the position in the last one. */
  ghost predicate Written(a: Assembler, s: System) {
    match s.conn.sending
    case None =>
      s.emitted == Stream(a, Datas(s.popped)) && s.refunded == Charges(s.popped)
    case Some(w) =>
      && s.popped != []
      && var done, last := s.popped[..|s.popped| - 1], s.popped[|s.popped| - 1];
      && w.data == Framed(a, last.data) && w.charge == ChargeOf(last) && w.pos < |w.data|
      && s.emitted == Stream(a, Datas(done)) + w.data[..w.pos] && s.refunded == Charges(done)
  }

  /** What has been read is the delivered packets and the bytes not yet delivered. */
  ghost predicate Arrived(a: Assembler, s: System) {
    && s.received <= |s.emitted|
    && s.delivered <= Datas(s.popped)
    && Stream(a, s.delivered) + s.recvBuf == s.emitted[..s.received]
  }

  ghost predicate QueuesFit(a: Assembler, c: Conn) {
    Fit(a, c.high) && Fit(a, c.normal) && Fit(a, c.low)
  }

  ghost predicate Inv(a: Assembler, s: System) {
    && s.lost == [] && QueuesFit(a, s.conn) && Fit(a, s.popped)
    && Conserved(s) && Written(a, s) && Arrived(a, s)
    && (s.conn.writable <==> s.conn.sending.Some? || !QueueEmpty(s.conn))
  }

  // ---------------------------------------------------------------- every run keeps it

  lemma WrittenFrame(a: Assembler, s: System, t: System)
    requires Written(a, s)
    requires t.conn.sending == s.conn.sending && t.popped == s.popped
    requires t.emitted == s.emitted && t.refunded == s.refunded
    ensures Written(a, t)
  {
  }

  lemma ArrivedFrame(a: Assembler, s: System, t: System)
    requires Arrived(a, s) && Datas(s.popped) <= Datas(t.popped) && s.emitted <= t.emitted
    requires t.received == s.received && t.recvBuf == s.recvBuf && t.delivered == s.delivered
    ensures Arrived(a, t)
  {
    assert t.emitted[..s.received] == s.emitted[..s.received];
  }

  lemma ConservedFrame(s: System, t: System)
    requires Conserved(s) && t.admitted == s.admitted && t.popped == s.popped
    requires t.conn.high == s.conn.high && t.conn.normal == s.conn.normal && t.conn.low == s.conn.low
    ensures Conserved(t)
  {
    forall p: Priority ensures Sorted(t.conn, p) && Of(t.admitted, p) == Of(t.popped, p) + QueueOf(t.conn, p) {
      assert QueueOf(t.conn, p) == QueueOf(s.conn, p) && Sorted(s.conn, p);
    }
  }

  lemma PushConserved(s: System, t: System, q: Queued)
    requires Conserved(s) && t.popped == s.popped && t.admitted == s.admitted + [q]
    requires t.conn == PushBack(s.conn, q).(writable := true)
    ensures Conserved(t)
  {
    forall p: Priority ensures Sorted(t.conn, p) && Of(t.admitted, p) == Of(t.popped, p) + QueueOf(t.conn, p) {
      OfSnoc(s.admitted, q, p);
      assert Sorted(s.conn, p) && Of(s.admitted, p) == Of(s.popped, p) + QueueOf(s.conn, p);
      assert QueueOf(t.conn, p) == QueueOf(s.conn, p) + if q.priority == p then [q] else [];
    }
  }

  lemma SendKeeps(a: Assembler, s: System, data: Packet, priority: Priority, charged: bool)
    requires Inv(a, s)
    ensures Inv(a, Step(a, s, Send(data, priority, charged)))
  {
    var q := NewQueued(data, priority);
    if Accepted(a, q, charged) {
      var t := Step(a, s, Send(data, priority, charged));
      PushConserved(s, t, q);
      WrittenFrame(a, s, t);
      ArrivedFrame(a, s, t);
    }
  }

  lemma PopConserved(s: System, t: System)
    requires Conserved(s) && !QueueEmpty(s.conn) && t.admitted == s.admitted
    requires t.popped == s.popped + [Front(s.conn)]
    requires var c := PopFront(s.conn);
             t.conn.high == c.high && t.conn.normal == c.normal && t.conn.low == c.low
    ensures Conserved(t)
  {
    var q := Front(s.conn);
    forall p: Priority ensures Sorted(t.conn, p) && Of(t.admitted, p) == Of(t.popped, p) + QueueOf(t.conn, p) {
      assert Of(s.admitted, p) == Of(s.popped, p) + QueueOf(s.conn, p);
      OfSnoc(s.popped, q, p);
      QueueAfterPop(s.conn, p);
      var moved := if q.priority == p then [q] else [];
      Associative(Of(s.popped, p), moved, QueueOf(t.conn, p));
      assert QueueOf(t.conn, p) == QueueOf(PopFront(s.conn), p);
      SortedRest(s.conn, t.conn, p, moved);
    }
  }

  lemma SortedRest(c: Conn, d: Conn, p: Priority, moved: seq<Queued>)
    requires Sorted(c, p) && QueueOf(c, p) == moved + QueueOf(d, p)
    ensures Sorted(d, p)
  {
    assert forall i :: 0 <= i < |QueueOf(d, p)| ==> QueueOf(d, p)[i] == QueueOf(c, p)[|moved| + i];
  }

  lemma QueueAfterPop(c: Conn, p: Priority)
    requires !QueueEmpty(c) && forall r: Priority :: Sorted(c, r)
    ensures QueueOf(c, p) == (if Front(c).priority == p then [Front(c)] else []) + QueueOf(PopFront(c), p)
  {
    var q := Front(c);
    assert Sorted(c, q.priority) && Sorted(c, High) && Sorted(c, Normal) && Sorted(c, Low);
    if c.high != [] {
      assert q == QueueOf(c, High)[0] && c.high == [q] + c.high[1..];
    } else if c.normal != [] {
      assert q == QueueOf(c, Normal)[0] && c.normal == [q] + c.normal[1..];
    } else {
      assert q == QueueOf(c, Low)[0] && c.low == [q] + c.low[1..];
    }
    assert q.priority != p ==> [] + QueueOf(c, p) == QueueOf(c, p);
  }

  lemma PopWritten(a: Assembler, s: System)
    requires Written(a, s) && s.conn.sending.None? && !QueueEmpty(s.conn) && Front(s.conn).data != []
    ensures Written(a, PopStep(a, s))
  {
    var t := PopStep(a, s);
    assert t.popped[..|s.popped|] == s.popped;
    assert s.emitted == Stream(a, Datas(s.popped)) + t.conn.sending.value.data[..0];
  }

  lemma PopKeeps(a: Assembler, s: System)
    requires Inv(a, s) && s.conn.sending.None? && !QueueEmpty(s.conn)
    ensures !IsOversized(a, |Front(s.conn).data|)
    ensures Inv(a, PopStep(a, s))
  {
    var t := PopStep(a, s);
    PopConserved(s, t);
    PopWritten(a, s);
    assert Datas(s.popped) <= Datas(t.popped);
    ArrivedFrame(a, s, t);
  }

  lemma StreamSnoc(a: Assembler, qs: seq<Queued>)
    requires qs != []
    ensures var n := |qs| - 1;
            Stream(a, Datas(qs)) == Stream(a, Datas(qs[..n])) + Framed(a, qs[n].data)
  {
    var n := |qs| - 1;
    assert Datas(qs) == Datas(qs[..n]) + [qs[n].data];
    StreamConcat(a, Datas(qs[..n]), [qs[n].data]);
    SingleStream(a, qs[n].data);
  }

  lemma SingleStream(a: Assembler, p: Packet)
    ensures Stream(a, [p]) == Framed(a, p)
  {
    assert Stream(a, [p]) == Framed(a, p) + Stream(a, []);
  }

  lemma AdvanceKeeps(a: Assembler, s: System, io: WriteResult)
    requires Inv(a, s) && s.conn.sending.Some?
    ensures Inv(a, AdvanceStep(s, io))
  {
    var t := AdvanceStep(s, io);
    if io.Wrote? {
      AdvanceWritten(a, s, io);
      ConservedFrame(s, t);
      ArrivedFrame(a, s, t);
    }
  }

  lemma AdvanceWritten(a: Assembler, s: System, io: WriteResult)
    requires Written(a, s) && s.conn.sending.Some? && io.Wrote?
    ensures Written(a, AdvanceStep(s, io))
  {
    var w := s.conn.sending.value;
    var bytes := Taken(w, io);
    var done := s.popped[..|s.popped| - 1];
    assert w.data[..w.pos] + bytes == w.data[..w.pos + |bytes|];
    Associative(Stream(a, Datas(done)), w.data[..w.pos], bytes);
    if w.pos + |bytes| >= |w.data| {
      CompleteWritten(a, s, s.emitted + bytes);
    }
  }

  lemma CompleteWritten(a: Assembler, s: System, emitted: seq<Byte>)
    requires Written(a, s) && s.conn.sending.Some?
    requires var w := s.conn.sending.value;
             emitted == Stream(a, Datas(s.popped[..|s.popped| - 1])) + w.data
    ensures emitted == Stream(a, Datas(s.popped))
    ensures s.refunded + [s.conn.sending.value.charge] == Charges(s.popped)
  {
    StreamSnoc(a, s.popped);
    var n := |s.popped| - 1;
    assert Charges(s.popped) == Charges(s.popped[..n]) + [ChargeOf(s.popped[n])];
  }

  /** The bytes written so far are a part of the popped packets, framed, in pop order. */
  lemma EmittedIsStream(a: Assembler, s: System)
    requires Inv(a, s)
    ensures s.emitted <= Stream(a, Datas(s.popped))
  {
    if s.conn.sending.Some? { StreamSnoc(a, s.popped); }
  }

  lemma ReadKeeps(a: Assembler, s: System, count: nat)
    requires WellFormed(a) && Inv(a, s)
    ensures Inv(a, ReadStep(a, s, count))
  {
    var t := ReadStep(a, s, count);
    EmittedIsStream(a, s);
    ReadArrives(a, s, count);
    WrittenFrame(a, s, t);
    ConservedFrame(s, t);
  }

  lemma ReadArrives(a: Assembler, s: System, count: nat)
    requires WellFormed(a) && Arrived(a, s) && AllFit(a, Datas(s.popped)) && s.emitted <= Stream(a, Datas(s.popped))
    ensures Arrived(a, ReadStep(a, s, count))
  {
    var upTo := Min(|s.emitted|, s.received + count);
    var buf := s.recvBuf + s.emitted[s.received..upTo];
    var n, all := |s.delivered|, Datas(s.popped);
    BufferIsRest(a, s, upTo);
    LoadFromStream(a, all[n..], buf);
    if Load(a, buf).Loaded? {
      ReadDelivers(a, s.delivered, all, Load(a, buf).packet, Load(a, buf).rest);
    }
  }

  /** What has been read and not delivered is a part of the frames still to be delivered. */
  lemma BufferIsRest(a: Assembler, s: System, upTo: nat)
    requires Arrived(a, s) && s.emitted <= Stream(a, Datas(s.popped)) && s.received <= upTo <= |s.emitted|
    ensures var buf := s.recvBuf + s.emitted[s.received..upTo];
            && Stream(a, s.delivered) + buf == s.emitted[..upTo]
            && buf <= Stream(a, Datas(s.popped)[|s.delivered|..])
  {
    var chunk := s.emitted[s.received..upTo];
    var n, all := |s.delivered|, Datas(s.popped);
    assert all == s.delivered + all[n..];
    StreamConcat(a, s.delivered, all[n..]);
    assert s.emitted[..s.received] + chunk == s.emitted[..upTo];
    Associative(Stream(a, s.delivered), s.recvBuf, chunk);
    PrefixOfRest(Stream(a, s.delivered), s.recvBuf + chunk, Stream(a, all[n..]), s.emitted[..upTo]);
  }

  lemma PrefixOfRest(head: seq<Byte>, buf: seq<Byte>, rest: seq<Byte>, part: seq<Byte>)
    requires head + buf == part && part <= head + rest
    ensures buf <= rest
  {
    assert buf == part[|head|..];
    assert part == (head + rest)[..|part|];
    assert forall i :: 0 <= i < |buf| ==> buf[i] == (head + rest)[|head| + i] == rest[i];
  }

  lemma ReadDelivers(a: Assembler, delivered: seq<Packet>, all: seq<Packet>, p: Packet, rest: seq<Byte>)
    requires delivered <= all && |delivered| < |all| && p == all[|delivered|]
    ensures delivered + [p] <= all
    ensures Stream(a, delivered + [p]) + rest == Stream(a, delivered) + (Framed(a, p) + rest)
  {
    SingleStream(a, p);
    StreamConcat(a, delivered, [p]);
    Associative(Stream(a, delivered), Framed(a, p), rest);
  }

  lemma StepKeeps(a: Assembler, s: System, e: Event)
    requires WellFormed(a) && Inv(a, s)
    ensures Inv(a, Step(a, s, e))
  {
    match e
    case Send(data, priority, charged) => SendKeeps(a, s, data, priority, charged);
    case Writable(io) =>
      var c := s.conn;
      if c.sending.None? && !QueueEmpty(c) {
        PopKeeps(a, s);
        AdvanceKeeps(a, PopStep(a, s), io);
      } else if c.sending.Some? {
        AdvanceKeeps(a, s, io);
      }
    case Readable(count) => ReadKeeps(a, s, count);
  }

  /** The invariant holds after every sequence of sends, partial writes and partial reads. */
  lemma {:induction false} RunKeeps(a: Assembler, events: seq<Event>)
    requires WellFormed(a)
    ensures Inv(a, Run(a, events))
  {
    if events == [] {
      assert Datas([]) == [] && Charges([]) == [];
    } else {
      var n := |events| - 1;
      RunKeeps(a, events[..n]);
      StepKeeps(a, Run(a, events[..n]), events[n]);
    }
  }

  // ---------------------------------------------------------------- what a run delivers

  /** Packets arrive unchanged, in pop order, none lost to assembly, whatever the pieces. */
  lemma RunDelivers(a: Assembler, events: seq<Event>)
    requires WellFormed(a)
    ensures var s := Run(a, events);
            && s.delivered <= Datas(s.popped)
            && s.emitted <= Stream(a, Datas(s.popped))
            && s.lost == []
            && forall p: Priority :: Of(s.popped, p) <= Of(s.admitted, p)
  {
    RunKeeps(a, events);
    EmittedIsStream(a, Run(a, events));
  }

  /** Once nothing waits and everything has been read, every admitted packet has been delivered and refunded. */
  lemma QuietRunDeliversAll(a: Assembler, events: seq<Event>)
    requires WellFormed(a)
    requires var s := Run(a, events);
             && !s.conn.writable && s.received == |s.emitted| && Load(a, s.recvBuf) == NotReady
    ensures var s := Run(a, events);
            && s.delivered == Datas(s.popped) && s.recvBuf == []
            && (forall p: Priority :: Of(s.popped, p) == Of(s.admitted, p))
            && s.refunded == Charges(s.popped)
  {
    RunKeeps(a, events);
    var s := Run(a, events);
    forall p: Priority ensures Of(s.popped, p) == Of(s.admitted, p) {
      assert Of(s.admitted, p) == Of(s.popped, p) + QueueOf(s.conn, p);
      assert QueueOf(s.conn, p) == [];
    }
    QuietReaderHasAll(a, s);
  }

  lemma QuietReaderHasAll(a: Assembler, s: System)
    requires WellFormed(a) && Arrived(a, s) && AllFit(a, Datas(s.popped)) && s.emitted == Stream(a, Datas(s.popped))
    requires s.received == |s.emitted| && Load(a, s.recvBuf) == NotReady
    ensures s.delivered == Datas(s.popped) && s.recvBuf == []
  {
    var n, all := |s.delivered|, Datas(s.popped);
    assert all == s.delivered + all[n..];
    StreamConcat(a, s.delivered, all[n..]);
    assert s.emitted[..s.received] == s.emitted;
    SameRest(Stream(a, s.delivered), s.recvBuf, Stream(a, all[n..]));
    LoadFromStream(a, all[n..], s.recvBuf);
  }

  lemma SameRest(head: seq<Byte>, x: seq<Byte>, y: seq<Byte>)
    requires head + x == head + y
    ensures x == y
  {
    assert x == (head + x)[|head|..];
    assert y == (head + y)[|head|..];
  }

  // ---------------------------------------------------------------- the object

  /** What the socket returns to one `read`. */
  datatype ReadResult = Read(bytes: seq<Byte>) | Interrupted | WouldBlock | ReadFailed

  /** The bytes that `results` bring until the socket has no more, and whether they end in an error. */
  function Arriving(results: seq<ReadResult>): (seq<Byte>, bool) {
    if results == [] then ([], false)
    else
      match results[0]
      case Read(bytes) =>
        if bytes == [] then ([], false)
        else
          var (more, failed) := Arriving(results[1..]);
          (bytes + more, failed)
      case Interrupted => Arriving(results[1..])
      case WouldBlock => ([], false)
      case ReadFailed => ([], true)
  }

  /** A system of which only the connection is known. */
  function Around(c: Conn): System { NEW_SYSTEM.(conn := c) }

  datatype SendResult = Sent(queueLength: nat) | Oversized | Throttled

  class GenericConnection {
    const assembler: Assembler
    var recvBuf: seq<Byte>
    var high: seq<Queued>
    var normal: seq<Queued>
    var low: seq<Queued>
    var sendingPacket: Option<Sending>
    var interestWritable: bool

    ghost function Value(): Conn
      reads this
    {
      Conn(high, normal, low, sendingPacket, interestWritable)
    }

    constructor (a: Assembler)
      ensures Value() == NEW_CONNECTION && recvBuf == [] && assembler == a
    {
      assembler := a;
      recvBuf, high, normal, low := [], [], [], [];
      sendingPacket := None;
      interestWritable := false;
    }

    method Push(packet: Queued)
      modifies this
      ensures recvBuf == old(recvBuf) && Value() == PushBack(old(Value()), packet)
    {
      match packet.priority {
        case High => high := high + [packet];
        case Normal => normal := normal + [packet];
        case Low => low := low + [packet];
      }
    }

    /** `send`: admitted exactly if it fits a frame and the throttling service has room for it. */
    method Send(service: Service, data: Packet, priority: Priority) returns (r: SendResult)
      modifies this, service
      ensures recvBuf == old(recvBuf) && (Balanced(old(service.Value())) ==> Balanced(service.Value()))
      ensures var fits := old(service.curQueueSize) + |data| <= old(service.queueCapacity);
              && Value() == AfterSend(assembler, old(Value()), NewQueued(data, priority), fits)
              && r == (if data != [] && IsOversized(assembler, |data|) then Oversized
                       else if data != [] && !fits then Throttled
                       else Sent(|high| + |normal| + |low|))
      ensures if data == [] || IsOversized(assembler, |data|) then service.Value() == old(service.Value())
              else Throttling.Step(old(service.Value()), NewPacket(|data|, priority == High)) == Some(service.Value())
    {
      if data != [] {
        if IsOversized(assembler, |data|) {
          return Oversized;
        }
        var queued := service.OnEnqueue(|data|, priority == High);
        if queued.None? {
          return Throttled;
        }
        Push(NewQueued(data, priority));
        if !interestWritable {
          interestWritable := true;
        }
      }
      return Sent(|high| + |normal| + |low|);
    }

    method PopFromQueue() returns (item: Option<Queued>)
      modifies this
      ensures recvBuf == old(recvBuf)
      ensures QueueEmpty(old(Value())) ==> item == None && Value() == old(Value())
      ensures !QueueEmpty(old(Value())) ==> item == Some(Front(old(Value()))) && Value() == PopFront(old(Value()))
    {
      if high != [] {
        item := Some(high[0]);
        high := high[1..];
      } else if normal != [] {
        item := Some(normal[0]);
        normal := normal[1..];
      } else if low != [] {
        item := Some(low[0]);
        low := low[1..];
      } else {
        item := None;
      }
    }

    /** `write_next_from_queue` and the change of interest in `writable`. */
    method Writable(io: WriteResult) returns (status: WriteStatus, bytes: seq<Byte>, refund: Option<Charge>)
      requires WellFormed(assembler)
      modifies this
      ensures recvBuf == old(recvBuf)
      ensures var t := WriteStep(assembler, Around(old(Value())), io);
              && Value() == t.conn && bytes == t.emitted
              && t.refunded == if refund.Some? then [refund.value] else []
      ensures status == Complete && refund.None? ==> QueueEmpty(old(Value())) && old(Value()).sending.None?
      ensures status == Ongoing ==> sendingPacket.Some? && refund.None?
    {
      bytes, refund := [], None;
      if sendingPacket.None? {
        var item := PopFromQueue();
        if item.None? {
          interestWritable := false;
          return Complete, bytes, refund;
        }
        var charge := ChargeOf(item.value);
        var assembled := Assemble(assembler, item.value.data);
        if assembled.None? {
          return Failed, bytes, Some(charge);
        }
        sendingPacket := Some(Sending(assembled.value, 0, charge));
      }
      status, bytes, refund := WriteSending(io);
    }

    /** The part of a write that starts with a packet in progress. */
    method WriteSending(io: WriteResult) returns (status: WriteStatus, bytes: seq<Byte>, refund: Option<Charge>)
      requires sendingPacket.Some?
      modifies this
      ensures recvBuf == old(recvBuf)
      ensures var t := AdvanceStep(Around(old(Value())), io);
              && Value() == t.conn && bytes == t.emitted
              && t.refunded == if refund.Some? then [refund.value] else []
      ensures status == Complete ==> refund.Some?
      ensures status == Ongoing ==> sendingPacket.Some? && refund.None?
    {
      bytes, refund := [], None;
      var w := sendingPacket.value;
      if io.WriteError? && w.pos < |w.data| {
        return Failed, bytes, refund;
      }
      bytes := Taken(w, io);
      if w.pos + |bytes| >= |w.data| {
        sendingPacket := None;
        status, refund := Complete, Some(w.charge);
      } else {
        sendingPacket := Some(w.(pos := w.pos + |bytes|));
        status := Ongoing;
      }
      if sendingPacket.None? && high == [] && normal == [] && low == [] {
        interestWritable := false;
      }
    }

    /** `readable`: read until the socket is drained, then take out at most one packet. */
    method Readable(results: seq<ReadResult>) returns (ok: bool, packet: Option<Packet>)
      modifies this
      ensures Value() == old(Value())
      ensures var (bytes, failed) := Arriving(results);
              var buf := old(recvBuf) + bytes;
              && ok == !failed
              && (failed ==> packet == None && recvBuf == buf)
              && (!failed && Load(assembler, buf) == NotReady ==> packet == None && recvBuf == buf)
              && (!failed && Load(assembler, buf).Loaded? ==>
                    packet == Some(Load(assembler, buf).packet) && recvBuf == Load(assembler, buf).rest)
    {
      var i := 0;
      ghost var start := recvBuf;
      while i < |results|
        invariant 0 <= i <= |results| && Value() == old(Value())
        invariant start + Arriving(results).0 == recvBuf + Arriving(results[i..]).0
        invariant Arriving(results).1 == Arriving(results[i..]).1
      {
        assert results[i..][1..] == results[i + 1..];
        match results[i] {
          case Read(bytes) =>
            if bytes == [] {
              break;
            }
            Associative(recvBuf, bytes, Arriving(results[i + 1..]).0);
            recvBuf := recvBuf + bytes;
          case Interrupted =>
          case WouldBlock =>
            break;
          case ReadFailed =>
            assert recvBuf + [] == recvBuf;
            return false, None;
        }
        i := i + 1;
      }
      assert recvBuf == recvBuf + [] == start + Arriving(results).0;
      ok := true;
      packet, recvBuf := TakePacket(assembler, recvBuf);
    }
  }
}
