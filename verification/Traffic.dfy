/**
 All connections of a node and the one throttling service they share: packets are charged
 when they are sent, framed when they are written, and refunded when they are dropped.
 */
module Traffic {
  import opened Connection
  import opened Framing
  import opened Machine
  import opened Throttling
  import opened Wrappers

  /** The service and the connections opened so far; a closed one holds nothing. */
  datatype Net = Net(service: State, conns: seq<Conn>)

  datatype Event =
    | Open
    | Send(i: nat, data: Packet, priority: Priority)
    | Write(i: nat, io: WriteResult)
    | Close(i: nat)
    | Initialize(capMb: nat, minMb: nat, maxMb: nat)

  /** Packets dropped one after the other; `None` is an underflow. */
  function Refund(s: State, cs: seq<Charge>): Option<State> {
    if cs == [] then Some(s)
    else
      var t := Refund(s, cs[..|cs| - 1]);
      if t.None? then None else Dequeued(t.value, cs[|cs| - 1].size, cs[|cs| - 1].high)
  }

  /** The prices recorded in the packets of a connection. */
  function Recorded(c: Conn): seq<Charge> {
    Charges(c.high) + Charges(c.normal) + Charges(c.low)
    + if c.sending.Some? then [c.sending.value.charge] else []
  }

  function Replaced(n: Net, s: Option<State>, i: nat, c: Conn): Option<Net>
    requires i < |n.conns|
  {
    if s.None? then None else Some(Net(s.value, n.conns[i := c]))
  }

  /** One event; `None` is a panic. */
  function Step(a: Assembler, n: Net, e: Event): Option<Net> {
    match e
    case Open => Some(n.(conns := n.conns + [NEW_CONNECTION]))
    case Send(i, data, priority) =>
      if i >= |n.conns| || data == [] || IsOversized(a, |data|) then Some(n)
      else
        var s := Enqueued(n.service, |data|, priority == High);
        if s.None? then Some(n)
        else Replaced(n, s, i, AfterSend(a, n.conns[i], NewQueued(data, priority), true))
    case Write(i, io) =>
      if i >= |n.conns| then Some(n)
      else
        var t := WriteStep(a, Around(n.conns[i]), io);
        Replaced(n, Refund(n.service, t.refunded), i, t.conn)
    case Close(i) =>
      if i >= |n.conns| then Some(n)
      else Replaced(n, Refund(n.service, Recorded(n.conns[i])), i, NEW_CONNECTION)
    case Initialize(cap, min, max) =>
      var s := Initialized(n.service, cap, min, max);
      if s.None? then None else Some(n.(service := s.value))
  }

  function Run(a: Assembler, n: Net, es: seq<Event>): Option<Net> {
    if es == [] then Some(n)
    else
      var m := Run(a, n, es[..|es| - 1]);
      if m.None? then None else Step(a, m.value, es[|es| - 1])
  }

  // ---------------------------------------------------------------- what is held, in bytes as they were sent

  function SentBytes(qs: seq<Queued>, high: bool): nat {
    if qs == [] then 0
    else
      SentBytes(qs[..|qs| - 1], high)
      + if (qs[|qs| - 1].priority == High) == high then |qs[|qs| - 1].data| else 0
  }

  /** The packets of a connection at the sizes they were sent with; the one being written has grown by its prefix. */
  function HeldBytes(a: Assembler, c: Conn, high: bool): int {
    WaitingBytes(c, high) + SendingBytes(a, c.sending, high)
  }

  function WaitingBytes(c: Conn, high: bool): nat {
    SentBytes(c.high, high) + SentBytes(c.normal, high) + SentBytes(c.low, high)
  }

  function SendingBytes(a: Assembler, sending: Option<Sending>, high: bool): int {
    if sending.Some? && sending.value.charge.high == high then |sending.value.data| - a.dataLenBytes else 0
  }

  function TotalBytes(a: Assembler, conns: seq<Conn>, high: bool): int {
    if conns == [] then 0
    else TotalBytes(a, conns[..|conns| - 1], high) + HeldBytes(a, conns[|conns| - 1], high)
  }

  /** Every packet waiting fits and is priced at its size; the one being written at its size without the prefix. */
  ghost predicate Sound(a: Assembler, c: Conn) {
    && Fit(a, c.high) && Fit(a, c.normal) && Fit(a, c.low)
    && (c.sending.Some? ==> c.sending.value.charge.size + a.dataLenBytes == |c.sending.value.data|)
  }

  /** The counters are the bytes of all packets on all connections, as they were sent, and within capacity. */
  ghost predicate Counted(a: Assembler, n: Net) {
    && n.service.highQueueSize == TotalBytes(a, n.conns, true)
    && n.service.lowQueueSize == TotalBytes(a, n.conns, false)
    && n.service.curQueueSize == n.service.highQueueSize + n.service.lowQueueSize
    && n.service.curQueueSize <= n.service.queueCapacity <= USIZE_MAX
  }

  ghost predicate Inv(a: Assembler, n: Net) {
    Counted(a, n) && forall i :: 0 <= i < |n.conns| ==> Sound(a, n.conns[i])
  }

  // ---------------------------------------------------------------- recorded prices

  lemma {:induction false} SumConcat(x: seq<Charge>, y: seq<Charge>, high: bool)
    ensures SumOf(x + y, high) == SumOf(x, high) + SumOf(y, high)
  {
    if y == [] {
      assert x + y == x;
    } else {
      var k := |y| - 1;
      SumConcat(x, y[..k], high);
      assert (x + y)[..|x| + k] == x + y[..k];
    }
  }

  lemma {:induction false} ChargesAreBytes(a: Assembler, qs: seq<Queued>, high: bool)
    requires Fit(a, qs)
    ensures SumOf(Charges(qs), high) == SentBytes(qs, high)
  {
    if qs != [] {
      var k := |qs| - 1;
      ChargesAreBytes(a, qs[..k], high);
      assert Charges(qs)[..k] == Charges(qs[..k]);
      assert Priced(a, qs[k]);
    }
  }

  /** What is recorded in a connection is what it holds. */
  lemma RecordedIsHeld(a: Assembler, c: Conn, high: bool)
    requires Sound(a, c)
    ensures SumOf(Recorded(c), high) == HeldBytes(a, c, high)
  {
    ChargesAreBytes(a, c.high, high);
    ChargesAreBytes(a, c.normal, high);
    ChargesAreBytes(a, c.low, high);
    var last := if c.sending.Some? then [c.sending.value.charge] else [];
    SumConcat(Charges(c.high), Charges(c.normal), high);
    SumConcat(Charges(c.high) + Charges(c.normal), Charges(c.low), high);
    SumConcat(Charges(c.high) + Charges(c.normal) + Charges(c.low), last, high);
    assert last != [] ==> last[..0] == [];
  }

  /** Refunds that the counters cover never underflow, and lower them by exactly what is refunded. */
  lemma {:induction false} RefundExact(s: State, cs: seq<Charge>)
    requires s.curQueueSize == s.highQueueSize + s.lowQueueSize
    requires SumOf(cs, true) <= s.highQueueSize && SumOf(cs, false) <= s.lowQueueSize
    ensures Refund(s, cs) == Some(s.(
              curQueueSize := s.curQueueSize - SumOf(cs, true) - SumOf(cs, false),
              highQueueSize := s.highQueueSize - SumOf(cs, true),
              lowQueueSize := s.lowQueueSize - SumOf(cs, false)))
  {
    if cs != [] { RefundExact(s, cs[..|cs| - 1]); }
  }

  // ---------------------------------------------------------------- one connection

  lemma SentBytesPush(qs: seq<Queued>, q: Queued, high: bool)
    ensures SentBytes(qs + [q], high) == SentBytes(qs, high) + if (q.priority == High) == high then |q.data| else 0
  {
    assert (qs + [q])[..|qs|] == qs;
  }

  lemma {:induction false} SentBytesPop(qs: seq<Queued>, high: bool)
    requires qs != []
    ensures SentBytes(qs, high)
         == (if (qs[0].priority == High) == high then |qs[0].data| else 0) + SentBytes(qs[1..], high)
  {
    if |qs| == 1 {
      assert qs[..0] == [] && qs[1..] == [];
    } else {
      SentBytesPop(qs[..|qs| - 1], high);
      assert qs[..|qs| - 1][1..] == qs[1..][..|qs| - 2];
    }
  }

  lemma FitPush(a: Assembler, qs: seq<Queued>, q: Queued)
    requires Fit(a, qs) && Priced(a, q)
    ensures Fit(a, qs + [q])
  {
  }

  lemma SendHolds(a: Assembler, c: Conn, data: Packet, priority: Priority, high: bool)
    requires Sound(a, c) && data != [] && !IsOversized(a, |data|)
    ensures var d := AfterSend(a, c, NewQueued(data, priority), true);
            && Sound(a, d)
            && HeldBytes(a, d, high) == HeldBytes(a, c, high) + if (priority == High) == high then |data| else 0
  {
    var q := NewQueued(data, priority);
    var d := AfterSend(a, c, q, true);
    assert d == PushBack(c, q).(writable := true);
    match priority {
      case High =>
        SentBytesPush(c.high, q, high);
        FitPush(a, c.high, q);
      case Normal =>
        SentBytesPush(c.normal, q, high);
        FitPush(a, c.normal, q);
      case Low =>
        SentBytesPush(c.low, q, high);
        FitPush(a, c.low, q);
    }
  }

  /** A packet taken from its queue is framed and held at the same size. */
  lemma PopHolds(a: Assembler, c: Conn, high: bool)
    requires Sound(a, c) && c.sending.None? && !QueueEmpty(c)
    ensures !IsOversized(a, |Front(c).data|)
    ensures var d := PopStep(a, Around(c)).conn;
            Sound(a, d) && d.sending.Some? && HeldBytes(a, d, high) == HeldBytes(a, c, high)
  {
    var d := PopStep(a, Around(c)).conn;
    if c.high != [] {
      SentBytesPop(c.high, high);
      assert Priced(a, c.high[0]);
    } else if c.normal != [] {
      SentBytesPop(c.normal, high);
      assert Priced(a, c.normal[0]);
    } else {
      SentBytesPop(c.low, high);
      assert Priced(a, c.low[0]);
    }
  }

  /** A write refunds exactly the bytes that are no longer held. */
  lemma WriteHolds(a: Assembler, c: Conn, io: WriteResult, high: bool)
    requires Sound(a, c)
    ensures var t := WriteStep(a, Around(c), io);
            Sound(a, t.conn) && HeldBytes(a, c, high) == HeldBytes(a, t.conn, high) + SumOf(t.refunded, high)
  {
    if c.sending.None? && !QueueEmpty(c) {
      PopHolds(a, c, high);
      AdvanceHolds(a, PopStep(a, Around(c)), io, high);
    } else if c.sending.Some? {
      AdvanceHolds(a, Around(c), io, high);
    }
  }

  lemma AdvanceHolds(a: Assembler, s: System, io: WriteResult, high: bool)
    requires Sound(a, s.conn) && s.conn.sending.Some? && s.refunded == []
    ensures var t := AdvanceStep(s, io);
            Sound(a, t.conn) && HeldBytes(a, s.conn, high) == HeldBytes(a, t.conn, high) + SumOf(t.refunded, high)
  {
    var w, t := s.conn.sending.value, AdvanceStep(s, io);
    assert t.conn.high == s.conn.high && t.conn.normal == s.conn.normal && t.conn.low == s.conn.low;
    assert WaitingBytes(t.conn, high) == WaitingBytes(s.conn, high);
    AdvanceSends(a, s, io, high);
  }

  lemma AdvanceSends(a: Assembler, s: System, io: WriteResult, high: bool)
    requires s.conn.sending.Some? && s.refunded == []
    requires var w := s.conn.sending.value; w.charge.size + a.dataLenBytes == |w.data|
    ensures var t := AdvanceStep(s, io);
            && (t.conn.sending.Some? ==>
                  t.conn.sending.value.charge.size + a.dataLenBytes == |t.conn.sending.value.data|)
            && SendingBytes(a, s.conn.sending, high)
               == SendingBytes(a, t.conn.sending, high) + SumOf(t.refunded, high)
  {
    var w, t := s.conn.sending.value, AdvanceStep(s, io);
    if t.conn.sending.None? {
      assert t.refunded == [w.charge];
      SumOfOne(w.charge, high);
    } else {
      assert t.refunded == [];
    }
  }

  lemma SumOfOne(c: Charge, high: bool)
    ensures SumOf([c], high) == if c.high == high then c.size else 0
  {
    assert [c][..0] == [];
  }

  // ---------------------------------------------------------------- all connections

  lemma {:induction false} TotalUpdated(a: Assembler, conns: seq<Conn>, i: nat, c: Conn, high: bool)
    requires i < |conns|
    ensures TotalBytes(a, conns[i := c], high)
         == TotalBytes(a, conns, high) - HeldBytes(a, conns[i], high) + HeldBytes(a, c, high)
  {
    var k := |conns| - 1;
    if i < k {
      TotalUpdated(a, conns[..k], i, c, high);
      assert conns[i := c][..k] == conns[..k][i := c];
    } else {
      assert conns[i := c][..k] == conns[..k];
    }
  }

  /** One connection holds no more than all of them. */
  lemma {:induction false} HeldWithinTotal(a: Assembler, conns: seq<Conn>, i: nat, high: bool)
    requires i < |conns| && forall j :: 0 <= j < |conns| ==> Sound(a, conns[j])
    ensures 0 <= HeldBytes(a, conns[i], high) <= TotalBytes(a, conns, high)
  {
    var k := |conns| - 1;
    HeldIsNatural(a, conns[k], high);
    if i < k {
      HeldWithinTotal(a, conns[..k], i, high);
    } else if k > 0 {
      HeldWithinTotal(a, conns[..k], 0, high);
    }
  }

  lemma HeldIsNatural(a: Assembler, c: Conn, high: bool)
    requires Sound(a, c)
    ensures HeldBytes(a, c, high) >= 0
  {
  }

  /** A connection that gives up some of its packets, whose prices are refunded. */
  lemma ReleaseKeeps(a: Assembler, n: Net, i: nat, cs: seq<Charge>, c: Conn)
    requires Inv(a, n) && i < |n.conns| && Sound(a, c)
    requires HeldBytes(a, n.conns[i], true) == HeldBytes(a, c, true) + SumOf(cs, true)
    requires HeldBytes(a, n.conns[i], false) == HeldBytes(a, c, false) + SumOf(cs, false)
    ensures Replaced(n, Refund(n.service, cs), i, c).Some? && Inv(a, Replaced(n, Refund(n.service, cs), i, c).value)
  {
    HeldWithinTotal(a, n.conns, i, true);
    HeldWithinTotal(a, n.conns, i, false);
    RecordedIsHeld(a, c, true);
    RecordedIsHeld(a, c, false);
    RefundExact(n.service, cs);
    TotalUpdated(a, n.conns, i, c, true);
    TotalUpdated(a, n.conns, i, c, false);
  }

  lemma CloseKeeps(a: Assembler, n: Net, i: nat)
    requires Inv(a, n) && i < |n.conns|
    ensures Step(a, n, Close(i)).Some? && Inv(a, Step(a, n, Close(i)).value)
  {
    RecordedIsHeld(a, n.conns[i], true);
    RecordedIsHeld(a, n.conns[i], false);
    ReleaseKeeps(a, n, i, Recorded(n.conns[i]), NEW_CONNECTION);
  }

  /** A connection that takes on a packet, whose price is charged. */
  lemma ChargeKeeps(a: Assembler, n: Net, i: nat, size: nat, high: bool, c: Conn)
    requires Inv(a, n) && i < |n.conns| && Sound(a, c) && Enqueued(n.service, size, high).Some?
    requires HeldBytes(a, c, high) == HeldBytes(a, n.conns[i], high) + size
    requires HeldBytes(a, c, !high) == HeldBytes(a, n.conns[i], !high)
    ensures Inv(a, Replaced(n, Enqueued(n.service, size, high), i, c).value)
  {
    TotalUpdated(a, n.conns, i, c, high);
    TotalUpdated(a, n.conns, i, c, !high);
  }

  lemma SendKeeps(a: Assembler, n: Net, i: nat, data: Packet, priority: Priority)
    requires Inv(a, n)
    ensures Step(a, n, Event.Send(i, data, priority)).Some? && Inv(a, Step(a, n, Event.Send(i, data, priority)).value)
  {
    if i < |n.conns| && data != [] && !IsOversized(a, |data|) {
      var c, high := AfterSend(a, n.conns[i], NewQueued(data, priority), true), priority == High;
      SendHolds(a, n.conns[i], data, priority, high);
      SendHolds(a, n.conns[i], data, priority, !high);
      if Enqueued(n.service, |data|, high).Some? { ChargeKeeps(a, n, i, |data|, high, c); }
    }
  }

  /** Every event keeps the counters exact, and only an initialisation can fail, by its own assertions. */
  lemma StepKeeps(a: Assembler, n: Net, e: Event)
    requires Inv(a, n)
    ensures Step(a, n, e).Some? ==> Inv(a, Step(a, n, e).value)
    ensures Step(a, n, e).None? ==> e.Initialize? && Initialized(n.service, e.capMb, e.minMb, e.maxMb).None?
  {
    match e {
      case Open => OpenKeeps(a, n);
      case Send(i, data, priority) => SendKeeps(a, n, i, data, priority);
      case Write(i, io) =>
        if i < |n.conns| { WriteKeeps(a, n, i, io); }
      case Close(i) =>
        if i < |n.conns| { CloseKeeps(a, n, i); }
      case Initialize(cap, min, max) => CapacityFits(cap);
    }
  }

  lemma OpenKeeps(a: Assembler, n: Net)
    requires Inv(a, n)
    ensures Inv(a, n.(conns := n.conns + [NEW_CONNECTION]))
  {
    assert (n.conns + [NEW_CONNECTION])[..|n.conns|] == n.conns;
  }

  lemma WriteKeeps(a: Assembler, n: Net, i: nat, io: WriteResult)
    requires Inv(a, n) && i < |n.conns|
    ensures Step(a, n, Write(i, io)).Some? && Inv(a, Step(a, n, Write(i, io)).value)
  {
    WriteHolds(a, n.conns[i], io, true);
    WriteHolds(a, n.conns[i], io, false);
    var t := WriteStep(a, Around(n.conns[i]), io);
    ReleaseKeeps(a, n, i, t.refunded, t.conn);
  }

  /**
   Over every run of sends, partial writes, write errors, openings and closings on any number
   of connections, the counters are the bytes of the packets queued and being written, at the
   sizes they were sent with, and nothing ever underflows.
   */
  lemma {:induction false} RunCounts(a: Assembler, n: Net, es: seq<Event>)
    requires Inv(a, n)
    ensures Run(a, n, es).Some? ==> Inv(a, Run(a, n, es).value)
    ensures (forall i :: 0 <= i < |es| ==> !es[i].Initialize?) ==> Run(a, n, es).Some?
  {
    if es != [] {
      RunCounts(a, n, es[..|es| - 1]);
      var m := Run(a, n, es[..|es| - 1]);
      if m.Some? { StepKeeps(a, m.value, es[|es| - 1]); }
    }
  }

  lemma InitialCounts(a: Assembler)
    ensures Inv(a, Net(INITIAL, []))
  {
  }
}
