/**
 The global byte counters of queued packets: charged when a packet is created,
 refunded when it is dropped.
 */
module Throttling {
  import opened Machine
  import opened Wrappers

  const MB: nat := 1_000_000

  /** The counters of `Service`. */
  datatype State = State(
    queueCapacity: nat, minThrottle: nat, maxThrottle: nat,
    curQueueSize: nat, highQueueSize: nat, lowQueueSize: nat)

  const INITIAL := State(256 * MB, 10 * MB, 64 * MB, 0, 0, 0)

  /** The price of a live packet, as recorded when it was created. */
  datatype Charge = Charge(size: nat, high: bool)

  function SumSizes(live: seq<Charge>): nat {
    if live == [] then 0 else SumSizes(live[..|live| - 1]) + live[|live| - 1].size
  }

  function SumOf(live: seq<Charge>, high: bool): nat {
    if live == [] then 0
    else SumOf(live[..|live| - 1], high) + if live[|live| - 1].high == high then live[|live| - 1].size else 0
  }

  // ---------------------------------------------------------------- the operations

  /** `on_enqueue`; `None` is the queue-full error, which changes nothing. */
  function Enqueued(s: State, size: nat, high: bool): Option<State> {
    if size > s.queueCapacity then None
    else if s.curQueueSize > s.queueCapacity - size then None
    else
      var t := s.(curQueueSize := s.curQueueSize + size);
      Some(if high then t.(highQueueSize := t.highQueueSize + size) else t.(lowQueueSize := t.lowQueueSize + size))
  }

  /** `on_dequeue`; `None` is the panic of an unsigned subtraction. */
  function Dequeued(s: State, size: nat, high: bool): Option<State> {
    if size > s.curQueueSize then
      Some(s.(curQueueSize := 0, highQueueSize := 0, lowQueueSize := 0))
    else
      var t := s.(curQueueSize := s.curQueueSize - size);
      if high then
        if size > t.highQueueSize then None else Some(t.(highQueueSize := t.highQueueSize - size))
      else
        if size > t.lowQueueSize then None else Some(t.(lowQueueSize := t.lowQueueSize - size))
  }

  /** `initialize`; `None` is a failed assertion. */
  function Initialized(s: State, capMb: nat, minMb: nat, maxMb: nat): Option<State> {
    if capMb > maxMb > minMb > 0 && USIZE_MAX / MB >= capMb && s.curQueueSize <= capMb * MB then
      Some(s.(queueCapacity := capMb * MB, minThrottle := minMb * MB, maxThrottle := maxMb * MB))
    else None
  }

  // ---------------------------------------------------------------- every interleaving

  /** The service and the packets alive on all connections. */
  datatype World = World(service: State, live: seq<Charge>)

  datatype Event =
    | NewPacket(size: nat, high: bool)
    | DropPacket(which: nat)
    | Initialize(capMb: nat, minMb: nat, maxMb: nat)

  function Without(live: seq<Charge>, i: nat): seq<Charge>
    requires i < |live|
  {
    live[..i] + live[i + 1..]
  }

  /** One event; `None` is a panic.  A refused packet and an unknown index change nothing. */
  function Step(w: World, e: Event): Option<World> {
    match e
    case NewPacket(size, high) =>
      (match Enqueued(w.service, size, high)
       case None => Some(w)
       case Some(s) => Some(World(s, w.live + [Charge(size, high)])))
    case DropPacket(i) =>
      if i >= |w.live| then Some(w)
      else
        (match Dequeued(w.service, w.live[i].size, w.live[i].high)
         case None => None
         case Some(s) => Some(World(s, Without(w.live, i))))
    case Initialize(cap, min, max) =>
      (match Initialized(w.service, cap, min, max)
       case None => None
       case Some(s) => Some(World(s, w.live)))
  }

  function Run(w: World, events: seq<Event>): Option<World> {
    if events == [] then Some(w)
    else
      match Run(w, events[..|events| - 1])
      case None => None
      case Some(v) => Step(v, events[|events| - 1])
  }

  /** The counters are exactly the prices of the live packets, within capacity. */
  ghost predicate Balanced(w: World) {
    && w.service.curQueueSize == w.service.highQueueSize + w.service.lowQueueSize
    && w.service.curQueueSize == SumSizes(w.live)
    && w.service.highQueueSize == SumOf(w.live, true)
    && w.service.lowQueueSize == SumOf(w.live, false)
    && w.service.curQueueSize <= w.service.queueCapacity <= USIZE_MAX
  }

  lemma SumSnoc(live: seq<Charge>, c: Charge)
    ensures SumSizes(live + [c]) == SumSizes(live) + c.size
    ensures SumOf(live + [c], c.high) == SumOf(live, c.high) + c.size
    ensures SumOf(live + [c], !c.high) == SumOf(live, !c.high)
  {
    assert (live + [c])[..|live|] == live;
  }

  lemma {:induction false} SumWithout(live: seq<Charge>, i: nat)
    requires i < |live|
    ensures SumSizes(live) == SumSizes(Without(live, i)) + live[i].size
    ensures SumOf(live, live[i].high) == SumOf(Without(live, i), live[i].high) + live[i].size
    ensures SumOf(live, !live[i].high) == SumOf(Without(live, i), !live[i].high)
  {
    var n := |live| - 1;
    if i == n {
      assert Without(live, i) == live[..n];
    } else {
      SumWithout(live[..n], i);
      var c := live[n];
      assert Without(live, i) == Without(live[..n], i) + [c];
      SumSnoc(Without(live[..n], i), c);
      assert live == live[..n] + [c];
      SumSnoc(live[..n], c);
    }
  }

  /** No event of a balanced world panics, except an initialisation whose own assertions fail. */
  lemma StepBalanced(w: World, e: Event)
    requires Balanced(w)
    ensures Step(w, e).Some? ==> Balanced(Step(w, e).value)
    ensures !e.Initialize? ==> Step(w, e).Some?
    ensures e.DropPacket? && e.which < |w.live| ==>
              && Step(w, e).value.service.curQueueSize == w.service.curQueueSize - w.live[e.which].size
              && Step(w, e).value.live == Without(w.live, e.which)
  {
    match e
    case NewPacket(size, high) =>
      if Enqueued(w.service, size, high).Some? { NewBalanced(w, size, high); }
    case DropPacket(i) =>
      if i < |w.live| { DropBalanced(w, i); }
    case Initialize(cap, min, max) =>
      if Initialized(w.service, cap, min, max).Some? { InitializedBalanced(w, cap, min, max); }
  }

  /** A packet that is admitted is counted once and fits. */
  lemma NewBalanced(w: World, size: nat, high: bool)
    requires Balanced(w) && Enqueued(w.service, size, high).Some?
    ensures Balanced(World(Enqueued(w.service, size, high).value, w.live + [Charge(size, high)]))
  {
    SumSnoc(w.live, Charge(size, high));
  }

  lemma InitializedBalanced(w: World, cap: nat, min: nat, max: nat)
    requires Balanced(w) && Initialized(w.service, cap, min, max).Some?
    ensures Balanced(World(Initialized(w.service, cap, min, max).value, w.live))
  {
    CapacityFits(cap);
  }

  /** The refund of a live packet is covered by both of its counters. */
  lemma DropBalanced(w: World, i: nat)
    requires Balanced(w) && i < |w.live|
    ensures var c := w.live[i];
            var s := Dequeued(w.service, c.size, c.high);
            && s.Some? && s.value.curQueueSize == w.service.curQueueSize - c.size
            && Balanced(World(s.value, Without(w.live, i)))
  {
    SumWithout(w.live, i);
  }

  lemma CapacityFits(capMb: nat)
    ensures USIZE_MAX / MB >= capMb ==> capMb * MB <= USIZE_MAX
  {
  }

  /**
   Over every interleaving of packet creation, drop and initialisation the
   counters stay balanced, and no refund is ever larger than what is queued.
   */
  lemma {:induction false} RunBalanced(w: World, events: seq<Event>)
    requires Balanced(w)
    ensures Run(w, events).Some? ==> Balanced(Run(w, events).value)
    ensures (forall i :: 0 <= i < |events| ==> !events[i].Initialize?) ==> Run(w, events).Some?
  {
    if events != [] {
      var init := events[..|events| - 1];
      RunBalanced(w, init);
      if Run(w, init).Some? {
        StepBalanced(Run(w, init).value, events[|events| - 1]);
      }
    }
  }

  lemma InitialBalanced()
    ensures Balanced(World(INITIAL, []))
  {
  }

  /** The live packet `which` was charged this size at this priority. */
  ghost predicate Owns(w: World, which: nat, size: nat, high: bool) {
    which < |w.live| && w.live[which] == Charge(size, high)
  }

  // ---------------------------------------------------------------- the object

  /** `Service`, with the packets it has charged for. */
  class Service {
    var queueCapacity: nat
    var minThrottleQueueSize: nat
    var maxThrottleQueueSize: nat
    var curQueueSize: nat
    var highQueueSize: nat
    var lowQueueSize: nat
    ghost var live: seq<Charge>

    ghost function Value(): World
      reads this
    {
      World(State(queueCapacity, minThrottleQueueSize, maxThrottleQueueSize,
                  curQueueSize, highQueueSize, lowQueueSize), live)
    }

    constructor ()
      ensures Value() == World(INITIAL, []) && Balanced(Value())
    {
      queueCapacity := 256 * MB;
      minThrottleQueueSize := 10 * MB;
      maxThrottleQueueSize := 64 * MB;
      curQueueSize, highQueueSize, lowQueueSize := 0, 0, 0;
      live := [];
    }

    method OnEnqueue(dataSize: nat, isHighPriority: bool) returns (queued: Option<nat>)
      modifies this
      ensures Balanced(old(Value())) ==> Balanced(Value())
      ensures Step(old(Value()), NewPacket(dataSize, isHighPriority)) == Some(Value())
      ensures queued.Some? <==> old(curQueueSize) + dataSize <= old(queueCapacity)
      ensures queued.Some? ==> queued.value == curQueueSize
    {
      if Balanced(Value()) { StepBalanced(Value(), NewPacket(dataSize, isHighPriority)); }
      if dataSize > queueCapacity {
        return None;
      }
      if curQueueSize > queueCapacity - dataSize {
        return None;
      }
      curQueueSize := curQueueSize + dataSize;
      if isHighPriority {
        highQueueSize := highQueueSize + dataSize;
      } else {
        lowQueueSize := lowQueueSize + dataSize;
      }
      live := live + [Charge(dataSize, isHighPriority)];
      return Some(curQueueSize);
    }

    /**
     `None` is an underflow.  For the live packet `which` there is none, and the branch for too
     large a size is not reached.
     */
    method OnDequeue(dataSize: nat, isHighPriority: bool, ghost which: nat) returns (queued: Option<nat>)
      modifies this
      ensures queued.Some? <==> Dequeued(old(Value().service), dataSize, isHighPriority).Some?
      ensures queued.Some? ==>
                && Some(Value().service) == Dequeued(old(Value().service), dataSize, isHighPriority)
                && queued.value == curQueueSize
      ensures Owns(old(Value()), which, dataSize, isHighPriority) && Balanced(old(Value())) ==>
                && queued.Some? && Balanced(Value()) && curQueueSize == old(curQueueSize) - dataSize
                && Step(old(Value()), DropPacket(which)) == Some(Value())
      ensures !Owns(old(Value()), which, dataSize, isHighPriority) ==> live == old(live)
    {
      ghost var before := Value();
      if Balanced(before) && Owns(before, which, dataSize, isHighPriority) { StepBalanced(before, DropPacket(which)); }
      if dataSize > curQueueSize {
        curQueueSize, highQueueSize, lowQueueSize := 0, 0, 0;
      } else {
        curQueueSize := curQueueSize - dataSize;
        if dataSize > (if isHighPriority then highQueueSize else lowQueueSize) {
          return None;
        }
        if isHighPriority {
          highQueueSize := highQueueSize - dataSize;
        } else {
          lowQueueSize := lowQueueSize - dataSize;
        }
      }
      if Owns(before, which, dataSize, isHighPriority) { live := Without(live, which); }
      return Some(curQueueSize);
    }

    /** Reports whether the assertions of the original hold; where one fails nothing is changed. */
    method Initialize(capMb: nat, minThrottleMb: nat, maxThrottleMb: nat) returns (ok: bool)
      modifies this
      ensures Balanced(old(Value())) ==> Balanced(Value())
      ensures ok <==> capMb > maxThrottleMb > minThrottleMb > 0 && USIZE_MAX / MB >= capMb
                      && old(curQueueSize) <= capMb * MB
      ensures ok ==> Step(old(Value()), Event.Initialize(capMb, minThrottleMb, maxThrottleMb)) == Some(Value())
      ensures !ok ==> Step(old(Value()), Event.Initialize(capMb, minThrottleMb, maxThrottleMb)).None?
                      && Value() == old(Value())
    {
      if Balanced(Value()) { StepBalanced(Value(), Event.Initialize(capMb, minThrottleMb, maxThrottleMb)); }
      if !(capMb > maxThrottleMb > minThrottleMb > 0) {
        return false;
      }
      if USIZE_MAX / MB < capMb || curQueueSize > capMb * MB {
        return false;
      }
      queueCapacity := capMb * MB;
      minThrottleQueueSize := minThrottleMb * MB;
      maxThrottleQueueSize := maxThrottleMb * MB;
      return true;
    }
  }
}
