/**
 The sessions of a node: reusable slots, an index from node id to slot, a counter
 of ingress sessions, and the limits on addresses.
 */
module SessionManager {
  import opened Machine
  import opened NodeTable
  import opened SessionLimits
  import opened Wrappers

  /** `greeted` records that a HELLO of the session has been handled. */
  datatype Session = Session(id: Option<NodeId>, ip: Ip, originated: bool, greeted: bool)

  datatype State = State(
    slots: map<nat, Session>, capacity: nat, maxIngress: nat, ingress: nat, index: map<NodeId, nat>, limits: seq<Limit>)

  /** A counter decremented as an unsigned machine word. */
  function Decremented(n: nat): nat { if n == 0 then USIZE_MAX else n - 1 }

  // ---------------------------------------------------------------- the operations

  datatype CreateResult = Created(slot: nat) | MaxIngress | AlreadyExists | IpLimited | MaxSessions | NotStarted

  /**
   `create`: `slot` is the vacant entry, `started` whether the session itself could be
   started. `None` is the failed assertion that the limits accept the address.
   */
  ghost function Create(s: State, ip: Ip, id: Option<NodeId>, slot: nat, started: bool): Option<(State, CreateResult)>
    requires WellFormed(s.limits)
  {
    if id.None? && s.ingress >= s.maxIngress then Some((s, MaxIngress))
    else if id.Some? && id.value in s.index then Some((s, AlreadyExists))
    else if !AllAllowed(s.limits, ip) then Some((s, IpLimited))
    else if |s.slots| >= s.capacity then Some((s, MaxSessions))
    else if !started then Some((s, NotStarted))
    else
      var (limits, ok) := AddAll(s.limits, ip);
      if !ok then None
      else
        Some((s.(slots := s.slots[slot := Session(id, ip, id.Some?, false)],
                 index := if id.Some? then s.index[id.value := slot] else s.index,
                 limits := limits,
                 ingress := if id.None? then s.ingress + 1 else s.ingress),
              Created(slot)))
  }

  /**
   `remove`, given a session object whose token is `slot`; `None` is the failed assertion on
   the refund.  Only the token is compared with what is live.
   */
  ghost function Remove(s: State, slot: nat, session: Session): Option<State>
    requires WellFormed(s.limits)
  {
    if slot !in s.slots then Some(s)
    else
      var (limits, ok) := RemoveAll(s.limits, session.ip);
      if !ok then None
      else
        Some(s.(slots := s.slots - {slot},
                index := Unindexed(s.index, session.id, slot),
                limits := limits,
                ingress := if session.originated then s.ingress else Decremented(s.ingress)))
  }

  /** The entry of an id goes only if it is for this slot. */
  function Unindexed(index: map<NodeId, nat>, id: Option<NodeId>, slot: nat): map<NodeId, nat> {
    if id.Some? && id.value in index && index[id.value] == slot then index - {id.value} else index
  }

  /** The slot found for an id. */
  function Found(index: map<NodeId, nat>, id: NodeId): Option<nat> { if id in index then Some(index[id]) else None }

  predicate Greets(session: Session, id: NodeId) { session.id == Some(id) && session.greeted }

  datatype UpdateResult = Updated(toDisconnect: Option<nat>) | NotFound | Panicked

  /** `update_ingress_node_id`. */
  function Update(s: State, slot: nat, id: NodeId): (State, UpdateResult) {
    if slot !in s.slots then (s, NotFound)
    else if id in s.index && s.index[id] == slot then (s, Panicked)
    else (s.(index := s.index[id := slot]), Updated(Found(s.index, id)))
  }

  /** The handshake names the peer of an ingress session. */
  function Handshake(s: State, slot: nat, id: NodeId): State {
    if slot in s.slots && s.slots[slot].id.None?
    then s.(slots := s.slots[slot := s.slots[slot].(id := Some(id))])
    else s
  }

  /** A HELLO registers the peer of an ingress session; `None` is the panic for a registered one. */
  function Hello(s: State, slot: nat): Option<State> {
    if slot !in s.slots || s.slots[slot].id.None? then Some(s)
    else
      var t := s.(slots := s.slots[slot := s.slots[slot].(greeted := true)]);
      if s.slots[slot].originated then Some(t)
      else
        var (u, r) := Update(t, slot, s.slots[slot].id.value);
        if r == Panicked then None else Some(u)
  }

  // ---------------------------------------------------------------- what every state keeps

  function IngressSlots(slots: map<nat, Session>): set<nat> { set k | k in slots && !slots[k].originated }

  function Ips(slots: map<nat, Session>): map<nat, Ip> { map k | k in slots :: slots[k].ip }

  /** Every entry is for a live session that owns the id, and an ingress session has one only after its HELLO. */
  ghost predicate Indexed(s: State) {
    forall id :: id in s.index ==>
      && s.index[id] in s.slots && s.slots[s.index[id]].id == Some(id)
      && (s.slots[s.index[id]].originated || s.slots[s.index[id]].greeted)
  }

  ghost predicate Counted(s: State) {
    s.ingress == |IngressSlots(s.slots)| <= s.maxIngress && |s.slots| <= s.capacity
  }

  ghost predicate Inv(s: State) {
    Indexed(s) && Counted(s) && WellFormed(s.limits) && AllMatch(s.limits, Ips(s.slots))
  }

  /** What a session put into a vacant slot adds to the sets that are counted. */
  lemma SlotFilled(slots: map<nat, Session>, slot: nat, session: Session)
    requires slot !in slots
    ensures Ips(slots[slot := session]) == Ips(slots)[slot := session.ip]
    ensures |slots[slot := session]| == |slots| + 1
  {
    assert slots[slot := session].Keys == slots.Keys + {slot};
  }

  lemma IngressFilled(slots: map<nat, Session>, slot: nat, session: Session)
    requires slot !in slots
    ensures |IngressSlots(slots[slot := session])| == |IngressSlots(slots)| + if session.originated then 0 else 1
  {
    if session.originated {
      assert IngressSlots(slots[slot := session]) == IngressSlots(slots);
    } else {
      assert IngressSlots(slots[slot := session]) == IngressSlots(slots) + {slot};
    }
  }

  /** A vacant slot has no entry left from its earlier sessions. */
  lemma SlotIndexed(s: State, slot: nat, session: Session, id: Option<NodeId>)
    requires Indexed(s) && slot !in s.slots && session.id == id && session.originated == id.Some?
    ensures Indexed(s.(slots := s.slots[slot := session],
                       index := if id.Some? then s.index[id.value := slot] else s.index))
    ensures forall x :: x in s.index ==> s.index[x] != slot
  {
  }

  lemma CreateKeeps(s: State, ip: Ip, id: Option<NodeId>, slot: nat, started: bool)
    requires Inv(s) && slot !in s.slots
    ensures Create(s, ip, id, slot, started).Some?
    ensures var (t, r) := Create(s, ip, id, slot, started).value; Inv(t) && (!r.Created? ==> t == s)
  {
    var (t, r) := Create(s, ip, id, slot, started).value;
    if r.Created? {
      var session := Session(id, ip, id.Some?, false);
      AddAllMatch(s.limits, Ips(s.slots), slot, ip);
      SlotFilled(s.slots, slot, session);
      IngressFilled(s.slots, slot, session);
      SlotIndexed(s, slot, session, id);
      assert Counted(t) && Indexed(t);
    }
  }

  /** Neither the refund nor the counter can fail for the session in the slot. */
  lemma RemoveKeeps(s: State, slot: nat)
    requires Inv(s) && slot in s.slots
    ensures Remove(s, slot, s.slots[slot]).Some? && Inv(Remove(s, slot, s.slots[slot]).value)
    ensures !s.slots[slot].originated ==> s.ingress > 0
  {
    RemoveAllMatch(s.limits, Ips(s.slots), slot);
    assert Ips(s.slots)[slot] == s.slots[slot].ip;
    SlotEmptied(s.slots, slot);
    var t := Remove(s, slot, s.slots[slot]).value;
    assert Indexed(t) && Counted(t);
  }

  /** What a session that leaves its slot takes from the sets that are counted. */
  lemma SlotEmptied(slots: map<nat, Session>, slot: nat)
    requires slot in slots
    ensures Ips(slots - {slot}) == Ips(slots) - {slot}
    ensures |IngressSlots(slots - {slot})| == |IngressSlots(slots)| - if slots[slot].originated then 0 else 1
    ensures |slots - {slot}| == |slots| - 1
  {
    assert (slots - {slot}).Keys == slots.Keys - {slot};
    assert IngressSlots(slots - {slot}) == IngressSlots(slots) - {slot};
  }

  /** The session counts as the one in the slot does: for ingress, for every limit, and for the index. */
  ghost predicate StandsFor(s: State, slot: nat, session: Session)
    requires slot in s.slots && WellFormed(s.limits)
  {
    && session.originated == s.slots[slot].originated
    && (forall i :: 0 <= i < |s.limits| ==> Key(s.limits[i], session.ip) == Key(s.limits[i], s.slots[slot].ip))
    && (Registered(s, slot) ==> session.id == s.slots[slot].id)
  }

  /** Removal by a session object goes well exactly if the object stands for the session in the slot. */
  lemma RemoveExactly(s: State, slot: nat, session: Session)
    requires Inv(s) && slot in s.slots
    ensures Remove(s, slot, session).Some? && Inv(Remove(s, slot, session).value) <==> StandsFor(s, slot, session)
  {
    if StandsFor(s, slot, session) {
      RemoveStandsFor(s, slot, session);
    } else if Remove(s, slot, session).Some? {
      RemoveStranger(s, slot, session);
    }
  }

  lemma RemoveStandsFor(s: State, slot: nat, session: Session)
    requires Inv(s) && slot in s.slots && StandsFor(s, slot, session)
    ensures Remove(s, slot, session) == Remove(s, slot, s.slots[slot])
    ensures Remove(s, slot, session).Some? && Inv(Remove(s, slot, session).value)
  {
    RemoveKeeps(s, slot);
    var live := s.slots[slot];
    forall i | 0 <= i < |s.limits|
      ensures Contains(s.limits[i], session.ip) == Contains(s.limits[i], live.ip)
      ensures RemoveOne(s.limits[i], session.ip) == RemoveOne(s.limits[i], live.ip)
    {
    }
    assert RemoveAll(s.limits, session.ip).0 == RemoveAll(s.limits, live.ip).0;
    assert Unindexed(s.index, session.id, slot) == Unindexed(s.index, live.id, slot);
  }

  lemma RemoveStranger(s: State, slot: nat, session: Session)
    requires Inv(s) && slot in s.slots && !StandsFor(s, slot, session) && Remove(s, slot, session).Some?
    ensures !Inv(Remove(s, slot, session).value)
  {
    var live, t := s.slots[slot], Remove(s, slot, session).value;
    SlotEmptied(s.slots, slot);
    if session.originated != live.originated {
      assert slot in IngressSlots(s.slots) <==> !live.originated;
      assert !Counted(t);
    } else if i :| 0 <= i < |s.limits| && Key(s.limits[i], session.ip) != Key(s.limits[i], live.ip) {
      assert t.limits[i] == RemoveOne(s.limits[i], session.ip).0;
      StrangerMiscounts(s.limits[i], Ips(s.slots), slot, session.ip);
      assert !Matches(t.limits[i], Ips(t.slots));
    } else {
      assert t.index == s.index;
      assert !Indexed(t);
    }
  }

  /** A refund under another key leaves the key of the one that went too high. */
  lemma StrangerMiscounts(l: Limit, ips: map<nat, Ip>, x: nat, ip: Ip)
    requires Matches(l, ips) && x in ips && Key(l, ip) != Key(l, ips[x])
    ensures !Matches(RemoveOne(l, ip).0, ips - {x})
  {
    var k, m := Key(l, ips[x]), RemoveOne(l, ip).0;
    assert Count(m, k) == Count(l, k) == |Group(ips, l.width, k)|;
    assert x in Group(ips, l.width, k);
    assert Group(ips - {x}, l.width, k) == Group(ips, l.width, k) - {x};
  }

  lemma HandshakeKeeps(s: State, slot: nat, id: NodeId)
    requires Inv(s)
    ensures Inv(Handshake(s, slot, id))
  {
    var t := Handshake(s, slot, id);
    assert Ips(t.slots) == Ips(s.slots) && IngressSlots(t.slots) == IngressSlots(s.slots);
    assert t.slots.Keys == s.slots.Keys;
  }

  lemma HelloKeeps(s: State, slot: nat)
    requires Inv(s)
    ensures Hello(s, slot).None? <==> Registered(s, slot) && !s.slots[slot].originated
    ensures Hello(s, slot).Some? ==> Inv(Hello(s, slot).value)
  {
    if Hello(s, slot).Some? {
      var t := Hello(s, slot).value;
      assert Ips(t.slots) == Ips(s.slots) && IngressSlots(t.slots) == IngressSlots(s.slots);
      assert t.slots.Keys == s.slots.Keys;
    }
  }

  /** The session in a slot is the one the index gives for its id. */
  predicate Registered(s: State, slot: nat) {
    && slot in s.slots && s.slots[slot].id.Some?
    && s.slots[slot].id.value in s.index && s.index[s.slots[slot].id.value] == slot
  }

  // ---------------------------------------------------------------- every run

  datatype Event =
    | CreateSession(ip: Ip, id: Option<NodeId>, slot: nat, started: bool)
    | CompleteHandshake(slot: nat, peer: NodeId)
    | ReadHello(slot: nat)
    | RemoveSession(slot: nat, session: Session)

  /** A slot is created where the slab is vacant, and the session removed stands for the one in its slot. */
  ghost predicate Possible(s: State, e: Event)
    requires WellFormed(s.limits)
  {
    match e
    case CreateSession(_, _, slot, _) => slot !in s.slots
    case RemoveSession(slot, session) => slot in s.slots ==> StandsFor(s, slot, session)
    case CompleteHandshake(_, _) => true
    case ReadHello(_) => true
  }

  /** One event; `None` is a failed assertion or a panic. */
  ghost function Step(s: State, e: Event): Option<State>
    requires WellFormed(s.limits) && Possible(s, e)
  {
    match e
    case CreateSession(ip, id, slot, started) =>
      var r := Create(s, ip, id, slot, started);
      if r.None? then None else Some(r.value.0)
    case CompleteHandshake(slot, peer) => Some(Handshake(s, slot, peer))
    case ReadHello(slot) => Hello(s, slot)
    case RemoveSession(slot, session) => Remove(s, slot, session)
  }

  /** The only event that stops a run is a HELLO of an ingress session that the index already gives for its id. */
  lemma StepKeeps(s: State, e: Event)
    requires Inv(s) && Possible(s, e)
    ensures Step(s, e).None? <==> e.ReadHello? && Registered(s, e.slot) && !s.slots[e.slot].originated
    ensures Step(s, e).Some? ==> Inv(Step(s, e).value)
  {
    match e {
      case CreateSession(ip, id, slot, started) => CreateKeeps(s, ip, id, slot, started);
      case CompleteHandshake(slot, peer) => HandshakeKeeps(s, slot, peer);
      case ReadHello(slot) => HelloKeeps(s, slot);
      case RemoveSession(slot, session) =>
        if slot in s.slots { RemoveStandsFor(s, slot, session); }
    }
  }

  ghost predicate Reaches(s: State, es: seq<Event>, t: State)
    decreases |es|
  {
    if es == [] then t == s
    else WellFormed(s.limits) && Possible(s, es[0]) && Step(s, es[0]).Some? && Reaches(Step(s, es[0]).value, es[1..], t)
  }

  function Initial(capacity: nat, maxIngress: nat, limits: seq<Limit>): State {
    State(map[], capacity, maxIngress, 0, map[], limits)
  }

  /** The invariant holds in every reachable state. */
  lemma {:induction false} ReachableKeeps(s: State, es: seq<Event>, t: State)
    requires Inv(s) && Reaches(s, es, t)
    ensures Inv(t)
    decreases |es|
  {
    if es != [] {
      StepKeeps(s, es[0]);
      ReachableKeeps(Step(s, es[0]).value, es[1..], t);
    }
  }

  lemma InitialInv(capacity: nat, maxIngress: nat, limits: seq<Limit>)
    requires WellFormed(limits) && AllMatch(limits, map[])
    ensures Inv(Initial(capacity, maxIngress, limits))
  {
    assert Ips(map[]) == map[] && IngressSlots(map[]) == {};
  }

  /** A run in which no session has a second HELLO handled never stops. */
  lemma FirstHelloNeverPanics(s: State, es: seq<Event>, t: State, e: Event)
    requires Inv(s) && Reaches(s, es, t) && (WellFormed(t.limits) ==> Possible(t, e))
    requires e.ReadHello? && e.slot in t.slots ==> !t.slots[e.slot].greeted
    ensures WellFormed(t.limits) && Step(t, e).Some?
  {
    ReachableKeeps(s, es, t);
    StepKeeps(t, e);
  }

  /** A second HELLO does reach the panic: an ingress session created, named, and greeting twice. */
  lemma SecondHelloPanics(ip: Ip, id: NodeId, slot: nat)
    ensures exists es, t ::
              Reaches(Initial(1, 1, []), es, t) && WellFormed(t.limits) && Step(t, ReadHello(slot)).None?
  {
    var s0 := Initial(1, 1, []);
    var e0, e1, e2 := CreateSession(ip, None, slot, true), CompleteHandshake(slot, id), ReadHello(slot);
    assert Step(s0, e0).Some?;
    var s1 := Step(s0, e0).value;
    assert s1.slots[slot] == Session(None, ip, false, false) && s1.index == map[] && s1.limits == [];
    var s2 := Step(s1, e1).value;
    assert s2.slots[slot] == Session(Some(id), ip, false, false) && s2.index == map[] && s2.limits == [];
    var s3 := Step(s2, e2).value;
    assert Registered(s3, slot) && s3.limits == [];
    Chain(s0, e0, e1, e2, s3);
    assert Step(s3, ReadHello(slot)).None?;
  }

  lemma Chain(s: State, e0: Event, e1: Event, e2: Event, t: State)
    requires WellFormed(s.limits) && Possible(s, e0) && Step(s, e0).Some?
    requires WellFormed(Step(s, e0).value.limits) && Possible(Step(s, e0).value, e1)
    requires Step(Step(s, e0).value, e1).Some?
    requires WellFormed(Step(Step(s, e0).value, e1).value.limits) && Possible(Step(Step(s, e0).value, e1).value, e2)
    requires Step(Step(Step(s, e0).value, e1).value, e2) == Some(t)
    ensures Reaches(s, [e0, e1, e2], t)
  {
    assert [e0, e1, e2][1..] == [e1, e2] && [e1, e2][1..] == [e2] && [e2][1..] == [];
    assert Reaches(t, [], t);
    assert Reaches(Step(Step(s, e0).value, e1).value, [e2], t);
    assert Reaches(Step(s, e0).value, [e1, e2], t);
  }

  // ---------------------------------------------------------------- what a session gets and leaves

  /** A live session is registered under an id. */
  ghost predicate Served(s: State, id: NodeId) {
    exists k :: k in s.slots && s.slots[k].id == Some(id) && Registered(s, k)
  }

  /** Whether a session is created depends on the live sessions themselves, not on the state of the counters. */
  lemma CreatedExactly(s: State, ip: Ip, id: Option<NodeId>, slot: nat, started: bool)
    requires Inv(s) && slot !in s.slots
    ensures Create(s, ip, id, slot, started).Some?
    ensures Create(s, ip, id, slot, started).value.1.Created? <==>
              && started && |s.slots| < s.capacity
              && (if id.None? then |IngressSlots(s.slots)| < s.maxIngress else !Served(s, id.value))
              && forall i :: 0 <= i < |s.limits| ==>
                   |Group(Ips(s.slots), s.limits[i].width, ip / s.limits[i].width)| < s.limits[i].quota
  {
    CreateKeeps(s, ip, id, slot, started);
    AddAllMatch(s.limits, Ips(s.slots), slot, ip);
    if id.Some? && id.value in s.index { assert Registered(s, s.index[id.value]); }
  }

  /** A created session is there as asked for, found by its id, and no other session changes. */
  lemma CreatedIsThere(s: State, ip: Ip, id: Option<NodeId>, slot: nat)
    requires Inv(s) && slot !in s.slots
    requires Create(s, ip, id, slot, true).Some? && Create(s, ip, id, slot, true).value.1.Created?
    ensures var t := Create(s, ip, id, slot, true).value.0;
            && t.slots == s.slots[slot := Session(id, ip, id.Some?, false)]
            && (id.Some? ==> Registered(t, slot))
            && (forall k :: k != slot && Registered(s, k) ==> Registered(t, k))
  {
  }

  // ---------------------------------------------------------------- displacement

  /** A HELLO makes the session the one found for its id, and names exactly the one displaced. */
  lemma HelloRegisters(s: State, slot: nat)
    requires Inv(s) && slot in s.slots && !s.slots[slot].originated && s.slots[slot].id.Some?
    requires !Registered(s, slot)
    ensures var id := s.slots[slot].id.value;
            var (t, r) := Update(s, slot, id);
            && t.index == s.index[id := slot]
            && (r.Updated? && r.toDisconnect.Some? ==>
                  r.toDisconnect.value in s.slots && s.slots[r.toDisconnect.value].id == Some(id)
                  && r.toDisconnect.value != slot)
            && (r.Updated? && r.toDisconnect.None? ==> id !in s.index)
            && Registered(t, slot)
  {
  }

  /** Removing a session that was displaced leaves the entry of the newer one. */
  lemma DisplacedRemoval(s: State, slot: nat, newer: nat)
    requires Inv(s) && slot in s.slots && newer != slot && Registered(s, newer)
    ensures Remove(s, slot, s.slots[slot]).Some? && Registered(Remove(s, slot, s.slots[slot]).value, newer)
  {
    RemoveKeeps(s, slot);
  }

  /** After a removal nothing finds the slot, so whoever gets it next starts unregistered. */
  lemma RemovedSlotIsForgotten(s: State, slot: nat)
    requires Inv(s) && slot in s.slots
    ensures Remove(s, slot, s.slots[slot]).Some?
    ensures var index := Remove(s, slot, s.slots[slot]).value.index; forall id :: id in index ==> index[id] != slot
  {
    RemoveKeeps(s, slot);
  }

  // ---------------------------------------------------------------- the object

  class SessionManager {
    var slots: map<nat, Session>
    var index: map<NodeId, nat>
    var ingress: nat
    const capacity: nat
    const maxIngress: nat
    const ipLimit: CompositeLimit

    ghost function Value(): State
      reads this, ipLimit
    {
      State(slots, capacity, maxIngress, ingress, index, ipLimit.limits)
    }

    constructor (capacity: nat, maxIngress: nat, quotas: seq<(nat, nat)>)
      requires forall i :: 0 <= i < |quotas| ==> quotas[i].1 > 0
      ensures Inv(Value()) && Value() == Initial(capacity, maxIngress, ipLimit.limits)
    {
      slots, index, ingress := map[], map[], 0;
      this.capacity, this.maxIngress := capacity, maxIngress;
      ipLimit := new CompositeLimit(quotas);
      new;
      InitialInv(capacity, maxIngress, ipLimit.limits);
    }

    /** The assertion that the limits accept the address holds. */
    method CreateSession(ip: Ip, id: Option<NodeId>, slot: nat, started: bool) returns (r: CreateResult)
      requires Inv(Value()) && slot !in slots
      modifies this, ipLimit
      ensures Inv(Value()) && Some((Value(), r)) == Create(old(Value()), ip, id, slot, started)
    {
      CreateKeeps(Value(), ip, id, slot, started);
      if id.None? && ingress >= maxIngress {
        return MaxIngress;
      }
      if id.Some? && id.value in index {
        return AlreadyExists;
      }
      var allowed := ipLimit.Allows(ip);
      if !allowed {
        return IpLimited;
      }
      if |slots| >= capacity {
        return MaxSessions;
      }
      if !started {
        return NotStarted;
      }
      slots := slots[slot := Session(id, ip, id.Some?, false)];
      if id.Some? {
        index := index[id.value := slot];
      }
      var charged := ipLimit.Charge(ip);
      assert charged;
      if id.None? {
        ingress := ingress + 1;
      }
      return Created(slot);
    }

    /** Reports whether the assertion on the refund holds; for a session that stands for the live one it does. */
    method RemoveSession(slot: nat, session: Session) returns (ok: bool)
      requires Inv(Value())
      modifies this, ipLimit
      ensures ok <==> Remove(old(Value()), slot, session).Some?
      ensures ok ==> Some(Value()) == Remove(old(Value()), slot, session)
      ensures (slot in old(slots) ==> StandsFor(old(Value()), slot, session)) <==> ok && Inv(Value())
    {
      ghost var before := Value();
      if slot in slots {
        RemoveExactly(before, slot, session);
        slots := slots - {slot};
        if session.id.Some? && session.id.value in index && index[session.id.value] == slot {
          index := index - {session.id.value};
        }
        var refunded := ipLimit.Refund(session.ip);
        if !refunded {
          return false;
        }
        if !session.originated {
          ingress := Decremented(ingress);
        }
      }
      return true;
    }

    /**
     The session becomes the one found for the id and the one found before is named, unless it is
     the same one, where the original panics; no other id is affected.  For an ingress session that
     owns the id and has greeted, everything that holds of the sessions goes on holding.
     */
    method UpdateIngressNodeId(slot: nat, id: NodeId) returns (r: UpdateResult)
      modifies this
      ensures r == NotFound <==> slot !in slots
      ensures r == Panicked <==> slot in slots && Found(old(index), id) == Some(slot)
      ensures r.Updated? ==> r.toDisconnect == Found(old(index), id) != Some(slot) && Found(index, id) == Some(slot)
      ensures !r.Updated? ==> Value() == old(Value())
      ensures Value() == old(Value()).(index := index)
      ensures forall x :: x != id ==> Found(index, x) == Found(old(index), x)
      ensures old(Inv(Value())) && slot in slots && Greets(slots[slot], id) ==> Inv(Value())
    {
      if slot !in slots {
        return NotFound;
      }
      if id in index && index[id] == slot {
        return Panicked;
      }
      r := Updated(Found(index, id));
      index := index[id := slot];
    }

    method GetById(id: NodeId) returns (r: Option<Session>)
      requires Inv(Value())
      ensures r.Some? <==> id in index
      ensures r.Some? ==> r.value.id == Some(id)
    {
      if id !in index {
        return None;
      }
      return if index[id] in slots then Some(slots[index[id]]) else None;
    }
  }
}
