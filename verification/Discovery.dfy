/**
 Peer discovery: the queue of nodes to ping, the pings and queries in flight, and
 the rounds of FIND_NODE queries.
 */
module Discovery {
  import opened NeighborChunks
  import opened NodeTable
  import opened Sequences
  import opened Wrappers

  const DISCOVERY_MAX_STEPS := 4

  datatype Ping = Ping(node: NodeEntry, hash: nat, sentAt: Time)

  datatype Find = Find(request: Request, sentAt: Time)

  datatype Disc = Disc(
    maxPing: nat, pings: map<NodeId, Ping>, adding: seq<NodeEntry>, finds: map<NodeId, Find>,
    round: Option<nat>, initiated: bool, asked: set<NodeId>)

  /** Whether the filter lets a node through, and the hash of the packet if it could be sent. */
  datatype Chance = Chance(allowed: bool, hash: Option<nat>)

  // ---------------------------------------------------------------- pings

  predicate Waiting(d: Disc, id: NodeId) { exists i :: 0 <= i < |d.adding| && d.adding[i].id == id }

  /** `try_ping` with `ping`. */
  function TryPing(d: Disc, node: NodeEntry, c: Chance, now: Time): (e: Disc)
    ensures e == d.(pings := e.pings, adding := e.adding)
  {
    if !c.allowed || node.id in d.pings || node.id in d.finds || Waiting(d, node.id) then d
    else if |d.pings| < d.maxPing then
      if c.hash.Some? then d.(pings := d.pings[node.id := Ping(node, c.hash.value, now)]) else d
    else d.(adding := d.adding + [node])
  }

  function TryPingNodes(d: Disc, nodes: seq<NodeEntry>, cs: seq<Chance>, now: Time): (e: Disc)
    requires |cs| == |nodes|
    ensures e == d.(pings := e.pings, adding := e.adding)
  {
    if nodes == [] then d
    else
      var n := |nodes| - 1;
      TryPing(TryPingNodes(d, nodes[..n], cs[..n], now), nodes[n], cs[n], now)
  }

  /** `on_pong`. */
  function OnPong(d: Disc, id: NodeId, hash: nat): Disc {
    if id in d.pings && d.pings[id].hash == hash then d.(pings := d.pings - {id}) else d
  }

  /** `on_neighbours`. */
  function OnNeighbours(d: Disc, id: NodeId, m: Message, cs: seq<Chance>, now: Time): Disc
    requires |cs| == |m.neighbors|
  {
    if id !in d.finds then d
    else
      var (f, got) := Receive(Some(d.finds[id].request), m);
      var e := d.(finds := if f.Some? then d.finds[id := d.finds[id].(request := f.value)] else d.finds - {id});
      if got == [] then e else TryPingNodes(e, got, cs, now)
  }

  /** `check_expired`. */
  function Expired(d: Disc, now: Time, pingTimeout: Time, findTimeout: Time): Disc {
    d.(pings := map id | id in d.pings && !(now - d.pings[id].sentAt > pingTimeout) :: d.pings[id],
       finds := map id | id in d.finds && !(now - d.finds[id].sentAt > findTimeout) :: d.finds[id])
  }

  /** `update_new_nodes`: the last node waiting is tried first. */
  function Refill(d: Disc, cs: seq<Chance>, now: Time): Disc
    requires |cs| == |d.adding|
    decreases |d.adding|
  {
    if |d.pings| >= d.maxPing || d.adding == [] then d
    else
      var n := |d.adding| - 1;
      Refill(TryPing(d.(adding := d.adding[..n]), d.adding[n], cs[n], now), cs[..n], now)
  }

  /** Within the limit; the nodes waiting have distinct ids, none of them in flight. */
  ghost predicate Queued(d: Disc) {
    && |d.pings| <= d.maxPing
    && DistinctIds(d.adding)
    && (forall i :: 0 <= i < |d.adding| ==> d.adding[i].id !in d.pings)
  }

  lemma TryPingKeeps(d: Disc, node: NodeEntry, c: Chance, now: Time)
    requires Queued(d)
    ensures var e := TryPing(d, node, c, now);
            && Queued(e) && |e.adding| <= |d.adding| + 1
            && (|d.pings| < d.maxPing ==> e.adding == d.adding)
  {
    if node.id !in d.pings { assert d.pings[node.id := Ping(node, 0, now)].Keys == d.pings.Keys + {node.id}; }
  }

  /** A node that may and can be pinged ends up in flight or waiting, unless it is being queried. */
  lemma TryPingTakes(d: Disc, node: NodeEntry, c: Chance, now: Time)
    requires c.allowed && c.hash.Some? && node.id !in d.finds
    ensures var e := TryPing(d, node, c, now); node.id in e.pings || Waiting(e, node.id)
  {
    var e := TryPing(d, node, c, now);
    if e.adding == d.adding + [node] { assert e.adding[|d.adding|].id == node.id; }
  }

  lemma TryPingOutcome(d: Disc, node: NodeEntry, c: Chance, now: Time)
    ensures var e := TryPing(d, node, c, now);
            && (Queued(d) ==> Queued(e)) && e.pings - {node.id} == d.pings - {node.id}
            && (c.allowed && c.hash.Some? && node.id !in d.finds ==> node.id in e.pings || Waiting(e, node.id))
            && (node.id in e.pings && node.id !in d.pings ==>
                  c.allowed && |d.pings| < d.maxPing && c.hash == Some(e.pings[node.id].hash) && e.adding == d.adding)
  {
    if Queued(d) { TryPingKeeps(d, node, c, now); }
    if c.allowed && c.hash.Some? && node.id !in d.finds { TryPingTakes(d, node, c, now); }
  }

  lemma {:induction false} TryPingNodesKeeps(d: Disc, nodes: seq<NodeEntry>, cs: seq<Chance>, now: Time)
    requires Queued(d) && |cs| == |nodes|
    ensures var e := TryPingNodes(d, nodes, cs, now);
            Queued(e) && e == d.(pings := e.pings, adding := e.adding)
  {
    if nodes != [] {
      var n := |nodes| - 1;
      TryPingNodesKeeps(d, nodes[..n], cs[..n], now);
      TryPingKeeps(TryPingNodes(d, nodes[..n], cs[..n], now), nodes[n], cs[n], now);
    }
  }

  /** Refilling keeps the queue in order, and leaves nodes waiting only when the limit is reached. */
  lemma {:induction false} RefillKeeps(d: Disc, cs: seq<Chance>, now: Time)
    requires Queued(d) && |cs| == |d.adding|
    ensures var e := Refill(d, cs, now);
            && Queued(e) && e.adding <= d.adding
            && (e.adding == [] || |e.pings| == e.maxPing)
            && e == d.(pings := e.pings, adding := e.adding)
    decreases |d.adding|
  {
    if |d.pings| < d.maxPing && d.adding != [] {
      var n := |d.adding| - 1;
      var popped := d.(adding := d.adding[..n]);
      TryPingKeeps(popped, d.adding[n], cs[n], now);
      RefillKeeps(TryPing(popped, d.adding[n], cs[n], now), cs[..n], now);
    }
  }

  lemma RefillOnce(d: Disc, cs: seq<Chance>, now: Time)
    requires Queued(d) && |cs| == |d.adding| && |d.pings| < d.maxPing && d.adding != []
    ensures var n := |d.adding| - 1;
            var e := TryPing(d.(adding := d.adding[..n]), d.adding[n], cs[n], now);
            && Queued(e) && e.adding == d.adding[..n] && e.maxPing == d.maxPing
            && Refill(d, cs, now) == Refill(e, cs[..n], now)
  {
    var n := |d.adding| - 1;
    TryPingKeeps(d.(adding := d.adding[..n]), d.adding[n], cs[n], now);
  }

  /** Every query in flight still misses a chunk, and has received only announced ones. */
  ghost predicate Collecting(d: Disc) {
    forall id :: id in d.finds ==> Sound(d.finds[id].request) && !Completed(d.finds[id].request)
  }

  /** A valid, new chunk of the announced number, after which no chunk is missing. */
  predicate Completes(r: Request, m: Message) {
    && ValidMessage(m) && (r.numChunks == 0 || r.numChunks == m.numChunks) && m.index !in r.received
    && All(m.numChunks, r.received + {m.index})
  }

  lemma CompletesExactly(r: Request, m: Message)
    requires Sound(r)
    ensures Receive(Some(r), m).0.None? <==> Completes(r, m)
  {
    var (t, u) := Updated(r, m);
    if u == New { CompletedExactly(t); }
  }

  lemma NeighboursEnd(d: Disc, id: NodeId, m: Message, cs: seq<Chance>, now: Time)
    requires |cs| == |m.neighbors|
    ensures var e := OnNeighbours(d, id, m, cs, now);
            && (id !in d.finds ==> e == d) && e.finds - {id} == d.finds - {id}
            && (id in d.finds && Sound(d.finds[id].request) ==>
                  (id !in e.finds <==> Completes(d.finds[id].request, m)))
  {
    if id in d.finds && Sound(d.finds[id].request) { CompletesExactly(d.finds[id].request, m); }
  }

  lemma NeighboursKeeps(d: Disc, id: NodeId, m: Message, cs: seq<Chance>, now: Time)
    requires Queued(d) && Collecting(d) && |cs| == |m.neighbors|
    ensures var e := OnNeighbours(d, id, m, cs, now);
            Queued(e) && Collecting(e) && e == d.(pings := e.pings, adding := e.adding, finds := e.finds)
  {
    if id in d.finds {
      ReceiveSound(Some(d.finds[id].request), m);
      var (f, got) := Receive(Some(d.finds[id].request), m);
      var e := d.(finds := if f.Some? then d.finds[id := d.finds[id].(request := f.value)] else d.finds - {id});
      assert Collecting(e);
      if got != [] { TryPingNodesKeeps(e, got, cs, now); }
    }
  }

  lemma ExpiredKeeps(d: Disc, now: Time, pingTimeout: Time, findTimeout: Time)
    requires Queued(d) && Collecting(d)
    ensures Queued(Expired(d, now, pingTimeout, findTimeout)) && Collecting(Expired(d, now, pingTimeout, findTimeout))
  {
    var e := Expired(d, now, pingTimeout, findTimeout);
    assert e.pings.Keys <= d.pings.Keys;
    SubsetSize(e.pings.Keys, d.pings.Keys);
  }

  lemma {:induction false} SubsetSize(a: set<NodeId>, b: set<NodeId>)
    requires a <= b
    ensures |a| <= |b|
  {
    if x :| x in a { SubsetSize(a - {x}, b - {x}); }
  }

  // ---------------------------------------------------------------- rounds of queries

  function Unasked(nodes: seq<NodeEntry>, asked: set<NodeId>): seq<NodeEntry> {
    if nodes == [] then []
    else
      var n := |nodes| - 1;
      Unasked(nodes[..n], asked) + if nodes[n].id in asked then [] else [nodes[n]]
  }

  /** `discover_with_nodes`: the new state and the ids that were sent FIND_NODE. */
  function Ask(d: Disc, nodes: seq<NodeEntry>, sent: seq<bool>, now: Time): (Disc, seq<NodeId>)
    requires |sent| == |nodes|
  {
    if nodes == [] then (d, [])
    else
      var n := |nodes| - 1;
      var (e, ids) := Ask(d, nodes[..n], sent[..n], now);
      if sent[n] then
        (e.(finds := e.finds[nodes[n].id := Find(NEW_REQUEST, now)], asked := e.asked + {nodes[n].id}),
         ids + [nodes[n].id])
      else (e, ids)
  }

  function Start(d: Disc): Disc { d.(round := Some(0), asked := {}) }

  function Stop(d: Disc): Disc { d.(round := None, asked := {}) }

  /** What one round samples and whether each packet can be sent; a switched-off kind samples nothing. */
  datatype Sample = Sample(nodes: seq<NodeEntry>, sent: seq<bool>)

  /** Samples have distinct ids, and `sent` speaks of the nodes that are left to ask. */
  ghost predicate Fair(d: Disc, s: Sample) {
    DistinctIds(s.nodes) && |s.sent| == |Unasked(s.nodes, d.asked)|
  }

  function AskSample(d: Disc, s: Sample, now: Time): (Disc, seq<NodeId>)
    requires |s.sent| == |Unasked(s.nodes, d.asked)|
  {
    Ask(d, Unasked(s.nodes, d.asked), s.sent, now)
  }

  ghost predicate FairRound(d: Disc, general: Sample, archive: Sample, now: Time) {
    Fair(d, general) && Fair(AskSample(d, general, now).0, archive)
  }

  /** `discover`, with the ids sent FIND_NODE. */
  function Discover(d: Disc, general: Sample, archive: Sample, now: Time): (Disc, seq<NodeId>)
    requires |general.sent| == |Unasked(general.nodes, d.asked)|
    requires |archive.sent| == |Unasked(archive.nodes, AskSample(d, general, now).0.asked)|
  {
    if d.round.None? then (d, [])
    else if d.round.value == DISCOVERY_MAX_STEPS then (Stop(d), [])
    else
      var (e, first) := AskSample(d, general, now);
      var (f, second) := AskSample(e, archive, now);
      if |first| + |second| == 0 then (Stop(f), [])
      else (f.(round := Some(d.round.value + 1)), first + second)
  }

  lemma NoRepeatsAppended(log: seq<NodeId>, ids: seq<NodeId>)
    requires NoRepeats(log) && NoRepeats(ids) && Elements(log) !! Elements(ids)
    ensures NoRepeats(log + ids) && Elements(log + ids) == Elements(log) + Elements(ids)
  {
    forall i, j | 0 <= i < j < |log + ids| ensures (log + ids)[i] != (log + ids)[j] {
      if i < |log| <= j { assert log[i] in Elements(log) && ids[j - |log|] in Elements(ids); }
    }
  }

  lemma {:induction false} UnaskedIsFresh(nodes: seq<NodeEntry>, asked: set<NodeId>)
    requires DistinctIds(nodes)
    ensures var u := Unasked(nodes, asked);
            && DistinctIds(u)
            && (forall i :: 0 <= i < |u| ==> u[i] in nodes && u[i].id !in asked)
  {
    if nodes != [] {
      var n := |nodes| - 1;
      UnaskedIsFresh(nodes[..n], asked);
      var u := Unasked(nodes[..n], asked);
      forall i | 0 <= i < |u| ensures u[i].id != nodes[n].id {
        assert u[i] in nodes[..n];
      }
    }
  }

  lemma {:induction false} AskSends(d: Disc, nodes: seq<NodeEntry>, sent: seq<bool>, now: Time)
    requires |sent| == |nodes| && DistinctIds(nodes)
    requires forall i :: 0 <= i < |nodes| ==> nodes[i].id !in d.asked
    ensures var (e, ids) := Ask(d, nodes, sent, now);
            && NoRepeats(ids)
            && (forall i :: i in ids ==> i !in d.asked && exists k :: 0 <= k < |nodes| && nodes[k].id == i)
            && e == d.(finds := e.finds, asked := d.asked + Elements(ids))
            && (forall k :: 0 <= k < |nodes| ==> (nodes[k].id in ids <==> sent[k]))
            && (forall i :: i in ids ==> i in e.finds && e.finds[i] == Find(NEW_REQUEST, now))
  {
    if nodes != [] {
      var n := |nodes| - 1;
      AskSends(d, nodes[..n], sent[..n], now);
      var (e, ids) := Ask(d, nodes[..n], sent[..n], now);
      forall i | i in ids ensures i != nodes[n].id && exists k :: 0 <= k < |nodes| && nodes[k].id == i {
        var k :| 0 <= k < n && nodes[..n][k].id == i;
        assert nodes[k].id == i;
      }
    }
  }

  /** Within one round nobody is asked twice, nor anybody asked before. */
  lemma DiscoverAsks(d: Disc, general: Sample, archive: Sample, now: Time)
    requires FairRound(d, general, archive, now)
    ensures var (e, ids) := Discover(d, general, archive, now);
            && NoRepeats(ids) && (forall x :: x in ids ==> x !in d.asked)
            && (ids != [] ==> e.asked == d.asked + Elements(ids))
  {
    AskFresh(d, general, now);
    var (e, first) := AskSample(d, general, now);
    AskFresh(e, archive, now);
    var (f, second) := AskSample(e, archive, now);
    assert Elements(first) !! Elements(second);
    NoRepeatsAppended(first, second);
  }

  lemma AskFresh(d: Disc, s: Sample, now: Time)
    requires Fair(d, s)
    ensures var (e, ids) := AskSample(d, s, now);
            NoRepeats(ids) && Elements(ids) !! d.asked && e.asked == d.asked + Elements(ids)
  {
    UnaskedIsFresh(s.nodes, d.asked);
    AskSends(d, Unasked(s.nodes, d.asked), s.sent, now);
  }

  /** The asked ids of the process so far, and how many rounds have asked anything. */
  datatype World = World(d: Disc, log: seq<NodeId>, queries: nat)

  /** While a process runs, the round counts its querying rounds and the asked set is its log. */
  ghost predicate Logged(w: World) {
    && NoRepeats(w.log) && w.queries <= DISCOVERY_MAX_STEPS
    && (w.d.round.Some? ==> w.d.round.value == w.queries && w.d.asked == Elements(w.log))
  }

  lemma AskSampleSends(d: Disc, s: Sample, now: Time, log: seq<NodeId>)
    requires Fair(d, s) && NoRepeats(log) && d.asked == Elements(log)
    ensures var (e, ids) := AskSample(d, s, now);
            NoRepeats(log + ids) && e.asked == Elements(log + ids)
  {
    UnaskedIsFresh(s.nodes, d.asked);
    AskSends(d, Unasked(s.nodes, d.asked), s.sent, now);
    NoRepeatsAppended(log, AskSample(d, s, now).1);
  }

  /** One round: at most one more query round, and no id asked before in this process is asked again. */
  lemma DiscoverKeeps(w: World, general: Sample, archive: Sample, now: Time)
    requires Logged(w) && FairRound(w.d, general, archive, now)
    ensures var (e, ids) := Discover(w.d, general, archive, now);
            Logged(World(e, w.log + ids, if ids == [] then w.queries else w.queries + 1))
  {
    if w.d.round.Some? && w.d.round.value != DISCOVERY_MAX_STEPS {
      AskSampleSends(w.d, general, now, w.log);
      var (e, first) := AskSample(w.d, general, now);
      AskSampleSends(e, archive, now, w.log + first);
      var second := AskSample(e, archive, now).1;
      assert w.log + first + second == w.log + (first + second);
    }
    assert w.log + [] == w.log;
  }

  // ---------------------------------------------------------------- every run

  datatype Event =
    | PingNodes(nodes: seq<NodeEntry>, cs: seq<Chance>, now: Time)
    | Pong(id: NodeId, hash: nat)
    | Neighbours(id: NodeId, m: Message, cs: seq<Chance>, now: Time)
    | Round(cs: seq<Chance>, general: Sample, archive: Sample, now: Time, pingTimeout: Time, findTimeout: Time)
    | Refresh

  /** `refresh`. */
  function StartedIfIdle(w: World): World {
    if w.d.round.None? then World(Start(w.d), [], 0) else w
  }

  /** The first half of `round`: what has expired goes, and waiting nodes are pinged. */
  function Tidied(d: Disc, cs: seq<Chance>, now: Time, pingTimeout: Time, findTimeout: Time): Disc
    requires |cs| == |d.adding|
  {
    Refill(Expired(d, now, pingTimeout, findTimeout), cs, now)
  }

  ghost predicate Possible(w: World, e: Event) {
    match e
    case PingNodes(nodes, cs, _) => |cs| == |nodes|
    case Neighbours(_, m, cs, _) => |cs| == |m.neighbors|
    case Round(cs, general, archive, now, pt, ft) =>
      |cs| == |w.d.adding| && FairRound(Tidied(w.d, cs, now, pt, ft), general, archive, now)
    case Pong(_, _) => true
    case Refresh => true
  }

  ghost function Step(w: World, e: Event): World
    requires Possible(w, e)
  {
    match e
    case PingNodes(nodes, cs, now) => w.(d := TryPingNodes(w.d, nodes, cs, now))
    case Pong(id, hash) => w.(d := OnPong(w.d, id, hash))
    case Neighbours(id, m, cs, now) => w.(d := OnNeighbours(w.d, id, m, cs, now))
    case Refresh => StartedIfIdle(w)
    case Round(cs, general, archive, now, pt, ft) =>
      var d := Tidied(w.d, cs, now, pt, ft);
      if d.round.Some? then
        var (f, ids) := Discover(d, general, archive, now);
        World(f, w.log + ids, if ids == [] then w.queries else w.queries + 1)
      else if d.pings == map[] && !d.initiated then StartedIfIdle(w.(d := d.(initiated := true)))
      else w.(d := d)
  }

  ghost predicate Inv(w: World) { Queued(w.d) && Collecting(w.d) && Logged(w) }

  lemma RoundKeeps(w: World, cs: seq<Chance>, general: Sample, archive: Sample, now: Time, pt: Time, ft: Time)
    requires Inv(w) && Possible(w, Round(cs, general, archive, now, pt, ft))
    ensures var v := Step(w, Round(cs, general, archive, now, pt, ft)); Inv(v)
  {
    ExpiredKeeps(w.d, now, pt, ft);
    RefillKeeps(Expired(w.d, now, pt, ft), cs, now);
    var d := Tidied(w.d, cs, now, pt, ft);
    DiscoverKeeps(w.(d := d), general, archive, now);
    DiscoverLeavesPings(d, general, archive, now);
  }

  lemma {:induction false} AskLeavesPings(d: Disc, nodes: seq<NodeEntry>, sent: seq<bool>, now: Time)
    requires |sent| == |nodes| && Collecting(d)
    ensures var e := Ask(d, nodes, sent, now).0; e == d.(finds := e.finds, asked := e.asked) && Collecting(e)
  {
    if nodes != [] { AskLeavesPings(d, nodes[..|nodes| - 1], sent[..|nodes| - 1], now); }
  }

  lemma DiscoverLeavesPings(d: Disc, general: Sample, archive: Sample, now: Time)
    requires FairRound(d, general, archive, now) && Collecting(d)
    ensures var e := Discover(d, general, archive, now).0;
            e.pings == d.pings && e.adding == d.adding && e.maxPing == d.maxPing && Collecting(e)
  {
    AskLeavesPings(d, Unasked(general.nodes, d.asked), general.sent, now);
    var e := AskSample(d, general, now).0;
    AskLeavesPings(e, Unasked(archive.nodes, e.asked), archive.sent, now);
  }

  lemma StepKeeps(w: World, e: Event)
    requires Inv(w) && Possible(w, e)
    ensures Inv(Step(w, e))
  {
    match e {
      case PingNodes(nodes, cs, now) => TryPingNodesKeeps(w.d, nodes, cs, now);
      case Pong(id, hash) =>
        SubsetSize((w.d.pings - {id}).Keys, w.d.pings.Keys);
      case Neighbours(id, m, cs, now) => NeighboursKeeps(w.d, id, m, cs, now);
      case Round(cs, general, archive, now, pt, ft) => RoundKeeps(w, cs, general, archive, now, pt, ft);
      case Refresh =>
    }
  }

  ghost predicate Reaches(w: World, es: seq<Event>, v: World)
    decreases |es|
  {
    if es == [] then v == w else Possible(w, es[0]) && Reaches(Step(w, es[0]), es[1..], v)
  }

  /**
   In every run: pings stay within their limit, waiting nodes are distinct and not in
   flight, and each process asks in at most four rounds and nobody twice.
   */
  lemma {:induction false} ReachableKeeps(w: World, es: seq<Event>, v: World)
    requires Inv(w) && Reaches(w, es, v)
    ensures Inv(v)
    ensures |v.d.pings| <= v.d.maxPing && NoRepeats(v.log) && v.queries <= DISCOVERY_MAX_STEPS
    decreases |es|
  {
    if es != [] {
      StepKeeps(w, es[0]);
      ReachableKeeps(Step(w, es[0]), es[1..], v);
    }
  }

  lemma InitialKeeps(maxPing: nat)
    ensures var w := World(Disc(maxPing, map[], [], map[], None, false, {}), [], 0); Inv(w)
  {
  }

  // ---------------------------------------------------------------- the object

  class Discovery {
    const maxPing: nat
    var pings: map<NodeId, Ping>
    var adding: seq<NodeEntry>
    var finds: map<NodeId, Find>
    var round: Option<nat>
    var initiated: bool
    var asked: set<NodeId>

    ghost function Value(): Disc
      reads this
    {
      Disc(maxPing, pings, adding, finds, round, initiated, asked)
    }

    constructor (maxNodesPing: nat)
      ensures Value() == Disc(maxNodesPing, map[], [], map[], None, false, {})
    {
      maxPing, pings, adding, finds := maxNodesPing, map[], [], map[];
      round, initiated, asked := None, false, {};
    }

    /**
     The limit and the queue are kept; a node that may and can be pinged ends up in flight or
     waiting, in flight only below the limit; nothing is done about any other node.
     */
    method TryPingNode(node: NodeEntry, c: Chance, now: Time)
      modifies this
      ensures Value() == TryPing(old(Value()), node, c, now)
      ensures Queued(old(Value())) ==> Queued(Value())
      ensures Value() == old(Value()).(pings := pings, adding := adding) && pings - {node.id} == old(pings) - {node.id}
      ensures c.allowed && c.hash.Some? && node.id !in finds ==> node.id in pings || Waiting(Value(), node.id)
      ensures node.id in pings && node.id !in old(pings) ==>
                c.allowed && |old(pings)| < maxPing && c.hash == Some(pings[node.id].hash) && adding == old(adding)
    {
      ghost var before := Value();
      TryPingOutcome(before, node, c, now);
      if !c.allowed || node.id in pings || node.id in finds {
        return;
      }
      if exists i :: 0 <= i < |adding| && adding[i].id == node.id {
        assert Waiting(Value(), node.id);
        return;
      }
      if |pings| < maxPing {
        if c.hash.Some? {
          pings := pings[node.id := Ping(node, c.hash.value, now)];
        }
      } else {
        adding := adding + [node];
      }
      assert Value() == TryPing(before, node, c, now);
    }

    method TryPingAll(nodes: seq<NodeEntry>, cs: seq<Chance>, now: Time)
      requires |cs| == |nodes|
      modifies this
      ensures Value() == TryPingNodes(old(Value()), nodes, cs, now)
    {
      for i := 0 to |nodes|
        invariant Value() == TryPingNodes(old(Value()), nodes[..i], cs[..i], now)
      {
        assert nodes[..i + 1][..i] == nodes[..i] && cs[..i + 1][..i] == cs[..i];
        TryPingNode(nodes[i], cs[i], now);
      }
      assert nodes[..|nodes|] == nodes && cs[..|nodes|] == cs;
    }

    /** A ping ends exactly by the awaited hash, and nothing else changes. */
    method ReceivePong(id: NodeId, hash: nat)
      modifies this
      ensures id in pings <==> id in old(pings) && old(pings)[id].hash != hash
      ensures forall x :: x in pings ==> x in old(pings) && pings[x] == old(pings)[x]
      ensures forall x :: x != id && x in old(pings) ==> x in pings
      ensures Value() == old(Value()).(pings := pings) == OnPong(old(Value()), id, hash)
      ensures Queued(old(Value())) ==> Queued(Value())
    {
      SubsetSize((pings - {id}).Keys, pings.Keys);
      if id in pings && pings[id].hash == hash {
        pings := pings - {id};
      }
    }

    /**
     A request ends exactly by a new chunk after which none is missing; no other request changes,
     and queue, limit and requests stay in order.
     */
    method ReceiveNeighbours(id: NodeId, m: Message, cs: seq<Chance>, now: Time)
      requires |cs| == |m.neighbors|
      modifies this
      ensures Value() == OnNeighbours(old(Value()), id, m, cs, now)
      ensures id !in old(finds) ==> Value() == old(Value())
      ensures finds - {id} == old(finds) - {id}
      ensures Queued(old(Value())) && Collecting(old(Value())) ==> Queued(Value()) && Collecting(Value())
      ensures Collecting(old(Value())) && id in old(finds) ==>
                (id !in finds <==> Completes(old(finds)[id].request, m))
    {
      if Queued(Value()) && Collecting(Value()) { NeighboursKeeps(Value(), id, m, cs, now); }
      NeighboursEnd(Value(), id, m, cs, now);
      if id !in finds {
        return;
      }
      var (request, result) := Updated(finds[id].request, m);
      if result != New {
        finds := finds[id := finds[id].(request := request)];
        return;
      }
      if Completed(request) {
        finds := finds - {id};
      } else {
        finds := finds[id := finds[id].(request := request)];
      }
      TryPingAll(m.neighbors, cs, now);
    }

    /** Terminates because every pass takes a node off the queue and puts none back. */
    method UpdateNewNodes(cs: seq<Chance>, now: Time)
      requires Queued(Value()) && |cs| == |adding|
      modifies this
      ensures Value() == Refill(old(Value()), cs, now)
      ensures Queued(Value()) && (adding == [] || |pings| == maxPing)
    {
      RefillKeeps(Value(), cs, now);
      ghost var left := cs;
      while |pings| < maxPing && adding != []
        invariant Queued(Value()) && |left| == |adding| <= |cs| && left == cs[..|left|]
        invariant Refill(Value(), left, now) == Refill(old(Value()), cs, now)
        decreases |adding|
      {
        var n := |adding| - 1;
        RefillOnce(Value(), left, now);
        TryLast(cs[n], now);
        left := left[..n];
      }
    }

    /** One pass: the node waiting last is tried. */
    method TryLast(c: Chance, now: Time)
      requires adding != []
      modifies this
      ensures var d, n := old(Value()), |old(adding)| - 1;
              Value() == TryPing(d.(adding := d.adding[..n]), d.adding[n], c, now)
    {
      var n := |adding| - 1;
      var next := adding[n];
      adding := adding[..n];
      TryPingNode(next, c, now);
    }

    method DiscoverWithNodes(nodes: seq<NodeEntry>, sent: seq<bool>, now: Time) returns (ids: seq<NodeId>)
      requires |sent| == |nodes|
      modifies this
      ensures (Value(), ids) == Ask(old(Value()), nodes, sent, now)
    {
      ids := [];
      for i := 0 to |nodes|
        invariant (Value(), ids) == Ask(old(Value()), nodes[..i], sent[..i], now)
      {
        assert nodes[..i + 1][..i] == nodes[..i] && sent[..i + 1][..i] == sent[..i];
        if sent[i] {
          finds := finds[nodes[i].id := Find(NEW_REQUEST, now)];
          asked := asked + {nodes[i].id};
          ids := ids + [nodes[i].id];
        }
      }
      assert nodes[..|nodes|] == nodes && sent[..|nodes|] == sent;
    }

    /**
     A round asks nobody twice and nobody asked before; it counts exactly if it asked somebody,
     and otherwise ends the process; there is no round after the fourth.
     */
    method DiscoverRound(general: Sample, archive: Sample, now: Time) returns (ids: seq<NodeId>)
      requires |general.sent| == |Unasked(general.nodes, asked)|
      requires |archive.sent| == |Unasked(archive.nodes, AskSample(Value(), general, now).0.asked)|
      modifies this
      ensures (Value(), ids) == Discover(old(Value()), general, archive, now)
      ensures old(round).None? ==> ids == [] && Value() == old(Value())
      ensures old(round).Some? ==>
                && (old(round).value == DISCOVERY_MAX_STEPS ==> ids == [])
                && round == (if ids == [] then None else Some(old(round).value + 1))
                && (ids == [] ==> asked == {})
      ensures FairRound(old(Value()), general, archive, now) ==>
                && NoRepeats(ids) && (forall x :: x in ids ==> x !in old(asked))
                && (ids != [] ==> asked == old(asked) + Elements(ids))
    {
      if FairRound(Value(), general, archive, now) { DiscoverAsks(Value(), general, archive, now); }
      if round.None? {
        return [];
      }
      if round.value == DISCOVERY_MAX_STEPS {
        round, asked := None, {};
        return [];
      }
      var step := round.value;
      var first := DiscoverWithNodes(Unasked(general.nodes, asked), general.sent, now);
      var second := DiscoverWithNodes(Unasked(archive.nodes, asked), archive.sent, now);
      if |first| + |second| == 0 {
        round, asked := None, {};
        return [];
      }
      round := Some(step + 1);
      return first + second;
    }
  }
}
