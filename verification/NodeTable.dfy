/**
 The table of known peers: one vector of nodes for each reputation level, and a
 hand-kept index from node id to level and position.
 */
module NodeTable {
  import opened Wrappers

  type NodeId = nat
  type Time = nat
  type Ip = nat

  datatype NodeEndpoint = NodeEndpoint(ip: Ip, tcpPort: nat, udpPort: nat)

  datatype NodeEntry = NodeEntry(id: NodeId, endpoint: NodeEndpoint)

  datatype NodeContact = Success(time: Time) | Failure(time: Time) | Demoted(time: Time)

  datatype Node = Node(
    id: NodeId, endpoint: NodeEndpoint,
    lastContact: Option<NodeContact>, lastConnected: Option<NodeContact>,
    streamToken: Option<nat>, tags: map<string, string>)

  datatype Reputation = SuccessLevel | UnknownLevel | FailureLevel | DemotedLevel

  datatype Index = Index(level: Reputation, pos: nat)

  function NewNode(id: NodeId, endpoint: NodeEndpoint): Node {
    Node(id, endpoint, None, None, None, map[])
  }

  function NodeReputation(contact: Option<NodeContact>): Reputation {
    match contact
    case None => UnknownLevel
    case Some(Success(_)) => SuccessLevel
    case Some(Failure(_)) => FailureLevel
    case Some(Demoted(_)) => DemotedLevel
  }

  // ---------------------------------------------------------------- levels and index

  datatype Store = Store(levels: map<Reputation, seq<Node>>, index: map<NodeId, Index>)

  const NO_NODES := Store(map[SuccessLevel := [], UnknownLevel := [], FailureLevel := [], DemotedLevel := []], map[])

  ghost predicate Total(levels: map<Reputation, seq<Node>>) {
    forall r: Reputation :: r in levels
  }

  predicate InRange(s: Store, x: Index) {
    x.level in s.levels && x.pos < |s.levels[x.level]|
  }

  function At(s: Store, x: Index): Node
    requires InRange(s, x)
  {
    s.levels[x.level][x.pos]
  }

  /** Index and vectors are mutually inverse, and every node is at the level its last contact names. */
  ghost predicate Valid(s: Store) {
    && Total(s.levels)
    && (forall id :: id in s.index ==> InRange(s, s.index[id]) && At(s, s.index[id]).id == id)
    && (forall x: Index :: InRange(s, x) ==> Placed(s, x))
  }

  ghost predicate Placed(s: Store, x: Index)
    requires InRange(s, x)
  {
    var n := At(s, x);
    n.id in s.index && s.index[n.id] == x && NodeReputation(n.lastContact) == x.level
  }

  /** The table as a map from id to node. */
  ghost function View(s: Store): (m: map<NodeId, Node>)
    requires Valid(s)
    ensures m.Keys == s.index.Keys
  {
    map id | id in s.index :: At(s, s.index[id])
  }

  lemma NoNodesValid()
    ensures Valid(NO_NODES) && View(NO_NODES) == map[]
  {
    forall r: Reputation ensures r in NO_NODES.levels && NO_NODES.levels[r] == [] {
      match r case SuccessLevel => case UnknownLevel => case FailureLevel => case DemotedLevel =>
    }
  }

  /** `add_to_reputation_level`. */
  function Added(s: Store, level: Reputation, node: Node): Store
    requires level in s.levels
  {
    Store(s.levels[level := s.levels[level] + [node]], s.index[node.id := Index(level, |s.levels[level]|)])
  }

  /** `remove_from_reputation_level`: the last node of the level takes the place of the removed one. */
  function Removed(s: Store, x: Index): Store
    requires InRange(s, x)
  {
    var nodes := s.levels[x.level];
    var last := |nodes| - 1;
    if x.pos == last then
      Store(s.levels[x.level := nodes[..last]], s.index - {nodes[last].id})
    else
      Store(s.levels[x.level := nodes[..last][x.pos := nodes[last]]],
            (s.index - {nodes[x.pos].id})[nodes[last].id := x])
  }

  /** A node rewritten where it is. */
  function Rewritten(s: Store, x: Index, node: Node): Store
    requires InRange(s, x)
  {
    s.(levels := s.levels[x.level := s.levels[x.level][x.pos := node]])
  }

  lemma AddedValid(s: Store, level: Reputation, node: Node)
    requires Valid(s) && node.id !in s.index && NodeReputation(node.lastContact) == level
    ensures Valid(Added(s, level, node))
    ensures View(Added(s, level, node)) == View(s)[node.id := node]
  {
    var t := Added(s, level, node);
    forall x: Index | InRange(t, x) ensures Placed(t, x) {
      if x != Index(level, |s.levels[level]|) {
        assert InRange(s, x) && At(t, x) == At(s, x);
        assert Placed(s, x);
      }
    }
    forall id | id in t.index ensures InRange(t, t.index[id]) && At(t, t.index[id]).id == id {
      if id != node.id { assert At(t, s.index[id]) == At(s, s.index[id]); }
    }
  }

  lemma RewrittenValid(s: Store, x: Index, node: Node)
    requires Valid(s) && InRange(s, x)
    requires node.id == At(s, x).id && NodeReputation(node.lastContact) == x.level
    ensures Valid(Rewritten(s, x, node))
    ensures View(Rewritten(s, x, node)) == View(s)[node.id := node]
  {
    var t := Rewritten(s, x, node);
    assert Placed(s, x);
    forall y: Index | InRange(t, y) ensures Placed(t, y) {
      assert InRange(s, y) && Placed(s, y);
      assert At(t, y) == if y == x then node else At(s, y);
    }
    forall id | id in t.index ensures InRange(t, t.index[id]) && At(t, t.index[id]).id == id {
      assert InRange(s, s.index[id]);
    }
  }

  /** Removing keeps the index exact, although another node moves. */
  lemma RemovedValid(s: Store, x: Index)
    requires Valid(s) && InRange(s, x)
    ensures Valid(Removed(s, x))
    ensures View(Removed(s, x)) == View(s) - {At(s, x).id}
  {
    var t := Removed(s, x);
    RemovedPlaced(s, x);
    RemovedIndexed(s, x);
    assert t.index.Keys == s.index.Keys - {At(s, x).id} by {
      assert Placed(s, x) && Placed(s, Index(x.level, |s.levels[x.level]| - 1));
    }
  }

  /** The index still knows the last node of a level once another node of that level has left it. */
  lemma TailStaysIndexed(s: Store, x: Index)
    requires Valid(s) && InRange(s, x) && x.pos < |s.levels[x.level]| - 1
    ensures var nodes := s.levels[x.level]; nodes[|nodes| - 1].id in s.index - {nodes[x.pos].id}
  {
    var tail := Index(x.level, |s.levels[x.level]| - 1);
    assert Placed(s, x) && Placed(s, tail);
  }

  lemma RemovedPlaced(s: Store, x: Index)
    requires Valid(s) && InRange(s, x)
    ensures forall y: Index :: InRange(Removed(s, x), y) ==> Placed(Removed(s, x), y)
  {
    var t, nodes := Removed(s, x), s.levels[x.level];
    var tail := Index(x.level, |nodes| - 1);
    assert Placed(s, x) && Placed(s, tail);
    forall y: Index | InRange(t, y) ensures Placed(t, y) {
      assert InRange(s, y) && Placed(s, y) && y != tail;
      assert At(t, y) == if y == x then At(s, tail) else At(s, y);
    }
  }

  lemma RemovedIndexed(s: Store, x: Index)
    requires Valid(s) && InRange(s, x)
    ensures var t := Removed(s, x);
            forall id :: id in t.index ==>
              id in s.index && InRange(t, t.index[id]) && At(t, t.index[id]) == At(s, s.index[id])
  {
    var t, nodes := Removed(s, x), s.levels[x.level];
    var tail := Index(x.level, |nodes| - 1);
    assert Placed(s, x) && Placed(s, tail);
    forall id | id in t.index
      ensures id in s.index && InRange(t, t.index[id]) && At(t, t.index[id]) == At(s, s.index[id])
    {
      if id != At(s, tail).id {
        assert t.index[id] == s.index[id] && s.index[id] != x && s.index[id] != tail;
      }
    }
  }

  // ---------------------------------------------------------------- the same operations on a plain map

  type Nodes = map<NodeId, Node>

  /** Ids name the nodes they map to. */
  ghost predicate Keyed(m: Nodes) {
    forall id :: id in m ==> m[id].id == id
  }

  function Refreshed(m: Nodes, node: Node): Node {
    if node.id in m then m[node.id].(lastContact := node.lastContact, endpoint := node.endpoint) else node
  }

  function MapUpdateLastContact(m: Nodes, node: Node): Nodes {
    m[node.id := Refreshed(m, node)]
  }

  function MapAddNode(m: Nodes, node: Node, preserveLastContact: bool): Nodes {
    m[node.id := if preserveLastContact && node.id in m then node.(lastContact := m[node.id].lastContact) else node]
  }

  /** A demoted node keeps its last contact unless it is demoted again. */
  function MapNoteUnsuccess(m: Nodes, id: NodeId, byConnection: bool, contact: Option<NodeContact>): Nodes {
    if id !in m then m
    else
      var n := m[id];
      var sticky := NodeReputation(n.lastContact) == DemotedLevel && NodeReputation(contact) != DemotedLevel;
      m[id := n.(lastContact := if sticky then n.lastContact else contact,
                 lastConnected := if byConnection then contact else n.lastConnected)]
  }

  function MapNoteSuccess(m: Nodes, id: NodeId, byConnection: bool, token: Option<nat>, now: Time): Nodes {
    if id !in m then m
    else
      var n := m[id];
      var contact := Some(Success(now));
      m[id := n.(lastContact := if NodeReputation(n.lastContact) == DemotedLevel then n.lastContact else contact,
                 lastConnected := if byConnection then contact else n.lastConnected,
                 streamToken := if byConnection && token.Some? then token else n.streamToken)]
  }

  function MapSetTag(m: Nodes, id: NodeId, key: string, value: string): Nodes {
    if id in m then m[id := m[id].(tags := m[id].tags[key := value])] else m
  }

  // ---------------------------------------------------------------- the object

  lemma PutBack(m: Nodes, node: Node)
    ensures (m - {node.id})[node.id := node] == m[node.id := node]
  {
  }

  class NodeTable {
    var levels: map<Reputation, seq<Node>>
    var index: map<NodeId, Index>

    ghost function Value(): Store
      reads this
    {
      Store(levels, index)
    }

    ghost predicate Ok()
      reads this
    {
      Valid(Value())
    }

    ghost function Contents(): Nodes
      requires Ok()
      reads this
    {
      View(Value())
    }

    constructor ()
      ensures Ok() && Contents() == map[]
    {
      levels, index := NO_NODES.levels, NO_NODES.index;
      new;
      NoNodesValid();
    }

    method Get(id: NodeId) returns (r: Option<Node>)
      requires Ok()
      ensures r == if id in Contents() then Some(Contents()[id]) else None
    {
      if id in index {
        return Some(levels[index[id].level][index[id].pos]);
      } else {
        return None;
      }
    }

    method AddToReputationLevel(level: Reputation, node: Node)
      requires Ok()
      modifies this
      ensures Value() == Added(old(Value()), level, node)
      ensures node.id !in old(Contents()) && NodeReputation(node.lastContact) == level ==>
                Ok() && Contents() == old(Contents())[node.id := node]
    {
      if node.id !in index && NodeReputation(node.lastContact) == level { AddedValid(Value(), level, node); }
      var pos := |levels[level]|;
      index := index[node.id := Index(level, pos)];
      levels := levels[level := levels[level] + [node]];
    }

    method RemoveFromReputationLevel(x: Index) returns (r: Option<Node>)
      requires Ok()
      modifies this
      ensures Ok()
      ensures !InRange(old(Value()), x) ==> r == None && Contents() == old(Contents())
      ensures InRange(old(Value()), x) ==>
                && r == Some(At(old(Value()), x))
                && Contents() == old(Contents()) - {At(old(Value()), x).id}
    {
      var nodes := levels[x.level];
      if nodes == [] || x.pos >= |nodes| {
        return None;
      }
      ghost var s := Value();
      RemovedValid(s, x);
      if |nodes| - 1 == x.pos {
        var node := nodes[|nodes| - 1];
        index := index - {node.id};
        levels := levels[x.level := nodes[..|nodes| - 1]];
        assert Value() == Removed(s, x);
        return Some(node);
      }
      TailStaysIndexed(s, x);
      var tail := nodes[|nodes| - 1];
      nodes := nodes[..|nodes| - 1];
      var removed := nodes[x.pos];
      index := index - {removed.id};
      if tail.id in index {
        levels := levels[x.level := nodes[x.pos := tail]];
        index := index[tail.id := x];
        assert Value() == Removed(s, x);
        return Some(removed);
      } else {
        assert false;
      }
    }

    method Move(x: Index, target: Reputation, node: Node)
      requires Ok() && InRange(Value(), x) && node.id == At(Value(), x).id && NodeReputation(node.lastContact) == target
      modifies this
      ensures Ok() && Contents() == old(Contents())[node.id := node]
    {
      PutBack(Contents(), node);
      var removed := RemoveFromReputationLevel(x);
      if removed.Some? {
        AddToReputationLevel(target, node);
      } else {
        assert false;
      }
    }

    /** Rewrites a node where it is, or moves it to the level its new last contact names. */
    method Replace(x: Index, node: Node)
      requires Ok() && InRange(Value(), x) && node.id == At(Value(), x).id
      modifies this
      ensures Ok() && Contents() == old(Contents())[node.id := node]
    {
      var target := NodeReputation(node.lastContact);
      if target == x.level {
        RewrittenValid(Value(), x, node);
        levels := levels[x.level := levels[x.level][x.pos := node]];
      } else {
        Move(x, target, node);
      }
    }

    method UpdateLastContact(node: Node)
      requires Ok()
      modifies this
      ensures Ok() && Contents() == MapUpdateLastContact(old(Contents()), node)
    {
      if node.id !in index {
        AddToReputationLevel(NodeReputation(node.lastContact), node);
        return;
      }
      var x := index[node.id];
      Replace(x, levels[x.level][x.pos].(lastContact := node.lastContact, endpoint := node.endpoint));
    }

    method AddNode(node: Node, preserveLastContact: bool)
      requires Ok()
      modifies this
      ensures Ok() && Contents() == MapAddNode(old(Contents()), node, preserveLastContact)
    {
      if node.id !in index {
        AddToReputationLevel(NodeReputation(node.lastContact), node);
        return;
      }
      var x := index[node.id];
      if preserveLastContact {
        Replace(x, node.(lastContact := levels[x.level][x.pos].lastContact));
      } else {
        Replace(x, node);
      }
    }

    method RemoveWithId(id: NodeId) returns (r: Option<Node>)
      requires Ok()
      modifies this
      ensures Ok() && Contents() == old(Contents()) - {id}
      ensures r == if id in old(Contents()) then Some(old(Contents())[id]) else None
      ensures r.None? ==> Contents() == old(Contents())
    {
      if id !in index {
        return None;
      }
      r := RemoveFromReputationLevel(index[id]);
    }

    method NoteUnsuccessContact(id: NodeId, byConnection: bool, contact: Option<NodeContact>)
      requires Ok()
      modifies this
      ensures Ok() && Contents() == MapNoteUnsuccess(old(Contents()), id, byConnection, contact)
    {
      if id !in index {
        return;
      }
      var x := index[id];
      assert Placed(Value(), x);
      var node := levels[x.level][x.pos];
      var connected := if byConnection then contact else node.lastConnected;
      if NodeReputation(contact) != x.level && x.level == DemotedLevel {
        Replace(x, node.(lastConnected := connected));
      } else {
        Replace(x, node.(lastContact := contact, lastConnected := connected));
      }
    }

    method NoteSuccess(id: NodeId, byConnection: bool, token: Option<nat>, now: Time)
      requires Ok()
      modifies this
      ensures Ok() && Contents() == MapNoteSuccess(old(Contents()), id, byConnection, token, now)
    {
      if id !in index {
        return;
      }
      var x := index[id];
      assert Placed(Value(), x);
      var node := levels[x.level][x.pos];
      if byConnection {
        node := node.(lastConnected := Some(Success(now)));
        if token.Some? {
          node := node.(streamToken := token);
        }
      }
      if x.level != DemotedLevel {
        node := node.(lastContact := Some(Success(now)));
      }
      Replace(x, node);
    }

    /** The tags of a node, changed where it is. */
    method SetTag(id: NodeId, key: string, value: string) returns (found: bool)
      requires Ok()
      modifies this
      ensures Ok() && Contents() == MapSetTag(old(Contents()), id, key, value) && found == (id in old(Contents()))
    {
      if id !in index {
        return false;
      }
      var x := index[id];
      assert Placed(Value(), x);
      var node := levels[x.level][x.pos];
      Replace(x, node.(tags := node.tags[key := value]));
      return true;
    }

    /** `load_from_file`, given the nodes read: the first entry of an id wins. */
    method LoadNodes(nodes: seq<Node>)
      requires Ok()
      modifies this
      ensures Ok() && Contents() == FirstWins(old(Contents()), nodes)
    {
      for i := 0 to |nodes|
        invariant Ok() && Contents() == FirstWins(old(Contents()), nodes[..i])
      {
        assert nodes[..i + 1][..i] == nodes[..i];
        if nodes[i].id !in index {
          AddToReputationLevel(NodeReputation(nodes[i].lastContact), nodes[i]);
        }
      }
      assert nodes[..|nodes|] == nodes;
    }

    /**
     `sample_nodes`, given what the random generator picks: the sampled ids are
     distinct, and none belongs to a demoted node.
     */
    method SampleNodes(picks: seq<Index>) returns (sample: seq<NodeEntry>)
      requires Ok()
      requires forall i :: 0 <= i < |picks| ==> picks[i].level != DemotedLevel
      requires forall i :: 0 <= i < |picks| && levels[picks[i].level] != [] ==> InRange(Value(), picks[i])
      ensures DistinctIds(sample)
      ensures forall i :: 0 <= i < |sample| ==>
                && sample[i].id in Contents() && Contents()[sample[i].id].endpoint == sample[i].endpoint
                && NodeReputation(Contents()[sample[i].id].lastContact) != DemotedLevel
    {
      sample := [];
      var seen: set<NodeId> := {};
      for i := 0 to |picks|
        invariant DistinctIds(sample) && forall k :: 0 <= k < |sample| ==> sample[k].id in seen
        invariant forall k :: 0 <= k < |sample| ==>
                    && sample[k].id in Contents() && Contents()[sample[k].id].endpoint == sample[k].endpoint
                    && NodeReputation(Contents()[sample[k].id].lastContact) != DemotedLevel
      {
        var nodes := levels[picks[i].level];
        if nodes != [] {
          assert Placed(Value(), picks[i]);
          var n := nodes[picks[i].pos];
          if n.id !in seen {
            seen := seen + {n.id};
            sample := sample + [NodeEntry(n.id, n.endpoint)];
          }
        }
      }
    }
  }

  function FirstWins(m: Nodes, nodes: seq<Node>): Nodes {
    if nodes == [] then m
    else
      var before := FirstWins(m, nodes[..|nodes| - 1]);
      var n := nodes[|nodes| - 1];
      if n.id in before then before else before[n.id := n]
  }

  ghost predicate DistinctIds(entries: seq<NodeEntry>) {
    forall i, j :: 0 <= i < j < |entries| ==> entries[i].id != entries[j].id
  }
}
