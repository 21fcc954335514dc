/**
 How far the index of addresses agrees with the tables of nodes: where it does, which
 operations break it, and what follows for the quota of a subnet.
 */
module NodeAgreement {
  import opened NodeDatabase
  import opened NodeIpLimit
  import opened NodeTable
  import opened Wrappers

  // ---------------------------------------------------------------- the quota over runs

  lemma DroppedBucketed(db: Db, id: NodeId)
    requires Disjoint(db) && AllBucketed(db.ip)
    ensures AllBucketed(Dropped(db, id).0.ip)
  {
    RemoveAllBucketed(db.ip, id);
  }

  lemma EvictedBucketed(db: Db, id: NodeId, ip: Ip, choice: Option<NodeId>)
    requires Disjoint(db) && Selectable(db.ip, ip, choice) && AllBucketed(db.ip)
    ensures var e := Evicted(db, Evictee(ValidateInsertion(db.ip, id, ip, choice)));
            Consistent(e.ip) && AllBucketed(e.ip)
  {
    var v := Evictee(ValidateInsertion(db.ip, id, ip, choice));
    EvictedKeeps(db, id, ip, choice);
    if v.Some? { DroppedBucketed(db, v.value); }
  }

  lemma WithIpLimitBucketed(db: Db, id: NodeId, ip: Ip, trusted: bool, choice: Option<NodeId>)
    requires Disjoint(db) && Selectable(db.ip, ip, choice) && AllBucketed(db.ip)
    ensures AllBucketed(WithIpLimit(db, id, ip, trusted, choice).0.ip)
  {
    var v := ValidateInsertion(db.ip, id, ip, choice);
    if v != AlreadyExists && v != QuotaNotEnough {
      EvictedBucketed(db, id, ip, choice);
      var e := Evicted(db, Evictee(v));
      InsertAllBucketed(e.ip, id, ip, trusted, Evictee(v));
      assert WithIpLimit(db, id, ip, trusted, choice).0.ip == Insert(e.ip, id, ip, trusted, Evictee(v)).0;
    }
  }

  lemma TakenBucketed(db: Db, id: NodeId, ip: Ip, choice: Option<NodeId>)
    requires Disjoint(db) && Selectable(db.ip, ip, choice) && AllBucketed(db.ip)
    ensures AllBucketed(TakenForPromotion(db, id, ip, choice).0.ip)
  {
    var v := ValidateInsertion(db.ip, id, ip, choice);
    if v != QuotaNotEnough {
      EvictedBucketed(db, id, ip, choice);
      var e := Evicted(db, Evictee(v));
      RemoveAllBucketed(e.ip, id);
      RemoveConsistent(e.ip, id);
      var l := NodeIpLimit.Remove(e.ip, id);
      InsertAllBucketed(l, id, ip, true, Evictee(v));
      assert TakenForPromotion(db, id, ip, choice).0.ip == Insert(l, id, ip, true, Evictee(v)).0;
    }
  }

  /** No operation changes the quota. */
  lemma StepQuota(db: Db, op: Op)
    requires Step(db, op).Some?
    ensures Step(db, op).value.ip.quota == db.ip.quota
  {
  }

  predicate LosesBucket(db: Db, op: Op) { op.Demote? && DemotionLoses(db.ip, op.id) }

  lemma TokenBucketed(db: Db, e: NodeEntry, token: nat, now: Time, c: Option<NodeId>)
    requires Disjoint(db) && Selectable(db.ip, e.endpoint.ip, c) && AllBucketed(db.ip)
    ensures AllBucketed(InsertedWithToken(db, e, token, now, c).ip)
  {
    EvaluatedKeeps(db, e.id, now);
    var d := EvaluatedBlacklist(db, e.id, now).0;
    WithIpLimitBucketed(d, e.id, e.endpoint.ip, e.id in d.trusted, c);
  }

  lemma PlacedBucketed(d: Db, node: Node, c: Option<NodeId>)
    requires Disjoint(d) && Selectable(d.ip, node.endpoint.ip, c) && AllBucketed(d.ip)
    ensures AllBucketed(PlacedConditionally(d, node, c).ip) && AllBucketed(PlacedTrusted(d, node, c).ip)
  {
    WithIpLimitBucketed(d, node.id, node.endpoint.ip, true, c);
    TakenBucketed(d, node.id, node.endpoint.ip, c);
  }

  lemma InsertBucketed(db: Db, e: NodeEntry, now: Time, c: Option<NodeId>)
    requires Disjoint(db) && Selectable(db.ip, e.endpoint.ip, c) && AllBucketed(db.ip)
    ensures AllBucketed(InsertedWithPromotion(db, e, now, c).ip) && AllBucketed(InsertedTrusted(db, e, now, c).ip)
  {
    EvaluatedKeeps(db, e.id, now);
    var d := EvaluatedBlacklist(db, e.id, now).0;
    PlacedBucketed(d, Contacted(e, now), c);
    PlacedBucketed(d, NewNode(e.id, e.endpoint), c);
  }

  /** Only a lossy demotion takes an indexed id out of the buckets. */
  lemma StepBucketed(db: Db, op: Op)
    requires Disjoint(db) && Possible(db, op) && AllBucketed(db.ip) && Step(db, op).Some?
    ensures AllBucketed(Step(db, op).value.ip) <==> !LosesBucket(db, op)
  {
    match op {
      case InsertWithToken(e, t, now, c) => TokenBucketed(db, e, t, now, c);
      case InsertWithPromotion(e, now, c) => InsertBucketed(db, e, now, c);
      case InsertTrusted(e, now, c) => InsertBucketed(db, e, now, c);
      case Promote(id, due, now, c) =>
        if id in db.untrusted {
          TakenBucketed(db.(untrusted := db.untrusted - {id}), id, db.untrusted[id].endpoint.ip, c);
        }
      case Demote(id) => DemoteAllBucketed(db.ip, id);
      case Remove(id) => DroppedBucketed(db, id);
      case SetBlacklisted(id, now) =>
        NotedFailureKeeps(db, id, true, false, now);
        DroppedBucketed(NotedFailure(db, id, true, false, now), id);
      case NoteFailure(_, _, _, _) =>
      case NoteSuccess(_, _, _, _) =>
      case NoteDemoted(_, _, _) =>
      case EvaluateBlacklisted(_, _) =>
      case SetTag(_, _, _) =>
    }
  }

  ghost predicate NoLossyDemotion(db: Db, ops: seq<Op>)
    decreases |ops|
  {
    ops != [] ==>
      !LosesBucket(db, ops[0]) && (Step(db, ops[0]).Some? ==> NoLossyDemotion(Step(db, ops[0]).value, ops[1..]))
  }

  /** Over every run without a lossy demotion no subnet holds more nodes than its quota. */
  lemma {:induction false} RunWithinQuota(db: Db, ops: seq<Op>, s: Subnet)
    requires Disjoint(db) && PossibleRun(db, ops) && AllBucketed(db.ip) && NoLossyDemotion(db, ops)
    requires Run(db, ops).Some?
    ensures |Held(Run(db, ops).value.ip, s)| <= Run(db, ops).value.ip.quota == db.ip.quota
    decreases |ops|
  {
    if ops == [] {
      HeldWithinQuota(db.ip, s);
    } else {
      StepKeeps(db, ops[0]);
      StepBucketed(db, ops[0]);
      StepQuota(db, ops[0]);
      RunWithinQuota(Step(db, ops[0]).value, ops[1..], s);
    }
  }

  // ---------------------------------------------------------------- index and tables

  /** What the tables say about where an id should be filed. */
  function Expected(db: Db, x: NodeId): Filing {
    if x in db.trusted then Filed(db.trusted[x].endpoint.ip, true, false)
    else if x in db.untrusted then Filed(db.untrusted[x].endpoint.ip, false, true)
    else Unfiled
  }

  ghost predicate AgreesAt(db: Db, x: NodeId) { FilingOf(db.ip, x) == Expected(db, x) }

  ghost predicate AgreesBut(db: Db, id: NodeId) {
    forall x :: x != id ==> AgreesAt(db, x)
  }

  /**
   With a quota, exactly the trusted and untrusted nodes are indexed, each under its own
   address and in the bucket that its table names.
   */
  ghost predicate Agrees(db: Db) {
    Enabled(db.ip) ==> forall x :: AgreesAt(db, x)
  }

  lemma AgreesMeans(db: Db)
    requires Enabled(db.ip) && Agrees(db)
    ensures db.ip.nodeIndex.Keys == db.trusted.Keys + db.untrusted.Keys
    ensures AllBucketed(db.ip)
  {
    forall x ensures x in db.ip.nodeIndex <==> x in db.trusted || x in db.untrusted {
      assert AgreesAt(db, x);
    }
    forall x ensures InABucket(FilingOf(db.ip, x)) { assert AgreesAt(db, x); }
  }

  lemma DroppedAgrees(db: Db, id: NodeId)
    requires Disjoint(db) && Agrees(db)
    ensures Agrees(Dropped(db, id).0)
  {
    if Enabled(db.ip) {
      forall x ensures AgreesAt(Dropped(db, id).0, x) {
        assert AgreesAt(db, x);
        RemoveFiling(db.ip, id, x);
      }
    }
  }

  /** Taking an id out of a subnet makes room in it. */
  lemma QuotaAfterRemoval(l: IpLimit, x: NodeId, ip: Ip)
    requires Consistent(l) && WithinQuota(l) && Enabled(l)
    requires x in l.nodeIndex && SubnetOf(l.nodeIndex[x]) == SubnetOf(ip) && InABucket(FilingOf(l, x))
    ensures QuotaAllowed(NodeIpLimit.Remove(l, x), ip)
  {
    var s := SubnetOf(ip);
    BucketAfterRemove(l.trusted, s, x);
    BucketAfterRemove(l.untrusted, s, x);
    assert |Bucket(l.trusted, s)| + |Bucket(l.untrusted, s)| <= l.quota;
  }

  /** Room is made by dropping a node from its table and the index together. */
  lemma EvictedAgrees(db: Db, id: NodeId, ip: Ip, choice: Option<NodeId>)
    requires Disjoint(db) && Agrees(db) && Enabled(db.ip) && Selectable(db.ip, ip, choice)
    requires Evictee(ValidateInsertion(db.ip, id, ip, choice)).Some?
    ensures var o := Evictee(ValidateInsertion(db.ip, id, ip, choice)).value;
            var e := Evicted(db, Some(o));
            && Disjoint(e) && Agrees(e) && Enabled(e.ip)
            && o !in e.ip.nodeIndex && ip !in e.ip.ipIndex && QuotaAllowed(e.ip, ip)
  {
    var o := Evictee(ValidateInsertion(db.ip, id, ip, choice)).value;
    EvicteeFiled(db, id, ip, choice);
    EvictedKeeps(db, id, ip, choice);
    DroppedAgrees(db, o);
    RemoveConsistent(db.ip, o);
    QuotaAfterRemoval(db.ip, o, ip);
  }

  /** The evictee is a node of the subnet, in a table and in a bucket. */
  lemma EvicteeFiled(db: Db, id: NodeId, ip: Ip, choice: Option<NodeId>)
    requires Disjoint(db) && Agrees(db) && Enabled(db.ip) && Selectable(db.ip, ip, choice)
    requires Evictee(ValidateInsertion(db.ip, id, ip, choice)).Some?
    ensures var o := Evictee(ValidateInsertion(db.ip, id, ip, choice)).value;
            && o in db.ip.nodeIndex && SubnetOf(db.ip.nodeIndex[o]) == SubnetOf(ip)
            && InABucket(FilingOf(db.ip, o)) && (o in db.trusted || o in db.untrusted)
            && (ip in db.ip.ipIndex ==> db.ip.nodeIndex[o] == ip)
  {
    EvicteeIsIndexed(db.ip, id, ip, choice);
    assert AgreesAt(db, Evictee(ValidateInsertion(db.ip, id, ip, choice)).value);
  }

  /** Where there is room, insertion succeeds and files the id. */
  lemma InsertFiles(l: IpLimit, id: NodeId, ip: Ip, trusted: bool, evictee: Option<NodeId>)
    requires Consistent(l) && Enabled(l) && ip !in l.ipIndex && QuotaAllowed(l, ip)
    requires evictee.Some? ==> evictee.value !in l.nodeIndex
    ensures Insert(l, id, ip, trusted, evictee) == (AddOrUpdate(l, ip, id, trusted), true)
  {
  }

  lemma AddedAgrees(e: Db, l: IpLimit, id: NodeId, ip: Ip, trusted: bool)
    requires AgreesBut(e, id) && Consistent(l) && Enabled(l)
    requires forall x :: x != id ==> FilingOf(l, x) == FilingOf(e.ip, x)
    ensures var d := e.(ip := AddOrUpdate(l, ip, id, trusted));
            AgreesBut(d, id) && FilingOf(d.ip, id) == Filed(ip, trusted, !trusted)
  {
    var d := e.(ip := AddOrUpdate(l, ip, id, trusted));
    AddFiling(l, ip, id, trusted, id);
    forall x | x != id ensures AgreesAt(d, x) {
      AddFiling(l, ip, id, trusted, x);
      assert AgreesAt(e, x);
    }
  }

  lemma WithIpLimitAgrees(db: Db, id: NodeId, ip: Ip, trusted: bool, choice: Option<NodeId>)
    requires Disjoint(db) && Agrees(db) && Enabled(db.ip) && Selectable(db.ip, ip, choice)
    requires (id in db.trusted ==> trusted) && (id in db.untrusted ==> !trusted)
    requires ValidateInsertion(db.ip, id, ip, choice) != QuotaNotEnough
    ensures var (d, ok) := WithIpLimit(db, id, ip, trusted, choice);
            ok && AgreesBut(d, id) && FilingOf(d.ip, id) == Filed(ip, trusted, !trusted)
  {
    var v := ValidateInsertion(db.ip, id, ip, choice);
    assert AgreesAt(db, id);
    if v != AlreadyExists {
      if Evictee(v).Some? { EvictedAgrees(db, id, ip, choice); }
      var e := Evicted(db, Evictee(v));
      InsertFiles(e.ip, id, ip, trusted, Evictee(v));
      AddedAgrees(e, e.ip, id, ip, trusted);
    }
  }

  /** Where a node to be promoted goes, there is room once it has left the place it had. */
  lemma RoomForPromotion(db: Db, id: NodeId, ip: Ip, choice: Option<NodeId>)
    requires Disjoint(db) && Agrees(db) && Enabled(db.ip) && Selectable(db.ip, ip, choice) && id in db.untrusted
    requires ValidateInsertion(db.ip, id, ip, choice) !in {QuotaNotEnough, Evict(id)}
    ensures var v := Evictee(ValidateInsertion(db.ip, id, ip, choice));
            var e := Evicted(db, v);
            var l := NodeIpLimit.Remove(e.ip, id);
            && v != Some(id) && Agrees(e) && Enabled(e.ip) && Consistent(l) && Enabled(l)
            && ip !in l.ipIndex && QuotaAllowed(l, ip) && (v.Some? ==> v.value !in l.nodeIndex)
  {
    var v := ValidateInsertion(db.ip, id, ip, choice);
    assert AgreesAt(db, id);
    if v == AlreadyExists {
      RoomInPlace(db.ip, id, ip);
    } else {
      if Evictee(v).Some? { EvictedAgrees(db, id, ip, choice); }
      RoomStays(Evicted(db, Evictee(v)).ip, id, ip);
    }
  }

  lemma RoomInPlace(l: IpLimit, id: NodeId, ip: Ip)
    requires Consistent(l) && WithinQuota(l) && Enabled(l) && id in l.nodeIndex && l.nodeIndex[id] == ip
    requires InABucket(FilingOf(l, id))
    ensures var m := NodeIpLimit.Remove(l, id); Consistent(m) && ip !in m.ipIndex && QuotaAllowed(m, ip)
  {
    RemoveConsistent(l, id);
    QuotaAfterRemoval(l, id, ip);
  }

  lemma RoomStays(l: IpLimit, id: NodeId, ip: Ip)
    requires Consistent(l) && WithinQuota(l) && Enabled(l) && ip !in l.ipIndex && QuotaAllowed(l, ip)
    ensures var m := NodeIpLimit.Remove(l, id);
            && Consistent(m) && ip !in m.ipIndex && QuotaAllowed(m, ip)
            && m.nodeIndex.Keys <= l.nodeIndex.Keys
  {
    RemoveConsistent(l, id);
    RemoveWithin(l, id);
  }

  lemma TakenWithRoom(db: Db, id: NodeId, ip: Ip, choice: Option<NodeId>)
    requires Disjoint(db) && Agrees(db) && Enabled(db.ip) && Selectable(db.ip, ip, choice) && id in db.untrusted
    requires ValidateInsertion(db.ip, id, ip, choice) !in {QuotaNotEnough, Evict(id)}
    ensures var e := Evicted(db, Evictee(ValidateInsertion(db.ip, id, ip, choice)));
            TakenForPromotion(db, id, ip, choice)
            == (e.(untrusted := e.untrusted - {id}, ip := AddOrUpdate(NodeIpLimit.Remove(e.ip, id), ip, id, true)),
                Some(db.untrusted[id]))
  {
    RoomForPromotion(db, id, ip, choice);
    var v := Evictee(ValidateInsertion(db.ip, id, ip, choice));
    InsertFiles(NodeIpLimit.Remove(Evicted(db, v).ip, id), id, ip, true, v);
  }

  /** Unless a node has to make room for itself, it is taken whole and filed as trusted. */
  lemma TakenAgrees(db: Db, id: NodeId, ip: Ip, choice: Option<NodeId>)
    requires Disjoint(db) && Agrees(db) && Enabled(db.ip) && Selectable(db.ip, ip, choice) && id in db.untrusted
    requires ValidateInsertion(db.ip, id, ip, choice) !in {QuotaNotEnough, Evict(id)}
    ensures var (d, prior) := TakenForPromotion(db, id, ip, choice);
            prior == Some(db.untrusted[id]) && AgreesBut(d, id) && FilingOf(d.ip, id) == Filed(ip, true, false)
  {
    RoomForPromotion(db, id, ip, choice);
    TakenWithRoom(db, id, ip, choice);
    var e := Evicted(db, Evictee(ValidateInsertion(db.ip, id, ip, choice)));
    MovedAgrees(e, id, ip);
  }

  /** A node filed anew as trusted while it leaves the untrusted table. */
  lemma MovedAgrees(e: Db, id: NodeId, ip: Ip)
    requires Enabled(e.ip) && AgreesBut(e, id)
    requires Consistent(NodeIpLimit.Remove(e.ip, id)) && Enabled(NodeIpLimit.Remove(e.ip, id))
    ensures var d := e.(untrusted := e.untrusted - {id}, ip := AddOrUpdate(NodeIpLimit.Remove(e.ip, id), ip, id, true));
            AgreesBut(d, id) && FilingOf(d.ip, id) == Filed(ip, true, false)
  {
    var l := NodeIpLimit.Remove(e.ip, id);
    var t := e.(untrusted := e.untrusted - {id});
    forall x | x != id ensures AgreesAt(t, x) && FilingOf(l, x) == FilingOf(t.ip, x) {
      assert AgreesAt(e, x);
      RemoveFiling(e.ip, id, x);
    }
    AddedAgrees(t, l, id, ip, true);
  }

  /** A node that has to make room for itself is dropped and then filed all the same. */
  lemma TakenFromItself(db: Db, id: NodeId, ip: Ip, choice: Option<NodeId>)
    requires Disjoint(db) && Agrees(db) && Enabled(db.ip) && Selectable(db.ip, ip, choice) && id in db.untrusted
    requires ValidateInsertion(db.ip, id, ip, choice) == Evict(id)
    ensures var (d, prior) := TakenForPromotion(db, id, ip, choice);
            && prior.None? && id !in d.trusted && id !in d.untrusted
            && FilingOf(d.ip, id) == Filed(ip, true, false) && Enabled(d.ip)
  {
    EvictedAgrees(db, id, ip, choice);
    var e := Evicted(db, Some(id));
    RemoveConsistent(e.ip, id);
    InsertFiles(e.ip, id, ip, true, Some(id));
    AddFiling(e.ip, ip, id, true, id);
  }

  // ---------------------------------------------------------------- the operations

  lemma TrustedFiled(d: Db, node: Node)
    requires AgreesBut(d, node.id) && FilingOf(d.ip, node.id) == Filed(node.endpoint.ip, true, false)
    ensures Agrees(d.(trusted := d.trusted[node.id := node]))
  {
    var t := d.(trusted := d.trusted[node.id := node]);
    forall x ensures AgreesAt(t, x) { assert x != node.id ==> AgreesAt(d, x); }
  }

  lemma UntrustedFiled(d: Db, node: Node)
    requires AgreesBut(d, node.id) && FilingOf(d.ip, node.id) == Filed(node.endpoint.ip, false, true)
    requires node.id !in d.trusted
    ensures Agrees(d.(untrusted := d.untrusted[node.id := node]))
  {
    var t := d.(untrusted := d.untrusted[node.id := node]);
    forall x ensures AgreesAt(t, x) { assert x != node.id ==> AgreesAt(d, x); }
  }

  lemma EvaluatedAgrees(db: Db, id: NodeId, now: Time)
    requires Agrees(db)
    ensures Agrees(EvaluatedBlacklist(db, id, now).0)
  {
    var d := EvaluatedBlacklist(db, id, now).0;
    if Enabled(db.ip) {
      forall x ensures AgreesAt(d, x) { assert AgreesAt(db, x); }
    }
  }

  lemma TokenAgrees(db: Db, entry: NodeEntry, token: nat, now: Time, choice: Option<NodeId>)
    requires Disjoint(db) && Agrees(db) && Selectable(db.ip, entry.endpoint.ip, choice)
    ensures Agrees(InsertedWithToken(db, entry, token, now, choice))
  {
    EvaluatedKeeps(db, entry.id, now);
    EvaluatedAgrees(db, entry.id, now);
    var (d, banned) := EvaluatedBlacklist(db, entry.id, now);
    var ip, trusted := entry.endpoint.ip, entry.id in d.trusted;
    if !banned && Enabled(d.ip) && ValidateInsertion(d.ip, entry.id, ip, choice) != QuotaNotEnough {
      WithIpLimitAgrees(d, entry.id, ip, trusted, choice);
      WithIpLimitKeeps(d, entry.id, ip, trusted, choice);
      var w := WithIpLimit(d, entry.id, ip, trusted, choice).0;
      var node := WithToken(entry, token, now);
      if trusted { TrustedFiled(w, node); } else { UntrustedFiled(w, node); }
    }
  }

  /** Placing a node whose id is not untrusted, for whatever node is then put into the trusted table. */
  lemma FreshAgrees(d: Db, node: Node, choice: Option<NodeId>)
    requires Disjoint(d) && Agrees(d) && Selectable(d.ip, node.endpoint.ip, choice) && node.id !in d.untrusted
    ensures var (w, ok) := WithIpLimit(d, node.id, node.endpoint.ip, true, choice);
            Agrees(if ok then w.(trusted := w.trusted[node.id := node]) else w)
  {
    var ip := node.endpoint.ip;
    if Enabled(d.ip) && ValidateInsertion(d.ip, node.id, ip, choice) != QuotaNotEnough {
      WithIpLimitAgrees(d, node.id, ip, true, choice);
      TrustedFiled(WithIpLimit(d, node.id, ip, true, choice).0, node);
    }
  }

  /** Promoting an untrusted node, for whatever node is then put into the trusted table. */
  lemma PromotionAgrees(d: Db, node: Node, choice: Option<NodeId>)
    requires Disjoint(d) && Agrees(d) && Selectable(d.ip, node.endpoint.ip, choice) && node.id in d.untrusted
    ensures var (t, prior) := TakenForPromotion(d, node.id, node.endpoint.ip, choice);
            Agrees(if prior.Some? then t.(trusted := t.trusted[node.id := node]) else t)
            <==> ValidateInsertion(d.ip, node.id, node.endpoint.ip, choice) != Evict(node.id)
  {
    var ip := node.endpoint.ip;
    var v := ValidateInsertion(d.ip, node.id, ip, choice);
    if Enabled(d.ip) {
      if v == Evict(node.id) {
        TakenFromItself(d, node.id, ip, choice);
        assert !AgreesAt(TakenForPromotion(d, node.id, ip, choice).0, node.id);
      } else if v != QuotaNotEnough {
        TakenAgrees(d, node.id, ip, choice);
        TrustedFiled(TakenForPromotion(d, node.id, ip, choice).0, node);
      }
    }
  }

  lemma PlacedConditionallyAgrees(d: Db, node: Node, choice: Option<NodeId>)
    requires Disjoint(d) && Agrees(d) && Selectable(d.ip, node.endpoint.ip, choice)
    ensures Agrees(PlacedConditionally(d, node, choice)) <==>
              !(node.id in d.untrusted && NodeReputation(d.untrusted[node.id].lastContact) != DemotedLevel
                && ValidateInsertion(d.ip, node.id, node.endpoint.ip, choice) == Evict(node.id))
  {
    if node.id in d.untrusted {
      var prior := TakenForPromotion(d, node.id, node.endpoint.ip, choice).1;
      PromotionAgrees(d, if prior.None? then node
        else node.(lastConnected := prior.value.lastConnected, streamToken := prior.value.streamToken), choice);
    } else {
      WithIpLimitKeyed(d, node.id, node.endpoint.ip, choice);
      var w := WithIpLimit(d, node.id, node.endpoint.ip, true, choice).0;
      RefreshedIsKeyed(w.trusted, node);
      FreshAgrees(d, Refreshed(w.trusted, node), choice);
    }
  }

  lemma WithIpLimitKeyed(d: Db, id: NodeId, ip: Ip, choice: Option<NodeId>)
    requires Disjoint(d) && Selectable(d.ip, ip, choice)
    ensures Keyed(WithIpLimit(d, id, ip, true, choice).0.trusted)
  {
    EvictedKeeps(d, id, ip, choice);
  }

  lemma PlacedTrustedAgrees(d: Db, node: Node, choice: Option<NodeId>)
    requires Disjoint(d) && Agrees(d) && Selectable(d.ip, node.endpoint.ip, choice)
    ensures Agrees(PlacedTrusted(d, node, choice)) <==>
              !(node.id in d.untrusted
                && ValidateInsertion(d.ip, node.id, node.endpoint.ip, choice) == Evict(node.id))
  {
    if node.id in d.untrusted {
      var prior := TakenForPromotion(d, node.id, node.endpoint.ip, choice).1;
      PromotionAgrees(d, if prior.None? then node
        else node.(lastContact := prior.value.lastContact, lastConnected := prior.value.lastConnected,
                   streamToken := prior.value.streamToken), choice);
    } else {
      FreshAgrees(d, node, choice);
    }
  }

  /** A node promoted for its long connection is filed under its address already, so nothing has to make room. */
  lemma PromotedAgrees(db: Db, id: NodeId, due: Time, now: Time, choice: Option<NodeId>)
    requires Disjoint(db) && Agrees(db)
    ensures Agrees(PromotedOne(db, id, due, now, choice))
  {
    if id in db.untrusted && LongConnected(db.untrusted[id], due, now) && Enabled(db.ip) {
      var ip, e := db.untrusted[id].endpoint.ip, db.(untrusted := db.untrusted - {id});
      TakenInPlace(db, id, choice);
      forall x | x != id ensures AgreesAt(e, x) { assert AgreesAt(db, x); }
      MovedAgrees(e, id, ip);
      TrustedFiled(TakenForPromotion(e, id, ip, choice).0,
                   db.untrusted[id].(lastContact := db.untrusted[id].lastConnected));
    }
  }

  /** So the whole of `promote` keeps the agreement, whatever the buckets select. */
  lemma {:induction false} PromotedAllAgrees(db: Db, ids: seq<NodeId>, due: Time, now: Time, choose: Choose)
    requires Disjoint(db) && Agrees(db) && Selects(choose)
    ensures Disjoint(PromotedAll(db, ids, due, now, choose)) && Agrees(PromotedAll(db, ids, due, now, choose))
  {
    if ids != [] {
      var n := |ids| - 1;
      PromotedAllAgrees(db, ids[..n], due, now, choose);
      var d := PromotedAll(db, ids[..n], due, now, choose);
      var choice := ChosenFor(choose, n, d.ip, NodeAt(d.untrusted, ids[n]));
      assert ids[n] in d.untrusted ==> Selectable(d.ip, d.untrusted[ids[n]].endpoint.ip, choice);
      PromotedOneKeeps(d, ids[n], due, now, choice);
      PromotedAgrees(d, ids[n], due, now, choice);
    }
  }

  lemma TakenInPlace(db: Db, id: NodeId, choice: Option<NodeId>)
    requires Disjoint(db) && Agrees(db) && Enabled(db.ip) && id in db.untrusted
    ensures var ip, e := db.untrusted[id].endpoint.ip, db.(untrusted := db.untrusted - {id});
            && Consistent(NodeIpLimit.Remove(db.ip, id))
            && TakenForPromotion(e, id, ip, choice).0
               == e.(untrusted := e.untrusted - {id}, ip := AddOrUpdate(NodeIpLimit.Remove(db.ip, id), ip, id, true))
  {
    var ip := db.untrusted[id].endpoint.ip;
    assert AgreesAt(db, id);
    RemoveConsistent(db.ip, id);
    QuotaAfterRemoval(db.ip, id, ip);
    InsertFiles(NodeIpLimit.Remove(db.ip, id), id, ip, true, None);
  }

  lemma DemotedAgrees(db: Db, id: NodeId)
    requires Disjoint(db) && Agrees(db)
    ensures Agrees(DemotedNode(db, id)) <==> !DemotionLoses(db.ip, id)
  {
    var d := DemotedNode(db, id);
    if Enabled(db.ip) {
      assert AgreesAt(db, id);
      DemoteFiling(db.ip, id, id);
      assert AgreesAt(d, id) <==> !DemotionLoses(db.ip, id);
      forall x | x != id ensures AgreesAt(d, x) {
        assert AgreesAt(db, x);
        DemoteFiling(db.ip, id, x);
      }
    }
  }

  /** Operations that change neither the index nor which node is where. */
  lemma NotedAgrees(db: Db, d: Db)
    requires Agrees(db) && d.ip == db.ip
    requires forall x :: Expected(d, x) == Expected(db, x)
    ensures Agrees(d)
  {
    if Enabled(db.ip) {
      forall x ensures AgreesAt(d, x) { assert AgreesAt(db, x); }
    }
  }

  lemma BlacklistedAgrees(db: Db, id: NodeId, now: Time)
    requires Disjoint(db) && Agrees(db)
    ensures Agrees(Blacklisted(db, id, now))
  {
    NotedFailureKeeps(db, id, true, false, now);
    var n := NotedFailure(db, id, true, false, now);
    NotedAgrees(db, n);
    DroppedAgrees(n, id);
    NotedAgrees(Dropped(n, id).0, Blacklisted(db, id, now));
  }

  /** Exactly the lossy demotion and the promotion of a node that must make room for itself. */
  predicate Breaks(db: Db, op: Op) {
    match op
    case Demote(id) => DemotionLoses(db.ip, id)
    case InsertWithPromotion(e, _, c) =>
      e.id in db.untrusted && NodeReputation(db.untrusted[e.id].lastContact) != DemotedLevel
      && ValidateInsertion(db.ip, e.id, e.endpoint.ip, c) == Evict(e.id)
    case InsertTrusted(e, _, c) =>
      e.id in db.untrusted && ValidateInsertion(db.ip, e.id, e.endpoint.ip, c) == Evict(e.id)
    case _ => false
  }

  lemma InsertAgrees(db: Db, e: NodeEntry, now: Time, c: Option<NodeId>)
    requires Disjoint(db) && Agrees(db) && Selectable(db.ip, e.endpoint.ip, c)
    ensures Agrees(InsertedWithPromotion(db, e, now, c)) <==> !Breaks(db, InsertWithPromotion(e, now, c))
    ensures Agrees(InsertedTrusted(db, e, now, c)) <==> !Breaks(db, InsertTrusted(e, now, c))
  {
    EvaluatedKeeps(db, e.id, now);
    EvaluatedAgrees(db, e.id, now);
    var d := EvaluatedBlacklist(db, e.id, now).0;
    PlacedConditionallyAgrees(d, Contacted(e, now), c);
    PlacedTrustedAgrees(d, NewNode(e.id, e.endpoint), c);
  }

  lemma NoteAgrees(db: Db, op: Op)
    requires Disjoint(db) && Agrees(db) && Step(db, op).Some?
    requires op.NoteFailure? || op.NoteSuccess? || op.NoteDemoted? || op.SetTag?
    ensures Agrees(Step(db, op).value)
  {
    var d := Step(db, op).value;
    NotedInPlace(db, op);
    forall x ensures Expected(d, x) == Expected(db, x) {}
    NotedAgrees(db, d);
  }

  /** The same ids at the same addresses. */
  ghost predicate SamePlaces(m: Nodes, n: Nodes) {
    m.Keys == n.Keys && forall x :: x in m ==> n[x].endpoint == m[x].endpoint
  }

  lemma NotedInPlace(db: Db, op: Op)
    requires op.NoteFailure? || op.NoteSuccess? || op.NoteDemoted? || op.SetTag?
    requires Step(db, op).Some?
    ensures var d := Step(db, op).value;
            d.ip == db.ip && SamePlaces(db.trusted, d.trusted) && SamePlaces(db.untrusted, d.untrusted)
  {
    match op {
      case NoteFailure(id, b, _, now) =>
        UnsuccessInPlace(db.trusted, id, b, Some(Failure(now)));
        UnsuccessInPlace(db.untrusted, id, b, Some(Failure(now)));
      case NoteSuccess(id, token, _, now) =>
        SuccessInPlace(db.trusted, id, token, now);
        SuccessInPlace(db.untrusted, id, token, now);
      case NoteDemoted(id, b, now) => UnsuccessInPlace(db.untrusted, id, b, Some(Demoted(now)));
      case SetTag(id, key, value) =>
        TagInPlace(db.trusted, id, key, value);
        TagInPlace(db.untrusted, id, key, value);
    }
  }

  lemma UnsuccessInPlace(m: Nodes, id: NodeId, byConnection: bool, contact: Option<NodeContact>)
    ensures SamePlaces(m, MapNoteUnsuccess(m, id, byConnection, contact))
  {
  }

  lemma SuccessInPlace(m: Nodes, id: NodeId, token: Option<nat>, now: Time)
    ensures SamePlaces(m, MapNoteSuccess(m, id, token.Some?, token, now))
  {
  }

  lemma TagInPlace(m: Nodes, id: NodeId, key: string, value: string)
    ensures SamePlaces(m, MapSetTag(m, id, key, value))
  {
  }

  /** Index and tables go on agreeing after exactly the operations that do not break it. */
  lemma StepAgrees(db: Db, op: Op)
    requires Disjoint(db) && Agrees(db) && Possible(db, op) && Step(db, op).Some?
    ensures Agrees(Step(db, op).value) <==> !Breaks(db, op)
  {
    match op {
      case InsertWithToken(e, t, now, c) => TokenAgrees(db, e, t, now, c);
      case InsertWithPromotion(e, now, c) => InsertAgrees(db, e, now, c);
      case InsertTrusted(e, now, c) => InsertAgrees(db, e, now, c);
      case Promote(id, due, now, c) => PromotedAgrees(db, id, due, now, c);
      case Demote(id) => DemotedAgrees(db, id);
      case Remove(id) => DroppedAgrees(db, id);
      case SetBlacklisted(id, now) => BlacklistedAgrees(db, id, now);
      case EvaluateBlacklisted(id, now) => EvaluatedAgrees(db, id, now);
      case NoteFailure(_, _, _, _) => NoteAgrees(db, op);
      case NoteSuccess(_, _, _, _) => NoteAgrees(db, op);
      case NoteDemoted(_, _, _) => NoteAgrees(db, op);
      case SetTag(_, _, _) => NoteAgrees(db, op);
    }
  }

  /** While they agree, a trusted node can always be tagged. */
  lemma TaggingNeverStops(db: Db, op: Op)
    requires Agrees(db) && Stops(db, op)
    ensures op.NoteDemoted?
  {
    assert Enabled(db.ip) ==> AgreesAt(db, op.id);
  }

  /** The node is in no table exactly if the operation broke the agreement, and is then still indexed as trusted. */
  ghost predicate LostExactly(db: Db, op: Op, entry: NodeEntry, d: Db) {
    && (entry.id !in d.trusted && entry.id !in d.untrusted <==> Breaks(db, op))
    && (Breaks(db, op) ==> FilingOf(d.ip, entry.id) == Filed(entry.endpoint.ip, true, false))
  }

  /** An untrusted node that is inserted or seen is lost exactly if it had to make room for itself. */
  lemma LostToItself(db: Db, entry: NodeEntry, now: Time, choice: Option<NodeId>)
    requires Disjoint(db) && Agrees(db) && Selectable(db.ip, entry.endpoint.ip, choice) && entry.id in db.untrusted
    ensures LostExactly(db, InsertTrusted(entry, now, choice), entry, InsertedTrusted(db, entry, now, choice))
    ensures LostExactly(db, InsertWithPromotion(entry, now, choice), entry,
                        InsertedWithPromotion(db, entry, now, choice))
  {
    var ip := entry.endpoint.ip;
    assert InsertedTrusted(db, entry, now, choice) == PlacedTrusted(db, NewNode(entry.id, entry.endpoint), choice);
    assert InsertedWithPromotion(db, entry, now, choice) == PlacedConditionally(db, Contacted(entry, now), choice);
    var v := ValidateInsertion(db.ip, entry.id, ip, choice);
    if v == Evict(entry.id) {
      TakenFromItself(db, entry.id, ip, choice);
    } else if Enabled(db.ip) && v != QuotaNotEnough {
      TakenAgrees(db, entry.id, ip, choice);
    }
  }

  ghost predicate NothingBreaks(db: Db, ops: seq<Op>)
    decreases |ops|
  {
    ops != [] ==>
      !Breaks(db, ops[0]) && (Step(db, ops[0]).Some? ==> NothingBreaks(Step(db, ops[0]).value, ops[1..]))
  }

  /** Over every run in which nothing breaks it, index and tables agree, and tagging a node never fails. */
  lemma {:induction false} RunAgrees(db: Db, ops: seq<Op>)
    requires Disjoint(db) && Agrees(db) && PossibleRun(db, ops) && NothingBreaks(db, ops)
    ensures Run(db, ops).Some? ==> Agrees(Run(db, ops).value)
    ensures (forall i :: 0 <= i < |ops| ==> !ops[i].NoteDemoted?) ==> Run(db, ops).Some?
    decreases |ops|
  {
    if ops != [] {
      StepKeeps(db, ops[0]);
      if Step(db, ops[0]).Some? {
        StepAgrees(db, ops[0]);
        RunAgrees(Step(db, ops[0]).value, ops[1..]);
      } else {
        TaggingNeverStops(db, ops[0]);
      }
    }
  }

  // ---------------------------------------------------------------- runs that break it

  function Empty(quota: nat): Db { Db(map[], map[], map[], IpLimit(quota, map[], map[], map[], map[])) }

  lemma EmptyAgrees(quota: nat)
    ensures Disjoint(Empty(quota)) && Agrees(Empty(quota)) && AllBucketed(Empty(quota).ip)
  {
  }

  function EntryOf(id: NodeId, ip: Ip): NodeEntry { NodeEntry(id, NodeEndpoint(ip, 0, 0)) }

  function Single(id: NodeId, ip: Ip): IpLimit {
    IpLimit(1, map[id := ip], map[ip := id], map[SubnetOf(ip) := {id}], map[])
  }

  /** A run of one more operation. */
  lemma RunMore(db: Db, op: Op, e: Db, ops: seq<Op>, d: Db)
    requires Possible(db, op) && Step(db, op) == Some(e) && PossibleRun(e, ops) && Run(e, ops) == Some(d)
    ensures PossibleRun(db, [op] + ops) && Run(db, [op] + ops) == Some(d)
  {
    assert ([op] + ops)[1..] == ops;
  }

  /** The index after a demotion that finds no untrusted bucket, */
  function Lost(id: NodeId, ip: Ip): IpLimit { Single(id, ip).(trusted := map[SubnetOf(ip) := {}]) }

  /** and after a second node has taken the place. */
  const TWO_HELD := IpLimit(1, map[1 := 0, 2 := 1], map[0 := 1, 1 := 2], map[0 := {2}], map[])

  function NodeOf(id: NodeId, ip: Ip): Node { NewNode(id, NodeEndpoint(ip, 0, 0)) }

  lemma FirstTrusted(now: Time)
    ensures InsertedTrusted(Empty(1), EntryOf(1, 0), now, None)
         == Db(map[1 := NodeOf(1, 0)], map[], map[], Single(1, 0))
  {
    var l := Empty(1).ip;
    assert |Bucket(l.trusted, 0)| + |Bucket(l.untrusted, 0)| == 0;
    assert AddOrUpdate(l, 0, 1, true) == Single(1, 0);
  }

  lemma FirstDemoted(node: Node)
    requires node.id == 1
    ensures DemotedNode(Db(map[1 := node], map[], map[], Single(1, 0)), 1)
         == Db(map[], map[1 := node], map[], Lost(1, 0))
    ensures DemotionLoses(Single(1, 0), 1)
  {
    assert {1} - {1} == {};
    assert NodeIpLimit.Demote(Single(1, 0), 1) == Lost(1, 0);
  }

  /** Once a lossy demotion has happened, there seems to be room for another node. */
  lemma SecondTrusted(node: Node, now: Time)
    ensures InsertedTrusted(Db(map[], map[1 := node], map[], Lost(1, 0)), EntryOf(2, 1), now, None)
         == Db(map[2 := NodeOf(2, 1)], map[1 := node], map[], TWO_HELD)
  {
    var l := Lost(1, 0);
    assert Bucket(l.trusted, 0) == {} && Bucket(l.untrusted, 0) == {};
    assert ValidateInsertion(l, 2, 1, None) == QuotaEnough;
    assert AddOrUpdate(l, 1, 2, true) == TWO_HELD;
  }

  lemma TwoHeld()
    ensures Held(TWO_HELD, 0) == {1, 2} && |Held(TWO_HELD, 0)| == 2 && WithinQuota(TWO_HELD)
  {
    assert Held(TWO_HELD, 0) == {1, 2};
    forall s ensures |Bucket(TWO_HELD.trusted, s)| + |Bucket(TWO_HELD.untrusted, s)| <= 1 {
      assert Bucket(TWO_HELD.trusted, s) == (if s == 0 then {2} else {}) && Bucket(TWO_HELD.untrusted, s) == {};
    }
  }

  /** With a quota of one, a demotion between two insertions leaves a subnet holding two nodes. */
  lemma QuotaExceeded() returns (ops: seq<Op>, d: Db)
    ensures |ops| == 3 && PossibleRun(Empty(1), ops) && Run(Empty(1), ops) == Some(d)
    ensures 1 in d.untrusted && 2 in d.trusted
    ensures Held(d.ip, 0) == {1, 2} && |Held(d.ip, 0)| > d.ip.quota && WithinQuota(d.ip)
  {
    var n := NodeOf(1, 0);
    var d1, d2 := Db(map[1 := n], map[], map[], Single(1, 0)), Db(map[], map[1 := n], map[], Lost(1, 0));
    d := Db(map[2 := NodeOf(2, 1)], map[1 := n], map[], TWO_HELD);
    FirstTrusted(0);
    FirstDemoted(n);
    SecondTrusted(n, 0);
    TwoHeld();
    RunMore(d2, InsertTrusted(EntryOf(2, 1), 0, None), d, [], d);
    RunMore(d1, Demote(1), d2, [InsertTrusted(EntryOf(2, 1), 0, None)] + [], d);
    ops := [InsertTrusted(EntryOf(1, 0), 0, None)] + ([Demote(1)] + ([InsertTrusted(EntryOf(2, 1), 0, None)] + []));
    RunMore(Empty(1), InsertTrusted(EntryOf(1, 0), 0, None), d1, ops[1..], d);
  }

  /** A node with a connection, noted by inserting it with a token. */
  const CONNECTED := NodeOf(1, 0).(
    lastContact := Some(Success(0)), lastConnected := Some(Success(0)), streamToken := Some(0))

  const TWO_WITHOUT_ONE := IpLimit(1, map[2 := 1], map[1 := 2], map[0 := {2}], map[])

  lemma FirstConnected()
    ensures InsertedWithToken(Db(map[1 := NodeOf(1, 0)], map[], map[], Single(1, 0)), EntryOf(1, 0), 0, 0, None)
         == Db(map[1 := CONNECTED], map[], map[], Single(1, 0))
  {
    assert ValidateInsertion(Single(1, 0), 1, 0, None) == AlreadyExists;
  }

  /** The promotion of a node that is in no bucket, when its subnet is full, takes it out of the index. */
  lemma LostPromoted()
    ensures PromotedOne(Db(map[2 := NodeOf(2, 1)], map[1 := CONNECTED], map[], TWO_HELD), 1, 0, 1, None)
         == Db(map[2 := NodeOf(2, 1), 1 := CONNECTED], map[], map[], TWO_WITHOUT_ONE)
  {
    assert NodeIpLimit.Remove(TWO_HELD, 1) == TWO_WITHOUT_ONE;
    assert Bucket(TWO_WITHOUT_ONE.trusted, 0) == {2} && Bucket(TWO_WITHOUT_ONE.untrusted, 0) == {};
    assert Insert(TWO_WITHOUT_ONE, 1, 0, true, None) == (TWO_WITHOUT_ONE, false);
    assert ValidateInsertion(TWO_HELD, 1, 0, None) == AlreadyExists;
  }

  lemma DemotedAndPromoted() returns (ops: seq<Op>, d: Db)
    ensures var d2 := Db(map[1 := CONNECTED], map[], map[], Single(1, 0));
            |ops| == 3 && PossibleRun(d2, ops) && Run(d2, ops) == Some(d)
    ensures 1 in d.trusted && d.ip == TWO_WITHOUT_ONE
  {
    var d2 := Db(map[1 := CONNECTED], map[], map[], Single(1, 0));
    var d3 := Db(map[], map[1 := CONNECTED], map[], Lost(1, 0));
    var d4 := Db(map[2 := NodeOf(2, 1)], map[1 := CONNECTED], map[], TWO_HELD);
    d := Db(map[2 := NodeOf(2, 1), 1 := CONNECTED], map[], map[], TWO_WITHOUT_ONE);
    FirstDemoted(CONNECTED);
    SecondTrusted(CONNECTED, 0);
    LostPromoted();
    ops := [];
    RunMore(d4, Promote(1, 0, 1, None), d, ops, d);
    ops := [Promote(1, 0, 1, None)] + ops;
    RunMore(d3, InsertTrusted(EntryOf(2, 1), 0, None), d4, ops, d);
    ops := [InsertTrusted(EntryOf(2, 1), 0, None)] + ops;
    RunMore(d2, Demote(1), d3, ops, d);
    ops := [Demote(1)] + ops;
  }

  /** A trusted node can end up outside the index, and tagging it then fails. */
  lemma TaggingFails() returns (ops: seq<Op>, d: Db)
    ensures |ops| == 5 && PossibleRun(Empty(1), ops) && Run(Empty(1), ops) == Some(d)
    ensures 1 in d.trusted && 1 !in d.ip.nodeIndex
    ensures forall key, value :: Step(d, SetTag(1, key, value)).None?
  {
    var d1 := Db(map[1 := NodeOf(1, 0)], map[], map[], Single(1, 0));
    var d2 := Db(map[1 := CONNECTED], map[], map[], Single(1, 0));
    ops, d := DemotedAndPromoted();
    FirstConnected();
    RunMore(d1, InsertWithToken(EntryOf(1, 0), 0, 0, None), d2, ops, d);
    ops := [InsertWithToken(EntryOf(1, 0), 0, 0, None)] + ops;
    FirstTrusted(0);
    RunMore(Empty(1), InsertTrusted(EntryOf(1, 0), 0, None), d1, ops, d);
    ops := [InsertTrusted(EntryOf(1, 0), 0, None)] + ops;
  }

  const UNTRUSTED_ONLY := IpLimit(1, map[1 := 0], map[0 := 1], map[], map[0 := {1}])

  lemma FirstUntrusted()
    ensures InsertedWithToken(Empty(1), EntryOf(1, 0), 0, 0, None)
         == Db(map[], map[1 := CONNECTED], map[], UNTRUSTED_ONLY)
  {
    var l := Empty(1).ip;
    assert |Bucket(l.trusted, 0)| + |Bucket(l.untrusted, 0)| == 0;
    assert AddOrUpdate(l, 0, 1, false) == UNTRUSTED_ONLY;
  }

  lemma MovedWithinSubnet()
    ensures InsertedTrusted(Db(map[], map[1 := CONNECTED], map[], UNTRUSTED_ONLY), EntryOf(1, 1), 0, None)
         == Db(map[], map[], map[], Single(1, 1))
  {
    assert Bucket(UNTRUSTED_ONLY.trusted, 0) == {} && Bucket(UNTRUSTED_ONLY.untrusted, 0) == {1};
    assert ValidateInsertion(UNTRUSTED_ONLY, 1, 1, None) == Evict(1);
    var l := NodeIpLimit.Remove(UNTRUSTED_ONLY, 1);
    assert l == Empty(1).ip;
    assert |Bucket(l.trusted, 0)| + |Bucket(l.untrusted, 0)| == 0;
    assert AddOrUpdate(l, 1, 1, true) == Single(1, 1);
  }

  /** A node that has to make room for itself can end up in the index and in no table. */
  lemma IndexedWithoutNode() returns (ops: seq<Op>, d: Db)
    ensures |ops| == 2 && PossibleRun(Empty(1), ops) && Run(Empty(1), ops) == Some(d)
    ensures 1 in d.ip.nodeIndex && 1 !in d.trusted && 1 !in d.untrusted && 1 !in d.blacklisted
  {
    FirstUntrusted();
    MovedWithinSubnet();
    var d1 := Db(map[], map[1 := CONNECTED], map[], UNTRUSTED_ONLY);
    d := Db(map[], map[], map[], Single(1, 1));
    RunMore(d1, InsertTrusted(EntryOf(1, 1), 0, None), d, [], d);
    ops := [InsertWithToken(EntryOf(1, 0), 0, 0, None)] + ([InsertTrusted(EntryOf(1, 1), 0, None)] + []);
    RunMore(Empty(1), InsertWithToken(EntryOf(1, 0), 0, 0, None), d1, [InsertTrusted(EntryOf(1, 1), 0, None)] + [], d);
  }
}
