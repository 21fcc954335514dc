/**
 The quota of nodes for each address and subnet, with its two indexes and its
 buckets of trusted and untrusted ids.
 */
module NodeIpLimit {
  import opened NodeTable
  import opened Wrappers

  type Subnet = nat

  /** The /24 network of an IPv4 address given as a number. */
  function SubnetOf(ip: Ip): Subnet { ip / 256 }

  type Buckets = map<Subnet, set<NodeId>>

  datatype IpLimit = IpLimit(
    quota: nat, nodeIndex: map<NodeId, Ip>, ipIndex: map<Ip, NodeId>, trusted: Buckets, untrusted: Buckets)

  predicate Enabled(l: IpLimit) { l.quota > 0 }

  /**
   The two indexes are mutually inverse, each bucketed id is indexed and in one
   bucket only, and nothing is indexed while there is no quota.
   */
  ghost predicate Consistent(l: IpLimit) {
    && Inverse(l.nodeIndex, l.ipIndex) && Bucketed(l.nodeIndex, l.trusted, l.untrusted)
    && (!Enabled(l) ==> l.nodeIndex == map[])
  }

  ghost predicate Inverse(nodeIndex: map<NodeId, Ip>, ipIndex: map<Ip, NodeId>) {
    && (forall id :: id in nodeIndex ==> nodeIndex[id] in ipIndex && ipIndex[nodeIndex[id]] == id)
    && (forall ip :: ip in ipIndex ==> ipIndex[ip] in nodeIndex && nodeIndex[ipIndex[ip]] == ip)
  }

  ghost predicate Bucketed(nodeIndex: map<NodeId, Ip>, trusted: Buckets, untrusted: Buckets) {
    && (forall s, id :: id in Bucket(trusted, s) ==> id in nodeIndex && SubnetOf(nodeIndex[id]) == s)
    && (forall s, id :: id in Bucket(untrusted, s) ==>
          id in nodeIndex && SubnetOf(nodeIndex[id]) == s && id !in Bucket(trusted, s))
  }

  function Bucket(b: Buckets, s: Subnet): set<NodeId> { if s in b then b[s] else {} }

  /** Removes an id from its bucket, and the bucket with it when it becomes empty. */
  function RemovedFrom(b: Buckets, s: Subnet, id: NodeId): Buckets {
    if id !in Bucket(b, s) then b
    else if b[s] == {id} then b - {s}
    else b[s := b[s] - {id}]
  }

  /** `remove`. */
  function Remove(l: IpLimit, id: NodeId): (m: IpLimit)
    ensures m.quota == l.quota
  {
    if !Enabled(l) || id !in l.nodeIndex then l
    else
      var ip := l.nodeIndex[id];
      var s := SubnetOf(ip);
      var m := l.(nodeIndex := l.nodeIndex - {id}, ipIndex := l.ipIndex - {ip});
      if id in Bucket(l.trusted, s) then m.(trusted := RemovedFrom(l.trusted, s, id))
      else m.(untrusted := RemovedFrom(l.untrusted, s, id))
  }

  predicate QuotaAllowed(l: IpLimit, ip: Ip) {
    |Bucket(l.trusted, SubnetOf(ip))| + |Bucket(l.untrusted, SubnetOf(ip))| < l.quota
  }

  function AddOrUpdate(l: IpLimit, ip: Ip, id: NodeId, trusted: bool): (r: IpLimit)
    ensures r.quota == l.quota
  {
    var m := Remove(l, id);
    var n := m.(nodeIndex := m.nodeIndex[id := ip], ipIndex := m.ipIndex[ip := id]);
    var s := SubnetOf(ip);
    if trusted then n.(trusted := n.trusted[s := Bucket(n.trusted, s) + {id}])
    else n.(untrusted := n.untrusted[s := Bucket(n.untrusted, s) + {id}])
  }

  /** `insert`. */
  function Insert(l: IpLimit, id: NodeId, ip: Ip, trusted: bool, evictee: Option<NodeId>): (r: (IpLimit, bool))
    ensures r.0.quota == l.quota
  {
    if !Enabled(l) then (l, true)
    else if id in l.nodeIndex && l.nodeIndex[id] == ip then (l, false)
    else
      var m := if evictee.Some? then Remove(l, evictee.value) else l;
      if ip in m.ipIndex then (m, false)
      else if QuotaAllowed(m, ip) then (AddOrUpdate(m, ip, id, trusted), true)
      else (m, false)
  }

  /** `demote`: an id leaves the trusted bucket, and enters the untrusted one if that exists. */
  function Demote(l: IpLimit, id: NodeId): (r: IpLimit)
    ensures r.quota == l.quota
  {
    if id !in l.nodeIndex then l
    else
      var s := SubnetOf(l.nodeIndex[id]);
      if id !in Bucket(l.trusted, s) then l
      else
        var m := l.(trusted := l.trusted[s := l.trusted[s] - {id}]);
        if s in m.untrusted then m.(untrusted := m.untrusted[s := m.untrusted[s] + {id}]) else m
  }

  datatype ValidateInsertResult =
    | AlreadyExists | OccupyIp(id: NodeId) | QuotaEnough | Evict(id: NodeId) | QuotaNotEnough

  /** `validate_insertion`; `choice` is the evictee that the bucket selects, if any. */
  function ValidateInsertion(l: IpLimit, id: NodeId, ip: Ip, choice: Option<NodeId>): ValidateInsertResult {
    if !Enabled(l) then QuotaEnough
    else if id in l.nodeIndex && l.nodeIndex[id] == ip then AlreadyExists
    else if ip in l.ipIndex then OccupyIp(l.ipIndex[ip])
    else if QuotaAllowed(l, ip) then QuotaEnough
    else if id in l.nodeIndex && SubnetOf(l.nodeIndex[id]) == SubnetOf(ip) then Evict(id)
    else if choice.Some? then Evict(choice.value)
    else QuotaNotEnough
  }

  /** The bucket selects one of its own ids. */
  ghost predicate Selectable(l: IpLimit, ip: Ip, choice: Option<NodeId>) {
    choice.Some? ==> choice.value in Bucket(l.untrusted, SubnetOf(ip)) + Bucket(l.trusted, SubnetOf(ip))
  }

  function Evictee(v: ValidateInsertResult): Option<NodeId> {
    match v
    case OccupyIp(id) => Some(id)
    case Evict(id) => Some(id)
    case AlreadyExists => None
    case QuotaEnough => None
    case QuotaNotEnough => None
  }

  // ---------------------------------------------------------------- what every operation keeps

  lemma RemoveInverse(n: map<NodeId, Ip>, i: map<Ip, NodeId>, id: NodeId)
    requires Inverse(n, i) && id in n
    ensures Inverse(n - {id}, i - {n[id]})
  {
  }

  lemma RemoveBucketed(n: map<NodeId, Ip>, t: Buckets, u: Buckets, id: NodeId)
    requires Bucketed(n, t, u) && id in n
    ensures var s := SubnetOf(n[id]);
            if id in Bucket(t, s) then Bucketed(n - {id}, RemovedFrom(t, s, id), u)
            else Bucketed(n - {id}, t, RemovedFrom(u, s, id))
  {
    var s := SubnetOf(n[id]);
    if id in Bucket(t, s) { RemoveTrusted(n, t, u, id); } else { RemoveUntrusted(n, t, u, id); }
  }

  lemma RemoveTrusted(n: map<NodeId, Ip>, t: Buckets, u: Buckets, id: NodeId)
    requires Bucketed(n, t, u) && id in n && id in Bucket(t, SubnetOf(n[id]))
    ensures Bucketed(n - {id}, RemovedFrom(t, SubnetOf(n[id]), id), u)
  {
    var s := SubnetOf(n[id]);
    BucketAfterRemove(t, s, id);
    var t' := RemovedFrom(t, s, id);
    forall r, x | x in Bucket(t', r) ensures x in n - {id} && SubnetOf((n - {id})[x]) == r {
      assert x in Bucket(t, r);
    }
    forall r, x | x in Bucket(u, r)
      ensures x in n - {id} && SubnetOf((n - {id})[x]) == r && x !in Bucket(t', r)
    {
      assert x in n && SubnetOf(n[x]) == r && x !in Bucket(t, r);
    }
  }

  lemma RemoveUntrusted(n: map<NodeId, Ip>, t: Buckets, u: Buckets, id: NodeId)
    requires Bucketed(n, t, u) && id in n && id !in Bucket(t, SubnetOf(n[id]))
    ensures Bucketed(n - {id}, t, RemovedFrom(u, SubnetOf(n[id]), id))
  {
    var s := SubnetOf(n[id]);
    BucketAfterRemove(u, s, id);
    forall r, x | x in Bucket(t, r) ensures x in n - {id} && SubnetOf((n - {id})[x]) == r {
      assert x in n && SubnetOf(n[x]) == r;
    }
    forall r, x | x in Bucket(RemovedFrom(u, s, id), r)
      ensures x in n - {id} && SubnetOf((n - {id})[x]) == r && x !in Bucket(t, r)
    {
      assert x in Bucket(u, r);
    }
  }

  lemma BucketAfterRemove(b: Buckets, s: Subnet, id: NodeId)
    ensures forall r :: Bucket(RemovedFrom(b, s, id), r) == if r == s then Bucket(b, r) - {id} else Bucket(b, r)
  {
  }

  lemma RemoveConsistent(l: IpLimit, id: NodeId)
    requires Consistent(l)
    ensures Consistent(Remove(l, id))
    ensures Remove(l, id).ipIndex.Keys <= l.ipIndex.Keys
    ensures Remove(l, id).nodeIndex.Keys == l.nodeIndex.Keys - {id}
  {
    if Enabled(l) && id in l.nodeIndex {
      RemoveInverse(l.nodeIndex, l.ipIndex, id);
      RemoveBucketed(l.nodeIndex, l.trusted, l.untrusted, id);
    }
  }

  lemma AddInverse(n: map<NodeId, Ip>, i: map<Ip, NodeId>, id: NodeId, ip: Ip)
    requires Inverse(n, i) && id !in n && ip !in i
    ensures Inverse(n[id := ip], i[ip := id])
  {
  }

  lemma AddTrusted(n: map<NodeId, Ip>, t: Buckets, u: Buckets, id: NodeId, ip: Ip)
    requires Bucketed(n, t, u) && id !in n
    ensures var s := SubnetOf(ip); Bucketed(n[id := ip], t[s := Bucket(t, s) + {id}], u)
  {
    var s := SubnetOf(ip);
    var t' := t[s := Bucket(t, s) + {id}];
    forall r, x | x in Bucket(t', r) ensures x in n[id := ip] && SubnetOf(n[id := ip][x]) == r {
      assert (x == id && r == s) || x in Bucket(t, r);
    }
    forall r, x | x in Bucket(u, r)
      ensures x in n[id := ip] && SubnetOf(n[id := ip][x]) == r && x !in Bucket(t', r)
    {
      assert x in n && x !in Bucket(t, r);
    }
  }

  lemma AddUntrusted(n: map<NodeId, Ip>, t: Buckets, u: Buckets, id: NodeId, ip: Ip)
    requires Bucketed(n, t, u) && id !in n
    ensures var s := SubnetOf(ip); Bucketed(n[id := ip], t, u[s := Bucket(u, s) + {id}])
  {
    var s := SubnetOf(ip);
    var u' := u[s := Bucket(u, s) + {id}];
    forall r, x | x in Bucket(u', r)
      ensures x in n[id := ip] && SubnetOf(n[id := ip][x]) == r && x !in Bucket(t, r)
    {
      assert (x == id && r == s) || x in Bucket(u, r);
      assert x in Bucket(t, r) ==> x in n;
    }
    forall r, x | x in Bucket(t, r) ensures x in n[id := ip] && SubnetOf(n[id := ip][x]) == r {
      assert x in n;
    }
  }

  lemma AddConsistent(l: IpLimit, ip: Ip, id: NodeId, trusted: bool)
    requires Consistent(l) && Enabled(l) && ip !in l.ipIndex
    ensures Consistent(AddOrUpdate(l, ip, id, trusted))
    ensures AddOrUpdate(l, ip, id, trusted).nodeIndex.Keys == l.nodeIndex.Keys + {id}
  {
    RemoveConsistent(l, id);
    var m := Remove(l, id);
    AddInverse(m.nodeIndex, m.ipIndex, id, ip);
    if trusted {
      AddTrusted(m.nodeIndex, m.trusted, m.untrusted, id, ip);
    } else {
      AddUntrusted(m.nodeIndex, m.trusted, m.untrusted, id, ip);
    }
  }

  lemma InsertConsistent(l: IpLimit, id: NodeId, ip: Ip, trusted: bool, evictee: Option<NodeId>)
    requires Consistent(l)
    ensures Consistent(Insert(l, id, ip, trusted, evictee).0)
    ensures Insert(l, id, ip, trusted, evictee).0.nodeIndex.Keys <= l.nodeIndex.Keys + {id}
  {
    if Enabled(l) && !(id in l.nodeIndex && l.nodeIndex[id] == ip) {
      if evictee.Some? { RemoveConsistent(l, evictee.value); }
      var m := if evictee.Some? then Remove(l, evictee.value) else l;
      if ip !in m.ipIndex && QuotaAllowed(m, ip) { AddConsistent(m, ip, id, trusted); }
    }
  }

  lemma DemoteConsistent(l: IpLimit, id: NodeId)
    requires Consistent(l)
    ensures Consistent(Demote(l, id))
    ensures Demote(l, id).nodeIndex == l.nodeIndex
  {
    var m := Demote(l, id);
    if id in l.nodeIndex {
      forall r, x | x in Bucket(m.trusted, r) ensures x in Bucket(l.trusted, r) {}
      forall r, x | x in Bucket(m.untrusted, r)
        ensures x in l.nodeIndex && SubnetOf(l.nodeIndex[x]) == r && x !in Bucket(m.trusted, r)
      {
        assert x in Bucket(l.untrusted, r) || (x == id && r == SubnetOf(l.nodeIndex[id]));
      }
      assert Bucketed(m.nodeIndex, m.trusted, m.untrusted);
    }
  }

  // ---------------------------------------------------------------- where an id is filed

  /** The address an id is indexed under, and which of the two buckets of its subnet hold it. */
  datatype Filing = Unfiled | Filed(ip: Ip, inTrusted: bool, inUntrusted: bool)

  function FilingOf(l: IpLimit, x: NodeId): Filing {
    if x !in l.nodeIndex then Unfiled
    else
      var ip := l.nodeIndex[x];
      Filed(ip, x in Bucket(l.trusted, SubnetOf(ip)), x in Bucket(l.untrusted, SubnetOf(ip)))
  }

  predicate InABucket(f: Filing) { f.Filed? ==> f.inTrusted || f.inUntrusted }

  /** Every indexed id is in a bucket. */
  ghost predicate AllBucketed(l: IpLimit) {
    forall x :: InABucket(FilingOf(l, x))
  }

  lemma RemoveFiling(l: IpLimit, id: NodeId, x: NodeId)
    requires Enabled(l)
    ensures FilingOf(Remove(l, id), x) == if x == id then Unfiled else FilingOf(l, x)
  {
    if id in l.nodeIndex {
      BucketAfterRemove(l.trusted, SubnetOf(l.nodeIndex[id]), id);
      BucketAfterRemove(l.untrusted, SubnetOf(l.nodeIndex[id]), id);
    }
  }

  lemma AddFiling(l: IpLimit, ip: Ip, id: NodeId, trusted: bool, x: NodeId)
    requires Consistent(l) && Enabled(l)
    ensures FilingOf(AddOrUpdate(l, ip, id, trusted), x)
         == if x == id then Filed(ip, trusted, !trusted) else FilingOf(l, x)
  {
    RemoveFiling(l, id, x);
    RemoveConsistent(l, id);
  }

  /** A demoted id is left in no bucket when its subnet has no untrusted one. */
  lemma DemoteFiling(l: IpLimit, id: NodeId, x: NodeId)
    ensures FilingOf(Demote(l, id), x)
         == if x == id && FilingOf(l, id).Filed? && FilingOf(l, id).inTrusted
            then Filed(l.nodeIndex[id], false,
                       FilingOf(l, id).inUntrusted || SubnetOf(l.nodeIndex[id]) in l.untrusted)
            else FilingOf(l, x)
  {
  }

  lemma RemoveAllBucketed(l: IpLimit, id: NodeId)
    requires Consistent(l) && AllBucketed(l)
    ensures AllBucketed(Remove(l, id))
  {
    if Enabled(l) {
      forall x ensures InABucket(FilingOf(Remove(l, id), x)) { RemoveFiling(l, id, x); }
    }
  }

  lemma InsertAllBucketed(l: IpLimit, id: NodeId, ip: Ip, trusted: bool, evictee: Option<NodeId>)
    requires Consistent(l) && AllBucketed(l)
    ensures AllBucketed(Insert(l, id, ip, trusted, evictee).0)
  {
    if Enabled(l) && !(id in l.nodeIndex && l.nodeIndex[id] == ip) {
      if evictee.Some? {
        RemoveAllBucketed(l, evictee.value);
        RemoveConsistent(l, evictee.value);
      }
      var m := if evictee.Some? then Remove(l, evictee.value) else l;
      if ip !in m.ipIndex && QuotaAllowed(m, ip) {
        forall x ensures InABucket(FilingOf(AddOrUpdate(m, ip, id, trusted), x)) { AddFiling(m, ip, id, trusted, x); }
      }
    }
  }

  /** The demotion that loses an id: out of the trusted bucket, into an untrusted one that does not exist. */
  predicate DemotionLoses(l: IpLimit, id: NodeId) {
    id in l.nodeIndex && id in Bucket(l.trusted, SubnetOf(l.nodeIndex[id])) && SubnetOf(l.nodeIndex[id]) !in l.untrusted
  }

  /** Demotion keeps every indexed id in a bucket exactly when it does not lose one. */
  lemma DemoteAllBucketed(l: IpLimit, id: NodeId)
    requires Consistent(l) && AllBucketed(l)
    ensures AllBucketed(Demote(l, id)) <==> !DemotionLoses(l, id)
  {
    DemoteFiling(l, id, id);
    if DemotionLoses(l, id) {
      assert !InABucket(FilingOf(Demote(l, id), id));
    } else {
      forall x ensures InABucket(FilingOf(Demote(l, id), x)) {
        DemoteFiling(l, id, x);
        assert InABucket(FilingOf(l, x));
      }
    }
  }

  // ---------------------------------------------------------------- the quota

  /** The ids a subnet holds: those indexed under one of its addresses. */
  ghost function Held(l: IpLimit, s: Subnet): set<NodeId> {
    set x | x in l.nodeIndex && SubnetOf(l.nodeIndex[x]) == s
  }

  /** No subnet has more ids in its two buckets than its quota. */
  ghost predicate WithinQuota(l: IpLimit) {
    forall s :: |Bucket(l.trusted, s)| + |Bucket(l.untrusted, s)| <= l.quota
  }

  /** While every indexed id is in a bucket, no subnet holds more ids than its quota. */
  lemma HeldWithinQuota(l: IpLimit, s: Subnet)
    requires Consistent(l) && WithinQuota(l) && AllBucketed(l)
    ensures |Held(l, s)| <= l.quota
  {
    var t, u := Bucket(l.trusted, s), Bucket(l.untrusted, s);
    forall x ensures x in Held(l, s) <==> x in t + u {
      assert InABucket(FilingOf(l, x));
    }
    assert Held(l, s) == t + u;
    assert t !! u;
  }

  lemma RemoveWithin(l: IpLimit, id: NodeId)
    requires WithinQuota(l)
    ensures WithinQuota(Remove(l, id))
    ensures forall s :: |Bucket(Remove(l, id).trusted, s)| <= |Bucket(l.trusted, s)|
    ensures forall s :: |Bucket(Remove(l, id).untrusted, s)| <= |Bucket(l.untrusted, s)|
  {
    if Enabled(l) && id in l.nodeIndex {
      BucketAfterRemove(l.trusted, SubnetOf(l.nodeIndex[id]), id);
      BucketAfterRemove(l.untrusted, SubnetOf(l.nodeIndex[id]), id);
    }
  }

  lemma InsertWithin(l: IpLimit, id: NodeId, ip: Ip, trusted: bool, evictee: Option<NodeId>)
    requires WithinQuota(l)
    ensures WithinQuota(Insert(l, id, ip, trusted, evictee).0)
  {
    if Enabled(l) && !(id in l.nodeIndex && l.nodeIndex[id] == ip) {
      if evictee.Some? { RemoveWithin(l, evictee.value); }
      var m := if evictee.Some? then Remove(l, evictee.value) else l;
      if ip !in m.ipIndex && QuotaAllowed(m, ip) { AddWithin(m, ip, id, trusted); }
    }
  }

  lemma AddWithin(l: IpLimit, ip: Ip, id: NodeId, trusted: bool)
    requires WithinQuota(l) && QuotaAllowed(l, ip)
    ensures WithinQuota(AddOrUpdate(l, ip, id, trusted))
  {
    RemoveWithin(l, id);
    var m, n := Remove(l, id), AddOrUpdate(l, ip, id, trusted);
    forall s ensures |Bucket(n.trusted, s)| + |Bucket(n.untrusted, s)| <= n.quota {
      assert |Bucket(m.trusted, s)| + |Bucket(m.untrusted, s)| <= m.quota;
    }
  }

  lemma DemoteWithin(l: IpLimit, id: NodeId)
    requires WithinQuota(l)
    ensures WithinQuota(Demote(l, id))
  {
    var m := Demote(l, id);
    forall s ensures |Bucket(m.trusted, s)| + |Bucket(m.untrusted, s)| <= m.quota {
      assert |Bucket(l.trusted, s)| + |Bucket(l.untrusted, s)| <= l.quota;
    }
  }

  /** An evictee is always an indexed id. */
  lemma EvicteeIsIndexed(l: IpLimit, id: NodeId, ip: Ip, choice: Option<NodeId>)
    requires Consistent(l) && Selectable(l, ip, choice)
    ensures var e := Evictee(ValidateInsertion(l, id, ip, choice)); e.Some? ==> e.value in l.nodeIndex
  {
  }
}
