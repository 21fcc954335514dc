/**
 The node database: trusted, untrusted and blacklisted nodes, and the operations
 that move nodes between them.
 */
module NodeDatabase {
  import opened NodeTable
  import opened NodeIpLimit
  import opened Wrappers

  const BLACKLISTED_LIFETIME: Time := 7 * 24 * 3600

  datatype Db = Db(trusted: Nodes, untrusted: Nodes, blacklisted: Nodes, ip: IpLimit)

  // ---------------------------------------------------------------- the operations

  /** `remove`. */
  function Dropped(db: Db, id: NodeId): (r: (Db, Option<Node>))
    ensures r.0.ip.quota == db.ip.quota
  {
    if id in db.trusted then
      (db.(trusted := db.trusted - {id}, ip := NodeIpLimit.Remove(db.ip, id)), Some(db.trusted[id]))
    else if id in db.untrusted then
      (db.(untrusted := db.untrusted - {id}, ip := NodeIpLimit.Remove(db.ip, id)), Some(db.untrusted[id]))
    else if id in db.blacklisted then
      (db.(blacklisted := db.blacklisted - {id}), Some(db.blacklisted[id]))
    else (db, None)
  }

  /** A blacklist entry without contact, or with one that is too old, no longer counts. */
  predicate Expired(n: Node, now: Time) {
    match n.lastContact
    case None => true
    case Some(c) => now > c.time && now - c.time > BLACKLISTED_LIFETIME
  }

  /** `evaluate_blacklisted`. */
  function EvaluatedBlacklist(db: Db, id: NodeId, now: Time): (r: (Db, bool))
    ensures r.0.ip.quota == db.ip.quota
  {
    if id !in db.blacklisted then (db, false)
    else if Expired(db.blacklisted[id], now) then (db.(blacklisted := db.blacklisted - {id}), false)
    else (db, true)
  }

  function Evicted(db: Db, evictee: Option<NodeId>): (r: Db)
    ensures r.ip.quota == db.ip.quota
  {
    if evictee.Some? then Dropped(db, evictee.value).0 else db
  }

  /** `insert_ip_limit`; `choice` is what the bucket would evict. */
  function WithIpLimit(db: Db, id: NodeId, ip: Ip, trusted: bool, choice: Option<NodeId>): (r: (Db, bool))
    ensures r.0.ip.quota == db.ip.quota
  {
    var v := ValidateInsertion(db.ip, id, ip, choice);
    match v
    case AlreadyExists => (db, true)
    case QuotaNotEnough => (db, false)
    case _ =>
      var e := Evicted(db, Evictee(v));
      var (limit, ok) := NodeIpLimit.Insert(e.ip, id, ip, trusted, Evictee(v));
      (e.(ip := limit), ok)
  }

  /** `promote_with_untrusted`. */
  function TakenForPromotion(db: Db, id: NodeId, ip: Ip, choice: Option<NodeId>): (r: (Db, Option<Node>))
    ensures r.0.ip.quota == db.ip.quota
  {
    var v := ValidateInsertion(db.ip, id, ip, choice);
    if v == QuotaNotEnough then (db, None)
    else
      var e := Evicted(db, Evictee(v));
      var limit := NodeIpLimit.Insert(NodeIpLimit.Remove(e.ip, id), id, ip, true, Evictee(v)).0;
      (e.(ip := limit, untrusted := e.untrusted - {id}),
       if id in e.untrusted then Some(e.untrusted[id]) else None)
  }

  function Contacted(entry: NodeEntry, now: Time): Node {
    NewNode(entry.id, entry.endpoint).(lastContact := Some(Success(now)))
  }

  /** `insert_with_token`. */
  function InsertedWithToken(db0: Db, entry: NodeEntry, token: nat, now: Time, choice: Option<NodeId>): Db {
    var (db, banned) := EvaluatedBlacklist(db0, entry.id, now);
    if banned then db
    else PlacedInItsTable(db, WithToken(entry, token, now), choice)
  }

  function WithToken(entry: NodeEntry, token: nat, now: Time): Node {
    Contacted(entry, now).(lastConnected := Some(Success(now)), streamToken := Some(token))
  }

  function PlacedInItsTable(db: Db, node: Node, choice: Option<NodeId>): Db {
    var trusted := node.id in db.trusted;
    var (d, ok) := WithIpLimit(db, node.id, node.endpoint.ip, trusted, choice);
    if !ok then d
    else if trusted then d.(trusted := MapAddNode(d.trusted, node, false))
    else d.(untrusted := MapAddNode(d.untrusted, node, false))
  }

  /** `insert_with_conditional_promotion`. */
  function InsertedWithPromotion(db0: Db, entry: NodeEntry, now: Time, choice: Option<NodeId>): Db {
    var (db, banned) := EvaluatedBlacklist(db0, entry.id, now);
    if banned then db else PlacedConditionally(db, Contacted(entry, now), choice)
  }

  function PlacedConditionally(db: Db, node: Node, choice: Option<NodeId>): Db {
    if node.id in db.untrusted then
      if NodeReputation(db.untrusted[node.id].lastContact) == DemotedLevel then db
      else
        var (d, prior) := TakenForPromotion(db, node.id, node.endpoint.ip, choice);
        if prior.None? then d
        else
          d.(trusted := MapAddNode(d.trusted,
               node.(lastConnected := prior.value.lastConnected, streamToken := prior.value.streamToken), false))
    else
      var (d, ok) := WithIpLimit(db, node.id, node.endpoint.ip, true, choice);
      if ok then d.(trusted := MapUpdateLastContact(d.trusted, node)) else d
  }

  /** `insert_trusted`. */
  function InsertedTrusted(db0: Db, entry: NodeEntry, now: Time, choice: Option<NodeId>): Db {
    var (db, banned) := EvaluatedBlacklist(db0, entry.id, now);
    if banned || entry.id in db.trusted then db
    else PlacedTrusted(db, NewNode(entry.id, entry.endpoint), choice)
  }

  function PlacedTrusted(db: Db, node: Node, choice: Option<NodeId>): Db {
    if node.id in db.untrusted then
      var (d, prior) := TakenForPromotion(db, node.id, node.endpoint.ip, choice);
      if prior.None? then d
      else
        d.(trusted := MapAddNode(d.trusted,
             node.(lastContact := prior.value.lastContact, lastConnected := prior.value.lastConnected,
                   streamToken := prior.value.streamToken), false))
    else
      var (d, ok) := WithIpLimit(db, node.id, node.endpoint.ip, true, choice);
      if ok then d.(trusted := MapAddNode(d.trusted, node, false)) else d
  }

  function NotedFailure(db: Db, id: NodeId, byConnection: bool, trustedOnly: bool, now: Time): Db {
    var contact := Some(Failure(now));
    var d := db.(trusted := MapNoteUnsuccess(db.trusted, id, byConnection, contact));
    if trustedOnly then d else d.(untrusted := MapNoteUnsuccess(d.untrusted, id, byConnection, contact))
  }

  function NotedSuccess(db: Db, id: NodeId, token: Option<nat>, trustedOnly: bool, now: Time): Db {
    var d := db.(trusted := MapNoteSuccess(db.trusted, id, token.Some?, token, now));
    if trustedOnly then d else d.(untrusted := MapNoteSuccess(d.untrusted, id, token.Some?, token, now))
  }

  /** `note_demoted`; `None` is its failed assertion. */
  function NotedDemoted(db: Db, id: NodeId, byConnection: bool, now: Time): Option<Db> {
    if id in db.trusted then None
    else Some(db.(untrusted := MapNoteUnsuccess(db.untrusted, id, byConnection, Some(Demoted(now)))))
  }

  /** A connection that has succeeded for longer than `due`. */
  predicate LongConnected(n: Node, due: Time, now: Time) {
    match n.lastConnected
    case Some(Success(t)) => now > t && now - t > due
    case _ => false
  }

  /** One round of the loop in `promote`. */
  function PromotedOne(db: Db, id: NodeId, due: Time, now: Time, choice: Option<NodeId>): Db {
    if id in db.trusted || id !in db.untrusted || !LongConnected(db.untrusted[id], due, now) then db
    else
      var node := db.untrusted[id].(lastContact := db.untrusted[id].lastConnected);
      var d := TakenForPromotion(db.(untrusted := db.untrusted - {id}), id, node.endpoint.ip, choice).0;
      d.(trusted := MapAddNode(d.trusted, node, false))
  }

  /** `demote`. */
  function DemotedNode(db: Db, id: NodeId): Db {
    var d := db.(ip := NodeIpLimit.Demote(db.ip, id));
    if id in d.trusted
    then d.(trusted := d.trusted - {id}, untrusted := MapAddNode(d.untrusted, d.trusted[id], false))
    else d
  }

  /** `set_blacklisted`. */
  function Blacklisted(db: Db, id: NodeId, now: Time): Db {
    var (d, node) := Dropped(NotedFailure(db, id, true, false, now), id);
    if node.Some? then d.(blacklisted := MapAddNode(d.blacklisted, node.value, false)) else d
  }

  /** `set_tag`, except for the index of tags; `None` is its panic for a trusted node that is not indexed. */
  function WithTag(db: Db, id: NodeId, key: string, value: string): Option<Db> {
    if id in db.trusted then
      if Enabled(db.ip) && id !in db.ip.nodeIndex then None
      else Some(db.(trusted := MapSetTag(db.trusted, id, key, value)))
    else Some(db.(untrusted := MapSetTag(db.untrusted, id, key, value)))
  }

  function Table(db: Db, trusted: bool): Nodes { if trusted then db.trusted else db.untrusted }

  function OutOf(db: Db, trusted: bool, id: NodeId): Db {
    if trusted then db.(trusted := db.trusted - {id}) else db.(untrusted := db.untrusted - {id})
  }

  /** One pass of the loop of `init`; `None` is a panic.  The evictee leaves only the table that is being loaded. */
  function LoadedOne(db: Db, trusted: bool, id: NodeId, choice: Option<NodeId>): Option<Db> {
    if id !in Table(db, trusted) then None
    else
      var ip := Table(db, trusted)[id].endpoint.ip;
      var v := ValidateInsertion(db.ip, id, ip, choice);
      if v == AlreadyExists then None
      else if v == QuotaNotEnough then Some(OutOf(db, trusted, id))
      else
        var d := if Evictee(v).Some? then OutOf(db, trusted, Evictee(v).value) else db;
        var (limit, ok) := NodeIpLimit.Insert(d.ip, id, ip, trusted, Evictee(v));
        if ok then Some(d.(ip := limit)) else None
  }

  /** What the buckets select for the `i`-th id of a list, with the address index as it is then. */
  type Choose = (nat, IpLimit, Ip) -> Option<NodeId>

  ghost predicate Selects(choose: Choose) {
    forall i, l, ip :: Selectable(l, ip, choose(i, l, ip))
  }

  function ChosenFor(choose: Choose, i: nat, l: IpLimit, node: Option<Node>): Option<NodeId> {
    if node.Some? then choose(i, l, node.value.endpoint.ip) else None
  }

  function NodeAt(m: Nodes, x: NodeId): Option<Node> { if x in m then Some(m[x]) else None }

  /** The whole of `init`, as a fold of its rounds. */
  function Loaded(db: Db, trusted: bool, ids: seq<NodeId>, choose: Choose): Option<Db> {
    if ids == [] then Some(db)
    else
      var n := |ids| - 1;
      match Loaded(db, trusted, ids[..n], choose)
      case None => None
      case Some(d) => LoadedOne(d, trusted, ids[n], ChosenFor(choose, n, d.ip, NodeAt(Table(d, trusted), ids[n])))
  }

  /** The whole of `promote`, as a fold of its rounds. */
  function PromotedAll(db: Db, ids: seq<NodeId>, due: Time, now: Time, choose: Choose): Db {
    if ids == [] then db
    else
      var n := |ids| - 1;
      var d := PromotedAll(db, ids[..n], due, now, choose);
      PromotedOne(d, ids[n], due, now, ChosenFor(choose, n, d.ip, NodeAt(d.untrusted, ids[n])))
  }

  // ---------------------------------------------------------------- every run

  datatype Op =
    | InsertWithToken(entry: NodeEntry, streamToken: nat, now: Time, choice: Option<NodeId>)
    | InsertWithPromotion(entry: NodeEntry, now: Time, choice: Option<NodeId>)
    | InsertTrusted(entry: NodeEntry, now: Time, choice: Option<NodeId>)
    | NoteFailure(id: NodeId, byConnection: bool, trustedOnly: bool, now: Time)
    | NoteSuccess(id: NodeId, token: Option<nat>, trustedOnly: bool, now: Time)
    | NoteDemoted(id: NodeId, byConnection: bool, now: Time)
    | Promote(id: NodeId, due: Time, now: Time, choice: Option<NodeId>)
    | Demote(id: NodeId)
    | Remove(id: NodeId)
    | SetBlacklisted(id: NodeId, now: Time)
    | EvaluateBlacklisted(id: NodeId, now: Time)
    | SetTag(id: NodeId, key: string, value: string)

  function Step(db: Db, op: Op): Option<Db> {
    match op
    case InsertWithToken(e, t, now, c) => Some(InsertedWithToken(db, e, t, now, c))
    case InsertWithPromotion(e, now, c) => Some(InsertedWithPromotion(db, e, now, c))
    case InsertTrusted(e, now, c) => Some(InsertedTrusted(db, e, now, c))
    case NoteFailure(id, b, t, now) => Some(NotedFailure(db, id, b, t, now))
    case NoteSuccess(id, tok, t, now) => Some(NotedSuccess(db, id, tok, t, now))
    case NoteDemoted(id, b, now) => NotedDemoted(db, id, b, now)
    case Promote(id, due, now, c) => Some(PromotedOne(db, id, due, now, c))
    case Demote(id) => Some(DemotedNode(db, id))
    case Remove(id) => Some(Dropped(db, id).0)
    case SetBlacklisted(id, now) => Some(Blacklisted(db, id, now))
    case EvaluateBlacklisted(id, now) => Some(EvaluatedBlacklist(db, id, now).0)
    case SetTag(id, key, value) => WithTag(db, id, key, value)
  }

  /** The bucket can only choose one of the ids it holds. */
  ghost predicate Possible(db: Db, op: Op) {
    match op
    case InsertWithToken(e, _, _, c) => Selectable(db.ip, e.endpoint.ip, c)
    case InsertWithPromotion(e, _, c) => Selectable(db.ip, e.endpoint.ip, c)
    case InsertTrusted(e, _, c) => Selectable(db.ip, e.endpoint.ip, c)
    case Promote(id, _, _, c) => id in db.untrusted ==> Selectable(db.ip, db.untrusted[id].endpoint.ip, c)
    case _ => true
  }

  /** Each id is in at most one table, and the address index knows no blacklisted id. */
  ghost predicate Disjoint(db: Db) {
    && Keyed(db.trusted) && Keyed(db.untrusted) && Keyed(db.blacklisted)
    && db.trusted.Keys !! db.untrusted.Keys
    && db.trusted.Keys !! db.blacklisted.Keys
    && db.untrusted.Keys !! db.blacklisted.Keys
    && Consistent(db.ip) && WithinQuota(db.ip)
    && db.ip.nodeIndex.Keys !! db.blacklisted.Keys
  }

  lemma DroppedKeeps(db: Db, id: NodeId)
    requires Disjoint(db)
    ensures Disjoint(Dropped(db, id).0)
    ensures id in db.ip.nodeIndex ==> Dropped(db, id).0.blacklisted == db.blacklisted
    ensures Dropped(db, id).1.Some? ==>
              var (d, n) := Dropped(db, id);
              n.value.id == id && id !in d.trusted && id !in d.untrusted && id !in d.ip.nodeIndex
  {
    RemoveConsistent(db.ip, id);
    RemoveWithin(db.ip, id);
  }

  lemma EvaluatedKeeps(db: Db, id: NodeId, now: Time)
    requires Disjoint(db)
    ensures Disjoint(EvaluatedBlacklist(db, id, now).0)
    ensures !EvaluatedBlacklist(db, id, now).1 ==> id !in EvaluatedBlacklist(db, id, now).0.blacklisted
  {
  }

  /** Making room for an id that is not blacklisted touches no blacklist entry. */
  lemma EvictedKeeps(db: Db, id: NodeId, ip: Ip, choice: Option<NodeId>)
    requires Disjoint(db) && Selectable(db.ip, ip, choice)
    ensures var e := Evicted(db, Evictee(ValidateInsertion(db.ip, id, ip, choice)));
            && Disjoint(e) && e.blacklisted == db.blacklisted
            && e.trusted.Keys <= db.trusted.Keys && e.untrusted.Keys <= db.untrusted.Keys
  {
    var v := Evictee(ValidateInsertion(db.ip, id, ip, choice));
    EvicteeIsIndexed(db.ip, id, ip, choice);
    if v.Some? { DroppedKeeps(db, v.value); }
  }

  /** A new address index without blacklisted ids may take the place of the old one. */
  lemma IpPut(e: Db, limit: IpLimit)
    requires Disjoint(e) && Consistent(limit) && WithinQuota(limit) && limit.nodeIndex.Keys !! e.blacklisted.Keys
    ensures Disjoint(e.(ip := limit))
  {
  }

  lemma WithIpLimitKeeps(db: Db, id: NodeId, ip: Ip, trusted: bool, choice: Option<NodeId>)
    requires Disjoint(db) && Selectable(db.ip, ip, choice) && id !in db.blacklisted
    ensures var d := WithIpLimit(db, id, ip, trusted, choice).0;
            && Disjoint(d) && d.blacklisted == db.blacklisted
            && d.trusted.Keys <= db.trusted.Keys && d.untrusted.Keys <= db.untrusted.Keys
  {
    var v := ValidateInsertion(db.ip, id, ip, choice);
    if v != AlreadyExists && v != QuotaNotEnough {
      EvictedKeeps(db, id, ip, choice);
      var e := Evicted(db, Evictee(v));
      InsertConsistent(e.ip, id, ip, trusted, Evictee(v));
      InsertWithin(e.ip, id, ip, trusted, Evictee(v));
      IpPut(e, NodeIpLimit.Insert(e.ip, id, ip, trusted, Evictee(v)).0);
    }
  }

  lemma TakenKeeps(db: Db, id: NodeId, ip: Ip, choice: Option<NodeId>)
    requires Disjoint(db) && Selectable(db.ip, ip, choice) && id !in db.blacklisted
    ensures var (d, prior) := TakenForPromotion(db, id, ip, choice);
            && Disjoint(d) && d.blacklisted == db.blacklisted
            && d.trusted.Keys <= db.trusted.Keys && d.untrusted.Keys <= db.untrusted.Keys
            && (prior.Some? ==> id !in d.untrusted)
            && (id !in db.untrusted ==> id !in d.untrusted)
  {
    var v := ValidateInsertion(db.ip, id, ip, choice);
    if v != QuotaNotEnough {
      EvictedKeeps(db, id, ip, choice);
      var e := Evicted(db, Evictee(v));
      RemoveConsistent(e.ip, id);
      RemoveWithin(e.ip, id);
      var l := NodeIpLimit.Remove(e.ip, id);
      InsertConsistent(l, id, ip, true, Evictee(v));
      InsertWithin(l, id, ip, true, Evictee(v));
      IpPut(e, NodeIpLimit.Insert(l, id, ip, true, Evictee(v)).0);
    }
  }

  /** A node whose id is in no other table may be put into the trusted one, */
  lemma TrustedPut(d: Db, node: Node)
    requires Disjoint(d) && node.id !in d.untrusted && node.id !in d.blacklisted
    ensures Disjoint(d.(trusted := d.trusted[node.id := node]))
  {
  }

  /** or into the untrusted one. */
  lemma UntrustedPut(d: Db, node: Node)
    requires Disjoint(d) && node.id !in d.trusted && node.id !in d.blacklisted
    ensures Disjoint(d.(untrusted := d.untrusted[node.id := node]))
  {
  }

  lemma InsertedWithTokenKeeps(db: Db, entry: NodeEntry, token: nat, now: Time, choice: Option<NodeId>)
    requires Disjoint(db) && Selectable(db.ip, entry.endpoint.ip, choice)
    ensures Disjoint(InsertedWithToken(db, entry, token, now, choice))
    ensures InsertedWithToken(db, entry, token, now, choice).blacklisted
         == EvaluatedBlacklist(db, entry.id, now).0.blacklisted
  {
    EvaluatedKeeps(db, entry.id, now);
    var (d, banned) := EvaluatedBlacklist(db, entry.id, now);
    if !banned {
      var trusted := entry.id in d.trusted;
      WithIpLimitKeeps(d, entry.id, entry.endpoint.ip, trusted, choice);
      var w := WithIpLimit(d, entry.id, entry.endpoint.ip, trusted, choice).0;
      var node := WithToken(entry, token, now);
      if trusted { TrustedPut(w, node); } else { UntrustedPut(w, node); }
    }
  }

  /** Both branches of a trusted insertion, for any node with the id. */
  lemma TrustedInsertKeeps(d: Db, ip: Ip, choice: Option<NodeId>, node: Node)
    requires Disjoint(d) && Selectable(d.ip, ip, choice) && node.id !in d.blacklisted
    ensures node.id in d.untrusted ==>
              var (t, prior) := TakenForPromotion(d, node.id, ip, choice);
              && Disjoint(t) && t.blacklisted == d.blacklisted
              && (prior.Some? ==> Disjoint(t.(trusted := t.trusted[node.id := node])))
    ensures node.id !in d.untrusted ==>
              var w := WithIpLimit(d, node.id, ip, true, choice).0;
              && Disjoint(w) && w.blacklisted == d.blacklisted
              && Disjoint(w.(trusted := w.trusted[node.id := node]))
  {
    if node.id in d.untrusted {
      TakenKeeps(d, node.id, ip, choice);
      var (t, prior) := TakenForPromotion(d, node.id, ip, choice);
      if prior.Some? { TrustedPut(t, node); }
    } else {
      WithIpLimitKeeps(d, node.id, ip, true, choice);
      TrustedPut(WithIpLimit(d, node.id, ip, true, choice).0, node);
    }
  }

  lemma RefreshedIsKeyed(m: Nodes, node: Node)
    requires Keyed(m)
    ensures Refreshed(m, node).id == node.id
  {
  }

  lemma PlacedConditionallyKeeps(d: Db, node: Node, choice: Option<NodeId>)
    requires Disjoint(d) && Selectable(d.ip, node.endpoint.ip, choice) && node.id !in d.blacklisted
    ensures Disjoint(PlacedConditionally(d, node, choice))
    ensures PlacedConditionally(d, node, choice).blacklisted == d.blacklisted
  {
    var ip := node.endpoint.ip;
    if node.id in d.untrusted {
      var prior := TakenForPromotion(d, node.id, ip, choice).1;
      TrustedInsertKeeps(d, ip, choice,
        if prior.None? then node
        else node.(lastConnected := prior.value.lastConnected, streamToken := prior.value.streamToken));
    } else {
      WithIpLimitKeeps(d, node.id, ip, true, choice);
      var m := WithIpLimit(d, node.id, ip, true, choice).0.trusted;
      RefreshedIsKeyed(m, node);
      TrustedInsertKeeps(d, ip, choice, Refreshed(m, node));
    }
  }

  lemma InsertedWithPromotionKeeps(db: Db, entry: NodeEntry, now: Time, choice: Option<NodeId>)
    requires Disjoint(db) && Selectable(db.ip, entry.endpoint.ip, choice)
    ensures Disjoint(InsertedWithPromotion(db, entry, now, choice))
    ensures InsertedWithPromotion(db, entry, now, choice).blacklisted
         == EvaluatedBlacklist(db, entry.id, now).0.blacklisted
  {
    EvaluatedKeeps(db, entry.id, now);
    var (d, banned) := EvaluatedBlacklist(db, entry.id, now);
    if !banned { PlacedConditionallyKeeps(d, Contacted(entry, now), choice); }
  }

  lemma PlacedTrustedKeeps(d: Db, node: Node, choice: Option<NodeId>)
    requires Disjoint(d) && Selectable(d.ip, node.endpoint.ip, choice) && node.id !in d.blacklisted
    ensures Disjoint(PlacedTrusted(d, node, choice))
    ensures PlacedTrusted(d, node, choice).blacklisted == d.blacklisted
  {
    if node.id in d.untrusted {
      var prior := TakenForPromotion(d, node.id, node.endpoint.ip, choice).1;
      TrustedInsertKeeps(d, node.endpoint.ip, choice,
        if prior.None? then node
        else node.(lastContact := prior.value.lastContact, lastConnected := prior.value.lastConnected,
                   streamToken := prior.value.streamToken));
    } else {
      TrustedInsertKeeps(d, node.endpoint.ip, choice, node);
    }
  }

  lemma InsertedTrustedKeeps(db: Db, entry: NodeEntry, now: Time, choice: Option<NodeId>)
    requires Disjoint(db) && Selectable(db.ip, entry.endpoint.ip, choice)
    ensures Disjoint(InsertedTrusted(db, entry, now, choice))
    ensures InsertedTrusted(db, entry, now, choice).blacklisted == EvaluatedBlacklist(db, entry.id, now).0.blacklisted
  {
    EvaluatedKeeps(db, entry.id, now);
    var (d, banned) := EvaluatedBlacklist(db, entry.id, now);
    if !banned && entry.id !in d.trusted { PlacedTrustedKeeps(d, NewNode(entry.id, entry.endpoint), choice); }
  }

  lemma PromotedOneKeeps(db: Db, id: NodeId, due: Time, now: Time, choice: Option<NodeId>)
    requires Disjoint(db) && (id in db.untrusted ==> Selectable(db.ip, db.untrusted[id].endpoint.ip, choice))
    ensures Disjoint(PromotedOne(db, id, due, now, choice))
    ensures PromotedOne(db, id, due, now, choice).blacklisted == db.blacklisted
  {
    if id in db.untrusted {
      TakenKeeps(db.(untrusted := db.untrusted - {id}), id, db.untrusted[id].endpoint.ip, choice);
    }
  }

  lemma DemotedKeeps(db: Db, id: NodeId)
    requires Disjoint(db)
    ensures Disjoint(DemotedNode(db, id))
    ensures id !in DemotedNode(db, id).trusted
    ensures DemotedNode(db, id).blacklisted == db.blacklisted
  {
    DemoteConsistent(db.ip, id);
    DemoteWithin(db.ip, id);
  }

  lemma NotedFailureKeeps(db: Db, id: NodeId, byConnection: bool, trustedOnly: bool, now: Time)
    requires Disjoint(db)
    ensures var d := NotedFailure(db, id, byConnection, trustedOnly, now);
            && Disjoint(d) && d.blacklisted == db.blacklisted
            && d.trusted.Keys == db.trusted.Keys && d.untrusted.Keys == db.untrusted.Keys
  {
  }

  lemma BlacklistedPut(d: Db, node: Node)
    requires Disjoint(d) && node.id !in d.trusted && node.id !in d.untrusted && node.id !in d.ip.nodeIndex
    ensures Disjoint(d.(blacklisted := d.blacklisted[node.id := node]))
  {
  }

  lemma BlacklistedKeeps(db: Db, id: NodeId, now: Time)
    requires Disjoint(db)
    ensures var d := Blacklisted(db, id, now);
            && Disjoint(d)
            && (id in db.trusted || id in db.untrusted ==> id in d.blacklisted)
            && (forall x :: x in db.blacklisted ==> x in d.blacklisted && d.blacklisted[x] == db.blacklisted[x])
  {
    var n := NotedFailure(db, id, true, false, now);
    NotedFailureKeeps(db, id, true, false, now);
    DroppedKeeps(n, id);
    var (d, node) := Dropped(n, id);
    if node.Some? { BlacklistedPut(d, node.value); }
  }

  /** The id whose blacklist entry an operation evaluates, and when. */
  function Evaluates(op: Op): Option<(NodeId, Time)> {
    match op
    case InsertWithToken(e, _, now, _) => Some((e.id, now))
    case InsertWithPromotion(e, now, _) => Some((e.id, now))
    case InsertTrusted(e, now, _) => Some((e.id, now))
    case EvaluateBlacklisted(id, now) => Some((id, now))
    case _ => None
  }

  /** An entry leaves the blacklist when its id is removed, or evaluated after it has expired. */
  predicate Releases(db: Db, op: Op, x: NodeId) {
    && x in db.blacklisted
    && (op == Remove(x)
        || (Evaluates(op).Some? && Evaluates(op).value.0 == x && Expired(db.blacklisted[x], Evaluates(op).value.1)))
  }

  /** A trusted node is noted as demoted, or is to be tagged and not indexed. */
  predicate Stops(db: Db, op: Op) {
    || (op.NoteDemoted? && op.id in db.trusted)
    || (op.SetTag? && op.id in db.trusted && Enabled(db.ip) && op.id !in db.ip.nodeIndex)
  }

  /** Each operation keeps ids in at most one table, and exactly which ones fail. */
  lemma StepKeeps(db: Db, op: Op)
    requires Disjoint(db) && Possible(db, op)
    ensures Step(db, op).None? <==> Stops(db, op)
    ensures Step(db, op).Some? ==> Disjoint(Step(db, op).value)
  {
    match op {
      case InsertWithToken(e, t, now, c) => InsertedWithTokenKeeps(db, e, t, now, c);
      case InsertWithPromotion(e, now, c) => InsertedWithPromotionKeeps(db, e, now, c);
      case InsertTrusted(e, now, c) => InsertedTrustedKeeps(db, e, now, c);
      case NoteFailure(id, b, t, now) => NotedFailureKeeps(db, id, b, t, now);
      case NoteSuccess(id, tok, t, now) =>
      case NoteDemoted(id, b, now) =>
      case Promote(id, due, now, c) => PromotedOneKeeps(db, id, due, now, c);
      case Demote(id) => DemotedKeeps(db, id);
      case Remove(id) => DroppedKeeps(db, id);
      case SetBlacklisted(id, now) => BlacklistedKeeps(db, id, now);
      case EvaluateBlacklisted(id, now) => EvaluatedKeeps(db, id, now);
      case SetTag(id, key, value) =>
    }
  }

  /** Exactly which operation takes an entry off the blacklist; every other one leaves the entry as it is. */
  lemma StepReleases(db: Db, op: Op, x: NodeId)
    requires Disjoint(db) && Possible(db, op) && x in db.blacklisted && Step(db, op).Some?
    ensures var d := Step(db, op).value;
            if Releases(db, op, x) then x !in d.blacklisted
            else x in d.blacklisted && d.blacklisted[x] == db.blacklisted[x]
  {
    match op {
      case InsertWithToken(_, _, _, _) => InsertReleases(db, op, x);
      case InsertWithPromotion(_, _, _) => InsertReleases(db, op, x);
      case InsertTrusted(_, _, _) => InsertReleases(db, op, x);
      case NoteFailure(id, b, t, now) => NotedFailureKeeps(db, id, b, t, now);
      case NoteSuccess(id, tok, t, now) =>
      case NoteDemoted(id, b, now) =>
      case Promote(id, due, now, c) => PromotedOneKeeps(db, id, due, now, c);
      case Demote(id) => DemotedKeeps(db, id);
      case Remove(id) =>
      case SetBlacklisted(id, now) => BlacklistedKeeps(db, id, now);
      case EvaluateBlacklisted(id, now) =>
      case SetTag(id, key, value) =>
    }
  }

  lemma InsertReleases(db: Db, op: Op, x: NodeId)
    requires op.InsertWithToken? || op.InsertWithPromotion? || op.InsertTrusted?
    requires Disjoint(db) && Possible(db, op) && x in db.blacklisted && Step(db, op).Some?
    ensures var d := Step(db, op).value;
            if Releases(db, op, x) then x !in d.blacklisted
            else x in d.blacklisted && d.blacklisted[x] == db.blacklisted[x]
  {
    match op {
      case InsertWithToken(e, t, now, c) => InsertedWithTokenKeeps(db, e, t, now, c);
      case InsertWithPromotion(e, now, c) => InsertedWithPromotionKeeps(db, e, now, c);
      case InsertTrusted(e, now, c) => InsertedTrustedKeeps(db, e, now, c);
    }
  }

  /** A run; `None` once an assertion has failed. */
  ghost function Run(db: Db, ops: seq<Op>): Option<Db>
    decreases |ops|
  {
    if ops == [] then Some(db)
    else
      var d := Step(db, ops[0]);
      if d.None? then None else Run(d.value, ops[1..])
  }

  ghost predicate PossibleRun(db: Db, ops: seq<Op>)
    decreases |ops|
  {
    ops != [] ==>
      Possible(db, ops[0]) && (Step(db, ops[0]).Some? ==> PossibleRun(Step(db, ops[0]).value, ops[1..]))
  }

  /** Along every run each id stays in at most one table. */
  lemma {:induction false} RunKeeps(db: Db, ops: seq<Op>)
    requires Disjoint(db) && PossibleRun(db, ops)
    ensures Run(db, ops).Some? ==> Disjoint(Run(db, ops).value)
    decreases |ops|
  {
    if ops != [] {
      StepKeeps(db, ops[0]);
      var d := Step(db, ops[0]);
      if d.Some? { RunKeeps(d.value, ops[1..]); }
    }
  }

  /** A run stops only at a node that is trusted at that moment: noted as demoted, or tagged and not indexed. */
  lemma {:induction false} RunStopsAtTrusted(db: Db, ops: seq<Op>) returns (k: nat)
    requires Disjoint(db) && PossibleRun(db, ops) && Run(db, ops).None?
    ensures k < |ops| && Run(db, ops[..k]).Some? && Stops(Run(db, ops[..k]).value, ops[k])
    decreases |ops|
  {
    StepKeeps(db, ops[0]);
    var d := Step(db, ops[0]);
    if d.None? {
      k := 0;
    } else {
      var j := RunStopsAtTrusted(d.value, ops[1..]);
      k := j + 1;
      assert ops[..k][1..] == ops[1..][..j];
    }
  }

  /** The two calls made when a node is to be demoted never fail. */
  lemma DemoteThenNote(db: Db, id: NodeId, byConnection: bool, now: Time)
    requires Disjoint(db)
    ensures Run(db, [Demote(id), NoteDemoted(id, byConnection, now)]).Some?
  {
    DemotedKeeps(db, id);
    var d, note := DemotedNode(db, id), NoteDemoted(id, byConnection, now);
    assert [Demote(id), note][1..] == [note] && [note][1..] == [];
    assert Step(d, note).Some? && Run(d, [note]) == Run(Step(d, note).value, []);
  }

  /**
   A blacklisted id is off the blacklist at the end of a run only if some operation
   of the run removed it or evaluated it after its entry had expired, and the entry
   was the first one until then.
   */
  lemma {:induction false} ReleasedWithin(db: Db, ops: seq<Op>, x: NodeId) returns (k: nat)
    requires Disjoint(db) && PossibleRun(db, ops) && x in db.blacklisted
    requires Run(db, ops).Some? && x !in Run(db, ops).value.blacklisted
    ensures k < |ops| && Run(db, ops[..k]).Some?
    ensures Releases(Run(db, ops[..k]).value, ops[k], x)
    ensures Run(db, ops[..k]).value.blacklisted[x] == db.blacklisted[x]
    decreases |ops|
  {
    StepKeeps(db, ops[0]);
    StepReleases(db, ops[0], x);
    var d := Step(db, ops[0]).value;
    if Releases(db, ops[0], x) {
      k := 0;
    } else {
      var j := ReleasedWithin(d, ops[1..], x);
      k := j + 1;
      assert ops[..k][1..] == ops[1..][..j];
    }
  }

  /** Nothing before the end of the lifetime of `x`, counted from its recorded contact, lets it back. */
  predicate Within(op: Op, x: NodeId, since: Time) {
    && op != Remove(x)
    && (Evaluates(op).Some? && Evaluates(op).value.0 == x ==> Evaluates(op).value.1 <= since + BLACKLISTED_LIFETIME)
  }

  /** A blacklisted id stays out of the other tables for its whole lifetime, however often it is inserted. */
  lemma {:induction false} BannedForLifetime(db: Db, ops: seq<Op>, x: NodeId)
    requires Disjoint(db) && PossibleRun(db, ops) && x in db.blacklisted && db.blacklisted[x].lastContact.Some?
    requires forall i :: 0 <= i < |ops| ==> Within(ops[i], x, db.blacklisted[x].lastContact.value.time)
    requires Run(db, ops).Some?
    ensures var d := Run(db, ops).value;
            && x in d.blacklisted && x !in d.trusted && x !in d.untrusted
            && d.blacklisted[x] == db.blacklisted[x]
    decreases |ops|
  {
    if ops != [] {
      assert Within(ops[0], x, db.blacklisted[x].lastContact.value.time);
      StepKeeps(db, ops[0]);
      StepReleases(db, ops[0], x);
      BannedForLifetime(Step(db, ops[0]).value, ops[1..], x);
    }
  }

  // ---------------------------------------------------------------- what moves, and what does not

  /** What the three tables hold for an id. */
  function Lookup(db: Db, x: NodeId): (Option<Node>, Option<Node>, Option<Node>) {
    (NodeAt(db.trusted, x), NodeAt(db.untrusted, x), NodeAt(db.blacklisted, x))
  }

  function EvicteeSet(db: Db, id: NodeId, ip: Ip, choice: Option<NodeId>): set<NodeId> {
    var e := Evictee(ValidateInsertion(db.ip, id, ip, choice));
    if e.Some? then {e.value} else {}
  }

  /** The subject of an operation, and the node that has to make room for it. */
  function Touched(db: Db, op: Op): set<NodeId> {
    match op
    case InsertWithToken(e, _, _, c) => {e.id} + EvicteeSet(db, e.id, e.endpoint.ip, c)
    case InsertWithPromotion(e, _, c) => {e.id} + EvicteeSet(db, e.id, e.endpoint.ip, c)
    case InsertTrusted(e, _, c) => {e.id} + EvicteeSet(db, e.id, e.endpoint.ip, c)
    case Promote(id, _, _, c) =>
      {id} + if id in db.untrusted then EvicteeSet(db, id, db.untrusted[id].endpoint.ip, c) else {}
    case NoteFailure(id, _, _, _) => {id}
    case NoteSuccess(id, _, _, _) => {id}
    case NoteDemoted(id, _, _) => {id}
    case Demote(id) => {id}
    case Remove(id) => {id}
    case SetBlacklisted(id, _) => {id}
    case EvaluateBlacklisted(id, _) => {id}
    case SetTag(id, _, _) => {id}
  }

  /** No operation changes anything about any other node. */
  lemma StepFrame(db: Db, op: Op, x: NodeId)
    requires Disjoint(db) && Step(db, op).Some? && x !in Touched(db, op)
    ensures Lookup(Step(db, op).value, x) == Lookup(db, x)
  {
    match op {
      case InsertWithToken(e, t, now, c) => TokenFrame(db, e, t, now, c, x);
      case InsertWithPromotion(e, now, c) => InsertFrame(db, e, now, c, x);
      case InsertTrusted(e, now, c) => InsertFrame(db, e, now, c, x);
      case Promote(id, due, now, c) => PromoteFrame(db, id, due, now, c, x);
      case NoteFailure(id, b, t, now) => NoteFrame(db, id, x);
      case NoteSuccess(id, tok, t, now) => NoteFrame(db, id, x);
      case NoteDemoted(id, b, now) => NoteFrame(db, id, x);
      case Demote(id) => MoveFrame(db, id, x);
      case Remove(id) => MoveFrame(db, id, x);
      case SetBlacklisted(id, now) => MoveFrame(db, id, x);
      case EvaluateBlacklisted(id, now) => MoveFrame(db, id, x);
      case SetTag(id, key, value) => assert x != id;
    }
  }

  lemma NoteFrame(db: Db, id: NodeId, x: NodeId)
    requires x != id
    ensures forall b, t, now :: Lookup(NotedFailure(db, id, b, t, now), x) == Lookup(db, x)
    ensures forall tok, t, now :: Lookup(NotedSuccess(db, id, tok, t, now), x) == Lookup(db, x)
    ensures forall b, now :: NotedDemoted(db, id, b, now).Some? ==>
              Lookup(NotedDemoted(db, id, b, now).value, x) == Lookup(db, x)
  {
  }

  lemma MoveFrame(db: Db, id: NodeId, x: NodeId)
    requires Disjoint(db) && x != id
    ensures Lookup(DemotedNode(db, id), x) == Lookup(db, x)
    ensures Lookup(Dropped(db, id).0, x) == Lookup(db, x)
    ensures forall now :: Lookup(Blacklisted(db, id, now), x) == Lookup(db, x)
    ensures forall now :: Lookup(EvaluatedBlacklist(db, id, now).0, x) == Lookup(db, x)
  {
    forall now: Time ensures Lookup(Blacklisted(db, id, now), x) == Lookup(db, x) {
      BlacklistedFrame(db, id, now, x);
    }
  }

  lemma BlacklistedFrame(db: Db, id: NodeId, now: Time, x: NodeId)
    requires Disjoint(db) && x != id
    ensures Lookup(Blacklisted(db, id, now), x) == Lookup(db, x)
  {
    NoteFrame(db, id, x);
    DroppedKeeps(NotedFailure(db, id, true, false, now), id);
  }

  lemma InsertFrame(db: Db, e: NodeEntry, now: Time, c: Option<NodeId>, x: NodeId)
    requires x != e.id && x !in EvicteeSet(db, e.id, e.endpoint.ip, c)
    ensures Lookup(InsertedWithPromotion(db, e, now, c), x) == Lookup(db, x)
    ensures Lookup(InsertedTrusted(db, e, now, c), x) == Lookup(db, x)
  {
    var d := EvaluatedBlacklist(db, e.id, now).0;
    assert Lookup(d, x) == Lookup(db, x) && d.ip == db.ip;
    PlacedFrame(d, Contacted(e, now), c, x);
    PlacedFrame(d, NewNode(e.id, e.endpoint), c, x);
  }

  lemma TokenFrame(db: Db, e: NodeEntry, token: nat, now: Time, c: Option<NodeId>, x: NodeId)
    requires x != e.id && x !in EvicteeSet(db, e.id, e.endpoint.ip, c)
    ensures Lookup(InsertedWithToken(db, e, token, now, c), x) == Lookup(db, x)
  {
    var d := EvaluatedBlacklist(db, e.id, now).0;
    assert Lookup(d, x) == Lookup(db, x) && d.ip == db.ip;
    WithIpLimitFrame(d, e.id, e.endpoint.ip, c, x);
  }

  lemma PromoteFrame(db: Db, id: NodeId, due: Time, now: Time, c: Option<NodeId>, x: NodeId)
    requires Keyed(db.untrusted) && x != id
    requires id in db.untrusted ==> x !in EvicteeSet(db, id, db.untrusted[id].endpoint.ip, c)
    ensures Lookup(PromotedOne(db, id, due, now, c), x) == Lookup(db, x)
  {
    if id in db.untrusted {
      TakenFrame(db.(untrusted := db.untrusted - {id}), id, db.untrusted[id].endpoint.ip, c, x);
    }
  }

  lemma WithIpLimitFrame(db: Db, id: NodeId, ip: Ip, choice: Option<NodeId>, x: NodeId)
    requires x !in EvicteeSet(db, id, ip, choice)
    ensures forall t :: Lookup(WithIpLimit(db, id, ip, t, choice).0, x) == Lookup(db, x)
  {
  }

  lemma TakenFrame(db: Db, id: NodeId, ip: Ip, choice: Option<NodeId>, x: NodeId)
    requires x !in EvicteeSet(db, id, ip, choice) && x != id
    ensures Lookup(TakenForPromotion(db, id, ip, choice).0, x) == Lookup(db, x)
  {
    EvictedFrame(db, Evictee(ValidateInsertion(db.ip, id, ip, choice)), x);
  }

  lemma EvictedFrame(db: Db, evictee: Option<NodeId>, x: NodeId)
    requires evictee != Some(x)
    ensures Lookup(Evicted(db, evictee), x) == Lookup(db, x)
  {
  }

  lemma PlacedFrame(d: Db, node: Node, choice: Option<NodeId>, x: NodeId)
    requires x !in EvicteeSet(d, node.id, node.endpoint.ip, choice) && x != node.id
    ensures Lookup(PlacedConditionally(d, node, choice), x) == Lookup(d, x)
    ensures Lookup(PlacedTrusted(d, node, choice), x) == Lookup(d, x)
  {
    WithIpLimitFrame(d, node.id, node.endpoint.ip, choice, x);
    TakenFrame(d, node.id, node.endpoint.ip, choice, x);
  }

  /** Demotion moves a trusted node as it is, and does nothing else. */
  lemma DemoteMoves(db: Db, id: NodeId)
    requires Disjoint(db)
    ensures Lookup(DemotedNode(db, id), id)
         == if id in db.trusted then (None, Some(db.trusted[id]), None) else Lookup(db, id)
  {
  }

  /** Promotion moves exactly the nodes connected for long enough, and their last contact becomes that connection. */
  lemma PromoteMoves(db: Db, id: NodeId, due: Time, now: Time, choice: Option<NodeId>)
    requires Disjoint(db) && (id in db.untrusted ==> Selectable(db.ip, db.untrusted[id].endpoint.ip, choice))
    ensures Lookup(PromotedOne(db, id, due, now, choice), id)
         == if id in db.untrusted && LongConnected(db.untrusted[id], due, now)
            then (Some(db.untrusted[id].(lastContact := db.untrusted[id].lastConnected)), None, None)
            else Lookup(db, id)
  {
    if id in db.untrusted && LongConnected(db.untrusted[id], due, now) {
      TakenKeeps(db.(untrusted := db.untrusted - {id}), id, db.untrusted[id].endpoint.ip, choice);
    }
  }

  /** A known node is moved to the blacklist with the failure noted, unless it was already demoted. */
  lemma BlacklistMoves(db: Db, id: NodeId, now: Time)
    requires Disjoint(db) && (id in db.trusted || id in db.untrusted)
    ensures var n := if id in db.trusted then db.trusted[id] else db.untrusted[id];
            var failed := Some(Failure(now));
            var contact := if NodeReputation(n.lastContact) == DemotedLevel then n.lastContact else failed;
            Lookup(Blacklisted(db, id, now), id)
            == (None, None, Some(n.(lastContact := contact, lastConnected := failed)))
  {
    NotedFailureKeeps(db, id, true, false, now);
  }

  /** A node inserted with a token is refused while banned, and otherwise placed where it was trusted to be. */
  lemma InsertTokenMoves(db: Db, entry: NodeEntry, token: nat, now: Time, choice: Option<NodeId>)
    requires Disjoint(db) && Selectable(db.ip, entry.endpoint.ip, choice)
    ensures var d := InsertedWithToken(db, entry, token, now, choice);
            var e := EvaluatedBlacklist(db, entry.id, now).0;
            var trusted := entry.id in db.trusted;
            var node := Node(entry.id, entry.endpoint, Some(Success(now)), Some(Success(now)), Some(token), map[]);
            && (entry.id in db.blacklisted && !Expired(db.blacklisted[entry.id], now) ==> d == db)
            && (entry.id !in e.blacklisted && WithIpLimit(e, entry.id, entry.endpoint.ip, trusted, choice).1 ==>
                  Lookup(d, entry.id) == if trusted then (Some(node), None, None) else (None, Some(node), None))
  {
    EvaluatedKeeps(db, entry.id, now);
    var e := EvaluatedBlacklist(db, entry.id, now).0;
    if entry.id !in e.blacklisted {
      WithIpLimitKeeps(e, entry.id, entry.endpoint.ip, entry.id in db.trusted, choice);
    }
  }

  /** Being seen does not promote a demoted node. */
  lemma DemotedStaysUntrusted(db: Db, entry: NodeEntry, now: Time, choice: Option<NodeId>)
    requires Disjoint(db) && entry.id in db.untrusted
    requires NodeReputation(db.untrusted[entry.id].lastContact) == DemotedLevel
    ensures InsertedWithPromotion(db, entry, now, choice) == db
  {
  }

  /** A node that is seen becomes or stays trusted, keeping what is known about it unless it was evicted itself. */
  lemma InsertPromotionMoves(db: Db, entry: NodeEntry, now: Time, choice: Option<NodeId>)
    requires Disjoint(db) && Selectable(db.ip, entry.endpoint.ip, choice) && entry.id !in db.blacklisted
    ensures var d := InsertedWithPromotion(db, entry, now, choice);
            entry.id in db.untrusted && NodeReputation(db.untrusted[entry.id].lastContact) != DemotedLevel ==>
              && (entry.id in d.trusted ==>
                    d.trusted[entry.id] == Seen(db.untrusted[entry.id], entry, now).(tags := map[]))
              && (entry.id in d.untrusted ==> d == db)
    ensures var d := InsertedWithPromotion(db, entry, now, choice);
            entry.id !in db.untrusted && WithIpLimit(db, entry.id, entry.endpoint.ip, true, choice).1 ==>
              Lookup(d, entry.id) ==
                (Some(if entry.id in db.trusted && entry.id !in EvicteeSet(db, entry.id, entry.endpoint.ip, choice)
                      then Seen(db.trusted[entry.id], entry, now) else Contacted(entry, now)), None, None)
  {
    var node, ip := Contacted(entry, now), entry.endpoint.ip;
    assert InsertedWithPromotion(db, entry, now, choice) == PlacedConditionally(db, node, choice);
    if entry.id in db.untrusted {
      TakenKeeps(db, entry.id, ip, choice);
      TakenNode(db, entry.id, ip, choice);
    } else {
      WithIpLimitKeeps(db, entry.id, ip, true, choice);
      SubjectAfterLimit(db, entry.id, ip, choice);
    }
  }

  /** A known node at a new contact and endpoint. */
  function Seen(n: Node, entry: NodeEntry, now: Time): Node {
    n.(endpoint := entry.endpoint, lastContact := Some(Success(now)))
  }

  lemma SubjectAfterLimit(db: Db, id: NodeId, ip: Ip, choice: Option<NodeId>)
    requires Disjoint(db) && Selectable(db.ip, ip, choice)
    ensures var d := WithIpLimit(db, id, ip, true, choice).0;
            WithIpLimit(db, id, ip, true, choice).1 ==>
              NodeAt(d.trusted, id) == if id in EvicteeSet(db, id, ip, choice) then None else NodeAt(db.trusted, id)
  {
    if id !in EvicteeSet(db, id, ip, choice) { WithIpLimitFrame(db, id, ip, choice, id); }
  }

  /** A node promoted by insertion keeps what was known about it, at its new endpoint. */
  lemma InsertTrustedMoves(db: Db, entry: NodeEntry, now: Time, choice: Option<NodeId>)
    requires Disjoint(db) && Selectable(db.ip, entry.endpoint.ip, choice) && entry.id in db.untrusted
    ensures var d := InsertedTrusted(db, entry, now, choice);
            && (entry.id in d.trusted ==>
                  d.trusted[entry.id] == db.untrusted[entry.id].(endpoint := entry.endpoint, tags := map[]))
            && (entry.id in d.untrusted ==> d == db)
  {
    var node := NewNode(entry.id, entry.endpoint);
    assert InsertedTrusted(db, entry, now, choice) == PlacedTrusted(db, node, choice);
    TakenKeeps(db, entry.id, entry.endpoint.ip, choice);
    TakenNode(db, entry.id, entry.endpoint.ip, choice);
  }

  /** A promoted node is taken as it was, or lost to its own eviction, or left where it is for want of quota. */
  lemma TakenNode(db: Db, id: NodeId, ip: Ip, choice: Option<NodeId>)
    requires id in db.untrusted && id !in db.trusted
    ensures var (d, prior) := TakenForPromotion(db, id, ip, choice);
            && (prior.Some? ==> prior.value == db.untrusted[id])
            && (id in d.untrusted ==> d == db && prior.None?)
            && id !in d.trusted
  {
  }

  // ---------------------------------------------------------------- the object

  /** A panic on the way is a panic of the whole. */
  lemma {:induction false} LoadStays(db: Db, trusted: bool, ids: seq<NodeId>, i: nat, choose: Choose)
    requires i <= |ids| && Loaded(db, trusted, ids[..i], choose).None?
    ensures Loaded(db, trusted, ids, choose).None?
    decreases |ids|
  {
    if i < |ids| {
      assert ids[..|ids| - 1][..i] == ids[..i];
      LoadStays(db, trusted, ids[..|ids| - 1], i, choose);
    } else {
      assert ids[..i] == ids;
    }
  }

  class NodeDatabase {
    const trusted: NodeTable
    const untrusted: NodeTable
    const blacklisted: NodeTable
    var ip: IpLimit

    ghost predicate Ok()
      reads this, trusted, untrusted, blacklisted
    {
      && trusted != untrusted && trusted != blacklisted && untrusted != blacklisted
      && trusted.Ok() && untrusted.Ok() && blacklisted.Ok()
    }

    ghost function Value(): Db
      requires Ok()
      reads this, trusted, untrusted, blacklisted
    {
      Db(trusted.Contents(), untrusted.Contents(), blacklisted.Contents(), ip)
    }

    constructor (subnetQuota: nat)
      ensures Ok() && Disjoint(Value())
      ensures Value() == Db(map[], map[], map[], IpLimit(subnetQuota, map[], map[], map[], map[]))
    {
      trusted := new NodeTable();
      untrusted := new NodeTable();
      blacklisted := new NodeTable();
      ip := IpLimit(subnetQuota, map[], map[], map[], map[]);
    }

    method Remove(id: NodeId) returns (r: Option<Node>)
      requires Ok()
      modifies this, trusted, untrusted, blacklisted
      ensures Ok() && (Value(), r) == Dropped(old(Value()), id)
    {
      r := trusted.RemoveWithId(id);
      if r.Some? {
        ip := NodeIpLimit.Remove(ip, id);
        return;
      }
      r := untrusted.RemoveWithId(id);
      if r.Some? {
        ip := NodeIpLimit.Remove(ip, id);
        return;
      }
      r := blacklisted.RemoveWithId(id);
    }

    method EvaluateBlacklisted(id: NodeId, now: Time) returns (banned: bool)
      requires Ok()
      modifies this, trusted, untrusted, blacklisted
      ensures Ok() && (Value(), banned) == EvaluatedBlacklist(old(Value()), id, now)
    {
      var node := blacklisted.Get(id);
      if node.None? {
        return false;
      }
      if node.value.lastContact.None? {
        var _ := blacklisted.RemoveWithId(id);
        return false;
      }
      var time := node.value.lastContact.value.time;
      if now > time && now - time > BLACKLISTED_LIFETIME {
        var _ := blacklisted.RemoveWithId(id);
        return false;
      }
      return true;
    }

    method InsertIpLimit(id: NodeId, address: Ip, isTrusted: bool, choice: Option<NodeId>) returns (ok: bool)
      requires Ok()
      modifies this, trusted, untrusted, blacklisted
      ensures Ok() && (Value(), ok) == WithIpLimit(old(Value()), id, address, isTrusted, choice)
    {
      var v := ValidateInsertion(ip, id, address, choice);
      if v == AlreadyExists {
        return true;
      }
      if v == QuotaNotEnough {
        return false;
      }
      var evictee := Evictee(v);
      if evictee.Some? {
        var _ := Remove(evictee.value);
      }
      var (limit, inserted) := NodeIpLimit.Insert(ip, id, address, isTrusted, evictee);
      ip := limit;
      return inserted;
    }

    method PromoteWithUntrusted(id: NodeId, newIp: Ip, choice: Option<NodeId>) returns (r: Option<Node>)
      requires Ok()
      modifies this, trusted, untrusted, blacklisted
      ensures Ok() && (Value(), r) == TakenForPromotion(old(Value()), id, newIp, choice)
    {
      var v := ValidateInsertion(ip, id, newIp, choice);
      if v == QuotaNotEnough {
        return None;
      }
      var evictee := Evictee(v);
      if evictee.Some? {
        var _ := Remove(evictee.value);
      }
      ip := NodeIpLimit.Insert(NodeIpLimit.Remove(ip, id), id, newIp, true, evictee).0;
      r := untrusted.RemoveWithId(id);
    }

    method InsertWithToken(entry: NodeEntry, token: nat, now: Time, choice: Option<NodeId>)
      requires Ok()
      modifies this, trusted, untrusted, blacklisted
      ensures Ok() && Value() == InsertedWithToken(old(Value()), entry, token, now, choice)
    {
      var banned := EvaluateBlacklisted(entry.id, now);
      if !banned { PlaceInItsTable(WithToken(entry, token, now), choice); }
    }

    method PlaceInItsTable(node: Node, choice: Option<NodeId>)
      requires Ok()
      modifies this, trusted, untrusted, blacklisted
      ensures Ok() && Value() == PlacedInItsTable(old(Value()), node, choice)
    {
      var known := trusted.Get(node.id);
      if known.Some? {
        var ok := InsertIpLimit(node.id, node.endpoint.ip, true, choice);
        if ok { trusted.AddNode(node, false); }
      } else {
        var ok := InsertIpLimit(node.id, node.endpoint.ip, false, choice);
        if ok { untrusted.AddNode(node, false); }
      }
    }

    method InsertWithConditionalPromotion(entry: NodeEntry, now: Time, choice: Option<NodeId>)
      requires Ok()
      modifies this, trusted, untrusted, blacklisted
      ensures Ok() && Value() == InsertedWithPromotion(old(Value()), entry, now, choice)
    {
      var banned := EvaluateBlacklisted(entry.id, now);
      if !banned { PlaceConditionally(Contacted(entry, now), choice); }
    }

    method PlaceConditionally(contacted: Node, choice: Option<NodeId>)
      requires Ok()
      modifies this, trusted, untrusted, blacklisted
      ensures Ok() && Value() == PlacedConditionally(old(Value()), contacted, choice)
    {
      var node := contacted;
      var known := untrusted.Get(node.id);
      if known.Some? {
        if NodeReputation(known.value.lastContact) == DemotedLevel {
          return;
        }
        var prior := PromoteWithUntrusted(node.id, node.endpoint.ip, choice);
        if prior.Some? {
          node := node.(lastConnected := prior.value.lastConnected, streamToken := prior.value.streamToken);
          trusted.AddNode(node, false);
        }
      } else {
        var ok := InsertIpLimit(node.id, node.endpoint.ip, true, choice);
        if ok { trusted.UpdateLastContact(node); }
      }
    }

    method InsertTrusted(entry: NodeEntry, now: Time, choice: Option<NodeId>)
      requires Ok()
      modifies this, trusted, untrusted, blacklisted
      ensures Ok() && Value() == InsertedTrusted(old(Value()), entry, now, choice)
    {
      var banned := EvaluateBlacklisted(entry.id, now);
      if banned {
        return;
      }
      var known := trusted.Get(entry.id);
      if known.None? { PlaceTrusted(NewNode(entry.id, entry.endpoint), choice); }
    }

    method PlaceTrusted(unplaced: Node, choice: Option<NodeId>)
      requires Ok()
      modifies this, trusted, untrusted, blacklisted
      ensures Ok() && Value() == PlacedTrusted(old(Value()), unplaced, choice)
    {
      var node := unplaced;
      var known := untrusted.Get(node.id);
      if known.Some? {
        var prior := PromoteWithUntrusted(node.id, node.endpoint.ip, choice);
        if prior.Some? {
          node := node.(lastContact := prior.value.lastContact, lastConnected := prior.value.lastConnected,
                        streamToken := prior.value.streamToken);
          trusted.AddNode(node, false);
        }
      } else {
        var ok := InsertIpLimit(node.id, node.endpoint.ip, true, choice);
        if ok { trusted.AddNode(node, false); }
      }
    }

    method NoteFailure(id: NodeId, byConnection: bool, trustedOnly: bool, now: Time)
      requires Ok()
      modifies this, trusted, untrusted, blacklisted
      ensures Ok() && Value() == NotedFailure(old(Value()), id, byConnection, trustedOnly, now)
    {
      trusted.NoteUnsuccessContact(id, byConnection, Some(Failure(now)));
      if !trustedOnly {
        untrusted.NoteUnsuccessContact(id, byConnection, Some(Failure(now)));
      }
    }

    /** Reports whether the assertion of the original holds; where it fails nothing is changed. */
    method NoteDemoted(id: NodeId, byConnection: bool, now: Time) returns (ok: bool)
      requires Ok()
      modifies this, trusted, untrusted, blacklisted
      ensures Ok() && (ok <==> id !in old(Value()).trusted)
      ensures if ok then Some(Value()) == NotedDemoted(old(Value()), id, byConnection, now)
              else NotedDemoted(old(Value()), id, byConnection, now).None? && Value() == old(Value())
    {
      var known := trusted.Get(id);
      if known.Some? {
        return false;
      }
      untrusted.NoteUnsuccessContact(id, byConnection, Some(Demoted(now)));
      return true;
    }

    method NoteSuccess(id: NodeId, token: Option<nat>, trustedOnly: bool, now: Time)
      requires Ok()
      modifies this, trusted, untrusted, blacklisted
      ensures Ok() && Value() == NotedSuccess(old(Value()), id, token, trustedOnly, now)
    {
      trusted.NoteSuccess(id, token.Some?, token, now);
      if !trustedOnly {
        untrusted.NoteSuccess(id, token.Some?, token, now);
      }
    }

    method Promote(ids: seq<NodeId>, due: Time, now: Time, choose: Choose)
      requires Ok()
      modifies this, trusted, untrusted, blacklisted
      ensures Ok() && Value() == PromotedAll(old(Value()), ids, due, now, choose)
    {
      for i := 0 to |ids|
        invariant Ok() && Value() == PromotedAll(old(Value()), ids[..i], due, now, choose)
      {
        var node := untrusted.Get(ids[i]);
        PromoteOne(ids[i], due, now, ChosenFor(choose, i, ip, node));
        assert ids[..i + 1][..i] == ids[..i];
      }
      assert ids[..|ids|] == ids;
    }

    /** `init` over the ids of one table; reports whether it gets through without a panic. */
    method Init(isTrusted: bool, ids: seq<NodeId>, choose: Choose) returns (ok: bool)
      requires Ok()
      modifies this, trusted, untrusted, blacklisted
      ensures Ok() && (ok <==> Loaded(old(Value()), isTrusted, ids, choose).Some?)
      ensures ok ==> Loaded(old(Value()), isTrusted, ids, choose) == Some(Value())
    {
      for i := 0 to |ids|
        invariant Ok() && Loaded(old(Value()), isTrusted, ids[..i], choose) == Some(Value())
      {
        var node := Find(isTrusted, ids[i]);
        var loaded := LoadOne(isTrusted, ids[i], ChosenFor(choose, i, ip, node));
        assert ids[..i + 1][..i] == ids[..i];
        if !loaded {
          LoadStays(old(Value()), isTrusted, ids, i + 1, choose);
          return false;
        }
      }
      assert ids[..|ids|] == ids;
      return true;
    }

    method LoadOne(isTrusted: bool, id: NodeId, choice: Option<NodeId>) returns (ok: bool)
      requires Ok()
      modifies this, trusted, untrusted, blacklisted
      ensures Ok() && (ok <==> LoadedOne(old(Value()), isTrusted, id, choice).Some?)
      ensures ok ==> LoadedOne(old(Value()), isTrusted, id, choice) == Some(Value())
    {
      var node := Find(isTrusted, id);
      if node.None? {
        return false;
      }
      var address := node.value.endpoint.ip;
      var v := ValidateInsertion(ip, id, address, choice);
      if v == AlreadyExists {
        return false;
      }
      if v == QuotaNotEnough {
        TakeOut(isTrusted, id);
        return true;
      }
      if Evictee(v).Some? {
        TakeOut(isTrusted, Evictee(v).value);
      }
      ok := InsertAddress(id, address, isTrusted, Evictee(v));
    }

    method Find(isTrusted: bool, id: NodeId) returns (r: Option<Node>)
      requires Ok()
      ensures r == NodeAt(Table(Value(), isTrusted), id)
    {
      if isTrusted { r := trusted.Get(id); } else { r := untrusted.Get(id); }
    }

    method InsertAddress(id: NodeId, address: Ip, isTrusted: bool, evictee: Option<NodeId>) returns (ok: bool)
      requires Ok()
      modifies this
      ensures Ok() && ok == NodeIpLimit.Insert(old(ip), id, address, isTrusted, evictee).1
      ensures Value() == old(Value()).(ip := NodeIpLimit.Insert(old(ip), id, address, isTrusted, evictee).0)
    {
      var (limit, inserted) := NodeIpLimit.Insert(ip, id, address, isTrusted, evictee);
      ip := limit;
      return inserted;
    }

    method TakeOut(isTrusted: bool, id: NodeId)
      requires Ok()
      modifies this, trusted, untrusted, blacklisted
      ensures Ok() && Value() == OutOf(old(Value()), isTrusted, id)
    {
      if isTrusted { var _ := trusted.RemoveWithId(id); } else { var _ := untrusted.RemoveWithId(id); }
    }

    method PromoteOne(id: NodeId, due: Time, now: Time, choice: Option<NodeId>)
      requires Ok()
      modifies this, trusted, untrusted, blacklisted
      ensures Ok() && Value() == PromotedOne(old(Value()), id, due, now, choice)
    {
      var known := trusted.Get(id);
      if known.Some? {
        return;
      }
      var node := untrusted.Get(id);
      if node.Some? && LongConnected(node.value, due, now) {
        var removed := untrusted.RemoveWithId(id);
        var promoted := removed.value.(lastContact := removed.value.lastConnected);
        var _ := PromoteWithUntrusted(id, promoted.endpoint.ip, choice);
        trusted.AddNode(promoted, false);
      }
    }

    method Demote(id: NodeId)
      requires Ok()
      modifies this, trusted, untrusted, blacklisted
      ensures Ok() && Value() == DemotedNode(old(Value()), id)
    {
      ip := NodeIpLimit.Demote(ip, id);
      var removed := trusted.RemoveWithId(id);
      if removed.Some? {
        untrusted.AddNode(removed.value, false);
      }
    }

    /** The lookup of the subnet, which the original expects to succeed, comes after the change of the tags. */
    method SetTag(id: NodeId, key: string, value: string) returns (ok: bool)
      requires Ok()
      modifies this, trusted, untrusted, blacklisted
      ensures Ok() && (ok <==> WithTag(old(Value()), id, key, value).Some?)
      ensures ok ==> Some(Value()) == WithTag(old(Value()), id, key, value)
    {
      var found := trusted.SetTag(id, key, value);
      if !found {
        found := untrusted.SetTag(id, key, value);
        return true;
      }
      if !Enabled(ip) {
        return true;
      }
      return id in ip.nodeIndex;
    }

    method SetBlacklisted(id: NodeId, now: Time)
      requires Ok()
      modifies this, trusted, untrusted, blacklisted
      ensures Ok() && Value() == Blacklisted(old(Value()), id, now)
    {
      NoteFailure(id, true, false, now);
      var node := Remove(id);
      if node.Some? {
        blacklisted.AddNode(node.value, false);
      }
    }
  }
}
