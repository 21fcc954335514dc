/**
 The two loops that file the nodes of a database when it is opened: first the
 untrusted ones, then the trusted ones.
 */
module NodeLoading {
  import opened NodeAgreement
  import opened NodeDatabase
  import opened NodeIpLimit
  import opened NodeTable
  import opened Sequences
  import opened Wrappers

  // ---------------------------------------------------------------- one node

  /** The ids in `todo` are in the table and not yet indexed. */
  ghost predicate Loading(db: Db, trusted: bool, todo: set<NodeId>) {
    Disjoint(db) && AllBucketed(db.ip) && todo <= Table(db, trusted).Keys && todo !! db.ip.nodeIndex.Keys
  }

  /** What a round may change: only its own table shrinks, and only its own id is indexed. */
  ghost predicate RoundFrame(db: Db, trusted: bool, id: NodeId, d: Db) {
    && Table(d, !trusted) == Table(db, !trusted) && d.blacklisted == db.blacklisted
    && Table(d, trusted).Keys <= Table(db, trusted).Keys
    && (forall x :: x in Table(d, trusted) ==> Table(d, trusted)[x] == Table(db, trusted)[x])
    && d.ip.quota == db.ip.quota && d.ip.nodeIndex.Keys <= db.ip.nodeIndex.Keys + {id}
  }

  /** An evictee is a filed node of the subnet, so its removal makes room. */
  lemma RoomByEviction(l: IpLimit, id: NodeId, ip: Ip, choice: Option<NodeId>)
    requires Consistent(l) && WithinQuota(l) && AllBucketed(l) && Selectable(l, ip, choice) && id !in l.nodeIndex
    requires Evictee(ValidateInsertion(l, id, ip, choice)).Some?
    ensures var o := Evictee(ValidateInsertion(l, id, ip, choice)).value;
            && o in l.nodeIndex && Consistent(NodeIpLimit.Remove(l, o))
            && ip !in NodeIpLimit.Remove(l, o).ipIndex && QuotaAllowed(NodeIpLimit.Remove(l, o), ip)
  {
    var o := Evictee(ValidateInsertion(l, id, ip, choice)).value;
    EvicteeIsIndexed(l, id, ip, choice);
    RemoveConsistent(l, o);
    assert InABucket(FilingOf(l, o));
    assert SubnetOf(l.nodeIndex[o]) == SubnetOf(ip);
    QuotaAfterRemoval(l, o, ip);
  }

  /** For an id that is not indexed, making room and inserting always succeeds. */
  lemma InsertionSucceeds(l: IpLimit, id: NodeId, ip: Ip, trusted: bool, choice: Option<NodeId>)
    requires Consistent(l) && WithinQuota(l) && AllBucketed(l) && Selectable(l, ip, choice) && id !in l.nodeIndex
    requires Enabled(l) && ValidateInsertion(l, id, ip, choice) != QuotaNotEnough
    ensures var o := Evictee(ValidateInsertion(l, id, ip, choice));
            var m := if o.Some? then NodeIpLimit.Remove(l, o.value) else l;
            && Consistent(m) && Insert(l, id, ip, trusted, o) == (AddOrUpdate(m, ip, id, trusted), true)
  {
    if Evictee(ValidateInsertion(l, id, ip, choice)).Some? { RoomByEviction(l, id, ip, choice); }
  }

  function AddressOf(db: Db, trusted: bool, id: NodeId): Ip
    requires id in Table(db, trusted)
  {
    Table(db, trusted)[id].endpoint.ip
  }

  /** A round by what it validates: the id leaves its table, or is inserted and its evictee leaves the same table. */
  lemma LoadOneIs(db: Db, trusted: bool, id: NodeId, todo: set<NodeId>, choice: Option<NodeId>)
    requires Loading(db, trusted, todo) && id in todo && Selectable(db.ip, AddressOf(db, trusted, id), choice)
    ensures var ip := AddressOf(db, trusted, id);
            var v := ValidateInsertion(db.ip, id, ip, choice);
            && (Evictee(v).Some? ==> Evictee(v).value in db.ip.nodeIndex)
            && LoadedOne(db, trusted, id, choice) == Some(
                 if v == QuotaNotEnough then OutOf(db, trusted, id)
                 else WithoutEvictee(db, trusted, v).(ip := Insert(db.ip, id, ip, trusted, Evictee(v)).0))
  {
    var ip := AddressOf(db, trusted, id);
    var v := ValidateInsertion(db.ip, id, ip, choice);
    EvicteeIsIndexed(db.ip, id, ip, choice);
    if v != QuotaNotEnough { NeverRefused(db.ip, id, ip, trusted, choice); }
    assert v != AlreadyExists;
  }

  lemma NeverRefused(l: IpLimit, id: NodeId, ip: Ip, trusted: bool, choice: Option<NodeId>)
    requires Consistent(l) && WithinQuota(l) && AllBucketed(l) && Selectable(l, ip, choice) && id !in l.nodeIndex
    requires ValidateInsertion(l, id, ip, choice) != QuotaNotEnough
    ensures Insert(l, id, ip, trusted, Evictee(ValidateInsertion(l, id, ip, choice))).1
  {
    if Enabled(l) { InsertionSucceeds(l, id, ip, trusted, choice); }
  }

  function WithoutEvictee(db: Db, trusted: bool, v: ValidateInsertResult): Db {
    if Evictee(v).Some? then OutOf(db, trusted, Evictee(v).value) else db
  }

  lemma OutOfKeeps(db: Db, trusted: bool, x: NodeId)
    requires Disjoint(db)
    ensures var d := OutOf(db, trusted, x);
            && Disjoint(d) && Table(d, trusted) == Table(db, trusted) - {x}
            && Table(d, !trusted) == Table(db, !trusted) && d.blacklisted == db.blacklisted && d.ip == db.ip
  {
  }

  lemma InsertKeeps(l: IpLimit, id: NodeId, ip: Ip, trusted: bool, evictee: Option<NodeId>)
    requires Consistent(l) && WithinQuota(l) && AllBucketed(l)
    ensures var m := Insert(l, id, ip, trusted, evictee).0;
            && Consistent(m) && WithinQuota(m) && AllBucketed(m)
            && m.quota == l.quota && m.nodeIndex.Keys <= l.nodeIndex.Keys + {id}
  {
    InsertConsistent(l, id, ip, trusted, evictee);
    InsertWithin(l, id, ip, trusted, evictee);
    InsertAllBucketed(l, id, ip, trusted, evictee);
  }

  /** No round panics. */
  lemma LoadOneKeeps(db: Db, trusted: bool, id: NodeId, todo: set<NodeId>, choice: Option<NodeId>)
    requires Loading(db, trusted, todo) && id in todo && Selectable(db.ip, AddressOf(db, trusted, id), choice)
    ensures LoadedOne(db, trusted, id, choice).Some?
    ensures var d := LoadedOne(db, trusted, id, choice).value;
            RoundFrame(db, trusted, id, d) && Loading(d, trusted, todo - {id})
  {
    var ip := AddressOf(db, trusted, id);
    var v := ValidateInsertion(db.ip, id, ip, choice);
    LoadOneIs(db, trusted, id, todo, choice);
    if v == QuotaNotEnough {
      OutOfKeeps(db, trusted, id);
    } else {
      InsertedRound(db, trusted, id, todo, v, ip);
    }
  }

  lemma InsertedRound(db: Db, trusted: bool, id: NodeId, todo: set<NodeId>, v: ValidateInsertResult, ip: Ip)
    requires Loading(db, trusted, todo) && id in todo
    requires Evictee(v).Some? ==> Evictee(v).value in db.ip.nodeIndex
    ensures var d := WithoutEvictee(db, trusted, v).(ip := Insert(db.ip, id, ip, trusted, Evictee(v)).0);
            RoundFrame(db, trusted, id, d) && Loading(d, trusted, todo - {id})
  {
    var e := WithoutEvictee(db, trusted, v);
    if Evictee(v).Some? { OutOfKeeps(db, trusted, Evictee(v).value); }
    InsertKeeps(db.ip, id, ip, trusted, Evictee(v));
    assert id !in e.blacklisted;
    IpPut(e, Insert(db.ip, id, ip, trusted, Evictee(v)).0);
  }

  /** The index agrees with the tables, but for ids that are still to be filed and are nowhere in it. */
  ghost predicate AgreesSoFar(db: Db, pending: set<NodeId>) {
    Enabled(db.ip) ==> forall x :: if x in pending then FilingOf(db.ip, x) == Unfiled else AgreesAt(db, x)
  }

  /** The node that has to go is in the table that is not being loaded, from which it is not taken. */
  predicate EvictsOther(db: Db, trusted: bool, id: NodeId, choice: Option<NodeId>)
    requires id in Table(db, trusted)
  {
    var o := Evictee(ValidateInsertion(db.ip, id, AddressOf(db, trusted, id), choice));
    o.Some? && o.value in Table(db, !trusted)
  }

  /** Where an id is filed after a round. */
  lemma LoadOneFiling(db: Db, trusted: bool, id: NodeId, todo: set<NodeId>, choice: Option<NodeId>, x: NodeId)
    requires Loading(db, trusted, todo) && id in todo && Selectable(db.ip, AddressOf(db, trusted, id), choice)
    requires Enabled(db.ip) && ValidateInsertion(db.ip, id, AddressOf(db, trusted, id), choice) != QuotaNotEnough
    ensures LoadedOne(db, trusted, id, choice).Some?
    ensures var ip := AddressOf(db, trusted, id);
            var o := Evictee(ValidateInsertion(db.ip, id, ip, choice));
            && (o.Some? ==> o.value in db.ip.nodeIndex)
            && FilingOf(LoadedOne(db, trusted, id, choice).value.ip, x)
               == if x == id then Filed(ip, trusted, !trusted)
                  else if o == Some(x) then Unfiled else FilingOf(db.ip, x)
  {
    var ip := AddressOf(db, trusted, id);
    var o := Evictee(ValidateInsertion(db.ip, id, ip, choice));
    LoadOneIs(db, trusted, id, todo, choice);
    InsertionSucceeds(db.ip, id, ip, trusted, choice);
    var m := if o.Some? then NodeIpLimit.Remove(db.ip, o.value) else db.ip;
    if o.Some? { RemoveFiling(db.ip, o.value, x); }
    AddFiling(m, ip, id, trusted, x);
  }

  /** A round keeps the agreement if it evicts nobody from the other table. */
  lemma LoadOneAgrees(db: Db, trusted: bool, id: NodeId, todo: set<NodeId>, pending: set<NodeId>,
                      choice: Option<NodeId>)
    requires Loading(db, trusted, todo) && id in todo && Selectable(db.ip, AddressOf(db, trusted, id), choice)
    requires todo <= pending && AgreesSoFar(db, pending) && !EvictsOther(db, trusted, id, choice)
    ensures LoadedOne(db, trusted, id, choice).Some?
    ensures AgreesSoFar(LoadedOne(db, trusted, id, choice).value, pending - {id})
  {
    LoadOneKeeps(db, trusted, id, todo, choice);
    if Enabled(db.ip) {
      forall x
        ensures var d := LoadedOne(db, trusted, id, choice).value;
                if x in pending - {id} then FilingOf(d.ip, x) == Unfiled else AgreesAt(d, x)
      {
        LoadOneAgreesAt(db, trusted, id, todo, pending, choice, x);
      }
    }
  }

  lemma LoadOneAgreesAt(db: Db, trusted: bool, id: NodeId, todo: set<NodeId>, pending: set<NodeId>,
                        choice: Option<NodeId>, x: NodeId)
    requires Loading(db, trusted, todo) && id in todo && Selectable(db.ip, AddressOf(db, trusted, id), choice)
    requires todo <= pending && AgreesSoFar(db, pending) && !EvictsOther(db, trusted, id, choice) && Enabled(db.ip)
    ensures LoadedOne(db, trusted, id, choice).Some?
    ensures var d := LoadedOne(db, trusted, id, choice).value;
            if x in pending - {id} then FilingOf(d.ip, x) == Unfiled else AgreesAt(d, x)
  {
    LoadOneIs(db, trusted, id, todo, choice);
    var v := ValidateInsertion(db.ip, id, AddressOf(db, trusted, id), choice);
    assert if x in pending then FilingOf(db.ip, x) == Unfiled else AgreesAt(db, x);
    if v == QuotaNotEnough {
      ExpectedWithout(db, trusted, id, x);
    } else {
      LoadOneFiling(db, trusted, id, todo, choice, x);
      if Evictee(v).Some? { ExpectedWithout(db, trusted, Evictee(v).value, x); }
      ExpectedLoaded(db, trusted, id, v);
    }
  }

  lemma ExpectedWithout(db: Db, trusted: bool, y: NodeId, x: NodeId)
    requires y !in Table(db, !trusted)
    ensures Expected(OutOf(db, trusted, y), x) == if x == y then Unfiled else Expected(db, x)
  {
  }

  lemma ExpectedLoaded(db: Db, trusted: bool, id: NodeId, v: ValidateInsertResult)
    requires Disjoint(db) && id in Table(db, trusted) && Evictee(v) != Some(id)
    ensures Expected(WithoutEvictee(db, trusted, v), id) == Filed(AddressOf(db, trusted, id), trusted, !trusted)
  {
  }

  // ---------------------------------------------------------------- one table

  function Choice(choose: Choose, i: nat, db: Db, trusted: bool, id: NodeId): Option<NodeId> {
    ChosenFor(choose, i, db.ip, NodeAt(Table(db, trusted), id))
  }

  lemma SelectedForOne(choose: Choose, i: nat, db: Db, trusted: bool, id: NodeId)
    requires Selects(choose) && id in Table(db, trusted)
    ensures Selectable(db.ip, AddressOf(db, trusted, id), Choice(choose, i, db, trusted, id))
  {
    assert Selectable(db.ip, AddressOf(db, trusted, id), choose(i, db.ip, AddressOf(db, trusted, id)));
  }

  /** No round of the loop evicts a node of the other table. */
  ghost predicate NoOtherEvicted(db: Db, trusted: bool, ids: seq<NodeId>, choose: Choose) {
    ids == [] ||
    (var n := |ids| - 1;
     && NoOtherEvicted(db, trusted, ids[..n], choose)
     && (match Loaded(db, trusted, ids[..n], choose)
         case None => true
         case Some(d) =>
           ids[n] in Table(d, trusted) ==>
             !EvictsOther(d, trusted, ids[n], Choice(choose, n, d, trusted, ids[n]))))
  }

  ghost predicate Listed(ids: seq<NodeId>, todo: set<NodeId>) { NoRepeats(ids) && Elements(ids) <= todo }

  lemma ListedInit(ids: seq<NodeId>, todo: set<NodeId>)
    requires Listed(ids, todo) && ids != []
    ensures var init, last := ids[..|ids| - 1], ids[|ids| - 1];
            && Listed(init, todo) && last in todo - Elements(init)
            && todo - Elements(init) - {last} == todo - Elements(ids)
  {
    var init, last := ids[..|ids| - 1], ids[|ids| - 1];
    assert ids == init + [last];
    forall x ensures x in Elements(ids) <==> x in Elements(init) || x == last {
      assert x in ids <==> x in init || x == last;
    }
    assert last in Elements(ids) && last !in init;
  }

  /** The loop over one table never panics, and leaves the other table and the blacklist alone. */
  lemma {:induction false} LoadKeeps(db: Db, trusted: bool, ids: seq<NodeId>, choose: Choose, todo: set<NodeId>)
    requires Loading(db, trusted, todo) && Listed(ids, todo) && Selects(choose)
    ensures Loaded(db, trusted, ids, choose).Some?
    ensures var d := Loaded(db, trusted, ids, choose).value;
            && Loading(d, trusted, todo - Elements(ids))
            && Table(d, !trusted) == Table(db, !trusted) && d.blacklisted == db.blacklisted
            && d.ip.quota == db.ip.quota
  {
    if ids == [] {
      assert todo - Elements(ids) == todo;
    } else {
      var n := |ids| - 1;
      ListedInit(ids, todo);
      LoadKeeps(db, trusted, ids[..n], choose, todo);
      var d := Loaded(db, trusted, ids[..n], choose).value;
      SelectedForOne(choose, n, d, trusted, ids[n]);
      LoadOneKeeps(d, trusted, ids[n], todo - Elements(ids[..n]), Choice(choose, n, d, trusted, ids[n]));
    }
  }

  lemma {:induction false} LoadAgrees(db: Db, trusted: bool, ids: seq<NodeId>, choose: Choose,
                                      todo: set<NodeId>, pending: set<NodeId>)
    requires Loading(db, trusted, todo) && Listed(ids, todo) && Selects(choose)
    requires todo <= pending && AgreesSoFar(db, pending) && NoOtherEvicted(db, trusted, ids, choose)
    ensures Loaded(db, trusted, ids, choose).Some?
    ensures AgreesSoFar(Loaded(db, trusted, ids, choose).value, pending - Elements(ids))
  {
    if ids == [] {
      assert pending - Elements(ids) == pending;
    } else {
      var n := |ids| - 1;
      ListedInit(ids, todo);
      ListedInit(ids, pending);
      LoadKeeps(db, trusted, ids[..n], choose, todo);
      LoadAgrees(db, trusted, ids[..n], choose, todo, pending);
      var d := Loaded(db, trusted, ids[..n], choose).value;
      var left, open := todo - Elements(ids[..n]), pending - Elements(ids[..n]);
      SelectedForOne(choose, n, d, trusted, ids[n]);
      LoadOneAgrees(d, trusted, ids[n], left, open, Choice(choose, n, d, trusted, ids[n]));
    }
  }

  // ---------------------------------------------------------------- the untrusted table

  /** While no trusted node is filed, none can be evicted. */
  lemma {:induction false} FirstLoopEvictsNoTrusted(db: Db, ids: seq<NodeId>, choose: Choose)
    requires Loading(db, false, db.untrusted.Keys) && Listed(ids, db.untrusted.Keys) && Selects(choose)
    requires AgreesSoFar(db, db.untrusted.Keys + db.trusted.Keys)
    ensures NoOtherEvicted(db, false, ids, choose)
  {
    if ids != [] {
      var n := |ids| - 1;
      var todo, pending := db.untrusted.Keys, db.untrusted.Keys + db.trusted.Keys;
      ListedInit(ids, todo);
      FirstLoopEvictsNoTrusted(db, ids[..n], choose);
      LoadKeeps(db, false, ids[..n], choose, todo);
      LoadAgrees(db, false, ids[..n], choose, todo, pending);
      var d := Loaded(db, false, ids[..n], choose).value;
      SelectedForOne(choose, n, d, false, ids[n]);
      NoPendingEvicted(d, ids[n], Choice(choose, n, d, false, ids[n]), pending - Elements(ids[..n]));
    }
  }

  lemma NoPendingEvicted(d: Db, id: NodeId, choice: Option<NodeId>, pending: set<NodeId>)
    requires Disjoint(d) && id in d.untrusted && Selectable(d.ip, d.untrusted[id].endpoint.ip, choice)
    requires AgreesSoFar(d, pending) && d.trusted.Keys <= pending
    ensures !EvictsOther(d, false, id, choice)
  {
    var o := Evictee(ValidateInsertion(d.ip, id, d.untrusted[id].endpoint.ip, choice));
    EvicteeIsIndexed(d.ip, id, d.untrusted[id].endpoint.ip, choice);
    forall x | x in d.trusted ensures x !in d.ip.nodeIndex { PendingUnfiled(d, pending, x); }
  }

  lemma PendingUnfiled(d: Db, pending: set<NodeId>, x: NodeId)
    requires Disjoint(d) && AgreesSoFar(d, pending) && x in pending
    ensures x !in d.ip.nodeIndex
  {
    if Enabled(d.ip) { assert FilingOf(d.ip, x) == Unfiled; }
  }

  // ---------------------------------------------------------------- the trusted table

  /** An untrusted node outside the index. */
  predicate Stray(db: Db, x: NodeId) { Enabled(db.ip) && x in db.untrusted && x !in db.ip.nodeIndex }

  /** A node evicted by a trusted one stays in its table. */
  lemma EvictedStrays(db: Db, id: NodeId, todo: set<NodeId>, choice: Option<NodeId>) returns (x: NodeId)
    requires Loading(db, true, todo) && id in todo && Selectable(db.ip, AddressOf(db, true, id), choice)
    requires EvictsOther(db, true, id, choice)
    ensures LoadedOne(db, true, id, choice).Some? && Stray(LoadedOne(db, true, id, choice).value, x)
  {
    LoadOneKeeps(db, true, id, todo, choice);
    x := Evictee(ValidateInsertion(db.ip, id, AddressOf(db, true, id), choice)).value;
    LoadOneFiling(db, true, id, todo, choice, x);
  }

  /** Once a trusted node has evicted an untrusted one, there is a stray node to the end. */
  lemma {:induction false} StrayAtTheEnd(db: Db, ids: seq<NodeId>, choose: Choose, todo: set<NodeId>)
    returns (x: NodeId)
    requires Loading(db, true, todo) && Listed(ids, todo) && Selects(choose)
    requires !NoOtherEvicted(db, true, ids, choose)
    ensures Loaded(db, true, ids, choose).Some? && Stray(Loaded(db, true, ids, choose).value, x)
  {
    var n := |ids| - 1;
    ListedInit(ids, todo);
    LoadKeeps(db, true, ids[..n], choose, todo);
    var d := Loaded(db, true, ids[..n], choose).value;
    var left, choice := todo - Elements(ids[..n]), Choice(choose, n, d, true, ids[n]);
    SelectedForOne(choose, n, d, true, ids[n]);
    LoadOneKeeps(d, true, ids[n], left, choice);
    if NoOtherEvicted(db, true, ids[..n], choose) {
      x := EvictedStrays(d, ids[n], left, choice);
    } else {
      x := StrayAtTheEnd(db, ids[..n], choose, todo);
    }
  }

  // ---------------------------------------------------------------- opening a database

  /** The ids of a table in some order. */
  ghost predicate Lists(ids: seq<NodeId>, m: Nodes) { NoRepeats(ids) && Elements(ids) == m.Keys }

  /** Tables as read from disk, with nothing filed. */
  ghost predicate Unopened(db: Db) {
    Disjoint(db) && db.ip == IpLimit(db.ip.quota, map[], map[], map[], map[])
  }

  lemma NothingFiled(db: Db)
    requires Unopened(db)
    ensures Loading(db, false, db.untrusted.Keys) && AgreesSoFar(db, db.untrusted.Keys + db.trusted.Keys)
  {
  }

  /** The first loop leaves every untrusted node that is left filed, and no trusted one. */
  lemma FirstLoop(db: Db, us: seq<NodeId>, choose: Choose)
    requires Unopened(db) && Lists(us, db.untrusted) && Selects(choose)
    ensures Loaded(db, false, us, choose).Some?
    ensures var d := Loaded(db, false, us, choose).value;
            && d.trusted == db.trusted && d.ip.quota == db.ip.quota
            && Loading(d, true, d.trusted.Keys) && AgreesSoFar(d, d.trusted.Keys)
  {
    NothingFiled(db);
    var pending := db.untrusted.Keys + db.trusted.Keys;
    LoadKeeps(db, false, us, choose, db.untrusted.Keys);
    FirstLoopEvictsNoTrusted(db, us, choose);
    LoadAgrees(db, false, us, choose, db.untrusted.Keys, pending);
    var d := Loaded(db, false, us, choose).value;
    assert pending - Elements(us) == db.trusted.Keys;
    forall x | x in d.trusted ensures x !in d.ip.nodeIndex { PendingUnfiled(d, d.trusted.Keys, x); }
  }

  /**
   Opening never panics and leaves every subnet within its quota; index and tables agree
   afterwards exactly if no trusted node had to evict an untrusted one.
   */
  lemma OpenedExactly(db: Db, us: seq<NodeId>, ts: seq<NodeId>, first: Choose, second: Choose)
    requires Unopened(db) && Lists(us, db.untrusted) && Lists(ts, db.trusted) && Selects(first) && Selects(second)
    ensures Loaded(db, false, us, first).Some?
    ensures var e := Loaded(db, false, us, first).value;
            && Loaded(e, true, ts, second).Some?
            && var d := Loaded(e, true, ts, second).value;
               && Disjoint(d) && AllBucketed(d.ip) && (forall s :: |Held(d.ip, s)| <= d.ip.quota)
               && (Agrees(d) <==> NoOtherEvicted(e, true, ts, second))
  {
    FirstLoop(db, us, first);
    var e := Loaded(db, false, us, first).value;
    SecondLoop(e, ts, second);
  }

  lemma SecondLoop(e: Db, ts: seq<NodeId>, choose: Choose)
    requires Loading(e, true, e.trusted.Keys) && AgreesSoFar(e, e.trusted.Keys)
    requires Lists(ts, e.trusted) && Selects(choose)
    ensures Loaded(e, true, ts, choose).Some?
    ensures var d := Loaded(e, true, ts, choose).value;
            && Disjoint(d) && AllBucketed(d.ip) && (forall s :: |Held(d.ip, s)| <= d.ip.quota)
            && (Agrees(d) <==> NoOtherEvicted(e, true, ts, choose))
  {
    LoadKeeps(e, true, ts, choose, e.trusted.Keys);
    var d := Loaded(e, true, ts, choose).value;
    forall s ensures |Held(d.ip, s)| <= d.ip.quota { HeldWithinQuota(d.ip, s); }
    if NoOtherEvicted(e, true, ts, choose) {
      LoadAgrees(e, true, ts, choose, e.trusted.Keys, e.trusted.Keys);
      assert e.trusted.Keys - Elements(ts) == {};
      assert Agrees(d);
    } else {
      var x := StrayAtTheEnd(e, ts, choose, e.trusted.Keys);
      assert !AgreesAt(d, x);
    }
  }

  // ---------------------------------------------------------------- a node left behind

  const ON_DISK := Db(map[2 := NodeOf(2, 0)], map[1 := NodeOf(1, 0)], map[], IpLimit(1, map[], map[], map[], map[]))

  const HALF_OPEN := ON_DISK.(ip := IpLimit(1, map[1 := 0], map[0 := 1], map[], map[0 := {1}]))

  const OPENED := ON_DISK.(ip := IpLimit(1, map[2 := 0], map[0 := 2], map[0 := {2}], map[]))

  /** A trusted and an untrusted node read from disk with one address: the untrusted one is left outside the index. */
  lemma LeftOutsideTheIndex(first: Choose, second: Choose)
    ensures Unopened(ON_DISK) && Lists([1], ON_DISK.untrusted) && Lists([2], ON_DISK.trusted)
    ensures Loaded(ON_DISK, false, [1], first) == Some(HALF_OPEN)
    ensures Loaded(HALF_OPEN, true, [2], second) == Some(OPENED)
    ensures Stray(OPENED, 1)
  {
    LoadedSingle(ON_DISK, false, 1, first);
    FirstFiled(Choice(first, 0, ON_DISK, false, 1));
    LoadedSingle(HALF_OPEN, true, 2, second);
    SecondFiled(Choice(second, 0, HALF_OPEN, true, 2));
  }

  lemma FirstFiled(choice: Option<NodeId>)
    ensures LoadedOne(ON_DISK, false, 1, choice) == Some(HALF_OPEN)
  {
    var l := ON_DISK.ip;
    assert QuotaAllowed(l, 0) && NodeIpLimit.Remove(l, 1) == l;
    assert AddOrUpdate(l, 0, 1, false) == HALF_OPEN.ip;
  }

  lemma SecondFiled(choice: Option<NodeId>)
    ensures LoadedOne(HALF_OPEN, true, 2, choice) == Some(OPENED)
  {
    var l := HALF_OPEN.ip;
    assert Bucket(l.untrusted, 0) == {1} && Bucket(l.trusted, 0) == {};
    var m := NodeIpLimit.Remove(l, 1);
    assert m == ON_DISK.ip;
    assert QuotaAllowed(m, 0) && NodeIpLimit.Remove(m, 2) == m;
    assert AddOrUpdate(m, 0, 2, true) == OPENED.ip;
    assert HALF_OPEN.trusted - {1} == HALF_OPEN.trusted;
  }

  lemma LoadedSingle(db: Db, trusted: bool, id: NodeId, choose: Choose)
    ensures Loaded(db, trusted, [id], choose) == LoadedOne(db, trusted, id, Choice(choose, 0, db, trusted, id))
  {
    assert [id][..0] == [];
  }
}
