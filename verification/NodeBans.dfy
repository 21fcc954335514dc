/**
 How long a ban lasts: what `set_blacklisted` does to a node, and for how long
 every evaluation still finds it blacklisted.
 */
module NodeBans {
  import opened NodeAgreement
  import opened NodeDatabase
  import opened NodeIpLimit
  import opened NodeTable
  import opened Wrappers

  /** The contact that stands after a failure is noted: that of a demotion is kept. */
  function NotedTime(n: Node, now: Time): Time {
    if NodeReputation(n.lastContact) == DemotedLevel then n.lastContact.value.time else now
  }

  /** From when the ban counts once a node is blacklisted at `now`; nothing if it is not banned at all. */
  function BanStart(db: Db, id: NodeId, now: Time): Option<Time> {
    if id in db.trusted then Some(NotedTime(db.trusted[id], now))
    else if id in db.untrusted then Some(NotedTime(db.untrusted[id], now))
    else if id in db.blacklisted && db.blacklisted[id].lastContact.Some? then
      Some(db.blacklisted[id].lastContact.value.time)
    else None
  }

  /** Blacklisting a node that is blacklisted already changes nothing. */
  lemma BlacklistedTwice(db: Db, id: NodeId, now: Time)
    requires Disjoint(db) && id in db.blacklisted
    ensures Blacklisted(db, id, now) == db
  {
    assert NotedFailure(db, id, true, false, now) == db;
    assert (db.blacklisted - {id})[id := db.blacklisted[id]] == db.blacklisted;
  }

  lemma UnknownStaysUnknown(db: Db, id: NodeId, now: Time)
    requires id !in db.trusted && id !in db.untrusted && id !in db.blacklisted
    ensures Blacklisted(db, id, now) == db
  {
  }

  lemma BanEntry(db: Db, id: NodeId, now: Time)
    requires Disjoint(db)
    ensures var d := Blacklisted(db, id, now);
            && Disjoint(d)
            && (BanStart(db, id, now).Some? <==> id in d.blacklisted && d.blacklisted[id].lastContact.Some?)
            && (BanStart(db, id, now).Some? ==>
                  d.blacklisted[id].lastContact.value.time == BanStart(db, id, now).value)
  {
    BlacklistedKeeps(db, id, now);
    if id in db.trusted || id in db.untrusted {
      BlacklistMoves(db, id, now);
      assert NodeAt(Blacklisted(db, id, now).blacklisted, id).Some?;
    } else if id in db.blacklisted {
      BlacklistedTwice(db, id, now);
    } else {
      UnknownStaysUnknown(db, id, now);
    }
  }

  /** A run without removal of the id and with no evaluation of it after the lifetime counted from `since`. */
  ghost predicate BanRun(db: Db, ops: seq<Op>, id: NodeId, since: Time) {
    PossibleRun(db, ops) && Run(db, ops).Some? && forall i :: 0 <= i < |ops| ==> Within(ops[i], id, since)
  }

  /** After every such run the node is still banned, up to exactly the end of the lifetime counted from the start. */
  lemma BannedSince(db: Db, id: NodeId, now: Time, ops: seq<Op>, later: Time)
    requires Disjoint(db) && BanStart(db, id, now).Some?
    requires BanRun(Blacklisted(db, id, now), ops, id, BanStart(db, id, now).value)
    ensures var e := Run(Blacklisted(db, id, now), ops).value;
            && id in e.blacklisted && id !in e.trusted && id !in e.untrusted
            && (EvaluatedBlacklist(e, id, later).1 <==> later <= BanStart(db, id, now).value + BLACKLISTED_LIFETIME)
  {
    BanEntry(db, id, now);
    BannedForLifetime(Blacklisted(db, id, now), ops, id);
  }

  /** The contact recorded for the node is not older than its blacklisting. */
  predicate CountsFromNow(db: Db, id: NodeId, now: Time) {
    BanStart(db, id, now).Some? && BanStart(db, id, now).value >= now
  }

  /** In terms of the node: known and not demoted, or demoted or blacklisted already with a contact not before now. */
  lemma CountsFromNowExactly(db: Db, id: NodeId, now: Time)
    requires Disjoint(db)
    ensures CountsFromNow(db, id, now) <==>
              && (id in db.trusted || id in db.untrusted || id in db.blacklisted)
              && var n := if id in db.trusted then db.trusted[id]
                          else if id in db.untrusted then db.untrusted[id] else db.blacklisted[id];
                 if id in db.blacklisted || NodeReputation(n.lastContact) == DemotedLevel
                 then n.lastContact.Some? && n.lastContact.value.time >= now else true
  {
  }

  ghost predicate BannedThroughout(d: Db, id: NodeId, now: Time) {
    forall ops :: BanRun(d, ops, id, now) ==> id in Run(d, ops).value.blacklisted
  }

  /** A blacklisted node stays banned for the lifetime from now on, in every run, exactly if its ban counts from now. */
  lemma BannedExactly(db: Db, id: NodeId, now: Time)
    requires Disjoint(db)
    ensures BannedThroughout(Blacklisted(db, id, now), id, now) <==> CountsFromNow(db, id, now)
  {
    var d := Blacklisted(db, id, now);
    BanEntry(db, id, now);
    if CountsFromNow(db, id, now) {
      var since := BanStart(db, id, now).value;
      forall ops | BanRun(d, ops, id, now) ensures id in Run(d, ops).value.blacklisted {
        assert forall i :: 0 <= i < |ops| ==> Within(ops[i], id, now) ==> Within(ops[i], id, since);
        assert BanRun(d, ops, id, since);
        BannedSince(db, id, now, ops, now);
      }
    } else {
      var op := EvaluateBlacklisted(id, now + BLACKLISTED_LIFETIME);
      var e := EvaluatedBlacklist(d, id, now + BLACKLISTED_LIFETIME).0;
      SingleRun(d, op, e);
      assert BanRun(d, [op], id, now);
      assert id !in e.blacklisted;
    }
  }

  lemma SingleRun(d: Db, op: Op, e: Db)
    requires Possible(d, op) && Step(d, op) == Some(e)
    ensures PossibleRun(d, [op]) && Run(d, [op]) == Some(e)
  {
    assert PossibleRun(e, []) && Run(e, []) == Some(e);
    RunMore(d, op, e, [], e);
    assert [op] + [] == [op];
  }

  // ---------------------------------------------------------------- a ban that is over at once

  const NO_LIMIT := IpLimit(0, map[], map[], map[], map[])

  const NEVER_SEEN := NewNode(1, NodeEndpoint(0, 0, 0))

  const AFTER := BLACKLISTED_LIFETIME + 1

  const DEMOTED := NEVER_SEEN.(lastContact := Some(Demoted(0)))

  const BANNED := DEMOTED.(lastConnected := Some(Failure(AFTER)))

  lemma DemotedEarly()
    ensures InsertedTrusted(Empty(0), EntryOf(1, 0), 0, None) == Db(map[1 := NEVER_SEEN], map[], map[], NO_LIMIT)
    ensures DemotedNode(Db(map[1 := NEVER_SEEN], map[], map[], NO_LIMIT), 1)
         == Db(map[], map[1 := NEVER_SEEN], map[], NO_LIMIT)
    ensures NotedDemoted(Db(map[], map[1 := NEVER_SEEN], map[], NO_LIMIT), 1, false, 0)
         == Some(Db(map[], map[1 := DEMOTED], map[], NO_LIMIT))
  {
    assert MapNoteUnsuccess(map[1 := NEVER_SEEN], 1, false, Some(Demoted(0))) == map[1 := DEMOTED];
    assert MapNoteUnsuccess(map[], 1, false, Some(Demoted(0))) == map[];
  }

  lemma BannedLate()
    ensures Blacklisted(Db(map[], map[1 := DEMOTED], map[], NO_LIMIT), 1, AFTER)
         == Db(map[], map[], map[1 := BANNED], NO_LIMIT)
    ensures InsertedTrusted(Db(map[], map[], map[1 := BANNED], NO_LIMIT), EntryOf(1, 0), AFTER, None)
         == Db(map[1 := NEVER_SEEN], map[], map[], NO_LIMIT)
  {
  }

  /** A node demoted more than a lifetime ago is blacklisted, and trusted again at the same moment. */
  lemma BanOverAtOnce() returns (ops: seq<Op>, d: Db)
    ensures |ops| == 5 && ops[3] == SetBlacklisted(1, AFTER) && ops[4] == InsertTrusted(EntryOf(1, 0), AFTER, None)
    ensures PossibleRun(Empty(0), ops) && Run(Empty(0), ops) == Some(d)
    ensures 1 in d.trusted && 1 !in d.blacklisted
  {
    DemotedEarly();
    BannedLate();
    var d1 := Db(map[1 := NEVER_SEEN], map[], map[], NO_LIMIT);
    var d2 := Db(map[], map[1 := NEVER_SEEN], map[], NO_LIMIT);
    var d3 := Db(map[], map[1 := DEMOTED], map[], NO_LIMIT);
    var d4 := Db(map[], map[], map[1 := BANNED], NO_LIMIT);
    d := d1;
    var o1, o2, o3 := InsertTrusted(EntryOf(1, 0), 0, None), Demote(1), NoteDemoted(1, false, 0);
    var o4, o5 := SetBlacklisted(1, AFTER), InsertTrusted(EntryOf(1, 0), AFTER, None);
    SingleRun(d4, o5, d);
    RunMore(d3, o4, d4, [o5], d);
    RunMore(d2, o3, d3, [o4] + [o5], d);
    RunMore(d1, o2, d2, [o3] + ([o4] + [o5]), d);
    RunMore(Empty(0), o1, d1, [o2] + ([o3] + ([o4] + [o5])), d);
    ops := [o1] + ([o2] + ([o3] + ([o4] + [o5])));
  }
}
