/**
 The limits on sessions from one address or one subnet: a counter for each key
 in use, and several limits applied together.
 */
module SessionLimits {
  import opened NodeTable

  /** A quota for each key, where the key of an address is its network of the given width. */
  datatype Limit = Limit(quota: nat, width: nat, items: map<nat, nat>)

  ghost predicate WellFormed(ls: seq<Limit>) {
    forall i :: 0 <= i < |ls| ==> ls[i].quota > 0 && ls[i].width > 0
  }

  function Key(l: Limit, ip: Ip): nat
    requires l.width > 0
  {
    ip / l.width
  }

  predicate Contains(l: Limit, ip: Ip)
    requires l.width > 0
  {
    Key(l, ip) in l.items
  }

  predicate IsAllowed(l: Limit, ip: Ip)
    requires l.width > 0
  {
    Contains(l, ip) ==> l.items[Key(l, ip)] < l.quota
  }

  /** `GenericLimit::add`. */
  function AddOne(l: Limit, ip: Ip): (Limit, bool)
    requires l.width > 0
  {
    var k := Key(l, ip);
    if k !in l.items then (l.(items := l.items[k := 1]), true)
    else if l.items[k] < l.quota then (l.(items := l.items[k := l.items[k] + 1]), true)
    else (l, false)
  }

  /** `GenericLimit::remove`. */
  function RemoveOne(l: Limit, ip: Ip): (Limit, bool)
    requires l.width > 0
  {
    var k := Key(l, ip);
    if k !in l.items then (l, false)
    else if l.items[k] > 1 then (l.(items := l.items[k := l.items[k] - 1]), true)
    else (l.(items := l.items - {k}), true)
  }

  ghost predicate AllAllowed(ls: seq<Limit>, ip: Ip)
    requires WellFormed(ls)
  {
    forall i :: 0 <= i < |ls| ==> IsAllowed(ls[i], ip)
  }

  ghost predicate AllContain(ls: seq<Limit>, ip: Ip)
    requires WellFormed(ls)
  {
    forall i :: 0 <= i < |ls| ==> Contains(ls[i], ip)
  }

  /** All limits or none are charged. */
  ghost function AddAll(ls: seq<Limit>, ip: Ip): (seq<Limit>, bool)
    requires WellFormed(ls)
  {
    if !AllAllowed(ls, ip) then (ls, false)
    else (seq(|ls|, i requires 0 <= i < |ls| => AddOne(ls[i], ip).0), true)
  }

  /** All limits or none are refunded. */
  ghost function RemoveAll(ls: seq<Limit>, ip: Ip): (seq<Limit>, bool)
    requires WellFormed(ls)
  {
    if !AllContain(ls, ip) then (ls, false)
    else (seq(|ls|, i requires 0 <= i < |ls| => RemoveOne(ls[i], ip).0), true)
  }

  // ---------------------------------------------------------------- counters and what they count

  function Count(l: Limit, k: nat): nat { if k in l.items then l.items[k] else 0 }

  /** The things, named by numbers, whose address has this key. */
  function Group(ips: map<nat, Ip>, width: nat, k: nat): set<nat>
    requires width > 0
  {
    set x | x in ips && ips[x] / width == k
  }

  /** Each counter is the number of live addresses with its key, is never zero and never above the quota. */
  ghost predicate Matches(l: Limit, ips: map<nat, Ip>) {
    && l.width > 0 && l.quota > 0
    && (forall k :: Count(l, k) == |Group(ips, l.width, k)|)
    && (forall k :: k in l.items ==> 0 < l.items[k] <= l.quota)
  }

  ghost predicate AllMatch(ls: seq<Limit>, ips: map<nat, Ip>) {
    forall i :: 0 <= i < |ls| ==> Matches(ls[i], ips)
  }

  lemma AddMatches(l: Limit, ips: map<nat, Ip>, x: nat, ip: Ip)
    requires Matches(l, ips) && x !in ips && IsAllowed(l, ip)
    ensures AddOne(l, ip).1 && Matches(AddOne(l, ip).0, ips[x := ip])
  {
    var m, k := AddOne(l, ip).0, Key(l, ip);
    forall j ensures Count(m, j) == |Group(ips[x := ip], l.width, j)| {
      assert Count(l, j) == |Group(ips, l.width, j)|;
      assert Group(ips[x := ip], l.width, j) == Group(ips, l.width, j) + if j == k then {x} else {};
    }
  }

  lemma RemoveMatches(l: Limit, ips: map<nat, Ip>, x: nat)
    requires Matches(l, ips) && x in ips
    ensures Contains(l, ips[x])
    ensures RemoveOne(l, ips[x]).1 && Matches(RemoveOne(l, ips[x]).0, ips - {x})
  {
    var m, k := RemoveOne(l, ips[x]).0, Key(l, ips[x]);
    assert x in Group(ips, l.width, k) && Count(l, k) == |Group(ips, l.width, k)|;
    forall j ensures Count(m, j) == |Group(ips - {x}, l.width, j)| {
      assert Count(l, j) == |Group(ips, l.width, j)|;
      assert Group(ips - {x}, l.width, j) == Group(ips, l.width, j) - if j == k then {x} else {};
    }
  }

  /** A charge is accepted exactly when every limit has room, and the counters stay exact. */
  lemma AddAllMatch(ls: seq<Limit>, ips: map<nat, Ip>, x: nat, ip: Ip)
    requires WellFormed(ls) && AllMatch(ls, ips) && x !in ips
    ensures AddAll(ls, ip).1 <==>
              forall i :: 0 <= i < |ls| ==> |Group(ips, ls[i].width, ip / ls[i].width)| < ls[i].quota
    ensures AllMatch(AddAll(ls, ip).0, if AddAll(ls, ip).1 then ips[x := ip] else ips)
    ensures WellFormed(AddAll(ls, ip).0)
  {
    forall i | 0 <= i < |ls|
      ensures IsAllowed(ls[i], ip) <==> |Group(ips, ls[i].width, ip / ls[i].width)| < ls[i].quota
    {
      assert Matches(ls[i], ips);
      assert Count(ls[i], ip / ls[i].width) == |Group(ips, ls[i].width, ip / ls[i].width)|;
    }
    if AllAllowed(ls, ip) {
      forall i | 0 <= i < |ls| ensures Matches(AddOne(ls[i], ip).0, ips[x := ip]) {
        AddMatches(ls[i], ips, x, ip);
      }
    }
  }

  /** The refund of a live address never fails. */
  lemma RemoveAllMatch(ls: seq<Limit>, ips: map<nat, Ip>, x: nat)
    requires WellFormed(ls) && AllMatch(ls, ips) && x in ips
    ensures RemoveAll(ls, ips[x]).1 && AllMatch(RemoveAll(ls, ips[x]).0, ips - {x})
    ensures WellFormed(RemoveAll(ls, ips[x]).0)
  {
    forall i | 0 <= i < |ls| ensures Contains(ls[i], ips[x]) && Matches(RemoveOne(ls[i], ips[x]).0, ips - {x}) {
      RemoveMatches(ls[i], ips, x);
    }
  }

  // ---------------------------------------------------------------- the object

  class CompositeLimit {
    var limits: seq<Limit>

    constructor (quotas: seq<(nat, nat)>)
      requires forall i :: 0 <= i < |quotas| ==> quotas[i].1 > 0
      ensures WellFormed(limits) && AllMatch(limits, map[])
    {
      var ls: seq<Limit> := [];
      for i := 0 to |quotas|
        invariant WellFormed(ls) && AllMatch(ls, map[])
      {
        if quotas[i].0 > 0 {
          var l := Limit(quotas[i].0, quotas[i].1, map[]);
          assert forall k :: Group(map[], l.width, k) == {};
          ls := ls + [l];
        }
      }
      limits := ls;
    }

    method Allows(ip: Ip) returns (ok: bool)
      requires WellFormed(limits)
      ensures ok <==> AllAllowed(limits, ip)
    {
      for i := 0 to |limits|
        invariant forall j :: 0 <= j < i ==> IsAllowed(limits[j], ip)
      {
        if !IsAllowed(limits[i], ip) {
          return false;
        }
      }
      return true;
    }

    /** The assertion on each single charge holds. */
    method Charge(ip: Ip) returns (ok: bool)
      requires WellFormed(limits)
      modifies this
      ensures (limits, ok) == AddAll(old(limits), ip)
    {
      ok := Allows(ip);
      if !ok {
        return;
      }
      var n := |limits|;
      for i := 0 to n
        invariant |limits| == n
        invariant forall j :: 0 <= j < i ==> limits[j] == AddOne(old(limits)[j], ip).0
        invariant forall j :: i <= j < n ==> limits[j] == old(limits)[j]
      {
        var (l, added) := AddOne(limits[i], ip);
        assert added;
        limits := limits[i := l];
      }
      assert limits == AddAll(old(limits), ip).0;
    }

    /** The assertion on each single refund holds. */
    method Refund(ip: Ip) returns (ok: bool)
      requires WellFormed(limits)
      modifies this
      ensures (limits, ok) == RemoveAll(old(limits), ip)
    {
      var n := |limits|;
      for i := 0 to n
        invariant forall j :: 0 <= j < i ==> Contains(limits[j], ip)
      {
        if !Contains(limits[i], ip) {
          return false;
        }
      }
      for i := 0 to n
        invariant |limits| == n
        invariant forall j :: 0 <= j < i ==> limits[j] == RemoveOne(old(limits)[j], ip).0
        invariant forall j :: i <= j < n ==> limits[j] == old(limits)[j]
      {
        var (l, removed) := RemoveOne(limits[i], ip);
        assert removed;
        limits := limits[i := l];
      }
      assert limits == RemoveAll(old(limits), ip).0;
      return true;
    }
  }
}
