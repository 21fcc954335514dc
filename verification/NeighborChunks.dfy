/**
 The answer to FIND_NODE: a sample of neighbours cut into numbered chunks, and the
 request that collects them in whatever order and number they arrive.
 */
module NeighborChunks {
  import opened NodeTable
  import opened Sequences
  import opened Wrappers

  datatype Message = Message(neighbors: seq<NodeEntry>, numChunks: nat, index: nat)

  datatype Request = Request(numChunks: nat, received: set<nat>)

  const NEW_REQUEST := Request(0, {})

  predicate Completed(r: Request) { r.numChunks > 0 && r.numChunks == |r.received| }

  // ---------------------------------------------------------------- sending

  /** Consecutive pieces of the given size; the last may be shorter. */
  function Pieces(s: seq<NodeEntry>, size: nat): seq<seq<NodeEntry>>
    requires size > 0
  {
    if s == [] then []
    else if |s| <= size then [s]
    else [s[..size]] + Pieces(s[size..], size)
  }

  /** `chunks`. */
  function Chunks(neighbors: seq<NodeEntry>, size: nat): seq<Message>
    requires size > 0
  {
    var p := Pieces(neighbors, size);
    seq(|p|, i requires 0 <= i < |p| => Message(p[i], |p|, i))
  }

  function Flatten(p: seq<seq<NodeEntry>>): seq<NodeEntry> {
    if p == [] then [] else Flatten(p[..|p| - 1]) + p[|p| - 1]
  }

  lemma {:induction false} FlattenAppend(a: seq<NodeEntry>, p: seq<seq<NodeEntry>>)
    ensures Flatten([a] + p) == a + Flatten(p)
  {
    if p == [] {
      assert [a] + p == [a] && [a][..0] == [];
    } else {
      var n := |p| - 1;
      assert ([a] + p)[..n + 1] == [a] + p[..n];
      FlattenAppend(a, p[..n]);
      assert (a + Flatten(p[..n])) + p[n] == a + (Flatten(p[..n]) + p[n]);
    }
  }

  /** The chunks in order are the sample, and none of them is empty or too long. */
  lemma {:induction false} PiecesOfSample(s: seq<NodeEntry>, size: nat)
    requires size > 0
    ensures Flatten(Pieces(s, size)) == s
    ensures forall i :: 0 <= i < |Pieces(s, size)| ==> 0 < |Pieces(s, size)[i]| <= size
    ensures Pieces(s, size) == [] <==> s == []
    decreases |s|
  {
    if 0 < |s| <= size {
      assert [s][..0] == [];
    } else if s != [] {
      PiecesOfSample(s[size..], size);
      FlattenAppend(s[..size], Pieces(s[size..], size));
      assert s[..size] + s[size..] == s;
    }
  }

  // ---------------------------------------------------------------- receiving

  datatype UpdateResult = New | Duplicate | BadProtocol

  predicate ValidMessage(m: Message) { m.neighbors != [] && m.numChunks > 0 && m.index < m.numChunks }

  /** `update`. */
  function Updated(r: Request, m: Message): (Request, UpdateResult) {
    if !ValidMessage(m) || (r.numChunks != 0 && r.numChunks != m.numChunks) then (r, BadProtocol)
    else
      var t := r.(numChunks := m.numChunks);
      if m.index in r.received then (t, Duplicate) else (t.(received := r.received + {m.index}), New)
  }

  /** `on_neighbours` for one peer: what is left of its request, and the neighbours to go on with. */
  function Receive(f: Option<Request>, m: Message): (Option<Request>, seq<NodeEntry>) {
    if f.None? then (None, [])
    else
      var (r, u) := Updated(f.value, m);
      if u != New then (Some(r), [])
      else (if Completed(r) then None else Some(r), m.neighbors)
  }

  /** Received indexes are below the announced number, and nothing is received before it is announced. */
  ghost predicate Sound(r: Request) {
    && (r.numChunks == 0 ==> r.received == {})
    && (forall i :: i in r.received ==> i < r.numChunks)
  }

  predicate All(n: nat, s: set<nat>) {
    forall i: nat :: i < n ==> i in s
  }

  /** Numbers below `n` are all there exactly when there are `n` of them. */
  lemma {:induction false} AllByCount(n: nat, s: set<nat>)
    requires forall i :: i in s ==> i < n
    ensures All(n, s) <==> |s| == n
    ensures |s| <= n
  {
    if n == 0 {
      assert s == {};
    } else {
      var k := n - 1;
      AllByCount(k, s - {k});
      if k in s {
        if All(k, s - {k}) {
          forall i: nat | i < n ensures i in s { assert i == k || i in s - {k}; }
        }
        if All(n, s) {
          forall i: nat | i < k ensures i in s - {k} { assert i in s; }
        }
      } else {
        assert s - {k} == s;
      }
    }
  }

  /** The count of indexes is right: a request is complete exactly when every chunk has arrived. */
  lemma CompletedExactly(r: Request)
    requires Sound(r)
    ensures Completed(r) <==> r.numChunks > 0 && All(r.numChunks, r.received)
    ensures |r.received| <= r.numChunks
  {
    AllByCount(r.numChunks, r.received);
  }

  /** Whatever a peer sends, its request stays sound. */
  lemma ReceiveSound(f: Option<Request>, m: Message)
    requires f.Some? ==> Sound(f.value) && !Completed(f.value)
    ensures var g := Receive(f, m).0; g.Some? ==> Sound(g.value) && !Completed(g.value)
    ensures Receive(f, m).1 != [] ==> Receive(f, m).1 == m.neighbors && f.Some? && m.index !in f.value.received
  {
    if f.Some? { CompletedExactly(f.value); }
  }

  // ---------------------------------------------------------------- any order, any repetition

  function Arrivals(ms: seq<Message>, ds: seq<nat>): (Option<Request>, seq<nat>)
    requires forall i :: 0 <= i < |ds| ==> ds[i] < |ms|
  {
    if ds == [] then (Some(NEW_REQUEST), [])
    else
      var n := |ds| - 1;
      var (f, accepted) := Arrivals(ms, ds[..n]);
      var (g, got) := Receive(f, ms[ds[n]]);
      (g, if got == [] then accepted else accepted + [ds[n]])
  }

  /** The chunks `seen`, out of `n`, have been accepted once each, and the request knows exactly that. */
  ghost predicate Collected(n: nat, seen: set<nat>, f: Option<Request>, accepted: seq<nat>) {
    && NoRepeats(accepted)
    && (forall i :: i in accepted <==> i in seen)
    && (forall i :: i in seen ==> i < n)
    && (f.None? <==> All(n, seen))
    && (f.Some? ==> f.value == Request(if seen == {} then 0 else n, seen))
  }

  lemma CollectOne(n: nat, seen: set<nat>, f: Option<Request>, accepted: seq<nat>, m: Message)
    requires Collected(n, seen, f, accepted) && ValidMessage(m) && m.numChunks == n
    ensures var (g, got) := Receive(f, m);
            Collected(n, seen + {m.index}, g, if got == [] then accepted else accepted + [m.index])
  {
    if m.index in seen {
      assert seen + {m.index} == seen;
    } else {
      assert f.Some?;
      CollectNew(n, seen, f.value, accepted, m);
    }
  }

  lemma CollectNew(n: nat, seen: set<nat>, r: Request, accepted: seq<nat>, m: Message)
    requires Collected(n, seen, Some(r), accepted) && ValidMessage(m) && m.numChunks == n && m.index !in seen
    ensures Receive(Some(r), m).1 == m.neighbors
    ensures Collected(n, seen + {m.index}, Receive(Some(r), m).0, accepted + [m.index])
  {
    var t := Request(n, seen + {m.index});
    assert Updated(r, m) == (t, New);
    CompletedExactly(t);
    forall i ensures i in accepted + [m.index] <==> i in seen + {m.index} {}
  }

  /**
   One answer, its chunks reordered and repeated at will: each that arrives is accepted
   once, and the request is gone exactly when all have arrived.
   */
  lemma AnyArrivals(neighbors: seq<NodeEntry>, size: nat, ds: seq<nat>)
    requires size > 0 && neighbors != []
    requires forall i :: 0 <= i < |ds| ==> ds[i] < |Chunks(neighbors, size)|
    ensures var ms := Chunks(neighbors, size);
            var (f, accepted) := Arrivals(ms, ds);
            Collected(|ms|, Elements(ds), f, accepted)
  {
    PiecesOfSample(neighbors, size);
    AnyMessages(Chunks(neighbors, size), ds);
  }

  /** The messages of one answer. */
  ghost predicate Numbered(ms: seq<Message>) {
    forall i :: 0 <= i < |ms| ==> IsChunk(ms[i], |ms|, i)
  }

  predicate IsChunk(m: Message, n: nat, i: nat) { ValidMessage(m) && m.numChunks == n && m.index == i }

  lemma {:induction false} AnyMessages(ms: seq<Message>, ds: seq<nat>)
    requires ms != [] && Numbered(ms) && forall i :: 0 <= i < |ds| ==> ds[i] < |ms|
    ensures var (f, accepted) := Arrivals(ms, ds);
            Collected(|ms|, Elements(ds), f, accepted)
  {
    if ds == [] {
      NothingCollected(|ms|, Elements(ds));
    } else {
      var init, d := ds[..|ds| - 1], ds[|ds| - 1];
      AnyMessages(ms, init);
      var (f, accepted) := Arrivals(ms, init);
      CollectOne(|ms|, Elements(init), f, accepted, ms[d]);
      LastArrival(ms, ds);
    }
  }

  lemma NothingCollected(n: nat, seen: set<nat>)
    requires n > 0 && seen == {}
    ensures Collected(n, seen, Some(NEW_REQUEST), [])
  {
    var first: nat := 0;
    assert first !in seen;
  }

  lemma LastArrival(ms: seq<Message>, ds: seq<nat>)
    requires Numbered(ms) && ds != [] && forall i :: 0 <= i < |ds| ==> ds[i] < |ms|
    ensures var init, d := ds[..|ds| - 1], ds[|ds| - 1];
            var (f, accepted) := Arrivals(ms, init);
            var (g, got) := Receive(f, ms[d]);
            && IsChunk(ms[d], |ms|, d) && Elements(ds) == Elements(init) + {d}
            && Arrivals(ms, ds) == (g, if got == [] then accepted else accepted + [d])
  {
    assert ds == ds[..|ds| - 1] + [ds[|ds| - 1]];
  }

  // ---------------------------------------------------------------- what is gone on with

  function Select(p: seq<seq<NodeEntry>>, accepted: seq<nat>): seq<NodeEntry>
    requires forall i :: 0 <= i < |accepted| ==> accepted[i] < |p|
  {
    if accepted == [] then []
    else Select(p, accepted[..|accepted| - 1]) + p[accepted[|accepted| - 1]]
  }

  lemma {:induction false} SelectSplit(p: seq<seq<NodeEntry>>, a: seq<nat>, k: nat, b: seq<nat>)
    requires k < |p|
    requires (forall i :: 0 <= i < |a| ==> a[i] < |p|) && (forall i :: 0 <= i < |b| ==> b[i] < |p|)
    ensures multiset(Select(p, a + [k] + b)) == multiset(Select(p, a + b)) + multiset(p[k])
  {
    if b == [] {
      assert a + [k] + b == a + [k] && a + b == a;
      SelectAppend(p, a, k);
    } else {
      var n := |b| - 1;
      SelectSplit(p, a, k, b[..n]);
      assert a + [k] + b == (a + [k] + b[..n]) + [b[n]];
      assert a + b == (a + b[..n]) + [b[n]];
      SelectAppend(p, a + [k] + b[..n], b[n]);
      SelectAppend(p, a + b[..n], b[n]);
    }
  }

  lemma SelectAppend(p: seq<seq<NodeEntry>>, a: seq<nat>, k: nat)
    requires k < |p| && forall i :: 0 <= i < |a| ==> a[i] < |p|
    ensures Select(p, a + [k]) == Select(p, a) + p[k]
  {
    assert (a + [k])[..|a|] == a;
  }

  lemma {:induction false} SelectPrefix(p: seq<seq<NodeEntry>>, a: seq<nat>)
    requires p != [] && forall i :: 0 <= i < |a| ==> a[i] < |p| - 1
    ensures Select(p, a) == Select(p[..|p| - 1], a)
  {
    if a != [] { SelectPrefix(p, a[..|a| - 1]); }
  }

  function Without(s: seq<nat>, j: nat): seq<nat>
    requires j < |s|
  {
    s[..j] + s[j + 1..]
  }

  lemma WithoutElements(s: seq<nat>, j: nat)
    requires NoRepeats(s) && j < |s|
    ensures NoRepeats(Without(s, j))
    ensures forall i :: i in Without(s, j) <==> i in s && i != s[j]
  {
    var w := Without(s, j);
    forall i ensures i in w <==> i in s && i != s[j] {
      if i in s && i != s[j] {
        var m :| 0 <= m < |s| && s[m] == i;
        assert w[if m < j then m else m - 1] == i;
      }
    }
  }

  lemma SelectedWithLast(p: seq<seq<NodeEntry>>, accepted: seq<nat>, j: nat)
    requires p != [] && NoRepeats(accepted) && forall i :: 0 <= i < |accepted| ==> accepted[i] < |p|
    requires j < |accepted| && accepted[j] == |p| - 1
    ensures forall i :: 0 <= i < |Without(accepted, j)| ==> Without(accepted, j)[i] < |p| - 1
    ensures multiset(Select(p, accepted))
         == multiset(Select(p[..|p| - 1], Without(accepted, j))) + multiset(p[|p| - 1])
  {
    var w, k := Without(accepted, j), |p| - 1;
    WithoutBelow(accepted, j, k);
    assert accepted == accepted[..j] + [k] + accepted[j + 1..];
    SelectSplit(p, accepted[..j], k, accepted[j + 1..]);
    SelectPrefix(p, w);
  }

  lemma WithoutBelow(s: seq<nat>, j: nat, k: nat)
    requires NoRepeats(s) && j < |s| && s[j] == k && forall i :: 0 <= i < |s| ==> s[i] <= k
    ensures forall i :: 0 <= i < |Without(s, j)| ==> Without(s, j)[i] < k
  {
    forall i | 0 <= i < |Without(s, j)| ensures Without(s, j)[i] < k {
      assert Without(s, j)[i] == if i < j then s[i] else s[i + 1];
    }
  }

  lemma AllWithout(n: nat, s: seq<nat>, j: nat)
    requires NoRepeats(s) && j < |s| && s[j] == n && All(n + 1, Elements(s))
    ensures All(n, Elements(Without(s, j)))
  {
    WithoutElements(s, j);
    forall i: nat | i < n ensures i in Elements(Without(s, j)) { assert i in Elements(s); }
  }

  /** Chunks taken without repetition are part of the sample; all of them are the whole of it. */
  lemma {:induction false} SelectedOnce(p: seq<seq<NodeEntry>>, accepted: seq<nat>)
    requires NoRepeats(accepted) && forall i :: 0 <= i < |accepted| ==> accepted[i] < |p|
    ensures multiset(Select(p, accepted)) <= multiset(Flatten(p))
    ensures All(|p|, Elements(accepted)) ==> multiset(Select(p, accepted)) == multiset(Flatten(p))
    decreases |p|
  {
    if p != [] {
      var k := |p| - 1;
      if j :| 0 <= j < |accepted| && accepted[j] == k {
        WithoutElements(accepted, j);
        SelectedWithLast(p, accepted, j);
        SelectedOnce(p[..k], Without(accepted, j));
        if All(|p|, Elements(accepted)) { AllWithout(k, accepted, j); }
      } else {
        assert k !in Elements(accepted);
        assert forall i :: 0 <= i < |accepted| ==> accepted[i] < k;
        SelectPrefix(p, accepted);
        SelectedOnce(p[..k], accepted);
      }
    }
  }

  /** The neighbours gone on with after the arrivals `ds`. */
  function Processed(ms: seq<Message>, ds: seq<nat>): seq<NodeEntry>
    requires forall i :: 0 <= i < |ds| ==> ds[i] < |ms|
  {
    if ds == [] then []
    else
      var n := |ds| - 1;
      Processed(ms, ds[..n]) + Receive(Arrivals(ms, ds[..n]).0, ms[ds[n]]).1
  }

  lemma {:induction false} ProcessedIsSelected(neighbors: seq<NodeEntry>, size: nat, ds: seq<nat>)
    requires size > 0
    requires forall i :: 0 <= i < |ds| ==> ds[i] < |Chunks(neighbors, size)|
    ensures var ms := Chunks(neighbors, size);
            var accepted := Arrivals(ms, ds).1;
            && (forall i :: 0 <= i < |accepted| ==> accepted[i] < |ms|)
            && Processed(ms, ds) == Select(Pieces(neighbors, size), accepted)
  {
    if ds != [] {
      ProcessedIsSelected(neighbors, size, ds[..|ds| - 1]);
      var ms := Chunks(neighbors, size);
      var before, accepted := Arrivals(ms, ds[..|ds| - 1]).1, Arrivals(ms, ds).1;
      if accepted != before { assert accepted[..|accepted| - 1] == before; }
    }
  }

  /** No sampled neighbour is gone on with twice, and once the request is complete all of them have been. */
  lemma ProcessedOnce(neighbors: seq<NodeEntry>, size: nat, ds: seq<nat>)
    requires size > 0
    requires forall i :: 0 <= i < |ds| ==> ds[i] < |Chunks(neighbors, size)|
    ensures multiset(Processed(Chunks(neighbors, size), ds)) <= multiset(neighbors)
    ensures Arrivals(Chunks(neighbors, size), ds).0.None? ==>
              multiset(Processed(Chunks(neighbors, size), ds)) == multiset(neighbors)
  {
    if neighbors != [] { AnyArrivals(neighbors, size, ds); }
    ProcessedIsSelected(neighbors, size, ds);
    PiecesOfSample(neighbors, size);
    SelectedOnce(Pieces(neighbors, size), Arrivals(Chunks(neighbors, size), ds).1);
  }
}
