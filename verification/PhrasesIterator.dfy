/**
 The enumeration of all phrases that take one word from each list of candidates: an
 odometer over the lists, the last one turning fastest.
 */
module PhrasesIterator {
  import opened Machine
  import opened Wrappers

  type Lists = seq<seq<string>>

  // ---------------------------------------------------------------- mixed-radix numbers

  function Product(words: Lists): nat {
    if words == [] then 1 else Product(words[..|words| - 1]) * |words[|words| - 1]|
  }

  /** An index into each list. */
  ghost predicate InRange(words: Lists, a: seq<nat>) {
    |a| == |words| && forall i :: 0 <= i < |a| ==> a[i] < |words[i]|
  }

  /** The indexes read as digits, the last one the least significant. */
  function Rank(words: Lists, a: seq<nat>): nat
    requires |a| == |words|
  {
    if a == [] then 0
    else var n := |a| - 1; Rank(words[..n], a[..n]) * |words[n]| + a[n]
  }

  lemma {:induction false} RankBelowProduct(words: Lists, a: seq<nat>)
    requires InRange(words, a)
    ensures Rank(words, a) < Product(words)
  {
    if a != [] {
      var n := |a| - 1;
      RankBelowProduct(words[..n], a[..n]);
      Carry(Rank(words[..n], a[..n]), Product(words[..n]), |words[n]|, a[n]);
    }
  }

  lemma Carry(r: nat, p: nat, size: nat, digit: nat)
    requires r < p && digit < size
    ensures r * size + digit < p * size
  {
    assert (r + 1) * size <= p * size;
  }

  /** The indexes with a given rank. */
  function Digits(words: Lists, k: nat): (a: seq<nat>)
    requires k < Product(words)
    ensures InRange(words, a)
  {
    if words == [] then []
    else
      var n := |words| - 1;
      var size := |words[n]|;
      QuotientBelow(k, Product(words[..n]), size);
      Digits(words[..n], k / size) + [k % size]
  }

  lemma QuotientBelow(k: nat, p: nat, size: nat)
    requires k < p * size
    ensures size > 0 && k / size < p
  {
  }

  /** Ranks and indexes determine each other. */
  lemma {:induction false} RankOfDigits(words: Lists, k: nat)
    requires k < Product(words)
    ensures Rank(words, Digits(words, k)) == k
  {
    if words != [] {
      var n := |words| - 1;
      var size := |words[n]|;
      QuotientBelow(k, Product(words[..n]), size);
      RankOfDigits(words[..n], k / size);
      var d := Digits(words, k);
      assert d[..n] == Digits(words[..n], k / size) && d[n] == k % size;
      Recombine(k, size, Rank(words[..n], d[..n]));
    }
  }

  lemma Recombine(k: nat, size: nat, q: nat)
    requires size > 0 && q == k / size
    ensures q * size + k % size == k
  {
  }

  lemma {:induction false} DigitsOfRank(words: Lists, a: seq<nat>)
    requires InRange(words, a)
    ensures Rank(words, a) < Product(words) && Digits(words, Rank(words, a)) == a
  {
    RankBelowProduct(words, a);
    if a != [] {
      var n := |a| - 1;
      DigitsOfRank(words[..n], a[..n]);
      SplitDigit(Rank(words[..n], a[..n]), |words[n]|, a[n]);
      assert a == a[..n] + [a[n]];
    }
  }

  lemma SplitDigit(r: nat, size: nat, digit: nat)
    requires digit < size
    ensures (r * size + digit) / size == r && (r * size + digit) % size == digit
  {
    var k := r * size + digit;
    UniqueDigit(k / size, k % size, r, digit, size);
  }

  lemma UniqueDigit(q: nat, d: nat, r: nat, e: nat, size: nat)
    requires q * size + d == r * size + e && d < size && e < size
    ensures q == r && d == e
  {
    if q < r {
      Carry(q, r, size, d);
    } else if r < q {
      Carry(r, q, size, e);
    }
  }

  /** First difference from the left. */
  ghost predicate Before(a: seq<nat>, b: seq<nat>) {
    exists p :: 0 <= p < |a| == |b| && a[..p] == b[..p] && a[p] < b[p]
  }

  lemma {:induction false} BeforeMeansLess(words: Lists, a: seq<nat>, b: seq<nat>, p: nat)
    requires InRange(words, a) && InRange(words, b)
    requires p < |a| && a[..p] == b[..p] && a[p] < b[p]
    ensures Rank(words, a) < Rank(words, b)
  {
    var n := |a| - 1;
    if p < n {
      assert a[..n][..p] == a[..p] && b[..n][..p] == b[..p];
      BeforeMeansLess(words[..n], a[..n], b[..n], p);
      Carry(Rank(words[..n], a[..n]), Rank(words[..n], b[..n]), |words[n]|, a[n]);
    } else {
      assert a[..n] == b[..n];
    }
  }

  /** Different indexes have a first difference. */
  lemma {:induction false} FirstDifference(a: seq<nat>, b: seq<nat>) returns (p: nat)
    requires |a| == |b| && a != b
    ensures p < |a| && a[..p] == b[..p] && a[p] != b[p]
  {
    if a[0] != b[0] {
      p := 0;
    } else {
      assert a == [a[0]] + a[1..] && b == [b[0]] + b[1..];
      var q := FirstDifference(a[1..], b[1..]);
      p := q + 1;
      assert a[..p] == [a[0]] + a[1..][..q] && b[..p] == [b[0]] + b[1..][..q];
    }
  }

  /** Enumeration by rank is lexicographic. */
  lemma RankIsLexicographic(words: Lists, a: seq<nat>, b: seq<nat>)
    requires InRange(words, a) && InRange(words, b)
    ensures Before(a, b) <==> Rank(words, a) < Rank(words, b)
  {
    if Before(a, b) {
      var p :| 0 <= p < |a| && a[..p] == b[..p] && a[p] < b[p];
      BeforeMeansLess(words, a, b, p);
    } else if a != b {
      var p := FirstDifference(a, b);
      BeforeMeansLess(words, b, a, p);
    }
  }

  // ---------------------------------------------------------------- the odometer

  /** Counting up: the digits after `p` fall from their last value to zero, and digit `p` goes up by one. */
  lemma {:induction false} Successor(words: Lists, a: seq<nat>, b: seq<nat>, p: nat)
    requires InRange(words, a) && InRange(words, b) && p < |a|
    requires a[..p] == b[..p] && b[p] == a[p] + 1
    requires forall i :: p < i < |a| ==> a[i] == |words[i]| - 1 && b[i] == 0
    ensures Rank(words, b) == Rank(words, a) + 1
  {
    var n := |a| - 1;
    if p < n {
      assert a[..n][..p] == a[..p] && b[..n][..p] == b[..p];
      Successor(words[..n], a[..n], b[..n], p);
      NextMultiple(Rank(words[..n], a[..n]), |words[n]|);
    } else {
      assert a[..n] == b[..n];
    }
  }

  lemma NextMultiple(r: nat, size: nat)
    ensures (r + 1) * size == r * size + size
  {
  }

  lemma {:induction false} LastRank(words: Lists, a: seq<nat>)
    requires InRange(words, a) && forall i :: 0 <= i < |a| ==> a[i] == |words[i]| - 1
    ensures Rank(words, a) + 1 == Product(words)
  {
    if a != [] {
      var n := |a| - 1;
      LastRank(words[..n], a[..n]);
      NextMultiple(Rank(words[..n], a[..n]), |words[n]|);
    }
  }

  lemma {:induction false} ZeroRank(words: Lists, a: seq<nat>)
    requires |a| == |words| && forall i :: 0 <= i < |a| ==> a[i] == 0
    ensures Rank(words, a) == 0
  {
    if a != [] { ZeroRank(words[..|a| - 1], a[..|a| - 1]); }
  }

  // ---------------------------------------------------------------- the number of combinations

  /** The product as the 64-bit fold computes it. */
  function Wrapped(words: Lists): nat {
    if words == [] then 1 else Wrapped(words[..|words| - 1]) * |words[|words| - 1]| % TWO_64
  }

  lemma {:induction false} WrappedIsProduct(words: Lists)
    ensures Wrapped(words) == Product(words) % TWO_64
  {
    if words != [] {
      var n := |words| - 1;
      WrappedIsProduct(words[..n]);
      ModTimes(Product(words[..n]), |words[n]|);
    }
  }

  lemma ModTimes(p: nat, size: nat)
    ensures (p % TWO_64) * size % TWO_64 == p * size % TWO_64
  {
    var q, r := p / TWO_64, p % TWO_64;
    assert p * size == (q * TWO_64 + r) * size == (q * size) * TWO_64 + r * size;
    AddMultiple(r * size, q * size);
  }

  lemma AddMultiple(a: nat, k: nat)
    ensures (k * TWO_64 + a) % TWO_64 == a % TWO_64
  {
  }

  /** What the iterator yields in all: every combination, unless the count wrapped to zero. */
  function Total(words: Lists): nat { if Wrapped(words) > 0 then Product(words) else 0 }

  /** The announced number is right exactly when the product fits, or is a multiple of two to the sixty-four. */
  lemma CombinationsExact(words: Lists)
    ensures Wrapped(words) == Total(words) <==> Product(words) < TWO_64 || Product(words) % TWO_64 == 0
  {
    WrappedIsProduct(words);
  }

  lemma {:induction false} PositiveLists(words: Lists, i: nat)
    requires i < |words| && Product(words) > 0
    ensures |words[i]| > 0
  {
    var n := |words| - 1;
    if i < n {
      if Product(words[..n]) == 0 { assert false; }
      PositiveLists(words[..n], i);
    }
  }

  /** The words at the indexes, with spaces between them. */
  function Phrase(words: Lists, a: seq<nat>): string
    requires |a| == |words| && forall i :: 0 <= i < |a| ==> a[i] < |words[i]|
  {
    if a == [] then ""
    else if |a| == 1 then words[0][a[0]]
    else var n := |a| - 1; Phrase(words[..n], a[..n]) + " " + words[n][a[n]]
  }

  // ---------------------------------------------------------------- the object

  class PhrasesIterator {
    const words: Lists
    const combinations: nat
    const indexes: array<nat>
    var hasNext: bool

    ghost predicate Valid()
      reads this, indexes
    {
      && |words| > 0 && indexes.Length == |words| && combinations == Wrapped(words)
      && (hasNext ==> InRange(words, indexes[..]) && combinations > 0)
    }

    /** How many phrases have been yielded. */
    ghost function Position(): nat
      requires Valid()
      reads this, indexes
    {
      if hasNext then Rank(words, indexes[..]) else Total(words)
    }

    constructor (lists: Lists)
      requires |lists| > 0
      ensures Valid() && words == lists && Position() == 0 && fresh(indexes)
    {
      var c := 1;
      for i := 0 to |lists|
        invariant c == Wrapped(lists[..i])
      {
        assert lists[..i + 1][..i] == lists[..i];
        c := c * |lists[i]| % TWO_64;
      }
      assert lists[..|lists|] == lists;
      words, combinations, hasNext := lists, c, c > 0;
      indexes := new nat[|lists|](_ => 0);
      new;
      ZeroRank(words, indexes[..]);
      if hasNext {
        WrappedIsProduct(words);
        forall i | 0 <= i < |words| ensures |words[i]| > 0 { PositiveLists(words, i); }
      }
    }

    method Current() returns (s: string)
      requires Valid() && hasNext
      ensures InRange(words, indexes[..]) && s == Phrase(words, indexes[..])
    {
      ghost var a := indexes[..];
      s := words[0][indexes[0]];
      for i := 1 to indexes.Length
        invariant s == Phrase(words[..i], a[..i])
      {
        assert words[..i + 1][..i] == words[..i] && a[..i + 1][..i] == a[..i];
        s := s + " ";
        s := s + words[i][indexes[i]];
      }
      assert words[..|words|] == words && a[..|words|] == a;
    }

    /** Carries from the last index leftwards. */
    method NextIndex() returns (more: bool)
      requires |words| == indexes.Length && InRange(words, indexes[..])
      modifies indexes
      ensures InRange(words, indexes[..])
      ensures more <==> Rank(words, old(indexes[..])) + 1 < Product(words)
      ensures more ==> Rank(words, indexes[..]) == Rank(words, old(indexes[..])) + 1
      ensures Rank(words, old(indexes[..])) < Product(words)
    {
      ghost var a := indexes[..];
      RankBelowProduct(words, a);
      var pos := indexes.Length;
      while pos > 0
        invariant 0 <= pos <= indexes.Length
        invariant forall i :: 0 <= i < pos ==> indexes[i] == a[i]
        invariant forall i :: pos <= i < indexes.Length ==> a[i] == |words[i]| - 1 && indexes[i] == 0
      {
        pos := pos - 1;
        indexes[pos] := indexes[pos] + 1;
        if indexes[pos] >= |words[pos]| {
          indexes[pos] := 0;
        } else {
          assert indexes[..][..pos] == a[..pos];
          Successor(words, a, indexes[..], pos);
          RankBelowProduct(words, indexes[..]);
          return true;
        }
      }
      LastRank(words, a);
      return false;
    }

    /** The next phrase is the one whose rank is the number of those before; after the last there is none. */
    method Next() returns (r: Option<string>)
      requires Valid()
      modifies this, indexes
      ensures Valid()
      ensures old(Position()) >= Total(words) ==> r == None && Position() == old(Position())
      ensures old(Position()) < Total(words) ==>
                && old(Position()) < Product(words)
                && r == Some(Phrase(words, Digits(words, old(Position()))))
                && Position() == old(Position()) + 1
    {
      if !hasNext {
        return None;
      }
      DigitsOfRank(words, indexes[..]);
      var phrase := Current();
      hasNext := NextIndex();
      return Some(phrase);
    }

    /** Run to the end: every combination once, in lexicographic order of its indexes. */
    method Collect() returns (out: seq<string>)
      requires Valid() && Position() == 0
      modifies this, indexes
      ensures |out| == Total(words) && Total(words) <= Product(words)
      ensures forall k :: 0 <= k < |out| ==> out[k] == Phrase(words, Digits(words, k))
      ensures Valid() && !hasNext
    {
      out := [];
      ghost var total := Total(words);
      while true
        invariant Valid() && |out| == Position() <= total <= Product(words) && Total(words) == total
        invariant forall k :: 0 <= k < |out| ==> out[k] == Phrase(words, Digits(words, k))
        decreases total - |out|
      {
        var r := Next();
        if r.None? {
          break;
        }
        out := out + [r.value];
      }
      if hasNext {
        RankBelowProduct(words, indexes[..]);
        assert false;
      }
    }
  }
}
