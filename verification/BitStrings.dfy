/**
 Bit strings, most significant bit first, their relation to numbers and to
 sequences of fixed-width symbols, and the bit operations of machine words.
 Bit strings are the reference against which the accumulator loops of the
 address codec are proved.
 */
module BitStrings {
  import opened Sequences

  function Pow2(n: nat): (p: nat)
    ensures p > 0
  {
    if n == 0 then 1 else 2 * Pow2(n - 1)
  }

  /** The low `w` bits of `v`. */
  function ToBits(v: nat, w: nat): (b: seq<bool>)
    ensures |b| == w
  {
    if w == 0 then [] else ToBits(v / 2, w - 1) + [v % 2 == 1]
  }

  function Val(b: seq<bool>): nat {
    if b == [] then 0
    else 2 * Val(b[..|b| - 1]) + if b[|b| - 1] then 1 else 0
  }

  function Zeros(n: nat): (b: seq<bool>)
    ensures |b| == n
    ensures forall i :: 0 <= i < n ==> !b[i]
  {
    seq(n, i => false)
  }

  /** Every symbol fits in `w` bits. */
  ghost predicate Fits(syms: seq<nat>, w: nat) {
    forall i :: 0 <= i < |syms| ==> syms[i] < Pow2(w)
  }

  /** The bits of all symbols, one after the other. */
  function Unpack(syms: seq<nat>, w: nat): seq<bool> {
    if syms == [] then []
    else Unpack(syms[..|syms| - 1], w) + ToBits(syms[|syms| - 1], w)
  }

  /** Cuts a bit string into `w`-bit symbols; an incomplete last group is dropped. */
  function Pack(b: seq<bool>, w: nat): (syms: seq<nat>)
    requires w > 0
  {
    if |b| < w then [] else [Val(b[..w])] + Pack(b[w..], w)
  }

  // ------------------------------------------------ operations on words

  function Shl(x: nat, k: nat): nat {
    if k == 0 then x else 2 * Shl(x, k - 1)
  }

  function Shr(x: nat, k: nat): nat {
    if k == 0 then x else Shr(x / 2, k - 1)
  }

  function Or(x: nat, y: nat): nat {
    if x == 0 && y == 0 then 0
    else 2 * Or(x / 2, y / 2) + if x % 2 == 1 || y % 2 == 1 then 1 else 0
  }

  function And(x: nat, y: nat): nat {
    if x == 0 || y == 0 then 0
    else 2 * And(x / 2, y / 2) + if x % 2 == 1 && y % 2 == 1 then 1 else 0
  }

  // ------------------------------------------------ numbers and bit strings

  lemma {:induction false} Pow2Monotone(a: nat, b: nat)
    requires a <= b
    ensures Pow2(a) <= Pow2(b)
  {
    if a < b { Pow2Monotone(a, b - 1); }
  }

  lemma {:induction false} ValToBits(v: nat, w: nat)
    requires v < Pow2(w)
    ensures Val(ToBits(v, w)) == v
  {
    if w > 0 {
      ValToBits(v / 2, w - 1);
      assert ToBits(v, w)[..w - 1] == ToBits(v / 2, w - 1);
    }
  }

  lemma {:induction false} ToBitsVal(b: seq<bool>)
    ensures Val(b) < Pow2(|b|)
    ensures ToBits(Val(b), |b|) == b
  {
    if b != [] { ToBitsVal(b[..|b| - 1]); }
  }

  lemma {:induction false} ValZeros(b: seq<bool>)
    ensures Val(b) == 0 <==> b == Zeros(|b|)
  {
    if b != [] {
      var n := |b| - 1;
      ValZeros(b[..n]);
      assert b == b[..n] + [b[n]];
      assert Zeros(|b|) == Zeros(n) + [false];
      if b == Zeros(|b|) { assert b[..n] == Zeros(n); }
    }
  }

  // ------------------------------------------------ words and bit strings

  lemma {:induction false} ShlBound(x: nat, m: nat, k: nat)
    requires x < Pow2(m)
    ensures Shl(x, k) < Pow2(m + k)
  {
    if k > 0 { ShlBound(x, m, k - 1); }
  }

  lemma {:induction false} ShrBound(x: nat, m: nat, k: nat)
    requires x < Pow2(m + k)
    ensures Shr(x, k) < Pow2(m)
  {
    if k > 0 { ShrBound(x / 2, m, k - 1); }
  }

  lemma {:induction false} OrBound(x: nat, y: nat, w: nat)
    requires x < Pow2(w) && y < Pow2(w)
    ensures Or(x, y) < Pow2(w)
  {
    if w > 0 { OrBound(x / 2, y / 2, w - 1); }
  }

  lemma {:induction false} OrZero(x: nat)
    ensures Or(x, 0) == x
  {
    if x > 0 { OrZero(x / 2); }
  }

  /** Shifting a symbol into a word appends its bits. */
  lemma {:induction false} ToBitsOr(a: nat, hi: nat, d: nat, lo: nat)
    requires d < Pow2(lo)
    ensures ToBits(Or(Shl(a, lo), d), hi + lo) == ToBits(a, hi) + ToBits(d, lo)
  {
    if lo == 0 {
      OrZero(a);
    } else {
      var x := Or(Shl(a, lo), d);
      assert x / 2 == Or(Shl(a, lo - 1), d / 2) && x % 2 == d % 2;
      ToBitsOr(a, hi, d / 2, lo - 1);
    }
  }

  lemma {:induction false} ToBitsShl(a: nat, hi: nat, lo: nat)
    ensures ToBits(Shl(a, lo), hi + lo) == ToBits(a, hi) + Zeros(lo)
  {
    if lo > 0 {
      ToBitsShl(a, hi, lo - 1);
      assert Zeros(lo) == Zeros(lo - 1) + [false];
    }
  }

  /** A word is its high bits followed by its low ones. */
  lemma {:induction false} ToBitsSplit(v: nat, hi: nat, lo: nat)
    ensures ToBits(v, hi + lo) == ToBits(Shr(v, lo), hi) + ToBits(v, lo)
  {
    if lo > 0 { ToBitsSplit(v / 2, hi, lo - 1); }
  }

  /** Masking with `Pow2(m) - 1` keeps the low `m` bits. */
  lemma {:induction false} ToBitsMask(x: nat, m: nat, n: nat)
    requires n <= m
    ensures ToBits(And(x, Pow2(m) - 1), n) == ToBits(x, n)
  {
    if n > 0 {
      AndHalf(x, Pow2(m) - 1);
      ToBitsMask(x / 2, m - 1, n - 1);
    }
  }

  lemma AndHalf(x: nat, y: nat)
    ensures And(x, y) / 2 == And(x / 2, y / 2)
    ensures And(x, y) % 2 == if x % 2 == 1 && y % 2 == 1 then 1 else 0
  {
  }

  lemma {:induction false} AndBound(x: nat, y: nat, m: nat)
    requires y < Pow2(m)
    ensures And(x, y) < Pow2(m)
  {
    if m > 0 {
      AndHalf(x, y);
      AndBound(x / 2, y / 2, m - 1);
    }
  }

  // ------------------------------------------------ symbols and bit strings

  lemma UnpackSnoc(syms: seq<nat>, s: nat, w: nat)
    ensures Unpack(syms + [s], w) == Unpack(syms, w) + ToBits(s, w)
  {
    assert (syms + [s])[..|syms|] == syms;
  }

  lemma {:induction false} UnpackConcat(a: seq<nat>, b: seq<nat>, w: nat)
    ensures Unpack(a + b, w) == Unpack(a, w) + Unpack(b, w)
  {
    if b == [] {
      assert a + b == a;
    } else {
      var init, last := b[..|b| - 1], b[|b| - 1];
      UnpackConcat(a, init, w);
      UnpackSnoc(a + init, last, w);
      assert a + b == (a + init) + [last];
      Associative(Unpack(a, w), Unpack(init, w), ToBits(last, w));
    }
  }

  lemma UnpackCons(s: nat, tail: seq<nat>, w: nat)
    ensures Unpack([s] + tail, w) == ToBits(s, w) + Unpack(tail, w)
  {
    UnpackConcat([s], tail, w);
    UnpackSnoc([], s, w);
    assert [] + [s] == [s];
  }

  lemma {:induction false} UnpackLength(syms: seq<nat>, w: nat)
    ensures |Unpack(syms, w)| == |syms| * w
  {
    if syms != [] {
      var n := |syms| - 1;
      UnpackLength(syms[..n], w);
      assert |syms| * w == n * w + w;
    }
  }

  /** `Pack` finds the only decomposition into whole symbols and a short rest. */
  lemma {:induction false} PackOfUnpack(syms: seq<nat>, rest: seq<bool>, w: nat)
    requires w > 0 && Fits(syms, w) && |rest| < w
    ensures Pack(Unpack(syms, w) + rest, w) == syms
  {
    if syms != [] {
      var s, tail := syms[0], syms[1..];
      assert syms == [s] + tail;
      UnpackCons(s, tail, w);
      var b := ToBits(s, w) + (Unpack(tail, w) + rest);
      assert Unpack(syms, w) + rest == b;
      assert b[..w] == ToBits(s, w) && b[w..] == Unpack(tail, w) + rest;
      ValToBits(s, w);
      PackOfUnpack(tail, rest, w);
    }
  }

  lemma {:induction false} PackFits(b: seq<bool>, w: nat)
    requires w > 0
    ensures Fits(Pack(b, w), w)
  {
    if |b| >= w {
      PackFits(b[w..], w);
      ToBitsVal(b[..w]);
    }
  }

  /** `Pack` keeps every bit of the whole groups. */
  lemma {:induction false} UnpackOfPack(b: seq<bool>, w: nat) returns (rest: seq<bool>)
    requires w > 0
    ensures |rest| < w && Unpack(Pack(b, w), w) + rest == b
  {
    if |b| < w {
      rest := b;
    } else {
      var head, more := b[..w], b[w..];
      rest := UnpackOfPack(more, w);
      ToBitsVal(head);
      UnpackCons(Val(head), Pack(more, w), w);
      Associative(head, Unpack(Pack(more, w), w), rest);
      assert head + more == b;
    }
  }

  /** The number of bits left over when whole symbols are followed by a short rest. */
  lemma LeftoverOfUnpack(syms: seq<nat>, rest: seq<bool>, w: nat)
    requires w > 0 && |rest| < w
    ensures |Unpack(syms, w) + rest| % w == |rest|
  {
    UnpackLength(syms, w);
    RemainderOfPair(|syms|, |rest|, w);
  }

  lemma RemainderOfPair(q: nat, r: nat, p: nat)
    requires r < p
    ensures (q * p + r) % p == r
  {
    var v := q * p + r;
    assert v == p * (v / p) + v % p;
    assert (v / p - q) * p == (v / p) * p - q * p;
    OnlyZeroMultiple(v / p - q, p);
  }

  lemma OnlyZeroMultiple(d: int, p: nat)
    requires 0 - p < d * p < p
    ensures d == 0
  {
  }
}
