/**
 The 40-bit checksum of base32 addresses: a linear code over 5-bit symbols, as
 in the "Checksum" section of the CashAddr specification.
 */
module Polymod {

  // ---------------------------------------------------------------- one round

  function Xor(a: bv64, b: bv64): bv64 { a ^ b }

  /** The symbol that a shift pushes out of the 40-bit state. */
  function Top(c: bv64): bv64 { c >> 35 }

  function Shift(c: bv64): bv64 { (c & 0x07_ffff_ffff) << 5 }

  // The generators, one for each bit of the pushed-out symbol.
  function Gen0(c0: bv64): bv64 { if c0 & 0x01 != 0 then 0x98_f2bc_8e61 else 0 }
  function Gen1(c0: bv64): bv64 { if c0 & 0x02 != 0 then 0x79_b76d_99e2 else 0 }
  function Gen2(c0: bv64): bv64 { if c0 & 0x04 != 0 then 0xf3_3e5f_b3c4 else 0 }
  function Gen3(c0: bv64): bv64 { if c0 & 0x08 != 0 then 0xae_2eab_e2a8 else 0 }
  function Gen4(c0: bv64): bv64 { if c0 & 0x10 != 0 then 0x1e_4f43_e470 else 0 }

  /** What the pushed-out symbol `c0` folds back into the state. */
  function Feedback(c0: bv64): bv64 {
    Xor(Gen0(c0), Xor(Gen1(c0), Xor(Gen2(c0), Xor(Gen3(c0), Gen4(c0)))))
  }

  /** One round: shift in the symbol `d`, fold the top symbol back. */
  function Mix(c: bv64, d: bv64): bv64 {
    Xor(Xor(Shift(c), d), Feedback(Top(c)))
  }

  const LIMIT: bv64 := 0x100_0000_0000

  // ------------------------------------------------ a round is linear and injective

  lemma XorBasics(g: bv64)
    ensures Xor(g, g) == 0 && Xor(g, 0) == g && Xor(0, g) == g
  {
  }

  lemma XorAssociative(a: bv64, b: bv64, c: bv64)
    ensures Xor(Xor(a, b), c) == Xor(a, Xor(b, c))
  {
    assert (a ^ b) ^ c == a ^ (b ^ c);
  }

  lemma XorCommutes(a: bv64, b: bv64)
    ensures Xor(a, b) == Xor(b, a)
  {
  }

  lemma XorInterchange(a: bv64, a': bv64, b: bv64, b': bv64)
    ensures Xor(Xor(a, a'), Xor(b, b')) == Xor(Xor(a, b), Xor(a', b'))
  {
    XorAssociative(a, a', Xor(b, b'));
    XorAssociative(a', b, b');
    XorCommutes(a', b);
    XorAssociative(b, a', b');
    XorAssociative(a, b, Xor(a', b'));
  }

  lemma XorZero(a: bv64, b: bv64)
    ensures Xor(a, b) == 0 <==> a == b
  {
    XorAssociative(a, b, b);
    XorBasics(a);
    XorBasics(b);
  }

  lemma Gen0Linear(a: bv64, b: bv64)
    ensures Gen0(Xor(a, b)) == Xor(Gen0(a), Gen0(b))
  {
    XorBasics(0x98_f2bc_8e61);
    XorBasics(0);
  }

  lemma Gen1Linear(a: bv64, b: bv64)
    ensures Gen1(Xor(a, b)) == Xor(Gen1(a), Gen1(b))
  {
    XorBasics(0x79_b76d_99e2);
    XorBasics(0);
  }

  lemma Gen2Linear(a: bv64, b: bv64)
    ensures Gen2(Xor(a, b)) == Xor(Gen2(a), Gen2(b))
  {
    XorBasics(0xf3_3e5f_b3c4);
    XorBasics(0);
  }

  lemma Gen3Linear(a: bv64, b: bv64)
    ensures Gen3(Xor(a, b)) == Xor(Gen3(a), Gen3(b))
  {
    XorBasics(0xae_2eab_e2a8);
    XorBasics(0);
  }

  lemma Gen4Linear(a: bv64, b: bv64)
    ensures Gen4(Xor(a, b)) == Xor(Gen4(a), Gen4(b))
  {
    XorBasics(0x1e_4f43_e470);
    XorBasics(0);
  }

  lemma FeedbackLinear(a: bv64, b: bv64)
    ensures Feedback(Xor(a, b)) == Xor(Feedback(a), Feedback(b))
  {
    Gen0Linear(a, b);
    Gen1Linear(a, b);
    Gen2Linear(a, b);
    Gen3Linear(a, b);
    Gen4Linear(a, b);
    XorInterchange(Gen3(a), Gen3(b), Gen4(a), Gen4(b));
    var a34, b34 := Xor(Gen3(a), Gen4(a)), Xor(Gen3(b), Gen4(b));
    XorInterchange(Gen2(a), Gen2(b), a34, b34);
    var a24, b24 := Xor(Gen2(a), a34), Xor(Gen2(b), b34);
    XorInterchange(Gen1(a), Gen1(b), a24, b24);
    XorInterchange(Gen0(a), Gen0(b), Xor(Gen1(a), a24), Xor(Gen1(b), b24));
  }

  lemma ShiftLinearRaw(a: bv64, b: bv64)
    ensures Shift(a ^ b) == Shift(a) ^ Shift(b)
    ensures Top(a ^ b) == Top(a) ^ Top(b)
  {
  }

  lemma ShiftLinear(a: bv64, b: bv64)
    ensures Shift(Xor(a, b)) == Xor(Shift(a), Shift(b))
    ensures Top(Xor(a, b)) == Xor(Top(a), Top(b))
  {
    ShiftLinearRaw(a, b);
  }

  lemma MixLinear(c: bv64, c': bv64, d: bv64, d': bv64)
    ensures Mix(Xor(c, c'), Xor(d, d')) == Xor(Mix(c, d), Mix(c', d'))
  {
    ShiftLinear(c, c');
    FeedbackLinear(Top(c), Top(c'));
    XorInterchange(Shift(c), Shift(c'), d, d');
    XorInterchange(Xor(Shift(c), d), Xor(Shift(c'), d'), Feedback(Top(c)), Feedback(Top(c')));
  }

  lemma MixBounded(c: bv64, d: bv64)
    requires d < 256
    ensures Mix(c, d) < LIMIT
  {
  }

  /** The five generators have low symbols 1, 2, 4, 8 and 16, so the top symbol can be read back. */
  lemma MixKernel(c: bv64)
    requires c < LIMIT
    ensures Mix(c, 0) == 0 <==> c == 0
  {
  }

  lemma MixInjective(c: bv64, c': bv64, d: bv64)
    requires c < LIMIT && c' < LIMIT && Mix(c, d) == Mix(c', d)
    ensures c == c'
  {
    MixLinear(c, c', d, d);
    XorBasics(d);
    XorZero(Mix(c, d), Mix(c', d));
    XorLimit(c, c');
    MixKernel(Xor(c, c'));
    XorZero(c, c');
  }

  lemma XorLimit(a: bv64, b: bv64)
    requires a < LIMIT && b < LIMIT
    ensures Xor(a, b) < LIMIT
  {
  }

  // ---------------------------------------------------------------- whole strings

  function Run(c: bv64, ds: seq<bv64>): bv64 {
    if ds == [] then c else Mix(Run(c, ds[..|ds| - 1]), ds[|ds| - 1])
  }

  lemma RunSnoc(c: bv64, ds: seq<bv64>, d: bv64)
    ensures Run(c, ds + [d]) == Mix(Run(c, ds), d)
  {
    assert (ds + [d])[..|ds|] == ds;
  }

  lemma {:induction false} RunConcat(c: bv64, ds: seq<bv64>, es: seq<bv64>)
    ensures Run(c, ds + es) == Run(Run(c, ds), es)
  {
    if es == [] {
      assert ds + es == ds;
    } else {
      var init, last := es[..|es| - 1], es[|es| - 1];
      RunConcat(c, ds, init);
      RunSnoc(c, ds + init, last);
      assert ds + es == (ds + init) + [last];
    }
  }

  function XorEach(ds: seq<bv64>, es: seq<bv64>): (r: seq<bv64>)
    requires |ds| == |es|
    ensures |r| == |ds| && forall i :: 0 <= i < |r| ==> r[i] == Xor(ds[i], es[i])
  {
    seq(|ds|, i requires 0 <= i < |ds| => Xor(ds[i], es[i]))
  }

  lemma {:induction false} RunLinear(c: bv64, c': bv64, ds: seq<bv64>, es: seq<bv64>)
    requires |ds| == |es|
    ensures Run(Xor(c, c'), XorEach(ds, es)) == Xor(Run(c, ds), Run(c', es))
  {
    if ds != [] {
      var n := |ds| - 1;
      RunLinear(c, c', ds[..n], es[..n]);
      MixLinear(Run(c, ds[..n]), Run(c', es[..n]), ds[n], es[n]);
      assert XorEach(ds, es) == XorEach(ds[..n], es[..n]) + [Xor(ds[n], es[n])];
      RunSnoc(Xor(c, c'), XorEach(ds[..n], es[..n]), Xor(ds[n], es[n]));
    }
  }

  ghost predicate AllBelow(ds: seq<bv64>, bound: bv64) {
    forall i :: 0 <= i < |ds| ==> ds[i] < bound
  }

  lemma {:induction false} RunBounded(c: bv64, ds: seq<bv64>)
    requires c < LIMIT && AllBelow(ds, 256)
    ensures Run(c, ds) < LIMIT
  {
    if ds != [] {
      var n := |ds| - 1;
      MixBounded(Run(c, ds[..n]), ds[n]);
    }
  }

  ghost predicate AllZero(ds: seq<bv64>) {
    forall i :: 0 <= i < |ds| ==> ds[i] == 0
  }

  /** Zero symbols neither create a difference nor hide one. */
  lemma {:induction false} RunZeros(c: bv64, ds: seq<bv64>)
    requires c < LIMIT && AllZero(ds)
    ensures Run(c, ds) == 0 <==> c == 0
  {
    if ds != [] {
      var n := |ds| - 1;
      RunZeros(c, ds[..n]);
      RunBounded(c, ds[..n]);
      MixKernel(Run(c, ds[..n]));
    }
  }

  /** The state is below `2^(5j)`. */
  predicate Below(s: bv64, j: nat) {
    match j
    case 0 => s == 0
    case 1 => s < 0x20
    case 2 => s < 0x400
    case 3 => s < 0x8000
    case 4 => s < 0x10_0000
    case 5 => s < 0x200_0000
    case 6 => s < 0x4000_0000
    case 7 => s < 0x8_0000_0000
    case _ => s < LIMIT
  }

  function Append(s: bv64, d: bv64): bv64 { (s << 5) ^ d }

  /** The top symbol is zero: the round only shifts. */
  predicate Small(s: bv64) { s < 0x8_0000_0000 }

  lemma MixSmall(s: bv64, d: bv64)
    requires Small(s)
    ensures Mix(s, d) == Append(s, d)
  {
    assert Top(s) == 0 && Shift(s) == s << 5;
    XorBasics(0);
    assert Feedback(0) == 0;
    XorBasics(Xor(Shift(s), d));
  }

  lemma MixBelow(s: bv64, d: bv64, j: nat)
    requires j < 8 && Below(s, j) && d < 32
    ensures Below(Mix(s, d), j + 1)
    ensures Mix(s, d) == 0 <==> s == 0 && d == 0
  {
    ShiftedBelow(s, d, j);
    MixSmall(s, d);
  }

  lemma ShiftedBelow(s: bv64, d: bv64, j: nat)
    requires j < 8 && Below(s, j) && d < 32
    ensures Small(s) && Below(Append(s, d), j + 1)
    ensures Append(s, d) == 0 <==> s == 0 && d == 0
  {
  }

  /** Up to eight symbols fill the state without any being pushed out. */
  lemma {:induction false} RunFromZero(ds: seq<bv64>)
    requires |ds| <= 8 && AllBelow(ds, 32)
    ensures Below(Run(0, ds), |ds|)
    ensures Run(0, ds) == 0 <==> AllZero(ds)
  {
    if ds != [] {
      var init, last := ds[..|ds| - 1], ds[|ds| - 1];
      RunFromZero(init);
      MixBelow(Run(0, init), last, |init|);
      ZeroAtTheEnd(init, last);
      assert ds == init + [last];
    }
  }

  lemma ZeroAtTheEnd(init: seq<bv64>, last: bv64)
    ensures AllZero(init + [last]) <==> AllZero(init) && last == 0
  {
    var ds := init + [last];
    assert ds[|init|] == last;
    assert forall i :: 0 <= i < |init| ==> ds[i] == init[i];
  }

  // ---------------------------------------------------------------- symbols

  ghost predicate Bytes(v: seq<nat>) {
    forall i :: 0 <= i < |v| ==> v[i] < 256
  }

  ghost predicate Symbols(v: seq<nat>) {
    forall i :: 0 <= i < |v| ==> v[i] < 32
  }

  /** `u64::from` of a byte. */
  function Word(d: nat): (w: bv64)
    requires d < 256
  {
    d as bv8 as bv64
  }

  lemma WordOfSymbol(d: nat)
    requires d < 256
    ensures Word(d) < 256
    ensures d < 32 ==> Word(d) < 32
  {
  }

  lemma WordInjective(d: nat, e: nat)
    requires d < 32 && e < 32 && Word(d) == Word(e)
    ensures d == e
  {
    SymbolRoundTrip(d);
    SymbolRoundTrip(e);
  }

  lemma SymbolRoundTrip(d: nat)
    requires d < 32
    ensures (d as bv8) as int == d
  {
  }

  function Words(v: seq<nat>): (ws: seq<bv64>)
    requires Bytes(v)
    ensures |ws| == |v| && forall i :: 0 <= i < |v| ==> ws[i] == Word(v[i])
  {
    seq(|v|, i requires 0 <= i < |v| => Word(v[i]))
  }

  /** The checksum of a string of bytes. */
  function Checksum(v: seq<nat>): bv64
    requires Bytes(v)
  {
    Xor(Run(1, Words(v)), 1)
  }

  /** `polymod` of the Rust crate. */
  method Polymod(v: seq<nat>) returns (r: bv64)
    requires Bytes(v)
    ensures r == Checksum(v)
  {
    var c: bv64 := 1;
    for i := 0 to |v|
      invariant c == Run(1, Words(v)[..i])
    {
      assert Words(v)[..i + 1] == Words(v)[..i] + [Word(v[i])];
      RunSnoc(1, Words(v)[..i], Word(v[i]));
      c := Round(c, Word(v[i]));
    }
    assert Words(v)[..|v|] == Words(v);
    return c ^ 1;
  }

  /** The body of the loop, one conditional after the other. */
  method Round(c: bv64, d: bv64) returns (r: bv64)
    ensures r == Mix(c, d)
  {
    var c0 := Top(c);
    r := Xor(Shift(c), d);
    FoldRight(r, Gen0(c0), Gen1(c0), Gen2(c0), Gen3(c0), Gen4(c0));
    r := XorIf(r, c0 & 0x01 != 0, 0x98_f2bc_8e61);
    r := XorIf(r, c0 & 0x02 != 0, 0x79_b76d_99e2);
    r := XorIf(r, c0 & 0x04 != 0, 0xf3_3e5f_b3c4);
    r := XorIf(r, c0 & 0x08 != 0, 0xae_2eab_e2a8);
    r := XorIf(r, c0 & 0x10 != 0, 0x1e_4f43_e470);
  }

  method XorIf(c: bv64, on: bool, g: bv64) returns (r: bv64)
    ensures r == Xor(c, if on then g else 0)
  {
    r := c;
    if on { r := r ^ g; }
  }

  lemma FoldRight(s: bv64, a: bv64, b: bv64, c: bv64, d: bv64, e: bv64)
    ensures Xor(Xor(Xor(Xor(Xor(s, a), b), c), d), e) == Xor(s, Xor(a, Xor(b, Xor(c, Xor(d, e)))))
  {
    XorAssociative(Xor(Xor(Xor(s, a), b), c), d, e);
    XorAssociative(Xor(Xor(s, a), b), c, Xor(d, e));
    XorAssociative(Xor(s, a), b, Xor(c, Xor(d, e)));
    XorAssociative(s, a, Xor(b, Xor(c, Xor(d, e))));
  }

  // ---------------------------------------------------------------- error detection

  /** `v` and `w` agree outside the `k` symbols from `i` on. */
  ghost predicate AgreeOutside(v: seq<nat>, w: seq<nat>, i: nat, k: nat) {
    |v| == |w| && i + k <= |v| && v[..i] == w[..i] && v[i + k..] == w[i + k..]
  }

  /** Changing symbols within eight consecutive places always changes the checksum. */
  lemma BurstDetected(v: seq<nat>, w: seq<nat>, i: nat, k: nat)
    requires Symbols(v) && Symbols(w) && k <= 8
    requires AgreeOutside(v, w, i, k) && v != w
    ensures Checksum(v) != Checksum(w)
  {
    var ds, es := Words(v), Words(w);
    RunLinear(1, 1, ds, es);
    XorBasics(1);
    DifferenceShape(v, w, i, k);
    BurstRun(XorEach(ds, es), i, k);
    XorZero(Run(1, ds), Run(1, es));
    ChecksumCancels(Run(1, ds), Run(1, es));
  }

  lemma BurstRun(x: seq<bv64>, i: nat, k: nat)
    requires i + k <= |x| && k <= 8 && AllBelow(x, 32)
    requires AllZero(x[..i]) && AllZero(x[i + k..]) && !AllZero(x[i..i + k])
    ensures Run(0, x) != 0
  {
    var head, burst, tail := x[..i], x[i..i + k], x[i + k..];
    assert x == head + (burst + tail);
    RunConcat(0, head, burst + tail);
    RunZeros(0, head);
    BurstThenZeros(burst, tail);
  }

  lemma BurstThenZeros(burst: seq<bv64>, tail: seq<bv64>)
    requires |burst| <= 8 && AllBelow(burst, 32) && !AllZero(burst) && AllZero(tail)
    ensures Run(0, burst + tail) != 0
  {
    RunConcat(0, burst, tail);
    RunFromZero(burst);
    BelowLimit(Run(0, burst), |burst|);
    RunZeros(Run(0, burst), tail);
  }

  lemma ChecksumCancels(a: bv64, b: bv64)
    ensures Xor(a, 1) == Xor(b, 1) ==> a == b
  {
  }

  lemma BelowLimit(s: bv64, j: nat)
    requires j <= 8 && Below(s, j)
    ensures s < LIMIT
  {
  }

  lemma SymbolXor(d: nat, e: nat)
    requires d < 32 && e < 32
    ensures Xor(Word(d), Word(e)) < 32
    ensures Xor(Word(d), Word(e)) == 0 <==> d == e
  {
    WordOfSymbol(d);
    WordOfSymbol(e);
    XorBelow32(Word(d), Word(e));
    XorZero(Word(d), Word(e));
    if Word(d) == Word(e) { WordInjective(d, e); }
  }

  lemma XorBelow32(a: bv64, b: bv64)
    requires a < 32 && b < 32
    ensures Xor(a, b) < 32
  {
  }

  lemma DifferenceShape(v: seq<nat>, w: seq<nat>, i: nat, k: nat)
    requires Symbols(v) && Symbols(w) && AgreeOutside(v, w, i, k) && v != w
    ensures var x := XorEach(Words(v), Words(w));
            && AllBelow(x, 32)
            && AllZero(x[..i]) && AllZero(x[i + k..]) && !AllZero(x[i..i + k])
  {
    var x := XorEach(Words(v), Words(w));
    forall j | 0 <= j < |v|
      ensures x[j] < 32 && (x[j] == 0 <==> v[j] == w[j])
    {
      SymbolXor(v[j], w[j]);
    }
    var j := DifferingPlace(v, w, i, k);
    assert x[i..i + k][j - i] == x[j];
  }

  lemma DifferingPlace(v: seq<nat>, w: seq<nat>, i: nat, k: nat) returns (at: nat)
    requires AgreeOutside(v, w, i, k) && v != w
    ensures forall j :: 0 <= j < |v| && !(i <= j < i + k) ==> v[j] == w[j]
    ensures i <= at < i + k && v[at] != w[at]
  {
    forall j | 0 <= j < |v| && !(i <= j < i + k)
      ensures v[j] == w[j]
    {
      if j < i {
        assert v[j] == v[..i][j];
      } else {
        assert v[j] == v[i + k..][j - (i + k)];
        assert w[j] == w[i + k..][j - (i + k)];
      }
    }
    at :| 0 <= at < |v| && v[at] != w[at];
  }

  // ---------------------------------------------------------------- the eight check symbols

  function Low5(x: bv64): bv64 { x & 31 }

  function LowSymbol(x: bv64): (d: nat)
    ensures d < 32
  {
    Low5(x) as bv5 as int
  }

  function DropSymbol(y: bv64): bv64 { y >> 5 }

  /** The `n` lowest symbols of a checksum, highest first: `(y >> 5 * i) & 31` for `i` from `n - 1` to 0. */
  function Digits(y: bv64, n: nat): (ds: seq<nat>)
    ensures |ds| == n && Symbols(ds)
  {
    if n == 0 then [] else Digits(DropSymbol(y), n - 1) + [LowSymbol(y)]
  }

  /** `y >> 5 * i`. */
  function Shifted(y: bv64, i: nat): bv64
    requires i <= 8
  {
    match i
    case 0 => y
    case 1 => y >> 5
    case 2 => y >> 10
    case 3 => y >> 15
    case 4 => y >> 20
    case 5 => y >> 25
    case 6 => y >> 30
    case 7 => y >> 35
    case 8 => y >> 40
  }

  /** Dropping symbols one by one is shifting by as many times five. */
  lemma ShiftedFurther(y: bv64, i: nat)
    requires i < 8
    ensures DropSymbol(Shifted(y, i)) == Shifted(y, i + 1)
  {
    match i
    case 0 =>
    case 1 => ShiftBy10(y);
    case 2 => ShiftBy15(y);
    case 3 => ShiftBy20(y);
    case 4 => ShiftBy25(y);
    case 5 => ShiftBy30(y);
    case 6 => ShiftBy35(y);
    case 7 => ShiftBy40(y);
  }

  lemma ShiftBy10(y: bv64)
    ensures DropSymbol(Shifted(y, 1)) == Shifted(y, 2)
  {
  }

  lemma ShiftBy15(y: bv64)
    ensures DropSymbol(Shifted(y, 2)) == Shifted(y, 3)
  {
  }

  lemma ShiftBy20(y: bv64)
    ensures DropSymbol(Shifted(y, 3)) == Shifted(y, 4)
  {
  }

  lemma ShiftBy25(y: bv64)
    ensures DropSymbol(Shifted(y, 4)) == Shifted(y, 5)
  {
  }

  lemma ShiftBy30(y: bv64)
    ensures DropSymbol(Shifted(y, 5)) == Shifted(y, 6)
  {
  }

  lemma ShiftBy35(y: bv64)
    ensures DropSymbol(Shifted(y, 6)) == Shifted(y, 7)
  {
  }

  lemma ShiftBy40(y: bv64)
    ensures DropSymbol(Shifted(y, 7)) == Shifted(y, 8)
  {
  }

  /** The loop over shifted checksums, from the highest symbol to the lowest. */
  method ChecksumSymbols(checksum: bv64) returns (ds: seq<nat>)
    ensures ds == Digits(checksum, 8)
  {
    ds := [];
    for i := 8 downto 0
      invariant ds == Digits(Shifted(checksum, i), 8 - i)
    {
      DigitsFurther(checksum, i);
      ds := ds + [LowSymbol(Shifted(checksum, i))];
    }
  }

  lemma DigitsFurther(y: bv64, i: nat)
    requires i < 8
    ensures Digits(Shifted(y, i), 8 - i) == Digits(Shifted(y, i + 1), 7 - i) + [LowSymbol(Shifted(y, i))]
  {
    ShiftedFurther(y, i);
  }

  lemma WordOfLowSymbol(x: bv64)
    ensures Word(LowSymbol(x)) == Low5(x)
  {
    Bv5RoundTrip(Low5(x) as bv5);
  }

  lemma Bv5RoundTrip(x: bv5)
    ensures (x as int) as bv8 == x as bv8
  {
  }

  lemma AppendDropped(x: bv64)
    ensures Append(DropSymbol(x), Low5(x)) == x
  {
  }

  lemma DropBelow(x: bv64, j: nat)
    requires j < 8 && Below(x, j + 1)
    ensures Below(DropSymbol(x), j) && Small(DropSymbol(x))
  {
  }

  /** Shifting in the digits of `y` one by one rebuilds `y`. */
  lemma {:induction false} RunDigits(y: bv64, n: nat)
    requires n <= 8 && Below(y, n)
    ensures Run(0, Words(Digits(y, n))) == y
  {
    if n > 0 {
      DropBelow(y, n - 1);
      RunDigits(DropSymbol(y), n - 1);
      SnocDigit(Digits(DropSymbol(y), n - 1), y);
    }
  }

  lemma SnocDigit(ds: seq<nat>, x: bv64)
    requires Symbols(ds) && Run(0, Words(ds)) == DropSymbol(x) && Small(DropSymbol(x))
    ensures Run(0, Words(ds + [LowSymbol(x)])) == x
  {
    assert Words(ds + [LowSymbol(x)]) == Words(ds) + [Word(LowSymbol(x))];
    RunSnoc(0, Words(ds), Word(LowSymbol(x)));
    AppendDigit(DropSymbol(x), x);
  }

  lemma AppendDigit(before: bv64, x: bv64)
    requires before == DropSymbol(x) && Small(before)
    ensures Mix(before, Word(LowSymbol(x))) == x
  {
    WordOfLowSymbol(x);
    MixSmall(before, Low5(x));
    AppendDropped(x);
  }

  const EIGHT_ZEROS: seq<nat> := [0, 0, 0, 0, 0, 0, 0, 0]

  /** The check symbols appended to a string of symbols. */
  function CheckSymbols(v: seq<nat>): (c: seq<nat>)
    requires Symbols(v)
    ensures |c| == 8 && Symbols(c)
  {
    Digits(Checksum(v + EIGHT_ZEROS), 8)
  }

  lemma WordsConcat(v: seq<nat>, w: seq<nat>)
    requires Bytes(v) && Bytes(w)
    ensures Words(v + w) == Words(v) + Words(w)
  {
  }

  /** The appended symbols always drive the checksum to zero. */
  lemma CheckSymbolsVerify(v: seq<nat>)
    requires Symbols(v)
    ensures Checksum(v + CheckSymbols(v)) == 0
  {
    var t := Run(1, Words(v + EIGHT_ZEROS));
    var check := CheckSymbols(v);
    StateBounded(v + EIGHT_ZEROS);
    XorLimit(t, 1);
    RunDigits(Xor(t, 1), 8);
    SplitRun(v, EIGHT_ZEROS);
    SplitRun(v, check);
    RunFromState(Run(1, Words(v)), Words(check));
    CancelTwice(t);
  }

  lemma SplitRun(v: seq<nat>, w: seq<nat>)
    requires Bytes(v) && Bytes(w)
    ensures Run(1, Words(v + w)) == Run(Run(1, Words(v)), Words(w))
  {
    WordsConcat(v, w);
    RunConcat(1, Words(v), Words(w));
  }

  lemma StateBounded(v: seq<nat>)
    requires Symbols(v)
    ensures Run(1, Words(v)) < LIMIT
  {
    SymbolWordsBounded(v);
    RunBounded(1, Words(v));
  }

  lemma CancelTwice(t: bv64)
    ensures Xor(Xor(t, Xor(t, 1)), 1) == 0
  {
    XorAssociative(t, t, 1);
    XorBasics(t);
    XorBasics(1);
  }

  /** What eight symbols contribute does not depend on the state before them. */
  lemma RunFromState(s: bv64, ds: seq<bv64>)
    requires |ds| == 8
    ensures Run(s, ds) == Xor(Run(s, Words(EIGHT_ZEROS)), Run(0, ds))
  {
    var zeros := Words(EIGHT_ZEROS);
    ZeroWords();
    forall i | 0 <= i < 8 ensures XorEach(zeros, ds)[i] == ds[i] { XorBasics(ds[i]); }
    assert XorEach(zeros, ds) == ds;
    RunLinear(s, 0, zeros, ds);
    XorBasics(s);
  }

  lemma ZeroWords()
    ensures forall i :: 0 <= i < 8 ==> Words(EIGHT_ZEROS)[i] == 0
  {
  }

  lemma SymbolWordsBounded(v: seq<nat>)
    requires Symbols(v)
    ensures AllBelow(Words(v), 256)
  {
    forall i | 0 <= i < |v| ensures Words(v)[i] < 256 { WordOfSymbol(v[i]); }
  }

  /** They are the only eight symbols that do. */
  lemma CheckSymbolsUnique(v: seq<nat>, c: seq<nat>)
    requires Symbols(v) && Symbols(c) && |c| == 8
    ensures Checksum(v + c) == 0 <==> c == CheckSymbols(v)
  {
    CheckSymbolsVerify(v);
    var good := v + CheckSymbols(v);
    if c != CheckSymbols(v) {
      assert (v + c)[|v|..] == c && good[|v|..] == CheckSymbols(v);
      assert (v + c)[..|v|] == v == good[..|v|];
      assert (v + c)[|v| + 8..] == [] == good[|v| + 8..];
      BurstDetected(v + c, good, |v|, 8);
    }
  }
}
