/**
 Regrouping of a string of `inbits`-wide symbols into `outbits`-wide ones: the
 Rust loop with its 16-bit accumulator, the Python loop with its masked
 accumulator, and their common meaning on bit strings.
 */
module ConvertBits {
  import opened BitStrings
  import opened Sequences
  import opened Wrappers

  datatype ConvertResult =
    | Converted(symbols: seq<nat>)
    | InvalidPadding(fromBits: nat, paddingBits: nat, padding: nat)

  // ---------------------------------------------------------------- meaning

  /** What both loops compute: the bits of `data`, cut into `outbits`-wide groups. */
  function Regroup(data: seq<nat>, inbits: nat, outbits: nat, pad: bool): ConvertResult
    requires outbits > 0
  {
    var bits := Unpack(data, inbits);
    var left := |bits| % outbits;
    if pad then
      Converted(Pack(bits + Zeros(if left == 0 then 0 else outbits - left), outbits))
    else
      var tail := bits[|bits| - left..];
      if left >= inbits || Val(tail) != 0 then InvalidPadding(inbits, left, Val(tail))
      else Converted(Pack(bits, outbits))
  }

  /** `bits` is the symbols already emitted followed by the `num` low bits of `acc`. */
  ghost predicate Pending(bits: seq<bool>, emitted: seq<nat>, outbits: nat, acc: nat, num: nat) {
    && Fits(emitted, outbits)
    && bits == Unpack(emitted, outbits) + ToBits(acc, num)
  }

  lemma TakeGroup(bits: seq<bool>, emitted: seq<nat>, outbits: nat, acc: nat, num: nat, group: nat)
    requires outbits <= num && Pending(bits, emitted, outbits, acc, num)
    requires group < Pow2(outbits) && ToBits(group, outbits) == ToBits(Shr(acc, num - outbits), outbits)
    ensures Pending(bits, emitted + [group], outbits, acc, num - outbits)
  {
    ToBitsSplit(acc, outbits, num - outbits);
    UnpackSnoc(emitted, group, outbits);
  }

  /** The result once fewer than `outbits` bits are left. */
  lemma Finish(data: seq<nat>, inbits: nat, outbits: nat, pad: bool, emitted: seq<nat>, acc: nat, num: nat)
    requires num < outbits
    requires Pending(Unpack(data, inbits), emitted, outbits, acc, num)
    ensures |data| * inbits % outbits == num
    ensures !pad ==>
              Regroup(data, inbits, outbits, pad)
              == var tail := Val(ToBits(acc, num));
                 if num >= inbits || tail != 0 then InvalidPadding(inbits, num, tail) else Converted(emitted)
    ensures pad && num == 0 ==> Regroup(data, inbits, outbits, pad) == Converted(emitted)
  {
    var bits, tail := Unpack(data, inbits), ToBits(acc, num);
    UnpackLength(data, inbits);
    LeftoverOfUnpack(emitted, tail, outbits);
    assert bits[|bits| - num..] == tail;
    PackOfUnpack(emitted, tail, outbits);
    assert bits + Zeros(0) == bits;
  }

  lemma FinishPadded(data: seq<nat>, inbits: nat, outbits: nat, emitted: seq<nat>, acc: nat, num: nat, last: nat)
    requires 0 < num < outbits
    requires Pending(Unpack(data, inbits), emitted, outbits, acc, num)
    requires last < Pow2(outbits) && ToBits(last, outbits) == ToBits(Shl(acc, outbits - num), outbits)
    ensures Regroup(data, inbits, outbits, true) == Converted(emitted + [last])
  {
    var bits, k := Unpack(data, inbits), outbits - num;
    LeftoverOfUnpack(emitted, ToBits(acc, num), outbits);
    ToBitsShl(acc, num, k);
    UnpackSnoc(emitted, last, outbits);
    assert bits + Zeros(k) == Unpack(emitted + [last], outbits) + [];
    PackOfUnpack(emitted + [last], [], outbits);
  }

  // ---------------------------------------------------------------- Rust

  /** A result kept in 16 bits. */
  function Wrap16(x: nat): (r: nat)
    ensures x <= 0xffff ==> r == x
  { x % 0x1_0000 }

  /** `!x` on `u16`. */
  function Not16(x: nat): (r: nat)
    ensures x <= 0xffff ==> r == 0xffff - x
  { 0xffff - x % 0x1_0000 }

  /** `x as u8`. */
  function TruncateToByte(x: nat): (r: nat)
    ensures x <= 0xff ==> r == x
  { x % 0x100 }

  /** `convert_bits` of the Rust crate. */
  method ConvertBits(data: seq<nat>, inbits: nat, outbits: nat, pad: bool) returns (r: ConvertResult)
    requires inbits <= 8 && 1 <= outbits <= 8
    requires Fits(data, inbits)
    ensures r == Regroup(data, inbits, outbits, pad)
  {
    var ret: seq<nat> := [];
    var acc: nat, num: nat := 0, 0;
    for i := 0 to |data|
      invariant num < outbits && acc < Pow2(num)
      invariant Pending(Unpack(data[..i], inbits), ret, outbits, acc, num)
    {
      assert data[..i + 1][..i] == data[..i];
      ShiftInExact(acc, num, data[i], inbits);
      acc := Or(Wrap16(Shl(acc, inbits)), data[i]);
      num := num + inbits;
      ret, acc, num := ExtractGroups(Unpack(data[..i + 1], inbits), ret, acc, num, outbits);
    }
    assert data[..|data|] == data;
    r := FinishCleared(data, inbits, outbits, pad, ret, acc, num);
  }

  /** What `convert_bits` does after its loop. */
  method FinishCleared(data: seq<nat>, inbits: nat, outbits: nat, pad: bool,
                       emitted: seq<nat>, acc: nat, num: nat) returns (r: ConvertResult)
    requires num < outbits <= 8 && acc < Pow2(num)
    requires Pending(Unpack(data, inbits), emitted, outbits, acc, num)
    ensures r == Regroup(data, inbits, outbits, pad)
  {
    Finish(data, inbits, outbits, pad, emitted, acc, num);
    ValToBits(acc, num);
    if pad {
      if num > 0 {
        LastExact(acc, num, outbits);
        var last := TruncateToByte(Wrap16(Shl(acc, outbits - num)));
        FinishPadded(data, inbits, outbits, emitted, acc, num, last);
        return Converted(emitted + [last]);
      }
    } else {
      var padding := |data| * inbits % outbits;
      if num >= inbits || acc != 0 {
        return InvalidPadding(inbits, padding, acc);
      }
    }
    return Converted(emitted);
  }

  /** The inner loop of `convert_bits`: emit every whole group in the accumulator. */
  method ExtractGroups(ghost bits: seq<bool>, ret0: seq<nat>, acc0: nat, num0: nat, outbits: nat)
    returns (ret: seq<nat>, acc: nat, num: nat)
    requires 1 <= outbits <= 8 && num0 < 16 && acc0 < Pow2(num0)
    requires Pending(bits, ret0, outbits, acc0, num0)
    ensures num < outbits && acc < Pow2(num)
    ensures Pending(bits, ret, outbits, acc, num)
  {
    ret, acc, num := ret0, acc0, num0;
    var groupmask := Pow2(outbits) - 1;
    while num >= outbits
      invariant num < 16 && acc < Pow2(num)
      invariant Pending(bits, ret, outbits, acc, num)
    {
      var k := num - outbits;
      HighestExact(acc, num, outbits);
      ClearExact(acc, outbits, k);
      var group := TruncateToByte(Shr(acc, k));
      TakeGroup(bits, ret, outbits, acc, num, group);
      ret := ret + [group];
      acc := And(acc, Not16(Wrap16(Shl(groupmask, k))));
      num := k;
    }
  }

  lemma WordSizes()
    ensures Pow2(8) == 0x100 && Pow2(16) == 0x1_0000
  {
  }

  lemma WordBound(n: nat)
    requires n <= 16
    ensures Pow2(n) <= 0x1_0000
    ensures n <= 8 ==> Pow2(n) <= 0x100
  {
    WordSizes();
    Pow2Monotone(n, 16);
    if n <= 8 { Pow2Monotone(n, 8); }
  }

  /** Fewer than 16 bits are pending, so the shift loses none. */
  lemma ShiftInExact(acc: nat, num: nat, d: nat, inbits: nat)
    requires acc < Pow2(num) && d < Pow2(inbits) && num + inbits <= 16
    ensures Or(Wrap16(Shl(acc, inbits)), d) < Pow2(num + inbits)
    ensures ToBits(Or(Wrap16(Shl(acc, inbits)), d), num + inbits) == ToBits(acc, num) + ToBits(d, inbits)
  {
    ShlBound(acc, num, inbits);
    WordBound(num + inbits);
    Pow2Monotone(inbits, num + inbits);
    OrBound(Shl(acc, inbits), d, num + inbits);
    ToBitsOr(acc, num, d, inbits);
  }

  lemma HighestExact(acc: nat, num: nat, outbits: nat)
    requires acc < Pow2(num) && outbits <= num && outbits <= 8
    ensures TruncateToByte(Shr(acc, num - outbits)) == Shr(acc, num - outbits) < Pow2(outbits)
  {
    ShrBound(acc, outbits, num - outbits);
    WordBound(outbits);
  }

  lemma ClearExact(acc: nat, len: nat, k: nat)
    requires acc < Pow2(len + k) && len + k <= 16
    ensures var cleared := And(acc, Not16(Wrap16(Shl(Pow2(len) - 1, k))));
            cleared < Pow2(k) && ToBits(cleared, k) == ToBits(acc, k)
  {
    ShlBound(Pow2(len) - 1, len, k);
    WordBound(len + k);
    HoleIsComplement(16, len, k);
    WordSizes();
    HoleClears(acc, 16, len, k);
  }

  /** A word of `w` bits, all ones but for `len` zeros above the lowest `k` bits. */
  function Hole(w: nat, len: nat, k: nat): nat {
    if w == 0 then 0
    else if k > 0 then 2 * Hole(w - 1, len, k - 1) + 1
    else if len > 0 then 2 * Hole(w - 1, len - 1, 0)
    else 2 * Hole(w - 1, 0, 0) + 1
  }

  lemma {:induction false} HoleIsComplement(w: nat, len: nat, k: nat)
    requires len + k <= w
    ensures Hole(w, len, k) + Shl(Pow2(len) - 1, k) == Pow2(w) - 1
  {
    if k > 0 {
      HoleIsComplement(w - 1, len, k - 1);
    } else if len > 0 {
      HoleIsComplement(w - 1, len - 1, 0);
    } else if w > 0 {
      HoleIsComplement(w - 1, 0, 0);
    }
  }

  lemma {:induction false} HoleClears(x: nat, w: nat, len: nat, k: nat)
    requires x < Pow2(len + k) && len + k <= w
    ensures And(x, Hole(w, len, k)) < Pow2(k)
    ensures ToBits(And(x, Hole(w, len, k)), k) == ToBits(x, k)
  {
    if k > 0 {
      HoleClears(x / 2, w - 1, len, k - 1);
      AndHalf(x, Hole(w, len, k));
    } else {
      HoleTakesAll(x, w, len);
    }
  }

  lemma {:induction false} HoleTakesAll(x: nat, w: nat, len: nat)
    requires x < Pow2(len) && len <= w
    ensures And(x, Hole(w, len, 0)) == 0
  {
    AndHalf(x, Hole(w, len, 0));
    if len > 0 { HoleTakesAll(x / 2, w - 1, len - 1); }
  }

  lemma LastExact(acc: nat, num: nat, outbits: nat)
    requires acc < Pow2(num) && num <= outbits <= 8
    ensures TruncateToByte(Wrap16(Shl(acc, outbits - num))) == Shl(acc, outbits - num) < Pow2(outbits)
  {
    ShlBound(acc, num, outbits - num);
    WordBound(outbits);
  }

  // ---------------------------------------------------------------- Python

  ghost predicate InRange(data: seq<int>, frombits: nat) {
    forall i :: 0 <= i < |data| ==> 0 <= data[i] < Pow2(frombits)
  }

  /** `convertbits` of the test suite's address module. */
  method Convertbits(data: seq<int>, frombits: nat, tobits: nat, pad: bool) returns (r: Option<seq<nat>>)
    requires tobits >= 1
    ensures !InRange(data, frombits) ==> r == None
    ensures InRange(data, frombits) ==>
              match Regroup(AsSymbols(data), frombits, tobits, pad)
              case Converted(s) => r == Some(s)
              case InvalidPadding(_, _, _) => r == None
  {
    var ret: seq<nat> := [];
    var acc: nat, bits: nat := 0, 0;
    var maxAcc := Pow2(frombits + tobits - 1) - 1;
    ghost var seen: seq<nat> := [];
    for i := 0 to |data|
      invariant bits < tobits
      invariant |seen| == i && forall j :: 0 <= j < i ==> seen[j] == data[j] < Pow2(frombits)
      invariant Pending(Unpack(seen, frombits), ret, tobits, acc, bits)
    {
      var value := data[i];
      ShrZero(value, frombits);
      if value < 0 || Shr(value, frombits) != 0 {
        return None;
      }
      PendingShiftIn(seen, ret, acc, bits, value, frombits, tobits);
      seen := seen + [value];
      acc := And(Or(Shl(acc, frombits), value), maxAcc);
      ret, bits := AppendGroups(Unpack(seen, frombits), ret, acc, bits + frombits, tobits);
    }
    assert AsSymbols(data) == seen;
    r := FinishMasked(seen, frombits, tobits, pad, ret, acc, bits);
  }

  /** A value shifted into the masked accumulator is pending with the bits that were. */
  lemma PendingShiftIn(seen: seq<nat>, ret: seq<nat>, acc: nat, bits: nat, d: nat, frombits: nat, tobits: nat)
    requires bits < tobits && d < Pow2(frombits) && Pending(Unpack(seen, frombits), ret, tobits, acc, bits)
    ensures Pending(Unpack(seen + [d], frombits), ret, tobits,
                    And(Or(Shl(acc, frombits), d), Pow2(frombits + tobits - 1) - 1), bits + frombits)
  {
    UnpackSnoc(seen, d, frombits);
    MaskedShiftIn(acc, bits, d, frombits, tobits);
    Associative(Unpack(ret, tobits), ToBits(acc, bits), ToBits(d, frombits));
  }

  lemma MaskedShiftIn(acc: nat, bits: nat, d: nat, frombits: nat, tobits: nat)
    requires bits < tobits && d < Pow2(frombits)
    ensures ToBits(And(Or(Shl(acc, frombits), d), Pow2(frombits + tobits - 1) - 1), bits + frombits)
            == ToBits(acc, bits) + ToBits(d, frombits)
  {
    ToBitsOr(acc, bits, d, frombits);
    ToBitsMask(Or(Shl(acc, frombits), d), frombits + tobits - 1, bits + frombits);
  }

  /** The inner loop of `convertbits`; the accumulator keeps the bits already emitted. */
  method AppendGroups(ghost stream: seq<bool>, ret0: seq<nat>, acc: nat, bits0: nat, tobits: nat)
    returns (ret: seq<nat>, bits: nat)
    requires 1 <= tobits
    requires Pending(stream, ret0, tobits, acc, bits0)
    ensures bits < tobits
    ensures Pending(stream, ret, tobits, acc, bits)
  {
    ret, bits := ret0, bits0;
    var maxv := Pow2(tobits) - 1;
    while bits >= tobits
      invariant Pending(stream, ret, tobits, acc, bits)
    {
      var rest := bits - tobits;
      var group := And(Shr(acc, rest), maxv);
      AndBound(Shr(acc, rest), maxv, tobits);
      ToBitsMask(Shr(acc, rest), tobits, tobits);
      TakeGroup(stream, ret, tobits, acc, bits, group);
      bits := rest;
      ret := ret + [group];
    }
  }

  /** What `convertbits` does after its loop. */
  method FinishMasked(ghost data: seq<nat>, frombits: nat, tobits: nat, pad: bool,
                      emitted: seq<nat>, acc: nat, bits: nat) returns (r: Option<seq<nat>>)
    requires bits < tobits
    requires Pending(Unpack(data, frombits), emitted, tobits, acc, bits)
    ensures match Regroup(data, frombits, tobits, pad)
            case Converted(s) => r == Some(s)
            case InvalidPadding(_, _, _) => r == None
  {
    Finish(data, frombits, tobits, pad, emitted, acc, bits);
    var shifted := And(Shl(acc, tobits - bits), Pow2(tobits) - 1);
    ToBitsMask(Shl(acc, tobits - bits), tobits, tobits);
    AndBound(Shl(acc, tobits - bits), Pow2(tobits) - 1, tobits);
    if pad {
      if bits != 0 {
        FinishPadded(data, frombits, tobits, emitted, acc, bits, shifted);
        return Some(emitted + [shifted]);
      }
    } else {
      ShiftedIsZero(acc, bits, tobits, shifted);
      if bits >= frombits || shifted != 0 {
        return None;
      }
    }
    return Some(emitted);
  }

  function AsSymbols(data: seq<int>): (s: seq<nat>)
    requires forall i :: 0 <= i < |data| ==> data[i] >= 0
    ensures |s| == |data| && forall i :: 0 <= i < |s| ==> s[i] == data[i]
  {
    seq(|data|, i requires 0 <= i < |data| => data[i])
  }

  lemma {:induction false} ShrZero(x: int, k: nat)
    ensures x >= 0 ==> (Shr(x, k) == 0 <==> x < Pow2(k))
  {
    if k > 0 && x >= 0 { ShrZero(x / 2, k - 1); }
  }

  /** The final padding test of the Python loop looks at exactly the pending bits. */
  lemma ShiftedIsZero(acc: nat, num: nat, tobits: nat, shifted: nat)
    requires num <= tobits && shifted < Pow2(tobits)
    requires ToBits(shifted, tobits) == ToBits(Shl(acc, tobits - num), tobits)
    ensures shifted == 0 <==> Val(ToBits(acc, num)) == 0
  {
    var tail, k := ToBits(acc, num), tobits - num;
    assert ToBits(shifted, tobits) == tail + Zeros(k) by { ToBitsShl(acc, num, k); }
    assert Val(tail + Zeros(k)) == shifted by { ValToBits(shifted, tobits); }
    ValWithZeros(tail, k);
  }

  lemma ValWithZeros(b: seq<bool>, k: nat)
    ensures Val(b + Zeros(k)) == 0 <==> Val(b) == 0
  {
    ValZeros(b);
    ValZeros(b + Zeros(k));
    if b == Zeros(|b|) {
      assert b + Zeros(k) == Zeros(|b| + k);
    }
    if b + Zeros(k) == Zeros(|b| + k) {
      assert b == Zeros(|b| + k)[..|b|] == Zeros(|b|);
    }
  }

  /** Both implementations return the same symbols or both reject. */
  method CompareImplementations(data: seq<nat>, inbits: nat, outbits: nat, pad: bool)
    returns (rust: ConvertResult, python: Option<seq<nat>>)
    requires inbits <= 8 && 1 <= outbits <= 8
    requires Fits(data, inbits)
    ensures rust.Converted? <==> python.Some?
    ensures rust.Converted? ==> rust.symbols == python.value
  {
    rust := ConvertBits(data, inbits, outbits, pad);
    python := Convertbits(data, inbits, outbits, pad);
    assert AsSymbols(data) == data;
  }

  // ---------------------------------------------------------------- round trips

  /** How many zero bits padding appends to `n` bits. */
  function PadBits(n: nat, outbits: nat): (p: nat)
    requires outbits > 0
    ensures p < outbits
  {
    if n % outbits == 0 then 0 else outbits - n % outbits
  }

  lemma PaddedLength(n: nat, w: nat)
    requires w > 0
    ensures (n + PadBits(n, w)) % w == 0
  {
    var q, r := n / w, n % w;
    assert n == q * w + r;
    if r > 0 {
      assert n + PadBits(n, w) == (q + 1) * w + 0;
      RemainderOfPair(q + 1, 0, w);
    }
  }

  lemma UnpackOfWholePack(b: seq<bool>, w: nat)
    requires w > 0 && |b| % w == 0
    ensures Unpack(Pack(b, w), w) == b
  {
    var rest := UnpackOfPack(b, w);
    LeftoverOfUnpack(Pack(b, w), rest, w);
    assert Unpack(Pack(b, w), w) + [] == Unpack(Pack(b, w), w);
  }

  /**
   Padding followed by unpadding is the identity exactly when the padding is
   shorter than one input symbol; with `outbits <= inbits` it always is.
   */
  lemma PaddedThenUnpadded(data: seq<nat>, inbits: nat, outbits: nat)
    requires inbits > 0 && outbits > 0 && Fits(data, inbits)
    ensures var padded := Regroup(data, inbits, outbits, true).symbols;
            && Fits(padded, outbits)
            && (Regroup(padded, outbits, inbits, false) == Converted(data)
                <==> PadBits(|data| * inbits, outbits) < inbits)
  {
    PaddedBits(data, inbits, outbits);
    UnpackLength(data, inbits);
    var p := PadBits(|data| * inbits, outbits);
    var padded := Regroup(data, inbits, outbits, true).symbols;
    if p < inbits {
      AcceptsZeroTail(padded, data, outbits, inbits, p);
    } else {
      LongTailComesBack(data, inbits, p);
    }
  }

  /** The padded symbols spell the bits of the data and zeros behind them. */
  lemma PaddedBits(data: seq<nat>, inbits: nat, outbits: nat)
    requires outbits > 0
    ensures var p := PadBits(|Unpack(data, inbits)|, outbits);
            var padded := Regroup(data, inbits, outbits, true).symbols;
            p < outbits && Fits(padded, outbits) && Unpack(padded, outbits) == Unpack(data, inbits) + Zeros(p)
  {
    PaddedWhole(Unpack(data, inbits), outbits);
  }

  lemma PaddedWhole(bits: seq<bool>, w: nat)
    requires w > 0
    ensures var padded := Pack(bits + Zeros(PadBits(|bits|, w)), w);
            Fits(padded, w) && Unpack(padded, w) == bits + Zeros(PadBits(|bits|, w))
  {
    var all := bits + Zeros(PadBits(|bits|, w));
    PaddedLength(|bits|, w);
    PackFits(all, w);
    UnpackOfWholePack(all, w);
  }

  /** Zeros that make up a symbol do not vanish in the packing. */
  lemma LongTailComesBack(data: seq<nat>, inbits: nat, p: nat)
    requires 0 < inbits <= p && Fits(data, inbits)
    ensures Pack(Unpack(data, inbits) + Zeros(p), inbits) != data
  {
    var bits := Unpack(data, inbits);
    UnpackLength(data, inbits);
    var rest := UnpackOfPack(bits + Zeros(p), inbits);
    assert Pack(bits + Zeros(p), inbits) == data ==> |rest| == p;
  }

  /** For instance: one bit padded to a byte comes back as eight. */
  lemma OneBitPadded()
    ensures Regroup(Regroup([1], 1, 8, true).symbols, 8, 1, false) != Converted([1])
  {
    PaddedThenUnpadded([1], 1, 8);
  }

  lemma AcceptsZeroTail(padded: seq<nat>, data: seq<nat>, inbits: nat, outbits: nat, p: nat)
    requires p < inbits && p < outbits && Fits(data, outbits)
    requires Unpack(padded, inbits) == Unpack(data, outbits) + Zeros(p)
    ensures Regroup(padded, inbits, outbits, false) == Converted(data)
  {
    var bits := Unpack(padded, inbits);
    LeftoverOfUnpack(data, Zeros(p), outbits);
    PackOfUnpack(data, Zeros(p), outbits);
    ValZeros(Zeros(p));
    assert bits[|bits| - p..] == Zeros(p);
  }

  /** Whatever the unpadded direction accepts, the padded direction writes back. */
  lemma UnpaddedThenPadded(padded: seq<nat>, inbits: nat, outbits: nat)
    requires inbits > 0 && outbits > 0 && Fits(padded, inbits)
    requires Regroup(padded, inbits, outbits, false).Converted?
    ensures var data := Regroup(padded, inbits, outbits, false).symbols;
            Fits(data, outbits) && Regroup(data, outbits, inbits, true) == Converted(padded)
  {
    var bits := Unpack(padded, inbits);
    var data := Pack(bits, outbits);
    PackFits(bits, outbits);
    var rest := UnpackOfPack(bits, outbits);
    LeftoverOfUnpack(data, rest, outbits);
    assert bits[|bits| - |rest|..] == rest;
    ValZeros(rest);
    WritesZeroTail(data, padded, outbits, inbits, |rest|);
  }

  lemma WritesZeroTail(data: seq<nat>, padded: seq<nat>, inbits: nat, outbits: nat, p: nat)
    requires p < outbits && Fits(padded, outbits)
    requires Unpack(padded, outbits) == Unpack(data, inbits) + Zeros(p)
    ensures Regroup(data, inbits, outbits, true) == Converted(padded)
  {
    var bits := Unpack(data, inbits);
    UnpackLength(padded, outbits);
    PadBitsRestore(|padded|, outbits, p);
    assert |bits| == |padded| * outbits - p;
    assert Regroup(data, inbits, outbits, true) == Converted(Pack(bits + Zeros(p), outbits));
    PackOfUnpack(padded, [], outbits);
    assert Unpack(padded, outbits) + [] == bits + Zeros(p);
  }

  lemma PadBitsRestore(n: nat, w: nat, r: nat)
    requires r < w && r <= n * w
    ensures PadBits(n * w - r, w) == r
  {
    if r == 0 {
      RemainderOfPair(n, 0, w);
    } else {
      assert n > 0;
      assert n * w - r == (n - 1) * w + (w - r);
      RemainderOfPair(n - 1, w - r, w);
    }
  }
}
