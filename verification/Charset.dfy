/**
 The 32 characters of the address alphabet and the table that reads them back.
 */
module Charset {
  import opened AddressText
  import opened Wrappers

  /** The letters and digits without `o`, `i`, `l` and `q`. */
  const CHARSET := "abcdefghjkmnprstuvwxyz0123456789"

  /** The symbol a character stands for, in either case. */
  function CharIndex(c: char): (r: Option<nat>)
    ensures r.Some? ==> r.value < 32
  {
    var l := LowerChar(c);
    if 'a' <= l <= 'h' then Some(l as int - 'a' as int)
    else if 'j' <= l <= 'k' then Some(l as int - 'j' as int + 8)
    else if 'm' <= l <= 'n' then Some(l as int - 'm' as int + 10)
    else if l == 'p' then Some(12)
    else if 'r' <= l <= 'z' then Some(l as int - 'r' as int + 13)
    else if '0' <= l <= '9' then Some(l as int - '0' as int + 22)
    else None
  }

  /** Symbols and characters correspond one to one, up to case. */
  lemma CharIndexInverts(d: nat, c: char)
    requires d < 32
    ensures CharIndex(c) == Some(d) <==> LowerChar(c) == CHARSET[d]
    ensures PlainChar(CHARSET[d]) && CHARSET[d] != ':' && CHARSET[d] != '.'
  {
    if d < 12 { FirstLetters(d); } else if d < 22 { LastLetters(d); } else { DigitCharacters(d); }
  }

  lemma FirstLetters(d: nat)
    requires d < 12
    ensures CHARSET[d] as int == d + 'a' as int + if d < 8 then 0 else if d < 10 then 1 else 2
  {
  }

  lemma LastLetters(d: nat)
    requires 12 <= d < 22
    ensures CHARSET[d] as int == d + 'a' as int + if d == 12 then 3 else 4
  {
  }

  lemma DigitCharacters(d: nat)
    requires 22 <= d < 32
    ensures CHARSET[d] as int == d - 22 + '0' as int
  {
  }

  /** Fills the 128-entry lookup table. */
  method BuildCharIndex() returns (index: array<Option<nat>>)
    ensures index.Length == 128
    ensures forall c: char :: c < 128 as char ==> index[c as int] == CharIndex(c)
  {
    index := new Option<nat>[128](_ => None);
    for i := 0 to 32
      invariant forall c: char :: c < 128 as char ==> index[c as int] == IndexUpTo(c, i)
    {
      var c := CHARSET[i];
      var u := UpperChar(c);
      BothCases(i);
      NextIndex(i);
      index[c as int] := Some(i);
      if u != c {
        index[u as int] := Some(i);
      }
    }
    assert forall c: char :: IndexUpTo(c, 32) == CharIndex(c);
  }

  /** The table after the first `n` characters. */
  function IndexUpTo(c: char, n: nat): Option<nat> {
    if CharIndex(c).Some? && CharIndex(c).value < n then CharIndex(c) else None
  }

  lemma NextIndex(n: nat)
    ensures forall c: char :: IndexUpTo(c, n + 1) == if CharIndex(c) == Some(n) then Some(n) else IndexUpTo(c, n)
  {
  }

  /** Exactly one character and its capital stand for a symbol. */
  lemma BothCases(d: nat)
    requires d < 32
    ensures CHARSET[d] < 128 as char && UpperChar(CHARSET[d]) < 128 as char
    ensures forall x: char :: CharIndex(x) == Some(d) <==> x == CHARSET[d] || x == UpperChar(CHARSET[d])
  {
    var c := CHARSET[d];
    CharIndexInverts(d, c);
    PlainCharCase(c);
    forall x: char ensures CharIndex(x) == Some(d) <==> x == c || x == UpperChar(c) {
      CharIndexInverts(d, x);
      LowerPreimage(x, c);
    }
  }

  /** Reading a written symbol gives it back. */
  lemma SymbolRead(d: nat)
    requires d < 32
    ensures CharIndex(CHARSET[d]) == Some(d)
  {
    BothCases(d);
  }

  lemma LowerPreimage(x: char, c: char)
    requires PlainChar(c)
    ensures LowerChar(x) == c <==> x == c || x == UpperChar(c)
  {
  }
}
