/**
 The text operations of the address codec: letter case, splitting at a
 separator, and the decimal numbers in network prefixes.
 */
module AddressText {
  import opened Machine
  import opened Wrappers

  // ---------------------------------------------------------------- letter case

  predicate IsLowerAscii(c: char) { 'a' <= c <= 'z' }

  predicate IsUpperAscii(c: char) { 'A' <= c <= 'Z' }

  function LowerChar(c: char): char {
    if IsUpperAscii(c) then (c as int + 32) as char else c
  }

  function UpperChar(c: char): char {
    if IsLowerAscii(c) then (c as int - 32) as char else c
  }

  function LowerAll(s: string): (r: string)
    ensures |r| == |s| && forall i :: 0 <= i < |s| ==> r[i] == LowerChar(s[i])
  {
    seq(|s|, i requires 0 <= i < |s| => LowerChar(s[i]))
  }

  function UpperAll(s: string): (r: string)
    ensures |r| == |s| && forall i :: 0 <= i < |s| ==> r[i] == UpperChar(s[i])
  {
    seq(|s|, i requires 0 <= i < |s| => UpperChar(s[i]))
  }

  ghost predicate Ascii(s: string) {
    forall i :: 0 <= i < |s| ==> s[i] < 128 as char
  }

  /** The Unicode case operations of the standard library, known only through `Lawful`. */
  datatype Casing = Casing(isLowercase: char -> bool, isUppercase: char -> bool, toLowercase: string -> string)

  /** They are the usual ones on ASCII text, and lowering leaves no ASCII capital. */
  ghost predicate Lawful(k: Casing) {
    && (forall c: char :: c < 128 as char ==> k.isLowercase(c) == IsLowerAscii(c))
    && (forall c: char :: c < 128 as char ==> k.isUppercase(c) == IsUpperAscii(c))
    && (forall s: string :: Ascii(s) ==> k.toLowercase(s) == LowerAll(s))
    && (forall s: string :: NoCapital(k.toLowercase(s)))
  }

  ghost predicate NoCapital(s: string) {
    forall i :: 0 <= i < |s| ==> !IsUpperAscii(s[i])
  }

  predicate Any(p: char -> bool, s: string) {
    exists i :: 0 <= i < |s| && p(s[i])
  }

  /** Text in the small letters, digits and signs of addresses. */
  ghost predicate Plain(s: string) {
    forall i :: 0 <= i < |s| ==> PlainChar(s[i])
  }

  predicate PlainChar(c: char) {
    IsLowerAscii(c) || '0' <= c <= '9' || c == ':' || c == '.' || c == '+'
  }

  lemma PlainCase(k: Casing, s: string)
    requires Lawful(k) && Plain(s)
    ensures k.toLowercase(s) == s && k.toLowercase(UpperAll(s)) == s
    ensures !Any(k.isUppercase, s) && !Any(k.isLowercase, UpperAll(s))
  {
    var u := UpperAll(s);
    forall i | 0 <= i < |s|
      ensures s[i] < 128 as char && u[i] < 128 as char
      ensures LowerChar(s[i]) == s[i] && LowerChar(u[i]) == s[i]
      ensures !k.isUppercase(s[i]) && !k.isLowercase(u[i])
    {
      PlainCharCase(s[i]);
    }
    assert LowerAll(s) == s;
    assert LowerAll(u) == s;
  }

  lemma PlainCharCase(c: char)
    requires PlainChar(c)
    ensures c < 128 as char && UpperChar(c) < 128 as char
    ensures LowerChar(c) == c && LowerChar(UpperChar(c)) == c
    ensures !IsUpperAscii(c) && !IsLowerAscii(UpperChar(c))
  {
  }

  // ---------------------------------------------------------------- splitting

  /** The pieces of `s` between occurrences of `sep`. */
  function Split(s: string, sep: char): (parts: seq<string>)
    ensures |parts| >= 1
  {
    if s == "" then [""]
    else
      var rest := Split(s[1..], sep);
      if s[0] == sep then [""] + rest else [[s[0]] + rest[0]] + rest[1..]
  }

  lemma {:induction false} SplitNone(a: string, sep: char)
    requires sep !in a
    ensures Split(a, sep) == [a]
  {
    if a != "" {
      SplitNone(a[1..], sep);
      assert a == [a[0]] + a[1..];
    }
  }

  lemma {:induction false} SplitAt(a: string, sep: char, b: string)
    requires sep !in a
    ensures Split(a + [sep] + b, sep) == [a] + Split(b, sep)
  {
    var s := a + [sep] + b;
    if a == "" {
      assert s[1..] == b;
    } else {
      assert s[1..] == a[1..] + [sep] + b;
      SplitAt(a[1..], sep, b);
      assert a == [a[0]] + a[1..];
    }
  }

  // ---------------------------------------------------------------- decimal numbers

  function DigitChar(d: nat): (c: char)
    requires d < 10
    ensures '0' <= c <= '9'
  {
    ('0' as int + d) as char
  }

  function Decimal(n: nat): (s: string)
    ensures s != "" && forall i :: 0 <= i < |s| ==> '0' <= s[i] <= '9'
  {
    if n < 10 then [DigitChar(n)] else Decimal(n / 10) + [DigitChar(n % 10)]
  }

  /** `parse::<u64>` of the digits, failing on any other character and on overflow. */
  function ParseDigits(s: string): Option<nat> {
    if s == "" then Some(0)
    else
      var c := s[|s| - 1];
      match ParseDigits(s[..|s| - 1])
      case None => None
      case Some(v) =>
        if !('0' <= c <= '9') then None
        else
          var n := v * 10 + (c as int - '0' as int);
          if n >= TWO_64 then None else Some(n)
  }

  /** `parse::<u64>`: a plus sign is allowed, an empty number is not. */
  function ParseU64(s: string): Option<nat> {
    if s == "" then None
    else if s[0] == '+' then (if |s| == 1 then None else ParseDigits(s[1..]))
    else ParseDigits(s)
  }

  lemma {:induction false} ParseDecimal(n: nat)
    requires n < TWO_64
    ensures ParseU64(Decimal(n)) == Some(n)
  {
    ParseDecimalDigits(n);
  }

  lemma {:induction false} ParseDecimalDigits(n: nat)
    requires n < TWO_64
    ensures ParseDigits(Decimal(n)) == Some(n)
  {
    if n < 10 {
      assert Decimal(n)[..0] == "";
    } else {
      ParseDecimalDigits(n / 10);
      var s := Decimal(n);
      assert s[..|s| - 1] == Decimal(n / 10);
    }
  }

  lemma {:induction false} ParsedBelow(s: string)
    ensures ParseDigits(s).Some? ==> ParseDigits(s).value < TWO_64
  {
    if s != "" { ParsedBelow(s[..|s| - 1]); }
  }

  /** Digits as they are printed: at least one, and no zero in front of others. */
  predicate PlainNumber(s: string) { s != "" && s[0] != '+' && (s[0] == '0' ==> |s| == 1) }

  lemma {:induction false} LeadingDigit(s: string)
    requires s != "" && s[0] != '0' && ParseDigits(s).Some?
    ensures ParseDigits(s).value > 0
  {
    if |s| == 1 {
      assert s[..0] == "";
    } else {
      LeadingDigit(s[..|s| - 1]);
    }
  }

  /** A number read from plain digits is printed as they are. */
  lemma {:induction false} DecimalOfParse(s: string)
    requires PlainNumber(s) && ParseDigits(s).Some?
    ensures Decimal(ParseDigits(s).value) == s
  {
    var n := |s| - 1;
    if n == 0 {
      assert s[..0] == "" && s == [s[0]];
    } else {
      DecimalOfParse(s[..n]);
      LeadingDigit(s[..n]);
      assert s == s[..n] + [s[n]];
    }
  }

  /** Numbers are printed as plain digits. */
  lemma {:induction false} DecimalIsPlain(n: nat)
    ensures PlainNumber(Decimal(n)) && (n > 0 ==> Decimal(n)[0] != '0')
  {
    if n >= 10 { DecimalIsPlain(n / 10); }
  }

  function Join(parts: seq<string>, sep: char): string {
    if parts == [] then ""
    else if |parts| == 1 then parts[0]
    else parts[0] + [sep] + Join(parts[1..], sep)
  }

  /** The pieces with separators between them are the text again. */
  lemma {:induction false} JoinSplit(s: string, sep: char)
    ensures Join(Split(s, sep), sep) == s
  {
    if s != "" {
      JoinSplit(s[1..], sep);
      var rest := Split(s[1..], sep);
      if s[0] == sep {
        assert ([""] + rest)[1..] == rest;
      } else {
        var parts := [[s[0]] + rest[0]] + rest[1..];
        assert parts[1..] == rest[1..];
      }
      assert s == [s[0]] + s[1..];
    }
  }

  /** So texts with the same pieces are the same. */
  lemma SplitInjective(s: string, t: string, sep: char)
    ensures Split(s, sep) == Split(t, sep) <==> s == t
  {
    JoinSplit(s, sep);
    JoinSplit(t, sep);
  }

  lemma {:induction false} PiecesOf(s: string, sep: char, i: nat, c: char)
    requires i < |Split(s, sep)| && c in Split(s, sep)[i]
    ensures c in s
  {
    if s != "" {
      var rest := Split(s[1..], sep);
      if s[0] == sep {
        PiecesOf(s[1..], sep, i - 1, c);
      } else if i > 0 {
        PiecesOf(s[1..], sep, i, c);
      } else if c != s[0] {
        PiecesOf(s[1..], sep, 0, c);
      }
    }
  }
}
