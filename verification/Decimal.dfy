/** Decimal numerals as strconv writes and reads them. */
module Decimal {
  import opened Rows

  newtype byte = b: int | 0 <= b < 256

  type bytes = seq<byte>

  const MINUS: byte := 45
  const PLUS: byte := 43
  const COLON: byte := 58

  const MIN_INT64: int := -0x8000_0000_0000_0000
  const MAX_INT64: int := 0x7fff_ffff_ffff_ffff

  predicate IsDigit(b: byte) {
    48 <= b <= 57
  }

  predicate AllDigits(s: bytes) {
    forall k | 0 <= k < |s| :: IsDigit(s[k])
  }

  function Digits(n: nat): (r: bytes)
    ensures |r| > 0 && AllDigits(r)
  {
    if n < 10 then [(48 + n) as byte] else Digits(n / 10) + [(48 + n % 10) as byte]
  }

  /** strconv.Itoa and strconv.FormatInt in base 10. */
  function FormatInt(x: int): bytes {
    if x < 0 then [MINUS] + Digits(-x) else Digits(x)
  }

  function Value(s: bytes): nat
    requires AllDigits(s)
  {
    if s == [] then 0 else Value(s[..|s| - 1]) * 10 + (s[|s| - 1] as int - 48)
  }

  /** strconv.ParseInt(s, 10, 64): an optional sign, then one digit or more, in range. */
  function ParseInt(s: bytes): (r: Option<int>)
    ensures r.Some? ==> MIN_INT64 <= r.value <= MAX_INT64
  {
    var signed := s != [] && s[0] in {MINUS, PLUS};
    var digits := if signed then s[1..] else s;
    if digits == [] || !AllDigits(digits) then None else
    var x := (if signed && s[0] == MINUS then -1 else 1) * Value(digits);
    if MIN_INT64 <= x <= MAX_INT64 then Some(x) else None
  }

  lemma {:induction false} ValueOfDigits(n: nat)
    ensures Value(Digits(n)) == n
  {
    var d := Digits(n);
    if n < 10 {
      assert d[..0] == [];
    } else {
      ValueOfDigits(n / 10);
      assert d[..|d| - 1] == Digits(n / 10);
    }
  }

  /** Every int64 survives formatting and parsing. */
  lemma ParseFormat(x: int)
    requires MIN_INT64 <= x <= MAX_INT64
    ensures ParseInt(FormatInt(x)) == Some(x)
  {
    if x < 0 {
      ValueOfDigits(-x);
      assert FormatInt(x)[1..] == Digits(-x);
    } else {
      ValueOfDigits(x);
      assert IsDigit(Digits(x)[0]);
    }
  }

  lemma FormatHasNoColon(x: int)
    ensures COLON !in FormatInt(x)
  {
  }

  /** A numeral ends where its first non-digit stands: it is read off in one way. */
  lemma NumeralThenColon(m: nat, n: nat, x: bytes, y: bytes)
    requires Digits(m) + [COLON] + x == Digits(n) + [COLON] + y
    ensures m == n && x == y
  {
    var dm, dn := Digits(m), Digits(n);
    var s := dm + [COLON] + x;
    assert s[|dm|] == COLON && s[|dn|] == COLON;
    assert forall k | 0 <= k < |dm| :: s[k] == dm[k] && IsDigit(dm[k]);
    assert forall k | 0 <= k < |dn| :: s[k] == dn[k] && IsDigit(dn[k]);
    assert |dm| == |dn|;
    assert dm == s[..|dm|] == dn;
    ValueOfDigits(m);
    ValueOfDigits(n);
    assert x == s[|dm| + 1..] == y;
  }
}
