/** Go's `strconv.Atoi` as the handlers use it to read device ids, and the
    decimal formatting (`strconv.Itoa`, `fmt`'s `%d`) it inverts. Go's `int`
    is 64 bits wide on the platforms the server targets, so Atoi accepts an
    optional sign and one or more ASCII digits whose value fits in an int64,
    and reports an error for everything else. */
module GoStrconv {
  import opened Wrappers

  const MinInt64: int := -0x8000_0000_0000_0000
  const MaxInt64: int := 0x7fff_ffff_ffff_ffff

  predicate InInt64(n: int) {
    MinInt64 <= n <= MaxInt64
  }

  predicate IsDigit(c: char) {
    '0' <= c <= '9'
  }

  predicate AllDigits(s: string) {
    forall i | 0 <= i < |s| :: IsDigit(s[i])
  }

  function DigitValue(c: char): (d: nat)
    requires IsDigit(c)
    ensures d < 10
  {
    (c as int) - ('0' as int)
  }

  function DigitChar(d: nat): (c: char)
    requires d < 10
    ensures IsDigit(c) && DigitValue(c) == d
  {
    ('0' as int + d) as char
  }

  /** The value of a string of decimal digits, most significant first. */
  function DigitsValue(ds: string): nat
    requires AllDigits(ds)
    decreases |ds|
  {
    if |ds| == 0 then 0
    else DigitsValue(ds[..|ds| - 1]) * 10 + DigitValue(ds[|ds| - 1])
  }

  /** The sign and the digit part of a candidate integer text. */
  function SplitSign(s: string): (bool, string) {
    if |s| > 0 && (s[0] == '-' || s[0] == '+') then (s[0] == '-', s[1..])
    else (false, s)
  }

  /** strconv.Atoi: the integer `s` denotes, or None for Go's syntax and
      range errors. */
  function Atoi(s: string): (r: Option<int>)
    ensures r.Some? ==> InInt64(r.value)
    ensures r.Some? ==> |s| > 0 && IsDigit(s[|s| - 1])
    ensures r.Some? ==> forall i | 1 <= i < |s| :: IsDigit(s[i])
    ensures r.Some? ==> IsDigit(s[0]) || s[0] == '-' || s[0] == '+'
    ensures r.Some? && r.value < 0 ==> s[0] == '-'
  {
    var (negative, ds) := SplitSign(s);
    if |ds| == 0 || !AllDigits(ds) then None
    else
      var v: int := if negative then -(DigitsValue(ds) as int) else DigitsValue(ds);
      if InInt64(v) then Some(v) else None
  }

  /** The shortest decimal digits of `n`. */
  function NatDigits(n: nat): (ds: string)
    ensures |ds| > 0 && AllDigits(ds)
    decreases n
  {
    if n < 10 then [DigitChar(n)]
    else NatDigits(n / 10) + [DigitChar(n % 10)]
  }

  /** strconv.Itoa, and what `%d` prints for an int. */
  function Itoa(n: int): (s: string)
    ensures |s| > 0
    ensures s[0] == '-' <==> n < 0
    ensures forall i | (if n < 0 then 1 else 0) <= i < |s| :: IsDigit(s[i])
  {
    if n < 0 then "-" + NatDigits(-n) else NatDigits(n)
  }

  /** The digits of `n` have the value `n`. */
  lemma {:induction false} NatDigitsValue(n: nat)
    ensures DigitsValue(NatDigits(n)) == n
    decreases n
  {
    if n >= 10 {
      NatDigitsValue(n / 10);
      var ds := NatDigits(n);
      assert ds[..|ds| - 1] == NatDigits(n / 10);
    }
  }

  /** Reading back what Itoa prints gives the same integer, for every
      integer Go's int can hold. */
  lemma AtoiItoa(n: int)
    requires InInt64(n)
    ensures Atoi(Itoa(n)) == Some(n)
  {
    var m: nat := if n < 0 then -n else n;
    NatDigitsValue(m);
    var ds := NatDigits(m);
    assert SplitSign(Itoa(n)) == (n < 0, ds) by {
      if n < 0 {
        assert Itoa(n) == "-" + ds;
        assert ("-" + ds)[1..] == ds;
      } else {
        assert IsDigit(ds[0]);
      }
    }
  }

  /** Every optionally signed run of digits whose value fits in an int64
      is accepted, with that value: unsigned and `+` give the digits'
      value, `-` its negation. */
  lemma AtoiAccepts(ds: string)
    requires |ds| > 0 && AllDigits(ds)
    ensures InInt64(DigitsValue(ds)) ==>
      Atoi(ds) == Some(DigitsValue(ds) as int) && Atoi("+" + ds) == Some(DigitsValue(ds) as int)
    ensures InInt64(-(DigitsValue(ds) as int)) ==> Atoi("-" + ds) == Some(-(DigitsValue(ds) as int))
    ensures !InInt64(DigitsValue(ds)) ==> Atoi(ds).None? && Atoi("+" + ds).None?
    ensures !InInt64(-(DigitsValue(ds) as int)) ==> Atoi("-" + ds).None?
  {
    assert IsDigit(ds[0]);
    AtoiOfSigned(ds, false, ds);
    assert ("+" + ds)[1..] == ds;
    AtoiOfSigned("+" + ds, false, ds);
    assert ("-" + ds)[1..] == ds;
    AtoiOfSigned("-" + ds, true, ds);
  }

  /** Atoi of a text whose sign and digit part are known. */
  lemma AtoiOfSigned(s: string, negative: bool, ds: string)
    requires SplitSign(s) == (negative, ds)
    requires |ds| > 0 && AllDigits(ds)
    ensures var v: int := if negative then -(DigitsValue(ds) as int) else DigitsValue(ds);
      Atoi(s) == if InInt64(v) then Some(v) else None
  {
  }
}
