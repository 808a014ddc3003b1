/** The pieces of Go's `strconv` package that the bot relies on: Itoa, Atoi and
    ParseFloat (decimal notation), with Go's (value, error) results. */
module StrConv {
  import opened Wrappers

  const MinInt64: int := -0x8000_0000_0000_0000
  const MaxInt64: int := 0x7FFF_FFFF_FFFF_FFFF
  const MaxUint64: int := 0xFFFF_FFFF_FFFF_FFFF

  datatype NumError = ErrSyntax | ErrRange

  /** Go's `(value, err)` pair: the value is meaningful even when `err` is set. */
  datatype Parsed<T> = Parsed(value: T, err: Option<NumError>)

  predicate IsDigit(c: char)
  {
    '0' <= c <= '9'
  }

  predicate AllDigits(s: string)
  {
    forall i :: 0 <= i < |s| ==> IsDigit(s[i])
  }

  function DigitChar(d: int): (c: char)
    requires 0 <= d < 10
    ensures IsDigit(c)
  {
    ('0' as int + d) as char
  }

  /** The number a run of decimal digits denotes. */
  function DigitsValue(s: string): nat
    requires AllDigits(s)
  {
    if s == [] then 0 else DigitsValue(s[..|s| - 1]) * 10 + (s[|s| - 1] as int - '0' as int)
  }

  /** A longer digit run never denotes a smaller number. */
  lemma {:induction false} DigitsValuePrefix(s: string, k: nat)
    requires AllDigits(s) && k <= |s|
    ensures DigitsValue(s[..k]) <= DigitsValue(s)
  {
    if k < |s| {
      assert s[..|s| - 1][..k] == s[..k];
      DigitsValuePrefix(s[..|s| - 1], k);
    } else {
      assert s[..k] == s;
    }
  }

  /** The length of the longest prefix of `s` made of digits. */
  function DigitRun(s: string): (k: nat)
    ensures k <= |s| && AllDigits(s[..k])
    ensures k < |s| ==> !IsDigit(s[k])
  {
    if s == [] || !IsDigit(s[0]) then 0
    else
      var k := 1 + DigitRun(s[1..]);
      assert s[..k] == [s[0]] + s[1..][..k - 1];
      k
  }

  /** The decimal digits of a natural number, most significant first, without leading zeros. */
  function NatDigits(n: nat): (s: string)
    ensures |s| > 0 && AllDigits(s)
    ensures |s| > 1 ==> s[0] != '0'
  {
    if n < 10 then [DigitChar(n)] else NatDigits(n / 10) + [DigitChar(n % 10)]
  }

  /** strconv.Itoa */
  function Itoa(n: int): (s: string)
    ensures |s| > 0
    ensures forall i :: 0 <= i < |s| ==> IsDigit(s[i]) || s[i] == '-'
  {
    if n < 0 then "-" + NatDigits(-n) else NatDigits(n)
  }

  lemma {:induction false} NatDigitsValue(n: nat)
    ensures DigitsValue(NatDigits(n)) == n
  {
    if n >= 10 {
      NatDigitsValue(n / 10);
      var s := NatDigits(n);
      assert s[..|s| - 1] == NatDigits(n / 10);
    }
  }

  /** strconv.Atoi on a 64-bit platform: an optional sign, then one or more decimal
      digits. Digits are read left to right, and a value beyond the unsigned 64-bit
      range is reported as a range error even when a bad character follows. A syntax
      error yields 0; a range error yields the nearest int64 bound. */
  function Atoi(s: string): (r: Parsed<int>)
    ensures r.err == Some(ErrSyntax) ==> r.value == 0
    ensures r.err.None? ==> MinInt64 <= r.value <= MaxInt64
    ensures r.err == Some(ErrRange) ==> r.value == MinInt64 || r.value == MaxInt64
  {
    var signed := |s| > 0 && (s[0] == '-' || s[0] == '+');
    var neg := |s| > 0 && s[0] == '-';
    var body := if signed then s[1..] else s;
    var k := DigitRun(body);
    if DigitsValue(body[..k]) > MaxUint64 then
      Parsed(if neg then MinInt64 else MaxInt64, Some(ErrRange))
    else if k == 0 || k < |body| then
      Parsed(0, Some(ErrSyntax))
    else
      assert body[..k] == body;
      var v := if neg then -(DigitsValue(body) as int) else DigitsValue(body);
      if v > MaxInt64 then Parsed(MaxInt64, Some(ErrRange))
      else if v < MinInt64 then Parsed(MinInt64, Some(ErrRange))
      else Parsed(v, None)
  }

  /** Atoi accepts exactly the optionally signed digit strings whose value fits in 64 bits. */
  lemma AtoiSucceeds(s: string)
    ensures Atoi(s).err.None? <==>
      var body := if |s| > 0 && (s[0] == '-' || s[0] == '+') then s[1..] else s;
      |body| > 0 && AllDigits(body) &&
      MinInt64 <= (if |s| > 0 && s[0] == '-' then -(DigitsValue(body) as int) else DigitsValue(body)) <= MaxInt64
  {
    var body := if |s| > 0 && (s[0] == '-' || s[0] == '+') then s[1..] else s;
    var k := DigitRun(body);
    if |body| > 0 && AllDigits(body) {
      assert body[..k] == body;
    }
  }

  /** Parsing what Itoa prints gives the number back. */
  lemma AtoiItoa(n: int)
    requires MinInt64 <= n <= MaxInt64
    ensures Atoi(Itoa(n)) == Parsed(n, None)
  {
    var s := Itoa(n);
    var digits := if n < 0 then NatDigits(-n) else NatDigits(n);
    NatDigitsValue(if n < 0 then -n else n);
    var body := if |s| > 0 && (s[0] == '-' || s[0] == '+') then s[1..] else s;
    assert body == digits;
    AtoiSucceeds(s);
  }

  function Pow10(n: nat): (p: nat)
    ensures p >= 1
  {
    if n == 0 then 1 else 10 * Pow10(n - 1)
  }

  /** strconv.ParseFloat(s, 64) on decimal notation: an optional sign, digits, and an
      optional fraction after a '.', with at least one digit in all. The value is the
      exact decimal number. A syntax error yields 0. */
  function ParseFloat(s: string): (r: Parsed<real>)
    ensures r.err.Some? ==> r.err == Some(ErrSyntax) && r.value == 0.0
  {
    var neg := |s| > 0 && s[0] == '-';
    var body := if |s| > 0 && (s[0] == '-' || s[0] == '+') then s[1..] else s;
    var k := DigitRun(body);
    var intPart := body[..k];
    if k == |body| then
      if k == 0 then Parsed(0.0, Some(ErrSyntax))
      else Parsed(Signed(neg, DigitsValue(intPart) as real), None)
    else if body[k] != '.' then Parsed(0.0, Some(ErrSyntax))
    else
      var frac := body[k + 1..];
      if !AllDigits(frac) || (k == 0 && frac == []) then Parsed(0.0, Some(ErrSyntax))
      else
        var mag := DigitsValue(intPart) as real + DigitsValue(frac) as real / Pow10(|frac|) as real;
        Parsed(Signed(neg, mag), None)
  }

  function Signed(neg: bool, x: real): real
  {
    if neg then -x else x
  }

  /** A plain digit string parses as the integer it denotes. */
  lemma ParseFloatDigits(s: string)
    requires |s| > 0 && AllDigits(s)
    ensures ParseFloat(s) == Parsed(DigitsValue(s) as real, None)
  {
    var k := DigitRun(s);
    assert s[..k] == s;
  }
}
