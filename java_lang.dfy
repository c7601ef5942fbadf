/**
  The pieces of the Java library that the quiz's domain logic relies on:
  32-bit `int`, `Integer.parseInt` (radix 10) and `Integer.toString`,
  ASCII case-insensitive equality (which agrees with `String.equalsIgnoreCase`
  when one side is "true") with `Boolean.parseBoolean`, and
  `List.indexOf` over an array of strings.
 */
module JavaLang {

  const MinInt32: int := -0x8000_0000
  const MaxInt32: int := 0x7fff_ffff

  /** Java's `int`. */
  type Int32 = x: int | MinInt32 <= x <= MaxInt32

  /** A value, or the `NumberFormatException` that `Integer.parseInt` throws. */
  datatype Result<T> = Ok(value: T) | NumberFormatException(input: string)

  // ---------------------------------------------------------------------------
  // Decimal digits
  // ---------------------------------------------------------------------------

  predicate IsDigit(c: char) {
    '0' <= c <= '9'
  }

  predicate AllDigits(s: string) {
    forall i | 0 <= i < |s| :: IsDigit(s[i])
  }

  function DigitValue(c: char): (d: nat)
    requires IsDigit(c)
    ensures d < 10
  {
    c as int - '0' as int
  }

  function DigitChar(d: nat): (c: char)
    requires d < 10
    ensures IsDigit(c) && DigitValue(c) == d
  {
    (d + '0' as int) as char
  }

  /** The value of a run of decimal digits, most significant digit first. */
  function DigitsValue(ds: string): nat
    requires AllDigits(ds)
  {
    if |ds| == 0 then 0 else DigitsValue(ds[..|ds| - 1]) * 10 + DigitValue(ds[|ds| - 1])
  }

  // ---------------------------------------------------------------------------
  // Integer literals
  // ---------------------------------------------------------------------------

  /** An optional sign followed by at least one decimal digit. */
  predicate IsIntLiteral(s: string) {
    && |s| >= 1
    && (IsDigit(s[0]) || ((s[0] == '-' || s[0] == '+') && |s| >= 2))
    && (forall i | 1 <= i < |s| :: IsDigit(s[i]))
  }

  /** The form `Integer.toString` prints: no '+', no leading zero, no "-0". */
  predicate IsCanonicalLiteral(s: string) {
    && IsIntLiteral(s)
    && s[0] != '+'
    && (s[0] == '0' ==> s == "0")
    && (s[0] == '-' ==> s[1] != '0')
  }

  /** `Integer.parseInt(s)`: an optional '-' or '+', then one or more digits,
      and the value must fit in an `int`; anything else throws. */
  function ParseInt(s: string): (r: Result<Int32>)
    ensures r.NumberFormatException? ==> r.input == s
  {
    if |s| == 0 then NumberFormatException(s)
    else
      var negative := s[0] == '-';
      var digits := if s[0] == '-' || s[0] == '+' then s[1..] else s;
      if |digits| == 0 || !AllDigits(digits) then NumberFormatException(s)
      else
        var v: int := if negative then -(DigitsValue(digits) as int) else DigitsValue(digits);
        if MinInt32 <= v <= MaxInt32 then Ok(v) else NumberFormatException(s)
  }

  /** Decimal digits of a natural number, without leading zeros. */
  function NatToString(n: nat): (r: string)
    ensures |r| >= 1 && AllDigits(r)
    ensures r[0] == '0' <==> n == 0
    ensures n == 0 <==> r == "0"
  {
    if n < 10 then [DigitChar(n)] else NatToString(n / 10) + [DigitChar(n % 10)]
  }

  /** `Integer.toString(n)`. */
  function IntToString(n: int): (r: string)
    ensures IsCanonicalLiteral(r)
    ensures r[0] == '-' <==> n < 0
  {
    if n < 0 then "-" + NatToString(-n) else NatToString(n)
  }

  lemma {:induction false} DigitsValueOfNatToString(n: nat)
    ensures DigitsValue(NatToString(n)) == n
  {
    if n >= 10 {
      var s := NatToString(n);
      assert s[..|s| - 1] == NatToString(n / 10);
      DigitsValueOfNatToString(n / 10);
    }
  }

  lemma {:induction false} DigitsValuePositive(ds: string)
    requires |ds| >= 1 && AllDigits(ds) && ds[0] != '0'
    ensures DigitsValue(ds) >= 1
  {
    if |ds| > 1 {
      DigitsValuePositive(ds[..|ds| - 1]);
    }
  }

  lemma {:induction false} NatToStringOfDigitsValue(ds: string)
    requires |ds| >= 1 && AllDigits(ds)
    requires ds[0] == '0' ==> ds == "0"
    ensures NatToString(DigitsValue(ds)) == ds
  {
    if |ds| == 1 {
      assert DigitsValue(ds) == DigitValue(ds[0]);
    } else {
      var prefix := ds[..|ds| - 1];
      var last := DigitValue(ds[|ds| - 1]);
      DigitsValuePositive(prefix);
      NatToStringOfDigitsValue(prefix);
      var v := DigitsValue(ds);
      assert v == DigitsValue(prefix) * 10 + last;
      assert v / 10 == DigitsValue(prefix) && v % 10 == last;
      assert ds == prefix + [ds[|ds| - 1]];
    }
  }

  lemma {:induction false} DigitsValueLeadingZeros(k: nat, ds: string)
    requires AllDigits(ds)
    ensures AllDigits(Zeros(k) + ds)
    ensures DigitsValue(Zeros(k) + ds) == DigitsValue(ds)
  {
    var s := Zeros(k) + ds;
    assert AllDigits(s) by {
      forall i | 0 <= i < |s| ensures IsDigit(s[i]) {
        if i >= k { assert s[i] == ds[i - k]; }
      }
    }
    if |ds| == 0 {
      DigitsValueOfZeros(k);
      assert s == Zeros(k);
    } else {
      DigitsValueLeadingZeros(k, ds[..|ds| - 1]);
      assert s[..|s| - 1] == Zeros(k) + ds[..|ds| - 1];
    }
  }

  function Zeros(k: nat): (z: string)
    ensures |z| == k && forall i | 0 <= i < k :: z[i] == '0'
  {
    if k == 0 then "" else Zeros(k - 1) + "0"
  }

  lemma {:induction false} DigitsValueOfZeros(k: nat)
    ensures AllDigits(Zeros(k)) && DigitsValue(Zeros(k)) == 0
  {
    if k > 0 {
      assert Zeros(k)[..k - 1] == Zeros(k - 1);
      DigitsValueOfZeros(k - 1);
    }
  }

  /** `Integer.parseInt(Integer.toString(n)) == n` for every `int` n. */
  lemma {:induction false} ParseIntOfIntToString(n: Int32)
    ensures ParseInt(IntToString(n)) == Ok(n)
  {
    var s := IntToString(n);
    if n < 0 {
      var m := -(n as int);
      assert s[1..] == NatToString(m);
      DigitsValueOfNatToString(m);
    } else {
      assert s == NatToString(n);
      DigitsValueOfNatToString(n);
    }
  }

  /** Printing what was parsed gives back every canonical literal. */
  lemma {:induction false} IntToStringOfParseInt(s: string)
    requires IsCanonicalLiteral(s)
    ensures ParseInt(s).Ok? ==> IntToString(ParseInt(s).value) == s
  {
    if ParseInt(s).Ok? {
      if s[0] == '-' {
        var ds := s[1..];
        assert AllDigits(ds);
        DigitsValuePositive(ds);
        NatToStringOfDigitsValue(ds);
        assert s == "-" + ds;
      } else {
        assert AllDigits(s);
        NatToStringOfDigitsValue(s);
      }
    }
  }

  /** `Integer.toString` never prints the same text for two values. */
  lemma {:induction false} IntToStringInjective(m: int, n: int)
    requires IntToString(m) == IntToString(n)
    ensures m == n
  {
    if m < 0 {
      assert IntToString(m)[1..] == NatToString(-m);
      assert IntToString(n)[1..] == NatToString(-n);
      DigitsValueOfNatToString(-m);
      DigitsValueOfNatToString(-n);
    } else {
      DigitsValueOfNatToString(m);
      DigitsValueOfNatToString(n);
    }
  }

  /** Whatever `Integer.parseInt` accepts is a literal: an optional sign and digits. */
  lemma ParseIntAcceptsOnlyLiterals(s: string)
    ensures ParseInt(s).Ok? ==> IsIntLiteral(s)
  {
  }

  /** A literal whose value does not fit in an `int` is rejected, not wrapped. */
  lemma {:induction false} ParseIntRejectsOutOfRange(n: int)
    requires n < MinInt32 || MaxInt32 < n
    ensures ParseInt(IntToString(n)) == NumberFormatException(IntToString(n))
  {
    if n < 0 {
      assert ("-" + NatToString(-n))[1..] == NatToString(-n);
      DigitsValueOfNatToString(-n);
    } else {
      DigitsValueOfNatToString(n);
    }
  }

  /** A run of digits parses, unsigned or after '+' or '-', to its value when that fits. */
  lemma ParseIntOfDigits(ds: string)
    requires |ds| >= 1 && AllDigits(ds) && DigitsValue(ds) <= MaxInt32
    ensures ParseInt(ds) == Ok(DigitsValue(ds))
    ensures ParseInt("+" + ds) == Ok(DigitsValue(ds))
    ensures ParseInt("-" + ds) == Ok(-(DigitsValue(ds) as int))
  {
    assert ("+" + ds)[1..] == ds;
    assert ("-" + ds)[1..] == ds;
  }

  /** Leading zeros and a leading '+' do not change the parsed value. */
  lemma {:induction false} ParseIntIgnoresLeadingZeros(k: nat, n: nat)
    requires n <= MaxInt32
    ensures ParseInt(Zeros(k) + NatToString(n)) == Ok(n)
    ensures ParseInt("+" + (Zeros(k) + NatToString(n))) == Ok(n)
    ensures ParseInt("-" + (Zeros(k) + NatToString(n))) == Ok(-(n as int))
  {
    DigitsValueOfNatToString(n);
    DigitsValueLeadingZeros(k, NatToString(n));
    ParseIntOfDigits(Zeros(k) + NatToString(n));
  }

  /** However it is padded or signed, a literal whose value does not fit in an
      `int` is rejected; `-2147483648` parses, with any number of leading zeros. */
  lemma {:induction false} ParseIntRejectsPaddedOutOfRange(k: nat, n: nat)
    requires n > MaxInt32
    ensures ParseInt(Zeros(k) + NatToString(n)).NumberFormatException?
    ensures ParseInt("+" + (Zeros(k) + NatToString(n))).NumberFormatException?
    ensures n > -MinInt32 ==> ParseInt("-" + (Zeros(k) + NatToString(n))).NumberFormatException?
    ensures n == -MinInt32 ==> ParseInt("-" + (Zeros(k) + NatToString(n))) == Ok(MinInt32)
  {
    var ds := Zeros(k) + NatToString(n);
    DigitsValueOfNatToString(n);
    DigitsValueLeadingZeros(k, NatToString(n));
    assert ("+" + ds)[1..] == ds;
    assert ("-" + ds)[1..] == ds;
  }

  lemma ParseIntRejectExamples()
    ensures ParseInt("").NumberFormatException?
    ensures ParseInt("-").NumberFormatException?
    ensures ParseInt("+").NumberFormatException?
    ensures ParseInt("abc").NumberFormatException?
    ensures ParseInt(" 1").NumberFormatException?
    ensures ParseInt("1.0").NumberFormatException?
  {
  }

  lemma ParseIntLimitExamples()
    ensures ParseInt("2147483648").NumberFormatException?
    ensures ParseInt("-2147483648") == Ok(MinInt32)
    ensures ParseInt("2147483647") == Ok(MaxInt32)
  {
    assert NatToString(21) == "21";
    assert NatToString(214) == "214";
    assert NatToString(2147) == "2147";
    assert NatToString(21474) == "21474";
    assert NatToString(214748) == "214748";
    assert NatToString(2147483) == "2147483";
    assert NatToString(21474836) == "21474836";
    assert NatToString(214748364) == "214748364";
    assert NatToString(2147483648) == "2147483648";
    assert NatToString(2147483647) == "2147483647";
    ParseIntRejectsOutOfRange(2147483648);
    ParseIntOfIntToString(MinInt32);
    ParseIntOfIntToString(MaxInt32);
  }

  lemma ParseIntLenientExamples()
    ensures ParseInt("+1") == Ok(1)
    ensures ParseInt("-0") == Ok(0)
    ensures ParseInt("007") == Ok(7)
  {
    assert DigitsValue("1") == 1 && DigitsValue("0") == 0;
    ParseIntOfDigits("1");
    assert "+" + "1" == "+1";
    ParseIntOfDigits("0");
    assert "-" + "0" == "-0";
    assert "007"[..2] == "00" && "00"[..1] == "0";
    assert DigitsValue("007") == 7;
    ParseIntOfDigits("007");
  }

  // ---------------------------------------------------------------------------
  // Booleans
  // ---------------------------------------------------------------------------

  function ToLowerAscii(c: char): char {
    if 'A' <= c <= 'Z' then (c as int - 'A' as int + 'a' as int) as char else c
  }

  /** ASCII case-insensitive equality: same length, and each pair of characters
      equal after folding ASCII letters. It agrees with `equalsIgnoreCase` when
      one side is "true". */
  predicate EqualsIgnoreCase(a: string, b: string): (r: bool)
    ensures r ==> |a| == |b|
    ensures a == b ==> r
  {
    |a| == |b| && forall i | 0 <= i < |a| :: ToLowerAscii(a[i]) == ToLowerAscii(b[i])
  }

  /** `Boolean.parseBoolean(s)`: `"true".equalsIgnoreCase(s)`; false for every
      other string, never an exception. */
  predicate ParseBoolean(s: string): (r: bool)
    ensures s == "true" ==> r
    ensures r ==> |s| == 4 && s[0] in "tT"
  {
    EqualsIgnoreCase(s, "true")
  }

  /** The sixteen spellings of "true" that `Boolean.parseBoolean` accepts, and no others. */
  lemma ParseBooleanSpellings(s: string)
    ensures ParseBoolean(s) <==>
      |s| == 4 && s[0] in "tT" && s[1] in "rR" && s[2] in "uU" && s[3] in "eE"
  {
  }

  lemma ParseBooleanExamples()
    ensures ParseBoolean("true") && ParseBoolean("True") && ParseBoolean("TRUE")
    ensures !ParseBoolean("false") && !ParseBoolean("yes") && !ParseBoolean("") && !ParseBoolean("true ")
  {
  }

  // ---------------------------------------------------------------------------
  // List.indexOf
  // ---------------------------------------------------------------------------

  /** `Arrays.asList(xs).indexOf(x)`: the first position holding x, or -1. */
  method IndexOf(xs: seq<string>, x: string) returns (r: int)
    ensures -1 <= r < |xs|
    ensures r == -1 <==> x !in xs
    ensures 0 <= r ==> xs[r] == x && forall j | 0 <= j < r :: xs[j] != x
  {
    var i := 0;
    while i < |xs|
      invariant 0 <= i <= |xs|
      invariant forall j | 0 <= j < i :: xs[j] != x
    {
      if xs[i] == x {
        return i;
      }
      i := i + 1;
    }
    return -1;
  }
}
