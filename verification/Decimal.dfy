/** Decimal printing and parsing of integers as `strconv.FormatInt(n, 10)` and
    `strconv.ParseInt(s, 10, 64)` do it. */
module Decimal {
  import opened Prelude

  const MIN_INT64: int := -0x8000_0000_0000_0000
  const MAX_INT64: int := 0x7fff_ffff_ffff_ffff

  predicate IsInt64(n: int) {
    MIN_INT64 <= n <= MAX_INT64
  }

  predicate IsDigit(c: char) {
    '0' <= c <= '9'
  }

  function DigitChar(d: nat): char
    requires d < 10
  {
    ('0' as int + d) as char
  }

  function DigitValue(c: char): nat
    requires IsDigit(c)
  {
    c as int - '0' as int
  }

  predicate AllDigits(s: string) {
    forall i :: 0 <= i < |s| ==> IsDigit(s[i])
  }

  /** The digits of `n`, most significant first, without a leading zero (except for zero itself). */
  function Digits(n: nat): (s: string)
    ensures |s| > 0 && AllDigits(s)
  {
    if n < 10 then [DigitChar(n)] else Digits(n / 10) + [DigitChar(n % 10)]
  }

  /** The number a digit string denotes. */
  function Value(s: string): nat
    requires AllDigits(s)
  {
    if s == [] then 0 else 10 * Value(s[..|s| - 1]) + DigitValue(s[|s| - 1])
  }

  function FormatInt(n: int): string {
    if n < 0 then "-" + Digits(-n) else Digits(n)
  }

  /** An optional sign, at least one digit and nothing else, within the 64-bit range. */
  function ParseInt(s: string): Option<int> {
    if s == "" then None
    else
      var negative := s[0] == '-';
      var body := if s[0] == '-' || s[0] == '+' then s[1..] else s;
      if body == "" || !AllDigits(body) then None
      else
        var magnitude: int := Value(body);
        var v := if negative then -magnitude else magnitude;
        if IsInt64(v) then Some(v) else None
  }

  lemma {:induction false} ValueOfDigits(n: nat)
    ensures Value(Digits(n)) == n
  {
    if n >= 10 {
      ValueOfDigits(n / 10);
      assert Digits(n)[..|Digits(n)| - 1] == Digits(n / 10);
    }
  }

  function InRange(v: int): Option<int> {
    if IsInt64(v) then Some(v) else None
  }

  lemma ParseNegative(d: string)
    requires d != "" && AllDigits(d)
    ensures ParseInt("-" + d) == InRange(-(Value(d) as int))
  {
    assert ("-" + d)[1..] == d;
  }

  lemma ParseUnsigned(d: string)
    requires d != "" && AllDigits(d)
    ensures ParseInt(d) == InRange(Value(d))
  {
    assert IsDigit(d[0]);
  }

  /** What `FormatInt` prints is read back as the same number exactly when it fits 64 bits. */
  lemma FormatParse(n: int)
    ensures ParseInt(FormatInt(n)) == if IsInt64(n) then Some(n) else None
  {
    if n < 0 {
      ParseNegative(Digits(-n));
      ValueOfDigits(-n);
    } else {
      ParseUnsigned(Digits(n));
      ValueOfDigits(n);
    }
  }

  /** No two integers share a decimal form. */
  lemma FormatInjective(m: int, n: int)
    requires FormatInt(m) == FormatInt(n)
    ensures m == n
  {
    assert IsDigit(Digits(if m < 0 then -m else m)[0]);
    assert IsDigit(Digits(if n < 0 then -n else n)[0]);
    if m < 0 {
      assert FormatInt(m)[0] == '-';
      assert FormatInt(m)[1..] == Digits(-m);
      assert FormatInt(n)[1..] == Digits(-n);
      ValueOfDigits(-m);
      ValueOfDigits(-n);
    } else {
      assert FormatInt(n)[0] != '-';
      ValueOfDigits(m);
      ValueOfDigits(n);
    }
  }

  /** A decimal form is made of digits and possibly a leading minus sign. */
  lemma FormatAlphabet(n: int)
    ensures |FormatInt(n)| > 0
    ensures forall i :: 0 <= i < |FormatInt(n)| ==> IsDigit(FormatInt(n)[i]) || FormatInt(n)[i] == '-'
  {
  }

  // ----- the notation itself

  /** Printing in terms of the ten digits: one more digit at the end for each factor of ten, and a
      minus sign in front of a negative number. */
  lemma FormatGrows(n: nat, d: nat)
    requires d < 10
    ensures FormatInt(d) == ["0123456789"[d]]
    ensures n > 0 ==> FormatInt(10 * n + d) == FormatInt(n) + ["0123456789"[d]]
    ensures n > 0 ==> FormatInt(-(n as int)) == "-" + FormatInt(n)
  {
    assert (10 * n + d) / 10 == n && (10 * n + d) % 10 == d;
  }

  /** What a text of digits denotes grows likewise. */
  lemma ValueGrows(s: string, d: nat)
    requires d < 10 && AllDigits(s)
    ensures AllDigits(s + ["0123456789"[d]]) && Value(s + ["0123456789"[d]]) == 10 * Value(s) + d
    ensures Value("") == 0
  {
    var t := s + ["0123456789"[d]];
    assert t[..|t| - 1] == s;
  }

  /** `s` is a sign, if any, and digits that denote `v`. */
  predicate Denotes(s: string, sign: string, digits: string, v: int) {
    s == sign + digits && sign in {"", "+", "-"} && digits != ""
    && (forall i :: 0 <= i < |digits| ==> '0' <= digits[i] <= '9')
    && v == if sign == "-" then -(Value(digits) as int) else Value(digits)
  }

  /** Parsing accepts a sign, if any, and at least one digit, and nothing else; the number must fit 64
      bits. */
  lemma ParseIff(s: string, v: int)
    ensures ParseInt(s) == Some(v) <==>
              -0x8000_0000_0000_0000 <= v < 0x8000_0000_0000_0000 && exists sign, digits :: Denotes(s, sign, digits, v)
  {
    if ParseInt(s) == Some(v) {
      if s[0] == '-' || s[0] == '+' {
        assert s == [s[0]] + s[1..];
        assert Denotes(s, [s[0]], s[1..], v);
      } else {
        assert Denotes(s, "", s, v);
      }
    }
    if IsInt64(v) && exists sign, digits :: Denotes(s, sign, digits, v) {
      var sign, digits :| Denotes(s, sign, digits, v);
      ParseDenoted(sign, digits, v);
    }
  }

  lemma ParseDenoted(sign: string, digits: string, v: int)
    requires Denotes(sign + digits, sign, digits, v) && IsInt64(v)
    ensures ParseInt(sign + digits) == Some(v)
  {
    if sign == "" {
      assert sign + digits == digits;
      ParseUnsigned(digits);
    } else {
      assert (sign + digits)[1..] == digits;
    }
  }
}
