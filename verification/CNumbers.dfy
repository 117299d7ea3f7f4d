/** The C number conversions the server relies on, with their saturation and wrap-around. */
module CNumbers {
  import opened ByteStrings

  const SIZE_T_RANGE: nat := 0x1_0000_0000_0000_0000
  const LONG_MAX: int := 0x7fff_ffff_ffff_ffff
  const LONG_MIN: int := -0x8000_0000_0000_0000

  /** Conversion to size_t: reduction modulo 2^64. */
  function SizeT(n: nat): (r: nat)
    ensures r < SIZE_T_RANGE
  {
    if n < SIZE_T_RANGE then n else SizeT(n - SIZE_T_RANGE)
  }

  lemma FitsSizeT(n: nat)
    requires n < SIZE_T_RANGE
    ensures SizeT(n) == n
  {}

  /** The value of a digit in bases up to 16; 16 for any other byte. */
  function DigitValue(c: char): (v: nat)
    ensures v <= 16
  {
    if '0' <= c <= '9' then c as int - '0' as int
    else if 'a' <= c <= 'f' then c as int - 'a' as int + 10
    else if 'A' <= c <= 'F' then c as int - 'A' as int + 10
    else 16
  }

  predicate AllInBase(s: string, base: nat) {
    forall i :: 0 <= i < |s| ==> DigitValue(s[i]) < base
  }

  /** How many leading bytes of `s` are digits of the base. */
  function DigitRun(s: string, base: nat): (n: nat)
    ensures n <= |s| && AllInBase(s[..n], base)
    ensures n < |s| ==> DigitValue(s[n]) >= base
  {
    if s != "" && DigitValue(s[0]) < base then
      var n := 1 + DigitRun(s[1..], base);
      assert s[..n] == [s[0]] + s[1..][..n - 1];
      n
    else 0
  }

  /** The number a digit string denotes. */
  function NumberOf(s: string, base: nat): nat
    requires AllInBase(s, base)
  {
    if s == "" then 0 else NumberOf(s[..|s| - 1], base) * base + DigitValue(s[|s| - 1])
  }

  lemma DigitRunStops(digits: string, rest: string, base: nat)
    requires AllInBase(digits, base)
    requires rest == "" || DigitValue(rest[0]) >= base
    ensures DigitRun(digits + rest, base) == |digits|
  {
    if digits == "" {
      assert digits + rest == rest;
    } else {
      assert (digits + rest)[1..] == digits[1..] + rest;
      DigitRunStops(digits[1..], rest, base);
    }
  }

  /** An optional sign: whether it is a minus, and what follows it. */
  function SplitSign(s: string): (bool, string) {
    if s != "" && s[0] == '-' then (true, s[1..])
    else if s != "" && s[0] == '+' then (false, s[1..])
    else (false, s)
  }

  /** strtoul(s, NULL, 16): leading space, sign and 0x are skipped, the value saturates at the
      largest unsigned long, and a minus negates modulo 2^64. */
  function StrToUl16(s: string): (v: nat)
    ensures v < SIZE_T_RANGE
  {
    var (minus, u) := SplitSign(TrimLeft(s));
    var digits := WithoutPrefix(u);
    var n := NumberOf(digits[..DigitRun(digits, 16)], 16);
    if n >= SIZE_T_RANGE then SIZE_T_RANGE - 1
    else if minus then SizeT(SIZE_T_RANGE - n)
    else n
  }

  /** Digits are read as they stand: no space or sign to skip, no byte left over. */
  lemma PlainDigits(digits: string, base: nat)
    requires digits != "" && AllInBase(digits, base) && base <= 16
    ensures TrimLeft(digits) == digits && SplitSign(digits) == (false, digits)
    ensures DigitRun(digits, base) == |digits| && digits[..|digits|] == digits
  {
    assert DigitValue(digits[0]) < 16;
    DigitRunStops(digits, "", base);
    assert digits + "" == digits;
  }

  /** Hexadecimal digits that fit denote their number. */
  lemma StrToUl16OfDigits(digits: string)
    requires digits != "" && AllInBase(digits, 16)
    requires NumberOf(digits, 16) < SIZE_T_RANGE
    ensures StrToUl16(digits) == NumberOf(digits, 16)
  {
    PlainDigits(digits, 16);
    if |digits| >= 2 {
      assert DigitValue(digits[1]) < 16;
    }
  }

  datatype LongParse = LongParse(value: int, stop: nat)

  /** strtoll(s, &end, 10) with `stop` the offset of `end`; 0 when nothing was converted. */
  function StrToLl10(s: string): (r: LongParse)
    ensures r.stop <= |s|
  {
    var t := TrimLeft(s);
    TrimLeftLength(s);
    var (minus, u) := SplitSign(t);
    var run := DigitRun(u, 10);
    if run == 0 then LongParse(0, 0)
    else
      var n: int := NumberOf(u[..run], 10);
      var value := if minus then -n else n;
      LongParse(if value > LONG_MAX then LONG_MAX else if value < LONG_MIN then LONG_MIN else value,
                |s| - |u| + run)
  }

  lemma TrimLeftLength(s: string)
    ensures |TrimLeft(s)| <= |s|
  {}

  function DigitChar(d: nat): (c: char)
    requires d < 10
    ensures DigitValue(c) == d
  {
    ['0', '1', '2', '3', '4', '5', '6', '7', '8', '9'][d]
  }

  /** Decimal notation without leading zeros, as an ostream prints it. */
  function Decimal(n: nat): (s: string)
    ensures s != "" && AllInBase(s, 10) && NumberOf(s, 10) == n
  {
    if n < 10 then [DigitChar(n)]
    else
      var high := Decimal(n / 10);
      var s := high + [DigitChar(n % 10)];
      assert s[..|s| - 1] == high;
      s
  }

  lemma StrToLl10OfDigits(digits: string)
    requires digits != "" && AllInBase(digits, 10) && NumberOf(digits, 10) <= LONG_MAX
    ensures StrToLl10(digits) == LongParse(NumberOf(digits, 10), |digits|)
  {
    PlainDigits(digits, 10);
  }

  /** atol: strtol with its saturation, what follows the number being ignored. */
  function AtoL(s: string): int {
    StrToLl10(s).value
  }

  /** A digit string denotes its number, or the largest long if that does not fit. */
  lemma AtoLOfDigits(digits: string)
    requires digits != "" && AllInBase(digits, 10)
    ensures AtoL(digits) == if NumberOf(digits, 10) <= LONG_MAX then NumberOf(digits, 10) else LONG_MAX
  {
    PlainDigits(digits, 10);
  }

  lemma DigitsInBase(s: string)
    ensures AllDigits(s) <==> AllInBase(s, 10)
  {
    forall i | 0 <= i < |s| ensures IsDigit(s[i]) <==> DigitValue(s[i]) < 10 {}
  }

  /** Conversion of a long to int: the low 32 bits as a signed number. */
  function ToInt32(n: int): (r: int)
    ensures -0x8000_0000 <= r < 0x8000_0000
  {
    (n + 0x8000_0000) % 0x1_0000_0000 - 0x8000_0000
  }

  lemma LowBits(n: nat)
    ensures var low := n % 0x1_0000_0000;
            ToInt32(n) == if low < 0x8000_0000 then low else low - 0x1_0000_0000
  {}

  /** atoi, which truncates the long. */
  function AtoI(s: string): (n: int)
    ensures -0x8000_0000 <= n < 0x8000_0000
  {
    ToInt32(AtoL(s))
  }

  // ---------------------------------------------------------------- what the conversions read

  /** Nothing but spaces and the control bytes from tab to carriage return. */
  predicate White(s: string) {
    forall i :: 0 <= i < |s| ==> s[i] as int == 32 || 9 <= s[i] as int <= 13
  }

  predicate StartsWhite(s: string) {
    s != "" && White(s[..1])
  }

  lemma {:induction false} WhiteSkipped(white: string, s: string)
    requires White(white) && !StartsWhite(s)
    ensures TrimLeft(white + s) == s
    decreases |white|
  {
    if white == "" {
      assert white + s == s;
    } else {
      assert (white + s)[1..] == white[1..] + s;
      WhiteSkipped(white[1..], s);
    }
  }

  predicate IsSign(sign: string) {
    sign == "" || sign == "+" || sign == "-"
  }

  lemma SignSplit(sign: string, s: string)
    requires IsSign(sign) && s != "" && s[0] != '+' && s[0] != '-'
    ensures SplitSign(sign + s) == (sign == "-", s)
  {
    if sign == "" {
      assert sign + s == s;
    } else {
      assert (sign + s)[0] == sign[0] && (sign + s)[1..] == s;
    }
  }

  lemma DigitsReadOut(digits: string, rest: string, base: nat)
    requires AllInBase(digits, base) && (rest == "" || DigitValue(rest[0]) >= base)
    ensures DigitRun(digits + rest, base) == |digits| && (digits + rest)[..|digits|] == digits
  {
    DigitRunStops(digits, rest, base);
  }

  /** strtoll: white space, a sign, and as many digits as there are, held within a long. */
  lemma StrToLl10Reads(white: string, sign: string, digits: string, rest: string)
    requires White(white) && IsSign(sign) && digits != "" && AllInBase(digits, 10)
    requires rest == "" || DigitValue(rest[0]) >= 10
    ensures var n: int := NumberOf(digits, 10);
            var r := StrToLl10(white + (sign + (digits + rest)));
            && r.stop == |white| + |sign| + |digits|
            && r.value == if sign == "-" then (if n > 0x8000_0000_0000_0000 then -0x8000_0000_0000_0000 else -n)
                          else if n > 0x7fff_ffff_ffff_ffff then 0x7fff_ffff_ffff_ffff else n
  {
    hide NumberOf, DigitRun, TrimLeft, SplitSign, White;
    var u := digits + rest;
    assert DigitValue(u[0]) < 10;
    DigitIsPlain(u[0]);
    SignIsPlain(sign, u);
    WhiteSkipped(white, sign + u);
    SignSplit(sign, u);
    DigitsReadOut(digits, rest, 10);
    hide AllInBase, IsSign, StartsWhite;
  }

  lemma DigitIsPlain(c: char)
    requires DigitValue(c) < 16
    ensures !White([c]) && c != '+' && c != '-'
  {
    assert [c][0] == c;
  }

  lemma SignIsPlain(sign: string, u: string)
    requires IsSign(sign) && u != "" && !White([u[0]])
    ensures !StartsWhite(sign + u)
  {
    var s := sign + u;
    assert s[..1] == [s[0]];
    assert s[0] == if sign == "" then u[0] else sign[0];
  }

  /** Without a digit nothing is converted. */
  lemma StrToLl10Nothing(white: string, sign: string, rest: string)
    requires White(white) && IsSign(sign) && !StartsWhite(sign + rest)
    requires sign == "" ==> rest == "" || (rest[0] != '+' && rest[0] != '-')
    requires rest == "" || DigitValue(rest[0]) >= 10
    ensures StrToLl10(white + (sign + rest)) == LongParse(0, 0)
  {
    WhiteSkipped(white, sign + rest);
    var (minus, u) := SplitSign(sign + rest);
    assert u == rest by {
      if sign == "" {
        assert sign + rest == rest;
      } else {
        assert (sign + rest)[0] == sign[0] && (sign + rest)[1..] == rest;
      }
    }
    DigitsReadOut("", rest, 10);
    assert "" + rest == rest;
  }

  /** strtoul in base 16: white space, a sign, an optional 0x and as many digits as there are, saturating
      at the largest unsigned long; a minus negates modulo 2^64. */
  lemma StrToUl16Reads(white: string, sign: string, prefix: string, digits: string, rest: string)
    requires White(white) && IsSign(sign) && digits != "" && AllInBase(digits, 16)
    requires prefix == "" || prefix == "0x" || prefix == "0X"
    requires rest == "" || (DigitValue(rest[0]) >= 16 && (digits == "0" ==> rest[0] != 'x' && rest[0] != 'X'))
    ensures var n := NumberOf(digits, 16);
            StrToUl16(white + (sign + (prefix + (digits + rest)))) ==
              if n > 0xffff_ffff_ffff_ffff then 0xffff_ffff_ffff_ffff
              else if sign == "-" && n > 0 then 0x1_0000_0000_0000_0000 - n
              else n
  {
    hide NumberOf, DigitRun, TrimLeft, SplitSign, SizeT, White, WithoutPrefix;
    var v := digits + rest;
    var u := prefix + v;
    assert DigitValue(digits[0]) < 16;
    assert u[0] == if prefix == "" then digits[0] else '0';
    DigitIsPlain(u[0]);
    SignIsPlain(sign, u);
    WhiteSkipped(white, sign + u);
    SignSplit(sign, u);
    PrefixDropped(prefix, digits, rest);
    DigitsReadOut(digits, rest, 16);
    NegatedFits(NumberOf(digits, 16));
    hide AllInBase, IsSign, StartsWhite;
  }

  function WithoutPrefix(u: string): string {
    if |u| >= 2 && u[0] == '0' && (u[1] == 'x' || u[1] == 'X') then u[2..] else u
  }

  lemma PrefixDropped(prefix: string, digits: string, rest: string)
    requires digits != "" && AllInBase(digits, 16) && (prefix == "" || prefix == "0x" || prefix == "0X")
    requires rest == "" || (DigitValue(rest[0]) >= 16 && (digits == "0" ==> rest[0] != 'x' && rest[0] != 'X'))
    ensures WithoutPrefix(prefix + (digits + rest)) == digits + rest
  {
    var v := digits + rest;
    if prefix == "" {
      assert prefix + v == v;
      if |digits| >= 2 {
        assert DigitValue(digits[1]) < 16 && v[1] == digits[1];
      }
    } else {
      assert (prefix + v)[2..] == v && (prefix + v)[0] == prefix[0] && (prefix + v)[1] == prefix[1];
    }
  }

  lemma NegatedFits(n: nat)
    ensures n < SIZE_T_RANGE ==> SizeT(SIZE_T_RANGE - n) == if n == 0 then 0 else SIZE_T_RANGE - n
  {
    if 0 < n < SIZE_T_RANGE {
      FitsSizeT(SIZE_T_RANGE - n);
    }
  }

  /** Without a digit the value is 0. */
  lemma StrToUl16Nothing(white: string, rest: string)
    requires White(white) && !StartsWhite(rest)
    requires rest == "" || (DigitValue(rest[0]) >= 16 && rest[0] != '+' && rest[0] != '-')
    ensures StrToUl16(white + rest) == 0
  {
    WhiteSkipped(white, rest);
    DigitsReadOut("", rest, 16);
    assert "" + rest == rest;
  }
}
