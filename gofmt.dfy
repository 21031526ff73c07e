/**
 * The two `fmt` verbs the program uses to render numbers: `%d` for
 * integers and `%0.2f` for floats. A float is carried as its exact value,
 * and `%0.2f` renders that value rounded to two decimals, a tie going to
 * the even neighbour, as Go's formatter does for the exact binary value.
 * Each rendering comes with a parser for its output and a lemma that
 * parsing gives back the number (exactly for `%d`, to within half a
 * hundredth for `%0.2f`).
 */
module GoFmt {
  import opened GoValue

  predicate IsDigit(c: char)
  {
    '0' <= c <= '9'
  }

  predicate AllDigits(s: string)
  {
    forall i :: 0 <= i < |s| ==> IsDigit(s[i])
  }

  function DigitValue(c: char): (d: nat)
    requires IsDigit(c)
    ensures d < 10
  {
    c as int - '0' as int
  }

  function DigitChar(d: nat): (c: char)
    requires d < 10
    ensures IsDigit(c) && DigitValue(c) == d
  {
    ('0' as int + d) as char
  }

  /** The decimal digits of `n`, most significant first, without leading zeros. */
  function NatDigits(n: nat): (s: string)
    ensures 0 < |s| && AllDigits(s)
    ensures s[0] == '0' ==> n == 0
    decreases n
  {
    if n < 10 then [DigitChar(n)] else NatDigits(n / 10) + [DigitChar(n % 10)]
  }

  /** The number a string of decimal digits denotes. */
  function ParseNat(s: string): nat
    requires AllDigits(s)
  {
    if s == [] then 0 else ParseNat(s[..|s| - 1]) * 10 + DigitValue(s[|s| - 1])
  }

  lemma {:induction false} ParseNatDigits(n: nat)
    ensures ParseNat(NatDigits(n)) == n
  {
    if 10 <= n {
      var s := NatDigits(n);
      assert s[..|s| - 1] == NatDigits(n / 10);
      ParseNatDigits(n / 10);
    }
  }

  /** `fmt.Sprintf("%d", n)`: an optional minus sign followed by the digits. */
  function FormatInt(n: int): (s: string)
    ensures 0 < |s|
    ensures s[0] == '-' <==> n < 0
    ensures n < 0 ==> 1 < |s| && AllDigits(s[1..])
    ensures 0 <= n ==> AllDigits(s)
  {
    if n < 0 then "-" + NatDigits(-n) else NatDigits(n)
  }

  /** Reads back an optionally signed decimal integer. */
  function ParseInt(s: string): Option<int>
  {
    if 1 < |s| && s[0] == '-' && AllDigits(s[1..]) then Some(-(ParseNat(s[1..]) as int))
    else if 0 < |s| && AllDigits(s) then Some(ParseNat(s))
    else None
  }

  /** `%d` loses nothing: parsing its output gives the integer back. */
  lemma FormatIntRoundTrip(n: int)
    ensures ParseInt(FormatInt(n)) == Some(n)
  {
    var s := FormatInt(n);
    if n < 0 {
      assert s[1..] == NatDigits(-n);
      ParseNatDigits(-n);
      assert ParseInt(s) == Some(-(ParseNat(s[1..]) as int));
    } else {
      ParseNatDigits(n);
      assert ParseInt(s) == Some(ParseNat(s));
    }
  }

  /** The integer nearest to `x`; of two equally near, the even one. */
  function RoundHalfEven(x: real): (n: int)
    ensures -0.5 <= n as real - x <= 0.5
    ensures (n as real - x == 0.5 || x - n as real == 0.5) ==> n % 2 == 0
  {
    var f := x.Floor;
    var frac := x - f as real;
    if frac < 0.5 then f
    else if frac > 0.5 then f + 1
    else if f % 2 == 0 then f
    else f + 1
  }

  /** The number of hundredths `%0.2f` shows for `x`, ignoring the sign. */
  function Hundredths(x: real): (n: nat)
    ensures -0.005 <= n as real / 100.0 - (if x < 0.0 then -x else x) <= 0.005
  {
    var h := RoundHalfEven((if x < 0.0 then -x else x) * 100.0);
    assert 0 <= h;
    h
  }

  /** `fmt.Sprintf("%0.2f", x)`: sign, integer part, point, two decimals. */
  function FormatFixed2(x: real): (s: string)
    ensures 4 <= |s| && s[|s| - 3] == '.' && IsDigit(s[|s| - 2]) && IsDigit(s[|s| - 1])
    ensures s[0] == '-' <==> x < 0.0
  {
    var n := Hundredths(x);
    (if x < 0.0 then "-" else "") + NatDigits(n / 100) + "." + [DigitChar(n / 10 % 10), DigitChar(n % 10)]
  }

  /** Reads back an unsigned decimal with exactly two decimals. */
  function ParseUnsignedFixed2(s: string): Option<real>
  {
    if 4 <= |s| && s[|s| - 3] == '.' && AllDigits(s[..|s| - 3]) && IsDigit(s[|s| - 2]) && IsDigit(s[|s| - 1])
    then Some(ParseNat(s[..|s| - 3]) as real + (DigitValue(s[|s| - 2]) * 10 + DigitValue(s[|s| - 1])) as real / 100.0)
    else None
  }

  /** Reads back an optionally signed decimal with exactly two decimals. */
  function ParseFixed2(s: string): Option<real>
  {
    if 0 < |s| && s[0] == '-' then
      match ParseUnsignedFixed2(s[1..])
      case Some(v) => Some(-v)
      case None => None
    else ParseUnsignedFixed2(s)
  }

  /**
   * `%0.2f` is faithful to two decimals: its output parses back to the
   * rounded value, which is within half a hundredth of `x`.
   */
  lemma FormatFixed2Accurate(x: real)
    ensures ParseFixed2(FormatFixed2(x)).Some?
    ensures var v := ParseFixed2(FormatFixed2(x)).value;
      v == (if x < 0.0 then -1.0 else 1.0) * Hundredths(x) as real / 100.0 &&
      -0.005 <= v - x <= 0.005
  {
    var n := Hundredths(x);
    var digits := NatDigits(n / 100);
    var u := digits + "." + [DigitChar(n / 10 % 10), DigitChar(n % 10)];
    assert u[..|u| - 3] == digits;
    ParseNatDigits(n / 100);
    assert n == (n / 100) * 100 + (n / 10 % 10) * 10 + n % 10;
    assert ParseUnsignedFixed2(u) == Some(n as real / 100.0);
    if x < 0.0 {
      assert FormatFixed2(x) == "-" + u;
      assert FormatFixed2(x)[1..] == u;
    } else {
      assert FormatFixed2(x) == u;
      assert u[0] != '-';
    }
  }
}
