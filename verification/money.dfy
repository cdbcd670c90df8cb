/**
 * Money on the real line. The handlers round with `Number(x.toFixed(2))` and render
 * margins with `x.toFixed(2) + "%"`; both are modelled exactly over the reals:
 * `toFixed(2)` picks the nearest number of hundredths of |x|, halves going up, and
 * writes a leading "-" for a negative `x`.
 */
module Money {

  import opened Wrappers
  import opened Text

  function Abs(x: real): real {
    if x < 0.0 then -x else x
  }

  /** An amount times a quantity: a unit price or unit profit scaled to a line total. */
  function Times(amount: real, q: int): real {
    amount * q as real
  }

  /** The number of hundredths `toFixed(2)` writes for `x`. */
  function Cents(x: real): (n: nat)
    ensures n as real - 0.5 <= Abs(x) * 100.0 < n as real + 0.5
  {
    (Abs(x) * 100.0 + 0.5).Floor
  }

  /** The hundredths `toFixed(2)` writes, with the sign of `x`. */
  function SignedCents(x: real): int {
    if x < 0.0 then -(Cents(x) as int) else Cents(x) as int
  }

  /** `Number(x.toFixed(2))`: a whole number of hundredths within half a hundredth of `x`. */
  function Round2(x: real): (r: real)
    ensures r * 100.0 == SignedCents(x) as real
    ensures Abs(r - x) <= 0.005
    ensures x >= 0.0 ==> r >= 0.0
  {
    var k := SignedCents(x);
    var r := k as real / 100.0;
    assert Abs(r - x) * 100.0 == Abs(k as real - x * 100.0);
    r
  }

  /** An amount that is already a whole number of hundredths is left unchanged. */
  lemma Round2Exact(k: int)
    ensures Round2(k as real / 100.0) == k as real / 100.0
  {
    var x := k as real / 100.0;
    if k < 0 {
      assert Abs(x) * 100.0 == (-k) as real;
      assert Cents(x) == -k;
    } else {
      assert Abs(x) * 100.0 == k as real;
      assert Cents(x) == k;
    }
  }

  /** Rounding an already rounded amount changes nothing. */
  lemma Round2Idempotent(x: real)
    ensures Round2(Round2(x)) == Round2(x)
  {
    Round2Exact(SignedCents(x));
  }

  /** `x.toFixed(2)` for |x| below 10^21. */
  function Fixed2(x: real): (s: string)
    ensures |s| >= 4 && s[|s| - 3] == '.'
  {
    var n := Cents(x);
    (if x < 0.0 then "-" else "") + NatToString(n / 100) + "." + [DigitChar(n % 100 / 10), DigitChar(n % 10)]
  }

  /** The amount written with `whole` units and the hundredths digits `d1`, `d2`. */
  function Hundredths(whole: nat, d1: nat, d2: nat): real {
    (whole * 100 + d1 * 10 + d2) as real / 100.0
  }

  /** `Number(s)` for the strings `toFixed(2)` produces: an optional "-", at least one
      digit, a point and exactly two digits; anything else is `None`. */
  function ParseFixed2(s: string): Option<real> {
    if |s| < 4 || s[|s| - 3] != '.' then None
    else ParseSigned(s[..|s| - 3], s[|s| - 2], s[|s| - 1])
  }

  /** The part before the point, with an optional "-", and the two hundredths digits. */
  function ParseSigned(head: string, a: char, b: char): Option<real> {
    if |head| > 0 && head[0] == '-' then
      match ParseUnsigned(head[1..], a, b)
      case None => None
      case Some(v) => Some(-v)
    else ParseUnsigned(head, a, b)
  }

  /** At least one digit before the point and two after it. */
  function ParseUnsigned(whole: string, a: char, b: char): Option<real> {
    if |whole| == 0 || !AllDigits(whole) || !IsDigit(a) || !IsDigit(b) then None
    else Some(Hundredths(DigitsValue(whole), DigitValue(a), DigitValue(b)))
  }

  /** The text `toFixed(2)` writes denotes exactly the rounded amount: reading it
      back with `Number` yields `Round2(x)`. */
  lemma Fixed2Denotes(x: real)
    ensures ParseFixed2(Fixed2(x)) == Some(Round2(x))
  {
    var n := Cents(x);
    var digits := NatToString(n / 100);
    var a, b := DigitChar(n % 100 / 10), DigitChar(n % 10);
    var sign := if x < 0.0 then "-" else "";
    assert Fixed2(x) == sign + digits + "." + [a, b];
    ParseFixed2Parts(sign, digits, a, b);
    CentsDigits(n);
    var h := Hundredths(DigitsValue(digits), DigitValue(a), DigitValue(b));
    assert h == n as real / 100.0;
    if x < 0.0 {
      assert SignedCents(x) == -(n as int);
      assert Round2(x) == -h;
    } else {
      assert SignedCents(x) == n;
      assert Round2(x) == h;
    }
  }

  /** The digits `Fixed2` writes for `n` hundredths denote `n` hundredths. */
  lemma CentsDigits(n: nat)
    ensures Hundredths(DigitsValue(NatToString(n / 100)), DigitValue(DigitChar(n % 100 / 10)), DigitValue(DigitChar(n % 10)))
         == n as real / 100.0
  {
    var w, r := n / 100, n % 100;
    NatToStringValue(w);
    assert DigitValue(DigitChar(r / 10)) == r / 10;
    assert DigitValue(DigitChar(n % 10)) == r % 10;
    assert n == w * 100 + r;
    assert r == r / 10 * 10 + r % 10;
    HundredthsOf(w, r / 10, r % 10, n);
  }

  lemma HundredthsOf(w: nat, d1: nat, d2: nat, n: nat)
    requires w * 100 + d1 * 10 + d2 == n
    ensures Hundredths(w, d1, d2) == n as real / 100.0
  {
  }

  /** How `ParseFixed2` reads an optional sign, a digit string, a point and two digits. */
  lemma ParseFixed2Parts(sign: string, digits: string, a: char, b: char)
    requires sign == "" || sign == "-"
    requires |digits| > 0 && AllDigits(digits) && IsDigit(a) && IsDigit(b)
    ensures sign == "" ==> ParseFixed2(sign + digits + "." + [a, b]) == Some(Hundredths(DigitsValue(digits), DigitValue(a), DigitValue(b)))
    ensures sign == "-" ==> ParseFixed2(sign + digits + "." + [a, b]) == Some(-Hundredths(DigitsValue(digits), DigitValue(a), DigitValue(b)))
  {
    PointSplits(sign + digits, a, b);
    UnsignedDigits(digits, a, b);
    if sign == "-" {
      NegativeParts(digits, a, b);
    } else {
      assert sign + digits == digits;
    }
  }

  lemma NegativeParts(digits: string, a: char, b: char)
    requires |digits| > 0 && AllDigits(digits) && IsDigit(a) && IsDigit(b)
    ensures ParseSigned("-" + digits, a, b) == Some(-Hundredths(DigitsValue(digits), DigitValue(a), DigitValue(b)))
  {
    var head := "-" + digits;
    assert |head| > 0 && head[0] == '-';
    assert head[1..] == digits;
    UnsignedDigits(digits, a, b);
  }

  lemma UnsignedDigits(digits: string, a: char, b: char)
    requires |digits| > 0 && AllDigits(digits) && IsDigit(a) && IsDigit(b)
    ensures ParseUnsigned(digits, a, b) == Some(Hundredths(DigitsValue(digits), DigitValue(a), DigitValue(b)))
    ensures digits[0] != '-'
  {
  }

  /** `ParseFixed2` splits its input at the third character from the end. */
  lemma PointSplits(head: string, a: char, b: char)
    requires |head| > 0
    ensures ParseFixed2(head + "." + [a, b]) == ParseSigned(head, a, b)
  {
    var s := head + "." + [a, b];
    assert s[|s| - 3] == '.' && s[|s| - 2] == a && s[|s| - 1] == b;
    assert s[..|s| - 3] == head;
  }

  /** The margin text stored with an order: "0%" when the sale price is not
      positive, otherwise `(profit / price * 100).toFixed(2) + "%"`. */
  function MarginText(profit: real, price: real): (m: string)
    ensures |m| >= 2 && m[|m| - 1] == '%'
    ensures price <= 0.0 <==> m == "0%"
  {
    if price > 0.0 then Fixed2(profit / price * 100.0) + "%" else "0%"
  }

  /** The percentage a margin text denotes, or `None` when it is not a margin text. */
  function ParseMargin(m: string): Option<real> {
    if m == "0%" then Some(0.0)
    else if |m| > 0 && m[|m| - 1] == '%' then ParseFixed2(m[..|m| - 1])
    else None
  }

  /** Reading a margin text back gives the rounded percentage of profit over price,
      and 0 when the price is not positive. */
  lemma MarginDenotes(profit: real, price: real)
    ensures ParseMargin(MarginText(profit, price))
         == Some(if price > 0.0 then Round2(profit / price * 100.0) else 0.0)
  {
    if price > 0.0 {
      var f := Fixed2(profit / price * 100.0);
      assert |f + "%"| != |"0%"|;
      assert (f + "%")[..|f|] == f;
      Fixed2Denotes(profit / price * 100.0);
    }
  }
}
