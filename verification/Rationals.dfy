/** Exact rationals as math/big keeps them: lowest terms, positive denominator. */
module Rationals {
  import opened Strings

  datatype Rat = Rat(num: int, den: int) {
    ghost predicate Normal() {
      den > 0 && forall k: int :: k > 1 && Divides(k, num) ==> !Divides(k, den)
    }

    /** Cmp == 0, by cross multiplication. */
    predicate Same(other: Rat) {
      num * other.den == other.num * den
    }

    /** Cmp < 0, by cross multiplication. */
    predicate Below(other: Rat) {
      num * other.den < other.num * den
    }

    predicate IsInteger() {
      den == 1
    }

    /** The quotient has denominator one. */
    predicate IsMultipleOf(factor: Rat)
      requires factor.num > 0 && den > 0
    {
      (num * factor.den) % (den * factor.num) == 0
    }
  }

  ghost predicate Divides(k: int, n: int)
    requires k > 0
  {
    n % k == 0
  }

  type Rational = r: Rat | r.Normal() witness Rat(0, 1)

  lemma ProductIsAtLeast(k: int, x: int)
    requires k > 0
    ensures x >= 1 ==> k * x >= k
    ensures x <= -1 ==> k * x <= -k
  {
  }

  lemma CrossDifference(a: int, b: int, c: int, d: int)
    requires a * d == c * b
    ensures a * (d - b) == (c - a) * b
  {
  }

  lemma SumOfMultiples(g: int, k: int, p: int)
    ensures (g + k) * p == g * p + k * p
  {
  }

  lemma EqualDenominators(a: int, c: int, d: int)
    requires d > 0 && a * d == c * d
    ensures a == c
  {
    assert d * (a - c) == 0;
    ProductIsAtLeast(d, a - c);
  }

  /** Equal fractions are common multiples of one fraction p/q. */
  lemma {:induction false} CommonFraction(a: int, b: int, c: int, d: int) returns (p: int, q: int, g: int, h: int)
    requires b > 0 && d > 0 && a * d == c * b
    ensures q > 0 && g > 0 && h > 0
    ensures a == g * p && b == g * q && c == h * p && d == h * q
    decreases b + d
  {
    if b == d {
      EqualDenominators(a, c, d);
      p, q, g, h := a, b, 1, 1;
    } else if b < d {
      CrossDifference(a, b, c, d);
      var k;
      p, q, g, k := CommonFraction(a, b, c - a, d - b);
      h := g + k;
      SumOfMultiples(g, k, p);
      SumOfMultiples(g, k, q);
    } else {
      CrossDifference(c, d, a, b);
      var k;
      p, q, k, h := CommonFraction(a - c, b - d, c, d);
      g := h + k;
      SumOfMultiples(h, k, p);
      SumOfMultiples(h, k, q);
    }
  }

  lemma MultipleIsDivided(k: int, m: int)
    requires k > 0
    ensures Divides(k, k * m)
  {
    var r := (k * m) % k;
    var t := (k * m) / k;
    assert k * m == k * t + r && 0 <= r < k;
    assert k * (m - t) == r;
    ProductIsAtLeast(k, m - t);
  }

  /** Two rationals in lowest terms compare equal only when they are the same pair. */
  lemma SameIsEqual(x: Rational, y: Rational)
    requires x.Same(y)
    ensures x == y
  {
    var p, q, g, h := CommonFraction(x.num, x.den, y.num, y.den);
    MultipleIsDivided(g, p);
    MultipleIsDivided(g, q);
    MultipleIsDivided(h, p);
    MultipleIsDivided(h, q);
    assert g == 1 && h == 1;
  }

  function SignedText(n: int): string {
    if n < 0 then "-" + Itoa(-n) else Itoa(n)
  }

  /** big.Rat's RatString: the numerator alone when the value is an integer. */
  function RatString(r: Rational): string {
    if r.den == 1 then SignedText(r.num) else SignedText(r.num) + "/" + Itoa(r.den)
  }

  lemma ItoaIsDelimited(m: nat, n: nat, s: string, t: string)
    requires s == [] || s[0] == '/'
    requires t == [] || t[0] == '/'
    requires Itoa(m) + s == Itoa(n) + t
    ensures m == n && s == t
  {
    var u, v := s + "/", t + "/";
    assert u == ['/'] + u[1..] && v == ['/'] + v[1..];
    assert Itoa(m) + ['/'] + u[1..] == (Itoa(m) + s) + "/";
    assert Itoa(n) + ['/'] + v[1..] == (Itoa(n) + t) + "/";
    LengthPrefixIsDelimited(m, n, '/', u[1..], v[1..]);
    assert s == u[..|u| - 1] && t == v[..|v| - 1];
  }

  lemma SignIsFirst(n: int)
    ensures SignedText(n) != [] && (SignedText(n)[0] == '-' <==> n < 0)
    ensures SignedText(n) == if n < 0 then ['-'] + Itoa(-n) else Itoa(n)
  {
    assert !IsDigit('-');
    if n >= 0 {
      assert IsDigit(Itoa(n)[0]);
    }
  }

  lemma NegativesAreDelimited(m: nat, n: nat, s: string, t: string)
    requires s == [] || s[0] == '/'
    requires t == [] || t[0] == '/'
    requires "-" + Itoa(m) + s == "-" + Itoa(n) + t
    ensures m == n && s == t
  {
    SignIsCut(Itoa(m), Itoa(n), s, t);
    ItoaIsDelimited(m, n, s, t);
  }

  lemma SignedTextIsDelimited(m: int, n: int, s: string, t: string)
    requires s == [] || s[0] == '/'
    requires t == [] || t[0] == '/'
    requires SignedText(m) + s == SignedText(n) + t
    ensures m == n && s == t
  {
    SignsAgree(m, n, s, t);
    if m < 0 {
      NegativesAreDelimited(-m, -n, s, t);
    } else {
      ItoaIsDelimited(m, n, s, t);
    }
  }

  lemma SignsAgree(m: int, n: int, s: string, t: string)
    requires SignedText(m) + s == SignedText(n) + t
    ensures m < 0 <==> n < 0
  {
    SignIsFirst(m);
    SignIsFirst(n);
    assert (SignedText(m) + s)[0] == SignedText(m)[0] && (SignedText(n) + t)[0] == SignedText(n)[0];
  }

  lemma SignIsCut(a: string, b: string, s: string, t: string)
    requires ['-'] + a + s == ['-'] + b + t
    ensures a + s == b + t
  {
    assert (['-'] + a + s)[1..] == a + s && (['-'] + b + t)[1..] == b + t;
  }

  lemma RatStringIsInjective(x: Rational, y: Rational)
    requires RatString(x) == RatString(y)
    ensures x == y
  {
    var s := if x.den == 1 then "" else "/" + Itoa(x.den);
    var t := if y.den == 1 then "" else "/" + Itoa(y.den);
    assert RatString(x) == SignedText(x.num) + s && RatString(y) == SignedText(y.num) + t;
    SignedTextIsDelimited(x.num, y.num, s, t);
    if x.den != 1 && y.den != 1 {
      assert Itoa(x.den) == s[1..] && Itoa(y.den) == t[1..];
      ItoaIsInjective(x.den, y.den);
    }
  }
}
