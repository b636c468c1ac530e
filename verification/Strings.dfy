/** Byte strings in the order sort.Strings gives them, and the decimal text strconv.Itoa gives a length. */
module Strings {
  import opened Sorting

  /** Bytewise lexicographic order. */
  predicate Less(a: string, b: string) {
    b != [] && (a == [] || a[0] < b[0] || (a[0] == b[0] && Less(a[1..], b[1..])))
  }

  lemma {:induction false} LessIsTotal(a: string, b: string)
    ensures Less(a, b) || a == b || Less(b, a)
  {
    if a != [] && b != [] && a[0] == b[0] {
      LessIsTotal(a[1..], b[1..]);
      assert a == [a[0]] + a[1..] && b == [b[0]] + b[1..];
    }
  }

  lemma {:induction false} LessIsStrict(a: string, b: string)
    requires Less(a, b)
    ensures a != b && !Less(b, a)
  {
    if a != [] && a[0] == b[0] {
      LessIsStrict(a[1..], b[1..]);
    }
  }

  lemma {:induction false} LessIsTransitive(a: string, b: string, c: string)
    requires Less(a, b) && Less(b, c)
    ensures Less(a, c)
  {
    if a != [] && a[0] == b[0] && b[0] == c[0] {
      LessIsTransitive(a[1..], b[1..], c[1..]);
    }
  }

  lemma LessIsStrictOrder()
    ensures Strict(Less)
  {
    forall a, b | Less(a, b) ensures !Less(b, a) {
      LessIsStrict(a, b);
    }
    forall a, b, c | Less(a, b) && Less(b, c) ensures Less(a, c) {
      LessIsTransitive(a, b, c);
    }
  }

  ghost predicate Ascending(s: seq<string>) {
    Sorted(s, Less)
  }

  /** Places x in an ascending sequence; a value already there is not repeated. */
  function Insert(x: string, s: seq<string>): (r: seq<string>)
    requires Ascending(s)
    ensures Ascending(r) && |r| == |s| + (if x in s then 0 else 1)
    ensures forall y :: y in r <==> y == x || y in s
  {
    if x in s then s
    else
      LessIsStrictOrder();
      assert forall y | y in s :: Less(x, y) || Less(y, x) by {
        forall y | y in s ensures Less(x, y) || Less(y, x) { LessIsTotal(x, y); }
      }
      InsertInOrder(x, s, Less)
  }

  /** The distinct elements of s in ascending order. */
  function SortDistinct(s: seq<string>): (r: seq<string>)
    ensures Ascending(r)
    ensures forall x :: x in r <==> x in s
  {
    if s == [] then [] else Insert(s[0], SortDistinct(s[1..]))
  }

  /** The ascending enumeration of a set. */
  ghost function SortedSet(s: set<string>): (r: seq<string>)
    ensures Ascending(r)
    ensures forall x :: x in r <==> x in s
    decreases |s|
  {
    if s == {} then [] else
      var x :| x in s;
      Insert(x, SortedSet(s - {x}))
  }

  lemma SortedSetIs(s: set<string>, r: seq<string>)
    requires Ascending(r)
    requires forall x :: x in r <==> x in s
    ensures r == SortedSet(s)
  {
    LessIsStrictOrder();
    SortedIsUnique(r, SortedSet(s), Less);
  }

  lemma {:induction false} AscendingSize(s: seq<string>, elements: set<string>)
    requires Ascending(s)
    requires forall x :: x in s <==> x in elements
    ensures |s| == |elements|
  {
    if s == [] {
      assert elements == {};
    } else {
      LessIsStrictOrder();
      SortedTail(s, Less);
      AscendingSize(s[1..], elements - {s[0]});
    }
  }

  predicate IsDigit(c: char) {
    '0' <= c <= '9'
  }

  function Digit(n: nat): (c: char)
    requires n < 10
    ensures IsDigit(c)
  {
    ('0' as int + n) as char
  }

  /** Decimal text without sign or leading zeros. */
  function Itoa(n: nat): (r: string)
    ensures r != [] && forall i :: 0 <= i < |r| ==> IsDigit(r[i])
  {
    if n < 10 then [Digit(n)] else Itoa(n / 10) + [Digit(n % 10)]
  }

  lemma {:induction false} ItoaIsInjective(m: nat, n: nat)
    requires Itoa(m) == Itoa(n)
    ensures m == n
  {
    var a, b := Itoa(m), Itoa(n);
    assert a[|a| - 1] == Digit(m % 10) && b[|b| - 1] == Digit(n % 10);
    if m >= 10 && n >= 10 {
      assert a[..|a| - 1] == Itoa(m / 10) && b[..|b| - 1] == Itoa(n / 10);
      ItoaIsInjective(m / 10, n / 10);
    }
  }

  /** A decimal number is delimited by the first character after it that is not a digit. */
  lemma {:induction false} DigitsAreDelimited(a: string, b: string, c: char, d: char, s: string, t: string)
    requires forall i :: 0 <= i < |a| ==> IsDigit(a[i])
    requires forall i :: 0 <= i < |b| ==> IsDigit(b[i])
    requires !IsDigit(c) && !IsDigit(d)
    requires a + [c] + s == b + [d] + t
    ensures a == b && c == d && s == t
  {
    var l, r := a + [c] + s, b + [d] + t;
    assert forall i :: 0 <= i < |a| ==> l[i] == a[i];
    assert forall i :: 0 <= i < |b| ==> r[i] == b[i];
    assert l[|a|] == c && r[|b|] == d;
    assert a == l[..|a|] && b == r[..|b|];
    assert s == l[|a| + 1..] && t == r[|b| + 1..];
  }

  lemma LengthPrefixIsDelimited(m: nat, n: nat, c: char, s: string, t: string)
    requires !IsDigit(c)
    requires Itoa(m) + [c] + s == Itoa(n) + [c] + t
    ensures m == n && s == t
  {
    DigitsAreDelimited(Itoa(m), Itoa(n), c, c, s, t);
    ItoaIsInjective(m, n);
  }

  /** A decimal number at the end is delimited by the last character before it that is not a digit. */
  lemma TrailingNumber(s: string, t: string, m: nat, n: nat)
    requires s != "" && !IsDigit(s[|s| - 1]) && t != "" && !IsDigit(t[|t| - 1])
    requires s + Itoa(m) == t + Itoa(n)
    ensures s == t && m == n
  {
    var l, r := s + Itoa(m), t + Itoa(n);
    assert l[|s| - 1] == s[|s| - 1] && r[|t| - 1] == t[|t| - 1];
    assert forall i | |s| <= i < |l| :: l[i] == Itoa(m)[i - |s|];
    assert forall i | |t| <= i < |r| :: r[i] == Itoa(n)[i - |t|];
    assert |s| == |t|;
    assert s == l[..|s|] && t == r[..|t|] && Itoa(m) == l[|s|..] && Itoa(n) == r[|t|..];
    ItoaIsInjective(m, n);
  }

  lemma SameEnd(s: string, t: string, end: string)
    requires s + end == t + end
    ensures s == t
  {
    assert s == (s + end)[..|s|] && t == (t + end)[..|t|];
  }
}
