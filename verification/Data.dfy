/** Values every other module shares: bytes, optional values, results, decimal text. */
module Data {

  newtype byte = x: int | 0 <= x < 256

  type Bytes = seq<byte>

  datatype Option<+T> = None | Some(value: T)

  datatype Result<+T, +E> = Ok(value: T) | Err(error: E)

  /** The bytes of a text whose characters are below 256 (JSON headers and constants here are ASCII). */
  function TextBytes(s: string): (b: Bytes)
    ensures |b| == |s|
  {
    seq(|s|, i requires 0 <= i < |s| => (s[i] as int % 256) as byte)
  }

  // ---------------------------------------------------------------- decimal text

  predicate IsDigit(c: char) {
    '0' <= c <= '9'
  }

  function Decimal(n: nat): (s: string)
    ensures |s| > 0
    ensures forall i | 0 <= i < |s| :: IsDigit(s[i])
  {
    var last := ['0' + (n % 10) as char];
    if n < 10 then last else Decimal(n / 10) + last
  }

  lemma {:induction false} DecimalInjective(m: nat, n: nat)
    requires Decimal(m) == Decimal(n)
    ensures m == n
  {
    var s, t := Decimal(m), Decimal(n);
    assert s[|s| - 1] == '0' + (m % 10) as char && t[|t| - 1] == '0' + (n % 10) as char;
    assert m % 10 == n % 10;
    if m < 10 || n < 10 {
    } else {
      assert s[..|s| - 1] == Decimal(m / 10) && t[..|t| - 1] == Decimal(n / 10);
      DecimalInjective(m / 10, n / 10);
    }
  }

  function Pow10(n: nat): (p: nat)
    ensures p > 0
  {
    if n == 0 then 1 else 10 * Pow10(n - 1)
  }

  /** A character is the digit of its power of ten. */
  predicate DigitAt(n: nat, s: string, i: nat)
    requires i < |s|
  {
    s[i] as int - '0' as int == n / Pow10(|s| - 1 - i) % 10
  }

  lemma OneDigitMore(n: nat, p: nat)
    requires p > 0
    ensures n / (10 * p) == n / 10 / p
    ensures n / 10 < p <==> n < 10 * p
  {
    var q, r := n / 10 / p, n / 10 % p;
    assert n / 10 == q * p + r;
    assert n == q * (10 * p) + (10 * r + n % 10);
    QuotientIs(n, 10 * p, q, 10 * r + n % 10);
  }

  lemma MultiplesApart(d: nat, e: nat, q: nat)
    ensures e < q ==> (e + 1) * d <= q * d
  {
    if e < q {
      assert q * d == (e + 1) * d + (q - e - 1) * d;
    }
  }

  lemma QuotientIs(n: nat, d: nat, q: nat, r: nat)
    requires d > 0 && n == q * d + r && r < d
    ensures n / d == q
  {
    var e := n / d;
    assert n == e * d + n % d;
    MultiplesApart(d, e, q);
    MultiplesApart(d, q, e);
  }

  /** Appending the last digit moves the others one power of ten up. */
  lemma DigitsMove(n: nat, front: string)
    requires forall i | 0 <= i < |front| :: DigitAt(n / 10, front, i)
    ensures var s := front + ['0' + (n % 10) as char]; forall i | 0 <= i < |s| :: DigitAt(n, s, i)
  {
    var s := front + ['0' + (n % 10) as char];
    forall i | 0 <= i < |s| ensures DigitAt(n, s, i) {
      if i < |front| {
        assert s[i] == front[i] && DigitAt(n / 10, front, i);
        OneDigitMore(n, Pow10(|front| - 1 - i));
      } else {
        assert Pow10(0) == 1;
      }
    }
  }

  /** Decimal text: every character is the digit of its place, all digits are there and there is no zero in front. */
  lemma {:induction false} DecimalDigits(n: nat)
    ensures var s := Decimal(n);
      && n < Pow10(|s|) && (|s| > 1 ==> s[0] != '0')
      && forall i | 0 <= i < |s| :: DigitAt(n, s, i)
  {
    if n < 10 {
      DigitsMove(n, "");
      assert Pow10(1) == 10;
    } else {
      var front := Decimal(n / 10);
      DecimalDigits(n / 10);
      DigitsMove(n, front);
      OneDigitMore(n, Pow10(|front|));
      NotZero(n / 10, front);
    }
  }

  lemma NotZero(n: nat, s: string)
    requires n > 0 && s != "" && n < Pow10(|s|) && DigitAt(n, s, 0) && (|s| > 1 ==> s[0] != '0')
    ensures s[0] != '0'
  {
    assert Pow10(1) == 10 && Pow10(0) == 1;
  }

  /** A sign in front of a negative number's digits. */
  function Integer(n: int): (s: string)
    ensures |s| > 0
  {
    if n < 0 then "-" + Decimal(-n) else Decimal(n)
  }

  // ---------------------------------------------------------------- splitting text at a separator

  /** Text up to the first separator is determined by the whole. */
  lemma SplitUnique(a: string, x: char, c: string, b: string, d: string)
    requires x !in a && x !in b
    requires a + [x] + c == b + [x] + d
    ensures a == b && c == d
  {
    var s, t := a + [x] + c, b + [x] + d;
    assert s[|a|] == x && t[|b|] == x;
    assert forall i | 0 <= i < |a| :: s[i] == a[i];
    assert forall i | 0 <= i < |b| :: t[i] == b[i];
    assert |a| == |b|;
    assert s[..|a|] == a && t[..|b|] == b;
    assert s[|a| + 1..] == c && t[|b| + 1..] == d;
  }
}
