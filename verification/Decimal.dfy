/** Decimal text of line numbers and counts: strconv.Itoa and strconv.Atoi. */
module Decimal {
  import opened Wrappers

  function Digit(d: nat): char
    requires d < 10
  {
    (d + 48) as char
  }

  predicate IsDigit(c: char) {
    '0' <= c <= '9'
  }

  predicate AllDigits(s: string) {
    forall i :: 0 <= i < |s| ==> IsDigit(s[i])
  }

  function Itoa(n: nat): (s: string)
    ensures s != [] && AllDigits(s)
  {
    if n < 10 then [Digit(n)] else Itoa(n / 10) + [Digit(n % 10)]
  }

  function DigitsValue(s: string): nat
    requires AllDigits(s)
  {
    if s == [] then 0 else 10 * DigitsValue(s[..|s| - 1]) + (s[|s| - 1] as int - '0' as int)
  }

  /** An optional sign and at least one digit; everything else is a syntax error. */
  function Atoi(s: string): Option<int> {
    var signed := s != [] && (s[0] == '+' || s[0] == '-');
    var body := if signed then s[1..] else s;
    if body == [] || !AllDigits(body) then None
    else if s[0] == '-' then Some(0 - (DigitsValue(body) as int))
    else Some(DigitsValue(body))
  }

  lemma {:induction false} ValueOfItoa(n: nat)
    ensures DigitsValue(Itoa(n)) == n
  {
    if n >= 10 {
      ValueOfItoa(n / 10);
      assert Itoa(n)[..|Itoa(n)| - 1] == Itoa(n / 10);
    }
  }

  lemma AtoiOfItoa(n: nat)
    ensures Atoi(Itoa(n)) == Some(n)
  {
    ValueOfItoa(n);
  }

  /** Whatever Atoi accepts holds no colon, so the number after the last colon of a line is unambiguous. */
  lemma NumbersHoldNoColon(s: string)
    requires Atoi(s).Some?
    ensures ':' !in s
  {
    forall i | 0 <= i < |s| ensures s[i] != ':' {
      if i > 0 && (s[0] == '+' || s[0] == '-') {
        assert IsDigit(s[1..][i - 1]);
      }
    }
  }

  function Pow10(k: nat): (p: nat)
    ensures p > 0
  {
    if k == 0 then 1 else 10 * Pow10(k - 1)
  }

  lemma {:induction false} ItoaLength(n: nat, k: nat)
    requires k > 0 && n < Pow10(k)
    ensures |Itoa(n)| <= k
  {
    if n >= 10 {
      ItoaLength(n / 10, k - 1);
    }
  }

  lemma AtLeastOne(d: nat, k: int)
    ensures (k > 0 ==> d * k >= d) && (k < 0 ==> d * k + d <= 0)
  {
  }

  lemma DivisionIs(n: nat, d: nat, q: nat, r: nat)
    requires n == d * q + r && r < d
    ensures n / d == q
  {
    var k: int := n / d - q;
    assert n == d * (n / d) + n % d;
    assert d * (n / d) - d * q == d * k;
    AtLeastOne(d, k);
  }

  lemma DivideTwice(n: nat, p: nat)
    requires p > 0
    ensures n / (10 * p) == n / 10 / p
  {
    var q := n / 10;
    var a, b := q / p, q % p;
    assert q == p * a + b && b <= p - 1;
    assert 10 * (p * a) == 10 * p * a;
    assert n == 10 * p * a + (10 * b + n % 10) && 10 * b + n % 10 < 10 * p;
    DivisionIs(n, 10 * p, a, 10 * b + n % 10);
  }

  /** Itoa is decimal notation: digit by digit the number's own, the highest first, with no zero in front. */
  lemma {:induction false} ItoaIsDecimal(n: nat)
    ensures var s := Itoa(n);
      && (forall i :: 0 <= i < |s| ==> s[i] == Digit(n / Pow10(|s| - 1 - i) % 10))
      && (n > 0 ==> s[0] != '0')
  {
    if n >= 10 {
      ItoaIsDecimal(n / 10);
      var s, front := Itoa(n), Itoa(n / 10);
      forall i | 0 <= i < |s| ensures s[i] == Digit(n / Pow10(|s| - 1 - i) % 10) {
        if i < |front| {
          DivideTwice(n, Pow10(|front| - 1 - i));
        }
      }
    }
  }

  const MAX_INT: int := 0x7FFF_FFFF_FFFF_FFFF

  /** A line number that fits Go's 64-bit int has at most nineteen digits. */
  lemma IntDigits(n: nat)
    requires n <= MAX_INT
    ensures |Itoa(n)| <= 19
  {
    assert Pow10(5) == 100000;
    assert Pow10(10) == 100000 * Pow10(5);
    assert Pow10(15) == 100000 * Pow10(10);
    assert Pow10(19) == 10000 * Pow10(15);
    ItoaLength(n, 19);
  }
}
