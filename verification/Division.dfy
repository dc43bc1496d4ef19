/** Division by an unknown number. */
module Division {
  lemma MultipleIsFar(d: int, round: nat)
    ensures d >= 1 ==> d * round >= round
    ensures d <= -1 ==> d * round + round <= 0
  {
  }

  lemma Quotient(q: nat, r: nat, round: nat)
    requires r < round
    ensures (q * round + r) / round == q && (q * round + r) % round == r
  {
    var n := q * round + r;
    var d: int := n / round - q;
    assert d * round == r - n % round;
    MultipleIsFar(d, round);
  }

  /** Dividing by two numbers, one after the other. */
  lemma DividedTwice(n: nat, a: nat, b: nat)
    requires a > 0 && b > 0
    ensures n / a / b == n / (a * b)
  {
    var q, r, s := n / a / b, n / a % b, n % a;
    assert n == a * (b * q + r) + s;
    Spread(a, b, q, r);
    RemainderFits(a, b, r, s);
    Quotient(q, a * r + s, a * b);
  }

  lemma Spread(a: nat, b: nat, q: nat, r: nat)
    ensures a * (b * q + r) == q * (a * b) + a * r
  {
  }

  lemma RemainderFits(a: nat, b: nat, r: nat, s: nat)
    requires r < b && s < a
    ensures a * r + s < a * b
  {
    assert a * (r + 1) <= a * b;
  }
}
