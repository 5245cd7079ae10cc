/** Facts about products, quotients and finite sets that the solver needs in pieces. */
module Arith {

  function Min(a: nat, b: nat): nat { if a < b then a else b }

  function Max(a: int, b: int): int { if a < b then b else a }

  lemma MultipleOrder(s: nat, t: nat, u: nat)
    requires s <= t
    ensures s * u <= t * u
  {
    assert t * u == s * u + (t - s) * u;
    assert (t - s) * u >= 0;
  }

  lemma QuotientAtLeast(c: nat, u: nat, n: nat)
    requires u > 0 && c * u <= n
    ensures c <= n / u
  {
    var q := n / u;
    assert n < (q + 1) * u;
    if q < c { MultipleOrder(q + 1, c, u); }
  }

  lemma QuotientIs(n: nat, q: nat, m: nat, u: nat)
    requires m < u && n == q * u + m
    ensures n / u == q && n % u == m
  {
    QuotientAtLeast(q, u, n);
    var p := n / u;
    assert n == p * u + n % u;
    MultipleOrder(if p > q then q + 1 else p, p, u);
    assert (q + 1) * u == q * u + u;
  }

  lemma QuotientExact(q: nat, u: nat)
    requires u > 0
    ensures q * u / u == q
  {
    QuotientIs(q * u, q, 0, u);
  }

  /** A quotient taken in two steps, the first by 256. */
  lemma QuotientTwice(n: nat, b: nat)
    requires b > 0
    ensures n / 256 / b == n / (256 * b)
  {
    var r := n / 256;
    var q, c := r / b, r % b;
    assert r == q * b + c;
    assert q * (256 * b) == 256 * (q * b);
    QuotientIs(n, q, 256 * c + n % 256, 256 * b);
  }

  lemma {:induction false} SubsetCount(a: set<nat>, b: set<nat>)
    requires a <= b
    ensures |a| <= |b|
  {
    if a != {} {
      var x :| x in a;
      SubsetCount(a - {x}, b - {x});
    }
  }
}
