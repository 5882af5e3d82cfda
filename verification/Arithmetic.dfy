/** Division facts behind shifts by several positions. */
module Arithmetic {

  lemma {:induction false} TimesAtLeast(d: nat, k: nat)
    requires k >= 1
    ensures d * k >= d
  {}

  lemma {:induction false} QuotientIs(n: nat, d: nat, q: nat, r: nat)
    requires d > 0 && n == d * q + r && r < d
    ensures n / d == q
  {
    var q', r' := n / d, n % d;
    assert d * (q - q') == r' - r;
    if q > q' {
      TimesAtLeast(d, q - q');
    } else if q' > q {
      TimesAtLeast(d, q' - q);
    }
  }

  lemma {:induction false} Distribute(a: nat, b: nat, p: nat, s: nat)
    requires s < b
    ensures a * (b * p + s) == b * a * p + a * s
    ensures a * s <= a * b - a
  {
    assert a * b - a - a * s == a * (b - 1 - s);
  }

  lemma {:induction false} Recombine(n: nat, a: nat, b: nat, p: nat, s: nat, r: nat)
    requires n == a * (b * p + s) + r && r < a && s < b
    ensures n == b * a * p + (a * s + r) && a * s + r < b * a
  {
    Distribute(a, b, p, s);
  }

  lemma {:induction false} Split(n: nat, d: nat)
    requires d > 0
    ensures n == d * (n / d) + n % d && n % d < d
  {}

  /** Dividing twice is dividing by the product. */
  lemma {:induction false} DivideAgain(n: nat, a: nat, b: nat)
    requires a > 0 && b > 0
    ensures b * a > 0 && n / (b * a) == n / a / b
  {
    TimesAtLeast(b, a);
    Split(n, a);
    Split(n / a, b);
    var p, s := n / a / b, n / a % b;
    Recombine(n, a, b, p, s, n % a);
    QuotientIs(n, b * a, p, a * s + n % a);
  }
}
