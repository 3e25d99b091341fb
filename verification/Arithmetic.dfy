/** Facts about products and rests, kept apart from the proofs which use them. */
module Arithmetic {

  lemma {:induction false} ProductAtLeast(d: nat, k: nat)
    requires k >= 1
    ensures d * k >= d
  {
    if k > 1 {
      ProductAtLeast(d, k - 1);
      assert d * k == d * (k - 1) + d;
    }
  }

  lemma RestIsUnique(d: nat, q: nat, m: nat)
    requires m < d
    ensures (d * q + m) % d == m && (d * q + m) / d == q
  {
    var x := d * q + m;
    var p, r := x / d, x % d;
    assert x == d * p + r;
    assert d * (q - p) == d * q - d * p && d * (p - q) == d * p - d * q;
    if q > p {
      ProductAtLeast(d, q - p);
    } else if q < p {
      ProductAtLeast(d, p - q);
    }
  }

  lemma RestOfNext(d: nat, n: nat)
    requires d > 0
    ensures (n + 1) % d == if n % d == d - 1 then 0 else n % d + 1
  {
    var q, m := n / d, n % d;
    assert n == d * q + m;
    if m == d - 1 {
      assert d * (q + 1) == d * q + d;
      RestIsUnique(d, q + 1, 0);
    } else {
      RestIsUnique(d, q, m + 1);
    }
  }

  // ---- products of reals, each with a name of its own ----

  lemma SignOfProduct(d: real, p: real)
    requires p >= 0.0
    ensures d >= 0.0 ==> d * p >= 0.0
    ensures d <= 0.0 ==> d * p <= 0.0
    ensures d > 0.0 && p > 0.0 ==> d * p > 0.0
  {
  }

  lemma ProductGrows(a: real, b: real, p: real, ap: real, bp: real)
    requires a <= b && p >= 0.0 && ap == a * p && bp == b * p
    ensures ap <= bp
  {
    assert (b - a) * p == b * p - a * p;
  }

  lemma HalfMore(a: real, b: real, p: real, ap: real, bp: real)
    requires p >= 0.0 && ap == a * p && bp == b * p
    ensures a - b <= 0.5 ==> ap - bp <= 0.5 * p
    ensures a - b >= 0.5 ==> ap - bp >= 0.5 * p
  {
    assert (a - b - 0.5) * p == a * p - b * p - 0.5 * p;
  }

  lemma OneMore(a: real, b: real, p: real, ap: real, bp: real)
    requires p >= 0.0 && a - b >= 1.0 && ap == a * p && bp == b * p
    ensures ap - bp >= p
  {
    assert (a - b - 1.0) * p == a * p - b * p - p;
  }

  lemma UpToThousand(d: real, p: real, dp: real)
    requires 0.0 <= d <= 1000.0 && p >= 0.0 && dp == d * p
    ensures 0.0 <= dp <= 1000.0 * p
  {
    var e := 1000.0 - d;
    assert e * p == 1000.0 * p - d * p;
    SignOfProduct(d, p);
    SignOfProduct(e, p);
  }

  lemma QuotientTimes(x: real, p: real, q: real)
    requires p > 0.0 && q == x / p
    ensures q * p == x
  {
  }
}
