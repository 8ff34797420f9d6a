/** Facts about sequences and division that several modules share. */
module Basics {

  lemma Associate<T>(a: seq<T>, b: seq<T>, c: seq<T>)
    ensures (a + b) + c == a + (b + c)
  {
  }

  /** A number has one quotient and one remainder. */
  lemma QuotientIs(k: nat, n: nat, q: nat, r: nat)
    requires n > 0 && r < n && k == q * n + r
    ensures k / n == q && k % n == r
  {
    var d := k / n - q;
    assert k == (k / n) * n + k % n;
    assert d * n == (k / n) * n - q * n;
    assert d >= 1 ==> d * n >= 1 * n;
    assert d <= -1 ==> d * n <= -1 * n;
  }

  lemma Distribute(x: nat, y: nat, z: nat)
    ensures (x + y) * z == x * z + y * z
  {
  }

  lemma Regroup(x: nat, y: nat, z: nat)
    ensures (x * y) * z == x * (z * y)
  {
  }

  lemma BelowProduct(s: nat, b: nat, a: nat)
    requires s < b
    ensures s * a + a <= a * b
  {
    Distribute(s, 1, a);
    var d := b - s - 1;
    Distribute(s + 1, d, a);
    assert (s + 1 + d) * a == a * b;
  }

  lemma TwoSteps(n: nat, a: nat, b: nat, c: nat, r: nat, q: nat, s: nat)
    requires r < a && s < b && n == c * a + r && c == q * b + s
    ensures a * b > 0 && n == q * (a * b) + (s * a + r) && s * a + r < a * b
  {
    Distribute(q * b, s, a);
    Regroup(q, b, a);
    BelowProduct(s, b, a);
  }

  /** Dividing by a and then by b is dividing by their product. */
  lemma DivideTwice(n: nat, a: nat, b: nat)
    requires a > 0 && b > 0
    ensures a * b > 0 && n / a / b == n / (a * b)
  {
    var c := n / a;
    TwoSteps(n, a, b, c, n % a, c / b, c % b);
    QuotientIs(n, a * b, c / b, c % b * a + n % a);
  }
}
