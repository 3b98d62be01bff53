/** Quotients and remainders by a variable divisor, which the solver does not know. */
module Division {
  lemma Distribute(a: int, b: int, m: int)
    ensures (a + b) * m == a * m + b * m
  {
  }

  lemma Euclid(m: nat, q: nat, r: nat, p: nat, s: nat)
    requires r < m && s < m && q * m + r == p * m + s
    ensures q == p && r == s
  {
    if q < p {
      Distribute(q, p - q, m);
    } else if p < q {
      Distribute(p, q - p, m);
    }
  }

  lemma DivModUnique(n: nat, m: nat, q: nat, r: nat)
    requires m > 0 && r < m && n == q * m + r
    ensures n / m == q && n % m == r
  {
    var p, s := n / m, n % m;
    assert n == p * m + s && s < m;
    Euclid(m, q, r, p, s);
  }
}
