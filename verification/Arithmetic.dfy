/** Products and remainders with variable factors. */
module Arithmetic {
  lemma Remainder(v: nat, m: nat, a: nat, r: nat)
    requires v == m * a + r && r < m
    ensures v % m == r && v / m == a
  {
    var b, s := v / m, v % m;
    assert v == m * b + s;
    Quotient(a, b, m);
    Quotient(b, a, m);
  }

  lemma Quotient(a: nat, b: nat, m: nat)
    requires m * a < m * b + m
    ensures a <= b
  {
    if a > b { Times(b + 1, a, m); }
  }

  lemma Times(a: nat, b: nat, m: nat)
    requires a <= b
    ensures m * a <= m * b
  {
  }

  /** Item `q` of group `i`, in groups of `size`. */
  lemma Position(i: nat, q: nat, size: nat, n: nat)
    requires q < size && i < n
    ensures (i * size + q) / size == i && (i * size + q) % size == q && i * size + size <= n * size
  {
    Remainder(i * size + q, size, i, q);
    Times(i + 1, n, size);
  }
}
