/** Quotients and remainders by repeated subtraction and by shifting. */
module Division {

  /** A decomposition with a small remainder is the division. */
  lemma DivisionUnique(n: nat, d: nat, q: nat, r: nat)
    requires q * d + r == n && r < d
    ensures n / d == q && n % d == r
  {
    var q', r' := n / d, n % d;
    assert q' * d + r' == n && 0 <= r' < d;
    Closer(q, q', d, r, r');
    Closer(q', q, d, r', r);
  }

  lemma Closer(p: nat, q: nat, d: nat, r: nat, r': nat)
    requires p * d + r == q * d + r' && r < d && r' < d
    ensures p >= q
  {
    assert (p + 1) * d == p * d + d;
    if p < q {
      Grows(p + 1, q, d);
    }
  }

  lemma Grows(p: nat, q: nat, d: nat)
    requires p <= q
    ensures p * d <= q * d
  {
  }

  /** A number shifted left without losing bits. */
  function Shifted(d: nat, k: nat): (r: nat)
    ensures d > 0 ==> r > 0
  {
    if k == 0 then d else 2 * Shifted(d, k - 1)
  }

  lemma ShiftedOnce(d: nat, k: nat)
    ensures Shifted(d, 0) == d
    ensures Shifted(d, k + 1) == 2 * Shifted(d, k)
  {
  }

  /** A partial quotient: so many steps and a rest smaller than one. */
  predicate Split(q: nat, step: nat, x: nat, n: nat) { q * step + x == n && x < step }

  lemma SplitStart(step: nat, n: nat)
    requires n < step
    ensures Split(0, step, n, n)
  {
  }

  /** One more bit of the quotient, with half the step. */
  lemma SplitHalved(q: nat, step: nat, half: nat, x: nat, n: nat)
    requires Split(q, step, x, n) && step == 2 * half && n < 0x1_0000
    ensures x >= half ==> Split(q * 2 + 1, half, x - half, n) && q * 2 + 1 < 0x1_0000
    ensures x < half ==> Split(q * 2, half, x, n) && q * 2 < 0x1_0000
  {
    assert q * step == q * 2 * half;
    assert (q * 2 + 1) * half == q * 2 * half + half;
    AtLeast(q * 2, half);
    AtLeast(q * 2 + 1, half);
  }

  lemma NoBitLost(q: nat)
    requires q < 0x1_0000
    ensures q % 0x1_0000 == q
  {
  }

  lemma HalfOfTwice(s: nat)
    ensures 2 * s / 2 == s
  {
  }

  lemma AtLeast(q: nat, h: nat)
    requires h > 0
    ensures q <= q * h
  {
  }

  lemma SplitEnd(q: nat, d: nat, x: nat, n: nat)
    requires Split(q, d, x, n)
    ensures n / d == q && n % d == x
  {
    DivisionUnique(n, d, q, x);
  }
}
