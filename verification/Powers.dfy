/** Powers of two and division with remainder. */
module Powers {

  function Pow2(k: nat): (p: nat)
    ensures p > 0
  {
    if k == 0 then 1 else 2 * Pow2(k - 1)
  }

  lemma {:induction false} Pow2Grows(i: nat, j: nat)
    requires i <= j
    ensures Pow2(i) <= Pow2(j)
    decreases j
  {
    if i < j {
      Pow2Grows(i, j - 1);
    }
  }

  lemma DivTwice(a: nat, d: nat)
    requires d > 0
    ensures a / (2 * d) == a / d / 2
  {
    var q, r := a / d, a % d;
    assert a == q * d + r;
    var h, b := q / 2, q % 2;
    assert a == h * (2 * d) + (b * d + r) by {
      assert q == 2 * h + b;
      assert q * d == 2 * h * d + b * d;
    }
    Quotient(a, 2 * d, h, b * d + r);
  }

  lemma ModTwice(q: nat, p: nat)
    requires p > 0
    ensures q % (2 * p) == 2 * (q / 2 % p) + q % 2
  {
    var h := q / 2;
    var c, m := h / p, h % p;
    assert h == c * p + m;
    assert q == c * (2 * p) + (2 * m + q % 2);
    Quotient(q, 2 * p, c, 2 * m + q % 2);
  }

  /** Division with remainder is unique. */
  lemma Quotient(a: nat, d: nat, q: nat, r: nat)
    requires d > 0 && r < d && a == q * d + r
    ensures a / d == q && a % d == r
  {
    var q', r' := a / d, a % d;
    assert a == q' * d + r';
    if q < q' {
      TimesGrows(q + 1, q', d);
    } else if q' < q {
      TimesGrows(q' + 1, q, d);
    }
  }

  lemma TimesGrows(a: int, b: int, d: nat)
    requires a <= b
    ensures a * d <= b * d
  {
    assert b * d == a * d + (b - a) * d;
  }
}
