/** Quotients and remainders. */
module Division {

  lemma AtLeastOne(k: int, d: nat)
    requires k >= 1
    ensures k * d >= d
  {
  }

  lemma QuotientIs(k: nat, d: nat, l: nat)
    requires l < d
    ensures (k * d + l) / d == k && (k * d + l) % d == l
  {
    var q, r := (k * d + l) / d, (k * d + l) % d;
    assert k * d + l == q * d + r;
    assert (k - q) * d == r - l;
    if k > q {
      AtLeastOne(k - q, d);
    } else if q > k {
      AtLeastOne(q - k, d);
    }
  }
}
