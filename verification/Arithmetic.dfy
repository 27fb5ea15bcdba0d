/** Facts about products and remainders that the solver needs one at a time. */
module Arithmetic {

  lemma ProductOfNats(x: int, y: int)
    requires 0 <= x && 0 <= y
    ensures 0 <= x * y
  {}

  lemma MultipleIsLarge(lot: int, d: int)
    requires 1 <= lot && 1 <= d
    ensures lot <= d * lot
  {
    assert d * lot == lot + (d - 1) * lot;
    ProductOfNats(d - 1, lot);
  }

  // Quotient and remainder are determined by their sum.
  lemma DivisionIsUnique(lot: int, q: int, r: int, q': int, r': int)
    requires 1 <= lot && 0 <= r < lot && 0 <= r' < lot && q * lot + r == q' * lot + r'
    ensures q == q' && r == r'
  {
    assert (q - q') * lot == r' - r;
    assert (q' - q) * lot == r - r';
    if q > q' { MultipleIsLarge(lot, q - q'); }
    if q < q' { MultipleIsLarge(lot, q' - q); }
  }

  lemma SmallRemainder(x: int, m: int)
    requires 0 <= x < m
    ensures x % m == x
  {
    DivisionIsUnique(m, x / m, x % m, 0, x);
  }

  lemma RemainderWraps(x: int, m: int)
    requires 0 < m
    ensures (x + m) % m == x % m
  {
    var q := (x + m) / m;
    assert (q - 1) * m == q * m - m;
    DivisionIsUnique(m, q - 1, (x + m) % m, x / m, x % m);
  }

  // Numbers less than m apart have different remainders.
  lemma RemaindersDiffer(x: int, y: int, m: int)
    requires x < y < x + m
    ensures x % m != y % m
  {
    var d := y / m - x / m;
    assert y - x == d * m + (y % m - x % m);
    if x % m == y % m && 1 <= d { MultipleIsLarge(m, d); }
    if x % m == y % m && d < 0 { MultipleIsLarge(m, -d); }
  }
}
