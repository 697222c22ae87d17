/** The few facts about division that the solver does not find by itself. */
module Arith {
  lemma DivUnique(x: int, q: int, r: int, c: int)
    requires x == q * c + r && 0 <= r < c
    ensures x / c == q && x % c == r
  {
    var d := q - x / c;
    assert d * c == x % c - r by {
      assert d * c == q * c - (x / c) * c;
    }
    assert d >= 1 ==> d * c >= c;
    assert d <= -1 ==> d * c <= -c;
  }

  lemma ModAdd(y: int, n: int, c: int)
    requires c > 0
    ensures (y + n * c) % c == y % c
  {
    assert (y / c + n) * c == (y / c) * c + n * c;
    DivUnique(y + n * c, y / c + n, y % c, c);
  }

  // Reducing modulo a multiple of c does not change the residue modulo c.
  lemma ModMod(x: int, m: int, c: int)
    requires c > 0 && m > 0 && m % c == 0
    ensures (x % m) % c == x % c
  {
    var k := m / c;
    assert x == x % m + (x / m) * m;
    assert (x / m) * m == (x / m * k) * c by {
      assert m == k * c;
      Assoc(x / m, k, c);
    }
    ModAdd(x % m, x / m * k, c);
  }

  lemma Division(x: nat, d: nat) returns (q: nat, r: nat)
    requires d > 0
    ensures x == q * d + r && r < d && r == x % d && q == x / d
  {
    r := x % d;
    var k := x / d;
    assert x == k * d + r;
    assert k < 0 ==> k * d <= 0 - d;
    q := k;
  }

  lemma MultipleMod(m: int, c: int)
    requires c > 0
    ensures (m * c) % c == 0
  {
    DivUnique(m * c, m, 0, c);
  }

  lemma Assoc(a: int, b: int, c: int)
    ensures a * (b * c) == (a * b) * c
  {
  }
}
