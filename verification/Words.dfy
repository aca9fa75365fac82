/**
 Machine words. Masks by a run of low or high one bits are written as
 remainders and quotients by powers of two.
 */
module Words {

  const TWO_32: nat := 0x1_0000_0000

  /* A 32-bit word. */
  type word = x: int | 0 <= x < TWO_32

  type byte = x: int | 0 <= x < 256

  const PAGE: nat := 4096

  function PageOf(v: word): word {
    v - v % PAGE
  }

  // ------------------------------------------------------------------
  // Quotients

  lemma DivideTwice(v: nat, m: nat, n: nat, x: nat, y: nat, r: nat)
    requires m > 0 && n > 0 && v == m * x + r && r < m && x == n * y + x % n
    ensures v / (m * n) == y
  {
    assert v == m * n * y + (m * (x % n) + r) by {
      assert m * (n * y + x % n) == m * n * y + m * (x % n);
    }
    assert m * (x % n) + r < m * n by {
      assert m * (x % n) <= m * (n - 1) == m * n - m;
    }
    Quotient(v, m * n, y, m * (x % n) + r);
  }

  lemma Quotient(v: nat, m: nat, q: nat, r: nat)
    requires m > 0 && v == m * q + r && r < m
    ensures v / m == q && v % m == r
  {
    var d: int := v / m - q;
    assert m * (v / m - q) == m * (v / m) - m * q;
    if d != 0 {
      Apart(m, d);
    }
  }

  lemma Apart(m: int, d: int)
    requires m > 0 && d != 0
    ensures m * d >= m || m * d <= -m
  {
  }

  /* A boundary between pages. */
  lemma PageWithin(p: word, k: nat)
    ensures p < k * PAGE <==> PageOf(p) < k * PAGE
    ensures PageOf(p) < k * PAGE <==> PageOf(p) + PAGE <= k * PAGE
  {
    var q := p / PAGE;
    assert p == PAGE * q + p % PAGE && PageOf(p) == PAGE * q;
    if q < k { assert PAGE * (q + 1) <= PAGE * k; } else { assert PAGE * k <= PAGE * q; }
  }

  /* Bit by bit. */
  lemma Halved(v: nat)
    ensures v == 2 * (v / 2) + v % 2
    ensures v / 4 == v / 2 / 2 && v / 8 == v / 4 / 2 && v / 16 == v / 8 / 2 && v / 32 == v / 16 / 2
        && v / 64 == v / 32 / 2
  {
    DivideTwice(v, 2, 2, v / 2, v / 2 / 2, v % 2);
    DivideTwice(v, 4, 2, v / 4, v / 4 / 2, v % 4);
    DivideTwice(v, 8, 2, v / 8, v / 8 / 2, v % 8);
    DivideTwice(v, 16, 2, v / 16, v / 16 / 2, v % 16);
    DivideTwice(v, 32, 2, v / 32, v / 32 / 2, v % 32);
  }

  lemma FourBits(n: nat)
    ensures n % 16 == n % 2 + 2 * (n / 2 % 2) + 4 * (n / 4 % 2) + 8 * (n / 8 % 2)
  {
    Halved(n);
    var a, b, c, d := n / 2, n / 4, n / 8, n / 16;
    assert n == 2 * a + n % 2 && a == 2 * b + a % 2 && b == 2 * c + b % 2 && c == 2 * d + c % 2;
  }
}
