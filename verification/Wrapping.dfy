/** Counters that wrap around, and places in rings that they count. */
module Wrapping {

  lemma {:induction false} MulAtLeast(x: int, b: int)
    requires 1 <= x && 0 <= b
    ensures b <= x * b
  {
    assert x * b == (x - 1) * b + b;
    assert 0 <= (x - 1) * b;
  }

  lemma {:induction false} DivModUnique(a: int, b: int, q: int, r: int)
    requires 0 < b && 0 <= r < b && a == q * b + r
    ensures a / b == q && a % b == r
  {
    var d, m := a / b, a % b;
    assert a == d * b + m && 0 <= m < b;
    assert (q - d) * b == m - r && (d - q) * b == r - m;
    if q > d { MulAtLeast(q - d, b); }
    if q < d { MulAtLeast(d - q, b); }
  }

  /** Counters that wrap around are as good as ones that do not, for finding the place in the ring. */
  lemma {:induction false} PlaceOfWrapped(n: nat, wrap: nat, size: nat)
    requires 0 < size && 0 < wrap && wrap % size == 0
    ensures (n % wrap) % size == n % size
  {
    var q, c, m := n / wrap, wrap / size, n % wrap;
    assert n == q * wrap + m && wrap == c * size && m == (m / size) * size + m % size;
    assert n == (q * c + m / size) * size + m % size by {
      assert q * wrap == (q * c) * size;
      assert (q * c + m / size) * size == (q * c) * size + (m / size) * size;
    }
    DivModUnique(n, size, q * c + m / size, m % size);
  }

  /** Two places closer together than the size of the ring are different. */
  lemma {:induction false} PlacesDiffer(i: nat, j: nat, size: nat)
    requires 0 < size && i < j < i + size
    ensures i % size != j % size
  {
    var a, r := i / size, i % size;
    assert i == a * size + r;
    if r + (j - i) < size {
      DivModUnique(j, size, a, r + (j - i));
    } else {
      assert (a + 1) * size == a * size + size;
      DivModUnique(j, size, a + 1, r + (j - i) - size);
    }
  }

  lemma {:induction false} WrappedSum(n: nat, d: nat, wrap: nat)
    requires 0 < wrap
    ensures (n % wrap + d) % wrap == (n + d) % wrap
  {
    var q, m := n / wrap, n % wrap;
    var e := (m + d) / wrap;
    assert n == q * wrap + m && m + d == e * wrap + (m + d) % wrap;
    assert n + d == (q + e) * wrap + (m + d) % wrap by {
      assert (q + e) * wrap == q * wrap + e * wrap;
    }
    DivModUnique(n + d, wrap, q + e, (m + d) % wrap);
  }
}
