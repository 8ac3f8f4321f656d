/// The arithmetic of probing a hash table with a fixed stride.

module Probing {

  ghost predicate Divides(d: int, a: int) {
    exists k :: a == d * k
  }

  /** No common divisor but 1. */
  ghost predicate Coprime(a: nat, b: nat) {
    forall d: nat :: Divides(d, a) && Divides(d, b) ==> d == 1
  }

  /** A quotient and a remainder in range are the quotient and the remainder. */
  lemma DivModUnique(n: int, d: nat, q: int, r: int)
    requires d > 0 && n == d * q + r && 0 <= r < d
    ensures n / d == q && n % d == r
  {
    var q', r' := n / d, n % d;
    assert n == d * q' + r' && 0 <= r' < d;
    Scale(d, q', q - 1);
    Scale(d, q, q' - 1);
  }

  lemma Scale(d: nat, a: int, b: int)
    ensures a <= b ==> d * a <= d * b
  {
    if a <= b {
      assert d * (b - a) >= 0;
    }
  }

  lemma Swap(a: int, b: int, c: int)
    ensures a * (b * c) == b * (a * c)
  {
  }

  lemma Minus(a: int, b: int, c: int)
    ensures a * (b - c) == a * b - a * c
  {
  }

  lemma Combine(b: int, q: int, r: int, x: int, y: int)
    ensures (b * q + r) * y + b * (x - q * y) == b * x + r * y
  {
    Minus(b, x, q * y);
    assert (b * q + r) * y == (b * q) * y + r * y;
    assert (b * q) * y == b * (q * y);
  }

  lemma DividesSum(g: int, b: int, q: int, r: int)
    requires Divides(g, b) && Divides(g, r)
    ensures Divides(g, b * q + r)
  {
    var k: int :| b == g * k;
    var m: int :| r == g * m;
    assert (g * k) * q == g * (k * q);
    assert g * (k * q + m) == g * (k * q) + g * m;
  }

  /** Bezout's identity for a common divisor, by Euclid's algorithm. */
  lemma Bezout(a: nat, b: nat) returns (g: nat, x: int, y: int)
    ensures g == a * x + b * y && Divides(g, a) && Divides(g, b)
    decreases b
  {
    if b == 0 {
      g, x, y := a, 1, 0;
      assert a == g * 1 && b == g * 0;
    } else {
      hide Divides;
      var q, r := DivMod(a, b);
      var x', y';
      g, x', y' := Bezout(b, r);
      x, y := y', x' - q * y';
      Combine(b, q, r, x', y');
      DividesSum(g, b, q, r);
    }
  }

  /** A stride coprime to the number of buckets has an inverse modulo that number. */
  lemma Inverse(delta: nat, n: nat) returns (x: int, c: int)
    requires n > 0 && Coprime(delta, n)
    ensures delta * x == 1 + n * c
  {
    var g, u, y := Bezout(delta, n);
    x, c := u, -y;
    assert g == 1;
  }

  lemma DivMod(a: int, n: nat) returns (q: int, r: nat)
    requires n > 0
    ensures a == n * q + r && r < n
  {
    q, r := a / n, a % n;
  }

  /** The `i`-th bucket probed from bucket `home`. */
  function Probe(home: nat, delta: nat, n: nat, i: nat): (b: nat)
    requires n > 0
    ensures b < n
  {
    (home + delta * i) % n
  }

  /** The bucket one stride on, around the end of the table. */
  function NextBucket(b: nat, delta: nat, n: nat): nat {
    if b + delta >= n then b + delta - n else b + delta
  }

  lemma ProbeStart(home: nat, delta: nat, n: nat)
    requires home < n
    ensures Probe(home, delta, n, 0) == home
  {
    assert delta * 0 == 0;
    DivModUnique(home, n, 0, home);
  }

  lemma ProbeNext(home: nat, delta: nat, n: nat, i: nat)
    requires n > 0 && delta <= n
    ensures NextBucket(Probe(home, delta, n, i), delta, n) == Probe(home, delta, n, i + 1)
  {
    var m := home + delta * i;
    var q, r := m / n, m % n;
    assert home + delta * (i + 1) == n * q + r + delta;
    if r + delta >= n {
      assert home + delta * (i + 1) == n * (q + 1) + (r + delta - n);
      DivModUnique(home + delta * (i + 1), n, q + 1, r + delta - n);
    } else {
      DivModUnique(home + delta * (i + 1), n, q, r + delta);
    }
  }

  lemma CycleSum(delta: int, n: int, gap: int, x: int, q: int, c: int, i: int)
    requires delta * x == 1 + n * c && i == gap * x - n * q
    ensures delta * i == gap + n * (gap * c - delta * q)
  {
    Minus(delta, gap * x, n * q);
    Swap(delta, gap, x);
    Swap(delta, n, q);
    Minus(gap, delta * x, n * c);
    Swap(gap, n, c);
    Minus(n, gap * c, delta * q);
    assert gap * 1 == gap;
  }

  /** Some number of strides, below the number of buckets, leads `gap` buckets on, but for whole turns. */
  lemma Strides(delta: nat, n: nat, gap: int) returns (i: nat, turns: int)
    requires n > 0 && Coprime(delta, n)
    ensures i < n && delta * i == gap + n * turns
  {
    var x, c := Inverse(delta, n);
    hide Coprime;
    var q;
    q, i := DivMod(gap * x, n);
    turns := gap * c - delta * q;
    CycleSum(delta, n, gap, x, q, c, i);
  }

  lemma Landing(m: int, n: nat, b: nat, turns: int)
    requires b < n && m == b + n * turns
    ensures m % n == b
  {
    DivModUnique(m, n, turns, b);
  }

  /** The full cycle: with a coprime stride, every bucket is probed within the first `n` probes. */
  lemma FullCycle(home: nat, delta: nat, n: nat, b: nat) returns (i: nat)
    requires b < n && Coprime(delta, n)
    ensures i < n && Probe(home, delta, n, i) == b
  {
    hide Coprime;
    var turns;
    i, turns := Strides(delta, n, b - home);
    Landing(home + delta * i, n, b, turns);
  }
}
