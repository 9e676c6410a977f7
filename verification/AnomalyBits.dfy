/** The anomaly flags of a connection as single bits: setting one leaves the others alone. */
module AnomalyBits {
  import opened Common
  import opened Connection

  predicate Bit(flags: nat, bit: nat)
    requires bit > 0
  {
    (flags / bit) % 2 == 1
  }

  const BITS := {RESET, HALF_OPEN, QR_UNMATCHED, SYN_SEEN, FIN_SEEN, RETRANS, SEQ_GAP}

  /** Position of a flag. */
  function Shift(bit: nat): nat
    requires bit in BITS
  {
    if bit == RESET then 1 else if bit == HALF_OPEN then 2 else if bit == QR_UNMATCHED then 3
    else if bit == SYN_SEEN then 4 else if bit == FIN_SEEN then 5 else if bit == RETRANS then 7 else 8
  }

  function Two(n: nat): (r: nat)
    ensures r > 0
  {
    if n == 0 then 1 else 2 * Two(n - 1)
  }

  lemma BitIsPower(bit: nat)
    requires bit in BITS
    ensures bit == Two(Shift(bit))
  {
    assert Two(0) == 1 && Two(1) == 2 && Two(2) == 4 && Two(3) == 8 && Two(4) == 16;
    assert Two(5) == 32 && Two(6) == 64 && Two(7) == 128 && Two(8) == 256;
  }

  lemma MulLess(a: nat, b: nat, d: nat)
    requires a < b
    ensures a * d + d <= b * d
  {
    var n := b - a - 1;
    assert b * d == (a + 1 + n) * d == a * d + d + n * d;
  }

  lemma DivUnique(x: nat, d: nat, q: nat, r: nat)
    requires d > 0 && x == q * d + r && r < d
    ensures x / d == q
  {
    SameQuotient(x / d, x % d, q, r, d);
  }

  lemma SameQuotient(p: nat, t: nat, q: nat, r: nat, d: nat)
    requires p * d + t == q * d + r && t < d && r < d
    ensures p == q
  {
    if p < q {
      MulLess(p, q, d);
    } else if q < p {
      MulLess(q, p, d);
    }
  }

  lemma {:induction false} TwoSplit(m: nat, n: nat)
    ensures Two(m + n) == Two(m) * Two(n)
  {
    if m > 0 {
      TwoSplit(m - 1, n);
    }
  }

  /** Adding an even multiple of `c` keeps its bit. */
  lemma AddsAbove(x: nat, c: nat, k: nat)
    requires c > 0
    ensures (x + 2 * k * c) / c == x / c + 2 * k
  {
    var q, r := x / c, x % c;
    assert x == q * c + r;
    assert x + 2 * k * c == (q + 2 * k) * c + r;
    DivUnique(x + 2 * k * c, c, q + 2 * k, r);
  }

  /** Adding a clear lower bit carries nothing into `c == 2 * k * b`. */
  lemma AddsBelow(x: nat, b: nat, k: nat)
    requires b > 0 && k > 0 && (x / b) % 2 == 0
    ensures (x + b) / (2 * k * b) == x / (2 * k * b)
  {
    var y, r := x / b, x % b;
    var n := 2 * k;
    var q, s := y / n, y % n;
    EvenRest(y, k);
    BelowNext(s, b, r, n);
    Nested(q, s, r, n, b);
    assert y == q * n + s && x == y * b + r;
    SameAbove(x, b, n * b, q, s * b + r);
    assert n * b == 2 * k * b;
  }

  lemma SameAbove(x: nat, b: nat, d: nat, q: nat, rest: nat)
    requires d > 0 && x == q * d + rest && rest + b < d
    ensures x / d == q && (x + b) / d == q
  {
    DivUnique(x, d, q, rest);
    DivUnique(x + b, d, q, rest + b);
  }

  lemma Nested(q: nat, s: nat, r: nat, n: nat, b: nat)
    ensures (q * n + s) * b + r == q * (n * b) + (s * b + r)
  {
    assert (q * n + s) * b == q * n * b + s * b;
    assert q * n * b == q * (n * b);
  }

  /** The rest of an even number modulo an even one is even. */
  lemma EvenRest(y: nat, k: nat)
    requires k > 0 && y % 2 == 0
    ensures y % (2 * k) % 2 == 0 && y % (2 * k) + 1 < 2 * k
  {
    var q, s := y / (2 * k), y % (2 * k);
    assert y == 2 * (k * q) + s;
    assert s % 2 == (s + 2 * (k * q)) % 2;
  }

  lemma BelowNext(s: nat, b: nat, r: nat, n: nat)
    requires s + 1 < n && r < b
    ensures s * b + r < n * b && s * b + r + b < n * b
  {
    assert s * b + b + b <= n * b by {
      assert (s + 2) * b <= n * b;
    }
  }

  /** A flag, once set, is set; every other flag is as it was. */
  lemma SetsOne(x: nat, b: nat, c: nat)
    requires b in BITS && c in BITS
    ensures Bit(SetBit(x, b), c) <==> b == c || Bit(x, c)
  {
    BitIsPower(b);
    BitIsPower(c);
    if !Bit(x, b) {
      if b == c {
        AddsOnce(x, b);
      } else if Shift(b) > Shift(c) {
        Above(x, b, c);
      } else {
        Below(x, b, c);
      }
    }
  }

  lemma AddsOnce(x: nat, b: nat)
    requires b > 0 && (x / b) % 2 == 0
    ensures ((x + b) / b) % 2 == 1
  {
    DivUnique(x + b, b, x / b + 1, x % b);
  }

  lemma Above(x: nat, b: nat, c: nat)
    requires b in BITS && c in BITS && Shift(b) > Shift(c) && b == Two(Shift(b)) && c == Two(Shift(c))
    ensures Bit(x + b, c) <==> Bit(x, c)
  {
    var k := Two(Shift(b) - Shift(c) - 1);
    TwoSplit(Shift(b) - Shift(c), Shift(c));
    assert b == 2 * k * c;
    AddsAbove(x, c, k);
  }

  lemma Below(x: nat, b: nat, c: nat)
    requires b in BITS && c in BITS && Shift(b) < Shift(c) && b == Two(Shift(b)) && c == Two(Shift(c)) && !Bit(x, b)
    ensures Bit(x + b, c) <==> Bit(x, c)
  {
    var k := Two(Shift(c) - Shift(b) - 1);
    TwoSplit(Shift(c) - Shift(b), Shift(b));
    assert c == 2 * k * b;
    AddsBelow(x, b, k);
  }
}
