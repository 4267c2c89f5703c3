/** Bytes and multi-byte numbers. */
module Bytes {
  type byte = b: int | 0 <= b < 256

  function Pow256(n: nat): (p: nat)
    ensures p > 0
  {
    if n == 0 then 1 else 256 * Pow256(n - 1)
  }

  /** The number a little-endian byte string stands for. */
  function Little(b: seq<byte>): nat {
    if b == [] then 0 else b[0] + 256 * Little(b[1..])
  }

  /** The number a big-endian byte string stands for. */
  function Big(b: seq<byte>): nat {
    if b == [] then 0 else 256 * Big(b[..|b| - 1]) + b[|b| - 1]
  }

  /** The n low-order bytes of x, most significant first. */
  function ToBig(x: nat, n: nat): (b: seq<byte>)
    ensures |b| == n
  {
    if n == 0 then [] else ToBig(x / 256, n - 1) + [x % 256]
  }

  lemma MulMonotone(d: nat, a: nat, b: nat)
    requires a <= b
    ensures d * a <= d * b
  {
    var c: nat := b - a;
    assert d * b == d * a + d * c;
    assert d * c >= 0;
  }

  lemma QuotientAndRemainder(x: nat, d: nat, q: nat, r: nat)
    requires d > 0 && x == d * q + r && r < d
    ensures x / d == q && x % d == r
  {
    var p: nat := x / d;
    assert x == d * p + x % d && d * (q + 1) == d * q + d && d * (p + 1) == d * p + d;
    if p > q {
      MulMonotone(d, q + 1, p);
      assert false;
    } else if p < q {
      MulMonotone(d, p + 1, q);
      assert false;
    }
  }

  lemma SplitMod(x: nat, p: nat)
    requires p > 0
    ensures 256 * ((x / 256) % p) + x % 256 == x % (256 * p)
  {
    var q, r := x / 256, x % 256;
    var u, v := q / p, q % p;
    assert x == (256 * p) * u + (256 * v + r) by {
      assert q == p * u + v;
      assert 256 * (p * u) == (256 * p) * u;
    }
    assert 0 <= 256 * v + r < 256 * p;
    QuotientAndRemainder(x, 256 * p, u, 256 * v + r);
  }

  lemma {:induction false} BigOfToBig(x: nat, n: nat)
    ensures Big(ToBig(x, n)) == x % Pow256(n)
    decreases n
  {
    if n > 0 {
      BigOfToBig(x / 256, n - 1);
      var b := ToBig(x, n);
      assert b[..|b| - 1] == ToBig(x / 256, n - 1) && b[|b| - 1] == x % 256;
      SplitMod(x, Pow256(n - 1));
    }
  }

  lemma DivDiv(x: nat, p: nat)
    requires p > 0
    ensures (x / 256) / p == x / (256 * p)
  {
    var q := x / 256;
    assert x == (256 * p) * (q / p) + (256 * (q % p) + x % 256) by {
      assert q == p * (q / p) + q % p;
      assert 256 * (p * (q / p)) == (256 * p) * (q / p);
    }
    QuotientAndRemainder(x, 256 * p, q / p, 256 * (q % p) + x % 256);
  }

  /** Byte j of the big-endian form is x shifted down by the bytes below it. */
  lemma {:induction false} ToBigAt(x: nat, n: nat, j: nat)
    requires j < n
    ensures ToBig(x, n)[j] == (x / Pow256(n - 1 - j)) % 256
    decreases n
  {
    if j < n - 1 {
      ToBigAt(x / 256, n - 1, j);
      DivDiv(x, Pow256(n - 2 - j));
    }
  }

  lemma {:induction false} LittleSnoc(b: seq<byte>, x: byte)
    ensures Little(b + [x]) == Little(b) + Pow256(|b|) * x
    decreases b
  {
    if b == [] {
      assert [] + [x] == [x] && [x][1..] == [];
    } else {
      LittleSnoc(b[1..], x);
      assert (b + [x])[1..] == b[1..] + [x];
      assert 256 * (Pow256(|b| - 1) * x) == (256 * Pow256(|b| - 1)) * x;
    }
  }
}
