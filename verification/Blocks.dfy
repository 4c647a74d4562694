/**
 Numbers as places in rows of blocks: place r of block q, for blocks of size b.
 */
module Blocks {
  function At(b: nat, q: nat, r: nat): nat {
    q * b + r
  }

  function Total(n: nat, b: nat): nat {
    n * b
  }

  function Block(x: nat, b: nat): nat
    requires b > 0
  {
    x / b
  }

  function Inside(x: nat, b: nat): (r: nat)
    requires b > 0
    ensures r < b
  {
    x % b
  }

  lemma Quotient(b: nat, q: nat, r: nat)
    requires r < b
    ensures Block(At(b, q, r), b) == q && Inside(At(b, q, r), b) == r
  {
    var x := q * b + r;
    var e := x / b - q;
    assert b * e == r - x % b;
    assert e >= 1 ==> b * e >= b;
    assert e <= -1 ==> b * e + b <= 0;
  }

  lemma Bound(b: nat, q: nat, r: nat, n: nat)
    requires q < n && r < b
    ensures At(b, q, r) < Total(n, b)
  {
    var k := n - q - 1;
    Distribute(q, k + 1, b);
    Distribute(k, 1, b);
    assert k * b >= 0;
  }

  lemma Decompose(x: nat, n: nat, b: nat)
    requires x < Total(n, b)
    ensures b > 0 && Block(x, b) < n && x == At(b, Block(x, b), Inside(x, b))
  {
    assert b == 0 ==> n * b == 0;
    var d := x / b;
    assert d >= n ==> (d - n) * b >= 0;
  }

  lemma NoneOfNone(n: nat, b: nat)
    ensures b == 0 ==> Total(n, b) == 0
  {
  }

  lemma Exact(n: nat, d: nat)
    requires d > 0 && n % d == 0
    ensures n == Total(d, n / d)
  {
  }

  lemma Assoc(x: int, y: int, z: int)
    ensures x * y * z == x * (y * z)
  {
  }

  lemma Distribute(x: int, y: int, z: int)
    ensures (x + y) * z == x * z + y * z
  {
  }

  /** Blocks within blocks. */
  lemma Nested(b: nat, g: nat, j: nat, c: nat, r: nat)
    ensures At(Total(b, g), j, At(g, c, r)) == At(g, At(b, j, c), r)
  {
    Assoc(j, b, g);
    Distribute(j * b, c, g);
  }

  lemma Parts(x: nat, b: nat)
    requires b > 0
    ensures x == At(b, Block(x, b), Inside(x, b))
  {
  }

  lemma SameFactor(a: nat, x: int, y: int)
    requires a > 0 && a * x == a * y
    ensures x == y
  {
    assert a * (x - y) == 0;
  }

  lemma Commute(x: nat, y: nat)
    ensures Total(x, y) == Total(y, x)
  {
  }

  lemma TotalAssoc(x: nat, y: nat, z: nat)
    ensures Total(Total(x, y), z) == Total(x, Total(y, z))
  {
    Assoc(x, y, z);
  }

  lemma TotalOne(x: nat)
    ensures Total(x, 1) == x
  {
  }

  lemma AtOne(x: nat)
    ensures At(1, x, 0) == x
  {
  }

  lemma PositiveTotal(n: nat, b: nat)
    requires n > 0 && b > 0
    ensures Total(n, b) > 0
  {
    Bound(b, 0, 0, n);
  }

  lemma Divided(n: nat, d: nat, q: nat)
    requires d > 0 && n == Total(d, q)
    ensures n / d == q && n % d == 0
  {
    Commute(d, q);
    Quotient(d, q, 0);
  }

  lemma DivideTwice(x: nat, a: nat, b: nat)
    requires a > 0 && b > 0
    ensures a * b > 0 && x / a / b == x / (a * b)
  {
    var q, r := Block(x, a), Inside(x, a);
    var p, t := Block(q, b), Inside(q, b);
    PositiveTotal(b, a);
    assert Total(b, a) == a * b;
    assert x / a == q && q / b == p;
    assert Block(x, Total(b, a)) == x / (a * b);
    Parts(x, a);
    Parts(q, b);
    hide *;
    Nested(b, a, p, t, r);
    Bound(a, t, r, b);
    Quotient(Total(b, a), p, At(a, t, r));
  }
}
