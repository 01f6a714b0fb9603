/** Single bits of unsigned numbers. */
module Bits {
  function Power2(n: nat): nat {
    if n == 0 then 1 else 2 * Power2(n - 1)
  }

  // Bit b of x.
  predicate Bit(x: nat, b: nat) {
    if b == 0 then x % 2 == 1 else Bit(x / 2, b - 1)
  }

  // x | y
  function Or(x: nat, y: nat): nat
    decreases x + y
  {
    if x == 0 && y == 0 then 0 else (if x % 2 == 1 || y % 2 == 1 then 1 else 0) + 2 * Or(x / 2, y / 2)
  }

  // x & ~(1 << b)
  function Clear(x: nat, b: nat): nat {
    if b == 0 then x - x % 2 else x % 2 + 2 * Clear(x / 2, b - 1)
  }

  lemma Halves(b: nat, z: nat)
    requires b < 2
    ensures (b + 2 * z) / 2 == z && (b + 2 * z) % 2 == b
  {
  }

  lemma OrHalf(x: nat, y: nat)
    ensures Or(x, y) / 2 == Or(x / 2, y / 2) && (Or(x, y) % 2 == 1 <==> x % 2 == 1 || y % 2 == 1)
  {
    Halves(if x % 2 == 1 || y % 2 == 1 then 1 else 0, Or(x / 2, y / 2));
  }

  lemma {:induction false} OrBound(x: nat, y: nat, bits: nat, top: nat)
    requires top == Power2(bits) && x < top && y < top
    ensures Or(x, y) < top
    decreases bits
  {
    if bits > 0 {
      OrHalf(x, y);
      OrBound(x / 2, y / 2, bits - 1, Power2(bits - 1));
    }
  }

  lemma {:induction false} OrBit(x: nat, y: nat, b: nat)
    ensures Bit(Or(x, y), b) <==> Bit(x, b) || Bit(y, b)
    decreases b
  {
    OrHalf(x, y);
    if b > 0 {
      OrBit(x / 2, y / 2, b - 1);
    }
  }

  lemma {:induction false} Power2Bit(k: nat, b: nat)
    ensures Bit(Power2(k), b) <==> b == k
    decreases b
  {
    if k > 0 {
      Halves(0, Power2(k - 1));
      if b > 0 {
        Power2Bit(k - 1, b - 1);
      }
    } else if b > 0 {
      ZeroBit(b - 1);
    }
  }

  lemma {:induction false} ZeroBit(b: nat)
    ensures !Bit(0, b)
  {
    if b > 0 {
      ZeroBit(b - 1);
    }
  }

  // Bit 6 is the one worth 64.
  lemma Bit6(x: nat)
    ensures Bit(x, 6) <==> x / 64 % 2 == 1
  {
    var a, b, c, d, e, f := x / 2, x / 4, x / 8, x / 16, x / 32, x / 64;
    assert a / 2 == b && b / 2 == c && c / 2 == d && d / 2 == e && e / 2 == f;
    assert Bit(x, 6) == Bit(a, 5) == Bit(b, 4) == Bit(c, 3) == Bit(d, 2) == Bit(e, 1) == Bit(f, 0);
  }

  lemma Clear6(x: nat)
    ensures Clear(x, 6) == x - 64 * (x / 64 % 2)
  {
    var a, b, c, d, e, f := x / 2, x / 4, x / 8, x / 16, x / 32, x / 64;
    assert a / 2 == b && b / 2 == c && c / 2 == d && d / 2 == e && e / 2 == f;
    assert Clear(f, 0) == f - f % 2;
    assert Clear(e, 1) == e % 2 + 2 * (f - f % 2) == e - 2 * (f % 2);
    assert Clear(d, 2) == d % 2 + 2 * Clear(e, 1) == d - 4 * (f % 2);
    assert Clear(c, 3) == c % 2 + 2 * Clear(d, 2) == c - 8 * (f % 2);
    assert Clear(b, 4) == b % 2 + 2 * Clear(c, 3) == b - 16 * (f % 2);
    assert Clear(a, 5) == a % 2 + 2 * Clear(b, 4) == a - 32 * (f % 2);
    assert Clear(x, 6) == x % 2 + 2 * Clear(a, 5);
  }

  lemma {:induction false} ClearBit(x: nat, k: nat, b: nat)
    ensures Clear(x, k) <= x
    ensures Bit(Clear(x, k), b) <==> Bit(x, b) && b != k
    decreases k, b
  {
    if k > 0 {
      Halves(x % 2, Clear(x / 2, k - 1));
      ClearBit(x / 2, k - 1, if b > 0 then b - 1 else 0);
    } else {
      Halves(0, x / 2);
    }
  }
}
