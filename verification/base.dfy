/** Shared vocabulary of the relay gNB model: bounded integers, octet strings,
    optional values and results, and the C++ integer operators the source uses. */
module Base {

  type uint8 = x: int | 0 <= x < 0x100
  type uint16 = x: int | 0 <= x < 0x1_0000
  type uint32 = x: int | 0 <= x < 0x1_0000_0000

  /** An OctetString: an opaque byte buffer that is moved, never reinterpreted. */
  type Octets = seq<uint8>

  datatype Option<+T> = None | Some(value: T)

  datatype Result<+R, +E> = Success(value: R) | Failure(error: E)

  /** 2^n */
  function Pow2(n: nat): (r: nat)
    ensures r >= 1
  {
    if n == 0 then 1 else 2 * Pow2(n - 1)
  }

  /** 10^n */
  function Pow10(n: nat): (r: nat)
    ensures r >= 1
  {
    if n == 0 then 1 else 10 * Pow10(n - 1)
  }

  lemma {:induction false} Pow2Add(a: nat, b: nat)
    ensures Pow2(a + b) == Pow2(a) * Pow2(b)
  {
    if a > 0 {
      Pow2Add(a - 1, b);
    }
  }

  lemma {:induction false} Pow2Monotone(a: nat, b: nat)
    requires a <= b
    ensures Pow2(a) <= Pow2(b)
  {
    if a < b {
      Pow2Monotone(a, b - 1);
    }
  }

  /** The powers of two the model's fixed-width fields use. */
  lemma Pow2Values()
    ensures Pow2(4) == 0x10 && Pow2(6) == 0x40 && Pow2(8) == 0x100 && Pow2(10) == 0x400
    ensures Pow2(16) == 0x1_0000 && Pow2(32) == 0x1_0000_0000
    ensures Pow2(36) == 0x10_0000_0000 && Pow2(38) == 0x40_0000_0000 && Pow2(48) == 0x1_0000_0000_0000
  {
    assert Pow2(2) == 4;
    assert Pow2(4) == 16 by { Pow2Add(2, 2); }
    assert Pow2(6) == 64 by { Pow2Add(4, 2); }
    assert Pow2(8) == 256 by { Pow2Add(4, 4); }
    assert Pow2(10) == 1024 by { Pow2Add(8, 2); }
    assert Pow2(16) == 0x1_0000 by { Pow2Add(8, 8); }
    assert Pow2(32) == 0x1_0000_0000 by { Pow2Add(16, 16); }
    assert Pow2(36) == 0x10_0000_0000 by { Pow2Add(32, 4); }
    assert Pow2(38) == 0x40_0000_0000 by { Pow2Add(32, 6); }
    assert Pow2(48) == 0x1_0000_0000_0000 by { Pow2Add(32, 16); }
  }

  /** C++ `/` on int: the quotient is truncated toward zero. */
  function TDiv(a: int, d: int): int
    requires d > 0
  {
    if a >= 0 then a / d else -((-a) / d)
  }

  /** C++ `%` on int: the remainder takes the sign of the dividend. */
  function TMod(a: int, d: int): (r: int)
    requires d > 0
    ensures TDiv(a, d) * d + r == a
    ensures a >= 0 ==> 0 <= r < d
    ensures a < 0 ==> -d < r <= 0
  {
    if a >= 0 then a % d else -((-a) % d)
  }

  type pos = x: int | x > 0 witness 1

  lemma {:induction false} MulNonneg(x: nat, y: nat)
    ensures x * y >= 0
  {
    if x > 0 {
      MulNonneg(x - 1, y);
      assert x * y == (x - 1) * y + y;
    }
  }

  lemma MulMonotone(a: int, b: int, c: nat)
    requires a <= b
    ensures a * c <= b * c
  {
    MulNonneg(b - a, c);
    assert b * c - a * c == (b - a) * c;
  }

  /** Quotient and remainder are the unique q, r with x == q * d + r and 0 <= r < d. */
  lemma DivModUnique(x: int, d: pos, q: int, r: int)
    requires 0 <= r < d && x == q * d + r
    ensures x / d == q && x % d == r
  {
    var q', r' := x / d, x % d;
    assert x == q' * d + r';
    if q' < q {
      MulMonotone(q' + 1, q, d);
      assert false;
    } else if q < q' {
      MulMonotone(q + 1, q', d);
      assert false;
    }
  }

  lemma ModAddMultiple(m: int, q: int, a: pos)
    ensures (q * a + m) % a == m % a
    ensures (q * a + m) / a == q + m / a
  {
    var x := q * a + m;
    assert m == (m / a) * a + m % a;
    assert x == (q + m / a) * a + m % a;
    DivModUnique(x, a, q + m / a, m % a);
  }

  /** Dividing something below a * b by b leaves something below a. */
  lemma DivBelow(x: nat, a: nat, b: pos)
    requires x < a * b
    ensures x / b < a
  {
    assert x == (x / b) * b + x % b;
    if x / b >= a {
      MulMonotone(a, x / b, b);
      assert false;
    }
  }

  /** Keeping the low bits twice is keeping them once, from the wider mask down. */
  lemma ModOfMod(x: int, a: pos, b: pos)
    ensures (x % (a * b)) % a == x % a
  {
    var q := x / (a * b);
    var m := x % (a * b);
    assert x == q * (a * b) + m;
    assert q * (a * b) == (q * b) * a;
    ModAddMultiple(m, q * b, a);
  }

  /** The maximum of two naturals. */
  function Max(a: nat, b: nat): nat
  {
    if a >= b then a else b
  }
}
