/** JavaScript's 32-bit integer operators, written out over unbounded `int`.

    A JavaScript bitwise operator first converts each operand to a 32-bit
    two's-complement integer (ToInt32), works on the 32 bits, and reads the
    result back as a signed integer. The model keeps the bits as a natural
    number below 2^32 and defines `&` and `|` one bit at a time. */
module JsNumbers {

  const Two16: int := 0x1_0000
  const Two31: int := 0x8000_0000
  const Two32: int := 0x1_0000_0000

  function Pow2(k: nat): (r: nat)
    ensures r >= 1
  {
    if k == 0 then 1 else 2 * Pow2(k - 1)
  }

  /** The 32 bits of `x`, as JavaScript's ToUint32 gives them. */
  function Bits(x: int): (u: nat)
    ensures u < Two32
    ensures 0 <= x < Two32 ==> u == x
  {
    x % Two32
  }

  /** Reads 32 bits as a signed integer. */
  function Signed(u: nat): (r: int)
    requires u < Two32
    ensures -Two31 <= r < Two31
    ensures u < Two31 ==> r == u
  {
    if u < Two31 then u else u - Two32
  }

  /** JavaScript's ToInt32. */
  function ToInt32(x: int): (r: int)
    ensures -Two31 <= r < Two31
    ensures 0 <= x < Two31 ==> r == x
  {
    Signed(Bits(x))
  }

  /** JavaScript's ToInt16 (the conversion an `Int16Array` store applies). */
  function ToInt16(x: int): (r: int)
    ensures -0x8000 <= r < 0x8000
    ensures -0x8000 <= x < 0x8000 ==> r == x
  {
    (x + 0x8000) % Two16 - 0x8000
  }

  /** Bitwise and of the low `n` bits of `a` and `b`. */
  function AndN(a: nat, b: nat, n: nat): (r: nat)
    ensures r < Pow2(n)
    decreases n
  {
    if n == 0 then 0
    else (if a % 2 == 1 && b % 2 == 1 then 1 else 0) + 2 * AndN(a / 2, b / 2, n - 1)
  }

  /** Bitwise or of the low `n` bits of `a` and `b`. */
  function OrN(a: nat, b: nat, n: nat): (r: nat)
    ensures r < Pow2(n)
    decreases n
  {
    if n == 0 then 0
    else (if a % 2 == 1 || b % 2 == 1 then 1 else 0) + 2 * OrN(a / 2, b / 2, n - 1)
  }

  lemma {:induction false} Pow2Add(a: nat, b: nat)
    ensures Pow2(a + b) == Pow2(a) * Pow2(b)
    decreases a
  {
    if a > 0 {
      Pow2Add(a - 1, b);
    }
  }

  lemma Pow2Of32()
    ensures Pow2(16) == Two16
    ensures Pow2(32) == Two32
  {
    assert Pow2(4) == 16;
    Pow2Add(4, 4);
    Pow2Add(8, 8);
    Pow2Add(16, 16);
  }

  /** JavaScript `a & b`. */
  function And(a: int, b: int): (r: int)
    ensures -Two31 <= r < Two31
  {
    Pow2Of32();
    Signed(AndN(Bits(a), Bits(b), 32))
  }

  /** JavaScript `a | b`. */
  function Or(a: int, b: int): (r: int)
    ensures -Two31 <= r < Two31
  {
    Pow2Of32();
    Signed(OrN(Bits(a), Bits(b), 32))
  }

  /** JavaScript `a << 16`. */
  function ShiftLeft16(a: int): int
  {
    ToInt32(a * Two16)
  }

  /** JavaScript `a >> 1` (sign-propagating). */
  function ShiftRight1(a: int): (r: int)
    ensures 0 <= a < Two31 ==> r == a / 2
  {
    ToInt32(a) / 2
  }

  /** JavaScript `a >> 16` (sign-propagating). */
  function ShiftRight16(a: int): int
  {
    ToInt32(a) / Two16
  }

  lemma ModUnique(x: int, d: int, q: int, r: int)
    requires d > 0 && 0 <= r < d && x == d * q + r
    ensures x % d == r && x / d == q
  {
    var q2, r2 := x / d, x % d;
    assert d * q2 + r2 == d * q + r;
    assert d * (q2 - q) == r - r2;
    if q2 > q {
      MulAtLeast(d, q2 - q);
    } else if q2 < q {
      MulAtLeast(d, q - q2);
    }
  }

  lemma MulAtLeast(d: int, t: int)
    requires d > 0 && t >= 1
    ensures d * t >= d
  {
    assert d * t == d * (t - 1) + d;
  }

  lemma MulMonotone(a: int, b: int, c: int)
    requires a <= b && c >= 0
    ensures a * c <= b * c
  {
    assert b * c - a * c == (b - a) * c;
  }

  lemma {:induction false} Pow2Monotone(k: nat, n: nat)
    requires k <= n
    ensures Pow2(k) <= Pow2(n)
    decreases n
  {
    if k < n {
      Pow2Monotone(k, n - 1);
    }
  }

  lemma {:induction false} OrZero(a: nat, n: nat)
    requires a < Pow2(n)
    ensures OrN(a, 0, n) == a
    decreases n
  {
    if n > 0 {
      OrZero(a / 2, n - 1);
    }
  }

  /** Or-ing a value below 2^k into a value shifted left by k bits adds it. */
  lemma {:induction false} OrShifted(a: nat, b: nat, k: nat, n: nat)
    requires b < Pow2(k) && k <= n && a * Pow2(k) < Pow2(n)
    ensures OrN(a * Pow2(k), b, n) == a * Pow2(k) + b
    decreases k
  {
    if k == 0 {
      OrZero(a, n);
    } else {
      var x := a * Pow2(k);
      assert x == 2 * (a * Pow2(k - 1));
      ModUnique(x, 2, a * Pow2(k - 1), 0);
      assert a * Pow2(k - 1) < Pow2(n - 1);
      OrShifted(a, b / 2, k - 1, n - 1);
    }
  }

  lemma {:induction false} AndZero(a: nat, n: nat)
    ensures AndN(a, 0, n) == 0
    decreases n
  {
    if n > 0 {
      AndZero(a / 2, n - 1);
    }
  }

  lemma {:induction false} AndOfZero(b: nat, n: nat)
    ensures AndN(0, b, n) == 0
    decreases n
  {
    if n > 0 {
      AndOfZero(b / 2, n - 1);
    }
  }

  /** The low k bits of x are its lowest bit plus twice the low k-1 bits of x/2. */
  lemma ModPow2Split(x: nat, k: nat)
    requires k >= 1
    ensures x % Pow2(k) == 2 * ((x / 2) % Pow2(k - 1)) + x % 2
  {
    var h := x / 2;
    var q := h / Pow2(k - 1);
    var s := h % Pow2(k - 1);
    assert h == Pow2(k - 1) * q + s;
    assert x == Pow2(k) * q + (2 * s + x % 2);
    ModUnique(x, Pow2(k), q, 2 * s + x % 2);
  }

  /** k one bits: 2^k - 1, built the way the and takes it apart. */
  function Ones(k: nat): (r: nat)
    ensures r == Pow2(k) - 1
  {
    if k == 0 then 0 else 2 * Ones(k - 1) + 1
  }

  /** The low k bits of x, taken one at a time. */
  function LowBits(x: nat, k: nat): nat
  {
    if k == 0 then 0 else x % 2 + 2 * LowBits(x / 2, k - 1)
  }

  lemma {:induction false} LowBitsIsMod(x: nat, k: nat)
    ensures LowBits(x, k) == x % Pow2(k)
  {
    if k == 0 {
      ModUnique(x, 1, x, 0);
    } else {
      LowBitsIsMod(x / 2, k - 1);
      ModPow2Split(x, k);
    }
  }

  lemma {:induction false} AndOnes(x: nat, k: nat, n: nat)
    requires k <= n
    ensures AndN(x, Ones(k), n) == LowBits(x, k)
  {
    if k == 0 {
      AndZero(x, n);
    } else {
      ModUnique(Ones(k), 2, Ones(k - 1), 1);
      AndOnes(x / 2, k - 1, n - 1);
    }
  }

  /** And-ing with 2^k - 1 keeps the low k bits. */
  lemma AndLowMask(x: nat, k: nat, n: nat)
    requires k <= n
    ensures AndN(x, Pow2(k) - 1, n) == x % Pow2(k)
  {
    AndOnes(x, k, n);
    LowBitsIsMod(x, k);
  }

  /** The mask 2^n - 2^k, built the way the and takes it apart. */
  function HighOnes(k: nat, n: nat): (r: nat)
    requires k <= n
    ensures r == Pow2(n) - Pow2(k)
  {
    if k == 0 then Ones(n) else 2 * HighOnes(k - 1, n - 1)
  }

  lemma {:induction false} AndHighOnes(x: nat, k: nat, n: nat)
    requires k <= n && x < Pow2(n)
    ensures AndN(x, HighOnes(k, n), n) == x - LowBits(x, k)
  {
    if k == 0 {
      AndOnes(x, n, n);
      LowBitsIsMod(x, n);
      ModUnique(x, Pow2(n), 0, x);
    } else {
      var h := x / 2;
      assert h < Pow2(n - 1);
      AndHighOnes(h, k - 1, n - 1);
      AndEvenMask(x, HighOnes(k - 1, n - 1), n);
    }
  }

  /** And-ing with 2^n - 2^k clears the low k bits. */
  lemma AndHighMask(x: nat, k: nat, n: nat)
    requires k <= n && x < Pow2(n) && Pow2(k) <= Pow2(n)
    ensures AndN(x, Pow2(n) - Pow2(k), n) == x - x % Pow2(k)
  {
    AndHighOnes(x, k, n);
    LowBitsIsMod(x, k);
  }

  lemma AndEvenMask(x: nat, half: nat, n: nat)
    requires n >= 1
    ensures AndN(x, 2 * half, n) == 2 * AndN(x / 2, half, n - 1)
  {
    ModUnique(2 * half, 2, half, 0);
  }

  lemma {:induction false} AndCommutes(a: nat, b: nat, n: nat)
    ensures AndN(a, b, n) == AndN(b, a, n)
    decreases n
  {
    if n > 0 {
      AndCommutes(a / 2, b / 2, n - 1);
    }
  }

  /** `a & b` does not depend on the order of its operands. */
  lemma AndSymmetric(a: int, b: int)
    ensures And(a, b) == And(b, a)
  {
    AndCommutes(Bits(a), Bits(b), 32);
  }

  /** `x & -1` is `x` read as a 32-bit integer: a mask of -1 lets every group through. */
  lemma AndMinusOne(x: int)
    ensures And(x, -1) == ToInt32(x)
    ensures And(-1, x) == ToInt32(x)
  {
    ModUnique(-1, Two32, -1, Two32 - 1);
    AndAllOnes(Bits(x));
  }

  /** And-ing 32 bits with 32 one bits, either way round, keeps them. */
  lemma AndAllOnes(u: nat)
    requires u < Two32
    ensures AndN(u, Two32 - 1, 32) == u && AndN(Two32 - 1, u, 32) == u
  {
    Pow2Of32();
    AndOnes(u, 32, 32);
    LowBitsIsMod(u, 32);
    ModUnique(u, Two32, 0, u);
    AndCommutes(u, Two32 - 1, 32);
  }

  /** Bit `k` of `x` (0 or 1). */
  function Bit(x: nat, k: nat): (r: nat)
    ensures r < 2
  {
    if k == 0 then x % 2 else Bit(x / 2, k - 1)
  }

  /** The only bit of 2^p is bit p. */
  lemma {:induction false} BitOfPow2(p: nat, k: nat)
    ensures Bit(Pow2(p), k) == (if k == p then 1 else 0)
    decreases k
  {
    if k == 0 {
      if p > 0 {
        assert Pow2(p) == 2 * Pow2(p - 1);
      }
    } else if p == 0 {
      BitOfZero(k - 1);
    } else {
      assert Pow2(p) / 2 == Pow2(p - 1);
      BitOfPow2(p - 1, k - 1);
    }
  }

  lemma {:induction false} BitOfZero(k: nat)
    ensures Bit(0, k) == 0
    decreases k
  {
    if k > 0 {
      BitOfZero(k - 1);
    }
  }

  /** Bit k of `a | b` is set iff it is set in `a` or in `b`. */
  lemma {:induction false} OrBit(a: nat, b: nat, n: nat, k: nat)
    requires k < n
    ensures Bit(OrN(a, b, n), k) == (if Bit(a, k) == 1 || Bit(b, k) == 1 then 1 else 0)
    decreases k
  {
    var low := if a % 2 == 1 || b % 2 == 1 then 1 else 0;
    var rest := OrN(a / 2, b / 2, n - 1);
    assert OrN(a, b, n) == low + 2 * rest;
    ModUnique(low + 2 * rest, 2, rest, low);
    if k > 0 {
      OrBit(a / 2, b / 2, n - 1, k - 1);
    }
  }

  /** The or of two powers of two below 2^n: their sum, or the one power
      when they are the same. */
  lemma {:induction false} OrOfPowers(p: nat, q: nat, n: nat)
    requires p < n && q < n
    ensures OrN(Pow2(p), Pow2(q), n) == if p == q then Pow2(p) else Pow2(p) + Pow2(q)
    decreases n
  {
    if p > 0 && q > 0 {
      ModUnique(Pow2(p), 2, Pow2(p - 1), 0);
      ModUnique(Pow2(q), 2, Pow2(q - 1), 0);
      OrOfPowers(p - 1, q - 1, n - 1);
    } else if p > 0 {
      ModUnique(Pow2(p), 2, Pow2(p - 1), 0);
      Pow2Monotone(p, n - 1);
      OrWithZero(Pow2(p - 1), n - 1);
      OrCommutes(0, Pow2(p - 1), n - 1);
    } else if q > 0 {
      ModUnique(Pow2(q), 2, Pow2(q - 1), 0);
      Pow2Monotone(q, n - 1);
      OrWithZero(Pow2(q - 1), n - 1);
      OrCommutes(0, Pow2(q - 1), n - 1);
    } else {
      OrZero(0, n - 1);
    }
  }

  lemma OrWithZero(a: nat, n: nat)
    requires a < Pow2(n)
    ensures OrN(0, a, n) == a && OrN(a, 0, n) == a
  {
    OrZero(a, n);
    OrCommutes(0, a, n);
  }

  lemma {:induction false} OrCommutes(a: nat, b: nat, n: nat)
    ensures OrN(a, b, n) == OrN(b, a, n)
    decreases n
  {
    if n > 0 {
      OrCommutes(a / 2, b / 2, n - 1);
    }
  }

  /** The or of two single bits names the pair of bit positions. */
  lemma OrOfBitsUnique(p: nat, q: nat, u: nat, v: nat, n: nat)
    requires p < n && q < n && u < n && v < n
    ensures OrN(Pow2(p), Pow2(q), n) == OrN(Pow2(u), Pow2(v), n) <==> {p, q} == {u, v}
  {
    if OrN(Pow2(p), Pow2(q), n) == OrN(Pow2(u), Pow2(v), n) {
      OrOfBitsSamePair(p, q, u, v, n);
    }
    if {p, q} == {u, v} {
      PairEquality(p, q, u, v);
      if p != u {
        OrCommutes(Pow2(p), Pow2(q), n);
      }
    }
  }

  lemma OrOfBitsSamePair(p: nat, q: nat, u: nat, v: nat, n: nat)
    requires p < n && q < n && u < n && v < n
    requires OrN(Pow2(p), Pow2(q), n) == OrN(Pow2(u), Pow2(v), n)
    ensures {p, q} == {u, v}
  {
    OrOfBitMember(p, q, u, v, n);
    OrOfBitMember(u, v, p, q, n);
    PairEquality(p, q, u, v);
  }

  lemma OrOfBitMember(p: nat, q: nat, u: nat, v: nat, n: nat)
    requires p < n && q < n && u < n && v < n
    requires OrN(Pow2(p), Pow2(q), n) == OrN(Pow2(u), Pow2(v), n)
    ensures u == p || u == q
    ensures v == p || v == q
  {
    OrOfBits(p, q, n, u);
    OrOfBits(u, v, n, u);
    OrOfBits(p, q, n, v);
    OrOfBits(u, v, n, v);
  }

  lemma PairEquality(p: nat, q: nat, u: nat, v: nat)
    ensures {p, q} == {u, v} <==> (p == u && q == v) || (p == v && q == u)
  {
    if {p, q} == {u, v} {
      assert p in {u, v} && q in {u, v} && u in {p, q} && v in {p, q};
    }
  }

  lemma OrOfBits(p: nat, q: nat, n: nat, k: nat)
    requires k < n
    ensures Bit(OrN(Pow2(p), Pow2(q), n), k) == (if k == p || k == q then 1 else 0)
  {
    OrBit(Pow2(p), Pow2(q), n, k);
    BitOfPow2(p, k);
    BitOfPow2(q, k);
  }

  lemma SignedInjective(a: nat, b: nat)
    requires a < Two32 && b < Two32
    ensures Signed(a) == Signed(b) <==> a == b
  {
  }
}
