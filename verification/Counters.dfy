/** The ring buffer's counters: 64-bit words that wrap, and the bit mask that turns one into a slot. */
module Counters {
  const WORD: nat := 0x1_0000_0000_0000_0000

  /** A `std::size_t`. */
  type Word = n: nat | n < WORD

  function Wrap(n: int): Word {
    n % WORD
  }

  lemma WrapSuccessor(n: nat)
    ensures Wrap(Wrap(n) + 1) == Wrap(n + 1)
  {
  }

  /** Unsigned subtraction, as `head - tail` computes it. */
  function Sub(a: Word, b: Word): Word {
    Wrap(a - b)
  }

  /** Bitwise `&`, bit by bit from the low end. */
  function BitAnd(a: nat, b: nat): (r: nat)
    ensures r <= b
  {
    if a == 0 || b == 0 then 0
    else 2 * BitAnd(a / 2, b / 2) + (a % 2) * (b % 2)
  }

  /** The static_assert on the capacity. */
  predicate ValidCapacity(c: Word) {
    c > 0 && BitAnd(c, c - 1) == 0
  }

  function Pow2(k: nat): nat {
    if k == 0 then 1 else 2 * Pow2(k - 1)
  }

  lemma {:induction false} BitAndSelf(a: nat)
    ensures BitAnd(a, a) == a
  {
    if a != 0 { BitAndSelf(a / 2); }
  }

  /** A valid capacity above one is twice a valid capacity. */
  lemma HalveCapacity(c: Word)
    requires ValidCapacity(c) && c > 1
    ensures c % 2 == 0 && ValidCapacity(c / 2)
  {
    if c % 2 == 1 {
      assert (c - 1) / 2 == c / 2;
      BitAndSelf(c / 2);
    } else {
      assert (c - 1) / 2 == c / 2 - 1;
    }
  }

  lemma DoubleCapacity(d: nat)
    requires d > 0 && BitAnd(d, d - 1) == 0
    ensures BitAnd(2 * d, 2 * d - 1) == 0
  {
    assert (2 * d - 1) / 2 == d - 1;
  }

  lemma {:induction false} PowersAreValid(k: nat)
    requires k < 64
    ensures Pow2(k) < WORD && ValidCapacity(Pow2(k))
  {
    Pow2Split(k, 64);
    if k > 0 {
      PowersAreValid(k - 1);
      DoubleCapacity(Pow2(k - 1));
    }
  }

  lemma {:induction false} Pow2Split(k: nat, n: nat)
    requires k < n
    ensures 2 * Pow2(k) <= Pow2(n)
    ensures Pow2(64) == WORD
  {
    assert Pow2(8) == 0x100;
    assert Pow2(16) == 0x1_0000 by { assert Pow2(12) == 0x1000; }
    assert Pow2(24) == 0x100_0000 by { assert Pow2(20) == 0x10_0000; }
    assert Pow2(32) == 0x1_0000_0000 by { assert Pow2(28) == 0x1000_0000; }
    assert Pow2(40) == 0x100_0000_0000 by { assert Pow2(36) == 0x10_0000_0000; }
    assert Pow2(48) == 0x1_0000_0000_0000 by { assert Pow2(44) == 0x1000_0000_0000; }
    assert Pow2(56) == 0x100_0000_0000_0000 by { assert Pow2(52) == 0x10_0000_0000_0000; }
    assert Pow2(64) == WORD by { assert Pow2(60) == 0x1000_0000_0000_0000; }
    if k + 1 < n { Pow2Split(k, n - 1); }
  }

  lemma {:induction false} CapacityExponent(c: Word) returns (k: nat)
    requires ValidCapacity(c)
    ensures k < 64 && c == Pow2(k)
  {
    if c == 1 {
      k := 0;
    } else {
      HalveCapacity(c);
      var j := CapacityExponent(c / 2);
      k := j + 1;
      if k == 64 { Pow2Split(0, 64); }
    }
  }

  /** The static_assert admits exactly the powers of two that a word can hold. */
  lemma ValidCapacityIsPowerOfTwo(c: Word)
    ensures ValidCapacity(c) <==> exists k: nat :: k < 64 && c == Pow2(k)
  {
    if ValidCapacity(c) {
      var k := CapacityExponent(c);
    }
    forall k: nat | k < 64 && c == Pow2(k) ensures ValidCapacity(c) {
      PowersAreValid(k);
    }
  }

  /** Masking with `Capacity - 1` is reduction modulo the capacity. */
  lemma {:induction false} MaskIsModulo(x: nat, c: Word)
    requires ValidCapacity(c)
    ensures BitAnd(x, c - 1) == x % c
    decreases c
  {
    if c > 1 {
      HalveCapacity(c);
      var d := c / 2;
      MaskIsModulo(x / 2, d);
      assert (c - 1) / 2 == d - 1 && (c - 1) % 2 == 1;
      DoubleModulo(x, d);
    }
  }

  lemma DoubleModulo(x: nat, d: nat)
    requires d > 0
    ensures x % (2 * d) == 2 * (x / 2 % d) + x % 2
  {
    var q := x / 2 / d;
    assert x / 2 == q * d + x / 2 % d;
    assert x == q * (2 * d) + (2 * (x / 2 % d) + x % 2);
    ModuloUnique(x, 2 * d, q, 2 * (x / 2 % d) + x % 2);
  }

  lemma MultipleIsFar(k: int, m: int)
    requires k != 0 && m >= 0
    ensures k * m >= m || k * m <= -m
  {
    if k >= 1 { assert (k - 1) * m >= 0; } else { assert (-k - 1) * m >= 0; }
  }

  lemma ModuloUnique(x: int, m: nat, q: int, r: nat)
    requires m > 0 && x == q * m + r && r < m
    ensures x % m == r && x / m == q
  {
    var q', r' := x / m, x % m;
    assert (q - q') * m == r' - r by { assert x == q' * m + r'; }
    if q != q' { MultipleIsFar(q - q', m); }
  }

  lemma ModuloOfShift(a: nat, b: nat, c: nat)
    requires c > 0
    ensures (a * c + b) % c == b % c
  {
    var v, r := b / c, b % c;
    assert a * c + b == (a + v) * c + r by { assert b == v * c + r; }
    ModuloUnique(a * c + b, c, a + v, r);
  }

  lemma MulAssociates(a: nat, b: nat, c: nat)
    ensures a * (b * c) == (a * b) * c
  {
  }

  lemma ModuloThroughMultiple(n: nat, m: nat, q: nat, c: nat)
    requires m > 0 && c > 0 && m == q * c
    ensures n % m % c == n % c
  {
    var w := n / m;
    MulAssociates(w, q, c);
    assert n == (w * q) * c + n % m;
    ModuloOfShift(w * q, n % m, c);
  }

  lemma CapacityDividesWord(c: Word) returns (q: nat)
    requires ValidCapacity(c)
    ensures WORD == q * c
  {
    var k := CapacityExponent(c);
    Pow2Split(0, 64);
    q := Pow2Divides(k, 64);
  }

  lemma {:induction false} Pow2Divides(k: nat, n: nat) returns (q: nat)
    requires k <= n
    ensures Pow2(n) == q * Pow2(k)
  {
    if k == n { q := 1; } else { var p := Pow2Divides(k, n - 1); q := 2 * p; }
  }

  /** The masked wrapping counter is the unbounded counter modulo the capacity, however often it wrapped. */
  lemma SlotOfCounter(n: nat, c: Word)
    requires ValidCapacity(c)
    ensures BitAnd(Wrap(n), c - 1) == n % c
  {
    MaskIsModulo(Wrap(n), c);
    var q := CapacityDividesWord(c);
    ModuloThroughMultiple(n, WORD, q, c);
  }

  /** `head - tail` is the element count, and `head == tail` means empty, for unbounded counters h and t. */
  lemma CountIsExact(h: nat, t: nat, c: Word)
    requires t <= h <= t + c
    ensures Sub(Wrap(h), Wrap(t)) == h - t
    ensures Wrap(h) == Wrap(t) <==> h == t
  {
    var a, b := h / WORD, t / WORD;
    assert h == a * WORD + Wrap(h) && t == b * WORD + Wrap(t);
    assert Wrap(h) - Wrap(t) == (b - a) * WORD + (h - t);
    ModuloUnique(Wrap(h) - Wrap(t), WORD, b - a, h - t);
  }

  /** Counters less than a capacity apart use different slots. */
  lemma DistinctSlots(n: nat, m: nat, c: nat)
    requires n < m < n + c
    ensures n % c != m % c
  {
    var k := m / c - n / c;
    assert k * c == (m - n) - (m % c - n % c) by {
      assert m == m / c * c + m % c && n == n / c * c + n % c;
    }
    if k != 0 { MultipleIsFar(k, c); }
  }
}
