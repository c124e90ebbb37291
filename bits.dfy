/** Binary representations of the opening-hour masks: powers of two, the bit
    at a position, and the masks with a run of bits set. */
module Bits {

  function Pow2(n: nat): (p: nat)
    ensures p >= 1
  {
    if n == 0 then 1 else 2 * Pow2(n - 1)
  }

  lemma {:induction false} Pow2Add(a: nat, b: nat)
    ensures Pow2(a + b) == Pow2(a) * Pow2(b)
  {
    if a > 0 {
      Pow2Add(a - 1, b);
      assert Pow2(a + b) == 2 * Pow2(a - 1 + b);
    }
  }

  lemma {:induction false} Pow2Monotone(a: nat, b: nat)
    requires a <= b
    ensures Pow2(a) <= Pow2(b)
  {
    if a < b {
      Pow2Monotone(a, b - 1);
    }
  }

  /** Bit `k` of `m`: the remainder after halving `m` `k` times. */
  function Bit(m: nat, k: nat): (b: nat)
    ensures b < 2
  {
    if k == 0 then m % 2 else Bit(m / 2, k - 1)
  }

  /** A number below 2^n has no bit at n or above. */
  lemma {:induction false} BitAboveBound(m: nat, n: nat, k: nat)
    requires m < Pow2(n) && n <= k
    ensures Bit(m, k) == 0
  {
    if k > 0 {
      if n > 0 {
        BitAboveBound(m / 2, n - 1, k - 1);
      } else {
        assert m == 0;
        BitAboveBound(0, 0, k - 1);
      }
    }
  }

  /** 2^len - 1 has exactly the bits 0 .. len-1 set. */
  lemma {:induction false} BitOfOnes(len: nat, k: nat)
    ensures Bit(Pow2(len) - 1, k) == if k < len then 1 else 0
  {
    if len == 0 {
      BitAboveBound(0, 0, k);
    } else if k > 0 {
      BitOfOnes(len - 1, k - 1);
      assert (Pow2(len) - 1) / 2 == Pow2(len - 1) - 1;
    }
  }

  /** Shifting left by `s` moves every bit up by `s` and clears the low
      ones. */
  lemma {:induction false} BitOfShifted(x: nat, s: nat, k: nat)
    ensures Bit(x * Pow2(s), k) == if k < s then 0 else Bit(x, k - s)
  {
    if s > 0 {
      var y := x * Pow2(s - 1);
      assert x * Pow2(s) == 2 * y;
      if k > 0 {
        assert (2 * y) / 2 == y;
        BitOfShifted(x, s - 1, k - 1);
      }
    }
  }

  /** `((1 << len) - 1) << open`: the run of `len` bits from `open`. */
  function Run(open: nat, len: nat): nat {
    (Pow2(len) - 1) * Pow2(open)
  }

  /** The run has exactly the bits open .. open+len-1 set. */
  lemma RunBits(open: nat, len: nat, k: nat)
    ensures Bit(Run(open, len), k) == if open <= k < open + len then 1 else 0
  {
    BitOfShifted(Pow2(len) - 1, open, k);
    if k >= open {
      BitOfOnes(len, k - open);
    }
  }

  /** The run lies below 2^(open+len). */
  lemma RunBound(open: nat, len: nat)
    ensures Run(open, len) < Pow2(open + len)
  {
    Pow2Add(len, open);
    assert Run(open, len) == Pow2(len) * Pow2(open) - Pow2(open);
  }

  /** A positive multiple of `d` is at least `d`. */
  lemma {:induction false} MulAtLeast(d: nat, k: nat)
    requires k >= 1
    ensures d * k >= d
  {
    if k > 1 {
      MulAtLeast(d, k - 1);
      assert d * k == d * (k - 1) + d;
    }
  }

  /** Euclidean division is unique. */
  lemma DivModUnique(m: int, d: int, q: int, x: int)
    requires d > 0 && 0 <= x < d && m == d * q + x
    ensures m / d == q && m % d == x
  {
    var q', x' := m / d, m % d;
    var e := q' - q;
    assert d * e == x - x' by {
      assert d * q' == d * q + d * e;
    }
    if e >= 1 {
      MulAtLeast(d, e);
    }
  }

  /** Halving commutes with reduction modulo a power of two. */
  lemma ModHalf(m: nat, p: nat)
    requires p >= 1
    ensures (m % (2 * p)) % 2 == m % 2
    ensures (m % (2 * p)) / 2 == (m / 2) % p
  {
    var h, b := m / 2, m % 2;
    var big, r := h / p, h % p;
    assert h == p * big + r;
    assert m == (2 * p) * big + (2 * r + b);
    DivModUnique(m, 2 * p, big, 2 * r + b);
    DivModUnique(2 * r + b, 2, r, b);
  }

  /** The bits below `n` survive reduction modulo 2^n. */
  lemma {:induction false} BitLowPart(m: nat, n: nat, k: nat)
    requires k < n
    ensures Bit(m % Pow2(n), k) == Bit(m, k)
  {
    ModHalf(m, Pow2(n - 1));
    if k > 0 {
      BitLowPart(m / 2, n - 1, k - 1);
    }
  }
}
