/** Powers of two and single bits, as far as the hash map's capacities need them: masking is taking a remainder, and
    the shifts of tmq_map_alloc_buckets round up (base/mqtt_map.c:119-142). */
module Bits {

  function Power(k: nat): (p: nat)
    ensures p > 0
  {
    if k == 0 then 1 else 2 * Power(k - 1)
  }

  ghost predicate PowerOfTwo(c: nat) {
    exists k: nat :: c == Power(k)
  }

  /** The bitwise conjunction of two numbers. */
  function BitAnd(a: nat, b: nat): nat {
    if a == 0 || b == 0 then 0 else (if a % 2 == 1 && b % 2 == 1 then 1 else 0) + 2 * BitAnd(a / 2, b / 2)
  }

  lemma {:induction false} BelowMask(a: nat, b: nat)
    ensures BitAnd(a, b) <= b
  {
    if a > 0 && b > 0 {
      BelowMask(a / 2, b / 2);
    }
  }

  /** h shifted right by k bits. */
  function Shift(h: nat, k: nat): nat {
    if k == 0 then h else Shift(h / 2, k - 1)
  }

  lemma Regroup(p: nat, s: nat)
    ensures 2 * (p * s) == 2 * p * s
  {
  }

  /** Masking with one less than a power of two leaves the remainder of dividing by the power. */
  lemma {:induction false} MaskIsRemainder(h: nat, k: nat)
    ensures h == Power(k) * Shift(h, k) + BitAnd(h, Power(k) - 1)
    ensures BitAnd(h, Power(k) - 1) < Power(k)
  {
    BelowMask(h, Power(k) - 1);
    if k > 0 {
      var p := Power(k - 1);
      MaskIsRemainder(h / 2, k - 1);
      Regroup(p, Shift(h, k));
      assert (2 * p - 1) / 2 == p - 1 && (2 * p - 1) % 2 == 1;
      assert BitAnd(h, 2 * p - 1) == h % 2 + 2 * BitAnd(h / 2, p - 1);
    }
  }

  lemma Remainder(h: nat, d: nat, q: nat, r: nat)
    requires r < d && h == d * q + r
    ensures h % d == r
  {
    var q', r' := h / d, h % d;
    assert h == d * q' + r';
    assert d * (q' - q) == r - r' && d * (q - q') == r' - r;
    if q' > q {
      AtLeastOnce(d, q' - q);
    } else if q' < q {
      AtLeastOnce(d, q - q');
    }
  }

  lemma AtLeastOnce(d: nat, k: nat)
    requires k >= 1
    ensures d * k >= d
  {
    assert d * k == d * (k - 1) + d;
  }

  // ---------- single bits ----------

  predicate Bit(x: nat, i: nat) {
    if i == 0 then x % 2 == 1 else Bit(x / 2, i - 1)
  }

  function BitOr(a: nat, b: nat): nat {
    if a == 0 then b
    else if b == 0 then a
    else (if a % 2 == 1 || b % 2 == 1 then 1 else 0) + 2 * BitOr(a / 2, b / 2)
  }

  lemma {:induction false} ZeroBit(i: nat)
    ensures !Bit(0, i)
  {
    if i > 0 {
      ZeroBit(i - 1);
    }
  }

  lemma {:induction false} OrBit(a: nat, b: nat, i: nat)
    ensures Bit(BitOr(a, b), i) <==> Bit(a, i) || Bit(b, i)
    decreases i
  {
    if a == 0 || b == 0 {
      ZeroBit(i);
    } else if i > 0 {
      var low := if a % 2 == 1 || b % 2 == 1 then 1 else 0;
      assert (low + 2 * BitOr(a / 2, b / 2)) / 2 == BitOr(a / 2, b / 2);
      OrBit(a / 2, b / 2, i - 1);
    }
  }

  lemma {:induction false} ShiftBit(x: nat, j: nat, i: nat)
    ensures Bit(Shift(x, j), i) <==> Bit(x, i + j)
    decreases j
  {
    if j > 0 {
      ShiftBit(x / 2, j - 1, i);
    }
  }

  lemma {:induction false} NoBits(y: nat)
    requires forall i: nat :: !Bit(y, i)
    ensures y == 0
  {
    if y > 0 {
      assert !Bit(y, 0);
      forall i: nat ensures !Bit(y / 2, i) {
        assert !Bit(y, i + 1);
      }
      NoBits(y / 2);
    }
  }

  lemma {:induction false} LowBits(y: nat, k: nat)
    requires forall i: nat :: Bit(y, i) <==> i < k
    ensures y == Power(k) - 1
    decreases k
  {
    if k == 0 {
      NoBits(y);
    } else {
      assert Bit(y, 0);
      forall i: nat ensures Bit(y / 2, i) <==> i < k - 1 {
        assert Bit(y, i + 1) <==> i + 1 < k;
      }
      LowBits(y / 2, k - 1);
    }
  }

  /** The number k of bits of x. */
  lemma {:induction false} TopBit(x: nat, n: nat) returns (k: nat)
    requires 0 < x < Power(n)
    ensures 0 < k <= n && Power(k - 1) <= x < Power(k)
    ensures Bit(x, k - 1) && forall i: nat :: k <= i ==> !Bit(x, i)
    decreases x
  {
    if x == 1 {
      k := 1;
      forall i: nat | 1 <= i ensures !Bit(x, i) {
        ZeroBit(i - 1);
      }
    } else {
      k := TopBit(x / 2, n - 1);
      forall i: nat | k + 1 <= i ensures !Bit(x, i) {
        assert !Bit(x / 2, i - 1);
      }
      k := k + 1;
    }
  }

  // ---------- rounding up to a power of two ----------

  ghost predicate Above(x: nat, i: nat, n: nat) {
    exists p: nat :: i <= p < i + n && Bit(x, p)
  }

  /** A bit of y is set if one of the n bits of x from there upwards is. */
  ghost predicate Smeared(x: nat, y: nat, n: nat) {
    forall i: nat :: Bit(y, i) <==> Above(x, i, n)
  }

  lemma NotSmeared(x: nat)
    ensures Smeared(x, x, 1)
  {
    forall i: nat ensures Bit(x, i) <==> Above(x, i, 1) {
      if Above(x, i, 1) {
        var p: nat :| i <= p < i + 1 && Bit(x, p);
        assert p == i;
      }
    }
  }

  lemma SmearMore(x: nat, y: nat, n: nat)
    requires Smeared(x, y, n)
    ensures Smeared(x, BitOr(y, Shift(y, n)), 2 * n)
  {
    forall i: nat ensures Bit(BitOr(y, Shift(y, n)), i) <==> Above(x, i, 2 * n) {
      OrBit(y, Shift(y, n), i);
      ShiftBit(y, n, i);
      assert Bit(y, i) <==> Above(x, i, n);
      assert Bit(y, i + n) <==> Above(x, i + n, n);
    }
  }

  lemma {:induction false} PowerGrows(a: nat, b: nat)
    requires a < b
    ensures 2 * Power(a) <= Power(b)
    decreases b
  {
    if a < b - 1 {
      PowerGrows(a, b - 1);
    }
  }

  /** Smearing over 32 bits rounds up to the least power of two that is large enough. */
  lemma SmearRoundsUp(v: nat, y: nat)
    requires 0 < v <= Power(32) && Smeared(v - 1, y, 32)
    ensures y + 1 == RoundUp(v)
  {
    var x := v - 1;
    if x == 0 {
      forall i: nat ensures !Bit(y, i) {
        ZeroAbove(i, 32);
      }
      NoBits(y);
    } else {
      var k := TopBit(x, 32);
      forall i: nat ensures Bit(y, i) <==> i < k {
        assert Bit(y, i) <==> Above(x, i, 32);
        if i < k {
          var p: nat := k - 1;
          assert i <= p < i + 32 && Bit(x, p);
        }
      }
      LowBits(y, k);
      SamePower(v, k);
    }
  }

  lemma ZeroAbove(i: nat, n: nat)
    ensures !Above(0, i, n)
  {
    forall p: nat | i <= p < i + n ensures !Bit(0, p) {
      ZeroBit(p);
    }
  }

  lemma SamePower(v: nat, k: nat)
    requires k > 0 && Power(k - 1) < v <= Power(k)
    ensures RoundUp(v) == Power(k)
  {
    var j: nat :| RoundUp(v) == Power(j);
    if j < k {
      PowerGrows(j, k);
    } else if j > k {
      PowerGrows(k, j);
    }
  }

  /** The least power of two that is not below v. */
  function RoundUp(v: nat): (c: nat)
    ensures v <= c && PowerOfTwo(c)
    ensures v > 0 ==> c < 2 * v
  {
    if v <= 1 then
      assert Power(0) == 1;
      1
    else
      var half := RoundUp((v + 1) / 2);
      ghost var k: nat :| half == Power(k);
      assert Power(k + 1) == 2 * half;
      2 * half
  }

  lemma {:induction false} RoundUpPower(k: nat)
    ensures RoundUp(Power(k)) == Power(k)
  {
    if k > 0 {
      assert (2 * Power(k - 1) + 1) / 2 == Power(k - 1);
      RoundUpPower(k - 1);
    }
  }

  lemma PowerIs()
    ensures Power(31) == 0x8000_0000 && Power(32) == 0x1_0000_0000
  {
    assert Power(4) == 16;
    assert Power(8) == 256;
    assert Power(12) == 4096;
    assert Power(16) == 65536;
    assert Power(20) == 0x10_0000;
    assert Power(24) == 0x100_0000;
    assert Power(28) == 0x1000_0000;
  }
}
