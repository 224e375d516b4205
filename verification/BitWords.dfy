/** Unsigned machine words as natural numbers, with the bit operators of C
    defined digit by digit. No width is imposed: a word of w bits behaves the
    same as long as every value stays below Pow2(w). */
module BitWords {
  import opened Arith

  function Pow2(n: nat): (r: nat)
    ensures r >= 1
  {
    if n == 0 then 1 else 2 * Pow2(n - 1)
  }

  function Bit(x: nat, i: nat): bool {
    if i == 0 then x % 2 == 1 else Bit(x / 2, i - 1)
  }

  function Xor(x: nat, y: nat): nat
    decreases x + y
  {
    if x == 0 && y == 0 then 0 else 2 * Xor(x / 2, y / 2) + (if x % 2 == y % 2 then 0 else 1)
  }

  function And(x: nat, y: nat): nat
    decreases x + y
  {
    if x == 0 && y == 0 then 0 else 2 * And(x / 2, y / 2) + (if x % 2 == 1 && y % 2 == 1 then 1 else 0)
  }

  function Or(x: nat, y: nat): nat
    decreases x + y
  {
    if x == 0 && y == 0 then 0 else 2 * Or(x / 2, y / 2) + (if x % 2 == 1 || y % 2 == 1 then 1 else 0)
  }

  function Shr(x: nat, k: nat): nat { if k == 0 then x else Shr(x / 2, k - 1) }
  function Shl(x: nat, k: nat): nat { if k == 0 then x else 2 * Shl(x, k - 1) }

  /** The mask of the low n bits. */
  function Ones(n: nat): nat { Pow2(n) - 1 }

  // ------------------------------------------------------------------
  // Bits of the operators
  // ------------------------------------------------------------------

  lemma {:induction false} ZeroBit(i: nat)
    ensures !Bit(0, i)
  {
    if i > 0 { ZeroBit(i - 1); }
  }

  lemma {:induction false} XorBit(x: nat, y: nat, i: nat)
    ensures Bit(Xor(x, y), i) == (Bit(x, i) != Bit(y, i))
    decreases i
  {
    if x == 0 && y == 0 { ZeroBit(i); }
    else if i > 0 {
      assert Xor(x, y) / 2 == Xor(x / 2, y / 2);
      XorBit(x / 2, y / 2, i - 1);
    }
  }

  lemma {:induction false} AndBit(x: nat, y: nat, i: nat)
    ensures Bit(And(x, y), i) == (Bit(x, i) && Bit(y, i))
    decreases i
  {
    if x == 0 && y == 0 { ZeroBit(i); }
    else if i > 0 {
      assert And(x, y) / 2 == And(x / 2, y / 2);
      AndBit(x / 2, y / 2, i - 1);
    }
  }

  lemma {:induction false} OrBit(x: nat, y: nat, i: nat)
    ensures Bit(Or(x, y), i) == (Bit(x, i) || Bit(y, i))
    decreases i
  {
    if x == 0 && y == 0 { ZeroBit(i); }
    else if i > 0 {
      assert Or(x, y) / 2 == Or(x / 2, y / 2);
      OrBit(x / 2, y / 2, i - 1);
    }
  }

  lemma {:induction false} ShrBit(x: nat, k: nat, i: nat)
    ensures Bit(Shr(x, k), i) == Bit(x, i + k)
    decreases k
  {
    if k > 0 {
      ShrBit(x / 2, k - 1, i);
    }
  }

  lemma {:induction false} ShlBit(x: nat, k: nat, i: nat)
    ensures Bit(Shl(x, k), i) == (i >= k && Bit(x, i - k))
    decreases k
  {
    if k > 0 && i > 0 {
      assert Shl(x, k) / 2 == Shl(x, k - 1);
      ShlBit(x, k - 1, i - 1);
    }
  }

  lemma {:induction false} Pow2Bit(k: nat, i: nat)
    ensures Bit(Pow2(k), i) == (i == k)
  {
    if k == 0 {
      if i > 0 { ZeroBit(i - 1); }
    } else if i > 0 {
      assert Pow2(k) / 2 == Pow2(k - 1);
      Pow2Bit(k - 1, i - 1);
    }
  }

  lemma {:induction false} OnesBit(k: nat, i: nat)
    ensures Bit(Ones(k), i) == (i < k)
  {
    if k == 0 {
      ZeroBit(i);
    } else if i > 0 {
      assert Ones(k) / 2 == Ones(k - 1);
      OnesBit(k - 1, i - 1);
    }
  }

  /** A word below Pow2(n) has no bit at or above n, and conversely. */
  lemma {:induction false} BelowBit(x: nat, n: nat, i: nat)
    requires x < Pow2(n) && i >= n
    ensures !Bit(x, i)
  {
    if n == 0 { ZeroBit(i); } else { BelowBit(x / 2, n - 1, i - 1); }
  }

  lemma {:induction false} BelowFromBits(x: nat, n: nat)
    requires forall i: nat :: i >= n ==> !Bit(x, i)
    ensures x < Pow2(n)
    decreases n, x
  {
    if n > 0 {
      forall i: nat | i >= n - 1 ensures !Bit(x / 2, i) { assert !Bit(x, i + 1); }
      BelowFromBits(x / 2, n - 1);
    } else if x > 0 {
      assert !Bit(x, 0);
      forall i: nat | i >= 0 ensures !Bit(x / 2, i) { assert !Bit(x, i + 1); }
      BelowFromBits(x / 2, 0);
      assert false;
    }
  }

  /** Words are determined by their bits. */
  lemma {:induction false} SameBits(x: nat, y: nat)
    requires forall i: nat :: Bit(x, i) == Bit(y, i)
    ensures x == y
    decreases x + y
  {
    assert Bit(x, 0) == Bit(y, 0);
    if x > 0 || y > 0 {
      forall i: nat ensures Bit(x / 2, i) == Bit(y / 2, i) { assert Bit(x, i + 1) == Bit(y, i + 1); }
      SameBits(x / 2, y / 2);
    }
  }

  lemma SameLowBits(x: nat, y: nat, n: nat)
    requires x < Pow2(n) && y < Pow2(n)
    requires forall i: nat :: i < n ==> Bit(x, i) == Bit(y, i)
    ensures x == y
  {
    forall i: nat ensures Bit(x, i) == Bit(y, i) {
      if i >= n { BelowBit(x, n, i); BelowBit(y, n, i); }
    }
    SameBits(x, y);
  }

  // ------------------------------------------------------------------
  // Algebra
  // ------------------------------------------------------------------

  lemma {:induction false} XorSelf(x: nat)
    ensures Xor(x, x) == 0
  {
    if x > 0 { XorSelf(x / 2); }
  }

  lemma {:induction false} XorZero(x: nat)
    ensures Xor(x, 0) == x && Xor(0, x) == x
  {
    if x > 0 { XorZero(x / 2); }
  }

  lemma XorComm(x: nat, y: nat)
    ensures Xor(x, y) == Xor(y, x)
  {
    forall i: nat ensures Bit(Xor(x, y), i) == Bit(Xor(y, x), i) { XorBit(x, y, i); XorBit(y, x, i); }
    SameBits(Xor(x, y), Xor(y, x));
  }

  lemma XorAssoc(x: nat, y: nat, z: nat)
    ensures Xor(Xor(x, y), z) == Xor(x, Xor(y, z))
  {
    forall i: nat ensures Bit(Xor(Xor(x, y), z), i) == Bit(Xor(x, Xor(y, z)), i) {
      XorBit(Xor(x, y), z, i); XorBit(x, y, i); XorBit(x, Xor(y, z), i); XorBit(y, z, i);
    }
    SameBits(Xor(Xor(x, y), z), Xor(x, Xor(y, z)));
  }

  /** Xor with the same word twice is the identity. */
  lemma XorCancel(x: nat, y: nat)
    ensures Xor(x, Xor(x, y)) == y && Xor(Xor(y, x), x) == y
  {
    XorAssoc(x, x, y);
    XorSelf(x);
    XorZero(y);
    XorAssoc(y, x, x);
  }

  lemma XorHalf(x: nat, y: nat)
    ensures Xor(x, y) / 2 == Xor(x / 2, y / 2)
  {
  }

  lemma XorParts(x: nat, y: nat)
    ensures Xor(x, y) == 2 * Xor(x / 2, y / 2) + (if x % 2 == y % 2 then 0 else 1)
  {
  }

  lemma XorOdd(d: nat, x: nat, y: nat)
    requires d == Xor(x, y)
    ensures d % 2 == (if x % 2 == y % 2 then 0 else 1)
  {
    XorParts(x, y);
  }

  lemma {:induction false} XorShr(x: nat, y: nat, k: nat)
    ensures Shr(Xor(x, y), k) == Xor(Shr(x, k), Shr(y, k))
    decreases k
  {
    if k > 0 {
      XorHalf(x, y);
      XorShr(x / 2, y / 2, k - 1);
    }
  }

  lemma XorBelow(x: nat, y: nat, n: nat)
    requires x < Pow2(n) && y < Pow2(n)
    ensures Xor(x, y) < Pow2(n)
  {
    forall i: nat | i >= n ensures !Bit(Xor(x, y), i) { XorBit(x, y, i); BelowBit(x, n, i); BelowBit(y, n, i); }
    BelowFromBits(Xor(x, y), n);
  }

  lemma {:induction false} ShrShr(x: nat, a: nat, b: nat)
    ensures Shr(Shr(x, a), b) == Shr(x, a + b)
    decreases a
  {
    if a > 0 { ShrShr(x / 2, a - 1, b); }
  }

  lemma ShrOne(x: nat)
    ensures Shr(x, 1) == x / 2
  {
    assert Shr(x / 2, 0) == x / 2;
  }

  lemma {:induction false} ShrIsDiv(x: nat, k: nat)
    ensures Shr(x, k) == x / Pow2(k)
    ensures Shr(x, k) == 0 <==> x < Pow2(k)
  {
    if k > 0 {
      ShrIsDiv(x / 2, k - 1);
      DivDiv(x, Pow2(k - 1));
    }
  }

  lemma DivDiv(x: nat, p: nat)
    requires p >= 1
    ensures (x / 2) / p == x / (2 * p)
  {
    var q := x / (2 * p);
    var r := x % (2 * p);
    assert x == q * (2 * p) + r;
    assert q * (2 * p) == 2 * (q * p);
    assert x / 2 == q * p + r / 2;
    DivOf(q, r / 2, p);
  }

  lemma DivOf(q: nat, r: nat, p: nat)
    requires r < p
    ensures (q * p + r) / p == q && (q * p + r) % p == r
  {
    var y := q * p + r;
    assert y == (y / p) * p + y % p;
    DivUnique(y / p, y % p, q, r, p);
  }

  lemma {:induction false} ShlIsMul(x: nat, k: nat)
    ensures Shl(x, k) == x * Pow2(k)
  {
    if k > 0 {
      ShlIsMul(x, k - 1);
      assert 2 * (x * Pow2(k - 1)) == x * (2 * Pow2(k - 1));
    }
  }

  lemma {:induction false} Pow2Add(a: nat, b: nat)
    ensures Pow2(a + b) == Pow2(a) * Pow2(b)
  {
    if a > 0 {
      Pow2Add(a - 1, b);
      assert 2 * (Pow2(a - 1) * Pow2(b)) == (2 * Pow2(a - 1)) * Pow2(b);
    }
  }

  lemma {:induction false} Pow2Mono(a: nat, b: nat)
    requires a <= b
    ensures Pow2(a) <= Pow2(b)
  {
    if a < b { Pow2Mono(a, b - 1); }
  }

  /** Masking with Ones(n) is the remainder modulo Pow2(n). */
  lemma {:induction false} MaskIsMod(x: nat, n: nat)
    ensures And(x, Ones(n)) == x % Pow2(n)
  {
    if n == 0 {
      AndZero(x);
    } else {
      assert Ones(n) / 2 == Ones(n - 1) && Ones(n) % 2 == 1;
      assert And(x, Ones(n)) == 2 * And(x / 2, Ones(n - 1)) + x % 2;
      MaskIsMod(x / 2, n - 1);
      ModHalf(x, Pow2(n - 1));
    }
  }

  lemma {:induction false} AndZero(x: nat)
    ensures And(x, 0) == 0
  {
    if x > 0 { AndZero(x / 2); }
  }

  lemma ModHalf(x: nat, p: nat)
    requires p >= 1
    ensures x % (2 * p) == 2 * ((x / 2) % p) + x % 2
  {
    var h := x / 2;
    var q, r := h / p, h % p;
    assert h == q * p + r;
    assert x == 2 * h + x % 2;
    assert x == q * (2 * p) + (2 * r + x % 2) by { assert q * (2 * p) == 2 * (q * p); }
    DivOf(q, 2 * r + x % 2, 2 * p);
  }

  lemma ModBit(x: nat, n: nat, i: nat)
    ensures Bit(x % Pow2(n), i) == (i < n && Bit(x, i))
  {
    MaskIsMod(x, n);
    AndBit(x, Ones(n), i);
    OnesBit(n, i);
  }

  lemma XorMod(x: nat, y: nat, n: nat)
    ensures Xor(x, y) % Pow2(n) == Xor(x % Pow2(n), y % Pow2(n))
  {
    forall i: nat ensures Bit(Xor(x, y) % Pow2(n), i) == Bit(Xor(x % Pow2(n), y % Pow2(n)), i) {
      ModBit(Xor(x, y), n, i); ModBit(x, n, i); ModBit(y, n, i);
      XorBit(x, y, i); XorBit(x % Pow2(n), y % Pow2(n), i);
    }
    SameBits(Xor(x, y) % Pow2(n), Xor(x % Pow2(n), y % Pow2(n)));
  }
}
