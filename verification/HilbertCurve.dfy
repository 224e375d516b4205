/** The curve is continuous: consecutive indices are neighbouring cells. The
    proof follows the sub-cubes of the curve: where the walk through one
    sub-cube ends, the walk through the next one begins. */
module HilbertCurve {
  import opened Arith
  import opened BitWords
  import opened Gray
  import opened Hilbert

  // ------------------------------------------------------------------
  // The Gray code, chunk by chunk
  // ------------------------------------------------------------------

  /** The top bit of a chunk, set or not. */
  function Flip(n: nat, p: bool): nat
    requires n >= 1
  {
    if p then Pow2(n - 1) else 0
  }

  /** Chunks of the Gray-coded, masked index, from the chunks of the plain
      index: each is coded alone, with its top bit flipped when the chunk above
      is even. */
  function GrayDigits(n: nat, p: bool, cs: seq<nat>): (gs: seq<nat>)
    requires n >= 1
    ensures |gs| == |cs|
    decreases |cs|
  {
    if cs == [] then []
    else [Xor(Encode(cs[0]), Flip(n, p))] + GrayDigits(n, cs[0] % 2 == 0, cs[1..])
  }

  lemma {:induction false} GrayDigitsSnoc(n: nat, p: bool, cs: seq<nat>, c: nat)
    requires n >= 1
    ensures GrayDigits(n, p, cs + [c]) ==
      GrayDigits(n, p, cs) + [Xor(Encode(c), Flip(n, if cs == [] then p else cs[|cs| - 1] % 2 == 0))]
    decreases |cs|
  {
    if cs == [] {
      assert [c][1..] == [] && GrayDigits(n, c % 2 == 0, []) == [];
      assert cs + [c] == [c];
    } else {
      assert (cs + [c])[1..] == cs[1..] + [c];
      GrayDigitsSnoc(n, cs[0] % 2 == 0, cs[1..], c);
    }
  }

  /** 1 + 2^n + 2^2n + ... , m terms. */
  function Repunit(n: nat, m: nat): nat { if m == 0 then 0 else Or(Shl(Repunit(n, m - 1), n), 1) }

  lemma {:induction false} RepunitValue(n: nat, m: nat)
    requires n >= 1
    ensures Ones(n) * Repunit(n, m) == Pow2(n * m) - 1
  {
    if m == 0 {
      assert n * 0 == 0;
    } else {
      RepunitValue(n, m - 1);
      Pow2Mono(1, n);
      assert Pow2(1) == 2;
      OrAdds(Repunit(n, m - 1), n, 1);
      NextLevel(n, m - 1);
      Pow2Add(n, n * (m - 1));
      RepunitStep(Ones(n), Repunit(n, m - 1), Pow2(n), Pow2(n * (m - 1)));
    }
  }

  lemma RepunitStep(o: int, r: int, p: int, q: int)
    requires o == p - 1 && o * r == q - 1
    ensures o * (r * p + 1) == p * q - 1
  {
    assert o * (r * p + 1) == (o * r) * p + o;
    assert (q - 1) * p == p * q - p;
  }

  lemma NthIsRepunit(n: nat, m: nat)
    requires n >= 1
    ensures NthBits(n, m) == Repunit(n, m) / 2
  {
    MulNonNeg(n, m);
    NthDefined(n, m);
    RepunitValue(n, m);
    Quotient(Shl(1, n * m) - 1, Ones(n), Repunit(n, m));
    ShrOne(Repunit(n, m));
  }

  lemma Quotient(x: nat, o: nat, r: nat)
    requires o >= 1 && o * r == x
    ensures x / o == r
  {
    assert r * o == x;
    DivOf(r, 0, o);
  }

  /** nthbits flips the top bit of every chunk but the first. */
  lemma NthChunks(n: nat, m: nat)
    requires n >= 1 && m >= 1
    ensures Shr(NthBits(n, m), n) == NthBits(n, m - 1)
    ensures NthBits(n, m) % Pow2(n) == Flip(n, m >= 2)
  {
    NthIsRepunit(n, m);
    NthIsRepunit(n, m - 1);
    RepunitChunks(n, m);
  }

  lemma RepunitChunks(n: nat, m: nat)
    requires n >= 1 && m >= 1
    ensures Shr(Repunit(n, m) / 2, n) == Repunit(n, m - 1) / 2
    ensures (Repunit(n, m) / 2) % Pow2(n) == Flip(n, m >= 2)
  {
    RepunitOdd(n, m - 1);
    HalfAppended(n, Repunit(n, m - 1));
  }

  /** Appending ...0001 and halving moves the last bit of s to the top. */
  lemma HalfAppended(n: nat, s: nat)
    requires n >= 1
    ensures var h := Or(Shl(s, n), 1) / 2; Shr(h, n) == s / 2 && h % Pow2(n) == Flip(n, Bit(s, 0))
  {
    var r := Or(Shl(s, n), 1);
    var h, f := r / 2, Flip(n, Bit(s, 0));
    assert Pow2(0) == 1;
    forall i: nat ensures Bit(h, i) == (i >= n - 1 && Bit(s, i - (n - 1))) {
      assert Bit(r, i + 1) == Bit(h, i);
      OrBit(Shl(s, n), 1, i + 1);
      ShlBit(s, n, i + 1);
      Pow2Bit(0, i + 1);
    }
    forall i: nat ensures Bit(h % Pow2(n), i) == Bit(f, i) {
      ModBit(h, n, i);
      Pow2Bit(n - 1, i);
      ZeroBit(i);
    }
    SameBits(h % Pow2(n), f);
    forall i: nat ensures Bit(Shr(h, n), i) == Bit(s / 2, i) {
      ShrBit(h, n, i);
      assert Bit(s / 2, i) == Bit(s, i + 1);
    }
    SameBits(Shr(h, n), s / 2);
  }

  lemma RepunitOdd(n: nat, m: nat)
    requires n >= 1
    ensures Bit(Repunit(n, m), 0) == (m >= 1)
  {
    if m >= 1 {
      OrBit(Shl(Repunit(n, m - 1), n), 1, 0);
    }
  }

  /** The low chunk of the Gray code takes one bit from the rest. */
  lemma EncodeLow(n: nat, x: nat)
    requires n >= 1
    ensures Encode(x) % Pow2(n) == Xor(Encode(x % Pow2(n)), Flip(n, Shr(x, n) % 2 == 1))
    ensures Shr(Encode(x), n) == Encode(Shr(x, n))
  {
    EncodeMod(n, x, x % Pow2(n), Flip(n, Shr(x, n) % 2 == 1));
    XorShr(x, x / 2, n);
    HalfShr(x, n);
  }

  lemma EncodeMod(n: nat, x: nat, low: nat, f: nat)
    requires n >= 1 && low == x % Pow2(n) && f == Flip(n, Shr(x, n) % 2 == 1)
    ensures Encode(x) % Pow2(n) == Xor(Encode(low), f)
  {
    XorMod(x, x / 2, n);
    HalfLow(n, x);
    XorAssoc(low, low / 2, f);
  }

  lemma HalfShr(x: nat, n: nat)
    ensures Shr(x / 2, n) == Shr(x, n) / 2
  {
    ShrShr(x, 1, n);
    ShrShr(x, n, 1);
    ShrOne(x);
    ShrOne(Shr(x, n));
  }

  lemma HalfLow(n: nat, x: nat)
    requires n >= 1
    ensures (x / 2) % Pow2(n) == Xor((x % Pow2(n)) / 2, Flip(n, Shr(x, n) % 2 == 1))
  {
    var half := (x % Pow2(n)) / 2;
    var f := Flip(n, Shr(x, n) % 2 == 1);
    forall i: nat ensures Bit((x / 2) % Pow2(n), i) == Bit(Xor(half, f), i) {
      ModBit(x / 2, n, i);
      XorBit(half, f, i);
      ModBit(x, n, i + 1);
      assert Bit(half, i) == Bit(x % Pow2(n), i + 1) && Bit(x / 2, i) == Bit(x, i + 1);
      ShrBit(x, n, 0);
      Pow2Bit(n - 1, i);
      ZeroBit(i);
    }
    SameBits((x / 2) % Pow2(n), Xor(half, f));
  }

  /** The chunks hilbert_i2c works on. */
  lemma {:induction false} GrayChunks(n: nat, m: nat, x: nat)
    requires n >= 1 && x < Pow2(n * m)
    ensures Chunks(n, m, Xor(Encode(x), NthBits(n, m))) == GrayDigits(n, false, Chunks(n, m, x))
    decreases m
  {
    if m > 0 {
      var nth := NthBits(n, m);
      var g := Xor(Encode(x), nth);
      var low, hi := x % Pow2(n), Shr(x, n);
      ChunksSnoc(n, m, g);
      ChunksSnoc(n, m, x);
      XorShr(Encode(x), nth, n);
      XorMod(Encode(x), nth, n);
      EncodeLow(n, x);
      NthChunks(n, m);
      ShrFits(n, m, x);
      GrayChunks(n, m - 1, hi);
      GrayDigitsSnoc(n, false, Chunks(n, m - 1, hi), low);
      var e, f1, f2 := Encode(low), Flip(n, hi % 2 == 1), Flip(n, m >= 2);
      XorAssoc(e, f1, f2);
      XorSelf(Pow2(n - 1));
      XorZero(0);
      XorZero(Pow2(n - 1));
      if m == 1 {
        assert n * 0 == 0;
        assert hi == 0;
      } else {
        ChunksSnoc(n, m - 1, hi);
        EvenChunk(n, hi);
      }
    }
  }

  lemma EvenChunk(n: nat, x: nat)
    requires n >= 1
    ensures (x % Pow2(n)) % 2 == x % 2
  {
    ModBit(x, n, 0);
  }

  // ------------------------------------------------------------------
  // Rotations of a single bit, and trailing zeros
  // ------------------------------------------------------------------

  function RotateLeft(x: nat, r: nat, n: nat): nat
    requires r <= n
  {
    RotateRight(x, n - r, n)
  }

  function Wrap(i: nat, n: nat): nat { if i >= n then i - n else i }

  lemma RotPow2(i: nat, r: nat, n: nat)
    requires i < n && r < n
    ensures RotateLeft(Pow2(i), r, n) == Pow2(Wrap(i + r, n))
  {
    var a := Wrap(i + r, n);
    Pow2Mono(i + 1, n);
    Pow2Mono(a + 1, n);
    RotBelow(Pow2(i), n - r, n);
    forall j: nat | j < n ensures Bit(RotateLeft(Pow2(i), r, n), j) == Bit(Pow2(a), j) {
      RotBit(Pow2(i), n - r, n, j);
      Pow2Bit(i, if j + (n - r) < n then j + (n - r) else j - r);
      Pow2Bit(a, j);
    }
    SameLowBits(RotateLeft(Pow2(i), r, n), Pow2(a), n);
  }

  lemma RotZero(r: nat, n: nat)
    requires r <= n
    ensures RotateLeft(0, r, n) == 0
  {
    forall j: nat ensures Bit(RotateLeft(0, r, n), j) == Bit(0, j) {
      RotBit(0, n - r, n, j);
      ZeroBit(if j + (n - r) < n then j + (n - r) else if j < n then j - r else j);
      ZeroBit(j);
    }
    SameBits(RotateLeft(0, r, n), 0);
  }

  lemma RotXorBit(x: nat, y: nat, r: nat, n: nat, j: nat)
    requires x < Pow2(n) && y < Pow2(n) && Xor(x, y) < Pow2(n) && r <= n
    ensures Bit(RotateRight(Xor(x, y), r, n), j) == (Bit(RotateRight(x, r, n), j) != Bit(RotateRight(y, r, n), j))
  {
    RotBit(Xor(x, y), r, n, j);
    RotBit(x, r, n, j);
    RotBit(y, r, n, j);
    if j < n { XorBit(x, y, if j + r < n then j + r else j + r - n); }
  }

  lemma RotXor(x: nat, y: nat, r: nat, n: nat)
    requires x < Pow2(n) && y < Pow2(n) && r <= n
    ensures RotateLeft(Xor(x, y), r, n) == Xor(RotateLeft(x, r, n), RotateLeft(y, r, n))
  {
    XorBelow(x, y, n);
    var a, b := RotateLeft(x, r, n), RotateLeft(y, r, n);
    forall j: nat ensures Bit(RotateLeft(Xor(x, y), r, n), j) == Bit(Xor(a, b), j) {
      RotXorBit(x, y, n - r, n, j);
      XorBit(a, b, j);
    }
    SameBits(RotateLeft(Xor(x, y), r, n), Xor(a, b));
  }

  lemma {:induction false} ZerosBits(x: nat, i: nat)
    requires x > 0 && i <= TrailingZeros(x)
    ensures Bit(x, i) == (i == TrailingZeros(x))
    decreases x
  {
    if i > 0 { ZerosBits(x / 2, i - 1); }
  }

  lemma {:induction false} ZerosFromBits(x: nat, k: nat)
    requires Bit(x, k) && forall i: nat :: i < k ==> !Bit(x, i)
    ensures x > 0 && TrailingZeros(x) == k
    decreases k
  {
    if x == 0 { ZeroBit(k); }
    if k > 0 {
      assert !Bit(x, 0);
      forall i: nat | i < k - 1 ensures !Bit(x / 2, i) { assert !Bit(x, i + 1); }
      ZerosFromBits(x / 2, k - 1);
    }
  }

  lemma ZerosBelow(x: nat, n: nat)
    requires 0 < x < Pow2(n)
    ensures TrailingZeros(x) < n
  {
    ZerosBits(x, TrailingZeros(x));
    if TrailingZeros(x) >= n { BelowBit(x, n, TrailingZeros(x)); }
  }

  /** Consecutive numbers differ in one bit of their Gray codes. */
  lemma {:induction false} GrayStep(c: nat)
    ensures Xor(Encode(c), Encode(c + 1)) == Pow2(TrailingZeros(c + 1))
  {
    var h := c / 2;
    EncodeParts(c);
    EncodeParts(c + 1);
    XorParts(Encode(c), Encode(c + 1));
    if c % 2 == 0 {
      assert (c + 1) / 2 == h;
      XorSelf(Encode(h));
    } else {
      assert (c + 1) / 2 == h + 1;
      GrayStep(h);
      assert TrailingZeros(c + 1) == 1 + TrailingZeros(h + 1);
    }
  }

  lemma EncodeParts(c: nat)
    ensures Encode(c) / 2 == Encode(c / 2) && Encode(c) % 2 == (if c % 2 == (c / 2) % 2 then 0 else 1)
  {
    XorHalf(c, c / 2);
    XorOdd(Encode(c), c, c / 2);
  }

  lemma {:induction false} GrayZerosOdd(c: nat)
    requires c % 2 == 1
    ensures Encode(c) > 0 && TrailingZeros(c + 1) >= 1 && TrailingZeros(Encode(c)) == TrailingZeros(c + 1) - 1
  {
    var h := c / 2;
    XorHalf(c, h);
    assert (c + 1) / 2 == h + 1;
    if h % 2 == 1 { GrayZerosOdd(h); }
  }

  lemma {:induction false} GrayZerosEven(y: nat)
    requires y > 0 && y % 2 == 0
    ensures Encode(y) > 0 && TrailingZeros(y) >= 1 && TrailingZeros(Encode(y)) == TrailingZeros(y) - 1
  {
    var h := y / 2;
    XorHalf(y, h);
    if h % 2 == 0 { GrayZerosEven(h); }
  }

  /** Flipping the top bit leaves the lower trailing zeros alone. */
  lemma FlipZeros(n: nat, x: nat, p: bool)
    requires n >= 1 && x > 0 && TrailingZeros(x) < n - 1
    ensures Xor(x, Flip(n, p)) > 0 && TrailingZeros(Xor(x, Flip(n, p))) == TrailingZeros(x)
  {
    var k := TrailingZeros(x);
    forall i: nat | i <= k ensures Bit(Xor(x, Flip(n, p)), i) == (i == k) {
      XorBit(x, Flip(n, p), i);
      ZerosBits(x, i);
      Pow2Bit(n - 1, i);
      ZeroBit(i);
    }
    ZerosFromBits(Xor(x, Flip(n, p)), k);
  }

  // ------------------------------------------------------------------
  // Where a sub-cube is entered and left
  // ------------------------------------------------------------------

  function Repeat(x: nat, k: nat): (s: seq<nat>)
    ensures |s| == k
  {
    seq(k, _ => x)
  }

  lemma RepeatTail(x: nat, k: nat)
    requires k >= 1
    ensures Repeat(x, k)[0] == x && Repeat(x, k)[1..] == Repeat(x, k - 1)
    ensures [x] + Repeat(x, k - 1) == Repeat(x, k)
  {
  }

  /** The corner a sub-cube presents: every level has the same word. */
  function Corner(n: nat, r: nat, e: nat, q: bool): nat
    requires n >= 1 && r < n
  {
    Xor(e, RotateLeft(Flip(n, q), r, n))
  }

  /** One level into a corner leads to the same corner. */
  lemma CornerStays(n: nat, r: nat, e: nat, q: bool)
    requires n >= 1 && r < n
    ensures var w := Corner(n, r, e, q);
      && NextRotation(n, r, Flip(n, q)) == Wrap(r + 1, n)
      && Corner(n, Wrap(r + 1, n), Xor(w, Pow2(r)), true) == w
  {
    var w := Corner(n, r, e, q);
    var top := Pow2(n - 1);
    forall i: nat | i < n ensures Bit(top, i) == (i == n - 1) { Pow2Bit(n - 1, i); }
    ZerosFromBits(top, n - 1);
    RotPow2(n - 1, Wrap(r + 1, n), n);
    XorCancel(Pow2(r), w);
  }

  /** The index of all-zero chunks: the entry corner. */
  lemma {:induction false} EntryWords(n: nat, r: nat, e: nat, p: bool, k: nat)
    requires n >= 1 && r < n
    ensures Words(n, r, e, GrayDigits(n, p, Repeat(0, k))) == Repeat(Corner(n, r, e, p), k)
    decreases k
  {
    if k > 0 {
      RepeatTail(0, k);
      XorZero(Flip(n, p));
      XorZero(0);
      var bits := Flip(n, p);
      var gs := GrayDigits(n, p, Repeat(0, k));
      assert gs[0] == bits && gs[1..] == GrayDigits(n, true, Repeat(0, k - 1));
      var w := Corner(n, r, e, p);
      CornerStays(n, r, e, p);
      EntryWords(n, Wrap(r + 1, n), Xor(w, Pow2(r)), true, k - 1);
      RepeatTail(w, k);
    }
  }

  lemma EncodeOnes(n: nat)
    requires n >= 1
    ensures Encode(Ones(n)) == Pow2(n - 1) && Ones(n) % 2 == 1
  {
    var x := Ones(n);
    assert x / 2 == Ones(n - 1);
    forall i: nat ensures Bit(Encode(x), i) == Bit(Pow2(n - 1), i) {
      XorBit(x, x / 2, i);
      OnesBit(n, i);
      OnesBit(n - 1, i);
      Pow2Bit(n - 1, i);
    }
    SameBits(Encode(x), Pow2(n - 1));
  }

  /** The index of all-ones chunks: the exit corner. */
  lemma {:induction false} ExitWords(n: nat, r: nat, e: nat, p: bool, k: nat)
    requires n >= 1 && r < n
    ensures Words(n, r, e, GrayDigits(n, p, Repeat(Ones(n), k))) == Repeat(Corner(n, r, e, !p), k)
    decreases k
  {
    if k > 0 {
      RepeatTail(Ones(n), k);
      EncodeOnes(n);
      XorSelf(Pow2(n - 1));
      XorZero(Pow2(n - 1));
      var bits := Flip(n, !p);
      var gs := GrayDigits(n, p, Repeat(Ones(n), k));
      assert gs[0] == bits && gs[1..] == GrayDigits(n, false, Repeat(Ones(n), k - 1));
      var w := Corner(n, r, e, !p);
      CornerStays(n, r, e, !p);
      ExitWords(n, Wrap(r + 1, n), Xor(w, Pow2(r)), false, k - 1);
      RepeatTail(w, k);
    }
  }

  // ------------------------------------------------------------------
  // Consecutive indices
  // ------------------------------------------------------------------

  /** Two coordinates one apart. */
  predicate OneApart(x: int, y: int) { x == y + 1 || y == x + 1 }

  /** Two points that differ on axis a, by one, and nowhere else. */
  ghost predicate AdjacentOn(ws: seq<nat>, us: seq<nat>, n: nat, a: nat) {
    a < n && OneApart(CoordOf(ws, a), CoordOf(us, a))
    && forall d: nat :: d < n && d != a ==> CoordOf(ws, d) == CoordOf(us, d)
  }

  lemma {:induction false} CoordHead(w: nat, ws: seq<nat>, d: nat)
    ensures CoordOf([w] + ws, d) == (if Bit(w, d) then Pow2(|ws|) else 0) + CoordOf(ws, d)
    decreases |ws|
  {
    var s := [w] + ws;
    if ws == [] {
      assert s == [w] && s[..0] == [] && CoordOf([], d) == 0;
    } else {
      assert s[..|s| - 1] == [w] + ws[..|ws| - 1];
      CoordHead(w, ws[..|ws| - 1], d);
    }
  }

  lemma {:induction false} CoordRepeat(x: nat, k: nat, d: nat)
    ensures CoordOf(Repeat(x, k), d) == if Bit(x, d) then Ones(k) else 0
    decreases k
  {
    if k > 0 {
      assert Repeat(x, k)[..k - 1] == Repeat(x, k - 1);
      CoordRepeat(x, k - 1, d);
    }
  }

  lemma {:induction false} IndexHead(n: nat, c: nat, cs: seq<nat>)
    requires c < Pow2(n) && AllBelow(cs, n)
    ensures FromChunks(n, [c] + cs) == c * Pow2(n * |cs|) + FromChunks(n, cs)
    decreases |cs|
  {
    var s := [c] + cs;
    var k := |cs|;
    if k == 0 {
      assert s == [c] && s[..0] == [] && n * 0 == 0;
      OrAdds(0, n, c);
    } else {
      assert s[..k] == [c] + cs[..k - 1];
      IndexHead(n, c, cs[..k - 1]);
      OrAdds(FromChunks(n, s[..k]), n, cs[k - 1]);
      OrAdds(FromChunks(n, cs[..k - 1]), n, cs[k - 1]);
      NextLevel(n, k - 1);
      MulNonNeg(n, k - 1);
      Pow2Add(n * (k - 1), n);
      Distribute(c, Pow2(n * (k - 1)), FromChunks(n, cs[..k - 1]), Pow2(n));
    }
  }

  lemma Distribute(c: int, q: int, f: int, p: int)
    ensures (c * q + f) * p == c * (q * p) + f * p
  {
    assert (c * q) * p == c * (q * p);
  }

  lemma {:induction false} ZeroIndex(n: nat, cs: seq<nat>)
    requires AllBelow(cs, n) && FromChunks(n, cs) == 0
    ensures cs == Repeat(0, |cs|)
    decreases |cs|
  {
    if cs != [] {
      var k := |cs|;
      OrAdds(FromChunks(n, cs[..k - 1]), n, cs[k - 1]);
      MulNonNeg(FromChunks(n, cs[..k - 1]), Pow2(n));
      if FromChunks(n, cs[..k - 1]) > 0 { MulMono(1, FromChunks(n, cs[..k - 1]), Pow2(n)); }
      ZeroIndex(n, cs[..k - 1]);
      assert cs == cs[..k - 1] + [cs[k - 1]];
    }
  }

  lemma FullDigits(f: int, c: int, q: int, p: int)
    requires 0 <= c < p && f * p + c == q * p - 1
    ensures f == q - 1 && c == p - 1
  {
    MulSub(1, q, p);
    DivUnique(f, c, q - 1, p - 1, p);
  }

  lemma {:induction false} FullIndex(n: nat, cs: seq<nat>)
    requires AllBelow(cs, n) && FromChunks(n, cs) == Pow2(n * |cs|) - 1
    ensures cs == Repeat(Ones(n), |cs|)
    decreases |cs|
  {
    if cs != [] {
      var k := |cs|;
      MulNonNeg(n, k - 1);
      var f, q, p := FromChunks(n, cs[..k - 1]), Pow2(n * (k - 1)), Pow2(n);
      OrAdds(f, n, cs[k - 1]);
      IndexBelow(n, cs[..k - 1]);
      NextLevel(n, k - 1);
      Pow2Add(n * (k - 1), n);
      FullDigits(f, cs[k - 1], q, p);
      FullIndex(n, cs[..k - 1]);
      assert cs == cs[..k - 1] + [cs[k - 1]];
    }
  }

  /** Two consecutive chunks: the words differ in one bit, and the exit corner
      of the first sub-cube and the entry corner of the second agree except on
      that axis, where each has the other word's bit. */
  lemma Crossing(n: nat, r: nat, e: nat, p: bool, c: nat) returns (a: nat)
    requires n >= 1 && r < n && e < Pow2(n) && c + 1 < Pow2(n)
    ensures a < n
    ensures var b0, b1 := Xor(Encode(c), Flip(n, p)), Xor(Encode(c + 1), Flip(n, p));
      var w0, w1 := Xor(e, RotateLeft(b0, r, n)), Xor(e, RotateLeft(b1, r, n));
      var x := Corner(n, NextRotation(n, r, b0), Xor(w0, Pow2(r)), c % 2 != 0);
      var y := Corner(n, NextRotation(n, r, b1), Xor(w1, Pow2(r)), (c + 1) % 2 == 0);
      forall d: nat :: d < n ==>
        && (Bit(w0, d) != Bit(w1, d) <==> d == a)
        && (Bit(x, d) != Bit(y, d) <==> d == a)
        && (d == a ==> Bit(x, d) == Bit(w1, d))
  {
    var t := TrailingZeros(c + 1);
    ZerosBelow(c + 1, n);
    a := Wrap(t + r, n);
    var b0, b1 := Xor(Encode(c), Flip(n, p)), Xor(Encode(c + 1), Flip(n, p));
    var w0, w1 := Xor(e, RotateLeft(b0, r, n)), Xor(e, RotateLeft(b1, r, n));
    CrossingWords(n, r, e, p, c, a);
    if c % 2 == 0 {
      assert t == 0;
      RotZero(NextRotation(n, r, b0), n);
      RotZero(NextRotation(n, r, b1), n);
      XorZero(Xor(w0, Pow2(r)));
      XorZero(Xor(w1, Pow2(r)));
      forall d: nat | d < n
        ensures Bit(Xor(w0, Pow2(r)), d) == (Bit(w0, d) != (d == r))
        ensures Bit(Xor(w1, Pow2(r)), d) == (Bit(w1, d) != (d == r))
      {
        XorBit(w0, Pow2(r), d);
        XorBit(w1, Pow2(r), d);
        Pow2Bit(r, d);
      }
    } else {
      GrayZerosOdd(c);
      GrayZerosEven(c + 1);
      FlipZeros(n, Encode(c), p);
      FlipZeros(n, Encode(c + 1), p);
      OddCorner(n, r, t, b0, w0);
      OddCorner(n, r, t, b1, w1);
    }
  }

  lemma CrossingWords(n: nat, r: nat, e: nat, p: bool, c: nat, a: nat)
    requires n >= 1 && r < n && e < Pow2(n) && c + 1 < Pow2(n)
    requires TrailingZeros(c + 1) < n && a == Wrap(TrailingZeros(c + 1) + r, n)
    ensures var b0, b1 := Xor(Encode(c), Flip(n, p)), Xor(Encode(c + 1), Flip(n, p));
      var w0, w1 := Xor(e, RotateLeft(b0, r, n)), Xor(e, RotateLeft(b1, r, n));
      forall d: nat :: d < n ==> (Bit(w0, d) != Bit(w1, d) <==> d == a)
  {
    var f := Flip(n, p);
    var b0, b1 := Xor(Encode(c), f), Xor(Encode(c + 1), f);
    FlipBelow(n, p);
    CrossingChunks(n, f, c, b0, b1);
    RotXor(b0, b1, r, n);
    RotPow2(TrailingZeros(c + 1), r, n);
    OneBitApart(e, RotateLeft(b0, r, n), RotateLeft(b1, r, n), a);
  }

  /** Two consecutive chunks differ in one bit, flipped or not. */
  lemma CrossingChunks(n: nat, f: nat, c: nat, b0: nat, b1: nat)
    requires c + 1 < Pow2(n) && f < Pow2(n) && b0 == Xor(Encode(c), f) && b1 == Xor(Encode(c + 1), f)
    ensures b0 < Pow2(n) && b1 < Pow2(n) && Xor(b0, b1) == Pow2(TrailingZeros(c + 1))
  {
    EncodeBelow(c, n);
    EncodeBelow(c + 1, n);
    XorBelow(Encode(c), f, n);
    XorBelow(Encode(c + 1), f, n);
    GrayStep(c);
    Swap4(Encode(c), f, Encode(c + 1), f);
    XorSelf(f);
    XorZero(Pow2(TrailingZeros(c + 1)));
  }

  lemma OneBitApart(e: nat, u0: nat, u1: nat, a: nat)
    requires Xor(u0, u1) == Pow2(a)
    ensures forall d: nat :: Bit(Xor(e, u0), d) != Bit(Xor(e, u1), d) <==> d == a
  {
    forall d: nat ensures Bit(Xor(e, u0), d) != Bit(Xor(e, u1), d) <==> d == a {
      XorBit(e, u0, d);
      XorBit(e, u1, d);
      XorBit(u0, u1, d);
      Pow2Bit(a, d);
    }
  }

  lemma FlipBelow(n: nat, p: bool)
    requires n >= 1
    ensures Flip(n, p) < Pow2(n)
  {
  }

  lemma OddCorner(n: nat, r: nat, t: nat, b: nat, w: nat)
    requires n >= 1 && r < n && 1 <= t < n
    requires b > 0 && TrailingZeros(b) == t - 1
    ensures var x := Corner(n, NextRotation(n, r, b), Xor(w, Pow2(r)), true);
      forall d: nat :: d < n ==> Bit(x, d) == (Bit(w, d) != (d == r || d == Wrap(t + r, n)))
  {
    var r' := NextRotation(n, r, b);
    var x := Corner(n, r', Xor(w, Pow2(r)), true);
    RotPow2(n - 1, r', n);
    forall d: nat | d < n ensures Bit(x, d) == (Bit(w, d) != (d == r || d == Wrap(t + r, n))) {
      XorBit(Xor(w, Pow2(r)), Pow2(Wrap(t + r, n)), d);
      XorBit(w, Pow2(r), d);
      Pow2Bit(r, d);
      Pow2Bit(Wrap(t + r, n), d);
    }
  }

  /** A step across a sub-cube boundary, with k levels below. */
  lemma CrossStep(n: nat, r: nat, e: nat, p: bool, c: nat, k: nat) returns (a: nat)
    requires n >= 1 && r < n && e < Pow2(n) && c + 1 < Pow2(n)
    ensures AdjacentOn(Words(n, r, e, GrayDigits(n, p, [c] + Repeat(Ones(n), k))),
                       Words(n, r, e, GrayDigits(n, p, [c + 1] + Repeat(0, k))), n, a)
  {
    a := Crossing(n, r, e, p, c);
    var b0, b1 := Xor(Encode(c), Flip(n, p)), Xor(Encode(c + 1), Flip(n, p));
    var w0, w1 := Xor(e, RotateLeft(b0, r, n)), Xor(e, RotateLeft(b1, r, n));
    var x := Corner(n, NextRotation(n, r, b0), Xor(w0, Pow2(r)), c % 2 != 0);
    var y := Corner(n, NextRotation(n, r, b1), Xor(w1, Pow2(r)), (c + 1) % 2 == 0);
    ExitPath(n, r, e, p, c, k);
    EntryPath(n, r, e, p, c + 1, k);
    CrossCoords(n, a, w0, w1, x, y, k);
  }

  lemma ExitPath(n: nat, r: nat, e: nat, p: bool, c: nat, k: nat)
    requires n >= 1 && r < n
    ensures var b := Xor(Encode(c), Flip(n, p));
      var w := Xor(e, RotateLeft(b, r, n));
      Words(n, r, e, GrayDigits(n, p, [c] + Repeat(Ones(n), k)))
        == [w] + Repeat(Corner(n, NextRotation(n, r, b), Xor(w, Pow2(r)), c % 2 != 0), k)
  {
    var b := Xor(Encode(c), Flip(n, p));
    ExitWords(n, NextRotation(n, r, b), Xor(Xor(e, RotateLeft(b, r, n)), Pow2(r)), c % 2 == 0, k);
    WordsHead(n, r, e, p, c, Repeat(Ones(n), k));
  }

  lemma EntryPath(n: nat, r: nat, e: nat, p: bool, c: nat, k: nat)
    requires n >= 1 && r < n
    ensures var b := Xor(Encode(c), Flip(n, p));
      var w := Xor(e, RotateLeft(b, r, n));
      Words(n, r, e, GrayDigits(n, p, [c] + Repeat(0, k)))
        == [w] + Repeat(Corner(n, NextRotation(n, r, b), Xor(w, Pow2(r)), c % 2 == 0), k)
  {
    var b := Xor(Encode(c), Flip(n, p));
    EntryWords(n, NextRotation(n, r, b), Xor(Xor(e, RotateLeft(b, r, n)), Pow2(r)), c % 2 == 0, k);
    WordsHead(n, r, e, p, c, Repeat(0, k));
  }

  lemma CrossCoords(n: nat, a: nat, w0: nat, w1: nat, x: nat, y: nat, k: nat)
    requires a < n
    requires forall d: nat :: d < n ==>
      && (Bit(w0, d) != Bit(w1, d) <==> d == a)
      && (Bit(x, d) != Bit(y, d) <==> d == a)
      && (d == a ==> Bit(x, d) == Bit(w1, d))
    ensures AdjacentOn([w0] + Repeat(x, k), [w1] + Repeat(y, k), n, a)
  {
    forall d: nat | d < n
      ensures CoordOf([w0] + Repeat(x, k), d)
        == (if Bit(w0, d) then Pow2(k) else 0) + (if Bit(x, d) then Ones(k) else 0)
      ensures CoordOf([w1] + Repeat(y, k), d)
        == (if Bit(w1, d) then Pow2(k) else 0) + (if Bit(y, d) then Ones(k) else 0)
    {
      CoordHead(w0, Repeat(x, k), d);
      CoordRepeat(x, k, d);
      CoordHead(w1, Repeat(y, k), d);
      CoordRepeat(y, k, d);
    }
  }

  lemma WordsHead(n: nat, r: nat, e: nat, p: bool, c: nat, rest: seq<nat>)
    requires n >= 1 && r < n
    ensures var b := Xor(Encode(c), Flip(n, p));
      var w := Xor(e, RotateLeft(b, r, n));
      Words(n, r, e, GrayDigits(n, p, [c] + rest))
        == [w] + Words(n, NextRotation(n, r, b), Xor(w, Pow2(r)), GrayDigits(n, c % 2 == 0, rest))
  {
    assert ([c] + rest)[1..] == rest;
    var gs := GrayDigits(n, p, [c] + rest);
    assert gs[0] == Xor(Encode(c), Flip(n, p)) && gs[1..] == GrayDigits(n, c % 2 == 0, rest);
  }

  /** Consecutive indices, level by level. */
  lemma {:induction false} CurveStep(n: nat, r: nat, e: nat, p: bool, cs: seq<nat>, ds: seq<nat>) returns (a: nat)
    requires n >= 1 && r < n && e < Pow2(n) && |cs| == |ds| && AllBelow(cs, n) && AllBelow(ds, n)
    requires FromChunks(n, ds) == FromChunks(n, cs) + 1
    ensures AdjacentOn(Words(n, r, e, GrayDigits(n, p, cs)), Words(n, r, e, GrayDigits(n, p, ds)), n, a)
    decreases |cs|, 0
  {
    if cs == [] {
      assert false;
    } else {
      var c, ct, d, dt := cs[0], cs[1..], ds[0], ds[1..];
      var k := |ct|;
      assert cs == [c] + ct && ds == [d] + dt;
      MulNonNeg(n, k);
      IndexHead(n, c, ct);
      IndexHead(n, d, dt);
      IndexBelow(n, ct);
      IndexBelow(n, dt);
      HeadCases(c, d, Pow2(n * k), FromChunks(n, ct), FromChunks(n, dt));
      if c == d {
        a := InnerStep(n, r, e, p, c, ct, dt);
      } else {
        FullIndex(n, ct);
        ZeroIndex(n, dt);
        a := CrossStep(n, r, e, p, c, k);
      }
    }
  }

  lemma HeadCases(c: int, d: int, q: int, f: int, g: int)
    requires 0 <= f < q && 0 <= g < q && d * q + g == c * q + f + 1
    ensures (d == c && g == f + 1) || (d == c + 1 && g == 0 && f == q - 1)
  {
    if f + 1 < q {
      DivUnique(d, g, c, f + 1, q);
    } else {
      MulSub(c, c + 1, q);
      DivUnique(d, g, c + 1, 0, q);
    }
  }

  lemma {:induction false} InnerStep(n: nat, r: nat, e: nat, p: bool, c: nat, ct: seq<nat>, dt: seq<nat>)
    returns (a: nat)
    requires n >= 1 && r < n && e < Pow2(n) && c < Pow2(n) && |ct| == |dt| && AllBelow(ct, n) && AllBelow(dt, n)
    requires FromChunks(n, dt) == FromChunks(n, ct) + 1
    ensures AdjacentOn(Words(n, r, e, GrayDigits(n, p, [c] + ct)), Words(n, r, e, GrayDigits(n, p, [c] + dt)), n, a)
    decreases |ct|, 1
  {
    var g := Xor(Encode(c), Flip(n, p));
    EncodeBelow(c, n);
    Pow2Mono(n - 1, n);
    XorBelow(Encode(c), Flip(n, p), n);
    StepBelow(n, r, e, g);
    var w := Xor(e, RotateLeft(g, r, n));
    StepBelow(n, r, e, w);
    var r', e' := NextRotation(n, r, g), Xor(w, Pow2(r));
    a := CurveStep(n, r', e', c % 2 == 0, ct, dt);
    WordsHead(n, r, e, p, c, ct);
    WordsHead(n, r, e, p, c, dt);
    AdjacentUnder(w, Words(n, r', e', GrayDigits(n, c % 2 == 0, ct)), Words(n, r', e', GrayDigits(n, c % 2 == 0, dt)),
                  n, a);
  }

  /** A common leading word keeps neighbours neighbours. */
  lemma AdjacentUnder(w: nat, ws: seq<nat>, us: seq<nat>, n: nat, a: nat)
    requires |ws| == |us| && AdjacentOn(ws, us, n, a)
    ensures AdjacentOn([w] + ws, [w] + us, n, a)
  {
    forall d: nat | d < n
      ensures CoordOf([w] + ws, d) - CoordOf(ws, d) == CoordOf([w] + us, d) - CoordOf(us, d)
    {
      CoordHead(w, ws, d);
      CoordHead(w, us, d);
    }
  }

  /** Two points that differ on exactly one axis, and there by one. */
  ghost predicate NeighbourCells(p: seq<nat>, q: seq<nat>) {
    && |p| == |q|
    && exists a :: 0 <= a < |p| && OneApart(p[a], q[a]) && forall d :: 0 <= d < |p| && d != a ==> p[d] == q[d]
  }

  /** The Hilbert curve moves to a neighbouring cell at every step. */
  lemma HilbertAdjacency(n: nat, m: nat, index: nat)
    requires n >= 1 && index + 1 < Pow2(n * m)
    ensures NeighbourCells(I2C(n, m, index), I2C(n, m, index + 1))
  {
    var cs, ds := Chunks(n, m, index), Chunks(n, m, index + 1);
    GrayChunks(n, m, index);
    GrayChunks(n, m, index + 1);
    ChunksBelow(n, m, index);
    ChunksBelow(n, m, index + 1);
    IndexOfChunks(n, m, index);
    IndexOfChunks(n, m, index + 1);
    var a := CurveStep(n, 0, 0, false, cs, ds);
    var p, q := I2C(n, m, index), I2C(n, m, index + 1);
    assert OneApart(p[a], q[a]);
  }
}
