/** hilbert_i2c and hilbert_c2i of utils/hilbert/hilbert.c. A point of the
    curve is described level by level, most significant level first: the index
    as a list of nDims-bit chunks, the coordinates as a list of nDims-bit words
    whose bit d is the bit of coordinate d at that level. */
module Hilbert {
  import opened Arith
  import opened BitWords
  import opened Gray

  // ------------------------------------------------------------------
  // Rotation
  // ------------------------------------------------------------------

  /** The macro rotateRight. */
  function RotateRight(x: nat, r: nat, n: nat): nat
    requires r <= n
  {
    And(Or(Shr(x, r), Shl(x, n - r)), Ones(n))
  }

  lemma RotBit(x: nat, r: nat, n: nat, i: nat)
    requires x < Pow2(n) && r <= n
    ensures Bit(RotateRight(x, r, n), i) == (i < n && Bit(x, if i + r < n then i + r else i + r - n))
  {
    AndBit(Or(Shr(x, r), Shl(x, n - r)), Ones(n), i);
    OrBit(Shr(x, r), Shl(x, n - r), i);
    ShrBit(x, r, i);
    ShlBit(x, n - r, i);
    OnesBit(n, i);
    if i + r >= n { BelowBit(x, n, i + r); }
  }

  lemma RotBelow(x: nat, r: nat, n: nat)
    requires x < Pow2(n) && r <= n
    ensures RotateRight(x, r, n) < Pow2(n)
  {
    forall i: nat | i >= n ensures !Bit(RotateRight(x, r, n), i) { RotBit(x, r, n, i); }
    BelowFromBits(RotateRight(x, r, n), n);
  }

  /** Rotating by r undoes rotating by n - r. */
  lemma RotInverse(x: nat, r: nat, n: nat)
    requires x < Pow2(n) && r <= n
    ensures RotateRight(RotateRight(x, n - r, n), r, n) == x
  {
    var y := RotateRight(x, n - r, n);
    RotBelow(x, n - r, n);
    RotBelow(y, r, n);
    forall i: nat | i < n ensures Bit(RotateRight(y, r, n), i) == Bit(x, i) {
      RotBit(y, r, n, i);
      RotBit(x, n - r, n, if i + r < n then i + r else i + r - n);
    }
    SameLowBits(RotateRight(y, r, n), x, n);
  }

  /** Position of the lowest set bit. */
  function TrailingZeros(x: nat): nat
    requires x > 0
  {
    if x % 2 == 1 then 0 else 1 + TrailingZeros(x / 2)
  }

  /** The rotation of the next level. */
  function NextRotation(n: nat, r: nat, bits: nat): (r': nat)
    requires n >= 1 && r < n
    ensures r' < n
  {
    var k := if bits > 0 && TrailingZeros(bits) < n - 1 then TrailingZeros(bits) + 1 else 0;
    if r + k + 1 >= n then r + k + 1 - n else r + k + 1
  }

  /** Two's complement negation in a word of w bits. */
  function Negate(x: nat, w: nat): nat
    requires x < Pow2(w)
  {
    if x == 0 then 0 else Pow2(w) - x
  }

  lemma {:induction false} Complement(y: nat, k: nat)
    requires y < Pow2(k)
    ensures And(y, Ones(k) - y) == 0
  {
    if k > 0 {
      assert (Ones(k) - y) / 2 == Ones(k - 1) - y / 2;
      Complement(y / 2, k - 1);
    }
  }

  /** x & -x is the lowest set bit, whatever the word width. */
  lemma {:induction false} NegateIsolates(x: nat, w: nat)
    requires 0 < x < Pow2(w)
    ensures And(x, Negate(x, w)) == Pow2(TrailingZeros(x))
    decreases x
  {
    assert w > 0;
    var y := Negate(x, w);
    if x % 2 == 1 {
      assert y / 2 == Ones(w - 1) - x / 2;
      Complement(x / 2, w - 1);
    } else {
      assert y / 2 == Negate(x / 2, w - 1) && y % 2 == 0;
      NegateIsolates(x / 2, w - 1);
    }
  }

  const WORD_BITS := 64   // width of bitmask_t

  /** The macro adjust_rotation. */
  method AdjustRotation(rotation: nat, nDims: nat, bits: nat) returns (r: nat)
    requires 1 <= nDims <= WORD_BITS && rotation < nDims && bits < Pow2(nDims)
    ensures r == NextRotation(nDims, rotation, bits)
  {
    Pow2Mono(nDims, WORD_BITS);
    var low := And(bits, And(Negate(bits, WORD_BITS), Ones(nDims - 1)));
    LowBit(bits, nDims);
    ghost var k := if bits > 0 && TrailingZeros(bits) < nDims - 1 then TrailingZeros(bits) + 1 else 0;
    r := CountShifts(rotation, low, k);
    r := r + 1;
    if r >= nDims { r := r - nDims; }
  }

  /** The loop of the macro: one more rotation for each shift that empties the
      isolated bit. */
  method CountShifts(rotation: nat, isolated: nat, ghost k: nat) returns (r: nat)
    requires isolated == if k == 0 then 0 else Pow2(k - 1)
    ensures r == rotation + k
  {
    var low := isolated;
    r := rotation;
    ghost var left := k;
    while low != 0
      invariant low == (if left == 0 then 0 else Pow2(left - 1)) && r + left == rotation + k
      decreases low
    {
      ShrOne(low);
      assert left > 0;
      low, r, left := Shr(low, 1), r + 1, left - 1;
    }
  }

  lemma LowBit(bits: nat, n: nat)
    requires 1 <= n <= WORD_BITS && bits < Pow2(n) && Pow2(n) <= Pow2(WORD_BITS)
    ensures And(bits, And(Negate(bits, WORD_BITS), Ones(n - 1))) ==
      if bits > 0 && TrailingZeros(bits) < n - 1 then Pow2(TrailingZeros(bits)) else 0
  {
    var neg := Negate(bits, WORD_BITS);
    var x := And(bits, And(neg, Ones(n - 1)));
    var t := if bits > 0 && TrailingZeros(bits) < n - 1 then Pow2(TrailingZeros(bits)) else 0;
    if bits > 0 { NegateIsolates(bits, WORD_BITS); }
    forall i: nat ensures Bit(x, i) == Bit(t, i) {
      MaskedBit(bits, neg, n - 1, i);
      ZeroBit(i);
      if bits > 0 { Pow2Bit(TrailingZeros(bits), i); }
    }
    SameBits(x, t);
  }

  lemma MaskedBit(x: nat, y: nat, k: nat, i: nat)
    ensures Bit(And(x, And(y, Ones(k))), i) == (i < k && Bit(And(x, y), i))
  {
    AndBit(x, And(y, Ones(k)), i);
    AndBit(y, Ones(k), i);
    OnesBit(k, i);
    AndBit(x, y, i);
  }

  // ------------------------------------------------------------------
  // The level recursion and its inverse
  // ------------------------------------------------------------------

  ghost predicate AllBelow(s: seq<nat>, n: nat) { forall i :: 0 <= i < |s| ==> s[i] < Pow2(n) }

  /** Index chunks to coordinate words: rotate back, then reflect. */
  function Words(n: nat, r: nat, e: nat, cs: seq<nat>): (ws: seq<nat>)
    requires n >= 1 && r < n
    ensures |ws| == |cs|
    decreases |cs|
  {
    if cs == [] then []
    else
      var w := Xor(e, RotateRight(cs[0], n - r, n));
      [w] + Words(n, NextRotation(n, r, cs[0]), Xor(w, Pow2(r)), cs[1..])
  }

  /** Coordinate words to index chunks. */
  function Chunked(n: nat, r: nat, e: nat, ws: seq<nat>): (cs: seq<nat>)
    requires n >= 1 && r < n
    ensures |cs| == |ws|
    decreases |ws|
  {
    if ws == [] then []
    else
      var c := RotateRight(Xor(e, ws[0]), r, n);
      [c] + Chunked(n, NextRotation(n, r, c), Xor(ws[0], Pow2(r)), ws[1..])
  }

  lemma StepBelow(n: nat, r: nat, e: nat, c: nat)
    requires n >= 1 && r < n && e < Pow2(n) && c < Pow2(n)
    ensures Xor(e, RotateRight(c, n - r, n)) < Pow2(n)
    ensures RotateRight(Xor(e, c), r, n) < Pow2(n)
    ensures Xor(c, Pow2(r)) < Pow2(n)
  {
    RotBelow(c, n - r, n);
    XorBelow(e, RotateRight(c, n - r, n), n);
    XorBelow(e, c, n);
    RotBelow(Xor(e, c), r, n);
    Pow2Mono(r + 1, n);
    XorBelow(c, Pow2(r), n);
  }

  lemma {:induction false} WordsBelow(n: nat, r: nat, e: nat, cs: seq<nat>)
    requires n >= 1 && r < n && e < Pow2(n) && AllBelow(cs, n)
    ensures AllBelow(Words(n, r, e, cs), n)
    decreases |cs|
  {
    if cs != [] {
      StepBelow(n, r, e, cs[0]);
      var w := Xor(e, RotateRight(cs[0], n - r, n));
      StepBelow(n, r, e, w);
      WordsBelow(n, NextRotation(n, r, cs[0]), Xor(w, Pow2(r)), cs[1..]);
    }
  }

  lemma {:induction false} ChunkedBelow(n: nat, r: nat, e: nat, ws: seq<nat>)
    requires n >= 1 && r < n && e < Pow2(n) && AllBelow(ws, n)
    ensures AllBelow(Chunked(n, r, e, ws), n)
    decreases |ws|
  {
    if ws != [] {
      StepBelow(n, r, e, ws[0]);
      var c := RotateRight(Xor(e, ws[0]), r, n);
      ChunkedBelow(n, NextRotation(n, r, c), Xor(ws[0], Pow2(r)), ws[1..]);
    }
  }

  /** The two directions undo each other level by level: rotation and
      reflection run through the same values. */
  lemma {:induction false} ChunkedOfWords(n: nat, r: nat, e: nat, cs: seq<nat>)
    requires n >= 1 && r < n && e < Pow2(n) && AllBelow(cs, n)
    ensures Chunked(n, r, e, Words(n, r, e, cs)) == cs
    decreases |cs|
  {
    if cs != [] {
      var w := Xor(e, RotateRight(cs[0], n - r, n));
      XorCancel(e, RotateRight(cs[0], n - r, n));
      RotInverse(cs[0], r, n);
      StepBelow(n, r, e, cs[0]);
      StepBelow(n, r, e, w);
      ChunkedOfWords(n, NextRotation(n, r, cs[0]), Xor(w, Pow2(r)), cs[1..]);
      var ws := Words(n, r, e, cs);
      assert ws[0] == w && ws[1..] == Words(n, NextRotation(n, r, cs[0]), Xor(w, Pow2(r)), cs[1..]);
    }
  }

  lemma {:induction false} WordsOfChunked(n: nat, r: nat, e: nat, ws: seq<nat>)
    requires n >= 1 && r < n && e < Pow2(n) && AllBelow(ws, n)
    ensures Words(n, r, e, Chunked(n, r, e, ws)) == ws
    decreases |ws|
  {
    if ws != [] {
      var x := Xor(e, ws[0]);
      var c := RotateRight(x, r, n);
      XorBelow(e, ws[0], n);
      RotInverse(x, n - r, n);
      XorCancel(e, ws[0]);
      StepBelow(n, r, e, ws[0]);
      WordsOfChunked(n, NextRotation(n, r, c), Xor(ws[0], Pow2(r)), ws[1..]);
      var cs := Chunked(n, r, e, ws);
      assert cs[0] == c && cs[1..] == Chunked(n, NextRotation(n, r, c), Xor(ws[0], Pow2(r)), ws[1..]);
    }
  }

  // ------------------------------------------------------------------
  // Coordinates and words: a transposition of bits
  // ------------------------------------------------------------------

  /** Coordinate d spelled by bit d of every word, first word most significant. */
  function CoordOf(ws: seq<nat>, d: nat): nat {
    if ws == [] then 0
    else 2 * CoordOf(ws[..|ws| - 1], d) + (if Bit(ws[|ws| - 1], d) then 1 else 0)
  }

  function Coords(ws: seq<nat>, n: nat): seq<nat> { seq(n, d requires 0 <= d < n => CoordOf(ws, d)) }

  /** The word of level b, assembled from the first d coordinates. */
  function WordUpTo(coords: seq<nat>, b: nat, d: nat): nat
    requires d <= |coords|
  {
    if d == 0 then 0 else Or(WordUpTo(coords, b, d - 1), Shl(And(Shr(coords[d - 1], b), 1), d - 1))
  }

  function WordsOf(coords: seq<nat>, m: nat): (ws: seq<nat>)
    ensures |ws| == m
  {
    seq(m, k requires 0 <= k < m => WordUpTo(coords, m - 1 - k, |coords|))
  }

  lemma OneBit(x: nat, i: nat)
    ensures Bit(And(x, 1), i) == (i == 0 && Bit(x, 0))
    ensures And(x, 1) == x % 2
  {
    AndBit(x, 1, i);
    assert Pow2(0) == 1;
    Pow2Bit(0, i);
    AndZero(x / 2);
    assert And(x, 1) == 2 * And(x / 2, 0) + x % 2;
  }

  lemma {:induction false} WordBit(coords: seq<nat>, b: nat, d: nat, i: nat)
    requires d <= |coords|
    ensures Bit(WordUpTo(coords, b, d), i) == (i < d && Bit(coords[i], b))
    decreases d
  {
    if d == 0 {
      ZeroBit(i);
    } else {
      var x := And(Shr(coords[d - 1], b), 1);
      OrBit(WordUpTo(coords, b, d - 1), Shl(x, d - 1), i);
      WordBit(coords, b, d - 1, i);
      ShlBit(x, d - 1, i);
      if i >= d - 1 {
        OneBit(Shr(coords[d - 1], b), i - (d - 1));
        ShrBit(coords[d - 1], b, 0);
      }
    }
  }

  lemma WordBelow(coords: seq<nat>, b: nat)
    ensures WordUpTo(coords, b, |coords|) < Pow2(|coords|)
  {
    var n := |coords|;
    forall i: nat | i >= n ensures !Bit(WordUpTo(coords, b, n), i) { WordBit(coords, b, n, i); }
    BelowFromBits(WordUpTo(coords, b, n), n);
  }

  lemma {:induction false} CoordBit(ws: seq<nat>, d: nat, b: nat)
    ensures Bit(CoordOf(ws, d), b) == (b < |ws| && Bit(ws[|ws| - 1 - b], d))
    decreases |ws|
  {
    if ws == [] {
      ZeroBit(b);
    } else if b > 0 {
      CoordBit(ws[..|ws| - 1], d, b - 1);
    }
  }

  lemma CoordBelow(ws: seq<nat>, d: nat)
    ensures CoordOf(ws, d) < Pow2(|ws|)
  {
    forall b: nat | b >= |ws| ensures !Bit(CoordOf(ws, d), b) { CoordBit(ws, d, b); }
    BelowFromBits(CoordOf(ws, d), |ws|);
  }

  lemma WordsOfCoords(ws: seq<nat>, n: nat)
    requires AllBelow(ws, n)
    ensures WordsOf(Coords(ws, n), |ws|) == ws
  {
    var cs := Coords(ws, n);
    forall k | 0 <= k < |ws| ensures WordsOf(cs, |ws|)[k] == ws[k] {
      WordBelow(cs, |ws| - 1 - k);
      forall i: nat | i < n ensures Bit(WordUpTo(cs, |ws| - 1 - k, n), i) == Bit(ws[k], i) {
        WordBit(cs, |ws| - 1 - k, n, i);
        CoordBit(ws, i, |ws| - 1 - k);
      }
      SameLowBits(WordUpTo(cs, |ws| - 1 - k, n), ws[k], n);
    }
  }

  lemma CoordsOfWords(coords: seq<nat>, m: nat)
    requires AllBelow(coords, m)
    ensures Coords(WordsOf(coords, m), |coords|) == coords
  {
    var n := |coords|;
    var ws := WordsOf(coords, m);
    forall d | 0 <= d < n ensures CoordOf(ws, d) == coords[d] {
      CoordBelow(ws, d);
      forall b: nat | b < m ensures Bit(CoordOf(ws, d), b) == Bit(coords[d], b) {
        CoordBit(ws, d, b);
        WordBit(coords, b, n, d);
      }
      SameLowBits(CoordOf(ws, d), coords[d], m);
    }
  }

  // ------------------------------------------------------------------
  // Index and chunks
  // ------------------------------------------------------------------

  /** Chunk b of the index, as the source extracts it. */
  function Chunk(n: nat, x: nat, b: nat): nat { Field(x, n * b, n) }

  function Field(x: nat, k: nat, n: nat): nat { And(Shr(x, k), Ones(n)) }

  function Chunks(n: nat, m: nat, x: nat): (cs: seq<nat>)
    ensures |cs| == m
  {
    seq(m, k requires 0 <= k < m => Chunk(n, x, m - 1 - k))
  }

  /** The index with the given chunks, first chunk most significant. */
  function FromChunks(n: nat, cs: seq<nat>): nat {
    if cs == [] then 0 else Or(Shl(FromChunks(n, cs[..|cs| - 1]), n), cs[|cs| - 1])
  }

  lemma ChunkBelow(n: nat, x: nat, b: nat)
    ensures Chunk(n, x, b) < Pow2(n)
  {
    MaskIsMod(Shr(x, n * b), n);
  }

  lemma ChunksBelow(n: nat, m: nat, x: nat)
    ensures AllBelow(Chunks(n, m, x), n)
  {
    forall k | 0 <= k < m ensures Chunks(n, m, x)[k] < Pow2(n) { ChunkBelow(n, x, m - 1 - k); }
  }

  lemma ChunkShift(n: nat, x: nat, k: nat)
    ensures Chunk(n, Shr(x, n), k) == Chunk(n, x, k + 1)
  {
    FieldShift(x, n * k, n);
    NextLevel(n, k);
  }

  lemma FieldShift(x: nat, k: nat, n: nat)
    ensures Field(Shr(x, n), k, n) == Field(x, n + k, n)
  {
    ShrShr(x, n, k);
  }

  lemma NextLevel(n: nat, k: nat)
    ensures n + n * k == n * (k + 1)
  {
  }

  lemma ChunkZero(n: nat, x: nat)
    ensures Chunk(n, x, 0) == x % Pow2(n)
  {
    MaskIsMod(x, n);
    assert n * 0 == 0;
  }

  /** Chunks from the bottom: the low chunk, and the chunks of the rest. */
  lemma ChunksSnoc(n: nat, m: nat, x: nat)
    requires m >= 1
    ensures Chunks(n, m, x) == Chunks(n, m - 1, Shr(x, n)) + [x % Pow2(n)]
  {
    var s, t := Chunks(n, m, x), Chunks(n, m - 1, Shr(x, n));
    forall k | 0 <= k < m - 1 ensures s[k] == t[k] { ChunkShift(n, x, m - 2 - k); }
    ChunkZero(n, x);
  }

  /** Appending disjoint low bits is addition. */
  lemma OrAdds(f: nat, n: nat, c: nat)
    requires c < Pow2(n)
    ensures Or(Shl(f, n), c) == f * Pow2(n) + c
    ensures Shr(Or(Shl(f, n), c), n) == f && Or(Shl(f, n), c) % Pow2(n) == c
  {
    var x := Or(Shl(f, n), c);
    forall i: nat ensures Bit(Shr(x, n), i) == Bit(f, i) {
      ShrBit(x, n, i);
      OrBit(Shl(f, n), c, i + n);
      ShlBit(f, n, i + n);
      BelowBit(c, n, i + n);
    }
    SameBits(Shr(x, n), f);
    forall i: nat ensures Bit(x % Pow2(n), i) == Bit(c, i) {
      ModBit(x, n, i);
      OrBit(Shl(f, n), c, i);
      ShlBit(f, n, i);
      if i >= n { BelowBit(c, n, i); }
    }
    SameBits(x % Pow2(n), c);
    ShrIsDiv(x, n);
    Recompose(x, Pow2(n), f, c);
  }

  lemma Recompose(x: nat, p: nat, f: nat, c: nat)
    requires p >= 1 && x / p == f && x % p == c
    ensures x == f * p + c
  {
    assert x == (x / p) * p + x % p;
  }

  lemma {:induction false} ChunksOfIndex(n: nat, cs: seq<nat>)
    requires AllBelow(cs, n)
    ensures Chunks(n, |cs|, FromChunks(n, cs)) == cs
    decreases |cs|
  {
    if cs != [] {
      var m := |cs|;
      ChunksSnoc(n, m, FromChunks(n, cs));
      OrAdds(FromChunks(n, cs[..m - 1]), n, cs[m - 1]);
      ChunksOfIndex(n, cs[..m - 1]);
    }
  }

  lemma {:induction false} IndexOfChunks(n: nat, m: nat, x: nat)
    requires x < Pow2(n * m)
    ensures FromChunks(n, Chunks(n, m, x)) == x
    decreases m
  {
    if m == 0 {
      assert n * 0 == 0;
    } else {
      ChunksSnoc(n, m, x);
      var cs := Chunks(n, m, x);
      assert cs[..m - 1] == Chunks(n, m - 1, Shr(x, n));
      ShrFits(n, m, x);
      IndexOfChunks(n, m - 1, Shr(x, n));
      Recombine(x, n);
    }
  }

  lemma Recombine(x: nat, n: nat)
    ensures Or(Shl(Shr(x, n), n), x % Pow2(n)) == x
  {
    forall i: nat ensures Bit(Or(Shl(Shr(x, n), n), x % Pow2(n)), i) == Bit(x, i) {
      OrBit(Shl(Shr(x, n), n), x % Pow2(n), i);
      ShlBit(Shr(x, n), n, i);
      if i >= n { ShrBit(x, n, i - n); }
      ModBit(x, n, i);
    }
    SameBits(Or(Shl(Shr(x, n), n), x % Pow2(n)), x);
  }

  lemma ShrFits(n: nat, m: nat, x: nat)
    requires m >= 1 && x < Pow2(n * m)
    ensures Shr(x, n) < Pow2(n * (m - 1))
  {
    NextLevel(n, m - 1);
    ShrIsDiv(x, n * m);
    ShrShr(x, n, n * (m - 1));
    ShrIsDiv(Shr(x, n), n * (m - 1));
  }

  lemma {:induction false} IndexBelow(n: nat, cs: seq<nat>)
    requires AllBelow(cs, n)
    ensures FromChunks(n, cs) < Pow2(n * |cs|)
    decreases |cs|
  {
    if cs == [] {
      assert n * 0 == 0;
    } else {
      var m := |cs|;
      IndexBelow(n, cs[..m - 1]);
      AppendBelow(FromChunks(n, cs[..m - 1]), n * (m - 1), cs[m - 1], n);
      NextLevel(n, m - 1);
    }
  }

  lemma AppendBelow(f: nat, k: nat, c: nat, n: nat)
    requires f < Pow2(k) && c < Pow2(n)
    ensures Or(Shl(f, n), c) < Pow2(k + n)
  {
    forall i: nat | i >= k + n ensures !Bit(Or(Shl(f, n), c), i) {
      OrBit(Shl(f, n), c, i);
      ShlBit(f, n, i);
      BelowBit(f, k, i - n);
      BelowBit(c, n, i);
    }
    BelowFromBits(Or(Shl(f, n), c), k + n);
  }

  // ------------------------------------------------------------------
  // The two conversions
  // ------------------------------------------------------------------

  /** ((1 << nDims*nBits) - 1) / ndOnes >> 1. */
  function NthBits(n: nat, m: nat): nat
    requires n >= 1
  {
    NthDefined(n, m);
    Shr((Shl(1, n * m) - 1) / Ones(n), 1)
  }

  lemma NthDefined(n: nat, m: nat)
    requires n >= 1
    ensures Ones(n) >= 1 && Shl(1, n * m) == Pow2(n * m)
    ensures (Shl(1, n * m) - 1) / Ones(n) >= 0
  {
    MulNonNeg(n, m);
    ShlIsMul(1, n * m);
    Pow2Mono(1, n);
    DivSign(Pow2(n * m) - 1, Ones(n));
  }

  lemma DivSign(x: nat, k: nat)
    requires k >= 1
    ensures x / k >= 0
  {
    assert x == (x / k) * k + x % k;
    if x / k < 0 { MulMono(x / k, -1, k); }
  }

  function I2C(n: nat, m: nat, index: nat): seq<nat>
    requires n >= 1
  {
    Coords(Words(n, 0, 0, Chunks(n, m, Xor(Encode(index), NthBits(n, m)))), n)
  }

  function C2I(m: nat, coords: seq<nat>): nat
    requires |coords| >= 1
  {
    var n := |coords|;
    Decode(Xor(FromChunks(n, Chunked(n, 0, 0, WordsOf(coords, m))), NthBits(n, m)))
  }

  lemma NthBelow(n: nat, m: nat)
    requires n >= 1
    ensures Shl(1, n * m) == Pow2(n * m)
    ensures NthBits(n, m) < Pow2(n * m)
  {
    MulNonNeg(n, m);
    ShlIsMul(1, n * m);
    DivLess(Pow2(n * m) - 1, Ones(n));
    ShrOne((Pow2(n * m) - 1) / Ones(n));
  }

  lemma DivLess(x: nat, k: nat)
    requires k >= 1
    ensures x / k <= x
  {
    assert x == (x / k) * k + x % k;
    MulMono(1, k, x / k);
  }

  /** hilbert_c2i undoes hilbert_i2c. */
  lemma IndexRoundTrip(n: nat, m: nat, index: nat)
    requires n >= 1 && index < Pow2(n * m)
    ensures C2I(m, I2C(n, m, index)) == index
    ensures |I2C(n, m, index)| == n && AllBelow(I2C(n, m, index), m)
  {
    var nth := NthBits(n, m);
    var g := Xor(Encode(index), nth);
    NthBelow(n, m);
    EncodeBelow(index, n * m);
    XorBelow(Encode(index), nth, n * m);
    var cs := Chunks(n, m, g);
    ChunksBelow(n, m, g);
    var ws := Words(n, 0, 0, cs);
    WordsBelow(n, 0, 0, cs);
    forall d: nat | d < n ensures CoordOf(ws, d) < Pow2(m) { CoordBelow(ws, d); }
    WordsOfCoords(ws, n);
    ChunkedOfWords(n, 0, 0, cs);
    IndexOfChunks(n, m, g);
    XorCancel(nth, Encode(index));
    GrayRoundTrip(index);
  }

  /** The Gray-coded, masked index is the number the coordinate bits spell. */
  lemma MaskedCode(m: nat, coords: seq<nat>)
    requires |coords| >= 1
    ensures var n := |coords|;
      Xor(Encode(C2I(m, coords)), NthBits(n, m)) == FromChunks(n, Chunked(n, 0, 0, WordsOf(coords, m)))
  {
    var n := |coords|;
    var f, nth := FromChunks(n, Chunked(n, 0, 0, WordsOf(coords, m))), NthBits(n, m);
    GrayRoundTrip(Xor(f, nth));
    XorCancel(nth, f);
  }

  /** hilbert_i2c undoes hilbert_c2i. */
  lemma CoordRoundTrip(m: nat, coords: seq<nat>)
    requires |coords| >= 1 && AllBelow(coords, m)
    ensures C2I(m, coords) < Pow2(|coords| * m)
    ensures I2C(|coords|, m, C2I(m, coords)) == coords
  {
    var n := |coords|;
    var ws := WordsOf(coords, m);
    forall k | 0 <= k < m ensures ws[k] < Pow2(n) { WordBelow(coords, m - 1 - k); }
    var cs := Chunked(n, 0, 0, ws);
    ChunkedBelow(n, 0, 0, ws);
    CodeBelow(n, m, FromChunks(n, cs), cs);
    MaskedCode(m, coords);
    ChunksOfIndex(n, cs);
    WordsOfChunked(n, 0, 0, ws);
    CoordsOfWords(coords, m);
  }

  lemma CodeBelow(n: nat, m: nat, f: nat, cs: seq<nat>)
    requires n >= 1 && |cs| == m && AllBelow(cs, n) && f == FromChunks(n, cs)
    ensures Decode(Xor(f, NthBits(n, m))) < Pow2(n * m)
  {
    MulNonNeg(n, m);
    IndexBelow(n, cs);
    NthBelow(n, m);
    XorBelow(f, NthBits(n, m), n * m);
    DecodeBelow(Xor(f, NthBits(n, m)), n * m);
  }

  // ------------------------------------------------------------------
  // The loops
  // ------------------------------------------------------------------

  lemma OrAppend(x: nat, b: nat, bit: nat)
    requires bit <= 1
    ensures Or(Shl(x, b + 1), Shl(bit, b)) == Shl(2 * x + bit, b)
    decreases b
  {
    var l, r := Or(Shl(x, b + 1), Shl(bit, b)), Shl(2 * x + bit, b);
    forall i: nat ensures Bit(l, i) == Bit(r, i) {
      OrBit(Shl(x, b + 1), Shl(bit, b), i);
      ShlBit(x, b + 1, i);
      ShlBit(bit, b, i);
      ShlBit(2 * x + bit, b, i);
      if i > b {
        assert (2 * x + bit) / 2 == x && bit / 2 == 0;
        ZeroBit(i - b - 1);
      }
    }
    SameBits(l, r);
  }

  /** The constant nthbits, shared by both conversions. */
  method NthMask(nDims: nat, nBits: nat) returns (ndOnes: nat, nthbits: nat)
    requires 1 <= nDims
    ensures ndOnes == Ones(nDims) && nthbits == NthBits(nDims, nBits)
  {
    ShlIsMul(1, nDims);
    NthDefined(nDims, nBits);
    ndOnes := Shl(1, nDims) - 1;
    nthbits := Shr((Shl(1, nDims * nBits) - 1) / ndOnes, 1);
  }

  /** hilbert_i2c. */
  method HilbertI2C(nDims: nat, nBits: nat, index: nat, coord: array<nat>)
    requires 1 <= nDims <= WORD_BITS && coord.Length == nDims
    modifies coord
    ensures coord[..] == I2C(nDims, nBits, index)
  {
    var ndOnes, nthbits := NthMask(nDims, nBits);
    for d := 0 to nDims
      invariant forall k :: 0 <= k < d ==> coord[k] == 0
    {
      coord[d] := 0;
    }
    var g := Xor(index, Shr(index, 1));
    ShrOne(index);
    g := Xor(g, nthbits);
    ChunksBelow(nDims, nBits, g);
    ghost var cs := Chunks(nDims, nBits, g);
    ghost var ws := Words(nDims, 0, 0, cs);
    ShlIsMul(0, nBits);
    assert ws[..0] == [] && ws[0..] == ws && cs[0..] == cs;
    var rotation: nat, reflection: nat := 0, 0;
    var b := nBits;
    while b > 0
      invariant 0 <= b <= nBits && rotation < nDims && reflection < Pow2(nDims)
      invariant Words(nDims, rotation, reflection, cs[nBits - b..]) == ws[nBits - b..]
      invariant forall d :: 0 <= d < nDims ==> coord[d] == Shl(CoordOf(ws[..nBits - b], d), b)
    {
      b := b - 1;
      ghost var k := nBits - 1 - b;
      assert nBits - b == k + 1;
      var bits := ExtractChunk(g, nDims, b, ndOnes);
      rotation, reflection := ScatterLevel(nDims, b, bits, rotation, reflection, coord, cs, ws, k);
    }
    assert ws[..nBits] == ws;
    assert coord[..] == Coords(ws, nDims);
  }

  /** One level: rotate and reflect a chunk, write its bits to the axes. */
  method ScatterLevel(nDims: nat, b: nat, bits: nat, rotation: nat, reflection: nat, coord: array<nat>,
                      ghost cs: seq<nat>, ghost ws: seq<nat>, ghost k: nat)
    returns (rotation': nat, reflection': nat)
    requires 1 <= nDims <= WORD_BITS && coord.Length == nDims && rotation < nDims && reflection < Pow2(nDims)
    requires k < |cs| == |ws| && AllBelow(cs, nDims) && bits == cs[k]
    requires Words(nDims, rotation, reflection, cs[k..]) == ws[k..]
    requires forall d :: 0 <= d < nDims ==> coord[d] == Shl(CoordOf(ws[..k], d), b + 1)
    modifies coord
    ensures rotation' < nDims && reflection' < Pow2(nDims)
    ensures Words(nDims, rotation', reflection', cs[k + 1..]) == ws[k + 1..]
    ensures forall d :: 0 <= d < nDims ==> coord[d] == Shl(CoordOf(ws[..k + 1], d), b)
  {
    WordsStep(nDims, rotation, reflection, cs, ws, k);
    reflection' := Xor(reflection, RotateRight(bits, nDims - rotation, nDims));
    WriteLevel(nDims, b, reflection', coord, ws[..k]);
    assert ws[..k + 1] == ws[..k] + [reflection'];
    reflection' := Xor(reflection', Shl(1, rotation));
    ShlIsMul(1, rotation);
    rotation' := AdjustRotation(rotation, nDims, bits);
  }

  method ExtractChunk(g: nat, nDims: nat, b: nat, ndOnes: nat) returns (bits: nat)
    requires ndOnes == Ones(nDims)
    ensures bits == Chunk(nDims, g, b)
  {
    var shift: nat := nDims * b;
    bits := And(Shr(g, shift), ndOnes);
  }

  /** One level of the recursion, seen from the middle of the lists. */
  lemma WordsStep(n: nat, r: nat, e: nat, cs: seq<nat>, ws: seq<nat>, k: nat)
    requires n >= 1 && r < n && e < Pow2(n) && AllBelow(cs, n) && k < |cs| == |ws|
    requires Words(n, r, e, cs[k..]) == ws[k..]
    ensures var w := Xor(e, RotateRight(cs[k], n - r, n));
      && w == ws[k] && Xor(w, Pow2(r)) < Pow2(n)
      && Words(n, NextRotation(n, r, cs[k]), Xor(w, Pow2(r)), cs[k + 1..]) == ws[k + 1..]
  {
    StepBelow(n, r, e, cs[k]);
    StepBelow(n, r, e, Xor(e, RotateRight(cs[k], n - r, n)));
    assert cs[k..][0] == cs[k] && cs[k..][1..] == cs[k + 1..];
    assert ws[k..][0] == ws[k] && ws[k..][1..] == ws[k + 1..];
  }

  lemma ChunkedStep(n: nat, r: nat, e: nat, ws: seq<nat>, cs: seq<nat>, k: nat)
    requires n >= 1 && r < n && e < Pow2(n) && AllBelow(ws, n) && k < |ws| == |cs|
    requires Chunked(n, r, e, ws[k..]) == cs[k..]
    ensures var c := RotateRight(Xor(e, ws[k]), r, n);
      && c == cs[k] && c < Pow2(n) && Xor(ws[k], Pow2(r)) < Pow2(n)
      && Chunked(n, NextRotation(n, r, c), Xor(ws[k], Pow2(r)), ws[k + 1..]) == cs[k + 1..]
  {
    StepBelow(n, r, e, ws[k]);
    assert ws[k..][0] == ws[k] && ws[k..][1..] == ws[k + 1..];
    assert cs[k..][0] == cs[k] && cs[k..][1..] == cs[k + 1..];
  }

  /** The loop over the axes: bit b of every coordinate. */
  method WriteLevel(nDims: nat, b: nat, reflection: nat, coord: array<nat>, ghost done: seq<nat>)
    requires coord.Length == nDims
    requires forall d :: 0 <= d < nDims ==> coord[d] == Shl(CoordOf(done, d), b + 1)
    modifies coord
    ensures forall d :: 0 <= d < nDims ==> coord[d] == Shl(CoordOf(done + [reflection], d), b)
  {
    ghost var all := done + [reflection];
    assert all[..|all| - 1] == done;
    for d := 0 to nDims
      invariant forall k :: 0 <= k < d ==> coord[k] == Shl(CoordOf(all, k), b)
      invariant forall k :: d <= k < nDims ==> coord[k] == Shl(CoordOf(done, k), b + 1)
    {
      coord[d] := Or(coord[d], Shl(And(Shr(reflection, d), 1), b));
      OneBit(Shr(reflection, d), 0);
      ShrBit(reflection, d, 0);
      OrAppend(CoordOf(done, d), b, And(Shr(reflection, d), 1));
    }
  }

  /** hilbert_c2i. */
  method HilbertC2I(nDims: nat, nBits: nat, coord: array<nat>) returns (index: nat)
    requires 1 <= nDims <= WORD_BITS && coord.Length == nDims
    ensures index == C2I(nBits, coord[..])
  {
    var ndOnes, nthbits := NthMask(nDims, nBits);
    index := GatherChunks(nDims, nBits, coord);
    index := Xor(index, nthbits);
    index := DecodeLoop(index);
  }

  /** The level loop of hilbert_c2i. */
  method GatherChunks(nDims: nat, nBits: nat, coord: array<nat>) returns (index: nat)
    requires 1 <= nDims <= WORD_BITS && coord.Length == nDims
    ensures index == FromChunks(nDims, Chunked(nDims, 0, 0, WordsOf(coord[..], nBits)))
  {
    ghost var ws := WordsOf(coord[..], nBits);
    forall k | 0 <= k < nBits ensures ws[k] < Pow2(nDims) { WordBelow(coord[..], nBits - 1 - k); }
    ghost var cs := Chunked(nDims, 0, 0, ws);
    PlacedNone(nDims, nBits);
    assert cs[..0] == [] && cs[0..] == cs && ws[0..] == ws;
    var rotation: nat, reflection: nat := 0, 0;
    index := 0;
    var b := nBits;
    while b > 0
      invariant 0 <= b <= nBits && rotation < nDims && reflection < Pow2(nDims)
      invariant Chunked(nDims, rotation, reflection, ws[nBits - b..]) == cs[nBits - b..]
      invariant index == Placed(nDims, cs[..nBits - b], b)
    {
      b := b - 1;
      ghost var k := nBits - 1 - b;
      assert nBits - b == k + 1;
      var bits;
      bits, rotation, reflection := GatherLevel(nDims, b, rotation, reflection, coord, ws, cs, k);
      index := InsertChunk(index, bits, nDims, b, cs, k);
    }
    assert cs[..nBits] == cs;
  }

  /** One level: read the words' bits, reflect and rotate them. */
  method GatherLevel(nDims: nat, b: nat, rotation: nat, reflection: nat, coord: array<nat>, ghost ws: seq<nat>,
                     ghost cs: seq<nat>, ghost k: nat)
    returns (bits: nat, rotation': nat, reflection': nat)
    requires 1 <= nDims <= WORD_BITS && coord.Length == nDims && rotation < nDims && reflection < Pow2(nDims)
    requires k < |ws| == |cs| && AllBelow(ws, nDims) && ws[k] == WordUpTo(coord[..], b, nDims)
    requires Chunked(nDims, rotation, reflection, ws[k..]) == cs[k..]
    ensures bits == cs[k] && rotation' < nDims && reflection' < Pow2(nDims)
    ensures Chunked(nDims, rotation', reflection', ws[k + 1..]) == cs[k + 1..]
  {
    ChunkedStep(nDims, rotation, reflection, ws, cs, k);
    bits := reflection;
    reflection' := ReadLevel(nDims, b, coord);
    bits := Xor(bits, reflection');
    bits := RotateRight(bits, rotation, nDims);
    reflection' := Xor(reflection', Shl(1, rotation));
    ShlIsMul(1, rotation);
    rotation' := AdjustRotation(rotation, nDims, bits);
  }

  method ReadLevel(nDims: nat, b: nat, coord: array<nat>) returns (reflection: nat)
    requires coord.Length == nDims
    ensures reflection == WordUpTo(coord[..], b, nDims)
  {
    reflection := 0;
    for d := 0 to nDims
      invariant reflection == WordUpTo(coord[..], b, d)
    {
      reflection := Or(reflection, Shl(And(Shr(coord[d], b), 1), d));
    }
  }

  /** Chunks read so far, in front of b levels still to come. */
  function Placed(n: nat, cs: seq<nat>, b: nat): (r: nat)
    ensures b == 0 ==> r == FromChunks(n, cs)
  {
    Shl(FromChunks(n, cs), n * b)
  }

  lemma PlacedNone(n: nat, b: nat)
    ensures Placed(n, [], b) == 0
  {
    ShlIsMul(0, n * b);
  }

  method InsertChunk(index: nat, bits: nat, nDims: nat, b: nat, ghost cs: seq<nat>, ghost k: nat) returns (r: nat)
    requires k < |cs| && bits == cs[k] && index == Placed(nDims, cs[..k], b + 1)
    ensures r == Placed(nDims, cs[..k + 1], b)
  {
    var shift: nat := nDims * b;
    r := Or(index, Shl(bits, shift));
    NextLevel(nDims, b);
    assert cs[..k + 1][..k] == cs[..k];
    OrShl(FromChunks(nDims, cs[..k]), bits, nDims, shift);
  }

  lemma OrShl(f: nat, c: nat, n: nat, k: nat)
    ensures Or(Shl(f, n + k), Shl(c, k)) == Shl(Or(Shl(f, n), c), k)
  {
    var l, r := Or(Shl(f, n + k), Shl(c, k)), Shl(Or(Shl(f, n), c), k);
    forall i: nat ensures Bit(l, i) == Bit(r, i) {
      OrBit(Shl(f, n + k), Shl(c, k), i);
      ShlBit(f, n + k, i);
      ShlBit(c, k, i);
      ShlBit(Or(Shl(f, n), c), k, i);
      if i >= k {
        OrBit(Shl(f, n), c, i - k);
        ShlBit(f, n, i - k);
      }
    }
    SameBits(l, r);
  }
}
