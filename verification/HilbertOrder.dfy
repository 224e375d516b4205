/** hilbert_cmp of utils/hilbert/hilbert.c: comparing two points along the
    curve without computing their indices. */
module HilbertOrder {
  import opened Arith
  import opened BitWords
  import opened Gray
  import opened Hilbert
  import opened HilbertCurve

  // ------------------------------------------------------------------
  // Comparing indices through their Gray digits
  // ------------------------------------------------------------------

  /** The chunks hilbert_c2i reads are the Gray digits of the index. */
  lemma DigitsOfPoint(n: nat, m: nat, coords: seq<nat>)
    requires n == |coords| >= 1 && AllBelow(coords, m)
    ensures C2I(m, coords) < Pow2(n * m)
    ensures Chunked(n, 0, 0, WordsOf(coords, m)) == GrayDigits(n, false, Chunks(n, m, C2I(m, coords)))
  {
    var ws := WordsOf(coords, m);
    WordsBounded(coords, m);
    ChunkedBelow(n, 0, 0, ws);
    CoordRoundTrip(m, coords);
    MaskedCode(m, coords);
    CodedChunks(n, m, C2I(m, coords), Chunked(n, 0, 0, ws));
  }

  lemma CodedChunks(n: nat, m: nat, x: nat, gs: seq<nat>)
    requires n >= 1 && x < Pow2(n * m) && |gs| == m && AllBelow(gs, n)
    requires Xor(Encode(x), NthBits(n, m)) == FromChunks(n, gs)
    ensures gs == GrayDigits(n, false, Chunks(n, m, x))
  {
    GrayChunks(n, m, x);
    ChunksOfIndex(n, gs);
  }

  /** Parity of the set bits. */
  function Parity(x: nat): bool { Decode(x) % 2 == 1 }

  function XorAll(s: seq<nat>): nat { if s == [] then 0 else Xor(XorAll(s[..|s| - 1]), s[|s| - 1]) }

  /** Whether the chunk after these digits has its top bit flipped. */
  function Carry(p: bool, gs: seq<nat>): bool
    decreases |gs|
  {
    if gs == [] then p else !(Parity(gs[|gs| - 1]) != Carry(p, gs[..|gs| - 1]))
  }

  lemma {:induction false} OnesDecode(n: nat)
    requires n >= 1
    ensures Decode(Pow2(n - 1)) == Ones(n)
  {
    EncodeOnes(n);
    GrayRoundTrip(Ones(n));
  }

  lemma {:induction false} XorOnes(x: nat, n: nat)
    requires x < Pow2(n)
    ensures Xor(x, Ones(n)) == Ones(n) - x
    decreases n
  {
    if n > 0 {
      XorParts(x, Ones(n));
      assert Ones(n) / 2 == Ones(n - 1) && Ones(n) % 2 == 1;
      XorOnes(x / 2, n - 1);
    } else {
      XorZero(0);
    }
  }

  lemma DigitValue(n: nat, p: bool, c: nat)
    requires n >= 1 && c < Pow2(n)
    ensures Decode(Xor(Encode(c), Flip(n, p))) == if p then Ones(n) - c else c
  {
    DecodeXor(Encode(c), Flip(n, p));
    GrayRoundTrip(c);
    OnesDecode(n);
    XorZero(c);
    XorOnes(c, n);
  }

  /** Undoing the flip and the Gray code of one digit. */
  lemma DigitDecode(n: nat, p: bool, c: nat)
    requires n >= 1 && c < Pow2(n)
    ensures var g := Xor(Encode(c), Flip(n, p));
      && Decode(g) < Pow2(n)
      && c == (if p then Ones(n) - Decode(g) else Decode(g))
      && (c % 2 == 0) == !(Parity(g) != p)
  {
    DigitValue(n, p, c);
    DigitParity(Ones(n), c, Decode(Xor(Encode(c), Flip(n, p))), p);
  }

  lemma DigitParity(o: nat, c: nat, d: int, p: bool)
    requires o % 2 == 1 && d == if p then o - c else c
    ensures (c % 2 == 0) == !((d % 2 == 1) != p)
  {
  }

  /** The flip state after k digits. */
  lemma {:induction false} CarryAt(n: nat, p: bool, cs: seq<nat>, k: nat)
    requires n >= 1 && AllBelow(cs, n) && k < |cs|
    ensures GrayDigits(n, p, cs)[k] == Xor(Encode(cs[k]), Flip(n, Carry(p, GrayDigits(n, p, cs)[..k])))
    decreases k
  {
    if k > 0 {
      CarryAt(n, p, cs, k - 1);
      var gs := GrayDigits(n, p, cs);
      assert gs[..k][..k - 1] == gs[..k - 1] && gs[..k][k - 1] == gs[k - 1];
      DigitDecode(n, Carry(p, gs[..k - 1]), cs[k - 1]);
      GrayDigitAt(n, p, cs, k);
    }
  }

  lemma {:induction false} GrayDigitAt(n: nat, p: bool, cs: seq<nat>, k: nat)
    requires n >= 1 && 0 < k < |cs|
    ensures GrayDigits(n, p, cs)[k] == Xor(Encode(cs[k]), Flip(n, cs[k - 1] % 2 == 0))
    decreases k
  {
    if k > 1 { GrayDigitAt(n, cs[0] % 2 == 0, cs[1..], k - 1); }
  }

  lemma ParityXor(a: nat, b: nat)
    ensures Parity(Xor(a, b)) == (Parity(a) != Parity(b))
  {
    DecodeXor(a, b);
    XorOdd(Decode(Xor(a, b)), Decode(a), Decode(b));
  }

  /** The source's bookkeeping: level parity and the parity of the xor of all
      digits so far give the flip state. */
  lemma {:induction false} CarryIsParity(gs: seq<nat>)
    ensures Carry(false, gs) == ((|gs| % 2 == 1) != Parity(XorAll(gs)))
  {
    if gs == [] {
      assert XorAll(gs) == 0;
    } else {
      var k := |gs| - 1;
      CarryIsParity(gs[..k]);
      CarryStep(gs, k, XorAll(gs[..k]));
    }
  }

  lemma CarryStep(gs: seq<nat>, k: nat, x: nat)
    requires |gs| == k + 1 && x == XorAll(gs[..k]) && Carry(false, gs[..k]) == ((k % 2 == 1) != Parity(x))
    ensures Carry(false, gs) == (((k + 1) % 2 == 1) != Parity(XorAll(gs)))
  {
    LastDigit(gs, k);
    ParityXor(x, gs[k]);
    FlipFlop(k, Parity(x), Parity(gs[k]), Parity(Xor(x, gs[k])), Carry(false, gs[..k]), Carry(false, gs));
  }

  lemma LastDigit(gs: seq<nat>, k: nat)
    requires |gs| == k + 1
    ensures Carry(false, gs) == !(Parity(gs[k]) != Carry(false, gs[..k]))
    ensures XorAll(gs) == Xor(XorAll(gs[..k]), gs[k])
  {
  }

  lemma FlipFlop(k: nat, before: bool, digit: bool, after: bool, carry: bool, next: bool)
    requires carry == ((k % 2 == 1) != before) && after == (before != digit) && next == !(digit != carry)
    ensures next == (((k + 1) % 2 == 1) != after)
  {
  }

  /** A chunk is determined by its digit and the flip state before it. */
  lemma DigitOf(n: nat, p: bool, cs: seq<nat>, k: nat, flipped: bool, digit: nat)
    requires n >= 1 && AllBelow(cs, n) && k < |cs|
    requires flipped == Carry(p, GrayDigits(n, p, cs)[..k]) && digit == GrayDigits(n, p, cs)[k]
    ensures cs[k] == (if flipped then Ones(n) - Decode(digit) else Decode(digit))
  {
    CarryAt(n, p, cs, k);
    DigitDecode(n, flipped, cs[k]);
  }

  lemma SameDigit(n: nat, p: bool, cs: seq<nat>, ds: seq<nat>, k: nat)
    requires n >= 1 && AllBelow(cs, n) && AllBelow(ds, n) && k < |cs| == |ds|
    requires GrayDigits(n, p, cs)[..k] == GrayDigits(n, p, ds)[..k]
    requires GrayDigits(n, p, cs)[k] == GrayDigits(n, p, ds)[k]
    ensures cs[k] == ds[k]
  {
    var gs := GrayDigits(n, p, cs);
    DigitOf(n, p, cs, k, Carry(p, gs[..k]), gs[k]);
    DigitOf(n, p, ds, k, Carry(p, gs[..k]), gs[k]);
  }

  /** Same digits give the same chunks. */
  lemma {:induction false} SameDigits(n: nat, p: bool, cs: seq<nat>, ds: seq<nat>, k: nat)
    requires n >= 1 && AllBelow(cs, n) && AllBelow(ds, n) && k <= |cs| == |ds|
    requires GrayDigits(n, p, cs)[..k] == GrayDigits(n, p, ds)[..k]
    ensures cs[..k] == ds[..k]
    decreases k
  {
    if k > 0 {
      var gs, hs := GrayDigits(n, p, cs), GrayDigits(n, p, ds);
      assert gs[..k][..k - 1] == gs[..k - 1] && hs[..k][..k - 1] == hs[..k - 1];
      SameDigits(n, p, cs, ds, k - 1);
      assert gs[k - 1] == gs[..k][k - 1] == hs[..k][k - 1] == hs[k - 1];
      SameDigit(n, p, cs, ds, k - 1);
      assert cs[..k] == cs[..k - 1] + [cs[k - 1]] && ds[..k] == ds[..k - 1] + [ds[k - 1]];
    }
  }

  /** Indices compare as their chunk lists do, most significant first. */
  lemma {:induction false} ChunkOrder(n: nat, cs: seq<nat>, ds: seq<nat>, k: nat)
    requires AllBelow(cs, n) && AllBelow(ds, n) && k < |cs| == |ds|
    requires cs[..k] == ds[..k] && cs[k] < ds[k]
    ensures FromChunks(n, cs) < FromChunks(n, ds)
    decreases |cs|
  {
    var m := |cs| - 1;
    var f, g := FromChunks(n, cs[..m]), FromChunks(n, ds[..m]);
    OrAdds(f, n, cs[m]);
    OrAdds(g, n, ds[m]);
    if k == m {
      assert cs[..m] == ds[..m];
    } else {
      assert cs[..m][..k] == cs[..k] && ds[..m][..k] == ds[..k];
      ChunkOrder(n, cs[..m], ds[..m], k);
      LexOrder(f, cs[m], g, ds[m], Pow2(n));
    }
  }

  lemma LexOrder(f: int, c: int, g: int, d: int, p: int)
    requires f < g && 0 <= c < p && 0 <= d < p
    ensures f * p + c < g * p + d
  {
    MulMono(f + 1, g, p);
    MulSub(f, f + 1, p);
  }

  /** The first level on which two points differ decides, and the flip state
      tells which way. */
  lemma FirstDifference(m: nat, p1: seq<nat>, p2: seq<nat>, k: nat)
    requires |p1| == |p2| >= 1 && AllBelow(p1, m) && AllBelow(p2, m) && k < m
    requires var n := |p1|;
      var gs, hs := Chunked(n, 0, 0, WordsOf(p1, m)), Chunked(n, 0, 0, WordsOf(p2, m));
      gs[..k] == hs[..k] && gs[k] != hs[k]
    ensures var n := |p1|;
      var gs, hs := Chunked(n, 0, 0, WordsOf(p1, m)), Chunked(n, 0, 0, WordsOf(p2, m));
      && C2I(m, p1) != C2I(m, p2)
      && (C2I(m, p1) < C2I(m, p2) <==> (!Carry(false, gs[..k]) <==> Decode(gs[k]) < Decode(hs[k])))
  {
    var n := |p1|;
    var x, y := C2I(m, p1), C2I(m, p2);
    DigitsOfPoint(n, m, p1);
    DigitsOfPoint(n, m, p2);
    var cs, ds := Chunks(n, m, x), Chunks(n, m, y);
    ChunksBelow(n, m, x);
    ChunksBelow(n, m, y);
    IndexOfChunks(n, m, x);
    IndexOfChunks(n, m, y);
    SameDigits(n, false, cs, ds, k);
    CarryAt(n, false, cs, k);
    CarryAt(n, false, ds, k);
    var q := Carry(false, GrayDigits(n, false, cs)[..k]);
    DigitDecode(n, q, cs[k]);
    DigitDecode(n, q, ds[k]);
    if cs[k] < ds[k] { ChunkOrder(n, cs, ds, k); }
    if ds[k] < cs[k] { ChunkOrder(n, ds, cs, k); }
    assert cs[k] != ds[k];
  }

  // ------------------------------------------------------------------
  // Coordinates as big-endian bytes
  // ------------------------------------------------------------------

  /** nDims coordinates of nBytes bytes each, one after the other. */
  ghost predicate ByteBuffer(c: seq<nat>, nDims: nat, nBytes: nat) {
    |c| == nDims * nBytes && forall i :: 0 <= i < |c| ==> c[i] < 256
  }

  lemma SlotFits(nDims: nat, nBytes: nat, d: nat)
    requires d < nDims
    ensures 0 <= d * nBytes && d * nBytes + nBytes <= nDims * nBytes
  {
    MulMono(d + 1, nDims, nBytes);
    MulSub(d, d + 1, nBytes);
    MulNonNeg(d, nBytes);
  }

  /** The bytes of coordinate d, most significant first. */
  function BytesOf(c: seq<nat>, nDims: nat, nBytes: nat, d: nat): (s: seq<nat>)
    requires |c| == nDims * nBytes && d < nDims
    ensures |s| == nBytes
  {
    SlotFits(nDims, nBytes, d);
    c[d * nBytes..d * nBytes + nBytes]
  }

  function Point(c: seq<nat>, nDims: nat, nBytes: nat): (p: seq<nat>)
    requires |c| == nDims * nBytes
    ensures |p| == nDims
  {
    seq(nDims, d requires 0 <= d < nDims => FromChunks(8, BytesOf(c, nDims, nBytes, d)))
  }

  lemma PointBelow(c: seq<nat>, nDims: nat, nBytes: nat)
    requires ByteBuffer(c, nDims, nBytes)
    ensures AllBelow(Point(c, nDims, nBytes), 8 * nBytes)
  {
    forall d | 0 <= d < nDims ensures Point(c, nDims, nBytes)[d] < Pow2(8 * nBytes) {
      BytesBelow(c, nDims, nBytes, d);
      IndexBelow(8, BytesOf(c, nDims, nBytes, d));
    }
  }

  lemma BytesBelow(c: seq<nat>, nDims: nat, nBytes: nat, d: nat)
    requires ByteBuffer(c, nDims, nBytes) && d < nDims
    ensures AllBelow(BytesOf(c, nDims, nBytes, d), 8)
  {
    assert Pow2(8) == 256;
    SlotFits(nDims, nBytes, d);
  }

  /** Bit b of byte y is bit 8 * (nBytes - 1 - y) + b of the coordinate. */
  lemma ByteBit(c: seq<nat>, nDims: nat, nBytes: nat, d: nat, y: nat, b: nat)
    requires ByteBuffer(c, nDims, nBytes) && d < nDims && y < nBytes && b < 8
    ensures 0 <= y + d * nBytes < |c|
    ensures Bit(Point(c, nDims, nBytes)[d], 8 * (nBytes - 1 - y) + b) == Bit(c[y + d * nBytes], b)
  {
    SlotFits(nDims, nBytes, d);
    var s := BytesOf(c, nDims, nBytes, d);
    var x := FromChunks(8, s);
    var j := nBytes - 1 - y;
    BytesBelow(c, nDims, nBytes, d);
    ChunksOfIndex(8, s);
    assert Chunks(8, nBytes, x)[y] == Chunk(8, x, j) == s[y];
    ChunkBit(x, 8 * j, b);
  }

  lemma ChunkBit(x: nat, k: nat, b: nat)
    requires b < 8
    ensures Bit(Field(x, k, 8), b) == Bit(x, k + b)
  {
    AndBit(Shr(x, k), Ones(8), b);
    OnesBit(8, b);
    ShrBit(x, k, b);
  }

  /** The inner loop over the axes, for one of the two points. */
  method ReadBits(c: seq<nat>, nDims: nat, nBytes: nat, y: nat, b: nat) returns (word: nat)
    requires ByteBuffer(c, nDims, nBytes) && y < nBytes && b < 8
    ensures word == WordUpTo(Point(c, nDims, nBytes), 8 * (nBytes - 1 - y) + b, nDims)
  {
    word := 0;
    ghost var level := 8 * (nBytes - 1 - y) + b;
    ghost var p := Point(c, nDims, nBytes);
    for d := 0 to nDims
      invariant word == WordUpTo(p, level, d)
    {
      ByteBit(c, nDims, nBytes, d, y, b);
      var bit := And(Shr(c[y + d * nBytes], b), 1);
      OneBit(Shr(c[y + d * nBytes], b), 0);
      ShrBit(c[y + d * nBytes], b, 0);
      OneBit(Shr(p[d], level), 0);
      ShrBit(p[d], level, 0);
      word := Or(word, Shl(bit, d));
    }
  }

  /** The doubling loop inside hilbert_cmp: nDims bits are enough. */
  method FoldLoop(g: nat, nDims: nat) returns (r: nat)
    requires g < Pow2(nDims) && nDims >= 1
    ensures r == Decode(g)
  {
    r := g;
    XorZero(g);
    var d := 1;
    while d < nDims
      invariant d >= 1 && r == Partial(g, d)
      decreases nDims - d
    {
      PartialShr(g, d, d);
      PartialSplit(g, d, d);
      r := Xor(r, Shr(r, d));
      d := d * 2;
    }
    Pow2Mono(nDims, d);
    PartialIsDecode(g, d);
  }

  function Sign(a: int, b: int): int { if a < b then -1 else if a == b then 0 else 1 }

  /** The variables the source carries from level to level. */
  datatype Walk = Walk(rotation: nat, reflection: nat, index: nat)

  /** hilbert_cmp: the order of the two points along the curve. */
  method HilbertCmp(nDims: nat, nBytes: nat, c1: seq<nat>, c2: seq<nat>) returns (r: int)
    requires 1 <= nDims <= WORD_BITS && ByteBuffer(c1, nDims, nBytes) && ByteBuffer(c2, nDims, nBytes)
    ensures r == Sign(C2I(8 * nBytes, Point(c1, nDims, nBytes)), C2I(8 * nBytes, Point(c2, nDims, nBytes)))
  {
    ghost var m := 8 * nBytes;
    ghost var p1, p2 := Point(c1, nDims, nBytes), Point(c2, nDims, nBytes);
    var st := Walk(0, 0, 0);
    WalkStarts(p1, p2, nDims, m);
    ghost var k := 0;   // levels done
    for y := 0 to nBytes
      invariant k == 8 * y && st in Steps(nDims, m, p1, p2, k)
    {
      var b := 8;
      while b > 0
        invariant 0 <= b <= 8 && k == 8 * y + (8 - b) && st in Steps(nDims, m, p1, p2, k)
      {
        b := b - 1;
        var decided;
        decided, r, st := CompareLevel(nDims, nBytes, c1, c2, y, b, st, m, p1, p2, k);
        if decided { return; }
        k := k + 1;
      }
    }
    WalkEnds(p1, p2, nDims, m, st);
    r := 0;
  }

  /** One level: a verdict if the points differ there, the next state if not. */
  method CompareLevel(nDims: nat, nBytes: nat, c1: seq<nat>, c2: seq<nat>, y: nat, b: nat, st: Walk, ghost m: nat,
                      ghost p1: seq<nat>, ghost p2: seq<nat>, ghost k: nat)
    returns (decided: bool, r: int, st': Walk)
    requires 1 <= nDims <= WORD_BITS && ByteBuffer(c1, nDims, nBytes) && ByteBuffer(c2, nDims, nBytes)
    requires m == 8 * nBytes && p1 == Point(c1, nDims, nBytes) && p2 == Point(c2, nDims, nBytes)
    requires y < nBytes && b < 8 && k == 8 * y + (7 - b) && st in Steps(nDims, m, p1, p2, k)
    ensures decided ==> r == Sign(C2I(m, p1), C2I(m, p2))
    ensures !decided ==> st' in Steps(nDims, m, p1, p2, k + 1)
  {
    PointBelow(c1, nDims, nBytes);
    PointBelow(c2, nDims, nBytes);
    var word1 := ReadBits(c1, nDims, nBytes, y, b);
    var word2 := ReadBits(c2, nDims, nBytes, y, b);
    StepRange(nDims, m, st, p1, p2, k);
    var bits := RotateRight(Xor(st.reflection, word1), st.rotation, nDims);
    assert bits == DigitAt(nDims, m, st, p1, k);
    if word1 != word2 {
      r := DecideLevel(nDims, m, st, p1, p2, y, b, bits, word2);
      return true, r, st;
    }
    StepAgrees(nDims, m, st, p1, p2, k);
    st' := NextLevel(nDims, st, word1, bits);
    return false, 0, st';
  }

  /** The updates at the end of a level. */
  method NextLevel(nDims: nat, st: Walk, word: nat, bits: nat) returns (st': Walk)
    requires 1 <= nDims <= WORD_BITS && st.rotation < nDims && bits < Pow2(nDims)
    ensures st' == Walk(NextRotation(nDims, st.rotation, bits), Xor(word, Pow2(st.rotation)), Xor(st.index, bits))
  {
    ShlIsMul(1, st.rotation);
    var rotation := AdjustRotation(st.rotation, nDims, bits);
    st' := Walk(rotation, Xor(word, Shl(1, st.rotation)), Xor(st.index, bits));
  }

  /** The points differ at the level: which index is smaller. */
  method DecideLevel(nDims: nat, ghost m: nat, st: Walk, ghost p1: seq<nat>, ghost p2: seq<nat>, ghost y: nat, b: nat,
                     bits: nat, word2: nat)
    returns (r: int)
    requires b < 8 && 8 * y + (7 - b) < m && st in Steps(nDims, m, p1, p2, 8 * y + (7 - b))
    requires |p1| == |p2| == nDims >= 1 && st.rotation < nDims && st.reflection < Pow2(nDims) && st.index < Pow2(nDims)
    requires AllBelow(p1, m) && AllBelow(p2, m)
    requires bits == DigitAt(nDims, m, st, p1, 8 * y + (7 - b))
    requires word2 == WordUpTo(p2, m - 1 - (8 * y + (7 - b)), nDims)
    requires WordUpTo(p1, m - 1 - (8 * y + (7 - b)), nDims) != word2
    ensures r == Sign(C2I(m, p1), C2I(m, p2))
  {
    ghost var k := 8 * y + (7 - b);
    StepDiffers(nDims, m, st, p1, p2, k);
    var bts2 := RotateRight(Xor(st.reflection, word2), st.rotation, nDims);
    r := Verdict(nDims, st.index, b, bits, bts2);
    LevelParity(y, b);
    VerdictIsSign(C2I(m, p1), C2I(m, p2), k % 2 == 1, Parity(st.index), Decode(bits) < Decode(bts2), r);
  }

  lemma LevelParity(y: nat, b: nat)
    requires b < 8
    ensures ((8 * y + (7 - b)) % 2 == 1) == (b % 2 != 1)
  {
    assert 8 * y + (7 - b) == 2 * (4 * y + 3) + (1 - b);
  }

  lemma VerdictIsSign(x: int, y: int, odd: bool, parity: bool, less: bool, r: int)
    requires x != y && (x < y <==> ((odd == parity) <==> less))
    requires r == if (parity != !odd) == less then -1 else 1
    ensures r == Sign(x, y)
  {
  }

  /** The fold and the test (((index ^ b) & 1) == (bits < bts2)) ? -1 : 1. */
  method Verdict(nDims: nat, index: nat, b: nat, bits: nat, bts2: nat) returns (r: int)
    requires nDims >= 1 && index < Pow2(nDims) && bits < Pow2(nDims) && bts2 < Pow2(nDims)
    ensures r == if (Parity(index) != (b % 2 == 1)) == (Decode(bits) < Decode(bts2)) then -1 else 1
  {
    var i := FoldLoop(index, nDims);
    var d1 := FoldLoop(bits, nDims);
    var d2 := FoldLoop(bts2, nDims);
    XorParts(i, b);
    OneBit(Xor(i, b), 0);
    r := if And(Xor(i, b), 1) == (if d1 < d2 then 1 else 0) then -1 else 1;
  }

  /** Both points agree above level k, and the state is that of either. */
  ghost predicate InStep(n: nat, m: nat, st: Walk, p1: seq<nat>, p2: seq<nat>, k: nat) {
    && n >= 1 && |p1| == |p2| == n && k <= m
    && st.rotation < n && st.reflection < Pow2(n) && st.index < Pow2(n)
    && var ws, us := WordsOf(p1, m), WordsOf(p2, m);
       var gs, hs := Chunked(n, 0, 0, ws), Chunked(n, 0, 0, us);
       && Chunked(n, st.rotation, st.reflection, ws[k..]) == gs[k..]
       && Chunked(n, st.rotation, st.reflection, us[k..]) == hs[k..]
       && gs[..k] == hs[..k] && st.index == XorAll(gs[..k])
  }

  /** The states in step with level k. */
  ghost function Steps(n: nat, m: nat, p1: seq<nat>, p2: seq<nat>, k: nat): iset<Walk> {
    iset st: Walk | InStep(n, m, st, p1, p2, k)
  }

  lemma StepRange(n: nat, m: nat, st: Walk, p1: seq<nat>, p2: seq<nat>, k: nat)
    requires st in Steps(n, m, p1, p2, k)
    ensures n >= 1 && |p1| == |p2| == n && k <= m
    ensures st.rotation < n && st.reflection < Pow2(n) && st.index < Pow2(n)
  {
  }

  lemma WalkStarts(p1: seq<nat>, p2: seq<nat>, n: nat, m: nat)
    requires |p1| == |p2| == n >= 1
    ensures Walk(0, 0, 0) in Steps(n, m, p1, p2, 0)
  {
    var ws, us := WordsOf(p1, m), WordsOf(p2, m);
    var gs, hs := Chunked(n, 0, 0, ws), Chunked(n, 0, 0, us);
    assert ws[0..] == ws && us[0..] == us && gs[0..] == gs && hs[0..] == hs && gs[..0] == [] && hs[..0] == [];
  }

  /** No level differs: the indices are equal. */
  lemma WalkEnds(p1: seq<nat>, p2: seq<nat>, n: nat, m: nat, st: Walk)
    requires st in Steps(n, m, p1, p2, m)
    ensures C2I(m, p1) == C2I(m, p2)
  {
    var gs, hs := Chunked(n, 0, 0, WordsOf(p1, m)), Chunked(n, 0, 0, WordsOf(p2, m));
    assert gs[..m] == gs && hs[..m] == hs;
  }

  /** The digit of a point at level k, computed from the running state. */
  function DigitAt(n: nat, m: nat, st: Walk, p: seq<nat>, k: nat): nat
    requires |p| == n && st.rotation < n && k < m
  {
    RotateRight(Xor(st.reflection, WordUpTo(p, m - 1 - k, n)), st.rotation, n)
  }

  lemma StepDigit(n: nat, m: nat, st: Walk, p: seq<nat>, k: nat)
    requires n >= 1 && |p| == n && k < m && AllBelow(p, m) && st.rotation < n && st.reflection < Pow2(n)
    requires var ws := WordsOf(p, m);
      Chunked(n, st.rotation, st.reflection, ws[k..]) == Chunked(n, 0, 0, ws)[k..]
    ensures var ws := WordsOf(p, m);
      var g := DigitAt(n, m, st, p, k);
      && g < Pow2(n) && Chunked(n, 0, 0, ws)[k] == g && ws[k] < Pow2(n) && Xor(ws[k], Pow2(st.rotation)) < Pow2(n)
      && Chunked(n, NextRotation(n, st.rotation, g), Xor(ws[k], Pow2(st.rotation)), ws[k + 1..])
           == Chunked(n, 0, 0, ws)[k + 1..]
  {
    WordsBounded(p, m);
    ChunkedStep(n, st.rotation, st.reflection, WordsOf(p, m), Chunked(n, 0, 0, WordsOf(p, m)), k);
  }

  /** Where the words differ the source's test decides the order. */
  lemma StepDiffers(n: nat, m: nat, st: Walk, p1: seq<nat>, p2: seq<nat>, k: nat)
    requires st in Steps(n, m, p1, p2, k) && n >= 1 && |p1| == |p2| == n && st.rotation < n
    requires k < m && AllBelow(p1, m) && AllBelow(p2, m)
    requires WordUpTo(p1, m - 1 - k, n) != WordUpTo(p2, m - 1 - k, n)
    ensures DigitAt(n, m, st, p1, k) < Pow2(n) && DigitAt(n, m, st, p2, k) < Pow2(n)
    ensures C2I(m, p1) != C2I(m, p2)
    ensures C2I(m, p1) < C2I(m, p2) <==>
      (((k % 2 == 1) == Parity(st.index)) <==> Decode(DigitAt(n, m, st, p1, k)) < Decode(DigitAt(n, m, st, p2, k)))
  {
    StepDigit(n, m, st, p1, k);
    StepDigit(n, m, st, p2, k);
    DistinctBits(n, st.rotation, st.reflection, WordsOf(p1, m)[k], WordsOf(p2, m)[k]);
    FirstDifference(m, p1, p2, k);
    CarryIsParity(Chunked(n, 0, 0, WordsOf(p1, m))[..k]);
  }

  /** Where the words agree the state moves on. */
  lemma StepAgrees(n: nat, m: nat, st: Walk, p1: seq<nat>, p2: seq<nat>, k: nat)
    requires st in Steps(n, m, p1, p2, k) && n >= 1 && |p1| == |p2| == n && st.rotation < n
    requires k < m && AllBelow(p1, m) && AllBelow(p2, m)
    requires WordUpTo(p1, m - 1 - k, n) == WordUpTo(p2, m - 1 - k, n)
    ensures DigitAt(n, m, st, p1, k) < Pow2(n)
    ensures NextWalk(n, m, st, p1, k) in Steps(n, m, p1, p2, k + 1)
  {
    KeepsStep(n, m, st, p1, p2, k);
  }

  lemma KeepsStep(n: nat, m: nat, st: Walk, p1: seq<nat>, p2: seq<nat>, k: nat)
    requires InStep(n, m, st, p1, p2, k) && k < m && AllBelow(p1, m) && AllBelow(p2, m)
    requires WordUpTo(p1, m - 1 - k, n) == WordUpTo(p2, m - 1 - k, n)
    ensures DigitAt(n, m, st, p1, k) < Pow2(n)
    ensures InStep(n, m, NextWalk(n, m, st, p1, k), p1, p2, k + 1)
  {
    var gs, hs := Chunked(n, 0, 0, WordsOf(p1, m)), Chunked(n, 0, 0, WordsOf(p2, m));
    StepDigit(n, m, st, p1, k);
    StepDigit(n, m, st, p2, k);
    var g := DigitAt(n, m, st, p1, k);
    assert gs[..k + 1] == gs[..k] + [g] && hs[..k + 1] == hs[..k] + [g];
    assert gs[..k + 1][..k] == gs[..k];
    XorBelow(st.index, g, n);
  }

  function NextWalk(n: nat, m: nat, st: Walk, p: seq<nat>, k: nat): Walk
    requires |p| == n && n >= 1 && st.rotation < n && k < m
  {
    var g := DigitAt(n, m, st, p, k);
    Walk(NextRotation(n, st.rotation, g), Xor(WordUpTo(p, m - 1 - k, n), Pow2(st.rotation)), Xor(st.index, g))
  }

  lemma WordsBounded(p: seq<nat>, m: nat)
    ensures AllBelow(WordsOf(p, m), |p|)
  {
    forall k | 0 <= k < m ensures WordsOf(p, m)[k] < Pow2(|p|) { WordBelow(p, m - 1 - k); }
  }

  lemma DistinctBits(n: nat, r: nat, e: nat, w: nat, u: nat)
    requires n >= 1 && r < n && e < Pow2(n) && w < Pow2(n) && u < Pow2(n) && w != u
    ensures RotateRight(Xor(e, w), r, n) != RotateRight(Xor(e, u), r, n)
  {
    XorCancel(e, w);
    XorCancel(e, u);
    XorBelow(e, w, n);
    XorBelow(e, u, n);
    RotateInjective(Xor(e, w), Xor(e, u), r, n);
  }

  lemma RotateInjective(x: nat, y: nat, r: nat, n: nat)
    requires n >= 1 && r < n && x < Pow2(n) && y < Pow2(n) && x != y
    ensures RotateRight(x, r, n) != RotateRight(y, r, n)
  {
    RotInverse(x, n - r, n);
    RotInverse(y, n - r, n);
  }
}
