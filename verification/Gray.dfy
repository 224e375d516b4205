/** The reflected Gray code and the doubling-shift decoder of
    utils/hilbert/hilbert.c. */
module Gray {
  import opened BitWords

  function Encode(x: nat): nat { Xor(x, x / 2) }

  /** x ^ x>>1 ^ x>>2 ^ ... */
  function Decode(g: nat): nat { if g == 0 then 0 else Xor(g, Decode(g / 2)) }

  /** The first d terms of that sum. */
  function Partial(g: nat, d: nat): nat { if d == 0 then 0 else Xor(g, Partial(g, d - 1) / 2) }

  lemma {:induction false} DecodeHalf(g: nat)
    ensures Decode(g) / 2 == Decode(g / 2)
  {
    if g > 0 {
      XorHalf(g, Decode(g / 2));
      DecodeHalf(g / 2);
    }
  }

  /** Decoding undoes encoding and encoding undoes decoding. */
  lemma {:induction false} GrayRoundTrip(x: nat)
    ensures Decode(Encode(x)) == x
    ensures Encode(Decode(x)) == x
  {
    if x > 0 {
      GrayRoundTrip(x / 2);
      XorHalf(x, x / 2);
      assert Encode(x) / 2 == Encode(x / 2);
      if Encode(x) == 0 {
        XorCancel(x, x / 2);
        XorZero(x);
        assert false;
      }
      XorCancel(x / 2, x);
      assert Decode(Encode(x)) == Xor(Encode(x), x / 2);
      DecodeHalf(x);
      XorCancel(Decode(x / 2), x);
    }
  }

  lemma DecodeBelow(g: nat, n: nat)
    requires g < Pow2(n)
    ensures Decode(g) < Pow2(n)
    decreases n
  {
    if n > 0 {
      DecodeHalf(g);
      DecodeBelow(g / 2, n - 1);
    }
  }

  lemma EncodeBelow(x: nat, n: nat)
    requires x < Pow2(n)
    ensures Encode(x) < Pow2(n)
    decreases n
  {
    if n > 0 {
      XorHalf(x, x / 2);
      EncodeBelow(x / 2, n - 1);
    }
  }

  lemma {:induction false} DecodeXor(a: nat, b: nat)
    ensures Decode(Xor(a, b)) == Xor(Decode(a), Decode(b))
    decreases a + b
  {
    if a == 0 || b == 0 {
      XorZero(a); XorZero(b); XorZero(Decode(a)); XorZero(Decode(b));
    } else {
      XorHalf(a, b);
      DecodeXor(a / 2, b / 2);
      var x, y, u, v := a, b, Decode(a / 2), Decode(b / 2);
      if Xor(a, b) == 0 {
        XorCancel(a, b);
        XorZero(a);
        XorSelf(Decode(a));
      } else {
        Swap4(a, b, u, v);
      }
    }
  }

  lemma Swap4(a: nat, b: nat, u: nat, v: nat)
    ensures Xor(Xor(a, b), Xor(u, v)) == Xor(Xor(a, u), Xor(b, v))
  {
    XorAssoc(a, b, Xor(u, v));
    XorAssoc(b, u, v);
    XorComm(b, u);
    XorAssoc(u, b, v);
    XorAssoc(a, u, Xor(b, v));
  }

  // ------------------------------------------------------------------
  // The doubling loop
  // ------------------------------------------------------------------

  lemma {:induction false} PartialHalf(g: nat, d: nat)
    ensures Partial(g, d) / 2 == Partial(g / 2, d)
    decreases d
  {
    if d > 0 {
      XorHalf(g, Partial(g, d - 1) / 2);
      PartialHalf(g, d - 1);
      PartialHalf(g / 2, d - 1);
    }
  }

  lemma {:induction false} PartialShr(g: nat, d: nat, k: nat)
    ensures Shr(Partial(g, d), k) == Partial(Shr(g, k), d)
    decreases k
  {
    if k > 0 {
      PartialHalf(g, d);
      PartialShr(g / 2, d, k - 1);
    }
  }

  /** Doubling the number of terms with one shift. */
  lemma {:induction false} PartialSplit(g: nat, a: nat, b: nat)
    ensures Partial(g, a + b) == Xor(Partial(g, a), Shr(Partial(g, b), a))
    decreases a
  {
    if a == 0 {
      XorZero(Partial(g, b));
    } else {
      PartialSplit(g, a - 1, b);
      var p, q := Partial(g, a - 1), Shr(Partial(g, b), a - 1);
      XorHalf(p, q);
      ShrShr(Partial(g, b), a - 1, 1);
      ShrOne(q);
      XorAssoc(g, p / 2, q / 2);
    }
  }

  /** Enough terms give the whole sum. */
  lemma {:induction false} PartialIsDecode(g: nat, d: nat)
    requires g < Pow2(d)
    ensures Partial(g, d) == Decode(g)
    decreases d
  {
    if d > 0 {
      PartialHalf(g, d - 1);
      PartialIsDecode(g / 2, d - 1);
      if g == 0 { XorZero(0); }
    }
  }

  /** A partial sum is as long as the word it decodes. */
  lemma {:induction false} PartialZero(g: nat, d: nat)
    requires d >= 1 && Partial(g, d) == 0
    ensures g == 0
    decreases g
  {
    if g > 0 {
      PartialHalf(g, d);
      PartialZero(g / 2, d);
      PartialHalf(1, d - 1);
      ZeroPartial(d - 1);
      XorZero(1);
      assert false;
    }
  }

  lemma {:induction false} ZeroPartial(d: nat)
    ensures Partial(0, d) == 0
  {
    if d > 0 { ZeroPartial(d - 1); }
  }

  /** The closing loop of hilbert_c2i: shifts of 64 and more are done in two
      steps, and the loop ends at the first shift that leaves nothing. */
  method DecodeLoop(g: nat) returns (index: nat)
    ensures index == Decode(g)
  {
    index := g;
    var d := 1;
    XorZero(g);
    while true
      invariant d >= 1 && index == Partial(g, d)
      decreases if d <= g then g - d + 1 else 0
    {
      var t;
      if d <= 32 {
        t := Shr(index, d);
        if t == 0 { break; }
      } else {
        t := Shr(index, 32);
        t := Shr(t, d - 32);
        ShrShr(index, 32, d - 32);
        if t == 0 { break; }
      }
      PartialShr(g, d, d);
      ShrIsDiv(g, d);
      if g < Pow2(d) { ZeroPartial(d); assert false; }
      Pow2Above(d);
      PartialSplit(g, d, d);
      index := Xor(index, t);
      d := d * 2;
    }
    PartialShr(g, d, d);
    PartialZero(Shr(g, d), d);
    ShrIsDiv(g, d);
    PartialIsDecode(g, d);
  }

  lemma {:induction false} Pow2Above(d: nat)
    ensures Pow2(d) > d
  {
    if d > 0 { Pow2Above(d - 1); }
  }
}
