/** The MPI vector datatypes of the halo exchange (MPI 3.1, section 4.1.2):
    what a face message contains and where it lands. */
module Faces {
  import opened Arith
  import opened Boxes
  import opened Decomposition

  /** MPI_Type_vector placed at a start position of the local array. */
  datatype Vec = Vec(start: int, count: int, block: int, stride: int) {
    /** Blocks do not overlap and stay inside an array of n elements. */
    predicate Fits(n: int) {
      start >= 0 && count >= 1 && 1 <= block <= stride && start + (count - 1) * stride + block <= n
    }

    predicate Hits(i: int)
      requires stride >= 1
    {
      i >= start && (i - start) / stride < count && (i - start) % stride < block
    }
  }

  lemma VecBounds(v: Vec, n: int, y: int, x: int)
    requires v.Fits(n) && 0 <= y < v.count && 0 <= x < v.block
    ensures 0 <= v.start + y * v.stride + x < n
    ensures 0 <= y * v.block + x < v.count * v.block
  {
    MulMono(y, v.count - 1, v.stride);
    MulNonNeg(y, v.stride);
    MulBound(y, x, v.count, v.block);
  }

  lemma DigitBounds(v: Vec, k: int)
    requires v.count >= 1 && v.block >= 1 && 0 <= k < v.count * v.block
    ensures 0 <= k / v.block < v.count && 0 <= k % v.block < v.block
  {
    DivBelow(k, v.count, v.block);
  }

  /** The message: the elements of the vector in order. */
  function Pack<T>(data: seq<T>, v: Vec): (msg: seq<T>)
    requires v.Fits(|data|)
    ensures |msg| == v.count * v.block
  {
    MulNonNeg(v.count, v.block);
    seq(v.count * v.block, k requires 0 <= k < v.count * v.block =>
      DigitBounds(v, k);
      VecBounds(v, |data|, k / v.block, k % v.block);
      data[v.start + k / v.block * v.stride + k % v.block])
  }

  /** The array after a message has been received into the vector. */
  function Unpack<T>(data: seq<T>, v: Vec, msg: seq<T>): (r: seq<T>)
    requires v.Fits(|data|) && |msg| == v.count * v.block
    ensures |r| == |data|
  {
    seq(|data|, i requires 0 <= i < |data| =>
      if v.Hits(i) then
        VecBounds(v, |data|, (i - v.start) / v.stride, (i - v.start) % v.stride);
        msg[(i - v.start) / v.stride * v.block + (i - v.start) % v.stride]
      else data[i])
  }

  /** Element (y, x) of the vector, from sender to receiver. */
  lemma TransferAt<T>(from: seq<T>, sv: Vec, data: seq<T>, rv: Vec, y: int, x: int)
    requires sv.Fits(|from|) && rv.Fits(|data|) && sv.count == rv.count && sv.block == rv.block
    requires 0 <= y < rv.count && 0 <= x < rv.block
    ensures 0 <= rv.start + y * rv.stride + x < |data| && 0 <= sv.start + y * sv.stride + x < |from|
    ensures Unpack(data, rv, Pack(from, sv))[rv.start + y * rv.stride + x] == from[sv.start + y * sv.stride + x]
  {
    VecBounds(sv, |from|, y, x);
    VecBounds(rv, |data|, y, x);
    DivMod(y, x, rv.stride);
    DivMod(y, x, rv.block);
    MulNonNeg(y, rv.stride);
  }

  lemma DivMod(y: int, x: int, n: int)
    requires 0 <= x < n
    ensures (y * n + x) / n == y && (y * n + x) % n == x
  {
    var t := y * n + x;
    assert t == (t / n) * n + t % n;
    DivUnique(t / n, t % n, y, x, n);
  }

  // ------------------------------------------------------------------
  // The three face types
  // ------------------------------------------------------------------

  /** The plane `axis == c` as init_mpi and the exchanges describe it:
      axis 2 is the XY face, 1 the XZ face, 0 the YZ face. */
  function FaceVec(s: Point, axis: nat, c: int): Vec
    requires axis < 3
  {
    if axis == 2 then Vec(L2I(s, Point(1, 0, c)), s.y + 2, s.x, s.x + 2)
    else if axis == 1 then Vec(L2I(s, Point(1, c, 1)), s.z, s.x, (s.x + 2) * (s.y + 2))
    else Vec(L2I(s, Point(c, 0, 0)), (s.y + 2) * (s.z + 2), 1, s.x + 2)
  }

  /** The cells of the plane a message covers. The XY face leaves out the x
      ghosts, the XZ face the x and z ghosts, the YZ face nothing. */
  predicate OnFace(s: Point, axis: nat, c: int, p: Point)
    requires axis < 3
  {
    && p.Axis(axis) == c
    && (axis == 2 ==> 1 <= p.x <= s.x && 0 <= p.y <= s.y + 1)
    && (axis == 1 ==> 1 <= p.x <= s.x && 1 <= p.z <= s.z)
    && (axis == 0 ==> 0 <= p.y <= s.y + 1 && 0 <= p.z <= s.z + 1)
  }

  /** Row and column of a face cell in the message. */
  function FaceRow(s: Point, axis: nat, p: Point): int {
    if axis == 2 then p.y else if axis == 1 then p.z - 1 else p.z * (s.y + 2) + p.y
  }
  function FaceCol(axis: nat, p: Point): int { if axis == 0 then 0 else p.x - 1 }

  /** A vector whose first and last element are local cells. */
  lemma VecFits(s: Point, v: Vec, first: Point, last: Point)
    requires Positive3(s) && Local(s, first) && Local(s, last) && v.count >= 1 && 1 <= v.block <= v.stride
    requires v.start == L2I(s, first) && L2I(s, last) == v.start + (v.count - 1) * v.stride + v.block - 1
    ensures v.Fits(Cells(s))
  {
    L2IRange(s, first);
    L2IRange(s, last);
  }

  lemma FaceFitsXY(s: Point, c: int)
    requires Positive3(s) && 0 <= c <= s.z + 1
    ensures FaceVec(s, 2, c).Fits(Cells(s))
  {
    VecFits(s, FaceVec(s, 2, c), Point(1, 0, c), Point(s.x, s.y + 1, c));
  }

  lemma FaceFitsXZ(s: Point, c: int)
    requires Positive3(s) && 0 <= c <= s.y + 1
    ensures FaceVec(s, 1, c).Fits(Cells(s))
  {
    var area := (s.x + 2) * (s.y + 2);
    MulMono(1, s.y + 2, s.x + 2);
    assert (s.y + 2) * (s.x + 2) == area;
    MulSub(1, s.z, area);
    VecFits(s, FaceVec(s, 1, c), Point(1, c, 1), Point(s.x, c, s.z));
  }

  lemma FaceFitsYZ(s: Point, c: int)
    requires Positive3(s) && 0 <= c <= s.x + 1
    ensures FaceVec(s, 0, c).Fits(Cells(s))
  {
    var w, h, d := s.x + 2, s.y + 2, s.z + 2;
    MulMono(1, d, h);
    assert d * h == h * d;
    LastRow(w, h, d);
    VecFits(s, FaceVec(s, 0, c), Point(c, 0, 0), Point(c, s.y + 1, s.z + 1));
  }

  /** A face message stays inside the local array. */
  lemma FaceFits(s: Point, axis: nat, c: int)
    requires Positive3(s) && axis < 3 && 0 <= c <= s.Axis(axis) + 1
    ensures FaceVec(s, axis, c).Fits(Cells(s))
  {
    if axis == 2 { FaceFitsXY(s, c); } else if axis == 1 { FaceFitsXZ(s, c); } else { FaceFitsYZ(s, c); }
  }

  lemma LastRow(w: int, h: int, d: int)
    ensures (h * d - 1) * w == (d - 1) * (w * h) + (h - 1) * w
  {
    assert (h * d) * w == d * (w * h);
    assert (d - 1) * (w * h) == d * (w * h) - w * h;
    assert (h - 1) * w == w * h - w;
  }

  /** Every face cell is an element of the vector. */
  lemma FaceIndex(s: Point, axis: nat, c: int, p: Point)
    requires Positive3(s) && axis < 3 && Local(s, p) && OnFace(s, axis, c, p)
    ensures var v := FaceVec(s, axis, c);
      && 0 <= FaceRow(s, axis, p) < v.count && 0 <= FaceCol(axis, p) < v.block
      && L2I(s, p) == v.start + FaceRow(s, axis, p) * v.stride + FaceCol(axis, p)
  {
    var w, h := s.x + 2, s.y + 2;
    if axis == 1 {
      assert (p.z - 1) * (w * h) == p.z * (w * h) - w * h;
    } else if axis == 0 {
      MulBound(p.z, p.y, s.z + 2, h);
      assert h * (s.z + 2) == (s.z + 2) * h;
      assert (p.z * h + p.y) * w == p.z * (w * h) + p.y * w by { RowSpread(p.z, p.y, w, h); }
    }
  }

  lemma RowSpread(z: int, y: int, w: int, h: int)
    ensures (z * h + y) * w == z * (w * h) + y * w
  {
    assert (z * h) * w == z * (w * h);
  }

  lemma MissXY(s: Point, c: int, p: Point)
    requires Positive3(s) && Local(s, p) && !OnFace(s, 2, c, p)
    ensures !FaceVec(s, 2, c).Hits(L2I(s, p))
  {
    var w, h := s.x + 2, s.y + 2;
    var o := L2I(s, p) - FaceVec(s, 2, c).start;
    var row := (p.z - c) * h + p.y;
    assert o == row * w + (p.x - 1) by {
      RowSpread(p.z - c, p.y, w, h);
      assert (p.z - c) * (w * h) == p.z * (w * h) - c * (w * h);
    }
    if p.x == 0 {
      assert o == (row - 1) * w + (w - 1) by { MulSub(row - 1, row, w); }
      DivMod(row - 1, w - 1, w);
    } else {
      DivMod(row, p.x - 1, w);
      if p.z > c {
        MulMono(1, p.z - c, h);
      } else if p.z < c {
        MulMono(p.z - c, -1, h);
        MulMono(row, -1, w);
      }
    }
  }

  lemma MissXZ(s: Point, c: int, p: Point)
    requires Positive3(s) && Local(s, p) && !OnFace(s, 1, c, p) && 0 <= c <= s.y + 1
    ensures !FaceVec(s, 1, c).Hits(L2I(s, p))
  {
    var w, h := s.x + 2, s.y + 2;
    var area := w * h;
    var o := L2I(s, p) - FaceVec(s, 1, c).start;
    var r := (p.y - c) * w + (p.x - 1);
    assert o == (p.z - 1) * area + r by {
      MulSub(1, p.z, area);
      MulSub(c, p.y, w);
    }
    RowOffset(p.y - c, p.x, w, h);
    if r < 0 {
      assert o == (p.z - 2) * area + (r + area) by { MulSub(p.z - 2, p.z - 1, area); }
      DivMod(p.z - 2, r + area, area);
    } else {
      DivMod(p.z - 1, r, area);
      if p.z == 0 { assert o < 0; }
    }
  }

  /** Where a row that is not the face's own row lands modulo the XZ stride. */
  lemma RowOffset(d: int, x: int, w: int, h: int)
    requires w >= 3 && h >= 3 && -(h - 1) <= d <= h - 1 && 0 <= x <= w - 1
    ensures var r := d * w + (x - 1);
      && (d > 0 ==> w - 1 <= r < w * h)
      && (d < 0 ==> r < 0 && w - 1 <= r + w * h < w * h)
      && (d == 0 ==> r == x - 1 && w < w * h)
  {
    assert w * h == h * w;
    MulMono(2, h, w);
    if d > 0 {
      MulMono(1, d, w);
      MulMono(d + 1, h, w);
      MulSub(d, d + 1, w);
    } else if d < 0 {
      MulMono(d, -1, w);
      MulMono(-(h - 1), d, w);
      MulSub(1, h, w);
      assert -(h - 1) * w == -((h - 1) * w);
    }
  }

  lemma MissYZ(s: Point, c: int, p: Point)
    requires Positive3(s) && Local(s, p) && !OnFace(s, 0, c, p) && 0 <= c <= s.x + 1
    ensures !FaceVec(s, 0, c).Hits(L2I(s, p))
  {
    var w, h := s.x + 2, s.y + 2;
    RowSpread(p.z, p.y, w, h);
    OffColumn(p.z * h + p.y, p.x - c, w, L2I(s, p) - FaceVec(s, 0, c).start);
  }

  /** A cell that is not in the vector's column leaves a remainder. */
  lemma OffColumn(row: int, d: int, w: int, o: int)
    requires d != 0 && -w < d < w && o == row * w + d
    ensures o % w != 0
  {
    if d > 0 {
      DivMod(row, d, w);
    } else {
      MulSub(row - 1, row, w);
      DivMod(row - 1, d + w, w);
    }
  }

  /** No other cell of the local array is touched. */
  lemma FaceMiss(s: Point, axis: nat, c: int, p: Point)
    requires Positive3(s) && axis < 3 && Local(s, p) && !OnFace(s, axis, c, p)
    requires 0 <= c <= s.Axis(axis) + 1
    ensures FaceVec(s, axis, c).stride >= 1 && !FaceVec(s, axis, c).Hits(L2I(s, p))
  {
    FaceFits(s, axis, c);
    if axis == 2 { MissXY(s, c, p); } else if axis == 1 { MissXZ(s, c, p); } else { MissYZ(s, c, p); }
  }

  // ------------------------------------------------------------------
  // One face, from one rank to another
  // ------------------------------------------------------------------

  function WithAxis(p: Point, axis: nat, c: int): Point
    requires axis < 3
  {
    if axis == 0 then p.(x := c) else if axis == 1 then p.(y := c) else p.(z := c)
  }

  /** The receiver has the same extent as the sender on the other two axes. */
  predicate SameCross(s: Point, t: Point, axis: nat)
    requires axis < 3
  {
    (axis != 0 ==> s.x == t.x) && (axis != 1 ==> s.y == t.y) && (axis != 2 ==> s.z == t.z)
  }

  /** Receiving the sender's plane `cs` into the plane `cr`: the face cells get
      the sender's values, every other cell keeps its own. */
  lemma FaceTransfer<T>(from: seq<T>, t: Point, cs: int, data: seq<T>, s: Point, cr: int, axis: nat, p: Point)
    requires Positive3(s) && Positive3(t) && axis < 3 && SameCross(s, t, axis)
    requires |from| == Cells(t) && |data| == Cells(s) && Local(s, p)
    requires 0 <= cs <= t.Axis(axis) + 1 && 0 <= cr <= s.Axis(axis) + 1
    ensures FaceVec(t, axis, cs).Fits(|from|) && FaceVec(s, axis, cr).Fits(|data|)
    ensures |Pack(from, FaceVec(t, axis, cs))| == FaceVec(s, axis, cr).count * FaceVec(s, axis, cr).block
    ensures 0 <= L2I(s, p) < |data|
    ensures var r := Unpack(data, FaceVec(s, axis, cr), Pack(from, FaceVec(t, axis, cs)));
      if OnFace(s, axis, cr, p) then
        && Local(t, WithAxis(p, axis, cs)) && 0 <= L2I(t, WithAxis(p, axis, cs)) < |from|
        && r[L2I(s, p)] == from[L2I(t, WithAxis(p, axis, cs))]
      else r[L2I(s, p)] == data[L2I(s, p)]
  {
    FaceFits(t, axis, cs);
    FaceFits(s, axis, cr);
    L2IRange(s, p);
    if OnFace(s, axis, cr, p) {
      var o := WithAxis(p, axis, cs);
      L2IRange(t, o);
      FaceIndex(s, axis, cr, p);
      FaceIndex(t, axis, cs, o);
      TransferAt(from, FaceVec(t, axis, cs), data, FaceVec(s, axis, cr), FaceRow(s, axis, p), FaceCol(axis, p));
    } else {
      FaceMiss(s, axis, cr, p);
    }
  }
}
