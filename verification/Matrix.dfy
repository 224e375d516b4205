/** Sub-block extraction and row-wise assembly: utils/matrixtool.h and the
    in-memory block store of blockManager/rawmemobj/rawmemobj.cpp. */
module Matrix {
  import opened Arith
  import opened Outcomes
  import opened Boxes

  /** The cells of a sub-box, read out of the box's layout. */
  function Extract<T>(b: BBX, data: seq<T>, sub: BBX): (r: seq<T>)
    requires b.Proper() && sub.Proper() && Inside(sub, b) && |data| == b.Volume()
    ensures |r| == sub.Volume()
  {
    CornersInRange(sub);
    seq(sub.Volume(), i requires 0 <= i < sub.Volume() =>
      IndexSurjective(sub, i);
      IndexInRange(b, Cell(sub, i));
      data[b.Index(Cell(sub, i))])
  }

  lemma CornersInRange(b: BBX)
    requires b.Proper()
    ensures b.Volume() >= 1
  {
    IndexInRange(b, b.Lower());
  }

  /** For every coordinate of the sub-box, the value stored for it. */
  lemma ExtractAt<T>(b: BBX, data: seq<T>, sub: BBX, p: Point)
    requires b.Proper() && sub.Proper() && Inside(sub, b) && |data| == b.Volume() && sub.Has(p)
    ensures 0 <= sub.Index(p) < sub.Volume() && 0 <= b.Index(p) < b.Volume()
    ensures Extract(b, data, sub)[sub.Index(p)] == data[b.Index(p)]
  {
    InsideCell(sub, b, p);
    IndexInRange(sub, p);
    IndexInRange(b, p);
    IndexSurjective(sub, sub.Index(p));
    IndexInjective(sub, Cell(sub, sub.Index(p)), p);
  }

  /** A sub-box of a sub-box is the sub-box. */
  lemma ExtractTwice<T>(b: BBX, data: seq<T>, mid: BBX, sub: BBX)
    requires b.Proper() && mid.Proper() && sub.Proper() && |data| == b.Volume()
    requires Inside(mid, b) && Inside(sub, mid)
    ensures Inside(sub, b)
    ensures Extract(mid, Extract(b, data, mid), sub) == Extract(b, data, sub)
  {
    assert Inside(sub, b) by {
      forall i | 0 <= i < 3 ensures b.Lo(i) <= sub.Lo(i) && sub.Hi(i) <= b.Hi(i) {
        assert b.Lo(i) <= mid.Lo(i) && mid.Hi(i) <= b.Hi(i);
      }
    }
    var m := Extract(b, data, mid);
    var l, r := Extract(mid, m, sub), Extract(b, data, sub);
    forall i | 0 <= i < sub.Volume() ensures l[i] == r[i] {
      var p := Cell(sub, i);
      IndexSurjective(sub, i);
      InsideCell(sub, mid, p);
      ExtractAt(mid, m, sub, p);
      ExtractAt(b, data, mid, p);
      ExtractAt(b, data, sub, p);
    }
  }

  /** Extracting the whole box returns the data unchanged. */
  lemma ExtractAll<T>(b: BBX, data: seq<T>, sub: BBX)
    requires b.Proper() && |data| == b.Volume() && SameBox(sub, b)
    ensures sub.Proper() && Inside(sub, b) && Extract(b, data, sub) == data
  {
    assert forall i: nat :: i < 3 ==> sub.Lo(i) == b.Lo(i) && sub.Hi(i) == b.Hi(i);
    var r := Extract(b, data, sub);
    forall i | 0 <= i < b.Volume() ensures r[i] == data[i] {
      IndexSurjective(sub, i);
    }
  }

  // ------------------------------------------------------------------
  // getSubMatrix
  // ------------------------------------------------------------------

  /** A 3-D box between two corners. */
  function Box3(lb: Point, ub: Point): (b: BBX)
    ensures b.Valid() && b.dims == 3 && b.Lower() == lb && b.Upper() == ub
  {
    BBX(3, 0, [Bound(lb.x, ub.x), Bound(lb.y, ub.y), Bound(lb.z, ub.z)])
  }

  const ORIGIN := Point(0, 0, 0)

  /** What the two checks at the top of getSubMatrix reject. */
  function SubMatrixError(subLb: Point, subUb: Point, globalUb: Point): Option<Error> {
    if subUb.z < subLb.z || subUb.y < subLb.y || subUb.x < subLb.x then Some(InvalidSubdomain)
    else if subUb.z > globalUb.z || subUb.y > globalUb.y || subUb.x > globalUb.x then Some(OutsideGlobal)
    else if subLb == globalUb && globalUb != ORIGIN then Some(CopyOverrun)
    else None
  }

  /** Cells of the sub-box already reached by the z, y, x scan. */
  predicate Scanned(p: Point, x: int, y: int, z: int) {
    p.z < z || (p.z == z && (p.y < y || (p.y == y && p.x < x)))
  }

  ghost predicate CopiedUpTo<T>(out: seq<T>, sub: BBX, data: seq<T>, global: BBX, x: int, y: int, z: int)
    requires sub.Proper() && global.Proper() && Inside(sub, global)
    requires |out| == sub.Volume() && |data| == global.Volume()
  {
    forall p: Point :: sub.Has(p) && Scanned(p, x, y, z) ==>
      0 <= sub.Index(p) < |out| && 0 <= global.Index(p) < |data| && out[sub.Index(p)] == data[global.Index(p)]
  }

  /** getSubMatrix. The "full overlap" test compares the lower corner of the
      sub-box with the upper corner of the whole, so it fires exactly when the
      sub-box is the last corner cell; the copy of the whole matrix then does
      not fit the one-cell buffer unless the whole is one cell too. */
  method GetSubMatrix<T(0)>(subLb: Point, subUb: Point, globalUb: Point, matrix: array<T>)
    returns (r: Result<array<T>>)
    requires subLb.x >= 0 && subLb.y >= 0 && subLb.z >= 0
    requires globalUb.x >= 0 && globalUb.y >= 0 && globalUb.z >= 0
    requires matrix.Length == Box3(ORIGIN, globalUb).Volume()
    ensures r.Err? <==> SubMatrixError(subLb, subUb, globalUb).Some?
    ensures r.Err? ==> r.error == SubMatrixError(subLb, subUb, globalUb).value
    ensures r.Ok? ==>
      var global, sub := Box3(ORIGIN, globalUb), Box3(subLb, subUb);
      && fresh(r.value) && sub.Proper() && global.Proper() && Inside(sub, global)
      && r.value[..] == Extract(global, matrix[..], sub)
  {
    if subUb.z < subLb.z || subUb.y < subLb.y || subUb.x < subLb.x { return Err(InvalidSubdomain); }
    if subUb.z > globalUb.z || subUb.y > globalUb.y || subUb.x > globalUb.x { return Err(OutsideGlobal); }
    var global, sub := Box3(ORIGIN, globalUb), Box3(subLb, subUb);
    CornersInRange(sub);
    var globalElemNum, subElemNum := global.Volume(), sub.Volume();
    var out := new T[subElemNum];
    if subLb.z == globalUb.z && subLb.y == globalUb.y && subLb.x == globalUb.x {
      LastCorner(globalUb, subUb);
      if globalElemNum > subElemNum { return Err(CopyOverrun); }
      Memcpy(out, 0, matrix[..], 0, globalElemNum);
    }
    for z := 0 to globalUb.z + 1
      invariant CopiedUpTo(out[..], sub, matrix[..], global, 0, 0, z)
    {
      if z >= subLb.z && z <= subUb.z {
        for y := 0 to globalUb.y + 1
          invariant CopiedUpTo(out[..], sub, matrix[..], global, 0, y, z)
        {
          if y >= subLb.y && y <= subUb.y {
            CopyLine(sub, global, y, z, matrix, out);
          }
          assert forall p: Point :: sub.Has(p) && Scanned(p, 0, y + 1, z) ==> Scanned(p, globalUb.x + 1, y, z);
        }
      }
      assert forall p: Point :: sub.Has(p) && Scanned(p, 0, 0, z + 1) ==> Scanned(p, 0, globalUb.y + 1, z);
    }
    CopiedAll(out[..], sub, matrix[..], global, globalUb.z + 1);
    r := Ok(out);
  }

  lemma LastCorner(globalUb: Point, subUb: Point)
    requires globalUb.x >= 0 && globalUb.y >= 0 && globalUb.z >= 0
    requires subUb == globalUb
    ensures Box3(globalUb, subUb).Volume() == 1
    ensures Box3(ORIGIN, globalUb).Volume() > 1 <==> globalUb != ORIGIN
  {
    var g := Box3(ORIGIN, globalUb);
    assert g.Lo(0) == g.Lo(1) == g.Lo(2) == 0;
    assert g.Hi(0) == globalUb.x && g.Hi(1) == globalUb.y && g.Hi(2) == globalUb.z;
    if globalUb != ORIGIN {
      IndexInRange(g, globalUb);
      IndexInRange(g, ORIGIN);
      if g.Volume() == 1 { IndexInjective(g, globalUb, ORIGIN); }
    }
  }

  /** memcpy of `n` elements. */
  method Memcpy<T>(dst: array<T>, dstOff: int, src: seq<T>, srcOff: int, n: int)
    requires 0 <= n && 0 <= dstOff && dstOff + n <= dst.Length && 0 <= srcOff && srcOff + n <= |src|
    modifies dst
    ensures dst[..] == old(dst[..dstOff]) + src[srcOff..srcOff + n] + old(dst[dstOff + n..])
  {
    for i := 0 to n
      invariant forall k :: 0 <= k < dst.Length ==>
        dst[k] == if dstOff <= k < dstOff + i then src[srcOff + (k - dstOff)] else old(dst[k])
    {
      dst[dstOff + i] := src[srcOff + i];
    }
  }

  /** The x loop of getSubMatrix, one element at a time. */
  method CopyLine<T>(sub: BBX, global: BBX, y: int, z: int, matrix: array<T>, out: array<T>)
    requires sub.Proper() && global.Proper() && Inside(sub, global) && sub.dims == global.dims == 3
    requires global.Lower() == ORIGIN && sub.Lo(1) <= y <= sub.Hi(1) && sub.Lo(2) <= z <= sub.Hi(2)
    requires out != matrix && out.Length == sub.Volume() && matrix.Length == global.Volume()
    requires CopiedUpTo(out[..], sub, matrix[..], global, 0, y, z)
    modifies out
    ensures CopiedUpTo(out[..], sub, matrix[..], global, global.Hi(0) + 1, y, z)
  {
    ghost var data := matrix[..];
    for x := 0 to global.Hi(0) + 1
      invariant matrix[..] == data
      invariant CopiedUpTo(out[..], sub, data, global, x, y, z)
    {
      if x >= sub.Lo(0) && x <= sub.Hi(0) {
        var p := Point(x, y, z);
        InsideCell(sub, global, p);
        IndexInRange(global, p);
        IndexInRange(sub, p);
        var globalIndex := z * (global.Ext(1) * global.Ext(0)) + y * global.Ext(0) + x;
        var subIndex := (z - sub.Lo(2)) * (sub.Ext(1) * sub.Ext(0)) + (y - sub.Lo(1)) * sub.Ext(0) + x - sub.Lo(0);
        assert globalIndex == global.Index(p) && subIndex == sub.Index(p);
        ghost var before := out[..];
        out[subIndex] := matrix[globalIndex];
        CopyOne(before, out[..], sub, data, global, p);
      } else {
        assert forall q: Point :: sub.Has(q) && Scanned(q, x + 1, y, z) ==> Scanned(q, x, y, z);
      }
    }
  }

  lemma CopyOne<T>(before: seq<T>, after: seq<T>, sub: BBX, data: seq<T>, global: BBX, p: Point)
    requires sub.Proper() && global.Proper() && Inside(sub, global)
    requires |before| == |after| == sub.Volume() && |data| == global.Volume() && sub.Has(p)
    requires 0 <= sub.Index(p) < |before| && 0 <= global.Index(p) < |data|
    requires after == before[sub.Index(p) := data[global.Index(p)]]
    requires CopiedUpTo(before, sub, data, global, p.x, p.y, p.z)
    ensures CopiedUpTo(after, sub, data, global, p.x + 1, p.y, p.z)
  {
    forall q: Point | sub.Has(q) && Scanned(q, p.x + 1, p.y, p.z)
      ensures 0 <= sub.Index(q) < |after| && 0 <= global.Index(q) < |data|
      ensures after[sub.Index(q)] == data[global.Index(q)]
    {
      if q != p {
        assert Scanned(q, p.x, p.y, p.z);
        if sub.Index(q) == sub.Index(p) { IndexInjective(sub, q, p); }
      }
    }
  }

  lemma CopiedAll<T>(out: seq<T>, sub: BBX, data: seq<T>, global: BBX, z: int)
    requires sub.Proper() && global.Proper() && Inside(sub, global)
    requires |out| == sub.Volume() && |data| == global.Volume()
    requires CopiedUpTo(out, sub, data, global, 0, 0, z) && sub.Hi(2) < z
    ensures out == Extract(global, data, sub)
  {
    var e := Extract(global, data, sub);
    forall i | 0 <= i < sub.Volume() ensures out[i] == e[i] {
      IndexSurjective(sub, i);
      assert Scanned(Cell(sub, i), 0, 0, z);
    }
  }

  // ------------------------------------------------------------------
  // matrixAssemble
  // ------------------------------------------------------------------

  datatype MatrixView<T> = MatrixView(bbx: BBX, data: seq<T>)

  /** Views as matrixAssemble expects them: non-empty, inside the target box,
      of its dimension, holding one element per cell. */
  ghost predicate GoodViews<T>(views: seq<MatrixView<T>>, intact: BBX) {
    && intact.Proper()
    && forall i {:trigger views[i]} :: 0 <= i < |views| ==> GoodView(views[i], intact)
  }

  ghost predicate GoodView<T>(v: MatrixView<T>, intact: BBX)
    requires intact.Valid()
  {
    v.bbx.Proper() && v.bbx.dims == intact.dims && Inside(v.bbx, intact) && |v.data| == v.bbx.Volume()
  }

  function ValueIn<T>(v: MatrixView<T>, p: Point): T
    requires v.bbx.Proper() && |v.data| == v.bbx.Volume() && v.bbx.Has(p)
  {
    IndexInRange(v.bbx, p);
    v.data[v.bbx.Index(p)]
  }

  /** The cell of the result: the last view that has it wins; a cell of no view
      keeps what the fresh buffer held. */
  ghost function Assembled<T>(views: seq<MatrixView<T>>, intact: BBX, init: seq<T>, p: Point): T
    requires GoodViews(views, intact) && |init| == intact.Volume() && intact.Has(p)
  {
    IndexInRange(intact, p);
    if views == [] then init[intact.Index(p)]
    else
      var last := views[|views| - 1];
      if last.bbx.Has(p) then ValueIn(last, p)
      else Assembled(views[..|views| - 1], intact, init, p)
  }

  /** The buffer holds, at every cell's position, that cell's assembled value. */
  ghost predicate Holds<T>(out: seq<T>, views: seq<MatrixView<T>>, intact: BBX, init: seq<T>)
    requires GoodViews(views, intact) && |init| == intact.Volume() == |out|
  {
    forall p: Point :: intact.Has(p) ==>
      0 <= intact.Index(p) < |out| && out[intact.Index(p)] == Assembled(views, intact, init, p)
  }

  /** matrixAssemble: a fresh buffer, every view copied row by row. */
  method MatrixAssemble<T(0)>(views: seq<MatrixView<T>>, intact: BBX) returns (out: array<T>, ghost init: seq<T>)
    requires GoodViews(views, intact)
    ensures fresh(out) && out.Length == intact.Volume() == |init|
    ensures Holds(out[..], views, intact, init)
  {
    var n := GetElemNum(intact);
    CornersInRange(intact);
    out := new T[n];
    init := out[..];
    assert Holds(out[..], views[..0], intact, init) by {
      forall p: Point | intact.Has(p) ensures 0 <= intact.Index(p) < |out[..]| { IndexInRange(intact, p); }
    }
    for i := 0 to |views|
      invariant GoodViews(views[..i], intact)
      invariant Holds(out[..], views[..i], intact, init)
    {
      ghost var before := out[..];
      CopyView(views[i], intact, out);
      assert views[..i + 1][..i] == views[..i];
      HoldsNext(before, out[..], views[..i + 1], intact, init);
    }
    assert views[..|views|] == views;
  }

  /** Rows y, z of the view already copied. */
  predicate RowDone(p: Point, y: int, z: int) { p.z < z || (p.z == z && p.y < y) }

  ghost predicate Overlaid<T>(out: seq<T>, before: seq<T>, v: MatrixView<T>, intact: BBX, y: int, z: int)
    requires intact.Proper() && GoodView(v, intact) && |out| == |before| == intact.Volume()
  {
    forall p: Point :: intact.Has(p) ==>
      && 0 <= intact.Index(p) < |out|
      && out[intact.Index(p)] == if v.bbx.Has(p) && RowDone(p, y, z) then ValueIn(v, p) else before[intact.Index(p)]
  }

  lemma HoldsNext<T>(before: seq<T>, after: seq<T>, views: seq<MatrixView<T>>, intact: BBX, init: seq<T>)
    requires |views| > 0 && GoodViews(views, intact) && |init| == |before| == |after| == intact.Volume()
    requires GoodViews(views[..|views| - 1], intact) && Holds(before, views[..|views| - 1], intact, init)
    requires var v := views[|views| - 1]; GoodView(v, intact) && Overlaid(after, before, v, intact, 0, v.bbx.Hi(2) + 1)
    ensures Holds(after, views, intact, init)
  {
  }

  /** The two row loops of matrixAssemble for one view. */
  method CopyView<T>(v: MatrixView<T>, intact: BBX, out: array<T>)
    requires intact.Proper() && GoodView(v, intact) && out.Length == intact.Volume()
    modifies out
    ensures Overlaid(out[..], old(out[..]), v, intact, 0, v.bbx.Hi(2) + 1)
  {
    ghost var before := out[..];
    var dim := v.bbx.dims;
    var sublb, subub := v.bbx.Lower(), v.bbx.Upper();
    forall p: Point | intact.Has(p) ensures 0 <= intact.Index(p) < out.Length { IndexInRange(intact, p); }
    for z := sublb.z to subub.z + 1
      invariant Overlaid(out[..], before, v, intact, sublb.y, z)
    {
      for y := sublb.y to subub.y + 1
        invariant Overlaid(out[..], before, v, intact, y, z)
      {
        var first := Point(sublb.x, y, z);
        assert first == Clamp(dim, first) by { assert sublb.y <= y <= subub.y && sublb.z <= z <= subub.z; }
        InsideCell(v.bbx, intact, first);
        RowInRange(v.bbx, intact, y, z);
        var subIndex := GetPhysicalIndex(v.bbx, dim, first);
        var globalIndex := GetPhysicalIndex(intact, dim, first);
        ghost var mid := out[..];
        Memcpy(out, globalIndex.value, v.data, subIndex.value, subub.x - sublb.x + 1);
        RowOverlaid(out[..], mid, before, v, intact, y, z);
      }
      assert forall p: Point :: v.bbx.Has(p) ==> (RowDone(p, subub.y + 1, z) <==> RowDone(p, sublb.y, z + 1));
    }
    assert forall p: Point :: v.bbx.Has(p) ==> (RowDone(p, sublb.y, subub.z + 1) <==> RowDone(p, 0, subub.z + 1));
  }

  /** A whole row of the view fits both buffers. */
  lemma RowInRange(sub: BBX, intact: BBX, y: int, z: int)
    requires sub.Proper() && intact.Proper() && Inside(sub, intact)
    requires sub.Lo(1) <= y <= sub.Hi(1) && sub.Lo(2) <= z <= sub.Hi(2)
    ensures var n := sub.Hi(0) - sub.Lo(0) + 1;
      var first := Point(sub.Lo(0), y, z);
      && 0 <= sub.Index(first) && sub.Index(first) + n <= sub.Volume()
      && 0 <= intact.Index(first) && intact.Index(first) + n <= intact.Volume()
  {
    var first, last := Point(sub.Lo(0), y, z), Point(sub.Hi(0), y, z);
    InsideCell(sub, intact, first);
    InsideCell(sub, intact, last);
    IndexInRange(sub, first);
    IndexInRange(sub, last);
    IndexInRange(intact, first);
    IndexInRange(intact, last);
    assert sub.Index(last) == sub.Index(first) + (sub.Hi(0) - sub.Lo(0));
    assert intact.Index(last) == intact.Index(first) + (sub.Hi(0) - sub.Lo(0));
  }

  /** One memcpy writes exactly the cells of one row. */
  lemma RowOverlaid<T>(after: seq<T>, mid: seq<T>, before: seq<T>, v: MatrixView<T>, intact: BBX, y: int, z: int)
    requires intact.Proper() && GoodView(v, intact) && |after| == |mid| == |before| == intact.Volume()
    requires v.bbx.Lo(1) <= y <= v.bbx.Hi(1) && v.bbx.Lo(2) <= z <= v.bbx.Hi(2)
    requires Overlaid(mid, before, v, intact, y, z)
    requires var n := v.bbx.Hi(0) - v.bbx.Lo(0) + 1;
      var s, g := v.bbx.Index(Point(v.bbx.Lo(0), y, z)), intact.Index(Point(v.bbx.Lo(0), y, z));
      && 0 <= s && s + n <= |v.data| && 0 <= g && g + n <= |mid|
      && after == mid[..g] + v.data[s..s + n] + mid[g + n..]
    ensures Overlaid(after, before, v, intact, y + 1, z)
  {
    var n := v.bbx.Hi(0) - v.bbx.Lo(0) + 1;
    var first := Point(v.bbx.Lo(0), y, z);
    var s, g := v.bbx.Index(first), intact.Index(first);
    forall p: Point | intact.Has(p)
      ensures 0 <= intact.Index(p) < |after|
      ensures after[intact.Index(p)] ==
        if v.bbx.Has(p) && RowDone(p, y + 1, z) then ValueIn(v, p) else before[intact.Index(p)]
    {
      IndexInRange(intact, p);
      var k := intact.Index(p);
      if v.bbx.Has(p) && p.y == y && p.z == z {
        assert k == g + (p.x - first.x);
        assert v.bbx.Index(p) == s + (p.x - first.x);
      } else {
        if g <= k < g + n {
          var q := Point(first.x + (k - g), y, z);
          assert v.bbx.Has(q);
          InsideCell(v.bbx, intact, q);
          assert intact.Index(q) == k;
          IndexInjective(intact, p, q);
          assert false;
        }
        assert after[k] == mid[k];
      }
    }
  }

  // ------------------------------------------------------------------
  // What the assembled matrix means
  // ------------------------------------------------------------------

  ghost predicate InSomeView<T>(views: seq<MatrixView<T>>, p: Point)
    requires forall i {:trigger views[i]} :: 0 <= i < |views| ==> views[i].bbx.Valid()
  {
    exists i :: 0 <= i < |views| && views[i].bbx.Has(p)
  }

  /** Views that agree on the cells they share. */
  ghost predicate Agree<T>(views: seq<MatrixView<T>>, intact: BBX)
    requires GoodViews(views, intact)
  {
    forall i, j, p: Point :: 0 <= i < |views| && 0 <= j < |views| && views[i].bbx.Has(p) && views[j].bbx.Has(p) ==>
      ValueIn(views[i], p) == ValueIn(views[j], p)
  }

  /** A cell of some view gets a view's value; any other is untouched. */
  lemma {:induction false} AssembledValue<T>(views: seq<MatrixView<T>>, intact: BBX, init: seq<T>, p: Point)
    requires GoodViews(views, intact) && |init| == intact.Volume() && intact.Has(p)
    ensures InSomeView(views, p) ==>
      exists i :: 0 <= i < |views| && views[i].bbx.Has(p) && Assembled(views, intact, init, p) == ValueIn(views[i], p)
    ensures !InSomeView(views, p) ==>
      0 <= intact.Index(p) < |init| && Assembled(views, intact, init, p) == init[intact.Index(p)]
  {
    IndexInRange(intact, p);
    if views != [] {
      var n := |views| - 1;
      if views[n].bbx.Has(p) {
        assert Assembled(views, intact, init, p) == ValueIn(views[n], p);
      } else {
        var front := views[..n];
        AssembledValue(front, intact, init, p);
        if InSomeView(views, p) {
          var i :| 0 <= i < |views| && views[i].bbx.Has(p);
          assert front[i].bbx.Has(p);
          var k :| 0 <= k < |front| && front[k].bbx.Has(p) && Assembled(front, intact, init, p) == ValueIn(front[k], p);
          assert views[k].bbx.Has(p);
        } else {
          assert forall i :: 0 <= i < |front| ==> front[i] == views[i];
        }
      }
    }
  }

  /** When the views agree, any view that has the cell gives its value. */
  lemma AssembledAgrees<T>(views: seq<MatrixView<T>>, intact: BBX, init: seq<T>, i: nat, p: Point)
    requires GoodViews(views, intact) && |init| == intact.Volume() && intact.Has(p)
    requires Agree(views, intact) && i < |views| && views[i].bbx.Has(p)
    ensures Assembled(views, intact, init, p) == ValueIn(views[i], p)
  {
    AssembledValue(views, intact, init, p);
    assert InSomeView(views, p);
  }

  /** The order of agreeing views does not matter. */
  lemma AssembleOrderFree<T>(views: seq<MatrixView<T>>, other: seq<MatrixView<T>>, intact: BBX, init: seq<T>, p: Point)
    requires GoodViews(views, intact) && GoodViews(other, intact) && |init| == intact.Volume() && intact.Has(p)
    requires Agree(views, intact)
    requires forall v :: v in views <==> v in other
    ensures Assembled(views, intact, init, p) == Assembled(other, intact, init, p)
  {
    if i :| 0 <= i < |views| && views[i].bbx.Has(p) {
      assert views[i] in other;
      var j :| 0 <= j < |other| && other[j] == views[i];
      SameViewsAgree(views, other, intact);
      AssembledAgrees(views, intact, init, i, p);
      AssembledAgrees(other, intact, init, j, p);
    } else {
      assert !InSomeView(other, p) by {
        forall k | 0 <= k < |other| ensures !other[k].bbx.Has(p) { assert other[k] in views; }
      }
      AssembledValue(views, intact, init, p);
      AssembledValue(other, intact, init, p);
    }
  }

  lemma SameViewsAgree<T>(views: seq<MatrixView<T>>, other: seq<MatrixView<T>>, intact: BBX)
    requires GoodViews(views, intact) && GoodViews(other, intact) && Agree(views, intact)
    requires forall v :: v in views <==> v in other
    ensures Agree(other, intact)
  {
    forall i, j, p: Point | 0 <= i < |other| && 0 <= j < |other| && other[i].bbx.Has(p) && other[j].bbx.Has(p)
      ensures ValueIn(other[i], p) == ValueIn(other[j], p)
    {
      assert other[i] in views && other[j] in views;
      var k :| 0 <= k < |views| && views[k] == other[i];
      var l :| 0 <= l < |views| && views[l] == other[j];
    }
  }

  // ------------------------------------------------------------------
  // RawMemObj
  // ------------------------------------------------------------------

  /** The part of BlockSummary the subregion code reads. */
  datatype BlockSummary = BlockSummary(blockid: string, dims: nat, indexlb: Point, indexub: Point, elemNum: nat) {
    function Box(): BBX
      requires dims <= 3
    {
      MakeBBX(dims, indexlb, indexub)
    }

    /** As the writers fill it in: a proper box, unused index entries left at
        their default 0, one element per cell. */
    ghost predicate Good() {
      && 1 <= dims <= 3 && Box().Proper() && elemNum == Box().Volume()
      && Clamp(dims, indexlb) == indexlb && Clamp(dims, indexub) == indexub
    }
  }

  /** The cast of an int to size_t: a negative value wraps to the top. */
  function SizeT(v: int): int { if v < 0 then v + 0x1_0000_0000_0000_0000 else v }

  predicate Int32(v: int) { -0x8000_0000 <= v < 0x8000_0000 }
  predicate Int32Point(p: Point) { Int32(p.x) && Int32(p.y) && Int32(p.z) }

  /** The sub-box is the last corner cell of a block of several cells. */
  predicate LastCornerOnly(block: BBX, sub: BBX)
    requires block.Valid() && sub.Valid()
  {
    sub.Lower() == block.Upper() && block.Lower() != block.Upper()
  }

  class RawMemObj<T(0)> {
    var rawMem: array?<T>
    var summary: BlockSummary

    constructor (s: BlockSummary)
      ensures rawMem == null && summary == s
    {
      rawMem := null;
      summary := s;
    }

    ghost predicate Valid()
      reads this
    {
      summary.Good() && (rawMem != null ==> rawMem.Length == summary.elemNum)
      && Int32Point(summary.indexlb) && Int32Point(summary.indexub)
    }

    method PutData(source: seq<T>) returns (r: Result<()>)
      requires Valid() && |source| >= summary.elemNum
      modifies this`rawMem
      ensures Valid()
      ensures old(rawMem) != null ==> r == Err(DataExists) && rawMem == old(rawMem)
      ensures old(rawMem) == null ==>
        r == Ok(()) && rawMem != null && fresh(rawMem) && rawMem[..] == source[..summary.elemNum]
    {
      if rawMem != null { return Err(DataExists); }
      var mem := new T[summary.elemNum];
      Memcpy(mem, 0, source, 0, summary.elemNum);
      rawMem := mem;
      r := Ok(());
    }

    /** getDataSubregion: the whole block by reference when the boxes match,
        otherwise a fresh extract, or an exception. It succeeds exactly for a
        proper sub-box that is not just the last corner cell. */
    method GetDataSubregion(dims: nat, lb: Point, ub: Point) returns (r: Result<array<T>>)
      requires Valid() && rawMem != null
      requires Clamp(dims, lb) == lb && Clamp(dims, ub) == ub && Int32Point(lb) && Int32Point(ub)
      ensures dims != summary.dims ==> r == Err(DimMismatch)
      ensures dims == summary.dims ==>
        var sub := MakeBBX(dims, lb, ub);
        && (r.Ok? <==> sub.Proper() && Inside(sub, summary.Box()) && !LastCornerOnly(summary.Box(), sub))
        && (r.Ok? ==> r.value[..] == Extract(summary.Box(), rawMem[..], sub))
        && (r.Ok? && SameBox(sub, summary.Box()) ==> r.value == rawMem)
        && (r.Ok? && !SameBox(sub, summary.Box()) ==> fresh(r.value))
    {
      if dims != summary.dims { return Err(DimMismatch); }
      ghost var block, sub := summary.Box(), MakeBBX(dims, lb, ub);
      var ifAllMatch := SameCorners(dims, lb, ub, summary.indexlb, summary.indexub);
      if ifAllMatch {
        ExtractAll(block, rawMem[..], sub);
        assert forall k: nat :: k < 3 ==> sub.Lo(k) == block.Lo(k) && sub.Hi(k) == block.Hi(k);
        return Ok(rawMem);
      }
      var offset := summary.indexlb;
      var subLb := Point(SizeT(lb.x - offset.x), SizeT(lb.y - offset.y), SizeT(lb.z - offset.z));
      var subUb := Point(SizeT(ub.x - offset.x), SizeT(ub.y - offset.y), SizeT(ub.z - offset.z));
      var globalUb := Point(SizeT(summary.indexub.x - offset.x), SizeT(summary.indexub.y - offset.y),
                            SizeT(summary.indexub.z - offset.z));
      ShiftFacts(summary, lb, ub, subLb, subUb, globalUb);
      SubregionMeaning(block, rawMem[..], sub, subLb, subUb, globalUb);
      var currentElemNum := NonzeroProduct(globalUb);
      if summary.elemNum < currentElemNum { return Err(TooFewElements); }
      r := GetSubMatrix(subLb, subUb, globalUb, rawMem);
    }
  }

  /** The comparison loop of getDataSubregion over the used axes. */
  method SameCorners(dims: nat, lb: Point, ub: Point, lb2: Point, ub2: Point) returns (same: bool)
    requires dims <= 3
    ensures same <==> SameBox(MakeBBX(dims, lb, ub), MakeBBX(dims, lb2, ub2))
  {
    ghost var a, b := MakeBBX(dims, lb, ub), MakeBBX(dims, lb2, ub2);
    for i := 0 to dims
      invariant a.bounds[..i] == b.bounds[..i]
    {
      if lb.Axis(i) != lb2.Axis(i) || ub.Axis(i) != ub2.Axis(i) {
        assert a.bounds[i] != b.bounds[i];
        return false;
      }
    }
    same := true;
  }

  function NonzeroProduct(g: Point): int {
    (if g.x != 0 then g.x else 1) * (if g.y != 0 then g.y else 1) * (if g.z != 0 then g.z else 1)
  }

  lemma ShiftFacts(s: BlockSummary, lb: Point, ub: Point, subLb: Point, subUb: Point, globalUb: Point)
    requires s.Good() && Int32Point(s.indexlb) && Int32Point(s.indexub) && Int32Point(lb) && Int32Point(ub)
    requires Clamp(s.dims, lb) == lb && Clamp(s.dims, ub) == ub
    requires subLb == Point(SizeT(lb.x - s.indexlb.x), SizeT(lb.y - s.indexlb.y), SizeT(lb.z - s.indexlb.z))
    requires subUb == Point(SizeT(ub.x - s.indexlb.x), SizeT(ub.y - s.indexlb.y), SizeT(ub.z - s.indexlb.z))
    requires globalUb == Point(SizeT(s.indexub.x - s.indexlb.x), SizeT(s.indexub.y - s.indexlb.y),
                               SizeT(s.indexub.z - s.indexlb.z))
    ensures var b, sub := s.Box(), MakeBBX(s.dims, lb, ub);
      && b.Lower() == s.indexlb && b.Upper() == s.indexub && sub.Lower() == lb && sub.Upper() == ub
      && AxisLinked(sub.Lo(0), sub.Hi(0), b.Lo(0), b.Hi(0), subLb.x, subUb.x)
      && AxisLinked(sub.Lo(1), sub.Hi(1), b.Lo(1), b.Hi(1), subLb.y, subUb.y)
      && AxisLinked(sub.Lo(2), sub.Hi(2), b.Lo(2), b.Hi(2), subLb.z, subUb.z)
    ensures globalUb == Point(s.indexub.x - s.indexlb.x, s.indexub.y - s.indexlb.y, s.indexub.z - s.indexlb.z)
    ensures Box3(ORIGIN, globalUb).Volume() == s.Box().Volume() == s.elemNum
    ensures NonzeroProduct(globalUb) <= s.elemNum
    ensures subLb.x >= 0 && subLb.y >= 0 && subLb.z >= 0 && globalUb.x >= 0 && globalUb.y >= 0 && globalUb.z >= 0
  {
    var b := s.Box();
    assert b.Lower() == s.indexlb && b.Upper() == s.indexub;
    AxisCheck(lb.x, ub.x, s.indexlb.x, s.indexub.x);
    AxisCheck(lb.y, ub.y, s.indexlb.y, s.indexub.y);
    AxisCheck(lb.z, ub.z, s.indexlb.z, s.indexub.z);
    ShiftedVolume(b, globalUb);
    CheckPasses(globalUb);
  }

  lemma ShiftedVolume(b: BBX, globalUb: Point)
    requires b.Valid() && globalUb == Point(b.Hi(0) - b.Lo(0), b.Hi(1) - b.Lo(1), b.Hi(2) - b.Lo(2))
    ensures Box3(ORIGIN, globalUb).Volume() == b.Volume()
  {
    var g := Box3(ORIGIN, globalUb);
    assert g.Lo(0) == g.Lo(1) == g.Lo(2) == 0;
    assert g.Ext(0) == b.Ext(0) && g.Ext(1) == b.Ext(1) && g.Ext(2) == b.Ext(2);
  }

  lemma CheckPasses(g: Point)
    requires g.x >= 0 && g.y >= 0 && g.z >= 0
    ensures NonzeroProduct(g) <= Box3(ORIGIN, g).Volume()
  {
    var a, b, c := if g.x != 0 then g.x else 1, if g.y != 0 then g.y else 1, if g.z != 0 then g.z else 1;
    var box := Box3(ORIGIN, g);
    assert a <= box.Ext(0) && b <= box.Ext(1) && c <= box.Ext(2);
    MulMono(a, box.Ext(0), b);
    MulMono(b, box.Ext(1), box.Ext(0));
    assert a * b <= box.Ext(0) * box.Ext(1);
    MulMono(a * b, box.Ext(0) * box.Ext(1), c);
    MulNonNeg(box.Ext(0), box.Ext(1));
    MulMono(c, box.Ext(2), box.Ext(0) * box.Ext(1));
  }

  /** The checks of getSubMatrix on the shifted corners decide containment of
      the original boxes. */
  lemma SubMatrixMeaning(b: BBX, sub: BBX, subLb: Point, subUb: Point)
    requires b.Proper() && sub.Valid()
    requires AxisLinked(sub.Lo(0), sub.Hi(0), b.Lo(0), b.Hi(0), subLb.x, subUb.x)
    requires AxisLinked(sub.Lo(1), sub.Hi(1), b.Lo(1), b.Hi(1), subLb.y, subUb.y)
    requires AxisLinked(sub.Lo(2), sub.Hi(2), b.Lo(2), b.Hi(2), subLb.z, subUb.z)
    ensures var globalUb := Point(b.Hi(0) - b.Lo(0), b.Hi(1) - b.Lo(1), b.Hi(2) - b.Lo(2));
      && (SubMatrixError(subLb, subUb, globalUb).None? <==> sub.Proper() && Inside(sub, b) && !LastCornerOnly(b, sub))
      && (SubMatrixError(subLb, subUb, globalUb).None? ==>
           && subLb == Point(sub.Lo(0) - b.Lo(0), sub.Lo(1) - b.Lo(1), sub.Lo(2) - b.Lo(2))
           && subUb == Point(sub.Hi(0) - b.Lo(0), sub.Hi(1) - b.Lo(1), sub.Hi(2) - b.Lo(2)))
  {
    assert Inside(sub, b) <==> (b.Lo(0) <= sub.Lo(0) && sub.Hi(0) <= b.Hi(0) && b.Lo(1) <= sub.Lo(1)
                                && sub.Hi(1) <= b.Hi(1) && b.Lo(2) <= sub.Lo(2) && sub.Hi(2) <= b.Hi(2));
  }

  /** The extract taken in shifted coordinates is the one asked for. */
  lemma SubregionMeaning<T>(b: BBX, data: seq<T>, sub: BBX, subLb: Point, subUb: Point, globalUb: Point)
    requires b.Proper() && sub.Valid() && |data| == b.Volume()
    requires AxisLinked(sub.Lo(0), sub.Hi(0), b.Lo(0), b.Hi(0), subLb.x, subUb.x)
    requires AxisLinked(sub.Lo(1), sub.Hi(1), b.Lo(1), b.Hi(1), subLb.y, subUb.y)
    requires AxisLinked(sub.Lo(2), sub.Hi(2), b.Lo(2), b.Hi(2), subLb.z, subUb.z)
    requires globalUb == Point(b.Hi(0) - b.Lo(0), b.Hi(1) - b.Lo(1), b.Hi(2) - b.Lo(2))
    requires Box3(ORIGIN, globalUb).Volume() == b.Volume()
    ensures SubMatrixError(subLb, subUb, globalUb).None? <==> sub.Proper() && Inside(sub, b) && !LastCornerOnly(b, sub)
    ensures SubMatrixError(subLb, subUb, globalUb).None? ==>
      var global, part := Box3(ORIGIN, globalUb), Box3(subLb, subUb);
      && global.Proper() && part.Proper() && Inside(part, global)
      && Extract(global, data, part) == Extract(b, data, sub)
  {
    SubMatrixMeaning(b, sub, subLb, subUb);
    if SubMatrixError(subLb, subUb, globalUb).None? {
      var global, part := Box3(ORIGIN, globalUb), Box3(subLb, subUb);
      assert global.Lower() == ORIGIN && global.Upper() == globalUb && part.Lower() == subLb && part.Upper() == subUb;
      InsideShift(b, global, sub, part, b.Lower());
      ExtractShift(b, global, data, sub, part, b.Lower());
    }
  }

  lemma InsideShift(b: BBX, b0: BBX, sub: BBX, sub0: BBX, offset: Point)
    requires b.Proper() && sub.Proper() && b0.Valid() && sub0.Valid() && Inside(sub, b)
    requires forall i: nat :: i < 3 ==> b0.Lo(i) == b.Lo(i) - offset.Axis(i) && b0.Hi(i) == b.Hi(i) - offset.Axis(i)
    requires forall i: nat :: i < 3 ==>
      sub0.Lo(i) == sub.Lo(i) - offset.Axis(i) && sub0.Hi(i) == sub.Hi(i) - offset.Axis(i)
    ensures b0.Proper() && sub0.Proper() && Inside(sub0, b0)
  {
    forall i: nat | i < 3 ensures b0.Lo(i) <= sub0.Lo(i) && sub0.Hi(i) <= b0.Hi(i) {
      assert b.Lo(i) <= sub.Lo(i) && sub.Hi(i) <= b.Hi(i);
    }
  }

  /** On one axis, the unsigned checks on the shifted ends accept exactly the
      ranges inside the block, and then the shift did not wrap. */
  predicate AxisLinked(lb: int, ub: int, low: int, high: int, shiftedLb: int, shiftedUb: int) {
    && ((shiftedLb <= shiftedUb <= high - low) <==> low <= lb <= ub <= high)
    && (low <= lb <= ub <= high ==> shiftedLb == lb - low && shiftedUb == ub - low)
  }

  lemma AxisCheck(lb: int, ub: int, low: int, high: int)
    requires Int32(lb) && Int32(ub) && Int32(low) && Int32(high) && low <= high
    ensures AxisLinked(lb, ub, low, high, SizeT(lb - low), SizeT(ub - low))
    ensures SizeT(high - low) == high - low
  {
  }

  /** Extraction does not depend on where the origin is. */
  lemma ExtractShift<T>(b: BBX, b0: BBX, data: seq<T>, sub: BBX, sub0: BBX, offset: Point)
    requires b.Proper() && sub.Proper() && b0.Proper() && sub0.Proper()
    requires Inside(sub, b) && Inside(sub0, b0) && |data| == b.Volume() == b0.Volume()
    requires forall i: nat :: i < 3 ==> b0.Lo(i) == b.Lo(i) - offset.Axis(i) && b0.Hi(i) == b.Hi(i) - offset.Axis(i)
    requires forall i: nat :: i < 3 ==>
      sub0.Lo(i) == sub.Lo(i) - offset.Axis(i) && sub0.Hi(i) == sub.Hi(i) - offset.Axis(i)
    ensures Extract(b, data, sub) == Extract(b0, data, sub0)
  {
    assert forall i: nat :: i < 3 ==> b0.Ext(i) == b.Ext(i) && sub0.Ext(i) == sub.Ext(i);
    var l, r := Extract(b, data, sub), Extract(b0, data, sub0);
    assert sub.Volume() == sub0.Volume();
    forall i | 0 <= i < sub.Volume() ensures l[i] == r[i] {
      IndexSurjective(sub, i);
      IndexSurjective(sub0, i);
      var p, p0 := Cell(sub, i), Cell(sub0, i);
      assert p0 == Point(p.x - offset.x, p.y - offset.y, p.z - offset.z);
      assert b.Index(p) == b0.Index(p0);
    }
  }
}
