/** Box algebra of utils/bbxtool.h: bounds, boxes, overlap, split, and the
    row-major index of a cell in a box. */

module Outcomes {
  /** The runtime_error texts of the source, one constructor each. */
  datatype Error =
    | DimMismatch        // two boxes (or a box and a coordinate) of different m_dims
    | DimUnsupported     // m_dims is 0 or more than 3
    | NoOverlap          // splitReduceBBX called on disjoint boxes
    | OutsideBox         // coordinate beyond the boundary of the box
    | InvalidSubdomain   // getSubMatrix: inverted sub-box
    | OutsideGlobal      // getSubMatrix: sub-box beyond the global box
    | TooFewElements     // getDataSubregion: element count check
    | CopyOverrun        // a memcpy larger than its destination
    | DataExists         // putData on an object that already holds data
    | NoSuchType         // metadata: data type does not exist
    | NoMetaServer       // a put that was told of no metadata server
    | AddressTooLong     // gatherIP: endpoint longer than the message

  datatype Option<+T> = None | Some(value: T)

  datatype Result<+T> = Ok(value: T) | Err(error: Error) {
    predicate IsFailure() { Err? }
    function PropagateFailure<U>(): Result<U>
      requires Err?
    {
      Err(error)
    }
    function Extract(): T
      requires Ok?
    {
      value
    }
  }
}

module Boxes {
  import opened Arith
  import opened Outcomes

  /** An inclusive range of one axis. */
  datatype Bound = Bound(lb: int, ub: int)

  /** A three-entry index array of the source; unused axes hold 0. */
  datatype Point = Point(x: int, y: int, z: int) {
    function Axis(i: nat): int
      requires i < 3
    {
      if i == 0 then x else if i == 1 then y else z
    }
  }

  datatype BBX = BBX(dims: nat, status: nat, bounds: seq<Bound>) {
    /** What every constructor of the source establishes. */
    predicate Valid() { 1 <= dims <= 3 && |bounds| == dims }

    /** Padded lower and upper index, as getIndexlb and getIndexub return them. */
    function Lo(i: nat): int
      requires Valid()
    {
      if i < dims then bounds[i].lb else 0
    }
    function Hi(i: nat): int
      requires Valid()
    {
      if i < dims then bounds[i].ub else 0
    }
    function Lower(): Point
      requires Valid()
    {
      Point(Lo(0), Lo(1), Lo(2))
    }
    function Upper(): Point
      requires Valid()
    {
      Point(Hi(0), Hi(1), Hi(2))
    }
    function Ext(i: nat): int
      requires Valid()
    {
      Hi(i) - Lo(i) + 1
    }

    /** The set of cells the box stands for. */
    predicate Has(p: Point)
      requires Valid()
    {
      Lo(0) <= p.x <= Hi(0) && Lo(1) <= p.y <= Hi(1) && Lo(2) <= p.z <= Hi(2)
    }

    /** lb <= ub on every axis: the box has at least one cell. */
    predicate Proper() {
      Valid() && Lo(0) <= Hi(0) && Lo(1) <= Hi(1) && Lo(2) <= Hi(2)
    }

    function Volume(): int
      requires Valid()
    {
      Ext(0) * Ext(1) * Ext(2)
    }

    /** Position of a cell in the x-fastest layout. */
    function Index(p: Point): int
      requires Valid()
    {
      (p.z - Lo(2)) * (Ext(1) * Ext(0)) + (p.y - Lo(1)) * Ext(0) + (p.x - Lo(0))
    }
  }

  predicate InBound(v: int, b: Bound) { b.lb <= v <= b.ub }

  /** The BBX constructor from two index arrays. */
  function MakeBBX(dims: nat, lb: Point, ub: Point): (b: BBX)
    requires dims <= 3
    ensures b.dims == dims == |b.bounds| && b.status == 0
    ensures forall i :: 0 <= i < dims ==> b.bounds[i] == Bound(lb.Axis(i), ub.Axis(i))
  {
    BBX(dims, 0, seq(dims, i requires 0 <= i < dims => Bound(lb.Axis(i), ub.Axis(i))))
  }

  /** BBX::equal: same dims and same bounds, whatever the status. */
  predicate SameBox(a: BBX, b: BBX) { a.dims == b.dims && a.bounds == b.bounds }

  // ------------------------------------------------------------------
  // Volume and physical index
  // ------------------------------------------------------------------

  method GetElemNum(b: BBX) returns (elemNum: int)
    requires b.Valid()
    ensures elemNum == b.Volume()
  {
    elemNum := 1;
    for i := 0 to b.dims
      invariant elemNum == (if i > 0 then b.Ext(0) else 1) * (if i > 1 then b.Ext(1) else 1)
                           * (if i > 2 then b.Ext(2) else 1)
    {
      elemNum := elemNum * (b.bounds[i].ub - b.bounds[i].lb + 1);
    }
  }

  /** The point with the coordinates of the unused axes dropped. */
  function Clamp(dims: nat, p: Point): Point {
    Point(p.x, if dims > 1 then p.y else 0, if dims > 2 then p.z else 0)
  }

  method GetPhysicalIndex(b: BBX, coordim: nat, p: Point) returns (r: Result<int>)
    requires b.Valid()
    ensures coordim != b.dims ==> r == Err(DimMismatch)
    ensures coordim == b.dims && !b.Has(Clamp(b.dims, p)) ==> r == Err(OutsideBox)
    ensures coordim == b.dims && b.Has(Clamp(b.dims, p)) ==> r == Ok(b.Index(Clamp(b.dims, p)))
  {
    if coordim != b.dims { return Err(DimMismatch); }
    var off := [0, 0, 0];
    var shape := [0, 0, 0];
    for i := 0 to b.dims
      invariant |off| == |shape| == 3
      invariant forall k :: 0 <= k < i ==> b.Lo(k) <= p.Axis(k) <= b.Hi(k)
      invariant forall k :: 0 <= k < 3 ==> off[k] == if k < i then p.Axis(k) - b.Lo(k) else 0
      invariant forall k :: 0 <= k < 3 ==> shape[k] == if k < i then b.Ext(k) else 0
    {
      if p.Axis(i) > b.bounds[i].ub || p.Axis(i) < b.bounds[i].lb {
        return Err(OutsideBox);
      }
      off := off[i := p.Axis(i) - b.bounds[i].lb];
      shape := shape[i := b.bounds[i].ub - b.bounds[i].lb + 1];
    }
    assert b.Lo(0) <= p.Axis(0) <= b.Hi(0);
    r := Ok(off[2] * (shape[1] * shape[0]) + off[1] * shape[0] + off[0]);
  }

  lemma IndexNested(b: BBX, p: Point)
    requires b.Valid()
    ensures b.Index(p) == ((p.z - b.Lo(2)) * b.Ext(1) + (p.y - b.Lo(1))) * b.Ext(0) + (p.x - b.Lo(0))
  {
    var z, y, e1, e0 := p.z - b.Lo(2), p.y - b.Lo(1), b.Ext(1), b.Ext(0);
    assert z * (e1 * e0) == (z * e1) * e0;
    assert (z * e1) * e0 + y * e0 == (z * e1 + y) * e0;
  }

  lemma VolumeNested(b: BBX)
    requires b.Valid()
    ensures b.Volume() == (b.Ext(2) * b.Ext(1)) * b.Ext(0)
  {
  }

  /** getPhysicalIndex stays inside the allocation of getElemNum cells. */
  lemma IndexInRange(b: BBX, p: Point)
    requires b.Valid() && b.Has(p)
    ensures 0 <= b.Index(p) < b.Volume()
  {
    IndexNested(b, p);
    VolumeNested(b);
    var z, y, x := p.z - b.Lo(2), p.y - b.Lo(1), p.x - b.Lo(0);
    MulBound(z, y, b.Ext(2), b.Ext(1));
    MulBound(z * b.Ext(1) + y, x, b.Ext(2) * b.Ext(1), b.Ext(0));
  }

  /** No two cells of a box share a position. */
  lemma IndexInjective(b: BBX, p: Point, q: Point)
    requires b.Valid() && b.Has(p) && b.Has(q) && b.Index(p) == b.Index(q)
    ensures p == q
  {
    IndexNested(b, p);
    IndexNested(b, q);
    DivUnique((p.z - b.Lo(2)) * b.Ext(1) + (p.y - b.Lo(1)), p.x - b.Lo(0),
              (q.z - b.Lo(2)) * b.Ext(1) + (q.y - b.Lo(1)), q.x - b.Lo(0), b.Ext(0));
    DivUnique(p.z - b.Lo(2), p.y - b.Lo(1), q.z - b.Lo(2), q.y - b.Lo(1), b.Ext(1));
  }

  /** The cell stored at a position. */
  function Cell(b: BBX, i: int): (p: Point)
    requires b.Proper() && 0 <= i < b.Volume()
  {
    var row := i / b.Ext(0);
    Point(b.Lo(0) + i % b.Ext(0), b.Lo(1) + row % b.Ext(1), b.Lo(2) + row / b.Ext(1))
  }

  /** Every position of the allocation is the position of exactly one cell. */
  lemma IndexSurjective(b: BBX, i: int)
    requires b.Proper() && 0 <= i < b.Volume()
    ensures b.Has(Cell(b, i)) && b.Index(Cell(b, i)) == i
  {
    VolumeNested(b);
    DivBelow(i, b.Ext(2) * b.Ext(1), b.Ext(0));
    DivBelow(i / b.Ext(0), b.Ext(2), b.Ext(1));
    IndexNested(b, Cell(b, i));
  }

  // ------------------------------------------------------------------
  // Overlap
  // ------------------------------------------------------------------

  function Max(a: int, b: int): int { if a < b then b else a }
  function Min(a: int, b: int): int { if b < a then b else a }

  function OverlapBound(a: Bound, b: Bound): Option<Bound> {
    if a.ub < b.lb || a.lb > b.ub then None
    else Some(Bound(Max(a.lb, b.lb), Min(a.ub, b.ub)))
  }

  predicate Meets(a: BBX, b: BBX)
    requires a.Valid() && b.Valid() && a.dims == b.dims
  {
    forall i :: 0 <= i < a.dims ==> OverlapBound(a.bounds[i], b.bounds[i]).Some?
  }

  function Clip(a: BBX, b: BBX): (c: BBX)
    requires a.Valid() && b.Valid() && a.dims == b.dims && Meets(a, b)
    ensures c.Valid() && c.dims == a.dims && c.status == 0
  {
    BBX(a.dims, 0, seq(a.dims, i requires 0 <= i < a.dims => OverlapBound(a.bounds[i], b.bounds[i]).value))
  }

  /** getOverlapBBX: exception, NULL, or the overlap box. */
  method GetOverlapBBX(a: BBX, b: BBX) returns (r: Result<Option<BBX>>)
    requires |a.bounds| == a.dims && |b.bounds| == b.dims
    ensures r == OverlapBBX(a, b)
  {
    if a.dims != b.dims { return Err(DimMismatch); }
    if a.dims == 0 || b.dims > 3 { return Err(DimUnsupported); }
    var bounds: seq<Bound> := [];
    for i := 0 to a.dims
      invariant |bounds| == i
      invariant forall k :: 0 <= k < i ==> OverlapBound(a.bounds[k], b.bounds[k]) == Some(bounds[k])
    {
      var o := OverlapBound(a.bounds[i], b.bounds[i]);
      if o.None? { return Ok(None); }
      bounds := bounds + [o.value];
    }
    assert bounds == Clip(a, b).bounds;
    r := Ok(Some(BBX(a.dims, 0, bounds)));
  }

  function OverlapBBX(a: BBX, b: BBX): Result<Option<BBX>>
    requires |a.bounds| == a.dims && |b.bounds| == b.dims
  {
    if a.dims != b.dims then Err(DimMismatch)
    else if a.dims == 0 || b.dims > 3 then Err(DimUnsupported)
    else if Meets(a, b) then Ok(Some(Clip(a, b)))
    else Ok(None)
  }

  /** The overlap is the intersection of the two cell sets, and it is
      reported exactly when that intersection has a cell. */
  lemma OverlapIsIntersection(a: BBX, b: BBX)
    requires a.Proper() && b.Proper() && a.dims == b.dims
    ensures Meets(a, b) ==> Clip(a, b).Proper()
    ensures Meets(a, b) ==> forall p: Point :: Clip(a, b).Has(p) <==> a.Has(p) && b.Has(p)
    ensures Meets(a, b) <==> exists p: Point :: a.Has(p) && b.Has(p)
  {
    if Meets(a, b) {
      var c := Clip(a, b);
      assert forall i :: 0 <= i < a.dims ==> OverlapBound(a.bounds[i], b.bounds[i]).Some?;
      assert OverlapBound(a.bounds[0], b.bounds[0]).Some?;
      assert a.dims > 1 ==> OverlapBound(a.bounds[1], b.bounds[1]).Some?;
      assert a.dims > 2 ==> OverlapBound(a.bounds[2], b.bounds[2]).Some?;
      assert c.Has(c.Lower());
      assert a.Has(c.Lower()) && b.Has(c.Lower());
    }
    if p: Point :| a.Has(p) && b.Has(p) {
      forall i | 0 <= i < a.dims ensures OverlapBound(a.bounds[i], b.bounds[i]).Some? {
        assert a.Lo(i) <= p.Axis(i) <= a.Hi(i);
      }
    }
  }

  /** Every padded corner of `a` lies in `b`. */
  predicate Inside(a: BBX, b: BBX)
    requires a.Valid() && b.Valid()
  {
    forall i :: 0 <= i < 3 ==> b.Lo(i) <= a.Lo(i) && a.Hi(i) <= b.Hi(i)
  }

  lemma InsideCell(sub: BBX, b: BBX, p: Point)
    requires b.Valid() && sub.Valid() && Inside(sub, b) && sub.Has(p)
    ensures b.Has(p)
  {
    assert b.Lo(0) <= sub.Lo(0) && b.Lo(1) <= sub.Lo(1) && b.Lo(2) <= sub.Lo(2);
  }
}
