/** Any number of iterations, over any interleaving of the ranks, against the
    same number of steps of the stencil on the global torus. */
module HaloRuns {
  import opened Boxes
  import opened Decomposition
  import opened Lockstep
  import opened Halo

  /** The arrays of a rank after each of its steps. */
  type History<!T> = (nat, Point) -> Fields<T>

  function UWorld<T>(h: History<T>, k: nat): Point -> seq<T> { (q: Point) => h(k, q).u }
  function VWorld<T>(h: History<T>, k: nat): Point -> seq<T> { (q: Point) => h(k, q).v }

  /** All four local arrays of every rank have the local size. */
  ghost predicate AllSized<T>(g: ProcGrid, h: History<T>, k: nat)
    requires g.Good()
  {
    forall q: Point {:trigger h(k, q)} :: g.IsRank(q) ==> RankReady(g, q, h(k, q))
  }

  /** Step k of rank q: receive what the source sent at the same step. */
  ghost predicate Stepped<T>(g: ProcGrid, kernel: Kernel<T>, noise: Noise<T>, h: History<T>, k: nat, q: Point) {
    var src := SourceRank(g, k % 6, q);
    h(k + 1, q) == RecvOf(g, kernel, noise, k, q, h(k, q), SendOf(g, k, src, h(k, src)))
  }

  ghost predicate Follows<T>(g: ProcGrid, kernel: Kernel<T>, noise: Noise<T>, h: History<T>) {
    forall k: nat, q: Point :: g.IsRank(q) ==> Stepped(g, kernel, noise, h, k, q)
  }

  // ------------------------------------------------------------------
  // One iteration, rank by rank
  // ------------------------------------------------------------------

  lemma StepNumbers(b: nat, j: nat)
    requires b % 12 == 0 && j < 12
    ensures (b + j) % 12 == j && (b + j) / 12 == b / 12 && (b + j) % 6 == (if j < 6 then j else j - 6)
  {
    var t := b / 12;
    assert b == 12 * t;
    assert b + j == 6 * (2 * t + if j < 6 then 0 else 1) + (if j < 6 then j else j - 6);
  }

  /** A rank's arrays after step j of the exchange of u, from the source's. */
  function AfterU<T>(g: ProcGrid, j: nat, q: Point, f: Fields<T>, from: Fields<T>): (r: Fields<T>)
    requires j < 6 && RankReady(g, q, f) && RankReady(g, SourceRank(g, j, q), from)
    ensures RankReady(g, q, r)
  {
    f.(u := Incoming(f.u, g.Size(q), j, Outgoing(from.u, g.Size(SourceRank(g, j, q)), j)))
  }

  function AfterV<T>(g: ProcGrid, j: nat, q: Point, f: Fields<T>, from: Fields<T>): (r: Fields<T>)
    requires j < 6 && RankReady(g, q, f) && RankReady(g, SourceRank(g, j, q), from)
    ensures RankReady(g, q, r)
  {
    f.(v := Incoming(f.v, g.Size(q), j, Outgoing(from.v, g.Size(SourceRank(g, j, q)), j)))
  }

  function Computed<T>(g: ProcGrid, kernel: Kernel<T>, noise: Noise<T>, t: nat, q: Point, f: Fields<T>): Fields<T>
    requires RankReady(g, q, f)
  {
    CalcSwap(f, g.Size(q), kernel, SampleOf(g, noise, t, q))
  }

  lemma UStep<T>(g: ProcGrid, kernel: Kernel<T>, noise: Noise<T>, h: History<T>, j: nat, k: nat, q: Point)
    requires g.Good() && Stepped(g, kernel, noise, h, k, q) && g.IsRank(q) && j < 6 && k % 12 == j && k % 6 == j
    requires RankReady(g, q, h(k, q)) && RankReady(g, SourceRank(g, j, q), h(k, SourceRank(g, j, q)))
    ensures h(k + 1, q) == AfterU(g, j, q, h(k, q), h(k, SourceRank(g, j, q)))
  {
  }

  lemma ReceiveV<T>(g: ProcGrid, kernel: Kernel<T>, noise: Noise<T>, t: nat, j: nat, k: nat, q: Point, f: Fields<T>,
                    from: Fields<T>)
    requires j < 6 && k % 12 == 6 + j && k % 6 == j && k / 12 == t && RankReady(g, q, f)
    requires RankReady(g, SourceRank(g, j, q), from)
    ensures var r := AfterV(g, j, q, f, from);
      RecvOf(g, kernel, noise, k, q, f, SendOf(g, k, SourceRank(g, j, q), from))
        == (if j < 5 then r else Computed(g, kernel, noise, t, q, r))
  {
    if j == 5 {
      SameCalc(AfterV(g, j, q, f, from), g.Size(q), kernel, p => noise(k / 12, GlobalOf(g, q, p)),
               SampleOf(g, noise, t, q));
    }
  }

  lemma VStep<T>(g: ProcGrid, kernel: Kernel<T>, noise: Noise<T>, h: History<T>, t: nat, j: nat, k: nat, q: Point)
    requires g.Good() && Stepped(g, kernel, noise, h, k, q) && g.IsRank(q) && j < 6 && k % 12 == 6 + j && k % 6 == j
    requires k / 12 == t
    requires RankReady(g, q, h(k, q)) && RankReady(g, SourceRank(g, j, q), h(k, SourceRank(g, j, q)))
    ensures var r := AfterV(g, j, q, h(k, q), h(k, SourceRank(g, j, q)));
      h(k + 1, q) == (if j < 5 then r else Computed(g, kernel, noise, t, q, r))
  {
    ReceiveV(g, kernel, noise, t, j, k, q, h(k, q), h(k, SourceRank(g, j, q)));
  }

  /** Only the sample's values matter. */
  lemma SameCalc<T>(f: Fields<T>, s: Point, kernel: Kernel<T>, a: Point -> T, b: Point -> T)
    requires Positive3(s) && Sized(f, s) && forall p: Point :: a(p) == b(p)
    ensures CalcSwap(f, s, kernel, a) == CalcSwap(f, s, kernel, b)
  {
    var x, y := CalcSwap(f, s, kernel, a), CalcSwap(f, s, kernel, b);
    assert forall i :: 0 <= i < |x.u| ==> x.u[i] == y.u[i];
    assert forall i :: 0 <= i < |x.v| ==> x.v[i] == y.v[i];
  }

  /** A rank's arrays j steps into the exchange of u that starts at step b. */
  function UDone<T>(g: ProcGrid, h: History<T>, b: nat, j: nat, q: Point): Fields<T>
    requires j <= 6
  {
    h(b, q).(u := Exchanged(g, UWorld(h, b), j, q))
  }

  /** ... and after j steps of the v exchange that follows. */
  function VDone<T>(g: ProcGrid, h: History<T>, b: nat, j: nat, q: Point): Fields<T>
    requires j <= 6
  {
    UDone(g, h, b, 6, q).(v := Exchanged(g, VWorld(h, b), j, q))
  }

  /** One step of the exchange, between two ranks that are in step. */
  lemma UNext<T>(g: ProcGrid, h: History<T>, b: nat, j: nat, q: Point)
    requires g.Good() && g.IsRank(q) && j < 6 && g.IsRank(SourceRank(g, j, q))
    requires RankReady(g, q, UDone(g, h, b, j, q))
    requires RankReady(g, SourceRank(g, j, q), UDone(g, h, b, j, SourceRank(g, j, q)))
    ensures UDone(g, h, b, j + 1, q) == AfterU(g, j, q, UDone(g, h, b, j, q), UDone(g, h, b, j, SourceRank(g, j, q)))
  {
  }

  lemma VNext<T>(g: ProcGrid, h: History<T>, b: nat, j: nat, q: Point)
    requires g.Good() && g.IsRank(q) && j < 6 && g.IsRank(SourceRank(g, j, q))
    requires RankReady(g, q, VDone(g, h, b, j, q))
    requires RankReady(g, SourceRank(g, j, q), VDone(g, h, b, j, SourceRank(g, j, q)))
    ensures VDone(g, h, b, j + 1, q) == AfterV(g, j, q, VDone(g, h, b, j, q), VDone(g, h, b, j, SourceRank(g, j, q)))
  {
  }

  /** At step k rank q is j steps into the exchange of u. */
  ghost predicate UAt<T>(g: ProcGrid, h: History<T>, b: nat, j: nat, k: nat, q: Point)
    requires j <= 6
  {
    h(k, q) == UDone(g, h, b, j, q) && RankReady(g, q, h(k, q))
  }

  ghost predicate VAt<T>(g: ProcGrid, h: History<T>, b: nat, j: nat, k: nat, q: Point)
    requires j <= 6
  {
    h(k, q) == VDone(g, h, b, j, q) && RankReady(g, q, h(k, q))
  }

  lemma UAdvance<T>(g: ProcGrid, kernel: Kernel<T>, noise: Noise<T>, h: History<T>, b: nat, j: nat, k: nat, q: Point)
    requires g.Good() && g.IsRank(q) && j < 6 && k % 12 == j && k % 6 == j && Stepped(g, kernel, noise, h, k, q)
    requires UAt(g, h, b, j, k, q) && UAt(g, h, b, j, k, SourceRank(g, j, q))
    ensures UAt(g, h, b, j + 1, k + 1, q)
  {
    UStep(g, kernel, noise, h, j, k, q);
    UNext(g, h, b, j, q);
  }

  lemma VAdvance<T>(g: ProcGrid, kernel: Kernel<T>, noise: Noise<T>, h: History<T>, b: nat, t: nat, j: nat, k: nat,
                    q: Point)
    requires g.Good() && g.IsRank(q) && j < 6 && k % 12 == 6 + j && k % 6 == j && k / 12 == t
    requires Stepped(g, kernel, noise, h, k, q)
    requires VAt(g, h, b, j, k, q) && VAt(g, h, b, j, k, SourceRank(g, j, q))
    ensures j < 5 ==> VAt(g, h, b, j + 1, k + 1, q)
    ensures RankReady(g, q, VDone(g, h, b, j + 1, q))
    ensures j == 5 ==> h(k + 1, q) == Computed(g, kernel, noise, t, q, VDone(g, h, b, 6, q))
  {
    VStep(g, kernel, noise, h, t, j, k, q);
    VNext(g, h, b, j, q);
  }

  ghost predicate AllU<T>(g: ProcGrid, h: History<T>, b: nat, j: nat, k: nat)
    requires j <= 6
  {
    forall q: Point {:trigger UAt(g, h, b, j, k, q)} :: g.IsRank(q) ==> UAt(g, h, b, j, k, q)
  }

  ghost predicate AllV<T>(g: ProcGrid, h: History<T>, b: nat, j: nat, k: nat)
    requires j <= 6
  {
    forall q: Point {:trigger VAt(g, h, b, j, k, q)} :: g.IsRank(q) ==> VAt(g, h, b, j, k, q)
  }

  lemma AllUAdvance<T>(g: ProcGrid, kernel: Kernel<T>, noise: Noise<T>, h: History<T>, b: nat, j: nat, k: nat)
    requires g.Good() && Follows(g, kernel, noise, h) && j < 6 && k % 12 == j && k % 6 == j && AllU(g, h, b, j, k)
    ensures AllU(g, h, b, j + 1, k + 1)
  {
    forall q: Point | g.IsRank(q) ensures UAt(g, h, b, j + 1, k + 1, q) {
      ShiftFacts(g, j, q);
      assert UAt(g, h, b, j, k, q) && UAt(g, h, b, j, k, SourceRank(g, j, q)) && Stepped(g, kernel, noise, h, k, q);
      UAdvance(g, kernel, noise, h, b, j, k, q);
    }
  }

  lemma AllVAdvance<T>(g: ProcGrid, kernel: Kernel<T>, noise: Noise<T>, h: History<T>, b: nat, j: nat, k: nat)
    requires g.Good() && Follows(g, kernel, noise, h) && j < 5 && k % 12 == 6 + j && k % 6 == j && AllV(g, h, b, j, k)
    ensures AllV(g, h, b, j + 1, k + 1)
  {
    forall q: Point | g.IsRank(q) ensures VAt(g, h, b, j + 1, k + 1, q) {
      ShiftFacts(g, j, q);
      assert VAt(g, h, b, j, k, q) && VAt(g, h, b, j, k, SourceRank(g, j, q)) && Stepped(g, kernel, noise, h, k, q);
      VAdvance(g, kernel, noise, h, b, k / 12, j, k, q);
    }
  }

  /** During steps 0 to 5 only u changes. */
  lemma UPhase<T>(g: ProcGrid, kernel: Kernel<T>, noise: Noise<T>, h: History<T>, b: nat)
    requires g.Good() && Follows(g, kernel, noise, h) && AllU(g, h, b, 0, b) && b % 12 == 0
    ensures AllU(g, h, b, 6, b + 6)
  {
    StepNumbers(b, 0);
    AllUAdvance(g, kernel, noise, h, b, 0, b);
    StepNumbers(b, 1);
    AllUAdvance(g, kernel, noise, h, b, 1, b + 1);
    StepNumbers(b, 2);
    AllUAdvance(g, kernel, noise, h, b, 2, b + 2);
    StepNumbers(b, 3);
    AllUAdvance(g, kernel, noise, h, b, 3, b + 3);
    StepNumbers(b, 4);
    AllUAdvance(g, kernel, noise, h, b, 4, b + 4);
    StepNumbers(b, 5);
    AllUAdvance(g, kernel, noise, h, b, 5, b + 5);
  }

  /** Before the exchange nothing has changed. */
  lemma PhaseStart<T>(g: ProcGrid, h: History<T>, b: nat)
    requires g.Good() && AllSized(g, h, b)
    ensures AllU(g, h, b, 0, b)
  {
    forall q: Point | g.IsRank(q) ensures UAt(g, h, b, 0, b, q) {
      assert RankReady(g, q, h(b, q));
    }
  }

  /** Where the exchange of u ends the exchange of v begins. */
  lemma Between<T>(g: ProcGrid, h: History<T>, b: nat, k: nat)
    requires AllU(g, h, b, 6, k)
    ensures AllV(g, h, b, 0, k)
  {
    forall q: Point | g.IsRank(q) ensures VAt(g, h, b, 0, k, q) {
      assert UAt(g, h, b, 6, k, q);
    }
  }

  /** During steps 6 to 10 only v changes. */
  lemma VPhase<T>(g: ProcGrid, kernel: Kernel<T>, noise: Noise<T>, h: History<T>, b: nat)
    requires g.Good() && Follows(g, kernel, noise, h) && AllV(g, h, b, 0, b + 6) && b % 12 == 0
    ensures AllV(g, h, b, 5, b + 11)
  {
    StepNumbers(b, 6);
    AllVAdvance(g, kernel, noise, h, b, 0, b + 6);
    StepNumbers(b, 7);
    AllVAdvance(g, kernel, noise, h, b, 1, b + 7);
    StepNumbers(b, 8);
    AllVAdvance(g, kernel, noise, h, b, 2, b + 8);
    StepNumbers(b, 9);
    AllVAdvance(g, kernel, noise, h, b, 3, b + 9);
    StepNumbers(b, 10);
    AllVAdvance(g, kernel, noise, h, b, 4, b + 10);
  }

  function SampleOf<T>(g: ProcGrid, noise: Noise<T>, t: nat, q: Point): Point -> T
    requires g.Good()
  {
    p => noise(t, GlobalOf(g, q, p))
  }

  /** iterate: both exchanges, then calc and the swaps. */
  lemma Iterate<T>(g: ProcGrid, kernel: Kernel<T>, noise: Noise<T>, h: History<T>, b: nat, q: Point)
    requires g.Good() && Follows(g, kernel, noise, h) && AllSized(g, h, b) && b % 12 == 0 && g.IsRank(q)
    ensures Positive3(g.Size(q)) && Sized(VDone(g, h, b, 6, q), g.Size(q))
    ensures h(b + 12, q) == CalcSwap(VDone(g, h, b, 6, q), g.Size(q), kernel, SampleOf(g, noise, b / 12, q))
  {
    StepNumbers(b, 11);
    PhaseStart(g, h, b);
    UPhase(g, kernel, noise, h, b);
    Between(g, h, b, b + 6);
    VPhase(g, kernel, noise, h, b);
    LastStep(g, kernel, noise, h, b, b + 11, q);
  }

  lemma LastStep<T>(g: ProcGrid, kernel: Kernel<T>, noise: Noise<T>, h: History<T>, b: nat, k: nat, q: Point)
    requires g.Good() && Follows(g, kernel, noise, h) && k % 12 == 11 && k % 6 == 5 && AllV(g, h, b, 5, k)
    requires g.IsRank(q)
    ensures RankReady(g, q, VDone(g, h, b, 6, q))
    ensures h(k + 1, q) == Computed(g, kernel, noise, k / 12, q, VDone(g, h, b, 6, q))
  {
    ShiftFacts(g, 5, q);
    assert VAt(g, h, b, 5, k, q) && VAt(g, h, b, 5, k, SourceRank(g, 5, q)) && Stepped(g, kernel, noise, h, k, q);
    VAdvance(g, kernel, noise, h, b, k / 12, 5, k, q);
  }

  // ------------------------------------------------------------------
  // The global simulation
  // ------------------------------------------------------------------

  datatype GlobalField<!T> = GlobalField(u: Point -> T, v: Point -> T)

  /** One step of the stencil on the periodic cube. */
  function GlobalStep<T>(g: ProcGrid, kernel: Kernel<T>, noise: Noise<T>, t: nat, f: GlobalField<T>): GlobalField<T> {
    GlobalField((c: Point) => kernel(GlobalSeven(g, f.u, c), GlobalSeven(g, f.v, c), noise(t, c)).0,
                (c: Point) => kernel(GlobalSeven(g, f.u, c), GlobalSeven(g, f.v, c), noise(t, c)).1)
  }

  function GlobalAfter<T>(g: ProcGrid, kernel: Kernel<T>, noise: Noise<T>, f: GlobalField<T>, t: nat): GlobalField<T>
    decreases t
  {
    if t == 0 then f else GlobalStep(g, kernel, noise, t - 1, GlobalAfter(g, kernel, noise, f, t - 1))
  }

  /** The ranks' interiors after k steps are the global field. */
  ghost predicate Holds<T>(g: ProcGrid, h: History<T>, k: nat, f: GlobalField<T>)
    requires g.Good()
  {
    AllSized(g, h, k) && Represents(g, UWorld(h, k), f.u) && Represents(g, VWorld(h, k), f.v)
  }

  lemma CellAfter<T>(g: ProcGrid, kernel: Kernel<T>, noise: Noise<T>, h: History<T>, b: nat, f: GlobalField<T>,
                     q: Point, p: Point)
    requires g.Good() && Follows(g, kernel, noise, h) && b % 12 == 0 && Holds(g, h, b, f) && g.IsRank(q)
    requires Interior(g.Size(q), p)
    ensures Positive3(g.Size(q)) && |h(b + 12, q).u| == |h(b + 12, q).v| == Cells(g.Size(q))
    ensures At(h(b + 12, q).u, g.Size(q), p) == GlobalStep(g, kernel, noise, b / 12, f).u(GlobalOf(g, q, p))
    ensures At(h(b + 12, q).v, g.Size(q), p) == GlobalStep(g, kernel, noise, b / 12, f).v(GlobalOf(g, q, p))
  {
    Iterate(g, kernel, noise, h, b, q);
    AroundIsGlobal(g, UWorld(h, b), f.u, q, p);
    AroundIsGlobal(g, VWorld(h, b), f.v, q, p);
    CalcAt(VDone(g, h, b, 6, q), g.Size(q), kernel, SampleOf(g, noise, b / 12, q), p);
  }

  lemma IterateIsGlobal<T>(g: ProcGrid, kernel: Kernel<T>, noise: Noise<T>, h: History<T>, b: nat, f: GlobalField<T>)
    requires g.Good() && Follows(g, kernel, noise, h) && b % 12 == 0 && Holds(g, h, b, f)
    ensures Holds(g, h, b + 12, GlobalStep(g, kernel, noise, b / 12, f))
  {
    var next := GlobalStep(g, kernel, noise, b / 12, f);
    forall q: Point | g.IsRank(q) ensures RankReady(g, q, h(b + 12, q)) {
      Iterate(g, kernel, noise, h, b, q);
    }
    assert WorldSized(g, UWorld(h, b + 12)) && WorldSized(g, VWorld(h, b + 12));
    forall q: Point, p: Point | g.IsRank(q) && Positive3(g.Size(q)) && Interior(g.Size(q), p)
      ensures At(UWorld(h, b + 12)(q), g.Size(q), p) == next.u(GlobalOf(g, q, p))
      ensures At(VWorld(h, b + 12)(q), g.Size(q), p) == next.v(GlobalOf(g, q, p))
    {
      CellAfter(g, kernel, noise, h, b, f, q, p);
    }
  }

  /** After t iterations the gathered interiors are t global steps: the stale
      edge and corner ghosts never reach an interior cell. */
  lemma {:induction false} DistributedIsGlobal<T>(g: ProcGrid, kernel: Kernel<T>, noise: Noise<T>, h: History<T>,
                                                  f: GlobalField<T>, t: nat, k: nat)
    requires g.Good() && Follows(g, kernel, noise, h) && Holds(g, h, 0, f) && k == 12 * t
    ensures Holds(g, h, k, GlobalAfter(g, kernel, noise, f, t))
    decreases t
  {
    if t > 0 {
      DistributedIsGlobal(g, kernel, noise, h, f, t - 1, k - 12);
      NextIteration(g, kernel, noise, h, f, t - 1, k - 12);
    }
  }

  lemma NextIteration<T>(g: ProcGrid, kernel: Kernel<T>, noise: Noise<T>, h: History<T>, f: GlobalField<T>, t: nat,
                         b: nat)
    requires g.Good() && Follows(g, kernel, noise, h) && b == 12 * t
    requires Holds(g, h, b, GlobalAfter(g, kernel, noise, f, t))
    ensures Holds(g, h, b + 12, GlobalAfter(g, kernel, noise, f, t + 1))
  {
    assert b % 12 == 0 && b / 12 == t;
    IterateIsGlobal(g, kernel, noise, h, b, GlobalAfter(g, kernel, noise, f, t));
  }

  // ------------------------------------------------------------------
  // Every interleaving
  // ------------------------------------------------------------------

  /** The arrays every rank starts from hold the global field. */
  ghost predicate Starts<T>(g: ProcGrid, init: Point -> Fields<T>, f: GlobalField<T>)
    requires g.Good()
  {
    && (forall q: Point :: g.IsRank(q) ==> RankReady(g, q, init(q)))
    && Represents(g, (q: Point) => init(q).u, f.u)
    && Represents(g, (q: Point) => init(q).v, f.v)
  }

  /** The lock-step execution of the ranks' program. */
  function LockstepHistory<T>(g: ProcGrid, init: Point -> Fields<T>, kernel: Kernel<T>, noise: Noise<T>): History<T> {
    (k: nat, q: Point) => HaloProgram(g, init, kernel, noise).After(k, q)
  }

  lemma LockstepFollows<T>(g: ProcGrid, init: Point -> Fields<T>, kernel: Kernel<T>, noise: Noise<T>, f: GlobalField<T>)
    requires g.Good() && Starts(g, init, f)
    ensures Follows(g, kernel, noise, LockstepHistory(g, init, kernel, noise))
    ensures Holds(g, LockstepHistory(g, init, kernel, noise), 0, f)
  {
    var h := LockstepHistory(g, init, kernel, noise);
    assert forall q: Point :: h(0, q) == init(q);
    assert WorldSized(g, UWorld(h, 0)) && WorldSized(g, VWorld(h, 0));
    var u, v := (q: Point) => init(q).u, (q: Point) => init(q).v;
    assert forall q: Point :: UWorld(h, 0)(q) == u(q) && VWorld(h, 0)(q) == v(q);
    forall k: nat, q: Point | g.IsRank(q) ensures Stepped(g, kernel, noise, h, k, q) {
      var P := HaloProgram(g, init, kernel, noise);
      assert h(k + 1, q) == P.After(k + 1, q);
    }
  }

  /** In every reachable state of every run, a rank that has finished t
      iterations holds, in each interior cell, the value of the global field
      after t steps: no barrier is needed. */
  lemma EveryRunIsGlobal<T>(g: ProcGrid, init: Point -> Fields<T>, kernel: Kernel<T>, noise: Noise<T>,
                            f: GlobalField<T>, limit: nat, run: seq<System<Point, Fields<T>, seq<T>>>, i: nat, q: Point,
                            t: nat, p: Point)
    requires g.Good() && Starts(g, init, f)
    requires Run(HaloProgram(g, init, kernel, noise), limit, run) && i < |run|
    requires g.IsRank(q) && Interior(g.Size(q), p)
    requires q in run[i].node && run[i].node[q].pc == 12 * t
    ensures RankReady(g, q, run[i].node[q].data)
    ensures At(run[i].node[q].data.u, g.Size(q), p) == GlobalAfter(g, kernel, noise, f, t).u(GlobalOf(g, q, p))
    ensures At(run[i].node[q].data.v, g.Size(q), p) == GlobalAfter(g, kernel, noise, f, t).v(GlobalOf(g, q, p))
  {
    var h := LockstepHistory(g, init, kernel, noise);
    HaloMatched(g, init, kernel, noise);
    assert q in Ranks(g);
    InterleavingFree(HaloProgram(g, init, kernel, noise), limit, run, i, q);
    assert run[i].node[q].data == h(12 * t, q);
    LockstepFollows(g, init, kernel, noise, f);
    DistributedIsGlobal(g, kernel, noise, h, f, t, 12 * t);
    assert UWorld(h, 12 * t)(q) == h(12 * t, q).u && VWorld(h, 12 * t)(q) == h(12 * t, q).v;
  }

  /** No run gets stuck before every rank has done its iterations. */
  lemma ExchangeNeverDeadlocks<T>(g: ProcGrid, init: Point -> Fields<T>, kernel: Kernel<T>, noise: Noise<T>,
                                  limit: nat, run: seq<System<Point, Fields<T>, seq<T>>>, i: nat, q: Point)
    requires g.Good() && Run(HaloProgram(g, init, kernel, noise), limit, run) && i < |run|
    requires g.IsRank(q) && q in run[i].node && run[i].node[q].pc < limit
    ensures exists next :: Step(HaloProgram(g, init, kernel, noise), run[i], limit, next)
  {
    HaloMatched(g, init, kernel, noise);
    assert q in Ranks(g);
    NoDeadlock(HaloProgram(g, init, kernel, noise), limit, run, i);
  }
}
