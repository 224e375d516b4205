/** Ranks that run the same list of send-receive steps over FIFO channels
    (MPI 3.1, section 3.10 and the ordering rule of section 3.5): every
    interleaving computes what the lock-step execution computes, and none
    deadlocks. */
module Lockstep {
  /** Step k of rank q: send to dst(k, q), then receive from src(k, q). */
  datatype Program<!N(==), !S, !M> = Program(
    nodes: set<N>,
    init: N -> S,
    send: (nat, N, S) -> M,
    recv: (nat, N, S, M) -> S,
    src: (nat, N) -> N,
    dst: (nat, N) -> N)
  {
    /** At step k, rank q is sent to by the rank it receives from, and back. */
    ghost predicate MatchedAt(k: nat, q: N) {
      && src(k, q) in nodes && dst(k, q) in nodes
      && dst(k, src(k, q)) == q && src(k, dst(k, q)) == q
    }

    /** At every step the receives match the sends. */
    ghost predicate Matched() {
      forall k: nat, q :: q in nodes ==> MatchedAt(k, q)
    }

    /** The state of rank q after k lock-step steps. */
    function After(k: nat, q: N): S
      decreases k
    {
      if k == 0 then init(q)
      else recv(k - 1, q, After(k - 1, q), send(k - 1, src(k - 1, q), After(k - 1, src(k - 1, q))))
    }

    /** The message rank q sends at step k in the lock-step execution. */
    function Message(k: nat, q: N): M { send(k, q, After(k, q)) }
  }

  /** A rank: its step, whether that step's send is done, its data. */
  datatype Node<S> = Node(pc: nat, sent: bool, data: S) {
    function Sends(): nat { if sent then pc + 1 else pc }
  }

  datatype System<!N(==), S, M> = System(node: map<N, Node<S>>, chan: map<(N, N), seq<M>>)

  ghost predicate Shape<N(!new), S, M>(P: Program<N, S, M>, sys: System<N, S, M>) {
    && (forall q :: q in P.nodes <==> q in sys.node)
    && (forall s, d :: s in P.nodes && d in P.nodes ==> (s, d) in sys.chan)
  }

  function Start<N(!new), S, M>(P: Program<N, S, M>): System<N, S, M> {
    System(map q | q in P.nodes :: Node(0, false, P.init(q)),
           map s, d | s in P.nodes && d in P.nodes :: (s, d) := [])
  }

  // ------------------------------------------------------------------
  // Interleaved execution of the first `limit` steps
  // ------------------------------------------------------------------

  ghost predicate CanSend<N(!new), S, M>(P: Program<N, S, M>, sys: System<N, S, M>, limit: nat, q: N) {
    q in sys.node && sys.node[q].pc < limit && !sys.node[q].sent && (q, P.dst(sys.node[q].pc, q)) in sys.chan
  }

  function DoSend<N(!new), S, M>(P: Program<N, S, M>, sys: System<N, S, M>, q: N): System<N, S, M>
    requires q in sys.node && (q, P.dst(sys.node[q].pc, q)) in sys.chan
  {
    var n := sys.node[q];
    var c := (q, P.dst(n.pc, q));
    System(sys.node[q := n.(sent := true)], sys.chan[c := sys.chan[c] + [P.send(n.pc, q, n.data)]])
  }

  ghost predicate CanReceive<N(!new), S, M>(P: Program<N, S, M>, sys: System<N, S, M>, limit: nat, q: N) {
    && q in sys.node && sys.node[q].pc < limit && sys.node[q].sent
    && (P.src(sys.node[q].pc, q), q) in sys.chan && sys.chan[(P.src(sys.node[q].pc, q), q)] != []
  }

  function DoReceive<N(!new), S, M>(P: Program<N, S, M>, sys: System<N, S, M>, q: N): System<N, S, M>
    requires q in sys.node && (P.src(sys.node[q].pc, q), q) in sys.chan && sys.chan[(P.src(sys.node[q].pc, q), q)] != []
  {
    var n := sys.node[q];
    var c := (P.src(n.pc, q), q);
    System(sys.node[q := Node(n.pc + 1, false, P.recv(n.pc, q, n.data, sys.chan[c][0]))],
           sys.chan[c := sys.chan[c][1..]])
  }

  ghost predicate Step<N(!new), S, M>(P: Program<N, S, M>, sys: System<N, S, M>, limit: nat, next: System<N, S, M>) {
    exists q :: StepOf(P, sys, limit, q, next)
  }

  ghost predicate StepOf<N(!new), S, M>(P: Program<N, S, M>, sys: System<N, S, M>, limit: nat, q: N,
                                        next: System<N, S, M>) {
    || (CanSend(P, sys, limit, q) && next == DoSend(P, sys, q))
    || (CanReceive(P, sys, limit, q) && next == DoReceive(P, sys, q))
  }

  /** A run: consecutive states from the start. */
  ghost predicate Run<N(!new), S, M>(P: Program<N, S, M>, limit: nat, run: seq<System<N, S, M>>) {
    && |run| > 0 && run[0] == Start(P)
    && forall i :: 0 <= i < |run| - 1 ==> Step(P, run[i], limit, run[i + 1])
  }

  // ------------------------------------------------------------------
  // The invariant
  // ------------------------------------------------------------------

  /** The messages of the steps lo..hi that s sends to d, in step order. */
  ghost function InFlight<N(!new), S, M>(P: Program<N, S, M>, s: N, d: N, lo: nat, hi: nat): seq<M> {
    if hi <= lo then []
    else InFlight(P, s, d, lo, hi - 1) + (if P.dst(hi - 1, s) == d then [P.Message(hi - 1, s)] else [])
  }

  lemma {:induction false} InFlightFront<N(!new), S, M>(P: Program<N, S, M>, s: N, d: N, lo: nat, hi: nat)
    requires lo < hi
    ensures InFlight(P, s, d, lo, hi) ==
      (if P.dst(lo, s) == d then [P.Message(lo, s)] else []) + InFlight(P, s, d, lo + 1, hi)
    decreases hi
  {
    if hi == lo + 1 {
      assert InFlight(P, s, d, lo, lo) == [] && InFlight(P, s, d, lo + 1, hi) == [];
    } else {
      InFlightFront(P, s, d, lo, hi - 1);
    }
  }

  /** Every rank holds its lock-step data. */
  ghost predicate DataOk<N(!new), S, M>(P: Program<N, S, M>, sys: System<N, S, M>)
    requires Shape(P, sys)
  {
    forall q :: q in P.nodes ==> sys.node[q].data == P.After(sys.node[q].pc, q)
  }

  /** A channel holds what is sent and not yet received. */
  ghost predicate ChanOk<N(!new), S, M>(P: Program<N, S, M>, sys: System<N, S, M>)
    requires Shape(P, sys)
  {
    forall s, d {:trigger sys.chan[(s, d)]} :: s in P.nodes && d in P.nodes ==>
      sys.chan[(s, d)] == InFlight(P, s, d, sys.node[d].pc, sys.node[s].Sends())
  }

  /** What a rank received had been sent. */
  ghost predicate Ahead<N(!new), S, M>(P: Program<N, S, M>, sys: System<N, S, M>)
    requires Shape(P, sys)
  {
    forall d, k: nat {:trigger P.src(k, d)} :: d in P.nodes && k < sys.node[d].pc && P.src(k, d) in P.nodes ==>
      k < sys.node[P.src(k, d)].Sends()
  }

  ghost predicate Inv<N(!new), S, M>(P: Program<N, S, M>, sys: System<N, S, M>) {
    Shape(P, sys) && DataOk(P, sys) && ChanOk(P, sys) && Ahead(P, sys)
  }

  lemma StartInv<N(!new), S, M>(P: Program<N, S, M>)
    ensures Inv(P, Start(P))
  {
  }

  lemma SendKeepsInv<N(!new), S, M>(P: Program<N, S, M>, sys: System<N, S, M>, limit: nat, q: N)
    requires P.Matched() && Inv(P, sys) && CanSend(P, sys, limit, q)
    ensures Inv(P, DoSend(P, sys, q))
  {
    var next := DoSend(P, sys, q);
    SendKeepsChan(P, sys, limit, q);
    assert Ahead(P, next) by {
      forall d, k: nat | d in P.nodes && k < next.node[d].pc && P.src(k, d) in P.nodes
        ensures k < next.node[P.src(k, d)].Sends()
      {
        assert k < sys.node[P.src(k, d)].Sends();
      }
    }
  }

  lemma SendKeepsChan<N(!new), S, M>(P: Program<N, S, M>, sys: System<N, S, M>, limit: nat, q: N)
    requires P.Matched() && Inv(P, sys) && CanSend(P, sys, limit, q)
    ensures Shape(P, DoSend(P, sys, q)) && ChanOk(P, DoSend(P, sys, q))
  {
    var next := DoSend(P, sys, q);
    var n := sys.node[q];
    var peer := P.dst(n.pc, q);
    assert P.MatchedAt(n.pc, q);
    assert n.data == P.After(n.pc, q);
    assert P.src(n.pc, peer) == q && n.pc >= sys.node[peer].pc;
    forall s, d | s in P.nodes && d in P.nodes
      ensures next.chan[(s, d)] == InFlight(P, s, d, next.node[d].pc, next.node[s].Sends())
    {
      var before := sys.chan[(s, d)];
      assert next.node[d].pc == sys.node[d].pc;
      if s == q {
        assert next.node[s].Sends() == n.pc + 1 && sys.node[s].Sends() == n.pc;
        if d != peer { assert before + [] == before; }
      }
    }
  }

  lemma ReceiveKeepsInv<N(!new), S, M>(P: Program<N, S, M>, sys: System<N, S, M>, limit: nat, q: N)
    requires P.Matched() && Inv(P, sys) && CanReceive(P, sys, limit, q)
    ensures Inv(P, DoReceive(P, sys, q))
  {
    var next := DoReceive(P, sys, q);
    HeadIsDue(P, sys, limit, q);
    ReceiveKeepsChan(P, sys, limit, q);
    assert Ahead(P, next) by {
      forall d, k: nat | d in P.nodes && k < next.node[d].pc && P.src(k, d) in P.nodes
        ensures k < next.node[P.src(k, d)].Sends()
      {
        assert next.node[P.src(k, d)].Sends() == sys.node[P.src(k, d)].Sends();
        if !(d == q && k == sys.node[q].pc) { assert k < sys.node[P.src(k, d)].Sends(); }
      }
    }
  }

  /** The head of the awaited channel is the message of this very step. */
  lemma HeadIsDue<N(!new), S, M>(P: Program<N, S, M>, sys: System<N, S, M>, limit: nat, q: N)
    requires P.Matched() && Inv(P, sys) && CanReceive(P, sys, limit, q)
    ensures var pc := sys.node[q].pc;
      var peer := P.src(pc, q);
      && peer in P.nodes && pc < sys.node[peer].Sends()
      && sys.chan[(peer, q)] == [P.Message(pc, peer)] + InFlight(P, peer, q, pc + 1, sys.node[peer].Sends())
  {
    var pc := sys.node[q].pc;
    var peer := P.src(pc, q);
    assert P.MatchedAt(pc, q);
    assert sys.chan[(peer, q)] == InFlight(P, peer, q, pc, sys.node[peer].Sends());
    InFlightFront(P, peer, q, pc, sys.node[peer].Sends());
  }

  lemma ReceiveKeepsChan<N(!new), S, M>(P: Program<N, S, M>, sys: System<N, S, M>, limit: nat, q: N)
    requires P.Matched() && Inv(P, sys) && CanReceive(P, sys, limit, q)
    ensures Shape(P, DoReceive(P, sys, q)) && ChanOk(P, DoReceive(P, sys, q))
  {
    var next := DoReceive(P, sys, q);
    var pc := sys.node[q].pc;
    var peer := P.src(pc, q);
    HeadIsDue(P, sys, limit, q);
    forall s, d | s in P.nodes && d in P.nodes
      ensures next.chan[(s, d)] == InFlight(P, s, d, next.node[d].pc, next.node[s].Sends())
    {
      assert next.node[s].Sends() == sys.node[s].Sends();
      assert sys.chan[(s, d)] == InFlight(P, s, d, sys.node[d].pc, sys.node[s].Sends());
      if d == q && s != peer { OtherChannel(P, s, q, pc, sys.node[s].Sends()); }
    }
  }

  /** Step pc brings nothing from a rank other than src(pc, q). */
  lemma OtherChannel<N(!new), S, M>(P: Program<N, S, M>, s: N, q: N, pc: nat, hi: nat)
    requires P.Matched() && s in P.nodes && s != P.src(pc, q)
    ensures InFlight(P, s, q, pc, hi) == InFlight(P, s, q, pc + 1, hi)
  {
    assert P.MatchedAt(pc, s);
    if pc < hi {
      InFlightFront(P, s, q, pc, hi);
      assert [] + InFlight(P, s, q, pc + 1, hi) == InFlight(P, s, q, pc + 1, hi);
    }
  }

  lemma {:induction false} RunInv<N(!new), S, M>(P: Program<N, S, M>, limit: nat, run: seq<System<N, S, M>>, i: nat)
    requires P.Matched() && Run(P, limit, run) && i < |run|
    ensures Inv(P, run[i])
    decreases i
  {
    if i == 0 {
      StartInv(P);
    } else {
      RunInv(P, limit, run, i - 1);
      assert Step(P, run[i - 1], limit, run[i - 1 + 1]);
      var q :| StepOf(P, run[i - 1], limit, q, run[i]);
      if CanSend(P, run[i - 1], limit, q) && run[i] == DoSend(P, run[i - 1], q) {
        SendKeepsInv(P, run[i - 1], limit, q);
      } else {
        ReceiveKeepsInv(P, run[i - 1], limit, q);
      }
    }
  }

  /** Whatever the interleaving, a rank that has finished k steps holds exactly
      its lock-step data. */
  lemma InterleavingFree<N(!new), S, M>(P: Program<N, S, M>, limit: nat, run: seq<System<N, S, M>>, i: nat, q: N)
    requires P.Matched() && Run(P, limit, run) && i < |run| && q in P.nodes
    ensures q in run[i].node && run[i].node[q].data == P.After(run[i].node[q].pc, q)
  {
    RunInv(P, limit, run, i);
  }

  // ------------------------------------------------------------------
  // No deadlock
  // ------------------------------------------------------------------

  /** A rank of the set with the fewest finished steps. */
  lemma {:induction false} Slowest<N(!new), S, M>(nodes: set<N>, sys: System<N, S, M>) returns (q: N)
    requires nodes != {} && forall p :: p in nodes ==> p in sys.node
    ensures q in nodes && forall p :: p in nodes ==> sys.node[q].Sends() <= sys.node[p].Sends()
    decreases nodes
  {
    var a :| a in nodes;
    var rest := nodes - {a};
    if rest == {} {
      q := a;
      assert nodes == {a};
    } else {
      var b := Slowest(rest, sys);
      q := if sys.node[a].Sends() <= sys.node[b].Sends() then a else b;
      assert forall p :: p in nodes ==> p == a || p in rest;
    }
  }

  /** Until every rank has finished, some rank can move. */
  lemma NoDeadlock<N(!new), S, M>(P: Program<N, S, M>, limit: nat, run: seq<System<N, S, M>>, i: nat)
    requires P.Matched() && Run(P, limit, run) && i < |run|
    requires exists q :: q in P.nodes && q in run[i].node && run[i].node[q].pc < limit
    ensures exists next :: Step(P, run[i], limit, next)
  {
    RunInv(P, limit, run, i);
    var q := SomeoneMoves(P, run[i], limit);
    if CanSend(P, run[i], limit, q) {
      assert StepOf(P, run[i], limit, q, DoSend(P, run[i], q));
      assert Step(P, run[i], limit, DoSend(P, run[i], q));
    } else {
      assert StepOf(P, run[i], limit, q, DoReceive(P, run[i], q));
      assert Step(P, run[i], limit, DoReceive(P, run[i], q));
    }
  }

  lemma SomeoneMoves<N(!new), S, M>(P: Program<N, S, M>, sys: System<N, S, M>, limit: nat) returns (q: N)
    requires P.Matched() && Inv(P, sys)
    requires exists q :: q in P.nodes && q in sys.node && sys.node[q].pc < limit
    ensures CanSend(P, sys, limit, q) || CanReceive(P, sys, limit, q)
  {
    var behind := set q | q in P.nodes && sys.node[q].pc < limit;
    var late :| late in P.nodes && late in sys.node && sys.node[late].pc < limit;
    assert late in behind;
    q := Slowest(behind, sys);
    var n := sys.node[q];
    var peer := P.src(n.pc, q);
    assert P.MatchedAt(n.pc, q);
    if n.sent {
      assert n.pc < sys.node[peer].Sends() by {
        if peer in behind { assert n.Sends() <= sys.node[peer].Sends(); }
      }
      assert sys.chan[(peer, q)] == InFlight(P, peer, q, n.pc, sys.node[peer].Sends());
      InFlightFront(P, peer, q, n.pc, sys.node[peer].Sends());
    }
  }
}
