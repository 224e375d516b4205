/** The thread pool of utils/ThreadPool.h as interleaved steps: a mutex, a
    condition variable that may wake spuriously, workers, callers of enqueue
    and the destructor. A step is what one thread does between two scheduling
    points. */
module ThreadPool {
  datatype Worker<T> =
    | Acquire            // wants the mutex: at the loop head, or woken inside wait
    | Checking           // holds the mutex and evaluates the wait condition
    | Blocked            // inside wait, mutex released
    | Running(task: T)   // runs a task, mutex released
    | Exited

  datatype Holder<T> = Free | ByWorker(i: nat) | ByClient(task: T) | ByDestroyer

  /** Progress of the destructor; all joins are done when `joined` reaches the
      number of workers. */
  datatype Destroyer = Idle | Locked | MustNotify | Joining(joined: nat)

  datatype Pool<T> = Pool(
    holder: Holder<T>,
    tasks: seq<T>,
    stop: bool,
    workers: seq<Worker<T>>,
    notifies: nat,           // enqueue calls past their critical section, before notify_one
    destroyer: Destroyer,
    accepted: seq<T>,        // history: tasks pushed, in order
    taken: seq<T>,           // history: tasks popped, in order
    finished: seq<T>)        // history: tasks that have returned, in order

  datatype Move<T> =
    | WorkerLock(w: nat) | WorkerBlock(w: nat) | WorkerExit(w: nat) | WorkerTake(w: nat) | WorkerFinish(w: nat)
    | Spurious(w: nat)
    | ClientLock(t: T) | ClientPush | ClientReject | NotifyOne(w: nat) | NotifyNone
    | DestroyLock | DestroyStop | NotifyAll | Join

  function Start<T>(n: nat): Pool<T> {
    Pool(Free, [], false, seq(n, _ => Acquire), 0, Idle, [], [], [])
  }

  predicate Is<T(==)>(s: Pool<T>, i: nat, w: Worker<T>) { i < |s.workers| && s.workers[i] == w }

  predicate Enabled<T(==)>(s: Pool<T>, m: Move<T>) {
    match m
    case WorkerLock(i) => Is(s, i, Acquire) && s.holder == Free
    case WorkerBlock(i) => Is(s, i, Checking) && !s.stop && s.tasks == []
    case WorkerExit(i) => Is(s, i, Checking) && s.stop && s.tasks == []
    case WorkerTake(i) => Is(s, i, Checking) && s.tasks != []
    case WorkerFinish(i) => i < |s.workers| && s.workers[i].Running?
    case Spurious(i) => Is(s, i, Blocked)
    case ClientLock(_) => s.holder == Free
    case ClientPush => s.holder.ByClient? && !s.stop
    case ClientReject => s.holder.ByClient? && s.stop
    case NotifyOne(i) => s.notifies > 0 && Is(s, i, Blocked)
    case NotifyNone => s.notifies > 0 && Blocked !in s.workers
    case DestroyLock => s.destroyer == Idle && s.holder == Free
    case DestroyStop => s.destroyer == Locked
    case NotifyAll => s.destroyer == MustNotify
    case Join => s.destroyer.Joining? && Is(s, s.destroyer.joined, Exited)
  }

  function WakeAll<T>(ws: seq<Worker<T>>): (r: seq<Worker<T>>)
    ensures |r| == |ws|
  {
    seq(|ws|, i requires 0 <= i < |ws| => if ws[i].Blocked? then Acquire else ws[i])
  }

  function Apply<T(==)>(s: Pool<T>, m: Move<T>): Pool<T>
    requires Enabled(s, m)
  {
    match m
    case WorkerLock(i) => s.(holder := ByWorker(i), workers := s.workers[i := Checking])
    case WorkerBlock(i) => s.(holder := Free, workers := s.workers[i := Blocked])
    case WorkerExit(i) => s.(holder := Free, workers := s.workers[i := Exited])
    case WorkerTake(i) =>
      s.(holder := Free, workers := s.workers[i := Running(s.tasks[0])], tasks := s.tasks[1..],
         taken := s.taken + [s.tasks[0]])
    case WorkerFinish(i) => s.(workers := s.workers[i := Acquire], finished := s.finished + [s.workers[i].task])
    case Spurious(i) => s.(workers := s.workers[i := Acquire])
    case ClientLock(t) => s.(holder := ByClient(t))
    case ClientPush =>
      s.(holder := Free, tasks := s.tasks + [s.holder.task], accepted := s.accepted + [s.holder.task],
         notifies := s.notifies + 1)
    case ClientReject => s.(holder := Free)
    case NotifyOne(i) => s.(notifies := s.notifies - 1, workers := s.workers[i := Acquire])
    case NotifyNone => s.(notifies := s.notifies - 1)
    case DestroyLock => s.(holder := ByDestroyer, destroyer := Locked)
    case DestroyStop => s.(holder := Free, stop := true, destroyer := MustNotify)
    case NotifyAll => s.(workers := WakeAll(s.workers), destroyer := Joining(0))
    case Join => s.(destroyer := Joining(s.destroyer.joined + 1))
  }

  /** The state after a schedule, if every move of it was possible. */
  datatype Reached<T> = Impossible | At(pool: Pool<T>)

  function Run<T(==)>(n: nat, moves: seq<Move<T>>): Reached<T>
    decreases |moves|
  {
    if moves == [] then At(Start(n))
    else
      var before := Run(n, moves[..|moves| - 1]);
      var m := moves[|moves| - 1];
      if before.At? && Enabled(before.pool, m) then At(Apply(before.pool, m)) else Impossible
  }

  predicate Done<T>(s: Pool<T>) { s.destroyer == Joining(|s.workers|) }

  // ------------------------------------------------------------------
  // Sums over the workers
  // ------------------------------------------------------------------

  ghost function Sum<T>(f: Worker<T> -> nat, ws: seq<Worker<T>>): nat {
    if ws == [] then 0 else f(ws[0]) + Sum(f, ws[1..])
  }

  lemma {:induction false} SumUpdate<T>(f: Worker<T> -> nat, ws: seq<Worker<T>>, i: nat, w: Worker<T>)
    requires i < |ws|
    ensures Sum(f, ws[i := w]) + f(ws[i]) == Sum(f, ws) + f(w)
    decreases i
  {
    if i == 0 {
      assert ws[i := w][1..] == ws[1..];
    } else {
      SumUpdate(f, ws[1..], i - 1, w);
      assert ws[i := w][1..] == ws[1..][i - 1 := w];
    }
  }

  lemma {:induction false} SumMonotone<T>(f: Worker<T> -> nat, a: seq<Worker<T>>, b: seq<Worker<T>>)
    requires |a| == |b| && forall i :: 0 <= i < |a| ==> f(a[i]) <= f(b[i])
    ensures Sum(f, a) <= Sum(f, b)
    decreases |a|
  {
    if a != [] { SumMonotone(f, a[1..], b[1..]); }
  }

  lemma {:induction false} SumZero<T>(f: Worker<T> -> nat, ws: seq<Worker<T>>)
    requires forall i :: 0 <= i < |ws| ==> f(ws[i]) == 0
    ensures Sum(f, ws) == 0
    decreases |ws|
  {
    if ws != [] { SumZero(f, ws[1..]); }
  }

  ghost function RunsTask<T>(x: T): Worker<T> -> nat { (w: Worker<T>) => if w == Running(x) then 1 else 0 }

  /** Awake and about to look at the queue. */
  ghost function Coming<T>(): Worker<T> -> nat { (w: Worker<T>) => if w == Acquire || w == Checking then 1 else 0 }

  // ------------------------------------------------------------------
  // The invariant
  // ------------------------------------------------------------------

  /** Only the holder of the mutex is in a critical section. */
  ghost predicate Exclusive<T>(s: Pool<T>) {
    && (forall i: nat :: i < |s.workers| ==> (s.workers[i] == Checking <==> s.holder == ByWorker(i)))
    && (s.holder.ByWorker? ==> s.holder.i < |s.workers|)
    && (s.holder == ByDestroyer <==> s.destroyer == Locked)
  }

  /** The queue is what was accepted and not yet taken, in order. */
  ghost predicate Fifo<T>(s: Pool<T>) { s.accepted == s.taken + s.tasks }

  /** A taken task has finished or is being run by one worker. */
  ghost predicate Accounted<T(!new)>(s: Pool<T>) {
    forall x: T :: multiset(s.taken)[x] == multiset(s.finished)[x] + Sum(RunsTask(x), s.workers)
  }

  ghost predicate Stopping<T>(s: Pool<T>) {
    && (s.stop <==> s.destroyer == MustNotify || s.destroyer.Joining?)
    && (s.destroyer.Joining? ==> s.destroyer.joined <= |s.workers| && Blocked !in s.workers)
    && (s.destroyer.Joining? ==> forall i :: 0 <= i < s.destroyer.joined ==> s.workers[i] == Exited)
    && (Exited in s.workers ==> s.stop && s.tasks == [])
  }

  /** While a worker sleeps, every queued task has a notification or an awake
      worker on its way; after stop a sleeping worker waits for notify_all. */
  ghost predicate NoLostWakeup<T>(s: Pool<T>) {
    Blocked in s.workers ==>
      && |s.tasks| <= s.notifies + Sum(Coming(), s.workers)
      && (s.stop ==> s.destroyer == MustNotify)
  }

  ghost predicate Inv<T(!new)>(s: Pool<T>) {
    Exclusive(s) && Fifo(s) && Accounted(s) && Stopping(s) && NoLostWakeup(s)
  }

  lemma StartInv<T(!new)>(n: nat)
    ensures Inv(Start<T>(n))
  {
    forall x: T ensures Sum(RunsTask(x), Start<T>(n).workers) == 0 {
      SumZero(RunsTask(x), Start<T>(n).workers);
    }
  }

  lemma KeepsExclusive<T(!new)>(s: Pool<T>, m: Move<T>)
    requires Inv(s) && Enabled(s, m)
    ensures Exclusive(Apply(s, m))
  {
  }

  lemma KeepsFifo<T(!new)>(s: Pool<T>, m: Move<T>)
    requires Inv(s) && Enabled(s, m)
    ensures Fifo(Apply(s, m))
  {
  }

  lemma KeepsStopping<T(!new)>(s: Pool<T>, m: Move<T>)
    requires Inv(s) && Enabled(s, m)
    ensures Stopping(Apply(s, m))
  {
    var r := Apply(s, m);
    if Exited in r.workers && Exited !in s.workers {
      var i :| 0 <= i < |r.workers| && r.workers[i] == Exited;
      assert s.workers[i] != Exited;
    }
  }

  /** The worker a move changes, and to what. */
  function Moved<T>(s: Pool<T>, m: Move<T>): Worker<T> {
    match m
    case WorkerLock(_) => Checking
    case WorkerBlock(_) => Blocked
    case WorkerExit(_) => Exited
    case WorkerTake(_) => if s.tasks == [] then Exited else Running(s.tasks[0])
    case _ => Acquire
  }

  predicate MovesWorker<T>(m: Move<T>) {
    m.WorkerLock? || m.WorkerBlock? || m.WorkerExit? || m.WorkerTake? || m.WorkerFinish? || m.Spurious? || m.NotifyOne?
  }

  /** How a move changes a sum. */
  lemma SumMove<T(!new)>(f: Worker<T> -> nat, s: Pool<T>, m: Move<T>)
    requires Enabled(s, m)
    ensures MovesWorker(m) ==>
      m.w < |s.workers| && Sum(f, Apply(s, m).workers) + f(s.workers[m.w]) == Sum(f, s.workers) + f(Moved(s, m))
    ensures m == NotifyAll && f(Acquire) <= f(Blocked) ==> Sum(f, Apply(s, m).workers) <= Sum(f, s.workers)
    ensures m == NotifyAll && f(Acquire) >= f(Blocked) ==> Sum(f, Apply(s, m).workers) >= Sum(f, s.workers)
    ensures !MovesWorker(m) && m != NotifyAll ==> Sum(f, Apply(s, m).workers) == Sum(f, s.workers)
  {
    if MovesWorker(m) {
      SumUpdate(f, s.workers, m.w, Moved(s, m));
    } else if m == NotifyAll {
      if f(Acquire) <= f(Blocked) { SumMonotone(f, WakeAll(s.workers), s.workers); }
      if f(Acquire) >= f(Blocked) { SumMonotone(f, s.workers, WakeAll(s.workers)); }
    }
  }

  lemma KeepsAccounted<T(!new)>(s: Pool<T>, m: Move<T>)
    requires Inv(s) && Enabled(s, m)
    ensures Accounted(Apply(s, m))
  {
    forall x: T
      ensures multiset(Apply(s, m).taken)[x]
        == multiset(Apply(s, m).finished)[x] + Sum(RunsTask(x), Apply(s, m).workers)
    {
      SumMove(RunsTask(x), s, m);
    }
  }

  lemma KeepsWakeups<T(!new)>(s: Pool<T>, m: Move<T>)
    requires Inv(s) && Enabled(s, m)
    ensures NoLostWakeup(Apply(s, m))
  {
    var r := Apply(s, m);
    SumMove(Coming(), s, m);
    if Blocked in r.workers && !m.WorkerBlock? {
      var i :| 0 <= i < |r.workers| && r.workers[i] == Blocked;
      assert s.workers[i] == Blocked;
    }
  }

  lemma KeepsInv<T(!new)>(s: Pool<T>, m: Move<T>)
    requires Inv(s) && Enabled(s, m)
    ensures Inv(Apply(s, m))
  {
    KeepsExclusive(s, m);
    KeepsFifo(s, m);
    KeepsStopping(s, m);
    KeepsAccounted(s, m);
    KeepsWakeups(s, m);
  }

  lemma {:induction false} RunInv<T(!new)>(n: nat, moves: seq<Move<T>>)
    requires Run(n, moves).At?
    ensures Inv(Run(n, moves).pool) && |Run(n, moves).pool.workers| == n
    decreases |moves|
  {
    if moves == [] {
      StartInv<T>(n);
    } else {
      RunInv(n, moves[..|moves| - 1]);
      KeepsInv(Run(n, moves[..|moves| - 1]).pool, moves[|moves| - 1]);
    }
  }

  // ------------------------------------------------------------------
  // What every run guarantees
  // ------------------------------------------------------------------

  /** Tasks leave the queue in the order they were accepted, each once. */
  lemma TakenInOrder<T(!new)>(n: nat, moves: seq<Move<T>>)
    requires Run(n, moves).At?
    ensures var s := Run(n, moves).pool;
      && s.taken <= s.accepted && s.tasks == s.accepted[|s.taken|..]
      && forall x: T :: multiset(s.finished)[x] <= multiset(s.taken)[x] <= multiset(s.accepted)[x]
  {
    RunInv(n, moves);
    var s := Run(n, moves).pool;
    assert multiset(s.accepted) == multiset(s.taken) + multiset(s.tasks);
  }

  /** Two threads are never in a critical section at once. */
  lemma MutualExclusion<T(!new)>(n: nat, moves: seq<Move<T>>, i: nat, j: nat)
    requires Run(n, moves).At? && i < j < n
    ensures !(Is(Run(n, moves).pool, i, Checking) && Is(Run(n, moves).pool, j, Checking))
  {
    RunInv(n, moves);
  }

  /** With work to do, the workers are never all asleep without a notification
      on its way. */
  lemma NeverAllAsleep<T(!new)>(n: nat, moves: seq<Move<T>>)
    requires Run(n, moves).At? && n >= 1
    requires var s := Run(n, moves).pool; s.tasks != [] || s.stop
    requires forall i :: 0 <= i < n ==> Is(Run(n, moves).pool, i, Blocked)
    ensures Run(n, moves).pool.notifies > 0 || Run(n, moves).pool.destroyer == MustNotify
  {
    RunInv(n, moves);
    var s := Run(n, moves).pool;
    assert Is(s, 0, Blocked);
    forall i | 0 <= i < |s.workers| ensures Coming<T>()(s.workers[i]) == 0 {
      assert Is(s, i, Blocked);
    }
    SumZero(Coming(), s.workers);
  }

  /** A move of the pool itself, not a new call of enqueue. */
  predicate OwnMove<T>(m: Move<T>) { !m.ClientLock? }

  /** A move that brings the pool forward: a spurious wake-up or a call of the
      destructor may happen, but nothing can rely on it. */
  predicate Progress<T>(m: Move<T>) { OwnMove(m) && !m.Spurious? && !m.DestroyLock? }

  /** A worker that can take a step, if any can. */
  lemma WorkerCanMove<T(!new)>(s: Pool<T>, i: nat) returns (m: Move<T>)
    requires Inv(s) && i < |s.workers| && s.workers[i] != Blocked && s.workers[i] != Exited
    requires s.holder == Free || s.holder == ByWorker(i)
    ensures Enabled(s, m) && Progress(m)
  {
    match s.workers[i]
    case Acquire => m := WorkerLock(i);
    case Running(_) => m := WorkerFinish(i);
    case Checking => m := if s.tasks != [] then WorkerTake(i) else if s.stop then WorkerExit(i) else WorkerBlock(i);
  }

  /** No deadlock: while tasks are queued (and there is a worker), or while the
      called destructor has not returned, the pool can move without further calls,
      of the destructor or of enqueue, and without a spurious wake-up. */
  lemma NoDeadlock<T(!new)>(n: nat, moves: seq<Move<T>>) returns (m: Move<T>)
    requires Run(n, moves).At?
    requires var s := Run(n, moves).pool; (n >= 1 && s.tasks != []) || (s.destroyer != Idle && !Done(s))
    ensures Enabled(Run(n, moves).pool, m) && Progress(m)
  {
    RunInv(n, moves);
    var s := Run(n, moves).pool;
    if s.holder.ByClient? {
      m := if s.stop then ClientReject else ClientPush;
    } else if s.holder.ByWorker? {
      m := WorkerCanMove(s, s.holder.i);
    } else if s.holder == ByDestroyer {
      m := DestroyStop;
    } else if s.destroyer == MustNotify {
      m := NotifyAll;
    } else if s.destroyer.Joining? && !Done(s) {
      var k := s.destroyer.joined;
      assert s.workers[k] != Blocked;
      if s.workers[k] == Exited { m := Join; } else { m := WorkerCanMove(s, k); }
    } else {
      m := SomeWorkerMoves(s);
    }
  }

  lemma SomeWorkerMoves<T(!new)>(s: Pool<T>) returns (m: Move<T>)
    requires Inv(s) && s.tasks != [] && |s.workers| >= 1 && s.holder == Free
    ensures Enabled(s, m) && Progress(m)
  {
    assert Exited !in s.workers;
    if forall i :: 0 <= i < |s.workers| ==> s.workers[i] == Blocked {
      assert s.workers[0] == Blocked;
      SumZero(Coming(), s.workers);
      m := if s.notifies > 0 then NotifyOne(0) else NotifyAll;
    } else {
      var i: nat :| i < |s.workers| && s.workers[i] != Blocked;
      assert s.workers[i] in s.workers;
      m := WorkerCanMove(s, i);
    }
  }

  // ------------------------------------------------------------------
  // Progress and shutdown
  // ------------------------------------------------------------------

  ghost function Weight<T>(): Worker<T> -> nat {
    (w: Worker<T>) =>
      match w case Exited => 0 case Checking => 1 case Acquire => 2 case Blocked => 3 case Running(_) => 3
  }

  /** Steps the destructor has left. */
  function Ahead<T>(s: Pool<T>): int {
    match s.destroyer
    case Idle => |s.workers| + 3
    case Locked => |s.workers| + 2
    case MustNotify => |s.workers| + 1
    case Joining(k) => |s.workers| - k
  }

  /** Steps that are left at most while the pool has work or is stopping. */
  ghost function Remaining<T>(s: Pool<T>): int {
    4 * |s.tasks| + Sum(Weight(), s.workers) + s.notifies + (if s.holder.ByClient? then 6 else 0) + Ahead(s)
  }

  /** With tasks queued, or after stop, no worker goes to sleep. */
  predicate Busy<T>(s: Pool<T>) { s.tasks != [] || s.stop }

  /** Then every step except a new enqueue call brings the end nearer. */
  lemma BusyStep<T(!new)>(s: Pool<T>, m: Move<T>)
    requires Inv(s) && Busy(s) && Enabled(s, m) && OwnMove(m)
    ensures 0 <= Remaining(Apply(s, m)) < Remaining(s)
    ensures s.stop ==> Apply(s, m).stop
  {
    KeepsInv(s, m);
    SumMove(Weight(), s, m);
  }

  /** The queue is non-empty after each of the moves. */
  ghost predicate NeverEmpties<T(!new)>(n: nat, moves: seq<Move<T>>, more: seq<Move<T>>) {
    forall k :: 0 <= k <= |more| ==> HasWork(n, moves + more[..k])
  }

  ghost predicate HasWork<T>(n: nat, moves: seq<Move<T>>) { Run(n, moves).At? && Run(n, moves).pool.tasks != [] }

  lemma NeverShorter<T(!new)>(n: nat, moves: seq<Move<T>>, less: seq<Move<T>>, last: Move<T>)
    requires NeverEmpties(n, moves, less + [last])
    ensures NeverEmpties(n, moves, less)
  {
    assert forall k :: 0 <= k <= |less| ==> less[..k] == (less + [last])[..k];
  }

  /** Queued tasks are taken: while the queue is non-empty a pool with a worker
      can always move without a spurious wake-up or the destructor, and a schedule without new
      enqueue calls that never empties it is bounded. */
  lemma {:induction false} QueueDrains<T(!new)>(n: nat, moves: seq<Move<T>>, more: seq<Move<T>>)
    requires n >= 1 && NeverEmpties(n, moves, more) && forall m :: m in more ==> OwnMove(m)
    ensures HasWork(n, moves) && HasWork(n, moves + more)
    ensures 0 <= |more| + Remaining(Run(n, moves + more).pool) <= Remaining(Run(n, moves).pool)
    ensures exists m :: Progress(m) && Enabled(Run(n, moves + more).pool, m)
    decreases |more|
  {
    EndsHaveWork(n, moves, more);
    RunInv(n, moves + more);
    if more == [] {
      assert moves + more == moves;
    } else {
      var less, last := more[..|more| - 1], more[|more| - 1];
      assert more == less + [last];
      LastMove(n, moves, less, last);
      NeverShorter(n, moves, less, last);
      QueueDrains(n, moves, less);
    }
    var m := NoDeadlock(n, moves + more);
    assert Progress(m) && Enabled(Run(n, moves + more).pool, m);
  }

  lemma EndsHaveWork<T(!new)>(n: nat, moves: seq<Move<T>>, more: seq<Move<T>>)
    requires NeverEmpties(n, moves, more)
    ensures HasWork(n, moves) && HasWork(n, moves + more)
  {
    assert moves + more[..0] == moves && more[..|more|] == more;
  }

  /** The last move of a schedule, taken by a busy pool, brings the end nearer. */
  lemma LastMove<T(!new)>(n: nat, moves: seq<Move<T>>, less: seq<Move<T>>, last: Move<T>)
    requires Run(n, moves + (less + [last])).At? && OwnMove(last)
    ensures Run(n, moves + less).At?
    ensures Busy(Run(n, moves + less).pool) ==>
      Remaining(Run(n, moves + (less + [last])).pool) < Remaining(Run(n, moves + less).pool)
    ensures Run(n, moves + less).pool.stop ==> Run(n, moves + (less + [last])).pool.stop
  {
    var all := moves + (less + [last]);
    assert all[..|all| - 1] == moves + less && all[|all| - 1] == last;
    RunInv(n, moves + less);
    if Busy(Run(n, moves + less).pool) { BusyStep(Run(n, moves + less).pool, last); }
  }

  /** The destructor returns: from a stopped pool, a schedule without new
      enqueue calls (spurious wake-ups included) is never longer than Remaining,
      and until every worker has been joined a move other than a spurious
      wake-up is possible. */
  lemma {:induction false} ShutdownBounded<T(!new)>(n: nat, moves: seq<Move<T>>, more: seq<Move<T>>)
    requires Run(n, moves).At? && Run(n, moves).pool.stop
    requires Run(n, moves + more).At? && forall m :: m in more ==> OwnMove(m)
    ensures Run(n, moves + more).pool.stop
    ensures 0 <= |more| + Remaining(Run(n, moves + more).pool) <= Remaining(Run(n, moves).pool)
    ensures Done(Run(n, moves + more).pool) || exists m :: Progress(m) && Enabled(Run(n, moves + more).pool, m)
    decreases |more|
  {
    RunInv(n, moves + more);
    if more == [] {
      assert moves + more == moves;
    } else {
      var less, last := more[..|more| - 1], more[|more| - 1];
      assert more == less + [last];
      LastMove(n, moves, less, last);
      ShutdownBounded(n, moves, less);
    }
    var s := Run(n, moves + more).pool;
    if !Done(s) {
      var m := NoDeadlock(n, moves + more);
      assert Progress(m) && Enabled(s, m);
    }
  }

  /** Every accepted task has run exactly once. */
  ghost predicate AllRan<T>(s: Pool<T>) { multiset(s.finished) == multiset(s.accepted) }

  lemma AllRanWhenJoined<T(!new)>(n: nat, moves: seq<Move<T>>)
    requires n >= 1 && Run(n, moves).At? && Done(Run(n, moves).pool)
    ensures AllRan(Run(n, moves).pool) && Run(n, moves).pool.tasks == []
  {
    RunInv(n, moves);
    var s := Run(n, moves).pool;
    assert s.workers[0] == Exited && s.tasks == [] && s.accepted == s.taken;
    forall x: T ensures multiset(s.accepted)[x] == multiset(s.finished)[x] {
      SumZero(RunsTask(x), s.workers);
    }
  }

  /** A pool of no workers accepts a task, is destroyed, and never ran it. */
  function Abandoning<T>(t: T): seq<Move<T>> { [ClientLock(t), ClientPush, DestroyLock, DestroyStop, NotifyAll] }

  lemma NoWorkersLoseTask<T(!new)>(t: T)
    ensures var r := Run(0, Abandoning(t)); r.At? && Done(r.pool) && r.pool.accepted == [t] && !AllRan(r.pool)
  {
    var s2 := Accepting(t);
    var m2 := [] + [ClientLock(t)] + [ClientPush];
    var s3 := Stepped(0, m2, DestroyLock, s2);
    var s4 := Stepped(0, m2 + [DestroyLock], DestroyStop, s3);
    var s5 := Stepped(0, m2 + [DestroyLock] + [DestroyStop], NotifyAll, s4);
    assert m2 + [DestroyLock] + [DestroyStop] + [NotifyAll] == Abandoning(t);
    assert multiset(s5.accepted)[t] == 1 && multiset(s5.finished)[t] == 0;
  }

  /** A pool of no workers takes a task in. */
  lemma Accepting<T(!new)>(t: T) returns (s: Pool<T>)
    ensures Run(0, [] + [ClientLock(t)] + [ClientPush]) == At(s)
    ensures s.holder == Free && s.destroyer == Idle && s.workers == [] && s.accepted == [t] && s.finished == []
  {
    var s1 := Stepped(0, [], ClientLock(t), Start(0));
    s := Stepped(0, [] + [ClientLock(t)], ClientPush, s1);
  }

  /** One more enabled move. */
  lemma Stepped<T(!new)>(n: nat, moves: seq<Move<T>>, m: Move<T>, s: Pool<T>) returns (next: Pool<T>)
    requires Run(n, moves) == At(s) && Enabled(s, m)
    ensures next == Apply(s, m) && Run(n, moves + [m]) == At(next)
  {
    next := Apply(s, m);
    assert (moves + [m])[..|moves + [m]| - 1] == moves;
  }

  /** Exactly the pools with a worker run every accepted task before the
      destructor returns. */
  lemma AllRanIffWorkers<T(!new)>(n: nat, t: T)
    ensures n >= 1 <==>
      forall moves: seq<Move<T>> :: Run(n, moves).At? && Done(Run(n, moves).pool) ==> AllRan(Run(n, moves).pool)
  {
    if n >= 1 {
      forall moves: seq<Move<T>> | Run(n, moves).At? && Done(Run(n, moves).pool) ensures AllRan(Run(n, moves).pool) {
        AllRanWhenJoined(n, moves);
      }
    } else {
      NoWorkersLoseTask(t);
    }
  }
}
