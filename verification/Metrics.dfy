/** The overwrite-oldest ring of metricManager/circularDoubleArray.hpp. */
module Ring {
  import opened Arith

  /** The runtime_error texts of the ring and of the metric manager. */
  datatype RingError =
    | TooFewSlots         // fewer than one slot
    | NumberNotPositive   // getLastN(0)
    | NumberTooLarge      // more than is stored
    | EmptyElement        // getLastN met the empty-slot value
    | ArrayEmpty          // removeElement on an empty ring
    | EntryNull           // removeElement met the empty-slot value
    | NoSuchMetric

  datatype Answer<+T> = Value(value: T) | Throws(error: RingError)

  // ------------------------------------------------------------------
  // A queue of bounded capacity that drops its oldest entry
  // ------------------------------------------------------------------

  function Push<T>(q: seq<T>, x: T, cap: nat): (r: seq<T>)
    requires |q| <= cap
    ensures |r| == (if |q| < cap then |q| + 1 else cap)
  {
    if |q| < cap then q + [x] else (q + [x])[1..]
  }

  /** The calls made on one ring: addElement, removeElement, getLastN. */
  datatype Op<T> = Add(x: T) | Remove | Latest(number: nat)

  /** What getLastN answers for given contents. */
  function LastN<T(==)>(q: seq<T>, number: nat, empty: T): Answer<seq<T>> {
    if number == 0 then Throws(NumberNotPositive)
    else if number > |q| then Throws(NumberTooLarge)
    else if empty in q[|q| - number..] then Throws(EmptyElement)
    else Value(q[|q| - number..])
  }

  /** After a run of calls: the contents, or stuck because a call threw with the
      mutex held, so that the next call never returns. */
  datatype Life<T> = Live(q: seq<T>) | Stuck

  function Outcome<T(==)>(ops: seq<Op<T>>, cap: nat, empty: T): (r: Life<T>)
    ensures r.Live? ==> |r.q| <= cap
    decreases |ops|
  {
    if ops == [] then Live([])
    else
      var before := Outcome(ops[..|ops| - 1], cap, empty);
      if before.Stuck? then Stuck else Called(before.q, ops[|ops| - 1], cap, empty)
  }

  /** One call on a ring that holds q. */
  function Called<T(==)>(q: seq<T>, op: Op<T>, cap: nat, empty: T): (r: Life<T>)
    requires |q| <= cap
    ensures r.Live? ==> |r.q| <= cap
  {
    match op
    case Add(x) => Live(Push(q, x, cap))
    case Remove => if q == [] then Stuck else if q[0] == empty then Live(q) else Live(q[1..])
    case Latest(number) => if LastN(q, number, empty) == Throws(EmptyElement) then Stuck else Live(q)
  }

  /** All values ever added, in order. */
  function Added<T>(ops: seq<Op<T>>): seq<T>
    decreases |ops|
  {
    if ops == [] then []
    else
      var before := Added(ops[..|ops| - 1]);
      match ops[|ops| - 1] case Add(x) => before + [x] case _ => before
  }

  /** A run gets stuck exactly when it removes from an empty ring or asks for
      values of which one equals the empty-slot value. */
  lemma {:induction false} StuckIff<T>(ops: seq<Op<T>>, cap: nat, empty: T)
    ensures Outcome(ops, cap, empty).Stuck? <==> exists k :: 0 <= k < |ops| && StuckAt(ops, k, cap, empty)
    decreases |ops|
  {
    if ops != [] {
      var n := |ops| - 1;
      var front := ops[..n];
      StuckIff(front, cap, empty);
      forall k | 0 <= k < n ensures StuckAt(front, k, cap, empty) <==> StuckAt(ops, k, cap, empty) {
        assert front[..k] == ops[..k];
      }
      if Outcome(front, cap, empty).Live? {
        assert StuckAt(ops, n, cap, empty) <==> Outcome(ops, cap, empty).Stuck?;
      } else {
        var k :| 0 <= k < n && StuckAt(front, k, cap, empty);
        assert StuckAt(ops, k, cap, empty);
      }
    }
  }

  predicate StuckAt<T(==)>(ops: seq<Op<T>>, k: nat, cap: nat, empty: T)
    requires k < |ops|
  {
    var before := Outcome(ops[..k], cap, empty);
    && before.Live?
    && match ops[k]
       case Add(_) => false
       case Remove => before.q == []
       case Latest(number) => 1 <= number <= |before.q| && empty in before.q[|before.q| - number..]
  }

  /** After any run that is not stuck the ring holds the newest additions, in
      order. */
  lemma {:induction false} RunIsSuffix<T>(ops: seq<Op<T>>, cap: nat, empty: T)
    requires Outcome(ops, cap, empty).Live?
    ensures |Outcome(ops, cap, empty).q| <= |Added(ops)|
    ensures Outcome(ops, cap, empty).q == Added(ops)[|Added(ops)| - |Outcome(ops, cap, empty).q|..]
    decreases |ops|
  {
    if ops != [] {
      var front, op := ops[..|ops| - 1], ops[|ops| - 1];
      RunIsSuffix(front, cap, empty);
      CallKeepsSuffix(Outcome(front, cap, empty).q, Added(front), op, cap, empty);
      assert Outcome(ops, cap, empty) == Called(Outcome(front, cap, empty).q, op, cap, empty);
    }
  }

  lemma CallKeepsSuffix<T>(q: seq<T>, all: seq<T>, op: Op<T>, cap: nat, empty: T)
    requires |q| <= cap && |q| <= |all| && q == all[|all| - |q|..] && Called(q, op, cap, empty).Live?
    ensures var r, more := Called(q, op, cap, empty).q, (match op case Add(x) => all + [x] case _ => all);
      |r| <= |more| && r == more[|more| - |r|..]
  {
  }

  /** Without removals it holds exactly the last min(capacity, n) of n values. */
  lemma {:induction false} AddsKeepLatest<T>(ops: seq<Op<T>>, cap: nat, empty: T)
    requires forall i :: 0 <= i < |ops| ==> ops[i].Add?
    ensures |Added(ops)| == |ops| && Outcome(ops, cap, empty).Live?
    ensures |Outcome(ops, cap, empty).q| == (if |ops| < cap then |ops| else cap)
    ensures Outcome(ops, cap, empty).q == Added(ops)[|ops| - |Outcome(ops, cap, empty).q|..]
    decreases |ops|
  {
    if ops != [] { AddsKeepLatest(ops[..|ops| - 1], cap, empty); }
    RunIsSuffix(ops, cap, empty);
  }

  /** Asking for n stored values after any run gives the n newest additions in
      order, unless one of them equals the empty-slot value. */
  lemma LatestOfRun<T>(ops: seq<Op<T>>, cap: nat, number: nat, empty: T)
    requires Outcome(ops, cap, empty).Live? && 1 <= number <= |Outcome(ops, cap, empty).q|
    ensures number <= |Added(ops)|
    ensures var latest := Added(ops)[|Added(ops)| - number..];
      LastN(Outcome(ops, cap, empty).q, number, empty)
        == (if empty in latest then Throws(EmptyElement) else Value(latest))
  {
    RunIsSuffix(ops, cap, empty);
    var q := Outcome(ops, cap, empty).q;
    assert q[|q| - number..] == Added(ops)[|Added(ops)| - number..];
  }

  // ------------------------------------------------------------------
  // Legal runs
  // ------------------------------------------------------------------

  /** The plain queue of bounded capacity, oldest entry first out. */
  function Replay<T>(ops: seq<Op<T>>, cap: nat): (q: seq<T>)
    ensures |q| <= cap
    decreases |ops|
  {
    if ops == [] then []
    else
      var q := Replay(ops[..|ops| - 1], cap);
      match ops[|ops| - 1]
      case Add(x) => Push(q, x, cap)
      case Remove => if q == [] then q else q[1..]
      case Latest(_) => q
  }

  /** No empty-slot value is added and no removal finds the queue empty. */
  ghost predicate Legal<T>(ops: seq<Op<T>>, cap: nat, empty: T) {
    forall k :: 0 <= k < |ops| ==> ops[k] != Add(empty) && (ops[k] == Remove ==> Replay(ops[..k], cap) != [])
  }

  /** On legal runs the ring never gets stuck and is the plain queue. */
  lemma {:induction false} LegalIsQueue<T>(ops: seq<Op<T>>, cap: nat, empty: T)
    requires Legal(ops, cap, empty)
    ensures Outcome(ops, cap, empty) == Live(Replay(ops, cap)) && empty !in Replay(ops, cap)
    decreases |ops|
  {
    if ops != [] {
      var n := |ops| - 1;
      var front := ops[..n];
      assert forall k :: 0 <= k < n ==> front[..k] == ops[..k];
      LegalIsQueue(front, cap, empty);
      assert ops[n] != Add(empty) && (ops[n] == Remove ==> Replay(front, cap) != []);
    }
  }

  // ------------------------------------------------------------------
  // The ring
  // ------------------------------------------------------------------

  function Stored<T>(buffer: seq<T>, head: nat, tail: nat): (q: seq<T>)
    requires head < |buffer| && tail < |buffer|
  {
    if tail <= head then buffer[tail..head] else buffer[tail..] + buffer[..head]
  }

  /** k modulo n for 0 <= k < 2n. */
  function Wrap(k: int, n: int): int { if k < n then k else k - n }

  lemma ModIsWrap(k: int, n: int)
    requires 0 <= k < 2 * n
    ensures k % n == Wrap(k, n)
  {
    if k < n { DivUnique(k / n, k % n, 0, k, n); } else { DivUnique(k / n, k % n, 1, k - n, n); }
  }

  /** Position i of the stored values, counted from the oldest. */
  lemma StoredAt<T>(buffer: seq<T>, head: nat, tail: nat, i: nat)
    requires head < |buffer| && tail < |buffer| && i < |Stored(buffer, head, tail)|
    ensures 0 <= Wrap(tail + i, |buffer|) < |buffer|
    ensures Stored(buffer, head, tail)[i] == buffer[Wrap(tail + i, |buffer|)]
  {
  }

  /** Writing at the head and moving it (and the tail, when they meet). */
  lemma AddOne<T>(buffer: seq<T>, head: nat, tail: nat, x: T)
    requires head < |buffer| && tail < |buffer|
    ensures var n := |buffer|;
      var h := Wrap(head + 1, n);
      var t := if h == tail then Wrap(tail + 1, n) else tail;
      && 0 <= h < n && 0 <= t < n && |Stored(buffer, head, tail)| <= n - 1
      && Stored(buffer[head := x], h, t) == Push(Stored(buffer, head, tail), x, n - 1)
  {
    var n := |buffer|;
    if Wrap(head + 1, n) == tail { AddFull(buffer, head, tail, x); } else { AddFree(buffer, head, tail, x); }
  }

  lemma AddFree<T>(buffer: seq<T>, head: nat, tail: nat, x: T)
    requires head < |buffer| && tail < |buffer| && Wrap(head + 1, |buffer|) != tail
    ensures |Stored(buffer, head, tail)| < |buffer| - 1 && 0 <= Wrap(head + 1, |buffer|) < |buffer|
    ensures Stored(buffer[head := x], Wrap(head + 1, |buffer|), tail) == Stored(buffer, head, tail) + [x]
  {
  }

  lemma AddFull<T>(buffer: seq<T>, head: nat, tail: nat, x: T)
    requires head < |buffer| && tail < |buffer| && Wrap(head + 1, |buffer|) == tail
    ensures |Stored(buffer, head, tail)| == |buffer| - 1 && 0 <= Wrap(tail + 1, |buffer|) < |buffer|
    ensures Stored(buffer[head := x], tail, Wrap(tail + 1, |buffer|)) == (Stored(buffer, head, tail) + [x])[1..]
  {
  }

  lemma RemoveOne<T>(buffer: seq<T>, head: nat, tail: nat, empty: T)
    requires head < |buffer| && tail < |buffer| && head != tail
    ensures 0 <= Wrap(tail + 1, |buffer|) < |buffer| && Stored(buffer, head, tail) != []
    ensures Stored(buffer, head, tail)[0] == buffer[tail]
    ensures Stored(buffer[tail := empty], head, Wrap(tail + 1, |buffer|)) == Stored(buffer, head, tail)[1..]
  {
  }

  class CircularArray<T(==)> {
    const slotNum: nat
    const empty: T        // DBL_MAX in the source
    var buffer: seq<T>
    var head: nat
    var tail: nat
    var locked: bool      // m_indexMutex

    ghost predicate Valid()
      reads this
    {
      slotNum >= 1 && |buffer| == slotNum && head < slotNum && tail < slotNum
    }

    /** The stored values, oldest first. */
    ghost function Contents(): (q: seq<T>)
      requires Valid()
      reads this
      ensures |q| <= slotNum - 1
    {
      Stored(buffer, head, tail)
    }

    constructor (n: nat, emptyValue: T)
      requires n >= 1
      ensures Valid() && slotNum == n && empty == emptyValue && Contents() == [] && !locked
    {
      slotNum, empty := n, emptyValue;
      buffer := seq(n, _ => emptyValue);
      head, tail, locked := 0, 0, false;
    }

    method AddElement(element: T)
      requires Valid() && !locked
      modifies this
      ensures Valid() && !locked
      ensures Contents() == Push(old(Contents()), element, slotNum - 1)
    {
      locked := true;
      AddOne(buffer, head, tail, element);
      ModIsWrap(head + 1, slotNum);
      ModIsWrap(tail + 1, slotNum);
      buffer := buffer[head := element];
      head := (head + 1) % slotNum;
      if head == tail { tail := (tail + 1) % slotNum; }
      locked := false;
    }

    method BufferLen() returns (len: nat)
      requires Valid() && !locked
      modifies this`locked
      ensures Valid() && !locked && len == |Contents()|
    {
      locked := true;
      if head == tail {
        len := 0;
      } else if head > tail {
        len := head - tail;
      } else {
        len := slotNum + head - tail;
      }
      locked := false;
    }

    /** The last n values in order. An exception inside the loop leaves the
        mutex locked: that happens exactly when one of the n values equals the
        empty-slot value. */
    method GetLastN(number: nat) returns (r: Answer<seq<T>>)
      requires Valid() && !locked
      modifies this`locked
      ensures Valid() && Contents() == old(Contents())
      ensures r == LastN(Contents(), number, empty)
      ensures locked <==> r == Throws(EmptyElement)
    {
      if number <= 0 { return Throws(NumberNotPositive); }
      var len := BufferLen();
      if number > len { return Throws(NumberTooLarge); }
      ghost var q := Contents();
      var position := (head - number + slotNum) % slotNum;
      ModIsWrap(head - number + slotNum, slotNum);
      var results := [];
      locked := true;
      for i := 0 to number
        invariant position == Wrap(Wrap(tail + (|q| - number), slotNum) + i, slotNum)
        invariant locked && Contents() == q
        invariant results == q[|q| - number..][..i]
        invariant forall k :: 0 <= k < i ==> results[k] != empty
      {
        StoredAt(buffer, head, tail, |q| - number + i);
        if buffer[position] == empty {
          assert q[|q| - number..][i] == empty;
          return Throws(EmptyElement);
        }
        results := results + [buffer[position]];
        ModIsWrap(position + 1, slotNum);
        position := (position + 1) % slotNum;
      }
      locked := false;
      assert q[|q| - number..][..number] == q[|q| - number..];
      r := Value(results);
    }

    method GetAll() returns (r: Answer<seq<T>>)
      requires Valid() && !locked
      modifies this`locked
      ensures Valid() && Contents() == old(Contents())
      ensures r
        == if Contents() == [] then Throws(NumberNotPositive)
           else if empty in Contents() then Throws(EmptyElement)
           else Value(Contents())
      ensures locked <==> r == Throws(EmptyElement)
    {
      var len := BufferLen();
      r := GetLastN(len);
      assert Contents()[0..] == Contents();
    }

    /** Drops the oldest value. On an empty ring the exception leaves the mutex
        locked; on the empty-slot value nothing changes. */
    method RemoveElement() returns (r: Answer<int>)
      requires Valid() && !locked
      modifies this
      ensures Valid()
      ensures r
        == if old(Contents()) == [] then Throws(ArrayEmpty)
           else if old(Contents())[0] == empty then Throws(EntryNull)
           else Value(0)
      ensures Contents() == if r.Value? then old(Contents())[1..] else old(Contents())
      ensures locked <==> r == Throws(ArrayEmpty)
    {
      locked := true;
      if tail == head { return Throws(ArrayEmpty); }
      RemoveOne(buffer, head, tail, empty);
      ModIsWrap(tail + 1, slotNum);
      if buffer[tail] == empty {
        locked := false;
        return Throws(EntryNull);
      } else {
        buffer := buffer[tail := empty];
      }
      tail := (tail + 1) % slotNum;
      locked := false;
      r := Value(0);
    }
  }

  /** Any run of calls on a new ring leaves it as Outcome says; the run ends at
      the call that leaves the mutex locked. */
  method RunOps<T(==)>(ring: CircularArray<T>, ops: seq<Op<T>>)
    requires ring.Valid() && !ring.locked && ring.Contents() == []
    modifies ring
    ensures ring.Valid()
    ensures ring.locked <==> Outcome(ops, ring.slotNum - 1, ring.empty).Stuck?
    ensures !ring.locked ==> Outcome(ops, ring.slotNum - 1, ring.empty) == Live(ring.Contents())
  {
    for i := 0 to |ops|
      invariant ring.Valid() && !ring.locked
      invariant Outcome(ops[..i], ring.slotNum - 1, ring.empty) == Live(ring.Contents())
    {
      assert ops[..i + 1][..i] == ops[..i];
      match ops[i] {
        case Add(x) => ring.AddElement(x);
        case Remove => var _ := ring.RemoveElement();
        case Latest(number) => var _ := ring.GetLastN(number);
      }
      if ring.locked {
        StuckStays(ops, i + 1, ring.slotNum - 1, ring.empty);
        return;
      }
    }
    assert ops[..|ops|] == ops;
  }

  lemma {:induction false} StuckStays<T>(ops: seq<Op<T>>, k: nat, cap: nat, empty: T)
    requires k <= |ops| && Outcome(ops[..k], cap, empty).Stuck?
    ensures Outcome(ops, cap, empty).Stuck?
    decreases |ops|
  {
    if k == |ops| {
      assert ops[..k] == ops;
    } else {
      assert ops[..|ops| - 1][..k] == ops[..k];
      StuckStays(ops[..|ops| - 1], k, cap, empty);
    }
  }
}

/** metricManager/metricManager.cpp: one ring per metric name. */
module Metrics {
  import opened Ring

  class MetricManager<T(==)> {
    const slot: nat
    const empty: T
    var metricsMap: map<string, CircularArray<T>>

    ghost predicate Valid()
      reads this, metricsMap.Values
    {
      && (forall a :: a in metricsMap ==>
            && metricsMap[a] in metricsMap.Values && metricsMap[a].Valid()
            && metricsMap[a].slotNum == slot && metricsMap[a].empty == empty)
      && (forall a, b :: a in metricsMap && b in metricsMap && a != b ==> metricsMap[a] != metricsMap[b])
    }

    ghost predicate Unlocked()
      reads this, metricsMap.Values
    {
      forall a :: a in metricsMap ==> metricsMap[a] in metricsMap.Values && !metricsMap[a].locked
    }

    /** The stored values of a metric, none if it was never put. */
    ghost function Stored(name: string): (q: seq<T>)
      requires Valid()
      reads this, metricsMap.Values
    {
      if name in metricsMap then metricsMap[name].Contents() else []
    }

    constructor (slotNum: nat, emptyValue: T)
      ensures Valid() && Unlocked() && slot == slotNum && empty == emptyValue && metricsMap == map[]
    {
      slot, empty, metricsMap := slotNum, emptyValue, map[];
    }

    method Create(name: string)
      requires Valid() && Unlocked() && name !in metricsMap && slot >= 1
      modifies this
      ensures Valid() && Unlocked() && metricsMap.Keys == old(metricsMap.Keys) + {name}
      ensures fresh(metricsMap.Values - old(metricsMap.Values))
      ensures forall a :: Stored(a) == old(Stored(a))
    {
      var ring := new CircularArray<T>(slot, empty);
      metricsMap := metricsMap[name := ring];
    }

    method AddTo(name: string, value: T)
      requires Valid() && Unlocked() && name in metricsMap
      modifies metricsMap[name]
      ensures Valid() && Unlocked() && |old(Stored(name))| <= slot - 1
      ensures Stored(name) == Push(old(Stored(name)), value, slot - 1)
      ensures forall a :: a != name ==> Stored(a) == old(Stored(a))
    {
      metricsMap[name].AddElement(value);
    }

    /** putMetric: only the named metric changes. Without a slot the ring's
        constructor throws and nothing is recorded. */
    method PutMetric(name: string, value: T) returns (r: Answer<()>)
      requires Valid() && Unlocked()
      modifies this, metricsMap.Values
      ensures Valid() && Unlocked()
      ensures r == if name !in old(metricsMap) && slot < 1 then Throws(TooFewSlots) else Value(())
      ensures metricsMap.Keys == old(metricsMap.Keys) + (if r.Value? then {name} else {})
      ensures r.Value? ==> |old(Stored(name))| <= slot - 1 && Stored(name) == Push(old(Stored(name)), value, slot - 1)
      ensures forall a :: r.Throws? || a != name ==> Stored(a) == old(Stored(a))
    {
      if name !in metricsMap {
        if slot < 1 { return Throws(TooFewSlots); }
        Create(name);
      }
      AddTo(name, value);
      r := Value(());
    }

    method GetLastNMetrics(name: string, number: nat) returns (r: Answer<seq<T>>)
      requires Valid() && Unlocked()
      modifies metricsMap.Values
      ensures Valid() && forall a :: Stored(a) == old(Stored(a))
      ensures r == if name !in metricsMap then Throws(NoSuchMetric) else LastN(Stored(name), number, empty)
      ensures r != Throws(EmptyElement) ==> Unlocked()
    {
      if name !in metricsMap { return Throws(NoSuchMetric); }
      r := metricsMap[name].GetLastN(number);
    }

    method GetBufferLen(name: string) returns (count: nat)
      requires Valid() && Unlocked() && name in metricsMap
      modifies metricsMap.Values
      ensures Valid() && Unlocked() && count == |Stored(name)|
      ensures forall a :: Stored(a) == old(Stored(a))
    {
      count := metricsMap[name].BufferLen();
    }
  }
}
