/** The four mutexes of the server, the discipline in which its threads take
    them, and why that discipline excludes deadlock. The methods of the other
    modules record what they do to the locks in a Thread, and can only do so
    within the discipline. */
module Locks {
  import opened Bytes

  datatype Lock = RecvQueue | EventQueue | Server | SendMap

  datatype Op = Acquire(lock: Lock) | Release(lock: Lock)

  function Rank(l: Lock): nat {
    match l
    case RecvQueue => 0
    case EventQueue => 1
    case Server => 2
    case SendMap => 3
  }

  /** Event queue before server lock before send-map lock; the receive-queue
      lock is taken alone. */
  predicate MayAcquire(held: set<Lock>, l: Lock) {
    forall h :: h in held ==> h != RecvQueue && Rank(h) < Rank(l)
  }

  predicate MayDo(held: set<Lock>, op: Op) {
    match op
    case Acquire(l) => MayAcquire(held, l)
    case Release(l) => l in held
  }

  function Do(held: set<Lock>, op: Op): set<Lock> {
    match op
    case Acquire(l) => held + {l}
    case Release(l) => held - {l}
  }

  function HeldAfter(ops: seq<Op>): set<Lock> {
    if ops == [] then {} else Do(HeldAfter(ops[..|ops| - 1]), ops[|ops| - 1])
  }

  predicate Disciplined(ops: seq<Op>) {
    ops == [] || (Disciplined(ops[..|ops| - 1]) && MayDo(HeldAfter(ops[..|ops| - 1]), ops[|ops| - 1]))
  }

  lemma OneMore(ops: seq<Op>, op: Op)
    ensures HeldAfter(ops + [op]) == Do(HeldAfter(ops), op)
    ensures Disciplined(ops + [op]) <==> Disciplined(ops) && MayDo(HeldAfter(ops), op)
  {
    assert (ops + [op])[..|ops + [op]| - 1] == ops;
  }

  /** These operations keep the discipline and leave these locks held. */
  predicate Keeps(ops: seq<Op>, held: set<Lock>) {
    Disciplined(ops) && HeldAfter(ops) == held
  }

  /** What one thread has done to the locks. CThreadLock's Lock and UnLock. */
  class Thread {
    ghost var ops: seq<Op>
    ghost var held: set<Lock>

    ghost predicate Valid()
      reads this
    {
      Keeps(ops, held)
    }

    ghost function Held(): set<Lock>
      reads this
    {
      held
    }

    constructor ()
      ensures Valid() && Held() == {} && ops == []
    {
      ops := [];
      held := {};
    }

    ghost method Lock(l: Lock)
      requires Valid() && MayAcquire(Held(), l)
      modifies this
      ensures Valid() && Held() == old(Held()) + {l} && ops == old(ops) + [Acquire(l)]
    {
      OneMore(ops, Acquire(l));
      ops := ops + [Acquire(l)];
      held := held + {l};
    }

    ghost method UnLock(l: Lock)
      requires Valid() && l in Held()
      modifies this
      ensures Valid() && Held() == old(Held()) - {l} && ops == old(ops) + [Release(l)]
    {
      OneMore(ops, Release(l));
      ops := ops + [Release(l)];
      held := held - {l};
    }
  }

  // ----- Interleavings ----------------------------------------------------

  /** A thread between two lock operations: what it has done, and the operation
      it is about to do, if it is not finished. */
  datatype Point = Point(done: seq<Op>, next: Option<Op>) {
    function Held(): set<Lock> {
      HeldAfter(done)
    }

    predicate Unfinished() {
      next.Some?
    }

    /** A thread that follows the discipline and gives up every lock before it ends. */
    predicate Proper() {
      Disciplined(done) && if next.Some? then MayDo(Held(), next.value) else Held() == {}
    }
  }

  predicate IsFree(ts: seq<Point>, l: Lock) {
    forall j :: 0 <= j < |ts| ==> l !in ts[j].Held()
  }

  /** A mutex can be taken when no thread holds it (not even the taker). */
  predicate CanStep(ts: seq<Point>, i: nat)
    requires i < |ts|
  {
    ts[i].next.Some? && (ts[i].next.value.Acquire? ==> IsFree(ts, ts[i].next.value.lock))
  }

  predicate AllProper(ts: seq<Point>) {
    forall i :: 0 <= i < |ts| ==> ts[i].Proper()
  }

  /** From any unfinished thread, follow who waits for whom: the ranks rise, so
      the chain ends at a thread that can step. */
  lemma {:induction false} FollowWaits(ts: seq<Point>, i: nat) returns (j: nat)
    requires AllProper(ts) && i < |ts| && ts[i].Unfinished()
    ensures j < |ts| && CanStep(ts, j)
    decreases if ts[i].next.value.Acquire? then 4 - Rank(ts[i].next.value.lock) else 0
  {
    if CanStep(ts, i) {
      return i;
    }
    var l := ts[i].next.value.lock;
    var holder :| 0 <= holder < |ts| && l in ts[holder].Held();
    assert ts[holder].Proper();
    if CanStep(ts, holder) {
      return holder;
    }
    j := FollowWaits(ts, holder);
  }

  predicate Exclusive(ts: seq<Point>) {
    forall i, j, l :: 0 <= i < |ts| && 0 <= j < |ts| && l in ts[i].Held() && l in ts[j].Held() ==> i == j
  }

  /** Thread i does its next operation and comes to some further proper point. */
  predicate Step(ts: seq<Point>, us: seq<Point>, i: nat) {
    && |us| == |ts| && i < |ts| && CanStep(ts, i)
    && us[i].done == ts[i].done + [ts[i].next.value] && us[i].Proper()
    && forall j :: 0 <= j < |ts| && j != i ==> us[j] == ts[j]
  }

  predicate Start(ts: seq<Point>) {
    forall i :: 0 <= i < |ts| ==> ts[i].done == [] && ts[i].Proper()
  }

  /** An interleaving of threads whose later operations may depend on anything. */
  predicate Interleaving(run: seq<seq<Point>>, who: seq<nat>) {
    && |run| == |who| + 1 && Start(run[0])
    && forall k :: 0 <= k < |who| ==> Step(run[k], run[k + 1], who[k])
  }

  lemma StepKeeps(ts: seq<Point>, us: seq<Point>, i: nat)
    requires AllProper(ts) && Exclusive(ts) && Step(ts, us, i)
    ensures AllProper(us) && Exclusive(us)
  {
    OneMore(ts[i].done, ts[i].next.value);
    forall a, b, l | 0 <= a < |us| && 0 <= b < |us| && l in us[a].Held() && l in us[b].Held()
      ensures a == b
    {}
  }

  lemma {:induction false} Reachable(run: seq<seq<Point>>, who: seq<nat>, k: nat)
    requires Interleaving(run, who) && k < |run|
    ensures AllProper(run[k]) && Exclusive(run[k])
  {
    if k > 0 {
      Reachable(run, who, k - 1);
      assert Step(run[k - 1], run[k], who[k - 1]);
      StepKeeps(run[k - 1], run[k], who[k - 1]);
    }
  }

  /** In every reachable interleaving no lock has two holders, and as long as
      some thread is unfinished some thread can step. */
  lemma DeadlockFree(run: seq<seq<Point>>, who: seq<nat>, k: nat)
    requires Interleaving(run, who) && k < |run|
    ensures Exclusive(run[k])
    ensures (exists i :: 0 <= i < |run[k]| && run[k][i].Unfinished()) ==>
      exists j :: 0 <= j < |run[k]| && CanStep(run[k], j)
  {
    Reachable(run, who, k);
    if i :| 0 <= i < |run[k]| && run[k][i].Unfinished() {
      var j := FollowWaits(run[k], i);
    }
  }

  /** Every prefix of a disciplined trace that ends with no lock held is such a
      thread: its next operation is the next of the trace. */
  lemma {:induction false} TraceIsProper(trace: seq<Op>, n: nat)
    requires Disciplined(trace) && HeldAfter(trace) == {} && n <= |trace|
    ensures Point(trace[..n], if n < |trace| then Some(trace[n]) else None).Proper()
    decreases |trace| - n
  {
    if n == |trace| {
      assert trace[..n] == trace;
    } else {
      TraceIsProper(trace, n + 1);
      assert trace[..n + 1] == trace[..n] + [trace[n]];
      OneMore(trace[..n], trace[n]);
    }
  }

  lemma {:induction false} DisciplinedPrefix(ops: seq<Op>, n: nat)
    requires n <= |ops|
    ensures Disciplined(ops) ==> Disciplined(ops[..n])
    decreases |ops| - n
  {
    if n == |ops| {
      assert ops[..n] == ops;
    } else {
      DisciplinedPrefix(ops, n + 1);
      assert ops[..n + 1] == ops[..n] + [ops[n]];
      OneMore(ops[..n], ops[n]);
    }
  }

  /** A thread that asks again for a lock it holds is stuck, even alone. */
  lemma SelfDeadlock(l: Lock, more: seq<Point>)
    ensures var me := Point([Acquire(l)], Some(Acquire(l)));
      !CanStep([me] + more, 0) && !me.Proper()
  {
    var me := Point([Acquire(l)], Some(Acquire(l)));
    assert [Acquire(l)] == [] + [Acquire(l)];
    OneMore([], Acquire(l));
    assert l in me.Held();
    assert ([me] + more)[0] == me;
  }
}
