/** CWorkBaseThread: the consumer of the receive queue and the producer of close
    events. What processMessage makes of a note is a parameter. */
module WorkThreads {
  import opened Bytes
  import opened Engine
  import opened Runs
  import opened Locks
  import opened GlobalMgrs

  /** The event queue after these notes got these verdicts. */
  function Reported(events: seq<Event>, max: nat, notes: seq<Note>, verdicts: seq<int>): seq<Event>
    requires |notes| == |verdicts|
    decreases |notes|
  {
    if notes == [] then events
    else
      var posted := verdicts[0] < 0 && |events| < max;
      var next := if posted then events + [CloseClient(notes[0].fd, notes[0].time)] else events;
      Reported(next, max, notes[1..], verdicts[1..])
  }

  /** The notes that failed, in order. */
  function Failing(notes: seq<Note>, verdicts: seq<int>): (fs: seq<Note>)
    requires |notes| == |verdicts|
    ensures |fs| <= |notes|
    decreases |notes|
  {
    if notes == [] then []
    else (if verdicts[0] < 0 then [notes[0]] else []) + Failing(notes[1..], verdicts[1..])
  }

  function Requests(notes: seq<Note>): (es: seq<Event>)
    ensures |es| == |notes| && forall i :: 0 <= i < |es| ==> es[i] == CloseClient(notes[i].fd, notes[i].time)
  {
    seq(|notes|, i requires 0 <= i < |notes| => CloseClient(notes[i].fd, notes[i].time))
  }

  /** For each note that failed, and no other, a request to close its connection is
      queued behind what was there, in order, for as long as there is room. */
  lemma {:induction false} ReportedExactly(events: seq<Event>, max: nat, notes: seq<Note>, verdicts: seq<int>)
    requires |notes| == |verdicts|
    ensures var es := Requests(Failing(notes, verdicts));
      var room := if |events| < max then max - |events| else 0;
      Reported(events, max, notes, verdicts) == events + if |es| <= room then es else es[..room]
    decreases |notes|
  {
    if |events| >= max {
      FullStays(events, max, notes, verdicts);
    } else if notes != [] {
      var more := Failing(notes[1..], verdicts[1..]);
      if verdicts[0] < 0 {
        var e := CloseClient(notes[0].fd, notes[0].time);
        ReportedExactly(events + [e], max, notes[1..], verdicts[1..]);
        OneRequestMore(events, notes[0], more, max - |events|);
      } else {
        ReportedExactly(events, max, notes[1..], verdicts[1..]);
        assert [] + more == more;
      }
    }
  }

  lemma OneRequestMore(events: seq<Event>, n: Note, more: seq<Note>, room: nat)
    requires room > 0
    ensures var e, es, all := CloseClient(n.fd, n.time), Requests(more), Requests([n] + more);
      (events + [e]) + (if |es| <= room - 1 then es else es[..room - 1]) ==
      events + if |all| <= room then all else all[..room]
  {
    assert Requests([n] + more) == [CloseClient(n.fd, n.time)] + Requests(more);
  }

  lemma {:induction false} FullStays(events: seq<Event>, max: nat, notes: seq<Note>, verdicts: seq<int>)
    requires |notes| == |verdicts| && |events| >= max
    ensures Reported(events, max, notes, verdicts) == events
    decreases |notes|
  {
    if notes != [] {
      FullStays(events, max, notes[1..], verdicts[1..]);
    }
  }

  function OneNoteSteps(n: Note, verdict: int): seq<Step> {
    [Pop] + if verdict < 0 then [PostClose(n.fd, n.time)] else []
  }

  function WorkSteps(notes: seq<Note>, verdicts: seq<int>): seq<Step>
    requires |notes| == |verdicts|
    decreases |notes|
  {
    if notes == [] then []
    else OneNoteSteps(notes[0], verdicts[0]) + WorkSteps(notes[1..], verdicts[1..])
  }

  /** The state when every note has been taken and judged. */
  function Worked(s: State, max: nat, verdicts: seq<int>): State
    requires |verdicts| == |s.recvQ|
  {
    s.(recvQ := [], events := Reported(s.events, max, s.recvQ, verdicts),
       hist := s.hist.(popped := s.hist.popped + s.recvQ))
  }

  function Judged(s: State, max: nat, verdict: int): State
    requires s.recvQ != []
  {
    var n, t := s.recvQ[0], PopStep(s);
    if verdict < 0 && |s.events| < max then t.(events := s.events + [CloseClient(n.fd, n.time)]) else t
  }

  /** A worker's pass over the queue is a run of steps of the state machine. */
  lemma {:induction false} WorkIsSteps(s: State, cfg: Config, verdicts: seq<int>)
    requires cfg.Ok() && Sound(s) && |verdicts| == |s.recvQ|
    ensures ApplyAll(s, cfg, WorkSteps(s.recvQ, verdicts)) == Worked(s, cfg.maxEvents, verdicts)
    decreases |verdicts|
  {
    if s.recvQ == [] {
      assert s.hist.popped + [] == s.hist.popped;
    } else {
      var t := Judged(s, cfg.maxEvents, verdicts[0]);
      var first, rest := OneNoteSteps(s.recvQ[0], verdicts[0]), WorkSteps(s.recvQ[1..], verdicts[1..]);
      OneNote(s, cfg, verdicts[0]);
      ApplyAllAppend(s, cfg, first, rest);
      WorkIsSteps(t, cfg, verdicts[1..]);
      WorkedOn(s, cfg.maxEvents, verdicts);
    }
  }

  lemma WorkedOn(s: State, max: nat, verdicts: seq<int>)
    requires |verdicts| == |s.recvQ| > 0
    ensures var t := Judged(s, max, verdicts[0]);
      t.recvQ == s.recvQ[1..] && Worked(t, max, verdicts[1..]) == Worked(s, max, verdicts)
  {
    assert s.hist.popped + [s.recvQ[0]] + s.recvQ[1..] == s.hist.popped + s.recvQ;
  }

  lemma OneNote(s: State, cfg: Config, verdict: int)
    requires cfg.Ok() && Sound(s) && s.recvQ != []
    ensures ApplyAll(s, cfg, OneNoteSteps(s.recvQ[0], verdict)) == Judged(s, cfg.maxEvents, verdict)
    ensures Sound(Judged(s, cfg.maxEvents, verdict))
  {
    ApplyAllOne(s, cfg, Pop);
    if verdict < 0 {
      FailedNote(s, cfg, PostClose(s.recvQ[0].fd, s.recvQ[0].time));
    } else {
      assert [Pop] + [] == [Pop];
    }
  }

  lemma FailedNote(s: State, cfg: Config, post: Step)
    requires cfg.Ok() && Sound(s) && post.PostClose?
    ensures ApplyAll(s, cfg, [Pop] + [post]) == PostStep(PopStep(s), cfg, CloseClient(post.fd, post.time))
  {
    ApplyAllOne(s, cfg, Pop);
    ApplyAllAppend(s, cfg, [Pop], [post]);
    ApplyAllOne(PopStep(s), cfg, post);
  }

  /** The locks of such a pass: each taken alone, the receive queue's once more
      to find it empty. */
  function WorkOps(verdicts: seq<int>): seq<Op> {
    if verdicts == [] then Around(Lock.RecvQueue)
    else Around(Lock.RecvQueue) + (if verdicts[0] < 0 then Around(Lock.EventQueue) else []) + WorkOps(verdicts[1..])
  }

  lemma OneVerdictMore(events: seq<Event>, max: nat, all: seq<Note>, verdicts: seq<int>, i: nat, ops: seq<Op>)
    requires i < |all| == |verdicts|
    ensures var failed := verdicts[i] < 0;
      && Reported(events, max, all[i..], verdicts[i..]) ==
         Reported(if failed && |events| < max then events + [CloseClient(all[i].fd, all[i].time)] else events, max,
                  all[i + 1..], verdicts[i + 1..])
      && ops + WorkOps(verdicts[i..]) ==
         ops + (Around(Lock.RecvQueue) + if failed then Around(Lock.EventQueue) else []) + WorkOps(verdicts[i + 1..])
  {
    assert all[i..][1..] == all[i + 1..] && verdicts[i..][1..] == verdicts[i + 1..];
  }

  class WorkBaseThread {
    const mgr: GlobalMgr

    constructor (mgr: GlobalMgr)
      ensures this.mgr == mgr
    {
      this.mgr := mgr;
    }

    /** One note, if there is one. */
    method TakeOne(th: Thread, verdict: int) returns (data: Option<Note>)
      requires mgr.Valid() && th.Valid() && th.Held() == {}
      modifies mgr.recvQueue, mgr.eventQueue, th
      ensures mgr.Valid() && th.Valid() && th.Held() == {}
      ensures data.None? <==> old(mgr.recvQueue.data) == []
      ensures data.None? ==> mgr.recvQueue.data == [] && mgr.eventQueue.data == old(mgr.eventQueue.data)
      ensures data.None? ==> th.ops == old(th.ops) + Around(Lock.RecvQueue)
      ensures data.Some? ==> old(mgr.recvQueue.data) == [data.value] + mgr.recvQueue.data
      ensures data.Some? ==>
        mgr.eventQueue.data == (
          if verdict < 0 && |old(mgr.eventQueue.data)| < mgr.eventQueue.maxSize
          then old(mgr.eventQueue.data) + [CloseClient(data.value.fd, data.value.time)] else old(mgr.eventQueue.data))
      ensures data.Some? ==>
        th.ops == old(th.ops) + (Around(Lock.RecvQueue) + if verdict < 0 then Around(Lock.EventQueue) else [])
    {
      data := mgr.recvQueue.OutQueue(th, true);
      if data.Some? && verdict < 0 {
        var ok := mgr.CreateCloseConnectEvent(th, data.value.fd, data.value.time);
      }
    }

    /** The same for the i-th of all; what is then left to report and to lock. */
    method TakeNext(
        th: Thread, verdicts: seq<int>, i: nat, ghost all: seq<Note>, ghost reported: seq<Event>, ghost locks: seq<Op>)
      returns (data: Option<Note>)
      requires mgr.Valid() && th.Valid() && th.Held() == {}
      requires i <= |all| == |verdicts| && mgr.recvQueue.data == all[i..]
      requires reported == Reported(mgr.eventQueue.data, mgr.eventQueue.maxSize, all[i..], verdicts[i..])
      requires locks == th.ops + WorkOps(verdicts[i..])
      modifies mgr.recvQueue, mgr.eventQueue, th
      ensures mgr.Valid() && th.Valid() && th.Held() == {}
      ensures data == if i < |all| then Some(all[i]) else None
      ensures mgr.recvQueue.data == if i < |all| then all[i + 1..] else []
      ensures i < |all| ==>
        reported == Reported(mgr.eventQueue.data, mgr.eventQueue.maxSize, all[i + 1..], verdicts[i + 1..])
      ensures i < |all| ==> locks == th.ops + WorkOps(verdicts[i + 1..])
      ensures i == |all| ==> reported == mgr.eventQueue.data && locks == th.ops
    {
      ghost var queued, ops := mgr.eventQueue.data, th.ops;
      data := TakeOne(th, if i < |verdicts| then verdicts[i] else 0);
      if data.Some? {
        assert all[i..] == [all[i]] + all[i + 1..];
        OneVerdictMore(queued, mgr.eventQueue.maxSize, all, verdicts, i, ops);
      }
    }

    /** The inner loop of run: it takes notes until the queue is empty, and posts a
        close event for each that fails. */
    method Drain(th: Thread, verdicts: seq<int>) returns (taken: seq<Note>)
      requires mgr.Valid() && th.Valid() && th.Held() == {}
      requires |verdicts| == |mgr.recvQueue.data|
      modifies mgr.recvQueue, mgr.eventQueue, th
      ensures mgr.Valid() && th.Valid() && th.Held() == {}
      ensures taken == old(mgr.recvQueue.data) && mgr.recvQueue.data == []
      ensures mgr.eventQueue.data == Reported(old(mgr.eventQueue.data), mgr.eventQueue.maxSize, taken, verdicts)
      ensures th.ops == old(th.ops) + WorkOps(verdicts)
    {
      taken := [];
      var i, more := 0, true;
      ghost var all, events, max := mgr.recvQueue.data, mgr.eventQueue.data, mgr.eventQueue.maxSize;
      ghost var reported, locks := Reported(events, max, all, verdicts), th.ops + WorkOps(verdicts);
      assert all == all[0..] && verdicts[0..] == verdicts;
      while more
        invariant mgr.Valid() && th.Valid() && th.Held() == {}
        invariant i <= |all| && mgr.recvQueue.data == all[i..] && taken == all[..i] && (!more ==> i == |all|)
        invariant more ==> reported == Reported(mgr.eventQueue.data, max, all[i..], verdicts[i..])
        invariant more ==> locks == th.ops + WorkOps(verdicts[i..])
        invariant !more ==> reported == mgr.eventQueue.data && locks == th.ops
        decreases |all| - i, more
      {
        var data := TakeNext(th, verdicts, i, all, reported, locks);
        if data.None? {
          more := false;
        } else {
          taken := taken + [data.value];
          i := i + 1;
        }
      }
    }
  }
}
