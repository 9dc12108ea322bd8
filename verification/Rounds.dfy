/** What one round of the event loop has done when it comes to its later phases. */
module Rounds {
  import opened Engine
  import opened Runs
  import opened Delivery
  import opened EpollThreads

  // ----- Every event is served, in order ----------------------------------

  lemma {:induction false} AcceptStepsAre(replies: seq<AcceptReply>, n: nat)
    requires n <= |replies| && (n < |replies| ==> replies[n].fd < 0)
    requires forall i :: 0 <= i < n ==> replies[i].fd >= 0
    ensures |AcceptSteps(replies)| == n
    ensures forall i :: 0 <= i < n ==>
      AcceptSteps(replies)[i] == Accept(replies[i].fd, replies[i].setupOk, replies[i].ctlOk, replies[i].now)
  {
    if n > 0 {
      AcceptStepsAre(replies[1..], n - 1);
    }
  }

  lemma {:induction false} EventStepsAre(adds: seq<AddReply>)
    ensures |EventSteps(adds)| == |adds|
    ensures forall i :: 0 <= i < |adds| ==> EventSteps(adds)[i] == SystemEvent(adds[i].ctlOk, adds[i].now)
  {
    if adds != [] {
      EventStepsAre(adds[1..]);
    }
  }

  /** Each ready descriptor gets the one step that belongs to it, and the listening
      one a step for each connection that accept() gives. */
  predicate StepsOf(r: Ready, now: int, steps: seq<Step>) {
    match r
    case Listening(accepts) => steps == AcceptSteps(accepts)
    case In(fd, gen, recvs) => steps == [Readable(fd, gen, recvs, now)]
    case Out(fd, sends, modOk) => steps == [Writable(fd, sends, modOk)]
    case Broken(fd) => steps == [PollError(fd)]
  }

  lemma {:induction false} ServedInOrder(ready: seq<Ready>, i: nat, now: int) returns (steps: seq<Step>)
    requires i < |ready|
    ensures StepsOf(ready[i], now, steps)
    ensures AllReadySteps(ready[..i], now) + steps <= AllReadySteps(ready, now)
    ensures i == |ready| - 1 ==> AllReadySteps(ready[..i], now) + steps == AllReadySteps(ready, now)
    decreases |ready|
  {
    var k := |ready| - 1;
    if i == k {
      steps := ReadySteps(ready[k], now);
    } else {
      steps := ServedInOrder(ready[..k], i, now);
      assert ready[..k][..i] == ready[..i];
      StillPrefix(AllReadySteps(ready[..i], now) + steps, AllReadySteps(ready[..k], now), ReadySteps(ready[k], now));
    }
  }

  lemma StillPrefix(a: seq<Step>, b: seq<Step>, c: seq<Step>)
    requires a <= b
    ensures a <= b + c
  {}

  // ----- What is then done ------------------------------------------------

  /** No event is left, the front map is empty, and the notes made before the events
      were served have gone to the workers, as far as their queue had room. */
  ghost predicate PhasesDone(s: State, mid: State, t: State, cfg: Config, k: nat) {
    && t.events == [] && t.out.front == map[] && Appends(s, mid) && k <= |mid.tmp|
    && t.recvQ == s.recvQ + mid.tmp[..k] && (k < |mid.tmp| ==> |t.recvQ| >= cfg.maxRecv)
    && mid.hist.log <= t.hist.log && t.tmp == t.hist.log[|mid.hist.log|..]
    && t.hist.dropped == s.hist.dropped + |mid.tmp| - k && t.hist.popped == s.hist.popped
  }

  lemma StepAppends(s: State, cfg: Config, step: Step)
    requires cfg.Ok() && Sound(s) && !step.Flush? && !step.Pop?
    ensures Appends(s, Apply(s, cfg, step))
  {
    var k := StepMovesNotes(s, cfg, step);
  }

  lemma {:induction false} StepsAppend(s: State, cfg: Config, steps: seq<Step>)
    requires cfg.Ok() && Sound(s) && forall i :: 0 <= i < |steps| ==> !steps[i].Flush? && !steps[i].Pop?
    ensures Appends(s, ApplyAll(s, cfg, steps))
    decreases |steps|
  {
    if steps == [] {
      NothingAppended(s, s);
    } else {
      var k := |steps| - 1;
      StepsAppend(s, cfg, steps[..k]);
      StepAppends(ApplyAll(s, cfg, steps[..k]), cfg, steps[k]);
      AppendsTrans(s, ApplyAll(s, cfg, steps[..k]), ApplyAll(s, cfg, steps));
    }
  }

  lemma {:induction false} ReadyStepsAppend(ready: seq<Ready>, now: int)
    ensures forall i :: 0 <= i < |AllReadySteps(ready, now)| ==>
      var step := AllReadySteps(ready, now)[i]; step.Accept? || step.Readable? || step.Writable? || step.PollError?
    decreases |ready|
  {
    if ready != [] {
      var k := |ready| - 1;
      ReadyStepsAppend(ready[..k], now);
      if ready[k].Listening? {
        AcceptsOnly(ready[k].accepts);
      }
    }
  }

  lemma {:induction false} AcceptsOnly(replies: seq<AcceptReply>)
    ensures forall i :: 0 <= i < |AcceptSteps(replies)| ==> AcceptSteps(replies)[i].Accept?
  {
    if replies != [] {
      AcceptsOnly(replies[1..]);
    }
  }

  /** Each event served is one fewer. */
  lemma {:induction false} EventsServed(s: State, cfg: Config, adds: seq<AddReply>)
    requires cfg.Ok() && Sound(s) && |adds| == |s.events|
    ensures ApplyAll(s, cfg, EventSteps(adds)).events == []
    decreases |adds|
  {
    if adds != [] {
      var step := SystemEvent(adds[0].ctlOk, adds[0].now);
      ApplyAllOne(s, cfg, step);
      ApplyAllAppend(s, cfg, [step], EventSteps(adds[1..]));
      OneEventLess(s, cfg, adds[0].ctlOk, adds[0].now);
      EventsServed(Apply(s, cfg, step), cfg, adds[1..]);
    }
  }

  lemma SwitchedDone(v: State, cfg: Config)
    ensures var t := SwitchStep(v, cfg);
      && t.out.front == map[] && t.events == v.events && t.tmp == v.tmp && t.recvQ == v.recvQ
      && t.hist.log == v.hist.log && t.hist.dropped == v.hist.dropped && t.hist.popped == v.hist.popped
  {}

  lemma HandedAndServed(s: State, mid: State, u: State, v: State, t: State, cfg: Config, k: nat)
    requires Appends(s, mid) && Hands(mid, u, cfg, k) && Appends(u, v) && v.events == []
    requires t == SwitchStep(v, cfg)
    ensures PhasesDone(s, mid, t, cfg, k)
  {
    SwitchedDone(v, cfg);
    assert [] + v.hist.log[|u.hist.log|..] == v.hist.log[|u.hist.log|..];
  }

  lemma PhasesAreDone(s: State, cfg: Config, ready: seq<Ready>, adds: seq<AddReply>, now: int)
      returns (mid: State, k: nat)
    requires cfg.Ok() && Sound(s) && |adds| == |ApplyAll(s, cfg, AllReadySteps(ready, now)).events|
    ensures mid == ApplyAll(s, cfg, AllReadySteps(ready, now))
    ensures PhasesDone(s, mid, ApplyAll(s, cfg, UntilSwitch(ready, adds, now)), cfg, k)
  {
    var first := AllReadySteps(ready, now);
    mid := ApplyAll(s, cfg, first);
    ReadyStepsAppend(ready, now);
    StepsAppend(s, cfg, first);
    var u := Apply(mid, cfg, Flush);
    k := StepMovesNotes(mid, cfg, Flush);
    var v := ApplyAll(u, cfg, EventSteps(adds));
    EventStepsAre(adds);
    StepsAppend(u, cfg, EventSteps(adds));
    EventsServed(u, cfg, adds);
    HandedAndServed(s, mid, u, v, SwitchStep(v, cfg), cfg, k);
    InTurn(s, cfg, first, adds);
  }

  lemma InTurn(s: State, cfg: Config, first: seq<Step>, adds: seq<AddReply>)
    requires cfg.Ok() && Sound(s)
    ensures ApplyAll(s, cfg, first + [Flush] + EventSteps(adds) + [Step.SwitchMaps]) ==
      SwitchStep(ApplyAll(Apply(ApplyAll(s, cfg, first), cfg, Flush), cfg, EventSteps(adds)), cfg)
  {
    var mid := ApplyAll(s, cfg, first);
    ApplyAllOne(mid, cfg, Flush);
    ApplyAllAppend(s, cfg, first, [Flush]);
    ApplyAllAppend(s, cfg, first + [Flush], EventSteps(adds));
    var v := ApplyAll(Apply(mid, cfg, Flush), cfg, EventSteps(adds));
    ApplyAllOne(v, cfg, Step.SwitchMaps);
    ApplyAllAppend(s, cfg, first + [Flush] + EventSteps(adds), [Step.SwitchMaps]);
  }
}
