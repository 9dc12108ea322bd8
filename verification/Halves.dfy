/** Serving ADD_CLIENT takes the event loop two actions: stamp, announcement and
    key first, the table afterwards. What other threads do in between might as
    well have come after both. */
module Halves {
  import opened Bytes
  import opened SendPath
  import opened Engine
  import opened Runs
  import opened Wires
  import opened Keys

  /** Steps of threads other than the event loop. */
  predicate Elsewhere(step: Step) {
    || step.Enqueue? || step.PostClose? || step.Pop?
    || step.ConnectorOpen? || step.ConnectorGiveUp? || step.ConnectorPost?
  }

  /** The kernel does not give out the descriptor that is about to be closed. */
  predicate Undisturbed(step: Step, added: bool, fd: int) {
    Elsewhere(step) && (step.ConnectorOpen? ==> added || step.fd != fd)
  }

  lemma OneCommutes(s: State, cfg: Config, step: Step, fd: int, ctype: nat, ctlOk: bool, now: int)
    requires cfg.Ok() && Sound(s) && Undisturbed(step, CanInsert(s, cfg, fd, ctlOk), fd)
    ensures CanInsert(Apply(s, cfg, step), cfg, fd, ctlOk) == CanInsert(s, cfg, fd, ctlOk)
    ensures Admit(Apply(s, cfg, step), cfg, fd, ctype, ctlOk, now)
         == Apply(Admit(s, cfg, fd, ctype, ctlOk, now), cfg, step)
  {
    var t := Apply(s, cfg, step);
    match step
    case ConnectorOpen(c, f, _) => assert s.fds.open + {f} - {fd} == s.fds.open - {fd} + {f} || f == fd;
    case ConnectorGiveUp(c) =>
      assert c in s.fds.connecting ==>
        s.fds.open - {s.fds.connecting[c].fd} - {fd} == s.fds.open - {fd} - {s.fds.connecting[c].fd};
    case ConnectorPost(c, _) =>
      assert c in s.fds.connecting ==>
        s.fds.open - {s.fds.connecting[c].fd} - {fd} == s.fds.open - {fd} - {s.fds.connecting[c].fd};
    case _ =>
  }

  lemma {:induction false} AllCommute(
    s: State, cfg: Config, others: seq<Step>, fd: int, ctype: nat, ctlOk: bool, now: int)
    requires cfg.Ok() && Sound(s)
    requires forall i :: 0 <= i < |others| ==> Undisturbed(others[i], CanInsert(s, cfg, fd, ctlOk), fd)
    ensures CanInsert(ApplyAll(s, cfg, others), cfg, fd, ctlOk) == CanInsert(s, cfg, fd, ctlOk)
    ensures Admit(ApplyAll(s, cfg, others), cfg, fd, ctype, ctlOk, now)
         == ApplyAll(Admit(s, cfg, fd, ctype, ctlOk, now), cfg, others)
    decreases |others|
  {
    if others != [] {
      var k := |others| - 1;
      AllCommute(s, cfg, others[..k], fd, ctype, ctlOk, now);
      OneCommutes(ApplyAll(s, cfg, others[..k]), cfg, others[k], fd, ctype, ctlOk, now);
    }
  }

  /** After the first half. */
  function Between(s: State): State
    requires s.events != [] && s.events[0].AddClient?
  {
    Welcome(s.(events := s.events[1..]), s.events[0].fd, s.events[0].ctype)
  }

  /** Whatever other threads do between the halves, the outcome is that of serving
      the event in one step and letting them act afterwards. */
  lemma HalvesAreOneStep(s: State, cfg: Config, others: seq<Step>, ctlOk: bool, now: int)
    requires cfg.Ok() && Sound(s) && s.events != [] && s.events[0].AddClient?
    requires forall i :: 0 <= i < |others| ==>
      Undisturbed(others[i], CanInsert(s, cfg, s.events[0].fd, ctlOk), s.events[0].fd)
    ensures Admit(ApplyAll(Between(s), cfg, others), cfg, s.events[0].fd, s.events[0].ctype, ctlOk, now)
         == ApplyAll(EventStep(s, cfg, ctlOk, now), cfg, others)
  {
    AllCommute(Between(s), cfg, others, s.events[0].fd, s.events[0].ctype, ctlOk, now);
  }

  lemma RunThenAll(open: set<int>, cfg: Config, steps: seq<Step>, more: seq<Step>)
    requires cfg.Ok()
    ensures Run(open, cfg, steps + more) == ApplyAll(Run(open, cfg, steps), cfg, more)
    decreases |more|
  {
    if more == [] {
      assert steps + more == steps;
    } else {
      var init := more[..|more| - 1];
      RunThenAll(open, cfg, steps, init);
      RunOn(open, cfg, steps + init, more[|more| - 1]);
      assert (steps + init) + [more[|more| - 1]] == steps + more;
    }
  }

  /** Such an execution therefore ends as a run does, and a message that somebody
      sent meanwhile by a server key, the new one included, is honestly addressed
      in that run. */
  lemma BetweenTheHalves(
    open: set<int>, cfg: Config, steps: seq<Step>, others: seq<Step>, ctlOk: bool, now: int, t: nat, bytes: seq<byte>)
    requires cfg.Ok() && Run(open, cfg, steps).events != [] && Run(open, cfg, steps).events[0].AddClient?
    requires var s := Run(open, cfg, steps);
      forall i :: 0 <= i < |others| ==>
        Undisturbed(others[i], CanInsert(s, cfg, s.events[0].fd, ctlOk), s.events[0].fd)
    ensures var s := Run(open, cfg, steps);
      var mid, end := ApplyAll(Between(s), cfg, others), Run(open, cfg, steps + [SystemEvent(ctlOk, now)] + others);
      && Admit(mid, cfg, s.events[0].fd, s.events[0].ctype, ctlOk, now) == end
      && (t in mid.keys ==> Honest(end, Msg(mid.keys[t].gen, mid.keys[t].fd, mid.keys[t].time, bytes)))
  {
    var s, all := Run(open, cfg, steps), steps + [SystemEvent(ctlOk, now)];
    HalvesAreOneStep(s, cfg, others, ctlOk, now);
    RunOn(open, cfg, steps, SystemEvent(ctlOk, now));
    RunThenAll(open, cfg, all, others);
    if t in Run(open, cfg, all + others).keys {
      ServerMessagesAreHonest(open, cfg, all + others, t, bytes);
    }
  }
}
