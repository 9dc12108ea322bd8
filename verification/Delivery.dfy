/** How notes reach the workers: what each step does to the two queues on the
    way, and what the bounded one may refuse. */
module Delivery {
  import opened Bytes
  import opened Transfer
  import opened Engine
  import opened Runs
  import Codec
  import Framing

  /** The step makes these notes, if any, and nothing else happens on the way to
      the workers. */
  predicate Appends(s: State, t: State) {
    && s.hist.log <= t.hist.log && t.tmp == s.tmp + t.hist.log[|s.hist.log|..]
    && t.recvQ == s.recvQ && t.hist.popped == s.hist.popped && t.hist.dropped == s.hist.dropped
  }

  lemma AppendsTrans(s: State, t: State, u: State)
    requires Appends(s, t) && Appends(t, u)
    ensures Appends(s, u)
  {
    assert u.hist.log[|s.hist.log|..] == t.hist.log[|s.hist.log|..] + u.hist.log[|t.hist.log|..];
    Associate(s.tmp, t.hist.log[|s.hist.log|..], u.hist.log[|t.hist.log|..]);
  }

  lemma RecordAppends(s: State, t: State, notes: seq<Note>)
    requires t.tmp == s.tmp + notes && t.hist.log == s.hist.log + notes
    requires t.recvQ == s.recvQ && t.hist.popped == s.hist.popped && t.hist.dropped == s.hist.dropped
    ensures Appends(s, t)
  {
    assert t.hist.log[|s.hist.log|..] == notes;
  }

  lemma NothingAppended(s: State, t: State)
    requires t.tmp == s.tmp && t.hist.log == s.hist.log
    requires t.recvQ == s.recvQ && t.hist.popped == s.hist.popped && t.hist.dropped == s.hist.dropped
    ensures Appends(s, t)
  {
    assert s.tmp + [] == s.tmp && s.hist.log + [] == s.hist.log;
    RecordAppends(s, t, []);
  }

  lemma CloseAppends(s: State, fd: int)
    ensures Appends(s, CloseFd(s, fd))
  {
    if fd >= 0 && fd in s.table {
      var c := s.table[fd];
      RecordAppends(s, CloseFd(s, fd), [Note(c.gen, Disconnected, fd, c.time, c.ctype, NoticeOfEnd(c))]);
    } else {
      NothingAppended(s, CloseFd(s, fd));
    }
  }

  function NoticeOfEnd(c: Conn): seq<byte> {
    Codec.NoticeBytes(Codec.RS_DISCONNECTED, c.ctype)
  }

  lemma {:induction false} CloseEachAppends(s: State, order: seq<int>, due: set<int>)
    ensures Appends(s, CloseEach(s, order, due))
    decreases |order|
  {
    if order == [] {
      NothingAppended(s, s);
    } else {
      var t := if order[0] in due && order[0] in s.table then CloseFd(s, order[0]) else s;
      NothingAppended(s, s);
      CloseAppends(s, order[0]);
      CloseEachAppends(t, order[1..], due);
      AppendsTrans(s, t, CloseEach(t, order[1..], due));
    }
  }

  lemma AbsorbAppends(s: State, fd: int, bytes: seq<byte>, now: int)
    requires fd in s.table
    ensures Appends(s, Absorb(s, fd, bytes, now).0)
  {
    var t, c := Absorb(s, fd, bytes, now).0, s.table[fd];
    if bytes == [] {
      NothingAppended(s, t);
    } else {
      RecordAppends(s, t, DataNotes(c, fd, Framing.ParseWritten(c.part + bytes).packets));
    }
  }

  lemma {:induction false} ReadLoopAppends(s: State, cfg: Config, fd: int, script: seq<RecvReply>, now: int)
    requires cfg.Ok() && fd in s.table && |s.table[fd].part| < Framing.MAX_SEND_SIZE
    ensures Appends(s, ReadLoop(s, cfg, fd, script, now))
    decreases |script|
  {
    var r := RecvAll(cfg.recvRoom - |s.table[fd].part|, script);
    ReadLoopTurn(s, cfg, fd, script, now, r);
    if r.code < 0 {
      CloseAppends(s, fd);
    } else {
      var t, ok := Absorb(s, fd, r.bytes, now).0, Absorb(s, fd, r.bytes, now).1;
      AbsorbAppends(s, fd, r.bytes, now);
      if r.code == 0 || !ok {
        CloseAppends(t, fd);
        AppendsTrans(s, t, CloseFd(t, fd));
      } else if r.code == 2 {
        ReadLoopAppends(t, cfg, fd, r.rest, now);
        AppendsTrans(s, t, ReadLoop(t, cfg, fd, r.rest, now));
      }
    }
  }

  lemma AnnouncedAppends(s: State, fd: int, ctype: nat, t: State)
    requires t.tmp == Announce(s, fd, ctype).tmp && t.hist.log == Announce(s, fd, ctype).hist.log
    requires t.recvQ == s.recvQ && t.hist.popped == s.hist.popped && t.hist.dropped == s.hist.dropped
    ensures Appends(s, t)
  {
    var gen := s.issued + 1;
    RecordAppends(s, t, [Note(gen, Connected, fd, Stamp(gen), ctype, Codec.NoticeBytes(Codec.RS_CONNECTED, ctype))]);
  }

  lemma EventAppends(s: State, cfg: Config, ctlOk: bool, now: int)
    ensures Appends(s, EventStep(s, cfg, ctlOk, now))
  {
    if s.events == [] {
      NothingAppended(s, s);
    } else {
      var p := s.(events := s.events[1..]);
      match s.events[0]
      case CloseClient(fd, _) => CloseAppends(p, fd);
      case AddClient(fd, ctype) => AnnouncedAppends(p, fd, ctype, EventStep(s, cfg, ctlOk, now));
    }
  }

  lemma AcceptAppends(s: State, cfg: Config, fd: int, setupOk: bool, ctlOk: bool, now: int)
    ensures Appends(s, AcceptStep(s, cfg, fd, setupOk, ctlOk, now))
  {
    if fd < 0 || !setupOk {
      NothingAppended(s, s);
    } else {
      AnnouncedAppends(s, fd, CLIENT_TYPE, AcceptStep(s, cfg, fd, setupOk, ctlOk, now));
    }
  }

  lemma ReadAppends(s: State, cfg: Config, fd: int, gen: nat, script: seq<RecvReply>, now: int)
    requires cfg.Ok() && Sound(s)
    ensures Appends(s, ReadStep(s, cfg, fd, gen, script, now))
  {
    if fd !in s.table || s.table[fd].gen != gen {
      CloseAppends(s, fd);
    } else {
      ReadLoopAppends(s, cfg, fd, script, now);
    }
  }

  lemma WriteAppends(s: State, fd: int, script: seq<SendReply>, modOk: bool)
    ensures Appends(s, WriteStep(s, fd, script, modOk))
  {
    var t := SendQueued(s, fd, script).0;
    NothingAppended(s, t);
    CloseAppends(t, fd);
    AppendsTrans(s, t, CloseFd(t, fd));
  }

  /** A flush appends the first k waiting notes to the workers' queue and counts
      the rest as refused; and refuses none unless the queue is then full. */
  predicate Hands(s: State, t: State, cfg: Config, k: nat) {
    && k <= |s.tmp| && t.recvQ == s.recvQ + s.tmp[..k] && t.tmp == [] && t.hist.popped == s.hist.popped
    && t.hist.log == s.hist.log && t.hist.dropped == s.hist.dropped + |s.tmp| - k
    && (k < |s.tmp| ==> |t.recvQ| >= cfg.maxRecv) && (k > 0 ==> |t.recvQ| <= cfg.maxRecv)
  }

  predicate Pops(s: State, t: State)
    requires s.recvQ != []
  {
    && t.recvQ == s.recvQ[1..] && t.hist.popped == s.hist.popped + [s.recvQ[0]] && t.tmp == s.tmp
    && t.hist.log == s.hist.log && t.hist.dropped == s.hist.dropped
  }

  /** On the way to the workers every step of every thread does one of three things:
      a flush hands over, a worker takes the oldest note, any other step makes notes. */
  lemma StepMovesNotes(s: State, cfg: Config, step: Step) returns (k: nat)
    requires cfg.Ok() && Sound(s)
    ensures var t := Apply(s, cfg, step);
      if step.Flush? then Hands(s, t, cfg, k)
      else if step.Pop? && s.recvQ != [] then Pops(s, t)
      else Appends(s, t)
  {
    k := Min(|s.tmp|, if |s.recvQ| < cfg.maxRecv then cfg.maxRecv - |s.recvQ| else 0);
    match step
    case Accept(fd, setupOk, ctlOk, now) => AcceptAppends(s, cfg, fd, setupOk, ctlOk, now);
    case Readable(fd, gen, recvs, now) => ReadAppends(s, cfg, fd, gen, recvs, now);
    case Writable(fd, sends, modOk) => WriteAppends(s, fd, sends, modOk);
    case PollError(fd) => CloseAppends(s, fd);
    case SystemEvent(ctlOk, now) => EventAppends(s, cfg, ctlOk, now);
    case Scan(refused) =>
      NothingAppended(s, Trim(s, refused));
      CloseEachAppends(Trim(s, refused), refused, Refused(s, refused));
      AppendsTrans(s, Trim(s, refused), ScanStep(s, refused));
    case Expire(order, now) => CloseEachAppends(s, order, Silent(s, cfg, now));
    case Flush =>
    case Pop =>
      if s.recvQ == [] {
        NothingAppended(s, s);
      }
    case _ => NothingAppended(s, Apply(s, cfg, step));
  }

  /** So a note is refused exactly by a flush that finds more notes waiting than the
      queue has room for. */
  predicate Short(s: State, cfg: Config, step: Step) {
    step.Flush? && s.tmp != [] && |s.recvQ| + |s.tmp| > cfg.maxRecv
  }

  lemma RefusesExactly(s: State, cfg: Config, step: Step)
    requires cfg.Ok() && Sound(s)
    ensures var t := Apply(s, cfg, step);
      t.hist.dropped >= s.hist.dropped && (t.hist.dropped > s.hist.dropped <==> Short(s, cfg, step))
  {
    var k := StepMovesNotes(s, cfg, step);
  }

  ghost predicate ShortIn(open: set<int>, cfg: Config, steps: seq<Step>)
    requires cfg.Ok()
  {
    exists k :: 0 <= k < |steps| && Short(Run(open, cfg, steps[..k]), cfg, steps[k])
  }

  lemma ShortInOneMore(open: set<int>, cfg: Config, steps: seq<Step>, last: Step)
    requires cfg.Ok()
    ensures ShortIn(open, cfg, steps + [last]) <==> ShortIn(open, cfg, steps) || Short(Run(open, cfg, steps), cfg, last)
  {
    var all := steps + [last];
    assert all[..|steps|] == steps;
    assert forall j :: 0 <= j < |steps| ==> all[..j] == steps[..j];
    if ShortIn(open, cfg, steps) {
      var k :| 0 <= k < |steps| && Short(Run(open, cfg, steps[..k]), cfg, steps[k]);
      assert Short(Run(open, cfg, all[..k]), cfg, all[k]);
    }
    if Short(Run(open, cfg, steps), cfg, last) {
      assert Short(Run(open, cfg, all[..|steps|]), cfg, all[|steps|]);
    }
  }

  /** a without some of its elements. */
  predicate Within(a: seq<Note>, b: seq<Note>) {
    if a == [] then true
    else if b == [] then false
    else
      var b' := b[..|b| - 1];
      (a[|a| - 1] == b[|b| - 1] && Within(a[..|a| - 1], b')) || Within(a, b')
  }

  lemma {:induction false} WithinFewer(a: seq<Note>, b: seq<Note>)
    requires a != [] && Within(a, b)
    ensures Within(a[..|a| - 1], b)
    decreases |b|
  {
    var b' := b[..|b| - 1];
    if Within(a, b') {
      WithinFewer(a, b');
    }
  }

  lemma {:induction false} WithinPrefix(a: seq<Note>, b: seq<Note>, n: nat)
    requires n <= |a| && Within(a, b)
    ensures Within(a[..n], b)
    decreases |a|
  {
    if n == |a| {
      assert a[..n] == a;
    } else {
      WithinFewer(a, b);
      WithinPrefix(a[..|a| - 1], b, n);
      assert a[..|a| - 1][..n] == a[..n];
    }
  }

  lemma {:induction false} WithinGrows(a: seq<Note>, b: seq<Note>, more: seq<Note>)
    requires Within(a, b)
    ensures Within(a + more, b + more)
    decreases |more|
  {
    if more == [] {
      assert a + more == a && b + more == b;
    } else {
      var less := more[..|more| - 1];
      WithinGrows(a, b, less);
      assert (a + more)[..|a + more| - 1] == a + less && (b + more)[..|b + more| - 1] == b + less;
    }
  }

  /** What the workers took, what waits for them, and what is on its way, in order. */
  function Delivered(s: State): seq<Note> {
    s.hist.popped + s.recvQ + s.tmp
  }

  lemma DeliveredFollows(s: State, cfg: Config, step: Step)
    requires cfg.Ok() && Sound(s) && Within(Delivered(s), s.hist.log)
    ensures Within(Delivered(Apply(s, cfg, step)), Apply(s, cfg, step).hist.log)
  {
    var t := Apply(s, cfg, step);
    var k := StepMovesNotes(s, cfg, step);
    if step.Flush? {
      HandedIsPrefix(s, t, cfg, k);
      WithinPrefix(Delivered(s), s.hist.log, |Delivered(t)|);
    } else if step.Pop? && s.recvQ != [] {
      TakenIsSame(s, t);
    } else {
      var more := t.hist.log[|s.hist.log|..];
      WithinGrows(Delivered(s), s.hist.log, more);
      Associate(s.hist.popped + s.recvQ, s.tmp, more);
      assert t.hist.log == s.hist.log + more;
    }
  }

  lemma HandedIsPrefix(s: State, t: State, cfg: Config, k: nat)
    requires Hands(s, t, cfg, k)
    ensures |Delivered(t)| <= |Delivered(s)| && Delivered(t) == Delivered(s)[..|Delivered(t)|]
  {
    Associate(s.hist.popped, s.recvQ, s.tmp[..k]);
    assert Delivered(t) == s.hist.popped + s.recvQ + s.tmp[..k];
  }

  lemma TakenIsSame(s: State, t: State)
    requires s.recvQ != [] && Pops(s, t)
    ensures Delivered(t) == Delivered(s)
  {
    assert [s.recvQ[0]] + s.recvQ[1..] == s.recvQ;
    Associate(s.hist.popped, [s.recvQ[0]], s.recvQ[1..]);
  }

  /** Over every run: the workers take a part of what was announced, in order; all of
      it is accounted for; and nothing is missing exactly when no flush found the
      queue short of room. */
  lemma {:induction false} NotesArrive(open: set<int>, cfg: Config, steps: seq<Step>)
    requires cfg.Ok()
    ensures var s := Run(open, cfg, steps);
      && Within(Delivered(s), s.hist.log) && |Delivered(s)| + s.hist.dropped == |s.hist.log|
      && (s.hist.dropped == 0 <==> !ShortIn(open, cfg, steps))
      && (!ShortIn(open, cfg, steps) ==> Delivered(s) == s.hist.log)
  {
    DeliveryOverRuns(open, cfg, steps);
    if steps != [] {
      var init, last := steps[..|steps| - 1], steps[|steps| - 1];
      assert steps == init + [last];
      NotesArrive(open, cfg, init);
      ShortInOneMore(open, cfg, init, last);
      RefusesExactly(Run(open, cfg, init), cfg, last);
      DeliveredFollows(Run(open, cfg, init), cfg, last);
    }
  }
}
