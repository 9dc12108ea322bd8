/** The capacities: what every run keeps within them, and when something is turned
    away for want of room. */
module Limits {
  import opened Framing
  import opened Transfer
  import opened SendPath
  import opened Engine
  import opened Runs

  /** A list takes its first message whatever the limit. */
  function Cap(cfg: Config): nat {
    if cfg.maxSend == 0 then 1 else cfg.maxSend
  }

  ghost predicate Within(s: State, cfg: Config) {
    && |s.table| <= cfg.maxTable && |s.events| <= cfg.maxEvents && |s.recvQ| <= cfg.maxRecv
    && (forall fd :: |Messages(s.out.front, fd)| <= Cap(cfg))
  }

  lemma CloseKeepsSize(s: State, fd: int)
    ensures |CloseFd(s, fd).table| <= |s.table|
  {
    Fewer(s.table, CloseFd(s, fd).table);
  }

  lemma Fewer(m: map<int, Conn>, n: map<int, Conn>)
    requires n.Keys <= m.Keys
    ensures |n| <= |m|
  {
    FewerKeys(m.Keys, n.Keys);
    assert |m| == |m.Keys| && |n| == |n.Keys|;
  }

  lemma FewerKeys(a: set<int>, b: set<int>)
    requires b <= a
    ensures |b| <= |a|
  {
    assert a == b + (a - b);
  }

  /** Other limits are untouched, and the table does not grow. */
  predicate NoMore(s: State, t: State) {
    && t.table.Keys <= s.table.Keys && t.recvQ == s.recvQ && t.out.front == s.out.front
    && (t.events == s.events || (s.events != [] && t.events == s.events[1..]))
  }

  lemma NoMoreKeeps(s: State, t: State, cfg: Config)
    requires Within(s, cfg) && NoMore(s, t)
    ensures Within(t, cfg)
  {
    Fewer(s.table, t.table);
  }

  lemma {:induction false} CloseEachNoMore(s: State, order: seq<int>, due: set<int>)
    ensures NoMore(s, CloseEach(s, order, due)) && CloseEach(s, order, due).events == s.events
    decreases |order|
  {
    if order != [] {
      CloseEachNoMore(if order[0] in due && order[0] in s.table then CloseFd(s, order[0]) else s, order[1..], due);
    }
  }

  lemma {:induction false} ReadLoopNoMore(s: State, cfg: Config, fd: int, script: seq<RecvReply>, now: int)
    requires cfg.Ok() && fd in s.table && |s.table[fd].part| < MAX_SEND_SIZE
    ensures var t := ReadLoop(s, cfg, fd, script, now); NoMore(s, t) && t.events == s.events
    decreases |script|
  {
    var r := RecvAll(cfg.recvRoom - |s.table[fd].part|, script);
    ReadLoopTurn(s, cfg, fd, script, now, r);
    if r.code == 2 {
      var t, ok := Absorb(s, fd, r.bytes, now).0, Absorb(s, fd, r.bytes, now).1;
      if ok {
        ReadLoopNoMore(t, cfg, fd, r.rest, now);
      }
    }
  }

  lemma InsertKeepsWithin(s: State, cfg: Config, fd: int, ctype: nat, now: int)
    requires Within(s, cfg) && |s.table| < cfg.maxTable
    ensures Within(Insert(s, fd, ctype, now), cfg)
  {
    var t := Insert(s, fd, ctype, now);
    assert t.table.Keys == s.table.Keys + {fd};
    assert |t.table| == |t.table.Keys| && |s.table| == |s.table.Keys|;
    assert fd in s.table.Keys ==> s.table.Keys + {fd} == s.table.Keys;
  }

  lemma EventKeepsWithin(s: State, cfg: Config, ctlOk: bool, now: int)
    requires Within(s, cfg)
    ensures Within(EventStep(s, cfg, ctlOk, now), cfg)
  {
    if s.events != [] && s.events[0].AddClient? {
      var fd, ctype := s.events[0].fd, s.events[0].ctype;
      var t := Welcome(s.(events := s.events[1..]), fd, ctype);
      NoMoreKeeps(s, t, cfg);
      if CanInsert(t, cfg, fd, ctlOk) {
        InsertKeepsWithin(t, cfg, fd, ctype, now);
      }
    } else {
      NoMoreKeeps(s, EventStep(s, cfg, ctlOk, now), cfg);
    }
  }

  lemma AcceptKeepsWithin(s: State, cfg: Config, fd: int, setupOk: bool, ctlOk: bool, now: int)
    requires Within(s, cfg)
    ensures Within(AcceptStep(s, cfg, fd, setupOk, ctlOk, now), cfg)
  {
    var t := Announce(s, fd, CLIENT_TYPE);
    if fd >= 0 && setupOk && CanInsert(t, cfg, fd, ctlOk) {
      InsertKeepsWithin(OpenFd(t, fd), cfg, fd, CLIENT_TYPE, now);
    }
  }

  lemma EnqueueKeepsWithin(s: State, cfg: Config, m: Msg)
    requires Within(s, cfg)
    ensures Within(EnqueueStep(s, cfg, m), cfg)
  {
    var front := AddMsg(s.out.front, cfg.maxSend, m).0;
    forall fd ensures |Messages(front, fd)| <= Cap(cfg) {
      assert |Messages(s.out.front, fd)| <= Cap(cfg);
    }
  }

  lemma SwitchKeepsWithin(s: State, cfg: Config)
    requires Within(s, cfg)
    ensures Within(SwitchStep(s, cfg), cfg)
  {
    var t := SwitchStep(s, cfg);
    forall fd ensures |Messages(t.out.front, fd)| <= Cap(cfg) {
      assert |Messages(s.out.front, fd)| <= Cap(cfg);
    }
  }

  lemma ReadKeepsWithin(s: State, cfg: Config, fd: int, gen: nat, script: seq<RecvReply>, now: int)
    requires cfg.Ok() && Sound(s) && Within(s, cfg)
    ensures Within(ReadStep(s, cfg, fd, gen, script, now), cfg)
  {
    if fd in s.table && s.table[fd].gen == gen {
      ReadLoopNoMore(s, cfg, fd, script, now);
    }
    NoMoreKeeps(s, ReadStep(s, cfg, fd, gen, script, now), cfg);
  }

  lemma StepKeepsWithin(s: State, cfg: Config, step: Step)
    requires cfg.Ok() && Sound(s) && Within(s, cfg)
    ensures Within(Apply(s, cfg, step), cfg)
  {
    if step.Accept? || step.SystemEvent? || step.Enqueue? || step.SwitchMaps? {
      GrowthKeepsWithin(s, cfg, step);
    } else if step.Readable? || step.Writable? || step.PollError? || step.Scan? || step.Expire? {
      ClosingKeepsWithin(s, cfg, step);
    } else {
      QueuesKeepWithin(s, cfg, step);
    }
  }

  lemma GrowthKeepsWithin(s: State, cfg: Config, step: Step)
    requires cfg.Ok() && Sound(s) && Within(s, cfg)
    requires step.Accept? || step.SystemEvent? || step.Enqueue? || step.SwitchMaps?
    ensures Within(Apply(s, cfg, step), cfg)
  {
    match step
    case Accept(fd, setupOk, ctlOk, now) => AcceptKeepsWithin(s, cfg, fd, setupOk, ctlOk, now);
    case SystemEvent(ctlOk, now) => EventKeepsWithin(s, cfg, ctlOk, now);
    case Enqueue(m) => EnqueueKeepsWithin(s, cfg, m);
    case SwitchMaps => SwitchKeepsWithin(s, cfg);
  }

  lemma ClosingKeepsWithin(s: State, cfg: Config, step: Step)
    requires cfg.Ok() && Sound(s) && Within(s, cfg)
    requires step.Readable? || step.Writable? || step.PollError? || step.Scan? || step.Expire?
    ensures Within(Apply(s, cfg, step), cfg)
  {
    match step
    case Readable(fd, gen, recvs, now) => ReadKeepsWithin(s, cfg, fd, gen, recvs, now);
    case Scan(refused) => ScanKeepsWithin(s, cfg, refused);
    case Expire(order, now) => ExpireKeepsWithin(s, cfg, order, Silent(s, cfg, now));
    case Writable(fd, sends, modOk) => WriteKeepsWithin(s, cfg, fd, sends, modOk);
    case PollError(fd) => NoMoreKeeps(s, CloseFd(s, fd), cfg);
  }

  lemma ScanKeepsWithin(s: State, cfg: Config, refused: seq<int>)
    requires Within(s, cfg)
    ensures Within(ScanStep(s, refused), cfg)
  {
    CloseEachNoMore(Trim(s, refused), refused, Refused(s, refused));
    NoMoreKeeps(s, ScanStep(s, refused), cfg);
  }

  lemma ExpireKeepsWithin(s: State, cfg: Config, order: seq<int>, due: set<int>)
    requires Within(s, cfg)
    ensures Within(CloseEach(s, order, due), cfg)
  {
    CloseEachNoMore(s, order, due);
    NoMoreKeeps(s, CloseEach(s, order, due), cfg);
  }

  lemma WriteKeepsWithin(s: State, cfg: Config, fd: int, sends: seq<SendReply>, modOk: bool)
    requires Within(s, cfg)
    ensures Within(WriteStep(s, fd, sends, modOk), cfg)
  {
    var t := SendQueued(s, fd, sends).0;
    NoMoreKeeps(s, t, cfg);
    NoMoreKeeps(t, CloseFd(t, fd), cfg);
  }

  lemma QueuesKeepWithin(s: State, cfg: Config, step: Step)
    requires cfg.Ok() && Sound(s) && Within(s, cfg)
    requires step.Flush? || step.Pop? || step.PostClose?
             || step.ConnectorOpen? || step.ConnectorGiveUp? || step.ConnectorPost?
    ensures Within(Apply(s, cfg, step), cfg)
  {
    var t := Apply(s, cfg, step);
    assert t.table == s.table && t.out == s.out;
  }

  /** No run outgrows the table, the event queue, the workers' queue or a front list. */
  lemma {:induction false} LimitsOverRuns(open: set<int>, cfg: Config, steps: seq<Step>)
    requires cfg.Ok()
    ensures Within(Run(open, cfg, steps), cfg)
  {
    if steps != [] {
      var init := steps[..|steps| - 1];
      LimitsOverRuns(open, cfg, init);
      StepKeepsWithin(Run(open, cfg, init), cfg, steps[|steps| - 1]);
    }
  }

  // ----- When something is turned away ------------------------------------

  /** A message is taken exactly when its list has room, or there is none yet; then
      it is the newest of its list, and no other list is touched. */
  lemma TakenExactly(front: SendMap, limit: nat, m: Msg)
    ensures var (next, ok) := AddMsg(front, limit, m);
      && (ok <==> m.fd !in front || (front[m.fd].List? && |front[m.fd].msgs| < limit))
      && (ok ==> Messages(next, m.fd) == Messages(front, m.fd) + [m])
      && (!ok ==> forall fd :: Messages(next, fd) == Messages(front, fd))
      && (forall fd :: fd != m.fd ==> Messages(next, fd) == Messages(front, fd))
  {}

  /** The event on which a client is accepted: it stays exactly when its socket could
      be prepared, epoll takes it and the table has room; with nothing yet read from
      it and nothing sent. */
  lemma AcceptedExactly(s: State, cfg: Config, fd: int, setupOk: bool, ctlOk: bool, now: int)
    requires TableOk(s.table, s.issued) && fd >= 0
    ensures var t := AcceptStep(s, cfg, fd, setupOk, ctlOk, now);
      && (setupOk && ctlOk && |s.table| < cfg.maxTable <==> fd in t.table && t.table[fd].gen > s.issued)
      && (forall f :: f in s.table && f != fd ==> f in t.table && t.table[f] == s.table[f])
      && (fd in t.table && t.table[fd].gen > s.issued ==>
            && t.table[fd] == Conn(s.issued + 1, Stamp(s.issued + 1), 1, [], now, []) && fd in t.fds.open)
  {}

  /** A server's connection likewise; refused, its descriptor is closed. */
  lemma AddedExactly(s: State, cfg: Config, ctlOk: bool, now: int)
    requires TableOk(s.table, s.issued) && s.events != [] && s.events[0].AddClient? && s.events[0].fd >= 0
    requires s.events[0].ctype in SERVER_TYPES
    ensures var fd, ctype, t := s.events[0].fd, s.events[0].ctype, EventStep(s, cfg, ctlOk, now);
      && (ctlOk && |s.table| < cfg.maxTable <==> fd in t.table && t.table[fd].gen > s.issued)
      && (if fd in t.table && t.table[fd].gen > s.issued
          then t.table[fd] == Conn(s.issued + 1, Stamp(s.issued + 1), ctype, [], now, [])
          else fd !in t.fds.open && t.table == s.table)
      && ctype in t.keys && t.keys[ctype] == Key(s.issued + 1, fd, Stamp(s.issued + 1))
      && t.events == s.events[1..]
  {}

  /** A request or a new connection is queued exactly when there is room. */
  /** After the scan the back map has lists of connections only, none of those that
      epoll refused, which are closed; the other lists and connections are as before. */
  lemma ScannedExactly(s: State, order: seq<int>, fd: int)
    requires fd >= 0
    ensures var t := ScanStep(s, order);
      && (fd in t.out.back <==> fd in s.out.back && fd in s.table && fd !in order)
      && (fd in t.out.back ==> t.out.back[fd] == s.out.back[fd])
      && (fd in t.table <==> fd in s.table && !(fd in order && fd in s.out.back))
      && t.out.front == s.out.front
  {
    CloseEachExactly(Trim(s, order), order, Refused(s, order), fd);
  }

  /** A write event without a connection discards the list; with one, no other list
      and no other connection is touched. */
  lemma SendTouchesOnly(s: State, fd: int, sends: seq<SendReply>)
    requires fd >= 0
    ensures var t := SendQueued(s, fd, sends).0;
      && (fd !in s.table ==> fd !in t.out.back && t.table == s.table)
      && t.out.front == s.out.front && t.table.Keys == s.table.Keys
      && (forall f :: f != fd ==> Entry(t.out.back, f) == Entry(s.out.back, f))
      && (forall f :: f in s.table && f != fd ==> t.table[f] == s.table[f])
  {}

  lemma {:induction false} CloseEachExactly(s: State, order: seq<int>, due: set<int>, fd: int)
    requires fd >= 0
    ensures var t := CloseEach(s, order, due);
      (fd in t.table <==> fd in s.table && !(fd in order && fd in due)) && t.out == s.out
    decreases |order|
  {
    if order != [] {
      CloseEachExactly(if order[0] in due && order[0] in s.table then CloseFd(s, order[0]) else s, order[1..], due, fd);
    }
  }
}
