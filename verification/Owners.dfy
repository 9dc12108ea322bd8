/** Who owns a descriptor: the table, a connector, or an event on its way to the
    table. The branch of addSocketToMap that throws a stale entry away is taken
    only after somebody closed a descriptor that was not the table's. */
module Owners {
  import opened Bytes
  import opened Framing
  import opened Transfer
  import opened SendPath
  import opened Engine
  import opened Runs
  import opened Effects

  /** The descriptors that queued events will bring to the table. */
  function Pending(events: seq<Event>): seq<int> {
    if events == [] then []
    else (if events[0].AddClient? then [events[0].fd] else []) + Pending(events[1..])
  }

  lemma {:induction false} PendingAppend(a: seq<Event>, b: seq<Event>)
    ensures Pending(a + b) == Pending(a) + Pending(b)
  {
    if a == [] {
      assert a + b == b;
    } else {
      PendingAppend(a[1..], b);
      assert (a + b)[1..] == a[1..] + b;
      Associate(if a[0].AddClient? then [a[0].fd] else [], Pending(a[1..]), Pending(b));
    }
  }

  lemma PendingOne(e: Event)
    ensures Pending([e]) == if e.AddClient? then [e.fd] else []
  {
    assert [e][1..] == [];
  }

  predicate NoneTwice(fds: seq<int>) {
    forall i, j :: 0 <= i < j < |fds| ==> fds[i] != fds[j]
  }

  /** The descriptors that connectors hold. */
  function Dialled(m: map<nat, Dial>): set<int> {
    set c | c in m :: m[c].fd
  }

  predicate NoneHeldTwice(m: map<nat, Dial>) {
    forall c, d :: c in m && d in m && m[c].fd == m[d].fd ==> c == d
  }

  lemma OneDialMore(m: map<nat, Dial>, c: nat, d: Dial)
    requires c !in m
    ensures Dialled(m[c := d]) == Dialled(m) + {d.fd}
    ensures NoneHeldTwice(m) && d.fd !in Dialled(m) ==> NoneHeldTwice(m[c := d])
  {
    var n := m[c := d];
    forall fd ensures fd in Dialled(n) <==> fd in Dialled(m) + {d.fd} {
      if fd in Dialled(m) {
        var e :| e in m && m[e].fd == fd;
        assert n[e].fd == fd;
      }
      assert n[c].fd == d.fd;
    }
    forall e | e in m ensures m[e].fd in Dialled(m) {}
  }

  lemma OneDialLess(m: map<nat, Dial>, c: nat)
    requires c in m && NoneHeldTwice(m)
    ensures Dialled(m - {c}) == Dialled(m) - {m[c].fd} && NoneHeldTwice(m - {c})
  {
    var n := m - {c};
    forall fd ensures fd in Dialled(n) <==> fd in Dialled(m) - {m[c].fd} {
      if fd in Dialled(m) && fd != m[c].fd {
        var e :| e in m && m[e].fd == fd;
        assert n[e].fd == fd;
      }
    }
  }

  /** Every descriptor in use by the server is open and has one owner. */
  predicate Disjoint(open: set<int>, tabled: set<int>, connecting: set<int>, pending: seq<int>) {
    && tabled <= open && connecting <= open && (forall fd :: fd in pending ==> fd in open)
    && tabled !! connecting && NoneTwice(pending)
    && (forall fd :: fd in pending ==> fd !in tabled && fd !in connecting)
    && (forall fd :: fd in open && (fd in tabled || fd in connecting || fd in pending) ==> fd >= 0)
  }

  predicate Own(s: State) {
    NoneHeldTwice(s.fds.connecting) && Disjoint(s.fds.open, s.table.Keys, Dialled(s.fds.connecting), Pending(s.events))
  }

  /** The kernel gives out only descriptors that are not open, and does not watch
      a closed one. */
  predicate KernelOk(s: State, step: Step) {
    match step
    case Accept(fd, _, _, _) => fd !in s.fds.open
    case ConnectorOpen(_, fd, _) => fd !in s.fds.open
    case SystemEvent(ctlOk, _) => s.events != [] && s.events[0].AddClient? && ctlOk ==> s.events[0].fd in s.fds.open
    case _ => true
  }

  /** The step closes a descriptor that a connector or a queued event owns. */
  predicate ForeignClose(s: State, step: Step) {
    var target := ForeignTarget(s, step);
    target.Some? && (target.value in Dialled(s.fds.connecting) || target.value in Pending(s.events))
  }

  // ----- Steps ------------------------------------------------------------

  lemma Shrink(open: set<int>, tabled: set<int>, open': set<int>, tabled': set<int>, connecting: set<int>,
      pending: seq<int>)
    requires Disjoint(open, tabled, connecting, pending) && open' <= open && tabled' <= tabled
    requires forall fd :: fd in open && fd !in open' ==> fd in tabled && fd !in tabled'
    ensures Disjoint(open', tabled', connecting, pending)
  {
    forall fd | fd in tabled' || fd in connecting || fd in pending ensures fd in open' {
      assert fd in open;
    }
  }

  lemma ContinuesKeepsOwners(s: State, t: State)
    requires Own(s) && Continues(s, t)
    ensures Own(t)
  {
    forall fd | fd in t.table.Keys ensures fd in s.table.Keys {
      assert SameConn(s.table[fd], t.table[fd]);
    }
    Shrink(s.fds.open, s.table.Keys, t.fds.open, t.table.Keys, Dialled(s.fds.connecting), Pending(s.events));
  }

  lemma CloseKeepsOwnersExactly(s: State, fd: int)
    requires Own(s)
    ensures Own(CloseFd(s, fd)) <==>
      !(fd >= 0 && fd !in s.table && (fd in Dialled(s.fds.connecting) || fd in Pending(s.events)))
  {
    CloseIsEither(s, fd);
    if fd in s.table {
      ContinuesKeepsOwners(s, CloseFd(s, fd));
    }
  }

  predicate SameOwners(s: State, t: State) {
    && t.fds.open == s.fds.open && t.table.Keys == s.table.Keys
    && t.fds.connecting == s.fds.connecting && t.events == s.events
  }

  lemma SendQueuedSameOwners(s: State, fd: int, script: seq<SendReply>)
    ensures SameOwners(s, SendQueued(s, fd, script).0) && (SendQueued(s, fd, script).1 ==> fd in s.table)
  {}

  lemma Adopt(open: set<int>, tabled: set<int>, connecting: set<int>, pending: seq<int>, fd: int)
    requires fd >= 0
    ensures Disjoint(open, tabled, connecting, pending) && fd !in open ==>
      Disjoint(open + {fd}, tabled + {fd}, connecting, pending)
    ensures Disjoint(open, tabled, connecting, [fd] + pending) ==>
      Disjoint(open, tabled + {fd}, connecting, pending) && Disjoint(open - {fd}, tabled, connecting, pending)
  {
    var more := [fd] + pending;
    assert more[0] == fd && forall i :: 0 <= i < |pending| ==> pending[i] == more[i + 1];
  }

  lemma HandOver(open: set<int>, tabled: set<int>, connecting: set<int>, pending: seq<int>, fd: int)
    requires Disjoint(open, tabled, connecting, pending) && fd in connecting
    ensures Disjoint(open, tabled, connecting - {fd}, pending + [fd])
    ensures Disjoint(open - {fd}, tabled, connecting - {fd}, pending)
  {}

  lemma InsertOwns(s: State, fd: int, ctype: nat, now: int)
    ensures var t := Insert(s, fd, ctype, now);
      t.table.Keys == s.table.Keys + {fd} && t.fds.open == s.fds.open && t.fds.connecting == s.fds.connecting
        && t.events == s.events
  {}

  lemma AcceptKeepsOwners(s: State, cfg: Config, fd: int, setupOk: bool, ctlOk: bool, now: int)
    requires Own(s) && fd !in s.fds.open
    ensures Own(AcceptStep(s, cfg, fd, setupOk, ctlOk, now))
  {
    if fd >= 0 && setupOk {
      var t := Announce(s, fd, CLIENT_TYPE);
      InsertOwns(OpenFd(t, fd), fd, CLIENT_TYPE, now);
      Adopt(s.fds.open, s.table.Keys, Dialled(s.fds.connecting), Pending(s.events), fd);
    }
  }

  lemma AddKeepsOwners(s: State, cfg: Config, ctlOk: bool, now: int)
    requires Own(s) && s.events != [] && s.events[0].AddClient?
    ensures Own(EventStep(s, cfg, ctlOk, now))
  {
    var fd, ctype := s.events[0].fd, s.events[0].ctype;
    assert fd == Pending(s.events)[0];
    var t := s.(events := s.events[1..]);
    InsertOwns(Welcome(t, fd, ctype), fd, ctype, now);
    Adopt(s.fds.open, s.table.Keys, Dialled(s.fds.connecting), Pending(t.events), fd);
  }

  lemma ConnectedKeepsOwners(s: State, cfg: Config, c: nat, now: int)
    requires Own(s)
    ensures Own(ConnectedStep(s, cfg, c, now))
  {
    if c in s.fds.connecting {
      var d := s.fds.connecting[c];
      PendingAppend(s.events, [AddClient(d.fd, d.ctype)]);
      PendingOne(AddClient(d.fd, d.ctype));
      OneDialLess(s.fds.connecting, c);
      HandOver(s.fds.open, s.table.Keys, Dialled(s.fds.connecting), Pending(s.events), d.fd);
    }
  }

  lemma PostKeepsOwners(s: State, cfg: Config, fd: int, time: int)
    requires Own(s)
    ensures Own(PostStep(s, cfg, CloseClient(fd, time)))
  {
    PendingAppend(s.events, [CloseClient(fd, time)]);
    PendingOne(CloseClient(fd, time));
    assert Pending(s.events) + [] == Pending(s.events);
  }

  lemma OpenKeepsOwners(s: State, c: nat, fd: int, ctype: nat)
    requires Own(s) && fd !in s.fds.open
    ensures Own(OpenStep(s, c, fd, ctype))
  {
    if c !in s.fds.connecting {
      OneDialMore(s.fds.connecting, c, Dial(fd, ctype));
    }
  }

  lemma GiveUpKeepsOwners(s: State, c: nat)
    requires Own(s)
    ensures Own(GiveUpStep(s, c))
  {
    if c in s.fds.connecting {
      OneDialLess(s.fds.connecting, c);
      HandOver(s.fds.open, s.table.Keys, Dialled(s.fds.connecting), Pending(s.events), s.fds.connecting[c].fd);
    }
  }

  lemma CloseEventKeepsOwnersExactly(s: State, cfg: Config, ctlOk: bool, now: int)
    requires Own(s) && s.events != [] && s.events[0].CloseClient?
    ensures Own(EventStep(s, cfg, ctlOk, now)) <==> !ForeignClose(s, SystemEvent(ctlOk, now))
  {
    var t := s.(events := s.events[1..]);
    assert Pending(t.events) == Pending(s.events);
    CloseKeepsOwnersExactly(t, s.events[0].fd);
  }

  lemma EventKeepsOwnersExactly(s: State, cfg: Config, ctlOk: bool, now: int)
    requires Own(s)
    ensures Own(EventStep(s, cfg, ctlOk, now)) <==> !ForeignClose(s, SystemEvent(ctlOk, now))
  {
    if s.events != [] {
      if s.events[0].AddClient? {
        AddKeepsOwners(s, cfg, ctlOk, now);
      } else {
        CloseEventKeepsOwnersExactly(s, cfg, ctlOk, now);
      }
    }
  }

  lemma ReadKeepsOwnersExactly(s: State, cfg: Config, fd: int, gen: nat, script: seq<RecvReply>, now: int)
    requires cfg.Ok() && Sound(s) && Own(s)
    ensures Own(ReadStep(s, cfg, fd, gen, script, now)) <==> !ForeignClose(s, Readable(fd, gen, script, now))
  {
    if fd !in s.table || s.table[fd].gen != gen {
      CloseKeepsOwnersExactly(s, fd);
    } else {
      ReadLoopContinues(s, cfg, fd, script, now);
      ContinuesKeepsOwners(s, ReadLoop(s, cfg, fd, script, now));
    }
  }

  lemma WriteKeepsOwnersExactly(s: State, fd: int, script: seq<SendReply>, modOk: bool)
    requires Own(s)
    ensures Own(WriteStep(s, fd, script, modOk)) <==> !ForeignClose(s, Writable(fd, script, modOk))
  {
    SendQueuedSameOwners(s, fd, script);
    CloseKeepsOwnersExactly(SendQueued(s, fd, script).0, fd);
  }

  lemma ScanKeepsOwners(s: State, refused: seq<int>)
    requires Own(s)
    ensures Own(ScanStep(s, refused))
  {
    var t := Trim(s, refused);
    ClosingEachContinues(t, refused, Refused(s, refused));
    ContinuesKeepsOwners(t, CloseEach(t, refused, Refused(s, refused)));
  }

  /** Ownership is kept by every step of every thread, except exactly by one that
      closes a descriptor somebody else owns. */
  lemma OwnersKeptExactly(s: State, cfg: Config, step: Step)
    requires cfg.Ok() && Sound(s) && Own(s) && KernelOk(s, step)
    ensures Own(Apply(s, cfg, step)) <==> !ForeignClose(s, step)
  {
    match step
    case Accept(fd, setupOk, ctlOk, now) => AcceptKeepsOwners(s, cfg, fd, setupOk, ctlOk, now);
    case Readable(fd, gen, recvs, now) => ReadKeepsOwnersExactly(s, cfg, fd, gen, recvs, now);
    case Writable(fd, sends, modOk) => WriteKeepsOwnersExactly(s, fd, sends, modOk);
    case PollError(fd) => CloseKeepsOwnersExactly(s, fd);
    case SystemEvent(ctlOk, now) => EventKeepsOwnersExactly(s, cfg, ctlOk, now);
    case Scan(refused) => ScanKeepsOwners(s, refused);
    case Expire(order, now) =>
      ClosingEachContinues(s, order, Silent(s, cfg, now));
      ContinuesKeepsOwners(s, CloseEach(s, order, Silent(s, cfg, now)));
    case PostClose(fd, time) => PostKeepsOwners(s, cfg, fd, time);
    case ConnectorOpen(c, fd, ctype) => OpenKeepsOwners(s, c, fd, ctype);
    case ConnectorGiveUp(c) => GiveUpKeepsOwners(s, c);
    case ConnectorPost(c, now) => ConnectedKeepsOwners(s, cfg, c, now);
    case _ =>
  }

  // ----- The stale entry --------------------------------------------------

  /** The step finds an old entry under the descriptor it adds. */
  predicate Replaces(s: State, cfg: Config, step: Step) {
    match step
    case Accept(fd, setupOk, ctlOk, _) => fd >= 0 && setupOk && CanInsert(s, cfg, fd, ctlOk) && fd in s.table
    case SystemEvent(ctlOk, _) =>
      s.events != [] && s.events[0].AddClient? && CanInsert(s, cfg, s.events[0].fd, ctlOk) && s.events[0].fd in s.table
    case _ => false
  }

  lemma OwnersNeverReplace(s: State, cfg: Config, step: Step)
    requires Own(s) && KernelOk(s, step)
    ensures !Replaces(s, cfg, step)
  {
    if step.SystemEvent? && s.events != [] && s.events[0].AddClient? {
      assert Pending(s.events)[0] == s.events[0].fd;
    }
  }

  ghost predicate Lawful(open: set<int>, cfg: Config, steps: seq<Step>)
    requires cfg.Ok()
  {
    forall k :: 0 <= k < |steps| ==> KernelOk(Run(open, cfg, steps[..k]), steps[k])
  }

  ghost predicate ForeignCloseIn(open: set<int>, cfg: Config, steps: seq<Step>)
    requires cfg.Ok()
  {
    exists k :: 0 <= k < |steps| && ForeignClose(Run(open, cfg, steps[..k]), steps[k])
  }

  lemma {:induction false} OwnersOverRuns(open: set<int>, cfg: Config, steps: seq<Step>)
    requires cfg.Ok() && Lawful(open, cfg, steps) && !ForeignCloseIn(open, cfg, steps)
    ensures Own(Run(open, cfg, steps))
  {
    if steps != [] {
      var k := |steps| - 1;
      var init := steps[..k];
      assert forall j :: 0 <= j < k ==> init[..j] == steps[..j] && init[j] == steps[j];
      OwnersOverRuns(open, cfg, init);
      OwnersKeptExactly(Run(open, cfg, init), cfg, steps[k]);
    }
  }

  /** In every run on a kernel that hands out only unused descriptors, the stale
      entry is found only after a foreign close. */
  lemma StaleEntryNeedsForeignClose(open: set<int>, cfg: Config, steps: seq<Step>, step: Step)
    requires cfg.Ok() && Lawful(open, cfg, steps + [step])
    ensures Replaces(Run(open, cfg, steps), cfg, step) ==> ForeignCloseIn(open, cfg, steps)
  {
    if !ForeignCloseIn(open, cfg, steps) {
      var all := steps + [step];
      assert forall j :: 0 <= j <= |steps| ==> all[..j] == steps[..j];
      assert all[|steps|] == step && steps[..|steps|] == steps;
      assert forall j :: 0 <= j < |steps| ==> all[j] == steps[j];
      OwnersOverRuns(open, cfg, steps);
      assert KernelOk(Run(open, cfg, all[..|steps|]), all[|steps|]);
      OwnersNeverReplace(Run(open, cfg, steps), cfg, step);
    }
  }

  // ----- Entries whose descriptor is closed -------------------------------

  predicate TableOpen(s: State) {
    forall fd :: fd in s.table ==> fd in s.fds.open
  }

  /** The step closes a descriptor and leaves the entry under it: an arriving
      connection refused, an attempt given up, or the event queue full. */
  predicate ClosesBehind(s: State, cfg: Config, step: Step) {
    match step
    case SystemEvent(ctlOk, _) =>
      s.events != [] && s.events[0].AddClient? && s.events[0].fd in s.table && !CanInsert(s, cfg, s.events[0].fd, ctlOk)
    case ConnectorGiveUp(c) => c in s.fds.connecting && s.fds.connecting[c].fd in s.table
    case ConnectorPost(c, _) =>
      c in s.fds.connecting && s.fds.connecting[c].fd in s.table && |s.events| >= cfg.maxEvents
    case _ => false
  }

  lemma ContinuesKeepsOpen(s: State, t: State)
    requires TableOpen(s) && Continues(s, t)
    ensures TableOpen(t)
  {
    forall fd | fd in t.table ensures fd in t.fds.open {
      assert fd in s.table;
    }
  }

  lemma CloseKeepsOpen(s: State, fd: int)
    requires TableOpen(s)
    ensures TableOpen(CloseFd(s, fd))
  {
    CloseIsEither(s, fd);
    if fd in s.table {
      ContinuesKeepsOpen(s, CloseFd(s, fd));
    }
  }

  lemma EventKeepsOpenExactly(s: State, cfg: Config, ctlOk: bool, now: int)
    requires TableOpen(s) && KernelOk(s, SystemEvent(ctlOk, now))
    ensures TableOpen(EventStep(s, cfg, ctlOk, now)) <==> !ClosesBehind(s, cfg, SystemEvent(ctlOk, now))
  {
    if s.events != [] {
      var t := s.(events := s.events[1..]);
      match s.events[0]
      case CloseClient(fd, _) => CloseKeepsOpen(t, fd);
      case AddClient(fd, ctype) => InsertOwns(Welcome(t, fd, ctype), fd, ctype, now);
    }
  }

  lemma ReadKeepsOpen(s: State, cfg: Config, fd: int, gen: nat, script: seq<RecvReply>, now: int)
    requires cfg.Ok() && Sound(s) && TableOpen(s)
    ensures TableOpen(ReadStep(s, cfg, fd, gen, script, now))
  {
    if fd !in s.table || s.table[fd].gen != gen {
      CloseKeepsOpen(s, fd);
    } else {
      ReadLoopContinues(s, cfg, fd, script, now);
      ContinuesKeepsOpen(s, ReadLoop(s, cfg, fd, script, now));
    }
  }

  lemma ScanKeepsOpen(s: State, refused: seq<int>)
    requires TableOpen(s)
    ensures TableOpen(ScanStep(s, refused))
  {
    ClosingEachContinues(Trim(s, refused), refused, Refused(s, refused));
    ContinuesKeepsOpen(Trim(s, refused), ScanStep(s, refused));
  }

  /** No entry's descriptor is closed behind its back, except exactly by such a step. */
  lemma TableOpenKeptExactly(s: State, cfg: Config, step: Step)
    requires cfg.Ok() && Sound(s) && TableOpen(s) && KernelOk(s, step)
    ensures TableOpen(Apply(s, cfg, step)) <==> !ClosesBehind(s, cfg, step)
  {
    match step
    case Accept(fd, _, _, now) => InsertOwns(OpenFd(Announce(s, fd, CLIENT_TYPE), fd), fd, CLIENT_TYPE, now);
    case Readable(fd, gen, recvs, now) => ReadKeepsOpen(s, cfg, fd, gen, recvs, now);
    case Writable(fd, sends, modOk) =>
      SendQueuedSameOwners(s, fd, sends);
      CloseKeepsOpen(SendQueued(s, fd, sends).0, fd);
    case PollError(fd) => CloseKeepsOpen(s, fd);
    case SystemEvent(ctlOk, now) => EventKeepsOpenExactly(s, cfg, ctlOk, now);
    case Scan(refused) => ScanKeepsOpen(s, refused);
    case Expire(order, now) =>
      ClosingEachContinues(s, order, Silent(s, cfg, now));
      ContinuesKeepsOpen(s, CloseEach(s, order, Silent(s, cfg, now)));
    case _ =>
  }

  /** accept() can meet a stale entry exactly when there is room in the table and
      the descriptor of some entry is not open. */
  lemma StaleAcceptExactly(s: State, cfg: Config, setupOk: bool, ctlOk: bool, now: int)
    requires Inv(s)
    ensures (exists fd ::
               var step := Accept(fd, setupOk, ctlOk, now); KernelOk(s, step) && Replaces(s, cfg, step))
       <==> setupOk && ctlOk && |s.table| < cfg.maxTable && !TableOpen(s)
  {
    if setupOk && ctlOk && |s.table| < cfg.maxTable && !TableOpen(s) {
      var fd :| fd in s.table && fd !in s.fds.open;
      var step := Accept(fd, setupOk, ctlOk, now);
      assert KernelOk(s, step) && Replaces(s, cfg, step);
    }
  }

  ghost predicate ClosesBehindIn(open: set<int>, cfg: Config, steps: seq<Step>)
    requires cfg.Ok()
  {
    exists k :: 0 <= k < |steps| && ClosesBehind(Run(open, cfg, steps[..k]), cfg, steps[k])
  }

  lemma {:induction false} TableOpenOverRuns(open: set<int>, cfg: Config, steps: seq<Step>)
    requires cfg.Ok() && Lawful(open, cfg, steps) && !ClosesBehindIn(open, cfg, steps)
    ensures TableOpen(Run(open, cfg, steps))
  {
    if steps != [] {
      var k := |steps| - 1;
      var init := steps[..k];
      assert forall j :: 0 <= j < k ==> init[..j] == steps[..j] && init[j] == steps[j];
      TableOpenOverRuns(open, cfg, init);
      TableOpenKeptExactly(Run(open, cfg, init), cfg, steps[k]);
    }
  }

  /** So, over every run on such a kernel, it meets one only after such a step. */
  lemma StaleAcceptNeedsClosing(open: set<int>, cfg: Config, steps: seq<Step>, step: Step)
    requires cfg.Ok() && Lawful(open, cfg, steps + [step]) && step.Accept?
    ensures Replaces(Run(open, cfg, steps), cfg, step) ==> ClosesBehindIn(open, cfg, steps)
  {
    if !ClosesBehindIn(open, cfg, steps) {
      var all := steps + [step];
      assert all[|steps|] == step && all[..|steps|] == steps;
      forall j | 0 <= j < |steps| ensures KernelOk(Run(open, cfg, steps[..j]), steps[j]) {
        assert all[..j] == steps[..j] && all[j] == steps[j];
      }
      TableOpenOverRuns(open, cfg, steps);
      assert KernelOk(Run(open, cfg, all[..|steps|]), all[|steps|]);
    }
  }

  // ----- Late requests and events -----------------------------------------

  /** closeClient compares no stamps. A request to close generation g therefore
      spares every other connection exactly when the stamp it carries is that of
      the connection now on the descriptor, or there is none. */
  lemma CloseSparesOthersExactly(s: State, cfg: Config, fd: int, g: nat, ctlOk: bool, now: int)
    requires Inv(s) && s.events != [] && s.events[0] == CloseClient(fd, Stamp(g))
    requires 1 <= g <= s.issued && (fd in s.table ==> s.table[fd].gen - WINDOW < g < s.table[fd].gen + WINDOW)
    ensures (forall f :: f in s.table && s.table[f].gen != g ==> f in EventStep(s, cfg, ctlOk, now).table)
       <==> (fd in s.table ==> s.table[fd].time == Stamp(g))
  {
    var t := s.(events := s.events[1..]);
    assert EventStep(s, cfg, ctlOk, now) == CloseFd(t, fd);
    if fd in s.table {
      var h := s.table[fd].gen;
      if h <= g {
        StampsRepeatExactly(h, g);
      } else {
        StampsRepeatExactly(g, h);
      }
      assert fd !in CloseFd(t, fd).table;
    }
  }

  /** Every connection but generation g is still there. */
  predicate Spares(s: State, t: State, g: nat) {
    forall f :: f in s.table && s.table[f].gen != g ==> f in t.table && t.table[f].gen == s.table[f].gen
  }

  lemma CloseSpares(s: State, fd: int, g: nat)
    requires fd in s.table ==> fd >= 0
    ensures Spares(s, CloseFd(s, fd), g) <==> (fd in s.table ==> s.table[fd].gen == g)
  {
    if fd in s.table {
      assert fd !in CloseFd(s, fd).table;
    }
  }

  lemma {:induction false} ReadLoopSpares(s: State, cfg: Config, fd: int, script: seq<RecvReply>, now: int)
    requires cfg.Ok() && fd in s.table && |s.table[fd].part| < MAX_SEND_SIZE && fd >= 0
    ensures Spares(s, ReadLoop(s, cfg, fd, script, now), s.table[fd].gen)
    decreases |script|
  {
    var r := RecvAll(cfg.recvRoom - |s.table[fd].part|, script);
    ReadLoopTurn(s, cfg, fd, script, now, r);
    if r.code < 0 {
      CloseSpares(s, fd, s.table[fd].gen);
    } else {
      var t, ok := Absorb(s, fd, r.bytes, now).0, Absorb(s, fd, r.bytes, now).1;
      assert Spares(s, t, s.table[fd].gen);
      if r.code == 0 || !ok {
        CloseSpares(t, fd, t.table[fd].gen);
      } else if r.code == 2 {
        ReadLoopSpares(t, cfg, fd, r.rest, now);
      }
    }
  }

  /** Nor do the readiness events of one epoll_wait, where an earlier one may have
      replaced the connection that a later one was meant for: a late read or error
      event for generation g spares every other connection exactly when the
      descriptor now has no connection, or still generation g's. */
  lemma LateReadSparesExactly(s: State, cfg: Config, fd: int, g: nat, script: seq<RecvReply>, now: int)
    requires cfg.Ok() && Inv(s)
    ensures Spares(s, ReadStep(s, cfg, fd, g, script, now), g) <==> (fd in s.table ==> s.table[fd].gen == g)
  {
    if fd in s.table && s.table[fd].gen == g {
      ReadLoopSpares(s, cfg, fd, script, now);
    } else {
      CloseSpares(s, fd, g);
    }
  }

  lemma LateErrorSparesExactly(s: State, cfg: Config, fd: int, g: nat)
    requires cfg.Ok() && Inv(s)
    ensures Spares(s, Apply(s, cfg, PollError(fd)), g) <==> (fd in s.table ==> s.table[fd].gen == g)
  {
    CloseSpares(s, fd, g);
  }

  /** A late write event serves the newer connection's own list, and closes it
      when the kernel breaks off that send or the epoll call fails. */
  lemma LateWriteSparesExactly(s: State, fd: int, g: nat, sends: seq<SendReply>, modOk: bool)
    requires Inv(s)
    ensures Spares(s, WriteStep(s, fd, sends, modOk), g)
       <==> (fd in s.table && s.table[fd].gen != g ==>
               modOk && !Breaks(OwnLengths(Messages(s.out.back, fd), fd, s.table[fd].time), sends))
  {
    if fd in s.table {
      DrainFailsExactly(Messages(s.out.back, fd), fd, s.table[fd].time, sends);
    }
    SendingSpares(s, fd, sends);
    CloseSpares(SendQueued(s, fd, sends).0, fd, g);
  }

  lemma SendingSpares(s: State, fd: int, sends: seq<SendReply>)
    ensures var t := SendQueued(s, fd, sends).0;
      t.table.Keys == s.table.Keys && forall f :: f in t.table ==> t.table[f].gen == s.table[f].gen
    ensures SendQueued(s, fd, sends).1 ==> fd in s.table
  {
  }

  lemma OneMoreStep(open: set<int>, cfg: Config, steps: seq<Step>, step: Step)
    requires cfg.Ok() && Lawful(open, cfg, steps) && KernelOk(Run(open, cfg, steps), step)
    ensures Lawful(open, cfg, steps + [step])
    ensures Run(open, cfg, steps + [step]) == Apply(Run(open, cfg, steps), cfg, step)
  {
    var all := steps + [step];
    assert all[..|all| - 1] == steps;
    forall k | 0 <= k < |all| ensures KernelOk(Run(open, cfg, all[..k]), all[k]) {
      if k < |steps| {
        assert all[..k] == steps[..k] && all[k] == steps[k];
      } else {
        assert all[..k] == steps;
      }
    }
  }
}
