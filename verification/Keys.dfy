/** The keys by which the server reaches its own servers: what they name, and how
    one can be left behind so that the server never connects to that type again. */
module Keys {
  import opened Bytes
  import opened Framing
  import opened Transfer
  import opened SendPath
  import opened Engine
  import opened Runs
  import opened Wires

  predicate BringsType(e: Event, t: nat) {
    e.AddClient? && e.ctype == t
  }

  /** The key of type t is set although no connection of that type exists, is
      being made, or is about to enter the table. */
  predicate Wedged(s: State, t: nat) {
    && t in s.keys && s.keys[t].fd >= 0
    && (forall fd :: fd in s.table ==> s.table[fd].ctype != t)
    && (forall c :: c in s.fds.connecting ==> s.fds.connecting[c].ctype != t)
    && (forall i :: 0 <= i < |s.events| ==> !BringsType(s.events[i], t))
  }

  lemma CloseKeepsWedge(s: State, fd: int, t: nat)
    requires Wedged(s, t)
    ensures Wedged(CloseFd(s, fd), t) && CloseFd(s, fd).keys[t] == s.keys[t]
  {}

  lemma {:induction false} CloseEachKeepsWedge(s: State, order: seq<int>, due: set<int>, t: nat)
    requires Wedged(s, t)
    ensures Wedged(CloseEach(s, order, due), t) && CloseEach(s, order, due).keys[t] == s.keys[t]
    decreases |order|
  {
    if order != [] {
      CloseKeepsWedge(s, order[0], t);
      var next := if order[0] in due && order[0] in s.table then CloseFd(s, order[0]) else s;
      CloseEachKeepsWedge(next, order[1..], due, t);
    }
  }

  lemma AbsorbKeepsWedge(s: State, fd: int, bytes: seq<byte>, now: int, t: nat)
    requires fd in s.table && Wedged(s, t)
    ensures Wedged(Absorb(s, fd, bytes, now).0, t) && Absorb(s, fd, bytes, now).0.keys == s.keys
  {}

  lemma {:induction false} ReadLoopKeepsWedge(s: State, cfg: Config, fd: int, script: seq<RecvReply>, now: int, t: nat)
    requires cfg.Ok() && fd in s.table && |s.table[fd].part| < MAX_SEND_SIZE && Wedged(s, t)
    ensures Wedged(ReadLoop(s, cfg, fd, script, now), t) && ReadLoop(s, cfg, fd, script, now).keys[t] == s.keys[t]
    decreases |script|
  {
    var r := RecvAll(cfg.recvRoom - |s.table[fd].part|, script);
    ReadLoopTurn(s, cfg, fd, script, now, r);
    if r.code < 0 {
      CloseKeepsWedge(s, fd, t);
    } else {
      AbsorbKeepsWedge(s, fd, r.bytes, now, t);
      var u, ok := Absorb(s, fd, r.bytes, now).0, Absorb(s, fd, r.bytes, now).1;
      if r.code == 0 || !ok {
        CloseKeepsWedge(u, fd, t);
      } else if r.code == 2 {
        ReadLoopKeepsWedge(u, cfg, fd, r.rest, now, t);
      }
    }
  }

  lemma ReadKeepsWedge(s: State, cfg: Config, fd: int, gen: nat, script: seq<RecvReply>, now: int, t: nat)
    requires cfg.Ok() && Sound(s) && Wedged(s, t)
    ensures var u := ReadStep(s, cfg, fd, gen, script, now); Wedged(u, t) && u.keys[t] == s.keys[t]
  {
    if fd !in s.table || s.table[fd].gen != gen {
      CloseKeepsWedge(s, fd, t);
    } else {
      ReadLoopKeepsWedge(s, cfg, fd, script, now, t);
    }
  }

  lemma WriteKeepsWedge(s: State, fd: int, script: seq<SendReply>, modOk: bool, t: nat)
    requires Wedged(s, t)
    ensures var u := WriteStep(s, fd, script, modOk); Wedged(u, t) && u.keys[t] == s.keys[t]
  {
    assert Wedged(SendQueued(s, fd, script).0, t);
    CloseKeepsWedge(SendQueued(s, fd, script).0, fd, t);
  }

  lemma AcceptKeepsWedge(s: State, cfg: Config, fd: int, setupOk: bool, ctlOk: bool, now: int, t: nat)
    requires Wedged(s, t) && t != CLIENT_TYPE
    ensures var u := AcceptStep(s, cfg, fd, setupOk, ctlOk, now); Wedged(u, t) && u.keys[t] == s.keys[t]
  {}

  lemma EventKeepsWedge(s: State, cfg: Config, ctlOk: bool, now: int, t: nat)
    requires Wedged(s, t)
    ensures var u := EventStep(s, cfg, ctlOk, now); Wedged(u, t) && u.keys[t] == s.keys[t]
  {
    if s.events != [] {
      var u := s.(events := s.events[1..]);
      assert forall i :: 0 <= i < |u.events| ==> u.events[i] == s.events[i + 1];
      assert !BringsType(s.events[0], t);
      if s.events[0].CloseClient? {
        CloseKeepsWedge(u, s.events[0].fd, t);
      }
    }
  }

  lemma ConnectedKeepsWedge(s: State, cfg: Config, c: nat, now: int, t: nat)
    requires Wedged(s, t)
    ensures var u := ConnectedStep(s, cfg, c, now); Wedged(u, t) && u.keys[t] == s.keys[t]
  {}

  lemma PostKeepsWedge(s: State, cfg: Config, fd: int, time: int, t: nat)
    requires Wedged(s, t)
    ensures var u := PostStep(s, cfg, CloseClient(fd, time)); Wedged(u, t) && u.keys[t] == s.keys[t]
  {}

  lemma OpenKeepsWedge(s: State, c: nat, fd: int, ctype: nat, t: nat)
    requires Wedged(s, t)
    ensures var u := OpenStep(s, c, fd, ctype); Wedged(u, t) && u.keys[t] == s.keys[t]
  {}

  lemma ScanKeepsWedge(s: State, refused: seq<int>, t: nat)
    requires Wedged(s, t)
    ensures var u := ScanStep(s, refused); Wedged(u, t) && u.keys[t] == s.keys[t]
  {
    CloseEachKeepsWedge(Trim(s, refused), refused, Refused(s, refused), t);
  }

  /** No step of any thread frees a wedged key, so createServerConnect gives up at
      its first check for ever after. */
  lemma WedgedForGood(s: State, cfg: Config, step: Step, t: nat)
    requires cfg.Ok() && Sound(s) && Wedged(s, t) && t in SERVER_TYPES
    ensures var u := Apply(s, cfg, step); Wedged(u, t) && u.keys[t] == s.keys[t]
  {
    match step
    case Accept(fd, setupOk, ctlOk, now) => AcceptKeepsWedge(s, cfg, fd, setupOk, ctlOk, now, t);
    case Readable(fd, gen, recvs, now) => ReadKeepsWedge(s, cfg, fd, gen, recvs, now, t);
    case Writable(fd, sends, modOk) => WriteKeepsWedge(s, fd, sends, modOk, t);
    case PollError(fd) => CloseKeepsWedge(s, fd, t);
    case SystemEvent(ctlOk, now) => EventKeepsWedge(s, cfg, ctlOk, now, t);
    case Scan(refused) => ScanKeepsWedge(s, refused, t);
    case Expire(order, now) => CloseEachKeepsWedge(s, order, Silent(s, cfg, now), t);
    case PostClose(fd, time) => PostKeepsWedge(s, cfg, fd, time, t);
    case ConnectorOpen(c, fd, ctype) => OpenKeepsWedge(s, c, fd, ctype, t);
    case ConnectorPost(c, now) => ConnectedKeepsWedge(s, cfg, c, now, t);
    case _ =>
  }

  /** Nothing of type t is anywhere, except the connection a connector has just
      made (or, below, the event at the head of the queue). */
  predicate OnlyConnecting(s: State, c: nat, t: nat) {
    && c in s.fds.connecting && s.fds.connecting[c].ctype == t
    && (forall d :: d in s.fds.connecting && d != c ==> s.fds.connecting[d].ctype != t)
    && (forall f :: f in s.table ==> s.table[f].ctype != t)
    && (forall i :: 0 <= i < |s.events| ==> !BringsType(s.events[i], t))
  }

  predicate OnlyArriving(s: State, t: nat) {
    && s.events != [] && BringsType(s.events[0], t)
    && (forall i :: 1 <= i < |s.events| ==> !BringsType(s.events[i], t))
    && (forall f :: f in s.table ==> s.table[f].ctype != t)
    && (forall c :: c in s.fds.connecting ==> s.fds.connecting[c].ctype != t)
  }

  /** A connector leaves its key wedged exactly when the event queue is full: the
      reset it then asks for is one for clients, which resets nothing. */
  lemma FullQueueWedgesExactly(s: State, cfg: Config, c: nat, now: int, t: nat)
    requires t in SERVER_TYPES && OnlyConnecting(s, c, t) && s.fds.connecting[c].fd >= 0
    ensures Wedged(ConnectedStep(s, cfg, c, now), t) <==> |s.events| >= cfg.maxEvents
  {
    var u := ConnectedStep(s, cfg, c, now);
    if |s.events| < cfg.maxEvents {
      assert BringsType(u.events[|s.events|], t);
    }
  }

  /** And the event loop leaves it wedged exactly when it cannot add the connection. */
  lemma RefusedConnectionWedgesExactly(s: State, cfg: Config, ctlOk: bool, now: int, t: nat)
    requires t in SERVER_TYPES && OnlyArriving(s, t) && s.events[0].fd >= 0
    ensures Wedged(EventStep(s, cfg, ctlOk, now), t) <==> !(ctlOk && |s.table| < cfg.maxTable)
  {
    var fd, u := s.events[0].fd, EventStep(s, cfg, ctlOk, now);
    if ctlOk && |s.table| < cfg.maxTable {
      assert fd in u.table && u.table[fd].ctype == t;
    } else {
      assert forall i :: 0 <= i < |u.events| ==> u.events[i] == s.events[i + 1];
    }
  }

  /** In every run, from a wedged state on: the key stays as it is, and every
      attempt to connect to that type does nothing. */
  lemma {:induction false} NeverAgain(
    open: set<int>, cfg: Config, steps: seq<Step>, more: seq<Step>, t: nat, c: nat, fd: int)
    requires cfg.Ok() && t in SERVER_TYPES && Wedged(Run(open, cfg, steps), t)
    ensures Wedged(Run(open, cfg, steps + more), t)
    ensures Run(open, cfg, steps + more).keys[t] == Run(open, cfg, steps).keys[t]
    ensures OpenStep(Run(open, cfg, steps + more), c, fd, t) == Run(open, cfg, steps + more)
  {
    if more == [] {
      assert steps + more == steps;
    } else {
      var init, last := more[..|more| - 1], more[|more| - 1];
      NeverAgain(open, cfg, steps, init, t, c, fd);
      RunOn(open, cfg, steps + init, last);
      WedgedForGood(Run(open, cfg, steps + init), cfg, last, t);
      assert (steps + init) + [last] == steps + more;
    }
  }

  // ----- Every way to leave a key behind ----------------------------------

  /** fd holds the last entry of type t, its key is set and nothing of that type
      is on its way. */
  predicate LastEntry(s: State, fd: int, t: nat) {
    && t in s.keys && s.keys[t].fd >= 0
    && fd in s.table && s.table[fd].ctype == t
    && (forall f :: f in s.table && f != fd ==> s.table[f].ctype != t)
    && (forall c :: c in s.fds.connecting ==> s.fds.connecting[c].ctype != t)
    && (forall i :: 0 <= i < |s.events| ==> !BringsType(s.events[i], t))
  }

  /** The branches that leave the key of type t set with nothing behind it: the
      stale entry thrown away, by a client or by another server's connection; an
      arriving connection refused; the last other attempt given up; the event
      queue full. */
  predicate Leaves(s: State, cfg: Config, step: Step, t: nat) {
    match step
    case Accept(fd, setupOk, ctlOk, _) => setupOk && CanInsert(s, cfg, fd, ctlOk) && LastEntry(s, fd, t)
    case SystemEvent(ctlOk, _) =>
      s.events != [] && s.events[0].AddClient? &&
      var fd, added := s.events[0].fd, CanInsert(s, cfg, s.events[0].fd, ctlOk);
      if s.events[0].ctype == t then !added && fd >= 0 && OnlyArriving(s, t) else added && LastEntry(s, fd, t)
    case ConnectorGiveUp(c) => OnlyConnecting(s, c, t) && t in s.keys && s.keys[t].fd >= 0
    case ConnectorPost(c, _) =>
      OnlyConnecting(s, c, t) && s.fds.connecting[c].fd >= 0 && |s.events| >= cfg.maxEvents
    case _ => false
  }

  /** The key is there and not left behind. */
  predicate Clear(s: State, t: nat) {
    t in s.keys && !Wedged(s, t)
  }

  lemma CloseKeepsClear(s: State, fd: int, t: nat)
    requires t in SERVER_TYPES && Clear(s, t)
    ensures Clear(CloseFd(s, fd), t)
  {
    var u := CloseFd(s, fd);
    if u.keys[t] == s.keys[t] && s.keys[t].fd >= 0 {
      if f :| f in s.table && s.table[f].ctype == t {
        assert f in u.table && u.table[f] == s.table[f];
      }
    }
  }

  lemma {:induction false} CloseEachKeepsClear(s: State, order: seq<int>, due: set<int>, t: nat)
    requires t in SERVER_TYPES && Clear(s, t)
    ensures Clear(CloseEach(s, order, due), t)
    decreases |order|
  {
    if order != [] {
      CloseKeepsClear(s, order[0], t);
      var next := if order[0] in due && order[0] in s.table then CloseFd(s, order[0]) else s;
      CloseEachKeepsClear(next, order[1..], due, t);
    }
  }

  /** What Wedged looks at, apart from the table's other fields. */
  predicate SameForKeys(s: State, u: State) {
    && u.keys == s.keys && u.fds.connecting == s.fds.connecting && u.events == s.events
    && u.table.Keys == s.table.Keys && (forall fd :: fd in s.table ==> u.table[fd].ctype == s.table[fd].ctype)
  }

  lemma SameKeepsClear(s: State, u: State, t: nat)
    requires Clear(s, t) && SameForKeys(s, u)
    ensures Clear(u, t)
  {
    if s.keys[t].fd >= 0 {
      if f :| f in s.table && s.table[f].ctype == t {
        assert f in u.table && u.table[f].ctype == t;
      }
    }
  }

  lemma {:induction false} ReadLoopKeepsClear(s: State, cfg: Config, fd: int, script: seq<RecvReply>, now: int, t: nat)
    requires cfg.Ok() && fd in s.table && |s.table[fd].part| < MAX_SEND_SIZE && t in SERVER_TYPES && Clear(s, t)
    ensures Clear(ReadLoop(s, cfg, fd, script, now), t)
    decreases |script|
  {
    var r := RecvAll(cfg.recvRoom - |s.table[fd].part|, script);
    ReadLoopTurn(s, cfg, fd, script, now, r);
    if r.code < 0 {
      CloseKeepsClear(s, fd, t);
    } else {
      var u, ok := Absorb(s, fd, r.bytes, now).0, Absorb(s, fd, r.bytes, now).1;
      SameKeepsClear(s, u, t);
      if r.code == 0 || !ok {
        CloseKeepsClear(u, fd, t);
      } else if r.code == 2 {
        ReadLoopKeepsClear(u, cfg, fd, r.rest, now, t);
      }
    }
  }

  lemma ReadKeepsClear(s: State, cfg: Config, fd: int, gen: nat, script: seq<RecvReply>, now: int, t: nat)
    requires cfg.Ok() && Sound(s) && t in SERVER_TYPES && Clear(s, t)
    ensures Clear(ReadStep(s, cfg, fd, gen, script, now), t)
  {
    if fd !in s.table || s.table[fd].gen != gen {
      CloseKeepsClear(s, fd, t);
    } else {
      ReadLoopKeepsClear(s, cfg, fd, script, now, t);
    }
  }

  lemma WriteKeepsClear(s: State, fd: int, script: seq<SendReply>, modOk: bool, t: nat)
    requires t in SERVER_TYPES && Clear(s, t)
    ensures Clear(WriteStep(s, fd, script, modOk), t)
  {
    var u := SendQueued(s, fd, script).0;
    assert SameForKeys(s, u);
    SameKeepsClear(s, u, t);
    CloseKeepsClear(u, fd, t);
  }

  lemma ScanKeepsClear(s: State, refused: seq<int>, t: nat)
    requires t in SERVER_TYPES && Clear(s, t)
    ensures Clear(ScanStep(s, refused), t)
  {
    SameKeepsClear(s, Trim(s, refused), t);
    CloseEachKeepsClear(Trim(s, refused), refused, Refused(s, refused), t);
  }

  lemma PostKeepsClear(s: State, cfg: Config, fd: int, time: int, t: nat)
    requires Clear(s, t)
    ensures Clear(PostStep(s, cfg, CloseClient(fd, time)), t)
  {
    var u := PostStep(s, cfg, CloseClient(fd, time));
    if i :| 0 <= i < |s.events| && BringsType(s.events[i], t) {
      assert u.events[i] == s.events[i];
    }
  }

  lemma OpenKeepsClear(s: State, c: nat, fd: int, ctype: nat, t: nat)
    requires Clear(s, t)
    ensures Clear(OpenStep(s, c, fd, ctype), t)
  {
    var u := OpenStep(s, c, fd, ctype);
    if d :| d in s.fds.connecting && s.fds.connecting[d].ctype == t {
      assert d in u.fds.connecting && u.fds.connecting[d] == s.fds.connecting[d];
    }
  }

  /** An entry of another type comes in under fd. */
  lemma InsertLeavesExactly(s: State, fd: int, ctype: nat, now: int, t: nat)
    requires Clear(s, t) && ctype != t
    ensures var u := Insert(s, fd, ctype, now); t in u.keys && (Wedged(u, t) <==> LastEntry(s, fd, t))
  {
    var u := Insert(s, fd, ctype, now);
    if f :| f in s.table && f != fd && s.table[f].ctype == t {
      assert f in u.table && u.table[f] == s.table[f];
    }
  }

  lemma AcceptLeavesExactly(s: State, cfg: Config, fd: int, setupOk: bool, ctlOk: bool, now: int, t: nat)
    requires t in SERVER_TYPES && Clear(s, t)
    ensures var u := AcceptStep(s, cfg, fd, setupOk, ctlOk, now);
      t in u.keys && (Wedged(u, t) <==> Leaves(s, cfg, Accept(fd, setupOk, ctlOk, now), t))
  {
    var u := Announce(s, fd, CLIENT_TYPE);
    SameKeepsClear(s, u, t);
    SameKeepsClear(s, OpenFd(u, fd), t);
    InsertLeavesExactly(OpenFd(u, fd), fd, CLIENT_TYPE, now, t);
  }

  /** Taking off an event that brings nothing of type t. */
  lemma PoppedKeepsClear(s: State, t: nat)
    requires Clear(s, t) && s.events != [] && !BringsType(s.events[0], t)
    ensures Clear(s.(events := s.events[1..]), t)
  {
    if i :| 0 <= i < |s.events| && BringsType(s.events[i], t) {
      assert s.events[1..][i - 1] == s.events[i];
    }
  }

  lemma OtherArrivalLeavesExactly(s: State, cfg: Config, ctlOk: bool, now: int, t: nat)
    requires t in SERVER_TYPES && Clear(s, t) && s.events != [] && s.events[0].AddClient? && s.events[0].ctype != t
    ensures var u := EventStep(s, cfg, ctlOk, now);
      t in u.keys && (Wedged(u, t) <==> Leaves(s, cfg, SystemEvent(ctlOk, now), t))
  {
    var fd, ctype, p := s.events[0].fd, s.events[0].ctype, s.(events := s.events[1..]);
    PoppedKeepsClear(s, t);
    var v := Welcome(p, fd, ctype);
    assert v.keys[t] == p.keys[t] && v.table == p.table && v.fds == p.fds && v.events == p.events;
    assert Clear(v, t);
    assert LastEntry(v, fd, t) <==> LastEntry(s, fd, t) by {
      assert forall i :: 0 <= i < |p.events| ==> p.events[i] == s.events[i + 1];
    }
    InsertLeavesExactly(v, fd, ctype, now, t);
  }

  lemma OwnArrivalLeavesExactly(s: State, cfg: Config, ctlOk: bool, now: int, t: nat)
    requires t in SERVER_TYPES && Clear(s, t) && s.events != [] && s.events[0].AddClient? && s.events[0].ctype == t
    ensures var u := EventStep(s, cfg, ctlOk, now);
      t in u.keys && (Wedged(u, t) <==> Leaves(s, cfg, SystemEvent(ctlOk, now), t))
  {
    var fd, u := s.events[0].fd, EventStep(s, cfg, ctlOk, now);
    assert forall i :: 0 <= i < |u.events| ==> u.events[i] == s.events[i + 1];
    assert u.keys[t].fd == fd && u.fds.connecting == s.fds.connecting;
    if CanInsert(s, cfg, fd, ctlOk) {
      assert fd in u.table && u.table[fd].ctype == t;
    } else {
      assert u.table == s.table;
      if i :| 1 <= i < |s.events| && BringsType(s.events[i], t) {
        assert u.events[i - 1] == s.events[i];
      }
    }
  }

  lemma EventLeavesExactly(s: State, cfg: Config, ctlOk: bool, now: int, t: nat)
    requires t in SERVER_TYPES && Clear(s, t)
    ensures var u := EventStep(s, cfg, ctlOk, now);
      t in u.keys && (Wedged(u, t) <==> Leaves(s, cfg, SystemEvent(ctlOk, now), t))
  {
    if s.events != [] {
      if s.events[0].CloseClient? {
        PoppedKeepsClear(s, t);
        CloseKeepsClear(s.(events := s.events[1..]), s.events[0].fd, t);
      } else if s.events[0].ctype == t {
        OwnArrivalLeavesExactly(s, cfg, ctlOk, now, t);
      } else {
        OtherArrivalLeavesExactly(s, cfg, ctlOk, now, t);
      }
    }
  }

  lemma GiveUpLeavesExactly(s: State, cfg: Config, c: nat, t: nat)
    requires Clear(s, t)
    ensures var u := GiveUpStep(s, c); t in u.keys && (Wedged(u, t) <==> Leaves(s, cfg, ConnectorGiveUp(c), t))
  {
    var u := GiveUpStep(s, c);
    if d :| d in s.fds.connecting && d != c && s.fds.connecting[d].ctype == t {
      assert d in u.fds.connecting && u.fds.connecting[d] == s.fds.connecting[d];
    }
  }

  lemma ConnectedLeavesExactly(s: State, cfg: Config, c: nat, now: int, t: nat)
    requires t in SERVER_TYPES && Clear(s, t)
    ensures var u := ConnectedStep(s, cfg, c, now);
      t in u.keys && (Wedged(u, t) <==> Leaves(s, cfg, ConnectorPost(c, now), t))
  {
    var u := ConnectedStep(s, cfg, c, now);
    if c in s.fds.connecting {
      if |s.events| < cfg.maxEvents {
        assert s.fds.connecting[c].ctype == t ==> BringsType(u.events[|s.events|], t);
      }
      if i :| 0 <= i < |s.events| && BringsType(s.events[i], t) {
        assert u.events[i] == s.events[i];
      }
      if d :| d in s.fds.connecting && d != c && s.fds.connecting[d].ctype == t {
        assert d in u.fds.connecting && u.fds.connecting[d] == s.fds.connecting[d];
      }
    }
  }

  /** A step leaves a key behind exactly when it takes one of the branches of Leaves. */
  lemma WedgesExactly(s: State, cfg: Config, step: Step, t: nat)
    requires cfg.Ok() && Sound(s) && t in SERVER_TYPES && t in s.keys && !Wedged(s, t)
    ensures t in Apply(s, cfg, step).keys
    ensures Wedged(Apply(s, cfg, step), t) <==> Leaves(s, cfg, step, t)
  {
    match step
    case Accept(fd, setupOk, ctlOk, now) => AcceptLeavesExactly(s, cfg, fd, setupOk, ctlOk, now, t);
    case Readable(fd, gen, recvs, now) => ReadKeepsClear(s, cfg, fd, gen, recvs, now, t);
    case Writable(fd, sends, modOk) => WriteKeepsClear(s, fd, sends, modOk, t);
    case PollError(fd) => CloseKeepsClear(s, fd, t);
    case SystemEvent(ctlOk, now) => EventLeavesExactly(s, cfg, ctlOk, now, t);
    case Scan(refused) => ScanKeepsClear(s, refused, t);
    case Expire(order, now) => CloseEachKeepsClear(s, order, Silent(s, cfg, now), t);
    case PostClose(fd, time) => PostKeepsClear(s, cfg, fd, time, t);
    case ConnectorOpen(c, fd, ctype) => OpenKeepsClear(s, c, fd, ctype, t);
    case ConnectorGiveUp(c) => GiveUpLeavesExactly(s, cfg, c, t);
    case ConnectorPost(c, now) => ConnectedLeavesExactly(s, cfg, c, now, t);
    case _ => SameKeepsClear(s, Apply(s, cfg, step), t);
  }

  ghost predicate LeftIn(open: set<int>, cfg: Config, steps: seq<Step>, t: nat)
    requires cfg.Ok()
  {
    exists k :: 0 <= k < |steps| && Leaves(Run(open, cfg, steps[..k]), cfg, steps[k], t)
  }

  /** So at the end of every run a key is left behind, for good, exactly when some
      step of the run took such a branch. */
  lemma {:induction false} WedgedExactlyAfter(open: set<int>, cfg: Config, steps: seq<Step>, t: nat)
    requires cfg.Ok() && t in SERVER_TYPES
    ensures t in Run(open, cfg, steps).keys
    ensures Wedged(Run(open, cfg, steps), t) <==> LeftIn(open, cfg, steps, t)
  {
    if steps != [] {
      var init, last := steps[..|steps| - 1], steps[|steps| - 1];
      var s := Run(open, cfg, init);
      assert steps == init + [last];
      WedgedExactlyAfter(open, cfg, init, t);
      LeftInOneMore(open, cfg, init, last, t);
      if Wedged(s, t) {
        WedgedForGood(s, cfg, last, t);
      } else {
        WedgesExactly(s, cfg, last, t);
      }
    }
  }

  lemma LeftInOneMore(open: set<int>, cfg: Config, steps: seq<Step>, last: Step, t: nat)
    requires cfg.Ok()
    ensures LeftIn(open, cfg, steps + [last], t) <==>
      LeftIn(open, cfg, steps, t) || Leaves(Run(open, cfg, steps), cfg, last, t)
  {
    var all := steps + [last];
    assert all[..|steps|] == steps;
    assert forall j :: 0 <= j < |steps| ==> all[..j] == steps[..j];
    if LeftIn(open, cfg, steps, t) {
      var k :| 0 <= k < |steps| && Leaves(Run(open, cfg, steps[..k]), cfg, steps[k], t);
      assert Leaves(Run(open, cfg, all[..k]), cfg, all[k], t);
    }
    if Leaves(Run(open, cfg, steps), cfg, last, t) {
      assert Leaves(Run(open, cfg, all[..|steps|]), cfg, all[|steps|], t);
    }
  }

  /** A run to a wedged key: the server cannot add the connection that its own
      connector made at an everyday clock reading. */
  lemma WedgeOccurs(cfg: Config, fd: int, t: nat, clock: int) returns (steps: seq<Step>)
    requires cfg.Ok() && cfg.maxEvents > 0 && fd >= 0 && t in SERVER_TYPES
    ensures steps == [ConnectorOpen(0, fd, t), ConnectorPost(0, clock), SystemEvent(false, clock)]
    ensures Wedged(Run({}, cfg, steps), t)
  {
    var s := Initial({});
    var u := OpenStep(s, 0, fd, t);
    var v := ConnectedStep(u, cfg, 0, clock);
    steps := Onwards(cfg, [], s, ConnectorOpen(0, fd, t), u);
    steps := Onwards(cfg, steps, u, ConnectorPost(0, clock), v);
    ArrivesNext(u, cfg, 0, clock, t);
    RefusedConnectionWedgesExactly(v, cfg, false, clock, t);
    steps := Onwards(cfg, steps, v, SystemEvent(false, clock), EventStep(v, cfg, false, clock));
  }

  lemma Onwards(cfg: Config, steps: seq<Step>, s: State, step: Step, t: State) returns (more: seq<Step>)
    requires cfg.Ok() && Sound(s) && Run({}, cfg, steps) == s && Apply(s, cfg, step) == t
    ensures more == steps + [step] && Run({}, cfg, more) == t
  {
    RunOn({}, cfg, steps, step);
    more := steps + [step];
  }

  lemma ArrivesNext(s: State, cfg: Config, c: nat, now: int, t: nat)
    requires t in SERVER_TYPES && OnlyConnecting(s, c, t) && s.events == [] && cfg.maxEvents > 0
    ensures var u := ConnectedStep(s, cfg, c, now); OnlyArriving(u, t) && u.events[0].fd == s.fds.connecting[c].fd
  {}

  // ----- What a key names -------------------------------------------------

  /** A key holds a provisional stamp, or the stamp of a generation and, if that
      is there, its descriptor. */
  predicate KeyOk(k: Key, table: map<int, Conn>, issued: nat) {
    k.gen == 0 ||
    (k.gen <= issued && k.time == Stamp(k.gen) && forall fd :: fd in table && table[fd].gen == k.gen ==> fd == k.fd)
  }

  ghost predicate KeysOk(s: State) {
    forall t :: t in s.keys ==> KeyOk(s.keys[t], s.table, s.issued)
  }

  /** Connections and keys may go, and that is all. */
  predicate Settles(s: State, u: State) {
    && u.issued == s.issued && (forall fd :: fd in u.table ==> fd in s.table && u.table[fd].gen == s.table[fd].gen)
    && (forall t :: t in u.keys ==> u.keys[t] == Key(0, -1, 0) || (t in s.keys && u.keys[t] == s.keys[t]))
  }

  lemma SettlesKeeps(s: State, u: State)
    requires KeysOk(s) && Settles(s, u)
    ensures KeysOk(u)
  {
    forall t | t in u.keys ensures KeyOk(u.keys[t], u.table, u.issued) {
      assert u.keys[t] != Key(0, -1, 0) ==> KeyOk(s.keys[t], s.table, s.issued);
    }
  }

  lemma CloseSettles(s: State, fd: int)
    ensures Settles(s, CloseFd(s, fd))
  {}

  lemma {:induction false} CloseEachSettles(s: State, order: seq<int>, due: set<int>)
    ensures Settles(s, CloseEach(s, order, due))
    decreases |order|
  {
    if order != [] {
      CloseSettles(s, order[0]);
      CloseEachSettles(if order[0] in due && order[0] in s.table then CloseFd(s, order[0]) else s, order[1..], due);
    }
  }

  lemma AbsorbSettles(s: State, fd: int, bytes: seq<byte>, now: int)
    requires fd in s.table
    ensures Settles(s, Absorb(s, fd, bytes, now).0)
  {}

  lemma {:induction false} ReadLoopSettles(s: State, cfg: Config, fd: int, script: seq<RecvReply>, now: int)
    requires cfg.Ok() && fd in s.table && |s.table[fd].part| < MAX_SEND_SIZE
    ensures Settles(s, ReadLoop(s, cfg, fd, script, now))
    decreases |script|
  {
    var r := RecvAll(cfg.recvRoom - |s.table[fd].part|, script);
    ReadLoopTurn(s, cfg, fd, script, now, r);
    if r.code < 0 {
      CloseSettles(s, fd);
    } else {
      AbsorbSettles(s, fd, r.bytes, now);
      var u, ok := Absorb(s, fd, r.bytes, now).0, Absorb(s, fd, r.bytes, now).1;
      if r.code == 0 || !ok {
        CloseSettles(u, fd);
      } else if r.code == 2 {
        ReadLoopSettles(u, cfg, fd, r.rest, now);
      }
    }
  }

  lemma AnnouncedKeepsKeys(s: State, fd: int, ctype: nat, now: int, u: State)
    requires Inv(s) && KeysOk(s) && u.table == s.table && u.issued == s.issued + 1
    requires u.keys == s.keys || u.keys == SetKey(s.keys, ctype, Key(u.issued, fd, Stamp(u.issued)))
    ensures KeysOk(u) && KeysOk(Insert(u, fd, ctype, now))
  {
    forall t | t in u.keys
      ensures KeyOk(u.keys[t], u.table, u.issued) && KeyOk(u.keys[t], Insert(u, fd, ctype, now).table, u.issued)
    {
      if u.keys[t].gen <= s.issued {
        assert t in s.keys && KeyOk(s.keys[t], s.table, s.issued);
      }
    }
  }

  lemma ReadKeepsKeys(s: State, cfg: Config, fd: int, gen: nat, script: seq<RecvReply>, now: int)
    requires cfg.Ok() && Sound(s) && KeysOk(s)
    ensures KeysOk(ReadStep(s, cfg, fd, gen, script, now))
  {
    if fd !in s.table || s.table[fd].gen != gen {
      CloseSettles(s, fd);
    } else {
      ReadLoopSettles(s, cfg, fd, script, now);
    }
    SettlesKeeps(s, ReadStep(s, cfg, fd, gen, script, now));
  }

  lemma WriteKeepsKeys(s: State, fd: int, script: seq<SendReply>, modOk: bool)
    requires KeysOk(s)
    ensures KeysOk(WriteStep(s, fd, script, modOk))
  {
    var t := SendQueued(s, fd, script).0;
    assert Settles(s, t);
    CloseSettles(t, fd);
    SettlesKeeps(s, WriteStep(s, fd, script, modOk));
  }

  lemma EventKeepsKeys(s: State, cfg: Config, ctlOk: bool, now: int)
    requires Inv(s) && KeysOk(s)
    ensures KeysOk(EventStep(s, cfg, ctlOk, now))
  {
    if s.events != [] {
      var t := s.(events := s.events[1..]);
      SameCoreKeeps(s, t);
      match s.events[0]
      case CloseClient(fd, _) =>
        CloseSettles(t, fd);
        SettlesKeeps(t, CloseFd(t, fd));
      case AddClient(fd, ctype) =>
        var u := Announce(t, fd, ctype);
        AnnouncedKeepsKeys(t, fd, ctype, now, u.(keys := SetKey(u.keys, ctype, Key(u.issued, fd, Stamp(u.issued)))));
    }
  }

  lemma AcceptKeepsKeys(s: State, cfg: Config, fd: int, setupOk: bool, ctlOk: bool, now: int)
    requires Inv(s) && KeysOk(s)
    ensures KeysOk(AcceptStep(s, cfg, fd, setupOk, ctlOk, now))
  {
    var t := Announce(s, fd, CLIENT_TYPE);
    AnnouncedKeepsKeys(s, fd, CLIENT_TYPE, now, t);
    AnnouncedKeepsKeys(s, fd, CLIENT_TYPE, now, OpenFd(t, fd));
  }

  lemma ScanKeepsKeys(s: State, refused: seq<int>)
    requires KeysOk(s)
    ensures KeysOk(ScanStep(s, refused))
  {
    CloseEachSettles(Trim(s, refused), refused, Refused(s, refused));
    SettlesKeeps(s, ScanStep(s, refused));
  }

  lemma ConnectedKeepsKeys(s: State, cfg: Config, c: nat, now: int)
    requires KeysOk(s)
    ensures KeysOk(ConnectedStep(s, cfg, c, now))
  {
    var u := ConnectedStep(s, cfg, c, now);
    forall t | t in u.keys ensures KeyOk(u.keys[t], u.table, u.issued) {
      assert t in s.keys && u.keys[t] == s.keys[t] ==> KeyOk(s.keys[t], s.table, s.issued);
    }
  }

  lemma StepKeepsKeys(s: State, cfg: Config, step: Step)
    requires cfg.Ok() && Inv(s) && KeysOk(s)
    ensures KeysOk(Apply(s, cfg, step))
  {
    match step
    case Accept(fd, setupOk, ctlOk, now) => AcceptKeepsKeys(s, cfg, fd, setupOk, ctlOk, now);
    case Readable(fd, gen, recvs, now) => ReadKeepsKeys(s, cfg, fd, gen, recvs, now);
    case Writable(fd, sends, modOk) => WriteKeepsKeys(s, fd, sends, modOk);
    case PollError(fd) =>
      CloseSettles(s, fd);
      SettlesKeeps(s, CloseFd(s, fd));
    case SystemEvent(ctlOk, now) => EventKeepsKeys(s, cfg, ctlOk, now);
    case Scan(refused) => ScanKeepsKeys(s, refused);
    case Expire(order, now) =>
      CloseEachSettles(s, order, Silent(s, cfg, now));
      SettlesKeeps(s, CloseEach(s, order, Silent(s, cfg, now)));
    case ConnectorPost(c, now) => ConnectedKeepsKeys(s, cfg, c, now);
    case _ => SettlesKeeps(s, Apply(s, cfg, step));
  }

  lemma {:induction false} KeysOverRuns(open: set<int>, cfg: Config, steps: seq<Step>)
    requires cfg.Ok()
    ensures KeysOk(Run(open, cfg, steps))
  {
    if steps != [] {
      var init := steps[..|steps| - 1];
      KeysOverRuns(open, cfg, init);
      InvOverRuns(open, cfg, init);
      StepKeepsKeys(Run(open, cfg, init), cfg, steps[|steps| - 1]);
    }
  }

  /** In every run, whatever is sent to a server by its key is honestly addressed:
      to the generation the key names, or by the provisional stamp. */
  lemma ServerMessagesAreHonest(open: set<int>, cfg: Config, steps: seq<Step>, t: nat, bytes: seq<byte>)
    requires cfg.Ok() && t in Run(open, cfg, steps).keys
    ensures var s := Run(open, cfg, steps);
      Honest(s, Msg(s.keys[t].gen, s.keys[t].fd, s.keys[t].time, bytes))
  {
    KeysOverRuns(open, cfg, steps);
    InvOverRuns(open, cfg, steps);
    var s := Run(open, cfg, steps);
    assert KeyOk(s.keys[t], s.table, s.issued);
  }
}
