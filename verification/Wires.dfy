/** What goes onto the wire, over every run: for a live connection, the bytes
    sent followed by those still queued are the accepted messages meant for it,
    in the order of acceptance, and no others. */
module Wires {
  import opened Bytes
  import opened Transfer
  import opened SendPath
  import opened Engine
  import opened Runs
  import opened Effects
  import opened Lifecycle

  /** The bytes of the messages meant for one generation. */
  function Meant(ms: seq<Msg>, g: nat): seq<byte> {
    if ms == [] then []
    else (if ms[0].gen == g then ms[0].bytes else []) + Meant(ms[1..], g)
  }

  lemma {:induction false} MeantAppend(a: seq<Msg>, b: seq<Msg>, g: nat)
    ensures Meant(a + b, g) == Meant(a, g) + Meant(b, g)
  {
    if a == [] {
      assert a + b == b;
    } else {
      MeantAppend(a[1..], b, g);
      assert (a + b)[1..] == a[1..] + b;
      Associate(if a[0].gen == g then a[0].bytes else [], Meant(a[1..], g), Meant(b, g));
    }
  }

  lemma {:induction false} MeantForNone(ms: seq<Msg>, g: nat)
    requires forall i :: 0 <= i < |ms| ==> ms[i].gen != g
    ensures Meant(ms, g) == []
  {
    if ms != [] {
      assert forall i :: 0 <= i < |ms[1..]| ==> ms[1..][i] == ms[i + 1];
      MeantForNone(ms[1..], g);
    }
  }

  lemma {:induction false} PendingForNone(ms: seq<Msg>, fd: int, time: int)
    requires forall i :: 0 <= i < |ms| ==> !Matches(ms[i], fd, time)
    ensures Pending(ms, fd, time) == []
  {
    if ms != [] {
      assert forall i :: 0 <= i < |ms[1..]| ==> ms[1..][i] == ms[i + 1];
      PendingForNone(ms[1..], fd, time);
    }
  }

  /** A sender means an issued generation and uses its stamp, or (gen 0) uses a
      provisional stamp, whatever the clock made it. */
  predicate Addressed(m: Msg, issued: nat) {
    m.gen == 0 || (m.gen <= issued && m.time == Stamp(m.gen))
  }

  /** And the descriptor of that connection, while it is there. */
  predicate Honest(s: State, m: Msg) {
    Addressed(m, s.issued) && forall fd :: fd in s.table && s.table[fd].gen == m.gen ==> m.fd == fd
  }

  predicate ListOk(ms: seq<Msg>, fd: int, issued: nat) {
    forall i :: 0 <= i < |ms| ==> ms[i].fd == fd && Addressed(ms[i], issued)
  }

  ghost predicate MapOk(m: SendMap, issued: nat) {
    forall fd :: ListOk(Messages(m, fd), fd, issued)
  }

  /** Nothing in use is as old as a whole round of stamps, and getIndex has not
      come up to the clock reading of a provisional stamp still in a queue. */
  ghost predicate Current(s: State) {
    && (forall fd :: fd in s.table ==> s.table[fd].gen + WINDOW > s.issued)
    && (forall fd, i :: 0 <= i < |Messages(s.out.front, fd)| ==> Recent(Messages(s.out.front, fd)[i], s.issued))
    && (forall fd, i :: 0 <= i < |Messages(s.out.back, fd)| ==> Recent(Messages(s.out.back, fd)[i], s.issued))
  }

  predicate Recent(m: Msg, issued: nat) {
    if m.gen == 0 then !(1 <= m.time <= issued) else m.gen + WINDOW > issued
  }

  predicate WireOk(c: Conn, fd: int, front: SendMap, back: SendMap, accepted: seq<Msg>) {
    c.wire + (PendingAt(back, fd, c.time) + PendingAt(front, fd, c.time)) == Meant(accepted, c.gen)
  }

  /** The connection on fd skip, about to be closed, is exempt. */
  ghost predicate WiresOkExcept(s: State, skip: int) {
    && MapOk(s.out.front, s.issued) && MapOk(s.out.back, s.issued)
    && (forall i :: 0 <= i < |s.hist.accepted| ==> s.hist.accepted[i].gen <= s.issued)
    && (forall fd :: fd in s.table && s.table[fd].gen !in s.hist.spoiled && fd != skip ==>
          WireOk(s.table[fd], fd, s.out.front, s.out.back, s.hist.accepted))
  }

  ghost predicate WiresOk(s: State) {
    WiresOkExcept(s, -1)
  }

  /** Within one round, the stamp decides which generation is meant. */
  lemma StampDecides(m: Msg, c: Conn, fd: int, issued: nat)
    requires Addressed(m, issued) && Recent(m, issued)
    requires 1 <= c.gen <= issued < c.gen + WINDOW && c.time == Stamp(c.gen) && (m.gen == c.gen ==> m.fd == fd)
    ensures Matches(m, fd, c.time) <==> m.fd == fd && m.gen == c.gen
    ensures m.gen == c.gen ==> Matches(m, fd, c.time)
  {
    StampIsSmall(c.gen);
    if m.gen == 0 {
    } else if m.gen <= c.gen {
      StampsRepeatExactly(m.gen, c.gen);
    } else {
      StampsRepeatExactly(c.gen, m.gen);
    }
  }

  lemma ContinuesKeepsWires(s: State, t: State, skip: int)
    requires WiresOkExcept(s, skip) && Continues(s, t) && skip !in t.table
    ensures WiresOk(t)
  {}

  // ----- Steps ------------------------------------------------------------

  lemma AddMsgKeepsLists(front: SendMap, limit: nat, m: Msg, fd: int, issued: nat)
    requires ListOk(Messages(front, fd), fd, issued) && Addressed(m, issued)
    ensures ListOk(Messages(AddMsg(front, limit, m).0, fd), fd, issued)
    ensures AddMsg(front, limit, m).1 ==>
      var ms := Messages(AddMsg(front, limit, m).0, m.fd); |ms| > 0 && ms[|ms| - 1] == m
  {}

  /** An accepted message is meant for this connection exactly when it will be
      taken for this connection's. */
  lemma AddMsgKeepsWire(c: Conn, fd: int, front: SendMap, back: SendMap, accepted: seq<Msg>, limit: nat, m: Msg)
    requires WireOk(c, fd, front, back, accepted) && (Matches(m, fd, c.time) <==> m.gen == c.gen)
    ensures var (front', ok) := AddMsg(front, limit, m);
      WireOk(c, fd, front', back, if ok then accepted + [m] else accepted)
  {
    AddMsgPending(front, limit, m, fd, c.time);
    var ok := AddMsg(front, limit, m).1;
    var more := if ok && m.gen == c.gen then m.bytes else [];
    MeantAppend(accepted, [m], c.gen);
    assert [m][1..] == [];
    Regroup(c.wire, PendingAt(back, fd, c.time), PendingAt(front, fd, c.time), more);
    assert Meant(accepted, c.gen) + [] == Meant(accepted, c.gen);
  }

  lemma RefusedKeepsWire(c: Conn, fd: int, front: SendMap, back: SendMap, accepted: seq<Msg>, limit: nat, m: Msg)
    requires WireOk(c, fd, front, back, accepted) && !AddMsg(front, limit, m).1
    ensures WireOk(c, fd, AddMsg(front, limit, m).0, back, accepted)
  {
    AddMsgPending(front, limit, m, fd, c.time);
    assert PendingAt(front, fd, c.time) + [] == PendingAt(front, fd, c.time);
  }

  lemma EnqueueKeepsWires(s: State, cfg: Config, m: Msg)
    requires Inv(s) && WiresOk(s) && Honest(s, m)
    requires Current(EnqueueStep(s, cfg, m))
    ensures WiresOk(EnqueueStep(s, cfg, m))
  {
    var t := EnqueueStep(s, cfg, m);
    forall fd ensures ListOk(Messages(t.out.front, fd), fd, t.issued) {
      assert ListOk(Messages(s.out.front, fd), fd, s.issued);
      AddMsgKeepsLists(s.out.front, cfg.maxSend, m, fd, s.issued);
    }
    forall fd | fd in t.table && t.table[fd].gen !in t.hist.spoiled && fd != -1
      ensures WireOk(t.table[fd], fd, t.out.front, t.out.back, t.hist.accepted)
    {
      var c := s.table[fd];
      assert WireOk(c, fd, s.out.front, s.out.back, s.hist.accepted);
      if AddMsg(s.out.front, cfg.maxSend, m).1 {
        AddMsgKeepsLists(s.out.front, cfg.maxSend, m, m.fd, s.issued);
        assert Recent(m, s.issued);
        StampDecides(m, c, fd, s.issued);
        AddMsgKeepsWire(c, fd, s.out.front, s.out.back, s.hist.accepted, cfg.maxSend, m);
      } else {
        RefusedKeepsWire(c, fd, s.out.front, s.out.back, s.hist.accepted, cfg.maxSend, m);
      }
    }
  }

  lemma Regroup<T>(a: seq<T>, b: seq<T>, c: seq<T>, d: seq<T>)
    ensures a + (b + (c + d)) == (a + (b + c)) + d
  {}

  lemma ListsOk(a: seq<Msg>, b: seq<Msg>, fd: int, issued: nat)
    requires ListOk(a, fd, issued) && ListOk(b, fd, issued)
    ensures ListOk(a + b, fd, issued)
  {}

  lemma SwitchKeepsLists(front: SendMap, back: SendMap, limit: nat, fd: int, issued: nat)
    requires ListOk(Messages(front, fd), fd, issued) && ListOk(Messages(back, fd), fd, issued)
    ensures ListOk(Messages(Switch(front, back, limit).0, fd), fd, issued)
    ensures ListOk(Messages(Switch(front, back, limit).1, fd), fd, issued)
  {
    if front != map[] {
      SwitchedMessages(front, back, limit, fd);
      ListsOk(Messages(back, fd), Messages(front, fd), fd, issued);
      ListsOk(Messages(front, fd), Messages(back, fd), fd, issued);
    }
  }

  lemma SwitchKeepsWires(s: State, cfg: Config)
    requires Inv(s) && WiresOk(s)
    ensures WiresOk(SwitchStep(s, cfg))
  {
    var t := SwitchStep(s, cfg);
    forall fd
      ensures ListOk(Messages(t.out.front, fd), fd, t.issued) && ListOk(Messages(t.out.back, fd), fd, t.issued)
    {
      assert ListOk(Messages(s.out.front, fd), fd, s.issued) && ListOk(Messages(s.out.back, fd), fd, s.issued);
      SwitchKeepsLists(s.out.front, s.out.back, cfg.maxSend, fd, s.issued);
    }
    forall fd | fd in t.table && t.table[fd].gen !in t.hist.spoiled
      ensures WireOk(t.table[fd], fd, t.out.front, t.out.back, t.hist.accepted)
    {
      assert t.hist.spoiled == s.hist.spoiled + Spoils(s, cfg) && s.table[fd].gen !in Spoils(s, cfg);
      assert WireOk(s.table[fd], fd, s.out.front, s.out.back, s.hist.accepted);
      SwitchKeepsPending(s.out.front, s.out.back, cfg.maxSend, fd, s.table[fd].time);
    }
  }

  lemma {:induction false} DrainKeepsList(ms: seq<Msg>, fd: int, time: int, script: seq<SendReply>, issued: nat)
    requires ListOk(ms, fd, issued)
    ensures ListOk(Drain(ms, fd, time, script).rest, fd, issued)
  {
    if ms != [] {
      assert forall i :: 0 <= i < |ms[1..]| ==> ms[1..][i] == ms[i + 1];
      var r := SendAll(|ms[0].bytes|, script);
      if !Matches(ms[0], fd, time) {
        DrainKeepsList(ms[1..], fd, time, script, issued);
      } else if r.code > 0 {
        DrainKeepsList(ms[1..], fd, time, r.rest, issued);
      }
    }
  }

  lemma SentOne(w: seq<byte>, d: seq<byte>, left: seq<byte>, before: seq<byte>, front: seq<byte>)
    requires d + left == before
    ensures (w + d) + (left + front) == w + (before + front)
  {
    assert (d + left) + front == d + (left + front);
    Associate(w, d, left + front);
  }

  lemma SendQueuedKeepsLists(s: State, fd: int, script: seq<SendReply>, f: int)
    requires ListOk(Messages(s.out.back, f), f, s.issued)
    ensures ListOk(Messages(SendQueued(s, fd, script).0.out.back, f), f, s.issued)
    ensures f in s.table && f != fd && f >= 0 ==>
      Messages(SendQueued(s, fd, script).0.out.back, f) == Messages(s.out.back, f)
  {
    if f == fd && fd in s.table && fd in s.out.back && s.out.back[fd].List? {
      DrainKeepsList(s.out.back[fd].msgs, fd, s.table[fd].time, script, s.issued);
    }
  }

  lemma SendQueuedKeepsWire(s: State, fd: int, script: seq<SendReply>)
    requires fd in s.table && WireOk(s.table[fd], fd, s.out.front, s.out.back, s.hist.accepted)
      && !SendQueued(s, fd, script).1
    ensures var t := SendQueued(s, fd, script).0; WireOk(t.table[fd], fd, t.out.front, t.out.back, t.hist.accepted)
  {
    if fd in s.out.back && s.out.back[fd].List? {
      var c := s.table[fd];
      var d := Drain(s.out.back[fd].msgs, fd, c.time, script);
      DrainIsFaithful(s.out.back[fd].msgs, fd, c.time, script);
      SentOne(c.wire, d.wire, Pending(d.rest, fd, c.time), PendingAt(s.out.back, fd, c.time),
        PendingAt(s.out.front, fd, c.time));
    }
  }

  lemma SendQueuedKeepsMap(s: State, fd: int, script: seq<SendReply>)
    requires MapOk(s.out.back, s.issued)
    ensures MapOk(SendQueued(s, fd, script).0.out.back, s.issued)
  {
    forall f ensures ListOk(Messages(SendQueued(s, fd, script).0.out.back, f), f, s.issued) {
      assert ListOk(Messages(s.out.back, f), f, s.issued);
      SendQueuedKeepsLists(s, fd, script, f);
    }
  }

  /** Everything about the connection on f that is not fd. */
  lemma SendQueuedSpares(s: State, fd: int, script: seq<SendReply>, f: int)
    requires f in s.table && f >= 0 && f != fd && WireOk(s.table[f], f, s.out.front, s.out.back, s.hist.accepted)
    requires ListOk(Messages(s.out.back, f), f, s.issued)
    ensures var t := SendQueued(s, fd, script).0;
      f in t.table && WireOk(t.table[f], f, t.out.front, t.out.back, t.hist.accepted)
  {
    SendQueuedKeepsLists(s, fd, script, f);
  }

  lemma SendQueuedKeepsWires(s: State, fd: int, script: seq<SendReply>)
    requires Inv(s) && WiresOk(s)
    ensures var t, failed := SendQueued(s, fd, script).0, SendQueued(s, fd, script).1;
      WiresOkExcept(t, if failed then fd else -1) && (failed ==> fd in t.table)
  {
    var t, failed := SendQueued(s, fd, script).0, SendQueued(s, fd, script).1;
    SendQueuedKeepsMap(s, fd, script);
    SendQueuedKeepsRest(s, fd, script);
    forall f | f in t.table && t.table[f].gen !in t.hist.spoiled && f != (if failed then fd else -1)
      ensures WireOk(t.table[f], f, t.out.front, t.out.back, t.hist.accepted)
    {
      assert f >= 0 && WireOk(s.table[f], f, s.out.front, s.out.back, s.hist.accepted);
      if f == fd {
        SendQueuedKeepsWire(s, fd, script);
      } else {
        assert ListOk(Messages(s.out.back, f), f, s.issued);
        SendQueuedSpares(s, fd, script, f);
      }
    }
  }

  lemma SendQueuedKeepsRest(s: State, fd: int, script: seq<SendReply>)
    ensures var t := SendQueued(s, fd, script).0;
      && t.out.front == s.out.front && t.hist == s.hist && t.issued == s.issued && t.table.Keys == s.table.Keys
      && (forall f :: f in t.table ==> t.table[f].gen == s.table[f].gen)
      && (SendQueued(s, fd, script).1 ==> fd in t.table)
  {}

  lemma WriteKeepsWires(s: State, fd: int, script: seq<SendReply>, modOk: bool)
    requires Inv(s) && WiresOk(s)
    ensures WiresOk(WriteStep(s, fd, script, modOk))
  {
    var t, failed := SendQueued(s, fd, script).0, SendQueued(s, fd, script).1;
    SendQueuedKeepsWires(s, fd, script);
    CloseKeepsWires(t, fd, if failed then fd else -1);
  }

  lemma CloseKeepsWires(s: State, fd: int, skip: int)
    requires WiresOkExcept(s, skip) && (skip == -1 || (skip == fd && fd in s.table && fd >= 0))
    requires forall f :: f in s.table ==> f >= 0
    ensures WiresOk(CloseFd(s, fd))
  {
    CloseIsEither(s, fd);
    if fd in s.table {
      ContinuesKeepsWires(s, CloseFd(s, fd), skip);
    }
  }

  lemma ReadKeepsWires(s: State, cfg: Config, fd: int, gen: nat, script: seq<RecvReply>, now: int)
    requires cfg.Ok() && Inv(s) && WiresOk(s)
    ensures WiresOk(ReadStep(s, cfg, fd, gen, script, now))
  {
    if fd !in s.table || s.table[fd].gen != gen {
      CloseKeepsWires(s, fd, -1);
    } else {
      ReadLoopContinues(s, cfg, fd, script, now);
      ContinuesKeepsWires(s, ReadLoop(s, cfg, fd, script, now), -1);
    }
  }

  lemma ScanKeepsWires(s: State, refused: seq<int>)
    requires Inv(s) && WiresOk(s)
    ensures WiresOk(ScanStep(s, refused))
  {
    var gone := Refused(s, refused);
    var t := Trim(s, refused);
    var u := CloseEach(t, refused, gone);
    ClosingEachContinues(t, refused, gone);
    forall f ensures ListOk(Messages(u.out.back, f), f, u.issued) && ListOk(Messages(u.out.front, f), f, u.issued) {
      assert ListOk(Messages(s.out.back, f), f, s.issued) && ListOk(Messages(s.out.front, f), f, s.issued);
    }
    forall f | f in u.table && u.table[f].gen !in u.hist.spoiled
      ensures WireOk(u.table[f], f, u.out.front, u.out.back, u.hist.accepted)
    {
      if f in gone {
        ClosedAreGone(t, refused, gone, f);
      }
      assert WireOk(s.table[f], f, s.out.front, s.out.back, s.hist.accepted);
      assert Messages(u.out.back, f) == Messages(s.out.back, f);
    }
  }

  lemma AddedKeepsWires(s: State, fd: int, ctype: nat, now: int, t: State)
    requires Inv(s) && WiresOk(s) && SameWires(Announce(s, fd, ctype), t)
    ensures WiresOk(t) && (fd >= 0 && Current(Insert(t, fd, ctype, now)) ==> WiresOk(Insert(t, fd, ctype, now)))
  {
    forall f ensures ListOk(Messages(t.out.front, f), f, t.issued) && ListOk(Messages(t.out.back, f), f, t.issued) {
      assert ListOk(Messages(s.out.front, f), f, s.issued) && ListOk(Messages(s.out.back, f), f, s.issued);
    }
    assert WiresOk(t);
    var u := Insert(t, fd, ctype, now);
    if fd >= 0 && Current(u) {
      var c := u.table[fd];
      NothingForTheNewcomer(Messages(u.out.front, fd), fd, s.issued);
      NothingForTheNewcomer(Messages(u.out.back, fd), fd, s.issued);
      MeantForNone(u.hist.accepted, c.gen);
      assert WireOk(c, fd, u.out.front, u.out.back, u.hist.accepted);
    }
  }

  lemma NothingForTheNewcomer(ms: seq<Msg>, fd: int, issued: nat)
    requires ListOk(ms, fd, issued) && forall i :: 0 <= i < |ms| ==> Recent(ms[i], issued + 1)
    ensures Pending(ms, fd, Stamp(issued + 1)) == []
  {
    forall i | 0 <= i < |ms| ensures !Matches(ms[i], fd, Stamp(issued + 1)) {
      StampIsSmall(issued + 1);
      StampsRepeatExactly(if ms[i].gen == 0 then issued + 1 else ms[i].gen, issued + 1);
    }
    PendingForNone(ms, fd, Stamp(issued + 1));
  }

  lemma AcceptKeepsWires(s: State, cfg: Config, fd: int, setupOk: bool, ctlOk: bool, now: int)
    requires Inv(s) && WiresOk(s) && Current(AcceptStep(s, cfg, fd, setupOk, ctlOk, now))
    ensures WiresOk(AcceptStep(s, cfg, fd, setupOk, ctlOk, now))
  {
    var t := Announce(s, fd, CLIENT_TYPE);
    AddedKeepsWires(s, fd, CLIENT_TYPE, now, t);
    AddedKeepsWires(s, fd, CLIENT_TYPE, now, OpenFd(t, fd));
  }

  lemma EventKeepsWires(s: State, cfg: Config, ctlOk: bool, now: int)
    requires Inv(s) && WiresOk(s) && Current(EventStep(s, cfg, ctlOk, now))
    ensures WiresOk(EventStep(s, cfg, ctlOk, now))
  {
    if s.events != [] {
      var t := s.(events := s.events[1..]);
      SameCoreKeeps(s, t);
      match s.events[0]
      case CloseClient(fd, _) => CloseKeepsWires(t, fd, -1);
      case AddClient(fd, ctype) =>
        var u := Announce(t, fd, ctype);
        AddedKeepsWires(t, fd, ctype, now, u.(keys := SetKey(u.keys, ctype, Key(u.issued, fd, Stamp(u.issued)))));
    }
  }

  /** t agrees with s on all that goes into the wires. */
  predicate SameWires(s: State, t: State) {
    && t.table == s.table && t.issued == s.issued && t.out == s.out
    && t.hist.accepted == s.hist.accepted && t.hist.spoiled == s.hist.spoiled
  }

  lemma SameWiresKeeps(s: State, t: State)
    requires WiresOk(s) && SameWires(s, t)
    ensures WiresOk(t)
  {}

  lemma FlushKeepsWires(s: State, cfg: Config)
    requires WiresOk(s)
    ensures WiresOk(FlushStep(s, cfg))
  {
    SameWiresKeeps(s, FlushStep(s, cfg));
  }

  lemma PopKeepsWires(s: State)
    requires WiresOk(s)
    ensures WiresOk(PopStep(s))
  {
    SameWiresKeeps(s, PopStep(s));
  }

  lemma PostKeepsWires(s: State, cfg: Config, e: Event)
    requires WiresOk(s)
    ensures WiresOk(PostStep(s, cfg, e))
  {
    SameWiresKeeps(s, PostStep(s, cfg, e));
  }

  lemma OpenKeepsWires(s: State, c: nat, fd: int, ctype: nat)
    requires WiresOk(s)
    ensures WiresOk(OpenStep(s, c, fd, ctype))
  {
    SameWiresKeeps(s, OpenStep(s, c, fd, ctype));
  }

  lemma GiveUpKeepsWires(s: State, c: nat)
    requires WiresOk(s)
    ensures WiresOk(GiveUpStep(s, c))
  {
    SameWiresKeeps(s, GiveUpStep(s, c));
  }

  lemma ConnectedKeepsWires(s: State, cfg: Config, c: nat, now: int)
    requires WiresOk(s)
    ensures WiresOk(ConnectedStep(s, cfg, c, now))
  {
    SameWiresKeeps(s, ConnectedStep(s, cfg, c, now));
  }

  lemma StepKeepsWires(s: State, cfg: Config, step: Step)
    requires cfg.Ok() && Inv(s) && WiresOk(s) && (step.Enqueue? ==> Honest(s, step.m)) && Current(Apply(s, cfg, step))
    ensures WiresOk(Apply(s, cfg, step))
  {
    if step.Accept? || step.SystemEvent? || step.Enqueue? {
      AddingKeepsWires(s, cfg, step);
    } else {
      OtherStepKeepsWires(s, cfg, step);
    }
  }

  lemma AddingKeepsWires(s: State, cfg: Config, step: Step)
    requires cfg.Ok() && Inv(s) && WiresOk(s) && (step.Accept? || step.SystemEvent? || step.Enqueue?)
    requires (step.Enqueue? ==> Honest(s, step.m)) && Current(Apply(s, cfg, step))
    ensures WiresOk(Apply(s, cfg, step))
  {
    var t := Apply(s, cfg, step);
    match step
    case Accept(fd, setupOk, ctlOk, now) =>
      assert t == AcceptStep(s, cfg, fd, setupOk, ctlOk, now);
      AcceptKeepsWires(s, cfg, fd, setupOk, ctlOk, now);
    case SystemEvent(ctlOk, now) =>
      assert t == EventStep(s, cfg, ctlOk, now);
      EventKeepsWires(s, cfg, ctlOk, now);
    case Enqueue(m) =>
      assert t == EnqueueStep(s, cfg, m);
      EnqueueKeepsWires(s, cfg, m);
  }

  lemma OtherStepKeepsWires(s: State, cfg: Config, step: Step)
    requires cfg.Ok() && Inv(s) && WiresOk(s) && !step.Accept? && !step.SystemEvent? && !step.Enqueue?
    ensures WiresOk(Apply(s, cfg, step))
  {
    match step
    case Readable(fd, gen, recvs, now) => ReadKeepsWires(s, cfg, fd, gen, recvs, now);
    case Writable(fd, sends, modOk) => WriteKeepsWires(s, fd, sends, modOk);
    case PollError(fd) => CloseKeepsWires(s, fd, -1);
    case SwitchMaps => SwitchKeepsWires(s, cfg);
    case Scan(refused) => ScanKeepsWires(s, refused);
    case Expire(order, now) =>
      ClosingEachContinues(s, order, Silent(s, cfg, now));
      ContinuesKeepsWires(s, CloseEach(s, order, Silent(s, cfg, now)), -1);
    case Flush => FlushKeepsWires(s, cfg);
    case Pop => PopKeepsWires(s);
    case PostClose(fd, time) => PostKeepsWires(s, cfg, CloseClient(fd, time));
    case ConnectorOpen(c, fd, ctype) => OpenKeepsWires(s, c, fd, ctype);
    case ConnectorGiveUp(c) => GiveUpKeepsWires(s, c);
    case ConnectorPost(c, now) => ConnectedKeepsWires(s, cfg, c, now);
  }

  // ----- Runs -------------------------------------------------------------

  /** Senders are honest, and no connection or message outlives its stamp. */
  ghost predicate Wellrun(open: set<int>, cfg: Config, steps: seq<Step>)
    requires cfg.Ok()
  {
    && (forall k :: 0 <= k < |steps| && steps[k].Enqueue? ==> Honest(Run(open, cfg, steps[..k]), steps[k].m))
    && (forall k :: 0 <= k <= |steps| ==> Current(Run(open, cfg, steps[..k])))
  }

  lemma {:induction false} WiresOverRuns(open: set<int>, cfg: Config, steps: seq<Step>)
    requires cfg.Ok() && Wellrun(open, cfg, steps)
    ensures WiresOk(Run(open, cfg, steps))
  {
    if steps != [] {
      var k := |steps| - 1;
      var init := steps[..k];
      assert steps[..|steps|] == steps;
      assert forall j :: 0 <= j <= k ==> init[..j] == steps[..j];
      WiresOverRuns(open, cfg, init);
      InvOverRuns(open, cfg, init);
      assert Current(Run(open, cfg, steps[..|steps|]));
      assert steps[k].Enqueue? ==> Honest(Run(open, cfg, steps[..k]), steps[k].m);
      StepKeepsWires(Run(open, cfg, init), cfg, steps[k]);
    }
  }

  /** Send-path refinement: in every run, for every live connection that no
      overflowing switch has touched, the bytes on the wire, those left in the
      back list and those of the front list are together exactly the messages
      accepted for its generation, in order of acceptance. A message queued for
      an earlier generation on the same descriptor is not among them. */
  lemma WireRefinesAccepted(open: set<int>, cfg: Config, steps: seq<Step>, fd: int)
    requires cfg.Ok() && Wellrun(open, cfg, steps)
    ensures var s := Run(open, cfg, steps);
      fd in s.table && s.table[fd].gen !in s.hist.spoiled ==>
        var c := s.table[fd];
        c.wire + (PendingAt(s.out.back, fd, c.time) + PendingAt(s.out.front, fd, c.time)) ==
          Meant(s.hist.accepted, c.gen)
  {
    WiresOverRuns(open, cfg, steps);
    InvOverRuns(open, cfg, steps);
    WireOfLive(Run(open, cfg, steps), fd);
  }

  lemma WireOfLive(s: State, fd: int)
    requires Inv(s) && WiresOk(s)
    ensures fd in s.table && s.table[fd].gen !in s.hist.spoiled ==>
      var c := s.table[fd];
      c.wire + (PendingAt(s.out.back, fd, c.time) + PendingAt(s.out.front, fd, c.time)) == Meant(s.hist.accepted, c.gen)
  {
    if fd in s.table && s.table[fd].gen !in s.hist.spoiled {
      assert WireOk(s.table[fd], fd, s.out.front, s.out.back, s.hist.accepted);
    }
  }

  /** A worker that answers a note on the note's own descriptor and stamp is an
      honest sender. */
  lemma RepliesAreHonest(open: set<int>, cfg: Config, steps: seq<Step>, n: Note, bytes: seq<byte>)
    requires cfg.Ok() && n in Run(open, cfg, steps).hist.popped
    ensures Honest(Run(open, cfg, steps), Msg(n.gen, n.fd, n.time, bytes))
  {
    RunIsNamed(open, cfg, steps);
    var s := Run(open, cfg, steps);
    var k :| 0 <= k < |s.hist.log| && s.hist.log[k] == n;
  }

  lemma {:induction false} PendingIsMeant(ms: seq<Msg>, fd: int, c: Conn, issued: nat)
    requires ListOk(ms, fd, issued) && forall i :: 0 <= i < |ms| ==> Recent(ms[i], issued)
    requires 1 <= c.gen <= issued < c.gen + WINDOW && c.time == Stamp(c.gen)
    ensures Pending(ms, fd, c.time) == Meant(ms, c.gen)
  {
    if ms != [] {
      assert forall i :: 0 <= i < |ms[1..]| ==> ms[1..][i] == ms[i + 1];
      PendingIsMeant(ms[1..], fd, c, issued);
      StampDecides(ms[0], c, fd, issued);
    }
  }

  /** Generation safety, overflow or not: in every run, what a send puts on a
      connection's wire is a prefix of the queued messages meant for that very
      generation; what was queued for any other connection is skipped. */
  lemma OnlyOwnBytesAreSent(open: set<int>, cfg: Config, steps: seq<Step>, fd: int, sends: seq<SendReply>)
    requires cfg.Ok() && Wellrun(open, cfg, steps) && fd in Run(open, cfg, steps).table
    ensures var s := Run(open, cfg, steps);
      var c, t := s.table[fd], SendQueued(s, fd, sends).0;
      fd in t.table && c.wire <= t.table[fd].wire <= c.wire + Meant(Messages(s.out.back, fd), c.gen)
  {
    WiresOverRuns(open, cfg, steps);
    InvOverRuns(open, cfg, steps);
    assert steps[..|steps|] == steps;
    SendIsOwn(Run(open, cfg, steps), fd, sends);
  }

  lemma SendIsOwn(s: State, fd: int, sends: seq<SendReply>)
    requires Inv(s) && WiresOk(s) && Current(s) && fd in s.table
    ensures var c, t := s.table[fd], SendQueued(s, fd, sends).0;
      fd in t.table && c.wire <= t.table[fd].wire <= c.wire + Meant(Messages(s.out.back, fd), c.gen)
  {
    var c, ms := s.table[fd], Messages(s.out.back, fd);
    assert ListOk(ms, fd, s.issued);
    assert forall i :: 0 <= i < |ms| ==> Recent(Messages(s.out.back, fd)[i], s.issued);
    PendingIsMeant(ms, fd, c, s.issued);
    DrainIsFaithful(ms, fd, c.time, sends);
    if fd in s.out.back && s.out.back[fd].List? {
      var d := Drain(ms, fd, c.time, sends);
      FaithfulIsPrefix(d, Meant(ms, c.gen), c.wire, fd, c.time);
    }
  }

  lemma FaithfulIsPrefix(d: Drained, before: seq<byte>, wire: seq<byte>, fd: int, time: int)
    requires Faithful(d, before, fd, time)
    ensures d.wire <= before && wire + d.wire <= wire + before
  {
    assert wire + before == (wire + d.wire) + before[|d.wire|..];
  }

  /** How much of them: the wire grows by what the kernel's replies moved, and
      the send fails exactly when the last reply used is an error. */
  ghost predicate SendStory(s: State, fd: int, sends: seq<SendReply>, used: seq<SendReply>)
    requires fd in s.table
  {
    var c, t, failed := s.table[fd], SendQueued(s, fd, sends).0, SendQueued(s, fd, sends).1;
    var own := Meant(Messages(s.out.back, fd), c.gen);
    && used <= sends && Calls(|own|, used) && MovedBy(used) <= |own|
    && fd in t.table && t.table[fd].wire == c.wire + own[..MovedBy(used)]
    && (failed <==> used != [] && used[|used| - 1].SendFailed?)
    && (|| MovedBy(used) == |own| || used == sends
        || (used != [] && (used[|used| - 1].SendBlocked? || used[|used| - 1].SendFailed?)))
  }

  lemma {:induction false} TotalIsPending(ms: seq<Msg>, fd: int, time: int)
    ensures Total(OwnLengths(ms, fd, time)) == |Pending(ms, fd, time)|
  {
    if ms != [] {
      TotalIsPending(ms[1..], fd, time);
      var more := OwnLengths(ms[1..], fd, time);
      if Matches(ms[0], fd, time) {
        assert ([|ms[0].bytes|] + more)[1..] == more;
      } else {
        assert [] + more == more;
      }
    }
  }

  /** In every run, on a kernel that moves no more than it is asked to. */
  lemma SendsExactly(open: set<int>, cfg: Config, steps: seq<Step>, fd: int, sends: seq<SendReply>)
      returns (used: seq<SendReply>)
    requires cfg.Ok() && Wellrun(open, cfg, steps) && fd in Run(open, cfg, steps).table
    requires var s := Run(open, cfg, steps);
      Asked(OwnLengths(Messages(s.out.back, fd), fd, s.table[fd].time), sends)
    ensures SendStory(Run(open, cfg, steps), fd, sends, used)
  {
    WiresOverRuns(open, cfg, steps);
    InvOverRuns(open, cfg, steps);
    assert steps[..|steps|] == steps;
    used := SendIsExact(Run(open, cfg, steps), fd, sends);
  }

  lemma SendIsExact(s: State, fd: int, sends: seq<SendReply>) returns (used: seq<SendReply>)
    requires Inv(s) && WiresOk(s) && Current(s) && fd in s.table
    requires Asked(OwnLengths(Messages(s.out.back, fd), fd, s.table[fd].time), sends)
    ensures SendStory(s, fd, sends, used)
  {
    var c, ms := s.table[fd], Messages(s.out.back, fd);
    var own, lens := Meant(ms, c.gen), OwnLengths(ms, fd, c.time);
    SendIsOwn(s, fd, sends);
    assert ListOk(ms, fd, s.issued) && forall i :: 0 <= i < |ms| ==> Recent(Messages(s.out.back, fd)[i], s.issued);
    PendingIsMeant(ms, fd, c, s.issued);
    TotalIsPending(ms, fd, c.time);
    used := FlowExactly(lens, sends);
    DrainMovesExactly(ms, fd, c.time, sends);
    DrainFailsExactly(ms, fd, c.time, sends);
    SentBytes(s, fd, sends);
    TakenOf(c.wire, own, SendQueued(s, fd, sends).0.table[fd].wire, MovedBy(used));
  }

  lemma SentBytes(s: State, fd: int, sends: seq<SendReply>)
    requires fd in s.table
    ensures var c, t := s.table[fd], SendQueued(s, fd, sends);
      var d := Drain(Messages(s.out.back, fd), fd, c.time, sends);
      fd in t.0.table && |t.0.table[fd].wire| == |c.wire| + |d.wire| && (t.1 <==> d.code < 0)
  {}

  lemma TakenOf(wire: seq<byte>, own: seq<byte>, after: seq<byte>, n: nat)
    requires wire <= after <= wire + own && |after| == |wire| + n
    ensures n <= |own| && after == wire + own[..n]
  {
    assert after == (wire + own)[..|wire| + n];
  }
}
