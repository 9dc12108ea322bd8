/** What a read event takes from the kernel, when it ends the connection, and how
    the event loop knows which connections have been silent. */
module Reading {
  import opened Bytes
  import opened Framing
  import opened Transfer
  import opened Engine
  import opened Runs

  // ----- Read events ------------------------------------------------------

  /** The replies up to the first that brings nothing. */
  function Lead(script: seq<RecvReply>): (lead: seq<RecvReply>)
    ensures lead <= script && forall k :: 0 <= k < |lead| ==> GoesOn(lead[k])
    ensures |lead| == |script| || !GoesOn(script[|lead|])
  {
    if script == [] || !GoesOn(script[0]) then [] else [script[0]] + Lead(script[1..])
  }

  /** The first such reply is an error or the peer's end. */
  predicate EndsBadly(script: seq<RecvReply>) {
    |Lead(script)| < |script| && HangUp(script[|Lead(script)|])
  }

  predicate Fails(script: seq<RecvReply>) {
    |Lead(script)| < |script| && script[|Lead(script)|].RecvFailed?
  }

  lemma LeadIsUnique(script: seq<RecvReply>, lead: seq<RecvReply>)
    requires lead <= script && (forall k :: 0 <= k < |lead| ==> GoesOn(lead[k]))
    requires |lead| == |script| || !GoesOn(script[|lead|])
    ensures Lead(script) == lead
  {}

  lemma LeadOfSum(used: seq<RecvReply>, rest: seq<RecvReply>)
    requires forall k :: 0 <= k < |used| ==> GoesOn(used[k])
    ensures Lead(used + rest) == used + Lead(rest)
  {
    var lead := used + Lead(rest);
    forall k | 0 <= k < |lead| ensures GoesOn(lead[k]) {
      assert k >= |used| ==> lead[k] == Lead(rest)[k - |used|];
    }
    LeadIsUnique(used + rest, lead);
  }

  lemma LeadAppend(used: seq<RecvReply>, rest: seq<RecvReply>)
    requires forall k :: 0 <= k < |used| ==> GoesOn(used[k])
    ensures Lead(used + rest) == used + Lead(rest)
    ensures (EndsBadly(used + rest) <==> EndsBadly(rest)) && (Fails(used + rest) <==> Fails(rest))
  {
    LeadOfSum(used, rest);
    var n := |Lead(rest)|;
    assert n < |rest| ==> (used + rest)[|used| + n] == rest[n];
  }

  lemma LeadUntil(used: seq<RecvReply>, stop: RecvReply, rest: seq<RecvReply>)
    requires (forall k :: 0 <= k < |used| ==> GoesOn(used[k])) && !GoesOn(stop)
    ensures Lead(used + [stop] + rest) == used
    ensures (EndsBadly(used + [stop] + rest) <==> HangUp(stop)) && (Fails(used + [stop] + rest) <==> stop.RecvFailed?)
  {
    var tail := [stop] + rest;
    LeadAppend(used, tail);
    assert used + [stop] + rest == used + tail && Lead(tail) == [] && used + [] == used;
  }

  lemma {:induction false} BroughtAppend(a: seq<RecvReply>, b: seq<RecvReply>)
    ensures Brought(a + b) == Brought(a) + Brought(b)
  {
    if a == [] {
      assert a + b == b;
    } else {
      BroughtAppend(a[1..], b);
      assert (a + b)[1..] == a[1..] + b;
      Associate(if a[0].Got? then a[0].bytes else [], Brought(a[1..]), Brought(b));
    }
  }

  /** One recv_msg in these terms: with the room filled, reading goes on behind the
      replies used; otherwise all that comes before the first reply that brings
      nothing has been taken, and that reply decides. */
  lemma OneRecv(room: nat, script: seq<RecvReply>) returns (used: seq<RecvReply>)
    requires room > 0
    ensures var r := RecvAll(room, script);
      if r.code == 2 then
        && script == used + r.rest && (forall k :: 0 <= k < |used| ==> GoesOn(used[k]))
        && r.bytes == Brought(Lead(script))[..Min(room, |Brought(Lead(script))|)]
      else
        && r.bytes == Brought(Lead(script)) && |r.bytes| < room
        && (r.code == 1 <==> !EndsBadly(script)) && (r.code == -1 <==> Fails(script))
  {
    var r := RecvAll(room, script);
    used := RecvAllExactly(room, script);
    if used == [] || GoesOn(used[|used| - 1]) {
      TookAll(room, script, r, used);
    } else {
      assert used == used[..|used| - 1] + [used[|used| - 1]];
      TookUntil(room, script, r, used[..|used| - 1], used[|used| - 1]);
    }
  }

  /** Every reply used brought something or was an interruption. */
  lemma TookAll(room: nat, script: seq<RecvReply>, r: Received, used: seq<RecvReply>)
    requires room > 0 && RecvOutcome(room, script, r, used) && (used == [] || GoesOn(used[|used| - 1]))
    ensures forall k :: 0 <= k < |used| ==> GoesOn(used[k])
    ensures r.code == 2 ==> r.bytes == Brought(Lead(script))[..Min(room, |Brought(Lead(script))|)]
    ensures r.code != 2 ==> r.code == 1 && r.bytes == Brought(Lead(script)) && !EndsBadly(script) && !Fails(script)
  {
    forall k | 0 <= k < |used| ensures GoesOn(used[k]) {
      assert |Brought(used[..k])| < room;
    }
    LeadAppend(used, r.rest);
    BroughtAppend(used, Lead(r.rest));
    if r.code == 1 {
      assert r.rest == [] && Lead(r.rest) == [] && used + [] == used;
    }
  }

  /** The last one used did not. */
  lemma TookUntil(room: nat, script: seq<RecvReply>, r: Received, init: seq<RecvReply>, last: RecvReply)
    requires room > 0 && RecvOutcome(room, script, r, init + [last]) && !GoesOn(last)
    ensures forall k :: 0 <= k < |init| ==> GoesOn(init[k])
    ensures r.code != 2 && r.bytes == Brought(Lead(script)) && |r.bytes| < room
    ensures (r.code == 1 <==> !EndsBadly(script)) && (r.code == -1 <==> Fails(script))
  {
    var used := init + [last];
    assert used[..|init|] == init && used[|init|] == last;
    forall k | 0 <= k < |init| ensures GoesOn(init[k]) {
      assert used[k] == init[k];
    }
    BroughtAppend(init, [last]);
    BroughtStep(last, []);
    assert [last] + [] == [last] && Brought(init) + [] == Brought(init);
    LeadUntil(init, last, r.rest);
  }

  /** A connection in the course of a read event. */
  predicate Reader(s: State, cfg: Config, fd: int) {
    && cfg.Ok() && fd in s.table && fd >= 0 && |s.table[fd].part| < MAX_SEND_SIZE
    && s.table[fd].gen in s.hist.received && Carries(s.table[fd], s.hist.received[s.table[fd].gen])
  }

  /** What became of the reads of one generation: before, after one more, and in the end. */
  predicate TakesFrom(before: seq<seq<byte>>, after: seq<seq<byte>>, all: seq<byte>, room: nat, failed: bool) {
    if |all| < room then after == if all == [] || failed then before else before + [all]
    else before + [all[..room]] <= after
  }

  /** A connection survives the event exactly when no reply is an error or the peer's
      end before one says that nothing more is there, and the parser refused
      nothing. What it reads is what the kernel brought up to that point. */
  ghost predicate ReadOutcome(s: State, t: State, cfg: Config, fd: int, script: seq<RecvReply>, now: int)
    requires Reader(s, cfg, fd)
  {
    var g, room, all := s.table[fd].gen, cfg.recvRoom - |s.table[fd].part|, Brought(Lead(script));
    && g in t.hist.received && s.hist.received[g] <= t.hist.received[g]
    && TakesFrom(s.hist.received[g], t.hist.received[g], all, room, Fails(script))
    && (fd !in t.table <==> EndsBadly(script) || !ReceiveAllWritten(t.hist.received[g]).ok)
    && (fd in t.table ==> t.table[fd].gen == g && t.table[fd].refresh == now)
  }

  lemma AbsorbReads(s: State, cfg: Config, fd: int, bytes: seq<byte>, now: int)
    requires Reader(s, cfg, fd)
    ensures var t, ok := Absorb(s, fd, bytes, now).0, Absorb(s, fd, bytes, now).1;
      var g := s.table[fd].gen;
      && fd in t.table && t.table[fd].gen == g && t.table[fd].refresh == now && g in t.hist.received
      && t.hist.received[g] == (if bytes == [] then s.hist.received[g] else s.hist.received[g] + [bytes])
      && ok == ReceiveAllWritten(t.hist.received[g]).ok && (ok ==> Reader(t, cfg, fd))
  {
    var c := s.table[fd];
    StreamAdvances(c, s.hist.received[c.gen], bytes);
  }

  lemma CloseReads(s: State, fd: int)
    requires fd in s.table && fd >= 0
    ensures fd !in CloseFd(s, fd).table && CloseFd(s, fd).hist.received == s.hist.received
  {}

  lemma {:induction false} ReadLoopExactly(s: State, cfg: Config, fd: int, script: seq<RecvReply>, now: int)
    requires Reader(s, cfg, fd)
    ensures ReadOutcome(s, ReadLoop(s, cfg, fd, script, now), cfg, fd, script, now)
    decreases |script|
  {
    var g, room := s.table[fd].gen, cfg.recvRoom - |s.table[fd].part|;
    var r := RecvAll(room, script);
    var used := OneRecv(room, script);
    ReadLoopTurn(s, cfg, fd, script, now, r);
    if r.code < 0 {
      CloseReads(s, fd);
    } else {
      AbsorbReads(s, cfg, fd, r.bytes, now);
      var t, ok := Absorb(s, fd, r.bytes, now).0, Absorb(s, fd, r.bytes, now).1;
      if r.code == 0 || !ok {
        CloseReads(t, fd);
      } else if r.code == 2 {
        LeadAppend(used, r.rest);
        BroughtAppend(used, Lead(r.rest));
        ReadLoopExactly(t, cfg, fd, r.rest, now);
      }
    }
  }

  /** So it is for every read event meant for the connection that has the descriptor. */
  lemma ReadEventExactly(s: State, cfg: Config, fd: int, script: seq<RecvReply>, now: int)
    requires cfg.Ok() && Inv(s) && fd in s.table
    ensures Reader(s, cfg, fd)
    ensures ReadOutcome(s, ReadStep(s, cfg, fd, s.table[fd].gen, script, now), cfg, fd, script, now)
  {
    ReadLoopExactly(s, cfg, fd, script, now);
  }

  // ----- Silence ----------------------------------------------------------

  /** Connections may go, and nothing about those that stay is changed. */
  predicate OnlyFewer(s: State, t: State) {
    forall fd :: fd in t.table ==> fd in s.table && t.table[fd] == s.table[fd]
  }

  lemma {:induction false} CloseEachOnlyFewer(s: State, order: seq<int>, due: set<int>)
    ensures OnlyFewer(s, CloseEach(s, order, due))
    ensures forall fd :: fd in s.table && (fd !in order || fd !in due) ==> fd in CloseEach(s, order, due).table
    ensures forall fd :: fd in s.table && fd in order && fd in due && fd >= 0 ==> fd !in CloseEach(s, order, due).table
    decreases |order|
  {
    if order != [] {
      CloseEachOnlyFewer(if order[0] in due && order[0] in s.table then CloseFd(s, order[0]) else s, order[1..], due);
    }
  }

  lemma {:induction false} ReadLoopSpares(s: State, cfg: Config, fd: int, script: seq<RecvReply>, now: int)
    requires cfg.Ok() && fd in s.table && |s.table[fd].part| < MAX_SEND_SIZE
    ensures var t := ReadLoop(s, cfg, fd, script, now);
      forall f :: f != fd && f in t.table ==> f in s.table && t.table[f] == s.table[f]
    decreases |script|
  {
    var r := RecvAll(cfg.recvRoom - |s.table[fd].part|, script);
    ReadLoopTurn(s, cfg, fd, script, now, r);
    if r.code == 2 {
      var t, ok := Absorb(s, fd, r.bytes, now).0, Absorb(s, fd, r.bytes, now).1;
      if ok {
        ReadLoopSpares(t, cfg, fd, r.rest, now);
      }
    }
  }

  /** A connection that stays was heard at now exactly by its own read event. */
  predicate HeardExactly(s: State, t: State, step: Step, fd: int)
    requires fd in t.table
  {
    if fd in s.table && t.table[fd].gen == s.table[fd].gen then
      t.table[fd].refresh == if step.Readable? && step.fd == fd then step.now else s.table[fd].refresh
    else
      t.table[fd].gen == t.issued && ((step.Accept? && t.table[fd].refresh == step.now) ||
                                      (step.SystemEvent? && t.table[fd].refresh == step.now))
  }

  lemma ReadHears(s: State, cfg: Config, r: int, gen: nat, script: seq<RecvReply>, now: int, fd: int)
    requires cfg.Ok() && Inv(s)
    ensures var t := ReadStep(s, cfg, r, gen, script, now);
      fd in t.table ==> HeardExactly(s, t, Readable(r, gen, script, now), fd)
  {
    if r in s.table && s.table[r].gen == gen {
      ReadEventExactly(s, cfg, r, script, now);
      ReadLoopSpares(s, cfg, r, script, now);
    }
  }

  lemma InsertHears(s: State, t: State, step: Step, at: int, ctype: nat, now: int, fd: int)
    requires TableOk(s.table, s.issued) && t.table == s.table && t.issued > s.issued
    requires (step.Accept? || step.SystemEvent?) && step.now == now
    ensures fd in t.table ==> HeardExactly(s, t, step, fd)
    ensures fd in Insert(t, at, ctype, now).table ==> HeardExactly(s, Insert(t, at, ctype, now), step, fd)
  {}

  lemma EventHears(s: State, cfg: Config, ctlOk: bool, now: int, fd: int)
    requires TableOk(s.table, s.issued)
    ensures var t := EventStep(s, cfg, ctlOk, now);
      fd in t.table ==> HeardExactly(s, t, SystemEvent(ctlOk, now), fd)
  {
    if s.events != [] && s.events[0].AddClient? {
      var f, ctype := s.events[0].fd, s.events[0].ctype;
      var t := Welcome(s.(events := s.events[1..]), f, ctype);
      InsertHears(s, t, SystemEvent(ctlOk, now), f, ctype, now, fd);
    }
  }

  lemma AcceptHears(s: State, cfg: Config, f: int, setupOk: bool, ctlOk: bool, now: int, fd: int)
    requires TableOk(s.table, s.issued)
    ensures var t := AcceptStep(s, cfg, f, setupOk, ctlOk, now);
      fd in t.table ==> HeardExactly(s, t, Accept(f, setupOk, ctlOk, now), fd)
  {
    if f >= 0 && setupOk {
      InsertHears(s, OpenFd(Announce(s, f, CLIENT_TYPE), f), Accept(f, setupOk, ctlOk, now), f, CLIENT_TYPE, now, fd);
    }
  }

  lemma WriteHears(s: State, w: int, script: seq<SendReply>, modOk: bool, fd: int)
    ensures var t := WriteStep(s, w, script, modOk);
      fd in t.table ==>
        fd in s.table && t.table[fd].gen == s.table[fd].gen && t.table[fd].refresh == s.table[fd].refresh
  {}

  lemma CloseHears(s: State, cfg: Config, step: Step, fd: int)
    requires cfg.Ok() && Sound(s) && (step.PollError? || step.Scan? || step.Expire?)
    ensures OnlyFewer(s, Apply(s, cfg, step))
  {
    match step
    case Scan(refused) => CloseEachOnlyFewer(Trim(s, refused), refused, Refused(s, refused));
    case Expire(order, now) => CloseEachOnlyFewer(s, order, Silent(s, cfg, now));
    case PollError(f) => assert OnlyFewer(s, CloseFd(s, f));
  }

  lemma StepHearsExactly(s: State, cfg: Config, step: Step, fd: int)
    requires cfg.Ok() && Inv(s) && fd in Apply(s, cfg, step).table
    ensures HeardExactly(s, Apply(s, cfg, step), step, fd)
  {
    if step.Readable? {
      assert Apply(s, cfg, step) == ReadStep(s, cfg, step.fd, step.gen, step.recvs, step.now);
      ReadHears(s, cfg, step.fd, step.gen, step.recvs, step.now, fd);
    } else if step.Writable? {
      assert Apply(s, cfg, step) == WriteStep(s, step.fd, step.sends, step.modOk);
      WriteHears(s, step.fd, step.sends, step.modOk, fd);
    } else if step.SystemEvent? {
      assert Apply(s, cfg, step) == EventStep(s, cfg, step.ctlOk, step.now);
      EventHears(s, cfg, step.ctlOk, step.now, fd);
    } else if step.Accept? {
      assert Apply(s, cfg, step) == AcceptStep(s, cfg, step.fd, step.setupOk, step.ctlOk, step.now);
      AcceptHears(s, cfg, step.fd, step.setupOk, step.ctlOk, step.now, fd);
    } else if step.PollError? || step.Scan? || step.Expire? {
      CloseHears(s, cfg, step, fd);
    } else {
      QuietHears(s, cfg, step);
    }
  }

  lemma QuietHears(s: State, cfg: Config, step: Step)
    requires cfg.Ok() && Sound(s) && (Quiet(step) || step.Flush? || step.Pop?)
    ensures Apply(s, cfg, step).table == s.table
  {}

  /** The time of a step that reads or brings in a connection. */
  function Clock(step: Step): int {
    match step
    case Accept(_, _, _, now) => now
    case Readable(_, _, _, now) => now
    case SystemEvent(_, now) => now
    case _ => 0
  }

  /** Step k of the run read from the connection now on fd or brought it in, and none
      since did. */
  ghost predicate HeardLast(open: set<int>, cfg: Config, steps: seq<Step>, fd: int, k: nat)
    requires cfg.Ok() && fd in Run(open, cfg, steps).table
  {
    var g := Run(open, cfg, steps).table[fd].gen;
    && k < |steps| && Run(open, cfg, steps).table[fd].refresh == Clock(steps[k])
    && (steps[k].Accept? || steps[k].SystemEvent? || (steps[k].Readable? && steps[k].fd == fd))
    && (forall j :: k < j < |steps| ==> !(steps[j].Readable? && steps[j].fd == fd))
    && (forall j :: k < j <= |steps| ==>
          var t := Run(open, cfg, steps[..j]).table; fd in t && t[fd].gen == g)
    && (steps[k].Readable? || Run(open, cfg, steps[..k + 1]).issued == g)
  }

  /** In every run the time kept for a connection is that of its last read event, or
      of its arrival. */
  lemma {:induction false} LastHeard(open: set<int>, cfg: Config, steps: seq<Step>, fd: int) returns (k: nat)
    requires cfg.Ok() && fd in Run(open, cfg, steps).table
    ensures HeardLast(open, cfg, steps, fd, k)
    decreases |steps|, 1
  {
    var init, last := steps[..|steps| - 1], steps[|steps| - 1];
    assert steps == init + [last];
    k := HeardAfter(open, cfg, init, last, fd);
  }

  lemma {:induction false} HeardAfter(open: set<int>, cfg: Config, init: seq<Step>, last: Step, fd: int)
      returns (k: nat)
    requires cfg.Ok() && fd in Run(open, cfg, init + [last]).table
    ensures HeardLast(open, cfg, init + [last], fd, k)
    decreases |init| + 1, 0
  {
    var s := Run(open, cfg, init);
    var t := Apply(s, cfg, last);
    RunOn(open, cfg, init, last);
    InvOverRuns(open, cfg, init);
    StepHearsExactly(s, cfg, last, fd);
    if fd in s.table && t.table[fd].gen == s.table[fd].gen && !(last.Readable? && last.fd == fd) {
      k := LastHeard(open, cfg, init, fd);
      StillHeard(open, cfg, init, last, fd, k);
    } else {
      k := |init|;
      HeardNow(open, cfg, init, last, fd);
    }
  }

  lemma StillHeard(open: set<int>, cfg: Config, init: seq<Step>, last: Step, fd: int, k: nat)
    requires cfg.Ok() && fd in Run(open, cfg, init).table && fd in Run(open, cfg, init + [last]).table
    requires HeardLast(open, cfg, init, fd, k) && !(last.Readable? && last.fd == fd)
    requires var c, d := Run(open, cfg, init).table[fd], Run(open, cfg, init + [last]).table[fd];
      d.gen == c.gen && d.refresh == c.refresh
    ensures HeardLast(open, cfg, init + [last], fd, k)
  {
    var steps := init + [last];
    assert steps[..|steps|] == steps && steps[k] == init[k];
    forall j | k < j <= |init| ensures steps[..j] == init[..j] {}
    forall j | k < j <= |steps|
      ensures fd in Run(open, cfg, steps[..j]).table
      ensures Run(open, cfg, steps[..j]).table[fd].gen == Run(open, cfg, steps).table[fd].gen
    {
      assert steps[..j] == if j <= |init| then init[..j] else steps;
    }
    assert steps[..k + 1] == init[..k + 1];
  }

  lemma HeardNow(open: set<int>, cfg: Config, init: seq<Step>, last: Step, fd: int)
    requires cfg.Ok() && fd in Run(open, cfg, init + [last]).table
    requires var t := Run(open, cfg, init + [last]);
      && t.table[fd].refresh == Clock(last)
      && (if last.Readable? then last.fd == fd else (last.Accept? || last.SystemEvent?) && t.issued == t.table[fd].gen)
    ensures HeardLast(open, cfg, init + [last], fd, |init|)
  {
    var steps := init + [last];
    assert steps[..|steps|] == steps;
  }

  /** And the timeout closes exactly the connections heard too long ago. */
  lemma ExpireExactly(s: State, cfg: Config, order: seq<int>, now: int, fd: int)
    requires TableOk(s.table, s.issued) && fd in s.table && fd in order
    ensures fd in CloseEach(s, order, Silent(s, cfg, now)).table <==> now - s.table[fd].refresh <= cfg.timeout
  {
    CloseEachOnlyFewer(s, order, Silent(s, cfg, now));
  }
}
