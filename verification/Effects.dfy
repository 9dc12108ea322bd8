/** What a step can do to connections that are already there: read from them,
    write to them and close them. The later invariants are kept by every change
    of this shape. */
module Effects {
  import opened Bytes
  import opened Framing
  import opened Transfer
  import opened Engine

  predicate SameConn(c: Conn, d: Conn) {
    c.gen == d.gen && c.time == d.time && c.ctype == d.ctype && c.wire == d.wire
  }

  /** The notes from k on speak of connections in the table. */
  predicate AboutTable(table: map<int, Conn>, log: seq<Note>, k: nat) {
    forall i :: k <= i < |log| ==>
      log[i].fd in table && table[log[i].fd].gen == log[i].gen && table[log[i].fd].time == log[i].time
  }

  /** Connections may go, and their descriptors with them; those that stay keep
      their identity, and all new notes speak of connections that were there. */
  predicate Continues(s: State, t: State) {
    && (forall fd :: fd in t.table ==> fd in s.table && SameConn(s.table[fd], t.table[fd]))
    && s.hist.log <= t.hist.log && t.tmp == s.tmp + t.hist.log[|s.hist.log|..]
    && AboutTable(s.table, t.hist.log, |s.hist.log|)
    && t.recvQ == s.recvQ && t.hist.popped == s.hist.popped && t.issued == s.issued && t.events == s.events
    && t.out == s.out && t.hist.accepted == s.hist.accepted && t.hist.spoiled == s.hist.spoiled
    && t.fds.connecting == s.fds.connecting
    && t.fds.open <= s.fds.open
    && (forall fd :: fd in s.fds.open && fd !in t.fds.open ==> fd in s.table && fd !in t.table)
  }

  lemma ContinuesTrans(s: State, t: State, u: State)
    requires Continues(s, t) && Continues(t, u)
    ensures Continues(s, u)
  {
    assert u.hist.log[|s.hist.log|..] == t.hist.log[|s.hist.log|..] + u.hist.log[|t.hist.log|..];
    Associate(s.tmp, t.hist.log[|s.hist.log|..], u.hist.log[|t.hist.log|..]);
    forall i | |s.hist.log| <= i < |u.hist.log|
      ensures u.hist.log[i].fd in s.table && s.table[u.hist.log[i].fd].gen == u.hist.log[i].gen
        && s.table[u.hist.log[i].fd].time == u.hist.log[i].time
    {
      if i < |t.hist.log| {
        assert u.hist.log[i] == t.hist.log[i];
      }
    }
  }

  lemma ClosingContinues(s: State, fd: int)
    requires fd in s.table
    ensures Continues(s, CloseFd(s, fd))
  {
    var t := CloseFd(s, fd);
    assert t.hist.log[|s.hist.log|..] == if fd < 0 then [] else [t.hist.log[|s.hist.log|]];
  }

  lemma {:induction false} ClosingEachContinues(s: State, order: seq<int>, due: set<int>)
    ensures Continues(s, CloseEach(s, order, due))
    decreases |order|
  {
    if order == [] {
      assert s.tmp + [] == s.tmp;
    } else if order[0] in due && order[0] in s.table {
      var t := CloseFd(s, order[0]);
      ClosingContinues(s, order[0]);
      ClosingEachContinues(t, order[1..], due);
      ContinuesTrans(s, t, CloseEach(t, order[1..], due));
    } else {
      ClosingEachContinues(s, order[1..], due);
    }
  }

  lemma {:induction false} ClosedAreGone(s: State, order: seq<int>, due: set<int>, fd: int)
    requires fd >= 0 && fd in order && fd in due
    ensures fd !in CloseEach(s, order, due).table
    decreases |order|
  {
    var t := if order[0] in due && order[0] in s.table then CloseFd(s, order[0]) else s;
    if fd in order[1..] {
      ClosedAreGone(t, order[1..], due, fd);
    } else {
      assert fd == order[0];
      ClosingEachContinues(t, order[1..], due);
    }
  }

  lemma AbsorbingContinues(s: State, fd: int, bytes: seq<byte>, now: int)
    requires fd in s.table
    ensures Continues(s, Absorb(s, fd, bytes, now).0)
  {
    var t := Absorb(s, fd, bytes, now).0;
    var notes := if bytes == [] then [] else DataNotes(s.table[fd], fd, ParseWritten(s.table[fd].part + bytes).packets);
    assert t.hist.log == s.hist.log + notes;
    assert t.hist.log[|s.hist.log|..] == notes;
  }

  lemma {:induction false} ReadLoopContinues(s: State, cfg: Config, fd: int, script: seq<RecvReply>, now: int)
    requires cfg.Ok() && fd in s.table && |s.table[fd].part| < MAX_SEND_SIZE
    ensures Continues(s, ReadLoop(s, cfg, fd, script, now))
    decreases |script|
  {
    var r := RecvAll(cfg.recvRoom - |s.table[fd].part|, script);
    ReadLoopTurn(s, cfg, fd, script, now, r);
    if r.code < 0 {
      ClosingContinues(s, fd);
    } else {
      var t, ok := Absorb(s, fd, r.bytes, now).0, Absorb(s, fd, r.bytes, now).1;
      AbsorbingContinues(s, fd, r.bytes, now);
      if r.code == 0 || !ok {
        ClosingContinues(t, fd);
        ContinuesTrans(s, t, CloseFd(t, fd));
      } else if r.code == 2 {
        ReadLoopContinues(t, cfg, fd, r.rest, now);
        ContinuesTrans(s, t, ReadLoop(t, cfg, fd, r.rest, now));
      }
    }
  }

  // ----- Closing a descriptor that is no connection's ---------------------

  /** The descriptor a step closes without finding it in the table. */
  function ForeignTarget(s: State, step: Step): Option<int> {
    match step
    case Readable(fd, _, _, _) => Elsewhere(s, fd)
    case Writable(fd, _, modOk) => if modOk then None else Elsewhere(s, fd)
    case PollError(fd) => Elsewhere(s, fd)
    case SystemEvent(_, _) =>
      if s.events != [] && s.events[0].CloseClient? then Elsewhere(s, s.events[0].fd) else None
    case _ => None
  }

  function Elsewhere(s: State, fd: int): Option<int> {
    if fd >= 0 && fd !in s.table then Some(fd) else None
  }

  function Without(s: State, fd: Option<int>): State {
    if fd.Some? then FreeFd(s, fd.value) else s
  }

  lemma CloseIsEither(s: State, fd: int)
    ensures if fd in s.table then Continues(s, CloseFd(s, fd)) else CloseFd(s, fd) == Without(s, Elsewhere(s, fd))
  {
    if fd in s.table {
      ClosingContinues(s, fd);
    }
  }
}
