/** What workers are told about connections, over every run: each descriptor and
    stamp lives once, and a note names the connection it is about. */
module Lifecycle {
  import opened Bytes
  import opened Transfer
  import opened Engine
  import opened Runs
  import opened Effects

  // ----- Which connection a note is about ---------------------------------

  /** A note carries its generation's stamp, and all notes of a generation and
      its connection, if it is still there, carry one descriptor. */
  predicate NotesOk(table: map<int, Conn>, issued: nat, log: seq<Note>) {
    && (forall i :: 0 <= i < |log| ==> 1 <= log[i].gen <= issued && log[i].time == Stamp(log[i].gen))
    && (forall i, j :: 0 <= i < |log| && 0 <= j < |log| && log[i].gen == log[j].gen ==> log[i].fd == log[j].fd)
    && (forall i, fd :: 0 <= i < |log| && fd in table && table[fd].gen == log[i].gen ==> log[i].fd == fd)
  }

  /** Whatever is queued or was taken had been made. */
  predicate KnownOk(s: State) {
    && (forall n :: n in s.hist.popped ==> n in s.hist.log) && (forall n :: n in s.recvQ ==> n in s.hist.log)
    && (forall n :: n in s.tmp ==> n in s.hist.log)
  }

  ghost predicate Named(s: State) {
    NotesOk(s.table, s.issued, s.hist.log) && KnownOk(s)
  }

  lemma ContinuesKeepsNames(s: State, t: State)
    requires Inv(s) && Named(s) && Continues(s, t)
    ensures Named(t)
  {
    forall i | 0 <= i < |t.hist.log|
      ensures 1 <= t.hist.log[i].gen <= t.issued && t.hist.log[i].time == Stamp(t.hist.log[i].gen)
    {
      assert i < |s.hist.log| ==> t.hist.log[i] == s.hist.log[i];
    }
    forall i, j | 0 <= i < |t.hist.log| && 0 <= j < |t.hist.log| && t.hist.log[i].gen == t.hist.log[j].gen
      ensures t.hist.log[i].fd == t.hist.log[j].fd
    {
      assert i < |s.hist.log| ==> t.hist.log[i] == s.hist.log[i];
      assert j < |s.hist.log| ==> t.hist.log[j] == s.hist.log[j];
    }
    forall i, fd | 0 <= i < |t.hist.log| && fd in t.table && t.table[fd].gen == t.hist.log[i].gen
      ensures t.hist.log[i].fd == fd
    {
      assert i < |s.hist.log| ==> t.hist.log[i] == s.hist.log[i];
    }
    assert forall n :: n in s.hist.log ==> n in t.hist.log;
    assert forall n :: n in t.hist.log[|s.hist.log|..] ==> n in t.hist.log;
  }

  lemma AnnounceKeepsNames(s: State, fd: int, ctype: nat)
    requires Inv(s) && Named(s)
    ensures var t := Announce(s, fd, ctype);
      Named(t) && forall i :: 0 <= i < |t.hist.log| && t.hist.log[i].gen == t.issued ==> t.hist.log[i].fd == fd
  {}

  lemma InsertKeepsNames(t: State, fd: int, ctype: nat, now: int)
    requires Named(t) && forall i :: 0 <= i < |t.hist.log| && t.hist.log[i].gen == t.issued ==> t.hist.log[i].fd == fd
    ensures Named(Insert(t, fd, ctype, now))
  {}

  predicate SameNames(s: State, t: State) {
    && t.issued == s.issued && t.hist.log == s.hist.log
    && (forall fd :: fd in t.table ==> fd in s.table && t.table[fd].gen == s.table[fd].gen)
    && (forall n :: n in t.hist.popped ==> n in s.hist.popped || n in s.recvQ)
    && (forall n :: n in t.recvQ ==> n in s.recvQ || n in s.tmp) && (forall n :: n in t.tmp ==> n in s.tmp)
  }

  lemma SameNamesKeeps(s: State, t: State)
    requires Named(s) && SameNames(s, t)
    ensures Named(t)
  {}

  lemma AnnouncedKeepsNames(s: State, cfg: Config, fd: int, ctype: nat, now: int, t: State)
    requires Inv(s) && Named(s) && SameCore(Announce(s, fd, ctype), t)
    ensures Named(t) && Named(Insert(t, fd, ctype, now))
  {
    AnnounceKeepsNames(s, fd, ctype);
    SameNamesKeeps(Announce(s, fd, ctype), t);
    InsertKeepsNames(t, fd, ctype, now);
  }

  lemma CloseKeepsNames(s: State, fd: int)
    requires Inv(s) && Named(s)
    ensures Named(CloseFd(s, fd))
  {
    CloseIsEither(s, fd);
    if fd in s.table {
      ContinuesKeepsNames(s, CloseFd(s, fd));
    }
  }

  lemma ReadKeepsNames(s: State, cfg: Config, fd: int, gen: nat, script: seq<RecvReply>, now: int)
    requires cfg.Ok() && Inv(s) && Named(s)
    ensures Named(ReadStep(s, cfg, fd, gen, script, now))
  {
    if fd !in s.table || s.table[fd].gen != gen {
      CloseKeepsNames(s, fd);
    } else {
      ReadLoopContinues(s, cfg, fd, script, now);
      ContinuesKeepsNames(s, ReadLoop(s, cfg, fd, script, now));
    }
  }

  lemma SendQueuedSameNames(s: State, fd: int, script: seq<SendReply>)
    ensures SameNames(s, SendQueued(s, fd, script).0)
  {}

  lemma WriteKeepsNames(s: State, fd: int, script: seq<SendReply>, modOk: bool)
    requires Inv(s) && Named(s)
    ensures Named(WriteStep(s, fd, script, modOk))
  {
    var t := SendQueued(s, fd, script).0;
    SendQueuedKeeps(s, fd, script);
    SendQueuedSameNames(s, fd, script);
    SameNamesKeeps(s, t);
    CloseKeepsNames(t, fd);
  }

  lemma EventKeepsNames(s: State, cfg: Config, ctlOk: bool, now: int)
    requires Inv(s) && Named(s)
    ensures Named(EventStep(s, cfg, ctlOk, now))
  {
    if s.events != [] {
      var t := s.(events := s.events[1..]);
      SameCoreKeeps(s, t);
      match s.events[0]
      case CloseClient(fd, _) => CloseKeepsNames(t, fd);
      case AddClient(fd, ctype) =>
        var u := Announce(t, fd, ctype);
        var v := u.(keys := SetKey(u.keys, ctype, Key(u.issued, fd, Stamp(u.issued))));
        AnnouncedKeepsNames(t, cfg, fd, ctype, now, v);
        SameNamesKeeps(v, FreeFd(v, fd));
    }
  }

  lemma AcceptKeepsNames(s: State, cfg: Config, fd: int, setupOk: bool, ctlOk: bool, now: int)
    requires Inv(s) && Named(s)
    ensures Named(AcceptStep(s, cfg, fd, setupOk, ctlOk, now))
  {
    var t := Announce(s, fd, CLIENT_TYPE);
    AnnouncedKeepsNames(s, cfg, fd, CLIENT_TYPE, now, t);
    AnnouncedKeepsNames(s, cfg, fd, CLIENT_TYPE, now, OpenFd(t, fd));
  }

  lemma ScanKeepsNames(s: State, refused: seq<int>)
    requires Inv(s) && Named(s)
    ensures Named(ScanStep(s, refused))
  {
    var t := Trim(s, refused);
    SameCoreKeeps(s, t);
    SameNamesKeeps(s, t);
    ClosingEachContinues(t, refused, Refused(s, refused));
    ContinuesKeepsNames(t, CloseEach(t, refused, Refused(s, refused)));
  }

  lemma FlushKeepsNames(s: State, cfg: Config)
    requires Named(s)
    ensures Named(FlushStep(s, cfg))
  {
    SameNamesKeeps(s, FlushStep(s, cfg));
  }

  lemma PopKeepsNames(s: State)
    requires Named(s)
    ensures Named(PopStep(s))
  {
    SameNamesKeeps(s, PopStep(s));
  }

  lemma StepKeepsNames(s: State, cfg: Config, step: Step)
    requires cfg.Ok() && Inv(s) && Named(s)
    ensures Named(Apply(s, cfg, step))
  {
    match step
    case Accept(fd, setupOk, ctlOk, now) => AcceptKeepsNames(s, cfg, fd, setupOk, ctlOk, now);
    case Readable(fd, gen, recvs, now) => ReadKeepsNames(s, cfg, fd, gen, recvs, now);
    case Writable(fd, sends, modOk) => WriteKeepsNames(s, fd, sends, modOk);
    case PollError(fd) => CloseKeepsNames(s, fd);
    case Flush => FlushKeepsNames(s, cfg);
    case SystemEvent(ctlOk, now) => EventKeepsNames(s, cfg, ctlOk, now);
    case Scan(refused) => ScanKeepsNames(s, refused);
    case Expire(order, now) =>
      ClosingEachContinues(s, order, Silent(s, cfg, now));
      ContinuesKeepsNames(s, CloseEach(s, order, Silent(s, cfg, now)));
    case Pop => PopKeepsNames(s);
    case _ =>
      QuietStepsAreQuiet(s, cfg, step);
      SameNamesKeeps(s, Apply(s, cfg, step));
  }

  lemma {:induction false} RunIsNamed(open: set<int>, cfg: Config, steps: seq<Step>)
    requires cfg.Ok()
    ensures Named(Run(open, cfg, steps))
  {
    if steps != [] {
      RunIsNamed(open, cfg, steps[..|steps| - 1]);
      InvOverRuns(open, cfg, steps[..|steps| - 1]);
      StepKeepsNames(Run(open, cfg, steps[..|steps| - 1]), cfg, steps[|steps| - 1]);
    }
  }

  // ----- Lives ------------------------------------------------------------

  predicate At(n: Note, fd: int, time: int, lo: nat) {
    n.fd == fd && n.time == time && lo < n.gen <= lo + WINDOW
  }

  /** The notes with one descriptor and stamp, out of any window of generations. */
  function KindsAt(log: seq<Note>, fd: int, time: int, lo: nat): seq<Kind> {
    if log == [] then []
    else (if At(log[0], fd, time, lo) then [log[0].kind] else []) + KindsAt(log[1..], fd, time, lo)
  }

  lemma {:induction false} KindsAtIsKinds(log: seq<Note>, fd: int, time: int, lo: nat, g: nat)
    requires forall i :: 0 <= i < |log| ==> (At(log[i], fd, time, lo) <==> log[i].gen == g)
    ensures KindsAt(log, fd, time, lo) == Kinds(log, g)
  {
    if log != [] {
      assert forall i :: 0 <= i < |log[1..]| ==> log[1..][i] == log[i + 1];
      KindsAtIsKinds(log[1..], fd, time, lo, g);
    }
  }

  /** Within a window of 2^32 - 2 generations, a descriptor and stamp belong to
      one generation. */
  lemma OneGenerationPerStamp(log: seq<Note>, issued: nat, table: map<int, Conn>, fd: int, time: int, lo: nat)
      returns (g: nat)
    requires NotesOk(table, issued, log)
    ensures KindsAt(log, fd, time, lo) == Kinds(log, g)
  {
    if k :| 0 <= k < |log| && At(log[k], fd, time, lo) {
      g := log[k].gen;
      forall i | 0 <= i < |log| ensures At(log[i], fd, time, lo) <==> log[i].gen == g {
        var h := log[i].gen;
        if h <= g {
          StampsRepeatExactly(h, g);
        } else {
          StampsRepeatExactly(g, h);
        }
      }
      KindsAtIsKinds(log, fd, time, lo, g);
    } else {
      g := issued + 1;
      KindsAtIsKinds(log, fd, time, lo, g);
    }
  }

  /** In every run, what is announced for one descriptor and connect_time is
      Connected, then data, then at most one Disconnected, and nothing after it. */
  lemma LifePerStamp(open: set<int>, cfg: Config, steps: seq<Step>, fd: int, time: int, lo: nat)
    requires cfg.Ok()
    ensures Life(KindsAt(Run(open, cfg, steps).hist.log, fd, time, lo))
  {
    var s := Run(open, cfg, steps);
    RunIsNamed(open, cfg, steps);
    InvOverRuns(open, cfg, steps);
    var g := OneGenerationPerStamp(s.hist.log, s.issued, s.table, fd, time, lo);
    assert PhaseOk(s.table, s.issued, s.hist.log, g);
  }

  lemma {:induction false} KindsAtAppend(a: seq<Note>, b: seq<Note>, fd: int, time: int, lo: nat)
    ensures KindsAt(a, fd, time, lo) <= KindsAt(a + b, fd, time, lo)
  {
    if a != [] {
      KindsAtAppend(a[1..], b, fd, time, lo);
      assert (a + b)[1..] == a[1..] + b;
    }
  }

  lemma PrefixOfLife(a: seq<Kind>, b: seq<Kind>)
    requires Life(b) && a <= b
    ensures Life(a)
  {
    if |a| == |b| {
      assert a == b;
    } else if a != [] {
      if OpenLife(b) {
        assert forall k :: 0 <= k < |a[1..]| ==> a[1..][k] == b[1..][k];
      } else {
        var c := b[..|b| - 1];
        assert forall k :: 0 <= k < |a[1..]| ==> a[1..][k] == c[1..][k];
      }
    }
  }

  /** And the workers see it in that order, as long as their queue never refused
      a note. */
  lemma WorkersSeeLives(open: set<int>, cfg: Config, steps: seq<Step>, fd: int, time: int, lo: nat)
    requires cfg.Ok() && Run(open, cfg, steps).hist.dropped == 0
    ensures Life(KindsAt(Run(open, cfg, steps).hist.popped, fd, time, lo))
  {
    var s := Run(open, cfg, steps);
    LifePerStamp(open, cfg, steps, fd, time, lo);
    InvOverRuns(open, cfg, steps);
    Associate(s.hist.popped, s.recvQ, s.tmp);
    KindsAtAppend(s.hist.popped, s.recvQ + s.tmp, fd, time, lo);
    PrefixOfLife(KindsAt(s.hist.popped, fd, time, lo), KindsAt(s.hist.log, fd, time, lo));
  }
}
