/** What the notes tell the workers: each says what happened and to what kind of
    connection, and no connection ends without one, unless it is thrown away as
    a stale entry. */
module Telling {
  import opened Bytes
  import opened Framing
  import opened Codec
  import opened Transfer
  import opened Engine
  import opened Runs
  import opened Lifecycle
  import Owners

  predicate Typed(ctype: nat) {
    ctype == CLIENT_TYPE || ctype in SERVER_TYPES
  }

  /** A framed notice with this id and server number. */
  predicate IsNotice(bytes: seq<byte>, id: nat, server: nat) {
    WellFramed(bytes) && |bytes| == 12 && ParseHead(bytes).mainId == id && FromBigEndian(bytes[8..]) == server
  }

  /** The bytes of a note are what its kind says. */
  predicate SaysRight(n: Note) {
    match n.kind
    case Connected => IsNotice(n.bytes, 11, n.ctype)
    case Data => WellFramed(n.bytes)
    case Disconnected => IsNotice(n.bytes, 12, n.ctype)
  }

  lemma NoticeSays(id: nat, server: nat)
    requires id < 0x1_0000 && Typed(server)
    ensures IsNotice(NoticeBytes(id, server), id, server)
  {
    NoticeRoundTrip(id, server);
    var s := NoticeBytes(id, server);
    assert s[8..12] == s[8..];
  }

  /** The note speaks of a connection in the table. */
  predicate About(table: map<int, Conn>, n: Note) {
    n.fd in table && table[n.fd].gen == n.gen && table[n.fd].ctype == n.ctype && SaysRight(n)
  }

  ghost predicate Told(log: seq<Note>, g: nat) {
    exists i :: 0 <= i < |log| && log[i].gen == g && log[i].kind == Disconnected
  }

  predicate TypedTable(table: map<int, Conn>) {
    forall fd :: fd in table ==> fd >= 0 && Typed(table[fd].ctype)
  }

  predicate HasReads(s: State) {
    forall fd :: fd in s.table ==> s.table[fd].gen in s.hist.received
  }

  /** Connections that are there read, write and go, and every one that goes is told. */
  ghost predicate Tells(s: State, t: State) {
    && s.hist.log <= t.hist.log && t.issued == s.issued
    && (forall i :: |s.hist.log| <= i < |t.hist.log| ==> About(s.table, t.hist.log[i]))
    && (forall fd :: fd in t.table ==>
          fd in s.table && t.table[fd].gen == s.table[fd].gen && t.table[fd].ctype == s.table[fd].ctype)
    && (forall fd :: fd in s.table && fd !in t.table ==> Told(t.hist.log, s.table[fd].gen))
    && t.events == s.events && t.fds.connecting == s.fds.connecting && t.keys.Keys <= s.keys.Keys + SERVER_TYPES
    && (HasReads(s) ==> HasReads(t) && t.hist.received.Keys == s.hist.received.Keys)
  }

  lemma TellsTrans(s: State, t: State, u: State)
    requires Tells(s, t) && Tells(t, u)
    ensures Tells(s, u)
  {
    forall i | |s.hist.log| <= i < |u.hist.log| ensures About(s.table, u.hist.log[i]) {
      if i < |t.hist.log| {
        assert u.hist.log[i] == t.hist.log[i];
      }
    }
    forall fd | fd in s.table && fd !in u.table ensures Told(u.hist.log, s.table[fd].gen) {
      if fd !in t.table {
        var i :| 0 <= i < |t.hist.log| && t.hist.log[i].gen == s.table[fd].gen && t.hist.log[i].kind == Disconnected;
        assert u.hist.log[i] == t.hist.log[i];
      }
    }
  }

  lemma CloseTells(s: State, fd: int)
    requires TypedTable(s.table)
    ensures Tells(s, CloseFd(s, fd))
  {
    var t := CloseFd(s, fd);
    if fd in s.table {
      var c := s.table[fd];
      NoticeSays(12, c.ctype);
      assert t.hist.log == s.hist.log + [Note(c.gen, Disconnected, fd, c.time, c.ctype, NoticeBytes(12, c.ctype))];
      assert t.hist.log[|s.hist.log|].gen == c.gen;
    }
  }

  lemma TypedStays(s: State, t: State)
    requires TypedTable(s.table) && Tells(s, t)
    ensures TypedTable(t.table)
  {}

  lemma {:induction false} CloseEachTells(s: State, order: seq<int>, due: set<int>)
    requires TypedTable(s.table)
    ensures Tells(s, CloseEach(s, order, due))
    decreases |order|
  {
    if order != [] {
      var t := if order[0] in due && order[0] in s.table then CloseFd(s, order[0]) else s;
      CloseTells(s, order[0]);
      assert Tells(s, t);
      CloseEachTells(t, order[1..], due);
      TellsTrans(s, t, CloseEach(t, order[1..], due));
    }
  }

  lemma AbsorbTells(s: State, fd: int, bytes: seq<byte>, now: int)
    requires fd in s.table
    ensures Tells(s, Absorb(s, fd, bytes, now).0)
  {
    var t, c := Absorb(s, fd, bytes, now).0, s.table[fd];
    if bytes != [] {
      var p := ParseWritten(c.part + bytes);
      ParseSound(c.part + bytes);
      var notes := DataNotes(c, fd, p.packets);
      forall i | |s.hist.log| <= i < |t.hist.log| ensures About(s.table, t.hist.log[i]) {
        assert t.hist.log[i] == notes[i - |s.hist.log|];
        assert p.packets[i - |s.hist.log|] in p.packets;
      }
    }
  }

  lemma {:induction false} ReadLoopTells(s: State, cfg: Config, fd: int, script: seq<RecvReply>, now: int)
    requires cfg.Ok() && fd in s.table && |s.table[fd].part| < MAX_SEND_SIZE && TypedTable(s.table)
    ensures Tells(s, ReadLoop(s, cfg, fd, script, now))
    decreases |script|
  {
    var r := RecvAll(cfg.recvRoom - |s.table[fd].part|, script);
    ReadLoopTurn(s, cfg, fd, script, now, r);
    if r.code < 0 {
      CloseTells(s, fd);
    } else {
      var t, ok := Absorb(s, fd, r.bytes, now).0, Absorb(s, fd, r.bytes, now).1;
      AbsorbTells(s, fd, r.bytes, now);
      TypedStays(s, t);
      if r.code == 0 || !ok {
        CloseTells(t, fd);
        TellsTrans(s, t, CloseFd(t, fd));
      } else if r.code == 2 {
        ReadLoopTells(t, cfg, fd, r.rest, now);
        TellsTrans(s, t, ReadLoop(t, cfg, fd, r.rest, now));
      }
    }
  }

  lemma ReadTells(s: State, cfg: Config, fd: int, gen: nat, script: seq<RecvReply>, now: int)
    requires cfg.Ok() && Sound(s) && TypedTable(s.table)
    ensures Tells(s, ReadStep(s, cfg, fd, gen, script, now))
  {
    if fd !in s.table || s.table[fd].gen != gen {
      CloseTells(s, fd);
    } else {
      ReadLoopTells(s, cfg, fd, script, now);
    }
  }

  lemma WriteTells(s: State, fd: int, script: seq<SendReply>, modOk: bool)
    requires TypedTable(s.table)
    ensures Tells(s, WriteStep(s, fd, script, modOk))
  {
    var t := SendQueued(s, fd, script).0;
    assert Tells(s, t);
    TypedStays(s, t);
    CloseTells(t, fd);
    TellsTrans(s, t, CloseFd(t, fd));
  }

  lemma ScanTells(s: State, refused: seq<int>)
    requires TypedTable(s.table)
    ensures Tells(s, ScanStep(s, refused))
  {
    CloseEachTells(Trim(s, refused), refused, Refused(s, refused));
  }

  // ----- Over every run ---------------------------------------------------

  predicate TypedEvents(events: seq<Event>) {
    forall i :: 0 <= i < |events| && events[i].AddClient? ==> events[i].ctype in SERVER_TYPES
  }

  predicate TypedSources(s: State) {
    && TypedTable(s.table) && TypedEvents(s.events) && s.keys.Keys <= SERVER_TYPES
    && (forall c :: c in s.fds.connecting ==> s.fds.connecting[c].ctype in SERVER_TYPES)
  }

  /** All notes of a generation name one type, its connection's, and say what happened. */
  predicate NotesRight(s: State) {
    && (forall i :: 0 <= i < |s.hist.log| ==> SaysRight(s.hist.log[i]))
    && (forall i, fd :: 0 <= i < |s.hist.log| && fd in s.table && s.table[fd].gen == s.hist.log[i].gen ==>
          s.table[fd].ctype == s.hist.log[i].ctype)
    && (forall i, j :: 0 <= i < |s.hist.log| && 0 <= j < |s.hist.log| && s.hist.log[i].gen == s.hist.log[j].gen ==>
          s.hist.log[i].ctype == s.hist.log[j].ctype)
  }

  ghost predicate Right(s: State) {
    TypedSources(s) && NotesRight(s)
  }

  lemma NoteMatches(s: State, t: State, i: nat, fd: int)
    requires Inv(s) && NotesRight(s) && Tells(s, t) && i < |t.hist.log|
    ensures SaysRight(t.hist.log[i])
    ensures fd in s.table && s.table[fd].gen == t.hist.log[i].gen ==> s.table[fd].ctype == t.hist.log[i].ctype
  {
    if i < |s.hist.log| {
      assert t.hist.log[i] == s.hist.log[i];
    } else {
      assert About(s.table, t.hist.log[i]);
    }
  }

  lemma NotesMatch(s: State, t: State, i: nat, j: nat)
    requires Inv(s) && NotesRight(s) && Tells(s, t) && i < |t.hist.log| && j < |t.hist.log|
    requires t.hist.log[i].gen == t.hist.log[j].gen
    ensures t.hist.log[i].ctype == t.hist.log[j].ctype
  {
    if i >= |s.hist.log| {
      assert About(s.table, t.hist.log[i]);
      NoteMatches(s, t, j, t.hist.log[i].fd);
    } else if j >= |s.hist.log| {
      assert About(s.table, t.hist.log[j]);
      NoteMatches(s, t, i, t.hist.log[j].fd);
    } else {
      assert t.hist.log[i] == s.hist.log[i] && t.hist.log[j] == s.hist.log[j];
    }
  }

  lemma TellsKeepsRight(s: State, t: State)
    requires Inv(s) && Right(s) && Tells(s, t)
    ensures Right(t)
  {
    TypedStays(s, t);
    forall i | 0 <= i < |t.hist.log| ensures SaysRight(t.hist.log[i]) {
      NoteMatches(s, t, i, 0);
    }
    forall i, fd | 0 <= i < |t.hist.log| && fd in t.table && t.table[fd].gen == t.hist.log[i].gen
      ensures t.table[fd].ctype == t.hist.log[i].ctype
    {
      NoteMatches(s, t, i, fd);
    }
    forall i, j | 0 <= i < |t.hist.log| && 0 <= j < |t.hist.log| && t.hist.log[i].gen == t.hist.log[j].gen
      ensures t.hist.log[i].ctype == t.hist.log[j].ctype
    {
      NotesMatch(s, t, i, j);
    }
  }

  /** The newest note alone is about the newest generation. */
  lemma NewestNote(s: State, n: Note, i: nat)
    requires Named(s) && n.gen == s.issued + 1 && i <= |s.hist.log|
    ensures (s.hist.log + [n])[i].gen == n.gen <==> i == |s.hist.log|
  {}

  /** A newcomer is announced under a fresh generation, and enters as announced. */
  lemma AnnounceKeepsRight(s: State, fd: int, ctype: nat, t: State)
    requires Inv(s) && Named(s) && Right(s) && Typed(ctype) && TypedSources(t)
    requires t.hist.log == Announce(s, fd, ctype).hist.log && t.table == s.table
    ensures Right(t)
  {
    NoticeSays(11, ctype);
    var n := Note(s.issued + 1, Connected, fd, Stamp(s.issued + 1), ctype, NoticeBytes(11, ctype));
    assert t.hist.log == s.hist.log + [n];
    forall i, j | 0 <= i < |t.hist.log| && 0 <= j < |t.hist.log| && t.hist.log[i].gen == t.hist.log[j].gen
      ensures t.hist.log[i].ctype == t.hist.log[j].ctype
    {
      NewestNote(s, n, i);
      NewestNote(s, n, j);
    }
    forall i, f | 0 <= i < |t.hist.log| && f in t.table && t.table[f].gen == t.hist.log[i].gen
      ensures t.table[f].ctype == t.hist.log[i].ctype
    {
      NewestNote(s, n, i);
    }
  }

  lemma InsertKeepsRight(s: State, fd: int, ctype: nat, now: int, t: State)
    requires Inv(s) && Named(s) && Right(t) && fd >= 0 && Typed(ctype) && t.issued == s.issued + 1
    requires t.hist.log == Announce(s, fd, ctype).hist.log
    ensures Right(Insert(t, fd, ctype, now))
  {
    var u := Insert(t, fd, ctype, now);
    var n := Note(s.issued + 1, Connected, fd, Stamp(s.issued + 1), ctype, NoticeBytes(11, ctype));
    assert u.hist.log == s.hist.log + [n];
    forall i, f | 0 <= i < |u.hist.log| && f in u.table && u.table[f].gen == u.hist.log[i].gen
      ensures u.table[f].ctype == u.hist.log[i].ctype
    {
      NewestNote(s, n, i);
    }
  }

  lemma AcceptKeepsRight(s: State, cfg: Config, fd: int, setupOk: bool, ctlOk: bool, now: int)
    requires Inv(s) && Named(s) && Right(s)
    ensures Right(AcceptStep(s, cfg, fd, setupOk, ctlOk, now))
  {
    if fd >= 0 && setupOk {
      var t := Announce(s, fd, CLIENT_TYPE);
      AnnounceKeepsRight(s, fd, CLIENT_TYPE, t);
      AnnounceKeepsRight(s, fd, CLIENT_TYPE, OpenFd(t, fd));
      InsertKeepsRight(s, fd, CLIENT_TYPE, now, OpenFd(t, fd));
    }
  }

  lemma PoppedStaysRight(s: State)
    requires Inv(s) && Named(s) && Right(s) && s.events != []
    ensures var p := s.(events := s.events[1..]); Inv(p) && Named(p) && Right(p)
  {
    var p := s.(events := s.events[1..]);
    SameCoreKeeps(s, p);
    assert forall i :: 0 <= i < |p.events| ==> p.events[i] == s.events[i + 1];
  }

  lemma EventKeepsRight(s: State, cfg: Config, ctlOk: bool, now: int)
    requires Inv(s) && Named(s) && Right(s)
    ensures Right(EventStep(s, cfg, ctlOk, now))
  {
    if s.events != [] {
      var p := s.(events := s.events[1..]);
      PoppedStaysRight(s);
      match s.events[0]
      case CloseClient(fd, _) =>
        CloseTells(p, fd);
        TellsKeepsRight(p, CloseFd(p, fd));
      case AddClient(fd, ctype) =>
        ArrivalKeepsRight(p, cfg, fd, ctype, ctlOk, now);
    }
  }

  lemma ArrivalKeepsRight(p: State, cfg: Config, fd: int, ctype: nat, ctlOk: bool, now: int)
    requires Inv(p) && Named(p) && Right(p) && ctype in SERVER_TYPES
    ensures Right(Admit(Welcome(p, fd, ctype), cfg, fd, ctype, ctlOk, now))
  {
    var t := Welcome(p, fd, ctype);
    AnnounceKeepsRight(p, fd, ctype, t);
    if CanInsert(t, cfg, fd, ctlOk) {
      InsertKeepsRight(p, fd, ctype, now, t);
    }
  }

  predicate SameTold(s: State, t: State) {
    && t.hist.log == s.hist.log && t.table.Keys == s.table.Keys
    && (forall fd :: fd in t.table ==> t.table[fd].gen == s.table[fd].gen && t.table[fd].ctype == s.table[fd].ctype)
  }

  lemma SameToldKeeps(s: State, t: State)
    requires Right(s) && SameTold(s, t) && TypedSources(t)
    ensures Right(t)
  {}

  lemma PostKeepsSources(s: State, cfg: Config, fd: int, time: int)
    requires TypedSources(s)
    ensures TypedSources(PostStep(s, cfg, CloseClient(fd, time)))
  {}

  lemma OpenKeepsSources(s: State, c: nat, fd: int, ctype: nat)
    requires TypedSources(s)
    ensures TypedSources(OpenStep(s, c, fd, ctype))
  {
    assert ctype in s.keys ==> ctype in s.keys.Keys;
  }

  lemma ConnectedKeepsSources(s: State, cfg: Config, c: nat, now: int)
    requires TypedSources(s)
    ensures TypedSources(ConnectedStep(s, cfg, c, now))
  {}

  lemma StepKeepsRight(s: State, cfg: Config, step: Step)
    requires cfg.Ok() && Inv(s) && Named(s) && Right(s)
    ensures Right(Apply(s, cfg, step))
  {
    if Serves(step) {
      StepTells(s, cfg, step);
      TellsKeepsRight(s, Apply(s, cfg, step));
    } else if step.Accept? {
      AcceptKeepsRight(s, cfg, step.fd, step.setupOk, step.ctlOk, step.now);
    } else if step.SystemEvent? {
      EventKeepsRight(s, cfg, step.ctlOk, step.now);
    } else {
      OtherKeepsRight(s, cfg, step);
    }
  }

  lemma OtherKeepsRight(s: State, cfg: Config, step: Step)
    requires cfg.Ok() && Sound(s) && Right(s)
    requires Quiet(step) || step.Flush? || step.Pop?
    ensures Right(Apply(s, cfg, step))
  {
    var t := Apply(s, cfg, step);
    match step {
      case PostClose(fd, time) => PostKeepsSources(s, cfg, fd, time);
      case ConnectorOpen(c, fd, ctype) => OpenKeepsSources(s, c, fd, ctype);
      case ConnectorPost(c, now) => ConnectedKeepsSources(s, cfg, c, now);
      case _ =>
    }
    assert t.table == s.table && t.hist.log == s.hist.log;
    SameToldKeeps(s, t);
  }

  /** In every run each note says what happened, to its connection's type of peer. */
  lemma {:induction false} NotesSayWhatHappened(open: set<int>, cfg: Config, steps: seq<Step>)
    requires cfg.Ok()
    ensures Right(Run(open, cfg, steps))
  {
    if steps != [] {
      var init := steps[..|steps| - 1];
      NotesSayWhatHappened(open, cfg, init);
      InvOverRuns(open, cfg, init);
      RunIsNamed(open, cfg, init);
      StepKeepsRight(Run(open, cfg, init), cfg, steps[|steps| - 1]);
    }
  }

  // ----- No silent end ----------------------------------------------------

  /** Every generation that ever entered the table is there, or was told to have ended. */
  ghost predicate NoneSilent(s: State) {
    HasReads(s) && forall g :: g in s.hist.received ==> Live(s.table, g) || Told(s.hist.log, g)
  }

  lemma TellsKeepsEnds(s: State, t: State)
    requires NoneSilent(s) && Tells(s, t)
    ensures NoneSilent(t)
  {
    forall g | g in t.hist.received ensures Live(t.table, g) || Told(t.hist.log, g) {
      if Live(s.table, g) {
        var fd :| fd in s.table && s.table[fd].gen == g;
        assert fd in t.table ==> t.table[fd].gen == g;
      } else {
        var i :| 0 <= i < |s.hist.log| && s.hist.log[i].gen == g && s.hist.log[i].kind == Disconnected;
        assert t.hist.log[i] == s.hist.log[i];
      }
    }
  }

  /** A newcomer on a descriptor without an entry. */
  lemma InsertKeepsEnds(s: State, t: State, fd: int, ctype: nat, now: int)
    requires NoneSilent(s) && t.table == s.table && t.hist.received == s.hist.received && s.hist.log <= t.hist.log
    ensures NoneSilent(t) && (fd !in t.table ==> NoneSilent(Insert(t, fd, ctype, now)))
  {
    var u := Insert(t, fd, ctype, now);
    forall g | g in s.hist.received
      ensures Live(t.table, g) || Told(t.hist.log, g)
      ensures fd !in t.table ==> Live(u.table, g) || Told(u.hist.log, g)
    {
      if Live(s.table, g) {
        var f :| f in s.table && s.table[f].gen == g;
        assert f != fd ==> u.table[f].gen == g;
      } else {
        var i :| 0 <= i < |s.hist.log| && s.hist.log[i].gen == g && s.hist.log[i].kind == Disconnected;
        assert t.hist.log[i] == s.hist.log[i];
      }
    }
    assert u.table[fd].gen == t.issued;
  }

  lemma SameToldKeepsEnds(s: State, t: State)
    requires NoneSilent(s) && t.table == s.table && t.hist.log == s.hist.log && t.hist.received == s.hist.received
    ensures NoneSilent(t)
  {}

  lemma ArrivalKeepsEnds(s: State, cfg: Config, ctlOk: bool, now: int)
    requires NoneSilent(s) && TypedTable(s.table) && !Owners.Replaces(s, cfg, SystemEvent(ctlOk, now))
    ensures NoneSilent(EventStep(s, cfg, ctlOk, now))
  {
    if s.events != [] {
      var p := s.(events := s.events[1..]);
      SameToldKeepsEnds(s, p);
      match s.events[0]
      case CloseClient(fd, _) =>
        CloseTells(p, fd);
        TellsKeepsEnds(p, CloseFd(p, fd));
      case AddClient(fd, ctype) => InsertKeepsEnds(p, Welcome(p, fd, ctype), fd, ctype, now);
    }
  }

  lemma AcceptKeepsEnds(s: State, cfg: Config, fd: int, setupOk: bool, ctlOk: bool, now: int)
    requires NoneSilent(s) && !Owners.Replaces(s, cfg, Accept(fd, setupOk, ctlOk, now))
    ensures NoneSilent(AcceptStep(s, cfg, fd, setupOk, ctlOk, now))
  {
    var u := Announce(s, fd, CLIENT_TYPE);
    InsertKeepsEnds(s, u, fd, CLIENT_TYPE, now);
    InsertKeepsEnds(s, OpenFd(u, fd), fd, CLIENT_TYPE, now);
  }

  /** The steps that read, write and close. */
  predicate Serves(step: Step) {
    step.Readable? || step.Writable? || step.PollError? || step.Scan? || step.Expire?
  }

  lemma StepTells(s: State, cfg: Config, step: Step)
    requires cfg.Ok() && Sound(s) && TypedTable(s.table) && Serves(step)
    ensures Tells(s, Apply(s, cfg, step))
  {
    match step
    case Readable(fd, gen, recvs, now) => ReadTells(s, cfg, fd, gen, recvs, now);
    case Writable(fd, sends, modOk) => WriteTells(s, fd, sends, modOk);
    case PollError(fd) => CloseTells(s, fd);
    case Scan(refused) => ScanTells(s, refused);
    case Expire(order, now) => CloseEachTells(s, order, Silent(s, cfg, now));
  }

  /** A step ends no connection in silence, unless it throws a stale entry away. */
  lemma StepEndsNoneInSilence(s: State, cfg: Config, step: Step)
    requires cfg.Ok() && Inv(s) && TypedTable(s.table) && NoneSilent(s) && !Owners.Replaces(s, cfg, step)
    ensures NoneSilent(Apply(s, cfg, step))
  {
    if Serves(step) {
      StepTells(s, cfg, step);
      TellsKeepsEnds(s, Apply(s, cfg, step));
    } else if step.Accept? {
      assert Apply(s, cfg, step) == AcceptStep(s, cfg, step.fd, step.setupOk, step.ctlOk, step.now);
      AcceptKeepsEnds(s, cfg, step.fd, step.setupOk, step.ctlOk, step.now);
    } else if step.SystemEvent? {
      assert Apply(s, cfg, step) == EventStep(s, cfg, step.ctlOk, step.now);
      ArrivalKeepsEnds(s, cfg, step.ctlOk, step.now);
    } else {
      OtherKeepsEnds(s, cfg, step);
    }
  }

  lemma OtherKeepsEnds(s: State, cfg: Config, step: Step)
    requires cfg.Ok() && Sound(s) && NoneSilent(s) && (Quiet(step) || step.Flush? || step.Pop?)
    ensures NoneSilent(Apply(s, cfg, step))
  {
    SameToldKeepsEnds(s, Apply(s, cfg, step));
  }

  ghost predicate ReplacesIn(open: set<int>, cfg: Config, steps: seq<Step>)
    requires cfg.Ok()
  {
    exists k :: 0 <= k < |steps| && Owners.Replaces(Run(open, cfg, steps[..k]), cfg, steps[k])
  }

  /** So in every run that meets no stale entry, a generation that entered the table
      and has left it ends with a Disconnected note. */
  lemma {:induction false} EndsAreTold(open: set<int>, cfg: Config, steps: seq<Step>)
    requires cfg.Ok() && !ReplacesIn(open, cfg, steps)
    ensures NoneSilent(Run(open, cfg, steps))
  {
    if steps != [] {
      var k := |steps| - 1;
      var init := steps[..k];
      assert forall j :: 0 <= j < k ==> init[..j] == steps[..j] && init[j] == steps[j];
      EndsAreTold(open, cfg, init);
      InvOverRuns(open, cfg, init);
      NotesSayWhatHappened(open, cfg, init);
      StepEndsNoneInSilence(Run(open, cfg, init), cfg, steps[k]);
    }
  }
}
