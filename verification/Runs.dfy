/** What holds in every run of the server: the life of each generation, the
    framing of its stream, the delivery of notes and the order of its wire. */
module Runs {
  import opened Bytes
  import opened Framing
  import opened Codec
  import opened Transfer
  import opened SendPath
  import opened Engine

  // ----- The notes of one generation --------------------------------------

  function Kinds(log: seq<Note>, g: nat): seq<Kind> {
    if log == [] then []
    else (if log[0].gen == g then [log[0].kind] else []) + Kinds(log[1..], g)
  }

  function Packets(log: seq<Note>, g: nat): seq<seq<byte>> {
    if log == [] then []
    else (if log[0].gen == g && log[0].kind == Data then [log[0].bytes] else []) + Packets(log[1..], g)
  }

  lemma {:induction false} KindsAppend(a: seq<Note>, b: seq<Note>, g: nat)
    ensures Kinds(a + b, g) == Kinds(a, g) + Kinds(b, g)
  {
    if a == [] {
      assert a + b == b;
    } else {
      KindsAppend(a[1..], b, g);
      assert (a + b)[1..] == a[1..] + b;
      Associate(if a[0].gen == g then [a[0].kind] else [], Kinds(a[1..], g), Kinds(b, g));
    }
  }

  lemma {:induction false} PacketsAppend(a: seq<Note>, b: seq<Note>, g: nat)
    ensures Packets(a + b, g) == Packets(a, g) + Packets(b, g)
  {
    if a == [] {
      assert a + b == b;
    } else {
      PacketsAppend(a[1..], b, g);
      assert (a + b)[1..] == a[1..] + b;
      Associate(if a[0].gen == g && a[0].kind == Data then [a[0].bytes] else [], Packets(a[1..], g), Packets(b, g));
    }
  }

  lemma KindsOfOne(n: Note, g: nat)
    ensures Kinds([n], g) == if n.gen == g then [n.kind] else []
    ensures Packets([n], g) == if n.gen == g && n.kind == Data then [n.bytes] else []
  {
    assert [n][1..] == [];
  }

  predicate AllData(ks: seq<Kind>) {
    forall k :: 0 <= k < |ks| ==> ks[k] == Data
  }

  /** Connected, then data. */
  predicate OpenLife(ks: seq<Kind>) {
    |ks| >= 1 && ks[0] == Connected && AllData(ks[1..])
  }

  /** Connected, then data, then at most one Disconnected with nothing after it. */
  predicate Life(ks: seq<Kind>) {
    ks == [] || OpenLife(ks) || (|ks| >= 2 && OpenLife(ks[..|ks| - 1]) && ks[|ks| - 1] == Disconnected)
  }

  lemma {:induction false} NotesOfData(c: Conn, fd: int, packets: seq<seq<byte>>, g: nat)
    ensures AllData(Kinds(DataNotes(c, fd, packets), g))
    ensures g != c.gen ==> Kinds(DataNotes(c, fd, packets), g) == []
    ensures Packets(DataNotes(c, fd, packets), g) == if g == c.gen then packets else []
  {
    if packets != [] {
      var head, tail := Note(c.gen, Data, fd, c.time, c.ctype, packets[0]), DataNotes(c, fd, packets[1..]);
      NotesOfData(c, fd, packets[1..], g);
      assert DataNotes(c, fd, packets) == [head] + tail;
      PacketsAppend([head], tail, g);
      KindsOfOne(head, g);
      assert [packets[0]] + packets[1..] == packets && [] + Kinds(tail, g) == Kinds(tail, g);
    }
  }

  // ----- Invariants -------------------------------------------------------

  predicate Live(table: map<int, Conn>, g: nat) {
    exists fd :: fd in table && table[fd].gen == g
  }

  /** Each connection has its own generation and that generation's stamp; its
      remnant fits. */
  predicate TableOk(table: map<int, Conn>, issued: nat) {
    && (forall fd :: fd in table ==>
          fd >= 0 && 1 <= table[fd].gen <= issued && table[fd].time == Stamp(table[fd].gen)
            && |table[fd].part| < MAX_SEND_SIZE)
    && (forall fd, fd' :: fd in table && fd' in table && table[fd].gen == table[fd'].gen ==> fd == fd')
  }

  predicate PhaseOk(table: map<int, Conn>, issued: nat, log: seq<Note>, g: nat) {
    && Life(Kinds(log, g))
    && (Live(table, g) ==> OpenLife(Kinds(log, g)))
    && (g > issued ==> Kinds(log, g) == [])
  }

  ghost predicate LivesOk(table: map<int, Conn>, issued: nat, log: seq<Note>) {
    forall g: nat :: PhaseOk(table, issued, log, g)
  }

  /** What was queued for g is what receiving its reads one by one gives. */
  predicate StreamOk(log: seq<Note>, chunks: seq<seq<byte>>, g: nat) {
    ReceiveAllWritten(chunks).packets == Packets(log, g)
  }

  predicate Carries(c: Conn, chunks: seq<seq<byte>>) {
    ReceiveAllWritten(chunks).ok && ReceiveAllWritten(chunks).rest == c.part
  }

  /** And what a connection carries over is what that leaves. The connection on fd
      skip, about to be closed, is exempt. */
  predicate CarryOk(table: map<int, Conn>, received: map<nat, seq<seq<byte>>>, skip: int) {
    forall fd :: fd in table ==>
      table[fd].gen in received && (fd != skip ==> Carries(table[fd], received[table[fd].gen]))
  }

  predicate StreamsOk(issued: nat, log: seq<Note>, received: map<nat, seq<seq<byte>>>) {
    forall g :: g in received ==> g <= issued && StreamOk(log, received[g], g)
  }

  /** Nothing is lost or reordered on the way to the workers, unless the bounded
      queue refused it. */
  predicate DeliveryOk(s: State) {
    && |s.hist.popped| + |s.recvQ| + |s.tmp| + s.hist.dropped == |s.hist.log|
    && (s.hist.dropped == 0 ==> s.hist.popped + s.recvQ + s.tmp == s.hist.log)
  }

  ghost predicate InvExcept(s: State, skip: int) {
    && TableOk(s.table, s.issued) && LivesOk(s.table, s.issued, s.hist.log)
    && CarryOk(s.table, s.hist.received, skip) && StreamsOk(s.issued, s.hist.log, s.hist.received)
    && DeliveryOk(s)
  }

  ghost predicate Inv(s: State) {
    InvExcept(s, -1)
  }

  // ----- How the pieces of a step keep them -------------------------------

  lemma LogGrows(s: State, notes: seq<Note>)
    requires DeliveryOk(s)
    ensures DeliveryOk(Record(s, notes))
  {
    if s.hist.dropped == 0 {
      Associate(s.hist.popped + s.recvQ, s.tmp, notes);
    }
  }

  lemma StreamsKeptByOthers(issued: nat, log: seq<Note>, received: map<nat, seq<seq<byte>>>, n: Note)
    requires StreamsOk(issued, log, received) && n.kind != Data
    ensures StreamsOk(issued, log + [n], received)
  {
    forall g | g in received ensures g <= issued && StreamOk(log + [n], received[g], g) {
      assert StreamOk(log, received[g], g);
      PacketsAppend(log, [n], g);
      KindsOfOne(n, g);
      assert Packets(log, g) + [] == Packets(log, g);
    }
  }

  lemma ConnectedKeepsLives(table: map<int, Conn>, issued: nat, log: seq<Note>, n: Note)
    requires LivesOk(table, issued, log) && n.gen == issued + 1 && n.kind == Connected && !Live(table, issued + 1)
    ensures LivesOk(table, issued + 1, log + [n]) && Kinds(log + [n], issued + 1) == [Connected]
  {
    forall g: nat
      ensures PhaseOk(table, issued + 1, log + [n], g) && (g == issued + 1 ==> Kinds(log + [n], g) == [Connected])
    {
      assert PhaseOk(table, issued, log, g);
      KindsAppend(log, [n], g);
      KindsOfOne(n, g);
      assert Kinds(log, g) + [] == Kinds(log, g) && [] + [Connected] == [Connected];
    }
  }

  lemma AnnounceKeeps(s: State, fd: int, ctype: nat)
    requires Inv(s)
    ensures Inv(Announce(s, fd, ctype))
    ensures Newcomer(Announce(s, fd, ctype))
  {
    var t := Announce(s, fd, ctype);
    var n := Note(t.issued, Connected, fd, Stamp(t.issued), ctype, NoticeBytes(RS_CONNECTED, ctype));
    LogGrows(s, [n]);
    StreamsKeptByOthers(s.issued, s.hist.log, s.hist.received, n);
    StreamsOfMore(s.issued, t.hist.log, s.hist.received);
    ConnectedKeepsLives(s.table, s.issued, s.hist.log, n);
    NoPacketsWithoutNotes(t.hist.log, t.issued);
  }

  /** The generation just stamped has been announced, and that is all. */
  predicate Newcomer(t: State) {
    && t.issued >= 1 && Kinds(t.hist.log, t.issued) == [Connected] && Packets(t.hist.log, t.issued) == []
    && !Live(t.table, t.issued) && t.issued !in t.hist.received
  }

  lemma StreamsOfMore(issued: nat, log: seq<Note>, received: map<nat, seq<seq<byte>>>)
    requires StreamsOk(issued, log, received)
    ensures StreamsOk(issued + 1, log, received) && issued + 1 !in received
  {}

  lemma {:induction false} NoPacketsWithoutNotes(log: seq<Note>, g: nat)
    ensures (forall k :: 0 <= k < |Kinds(log, g)| ==> Kinds(log, g)[k] != Data) ==> Packets(log, g) == []
  {
    if log != [] {
      NoPacketsWithoutNotes(log[1..], g);
      var ks, more := Kinds(log, g), Kinds(log[1..], g);
      var d := |ks| - |more|;
      assert forall k :: 0 <= k < |more| ==> more[k] == ks[k + d];
      if log[0].gen == g {
        assert ks[0] == log[0].kind;
      }
    }
  }

  lemma InsertKeepsLives(table: map<int, Conn>, issued: nat, log: seq<Note>, fd: int, c: Conn)
    requires LivesOk(table, issued, log) && OpenLife(Kinds(log, c.gen))
    ensures LivesOk(table[fd := c], issued, log)
  {
    var next := table[fd := c];
    forall g: nat ensures PhaseOk(next, issued, log, g) {
      assert PhaseOk(table, issued, log, g);
      if Live(next, g) && g != c.gen {
        var f :| f in next && next[f].gen == g;
        assert f in table && table[f].gen == g;
      }
    }
  }

  lemma InsertKeepsStreams(issued: nat, log: seq<Note>, received: map<nat, seq<seq<byte>>>)
    requires StreamsOk(issued, log, received) && Packets(log, issued) == []
    ensures StreamsOk(issued, log, received[issued := []])
  {
    var next := received[issued := []];
    forall g | g in next ensures g <= issued && StreamOk(log, next[g], g) {
      assert g != issued ==> StreamOk(log, received[g], g);
    }
  }

  lemma InsertKeeps(t: State, fd: int, ctype: nat, now: int)
    requires Inv(t) && fd >= 0 && Newcomer(t)
    ensures Inv(Insert(t, fd, ctype, now))
  {
    var u := Insert(t, fd, ctype, now);
    InsertKeepsLives(t.table, t.issued, t.hist.log, fd, u.table[fd]);
    InsertKeepsStreams(t.issued, t.hist.log, t.hist.received);
    assert forall f :: f in t.table ==> t.table[f].gen != t.issued;
  }

  lemma CloseKeeps(s: State, fd: int)
    requires InvExcept(s, if fd in s.table then fd else -1)
    ensures Inv(CloseFd(s, fd))
  {
    if fd in s.table {
      var c := s.table[fd];
      var t := CloseFd(s, fd);
      var n := Note(c.gen, Disconnected, fd, c.time, c.ctype, NoticeBytes(RS_DISCONNECTED, c.ctype));
      assert t.hist.log == s.hist.log + [n];
      LogGrows(s, [n]);
      StreamsKeptByOthers(s.issued, s.hist.log, s.hist.received, n);
      forall g: nat ensures PhaseOk(t.table, t.issued, t.hist.log, g) {
        assert PhaseOk(s.table, s.issued, s.hist.log, g);
        KindsAppend(s.hist.log, [n], g);
        KindsOfOne(n, g);
        if g == c.gen {
          assert Live(s.table, g);
          var ks := Kinds(s.hist.log, g);
          assert (ks + [Disconnected])[..|ks|] == ks;
          assert !Live(t.table, g);
        } else {
          assert Kinds(s.hist.log, g) + [] == Kinds(s.hist.log, g);
          if Live(t.table, g) {
            var f :| f in t.table && t.table[f].gen == g;
            assert f in s.table && s.table[f].gen == g;
          }
        }
      }
      forall g | g in t.hist.received ensures g <= t.issued && StreamOk(t.hist.log, t.hist.received[g], g) {
        assert StreamOk(t.hist.log, s.hist.received[g], g);
      }
    }
  }

  lemma {:induction false} CloseEachKeeps(s: State, order: seq<int>, due: set<int>)
    requires Inv(s)
    ensures Inv(CloseEach(s, order, due))
    decreases |order|
  {
    if order != [] {
      if order[0] in due && order[0] in s.table {
        CloseKeeps(s, order[0]);
        CloseEachKeeps(CloseFd(s, order[0]), order[1..], due);
      } else {
        CloseEachKeeps(s, order[1..], due);
      }
    }
  }

  /** One more read: the buffer it presents is the carried bytes and its own. */
  lemma StreamAdvances(c: Conn, chunks: seq<seq<byte>>, bytes: seq<byte>)
    requires Carries(c, chunks)
    ensures var p := ParseWritten(c.part + bytes);
      ReceiveAllWritten(chunks + [bytes]) == Parsed(ReceiveAllWritten(chunks).packets + p.packets, p.ok, p.rest)
  {
    assert (chunks + [bytes])[..|chunks + [bytes]| - 1] == chunks;
  }

  lemma DataKeepsLives(table: map<int, Conn>, issued: nat, log: seq<Note>, fd: int, packets: seq<seq<byte>>)
    requires LivesOk(table, issued, log) && fd in table
    ensures LivesOk(table, issued, log + DataNotes(table[fd], fd, packets))
  {
    var c := table[fd];
    var notes := DataNotes(c, fd, packets);
    forall g: nat ensures PhaseOk(table, issued, log + notes, g) {
      assert PhaseOk(table, issued, log, g);
      KindsAppend(log, notes, g);
      NotesOfData(c, fd, packets, g);
      if g == c.gen {
        assert Live(table, g);
        DataExtendsLife(Kinds(log, g), Kinds(notes, g));
      } else {
        assert Kinds(log, g) + [] == Kinds(log, g);
      }
    }
  }

  lemma DataExtendsLife(ks: seq<Kind>, more: seq<Kind>)
    requires OpenLife(ks) && AllData(more)
    ensures OpenLife(ks + more)
  {
    assert (ks + more)[1..] == ks[1..] + more;
  }

  lemma DataKeepsStreams(s: State, fd: int, packets: seq<seq<byte>>, chunks: seq<seq<byte>>)
    requires StreamsOk(s.issued, s.hist.log, s.hist.received) && fd in s.table && s.table[fd].gen in s.hist.received
    requires var c := s.table[fd];
      ReceiveAllWritten(chunks).packets == Packets(s.hist.log, c.gen) + packets
    ensures StreamsOk(s.issued, s.hist.log + DataNotes(s.table[fd], fd, packets),
      s.hist.received[s.table[fd].gen := chunks])
  {
    var c := s.table[fd];
    var notes, next := DataNotes(c, fd, packets), s.hist.received[c.gen := chunks];
    forall g | g in next ensures g <= s.issued && StreamOk(s.hist.log + notes, next[g], g) {
      PacketsAppend(s.hist.log, notes, g);
      NotesOfData(c, fd, packets, g);
      if g != c.gen {
        assert StreamOk(s.hist.log, s.hist.received[g], g);
        assert Packets(s.hist.log, g) + [] == Packets(s.hist.log, g);
      }
    }
  }

  lemma SameLives(table: map<int, Conn>, next: map<int, Conn>, issued: nat, log: seq<Note>)
    requires LivesOk(table, issued, log) && forall g :: Live(next, g) <==> Live(table, g)
    ensures LivesOk(next, issued, log)
  {
    forall g: nat ensures PhaseOk(next, issued, log, g) {
      assert PhaseOk(table, issued, log, g);
    }
  }

  lemma CarriesOn(table: map<int, Conn>, received: map<nat, seq<seq<byte>>>, issued: nat, fd: int, c: Conn,
      chunks: seq<seq<byte>>, ok: bool)
    requires TableOk(table, issued) && CarryOk(table, received, -1) && fd in table
    requires c.gen == table[fd].gen && c.time == table[fd].time && |c.part| < MAX_SEND_SIZE
      && (ok ==> Carries(c, chunks))
    ensures TableOk(table[fd := c], issued) && CarryOk(table[fd := c], received[c.gen := chunks], if ok then -1 else fd)
  {}

  lemma AbsorbKeeps(s: State, fd: int, bytes: seq<byte>, now: int)
    requires Inv(s) && fd in s.table
    ensures var t, ok := Absorb(s, fd, bytes, now).0, Absorb(s, fd, bytes, now).1;
      && InvExcept(t, if ok then -1 else fd)
      && fd in t.table && t.table[fd].gen == s.table[fd].gen
  {
    var c := s.table[fd];
    var t, ok := Absorb(s, fd, bytes, now).0, Absorb(s, fd, bytes, now).1;
    SameGenerations(s.table, t.table, fd);
    if bytes == [] {
      SameLives(s.table, t.table, s.issued, s.hist.log);
      CarriesOn(s.table, s.hist.received, s.issued, fd, t.table[fd], s.hist.received[c.gen], ok);
      assert s.hist.received[c.gen := s.hist.received[c.gen]] == s.hist.received;
    } else {
      var buf, st := c.part + bytes, s.hist.received[c.gen];
      var p := ParseWritten(buf);
      var notes := DataNotes(c, fd, p.packets);
      RemnantFitsAndFullBufferProgresses(buf);
      LogGrows(s, notes);
      DataKeepsLives(s.table, s.issued, s.hist.log, fd, p.packets);
      SameLives(s.table, t.table, s.issued, t.hist.log);
      assert StreamOk(s.hist.log, st, c.gen) && Carries(c, st);
      StreamAdvances(c, st, bytes);
      DataKeepsStreams(s, fd, p.packets, t.hist.received[c.gen]);
      CarriesOn(s.table, s.hist.received, s.issued, fd, t.table[fd], t.hist.received[c.gen], ok);
    }
  }

  lemma SameGenerations(table: map<int, Conn>, next: map<int, Conn>, fd: int)
    requires fd in table && next.Keys == table.Keys && next == table[fd := next[fd]] && next[fd].gen == table[fd].gen
    ensures forall g :: Live(next, g) <==> Live(table, g)
  {
    forall g ensures Live(next, g) <==> Live(table, g) {
      if Live(next, g) {
        var f :| f in next && next[f].gen == g;
        assert f in table && table[f].gen == g;
      }
      if Live(table, g) {
        var f :| f in table && table[f].gen == g;
        assert f in next && next[f].gen == g;
      }
    }
  }

  lemma {:induction false} ReadLoopKeeps(s: State, cfg: Config, fd: int, script: seq<RecvReply>, now: int)
    requires cfg.Ok() && Inv(s) && fd in s.table
    ensures Inv(ReadLoop(s, cfg, fd, script, now))
    decreases |script|
  {
    var r := RecvAll(cfg.recvRoom - |s.table[fd].part|, script);
    ReadLoopTurn(s, cfg, fd, script, now, r);
    if r.code < 0 {
      CloseKeeps(s, fd);
    } else {
      AbsorbKeeps(s, fd, r.bytes, now);
      var t, ok := Absorb(s, fd, r.bytes, now).0, Absorb(s, fd, r.bytes, now).1;
      if r.code == 0 || !ok {
        CloseKeeps(t, fd);
      } else if r.code == 2 {
        ReadLoopKeeps(t, cfg, fd, r.rest, now);
      }
    }
  }

  // ----- Steps and runs ---------------------------------------------------

  /** t differs from s in nothing the invariants speak of. */
  predicate SameCore(s: State, t: State) {
    && t.table == s.table && t.issued == s.issued && t.hist.log == s.hist.log && t.hist.received == s.hist.received
    && t.tmp == s.tmp && t.recvQ == s.recvQ && t.hist.popped == s.hist.popped && t.hist.dropped == s.hist.dropped
  }

  lemma SameCoreKeeps(s: State, t: State)
    requires Inv(s) && SameCore(s, t)
    ensures Inv(t)
  {}

  lemma WireKeeps(s: State, fd: int, more: seq<byte>)
    requires Inv(s) && fd in s.table
    ensures Inv(s.(table := s.table[fd := s.table[fd].(wire := s.table[fd].wire + more)]))
  {
    var c := s.table[fd].(wire := s.table[fd].wire + more);
    var next := s.table[fd := c];
    SameGenerations(s.table, next, fd);
    SameLives(s.table, next, s.issued, s.hist.log);
    assert Carries(s.table[fd], s.hist.received[c.gen]);
    CarriesOn(s.table, s.hist.received, s.issued, fd, c, s.hist.received[c.gen], true);
    assert s.hist.received[c.gen := s.hist.received[c.gen]] == s.hist.received;
  }

  lemma SendQueuedKeeps(s: State, fd: int, script: seq<SendReply>)
    requires Inv(s)
    ensures Inv(SendQueued(s, fd, script).0)
  {
    var t := SendQueued(s, fd, script).0;
    if fd in s.table && fd in s.out.back && s.out.back[fd].List? {
      var d := Drain(s.out.back[fd].msgs, fd, s.table[fd].time, script);
      WireKeeps(s, fd, d.wire);
      SameCoreKeeps(s.(table := s.table[fd := s.table[fd].(wire := s.table[fd].wire + d.wire)]), t);
    } else {
      SameCoreKeeps(s, t);
    }
  }

  lemma FlushKeeps(s: State, cfg: Config)
    requires Inv(s)
    ensures Inv(FlushStep(s, cfg))
  {
    var t := FlushStep(s, cfg);
    if t.hist.dropped == 0 {
      assert s.tmp[..|s.tmp|] == s.tmp && s.recvQ + s.tmp + [] == s.recvQ + s.tmp;
      Associate(s.hist.popped, s.recvQ, s.tmp);
    }
  }

  lemma PopKeeps(s: State)
    requires Inv(s)
    ensures Inv(PopStep(s))
  {
    if s.recvQ != [] {
      assert s.hist.popped + [s.recvQ[0]] + s.recvQ[1..] == s.hist.popped + s.recvQ;
    }
  }

  lemma AnnouncedKeeps(s: State, cfg: Config, fd: int, ctype: nat, ctlOk: bool, now: int, t: State)
    requires Inv(s) && SameCore(Announce(s, fd, ctype), t)
    ensures Inv(t) && (CanInsert(t, cfg, fd, ctlOk) ==> Inv(Insert(t, fd, ctype, now)))
  {
    AnnounceKeeps(s, fd, ctype);
    SameCoreKeeps(Announce(s, fd, ctype), t);
    if CanInsert(t, cfg, fd, ctlOk) {
      InsertKeeps(t, fd, ctype, now);
    }
  }

  lemma AcceptKeeps(s: State, cfg: Config, fd: int, setupOk: bool, ctlOk: bool, now: int)
    requires Inv(s)
    ensures Inv(AcceptStep(s, cfg, fd, setupOk, ctlOk, now))
  {
    var t := Announce(s, fd, CLIENT_TYPE);
    AnnouncedKeeps(s, cfg, fd, CLIENT_TYPE, ctlOk, now, t);
    AnnouncedKeeps(s, cfg, fd, CLIENT_TYPE, ctlOk, now, OpenFd(t, fd));
  }

  lemma EventKeeps(s: State, cfg: Config, ctlOk: bool, now: int)
    requires Inv(s)
    ensures Inv(EventStep(s, cfg, ctlOk, now))
  {
    if s.events != [] {
      var t := s.(events := s.events[1..]);
      SameCoreKeeps(s, t);
      match s.events[0]
      case CloseClient(fd, _) => CloseKeeps(t, fd);
      case AddClient(fd, ctype) =>
        var u := Announce(t, fd, ctype);
        var v := u.(keys := SetKey(u.keys, ctype, Key(u.issued, fd, Stamp(u.issued))));
        AnnouncedKeeps(t, cfg, fd, ctype, ctlOk, now, v);
        SameCoreKeeps(v, FreeFd(v, fd));
    }
  }

  lemma ReadKeeps(s: State, cfg: Config, fd: int, gen: nat, script: seq<RecvReply>, now: int)
    requires cfg.Ok() && Inv(s)
    ensures Inv(ReadStep(s, cfg, fd, gen, script, now))
  {
    if fd !in s.table || s.table[fd].gen != gen {
      CloseKeeps(s, fd);
    } else {
      ReadLoopKeeps(s, cfg, fd, script, now);
    }
  }

  lemma WriteKeeps(s: State, fd: int, script: seq<SendReply>, modOk: bool)
    requires Inv(s)
    ensures Inv(WriteStep(s, fd, script, modOk))
  {
    SendQueuedKeeps(s, fd, script);
    CloseKeeps(SendQueued(s, fd, script).0, fd);
  }

  lemma ScanKeeps(s: State, refused: seq<int>)
    requires Inv(s)
    ensures Inv(ScanStep(s, refused))
  {
    var t := Trim(s, refused);
    SameCoreKeeps(s, t);
    CloseEachKeeps(t, refused, Refused(s, refused));
  }

  lemma SwitchIsQuiet(s: State, cfg: Config)
    ensures SameCore(s, SwitchStep(s, cfg))
  {}

  lemma EnqueueIsQuiet(s: State, cfg: Config, m: Msg)
    ensures SameCore(s, EnqueueStep(s, cfg, m))
  {}

  lemma PostIsQuiet(s: State, cfg: Config, e: Event)
    ensures SameCore(s, PostStep(s, cfg, e))
  {}

  lemma OpenIsQuiet(s: State, c: nat, fd: int, ctype: nat)
    ensures SameCore(s, OpenStep(s, c, fd, ctype))
  {}

  lemma GiveUpIsQuiet(s: State, c: nat)
    ensures SameCore(s, GiveUpStep(s, c))
  {}

  lemma ConnectedIsQuiet(s: State, cfg: Config, c: nat, now: int)
    ensures SameCore(s, ConnectedStep(s, cfg, c, now))
  {}

  /** Steps that touch no connection and no note. */
  predicate Quiet(step: Step) {
    || step.SwitchMaps? || step.Enqueue? || step.PostClose?
    || step.ConnectorOpen? || step.ConnectorGiveUp? || step.ConnectorPost?
  }

  lemma QuietStepsAreQuiet(s: State, cfg: Config, step: Step)
    requires cfg.Ok() && Sound(s) && Quiet(step)
    ensures SameCore(s, Apply(s, cfg, step))
  {
    match step
    case SwitchMaps => SwitchIsQuiet(s, cfg);
    case Enqueue(m) => EnqueueIsQuiet(s, cfg, m);
    case PostClose(fd, time) => PostIsQuiet(s, cfg, CloseClient(fd, time));
    case ConnectorOpen(c, fd, ctype) => OpenIsQuiet(s, c, fd, ctype);
    case ConnectorGiveUp(c) => GiveUpIsQuiet(s, c);
    case ConnectorPost(c, now) => ConnectedIsQuiet(s, cfg, c, now);
  }

  lemma StepKeeps(s: State, cfg: Config, step: Step)
    requires cfg.Ok() && Inv(s)
    ensures Inv(Apply(s, cfg, step))
  {
    match step
    case Accept(fd, setupOk, ctlOk, now) => AcceptKeeps(s, cfg, fd, setupOk, ctlOk, now);
    case Readable(fd, gen, recvs, now) => ReadKeeps(s, cfg, fd, gen, recvs, now);
    case Writable(fd, sends, modOk) => WriteKeeps(s, fd, sends, modOk);
    case PollError(fd) => CloseKeeps(s, fd);
    case Flush => FlushKeeps(s, cfg);
    case SystemEvent(ctlOk, now) => EventKeeps(s, cfg, ctlOk, now);
    case Scan(refused) => ScanKeeps(s, refused);
    case Expire(order, now) => CloseEachKeeps(s, order, Silent(s, cfg, now));
    case Pop => PopKeeps(s);
    case _ =>
      QuietStepsAreQuiet(s, cfg, step);
      SameCoreKeeps(s, Apply(s, cfg, step));
  }

  lemma InitialInv(open: set<int>)
    ensures Inv(Initial(open))
  {
    forall g: nat ensures PhaseOk(map[], 1, [], g) {}
  }

  /** Some steps of any threads, one after the other. */
  function ApplyAll(s: State, cfg: Config, steps: seq<Step>): (t: State)
    requires cfg.Ok() && Sound(s)
    ensures Sound(t)
  {
    if steps == [] then s
    else Apply(ApplyAll(s, cfg, steps[..|steps| - 1]), cfg, steps[|steps| - 1])
  }

  lemma {:induction false} ApplyAllAppend(s: State, cfg: Config, a: seq<Step>, b: seq<Step>)
    requires cfg.Ok() && Sound(s)
    ensures ApplyAll(s, cfg, a + b) == ApplyAll(ApplyAll(s, cfg, a), cfg, b)
    decreases |b|
  {
    if b == [] {
      assert a + b == a;
    } else {
      ApplyAllAppend(s, cfg, a, b[..|b| - 1]);
      assert (a + b)[..|a + b| - 1] == a + b[..|b| - 1];
    }
  }

  lemma ApplyAllOne(s: State, cfg: Config, step: Step)
    requires cfg.Ok() && Sound(s)
    ensures ApplyAll(s, cfg, [step]) == Apply(s, cfg, step)
  {
    assert [step][..0] == [];
  }

  /** The state after any steps from start-up. */
  ghost function Run(open: set<int>, cfg: Config, steps: seq<Step>): (s: State)
    requires cfg.Ok()
    ensures Sound(s)
  {
    ApplyAll(Initial(open), cfg, steps)
  }

  lemma RunOn(open: set<int>, cfg: Config, steps: seq<Step>, step: Step)
    requires cfg.Ok()
    ensures Run(open, cfg, steps + [step]) == Apply(Run(open, cfg, steps), cfg, step)
  {
    assert (steps + [step])[..|steps + [step]| - 1] == steps;
  }

  /** Every state of every run satisfies the invariants. */
  lemma {:induction false} InvOverRuns(open: set<int>, cfg: Config, steps: seq<Step>)
    requires cfg.Ok()
    ensures Inv(Run(open, cfg, steps))
  {
    if steps == [] {
      InitialInv(open);
    } else {
      InvOverRuns(open, cfg, steps[..|steps| - 1]);
      StepKeeps(Run(open, cfg, steps[..|steps| - 1]), cfg, steps[|steps| - 1]);
    }
  }

  /** In every run, for every generation: the packets queued are those of
      receiving its reads one by one, and so are the verdict and the remnant of a
      connection that is still there. The carried bytes fit their buffer and leave
      room to read one largest packet more. */
  lemma ReadsOverRuns(open: set<int>, cfg: Config, steps: seq<Step>, g: nat, fd: int)
    requires cfg.Ok()
    ensures var s := Run(open, cfg, steps);
      && (g in s.hist.received ==> ReceiveAllWritten(s.hist.received[g]).packets == Packets(s.hist.log, g))
      && (fd in s.table ==>
            var c := s.table[fd];
            && |c.part| < MAX_SEND_SIZE < cfg.recvRoom - |c.part| && c.gen in s.hist.received
            && ReceiveAllWritten(s.hist.received[c.gen]) == Parsed(Packets(s.hist.log, c.gen), true, c.part))
  {
    InvOverRuns(open, cfg, steps);
    var s := Run(open, cfg, steps);
    if g in s.hist.received {
      assert StreamOk(s.hist.log, s.hist.received[g], g);
    }
    if fd in s.table {
      var h := s.table[fd].gen;
      assert StreamOk(s.hist.log, s.hist.received[h], h) && Carries(s.table[fd], s.hist.received[h]);
    }
  }

  /** So, as long as no read moved a short remnant, they are those of one parse of
      everything received, however it was cut. */
  lemma FramingOverRuns(open: set<int>, cfg: Config, steps: seq<Step>, g: nat, fd: int)
    requires cfg.Ok()
    ensures var s := Run(open, cfg, steps);
      && (g in s.hist.received && NoneMoved(s.hist.received[g]) ==>
            Parse(Flatten(s.hist.received[g])).packets == Packets(s.hist.log, g))
      && (fd in s.table ==> s.table[fd].gen in s.hist.received)
      && (fd in s.table && NoneMoved(s.hist.received[s.table[fd].gen]) ==>
            var c := s.table[fd];
            Parse(Flatten(s.hist.received[c.gen])) == Parsed(Packets(s.hist.log, c.gen), true, c.part))
  {
    ReadsOverRuns(open, cfg, steps, g, fd);
    var s := Run(open, cfg, steps);
    if g in s.hist.received && NoneMoved(s.hist.received[g]) {
      WrittenIsIntended(s.hist.received[g]);
    }
    if fd in s.table && NoneMoved(s.hist.received[s.table[fd].gen]) {
      WrittenIsIntended(s.hist.received[s.table[fd].gen]);
    }
  }

  /** End to end: what a peer sends as messages of the wire codec reaches the queue
      as exactly those messages, as long as no read moved a short remnant. */
  lemma MessagesOverRuns(open: set<int>, cfg: Config, steps: seq<Step>, g: nat, ms: seq<Message>)
    requires cfg.Ok() && forall m :: m in ms ==> m.Sendable()
    requires var s := Run(open, cfg, steps);
      g in s.hist.received && NoneMoved(s.hist.received[g]) && Flatten(s.hist.received[g]) == Flatten(EncodeAll(ms))
    ensures Packets(Run(open, cfg, steps).hist.log, g) == EncodeAll(ms)
    ensures forall i :: 0 <= i < |ms| ==> |EncodeAll(ms)[i]| >= NET_HEAD_SIZE && Decode(EncodeAll(ms)[i]) == ms[i]
  {
    var chunks := Run(open, cfg, steps).hist.received[g];
    FramingOverRuns(open, cfg, steps, g, 0);
    EndToEnd(ms, chunks);
    ChunkingIrrelevant(chunks);
  }

  /** The workers take exactly what was announced, in order, until the bounded
      queue refuses a note; and even then every note is accounted for. */
  lemma DeliveryOverRuns(open: set<int>, cfg: Config, steps: seq<Step>)
    requires cfg.Ok()
    ensures var s := Run(open, cfg, steps);
      && |s.hist.popped| + |s.recvQ| + |s.tmp| + s.hist.dropped == |s.hist.log|
      && (s.hist.dropped == 0 ==> s.hist.popped + s.recvQ + s.tmp == s.hist.log)
  {
    InvOverRuns(open, cfg, steps);
  }
}
