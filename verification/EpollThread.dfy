/** CEpollThread: the event loop. Its methods are proved to take exactly the steps
    of the state machine. A connection (SOCKET_SET with its key) is a value in the
    table; the receive buffer is the array that reads fill and the parser walks. */
module EpollThreads {
  import opened Bytes
  import opened Framing
  import opened Codec
  import opened Transfer
  import opened SendPath
  import opened Engine
  import opened Runs
  import opened Locks
  import opened GlobalMgrs

  lemma OneMoreNote(tmp: seq<Note>, before: seq<Note>, c: Conn, fd: int, done: seq<seq<byte>>, p: seq<byte>)
    requires tmp == before + DataNotes(c, fd, done)
    ensures tmp + [Note(c.gen, Data, fd, c.time, c.ctype, p)] == before + DataNotes(c, fd, done + [p])
  {
    assert DataNotes(c, fd, done + [p]) == DataNotes(c, fd, done) + [Note(c.gen, Data, fd, c.time, c.ctype, p)];
  }

  /** A drain that has sent some bytes goes on from what is left. */
  function Sent(wire: seq<byte>, d: Drained): Drained {
    d.(wire := wire + d.wire)
  }

  /** The loop of doSendMessage over one list. */
  method DrainList(msgs: seq<Msg>, fd: int, time: int, script: seq<SendReply>) returns (d: Drained)
    ensures d == Drain(msgs, fd, time, script)
  {
    var list, left := msgs, script;
    var wire: seq<byte> := [];
    assert [] + Drain(msgs, fd, time, script).wire == Drain(msgs, fd, time, script).wire;
    while list != []
      invariant Drain(msgs, fd, time, script) == Sent(wire, Drain(list, fd, time, left))
      decreases |list|
    {
      var m := list[0];
      if !(m.fd == fd && m.time == time) {
        list := list[1..];
        continue;
      }
      var r := SendMsg(|m.bytes|, left);
      left := r.rest;
      if r.code < 0 {
        return Drained(-1, [], wire + m.bytes[..r.count]);
      }
      wire := wire + m.bytes[..r.count];
      if r.code == 0 {
        var later := list[1..];
        list := if |m.bytes| - r.count > 0 then [m.(bytes := m.bytes[r.count..])] + later else later;
        return Drained(1, list, wire);
      }
      assert m.bytes[..r.count] == m.bytes;
      Associate(wire[..|wire| - r.count], m.bytes, Drain(list[1..], fd, time, left).wire);
      list := list[1..];
    }
    assert wire + [] == wire;
    return Drained(1, [], wire);
  }

  /** What the kernel answers about one connection to be accepted. */
  datatype AcceptReply = AcceptReply(fd: int, setupOk: bool, ctlOk: bool, now: int)

  function AcceptAll(s: State, cfg: Config, replies: seq<AcceptReply>): State
    decreases |replies|
  {
    if replies == [] || replies[0].fd < 0 then s
    else
      var r := replies[0];
      AcceptAll(AcceptStep(s, cfg, r.fd, r.setupOk, r.ctlOk, r.now), cfg, replies[1..])
  }

  /** And about one connection a connector hands over. */
  datatype AddReply = AddReply(ctlOk: bool, now: int)

  function EventAll(s: State, cfg: Config, replies: seq<AddReply>): State
    decreases |replies|
  {
    if s.events == [] || replies == [] then s
    else EventAll(EventStep(s, cfg, replies[0].ctlOk, replies[0].now), cfg, replies[1..])
  }

  function AcceptSteps(replies: seq<AcceptReply>): seq<Step> {
    if replies == [] || replies[0].fd < 0 then []
    else [Accept(replies[0].fd, replies[0].setupOk, replies[0].ctlOk, replies[0].now)] + AcceptSteps(replies[1..])
  }

  lemma {:induction false} AcceptAllIsSteps(s: State, cfg: Config, replies: seq<AcceptReply>)
    requires cfg.Ok() && Sound(s)
    ensures AcceptAll(s, cfg, replies) == ApplyAll(s, cfg, AcceptSteps(replies))
    decreases |replies|
  {
    if replies != [] && replies[0].fd >= 0 {
      var r := replies[0];
      var step := Accept(r.fd, r.setupOk, r.ctlOk, r.now);
      ApplyAllOne(s, cfg, step);
      ApplyAllAppend(s, cfg, [step], AcceptSteps(replies[1..]));
      AcceptAllIsSteps(Apply(s, cfg, step), cfg, replies[1..]);
    }
  }

  function EventSteps(replies: seq<AddReply>): seq<Step> {
    if replies == [] then [] else [SystemEvent(replies[0].ctlOk, replies[0].now)] + EventSteps(replies[1..])
  }

  lemma {:induction false} EventAllIsSteps(s: State, cfg: Config, replies: seq<AddReply>)
    requires cfg.Ok() && Sound(s) && |replies| == |s.events|
    ensures EventAll(s, cfg, replies) == ApplyAll(s, cfg, EventSteps(replies))
    decreases |replies|
  {
    if replies != [] {
      var r := replies[0];
      var step := SystemEvent(r.ctlOk, r.now);
      ApplyAllOne(s, cfg, step);
      ApplyAllAppend(s, cfg, [step], EventSteps(replies[1..]));
      OneEventLess(s, cfg, r.ctlOk, r.now);
      EventAllIsSteps(Apply(s, cfg, step), cfg, replies[1..]);
    }
  }

  lemma OneEventLess(s: State, cfg: Config, ctlOk: bool, now: int)
    requires s.events != []
    ensures EventStep(s, cfg, ctlOk, now).events == s.events[1..]
  {}

  /** What epoll_wait reports about one descriptor, with the kernel's answers to
      what the loop then does. */
  datatype Ready =
    | Listening(accepts: seq<AcceptReply>)
    | In(fd: int, gen: nat, recvs: seq<RecvReply>)
    | Out(fd: int, sends: seq<SendReply>, modOk: bool)
    | Broken(fd: int)

  function ReadySteps(r: Ready, now: int): seq<Step> {
    match r
    case Listening(accepts) => AcceptSteps(accepts)
    case In(fd, gen, recvs) => [Readable(fd, gen, recvs, now)]
    case Out(fd, sends, modOk) => [Writable(fd, sends, modOk)]
    case Broken(fd) => [PollError(fd)]
  }

  function AllReadySteps(ready: seq<Ready>, now: int): seq<Step> {
    if ready == [] then []
    else AllReadySteps(ready[..|ready| - 1], now) + ReadySteps(ready[|ready| - 1], now)
  }

  /** A round up to the switch of the send maps. */
  function UntilSwitch(ready: seq<Ready>, adds: seq<AddReply>, now: int): seq<Step> {
    AllReadySteps(ready, now) + [Flush] + EventSteps(adds) + [Step.SwitchMaps]
  }

  /** Two runs, one after the other. */
  lemma Joined(s: State, cfg: Config, a: seq<Step>, b: seq<Step>) returns (steps: seq<Step>)
    requires cfg.Ok() && Sound(s)
    ensures steps == a + b && ApplyAll(s, cfg, steps) == ApplyAll(ApplyAll(s, cfg, a), cfg, b)
  {
    steps := a + b;
    ApplyAllAppend(s, cfg, a, b);
  }

  predicate TypesOk(events: seq<Event>) {
    forall i :: 0 <= i < |events| && events[i].AddClient? ==> events[i].ctype < TWO32
  }

  lemma DeletedIsTrimmed(s: State, order: seq<int>, dels: seq<int>)
    requires forall fd :: fd in order ==> fd in s.out.back && fd in s.table && fd >= 0
    requires forall fd :: fd in dels <==> fd in s.out.back && (fd !in s.table || fd in order)
    ensures (forall fd :: fd in order ==> fd in Refused(s, order))
    ensures s.out.back - (set fd | fd in dels && fd >= 0) == Trim(s, order).out.back
  {
    var gone := set fd | fd in dels && fd >= 0;
    assert forall fd :: fd in gone <==> fd in Unconnected(s) || fd in Refused(s, order);
  }

  /** Closing connections does not look at the send maps. */
  lemma {:induction false} CloseEachCommutes(s: State, o: Outgoing, order: seq<int>, due: set<int>)
    ensures CloseEach(s.(out := o), order, due) == CloseEach(s, order, due).(out := o)
    decreases |order|
  {
    if order != [] {
      var t := if order[0] in due && order[0] in s.table then CloseFd(s, order[0]) else s;
      CloseEachCommutes(t, o, order[1..], due);
    }
  }

  lemma SubOfPrefix(whole: seq<byte>, n: nat, i: nat, j: nat)
    requires i <= j <= n <= |whole|
    ensures whole[..n][i..j] == whole[i..j]
  {}

  class EpollThread {
    const mgr: GlobalMgr
    const host: Host
    const maxTable: nat
    const timeout: int
    const recvBuf: array<byte>
    var index: int
    var sockets: map<int, Conn>
    var tmp: seq<Note>
    // how many stamps were given out; it names connections where the code compares key pointers
    var issued: nat
    ghost var fds: Descriptors
    ghost var hist: History

    ghost predicate Valid()
      reads this, mgr
    {
      && mgr.Valid() && index == Stamp(issued) && recvBuf.Length >= 2 * MAX_SEND_SIZE
      && forall fd :: fd in sockets ==> fd >= 0 && |sockets[fd].part| < MAX_SEND_SIZE && sockets[fd].ctype < TWO32
    }

    /** What the state machine sees of this thread and what it shares. */
    ghost function State(): State
      reads this, mgr, mgr.recvQueue, mgr.eventQueue
    {
      Engine.State(sockets, tmp, mgr.recvQueue.data, mgr.eventQueue.data, Outgoing(mgr.front, mgr.back),
                   mgr.keys, issued, fds, hist.(accepted := mgr.accepted))
    }

    ghost function Cfg(): Config {
      Config(maxTable, mgr.maxSend, mgr.recvQueue.maxSize, mgr.eventQueue.maxSize, recvBuf.Length, timeout)
    }

    /** startup: the receive buffer holds the larger socket buffer, or the largest
        packet, and one packet more; the listening socket takes the first stamp. */
    constructor (mgr: GlobalMgr, host: Host, maxTable: nat, timeout: int, sendBuf: int, readBuf: int,
        ghost open: set<int>)
      requires mgr.Valid() && mgr.front == map[] && mgr.back == map[] && mgr.accepted == []
      requires mgr.recvQueue.data == [] && mgr.eventQueue.data == []
      requires mgr.keys == map t | t in SERVER_TYPES :: Key(0, -1, 0)
      ensures this.mgr == mgr && fresh(recvBuf) && recvBuf.Length == RecvBufferSize(sendBuf, readBuf)
      ensures this.maxTable == maxTable && this.timeout == timeout
      ensures Valid() && State() == Initial(open)
    {
      this.mgr, this.host, this.maxTable, this.timeout := mgr, host, maxTable, timeout;
      var buflen := sendBuf;
      if sendBuf < readBuf {
        buflen := readBuf;
      }
      if buflen < MAX_SEND_SIZE {
        buflen := MAX_SEND_SIZE;
      }
      buflen := buflen + MAX_SEND_SIZE;
      recvBuf := new byte[buflen](_ => 0);
      index, sockets, tmp := 1, map[], [];
      issued, fds, hist := 1, Descriptors(open, map[]), History([], [], 0, map[], [], {});
    }

    // ----- Receiving ------------------------------------------------------

    method SizeAt(pos: nat, ghost b: seq<byte>) returns (nlen: nat)
      requires pos + NET_HEAD_SIZE <= |b| <= recvBuf.Length && recvBuf[..|b|] == b
      ensures nlen == Announced(b[pos..])
    {
      assert recvBuf[pos] == b[pos] && recvBuf[pos + 1] == b[pos + 1];
      nlen := recvBuf[pos] as int * 256 + recvBuf[pos + 1] as int;
    }

    /** A copy of a stretch of the received bytes b. */
    method CopyOf(start: nat, len: nat, ghost b: seq<byte>) returns (copy: seq<byte>)
      requires start + len <= |b| <= recvBuf.Length && recvBuf[..|b|] == b
      ensures copy == b[start..start + len]
    {
      copy := recvBuf[start..start + len];
      ghost var whole := recvBuf[..];
      assert b == whole[..|b|] && copy == whole[start..start + len];
      SubOfPrefix(whole, |b|, start, start + len);
    }

    /** done: the packets queued since tmp was before. */
    method PushData(c: Conn, fd: int, pdata: seq<byte>, ghost before: seq<Note>, ghost done: seq<seq<byte>>)
      requires tmp == before + DataNotes(c, fd, done)
      modifies this`tmp
      ensures tmp == before + DataNotes(c, fd, done + [pdata])
    {
      OneMoreNote(tmp, before, c, fd, done, pdata);
      tmp := tmp + [Note(c.gen, Data, fd, c.time, c.ctype, pdata)];
    }

    /** Queues the whole packets of the buffer and returns what is kept for the next
        read. A remnant shorter than a header is copied from the start of the
        buffer. */
    method ParsePacketToRecvQueue(c: Conn, fd: int, buflen: nat, ghost b: seq<byte>) returns (ok: bool, part: seq<byte>)
      requires 0 < buflen == |b| <= recvBuf.Length && recvBuf[..buflen] == b
      modifies this`tmp
      ensures var p := ParseWritten(b);
        tmp == old(tmp) + DataNotes(c, fd, p.packets) && ok == p.ok && part == p.rest
    {
      ghost var before := tmp;
      ghost var done: seq<seq<byte>> := [];
      var curpos := 0;
      ScanStarts(b);
      assert before + DataNotes(c, fd, done) == before;
      while curpos < buflen
        invariant Scanned(b, curpos, done)
        invariant tmp == before + DataNotes(c, fd, done)
      {
        if buflen - curpos < NET_HEAD_SIZE {
          ScanStopsShort(b, curpos, done);
          part := CopyOf(0, buflen - curpos, b);
          return true, part;
        }
        var nlen := SizeAt(curpos, b);
        if nlen > MAX_SEND_SIZE || nlen < NET_HEAD_SIZE {
          ScanStopsRefused(b, curpos, done, nlen);
          return false, [];
        }
        if nlen > buflen - curpos {
          ScanStopsWithin(b, curpos, done, nlen);
          part := CopyOf(curpos, buflen - curpos, b);
          return true, part;
        }
        var pdata := CopyOf(curpos, nlen, b);
        ScanAdvances(b, curpos, done, nlen);
        PushData(c, fd, pdata, before, done);
        done := done + [pdata];
        curpos := curpos + nlen;
      }
      ScanStopsShort(b, curpos, done);
      return true, [];
    }

    // ----- Closing --------------------------------------------------------

    /** MP_Server_Connected or MP_Server_DisConnected, as the bytes of a note. */
    method MakeNotice(mainId: nat, ctype: nat) returns (bytes: seq<byte>)
      requires mainId < 0x1_0000 && ctype < TWO32
      ensures bytes == NoticeBytes(mainId, ctype)
    {
      var buf := new byte[MAX_SEND_SIZE](_ => 0);
      var msg := new ServerNotice(mainId, ctype);
      var ok, buflen := msg.Out(host, buf, buf.Length);
      bytes := buf[..buflen];
    }

    /** createConnectServerMsg and createClientCloseMsg. */
    method PushNotice(gen: nat, kind: Kind, fd: int, time: int, ctype: nat)
      requires ctype < TWO32 && kind != Data
      modifies this`tmp, this`hist
      ensures var n := Note(gen, kind, fd, time, ctype,
        NoticeBytes(if kind == Connected then RS_CONNECTED else RS_DISCONNECTED, ctype));
        tmp == old(tmp) + [n] && hist == old(hist).(log := old(hist.log) + [n])
    {
      var bytes := MakeNotice(if kind == Connected then RS_CONNECTED else RS_DISCONNECTED, ctype);
      var note := Note(gen, kind, fd, time, ctype, bytes);
      tmp := tmp + [note];
      hist := hist.(log := hist.log + [note]);
    }

    /** By descriptor alone: the stamp the source passes along is not looked at. */
    method CloseClient(th: Thread, fd: int)
      requires Valid() && th.Valid() && MayAcquire(th.Held(), Lock.Server)
      modifies this`sockets, this`tmp, this`fds, this`hist, mgr`keys, th
      ensures Valid() && th.Valid() && th.Held() == old(th.Held())
      ensures State() == CloseFd(old(State()), fd)
    {
      if fd < 0 {
        return;
      }
      fds := fds.(open := fds.open - {fd});
      if fd in sockets {
        var c := sockets[fd];
        if c.ctype > CLIENT_TYPE {
          mgr.SetServerSocket(th, c.ctype, Key(0, -1, 0));
        }
        DropConnection(fd, c);
      }
    }

    method DropConnection(fd: int, c: Conn)
      requires Valid() && fd in sockets && c == sockets[fd]
      modifies this`sockets, this`tmp, this`hist
      ensures Valid()
      ensures var s := old(State());
        State() == Emit(s.(table := s.table - {fd}),
                        Note(c.gen, Disconnected, fd, c.time, c.ctype, NoticeBytes(RS_DISCONNECTED, c.ctype)))
    {
      PushNotice(c.gen, Disconnected, fd, c.time, c.ctype);
      sockets := sockets - {fd};
    }

    // ----- doRecvMessage --------------------------------------------------

    /** Puts the carried bytes in front of those received and parses the whole. */
    method CarryAndParse(c: Conn, fd: int, count: nat, ghost got: seq<byte>) returns (ok: bool, part: seq<byte>)
      requires 0 < count && |c.part| + count <= recvBuf.Length && recvBuf[|c.part|..|c.part| + count] == got
      modifies this`tmp, recvBuf
      ensures var p := ParseWritten(c.part + got);
        tmp == old(tmp) + DataNotes(c, fd, p.packets) && ok == p.ok && part == p.rest
    {
      forall i | 0 <= i < |c.part| {
        recvBuf[i] := c.part[i];
      }
      assert recvBuf[..|c.part| + count] == c.part + got;
      ok, part := ParsePacketToRecvQueue(c, fd, |c.part| + count, c.part + got);
    }

    /** One successful recv_msg put count bytes behind the carried ones. */
    method TakeBytes(fd: int, count: nat, now: int) returns (ok: bool)
      requires Valid() && fd in sockets && |sockets[fd].part| + count <= recvBuf.Length
      modifies this`sockets, this`tmp, this`hist, recvBuf
      ensures Valid() && fd in sockets
      ensures var got := old(recvBuf[|sockets[fd].part|..|sockets[fd].part| + count]);
        (State(), ok) == Absorb(old(State()), fd, got, now)
    {
      var c := sockets[fd];
      ok := true;
      if count == 0 {
        sockets := sockets[fd := c.(refresh := now)];
        return;
      }
      ghost var got := recvBuf[|c.part|..|c.part| + count];
      ghost var buf := c.part + got;
      var part;
      ok, part := CarryAndParse(c, fd, count, got);
      RemnantFitsAndFullBufferProgresses(buf);
      sockets := sockets[fd := c.(part := part, refresh := now)];
      ghost var before := if c.gen in hist.received then hist.received[c.gen] else [];
      hist := hist.(log := hist.log + DataNotes(c, fd, ParseWritten(buf).packets),
                    received := hist.received[c.gen := before + [got]]);
    }

    /** What doRecvMessage does after a recv_msg that did not fail. */
    method AfterRecv(th: Thread, fd: int, code: int, count: nat, now: int, ghost got: seq<byte>) returns (more: bool)
      requires Valid() && th.Valid() && MayAcquire(th.Held(), Lock.Server)
      requires fd in sockets && |sockets[fd].part| + count <= recvBuf.Length
      requires got == recvBuf[|sockets[fd].part|..|sockets[fd].part| + count]
      modifies this`sockets, this`tmp, this`fds, this`hist, recvBuf, mgr`keys, th
      ensures Valid() && th.Valid() && th.Held() == old(th.Held())
      ensures more ==> fd in sockets
      ensures var t, ok := Absorb(old(State()), fd, got, now).0, Absorb(old(State()), fd, got, now).1;
        && more == (code != 0 && ok && code != 1)
        && State() == if code == 0 || !ok then CloseFd(t, fd) else t
    {
      var ok := TakeBytes(fd, count, now);
      if code == 0 || !ok {
        CloseClient(th, fd);
        return false;
      }
      return code != 1;
    }

    /** One turn of the loop of doRecvMessage. */
    method ReadOnce(th: Thread, fd: int, script: seq<RecvReply>, now: int) returns (more: bool, rest: seq<RecvReply>)
      requires Valid() && th.Valid() && MayAcquire(th.Held(), Lock.Server) && fd in sockets
      modifies this`sockets, this`tmp, this`fds, this`hist, recvBuf, mgr`keys, th
      ensures Valid() && th.Valid() && th.Held() == old(th.Held())
      ensures |rest| <= |script| && (more ==> fd in sockets && |rest| < |script|)
      ensures ReadLoop(old(State()), Cfg(), fd, script, now) ==
        if more then ReadLoop(State(), Cfg(), fd, rest, now) else State()
    {
      ghost var s := State();
      var part := sockets[fd].part;
      var code, count;
      code, count, rest := RecvMsg(recvBuf, |part|, recvBuf.Length - |part|, script);
      ghost var got := recvBuf[|part|..|part| + count];
      ReadLoopTurn(s, Cfg(), fd, script, now, Received(code, got, rest));
      if code < 0 {
        CloseClient(th, fd);
        return false, rest;
      }
      more := AfterRecv(th, fd, code, count, now, got);
    }

    method DoRecvMessage(th: Thread, fd: int, gen: nat, script: seq<RecvReply>, now: int)
      requires Valid() && th.Valid() && MayAcquire(th.Held(), Lock.Server)
      modifies this`sockets, this`tmp, this`fds, this`hist, recvBuf, mgr`keys, th
      ensures Valid() && th.Valid() && th.Held() == old(th.Held())
      ensures Sound(old(State())) && State() == ReadStep(old(State()), Cfg(), fd, gen, script, now)
    {
      if fd !in sockets || sockets[fd].gen != gen {
        CloseClient(th, fd);
        return;
      }
      var left, more := script, true;
      while more
        invariant Valid() && th.Valid() && th.Held() == old(th.Held())
        invariant more ==> fd in sockets
        invariant ReadLoop(old(State()), Cfg(), fd, script, now) ==
          if more then ReadLoop(State(), Cfg(), fd, left, now) else State()
        decreases |left|, more
      {
        more, left := ReadOnce(th, fd, left, now);
      }
    }

    // ----- doSendMessage --------------------------------------------------

    method DeleteSendMsgFromSendMap(fd: int)
      modifies mgr`back
      ensures mgr.back == DeleteList(old(mgr.back), fd)
    {
      if fd < 0 {
        return;
      }
      mgr.back := mgr.back - {fd};
    }

    method DoSendMessage(fd: int, script: seq<SendReply>) returns (code: int)
      requires Valid()
      modifies this`sockets, mgr`back
      ensures Valid() && (State(), code < 0) == SendQueued(old(State()), fd, script)
    {
      if fd !in sockets {
        DeleteSendMsgFromSendMap(fd);
        return 0;
      }
      if fd !in mgr.back {
        return 0;
      }
      match mgr.back[fd] {
        case Null =>
          mgr.back := mgr.back - {fd};
          return 0;
        case List(msgs) =>
          var c := sockets[fd];
          var d := DrainList(msgs, fd, c.time, script);
          sockets := sockets[fd := c.(wire := c.wire + d.wire)];
          mgr.back := if d.rest == [] then mgr.back - {fd} else mgr.back[fd := List(d.rest)];
          return d.code;
      }
    }

    /** The EPOLLOUT branch of doEpollEvent. */
    method OnWritable(th: Thread, fd: int, script: seq<SendReply>, modOk: bool)
      requires Valid() && th.Valid() && MayAcquire(th.Held(), Lock.Server)
      modifies this`sockets, this`tmp, this`fds, this`hist, mgr`keys, mgr`back, th
      ensures Valid() && th.Valid() && th.Held() == old(th.Held())
      ensures State() == WriteStep(old(State()), fd, script, modOk)
    {
      var code := DoSendMessage(fd, script);
      if code < 0 {
        CloseClient(th, fd);
      } else if !modOk {
        CloseClient(th, fd);
      }
    }

    // ----- Adding connections ---------------------------------------------

    method GetIndex() returns (stamp: int)
      requires index == Stamp(issued)
      modifies this`index, this`issued
      ensures issued == old(issued) + 1 && index == Stamp(issued) && stamp == index
    {
      StampAdvances(issued);
      index := index + 1;
      if index == 0xFFFF_FFFF {
        index := 1;
      }
      issued := issued + 1;
      return index;
    }

    /** addClientToEpoll with addSocketToMap: an entry already under the descriptor
        is thrown away. ctlOk is epoll_ctl's answer. */
    method AddClientToEpoll(gen: nat, fd: int, time: int, ctype: nat, ctlOk: bool, now: int) returns (ok: bool)
      requires Valid() && gen == issued && time == Stamp(issued) && ctype < TWO32
      modifies this`sockets, this`hist
      ensures Valid()
      ensures ok == CanInsert(old(State()), Cfg(), fd, ctlOk) == (ctlOk && fd >= 0 && |old(sockets)| < maxTable)
      ensures State() == if ok then Insert(old(State()), fd, ctype, now) else old(State())
    {
      if !ctlOk {
        return false;
      }
      if fd < 0 {
        return false;
      }
      if maxTable <= |sockets| {
        return false;
      }
      if fd in sockets {
        sockets := sockets - {fd};
      }
      sockets := sockets[fd := Conn(gen, time, ctype, [], now, [])];
      hist := hist.(received := hist.received[gen := []]);
      return true;
    }

    /** One connection out of the loop of doAccept. */
    method AcceptOne(fd: int, setupOk: bool, ctlOk: bool, now: int)
      requires Valid()
      modifies this`index, this`issued, this`sockets, this`tmp, this`fds, this`hist
      ensures Valid() && State() == AcceptStep(old(State()), Cfg(), fd, setupOk, ctlOk, now)
    {
      if fd < 0 || !setupOk {
        return;
      }
      var time := GetIndex();
      PushNotice(issued, Connected, fd, time, CLIENT_TYPE);
      ghost var open := fds.open;
      fds := fds.(open := open + {fd});
      var ok := AddClientToEpoll(issued, fd, time, CLIENT_TYPE, ctlOk, now);
      if !ok {
        fds := fds.(open := open);
      }
    }

    method DoAccept(replies: seq<AcceptReply>)
      requires Valid()
      modifies this`index, this`issued, this`sockets, this`tmp, this`fds, this`hist
      ensures Valid() && State() == AcceptAll(old(State()), Cfg(), replies)
    {
      var left := replies;
      while left != []
        invariant Valid() && AcceptAll(old(State()), Cfg(), replies) == AcceptAll(State(), Cfg(), left)
        decreases |left|
      {
        var r := left[0];
        if r.fd < 0 {
          return;
        }
        AcceptOne(r.fd, r.setupOk, r.ctlOk, r.now);
        left := left[1..];
      }
    }

    // ----- doSystemEvent --------------------------------------------------

    /** The ADD_CLIENT case. */
    method AddServer(th: Thread, fd: int, ctype: nat, ctlOk: bool, now: int)
      requires Valid() && th.Valid() && MayAcquire(th.Held(), Lock.Server) && ctype < TWO32
      modifies this`index, this`issued, this`sockets, this`tmp, this`fds, this`hist, mgr`keys, th
      ensures Valid() && th.Valid() && th.Held() == old(th.Held())
      ensures var u := Announce(old(State()), fd, ctype);
        var v := u.(keys := SetKey(u.keys, ctype, Key(u.issued, fd, Stamp(u.issued))));
        State() == if CanInsert(v, Cfg(), fd, ctlOk) then Insert(v, fd, ctype, now) else FreeFd(v, fd)
    {
      ghost var u := Announce(State(), fd, ctype);
      var time := GetIndex();
      mgr.SetServerSocket(th, ctype, Key(issued, fd, time));
      PushNotice(issued, Connected, fd, time, ctype);
      assert State() == u.(keys := SetKey(u.keys, ctype, Key(u.issued, fd, Stamp(u.issued))));
      var ok := AddClientToEpoll(issued, fd, time, ctype, ctlOk, now);
      if !ok {
        fds := fds.(open := fds.open - {fd});
      }
    }

    /** One event, with the event queue's lock held. */
    method OneEvent(th: Thread, r: AddReply) returns (more: bool)
      requires Valid() && th.Valid() && MayAcquire(th.Held(), Lock.Server) && TypesOk(mgr.eventQueue.data)
      modifies this`index, this`issued, this`sockets, this`tmp, this`fds, this`hist, mgr`keys, mgr.eventQueue, th
      ensures Valid() && th.Valid() && th.Held() == old(th.Held()) && TypesOk(mgr.eventQueue.data)
      ensures more == (old(mgr.eventQueue.data) != [])
      ensures more ==> |mgr.eventQueue.data| == |old(mgr.eventQueue.data)| - 1
      ensures State() == EventStep(old(State()), Cfg(), r.ctlOk, r.now)
    {
      var data := mgr.eventQueue.OutQueueWithoutLock(true);
      if data.None? {
        return false;
      }
      assert old(mgr.eventQueue.data)[1..] == mgr.eventQueue.data && old(mgr.eventQueue.data)[0] == data.value;
      match data.value {
        case CloseClient(fd, _) => CloseClient(th, fd);
        case AddClient(fd, ctype) => AddServer(th, fd, ctype, r.ctlOk, r.now);
      }
      return true;
    }

    /** All events, under one hold of the event queue's lock. */
    method DoSystemEvent(th: Thread, replies: seq<AddReply>)
      requires Valid() && th.Valid() && th.Held() == {}
      requires TypesOk(mgr.eventQueue.data) && |replies| == |mgr.eventQueue.data|
      modifies this`index, this`issued, this`sockets, this`tmp, this`fds, this`hist, mgr`keys, mgr.eventQueue, th
      ensures Valid() && th.Valid() && th.Held() == {} && mgr.eventQueue.data == []
      ensures State() == EventAll(old(State()), Cfg(), replies)
    {
      if mgr.eventQueue.data == [] {
        return;
      }
      th.Lock(Lock.EventQueue);
      AllEvents(th, replies);
      th.UnLock(Lock.EventQueue);
    }

    method AllEvents(th: Thread, replies: seq<AddReply>)
      requires Valid() && th.Valid() && MayAcquire(th.Held(), Lock.Server)
      requires TypesOk(mgr.eventQueue.data) && |replies| == |mgr.eventQueue.data|
      modifies this`index, this`issued, this`sockets, this`tmp, this`fds, this`hist, mgr`keys, mgr.eventQueue, th
      ensures Valid() && th.Valid() && th.Held() == old(th.Held()) && mgr.eventQueue.data == []
      ensures State() == EventAll(old(State()), Cfg(), replies)
    {
      var left := replies;
      while mgr.eventQueue.data != []
        invariant Valid() && th.Valid() && th.Held() == old(th.Held()) && TypesOk(mgr.eventQueue.data)
        invariant |left| == |mgr.eventQueue.data|
        invariant EventAll(old(State()), Cfg(), replies) == EventAll(State(), Cfg(), left)
        decreases |left|
      {
        var more := OneEvent(th, left[0]);
        left := left[1..];
      }
    }

    // ----- The rest of one round of doEpollEvent --------------------------

    /** Hands the notes of this round to the workers; a full queue refuses them. */
    method FlushNotes(th: Thread)
      requires Valid() && th.Valid() && th.Held() == {}
      modifies this`tmp, this`hist, mgr.recvQueue, th
      ensures Valid() && th.Valid() && th.Held() == {}
      ensures State() == FlushStep(old(State()), Cfg())
      ensures th.ops == old(th.ops) + if old(tmp) == [] then [] else Around(Lock.RecvQueue)
    {
      if |tmp| > 0 {
        th.Lock(Lock.RecvQueue);
        HandOverNotes();
        th.UnLock(Lock.RecvQueue);
        assert th.ops == old(th.ops) + Around(Lock.RecvQueue);
      } else {
        assert State().recvQ + State().tmp[..0] == State().recvQ;
      }
    }

    method HandOverNotes()
      requires Valid()
      modifies this`tmp, this`hist, mgr.recvQueue
      ensures Valid() && State() == FlushStep(old(State()), Cfg())
    {
      var refused := QueueNotes(tmp);
      hist := hist.(dropped := hist.dropped + refused);
      tmp := [];
    }

    method QueueNotes(notes: seq<Note>) returns (refused: nat)
      modifies mgr.recvQueue
      ensures var q, max := old(mgr.recvQueue.data), mgr.recvQueue.maxSize;
        var k := Min(|notes|, if |q| < max then max - |q| else 0);
        mgr.recvQueue.data == q + notes[..k] && refused == |notes| - k
    {
      refused := 0;
      ghost var q, max := mgr.recvQueue.data, mgr.recvQueue.maxSize;
      ghost var room := if |q| < max then max - |q| else 0;
      assert q + notes[..0] == q;
      for i := 0 to |notes|
        invariant mgr.recvQueue.data == q + notes[..Min(i, room)] && refused == i - Min(i, room)
      {
        var ok := mgr.recvQueue.InQueueWithoutLock(Some(notes[i]), false);
        if !ok {
          refused := refused + 1;
        } else {
          assert notes[..i + 1] == notes[..i] + [notes[i]];
        }
      }
    }

    /** Closes the listed connections that are due, in order. */
    method CloseListed(th: Thread, order: seq<int>, ghost due: set<int>)
      requires Valid() && th.Valid() && MayAcquire(th.Held(), Lock.Server) && forall fd :: fd in order ==> fd in due
      modifies this`sockets, this`tmp, this`fds, this`hist, mgr`keys, th
      ensures Valid() && th.Valid() && th.Held() == old(th.Held())
      ensures State() == CloseEach(old(State()), order, due)
    {
      var left := order;
      while left != []
        invariant Valid() && th.Valid() && th.Held() == old(th.Held())
        invariant forall fd :: fd in left ==> fd in due
        invariant CloseEach(old(State()), order, due) == CloseEach(State(), left, due)
        decreases |left|
      {
        if left[0] in sockets {
          CloseClient(th, left[0]);
        }
        left := left[1..];
      }
    }

    /** order: the connections found silent for too long, as the table lists them. */
    method DoKeepaliveTimeout(th: Thread, now: int) returns (order: seq<int>)
      requires Valid() && th.Valid() && MayAcquire(th.Held(), Lock.Server)
      modifies this`sockets, this`tmp, this`fds, this`hist, mgr`keys, th
      ensures Valid() && th.Valid() && th.Held() == old(th.Held())
      ensures forall fd :: fd in order <==> fd in Silent(old(State()), Cfg(), now)
      ensures State() == CloseEach(old(State()), order, Silent(old(State()), Cfg(), now))
    {
      order := ListSilent(now);
      CloseListed(th, order, Silent(State(), Cfg(), now));
    }

    method ListSilent(now: int) returns (order: seq<int>)
      ensures forall fd :: fd in order <==> fd in sockets && sockets[fd].refresh + timeout < now
    {
      order := [];
      var todo := sockets.Keys;
      while todo != {}
        invariant forall fd :: fd in todo ==> fd in sockets
        invariant forall fd :: fd in order <==> fd in sockets && fd !in todo && sockets[fd].refresh + timeout < now
        decreases |todo|
      {
        var fd := Pick(todo);
        todo := todo - {fd};
        if sockets[fd].refresh + timeout < now {
          order := order + [fd];
        }
      }
    }

    method DeleteListed(dels: seq<int>)
      modifies mgr`back
      ensures mgr.back == old(mgr.back) - (set fd | fd in dels && fd >= 0)
    {
      for i := 0 to |dels|
        invariant mgr.back == old(mgr.back) - (set fd | fd in dels[..i] && fd >= 0)
      {
        assert dels[..i + 1] == dels[..i] + [dels[i]];
        DeleteSendMsgFromSendMap(dels[i]);
      }
      assert dels[..|dels|] == dels;
    }

    /** The pass over the back map after a switch: a list whose connection is gone
        is deleted, and so is one that epoll refuses to watch, with its connection.
        order: the connections closed, as the map lists them. */
    method ScanSendMap(th: Thread, refused: set<int>) returns (order: seq<int>)
      requires Valid() && th.Valid() && MayAcquire(th.Held(), Lock.Server)
      modifies this`sockets, this`tmp, this`fds, this`hist, mgr`keys, mgr`back, th
      ensures Valid() && th.Valid() && th.Held() == old(th.Held())
      ensures forall fd :: fd in order <==> fd in refused && fd in old(mgr.back) && fd in old(sockets)
      ensures State() == ScanStep(old(State()), order)
    {
      ghost var s := State();
      var dels;
      order, dels := ListUnwatched(refused);
      DeletedIsTrimmed(s, order, dels);
      CloseEachCommutes(s, Trim(s, order).out, order, Refused(s, order));
      CloseListed(th, order, Refused(s, order));
      DeleteListed(dels);
    }

    method ListUnwatched(refused: set<int>) returns (order: seq<int>, dels: seq<int>)
      requires Valid()
      ensures forall fd :: fd in order <==> fd in refused && fd in mgr.back && fd in sockets
      ensures forall fd :: fd in dels <==> fd in mgr.back && (fd !in sockets || fd in refused)
    {
      order, dels := [], [];
      var todo := mgr.back.Keys;
      while todo != {}
        invariant forall fd :: fd in todo ==> fd in mgr.back
        invariant forall fd :: fd in order <==> fd in refused && fd in mgr.back && fd in sockets && fd !in todo
        invariant forall fd :: fd in dels <==> fd in mgr.back && (fd !in sockets || fd in refused) && fd !in todo
        decreases |todo|
      {
        var fd := Pick(todo);
        todo := todo - {fd};
        if fd !in sockets {
          dels := dels + [fd];
        } else if fd in refused {
          dels, order := dels + [fd], order + [fd];
        }
      }
    }

    method SwitchMaps(th: Thread)
      requires Valid() && th.Valid() && MayAcquire(th.Held(), Lock.SendMap)
      modifies this`hist, mgr`front, mgr`back, th
      ensures Valid() && th.Valid() && th.Held() == old(th.Held())
      ensures State() == SwitchStep(old(State()), Cfg())
    {
      hist := hist.(spoiled := hist.spoiled + Spoils(State(), Cfg()));
      var freed := mgr.SwitchSendMap(th);
    }

    // ----- One round of doEpollEvent --------------------------------------

    method HandleReady(th: Thread, r: Ready, now: int)
      requires Valid() && th.Valid() && th.Held() == {}
      modifies this`index, this`issued, this`sockets, this`tmp, this`fds, this`hist, recvBuf, mgr`keys, mgr`back, th
      ensures Valid() && th.Valid() && th.Held() == {}
      ensures Cfg().Ok() && Sound(old(State())) && State() == ApplyAll(old(State()), Cfg(), ReadySteps(r, now))
      ensures match r
        case Listening(accepts) => State() == AcceptAll(old(State()), Cfg(), accepts)
        case In(fd, gen, recvs) => State() == ReadStep(old(State()), Cfg(), fd, gen, recvs, now)
        case Out(fd, sends, modOk) => State() == WriteStep(old(State()), fd, sends, modOk)
        case Broken(fd) => State() == CloseFd(old(State()), fd)
    {
      ghost var s := State();
      match r {
        case Listening(accepts) =>
          AcceptAllIsSteps(s, Cfg(), accepts);
          DoAccept(accepts);
        case In(fd, gen, recvs) =>
          ApplyAllOne(s, Cfg(), Readable(fd, gen, recvs, now));
          DoRecvMessage(th, fd, gen, recvs, now);
        case Out(fd, sends, modOk) =>
          ApplyAllOne(s, Cfg(), Writable(fd, sends, modOk));
          OnWritable(th, fd, sends, modOk);
        case Broken(fd) =>
          ApplyAllOne(s, Cfg(), PollError(fd));
          CloseClient(th, fd);
      }
    }

    method HandleAll(th: Thread, ready: seq<Ready>, now: int) returns (ghost steps: seq<Step>)
      requires Valid() && th.Valid() && th.Held() == {}
      modifies this`index, this`issued, this`sockets, this`tmp, this`fds, this`hist, recvBuf, mgr`keys, mgr`back, th
      ensures Valid() && th.Valid() && th.Held() == {}
      ensures steps == AllReadySteps(ready, now)
      ensures Cfg().Ok() && Sound(old(State())) && State() == ApplyAll(old(State()), Cfg(), steps)
    {
      steps := [];
      for i := 0 to |ready|
        invariant Valid() && th.Valid() && th.Held() == {}
        invariant State() == ApplyAll(old(State()), Cfg(), steps) && steps == AllReadySteps(ready[..i], now)
      {
        assert ready[..i + 1][..i] == ready[..i];
        ApplyAllAppend(old(State()), Cfg(), steps, ReadySteps(ready[i], now));
        HandleReady(th, ready[i], now);
        steps := steps + ReadySteps(ready[i], now);
      }
      assert ready[..|ready|] == ready;
    }

    /** The notes of this round go to the workers. */
    method HandOut(th: Thread) returns (ghost steps: seq<Step>)
      requires Valid() && th.Valid() && th.Held() == {}
      modifies this`tmp, this`hist, mgr.recvQueue, th
      ensures Valid() && th.Valid() && th.Held() == {} && steps == [Flush]
      ensures Cfg().Ok() && Sound(old(State())) && State() == ApplyAll(old(State()), Cfg(), steps)
    {
      ApplyAllOne(State(), Cfg(), Flush);
      FlushNotes(th);
      steps := [Flush];
    }

    /** What other threads asked for is done. */
    method ServeEvents(th: Thread, adds: seq<AddReply>) returns (ghost steps: seq<Step>)
      requires Valid() && th.Valid() && th.Held() == {}
      requires TypesOk(mgr.eventQueue.data) && |adds| == |mgr.eventQueue.data|
      modifies this`index, this`issued, this`sockets, this`tmp, this`fds, this`hist, mgr`keys, mgr.eventQueue, th
      ensures Valid() && th.Valid() && th.Held() == {} && steps == EventSteps(adds)
      ensures Cfg().Ok() && Sound(old(State())) && State() == ApplyAll(old(State()), Cfg(), steps)
    {
      EventAllIsSteps(State(), Cfg(), adds);
      DoSystemEvent(th, adds);
      steps := EventSteps(adds);
    }

    /** The maps are switched. */
    method TakeMessages(th: Thread) returns (ghost steps: seq<Step>)
      requires Valid() && th.Valid() && th.Held() == {}
      modifies this`hist, mgr`front, mgr`back, th
      ensures Valid() && th.Valid() && th.Held() == {} && steps == [Step.SwitchMaps]
      ensures Cfg().Ok() && Sound(old(State())) && State() == ApplyAll(old(State()), Cfg(), steps)
    {
      ApplyAllOne(State(), Cfg(), Step.SwitchMaps);
      SwitchMaps(th);
      steps := [Step.SwitchMaps];
    }

    /** And scanned. */
    method WatchWriters(th: Thread, refused: set<int>) returns (ghost steps: seq<Step>, ghost order: seq<int>)
      requires Valid() && th.Valid() && th.Held() == {}
      modifies this`sockets, this`tmp, this`fds, this`hist, mgr`keys, mgr`back, th
      ensures Valid() && th.Valid() && th.Held() == {} && steps == [Scan(order)]
      ensures forall fd :: fd in order <==> fd in refused && fd in old(State()).out.back && fd in old(State()).table
      ensures Cfg().Ok() && Sound(old(State())) && State() == ApplyAll(old(State()), Cfg(), steps)
    {
      ghost var s := State();
      order := ScanSendMap(th, refused);
      ApplyAllOne(s, Cfg(), Scan(order));
      steps := [Scan(order)];
    }

    /** When it is time, silent connections are closed. */
    method DropSilent(th: Thread, due: bool, now: int) returns (ghost steps: seq<Step>, ghost order: seq<int>)
      requires Valid() && th.Valid() && th.Held() == {}
      modifies this`sockets, this`tmp, this`fds, this`hist, mgr`keys, th
      ensures Valid() && th.Valid() && th.Held() == {} && steps == if due then [Expire(order, now)] else []
      ensures due ==> forall fd :: fd in order <==> fd in Silent(old(State()), Cfg(), now)
      ensures Cfg().Ok() && Sound(old(State())) && State() == ApplyAll(old(State()), Cfg(), steps)
    {
      steps, order := [], [];
      if due {
        ghost var s := State();
        order := DoKeepaliveTimeout(th, now);
        ApplyAllOne(s, Cfg(), Expire(order, now));
        steps := [Expire(order, now)];
      }
    }

    /** And the servers are pinged. */
    method PingServers(th: Thread, due: bool) returns (ghost steps: seq<Step>)
      requires Valid() && th.Valid() && th.Held() == {}
      modifies mgr`front, mgr`accepted, th
      ensures Valid() && th.Valid() && th.Held() == {}
      ensures steps == if due then PingSteps(mgr.keys, ALL_SERVERS) else []
      ensures Cfg().Ok() && Sound(old(State())) && State() == ApplyAll(old(State()), Cfg(), steps)
    {
      steps := [];
      if due {
        ghost var s := State();
        PingsAreSteps(s, Cfg(), ALL_SERVERS);
        mgr.SendKeepaliveMsgToAllServer(th, host);
        assert mgr.Out() == Pinged(OutboxOf(s), mgr.maxSend, s.keys, ALL_SERVERS);
        steps := PingSteps(s.keys, ALL_SERVERS);
      }
    }

    /** One round of the event loop is this run of steps of the state machine, and
        ends with no lock held. scanned and silent: the connections that epoll
        refused to watch and those silent for too long. */
    method Round(th: Thread, ready: seq<Ready>, adds: seq<AddReply>, refused: set<int>, due: bool, ping: bool, now: int)
      returns (ghost steps: seq<Step>, ghost scanned: seq<int>, ghost silent: seq<int>)
      requires Valid() && th.Valid() && th.Held() == {}
      requires TypesOk(mgr.eventQueue.data) && |adds| == |mgr.eventQueue.data|
      modifies this`index, this`issued, this`sockets, this`tmp, this`fds, this`hist, recvBuf,
               mgr`keys, mgr`front, mgr`back, mgr`accepted, mgr.recvQueue, mgr.eventQueue, th
      ensures Valid() && th.Valid() && th.Held() == {}
      ensures Cfg().Ok() && Sound(old(State())) && State() == ApplyAll(old(State()), Cfg(), steps)
      ensures steps == UntilSwitch(ready, adds, now) + [Scan(scanned)] + (if due then [Expire(silent, now)] else [])
                       + (if ping then PingSteps(mgr.keys, ALL_SERVERS) else [])
      ensures var t := ApplyAll(old(State()), Cfg(), UntilSwitch(ready, adds, now));
        forall fd :: fd in scanned <==> fd in refused && fd in t.out.back && fd in t.table
      ensures var t := ApplyAll(old(State()), Cfg(), UntilSwitch(ready, adds, now) + [Scan(scanned)]);
        due ==> forall fd :: fd in silent <==> fd in Silent(t, Cfg(), now)
    {
      ghost var s, cfg := State(), Cfg();
      steps := FirstPhases(th, ready, adds, now);
      ghost var more;
      more, scanned := WatchWriters(th, refused);
      steps := Joined(s, cfg, steps, more);
      more, silent := DropSilent(th, due, now);
      steps := Joined(s, cfg, steps, more);
      more := PingServers(th, ping);
      steps := Joined(s, cfg, steps, more);
    }

    /** Up to the switch of the send maps. */
    method FirstPhases(th: Thread, ready: seq<Ready>, adds: seq<AddReply>, now: int) returns (ghost steps: seq<Step>)
      requires Valid() && th.Valid() && th.Held() == {}
      requires TypesOk(mgr.eventQueue.data) && |adds| == |mgr.eventQueue.data|
      modifies this`index, this`issued, this`sockets, this`tmp, this`fds, this`hist, recvBuf,
               mgr`keys, mgr`front, mgr`back, mgr.recvQueue, mgr.eventQueue, th
      ensures Valid() && th.Valid() && th.Held() == {} && steps == UntilSwitch(ready, adds, now)
      ensures Cfg().Ok() && Sound(old(State())) && State() == ApplyAll(old(State()), Cfg(), steps)
    {
      ghost var s, cfg := State(), Cfg();
      steps := HandleAll(th, ready, now);
      ghost var more := HandOut(th);
      steps := Joined(s, cfg, steps, more);
      more := ServeEvents(th, adds);
      steps := Joined(s, cfg, steps, more);
      more := TakeMessages(th);
      steps := Joined(s, cfg, steps, more);
    }
  }
}
