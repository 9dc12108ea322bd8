/** The server as a state machine: the event loop's connection table, the
    queues and keys it shares with workers and connectors, and one function per
    step of any thread. Kernel results (bytes moved, descriptors returned, calls
    that fail, the clock) are arguments of the steps. */
module Engine {
  import opened Bytes
  import opened Framing
  import opened Codec
  import opened Transfer
  import opened SendPath

  const CLIENT_TYPE := 1

  /** MAINSVR_TYPE, DISSVR_TYPE, USERCENTERSVR_TYPE, LOGSVR_TYPE. */
  const SERVER_TYPES: set<nat> := {2, 3, 4, 6}

  // ----- Generation stamps ------------------------------------------------

  /** How many stamps getIndex gives out before it comes round. */
  const WINDOW := 0xFFFF_FFFE

  /** The stamp that the n-th call of getIndex returns. */
  function Stamp(n: nat): nat {
    if n == 0 then 0 else (n - 1) % WINDOW + 1
  }

  /** Two calls return the same stamp exactly when they are a multiple of
      2^32 - 2 apart, so any 2^32 - 2 consecutive stamps are distinct. */
  lemma StampsRepeatExactly(i: nat, j: nat)
    requires 1 <= i <= j
    ensures Stamp(i) == Stamp(j) <==> (j - i) % WINDOW == 0
    ensures 1 <= Stamp(i) <= WINDOW
    ensures i < j < i + WINDOW ==> Stamp(i) != Stamp(j)
  {
    var a, b, d := (i - 1) / 0xFFFF_FFFE, (j - 1) / 0xFFFF_FFFE, (j - i) / 0xFFFF_FFFE;
    assert i - 1 == a * 0xFFFF_FFFE + (i - 1) % 0xFFFF_FFFE;
    assert j - 1 == b * 0xFFFF_FFFE + (j - 1) % 0xFFFF_FFFE;
    assert j - i == d * 0xFFFF_FFFE + (j - i) % 0xFFFF_FFFE;
  }

  lemma StampIsSmall(n: nat)
    ensures Stamp(n) <= n && (n > 0 ==> Stamp(n) >= 1)
  {
    if n > 0 {
      assert n - 1 == (n - 1) / 0xFFFF_FFFE * 0xFFFF_FFFE + (n - 1) % 0xFFFF_FFFE;
    }
  }

  lemma StampAdvances(n: nat)
    ensures Stamp(n + 1) == if Stamp(n) + 1 == 0xFFFF_FFFF then 1 else Stamp(n) + 1
  {
    if n > 0 {
      var q, r := (n - 1) / WINDOW, (n - 1) % WINDOW;
      assert n - 1 == q * WINDOW + r;
      if r + 1 == WINDOW {
        assert n == (q + 1) * WINDOW;
      } else {
        assert n == q * WINDOW + (r + 1);
      }
    }
  }

  // ----- State ------------------------------------------------------------

  /** Sizes fixed at start-up. recvRoom is m_recvbuflen. */
  datatype Config = Config(maxTable: nat, maxSend: nat, maxRecv: nat, maxEvents: nat, recvRoom: nat, timeout: int) {
    predicate Ok() {
      recvRoom >= 2 * MAX_SEND_SIZE
    }
  }

  /** startup's sizing of the receive buffer. */
  function RecvBufferSize(sendBuf: int, readBuf: int): (n: int)
    ensures n >= 2 * MAX_SEND_SIZE && n >= sendBuf + MAX_SEND_SIZE && n >= readBuf + MAX_SEND_SIZE
  {
    var largest := if sendBuf < readBuf then readBuf else sendBuf;
    (if largest < MAX_SEND_SIZE then MAX_SEND_SIZE else largest) + MAX_SEND_SIZE
  }

  /** SOCKET_SET; gen counts the getIndex call that stamped it and stands for the
      identity of its key, wire is what was sent on it. */
  datatype Conn = Conn(gen: nat, time: int, ctype: nat, part: seq<byte>, refresh: int, wire: seq<byte>)

  datatype Kind = Connected | Data | Disconnected

  /** A NET_DATA on its way to the workers, tagged with its generation and kind. */
  datatype Note = Note(gen: nat, kind: Kind, fd: int, time: int, ctype: nat, bytes: seq<byte>)

  /** NET_EVENT. */
  datatype Event = CloseClient(fd: int, time: int) | AddClient(fd: int, ctype: nat)

  /** The key a server connection is reached by; fd is -1 when there is none. */
  datatype Key = Key(gen: nat, fd: int, time: int)

  /** The two send maps. */
  datatype Outgoing = Outgoing(front: SendMap, back: SendMap)

  /** What a connector holds until it hands it over: a descriptor, and the type
      of server it is for. */
  datatype Dial = Dial(fd: int, ctype: nat)

  /** The kernel's side: descriptors in use, and what each busy connector holds. */
  datatype Descriptors = Descriptors(open: set<int>, connecting: map<nat, Dial>)

  /** What the code does not store: all notes ever made, those the workers took,
      how many the full queue refused, what each generation's reads brought, the
      messages accepted for sending, and the generations that lost messages or
      their order to an overflowing switch. */
  datatype History = History(
    log: seq<Note>, popped: seq<Note>, dropped: nat, received: map<nat, seq<seq<byte>>>, accepted: seq<Msg>,
    spoiled: set<nat>)

  /** issued counts the stamps given out. */
  datatype State = State(
    table: map<int, Conn>, tmp: seq<Note>, recvQ: seq<Note>, events: seq<Event>, out: Outgoing,
    keys: map<nat, Key>, issued: nat, fds: Descriptors, hist: History)

  /** The remnants fit their buffers. */
  predicate Sound(s: State) {
    forall fd :: fd in s.table ==> |s.table[fd].part| < MAX_SEND_SIZE
  }

  // ----- Pieces of steps --------------------------------------------------

  function Record(s: State, notes: seq<Note>): State {
    s.(tmp := s.tmp + notes, hist := s.hist.(log := s.hist.log + notes))
  }

  function OpenFd(s: State, fd: int): State {
    s.(fds := s.fds.(open := s.fds.open + {fd}))
  }

  function FreeFd(s: State, fd: int): State {
    s.(fds := s.fds.(open := s.fds.open - {fd}))
  }

  function Emit(s: State, n: Note): State {
    Record(s, [n])
  }

  /** setServerSocket: other types are ignored. */
  function SetKey(keys: map<nat, Key>, ctype: nat, k: Key): map<nat, Key> {
    if ctype in SERVER_TYPES then keys[ctype := k] else keys
  }

  function DataNotes(c: Conn, fd: int, packets: seq<seq<byte>>): (ns: seq<Note>)
    ensures |ns| == |packets|
    ensures forall i :: 0 <= i < |ns| ==> ns[i] == Note(c.gen, Data, fd, c.time, c.ctype, packets[i])
  {
    if packets == [] then []
    else [Note(c.gen, Data, fd, c.time, c.ctype, packets[0])] + DataNotes(c, fd, packets[1..])
  }

  /** closeClient: looks the connection up by descriptor only, and closes the
      descriptor whether or not it finds one. */
  function CloseFd(s: State, fd: int): (t: State)
    ensures Sound(s) ==> Sound(t)
  {
    if fd < 0 then s
    else if fd in s.table then
      var c := s.table[fd];
      Emit(FreeFd(s, fd).(table := s.table - {fd},
                         keys := if c.ctype > CLIENT_TYPE then SetKey(s.keys, c.ctype, Key(0, -1, 0)) else s.keys),
           Note(c.gen, Disconnected, fd, c.time, c.ctype, NoticeBytes(RS_DISCONNECTED, c.ctype)))
    else FreeFd(s, fd)
  }

  /** Closes, in the order given, those of the connections that are due. */
  function CloseEach(s: State, order: seq<int>, due: set<int>): (t: State)
    ensures Sound(s) ==> Sound(t)
    decreases |order|
  {
    if order == [] then s
    else CloseEach(if order[0] in due && order[0] in s.table then CloseFd(s, order[0]) else s, order[1..], due)
  }

  /** A stamp is taken and the connection announced, before it is in the table. */
  function Announce(s: State, fd: int, ctype: nat): State {
    var gen := s.issued + 1;
    Emit(s.(issued := gen), Note(gen, Connected, fd, Stamp(gen), ctype, NoticeBytes(RS_CONNECTED, ctype)))
  }

  predicate CanInsert(s: State, cfg: Config, fd: int, ctlOk: bool) {
    ctlOk && fd >= 0 && |s.table| < cfg.maxTable
  }

  /** addSocketToMap: an entry already there is thrown away without a word. */
  function Insert(s: State, fd: int, ctype: nat, now: int): State {
    s.(table := s.table[fd := Conn(s.issued, Stamp(s.issued), ctype, [], now, [])],
       hist := s.hist.(received := s.hist.received[s.issued := []]))
  }

  /** One successful recv_msg of some bytes: the parse and what it leaves. */
  function Absorb(s: State, fd: int, bytes: seq<byte>, now: int): (r: (State, bool))
    requires fd in s.table
    ensures fd in r.0.table && (|s.table[fd].part| < MAX_SEND_SIZE ==> |r.0.table[fd].part| < MAX_SEND_SIZE)
    ensures Sound(s) ==> Sound(r.0)
  {
    RemnantFitsAndFullBufferProgresses(s.table[fd].part + bytes);
    var c := s.table[fd];
    if bytes == [] then (s.(table := s.table[fd := c.(refresh := now)]), true)
    else
      var buf := c.part + bytes;
      var p := ParseWritten(buf);
      var notes := DataNotes(c, fd, p.packets);
      var before := if c.gen in s.hist.received then s.hist.received[c.gen] else [];
      (s.(table := s.table[fd := c.(part := p.rest, refresh := now)], tmp := s.tmp + notes,
          hist := s.hist.(log := s.hist.log + notes, received := s.hist.received[c.gen := before + [bytes]])),
       p.ok)
  }

  /** The loop of doRecvMessage. */
  function ReadLoop(s: State, cfg: Config, fd: int, script: seq<RecvReply>, now: int): (t: State)
    requires cfg.Ok() && fd in s.table && |s.table[fd].part| < MAX_SEND_SIZE
    ensures Sound(s) ==> Sound(t)
    decreases |script|
  {
    var r := RecvAll(cfg.recvRoom - |s.table[fd].part|, script);
    if r.code < 0 then CloseFd(s, fd)
    else
      var got := Absorb(s, fd, r.bytes, now);
      if r.code == 0 || !got.1 then CloseFd(got.0, fd)
      else if r.code == 1 then got.0
      else ReadLoop(got.0, cfg, fd, r.rest, now)
  }

  lemma ReadLoopTurn(s: State, cfg: Config, fd: int, script: seq<RecvReply>, now: int, r: Received)
    requires cfg.Ok() && fd in s.table && |s.table[fd].part| < MAX_SEND_SIZE
    requires r == RecvAll(cfg.recvRoom - |s.table[fd].part|, script)
    ensures r.code < 0 ==> ReadLoop(s, cfg, fd, script, now) == CloseFd(s, fd)
    ensures r.code >= 0 ==>
      var t, ok := Absorb(s, fd, r.bytes, now).0, Absorb(s, fd, r.bytes, now).1;
      fd in t.table && |t.table[fd].part| < MAX_SEND_SIZE &&
      ReadLoop(s, cfg, fd, script, now) ==
        if r.code == 0 || !ok then CloseFd(t, fd) else if r.code == 1 then t else ReadLoop(t, cfg, fd, r.rest, now)
  {}

  /** deleteSendMsgFromSendMap. */
  function DeleteList(m: SendMap, fd: int): SendMap {
    if fd < 0 then m else m - {fd}
  }

  /** doSendMessage: the new state and whether it returned -1. */
  function SendQueued(s: State, fd: int, script: seq<SendReply>): (State, bool) {
    if fd !in s.table then (s.(out := s.out.(back := DeleteList(s.out.back, fd))), false)
    else if fd !in s.out.back then (s, false)
    else if s.out.back[fd].Null? then (s.(out := s.out.(back := s.out.back - {fd})), false)
    else
      var c := s.table[fd];
      var d := Drain(s.out.back[fd].msgs, fd, c.time, script);
      (s.(table := s.table[fd := c.(wire := c.wire + d.wire)],
          out := s.out.(back := if d.rest == [] then s.out.back - {fd} else s.out.back[fd := List(d.rest)])),
       d.code < 0)
  }

  /** The fds whose lists the scan after the switch deletes for want of a connection. */
  function Unconnected(s: State): set<int> {
    set fd | fd in s.out.back && fd !in s.table && fd >= 0
  }

  /** And those it closes because epoll refuses to watch them for writing. */
  function Refused(s: State, refused: seq<int>): set<int> {
    set fd | fd in refused && fd in s.out.back && fd in s.table && fd >= 0
  }

  /** Connections that have been silent for too long. */
  function Silent(s: State, cfg: Config, now: int): set<int> {
    set fd | fd in s.table && s.table[fd].refresh + cfg.timeout < now
  }

  /** The generations whose lists the next switch overflows. */
  function Spoils(s: State, cfg: Config): set<nat> {
    set fd | fd in s.table && Overflows(s.out.front, s.out.back, cfg.maxSend, fd) :: s.table[fd].gen
  }

  // ----- Steps ------------------------------------------------------------

  datatype Step =
    | Accept(fd: int, setupOk: bool, ctlOk: bool, now: int)
    | Readable(fd: int, gen: nat, recvs: seq<RecvReply>, now: int)
    | Writable(fd: int, sends: seq<SendReply>, modOk: bool)
    | PollError(fd: int)
    | Flush
    | SystemEvent(ctlOk: bool, now: int)
    | SwitchMaps
    | Scan(refused: seq<int>)
    | Expire(order: seq<int>, now: int)
    | Enqueue(m: Msg)
    | PostClose(fd: int, time: int)
    | ConnectorOpen(c: nat, fd: int, ctype: nat)
    | ConnectorGiveUp(c: nat)
    | ConnectorPost(c: nat, now: int)
    | Pop

  function AcceptStep(s: State, cfg: Config, fd: int, setupOk: bool, ctlOk: bool, now: int): (t: State)
    ensures Sound(s) ==> Sound(t)
  {
    if fd < 0 || !setupOk then s
    else
      var t := Announce(s, fd, CLIENT_TYPE);
      if CanInsert(t, cfg, fd, ctlOk) then Insert(OpenFd(t, fd), fd, CLIENT_TYPE, now) else t
  }

  function ReadStep(s: State, cfg: Config, fd: int, gen: nat, script: seq<RecvReply>, now: int): (t: State)
    requires cfg.Ok() && Sound(s)
    ensures Sound(t)
  {
    if fd !in s.table || s.table[fd].gen != gen then CloseFd(s, fd) else ReadLoop(s, cfg, fd, script, now)
  }

  function WriteStep(s: State, fd: int, script: seq<SendReply>, modOk: bool): (t: State)
    ensures Sound(s) ==> Sound(t)
  {
    var sent := SendQueued(s, fd, script);
    if sent.1 || !modOk then CloseFd(sent.0, fd) else sent.0
  }

  function FlushStep(s: State, cfg: Config): State {
    var k := Min(|s.tmp|, if |s.recvQ| < cfg.maxRecv then cfg.maxRecv - |s.recvQ| else 0);
    s.(tmp := [], recvQ := s.recvQ + s.tmp[..k], hist := s.hist.(dropped := s.hist.dropped + |s.tmp| - k))
  }

  /** The first half of serving ADD_CLIENT: the stamp, the announcement, the key. */
  function Welcome(s: State, fd: int, ctype: nat): State {
    var u := Announce(s, fd, ctype);
    u.(keys := SetKey(u.keys, ctype, Key(u.issued, fd, Stamp(u.issued))))
  }

  /** And the second: the connection enters the table or is closed. */
  function Admit(s: State, cfg: Config, fd: int, ctype: nat, ctlOk: bool, now: int): (t: State)
    ensures Sound(s) ==> Sound(t)
  {
    if CanInsert(s, cfg, fd, ctlOk) then Insert(s, fd, ctype, now) else FreeFd(s, fd)
  }

  function EventStep(s: State, cfg: Config, ctlOk: bool, now: int): (t: State)
    ensures Sound(s) ==> Sound(t)
  {
    if s.events == [] then s
    else
      var t := s.(events := s.events[1..]);
      match s.events[0]
      case CloseClient(fd, _) => CloseFd(t, fd)
      case AddClient(fd, ctype) => Admit(Welcome(t, fd, ctype), cfg, fd, ctype, ctlOk, now)
  }

  function SwitchStep(s: State, cfg: Config): State {
    var maps := Switch(s.out.front, s.out.back, cfg.maxSend);
    s.(out := Outgoing(maps.0, maps.1), hist := s.hist.(spoiled := s.hist.spoiled + Spoils(s, cfg)))
  }

  function Trim(s: State, refused: seq<int>): State {
    s.(out := s.out.(back := s.out.back - Unconnected(s) - Refused(s, refused)))
  }

  /** The pass over the back map that follows a switch. */
  function ScanStep(s: State, refused: seq<int>): (t: State)
    ensures Sound(s) ==> Sound(t)
  {
    CloseEach(Trim(s, refused), refused, Refused(s, refused))
  }

  function EnqueueStep(s: State, cfg: Config, m: Msg): State {
    var added := AddMsg(s.out.front, cfg.maxSend, m);
    s.(out := s.out.(front := added.0),
       hist := s.hist.(accepted := if added.1 then s.hist.accepted + [m] else s.hist.accepted))
  }

  function PostStep(s: State, cfg: Config, e: Event): State {
    if |s.events| < cfg.maxEvents then s.(events := s.events + [e]) else s
  }

  /** createServerConnect up to the connected socket: a key that is set, or a
      type without a configured server, stops it. A connector makes one
      connection at a time. */
  function OpenStep(s: State, c: nat, fd: int, ctype: nat): State {
    if fd < 0 || c in s.fds.connecting || ctype !in s.keys || s.keys[ctype].fd >= 0 then s
    else s.(fds := Descriptors(s.fds.open + {fd}, s.fds.connecting[c := Dial(fd, ctype)]))
  }

  function GiveUpStep(s: State, c: nat): State {
    if c !in s.fds.connecting then s
    else s.(fds := Descriptors(s.fds.open - {s.fds.connecting[c].fd}, s.fds.connecting - {c}))
  }

  /** And from there on. The provisional stamp is the clock's; when the event
      queue is full the key is left as it was just set. */
  function ConnectedStep(s: State, cfg: Config, c: nat, now: int): State {
    if c !in s.fds.connecting then s
    else
      var fd, ctype := s.fds.connecting[c].fd, s.fds.connecting[c].ctype;
      var t := s.(fds := s.fds.(connecting := s.fds.connecting - {c}), keys := SetKey(s.keys, ctype, Key(0, fd, now)));
      if |s.events| < cfg.maxEvents then t.(events := s.events + [AddClient(fd, ctype)]) else FreeFd(t, fd)
  }

  function PopStep(s: State): State {
    if s.recvQ == [] then s else s.(recvQ := s.recvQ[1..], hist := s.hist.(popped := s.hist.popped + [s.recvQ[0]]))
  }

  function Apply(s: State, cfg: Config, step: Step): (t: State)
    requires cfg.Ok() && Sound(s)
    ensures Sound(t)
  {
    match step
    case Accept(fd, setupOk, ctlOk, now) => AcceptStep(s, cfg, fd, setupOk, ctlOk, now)
    case Readable(fd, gen, recvs, now) => ReadStep(s, cfg, fd, gen, recvs, now)
    case Writable(fd, sends, modOk) => WriteStep(s, fd, sends, modOk)
    case PollError(fd) => CloseFd(s, fd)
    case Flush => FlushStep(s, cfg)
    case SystemEvent(ctlOk, now) => EventStep(s, cfg, ctlOk, now)
    case SwitchMaps => SwitchStep(s, cfg)
    case Scan(refused) => ScanStep(s, refused)
    case Expire(order, now) => CloseEach(s, order, Silent(s, cfg, now))
    case Enqueue(m) => EnqueueStep(s, cfg, m)
    case PostClose(fd, time) => PostStep(s, cfg, CloseClient(fd, time))
    case ConnectorOpen(c, fd, ctype) => OpenStep(s, c, fd, ctype)
    case ConnectorGiveUp(c) => GiveUpStep(s, c)
    case ConnectorPost(c, now) => ConnectedStep(s, cfg, c, now)
    case Pop => PopStep(s)
  }

  /** The server just started: the listening socket took the first stamp. */
  function Initial(open: set<int>): State {
    State(map[], [], [], [], Outgoing(map[], map[]), map t | t in SERVER_TYPES :: Key(0, -1, 0), 1,
          Descriptors(open, map[]), History([], [], 0, map[], [], {}))
  }
}
