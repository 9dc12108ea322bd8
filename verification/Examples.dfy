/** Small lawful runs, followed through the part of the state that decides about
    descriptors and keys. */
module Examples {
  import opened Framing
  import opened Transfer
  import opened Engine
  import opened Runs
  import opened Owners

  const EXAMPLE := Config(10, 10, 10, 10, 2 * MAX_SEND_SIZE, 60)

  datatype Seen = Seen(gen: nat, ctype: nat)

  /** The table, the events, the kernel's view, and the descriptors of some keys. */
  datatype View = View(conns: map<int, Seen>, events: seq<Event>, open: set<int>, connecting: map<nat, Dial>,
    issued: nat, keys: map<nat, int>)

  ghost predicate Shows(s: State, v: View) {
    && s.table.Keys == v.conns.Keys
    && (forall fd :: fd in v.conns ==> s.table[fd].gen == v.conns[fd].gen && s.table[fd].ctype == v.conns[fd].ctype)
    && s.events == v.events && s.fds.open == v.open && s.fds.connecting == v.connecting && s.issued == v.issued
    && (forall t :: t in v.keys ==> t in SERVER_TYPES && t in s.keys && s.keys[t].fd == v.keys[t])
  }

  ghost predicate Reaches(cfg: Config, steps: seq<Step>, v: View)
    requires cfg.Ok()
  {
    Lawful({}, cfg, steps) && Shows(Run({}, cfg, steps), v)
  }

  /** Nothing there yet, and the keys of types t and u unset. */
  function Nothing(t: nat, u: nat): View {
    View(map[], [], {}, map[], 1, map[t := -1, u := -1])
  }

  lemma Start(cfg: Config, t: nat, u: nat)
    requires cfg.Ok() && t in SERVER_TYPES && u in SERVER_TYPES
    ensures Reaches(cfg, [], Nothing(t, u))
  {}

  lemma Follow(cfg: Config, steps: seq<Step>, v: View, step: Step, t: State, w: View)
    requires cfg.Ok() && Reaches(cfg, steps, v) && KernelOk(Run({}, cfg, steps), step)
    requires Apply(Run({}, cfg, steps), cfg, step) == t && Shows(t, w)
    ensures Reaches(cfg, steps + [step], w)
  {
    OneMoreStep({}, cfg, steps, step);
  }

  function SetSeen(keys: map<nat, int>, t: nat, fd: int): map<nat, int> {
    if t in keys then keys[t := fd] else keys
  }

  // ----- What the steps do to a view --------------------------------------

  function Arrived(v: View, fd: int): View {
    v.(conns := v.conns[fd := Seen(v.issued + 1, CLIENT_TYPE)], open := v.open + {fd}, issued := v.issued + 1)
  }

  function Gone(v: View, fd: int): View {
    v.(conns := v.conns - {fd}, open := v.open - {fd},
       keys := if fd in v.conns then SetSeen(v.keys, v.conns[fd].ctype, -1) else v.keys)
  }

  function HandedOver(v: View, c: nat): View
    requires c in v.connecting
  {
    var d := v.connecting[c];
    v.(events := v.events + [AddClient(d.fd, d.ctype)], connecting := v.connecting - {c},
       keys := SetSeen(v.keys, d.ctype, d.fd))
  }

  function HandedBack(v: View, c: nat): View
    requires c in v.connecting
  {
    var d := v.connecting[c];
    v.(open := v.open - {d.fd}, connecting := v.connecting - {c}, keys := SetSeen(v.keys, d.ctype, d.fd))
  }

  function GivenUp(v: View, c: nat): View
    requires c in v.connecting
  {
    v.(open := v.open - {v.connecting[c].fd}, connecting := v.connecting - {c})
  }

  function Welcomed(v: View): View
    requires v.events != [] && v.events[0].AddClient?
  {
    var e := v.events[0];
    v.(events := v.events[1..], issued := v.issued + 1, keys := SetSeen(v.keys, e.ctype, e.fd))
  }

  function Admitted(v: View): View
    requires v.events != [] && v.events[0].AddClient?
  {
    var w := Welcomed(v);
    w.(conns := w.conns[v.events[0].fd := Seen(w.issued, v.events[0].ctype)])
  }

  function Rejected(v: View): View
    requires v.events != [] && v.events[0].AddClient?
  {
    var w := Welcomed(v);
    w.(open := w.open - {v.events[0].fd})
  }

  // ----- Steps, one by one ------------------------------------------------

  lemma AnnounceShows(s: State, v: View, fd: int, ctype: nat)
    requires Shows(s, v)
    ensures Shows(Announce(s, fd, ctype), v.(issued := v.issued + 1))
  {}

  lemma InsertShows(t: State, v: View, fd: int, ctype: nat, now: int)
    requires Shows(t, v)
    ensures Shows(Insert(t, fd, ctype, now), v.(conns := v.conns[fd := Seen(v.issued, ctype)]))
  {
    InsertOwns(t, fd, ctype, now);
  }

  lemma CloseShows(s: State, v: View, fd: int)
    requires Shows(s, v) && fd >= 0
    ensures Shows(CloseFd(s, fd), Gone(v, fd))
  {}

  /** accept() gives a client the descriptor fd. */
  lemma Arrive(cfg: Config, steps: seq<Step>, v: View, fd: int) returns (more: seq<Step>)
    requires cfg.Ok() && Reaches(cfg, steps, v) && fd >= 0 && fd !in v.open && |v.conns.Keys| < cfg.maxTable
    ensures more == steps + [Accept(fd, true, true, 0)] && Reaches(cfg, more, Arrived(v, fd))
  {
    var s, step := Run({}, cfg, steps), Accept(fd, true, true, 0);
    assert |s.table| == |s.table.Keys|;
    var t := Announce(s, fd, CLIENT_TYPE);
    AnnounceShows(s, v, fd, CLIENT_TYPE);
    InsertShows(OpenFd(t, fd), v.(open := v.open + {fd}, issued := v.issued + 1), fd, CLIENT_TYPE, 0);
    Follow(cfg, steps, v, step, Insert(OpenFd(t, fd), fd, CLIENT_TYPE, 0), Arrived(v, fd));
    more := steps + [step];
  }

  /** The peer closes its end. */
  lemma Leave(cfg: Config, steps: seq<Step>, v: View, fd: int) returns (more: seq<Step>)
    requires cfg.Ok() && Reaches(cfg, steps, v) && fd >= 0 && fd in v.conns
    ensures Reaches(cfg, more, Gone(v, fd))
  {
    var s, script := Run({}, cfg, steps), [Got([])];
    var step := Readable(fd, v.conns[fd].gen, script, 0);
    var t := Absorb(s, fd, [], 0).0;
    assert RecvAll(cfg.recvRoom - |s.table[fd].part|, script) == Received(0, [], []);
    ReadLoopTurn(s, cfg, fd, script, 0, Received(0, [], []));
    assert Shows(t, v);
    CloseShows(t, v, fd);
    Follow(cfg, steps, v, step, CloseFd(t, fd), Gone(v, fd));
    more := steps + [step];
  }

  /** A read event for a generation that no longer has the descriptor. */
  lemma ReadLate(cfg: Config, steps: seq<Step>, v: View, fd: int, gen: nat)
    requires cfg.Ok() && Reaches(cfg, steps, v) && fd >= 0 && fd in v.conns && v.conns[fd].gen != gen
    ensures Reaches(cfg, steps + [Readable(fd, gen, [], 0)], Gone(v, fd))
  {
    var s := Run({}, cfg, steps);
    CloseShows(s, v, fd);
    Follow(cfg, steps, v, Readable(fd, gen, [], 0), CloseFd(s, fd), Gone(v, fd));
  }

  /** A worker asks for a connection to be closed. */
  lemma Ask(cfg: Config, steps: seq<Step>, v: View, fd: int, time: int) returns (more: seq<Step>)
    requires cfg.Ok() && Reaches(cfg, steps, v) && |v.events| < cfg.maxEvents
    ensures Reaches(cfg, more, v.(events := v.events + [CloseClient(fd, time)]))
  {
    var s := Run({}, cfg, steps);
    var t, w := PostStep(s, cfg, CloseClient(fd, time)), v.(events := v.events + [CloseClient(fd, time)]);
    Follow(cfg, steps, v, PostClose(fd, time), t, w);
    more := steps + [PostClose(fd, time)];
  }

  /** The event loop does as it was asked. */
  lemma Obey(cfg: Config, steps: seq<Step>, v: View) returns (more: seq<Step>)
    requires cfg.Ok() && Reaches(cfg, steps, v) && v.events != [] && v.events[0].CloseClient? && v.events[0].fd >= 0
    ensures more == steps + [SystemEvent(true, 0)]
    ensures Reaches(cfg, more, Gone(v.(events := v.events[1..]), v.events[0].fd))
  {
    var s, fd, w := Run({}, cfg, steps), v.events[0].fd, v.(events := v.events[1..]);
    var t := s.(events := s.events[1..]);
    CloseShows(t, w, fd);
    Follow(cfg, steps, v, SystemEvent(true, 0), CloseFd(t, fd), Gone(w, fd));
    more := steps + [SystemEvent(true, 0)];
  }

  /** Connector c gets a descriptor for a server of type t. */
  lemma Connect(cfg: Config, steps: seq<Step>, v: View, c: nat, fd: int, t: nat) returns (more: seq<Step>)
    requires cfg.Ok() && Reaches(cfg, steps, v) && t in v.keys && v.keys[t] < 0
    requires fd >= 0 && fd !in v.open && c !in v.connecting
    ensures Reaches(cfg, more, v.(open := v.open + {fd}, connecting := v.connecting[c := Dial(fd, t)]))
  {
    var w := v.(open := v.open + {fd}, connecting := v.connecting[c := Dial(fd, t)]);
    Follow(cfg, steps, v, ConnectorOpen(c, fd, t), OpenStep(Run({}, cfg, steps), c, fd, t), w);
    more := steps + [ConnectorOpen(c, fd, t)];
  }

  /** And hands it over, or closes it when the event queue is full. */
  lemma Deliver(cfg: Config, steps: seq<Step>, v: View, c: nat) returns (more: seq<Step>)
    requires cfg.Ok() && Reaches(cfg, steps, v) && c in v.connecting
    ensures more == steps + [ConnectorPost(c, 0)]
    ensures Reaches(cfg, more, if |v.events| < cfg.maxEvents then HandedOver(v, c) else HandedBack(v, c))
  {
    var t := ConnectedStep(Run({}, cfg, steps), cfg, c, 0);
    var w := if |v.events| < cfg.maxEvents then HandedOver(v, c) else HandedBack(v, c);
    Follow(cfg, steps, v, ConnectorPost(c, 0), t, w);
    more := steps + [ConnectorPost(c, 0)];
  }

  lemma GiveUp(cfg: Config, steps: seq<Step>, v: View, c: nat) returns (more: seq<Step>)
    requires cfg.Ok() && Reaches(cfg, steps, v) && c in v.connecting
    ensures more == steps + [ConnectorGiveUp(c)] && Reaches(cfg, more, GivenUp(v, c))
  {
    Follow(cfg, steps, v, ConnectorGiveUp(c), GiveUpStep(Run({}, cfg, steps), c), GivenUp(v, c));
    more := steps + [ConnectorGiveUp(c)];
  }

  lemma WelcomeShows(s: State, v: View)
    requires Shows(s, v) && v.events != [] && v.events[0].AddClient?
    ensures Shows(Welcome(s.(events := s.events[1..]), v.events[0].fd, v.events[0].ctype), Welcomed(v))
  {
    var e := v.events[0];
    AnnounceShows(s.(events := s.events[1..]), v.(events := v.events[1..]), e.fd, e.ctype);
  }

  /** The event loop adds the connection handed over. */
  lemma Add(cfg: Config, steps: seq<Step>, v: View) returns (more: seq<Step>)
    requires cfg.Ok() && Reaches(cfg, steps, v) && v.events != [] && v.events[0].AddClient?
    requires v.events[0].fd >= 0 && v.events[0].fd in v.open && |v.conns.Keys| < cfg.maxTable
    ensures Reaches(cfg, more, Admitted(v))
  {
    var s, e := Run({}, cfg, steps), v.events[0];
    var t := Welcome(s.(events := s.events[1..]), e.fd, e.ctype);
    assert |t.table| == |t.table.Keys|;
    WelcomeShows(s, v);
    InsertShows(t, Welcomed(v), e.fd, e.ctype, 0);
    Follow(cfg, steps, v, SystemEvent(true, 0), Insert(t, e.fd, e.ctype, 0), Admitted(v));
    more := steps + [SystemEvent(true, 0)];
  }

  /** Or fails to, and closes it. */
  lemma Reject(cfg: Config, steps: seq<Step>, v: View) returns (more: seq<Step>)
    requires cfg.Ok() && Reaches(cfg, steps, v) && v.events != [] && v.events[0].AddClient?
    ensures Reaches(cfg, more, Rejected(v))
  {
    var s, e := Run({}, cfg, steps), v.events[0];
    var t := Welcome(s.(events := s.events[1..]), e.fd, e.ctype);
    WelcomeShows(s, v);
    Follow(cfg, steps, v, SystemEvent(false, 0), FreeFd(t, e.fd), Rejected(v));
    more := steps + [SystemEvent(false, 0)];
  }
}
