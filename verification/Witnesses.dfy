/** Lawful runs in which the code does what it should not: late requests and
    events, the stale entry, keys left behind, a message received twice. */
module Witnesses {
  import opened Bytes
  import opened Framing
  import opened Transfer
  import opened Engine
  import opened Runs
  import opened Owners
  import opened Keys
  import opened Examples

  // ----- Descriptors ------------------------------------------------------

  /** A client on descriptor 5 comes and goes; its worker then asks for it to be closed. */
  lemma LateClose(t: nat, u: nat) returns (steps: seq<Step>)
    requires t in SERVER_TYPES && u in SERVER_TYPES
    ensures Reaches(EXAMPLE, steps, Nothing(t, u).(events := [CloseClient(5, 2)], issued := 2))
  {
    Start(EXAMPLE, t, u);
    var v := Nothing(t, u);
    steps := Arrive(EXAMPLE, [], v, 5);
    assert Gone(Arrived(v, 5), 5) == v.(issued := 2);
    steps := Leave(EXAMPLE, steps, Arrived(v, 5), 5);
    steps := Ask(EXAMPLE, steps, v.(issued := 2), 5, 2);
  }

  /** closeClient is handed a stamp and does not look at it: the late request for
      generation 2 closes generation 3, which has the descriptor by then. */
  lemma LateCloseHitsNewer() returns (steps: seq<Step>)
    ensures var v := Nothing(2, 3).(issued := 3);
      && Reaches(EXAMPLE, steps,
           v.(conns := map[5 := Seen(3, CLIENT_TYPE)], events := [CloseClient(5, 2)], open := {5}))
      && Reaches(EXAMPLE, steps + [SystemEvent(true, 0)], v)
  {
    steps := LateClose(2, 3);
    var v := Nothing(2, 3).(events := [CloseClient(5, 2)], issued := 2);
    steps := Arrive(EXAMPLE, steps, v, 5);
    var w := v.(conns := map[5 := Seen(3, CLIENT_TYPE)], open := {5}, issued := 3);
    assert Arrived(v, 5) == w;
    var more := Obey(EXAMPLE, steps, w);
    assert Gone(w.(events := []), 5) == Nothing(2, 3).(issued := 3);
  }

  /** The late request closes a connector's descriptor 5, and a client is given 5. */
  lemma SharedDescriptor() returns (steps: seq<Step>)
    ensures Reaches(EXAMPLE, steps,
      View(map[5 := Seen(3, CLIENT_TYPE)], [], {5}, map[0 := Dial(5, 2)], 3, map[2 := -1, 3 := -1]))
  {
    steps := LateClose(2, 3);
    var v := Nothing(2, 3).(events := [CloseClient(5, 2)], issued := 2);
    steps := Connect(EXAMPLE, steps, v, 0, 5, 2);
    var w := v.(open := {5}, connecting := map[0 := Dial(5, 2)]);
    assert v.open + {5} == {5};
    steps := Obey(EXAMPLE, steps, w);
    var x := w.(events := [], open := {});
    assert Gone(w.(events := []), 5) == x;
    steps := Arrive(EXAMPLE, steps, x, 5);
    assert Arrived(x, 5) == x.(conns := map[5 := Seen(3, CLIENT_TYPE)], open := {5}, issued := 3);
  }

  /** The stale entry does occur: the connector's handing over of its own 5, which
      the event loop cannot add, then closes the client's, without touching the
      table; the next client on 5 finds the old entry, and generation 3 never
      hears of its end. */
  lemma StaleEntryOccurs() returns (steps: seq<Step>, step: Step)
    ensures Lawful({}, EXAMPLE, steps + [step]) && Replaces(Run({}, EXAMPLE, steps), EXAMPLE, step)
  {
    steps := SharedDescriptor();
    var y := View(map[5 := Seen(3, CLIENT_TYPE)], [], {5}, map[0 := Dial(5, 2)], 3, map[2 := -1, 3 := -1]);
    steps := Deliver(EXAMPLE, steps, y, 0);
    var z := HandedOver(y, 0);
    assert z.events[0] == AddClient(5, 2);
    steps := Reject(EXAMPLE, steps, z);
    step := FindStale(steps, Rejected(z), 5);
  }

  lemma FindStale(steps: seq<Step>, v: View, fd: int) returns (step: Step)
    requires Reaches(EXAMPLE, steps, v) && fd >= 0 && fd in v.conns && fd !in v.open && |v.conns.Keys| < 10
    ensures Lawful({}, EXAMPLE, steps + [step]) && Replaces(Run({}, EXAMPLE, steps), EXAMPLE, step)
  {
    step := Accept(fd, true, true, 0);
    OneMoreStep({}, EXAMPLE, steps, step);
    assert |Run({}, EXAMPLE, steps).table| == |Run({}, EXAMPLE, steps).table.Keys|;
  }

  /** A read event comes late: while it waits for its turn, a connector gives up
      the number it shares with generation 3, and a client is given it as
      generation 4, which the event then closes. */
  lemma LateReadHitsNewer() returns (steps: seq<Step>)
    ensures var v := Nothing(2, 3).(issued := 4);
      && Reaches(EXAMPLE, steps, v.(conns := map[5 := Seen(4, CLIENT_TYPE)], open := {5}))
      && Reaches(EXAMPLE, steps + [Readable(5, 3, [], 0)], v)
  {
    steps := SharedDescriptor();
    var y := View(map[5 := Seen(3, CLIENT_TYPE)], [], {5}, map[0 := Dial(5, 2)], 3, map[2 := -1, 3 := -1]);
    var z, w := y.(open := {}, connecting := map[]), Nothing(2, 3).(issued := 4);
    var x := w.(conns := map[5 := Seen(4, CLIENT_TYPE)], open := {5});
    FourthOnFive(y, z, x, w);
    steps := GiveUp(EXAMPLE, steps, y, 0);
    steps := Arrive(EXAMPLE, steps, z, 5);
    ReadLate(EXAMPLE, steps, x, 5, 3);
  }

  lemma FourthOnFive(y: View, z: View, x: View, w: View)
    requires y == View(map[5 := Seen(3, CLIENT_TYPE)], [], {5}, map[0 := Dial(5, 2)], 3, map[2 := -1, 3 := -1])
    requires z == y.(open := {}, connecting := map[]) && w == Nothing(2, 3).(issued := 4)
    requires x == w.(conns := map[5 := Seen(4, CLIENT_TYPE)], open := {5})
    ensures GivenUp(y, 0) == z && Arrived(z, 5) == x && Gone(x, 5) == w && |z.conns.Keys| == 1
  {
    assert z.conns.Keys == {5};
  }

  // ----- Keys -------------------------------------------------------------

  lemma ViewIsWedged(s: State, v: View, t: nat)
    requires Shows(s, v) && t in v.keys && v.keys[t] >= 0
    requires forall fd :: fd in v.conns ==> v.conns[fd].ctype != t
    requires forall c :: c in v.connecting ==> v.connecting[c].ctype != t
    requires forall i :: 0 <= i < |v.events| ==> !BringsType(v.events[i], t)
    ensures Wedged(s, t)
  {}

  /** Two connectors in turn get descriptor 5: the second after the late request
      closed the first one's, whose handing over is still queued. */
  lemma TwoOnFive() returns (steps: seq<Step>)
    ensures Reaches(EXAMPLE, steps,
      View(map[], [AddClient(5, 3), AddClient(5, 2)], {5}, map[], 2, map[2 := 5, 3 := 5]))
  {
    var y := View(map[], [AddClient(5, 3)], {}, map[], 2, map[2 := -1, 3 := 5]);
    var z := y.(open := {5}, connecting := map[1 := Dial(5, 2)]);
    steps := FirstOnFive(y);
    assert y.open + {5} == {5} && y.connecting[1 := Dial(5, 2)] == z.connecting;
    SecondHandsOver(z);
    steps := Connect(EXAMPLE, steps, y, 1, 5, 2);
    steps := Deliver(EXAMPLE, steps, z, 1);
  }

  lemma SecondHandsOver(z: View)
    requires z == View(map[], [AddClient(5, 3)], {5}, map[1 := Dial(5, 2)], 2, map[2 := -1, 3 := 5])
    ensures HandedOver(z, 1) == View(map[], [AddClient(5, 3), AddClient(5, 2)], {5}, map[], 2, map[2 := 5, 3 := 5])
  {}

  lemma FirstOnFive(y: View) returns (steps: seq<Step>)
    requires y == View(map[], [AddClient(5, 3)], {}, map[], 2, map[2 := -1, 3 := 5])
    ensures Reaches(EXAMPLE, steps, y)
  {
    var v := Nothing(2, 3).(events := [CloseClient(5, 2)], issued := 2);
    var w := v.(open := {5}, connecting := map[0 := Dial(5, 3)]);
    var x := v.(events := [CloseClient(5, 2), AddClient(5, 3)], open := {5}, keys := map[2 := -1, 3 := 5]);
    steps := LateClose(2, 3);
    assert v.open + {5} == {5} && v.connecting[0 := Dial(5, 3)] == w.connecting;
    FirstHandsOver(v, w, x, y);
    steps := Connect(EXAMPLE, steps, v, 0, 5, 3);
    steps := Deliver(EXAMPLE, steps, w, 0);
    steps := Obey(EXAMPLE, steps, x);
  }

  lemma FirstHandsOver(v: View, w: View, x: View, y: View)
    requires v == Nothing(2, 3).(events := [CloseClient(5, 2)], issued := 2)
    requires w == v.(open := {5}, connecting := map[0 := Dial(5, 3)])
    requires x == v.(events := [CloseClient(5, 2), AddClient(5, 3)], open := {5}, keys := map[2 := -1, 3 := 5])
    requires y == View(map[], [AddClient(5, 3)], {}, map[], 2, map[2 := -1, 3 := 5])
    ensures HandedOver(w, 0) == x && Gone(x.(events := x.events[1..]), 5) == y
  {}

  /** The stale entry can be a server's: the first connection is added, refusing the
      second closes their common descriptor, and the client that gets it next
      throws the server's entry away and leaves its key. */
  lemma StaleEntryWedges() returns (steps: seq<Step>, step: Step)
    ensures Lawful({}, EXAMPLE, steps + [step]) && step.Accept?
    ensures !Wedged(Run({}, EXAMPLE, steps), 3) && Wedged(Run({}, EXAMPLE, steps + [step]), 3)
  {
    var v := View(map[], [AddClient(5, 3), AddClient(5, 2)], {5}, map[], 2, map[2 := 5, 3 := 5]);
    var w := View(map[5 := Seen(3, 3)], [AddClient(5, 2)], {5}, map[], 3, map[2 := 5, 3 := 5]);
    var x := w.(events := [], open := {}, issued := 4);
    AddedThenRefused(v, w, x);
    steps := TwoOnFive();
    steps := Add(EXAMPLE, steps, v);
    steps := Reject(EXAMPLE, steps, w);
    step := Accept(5, true, true, 0);
    var more := Arrive(EXAMPLE, steps, x, 5);
    ViewIsClear(Run({}, EXAMPLE, steps), x, 5, 3);
    ViewIsWedged(Run({}, EXAMPLE, more), Arrived(x, 5), 3);
  }

  lemma ViewIsClear(s: State, v: View, fd: int, t: nat)
    requires Shows(s, v) && fd in v.conns && v.conns[fd].ctype == t
    ensures !Wedged(s, t)
  {
    assert fd in s.table && s.table[fd].ctype == t;
  }

  lemma AddedThenRefused(v: View, w: View, x: View)
    requires v == View(map[], [AddClient(5, 3), AddClient(5, 2)], {5}, map[], 2, map[2 := 5, 3 := 5])
    requires w == View(map[5 := Seen(3, 3)], [AddClient(5, 2)], {5}, map[], 3, map[2 := 5, 3 := 5])
    requires x == w.(events := [], open := {}, issued := 4)
    ensures Admitted(v) == w && Rejected(w) == x && |v.conns.Keys| == 0 && |x.conns.Keys| == 1
    ensures forall fd :: fd in Arrived(x, 5).conns ==> Arrived(x, 5).conns[fd].ctype == CLIENT_TYPE
  {
    assert v.conns.Keys == {} && x.conns.Keys == {5};
    assert v.events[1..] == w.events && w.events[1..] == [];
  }

  /** Two connectors for one server: the first one's connection is refused, which
      leaves the key to the second, and the second gives up. */
  lemma GiveUpWedges() returns (steps: seq<Step>, step: Step)
    ensures Lawful({}, EXAMPLE, steps + [step]) && step.ConnectorGiveUp?
    ensures !Wedged(Run({}, EXAMPLE, steps), 2) && Wedged(Run({}, EXAMPLE, steps + [step]), 2)
  {
    var x := Nothing(2, 3).(open := {5, 6}, connecting := map[0 := Dial(5, 2), 1 := Dial(6, 2)]);
    var y := x.(events := [AddClient(5, 2)], connecting := map[1 := Dial(6, 2)], keys := map[2 := 5, 3 := -1]);
    var z := y.(events := [], open := {6}, issued := 2);
    FirstRefused(x, y, z);
    steps := TwoDialling();
    steps := Deliver(EXAMPLE, steps, x, 0);
    steps := Reject(EXAMPLE, steps, y);
    step := ConnectorGiveUp(1);
    var more := GiveUp(EXAMPLE, steps, z, 1);
    ViewDials(Run({}, EXAMPLE, steps), z, 1, 2);
    ViewIsWedged(Run({}, EXAMPLE, more), GivenUp(z, 1), 2);
  }

  lemma FirstRefused(x: View, y: View, z: View)
    requires x == Nothing(2, 3).(open := {5, 6}, connecting := map[0 := Dial(5, 2), 1 := Dial(6, 2)])
    requires y == x.(events := [AddClient(5, 2)], connecting := map[1 := Dial(6, 2)], keys := map[2 := 5, 3 := -1])
    requires z == y.(events := [], open := {6}, issued := 2)
    ensures HandedOver(x, 0) == y && Rejected(y) == z && GivenUp(z, 1).connecting == map[]
  {}

  lemma TwoDialling() returns (steps: seq<Step>)
    ensures Reaches(EXAMPLE, steps, Nothing(2, 3).(open := {5, 6}, connecting := map[0 := Dial(5, 2), 1 := Dial(6, 2)]))
  {
    var v := Nothing(2, 3);
    var w := v.(open := {5}, connecting := map[0 := Dial(5, 2)]);
    Start(EXAMPLE, 2, 3);
    assert v.open + {5} == {5} && w.open + {6} == {5, 6};
    assert v.connecting[0 := Dial(5, 2)] == w.connecting;
    steps := Connect(EXAMPLE, [], v, 0, 5, 2);
    steps := Connect(EXAMPLE, steps, w, 1, 6, 2);
  }

  /** n requests to close the connection of generation 2 on descriptor 5. */
  function Requests(n: nat): seq<Event> {
    seq(n, _ => CloseClient(5, 2))
  }

  lemma {:induction false} FillQueue(cfg: Config, t: nat, n: nat) returns (steps: seq<Step>)
    requires cfg.Ok() && t in SERVER_TYPES && n <= cfg.maxEvents
    ensures Reaches(cfg, steps, Nothing(t, t).(events := Requests(n)))
  {
    if n == 0 {
      Start(cfg, t, t);
      steps := [];
    } else {
      steps := FillQueue(cfg, t, n - 1);
      steps := Ask(cfg, steps, Nothing(t, t).(events := Requests(n - 1)), 5, 2);
      assert Requests(n - 1) + [CloseClient(5, 2)] == Requests(n);
    }
  }

  /** Whatever the capacity of the event queue: its requests fill it while a
      connector connects, and the connector leaves its key. */
  lemma FullQueueWedges(cfg: Config, fd: int, t: nat) returns (steps: seq<Step>, step: Step)
    requires cfg.Ok() && t in SERVER_TYPES && fd >= 0
    ensures Lawful({}, cfg, steps + [step]) && step.ConnectorPost?
    ensures !Wedged(Run({}, cfg, steps), t) && Wedged(Run({}, cfg, steps + [step]), t)
  {
    var v := Nothing(t, t).(events := Requests(cfg.maxEvents));
    var w := v.(open := {fd}, connecting := map[0 := Dial(fd, t)]);
    ConnectedWithFullQueue(v, w, fd, t);
    steps := FillQueue(cfg, t, cfg.maxEvents);
    steps := Connect(cfg, steps, v, 0, fd, t);
    step := ConnectorPost(0, 0);
    var more := Deliver(cfg, steps, w, 0);
    ViewDials(Run({}, cfg, steps), w, 0, t);
    ViewIsWedged(Run({}, cfg, more), HandedBack(w, 0), t);
  }

  lemma ConnectedWithFullQueue(v: View, w: View, fd: int, t: nat)
    requires v.open == {} && v.connecting == map[] && v.keys == map[t := -1] && v.conns == map[]
    requires w == v.(open := {fd}, connecting := map[0 := Dial(fd, t)])
    ensures v.open + {fd} == w.open && v.connecting[0 := Dial(fd, t)] == w.connecting
    ensures var x := HandedBack(w, 0);
      x.conns == map[] && x.connecting == map[] && x.events == v.events && x.keys == map[t := fd]
  {}

  lemma ViewDials(s: State, v: View, c: nat, t: nat)
    requires Shows(s, v) && c in v.connecting && v.connecting[c].ctype == t
    ensures !Wedged(s, t)
  {
    assert c in s.fds.connecting;
  }

  // ----- Messages ---------------------------------------------------------

  /** The connection reads some more bytes. */
  lemma ReadMore(cfg: Config, steps: seq<Step>, v: View, fd: int, chunks: seq<seq<byte>>, bytes: seq<byte>)
      returns (more: seq<Step>)
    requires cfg.Ok() && Reaches(cfg, steps, v) && fd in v.conns && 0 < |bytes| <= cfg.recvRoom - MAX_SEND_SIZE
    requires v.conns[fd].gen in Run({}, cfg, steps).hist.received
    requires Run({}, cfg, steps).hist.received[v.conns[fd].gen] == chunks && ReceiveAllWritten(chunks + [bytes]).ok
    ensures Reaches(cfg, more, v) && v.conns[fd].gen in Run({}, cfg, more).hist.received
    ensures Run({}, cfg, more).hist.received[v.conns[fd].gen] == chunks + [bytes]
  {
    var s, script := Run({}, cfg, steps), [Got(bytes)];
    var g, part := v.conns[fd].gen, s.table[fd].part;
    var step := Readable(fd, g, script, 0);
    ReadsOverRuns({}, cfg, steps, g, fd);
    assert (chunks + [bytes])[..|chunks|] == chunks;
    OneGot(cfg.recvRoom - |part|, bytes);
    ReadLoopTurn(s, cfg, fd, script, 0, Received(1, bytes, []));
    var t := Absorb(s, fd, bytes, 0).0;
    assert Shows(t, v) && t.hist.received[g] == chunks + [bytes];
    Follow(cfg, steps, v, step, t, v);
    more := steps + [step];
    OneMoreStep({}, cfg, steps, step);
  }

  lemma OneGot(room: nat, bytes: seq<byte>)
    requires 0 < |bytes| < room
    ensures RecvAll(room, [Got(bytes)]) == Received(1, bytes, [])
  {
    assert RecvAll(room - |bytes|, []) == Received(1, [], []) && bytes[..|bytes|] == bytes && bytes + [] == bytes;
    assert [Got(bytes)][1..] == [];
  }

  /** The run behind WrittenRepeatsMessage: the peer sent two messages, and the
      first is queued for the workers twice, the second never. */
  lemma RepeatedMessage() returns (steps: seq<Step>)
    ensures Lawful({}, EXAMPLE, steps)
    ensures var s := Run({}, EXAMPLE, steps);
      && 2 in s.hist.received && Flatten(s.hist.received[2]) == FIRST + SECOND
      && Parse(FIRST + SECOND).packets == [FIRST, SECOND] && Packets(s.hist.log, 2) == [FIRST, FIRST]
  {
    Start(EXAMPLE, 2, 3);
    steps := Arrive(EXAMPLE, [], Nothing(2, 3), 5);
    var v := Arrived(Nothing(2, 3), 5);
    OnlyRead(steps);
    FirstReadIsFine();
    WrittenRepeatsMessage();
    steps := ReadMore(EXAMPLE, steps, v, 5, [], CUT[0]);
    assert [] + [CUT[0]] == [CUT[0]] && [CUT[0]] + [CUT[1]] == CUT;
    steps := ReadMore(EXAMPLE, steps, v, 5, [CUT[0]], CUT[1]);
    ReadsOverRuns({}, EXAMPLE, steps, 2, 5);
  }

  lemma OnlyRead(steps: seq<Step>)
    requires Lawful({}, EXAMPLE, []) && steps == [] + [Accept(5, true, true, 0)]
    ensures 2 in Run({}, EXAMPLE, steps).hist.received && Run({}, EXAMPLE, steps).hist.received[2] == []
  {
    OneMoreStep({}, EXAMPLE, [], Accept(5, true, true, 0));
  }

  lemma FirstReadIsFine()
    ensures ReceiveAllWritten([] + [CUT[0]]).ok
  {
    FirstRead();
    TwoReads(CUT[0], CUT[1]);
    assert [] + [CUT[0]] == [CUT[0]];
  }
}
