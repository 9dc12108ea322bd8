/** CGlobalMgr: the send maps, the server keys and the queues, each method with
    the locks it takes. */
module GlobalMgrs {
  import opened Bytes
  import opened Framing
  import opened Codec
  import opened SendPath
  import opened Engine
  import opened Runs
  import opened Locks
  import opened SysQueues

  /** Two locks taken one inside the other, or one alone. */
  function Around(l: Lock): seq<Op> {
    [Acquire(l), Release(l)]
  }

  function Nested(outer: Lock, inner: seq<Op>): seq<Op> {
    [Acquire(outer)] + inner + [Release(outer)]
  }

  lemma NestedOps(ops: seq<Op>, outer: Lock, inner: seq<Op>)
    ensures ops + [Acquire(outer)] + inner + [Release(outer)] == ops + Nested(outer, inner)
  {}

  /** The message createMsgToSendList makes, if any, for a connection key: the
      stream must fit the announced nlen, and the whole the largest packet. */
  function Packed(k: Key, m: Message, nlen: nat): Option<Msg> {
    if k.fd < 0 || |m.payload| > nlen || !m.Sendable() then None
    else Some(Msg(k.gen, k.fd, k.time, Encode(m)))
  }

  /** The front map after such a message, and whether it was taken. */
  function Posted(front: SendMap, limit: nat, p: Option<Msg>): (SendMap, bool) {
    if p.None? then (front, false) else AddMsg(front, limit, p.value)
  }

  /** What sendMsgToServer makes: nothing for another type or an unset key. */
  function ForServer(keys: map<nat, Key>, ntype: nat, m: Message, nlen: nat): Option<Msg> {
    if ntype in SERVER_TYPES && ntype in keys then Packed(keys[ntype], m, nlen) else None
  }

  const KEEP_ALIVE_PING := 20

  /** In the order in which they are pinged. */
  const ALL_SERVERS: seq<nat> := [2, 3, 6, 4]

  function Ping(): Message {
    Message(KEEP_ALIVE_PING, 0, 0, 0, [])
  }

  /** The locks around one message, if there is one. */
  function PostOps(p: Option<Msg>): seq<Op> {
    if p.None? then [] else Around(Lock.SendMap)
  }

  function ServerPing(keys: map<nat, Key>, ntype: nat): Option<Msg> {
    ForServer(keys, ntype, Ping(), 0)
  }

  /** What posting does to the front map and to the messages accepted. */
  datatype Outbox = Outbox(front: SendMap, accepted: seq<Msg>)

  function Enqueued(o: Outbox, limit: nat, p: Option<Msg>): Outbox {
    var r := Posted(o.front, limit, p);
    Outbox(r.0, if r.1 then o.accepted + [p.value] else o.accepted)
  }

  /** And what pinging some servers does, in the order in which they are pinged. */
  function Pinged(o: Outbox, limit: nat, keys: map<nat, Key>, types: seq<nat>): Outbox {
    if types == [] then o
    else Enqueued(Pinged(o, limit, keys, types[..|types| - 1]), limit, ServerPing(keys, types[|types| - 1]))
  }

  function PingOps(keys: map<nat, Key>, types: seq<nat>): seq<Op> {
    if types == [] then [] else PingOps(keys, types[..|types| - 1]) + PostOps(ServerPing(keys, types[|types| - 1]))
  }

  // ----- Which connection a message goes to -------------------------------

  /** The bytes are this message's, addressed by this key. */
  ghost predicate Carries(m: Msg, k: Key, msg: Message) {
    && m.gen == k.gen && m.fd == k.fd && m.time == k.time
    && WellFramed(m.bytes) && Decode(m.bytes) == msg
  }

  predicate HasRoom(front: SendMap, fd: int, limit: nat) {
    fd !in front || (front[fd].List? && |front[fd].msgs| < limit)
  }

  /** A key that is set, a stream within what was announced for it, and a packet
      within the largest. */
  predicate Fits(k: Key, msg: Message, nlen: nat) {
    && k.fd >= 0 && |msg.payload| <= nlen && 8 + |msg.payload| <= 2048
    && msg.mainId < 0x1_0000 && msg.assistantId < 0x1_0000
  }

  /** From before to after, the message went to the connection of key k, if there is
      one to take it, and nothing else happened. */
  ghost predicate WentTo(before: Outbox, after: Outbox, limit: nat, k: Option<Key>, msg: Message, nlen: nat) {
    if k.Some? && Fits(k.value, msg, nlen) && HasRoom(before.front, k.value.fd, limit) then
      && |after.accepted| == |before.accepted| + 1 && before.accepted <= after.accepted
      && var m := after.accepted[|before.accepted|];
         && Carries(m, k.value, msg) && Messages(after.front, k.value.fd) == Messages(before.front, k.value.fd) + [m]
         && forall fd :: fd != k.value.fd ==> Entry(after.front, fd) == Entry(before.front, fd)
    else
      && after.accepted == before.accepted
      && (forall fd :: Messages(after.front, fd) == Messages(before.front, fd))
      && (forall fd :: (k.Some? ==> fd != k.value.fd) ==> Entry(after.front, fd) == Entry(before.front, fd))
  }

  lemma PackedWent(o: Outbox, limit: nat, k: Key, msg: Message, nlen: nat)
    ensures WentTo(o, Enqueued(o, limit, Packed(k, msg, nlen)), limit, Some(k), msg, nlen)
  {
    if msg.Sendable() {
      EncodeRoundTrip(msg);
    }
  }

  /** The key of a server type, for the types there are. */
  function KeyFor(keys: map<nat, Key>, ntype: nat): Option<Key> {
    if ntype in {2, 3, 4, 6} && ntype in keys then Some(keys[ntype]) else None
  }

  /** A message to a server goes to the connection that this server's own key names. */
  lemma ServerMessageWent(o: Outbox, limit: nat, keys: map<nat, Key>, ntype: nat, msg: Message, nlen: nat)
    ensures WentTo(o, Enqueued(o, limit, ForServer(keys, ntype, msg, nlen)), limit, KeyFor(keys, ntype), msg, nlen)
  {
    if ntype in SERVER_TYPES && ntype in keys {
      PackedWent(o, limit, keys[ntype], msg, nlen);
    }
  }

  /** Among these servers, t alone is reached by its descriptor. */
  predicate Alone(keys: map<nat, Key>, types: seq<nat>, fd: int) {
    forall i :: 0 <= i < |types| && types[i] in keys ==> keys[types[i]].fd != fd
  }

  lemma {:induction false} PingsSpare(o: Outbox, limit: nat, keys: map<nat, Key>, types: seq<nat>, fd: int)
    requires Alone(keys, types, fd)
    ensures Entry(Pinged(o, limit, keys, types).front, fd) == Entry(o.front, fd)
    decreases |types|
  {
    if types != [] {
      var k := |types| - 1;
      assert forall i :: 0 <= i < k ==> types[..k][i] == types[i];
      PingsSpare(o, limit, keys, types[..k], fd);
      ServerMessageWent(Pinged(o, limit, keys, types[..k]), limit, keys, types[k], Ping(), 0);
    }
  }

  /** A ping to the connection of this type of server. */
  ghost predicate IsPing(m: Msg, keys: map<nat, Key>, t: nat) {
    t in {2, 3, 4, 6} && t in keys && keys[t].fd >= 0 && Carries(m, keys[t], Message(20, 0, 0, 0, []))
  }

  ghost predicate PingAny(m: Msg, keys: map<nat, Key>, types: seq<nat>) {
    exists t :: t in types && IsPing(m, keys, t)
  }

  ghost predicate PingsOnly(o: Outbox, p: Outbox, keys: map<nat, Key>, types: seq<nat>) {
    && o.accepted <= p.accepted && |p.accepted| <= |o.accepted| + |types|
    && forall i :: |o.accepted| <= i < |p.accepted| ==> PingAny(p.accepted[i], keys, types)
  }

  lemma {:induction false} PingsAreToServers(o: Outbox, limit: nat, keys: map<nat, Key>, types: seq<nat>)
    ensures PingsOnly(o, Pinged(o, limit, keys, types), keys, types)
    decreases |types|
  {
    if types != [] {
      var k := |types| - 1;
      var before, after := Pinged(o, limit, keys, types[..k]), Pinged(o, limit, keys, types);
      PingsAreToServers(o, limit, keys, types[..k]);
      ServerMessageWent(before, limit, keys, types[k], Ping(), 0);
      PingsOnlyMore(o, before, after, limit, keys, types[..k], types[k]);
      assert types[..k] + [types[k]] == types;
    }
  }

  lemma PingsOnlyMore(
    o: Outbox, before: Outbox, after: Outbox, limit: nat, keys: map<nat, Key>, types: seq<nat>, t: nat)
    requires PingsOnly(o, before, keys, types)
    requires WentTo(before, after, limit, KeyFor(keys, t), Message(20, 0, 0, 0, []), 0)
    ensures PingsOnly(o, after, keys, types + [t])
  {
    var more := types + [t];
    assert more[|types|] == t && o.accepted <= before.accepted <= after.accepted;
    forall i | |o.accepted| <= i < |after.accepted|
      ensures PingAny(after.accepted[i], keys, more)
    {
      if i < |before.accepted| {
        assert after.accepted[i] == before.accepted[i] && PingAny(before.accepted[i], keys, types);
        var u :| u in types && IsPing(before.accepted[i], keys, u);
        assert u in more && IsPing(after.accepted[i], keys, u);
      } else {
        assert t in more && IsPing(after.accepted[i], keys, t);
      }
    }
  }

  /** The server of this type got one ping. */
  ghost predicate GotPing(o: Outbox, p: Outbox, keys: map<nat, Key>, t: nat) {
    exists i :: |o.accepted| <= i < |p.accepted| && IsPing(p.accepted[i], keys, t)
  }

  /** Each server whose key is set, and whose descriptor no other key has, gets its
      ping exactly when its list has room; and nobody gets anything else. */
  lemma PingedExactly(o: Outbox, limit: nat, keys: map<nat, Key>, t: nat)
    requires t in {2, 3, 4, 6} && t in keys && keys[t].fd >= 0
    requires forall u :: u in {2, 3, 4, 6} && u != t && u in keys ==> keys[u].fd != keys[t].fd
    ensures var p := Pinged(o, limit, keys, ALL_SERVERS);
      PingsOnly(o, p, keys, ALL_SERVERS) && (GotPing(o, p, keys, t) <==> HasRoom(o.front, keys[t].fd, limit))
  {
    var n := if t == 2 then 0 else if t == 3 then 1 else if t == 6 then 2 else 3;
    assert ALL_SERVERS[n] == t && ALL_SERVERS[..4] == ALL_SERVERS;
    PingsAreToServers(o, limit, keys, ALL_SERVERS);
    PingAmong(o, limit, keys, ALL_SERVERS, n, 4);
  }

  lemma {:induction false} PingAmong(
    o: Outbox, limit: nat, keys: map<nat, Key>, types: seq<nat>, n: nat, k: nat)
    requires n < k <= |types| && types[n] in {2, 3, 4, 6} && types[n] in keys && keys[types[n]].fd >= 0
    requires forall i :: 0 <= i < |types| && i != n && types[i] in keys ==> keys[types[i]].fd != keys[types[n]].fd
    ensures GotPing(o, Pinged(o, limit, keys, types[..k]), keys, types[n]) <==>
      HasRoom(o.front, keys[types[n]].fd, limit)
    decreases k
  {
    var before, after := Pinged(o, limit, keys, types[..k - 1]), Pinged(o, limit, keys, types[..k]);
    OnePing(o, limit, keys, types[..k]);
    assert types[..k][..k - 1] == types[..k - 1];
    if k - 1 == n {
      PingsSpare(o, limit, keys, types[..n], keys[types[n]].fd);
      NotPingedBefore(o, before, keys, types, n);
      PingNow(o, before, after, limit, keys, types[n]);
    } else {
      PingAmong(o, limit, keys, types, n, k - 1);
      PingElsewhere(before, after, limit, keys, types[k - 1], keys[types[n]].fd);
      SamePings(o, before, after, keys, types[n]);
    }
  }

  lemma OnePing(o: Outbox, limit: nat, keys: map<nat, Key>, types: seq<nat>)
    requires types != []
    ensures var init := types[..|types| - 1];
      && WentTo(Pinged(o, limit, keys, init), Pinged(o, limit, keys, types), limit, KeyFor(keys, types[|types| - 1]),
                Message(20, 0, 0, 0, []), 0)
      && PingsOnly(o, Pinged(o, limit, keys, init), keys, init)
  {
    var init := types[..|types| - 1];
    ServerMessageWent(Pinged(o, limit, keys, init), limit, keys, types[|types| - 1], Ping(), 0);
    PingsAreToServers(o, limit, keys, init);
  }

  lemma PingElsewhere(before: Outbox, after: Outbox, limit: nat, keys: map<nat, Key>, u: nat, fd: int)
    requires WentTo(before, after, limit, KeyFor(keys, u), Message(20, 0, 0, 0, []), 0)
    requires u in keys ==> keys[u].fd != fd
    ensures before.accepted <= after.accepted && |after.accepted| <= |before.accepted| + 1
    ensures |after.accepted| > |before.accepted| ==> after.accepted[|before.accepted|].fd != fd
  {}

  lemma PingNow(o: Outbox, before: Outbox, after: Outbox, limit: nat, keys: map<nat, Key>, t: nat)
    requires t in {2, 3, 4, 6} && t in keys && keys[t].fd >= 0 && o.accepted <= before.accepted
    requires Entry(before.front, keys[t].fd) == Entry(o.front, keys[t].fd) && !GotPing(o, before, keys, t)
    requires WentTo(before, after, limit, KeyFor(keys, t), Message(20, 0, 0, 0, []), 0)
    ensures GotPing(o, after, keys, t) <==> HasRoom(o.front, keys[t].fd, limit)
  {
    if HasRoom(o.front, keys[t].fd, limit) {
      assert IsPing(after.accepted[|before.accepted|], keys, t);
    }
  }

  lemma NotPingedBefore(o: Outbox, p: Outbox, keys: map<nat, Key>, types: seq<nat>, n: nat)
    requires n < |types| && types[n] in keys && PingsOnly(o, p, keys, types[..n])
    requires forall i :: 0 <= i < |types| && i != n && types[i] in keys ==> keys[types[i]].fd != keys[types[n]].fd
    ensures !GotPing(o, p, keys, types[n])
  {
    forall i | |o.accepted| <= i < |p.accepted| ensures !IsPing(p.accepted[i], keys, types[n]) {
      assert PingAny(p.accepted[i], keys, types[..n]);
      var t :| t in types[..n] && IsPing(p.accepted[i], keys, t);
      var j :| 0 <= j < n && types[..n][j] == t;
      assert types[j] == t;
    }
  }

  /** One more ping, to somebody else. */
  lemma SamePings(o: Outbox, before: Outbox, after: Outbox, keys: map<nat, Key>, t: nat)
    requires o.accepted <= before.accepted <= after.accepted && |after.accepted| <= |before.accepted| + 1
    requires t in keys
    requires |after.accepted| > |before.accepted| ==> after.accepted[|before.accepted|].fd != keys[t].fd
    ensures GotPing(o, after, keys, t) <==> GotPing(o, before, keys, t)
  {
    if GotPing(o, before, keys, t) {
      var i :| |o.accepted| <= i < |before.accepted| && IsPing(before.accepted[i], keys, t);
      assert after.accepted[i] == before.accepted[i];
    }
    if GotPing(o, after, keys, t) {
      var i :| |o.accepted| <= i < |after.accepted| && IsPing(after.accepted[i], keys, t);
      assert i < |before.accepted| ==> after.accepted[i] == before.accepted[i];
    }
  }

  // ----- As steps of the state machine ------------------------------------

  function PostSteps(p: Option<Msg>): seq<Step> {
    if p.None? then [] else [Enqueue(p.value)]
  }

  function WithOutbox(s: State, o: Outbox): State {
    s.(out := s.out.(front := o.front), hist := s.hist.(accepted := o.accepted))
  }

  function OutboxOf(s: State): Outbox {
    Outbox(s.out.front, s.hist.accepted)
  }

  /** Posting is at most one Enqueue. */
  lemma PostIsSteps(s: State, cfg: Config, p: Option<Msg>)
    requires cfg.Ok() && Sound(s)
    ensures ApplyAll(s, cfg, PostSteps(p)) == WithOutbox(s, Enqueued(OutboxOf(s), cfg.maxSend, p))
  {
    if p.Some? {
      ApplyAllOne(s, cfg, Enqueue(p.value));
    }
  }

  function PingSteps(keys: map<nat, Key>, types: seq<nat>): seq<Step> {
    if types == [] then [] else PingSteps(keys, types[..|types| - 1]) + PostSteps(ServerPing(keys, types[|types| - 1]))
  }

  /** Pinging is a run of them. */
  lemma {:induction false} PingsAreSteps(s: State, cfg: Config, types: seq<nat>)
    requires cfg.Ok() && Sound(s)
    ensures ApplyAll(s, cfg, PingSteps(s.keys, types)) == WithOutbox(s, Pinged(OutboxOf(s), cfg.maxSend, s.keys, types))
    decreases |types|
  {
    if types != [] {
      var init, p := types[..|types| - 1], ServerPing(s.keys, types[|types| - 1]);
      var t := WithOutbox(s, Pinged(OutboxOf(s), cfg.maxSend, s.keys, init));
      PingsAreSteps(s, cfg, init);
      ApplyAllAppend(s, cfg, PingSteps(s.keys, init), PostSteps(p));
      PostIsSteps(t, cfg, p);
    }
  }

  /** Whether createServerConnect comes as far as announcing the connection fd. */
  predicate Connects(keys: map<nat, Key>, configured: set<nat>, ntype: nat, fd: int) {
    ntype in SERVER_TYPES && ntype in configured && ntype in keys && keys[ntype].fd < 0 && fd >= 0
  }

  /** The steps of connector c. */
  function ConnectSteps(c: nat, configured: set<nat>, ntype: nat, fd: int, now: int): seq<Step> {
    if ntype in SERVER_TYPES && ntype in configured then [ConnectorOpen(c, fd, ntype)] + [ConnectorPost(c, now)] else []
  }

  /** What it does to the shared state; a descriptor it closes again stays closed. */
  function AfterConnect(s: State, cfg: Config, configured: set<nat>, ntype: nat, fd: int, now: int): State {
    if !Connects(s.keys, configured, ntype, fd) then s
    else
      var t := s.(keys := SetKey(s.keys, ntype, Key(0, fd, now)));
      if |s.events| < cfg.maxEvents then OpenFd(t, fd).(events := s.events + [AddClient(fd, ntype)]) else t
  }

  /** createServerConnect is opening and then posting, on a descriptor the kernel
      did not have in use. */
  lemma ConnectIsSteps(s: State, cfg: Config, c: nat, configured: set<nat>, ntype: nat, fd: int, now: int)
    requires cfg.Ok() && Sound(s) && fd !in s.fds.open && c !in s.fds.connecting
    ensures ApplyAll(s, cfg, ConnectSteps(c, configured, ntype, fd, now)) ==
      AfterConnect(s, cfg, configured, ntype, fd, now)
  {
    if ntype in SERVER_TYPES && ntype in configured {
      var t := OpenStep(s, c, fd, ntype);
      ApplyAllOne(s, cfg, ConnectorOpen(c, fd, ntype));
      ApplyAllOne(t, cfg, ConnectorPost(c, now));
      ApplyAllAppend(s, cfg, [ConnectorOpen(c, fd, ntype)], [ConnectorPost(c, now)]);
      OpenThenPost(s, cfg, c, ntype, fd, now);
    }
  }

  lemma OpenThenPost(s: State, cfg: Config, c: nat, ntype: nat, fd: int, now: int)
    requires fd !in s.fds.open && c !in s.fds.connecting
    ensures ConnectedStep(OpenStep(s, c, fd, ntype), cfg, c, now) ==
      AfterConnect(s, cfg, {ntype}, ntype, fd, now) || ntype !in SERVER_TYPES
  {
    if Connects(s.keys, {ntype}, ntype, fd) {
      assert s.fds.connecting[c := Dial(fd, ntype)] - {c} == s.fds.connecting;
      assert s.fds.open + {fd} - {fd} == s.fds.open;
    }
  }

  /** Had the pings been sent with blocked true, the thread would have taken the
      server lock while holding it. */
  lemma BlockedPingIsUndisciplined(inner: seq<Op>, more: seq<Op>)
    ensures !Disciplined(Nested(Lock.Server, Nested(Lock.Server, inner) + more))
  {
    var ops := Nested(Lock.Server, Nested(Lock.Server, inner) + more);
    DisciplinedPrefix(ops, 2);
    assert ops[..2] == [Acquire(Lock.Server)] + [Acquire(Lock.Server)]
      && [Acquire(Lock.Server)] == [] + [Acquire(Lock.Server)];
    OneMore([], Acquire(Lock.Server));
    OneMore([Acquire(Lock.Server)], Acquire(Lock.Server));
  }

  lemma OneMorePing(o: Outbox, limit: nat, keys: map<nat, Key>, types: seq<nat>, t: nat, ops: seq<Op>)
    ensures Pinged(o, limit, keys, types + [t]) == Enqueued(Pinged(o, limit, keys, types), limit, ServerPing(keys, t))
    ensures ops + PingOps(keys, types + [t]) == (ops + PingOps(keys, types)) + PostOps(ServerPing(keys, t))
  {
    assert (types + [t])[..|types + [t]| - 1] == types;
  }

  /** The overflow branch of switchSendMap: idx, which should count the messages
      moved, is never advanced. */
  method MoveOverflow(newer: seq<Msg>, older: seq<Msg>, limit: nat) returns (list: seq<Msg>, freed: seq<Msg>)
    ensures list == if |newer| < limit then newer + older else newer
    ensures freed == if |newer| < limit then [] else older
  {
    var needmove := limit - |newer|;
    var idx := 0;
    list, freed := newer, [];
    for i := 0 to |older|
      invariant list == if |newer| < limit then newer + older[..i] else newer
      invariant freed == if |newer| < limit then [] else older[..i]
    {
      assert older[..i + 1] == older[..i] + [older[i]];
      if idx >= needmove {
        freed := freed + [older[i]];
      } else {
        list := list + [older[i]];
      }
    }
    assert older[..|older|] == older;
  }

  /** One entry of the switch: the front entry that results, and what was freed. */
  method MergeEntry(cur: Option<SendList>, bak: SendList, limit: nat) returns (r: Merged)
    ensures r == Merge(cur, bak, limit)
  {
    match bak {
      case Null => r := Merged(cur, []);
      case List(older) =>
        match cur {
          case None => r := Merged(Some(bak), []);
          case Some(Null) => r := Merged(Some(bak), []);
          case Some(List(newer)) =>
            if |newer| + |older| > limit {
              var list, freed := MoveOverflow(newer, older, limit);
              r := Merged(Some(List(list)), freed);
            } else {
              r := Merged(Some(List(older + newer)), []);
            }
        }
    }
  }

  /** The loop of switchSendMap: every back list goes into the front map. */
  method MergeAll(cur: SendMap, bak: SendMap, limit: nat) returns (front: SendMap, freed: map<int, seq<Msg>>)
    requires cur != map[]
    ensures front == Switch(cur, bak, limit).1
    ensures forall fd :: fd in freed ==> freed[fd] == Freed(cur, bak, limit, fd)
    ensures forall fd :: fd !in freed ==> Freed(cur, bak, limit, fd) == []
  {
    front, freed := cur, map[];
    var todo := bak.Keys;
    while todo != {}
      invariant forall fd :: fd in todo ==> fd in bak
      invariant forall fd :: fd in front <==> fd in cur || (fd in bak && bak[fd].List? && fd !in todo)
      invariant forall fd :: fd in front ==>
        front[fd] == if fd in todo || fd !in bak then cur[fd] else Merge(Entry(cur, fd), bak[fd], limit).entry.value
      invariant forall fd :: fd in freed <==> fd in bak && fd !in todo
      invariant forall fd :: fd in freed ==> freed[fd] == Merge(Entry(cur, fd), bak[fd], limit).freed
      decreases |todo|
    {
      var fd := Pick(todo);
      todo := todo - {fd};
      assert Entry(front, fd) == Entry(cur, fd);
      var merged := MergeEntry(Entry(front, fd), bak[fd], limit);
      freed := freed[fd := merged.freed];
      if merged.entry.Some? {
        front := front[fd := merged.entry.value];
      }
    }
    SwitchedIs(cur, bak, limit, front);
  }

  lemma SwitchedIs(cur: SendMap, bak: SendMap, limit: nat, front: SendMap)
    requires cur != map[]
    requires forall fd :: fd in front <==> fd in cur || (fd in bak && bak[fd].List?)
    requires forall fd :: fd in front ==>
      front[fd] == if fd !in bak then cur[fd] else Merge(Entry(cur, fd), bak[fd], limit).entry.value
    ensures front == Switch(cur, bak, limit).1
  {
    var want := Switch(cur, bak, limit).1;
    assert forall fd :: fd in want <==> fd in SwitchedKeys(cur, bak);
    forall fd | fd in front ensures front[fd] == want[fd] {
      assert want[fd] == SwitchedEntry(cur, bak, limit, fd);
    }
    assert front.Keys == want.Keys;
  }

  class GlobalMgr {
    const maxSend: nat
    const recvQueue: SysQueue<Note>
    const eventQueue: SysQueue<Event>
    var front: SendMap
    var back: SendMap
    var keys: map<nat, Key>
    ghost var accepted: seq<Msg>

    ghost predicate Valid()
      reads this
    {
      && recvQueue.lock == Lock.RecvQueue && eventQueue.lock == Lock.EventQueue
      && recvQueue as object != eventQueue as object
      && keys.Keys == SERVER_TYPES
    }

    constructor (maxSend: nat, maxRecv: nat)
      ensures Valid() && fresh(recvQueue) && fresh(eventQueue)
      ensures front == map[] && back == map[] && accepted == []
      ensures keys == map t | t in SERVER_TYPES :: Key(0, -1, 0)
      ensures this.maxSend == maxSend && recvQueue.maxSize == maxRecv && eventQueue.maxSize == 15000
      ensures recvQueue.data == [] && eventQueue.data == []
    {
      this.maxSend := maxSend;
      recvQueue := new SysQueue(Lock.RecvQueue, maxRecv);
      eventQueue := new SysQueue(Lock.EventQueue, 15000);
      front, back, accepted := map[], map[], [];
      keys := map t | t in SERVER_TYPES :: Key(0, -1, 0);
    }

    method AddMsgToSendList(th: Thread, m: Msg) returns (ok: bool)
      requires th.Valid() && MayAcquire(th.Held(), Lock.SendMap)
      modifies this`front, this`accepted, th
      ensures th.Valid() && th.Held() == old(th.Held()) && th.ops == old(th.ops) + Around(Lock.SendMap)
      ensures (front, ok) == AddMsg(old(front), maxSend, m)
      ensures accepted == if ok then old(accepted) + [m] else old(accepted)
    {
      th.Lock(Lock.SendMap);
      ok := InsertMsg(m);
      th.UnLock(Lock.SendMap);
      assert old(th.ops) + [Acquire(Lock.SendMap)] + [Release(Lock.SendMap)] == old(th.ops) + Around(Lock.SendMap);
    }

    /** What it does under the lock. */
    method InsertMsg(m: Msg) returns (ok: bool)
      modifies this`front, this`accepted
      ensures (front, ok) == AddMsg(old(front), maxSend, m)
      ensures accepted == if ok then old(accepted) + [m] else old(accepted)
    {
      if m.fd !in front {
        front := front[m.fd := List([m])];
      } else {
        match front[m.fd] {
          case List(ms) =>
            if |ms| < maxSend {
              front := front[m.fd := List(ms + [m])];
            } else {
              return false;
            }
          case Null =>
            front := front - {m.fd};
            return false;
        }
      }
      accepted := accepted + [m];
      return true;
    }

    /** The packet is built in place: the stream behind the header, then the
        header, whose size field counts both. */
    method CreateMsgToSendList(th: Thread, host: Host, k: Key, mainId: nat, assistantId: nat, code: byte, reserve: byte,
                               stream: Option<seq<byte>>, nlen: nat)
      returns (ok: bool)
      requires th.Valid() && MayAcquire(th.Held(), Lock.SendMap)
      requires mainId < 0x1_0000 && assistantId < 0x1_0000
      modifies this`front, this`accepted, th
      ensures th.Valid() && th.Held() == old(th.Held())
      ensures var m := Message(mainId, assistantId, code, reserve, if stream.Some? then stream.value else []);
        var p := Packed(k, m, if stream.Some? then nlen else 0);
        && (front, ok) == Posted(old(front), maxSend, p)
        && accepted == (if ok then old(accepted) + [p.value] else old(accepted))
        && th.ops == old(th.ops) + PostOps(p)
      ensures WentTo(old(Out()), Out(), maxSend, Some(k),
        Message(mainId, assistantId, code, reserve, if stream.Some? then stream.value else []),
        if stream.Some? then nlen else 0)
    {
      PackedWent(Out(), maxSend, k,
        Message(mainId, assistantId, code, reserve, if stream.Some? then stream.value else []),
        if stream.Some? then nlen else 0);
      ok := PackAndAdd(th, host, k, mainId, assistantId, code, reserve, stream, nlen);
    }

    /** The body of createMsgToSendList. */
    method PackAndAdd(th: Thread, host: Host, k: Key, mainId: nat, assistantId: nat, code: byte, reserve: byte,
                      stream: Option<seq<byte>>, nlen: nat)
      returns (ok: bool)
      requires th.Valid() && MayAcquire(th.Held(), Lock.SendMap)
      requires mainId < 0x1_0000 && assistantId < 0x1_0000
      modifies this`front, this`accepted, th
      ensures th.Valid() && th.Held() == old(th.Held())
      ensures var m := Message(mainId, assistantId, code, reserve, if stream.Some? then stream.value else []);
        var p := Packed(k, m, if stream.Some? then nlen else 0);
        && (front, ok) == Posted(old(front), maxSend, p)
        && accepted == (if ok then old(accepted) + [p.value] else old(accepted))
        && th.ops == old(th.ops) + PostOps(p)
    {
      if k.fd < 0 {
        return false;
      }
      var room := if stream.Some? then nlen else 0;
      var pdata := new byte[room + NET_HEAD_SIZE](_ => 0);
      var dataLen := room + NET_HEAD_SIZE;
      if stream.Some? {
        if |stream.value| > room {
          return false;
        }
        forall i | 0 <= i < |stream.value| {
          pdata[NET_HEAD_SIZE + i] := stream.value[i];
        }
        dataLen := |stream.value| + NET_HEAD_SIZE;
      }
      if dataLen > MAX_SEND_SIZE {
        return false;
      }
      ghost var m := Message(mainId, assistantId, code, reserve, if stream.Some? then stream.value else []);
      assert pdata[NET_HEAD_SIZE..dataLen] == m.payload;
      var bytes := Headed(host, pdata, dataLen, mainId, assistantId, code, reserve, m);
      ok := AddMsgToSendList(th, Msg(k.gen, k.fd, k.time, bytes));
    }

    static method Headed(
        host: Host, pdata: array<byte>, dataLen: nat, mainId: nat, assistantId: nat, code: byte, reserve: byte,
        ghost m: Message)
      returns (bytes: seq<byte>)
      requires m.Sendable() && m == Message(mainId, assistantId, code, reserve, m.payload)
      requires NET_HEAD_SIZE <= dataLen <= pdata.Length && pdata[NET_HEAD_SIZE..dataLen] == m.payload
      modifies pdata
      ensures bytes == Encode(m)
    {
      var head := new NetMessageHead();
      head.uMessageSize, head.uMainID, head.bAssistantID := dataLen, mainId, assistantId;
      head.bHandleCode, head.bReserve := code, reserve;
      var ok, used := head.Out(host, pdata, NET_HEAD_SIZE);
      assert pdata[NET_HEAD_SIZE..dataLen] == pdata[NET_HEAD_SIZE..][..dataLen - NET_HEAD_SIZE];
      bytes := pdata[..dataLen];
      assert bytes == pdata[..NET_HEAD_SIZE] + pdata[NET_HEAD_SIZE..dataLen];
    }

    method SetServerSocket(th: Thread, ntype: nat, k: Key)
      requires Valid() && th.Valid() && MayAcquire(th.Held(), Lock.Server)
      modifies this`keys, th
      ensures Valid() && th.Valid() && th.Held() == old(th.Held()) && th.ops == old(th.ops) + Around(Lock.Server)
      ensures keys == SetKey(old(keys), ntype, k)
    {
      th.Lock(Lock.Server);
      if ntype in {2, 3, 4, 6} {
        keys := keys[ntype := k];
      }
      th.UnLock(Lock.Server);
    }

    /** With blocked the server lock is taken here; without, the caller has it. */
    method SendMsgToServer(th: Thread, host: Host, ntype: nat, mainId: nat, assistantId: nat, code: byte, reserve: byte,
                           stream: Option<seq<byte>>, nlen: nat, blocked: bool)
      returns (ok: bool)
      requires Valid() && th.Valid() && MayAcquire(th.Held(), Lock.SendMap)
      requires blocked ==> MayAcquire(th.Held(), Lock.Server)
      requires mainId < 0x1_0000 && assistantId < 0x1_0000
      modifies this`front, this`accepted, th
      ensures Valid() && th.Valid() && th.Held() == old(th.Held())
      ensures var m := Message(mainId, assistantId, code, reserve, if stream.Some? then stream.value else []);
        var p := ForServer(keys, ntype, m, if stream.Some? then nlen else 0);
        && (front, ok) == Posted(old(front), maxSend, p)
        && accepted == (if ok then old(accepted) + [p.value] else old(accepted))
        && th.ops == old(th.ops) + if blocked then Nested(Lock.Server, PostOps(p)) else PostOps(p)
      ensures WentTo(old(Out()), Out(), maxSend, if ntype in {2, 3, 4, 6} then Some(keys[ntype]) else None,
        Message(mainId, assistantId, code, reserve, if stream.Some? then stream.value else []),
        if stream.Some? then nlen else 0)
    {
      ServerMessageWent(Out(), maxSend, keys, ntype,
        Message(mainId, assistantId, code, reserve, if stream.Some? then stream.value else []),
        if stream.Some? then nlen else 0);
      ghost var ops := th.ops;
      if blocked {
        th.Lock(Lock.Server);
      }
      ok := SendByKey(th, host, ntype, mainId, assistantId, code, reserve, stream, nlen);
      if blocked {
        ghost var m := Message(mainId, assistantId, code, reserve, if stream.Some? then stream.value else []);
        NestedOps(ops, Lock.Server, PostOps(ForServer(keys, ntype, m, if stream.Some? then nlen else 0)));
        th.UnLock(Lock.Server);
      }
    }

    /** What happens between the two. */
    method SendByKey(th: Thread, host: Host, ntype: nat, mainId: nat, assistantId: nat, code: byte, reserve: byte,
                     stream: Option<seq<byte>>, nlen: nat)
      returns (ok: bool)
      requires Valid() && th.Valid() && MayAcquire(th.Held(), Lock.SendMap)
      requires mainId < 0x1_0000 && assistantId < 0x1_0000
      modifies this`front, this`accepted, th
      ensures Valid() && th.Valid() && th.Held() == old(th.Held())
      ensures var m := Message(mainId, assistantId, code, reserve, if stream.Some? then stream.value else []);
        var p := ForServer(keys, ntype, m, if stream.Some? then nlen else 0);
        && (front, ok) == Posted(old(front), maxSend, p)
        && accepted == (if ok then old(accepted) + [p.value] else old(accepted))
        && th.ops == old(th.ops) + PostOps(p)
    {
      var k := KeyOf(ntype);
      if k.None? {
        return false;
      }
      ok := false;
      if k.value.fd >= 0 {
        ok := CreateMsgToSendList(th, host, k.value, mainId, assistantId, code, reserve, stream, nlen);
      }
    }

    /** The switch over the server types. */
    method KeyOf(ntype: nat) returns (k: Option<Key>)
      requires Valid()
      ensures k == if ntype in SERVER_TYPES then Some(keys[ntype]) else None
    {
      match ntype {
        case 2 | 3 | 4 | 6 => k := Some(keys[ntype]);
        case _ => k := None;
      }
    }

    ghost function Out(): Outbox
      reads this
    {
      Outbox(front, accepted)
    }

    /** before: the servers already pinged. */
    method PingServer(th: Thread, host: Host, ntype: nat, ghost o: Outbox, ghost ops: seq<Op>, ghost before: seq<nat>)
      requires Valid() && th.Valid() && MayAcquire(th.Held(), Lock.SendMap)
      requires Out() == Pinged(o, maxSend, keys, before) && th.ops == ops + PingOps(keys, before)
      modifies this`front, this`accepted, th
      ensures Valid() && th.Valid() && th.Held() == old(th.Held())
      ensures Out() == Pinged(o, maxSend, keys, before + [ntype]) && th.ops == ops + PingOps(keys, before + [ntype])
    {
      var ok := SendMsgToServer(th, host, ntype, KEEP_ALIVE_PING, 0, 0, 0, None, 0, false);
      OneMorePing(o, maxSend, keys, before, ntype, ops);
    }

    /** The server lock is held throughout, so the messages go out with blocked
        false: with true the thread would wait for itself. */
    method SendKeepaliveMsgToAllServer(th: Thread, host: Host)
      requires Valid() && th.Valid() && MayAcquire(th.Held(), Lock.Server)
      modifies this`front, this`accepted, th
      ensures Valid() && th.Valid() && th.Held() == old(th.Held())
      ensures Out() == Pinged(old(Out()), maxSend, keys, ALL_SERVERS)
      ensures th.ops == old(th.ops) + Nested(Lock.Server, PingOps(keys, ALL_SERVERS))
    {
      ghost var ops := th.ops;
      th.Lock(Lock.Server);
      PingAll(th, host);
      NestedOps(ops, Lock.Server, PingOps(keys, ALL_SERVERS));
      th.UnLock(Lock.Server);
    }

    method PingAll(th: Thread, host: Host)
      requires Valid() && th.Valid() && MayAcquire(th.Held(), Lock.SendMap)
      modifies this`front, this`accepted, th
      ensures Valid() && th.Valid() && th.Held() == old(th.Held())
      ensures Out() == Pinged(old(Out()), maxSend, keys, ALL_SERVERS)
      ensures th.ops == old(th.ops) + PingOps(keys, ALL_SERVERS)
    {
      ghost var o, ops := Out(), th.ops;
      assert ops + PingOps(keys, []) == ops;
      assert [] + [2] == [2] && [2] + [3] == [2, 3] && [2, 3] + [6] == [2, 3, 6] && [2, 3, 6] + [4] == ALL_SERVERS;
      PingServer(th, host, 2, o, ops, []);
      PingServer(th, host, 3, o, ops, [2]);
      PingServer(th, host, 6, o, ops, [2, 3]);
      PingServer(th, host, 4, o, ops, [2, 3, 6]);
    }

    method CreateCloseConnectEvent(th: Thread, fd: int, time: int) returns (ok: bool)
      requires Valid() && th.Valid() && MayAcquire(th.Held(), Lock.EventQueue)
      modifies eventQueue, th
      ensures th.Valid() && th.Held() == old(th.Held()) && th.ops == old(th.ops) + Around(Lock.EventQueue)
      ensures ok <==> |old(eventQueue.data)| < eventQueue.maxSize
      ensures eventQueue.data == if ok then old(eventQueue.data) + [CloseClient(fd, time)] else old(eventQueue.data)
    {
      ok := eventQueue.InQueue(th, Some(CloseClient(fd, time)), false);
    }

    /** The lock and state part of createServerConnect. fd is what the connect in
        the middle gives; the result is the descriptor it closes again, if any.
        The check and the two settings of the key each take the server lock by
        themselves; the event queue's lock is taken alone. */
    method CreateServerConnect(th: Thread, configured: set<nat>, ntype: nat, fd: int, now: int)
        returns (closed: Option<int>)
      requires Valid() && th.Valid() && th.Held() == {}
      modifies this`keys, eventQueue, th
      ensures Valid() && th.Valid() && th.Held() == {}
      ensures var goes := Connects(old(keys), configured, ntype, fd);
        var room := |old(eventQueue.data)| < eventQueue.maxSize;
        && keys == (if goes then SetKey(old(keys), ntype, Key(0, fd, now)) else old(keys))
        && eventQueue.data == old(eventQueue.data) + (if goes && room then [AddClient(fd, ntype)] else [])
        && closed == (if goes && !room then Some(fd) else None)
        && th.ops == old(th.ops) + Around(Lock.Server) +
             (if !goes then []
              else Around(Lock.Server) + Around(Lock.EventQueue) + (if room then [] else Around(Lock.Server)))
    {
      closed := None;
      var go := MayConnect(th, configured, ntype);
      if go && fd >= 0 {
        closed := HandOver(th, ntype, fd, now);
      }
    }

    /** The check under the server lock. */
    method MayConnect(th: Thread, configured: set<nat>, ntype: nat) returns (go: bool)
      requires Valid() && th.Valid() && th.Held() == {}
      modifies th
      ensures th.Valid() && th.Held() == {} && th.ops == old(th.ops) + Around(Lock.Server)
      ensures go == Connects(keys, configured, ntype, 0)
    {
      th.Lock(Lock.Server);
      go := ntype in {2, 3, 4, 6} && ntype in configured && keys[ntype].fd < 0;
      th.UnLock(Lock.Server);
      assert old(th.ops) + [Acquire(Lock.Server)] + [Release(Lock.Server)] == old(th.ops) + Around(Lock.Server);
    }

    /** The end of createServerConnect. The reset after a refusal names the client
        type, for which there is no key. */
    method HandOver(th: Thread, ntype: nat, fd: int, now: int) returns (closed: Option<int>)
      requires Valid() && th.Valid() && th.Held() == {}
      modifies this`keys, eventQueue, th
      ensures Valid() && th.Valid() && th.Held() == {}
      ensures var room := |old(eventQueue.data)| < eventQueue.maxSize;
        && keys == SetKey(old(keys), ntype, Key(0, fd, now))
        && eventQueue.data == (if room then old(eventQueue.data) + [AddClient(fd, ntype)] else old(eventQueue.data))
        && closed == (if room then None else Some(fd))
        && th.ops ==
             old(th.ops) + (Around(Lock.Server) + Around(Lock.EventQueue) + if room then [] else Around(Lock.Server))
    {
      closed := None;
      SetServerSocket(th, ntype, Key(0, fd, now));
      var ok := eventQueue.InQueue(th, Some(AddClient(fd, ntype)), false);
      if !ok {
        SetServerSocket(th, CLIENT_TYPE, Key(0, -1, 0));
        closed := Some(fd);
      }
    }

    /** The maps change roles after every back list has been merged into the front
        map; freed says what was deleted for each fd. */
    method SwitchSendMap(th: Thread) returns (freed: map<int, seq<Msg>>)
      requires th.Valid() && MayAcquire(th.Held(), Lock.SendMap)
      modifies this`front, this`back, th
      ensures th.Valid() && th.Held() == old(th.Held()) && th.ops == old(th.ops) + Around(Lock.SendMap)
      ensures (front, back) == Switch(old(front), old(back), maxSend)
      ensures forall fd :: fd in freed ==> freed[fd] == Freed(old(front), old(back), maxSend, fd)
      ensures forall fd :: fd !in freed ==> Freed(old(front), old(back), maxSend, fd) == []
    {
      freed := map[];
      th.Lock(Lock.SendMap);
      if front == map[] {
        th.UnLock(Lock.SendMap);
        return;
      }
      front, freed := MergeAll(front, back, maxSend);
      front, back := map[], front;
      th.UnLock(Lock.SendMap);
    }
  }
}
