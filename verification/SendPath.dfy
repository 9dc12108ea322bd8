/** The double-buffered send lists of CGlobalMgr and the drain of
    CEpollThread::doSendMessage, as functions, with the theorems about them. */
module SendPath {
  import opened Bytes
  import opened Transfer

  /** NET_DATA on its way out. The code stores no gen: it stands for the
      connection the sender means, and nothing below looks at it. */
  datatype Msg = Msg(gen: nat, fd: int, time: int, bytes: seq<byte>)

  /** A map entry may hold a null pointer instead of a list. */
  datatype SendList = Null | List(msgs: seq<Msg>)

  type SendMap = map<int, SendList>

  // ----- What is pending --------------------------------------------------

  predicate Matches(m: Msg, fd: int, time: int) {
    m.fd == fd && m.time == time
  }

  /** The bytes queued for one connection, in order; other messages are skipped. */
  function Pending(ms: seq<Msg>, fd: int, time: int): seq<byte> {
    if ms == [] then []
    else (if Matches(ms[0], fd, time) then ms[0].bytes else []) + Pending(ms[1..], fd, time)
  }

  function Messages(m: SendMap, fd: int): seq<Msg> {
    if fd in m && m[fd].List? then m[fd].msgs else []
  }

  function PendingAt(m: SendMap, fd: int, time: int): seq<byte> {
    Pending(Messages(m, fd), fd, time)
  }

  lemma {:induction false} PendingAppend(a: seq<Msg>, b: seq<Msg>, fd: int, time: int)
    ensures Pending(a + b, fd, time) == Pending(a, fd, time) + Pending(b, fd, time)
  {
    if a == [] {
      assert a + b == b;
    } else {
      PendingAppend(a[1..], b, fd, time);
      assert (a + b)[1..] == a[1..] + b;
      Associate(if Matches(a[0], fd, time) then a[0].bytes else [], Pending(a[1..], fd, time), Pending(b, fd, time));
    }
  }

  // ----- Enqueueing -------------------------------------------------------

  /** addMsgToSendList: refused when the list is at its limit. */
  function AddMsg(front: SendMap, limit: nat, m: Msg): (SendMap, bool) {
    if m.fd !in front then (front[m.fd := List([m])], true)
    else
      match front[m.fd]
      case Null => (front - {m.fd}, false)
      case List(ms) => if |ms| < limit then (front[m.fd := List(ms + [m])], true) else (front, false)
  }

  lemma AddMsgPending(front: SendMap, limit: nat, m: Msg, fd: int, time: int)
    ensures var (next, ok) := AddMsg(front, limit, m);
      PendingAt(next, fd, time) == PendingAt(front, fd, time) + if ok && Matches(m, fd, time) then m.bytes else []
  {
    PendingAppend(Messages(front, m.fd), [m], fd, time);
    assert Messages(front, m.fd) + [m] == if Messages(front, m.fd) == [] then [m] else Messages(front, m.fd) + [m];
    assert [m][1..] == [];
  }

  // ----- Switching --------------------------------------------------------

  /** What switchSendMap does with one back list: the entry that results for
      its fd, and the messages it deletes. */
  datatype Merged = Merged(entry: Option<SendList>, freed: seq<Msg>)

  function Merge(cur: Option<SendList>, bak: SendList, limit: nat): Merged {
    match bak
    case Null => Merged(cur, [])
    case List(older) =>
      match cur
      case None => Merged(Some(bak), [])
      case Some(Null) => Merged(Some(bak), [])
      case Some(List(newer)) =>
        if |newer| + |older| > limit then
          // the index that should count the moved messages never moves
          if limit - |newer| > 0 then Merged(Some(List(newer + older)), [])
          else Merged(cur, older)
        else Merged(Some(List(older + newer)), [])
  }

  function Entry(m: SendMap, fd: int): Option<SendList> {
    if fd in m then Some(m[fd]) else None
  }

  /** The fds that switchSendMap leaves in the new back map. */
  function SwitchedKeys(front: SendMap, back: SendMap): set<int> {
    front.Keys + (set fd | fd in back && back[fd].List?)
  }

  function SwitchedEntry(front: SendMap, back: SendMap, limit: nat, fd: int): SendList
    requires fd in SwitchedKeys(front, back)
  {
    if fd in back then Merge(Entry(front, fd), back[fd], limit).entry.value else front[fd]
  }

  /** The maps after the switch: (front, back). */
  function Switch(front: SendMap, back: SendMap, limit: nat): (SendMap, SendMap) {
    if front == map[] then (front, back)
    else (map[], map fd | fd in SwitchedKeys(front, back) :: SwitchedEntry(front, back, limit, fd))
  }

  function Freed(front: SendMap, back: SendMap, limit: nat, fd: int): seq<Msg> {
    if front != map[] && fd in back then Merge(Entry(front, fd), back[fd], limit).freed else []
  }

  predicate Overflows(front: SendMap, back: SendMap, limit: nat, fd: int) {
    fd in front && front[fd].List? && fd in back && back[fd].List? && |front[fd].msgs| + |back[fd].msgs| > limit
  }

  /** Nothing is lost track of: every message held for an fd before the switch
      is afterwards in its list of the new back map, or freed, exactly once. */
  lemma SwitchConserves(front: SendMap, back: SendMap, limit: nat, fd: int)
    ensures var (front', back') := Switch(front, back, limit);
      && multiset(Messages(front, fd)) + multiset(Messages(back, fd))
         == multiset(Messages(front', fd)) + multiset(Messages(back', fd)) + multiset(Freed(front, back, limit, fd))
      && (front != map[] ==> front' == map[])
  {
    if front != map[] {
      SwitchedMessages(front, back, limit, fd);
      FreedMessages(front, back, limit, fd);
    }
  }

  lemma FreedMessages(front: SendMap, back: SendMap, limit: nat, fd: int)
    requires front != map[]
    ensures Freed(front, back, limit, fd) ==
      if Overflows(front, back, limit, fd) && |Messages(front, fd)| >= limit then Messages(back, fd) else []
  {}

  /** after is made of those of all that stand at these places. */
  predicate Takes(after: seq<Msg>, all: seq<Msg>, places: seq<nat>) {
    |after| == |places| && forall i :: 0 <= i < |after| ==> places[i] < |all| && after[i] == all[places[i]]
  }

  /** Every place once, and in order. */
  predicate InOrder(places: seq<nat>, n: nat) {
    |places| == n && forall i :: 0 <= i < n ==> places[i] == i
  }

  function Upto(from: nat, n: nat): (ps: seq<nat>)
    ensures |ps| == n && forall i :: 0 <= i < n ==> ps[i] == from + i
  {
    seq(n, i => from + i)
  }

  /** Where the messages of the list after the switch stood among the older and
      then the newer ones. */
  function Places(front: SendMap, back: SendMap, limit: nat, fd: int): seq<nat> {
    var older, newer := |Messages(back, fd)|, |Messages(front, fd)|;
    if !Overflows(front, back, limit, fd) then Upto(0, older + newer)
    else if newer < limit then Upto(older, newer) + Upto(0, older)
    else Upto(older, newer)
  }

  /** The switch puts older messages before newer ones, each once, exactly when
      the list does not overflow or one of the two is empty. Messages are told
      apart by where they stood, so equal ones count as two. */
  lemma SwitchOrderExactly(front: SendMap, back: SendMap, limit: nat, fd: int)
    requires front != map[]
    ensures var older, newer, places := Messages(back, fd), Messages(front, fd), Places(front, back, limit, fd);
      && Takes(Messages(Switch(front, back, limit).1, fd), older + newer, places)
      && (InOrder(places, |older| + |newer|)
          <==> !Overflows(front, back, limit, fd) || older == [] || (newer == [] && limit > 0))
  {
    TakesPlaces(front, back, limit, fd);
    PlacesInOrder(front, back, limit, fd);
  }

  lemma TakesPlaces(front: SendMap, back: SendMap, limit: nat, fd: int)
    requires front != map[]
    ensures Takes(Messages(Switch(front, back, limit).1, fd), Messages(back, fd) + Messages(front, fd),
      Places(front, back, limit, fd))
  {
    SwitchedMessages(front, back, limit, fd);
    OlderFirst(Messages(back, fd), Messages(front, fd));
    NewerFirst(Messages(back, fd), Messages(front, fd));
    NewerOnly(Messages(back, fd), Messages(front, fd));
  }

  lemma OlderFirst(older: seq<Msg>, newer: seq<Msg>)
    ensures Takes(older + newer, older + newer, Upto(0, |older| + |newer|))
  {}

  lemma NewerOnly(older: seq<Msg>, newer: seq<Msg>)
    ensures Takes(newer, older + newer, Upto(|older|, |newer|))
  {
    forall i | 0 <= i < |newer| ensures newer[i] == (older + newer)[Upto(|older|, |newer|)[i]] {
      assert (older + newer)[|older| + i] == newer[i];
    }
  }

  lemma NewerFirst(older: seq<Msg>, newer: seq<Msg>)
    ensures Takes(newer + older, older + newer, Upto(|older|, |newer|) + Upto(0, |older|))
  {
    var places := Upto(|older|, |newer|) + Upto(0, |older|);
    forall i | 0 <= i < |newer + older|
      ensures places[i] < |older + newer| && (newer + older)[i] == (older + newer)[places[i]]
    {
      assert places[i] == if i < |newer| then |older| + i else i - |newer|;
    }
  }

  lemma PlacesInOrder(front: SendMap, back: SendMap, limit: nat, fd: int)
    ensures var n, m := |Messages(back, fd)|, |Messages(front, fd)|;
      InOrder(Places(front, back, limit, fd), n + m) <==>
        !Overflows(front, back, limit, fd) || n == 0 || (m == 0 && limit > 0)
  {
    var n, m, places := |Messages(back, fd)|, |Messages(front, fd)|, Places(front, back, limit, fd);
    if Overflows(front, back, limit, fd) && m < limit && n > 0 && m > 0 {
      assert places[0] == n;
    }
  }

  lemma SwitchedMessages(front: SendMap, back: SendMap, limit: nat, fd: int)
    requires front != map[]
    ensures Messages(Switch(front, back, limit).1, fd) ==
      if !Overflows(front, back, limit, fd) then Messages(back, fd) + Messages(front, fd)
      else if |Messages(front, fd)| < limit then Messages(front, fd) + Messages(back, fd)
      else Messages(front, fd)
  {
    var older, newer := Messages(back, fd), Messages(front, fd);
    var back' := Switch(front, back, limit).1;
    if fd in SwitchedKeys(front, back) {
      assert back'[fd] == SwitchedEntry(front, back, limit, fd);
    }
    assert older + [] == older && [] + newer == newer;
  }

  /** Overflow breaks the cap as well: the list grows past the limit, or every
      older message is thrown away. */
  lemma OverflowBreaksCapOrFreesAll(front: SendMap, back: SendMap, limit: nat, fd: int)
    requires Overflows(front, back, limit, fd)
    ensures var after := Messages(Switch(front, back, limit).1, fd);
      if |Messages(front, fd)| < limit then |after| > limit && Freed(front, back, limit, fd) == []
      else after == Messages(front, fd) && Freed(front, back, limit, fd) == Messages(back, fd)
  {
    SwitchedMessages(front, back, limit, fd);
  }

  lemma SwitchKeepsPending(front: SendMap, back: SendMap, limit: nat, fd: int, time: int)
    requires !Overflows(front, back, limit, fd)
    ensures var (front', back') := Switch(front, back, limit);
      PendingAt(back', fd, time) + PendingAt(front', fd, time) == PendingAt(back, fd, time) + PendingAt(front, fd, time)
  {
    if front != map[] {
      SwitchedMessages(front, back, limit, fd);
      PendingAppend(Messages(back, fd), Messages(front, fd), fd, time);
    }
  }

  // ----- Draining ---------------------------------------------------------

  /** doSendMessage's loop over one list: what stays, what went onto the wire,
      and -1 for a send error. */
  datatype Drained = Drained(code: int, rest: seq<Msg>, wire: seq<byte>)

  function Drain(ms: seq<Msg>, fd: int, time: int, script: seq<SendReply>): Drained {
    if ms == [] then Drained(1, [], [])
    else
      var m := ms[0];
      if !Matches(m, fd, time) then Drain(ms[1..], fd, time, script)
      else
        var r := SendAll(|m.bytes|, script);
        if r.code < 0 then Drained(-1, [], m.bytes[..r.count])
        else if r.code == 0 then
          var cut := if |m.bytes| - r.count > 0 then [m.(bytes := m.bytes[r.count..])] else [];
          Drained(1, cut + ms[1..], m.bytes[..r.count])
        else
          var d := Drain(ms[1..], fd, time, r.rest);
          d.(wire := m.bytes + d.wire)
  }

  /** Cutting the sent bytes off the first message, as the memmove does. */
  lemma PendingAfterPart(ms: seq<Msg>, fd: int, time: int, count: nat)
    requires ms != [] && Matches(ms[0], fd, time) && count < |ms[0].bytes|
    ensures ms[0].bytes[..count] + Pending([ms[0].(bytes := ms[0].bytes[count..])] + ms[1..], fd, time) ==
      Pending(ms, fd, time)
  {
    var cut := ms[0].(bytes := ms[0].bytes[count..]);
    assert ([cut] + ms[1..])[1..] == ms[1..];
    assert ms[0].bytes[..count] + cut.bytes == ms[0].bytes;
    Associate(ms[0].bytes[..count], cut.bytes, Pending(ms[1..], fd, time));
  }

  /** Without an error, the bytes put on the wire followed by those still pending
      are the bytes that were pending; with one, the wire got a prefix of them. */
  ghost predicate Faithful(d: Drained, before: seq<byte>, fd: int, time: int) {
    if d.code >= 0 then d.wire + Pending(d.rest, fd, time) == before
    else d.rest == [] && d.wire <= before
  }

  lemma {:induction false} DrainIsFaithful(ms: seq<Msg>, fd: int, time: int, script: seq<SendReply>)
    ensures Faithful(Drain(ms, fd, time, script), Pending(ms, fd, time), fd, time)
  {
    if ms != [] {
      var m, more := ms[0], Pending(ms[1..], fd, time);
      if !Matches(m, fd, time) {
        DrainIsFaithful(ms[1..], fd, time, script);
        assert [] + more == more;
      } else {
        var r := SendAll(|m.bytes|, script);
        if r.code < 0 {
          PrefixOfSum(m.bytes, more, r.count);
        } else if r.code == 0 {
          PendingAfterPart(ms, fd, time, r.count);
        } else {
          DrainIsFaithful(ms[1..], fd, time, r.rest);
          FaithfulAfterWhole(m.bytes, Drain(ms[1..], fd, time, r.rest), more, fd, time);
        }
      }
    }
  }

  lemma PrefixOfSum(a: seq<byte>, b: seq<byte>, n: nat)
    requires n <= |a|
    ensures a[..n] <= a + b
  {}

  lemma FaithfulAfterWhole(whole: seq<byte>, d: Drained, before: seq<byte>, fd: int, time: int)
    requires Faithful(d, before, fd, time)
    ensures Faithful(d.(wire := whole + d.wire), whole + before, fd, time)
  {
    if d.code >= 0 {
      Associate(whole, d.wire, Pending(d.rest, fd, time));
    } else {
      assert (whole + before)[..|whole + d.wire|] == whole + before[..|d.wire|];
    }
  }

  /** The list from its k-th message on, whose first n bytes are gone. */
  function Cut(ms: seq<Msg>, k: nat, n: nat): seq<Msg>
    requires k < |ms| && n <= |ms[k].bytes|
  {
    [ms[k].(bytes := ms[k].bytes[n..])] + ms[k + 1..]
  }

  /** What stays of a list is its end, from an unfinished message of the connection's
      own on; all before has left it. After an error nothing stays. */
  lemma {:induction false} DrainLeaves(ms: seq<Msg>, fd: int, time: int, script: seq<SendReply>)
      returns (k: nat, n: nat)
    ensures var d := Drain(ms, fd, time, script);
      d.rest != [] ==>
        d.code >= 0 && k < |ms| && Matches(ms[k], fd, time) && n < |ms[k].bytes| && d.rest == Cut(ms, k, n)
  {
    k, n := 0, 0;
    if ms != [] {
      if !Matches(ms[0], fd, time) {
        k, n := DrainLeaves(ms[1..], fd, time, script);
        k := k + 1;
      } else {
        var r := SendAll(|ms[0].bytes|, script);
        if r.code == 0 {
          n := r.count;
        } else if r.code == 1 {
          k, n := DrainLeaves(ms[1..], fd, time, r.rest);
          k := k + 1;
        }
      }
    }
  }

  // ----- When a drain fails -----------------------------------------------

  /** The lengths of the queued messages that go to this connection. */
  function OwnLengths(ms: seq<Msg>, fd: int, time: int): seq<nat> {
    if ms == [] then []
    else (if Matches(ms[0], fd, time) then [|ms[0].bytes|] else []) + OwnLengths(ms[1..], fd, time)
  }

  /** Reply by reply: the kernel reports an error while something is still to be
      sent, and before it reports that it is busy. */
  predicate Breaks(lens: seq<nat>, script: seq<SendReply>)
    decreases |script|, |lens|
  {
    if lens == [] then false
    else if lens[0] == 0 then Breaks(lens[1..], script)
    else if script == [] then false
    else
      match script[0]
      case Moved(n) => Breaks([lens[0] - Min(n, lens[0])] + lens[1..], script[1..])
      case SendInterrupted => Breaks(lens, script[1..])
      case SendBlocked => false
      case SendFailed => true
  }

  lemma {:induction false} BreaksInTurn(len: nat, lens: seq<nat>, script: seq<SendReply>)
    ensures var r := SendAll(len, script);
      Breaks([len] + lens, script) <==> r.code < 0 || (r.code == 1 && Breaks(lens, r.rest))
    decreases |script|
  {
    var all := [len] + lens;
    assert all[1..] == lens;
    if len > 0 && script != [] {
      match script[0]
      case Moved(n) => BreaksInTurn(len - Min(n, len), lens, script[1..]);
      case SendInterrupted => BreaksInTurn(len, lens, script[1..]);
      case _ =>
    }
  }

  lemma {:induction false} DrainFailsExactly(ms: seq<Msg>, fd: int, time: int, script: seq<SendReply>)
    ensures Drain(ms, fd, time, script).code < 0 <==> Breaks(OwnLengths(ms, fd, time), script)
  {
    if ms != [] {
      var more := OwnLengths(ms[1..], fd, time);
      if Matches(ms[0], fd, time) {
        var r := SendAll(|ms[0].bytes|, script);
        BreaksInTurn(|ms[0].bytes|, more, script);
        DrainFailsExactly(ms[1..], fd, time, r.rest);
      } else {
        DrainFailsExactly(ms[1..], fd, time, script);
        assert [] + more == more;
      }
    }
  }

  // ----- How much a drain sends -------------------------------------------

  /** Reply by reply: the bytes moved before the kernel fails or is busy. */
  function Flow(lens: seq<nat>, script: seq<SendReply>): nat
    decreases |script|, |lens|
  {
    if lens == [] then 0
    else if lens[0] == 0 then Flow(lens[1..], script)
    else if script == [] then 0
    else
      match script[0]
      case Moved(n) => Min(n, lens[0]) + Flow([lens[0] - Min(n, lens[0])] + lens[1..], script[1..])
      case SendInterrupted => Flow(lens, script[1..])
      case _ => 0
  }

  lemma {:induction false} FlowInTurn(len: nat, lens: seq<nat>, script: seq<SendReply>)
    ensures var r := SendAll(len, script);
      Flow([len] + lens, script) == r.count + if r.code == 1 then Flow(lens, r.rest) else 0
    decreases |script|
  {
    var all := [len] + lens;
    assert all[1..] == lens;
    if len > 0 && script != [] {
      match script[0]
      case Moved(n) => FlowInTurn(len - Min(n, len), lens, script[1..]);
      case SendInterrupted => FlowInTurn(len, lens, script[1..]);
      case _ =>
    }
  }

  /** What a drain puts on the wire is as much as the kernel's replies moved. */
  lemma {:induction false} DrainMovesExactly(ms: seq<Msg>, fd: int, time: int, script: seq<SendReply>)
    ensures |Drain(ms, fd, time, script).wire| == Flow(OwnLengths(ms, fd, time), script)
  {
    if ms != [] {
      var more := OwnLengths(ms[1..], fd, time);
      if Matches(ms[0], fd, time) {
        FlowInTurn(|ms[0].bytes|, more, script);
        DrainMovesExactly(ms[1..], fd, time, SendAll(|ms[0].bytes|, script).rest);
      } else {
        DrainMovesExactly(ms[1..], fd, time, script);
        assert [] + more == more;
      }
    }
  }

  function Total(lens: seq<nat>): nat {
    if lens == [] then 0 else lens[0] + Total(lens[1..])
  }

  /** No call moved more than it was asked to, as send(2) promises. */
  predicate Asked(lens: seq<nat>, script: seq<SendReply>)
    decreases |script|, |lens|
  {
    if lens == [] then true
    else if lens[0] == 0 then Asked(lens[1..], script)
    else if script == [] then true
    else
      match script[0]
      case Moved(n) => n <= lens[0] && Asked([lens[0] - n] + lens[1..], script[1..])
      case SendInterrupted => Asked(lens, script[1..])
      case _ => true
  }

  /** On such a kernel the messages and the replies used, used, tell the whole story:
      the bytes moved are those the replies moved; the drain fails exactly when the
      last of them is an error; and it ends with everything sent, at a reply that
      stops it, or at the last. */
  ghost predicate DrainOutcome(lens: seq<nat>, script: seq<SendReply>, used: seq<SendReply>) {
    && used <= script && Calls(Total(lens), used) && Flow(lens, script) == MovedBy(used) <= Total(lens)
    && (Breaks(lens, script) <==> used != [] && used[|used| - 1].SendFailed?)
    && (|| MovedBy(used) == Total(lens) || used == script
        || (used != [] && (used[|used| - 1].SendBlocked? || used[|used| - 1].SendFailed?)))
  }

  lemma {:induction false} FlowExactly(lens: seq<nat>, script: seq<SendReply>) returns (used: seq<SendReply>)
    requires Asked(lens, script)
    ensures DrainOutcome(lens, script, used)
    decreases |script|, |lens|
  {
    used := [];
    if lens == [] || (lens[0] > 0 && script == []) {
    } else if lens[0] == 0 {
      used := FlowExactly(lens[1..], script);
    } else {
      var reply, tail := script[0], script[1..];
      assert script == [reply] + tail;
      if reply.Moved? || reply.SendInterrupted? {
        var left := [lens[0] - if reply.Moved? then reply.count else 0] + lens[1..];
        assert left[1..] == lens[1..];
        assert reply.SendInterrupted? ==> left == lens;
        var more := FlowExactly(left, tail);
        OutcomeGoesOn(lens, left, reply, tail, more);
        used := [reply] + more;
      } else {
        MovedByStep(reply, []);
        used := [reply] + [];
        assert used == [reply] && Calls(Total(lens), used);
      }
    }
  }

  lemma OutcomeGoesOn(lens: seq<nat>, left: seq<nat>, reply: SendReply, tail: seq<SendReply>, more: seq<SendReply>)
    requires lens != [] && lens[0] > 0 && (reply.Moved? || reply.SendInterrupted?) && DrainOutcome(left, tail, more)
    requires var m := if reply.Moved? then reply.count else 0; m <= lens[0] && left == [lens[0] - m] + lens[1..]
    ensures DrainOutcome(lens, [reply] + tail, [reply] + more)
  {
    var all := [reply] + tail;
    assert all[0] == reply && all[1..] == tail && left[1..] == lens[1..];
    assert reply.SendInterrupted? ==> left == lens;
    CallsStep(Total(lens), reply, more);
    MovedByStep(reply, more);
    assert more != [] ==> ([reply] + more)[|more|] == more[|more| - 1];
  }
}
