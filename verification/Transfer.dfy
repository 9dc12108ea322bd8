/** The partial-transfer loops of netcommon.cpp. The kernel is a script of
    replies, one per system call; a script that runs out means EAGAIN. */
module Transfer {
  import opened Bytes

  datatype SendReply = Moved(count: nat) | SendInterrupted | SendBlocked | SendFailed

  /** send_msg's result (1 all sent, 0 blocked, -1 error), the bytes moved and
      the replies not yet used. */
  datatype Sent = Sent(code: int, count: nat, rest: seq<SendReply>)

  function Min(a: nat, b: nat): nat {
    if a < b then a else b
  }

  function SendAll(len: nat, script: seq<SendReply>): (r: Sent)
    ensures r.code in {1, 0, -1} && r.count <= len
    ensures r.code == 1 <==> r.count == len
    decreases |script|
  {
    if len == 0 then Sent(1, 0, script)
    else if script == [] then Sent(0, 0, [])
    else
      match script[0]
      case Moved(n) =>
        var m := Min(n, len);
        var r := SendAll(len - m, script[1..]);
        r.(count := m + r.count)
      case SendInterrupted => SendAll(len, script[1..])
      case SendBlocked => Sent(0, 0, script[1..])
      case SendFailed => Sent(-1, 0, script[1..])
  }

  method SendMsg(len: nat, script: seq<SendReply>) returns (r: Sent)
    ensures r == SendAll(len, script)
  {
    var n: nat, p: nat, i := len, 0, 0;
    var code := 1;
    while n > 0
      invariant p + n == len && 0 <= n && i <= |script|
      invariant SendAll(len, script) == SendAll(n, script[i..]).(count := p + SendAll(n, script[i..]).count)
      invariant code == 1
      decreases |script| - i
    {
      if i == |script| {
        code := 0;
        break;
      }
      var reply := script[i];
      assert script[i..][1..] == script[i + 1..];
      i := i + 1;
      match reply {
        case SendInterrupted => continue;
        case SendBlocked =>
          code := 0;
          break;
        case SendFailed =>
          code := -1;
          break;
        case Moved(count) =>
          var m := Min(count, n);
          n, p := n - m, p + m;
      }
    }
    r := Sent(code, p, script[i..]);
  }

  datatype RecvReply = Got(bytes: seq<byte>) | RecvInterrupted | RecvBlocked | RecvFailed

  /** recv_msg's result (2 buffer full, 1 blocked, 0 closed by the peer, -1
      error), the bytes received and the replies not yet used. */
  datatype Received = Received(code: int, bytes: seq<byte>, rest: seq<RecvReply>)

  function RecvAll(room: nat, script: seq<RecvReply>): (r: Received)
    ensures r.code in {2, 1, 0, -1} && |r.bytes| <= room && |r.rest| <= |script|
    ensures r.code == 2 <==> |r.bytes| == room
    ensures r.code == 2 && room > 0 ==> |r.rest| < |script|
    decreases |script|
  {
    if room == 0 then Received(2, [], script)
    else if script == [] then Received(1, [], [])
    else
      match script[0]
      case Got(bytes) =>
        if bytes == [] then Received(0, [], script[1..])
        else
          var m := bytes[..Min(|bytes|, room)];
          var r := RecvAll(room - |m|, script[1..]);
          r.(bytes := m + r.bytes)
      case RecvInterrupted => RecvAll(room, script[1..])
      case RecvBlocked => Received(1, [], script[1..])
      case RecvFailed => Received(-1, [], script[1..])
  }

  method RecvMsg(buf: array<byte>, at: nat, room: nat, script: seq<RecvReply>)
      returns (code: int, count: nat, rest: seq<RecvReply>)
    requires at + room <= buf.Length
    modifies buf
    ensures count <= room && Received(code, buf[at..at + count], rest) == RecvAll(room, script)
    ensures buf[..at] == old(buf[..at])
  {
    var n: nat, p, i := room, at, 0;
    ghost var got: seq<byte> := [];
    assert script[0..] == script && Prepend([], RecvAll(room, script)) == RecvAll(room, script);
    code := 2;
    while n > 0
      invariant p + n == at + room && at <= p && i <= |script| && code == 2
      invariant buf[..at] == old(buf[..at])
      invariant buf[at..p] == got && RecvAll(room, script) == Prepend(got, RecvAll(n, script[i..]))
      decreases |script| - i
    {
      if i == |script| {
        code := 1;
        break;
      }
      var reply := script[i];
      assert script[i..][1..] == script[i + 1..];
      i := i + 1;
      match reply {
        case RecvInterrupted => continue;
        case RecvBlocked =>
          code := 1;
          break;
        case RecvFailed =>
          code := -1;
          break;
        case Got(bytes) =>
          if bytes == [] {
            code := 0;
            break;
          }
          ghost var m := bytes[..Min(|bytes|, n)];
          Associate(got, m, RecvAll(n - |m|, script[i..]).bytes);
          p, n := Take(buf, at, p, n, bytes);
          got := got + m;
      }
    }
    assert got + [] == got;
    count, rest := p - at, script[i..];
  }

  function Prepend(got: seq<byte>, r: Received): Received {
    r.(bytes := got + r.bytes)
  }

  /** One recv into the buffer. */
  method Take(buf: array<byte>, at: nat, p: nat, n: nat, bytes: seq<byte>) returns (p': nat, n': nat)
    requires at <= p && p + n <= buf.Length
    modifies buf
    ensures var m := bytes[..Min(|bytes|, n)];
      p' == p + |m| && n' == n - |m| && buf[at..p'] == old(buf[at..p]) + m
    ensures buf[..at] == old(buf[..at])
  {
    var m := Min(|bytes|, n);
    forall k | 0 <= k < m {
      buf[p + k] := bytes[k];
    }
    p', n' := p + m, n - m;
  }

  // ----- What the kernel did ----------------------------------------------

  /** The bytes that some replies moved between them. */
  function MovedBy(replies: seq<SendReply>): nat {
    if replies == [] then 0 else (if replies[0].Moved? then replies[0].count else 0) + MovedBy(replies[1..])
  }

  /** Calls are made while bytes are left, and none after one that blocks or fails. */
  ghost predicate Calls(len: nat, used: seq<SendReply>) {
    forall k :: 0 <= k < |used| ==>
      MovedBy(used[..k]) < len && (k < |used| - 1 ==> used[k].Moved? || used[k].SendInterrupted?)
  }

  /** send_msg uses up some replies, used, and has moved what these moved, but no
      more than asked. It reports an error exactly when the last of them is one,
      and that it is blocked when bytes are left otherwise. */
  ghost predicate SendOutcome(len: nat, script: seq<SendReply>, r: Sent, used: seq<SendReply>) {
    && script == used + r.rest && Calls(len, used) && r.count == Min(len, MovedBy(used))
    && (r.code == 1 <==> r.count == len)
    && (r.code == -1 <==> used != [] && used[|used| - 1].SendFailed?)
    && (r.code == 0 <==> r.count < len && (used == [] || !used[|used| - 1].SendFailed?))
    && (r.code == 0 ==> (used != [] && used[|used| - 1].SendBlocked?) || r.rest == [])
  }

  lemma MovedByStep(reply: SendReply, more: seq<SendReply>)
    ensures MovedBy([reply] + more) == (if reply.Moved? then reply.count else 0) + MovedBy(more)
  {
    assert ([reply] + more)[1..] == more;
  }

  lemma CallsStep(len: nat, reply: SendReply, used: seq<SendReply>)
    requires len > 0
    requires if reply.Moved? then Calls(len - Min(reply.count, len), used)
             else if reply.SendInterrupted? then Calls(len, used) else used == []
    ensures Calls(len, [reply] + used)
  {
    var all := [reply] + used;
    forall k | 0 <= k < |all|
      ensures MovedBy(all[..k]) < len && (k < |all| - 1 ==> all[k].Moved? || all[k].SendInterrupted?)
    {
      if k > 0 {
        assert all[..k] == [reply] + used[..k - 1];
        MovedByStep(reply, used[..k - 1]);
        assert MovedBy(used[..k - 1]) < len && all[k] == used[k - 1];
      }
    }
  }

  lemma {:induction false} SendAllExactly(len: nat, script: seq<SendReply>) returns (used: seq<SendReply>)
    ensures SendOutcome(len, script, SendAll(len, script), used)
    decreases |script|
  {
    used := [];
    if len > 0 && script != [] {
      var reply, tail := script[0], script[1..];
      assert script == [reply] + tail;
      if reply.Moved? || reply.SendInterrupted? {
        var more := SendAllExactly(len - if reply.Moved? then Min(reply.count, len) else 0, tail);
        SendTurn(len, reply, tail, more);
        used := [reply] + more;
      } else {
        SendStops(len, reply, tail);
        used := [reply];
      }
    } else {
      assert [] + script == script;
    }
  }

  lemma SendTurn(len: nat, reply: SendReply, tail: seq<SendReply>, more: seq<SendReply>)
    requires len > 0 && (reply.Moved? || reply.SendInterrupted?)
    requires var left := len - if reply.Moved? then Min(reply.count, len) else 0;
      SendOutcome(left, tail, SendAll(left, tail), more)
    ensures SendOutcome(len, [reply] + tail, SendAll(len, [reply] + tail), [reply] + more)
  {
    var left := len - if reply.Moved? then Min(reply.count, len) else 0;
    SendGoesOn(len, reply, tail, SendAll(left, tail), more);
    SendAllStep(len, reply, tail);
  }

  lemma SendAllStep(len: nat, reply: SendReply, tail: seq<SendReply>)
    requires len > 0 && (reply.Moved? || reply.SendInterrupted?)
    ensures var m := if reply.Moved? then Min(reply.count, len) else 0;
      var next := SendAll(len - m, tail);
      SendAll(len, [reply] + tail) == next.(count := m + next.count)
  {
    assert ([reply] + tail)[1..] == tail;
  }

  lemma SendGoesOn(len: nat, reply: SendReply, tail: seq<SendReply>, next: Sent, used: seq<SendReply>)
    requires len > 0 && (reply.Moved? || reply.SendInterrupted?)
    requires var m := if reply.Moved? then Min(reply.count, len) else 0; SendOutcome(len - m, tail, next, used)
    ensures var m := if reply.Moved? then Min(reply.count, len) else 0;
      SendOutcome(len, [reply] + tail, next.(count := m + next.count), [reply] + used)
  {
    CallsStep(len, reply, used);
    MovedByStep(reply, used);
    Associate([reply], used, next.rest);
    assert used != [] ==> ([reply] + used)[|used|] == used[|used| - 1];
  }

  lemma SendStops(len: nat, reply: SendReply, tail: seq<SendReply>)
    requires len > 0 && (reply.SendBlocked? || reply.SendFailed?)
    ensures SendOutcome(len, [reply] + tail, Sent(if reply.SendFailed? then -1 else 0, 0, tail), [reply])
    ensures SendOutcome(len, [reply] + tail, SendAll(len, [reply] + tail), [reply])
  {
    assert ([reply] + tail)[1..] == tail;
    assert [reply] + [] == [reply];
    CallsStep(len, reply, []);
    MovedByStep(reply, []);
  }

  /** The bytes that some replies brought between them. */
  function Brought(replies: seq<RecvReply>): seq<byte> {
    if replies == [] then [] else (if replies[0].Got? then replies[0].bytes else []) + Brought(replies[1..])
  }

  /** A reply that ends the reading of a connection for good. */
  predicate HangUp(reply: RecvReply) {
    reply.RecvFailed? || reply == Got([])
  }

  predicate GoesOn(reply: RecvReply) {
    reply.RecvInterrupted? || (reply.Got? && reply.bytes != [])
  }

  /** Calls are made while there is room, and none after one that brings nothing. */
  ghost predicate Reads(room: nat, used: seq<RecvReply>) {
    forall k :: 0 <= k < |used| ==> |Brought(used[..k])| < room && (k < |used| - 1 ==> GoesOn(used[k]))
  }

  /** recv_msg uses up some replies, used, and has received what these brought, as
      far as there was room. The code says whether the room was filled, and else
      what the last reply was. */
  ghost predicate RecvOutcome(room: nat, script: seq<RecvReply>, r: Received, used: seq<RecvReply>) {
    && script == used + r.rest && Reads(room, used)
    && r.bytes == Brought(used)[..Min(room, |Brought(used)|)]
    && (r.code == 2 <==> |r.bytes| == room)
    && (r.code == -1 <==> used != [] && used[|used| - 1].RecvFailed?)
    && (r.code == 0 <==> used != [] && used[|used| - 1] == Got([]))
    && (r.code == 1 <==> |r.bytes| < room && (used == [] || !HangUp(used[|used| - 1])))
    && (r.code == 1 ==> (used != [] && used[|used| - 1].RecvBlocked?) || r.rest == [])
  }

  lemma BroughtStep(reply: RecvReply, more: seq<RecvReply>)
    ensures Brought([reply] + more) == (if reply.Got? then reply.bytes else []) + Brought(more)
  {
    assert ([reply] + more)[1..] == more;
  }

  lemma ReadsStep(room: nat, reply: RecvReply, used: seq<RecvReply>)
    requires room > 0
    requires if GoesOn(reply)
      then Reads(room - Min(if reply.Got? then |reply.bytes| else 0, room), used) else used == []
    ensures Reads(room, [reply] + used)
  {
    var all := [reply] + used;
    forall k | 0 <= k < |all| ensures |Brought(all[..k])| < room && (k < |all| - 1 ==> GoesOn(all[k])) {
      if k > 0 {
        assert all[..k] == [reply] + used[..k - 1];
        BroughtStep(reply, used[..k - 1]);
        assert all[k] == used[k - 1];
      }
    }
  }

  lemma FirstBytes(a: seq<byte>, b: seq<byte>, room: nat)
    ensures a[..Min(|a|, room)] + b[..Min(room - Min(|a|, room), |b|)] == (a + b)[..Min(room, |a + b|)]
  {}

  lemma {:induction false} RecvAllExactly(room: nat, script: seq<RecvReply>) returns (used: seq<RecvReply>)
    ensures RecvOutcome(room, script, RecvAll(room, script), used)
    decreases |script|
  {
    used := [];
    if room > 0 && script != [] {
      var reply, tail := script[0], script[1..];
      assert script == [reply] + tail;
      if GoesOn(reply) {
        var more := RecvAllExactly(room - |Fitting(reply, room)|, tail);
        RecvTurn(room, reply, tail, more);
        used := [reply] + more;
      } else {
        RecvStops(room, reply, tail);
        used := [reply];
      }
    } else {
      assert [] + script == script;
    }
  }

  lemma RecvTurn(room: nat, reply: RecvReply, tail: seq<RecvReply>, more: seq<RecvReply>)
    requires room > 0 && GoesOn(reply)
    requires var left := room - |Fitting(reply, room)|; RecvOutcome(left, tail, RecvAll(left, tail), more)
    ensures RecvOutcome(room, [reply] + tail, RecvAll(room, [reply] + tail), [reply] + more)
  {
    RecvGoesOn(room, reply, tail, RecvAll(room - |Fitting(reply, room)|, tail), more);
    RecvAllStep(room, reply, tail);
  }

  lemma RecvAllStep(room: nat, reply: RecvReply, tail: seq<RecvReply>)
    requires room > 0 && GoesOn(reply)
    ensures var m := Fitting(reply, room); var next := RecvAll(room - |m|, tail);
      RecvAll(room, [reply] + tail) == next.(bytes := m + next.bytes)
  {
    assert ([reply] + tail)[1..] == tail;
    var next := RecvAll(room, tail);
    assert [] + next.bytes == next.bytes;
  }

  /** What one reply brings into the room there is. */
  function Fitting(reply: RecvReply, room: nat): (m: seq<byte>)
    ensures |m| <= room
  {
    if reply.Got? then reply.bytes[..Min(|reply.bytes|, room)] else []
  }

  lemma RecvGoesOn(room: nat, reply: RecvReply, tail: seq<RecvReply>, next: Received, used: seq<RecvReply>)
    requires room > 0 && GoesOn(reply) && RecvOutcome(room - |Fitting(reply, room)|, tail, next, used)
    ensures RecvOutcome(room, [reply] + tail, next.(bytes := Fitting(reply, room) + next.bytes), [reply] + used)
  {
    ReadsStep(room, reply, used);
    BroughtStep(reply, used);
    FirstBytes(if reply.Got? then reply.bytes else [], Brought(used), room);
    Associate([reply], used, next.rest);
    assert used != [] ==> ([reply] + used)[|used|] == used[|used| - 1];
  }

  lemma RecvStops(room: nat, reply: RecvReply, tail: seq<RecvReply>)
    requires room > 0 && !GoesOn(reply)
    ensures RecvOutcome(room, [reply] + tail,
      Received(if reply.RecvFailed? then -1 else if reply.RecvBlocked? then 1 else 0, [], tail), [reply])
    ensures RecvOutcome(room, [reply] + tail, RecvAll(room, [reply] + tail), [reply])
  {
    assert ([reply] + tail)[1..] == tail;
    assert [reply] + [] == [reply];
    ReadsStep(room, reply, []);
    BroughtStep(reply, []);
  }
}
