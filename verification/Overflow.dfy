/** Runs of honest senders in which switching the send maps overflows a list. */
module Overflow {
  import opened Bytes
  import opened SendPath
  import opened Engine
  import opened Runs
  import opened Wires

  /** Lists hold two messages. */
  const SMALL := Config(10, 2, 10, 10, 4096, 60)

  /** One-byte messages for generation 2 on descriptor 5. */
  function Bunch(bs: seq<byte>): (ms: seq<Msg>)
    ensures |ms| == |bs| && forall i :: 0 <= i < |ms| ==> ms[i] == Msg(2, 5, 2, [bs[i]])
  {
    seq(|bs|, i requires 0 <= i < |bs| => Msg(2, 5, 2, [bs[i]]))
  }

  function Lists(bs: seq<byte>): SendMap {
    if bs == [] then map[] else map[5 := List(Bunch(bs))]
  }

  lemma {:induction false} BunchMeans(bs: seq<byte>)
    ensures Pending(Bunch(bs), 5, 2) == bs && Meant(Bunch(bs), 2) == bs
  {
    if bs != [] {
      BunchMeans(bs[1..]);
      assert Bunch(bs)[1..] == Bunch(bs[1..]) && [bs[0]] + bs[1..] == bs;
    }
  }

  /** One client to which nothing was sent yet, and these messages queued and accepted. */
  ghost predicate IsClient(s: State, front: seq<byte>, back: seq<byte>, accepted: seq<byte>) {
    && s.issued == 2 && s.table == map[5 := Conn(2, 2, CLIENT_TYPE, [], 0, [])]
    && s.out == Outgoing(Lists(front), Lists(back)) && s.hist.accepted == Bunch(accepted)
  }

  lemma ClientIsCurrent(s: State, front: seq<byte>, back: seq<byte>, accepted: seq<byte>)
    requires IsClient(s, front, back, accepted)
    ensures Current(s) && Sound(s)
  {
    forall fd ensures Messages(s.out.front, fd) == if fd == 5 then Bunch(front) else [] {}
    forall fd ensures Messages(s.out.back, fd) == if fd == 5 then Bunch(back) else [] {}
  }

  lemma ClientHas(s: State, front: seq<byte>, back: seq<byte>, accepted: seq<byte>)
    requires IsClient(s, front, back, accepted)
    ensures 5 in s.table && s.table[5].gen == s.table[5].time == 2 && s.table[5].wire == []
    ensures PendingAt(s.out.back, 5, 2) == back && PendingAt(s.out.front, 5, 2) == front
    ensures |Messages(s.out.back, 5)| == |back| && Meant(s.hist.accepted, 2) == accepted
  {
    BunchMeans(front);
    BunchMeans(back);
    BunchMeans(accepted);
  }

  ghost predicate Holds(steps: seq<Step>, front: seq<byte>, back: seq<byte>, accepted: seq<byte>) {
    Wellrun({}, SMALL, steps) && IsClient(Run({}, SMALL, steps), front, back, accepted)
  }

  lemma Extend(steps: seq<Step>, step: Step)
    requires Wellrun({}, SMALL, steps) && (step.Enqueue? ==> Honest(Run({}, SMALL, steps), step.m))
    requires Current(Apply(Run({}, SMALL, steps), SMALL, step))
    ensures Wellrun({}, SMALL, steps + [step])
    ensures Run({}, SMALL, steps + [step]) == Apply(Run({}, SMALL, steps), SMALL, step)
  {
    RunOn({}, SMALL, steps, step);
    StaysCurrent(steps, step);
    StaysHonest(steps, step);
  }

  lemma StaysCurrent(steps: seq<Step>, step: Step)
    requires Wellrun({}, SMALL, steps) && Current(Run({}, SMALL, steps + [step]))
    ensures forall k :: 0 <= k <= |steps| + 1 ==> Current(Run({}, SMALL, (steps + [step])[..k]))
  {
    var more := steps + [step];
    forall k | 0 <= k <= |more| ensures Current(Run({}, SMALL, more[..k])) {
      assert more[..k] == if k <= |steps| then steps[..k] else more;
    }
  }

  lemma StaysHonest(steps: seq<Step>, step: Step)
    requires Wellrun({}, SMALL, steps) && (step.Enqueue? ==> Honest(Run({}, SMALL, steps), step.m))
    ensures var more := steps + [step];
      forall k :: 0 <= k < |more| && more[k].Enqueue? ==> Honest(Run({}, SMALL, more[..k]), more[k].m)
  {
    var more := steps + [step];
    assert steps[..|steps|] == steps;
    forall k | 0 <= k < |more| && more[k].Enqueue? ensures Honest(Run({}, SMALL, more[..k]), more[k].m) {
      assert more[..k] == steps[..k];
      assert k < |steps| ==> more[k] == steps[k];
    }
  }

  lemma Start() returns (steps: seq<Step>)
    ensures Holds(steps, [], [], [])
  {
    steps := [];
    var step, s := Accept(5, true, true, 0), Initial({});
    var t := Announce(s, 5, CLIENT_TYPE);
    assert CanInsert(t, SMALL, 5, true);
    var u := Insert(OpenFd(t, 5), 5, CLIENT_TYPE, 0);
    assert AcceptStep(s, SMALL, 5, true, true, 0) == u;
    ClientIsCurrent(u, [], [], []);
    Extend(steps, step);
    steps := steps + [step];
  }

  lemma AddedIs(front: seq<byte>, b: byte)
    requires |front| < 2
    ensures AddMsg(Lists(front), SMALL.maxSend, Msg(2, 5, 2, [b])) == (Lists(front + [b]), true)
  {
    var m := Msg(2, 5, 2, [b]);
    assert Bunch(front + [b]) == Bunch(front) + [m];
    assert front == [] ==> Bunch(front) + [m] == [m];
    assert Lists(front)[5 := List(Bunch(front + [b]))] == Lists(front + [b]);
  }

  lemma Queue(steps: seq<Step>, front: seq<byte>, back: seq<byte>, accepted: seq<byte>, b: byte)
      returns (more: seq<Step>)
    requires Holds(steps, front, back, accepted) && |front| < 2
    ensures Holds(more, front + [b], back, accepted + [b])
  {
    var step := Enqueue(Msg(2, 5, 2, [b]));
    AddedIs(front, b);
    assert Bunch(accepted + [b]) == Bunch(accepted) + [Msg(2, 5, 2, [b])];
    var t := EnqueueStep(Run({}, SMALL, steps), SMALL, step.m);
    ClientIsCurrent(t, front + [b], back, accepted + [b]);
    Extend(steps, step);
    more := steps + [step];
  }

  /** The back list after a switch. */
  function Joined(front: seq<byte>, back: seq<byte>): seq<byte> {
    if back == [] || |front| + |back| <= 2 then back + front else if |front| < 2 then front + back else front
  }

  lemma MapsSwitched(front: seq<byte>, back: seq<byte>)
    requires front != []
    ensures Switch(Lists(front), Lists(back), SMALL.maxSend) == (map[], Lists(Joined(front, back)))
  {
    var f, b, maps := Lists(front), Lists(back), Switch(Lists(front), Lists(back), SMALL.maxSend);
    assert 5 in f;
    assert SwitchedKeys(f, b) == {5};
    assert maps.1 == map[5 := SwitchedEntry(f, b, SMALL.maxSend, 5)];
    EntryIs(front, back);
  }

  lemma EntryIs(front: seq<byte>, back: seq<byte>)
    requires front != [] && 5 in SwitchedKeys(Lists(front), Lists(back))
    ensures SwitchedEntry(Lists(front), Lists(back), SMALL.maxSend, 5) == List(Bunch(Joined(front, back)))
  {
    assert Bunch(back + front) == Bunch(back) + Bunch(front) && Bunch(front + back) == Bunch(front) + Bunch(back);
    assert back == [] ==> back + front == front;
  }

  lemma Turn(steps: seq<Step>, front: seq<byte>, back: seq<byte>, accepted: seq<byte>) returns (more: seq<Step>)
    requires Holds(steps, front, back, accepted) && front != []
    ensures Holds(more, [], Joined(front, back), accepted)
  {
    MapsSwitched(front, back);
    var s := Run({}, SMALL, steps);
    var t := SwitchStep(s, SMALL);
    assert t.out == Outgoing(map[], Lists(Joined(front, back)));
    ClientIsCurrent(t, [], Joined(front, back), accepted);
    assert Apply(s, SMALL, SwitchMaps) == t;
    Extend(steps, SwitchMaps);
    more := steps + [SwitchMaps];
  }

  /** Two messages in the back list, one in front. */
  lemma TwoOlder(x: byte, y: byte, z: byte) returns (steps: seq<Step>)
    ensures Holds(steps, [z], [x, y], [x, y, z])
  {
    steps := Start();
    steps := Queue(steps, [], [], [], x);
    assert [] + [x] == [x];
    steps := Queue(steps, [x], [], [x], y);
    assert [x] + [y] == [x, y];
    steps := Turn(steps, [x, y], [], [x, y]);
    assert [] + [x, y] == [x, y];
    steps := Queue(steps, [], [x, y], [x, y], z);
    assert [x, y] + [z] == [x, y, z] && [] + [z] == [z];
  }

  /** A run in which an overflow puts the newest message first and exceeds the cap. */
  lemma OverflowReorders(x: byte, y: byte, z: byte) returns (steps: seq<Step>)
    ensures Wellrun({}, SMALL, steps)
    ensures var s := Run({}, SMALL, steps);
      && 5 in s.table && s.table[5].gen == s.table[5].time == 2 && s.table[5].wire == []
      && PendingAt(s.out.back, 5, 2) == [z, x, y] && PendingAt(s.out.front, 5, 2) == []
      && Meant(s.hist.accepted, 2) == [x, y, z] && |Messages(s.out.back, 5)| > SMALL.maxSend
  {
    steps := TwoOlder(x, y, z);
    steps := Turn(steps, [z], [x, y], [x, y, z]);
    assert [z] + [x, y] == [z, x, y];
    ClientHas(Run({}, SMALL, steps), [], [z, x, y], [x, y, z]);
  }

  /** And one in which it throws away every older message. */
  lemma OverflowLoses(x: byte, y: byte, z: byte, w: byte) returns (steps: seq<Step>)
    ensures Wellrun({}, SMALL, steps)
    ensures var s := Run({}, SMALL, steps);
      && 5 in s.table && s.table[5].gen == s.table[5].time == 2 && s.table[5].wire == []
      && PendingAt(s.out.back, 5, 2) == [z, w] && PendingAt(s.out.front, 5, 2) == []
      && Meant(s.hist.accepted, 2) == [x, y, z, w]
  {
    steps := TwoOlder(x, y, z);
    steps := Queue(steps, [z], [x, y], [x, y, z], w);
    assert [x, y, z] + [w] == [x, y, z, w] && [z] + [w] == [z, w];
    steps := Turn(steps, [z, w], [x, y], [x, y, z, w]);
    ClientHas(Run({}, SMALL, steps), [], [z, w], [x, y, z, w]);
  }
}
