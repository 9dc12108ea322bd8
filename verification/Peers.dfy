/** Two of these servers at the ends of one connection: what one accepted for
    sending and what the other queues for its workers. */
module Peers {
  import opened Bytes
  import opened Framing
  import opened Codec
  import opened SendPath
  import opened Engine
  import opened Runs
  import opened Wires

  /** The messages meant for one generation, each as its bytes. */
  function MeantParts(ms: seq<Msg>, g: nat): seq<seq<byte>> {
    if ms == [] then []
    else (if ms[0].gen == g then [ms[0].bytes] else []) + MeantParts(ms[1..], g)
  }

  lemma {:induction false} MeantIsFlat(ms: seq<Msg>, g: nat)
    ensures Meant(ms, g) == Flatten(MeantParts(ms, g))
  {
    if ms != [] {
      MeantIsFlat(ms[1..], g);
      FlattenCons(ms[0].bytes, MeantParts(ms[1..], g));
      assert [] + MeantParts(ms[1..], g) == MeantParts(ms[1..], g);
    }
  }

  /** Bytes that come later never change the packets already cut off. */
  lemma LaterBytesAdd(s: seq<byte>, t: seq<byte>)
    requires s <= t
    ensures Parse(s).packets <= Parse(t).packets
  {
    ParseExtends(s, t[|s|..]);
    assert s + t[|s|..] == t;
  }

  lemma MessagesParse(ms: seq<Message>)
    requires forall m :: m in ms ==> m.Sendable()
    ensures Parse(Flatten(EncodeAll(ms))).packets == EncodeAll(ms)
    ensures forall i :: 0 <= i < |ms| ==> |EncodeAll(ms)[i]| >= NET_HEAD_SIZE && Decode(EncodeAll(ms)[i]) == ms[i]
  {
    EndToEnd(ms, EncodeAll(ms));
    ChunkingIrrelevant(EncodeAll(ms));
  }

  /** From one server's accepted messages to the other's queue, over any two runs:
      if the network delivers a prefix of what was put on the wire, in pieces none
      of which moves a short remnant, then the packets queued are the first of the
      messages accepted for that connection, in order and unaltered; and all of
      them once all their bytes have arrived. */
  lemma AcceptedIsReceived(
    open: set<int>, cfg: Config, steps: seq<Step>, fd: int, ms: seq<Message>,
    open': set<int>, cfg': Config, steps': seq<Step>, h: nat)
    requires cfg.Ok() && cfg'.Ok() && Wellrun(open, cfg, steps) && forall m :: m in ms ==> m.Sendable()
    requires var s := Run(open, cfg, steps);
      && fd in s.table && s.table[fd].gen !in s.hist.spoiled
      && MeantParts(s.hist.accepted, s.table[fd].gen) == EncodeAll(ms)
    requires var p := Run(open', cfg', steps');
      && h in p.hist.received && NoneMoved(p.hist.received[h])
      && Flatten(p.hist.received[h]) <= Run(open, cfg, steps).table[fd].wire
    ensures var s, p := Run(open, cfg, steps), Run(open', cfg', steps');
      var got := Packets(p.hist.log, h);
      && got <= EncodeAll(ms)
      && (forall i :: 0 <= i < |got| ==> |got[i]| >= NET_HEAD_SIZE && Decode(got[i]) == ms[i])
      && (|Flatten(p.hist.received[h])| == |Meant(s.hist.accepted, s.table[fd].gen)| ==> got == EncodeAll(ms))
  {
    var s, chunks := Run(open, cfg, steps), Run(open', cfg', steps').hist.received[h];
    var c, whole := s.table[fd], Flatten(EncodeAll(ms));
    WireRefinesAccepted(open, cfg, steps, fd);
    MeantIsFlat(s.hist.accepted, c.gen);
    assert c.wire <= whole;
    FramingOverRuns(open', cfg', steps', h, 0);
    LaterBytesAdd(Flatten(chunks), whole);
    MessagesParse(ms);
    assert |Flatten(chunks)| == |whole| ==> Flatten(chunks) == whole;
  }
}
