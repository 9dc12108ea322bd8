/** The cutting of a byte stream into length-prefixed packets
    (CEpollThread::parsePacketToRecvQueue and the remnant it carries from one
    read to the next in SOCKET_SET::part_buf). */
module Framing {
  import opened Bytes

  const MAX_SEND_SIZE := 2048
  const NET_HEAD_SIZE := 8

  /** What a parse leaves behind: the packets it queued, whether the stream is
      still acceptable, and the bytes kept for the next read. */
  datatype Parsed = Parsed(packets: seq<seq<byte>>, ok: bool, rest: seq<byte>)

  /** The packet length announced by the first two bytes, in network order. */
  function Announced(s: seq<byte>): nat
    requires |s| >= 2
  {
    s[0] as int * 256 + s[1] as int
  }

  /** One packet exactly: its own header announces its own length. */
  predicate WellFramed(p: seq<byte>) {
    NET_HEAD_SIZE <= |p| <= MAX_SEND_SIZE && Announced(p) == |p|
  }

  /** A remnant that does not yet hold a whole packet and is not yet refused. */
  predicate Incomplete(s: seq<byte>) {
    |s| < NET_HEAD_SIZE || |s| < Announced(s) <= MAX_SEND_SIZE
  }

  /** A full header with a length the parser refuses. */
  predicate BadHeader(s: seq<byte>) {
    |s| >= NET_HEAD_SIZE && !(NET_HEAD_SIZE <= Announced(s) <= MAX_SEND_SIZE)
  }

  /** The parse the code is meant to make: one pass over the whole buffer, the
      remnant taken from where the scan stopped. */
  function Parse(s: seq<byte>): Parsed {
    if Incomplete(s) then Parsed([], true, s)
    else if BadHeader(s) then Parsed([], false, [])
    else
      var r := Parse(s[Announced(s)..]);
      r.(packets := [s[..Announced(s)]] + r.packets)
  }

  /** The parse the code makes: a remnant shorter than a header is copied from
      the start of the buffer, not from where the scan stopped. */
  function ParseWritten(s: seq<byte>): Parsed {
    var r := Parse(s);
    if r.ok && 0 < |r.rest| < NET_HEAD_SIZE
    then ParseRestInBounds(s); r.(rest := s[..|r.rest|])
    else r
  }

  lemma {:induction false} ParseRestInBounds(s: seq<byte>)
    ensures |Parse(s).rest| <= |s|
  {
    if !Incomplete(s) && !BadHeader(s) {
      ParseRestInBounds(s[Announced(s)..]);
    }
  }

  // ----- What Parse means -------------------------------------------------

  /** The suffix at which the scan stops. */
  function Stop(s: seq<byte>): seq<byte> {
    if Incomplete(s) || BadHeader(s) then s else Stop(s[Announced(s)..])
  }

  /** Parse writes the stream as well-framed packets followed by an incomplete
      remnant (accepted) or by a refused header (rejected). */
  lemma {:induction false} ParseSound(s: seq<byte>)
    ensures var r := Parse(s);
      && (forall p :: p in r.packets ==> WellFramed(p))
      && s == Flatten(r.packets) + Stop(s)
      && (if r.ok then Incomplete(Stop(s)) && r.rest == Stop(s) else BadHeader(Stop(s)) && r.rest == [])
  {
    if Incomplete(s) || BadHeader(s) {
      assert s == Flatten([]) + s;
    } else {
      var head, tail := s[..Announced(s)], s[Announced(s)..];
      var t := Parse(tail);
      ParseSound(tail);
      FlattenCons(head, t.packets);
      assert s == head + (Flatten(t.packets) + Stop(tail));
      Associate(head, Flatten(t.packets), Stop(tail));
      assert WellFramed(head);
    }
  }

  /** And there is no other way to write it so. */
  lemma {:induction false} ParseComplete(packets: seq<seq<byte>>, rest: seq<byte>)
    requires forall p :: p in packets ==> WellFramed(p)
    ensures Incomplete(rest) ==> Parse(Flatten(packets) + rest) == Parsed(packets, true, rest)
    ensures BadHeader(rest) ==> Parse(Flatten(packets) + rest) == Parsed(packets, false, [])
  {
    var s := Flatten(packets) + rest;
    if packets == [] {
      assert s == rest;
    } else {
      var p := packets[0];
      assert p in packets;
      ParseComplete(packets[1..], rest);
      assert s == p + (Flatten(packets[1..]) + rest);
      assert s[..|p|] == p && s[|p|..] == Flatten(packets[1..]) + rest;
      assert [p] + packets[1..] == packets;
    }
  }

  /** A remnant is always shorter than the largest packet, and a buffer that
      holds the largest packet always yields a packet or a refusal. */
  lemma RemnantFitsAndFullBufferProgresses(s: seq<byte>)
    ensures |Parse(s).rest| < MAX_SEND_SIZE
    ensures |ParseWritten(s).rest| == |Parse(s).rest|
    ensures |s| >= MAX_SEND_SIZE ==> !Parse(s).ok || Parse(s).packets != []
  {
    ParseSound(s);
    ParseRestInBounds(s);
  }

  // ----- Parsing from a position ------------------------------------------

  /** A scan of b has come to position pos and has cut off these packets. */
  ghost predicate Scanned(b: seq<byte>, pos: nat, packets: seq<seq<byte>>) {
    pos <= |b| && b[..pos] == Flatten(packets) && forall p :: p in packets ==> WellFramed(p)
  }

  lemma ScanStarts(b: seq<byte>)
    ensures Scanned(b, 0, [])
  {}

  lemma ScanAdvances(b: seq<byte>, pos: nat, packets: seq<seq<byte>>, len: nat)
    requires Scanned(b, pos, packets) && pos + NET_HEAD_SIZE <= |b|
    requires len == Announced(b[pos..]) && NET_HEAD_SIZE <= len <= MAX_SEND_SIZE && pos + len <= |b|
    ensures Scanned(b, pos + len, packets + [b[pos..pos + len]])
  {
    var p := b[pos..pos + len];
    assert WellFramed(p);
    FlattenAppend(packets, [p]);
    FlattenOne(p);
    assert b[..pos + len] == b[..pos] + p;
  }

  /** Where a scan stops it has the whole result: with less than a header left
      (or nothing), at a refused length, or within a packet. */
  lemma ScanStopsShort(b: seq<byte>, pos: nat, packets: seq<seq<byte>>)
    requires Scanned(b, pos, packets) && |b| - pos < NET_HEAD_SIZE
    ensures ParseWritten(b) == Parsed(packets, true, b[..|b| - pos])
  {
    ParseComplete(packets, b[pos..]);
    assert b == b[..pos] + b[pos..];
    if pos == |b| {
      assert b[pos..] == [] && b[..0] == [];
    }
  }

  lemma ScanStopsRefused(b: seq<byte>, pos: nat, packets: seq<seq<byte>>, len: nat)
    requires Scanned(b, pos, packets) && |b| - pos >= NET_HEAD_SIZE
    requires len == Announced(b[pos..]) && !(NET_HEAD_SIZE <= len <= MAX_SEND_SIZE)
    ensures ParseWritten(b) == Parsed(packets, false, [])
  {
    ParseComplete(packets, b[pos..]);
    assert b == b[..pos] + b[pos..];
  }

  lemma ScanStopsWithin(b: seq<byte>, pos: nat, packets: seq<seq<byte>>, len: nat)
    requires Scanned(b, pos, packets) && |b| - pos >= NET_HEAD_SIZE
    requires len == Announced(b[pos..]) && |b| - pos < len <= MAX_SEND_SIZE
    ensures ParseWritten(b) == Parsed(packets, true, b[pos..])
  {
    ParseComplete(packets, b[pos..]);
    assert b == b[..pos] + b[pos..];
  }

  // ----- Chunking ---------------------------------------------------------

  /** One read: the bytes carried over come first in the buffer. */
  function Receive(st: Parsed, chunk: seq<byte>): Parsed {
    if !st.ok then st
    else
      var r := Parse(st.rest + chunk);
      Parsed(st.packets + r.packets, r.ok, r.rest)
  }

  function ReceiveWritten(st: Parsed, chunk: seq<byte>): Parsed {
    if !st.ok then st
    else
      var r := ParseWritten(st.rest + chunk);
      Parsed(st.packets + r.packets, r.ok, r.rest)
  }

  const START := Parsed([], true, [])

  function ReceiveAll(chunks: seq<seq<byte>>): Parsed {
    if chunks == [] then START
    else Receive(ReceiveAll(chunks[..|chunks| - 1]), chunks[|chunks| - 1])
  }

  function ReceiveAllWritten(chunks: seq<seq<byte>>): Parsed {
    if chunks == [] then START
    else ReceiveWritten(ReceiveAllWritten(chunks[..|chunks| - 1]), chunks[|chunks| - 1])
  }

  /** Parsing a stream and then its continuation is parsing the whole. */
  lemma ParseExtends(s: seq<byte>, more: seq<byte>)
    ensures Receive(Parse(s), more) == Parse(s + more)
  {
    var r := Parse(s);
    ParseSound(s);
    if r.ok {
      var t := Parse(r.rest + more);
      ParseSound(r.rest + more);
      FlattenAppend(r.packets, t.packets);
      Associate(Flatten(r.packets), r.rest, more);
      Associate(Flatten(r.packets), Flatten(t.packets), Stop(r.rest + more));
      ParseComplete(r.packets + t.packets, Stop(r.rest + more));
    } else {
      Associate(Flatten(r.packets), Stop(s), more);
      ParseComplete(r.packets, Stop(s) + more);
    }
  }

  /** Framing does not depend on chunking: packets, verdict and remnant after any
      sequence of reads are those of one parse of everything received. */
  lemma {:induction false} ChunkingIrrelevant(chunks: seq<seq<byte>>)
    ensures ReceiveAll(chunks) == Parse(Flatten(chunks))
  {
    if chunks != [] {
      var init, last := chunks[..|chunks| - 1], chunks[|chunks| - 1];
      ChunkingIrrelevant(init);
      ParseExtends(Flatten(init), last);
      assert chunks == init + [last];
      FlattenAppend(init, [last]);
      FlattenOne(last);
    }
  }

  // ----- The remnant copied from the wrong place --------------------------

  /** Whether the short remnant of this buffer happens to be where the code
      looks for it. It is when the scan never moved (first disjuncts). */
  predicate RemnantInPlace(buf: seq<byte>) {
    var r := Parse(buf);
    ParseRestInBounds(buf);
    !r.ok || |r.rest| == 0 || |r.rest| >= NET_HEAD_SIZE || r.packets == []
    || buf[..|r.rest|] == r.rest
  }

  lemma WrittenAgreesExactly(buf: seq<byte>)
    ensures ParseWritten(buf) == Parse(buf) <==> RemnantInPlace(buf)
  {
    ParseSound(buf);
    ParseRestInBounds(buf);
    var r := Parse(buf);
    if r.ok && r.packets == [] {
      assert buf == Flatten([]) + r.rest;
      assert buf[..|r.rest|] == r.rest;
    }
  }

  /** The buffer that read number k presents to the parser. */
  function BufferAt(chunks: seq<seq<byte>>, k: nat): seq<byte>
    requires k < |chunks|
  {
    Parse(Flatten(chunks[..k])).rest + chunks[k]
  }

  /** No read of a still acceptable stream moves a short remnant. */
  predicate NoneMoved(chunks: seq<seq<byte>>) {
    forall k :: 0 <= k < |chunks| && Parse(Flatten(chunks[..k])).ok ==> RemnantInPlace(BufferAt(chunks, k))
  }

  /** Then the code as written computes what is intended. */
  lemma WrittenIsIntended(chunks: seq<seq<byte>>)
    requires NoneMoved(chunks)
    ensures ReceiveAllWritten(chunks) == Parse(Flatten(chunks))
  {
    WrittenFollows(chunks, |chunks|);
    assert chunks[..|chunks|] == chunks;
  }

  /** The code as written agrees with one parse of the stream after every read
      exactly when no read of a still acceptable stream moves a short remnant. */
  lemma {:induction false} WrittenChunkingExactly(chunks: seq<seq<byte>>)
    ensures (forall k :: 0 <= k <= |chunks| ==> ReceiveAllWritten(chunks[..k]) == Parse(Flatten(chunks[..k])))
       <==> NoneMoved(chunks)
  {
    if forall k :: 0 <= k <= |chunks| ==> ReceiveAllWritten(chunks[..k]) == Parse(Flatten(chunks[..k])) {
      forall k | 0 <= k < |chunks| && Parse(Flatten(chunks[..k])).ok
        ensures RemnantInPlace(BufferAt(chunks, k))
      {
        WrittenStep(chunks, k);
        assert ReceiveAllWritten(chunks[..k]) == Parse(Flatten(chunks[..k]));
        assert ReceiveAllWritten(chunks[..k + 1]) == Parse(Flatten(chunks[..k + 1]));
      }
    }
    if NoneMoved(chunks) {
      forall k | 0 <= k <= |chunks|
        ensures ReceiveAllWritten(chunks[..k]) == Parse(Flatten(chunks[..k]))
      {
        WrittenFollows(chunks, k);
      }
    }
  }

  lemma WrittenStep(chunks: seq<seq<byte>>, k: nat)
    requires k < |chunks|
    requires ReceiveAllWritten(chunks[..k]) == Parse(Flatten(chunks[..k]))
    ensures ReceiveAllWritten(chunks[..k + 1]) == Parse(Flatten(chunks[..k + 1]))
       <==> (Parse(Flatten(chunks[..k])).ok ==> RemnantInPlace(BufferAt(chunks, k)))
  {
    var init, next := chunks[..k], chunks[..k + 1];
    assert next[..|next| - 1] == init && next == init + [chunks[k]];
    FlattenAppend(init, [chunks[k]]);
    FlattenOne(chunks[k]);
    ParseExtends(Flatten(init), chunks[k]);
    WrittenAgreesExactly(BufferAt(chunks, k));
  }

  lemma {:induction false} WrittenFollows(chunks: seq<seq<byte>>, k: nat)
    requires k <= |chunks|
    requires NoneMoved(chunks)
    ensures ReceiveAllWritten(chunks[..k]) == Parse(Flatten(chunks[..k]))
  {
    if k > 0 {
      WrittenFollows(chunks, k - 1);
      WrittenStep(chunks, k - 1);
    } else {
      assert chunks[..0] == [];
    }
  }

  /** One packet and one further byte in a single read: the byte kept for the
      next read is the packet's first byte, not the one received. */
  lemma WrittenKeepsWrongByte()
    ensures var packet: seq<byte> := [0, 8, 0, 30, 0, 0, 0, 0];
      && Parse(packet + [7]) == Parsed([packet], true, [7])
      && ParseWritten(packet + [7]) == Parsed([packet], true, [0])
  {
    var packet: seq<byte> := [0, 8, 0, 30, 0, 0, 0, 0];
    FlattenOne(packet);
    ParseComplete([packet], [7]);
    assert (packet + [7])[..1] == [0];
  }

  /** Two messages of different lengths. */
  const FIRST: seq<byte> := [0, 8, 0, 30, 0, 0, 0, 0]
  const SECOND: seq<byte> := [0, 9, 0, 30, 0, 0, 0, 0, 7]

  /** The first and two bytes of the second in one read, the rest in the next. */
  const CUT: seq<seq<byte>> := [FIRST + [0, 9], [0, 30, 0, 0, 0, 0, 7]]

  /** So read, the first message is received twice and the second never. */
  lemma WrittenRepeatsMessage()
    ensures Flatten(CUT) == FIRST + SECOND
    ensures Parse(FIRST + SECOND) == Parsed([FIRST, SECOND], true, [])
    ensures ReceiveAllWritten(CUT) == Parsed([FIRST, FIRST], true, [0])
  {
    FlattenCons(CUT[0], [CUT[1]]);
    FlattenOne(CUT[1]);
    assert CUT == [CUT[0]] + [CUT[1]];
    TwoMessages();
    FirstRead();
    WrittenKeepsWrongByte();
    assert [0, 8] + CUT[1] == FIRST + [7];
    TwoReads(CUT[0], CUT[1]);
    assert [FIRST] + [FIRST] == [FIRST, FIRST];
  }

  lemma TwoReads(a: seq<byte>, b: seq<byte>)
    ensures ReceiveAllWritten([a]) == ParseWritten(a)
    ensures ReceiveAllWritten([a, b]) == ReceiveWritten(ParseWritten(a), b)
  {
    var one, two := [a], [a, b];
    assert one[..0] == [] && two[..1] == one && [] + a == a;
    assert [] + ParseWritten(a).packets == ParseWritten(a).packets;
  }

  lemma TwoMessages()
    ensures Parse(FIRST + SECOND) == Parsed([FIRST, SECOND], true, [])
  {
    FlattenCons(FIRST, [SECOND]);
    FlattenOne(SECOND);
    assert [FIRST] + [SECOND] == [FIRST, SECOND] && FIRST + SECOND + [] == FIRST + SECOND;
    ParseComplete([FIRST, SECOND], []);
  }

  lemma FirstRead()
    ensures ParseWritten(CUT[0]) == Parsed([FIRST], true, [0, 8])
  {
    FlattenOne(FIRST);
    ParseComplete([FIRST], [0, 9]);
    assert CUT[0][..2] == [0, 8];
  }
}
