/** The wire format: numbers in network order (CEupuStream), the eight-byte
    header (NetMessageHead), the two connection notices (MP_Server_*), and the
    messages that createMsgToSendList builds from them. */
module Codec {
  import opened Bytes
  import opened Framing

  // ----- Numbers as bytes -------------------------------------------------

  function Pow256(n: nat): (p: nat)
    ensures p > 0
  {
    if n == 0 then 1 else 256 * Pow256(n - 1)
  }

  /** The n bytes of v, least significant first. */
  function LittleEndian(v: nat, n: nat): (s: seq<byte>)
    ensures |s| == n
  {
    if n == 0 then [] else [v % 256] + LittleEndian(v / 256, n - 1)
  }

  function FromLittleEndian(s: seq<byte>): nat {
    if s == [] then 0 else s[0] as nat + 256 * FromLittleEndian(s[1..])
  }

  function Reverse(s: seq<byte>): (r: seq<byte>)
    ensures |r| == |s| && forall i :: 0 <= i < |s| ==> r[i] == s[|s| - 1 - i]
  {
    seq(|s|, i requires 0 <= i < |s| => s[|s| - 1 - i])
  }

  /** Network order: most significant byte first. */
  function BigEndian(v: nat, n: nat): (s: seq<byte>)
    ensures |s| == n
  {
    Reverse(LittleEndian(v, n))
  }

  function FromBigEndian(s: seq<byte>): nat {
    FromLittleEndian(Reverse(s))
  }

  lemma {:induction false} LittleEndianRoundTrip(v: nat, n: nat)
    requires v < Pow256(n)
    ensures FromLittleEndian(LittleEndian(v, n)) == v
  {
    if n > 0 {
      LittleEndianRoundTrip(v / 256, n - 1);
      assert LittleEndian(v, n)[1..] == LittleEndian(v / 256, n - 1);
    }
  }

  lemma {:induction false} FromLittleEndianRoundTrip(s: seq<byte>)
    ensures FromLittleEndian(s) < Pow256(|s|)
    ensures LittleEndian(FromLittleEndian(s), |s|) == s
  {
    if s != [] {
      FromLittleEndianRoundTrip(s[1..]);
      assert FromLittleEndian(s) / 256 == FromLittleEndian(s[1..]);
      assert [s[0]] + s[1..] == s;
    }
  }

  lemma ReverseTwice(s: seq<byte>)
    ensures Reverse(Reverse(s)) == s
  {}

  lemma BigEndianRoundTrip(v: nat, n: nat)
    requires v < Pow256(n)
    ensures FromBigEndian(BigEndian(v, n)) == v
  {
    ReverseTwice(LittleEndian(v, n));
    LittleEndianRoundTrip(v, n);
  }

  lemma FromBigEndianRoundTrip(s: seq<byte>)
    ensures FromBigEndian(s) < Pow256(|s|)
    ensures BigEndian(FromBigEndian(s), |s|) == s
  {
    FromLittleEndianRoundTrip(Reverse(s));
    ReverseTwice(s);
  }

  // ----- Hosts ------------------------------------------------------------

  datatype Host = Little | Big

  /** The bytes of an n-byte unsigned variable as they lie in memory. */
  function Memory(host: Host, v: nat, n: nat): (s: seq<byte>)
    ensures |s| == n
  {
    match host
    case Little => LittleEndian(v, n)
    case Big => BigEndian(v, n)
  }

  function Load(host: Host, s: seq<byte>): nat {
    match host
    case Little => FromLittleEndian(s)
    case Big => FromBigEndian(s)
  }

  /** htons / htonl and, being their own inverses, ntohs / ntohl. */
  function Hton(host: Host, v: nat, n: nat): nat {
    match host
    case Little => FromLittleEndian(BigEndian(v, n))
    case Big => v
  }

  lemma HtonInMemory(host: Host, v: nat, n: nat)
    ensures Memory(host, Hton(host, v, n), n) == BigEndian(v, n)
  {
    FromLittleEndianRoundTrip(BigEndian(v, n));
  }

  lemma NtohFromMemory(host: Host, s: seq<byte>)
    ensures Hton(host, Load(host, s), |s|) == FromBigEndian(s)
  {
    FromLittleEndianRoundTrip(s);
  }

  /** hl64ton and ntohl64: swap the halves, convert each, put them together. */
  function Swap64(host: Host, v: nat): nat {
    var low := Hton(host, v % TWO32, 4);
    var high := Hton(host, v / TWO32 % TWO32, 4);
    low * TWO32 + high
  }

  lemma Pow256At4()
    ensures Pow256(4) == TWO32
  {
    assert Pow256(4) == 256 * (256 * (256 * (256 * Pow256(0))));
  }

  lemma LowByte(hi: nat, p: nat, lo: nat)
    ensures (hi * (256 * p) + lo) % 256 == lo % 256 && (hi * (256 * p) + lo) / 256 == hi * p + lo / 256
  {
    assert hi * (256 * p) == 256 * (hi * p);
  }

  lemma {:induction false} LittleEndianSplit(hi: nat, lo: nat, n: nat, m: nat)
    requires lo < Pow256(n)
    ensures LittleEndian(hi * Pow256(n) + lo, n + m) == LittleEndian(lo, n) + LittleEndian(hi, m)
    decreases n
  {
    if n > 0 {
      LowByte(hi, Pow256(n - 1), lo);
      LittleEndianSplit(hi, lo / 256, n - 1, m);
    }
  }

  /** On a little-endian host the 64-bit conversion leaves network order in
      memory, and reading back through it restores the value. */
  lemma Swap64IsNetworkOrder(v: nat)
    requires v < Pow256(8)
    ensures LittleEndian(Swap64(Little, v), 8) == BigEndian(v, 8)
    ensures Swap64(Little, FromLittleEndian(BigEndian(v, 8))) == v
  {
    Pow256At4();
    assert Pow256(8) == TWO32 * TWO32 by {
      assert Pow256(8) == 256 * (256 * (256 * (256 * Pow256(4))));
    }
    Swap64Bytes(v);
    var w := FromLittleEndian(BigEndian(v, 8));
    FromLittleEndianRoundTrip(BigEndian(v, 8));
    Swap64Bytes(w);
    ReverseTwice(LittleEndian(v, 8));
    LittleEndianRoundTrip(v, 8);
    LittleEndianRoundTrip(Swap64(Little, w), 8);
  }

  lemma Swap64Bytes(v: nat)
    requires v < Pow256(8)
    ensures LittleEndian(Swap64(Little, v), 8) == Reverse(LittleEndian(v, 8))
    ensures Swap64(Little, v) < Pow256(8)
  {
    Pow256At4();
    assert Pow256(8) == TWO32 * TWO32 by {
      assert Pow256(8) == 256 * (256 * (256 * (256 * Pow256(4))));
    }
    var lo, hi := v % TWO32, v / TWO32;
    assert v == hi * TWO32 + lo && hi < TWO32 && hi % TWO32 == hi;
    FromLittleEndianRoundTrip(BigEndian(lo, 4));
    FromLittleEndianRoundTrip(BigEndian(hi, 4));
    LittleEndianSplit(hi, lo, 4, 4);
    LittleEndianSplit(Hton(Little, lo, 4), Hton(Little, hi, 4), 4, 4);
    assert Reverse(LittleEndian(lo, 4) + LittleEndian(hi, 4)) ==
      Reverse(LittleEndian(hi, 4)) + Reverse(LittleEndian(lo, 4));
  }

  // ----- Values and strings in a buffer -----------------------------------

  /** memcpy into a buffer. */
  method Copy(dst: array<byte>, off: nat, src: seq<byte>)
    requires off + |src| <= dst.Length
    modifies dst
    ensures dst[..off] == old(dst[..off]) && dst[off..off + |src|] == src
    ensures forall j :: off + |src| <= j < dst.Length ==> dst[j] == old(dst[j])
  {
    forall i | 0 <= i < |src| {
      dst[off + i] := src[i];
    }
  }

  /** The variable that OutputValue copies, by its width. */
  method NetworkBytes(host: Host, width: nat, value: nat) returns (tmp: seq<byte>)
    requires width in {1, 2, 4, 8} && value < Pow256(width)
    ensures tmp == BigEndian(value, width)
  {
    if width == 1 {
      assert LittleEndian(value, 1) == BigEndian(value, 1);
      tmp := Memory(host, value, 1);
    } else if width == 2 {
      HtonInMemory(host, value, 2);
      tmp := Memory(host, Hton(host, value, 2), 2);
    } else if width == 4 {
      HtonInMemory(host, value, 4);
      tmp := Memory(host, Hton(host, value, 4), 4);
    } else if host == Big {
      tmp := Memory(host, value, 8);
    } else {
      Swap64IsNetworkOrder(value);
      tmp := Memory(host, Swap64(host, value), 8);
    }
  }

  /** OutputValue: -1 when the room is too small or the width is not one of
      the four; otherwise the value in network order, on any host. */
  method OutputValue(host: Host, buf: array<byte>, off: nat, room: int, width: nat, value: nat) returns (n: int)
    requires off + room <= buf.Length
    requires value < Pow256(width)
    modifies buf
    ensures n == if width <= room && width in {1, 2, 4, 8} then width else -1
    ensures n < 0 ==> buf[..] == old(buf[..])
    ensures n >= 0 ==> buf[off..off + width] == BigEndian(value, width)
    ensures n >= 0 ==> buf[..off] == old(buf[..off])
    ensures n >= 0 ==> forall j :: off + width <= j < buf.Length ==> buf[j] == old(buf[j])
  {
    n := width;
    if n > room {
      return -1;
    }
    if width !in {1, 2, 4, 8} {
      return -1;
    }
    var tmp := NetworkBytes(host, width, value);
    Copy(buf, off, tmp);
  }

  method InputValue(host: Host, buf: array<byte>, off: nat, room: int, width: nat) returns (n: int, value: nat)
    requires off + room <= buf.Length
    ensures n == if width <= room && width in {1, 2, 4, 8} then width else -1
    ensures n >= 0 ==> value == FromBigEndian(buf[off..off + width]) < Pow256(width)
  {
    n, value := width, 0;
    if n > room {
      return -1, 0;
    }
    if width !in {1, 2, 4, 8} {
      return -1, 0;
    }
    var raw := buf[off..off + width];
    FromBigEndianRoundTrip(raw);
    NtohFromMemory(host, raw);
    if n == 1 {
      assert Reverse(raw) == raw;
      value := Load(host, raw);
    } else if n == 8 && host == Little {
      Swap64IsNetworkOrder(FromBigEndian(raw));
      value := Swap64(host, Load(host, raw));
    } else {
      value := Hton(host, Load(host, raw), width);
    }
  }

  /** OutputString: a four-byte length, then the characters without a NUL. */
  method OutputString(host: Host, buf: array<byte>, room: int, src: seq<byte>) returns (n: int)
    requires room <= buf.Length
    requires |src| + 5 < 0x8000_0000
    modifies buf
    ensures n == if |src| + 4 <= room then |src| + 4 else -1
    ensures n < 0 ==> buf[..] == old(buf[..])
    ensures n >= 0 ==> buf[..n] == BigEndian(|src|, 4) + src && buf[n..] == old(buf[n..])
  {
    if |src| + 4 > room {
      return -1;
    }
    HtonInMemory(host, |src|, 4);
    Copy(buf, 0, Memory(host, Hton(host, |src|, 4), 4));
    Copy(buf, 4, src);
    n := 4 + |src|;
  }

  /** InputString: -1 when the buffer is short of the announced length, -2 when
      the destination cannot hold the text and its NUL. */
  method InputString(host: Host, buf: array<byte>, room: int, dst: array<byte>, dstRoom: int)
      returns (n: int, used: int)
    requires room <= buf.Length && dstRoom <= dst.Length && buf != dst
    requires room >= 4 ==> FromBigEndian(buf[..4]) + 5 < 0x8000_0000
    modifies dst
    ensures room < 4 ==> n == -1
    ensures room >= 4 ==>
      var len := FromBigEndian(buf[..4]);
      && n == (if len + 4 > room then -1 else if len + 1 > dstRoom then -2 else len + 4)
      && (n >= 0 ==> used == len + 1 && dst[..used] == buf[4..4 + len] + [0] && dst[used..] == old(dst[used..]))
    ensures n < 0 ==> dst[..] == old(dst[..]) && used == dstRoom
  {
    used := dstRoom;
    if 4 > room {
      return -1, used;
    }
    NtohFromMemory(host, buf[..4]);
    var len := Hton(host, Load(host, buf[..4]), 4);
    if 4 + len > room {
      return -1, used;
    }
    if len + 1 > dstRoom {
      return -2, used;
    }
    Copy(dst, 0, buf[4..4 + len]);
    dst[len] := 0;
    used := len + 1;
    n := 4 + len;
  }

  // ----- The header -------------------------------------------------------

  datatype Head = Head(size: nat, mainId: nat, assistantId: nat, code: byte, reserve: byte) {
    predicate Fits() {
      size < 0x1_0000 && mainId < 0x1_0000 && assistantId < 0x1_0000
    }
  }

  function HeadBytes(h: Head): (s: seq<byte>)
    ensures |s| == NET_HEAD_SIZE
  {
    BigEndian(h.size, 2) + BigEndian(h.mainId, 2) + BigEndian(h.assistantId, 2) + [h.code, h.reserve]
  }

  function ParseHead(s: seq<byte>): Head
    requires |s| >= NET_HEAD_SIZE
  {
    Head(FromBigEndian(s[..2]), FromBigEndian(s[2..4]), FromBigEndian(s[4..6]), s[6], s[7])
  }

  lemma Pow256At1And2()
    ensures Pow256(1) == 256 && Pow256(2) == 0x1_0000
  {
    assert Pow256(2) == 256 * (256 * Pow256(0));
  }

  /** The header reads back as written, whatever follows it. */
  lemma HeadRoundTrip(h: Head, more: seq<byte>)
    requires h.Fits()
    ensures ParseHead(HeadBytes(h) + more) == h
  {
    var s := HeadBytes(h) + more;
    Pow256At1And2();
    assert s[..2] == BigEndian(h.size, 2) && s[2..4] == BigEndian(h.mainId, 2)
      && s[4..6] == BigEndian(h.assistantId, 2);
    BigEndianRoundTrip(h.size, 2);
    BigEndianRoundTrip(h.mainId, 2);
    BigEndianRoundTrip(h.assistantId, 2);
  }

  lemma FromBigEndianAt2(s: seq<byte>)
    requires |s| >= 2
    ensures FromBigEndian(s[..2]) == Announced(s)
  {
    var r := Reverse(s[..2]);
    assert FromLittleEndian(r) == r[0] as nat + 256 * FromLittleEndian(r[1..]);
    assert FromLittleEndian(r[1..]) == r[1] as nat + 256 * FromLittleEndian(r[1..][1..]);
  }

  lemma OneByte(b: byte)
    ensures BigEndian(b, 1) == [b] && FromBigEndian([b]) == b
  {
    assert LittleEndian(b, 1) == [b];
    Pow256At1And2();
    BigEndianRoundTrip(b, 1);
  }

  class NetMessageHead {
    var uMessageSize: nat
    var uMainID: nat
    var bAssistantID: nat
    var bHandleCode: byte
    var bReserve: byte

    ghost function Value(): Head
      reads this
    {
      Head(uMessageSize, uMainID, bAssistantID, bHandleCode, bReserve)
    }

    constructor ()
      ensures Value() == Head(0, 0, 0, 0, 0)
    {
      uMessageSize, uMainID, bAssistantID, bHandleCode, bReserve := 0, 0, 0, 0, 0;
    }

    /** Out writes the five fields one after the other; it fails exactly when
        the room is less than a header. */
    method Out(host: Host, dst: array<byte>, len: nat) returns (ok: bool, used: nat)
      requires Value().Fits() && len <= dst.Length
      modifies dst
      ensures ok == (len >= NET_HEAD_SIZE)
      ensures used == if ok then NET_HEAD_SIZE else len
      ensures ok ==> dst[..NET_HEAD_SIZE] == HeadBytes(Value()) && dst[NET_HEAD_SIZE..] == old(dst[NET_HEAD_SIZE..])
    {
      Pow256At1And2();
      OneByte(bHandleCode);
      OneByte(bReserve);
      var n := 0;
      used := len;
      var r := OutputValue(host, dst, n, len - n, 2, uMessageSize);
      if r < 0 { return false, used; }
      n := n + r;
      r := OutputValue(host, dst, n, len - n, 2, uMainID);
      if r < 0 { return false, used; }
      n := n + r;
      assert dst[..4] == dst[..2] + dst[2..4];
      r := OutputValue(host, dst, n, len - n, 2, bAssistantID);
      if r < 0 { return false, used; }
      n := n + r;
      assert dst[..6] == dst[..4] + dst[4..6];
      r := OutputValue(host, dst, n, len - n, 1, bHandleCode);
      if r < 0 { return false, used; }
      n := n + r;
      assert dst[..7] == dst[..6] + [bHandleCode];
      r := OutputValue(host, dst, n, len - n, 1, bReserve);
      if r < 0 { return false, used; }
      n := n + r;
      used := n;
      ok := true;
      assert dst[..8] == dst[..7] + [bReserve];
      assert dst[..8] == HeadBytes(Value());
    }

    method In(host: Host, src: array<byte>, len: nat) returns (ok: bool, used: nat)
      requires len <= src.Length
      modifies this
      ensures ok == (len >= NET_HEAD_SIZE)
      ensures used == if ok then NET_HEAD_SIZE else len
      ensures ok ==> Value() == ParseHead(src[..]) && Value().Fits()
    {
      Pow256At1And2();
      var n, v := 0, 0;
      used := len;
      var r;
      r, v := InputValue(host, src, n, len - n, 2);
      if r < 0 { return false, used; }
      uMessageSize, n := v, n + r;
      r, v := InputValue(host, src, n, len - n, 2);
      if r < 0 { return false, used; }
      uMainID, n := v, n + r;
      r, v := InputValue(host, src, n, len - n, 2);
      if r < 0 { return false, used; }
      bAssistantID, n := v, n + r;
      r, v := InputValue(host, src, n, len - n, 1);
      if r < 0 { return false, used; }
      assert src[n..n + 1] == [src[6]];
      OneByte(src[6]);
      bHandleCode, n := v, n + r;
      r, v := InputValue(host, src, n, len - n, 1);
      if r < 0 { return false, used; }
      assert src[n..n + 1] == [src[7]];
      OneByte(src[7]);
      bReserve, n := v, n + r;
      used := n;
      ok := true;
    }
  }

  // ----- The connection notices -------------------------------------------

  const RS_CONNECTED := 11
  const RS_DISCONNECTED := 12

  function NoticeBytes(mainId: nat, server: nat): seq<byte> {
    HeadBytes(Head(NET_HEAD_SIZE + 4, mainId, 0, 0, 0)) + BigEndian(server, 4)
  }

  /** MP_Server_Connected and MP_Server_DisConnected differ only in their id. */
  class ServerNotice {
    const head: NetMessageHead
    var server: nat

    constructor (mainId: nat, server: nat)
      ensures fresh(head) && this.server == server
      ensures head.Value() == Head(NET_HEAD_SIZE + 4, mainId, 0, 0, 0)
    {
      head := new NetMessageHead();
      this.server := server;
      new;
      head.uMainID := mainId;
      head.uMessageSize := NET_HEAD_SIZE + 4;
    }

    method Out(host: Host, dst: array<byte>, len: nat) returns (ok: bool, used: nat)
      requires head.Value().Fits() && server < TWO32 && len <= dst.Length
      modifies dst
      ensures ok == (len >= NET_HEAD_SIZE + 4)
      ensures used == if ok then NET_HEAD_SIZE + 4 else len
      ensures ok ==> dst[..used] == HeadBytes(head.Value()) + BigEndian(server, 4) && dst[used..] == old(dst[used..])
    {
      Pow256At4();
      used := len;
      var n;
      ok, n := head.Out(host, dst, len);
      if ok {
        var r := OutputValue(host, dst, n, len - n, 4, server);
        if r < 0 { return false, used; }
        used := n + r;
      }
    }

    method In(host: Host, src: array<byte>, len: nat) returns (ok: bool, used: nat)
      requires len <= src.Length
      modifies this, head
      ensures ok == (len >= NET_HEAD_SIZE + 4)
      ensures used == if ok then NET_HEAD_SIZE + 4 else len
      ensures ok ==> head.Value() == ParseHead(src[..]) && server == FromBigEndian(src[8..12])
    {
      used := len;
      var n;
      ok, n := head.In(host, src, len);
      if ok {
        var r, v := InputValue(host, src, n, len - n, 4);
        if r < 0 { return false, used; }
        server := v;
        used := n + r;
      }
    }
  }

  /** A notice is itself a well-framed packet, and reads back as written. */
  lemma NoticeRoundTrip(mainId: nat, server: nat)
    requires mainId < 0x1_0000 && server < TWO32
    ensures WellFramed(NoticeBytes(mainId, server))
    ensures ParseHead(NoticeBytes(mainId, server)) == Head(NET_HEAD_SIZE + 4, mainId, 0, 0, 0)
    ensures FromBigEndian(NoticeBytes(mainId, server)[8..12]) == server
  {
    var s := NoticeBytes(mainId, server);
    HeadRoundTrip(Head(NET_HEAD_SIZE + 4, mainId, 0, 0, 0), BigEndian(server, 4));
    FromBigEndianAt2(s);
    Pow256At4();
    assert s[8..12] == BigEndian(server, 4);
    BigEndianRoundTrip(server, 4);
  }

  // ----- Messages ---------------------------------------------------------

  datatype Message = Message(mainId: nat, assistantId: nat, code: byte, reserve: byte, payload: seq<byte>) {
    /** What createMsgToSendList accepts: 16-bit ids and a size within the limit. */
    predicate Sendable() {
      mainId < 0x1_0000 && assistantId < 0x1_0000 && |payload| + NET_HEAD_SIZE <= MAX_SEND_SIZE
    }
  }

  function Encode(m: Message): seq<byte> {
    HeadBytes(Head(|m.payload| + NET_HEAD_SIZE, m.mainId, m.assistantId, m.code, m.reserve)) + m.payload
  }

  function Decode(p: seq<byte>): Message
    requires |p| >= NET_HEAD_SIZE
  {
    var h := ParseHead(p);
    Message(h.mainId, h.assistantId, h.code, h.reserve, p[NET_HEAD_SIZE..])
  }

  /** The size field equals the bytes produced, so the packet frames itself and
      the receiver reads back every field and the payload. */
  lemma EncodeRoundTrip(m: Message)
    requires m.Sendable()
    ensures WellFramed(Encode(m)) && Decode(Encode(m)) == m
  {
    HeadRoundTrip(Head(|m.payload| + NET_HEAD_SIZE, m.mainId, m.assistantId, m.code, m.reserve), m.payload);
    FromBigEndianAt2(Encode(m));
  }

  function EncodeAll(ms: seq<Message>): (r: seq<seq<byte>>)
    ensures |r| == |ms| && forall i :: 0 <= i < |ms| ==> r[i] == Encode(ms[i])
  {
    seq(|ms|, i requires 0 <= i < |ms| => Encode(ms[i]))
  }

  /** End to end: messages sent back to back and delivered in any pieces are
      received as exactly those messages, and nothing is left over. */
  lemma EndToEnd(ms: seq<Message>, chunks: seq<seq<byte>>)
    requires forall m :: m in ms ==> m.Sendable()
    requires Flatten(chunks) == Flatten(EncodeAll(ms))
    ensures var r := ReceiveAll(chunks);
      && r == Parsed(EncodeAll(ms), true, [])
      && forall i :: 0 <= i < |ms| ==> |r.packets[i]| >= NET_HEAD_SIZE && Decode(r.packets[i]) == ms[i]
  {
    forall i | 0 <= i < |ms|
      ensures WellFramed(EncodeAll(ms)[i]) && Decode(EncodeAll(ms)[i]) == ms[i]
    {
      EncodeRoundTrip(ms[i]);
    }
    ChunkingIrrelevant(chunks);
    ParseComplete(EncodeAll(ms), []);
    assert Flatten(chunks) == Flatten(EncodeAll(ms)) + [];
  }
}
