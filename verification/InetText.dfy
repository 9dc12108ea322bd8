/** The text forms of IPv4 and IPv6 addresses: what the printers of inet_ntop.c
    produce and what the parsers of inet_pton.c compute, as functions, and the
    theorems about them. InetCode proves the loops against these functions. */
module InetText {
  import opened Bytes

  // ----- Digits -----------------------------------------------------------

  const DIGITS := "0123456789abcdef"

  /** The value of a hexadecimal digit in either case; None for any other character. */
  function HexDigit(c: char): Option<nat> {
    if '0' <= c <= '9' then Some(c as nat - '0' as nat)
    else if 'a' <= c <= 'f' then Some(c as nat - 'a' as nat + 10)
    else if 'A' <= c <= 'F' then Some(c as nat - 'A' as nat + 10)
    else None
  }

  predicate IsDigit(c: char) {
    '0' <= c <= '9'
  }

  function DigitValue(c: char): nat
    requires IsDigit(c)
  {
    c as nat - '0' as nat
  }

  /** printf's %x. */
  function HexText(w: nat): (s: string)
    ensures s != ""
  {
    if w < 16 then [DIGITS[w]] else HexText(w / 16) + [DIGITS[w % 16]]
  }

  /** printf's %u. */
  function DecText(v: nat): (s: string)
    ensures s != ""
  {
    if v < 10 then [DIGITS[v]] else DecText(v / 10) + [DIGITS[v % 10]]
  }

  lemma HexTextLength(w: nat)
    ensures w < 0x1_0000 ==> |HexText(w)| <= 4
  {
    if 16 <= w < 0x1_0000 {
      assert |HexText(w / 16)| <= 3 by {
        if 16 <= w / 16 {
          assert w / 16 / 16 < 256;
          assert |HexText(w / 16 / 16)| <= 2;
        }
      }
    }
  }

  lemma DecTextLength(v: nat)
    ensures v < 256 ==> |DecText(v)| <= 3
  {
    if 10 <= v < 256 {
      assert |DecText(v / 10)| <= 2;
    }
  }

  // ----- IPv4 -------------------------------------------------------------

  function Text4(a: seq<byte>): string
    requires |a| == 4
  {
    DecText(a[0]) + ("." + (DecText(a[1]) + ("." + (DecText(a[2]) + ("." + DecText(a[3]))))))
  }

  lemma Text4Length(a: seq<byte>)
    requires |a| == 4
    ensures |Text4(a)| <= 15
  {
    DecTextLength(a[0]);
    DecTextLength(a[1]);
    DecTextLength(a[2]);
    DecTextLength(a[3]);
  }

  /** inet_pton4 from any point of its scan: done holds the octets already closed
      by a dot, cur the value of the octet under way once a digit was seen. */
  function Scan4(s: string, done: seq<byte>, cur: Option<byte>): Option<seq<byte>> {
    if s == "" then
      if cur.Some? && |done| == 3 then Some(done + [cur.value]) else None
    else if IsDigit(s[0]) then
      var v := (if cur.Some? then cur.value as nat else 0) * 10 + DigitValue(s[0]);
      if v > 255 || (cur.None? && |done| >= 4) then None
      else Scan4(s[1..], done, Some(v))
    else if s[0] == '.' && cur.Some? && |done| < 3 then
      Scan4(s[1..], done + [cur.value], None)
    else None
  }

  function Parse4(s: string): Option<seq<byte>> {
    Scan4(s, [], None)
  }

  /** The groups of a string between its separators. */
  function Split(sep: char, s: string): (gs: seq<string>)
    ensures |gs| >= 1
  {
    if s == "" then [""]
    else if s[0] == sep then [""] + Split(sep, s[1..])
    else
      var gs := Split(sep, s[1..]);
      [[s[0]] + gs[0]] + gs[1..]
  }

  predicate AllDigits(g: string) {
    forall c :: c in g ==> IsDigit(c)
  }

  function Decimal(g: string): nat
    requires AllDigits(g)
  {
    if g == "" then 0 else Decimal(g[..|g| - 1]) * 10 + DigitValue(g[|g| - 1])
  }

  /** A group the parser takes as an octet: digits, at least one, at most 255
      in value, any number of leading zeros. */
  predicate IsOctet(g: string) {
    g != "" && AllDigits(g) && Decimal(g) <= 255
  }

  predicate AllOctets(gs: seq<string>) {
    forall i :: 0 <= i < |gs| ==> IsOctet(gs[i])
  }

  function Octets(gs: seq<string>): (r: seq<byte>)
    requires AllOctets(gs)
    ensures |r| == |gs|
  {
    if gs == [] then [] else [Decimal(gs[0])] + Octets(gs[1..])
  }

  /** The language of inet_pton4 without its scan: exactly four groups
      separated by single dots, each an octet. */
  function Quad(s: string): Option<seq<byte>> {
    var gs := Split('.', s);
    if |gs| == 4 && AllOctets(gs) then Some(Octets(gs)) else None
  }

  lemma {:induction false} DecimalGrows(p: string, q: string)
    requires AllDigits(p + q)
    ensures AllDigits(p) && Decimal(p) <= Decimal(p + q)
  {
    assert forall c :: c in p ==> c in p + q;
    if q == "" {
      assert p + q == p;
    } else {
      assert (p + q)[..|p + q| - 1] == p + q[..|q| - 1];
      assert forall c :: c in p + q[..|q| - 1] ==> c in p + q;
      DecimalGrows(p, q[..|q| - 1]);
    }
  }

  /** The judgement that the rest of the scan will pass: p is the text of the
      octet under way. */
  function Verdict(s: string, done: seq<byte>, p: string): Option<seq<byte>> {
    var gs := [p + Split('.', s)[0]] + Split('.', s)[1..];
    if |done| + |gs| == 4 && AllOctets(gs) then Some(done + Octets(gs)) else None
  }

  function Value4(p: string): Option<byte>
    requires p == "" || IsOctet(p)
  {
    if p == "" then None else Some(Decimal(p))
  }

  lemma NothingBefore(gs: seq<string>)
    requires |gs| >= 1
    ensures ["" + gs[0]] + gs[1..] == gs
  {
    assert "" + gs[0] == gs[0];
  }

  lemma {:induction false} ScanIsVerdict(s: string, done: seq<byte>, p: string)
    requires |done| <= 3 && (p == "" || IsOctet(p))
    ensures Scan4(s, done, Value4(p)) == Verdict(s, done, p)
    decreases |s|
  {
    var cur := Value4(p);
    if s == "" {
      assert p + "" == p;
      assert [p + Split('.', s)[0]] + Split('.', s)[1..] == [p];
      assert IsOctet([p][0]) <==> p != "";
      if IsOctet(p) && |done| == 3 {
        assert AllOctets([p]) && Octets([p]) == [Decimal(p)];
      }
    } else if IsDigit(s[0]) {
      ScanDigitIsVerdict(s, done, p);
    } else if s[0] == '.' {
      ScanDotIsVerdict(s, done, p);
    } else {
      var g := p + Split('.', s)[0];
      assert g[|p|] == s[0] && s[0] in g;
      assert ([g] + Split('.', s)[1..])[0] == g;
    }
  }

  lemma OctetsCons(p: string, gs: seq<string>)
    ensures AllOctets([p] + gs) <==> IsOctet(p) && AllOctets(gs)
    ensures AllOctets([p] + gs) ==> Octets([p] + gs) == [Decimal(p)] + Octets(gs)
  {
    var all := [p] + gs;
    assert all[0] == p && all[1..] == gs;
    if AllOctets(all) {
      forall i | 0 <= i < |gs| ensures IsOctet(gs[i]) {
        assert gs[i] == all[i + 1];
      }
    }
  }

  lemma {:induction false} ScanDotIsVerdict(s: string, done: seq<byte>, p: string)
    requires |done| <= 3 && (p == "" || IsOctet(p)) && s != "" && s[0] == '.'
    ensures Scan4(s, done, Value4(p)) == Verdict(s, done, p)
    decreases |s|, 0
  {
    var tail := Split('.', s[1..]);
    assert p + "" == p;
    assert [p + Split('.', s)[0]] + Split('.', s)[1..] == [p] + tail;
    OctetsCons(p, tail);
    if p != "" && |done| < 3 {
      ScanIsVerdict(s[1..], done + [Decimal(p)], "");
      NothingBefore(tail);
      if AllOctets(tail) {
        Associate(done, [Decimal(p)], Octets(tail));
      }
    }
  }

  lemma {:induction false} ScanDigitIsVerdict(s: string, done: seq<byte>, p: string)
    requires |done| <= 3 && (p == "" || IsOctet(p)) && s != "" && IsDigit(s[0])
    ensures Scan4(s, done, Value4(p)) == Verdict(s, done, p)
    decreases |s|, 0
  {
    var p' := p + [s[0]];
    var gs := Split('.', s[1..]);
    assert p'[..|p'| - 1] == p && AllDigits(p');
    assert Decimal(p') == (if p == "" then 0 else Decimal(p)) * 10 + DigitValue(s[0]);
    assert p + ([s[0]] + gs[0]) == p' + gs[0];
    assert [p + Split('.', s)[0]] + Split('.', s)[1..] == [p' + gs[0]] + gs[1..];
    if Decimal(p') <= 255 {
      ScanIsVerdict(s[1..], done, p');
    } else {
      var g := p' + gs[0];
      if AllDigits(g) {
        DecimalGrows(p', gs[0]);
      }
      assert ([g] + gs[1..])[0] == g;
    }
  }

  /** inet_pton4 accepts exactly the dotted quads, with their four values. */
  lemma Parse4IsQuad(s: string)
    ensures Parse4(s) == Quad(s)
  {
    ScanIsVerdict(s, [], "");
    NothingBefore(Split('.', s));
    if AllOctets(Split('.', s)) {
      assert [] + Octets(Split('.', s)) == Octets(Split('.', s));
    }
  }

  lemma {:induction false} ScanDec4(v: byte, more: string, done: seq<byte>)
    requires |done| <= 3
    ensures Scan4(DecText(v) + more, done, None) == Scan4(more, done, Some(v))
  {
    DigitOf(v % 10);
    if v < 10 {
      StepDigit4(DIGITS[v], more, done, 0);
    } else {
      var last := [DIGITS[v % 10]];
      Associate(DecText(v / 10), last, more);
      ScanDec4(v / 10, last + more, done);
      StepDigit4(DIGITS[v % 10], more, done, v / 10);
    }
  }

  lemma StepDigit4(c: char, more: string, done: seq<byte>, v: byte)
    requires IsDigit(c) && |done| <= 3 && v * 10 + DigitValue(c) < 256
    ensures Scan4([c] + more, done, Some(v)) == Scan4(more, done, Some(v * 10 + DigitValue(c)))
    ensures v == 0 ==> Scan4([c] + more, done, None) == Scan4(more, done, Some(DigitValue(c)))
  {
    assert ([c] + more)[1..] == more;
  }

  lemma DigitOf(d: nat)
    requires d < 10
    ensures IsDigit(DIGITS[d]) && DigitValue(DIGITS[d]) == d
  {}

  /** inet_pton4 inverts inet_ntop4. */
  lemma RoundTrip4(a: seq<byte>)
    requires |a| == 4
    ensures Parse4(Text4(a)) == Some(a)
  {
    var t3 := DecText(a[3]);
    var t2 := DecText(a[2]) + ("." + t3);
    var t1 := DecText(a[1]) + ("." + t2);
    ScanDec4(a[0], "." + t1, []);
    ScanDot4(t1, [], a[0]);
    ScanDec4(a[1], "." + t2, [a[0]]);
    ScanDot4(t2, [a[0]], a[1]);
    ScanDec4(a[2], "." + t3, [a[0], a[1]]);
    ScanDot4(t3, [a[0], a[1]], a[2]);
    assert t3 + "" == t3;
    ScanDec4(a[3], "", [a[0], a[1], a[2]]);
    assert [a[0], a[1], a[2]] + [a[3]] == a;
    assert [] + [a[0]] == [a[0]] && [a[0]] + [a[1]] == [a[0], a[1]] && [a[0], a[1]] + [a[2]] == [a[0], a[1], a[2]];
  }

  lemma ScanDot4(more: string, done: seq<byte>, v: byte)
    requires |done| < 3
    ensures Scan4("." + more, done, Some(v)) == Scan4(more, done + [v], None)
  {
    assert ("." + more)[1..] == more;
  }

  // ----- IPv6: the printer ------------------------------------------------

  type word = w: int | 0 <= w < 0x1_0000

  /** The eight 16-bit groups of an address. */
  function Words(a: seq<byte>): (w: seq<word>)
    requires |a| == 16
    ensures |w| == 8
  {
    seq(8, i requires 0 <= i < 8 => a[2 * i] as int * 256 + a[2 * i + 1] as int)
  }

  predicate ZeroRun(w: seq<word>, base: int, len: int) {
    0 <= base && 0 <= len && base + len <= |w| && forall k :: base <= k < base + len ==> w[k] == 0
  }

  /** The run the printer compresses: the leftmost among the longest runs of
      zero groups, if that length is at least two; base is -1 for none
      (sections 4.2.2 and 4.2.3 of RFC 5952). */
  ghost predicate Chosen(w: seq<word>, base: int, len: int) {
    if base == -1 then
      forall b, l :: ZeroRun(w, b, l) ==> l < 2
    else
      && ZeroRun(w, base, len) && len >= 2
      && forall b, l :: ZeroRun(w, b, l) ==> l < len || (l == len && base <= b)
  }

  lemma ChosenIsUnique(w: seq<word>, base: int, len: int, base': int, len': int)
    requires Chosen(w, base, len) && Chosen(w, base', len')
    ensures base == base' && (base != -1 ==> len == len')
  {
    if base != -1 {
      assert ZeroRun(w, base, len);
    }
    if base' != -1 {
      assert ZeroRun(w, base', len');
    }
  }

  /** The last two groups are printed as a dotted quad when the compressed run
      starts the address and is followed by exactly these groups, possibly after ffff. */
  predicate EmbedsIpv4(w: seq<word>, base: int, len: int)
    requires |w| == 8
  {
    base == 0 && (len == 6 || (len == 5 && w[5] == 0xffff))
  }

  /** What the printer emits from group i on. */
  function TextFrom(a: seq<byte>, base: int, len: int, i: nat): string
    requires |a| == 16 && i <= 8
    decreases 8 - i
  {
    var w := Words(a);
    if i == 8 then
      if base != -1 && base + len == 8 then ":" else ""
    else if base != -1 && base <= i < base + len then
      (if i == base then ":" else "") + TextFrom(a, base, len, i + 1)
    else if i == 6 && EmbedsIpv4(w, base, len) then
      ":" + Text4(a[12..16])
    else
      (if i != 0 then ":" else "") + HexText(w[i]) + TextFrom(a, base, len, i + 1)
  }

  function Text6(a: seq<byte>, base: int, len: int): string
    requires |a| == 16
  {
    TextFrom(a, base, len, 0)
  }

  /** How much group i adds to the text. */
  lemma TextFromStep(a: seq<byte>, base: int, len: int, i: nat)
    requires |a| == 16 && i < 8
    ensures var rest := |TextFrom(a, base, len, i + 1)|;
      |TextFrom(a, base, len, i)| <=
        if base != -1 && base <= i < base + len then rest + (if i == base then 1 else 0)
        else if i == 6 && EmbedsIpv4(Words(a), base, len) then 16
        else rest + (if i == 0 then 4 else 5)
  {
    HexTextLength(Words(a)[i]);
    if i == 6 {
      Text4Length(a[12..16]);
    }
  }

  /** At most 39 characters, so 40 with the NUL: the 46-byte buffer is ample. */
  lemma {:induction false} TextFromLength(a: seq<byte>, base: int, len: int, i: nat)
    requires |a| == 16 && i <= 8
    requires base == -1 || (ZeroRun(Words(a), base, len) && len >= 2)
    ensures !EmbedsIpv4(Words(a), base, len) ==>
      |TextFrom(a, base, len, i)| <= 5 * (8 - i)
        + (if i == 0 then -1 else if base != -1 && i >= base + len then 1 else 0)
    ensures EmbedsIpv4(Words(a), base, len) ==>
      |TextFrom(a, base, len, i)| <= if i == 0 then 22 else if i <= 5 then 21 else 16
    decreases 8 - i
  {
    if i < 8 {
      TextFromLength(a, base, len, i + 1);
      TextFromStep(a, base, len, i);
    }
  }

  lemma Text6Length(a: seq<byte>, base: int, len: int)
    requires |a| == 16
    requires base == -1 || (ZeroRun(Words(a), base, len) && len >= 2)
    ensures |Text6(a, base, len)| <= 39
  {
    TextFromLength(a, base, len, 0);
  }

  // ----- IPv6: the parser -------------------------------------------------

  /** The variables of inet_pton6's scan: the bytes written so far, where the
      double colon stood, whether a group is under way and its value, and the
      text from the start of that group. */
  datatype Scan = Scan(out: seq<byte>, colon: Option<nat>, saw: bool, val: nat, tok: string)

  const SCAN_START := Scan([], None, false, 0, "")

  function TwoBytes(val: nat): seq<byte> {
    [val / 256 % 256, val % 256]
  }

  /** One pass over the text; None where the code returns 0 from the loop. */
  function Scan6(s: string, st: Scan): Option<Scan> {
    if s == "" then Some(st)
    else
      var c, more := s[0], s[1..];
      if HexDigit(c).Some? then
        var v := st.val * 16 + HexDigit(c).value;
        if v > 0xffff then None else Scan6(more, st.(val := v, saw := true))
      else if c == ':' then
        if !st.saw then
          if st.colon.Some? then None
          else Scan6(more, st.(colon := Some(|st.out|), tok := more))
        else if |st.out| + 2 > 16 then None
        else Scan6(more, Scan(st.out + TwoBytes(st.val), st.colon, false, 0, more))
      else if c == '.' && |st.out| + 4 <= 16 && Parse4(st.tok).Some? then
        Some(st.(out := st.out + Parse4(st.tok).value, saw := false))
      else None
  }

  /** What the in-place shift leaves: the bytes after the double colon moved to
      the end and zeros between. With sixteen bytes already written it moves
      them onto themselves and clears them. */
  function Shifted(out: seq<byte>, colon: nat): (r: seq<byte>)
    requires colon <= |out| <= 16
    ensures |r| == 16
  {
    if |out| == 16 then out[..colon] + Zeros(16 - colon)
    else out[..colon] + Zeros(16 - |out|) + out[colon..]
  }

  /** After the loop: close the last group, expand the double colon, and accept
      only a full address. */
  function Finish6(st: Scan): Option<seq<byte>> {
    if st.saw && |st.out| + 2 > 16 then None
    else
      var out := if st.saw then st.out + TwoBytes(st.val) else st.out;
      if st.colon.Some? && st.colon.value <= |out| <= 16 then Some(Shifted(out, st.colon.value))
      else if st.colon.None? && |out| == 16 then Some(out)
      else None
  }

  /** The scan of a whole text: where Parse6 stands before it finishes. */
  function Start6(s: string): Option<Scan> {
    if s != "" && s[0] == ':' && (|s| == 1 || s[1] != ':') then None
    else
      var t := if s != "" && s[0] == ':' then s[1..] else s;
      Scan6(t, SCAN_START.(tok := t))
  }

  function Parse6(s: string): Option<seq<byte>> {
    var r := Start6(s);
    if r.None? then None else Finish6(r.value)
  }

  predicate InOrder(st: Scan) {
    |st.out| <= 16 && st.val <= 0xffff && (st.colon.Some? ==> st.colon.value <= |st.out|)
  }

  lemma {:induction false} ScanKeepsOrder(s: string, st: Scan)
    requires InOrder(st)
    ensures Scan6(s, st).Some? ==> InOrder(Scan6(s, st).value)
    decreases |s|
  {
    if s != "" {
      var d := HexDigit(s[0]);
      if d.Some? {
        if st.val * 16 + d.value <= 0xffff {
          ScanKeepsOrder(s[1..], st.(saw := true, val := st.val * 16 + d.value));
        }
      } else if s[0] == ':' {
        if st.saw && |st.out| + 2 <= 16 {
          ScanKeepsOrder(s[1..], Scan(st.out + TwoBytes(st.val), st.colon, false, 0, s[1..]));
        } else if !st.saw {
          ScanKeepsOrder(s[1..], st.(colon := Some(|st.out|), tok := s[1..]));
        }
      } else {
        Parse4IsQuad(st.tok);
      }
    }
  }

  /** The bytes the text itself spells out, before the double colon expands. */
  function Spelled(s: string): Option<seq<byte>> {
    var r := Start6(s);
    if r.None? then None
    else if r.value.saw then Some(r.value.out + TwoBytes(r.value.val))
    else Some(r.value.out)
  }

  /** A text that spells out all sixteen bytes and has a double colon besides is
      accepted, and the double colon is ignored exactly when every byte after it
      is zero; otherwise those bytes are lost. */
  lemma DoubleColonInFullAddress(s: string)
    requires Spelled(s).Some? && |Spelled(s).value| == 16 && Start6(s).value.colon.Some?
    ensures var out, c := Spelled(s).value, Start6(s).value.colon.value;
      && c <= 16
      && Parse6(s) == Some(out[..c] + Zeros(16 - c))
      && (Parse6(s) == Some(out) <==> forall k :: c <= k < 16 ==> out[k] == 0)
  {
    var t := if s != "" && s[0] == ':' then s[1..] else s;
    ScanKeepsOrder(t, SCAN_START.(tok := t));
    ClearedIsSame(Spelled(s).value, Start6(s).value.colon.value);
  }

  lemma ClearedIsSame(out: seq<byte>, c: nat)
    requires |out| == 16 && c <= 16
    ensures out[..c] + Zeros(16 - c) == out <==> forall k :: c <= k < 16 ==> out[k] == 0
  {
    var cleared := out[..c] + Zeros(16 - c);
    assert forall k :: c <= k < 16 ==> cleared[k] == 0;
    assert forall k :: 0 <= k < c ==> cleared[k] == out[k];
  }

  // ----- IPv6: the round trip ---------------------------------------------

  lemma HexDigitOfDigit(d: nat)
    requires d < 16
    ensures HexDigit(DIGITS[d]) == Some(d)
  {}

  lemma StepDigit(c: char, d: nat, more: string, st: Scan)
    requires HexDigit(c) == Some(d) && st.val * 16 + d <= 0xffff
    ensures Scan6([c] + more, st) == Scan6(more, st.(saw := true, val := st.val * 16 + d))
  {
    assert ([c] + more)[1..] == more;
  }

  lemma StepColon(more: string, st: Scan)
    requires if st.saw then |st.out| <= 14 else st.colon.None?
    ensures Scan6(":" + more, st) ==
      Scan6(more, if st.saw then Scan(st.out + TwoBytes(st.val), st.colon, false, 0, more)
                  else st.(colon := Some(|st.out|), tok := more))
  {
    assert (":" + more)[1..] == more;
  }

  /** One group of one digit and the colon after it. */
  lemma ReadGroup(d: nat, more: string, out: seq<byte>, colon: Option<nat>, tok: string)
    requires d < 10 && |out| <= 14
    ensures Scan6([DIGITS[d]] + (":" + more), Scan(out, colon, false, 0, tok)) ==
            Scan6(more, Scan(out + [0, d as byte], colon, false, 0, more))
  {
    HexDigitOfDigit(d);
    StepDigit(DIGITS[d], d, ":" + more, Scan(out, colon, false, 0, tok));
    StepColon(more, Scan(out, colon, true, d, tok));
    assert TwoBytes(d) == [0, d as byte];
  }

  predicate Digits(ds: seq<nat>) {
    forall i :: 0 <= i < |ds| ==> ds[i] < 10
  }

  /** The text of such groups, each with its colon, and their bytes. */
  function Groups(ds: seq<nat>): string
    requires Digits(ds)
  {
    if ds == [] then "" else [DIGITS[ds[0]]] + (":" + Groups(ds[1..]))
  }

  function Pairs(ds: seq<nat>): (r: seq<byte>)
    requires Digits(ds)
    ensures |r| == 2 * |ds|
  {
    if ds == [] then [] else [0, ds[0]] + Pairs(ds[1..])
  }

  lemma {:induction false} ReadGroups(ds: seq<nat>, more: string, out: seq<byte>, colon: Option<nat>, tok: string)
    requires Digits(ds) && |out| + 2 * |ds| <= 16
    ensures Scan6(Groups(ds) + more, Scan(out, colon, false, 0, tok)) ==
            Scan6(more, Scan(out + Pairs(ds), colon, false, 0, if ds == [] then tok else more))
    decreases |ds|
  {
    if ds == [] {
      assert "" + more == more && out + [] == out;
    } else {
      var d, rest := ds[0], Groups(ds[1..]) + more;
      assert Groups(ds) + more == [DIGITS[d]] + (":" + rest);
      ReadGroup(d, rest, out, colon, tok);
      ReadGroups(ds[1..], more, out + [0, d as byte], colon, rest);
      Associate(out, [0, d as byte], Pairs(ds[1..]));
      assert ds[1..] == [] ==> rest == more;
    }
  }

  /** Eight groups and a double colon in their midst: the last four are lost. */
  lemma DoubleColonLosesBytes() returns (s: string)
    ensures s == "1:2:3:4::5:6:7:8"
    ensures Spelled(s) == Some([0, 1, 0, 2, 0, 3, 0, 4, 0, 5, 0, 6, 0, 7, 0, 8])
    ensures Parse6(s) == Some([0, 1, 0, 2, 0, 3, 0, 4, 0, 0, 0, 0, 0, 0, 0, 0])
  {
    var ds, es := [1, 2, 3, 4], [5, 6, 7];
    FullText();
    s := Groups(ds) + (":" + (Groups(es) + "8"));
    ScanOfFull(ds, Groups(es) + "8", s);
    ReadTail(es, 8, Pairs(ds), Some(8), Groups(es) + "8");
    LosesFrom(s, Pairs(ds), Pairs(es));
    FullBytes();
  }

  lemma FullBytes()
    ensures |Pairs([1, 2, 3, 4])| == 8 && |Pairs([5, 6, 7])| == 6
    ensures Pairs([1, 2, 3, 4]) + Pairs([5, 6, 7]) + [0, 8] == [0, 1, 0, 2, 0, 3, 0, 4, 0, 5, 0, 6, 0, 7, 0, 8]
    ensures Pairs([1, 2, 3, 4]) + Zeros(8) == [0, 1, 0, 2, 0, 3, 0, 4, 0, 0, 0, 0, 0, 0, 0, 0]
  {
    FourGroups(1, 2, 3, 4);
    ThreeGroups(5, 6, 7);
  }

  lemma FullText()
    ensures Groups([1, 2, 3, 4]) + (":" + (Groups([5, 6, 7]) + "8")) == "1:2:3:4::5:6:7:8"
  {
    FourGroups(1, 2, 3, 4);
    ThreeGroups(5, 6, 7);
    assert DIGITS[1..9] == "12345678";
  }

  /** The text after the double colon: groups and a last digit. */
  lemma ReadTail(es: seq<nat>, d: nat, out: seq<byte>, colon: Option<nat>, s: string)
    requires Digits(es) && d < 10 && es != [] && |out| + 2 * |es| <= 14 && s == Groups(es) + [DIGITS[d]]
    ensures Scan6(s, Scan(out, colon, false, 0, s)) == Some(Scan(out + Pairs(es), colon, true, d, [DIGITS[d]]))
  {
    var last, st := [DIGITS[d]], Scan(out + Pairs(es), colon, false, 0, [DIGITS[d]]);
    ReadGroups(es, last, out, colon, s);
    HexDigitOfDigit(d);
    StepDigit(DIGITS[d], d, "", st);
    assert last == last + "";
  }

  /** Groups, a double colon, groups and a last digit. */
  lemma ScanOfFull(ds: seq<nat>, more: string, s: string)
    requires Digits(ds) && ds != [] && 2 * |ds| <= 16 && s == Groups(ds) + (":" + more) && s[0] != ':'
    ensures Start6(s) == Scan6(more, Scan(Pairs(ds), Some(2 * |ds|), false, 0, more))
  {
    ReadGroups(ds, ":" + more, [], None, s);
    assert [] + Pairs(ds) == Pairs(ds);
    StepColon(more, Scan(Pairs(ds), None, false, 0, ":" + more));
  }

  lemma LosesFrom(s: string, front: seq<byte>, tail: seq<byte>)
    requires |front| == 8 && |tail| == 6 && Start6(s) == Some(Scan(front + tail, Some(8), true, 8, "8"))
    ensures Spelled(s) == Some(front + tail + [0, 8]) && Parse6(s) == Some(front + Zeros(8))
  {
    DoubleColonInFullAddress(s);
    assert TwoBytes(8) == [0, 8];
    assert (front + tail + [0, 8])[..8] == front;
  }

  lemma ConsGroups(d: nat, ds: seq<nat>)
    requires d < 10 && Digits(ds)
    ensures Digits([d] + ds) && Groups([d] + ds) == [DIGITS[d], ':'] + Groups(ds)
      && Pairs([d] + ds) == [0, d] + Pairs(ds)
  {
    assert ([d] + ds)[1..] == ds;
  }

  lemma FourGroups(a: nat, b: nat, c: nat, d: nat)
    requires a < 10 && b < 10 && c < 10 && d < 10
    ensures Groups([a, b, c]) == [DIGITS[a], ':', DIGITS[b], ':', DIGITS[c], ':']
    ensures Groups([a, b, c, d]) == [DIGITS[a], ':', DIGITS[b], ':', DIGITS[c], ':', DIGITS[d], ':']
    ensures Pairs([a, b, c]) == [0, a, 0, b, 0, c] && Pairs([a, b, c, d]) == [0, a, 0, b, 0, c, 0, d]
  {
    ThreeGroups(a, b, c);
    ThreeGroups(b, c, d);
    ConsGroups(a, [b, c, d]);
    assert [a] + [b, c, d] == [a, b, c, d];
  }

  lemma ThreeGroups(a: nat, b: nat, c: nat)
    requires a < 10 && b < 10 && c < 10
    ensures Groups([a, b, c]) == [DIGITS[a], ':', DIGITS[b], ':', DIGITS[c], ':']
      && Pairs([a, b, c]) == [0, a, 0, b, 0, c]
  {
    ConsGroups(c, []);
    ConsGroups(b, [c]);
    ConsGroups(a, [b, c]);
    assert [c] + [] == [c] && [b] + [c] == [b, c] && [a] + [b, c] == [a, b, c];
  }

  lemma StepDot(s: string, st: Scan)
    requires s != "" && s[0] == '.' && |st.out| <= 12 && Parse4(st.tok).Some?
    ensures Scan6(s, st) == Some(st.(out := st.out + Parse4(st.tok).value, saw := false))
  {}

  lemma {:induction false} ScanHex(w: word, more: string, st: Scan)
    requires !st.saw && st.val == 0
    ensures Scan6(HexText(w) + more, st) == Scan6(more, st.(saw := true, val := w))
  {
    HexDigitOfDigit(w % 16);
    if w < 16 {
      StepDigit(DIGITS[w], w, more, st);
    } else {
      var last := [DIGITS[w % 16]];
      Associate(HexText(w / 16), last, more);
      ScanHex(w / 16, last + more, st);
      StepDigit(DIGITS[w % 16], w % 16, more, st.(saw := true, val := w / 16));
    }
  }

  /** The value the scan holds after reading a decimal octet as hexadecimal. */
  function DecAsHex(v: nat): nat {
    if v < 10 then v else DecAsHex(v / 10) * 16 + v % 10
  }

  lemma {:induction false} DecAsHexBound(v: nat)
    requires v < 1000
    ensures DecAsHex(v) < (if v < 10 then 16 else if v < 100 then 256 else 4096)
  {
    if v >= 10 {
      DecAsHexBound(v / 10);
    }
  }

  lemma {:induction false} ScanDec6(v: byte, more: string, st: Scan)
    requires !st.saw && st.val == 0
    ensures Scan6(DecText(v) + more, st) == Scan6(more, st.(saw := true, val := DecAsHex(v)))
  {
    HexDigitOfDigit(v % 10);
    DecAsHexBound(v);
    if v < 10 {
      StepDigit(DIGITS[v], v, more, st);
    } else {
      var last := [DIGITS[v % 10]];
      Associate(DecText(v / 10), last, more);
      ScanDec6(v / 10, last + more, st);
      StepDigit(DIGITS[v % 10], v % 10, more, st.(saw := true, val := DecAsHex(v / 10)));
    }
  }

  lemma ScanQuad(a: seq<byte>, st: Scan)
    requires |a| == 4 && !st.saw && st.val == 0 && st.tok == Text4(a) && |st.out| <= 12
    ensures Scan6(Text4(a), st).Some?
    ensures var r := Scan6(Text4(a), st).value; r.out == st.out + a && r.colon == st.colon && !r.saw
  {
    var more := "." + (DecText(a[1]) + ("." + (DecText(a[2]) + ("." + DecText(a[3])))));
    ScanDec6(a[0], more, st);
    RoundTrip4(a);
    StepDot(more, st.(saw := true, val := DecAsHex(a[0])));
  }

  /** The groups outside the run, among the first i. */
  function Kept(a: seq<byte>, base: int, len: int, i: nat): seq<byte>
    requires |a| == 16 && i <= 8
    requires base == -1 || (0 <= base && 0 <= len && base + len <= 8)
  {
    if base == -1 || i <= base then a[..2 * i]
    else if i < base + len then a[..2 * base]
    else a[..2 * base] + a[2 * (base + len)..2 * i]
  }

  /** The scan's variables when the text from group i on is about to be read. */
  ghost predicate ReadyAt(a: seq<byte>, base: int, len: int, i: nat, st: Scan)
    requires |a| == 16 && i <= 8
    requires base == -1 || (0 <= base && 0 <= len && base + len <= 8)
  {
    if i == 0 || (base != -1 && base < i <= base + len) then
      st.out == Kept(a, base, len, i) && st.colon == None && !st.saw && st.val == 0
    else
      && st.out == Kept(a, base, len, i - 1) && st.saw && st.val == Words(a)[i - 1]
      && st.colon == (if base != -1 && i > base + len then Some(2 * base) else None)
  }

  lemma KeptStep(a: seq<byte>, base: int, len: int, i: nat)
    requires |a| == 16 && 0 < i <= 8
    requires base == -1 || (0 <= base && 0 <= len && base + len <= 8 && (i <= base || base + len < i))
    ensures Kept(a, base, len, i - 1) + TwoBytes(Words(a)[i - 1]) == Kept(a, base, len, i)
    ensures |Kept(a, base, len, i - 1)| <= 14
  {
    assert TwoBytes(Words(a)[i - 1]) == a[2 * (i - 1)..2 * i];
  }

  predicate RunOf(a: seq<byte>, base: int, len: int)
    requires |a| == 16
  {
    base == -1 || (ZeroRun(Words(a), base, len) && len >= 2)
  }

  lemma ZeroRunBytes(a: seq<byte>, base: int, len: int)
    requires |a| == 16 && ZeroRun(Words(a), base, len)
    ensures a == a[..2 * base] + Zeros(2 * len) + a[2 * (base + len)..]
  {
    forall k | 2 * base <= k < 2 * (base + len) ensures a[k] == 0 {
      assert Words(a)[k / 2] == 0;
    }
  }

  /** The expansion of the double colon puts back the zero groups. */
  lemma KeptExpands(a: seq<byte>, base: int, len: int)
    requires |a| == 16 && RunOf(a, base, len)
    ensures if base == -1 then Kept(a, base, len, 8) == a
            else |Kept(a, base, len, 8)| == 16 - 2 * len && Shifted(Kept(a, base, len, 8), 2 * base) == a
  {
    if base != -1 {
      ZeroRunBytes(a, base, len);
      var out := Kept(a, base, len, 8);
      assert out[..2 * base] == a[..2 * base] && out[2 * base..] == a[2 * (base + len)..];
    }
  }

  lemma {:induction false} InsideRun(a: seq<byte>, base: int, len: int, i: nat)
    requires |a| == 16 && base != -1 && RunOf(a, base, len) && base < i <= base + len
    ensures TextFrom(a, base, len, i) == TextFrom(a, base, len, base + len)
    decreases 8 - i
  {
    if i < base + len {
      InsideRun(a, base, len, i + 1);
    }
  }

  /** From a scan ready for group i, reading the rest of the printed text and
      finishing gives the address. */
  ghost predicate ReadsBack(a: seq<byte>, s: string, st: Scan) {
    var r := Scan6(s, st);
    r.Some? && Finish6(r.value) == Some(a)
  }

  lemma ReadsBackAtEnd(a: seq<byte>, base: int, len: int, st: Scan)
    requires |a| == 16 && RunOf(a, base, len) && ReadyAt(a, base, len, 8, st)
    ensures ReadsBack(a, TextFrom(a, base, len, 8), st)
  {
    KeptExpands(a, base, len);
    if base != -1 && base + len == 8 {
      assert (":")[1..] == "";
      assert Scan6(":", st) == Some(st.(colon := Some(|st.out|), tok := ""));
    } else {
      KeptStep(a, base, len, 8);
    }
  }

  /** Reading the separator before group i: it closes the group before it, or
      is the second half of a double colon. */
  lemma ReadSeparator(a: seq<byte>, base: int, len: int, i: nat, more: string, st: Scan) returns (next: Scan)
    requires |a| == 16 && RunOf(a, base, len) && 0 < i < 8 && ReadyAt(a, base, len, i, st)
    requires base == -1 || i <= base || base + len <= i
    ensures Scan6(":" + more, st) == Scan6(more, next)
    ensures next.out == Kept(a, base, len, i) && !next.saw && next.val == 0 && next.tok == more
    ensures next.colon == if base != -1 && i >= base + len then Some(2 * base) else None
  {
    StepColon(more, st);
    if st.saw {
      KeptStep(a, base, len, i);
      next := Scan(st.out + TwoBytes(st.val), st.colon, false, 0, more);
    } else {
      next := st.(colon := Some(|st.out|), tok := more);
    }
  }

  lemma ReadsBackVia(a: seq<byte>, s: string, st: Scan, t: string, next: Scan)
    requires Scan6(s, st) == Scan6(t, next) && ReadsBack(a, t, next)
    ensures ReadsBack(a, s, st)
  {}

  lemma ReadsBackQuad(a: seq<byte>, base: int, len: int, st: Scan)
    requires |a| == 16 && RunOf(a, base, len) && ReadyAt(a, base, len, 6, st) && EmbedsIpv4(Words(a), base, len)
    ensures ReadsBack(a, ":" + Text4(a[12..16]), st)
  {
    var quad := a[12..16];
    var next := ReadSeparator(a, base, len, 6, Text4(quad), st);
    assert next.out + quad == Kept(a, base, len, 8) by {
      assert Kept(a, base, len, 6) + quad == Kept(a, base, len, 8);
    }
    FinishQuad(a, base, len, next);
    ReadsBackVia(a, ":" + Text4(quad), st, Text4(quad), next);
  }

  lemma FinishQuad(a: seq<byte>, base: int, len: int, st: Scan)
    requires |a| == 16 && RunOf(a, base, len) && base == 0 && len >= 5 && st.out + a[12..16] == Kept(a, base, len, 8)
    requires !st.saw && st.val == 0 && st.tok == Text4(a[12..16]) && st.colon == Some(0)
    ensures ReadsBack(a, Text4(a[12..16]), st)
  {
    KeptExpands(a, base, len);
    ScanQuad(a[12..16], st);
  }

  lemma ReadyAfterRun(a: seq<byte>, base: int, len: int, more: string, st: Scan) returns (next: Scan)
    requires |a| == 16 && 0 < base && RunOf(a, base, len) && ReadyAt(a, base, len, base, st)
    ensures Scan6(":" + more, st) == Scan6(more, next)
    ensures ReadyAt(a, base, len, base + len, next)
  {
    next := ReadSeparator(a, base, len, base, more, st);
    assert Kept(a, base, len, base + len) == Kept(a, base, len, base);
  }

  lemma {:induction false} ReadsBackFrom(a: seq<byte>, base: int, len: int, i: nat, st: Scan)
    requires |a| == 16 && RunOf(a, base, len) && i <= 8 && ReadyAt(a, base, len, i, st)
    requires base == -1 || i <= base || base + len <= i
    requires i == 0 ==> base != 0
    ensures ReadsBack(a, TextFrom(a, base, len, i), st)
    decreases 8 - i, 1
  {
    if i == 8 {
      ReadsBackAtEnd(a, base, len, st);
    } else if i == base {
      TextAtRun(a, base, len);
      ReadsBackRun(a, base, len, st);
    } else if i == 6 && EmbedsIpv4(Words(a), base, len) {
      ReadsBackQuad(a, base, len, st);
    } else {
      ReadsBackGroup(a, base, len, i, st);
    }
  }

  lemma {:induction false} ReadsBackRun(a: seq<byte>, base: int, len: int, st: Scan)
    requires |a| == 16 && 0 < base && RunOf(a, base, len) && ReadyAt(a, base, len, base, st)
    ensures ReadsBack(a, ":" + TextFrom(a, base, len, base + len), st)
    decreases 8 - base, 0
  {
    var more := TextFrom(a, base, len, base + len);
    var next := ReadyAfterRun(a, base, len, more, st);
    ReadsBackFrom(a, base, len, base + len, next);
  }

  lemma {:induction false} ReadsBackGroup(a: seq<byte>, base: int, len: int, i: nat, st: Scan)
    requires |a| == 16 && RunOf(a, base, len) && i < 8 && ReadyAt(a, base, len, i, st)
    requires base == -1 || i < base || base + len <= i
    requires !(i == 6 && EmbedsIpv4(Words(a), base, len))
    ensures ReadsBack(a, TextFrom(a, base, len, i), st)
    decreases 8 - i, 0
  {
    var group, more := HexText(Words(a)[i]), TextFrom(a, base, len, i + 1);
    var next := st;
    if i > 0 {
      Associate(":", group, more);
      next := ReadSeparator(a, base, len, i, group + more, st);
    } else {
      assert "" + group == group;
    }
    ScanHex(Words(a)[i], more, next);
    ReadsBackFrom(a, base, len, i + 1, next.(saw := true, val := Words(a)[i]));
  }

  lemma TextAtRun(a: seq<byte>, base: int, len: int)
    requires |a| == 16 && base != -1 && RunOf(a, base, len)
    ensures TextFrom(a, base, len, base) == ":" + TextFrom(a, base, len, base + len)
  {
    InsideRun(a, base, len, base + 1);
  }

  lemma FirstCharOfText(a: seq<byte>, base: int, len: int)
    requires |a| == 16 && RunOf(a, base, len)
    ensures base == 0 ==>
      var text := TextFrom(a, 0, len, len); Text6(a, 0, len) == ":" + text && text != "" && text[0] == ':'
    ensures base != 0 ==> Text6(a, base, len) != "" && Text6(a, base, len)[0] != ':'
  {
    if base == 0 {
      TextAtRun(a, base, len);
    } else {
      HexTextStartsWithDigit(Words(a)[0]);
    }
  }

  lemma {:induction false} HexTextStartsWithDigit(w: nat)
    ensures HexText(w)[0] != ':'
  {
    if w >= 16 {
      HexTextStartsWithDigit(w / 16);
    }
  }

  /** inet_pton6 inverts inet_ntop6 on every 128-bit address, and would do so
      whichever run of two or more zero groups the printer compressed. */
  lemma RoundTrip6(a: seq<byte>, base: int, len: int)
    requires |a| == 16 && RunOf(a, base, len)
    ensures Parse6(Text6(a, base, len)) == Some(a)
  {
    FirstCharOfText(a, base, len);
    var s := Text6(a, base, len);
    if base == 0 {
      var t := TextFrom(a, 0, len, len);
      assert s[1..] == t && s[1] == ':';
      ReadsBackFrom(a, base, len, len, SCAN_START.(tok := t));
    } else {
      ReadsBackFrom(a, base, len, 0, SCAN_START.(tok := s));
    }
  }
}
