/** The texts that inet_pton6 accepts, and what they mean, said without its scan:
    groups between colons, at most one of them left out, the last possibly a
    dotted quad. */
module InetGrammar {
  import opened Bytes
  import opened InetText

  // ----- Groups -----------------------------------------------------------

  /** Upper case folded to lower. */
  function Fold(c: char): char {
    if 'A' <= c <= 'Z' then (c as int + 32) as char else c
  }

  const XDIGITS := "0123456789abcdef"

  /** The place of a character among the digits from place i on, 16 for none. */
  function Place(c: char, i: nat): (v: nat)
    requires i <= 16
    ensures i <= v <= 16
    decreases 16 - i
  {
    if i == 16 || XDIGITS[i] == c then i else Place(c, i + 1)
  }

  predicate IsHex(g: string) {
    forall c :: c in g ==> Place(Fold(c), 0) < 16
  }

  function HexValue(g: string): nat {
    if g == "" then 0 else HexValue(g[..|g| - 1]) * 16 + Place(Fold(g[|g| - 1]), 0)
  }

  /** A group: hexadecimal digits, at least one, any number of leading zeros, at most
      0xffff in value. */
  predicate IsGroup(g: string) {
    g != "" && IsHex(g) && HexValue(g) <= 0xffff
  }

  // ----- Addresses --------------------------------------------------------

  /** The bytes of the groups before the last; an empty one gives none. */
  function FrontBytes(gs: seq<string>): seq<byte>
    requires forall i :: 0 <= i < |gs| ==> gs[i] == "" || IsGroup(gs[i])
  {
    if gs == [] then []
    else FrontBytes(gs[..|gs| - 1]) + (var g := gs[|gs| - 1]; if g == "" then [] else TwoBytes(HexValue(g)))
  }

  /** The bytes of the last group: none, two, or the four of a dotted quad. */
  function LastBytes(g: string): Option<seq<byte>> {
    if g == "" then Some([]) else if IsGroup(g) then Some(TwoBytes(HexValue(g))) else Quad(g)
  }

  /** The groups between the colons make an address. An empty group with a colon
      behind it stands for zeros; there is at most one. A colon at the very end is
      allowed. */
  predicate WellFormed(gs: seq<string>)
    requires gs != []
  {
    && (forall i :: 0 <= i < |gs| - 1 ==> gs[i] == "" || IsGroup(gs[i]))
    && (forall i, j :: 0 <= i < j < |gs| - 1 ==> gs[i] != "" || gs[j] != "")
    && LastBytes(gs[|gs| - 1]).Some?
  }

  function Spelt(gs: seq<string>): seq<byte>
    requires gs != [] && WellFormed(gs)
  {
    FrontBytes(gs[..|gs| - 1]) + LastBytes(gs[|gs| - 1]).value
  }

  /** Where the empty group is, |gs| - 1 for nowhere. */
  function Gap(gs: seq<string>, i: nat): (e: nat)
    requires i < |gs|
    ensures i <= e < |gs| && (e < |gs| - 1 ==> gs[e] == "") && forall k :: i <= k < e ==> gs[k] != ""
    decreases |gs| - i
  {
    if i == |gs| - 1 || gs[i] == "" then i else Gap(gs, i + 1)
  }

  /** The address of the groups: sixteen bytes spelt out, or fewer with the gap filled
      by zeros. (With a gap and all sixteen, what follows the gap is lost.) */
  function FromGroups(gs: seq<string>): Option<seq<byte>>
    requires gs != []
  {
    if !WellFormed(gs) || |Spelt(gs)| > 16 then None
    else
      GapFits(gs);
      Filled(Spelt(gs), GapAt(gs))
  }

  /** Where the gap is, in bytes. */
  function GapAt(gs: seq<string>): Option<nat>
    requires gs != []
  {
    if Gap(gs, 0) == |gs| - 1 then None else Some(2 * Gap(gs, 0))
  }

  function Filled(bytes: seq<byte>, at: Option<nat>): Option<seq<byte>>
    requires |bytes| <= 16 && (at.Some? ==> at.value <= |bytes|)
  {
    if at.None? then if |bytes| == 16 then Some(bytes) else None
    else if |bytes| == 16 then Some(bytes[..at.value] + Zeros(16 - at.value))
    else Some(bytes[..at.value] + Zeros(16 - |bytes|) + bytes[at.value..])
  }

  predicate FrontOk(gs: seq<string>) {
    forall i :: 0 <= i < |gs| ==> gs[i] == "" || IsGroup(gs[i])
  }

  /** Groups before the gap give two bytes each, and later ones only add. */
  lemma {:induction false} FrontBytesOf(gs: seq<string>, k: nat)
    requires FrontOk(gs) && k <= |gs|
    ensures FrontBytes(gs[..k]) <= FrontBytes(gs)
    ensures (forall i :: 0 <= i < k ==> gs[i] != "") ==> |FrontBytes(gs[..k])| == 2 * k
    decreases |gs| + k
  {
    if k < |gs| {
      var init := gs[..|gs| - 1];
      FrontBytesOf(init, k);
      assert init[..k] == gs[..k];
    } else {
      assert gs[..k] == gs;
      if k > 0 {
        FrontBytesOf(gs[..k - 1], k - 1);
        assert gs[..k - 1][..k - 1] == gs[..k - 1];
      }
    }
  }

  lemma GapFits(gs: seq<string>)
    requires gs != [] && WellFormed(gs)
    ensures GapAt(gs).Some? ==> GapAt(gs).value <= |Spelt(gs)|
  {
    var e, init := Gap(gs, 0), gs[..|gs| - 1];
    FrontBytesOf(init, if e < |gs| - 1 then e else 0);
  }

  /** The text without a first colon. */
  function Body(s: string): string {
    if s != "" && s[0] == ':' then s[1..] else s
  }

  /** A text may start with a double colon, but not with a single one. */
  function Address6(s: string): Option<seq<byte>> {
    if s != "" && s[0] == ':' && (|s| == 1 || s[1] != ':') then None else FromGroups(Split(':', Body(s)))
  }

  // ----- Group by group ---------------------------------------------------

  /** What the text read so far amounts to, when it ends here. */
  function Done(out: seq<byte>, colon: Option<nat>): Option<seq<byte>> {
    if colon.Some? && colon.value <= |out| <= 16 then Some(Shifted(out, colon.value))
    else if colon.None? && |out| == 16 then Some(out)
    else None
  }

  /** The judgement on the groups still to come. */
  function Judge(gs: seq<string>, out: seq<byte>, colon: Option<nat>): Option<seq<byte>>
    requires gs != []
    decreases |gs|
  {
    var g := gs[0];
    if |gs| == 1 then
      if LastBytes(g).Some? && |out| + |LastBytes(g).value| <= 16 then Done(out + LastBytes(g).value, colon) else None
    else if g == "" then
      if colon.Some? then None else Judge(gs[1..], out, Some(|out|))
    else if IsGroup(g) && |out| + 2 <= 16 then Judge(gs[1..], out + TwoBytes(HexValue(g)), colon)
    else None
  }

  // ----- Digits -----------------------------------------------------------

  lemma {:induction false} PlaceIsFirst(c: char, i: nat, v: nat)
    requires i <= v < 16 && XDIGITS[v] == c && forall k :: i <= k < v ==> XDIGITS[k] != c
    ensures Place(c, i) == v
    decreases 16 - i
  {
    if i < v {
      PlaceIsFirst(c, i + 1, v);
    }
  }

  lemma {:induction false} PlaceIsNowhere(c: char, i: nat)
    requires i <= 16 && forall k :: i <= k < 16 ==> XDIGITS[k] != c
    ensures Place(c, i) == 16
    decreases 16 - i
  {
    if i < 16 {
      PlaceIsNowhere(c, i + 1);
    }
  }

  lemma XdigitsAre(k: nat)
    requires k < 16
    ensures XDIGITS[k] as int == if k < 10 then '0' as int + k else 'a' as int + k - 10
  {}

  lemma PlaceOf(c: char)
    ensures Place(c, 0) ==
      if '0' <= c <= '9' then c as int - '0' as int else if 'a' <= c <= 'f' then c as int - 'a' as int + 10 else 16
  {
    forall k | 0 <= k < 16 ensures XDIGITS[k] as int == if k < 10 then '0' as int + k else 'a' as int + k - 10 {
      XdigitsAre(k);
    }
    if '0' <= c <= '9' {
      PlaceIsFirst(c, 0, c as int - '0' as int);
    } else if 'a' <= c <= 'f' {
      PlaceIsFirst(c, 0, c as int - 'a' as int + 10);
    } else {
      PlaceIsNowhere(c, 0);
    }
  }

  /** The two searches of the code find the place of the folded character. */
  lemma HexDigitIsPlace(c: char)
    ensures HexDigit(c) == if Place(Fold(c), 0) < 16 then Some(Place(Fold(c), 0)) else None
  {
    PlaceOf(Fold(c));
  }

  // ----- The judgement is the definition ----------------------------------

  /** Where the gap is among the first k groups, in bytes. */
  function ColonAt(gs: seq<string>, k: nat): Option<nat>
    requires k < |gs|
  {
    if Gap(gs, 0) < k then Some(2 * Gap(gs, 0)) else None
  }

  /** The first k groups are in order. */
  predicate FirstOk(gs: seq<string>, k: nat)
    requires k < |gs|
  {
    FrontOk(gs[..k]) && forall i, j :: 0 <= i < j < k ==> gs[i] != "" || gs[j] != ""
  }

  lemma OneGroupMore(gs: seq<string>, k: nat)
    requires k + 1 < |gs| && FirstOk(gs, k) && (gs[k] == "" || IsGroup(gs[k]))
    ensures FrontOk(gs[..k + 1])
    ensures FrontBytes(gs[..k + 1]) == FrontBytes(gs[..k]) + (if gs[k] == "" then [] else TwoBytes(HexValue(gs[k])))
    ensures (gs[k] == "" ==> ColonAt(gs, k).None?) ==> FirstOk(gs, k + 1)
  {
    var more := gs[..k + 1];
    assert more[..k] == gs[..k] && more[k] == gs[k];
    forall i | 0 <= i < k + 1 ensures more[i] == "" || IsGroup(more[i]) {
      assert i < k ==> more[i] == gs[..k][i];
    }
  }

  /** Too many bytes already. */
  lemma TooMany(gs: seq<string>, k: nat)
    requires k + 1 < |gs| && FirstOk(gs, k) && IsGroup(gs[k]) && |FrontBytes(gs[..k])| + 2 > 16
    ensures FromGroups(gs) == None
  {
    if WellFormed(gs) {
      var init := gs[..|gs| - 1];
      OneGroupMore(gs, k);
      FrontBytesOf(init, k + 1);
      assert init[..k + 1] == gs[..k + 1];
    }
  }

  /** A second gap. */
  lemma SecondGap(gs: seq<string>, k: nat)
    requires k + 1 < |gs| && gs[k] == "" && Gap(gs, 0) < k
    ensures FromGroups(gs) == None
  {
    assert gs[Gap(gs, 0)] == "";
  }

  /** One group of several. */
  lemma JudgeStep(gs: seq<string>, k: nat, out: seq<byte>, colon: Option<nat>)
    requires k + 1 < |gs|
    ensures Judge(gs[k..], out, colon) ==
      if gs[k] == "" then if colon.Some? then None else Judge(gs[k + 1..], out, Some(|out|))
      else if IsGroup(gs[k]) && |out| + 2 <= 16 then Judge(gs[k + 1..], out + TwoBytes(HexValue(gs[k])), colon)
      else None
  {
    assert gs[k..][0] == gs[k] && gs[k..][1..] == gs[k + 1..];
  }

  lemma {:induction false} JudgeIsDefinition(gs: seq<string>, k: nat)
    requires k < |gs| && FirstOk(gs, k) && |FrontBytes(gs[..k])| <= 16
    ensures Judge(gs[k..], FrontBytes(gs[..k]), ColonAt(gs, k)) == FromGroups(gs)
    decreases |gs| - k, 1
  {
    if k == |gs| - 1 {
      JudgeLast(gs);
    } else if gs[k] == "" {
      JudgeGap(gs, k);
    } else {
      JudgeGroup(gs, k);
    }
  }

  lemma {:induction false} JudgeGap(gs: seq<string>, k: nat)
    requires k + 1 < |gs| && FirstOk(gs, k) && |FrontBytes(gs[..k])| <= 16 && gs[k] == ""
    ensures Judge(gs[k..], FrontBytes(gs[..k]), ColonAt(gs, k)) == FromGroups(gs)
    decreases |gs| - k, 0
  {
    JudgeStep(gs, k, FrontBytes(gs[..k]), ColonAt(gs, k));
    if ColonAt(gs, k).Some? {
      SecondGap(gs, k);
    } else {
      OneGroupMore(gs, k);
      GapIs(gs, k);
      assert gs[..k][..k] == gs[..k];
      FrontBytesOf(gs[..k], k);
      assert FrontBytes(gs[..k]) + [] == FrontBytes(gs[..k]);
      JudgeIsDefinition(gs, k + 1);
    }
  }

  lemma {:induction false} JudgeGroup(gs: seq<string>, k: nat)
    requires k + 1 < |gs| && FirstOk(gs, k) && |FrontBytes(gs[..k])| <= 16 && gs[k] != ""
    ensures Judge(gs[k..], FrontBytes(gs[..k]), ColonAt(gs, k)) == FromGroups(gs)
    decreases |gs| - k, 0
  {
    JudgeStep(gs, k, FrontBytes(gs[..k]), ColonAt(gs, k));
    if !IsGroup(gs[k]) {
      assert !WellFormed(gs);
    } else if |FrontBytes(gs[..k])| + 2 > 16 {
      TooMany(gs, k);
    } else {
      OneGroupMore(gs, k);
      SameGap(gs, k);
      JudgeIsDefinition(gs, k + 1);
    }
  }

  lemma GapIs(gs: seq<string>, k: nat)
    requires k + 1 < |gs| && gs[k] == "" && ColonAt(gs, k).None?
    ensures Gap(gs, 0) == k && ColonAt(gs, k + 1) == Some(2 * k) && forall i :: 0 <= i < k ==> gs[i] != ""
  {}

  lemma SameGap(gs: seq<string>, k: nat)
    requires k + 1 < |gs| && gs[k] != ""
    ensures ColonAt(gs, k + 1) == ColonAt(gs, k)
  {}

  lemma JudgeLast(gs: seq<string>)
    requires gs != [] && FirstOk(gs, |gs| - 1) && |FrontBytes(gs[..|gs| - 1])| <= 16
    ensures Judge([gs[|gs| - 1]], FrontBytes(gs[..|gs| - 1]), ColonAt(gs, |gs| - 1)) == FromGroups(gs)
    ensures gs[|gs| - 1..] == [gs[|gs| - 1]]
  {
    var k := |gs| - 1;
    var init, last := gs[..k], LastBytes(gs[k]);
    assert forall i :: 0 <= i < k ==> gs[i] == init[i];
    assert WellFormed(gs) <==> last.Some?;
    if last.Some? && |FrontBytes(init)| + |last.value| <= 16 {
      GapFits(gs);
      DoneIsFilled(Spelt(gs), GapAt(gs));
    }
  }

  lemma DoneIsFilled(bytes: seq<byte>, at: Option<nat>)
    requires |bytes| <= 16 && (at.Some? ==> at.value <= |bytes|)
    ensures Done(bytes, at) == Filled(bytes, at)
  {}

  // ----- The scan is the judgement ----------------------------------------

  lemma HexCons(p: string, c: char)
    ensures HexValue(p + [c]) == HexValue(p) * 16 + Place(Fold(c), 0)
    ensures IsHex(p + [c]) <==> IsHex(p) && HexDigit(c).Some?
  {
    var q := p + [c];
    assert q[..|q| - 1] == p && q[|p|] == c;
    HexDigitIsPlace(c);
    if IsHex(q) {
      assert forall d :: d in p ==> d in q;
      assert c in q;
    }
  }

  lemma {:induction false} HexGrows(p: string, q: string)
    requires IsHex(p + q)
    ensures IsHex(p) && HexValue(p) <= HexValue(p + q)
    decreases |q|
  {
    if q == "" {
      assert p + q == p;
    } else {
      var init, c := q[..|q| - 1], q[|q| - 1];
      assert (p + init) + [c] == p + q;
      HexCons(p + init, c);
      HexGrows(p, init);
    }
  }

  lemma {:induction false} SplitChars(sep: char, s: string, c: char)
    requires c in s && c != sep
    ensures exists i :: 0 <= i < |Split(sep, s)| && c in Split(sep, s)[i]
  {
    var gs, tail := Split(sep, s), Split(sep, s[1..]);
    if s[0] != sep && c == s[0] {
      assert c in gs[0];
    } else {
      SplitChars(sep, s[1..], c);
      var i :| 0 <= i < |tail| && c in tail[i];
      if s[0] == sep {
        assert gs[i + 1] == tail[i];
      } else {
        assert i == 0 ==> gs[0] == [s[0]] + tail[0];
        assert i > 0 ==> gs[i] == tail[i];
      }
    }
  }

  lemma {:induction false} SplitSingle(sep: char, s: string)
    ensures if sep in s then |Split(sep, s)| > 1 else Split(sep, s) == [s]
  {
    if s != "" {
      SplitSingle(sep, s[1..]);
      assert [s[0]] + s[1..] == s;
    }
  }

  /** A dotted quad consists of digits and dots. */
  lemma QuadChars(g: string, c: char)
    requires Quad(g).Some? && c in g
    ensures IsDigit(c) || c == '.'
  {
    if c != '.' {
      SplitChars('.', g, c);
      var i :| 0 <= i < |Split('.', g)| && c in Split('.', g)[i];
      assert IsOctet(Split('.', g)[i]);
    }
  }

  lemma {:induction false} SplitAfter(sep: char, p: string, s: string)
    requires sep !in p
    ensures Split(sep, p + s) == [p + Split(sep, s)[0]] + Split(sep, s)[1..]
    decreases |p|
  {
    var gs := Split(sep, s);
    if p == "" {
      assert p + s == s && p + gs[0] == gs[0];
    } else {
      assert (p + s)[0] == p[0] && (p + s)[1..] == p[1..] + s;
      assert forall c :: c in p[1..] ==> c in p;
      SplitAfter(sep, p[1..], s);
      assert [p[0]] + (p[1..] + gs[0]) == p + gs[0];
    }
  }

  lemma {:induction false} DecimalAsHex(p: string)
    requires AllDigits(p)
    ensures IsHex(p) && HexValue(p) == DecAsHex(Decimal(p))
    decreases |p|
  {
    if p != "" {
      var init, c := p[..|p| - 1], p[|p| - 1];
      assert init + [c] == p && forall d :: d in init ==> d in p;
      DecimalAsHex(init);
      HexCons(init, c);
      HexDigitIsPlace(c);
      var v, w, d := Decimal(p), Decimal(init), DigitValue(c);
      assert v == w * 10 + d && d < 10;
      assert v / 10 == w && v % 10 == d;
    }
  }

  /** The start of a dotted quad, read as hexadecimal digits, is small. */
  lemma QuadStart(p: string, s: string)
    requires IsHex(p) && Quad(p + s).Some?
    ensures HexValue(p) <= 0xffff
  {
    forall c | c in p ensures c != '.' {
      HexDigitIsPlace(c);
    }
    var o, q := Split('.', p + s)[0], Split('.', s)[0];
    SplitAfter('.', p, s);
    assert IsOctet(o) && o == p + q;
    DecimalGrows(p, q);
    DecimalAsHex(p);
    DecAsHexBound(Decimal(p));
  }

  function Result(r: Option<Scan>): Option<seq<byte>> {
    if r.None? then None else Finish6(r.value)
  }

  /** The groups still to come, p being the start of the first of them. */
  function Ahead(p: string, s: string): (gs: seq<string>)
    ensures gs != []
  {
    [p + Split(':', s)[0]] + Split(':', s)[1..]
  }

  ghost predicate Judged(s: string, out: seq<byte>, colon: Option<nat>, p: string) {
    Result(Scan6(s, Scan(out, colon, p != "", HexValue(p), p + s))) == Judge(Ahead(p, s), out, colon)
  }

  predicate Ready(out: seq<byte>, colon: Option<nat>, p: string) {
    |out| <= 16 && (p == "" || IsGroup(p)) && (colon.Some? ==> colon.value <= |out|)
  }

  lemma JudgedAtEnd(out: seq<byte>, colon: Option<nat>, p: string)
    requires Ready(out, colon, p)
    ensures Judged("", out, colon, p)
  {
    assert Split(':', "") == [""] && p + "" == p && Ahead(p, "") == [p];
    assert out + [] == out;
  }

  lemma NextDigit(s: string, p: string)
    requires s != "" && HexDigit(s[0]).Some? && (p == "" || IsGroup(p))
    ensures var p' := p + [s[0]];
      && p' != "" && IsHex(p') && HexValue(p') == HexValue(p) * 16 + HexDigit(s[0]).value
      && p' + s[1..] == p + s && Ahead(p, s) == Ahead(p', s[1..])
  {
    DigitGrows(p, s[0]);
    DigitAhead(s, p);
    assert [s[0]] + s[1..] == s;
    Associate(p, [s[0]], s[1..]);
  }

  lemma DigitGrows(p: string, c: char)
    requires HexDigit(c).Some? && (p == "" || IsGroup(p))
    ensures IsHex(p + [c]) && HexValue(p + [c]) == HexValue(p) * 16 + HexDigit(c).value
  {
    HexCons(p, c);
    HexDigitIsPlace(c);
  }

  lemma JudgedDigit(s: string, out: seq<byte>, colon: Option<nat>, p: string)
    requires Ready(out, colon, p) && s != "" && HexDigit(s[0]).Some?
    requires IsGroup(p + [s[0]]) && Judged(s[1..], out, colon, p + [s[0]])
    ensures Judged(s, out, colon, p)
  {
    NextDigit(s, p);
    ScanGroupDigit(s, out, colon, p, p + [s[0]]);
  }

  lemma ScanGroupDigit(s: string, out: seq<byte>, colon: Option<nat>, p: string, p': string)
    requires s != "" && HexDigit(s[0]).Some? && p' != "" && p + s == p' + s[1..] && HexValue(p') <= 0xffff
    requires HexValue(p') == HexValue(p) * 16 + HexDigit(s[0]).value
    ensures Scan6(s, Scan(out, colon, p != "", HexValue(p), p + s)) ==
            Scan6(s[1..], Scan(out, colon, p' != "", HexValue(p'), p' + s[1..]))
  {}

  lemma JudgedOverflow(s: string, out: seq<byte>, colon: Option<nat>, p: string)
    requires Ready(out, colon, p) && s != "" && HexDigit(s[0]).Some? && !IsGroup(p + [s[0]])
    ensures Judged(s, out, colon, p)
  {
    NextDigit(s, p);
    ScanDigit(s, Scan(out, colon, p != "", HexValue(p), p + s));
    TooBig(p + [s[0]], s[1..], out, colon);
  }

  lemma DigitAhead(s: string, p: string)
    requires s != "" && HexDigit(s[0]).Some?
    ensures Ahead(p, s) == Ahead(p + [s[0]], s[1..])
  {
    var tail := Split(':', s[1..]);
    assert p + ([s[0]] + tail[0]) == (p + [s[0]]) + tail[0];
  }

  lemma ScanDigit(s: string, st: Scan)
    requires s != "" && HexDigit(s[0]).Some?
    ensures var v := st.val * 16 + HexDigit(s[0]).value;
      Scan6(s, st) == if v > 0xffff then None else Scan6(s[1..], st.(val := v, saw := true))
  {}

  /** A group that has outgrown 0xffff. */
  lemma TooBig(p: string, s: string, out: seq<byte>, colon: Option<nat>)
    requires p != "" && IsHex(p) && HexValue(p) > 0xffff
    ensures Judge(Ahead(p, s), out, colon) == None
  {
    var q := Split(':', s)[0];
    var g := p + q;
    if IsHex(g) {
      HexGrows(p, q);
    }
    if Quad(g).Some? {
      QuadStart(p, q);
    }
  }

  lemma JudgedColon(s: string, out: seq<byte>, colon: Option<nat>, p: string)
    requires Ready(out, colon, p) && s != "" && s[0] == ':'
    requires p == "" && colon.None? ==> Judged(s[1..], out, Some(|out|), "")
    requires p != "" && |out| + 2 <= 16 ==> Judged(s[1..], out + TwoBytes(HexValue(p)), colon, "")
    ensures Judged(s, out, colon, p)
  {
    var more := s[1..];
    assert p + "" == p && "" + more == more && "" + Split(':', more)[0] == Split(':', more)[0];
    assert Ahead(p, s) == [p] + Split(':', more) && Ahead("", more) == Split(':', more);
    assert ([p] + Split(':', more))[1..] == Split(':', more);
    HexDigitIsPlace(':');
  }

  lemma JudgedDot(s: string, out: seq<byte>, colon: Option<nat>, p: string)
    requires Ready(out, colon, p) && s != "" && s[0] == '.'
    ensures Judged(s, out, colon, p)
  {
    var st, g := Scan(out, colon, p != "", HexValue(p), p + s), p + Split(':', s)[0];
    SplitSingle(':', s);
    Dotted(s, p);
    ScanDot(s, st);
    if ':' in s {
      NoQuad(p, s);
    } else {
      Parse4IsQuad(p + s);
      assert Ahead(p, s) == [p + s];
    }
  }

  lemma ScanDot(s: string, st: Scan)
    requires s != "" && s[0] == '.'
    ensures Scan6(s, st) ==
      if |st.out| + 4 <= 16 && Parse4(st.tok).Some? then Some(st.(out := st.out + Parse4(st.tok).value, saw := false))
      else None
  {}

  lemma Dotted(s: string, p: string)
    requires s != "" && s[0] == '.'
    ensures var g := p + Split(':', s)[0]; g != "" && !IsHex(g)
  {
    var g := p + Split(':', s)[0];
    HexDigitIsPlace('.');
    assert g[|p|] == '.' && '.' in g;
  }

  lemma NoQuad(p: string, s: string)
    requires ':' in s
    ensures Parse4(p + s).None?
  {
    Parse4IsQuad(p + s);
    if Quad(p + s).Some? {
      assert ':' in p + s;
      QuadChars(p + s, ':');
    }
  }

  lemma JudgedOther(s: string, out: seq<byte>, colon: Option<nat>, p: string)
    requires Ready(out, colon, p) && s != "" && s[0] != '.' && s[0] != ':' && HexDigit(s[0]).None?
    ensures Judged(s, out, colon, p)
  {
    var c, g := s[0], p + Split(':', s)[0];
    HexDigitIsPlace(c);
    assert g[|p|] == c && c in g;
    if Quad(g).Some? {
      QuadChars(g, c);
    }
  }

  lemma {:induction false} ScanIsJudged(s: string, out: seq<byte>, colon: Option<nat>, p: string)
    requires Ready(out, colon, p)
    ensures Judged(s, out, colon, p)
    decreases |s|
  {
    if s == "" {
      JudgedAtEnd(out, colon, p);
    } else if HexDigit(s[0]).Some? {
      if IsGroup(p + [s[0]]) {
        ScanIsJudged(s[1..], out, colon, p + [s[0]]);
        JudgedDigit(s, out, colon, p);
      } else {
        JudgedOverflow(s, out, colon, p);
      }
    } else if s[0] == ':' {
      if p == "" && colon.None? {
        ScanIsJudged(s[1..], out, Some(|out|), "");
      } else if p != "" && |out| + 2 <= 16 {
        ScanIsJudged(s[1..], out + TwoBytes(HexValue(p)), colon, "");
      }
      JudgedColon(s, out, colon, p);
    } else if s[0] == '.' {
      JudgedDot(s, out, colon, p);
    } else {
      JudgedOther(s, out, colon, p);
    }
  }

  lemma ScanIsFromGroups(t: string)
    ensures Result(Scan6(t, SCAN_START.(tok := t))) == FromGroups(Split(':', t))
  {
    ScanIsJudged(t, [], None, "");
    var gs := Split(':', t);
    assert "" + t == t && "" + gs[0] == gs[0] && Ahead("", t) == gs;
    assert gs[0..] == gs && gs[..0] == [];
    JudgeIsDefinition(gs, 0);
  }

  /** inet_pton6 accepts exactly these texts, with these bytes. */
  lemma Parse6IsAddress(s: string)
    ensures Parse6(s) == Address6(s)
  {
    ScanIsFromGroups(Body(s));
  }

  // ----- A colon too many -------------------------------------------------

  lemma {:induction false} SplitSnoc(sep: char, s: string)
    ensures Split(sep, s + [sep]) == Split(sep, s) + [""]
  {
    if s == "" {
      assert s + [sep] == [sep] && [sep][1..] == "";
    } else {
      assert (s + [sep])[1..] == s[1..] + [sep];
      SplitSnoc(sep, s[1..]);
    }
  }

  lemma {:induction false} GapSnoc(gs: seq<string>, i: nat)
    requires i < |gs| && gs[|gs| - 1] != ""
    ensures Gap(gs + [""], i) == if Gap(gs, i) == |gs| - 1 then |gs| else Gap(gs, i)
    decreases |gs| - i
  {
    if i < |gs| - 1 && gs[i] != "" {
      GapSnoc(gs, i + 1);
    }
  }

  lemma SpeltSnoc(gs: seq<string>)
    requires gs != [] && WellFormed(gs) && IsGroup(gs[|gs| - 1])
    ensures WellFormed(gs + [""]) && Spelt(gs + [""]) == Spelt(gs)
  {
    var more := gs + [""];
    assert more[..|more| - 1] == gs;
    assert FrontBytes(gs) == FrontBytes(gs[..|gs| - 1]) + TwoBytes(HexValue(gs[|gs| - 1]));
    assert FrontBytes(gs) + [] == FrontBytes(gs);
  }

  lemma FromGroupsSnoc(gs: seq<string>)
    requires gs != [] && FromGroups(gs).Some? && gs[|gs| - 1] != "" && Quad(gs[|gs| - 1]).None?
    ensures FromGroups(gs + [""]) == FromGroups(gs)
  {
    SpeltSnoc(gs);
    GapSnoc(gs, 0);
    assert GapAt(gs + [""]) == GapAt(gs);
  }

  lemma FromTextSnoc(t: string, gs: seq<string>, more: seq<string>)
    requires gs == Split(':', t) && more == Split(':', t + [':']) && t != "" && t[|t| - 1] != ':'
    requires FromGroups(gs).Some? && Quad(gs[|gs| - 1]).None?
    ensures FromGroups(more) == FromGroups(gs)
  {
    EndsInGroup(t, gs);
    SplitSnoc(':', t);
    FromGroupsSnoc(gs);
  }

  lemma {:induction false} EndsInGroup(t: string, gs: seq<string>)
    requires gs == Split(':', t) && t != "" && t[|t| - 1] != ':'
    ensures gs[|gs| - 1] != ""
    decreases |t|
  {
    var tail := Split(':', t[1..]);
    assert gs == if t[0] == ':' then [""] + tail else [[t[0]] + tail[0]] + tail[1..];
    if |t| > 1 {
      EndsInGroup(t[1..], tail);
    }
  }

  /** A colon behind the last group is not noticed. */
  lemma TrailingColonIsAccepted(s: string)
    requires Parse6(s).Some? && s != "" && s[|s| - 1] != ':' && Quad(Last(Body(s))).None?
    ensures Parse6(s + [':']) == Parse6(s)
  {
    Parse6IsAddress(s);
    Parse6IsAddress(s + [':']);
    AddressSnoc(s);
  }

  lemma AddressSnoc(s: string)
    requires Address6(s).Some? && s != "" && s[|s| - 1] != ':' && Quad(Last(Body(s))).None?
    ensures Address6(s + [':']) == Address6(s)
  {
    var t := Body(s);
    BodySnoc(s);
    FromTextSnoc(t, Split(':', t), Split(':', t + [':']));
  }

  lemma BodySnoc(s: string)
    requires s != "" && s[|s| - 1] != ':'
    ensures var t := Body(s); t != "" && t[|t| - 1] == s[|s| - 1] && Body(s + [':']) == t + [':']
  {
    var more := s + [':'];
    assert more[0] == s[0];
    if s[0] == ':' {
      assert more[1..] == s[1..] + [':'] && s[1..][|s| - 2] == s[|s| - 1];
    }
  }

  /** The last group. */
  function Last(s: string): string {
    var gs := Split(':', s);
    gs[|gs| - 1]
  }
}
