/** The form that inet_ntop6 gives an address, said without its loop: groups
    joined by colons, the chosen run replaced by a double colon, and a dotted quad
    for an embedded IPv4 address. */
module InetCanonical {
  import opened Bytes
  import opened InetText
  import opened InetGrammar

  // ----- One group --------------------------------------------------------

  predicate LowerHex(g: string) {
    forall c :: c in g ==> Place(c, 0) < 16
  }

  predicate CanonicalGroup(g: string, w: nat) {
    g != "" && LowerHex(g) && HexValue(g) == w && (g[0] == '0' ==> w == 0)
  }

  /** Sections 4.1 and 4.3 of RFC 5952: lower case, and no zero in front. */
  lemma {:induction false} GroupIsCanonical(w: nat)
    ensures CanonicalGroup(HexText(w), w)
  {
    var last := DIGITS[w % 16];
    LastDigit(w % 16);
    if w < 16 {
      OneDigit(last, w);
    } else {
      GroupIsCanonical(w / 16);
      OneDigitMore(HexText(w / 16), w / 16, last, w % 16);
    }
  }

  lemma OneDigit(c: char, d: nat)
    requires Place(c, 0) == d < 16 && Fold(c) == c && (c == '0' ==> d == 0)
    ensures CanonicalGroup([c], d)
  {
    HexCons("", c);
    assert "" + [c] == [c];
  }

  lemma OneDigitMore(g: string, v: nat, c: char, d: nat)
    requires CanonicalGroup(g, v) && v > 0 && Place(c, 0) == d < 16 && Fold(c) == c
    ensures CanonicalGroup(g + [c], v * 16 + d)
  {
    HexCons(g, c);
  }

  lemma LastDigit(d: nat)
    requires d < 16
    ensures Place(DIGITS[d], 0) == d && Fold(DIGITS[d]) == DIGITS[d] && (DIGITS[d] == '0' ==> d == 0)
  {
    PlaceOf(DIGITS[d]);
  }

  // ----- The whole text ---------------------------------------------------

  function Join(gs: seq<string>): string {
    if gs == [] then "" else if |gs| == 1 then gs[0] else gs[0] + ":" + Join(gs[1..])
  }

  /** The groups as text. */
  function HexGroups(a: seq<byte>): (gs: seq<string>)
    requires |a| == 16
    ensures |gs| == 8 && forall i :: 0 <= i < 8 ==> gs[i] == HexText(Words(a)[i])
  {
    seq(8, i requires 0 <= i < 8 => HexText(Words(a)[i]))
  }

  function Canonical(a: seq<byte>, base: int, len: int): string
    requires |a| == 16 && RunOf(a, base, len)
  {
    var gs := HexGroups(a);
    if base == -1 then Join(gs) else Join(gs[..base]) + ("::" + Join(gs[base + len..]))
  }

  lemma JoinCons(g: string, gs: seq<string>)
    ensures Join([g] + gs) == if gs == [] then g else g + ":" + Join(gs)
  {
    assert ([g] + gs)[1..] == gs;
  }

  /** A group outside the run, with its separator. */
  lemma GroupStep(a: seq<byte>, base: int, len: int, i: nat)
    requires |a| == 16 && i < 8 && !(base != -1 && base <= i < base + len)
    requires !EmbedsIpv4(Words(a), base, len) || i < 6
    ensures TextFrom(a, base, len, i) == (if i != 0 then ":" else "") + HexGroups(a)[i] + TextFrom(a, base, len, i + 1)
  {}

  lemma Glue(sep: string, g: string, more: string)
    ensures sep + g + (":" + more) == sep + (g + ":" + more)
  {}

  /** Behind the run, or where there is none, the rest is groups. */
  lemma {:induction false} TextBehind(a: seq<byte>, base: int, len: int, i: nat)
    requires |a| == 16 && RunOf(a, base, len) && !EmbedsIpv4(Words(a), base, len)
    requires i < 8 && (base == -1 || base + len <= i)
    ensures TextFrom(a, base, len, i) == (if i != 0 then ":" else "") + Join(HexGroups(a)[i..])
    decreases 8 - i
  {
    var gs, sep := HexGroups(a), if i != 0 then ":" else "";
    GroupStep(a, base, len, i);
    assert gs[i..] == [gs[i]] + gs[i + 1..];
    JoinCons(gs[i], gs[i + 1..]);
    if i < 7 {
      TextBehind(a, base, len, i + 1);
      Glue(sep, gs[i], Join(gs[i + 1..]));
    } else {
      assert gs[8..] == [] && sep + gs[7] + "" == sep + gs[7];
    }
  }

  /** From the run on: a double colon and the groups behind it. */
  lemma TextFromRun(a: seq<byte>, base: int, len: int)
    requires |a| == 16 && RunOf(a, base, len) && base != -1 && !EmbedsIpv4(Words(a), base, len)
    ensures TextFrom(a, base, len, base) == "::" + Join(HexGroups(a)[base + len..])
  {
    TextAtRun(a, base, len);
    if base + len < 8 {
      TextBehind(a, base, len, base + len);
      assert ":" + (":" + Join(HexGroups(a)[base + len..])) == "::" + Join(HexGroups(a)[base + len..]);
    } else {
      assert HexGroups(a)[8..] == [] && "::" + "" == ":" + ":";
    }
  }

  /** Before the run: groups, up to the double colon. */
  lemma {:induction false} TextBefore(a: seq<byte>, base: int, len: int, i: nat, rest: string)
    requires |a| == 16 && RunOf(a, base, len) && base != -1 && i < base && !EmbedsIpv4(Words(a), base, len)
    requires rest == TextFrom(a, base, len, base)
    ensures TextFrom(a, base, len, i) == (if i != 0 then ":" else "") + (Join(HexGroups(a)[i..base]) + rest)
    decreases base - i
  {
    var gs := HexGroups(a);
    GroupStep(a, base, len, i);
    if i + 1 < base {
      TextBefore(a, base, len, i + 1, rest);
    }
    BeforeStep(if i != 0 then ":" else "", gs[i], gs[i + 1..base], rest, TextFrom(a, base, len, i + 1));
    assert gs[i..base] == [gs[i]] + gs[i + 1..base];
  }

  lemma BeforeStep(sep: string, g: string, gs: seq<string>, rest: string, next: string)
    requires next == if gs == [] then rest else ":" + (Join(gs) + rest)
    ensures sep + g + next == sep + (Join([g] + gs) + rest)
  {
    JoinCons(g, gs);
    if gs == [] {
      Associate(sep, g, rest);
    } else {
      GlueRest(sep, g, Join(gs), rest);
    }
  }

  lemma GlueRest(sep: string, g: string, more: string, rest: string)
    ensures sep + g + (":" + (more + rest)) == sep + ((g + ":" + more) + rest)
  {}

  /** Without an embedded IPv4 address. */
  lemma TextIsCanonical(a: seq<byte>, base: int, len: int)
    requires |a| == 16 && RunOf(a, base, len) && !EmbedsIpv4(Words(a), base, len)
    ensures Text6(a, base, len) == Canonical(a, base, len)
  {
    var gs := HexGroups(a);
    if base == -1 {
      TextBehind(a, base, len, 0);
      assert gs[0..] == gs && "" + Join(gs) == Join(gs);
    } else {
      TextFromRun(a, base, len);
      var rest := "::" + Join(gs[base + len..]);
      assert gs[0..base] == gs[..base];
      if base > 0 {
        TextBefore(a, base, len, 0, rest);
        assert "" + (Join(gs[..base]) + rest) == Join(gs[..base]) + rest;
      } else {
        assert gs[..0] == [] && "" + rest == rest;
      }
    }
  }

  // ----- Embedded IPv4 addresses ------------------------------------------

  /** The groups that make an address one that embeds an IPv4 address: five zeros,
      then ffff, or another zero and something behind it. */
  predicate Embeds(w: seq<word>)
    requires |w| == 8
  {
    (forall k :: 0 <= k < 5 ==> w[k] == 0) && (w[5] == 0xffff || (w[5] == 0 && w[6] != 0))
  }

  /** These are the addresses printed with a quad, when the run is the chosen one. */
  lemma EmbedsExactly(w: seq<word>, base: int, len: int)
    requires |w| == 8 && Chosen(w, base, len)
    ensures EmbedsIpv4(w, base, len) <==> Embeds(w)
  {
    if Embeds(w) {
      var n := if w[5] == 0 then 6 else 5;
      assert ZeroRun(w, 0, n);
      LongestAtFront(w, base, len, n);
    }
    if EmbedsIpv4(w, base, len) && len == 6 && w[6] == 0 {
      assert ZeroRun(w, 0, 7);
    }
  }

  lemma LongestAtFront(w: seq<word>, base: int, len: int, n: nat)
    requires |w| == 8 && Chosen(w, base, len) && 5 <= n < 8 && ZeroRun(w, 0, n) && w[n] != 0
    ensures base == 0 && len == n
  {}

  /** And then the text is the prefix and the quad. */
  lemma EmbeddedText(a: seq<byte>, base: int, len: int)
    requires |a| == 16 && RunOf(a, base, len) && EmbedsIpv4(Words(a), base, len)
    ensures Text6(a, base, len) == (if len == 5 then "::" + HexText(0xffff) + ":" else "::") + Text4(a[12..16])
  {
    var quad, ffff := Text4(a[12..16]), HexText(0xffff);
    TextAtRun(a, base, len);
    QuadSteps(a, base, len);
    if len == 6 {
      assert ":" + (":" + quad) == "::" + quad;
    } else {
      Colons(ffff, quad);
    }
  }

  lemma QuadSteps(a: seq<byte>, base: int, len: int)
    requires |a| == 16 && RunOf(a, base, len) && EmbedsIpv4(Words(a), base, len)
    ensures TextFrom(a, base, len, 6) == ":" + Text4(a[12..16])
    ensures len == 5 ==> TextFrom(a, base, len, 5) == ":" + HexText(0xffff) + (":" + Text4(a[12..16]))
  {
    if len == 5 {
      GroupStep(a, base, len, 5);
    }
  }

  lemma Colons(g: string, more: string)
    ensures ":" + (":" + g + (":" + more)) == "::" + g + ":" + more
  {}

  lemma AllOnes()
    ensures HexText(0xffff) == "ffff"
  {
    assert HexText(0xfff) == HexText(0xff) + ['f'] && HexText(0xff) == HexText(0xf) + ['f'];
    assert HexText(0xf) == "f";
  }
}
