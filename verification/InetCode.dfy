/** The printing and parsing loops of inet_ntop.c and inet_pton.c, over the
    arrays they fill, proved against the functions of InetText. */
module InetCode {
  import opened Bytes
  import opened InetText

  /** A NUL-terminated string, without its NUL. */
  type CString = s: string | '\0' !in s

  // ----- Printing ---------------------------------------------------------

  method PutText(dst: array<char>, at: nat, text: string)
    requires at + |text| <= dst.Length
    modifies dst
    ensures dst[..at + |text|] == old(dst[..at]) + text && dst[at..at + |text|] == text
    ensures forall k :: at + |text| <= k < dst.Length ==> dst[k] == old(dst[k])
  {
    forall k | 0 <= k < |text| {
      dst[at + k] := text[k];
    }
  }

  /** inet_ntop4 at a position of the destination: fails exactly when text and
      NUL do not fit, and then writes nothing. */
  method Ntop4(src: seq<byte>, dst: array<char>, at: nat, size: nat) returns (ok: bool)
    requires |src| == 4 && at + size <= dst.Length
    modifies dst
    ensures ok <==> |Text4(src)| < size
    ensures ok ==> dst[..at + |Text4(src)| + 1] == old(dst[..at]) + Text4(src) + "\0"
    ensures !ok ==> dst[..] == old(dst[..])
  {
    var text := Text4(src);
    if |text| >= size {
      return false;
    }
    PutText(dst, at, text + "\0");
    assert old(dst[..at]) + (text + "\0") == old(dst[..at]) + text + "\0";
    ok := true;
  }

  /** The 16-bit groups, assembled byte by byte into a cleared array. */
  method SplitWords(src: array<byte>) returns (words: array<word>)
    requires src.Length == 16
    ensures fresh(words) && words[..] == Words(src[..])
  {
    words := new word[8](_ => 0);
    var i := 0;
    while i < 16
      invariant i <= 16
      invariant forall k :: 0 <= k < 8 ==>
        words[k] == (if 2 * k < i then src[2 * k] as int * 256 else 0)
          + (if 2 * k + 1 < i then src[2 * k + 1] as int else 0)
    {
      words[i / 2] := words[i / 2] + (if i % 2 == 0 then src[i] as int * 256 else src[i] as int);
      i := i + 1;
    }
  }

  /** Every run within w[..i], other than those inside the run that ends at i
      and starts at cur, is no better than the best so far. */
  ghost predicate BestSoFar(w: seq<word>, i: nat, cur: int, best: int, bestLen: int)
    requires i <= |w|
  {
    && (best == -1 || (ZeroRun(w, best, bestLen) && 1 <= bestLen && best + bestLen <= i))
    && forall b, l :: ZeroRun(w, b, l) && 1 <= l && b + l <= i && !(cur != -1 && cur <= b) ==>
         best != -1 && (l < bestLen || (l == bestLen && best <= b))
  }

  ghost predicate RunEndingAt(w: seq<word>, i: nat, cur: int, curLen: int)
    requires i <= |w|
  {
    if cur == -1 then i == 0 || w[i - 1] != 0
    else ZeroRun(w, cur, curLen) && 1 <= curLen && cur + curLen == i && (cur == 0 || w[cur - 1] != 0)
  }

  lemma CloseRun(w: seq<word>, i: nat, cur: int, curLen: int, best: int, bestLen: int)
    requires i <= |w| && RunEndingAt(w, i, cur, curLen) && cur != -1 && BestSoFar(w, i, cur, best, bestLen)
    ensures if best == -1 || curLen > bestLen
      then BestSoFar(w, i, -1, cur, curLen)
      else BestSoFar(w, i, -1, best, bestLen)
  {
    var longer := best == -1 || curLen > bestLen;
    var b', l' := if longer then cur else best, if longer then curLen else bestLen;
    forall b, l | ZeroRun(w, b, l) && 1 <= l && b + l <= i
      ensures l < l' || (l == l' && b' <= b)
    {}
  }

  lemma ExtendScan(w: seq<word>, i: nat, cur: int, curLen: int, best: int, bestLen: int)
    requires i < |w| && RunEndingAt(w, i, cur, curLen) && BestSoFar(w, i, cur, best, bestLen)
    ensures w[i] == 0 ==> BestSoFar(w, i + 1, if cur == -1 then i else cur, best, bestLen)
    ensures w[i] != 0 && cur == -1 ==> BestSoFar(w, i + 1, -1, best, bestLen)
  {
    var next := if w[i] == 0 then if cur == -1 then i else cur else -1;
    if w[i] == 0 || cur == -1 {
      forall b, l | ZeroRun(w, b, l) && 1 <= l && b + l <= i + 1 && !(next != -1 && next <= b)
        ensures best != -1 && (l < bestLen || (l == bestLen && best <= b))
      {
        var before := next - 1;
      }
    }
  }

  /** The scan for the run to compress. */
  method ChooseRun(words: array<word>) returns (base: int, len: int)
    ensures Chosen(words[..], base, len)
    ensures base != -1 ==> ZeroRun(words[..], base, len) && len >= 2
  {
    ghost var w := words[..];
    base, len := -1, 0;
    var cur, curLen := -1, 0;
    var i := 0;
    while i < words.Length
      invariant i <= words.Length && w == words[..]
      invariant RunEndingAt(w, i, cur, curLen) && BestSoFar(w, i, cur, base, len)
    {
      ExtendScan(w, i, cur, curLen, base, len);
      if words[i] == 0 {
        if cur == -1 {
          cur, curLen := i, 1;
        } else {
          curLen := curLen + 1;
        }
      } else {
        if cur != -1 {
          CloseRun(w, i, cur, curLen, base, len);
          if base == -1 || curLen > len {
            base, len := cur, curLen;
          }
          cur := -1;
          assert RunEndingAt(w, i + 1, cur, curLen);
          SkipNonZero(w, i, base, len);
        }
      }
      i := i + 1;
    }
    if cur != -1 {
      CloseRun(w, i, cur, curLen, base, len);
      if base == -1 || curLen > len {
        base, len := cur, curLen;
      }
    }
    if base != -1 && len < 2 {
      base := -1;
    }
  }

  lemma SkipNonZero(w: seq<word>, i: nat, best: int, bestLen: int)
    requires i < |w| && w[i] != 0 && BestSoFar(w, i, -1, best, bestLen)
    ensures BestSoFar(w, i + 1, -1, best, bestLen)
  {
    forall b, l | ZeroRun(w, b, l) && 1 <= l && b + l <= i + 1
      ensures best != -1 && (l < bestLen || (l == bestLen && best <= b))
    {
      assert w[b + l - 1] == 0;
    }
  }

  /** Group i's separator and digits bring the emitted text one group further. */
  lemma EmitGroup(a: seq<byte>, base: int, len: int, i: nat, emitted: string)
    requires |a| == 16 && i < 8 && !(base != -1 && base <= i < base + len)
      && !(i == 6 && EmbedsIpv4(Words(a), base, len))
    ensures emitted + TextFrom(a, base, len, i) ==
            emitted + (if i != 0 then ":" else "") + HexText(Words(a)[i]) + TextFrom(a, base, len, i + 1)
  {
    var sep := if i != 0 then ":" else "";
    Associate(emitted + sep, HexText(Words(a)[i]), TextFrom(a, base, len, i + 1));
    Associate(emitted, sep, HexText(Words(a)[i]) + TextFrom(a, base, len, i + 1));
    Associate(sep, HexText(Words(a)[i]), TextFrom(a, base, len, i + 1));
  }

  lemma EmitInRun(a: seq<byte>, base: int, len: int, i: nat, emitted: string)
    requires |a| == 16 && i < 8 && base != -1 && base <= i < base + len
    ensures emitted + TextFrom(a, base, len, i) ==
            (if i == base then emitted + ":" else emitted) + TextFrom(a, base, len, i + 1)
  {
    Associate(emitted, ":", TextFrom(a, base, len, i + 1));
    assert "" + TextFrom(a, base, len, i + 1) == TextFrom(a, base, len, i + 1);
  }

  lemma EmitQuad(a: seq<byte>, base: int, len: int, emitted: string)
    requires |a| == 16 && EmbedsIpv4(Words(a), base, len)
    ensures emitted + TextFrom(a, base, len, 6) == emitted + ":" + Text4(a[12..16])
    ensures |TextFrom(a, base, len, 6)| == 1 + |Text4(a[12..16])|
  {
    Associate(emitted, ":", Text4(a[12..16]));
  }

  /** One turn of the formatting loop; stop says that an embedded IPv4 address
      ended it. Every write falls within the 46-byte scratch buffer. */
  method FormatStep(src: array<byte>, words: array<word>, base: int, len: int, i: nat, tmp: array<char>, tp: nat)
    returns (next: nat, stop: bool)
    requires src.Length == 16 && tmp.Length == 46 && words.Length == 8 && words[..] == Words(src[..]) && i < 8
    requires tp + |TextFrom(src[..], base, len, i)| < 46
    modifies tmp
    ensures next <= 46
    ensures tmp[..next] + (if stop then "" else TextFrom(src[..], base, len, i + 1)) ==
      old(tmp[..tp]) + TextFrom(src[..], base, len, i)
    ensures stop ==> base == 0 && len <= 6
  {
    stop := false;
    if base != -1 && base <= i < base + len {
      next := FormatInRun(src[..], base, len, i, tmp, tp);
    } else if i == 6 && base == 0 && (len == 6 || (len == 5 && words[5] == 0xffff)) {
      next := FormatEmbedded(src[..], base, len, tmp, tp);
      stop := true;
    } else {
      EmitGroup(src[..], base, len, i, tmp[..tp]);
      next := FormatGroup(i, words[i], tmp, tp);
    }
  }

  method FormatInRun(a: seq<byte>, base: int, len: int, i: nat, tmp: array<char>, tp: nat) returns (next: nat)
    requires |a| == 16 && i < 8 && base != -1 && base <= i < base + len && tp < tmp.Length
    modifies tmp
    ensures next <= tmp.Length
    ensures tmp[..next] + TextFrom(a, base, len, i + 1) == old(tmp[..tp]) + TextFrom(a, base, len, i)
  {
    EmitInRun(a, base, len, i, tmp[..tp]);
    next := tp;
    if i == base {
      PutText(tmp, tp, ":");
      next := tp + 1;
    }
  }

  method FormatEmbedded(a: seq<byte>, base: int, len: int, tmp: array<char>, tp: nat) returns (next: nat)
    requires |a| == 16 && EmbedsIpv4(Words(a), base, len) && tmp.Length == 46 && tp + |TextFrom(a, base, len, 6)| < 46
    modifies tmp
    ensures next <= 46 && tmp[..next] == old(tmp[..tp]) + TextFrom(a, base, len, 6)
  {
    EmitQuad(a, base, len, tmp[..tp]);
    PutText(tmp, tp, ":");
    next := FormatQuad(a[12..16], tmp, tp + 1);
  }

  method FormatGroups(src: array<byte>, words: array<word>, base: int, len: int, tmp: array<char>) returns (tp: nat)
    requires src.Length == 16 && tmp.Length == 46 && words.Length == 8 && words[..] == Words(src[..])
    requires RunOf(src[..], base, len)
    modifies tmp
    ensures tp <= 40 && tmp[..tp] == Text6(src[..], base, len) + "\0"
  {
    ghost var a := src[..];
    Text6Length(a, base, len);
    tp := 0;
    var i, stop := 0, false;
    while i < 8 && !stop
      invariant i <= 8 && tp <= 46 && a == src[..] && words[..] == Words(a)
      invariant tmp[..tp] + (if stop then "" else TextFrom(a, base, len, i)) == Text6(a, base, len)
      invariant stop ==> base == 0 && len <= 6
      decreases 8 - i, !stop
    {
      tp, stop := FormatStep(src, words, base, len, i, tmp, tp);
      i := i + 1;
    }
    assert tmp[..tp] + (if base != -1 && base + len == 8 then ":" else "") == Text6(a, base, len);
    tp := FormatEnd(base != -1 && base + len == 8, tmp, tp);
  }

  method FormatEnd(trailing: bool, tmp: array<char>, tp: nat) returns (next: nat)
    requires tp + 2 <= tmp.Length
    modifies tmp
    ensures next == tp + (if trailing then 2 else 1)
    ensures tmp[..next] == old(tmp[..tp]) + (if trailing then ":" else "") + "\0"
  {
    next := tp;
    if trailing {
      PutText(tmp, next, ":");
      next := next + 1;
    }
    PutText(tmp, next, "\0");
    next := next + 1;
  }

  method FormatGroup(i: nat, w: word, tmp: array<char>, tp: nat) returns (next: nat)
    requires tp + (if i != 0 then 1 else 0) + |HexText(w)| <= tmp.Length
    modifies tmp
    ensures next == tp + (if i != 0 then 1 else 0) + |HexText(w)|
    ensures tmp[..next] == old(tmp[..tp]) + (if i != 0 then ":" else "") + HexText(w)
  {
    next := tp;
    if i != 0 {
      PutText(tmp, next, ":");
      next := next + 1;
    }
    PutText(tmp, next, HexText(w));
    next := next + |HexText(w)|;
  }

  method FormatQuad(quad: seq<byte>, tmp: array<char>, tp: nat) returns (next: nat)
    requires |quad| == 4 && tmp.Length == 46 && tp + |Text4(quad)| < 46
    modifies tmp
    ensures next == tp + |Text4(quad)| && tmp[..next] == old(tmp[..tp]) + Text4(quad)
  {
    var fits := Ntop4(quad, tmp, tp, 46 - tp);
    next := tp + |Text4(quad)|;
    assert tmp[..next] == tmp[..next + 1][..next];
  }

  /** inet_ntop6: it succeeds exactly when the text and its NUL fit, and the text is
      the one that compresses the chosen run; otherwise nothing is written. */
  method Ntop6(src: array<byte>, dst: array<char>, size: nat) returns (ok: bool, ghost base: int, ghost len: int)
    requires src.Length == 16 && size <= dst.Length
    modifies dst
    ensures Chosen(Words(src[..]), base, len) && RunOf(src[..], base, len)
    ensures ok <==> |Text6(src[..], base, len)| + 1 <= size
    ensures ok ==> dst[..|Text6(src[..], base, len)| + 1] == Text6(src[..], base, len) + "\0"
    ensures !ok ==> dst[..] == old(dst[..])
  {
    var tmp := new char[46](_ => '\0');
    var words := SplitWords(src);
    var bestBase, bestLen := ChooseRun(words);
    base, len := bestBase, bestLen;
    var tp := FormatGroups(src, words, bestBase, bestLen, tmp);
    if tp > size {
      return false, base, len;
    }
    PutText(dst, 0, tmp[..tp]);
    assert dst[..tp] == dst[0..0 + tp];
    ok := true;
  }

  // ----- Parsing ----------------------------------------------------------

  /** inet_pton4 at a position of the destination, which is written only on success. */
  method Pton4(src: CString, dst: array<byte>, at: nat) returns (ok: bool)
    requires at + 4 <= dst.Length
    modifies dst
    ensures ok <==> Parse4(src).Some?
    ensures ok ==> dst[at..at + 4] == Parse4(src).value
    ensures forall k :: 0 <= k < dst.Length && !(ok && at <= k < at + 4) ==> dst[k] == old(dst[k])
  {
    var tmp := new byte[4](_ => 0);
    var tp, octets, saw, i := 0, 0, false, 0;
    while i < |src|
      invariant i <= |src| && tp < 4
      invariant octets == tp + (if saw then 1 else 0) && (!saw ==> tmp[tp] == 0)
      invariant Scan4(src[i..], tmp[..tp], if saw then Some(tmp[tp]) else None) == Parse4(src)
      invariant forall k :: 0 <= k < dst.Length ==> dst[k] == old(dst[k])
    {
      var ch := src[i];
      i := i + 1;
      assert src[i - 1..][1..] == src[i..];
      if IsDigit(ch) {
        var v := tmp[tp] as int * 10 + DigitValue(ch);
        if v > 255 {
          return false;
        }
        tmp[tp] := v;
        if !saw {
          octets := octets + 1;
          if octets > 4 {
            return false;
          }
          saw := true;
        }
      } else if ch == '.' && saw {
        if octets == 4 {
          return false;
        }
        assert tmp[..tp + 1] == tmp[..tp] + [tmp[tp]];
        tp := tp + 1;
        tmp[tp] := 0;
        saw := false;
      } else {
        return false;
      }
    }
    if octets < 4 {
      return false;
    }
    assert tmp[..3] + [tmp[3]] == tmp[..];
    forall k | 0 <= k < 4 {
      dst[at + k] := tmp[k];
    }
    ok := true;
  }

  /** The hand-written overlapping shift, from the highest byte down. */
  method ShiftTail(tmp: array<byte>, tp: nat, colon: nat)
    requires tmp.Length == 16 && colon <= tp <= 16
    requires forall k :: tp <= k < 16 ==> tmp[k] == 0
    modifies tmp
    ensures tmp[..] == Shifted(old(tmp[..tp]), colon)
  {
    var n := tp - colon;
    var i := 1;
    while i <= n
      invariant 1 <= i <= n + 1
      invariant forall k :: 0 <= k < tp - i + 1 ==> tmp[k] == old(tmp[k])
      invariant forall k :: tp - i + 1 <= k < 16 - i + 1 ==> tmp[k] == 0
      invariant tp < 16 ==> forall k :: 16 - i + 1 <= k < 16 ==> tmp[k] == old(tmp[k - (16 - tp)])
      invariant tp == 16 ==> forall k :: 16 - i + 1 <= k < 16 ==> tmp[k] == 0
    {
      tmp[16 - i] := tmp[tp - i];
      tmp[tp - i] := 0;
      i := i + 1;
    }
    assert forall k :: 0 <= k < 16 ==> tmp[k] == Shifted(old(tmp[..tp]), colon)[k];
  }

  method PushGroup(tmp: array<byte>, tp: nat, val: nat)
    requires tmp.Length == 16 && tp + 2 <= 16
    modifies tmp
    ensures tmp[..tp + 2] == old(tmp[..tp]) + TwoBytes(val)
    ensures forall k :: tp + 2 <= k < 16 ==> tmp[k] == old(tmp[k])
  {
    tmp[tp] := val / 256 % 256;
    tmp[tp + 1] := val % 256;
  }

  /** The local variables of inet_pton6 hold a given state of the scan. */
  ghost predicate Holds(tmp: array<byte>, tp: nat, colon: int, saw: bool, val: nat, st: Scan)
    requires tmp.Length == 16 && tp <= 16 && -1 <= colon
    reads tmp
  {
    && st.out == tmp[..tp] && (forall k :: tp <= k < 16 ==> tmp[k] == 0)
    && st.colon == (if colon == -1 then None else Some(colon as nat)) && st.saw == saw && (saw ==> st.val == val)
  }

  /** The end of inet_pton6: close the last group, expand the double colon, and
      see whether sixteen bytes were filled. */
  method CloseScan(tmp: array<byte>, last: nat, colon: int, saw: bool, val: nat, ghost st: Scan) returns (ok: bool)
    requires tmp.Length == 16 && last <= 16 && -1 <= colon <= last && val <= 0xffff
    requires Holds(tmp, last, colon, saw, val, st)
    modifies tmp
    ensures ok <==> Finish6(st).Some?
    ensures ok ==> Finish6(st) == Some(tmp[..])
  {
    var tp := last;
    if saw {
      if tp + 2 > 16 {
        return false;
      }
      PushGroup(tmp, tp, val);
      tp := tp + 2;
    }
    if colon != -1 {
      ShiftTail(tmp, tp, colon);
      tp := 16;
    }
    if tp != 16 {
      return false;
    }
    assert tmp[..16] == tmp[..];
    ok := true;
  }

  /** inet_pton6's loop from position start on: where it ends, the local
      variables are those of the scan. */
  method ScanLoop(src: CString, start: nat, tmp: array<byte>)
      returns (ok: bool, tp: nat, colon: int, saw: bool, val: nat, ghost st: Scan)
    requires start <= |src| && tmp.Length == 16 && forall k :: 0 <= k < 16 ==> tmp[k] == 0
    modifies tmp
    ensures Scan6(src[start..], SCAN_START.(tok := src[start..])) == if ok then Some(st) else None
    ensures ok ==> tp <= 16 && -1 <= colon <= tp && val <= 0xffff && Holds(tmp, tp, colon, saw, val, st)
  {
    var i, tok := start, start;
    tp, colon, saw, val := 0, -1, false, 0;
    st := SCAN_START.(tok := src[start..]);
    assert tmp[..0] == [];
    while i < |src|
      invariant start <= tok <= i <= |src| && tp <= 16 && -1 <= colon <= tp && val <= 0xffff
      invariant Holds(tmp, tp, colon, saw, val, st) && st.val == val && st.tok == src[tok..]
      invariant Scan6(src[i..], st) == Scan6(src[start..], SCAN_START.(tok := src[start..]))
    {
      var ch := src[i];
      assert src[i..][1..] == src[i + 1..];
      i := i + 1;
      var digit := HexDigit(ch);
      if digit.Some? {
        val := val * 16 + digit.value;
        if val > 0xffff {
          return false, tp, colon, saw, val, st;
        }
        saw := true;
        st := st.(val := val, saw := true);
      } else if ch == ':' {
        tok := i;
        if !saw {
          if colon != -1 {
            return false, tp, colon, saw, val, st;
          }
          colon := tp;
          st := st.(colon := Some(tp), tok := src[i..]);
        } else {
          if tp + 2 > 16 {
            return false, tp, colon, saw, val, st;
          }
          st := Scan(st.out + TwoBytes(val), st.colon, false, 0, src[i..]);
          PushGroup(tmp, tp, val);
          tp, saw, val := tp + 2, false, 0;
        }
      } else {
        if ch == '.' && tp + 4 <= 16 {
          ok := Pton4(src[tok..], tmp, tp);
          if ok {
            st := st.(out := st.out + Parse4(st.tok).value, saw := false);
            assert tmp[..tp + 4] == tmp[..tp] + tmp[tp..tp + 4];
            tp, saw := tp + 4, false;
            return;
          }
        }
        return false, tp, colon, saw, val, st;
      }
    }
    ok := true;
  }

  /** inet_pton6: accepts what Parse6 accepts, with its sixteen bytes; otherwise
      the destination is untouched. */
  method Pton6(src: CString, dst: array<byte>) returns (ok: bool)
    requires dst.Length == 16
    modifies dst
    ensures ok <==> Parse6(src).Some?
    ensures ok ==> dst[..] == Parse6(src).value
    ensures !ok ==> dst[..] == old(dst[..])
  {
    var tmp := new byte[16](_ => 0);
    var start := 0;
    if src != "" && src[0] == ':' {
      start := 1;
      if |src| == 1 || src[1] != ':' {
        return false;
      }
    }
    assert src[0..] == src;
    var tp, colon, saw, val;
    ghost var st;
    ok, tp, colon, saw, val, st := ScanLoop(src, start, tmp);
    if ok {
      ok := CloseScan(tmp, tp, colon, saw, val, st);
    }
    if ok {
      forall k | 0 <= k < 16 {
        dst[k] := tmp[k];
      }
      assert dst[..] == tmp[..];
    }
  }

  lemma {:induction false} HexTextHasNoNul(w: nat)
    ensures '\0' !in HexText(w)
  {
    if w >= 16 {
      HexTextHasNoNul(w / 16);
    }
  }

  lemma {:induction false} DecTextHasNoNul(v: nat)
    ensures '\0' !in DecText(v)
  {
    if v >= 10 {
      DecTextHasNoNul(v / 10);
    }
  }

  lemma {:induction false} TextHasNoNul(a: seq<byte>, base: int, len: int, i: nat)
    requires |a| == 16 && i <= 8
    ensures '\0' !in TextFrom(a, base, len, i)
    decreases 8 - i
  {
    if i < 8 {
      TextHasNoNul(a, base, len, i + 1);
      HexTextHasNoNul(Words(a)[i]);
      DecTextHasNoNul(a[12]);
      DecTextHasNoNul(a[13]);
      DecTextHasNoNul(a[14]);
      DecTextHasNoNul(a[15]);
    }
  }

  /** The C string at the start of a buffer. */
  method StringIn(buf: array<char>, ghost text: string) returns (s: string)
    requires '\0' !in text && |text| < buf.Length && buf[..|text| + 1] == text + "\0"
    ensures s == text
  {
    var n := 0;
    assert forall k :: 0 <= k <= |text| ==> buf[k] == (text + "\0")[k];
    while buf[n] != '\0'
      invariant n <= |text|
      decreases |text| - n
    {
      n := n + 1;
    }
    assert buf[..n] == (text + "\0")[..n];
    s := buf[..n];
  }

  /** The two loops together: what inet_ntop6 leaves in a buffer of 46 characters
      is a C string that inet_pton6 accepts, and gives the address back. */
  method PrintThenParse(src: array<byte>) returns (dst: array<byte>)
    requires src.Length == 16
    ensures fresh(dst) && dst[..] == src[..]
  {
    var buf := new char[46](_ => '\0');
    var printed, base, len := Ntop6(src, buf, buf.Length);
    ghost var text := Text6(src[..], base, len);
    Text6Length(src[..], base, len);
    TextHasNoNul(src[..], base, len, 0);
    RoundTrip6(src[..], base, len);
    var s := StringIn(buf, text);
    dst := new byte[16](_ => 0);
    var parsed := Pton6(s, dst);
  }
}
