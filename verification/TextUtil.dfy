/** Two loops of utility.cpp: ReplaceAll and Base64Decode. */
module TextUtil {

  // ----- ReplaceAll -------------------------------------------------------

  predicate OccursAt(s: string, pat: string, at: nat) {
    at + |pat| <= |s| && s[at..at + |pat|] == pat
  }

  /** std::string::find: the first occurrence at or after pos, -1 for npos. */
  function Find(s: string, pat: string, pos: nat): (at: int)
    ensures at == -1 || (pos <= at && at + |pat| <= |s|)
    decreases |s| - pos
  {
    if pos + |pat| > |s| then -1
    else if OccursAt(s, pat, pos) then pos
    else Find(s, pat, pos + 1)
  }

  lemma {:induction false} FindIsFirst(s: string, pat: string, pos: nat)
    ensures var at := Find(s, pat, pos);
      && (at != -1 ==> OccursAt(s, pat, at))
      && (forall k :: pos <= k && (at == -1 || k < at) ==> !OccursAt(s, pat, k))
    decreases |s| - pos
  {
    if pos + |pat| <= |s| && !OccursAt(s, pat, pos) {
      FindIsFirst(s, pat, pos + 1);
    }
  }

  /** Left-to-right replacement that never looks at inserted text again. */
  function Replaced(s: string, pat: string, sub: string): string
    requires pat != ""
    decreases |s|
  {
    var at := Find(s, pat, 0);
    if at == -1 then s else s[..at] + sub + Replaced(s[at + |pat|..], pat, sub)
  }

  /** Text before the starting position makes no difference. */
  lemma {:induction false} FindPastPrefix(str: string, done: string, rest: string, pat: string, k: nat, d: nat)
    requires str == done + rest && d == |done| + k
    ensures Find(str, pat, d) == if Find(rest, pat, k) == -1 then -1 else |done| + Find(rest, pat, k)
    decreases |rest| - k
  {
    if k + |pat| <= |rest| {
      assert str[d..d + |pat|] == rest[k..k + |pat|];
      if !OccursAt(rest, pat, k) {
        FindPastPrefix(str, done, rest, pat, k + 1, d + 1);
      }
    }
  }

  /** std::string::replace. */
  function Spliced(s: string, pos: nat, len: nat, sub: string): string
    requires pos + len <= |s|
  {
    s[..pos] + sub + s[pos + len..]
  }

  /** The loop's own recurrence: everything before d is finished. */
  function ReplaceFrom(str: string, d: nat, pat: string, sub: string): string
    requires pat != "" && d <= |str|
    decreases |str| - d
  {
    var pos := Find(str, pat, d);
    if pos == -1 then str else ReplaceFrom(Spliced(str, pos, |pat|, sub), pos + |sub|, pat, sub)
  }

  method ReplaceAll(text: string, pat: string, sub: string) returns (str: string)
    requires pat != ""
    ensures str == Replaced(text, pat, sub)
  {
    ReplaceFromIsReplaced("", text, pat, sub);
    assert "" + text == text && "" + Replaced(text, pat, sub) == Replaced(text, pat, sub);
    str := ReplaceLoop(text, pat, sub);
  }

  method ReplaceLoop(text: string, pat: string, sub: string) returns (str: string)
    requires pat != ""
    ensures str == ReplaceFrom(text, 0, pat, sub)
  {
    str := text;
    var pos := Find(str, pat, 0);
    if pos == -1 {
      return;
    }
    ghost var d: nat, whole := 0, ReplaceFrom(text, 0, pat, sub);
    while pos != -1
      invariant d <= |str| && pos == Find(str, pat, d)
      invariant ReplaceFrom(str, d, pat, sub) == whole
      decreases |str| - d + (if pos == -1 then 0 else 1)
    {
      ghost var was := str;
      str := Spliced(str, pos, |pat|, sub);
      LoopStep(was, d, pat, sub, pos, str);
      d := pos + |sub|;
      pos := Find(str, pat, pos + |sub|);
    }
    LoopEnds(str, d, pat, sub);
  }

  lemma LoopStep(str: string, d: nat, pat: string, sub: string, pos: nat, next: string)
    requires pat != "" && d <= |str| && pos == Find(str, pat, d) && next == Spliced(str, pos, |pat|, sub)
    ensures |next| - (pos + |sub|) < |str| - d && pos + |sub| <= |next|
    ensures ReplaceFrom(str, d, pat, sub) == ReplaceFrom(next, pos + |sub|, pat, sub)
  {}

  lemma LoopEnds(str: string, d: nat, pat: string, sub: string)
    requires pat != "" && d <= |str| && Find(str, pat, d) == -1
    ensures ReplaceFrom(str, d, pat, sub) == str
  {}

  /** The loop replaces each occurrence once, and never looks at inserted text again. */
  lemma {:induction false} ReplaceFromIsReplaced(done: string, rest: string, pat: string, sub: string)
    requires pat != ""
    ensures ReplaceFrom(done + rest, |done|, pat, sub) == done + Replaced(rest, pat, sub)
    decreases |rest|
  {
    var at := Find(rest, pat, 0);
    if at == -1 {
      FindPastPrefix(done + rest, done, rest, pat, 0, |done|);
    } else {
      var head := done + rest[..at] + sub;
      var tail := rest[at + |pat|..];
      NextIs(done, rest, pat, at);
      UnfoldReplaceFrom(done + rest, done, rest, pat, sub, at);
      ReplaceFromIsReplaced(head, tail, pat, sub);
      UnfoldReplaced(rest, pat, sub);
      Reassociate(done, rest[..at], sub, Replaced(tail, pat, sub));
    }
  }

  lemma UnfoldReplaceFrom(str: string, done: string, rest: string, pat: string, sub: string, at: nat)
    requires pat != "" && str == done + rest && at + |pat| <= |rest| && Find(str, pat, |done|) == |done| + at
    ensures var head, tail := done + rest[..at] + sub, rest[at + |pat|..];
      ReplaceFrom(str, |done|, pat, sub) == ReplaceFrom(head + tail, |head|, pat, sub)
  {
    Splice(done, rest, at, |pat|, sub);
    ReplaceFromStep(str, |done|, pat, sub, |done| + at, done + rest[..at] + sub, rest[at + |pat|..]);
  }

  lemma ReplaceFromStep(str: string, d: nat, pat: string, sub: string, pos: nat, head: string, tail: string)
    requires pat != "" && d <= |str| && pos == Find(str, pat, d)
    requires Spliced(str, pos, |pat|, sub) == head + tail && |head| == pos + |sub|
    ensures ReplaceFrom(str, d, pat, sub) == ReplaceFrom(head + tail, |head|, pat, sub)
  {}

  lemma NextIs(done: string, rest: string, pat: string, at: nat)
    requires Find(rest, pat, 0) == at
    ensures Find(done + rest, pat, |done|) == |done| + at
  {
    FindPastPrefix(done + rest, done, rest, pat, 0, |done|);
  }

  lemma UnfoldReplaced(rest: string, pat: string, sub: string)
    requires pat != "" && Find(rest, pat, 0) != -1
    ensures var at := Find(rest, pat, 0);
      Replaced(rest, pat, sub) == rest[..at] + sub + Replaced(rest[at + |pat|..], pat, sub)
  {}

  lemma Splice(done: string, rest: string, at: nat, len: nat, sub: string)
    requires at + len <= |rest|
    ensures Spliced(done + rest, |done| + at, len, sub) == (done + rest[..at] + sub) + rest[at + len..]
  {
    assert (done + rest)[..|done| + at] == done + rest[..at];
    assert (done + rest)[|done| + at + len..] == rest[at + len..];
  }

  lemma Reassociate(a: string, b: string, c: string, d: string)
    ensures a + (b + c + d) == (a + b + c) + d
  {}

  /** The pieces of a text between successive occurrences of the pattern. */
  function Pieces(s: string, pat: string): (ps: seq<string>)
    requires pat != ""
    ensures |ps| >= 1
    decreases |s|
  {
    var at := Find(s, pat, 0);
    if at == -1 then [s] else [s[..at]] + Pieces(s[at + |pat|..], pat)
  }

  function Join(ps: seq<string>, sep: string): string {
    if ps == [] then "" else if |ps| == 1 then ps[0] else ps[0] + sep + Join(ps[1..], sep)
  }

  /** The text is its pieces joined by the pattern, and the result is the same
      pieces joined by the replacement. */
  lemma {:induction false} ReplacedJoinsPieces(s: string, pat: string, sub: string)
    requires pat != ""
    ensures Join(Pieces(s, pat), pat) == s
    ensures Join(Pieces(s, pat), sub) == Replaced(s, pat, sub)
    decreases |s|
  {
    var at := Find(s, pat, 0);
    if at != -1 {
      var rest := s[at + |pat|..];
      ReplacedJoinsPieces(rest, pat, sub);
      assert Pieces(s, pat)[1..] == Pieces(rest, pat);
      FindIsFirst(s, pat, 0);
      assert s == s[..at] + pat + rest;
    }
  }

  /** No occurrence is passed over: within each piece and the pattern after it,
      the pattern first occurs at the end; the last piece holds none. */
  lemma {:induction false} PiecesStopAtFirst(s: string, pat: string, i: nat)
    requires pat != "" && i < |Pieces(s, pat)|
    ensures var ps := Pieces(s, pat);
      if i < |ps| - 1 then Find(ps[i] + pat, pat, 0) == |ps[i]| else Find(ps[i], pat, 0) == -1
    decreases |s|
  {
    var at := Find(s, pat, 0);
    if at != -1 {
      if i == 0 {
        FirstPieceStops(s, pat, at);
      } else {
        PiecesStopAtFirst(s[at + |pat|..], pat, i - 1);
      }
    }
  }

  lemma FirstPieceStops(s: string, pat: string, at: nat)
    requires at == Find(s, pat, 0)
    ensures Find(s[..at] + pat, pat, 0) == at
  {
    FindIsFirst(s, pat, 0);
    var first := s[..at + |pat|];
    assert s[..at] + pat == first;
    FindIsFirst(first, pat, 0);
    assert OccursAt(first, pat, at);
    forall k | 0 <= k < at ensures !OccursAt(first, pat, k) {
      OccursInPrefix(s, at + |pat|, pat, k);
    }
  }

  lemma OccursInPrefix(s: string, n: nat, pat: string, k: nat)
    requires n <= |s|
    ensures OccursAt(s[..n], pat, k) ==> OccursAt(s, pat, k)
  {
    if k + |pat| <= n {
      assert s[..n][k..k + |pat|] == s[k..k + |pat|];
    }
  }

  /** The loop's state after n turns on an empty pattern. */
  function EmptyPatternTurns(text: string, sub: string, n: nat): (string, int) {
    if n == 0 then (text, Find(text, "", 0))
    else
      var (str, pos) := EmptyPatternTurns(text, sub, n - 1);
      if 0 <= pos <= |str| then
        var next := str[..pos] + sub + str[pos..];
        (next, Find(next, "", pos + |sub|))
      else (str, -1)
  }

  /** With an empty pattern the loop never ends: after every number of turns
      the position is still inside the text. */
  lemma {:induction false} EmptyPatternNeverEnds(text: string, sub: string, n: nat)
    ensures var (str, pos) := EmptyPatternTurns(text, sub, n);
      pos == n * |sub| && pos <= |str| && |str| == |text| + n * |sub|
  {
    if n > 0 {
      EmptyPatternNeverEnds(text, sub, n - 1);
      var (str, pos) := EmptyPatternTurns(text, sub, n - 1);
      assert n * |sub| == (n - 1) * |sub| + |sub|;
      assert OccursAt(str[..pos] + sub + str[pos..], "", pos + |sub|);
    }
  }

  // ----- Base64Decode -----------------------------------------------------

  type octet = bv8

  /** base64_decode_map. */
  function DecodeMap(c: octet): octet {
    if c == 43 then 62
    else if c == 47 then 63
    else if 48 <= c <= 57 then c + 4
    else if c == 61 then 0
    else if 65 <= c <= 90 then c - 65
    else if 97 <= c <= 122 then c - 71
    else 255
  }

  /** The alphabet of section 4 of RFC 4648. */
  function EncodeMap(v: octet): octet {
    if v < 26 then v + 65 else if v < 52 then v + 71 else if v < 62 then v - 4 else if v == 62 then 43 else 47
  }

  const PAD: octet := 61

  function EncodeGroup(a: octet, b: octet, c: octet): (g: seq<octet>)
    ensures |g| == 4
  {
    [EncodeMap(a >> 2), EncodeMap(((a & 3) << 4) | (b >> 4)), EncodeMap(((b & 15) << 2) | (c >> 6)), EncodeMap(c & 63)]
  }

  /** The padded encoding of section 4 of RFC 4648. */
  function Encode(x: seq<octet>): (s: seq<octet>)
    ensures |s| % 4 == 0
  {
    if x == [] then []
    else if |x| == 1 then EncodeGroup(x[0], 0, 0)[..2] + [PAD, PAD]
    else if |x| == 2 then EncodeGroup(x[0], x[1], 0)[..3] + [PAD]
    else
      var s := Encode(x[3..]);
      assert (4 + |s|) % 4 == 0;
      EncodeGroup(x[0], x[1], x[2]) + s
  }

  /** The three output bytes of a group, from neighbouring six-bit values. */
  function First(p: octet, q: octet): octet {
    (p << 2) | (q >> 4)
  }

  function Second(q: octet, r: octet): octet {
    (q << 4) | (r >> 2)
  }

  function Third(r: octet, t: octet): octet {
    (r << 6) | t
  }

  function DecodeGroup(s: seq<octet>): (r: seq<octet>)
    requires |s| >= 4
    ensures |r| == 3
  {
    var a, b, c, d := DecodeMap(s[0]), DecodeMap(s[1]), DecodeMap(s[2]), DecodeMap(s[3]);
    [First(a, b), Second(b, c), Third(c, d)]
  }

  function DecodeGroups(s: seq<octet>): (r: seq<octet>)
    requires |s| % 4 == 0
    ensures |r| == |s| / 4 * 3
  {
    if s == [] then [] else DecodeGroup(s) + DecodeGroups(s[4..])
  }

  function TrailingPads(s: seq<octet>): (n: nat)
    ensures n <= |s|
  {
    if s != [] && s[|s| - 1] == PAD then 1 + TrailingPads(s[..|s| - 1]) else 0
  }

  lemma {:induction false} DecodeGroupsAppend(s: seq<octet>, g: seq<octet>)
    requires |s| % 4 == 0 && |g| == 4
    ensures DecodeGroups(s + g) == DecodeGroups(s) + DecodeGroup(g)
  {
    if s == [] {
      assert s + g == g && g[4..] == [];
    } else {
      DecodeGroupsAppend(s[4..], g);
      DecodeGroupsStep(s, g);
    }
  }

  lemma DecodeGroupsStep(s: seq<octet>, g: seq<octet>)
    requires |s| % 4 == 0 && |g| == 4 && s != []
    ensures DecodeGroups(s + g) == DecodeGroup(s) + DecodeGroups(s[4..] + g)
  {
    assert (s + g)[4..] == s[4..] + g;
    assert forall k :: 0 <= k < 4 ==> (s + g)[k] == s[k];
  }

  /** The backward count of '=' at the end of the text. */
  method CountPads(src: seq<octet>) returns (final: nat)
    ensures final == TrailingPads(src)
  {
    final := 0;
    var i := |src| - 1;
    assert src[..|src|] == src;
    while i >= 0
      invariant -1 <= i < |src|
      invariant final + TrailingPads(src[..i + 1]) == TrailingPads(src)
      decreases i
    {
      assert src[..i + 1][..i] == src[..i];
      if src[i] != PAD {
        break;
      }
      final := final + 1;
      i := i - 1;
    }
  }

  /** The three assignments of one turn. */
  method DecodeOne(src: seq<octet>, i: nat, dst: array<octet>, j: nat)
    requires i + 4 <= |src| && j + 3 <= dst.Length
    modifies dst
    ensures dst[..j + 3] == old(dst[..j]) + DecodeGroup(src[i..i + 4])
    ensures forall k :: j + 3 <= k < dst.Length ==> dst[k] == old(dst[k])
  {
    dst[j] := First(DecodeMap(src[i]), DecodeMap(src[i + 1]));
    dst[j + 1] := Second(DecodeMap(src[i + 1]), DecodeMap(src[i + 2]));
    dst[j + 2] := Third(DecodeMap(src[i + 2]), DecodeMap(src[i + 3]));
    ghost var out := DecodeGroup(src[i..i + 4]);
    assert dst[j] == out[0] && dst[j + 1] == out[1] && dst[j + 2] == out[2];
    assert dst[..j + 3] == dst[..j] + dst[j..j + 3] && dst[j..j + 3] == out;
  }

  /** src is the text up to its NUL; size is the length the caller passes, and
      whole groups must lie within the text. */
  method Base64Decode(src: seq<octet>, dst: array<octet>, size: nat, ghost groups: nat) returns (count: int)
    requires groups * 4 - 4 < size <= groups * 4 <= |src| && groups * 3 <= dst.Length
    modifies dst
    ensures count == groups * 3 - TrailingPads(src)
    ensures dst[..groups * 3] == DecodeGroups(src[..groups * 4])
    ensures dst[groups * 3..] == old(dst[groups * 3..])
  {
    var final := CountPads(src);
    count := DecodeLoop(src, dst, size, groups);
    count := count - final;
  }

  method DecodeLoop(src: seq<octet>, dst: array<octet>, size: nat, ghost groups: nat) returns (j: nat)
    requires groups * 4 - 4 < size <= groups * 4 <= |src| && groups * 3 <= dst.Length
    modifies dst
    ensures j == groups * 3 && dst[..j] == DecodeGroups(src[..groups * 4])
    ensures dst[j..] == old(dst[j..])
  {
    j := 0;
    var i := 0;
    ghost var g := 0;
    while i < size
      invariant g <= groups && i == 4 * g && j == 3 * g
      invariant dst[..j] == DecodeGroups(src[..i])
      invariant forall k :: j <= k < dst.Length ==> dst[k] == old(dst[k])
    {
      i, j := DecodeTurn(src, i, dst, j, g);
      g := g + 1;
    }
  }

  method DecodeTurn(src: seq<octet>, i: nat, dst: array<octet>, j: nat, ghost g: nat) returns (i': nat, j': nat)
    requires i == 4 * g && j == 3 * g && i + 4 <= |src| && j + 3 <= dst.Length
    requires dst[..j] == DecodeGroups(src[..i])
    modifies dst
    ensures i' == i + 4 && j' == j + 3 && dst[..j'] == DecodeGroups(src[..i'])
    ensures forall k :: j' <= k < dst.Length ==> dst[k] == old(dst[k])
  {
    GroupAt(src, i);
    DecodeOne(src, i, dst, j);
    i', j' := i + 4, j + 3;
  }

  lemma GroupAt(src: seq<octet>, i: nat)
    requires i % 4 == 0 && i + 4 <= |src|
    ensures DecodeGroups(src[..i + 4]) == DecodeGroups(src[..i]) + DecodeGroup(src[i..i + 4])
  {
    DecodeGroupsAppend(src[..i], src[i..i + 4]);
    assert src[..i + 4] == src[..i] + src[i..i + 4];
  }

  lemma MapsInvert(v: octet)
    requires v < 64
    ensures DecodeMap(EncodeMap(v)) == v && EncodeMap(v) != PAD && EncodeMap(v) != 0
  {}

  lemma GroupBits(a: octet, b: octet, c: octet)
    ensures a >> 2 < 64 && ((a & 3) << 4) | (b >> 4) < 64 && ((b & 15) << 2) | (c >> 6) < 64 && c & 63 < 64
    ensures First(a >> 2, ((a & 3) << 4) | (b >> 4)) == a
    ensures Second(((a & 3) << 4) | (b >> 4), ((b & 15) << 2) | (c >> 6)) == b
    ensures Third(((b & 15) << 2) | (c >> 6), c & 63) == c
  {}

  lemma GroupRoundTrip(a: octet, b: octet, c: octet, more: seq<octet>)
    ensures DecodeGroup(EncodeGroup(a, b, c) + more) == [a, b, c]
    ensures forall k :: 0 <= k < 4 ==> EncodeGroup(a, b, c)[k] != PAD
  {
    GroupBits(a, b, c);
    MapsInvert(a >> 2);
    MapsInvert(((a & 3) << 4) | (b >> 4));
    MapsInvert(((b & 15) << 2) | (c >> 6));
    MapsInvert(c & 63);
  }

  lemma {:induction false} PadsAfter(g: seq<octet>, t: seq<octet>)
    requires g != [] && g[|g| - 1] != PAD
    ensures TrailingPads(g + t) == TrailingPads(t)
  {
    if t == [] {
      assert g + t == g;
    } else {
      assert (g + t)[..|g + t| - 1] == g + t[..|t| - 1];
      PadsAfter(g, t[..|t| - 1]);
    }
  }

  /** Decoding the padded encoding of any byte string returns its length, and
      its bytes in that prefix of the output. */
  lemma {:induction false} Base64RoundTrip(x: seq<octet>)
    ensures var s := Encode(x);
      |s| / 4 * 3 - TrailingPads(s) == |x| && |x| <= |s| / 4 * 3 && DecodeGroups(s)[..|x|] == x
  {
    if x == [] {
    } else if |x| < 3 {
      ShortRoundTrip(x);
    } else {
      GroupRoundTrip(x[0], x[1], x[2], Encode(x[3..]));
      Base64RoundTrip(x[3..]);
      LongRoundTrip(x, EncodeGroup(x[0], x[1], x[2]));
    }
  }

  lemma LongRoundTrip(x: seq<octet>, g: seq<octet>)
    requires |x| >= 3 && |g| == 4 && g[3] != PAD
    requires var t := Encode(x[3..]);
      && DecodeGroup(g + t) == [x[0], x[1], x[2]]
      && |t| / 4 * 3 - TrailingPads(t) == |x| - 3 && |x| - 3 <= |t| / 4 * 3 && DecodeGroups(t)[..|x| - 3] == x[3..]
    ensures var s := g + Encode(x[3..]);
      |s| / 4 * 3 - TrailingPads(s) == |x| && |x| <= |s| / 4 * 3 && DecodeGroups(s)[..|x|] == x
  {
    var t := Encode(x[3..]);
    PadsAfter(g, t);
    assert |DecodeGroups(t)| == |t| / 4 * 3;
    UnfoldDecode(g, t);
    LongDecode([x[0], x[1], x[2]], DecodeGroups(t), x);
  }

  lemma UnfoldDecode(g: seq<octet>, t: seq<octet>)
    requires |g| == 4 && |t| % 4 == 0
    ensures DecodeGroups(g + t) == DecodeGroup(g + t) + DecodeGroups(t)
    ensures |g + t| / 4 * 3 == 3 + |t| / 4 * 3
  {
    assert (g + t)[4..] == t;
  }

  lemma LongDecode(head: seq<octet>, decoded: seq<octet>, x: seq<octet>)
    requires |x| >= 3 && head == x[..3] && |x| - 3 <= |decoded| && decoded[..|x| - 3] == x[3..]
    ensures (head + decoded)[..|x|] == x
  {
  }

  lemma ShortRoundTrip(x: seq<octet>)
    requires 1 <= |x| <= 2
    ensures var s := Encode(x);
      |s| == 4 && TrailingPads(s) == 3 - |x| && DecodeGroups(s)[..|x|] == x
  {
    var s := Encode(x);
    var b := if |x| == 1 then 0 else x[1];
    var g := EncodeGroup(x[0], b, 0);
    GroupRoundTrip(x[0], b, 0, []);
    assert g + [] == g && s[4..] == [];
    PadsOnly(3 - |x|);
    assert s == g[..|x| + 1] + seq(3 - |x|, _ => PAD);
    PadsAfter(g[..|x| + 1], seq(3 - |x|, _ => PAD));
    ShortGroup(x[0], b, |x|);
    assert DecodeGroups(s) == DecodeGroup(s) + [];
  }

  lemma PadsOnly(n: nat)
    requires n <= 2
    ensures TrailingPads(seq(n, _ => PAD)) == n
  {
    var s := seq(n, _ => PAD);
    if n > 0 {
      assert s[..n - 1] == seq(n - 1, _ => PAD);
      if n > 1 {
        assert s[..1][..0] == [];
      }
    }
  }

  lemma ShortGroup(a: octet, b: octet, n: nat)
    requires 1 <= n <= 2 && (n == 1 ==> b == 0)
    ensures var s := EncodeGroup(a, b, 0)[..n + 1] + seq(3 - n, _ => PAD);
      DecodeGroup(s)[0] == a && (n == 2 ==> DecodeGroup(s)[1] == b)
  {
    GroupBits(a, b, 0);
    MapsInvert(a >> 2);
    MapsInvert(((a & 3) << 4) | (b >> 4));
    MapsInvert((b & 15) << 2);
  }
}
