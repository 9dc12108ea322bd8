/** The ring buffer of include/common/ringbuffer.h: one slot is kept free, and
    the end index may rest one past the last slot. It refines a bounded FIFO. */
module RingBuffers {
  import opened Bytes

  /** getsize in 32-bit arithmetic. */
  function Size32(bufsize: nat, h: nat, r: nat): nat
    requires 0 < bufsize
  {
    (r + bufsize - h) % TWO32 % bufsize
  }

  /** The number of slots from h round to r. */
  function Distance(bufsize: nat, h: nat, r: nat): nat
    requires 0 < bufsize && h < bufsize && r <= bufsize
  {
    if h <= r < bufsize then r - h else if r < h then r + bufsize - h else if h == 0 then 0 else bufsize - h
  }

  lemma Quotient(x: nat, n: nat, q: nat)
    requires n > 0 && q * n <= x < q * n + n
    ensures x % n == x - q * n
  {
    var y := x / n;
    assert y * n + x % n == x;
    assert y < q ==> (y + 1) * n <= q * n;
    assert y > q ==> (q + 1) * n <= y * n;
  }

  /** The 32-bit sum is harmless exactly when it does not wrap, or when the
      buffer size divides 2^32 (which leaves 2^31 alone). */
  lemma SizeSurvivesWrap(bufsize: nat, h: nat, r: nat)
    requires 0 < bufsize < TWO32 && h < bufsize && r <= bufsize
    ensures Size32(bufsize, h, r) == Distance(bufsize, h, r) <==> r + bufsize - h < TWO32 || bufsize == 0x8000_0000
  {
    var x := r + bufsize - h;
    if x < TWO32 {
      Quotient(x, bufsize, if x < bufsize then 0 else if x < 2 * bufsize then 1 else 2);
    } else {
      Quotient(x - TWO32, bufsize, 0);
      assert x % TWO32 == x - TWO32;
    }
  }

  /** The slots from h round to r. */
  function Window(s: seq<byte>, h: nat, r: nat): (w: seq<byte>)
    requires h < |s| && r <= |s|
    ensures |w| == Distance(|s|, h, r) < |s|
  {
    if h == 0 && r == |s| then [] else if h <= r then s[h..r] else s[h..] + s[..r]
  }

  function After(n: nat, r: nat, len: nat): nat
    requires r + len >= n ==> r + len - n >= 0
  {
    if r + len <= n then r + len else r + len - n
  }

  /** t is s with p stored from r on, round the end. */
  ghost predicate Filled(s: seq<byte>, t: seq<byte>, r: nat, p: seq<byte>)
    requires r <= |s| && |p| < |s|
  {
    && |t| == |s|
    && (forall k :: 0 <= k < |p| ==> t[if r + k < |s| then r + k else r + k - |s|] == p[k])
    && (forall k :: 0 <= k < |s| && !(r <= k < r + |p|) && !(k + |s| < r + |p|) ==> t[k] == s[k])
  }

  lemma WindowGrows(s: seq<byte>, t: seq<byte>, h: nat, r: nat, p: seq<byte>)
    requires h < |s| && r <= |s| && |Window(s, h, r)| + |p| < |s| && Filled(s, t, r, p)
    ensures Window(t, h, After(|s|, r, |p|)) == Window(s, h, r) + p
  {
    var w := Window(t, h, After(|s|, r, |p|));
    var u := Window(s, h, r) + p;
    assert |w| == |u|;
    forall k | 0 <= k < |u| ensures w[k] == u[k] {
      WindowAt(t, h, After(|s|, r, |p|), k);
      if k < |Window(s, h, r)| {
        WindowAt(s, h, r, k);
      } else {
        FilledAt(s, t, h, r, p, k - |Window(s, h, r)|);
      }
    }
  }

  /** The slot k places on from h. */
  function Slot(n: nat, h: nat, k: nat): (at: nat)
    requires h < n && k < n
    ensures at < n
  {
    if h + k < n then h + k else h + k - n
  }

  lemma WindowAt(s: seq<byte>, h: nat, r: nat, k: nat)
    requires h < |s| && r <= |s| && k < |Window(s, h, r)|
    ensures Window(s, h, r)[k] == s[Slot(|s|, h, k)]
  {}

  lemma FilledAt(s: seq<byte>, t: seq<byte>, h: nat, r: nat, p: seq<byte>, k: nat)
    requires h < |s| && r <= |s| && k < |p| && |Window(s, h, r)| + |p| < |s| && Filled(s, t, r, p)
    ensures t[Slot(|s|, h, |Window(s, h, r)| + k)] == p[k]
  {}

  /** len slots from h on, round the end. */
  function Round(s: seq<byte>, h: nat, len: nat): seq<byte>
    requires h < |s| && len <= |s|
  {
    if h + len <= |s| then s[h..h + len] else s[h..] + s[..h + len - |s|]
  }

  lemma WindowPrefix(s: seq<byte>, h: nat, r: nat, len: nat)
    requires h < |s| && r <= |s| && len <= |Window(s, h, r)|
    ensures Window(s, h, r)[..len] == Round(s, h, len)
  {
  }

  function Advanced(bufsize: nat, h: nat, len: nat): nat
    requires len <= bufsize
  {
    if h + len < bufsize then h + len else h + len - bufsize
  }

  lemma WindowShrinks(s: seq<byte>, h: nat, r: nat, len: nat)
    requires h < |s| && r <= |s| && 0 < len <= |Window(s, h, r)|
    ensures Window(s, Advanced(|s|, h, len), r) == Window(s, h, r)[len..]
  {
  }

  class RingBuffer {
    var buf: array<byte>
    var bufsize: nat
    var h: nat
    var r: nat

    ghost predicate Valid()
      reads this
    {
      0 < bufsize < TWO32 && buf.Length == bufsize && h < bufsize && r <= bufsize
    }

    /** The bytes in the buffer, oldest first. */
    ghost function Contents(): (s: seq<byte>)
      requires Valid()
      reads this, buf
      ensures |s| == Distance(bufsize, h, r) < bufsize
    {
      Window(buf[..], h, r)
    }

    /** The constructor followed by init(bfsz). */
    constructor (bfsz: nat)
      requires bfsz + 1 < TWO32
      ensures Valid() && fresh(buf) && bufsize == bfsz + 1 && Contents() == [] && h == r == 0
    {
      buf := new byte[bfsz + 1](_ => 0);
      bufsize := bfsz + 1;
      h, r := 0, 0;
    }

    method Reset()
      requires Valid()
      modifies this, buf
      ensures Valid() && buf == old(buf) && bufsize == old(bufsize) && Contents() == []
    {
      h, r := 0, 0;
      forall k | 0 <= k < bufsize {
        buf[k] := 0;
      }
    }

    /** What getsize answers. */
    ghost function Reported(): (n: nat)
      requires Valid()
      reads this, buf
      ensures n < bufsize
      ensures n == |Contents()| <==> r + bufsize - h < TWO32 || bufsize == 0x8000_0000
    {
      SizeSurvivesWrap(bufsize, h, r);
      Size32(bufsize, h, r)
    }

    method GetSize() returns (n: nat)
      requires Valid()
      ensures n == Reported()
    {
      n := Size32(bufsize, h, r);
    }

    method GetFree() returns (n: nat)
      requires Valid()
      ensures n == bufsize - 1 - Reported()
    {
      var size := GetSize();
      n := bufsize - size - 1;
    }

    /** The sum wraps for the largest buffer alone. */
    method IsFull() returns (full: bool)
      requires Valid()
      ensures full <==> if r + 1 < TWO32 then |Contents()| == bufsize - 1 else h == 0
    {
      if r + 1 < TWO32 {
        Quotient(r + 1, TWO32, 0);
        Quotient(r + 1, bufsize, if r + 1 < bufsize then 0 else if r + 1 < 2 * bufsize then 1 else 2);
      }
      full := (r + 1) % TWO32 % bufsize == h;
    }

    /** Agrees with emptiness except after a drain that left r one past the end. */
    method IsEmpty() returns (empty: bool)
      requires Valid()
      ensures empty <==> Contents() == [] && !(h == 0 && r == bufsize)
    {
      empty := r == h;
    }

    method Put(p: seq<byte>) returns (ok: bool)
      requires Valid()
      modifies this, buf
      ensures Valid() && buf == old(buf) && bufsize == old(bufsize) && h == old(h)
      ensures ok <==> old(Reported()) + |p| <= bufsize - 1
      ensures !ok ==> Contents() == old(Contents())
      ensures ok ==> (Contents() == old(Contents()) + p <==> |old(Contents())| + |p| <= bufsize - 1)
      ensures r == if !ok then old(r) else if old(r) + |p| <= bufsize then old(r) + |p| else old(r) + |p| - bufsize
    {
      var free := GetFree();
      if free < |p| {
        return false;
      }
      CopyIn(p);
      if |old(Contents())| + |p| < bufsize {
        WindowGrows(old(buf[..]), buf[..], h, old(r), p);
      }
      ok := true;
    }

    /** The one or two memcpy calls of put, and the new end index. */
    method CopyIn(p: seq<byte>)
      requires Valid() && |p| < bufsize
      modifies this`r, buf
      ensures Valid() && r == if old(r) + |p| <= bufsize then old(r) + |p| else old(r) + |p| - bufsize
      ensures Filled(old(buf[..]), buf[..], old(r), p)
    {
      if bufsize - r >= |p| {
        forall k | 0 <= k < |p| {
          buf[r + k] := p[k];
        }
        r := r + |p|;
      } else {
        var first := bufsize - r;
        forall k | 0 <= k < first {
          buf[r + k] := p[k];
        }
        forall k | 0 <= k < |p| - first {
          buf[k] := p[first + k];
        }
        r := |p| - first;
      }
    }

    /** memcpy out of the buffer. */
    method Fetch(dst: array<byte>, off: nat, at: nat, n: nat, ghost w: seq<byte>)
      requires buf[..] == w && at + n <= buf.Length && off + n <= dst.Length && dst != buf
      modifies dst
      ensures dst[..off + n] == old(dst[..off]) + w[at..at + n]
      ensures dst[off + n..] == old(dst[off + n..]) && buf[..] == w
    {
      forall k | 0 <= k < n {
        dst[off + k] := buf[at + k];
      }
    }

    /** The one or two memcpy calls of get. */
    method CopyOut(org: nat, len: nat, dst: array<byte>, ghost w: seq<byte>)
      requires Valid() && buf[..] == w && len <= bufsize && len <= dst.Length && dst != buf && org < bufsize
      modifies dst
      ensures dst[..len] == Round(w, org, len) && dst[len..] == old(dst[len..])
    {
      assert dst[..0] == [];
      if bufsize - org >= len {
        Fetch(dst, 0, org, len, w);
        assert [] + w[org..org + len] == w[org..org + len];
      } else {
        var first := bufsize - org;
        Fetch(dst, 0, org, first, w);
        assert dst[..first] == w[org..];
        Fetch(dst, first, 0, len - first, w);
      }
    }

    /** The start index moves over len slots. */
    method Advance(len: nat)
      requires Valid() && len < bufsize
      modifies this`h
      ensures Valid() && h == Advanced(bufsize, old(h), len)
    {
      if bufsize - h >= len {
        Quotient(h + len, bufsize, if h + len < bufsize then 0 else 1);
        h := (h + len) % bufsize;
      } else {
        h := len - (bufsize - h);
      }
    }

    method Get(len: nat, dst: array<byte>) returns (ok: bool)
      requires Valid() && len <= dst.Length && dst != buf
      modifies this, dst
      ensures Valid() && buf == old(buf) && bufsize == old(bufsize) && r == old(r)
      ensures ok <==> 0 < len <= old(Reported())
      ensures ok && len <= |old(Contents())| ==>
        dst[..len] == old(Contents())[..len] && Contents() == old(Contents())[len..]
      ensures !ok ==> h == old(h) && Contents() == old(Contents()) && dst[..len] == old(dst[..len])
      ensures dst[len..] == old(dst[len..])
      ensures ok ==> h == Advanced(bufsize, old(h), len)
    {
      if len == 0 {
        return false;
      }
      var size := GetSize();
      if len > size {
        return false;
      }
      if len <= |Contents()| {
        WindowPrefix(buf[..], h, r, len);
        WindowShrinks(buf[..], h, r, len);
      }
      CopyOut(h, len, dst, buf[..]);
      Advance(len);
      ok := true;
    }
  }

  /** A drained buffer that isempty denies. */
  method DrainedButNotEmpty() returns (empty: bool, size: nat)
    ensures !empty && size == 0
  {
    var ring := new RingBuffer(3);
    var dst := new byte[3];
    var ok := ring.Put([1, 2, 3]);
    ok := ring.Get(3, dst);
    ok := ring.Put([4]);
    ok := ring.Get(1, dst);
    empty := ring.IsEmpty();
    size := ring.GetSize();
  }
}
