/** The two-region buffer of circularbuffer.cpp. Region A holds the oldest
    bytes; region B, when it exists, lies before it and holds the newest. */
module BipBuffer {
  import opened Bytes

  /** Region A, then region B (absent when b is -1). */
  function Regions(s: seq<byte>, a: nat, na: nat, b: int, nb: nat): (q: seq<byte>)
    requires a + na <= |s| && -1 <= b && (b == -1 ==> nb == 0) && b + nb <= |s|
    ensures |q| == na + nb
  {
    s[a..a + na] + (if b == -1 then [] else s[b..b + nb])
  }

  /** t is s with p stored at a position. */
  ghost predicate Stored(s: seq<byte>, t: seq<byte>, at: nat, p: seq<byte>)
    requires at + |p| <= |s|
  {
    |t| == |s| && t[at..at + |p|] == p && t[..at] == s[..at] && t[at + |p|..] == s[at + |p|..]
  }

  lemma StoredAt(s: seq<byte>, t: seq<byte>, at: nat, p: seq<byte>, k: nat)
    requires at + |p| <= |s| && Stored(s, t, at, p) && k < |s|
    ensures t[k] == if at <= k < at + |p| then p[k - at] else s[k]
  {
    if k < at {
      assert t[..at][k] == s[..at][k];
    } else if k < at + |p| {
      assert t[at..at + |p|][k - at] == p[k - at];
    } else {
      assert t[at + |p|..][k - at - |p|] == s[at + |p|..][k - at - |p|];
    }
  }

  /** Growing the newest region takes in the bytes that lie behind it. */
  lemma GrowB(s: seq<byte>, a: nat, na: nat, nb: nat, len: nat)
    requires a + na <= |s| && nb + len <= |s|
    ensures Regions(s, a, na, 0, nb + len) == Regions(s, a, na, 0, nb) + s[nb..nb + len]
  {
    assert s[0..nb + len] == s[0..nb] + s[nb..nb + len];
  }

  lemma GrowA(s: seq<byte>, a: nat, na: nat, len: nat)
    requires a + na + len <= |s|
    ensures Regions(s, a, na + len, -1, 0) == Regions(s, a, na, -1, 0) + s[a + na..a + na + len]
  {
    assert s[a..a + na + len] == s[a..a + na] + s[a + na..a + na + len];
  }

  /** The sizes of the regions when the newest of them has grown by len. */
  function Grown(na: nat, b: int, nb: nat, len: nat): (nat, nat) {
    if b != -1 then (na, nb + len) else (na + len, nb)
  }

  lemma GrownIs(s: seq<byte>, a: nat, na: nat, b: int, nb: nat, at: nat, len: nat)
    requires a + na <= |s| && (b == 0 || (b == -1 && nb == 0)) && at == (if b == 0 then nb else a + na)
      && at + len <= |s|
    ensures var n := Grown(na, b, nb, len);
      a + n.0 <= |s| && b + n.1 <= |s| && (b == -1 ==> n.1 == 0) &&
      Regions(s, a, n.0, b, n.1) == Regions(s, a, na, b, nb) + s[at..at + len]
  {
    if b == 0 {
      GrowB(s, a, na, nb, len);
    } else {
      GrowA(s, a, na, len);
    }
  }

  /** Bytes stored beyond both regions are not yet part of the queue. */
  lemma StoreOutside(s: seq<byte>, t: seq<byte>, a: nat, na: nat, b: int, nb: nat, at: nat, p: seq<byte>)
    requires a + na <= |s| && (b == 0 || (b == -1 && nb == 0)) && b + nb <= |s| && at + |p| <= |s|
      && Stored(s, t, at, p)
    requires if b == 0 then at == nb && at + |p| <= a else at == a + na
    ensures Regions(t, a, na, b, nb) == Regions(s, a, na, b, nb)
  {
    forall k | 0 <= k < |s| ensures t[k] == if at <= k < at + |p| then p[k - at] else s[k] {
      StoredAt(s, t, at, p, k);
    }
  }

  /** Taking k bytes from the front moves the start of A, and then of B. */
  lemma DropFront(s: seq<byte>, a: nat, na: nat, b: int, nb: nat, k: nat)
    requires a + na <= |s| && -1 <= b && (b == -1 ==> nb == 0) && b + nb <= |s| && k <= na + nb
    ensures Regions(s, a, na, b, nb)[k..] ==
      if k <= na then Regions(s, a + k, na - k, b, nb) else Regions(s, a + na, 0, b + k - na, nb + na - k)
  {
    var x, y := s[a..a + na], if b == -1 then [] else s[b..b + nb];
    if k <= na {
      assert (x + y)[k..] == x[k..] + y && x[k..] == s[a + k..a + na];
    } else {
      assert (x + y)[k..] == y[k - na..] && y[k - na..] == s[b + k - na..b + nb];
      OnlyB(s, a + na, b + k - na, nb + na - k);
    }
  }

  /** The first k bytes, out of A and then B. */
  function Front(s: seq<byte>, a: nat, na: nat, b: int, k: nat): seq<byte>
    requires a + na <= |s| && (k > na ==> 0 <= b && b + k - na <= |s|)
  {
    if k <= na then s[a..a + k] else s[a..a + na] + s[b..b + k - na]
  }

  /** The pointers and sizes after len bytes, or all there are, were taken. */
  function Stepped(a: nat, na: nat, b: int, nb: nat, len: nat): (nat, nat, int, nat) {
    if len <= na then (a + len, na - len, b, nb)
    else if len <= na + nb then (a + na, 0, b + len - na, nb + na - len)
    else if nb == 0 then (a + na, 0, b, 0) else (a + na, 0, b + nb, 0)
  }

  lemma CutIs(s: seq<byte>, a: nat, na: nat, b: int, nb: nat, len: nat)
    requires a + na <= |s| && -1 <= b && (b == -1 ==> nb == 0) && b + nb <= |s|
    ensures var q, t := Regions(s, a, na, b, nb), Stepped(a, na, b, nb, len);
      Regions(s, t.0, t.1, t.2, t.3) == if len <= |q| then q[len..] else []
  {
    var t := Stepped(a, na, b, nb, len);
    if len <= na + nb {
      DropFront(s, a, na, b, nb, len);
    } else {
      assert Regions(s, t.0, t.1, t.2, t.3) == [];
    }
  }

  lemma OnlyA(s: seq<byte>, a: nat, na: nat)
    requires a + na <= |s|
    ensures Regions(s, a, na, -1, 0) == s[a..a + na]
  {}

  lemma OnlyB(s: seq<byte>, a: nat, b: nat, nb: nat)
    requires a <= |s| && b + nb <= |s|
    ensures Regions(s, a, 0, b, nb) == s[b..b + nb]
  {}

  lemma TakeFront(s: seq<byte>, a: nat, na: nat, b: int, nb: nat, k: nat)
    requires a + na <= |s| && -1 <= b && (b == -1 ==> nb == 0) && b + nb <= |s| && k <= na + nb
    ensures Regions(s, a, na, b, nb)[..k] == Front(s, a, na, b, k)
  {
  }

  class CircularBuffer {
    var buffer: array?<byte>
    var regionA: nat
    var sizeA: nat
    /** -1 is the null pointer. */
    var regionB: int
    var sizeB: nat

    ghost predicate Valid()
      reads this
    {
      && (buffer == null ==> regionA == sizeA == 0 && regionB == -1)
      && (buffer != null ==> regionA + sizeA <= buffer.Length)
      && (sizeA == 0 ==> regionA == 0)
      && (regionB == -1 ==> sizeB == 0)
      && (regionB != -1 ==> regionB == 0 && sizeB <= regionA && sizeA > 0)
    }

    /** The queue held: region A, then region B. */
    ghost function Contents(): (s: seq<byte>)
      requires Valid()
      reads this, buffer
      ensures |s| == sizeA + sizeB
    {
      if buffer == null then [] else Regions(buffer[..], regionA, sizeA, regionB, sizeB)
    }

    ghost function Capacity(): nat
      reads this
    {
      if buffer == null then 0 else buffer.Length
    }

    /** The room for one write. */
    ghost function Space(): (n: nat)
      requires Valid()
      reads this, buffer
      ensures n + |Contents()| <= Capacity()
    {
      if regionB != -1 then regionA - sizeB
      else if Capacity() - regionA - sizeA < regionA then regionA
      else Capacity() - regionA - sizeA
    }

    /** n slots from i on that hold nothing. */
    ghost predicate Unused(i: nat, n: nat)
      reads this, buffer
    {
      && i + n <= Capacity() && (i + n <= regionA || regionA + sizeA <= i)
      && (regionB == -1 || i + n <= regionB || regionB + sizeB <= i)
    }

    /** The room announced is the longest stretch that a write could use: any unused
        stretch while there is one region, what follows region B when there are two. */
    lemma SpaceIsLargest(i: nat, n: nat) returns (at: nat)
      requires Valid() && n > 0
      ensures Unused(at, Space())
      ensures regionB == -1 && Unused(i, n) ==> n <= Space()
      ensures regionB != -1 ==> at == sizeB && (Unused(sizeB, n) && sizeB + n <= regionA + sizeA <==> n <= Space())
    {
      at := if regionB != -1 then sizeB else if Space() == regionA then 0 else regionA + sizeA;
    }

    constructor ()
      ensures Valid() && buffer == null && Contents() == []
    {
      buffer, regionA, sizeA, regionB, sizeB := null, 0, 0, -1, 0;
    }

    method Allocate(size: nat)
      requires Valid() && buffer == null
      modifies this
      ensures Valid() && buffer != null && fresh(buffer) && Capacity() == size && Contents() == []
    {
      buffer := new byte[size](_ => 0);
      regionA := 0;
    }

    function GetAFreeSpace(): int
      reads this, buffer
    {
      (if buffer == null then 0 else buffer.Length) - regionA - sizeA
    }

    function GetSpaceBeforeA(): int
      reads this
    {
      regionA
    }

    function GetBFreeSpace(): int
      reads this
    {
      if regionB == -1 then 0 else regionA - regionB - sizeB
    }

    /** memcpy into the buffer. */
    method Store(at: nat, data: seq<byte>)
      requires buffer != null && at + |data| <= buffer.Length
      modifies buffer
      ensures Stored(old(buffer[..]), buffer[..], at, data)
    {
      forall k | 0 <= k < |data| {
        buffer[at + k] := data[k];
      }
    }

    /** memcpy out of the buffer. */
    method Fetch(dst: array<byte>, off: nat, at: nat, n: nat)
      requires buffer != null && at + n <= buffer.Length && off + n <= dst.Length && dst != buffer
      modifies dst
      ensures dst[..off + n] == old(dst[..off]) + buffer[..][at..at + n]
      ensures forall k :: off + n <= k < dst.Length ==> dst[k] == old(dst[k])
    {
      forall k | 0 <= k < n {
        dst[off + k] := buffer[at + k];
      }
    }

    /** Where the next byte goes. */
    ghost function Frontier(): nat
      requires Valid()
      reads this
    {
      if regionB != -1 then sizeB else regionA + sizeA
    }

    /** The room behind the frontier. */
    ghost function Room(): nat
      requires Valid()
      reads this, buffer
    {
      if regionB != -1 then regionA - sizeB else Capacity() - regionA - sizeA
    }

    method Append(data: seq<byte>)
      requires Valid() && buffer != null && |data| <= Room()
      modifies this, buffer
      ensures Valid() && buffer == old(buffer) && Contents() == old(Contents()) + data
    {
      ghost var s := buffer[..];
      var at := GetBuffer();
      Store(at, data);
      StoreOutside(s, buffer[..], regionA, sizeA, regionB, sizeB, at, data);
      IncrementWritten(|data|);
    }

    /** Append, or nothing at all. */
    method Write(data: seq<byte>) returns (ok: bool)
      requires Valid()
      modifies this, buffer
      ensures Valid() && buffer == old(buffer)
      ensures ok <==> buffer != null && |data| <= old(Space())
      ensures Contents() == if ok then old(Contents()) + data else old(Contents())
    {
      if buffer == null {
        return false;
      }
      if regionB != -1 {
        if GetBFreeSpace() < |data| {
          return false;
        }
        Append(data);
        return true;
      }
      if GetAFreeSpace() < GetSpaceBeforeA() {
        regionB := 0;
        if GetBFreeSpace() < |data| {
          return false;
        }
        Append(data);
        return true;
      } else {
        if GetAFreeSpace() < |data| {
          return false;
        }
        Append(data);
        return true;
      }
    }

    /** Between taking bytes off the front and relocating: A may be used up while
        B is not. */
    ghost predicate Loose()
      reads this
    {
      && (buffer == null ==> regionA == sizeA == sizeB == 0 && regionB == -1)
      && (buffer != null ==> regionA + sizeA <= buffer.Length)
      && (regionB == -1 ==> sizeB == 0)
      && (regionB != -1 ==> 0 <= regionB && buffer != null && regionB + sizeB <= buffer.Length)
      && (sizeA > 0 ==> regionB == -1 || (regionB == 0 && sizeB <= regionA))
    }

    ghost function Left(): seq<byte>
      requires Loose()
      reads this, buffer
    {
      if buffer == null then [] else Regions(buffer[..], regionA, sizeA, regionB, sizeB)
    }

    /** When A is used up, B is moved to the base and becomes A. The move may overlap. */
    method Relocate()
      requires Loose()
      modifies this, buffer
      ensures Valid() && buffer == old(buffer) && Contents() == old(Left())
    {
      if sizeA == 0 {
        if sizeB > 0 {
          ghost var s := buffer[..];
          OnlyB(s, regionA, regionB, sizeB);
          MoveDown(regionB, sizeB);
          OnlyA(buffer[..], 0, sizeB);
          regionA, sizeA := 0, sizeB;
          regionB, sizeB := -1, 0;
        } else {
          regionB, sizeB := -1, 0;
          regionA, sizeA := 0, 0;
        }
      }
    }

    /** memmove to the base. */
    method MoveDown(at: nat, n: nat)
      requires buffer != null && at + n <= buffer.Length
      modifies buffer
      ensures buffer[..][0..n] == old(buffer[..][at..at + n])
    {
      if at != 0 {
        forall k | 0 <= k < n {
          buffer[k] := buffer[at + k];
        }
      }
    }

    /** Drop the oldest bytes, or all of them when asked for more. */
    method Remove(len: nat)
      requires Valid()
      modifies this, buffer
      ensures Valid() && buffer == old(buffer)
      ensures Contents() == if len <= |old(Contents())| then old(Contents())[len..] else []
    {
      Cut(len);
      Relocate();
    }

    /** The pointers of the two regions move over len bytes, or all there are. */
    method Cut(len: nat)
      requires Valid()
      modifies this
      ensures Loose() && buffer == old(buffer)
      ensures Left() == if len <= |old(Contents())| then old(Contents())[len..] else []
    {
      CutIs(if buffer == null then [] else buffer[..], regionA, sizeA, regionB, sizeB, len);
      Step(len);
    }

    method Step(len: nat)
      requires Valid()
      modifies this
      ensures buffer == old(buffer)
      ensures (regionA, sizeA, regionB, sizeB) == old(Stepped(regionA, sizeA, regionB, sizeB, len))
    {
      var cnt := len;
      if sizeA > 0 {
        var aRem := if cnt > sizeA then sizeA else cnt;
        sizeA := sizeA - aRem;
        regionA := regionA + aRem;
        cnt := cnt - aRem;
      }
      if cnt > 0 && sizeB > 0 {
        var bRem := if cnt > sizeB then sizeB else cnt;
        sizeB := sizeB - bRem;
        regionB := regionB + bRem;
        cnt := cnt - bRem;
      }
    }

    /** The memcpy calls of Read: region A first, the rest from region B. */
    method CopyOut(dst: array<byte>, bytes: nat)
      requires Valid() && buffer != null && bytes <= dst.Length && dst != buffer && bytes <= sizeA + sizeB
      modifies dst
      ensures dst[..bytes] == Contents()[..bytes]
      ensures forall k :: bytes <= k < dst.Length ==> dst[k] == old(dst[k])
    {
      TakeFront(buffer[..], regionA, sizeA, regionB, sizeB, bytes);
      CopyRegions(dst, bytes);
    }

    method CopyRegions(dst: array<byte>, bytes: nat)
      requires Valid() && buffer != null && bytes <= dst.Length && dst != buffer && bytes <= sizeA + sizeB
      modifies dst
      ensures dst[..bytes] == Front(buffer[..], regionA, sizeA, regionB, bytes)
      ensures forall k :: bytes <= k < dst.Length ==> dst[k] == old(dst[k])
    {
      ghost var w := buffer[..];
      if bytes > sizeA {
        FetchFirst(dst, regionA, sizeA, w);
        Fetch(dst, sizeA, regionB, bytes - sizeA);
      } else {
        FetchFirst(dst, regionA, bytes, w);
      }
    }

    method FetchFirst(dst: array<byte>, at: nat, n: nat, ghost w: seq<byte>)
      requires buffer != null && buffer[..] == w && at + n <= buffer.Length && n <= dst.Length && dst != buffer
      modifies dst
      ensures dst[..n] == w[at..at + n] && buffer[..] == w
      ensures forall k :: n <= k < dst.Length ==> dst[k] == old(dst[k])
    {
      Fetch(dst, 0, at, n);
      assert [] + w[at..at + n] == w[at..at + n] && old(dst[..0]) == [];
    }

    /** Take the oldest bytes, all of them or none. The pointers then move as in Remove. */
    method Read(dst: array<byte>, bytes: nat) returns (ok: bool)
      requires Valid() && bytes <= dst.Length && dst != buffer
      modifies this, buffer, dst
      ensures Valid() && buffer == old(buffer)
      ensures ok <==> buffer != null && bytes <= |old(Contents())|
      ensures ok ==> dst[..bytes] == old(Contents())[..bytes] && Contents() == old(Contents())[bytes..]
      ensures !ok ==> Contents() == old(Contents()) && dst[..] == old(dst[..])
      ensures forall k :: bytes <= k < dst.Length ==> dst[k] == old(dst[k])
    {
      if buffer == null || sizeA + sizeB < bytes {
        return false;
      }
      CopyOut(dst, bytes);
      Remove(bytes);
      ok := true;
    }

    /** Exactly the room for one write; it may create region B, which changes
        neither the contents nor the answer. */
    method GetSpace() returns (n: nat)
      requires Valid()
      modifies this
      ensures Valid() && buffer == old(buffer)
      ensures n == old(Space()) == Space() && Contents() == old(Contents())
      ensures buffer != null ==> n == Room()
      ensures Contents() == [] ==> n == Capacity()
    {
      if regionB != -1 {
        n := GetBFreeSpace();
      } else {
        if GetAFreeSpace() < GetSpaceBeforeA() {
          regionB := 0;
          n := GetBFreeSpace();
        } else {
          n := GetAFreeSpace();
        }
      }
    }

    method GetContiguiousBytes() returns (n: nat)
      requires Valid()
      ensures n == (if sizeA > 0 then sizeA else sizeB) <= |Contents()| && (n == 0 ==> Contents() == [])
      ensures n > 0 ==>
        buffer != null && regionA + n <= buffer.Length && Contents()[..n] == buffer[regionA..regionA + n]
    {
      n := if sizeA != 0 then sizeA else sizeB;
    }

    /** Where the oldest byte lies. */
    method GetBufferStart() returns (at: int)
      requires Valid()
      ensures Contents() != [] ==> buffer != null && 0 <= at < buffer.Length && buffer[at] == Contents()[0]
    {
      at := if sizeA > 0 then regionA else regionB;
    }

    /** Where the next byte written in place must go. */
    method GetBuffer() returns (at: nat)
      requires Valid()
      ensures at == Frontier()
    {
      at := if regionB != -1 then regionB + sizeB else regionA + sizeA;
    }

    /** Commit len bytes already put at GetBuffer, where there is room for them. */
    method IncrementWritten(len: nat)
      requires Valid() && buffer != null && len <= Room()
      modifies this
      ensures Valid() && buffer == old(buffer)
      ensures Contents() == old(Contents()) + old(buffer[..][Frontier()..Frontier() + len])
    {
      ghost var s := buffer[..];
      GrownIs(s, regionA, sizeA, regionB, sizeB, Frontier(), len);
      Grow(len);
      assert buffer[..] == s;
    }

    method Grow(len: nat)
      requires Valid() && buffer != null && len <= Room()
      modifies this`sizeA, this`sizeB
      ensures Valid() && (sizeA, sizeB) == old(Grown(sizeA, regionB, sizeB, len))
    {
      if regionB != -1 {
        sizeB := sizeB + len;
      } else {
        sizeA := sizeA + len;
      }
    }

    /** Writing in place (ask for the space, fill at GetBuffer, commit) is Write. */
    method FillInPlace(data: seq<byte>) returns (ok: bool)
      requires Valid() && buffer != null
      modifies this, buffer
      ensures Valid() && buffer == old(buffer)
      ensures ok <==> |data| <= old(Space())
      ensures Contents() == if ok then old(Contents()) + data else old(Contents())
    {
      var space := GetSpace();
      if |data| > space {
        return false;
      }
      Append(data);
      ok := true;
    }
  }
}
