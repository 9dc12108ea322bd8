/** Bytes as the C++ code sees them (unsigned char), and the few sequence
    operations that every other module shares. */
module Bytes {
  type byte = b: int | 0 <= b < 256

  const TWO32 := 0x1_0000_0000

  datatype Option<+T> = None | Some(value: T)

  /** The concatenation of a list of byte strings. */
  function Flatten(parts: seq<seq<byte>>): seq<byte> {
    if parts == [] then [] else parts[0] + Flatten(parts[1..])
  }

  lemma {:induction false} FlattenAppend(a: seq<seq<byte>>, b: seq<seq<byte>>)
    ensures Flatten(a + b) == Flatten(a) + Flatten(b)
  {
    if a == [] {
      assert a + b == b;
    } else {
      FlattenAppend(a[1..], b);
      assert (a + b)[1..] == a[1..] + b;
      Associate(a[0], Flatten(a[1..]), Flatten(b));
    }
  }

  lemma FlattenCons(p: seq<byte>, ps: seq<seq<byte>>)
    ensures Flatten([p] + ps) == p + Flatten(ps)
  {
    assert ([p] + ps)[1..] == ps;
  }

  lemma Associate<T>(a: seq<T>, b: seq<T>, c: seq<T>)
    ensures (a + b) + c == a + (b + c)
  {}

  lemma FlattenOne(p: seq<byte>)
    ensures Flatten([p]) == p
  {
    assert [p][1..] == [];
  }

  /** n zero bytes, as memset leaves them. */
  function Zeros(n: nat): (z: seq<byte>)
    ensures |z| == n && forall i :: 0 <= i < n ==> z[i] == 0
  {
    seq(n, _ => 0)
  }

  /** The next element of an unordered iteration. */
  method Pick<T(==)>(s: set<T>) returns (x: T)
    requires s != {}
    ensures x in s
  {
    x :| x in s;
  }
}
