/** Byte strings, the big-endian integers packed into them, and reading at a position. */
module Bytes {
  type byte = b: int | 0 <= b < 256
  type bytes = seq<byte>
  type uint16 = n: int | 0 <= n < 0x1_0000

  datatype Option<+T> = None | Some(value: T)

  datatype Result<+T, +E> = Ok(value: T) | Err(error: E)

  function U16(n: uint16): bytes {
    [n / 256, n % 256]
  }

  function U24(n: int): bytes
    requires 0 <= n < 0x100_0000
  {
    [n / 0x1_0000] + U16(n % 0x1_0000)
  }

  function U32(n: int): (r: bytes)
    requires 0 <= n < 0x1_0000_0000
    ensures |r| == 4
  {
    U16(n / 0x1_0000) + U16(n % 0x1_0000)
  }

  function ReadU16(data: bytes, p: nat): uint16
    requires p + 2 <= |data|
  {
    data[p] as int * 256 + data[p + 1] as int
  }

  function ReadU24(data: bytes, p: nat): nat
    requires p + 3 <= |data|
  {
    data[p] as int * 0x1_0000 + ReadU16(data, p + 1)
  }

  function ReadU32(data: bytes, p: nat): nat
    requires p + 4 <= |data|
  {
    ReadU16(data, p) * 0x1_0000 + ReadU16(data, p + 2)
  }

  /** `chunk` is what stands in `data` from position `p` on. */
  predicate At(data: bytes, p: nat, chunk: bytes) {
    p + |chunk| <= |data| && data[p..p + |chunk|] == chunk
  }

  lemma AtByte(data: bytes, p: nat, chunk: bytes, i: nat)
    requires At(data, p, chunk) && i < |chunk|
    ensures data[p + i] == chunk[i]
  {
  }

  lemma AtBound(data: bytes, p: nat, chunk: bytes)
    requires At(data, p, chunk)
    ensures p + |chunk| <= |data| && data[p..p + |chunk|] == chunk
  {
  }

  lemma AtSplit(data: bytes, p: nat, a: bytes, b: bytes)
    requires At(data, p, a + b)
    ensures At(data, p, a) && At(data, p + |a|, b)
  {
    var whole := data[p..p + |a + b|];
    assert whole[..|a|] == a && whole[|a|..] == b;
    assert data[p..p + |a|] == whole[..|a|];
    assert data[p + |a|..p + |a| + |b|] == whole[|a|..];
  }

  lemma AtSlice(data: bytes, p: nat, chunk: bytes, i: nat, j: nat)
    requires At(data, p, chunk) && i <= j <= |chunk|
    ensures data[p + i..p + j] == chunk[i..j]
  {
    forall k | i <= k < j ensures data[p + k] == chunk[k] {
      AtByte(data, p, chunk, k);
    }
  }

  lemma AtWhole(data: bytes)
    ensures At(data, 0, data)
  {
  }

  lemma AtU16(data: bytes, p: nat, n: uint16)
    requires At(data, p, U16(n))
    ensures ReadU16(data, p) == n
  {
  }

  lemma AtU24(data: bytes, p: nat, n: nat)
    requires n < 0x100_0000 && At(data, p, U24(n))
    ensures ReadU24(data, p) == n
  {
  }

  lemma AtU32(data: bytes, p: nat, n: nat)
    requires n < 0x1_0000_0000 && At(data, p, U32(n))
    ensures ReadU32(data, p) == n
  {
  }

  /** The chunks one after the other. */
  function Concat(chunks: seq<bytes>): bytes {
    if chunks == [] then [] else chunks[0] + Concat(chunks[1..])
  }

  lemma {:induction false} ConcatAppend(a: seq<bytes>, b: seq<bytes>)
    ensures Concat(a + b) == Concat(a) + Concat(b)
  {
    if a == [] {
      assert a + b == b;
    } else {
      assert (a + b)[0] == a[0] && (a + b)[1..] == a[1..] + b;
      ConcatAppend(a[1..], b);
      assert a[0] + (Concat(a[1..]) + Concat(b)) == a[0] + Concat(a[1..]) + Concat(b);
    }
  }

  lemma ConcatNothing()
    ensures Concat([]) == []
  {
  }

  lemma ConcatSnoc(chunks: seq<bytes>, last: bytes)
    ensures Concat(chunks + [last]) == Concat(chunks) + last
  {
    var one: seq<bytes> := [last];
    ConcatAppend(chunks, one);
    assert one[1..] == [];
  }
}
