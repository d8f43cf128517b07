/** Bytes and little-endian numbers. */
module Bytes {
  import opened Results

  type Byte = b: nat | b < 256

  const U32_LIMIT: nat := 0x1_0000_0000
  const U64_LIMIT: nat := 0x1_0000_0000_0000_0000

  function Pow256(n: nat): (p: nat)
    ensures p > 0
  {
    if n == 0 then 1 else 256 * Pow256(n - 1)
  }

  /** The number a little-endian byte string stands for. */
  function LeValue(s: seq<Byte>): nat {
    if s == [] then 0 else s[0] + 256 * LeValue(s[1..])
  }

  /** The lowest `n` bytes of a number, least significant first. */
  function LeBytes(v: nat, n: nat): (s: seq<Byte>)
    ensures |s| == n
  {
    if n == 0 then [] else [v % 256] + LeBytes(v / 256, n - 1)
  }

  /** The `n`-byte number at an offset, if it lies in the bytes. */
  function Read(bytes: seq<Byte>, offset: nat, n: nat): Option<nat> {
    if offset + n <= |bytes| then Some(LeValue(bytes[offset..offset + n])) else None
  }

  lemma {:induction false} LeBound(s: seq<Byte>)
    ensures LeValue(s) < Pow256(|s|)
  {
    if s != [] { LeBound(s[1..]); }
  }

  lemma {:induction false} LeRoundTrip(v: nat, n: nat)
    requires v < Pow256(n)
    ensures LeValue(LeBytes(v, n)) == v
  {
    if n > 0 {
      LeRoundTrip(v / 256, n - 1);
      assert LeBytes(v, n)[1..] == LeBytes(v / 256, n - 1);
    }
  }

  lemma {:induction false} LeInverse(s: seq<Byte>)
    ensures LeBytes(LeValue(s), |s|) == s
  {
    if s != [] { LeInverse(s[1..]); }
  }

  lemma TwoBytes(bytes: seq<Byte>, offset: nat)
    requires offset + 2 <= |bytes|
    ensures LeValue(bytes[offset..offset + 2]) == bytes[offset] as int + 256 * bytes[offset + 1] as int
  {
    var s, rest: seq<Byte> := bytes[offset..offset + 2], [bytes[offset + 1]];
    assert rest[1..] == [];
    assert LeValue(rest) == rest[0];
    assert s[1..] == rest;
  }
}
