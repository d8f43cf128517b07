/** The KrustBoot v1 envelope: a header, a record table and a payload under one 32-bit FNV-1a checksum. */
module BootEnvelope {
  import opened Bits
  import opened Buffers
  import opened Bytes

  const V1_MAGIC: seq<Byte> := [0x4b, 0x52, 0x55, 0x53, 0x54, 0x42, 0x4f, 0x4f, 0x54, 0x56, 0x31, 0, 0, 0, 0, 0]
  const V1_VERSION: nat := 1
  const V1_HEADER_SIZE: nat := 164
  const V1_CHECKSUM_OFFSET: nat := 32
  const V1_RECORD_SIZE: nat := 12
  const V1_RECORD_COUNT: nat := 9
  const V1_PAYLOAD_OFFSET: nat := V1_HEADER_SIZE + V1_RECORD_COUNT * V1_RECORD_SIZE
  const FNV_BASIS: nat := 0x811c_9dc5
  const FNV_PRIME: nat := 16_777_619
  /** The inverse of the prime modulo 2^32. */
  const FNV_INVERSE: nat := 899_433_627

  // ----- FNV-1a -----

  /** One step: the byte is xored into the low byte, then the state is multiplied modulo 2^32. */
  function Mix(h: nat, b: Byte): nat {
    h - h % 256 + Xor(h % 256, b, 8)
  }

  function Step(h: nat, b: Byte): (r: nat)
    ensures r < U32_LIMIT
  {
    Mix(h, b) * FNV_PRIME % U32_LIMIT
  }

  lemma MixBound(h: nat, b: Byte)
    requires h < U32_LIMIT
    ensures Mix(h, b) < U32_LIMIT && Mix(h, b) % 256 == Xor(h % 256, b, 8) && Mix(h, b) / 256 == h / 256
  {
    assert Pow2(8) == 256;
    XorUndo(h % 256, b, 8);
    hide Xor;
    LowByte(h, Xor(h % 256, b, 8));
  }

  lemma LowByte(h: nat, low: nat)
    requires h < U32_LIMIT && low < 256
    ensures var m := h - h % 256 + low; m < U32_LIMIT && m % 256 == low && m / 256 == h / 256
  {
    var q := h / 256;
    assert h - h % 256 + low == 256 * q + low && q < 0x100_0000;
  }

  /** Multiplying by the prime is undone by multiplying by its inverse. */
  lemma PrimeUndo(x: nat)
    requires x < U32_LIMIT
    ensures x * FNV_PRIME % U32_LIMIT * FNV_INVERSE % U32_LIMIT == x
  {
    var d, r := x * FNV_PRIME / U32_LIMIT, x * FNV_PRIME % U32_LIMIT;
    var k := 3_513_497;
    assert FNV_PRIME * FNV_INVERSE == 1 + k * U32_LIMIT;
    assert r * FNV_INVERSE == x + U32_LIMIT * (x * k - d * FNV_INVERSE);
    RemainderOf(r * FNV_INVERSE, x, x * k - d * FNV_INVERSE);
  }

  lemma RemainderOf(y: nat, x: nat, q: int)
    requires x < U32_LIMIT && y == x + U32_LIMIT * q
    ensures y % U32_LIMIT == x
  {}

  /** A step is injective in the state and in the byte. */
  lemma StepInjective(h: nat, b: Byte, h': nat, b': Byte)
    requires h < U32_LIMIT && h' < U32_LIMIT && Step(h, b) == Step(h', b') && (h == h' || b == b')
    ensures h == h' && b == b'
  {
    MixBound(h, b);
    MixBound(h', b');
    PrimeUndo(Mix(h, b));
    PrimeUndo(Mix(h', b'));
    hide Mix;
    assert Mix(h, b) == Mix(h', b');
    assert Pow2(8) == 256;
    XorUndo(h % 256, b, 8);
    XorUndo(h' % 256, b', 8);
    XorSwap(h % 256, b, 8);
    XorSwap(h' % 256, b', 8);
    XorUndo(b, h % 256, 8);
    XorUndo(b', h' % 256, 8);
  }

  // ----- The envelope's checksum -----

  ghost predicate InChecksum(i: nat) {
    V1_CHECKSUM_OFFSET <= i < V1_CHECKSUM_OFFSET + 4
  }

  function Masked(bytes: seq<Byte>, i: nat): Byte
    requires i < |bytes|
  {
    if V1_CHECKSUM_OFFSET <= i < V1_CHECKSUM_OFFSET + 4 then 0 else bytes[i]
  }

  /** The hash of the first `n` bytes, the checksum field counting as zero. */
  function Hash(bytes: seq<Byte>, n: nat): (h: nat)
    requires n <= |bytes|
    ensures h < U32_LIMIT
  {
    if n == 0 then FNV_BASIS else Step(Hash(bytes, n - 1), Masked(bytes, n - 1))
  }

  method V1Checksum(bytes: seq<Byte>) returns (hash: nat)
    ensures hash == Hash(bytes, |bytes|)
  {
    hash := FNV_BASIS;
    var index := 0;
    while index < |bytes|
      invariant index <= |bytes| && hash == Hash(bytes, index)
    {
      hash := Step(hash, Masked(bytes, index));
      index := index + 1;
    }
  }

  /** The hashes of two byte strings part at the byte where they differ and never meet again. */
  lemma {:induction false} HashesApart(a: seq<Byte>, b: seq<Byte>, d: nat, n: nat)
    requires DifferAt(a, b, d) && n <= |a|
    ensures Hash(a, n) == Hash(b, n) <==> n <= d || InChecksum(d)
    decreases n
  {
    if n > 0 {
      HashesApart(a, b, d, n - 1);
      hide Step;
      if Hash(a, n) == Hash(b, n) {
        if n - 1 == d || Masked(a, n - 1) == Masked(b, n - 1) {
          StepInjectiveHere(a, b, d, n);
        }
      }
    }
  }

  lemma StepInjectiveHere(a: seq<Byte>, b: seq<Byte>, d: nat, n: nat)
    requires DifferAt(a, b, d) && 0 < n <= |a| && Hash(a, n) == Hash(b, n)
    requires Hash(a, n - 1) == Hash(b, n - 1) <==> n - 1 <= d || InChecksum(d)
    ensures n <= d || InChecksum(d)
  {
    hide Step;
    StepInjective(Hash(a, n - 1), Masked(a, n - 1), Hash(b, n - 1), Masked(b, n - 1));
  }

  ghost predicate ChecksumMatches(bytes: seq<Byte>)
    requires |bytes| >= V1_PAYLOAD_OFFSET
  {
    Field(bytes, V1_CHECKSUM_OFFSET, 4) == Hash(bytes, |bytes|)
  }

  /** No byte of a manifest can change without the checksum noticing. */
  lemma OneByteCaught(a: seq<Byte>, b: seq<Byte>, d: nat)
    requires DifferAt(a, b, d) && |a| >= V1_PAYLOAD_OFFSET
    ensures !(ChecksumMatches(a) && ChecksumMatches(b))
  {
    HashesApart(a, b, d, |a|);
    if InChecksum(d) {
      FieldsApart(a, b, V1_CHECKSUM_OFFSET, 4, d);
    } else {
      assert a[V1_CHECKSUM_OFFSET..V1_CHECKSUM_OFFSET + 4] == b[V1_CHECKSUM_OFFSET..V1_CHECKSUM_OFFSET + 4];
    }
  }
}
