/** Fixed-offset fields in byte buffers, and the additive checksum that guards them. */
module Buffers {
  import opened Bytes

  /** Where a guarded buffer keeps its checksum. */
  const CHECKSUM_OFFSET: nat := 20

  // ----- Fields -----

  function Field(s: seq<Byte>, offset: nat, n: nat): nat
    requires offset + n <= |s|
  {
    LeValue(s[offset..offset + n])
  }

  /** `s` with `b` written at an offset. */
  function Put(s: seq<Byte>, offset: nat, b: seq<Byte>): (r: seq<Byte>)
    requires offset + |b| <= |s|
    ensures |r| == |s|
  {
    s[..offset] + b + s[offset + |b|..]
  }

  function Zeros(n: nat): (s: seq<Byte>)
    ensures |s| == n && forall i :: 0 <= i < n ==> s[i] == 0
  {
    seq(n, i => 0)
  }

  lemma PutHere(s: seq<Byte>, offset: nat, b: seq<Byte>)
    requires offset + |b| <= |s|
    ensures Put(s, offset, b)[offset..offset + |b|] == b
  {}

  lemma PutElsewhere(s: seq<Byte>, offset: nat, b: seq<Byte>, lo: nat, hi: nat)
    requires offset + |b| <= |s| && lo <= hi <= |s| && (hi <= offset || offset + |b| <= lo)
    ensures Put(s, offset, b)[lo..hi] == s[lo..hi]
  {}

  /** Writing inside a part writes the part. */
  lemma PutInside(s: seq<Byte>, offset: nat, b: seq<Byte>, lo: nat, hi: nat)
    requires lo <= offset && offset + |b| <= hi <= |s|
    ensures Put(s, offset, b)[lo..hi] == Put(s[lo..hi], offset - lo, b)
  {}

  lemma FieldHere(s: seq<Byte>, offset: nat, n: nat, v: nat)
    requires offset + n <= |s| && v < Pow256(n)
    ensures Field(Put(s, offset, LeBytes(v, n)), offset, n) == v
  {
    PutHere(s, offset, LeBytes(v, n));
    LeRoundTrip(v, n);
  }

  lemma FieldElsewhere(s: seq<Byte>, offset: nat, b: seq<Byte>, at: nat, n: nat)
    requires offset + |b| <= |s| && at + n <= |s| && (at + n <= offset || offset + |b| <= at)
    ensures Field(Put(s, offset, b), at, n) == Field(s, at, n)
  {
    PutElsewhere(s, offset, b, at, at + n);
  }

  // ----- Checksums -----

  /** The sum of every byte times its position, counted from one, modulo 2^32. */
  function Sum(s: seq<Byte>): nat {
    if s == [] then 0 else Sum(s[..|s| - 1]) + s[|s| - 1] * |s|
  }

  function Checksum(s: seq<Byte>): (c: nat)
    ensures c < U32_LIMIT
  {
    Sum(s) % U32_LIMIT
  }

  /** The checksum of a section with its own checksum field zeroed. */
  function SectionSum(s: seq<Byte>): nat
    requires |s| >= CHECKSUM_OFFSET + 4
  {
    Checksum(Put(s, CHECKSUM_OFFSET, Zeros(4)))
  }

  ghost predicate ChecksumValid(s: seq<Byte>)
    requires |s| >= CHECKSUM_OFFSET + 4
  {
    Field(s, CHECKSUM_OFFSET, 4) == SectionSum(s)
  }

  function Sealed(s: seq<Byte>): (r: seq<Byte>)
    requires |s| >= CHECKSUM_OFFSET + 4
    ensures |r| == |s|
  {
    Put(Put(s, CHECKSUM_OFFSET, Zeros(4)), CHECKSUM_OFFSET, LeBytes(SectionSum(s), 4))
  }

  lemma SealedIsValid(s: seq<Byte>)
    requires |s| >= CHECKSUM_OFFSET + 4
    ensures ChecksumValid(Sealed(s))
  {
    var zeroed := Put(s, CHECKSUM_OFFSET, Zeros(4));
    assert Pow256(4) == U32_LIMIT;
    FieldHere(zeroed, CHECKSUM_OFFSET, 4, SectionSum(s));
    assert Put(Sealed(s), CHECKSUM_OFFSET, Zeros(4)) == zeroed;
  }

  /** Sealing writes the checksum field only. */
  lemma SealedElsewhere(s: seq<Byte>, lo: nat, hi: nat)
    requires |s| >= CHECKSUM_OFFSET + 4 && lo <= hi <= |s| && (hi <= CHECKSUM_OFFSET || CHECKSUM_OFFSET + 4 <= lo)
    ensures Sealed(s)[lo..hi] == s[lo..hi]
  {
    hide Put;
    PutElsewhere(s, CHECKSUM_OFFSET, Zeros(4), lo, hi);
    PutElsewhere(Put(s, CHECKSUM_OFFSET, Zeros(4)), CHECKSUM_OFFSET, LeBytes(SectionSum(s), 4), lo, hi);
  }

  function PutField(s: seq<Byte>, offset: nat, n: nat, v: nat): (r: seq<Byte>)
    requires offset + n <= |s|
    ensures |r| == |s|
  {
    Put(s, offset, LeBytes(v, n))
  }

  lemma FieldBefore(s: seq<Byte>, offset: nat, b: seq<Byte>)
    requires offset + |b| <= |s|
    ensures forall at: nat, n: nat {:trigger Field(Put(s, offset, b), at, n)} ::
              at + n <= offset ==> Field(Put(s, offset, b), at, n) == Field(s, at, n)
  {
    forall at: nat, n: nat | at + n <= offset
      ensures Field(Put(s, offset, b), at, n) == Field(s, at, n)
    {
      FieldElsewhere(s, offset, b, at, n);
    }
  }

  lemma PutFieldHere(s: seq<Byte>, offset: nat, n: nat, v: nat)
    requires offset + n <= |s| && v < Pow256(n)
    ensures Field(PutField(s, offset, n, v), offset, n) == v
    ensures forall at: nat, k: nat {:trigger Field(PutField(s, offset, n, v), at, k)} ::
              at + k <= offset ==> Field(PutField(s, offset, n, v), at, k) == Field(s, at, k)
  {
    FieldHere(s, offset, n, v);
    FieldBefore(s, offset, LeBytes(v, n));
  }

  // ----- One changed byte -----

  /** Two buffers of one length that differ in exactly the byte at `d`. */
  ghost predicate DifferAt(a: seq<Byte>, b: seq<Byte>, d: nat) {
    |a| == |b| && d < |a| && a[d] != b[d] && forall i :: 0 <= i < |a| && i != d ==> a[i] == b[i]
  }

  lemma {:induction false} SumsApart(a: seq<Byte>, b: seq<Byte>, d: nat)
    requires |a| == |b| && (d < |a| ==> DifferAt(a, b, d)) && (d >= |a| ==> a == b)
    ensures Sum(b) - Sum(a) == if d < |a| then (b[d] as int - a[d] as int) * (d + 1) else 0
    decreases |a|
  {
    if a != [] && d < |a| {
      var n := |a| - 1;
      assert d == n ==> a[..n] == b[..n];
      SumsApart(a[..n], b[..n], d);
    }
  }

  /** The checksum moves with any byte, as long as the buffer is shorter than 16 MiB. */
  lemma ChecksumsApart(a: seq<Byte>, b: seq<Byte>, d: nat)
    requires DifferAt(a, b, d) && |a| <= 0x100_0000
    ensures Checksum(a) != Checksum(b)
  {
    SumsApart(a, b, d);
    var gap := (b[d] as int - a[d] as int) * (d + 1);
    GapIsSmall(b[d] as int - a[d] as int, d + 1);
    hide Sum;
    ModApart(Sum(a), Sum(b));
  }

  lemma GapIsSmall(x: int, k: nat)
    requires -256 < x < 256 && x != 0 && 0 < k <= 0x100_0000
    ensures x * k != 0 && 0 - U32_LIMIT < x * k < U32_LIMIT
  {
    if x > 0 { Product(x, k); } else { Product(-x, k); }
  }

  lemma Product(x: nat, k: nat)
    requires 0 < x < 256 && 0 < k <= 0x100_0000
    ensures 0 < x * k < U32_LIMIT
  {
    assert x * k <= 255 * k;
  }

  lemma ModApart(x: nat, y: nat)
    requires x != y && 0 - U32_LIMIT < y - x < U32_LIMIT
    ensures x % U32_LIMIT != y % U32_LIMIT
  {}

  lemma FieldsApart(a: seq<Byte>, b: seq<Byte>, at: nat, n: nat, d: nat)
    requires DifferAt(a, b, d) && at <= d < at + n <= |a|
    ensures Field(a, at, n) != Field(b, at, n)
  {
    LeInverse(a[at..at + n]);
    LeInverse(b[at..at + n]);
    assert a[at..at + n][d - at] != b[at..at + n][d - at];
  }

  /** A guarded buffer and the same buffer with one byte changed are not both valid. */
  lemma OneByteDetected(a: seq<Byte>, b: seq<Byte>, d: nat)
    requires DifferAt(a, b, d) && CHECKSUM_OFFSET + 4 <= |a| <= 0x100_0000
    ensures !(ChecksumValid(a) && ChecksumValid(b))
  {
    var a', b' := Put(a, CHECKSUM_OFFSET, Zeros(4)), Put(b, CHECKSUM_OFFSET, Zeros(4));
    if CHECKSUM_OFFSET <= d < CHECKSUM_OFFSET + 4 {
      FieldsApart(a, b, CHECKSUM_OFFSET, 4, d);
      assert a' == b';
    } else {
      assert DifferAt(a', b', d);
      ChecksumsApart(a', b', d);
      assert a[CHECKSUM_OFFSET..CHECKSUM_OFFSET + 4] == b[CHECKSUM_OFFSET..CHECKSUM_OFFSET + 4];
    }
  }
}
