/** Loops over byte buffers: checksums, and writing sections in place. */
module BufferCode {
  import opened Buffers
  import opened Bytes

  // ----- Checksums -----

  method Checksum32(bytes: seq<Byte>) returns (checksum: nat)
    ensures checksum == Checksum(bytes)
  {
    checksum := 0;
    var index := 0;
    while index < |bytes|
      invariant index <= |bytes| && checksum == Checksum(bytes[..index])
    {
      SumStep(bytes, index);
      checksum := (checksum + bytes[index] * (index + 1)) % U32_LIMIT;
      index := index + 1;
    }
    assert bytes[..|bytes|] == bytes;
  }

  lemma SumStep(bytes: seq<Byte>, k: nat)
    requires k < |bytes|
    ensures Checksum(bytes[..k + 1]) == (Checksum(bytes[..k]) + bytes[k] * (k + 1)) % U32_LIMIT
  {
    assert bytes[..k + 1][..k] == bytes[..k];
    assert Sum(bytes[..k + 1]) == Sum(bytes[..k]) + bytes[k] * (k + 1);
    hide Sum;
    ModAdd(Sum(bytes[..k]), bytes[k] * (k + 1));
  }

  lemma ModAdd(a: nat, b: nat)
    ensures (a + b) % U32_LIMIT == (a % U32_LIMIT + b) % U32_LIMIT
  {}

  method IsChecksumValid(bytes: seq<Byte>) returns (valid: bool)
    requires |bytes| >= CHECKSUM_OFFSET + 4
    ensures valid <==> ChecksumValid(bytes)
  {
    var sum := Checksum32(Put(bytes, CHECKSUM_OFFSET, Zeros(4)));
    valid := Field(bytes, CHECKSUM_OFFSET, 4) == sum;
  }

  // ----- Writing in place -----

  method WriteBytes(a: array<Byte>, at: nat, b: seq<Byte>)
    requires at + |b| <= a.Length
    modifies a
    ensures a[..] == Put(old(a[..]), at, b)
  {
    forall i | 0 <= i < |b| {
      a[at + i] := b[i];
    }
  }

  lemma PutPut(image: seq<Byte>, base: nat, s: seq<Byte>, offset: nat, b: seq<Byte>)
    requires base + |s| <= |image| && offset + |b| <= |s|
    ensures Put(Put(image, base, s), base + offset, b) == Put(image, base, Put(s, offset, b))
  {}

  lemma PutSelf(image: seq<Byte>, base: nat, n: nat)
    requires base + n <= |image|
    ensures Put(image, base, image[base..base + n]) == image
  {}

  lemma PutRead(image: seq<Byte>, base: nat, s: seq<Byte>)
    requires base + |s| <= |image|
    ensures Put(image, base, s)[base..base + |s|] == s
  {}

  /** Writes inside a section of the image. */
  method WriteInSection(a: array<Byte>, base: nat, offset: nat, b: seq<Byte>, ghost image: seq<Byte>,
                        ghost s: seq<Byte>)
    requires a.Length == |image| && base + |s| <= |image| && offset + |b| <= |s| && a[..] == Put(image, base, s)
    modifies a
    ensures a[..] == Put(image, base, Put(s, offset, b))
  {
    hide Put;
    WriteBytes(a, base + offset, b);
    PutPut(image, base, s, offset, b);
  }

  /** Seals a section of the image with its checksum. */
  method WriteChecksum(a: array<Byte>, base: nat, n: nat, ghost image: seq<Byte>, ghost s: seq<Byte>)
    requires a.Length == |image| && |s| == n && base + n <= |image| && n >= CHECKSUM_OFFSET + 4
             && a[..] == Put(image, base, s)
    modifies a
    ensures a[..] == Put(image, base, Sealed(s))
  {
    hide Put, Checksum, LeBytes;
    WriteInSection(a, base, CHECKSUM_OFFSET, Zeros(4), image, s);
    ghost var zeroed := Put(s, CHECKSUM_OFFSET, Zeros(4));
    PutRead(image, base, zeroed);
    var checksum := Checksum32(a[..][base..base + n]);
    WriteInSection(a, base, CHECKSUM_OFFSET, LeBytes(checksum, 4), image, zeroed);
  }
}
