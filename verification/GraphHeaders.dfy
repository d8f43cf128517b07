/** The graph store's header sector. */
module GraphHeaders {
  import opened Buffers
  import opened BufferCode
  import opened Bytes
  import opened Results
  import opened Text
  import opened Wire
  import opened BootRecords
  import opened GraphRecords

  const GRAPH_STORE_MAGIC: seq<Byte> :=
    [0x56, 0x44, 0x49, 0x53, 0x4b, 0x47, 0x52, 0x41, 0x50, 0x48, 0x56, 0x30, 0, 0, 0, 0]
  const VERSION: nat := 3
  const FORMAT_VERSION: nat := 1
  const SECTOR_SIZE: nat := 512

  datatype WriteHeaderError = BufferTooShort | CountTooLarge | ByteLenTooLarge | FixedStringTooLong

  datatype Fields = Fields(generation: Str, nodes: nat, edges: nat, dataSector: nat, byteLen: nat, recordChecksum: nat,
                           hash: Str)

  // ----- Ordered writes -----

  /** A write: where, and what. */
  type Patch = (nat, seq<Byte>)

  /** Writes in order of their offsets, none overlapping, all inside `size` bytes. */
  ghost predicate Ordered(ws: seq<Patch>, size: nat) {
    && (forall i :: 0 <= i < |ws| ==> ws[i].0 + |ws[i].1| <= size)
    && (forall i, j :: 0 <= i < j < |ws| ==> ws[i].0 + |ws[i].1| <= ws[j].0)
  }

  ghost function Patched(s: seq<Byte>, ws: seq<Patch>): (r: seq<Byte>)
    requires Ordered(ws, |s|)
    ensures |r| == |s|
  {
    if ws == [] then s else Put(Patched(s, ws[..|ws| - 1]), ws[|ws| - 1].0, ws[|ws| - 1].1)
  }

  /** What an ordered write wrote stays written. */
  lemma {:induction false} PatchStays(s: seq<Byte>, ws: seq<Patch>, i: nat)
    requires Ordered(ws, |s|) && i < |ws|
    ensures Part(Patched(s, ws), ws[i].0, ws[i].1)
    decreases |ws|
  {
    var n := |ws| - 1;
    hide Put;
    if i < n {
      PatchStays(s, ws[..n], i);
      PutElsewhere(Patched(s, ws[..n]), ws[n].0, ws[n].1, ws[i].0, ws[i].0 + |ws[i].1|);
    } else {
      PutHere(Patched(s, ws[..n]), ws[n].0, ws[n].1);
    }
  }

  lemma PatchStep(s: seq<Byte>, ws: seq<Patch>, k: nat)
    requires Ordered(ws, |s|) && k < |ws|
    ensures Patched(s, ws[..k + 1]) == Put(Patched(s, ws[..k]), ws[k].0, ws[k].1)
  {
    assert ws[..k + 1][..k] == ws[..k];
  }

  // ----- Writing the header -----

  /** The fields have the widths of the source's integers. */
  predicate FieldsFit(f: Fields) {
    && f.nodes < U16_LIMIT && f.edges < U16_LIMIT && f.dataSector < U64_LIMIT && f.byteLen < U32_LIMIT
    && f.recordChecksum < U32_LIMIT && |f.generation| <= STRING_LEN && |f.hash| <= STRING_LEN
  }

  ghost function HeaderWrites(f: Fields): (ws: seq<Patch>)
    requires FieldsFit(f)
    ensures |ws| == 10 && Ordered(ws, SECTOR_SIZE)
  {
    [(0, GRAPH_STORE_MAGIC), (16, LeBytes(VERSION, 2)), (18, LeBytes(FORMAT_VERSION, 2)), (32, Slot(f.generation)),
     (96, LeBytes(f.nodes, 2)), (98, LeBytes(f.edges, 2)), (100, LeBytes(f.dataSector, 8)),
     (108, LeBytes(f.byteLen, 4)), (112, LeBytes(f.recordChecksum, 4)), (116, Slot(f.hash))]
  }

  ghost function HeaderBytes(f: Fields): (s: seq<Byte>)
    requires FieldsFit(f)
    ensures |s| == SECTOR_SIZE
  {
    Sealed(Patched(Zeros(SECTOR_SIZE), HeaderWrites(f)))
  }

  /** Everything written outside the checksum is still there once the sector is sealed. */
  lemma HeaderPart(f: Fields, i: nat)
    requires FieldsFit(f) && i < 10
    ensures Part(HeaderBytes(f), HeaderWrites(f)[i].0, HeaderWrites(f)[i].1)
  {
    var s, ws := Patched(Zeros(SECTOR_SIZE), HeaderWrites(f)), HeaderWrites(f);
    assert ws[i].0 + |ws[i].1| <= CHECKSUM_OFFSET || CHECKSUM_OFFSET + 4 <= ws[i].0;
    hide Sealed, Patched, HeaderWrites;
    PatchStays(Zeros(SECTOR_SIZE), ws, i);
    SealedElsewhere(s, ws[i].0, ws[i].0 + |ws[i].1|);
  }

  /** A fixed-size write in the sector. */
  method Write(sector: array<Byte>, offset: nat, b: seq<Byte>, ghost image: seq<Byte>, ghost ws: seq<Patch>,
               ghost k: nat)
    requires sector.Length == |image| >= SECTOR_SIZE && Ordered(ws, SECTOR_SIZE) && k < |ws| && ws[k] == (offset, b)
    requires sector[..] == Put(image, 0, Patched(Zeros(SECTOR_SIZE), ws[..k]))
    modifies sector
    ensures sector[..] == Put(image, 0, Patched(Zeros(SECTOR_SIZE), ws[..k + 1]))
  {
    hide Put, Patched;
    WriteInSection(sector, 0, offset, b, image, Patched(Zeros(SECTOR_SIZE), ws[..k]));
    PatchStep(Zeros(SECTOR_SIZE), ws, k);
  }

  /** The fields that survive the length checks, for the part of the sector written so far. */
  function Shortened(f: Fields): Fields {
    f.(generation := if |f.generation| <= STRING_LEN then f.generation
    else [], hash := if |f.hash| <= STRING_LEN then f.hash else [])
  }

  function Outcome(size: nat, f: Fields): Result<(), WriteHeaderError> {
    if size < SECTOR_SIZE then Err(BufferTooShort)
    else if f.nodes >= U16_LIMIT || f.edges >= U16_LIMIT then Err(CountTooLarge)
    else if f.byteLen >= U32_LIMIT then Err(ByteLenTooLarge)
    else if |f.generation| > STRING_LEN || |f.hash| > STRING_LEN then Err(FixedStringTooLong)
    else Ok(())
  }

  method WriteGraphStoreHeader(sector: array<Byte>, f: Fields) returns (r: Result<(), WriteHeaderError>)
    requires f.dataSector < U64_LIMIT && f.recordChecksum < U32_LIMIT
    modifies sector
    ensures r == Outcome(sector.Length, f)
    ensures r.Ok? ==> FieldsFit(f) && sector[..] == Put(old(sector[..]), 0, HeaderBytes(f))
    ensures r.Err? && r.error != FixedStringTooLong ==> sector[..] == old(sector[..])
    ensures sector.Length >= SECTOR_SIZE ==> sector[..][SECTOR_SIZE..] == old(sector[..])[SECTOR_SIZE..]
  {
    hide Put, Patched, Sealed, LeBytes, Slot, HeaderWrites;
    if sector.Length < SECTOR_SIZE {
      return Err(BufferTooShort);
    }
    if f.nodes >= U16_LIMIT || f.edges >= U16_LIMIT {
      return Err(CountTooLarge);
    }
    if f.byteLen >= U32_LIMIT {
      return Err(ByteLenTooLarge);
    }
    ghost var image := sector[..];
    ghost var ws := HeaderWrites(Shortened(f));
    WritesAre(Shortened(f));
    WriteBytes(sector, 0, Zeros(SECTOR_SIZE));
    assert Patched(Zeros(SECTOR_SIZE), ws[..0]) == Zeros(SECTOR_SIZE) by { NothingPatched(ws); }
    Write(sector, 0, GRAPH_STORE_MAGIC, image, ws, 0);
    Write(sector, 16, LeBytes(VERSION, 2), image, ws, 1);
    Write(sector, 18, LeBytes(FORMAT_VERSION, 2), image, ws, 2);
    if |f.generation| > STRING_LEN {
      PutBehind(image, Patched(Zeros(SECTOR_SIZE), ws[..3]));
      return Err(FixedStringTooLong);
    }
    Write(sector, 32, Slot(f.generation), image, ws, 3);
    Write(sector, 96, LeBytes(f.nodes, 2), image, ws, 4);
    Write(sector, 98, LeBytes(f.edges, 2), image, ws, 5);
    Write(sector, 100, LeBytes(f.dataSector, 8), image, ws, 6);
    Write(sector, 108, LeBytes(f.byteLen, 4), image, ws, 7);
    Write(sector, 112, LeBytes(f.recordChecksum, 4), image, ws, 8);
    if |f.hash| > STRING_LEN {
      PutBehind(image, Patched(Zeros(SECTOR_SIZE), ws[..9]));
      return Err(FixedStringTooLong);
    }
    Write(sector, 116, Slot(f.hash), image, ws, 9);
    assert ws[..10] == ws;
    WriteChecksum(sector, 0, SECTOR_SIZE, image, Patched(Zeros(SECTOR_SIZE), ws));
    PutBehind(image, HeaderBytes(f));
    return Ok(());
  }

  lemma WritesAre(f: Fields)
    requires FieldsFit(f)
    ensures var ws := HeaderWrites(f);
            && ws[0] == (0, GRAPH_STORE_MAGIC) && ws[1] == (16, LeBytes(VERSION, 2))
            && ws[2] == (18, LeBytes(FORMAT_VERSION, 2))
            && ws[3] == (32, Slot(f.generation)) && ws[4] == (96, LeBytes(f.nodes, 2))
            && ws[5] == (98, LeBytes(f.edges, 2))
            && ws[6] == (100, LeBytes(f.dataSector, 8)) && ws[7] == (108, LeBytes(f.byteLen, 4))
            && ws[8] == (112, LeBytes(f.recordChecksum, 4)) && ws[9] == (116, Slot(f.hash))
  {}

  lemma NothingPatched(ws: seq<Patch>)
    requires Ordered(ws, SECTOR_SIZE)
    ensures Patched(Zeros(SECTOR_SIZE), ws[..0]) == Zeros(SECTOR_SIZE)
  {}

  lemma PutBehind(image: seq<Byte>, s: seq<Byte>)
    requires |s| == SECTOR_SIZE <= |image|
    ensures Put(image, 0, s)[SECTOR_SIZE..] == image[SECTOR_SIZE..]
  {}

  // ----- Reading the header -----

  method MetadataChecksumValid(bytes: seq<Byte>) returns (valid: bool)
    ensures valid <==> |bytes| >= CHECKSUM_OFFSET + 4 && ChecksumValid(bytes)
  {
    if |bytes| < CHECKSUM_OFFSET + 4 {
      return false;
    }
    ghost var zeroed := Put(bytes, CHECKSUM_OFFSET, Zeros(4));
    var checksum, index := 0, 0;
    while index < |bytes|
      invariant index <= |bytes| && checksum == Checksum(zeroed[..index])
    {
      var value := if CHECKSUM_OFFSET <= index < CHECKSUM_OFFSET + 4 then 0 else bytes[index];
      assert value == zeroed[index];
      SumStep(zeroed, index);
      hide Checksum;
      checksum := (checksum + value * (index + 1)) % U32_LIMIT;
      index := index + 1;
    }
    assert zeroed[..index] == zeroed;
    return checksum == Field(bytes, CHECKSUM_OFFSET, 4);
  }

  ghost predicate Accepts(bytes: seq<Byte>) {
    && |bytes| >= SECTOR_SIZE && bytes[..16] == GRAPH_STORE_MAGIC && Field(bytes, 16, 2) == VERSION
    && ChecksumValid(bytes[..SECTOR_SIZE])
  }

  /** The header a reader is given: the first sector. */
  method NewHeader(bytes: seq<Byte>) returns (r: Option<seq<Byte>>)
    ensures r.Some? <==> Accepts(bytes)
    ensures r.Some? ==> r.value == bytes[..SECTOR_SIZE]
  {
    hide ChecksumValid;
    if |bytes| < SECTOR_SIZE {
      return None;
    }
    var sector := bytes[..SECTOR_SIZE];
    assert sector[..16] == bytes[..16] && sector[16..18] == bytes[16..18];
    if sector[..16] != GRAPH_STORE_MAGIC || Field(sector, 16, 2) != VERSION {
      return None;
    }
    var valid := MetadataChecksumValid(sector);
    return if valid then Some(sector) else None;
  }

  /** What a reader takes from a header sector. */
  function Generation(s: seq<Byte>): Option<Str> requires |s| == SECTOR_SIZE { Strict(s[32..96], false) }
  function NodeCount(s: seq<Byte>): nat requires |s| == SECTOR_SIZE { Field(s, 96, 2) }
  function EdgeCount(s: seq<Byte>): nat requires |s| == SECTOR_SIZE { Field(s, 98, 2) }
  function DataSector(s: seq<Byte>): nat requires |s| == SECTOR_SIZE { Field(s, 100, 8) }
  function ByteLen(s: seq<Byte>): nat requires |s| == SECTOR_SIZE { Field(s, 108, 4) }
  function RecordChecksum(s: seq<Byte>): nat requires |s| == SECTOR_SIZE { Field(s, 112, 4) }
  function Digest(s: seq<Byte>): Option<Str> requires |s| == SECTOR_SIZE { Strict(s[116..180], false) }

  lemma HeaderNumber(f: Fields, i: nat, v: nat, n: nat)
    requires FieldsFit(f) && i < 10 && v < Pow256(n) && HeaderWrites(f)[i].1 == LeBytes(v, n)
    ensures Holds(HeaderBytes(f), HeaderWrites(f)[i].0, n, v)
  {
    hide HeaderBytes, HeaderWrites;
    HeaderPart(f, i);
    LeRoundTrip(v, n);
  }

  /** A written header is accepted and reads back to its numbers. */
  lemma HeaderRoundTrip(f: Fields)
    requires FieldsFit(f)
    ensures var s := HeaderBytes(f);
            && Accepts(s) && NodeCount(s) == f.nodes && EdgeCount(s) == f.edges && DataSector(s) == f.dataSector
            && ByteLen(s) == f.byteLen && RecordChecksum(s) == f.recordChecksum
  {
    assert Pow256(2) == U16_LIMIT && Pow256(4) == U32_LIMIT && Pow256(8) == U64_LIMIT;
    WritesAre(f);
    HeaderPart(f, 0);
    var s := HeaderBytes(f);
    SealedIsValid(Patched(Zeros(SECTOR_SIZE), HeaderWrites(f)));
    assert s[..SECTOR_SIZE] == s;
    hide HeaderWrites, LeBytes, Pow256, Field, ChecksumValid, Sealed, Patched;
    HeaderNumber(f, 1, VERSION, 2);
    HeaderNumber(f, 4, f.nodes, 2);
    HeaderNumber(f, 5, f.edges, 2);
    HeaderNumber(f, 6, f.dataSector, 8);
    HeaderNumber(f, 7, f.byteLen, 4);
    HeaderNumber(f, 8, f.recordChecksum, 4);
  }

  /** Its strings read back exactly when they are not empty and have no NUL. */
  lemma HeaderStrings(f: Fields)
    requires FieldsFit(f) && ValidUtf8(f.generation) && ValidUtf8(f.hash)
    ensures Generation(HeaderBytes(f)) == Some(f.generation) <==> NoNul(f.generation) && f.generation != []
    ensures Digest(HeaderBytes(f)) == Some(f.hash) <==> NoNul(f.hash) && f.hash != []
  {
    WritesAre(f);
    hide HeaderBytes, HeaderWrites, Strict, Slot, LeBytes, ValidUtf8;
    HeaderPart(f, 3);
    HeaderPart(f, 9);
    SlotReads(f.generation, false);
    SlotReads(f.hash, false);
  }

  /** No byte of the header sector can change without the header being refused. */
  lemma HeaderOneByte(a: seq<Byte>, b: seq<Byte>, d: nat)
    requires DifferAt(a, b, d) && d < SECTOR_SIZE
    ensures !(Accepts(a) && Accepts(b))
  {
    if Accepts(a) && Accepts(b) {
      assert DifferAt(a[..SECTOR_SIZE], b[..SECTOR_SIZE], d);
      hide ChecksumValid, Field;
      OneByteDetected(a[..SECTOR_SIZE], b[..SECTOR_SIZE], d);
    }
  }
}
