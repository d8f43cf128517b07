/** Two images in which directories are each other's parent: on one the original's verification does not end, on
    the other it accepts the image and then a lookup does not end. */
module VertexFsCycles {
  import opened Buffers
  import opened Bytes
  import opened Results
  import opened Text
  import opened VertexFs
  import opened VertexFsUpdate
  import opened VertexFsPaths
  import opened VertexFsCode

  // ----- The image -----

  /** The first 24 bytes of a section: magic, version, a count and room for the checksum. */
  function HeaderByte(magic: seq<Byte>, low: Byte, high: Byte, i: nat): Byte
    requires |magic| == 16
  {
    if i < 16 then magic[i] else if i == 16 then 1 else if i == 18 then low else if i == 19 then high else 0
  }

  /** The superblock of format 1, with the five sections and the generation "g". */
  function SuperByte(i: nat): Byte {
    match i
    case 24 => 64 case 28 => 0xf case 32 => 0x67
    case 128 => 1 case 136 => 2     // inode table
    case 144 => 3 case 152 => 2     // directory
    case 160 => 5 case 168 => 1     // free map
    case 176 => 6 case 184 => 1     // journal
    case 192 => 7 case 200 => 57    // data
    case _ => HeaderByte(V1.superMagic, 0, 2, i)
  }

  /** Byte `o` of inode `k + 1`: the root "/", the directories "a" and "b" in each other, and the empty file "c"
      in `parent`. */
  function InodeByte(parent: Byte, k: nat, o: nat): Byte {
    match o
    case 0 => if k < 4 then k + 1 else 0
    case 4 => if k < 3 then 1 else if k == 3 then 2 else 0
    case 16 => if k == 3 then 60 else 0
    case 24 => if k == 3 then 1 else 0
    case 32 => if k == 1 then 3 else if k == 2 then 2 else if k == 3 then parent else 0
    case 36 => if k == 0 then SLASH else if k < 4 then 0x60 + k else 0
    case _ => 0
  }

  function TableByte(parent: Byte, i: nat): Byte {
    if i < ENTRY_OFFSET then HeaderByte(V1.inodeMagic, 4, 0, i)
    else InodeByte(parent, (i - ENTRY_OFFSET) / ENTRY_LEN, (i - ENTRY_OFFSET) % ENTRY_LEN)
  }

  /** Byte `o` of the directory entry of inode `k + 2`. */
  function EntryByte(parent: Byte, k: nat, o: nat): Byte {
    match o
    case 0 => if k == 0 then 3 else if k == 1 then 2 else if k == 2 then parent else 0
    case 4 => if k < 3 then k + 2 else 0
    case 8 => if k < 2 then 1 else if k == 2 then 2 else 0
    case 12 => if k < 3 then 0x61 + k else 0
    case _ => 0
  }

  function DirectoryByte(parent: Byte, i: nat): Byte {
    if i < ENTRY_OFFSET then HeaderByte(V1.directoryMagic, 3, 0, i)
    else EntryByte(parent, (i - ENTRY_OFFSET) / ENTRY_LEN, (i - ENTRY_OFFSET) % ENTRY_LEN)
  }

  function FreeByte(i: nat): Byte {
    if i < 32 then HeaderByte(V1.freeMagic, 64, 0, i)
    else if i - 32 <= V1.JournalSector() || i - 32 == 60 then 1 else 0
  }

  function Super(): (s: seq<Byte>)
    ensures |s| == SECTOR_SIZE
  {
    seq(SECTOR_SIZE, i requires 0 <= i < SECTOR_SIZE => SuperByte(i))
  }

  function Table(parent: Byte): (s: seq<Byte>)
    ensures |s| == 2 * SECTOR_SIZE
  {
    seq(2 * SECTOR_SIZE, i requires 0 <= i < 2 * SECTOR_SIZE => TableByte(parent, i))
  }

  function Directory(parent: Byte): (s: seq<Byte>)
    ensures |s| == 2 * SECTOR_SIZE
  {
    seq(2 * SECTOR_SIZE, i requires 0 <= i < 2 * SECTOR_SIZE => DirectoryByte(parent, i))
  }

  function Free(): (s: seq<Byte>)
    ensures |s| == SECTOR_SIZE
  {
    seq(SECTOR_SIZE, i requires 0 <= i < SECTOR_SIZE => FreeByte(i))
  }

  /** The image with file "c" in the directory `parent`. */
  ghost function CycleImage(parent: Byte): Image {
    FormatsOk();
    Sealed(Super()) + Sealed(Table(parent)) + Sealed(Directory(parent)) + Sealed(Free())
    + CleanSector(V1, Zeros(SECTOR_SIZE)) + Zeros(57 * SECTOR_SIZE)
  }

  // ----- Reading it -----

  lemma {:induction false} SmallField(s: seq<Byte>, at: nat, n: nat)
    requires 1 <= n && at + n <= |s| && forall i :: at + 1 <= i < at + n ==> s[i] == 0
    ensures Field(s, at, n) == s[at]
  {
    var t := s[at..at + n];
    ZeroTail(t[1..]);
  }

  lemma {:induction false} ZeroTail(t: seq<Byte>)
    requires forall i :: 0 <= i < |t| ==> t[i] == 0
    ensures LeValue(t) == 0
  {
    if t != [] { ZeroTail(t[1..]); }
  }

  lemma SealedField(s: seq<Byte>, at: nat, n: nat)
    requires |s| >= 24 && at + n <= |s| && (at + n <= 20 || 24 <= at)
    ensures Field(Sealed(s), at, n) == Field(s, at, n)
  {
    SealedElsewhere(s, at, at + n);
  }

  lemma HeaderFits(s: seq<Byte>, magic: seq<Byte>, low: Byte, high: Byte)
    requires |magic| == 16 && |s| >= SECTOR_SIZE
    requires forall i :: 0 <= i < 20 ==> s[i] == HeaderByte(magic, low, high, i)
    ensures HeaderOk(V1, magic, Sealed(s)) && Field(Sealed(s), 18, 2) == low as nat + 256 * high as nat
  {
    SealedIsValid(s);
    SealedElsewhere(s, 0, 16);
    SealedField(s, 16, 2);
    SealedField(s, 18, 2);
    SmallField(s, 16, 2);
    TwoBytes(s, 18);
    hide ChecksumValid, Sealed;
    assert s[0..16] == magic;
    assert Sealed(s)[..16] == Sealed(s)[0..16];
  }

  /** A field that holds one letter. */
  lemma OneLetter(field: seq<Byte>)
    requires |field| >= 2 && 0 < field[0] < 0x80 && field[1] == 0
    ensures FixedString(field) == Some([field[0]])
  {
    var name := [field[0]];
    assert field[1..][0] == 0;
    assert NulPrefix(field) == 1;
    assert field[..1] == name;
    PlainIsUtf8(name);
  }

  /** The sections of the image. */
  lemma Sections(parent: Byte)
    ensures LayoutOk(V1)
    ensures var image := CycleImage(parent);
            && Section(image, 0, 1) == Sealed(Super())
            && Section(image, 1, 2) == Sealed(Table(parent)) && Section(image, 3, 2) == Sealed(Directory(parent))
            && Section(image, 5, 1) == Sealed(Free()) && Section(image, 6, 1) == CleanSector(V1, Zeros(SECTOR_SIZE))
  {
    FormatsOk();
    hide Sealed, CleanSector;
  }

  lemma SuperReads()
    ensures LayoutOk(V1) && SuperblockOk(V1, Sealed(Super()))
  {
    hide Super, HeaderOk, Sealed, Field, FixedString, SuperByte;
    FormatsOk();
    SuperHeader();
    SuperNumbers();
    SuperGeneration();
  }

  lemma SuperHeader()
    ensures HeaderOk(V1, V1.superMagic, Sealed(Super())) && Field(Sealed(Super()), 18, 2) == SECTOR_SIZE
  {
    hide HeaderOk, Sealed, Field;
    HeaderFits(Super(), V1.superMagic, 0, 2);
  }

  lemma SuperNumbers()
    ensures var s := Sealed(Super());
            && Field(s, 24, 4) == 64 && Field(s, 28, 4) == 0xf && Field(s, 128, 8) == 1 && Field(s, 136, 8) == 2
            && Field(s, 144, 8) == 3 && Field(s, 152, 8) == 2 && Field(s, 160, 8) == 5 && Field(s, 168, 8) == 1
            && Field(s, 176, 8) == 6 && Field(s, 184, 8) == 1 && Field(s, 192, 8) == 7 && Field(s, 200, 8) == 57
  {
    hide Super, Sealed, Field;
    SuperField(24, 4);
    SuperField(28, 4);
    SuperRecord(128);
    SuperRecord(144);
    SuperRecord(160);
    SuperRecord(176);
    SuperRecord(192);
  }

  lemma SuperGeneration()
    ensures FixedString(Sealed(Super())[32..96]).Some?
  {
    hide Sealed, FixedString;
    SealedElsewhere(Super(), 32, 96);
    OneLetter(Super()[32..96]);
  }

  lemma SuperRecord(at: nat)
    requires at in {128, 144, 160, 176, 192}
    ensures Field(Sealed(Super()), at, 8) == SuperByte(at) && Field(Sealed(Super()), at + 8, 8) == SuperByte(at + 8)
  {
    hide Sealed, Field;
    SuperField(at, 8);
    SuperField(at + 8, 8);
  }

  lemma SuperField(at: nat, n: nat)
    requires 24 <= at && 1 <= n && at + n <= SECTOR_SIZE && forall i :: at + 1 <= i < at + n ==> SuperByte(i) == 0
    ensures Field(Sealed(Super()), at, n) == SuperByte(at)
  {
    SealedField(Super(), at, n);
    SmallField(Super(), at, n);
  }

  // -- the inode table --

  function InodeBytes(parent: Byte, k: nat): (e: seq<Byte>)
    ensures |e| == ENTRY_LEN
  {
    seq(ENTRY_LEN, i requires 0 <= i < ENTRY_LEN => InodeByte(parent, k, i))
  }

  function EntryBytes(parent: Byte, k: nat): (e: seq<Byte>)
    ensures |e| == ENTRY_LEN
  {
    seq(ENTRY_LEN, i requires 0 <= i < ENTRY_LEN => EntryByte(parent, k, i))
  }

  lemma EntryPlace(k: nat, i: nat)
    requires i < ENTRY_LEN
    ensures (k * ENTRY_LEN + i) / ENTRY_LEN == k && (k * ENTRY_LEN + i) % ENTRY_LEN == i
  {}

  /** Sealing does not touch the entries. */
  lemma TableEntry(parent: Byte, k: nat)
    requires k < 4
    ensures Entry(Sealed(Table(parent)), k) == InodeBytes(parent, k)
  {
    hide Sealed, InodeByte;
    var s, at := Table(parent), ENTRY_OFFSET + k * ENTRY_LEN;
    SealedElsewhere(s, at, at + ENTRY_LEN);
    forall i | 0 <= i < ENTRY_LEN
      ensures s[at..at + ENTRY_LEN][i] == InodeByte(parent, k, i)
    {
      EntryPlace(k, i);
      assert s[at + i] == TableByte(parent, at + i);
    }
  }

  lemma DirectoryEntryBytes(parent: Byte, k: nat)
    requires k < 3
    ensures Entry(Sealed(Directory(parent)), k) == EntryBytes(parent, k)
  {
    hide Sealed, EntryByte;
    var s, at := Directory(parent), ENTRY_OFFSET + k * ENTRY_LEN;
    SealedElsewhere(s, at, at + ENTRY_LEN);
    forall i | 0 <= i < ENTRY_LEN
      ensures s[at..at + ENTRY_LEN][i] == EntryByte(parent, k, i)
    {
      EntryPlace(k, i);
      assert s[at + i] == DirectoryByte(parent, at + i);
    }
  }

  /** Directories 2 and 3 are each other's parent, and file 4 lies in `parent`. */
  function CycleInode(parent: nat, k: nat): Inode
    requires k < 4
  {
    if k == 0 then Inode(1, KIND_DIR, 0, 0, 0, 0, 0, [SLASH])
    else if k == 1 then Inode(2, KIND_DIR, 0, 0, 0, 0, 3, [0x61])
    else if k == 2 then Inode(3, KIND_DIR, 0, 0, 0, 0, 2, [0x62])
    else Inode(4, KIND_FILE, 0, 60, 1, 0, parent, [0x63])
  }

  lemma InodeReads(parent: Byte, k: nat)
    requires k < 4
    ensures DecodeInode(Entry(Sealed(Table(parent)), k)) == Some(CycleInode(parent, k))
  {
    hide Sealed, Field, Entry, Table;
    TableEntry(parent, k);
    var e := InodeBytes(parent, k);
    SmallField(e, 0, 4);
    SmallField(e, 4, 2);
    SmallField(e, 8, 8);
    SmallField(e, 16, 8);
    SmallField(e, 24, 4);
    SmallField(e, 28, 4);
    SmallField(e, 32, 4);
    OneLetter(e[36..64]);
  }

  function Cycle(parent: nat): Inodes {
    map[1 := CycleInode(parent, 0), 2 := CycleInode(parent, 1), 3 := CycleInode(parent, 2), 4 := CycleInode(parent, 3)]
  }

  lemma TableReads(parent: Byte)
    ensures LayoutOk(V1) && ParseInodeTable(V1, Sealed(Table(parent))) == Some(Cycle(parent))
  {
    hide HeaderOk, Sealed, Field, InodesTo, Cycle;
    FormatsOk();
    HeaderFits(Table(parent), V1.inodeMagic, 4, 0);
    InodesRead(parent);
    RootReads(parent);
  }

  lemma RootReads(parent: nat)
    ensures RootOk(Cycle(parent))
  {}

  lemma InodesRead(parent: Byte)
    ensures InodesTo(Sealed(Table(parent)), 4) == Some(Cycle(parent))
  {
    hide Sealed, DecodeInode, Entry, Table;
    InodeReads(parent, 0);
    InodeReads(parent, 1);
    InodeReads(parent, 2);
    InodeReads(parent, 3);
    var t := Sealed(Table(parent));
    assert InodesTo(t, 0) == Some(map[]);
    assert InodesTo(t, 1) == Some(map[1 := CycleInode(parent, 0)]);
    assert InodesTo(t, 2) == Some(map[1 := CycleInode(parent, 0), 2 := CycleInode(parent, 1)]);
    assert InodesTo(t, 3)
        == Some(map[1 := CycleInode(parent, 0), 2 := CycleInode(parent, 1), 3 := CycleInode(parent, 2)]);
  }

  // -- the directory --

  function CycleEntry(parent: nat, k: nat): DirectoryEntry
    requires k < 3
  {
    if k == 0 then DirectoryEntry(3, 2, KIND_DIR, [0x61])
    else if k == 1 then DirectoryEntry(2, 3, KIND_DIR, [0x62])
    else DirectoryEntry(parent, 4, KIND_FILE, [0x63])
  }

  lemma EntryReads(parent: Byte, k: nat)
    requires k < 3
    ensures DecodeDirectoryEntry(Entry(Sealed(Directory(parent)), k)) == Some(CycleEntry(parent, k))
  {
    hide Sealed, Field, Entry, Directory;
    DirectoryEntryBytes(parent, k);
    var e := EntryBytes(parent, k);
    SmallField(e, 0, 4);
    SmallField(e, 4, 4);
    SmallField(e, 8, 2);
    OneLetter(e[12..64]);
  }

  function CycleDirectory(parent: nat): seq<DirectoryEntry> {
    [CycleEntry(parent, 0), CycleEntry(parent, 1), CycleEntry(parent, 2)]
  }

  lemma DirectoryReads(parent: Byte)
    ensures LayoutOk(V1) && ParseDirectory(V1, Sealed(Directory(parent))) == Some(CycleDirectory(parent))
  {
    FormatsOk();
    var s := Directory(parent);
    HeaderFits(s, V1.directoryMagic, 3, 0);
    EntryReads(parent, 0);
    EntryReads(parent, 1);
    EntryReads(parent, 2);
    hide HeaderOk, Sealed, DecodeDirectoryEntry, Entry, Field, Directory, CycleEntry;
    var t, a, b, c := Sealed(s), CycleEntry(parent, 0), CycleEntry(parent, 1), CycleEntry(parent, 2);
    assert DirectoryTo(t, 0) == Some([]);
    assert [] + [a] == [a] && [a] + [b] == [a, b] && [a, b] + [c] == [a, b, c];
    assert DirectoryTo(t, 1) == Some([a]);
    assert DirectoryTo(t, 2) == Some([a, b]);
    assert DirectoryTo(t, 3) == Some([a, b, c]);
  }

  lemma FreeReads()
    ensures LayoutOk(V1) && FreeMapOk(V1, Sealed(Free())) && MapByte(Sealed(Free()), 60) == 1
  {
    FormatsOk();
    var s := Free();
    HeaderFits(s, V1.freeMagic, 64, 0);
    SealedElsewhere(s, 32, SECTOR_SIZE);
    hide HeaderOk, Sealed, Field;
    forall i | 0 <= i < SECTORS
      ensures MapByte(Sealed(s), i) == s[32 + i]
    {
      assert Sealed(s)[32..SECTOR_SIZE][i] == s[32..SECTOR_SIZE][i];
    }
  }

  // ----- What becomes of it -----

  lemma CycleGraph(parent: nat)
    requires parent == 1 || parent == 2
    ensures RootOk(Cycle(parent)) && GraphOk(Cycle(parent), CycleDirectory(parent))
  {
    var directory := CycleDirectory(parent);
    assert directory[0].child == 2 && directory[1].child == 3 && directory[2].child == 4;
  }

  lemma CycleFile(parent: Byte)
    ensures FileOk(V1, CycleImage(parent), Sealed(Free()), CycleInode(parent, 3), Clean)
  {
    hide CycleImage, Sealed, Section, Free, FreeMapOk, Checksum;
    FreeReads();
    var image, file := CycleImage(parent), CycleInode(parent, 3);
    assert Data(image, file) == [];
    NoBytes();
  }

  lemma NoBytes()
    ensures Checksum([]) == 0
  {}

  lemma CycleContents(parent: Byte)
    ensures ContentsOk(V1, CycleImage(parent), Cycle(parent), Sealed(Free()), Clean)
  {
    hide CycleImage, Sealed, FileOk, Disjoint, Free;
    CycleFile(parent);
  }

  lemma {:induction false} RoundAndRound(parent: nat, id: nat, n: nat)
    requires id == 2 || id == 3 || (id == 4 && parent == 2)
    ensures Reached(Cycle(parent), id, n).Some?
    decreases n
  {
    if n > 0 { RoundAndRound(parent, Cycle(parent)[id].parent, n - 1); }
  }

  lemma NoEnd(parent: nat, id: nat)
    requires id == 2 || id == 3 || (id == 4 && parent == 2)
    ensures !WalkEnds(Cycle(parent), id)
  {
    forall n: nat
      ensures Reached(Cycle(parent), id, n).Some?
    {
      RoundAndRound(parent, id, n);
    }
  }

  /** What `verify` reads from the image. */
  lemma CycleParses(parent: Byte)
    ensures LayoutOk(V1)
    ensures var image := CycleImage(parent);
            && SuperblockOk(V1, Section(image, 0, 1))
            && ParseInodeTable(V1, InodeSection(V1, image)) == Some(Cycle(parent))
            && ParseDirectory(V1, Section(image, V1.DirectorySector(), V1.directorySectors))
               == Some(CycleDirectory(parent))
            && ParseJournal(V1, JournalSection(V1, image)) == Clean
            && Section(image, V1.FreeMapSector(), 1) == Sealed(Free()) && FreeMapOk(V1, Sealed(Free()))
  {
    hide CycleImage, Sealed, Section, CleanSector, SuperblockOk, ParseInodeTable, ParseDirectory, ParseJournal,
         FreeMapOk, LayoutOk;
    Sections(parent);
    SuperReads();
    TableReads(parent);
    DirectoryReads(parent);
    FreeReads();
    CleanParses(V1, Zeros(SECTOR_SIZE));
  }

  /** With the file inside the cycle everything but its path is in order, and the walk to the path never ends. */
  lemma CycleNeverEnds()
    ensures LayoutOk(V1)
    ensures var image, inodes := CycleImage(2), Cycle(2);
            && SuperblockOk(V1, Section(image, 0, 1)) && ParseInodeTable(V1, InodeSection(V1, image)) == Some(inodes)
            && ParseDirectory(V1, Section(image, V1.DirectorySector(), V1.directorySectors)) == Some(CycleDirectory(2))
            && ParseJournal(V1, JournalSection(V1, image)) == Clean
            && FreeMapOk(V1, Section(image, V1.FreeMapSector(), 1))
            && GraphOk(inodes, CycleDirectory(2))
            && ContentsOk(V1, image, inodes, Section(image, V1.FreeMapSector(), 1), Clean)
            && inodes[4].kind == KIND_FILE && !WalkEnds(inodes, 4)
  {
    hide CycleImage, Sealed, Section, SuperblockOk, ParseInodeTable, ParseDirectory, ParseJournal, FreeMapOk, LayoutOk,
         ContentsOk, GraphOk, WalkEnds;
    CycleParses(2);
    CycleGraph(2);
    CycleContents(2);
    NoEnd(2, 4);
  }

  // -- a verified image whose lookup does not end --

  lemma FileInRoot()
    ensures WalkEnds(Cycle(1), 4) && InodePath(Cycle(1), 4, |Cycle(1)|) == Some([SLASH, 0x63])
  {
    var inodes := Cycle(1);
    assert inodes.Keys == {1, 2, 3, 4};
    assert Reached(inodes, 1, 1) == None;
    assert Reached(inodes, 4, 2) == None;
    assert InodePath(inodes, 1, 3) == Some([SLASH]);
    assert [SLASH] + [0x63] == [SLASH, 0x63];
  }

  lemma CycleVerifies()
    ensures LayoutOk(V1) && Verify(V1, CycleImage(1)).Ok?
  {
    hide CycleImage, Sealed, Section, SuperblockOk, ParseInodeTable, ParseDirectory, ParseJournal, FreeMapOk, LayoutOk,
         ContentsOk, GraphOk, WalkEnds, InodesOk, Reports, InodePath, FixedString;
    CycleParses(1);
    CycleGraph(1);
    CycleContents(1);
    FileInRoot();
    PathsDecided(V1, CycleImage(1), Cycle(1), CycleDirectory(1), Sealed(Free()), Clean);
  }

  /** With the file in the root the image verifies and inode 4 has the path "/c", but the original's lookup of
      that path does not end: it walks from directory 2 first. */
  lemma LookupNeverEnds()
    ensures LayoutOk(V1) && Verify(V1, CycleImage(1)).Ok?
    ensures ParseInodeTable(V1, InodeSection(V1, CycleImage(1))) == Some(Cycle(1))
    ensures IsFirst(Cycle(1), [SLASH, 0x63], 4) && !SearchEnds(Cycle(1), [SLASH, 0x63])
  {
    hide CycleImage, Section, ParseInodeTable, Verify, LayoutOk, WalkEnds, SearchEnds, InodePath, Reached;
    CycleVerifies();
    CycleParses(1);
    FileInRoot();
    OnlyFile();
    NoEnd(1, 2);
    VerifiedLookup(V1, CycleImage(1), [SLASH, 0x63]);
    assert Tried(Cycle(1), [SLASH, 0x63], 2);
  }

  lemma OnlyFile()
    ensures forall j :: HasPath(Cycle(1), [SLASH, 0x63], j) ==> j == 4
  {
    var inodes := Cycle(1);
    assert inodes.Keys == {1, 2, 3, 4};
    forall j | j in inodes && InodePath(inodes, j, |inodes|) == Some([SLASH, 0x63])
      ensures j == 4
    {
      if j == 2 || j == 3 {
        RoundAndRound(1, j, |inodes|);
        CycleGraph(1);
        GraphHasParents(inodes, CycleDirectory(1));
        EndsWithPath(inodes, j, |inodes|);
      }
    }
  }

  lemma LookupDecidesUpdate(payload: seq<Byte>)
    ensures LayoutOk(V1) && !CanUpdate(V1, CycleImage(1), [SLASH, 0x63], payload)
    ensures forall error :: Refused(V1, CycleImage(1), [SLASH, 0x63], payload, error) ==> error == EndlessLookup
  {
    hide CycleImage, Section, ParseInodeTable, ParseJournal, Verify, LayoutOk, SearchEnds, LookupEnds, Misfit, IsFirst,
         HasPath, WalkEnds, Tried, Cycle;
    LookupNeverEnds();
    CycleParses(1);
    VerifiedLookup(V1, CycleImage(1), [SLASH, 0x63]);
  }

  /** The update of that file is refused because its lookup has no end. */
  method UpdateNeverEnds(payload: seq<Byte>) returns (r: Result<Image, UpdateError>)
    ensures r == Err(EndlessLookup)
  {
    hide CycleImage, Section, ParseInodeTable, Verify, LayoutOk, CanUpdate, Refused, Stage, Updates, UpdateOk, Updated,
         IsFirst;
    LookupDecidesUpdate(payload);
    var image := CycleBytes(1);
    ghost var u;
    r, u := UpdateImage(V1, image, [SLASH, 0x63], payload);
  }

  method CycleBytes(parent: Byte) returns (image: Image)
    ensures image == CycleImage(parent)
  {
    FormatsOk();
    image := Sealed(Super()) + Sealed(Table(parent)) + Sealed(Directory(parent)) + Sealed(Free())
    + CleanSector(V1, Zeros(SECTOR_SIZE)) + Zeros(57 * SECTOR_SIZE);
  }
}
