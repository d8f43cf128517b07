/** VertexFS disk images: the checks `verify` makes, the four writes of a journaled file update, and what
    `verify` says of the image between any two of them. */
module VertexFs {
  import opened Buffers
  import opened Bytes
  import opened Results
  import opened Text

  const SECTOR_SIZE: nat := 512
  const SECTORS: nat := 64
  const IMAGE_BYTES: nat := SECTOR_SIZE * SECTORS
  const INODE_TABLE_SECTOR: nat := 1
  const ENTRY_OFFSET: nat := 32
  const ENTRY_LEN: nat := 64
  const SECTION_RECORD_LEN: nat := 16
  const INODE_ROOT: nat := 1
  const KIND_DIR: nat := 1
  const KIND_FILE: nat := 2
  const JOURNAL_STATE_CLEAN: nat := 0
  const JOURNAL_STATE_PENDING: nat := 1
  const JOURNAL_PAYLOAD_OFFSET: nat := 64
  const MAX_JOURNAL_FILE_BYTES: nat := SECTOR_SIZE - JOURNAL_PAYLOAD_OFFSET
  const SLASH: Byte := 0x2f

  type Image = s: seq<Byte> | |s| == IMAGE_BYTES witness seq(IMAGE_BYTES, _ => 0)

  // ----- The two formats -----

  /** Where the sections of a format lie and how they are marked. */
  datatype Layout = Layout(version: nat, superMagic: seq<Byte>, inodeMagic: seq<Byte>, directoryMagic: seq<Byte>,
                           freeMagic: seq<Byte>, journalMagic: seq<Byte>, featureFlags: nat,
                           sectionTable: nat, generationOffset: nat, namesVolume: bool,
                           inodeSectors: nat, directorySectors: nat, inodeLimit: nat, directoryLimit: nat,
                           replayRecord: bool)
  {
    function DirectorySector(): nat { INODE_TABLE_SECTOR + inodeSectors }
    function FreeMapSector(): nat { DirectorySector() + directorySectors }
    function JournalSector(): nat { FreeMapSector() + 1 }
    function DataSector(): nat { JournalSector() + 1 }
  }

  const V1: Layout := Layout(1,
                             [0x56, 0x45, 0x52, 0x54, 0x45, 0x58, 0x46, 0x53, 0x56, 0x31, 0, 0, 0, 0, 0, 0],
                             [0x56, 0x46, 0x53, 0x49, 0x4e, 0x4f, 0x44, 0x45, 0x56, 0x31, 0, 0, 0, 0, 0, 0],
                             [0x56, 0x46, 0x53, 0x44, 0x49, 0x52, 0x56, 0x31, 0, 0, 0, 0, 0, 0, 0, 0],
                             [0x56, 0x46, 0x53, 0x46, 0x52, 0x45, 0x45, 0x56, 0x31, 0, 0, 0, 0, 0, 0, 0],
                             [0x56, 0x46, 0x53, 0x4a, 0x4f, 0x55, 0x52, 0x4e, 0x41, 0x4c, 0x56, 0x31, 0, 0, 0, 0],
                             0xf, 128, 32, false, 2, 2, 15, 15, false)

  const V2: Layout := Layout(2,
                             [0x56, 0x45, 0x52, 0x54, 0x45, 0x58, 0x46, 0x53, 0x56, 0x32, 0, 0, 0, 0, 0, 0],
                             [0x56, 0x46, 0x53, 0x49, 0x4e, 0x4f, 0x44, 0x45, 0x56, 0x32, 0, 0, 0, 0, 0, 0],
                             [0x56, 0x46, 0x53, 0x44, 0x49, 0x52, 0x56, 0x32, 0, 0, 0, 0, 0, 0, 0, 0],
                             [0x56, 0x46, 0x53, 0x46, 0x52, 0x45, 0x45, 0x56, 0x32, 0, 0, 0, 0, 0, 0, 0],
                             [0x56, 0x46, 0x53, 0x4a, 0x4f, 0x55, 0x52, 0x4e, 0x41, 0x4c, 0x56, 0x32, 0, 0, 0, 0],
                             0x1f, 192, 96, true, 8, 8, 47, 46, true)

  ghost predicate LayoutOk(l: Layout) {
    && l.version < 0x1_0000
    && |l.superMagic| == 16 && |l.inodeMagic| == 16 && |l.directoryMagic| == 16 && |l.freeMagic| == 16
    && |l.journalMagic| == 16
    && l.sectionTable + 5 * SECTION_RECORD_LEN <= SECTOR_SIZE && l.generationOffset + 64 <= SECTOR_SIZE
    && 0 < l.inodeSectors && 0 < l.directorySectors && l.DataSector() <= SECTORS
    && ENTRY_OFFSET + l.inodeLimit * ENTRY_LEN <= l.inodeSectors * SECTOR_SIZE
    && ENTRY_OFFSET + l.directoryLimit * ENTRY_LEN <= l.directorySectors * SECTOR_SIZE
  }

  lemma FormatsOk()
    ensures LayoutOk(V1) && LayoutOk(V2)
  {}

  // ----- Sections -----

  datatype Inode = Inode(id: nat, kind: nat, size: nat, firstSector: nat, sectorCount: nat, checksum: nat, parent: nat,
                         name: seq<Byte>)

  datatype DirectoryEntry = DirectoryEntry(parent: nat, child: nat, kind: nat, name: seq<Byte>)

  datatype Journal = Corrupt | Clean | Pending(target: nat, payload: seq<Byte>)

  type Inodes = map<nat, Inode>

  function Section(image: Image, first: nat, count: nat): (s: seq<Byte>)
    requires first + count <= SECTORS
    ensures |s| == count * SECTOR_SIZE
  {
    image[first * SECTOR_SIZE..(first + count) * SECTOR_SIZE]
  }

  ghost predicate HeaderOk(l: Layout, magic: seq<Byte>, s: seq<Byte>)
    requires |s| >= SECTOR_SIZE
  {
    s[..16] == magic && Field(s, 16, 2) == l.version && ChecksumValid(s)
  }

  predicate SectionIs(s: seq<Byte>, table: nat, index: nat, first: nat, count: nat)
    requires table + index * SECTION_RECORD_LEN + SECTION_RECORD_LEN <= |s|
  {
    var at := table + index * SECTION_RECORD_LEN;
    Field(s, at, 8) == first && Field(s, at + 8, 8) == count
  }

  /** The superblock describes exactly this layout. */
  ghost predicate SuperblockOk(l: Layout, s: seq<Byte>)
    requires LayoutOk(l) && |s| == SECTOR_SIZE
  {
    && HeaderOk(l, l.superMagic, s)
    && Field(s, 18, 2) == SECTOR_SIZE && Field(s, 24, 4) == SECTORS && Field(s, 28, 4) == l.featureFlags
    && (l.namesVolume ==> FixedString(s[32..96]).Some?)
    && SectionIs(s, l.sectionTable, 0, INODE_TABLE_SECTOR, l.inodeSectors)
    && SectionIs(s, l.sectionTable, 1, l.DirectorySector(), l.directorySectors)
    && SectionIs(s, l.sectionTable, 2, l.FreeMapSector(), 1)
    && SectionIs(s, l.sectionTable, 3, l.JournalSector(), 1)
    && SectionIs(s, l.sectionTable, 4, l.DataSector(), SECTORS - l.DataSector())
    && FixedString(s[l.generationOffset..l.generationOffset + 64]).Some?
  }

  function Entry(s: seq<Byte>, index: nat): (e: seq<Byte>)
    requires ENTRY_OFFSET + index * ENTRY_LEN + ENTRY_LEN <= |s|
    ensures |e| == ENTRY_LEN
  {
    s[ENTRY_OFFSET + index * ENTRY_LEN..ENTRY_OFFSET + index * ENTRY_LEN + ENTRY_LEN]
  }

  function DecodeInode(e: seq<Byte>): Option<Inode>
    requires |e| == ENTRY_LEN
  {
    var name := FixedString(e[36..64]);
    if name.None? then None
    else Some(Inode(Field(e, 0, 4), Field(e, 4, 2), Field(e, 8, 8), Field(e, 16, 8), Field(e, 24, 4), Field(e, 28, 4),
                    Field(e, 32, 4), name.value))
  }

  /** The inodes of the first `k` entries, unless one is unreadable or an id repeats. */
  function InodesTo(s: seq<Byte>, k: nat): Option<Inodes>
    requires ENTRY_OFFSET + k * ENTRY_LEN <= |s|
  {
    if k == 0 then Some(map[])
    else
      var before, inode := InodesTo(s, k - 1), DecodeInode(Entry(s, k - 1));
      if before.None? || inode.None? || inode.value.id in before.value then None
      else Some(before.value[inode.value.id := inode.value])
  }

  ghost predicate RootOk(inodes: Inodes) {
    && INODE_ROOT in inodes && inodes[INODE_ROOT].kind == KIND_DIR && inodes[INODE_ROOT].parent == 0
    && inodes[INODE_ROOT].name == [SLASH]
  }

  ghost function ParseInodeTable(l: Layout, s: seq<Byte>): Option<Inodes>
    requires LayoutOk(l) && |s| == l.inodeSectors * SECTOR_SIZE
  {
    if !HeaderOk(l, l.inodeMagic, s) || Field(s, 18, 2) > l.inodeLimit then None
    else
      var inodes := InodesTo(s, Field(s, 18, 2));
      if inodes.None? || !RootOk(inodes.value) then None else inodes
  }

  function DecodeDirectoryEntry(e: seq<Byte>): Option<DirectoryEntry>
    requires |e| == ENTRY_LEN
  {
    var name := FixedString(e[12..64]);
    if name.None? then None else Some(DirectoryEntry(Field(e, 0, 4), Field(e, 4, 4), Field(e, 8, 2), name.value))
  }

  function DirectoryTo(s: seq<Byte>, k: nat): Option<seq<DirectoryEntry>>
    requires ENTRY_OFFSET + k * ENTRY_LEN <= |s|
  {
    if k == 0 then Some([])
    else
      var before, entry := DirectoryTo(s, k - 1), DecodeDirectoryEntry(Entry(s, k - 1));
      if before.None? || entry.None? then None else Some(before.value + [entry.value])
  }

  ghost function ParseDirectory(l: Layout, s: seq<Byte>): Option<seq<DirectoryEntry>>
    requires LayoutOk(l) && |s| == l.directorySectors * SECTOR_SIZE
  {
    if !HeaderOk(l, l.directoryMagic, s) || Field(s, 18, 2) > l.directoryLimit then None
    else DirectoryTo(s, Field(s, 18, 2))
  }

  ghost function ParseJournal(l: Layout, s: seq<Byte>): Journal
    requires LayoutOk(l) && |s| == SECTOR_SIZE
  {
    if !HeaderOk(l, l.journalMagic, s) then Corrupt
    else if Field(s, 18, 2) == JOURNAL_STATE_CLEAN then Clean
    else if Field(s, 18, 2) != JOURNAL_STATE_PENDING then Corrupt
    else
      var target, length, sum := Field(s, 24, 4), Field(s, 28, 4), Field(s, 32, 4);
      if l.replayRecord
         && (Field(s, 40, 8) == 0 || Field(s, 48, 4) != target || Field(s, 52, 4) != length || Field(s, 56, 4) != sum)
      then Corrupt
      else if JOURNAL_PAYLOAD_OFFSET + length > SECTOR_SIZE then Corrupt
        else
          var payload := s[JOURNAL_PAYLOAD_OFFSET..JOURNAL_PAYLOAD_OFFSET + length];
          if Checksum(payload) != sum then Corrupt else Pending(target, payload)
  }

  /** The allocation byte of a sector. */
  function MapByte(s: seq<Byte>, i: nat): Byte
    requires |s| == SECTOR_SIZE && i < SECTORS
  {
    s[32 + i]
  }

  ghost predicate FreeMapOk(l: Layout, s: seq<Byte>)
    requires LayoutOk(l) && |s| == SECTOR_SIZE
  {
    && HeaderOk(l, l.freeMagic, s)
    && Field(s, 18, 2) == SECTORS
    && (forall i :: 0 <= i < SECTORS ==> MapByte(s, i) == 0 || MapByte(s, i) == 1)
    && (forall i :: 0 <= i <= l.JournalSector() ==> MapByte(s, i) == 1)
  }

  // ----- Checks across sections -----

  /** Every directory entry names an inode, every inode but the root has one, and no name repeats. */
  ghost predicate GraphOk(inodes: Inodes, directory: seq<DirectoryEntry>) {
    && (forall i :: 0 <= i < |directory| ==> EntryOk(inodes, directory[i]))
    && (forall i, j :: 0 <= i < j < |directory| ==>
          directory[i].parent != directory[j].parent || directory[i].name != directory[j].name)
    && (forall id :: id in inodes && id != INODE_ROOT ==> exists i :: 0 <= i < |directory| && directory[i].child == id)
  }

  ghost predicate EntryOk(inodes: Inodes, e: DirectoryEntry) {
    && e.parent in inodes && inodes[e.parent].kind == KIND_DIR
    && e.child in inodes && inodes[e.child].parent == e.parent && inodes[e.child].name == e.name
    && inodes[e.child].kind == e.kind
  }

  ghost predicate JournalOk(inodes: Inodes, journal: Journal) {
    match journal
    case Corrupt => false
    case Clean => true
    case Pending(target, payload) =>
      && target in inodes && inodes[target].kind == KIND_FILE
      && |payload| <= MAX_JOURNAL_FILE_BYTES && |payload| <= inodes[target].sectorCount * SECTOR_SIZE
  }

  /** The path of an inode through its parents. The source recurses without a bound, and a cycle of parents then
      never ends; `fuel` parents cover every chain that ends. */
  function InodePath(inodes: Inodes, id: nat, fuel: nat): Option<seq<Byte>>
    decreases fuel
  {
    if fuel == 0 || id !in inodes then None
    else if id == INODE_ROOT then Some([SLASH])
    else
      var parent := InodePath(inodes, inodes[id].parent, fuel - 1);
      if parent.None? then None
      else if parent.value == [SLASH] then Some([SLASH] + inodes[id].name)
      else Some(parent.value + [SLASH] + inodes[id].name)
  }

  ghost predicate Disjoint(a: Inode, b: Inode) {
    a.firstSector + a.sectorCount <= b.firstSector || b.firstSector + b.sectorCount <= a.firstSector
  }

  ghost predicate DirectoryOk(inode: Inode) {
    inode.size == 0 && inode.firstSector == 0 && inode.sectorCount == 0
  }

  /** A file's extent: in the data section, allocated, and long enough. */
  ghost predicate ExtentOk(l: Layout, free: seq<Byte>, inode: Inode)
    requires |free| == SECTOR_SIZE
  {
    && 0 < inode.sectorCount
    && l.DataSector() <= inode.firstSector && inode.firstSector + inode.sectorCount <= SECTORS
    && inode.size <= inode.sectorCount * SECTOR_SIZE
    && (forall i :: inode.firstSector <= i < inode.firstSector + inode.sectorCount ==> MapByte(free, i) == 1)
  }

  /** What the extent of a file holds. */
  function Extent(image: Image, inode: Inode): seq<Byte>
    requires inode.firstSector + inode.sectorCount <= SECTORS
  {
    Section(image, inode.firstSector, inode.sectorCount)
  }

  function Data(image: Image, inode: Inode): seq<Byte>
    requires inode.firstSector + inode.sectorCount <= SECTORS && inode.size <= inode.sectorCount * SECTOR_SIZE
  {
    Extent(image, inode)[..inode.size]
  }

  ghost predicate Replays(journal: Journal, id: nat) {
    journal.Pending? && journal.target == id
  }

  /** The stored bytes match the inode's checksum, or the journal has newer ones that are there already. */
  ghost predicate DataOk(image: Image, inode: Inode, journal: Journal)
    requires inode.firstSector + inode.sectorCount <= SECTORS && inode.size <= inode.sectorCount * SECTOR_SIZE
  {
    || Checksum(Data(image, inode)) == inode.checksum
    || (Replays(journal, inode.id) && journal.payload <= image[inode.firstSector * SECTOR_SIZE..])
  }

  ghost predicate FileOk(l: Layout, image: Image, free: seq<Byte>, inode: Inode, journal: Journal)
    requires |free| == SECTOR_SIZE
  {
    ExtentOk(l, free, inode) && DataOk(image, inode, journal)
  }

  ghost predicate InodesOk(l: Layout, image: Image, inodes: Inodes, free: seq<Byte>, journal: Journal)
    requires |free| == SECTOR_SIZE
  {
    && (forall id :: id in inodes ==> inodes[id].kind == KIND_DIR || inodes[id].kind == KIND_FILE)
    && (forall id :: id in inodes && inodes[id].kind == KIND_DIR ==> DirectoryOk(inodes[id]))
    && (forall id :: id in inodes && inodes[id].kind == KIND_FILE ==>
          FileOk(l, image, free, inodes[id], journal) && InodePath(inodes, id, |inodes|).Some?)
    && (forall a, b :: a in inodes && b in inodes && a != b ==>
          inodes[a].kind == KIND_FILE && inodes[b].kind == KIND_FILE ==> Disjoint(inodes[a], inodes[b]))
  }

  // ----- The report -----

  datatype FileReport = FileReport(path: seq<Byte>, len: nat, checksum: nat, firstSector: nat, sectorCount: nat)

  /** What `verify` reports: one file report per file inode. */
  datatype Report = Report(version: nat, generation: seq<Byte>, featureFlags: nat, directories: nat,
                           files: map<nat, FileReport>)

  datatype FsError =
    | BadSuperblock | BadInodeTable | BadDirectory | BadJournal | BadFreeMap | BadGraph | BadJournalTarget | BadFiles

  ghost function ReportOf(image: Image, inodes: Inodes, inode: Inode, path: seq<Byte>, journal: Journal): FileReport {
    if Replays(journal, inode.id) then
      FileReport(path, |journal.payload|, Checksum(journal.payload), inode.firstSector, inode.sectorCount)
    else if inode.firstSector + inode.sectorCount <= SECTORS && inode.size <= inode.sectorCount * SECTOR_SIZE
    then FileReport(path, inode.size, Checksum(Data(image, inode)), inode.firstSector, inode.sectorCount)
    else FileReport(path, 0, 0, 0, 0)
  }

  ghost function FileIds(inodes: Inodes): set<nat> {
    set id | id in inodes && inodes[id].kind == KIND_FILE
  }

  function DirectoryIds(inodes: Inodes): set<nat> {
    set id | id in inodes && inodes[id].kind == KIND_DIR
  }

  ghost function PathOrEmpty(inodes: Inodes, id: nat): seq<Byte> {
    var path := InodePath(inodes, id, |inodes|);
    if path.Some? then path.value else []
  }

  ghost function Reports(image: Image, inodes: Inodes, journal: Journal): map<nat, FileReport> {
    map id | id in FileIds(inodes)
             && id in inodes :: ReportOf(image, inodes, inodes[id], PathOrEmpty(inodes, id), journal)
  }

  ghost function Verify(l: Layout, image: Image): Result<Report, FsError>
    requires LayoutOk(l)
  {
    var super := Section(image, 0, 1);
    var inodes := ParseInodeTable(l, Section(image, INODE_TABLE_SECTOR, l.inodeSectors));
    var directory := ParseDirectory(l, Section(image, l.DirectorySector(), l.directorySectors));
    var journal := ParseJournal(l, Section(image, l.JournalSector(), 1));
    var free := Section(image, l.FreeMapSector(), 1);
    if !SuperblockOk(l, super) then Err(BadSuperblock)
    else if inodes.None? then Err(BadInodeTable)
    else if directory.None? then Err(BadDirectory)
    else if journal.Corrupt? then Err(BadJournal)
    else if !FreeMapOk(l, free) then Err(BadFreeMap)
    else if !GraphOk(inodes.value, directory.value) then Err(BadGraph)
    else if !JournalOk(inodes.value, journal) then Err(BadJournalTarget)
    else if !InodesOk(l, image, inodes.value, free, journal) then Err(BadFiles)
    else Ok(Report(l.version, FixedString(super[l.generationOffset..l.generationOffset + 64]).value, l.featureFlags,
                   |DirectoryIds(inodes.value)|, Reports(image, inodes.value, journal)))
  }

  // ----- The four writes of an update -----

  function Marked(l: Layout, s: seq<Byte>, state: nat): (r: seq<Byte>)
    requires LayoutOk(l) && |s| == SECTOR_SIZE
    ensures |r| == SECTOR_SIZE
  {
    PutField(PutField(Put(s, 0, l.journalMagic), 16, 2, l.version), 18, 2, state)
  }

  function Described(s: seq<Byte>, target: nat, payload: seq<Byte>): (r: seq<Byte>)
    requires |s| == SECTOR_SIZE
    ensures |r| == SECTOR_SIZE
  {
    PutField(PutField(PutField(s, 24, 4, target), 28, 4, |payload|), 32, 4, Checksum(payload))
  }

  function Replayable(s: seq<Byte>, target: nat, payload: seq<Byte>): (r: seq<Byte>)
    requires |s| == SECTOR_SIZE
    ensures |r| == SECTOR_SIZE
  {
    PutField(PutField(PutField(PutField(s, 40, 8, 1), 48, 4, target), 52, 4, |payload|), 56, 4, Checksum(payload))
  }

  function Addressed(l: Layout, s: seq<Byte>, target: nat, payload: seq<Byte>): (r: seq<Byte>)
    requires |s| == SECTOR_SIZE
    ensures |r| == SECTOR_SIZE
  {
    var s := Described(s, target, payload);
    if l.replayRecord then Replayable(s, target, payload) else s
  }

  /** The journal sector that announces an update. */
  function PendingSector(l: Layout, target: nat, payload: seq<Byte>): (r: seq<Byte>)
    requires LayoutOk(l) && |payload| <= MAX_JOURNAL_FILE_BYTES
    ensures |r| == SECTOR_SIZE
  {
    Sealed(Put(Addressed(l, Marked(l, Zeros(SECTOR_SIZE), JOURNAL_STATE_PENDING), target, payload),
               JOURNAL_PAYLOAD_OFFSET, payload))
  }

  function CleanSector(l: Layout, s: seq<Byte>): (r: seq<Byte>)
    requires LayoutOk(l) && |s| == SECTOR_SIZE
    ensures |r| == SECTOR_SIZE
  {
    Sealed(Marked(l, s, JOURNAL_STATE_CLEAN))
  }

  lemma MarkedFields(l: Layout, s: seq<Byte>, state: nat)
    requires LayoutOk(l) && |s| == SECTOR_SIZE && state < 0x1_0000
    ensures var r := Marked(l, s, state);
            r[..16] == l.journalMagic && Field(r, 16, 2) == l.version && Field(r, 18, 2) == state
  {
    assert Pow256(2) == 0x1_0000;
    var a := Put(s, 0, l.journalMagic);
    PutFieldHere(a, 16, 2, l.version);
    PutFieldHere(PutField(a, 16, 2, l.version), 18, 2, state);
  }

  lemma SealedHeader(l: Layout, s: seq<Byte>)
    requires |s| == SECTOR_SIZE && s[..16] == l.journalMagic && Field(s, 16, 2) == l.version
    ensures HeaderOk(l, l.journalMagic, Sealed(s)) && Field(Sealed(s), 18, 2) == Field(s, 18, 2)
  {
    SealedIsValid(s);
    SealedElsewhere(s, 0, 16);
    SealedElsewhere(s, 16, 18);
    SealedElsewhere(s, 18, 20);
    assert Sealed(s)[..16] == Sealed(s)[0..16];
  }

  lemma CleanParses(l: Layout, s: seq<Byte>)
    requires LayoutOk(l) && |s| == SECTOR_SIZE
    ensures ParseJournal(l, CleanSector(l, s)) == Clean
  {
    MarkedFields(l, s, JOURNAL_STATE_CLEAN);
    SealedHeader(l, Marked(l, s, JOURNAL_STATE_CLEAN));
  }

  ghost predicate AddressOk(l: Layout, s: seq<Byte>, target: nat, payload: seq<Byte>)
    requires |s| == SECTOR_SIZE
  {
    && Field(s, 24, 4) == target && Field(s, 28, 4) == |payload| && Field(s, 32, 4) == Checksum(payload)
    && (l.replayRecord ==>
          Field(s, 40, 8) == 1 && Field(s, 48, 4) == target && Field(s, 52, 4) == |payload|
          && Field(s, 56, 4) == Checksum(payload))
  }

  lemma DescribedFields(s: seq<Byte>, target: nat, payload: seq<Byte>)
    requires |s| == SECTOR_SIZE && target < U32_LIMIT && |payload| <= MAX_JOURNAL_FILE_BYTES
    ensures var r := Described(s, target, payload);
            Field(r, 24, 4) == target && Field(r, 28, 4) == |payload| && Field(r, 32, 4) == Checksum(payload)
    ensures forall at: nat, n: nat {:trigger Field(Described(s, target, payload), at, n)} ::
              at + n <= 24 ==> Field(Described(s, target, payload), at, n) == Field(s, at, n)
  {
    assert Pow256(4) == U32_LIMIT;
    hide Pow256, Checksum, Field, PutField;
    var a := PutField(s, 24, 4, target);
    PutFieldHere(s, 24, 4, target);
    PutFieldHere(a, 28, 4, |payload|);
    PutFieldHere(PutField(a, 28, 4, |payload|), 32, 4, Checksum(payload));
  }

  lemma ReplayableFields(s: seq<Byte>, target: nat, payload: seq<Byte>)
    requires |s| == SECTOR_SIZE && target < U32_LIMIT && |payload| <= MAX_JOURNAL_FILE_BYTES
    ensures var r := Replayable(s, target, payload);
            Field(r, 40, 8) == 1 && Field(r, 48, 4) == target && Field(r, 52, 4) == |payload|
            && Field(r, 56, 4) == Checksum(payload)
    ensures forall at: nat, n: nat {:trigger Field(Replayable(s, target, payload), at, n)} ::
              at + n <= 40 ==> Field(Replayable(s, target, payload), at, n) == Field(s, at, n)
  {
    assert Pow256(4) == U32_LIMIT && Pow256(8) == U64_LIMIT;
    hide Pow256, Checksum, Field, PutField;
    var a := PutField(s, 40, 8, 1);
    PutFieldHere(s, 40, 8, 1);
    var b := PutField(a, 48, 4, target);
    PutFieldHere(a, 48, 4, target);
    PutFieldHere(b, 52, 4, |payload|);
    PutFieldHere(PutField(b, 52, 4, |payload|), 56, 4, Checksum(payload));
  }

  lemma AddressedFields(l: Layout, s: seq<Byte>, target: nat, payload: seq<Byte>)
    requires |s| == SECTOR_SIZE && target < U32_LIMIT && |payload| <= MAX_JOURNAL_FILE_BYTES
    ensures AddressOk(l, Addressed(l, s, target, payload), target, payload)
    ensures forall at: nat, n: nat {:trigger Field(Addressed(l, s, target, payload), at, n)} ::
              at + n <= 24 ==> Field(Addressed(l, s, target, payload), at, n) == Field(s, at, n)
  {
    hide Described, Replayable, Field, Checksum;
    DescribedFields(s, target, payload);
    ReplayableFields(Described(s, target, payload), target, payload);
  }

  lemma AddressedStart(l: Layout, s: seq<Byte>, target: nat, payload: seq<Byte>)
    requires |s| == SECTOR_SIZE
    ensures Addressed(l, s, target, payload)[..16] == s[..16]
  {
    assert forall i :: 0 <= i < 16 ==> Addressed(l, s, target, payload)[i] == s[i];
  }

  /** The journal sector written is read back as that update. */
  lemma PendingParses(l: Layout, target: nat, payload: seq<Byte>)
    requires LayoutOk(l) && |payload| <= MAX_JOURNAL_FILE_BYTES && target < U32_LIMIT
    ensures ParseJournal(l, PendingSector(l, target, payload)) == Pending(target, payload)
  {
    var m := Marked(l, Zeros(SECTOR_SIZE), JOURNAL_STATE_PENDING);
    var a := Addressed(l, m, target, payload);
    var w := Put(a, JOURNAL_PAYLOAD_OFFSET, payload);
    MarkedFields(l, Zeros(SECTOR_SIZE), JOURNAL_STATE_PENDING);
    AddressedFields(l, m, target, payload);
    AddressedStart(l, m, target, payload);
    FieldBefore(a, JOURNAL_PAYLOAD_OFFSET, payload);
    assert w[..16] == a[..16];
    hide Addressed, Marked, LeValue, Checksum;
    SealedHeader(l, w);
    SealedAddress(l, w, target, payload);
    PutHere(a, JOURNAL_PAYLOAD_OFFSET, payload);
    SealedElsewhere(w, JOURNAL_PAYLOAD_OFFSET, JOURNAL_PAYLOAD_OFFSET + |payload|);
  }

  lemma SealedAddress(l: Layout, s: seq<Byte>, target: nat, payload: seq<Byte>)
    requires |s| == SECTOR_SIZE && AddressOk(l, s, target, payload)
    ensures AddressOk(l, Sealed(s), target, payload)
  {
    hide LeValue, Checksum, Sealed;
    SealedElsewhere(s, 24, 28);
    SealedElsewhere(s, 28, 32);
    SealedElsewhere(s, 32, 36);
    SealedElsewhere(s, 40, 48);
    SealedElsewhere(s, 48, 52);
    SealedElsewhere(s, 52, 56);
    SealedElsewhere(s, 56, 60);
  }

  // -- the inode table --

  /** The entry with a new length and checksum. */
  function Rewritten(e: seq<Byte>, payload: seq<Byte>): (r: seq<Byte>)
    requires |e| == ENTRY_LEN
    ensures |r| == ENTRY_LEN
  {
    PutField(PutField(e, 8, 8, |payload|), 28, 4, Checksum(payload))
  }

  function WithMetadata(s: seq<Byte>, index: nat, payload: seq<Byte>): (r: seq<Byte>)
    requires ENTRY_OFFSET + index * ENTRY_LEN + ENTRY_LEN <= |s|
    ensures |r| == |s|
  {
    var at := ENTRY_OFFSET + index * ENTRY_LEN;
    Sealed(PutField(PutField(s, at + 8, 8, |payload|), at + 28, 4, Checksum(payload)))
  }

  lemma RewrittenInode(e: seq<Byte>, payload: seq<Byte>)
    requires |e| == ENTRY_LEN && DecodeInode(e).Some? && |payload| < U64_LIMIT
    ensures DecodeInode(Rewritten(e, payload))
         == Some(DecodeInode(e).value.(size := |payload|, checksum := Checksum(payload)))
  {
    assert Pow256(4) == U32_LIMIT && Pow256(8) == U64_LIMIT;
    hide Pow256, LeValue, Checksum, FixedString;
    var a := PutField(e, 8, 8, |payload|);
    var r := Rewritten(e, payload);
    PutFieldHere(e, 8, 8, |payload|);
    PutFieldHere(a, 28, 4, Checksum(payload));
    FieldElsewhere(e, 8, LeBytes(|payload|, 8), 16, 8);
    FieldElsewhere(e, 8, LeBytes(|payload|, 8), 24, 4);
    PutAfter(e, payload);
    assert r[36..64] == e[36..64] && r[32..36] == e[32..36];
  }

  lemma PutAfter(e: seq<Byte>, payload: seq<Byte>)
    requires |e| == ENTRY_LEN
    ensures forall i :: 32 <= i < ENTRY_LEN ==> Rewritten(e, payload)[i] == e[i]
  {}

  /** Only the one entry changes. */
  lemma MetadataEntries(s: seq<Byte>, k: nat, payload: seq<Byte>, i: nat)
    requires ENTRY_OFFSET + k * ENTRY_LEN + ENTRY_LEN <= |s| && ENTRY_OFFSET + i * ENTRY_LEN + ENTRY_LEN <= |s|
    ensures Entry(WithMetadata(s, k, payload), i) == if i == k then Rewritten(Entry(s, k), payload) else Entry(s, i)
  {
    var at, lo := ENTRY_OFFSET + k * ENTRY_LEN, ENTRY_OFFSET + i * ENTRY_LEN;
    hide Put, Sealed, Checksum, LeBytes;
    var a := PutField(s, at + 8, 8, |payload|);
    var b := PutField(a, at + 28, 4, Checksum(payload));
    SealedElsewhere(b, lo, lo + ENTRY_LEN);
    if i == k {
      PutInside(s, at + 8, LeBytes(|payload|, 8), at, at + ENTRY_LEN);
      PutInside(a, at + 28, LeBytes(Checksum(payload), 4), at, at + ENTRY_LEN);
    } else {
      PutElsewhere(s, at + 8, LeBytes(|payload|, 8), lo, lo + ENTRY_LEN);
      PutElsewhere(a, at + 28, LeBytes(Checksum(payload), 4), lo, lo + ENTRY_LEN);
    }
  }

  lemma {:induction false} MetadataInodes(s: seq<Byte>, k: nat, payload: seq<Byte>, n: nat)
    requires ENTRY_OFFSET + n * ENTRY_LEN <= |s| && ENTRY_OFFSET + k * ENTRY_LEN + ENTRY_LEN <= |s|
    requires InodesTo(s, n).Some? && DecodeInode(Entry(s, k)).Some? && |payload| < U64_LIMIT
    ensures var inodes, id := InodesTo(s, n).value, DecodeInode(Entry(s, k)).value.id;
            InodesTo(WithMetadata(s, k, payload), n)
            == Some(if k < n && id in inodes then
                      inodes[id := inodes[id].(size := |payload|, checksum := Checksum(payload))] else inodes)
    ensures k < n ==>
              && DecodeInode(Entry(s, k)).value.id in InodesTo(s, n).value
              && InodesTo(s, n).value[DecodeInode(Entry(s, k)).value.id] == DecodeInode(Entry(s, k)).value
  {
    hide DecodeInode, Entry, WithMetadata, Checksum;
    if n > 0 {
      MetadataInodes(s, k, payload, n - 1);
      MetadataEntries(s, k, payload, n - 1);
      var last := DecodeInode(Entry(s, n - 1)).value;
      if k == n - 1 {
        RewrittenInode(Entry(s, k), payload);
        var inodes, changed := InodesTo(s, n).value, last.(size := |payload|, checksum := Checksum(payload));
        assert inodes[last.id := changed] == InodesTo(s, n - 1).value[last.id := changed];
      } else if k < n {
        var before, target := InodesTo(s, n - 1).value, DecodeInode(Entry(s, k)).value;
        var changed := before[target.id].(size := |payload|, checksum := Checksum(payload));
        assert before[target.id := changed][last.id := last] == before[last.id := last][target.id := changed];
      }
    }
  }

  lemma MetadataHeader(l: Layout, s: seq<Byte>, k: nat, payload: seq<Byte>)
    requires |s| >= SECTOR_SIZE && ENTRY_OFFSET + k * ENTRY_LEN + ENTRY_LEN <= |s| && HeaderOk(l, l.inodeMagic, s)
    ensures HeaderOk(l, l.inodeMagic, WithMetadata(s, k, payload))
            && Field(WithMetadata(s, k, payload), 18, 2) == Field(s, 18, 2)
  {
    hide Put, Sealed, Checksum, LeBytes, LeValue, ChecksumValid;
    var at := ENTRY_OFFSET + k * ENTRY_LEN;
    var a := PutField(s, at + 8, 8, |payload|);
    var b := PutField(a, at + 28, 4, Checksum(payload));
    SealedIsValid(b);
    SameStart(s, a, b, at, payload, 0, 16);
    SameStart(s, a, b, at, payload, 16, 18);
    SameStart(s, a, b, at, payload, 18, 20);
    assert Sealed(b)[..16] == Sealed(b)[0..16] && s[..16] == s[0..16];
  }

  lemma SameStart(s: seq<Byte>, a: seq<Byte>, b: seq<Byte>, at: nat, payload: seq<Byte>, lo: nat, hi: nat)
    requires lo <= hi <= CHECKSUM_OFFSET < at && at + ENTRY_LEN <= |s|
    requires a == PutField(s, at + 8, 8, |payload|) && b == PutField(a, at + 28, 4, Checksum(payload))
    ensures Sealed(b)[lo..hi] == s[lo..hi]
  {
    hide Put, Sealed, Checksum, LeBytes;
    SealedElsewhere(b, lo, hi);
    PutElsewhere(a, at + 28, LeBytes(Checksum(payload), 4), lo, hi);
    PutElsewhere(s, at + 8, LeBytes(|payload|, 8), lo, hi);
  }

  /** The inode table after the metadata write: the target has its new length and checksum. */
  lemma MetadataParses(l: Layout, s: seq<Byte>, k: nat, payload: seq<Byte>)
    requires LayoutOk(l) && |s| == l.inodeSectors * SECTOR_SIZE && ParseInodeTable(l, s).Some?
    requires k < Field(s, 18, 2) && |payload| < U64_LIMIT
    requires DecodeInode(Entry(s, k)).Some? && DecodeInode(Entry(s, k)).value.kind == KIND_FILE
    ensures var inodes, id := ParseInodeTable(l, s).value, DecodeInode(Entry(s, k)).value.id;
            && id in inodes && inodes[id] == DecodeInode(Entry(s, k)).value
            && ParseInodeTable(l, WithMetadata(s, k, payload))
               == Some(inodes[id := inodes[id].(size := |payload|, checksum := Checksum(payload))])
  {
    hide DecodeInode, Entry, WithMetadata, Checksum, HeaderOk;
    MetadataHeader(l, s, k, payload);
    MetadataInodes(s, k, payload, Field(s, 18, 2));
  }
}
