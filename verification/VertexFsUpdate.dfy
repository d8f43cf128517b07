/** Crash safety of a VertexFS file update: after each of its four writes the image still verifies, and from the
    first write on it reports the new contents. */
module VertexFsUpdate {
  import opened Buffers
  import opened Bytes
  import opened Results
  import opened VertexFs

  // ----- The image after each write -----

  function InodeSection(l: Layout, image: Image): (s: seq<Byte>)
    requires LayoutOk(l)
    ensures |s| == l.inodeSectors * SECTOR_SIZE
  {
    Section(image, INODE_TABLE_SECTOR, l.inodeSectors)
  }

  function JournalSection(l: Layout, image: Image): (s: seq<Byte>)
    requires LayoutOk(l)
    ensures |s| == SECTOR_SIZE
  {
    Section(image, l.JournalSector(), 1)
  }

  function PutSection(image: Image, first: nat, b: seq<Byte>): (r: Image)
    requires first * SECTOR_SIZE + |b| <= IMAGE_BYTES
  {
    Put(image, first * SECTOR_SIZE, b)
  }

  /** An update of the file with inode `inode`, in entry `k` of the inode table, to `payload`. */
  datatype Update = Update(inode: Inode, k: nat, payload: seq<Byte>)

  ghost predicate UpdateOk(l: Layout, u: Update) {
    && |u.payload| <= MAX_JOURNAL_FILE_BYTES && |u.payload| <= u.inode.sectorCount * SECTOR_SIZE
    && u.inode.firstSector + u.inode.sectorCount <= SECTORS && l.DataSector() <= u.inode.firstSector
    && u.k < l.inodeLimit
  }

  function Padded(u: Update): (s: seq<Byte>)
    requires |u.payload| <= u.inode.sectorCount * SECTOR_SIZE
    ensures |s| == u.inode.sectorCount * SECTOR_SIZE
  {
    u.payload + Zeros(u.inode.sectorCount * SECTOR_SIZE - |u.payload|)
  }

  function WithJournal(l: Layout, image: Image, u: Update): Image
    requires LayoutOk(l) && UpdateOk(l, u)
  {
    PutSection(image, l.JournalSector(), PendingSector(l, u.inode.id, u.payload))
  }

  function WithData(l: Layout, image: Image, u: Update): Image
    requires LayoutOk(l) && UpdateOk(l, u)
  {
    PutSection(image, u.inode.firstSector, Padded(u))
  }

  function WithInode(l: Layout, image: Image, u: Update): Image
    requires LayoutOk(l) && UpdateOk(l, u)
  {
    PutSection(image, INODE_TABLE_SECTOR, WithMetadata(InodeSection(l, image), u.k, u.payload))
  }

  function WithCleanJournal(l: Layout, image: Image): Image
    requires LayoutOk(l)
  {
    PutSection(image, l.JournalSector(), CleanSector(l, JournalSection(l, image)))
  }

  /** The image after the first `n` writes of the update. */
  function Stage(l: Layout, image: Image, u: Update, n: nat): Image
    requires LayoutOk(l) && UpdateOk(l, u) && n <= 4
  {
    if n == 0 then image
    else if n == 1 then WithJournal(l, image, u)
    else if n == 2 then WithData(l, Stage(l, image, u, 1), u)
    else if n == 3 then WithInode(l, Stage(l, image, u, 2), u)
    else WithCleanJournal(l, Stage(l, image, u, 3))
  }

  // ----- What each write leaves of every section -----

  lemma SectionHere(image: Image, first: nat, count: nat, b: seq<Byte>)
    requires first + count <= SECTORS && |b| == count * SECTOR_SIZE
    ensures Section(PutSection(image, first, b), first, count) == b
  {}

  lemma SectionElsewhere(image: Image, first: nat, count: nat, b: seq<Byte>, at: nat, n: nat)
    requires first + count <= SECTORS && |b| == count * SECTOR_SIZE && at + n <= SECTORS
             && (first + count <= at || at + n <= first)
    ensures Section(PutSection(image, first, b), at, n) == Section(image, at, n)
  {
    PutElsewhere(image, first * SECTOR_SIZE, b, at * SECTOR_SIZE, (at + n) * SECTOR_SIZE);
  }

  /** The sections `verify` reads, after `n` writes. */
  ghost predicate StageIs(l: Layout, image: Image, u: Update, n: nat, now: Image)
    requires LayoutOk(l) && UpdateOk(l, u)
  {
    && Section(now, 0, 1) == Section(image, 0, 1)
    && Section(now, l.DirectorySector(), l.directorySectors) == Section(image, l.DirectorySector(), l.directorySectors)
    && Section(now, l.FreeMapSector(), 1) == Section(image, l.FreeMapSector(), 1)
    && InodeSection(l, now)
       == (if n < 3 then InodeSection(l, image) else WithMetadata(InodeSection(l, image), u.k, u.payload))
    && JournalSection(l, now) == (if n == 0 then JournalSection(l, image)
                                  else if n < 4 then PendingSector(l, u.inode.id, u.payload)
                                  else CleanSector(l, PendingSector(l, u.inode.id, u.payload)))
    && Extent(now, u.inode) == (if n < 2 then Extent(image, u.inode) else Padded(u))
    && (forall o: Inode {:trigger Extent(now, o)} :: OtherExtent(l, u, o) ==> Extent(now, o) == Extent(image, o))
  }

  ghost predicate OtherExtent(l: Layout, u: Update, o: Inode) {
    o.firstSector + o.sectorCount <= SECTORS && l.DataSector() <= o.firstSector && Disjoint(u.inode, o)
  }

  lemma OthersElsewhere(l: Layout, image: Image, u: Update, first: nat, count: nat, b: seq<Byte>)
    requires LayoutOk(l) && UpdateOk(l, u) && first + count <= SECTORS && |b| == count * SECTOR_SIZE
    requires first + count <= l.DataSector() || (first == u.inode.firstSector && count == u.inode.sectorCount)
    ensures forall o: Inode {:trigger Extent(PutSection(image, first, b), o)} :: OtherExtent(l, u, o) ==>
          Extent(PutSection(image, first, b), o) == Extent(image, o)
  {
    hide PutSection, Section;
    forall o: Inode | OtherExtent(l, u, o)
      ensures Extent(PutSection(image, first, b), o) == Extent(image, o)
    {
      SectionElsewhere(image, first, count, b, o.firstSector, o.sectorCount);
    }
  }

  lemma JournalStage(l: Layout, image: Image, u: Update)
    requires LayoutOk(l) && UpdateOk(l, u)
    ensures StageIs(l, image, u, 1, Stage(l, image, u, 1))
  {
    hide PutSection, Section, PendingSector, CleanSector, WithMetadata;
    var b, j := PendingSector(l, u.inode.id, u.payload), l.JournalSector();
    SectionHere(image, j, 1, b);
    SectionElsewhere(image, j, 1, b, 0, 1);
    SectionElsewhere(image, j, 1, b, l.DirectorySector(), l.directorySectors);
    SectionElsewhere(image, j, 1, b, l.FreeMapSector(), 1);
    SectionElsewhere(image, j, 1, b, INODE_TABLE_SECTOR, l.inodeSectors);
    SectionElsewhere(image, j, 1, b, u.inode.firstSector, u.inode.sectorCount);
    OthersElsewhere(l, image, u, j, 1, b);
  }

  lemma DataStage(l: Layout, image: Image, u: Update)
    requires LayoutOk(l) && UpdateOk(l, u)
    ensures StageIs(l, image, u, 2, Stage(l, image, u, 2))
  {
    hide PutSection, Section, PendingSector, CleanSector, WithMetadata, Padded;
    JournalStage(l, image, u);
    var s, b, first, count := Stage(l, image, u, 1), Padded(u), u.inode.firstSector, u.inode.sectorCount;
    SectionHere(s, first, count, b);
    SectionElsewhere(s, first, count, b, 0, 1);
    SectionElsewhere(s, first, count, b, l.DirectorySector(), l.directorySectors);
    SectionElsewhere(s, first, count, b, l.FreeMapSector(), 1);
    SectionElsewhere(s, first, count, b, INODE_TABLE_SECTOR, l.inodeSectors);
    SectionElsewhere(s, first, count, b, l.JournalSector(), 1);
    OthersElsewhere(l, s, u, first, count, b);
  }

  lemma InodeStage(l: Layout, image: Image, u: Update)
    requires LayoutOk(l) && UpdateOk(l, u)
    ensures StageIs(l, image, u, 3, Stage(l, image, u, 3))
  {
    hide PutSection, Section, PendingSector, CleanSector, WithMetadata, Padded;
    DataStage(l, image, u);
    var s := Stage(l, image, u, 2);
    var b, first, count := WithMetadata(InodeSection(l, s), u.k, u.payload), INODE_TABLE_SECTOR, l.inodeSectors;
    SectionHere(s, first, count, b);
    SectionElsewhere(s, first, count, b, 0, 1);
    SectionElsewhere(s, first, count, b, l.DirectorySector(), l.directorySectors);
    SectionElsewhere(s, first, count, b, l.FreeMapSector(), 1);
    SectionElsewhere(s, first, count, b, l.JournalSector(), 1);
    SectionElsewhere(s, first, count, b, u.inode.firstSector, u.inode.sectorCount);
    OthersElsewhere(l, s, u, first, count, b);
  }

  lemma CleanStage(l: Layout, image: Image, u: Update)
    requires LayoutOk(l) && UpdateOk(l, u)
    ensures StageIs(l, image, u, 4, Stage(l, image, u, 4))
  {
    hide PutSection, Section, PendingSector, CleanSector, WithMetadata, Padded;
    InodeStage(l, image, u);
    var s, j := Stage(l, image, u, 3), l.JournalSector();
    var b := CleanSector(l, JournalSection(l, s));
    SectionHere(s, j, 1, b);
    SectionElsewhere(s, j, 1, b, 0, 1);
    SectionElsewhere(s, j, 1, b, l.DirectorySector(), l.directorySectors);
    SectionElsewhere(s, j, 1, b, l.FreeMapSector(), 1);
    SectionElsewhere(s, j, 1, b, INODE_TABLE_SECTOR, l.inodeSectors);
    SectionElsewhere(s, j, 1, b, u.inode.firstSector, u.inode.sectorCount);
    OthersElsewhere(l, s, u, j, 1, b);
  }

  // ----- What verify makes of it -----

  lemma {:induction false} IdsMatch(s: seq<Byte>, n: nat)
    requires ENTRY_OFFSET + n * ENTRY_LEN <= |s| && InodesTo(s, n).Some?
    ensures forall id :: id in InodesTo(s, n).value ==> InodesTo(s, n).value[id].id == id
  {
    hide DecodeInode, Entry;
    if n > 0 { IdsMatch(s, n - 1); }
  }

  /** The inodes after the metadata write. */
  ghost function Changed(inodes: Inodes, u: Update): Inodes {
    inodes[u.inode.id := u.inode.(size := |u.payload|, checksum := Checksum(u.payload))]
  }

  lemma {:induction false} SamePath(inodes: Inodes, u: Update, id: nat, fuel: nat)
    requires u.inode.id in inodes && inodes[u.inode.id] == u.inode
    ensures InodePath(Changed(inodes, u), id, fuel) == InodePath(inodes, id, fuel)
    decreases fuel
  {
    if fuel > 0 && id in inodes && id != INODE_ROOT { SamePath(inodes, u, inodes[id].parent, fuel - 1); }
  }

  /** The report with the new contents of the updated file. */
  ghost function NewReport(inodes: Inodes, u: Update): FileReport {
    FileReport(PathOrEmpty(inodes, u.inode.id), |u.payload|, Checksum(u.payload), u.inode.firstSector,
               u.inode.sectorCount)
  }

  /** An update of a file of these inodes. */
  ghost predicate Targets(inodes: Inodes, u: Update) {
    && u.inode.id in inodes && inodes[u.inode.id] == u.inode && u.inode.kind == KIND_FILE
    && (forall id :: id in inodes ==> inodes[id].id == id)
  }

  lemma ChangedShape(inodes: Inodes, u: Update)
    requires Targets(inodes, u)
    ensures Changed(inodes, u).Keys == inodes.Keys && |Changed(inodes, u)| == |inodes|
    ensures FileIds(Changed(inodes, u)) == FileIds(inodes) && DirectoryIds(Changed(inodes, u)) == DirectoryIds(inodes)
    ensures forall id :: id in inodes && id != u.inode.id ==> Changed(inodes, u)[id] == inodes[id]
    ensures forall id :: PathOrEmpty(Changed(inodes, u), id) == PathOrEmpty(inodes, id)
  {
    assert Changed(inodes, u).Keys == inodes.Keys;
    assert |Changed(inodes, u)| == |inodes| by { assert |Changed(inodes, u).Keys| == |inodes.Keys|; }
    forall id
      ensures PathOrEmpty(Changed(inodes, u), id) == PathOrEmpty(inodes, id)
    {
      if id >= 0 { SamePath(inodes, u, id, |inodes|); }
    }
  }

  lemma ChangedGraph(inodes: Inodes, u: Update, directory: seq<DirectoryEntry>)
    requires Targets(inodes, u) && GraphOk(inodes, directory)
    ensures GraphOk(Changed(inodes, u), directory)
  {
    forall i | 0 <= i < |directory|
      ensures EntryOk(Changed(inodes, u), directory[i])
    {
      assert EntryOk(inodes, directory[i]);
    }
  }

  ghost function InodesAt(inodes: Inodes, u: Update, n: nat): Inodes {
    if n < 3 then inodes else Changed(inodes, u)
  }

  ghost function JournalAt(u: Update, n: nat): Journal {
    if 1 <= n <= 3 then Pending(u.inode.id, u.payload) else Clean
  }

  /** The updated file is accepted, and reported with its new contents. */
  lemma TargetAt(l: Layout, image: Image, u: Update, inodes: Inodes, free: seq<Byte>, n: nat, now: Image,
                 path: seq<Byte>)
    requires LayoutOk(l) && UpdateOk(l, u) && Targets(inodes, u) && |free| == SECTOR_SIZE && 1 <= n <= 4
    requires FileOk(l, image, free, u.inode, Clean) && StageIs(l, image, u, n, now)
    ensures var target := InodesAt(inodes, u, n)[u.inode.id];
            && FileOk(l, now, free, target, JournalAt(u, n))
            && ReportOf(now, InodesAt(inodes, u, n), target, path, JournalAt(u, n))
               == FileReport(path, |u.payload|, Checksum(u.payload), u.inode.firstSector, u.inode.sectorCount)
  {
    hide Checksum, PendingSector, CleanSector, WithMetadata, Section;
    var target := InodesAt(inodes, u, n)[u.inode.id];
    assert Extent(now, target) == Extent(now, u.inode);
    if n == 1 {
      assert Data(now, u.inode) == Data(image, u.inode);
    } else {
      assert Extent(now, u.inode)[..|u.payload|] == u.payload;
      PrefixOfExtent(now, u.inode, u.payload);
    }
  }

  lemma PrefixOfExtent(image: Image, inode: Inode, payload: seq<Byte>)
    requires inode.firstSector + inode.sectorCount <= SECTORS && |payload| <= inode.sectorCount * SECTOR_SIZE
    requires Extent(image, inode)[..|payload|] == payload
    ensures payload <= image[inode.firstSector * SECTOR_SIZE..]
  {
    var rest := image[inode.firstSector * SECTOR_SIZE..];
    assert Extent(image, inode) == rest[..inode.sectorCount * SECTOR_SIZE];
    assert rest[..|payload|] == payload;
  }

  /** Every other file is accepted and reported as before. */
  lemma OtherAt(l: Layout, image: Image, u: Update, inodes: Inodes, free: seq<Byte>, n: nat, now: Image, o: nat,
                path: seq<Byte>)
    requires LayoutOk(l) && UpdateOk(l, u) && Targets(inodes, u) && |free| == SECTOR_SIZE && 1 <= n <= 4
    requires o in inodes && o != u.inode.id && FileOk(l, image, free, inodes[o], Clean) && Disjoint(u.inode, inodes[o])
    requires StageIs(l, image, u, n, now)
    ensures FileOk(l, now, free, inodes[o], JournalAt(u, n))
    ensures ReportOf(now, InodesAt(inodes, u, n), inodes[o], path, JournalAt(u, n))
         == ReportOf(image, inodes, inodes[o], path, Clean)
  {
    hide Checksum, PendingSector, CleanSector, WithMetadata, Section;
    assert OtherExtent(l, u, inodes[o]);
    assert Extent(now, inodes[o]) == Extent(image, inodes[o]);
  }

  lemma FilesAt(l: Layout, image: Image, u: Update, inodes: Inodes, free: seq<Byte>, n: nat, now: Image)
    requires LayoutOk(l) && UpdateOk(l, u) && Targets(inodes, u) && |free| == SECTOR_SIZE && 1 <= n <= 4
    requires InodesOk(l, image, inodes, free, Clean) && StageIs(l, image, u, n, now)
    ensures InodesOk(l, now, InodesAt(inodes, u, n), free, JournalAt(u, n))
  {
    hide Checksum, StageIs, FileOk, ReportOf, InodePath, UpdateOk, JournalAt, LayoutOk, InodesAt, Targets;
    ShapeAt(inodes, u, n);
    var after := InodesAt(inodes, u, n);
    forall id | id in after && after[id].kind == KIND_FILE
      ensures FileOk(l, now, free, after[id], JournalAt(u, n)) && InodePath(after, id, |after|).Some?
    {
      assert FileOk(l, image, free, inodes[id], Clean);
      FileAt(l, image, u, inodes, free, n, now, id);
    }
  }

  /** Kinds and extents never change. */
  lemma ShapeAt(inodes: Inodes, u: Update, n: nat)
    requires Targets(inodes, u)
    ensures var after := InodesAt(inodes, u, n);
            && u.inode.id in inodes && inodes[u.inode.id] == u.inode && u.inode.kind == KIND_FILE
            && (forall id :: id in after <==> id in inodes)
            && forall id :: id in after ==>
                  && after[id].kind == inodes[id].kind && after[id].firstSector == inodes[id].firstSector
                  && after[id].sectorCount == inodes[id].sectorCount
                  && (id != u.inode.id ==> after[id] == inodes[id])
  {}

  lemma FileAt(l: Layout, image: Image, u: Update, inodes: Inodes, free: seq<Byte>, n: nat, now: Image, id: nat)
    requires LayoutOk(l) && UpdateOk(l, u) && Targets(inodes, u) && |free| == SECTOR_SIZE && 1 <= n <= 4
    requires InodesOk(l, image, inodes, free, Clean) && StageIs(l, image, u, n, now)
    requires id in inodes && inodes[id].kind == KIND_FILE && id in InodesAt(inodes, u, n)
    ensures FileOk(l, now, free, InodesAt(inodes, u, n)[id], JournalAt(u, n))
    ensures InodePath(InodesAt(inodes, u, n), id, |InodesAt(inodes, u, n)|).Some?
  {
    hide Checksum, StageIs, FileOk, ReportOf, InodePath, UpdateOk, JournalAt, LayoutOk;
    ChangedShape(inodes, u);
    SamePath(inodes, u, id, |inodes|);
    if id == u.inode.id {
      TargetAt(l, image, u, inodes, free, n, now, []);
    } else {
      OtherAt(l, image, u, inodes, free, n, now, id, []);
    }
  }

  lemma ReportsAt(l: Layout, image: Image, u: Update, inodes: Inodes, free: seq<Byte>, n: nat, now: Image)
    requires LayoutOk(l) && UpdateOk(l, u) && Targets(inodes, u) && |free| == SECTOR_SIZE && 1 <= n <= 4
    requires InodesOk(l, image, inodes, free, Clean) && StageIs(l, image, u, n, now)
    ensures Reports(now, InodesAt(inodes, u, n), JournalAt(u, n))
         == Reports(image, inodes, Clean)[u.inode.id := NewReport(inodes, u)]
    ensures DirectoryIds(InodesAt(inodes, u, n)) == DirectoryIds(inodes)
  {
    hide Checksum, StageIs, FileOk, ReportOf, InodePath, UpdateOk, JournalAt, PathOrEmpty;
    ChangedShape(inodes, u);
    var after := InodesAt(inodes, u, n);
    forall id | id in FileIds(inodes)
      ensures ReportOf(now, after, after[id], PathOrEmpty(after, id), JournalAt(u, n))
           == Reports(image, inodes, Clean)[u.inode.id := NewReport(inodes, u)][id]
    {
      assert FileOk(l, image, free, inodes[id], Clean);
      if id == u.inode.id {
        TargetAt(l, image, u, inodes, free, n, now, PathOrEmpty(inodes, id));
      } else {
        OtherAt(l, image, u, inodes, free, n, now, id, PathOrEmpty(inodes, id));
      }
    }
  }

  // ----- The theorem -----

  /** The update the code makes of a verified image with a clean journal. */
  ghost predicate Updates(l: Layout, image: Image, u: Update)
    requires LayoutOk(l)
  {
    && Verify(l, image).Ok? && ParseJournal(l, JournalSection(l, image)) == Clean
    && u.k < Field(InodeSection(l, image), 18, 2) <= l.inodeLimit
    && DecodeInode(Entry(InodeSection(l, image), u.k)) == Some(u.inode) && u.inode.kind == KIND_FILE
    && |u.payload| <= MAX_JOURNAL_FILE_BYTES && |u.payload| <= u.inode.sectorCount * SECTOR_SIZE
  }

  /** The report after the update: the target's length and checksum are the payload's. */
  ghost function Updated(l: Layout, image: Image, u: Update): Report
    requires LayoutOk(l) && Updates(l, image, u)
  {
    var before := Verify(l, image).value;
    var inodes := ParseInodeTable(l, InodeSection(l, image)).value;
    before.(files := before.files[u.inode.id := NewReport(inodes, u)])
  }

  lemma UpdateFacts(l: Layout, image: Image, u: Update)
    requires LayoutOk(l) && Updates(l, image, u)
    ensures UpdateOk(l, u) && u.inode.id < U32_LIMIT
    ensures var inodes := ParseInodeTable(l, InodeSection(l, image)).value;
            && Targets(inodes, u)
            && ParseInodeTable(l, WithMetadata(InodeSection(l, image), u.k, u.payload)) == Some(Changed(inodes, u))
  {
    hide HeaderOk, WithMetadata, Checksum, SuperblockOk, FreeMapOk, GraphOk, DataOk, Reports, ParseDirectory,
         ParseJournal, Entry, Section;
    var s := InodeSection(l, image);
    IdsMatch(s, Field(s, 18, 2));
    MetadataParses(l, s, u.k, u.payload);
    IdBound(Entry(s, u.k));
    var inodes := ParseInodeTable(l, s).value;
    assert FileOk(l, image, Section(image, l.FreeMapSector(), 1), inodes[u.inode.id], Clean);
  }

  lemma IdBound(e: seq<Byte>)
    requires |e| == ENTRY_LEN && DecodeInode(e).Some?
    ensures DecodeInode(e).value.id < U32_LIMIT
  {
    LeBound(e[0..4]);
    assert Pow256(4) == U32_LIMIT;
  }

  lemma StageHolds(l: Layout, image: Image, u: Update, n: nat)
    requires LayoutOk(l) && UpdateOk(l, u) && 1 <= n <= 4
    ensures StageIs(l, image, u, n, Stage(l, image, u, n))
  {
    hide StageIs, Stage;
    if n == 1 { JournalStage(l, image, u); }
    else if n == 2 { DataStage(l, image, u); }
    else if n == 3 { InodeStage(l, image, u); }
    else { CleanStage(l, image, u); }
  }

  lemma JournalRead(l: Layout, image: Image, u: Update, n: nat, now: Image)
    requires LayoutOk(l) && UpdateOk(l, u) && u.inode.id < U32_LIMIT && 1 <= n <= 4 && StageIs(l, image, u, n, now)
    ensures ParseJournal(l, JournalSection(l, now)) == JournalAt(u, n)
  {
    hide PendingSector, CleanSector, ParseJournal, Extent, WithMetadata, Section;
    PendingParses(l, u.inode.id, u.payload);
    CleanParses(l, PendingSector(l, u.inode.id, u.payload));
  }

  /** An update interrupted after any of its writes: the image still verifies, the target reports the length and
      checksum of the payload, and everything else is reported as before. */
  lemma CrashSafe(l: Layout, image: Image, u: Update, n: nat)
    requires LayoutOk(l) && Updates(l, image, u) && 1 <= n <= 4
    ensures UpdateOk(l, u) && Verify(l, Stage(l, image, u, n)) == Ok(Updated(l, image, u))
  {
    hide HeaderOk, WithMetadata, Checksum, SuperblockOk, FreeMapOk, GraphOk, InodesOk, Reports, ParseDirectory,
         ParseJournal, ParseInodeTable, DecodeInode, Entry, Section, Stage, PendingSector, CleanSector, Changed,
         NewReport, DirectoryIds, Extent, UpdateOk, Targets;
    UpdateFacts(l, image, u);
    StageHolds(l, image, u, n);
    var now := Stage(l, image, u, n);
    var inodes := ParseInodeTable(l, InodeSection(l, image)).value;
    var directory := ParseDirectory(l, Section(image, l.DirectorySector(), l.directorySectors)).value;
    var free := Section(image, l.FreeMapSector(), 1);
    JournalRead(l, image, u, n, now);
    ChangedGraph(inodes, u, directory);
    FilesAt(l, image, u, inodes, free, n, now);
    ReportsAt(l, image, u, inodes, free, n, now);
    TargetInJournal(l, inodes, u, n);
  }

  lemma TargetInJournal(l: Layout, inodes: Inodes, u: Update, n: nat)
    requires Targets(inodes, u) && UpdateOk(l, u)
    ensures JournalOk(InodesAt(inodes, u, n), JournalAt(u, n))
  {}

  /** What a reader that honours the journal gets for a file. */
  ghost function Contents(image: Image, inode: Inode, journal: Journal): seq<Byte> {
    if Replays(journal, inode.id) then journal.payload
    else if inode.firstSector + inode.sectorCount <= SECTORS && inode.size <= inode.sectorCount * SECTOR_SIZE then
      Data(image, inode)
    else []
  }

  /** The update is all or nothing: after any of its writes the target reads as the payload, and every other file
      reads as before. */
  lemma CrashContents(l: Layout, image: Image, u: Update, n: nat, id: nat)
    requires LayoutOk(l) && Updates(l, image, u) && UpdateOk(l, u) && 1 <= n <= 4
    requires id in FileIds(ParseInodeTable(l, InodeSection(l, image)).value)
    ensures var now, inodes := Stage(l, image, u, n), ParseInodeTable(l, InodeSection(l, image)).value;
            && ParseInodeTable(l, InodeSection(l, now)) == Some(InodesAt(inodes, u, n))
            && ParseJournal(l, JournalSection(l, now)) == JournalAt(u, n)
            && id in inodes && id in InodesAt(inodes, u, n)
            && Contents(now, InodesAt(inodes, u, n)[id], JournalAt(u, n))
               == if id == u.inode.id then u.payload else Contents(image, inodes[id], Clean)
  {
    hide HeaderOk, WithMetadata, Checksum, SuperblockOk, FreeMapOk, GraphOk, Reports, ParseDirectory, ParseJournal,
         ParseInodeTable, DecodeInode, Entry, Section, Stage, PendingSector, CleanSector, DirectoryIds;
    UpdateFacts(l, image, u);
    StageHolds(l, image, u, n);
    var now, inodes := Stage(l, image, u, n), ParseInodeTable(l, InodeSection(l, image)).value;
    JournalRead(l, image, u, n, now);
    if id == u.inode.id {
      assert n >= 2 ==> Extent(now, u.inode)[..|u.payload|] == u.payload;
    } else {
      assert Disjoint(u.inode, inodes[id]);
      assert OtherExtent(l, u, inodes[id]);
      assert Extent(now, inodes[id]) == Extent(image, inodes[id]);
    }
  }

  // ----- Paths end within as many parents as there are inodes -----

  lemma {:induction false} MoreFuel(inodes: Inodes, id: nat, n: nat, m: nat)
    requires InodePath(inodes, id, n).Some? && n <= m
    ensures InodePath(inodes, id, m) == InodePath(inodes, id, n)
    decreases n
  {
    if id != INODE_ROOT { MoreFuel(inodes, inodes[id].parent, n - 1, m - 1); }
  }

  ghost function Ending(inodes: Inodes, n: nat): set<nat> {
    set id | id in inodes && InodePath(inodes, id, n).Some?
  }

  lemma {:induction false} EndingGrows(inodes: Inodes, id: nat, n: nat)
    requires n > 0 && InodePath(inodes, id, n).Some? && InodePath(inodes, id, n - 1).None?
    ensures |Ending(inodes, n)| >= n
    decreases n
  {
    var smaller := Ending(inodes, n - 1);
    assert smaller <= Ending(inodes, n) by {
      forall j | j in smaller
        ensures j in Ending(inodes, n)
      {
        MoreFuel(inodes, j, n - 1, n);
      }
    }
    assert id in Ending(inodes, n) && id !in smaller;
    assert |Ending(inodes, n)| >= |smaller + {id}| by { Larger(smaller + {id}, Ending(inodes, n)); }
    if n > 1 {
      EndingGrows(inodes, inodes[id].parent, n - 1);
    }
  }

  lemma Larger(a: set<nat>, b: set<nat>)
    requires a <= b
    ensures |a| <= |b|
  {
    assert b == a + (b - a);
  }

  /** A path found with any number of parents is found with as many parents as there are inodes. */
  lemma {:induction false} FuelEnough(inodes: Inodes, id: nat, n: nat)
    requires InodePath(inodes, id, n).Some?
    ensures InodePath(inodes, id, |inodes|) == InodePath(inodes, id, n)
    decreases n
  {
    if n <= |inodes| {
      MoreFuel(inodes, id, n, |inodes|);
    } else if InodePath(inodes, id, n - 1).Some? {
      MoreFuel(inodes, id, n - 1, n);
      FuelEnough(inodes, id, n - 1);
    } else {
      EndingGrows(inodes, id, n);
      Larger(Ending(inodes, n), inodes.Keys);
    }
  }
}
