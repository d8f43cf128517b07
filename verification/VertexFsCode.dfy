/** The VertexFS tool's code: the parsers and checks as the loops they are, and the writers in place on an image
    buffer. */
module VertexFsCode {
  import opened Buffers
  import opened BufferCode
  import opened Bytes
  import opened Results
  import opened Text
  import opened VertexFs
  import opened VertexFsUpdate
  import opened VertexFsPaths

  // ----- Parsers -----

  method CheckHeader(l: Layout, magic: seq<Byte>, s: seq<Byte>) returns (ok: bool)
    requires |s| >= SECTOR_SIZE
    ensures ok <==> HeaderOk(l, magic, s)
  {
    ok := s[..16] == magic && Field(s, 16, 2) == l.version;
    if ok { ok := IsChecksumValid(s); }
  }

  method ReadInodes(s: seq<Byte>, count: nat) returns (r: Option<Inodes>)
    requires ENTRY_OFFSET + count * ENTRY_LEN <= |s|
    ensures r == InodesTo(s, count)
  {
    hide DecodeInode, Entry;
    var inodes: Inodes, index := map[], 0;
    while index < count
      invariant index <= count && InodesTo(s, index) == Some(inodes)
    {
      var inode := DecodeInode(Entry(s, index));
      if inode.None? || inode.value.id in inodes {
        StaysNone(s, index + 1, count);
        return None;
      }
      inodes := inodes[inode.value.id := inode.value];
      index := index + 1;
    }
    return Some(inodes);
  }

  lemma {:induction false} StaysNone(s: seq<Byte>, k: nat, n: nat)
    requires k <= n && ENTRY_OFFSET + n * ENTRY_LEN <= |s| && InodesTo(s, k).None?
    ensures InodesTo(s, n).None?
    decreases n
  {
    if k < n { StaysNone(s, k, n - 1); }
  }

  method ReadInodeTable(l: Layout, s: seq<Byte>) returns (r: Option<Inodes>)
    requires LayoutOk(l) && |s| == l.inodeSectors * SECTOR_SIZE
    ensures r == ParseInodeTable(l, s)
  {
    hide HeaderOk, InodesTo;
    r := None;
    var ok := CheckHeader(l, l.inodeMagic, s);
    if ok && Field(s, 18, 2) <= l.inodeLimit {
      var inodes := ReadInodes(s, Field(s, 18, 2));
      if inodes.Some? && INODE_ROOT in inodes.value {
        var root := inodes.value[INODE_ROOT];
        if root.kind == KIND_DIR && root.parent == 0 && root.name == [SLASH] { r := inodes; }
      }
    }
  }

  method ReadDirectoryEntries(s: seq<Byte>, count: nat) returns (r: Option<seq<DirectoryEntry>>)
    requires ENTRY_OFFSET + count * ENTRY_LEN <= |s|
    ensures r == DirectoryTo(s, count)
  {
    hide DecodeDirectoryEntry, Entry;
    var entries, index := [], 0;
    while index < count
      invariant index <= count && DirectoryTo(s, index) == Some(entries)
    {
      var entry := DecodeDirectoryEntry(Entry(s, index));
      if entry.None? {
        StaysUnread(s, index + 1, count);
        return None;
      }
      entries := entries + [entry.value];
      index := index + 1;
    }
    return Some(entries);
  }

  lemma {:induction false} StaysUnread(s: seq<Byte>, k: nat, n: nat)
    requires k <= n && ENTRY_OFFSET + n * ENTRY_LEN <= |s| && DirectoryTo(s, k).None?
    ensures DirectoryTo(s, n).None?
    decreases n
  {
    if k < n { StaysUnread(s, k, n - 1); }
  }

  method ReadDirectory(l: Layout, s: seq<Byte>) returns (r: Option<seq<DirectoryEntry>>)
    requires LayoutOk(l) && |s| == l.directorySectors * SECTOR_SIZE
    ensures r == ParseDirectory(l, s)
  {
    hide HeaderOk, DirectoryTo;
    r := None;
    var ok := CheckHeader(l, l.directoryMagic, s);
    if ok && Field(s, 18, 2) <= l.directoryLimit {
      r := ReadDirectoryEntries(s, Field(s, 18, 2));
    }
  }

  method ReadJournal(l: Layout, s: seq<Byte>) returns (r: Journal)
    requires LayoutOk(l) && |s| == SECTOR_SIZE
    ensures r == ParseJournal(l, s)
  {
    hide HeaderOk, LeValue, Checksum;
    r := Corrupt;
    var ok := CheckHeader(l, l.journalMagic, s);
    if ok && Field(s, 18, 2) == JOURNAL_STATE_CLEAN {
      r := Clean;
    } else if ok && Field(s, 18, 2) == JOURNAL_STATE_PENDING {
      var target, length, sum := Field(s, 24, 4), Field(s, 28, 4), Field(s, 32, 4);
      var replayable := l.replayRecord ==>
        Field(s, 40, 8) != 0 && Field(s, 48, 4) == target && Field(s, 52, 4) == length && Field(s, 56, 4) == sum;
      if replayable && JOURNAL_PAYLOAD_OFFSET + length <= SECTOR_SIZE {
        var payload := s[JOURNAL_PAYLOAD_OFFSET..JOURNAL_PAYLOAD_OFFSET + length];
        var actual := Checksum32(payload);
        if actual == sum { r := Pending(target, payload); }
      }
    }
  }

  method CheckFreeMap(l: Layout, s: seq<Byte>) returns (ok: bool)
    requires LayoutOk(l) && |s| == SECTOR_SIZE
    ensures ok <==> FreeMapOk(l, s)
  {
    hide HeaderOk, LeValue;
    ok := CheckHeader(l, l.freeMagic, s);
    if ok && Field(s, 18, 2) == SECTORS {
      var index := 0;
      while index < SECTORS
        invariant index <= SECTORS
        invariant forall i :: 0 <= i < index ==> MapByte(s, i) == 0 || MapByte(s, i) == 1
      {
        if MapByte(s, index) != 0 && MapByte(s, index) != 1 {
          return false;
        }
        index := index + 1;
      }
      var required := 0;
      while required <= l.JournalSector()
        invariant required <= l.JournalSector() + 1
        invariant forall i :: 0 <= i < required ==> MapByte(s, i) == 1
      {
        if MapByte(s, required) != 1 {
          return false;
        }
        required := required + 1;
      }
      return true;
    }
    return false;
  }

  // ----- Checks across sections -----

  method VerifyDirectoryGraph(inodes: Inodes, directory: seq<DirectoryEntry>) returns (ok: bool)
    ensures ok <==> GraphOk(inodes, directory)
  {
    ok := CheckEntries(inodes, directory);
    if ok { ok := CheckOrphans(inodes, directory); }
  }

  ghost predicate NamesDistinct(directory: seq<DirectoryEntry>, n: nat)
    requires n <= |directory|
  {
    forall i, j :: 0 <= i < j < n ==>
          directory[i].parent != directory[j].parent || directory[i].name != directory[j].name
  }

  ghost predicate NamesOf(names: set<(nat, seq<Byte>)>, directory: seq<DirectoryEntry>, n: nat)
    requires n <= |directory|
  {
    forall name :: name in names <==> exists i :: 0 <= i < n && name == (directory[i].parent, directory[i].name)
  }

  lemma NextName(names: set<(nat, seq<Byte>)>, directory: seq<DirectoryEntry>, n: nat)
    requires n < |directory| && NamesOf(names, directory, n) && NamesDistinct(directory, n)
    ensures NamesOf(names + {(directory[n].parent, directory[n].name)}, directory, n + 1)
    ensures NamesDistinct(directory, n + 1) <==> (directory[n].parent, directory[n].name) !in names
  {
    if (directory[n].parent, directory[n].name) in names {
      var i :| 0 <= i < n && (directory[n].parent, directory[n].name) == (directory[i].parent, directory[i].name);
      assert !NamesDistinct(directory, n + 1);
    }
  }

  method CheckEntries(inodes: Inodes, directory: seq<DirectoryEntry>) returns (ok: bool)
    ensures ok <==> NamesDistinct(directory, |directory|) && forall i :: 0 <= i < |directory| ==>
          EntryOk(inodes, directory[i])
  {
    hide NamesOf;
    var names: set<(nat, seq<Byte>)>, index := {}, 0;
    assert NamesOf(names, directory, 0) by { NoNames(directory); }
    while index < |directory|
      invariant index <= |directory|
      invariant forall i :: 0 <= i < index ==> EntryOk(inodes, directory[i])
      invariant NamesDistinct(directory, index) && NamesOf(names, directory, index)
    {
      var entry := directory[index];
      if entry.parent !in inodes || inodes[entry.parent].kind != KIND_DIR || entry.child !in inodes {
        assert !EntryOk(inodes, directory[index]);
        return false;
      }
      var child := inodes[entry.child];
      if child.parent != entry.parent || child.name != entry.name || child.kind != entry.kind {
        assert !EntryOk(inodes, directory[index]);
        return false;
      }
      NextName(names, directory, index);
      if (entry.parent, entry.name) in names {
        return false;
      }
      names := names + {(entry.parent, entry.name)};
      index := index + 1;
    }
    return true;
  }

  lemma NoNames(directory: seq<DirectoryEntry>)
    ensures NamesOf({}, directory, 0)
  {}

  method CheckOrphans(inodes: Inodes, directory: seq<DirectoryEntry>) returns (ok: bool)
    ensures ok <==> forall id :: id in inodes && id != INODE_ROOT ==>
          exists i :: 0 <= i < |directory| && directory[i].child == id
  {
    var todo := inodes.Keys;
    while todo != {}
      invariant todo <= inodes.Keys
      invariant forall id :: id in inodes && id !in todo && id != INODE_ROOT ==>
            exists i :: 0 <= i < |directory| && directory[i].child == id
      decreases |todo|
    {
      var id :| id in todo;
      if id != INODE_ROOT {
        var found := HasEntry(directory, id);
        if !found {
          return false;
        }
      }
      todo := todo - {id};
    }
    return true;
  }

  method HasEntry(directory: seq<DirectoryEntry>, id: nat) returns (found: bool)
    ensures found <==> exists i :: 0 <= i < |directory| && directory[i].child == id
  {
    var index := 0;
    while index < |directory|
      invariant index <= |directory| && forall i :: 0 <= i < index ==> directory[i].child != id
    {
      if directory[index].child == id {
        return true;
      }
      index := index + 1;
    }
    return false;
  }

  method VerifyJournal(inodes: Inodes, journal: Journal) returns (ok: bool)
    requires !journal.Corrupt?
    ensures ok <==> JournalOk(inodes, journal)
  {
    if journal.Clean? {
      return true;
    }
    if journal.target !in inodes || inodes[journal.target].kind != KIND_FILE {
      return false;
    }
    return |journal.payload| <= MAX_JOURNAL_FILE_BYTES
           && |journal.payload| <= inodes[journal.target].sectorCount * SECTOR_SIZE;
  }

  // ----- File extents -----

  ghost predicate Covers(inode: Inode, sector: nat) {
    inode.firstSector <= sector < inode.firstSector + inode.sectorCount
  }

  /** The sectors of the files in `done`. */
  ghost predicate UsedIs(used: set<nat>, inodes: Inodes, done: set<nat>) {
    forall s :: s in used <==>
                exists d :: d in done && d in inodes && inodes[d].kind == KIND_FILE && Covers(inodes[d], s)
  }

  /** Claims a file's sectors; fails if one is taken or marked free. */
  method ClaimSectors(used: set<nat>, free: seq<Byte>, first: nat, end: nat) returns (ok: bool, used': set<nat>)
    requires |free| == SECTOR_SIZE && end <= SECTORS
    ensures ok <==> forall s: nat :: first <= s < end ==> s !in used && MapByte(free, s) == 1
    ensures ok ==> forall s: nat :: s in used' <==> s in used || first <= s < end
  {
    used' := used;
    var sector := first;
    while sector < end
      invariant first <= sector && (sector <= end || sector == first)
      invariant forall s: nat :: first <= s < sector ==> s !in used && MapByte(free, s) == 1
      invariant forall s: nat :: s in used' <==> s in used || first <= s < sector
    {
      if sector in used' || MapByte(free, sector) != 1 {
        return false, used';
      }
      used' := used' + {sector};
      sector := sector + 1;
    }
    return true, used';
  }

  method ExtentStartsWith(image: Image, inode: Inode, payload: seq<Byte>) returns (ok: bool)
    requires inode.firstSector <= SECTORS
    ensures ok <==> payload <= image[inode.firstSector * SECTOR_SIZE..]
  {
    var start := inode.firstSector * SECTOR_SIZE;
    if start + |payload| > |image| {
      return false;
    }
    assert image[start..start + |payload|] == image[start..][..|payload|];
    return image[start..start + |payload|] == payload;
  }

  ghost predicate Unclaimed(used: set<nat>, inode: Inode) {
    forall s: nat :: Covers(inode, s) ==> s !in used
  }

  /** One file: its extent, its sectors, its data and its path. */
  method VerifyFile(l: Layout, image: Image, inodes: Inodes, free: seq<Byte>, journal: Journal, inode: Inode,
                    used: set<nat>)
    returns (r: Option<FileReport>, used': set<nat>)
    requires |free| == SECTOR_SIZE
    ensures r.Some? <==>
            FileOk(l, image, free, inode, journal) && InodePath(inodes, inode.id, |inodes|).Some?
            && Unclaimed(used, inode)
    ensures r.Some? ==> r.value == ReportOf(image, inodes, inode, InodePath(inodes, inode.id, |inodes|).value, journal)
    ensures r.Some? ==> forall s: nat :: s in used' <==> s in used || Covers(inode, s)
  {
    hide Checksum, InodePath, MapByte;
    r, used' := None, used;
    var end := inode.firstSector + inode.sectorCount;
    if inode.sectorCount != 0 && l.DataSector() <= inode.firstSector && end <= SECTORS
       && inode.size <= inode.sectorCount * SECTOR_SIZE {
      var claimed;
      claimed, used' := ClaimSectors(used, free, inode.firstSector, end);
      ClaimedIs(used, free, inode);
      if claimed {
        r := CheckData(image, inodes, journal, inode);
      }
    }
  }

  lemma ClaimedIs(used: set<nat>, free: seq<Byte>, inode: Inode)
    requires |free| == SECTOR_SIZE && inode.firstSector + inode.sectorCount <= SECTORS
    ensures (forall s: nat :: inode.firstSector <= s < inode.firstSector + inode.sectorCount ==>
          s !in used && MapByte(free, s) == 1)
       <==> Unclaimed(used, inode)
            && forall i :: inode.firstSector <= i < inode.firstSector + inode.sectorCount ==> MapByte(free, i) == 1
  {
    if Unclaimed(used, inode) {
      assert forall s: nat :: inode.firstSector <= s < inode.firstSector + inode.sectorCount ==> Covers(inode, s);
    }
  }

  method CheckData(image: Image, inodes: Inodes, journal: Journal, inode: Inode) returns (r: Option<FileReport>)
    requires inode.firstSector + inode.sectorCount <= SECTORS && inode.size <= inode.sectorCount * SECTOR_SIZE
    ensures r.Some? <==> DataOk(image, inode, journal) && InodePath(inodes, inode.id, |inodes|).Some?
    ensures r.Some? ==> r.value == ReportOf(image, inodes, inode, InodePath(inodes, inode.id, |inodes|).value, journal)
  {
    hide Checksum, InodePath;
    var start := inode.firstSector * SECTOR_SIZE;
    var data := image[start..start + inode.size];
    assert data == Data(image, inode);
    var stored := Checksum32(data);
    var replays := journal.Pending? && journal.target == inode.id;
    var ok := stored == inode.checksum;
    if !ok && replays { ok := ExtentStartsWith(image, inode, journal.payload); }
    var path := InodePath(inodes, inode.id, |inodes|);
    if ok && path.Some? {
      var reported := if replays then journal.payload else data;
      var sum := Checksum32(reported);
      return Some(FileReport(path.value, |reported|, sum, inode.firstSector, inode.sectorCount));
    }
    return None;
  }

  ghost predicate InodeOk(l: Layout, image: Image, inodes: Inodes, free: seq<Byte>, journal: Journal, id: nat)
    requires |free| == SECTOR_SIZE && id in inodes
  {
    || (inodes[id].kind == KIND_DIR && DirectoryOk(inodes[id]))
    || (inodes[id].kind == KIND_FILE && FileOk(l, image, free, inodes[id], journal)
        && InodePath(inodes, id, |inodes|).Some?)
  }

  /** The inodes in `done` pass every check. */
  ghost predicate DoneOk(l: Layout, image: Image, inodes: Inodes, free: seq<Byte>, journal: Journal, done: set<nat>)
    requires |free| == SECTOR_SIZE
  {
    && (forall id :: id in done ==> id in inodes && InodeOk(l, image, inodes, free, journal, id))
    && (forall a, b :: a in done && b in done && a != b ==>
          inodes[a].kind == KIND_FILE && inodes[b].kind == KIND_FILE ==> Disjoint(inodes[a], inodes[b]))
  }

  lemma AllDone(l: Layout, image: Image, inodes: Inodes, free: seq<Byte>, journal: Journal)
    requires |free| == SECTOR_SIZE
    ensures InodesOk(l, image, inodes, free, journal) <==> DoneOk(l, image, inodes, free, journal, inodes.Keys)
  {
    hide FileOk, InodePath, DirectoryOk, Disjoint;
    if InodesOk(l, image, inodes, free, journal) {
      forall id | id in inodes
        ensures InodeOk(l, image, inodes, free, journal, id)
      {}
    }
    if DoneOk(l, image, inodes, free, journal, inodes.Keys) {
      forall id | id in inodes
        ensures InodeOk(l, image, inodes, free, journal, id)
      {}
    }
  }

  lemma DoneShrinks(l: Layout, image: Image, inodes: Inodes, free: seq<Byte>, journal: Journal, done: set<nat>,
                    all: set<nat>)
    requires |free| == SECTOR_SIZE && DoneOk(l, image, inodes, free, journal, all) && done <= all
    ensures DoneOk(l, image, inodes, free, journal, done)
  {
    hide InodeOk, Disjoint;
  }

  /** A file fits beside those done exactly when none of its sectors is used. */
  lemma FitsBeside(inodes: Inodes, done: set<nat>, used: set<nat>, id: nat)
    requires id in inodes && inodes[id].kind == KIND_FILE && UsedIs(used, inodes, done) && done <= inodes.Keys
    requires forall d :: d in done && inodes[d].kind == KIND_FILE ==> inodes[d].sectorCount > 0
    requires inodes[id].sectorCount > 0
    ensures Unclaimed(used, inodes[id]) <==> forall d :: d in done && inodes[d].kind == KIND_FILE ==>
          Disjoint(inodes[d], inodes[id])
  {
    if Unclaimed(used, inodes[id]) {
      forall d | d in done && inodes[d].kind == KIND_FILE
        ensures Disjoint(inodes[d], inodes[id])
      {
        if !Disjoint(inodes[d], inodes[id]) {
          var s := if inodes[d].firstSector < inodes[id].firstSector then inodes[id].firstSector
          else inodes[d].firstSector;
          assert Covers(inodes[d], s) && Covers(inodes[id], s);
        }
      }
    }
  }

  lemma OneMoreDone(l: Layout, image: Image, inodes: Inodes, free: seq<Byte>, journal: Journal, done: set<nat>,
                    used: set<nat>, id: nat)
    requires |free| == SECTOR_SIZE && DoneOk(l, image, inodes, free, journal, done) && UsedIs(used, inodes, done)
    requires id in inodes && id !in done
    ensures DoneOk(l, image, inodes, free, journal, done + {id})
            <==>
            InodeOk(l, image, inodes, free, journal, id)
            && (inodes[id].kind == KIND_FILE ==> Unclaimed(used, inodes[id]))
  {
    hide UsedIs, Unclaimed, InodePath, DataOk, Disjoint;
    forall d | d in done && inodes[d].kind == KIND_FILE
      ensures inodes[d].sectorCount > 0
    {
      assert InodeOk(l, image, inodes, free, journal, d);
    }
    DisjointSwaps(inodes, done, id);
    if InodeOk(l, image, inodes, free, journal, id) && inodes[id].kind == KIND_FILE {
      FitsBeside(inodes, done, used, id);
    }
    hide InodeOk;
    assert DoneOk(l, image, inodes, free, journal, done + {id}) ==> InodeOk(l, image, inodes, free, journal, id);
  }

  lemma DisjointSwaps(inodes: Inodes, done: set<nat>, id: nat)
    requires id in inodes && done <= inodes.Keys
    ensures forall d :: d in done ==> (Disjoint(inodes[d], inodes[id]) <==> Disjoint(inodes[id], inodes[d]))
  {}

  lemma UsedGrows(used: set<nat>, used': set<nat>, inodes: Inodes, done: set<nat>, id: nat)
    requires id in inodes && inodes[id].kind == KIND_FILE && UsedIs(used, inodes, done)
    requires forall s: nat :: s in used' <==> s in used || Covers(inodes[id], s)
    ensures UsedIs(used', inodes, done + {id})
  {
    forall s: nat
      ensures s in used' <==>
              exists d :: d in done + {id} && d in inodes && inodes[d].kind == KIND_FILE && Covers(inodes[d], s)
    {
      if Covers(inodes[id], s) { assert id in done + {id}; }
      if s in used {
        var d :| d in done && d in inodes && inodes[d].kind == KIND_FILE && Covers(inodes[d], s);
        assert d in done + {id};
      }
    }
  }

  lemma UsedStays(used: set<nat>, inodes: Inodes, done: set<nat>, id: nat)
    requires id in inodes && inodes[id].kind != KIND_FILE && UsedIs(used, inodes, done)
    ensures UsedIs(used, inodes, done + {id})
  {
    forall s: nat
      ensures s in used <==>
              exists d :: d in done + {id} && d in inodes && inodes[d].kind == KIND_FILE && Covers(inodes[d], s)
    {
      if s in used {
        var d :| d in done && d in inodes && inodes[d].kind == KIND_FILE && Covers(inodes[d], s);
        assert d in done + {id};
      }
    }
  }

  /** The reports of the files in `done`. */
  ghost predicate ReportsOf(reports: map<nat, FileReport>, image: Image, inodes: Inodes, journal: Journal,
                            done: set<nat>) {
    && (forall id :: id in reports <==> id in done && id in inodes && inodes[id].kind == KIND_FILE)
    && (forall id :: id in reports ==>
          reports[id] == ReportOf(image, inodes, inodes[id], PathOrEmpty(inodes, id), journal))
  }

  /** The inode checked next: the smallest id left. */
  method VerifyInode(l: Layout, image: Image, inodes: Inodes, free: seq<Byte>, journal: Journal, id: nat,
                     used: set<nat>, reports: map<nat, FileReport>, ghost done: set<nat>)
    returns (ok: bool, used': set<nat>, reports': map<nat, FileReport>)
    requires |free| == SECTOR_SIZE && id in inodes && inodes[id].id == id && id !in done
    requires DoneOk(l, image, inodes, free, journal, done) && UsedIs(used, inodes, done)
             && ReportsOf(reports, image, inodes, journal, done)
    ensures ok <==> DoneOk(l, image, inodes, free, journal, done + {id})
    ensures ok ==> UsedIs(used', inodes, done + {id}) && ReportsOf(reports', image, inodes, journal, done + {id})
  {
    hide DoneOk, UsedIs, Unclaimed, InodePath, FileOk, ReportOf;
    OneMoreDone(l, image, inodes, free, journal, done, used, id);
    var inode := inodes[id];
    ok, used', reports' := false, used, reports;
    if inode.kind == KIND_DIR {
      ok := inode.size == 0 && inode.firstSector == 0 && inode.sectorCount == 0;
      UsedStays(used, inodes, done, id);
    } else if inode.kind == KIND_FILE {
      var report;
      report, used' := VerifyFile(l, image, inodes, free, journal, inode, used);
      if report.Some? {
        UsedGrows(used, used', inodes, done, id);
        ok, reports' := true, reports[id := report.value];
      }
    }
  }

  method VerifyFileExtents(l: Layout, image: Image, inodes: Inodes, free: seq<Byte>, journal: Journal)
    returns (r: Option<map<nat, FileReport>>)
    requires |free| == SECTOR_SIZE && forall id :: id in inodes ==> inodes[id].id == id
    ensures r.Some? <==> InodesOk(l, image, inodes, free, journal)
    ensures r.Some? ==> r.value == Reports(image, inodes, journal)
  {
    hide Least, DoneOk, UsedIs, InodesOk, ReportsOf, Reports;
    AllDone(l, image, inodes, free, journal);
    NothingDone(l, image, inodes, free, journal);
    var used: set<nat>, reports: map<nat, FileReport>, todo := {}, map[], inodes.Keys;
    ghost var done: set<nat> := {};
    while todo != {}
      invariant done + todo == inodes.Keys && done !! todo
      invariant DoneOk(l, image, inodes, free, journal, done) && UsedIs(used, inodes, done)
                && ReportsOf(reports, image, inodes, journal, done)
      decreases |todo|
    {
      ghost var least := Least(todo);
      var id :| id in todo && forall j :: j in todo ==> id <= j;
      var ok;
      ok, used, reports := VerifyInode(l, image, inodes, free, journal, id, used, reports, done);
      if !ok {
        if DoneOk(l, image, inodes, free, journal, inodes.Keys) {
          DoneShrinks(l, image, inodes, free, journal, done + {id}, inodes.Keys);
        }
        return None;
      }
      todo, done := todo - {id}, done + {id};
    }
    assert done == inodes.Keys;
    AllReported(reports, image, inodes, journal);
    return Some(reports);
  }

  lemma NothingDone(l: Layout, image: Image, inodes: Inodes, free: seq<Byte>, journal: Journal)
    requires |free| == SECTOR_SIZE
    ensures DoneOk(l, image, inodes, free, journal, {}) && UsedIs({}, inodes, {})
            && ReportsOf(map[], image, inodes, journal, {})
  {}

  lemma AllReported(reports: map<nat, FileReport>, image: Image, inodes: Inodes, journal: Journal)
    requires ReportsOf(reports, image, inodes, journal, inodes.Keys)
    ensures reports == Reports(image, inodes, journal)
  {
    hide ReportOf, PathOrEmpty;
  }

  // ----- verify -----

  method CheckSuperblock(l: Layout, s: seq<Byte>) returns (ok: bool)
    requires LayoutOk(l) && |s| == SECTOR_SIZE
    ensures ok <==> SuperblockOk(l, s)
  {
    hide HeaderOk, LeValue, FixedString;
    ok := CheckHeader(l, l.superMagic, s);
    ok := ok && Field(s, 18, 2) == SECTOR_SIZE && Field(s, 24, 4) == SECTORS && Field(s, 28, 4) == l.featureFlags
          && (l.namesVolume ==> FixedString(s[32..96]).Some?)
          && SectionIs(s, l.sectionTable, 0, INODE_TABLE_SECTOR, l.inodeSectors)
          && SectionIs(s, l.sectionTable, 1, l.DirectorySector(), l.directorySectors)
          && SectionIs(s, l.sectionTable, 2, l.FreeMapSector(), 1)
          && SectionIs(s, l.sectionTable, 3, l.JournalSector(), 1)
          && SectionIs(s, l.sectionTable, 4, l.DataSector(), SECTORS - l.DataSector())
          && FixedString(s[l.generationOffset..l.generationOffset + 64]).Some?;
  }

  method VerifyImage(l: Layout, image: Image) returns (r: Result<Report, FsError>)
    requires LayoutOk(l)
    ensures r == Verify(l, image)
  {
    hide SuperblockOk, ParseInodeTable, ParseDirectory, ParseJournal, FreeMapOk, GraphOk, JournalOk, InodesOk, Reports,
         Section, FixedString;
    var super, free := Section(image, 0, 1), Section(image, l.FreeMapSector(), 1);
    var superOk := CheckSuperblock(l, super);
    var inodes := ReadInodeTable(l, Section(image, INODE_TABLE_SECTOR, l.inodeSectors));
    var directory := ReadDirectory(l, Section(image, l.DirectorySector(), l.directorySectors));
    var journal := ReadJournal(l, Section(image, l.JournalSector(), 1));
    var freeOk := CheckFreeMap(l, free);
    if !superOk {
      r := Err(BadSuperblock);
    } else if inodes.None? {
      r := Err(BadInodeTable);
    } else if directory.None? {
      r := Err(BadDirectory);
    } else if journal.Corrupt? {
      r := Err(BadJournal);
    } else if !freeOk {
      r := Err(BadFreeMap);
    } else {
      GenerationReadable(l, super);
      var generation := FixedString(super[l.generationOffset..l.generationOffset + 64]).value;
      ParsedIds(l, Section(image, INODE_TABLE_SECTOR, l.inodeSectors));
      r := VerifyParsed(l, image, generation, inodes.value, directory.value, free, journal);
    }
  }

  lemma GenerationReadable(l: Layout, s: seq<Byte>)
    requires LayoutOk(l) && |s| == SECTOR_SIZE && SuperblockOk(l, s)
    ensures FixedString(s[l.generationOffset..l.generationOffset + 64]).Some?
  {}

  lemma ParsedIds(l: Layout, s: seq<Byte>)
    requires LayoutOk(l) && |s| == l.inodeSectors * SECTOR_SIZE && ParseInodeTable(l, s).Some?
    ensures forall id :: id in ParseInodeTable(l, s).value ==> ParseInodeTable(l, s).value[id].id == id
  {
    hide HeaderOk, InodesTo;
    IdsMatch(s, Field(s, 18, 2));
  }

  /** The checks across sections. */
  method VerifyParsed(l: Layout, image: Image, generation: seq<Byte>, inodes: Inodes, directory: seq<DirectoryEntry>,
                      free: seq<Byte>, journal: Journal) returns (r: Result<Report, FsError>)
    requires |free| == SECTOR_SIZE && !journal.Corrupt? && forall id :: id in inodes ==> inodes[id].id == id
    ensures r == if !GraphOk(inodes, directory) then Err(BadGraph)
                 else if !JournalOk(inodes, journal) then Err(BadJournalTarget)
                 else if !InodesOk(l, image, inodes, free, journal) then Err(BadFiles)
                 else Ok(Report(l.version, generation, l.featureFlags, |DirectoryIds(inodes)|,
                                Reports(image, inodes, journal)))
  {
    hide GraphOk, JournalOk, InodesOk, Reports, DirectoryIds;
    var graphOk := VerifyDirectoryGraph(inodes, directory);
    if !graphOk {
      return Err(BadGraph);
    }
    var journalOk := VerifyJournal(inodes, journal);
    if !journalOk {
      return Err(BadJournalTarget);
    }
    var files := VerifyFileExtents(l, image, inodes, free, journal);
    if files.None? {
      return Err(BadFiles);
    }
    return Ok(Report(l.version, generation, l.featureFlags, |DirectoryIds(inodes)|, files.value));
  }

  // ----- Writers -----

  method WriteMarks(l: Layout, a: array<Byte>, base: nat, state: nat, ghost image: Image, ghost s: seq<Byte>)
    requires LayoutOk(l) && a.Length == |image| && |s| == SECTOR_SIZE && base + SECTOR_SIZE <= |image|
             && a[..] == Put(image, base, s)
    modifies a
    ensures a[..] == Put(image, base, Marked(l, s, state))
  {
    hide Put, LeBytes;
    WriteInSection(a, base, 0, l.journalMagic, image, s);
    ghost var s1 := Put(s, 0, l.journalMagic);
    WriteInSection(a, base, 16, LeBytes(l.version, 2), image, s1);
    WriteInSection(a, base, 18, LeBytes(state, 2), image, PutField(s1, 16, 2, l.version));
  }

  method WriteAddress(l: Layout, a: array<Byte>, base: nat, target: nat, payload: seq<Byte>, ghost image: Image,
                      ghost s: seq<Byte>)
    requires a.Length == |image| && |s| == SECTOR_SIZE && base + SECTOR_SIZE <= |image| && a[..] == Put(image, base, s)
    modifies a
    ensures a[..] == Put(image, base, Addressed(l, s, target, payload))
  {
    hide Put, LeBytes, Checksum;
    var sum := Checksum32(payload);
    WriteInSection(a, base, 24, LeBytes(target, 4), image, s);
    ghost var s1 := PutField(s, 24, 4, target);
    WriteInSection(a, base, 28, LeBytes(|payload|, 4), image, s1);
    ghost var s2 := PutField(s1, 28, 4, |payload|);
    WriteInSection(a, base, 32, LeBytes(sum, 4), image, s2);
    ghost var s3 := PutField(s2, 32, 4, sum);
    if l.replayRecord {
      WriteInSection(a, base, 40, LeBytes(1, 8), image, s3);
      ghost var s4 := PutField(s3, 40, 8, 1);
      WriteInSection(a, base, 48, LeBytes(target, 4), image, s4);
      ghost var s5 := PutField(s4, 48, 4, target);
      WriteInSection(a, base, 52, LeBytes(|payload|, 4), image, s5);
      WriteInSection(a, base, 56, LeBytes(sum, 4), image, PutField(s5, 52, 4, |payload|));
    }
  }

  method WriteJournalPending(l: Layout, a: array<Byte>, target: nat, payload: seq<Byte>, ghost image: Image)
    requires LayoutOk(l) && |payload| <= MAX_JOURNAL_FILE_BYTES && a.Length == |image| && a[..] == image
    modifies a
    ensures a[..] == PutSection(image, l.JournalSector(), PendingSector(l, target, payload))
  {
    hide Put, Marked, Addressed, Sealed;
    var base := l.JournalSector() * SECTOR_SIZE;
    WriteBytes(a, base, Zeros(SECTOR_SIZE));
    ghost var marked := Marked(l, Zeros(SECTOR_SIZE), JOURNAL_STATE_PENDING);
    WriteMarks(l, a, base, JOURNAL_STATE_PENDING, image, Zeros(SECTOR_SIZE));
    ghost var addressed := Addressed(l, marked, target, payload);
    WriteAddress(l, a, base, target, payload, image, marked);
    WriteInSection(a, base, JOURNAL_PAYLOAD_OFFSET, payload, image, addressed);
    WriteChecksum(a, base, SECTOR_SIZE, image, Put(addressed, JOURNAL_PAYLOAD_OFFSET, payload));
  }

  method WriteJournalClean(l: Layout, a: array<Byte>, ghost image: Image)
    requires LayoutOk(l) && a.Length == |image| && a[..] == image
    modifies a
    ensures a[..] == WithCleanJournal(l, image)
  {
    hide Put, Marked, Sealed;
    var base := l.JournalSector() * SECTOR_SIZE;
    PutSelf(image, base, SECTOR_SIZE);
    ghost var s := JournalSection(l, image);
    WriteMarks(l, a, base, JOURNAL_STATE_CLEAN, image, s);
    WriteChecksum(a, base, SECTOR_SIZE, image, Marked(l, s, JOURNAL_STATE_CLEAN));
  }

  method WriteFilePayload(l: Layout, a: array<Byte>, ghost u: Update, inode: Inode, payload: seq<Byte>,
                          ghost image: Image)
    requires LayoutOk(l) && UpdateOk(l, u) && u.inode == inode && u.payload == payload && a.Length == |image|
             && a[..] == image
    modifies a
    ensures a[..] == WithData(l, image, u)
  {
    hide Put;
    var start, length := inode.firstSector * SECTOR_SIZE, inode.sectorCount * SECTOR_SIZE;
    WriteBytes(a, start, Zeros(length));
    WriteInSection(a, start, 0, payload, image, Zeros(length));
    PaddedIs(u);
  }

  lemma PaddedIs(u: Update)
    requires |u.payload| <= u.inode.sectorCount * SECTOR_SIZE
    ensures Put(Zeros(u.inode.sectorCount * SECTOR_SIZE), 0, u.payload) == Padded(u)
  {}

  method WriteInodeMetadata(l: Layout, a: array<Byte>, index: nat, payload: seq<Byte>, ghost image: Image,
                            ghost u: Update)
    requires LayoutOk(l) && UpdateOk(l, u) && u.k == index && u.payload == payload && a.Length == |image|
             && a[..] == image
    modifies a
    ensures a[..] == WithInode(l, image, u)
  {
    hide Put, Sealed, Checksum, LeBytes;
    var base, n, offset := INODE_TABLE_SECTOR * SECTOR_SIZE, l.inodeSectors * SECTOR_SIZE,
                           ENTRY_OFFSET + index * ENTRY_LEN;
    PutSelf(image, base, n);
    ghost var s := InodeSection(l, image);
    WriteInSection(a, base, offset + 8, LeBytes(|payload|, 8), image, s);
    ghost var s1 := PutField(s, offset + 8, 8, |payload|);
    var sum := Checksum32(payload);
    WriteInSection(a, base, offset + 28, LeBytes(sum, 4), image, s1);
    WriteChecksum(a, base, n, image, PutField(s1, offset + 28, 4, sum));
  }

  // ----- update -----

  /** The entry of the inode table with an id. */
  method InodeOffsetById(s: seq<Byte>, count: nat, id: nat) returns (index: Option<nat>)
    requires ENTRY_OFFSET + count * ENTRY_LEN <= |s|
    ensures index.Some? ==> index.value < count && Field(Entry(s, index.value), 0, 4) == id
    ensures index.None? ==> forall k: nat :: k < count ==> Field(Entry(s, k), 0, 4) != id
  {
    hide LeValue, Entry;
    var k := 0;
    while k < count
      invariant k <= count && forall j: nat :: j < k ==> Field(Entry(s, j), 0, 4) != id
    {
      if Field(Entry(s, k), 0, 4) == id {
        return Some(k);
      }
      k := k + 1;
    }
    return None;
  }

  /** Every inode comes from an entry, and only one entry has its id. */
  lemma {:induction false} EntryOfInode(s: seq<Byte>, n: nat, id: nat)
    requires ENTRY_OFFSET + n * ENTRY_LEN <= |s| && InodesTo(s, n).Some? && id in InodesTo(s, n).value
    ensures exists k: nat :: k < n && Field(Entry(s, k), 0, 4) == id
    ensures forall k: nat :: k < n && Field(Entry(s, k), 0, 4) == id ==>
          DecodeInode(Entry(s, k)) == Some(InodesTo(s, n).value[id])
  {
    hide Entry, LeValue, FixedString;
    var inodes := InodesTo(s, n - 1).value;
    var last := DecodeInode(Entry(s, n - 1)).value;
    if last.id == id {
      forall k: nat | k < n - 1
        ensures Field(Entry(s, k), 0, 4) != id
      {
        EntryHasId(s, n - 1, k);
      }
    } else {
      EntryOfInode(s, n - 1, id);
    }
  }

  lemma {:induction false} EntryHasId(s: seq<Byte>, n: nat, k: nat)
    requires k < n && ENTRY_OFFSET + n * ENTRY_LEN <= |s| && InodesTo(s, n).Some?
    ensures Field(Entry(s, k), 0, 4) in InodesTo(s, n).value
  {
    hide Entry, LeValue, FixedString;
    if k < n - 1 { EntryHasId(s, n - 1, k); }
  }

  /** What looking a path up comes to. The original does not come back where the model says endless. */
  datatype Lookup = Found(id: nat) | Missing | Endless

  /** Finds the first inode of a path, or that there is none, unless a walk before that has no end. */
  method InodeByPath(inodes: Inodes, path: seq<Byte>) returns (r: Lookup)
    ensures r == Endless <==> !LookupEnds(inodes, path)
    ensures r.Found? ==> IsFirst(inodes, path, r.id)
    ensures r == Missing ==> forall id :: !HasPath(inodes, path, id)
  {
    hide InodePath, Remaining, Tried, IsFirst, Least;
    var todo := inodes.Keys;
    AllRemain(inodes, path);
    while todo != {}
      invariant Remaining(inodes, path, todo)
      invariant forall j :: j in inodes && j !in todo ==> InodePath(inodes, j, |inodes|).Some?
      decreases |todo|
    {
      AllExist(inodes, path, todo);
      ghost var least := Least(todo);
      var id :| id in todo && forall j :: j in todo ==> id <= j;
      RemainingStep(inodes, path, todo, id);
      var found := InodePath(inodes, id, |inodes|);
      if found.None? {
        return Endless;
      }
      if found.value == path {
        TriedExist(inodes, path);
        return Found(id);
      }
      todo := todo - {id};
    }
    NothingRemains(inodes, path);
    TriedExist(inodes, path);
    return Missing;
  }

  datatype UpdateError =
    | NotVerified(error: FsError) | PendingJournal | EndlessLookup | NoSuchPath | NotAFile | TooLargeForJournal
    | ExceedsExtent

  /** Why an update is refused, in the order of the checks; nothing if it is not. */
  ghost predicate Refused(l: Layout, image: Image, path: seq<Byte>, payload: seq<Byte>, error: UpdateError)
    requires LayoutOk(l)
  {
    var report, inodes := Verify(l, image), ParseInodeTable(l, InodeSection(l, image));
    if report.Err? then error == NotVerified(report.error)
    else if ParseJournal(l, JournalSection(l, image)) != Clean || inodes.None? then error == PendingJournal
    else if !LookupEnds(inodes.value, path) then error == EndlessLookup
    else if forall id :: !HasPath(inodes.value, path, id) then error == NoSuchPath
    else exists id :: IsFirst(inodes.value, path, id) && Misfit(inodes.value[id], payload) == Some(error)
  }

  function Misfit(inode: Inode, payload: seq<Byte>): Option<UpdateError> {
    if inode.kind != KIND_FILE then Some(NotAFile)
    else if |payload| > MAX_JOURNAL_FILE_BYTES then Some(TooLargeForJournal)
    else if |payload| > inode.sectorCount * SECTOR_SIZE then Some(ExceedsExtent)
    else None
  }

  /** When an update goes through: the image verifies with a clean journal, the lookup of the path ends, and the
      first inode of the path is a file the payload fits in. */
  ghost predicate CanUpdate(l: Layout, image: Image, path: seq<Byte>, payload: seq<Byte>)
    requires LayoutOk(l)
  {
    && Verify(l, image).Ok? && ParseJournal(l, JournalSection(l, image)) == Clean
    && ParseInodeTable(l, InodeSection(l, image)).Some?
    && var inodes := ParseInodeTable(l, InodeSection(l, image)).value;
    LookupEnds(inodes, path) && exists id :: IsFirst(inodes, path, id) && Misfit(inodes[id], payload) == None
  }

  /** The four writes, in place. */
  method WriteUpdate(l: Layout, image: Image, u: Update) returns (out: Image)
    requires LayoutOk(l) && UpdateOk(l, u)
    ensures out == Stage(l, image, u, 4)
  {
    hide PutSection, PendingSector, WithData, WithInode, WithCleanJournal;
    var a := new Byte[IMAGE_BYTES](i requires 0 <= i < IMAGE_BYTES => image[i]);
    assert a[..] == image;
    WriteJournalPending(l, a, u.inode.id, u.payload, image);
    WriteFilePayload(l, a, u, u.inode, u.payload, Stage(l, image, u, 1));
    WriteInodeMetadata(l, a, u.k, u.payload, Stage(l, image, u, 2), u);
    WriteJournalClean(l, a, Stage(l, image, u, 3));
    out := a[..];
  }

  /** Updates a file of an image. */
  method UpdateImage(l: Layout, image: Image, path: seq<Byte>, payload: seq<Byte>)
    returns (r: Result<Image, UpdateError>, ghost u: Update)
    requires LayoutOk(l)
    ensures r.Ok? <==> CanUpdate(l, image, path, payload)
    ensures r.Err? ==> Refused(l, image, path, payload, r.error)
    ensures r.Ok? ==>
              && Updates(l, image, u) && UpdateOk(l, u) && u.payload == payload
              && IsFirst(ParseInodeTable(l, InodeSection(l, image)).value, path, u.inode.id)
              && r.value == Stage(l, image, u, 4) && Verify(l, r.value) == Ok(Updated(l, image, u))
  {
    hide ParseInodeTable, ParseJournal, HasPath, LookupEnds, Stage, Updated, Section, Verify, LayoutOk, UpdateOk,
         IsFirst;
    u := Update(Inode(0, 0, 0, 0, 0, 0, 0, []), 0, payload);
    var report := VerifyImage(l, image);
    var inodes := ReadInodeTable(l, InodeSection(l, image));
    var journal := ReadJournal(l, JournalSection(l, image));
    if report.Err? {
      r := Err(NotVerified(report.error));
    } else if journal != Clean {
      r := Err(PendingJournal);
    } else {
      VerifiedParses(l, image);
      var found := InodeByPath(inodes.value, path);
      if found == Endless {
        r := Err(EndlessLookup);
      } else if found == Missing {
        NoFirst(inodes.value, path);
        r := Err(NoSuchPath);
      } else {
        OneFirst(inodes.value, path, found.id);
        var misfit := Misfit(inodes.value[found.id], payload);
        if misfit.Some? {
          r := Err(misfit.value);
        } else {
          var entry := FindEntry(l, InodeSection(l, image), found.id);
          u := Update(inodes.value[found.id], entry, payload);
          UpdateFacts(l, image, u);
          var out := WriteUpdate(l, image, Update(inodes.value[found.id], entry, payload));
          CrashSafe(l, image, u, 4);
          var again := VerifyImage(l, out);
          assert again.Ok?;
          r := Ok(out);
        }
      }
    }
  }

  lemma VerifiedParses(l: Layout, image: Image)
    requires LayoutOk(l) && Verify(l, image).Ok?
    ensures ParseInodeTable(l, InodeSection(l, image)).Some?
    ensures Field(InodeSection(l, image), 18, 2) <= l.inodeLimit
  {}

  lemma OneFirst(inodes: Inodes, path: seq<Byte>, id: nat)
    requires IsFirst(inodes, path, id)
    ensures id in inodes && HasPath(inodes, path, id) && forall j :: IsFirst(inodes, path, j) ==> j == id
  {}

  lemma NoFirst(inodes: Inodes, path: seq<Byte>)
    requires forall id :: !HasPath(inodes, path, id)
    ensures forall id :: !IsFirst(inodes, path, id)
  {}

  method FindEntry(l: Layout, s: seq<Byte>, id: nat) returns (k: nat)
    requires LayoutOk(l) && |s| == l.inodeSectors * SECTOR_SIZE && ParseInodeTable(l, s).Some?
             && id in ParseInodeTable(l, s).value
    ensures k < Field(s, 18, 2) <= l.inodeLimit && ENTRY_OFFSET + k * ENTRY_LEN + ENTRY_LEN <= |s|
    ensures DecodeInode(Entry(s, k)) == Some(ParseInodeTable(l, s).value[id])
  {
    hide HeaderOk, InodesTo, DecodeInode, Entry, LeValue;
    EntryOfInode(s, Field(s, 18, 2), id);
    var found := InodeOffsetById(s, Field(s, 18, 2), id);
    k := found.value;
  }

  // ----- Choosing the format -----

  /** The format a buffer claims to have. */
  function FormatOf(bytes: seq<Byte>): Layout {
    if V2.superMagic <= bytes || (|bytes| >= 18 && bytes[16..18] == [2, 0]) then V2 else V1
  }

  method UpdateFile(bytes: seq<Byte>, path: seq<Byte>, payload: seq<Byte>)
    returns (r: Result<Image, UpdateError>, ghost u: Update)
    ensures LayoutOk(FormatOf(bytes))
    ensures r.Ok? <==> |bytes| == IMAGE_BYTES && CanUpdate(FormatOf(bytes), bytes, path, payload)
    ensures r.Ok? ==>
              && Updates(FormatOf(bytes), bytes, u) && UpdateOk(FormatOf(bytes), u) && u.payload == payload
              && r.value == Stage(FormatOf(bytes), bytes, u, 4)
  {
    hide CanUpdate, Refused, Updates, UpdateOk, Stage, LayoutOk, Verify, Updated, IsFirst;
    FormatsOk();
    u := Update(Inode(0, 0, 0, 0, 0, 0, 0, []), 0, payload);
    if |bytes| != IMAGE_BYTES {
      r := Err(NotVerified(BadSuperblock));
    } else {
      r, u := UpdateImage(FormatOf(bytes), bytes, path, payload);
    }
  }

  /** No write of an update changes which format the image is taken for. */
  lemma FormatKept(image: Image, u: Update, n: nat)
    requires LayoutOk(FormatOf(image)) && UpdateOk(FormatOf(image), u) && n <= 4
    ensures FormatOf(Stage(FormatOf(image), image, u, n)) == FormatOf(image)
  {
    hide UpdateOk;
    var l := FormatOf(image);
    if n > 0 {
      StageHolds(l, image, u, n);
      hide Stage;
      FirstSectorDecides(image, Stage(l, image, u, n));
    }
  }

  lemma FirstSectorDecides(image: Image, now: Image)
    requires Section(now, 0, 1) == Section(image, 0, 1)
    ensures FormatOf(now) == FormatOf(image)
  {
    assert forall i :: 0 <= i < SECTOR_SIZE ==> now[i] == Section(now, 0, 1)[i] && image[i] == Section(image, 0, 1)[i];
    assert now[16..18] == image[16..18] && now[..16] == image[..16];
  }
}
