/** Runs from a freshly booted machine in which a load, a teardown or a map-unmap-prune round does not leave
    things as it found them. */
module Shortfalls {
  import Elf
  import opened Bytes
  import opened Frames
  import opened Results
  import opened PageTables
  import opened Paging
  import opened Programs
  import opened AddressSpaces
  import opened Restore
  import opened Teardown
  import opened Loader

  // ----- A freshly booted machine -----

  const MEMORY_START: nat := 0x10_0000

  /** One usable range of `frames` frames, and a zero table at address 0 as the active one. */
  method Boot(frames: nat) returns (m: Machine)
    requires 0 < frames <= MAX_FRAME_RECORDS
    ensures fresh(m) && fresh(m.alloc) && fresh(m.alloc.ranges) && fresh(m.alloc.records) && fresh(m.alloc.freeStack)
    ensures m.Valid() && m.tree == map[] && m.alloc.view.ledger == map[] && m.alloc.view.stack == []
    ensures m.alloc.Supply() == frames && IsTable(m.mem, 0) && !Fresh(m.alloc.view, 0)
  {
    hide Sound, Unbumped, UsableRanges, LimitFrom, Fresh, FrameCount, DisjointMap, NodeOk, ZeroTable;
    var memory := [MapEntry(MEMORY_START, frames * FRAME_SIZE, true)];
    OneRange(memory, frames);
    var allocator := new FrameAllocator();
    var ready := allocator.InitFromLimine(memory);
    m := new Machine(allocator);
    m.mem := map[0 := ZeroTable()];
  }

  lemma OneRange(memory: seq<MapEntry>, frames: nat)
    requires memory == [MapEntry(MEMORY_START, frames * FRAME_SIZE, true)] && 0 < frames <= MAX_FRAME_RECORDS
    ensures var ranges := [Range(MEMORY_START, MEMORY_START, MEMORY_START + frames * FRAME_SIZE)];
            && UsableRanges(memory) == ranges && DisjointMap(memory)
            && LimitFrom(View(ranges, [], [], map[]), 0) == frames && !Fresh(View(ranges, [], [], map[]), 0)
  {
    var ranges := [Range(MEMORY_START, MEMORY_START, MEMORY_START + frames * FRAME_SIZE)];
    assert memory[..0] == [] && ranges[..0] == [] && ranges[0..] == ranges;
    assert Unbumped(ranges) == frames;
  }

  // ----- A frame of the process that was never mapped -----

  /** A page frame allocated for a root but not mapped outlives the teardown of the root. */
  method UnmappedFrameOutlives() returns (root: nat, torn: Result<ReclaimStats, ReclaimError>, owner: Option<Owner>)
    ensures torn.Ok? && owner == Some(ProcessMemory(root))
  {
    hide FrameAllocator.Valid, TreeOk, Reported, AllReachable, FrameAllocator.Limit, KernelHalfShared, Apply, Enabled;
    var m := Boot(2);
    var space := NewFromActiveKernelMappings(m, 0);
    root := space.value;
    OneLive(root, PageTable(root));
    ghost var made := m.Now();
    var frame := m.alloc.AllocateOwned(ProcessMemory(root));
    ghost var s := m.Now();
    TreeGrowsLedger(made, s, frame.value, ProcessMemory(root));
    NotClaimed(s, root, frame.value);
    FewClaimed(s, root);
    torn := ReclaimUserAddressSpace(m, root);
    owner := m.alloc.OwnerOf(frame.value);
  }

  lemma OneLive(f: nat, owner: Owner)
    ensures |map[f := owner]| == 1
  {}

  lemma TreeGrowsLedger(s: Space, s': Space, f: nat, owner: Owner)
    requires TreeOk(s.mem, s.tree, s.ledger) && f !in s.ledger && s'.ledger == s.ledger[f := owner]
    requires s'.mem == s.mem && s'.tree == s.tree
    ensures TreeOk(s'.mem, s'.tree, s'.ledger)
  {
    hide NodeOk;
  }

  lemma NotClaimed(s: Space, root: nat, f: nat)
    requires TreeOk(s.mem, s.tree, s.ledger) && IsRoot(s.tree, root) && NoTranslations(s.mem, root)
    requires f in s.ledger && s.ledger[f] == ProcessMemory(root)
    ensures f !in ClaimedFrames(s, root)
  {
    hide Translate, TreeOk;
    ClaimedExactly(s, root, f);
  }

  lemma FewClaimed(s: Space, root: nat)
    ensures |ClaimedFrames(s, root)| <= |s.ledger|
  {
    hide Claimed;
    CardSubset(ClaimedFrames(s, root), s.ledger.Keys);
  }

  // ----- A user bit that stays -----

  const SUPERVISOR: Flags := Flags(true, false, false, false, true)

  /** Page 0 is mapped for the supervisor; mapping, unmapping and pruning page 1 for user mode then leaves the
      user bit on the root's link. */
  method UserBitStays() returns (round: Result<(), MapError>, before: Entry, after: Entry)
    ensures round.Ok? && before.present && !before.user && after == before.(user := true)
  {
    hide FrameAllocator.Valid, TreeOk, FrameAllocator.Limit, Translate, NoEmptyTables, Spots, PathSpots, Left,
         LinksAreUser;
    var m, root := SupervisorPage();
    ghost var s := m.Now();
    before := m.mem[root].entries[0];
    round := MapUnmapPrune(m, root, FRAME_SIZE, 0, UserFlags(true, false));
    LeftUser(s, root);
    after := LinkAfter(m, root, s);
  }

  method LinkAfter(m: Machine, root: nat, ghost s: Space) returns (link: Entry)
    requires m.Valid() && root in m.tree && m.tree == s.tree
    requires forall f, j: nat {:trigger EntryAt(m.mem, f, j)} :: f in m.tree && j < ENTRY_COUNT ==>
          EntryAt(m.mem, f, j) == Left(s, root, 1, UserFlags(true, false), f, j)
    ensures link == Left(s, root, 1, UserFlags(true, false), root, 0)
  {
    hide FrameAllocator.Valid, TreeOk, Left;
    TableFacts(m.mem, m.tree, m.alloc.view.ledger, root);
    assert EntryAt(m.mem, root, 0) == Left(s, root, 1, UserFlags(true, false), root, 0);
    link := m.mem[root].entries[0];
  }

  /** A new root with page 0 mapped for the supervisor. */
  method SupervisorPage() returns (m: Machine, root: nat)
    ensures fresh(m) && fresh(m.alloc) && fresh(m.alloc.ranges) && fresh(m.alloc.records) && fresh(m.alloc.freeStack)
    ensures m.Valid() && IsRoot(m.tree, root) && m.alloc.Supply() >= 0
    ensures IsTable(m.mem, root) && EntryAt(m.mem, root, 0).present && !EntryAt(m.mem, root, 0).user
    ensures NoEmptyTables(m.mem, m.tree, root, 1) && |PathSpots(1) - Spots(m.tree, root)| == 0
    ensures Translate(m.mem, root, 1) == None
  {
    hide FrameAllocator.Valid, TreeOk, FrameAllocator.Limit, KernelHalfShared, Apply, Enabled, Touched, Grown,
         SameOutside, OneTranslation, Lent, SameTranslations, Translate, NoEmptyTables, Spots, PathSpots;
    m := Boot(5);
    var space := NewFromActiveKernelMappings(m, 0);
    root := space.value;
    OneLive(root, PageTable(root));
    ghost var s := m.Now();
    AtMostThree(0, Spots(m.tree, root));
    var mapped := m.MapPage(root, 0, 0, SUPERVISOR);
    SupervisorLink(s, m.Now(), root);
    Neighbours(m.Now(), root);
    AllSupplied(m.alloc);
  }

  lemma AtMostThree(vpn: nat, spots: set<Spot>)
    ensures |PathSpots(vpn) - spots| <= 3
  {
    CardSubset(PathSpots(vpn) - spots, PathSpots(vpn));
  }

  /** The first page of a root, mapped for the supervisor, makes a supervisor link. */
  lemma SupervisorLink(s: Space, s': Space, root: nat)
    requires TreeOk(s.mem, s.tree, s.ledger) && TreeOk(s'.mem, s'.tree, s'.ledger)
    requires s.tree == map[root := Place(root, 0, 0, root)] && IsRoot(s'.tree, root)
    requires Touched(s, s', root, 0, SUPERVISOR)
             && OneTranslation(s.mem, s'.mem, s.tree, root, 0, Some(LeafEntry(0, SUPERVISOR)))
    ensures IsTable(s'.mem, root) && EntryAt(s'.mem, root, 0).present && !EntryAt(s'.mem, root, 0).user
    ensures Translate(s'.mem, root, 0).Some? && Translate(s'.mem, root, 1) == Translate(s.mem, root, 1)
  {
    hide TreeOk, Touched;
    OneHere(s, s', root, 0, LeafEntry(0, SUPERVISOR));
    RootFacts(s.mem, s.tree, root, 0);
    TableFacts(s'.mem, s'.tree, s'.ledger, root);
    if EntryAt(s.mem, root, 0).present { Descend(s.mem, s.tree, s.ledger, root, 0); }
    SlotOf(s, s', root);
  }

  lemma SlotOf(s: Space, s': Space, root: nat)
    requires Touched(s, s', root, 0, SUPERVISOR) && root in s'.tree
    ensures SlotTouched(s, s', root, 0, SUPERVISOR, root, 0)
  {
    assert EntryAt(s'.mem, root, 0) == EntryAt(s'.mem, root, 0);
  }

  /** Pages 0 and 1 are mapped through the same tables. */
  lemma Neighbours(s: Space, root: nat)
    requires TreeOk(s.mem, s.tree, s.ledger) && IsRoot(s.tree, root) && Translate(s.mem, root, 0).Some?
    ensures NoEmptyTables(s.mem, s.tree, root, 1) && |PathSpots(1) - Spots(s.tree, root)| == 0
  {
    hide TreeOk;
    assert PathSpots(1) == PathSpots(0);
    MappedPath(s, root, 0);
    assert PathSpots(1) - Spots(s.tree, root) == {};
    forall f | f in s.tree && s.tree[f].root == root && s.tree[f].level > 0 && Covers(s.tree, f, 1)
      ensures !EmptyTable(s.mem, f)
    {
      RootFacts(s.mem, s.tree, root, 0);
      WalkReaches(s.mem, s.tree, s.ledger, root, f, 0);
    }
  }

  lemma LeftUser(s: Space, root: nat)
    requires IsRoot(s.tree, root) && EntryAt(s.mem, root, 0).present
    ensures Left(s, root, 1, UserFlags(true, false), root, 0) == EntryAt(s.mem, root, 0).(user := true)
  {}

  // ----- A program larger than the recycle stack -----

  const FIRST_PAGE: nat := 0x400
  const END_PAGE: nat := FIRST_PAGE + FREE_STACK_CAPACITY + 1

  /** An executable with a segment of one page more than the recycle stack holds, at address 0x40_0000, and a
      second segment whose file size exceeds its memory size. */
  function FileByte(headers: Byte, i: nat): Byte {
    match i
    case 0 => 0x7f case 1 => 0x45 case 2 => 0x4c case 3 => 0x46   // magic
    case 4 => 2 case 5 => 1 case 6 => 1                           // class, byte order, version
    case 16 => 2 case 18 => 0x3e                                  // type, machine
    case 32 => 64 case 54 => 56 case 56 => headers                // program headers
    case 64 => 1 case 68 => 4                                     // first: type, flags,
    case 82 => 0x40 case 105 => 0x10 case 107 => 2                // address, memory size
    case 120 => 1 case 152 => 1                                   // second: type, file size
    case _ => 0
  }

  function BigFile(headers: Byte): (b: seq<Byte>)
    ensures |b| == 176
  {
    seq(176, i requires 0 <= i < 176 => FileByte(headers, i))
  }

  function BigElf(headers: Byte): Elf.Elf {
    Elf.Elf(BigFile(headers), 0, 64, 56, headers)
  }

  const FIRST_HEADER: Elf.ProgramHeader := Elf.ProgramHeader(1, 4, 0, 0x40_0000, 0, 0x200_1000)
  const SECOND_HEADER: Elf.ProgramHeader := Elf.ProgramHeader(1, 0, 0, 0, 1, 0)

  lemma LeStep(b: seq<Byte>, from: nat, to: nat)
    requires from < to <= |b|
    ensures LeValue(b[from..to]) == b[from] + 256 * LeValue(b[from + 1..to])
  {
    assert b[from..to][1..] == b[from + 1..to];
  }

  /** The number in the four bytes at `at`. */
  function Low(b: seq<Byte>, at: nat): nat
    requires at + 4 <= |b|
  {
    b[at] as nat + 0x100 * b[at + 1] as nat + 0x1_0000 * b[at + 2] as nat + 0x100_0000 * b[at + 3] as nat
  }

  lemma FourBytes(b: seq<Byte>, at: nat)
    requires at + 4 <= |b|
    ensures LeValue(b[at..at + 4]) == Low(b, at)
  {
    LeStep(b, at, at + 4);
    LeStep(b, at + 1, at + 4);
    LeStep(b, at + 2, at + 4);
    LeStep(b, at + 3, at + 4);
  }

  lemma EightBytes(b: seq<Byte>, at: nat)
    requires at + 8 <= |b| && b[at + 4] == b[at + 5] == b[at + 6] == b[at + 7] == 0
    ensures LeValue(b[at..at + 8]) == Low(b, at)
  {
    LeStep(b, at, at + 8);
    LeStep(b, at + 1, at + 8);
    LeStep(b, at + 2, at + 8);
    LeStep(b, at + 3, at + 8);
    LeStep(b, at + 4, at + 8);
    LeStep(b, at + 5, at + 8);
    LeStep(b, at + 6, at + 8);
    LeStep(b, at + 7, at + 8);
  }

  lemma BigParses(headers: Byte)
    requires headers <= 2
    ensures Elf.Parse(BigFile(headers)) == Ok(BigElf(headers))
  {
    var b := BigFile(headers);
    FileFields(headers);
    hide LeValue, BigFile;
    assert b[0..4] == [b[0], b[1], b[2], b[3]];
  }

  lemma FileFields(headers: Byte)
    ensures var b := BigFile(headers);
            && b[0] == 0x7f && b[1] == 0x45 && b[2] == 0x4c && b[3] == 0x46 && b[4] == 2 && b[5] == 1 && b[6] == 1
            && Bytes.Read(b, 16, 2) == Some(2) && Bytes.Read(b, 18, 2) == Some(0x3e)
            && Bytes.Read(b, 24, 8) == Some(0) && Bytes.Read(b, 32, 8) == Some(64)
            && Bytes.Read(b, 54, 2) == Some(56) && Bytes.Read(b, 56, 2) == Some(headers)
  {
    var b := BigFile(headers);
    hide LeValue;
    TwoBytes(b, 16);
    TwoBytes(b, 18);
    TwoBytes(b, 54);
    TwoBytes(b, 56);
    EightBytes(b, 24);
    EightBytes(b, 32);
  }

  lemma HeaderFields(headers: Byte, at: nat)
    requires at == 64 || at == 120
    ensures var b, first := BigFile(headers), at == 64;
            && Bytes.Read(b, at, 4) == Some(1) && Bytes.Read(b, at + 4, 4) == Some(if first then 4 else 0)
            && Bytes.Read(b, at + 8, 8) == Some(0) && Bytes.Read(b, at + 16, 8) == Some(if first then 0x40_0000 else 0)
            && Bytes.Read(b, at + 32, 8) == Some(if first then 0 else 1)
            && Bytes.Read(b, at + 40, 8) == Some(if first then 0x200_1000 else 0)
  {
    var b := BigFile(headers);
    hide LeValue;
    FourBytes(b, at);
    FourBytes(b, at + 4);
    EightBytes(b, at + 8);
    EightBytes(b, at + 16);
    EightBytes(b, at + 32);
    EightBytes(b, at + 40);
  }

  lemma BigHeader(headers: Byte, k: nat)
    requires k < headers <= 2
    ensures IsLoad(BigElf(headers), k) && Header(BigElf(headers), k) == if k == 0 then FIRST_HEADER else SECOND_HEADER
  {
    hide LeValue, BigFile;
    HeaderFields(headers, if k == 0 then 64 else 120);
  }

  // -- what it asks for --

  lemma FirstSegment(file: seq<Byte>)
    ensures PlanSegment(Plan({}, None), file, FIRST_HEADER) == Plan(PageRange(FIRST_PAGE, END_PAGE), None)
  {
    PagesDecided(Plan({}, None), FIRST_PAGE, END_PAGE);
    hide PlanPages;
    assert SegmentOk(file, FIRST_HEADER) && FirstPage(FIRST_HEADER) == FIRST_PAGE && EndPage(FIRST_HEADER) == END_PAGE;
    assert {} + PageRange(FIRST_PAGE, END_PAGE) == PageRange(FIRST_PAGE, END_PAGE);
  }

  lemma SecondSegment(file: seq<Byte>, plan: Plan)
    requires plan.fault == None
    ensures PlanSegment(plan, file, SECOND_HEADER) == plan.(fault := Some(BadSegment))
  {
    hide PlanPages;
  }

  /** The pages of the large segment are placed; a second segment is then refused. */
  lemma BigPlan(headers: Byte)
    requires 1 <= headers <= 2
    ensures PlanHeaders(BigElf(headers), headers)
         == Plan(PageRange(FIRST_PAGE, END_PAGE), if headers == 1 then None else Some(BadSegment))
  {
    hide BigFile, IsLoad, Header, PlanSegment, PageRange;
    var elf := BigElf(headers);
    BigHeader(headers, 0);
    FirstSegment(elf.bytes);
    assert PlanHeaders(elf, 1) == PlanSegment(PlanHeaders(elf, 0), elf.bytes, FIRST_HEADER);
    if headers == 2 {
      BigHeader(headers, 1);
      SecondSegment(elf.bytes, PlanHeaders(elf, 1));
    }
  }

  lemma {:induction false} RangeSize(v: nat, end: nat)
    requires v <= end
    ensures |PageRange(v, end)| == end - v
    decreases end - v
  {
    if v < end { RangeSize(v + 1, end); }
  }

  ghost function Grid(n: nat): (spots: set<Spot>)
    ensures |spots| <= 3 * n && forall l, p: nat :: 1 <= l <= 3 && p < n ==> Spot(l, p) in spots
  {
    if n == 0 then {} else Grid(n - 1) + {Spot(1, n - 1), Spot(2, n - 1), Spot(3, n - 1)}
  }

  lemma {:induction false} FewTables(pages: set<nat>)
    ensures |TablesFor(pages)| <= 3 * |pages|
  {
    if v :| v in pages {
      FewTables(pages - {v});
      TablesAdd(pages - {v}, v);
      assert pages - {v} + {v} == pages;
    }
  }

  /** Nineteen tables on each level cover the large segment. */
  lemma BigTables()
    ensures |TablesFor(PageRange(FIRST_PAGE, END_PAGE))| <= 57
  {
    forall v | v in PageRange(FIRST_PAGE, END_PAGE)
      ensures PathSpots(v) <= Grid(19)
    {
      InGrid(v);
    }
    hide PathSpots, PageRange, Grid;
    CardSubset(TablesFor(PageRange(FIRST_PAGE, END_PAGE)), Grid(19));
  }

  lemma InGrid(v: nat)
    requires v < END_PAGE
    ensures PathSpots(v) <= Grid(19)
  {
    hide Grid;
    assert Prefix(v, 1) < 19 && Prefix(v, 2) < 19 && Prefix(v, 3) < 19;
  }

  lemma StackTables(pages: set<nat>)
    ensures |TablesFor(pages + PageRange(STACK_FIRST_PAGE, STACK_TOP_PAGE))| <= |TablesFor(pages)| + 24
  {
    var stack := PageRange(STACK_FIRST_PAGE, STACK_TOP_PAGE);
    RangeSize(STACK_FIRST_PAGE, STACK_TOP_PAGE);
    FewTables(stack);
    assert TablesFor(pages + stack) == TablesFor(pages) + TablesFor(stack);
  }

  /** What the program asks for, with its bad segment and without. */
  lemma BigNeed(headers: Byte)
    requires 1 <= headers <= 2
    ensures FREE_STACK_CAPACITY < |PlanOf(BigElf(headers)).pages| < Need(BigElf(headers)) <= 9000
    ensures PlanOf(BigElf(headers)).fault == if headers == 1 then None else Some(BadSegment)
    ensures headers == 1 ==> Loadable(BigElf(headers))
  {
    hide BigFile, IsLoad, PlanHeaders, PageRange, TablesFor, Loadable, ImageOf;
    var elf, pages, stack := BigElf(headers), PageRange(FIRST_PAGE, END_PAGE),
                             PageRange(STACK_FIRST_PAGE, STACK_TOP_PAGE);
    BigPlan(headers);
    RangeSize(FIRST_PAGE, END_PAGE);
    BigTables();
    if headers == 1 {
      PagesDecided(PlanHeaders(elf, 1), STACK_FIRST_PAGE, STACK_TOP_PAGE);
      RangeSize(STACK_FIRST_PAGE, STACK_TOP_PAGE);
      StackTables(pages);
      assert pages !! stack;
      assert PlanOf(elf) == Plan(pages + stack, None);
      assert |pages + stack| == |pages| + |stack|;
      PlanDecided(elf);
    } else {
      assert PlanOf(elf) == Plan(pages, Some(BadSegment));
    }
  }

  /** A load that fails at its second segment, after one of more pages than the recycle stack holds: the rollback
      cannot finish, and frames stay live on a machine that had none. */
  method FailedLoadLeavesFrames() returns (r: Result<UserImage, LoadError>, live: nat)
    ensures r == Err(BadSegment) && live > 0
  {
    hide FrameAllocator.Valid, TreeOk, FrameAllocator.Limit, Elf.Parse, BigFile, BigElf, Need, Loadable, Failed,
         Loading;
    BigParses(2);
    BigTooMuch();
    var m := Boot(9000);
    ghost var s := m.Now();
    ghost var home;
    r, home := Load(m, BigFile(2), 0);
    FramesStay(r.error, s, m.Now());
    live := LiveFrames(m.alloc);
  }

  lemma BigTooMuch()
    ensures !Loadable(BigElf(2))
  {
    hide BigElf, PlanOf, Loadable, ImageOf;
    BigNeed(2);
    PlanDecided(BigElf(2));
  }

  lemma FramesStay(error: LoadError, s0: Space, s: Space)
    requires Failed(error, BigElf(2), 9000, s0, s) && s0.ledger == map[] && s0.recycled == 0
    ensures error == BadSegment && |s.ledger| + s.recycled > FREE_STACK_CAPACITY
  {
    hide BigElf, PlanOf, Need, Restored, SameTranslations;
    BigNeed(2);
  }

  method LiveFrames(allocator: FrameAllocator) returns (live: nat)
    requires allocator.Valid()
    ensures live == |allocator.view.ledger| && |allocator.view.stack| <= FREE_STACK_CAPACITY
  {
    live := allocator.allocatedFrames;
  }

  /** The same program without its bad segment is loaded; its address space is then too large to be torn down. */
  method LoadedTooLarge() returns (loaded: Result<UserImage, LoadError>, torn: Result<ReclaimStats, ReclaimError>)
    ensures loaded.Ok? && torn == Err(FreeFailed(FreeStackFull))
  {
    hide FrameAllocator.Valid, TreeOk, FrameAllocator.Limit, Elf.Parse, BigFile, Need, PlanOf, Loadable, Restored,
         SameTranslations, Loading, ClaimedFrames, ImageOf, Reported, AllReachable, TornDown, HalfTornDown;
    BigParses(1);
    BigNeed(1);
    var m := Boot(9000);
    ghost var s := m.Now();
    ghost var home;
    loaded, home := Load(m, BigFile(1), 0);
    LargeClaim(s, m.Now(), loaded.value.cr3, home);
    torn := ReclaimUserAddressSpace(m, loaded.value.cr3);
  }

  lemma LargeClaim(s0: Space, s: Space, root: nat, home: Homes)
    requires TreeOk(s0.mem, s0.tree, s0.ledger) && TreeOk(s.mem, s.tree, s.ledger)
    requires Loading(s0, s, root, home, ImageOf(BigElf(1)), {})
    ensures IsRoot(s.tree, root) && |ClaimedFrames(s, root)| > FREE_STACK_CAPACITY
  {
    hide TreeOk, Loading, ImageOf, ClaimedFrames, PlanHeaders, PageRange, BigFile, IsLoad;
    var elf := BigElf(1);
    BigNeed(1);
    PlanDecided(elf);
    hide PlanOf;
    assert |ImageOf(elf)| == |ImageOf(elf).Keys|;
    LoadingFacts(s0, s, root, home, ImageOf(elf), {}, 0);
    ClaimsWhatWasTaken(s0, s, root, home, ImageOf(elf));
    FramesTaken(s0, s, root, home, ImageOf(elf), {});
  }
}
