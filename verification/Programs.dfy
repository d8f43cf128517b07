/** What an ELF program asks of the loader: the pages of its address space, whether they can be loaded, and how
    many frames the load takes up to its end or its first fault. */
module Programs {
  import opened Bytes
  import opened Frames
  import opened Results
  import opened PageTables
  import opened Paging
  import Elf

  const USER_STACK_TOP: nat := 0x7000_0000_0000
  const USER_STACK_PAGES: nat := 8
  const STACK_TOP_PAGE: nat := USER_STACK_TOP / FRAME_SIZE
  const STACK_FIRST_PAGE: nat := STACK_TOP_PAGE - USER_STACK_PAGES

  datatype LoadError =
    | BadElf(elf: Elf.ElfError) | AddressSpace(map_: MapError) | Map(map_: MapError) | OutOfFrames | BadSegment

  // ----- What a file asks for -----

  /** One page of an address space: how it is mapped and what it holds. */
  datatype Page = Page(flags: Flags, bytes: seq<Byte>)

  type Image = map<nat, Page>

  /** A segment that lies in the file and in the user half. */
  ghost predicate SegmentOk(file: seq<Byte>, h: Elf.ProgramHeader) {
    && h.filesz <= h.memsz && h.offset + h.filesz <= |file|
    && h.vaddr < USER_CANONICAL_LIMIT && h.vaddr + h.memsz <= USER_CANONICAL_LIMIT
  }

  function FirstPage(h: Elf.ProgramHeader): nat {
    h.vaddr / FRAME_SIZE
  }

  function EndPage(h: Elf.ProgramHeader): nat {
    (h.vaddr + h.memsz + FRAME_SIZE - 1) / FRAME_SIZE
  }

  function SegmentFlags(h: Elf.ProgramHeader): Flags {
    UserFlags((h.flags / 2) % 2 == 1, h.flags % 2 == 1)
  }

  /** The byte at a virtual address: the file's below `filesz`, zero from there on. */
  ghost function SegmentByte(file: seq<Byte>, h: Elf.ProgramHeader, a: nat): Byte {
    if h.vaddr <= a < h.vaddr + h.filesz && h.offset + a - h.vaddr < |file| then file[h.offset + a - h.vaddr] else 0
  }

  ghost predicate IsPageOf(file: seq<Byte>, h: Elf.ProgramHeader, v: nat, bytes: seq<Byte>) {
    |bytes| == FRAME_SIZE && forall i: nat :: i < FRAME_SIZE ==> bytes[i] == SegmentByte(file, h, v * FRAME_SIZE + i)
  }

  ghost function PageBytes(file: seq<Byte>, h: Elf.ProgramHeader, v: nat): (bytes: seq<Byte>)
    ensures IsPageOf(file, h, v, bytes)
  {
    seq<Byte>(FRAME_SIZE, i requires 0 <= i < FRAME_SIZE => SegmentByte(file, h, v * FRAME_SIZE + i))
  }

  function ZeroPage(): (bytes: seq<Byte>)
    ensures |bytes| == FRAME_SIZE && forall i :: 0 <= i < FRAME_SIZE ==> bytes[i] == 0
  {
    seq(FRAME_SIZE, i => 0)
  }

  /** The segment's pages below page `n`. */
  ghost function SegmentPages(file: seq<Byte>, h: Elf.ProgramHeader, n: nat): Image {
    map v: nat | FirstPage(h) <= v < n :: Page(SegmentFlags(h), PageBytes(file, h, v))
  }

  /** Every stack page is writable, not executable, and zero. */
  ghost function StackPage(v: nat): Page {
    Page(UserFlags(true, false), ZeroPage())
  }

  ghost function StackPages(n: nat): Image {
    map v: nat | STACK_TOP_PAGE - USER_STACK_PAGES <= v < n :: StackPage(v)
  }

  ghost predicate IsLoad(elf: Elf.Elf, k: nat) {
    Elf.ProgramHeaderAt(elf, k).Some? && Elf.ProgramHeaderAt(elf, k).value.typ == Elf.PT_LOAD
  }

  ghost function Header(elf: Elf.Elf, k: nat): Elf.ProgramHeader
    requires IsLoad(elf, k)
  {
    Elf.ProgramHeaderAt(elf, k).value
  }

  ghost function SegmentImage(elf: Elf.Elf, k: nat): Image {
    if IsLoad(elf, k) then SegmentPages(elf.bytes, Header(elf, k), EndPage(Header(elf, k))) else map[]
  }

  /** The pages of the first `k` program headers. */
  ghost function ImageUpTo(elf: Elf.Elf, k: nat): Image {
    if k == 0 then map[] else ImageUpTo(elf, k - 1) + SegmentImage(elf, k - 1)
  }

  /** The first `k` loadable segments are well formed and no two share a page. */
  ghost predicate Fits(elf: Elf.Elf, k: nat) {
    k > 0 ==>
      && Fits(elf, k - 1)
      && (IsLoad(elf, k - 1) ==> SegmentOk(elf.bytes, Header(elf, k - 1)))
      && SegmentImage(elf, k - 1).Keys !! ImageUpTo(elf, k - 1).Keys
  }

  ghost predicate Loadable(elf: Elf.Elf) {
    Fits(elf, elf.phnum) && StackPages(STACK_TOP_PAGE).Keys !! ImageUpTo(elf, elf.phnum).Keys
  }

  /** The whole address space of a program: its segments and its stack. */
  ghost function ImageOf(elf: Elf.Elf): Image {
    ImageUpTo(elf, elf.phnum) + StackPages(STACK_TOP_PAGE)
  }

  // ----- The plan of a load -----

  /** The pages a load places, in order, and the fault that stops it, if any. */
  datatype Plan = Plan(pages: set<nat>, fault: Option<LoadError>)

  const TAKEN: LoadError := Map(AlreadyMapped)

  /** The pages of a range, up to the first that is already placed. */
  ghost function PlanPages(plan: Plan, v: nat, end: nat): Plan
    decreases end - v
  {
    if plan.fault.Some? || v >= end then plan
    else if v in plan.pages then plan.(fault := Some(TAKEN))
    else PlanPages(plan.(pages := plan.pages + {v}), v + 1, end)
  }

  ghost function PlanSegment(plan: Plan, file: seq<Byte>, h: Elf.ProgramHeader): Plan {
    if plan.fault.Some? then plan
    else if !SegmentOk(file, h) then plan.(fault := Some(BadSegment))
    else PlanPages(plan, FirstPage(h), EndPage(h))
  }

  ghost function PlanHeaders(elf: Elf.Elf, k: nat): Plan {
    if k == 0 then Plan({}, None)
    else if IsLoad(elf, k - 1) then PlanSegment(PlanHeaders(elf, k - 1), elf.bytes, Header(elf, k - 1))
    else PlanHeaders(elf, k - 1)
  }

  /** The whole load: every segment, then the stack. */
  ghost function PlanOf(elf: Elf.Elf): Plan {
    PlanPages(PlanHeaders(elf, elf.phnum), STACK_FIRST_PAGE, STACK_TOP_PAGE)
  }

  /** The tables below the root that the pages are mapped through. */
  ghost function TablesFor(pages: set<nat>): set<Spot> {
    set v, spot | v in pages && spot in PathSpots(v) :: spot
  }

  /** One root, the pages and their tables. */
  ghost function FramesFor(pages: set<nat>): nat {
    1 + |pages| + |TablesFor(pages)|
  }

  /** A page found taken has had a frame taken for it. */
  ghost function Cost(plan: Plan): nat {
    FramesFor(plan.pages) + if plan.fault == Some(TAKEN) then 1 else 0
  }

  /** The frames a program asks for, up to its end or its first fault. */
  ghost function Need(elf: Elf.Elf): nat {
    Cost(PlanOf(elf))
  }

  ghost function Placed(image: Image): Plan {
    Plan(image.Keys, None)
  }

  // -- a plan is faulty exactly when the program is not loadable --

  ghost function PageRange(v: nat, end: nat): (pages: set<nat>)
    ensures forall u: nat :: u in pages <==> v <= u < end
    decreases end - v
  {
    if v >= end then {} else {v} + PageRange(v + 1, end)
  }

  lemma {:induction false} PagesDecided(plan: Plan, v: nat, end: nat)
    requires plan.fault == None
    ensures PlanPages(plan, v, end) ==
            if PageRange(v, end) !! plan.pages then Plan(plan.pages + PageRange(v, end), None)
            else PlanPages(plan, v, end).(fault := Some(TAKEN))
    decreases end - v
  {
    if v < end && v !in plan.pages {
      var next := plan.(pages := plan.pages + {v});
      PagesDecided(next, v + 1, end);
      assert PageRange(v, end) == {v} + PageRange(v + 1, end);
      assert PageRange(v, end) !! plan.pages <==> PageRange(v + 1, end) !! next.pages;
      assert next.pages + PageRange(v + 1, end) == plan.pages + PageRange(v, end);
    } else if v < end {
      assert v in PageRange(v, end);
    } else {
      assert PageRange(v, end) == {};
    }
  }

  lemma {:induction false} HeadersDecided(elf: Elf.Elf, k: nat)
    ensures Fits(elf, k) ==> PlanHeaders(elf, k) == Placed(ImageUpTo(elf, k))
    ensures !Fits(elf, k) ==> PlanHeaders(elf, k).fault.Some?
  {
    if k > 0 {
      HeadersDecided(elf, k - 1);
      if Fits(elf, k - 1) { HeaderDecided(elf, k - 1); }
    }
  }

  lemma HeaderDecided(elf: Elf.Elf, k: nat)
    requires Fits(elf, k) && PlanHeaders(elf, k) == Placed(ImageUpTo(elf, k))
    ensures Fits(elf, k + 1) ==> PlanHeaders(elf, k + 1) == Placed(ImageUpTo(elf, k + 1))
    ensures !Fits(elf, k + 1) ==> PlanHeaders(elf, k + 1).fault.Some?
  {
    hide SegmentOk, PageBytes, FirstPage, EndPage;
    assert ImageUpTo(elf, k + 1).Keys == ImageUpTo(elf, k).Keys + SegmentImage(elf, k).Keys;
    if IsLoad(elf, k) {
      var h := Header(elf, k);
      assert SegmentImage(elf, k).Keys == PageRange(FirstPage(h), EndPage(h));
      PagesDecided(PlanHeaders(elf, k), FirstPage(h), EndPage(h));
    }
  }

  /** The plan of a loadable program places its whole image; any other program has a fault. */
  lemma PlanDecided(elf: Elf.Elf)
    ensures Loadable(elf) ==> PlanOf(elf) == Placed(ImageOf(elf))
    ensures !Loadable(elf) ==> PlanOf(elf).fault == Some(BadSegment) || PlanOf(elf).fault == Some(TAKEN)
  {
    HeadersDecided(elf, elf.phnum);
    FaultKinds(elf, elf.phnum);
    if Fits(elf, elf.phnum) {
      hide PlanHeaders, ImageUpTo, Fits;
      assert StackPages(STACK_TOP_PAGE).Keys == PageRange(STACK_FIRST_PAGE, STACK_TOP_PAGE);
      PagesDecided(PlanHeaders(elf, elf.phnum), STACK_FIRST_PAGE, STACK_TOP_PAGE);
      assert ImageOf(elf).Keys == ImageUpTo(elf, elf.phnum).Keys + StackPages(STACK_TOP_PAGE).Keys;
    }
  }

  ghost predicate KnownFault(plan: Plan) {
    plan.fault.Some? ==> plan.fault == Some(BadSegment) || plan.fault == Some(TAKEN)
  }

  lemma {:induction false} FaultKinds(elf: Elf.Elf, k: nat)
    ensures KnownFault(PlanHeaders(elf, k))
  {
    if k > 0 {
      FaultKinds(elf, k - 1);
      if IsLoad(elf, k - 1) && PlanHeaders(elf, k - 1).fault == None {
        PagesDecided(PlanHeaders(elf, k - 1), FirstPage(Header(elf, k - 1)), EndPage(Header(elf, k - 1)));
      }
    }
  }

  // -- later steps only add to a plan --

  ghost predicate Extends(plan: Plan, more: Plan) {
    (plan.fault.Some? ==> more == plan) && Cost(plan) <= Cost(more)
  }

  lemma TablesGrow(pages: set<nat>, more: set<nat>)
    requires pages <= more
    ensures TablesFor(pages) <= TablesFor(more) && FramesFor(pages) <= FramesFor(more)
    ensures pages != more ==> FramesFor(pages) < FramesFor(more)
  {
    CardSubset(pages, more);
    CardSubset(TablesFor(pages), TablesFor(more));
  }

  lemma {:induction false} PagesExtend(plan: Plan, v: nat, end: nat)
    ensures Extends(plan, PlanPages(plan, v, end))
    decreases end - v
  {
    if plan.fault == None && v < end && v !in plan.pages {
      var next := plan.(pages := plan.pages + {v});
      TablesGrow(plan.pages, next.pages);
      PagesExtend(next, v + 1, end);
    }
  }

  lemma {:induction false} HeadersExtend(elf: Elf.Elf, k: nat, n: nat)
    requires k <= n
    ensures Extends(PlanHeaders(elf, k), PlanHeaders(elf, n))
    decreases n
  {
    if k < n {
      HeadersExtend(elf, k, n - 1);
      if IsLoad(elf, n - 1) && PlanHeaders(elf, n - 1).fault == None {
        PagesExtend(PlanHeaders(elf, n - 1), FirstPage(Header(elf, n - 1)), EndPage(Header(elf, n - 1)));
      }
    }
  }

  lemma PlanExtends(elf: Elf.Elf, k: nat)
    requires k <= elf.phnum
    ensures Extends(PlanHeaders(elf, k), PlanOf(elf))
  {
    HeadersExtend(elf, k, elf.phnum);
    PagesExtend(PlanHeaders(elf, elf.phnum), STACK_FIRST_PAGE, STACK_TOP_PAGE);
  }
}
