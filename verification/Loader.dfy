/** Loading a program: what the address space of a loaded ELF file holds, and what a failed load leaves
    behind. */
module Loader {
  import opened Bytes
  import Elf
  import opened Frames
  import opened Results
  import opened PageTables
  import opened Paging
  import opened Programs
  import opened AddressSpaces
  import opened Teardown

  datatype UserImage = UserImage(cr3: nat, entry: nat, stackTop: nat)

  // ----- What an address space holds -----

  /** The frame of every page, the page of every frame, and the table whose kernel half is shared. */
  datatype Homes = Homes(frame: map<nat, nat>, page: map<nat, nat>, kernel: seq<Entry>)

  ghost predicate Inverse(home: Homes) {
    && (forall v :: v in home.frame ==> home.frame[v] in home.page && home.page[home.frame[v]] == v)
    && (forall f :: f in home.page ==> home.page[f] in home.frame && home.frame[home.page[f]] == f)
  }

  ghost predicate SameFrame(mem: Phys, mem': Phys, f: nat) {
    (f in mem' <==> f in mem) && (f in mem ==> mem'[f] == mem[f])
  }

  /** Frames live before are live still, with the same owner and the same contents. */
  ghost predicate Kept(s0: Space, s: Space) {
    forall f :: f in s0.ledger ==> f in s.ledger && s.ledger[f] == s0.ledger[f] && SameFrame(s0.mem, s.mem, f)
  }

  ghost predicate NewTables(s0: Space, tree: Tree, root: nat) {
    && IsRoot(tree, root) && root !in s0.ledger
    && (forall f :: f in s0.tree ==> f in tree && tree[f] == s0.tree[f])
    && (forall f :: f in tree && f !in s0.tree ==> tree[f].root == root && f !in s0.ledger)
  }

  /** Every frame taken is a table of the root, the home of one page, or set aside in `extra`. */
  ghost predicate NewPages(s0: Space, s: Space, root: nat, home: Homes, extra: set<nat>) {
    && (forall f :: f in s.ledger && f !in s0.ledger ==> f in s.tree || f in home.page || f in extra)
    && (forall f :: f in home.page || f in extra ==>
          f in s.ledger && s.ledger[f] == ProcessMemory(root) && f !in s0.ledger)
    && (forall f :: f in extra ==> f !in home.page)
    && Inverse(home)
  }

  ghost function LeafOf(home: Homes, image: Image, v: nat): Option<Entry> {
    if v in home.frame && v in image then Some(LeafEntry(home.frame[v], image[v].flags)) else None
  }

  /** The root maps exactly the pages of the image, with their flags, to frames with their bytes, and shares the
      kernel half. */
  ghost predicate Holds(mem: Phys, root: nat, home: Homes, image: Image) {
    && home.frame.Keys == image.Keys
    && (forall v: nat :: v in home.frame ==>
          v < USER_PAGES && home.frame[v] in mem && mem[home.frame[v]] == Data(image[v].bytes))
    && (forall v: nat {:trigger Translate(mem, root, v)} :: v < USER_PAGES ==>
          Translate(mem, root, v) == LeafOf(home, image, v))
    && |home.kernel| == ENTRY_COUNT
    && (forall j: nat {:trigger EntryAt(mem, root, j)} :: Slots(0) <= j < ENTRY_COUNT ==>
          EntryAt(mem, root, j) == home.kernel[j])
  }

  /** Since `s0` only the address space of `root` has changed: it is new and holds `image`. */
  ghost predicate Loading(s0: Space, s: Space, root: nat, home: Homes, image: Image, extra: set<nat>) {
    && Kept(s0, s)
    && NewTables(s0, s.tree, root)
    && NewPages(s0, s, root, home, extra)
    && Holds(s.mem, root, home, image)
    && SameTranslations(s0.mem, s.mem, s0.tree)
  }

  function Max(a: nat, b: nat): nat {
    if a < b then b else a
  }

  /** A load given up after it had held `peak` frames: it took from the recycle stack first, so as many frames
      are now recycled or live beyond those of `s0` as the larger of the two. */
  ghost predicate GivenUp(s0: Space, s: Space, peak: int) {
    s.recycled + |s.ledger| == |s0.ledger| + if s0.recycled < peak then peak else s0.recycled
  }

  /** Loading, with the tables of exactly the image's pages; frames came from the recycle stack first. */
  ghost predicate Ready(s0: Space, s: Space, root: nat, home: Homes, image: Image) {
    Loading(s0, s, root, home, image, {}) && Lent(s0, s) && Spots(s.tree, root) == TablesFor(image.Keys)
  }

  // ----- Steps -----

  lemma StartLoading(s0: Space, s: Space, root: nat, active: nat)
    requires RootMade(s0, s, root) && TreeOk(s0.mem, s0.tree, s0.ledger)
    requires IsTable(s0.mem, active) && KernelHalfShared(s0.mem, s.mem, root, active)
    ensures Ready(s0, s, root, NoHomes(s0.mem[active].entries), map[])
  {
    hide NodeOk, SameTranslations, Holds, KernelHalfShared, Lent, Kept, NewTables, NewPages, TreeOk, Spots;
    OneLent(s0, s0, s, root, PageTable(root));
    NothingHeld(s0.mem, s.mem, root, active);
    OnlyTheRoot(s0, s, root, s0.mem[active].entries);
    NoTablesYet(s0, s, root);
  }

  lemma NoTablesYet(s0: Space, s: Space, root: nat)
    requires RootMade(s0, s, root) && TreeOk(s0.mem, s0.tree, s0.ledger)
    ensures Spots(s.tree, root) == TablesFor({})
  {
    hide NodeOk, SameTranslations;
    forall f | f in s0.tree
      ensures s0.tree[f].root != root
    {
      TableFacts(s0.mem, s0.tree, s0.ledger, f);
      TableFacts(s0.mem, s0.tree, s0.ledger, s0.tree[f].root);
    }
  }

  lemma OnlyTheRoot(s0: Space, s: Space, root: nat, kernel: seq<Entry>)
    requires RootMade(s0, s, root) && TreeOk(s0.mem, s0.tree, s0.ledger)
    ensures Kept(s0, s) && NewTables(s0, s.tree, root) && NewPages(s0, s, root, NoHomes(kernel), {})
  {
    hide NodeOk, SameTranslations;
  }

  lemma OneLent(s0: Space, s: Space, s': Space, f: nat, owner: Owner)
    requires Lent(s0, s) && f !in s.ledger && s'.ledger == s.ledger[f := owner]
    requires s'.recycled == if s.recycled == 0 then 0 else s.recycled - 1
    ensures Lent(s0, s')
  {
    assert s'.ledger.Keys == s.ledger.Keys + {f};
  }

  lemma LentTrans(s0: Space, s: Space, s': Space)
    requires Lent(s0, s) && Lent(s, s')
    ensures Lent(s0, s')
  {}

  ghost function NoHomes(kernel: seq<Entry>): Homes {
    Homes(map[], map[], kernel)
  }

  lemma NothingHeld(mem: Phys, mem': Phys, root: nat, active: nat)
    requires NoTranslations(mem', root) && IsTable(mem, active) && KernelHalfShared(mem, mem', root, active)
    ensures Holds(mem', root, NoHomes(mem[active].entries), map[])
  {}

  /** Writing a frame set aside. */
  lemma WriteExtra(s0: Space, s: Space, root: nat, home: Homes, image: Image, extra: set<nat>, f: nat, x: Frame)
    requires Loading(s0, s, root, home, image, extra) && TreeOk(s.mem, s.tree, s.ledger)
    requires f !in s.tree && f !in s0.ledger && f !in home.page && TreeOk(s0.mem, s0.tree, s0.ledger)
    ensures Loading(s0, s.(mem := s.mem[f := x]), root, home, image, extra)
    ensures TreeOk(s.mem[f := x], s.tree, s.ledger)
  {
    hide NodeOk, SameTranslations, Holds;
    OtherFrame(s.mem, s.tree, s.ledger, f, x);
    StillHeld(s.mem, s.mem[f := x], s.tree, root, home, image, f);
    SameTranslationsTrans(s0, s, s.mem[f := x]);
  }

  lemma StillHeld(mem: Phys, mem': Phys, tree: Tree, root: nat, home: Homes, image: Image, f: nat)
    requires Holds(mem, root, home, image) && IsRoot(tree, root) && SameTranslations(mem, mem', tree) && Inverse(home)
    requires forall g :: g in home.page ==> SameFrame(mem, mem', g)
    requires KernelHalfShared(mem, mem', root, root)
    ensures Holds(mem', root, home, image)
  {
    forall v: nat | v < USER_PAGES
      ensures Translate(mem', root, v) == LeafOf(home, image, v)
    {
      assert Translate(mem', root, v) == Translate(mem, root, v);
    }
  }

  /** Setting a fresh frame aside. */
  lemma TakeExtra(s0: Space, s: Space, s': Space, root: nat, home: Homes, image: Image, f: nat)
    requires Loading(s0, s, root, home, image, {}) && Lent(s0, s) && f !in s.ledger
    requires TreeOk(s.mem, s.tree, s.ledger)
    requires s'.mem == s.mem && s'.tree == s.tree && s'.ledger == s.ledger[f := ProcessMemory(root)]
    requires s'.recycled == if s.recycled == 0 then 0 else s.recycled - 1
    ensures Loading(s0, s', root, home, image, {f}) && Lent(s0, s') && TreeOk(s'.mem, s'.tree, s'.ledger)
    ensures f !in s'.tree && f !in s0.ledger && f !in home.page
  {
    hide NodeOk, SameTranslations, Holds, SameFrame, Inverse, NewPages, TreeOk, Kept, NewTables, Lent;
    OneLent(s0, s, s', f, ProcessMemory(root));
    LedgerTakes(s0, s, s', f, ProcessMemory(root));
    PagesTake(s0, s, s', root, home, f);
  }

  lemma LedgerTakes(s0: Space, s: Space, s': Space, f: nat, owner: Owner)
    requires Kept(s0, s) && TreeOk(s.mem, s.tree, s.ledger) && f !in s.ledger
    requires s'.mem == s.mem && s'.tree == s.tree && s'.ledger == s.ledger[f := owner]
    ensures Kept(s0, s') && TreeOk(s'.mem, s'.tree, s'.ledger) && f !in s.tree && f !in s0.ledger
  {
    hide NodeOk, SameFrame;
  }

  lemma PagesTake(s0: Space, s: Space, s': Space, root: nat, home: Homes, f: nat)
    requires NewPages(s0, s, root, home, {}) && f !in s.ledger && f !in s0.ledger
    requires s'.tree == s.tree && s'.ledger == s.ledger[f := ProcessMemory(root)]
    ensures NewPages(s0, s', root, home, {f}) && f !in home.page
  {
    hide Inverse;
  }

  /** What mapping a page does besides changing translations. */
  ghost predicate MapEffect(s: Space, s': Space, root: nat, vpn: nat, flags: Flags) {
    && Grown(s.tree, s'.tree, s.ledger, s'.ledger, root, vpn)
    && SameOutside(s.mem, s'.mem, s'.tree)
    && Touched(s, s', root, vpn, flags)
    && Lent(s, s')
  }

  /** Mapping writes no frame that was live before the load. */
  lemma MapKeepsFrame(s0: Space, s: Space, s': Space, root: nat, vpn: nat, flags: Flags, f: nat)
    requires TreeOk(s0.mem, s0.tree, s0.ledger) && TreeOk(s.mem, s.tree, s.ledger) && TreeOk(s'.mem, s'.tree, s'.ledger)
    requires Kept(s0, s) && NewTables(s0, s.tree, root) && MapEffect(s, s', root, vpn, flags) && f in s0.ledger
    ensures SameFrame(s.mem, s'.mem, f)
  {
    hide NodeOk, Covers, Index;
    if f in s'.tree {
      assert f in s.tree && f in s0.tree;
      TableFacts(s0.mem, s0.tree, s0.ledger, f);
      TableFacts(s.mem, s.tree, s.ledger, f);
      TableFacts(s'.mem, s'.tree, s'.ledger, f);
      assert s'.tree[f].root != root;
      forall j: nat | j < ENTRY_COUNT
        ensures s'.mem[f].entries[j] == s.mem[f].entries[j]
      {
        assert EntryAt(s'.mem, f, j) == EntryAt(s.mem, f, j);
      }
      assert s'.mem[f].entries == s.mem[f].entries;
    }
  }

  lemma MapKeeps(s0: Space, s: Space, s': Space, root: nat, vpn: nat, flags: Flags)
    requires TreeOk(s0.mem, s0.tree, s0.ledger) && TreeOk(s.mem, s.tree, s.ledger) && TreeOk(s'.mem, s'.tree, s'.ledger)
    requires Kept(s0, s) && NewTables(s0, s.tree, root) && MapEffect(s, s', root, vpn, flags)
    ensures Kept(s0, s') && NewTables(s0, s'.tree, root)
            && (vpn < USER_PAGES ==> KernelHalfShared(s.mem, s'.mem, root, root))
  {
    hide NodeOk, TreeOk, SameOutside, Covers, Kept, NewTables;
    MapKeepsFrames(s0, s, s', root, vpn, flags);
    RootOf(s0, s.tree, root);
    if vpn < USER_PAGES { UserIndex(vpn, 0); }
  }

  lemma MapKeepsFrames(s0: Space, s: Space, s': Space, root: nat, vpn: nat, flags: Flags)
    requires TreeOk(s0.mem, s0.tree, s0.ledger) && TreeOk(s.mem, s.tree, s.ledger) && TreeOk(s'.mem, s'.tree, s'.ledger)
    requires Kept(s0, s) && NewTables(s0, s.tree, root) && MapEffect(s, s', root, vpn, flags)
    ensures Kept(s0, s') && NewTables(s0, s'.tree, root)
  {
    hide NodeOk, TreeOk, Touched, SameOutside, Covers;
    forall f | f in s0.ledger
      ensures SameFrame(s.mem, s'.mem, f)
    {
      MapKeepsFrame(s0, s, s', root, vpn, flags, f);
    }
  }

  /** Page frames stay page frames, and mapping does not write them. */
  lemma MapKeepsPages(s0: Space, s: Space, s': Space, root: nat, home: Homes, extra: set<nat>, vpn: nat, flags: Flags)
    requires TreeOk(s.mem, s.tree, s.ledger) && NewPages(s0, s, root, home, extra) && MapEffect(s, s', root, vpn, flags)
    ensures NewPages(s0, s', root, home, extra)
    ensures forall g :: g in home.page || g in extra ==> SameFrame(s.mem, s'.mem, g) && g !in s'.tree
  {
    hide NodeOk, Covers, Touched, Inverse;
  }

  // -- how many frames the address space holds --

  ghost function Below(tree: Tree, root: nat): map<nat, Spot> {
    map f | f in tree && tree[f].root == root && tree[f].level > 0 :: Spot(tree[f].level, tree[f].prefix)
  }

  /** No two tables of a root sit at the same spot. */
  lemma TableCount(s: Space, root: nat)
    requires TreeOk(s.mem, s.tree, s.ledger)
    ensures |Below(s.tree, root)| == |Spots(s.tree, root)|
  {
    hide TreeOk;
    var tables := Below(s.tree, root);
    forall f, g | f in tables && g in tables && tables[f] == tables[g]
      ensures f == g
    {
      PlacesAreDistinct(s.mem, s.tree, s.ledger, f, g);
    }
    InjectiveCount(tables);
    forall spot
      ensures spot in tables.Values <==> spot in Spots(s.tree, root)
    {
      if spot in Spots(s.tree, root) {
        var f :| f in s.tree && s.tree[f].root == root && s.tree[f].level > 0
                 && Spot(s.tree[f].level, s.tree[f].prefix) == spot;
        assert tables[f] == spot;
      }
    }
    assert tables.Values == Spots(s.tree, root);
  }

  lemma PageCount(home: Homes)
    requires Inverse(home)
    ensures |home.page| == |home.frame|
  {
    InjectiveCount(home.frame);
    assert home.frame.Values == home.page.Keys;
  }

  /** Frames taken: the root, its tables, its pages and those set aside. */
  lemma FramesTaken(s0: Space, s: Space, root: nat, home: Homes, image: Image, extra: set<nat>)
    requires Loading(s0, s, root, home, image, extra)
    requires TreeOk(s.mem, s.tree, s.ledger) && TreeOk(s0.mem, s0.tree, s0.ledger)
    ensures |s.ledger| == |s0.ledger| + 1 + |Spots(s.tree, root)| + |image| + |extra|
  {
    hide TreeOk, Spots, Below, NodeOk;
    TableCount(s, root);
    PageCount(home);
    assert |home.frame| == |image| by { assert home.frame.Keys == image.Keys; }
    LedgerParts(s0, s, root, home, image, extra);
    hide Loading;
    var a, b, c := s0.ledger.Keys + {root}, Below(s.tree, root).Keys, home.page.Keys;
    assert |a + b| == |a| + |b|;
    assert |a + b + c| == |a + b| + |c|;
    assert |a + b + c + extra| == |a + b + c| + |extra|;
  }

  lemma LedgerParts(s0: Space, s: Space, root: nat, home: Homes, image: Image, extra: set<nat>)
    requires Loading(s0, s, root, home, image, extra)
    requires TreeOk(s.mem, s.tree, s.ledger) && TreeOk(s0.mem, s0.tree, s0.ledger)
    ensures var below := Below(s.tree, root).Keys;
            && s.ledger.Keys == s0.ledger.Keys + {root} + below + home.page.Keys + extra
            && root !in s0.ledger && (s0.ledger.Keys + {root}) !! below
            && (s0.ledger.Keys + {root} + below) !! home.page.Keys
            && (s0.ledger.Keys + {root} + below + home.page.Keys) !! extra
  {
    hide NodeOk, Holds, SameTranslations, Inverse, TreeOk, SameFrame;
    var below := Below(s.tree, root).Keys;
    forall f
      ensures f in s.ledger <==> f in s0.ledger || f == root || f in below || f in home.page || f in extra
      ensures f in below ==> f !in s0.ledger && f != root
      ensures f in home.page || f in extra ==> f !in s0.ledger && f != root && f !in below
    {
      if f in s.tree {
        TableFacts(s.mem, s.tree, s.ledger, f);
        TableIsRoot(s, f);
        if f in s0.tree {
          TableFacts(s0.mem, s0.tree, s0.ledger, f);
          TableFacts(s0.mem, s0.tree, s0.ledger, s0.tree[f].root);
        }
      }
    }
  }

  lemma TableIsRoot(s: Space, f: nat)
    requires TreeOk(s.mem, s.tree, s.ledger) && f in s.tree
    ensures s.tree[f].level == 0 ==> s.tree[f].root == f
  {
    assert NodeOk(s.mem, s.tree, f);
  }

  lemma TablesAdd(pages: set<nat>, v: nat)
    ensures TablesFor(pages + {v}) == TablesFor(pages) + PathSpots(v)
    ensures v in pages ==> PathSpots(v) <= TablesFor(pages)
  {
    hide PathSpots;
  }

  // -- the page mapped, or given back --

  ghost function Housed(home: Homes, vpn: nat, f: nat): Homes {
    Homes(home.frame[vpn := f], home.page[f := vpn], home.kernel)
  }

  /** The frame set aside becomes the page's home. */
  lemma MapDone(s0: Space, s: Space, s': Space, root: nat, home: Homes, image: Image, f: nat, vpn: nat, page: Page)
    requires TreeOk(s0.mem, s0.tree, s0.ledger) && TreeOk(s.mem, s.tree, s.ledger) && TreeOk(s'.mem, s'.tree, s'.ledger)
    requires Loading(s0, s, root, home, image, {f}) && f in s.mem && s.mem[f] == Data(page.bytes) && vpn < USER_PAGES
    requires MapEffect(s, s', root, vpn, page.flags) && Translate(s.mem, root, vpn) == None
    requires OneTranslation(s.mem, s'.mem, s.tree, root, vpn, Some(LeafEntry(f, page.flags)))
    ensures vpn !in image && Loading(s0, s', root, Housed(home, vpn, f), image[vpn := page], {})
  {
    hide NodeOk, TreeOk, MapEffect, SameTranslations, OneTranslation, Kept, NewTables;
    assert vpn !in image by { assert Translate(s.mem, root, vpn) == LeafOf(home, image, vpn); }
    MapKeeps(s0, s, s', root, vpn, page.flags);
    MapKeepsPages(s0, s, s', root, home, {f}, vpn, page.flags);
    PageHoused(s0, s', root, home, vpn, f);
    RootOf(s0, s.tree, root);
    PageHeld(s.mem, s'.mem, s.tree, root, home, image, f, vpn, page);
    OthersMapped(s0, s, s', root, vpn, Some(LeafEntry(f, page.flags)));
  }

  lemma RootOf(s0: Space, tree: Tree, root: nat)
    requires NewTables(s0, tree, root)
    ensures IsRoot(tree, root)
  {}

  lemma PageHoused(s0: Space, s: Space, root: nat, home: Homes, vpn: nat, f: nat)
    requires NewPages(s0, s, root, home, {f}) && vpn !in home.frame
    ensures NewPages(s0, s, root, Housed(home, vpn, f), {})
  {}

  lemma PageHeld(mem: Phys, mem': Phys, tree: Tree, root: nat, home: Homes, image: Image, f: nat, vpn: nat, page: Page)
    requires Holds(mem, root, home, image) && Inverse(home) && IsRoot(tree, root) && f !in home.page && vpn !in image
             && vpn < USER_PAGES
    requires OneTranslation(mem, mem', tree, root, vpn, Some(LeafEntry(f, page.flags)))
    requires (forall g :: g in home.page ==> SameFrame(mem, mem', g)) && f in mem' && mem'[f] == Data(page.bytes)
    requires KernelHalfShared(mem, mem', root, root)
    ensures Holds(mem', root, Housed(home, vpn, f), image[vpn := page])
  {
    var home', image' := Housed(home, vpn, f), image[vpn := page];
    forall v: nat | v < USER_PAGES
      ensures Translate(mem', root, v) == LeafOf(home', image', v)
    {
      assert Translate(mem, root, v) == LeafOf(home, image, v);
    }
  }

  lemma OthersMapped(s0: Space, s: Space, s': Space, root: nat, vpn: nat, to: Option<Entry>)
    requires SameTranslations(s0.mem, s.mem, s0.tree) && OneTranslation(s.mem, s'.mem, s.tree, root, vpn, to)
    requires NewTables(s0, s.tree, root) && TreeOk(s0.mem, s0.tree, s0.ledger)
    ensures SameTranslations(s0.mem, s'.mem, s0.tree)
  {
    hide NodeOk;
    forall r, v: nat | IsRoot(s0.tree, r) && v < USER_PAGES
      ensures Translate(s'.mem, r, v) == Translate(s0.mem, r, v)
    {
      assert Translate(s.mem, r, v) == Translate(s0.mem, r, v);
    }
  }

  /** A failed mapping may leave tables, nothing else. */
  lemma MapFailed(s0: Space, s: Space, s': Space, root: nat, home: Homes, image: Image, f: nat, vpn: nat, flags: Flags)
    requires TreeOk(s0.mem, s0.tree, s0.ledger) && TreeOk(s.mem, s.tree, s.ledger) && TreeOk(s'.mem, s'.tree, s'.ledger)
    requires Loading(s0, s, root, home, image, {f}) && MapEffect(s, s', root, vpn, flags) && vpn < USER_PAGES
    requires SameTranslations(s.mem, s'.mem, s.tree)
    ensures Loading(s0, s', root, home, image, {f}) && f !in s'.tree
  {
    hide NodeOk, TreeOk, MapEffect, SameTranslations, Kept, NewTables, SameFrame, Holds;
    MapKeeps(s0, s, s', root, vpn, flags);
    MapKeepsPages(s0, s, s', root, home, {f}, vpn, flags);
    RootOf(s0, s.tree, root);
    StillHeld(s.mem, s'.mem, s.tree, root, home, image, f);
    RootsKept(s0, s.tree, root);
    SameTranslationsTrans(s0, s, s'.mem);
  }

  lemma RootsKept(s0: Space, tree: Tree, root: nat)
    requires NewTables(s0, tree, root)
    ensures forall r :: IsRoot(s0.tree, r) ==> IsRoot(tree, r)
  {}

  /** Freeing the frame set aside. */
  lemma DropExtra(s0: Space, s: Space, s': Space, root: nat, home: Homes, image: Image, f: nat)
    requires Loading(s0, s, root, home, image, {f}) && TreeOk(s.mem, s.tree, s.ledger) && f !in s.tree
    requires s'.mem == s.mem && s'.tree == s.tree && s'.ledger == s.ledger - {f}
    ensures Loading(s0, s', root, home, image, {}) && TreeOk(s'.mem, s'.tree, s'.ledger)
    ensures |s'.ledger| + 1 == |s.ledger|
  {
    hide NodeOk, SameTranslations, Holds, SameFrame, Inverse, NewTables, NewPages, Kept, TreeOk;
    PagesDrop(s0, s, s', root, home, f);
    LedgerDrops(s0, s, s', f);
  }

  lemma PagesDrop(s0: Space, s: Space, s': Space, root: nat, home: Homes, f: nat)
    requires NewPages(s0, s, root, home, {f}) && s'.tree == s.tree && s'.ledger == s.ledger - {f}
    ensures NewPages(s0, s', root, home, {}) && f in s.ledger && f !in s0.ledger
  {
    hide Inverse;
  }

  lemma LedgerDrops(s0: Space, s: Space, s': Space, f: nat)
    requires Kept(s0, s) && TreeOk(s.mem, s.tree, s.ledger) && f !in s.tree && f in s.ledger && f !in s0.ledger
    requires s'.mem == s.mem && s'.tree == s.tree && s'.ledger == s.ledger - {f}
    ensures Kept(s0, s') && TreeOk(s'.mem, s'.tree, s'.ledger) && |s'.ledger| + 1 == |s.ledger|
  {
    hide NodeOk, SameFrame;
    OneFewer(s.ledger, f);
  }

  // ----- What a failed load has spent -----

  ghost predicate Starved(error: LoadError) {
    || error == LoadError.OutOfFrames || error == Map(MapError.OutOfFrames)
    || error == AddressSpace(MapError.OutOfFrames)
  }

  /** A load stops at its plan's fault, having held what the plan asks for, or it runs out of frames first,
      having held all there were. */
  ghost predicate Spent(error: LoadError, plan: Plan, supply: int, peak: nat) {
    if Starved(error) then peak == supply < Cost(plan) else plan.fault == Some(error) && peak == Cost(plan) <= supply
  }

  lemma SpentWithin(error: LoadError, plan: Plan, more: Plan, supply: int, peak: nat)
    requires Spent(error, plan, supply, peak) && Extends(plan, more)
    ensures Spent(error, more, supply, peak)
  {
    hide Cost;
  }

  /** Given up after holding `peak` frames. */
  ghost predicate Abandoned(s0: Space, s: Space, root: nat, peak: nat) {
    (exists home, image :: Loading(s0, s, root, home, image, {})) && GivenUp(s0, s, peak)
  }

  lemma NowAbandoned(s0: Space, s: Space, root: nat, home: Homes, image: Image, peak: nat)
    requires Loading(s0, s, root, home, image, {}) && GivenUp(s0, s, peak)
    ensures Abandoned(s0, s, root, peak)
  {}

  /** One more page after those of the image. */
  ghost function OnePage(image: Image, v: nat): Plan {
    PlanPages(Placed(image), v, v + 1)
  }

  lemma OnePageIs(image: Image, v: nat)
    ensures OnePage(image, v) == if v in image then Plan(image.Keys, Some(TAKEN)) else Plan(image.Keys + {v}, None)
    ensures FramesFor(image.Keys) < Cost(OnePage(image, v))
  {
    TablesGrow(image.Keys, image.Keys + {v});
    if v !in image {
      var next := Plan(image.Keys + {v}, None);
      assert PlanPages(next, v + 1, v + 1) == next;
      assert v in next.pages;
    }
  }

  lemma ReadyCost(s0: Space, s: Space, root: nat, home: Homes, image: Image)
    requires Ready(s0, s, root, home, image) && TreeOk(s.mem, s.tree, s.ledger) && TreeOk(s0.mem, s0.tree, s0.ledger)
    ensures |s.ledger| == |s0.ledger| + FramesFor(image.Keys)
    ensures GivenUp(s0, s, FramesFor(image.Keys)) && Loading(s0, s, root, home, image, {})
  {
    hide TreeOk, Loading, Spots, TablesFor;
    FramesTaken(s0, s, root, home, image, {});
  }

  /** The allocator refused a frame for the next page. */
  lemma NoFrameLeft(s0: Space, s: Space, root: nat, home: Homes, image: Image, v: nat, error: LoadError)
    returns (peak: nat)
    requires Ready(s0, s, root, home, image) && TreeOk(s.mem, s.tree, s.ledger) && TreeOk(s0.mem, s0.tree, s0.ledger)
    requires Starved(error)
    ensures Abandoned(s0, s, root, peak) && Spent(error, OnePage(image, v), |s.ledger| - |s0.ledger|, peak)
  {
    hide TreeOk, Loading, Ready, OnePage, Cost, FramesFor;
    peak := FramesFor(image.Keys);
    ReadyCost(s0, s, root, home, image);
    NowAbandoned(s0, s, root, home, image, peak);
    OnePageIs(image, v);
  }

  lemma MapCost(s0: Space, s: Space, s': Space, root: nat, home: Homes, image: Image, f: nat, vpn: nat)
    requires TreeOk(s0.mem, s0.tree, s0.ledger) && TreeOk(s'.mem, s'.tree, s'.ledger)
    requires Loading(s0, s', root, home, image, {f}) && Grown(s.tree, s'.tree, s.ledger, s'.ledger, root, vpn)
    requires Spots(s.tree, root) == TablesFor(image.Keys)
    ensures vpn in image ==> |s'.ledger| - |s0.ledger| == Cost(OnePage(image, vpn))
    ensures vpn !in image && !(PathSpots(vpn) <= Spots(s'.tree, root)) ==>
              |s'.ledger| - |s0.ledger| < Cost(OnePage(image, vpn))
  {
    hide TreeOk, Loading, Grown, Spots, PathSpots, TablesFor, OnePage;
    SpotsGrow(s, s', root, vpn);
    TablesAdd(image.Keys, vpn);
    FramesTaken(s0, s', root, home, image, {f});
    OnePageIs(image, vpn);
    if vpn in image {
      assert Spots(s'.tree, root) == TablesFor(image.Keys);
    } else if !(PathSpots(vpn) <= Spots(s'.tree, root)) {
      CardSubset(Spots(s'.tree, root), TablesFor(image.Keys + {vpn}));
      assert |image.Keys + {vpn}| == |image.Keys| + 1;
    }
  }

  lemma MapTables(s: Space, s': Space, root: nat, image: Image, vpn: nat, page: Page)
    requires TreeOk(s'.mem, s'.tree, s'.ledger) && Grown(s.tree, s'.tree, s.ledger, s'.ledger, root, vpn)
    requires IsRoot(s'.tree, root) && vpn < USER_PAGES && Translate(s'.mem, root, vpn).Some?
    requires Spots(s.tree, root) == TablesFor(image.Keys)
    ensures Spots(s'.tree, root) == TablesFor(image[vpn := page].Keys)
  {
    hide TreeOk, Grown, Spots, PathSpots, TablesFor, Translate;
    SpotsGrow(s, s', root, vpn);
    MappedPath(s', root, vpn);
    TablesAdd(image.Keys, vpn);
    assert image[vpn := page].Keys == image.Keys + {vpn};
  }

  // ----- The code -----

  /** A fresh zeroed frame for the root. */
  method TakeZeroedFrame(m: Machine, root: nat, ghost s0: Space, ghost home: Homes, ghost image: Image)
    returns (r: Option<nat>)
    requires m.Valid() && TreeOk(s0.mem, s0.tree, s0.ledger) && Ready(s0, m.Now(), root, home, image)
    modifies m, m.alloc, m.alloc.ranges, m.alloc.records
    ensures m.Valid() && m.alloc.Limit() == old(m.alloc.Limit())
    ensures r.None? ==> m.Now() == old(m.Now()) && m.alloc.Supply() == 0
    ensures r.Some? ==>
              && Loading(s0, m.Now(), root, home, image, {r.value}) && Lent(s0, m.Now())
              && Spots(m.tree, root) == TablesFor(image.Keys) && Spare(m, r.value, home, ZeroPage(), s0)
  {
    hide FrameAllocator.Valid, NodeOk, TreeOk, Loading, Apply, Enabled, Lent, Spots, TablesFor;
    ghost var s := m.Now();
    StackFits(m.alloc);
    r := m.alloc.AllocateOwned(ProcessMemory(root));
    if r.Some? {
      ghost var taken := m.Now();
      TakeExtra(s0, s, taken, root, home, image, r.value);
      m.mem := m.mem[r.value := Data(ZeroPage())];
      WriteExtra(s0, taken, root, home, image, {r.value}, r.value, Data(ZeroPage()));
      LentSame(s0, taken, m.Now());
    }
  }

  lemma LentSame(s0: Space, s: Space, s': Space)
    requires Lent(s0, s) && s'.ledger == s.ledger && s'.recycled == s.recycled
    ensures Lent(s0, s')
  {}

  /** A frame set aside, with room on the recycle stack to give it back. */
  ghost predicate Spare(m: Machine, f: nat, home: Homes, bytes: seq<Byte>, s0: Space)
    reads m, m.alloc
  {
    && f in m.mem && m.mem[f] == Data(bytes) && f !in m.tree && f !in home.page && f !in s0.ledger
    && |m.alloc.view.stack| < FREE_STACK_CAPACITY
  }

  /** Maps the frame set aside at a page; if that fails, gives the frame back. */
  method MapOrFree(m: Machine, root: nat, va: nat, frame: nat, flags: Flags,
                   ghost s0: Space, ghost home: Homes, ghost image: Image, ghost bytes: seq<Byte>)
    returns (r: Result<(), LoadError>, ghost peak: nat)
    requires m.Valid() && TreeOk(s0.mem, s0.tree, s0.ledger) && va < USER_CANONICAL_LIMIT
    requires Loading(s0, m.Now(), root, home, image, {frame}) && Lent(s0, m.Now())
    requires Spots(m.tree, root) == TablesFor(image.Keys) && Spare(m, frame, home, bytes, s0)
    modifies m, m.alloc, m.alloc.ranges, m.alloc.records, m.alloc.freeStack
    ensures m.Valid() && m.alloc.Limit() == old(m.alloc.Limit())
    ensures r.Ok? ==>
              && va / FRAME_SIZE !in image && va / FRAME_SIZE !in home.frame
              && Ready(s0, m.Now(), root, Housed(home, va / FRAME_SIZE, frame),
                       image[va / FRAME_SIZE := Page(flags, bytes)])
    ensures r.Err? ==>
              && r.error == Map(if va / FRAME_SIZE in image then AlreadyMapped else MapError.OutOfFrames)
              && Abandoned(s0, m.Now(), root, peak)
              && Spent(r.error, OnePage(image, va / FRAME_SIZE), m.alloc.Limit() - |s0.ledger|, peak)
  {
    hide FrameAllocator.Valid, NodeOk, TreeOk, Loading, GivenUp, Grown, SameOutside, Touched, OneTranslation,
         SameTranslations, Translate, Lent, LeafOf, LeafEntry, Spots, TablesFor, PathSpots, OnePage, Cost, Abandoned;
    ghost var s, v := m.Now(), va / FRAME_SIZE;
    UserPage(va);
    LoadingFacts(s0, s, root, home, image, {frame}, v);
    var mapped := m.MapPage(root, va, frame, flags);
    ghost var s' := m.Now();
    assert MapEffect(s, s', root, v, flags);
    LentTrans(s0, s, s');
    if mapped.Ok? {
      MapDone(s0, s, s', root, home, image, frame, v, Page(flags, bytes));
      LoadingFacts(s0, s', root, Housed(home, v, frame), image[v := Page(flags, bytes)], {}, v);
      MapTables(s, s', root, image, v, Page(flags, bytes));
      r, peak := Ok(()), 0;
    } else {
      MapFailed(s0, s, s', root, home, image, frame, v, flags);
      MapCost(s0, s, s', root, home, image, frame, v);
      AllSupplied(m.alloc);
      LoadingFacts(s0, s', root, home, image, {frame}, v);
      FreeIsOk(m.alloc, frame, root);
      StackStill(s, s');
      var _ := m.alloc.FreeOwned(frame, ProcessMemory(root));
      DropExtra(s0, s', m.Now(), root, home, image, frame);
      peak := GaveBack(s0, s', m.Now());
      NowAbandoned(s0, m.Now(), root, home, image, peak);
      OnePageIs(image, v);
      r := Err(Map(mapped.error));
    }
  }

  lemma LoadingFacts(s0: Space, s: Space, root: nat, home: Homes, image: Image, extra: set<nat>, v: nat)
    requires Loading(s0, s, root, home, image, extra)
    ensures IsRoot(s.tree, root) && home.frame.Keys == image.Keys
    ensures v < USER_PAGES ==> (Translate(s.mem, root, v).Some? <==> v in image)
    ensures forall f :: f in extra ==> f in s.ledger && s.ledger[f] == ProcessMemory(root)
  {
    hide Kept;
    assert v < USER_PAGES ==> Translate(s.mem, root, v) == LeafOf(home, image, v);
  }

  lemma StackStill(s: Space, s': Space)
    requires Lent(s, s')
    ensures s'.recycled <= s.recycled
  {}

  lemma FreeIsOk(alloc: FrameAllocator, f: nat, root: nat)
    requires alloc.Valid() && f in alloc.view.ledger && alloc.view.ledger[f] == ProcessMemory(root)
    ensures FreeOutcome(f, Some(ProcessMemory(root)), alloc.view)
         == if |alloc.view.stack| == FREE_STACK_CAPACITY then Err(FreeStackFull) else Ok(())
  {
    SoundFacts(alloc.view, f);
  }

  lemma GaveBack(s0: Space, s: Space, s': Space) returns (peak: nat)
    requires Lent(s0, s) && |s'.ledger| + 1 == |s.ledger| && s'.recycled == s.recycled + 1
    ensures GivenUp(s0, s', peak) && peak == |s.ledger| - |s0.ledger|
  {
    peak := |s.ledger| - |s0.ledger|;
  }

  /** Copies the file's bytes for `[start, end)` into the frame of the page at `page`. */
  method CopySegmentBytes(m: Machine, file: seq<Byte>, frame: nat, h: Elf.ProgramHeader, page: nat, start: nat,
                          end: nat)
    requires frame in m.mem && m.mem[frame] == Data(ZeroPage()) && SegmentOk(file, h)
    requires page <= start < end <= page + FRAME_SIZE && h.vaddr <= start && end <= h.vaddr + h.filesz
    modifies m`mem
    ensures frame in m.mem && m.mem == old(m.mem)[frame := m.mem[frame]] && m.mem[frame].Data?
    ensures |m.mem[frame].bytes| == FRAME_SIZE
    ensures forall i :: 0 <= i < FRAME_SIZE ==>
          m.mem[frame].bytes[i] == if start <= page + i < end then file[h.offset + (page + i - h.vaddr)] else 0
  {
    var length, source, destination := end - start, h.offset + (start - h.vaddr), start - page;
    var bytes := m.mem[frame].bytes;
    m.mem := m.mem[frame := Data(bytes[..destination] + file[source..source + length] + bytes[destination + length..])];
  }

  /** The copied range of a page is the segment's bytes there, and the rest of the page is zero. */
  lemma CopiedPage(file: seq<Byte>, h: Elf.ProgramHeader, page: nat, bytes: seq<Byte>)
    requires SegmentOk(file, h) && page % FRAME_SIZE == 0 && |bytes| == FRAME_SIZE
    requires var start, end := Max(page, h.vaddr), Min(page + FRAME_SIZE, h.vaddr + h.filesz);
             forall i :: 0 <= i < FRAME_SIZE ==>
                           bytes[i] == if start <= page + i < end then file[h.offset + (page + i - h.vaddr)] else 0
    ensures bytes == PageBytes(file, h, page / FRAME_SIZE)
  {
    var v := page / FRAME_SIZE;
    assert v * FRAME_SIZE == page;
    var want := PageBytes(file, h, v);
    assert IsPageOf(file, h, v, want);
    forall i: nat | i < FRAME_SIZE
      ensures bytes[i] == want[i]
    {
      assert want[i] == SegmentByte(file, h, page + i);
    }
  }

  function Min(a: nat, b: nat): nat {
    if a < b then a else b
  }

  /** A zeroed frame with the segment's bytes for one page copied in. */
  method FillPage(m: Machine, file: seq<Byte>, frame: nat, h: Elf.ProgramHeader, page: nat)
    requires frame in m.mem && m.mem[frame] == Data(ZeroPage()) && SegmentOk(file, h) && page % FRAME_SIZE == 0
    modifies m`mem
    ensures m.mem == old(m.mem)[frame := Data(PageBytes(file, h, page / FRAME_SIZE))]
  {
    var copyStart, copyEnd := Max(page, h.vaddr), Min(page + FRAME_SIZE, h.vaddr + h.filesz);
    if copyStart < copyEnd {
      CopySegmentBytes(m, file, frame, h, page, copyStart, copyEnd);
    }
    CopiedPage(file, h, page, m.mem[frame].bytes);
  }

  /** One page of a segment. */
  method LoadPage(m: Machine, file: seq<Byte>, root: nat, h: Elf.ProgramHeader, page: nat, ghost v: nat,
                  ghost s0: Space, ghost home: Homes, ghost image: Image)
    returns (r: Result<(), LoadError>, ghost home': Homes, ghost peak: nat)
    requires m.Valid() && TreeOk(s0.mem, s0.tree, s0.ledger) && Ready(s0, m.Now(), root, home, image)
    requires SegmentOk(file, h) && page == v * FRAME_SIZE && v < USER_PAGES
    modifies m, m.alloc, m.alloc.ranges, m.alloc.records, m.alloc.freeStack
    ensures m.Valid() && m.alloc.Limit() == old(m.alloc.Limit())
    ensures r.Ok? ==>
              && v !in image && home'.kernel == home.kernel
              && Ready(s0, m.Now(), root, home', image[v := Page(SegmentFlags(h), PageBytes(file, h, v))])
    ensures r.Err? ==>
              Abandoned(s0, m.Now(), root, peak)
              && Spent(r.error, OnePage(image, v), m.alloc.Limit() - |s0.ledger|, peak)
  {
    hide FrameAllocator.Valid, NodeOk, TreeOk, Loading, Lent, Spots, TablesFor, Abandoned, SegmentOk, PageBytes,
         OnePage, Spent;
    ghost var bytes := PageBytes(file, h, v);
    PageNumber(page, v);
    home', peak := home, 0;
    var frame := TakeZeroedFrame(m, root, s0, home, image);
    if frame.None? {
      r := Err(LoadError.OutOfFrames);
      peak := NoFrameLeft(s0, m.Now(), root, home, image, v, r.error);
    } else {
      ghost var zeroed := m.Now();
      FillPage(m, file, frame.value, h, page);
      WriteExtra(s0, zeroed, root, home, image, {frame.value}, frame.value, Data(bytes));
      LentSame(s0, zeroed, m.Now());
      r, peak := MapOrFree(m, root, page, frame.value, SegmentFlags(h), s0, home, image, bytes);
      if r.Ok? { home' := Housed(home, v, frame.value); }
    }
  }

  lemma PageNumber(page: nat, v: nat)
    requires page == v * FRAME_SIZE
    ensures page / FRAME_SIZE == v && page % FRAME_SIZE == 0
    ensures page < USER_CANONICAL_LIMIT <==> v < USER_PAGES
  {}

  // ----- Segments -----

  /** The loader's checks on a segment, and the page range it then maps. */
  function CheckSegment(file: seq<Byte>, h: Elf.ProgramHeader): Option<(nat, nat)> {
    if h.memsz < h.filesz || h.vaddr >= USER_CANONICAL_LIMIT then None
    else if h.offset + h.filesz >= U64_LIMIT || h.offset + h.filesz > |file| then None
    else if h.vaddr + h.memsz >= U64_LIMIT || h.vaddr + h.memsz + (FRAME_SIZE - 1) >= U64_LIMIT then None
    else
      var pageEnd := AlignDown(h.vaddr + h.memsz + (FRAME_SIZE - 1));
      if pageEnd > USER_CANONICAL_LIMIT then None else Some((AlignDown(h.vaddr), pageEnd))
  }

  /** The checks accept exactly the segments that lie in the file and in the user half. */
  lemma CheckExact(file: seq<Byte>, h: Elf.ProgramHeader)
    requires |file| < U64_LIMIT
    ensures CheckSegment(file, h).Some? <==> SegmentOk(file, h)
    ensures CheckSegment(file, h).Some? ==>
              && CheckSegment(file, h).value == (FirstPage(h) * FRAME_SIZE, EndPage(h) * FRAME_SIZE)
              && FirstPage(h) <= EndPage(h) <= USER_PAGES
  {}

  ghost predicate Disjoint(a: Image, b: Image) {
    forall v :: v in a ==> v !in b
  }

  /** Loads a segment: exactly its pages are added, or the load is abandoned where its plan says. */
  method LoadSegment(m: Machine, file: seq<Byte>, root: nat, h: Elf.ProgramHeader,
                     ghost s0: Space, ghost home: Homes, ghost image: Image)
    returns (r: Result<(), LoadError>, ghost home': Homes, ghost peak: nat)
    requires m.Valid() && TreeOk(s0.mem, s0.tree, s0.ledger) && Ready(s0, m.Now(), root, home, image)
             && |file| < U64_LIMIT
    modifies m, m.alloc, m.alloc.ranges, m.alloc.records, m.alloc.freeStack
    ensures m.Valid() && m.alloc.Limit() == old(m.alloc.Limit())
    ensures r.Ok? ==>
              && SegmentOk(file, h) && Disjoint(SegmentPages(file, h, EndPage(h)), image) && home'.kernel == home.kernel
              && Ready(s0, m.Now(), root, home', image + SegmentPages(file, h, EndPage(h)))
              && PlanSegment(Placed(image), file, h) == Placed(image + SegmentPages(file, h, EndPage(h)))
    ensures r.Err? ==>
              && Abandoned(s0, m.Now(), root, peak)
              && Spent(r.error, PlanSegment(Placed(image), file, h), m.alloc.Limit() - |s0.ledger|, peak)
  {
    hide FrameAllocator.Valid, NodeOk, TreeOk, Abandoned, SegmentOk, SegmentPages, Ready, FirstPage, EndPage,
         CheckSegment, Disjoint, FramesFor, PlanPages;
    CheckExact(file, h);
    home', peak := home, 0;
    var range := CheckSegment(file, h);
    if range.None? {
      ReadyCost(s0, m.Now(), root, home, image);
      AllSupplied(m.alloc);
      peak := FramesFor(image.Keys);
      NowAbandoned(s0, m.Now(), root, home, image, peak);
      r := Err(BadSegment);
    } else {
      r, home', peak := LoadPages(m, file, root, h, range.value.0, range.value.1, s0, home, image);
    }
  }

  /** The pages of a well-formed segment, in order. */
  method LoadPages(m: Machine, file: seq<Byte>, root: nat, h: Elf.ProgramHeader, pageStart: nat, pageEnd: nat,
                   ghost s0: Space, ghost home: Homes, ghost image: Image)
    returns (r: Result<(), LoadError>, ghost home': Homes, ghost peak: nat)
    requires m.Valid() && TreeOk(s0.mem, s0.tree, s0.ledger) && Ready(s0, m.Now(), root, home, image)
    requires SegmentOk(file, h) && FirstPage(h) <= EndPage(h) <= USER_PAGES
    requires pageStart == FirstPage(h) * FRAME_SIZE && pageEnd == EndPage(h) * FRAME_SIZE
    modifies m, m.alloc, m.alloc.ranges, m.alloc.records, m.alloc.freeStack
    ensures m.Valid() && m.alloc.Limit() == old(m.alloc.Limit())
    ensures r.Ok? ==>
              && Disjoint(SegmentPages(file, h, EndPage(h)), image) && home'.kernel == home.kernel
              && Ready(s0, m.Now(), root, home', image + SegmentPages(file, h, EndPage(h)))
              && PlanPages(Placed(image), FirstPage(h), EndPage(h)) == Placed(image + SegmentPages(file, h, EndPage(h)))
    ensures r.Err? ==>
              && Abandoned(s0, m.Now(), root, peak)
              && Spent(r.error, PlanPages(Placed(image), FirstPage(h), EndPage(h)), m.alloc.Limit() - |s0.ledger|, peak)
  {
    hide FrameAllocator.Valid, FrameAllocator.Limit, NodeOk, TreeOk, Abandoned, SegmentOk, FirstPage, EndPage,
         LoadedTo, PlanPages, Spent, Placed, Ready, SegmentPages, Disjoint;
    home', peak := home, 0;
    ghost var plan := PlanPages(Placed(image), FirstPage(h), EndPage(h));
    var page := pageStart;
    ghost var v := FirstPage(h);
    NothingAdded(s0, m.Now(), root, file, h, home, image);
    r := Ok(());
    while page < pageEnd && r.Ok?
      invariant m.Valid() && m.alloc.Limit() == old(m.alloc.Limit())
      invariant page == v * FRAME_SIZE && FirstPage(h) <= v <= EndPage(h)
      invariant r.Ok? ==> LoadedTo(s0, m.Now(), root, file, h, home, image, home', v)
      invariant r.Err? ==>
                  Abandoned(s0, m.Now(), root, peak) && Spent(r.error, plan, m.alloc.Limit() - |s0.ledger|, peak)
      decreases pageEnd - page
    {
      r, home', peak := LoadNextPage(m, file, root, h, page, v, s0, home, image, home');
      page := page + FRAME_SIZE;
      v := v + 1;
    }
    if r.Ok? { AllAdded(s0, m.Now(), root, file, h, home, image, home'); }
  }

  /** The pages of the segment below `v` are loaded; the rest of the plan is what is left. */
  ghost predicate LoadedTo(s0: Space, s: Space, root: nat, file: seq<Byte>, h: Elf.ProgramHeader,
                           home: Homes, image: Image, home': Homes, v: nat) {
    && FirstPage(h) <= v && home'.kernel == home.kernel
    && Disjoint(SegmentPages(file, h, v), image)
    && Ready(s0, s, root, home', image + SegmentPages(file, h, v))
    && PlanPages(Placed(image), FirstPage(h), EndPage(h))
       == PlanPages(Placed(image + SegmentPages(file, h, v)), v, EndPage(h))
  }

  method LoadNextPage(m: Machine, file: seq<Byte>, root: nat, h: Elf.ProgramHeader, page: nat, ghost v: nat,
                      ghost s0: Space, ghost home: Homes, ghost image: Image, ghost sofar: Homes)
    returns (r: Result<(), LoadError>, ghost home': Homes, ghost peak: nat)
    requires m.Valid() && TreeOk(s0.mem, s0.tree, s0.ledger)
             && LoadedTo(s0, m.Now(), root, file, h, home, image, sofar, v)
    requires SegmentOk(file, h) && page == v * FRAME_SIZE && v < EndPage(h) <= USER_PAGES
    modifies m, m.alloc, m.alloc.ranges, m.alloc.records, m.alloc.freeStack
    ensures m.Valid() && m.alloc.Limit() == old(m.alloc.Limit())
    ensures r.Ok? ==> LoadedTo(s0, m.Now(), root, file, h, home, image, home', v + 1)
    ensures r.Err? ==>
              && Abandoned(s0, m.Now(), root, peak)
              && Spent(r.error, PlanPages(Placed(image), FirstPage(h), EndPage(h)), m.alloc.Limit() - |s0.ledger|, peak)
  {
    hide FrameAllocator.Valid, NodeOk, TreeOk, Abandoned, SegmentOk, SegmentPages, Ready, FirstPage, EndPage,
         PageBytes, Disjoint, SegmentFlags, PlanPages, Spent, Placed, OnePage;
    ghost var all := image + SegmentPages(file, h, v);
    r, home', peak := LoadPage(m, file, root, h, page, v, s0, sofar, all);
    if r.Ok? {
      PageAdded(file, h, image, v);
      PlanStep(all, v, EndPage(h), Page(SegmentFlags(h), PageBytes(file, h, v)));
    } else {
      OnePageFirst(all, v, EndPage(h));
      SpentWithin(r.error, OnePage(all, v), PlanPages(Placed(all), v, EndPage(h)), m.alloc.Limit() - |s0.ledger|, peak);
    }
  }

  lemma PlanStep(image: Image, v: nat, end: nat, page: Page)
    requires v < end && v !in image
    ensures PlanPages(Placed(image), v, end) == PlanPages(Placed(image[v := page]), v + 1, end)
  {
    assert image[v := page].Keys == image.Keys + {v};
  }

  lemma OnePageFirst(image: Image, v: nat, end: nat)
    requires v < end
    ensures Extends(OnePage(image, v), PlanPages(Placed(image), v, end))
  {
    OnePageIs(image, v);
    if v !in image { PagesExtend(Plan(image.Keys + {v}, None), v + 1, end); }
  }

  lemma NothingAdded(s0: Space, s: Space, root: nat, file: seq<Byte>, h: Elf.ProgramHeader, home: Homes, image: Image)
    requires Ready(s0, s, root, home, image)
    ensures LoadedTo(s0, s, root, file, h, home, image, home, FirstPage(h))
  {
    hide Ready, FirstPage, PageBytes, PlanPages;
    assert image + SegmentPages(file, h, FirstPage(h)) == image;
  }

  lemma AllAdded(s0: Space, s: Space, root: nat, file: seq<Byte>, h: Elf.ProgramHeader, home: Homes, image: Image,
                 home': Homes)
    requires LoadedTo(s0, s, root, file, h, home, image, home', EndPage(h)) && SegmentOk(file, h)
    ensures Disjoint(SegmentPages(file, h, EndPage(h)), image) && home'.kernel == home.kernel
    ensures Ready(s0, s, root, home', image + SegmentPages(file, h, EndPage(h)))
    ensures PlanPages(Placed(image), FirstPage(h), EndPage(h)) == Placed(image + SegmentPages(file, h, EndPage(h)))
  {
    hide Ready, SegmentPages, FirstPage, EndPage, Disjoint;
  }

  lemma PageAdded(file: seq<Byte>, h: Elf.ProgramHeader, image: Image, v: nat)
    requires FirstPage(h) <= v && Disjoint(SegmentPages(file, h, v), image) && v !in image + SegmentPages(file, h, v)
    ensures (image + SegmentPages(file, h, v))[v := Page(SegmentFlags(h), PageBytes(file, h, v))]
         == image + SegmentPages(file, h, v + 1)
    ensures Disjoint(SegmentPages(file, h, v + 1), image)
  {
    hide PageBytes;
  }

  // ----- The stack -----

  ghost predicate StackTo(s0: Space, s: Space, root: nat, home: Homes, image: Image, home': Homes, v: nat) {
    && STACK_FIRST_PAGE <= v <= STACK_TOP_PAGE && home'.kernel == home.kernel
    && Disjoint(StackPages(v), image)
    && Ready(s0, s, root, home', image + StackPages(v))
    && StackPlan(image) == PlanPages(Placed(image + StackPages(v)), v, STACK_TOP_PAGE)
  }

  ghost function StackPlan(image: Image): Plan {
    PlanPages(Placed(image), STACK_FIRST_PAGE, STACK_TOP_PAGE)
  }

  lemma NoStackYet(s0: Space, s: Space, root: nat, home: Homes, image: Image)
    requires Ready(s0, s, root, home, image)
    ensures StackTo(s0, s, root, home, image, home, STACK_FIRST_PAGE)
  {
    hide Ready, StackPage, PlanPages;
    assert image + StackPages(STACK_FIRST_PAGE) == image;
  }

  lemma StackPageAdded(image: Image, v: nat)
    requires STACK_FIRST_PAGE <= v && Disjoint(StackPages(v), image) && v !in image + StackPages(v)
    ensures (image + StackPages(v))[v := StackPage(v)] == image + StackPages(v + 1)
            && Disjoint(StackPages(v + 1), image)
  {
    hide StackPage;
  }

  method MapStackPage(m: Machine, root: nat, page: nat, ghost v: nat,
                      ghost s0: Space, ghost home: Homes, ghost image: Image, ghost sofar: Homes)
    returns (r: Result<(), LoadError>, ghost home': Homes, ghost peak: nat)
    requires m.Valid() && TreeOk(s0.mem, s0.tree, s0.ledger) && StackTo(s0, m.Now(), root, home, image, sofar, v)
    requires page == v * FRAME_SIZE && v < STACK_TOP_PAGE
    modifies m, m.alloc, m.alloc.ranges, m.alloc.records, m.alloc.freeStack
    ensures m.Valid() && m.alloc.Limit() == old(m.alloc.Limit())
    ensures r.Ok? ==> StackTo(s0, m.Now(), root, home, image, home', v + 1)
    ensures r.Err? ==>
              Abandoned(s0, m.Now(), root, peak)
              && Spent(r.error, StackPlan(image), m.alloc.Limit() - |s0.ledger|, peak)
  {
    hide FrameAllocator.Valid, NodeOk, TreeOk, Loading, GivenUp, Abandoned, Disjoint, StackPages, Lent, Spots,
         TablesFor, PlanPages, Placed, Spent, OnePage, StackPlan, Ready;
    ghost var all := image + StackPages(v);
    PageNumber(page, v);
    home', peak := sofar, 0;
    var frame := TakeZeroedFrame(m, root, s0, sofar, all);
    if frame.None? {
      r := Err(LoadError.OutOfFrames);
      peak := NoFrameLeft(s0, m.Now(), root, sofar, all, v, r.error);
    } else {
      r, peak := MapOrFree(m, root, page, frame.value, UserFlags(true, false), s0, sofar, all, ZeroPage());
    }
    if r.Ok? {
      home' := Housed(sofar, v, frame.value);
      StackPageAdded(image, v);
      PlanStep(all, v, STACK_TOP_PAGE, StackPage(v));
    } else {
      OnePageFirst(all, v, STACK_TOP_PAGE);
      SpentWithin(r.error, OnePage(all, v), StackPlan(image), m.alloc.Limit() - |s0.ledger|, peak);
    }
  }

  /** Maps eight zero pages below the stack top. */
  method MapUserStack(m: Machine, root: nat, ghost s0: Space, ghost home: Homes, ghost image: Image)
    returns (r: Result<(), LoadError>, ghost home': Homes, ghost peak: nat)
    requires m.Valid() && TreeOk(s0.mem, s0.tree, s0.ledger) && Ready(s0, m.Now(), root, home, image)
    modifies m, m.alloc, m.alloc.ranges, m.alloc.records, m.alloc.freeStack
    ensures m.Valid() && m.alloc.Limit() == old(m.alloc.Limit())
    ensures r.Ok? ==> StackTo(s0, m.Now(), root, home, image, home', STACK_TOP_PAGE)
    ensures r.Err? ==>
              Abandoned(s0, m.Now(), root, peak)
              && Spent(r.error, StackPlan(image), m.alloc.Limit() - |s0.ledger|, peak)
  {
    hide FrameAllocator.Valid, FrameAllocator.Limit, NodeOk, TreeOk, Abandoned, StackTo, Spent, StackPlan, Ready;
    home', peak := home, 0;
    NoStackYet(s0, m.Now(), root, home, image);
    var page := USER_STACK_TOP - USER_STACK_PAGES * FRAME_SIZE;
    ghost var v := STACK_FIRST_PAGE;
    r := Ok(());
    while page < USER_STACK_TOP && r.Ok?
      invariant m.Valid() && m.alloc.Limit() == old(m.alloc.Limit())
      invariant page == v * FRAME_SIZE && STACK_FIRST_PAGE <= v <= STACK_TOP_PAGE
      invariant r.Ok? ==> StackTo(s0, m.Now(), root, home, image, home', v)
      invariant r.Err? ==>
                  Abandoned(s0, m.Now(), root, peak)
                  && Spent(r.error, StackPlan(image), m.alloc.Limit() - |s0.ledger|, peak)
    {
      r, home', peak := MapStackPage(m, root, page, v, s0, home, image, home');
      page := page + FRAME_SIZE;
      v := v + 1;
    }
  }

  // ----- The whole program -----

  ghost predicate HeadersTo(s0: Space, s: Space, root: nat, elf: Elf.Elf, home: Homes, k: nat) {
    k <= elf.phnum && PlanHeaders(elf, k) == Placed(ImageUpTo(elf, k)) && Ready(s0, s, root, home, ImageUpTo(elf, k))
  }

  lemma HeaderLoaded(s0: Space, s: Space, root: nat, elf: Elf.Elf, home: Homes, k: nat)
    requires k < elf.phnum && IsLoad(elf, k) && PlanHeaders(elf, k) == Placed(ImageUpTo(elf, k))
    requires Ready(s0, s, root, home, ImageUpTo(elf, k) + SegmentImage(elf, k))
    requires PlanSegment(Placed(ImageUpTo(elf, k)), elf.bytes, Header(elf, k))
          == Placed(ImageUpTo(elf, k) + SegmentImage(elf, k))
    ensures HeadersTo(s0, s, root, elf, home, k + 1)
  {
    hide Ready, SegmentImage, PlanSegment, IsLoad, Header, Placed;
  }

  lemma HeaderSkipped(s0: Space, s: Space, root: nat, elf: Elf.Elf, home: Homes, k: nat)
    requires HeadersTo(s0, s, root, elf, home, k) && k < elf.phnum && !IsLoad(elf, k)
    ensures HeadersTo(s0, s, root, elf, home, k + 1)
  {
    hide Ready, IsLoad, ImageUpTo, PlanHeaders, Placed;
    SkipsNothing(elf, k);
  }

  lemma SkipsNothing(elf: Elf.Elf, k: nat)
    requires !IsLoad(elf, k)
    ensures ImageUpTo(elf, k + 1) == ImageUpTo(elf, k) && PlanHeaders(elf, k + 1) == PlanHeaders(elf, k)
  {
    assert SegmentImage(elf, k) == map[];
    hide IsLoad, SegmentImage, PlanSegment;
    assert ImageUpTo(elf, k + 1) == ImageUpTo(elf, k) + SegmentImage(elf, k);
  }

  /** One program header: loaded if it asks to be. */
  method LoadHeader(m: Machine, elf: Elf.Elf, root: nat, index: nat, ghost s0: Space, ghost home: Homes)
    returns (r: Result<(), LoadError>, ghost home': Homes, ghost peak: nat)
    requires m.Valid() && TreeOk(s0.mem, s0.tree, s0.ledger) && HeadersTo(s0, m.Now(), root, elf, home, index)
    requires index < elf.phnum && |elf.bytes| < U64_LIMIT
    modifies m, m.alloc, m.alloc.ranges, m.alloc.records, m.alloc.freeStack
    ensures m.Valid() && m.alloc.Limit() == old(m.alloc.Limit())
    ensures r.Ok? ==> HeadersTo(s0, m.Now(), root, elf, home', index + 1) && home'.kernel == home.kernel
    ensures r.Err? ==>
              Abandoned(s0, m.Now(), root, peak) && Spent(r.error, PlanOf(elf), m.alloc.Limit() - |s0.ledger|, peak)
  {
    hide FrameAllocator.Valid, NodeOk, TreeOk, Abandoned, Ready, ImageUpTo, PlanOf, Spent, PlanSegment, Placed,
         Extends, Elf.ProgramHeaderAt, SegmentPages, Disjoint, SegmentOk, EndPage;
    r, home', peak := Ok(()), home, 0;
    var header := Elf.ProgramHeaderAt(elf, index);
    if header.Some? && header.value.typ == Elf.PT_LOAD {
      r, home', peak := LoadSegment(m, elf.bytes, root, header.value, s0, home, ImageUpTo(elf, index));
      if r.Ok? {
        HeaderLoaded(s0, m.Now(), root, elf, home', index);
      } else {
        PlanExtends(elf, index + 1);
        SpentWithin(r.error, PlanHeaders(elf, index + 1), PlanOf(elf), m.alloc.Limit() - |s0.ledger|, peak);
      }
    } else {
      HeaderSkipped(s0, m.Now(), root, elf, home, index);
    }
  }

  /** Loads every segment and the stack: the address space then holds exactly the program's image. */
  method LoadIntoAddressSpace(m: Machine, elf: Elf.Elf, root: nat, ghost s0: Space, ghost kernel: seq<Entry>)
    returns (r: Result<UserImage, LoadError>, ghost home: Homes, ghost peak: nat)
    requires m.Valid() && TreeOk(s0.mem, s0.tree, s0.ledger) && Ready(s0, m.Now(), root, NoHomes(kernel), map[])
    requires |elf.bytes| < U64_LIMIT
    modifies m, m.alloc, m.alloc.ranges, m.alloc.records, m.alloc.freeStack
    ensures m.Valid() && m.alloc.Limit() == old(m.alloc.Limit())
    ensures r.Ok? ==>
              && r.value == UserImage(root, elf.entry, USER_STACK_TOP) && home.kernel == kernel
              && PlanOf(elf) == Placed(ImageOf(elf)) && Ready(s0, m.Now(), root, home, ImageOf(elf))
    ensures r.Err? ==>
              Abandoned(s0, m.Now(), root, peak) && Spent(r.error, PlanOf(elf), m.alloc.Limit() - |s0.ledger|, peak)
  {
    hide FrameAllocator.Valid, NodeOk, TreeOk, Abandoned, Ready, HeadersTo, StackTo, ImageUpTo, StackPages, PlanOf,
         Spent, Elf.ProgramHeaderAt, SegmentPages, Disjoint, SegmentOk, StackPlan;
    var done: Result<(), LoadError> := Ok(());
    home, peak := NoHomes(kernel), 0;
    NoHeaders(s0, m.Now(), root, elf, kernel);
    var index := 0;
    while index < elf.phnum && done.Ok?
      invariant m.Valid() && m.alloc.Limit() == old(m.alloc.Limit()) && index <= elf.phnum
      invariant done.Ok? ==> HeadersTo(s0, m.Now(), root, elf, home, index) && home.kernel == kernel
      invariant done.Err? ==>
                  Abandoned(s0, m.Now(), root, peak)
                  && Spent(done.error, PlanOf(elf), m.alloc.Limit() - |s0.ledger|, peak)
    {
      done, home, peak := LoadHeader(m, elf, root, index, s0, home);
      index := index + 1;
    }
    if done.Err? {
      r := Err(done.error);
    } else {
      ghost var before := home;
      HeadersDone(s0, m.Now(), root, elf, home);
      done, home, peak := MapUserStack(m, root, s0, home, ImageUpTo(elf, elf.phnum));
      if done.Err? {
        r := Err(done.error);
      } else {
        StackLoaded(s0, m.Now(), root, elf, before, home);
        r := Ok(UserImage(root, elf.entry, USER_STACK_TOP));
      }
    }
  }

  lemma NoHeaders(s0: Space, s: Space, root: nat, elf: Elf.Elf, kernel: seq<Entry>)
    requires Ready(s0, s, root, NoHomes(kernel), map[])
    ensures HeadersTo(s0, s, root, elf, NoHomes(kernel), 0)
  {
    hide Ready;
  }

  lemma HeadersDone(s0: Space, s: Space, root: nat, elf: Elf.Elf, home: Homes)
    requires HeadersTo(s0, s, root, elf, home, elf.phnum)
    ensures Ready(s0, s, root, home, ImageUpTo(elf, elf.phnum)) && StackPlan(ImageUpTo(elf, elf.phnum)) == PlanOf(elf)
  {
    hide Ready, PlanPages, ImageUpTo, Placed;
  }

  lemma StackLoaded(s0: Space, s: Space, root: nat, elf: Elf.Elf, home: Homes, home': Homes)
    requires StackTo(s0, s, root, home, ImageUpTo(elf, elf.phnum), home', STACK_TOP_PAGE)
    requires StackPlan(ImageUpTo(elf, elf.phnum)) == PlanOf(elf)
    ensures Ready(s0, s, root, home', ImageOf(elf)) && home'.kernel == home.kernel
            && PlanOf(elf) == Placed(ImageOf(elf))
  {
    hide Ready, StackPages, ImageUpTo, PlanOf;
  }

  // ----- Rolling back -----

  /** What the teardown of a half-loaded root claims is exactly what the load took. */
  lemma ClaimsWhatWasTaken(s0: Space, s: Space, root: nat, home: Homes, image: Image)
    requires Loading(s0, s, root, home, image, {}) && TreeOk(s.mem, s.tree, s.ledger)
             && TreeOk(s0.mem, s0.tree, s0.ledger)
    ensures s.ledger - ClaimedFrames(s, root) == s0.ledger
    ensures |ClaimedFrames(s, root)| + |s0.ledger| == |s.ledger|
  {
    hide NodeOk, TreeOk, Loading, Claimed;
    forall f | f in s.ledger
      ensures Claimed(s, root, f) <==> f !in s0.ledger
    {
      TakenIsClaimed(s0, s, root, home, image, f);
    }
    assert Kept(s0, s) by { KeptFrom(s0, s, root, home, image); }
    LedgerSplit(s0, s, root);
  }

  lemma KeptFrom(s0: Space, s: Space, root: nat, home: Homes, image: Image)
    requires Loading(s0, s, root, home, image, {})
    ensures Kept(s0, s)
  {
    hide Kept;
  }

  lemma LedgerSplit(s0: Space, s: Space, root: nat)
    requires Kept(s0, s) && forall f :: f in s.ledger ==> (Claimed(s, root, f) <==> f !in s0.ledger)
    ensures s.ledger - ClaimedFrames(s, root) == s0.ledger
    ensures |ClaimedFrames(s, root)| + |s0.ledger| == |s.ledger|
  {
    hide Claimed, SameFrame;
    var claimed := ClaimedFrames(s, root);
    assert s.ledger.Keys == s0.ledger.Keys + claimed && s0.ledger.Keys !! claimed;
    hide ClaimedFrames, Kept;
    assert |s.ledger.Keys| == |s0.ledger.Keys| + |claimed|;
  }

  lemma TakenIsClaimed(s0: Space, s: Space, root: nat, home: Homes, image: Image, f: nat)
    requires Loading(s0, s, root, home, image, {}) && TreeOk(s.mem, s.tree, s.ledger)
             && TreeOk(s0.mem, s0.tree, s0.ledger)
    requires f in s.ledger
    ensures Claimed(s, root, f) <==> f !in s0.ledger
  {
    hide NodeOk, SameTranslations, Translate;
    ClaimedExactly(s, root, f);
    hide Claimed;
    if f in s.tree {
      TableFacts(s.mem, s.tree, s.ledger, f);
      if f in s0.tree { TableFacts(s0.mem, s0.tree, s0.ledger, f); }
    }
    if f in home.page {
      assert Translate(s.mem, root, home.page[f]) == LeafOf(home, image, home.page[f]);
      assert LeafIn(s.mem, root, 0, USER_PAGES, f);
    }
    if LeafIn(s.mem, root, 0, USER_PAGES, f) {
      var v: nat :| 0 <= v < USER_PAGES && Translate(s.mem, root, v).Some?
                    && Translate(s.mem, root, v).value.address == f;
      assert Translate(s.mem, root, v) == LeafOf(home, image, v);
    }
  }

  /** Everything is as before the load. */
  ghost predicate Restored(s0: Space, s: Space) {
    s.ledger == s0.ledger && s.tree == s0.tree && Kept(s0, s)
  }

  lemma TreeBack(s0: Space, s: Space, s': Space, root: nat)
    requires NewTables(s0, s.tree, root) && TreeOk(s0.mem, s0.tree, s0.ledger) && RootDropped(s.tree, s'.tree, root)
    ensures s'.tree == s0.tree
  {
    hide NodeOk, TreeOk;
    forall f | f in s0.tree
      ensures s0.tree[f].root != root
    {
      TableFacts(s0.mem, s0.tree, s0.ledger, f);
      TableFacts(s0.mem, s0.tree, s0.ledger, s0.tree[f].root);
    }
  }

  lemma FrameBack(s0: Space, s: Space, s': Space, root: nat, f: nat)
    requires TreeOk(s.mem, s.tree, s.ledger) && TreeOk(s'.mem, s'.tree, s'.ledger)
    requires NewTables(s0, s.tree, root) && s'.tree == s0.tree && TornDown(s, s', root) && f in s0.ledger
    ensures SameFrame(s.mem, s'.mem, f)
  {
    hide NodeOk, ClaimedFrames;
    if f in s.tree {
      TableFacts(s.mem, s.tree, s.ledger, f);
      TableFacts(s'.mem, s'.tree, s'.ledger, f);
      forall j: nat | j < ENTRY_COUNT
        ensures s'.mem[f].entries[j] == s.mem[f].entries[j]
      {
        assert EntryAt(s'.mem, f, j) == EntryAt(s.mem, f, j);
      }
      assert s'.mem[f].entries == s.mem[f].entries;
    }
  }

  lemma RolledBack(s0: Space, s: Space, s': Space, root: nat, home: Homes, image: Image)
    requires Loading(s0, s, root, home, image, {}) && TreeOk(s0.mem, s0.tree, s0.ledger)
             && TreeOk(s.mem, s.tree, s.ledger)
    requires TreeOk(s'.mem, s'.tree, s'.ledger) && TornDown(s, s', root)
    ensures Restored(s0, s')
  {
    hide NodeOk, TreeOk, Holds, NewPages, NewTables, SameTranslations, ClaimedFrames, RootDropped;
    ClaimsWhatWasTaken(s0, s, root, home, image);
    TreeBack(s0, s, s', root);
    forall f | f in s0.ledger
      ensures SameFrame(s.mem, s'.mem, f)
    {
      FrameBack(s0, s, s', root, f);
    }
    hide TornDown;
  }

  /** Other address spaces are as before the load, whether or not the rollback could finish. */
  lemma OthersBack(s0: Space, s: Space, s': Space, root: nat, home: Homes, image: Image)
    requires Loading(s0, s, root, home, image, {}) && TreeOk(s0.mem, s0.tree, s0.ledger)
    requires TornDown(s, s', root) || HalfTornDown(s, s', root)
    ensures SameTranslations(s0.mem, s'.mem, s0.tree)
  {
    hide NodeOk, Holds, NewPages, Kept, ClaimedFrames, Claimed;
    forall r, v: nat | IsRoot(s0.tree, r) && v < USER_PAGES
      ensures Translate(s'.mem, r, v) == Translate(s0.mem, r, v)
    {
      assert IsRoot(s.tree, r) && r != root;
      assert Translate(s'.mem, r, v) == Translate(s.mem, r, v);
    }
  }

  /** The rollback finishes exactly when the load never held more frames than the recycle stack can. */
  lemma RollbackEnds(s0: Space, s: Space, s': Space, root: nat, home: Homes, image: Image, peak: nat)
    requires Loading(s0, s, root, home, image, {}) && TreeOk(s0.mem, s0.tree, s0.ledger)
             && TreeOk(s.mem, s.tree, s.ledger)
    requires GivenUp(s0, s, peak) && s0.recycled <= FREE_STACK_CAPACITY && TreeOk(s'.mem, s'.tree, s'.ledger)
    requires if s.recycled + |ClaimedFrames(s, root)| <= FREE_STACK_CAPACITY then TornDown(s, s', root)
             else HalfTornDown(s, s', root)
    ensures Restored(s0, s') <==> peak <= FREE_STACK_CAPACITY
    ensures SameTranslations(s0.mem, s'.mem, s0.tree)
  {
    hide NodeOk, TreeOk, Loading, TornDown, HalfTornDown, ClaimedFrames, Restored, SameTranslations, Claimed;
    OthersBack(s0, s, s', root, home, image);
    ClaimsWhatWasTaken(s0, s, root, home, image);
    if peak <= FREE_STACK_CAPACITY {
      RolledBack(s0, s, s', root, home, image);
    } else {
      SomethingLeft(s0, s, s', root);
    }
  }

  lemma SomethingLeft(s0: Space, s: Space, s': Space, root: nat)
    requires HalfTornDown(s, s', root) && s.ledger - ClaimedFrames(s, root) == s0.ledger
    ensures !Restored(s0, s')
  {
    hide Claimed;
    var f :| f in s'.ledger && Claimed(s, root, f);
    assert f in ClaimedFrames(s, root);
    assert f !in s0.ledger;
  }

  // ----- The loader -----

  /** How many frames a load holds before it ends: what the program asks for, or all there are. */
  ghost function Held(elf: Elf.Elf, supply: int): int {
    if Need(elf) < supply then Need(elf) else supply
  }

  /** How a load fails, and what it leaves, decided by the program and the frames there were. */
  ghost predicate Failed(error: LoadError, elf: Elf.Elf, supply: int, s0: Space, s: Space) {
    && (if supply < Need(elf) then Starved(error) else PlanOf(elf).fault == Some(error))
    && GivenUp(s0, s, Held(elf, supply))
    && (Restored(s0, s) <==> Held(elf, supply) <= FREE_STACK_CAPACITY)
    && SameTranslations(s0.mem, s.mem, s0.tree)
  }

  /** Loads a program into a new address space. It succeeds exactly when the program's segments are well formed
      and share no page and the allocator can supply the frames. On success the address space holds exactly the
      program's segments and stack, and nothing live before is touched. On failure the new address space is torn
      down again; that restores everything if and only if the load had held no more frames than the recycle stack
      can. */
  method Load(m: Machine, file: seq<Byte>, active: nat) returns (r: Result<UserImage, LoadError>, ghost home: Homes)
    requires m.Valid() && IsTable(m.mem, active) && !Fresh(m.alloc.view, active) && |file| < U64_LIMIT
    modifies m, m.alloc, m.alloc.ranges, m.alloc.records, m.alloc.freeStack
    ensures m.Valid()
    ensures r.Ok? <==>
            Elf.Parse(file).Ok? && Loadable(Elf.Parse(file).value)
            && Need(Elf.Parse(file).value) <= old(m.alloc.Supply())
    ensures r.Ok? ==>
              && r.value.entry == Elf.Parse(file).value.entry && r.value.stackTop == USER_STACK_TOP
              && Loading(old(m.Now()), m.Now(), r.value.cr3, home, ImageOf(Elf.Parse(file).value), {})
              && home.kernel == old(m.mem)[active].entries
    ensures r.Err? ==> match Elf.Parse(file)
                       case Err(e) => r.error == BadElf(e) && m.Now() == old(m.Now())
                       case Ok(elf) => Failed(r.error, elf, old(m.alloc.Supply()), old(m.Now()), m.Now())
  {
    hide FrameAllocator.Valid, NodeOk, TreeOk, Loading, Elf.Parse, Loadable, Need, Restored, SameTranslations, Failed,
         Ready, Abandoned, ImageOf, TornDown, HalfTornDown, ClaimedFrames, RootMade, KernelHalfShared, Fresh, Reported,
         PlanOf, Spent, Placed, FrameAllocator.Limit;
    ghost var s0, supply := m.Now(), m.alloc.Supply();
    home := NoHomes([]);
    var parsed := Elf.Parse(file);
    if parsed.Err? {
      r := Err(BadElf(parsed.error));
    } else {
      SameFile(file);
      StackFits(m.alloc);
      var elf := parsed.value;
      PlanDecided(elf);
      var space := NewFromActiveKernelMappings(m, active);
      if space.Err? {
        r := Err(AddressSpace(space.error));
        NothingTaken(elf, s0);
      } else {
        ghost var peak;
        var root := space.value;
        StartLoading(s0, m.Now(), root, active);
        r, home, peak := LoadIntoAddressSpace(m, elf, root, s0, s0.mem[active].entries);
        if r.Err? {
          ghost var failed := m.Now();
          ghost var homes, image := AbandonedParts(s0, failed, root, peak);
          var _ := ReclaimUserAddressSpace(m, root);
          RollbackDecided(r.error, elf, supply, s0, failed, m.Now(), root, homes, image, peak);
        } else {
          AllSupplied(m.alloc);
          ReadyCost(s0, m.Now(), root, home, ImageOf(elf));
          WholeCost(elf);
        }
      }
    }
  }

  lemma WholeCost(elf: Elf.Elf)
    requires PlanOf(elf) == Placed(ImageOf(elf))
    ensures Need(elf) == FramesFor(ImageOf(elf).Keys) && Loadable(elf)
  {
    hide PlanOf, ImageOf, FramesFor, Loadable;
    PlanDecided(elf);
  }

  lemma NothingTaken(elf: Elf.Elf, s: Space)
    ensures Failed(AddressSpace(MapError.OutOfFrames), elf, 0, s, s) && 0 < Need(elf)
  {
    hide PlanOf;
  }

  /** The rollback of a failed load restores everything exactly when what the load held fits on the recycle
      stack, and what it held is decided by the program and the frames there were. */
  lemma RollbackDecided(error: LoadError, elf: Elf.Elf, supply: int, s0: Space, s: Space, s': Space, root: nat,
                        home: Homes, image: Image, peak: nat)
    requires Loading(s0, s, root, home, image, {}) && GivenUp(s0, s, peak) && Spent(error, PlanOf(elf), supply, peak)
    requires TreeOk(s0.mem, s0.tree, s0.ledger) && TreeOk(s.mem, s.tree, s.ledger) && TreeOk(s'.mem, s'.tree, s'.ledger)
    requires s0.recycled <= FREE_STACK_CAPACITY && s'.recycled + |s'.ledger| == s.recycled + |s.ledger|
    requires if s.recycled + |ClaimedFrames(s, root)| <= FREE_STACK_CAPACITY then TornDown(s, s', root)
             else HalfTornDown(s, s', root)
    ensures Failed(error, elf, supply, s0, s') && !(Loadable(elf) && Need(elf) <= supply)
  {
    hide PlanOf, Restored, SameTranslations, Loadable, FramesFor, Loading, TreeOk, TornDown, HalfTornDown,
         ClaimedFrames;
    RollbackEnds(s0, s, s', root, home, image, peak);
    PlanDecided(elf);
  }

  lemma SameFile(file: seq<Byte>)
    requires Elf.Parse(file).Ok?
    ensures Elf.Parse(file).value.bytes == file
  {}

  lemma AbandonedParts(s0: Space, s: Space, root: nat, peak: nat) returns (home: Homes, image: Image)
    requires Abandoned(s0, s, root, peak)
    ensures Loading(s0, s, root, home, image, {}) && GivenUp(s0, s, peak)
    ensures IsRoot(s.tree, root)
  {
    hide Loading, GivenUp;
    home, image :| Loading(s0, s, root, home, image, {});
    LoadingFacts(s0, s, root, home, image, {}, 0);
  }
}
