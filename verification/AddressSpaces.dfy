/** Making a user address space, and the kernel's checks on ranges of user memory. */
module AddressSpaces {
  import opened Bytes
  import opened Frames
  import opened Results
  import opened PageTables
  import opened Paging

  datatype UserAccess = Read | Write

  datatype UserRangeError = NonCanonical | Overflow | NotPresent | NotUserAccessible | NotWritable | HugePageInRange

  // ----- New address spaces -----

  /** The new root: an empty user half and the kernel half of the active table. */
  ghost predicate KernelHalfShared(mem: Phys, mem': Phys, root: nat, active: nat) {
    forall j: nat :: Slots(0) <= j < ENTRY_COUNT ==> EntryAt(mem', root, j) == EntryAt(mem, active, j)
  }

  /** A zeroed table whose kernel-half entries are the active table's. */
  method CopyKernelHalf(m: Machine, root: nat, active: nat)
    requires IsTable(m.mem, active) && active != root
    modifies m`mem
    ensures IsTable(m.mem, root) && m.mem == old(m.mem)[root := m.mem[root]]
    ensures FreshRoot(m.mem[root].entries) && KernelHalfShared(old(m.mem), m.mem, root, active)
  {
    m.mem := m.mem[root := ZeroTable()];
    var index := ENTRY_COUNT / 2;
    while index < ENTRY_COUNT
      invariant Slots(0) <= index <= ENTRY_COUNT && IsTable(m.mem, root) && m.mem == old(m.mem)[root := m.mem[root]]
      invariant FreshRoot(m.mem[root].entries)
      invariant forall j :: Slots(0) <= j < index ==> m.mem[root].entries[j] == old(m.mem)[active].entries[j]
    {
      m.mem := m.mem[root := Table(m.mem[root].entries[index := m.mem[active].entries[index]])];
      index := index + 1;
    }
  }

  /** A new user root: owned by itself, with no translation in the user half and the kernel half of the active
      table. Refused exactly when the allocator has no frame left. */
  method NewFromActiveKernelMappings(m: Machine, active: nat) returns (r: Result<nat, MapError>)
    requires m.Valid() && IsTable(m.mem, active) && !Fresh(m.alloc.view, active)
    modifies m, m.alloc, m.alloc.ranges, m.alloc.records
    ensures m.Valid() && m.alloc.Limit() == old(m.alloc.Limit())
    ensures r.Err? <==> old(m.alloc.Supply()) == 0
    ensures r.Err? ==> r.error == OutOfFrames && m.Now() == old(m.Now())
    ensures r.Ok? ==> RootMade(old(m.Now()), m.Now(), r.value) && KernelHalfShared(old(m.mem), m.mem, r.value, active)
  {
    hide FrameAllocator.Valid, NodeOk, KernelHalfShared, FreshRoot, Apply, Enabled;
    ghost var s := m.Now();
    var frame := m.alloc.AllocateOwned(PageTable(0));
    if frame.None? {
      r := Err(OutOfFrames);
    } else {
      var root := frame.value;
      OwnedNow(m.alloc, root);
      var owned := m.alloc.SetOwner(root, PageTable(root));
      assert owned.Ok?;
      CopyKernelHalf(m, root, active);
      RootStep(s.mem, s.tree, s.ledger, root, m.mem[root].entries);
      m.tree := m.tree[root := Place(root, 0, 0, root)];
      assert m.alloc.view.ledger == s.ledger[root := PageTable(root)];
      r := Ok(root);
    }
  }

  lemma OwnedNow(alloc: FrameAllocator, f: nat)
    requires alloc.Valid() && f in alloc.view.ledger
    ensures InRanges(alloc.view.spans, f)
  {
    SoundFacts(alloc.view, f);
  }

  ghost predicate RootMade(s: Space, s': Space, root: nat) {
    && root !in s.ledger && IsRoot(s'.tree, root)
    && s'.tree == s.tree[root := Place(root, 0, 0, root)]
    && s'.ledger == s.ledger[root := PageTable(root)]
    && root in s'.mem && s'.mem == s.mem[root := s'.mem[root]]
    && SameTranslations(s.mem, s'.mem, s.tree) && NoTranslations(s'.mem, root)
    && s'.recycled == (if s.recycled == 0 then 0 else s.recycled - 1)
  }

  // ----- What the processor allows -----

  /** The processor's check for a user-mode access: every entry of the walk is present and user, and for a write
      every entry is writable. */
  ghost predicate Allowed(mem: Phys, table: nat, level: nat, vpn: nat, access: UserAccess)
    requires level <= 3
    decreases 3 - level
  {
    var e := EntryAt(mem, table, Index(vpn, level));
    && e.present && e.user && !e.huge
    && (access == Write ==> e.writable)
    && (level < 3 ==> Allowed(mem, e.address, level + 1, vpn, access))
  }

  ghost predicate LeafAllows(leaf: Option<Entry>, access: UserAccess) {
    leaf.Some? && leaf.value.user && (access == Write ==> leaf.value.writable)
  }

  /** On user tables the leaf alone decides what the processor allows: links to it are writable and user whenever
      it is user. */
  lemma {:induction false} LeafDecides(s: Space, f: nat, vpn: nat, access: UserAccess)
    requires TreeOk(s.mem, s.tree, s.ledger) && f in s.tree && Covers(s.tree, f, vpn) && vpn < USER_PAGES
    ensures Allowed(s.mem, f, s.tree[f].level, vpn, access) <==>
            LeafAllows(Walk(s.mem, f, s.tree[f].level, vpn), access)
    decreases 3 - s.tree[f].level
  {
    var level := s.tree[f].level;
    UserIndex(vpn, level);
    SlotFacts(s.mem, s.tree, s.ledger, f, Index(vpn, level));
    if EntryAt(s.mem, f, Index(vpn, level)).present && level < 3 {
      LinkIsUser(s, f, vpn);
      Descend(s.mem, s.tree, s.ledger, f, vpn);
      LeafDecides(s, EntryAt(s.mem, f, Index(vpn, level)).address, vpn, access);
    }
  }

  lemma LinkIsUser(s: Space, f: nat, vpn: nat)
    requires TreeOk(s.mem, s.tree, s.ledger) && f in s.tree && Covers(s.tree, f, vpn) && s.tree[f].level < 3
             && vpn < USER_PAGES
    requires EntryAt(s.mem, f, Index(vpn, s.tree[f].level)).present
    ensures var e := EntryAt(s.mem, f, Index(vpn, s.tree[f].level));
            var below := EntryAt(s.mem, e.address, Index(vpn, s.tree[f].level + 1));
            below.present && below.user ==> e.user
  {
    hide Index, Prefix;
    var level := s.tree[f].level;
    UserIndex(vpn, level);
    assert NodeOk(s.mem, s.tree, f) && SlotOk(s.mem, s.tree, f, Index(vpn, level));
    var c := EntryAt(s.mem, f, Index(vpn, level)).address;
    assert NodeOk(s.mem, s.tree, c);
    PrefixStep(vpn, level);
    assert LinkSlot(s.tree, c) == Index(vpn, level);
  }

  // ----- The kernel's checks -----

  /** Accepts a page exactly when the processor would. */
  method ValidateUserPage(m: Machine, root: nat, va: nat, access: UserAccess) returns (r: Result<(), UserRangeError>)
    requires m.Valid() && IsRoot(m.tree, root) && va < USER_CANONICAL_LIMIT
    ensures r.Ok? <==> Allowed(m.mem, root, 0, va / FRAME_SIZE, access)
    ensures r.Err? ==> r.error != Overflow && r.error != NonCanonical
  {
    hide NodeOk, FrameAllocator.Valid, PageIndex, Index, Prefix;
    ghost var vpn := va / FRAME_SIZE;
    UserPage(va);
    RootFacts(m.mem, m.tree, root, vpn);
    var table, level := root, 0;
    while true
      invariant level <= 3
      invariant table in m.tree && m.tree[table].root == root && m.tree[table].level == level
                && Covers(m.tree, table, vpn)
      invariant Allowed(m.mem, root, 0, vpn, access) <==> Allowed(m.mem, table, level, vpn, access)
      decreases 3 - level
    {
      PageIndexOk(va, level);
      TableFacts(m.mem, m.tree, m.alloc.view.ledger, table);
      UserIndex(vpn, level);
      SlotFacts(m.mem, m.tree, m.alloc.view.ledger, table, Index(vpn, level));
      var entry := m.mem[table].entries[PageIndex(va, level)];
      if !entry.present {
        return Err(NotPresent);
      }
      if !entry.user {
        return Err(NotUserAccessible);
      }
      if entry.huge {
        return Err(HugePageInRange);
      }
      if level == 3 {
        if access == Write && !entry.writable {
          return Err(NotWritable);
        }
        return Ok(());
      }
      Descend(m.mem, m.tree, m.alloc.view.ledger, table, vpn);
      table := entry.address;
      level := level + 1;
    }
  }

  /** Every byte of the range lies in the user half and the process may access it so. */
  ghost predicate RangeAllowed(mem: Phys, root: nat, start: nat, len: nat, access: UserAccess) {
    && start < USER_CANONICAL_LIMIT && start + len <= USER_CANONICAL_LIMIT
    && forall a: nat :: start <= a < start + len ==> LeafAllows(Translate(mem, root, a / FRAME_SIZE), access)
  }

  lemma PageAllows(s: Space, root: nat, vpn: nat, access: UserAccess)
    requires TreeOk(s.mem, s.tree, s.ledger) && IsRoot(s.tree, root) && vpn < USER_PAGES
    ensures Allowed(s.mem, root, 0, vpn, access) <==> LeafAllows(Translate(s.mem, root, vpn), access)
  {
    hide Index, NodeOk;
    RootFacts(s.mem, s.tree, root, vpn);
    LeafDecides(s, root, vpn, access);
  }

  ghost predicate PagesAllowed(mem: Phys, root: nat, lo: nat, hi: nat, access: UserAccess) {
    forall p: nat {:trigger Translate(mem, root, p)} :: lo <= p < hi ==> LeafAllows(Translate(mem, root, p), access)
  }

  lemma BytesAllowed(mem: Phys, root: nat, start: nat, len: nat, access: UserAccess)
    requires len > 0 && start + len <= USER_CANONICAL_LIMIT
    ensures RangeAllowed(mem, root, start, len, access)
       <==> PagesAllowed(mem, root, start / FRAME_SIZE, (start + len - 1) / FRAME_SIZE + 1, access)
  {
    hide Translate, LeafAllows;
    if RangeAllowed(mem, root, start, len, access) {
      forall p: nat | start / FRAME_SIZE <= p < (start + len - 1) / FRAME_SIZE + 1
        ensures LeafAllows(Translate(mem, root, p), access)
      {
        var a: nat := if p * FRAME_SIZE < start then start else p * FRAME_SIZE;
        assert a / FRAME_SIZE == p && start <= a < start + len;
      }
    }
    if PagesAllowed(mem, root, start / FRAME_SIZE, (start + len - 1) / FRAME_SIZE + 1, access) {
      forall a: nat | start <= a < start + len
        ensures LeafAllows(Translate(mem, root, a / FRAME_SIZE), access)
      {
        assert start / FRAME_SIZE <= a / FRAME_SIZE <= (start + len - 1) / FRAME_SIZE;
      }
    }
  }

  /** Accepts a range exactly when the process may access every byte of it. */
  method ValidateUserRange(m: Machine, root: nat, start: nat, len: nat, access: UserAccess)
    returns (r: Result<(), UserRangeError>)
    requires m.Valid() && IsRoot(m.tree, root) && start < U64_LIMIT && len < U64_LIMIT
    ensures r.Ok? <==> RangeAllowed(m.mem, root, start, len, access)
    ensures r == Err(Overflow) <==> start + len >= U64_LIMIT
    ensures r == Err(NonCanonical) <==>
            start + len < U64_LIMIT && (start >= USER_CANONICAL_LIMIT || start + len > USER_CANONICAL_LIMIT)
  {
    hide NodeOk, FrameAllocator.Valid, Allowed, Translate, LeafAllows;
    if start + len >= U64_LIMIT {
      return Err(Overflow);
    }
    var end := start + len;
    if start >= USER_CANONICAL_LIMIT || end > USER_CANONICAL_LIMIT {
      return Err(NonCanonical);
    }
    if len == 0 {
      return Ok(());
    }
    BytesAllowed(m.mem, root, start, len, access);
    r := ValidatePages(m, root, AlignDown(start), AlignDown(end - 1), access);
  }

  /** The pages from `first` to `last`, both page aligned. */
  method ValidatePages(m: Machine, root: nat, first: nat, last: nat, access: UserAccess)
    returns (r: Result<(), UserRangeError>)
    requires m.Valid() && IsRoot(m.tree, root) && first <= last < USER_CANONICAL_LIMIT
    requires first % FRAME_SIZE == 0 && last % FRAME_SIZE == 0
    ensures r.Ok? <==> PagesAllowed(m.mem, root, first / FRAME_SIZE, last / FRAME_SIZE + 1, access)
    ensures r.Err? ==> r.error != Overflow && r.error != NonCanonical
  {
    hide NodeOk, FrameAllocator.Valid, Allowed, Translate, LeafAllows, TreeOk;
    var page := first;
    while true
      invariant first <= page <= last && page % FRAME_SIZE == 0
      invariant PagesAllowed(m.mem, root, first / FRAME_SIZE, page / FRAME_SIZE, access)
      decreases last - page
    {
      UserPage(page);
      PageAllows(m.Now(), root, page / FRAME_SIZE, access);
      r := ValidateUserPage(m, root, page, access);
      if r.Err? {
        return;
      }
      if page == last {
        return;
      }
      page := page + FRAME_SIZE;
    }
  }

  // ----- Unmapped ranges -----

  method UserPageIsMapped(m: Machine, root: nat, va: nat) returns (r: Result<bool, UserRangeError>)
    requires m.Valid() && IsRoot(m.tree, root) && va < USER_CANONICAL_LIMIT
    ensures r.Ok? ==> r.value == Translate(m.mem, root, va / FRAME_SIZE).Some?
    ensures r.Err? ==> HugeOnPath(m.mem, m.tree, root, va / FRAME_SIZE)
  {
    hide NodeOk, FrameAllocator.Valid, PageIndex, Index, Prefix;
    ghost var vpn := va / FRAME_SIZE;
    UserPage(va);
    RootFacts(m.mem, m.tree, root, vpn);
    var table, level := root, 0;
    while true
      invariant level <= 3
      invariant table in m.tree && m.tree[table].root == root && m.tree[table].level == level
                && Covers(m.tree, table, vpn)
      decreases 3 - level
    {
      PageIndexOk(va, level);
      TableFacts(m.mem, m.tree, m.alloc.view.ledger, table);
      WalkReaches(m.mem, m.tree, m.alloc.view.ledger, root, table, vpn);
      var entry := m.mem[table].entries[PageIndex(va, level)];
      if !entry.present {
        return Ok(false);
      }
      if entry.huge {
        return Err(HugePageInRange);
      }
      if level == 3 {
        return Ok(true);
      }
      Descend(m.mem, m.tree, m.alloc.view.ledger, table, vpn);
      table := entry.address;
      level := level + 1;
    }
  }

  ghost predicate PagesUnmapped(mem: Phys, root: nat, lo: nat, hi: nat) {
    forall p: nat {:trigger Translate(mem, root, p)} :: lo <= p < hi ==> Translate(mem, root, p) == None
  }

  ghost predicate RangeUnmapped(mem: Phys, root: nat, start: nat, len: nat) {
    forall a: nat :: start <= a < start + len ==> Translate(mem, root, a / FRAME_SIZE) == None
  }

  lemma BytesUnmapped(mem: Phys, root: nat, start: nat, len: nat)
    requires len > 0
    ensures RangeUnmapped(mem, root, start, len)
       <==> PagesUnmapped(mem, root, start / FRAME_SIZE, (start + len - 1) / FRAME_SIZE + 1)
  {
    hide Translate;
    if RangeUnmapped(mem, root, start, len) {
      forall p: nat | start / FRAME_SIZE <= p < (start + len - 1) / FRAME_SIZE + 1
        ensures Translate(mem, root, p) == None
      {
        var a: nat := if p * FRAME_SIZE < start then start else p * FRAME_SIZE;
        assert a / FRAME_SIZE == p && start <= a < start + len;
      }
    }
    if PagesUnmapped(mem, root, start / FRAME_SIZE, (start + len - 1) / FRAME_SIZE + 1) {
      forall a: nat | start <= a < start + len
        ensures Translate(mem, root, a / FRAME_SIZE) == None
      {
        assert start / FRAME_SIZE <= a / FRAME_SIZE <= (start + len - 1) / FRAME_SIZE;
      }
    }
  }

  /** Says whether no byte of a user range is mapped; fails exactly on ranges outside the user half. */
  method UserRangeIsUnmapped(m: Machine, root: nat, start: nat, len: nat) returns (r: Result<bool, UserRangeError>)
    requires m.Valid() && IsRoot(m.tree, root) && start < U64_LIMIT && len < U64_LIMIT
    ensures r.Ok? <==> start < USER_CANONICAL_LIMIT && start + len <= USER_CANONICAL_LIMIT
    ensures r.Ok? ==> r.value == RangeUnmapped(m.mem, root, start, len)
    ensures r.Err? ==> r.error == if start + len >= U64_LIMIT then Overflow else NonCanonical
  {
    hide NodeOk, FrameAllocator.Valid, Translate;
    if start + len >= U64_LIMIT {
      return Err(Overflow);
    }
    var end := start + len;
    if start >= USER_CANONICAL_LIMIT || end > USER_CANONICAL_LIMIT {
      return Err(NonCanonical);
    }
    if len == 0 {
      return Ok(true);
    }
    BytesUnmapped(m.mem, root, start, len);
    var unmapped := PagesAreUnmapped(m, root, AlignDown(start), AlignDown(end - 1));
    return Ok(unmapped);
  }

  method PagesAreUnmapped(m: Machine, root: nat, first: nat, last: nat) returns (unmapped: bool)
    requires m.Valid() && IsRoot(m.tree, root) && first <= last < USER_CANONICAL_LIMIT
    requires first % FRAME_SIZE == 0 && last % FRAME_SIZE == 0
    ensures unmapped <==> PagesUnmapped(m.mem, root, first / FRAME_SIZE, last / FRAME_SIZE + 1)
  {
    hide NodeOk, FrameAllocator.Valid, Translate, TreeOk, HugeOnPath;
    var page := first;
    while true
      invariant first <= page <= last && page % FRAME_SIZE == 0
      invariant PagesUnmapped(m.mem, root, first / FRAME_SIZE, page / FRAME_SIZE)
      decreases last - page
    {
      UserPage(page);
      NeverHuge(m.mem, m.tree, m.alloc.view.ledger, root, page / FRAME_SIZE);
      var mapped := UserPageIsMapped(m, root, page);
      if mapped.value {
        return false;
      }
      if page == last {
        return true;
      }
      page := page + FRAME_SIZE;
    }
  }
}
