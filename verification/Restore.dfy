/** Mapping a page, unmapping it and pruning its tables puts the address space back: the tables and the ledger
    are those of before, and so is every entry up to user bits set on old links. */
module Restore {
  import opened Frames
  import opened Results
  import opened PageTables
  import opened Paging

  /** Every table of the page below the root holds something. */
  ghost predicate NoEmptyTables(mem: Phys, tree: Tree, root: nat, vpn: nat) {
    forall f :: f in tree && tree[f].root == root && tree[f].level > 0 && Covers(tree, f, vpn) ==> !EmptyTable(mem, f)
  }

  /** The links of the page that exist all admit user mode. */
  ghost predicate LinksAreUser(mem: Phys, tree: Tree, root: nat, vpn: nat) {
    forall f :: f in tree && tree[f].root == root && Covers(tree, f, vpn) && tree[f].level < 3 ==>
                  var e := EntryAt(mem, f, Index(vpn, tree[f].level));
                  e.present ==> e.user
  }

  /** The four states of a map, unmap, prune round: before, mapped, unmapped, pruned. */
  ghost predicate Round(s0: Space, s1: Space, s2: Space, s3: Space, root: nat, vpn: nat, flags: Flags, path: seq<nat>,
                        kept: nat) {
    && TreeOk(s0.mem, s0.tree, s0.ledger) && TreeOk(s1.mem, s1.tree, s1.ledger) && TreeOk(s2.mem, s2.tree, s2.ledger)
    && IsRoot(s0.tree, root) && vpn < USER_PAGES
    && Grown(s0.tree, s1.tree, s0.ledger, s1.ledger, root, vpn) && Touched(s0, s1, root, vpn, flags)
    && Translate(s0.mem, root, vpn) == None
    && s2.tree == s1.tree && s2.ledger == s1.ledger && LeafCleared(s1.mem, s2.mem, s1.tree, root, vpn)
    && PathOf(s2.tree, root, vpn, path) && |path| == 4 && CutBelow(s2, s3.mem, s3.tree, vpn, path, kept)
  }

  /** A table that was there before keeps its place. */
  lemma OldPlace(s0: Space, s1: Space, root: nat, vpn: nat, f: nat)
    requires Grown(s0.tree, s1.tree, s0.ledger, s1.ledger, root, vpn) && f in s0.tree
    ensures f in s1.tree && s1.tree[f] == s0.tree[f]
  {}

  /** Old off-path entries survive mapping and unmapping. */
  lemma OffPathSame(s0: Space, s1: Space, s2: Space, s3: Space, root: nat, vpn: nat, flags: Flags, path: seq<nat>,
                    kept: nat, f: nat, j: nat)
    requires Round(s0, s1, s2, s3, root, vpn, flags, path, kept) && f in s1.tree && j < ENTRY_COUNT
    requires !OnPath(s1.tree, f, j, root, vpn)
    ensures EntryAt(s2.mem, f, j) == if f in s0.tree then EntryAt(s0.mem, f, j) else EMPTY
  {
    hide TreeOk, Grown, CutBelow, PathOf, Translate;
    assert EntryAt(s2.mem, f, j) == EntryAt(s1.mem, f, j);
  }

  /** An old link of the page leads to an old table of the path. */
  lemma OldLink(s0: Space, s1: Space, s2: Space, s3: Space, root: nat, vpn: nat, flags: Flags, path: seq<nat>,
                kept: nat, k: nat)
    requires Round(s0, s1, s2, s3, root, vpn, flags, path, kept) && k < 3
    requires path[k] in s0.tree && EntryAt(s0.mem, path[k], Index(vpn, k)).present
    ensures path[k + 1] in s0.tree
  {
    hide NodeOk, Touched, CutBelow, LeafCleared, Translate, SameOutside;
    OldPlace(s0, s1, root, vpn, path[k]);
    Descend(s0.mem, s0.tree, s0.ledger, path[k], vpn);
    var c := EntryAt(s0.mem, path[k], Index(vpn, k)).address;
    OldPlace(s0, s1, root, vpn, c);
    PlacesAreDistinct(s2.mem, s2.tree, s2.ledger, c, path[k + 1]);
  }

  /** What was cut off was new. */
  lemma {:induction false} CutIsNew(s0: Space, s1: Space, s2: Space, s3: Space, root: nat, vpn: nat, flags: Flags,
                                    path: seq<nat>, kept: nat, k: nat)
    requires Round(s0, s1, s2, s3, root, vpn, flags, path, kept) && kept < k <= 3
    requires NoEmptyTables(s0.mem, s0.tree, root, vpn)
    ensures path[k] !in s0.tree
    decreases 3 - k
  {
    hide NodeOk, Touched, LeafCleared, Translate, SameOutside;
    if path[k] in s0.tree {
      OldPlace(s0, s1, root, vpn, path[k]);
      var j :| 0 <= j < ENTRY_COUNT && EntryAt(s0.mem, path[k], j).present;
      if j != Index(vpn, k) {
        OffPathSame(s0, s1, s2, s3, root, vpn, flags, path, kept, path[k], j);
        assert false;
      } else if k == 3 {
        OldLeaf(s0, root, vpn, path[3]);
        assert false;
      } else {
        OldLink(s0, s1, s2, s3, root, vpn, flags, path, kept, k);
        CutIsNew(s0, s1, s2, s3, root, vpn, flags, path, kept, k + 1);
        assert false;
      }
    }
  }

  lemma OldLeaf(s0: Space, root: nat, vpn: nat, t: nat)
    requires TreeOk(s0.mem, s0.tree, s0.ledger) && IsRoot(s0.tree, root) && vpn < USER_PAGES
             && Translate(s0.mem, root, vpn) == None
    requires t in s0.tree && s0.tree[t].root == root && s0.tree[t].level == 3 && Covers(s0.tree, t, vpn)
    ensures EntryAt(s0.mem, t, Index(vpn, 3)) == EMPTY
  {
    hide NodeOk;
    UserIndex(vpn, 0);
    UserIndex(vpn, 3);
    WalkReaches(s0.mem, s0.tree, s0.ledger, root, t, vpn);
    SlotFacts(s0.mem, s0.tree, s0.ledger, t, Index(vpn, 3));
  }

  /** What was kept was there before. */
  lemma KeptIsOld(s0: Space, s1: Space, s2: Space, s3: Space, root: nat, vpn: nat, flags: Flags, path: seq<nat>,
                  kept: nat)
    requires Round(s0, s1, s2, s3, root, vpn, flags, path, kept) && kept > 0 && !EmptyTable(s3.mem, path[kept])
    ensures path[kept] in s0.tree
  {
    hide NodeOk, Touched, Translate, SameOutside, TreeOk, Grown;
    var j :| 0 <= j < ENTRY_COUNT && EntryAt(s3.mem, path[kept], j).present;
    CutFacts(s2, s3.mem, s3.tree, root, vpn, path, kept);
    assert EntryAt(s2.mem, path[kept], j).present && j != Index(vpn, kept);
    OffPathSame(s0, s1, s2, s3, root, vpn, flags, path, kept, path[kept], j);
  }

  lemma {:induction false} OldPrefix(s0: Space, s1: Space, s2: Space, s3: Space, root: nat, vpn: nat, flags: Flags,
                                     path: seq<nat>, kept: nat, k: nat, m: nat)
    requires Round(s0, s1, s2, s3, root, vpn, flags, path, kept) && k <= m <= 3 && path[m] in s0.tree
    ensures path[k] in s0.tree
    decreases m
  {
    hide NodeOk, Touched, Translate, SameOutside, CutBelow, LeafCleared;
    if k < m {
      OldPlace(s0, s1, root, vpn, path[m]);
      Ascend(s0.mem, s0.tree, s0.ledger, path[m], vpn);
      OldPrefix(s0, s1, s2, s3, root, vpn, flags, path, kept, k, m - 1);
    }
  }

  /** New tables are exactly the ones cut off, so the tables are those of before. */
  lemma TreeRestored(s0: Space, s1: Space, s2: Space, s3: Space, root: nat, vpn: nat, flags: Flags, path: seq<nat>,
                     kept: nat)
    requires Round(s0, s1, s2, s3, root, vpn, flags, path, kept) && NoEmptyTables(s0.mem, s0.tree, root, vpn)
    requires kept > 0 ==> !EmptyTable(s3.mem, path[kept])
    ensures s3.tree == s0.tree && s1.ledger - Below(path, kept) == s0.ledger
    ensures path[kept] in s0.tree
  {
    hide NodeOk, Touched, Translate, SameOutside, LeafCleared, EmptyTable, NoEmptyTables;
    if kept > 0 { KeptIsOld(s0, s1, s2, s3, root, vpn, flags, path, kept); }
    forall f | f in s1.tree
      ensures f in s0.tree <==> f !in Below(path, kept)
    {
      if f !in s0.tree { NewIsCut(s0, s1, s2, s3, root, vpn, flags, path, kept, f); }
      if f in Below(path, kept) {
        var k :| kept < k < |path| && path[k] == f;
        CutIsNew(s0, s1, s2, s3, root, vpn, flags, path, kept, k);
      }
    }
    assert s3.tree.Keys == s0.tree.Keys;
    var ledger' := s1.ledger - Below(path, kept);
    forall f
      ensures f in ledger' <==> f in s0.ledger
    {
      if f in s1.ledger && f !in s0.ledger { assert f in s1.tree; }
      if f in s0.tree { assert f in s0.ledger; }
    }
    assert ledger'.Keys == s0.ledger.Keys;
  }

  lemma NewIsCut(s0: Space, s1: Space, s2: Space, s3: Space, root: nat, vpn: nat, flags: Flags, path: seq<nat>,
                 kept: nat, f: nat)
    requires Round(s0, s1, s2, s3, root, vpn, flags, path, kept) && kept <= 3 && path[kept] in s0.tree
    requires f in s1.tree && f !in s0.tree
    ensures f in Below(path, kept)
  {
    hide NodeOk, Touched, Translate, SameOutside, LeafCleared, CutBelow;
    var k := s1.tree[f].level;
    PlacesAreDistinct(s2.mem, s2.tree, s2.ledger, f, path[k]);
    if k <= kept { OldPrefix(s0, s1, s2, s3, root, vpn, flags, path, kept, k, kept); }
  }

  /** What the round leaves in a slot: the old entry, with the user bit if it is a link of the page and the
      mapping was for user mode. */
  ghost function Left(s0: Space, root: nat, vpn: nat, flags: Flags, f: nat, j: nat): Entry
    requires f in s0.tree
  {
    var e := EntryAt(s0.mem, f, j);
    if flags.user && s0.tree[f].level < 3 && OnPath(s0.tree, f, j, root, vpn) && e.present then e.(user := true) else e
  }

  /** After a user page is mapped, every link above it admits user mode. */
  lemma {:induction false} UserAbove(s: Space, root: nat, vpn: nat, t: nat, f: nat)
    requires TreeOk(s.mem, s.tree, s.ledger) && t in s.tree && f in s.tree && vpn < USER_PAGES
    requires s.tree[t].root == root == s.tree[f].root && Covers(s.tree, t, vpn) && Covers(s.tree, f, vpn)
    requires s.tree[f].level <= s.tree[t].level
    requires var e := EntryAt(s.mem, t, Index(vpn, s.tree[t].level)); e.present && e.user
    ensures EntryAt(s.mem, f, Index(vpn, s.tree[f].level)).user
    decreases s.tree[t].level
  {
    if s.tree[f].level == s.tree[t].level {
      PlacesAreDistinct(s.mem, s.tree, s.ledger, f, t);
    } else {
      assert NodeOk(s.mem, s.tree, t);
      Ascend(s.mem, s.tree, s.ledger, t, vpn);
      UserAbove(s, root, vpn, s.tree[t].parent, f);
    }
  }

  /** An old link of the page, after mapping. */
  lemma OldLinkMarked(s0: Space, s1: Space, s2: Space, s3: Space, root: nat, vpn: nat, flags: Flags, path: seq<nat>,
                      kept: nat, k: nat)
    requires Round(s0, s1, s2, s3, root, vpn, flags, path, kept) && k < 3
    requires path[k] in s0.tree && EntryAt(s0.mem, path[k], Index(vpn, k)).present
    requires var leaf := EntryAt(s1.mem, path[3], Index(vpn, 3)); leaf.present && leaf.user == flags.user
    ensures EntryAt(s2.mem, path[k], Index(vpn, k)) == Left(s0, root, vpn, flags, path[k], Index(vpn, k))
  {
    hide NodeOk, Translate, SameOutside, CutBelow;
    OldPlace(s0, s1, root, vpn, path[k]);
    assert EntryAt(s2.mem, path[k], Index(vpn, k)) == EntryAt(s1.mem, path[k], Index(vpn, k));
    if flags.user { UserAbove(s1, root, vpn, path[3], path[k]); }
  }

  /** Every old table is left as it was, up to the user bits of the page's links. */
  lemma EntriesRestored(s0: Space, s1: Space, s2: Space, s3: Space, root: nat, vpn: nat, flags: Flags, path: seq<nat>,
                        kept: nat, f: nat, j: nat)
    requires Round(s0, s1, s2, s3, root, vpn, flags, path, kept) && NoEmptyTables(s0.mem, s0.tree, root, vpn)
    requires kept > 0 ==> !EmptyTable(s3.mem, path[kept])
    requires var leaf := EntryAt(s1.mem, path[3], Index(vpn, 3)); leaf.present && leaf.user == flags.user
    requires f in s0.tree && j < ENTRY_COUNT
    ensures EntryAt(s3.mem, f, j) == Left(s0, root, vpn, flags, f, j)
  {
    hide NodeOk, Touched, Translate, SameOutside, LeafCleared, EmptyTable, NoEmptyTables;
    TreeRestored(s0, s1, s2, s3, root, vpn, flags, path, kept);
    OldPlace(s0, s1, root, vpn, f);
    if !OnPath(s1.tree, f, j, root, vpn) {
      OffPathSame(s0, s1, s2, s3, root, vpn, flags, path, kept, f, j);
    } else {
      OnPathRestored(s0, s1, s2, s3, root, vpn, flags, path, kept, f);
    }
  }

  lemma OnPathRestored(s0: Space, s1: Space, s2: Space, s3: Space, root: nat, vpn: nat, flags: Flags, path: seq<nat>,
                       kept: nat, f: nat)
    requires Round(s0, s1, s2, s3, root, vpn, flags, path, kept) && NoEmptyTables(s0.mem, s0.tree, root, vpn)
    requires s3.tree == s0.tree && path[kept] in s0.tree && f in s0.tree
    requires var leaf := EntryAt(s1.mem, path[3], Index(vpn, 3)); leaf.present && leaf.user == flags.user
    requires s0.tree[f].root == root && Covers(s0.tree, f, vpn)
    ensures EntryAt(s3.mem, f, Index(vpn, s0.tree[f].level))
         == Left(s0, root, vpn, flags, f, Index(vpn, s0.tree[f].level))
  {
    hide NodeOk, Touched, Translate, SameOutside, EmptyTable, NoEmptyTables;
    var k := s0.tree[f].level;
    OldPlace(s0, s1, root, vpn, f);
    PlacesAreDistinct(s2.mem, s2.tree, s2.ledger, f, path[k]);
    UserIndex(vpn, k);
    SlotFacts(s0.mem, s0.tree, s0.ledger, f, Index(vpn, k));
    if k == 3 {
      OldLeaf(s0, root, vpn, f);
      assert EntryAt(s2.mem, f, Index(vpn, k)) == EMPTY;
    } else if EntryAt(s0.mem, f, Index(vpn, k)).present {
      OldLink(s0, s1, s2, s3, root, vpn, flags, path, kept, k);
      OldLinkMarked(s0, s1, s2, s3, root, vpn, flags, path, kept, k);
    } else if k < kept {
      OldPrefix(s0, s1, s2, s3, root, vpn, flags, path, kept, k + 1, kept);
      Ascend(s0.mem, s0.tree, s0.ledger, path[k + 1], vpn);
    }
  }

  // ----- Pruning after a mapping never lacks room -----

  lemma SubsetSize<T>(a: set<T>, b: set<T>, c: set<T>)
    requires a + b <= c && a !! b
    ensures |a| + |b| <= |c|
  {
    assert c == (a + b) + (c - (a + b));
  }

  lemma BelowSize(tree: Tree, root: nat, vpn: nat, path: seq<nat>, k: nat)
    requires PathOf(tree, root, vpn, path) && |path| == 4 && k < 3
    ensures |Below(path, k)| == 3 - k
  {
    assert tree[path[1]].level == 1 && tree[path[2]].level == 2 && tree[path[3]].level == 3;
    if k == 2 {
      assert Below(path, k) == {path[3]};
    } else if k == 1 {
      assert Below(path, k) == {path[2], path[3]};
    } else {
      assert Below(path, k) == {path[1], path[2], path[3]};
    }
  }

  /** The tables cut off came from the stack or found it empty, so they fit on it again. */
  lemma RoomToPrune(s0: Space, s1: Space, s2: Space, s3: Space, root: nat, vpn: nat, flags: Flags, path: seq<nat>,
                    kept: nat)
    requires Round(s0, s1, s2, s3, root, vpn, flags, path, kept) && NoEmptyTables(s0.mem, s0.tree, root, vpn)
             && kept < 3
    requires Lent(s0, s1) && s0.recycled <= FREE_STACK_CAPACITY
    ensures s1.recycled + 2 - kept < FREE_STACK_CAPACITY
  {
    hide NodeOk, Touched, Translate, SameOutside, LeafCleared, NoEmptyTables;
    BelowSize(s2.tree, root, vpn, path, kept);
    forall f | f in Below(path, kept)
      ensures f in s1.ledger && f !in s0.ledger
    {
      var k :| kept < k < |path| && path[k] == f;
      CutIsNew(s0, s1, s2, s3, root, vpn, flags, path, kept, k);
    }
    SubsetSize(s0.ledger.Keys, Below(path, kept), s1.ledger.Keys);
  }

  // ----- The round -----

  lemma CompletePath(s1: Space, s2: Space, root: nat, vpn: nat, path: seq<nat>)
    requires TreeOk(s1.mem, s1.tree, s1.ledger) && IsRoot(s1.tree, root) && vpn < USER_PAGES
             && Translate(s1.mem, root, vpn).Some?
    requires s2.tree == s1.tree && LeafCleared(s1.mem, s2.mem, s1.tree, root, vpn) && PathOf(s2.tree, root, vpn, path)
    requires |path| < 4 ==> !EntryAt(s2.mem, path[|path| - 1], Index(vpn, |path| - 1)).present
    ensures |path| == 4
  {
    hide NodeOk;
    var k := |path| - 1;
    UserIndex(vpn, 0);
    WalkReaches(s1.mem, s1.tree, s1.ledger, root, path[k], vpn);
  }

  lemma LeafOf(s1: Space, root: nat, vpn: nat, t: nat)
    requires TreeOk(s1.mem, s1.tree, s1.ledger) && IsRoot(s1.tree, root) && vpn < USER_PAGES
    requires t in s1.tree && s1.tree[t].root == root && s1.tree[t].level == 3 && Covers(s1.tree, t, vpn)
    ensures Translate(s1.mem, root, vpn) == Leaf(EntryAt(s1.mem, t, Index(vpn, 3)))
  {
    hide NodeOk;
    UserIndex(vpn, 0);
    WalkReaches(s1.mem, s1.tree, s1.ledger, root, t, vpn);
  }

  /** The tables are bit for bit those of before exactly when the mapping set no user bit. */
  lemma TablesIdentical(s0: Space, s3: Space, root: nat, vpn: nat, flags: Flags)
    requires TreeOk(s0.mem, s0.tree, s0.ledger) && TreeOk(s3.mem, s3.tree, s3.ledger) && s3.tree == s0.tree
    requires forall f, j: nat {:trigger EntryAt(s3.mem, f, j)} :: f in s0.tree && j < ENTRY_COUNT ==>
          EntryAt(s3.mem, f, j) == Left(s0, root, vpn, flags, f, j)
    ensures (forall f :: f in s0.tree ==> f in s0.mem && f in s3.mem && s3.mem[f] == s0.mem[f])
       <==> (flags.user ==> LinksAreUser(s0.mem, s0.tree, root, vpn))
  {
    hide NodeOk, Index, Prefix;
    if flags.user ==> LinksAreUser(s0.mem, s0.tree, root, vpn) {
      forall f | f in s0.tree
        ensures f in s0.mem && f in s3.mem && s3.mem[f] == s0.mem[f]
      {
        TableFacts(s0.mem, s0.tree, s0.ledger, f);
        TableFacts(s3.mem, s3.tree, s3.ledger, f);
        forall j: nat | j < ENTRY_COUNT
          ensures s3.mem[f].entries[j] == s0.mem[f].entries[j]
        {
          assert EntryAt(s3.mem, f, j) == Left(s0, root, vpn, flags, f, j);
        }
      }
    } else {
      var f :| f in s0.tree && s0.tree[f].root == root && Covers(s0.tree, f, vpn) && s0.tree[f].level < 3
               && EntryAt(s0.mem, f, Index(vpn, s0.tree[f].level)).present
               && !EntryAt(s0.mem, f, Index(vpn, s0.tree[f].level)).user;
      assert EntryAt(s3.mem, f, Index(vpn, s0.tree[f].level))
          == Left(s0, root, vpn, flags, f, Index(vpn, s0.tree[f].level));
    }
  }

  /** Maps an unmapped page, unmaps it and prunes its tables. If no table of the page was empty to begin with,
      unmapping and pruning succeed and give back the same tables and the same ledger; the only trace is the user
      bit that mapping a user page sets on links that lacked it. */
  method MapUnmapPrune(m: Machine, root: nat, va: nat, frame: nat, flags: Flags) returns (r: Result<(), MapError>)
    requires m.Valid() && IsRoot(m.tree, root) && va < USER_CANONICAL_LIMIT
    requires NoEmptyTables(m.mem, m.tree, root, va / FRAME_SIZE)
    modifies m, m.alloc, m.alloc.ranges, m.alloc.records, m.alloc.freeStack
    ensures m.Valid()
    ensures r.Ok? ==>
              && m.tree == old(m.tree) && m.alloc.view.ledger == old(m.alloc.view.ledger)
              && (forall f, j: nat {:trigger EntryAt(m.mem, f, j)} :: f in m.tree && j < ENTRY_COUNT ==>
                    EntryAt(m.mem, f, j) == Left(old(m.Now()), root, va / FRAME_SIZE, flags, f, j))
              && ((forall f :: f in m.tree ==> f in old(m.mem) && f in m.mem && m.mem[f] == old(m.mem)[f])
                  <==> (flags.user ==> LinksAreUser(old(m.mem), old(m.tree), root, va / FRAME_SIZE)))
    ensures r.Ok? <==>
            && Translate(old(m.mem), root, va / FRAME_SIZE) == None
            && |PathSpots(va / FRAME_SIZE) - Spots(old(m.tree), root)| <= old(m.alloc.Supply())
  {
    ghost var s0 := m.Now();
    assert s0.recycled <= FREE_STACK_CAPACITY by { Recycled(m); }
    hide TreeOk, Grown, Touched, SameOutside, Lent, OneTranslation, SameTranslations, Translate, NoEmptyTables,
         LinksAreUser, Left, Index, Prefix, FrameAllocator.Valid, Spots, PathSpots;
    r := m.MapPage(root, va, frame, flags);
    if r.Ok? {
      UndoMapping(m, root, va, frame, flags, s0);
    }
  }

  /** Unmaps and prunes a page that was just mapped from state `s0`. */
  method UndoMapping(m: Machine, root: nat, va: nat, frame: nat, flags: Flags, ghost s0: Space)
    requires m.Valid() && IsRoot(m.tree, root) && va < USER_CANONICAL_LIMIT
    requires TreeOk(s0.mem, s0.tree, s0.ledger) && IsRoot(s0.tree, root)
             && NoEmptyTables(s0.mem, s0.tree, root, va / FRAME_SIZE)
    requires Grown(s0.tree, m.tree, s0.ledger, m.alloc.view.ledger, root, va / FRAME_SIZE)
    requires Touched(s0, m.Now(), root, va / FRAME_SIZE, flags) && Lent(s0, m.Now())
             && s0.recycled <= FREE_STACK_CAPACITY
    requires Translate(s0.mem, root, va / FRAME_SIZE) == None
    requires OneTranslation(s0.mem, m.mem, s0.tree, root, va / FRAME_SIZE, Some(LeafEntry(frame, flags)))
    modifies m, m.alloc, m.alloc.records, m.alloc.freeStack
    ensures m.Valid()
    ensures m.tree == s0.tree && m.alloc.view.ledger == s0.ledger
    ensures forall f, j: nat {:trigger EntryAt(m.mem, f, j)} :: f in m.tree && j < ENTRY_COUNT ==>
          EntryAt(m.mem, f, j) == Left(s0, root, va / FRAME_SIZE, flags, f, j)
    ensures (forall f :: f in m.tree ==> f in s0.mem && f in m.mem && m.mem[f] == s0.mem[f])
       <==> (flags.user ==> LinksAreUser(s0.mem, s0.tree, root, va / FRAME_SIZE))
  {
    hide TreeOk, Grown, Touched, SameOutside, Lent, OneTranslation, SameTranslations, Translate, LeafCleared, CutBelow,
         PathOf, LinkedAt, EmptyTable, NoEmptyTables, HugeOnPath, LinksAreUser, Left, Index, Prefix,
         FrameAllocator.Valid, Below;
    ghost var vpn, s1 := va / FRAME_SIZE, m.Now();
    UserPage(va);
    NeverHuge(m.mem, m.tree, m.alloc.view.ledger, root, vpn);
    OneHere(s0, s1, root, vpn, LeafEntry(frame, flags));
    var unmapped := m.UnmapPage(root, va);
    ghost var s2 := m.Now();
    NeverHuge(m.mem, m.tree, m.alloc.view.ledger, root, vpn);
    ghost var path, kept;
    var pruned;
    pruned, path, kept := m.PruneEmptyUserPageTables(root, va);
    Settled(s0, s1, s2, m.Now(), root, vpn, flags, path, kept, pruned, frame);
  }

  lemma Recycled(m: Machine)
    requires m.Valid()
    ensures |m.alloc.view.stack| <= FREE_STACK_CAPACITY
  {}

  lemma Settled(s0: Space, s1: Space, s2: Space, s3: Space, root: nat, vpn: nat, flags: Flags, path: seq<nat>,
                kept: nat, pruned: Result<(), ReclaimError>, frame: nat)
    requires TreeOk(s0.mem, s0.tree, s0.ledger) && TreeOk(s1.mem, s1.tree, s1.ledger)
    requires TreeOk(s2.mem, s2.tree, s2.ledger) && TreeOk(s3.mem, s3.tree, s3.ledger)
    requires IsRoot(s0.tree, root) && IsRoot(s1.tree, root) && vpn < USER_PAGES
             && NoEmptyTables(s0.mem, s0.tree, root, vpn)
    requires Grown(s0.tree, s1.tree, s0.ledger, s1.ledger, root, vpn) && Touched(s0, s1, root, vpn, flags)
             && Lent(s0, s1)
    requires Translate(s0.mem, root, vpn) == None && Translate(s1.mem, root, vpn) == Some(LeafEntry(frame, flags))
    requires s2.tree == s1.tree && s2.ledger == s1.ledger && s2.recycled == s1.recycled
             && s0.recycled <= FREE_STACK_CAPACITY
    requires LeafCleared(s1.mem, s2.mem, s1.tree, root, vpn)
    requires PathOf(s2.tree, root, vpn, path) && CutBelow(s2, s3.mem, s3.tree, vpn, path, kept)
    requires pruned.Ok? ==>
               && s3.ledger == s2.ledger - Below(path, kept)
               && (|path| < 4 ==> !EntryAt(s2.mem, path[|path| - 1], Index(vpn, |path| - 1)).present)
               && (|path| == 4 && kept > 0 ==> !EmptyTable(s3.mem, path[kept]) || !LinkedAt(s3.mem, path, vpn, kept))
    requires pruned.Err? ==>
               && pruned.error != HugeEntry && |path| == 4 && kept < 3 && FREE_STACK_CAPACITY == s2.recycled + 2 - kept
    ensures pruned.Ok? && s3.tree == s0.tree && s3.ledger == s0.ledger
    ensures forall f, j: nat {:trigger EntryAt(s3.mem, f, j)} :: f in s0.tree && j < ENTRY_COUNT ==>
          EntryAt(s3.mem, f, j) == Left(s0, root, vpn, flags, f, j)
    ensures (forall f :: f in s0.tree ==> f in s0.mem && f in s3.mem && s3.mem[f] == s0.mem[f])
       <==> (flags.user ==> LinksAreUser(s0.mem, s0.tree, root, vpn))
  {
    hide TreeOk, Grown, Touched, SameOutside, Lent, Translate, LeafCleared, LinkedAt, EmptyTable, NoEmptyTables,
         LinksAreUser, Left, Index, Prefix, Below;
    if pruned.Ok? { CompletePath(s1, s2, root, vpn, path); }
    assert Round(s0, s1, s2, s3, root, vpn, flags, path, kept);
    if pruned.Err? { RoomToPrune(s0, s1, s2, s3, root, vpn, flags, path, kept); }
    CutFacts(s2, s3.mem, s3.tree, root, vpn, path, kept);
    if kept > 0 { PathIsLinked(s3.mem, s3.tree, s3.ledger, root, vpn, path, kept); }
    TreeRestored(s0, s1, s2, s3, root, vpn, flags, path, kept);
    LeafOf(s1, root, vpn, path[3]);
    forall f, j: nat | f in s0.tree && j < ENTRY_COUNT
      ensures EntryAt(s3.mem, f, j) == Left(s0, root, vpn, flags, f, j)
    {
      EntriesRestored(s0, s1, s2, s3, root, vpn, flags, path, kept, f, j);
    }
    TablesIdentical(s0, s3, root, vpn, flags);
  }
}
