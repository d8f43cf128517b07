/** The kernel's page-table code, run on an explicit physical memory: mapping, unmapping, pruning, tearing down
    and validating user address spaces. */
module Paging {
  import opened Frames
  import opened Results
  import opened PageTables

  datatype MapError = OutOfFrames | AlreadyMapped | HugePageEncountered

  datatype UnmapError = NotMapped | HugePage

  datatype ReclaimError = HugeEntry | FreeFailed(error: FreeError)

  /** The page-table slot of a virtual address, as the code computes it from shifts and masks. */
  function PageIndex(va: nat, level: nat): nat {
    if level == 0 then (va / 0x80_0000_0000) % 512
    else if level == 1 then (va / 0x4000_0000) % 512
    else if level == 2 then (va / 0x20_0000) % 512
    else (va / 0x1000) % 512
  }

  lemma PageIndexOk(va: nat, level: nat)
    requires level <= 3
    ensures PageIndex(va, level) == Index(va / FRAME_SIZE, level)
  {}

  lemma UserPage(va: nat)
    ensures va < USER_CANONICAL_LIMIT <==> va / FRAME_SIZE < USER_PAGES
  {}

  /** What mapping one page may do to the tables: new tables, all on the path of that page, each taken from the
      allocator for the root; nothing is lost. */
  ghost predicate Grown(tree: Tree, tree': Tree, ledger: map<nat, Owner>, ledger': map<nat, Owner>, root: nat,
                        vpn: nat) {
    && (forall f :: f in tree ==> f in tree' && tree'[f] == tree[f])
    && (forall f :: f in tree' && f !in tree ==>
          f !in ledger && tree'[f].root == root && tree'[f].level > 0 && Covers(tree', f, vpn))
    && (forall f :: f in ledger' <==> f in ledger || f in tree')
    && (forall f :: f in ledger ==> ledger'[f] == ledger[f])
  }

  /** Which part of the address space a table covers. */
  datatype Spot = Spot(level: nat, prefix: nat)

  /** The tables of a root below the root itself. */
  ghost function Spots(tree: Tree, root: nat): set<Spot> {
    set f | f in tree && tree[f].root == root && tree[f].level > 0 :: Spot(tree[f].level, tree[f].prefix)
  }

  /** The tables a page is mapped through. */
  ghost function PathSpots(vpn: nat): set<Spot> {
    {Spot(1, Prefix(vpn, 1)), Spot(2, Prefix(vpn, 2)), Spot(3, Prefix(vpn, 3))}
  }

  /** Below an empty slot on the path of a page there is no table. */
  lemma NoTableBelow(mem: Phys, tree: Tree, ledger: map<nat, Owner>, t: nat, vpn: nat)
    requires TreeOk(mem, tree, ledger) && t in tree && Covers(tree, t, vpn) && tree[t].level < 3
    requires !EntryAt(mem, t, Index(vpn, tree[t].level)).present
    ensures !(PathSpots(vpn) <= Spots(tree, tree[t].root))
  {
    hide TreeOk, Index, Prefix;
    var spot := Spot(tree[t].level + 1, Prefix(vpn, tree[t].level + 1));
    assert spot in PathSpots(vpn);
    if spot in Spots(tree, tree[t].root) {
      var f :| f in tree && tree[f].root == tree[t].root && tree[f].level > 0
               && Spot(tree[f].level, tree[f].prefix) == spot;
      Ascend(mem, tree, ledger, f, vpn);
      PlacesAreDistinct(mem, tree, ledger, tree[f].parent, t);
    }
  }

  /** Memory outside the tables is untouched. */
  ghost predicate SameOutside(mem: Phys, mem': Phys, tree: Tree) {
    forall f :: f !in tree ==> (f in mem' <==> f in mem) && (f in mem ==> mem'[f] == mem[f])
  }

  lemma TableFacts(mem: Phys, tree: Tree, ledger: map<nat, Owner>, f: nat)
    requires TreeOk(mem, tree, ledger) && f in tree
    ensures IsTable(mem, f) && tree[f].level <= 3 && IsRoot(tree, tree[f].root)
    ensures f in ledger && ledger[f] == PageTable(tree[f].root)
  {
    assert NodeOk(mem, tree, f);
  }

  /** User-half slots are zero or neither huge nor read-only. */
  lemma SlotFacts(mem: Phys, tree: Tree, ledger: map<nat, Owner>, f: nat, i: nat)
    requires TreeOk(mem, tree, ledger) && UserSlot(tree, f, i)
    ensures var e := EntryAt(mem, f, i);
            && (!e.present ==> e == EMPTY)
            && (e.present ==> !e.huge)
            && (e.present && tree[f].level < 3 ==> e.writable)
  {
    assert NodeOk(mem, tree, f);
    assert SlotOk(mem, tree, f, i);
  }

  /** Memory, trees, ledger and the number of recycled frames together. */
  datatype Space = Space(mem: Phys, tree: Tree, ledger: map<nat, Owner>, recycled: nat)

  /** A link on the path of a page mapped with `flags`: one that was there gets at most the user bit, a new one
      has it exactly if the page does. */
  ghost predicate LinkTouched(e: Entry, e': Entry, flags: Flags) {
    if e.present then e' == e || (flags.user && e' == e.(user := true))
    else e'.present ==> e'.user == flags.user
  }

  ghost function Before(s: Space, f: nat, j: nat): Entry {
    if f in s.tree then EntryAt(s.mem, f, j) else EMPTY
  }

  ghost predicate SlotTouched(s: Space, s': Space, root: nat, vpn: nat, flags: Flags, f: nat, j: nat)
    requires f in s'.tree
  {
    if OnPath(s'.tree, f, j, root, vpn) then
      s'.tree[f].level < 3 ==> LinkTouched(Before(s, f, j), EntryAt(s'.mem, f, j), flags)
    else
      EntryAt(s'.mem, f, j) == Before(s, f, j)
  }

  /** Only slots on the path of the page change, and tables that are new are empty off the path. */
  ghost predicate Touched(s: Space, s': Space, root: nat, vpn: nat, flags: Flags) {
    forall f, j: nat {:trigger EntryAt(s'.mem, f, j)} :: f in s'.tree && j < ENTRY_COUNT ==>
          SlotTouched(s, s', root, vpn, flags, f, j)
  }

  /** Frames are taken from the recycle stack until it is empty. */
  ghost predicate Lent(s: Space, s': Space) {
    && |s.ledger| <= |s'.ledger|
    && s.recycled + |s.ledger| <= s'.recycled + |s'.ledger|
    && (s'.recycled == 0 || s'.recycled + |s'.ledger| == s.recycled + |s.ledger|)
  }

  /** Nothing but new or newly user-accessible tables on the path of one page. */
  ghost predicate Extended(s: Space, s': Space, root: nat, vpn: nat, flags: Flags) {
    && SameTranslations(s.mem, s'.mem, s.tree)
    && SameOutside(s.mem, s'.mem, s'.tree)
    && Grown(s.tree, s'.tree, s.ledger, s'.ledger, root, vpn)
    && Touched(s, s', root, vpn, flags)
    && Lent(s, s')
  }

  lemma ExtendedSelf(s: Space, root: nat, vpn: nat, flags: Flags)
    requires TreeOk(s.mem, s.tree, s.ledger)
    ensures Extended(s, s, root, vpn, flags)
  {
    forall f, j: nat | f in s.tree && j < ENTRY_COUNT
      ensures SlotTouched(s, s, root, vpn, flags, f, j)
    {}
  }

  lemma SameTrans(s: Space, m: Space, s': Space, root: nat, vpn: nat, flags: Flags)
    requires Extended(s, m, root, vpn, flags) && Extended(m, s', root, vpn, flags)
    ensures SameTranslations(s.mem, s'.mem, s.tree)
  {
    forall r, v: nat | IsRoot(s.tree, r) && v < USER_PAGES
      ensures Translate(s'.mem, r, v) == Translate(s.mem, r, v)
    {
      assert IsRoot(m.tree, r);
      assert Translate(s'.mem, r, v) == Translate(m.mem, r, v);
    }
  }

  lemma TouchedTrans(s: Space, m: Space, s': Space, root: nat, vpn: nat, flags: Flags)
    requires Extended(s, m, root, vpn, flags) && Extended(m, s', root, vpn, flags)
    ensures Touched(s, s', root, vpn, flags)
  {
    hide SameTranslations, SameOutside, Lent;
    forall f, j: nat | f in s'.tree && j < ENTRY_COUNT
      ensures SlotTouched(s, s', root, vpn, flags, f, j)
    {
      if f in m.tree {
        assert f in s.tree ==> m.tree[f] == s.tree[f];
        assert EntryAt(m.mem, f, j) == EntryAt(m.mem, f, j);
      }
    }
  }

  lemma GrownTrans(s: Space, m: Space, s': Space, root: nat, vpn: nat)
    requires Grown(s.tree, m.tree, s.ledger, m.ledger, root, vpn)
             && Grown(m.tree, s'.tree, m.ledger, s'.ledger, root, vpn)
    requires SameOutside(s.mem, m.mem, m.tree) && SameOutside(m.mem, s'.mem, s'.tree)
    ensures Grown(s.tree, s'.tree, s.ledger, s'.ledger, root, vpn) && SameOutside(s.mem, s'.mem, s'.tree)
  {}

  lemma ExtendedTrans(s: Space, m: Space, s': Space, root: nat, vpn: nat, flags: Flags)
    requires Extended(s, m, root, vpn, flags) && Extended(m, s', root, vpn, flags)
    ensures Extended(s, s', root, vpn, flags)
  {
    hide Touched, SameTranslations, Grown, SameOutside;
    SameTrans(s, m, s', root, vpn, flags);
    TouchedTrans(s, m, s', root, vpn, flags);
    GrownTrans(s, m, s', root, vpn);
  }

  /** Marking a link of the page user accessible. */
  lemma MarkExtends(s: Space, root: nat, vpn: nat, flags: Flags, t: nat, i: nat)
    requires TreeOk(s.mem, s.tree, s.ledger) && t in s.tree && IsTable(s.mem, t) && i < ENTRY_COUNT
    requires OnPath(s.tree, t, i, root, vpn) && flags.user
    requires SameTranslations(s.mem, WithEntry(s.mem, t, i, EntryAt(s.mem, t, i).(user := true)), s.tree)
    ensures Extended(s, s.(mem := WithEntry(s.mem, t, i, EntryAt(s.mem, t, i).(user := true))), root, vpn, flags)
  {
    hide SameTranslations, NodeOk;
    var s' := s.(mem := WithEntry(s.mem, t, i, EntryAt(s.mem, t, i).(user := true)));
    forall f, j: nat | f in s'.tree && j < ENTRY_COUNT
      ensures SlotTouched(s, s', root, vpn, flags, f, j)
    {}
  }

  /** Linking a fresh table on the path of the page. */
  lemma LinkExtends(s: Space, root: nat, vpn: nat, flags: Flags, t: nat, i: nat, c: nat, s': Space)
    requires TreeOk(s.mem, s.tree, s.ledger) && t in s.tree && IsTable(s.mem, t) && i < ENTRY_COUNT
             && s.tree[t].level < 3
    requires OnPath(s.tree, t, i, root, vpn) && !EntryAt(s.mem, t, i).present && c !in s.tree && c !in s.ledger
    requires s'.mem == Linked(s.mem, t, i, c, TableEntry(c, flags)) && s'.tree == s.tree[c := ChildPlace(s.tree, t, i)]
    requires s'.ledger == s.ledger[c := PageTable(root)]
    requires s'.recycled == if s.recycled == 0 then 0 else s.recycled - 1
    requires SameTranslations(s.mem, s'.mem, s.tree)
    ensures Extended(s, s', root, vpn, flags)
  {
    hide SameTranslations, NodeOk, Touched, Grown;
    LinkTouches(s, root, vpn, flags, t, i, c, s');
    LinkGrows(s, root, vpn, flags, t, i, c, s');
  }

  lemma LinkTouches(s: Space, root: nat, vpn: nat, flags: Flags, t: nat, i: nat, c: nat, s': Space)
    requires t in s.tree && IsTable(s.mem, t) && i < ENTRY_COUNT
    requires OnPath(s.tree, t, i, root, vpn) && !EntryAt(s.mem, t, i).present && c !in s.tree
    requires s'.mem == Linked(s.mem, t, i, c, TableEntry(c, flags)) && s'.tree == s.tree[c := ChildPlace(s.tree, t, i)]
    ensures Touched(s, s', root, vpn, flags)
  {
    forall f, j: nat | f in s'.tree && j < ENTRY_COUNT
      ensures SlotTouched(s, s', root, vpn, flags, f, j)
    {}
  }

  lemma LinkGrows(s: Space, root: nat, vpn: nat, flags: Flags, t: nat, i: nat, c: nat, s': Space)
    requires TreeOk(s.mem, s.tree, s.ledger) && t in s.tree && s.tree[t].level < 3
    requires OnPath(s.tree, t, i, root, vpn) && c !in s.tree && c !in s.ledger
    requires s'.tree == s.tree[c := ChildPlace(s.tree, t, i)] && s'.ledger == s.ledger[c := PageTable(root)]
    ensures Grown(s.tree, s'.tree, s.ledger, s'.ledger, root, vpn)
  {
    hide NodeOk;
    PrefixStep(vpn, s.tree[t].level);
  }

  lemma RootFacts(mem: Phys, tree: Tree, root: nat, vpn: nat)
    requires IsRoot(tree, root) && vpn < USER_PAGES
    ensures root in tree && tree[root].root == root && tree[root].level == 0
    ensures Covers(tree, root, vpn) && UserLink(mem, tree, root)
  {
    UserIndex(vpn, 0);
  }

  lemma ExtendedParts(s: Space, s': Space, root: nat, vpn: nat, flags: Flags)
    requires Extended(s, s', root, vpn, flags)
    ensures Grown(s.tree, s'.tree, s.ledger, s'.ledger, root, vpn)
    ensures SameOutside(s.mem, s'.mem, s'.tree) && SameTranslations(s.mem, s'.mem, s.tree)
    ensures Touched(s, s', root, vpn, flags) && Lent(s, s')
  {}

  lemma OneAfterSame(start: Space, s: Space, mem: Phys, root: nat, vpn: nat, to: Option<Entry>)
    requires SameTranslations(start.mem, s.mem, start.tree) && OneTranslation(s.mem, mem, s.tree, root, vpn, to)
    requires forall r :: IsRoot(start.tree, r) ==> IsRoot(s.tree, r)
    ensures OneTranslation(start.mem, mem, start.tree, root, vpn, to)
  {
    forall r, v: nat | IsRoot(start.tree, r) && v < USER_PAGES
      ensures Translate(mem, r, v) == if r == root && v == vpn then to else Translate(start.mem, r, v)
    {
      assert IsRoot(s.tree, r);
      assert Translate(s.mem, r, v) == Translate(start.mem, r, v);
    }
  }

  lemma GrownRoots(s: Space, s': Space, root: nat, vpn: nat, r: nat)
    requires Grown(s.tree, s'.tree, s.ledger, s'.ledger, root, vpn)
    ensures IsRoot(s.tree, r) ==> IsRoot(s'.tree, r)
  {}

  lemma SameAt(s: Space, s': Space, root: nat, vpn: nat)
    requires SameTranslations(s.mem, s'.mem, s.tree) && IsRoot(s.tree, root) && vpn < USER_PAGES
    ensures Translate(s'.mem, root, vpn) == Translate(s.mem, root, vpn)
  {}

  // ----- Which tables mapping a page leaves -----

  /** Mapping a page adds tables of its path only, all of them if the page is then mapped. */
  lemma SpotsGrow(s: Space, s': Space, root: nat, vpn: nat)
    requires Grown(s.tree, s'.tree, s.ledger, s'.ledger, root, vpn) && TreeOk(s'.mem, s'.tree, s'.ledger)
    ensures Spots(s.tree, root) <= Spots(s'.tree, root) <= Spots(s.tree, root) + PathSpots(vpn)
  {
    hide NodeOk, Prefix;
    forall f | f in s'.tree && f !in s.tree
      ensures Spot(s'.tree[f].level, s'.tree[f].prefix) in PathSpots(vpn)
    {
      TableFacts(s'.mem, s'.tree, s'.ledger, f);
    }
  }

  lemma MappedPath(s: Space, root: nat, vpn: nat)
    requires TreeOk(s.mem, s.tree, s.ledger) && IsRoot(s.tree, root) && vpn < USER_PAGES
             && Translate(s.mem, root, vpn).Some?
    ensures PathSpots(vpn) <= Spots(s.tree, root)
  {
    hide TreeOk, Index, Prefix;
    RootFacts(s.mem, s.tree, root, vpn);
    var a := PathStep(s, root, root, vpn);
    var b := PathStep(s, root, a, vpn);
    var c := PathStep(s, root, b, vpn);
  }

  lemma PathStep(s: Space, root: nat, t: nat, vpn: nat) returns (c: nat)
    requires TreeOk(s.mem, s.tree, s.ledger) && t in s.tree && s.tree[t].root == root && Covers(s.tree, t, vpn)
    requires vpn < USER_PAGES && s.tree[t].level < 3 && Walk(s.mem, t, s.tree[t].level, vpn).Some?
    ensures c in s.tree && s.tree[c].root == root && s.tree[c].level == s.tree[t].level + 1 && Covers(s.tree, c, vpn)
    ensures Walk(s.mem, c, s.tree[c].level, vpn).Some?
    ensures Spot(s.tree[c].level, Prefix(vpn, s.tree[c].level)) in Spots(s.tree, root)
  {
    Descend(s.mem, s.tree, s.ledger, t, vpn);
    c := EntryAt(s.mem, t, Index(vpn, s.tree[t].level)).address;
  }

  lemma CardSubset<T>(a: set<T>, b: set<T>)
    requires a <= b
    ensures |a| <= |b| && (a != b ==> |a| < |b|)
  {
    assert b == a + (b - a);
  }

  lemma {:induction false} InjectiveCount<A, B>(m: map<A, B>)
    requires forall x, y :: x in m && y in m && m[x] == m[y] ==> x == y
    ensures |m.Values| == |m|
  {
    if m != map[] {
      var x :| x in m;
      var rest := m - {x};
      InjectiveCount(rest);
      assert m.Values == rest.Values + {m[x]};
      assert m.Keys == rest.Keys + {x};
    }
  }

  ghost predicate SitsAt(place: Place, root: nat, spot: Spot) {
    place.root == root && Spot(place.level, place.prefix) == spot
  }

  /** The tables made take one frame each. */
  lemma TablesMade(s: Space, s': Space, root: nat, vpn: nat)
    requires TreeOk(s.mem, s.tree, s.ledger) && TreeOk(s'.mem, s'.tree, s'.ledger)
    requires Grown(s.tree, s'.tree, s.ledger, s'.ledger, root, vpn)
    ensures |s'.ledger| == |s.ledger| + |Spots(s'.tree, root) - Spots(s.tree, root)|
  {
    hide TreeOk;
    var made := map f | f in s'.tree && f !in s.tree :: Spot(s'.tree[f].level, s'.tree[f].prefix);
    forall f, g | f in made && g in s'.tree && SitsAt(s'.tree[g], root, made[f])
      ensures f == g
    {
      PlacesAreDistinct(s'.mem, s'.tree, s'.ledger, f, g);
    }
    InjectiveCount(made);
    MadeSpots(s, s', root, vpn, made);
    MadeFrames(s, s', root, vpn, made.Keys);
  }

  lemma MadeSpots(s: Space, s': Space, root: nat, vpn: nat, made: map<nat, Spot>)
    requires Grown(s.tree, s'.tree, s.ledger, s'.ledger, root, vpn)
    requires made == map f | f in s'.tree && f !in s.tree :: Spot(s'.tree[f].level, s'.tree[f].prefix)
    requires forall f, g :: f in made && g in s'.tree && SitsAt(s'.tree[g], root, made[f]) ==> f == g
    ensures made.Values == Spots(s'.tree, root) - Spots(s.tree, root)
  {
    hide Covers;
    forall spot
      ensures spot in made.Values <==> spot in Spots(s'.tree, root) && spot !in Spots(s.tree, root)
    {
      if spot in Spots(s'.tree, root) && spot !in Spots(s.tree, root) {
        var f :| f in s'.tree && s'.tree[f].root == root && s'.tree[f].level > 0
                 && Spot(s'.tree[f].level, s'.tree[f].prefix) == spot;
        assert made[f] == spot;
      }
    }
  }

  lemma MadeFrames(s: Space, s': Space, root: nat, vpn: nat, made: set<nat>)
    requires TreeOk(s.mem, s.tree, s.ledger) && Grown(s.tree, s'.tree, s.ledger, s'.ledger, root, vpn)
    requires made == set f | f in s'.tree && f !in s.tree
    ensures |s'.ledger| == |s.ledger| + |made|
  {
    hide NodeOk, Covers;
    assert s'.ledger.Keys == s.ledger.Keys + made;
    assert s.ledger.Keys !! made;
  }

  /** Mapping a page that is not mapped succeeds exactly when the missing tables can be supplied. */
  lemma MapSupplied(s: Space, s': Space, root: nat, vpn: nat, supply: int, ok: bool)
    requires TreeOk(s.mem, s.tree, s.ledger) && TreeOk(s'.mem, s'.tree, s'.ledger) && IsRoot(s'.tree, root)
    requires Grown(s.tree, s'.tree, s.ledger, s'.ledger, root, vpn) && vpn < USER_PAGES
    requires if ok then Translate(s'.mem, root, vpn).Some? && |s'.ledger| - |s.ledger| <= supply
             else |s'.ledger| - |s.ledger| == supply && !(PathSpots(vpn) <= Spots(s'.tree, root))
    ensures ok <==> |PathSpots(vpn) - Spots(s.tree, root)| <= supply
  {
    hide TreeOk, Grown, Spots, PathSpots, Translate;
    TablesMade(s, s', root, vpn);
    SpotsGrow(s, s', root, vpn);
    var made, missing := Spots(s'.tree, root) - Spots(s.tree, root), PathSpots(vpn) - Spots(s.tree, root);
    if ok {
      MappedPath(s', root, vpn);
      assert made == missing;
    } else {
      var spot :| spot in PathSpots(vpn) && spot !in Spots(s'.tree, root);
      assert spot in missing && spot !in made;
      CardSubset(made, missing);
    }
  }

  /** Writing the leaf of the page, after its tables were put in place. */
  lemma LeafAfterExtended(start: Space, s: Space, root: nat, vpn: nat, flags: Flags, t: nat, i: nat, e: Entry)
    requires Extended(start, s, root, vpn, flags) && t in s.tree && IsTable(s.mem, t) && i < ENTRY_COUNT
    requires s.tree[t].level == 3 && OnPath(s.tree, t, i, root, vpn)
    requires OneTranslation(s.mem, WithEntry(s.mem, t, i, e), s.tree, root, vpn, Some(e))
    ensures OneTranslation(start.mem, WithEntry(s.mem, t, i, e), start.tree, root, vpn, Some(e))
    ensures SameOutside(start.mem, WithEntry(s.mem, t, i, e), s.tree)
    ensures Touched(start, s.(mem := WithEntry(s.mem, t, i, e)), root, vpn, flags)
    ensures Lent(start, s.(mem := WithEntry(s.mem, t, i, e)))
  {
    hide OneTranslation, SameTranslations;
    forall r ensures IsRoot(start.tree, r) ==> IsRoot(s.tree, r) { GrownRoots(start, s, root, vpn, r); }
    OneAfterSame(start, s, WithEntry(s.mem, t, i, e), root, vpn, Some(e));
    LeafTouched(start, s, root, vpn, flags, t, i, e);
  }

  lemma LeafTouched(start: Space, s: Space, root: nat, vpn: nat, flags: Flags, t: nat, i: nat, e: Entry)
    requires Touched(start, s, root, vpn, flags) && t in s.tree && IsTable(s.mem, t) && i < ENTRY_COUNT
    requires s.tree[t].level == 3 && OnPath(s.tree, t, i, root, vpn) && (t in start.tree ==> start.tree[t] == s.tree[t])
    ensures Touched(start, s.(mem := WithEntry(s.mem, t, i, e)), root, vpn, flags)
  {
    var mem' := WithEntry(s.mem, t, i, e);
    forall f, j: nat | f in s.tree && j < ENTRY_COUNT
      ensures SlotTouched(start, s.(mem := mem'), root, vpn, flags, f, j)
    {
      assert EntryAt(mem', f, j) == if f == t && j == i then e else EntryAt(s.mem, f, j);
    }
  }

  // ----- Paths -----

  /** The tables of a page from the root down, as far as they are linked. */
  ghost predicate PathOf(tree: Tree, root: nat, vpn: nat, path: seq<nat>) {
    && 1 <= |path| <= 4 && path[0] == root
    && (forall k :: 0 <= k < |path| ==>
          path[k] in tree && tree[path[k]].root == root && tree[path[k]].level == k && Covers(tree, path[k], vpn))
    && (forall k :: 0 < k < |path| ==> tree[path[k]].parent == path[k - 1])
  }

  /** Some present entry on the page's walk is huge. */
  ghost predicate HugeOnPath(mem: Phys, tree: Tree, root: nat, vpn: nat) {
    exists f :: f in tree && tree[f].root == root && Covers(tree, f, vpn)
                && EntryAt(mem, f, Index(vpn, tree[f].level)).present && EntryAt(mem, f, Index(vpn, tree[f].level)).huge
  }

  /** The walks over user tables never meet a huge page. */
  lemma NeverHuge(mem: Phys, tree: Tree, ledger: map<nat, Owner>, root: nat, vpn: nat)
    requires TreeOk(mem, tree, ledger) && vpn < USER_PAGES
    ensures !HugeOnPath(mem, tree, root, vpn)
  {
    hide NodeOk;
    forall f | f in tree && Covers(tree, f, vpn)
      ensures !(EntryAt(mem, f, Index(vpn, tree[f].level)).present && EntryAt(mem, f, Index(vpn, tree[f].level)).huge)
    {
      UserIndex(vpn, tree[f].level);
      SlotFacts(mem, tree, ledger, f, Index(vpn, tree[f].level));
    }
  }

  /** Every slot is as before, except that the leaf slot of the page is zero. */
  ghost predicate LeafCleared(mem: Phys, mem': Phys, tree: Tree, root: nat, vpn: nat) {
    forall f, j: nat {:trigger EntryAt(mem', f, j)} :: f in tree ==>
          EntryAt(mem', f, j) ==
          if tree[f].level == 3 && OnPath(tree, f, j, root, vpn) then EMPTY else EntryAt(mem, f, j)
  }

  lemma ClearedSlot(s: Space, t: nat, i: nat, root: nat, vpn: nat)
    requires TreeOk(s.mem, s.tree, s.ledger) && t in s.tree && IsTable(s.mem, t) && i < ENTRY_COUNT
    requires s.tree[t].level == 3 && OnPath(s.tree, t, i, root, vpn)
    ensures LeafCleared(s.mem, WithEntry(s.mem, t, i, EMPTY), s.tree, root, vpn)
    ensures SameOutside(s.mem, WithEntry(s.mem, t, i, EMPTY), s.tree)
  {
    hide NodeOk;
    forall f | f in s.tree && f != t && s.tree[f].root == root && s.tree[f].level == 3 && Covers(s.tree, f, vpn)
      ensures false
    {
      PlacesAreDistinct(s.mem, s.tree, s.ledger, f, t);
    }
  }

  // ----- Pruning -----

  ghost function Below(path: seq<nat>, k: nat): set<nat> {
    set j | k < j < |path| :: path[j]
  }

  /** The path was cut below level `k`: the tables cut off held nothing but the link to the next one, and only
      the slot that linked them was cleared. */
  ghost predicate CutBelow(s: Space, mem': Phys, tree': Tree, vpn: nat, path: seq<nat>, k: nat) {
    && k < |path| <= 4
    && tree' == s.tree - Below(path, k)
    && (forall f, j: nat {:trigger EntryAt(mem', f, j)} :: f in tree' ==>
          EntryAt(mem', f, j) == if k + 1 < |path| && f == path[k] && j == Index(vpn, k) then EMPTY
          else EntryAt(s.mem, f, j))
    && (forall m, j: nat {:trigger EntryAt(s.mem, path[m], j)} :: k < m < |path| && j < ENTRY_COUNT ==>
          EntryAt(s.mem, path[m], j).present ==> m < 3 && j == Index(vpn, m))
    && SameOutside(s.mem, mem', s.tree)
  }

  lemma CutStart(s: Space, vpn: nat, path: seq<nat>)
    requires 1 <= |path| <= 4
    ensures CutBelow(s, s.mem, s.tree, vpn, path, |path| - 1)
  {
    assert Below(path, |path| - 1) == {};
  }

  /** Cutting one more empty table off the path. */
  lemma CutMore(s: Space, m: Space, root: nat, vpn: nat, path: seq<nat>, k: nat)
    requires PathOf(s.tree, root, vpn, path) && |path| == 4 && 0 < k <= 3 && CutBelow(s, m.mem, m.tree, vpn, path, k)
    requires CanUnlink(m.mem, m.tree, m.ledger, path[k])
    ensures CutBelow(s, Unlinked(m.mem, m.tree, path[k]), m.tree - {path[k]}, vpn, path, k - 1)
    ensures LinkSlot(m.tree, path[k]) == Index(vpn, k - 1) && m.tree[path[k]].parent == path[k - 1]
  {
    hide NodeOk;
    var mem' := Unlinked(m.mem, m.tree, path[k]);
    assert Below(path, k - 1) == Below(path, k) + {path[k]};
    Ascend(m.mem, m.tree, m.ledger, path[k], vpn);
    assert m.tree[path[k]] == s.tree[path[k]];
    forall j: nat | j < ENTRY_COUNT && EntryAt(s.mem, path[k], j).present
      ensures k < 3 && j == Index(vpn, k)
    {
      assert !EntryAt(m.mem, path[k], j).present;
    }
    assert SameOutside(s.mem, mem', s.tree);
  }

  ghost predicate LinkedAt(mem: Phys, path: seq<nat>, vpn: nat, k: nat) {
    && 0 < k < |path|
    && EntryAt(mem, path[k - 1], Index(vpn, k - 1)).present
    && EntryAt(mem, path[k - 1], Index(vpn, k - 1)).address == path[k]
  }

  /** A table of the path is always linked by the table above it. */
  lemma PathIsLinked(mem: Phys, tree: Tree, ledger: map<nat, Owner>, root: nat, vpn: nat, path: seq<nat>, k: nat)
    requires TreeOk(mem, tree, ledger) && 0 < k < |path| <= 4 && path[k] in tree && tree[path[k]].level == k
    requires Covers(tree, path[k], vpn) && tree[path[k]].parent == path[k - 1]
    ensures LinkedAt(mem, path, vpn, k)
  {
    hide NodeOk;
    Ascend(mem, tree, ledger, path[k], vpn);
  }

  lemma CutFacts(s: Space, mem': Phys, tree': Tree, root: nat, vpn: nat, path: seq<nat>, k: nat)
    requires PathOf(s.tree, root, vpn, path) && CutBelow(s, mem', tree', vpn, path, k)
    ensures path[k] in tree' && tree'[path[k]] == s.tree[path[k]]
            && (k > 0 ==> path[k - 1] in tree' && tree'[path[k - 1]] == s.tree[path[k - 1]])
  {}

  lemma NothingBelow(path: seq<nat>, ledger: map<nat, Owner>)
    requires path != []
    ensures ledger - Below(path, |path| - 1) == ledger
  {
    assert Below(path, |path| - 1) == {};
  }

  lemma BelowStep(path: seq<nat>, k: nat, ledger: map<nat, Owner>)
    requires 0 < k < |path|
    ensures ledger - Below(path, k) - {path[k]} == ledger - Below(path, k - 1)
  {
    assert Below(path, k - 1) == Below(path, k) + {path[k]};
  }

  lemma CutRoots(s: Space, mem': Phys, tree': Tree, root: nat, vpn: nat, path: seq<nat>, k: nat)
    requires PathOf(s.tree, root, vpn, path) && CutBelow(s, mem', tree', vpn, path, k)
    ensures forall r :: IsRoot(s.tree, r) ==> IsRoot(tree', r)
  {}

  /** The entry that links a kept table is as it was. */
  lemma CutKeepsLink(s: Space, mem': Phys, tree': Tree, root: nat, vpn: nat, path: seq<nat>, k: nat)
    requires PathOf(s.tree, root, vpn, path) && CutBelow(s, mem', tree', vpn, path, k) && k > 0
    ensures var e := EntryAt(mem', path[k - 1], Index(vpn, k - 1));
            e.present && e.huge ==> HugeOnPath(s.mem, s.tree, root, vpn)
  {
    assert EntryAt(mem', path[k - 1], Index(vpn, k - 1)) == EntryAt(s.mem, path[k - 1], Index(vpn, k - 1));
  }

  lemma PathShape(tree: Tree, root: nat, vpn: nat, path: seq<nat>)
    requires PathOf(tree, root, vpn, path)
    ensures 1 <= |path| <= 4
  {}

  lemma SameTranslationsSelf(mem: Phys, tree: Tree)
    ensures SameTranslations(mem, mem, tree)
  {}

  lemma SameTranslationsTrans(start: Space, m: Space, mem': Phys)
    requires SameTranslations(start.mem, m.mem, start.tree) && SameTranslations(m.mem, mem', m.tree)
    requires forall r :: IsRoot(start.tree, r) ==> IsRoot(m.tree, r)
    ensures SameTranslations(start.mem, mem', start.tree)
  {
    forall r, v: nat | IsRoot(start.tree, r) && v < USER_PAGES
      ensures Translate(mem', r, v) == Translate(start.mem, r, v)
    {
      assert IsRoot(m.tree, r);
      assert Translate(mem', r, v) == Translate(m.mem, r, v);
    }
  }

  lemma OneHere(s0: Space, s1: Space, root: nat, vpn: nat, e: Entry)
    requires OneTranslation(s0.mem, s1.mem, s0.tree, root, vpn, Some(e)) && IsRoot(s0.tree, root) && vpn < USER_PAGES
    ensures Translate(s1.mem, root, vpn) == Some(e)
  {}

  lemma AllSupplied(alloc: FrameAllocator)
    requires alloc.Valid()
    ensures alloc.Supply() >= 0
  {
    RefusedAtLimit(alloc.view, alloc.nextRange);
  }

  class Machine {
    var mem: Phys
    const alloc: FrameAllocator
    ghost var tree: Tree

    ghost function Now(): Space
      reads this, alloc
    {
      Space(mem, tree, alloc.view.ledger, |alloc.view.stack|)
    }

    ghost predicate Valid()
      reads this, alloc, alloc.ranges, alloc.freeStack, alloc.records
    {
      alloc.Valid() && TreeOk(mem, tree, alloc.view.ledger)
    }

    constructor (allocator: FrameAllocator)
      requires allocator.Valid()
      ensures alloc == allocator && mem == map[] && tree == map[] && Valid()
    {
      alloc := allocator;
      mem, tree := map[], map[];
    }

    /** Lets user mode through an existing link. */
    method MarkUser(table: nat, index: nat)
      requires Valid() && UserSlot(tree, table, index) && IsTable(mem, table) && tree[table].level < 3
      requires EntryAt(mem, table, index).present && UserLink(mem, tree, table)
      modifies this`mem
      ensures Valid() && SameTranslations(old(mem), mem, tree)
      ensures mem == WithEntry(old(mem), table, index, EntryAt(old(mem), table, index).(user := true))
    {
      hide NodeOk, FrameAllocator.Valid;
      ghost var e := EntryAt(mem, table, index).(user := true);
      SlotFacts(mem, tree, alloc.view.ledger, table, index);
      RelinkStep(mem, tree, alloc.view.ledger, table, index, e);
      mem := mem[table := Table(mem[table].entries[index := mem[table].entries[index].(user := true)])];
    }

    /** Takes a frame, zeroes it and links it. */
    method LinkNewTable(root: nat, table: nat, index: nat, flags: Flags) returns (r: Result<nat, MapError>)
      requires Valid() && UserSlot(tree, table, index) && IsTable(mem, table) && tree[table].level < 3
      requires tree[table].root == root && !EntryAt(mem, table, index).present
               && (flags.user ==> UserLink(mem, tree, table))
      modifies this, alloc, alloc.ranges, alloc.records
      ensures Valid() && SameTranslations(old(mem), mem, old(tree))
      ensures alloc.Limit() == old(alloc.Limit())
      ensures r.Err? ==> r.error == OutOfFrames && mem == old(mem) && tree == old(tree) && alloc.view == old(alloc.view)
      ensures r.Err? ==> alloc.Supply() == 0
      ensures r.Ok? ==>
                && r.value !in old(tree) && r.value !in old(alloc.view.ledger) && r.value != table
                && mem == Linked(old(mem), table, index, r.value, TableEntry(r.value, flags))
                && tree == old(tree)[r.value := ChildPlace(old(tree), table, index)]
                && alloc.view.ledger == old(alloc.view.ledger)[r.value := PageTable(root)]
                && |alloc.view.stack| == if |old(alloc.view.stack)| == 0 then 0 else |old(alloc.view.stack)| - 1
    {
      hide NodeOk, FrameAllocator.Valid, Apply, Enabled;
      var frame := alloc.AllocateOwned(PageTable(root));
      if frame.None? {
        return Err(OutOfFrames);
      }
      ghost var e := TableEntry(frame.value, flags);
      assert frame.value !in tree;
      LinkStep(mem, tree, old(alloc.view.ledger), table, index, frame.value, e);
      tree := tree[frame.value := ChildPlace(tree, table, index)];
      mem := mem[frame.value := ZeroTable()];
      mem := mem[table := Table(mem[table].entries[index := TableEntry(frame.value, flags)])];
      assert mem == Linked(old(mem), table, index, frame.value, e);
      return Ok(frame.value);
    }

    /** The table below slot `index`, created zeroed if the slot is empty. */
    method EnsureNextTable(root: nat, table: nat, index: nat, flags: Flags, ghost vpn: nat)
      returns (r: Result<nat, MapError>)
      requires Valid() && vpn < USER_PAGES
      requires table in tree && tree[table].root == root && tree[table].level < 3 && Covers(tree, table, vpn)
      requires index == Index(vpn, tree[table].level)
      requires flags.user ==> UserLink(mem, tree, table)
      modifies this, alloc, alloc.ranges, alloc.records
      ensures Valid() && Extended(old(Now()), Now(), root, vpn, flags)
      ensures alloc.Limit() == old(alloc.Limit())
      ensures r.Err? ==> mem == old(mem) && tree == old(tree) && alloc.view == old(alloc.view)
      ensures r.Err? && r.error == OutOfFrames ==> alloc.Supply() == 0
      ensures r.Err? ==>
                r.error == (if EntryAt(old(mem), table, index).present then HugePageEncountered else OutOfFrames)
      ensures r.Err? && r.error == HugePageEncountered ==> EntryAt(old(mem), table, index).huge
      ensures r.Ok? ==>
                && r.value in tree
                && tree[r.value]
                   == Place(root, old(tree)[table].level + 1, Prefix(vpn, old(tree)[table].level + 1), table)
                && (flags.user ==> UserLink(mem, tree, r.value))
    {
      hide NodeOk, FrameAllocator.Valid, Apply, Enabled, Extended;
      TableFacts(mem, tree, alloc.view.ledger, table);
      UserIndex(vpn, tree[table].level);
      PrefixStep(vpn, tree[table].level);
      ghost var start := Now();
      ExtendedSelf(start, root, vpn, flags);
      var entry := mem[table].entries[index];
      if entry.present {
        if entry.huge {
          return Err(HugePageEncountered);
        }
        Descend(mem, tree, alloc.view.ledger, table, vpn);
        if flags.user {
          MarkUser(table, index);
          MarkExtends(start, root, vpn, flags, table, index);
        }
        return Ok(entry.address);
      }
      r := LinkNewTable(root, table, index, flags);
      if r.Ok? { LinkExtends(start, root, vpn, flags, table, index, r.value, Now()); }
    }

    /** One level of a mapping that began in state `start`. The only failure is an exhausted allocator, met only
        by a page that was not mapped. */
    method NextTable(root: nat, table: nat, index: nat, flags: Flags, ghost vpn: nat, ghost start: Space)
      returns (r: Result<nat, MapError>)
      requires Valid() && IsRoot(tree, root) && vpn < USER_PAGES && IsRoot(start.tree, root)
      requires Extended(start, Now(), root, vpn, flags)
      requires table in tree && tree[table].root == root && tree[table].level < 3 && Covers(tree, table, vpn)
      requires index == Index(vpn, tree[table].level)
      requires flags.user ==> UserLink(mem, tree, table)
      modifies this, alloc, alloc.ranges, alloc.records
      ensures Valid() && IsRoot(tree, root) && Extended(start, Now(), root, vpn, flags)
      ensures alloc.Limit() == old(alloc.Limit())
      ensures r.Err? ==> r.error == OutOfFrames && Translate(start.mem, root, vpn) == None
      ensures r.Err? ==> alloc.Supply() == 0 && !(PathSpots(vpn) <= Spots(tree, root))
      ensures r.Ok? ==>
                && r.value in tree && tree[r.value].root == root && tree[r.value].level == old(tree[table].level) + 1
                && Covers(tree, r.value, vpn) && (flags.user ==> UserLink(mem, tree, r.value))
    {
      hide NodeOk, FrameAllocator.Valid, Extended, Grown, Touched, SameOutside, Lent, Spots, PathSpots;
      ghost var before := Now();
      UserIndex(vpn, tree[table].level);
      UserIndex(vpn, 0);
      SlotFacts(mem, tree, alloc.view.ledger, table, index);
      WalkReaches(mem, tree, alloc.view.ledger, root, table, vpn);
      ExtendedParts(start, before, root, vpn, flags);
      assert Translate(mem, root, vpn) == Translate(start.mem, root, vpn);
      r := EnsureNextTable(root, table, index, flags, vpn);
      ExtendedParts(before, Now(), root, vpn, flags);
      GrownRoots(before, Now(), root, vpn, root);
      ExtendedTrans(start, before, Now(), root, vpn, flags);
      if r.Err? { NoTableBelow(mem, tree, alloc.view.ledger, table, vpn); }
    }

    /** The last step of a mapping: writes the leaf unless the page is mapped already. */
    method SetLeaf(root: nat, table: nat, index: nat, frame: nat, flags: Flags, ghost vpn: nat)
      returns (r: Result<(), MapError>)
      requires Valid() && IsRoot(tree, root) && vpn < USER_PAGES
      requires table in tree && tree[table].root == root && tree[table].level == 3 && Covers(tree, table, vpn)
      requires index == Index(vpn, 3) && (flags.user ==> UserLink(mem, tree, table))
      modifies this`mem
      ensures Valid()
      ensures IsTable(old(mem), table) && r.Err? == EntryAt(old(mem), table, index).present
      ensures r.Err? ==> mem == old(mem) && r.error == AlreadyMapped && Translate(old(mem), root, vpn).Some?
      ensures r.Ok? ==>
                && Translate(old(mem), root, vpn) == None
                && OneTranslation(old(mem), mem, tree, root, vpn, Some(LeafEntry(frame, flags)))
                && mem == WithEntry(old(mem), table, index, LeafEntry(frame, flags))
    {
      hide NodeOk, FrameAllocator.Valid, OneTranslation;
      TableFacts(mem, tree, alloc.view.ledger, table);
      UserIndex(vpn, 3);
      UserIndex(vpn, 0);
      LeafStep(vpn);
      WalkReaches(mem, tree, alloc.view.ledger, root, table, vpn);
      var entry := mem[table].entries[index];
      if entry.present {
        return Err(AlreadyMapped);
      }
      LeafStepOk(mem, tree, alloc.view.ledger, table, index, LeafEntry(frame, flags));
      mem := mem[table := Table(mem[table].entries[index := LeafEntry(frame, flags)])];
      return Ok(());
    }

    /** The three levels above the leaf table. */
    method EnsureLeafTable(root: nat, va: nat, flags: Flags, ghost start: Space) returns (r: Result<nat, MapError>)
      requires Valid() && IsRoot(tree, root) && va < USER_CANONICAL_LIMIT && start == Now()
      modifies this, alloc, alloc.ranges, alloc.records
      ensures Valid() && IsRoot(tree, root) && Extended(start, Now(), root, va / FRAME_SIZE, flags)
      ensures alloc.Limit() == old(alloc.Limit())
      ensures r.Err? ==> r.error == OutOfFrames && Translate(start.mem, root, va / FRAME_SIZE) == None
      ensures r.Err? ==> alloc.Supply() == 0 && !(PathSpots(va / FRAME_SIZE) <= Spots(tree, root))
      ensures r.Ok? ==>
                && r.value in tree && tree[r.value].root == root && tree[r.value].level == 3
                && Covers(tree, r.value, va / FRAME_SIZE) && (flags.user ==> UserLink(mem, tree, r.value))
    {
      hide FrameAllocator.Valid, TreeOk, IsRoot, Covers, UserLink, Extended, Index, PageIndex, Prefix, Translate,
           Spots, PathSpots;
      ghost var vpn := va / FRAME_SIZE;
      UserPage(va);
      RootFacts(mem, tree, root, vpn);
      PageIndexOk(va, 0);
      PageIndexOk(va, 1);
      PageIndexOk(va, 2);
      ExtendedSelf(start, root, vpn, flags);
      r := NextTable(root, root, PageIndex(va, 0), flags, vpn, start);
      if r.Ok? {
        r := NextTable(root, r.value, PageIndex(va, 1), flags, vpn, start);
        if r.Ok? {
          r := NextTable(root, r.value, PageIndex(va, 2), flags, vpn, start);
        }
      }
    }

    /** Maps a page: on success the translation of exactly that page changes, from nothing to `frame` with
        `flags`; on any error none does. Either way the tables of every root stay a tree of distinct frames owned
        by their root. */
    method MapPage(root: nat, va: nat, frame: nat, flags: Flags) returns (r: Result<(), MapError>)
      requires Valid() && IsRoot(tree, root) && va < USER_CANONICAL_LIMIT
      modifies this, alloc, alloc.ranges, alloc.records
      ensures Valid() && IsRoot(tree, root)
      ensures Grown(old(tree), tree, old(alloc.view.ledger), alloc.view.ledger, root, va / FRAME_SIZE)
      ensures SameOutside(old(mem), mem, tree)
      ensures Touched(old(Now()), Now(), root, va / FRAME_SIZE, flags) && Lent(old(Now()), Now())
      ensures r.Ok? ==>
                && Translate(old(mem), root, va / FRAME_SIZE) == None
                && OneTranslation(old(mem), mem, old(tree), root, va / FRAME_SIZE, Some(LeafEntry(frame, flags)))
      ensures r.Err? ==>
                && SameTranslations(old(mem), mem, old(tree))
                && r.error == if Translate(old(mem), root, va / FRAME_SIZE).Some? then AlreadyMapped else OutOfFrames
      // It succeeds exactly when the page is not mapped and its missing tables can be supplied; it runs
      // out of frames at the allocator's limit, with a table of the page still to be made.
      ensures r.Ok? <==>
              && Translate(old(mem), root, va / FRAME_SIZE) == None
              && |PathSpots(va / FRAME_SIZE) - Spots(old(tree), root)| <= old(alloc.Supply())
      ensures alloc.Limit() == old(alloc.Limit())
      ensures r.Err? && r.error == OutOfFrames ==>
                alloc.Supply() == 0 && !(PathSpots(va / FRAME_SIZE) <= Spots(tree, root))
    {
      hide FrameAllocator.Valid, TreeOk, Covers, UserLink, Extended, Grown, SameOutside, SameTranslations,
           OneTranslation, Index, PageIndex, Prefix, Translate, Touched, Lent, Spots, PathSpots;
      ghost var vpn, start := va / FRAME_SIZE, Now();
      UserPage(va);
      PageIndexOk(va, 3);
      var table := EnsureLeafTable(root, va, flags, start);
      ghost var ready := Now();
      ExtendedParts(start, ready, root, vpn, flags);
      AllSupplied(alloc);
      if table.Err? {
        MapSupplied(start, Now(), root, vpn, old(alloc.Supply()), false);
        return Err(table.error);
      }
      r := SetLeaf(root, table.value, PageIndex(va, 3), frame, flags, vpn);
      SameAt(start, ready, root, vpn);
      if r.Ok? {
        LeafAfterExtended(start, ready, root, vpn, flags, table.value, PageIndex(va, 3), LeafEntry(frame, flags));
        OneHere(start, Now(), root, vpn, LeafEntry(frame, flags));
        MapSupplied(start, Now(), root, vpn, old(alloc.Supply()), true);
      }
    }

    /** Clears the leaf of a mapped page; tables and ledger stay. */
    method UnmapPage(root: nat, va: nat) returns (r: Result<(), UnmapError>)
      requires Valid() && IsRoot(tree, root) && va < USER_CANONICAL_LIMIT
      modifies this`mem
      ensures Valid()
      ensures r.Err? ==> mem == old(mem)
      ensures r.Err? && r.error == NotMapped ==> Translate(old(mem), root, va / FRAME_SIZE) == None
      ensures r.Err? && r.error == HugePage ==> HugeOnPath(old(mem), tree, root, va / FRAME_SIZE)
      ensures r.Ok? ==>
                && Translate(old(mem), root, va / FRAME_SIZE).Some?
                && OneTranslation(old(mem), mem, tree, root, va / FRAME_SIZE, None)
                && LeafCleared(old(mem), mem, tree, root, va / FRAME_SIZE)
                && SameOutside(old(mem), mem, tree)
    {
      hide NodeOk, FrameAllocator.Valid, OneTranslation, PageIndex, Index, Prefix;
      ghost var vpn := va / FRAME_SIZE;
      UserPage(va);
      RootFacts(mem, tree, root, vpn);
      var table, level := root, 0;
      while true
        invariant level <= 3 && mem == old(mem)
        invariant table in tree && tree[table].root == root && tree[table].level == level && Covers(tree, table, vpn)
        decreases 3 - level
      {
        PageIndexOk(va, level);
        TableFacts(mem, tree, alloc.view.ledger, table);
        WalkReaches(mem, tree, alloc.view.ledger, root, table, vpn);
        var entry := mem[table].entries[PageIndex(va, level)];
        if !entry.present {
          return Err(NotMapped);
        }
        if entry.huge {
          return Err(HugePage);
        }
        if level == 3 {
          ClearLeafAt(root, table, PageIndex(va, 3), vpn);
          return Ok(());
        }
        Descend(mem, tree, alloc.view.ledger, table, vpn);
        table := entry.address;
        level := level + 1;
      }
    }

    method ClearLeafAt(root: nat, table: nat, index: nat, ghost vpn: nat)
      requires Valid() && IsRoot(tree, root) && vpn < USER_PAGES && IsTable(mem, table)
      requires table in tree && tree[table].root == root && tree[table].level == 3 && Covers(tree, table, vpn)
               && index == Index(vpn, 3)
      modifies this`mem
      ensures Valid() && OneTranslation(old(mem), mem, tree, root, vpn, None)
      ensures LeafCleared(old(mem), mem, tree, root, vpn) && SameOutside(old(mem), mem, tree)
    {
      hide NodeOk, FrameAllocator.Valid, OneTranslation, Prefix, Index;
      UserIndex(vpn, 3);
      LeafStep(vpn);
      LeafStepOk(mem, tree, alloc.view.ledger, table, index, EMPTY);
      ClearedSlot(Now(), table, index, root, vpn);
      mem := mem[table := Table(mem[table].entries[index := EMPTY])];
    }

    /** True iff no entry of the table is present. */
    method PageTableIsEmpty(table: nat) returns (empty: bool)
      requires IsTable(mem, table)
      ensures empty <==> EmptyTable(mem, table)
    {
      var index := 0;
      while index < ENTRY_COUNT
        invariant index <= ENTRY_COUNT
        invariant forall i :: 0 <= i < index ==> !EntryAt(mem, table, i).present
      {
        if mem[table].entries[index].present {
          assert EntryAt(mem, table, index).present;
          return false;
        }
        index := index + 1;
      }
      return true;
    }

    /** Returns a table's frame to the allocator. */
    method FreePageTableFrame(root: nat, frame: nat) returns (r: Result<(), ReclaimError>)
      requires alloc.Valid() && frame in alloc.view.ledger && alloc.view.ledger[frame] == PageTable(root)
      modifies alloc`freeStackLen, alloc`recordCount, alloc`allocatedFrames, alloc`reclaimedFrames, alloc`view,
               alloc.freeStack, alloc.records
      ensures alloc.Valid()
      ensures r == if |old(alloc.view.stack)| == FREE_STACK_CAPACITY then Err(FreeFailed(FreeStackFull)) else Ok(())
      ensures r.Err? ==> alloc.view == old(alloc.view)
      ensures r.Ok? ==>
                alloc.view.ledger == old(alloc.view.ledger) - {frame}
                && |alloc.view.stack| == |old(alloc.view.stack)| + 1
      ensures alloc.view.spans == old(alloc.view.spans)
    {
      hide Sound, FrameCount;
      SoundFacts(alloc.view, frame);
      var freed := alloc.FreeOwned(frame, PageTable(root));
      if freed.Err? {
        return Err(FreeFailed(freed.error));
      }
      return Ok(());
    }

    /** Follows the links of a page down to its leaf table, as far as they go. */
    method CollectPath(root: nat, va: nat) returns (r: Result<bool, ReclaimError>, path: seq<nat>)
      requires Valid() && IsRoot(tree, root) && va < USER_CANONICAL_LIMIT
      ensures PathOf(tree, root, va / FRAME_SIZE, path)
      ensures r.Err? ==> r.error == HugeEntry && HugeOnPath(mem, tree, root, va / FRAME_SIZE)
      ensures r.Ok? ==> r.value == (|path| == 4)
      ensures r.Ok? && !r.value ==> !EntryAt(mem, path[|path| - 1], Index(va / FRAME_SIZE, |path| - 1)).present
    {
      hide NodeOk, FrameAllocator.Valid, PageIndex, Index, Prefix;
      ghost var vpn := va / FRAME_SIZE;
      UserPage(va);
      RootFacts(mem, tree, root, vpn);
      path := [root];
      var table, level := root, 0;
      while level < 3
        invariant level <= 3 && |path| == level + 1 && table == path[level] && PathOf(tree, root, vpn, path)
      {
        PageIndexOk(va, level);
        TableFacts(mem, tree, alloc.view.ledger, table);
        var entry := mem[table].entries[PageIndex(va, level)];
        if !entry.present {
          return Ok(false), path;
        }
        if entry.huge {
          return Err(HugeEntry), path;
        }
        Descend(mem, tree, alloc.view.ledger, table, vpn);
        path := path + [entry.address];
        table := entry.address;
        level := level + 1;
      }
      return Ok(true), path;
    }

    /** Clears the link to an empty table and frees the table. When the recycle stack is full the frame stays in
        the ledger, linked by nothing. */
    method UnlinkAndFree(root: nat, child: nat, parent: nat, index: nat) returns (r: Result<(), ReclaimError>)
      requires Valid() && child in tree && tree[child].root == root && tree[child].level > 0 && EmptyTable(mem, child)
      requires tree[child].parent == parent && parent in tree && LinkSlot(tree, child) == index && index < ENTRY_COUNT
      modifies this`mem, this`tree, alloc`freeStackLen, alloc`recordCount, alloc`allocatedFrames, alloc`reclaimedFrames,
               alloc`view, alloc.freeStack, alloc.records
      ensures Valid() && IsTable(old(mem), parent)
      ensures mem == WithEntry(old(mem), parent, index, EMPTY) && tree == old(tree) - {child}
      ensures SameTranslations(old(mem), mem, old(tree))
      ensures r == if |old(alloc.view.stack)| == FREE_STACK_CAPACITY then Err(FreeFailed(FreeStackFull)) else Ok(())
      ensures r.Err? ==> alloc.view == old(alloc.view)
      ensures r.Ok? ==>
                alloc.view.ledger == old(alloc.view.ledger) - {child}
                && |alloc.view.stack| == |old(alloc.view.stack)| + 1
    {
      hide NodeOk, FrameAllocator.Valid, SameTranslations;
      UnlinkReady(mem, tree, alloc.view.ledger, child);
      UnlinkStep(mem, tree, alloc.view.ledger, child);
      TableFacts(mem, tree, alloc.view.ledger, child);
      mem := mem[parent := Table(mem[parent].entries[index := EMPTY])];
      tree := tree - {child};
      r := FreePageTableFrame(root, child);
    }

    /** Frees an empty table and then clears the link to it, so that a full recycle stack leaves the table
        linked. */
    method FreeAndUnlink(root: nat, child: nat, parent: nat, index: nat) returns (r: Result<(), ReclaimError>)
      requires Valid() && child in tree && tree[child].root == root && tree[child].level > 0 && EmptyTable(mem, child)
      requires tree[child].parent == parent && parent in tree && LinkSlot(tree, child) == index && index < ENTRY_COUNT
      modifies this`mem, this`tree, alloc`freeStackLen, alloc`recordCount, alloc`allocatedFrames, alloc`reclaimedFrames,
               alloc`view, alloc.freeStack, alloc.records
      ensures Valid() && IsTable(old(mem), parent)
      ensures r == if |old(alloc.view.stack)| == FREE_STACK_CAPACITY then Err(FreeFailed(FreeStackFull)) else Ok(())
      ensures r.Err? ==> mem == old(mem) && tree == old(tree) && alloc.view == old(alloc.view)
      ensures r.Ok? ==>
                && mem == WithEntry(old(mem), parent, index, EMPTY) && tree == old(tree) - {child}
                && SameTranslations(old(mem), mem, old(tree))
                && alloc.view.ledger == old(alloc.view.ledger) - {child}
                && |alloc.view.stack| == |old(alloc.view.stack)| + 1
    {
      hide NodeOk, FrameAllocator.Valid, SameTranslations;
      UnlinkReady(mem, tree, alloc.view.ledger, child);
      UnlinkStep(mem, tree, alloc.view.ledger, child);
      TableFacts(mem, tree, alloc.view.ledger, child);
      r := FreePageTableFrame(root, child);
      if r.Ok? {
        mem := mem[parent := Table(mem[parent].entries[index := EMPTY])];
        tree := tree - {child};
      }
    }

    /** Frees the empty tables of a complete path from the leaf table up, stopping at the first table that is not
        empty. */
    method CutEmptyTables(root: nat, va: nat, path: seq<nat>) returns (r: Result<(), ReclaimError>, ghost kept: nat)
      requires Valid() && IsRoot(tree, root) && va < USER_CANONICAL_LIMIT
      requires PathOf(tree, root, va / FRAME_SIZE, path) && |path| == 4
      modifies this`mem, this`tree, alloc`freeStackLen, alloc`recordCount, alloc`allocatedFrames, alloc`reclaimedFrames,
               alloc`view, alloc.freeStack, alloc.records
      ensures Valid() && SameTranslations(old(mem), mem, old(tree))
      ensures CutBelow(old(Now()), mem, tree, va / FRAME_SIZE, path, kept)
      ensures r.Ok? ==>
                && alloc.view.ledger == old(alloc.view.ledger) - Below(path, kept)
                && |alloc.view.stack| == |old(alloc.view.stack)| + 3 - kept
                && (kept > 0 ==> !EmptyTable(mem, path[kept]) || !LinkedAt(mem, path, va / FRAME_SIZE, kept))
      ensures r.Err? && r.error != HugeEntry ==>
                && r.error == FreeFailed(FreeStackFull) && kept < 3
                && alloc.view.ledger == old(alloc.view.ledger) - Below(path, kept + 1)
                && FREE_STACK_CAPACITY == |alloc.view.stack| == |old(alloc.view.stack)| + 2 - kept
      ensures r.Err? && r.error == HugeEntry ==> HugeOnPath(old(mem), old(tree), root, va / FRAME_SIZE)
    {
      hide NodeOk, FrameAllocator.Valid, PageIndex, Index, Prefix, SameTranslations, Below, EmptyTable, CutBelow,
           HugeOnPath, TreeOk;
      ghost var vpn, start := va / FRAME_SIZE, Now();
      UserPage(va);
      CutStart(start, vpn, path);
      SameTranslationsSelf(mem, tree);
      NothingBelow(path, alloc.view.ledger);
      var level := 3;
      while level > 0
        invariant level <= 3 && Valid() && SameTranslations(old(mem), mem, old(tree))
        invariant CutBelow(start, mem, tree, vpn, path, level)
        invariant alloc.view.ledger == old(alloc.view.ledger) - Below(path, level)
        invariant |alloc.view.stack| == |old(alloc.view.stack)| + 3 - level
      {
        kept := level;
        CutFacts(start, mem, tree, root, vpn, path, level);
        CutRoots(start, mem, tree, root, vpn, path, level);
        CutKeepsLink(start, mem, tree, root, vpn, path, level);
        TableFacts(mem, tree, alloc.view.ledger, path[level]);
        TableFacts(mem, tree, alloc.view.ledger, path[level - 1]);
        PageIndexOk(va, level - 1);
        var empty := PageTableIsEmpty(path[level]);
        if !empty {
          return Ok(()), level;
        }
        var entry := mem[path[level - 1]].entries[PageIndex(va, level - 1)];
        if !entry.present || entry.address != path[level] {
          return Ok(()), level;
        }
        if entry.huge {
          return Err(HugeEntry), level;
        }
        ghost var before := Now();
        UnlinkReady(mem, tree, alloc.view.ledger, path[level]);
        CutMore(start, before, root, vpn, path, level);
        var freed := UnlinkAndFree(root, path[level], path[level - 1], PageIndex(va, level - 1));
        SameTranslationsTrans(start, before, mem);
        BelowStep(path, level, old(alloc.view.ledger));
        if freed.Err? {
          return Err(freed.error), level - 1;
        }
        level := level - 1;
      }
      return Ok(()), 0;
    }

    /** Frees the tables of a page that have become empty, bottom up. No translation changes. */
    method PruneEmptyUserPageTables(root: nat, va: nat)
      returns (r: Result<(), ReclaimError>, ghost path: seq<nat>, ghost kept: nat)
      requires Valid() && IsRoot(tree, root) && va < USER_CANONICAL_LIMIT
      modifies this`mem, this`tree, alloc`freeStackLen, alloc`recordCount, alloc`allocatedFrames, alloc`reclaimedFrames,
               alloc`view, alloc.freeStack, alloc.records
      ensures Valid() && SameTranslations(old(mem), mem, old(tree))
      ensures PathOf(old(tree), root, va / FRAME_SIZE, path)
      ensures CutBelow(old(Now()), mem, tree, va / FRAME_SIZE, path, kept)
      ensures r.Ok? ==>
                && alloc.view.ledger == old(alloc.view.ledger) - Below(path, kept)
                && |alloc.view.stack| == |old(alloc.view.stack)| + |path| - 1 - kept
                && (|path| < 4 ==> !EntryAt(old(mem), path[|path| - 1], Index(va / FRAME_SIZE, |path| - 1)).present)
                && (|path| == 4 && kept > 0 ==>
                      !EmptyTable(mem, path[kept]) || !LinkedAt(mem, path, va / FRAME_SIZE, kept))
      ensures r.Err? && r.error != HugeEntry ==>
                && r.error == FreeFailed(FreeStackFull) && |path| == 4 && kept < 3
                && alloc.view.ledger == old(alloc.view.ledger) - Below(path, kept + 1)
                && FREE_STACK_CAPACITY == |alloc.view.stack| == |old(alloc.view.stack)| + 2 - kept
      ensures r.Err? && r.error == HugeEntry ==> HugeOnPath(old(mem), old(tree), root, va / FRAME_SIZE)
    {
      hide NodeOk, FrameAllocator.Valid, Index, Prefix, SameTranslations, Below, EmptyTable, PathOf, CutBelow,
           HugeOnPath, LinkedAt;
      var complete, tables := CollectPath(root, va);
      path := tables;
      PathShape(tree, root, va / FRAME_SIZE, path);
      CutStart(Now(), va / FRAME_SIZE, path);
      SameTranslationsSelf(mem, tree);
      NothingBelow(path, alloc.view.ledger);
      kept := |path| - 1;
      if complete.Err? {
        return Err(complete.error), path, kept;
      }
      if !complete.value {
        return Ok(()), path, kept;
      }
      r, kept := CutEmptyTables(root, va, tables);
    }
  }
}
