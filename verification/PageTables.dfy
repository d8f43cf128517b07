/** x86-64 4-level page tables as values: entries, walks, the tree invariant that the tables of every user root
    keep, and what each elementary update does to all translations. */
module PageTables {
  import opened Bytes
  import opened Frames
  import opened Results

  const ENTRY_COUNT: nat := 512
  const USER_CANONICAL_LIMIT: nat := 0x0000_8000_0000_0000
  /** The number of pages below the user canonical limit. */
  const USER_PAGES: nat := 0x8_0000_0000

  /** A page-table entry, bit by bit. */
  datatype Entry = Entry(address: nat, present: bool, writable: bool, user: bool, writeThrough: bool,
                         cacheDisable: bool, huge: bool, noExecute: bool)

  const EMPTY: Entry := Entry(0, false, false, false, false, false, false, false)

  /** Leaf flags: present and never huge, as every constructor of the source's flag type makes them. */
  datatype Flags = Flags(writable: bool, user: bool, writeThrough: bool, cacheDisable: bool, noExecute: bool)

  function UserFlags(writable: bool, executable: bool): Flags {
    Flags(writable, true, false, false, !executable)
  }

  function LeafEntry(frame: nat, flags: Flags): Entry {
    Entry(frame, true, flags.writable, flags.user, flags.writeThrough, flags.cacheDisable, false, flags.noExecute)
  }

  /** The entry that links a next-level table: present and writable, user when the leaf is. */
  function TableEntry(frame: nat, flags: Flags): Entry {
    Entry(frame, true, true, flags.user, false, false, false, false)
  }

  /** A physical frame holds either a table or bytes. */
  datatype Frame = Table(entries: seq<Entry>) | Data(bytes: seq<Byte>)

  type Phys = map<nat, Frame>

  ghost predicate IsTable(mem: Phys, t: nat) {
    t in mem && mem[t].Table? && |mem[t].entries| == ENTRY_COUNT
  }

  ghost function EntryAt(mem: Phys, t: nat, i: nat): Entry {
    if IsTable(mem, t) && i < ENTRY_COUNT then mem[t].entries[i] else EMPTY
  }

  ghost function WithEntry(mem: Phys, t: nat, i: nat, e: Entry): (mem': Phys)
    requires IsTable(mem, t) && i < ENTRY_COUNT
    ensures forall u :: IsTable(mem', u) <==> IsTable(mem, u)
    ensures forall u, j {:trigger EntryAt(mem', u, j)} ::
              EntryAt(mem', u, j) == if u == t && j == i then e else EntryAt(mem, u, j)
  {
    mem[t := Table(mem[t].entries[i := e])]
  }

  /** A table of zero entries. */
  function ZeroTable(): (t: Frame)
    ensures t.Table? && |t.entries| == ENTRY_COUNT && forall i :: 0 <= i < ENTRY_COUNT ==> t.entries[i] == EMPTY
  {
    Table(seq(ENTRY_COUNT, i => EMPTY))
  }

  // ----- Virtual pages -----

  /** How many pages one slot of a table at `level` covers. */
  function Span(level: nat): nat {
    if level == 0 then 0x800_0000 else if level == 1 then 0x4_0000 else if level == 2 then 0x200 else 1
  }

  /** The slot of page `vpn` in the tables of `level`. */
  function Index(vpn: nat, level: nat): (i: nat)
    ensures i < ENTRY_COUNT
  {
    (vpn / Span(level)) % ENTRY_COUNT
  }

  /** Which table of `level` covers page `vpn`. */
  function Prefix(vpn: nat, level: nat): nat {
    vpn / (Span(level) * ENTRY_COUNT)
  }

  /** The slots of the user half. */
  function Slots(level: nat): nat {
    if level == 0 then ENTRY_COUNT / 2 else ENTRY_COUNT
  }

  lemma PrefixStep(vpn: nat, level: nat)
    requires level < 3
    ensures Prefix(vpn, level + 1) == Prefix(vpn, level) * ENTRY_COUNT + Index(vpn, level)
  {}

  lemma LeafStep(vpn: nat)
    ensures vpn == Prefix(vpn, 3) * ENTRY_COUNT + Index(vpn, 3)
  {}

  lemma UserIndex(vpn: nat, level: nat)
    requires vpn < USER_PAGES && level <= 3
    ensures Index(vpn, level) < Slots(level) && Prefix(vpn, 0) == 0
  {}

  // ----- Walks -----

  /** The leaf entry reached from `table`, if every entry on the way is present. */
  ghost function Walk(mem: Phys, table: nat, level: nat, vpn: nat): Option<Entry>
    requires level <= 3
    decreases 3 - level
  {
    var e := EntryAt(mem, table, Index(vpn, level));
    if !e.present then None
    else if level == 3 then Some(e)
    else Walk(mem, e.address, level + 1, vpn)
  }

  /** The flat map a root stands for. */
  ghost function Translate(mem: Phys, root: nat, vpn: nat): Option<Entry> {
    Walk(mem, root, 0, vpn)
  }

  // ----- The tree invariant -----

  /** Where a table sits: its root, its level, which part of the address space it covers, and the table that
      links it. */
  datatype Place = Place(root: nat, level: nat, prefix: nat, parent: nat)

  type Tree = map<nat, Place>

  ghost predicate IsRoot(tree: Tree, r: nat) {
    r in tree && tree[r] == Place(r, 0, 0, r)
  }

  /** A user-half slot is either zero or, below level 3, a writable link to a table of its own place. */
  ghost predicate SlotOk(mem: Phys, tree: Tree, f: nat, i: nat)
    requires f in tree
  {
    var e, p := EntryAt(mem, f, i), tree[f];
    && (!e.present ==> e == EMPTY)
    && (e.present ==> !e.huge)
    && (e.present && p.level < 3 ==>
          e.writable && e.address in tree
          && tree[e.address] == Place(p.root, p.level + 1, p.prefix * ENTRY_COUNT + i, f))
  }

  /** The slot of the parent that links a table below the root. */
  ghost function LinkSlot(tree: Tree, f: nat): int
    requires f in tree && tree[f].parent in tree
  {
    tree[f].prefix - tree[tree[f].parent].prefix * ENTRY_COUNT
  }

  ghost predicate LinkOk(mem: Phys, tree: Tree, f: nat)
    requires f in tree
  {
    var p := tree[f];
    && p.parent in tree
    && tree[p.parent].level + 1 == p.level && tree[p.parent].root == p.root
    && 0 <= LinkSlot(tree, f) < Slots(tree[p.parent].level)
    && EntryAt(mem, p.parent, LinkSlot(tree, f)).present
    && EntryAt(mem, p.parent, LinkSlot(tree, f)).address == f
    && (forall i :: 0 <= i < ENTRY_COUNT ==>
          EntryAt(mem, f, i).present && EntryAt(mem, f, i).user ==> EntryAt(mem, p.parent, LinkSlot(tree, f)).user)
  }

  ghost predicate NodeOk(mem: Phys, tree: Tree, f: nat)
    requires f in tree
  {
    var p := tree[f];
    && IsTable(mem, f)
    && p.level <= 3
    && IsRoot(tree, p.root)
    && (p.level == 0 ==> f == p.root)
    && (p.level > 0 ==> LinkOk(mem, tree, f))
    && (forall i :: 0 <= i < Slots(p.level) ==> SlotOk(mem, tree, f, i))
  }

  /** The user-half tables of every live root form a tree of distinct frames, each owned in the ledger by its
      root. */
  ghost predicate TreeOk(mem: Phys, tree: Tree, ledger: map<nat, Owner>) {
    forall f :: f in tree ==> NodeOk(mem, tree, f) && f in ledger && ledger[f] == PageTable(tree[f].root)
  }

  // ----- Consequences of the invariant -----

  /** Page `vpn` of a root passes through table `f`. */
  ghost predicate Covers(tree: Tree, f: nat, vpn: nat)
    requires f in tree
  {
    tree[f].level <= 3 && tree[f].prefix == Prefix(vpn, tree[f].level)
  }

  /** Going down one present slot stays on the tables of the page. */
  lemma Descend(mem: Phys, tree: Tree, ledger: map<nat, Owner>, f: nat, vpn: nat)
    requires TreeOk(mem, tree, ledger) && f in tree && Covers(tree, f, vpn) && vpn < USER_PAGES && tree[f].level < 3
    requires EntryAt(mem, f, Index(vpn, tree[f].level)).present
    ensures var c := EntryAt(mem, f, Index(vpn, tree[f].level)).address;
            c in tree && tree[c] == Place(tree[f].root, tree[f].level + 1, Prefix(vpn, tree[f].level + 1), f)
  {
    UserIndex(vpn, tree[f].level);
    PrefixStep(vpn, tree[f].level);
    assert NodeOk(mem, tree, f);
    assert SlotOk(mem, tree, f, Index(vpn, tree[f].level));
  }

  /** Going up one link stays on the tables of the page, and the link is the page's slot. */
  lemma Ascend(mem: Phys, tree: Tree, ledger: map<nat, Owner>, f: nat, vpn: nat)
    requires TreeOk(mem, tree, ledger) && f in tree && Covers(tree, f, vpn) && tree[f].level > 0
    ensures var p := tree[f].parent;
            && p in tree && Covers(tree, p, vpn) && tree[p].level + 1 == tree[f].level && tree[p].root == tree[f].root
            && LinkSlot(tree, f) == Index(vpn, tree[p].level)
            && EntryAt(mem, p, Index(vpn, tree[p].level)).present
            && EntryAt(mem, p, Index(vpn, tree[p].level)).address == f
  {
    assert NodeOk(mem, tree, f);
    PrefixStep(vpn, tree[f].level - 1);
  }

  /** Tables are distinct: a place names one frame. */
  lemma {:induction false} PlacesAreDistinct(mem: Phys, tree: Tree, ledger: map<nat, Owner>, f: nat, g: nat)
    requires TreeOk(mem, tree, ledger) && f in tree && g in tree
    requires tree[f].root == tree[g].root && tree[f].level == tree[g].level && tree[f].prefix == tree[g].prefix
    ensures f == g
    decreases tree[f].level
  {
    assert NodeOk(mem, tree, f) && NodeOk(mem, tree, g);
    if tree[f].level > 0 {
      PlacesAreDistinct(mem, tree, ledger, tree[f].parent, tree[g].parent);
    }
  }

  /** The walk of a page reaches every table that covers it. */
  lemma {:induction false} WalkReaches(mem: Phys, tree: Tree, ledger: map<nat, Owner>, f: nat, t: nat, vpn: nat)
    requires TreeOk(mem, tree, ledger) && f in tree && t in tree && vpn < USER_PAGES
    requires tree[f].root == tree[t].root && Covers(tree, f, vpn) && Covers(tree, t, vpn)
             && tree[f].level <= tree[t].level
    ensures Walk(mem, f, tree[f].level, vpn) == Walk(mem, t, tree[t].level, vpn)
    decreases tree[t].level
  {
    if tree[f].level == tree[t].level {
      PlacesAreDistinct(mem, tree, ledger, f, t);
    } else {
      Ascend(mem, tree, ledger, t, vpn);
      WalkReaches(mem, tree, ledger, f, tree[t].parent, vpn);
    }
  }

  /** Two memories agree on every user-half slot of the tree, except perhaps slot `i` of `t`. */
  ghost predicate AgreeExcept(mem: Phys, mem': Phys, tree: Tree, t: nat, i: nat) {
    forall u, j: nat {:trigger EntryAt(mem', u, j)} :: u in tree && j < Slots(tree[u].level) && !(u == t && j == i) ==>
          EntryAt(mem', u, j) == EntryAt(mem, u, j)
  }

  ghost predicate OnPath(tree: Tree, t: nat, i: nat, root: nat, vpn: nat)
    requires t in tree
  {
    tree[t].root == root && Covers(tree, t, vpn) && Index(vpn, tree[t].level) == i
  }

  /** A page that does not use the changed slot is translated as before. */
  lemma {:induction false} WalkOffPath(mem: Phys, mem': Phys, tree: Tree, ledger: map<nat, Owner>, t: nat, i: nat,
                                       f: nat, vpn: nat)
    requires TreeOk(mem, tree, ledger) && t in tree && f in tree && vpn < USER_PAGES
    requires AgreeExcept(mem, mem', tree, t, i) && Covers(tree, f, vpn)
    requires tree[f].level <= tree[t].level ==> !OnPath(tree, t, i, tree[f].root, vpn)
    ensures Walk(mem', f, tree[f].level, vpn) == Walk(mem, f, tree[f].level, vpn)
    decreases 3 - tree[f].level
  {
    UserIndex(vpn, tree[f].level);
    var e := EntryAt(mem, f, Index(vpn, tree[f].level));
    assert EntryAt(mem', f, Index(vpn, tree[f].level)) == e;
    if e.present && tree[f].level < 3 {
      Descend(mem, tree, ledger, f, vpn);
      WalkOffPath(mem, mem', tree, ledger, t, i, e.address, vpn);
    }
  }

  // ----- Elementary updates -----

  /** The translations of all roots are the same in both states. */
  ghost predicate SameTranslations(mem: Phys, mem': Phys, tree: Tree) {
    forall r, vpn: nat {:trigger Translate(mem', r, vpn)} :: IsRoot(tree, r) && vpn < USER_PAGES ==>
          Translate(mem', r, vpn) == Translate(mem, r, vpn)
  }

  /** Every entry above a user entry is a user entry: the link to `t` must be one before `t` gets one. */
  ghost predicate UserLink(mem: Phys, tree: Tree, t: nat)
    requires t in tree
  {
    tree[t].level > 0 && tree[t].parent in tree && LinkSlot(tree, t) >= 0 ==>
      EntryAt(mem, tree[t].parent, LinkSlot(tree, t)).user
  }

  ghost predicate UserSlot(tree: Tree, t: nat, i: nat) {
    t in tree && i < Slots(tree[t].level)
  }

  // -- linking a fresh, zeroed table --

  ghost function ChildPlace(tree: Tree, t: nat, i: nat): Place
    requires t in tree
  {
    Place(tree[t].root, tree[t].level + 1, tree[t].prefix * ENTRY_COUNT + i, t)
  }

  ghost function Linked(mem: Phys, t: nat, i: nat, c: nat, e: Entry): (mem': Phys)
    requires IsTable(mem, t) && i < ENTRY_COUNT && c != t
    ensures forall u :: IsTable(mem', u) <==> IsTable(mem, u) || u == c
    ensures forall u, j {:trigger EntryAt(mem', u, j)} ::
              EntryAt(mem', u, j) == if u == c then EMPTY else if u == t && j == i then e else EntryAt(mem, u, j)
  {
    var mem1 := WithEntry(mem, t, i, e);
    assert forall u, j {:trigger EntryAt(mem1, u, j)} ::
        EntryAt(mem1, u, j) == if u == t && j == i then e else EntryAt(mem, u, j);
    mem1[c := ZeroTable()]
  }

  ghost predicate CanLink(mem: Phys, tree: Tree, ledger: map<nat, Owner>, t: nat, i: nat, c: nat, e: Entry) {
    && TreeOk(mem, tree, ledger) && UserSlot(tree, t, i) && tree[t].level < 3 && IsTable(mem, t)
    && c !in tree && c !in ledger
    && !EntryAt(mem, t, i).present
    && e.present && e.address == c && e.writable && !e.huge && (e.user ==> UserLink(mem, tree, t))
  }

  lemma LinkKeepsSlot(mem: Phys, tree: Tree, ledger: map<nat, Owner>, t: nat, i: nat, c: nat, e: Entry, f: nat, j: nat)
    requires CanLink(mem, tree, ledger, t, i, c, e) && f in tree && j < Slots(tree[f].level)
    ensures SlotOk(Linked(mem, t, i, c, e), tree[c := ChildPlace(tree, t, i)], f, j)
  {
    assert NodeOk(mem, tree, f);
    assert SlotOk(mem, tree, f, j);
  }

  lemma LinkedNode(mem: Phys, tree: Tree, ledger: map<nat, Owner>, t: nat, i: nat, c: nat, e: Entry)
    requires CanLink(mem, tree, ledger, t, i, c, e)
    ensures NodeOk(Linked(mem, t, i, c, e), tree[c := ChildPlace(tree, t, i)], c)
  {
    assert NodeOk(mem, tree, t);
    assert LinkOk(Linked(mem, t, i, c, e), tree[c := ChildPlace(tree, t, i)], c);
  }

  lemma LinkKeepsLink(mem: Phys, tree: Tree, ledger: map<nat, Owner>, t: nat, i: nat, c: nat, e: Entry, f: nat)
    requires CanLink(mem, tree, ledger, t, i, c, e) && f in tree && tree[f].level > 0
    ensures LinkOk(Linked(mem, t, i, c, e), tree[c := ChildPlace(tree, t, i)], f)
  {
    hide SlotOk;
    assert NodeOk(mem, tree, f);
  }

  lemma LinkKeepsNode(mem: Phys, tree: Tree, ledger: map<nat, Owner>, t: nat, i: nat, c: nat, e: Entry, f: nat)
    requires CanLink(mem, tree, ledger, t, i, c, e) && f in tree
    ensures NodeOk(Linked(mem, t, i, c, e), tree[c := ChildPlace(tree, t, i)], f)
  {
    hide SlotOk, LinkOk;
    var mem', tree' := Linked(mem, t, i, c, e), tree[c := ChildPlace(tree, t, i)];
    assert NodeOk(mem, tree, f);
    forall j: nat | j < Slots(tree[f].level)
      ensures SlotOk(mem', tree', f, j)
    {
      LinkKeepsSlot(mem, tree, ledger, t, i, c, e, f, j);
    }
    if tree[f].level > 0 { LinkKeepsLink(mem, tree, ledger, t, i, c, e, f); }
  }

  /** Linking a zeroed table keeps the tree and changes no translation. */
  lemma LinkStep(mem: Phys, tree: Tree, ledger: map<nat, Owner>, t: nat, i: nat, c: nat, e: Entry)
    requires CanLink(mem, tree, ledger, t, i, c, e)
    ensures TreeOk(Linked(mem, t, i, c, e), tree[c := ChildPlace(tree, t, i)], ledger[c := PageTable(tree[t].root)])
    ensures SameTranslations(mem, Linked(mem, t, i, c, e), tree)
  {
    hide NodeOk;
    var mem', tree', ledger' := Linked(mem, t, i, c, e), tree[c := ChildPlace(tree, t, i)],
                                ledger[c := PageTable(tree[t].root)];
    forall f | f in tree'
      ensures NodeOk(mem', tree', f)
    {
      if f == c { LinkedNode(mem, tree, ledger, t, i, c, e); } else { LinkKeepsNode(mem, tree, ledger, t, i, c, e, f); }
    }
    assert AgreeExcept(mem, mem', tree, t, i);
    forall r, vpn: nat | IsRoot(tree, r) && vpn < USER_PAGES
      ensures Translate(mem', r, vpn) == Translate(mem, r, vpn)
    {
      UserIndex(vpn, 0);
      if OnPath(tree, t, i, r, vpn) {
        WalkReaches(mem, tree, ledger, r, t, vpn);
        WalkReaches(mem', tree', ledger', r, t, vpn);
        assert EntryAt(mem', t, i) == e;
        assert EntryAt(mem', c, Index(vpn, tree[t].level + 1)) == EMPTY;
      } else {
        WalkOffPath(mem, mem', tree, ledger, t, i, r, vpn);
      }
    }
  }

  // -- rewriting one slot: a leaf set or cleared, a link made user accessible --

  ghost predicate CanSet(mem: Phys, tree: Tree, ledger: map<nat, Owner>, t: nat, i: nat, e: Entry) {
    && TreeOk(mem, tree, ledger) && UserSlot(tree, t, i) && IsTable(mem, t)
    && (!e.present ==> e == EMPTY)
    && (e.present ==> !e.huge)
    && (e.present && e.user ==> UserLink(mem, tree, t))
    && (tree[t].level < 3 ==>
          var was := EntryAt(mem, t, i);
          was.present && e.present && e.address == was.address && e.writable && (was.user ==> e.user))
  }

  lemma SetKeepsSlot(mem: Phys, tree: Tree, ledger: map<nat, Owner>, t: nat, i: nat, e: Entry, f: nat, j: nat)
    requires CanSet(mem, tree, ledger, t, i, e) && f in tree && j < Slots(tree[f].level)
    ensures SlotOk(WithEntry(mem, t, i, e), tree, f, j)
  {
    assert NodeOk(mem, tree, f);
    assert SlotOk(mem, tree, f, j);
  }

  lemma SetKeepsLink(mem: Phys, tree: Tree, ledger: map<nat, Owner>, t: nat, i: nat, e: Entry, f: nat)
    requires CanSet(mem, tree, ledger, t, i, e) && f in tree && tree[f].level > 0
    ensures LinkOk(WithEntry(mem, t, i, e), tree, f)
  {
    hide SlotOk;
    assert NodeOk(mem, tree, f) && NodeOk(mem, tree, t);
    var mem', p := WithEntry(mem, t, i, e), tree[f].parent;
    var k := LinkSlot(tree, f);
    assert EntryAt(mem', p, k).present && EntryAt(mem', p, k).address == f
           && (EntryAt(mem, p, k).user ==> EntryAt(mem', p, k).user);
  }

  lemma SetKeepsNode(mem: Phys, tree: Tree, ledger: map<nat, Owner>, t: nat, i: nat, e: Entry, f: nat)
    requires CanSet(mem, tree, ledger, t, i, e) && f in tree
    ensures NodeOk(WithEntry(mem, t, i, e), tree, f)
  {
    hide SlotOk, LinkOk;
    assert NodeOk(mem, tree, f);
    forall j: nat | j < Slots(tree[f].level)
      ensures SlotOk(WithEntry(mem, t, i, e), tree, f, j)
    {
      SetKeepsSlot(mem, tree, ledger, t, i, e, f, j);
    }
    if tree[f].level > 0 { SetKeepsLink(mem, tree, ledger, t, i, e, f); }
  }

  lemma SetKeepsTree(mem: Phys, tree: Tree, ledger: map<nat, Owner>, t: nat, i: nat, e: Entry)
    requires CanSet(mem, tree, ledger, t, i, e)
    ensures TreeOk(WithEntry(mem, t, i, e), tree, ledger)
  {
    hide NodeOk;
    forall f | f in tree
      ensures NodeOk(WithEntry(mem, t, i, e), tree, f)
    {
      SetKeepsNode(mem, tree, ledger, t, i, e, f);
    }
  }

  /** Making a link user accessible changes no leaf translation. */
  lemma RelinkStep(mem: Phys, tree: Tree, ledger: map<nat, Owner>, t: nat, i: nat, e: Entry)
    requires CanSet(mem, tree, ledger, t, i, e) && tree[t].level < 3
    ensures TreeOk(WithEntry(mem, t, i, e), tree, ledger)
    ensures SameTranslations(mem, WithEntry(mem, t, i, e), tree)
  {
    hide NodeOk;
    SetKeepsTree(mem, tree, ledger, t, i, e);
    var mem' := WithEntry(mem, t, i, e);
    assert AgreeExcept(mem, mem', tree, t, i);
    forall r, vpn: nat | IsRoot(tree, r) && vpn < USER_PAGES
      ensures Translate(mem', r, vpn) == Translate(mem, r, vpn)
    {
      UserIndex(vpn, 0);
      if OnPath(tree, t, i, r, vpn) {
        var c := EntryAt(mem, t, i).address;
        WalkReaches(mem, tree, ledger, r, t, vpn);
        WalkReaches(mem', tree, ledger, r, t, vpn);
        Descend(mem, tree, ledger, t, vpn);
        WalkOffPath(mem, mem', tree, ledger, t, i, c, vpn);
      } else {
        WalkOffPath(mem, mem', tree, ledger, t, i, r, vpn);
      }
    }
  }

  /** The page whose leaf is slot `i` of the level-3 table `t`. */
  ghost function LeafPage(tree: Tree, t: nat, i: nat): nat
    requires t in tree
  {
    tree[t].prefix * ENTRY_COUNT + i
  }

  ghost function Leaf(e: Entry): Option<Entry> {
    if e.present then Some(e) else None
  }

  /** The translations of all roots are the same, except that page `vpn0` of root `r0` is now `to`. */
  ghost predicate OneTranslation(mem: Phys, mem': Phys, tree: Tree, r0: nat, vpn0: nat, to: Option<Entry>) {
    forall r, vpn: nat {:trigger Translate(mem', r, vpn)} :: IsRoot(tree, r) && vpn < USER_PAGES ==>
          Translate(mem', r, vpn) == if r == r0 && vpn == vpn0 then to else Translate(mem, r, vpn)
  }

  /** Writing a leaf slot changes the translation of exactly its page. */
  lemma LeafStepOk(mem: Phys, tree: Tree, ledger: map<nat, Owner>, t: nat, i: nat, e: Entry)
    requires CanSet(mem, tree, ledger, t, i, e) && tree[t].level == 3
    ensures TreeOk(WithEntry(mem, t, i, e), tree, ledger)
    ensures OneTranslation(mem, WithEntry(mem, t, i, e), tree, tree[t].root, LeafPage(tree, t, i), Leaf(e))
  {
    hide NodeOk, LeafPage;
    SetKeepsTree(mem, tree, ledger, t, i, e);
    var mem' := WithEntry(mem, t, i, e);
    assert AgreeExcept(mem, mem', tree, t, i);
    forall r, vpn: nat | IsRoot(tree, r) && vpn < USER_PAGES
      ensures Translate(mem', r, vpn) ==
              if r == tree[t].root && vpn == LeafPage(tree, t, i) then Leaf(e) else Translate(mem, r, vpn)
    {
      UserIndex(vpn, 0);
      LeafOnPath(tree, t, i, r, vpn);
      hide Index, Prefix, TreeOk;
      if OnPath(tree, t, i, r, vpn) {
        WalkReaches(mem', tree, ledger, r, t, vpn);
        assert EntryAt(mem', t, i) == e;
      } else {
        WalkOffPath(mem, mem', tree, ledger, t, i, r, vpn);
      }
    }
  }

  lemma LeafOnPath(tree: Tree, t: nat, i: nat, r: nat, vpn: nat)
    requires t in tree && tree[t].level == 3 && i < ENTRY_COUNT
    ensures OnPath(tree, t, i, r, vpn) <==> r == tree[t].root && vpn == LeafPage(tree, t, i)
  {
    LeafStep(vpn);
  }

  // -- unlinking an empty table --

  ghost predicate EmptyTable(mem: Phys, c: nat) {
    forall i :: 0 <= i < ENTRY_COUNT ==> !EntryAt(mem, c, i).present
  }

  ghost function Unlinked(mem: Phys, tree: Tree, c: nat): Phys
    requires c in tree && tree[c].parent in tree && 0 <= LinkSlot(tree, c) < ENTRY_COUNT && IsTable(mem, tree[c].parent)
  {
    WithEntry(mem, tree[c].parent, LinkSlot(tree, c), EMPTY)
  }

  ghost predicate CanUnlink(mem: Phys, tree: Tree, ledger: map<nat, Owner>, c: nat) {
    && TreeOk(mem, tree, ledger) && c in tree && tree[c].level > 0 && EmptyTable(mem, c)
    && tree[c].parent in tree && 0 <= LinkSlot(tree, c) < ENTRY_COUNT && IsTable(mem, tree[c].parent)
  }

  lemma UnlinkReady(mem: Phys, tree: Tree, ledger: map<nat, Owner>, c: nat)
    requires TreeOk(mem, tree, ledger) && c in tree && tree[c].level > 0 && EmptyTable(mem, c)
    ensures CanUnlink(mem, tree, ledger, c) && UserSlot(tree, tree[c].parent, LinkSlot(tree, c))
  {
    assert NodeOk(mem, tree, c);
    assert NodeOk(mem, tree, tree[c].parent);
  }

  /** Nothing hangs below an empty table, and only its own slot links it. */
  lemma OnlyLink(mem: Phys, tree: Tree, ledger: map<nat, Owner>, c: nat, f: nat)
    requires CanUnlink(mem, tree, ledger, c) && f in tree && f != c && tree[f].level > 0
    ensures tree[f].parent != c
    ensures !(tree[f].parent == tree[c].parent && LinkSlot(tree, f) == LinkSlot(tree, c))
  {
    assert NodeOk(mem, tree, f) && NodeOk(mem, tree, c);
  }

  lemma UnlinkKeepsSlot(mem: Phys, tree: Tree, ledger: map<nat, Owner>, c: nat, f: nat, j: nat)
    requires CanUnlink(mem, tree, ledger, c) && f in tree && f != c && j < Slots(tree[f].level)
    ensures SlotOk(Unlinked(mem, tree, c), tree - {c}, f, j)
  {
    assert NodeOk(mem, tree, f) && NodeOk(mem, tree, c);
    assert SlotOk(mem, tree, f, j);
  }

  lemma UnlinkKeepsLink(mem: Phys, tree: Tree, ledger: map<nat, Owner>, c: nat, f: nat)
    requires CanUnlink(mem, tree, ledger, c) && f in tree && f != c && tree[f].level > 0
    ensures LinkOk(Unlinked(mem, tree, c), tree - {c}, f)
  {
    hide SlotOk;
    OnlyLink(mem, tree, ledger, c, f);
    assert NodeOk(mem, tree, f);
  }

  lemma UnlinkKeepsNode(mem: Phys, tree: Tree, ledger: map<nat, Owner>, c: nat, f: nat)
    requires CanUnlink(mem, tree, ledger, c) && f in tree && f != c
    ensures NodeOk(Unlinked(mem, tree, c), tree - {c}, f)
  {
    hide SlotOk, LinkOk;
    assert NodeOk(mem, tree, f);
    forall j: nat | j < Slots(tree[f].level)
      ensures SlotOk(Unlinked(mem, tree, c), tree - {c}, f, j)
    {
      UnlinkKeepsSlot(mem, tree, ledger, c, f, j);
    }
    if tree[f].level > 0 { UnlinkKeepsLink(mem, tree, ledger, c, f); }
  }

  /** Unlinking an empty table keeps the tree without it and changes no translation. */
  lemma UnlinkStep(mem: Phys, tree: Tree, ledger: map<nat, Owner>, c: nat)
    requires CanUnlink(mem, tree, ledger, c)
    ensures TreeOk(Unlinked(mem, tree, c), tree - {c}, ledger)
            && TreeOk(Unlinked(mem, tree, c), tree - {c}, ledger - {c})
    ensures SameTranslations(mem, Unlinked(mem, tree, c), tree)
  {
    hide NodeOk;
    var mem', tree' := Unlinked(mem, tree, c), tree - {c};
    forall f | f in tree'
      ensures NodeOk(mem', tree', f)
    {
      UnlinkKeepsNode(mem, tree, ledger, c, f);
    }
    var t, i := tree[c].parent, LinkSlot(tree, c);
    assert AgreeExcept(mem, mem', tree, t, i);
    assert NodeOk(mem, tree, c);
    forall r, vpn: nat | IsRoot(tree, r) && vpn < USER_PAGES
      ensures Translate(mem', r, vpn) == Translate(mem, r, vpn)
    {
      UserIndex(vpn, 0);
      if OnPath(tree, t, i, r, vpn) {
        UnlinkedWalk(mem, tree, ledger, c, r, vpn);
      } else {
        WalkOffPath(mem, mem', tree, ledger, t, i, r, vpn);
      }
    }
  }

  lemma UnlinkedWalk(mem: Phys, tree: Tree, ledger: map<nat, Owner>, c: nat, r: nat, vpn: nat)
    requires CanUnlink(mem, tree, ledger, c) && IsRoot(tree, r) && vpn < USER_PAGES
    requires TreeOk(Unlinked(mem, tree, c), tree - {c}, ledger)
    requires OnPath(tree, tree[c].parent, LinkSlot(tree, c), r, vpn)
    ensures Translate(mem, r, vpn) == None && Translate(Unlinked(mem, tree, c), r, vpn) == None
  {
    var t, i := tree[c].parent, LinkSlot(tree, c);
    UserIndex(vpn, 0);
    assert NodeOk(mem, tree, c);
    WalkReaches(mem, tree, ledger, r, t, vpn);
    assert EntryAt(mem, t, i).address == c;
    assert !EntryAt(mem, c, Index(vpn, tree[c].level)).present;
    WalkReaches(Unlinked(mem, tree, c), tree - {c}, ledger, r, t, vpn);
    assert EntryAt(Unlinked(mem, tree, c), t, i) == EMPTY;
  }

  // -- roots --

  ghost predicate NoTranslations(mem: Phys, r: nat) {
    forall vpn: nat {:trigger Translate(mem, r, vpn)} :: vpn < USER_PAGES ==> Translate(mem, r, vpn) == None
  }

  /** A fresh root: zero user half, whatever the kernel half is. */
  ghost predicate FreshRoot(entries: seq<Entry>) {
    |entries| == ENTRY_COUNT && forall i :: 0 <= i < Slots(0) ==> entries[i] == EMPTY
  }

  lemma RootKeepsNode(mem: Phys, tree: Tree, ledger: map<nat, Owner>, r: nat, entries: seq<Entry>, f: nat)
    requires TreeOk(mem, tree, ledger) && r !in tree && FreshRoot(entries) && f in tree
    ensures NodeOk(mem[r := Table(entries)], tree[r := Place(r, 0, 0, r)], f)
  {
    var mem', tree' := mem[r := Table(entries)], tree[r := Place(r, 0, 0, r)];
    assert NodeOk(mem, tree, f);
    assert forall u, j {:trigger EntryAt(mem', u, j)} :: u != r ==> EntryAt(mem', u, j) == EntryAt(mem, u, j);
    forall j: nat | j < Slots(tree[f].level)
      ensures SlotOk(mem', tree', f, j)
    {
      assert SlotOk(mem, tree, f, j);
    }
  }

  /** A new root starts with no translation and disturbs no other. */
  lemma RootStep(mem: Phys, tree: Tree, ledger: map<nat, Owner>, r: nat, entries: seq<Entry>)
    requires TreeOk(mem, tree, ledger) && r !in tree && FreshRoot(entries)
    ensures TreeOk(mem[r := Table(entries)], tree[r := Place(r, 0, 0, r)], ledger[r := PageTable(r)])
    ensures SameTranslations(mem, mem[r := Table(entries)], tree)
    ensures NoTranslations(mem[r := Table(entries)], r)
  {
    hide NodeOk;
    var mem', tree' := mem[r := Table(entries)], tree[r := Place(r, 0, 0, r)];
    forall f | f in tree'
      ensures NodeOk(mem', tree', f)
    {
      if f == r { NewRootNode(mem, tree, r, entries); } else { RootKeepsNode(mem, tree, ledger, r, entries, f); }
    }
    OtherFrame(mem, tree, ledger, r, Table(entries));
    forall vpn: nat | vpn < USER_PAGES
      ensures Translate(mem', r, vpn) == None
    {
      UserIndex(vpn, 0);
      assert EntryAt(mem', r, Index(vpn, 0)) == EMPTY;
    }
  }

  lemma NewRootNode(mem: Phys, tree: Tree, r: nat, entries: seq<Entry>)
    requires FreshRoot(entries)
    ensures NodeOk(mem[r := Table(entries)], tree[r := Place(r, 0, 0, r)], r)
  {
    var mem' := mem[r := Table(entries)];
    assert forall i :: 0 <= i < Slots(0) ==> EntryAt(mem', r, i) == EMPTY;
  }

  /** Writing a frame that is not a table of the trees changes no translation and no table. */
  lemma OtherFrame(mem: Phys, tree: Tree, ledger: map<nat, Owner>, c: nat, x: Frame)
    requires TreeOk(mem, tree, ledger) && c !in tree
    ensures TreeOk(mem[c := x], tree, ledger) && SameTranslations(mem, mem[c := x], tree)
  {
    var mem' := mem[c := x];
    assert forall u, j {:trigger EntryAt(mem', u, j)} :: u in tree ==> EntryAt(mem', u, j) == EntryAt(mem, u, j);
    hide NodeOk;
    SameNodes(mem, mem', tree, ledger);
    SameWalks(mem, mem', tree, ledger);
  }

  lemma SameNodes(mem: Phys, mem': Phys, tree: Tree, ledger: map<nat, Owner>)
    requires TreeOk(mem, tree, ledger)
    requires forall u :: u in tree ==> (IsTable(mem', u) <==> IsTable(mem, u))
    requires forall u, j {:trigger EntryAt(mem', u, j)} :: u in tree ==> EntryAt(mem', u, j) == EntryAt(mem, u, j)
    ensures TreeOk(mem', tree, ledger)
  {
    hide NodeOk;
    forall f | f in tree
      ensures NodeOk(mem', tree, f)
    {
      SameNode(mem, mem', tree, ledger, f);
    }
  }

  lemma SameWalks(mem: Phys, mem': Phys, tree: Tree, ledger: map<nat, Owner>)
    requires TreeOk(mem, tree, ledger)
    requires forall u, j {:trigger EntryAt(mem', u, j)} :: u in tree ==> EntryAt(mem', u, j) == EntryAt(mem, u, j)
    ensures SameTranslations(mem, mem', tree)
  {
    hide NodeOk, TreeOk;
    forall r, vpn: nat | IsRoot(tree, r) && vpn < USER_PAGES
      ensures Translate(mem', r, vpn) == Translate(mem, r, vpn)
    {
      UserIndex(vpn, 0);
      WalkOffPath(mem, mem', tree, ledger, r, ENTRY_COUNT, r, vpn);
    }
  }

  lemma SameNode(mem: Phys, mem': Phys, tree: Tree, ledger: map<nat, Owner>, f: nat)
    requires TreeOk(mem, tree, ledger) && f in tree
    requires forall u :: u in tree ==> (IsTable(mem', u) <==> IsTable(mem, u))
    requires forall u, j {:trigger EntryAt(mem', u, j)} :: u in tree ==> EntryAt(mem', u, j) == EntryAt(mem, u, j)
    ensures NodeOk(mem', tree, f)
  {
    assert NodeOk(mem, tree, f);
    forall j: nat | j < Slots(tree[f].level)
      ensures SlotOk(mem', tree, f, j)
    {
      assert SlotOk(mem, tree, f, j);
    }
  }

  ghost predicate EmptyRoot(mem: Phys, r: nat) {
    forall i :: 0 <= i < Slots(0) ==> !EntryAt(mem, r, i).present
  }

  /** Only the root itself is left of a root whose user half is empty. */
  lemma {:induction false} EmptyRootAlone(mem: Phys, tree: Tree, ledger: map<nat, Owner>, r: nat, f: nat)
    requires TreeOk(mem, tree, ledger) && f in tree && tree[f].root == r && EmptyRoot(mem, r)
    ensures f == r
    decreases tree[f].level
  {
    assert NodeOk(mem, tree, f);
    if tree[f].level > 0 {
      EmptyRootAlone(mem, tree, ledger, r, tree[f].parent);
    }
  }

  /** Dropping an empty root disturbs no other root. */
  lemma DropRootStep(mem: Phys, tree: Tree, ledger: map<nat, Owner>, r: nat)
    requires TreeOk(mem, tree, ledger) && IsRoot(tree, r) && EmptyRoot(mem, r)
    ensures TreeOk(mem, tree - {r}, ledger) && TreeOk(mem, tree - {r}, ledger - {r})
  {
    hide NodeOk;
    forall f | f in tree && f != r
      ensures NodeOk(mem, tree - {r}, f)
    {
      DropRootKeepsNode(mem, tree, ledger, r, f);
    }
  }

  lemma DropRootKeepsNode(mem: Phys, tree: Tree, ledger: map<nat, Owner>, r: nat, f: nat)
    requires TreeOk(mem, tree, ledger) && IsRoot(tree, r) && EmptyRoot(mem, r) && f in tree && f != r
    ensures NodeOk(mem, tree - {r}, f)
  {
    assert NodeOk(mem, tree, f);
    if tree[f].root == r { EmptyRootAlone(mem, tree, ledger, r, f); }
    forall j: nat | j < Slots(tree[f].level)
      ensures SlotOk(mem, tree - {r}, f, j)
    {
      assert SlotOk(mem, tree, f, j);
    }
  }
}
