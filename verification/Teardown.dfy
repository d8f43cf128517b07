/** Tearing down a user address space: which frames it frees, what becomes of every translation, and exactly when
    it succeeds. */
module Teardown {
  import opened Frames
  import opened Results
  import opened PageTables
  import opened Paging

  /** The first page a table covers. */
  ghost function Start(p: Place): nat {
    p.prefix * Span(p.level) * ENTRY_COUNT
  }

  /** A table of the root, below `level`, that covers pages from `lo` on but below `hi`. */
  ghost predicate TableIn(tree: Tree, f: nat, root: nat, level: nat, lo: nat, hi: nat) {
    f in tree && tree[f].root == root && tree[f].level > level && lo <= Start(tree[f]) < hi
  }

  /** Frame `f` is mapped at some page in `[lo, hi)`. */
  ghost predicate LeafIn(mem: Phys, root: nat, lo: nat, hi: nat, f: nat) {
    exists vpn: nat :: lo <= vpn < hi && Translate(mem, root, vpn).Some? && Translate(mem, root, vpn).value.address == f
  }

  /** The frames a sweep of `[lo, hi)` frees: the tables there, and the process's own pages. */
  ghost predicate Doomed(s: Space, root: nat, level: nat, lo: nat, hi: nat, f: nat) {
    || TableIn(s.tree, f, root, level, lo, hi)
    || (f in s.ledger && s.ledger[f] == ProcessMemory(root) && LeafIn(s.mem, root, lo, hi, f))
  }

  /** The pages `[lo, hi)` of the root are unmapped, every other translation is as before. */
  ghost predicate Unmapped(s: Space, s': Space, root: nat, lo: nat, hi: nat) {
    forall r, v: nat {:trigger Translate(s'.mem, r, v)} :: IsRoot(s.tree, r) && v < USER_PAGES ==>
          Translate(s'.mem, r, v) == if r == root && lo <= v < hi then None else Translate(s.mem, r, v)
  }

  /** The tables of other roots and all kernel-half entries are untouched. */
  ghost predicate OthersSame(s: Space, s': Space, root: nat) {
    forall f, j: nat {:trigger EntryAt(s'.mem, f, j)} ::
      f in s'.tree && f in s.tree && (s.tree[f].root != root || Slots(s.tree[f].level) <= j) ==>
        EntryAt(s'.mem, f, j) == EntryAt(s.mem, f, j)
  }

  /** Exactly the doomed frames left the ledger, and the doomed tables the tree. */
  ghost predicate Freed(s: Space, s': Space, root: nat, level: nat, lo: nat, hi: nat) {
    && (forall f :: f in s'.tree <==> f in s.tree && !TableIn(s.tree, f, root, level, lo, hi))
    && (forall f :: f in s'.tree ==> s'.tree[f] == s.tree[f])
    && (forall f :: f in s'.ledger <==> f in s.ledger && !Doomed(s, root, level, lo, hi, f))
    && (forall f :: f in s'.ledger ==> s'.ledger[f] == s.ledger[f])
  }

  /** A completed sweep. */
  ghost predicate Swept(s: Space, s': Space, root: nat, level: nat, lo: nat, hi: nat) {
    && Freed(s, s', root, level, lo, hi)
    && Unmapped(s, s', root, lo, hi)
    && OthersSame(s, s', root)
    && SameOutside(s.mem, s'.mem, s.tree)
    && s'.recycled + |s'.ledger| == s.recycled + |s.ledger|
  }

  /** A sweep that stopped because the recycle stack was full. */
  ghost predicate Stopped(s: Space, s': Space, root: nat, level: nat, lo: nat, hi: nat) {
    && s'.recycled == FREE_STACK_CAPACITY
    && s'.recycled + |s'.ledger| == s.recycled + |s.ledger|
    && (forall f :: f in s'.ledger ==> f in s.ledger && s'.ledger[f] == s.ledger[f])
    && (forall f :: f in s.ledger && f !in s'.ledger ==> Doomed(s, root, level, lo, hi, f))
    && (exists f :: f in s'.ledger && Doomed(s, root, level, lo, hi, f))
    && (forall r, v: nat {:trigger Translate(s'.mem, r, v)} :: IsRoot(s.tree, r) && r != root && v < USER_PAGES ==>
          Translate(s'.mem, r, v) == Translate(s.mem, r, v))
  }

  // ----- Sweeps of adjacent ranges compose -----

  lemma LeafSplit(s: Space, m: Space, root: nat, lo: nat, mid: nat, hi: nat, f: nat)
    requires Unmapped(s, m, root, lo, mid) && IsRoot(s.tree, root) && lo <= mid <= hi <= USER_PAGES
    ensures LeafIn(s.mem, root, lo, hi, f) <==> LeafIn(s.mem, root, lo, mid, f) || LeafIn(m.mem, root, mid, hi, f)
  {
    hide Translate;
    if LeafIn(s.mem, root, lo, hi, f) {
      var v: nat :| lo <= v < hi && Translate(s.mem, root, v).Some? && Translate(s.mem, root, v).value.address == f;
      if v >= mid { assert Translate(m.mem, root, v) == Translate(s.mem, root, v); }
    }
    if LeafIn(s.mem, root, lo, mid, f) {
      var v: nat :| lo <= v < mid && Translate(s.mem, root, v).Some? && Translate(s.mem, root, v).value.address == f;
      assert lo <= v < hi;
    }
    if LeafIn(m.mem, root, mid, hi, f) {
      var v: nat :| mid <= v < hi && Translate(m.mem, root, v).Some? && Translate(m.mem, root, v).value.address == f;
      assert Translate(m.mem, root, v) == Translate(s.mem, root, v);
    }
  }

  lemma DoomedSplit(s: Space, m: Space, root: nat, level: nat, lo: nat, mid: nat, hi: nat, f: nat)
    requires Swept(s, m, root, level, lo, mid) && IsRoot(s.tree, root) && lo <= mid <= hi <= USER_PAGES
    ensures Doomed(s, root, level, lo, hi, f) <==>
            Doomed(s, root, level, lo, mid, f) || Doomed(m, root, level, mid, hi, f)
  {
    hide LeafIn, OthersSame, SameOutside, Unmapped;
    LeafSplit(s, m, root, lo, mid, hi, f);
  }

  lemma FreedTrans(s: Space, m: Space, s': Space, root: nat, level: nat, lo: nat, mid: nat, hi: nat)
    requires Swept(s, m, root, level, lo, mid) && Swept(m, s', root, level, mid, hi)
    requires IsRoot(s.tree, root) && lo <= mid <= hi <= USER_PAGES
    ensures Freed(s, s', root, level, lo, hi)
  {
    hide OthersSame, SameOutside, Unmapped, Doomed;
    forall f
      ensures f in s'.ledger <==> f in s.ledger && !Doomed(s, root, level, lo, hi, f)
    {
      DoomedSplit(s, m, root, level, lo, mid, hi, f);
    }
  }

  lemma UnmappedTrans(s: Space, m: Space, s': Space, root: nat, level: nat, lo: nat, mid: nat, hi: nat)
    requires Swept(s, m, root, level, lo, mid) && Swept(m, s', root, level, mid, hi) && lo <= mid <= hi
    ensures Unmapped(s, s', root, lo, hi)
  {
    hide Doomed, OthersSame, SameOutside;
    forall r, v: nat | IsRoot(s.tree, r) && v < USER_PAGES
      ensures Translate(s'.mem, r, v) == if r == root && lo <= v < hi then None else Translate(s.mem, r, v)
    {
      assert IsRoot(m.tree, r);
      assert Translate(m.mem, r, v) == if r == root && lo <= v < mid then None else Translate(s.mem, r, v);
    }
  }

  lemma SweptTrans(s: Space, m: Space, s': Space, root: nat, level: nat, lo: nat, mid: nat, hi: nat)
    requires Swept(s, m, root, level, lo, mid) && Swept(m, s', root, level, mid, hi)
    requires IsRoot(s.tree, root) && lo <= mid <= hi <= USER_PAGES
    ensures Swept(s, s', root, level, lo, hi)
  {
    FreedTrans(s, m, s', root, level, lo, mid, hi);
    UnmappedTrans(s, m, s', root, level, lo, mid, hi);
    hide Doomed, Unmapped, TableIn;
  }

  /** A sweep that stops later in the range stops over the whole range. */
  lemma StoppedAfter(s: Space, m: Space, s': Space, root: nat, level: nat, lower: nat, lo: nat, mid: nat, end: nat,
                     hi: nat)
    requires Swept(s, m, root, level, lo, mid) && Stopped(m, s', root, lower, mid, end)
    requires IsRoot(s.tree, root) && level <= lower && lo <= mid <= end <= hi <= USER_PAGES
    ensures Stopped(s, s', root, level, lo, hi)
  {
    hide Unmapped, OthersSame, SameOutside;
    forall f | Doomed(m, root, lower, mid, end, f)
      ensures Doomed(s, root, level, lo, hi, f)
    {
      DoomedWiden(m, root, level, lower, mid, end, hi, f);
      DoomedSplit(s, m, root, level, lo, mid, hi, f);
    }
    forall f | f in s.ledger && f !in m.ledger
      ensures Doomed(s, root, level, lo, hi, f)
    {
      DoomedSplit(s, m, root, level, lo, mid, hi, f);
    }
    OtherRootsSame(s, m, s', root, level, lo, mid);
  }

  lemma OtherRootsSame(s: Space, m: Space, s': Space, root: nat, level: nat, lo: nat, mid: nat)
    requires Swept(s, m, root, level, lo, mid)
    requires forall r, v: nat {:trigger Translate(s'.mem, r, v)} :: IsRoot(m.tree, r) && r != root && v < USER_PAGES ==>
          Translate(s'.mem, r, v) == Translate(m.mem, r, v)
    ensures forall r, v: nat {:trigger Translate(s'.mem, r, v)} :: IsRoot(s.tree, r) && r != root && v < USER_PAGES ==>
          Translate(s'.mem, r, v) == Translate(s.mem, r, v)
  {
    forall r, v: nat | IsRoot(s.tree, r) && r != root && v < USER_PAGES
      ensures Translate(s'.mem, r, v) == Translate(s.mem, r, v)
    {
      assert IsRoot(m.tree, r);
      assert Translate(m.mem, r, v) == Translate(s.mem, r, v);
    }
  }

  lemma DoomedWiden(s: Space, root: nat, level: nat, lower: nat, lo: nat, end: nat, hi: nat, f: nat)
    requires Doomed(s, root, lower, lo, end, f) && level <= lower && end <= hi
    ensures Doomed(s, root, level, lo, hi, f)
  {
    if !TableIn(s.tree, f, root, lower, lo, end) {
      var v: nat :| lo <= v < end && Translate(s.mem, root, v).Some? && Translate(s.mem, root, v).value.address == f;
      assert lo <= v < hi;
    }
  }

  // ----- One slot of a sweep -----

  /** The pages under slot `k` of a table. */
  lemma SlotRange(p: Place, k: nat, v: nat)
    requires p.level <= 3 && k < ENTRY_COUNT
    ensures Start(p) + k * Span(p.level) <= v < Start(p) + k * Span(p.level) + Span(p.level)
       <==> Prefix(v, p.level) == p.prefix && Index(v, p.level) == k
  {
    assert Span(p.level) > 0;
    hide Span;
    var m := p.prefix * ENTRY_COUNT + k;
    Distribute(p.prefix, k, Span(p.level));
    SpanRange(v, p.level, m);
    NestedSpan(v, p.level);
    QuotientParts(v / Span(p.level), p.prefix, k);
  }

  lemma Distribute(prefix: nat, k: nat, span: nat)
    ensures prefix * span * ENTRY_COUNT + k * span == (prefix * ENTRY_COUNT + k) * span
  {}

  lemma SpanRange(v: nat, level: nat, m: nat)
    requires level <= 3
    ensures m * Span(level) <= v < m * Span(level) + Span(level) <==> v / Span(level) == m
  {}

  lemma NestedSpan(v: nat, level: nat)
    requires level <= 3
    ensures v / (Span(level) * ENTRY_COUNT) == v / Span(level) / ENTRY_COUNT
  {}

  lemma QuotientParts(q: nat, prefix: nat, k: nat)
    requires k < ENTRY_COUNT
    ensures q == prefix * ENTRY_COUNT + k <==> q / ENTRY_COUNT == prefix && q % ENTRY_COUNT == k
  {}

  /** A table covers its first page. */
  lemma CoversStart(p: Place)
    requires p.level <= 3
    ensures Prefix(Start(p), p.level) == p.prefix
  {}

  /** The table of level `l` above `f` that covers the same page. */
  lemma {:induction false} AncestorAt(s: Space, f: nat, v: nat, l: nat) returns (g: nat)
    requires TreeOk(s.mem, s.tree, s.ledger) && f in s.tree && Covers(s.tree, f, v) && l <= s.tree[f].level
    ensures g in s.tree && s.tree[g].root == s.tree[f].root && s.tree[g].level == l && Covers(s.tree, g, v)
    decreases s.tree[f].level
  {
    hide NodeOk;
    g := f;
    if l < s.tree[f].level {
      Ascend(s.mem, s.tree, s.ledger, f, v);
      g := AncestorAt(s, s.tree[f].parent, v, l);
    }
  }

  /** A table strictly below `t`, in the range of slot `k`, hangs under that slot. */
  lemma UnderSlot(s: Space, t: nat, k: nat, f: nat) returns (g: nat)
    requires TreeOk(s.mem, s.tree, s.ledger) && t in s.tree && s.tree[t].level < 3 && k < Slots(s.tree[t].level)
    requires TableIn(s.tree, f, s.tree[t].root, s.tree[t].level,
                     Start(s.tree[t]) + k * Span(s.tree[t].level),
                     Start(s.tree[t]) + k * Span(s.tree[t].level) + Span(s.tree[t].level))
    ensures g in s.tree && s.tree[g] == ChildPlace(s.tree, t, k)
    ensures EntryAt(s.mem, t, k).present && EntryAt(s.mem, t, k).address == g
    ensures f == g || s.tree[f].level > s.tree[g].level
  {
    hide NodeOk, Index, Prefix, Start;
    var v, l := Start(s.tree[f]), s.tree[t].level;
    TableFacts(s.mem, s.tree, s.ledger, f);
    CoversStart(s.tree[f]);
    SlotRange(s.tree[t], k, v);
    g := AncestorAt(s, f, v, l + 1);
    Ascend(s.mem, s.tree, s.ledger, g, v);
    PlacesAreDistinct(s.mem, s.tree, s.ledger, s.tree[g].parent, t);
    PrefixStep(v, l);
    if s.tree[f].level == l + 1 { PlacesAreDistinct(s.mem, s.tree, s.ledger, f, g); }
  }

  ghost function Lo(s: Space, t: nat, k: nat): nat
    requires t in s.tree
  {
    Start(s.tree[t]) + k * Span(s.tree[t].level)
  }

  ghost function Hi(s: Space, t: nat, k: nat): nat
    requires t in s.tree
  {
    Lo(s, t, k) + Span(s.tree[t].level)
  }

  /** A page under a slot is walked through that slot. */
  lemma PageUnderSlot(s: Space, t: nat, k: nat, v: nat)
    requires TreeOk(s.mem, s.tree, s.ledger) && t in s.tree && k < ENTRY_COUNT && v < USER_PAGES
             && Lo(s, t, k) <= v < Hi(s, t, k)
    ensures OnPath(s.tree, t, k, s.tree[t].root, v)
    ensures Translate(s.mem, s.tree[t].root, v) == Walk(s.mem, t, s.tree[t].level, v)
  {
    hide NodeOk, Index, Prefix, Start;
    TableFacts(s.mem, s.tree, s.ledger, t);
    SlotRange(s.tree[t], k, v);
    UserIndex(v, 0);
    WalkReaches(s.mem, s.tree, s.ledger, s.tree[t].root, t, v);
  }

  /** An empty slot has nothing to sweep. */
  lemma NothingThere(s: Space, t: nat, k: nat)
    requires TreeOk(s.mem, s.tree, s.ledger) && UserSlot(s.tree, t, k) && !EntryAt(s.mem, t, k).present
             && Hi(s, t, k) <= USER_PAGES
    ensures Swept(s, s, s.tree[t].root, s.tree[t].level, Lo(s, t, k), Hi(s, t, k))
  {
    hide NodeOk, Index, Prefix, Start;
    var root, level := s.tree[t].root, s.tree[t].level;
    TableFacts(s.mem, s.tree, s.ledger, t);
    forall v: nat | Lo(s, t, k) <= v < Hi(s, t, k)
      ensures Translate(s.mem, root, v) == None
    {
      PageUnderSlot(s, t, k, v);
    }
    forall f | TableIn(s.tree, f, root, level, Lo(s, t, k), Hi(s, t, k))
      ensures false
    {
      TableFacts(s.mem, s.tree, s.ledger, f);
      var _ := UnderSlot(s, t, k, f);
    }
  }

  lemma OneLeaf(s: Space, t: nat, k: nat, f: nat)
    requires TreeOk(s.mem, s.tree, s.ledger) && t in s.tree && s.tree[t].level == 3 && k < ENTRY_COUNT
    requires EntryAt(s.mem, t, k).present && Hi(s, t, k) <= USER_PAGES
    ensures LeafIn(s.mem, s.tree[t].root, Lo(s, t, k), Hi(s, t, k), f) <==> f == EntryAt(s.mem, t, k).address
  {
    hide NodeOk, Index, Prefix, Start;
    var v, hi := Lo(s, t, k), Hi(s, t, k);
    PageUnderSlot(s, t, k, v);
    assert Translate(s.mem, s.tree[t].root, v) == Some(EntryAt(s.mem, t, k));
    assert v <= v < hi;
  }

  ghost predicate LeafReleased(s: Space, t: nat, k: nat, s': Space)
    requires t in s.tree
  {
    var a := EntryAt(s.mem, t, k).address;
    && s'.tree == s.tree
    && if a in s.ledger && s.ledger[a] == ProcessMemory(s.tree[t].root)
       then s'.ledger == s.ledger - {a} && s'.recycled == s.recycled + 1
       else s'.ledger == s.ledger && s'.recycled == s.recycled
  }

  lemma LeafFreed(s: Space, t: nat, k: nat, s': Space)
    requires TreeOk(s.mem, s.tree, s.ledger) && t in s.tree && s.tree[t].level == 3 && k < ENTRY_COUNT
    requires EntryAt(s.mem, t, k).present && Hi(s, t, k) <= USER_PAGES && LeafReleased(s, t, k, s')
    ensures Freed(s, s', s.tree[t].root, 3, Lo(s, t, k), Hi(s, t, k))
    ensures s'.recycled + |s'.ledger| == s.recycled + |s.ledger|
  {
    hide NodeOk, LeafIn, Lo, Hi, EntryAt;
    var a := EntryAt(s.mem, t, k).address;
    forall f
      ensures Doomed(s, s.tree[t].root, 3, Lo(s, t, k), Hi(s, t, k), f)
         <==> f == a && f in s.ledger && s.ledger[f] == ProcessMemory(s.tree[t].root)
      ensures !TableIn(s.tree, f, s.tree[t].root, 3, Lo(s, t, k), Hi(s, t, k))
    {
      OneLeaf(s, t, k, f);
      if f in s.tree { TableFacts(s.mem, s.tree, s.ledger, f); }
    }
    hide Doomed, TableIn;
    if s'.ledger != s.ledger { assert s.ledger.Keys == s'.ledger.Keys + {a}; }
  }

  /** A leaf slot: the page's frame is freed if the process owns it, then the slot is cleared. */
  lemma LeafGone(s: Space, t: nat, k: nat, s': Space)
    requires TreeOk(s.mem, s.tree, s.ledger) && t in s.tree && s.tree[t].level == 3 && k < ENTRY_COUNT
             && IsTable(s.mem, t)
    requires EntryAt(s.mem, t, k).present && Hi(s, t, k) <= USER_PAGES
    requires s'.mem == WithEntry(s.mem, t, k, EMPTY) && LeafReleased(s, t, k, s')
    ensures Swept(s, s', s.tree[t].root, 3, Lo(s, t, k), Hi(s, t, k)) && TreeOk(s'.mem, s'.tree, s'.ledger)
  {
    hide NodeOk, Index, Prefix, Start, Freed;
    LeafFreed(s, t, k, s');
    PageUnderSlot(s, t, k, Lo(s, t, k));
    LeafStep(Lo(s, t, k));
    LeafStepOk(s.mem, s.tree, s.ledger, t, k, EMPTY);
  }

  // ----- A child table, swept and unlinked -----

  lemma ChildRange(s: Space, t: nat, k: nat, c: nat)
    requires t in s.tree && c in s.tree && s.tree[t].level < 3 && s.tree[c] == ChildPlace(s.tree, t, k)
    ensures Lo(s, c, 0) == Lo(s, t, k) && Lo(s, c, ENTRY_COUNT) == Hi(s, t, k) && Start(s.tree[c]) == Lo(s, t, k)
  {}

  /** The child and everything swept below it are all the tables under the slot. */
  lemma ChildTables(s: Space, t: nat, k: nat, c: nat, f: nat)
    requires TreeOk(s.mem, s.tree, s.ledger) && t in s.tree && c in s.tree && s.tree[t].level < 3
             && k < Slots(s.tree[t].level)
    requires s.tree[c] == ChildPlace(s.tree, t, k)
    ensures TableIn(s.tree, f, s.tree[t].root, s.tree[t].level, Lo(s, t, k), Hi(s, t, k))
       <==> f == c || TableIn(s.tree, f, s.tree[t].root, s.tree[t].level + 1, Lo(s, t, k), Hi(s, t, k))
  {
    hide NodeOk, Index, Prefix, Start;
    ChildRange(s, t, k, c);
    if TableIn(s.tree, f, s.tree[t].root, s.tree[t].level, Lo(s, t, k), Hi(s, t, k)) {
      var g := UnderSlot(s, t, k, f);
      PlacesAreDistinct(s.mem, s.tree, s.ledger, g, c);
    }
  }

  lemma ChildFreed(s: Space, m: Space, s': Space, t: nat, k: nat, c: nat)
    requires TreeOk(s.mem, s.tree, s.ledger) && t in s.tree && c in s.tree && s.tree[t].level < 3
             && k < Slots(s.tree[t].level)
    requires s.tree[c] == ChildPlace(s.tree, t, k)
    requires Freed(s, m, s.tree[t].root, s.tree[t].level + 1, Lo(s, t, k), Hi(s, t, k)) && c in m.ledger
    requires s'.tree == m.tree - {c} && s'.ledger == m.ledger - {c}
    ensures Freed(s, s', s.tree[t].root, s.tree[t].level, Lo(s, t, k), Hi(s, t, k))
    ensures |s'.ledger| + 1 == |m.ledger|
  {
    hide NodeOk, Lo, Hi, LeafIn;
    TableFacts(s.mem, s.tree, s.ledger, c);
    forall f
      ensures TableIn(s.tree, f, s.tree[t].root, s.tree[t].level, Lo(s, t, k), Hi(s, t, k))
         <==> f == c || TableIn(s.tree, f, s.tree[t].root, s.tree[t].level + 1, Lo(s, t, k), Hi(s, t, k))
    {
      ChildTables(s, t, k, c, f);
    }
    assert m.ledger.Keys == s'.ledger.Keys + {c};
    hide TableIn;
  }

  /** Sweeping below a child, unlinking it and freeing it sweeps the slot. */
  lemma ChildGone(s: Space, m: Space, s': Space, t: nat, k: nat, c: nat)
    requires TreeOk(s.mem, s.tree, s.ledger) && t in s.tree && c in s.tree && s.tree[t].level < 3
             && k < Slots(s.tree[t].level)
    requires s.tree[c] == ChildPlace(s.tree, t, k) && IsTable(m.mem, t)
    requires Swept(s, m, s.tree[t].root, s.tree[t].level + 1, Lo(s, t, k), Hi(s, t, k)) && c in m.ledger
    requires s'.tree == m.tree - {c} && s'.ledger == m.ledger - {c} && s'.recycled == m.recycled + 1
    requires s'.mem == WithEntry(m.mem, t, k, EMPTY) && SameTranslations(m.mem, s'.mem, m.tree)
    ensures Swept(s, s', s.tree[t].root, s.tree[t].level, Lo(s, t, k), Hi(s, t, k))
  {
    hide Freed, Unmapped, OthersSame, SameOutside, TreeOk, Lo, Hi, SameTranslations, Slots, EntryAt;
    var root, level, lo, hi := s.tree[t].root, s.tree[t].level, Lo(s, t, k), Hi(s, t, k);
    ChildFreed(s, m, s', t, k, c);
    StillUnmapped(s, m, s', root, level + 1, lo, hi);
    ClearKeepsOthers(s, m, t, k);
    OthersSubtree(s, m.(mem := s'.mem), s', root);
  }

  lemma StillUnmapped(s: Space, m: Space, s': Space, root: nat, level: nat, lo: nat, hi: nat)
    requires Freed(s, m, root, level, lo, hi) && Unmapped(s, m, root, lo, hi) && SameTranslations(m.mem, s'.mem, m.tree)
    ensures Unmapped(s, s', root, lo, hi)
  {
    hide Freed;
    forall r, v: nat | IsRoot(s.tree, r) && v < USER_PAGES
      ensures Translate(s'.mem, r, v) == if r == root && lo <= v < hi then None else Translate(s.mem, r, v)
    {
      SweptRoots(s, m, root, level, lo, hi, r);
      assert Translate(s'.mem, r, v) == Translate(m.mem, r, v);
    }
  }

  lemma ClearKeepsOthers(s: Space, m: Space, t: nat, k: nat)
    requires t in s.tree && k < Slots(s.tree[t].level) && IsTable(m.mem, t)
    requires OthersSame(s, m, s.tree[t].root) && SameOutside(s.mem, m.mem, s.tree)
    ensures OthersSame(s, m.(mem := WithEntry(m.mem, t, k, EMPTY)), s.tree[t].root)
    ensures SameOutside(s.mem, WithEntry(m.mem, t, k, EMPTY), s.tree)
  {}

  lemma OthersSubtree(s: Space, m: Space, s': Space, root: nat)
    requires OthersSame(s, m, root) && s'.mem == m.mem && (forall f :: f in s'.tree ==> f in m.tree)
    ensures OthersSame(s, s', root)
  {}

  lemma SweptRoots(s: Space, m: Space, root: nat, level: nat, lo: nat, hi: nat, r: nat)
    requires Freed(s, m, root, level, lo, hi) && IsRoot(s.tree, r)
    ensures IsRoot(m.tree, r)
  {}

  // ----- Stopping on a full recycle stack -----

  lemma StoppedAtLeaf(s: Space, t: nat, k: nat)
    requires TreeOk(s.mem, s.tree, s.ledger) && t in s.tree && s.tree[t].level == 3 && k < ENTRY_COUNT
    requires EntryAt(s.mem, t, k).present && Hi(s, t, k) <= USER_PAGES && s.recycled == FREE_STACK_CAPACITY
    requires var a := EntryAt(s.mem, t, k).address; a in s.ledger && s.ledger[a] == ProcessMemory(s.tree[t].root)
    ensures Stopped(s, s, s.tree[t].root, 3, Lo(s, t, k), Hi(s, t, k))
  {
    hide NodeOk, Lo, Hi;
    var a := EntryAt(s.mem, t, k).address;
    OneLeaf(s, t, k, a);
    assert Doomed(s, s.tree[t].root, 3, Lo(s, t, k), Hi(s, t, k), a);
  }

  lemma StoppedAtChild(s: Space, m: Space, t: nat, k: nat, c: nat)
    requires TreeOk(s.mem, s.tree, s.ledger) && t in s.tree && c in s.tree && s.tree[t].level < 3
             && k < Slots(s.tree[t].level)
    requires s.tree[c] == ChildPlace(s.tree, t, k) && c in m.ledger && m.recycled == FREE_STACK_CAPACITY
    requires Swept(s, m, s.tree[t].root, s.tree[t].level + 1, Lo(s, t, k), Hi(s, t, k))
    ensures Stopped(s, m, s.tree[t].root, s.tree[t].level, Lo(s, t, k), Hi(s, t, k))
  {
    hide NodeOk, Lo, Hi, OthersSame, SameOutside, LeafIn;
    var root, level, lo, hi := s.tree[t].root, s.tree[t].level, Lo(s, t, k), Hi(s, t, k);
    ChildTables(s, t, k, c, c);
    forall f | f in s.ledger && f !in m.ledger
      ensures Doomed(s, root, level, lo, hi, f)
    {
      ChildTables(s, t, k, c, f);
    }
    assert Doomed(s, root, level, lo, hi, c);
  }

  lemma StoppedBelow(s: Space, s': Space, t: nat, k: nat, c: nat)
    requires TreeOk(s.mem, s.tree, s.ledger) && t in s.tree && c in s.tree && s.tree[t].level < 3
             && k < Slots(s.tree[t].level)
    requires s.tree[c] == ChildPlace(s.tree, t, k)
    requires Stopped(s, s', s.tree[t].root, s.tree[t].level + 1, Lo(s, t, k), Hi(s, t, k))
    ensures Stopped(s, s', s.tree[t].root, s.tree[t].level, Lo(s, t, k), Hi(s, t, k))
  {
    hide NodeOk, Lo, Hi, LeafIn;
    var root, level, lo, hi := s.tree[t].root, s.tree[t].level, Lo(s, t, k), Hi(s, t, k);
    forall f | Doomed(s, root, level + 1, lo, hi, f)
      ensures Doomed(s, root, level, lo, hi, f)
    {
      ChildTables(s, t, k, c, f);
    }
  }

  // ----- The code -----

  datatype ReclaimStats = ReclaimStats(userLeafFrames: nat, pageTableFrames: nat, deviceMappings: nat)

  const EMPTY_STATS := ReclaimStats(0, 0, 0)

  ghost function MappedPages(mem: Phys, root: nat, lo: nat, hi: nat): set<nat> {
    set v: nat | lo <= v < hi && Translate(mem, root, v).Some?
  }

  /** What the counters say of a sweep from `s` to `s'`: the tables dropped, the frames freed, and the pages that
      were mapped. */
  ghost predicate Tally(a: ReclaimStats, b: ReclaimStats, s: Space, s': Space, root: nat, lo: nat, hi: nat) {
    && b.pageTableFrames + |s'.tree| == a.pageTableFrames + |s.tree|
    && b.pageTableFrames + b.userLeafFrames + s.recycled == a.pageTableFrames + a.userLeafFrames + s'.recycled
    && b.userLeafFrames + b.deviceMappings == a.userLeafFrames + a.deviceMappings + |MappedPages(s.mem, root, lo, hi)|
  }

  lemma TallyNothing(a: ReclaimStats, s: Space, root: nat, level: nat, lo: nat, hi: nat)
    requires Swept(s, s, root, level, lo, hi) && IsRoot(s.tree, root) && hi <= USER_PAGES
    ensures Tally(a, a, s, s, root, lo, hi)
  {
    assert MappedPages(s.mem, root, lo, hi) == {};
  }

  lemma TallyTrans(a: ReclaimStats, b: ReclaimStats, c: ReclaimStats, s: Space, m: Space, s': Space,
                   root: nat, level: nat, lo: nat, mid: nat, hi: nat)
    requires Swept(s, m, root, level, lo, mid) && IsRoot(s.tree, root) && lo <= mid <= hi <= USER_PAGES
    requires Tally(a, b, s, m, root, lo, mid) && Tally(b, c, m, s', root, mid, hi)
    ensures Tally(a, c, s, s', root, lo, hi)
  {
    hide Freed, OthersSame, SameOutside, MappedPages;
    PagesSplit(s, m, root, lo, mid, hi);
  }

  lemma PagesSplit(s: Space, m: Space, root: nat, lo: nat, mid: nat, hi: nat)
    requires Unmapped(s, m, root, lo, mid) && IsRoot(s.tree, root) && lo <= mid <= hi <= USER_PAGES
    ensures |MappedPages(s.mem, root, lo, hi)| == |MappedPages(s.mem, root, lo, mid)|
                                                  + |MappedPages(m.mem, root, mid, hi)|
  {
    hide Translate;
    var all, first, rest :=
      MappedPages(s.mem, root, lo, hi), MappedPages(s.mem, root, lo, mid), MappedPages(m.mem, root, mid, hi);
    forall v: nat | mid <= v < hi
      ensures v in all <==> v in rest
    {
      assert Translate(m.mem, root, v) == Translate(s.mem, root, v);
    }
    hide Unmapped;
    assert all == first + rest && first !! rest;
  }

  lemma TallyLeaf(a: ReclaimStats, s: Space, t: nat, k: nat, s': Space, ours: bool)
    requires TreeOk(s.mem, s.tree, s.ledger) && t in s.tree && s.tree[t].level == 3 && k < ENTRY_COUNT
    requires EntryAt(s.mem, t, k).present && Hi(s, t, k) <= USER_PAGES
    requires s'.tree == s.tree && s'.recycled == s.recycled + (if ours then 1 else 0)
    ensures Tally(a, if ours then a.(userLeafFrames := a.userLeafFrames + 1)
                  else a.(deviceMappings := a.deviceMappings + 1),
                  s, s', s.tree[t].root, Lo(s, t, k), Hi(s, t, k))
  {
    hide NodeOk, Index, Prefix, Start;
    var v := Lo(s, t, k);
    PageUnderSlot(s, t, k, v);
    assert MappedPages(s.mem, s.tree[t].root, v, Hi(s, t, k)) == {v};
  }

  lemma TallyChild(a: ReclaimStats, b: ReclaimStats, s: Space, m: Space, s': Space, root: nat, lo: nat, hi: nat, c: nat)
    requires Tally(a, b, s, m, root, lo, hi) && c in m.tree && s'.tree == m.tree - {c} && s'.recycled == m.recycled + 1
    ensures Tally(a, b.(pageTableFrames := b.pageTableFrames + 1), s, s', root, lo, hi)
  {
    assert m.tree.Keys == s'.tree.Keys + {c};
  }

  /** No new table, and every entry outside slot `i` of `t` is as before. */
  ghost predicate OnlySlot(s: Space, s': Space, t: nat, i: nat) {
    && (forall f :: f in s'.tree ==> f in s.tree)
    && forall f, j: nat {:trigger EntryAt(s'.mem, f, j)} :: f in s'.tree && !(f == t && j == i) ==>
          EntryAt(s'.mem, f, j) == EntryAt(s.mem, f, j)
  }

  ghost predicate OnlyTable(s: Space, s': Space, t: nat) {
    && (forall f :: f in s'.tree ==> f in s.tree)
    && forall f, j: nat {:trigger EntryAt(s'.mem, f, j)} :: f in s'.tree && f != t ==>
          EntryAt(s'.mem, f, j) == EntryAt(s.mem, f, j)
  }

  /** Some user-half entry is huge; under the tree invariant none is. */
  ghost predicate SomeHuge(mem: Phys, tree: Tree) {
    exists f, i: nat :: UserSlot(tree, f, i) && EntryAt(mem, f, i).present && EntryAt(mem, f, i).huge
  }

  lemma NoneHuge(s: Space)
    requires TreeOk(s.mem, s.tree, s.ledger)
    ensures !SomeHuge(s.mem, s.tree)
  {
    hide NodeOk;
    forall f, i: nat | UserSlot(s.tree, f, i)
      ensures !(EntryAt(s.mem, f, i).present && EntryAt(s.mem, f, i).huge)
    {
      SlotFacts(s.mem, s.tree, s.ledger, f, i);
    }
  }

  /** The result of a sweep: complete, or stopped. */
  ghost predicate Outcome(r: Result<ReclaimStats, ReclaimError>, s: Space, s': Space, root: nat, level: nat, lo: nat,
                          hi: nat) {
    match r
    case Ok(_) => Swept(s, s', root, level, lo, hi)
    case Err(HugeEntry) => SomeHuge(s'.mem, s'.tree)
    case Err(e) => e == FreeFailed(FreeStackFull) && Stopped(s, s', root, level, lo, hi)
  }

  /** Frees a page if the process owns its frame; leaves device and shared frames alone. */
  method ReclaimLeafFrame(m: Machine, root: nat, address: nat) returns (r: Result<bool, ReclaimError>)
    requires m.alloc.Valid()
    modifies m.alloc`freeStackLen, m.alloc`recordCount, m.alloc`allocatedFrames, m.alloc`reclaimedFrames, m.alloc`view,
             m.alloc.freeStack, m.alloc.records
    ensures m.alloc.Valid()
    ensures var ours := address in old(m.alloc.view.ledger) && old(m.alloc.view.ledger)[address] == ProcessMemory(root);
            && (!ours ==> r == Ok(false))
            && (ours && |old(m.alloc.view.stack)| == FREE_STACK_CAPACITY ==> r == Err(FreeFailed(FreeStackFull)))
            && (ours && |old(m.alloc.view.stack)| != FREE_STACK_CAPACITY ==> r == Ok(true))
    ensures r == Ok(true) ==>
              m.alloc.view.ledger == old(m.alloc.view.ledger) - {address}
              && |m.alloc.view.stack| == |old(m.alloc.view.stack)| + 1
    ensures r != Ok(true) ==> m.alloc.view == old(m.alloc.view)
  {
    hide Sound, FrameCount;
    SoundFacts(m.alloc.view, address);
    r := Ok(false);
    var owner := m.alloc.OwnerOf(address);
    if owner == Some(ProcessMemory(root)) {
      var freed := m.alloc.FreeOwned(address, ProcessMemory(root));
      r := if freed.Err? then Err(FreeFailed(freed.error)) else Ok(true);
    }
  }

  /** Sweeps one leaf slot. */
  method ReclaimLeafSlot(m: Machine, root: nat, table: nat, index: nat, stats: ReclaimStats)
    returns (r: Result<ReclaimStats, ReclaimError>)
    requires m.Valid() && table in m.tree && m.tree[table].root == root && m.tree[table].level == 3
    requires index < ENTRY_COUNT && Hi(m.Now(), table, index) <= USER_PAGES
    modifies m, m.alloc, m.alloc.freeStack, m.alloc.records
    ensures m.Valid() && m.tree == old(m.tree) && OnlySlot(old(m.Now()), m.Now(), table, index)
    ensures Outcome(r, old(m.Now()), m.Now(), root, 3, Lo(old(m.Now()), table, index), Hi(old(m.Now()), table, index))
    ensures r.Ok? ==>
              Tally(stats, r.value, old(m.Now()), m.Now(), root, Lo(old(m.Now()), table, index),
                    Hi(old(m.Now()), table, index))
    ensures r.Ok? ==> !EntryAt(m.mem, table, index).present
  {
    hide NodeOk, FrameAllocator.Valid, Lo, Hi, Swept, Stopped, Tally, SomeHuge;
    ghost var s := m.Now();
    TableFacts(m.mem, m.tree, m.alloc.view.ledger, table);
    r := Ok(stats);
    var entry := m.mem[table].entries[index];
    if !entry.present {
      NothingThere(s, table, index);
      TallyNothing(stats, s, root, 3, Lo(s, table, index), Hi(s, table, index));
    } else if entry.huge {
      HugeHere(s, table, index);
      r := Err(HugeEntry);
    } else {
      var freed := ReclaimLeafFrame(m, root, entry.address);
      if freed.Err? {
        StoppedAtLeaf(s, table, index);
        r := Err(freed.error);
      } else {
        m.mem := m.mem[table := Table(m.mem[table].entries[index := EMPTY])];
        LeafGone(s, table, index, m.Now());
        TallyLeaf(stats, s, table, index, m.Now(), freed.value);
        r := Ok(if freed.value then stats.(userLeafFrames := stats.userLeafFrames + 1)
                else stats.(deviceMappings := stats.deviceMappings + 1));
      }
    }
  }

  lemma HugeHere(s: Space, t: nat, i: nat)
    requires UserSlot(s.tree, t, i) && EntryAt(s.mem, t, i).present && EntryAt(s.mem, t, i).huge
    ensures SomeHuge(s.mem, s.tree)
  {}

  lemma ChildOf(s: Space, t: nat, i: nat)
    requires TreeOk(s.mem, s.tree, s.ledger) && UserSlot(s.tree, t, i) && s.tree[t].level < 3
             && EntryAt(s.mem, t, i).present
    ensures var c := EntryAt(s.mem, t, i).address;
            c in s.tree && s.tree[c] == ChildPlace(s.tree, t, i) && c in s.ledger
            && s.ledger[c] == PageTable(s.tree[t].root)
  {
    assert NodeOk(s.mem, s.tree, t);
    assert SlotOk(s.mem, s.tree, t, i);
  }

  lemma ChildKept(s: Space, m: Space, t: nat, k: nat, c: nat)
    requires TreeOk(s.mem, s.tree, s.ledger) && t in s.tree && c in s.tree && s.tree[t].level < 3
             && k < Slots(s.tree[t].level)
    requires s.tree[c] == ChildPlace(s.tree, t, k) && s.ledger[c] == PageTable(s.tree[t].root)
    requires Swept(s, m, s.tree[t].root, s.tree[t].level + 1, Lo(s, t, k), Hi(s, t, k))
    ensures t in m.tree && m.tree[t] == s.tree[t] && c in m.tree && m.tree[c] == s.tree[c] && c in m.ledger
    ensures LinkSlot(m.tree, c) == k
  {
    hide NodeOk, Lo, Hi, LeafIn, OthersSame, SameOutside, Unmapped;
  }

  /** Sweeping below a table and cutting it off changes no other slot. */
  lemma CutOnlySlot(s: Space, m: Space, s': Space, t: nat, i: nat, c: nat)
    requires OnlyTable(s, m, c) && IsTable(m.mem, t) && i < ENTRY_COUNT
    requires s'.tree == m.tree - {c} && s'.mem == WithEntry(m.mem, t, i, EMPTY)
    ensures OnlySlot(s, s', t, i)
  {}

  /** Sweeps one slot that links a table: first below the table, then the table itself. */
  method ReclaimTableSlot(m: Machine, root: nat, table: nat, level: nat, index: nat, stats: ReclaimStats)
    returns (r: Result<ReclaimStats, ReclaimError>)
    requires m.Valid() && table in m.tree && m.tree[table].root == root && m.tree[table].level == level < 3
    requires UserSlot(m.tree, table, index) && EntryAt(m.mem, table, index).present
             && Hi(m.Now(), table, index) <= USER_PAGES
    modifies m, m.alloc, m.alloc.freeStack, m.alloc.records
    ensures m.Valid() && (r.Ok? ==> OnlySlot(old(m.Now()), m.Now(), table, index))
    ensures Outcome(r, old(m.Now()), m.Now(), root, level, Lo(old(m.Now()), table, index),
                    Hi(old(m.Now()), table, index))
    ensures r.Ok? ==>
              Tally(stats, r.value, old(m.Now()), m.Now(), root, Lo(old(m.Now()), table, index),
                    Hi(old(m.Now()), table, index))
    ensures r.Ok? ==> table in m.tree && m.tree[table] == old(m.tree[table]) && !EntryAt(m.mem, table, index).present
    decreases 3 - level, 0
  {
    hide NodeOk, TreeOk, FrameAllocator.Valid, Lo, Hi, Swept, Stopped, Tally, SomeHuge, SameTranslations, EmptyTable,
         OnlySlot, OnlyTable;
    ghost var s := m.Now();
    TableFacts(m.mem, m.tree, m.alloc.view.ledger, table);
    ChildOf(s, table, index);
    var child := m.mem[table].entries[index].address;
    ChildRange(s, table, index, child);
    r := ReclaimPageTable(m, root, child, level + 1, stats);
    if r.Ok? {
      r := ReclaimTable(m, root, table, index, child, s, stats, r.value);
    } else if r.error != HugeEntry {
      StoppedBelow(s, m.Now(), table, index, child);
    }
  }

  /** Frees a table that was swept from state `s` on, and clears the slot that links it. */
  method ReclaimTable(m: Machine, root: nat, table: nat, index: nat, child: nat, ghost s: Space,
                      ghost stats: ReclaimStats, swept: ReclaimStats)
    returns (r: Result<ReclaimStats, ReclaimError>)
    requires m.Valid() && TreeOk(s.mem, s.tree, s.ledger) && UserSlot(s.tree, table, index) && s.tree[table].level < 3
    requires s.tree[table].root == root && child in s.tree && s.tree[child] == ChildPlace(s.tree, table, index)
    requires child in s.ledger && s.ledger[child] == PageTable(root)
    requires Swept(s, m.Now(), root, s.tree[table].level + 1, Lo(s, table, index), Hi(s, table, index))
             && OnlyTable(s, m.Now(), child)
    requires Tally(stats, swept, s, m.Now(), root, Lo(s, table, index), Hi(s, table, index)) && EmptyTable(m.mem, child)
    modifies m, m.alloc, m.alloc.freeStack, m.alloc.records
    ensures m.Valid() && (r.Ok? ==> OnlySlot(s, m.Now(), table, index))
    ensures Outcome(r, s, m.Now(), root, s.tree[table].level, Lo(s, table, index), Hi(s, table, index))
    ensures r.Ok? ==> Tally(stats, r.value, s, m.Now(), root, Lo(s, table, index), Hi(s, table, index))
    ensures r.Ok? ==> table in m.tree && m.tree[table] == s.tree[table] && !EntryAt(m.mem, table, index).present
  {
    hide NodeOk, TreeOk, FrameAllocator.Valid, Lo, Hi, Swept, Stopped, Tally, SomeHuge, SameTranslations, EmptyTable,
         OnlySlot, OnlyTable;
    ghost var before := m.Now();
    ChildKept(s, before, table, index, child);
    var freed := m.FreeAndUnlink(root, child, table, index);
    if freed.Ok? {
      ChildGone(s, before, m.Now(), table, index, child);
      CutOnlySlot(s, before, m.Now(), table, index, child);
      TallyChild(stats, swept, s, before, m.Now(), root, Lo(s, table, index), Hi(s, table, index), child);
      r := Ok(swept.(pageTableFrames := swept.pageTableFrames + 1));
    } else {
      StoppedAtChild(s, before, table, index, child);
      r := Err(freed.error);
    }
  }

  /** Sweeps everything below a table and leaves it empty. */
  method ReclaimPageTable(m: Machine, root: nat, table: nat, level: nat, stats: ReclaimStats)
    returns (r: Result<ReclaimStats, ReclaimError>)
    requires m.Valid() && table in m.tree && m.tree[table].root == root && m.tree[table].level == level
             && 1 <= level <= 3
    requires Lo(m.Now(), table, ENTRY_COUNT) <= USER_PAGES
    modifies m, m.alloc, m.alloc.freeStack, m.alloc.records
    ensures m.Valid() && (r.Ok? ==> OnlyTable(old(m.Now()), m.Now(), table))
    ensures Outcome(r, old(m.Now()), m.Now(), root, level, Lo(old(m.Now()), table, 0),
                    Lo(old(m.Now()), table, ENTRY_COUNT))
    ensures r.Ok? ==>
              Tally(stats, r.value, old(m.Now()), m.Now(), root, Lo(old(m.Now()), table, 0),
                    Lo(old(m.Now()), table, ENTRY_COUNT))
    ensures r.Ok? ==> table in m.tree && EmptyTable(m.mem, table)
    decreases 3 - level, 2
  {
    hide NodeOk, TreeOk, FrameAllocator.Valid, Lo, Hi, Swept, Stopped, Tally, SomeHuge;
    ghost var s := m.Now();
    var index := 0;
    r := Ok(stats);
    NothingYet(stats, s, root, level, Lo(s, table, 0));
    while index < ENTRY_COUNT && r.Ok?
      invariant index <= ENTRY_COUNT && m.Valid()
      invariant r.Ok? ==>
                  OnlyTable(s, m.Now(), table) && Swept(s, m.Now(), root, level, Lo(s, table, 0), Lo(s, table, index))
      invariant r.Ok? ==> Tally(stats, r.value, s, m.Now(), root, Lo(s, table, 0), Lo(s, table, index))
      invariant r.Ok? ==> table in m.tree && m.tree[table] == s.tree[table]
      invariant r.Ok? ==> forall j :: 0 <= j < index ==> !EntryAt(m.mem, table, j).present
      invariant r.Err? ==> Outcome(r, s, m.Now(), root, level, Lo(s, table, 0), Lo(s, table, ENTRY_COUNT))
    {
      ghost var before := m.Now();
      TableFacts(s.mem, s.tree, s.ledger, table);
      TableFacts(m.mem, m.tree, m.alloc.view.ledger, table);
      SlotBounds(s, before, table, index);
      ghost var sofar := r.value;
      r := ReclaimSlot(m, root, table, level, index, r.value);
      OutcomeAfter(stats, sofar, r, s, before, m.Now(), table, index, ENTRY_COUNT);
      index := index + 1;
    }
  }

  /** Sweeps one slot of a table. */
  method ReclaimSlot(m: Machine, root: nat, table: nat, level: nat, index: nat, stats: ReclaimStats)
    returns (r: Result<ReclaimStats, ReclaimError>)
    requires m.Valid() && table in m.tree && m.tree[table].root == root && m.tree[table].level == level <= 3
    requires UserSlot(m.tree, table, index) && Hi(m.Now(), table, index) <= USER_PAGES
    modifies m, m.alloc, m.alloc.freeStack, m.alloc.records
    ensures m.Valid() && (r.Ok? ==> OnlySlot(old(m.Now()), m.Now(), table, index))
    ensures Outcome(r, old(m.Now()), m.Now(), root, level, Lo(old(m.Now()), table, index),
                    Hi(old(m.Now()), table, index))
    ensures r.Ok? ==>
              Tally(stats, r.value, old(m.Now()), m.Now(), root, Lo(old(m.Now()), table, index),
                    Hi(old(m.Now()), table, index))
    ensures r.Ok? ==> table in m.tree && m.tree[table] == old(m.tree[table]) && !EntryAt(m.mem, table, index).present
    decreases 3 - level, 1
  {
    hide NodeOk, FrameAllocator.Valid, Lo, Hi, Swept, Stopped, Tally, SomeHuge;
    ghost var s := m.Now();
    TableFacts(m.mem, m.tree, m.alloc.view.ledger, table);
    r := Ok(stats);
    if level == 3 {
      r := ReclaimLeafSlot(m, root, table, index, stats);
    } else if !m.mem[table].entries[index].present {
      NothingThere(s, table, index);
      TallyNothing(stats, s, root, level, Lo(s, table, index), Hi(s, table, index));
    } else if m.mem[table].entries[index].huge {
      HugeHere(s, table, index);
      r := Err(HugeEntry);
    } else {
      r := ReclaimTableSlot(m, root, table, level, index, stats);
    }
  }

  lemma NothingYet(a: ReclaimStats, s: Space, root: nat, level: nat, lo: nat)
    ensures Swept(s, s, root, level, lo, lo) && Tally(a, a, s, s, root, lo, lo)
  {
    assert MappedPages(s.mem, root, lo, lo) == {};
  }

  lemma SlotBounds(s: Space, m: Space, t: nat, k: nat)
    requires t in s.tree && t in m.tree && m.tree[t] == s.tree[t] && s.tree[t].level <= 3
    ensures Lo(m, t, k) == Lo(s, t, k) && Hi(m, t, k) == Lo(s, t, k + 1)
    ensures Lo(s, t, 0) <= Lo(s, t, k) <= Lo(s, t, k + 1)
    ensures k < ENTRY_COUNT ==> Lo(s, t, k + 1) <= Lo(s, t, ENTRY_COUNT)
    ensures k < ENTRY_COUNT / 2 ==> Lo(s, t, k + 1) <= Lo(s, t, ENTRY_COUNT / 2)
  {}

  /** What one more slot does to the sweep so far. */
  lemma OutcomeAfter(a: ReclaimStats, b: ReclaimStats, r: Result<ReclaimStats, ReclaimError>, s: Space, m: Space,
                     s': Space, t: nat, k: nat, end: nat)
    requires t in s.tree && t in m.tree && m.tree[t] == s.tree[t] && s.tree[t].level <= 3
             && IsRoot(s.tree, s.tree[t].root)
    requires k < end && (end == ENTRY_COUNT || end == ENTRY_COUNT / 2) && Lo(s, t, end) <= USER_PAGES
    requires Swept(s, m, s.tree[t].root, s.tree[t].level, Lo(s, t, 0), Lo(s, t, k))
    requires Outcome(r, m, s', s.tree[t].root, s.tree[t].level, Lo(m, t, k), Hi(m, t, k))
    requires Tally(a, b, s, m, s.tree[t].root, Lo(s, t, 0), Lo(s, t, k))
    requires r.Ok? ==> Tally(b, r.value, m, s', s.tree[t].root, Lo(m, t, k), Hi(m, t, k))
    ensures r.Ok? ==> Swept(s, s', s.tree[t].root, s.tree[t].level, Lo(s, t, 0), Lo(s, t, k + 1))
    ensures r.Ok? ==> Tally(a, r.value, s, s', s.tree[t].root, Lo(s, t, 0), Lo(s, t, k + 1))
    ensures r.Err? ==> Outcome(r, s, s', s.tree[t].root, s.tree[t].level, Lo(s, t, 0), Lo(s, t, end))
  {
    hide Lo, Hi, Swept, Stopped, Tally, SomeHuge;
    var root, level := s.tree[t].root, s.tree[t].level;
    SlotBounds(s, m, t, k);
    if r.Ok? {
      SweptTrans(s, m, s', root, level, Lo(s, t, 0), Lo(s, t, k), Lo(s, t, k + 1));
      TallyTrans(a, b, r.value, s, m, s', root, level, Lo(s, t, 0), Lo(s, t, k), Lo(s, t, k + 1));
    } else if r.error != HugeEntry {
      StoppedAfter(s, m, s', root, level, level, Lo(s, t, 0), Lo(s, t, k), Lo(s, t, k + 1), Lo(s, t, end));
    }
  }

  // ----- The whole address space -----

  /** What tearing `root` down frees: its tables, itself included, and the pages it owns and maps. */
  ghost predicate Claimed(s: Space, root: nat, f: nat) {
    f == root || Doomed(s, root, 0, 0, USER_PAGES, f)
  }

  ghost function ClaimedFrames(s: Space, root: nat): set<nat> {
    set f | f in s.ledger && Claimed(s, root, f)
  }

  ghost predicate RootDropped(tree: Tree, tree': Tree, root: nat) {
    && (forall f :: f in tree' <==> f in tree && tree[f].root != root)
    && (forall f :: f in tree' ==> tree'[f] == tree[f])
  }

  /** The root is gone with exactly what it claimed; every other root is as it was, entry by entry. */
  ghost predicate TornDown(s: Space, s': Space, root: nat) {
    && RootDropped(s.tree, s'.tree, root)
    && s'.ledger == s.ledger - ClaimedFrames(s, root)
    && (forall f, j: nat {:trigger EntryAt(s'.mem, f, j)} :: f in s'.tree ==>
          EntryAt(s'.mem, f, j) == EntryAt(s.mem, f, j))
    && (forall r, v: nat {:trigger Translate(s'.mem, r, v)} :: IsRoot(s.tree, r) && r != root && v < USER_PAGES ==>
          Translate(s'.mem, r, v) == Translate(s.mem, r, v))
    && SameOutside(s.mem, s'.mem, s.tree)
  }

  /** The recycle stack filled up first: only claimed frames were freed, one at least was not, and no other
      root's translations changed. */
  ghost predicate HalfTornDown(s: Space, s': Space, root: nat) {
    && s'.recycled == FREE_STACK_CAPACITY
    && (forall f :: f in s'.ledger ==> f in s.ledger && s'.ledger[f] == s.ledger[f])
    && (forall f :: f in s.ledger && f !in s'.ledger ==> Claimed(s, root, f))
    && (exists f :: f in s'.ledger && Claimed(s, root, f))
    && (forall r, v: nat {:trigger Translate(s'.mem, r, v)} :: IsRoot(s.tree, r) && r != root && v < USER_PAGES ==>
          Translate(s'.mem, r, v) == Translate(s.mem, r, v))
  }

  ghost function TablesOf(tree: Tree, root: nat): set<nat> {
    set f: nat | f in tree && tree[f].root == root
  }

  /** The counters: tables, frames freed in all, and pages that were mapped. */
  ghost predicate Reported(stats: ReclaimStats, s: Space, root: nat) {
    && stats.pageTableFrames == |TablesOf(s.tree, root)|
    && stats.pageTableFrames + stats.userLeafFrames == |ClaimedFrames(s, root)|
    && stats.userLeafFrames + stats.deviceMappings == |MappedPages(s.mem, root, 0, USER_PAGES)|
  }

  /** Stopping after the link to a table was cleared: the table is in no tree, and still not free. */
  lemma StoppedCut(s: Space, m: Space, s': Space, root: nat, level: nat, lo: nat, hi: nat, lower: nat)
    requires Stopped(s, m, root, level, lo, hi) && SameTranslations(m.mem, s'.mem, m.tree)
    requires Swept(s, m, root, lower, lo, hi) && s'.ledger == m.ledger && s'.recycled == m.recycled
    ensures Stopped(s, s', root, level, lo, hi)
  {
    hide Doomed, Unmapped, OthersSame, SameOutside;
    forall r, v: nat | IsRoot(s.tree, r) && r != root && v < USER_PAGES
      ensures Translate(s'.mem, r, v) == Translate(s.mem, r, v)
    {
      SweptRoots(s, m, root, lower, lo, hi, r);
      assert Translate(m.mem, r, v) == Translate(s.mem, r, v);
    }
  }

  /** Sweeps one slot of the root table; here the link is cleared before the table is freed. */
  method ReclaimRootSlot(m: Machine, root: nat, index: nat, stats: ReclaimStats)
    returns (r: Result<ReclaimStats, ReclaimError>)
    requires m.Valid() && IsRoot(m.tree, root) && index < Slots(0) && EntryAt(m.mem, root, index).present
    requires Hi(m.Now(), root, index) <= USER_PAGES
    modifies m, m.alloc, m.alloc.freeStack, m.alloc.records
    ensures m.Valid() && (r.Ok? ==> OnlySlot(old(m.Now()), m.Now(), root, index))
    ensures Outcome(r, old(m.Now()), m.Now(), root, 0, Lo(old(m.Now()), root, index), Hi(old(m.Now()), root, index))
    ensures r.Ok? ==>
              Tally(stats, r.value, old(m.Now()), m.Now(), root,
                    Lo(old(m.Now()), root, index), Hi(old(m.Now()), root, index))
    ensures r.Ok? ==> IsRoot(m.tree, root) && !EntryAt(m.mem, root, index).present
  {
    hide NodeOk, TreeOk, FrameAllocator.Valid, Lo, Hi, Swept, Stopped, Tally, SomeHuge, SameTranslations, EmptyTable,
         OnlySlot, OnlyTable;
    ghost var s := m.Now();
    TableFacts(m.mem, m.tree, m.alloc.view.ledger, root);
    ChildOf(s, root, index);
    var child := m.mem[root].entries[index].address;
    ChildRange(s, root, index, child);
    r := ReclaimPageTable(m, root, child, 1, stats);
    if r.Ok? {
      ChildKept(s, m.Now(), root, index, child);
      ghost var swept := m.Now();
      var freed := m.UnlinkAndFree(root, child, root, index);
      if freed.Ok? {
        ChildGone(s, swept, m.Now(), root, index, child);
        CutOnlySlot(s, swept, m.Now(), root, index, child);
        TallyChild(stats, r.value, s, swept, m.Now(), root, Lo(s, root, index), Hi(s, root, index), child);
        r := Ok(r.value.(pageTableFrames := r.value.pageTableFrames + 1));
      } else {
        StoppedAtChild(s, swept, root, index, child);
        StoppedCut(s, swept, m.Now(), root, 0, Lo(s, root, index), Hi(s, root, index), 1);
        r := Err(freed.error);
      }
    } else if r.error != HugeEntry {
      StoppedBelow(s, m.Now(), root, index, child);
    }
  }

  lemma RootRange(s: Space, root: nat)
    requires IsRoot(s.tree, root)
    ensures Lo(s, root, 0) == 0 && Lo(s, root, ENTRY_COUNT / 2) == USER_PAGES
  {}

  /** Empties the user half of the root table. */
  method ReclaimUserHalf(m: Machine, root: nat) returns (r: Result<ReclaimStats, ReclaimError>)
    requires m.Valid() && IsRoot(m.tree, root)
    modifies m, m.alloc, m.alloc.freeStack, m.alloc.records
    ensures m.Valid() && Outcome(r, old(m.Now()), m.Now(), root, 0, 0, USER_PAGES)
    ensures r.Ok? ==> Tally(EMPTY_STATS, r.value, old(m.Now()), m.Now(), root, 0, USER_PAGES)
    ensures r.Ok? ==> IsRoot(m.tree, root) && EmptyRoot(m.mem, root)
  {
    hide NodeOk, TreeOk, FrameAllocator.Valid, Lo, Hi, Swept, Stopped, Tally, SomeHuge;
    ghost var s := m.Now();
    RootRange(s, root);
    var index := 0;
    r := Ok(EMPTY_STATS);
    NothingYet(EMPTY_STATS, s, root, 0, 0);
    while index < ENTRY_COUNT / 2 && r.Ok?
      invariant index <= ENTRY_COUNT / 2 && m.Valid()
      invariant r.Ok? ==> Swept(s, m.Now(), root, 0, Lo(s, root, 0), Lo(s, root, index)) && IsRoot(m.tree, root)
      invariant r.Ok? ==> Tally(EMPTY_STATS, r.value, s, m.Now(), root, Lo(s, root, 0), Lo(s, root, index))
      invariant r.Ok? ==> forall j :: 0 <= j < index ==> !EntryAt(m.mem, root, j).present
      invariant r.Err? ==> Outcome(r, s, m.Now(), root, 0, 0, USER_PAGES)
    {
      ghost var before, sofar := m.Now(), r.value;
      TableFacts(m.mem, m.tree, m.alloc.view.ledger, root);
      SlotBounds(s, before, root, index);
      var entry := m.mem[root].entries[index];
      if !entry.present {
        NothingThere(before, root, index);
        TallyNothing(sofar, before, root, 0, Lo(before, root, index), Hi(before, root, index));
      } else if entry.huge {
        HugeHere(before, root, index);
        r := Err(HugeEntry);
      } else {
        r := ReclaimRootSlot(m, root, index, r.value);
      }
      OutcomeAfter(EMPTY_STATS, sofar, r, s, before, m.Now(), root, index, ENTRY_COUNT / 2);
      index := index + 1;
    }
  }

  // ----- Counting -----

  /** A sweep that finished found room for everything it claimed; one that stopped did not. */
  lemma RoomDecides(s: Space, m: Space, root: nat)
    requires IsRoot(s.tree, root) && root in s.ledger && m.recycled <= FREE_STACK_CAPACITY && root in m.ledger
    requires Swept(s, m, root, 0, 0, USER_PAGES) || Stopped(s, m, root, 0, 0, USER_PAGES)
    ensures Swept(s, m, root, 0, 0, USER_PAGES) && m.recycled < FREE_STACK_CAPACITY ==>
              s.recycled + |ClaimedFrames(s, root)| == m.recycled + 1
    ensures Stopped(s, m, root, 0, 0, USER_PAGES) || m.recycled == FREE_STACK_CAPACITY ==>
              s.recycled + |ClaimedFrames(s, root)| > FREE_STACK_CAPACITY
  {
    hide Unmapped, OthersSame, SameOutside, LeafIn;
    var gone := s.ledger.Keys - m.ledger.Keys;
    var claimed := ClaimedFrames(s, root);
    assert s.ledger.Keys == gone + m.ledger.Keys;
    assert |s.ledger.Keys| == |gone| + |m.ledger.Keys|;
    assert gone <= claimed && root !in gone && root in claimed;
    if Swept(s, m, root, 0, 0, USER_PAGES) {
      assert claimed == gone + {root};
    } else {
      var f :| f in m.ledger && Doomed(s, root, 0, 0, USER_PAGES, f);
      assert f in claimed && f !in gone;
    }
    ProperSubset(gone, claimed, root);
  }

  lemma ProperSubset(a: set<nat>, b: set<nat>, x: nat)
    requires a <= b && x in b && x !in a
    ensures |a| < |b|
  {
    assert |b| == |a| + |b - a| by { assert b == a + (b - a); }
  }

  lemma RootRemains(r: Result<ReclaimStats, ReclaimError>, s: Space, m: Space, root: nat)
    requires IsRoot(s.tree, root) && root in s.ledger && s.ledger[root] == PageTable(root)
    requires Outcome(r, s, m, root, 0, 0, USER_PAGES) && TreeOk(m.mem, m.tree, m.ledger)
    ensures r.Ok? || r == Err(FreeFailed(FreeStackFull))
    ensures root in m.ledger && m.ledger[root] == PageTable(root)
    ensures m.recycled + |m.ledger| == s.recycled + |s.ledger|
  {
    hide LeafIn, Unmapped, OthersSame, SameOutside, NodeOk, SomeHuge, TreeOk;
    NoneHuge(m);
  }

  lemma AllTorn(s: Space, m: Space, s': Space, root: nat)
    requires IsRoot(s.tree, root) && TreeOk(m.mem, m.tree, m.ledger) && EmptyRoot(m.mem, root)
    requires Swept(s, m, root, 0, 0, USER_PAGES)
    requires s'.mem == m.mem && s'.tree == m.tree - {root} && s'.ledger == m.ledger - {root}
    ensures TornDown(s, s', root) && RootDropped(s.tree, s'.tree, root)
  {
    hide NodeOk, Freed, Unmapped, OthersSame, TreeOk, EmptyRoot, ClaimedFrames, RootDropped;
    OnlyRootLeft(m, root);
    DroppedTree(s, m, root);
    DroppedLedger(s, m, root);
    DroppedEntries(s, m, s', root);
    OthersTranslate(s, m, root, 0, 0, USER_PAGES);
  }

  lemma DroppedTree(s: Space, m: Space, root: nat)
    requires Freed(s, m, root, 0, 0, USER_PAGES) && forall f :: f in m.tree && m.tree[f].root == root ==> f == root
    requires IsRoot(s.tree, root)
    ensures RootDropped(s.tree, m.tree - {root}, root)
  {
    hide Doomed;
  }

  lemma DroppedLedger(s: Space, m: Space, root: nat)
    requires Freed(s, m, root, 0, 0, USER_PAGES)
    ensures m.ledger - {root} == s.ledger - ClaimedFrames(s, root)
  {
    hide Doomed, TableIn;
  }

  lemma DroppedEntries(s: Space, m: Space, s': Space, root: nat)
    requires OthersSame(s, m, root) && RootDropped(s.tree, s'.tree, root) && s'.mem == m.mem
             && s'.tree == m.tree - {root}
    ensures forall f, j: nat {:trigger EntryAt(s'.mem, f, j)} :: f in s'.tree ==>
          EntryAt(s'.mem, f, j) == EntryAt(s.mem, f, j)
  {}

  lemma OnlyRootLeft(m: Space, root: nat)
    requires TreeOk(m.mem, m.tree, m.ledger) && EmptyRoot(m.mem, root)
    ensures forall f :: f in m.tree && m.tree[f].root == root ==> f == root
  {
    hide NodeOk, TreeOk, EmptyRoot;
    forall f | f in m.tree && m.tree[f].root == root
      ensures f == root
    {
      EmptyRootAlone(m.mem, m.tree, m.ledger, root, f);
    }
  }

  lemma OthersTranslate(s: Space, m: Space, root: nat, level: nat, lo: nat, hi: nat)
    requires Swept(s, m, root, level, lo, hi)
    ensures forall r, v: nat {:trigger Translate(m.mem, r, v)} :: IsRoot(s.tree, r) && r != root && v < USER_PAGES ==>
          Translate(m.mem, r, v) == Translate(s.mem, r, v)
  {}

  lemma AllReported(a: ReclaimStats, b: ReclaimStats, s: Space, m: Space, s': Space, root: nat)
    requires Tally(EMPTY_STATS, a, s, m, root, 0, USER_PAGES) && b == a.(pageTableFrames := a.pageTableFrames + 1)
    requires root in m.tree && s'.tree == m.tree - {root}
    requires |s.tree| == |s'.tree| + |TablesOf(s.tree, root)|
    requires s.recycled + |ClaimedFrames(s, root)| == m.recycled + 1
    ensures Reported(b, s, root)
  {
    hide MappedPages, ClaimedFrames, TablesOf;
    assert m.tree.Keys == s'.tree.Keys + {root};
  }

  lemma TreeCount(tree: Tree, rest: Tree, root: nat)
    requires RootDropped(tree, rest, root)
    ensures |tree| == |rest| + |TablesOf(tree, root)|
  {
    assert tree.Keys == rest.Keys + TablesOf(tree, root);
    assert rest.Keys !! TablesOf(tree, root);
    assert |tree.Keys| == |rest.Keys| + |TablesOf(tree, root)|;
  }

  lemma StoppedAtRoot(s: Space, m: Space, root: nat)
    requires Swept(s, m, root, 0, 0, USER_PAGES) && root in m.ledger && m.recycled == FREE_STACK_CAPACITY
    ensures HalfTornDown(s, m, root)
  {
    hide LeafIn, Unmapped, OthersSame, SameOutside;
    OthersTranslate(s, m, root, 0, 0, USER_PAGES);
    assert Claimed(s, root, root);
  }

  lemma StoppedHalfway(s: Space, m: Space, root: nat)
    requires Stopped(s, m, root, 0, 0, USER_PAGES)
    ensures HalfTornDown(s, m, root)
  {
    hide Doomed;
    var f :| f in m.ledger && Doomed(s, root, 0, 0, USER_PAGES, f);
    assert Claimed(s, root, f);
  }

  // ----- What is claimed, in terms of ownership -----

  /** Every table covers user pages only. */
  lemma {:induction false} TreeInUserHalf(s: Space, f: nat)
    requires TreeOk(s.mem, s.tree, s.ledger) && f in s.tree
    ensures Lo(s, f, Slots(s.tree[f].level)) <= USER_PAGES && Start(s.tree[f]) < USER_PAGES
    decreases s.tree[f].level
  {
    assert NodeOk(s.mem, s.tree, f);
    if s.tree[f].level > 0 {
      var t, k := s.tree[f].parent, LinkSlot(s.tree, f);
      TreeInUserHalf(s, t);
      ChildRange(s, t, k, f);
      SlotBounds(s, s, t, k);
    }
  }

  /** A live frame is claimed if it is a table of the root's tree, or a page of the root's that the root maps,
      and then only: no device frame and no frame of another process is. */
  lemma ClaimedExactly(s: Space, root: nat, f: nat)
    requires TreeOk(s.mem, s.tree, s.ledger) && IsRoot(s.tree, root) && f in s.ledger
    ensures Claimed(s, root, f)
       <==> || (s.ledger[f] == PageTable(root) && f in s.tree)
            || (s.ledger[f] == ProcessMemory(root) && LeafIn(s.mem, root, 0, USER_PAGES, f))
  {
    hide LeafIn, Start;
    if f in s.tree {
      TreeInUserHalf(s, f);
      assert NodeOk(s.mem, s.tree, f);
    }
  }

  ghost predicate OwnedBy(s: Space, root: nat, f: nat) {
    f in s.ledger && (s.ledger[f] == PageTable(root) || s.ledger[f] == ProcessMemory(root))
  }

  /** Every table frame of the root is in its tree, and every page frame of the root is mapped in it. */
  ghost predicate AllReachable(s: Space, root: nat) {
    forall f :: OwnedBy(s, root, f) ==>
                  if s.ledger[f] == PageTable(root) then f in s.tree else LeafIn(s.mem, root, 0, USER_PAGES, f)
  }

  /** A finished teardown leaves no frame of the root in the ledger exactly when all of them were reachable
      beforehand. */
  lemma NothingLeftBehind(s: Space, s': Space, root: nat)
    requires TreeOk(s.mem, s.tree, s.ledger) && IsRoot(s.tree, root) && TornDown(s, s', root)
    ensures (forall f :: !OwnedBy(s', root, f)) <==> AllReachable(s, root)
  {
    hide NodeOk, LeafIn, Claimed, TreeOk, RootDropped, SameOutside;
    forall f
      ensures OwnedBy(s', root, f) <==>
              OwnedBy(s, root, f)
              && !(if s.ledger[f] == PageTable(root) then f in s.tree else LeafIn(s.mem, root, 0, USER_PAGES, f))
    {
      if f in s.ledger { ClaimedExactly(s, root, f); }
    }
    hide TornDown;
  }

  /** Tears an address space down. It succeeds exactly when everything it claims fits on the recycle stack; it
      then frees exactly that, and disturbs no other address space. What is left of the root is what was out of
      its reach beforehand. */
  method ReclaimUserAddressSpace(m: Machine, root: nat) returns (r: Result<ReclaimStats, ReclaimError>)
    requires m.Valid() && IsRoot(m.tree, root)
    modifies m, m.alloc, m.alloc.freeStack, m.alloc.records
    ensures m.Valid()
    ensures r.Ok? <==> old(m.Now()).recycled + |ClaimedFrames(old(m.Now()), root)| <= FREE_STACK_CAPACITY
    ensures r.Err? ==> r.error == FreeFailed(FreeStackFull)
    ensures r.Ok? ==> TornDown(old(m.Now()), m.Now(), root)
    ensures r.Ok? ==> Reported(r.value, old(m.Now()), root)
    ensures r.Ok? ==> ((forall f :: !OwnedBy(m.Now(), root, f)) <==> AllReachable(old(m.Now()), root))
    ensures r.Err? ==> HalfTornDown(old(m.Now()), m.Now(), root)
    ensures m.Now().recycled + |m.Now().ledger| == old(m.Now()).recycled + |old(m.Now()).ledger|
  {
    hide NodeOk, TreeOk, FrameAllocator.Valid, Swept, Stopped, Tally, SomeHuge, ClaimedFrames, TornDown, HalfTornDown,
         Reported, RootDropped, TablesOf, OwnedBy, AllReachable;
    ghost var s := m.Now();
    TableFacts(m.mem, m.tree, m.alloc.view.ledger, root);
    r := ReclaimUserHalf(m, root);
    ghost var half := m.Now();
    RootRemains(r, s, half, root);
    StackFits(m.alloc);
    if r.Ok? {
      DropRootStep(m.mem, m.tree, m.alloc.view.ledger, root);
      RoomDecides(s, half, root);
      var freed := m.FreePageTableFrame(root, root);
      if freed.Ok? {
        OneFewer(half.ledger, root);
        m.tree := m.tree - {root};
        AllTorn(s, half, m.Now(), root);
        NothingLeftBehind(s, m.Now(), root);
        TreeCount(s.tree, m.tree, root);
        ghost var counted := r.value;
        r := Ok(r.value.(pageTableFrames := r.value.pageTableFrames + 1));
        AllReported(counted, r.value, s, half, m.Now(), root);
      } else {
        StoppedAtRoot(s, half, root);
        r := Err(freed.error);
      }
    } else {
      RoomDecides(s, half, root);
      StoppedHalfway(s, half, root);
    }
  }

  lemma StackFits(alloc: FrameAllocator)
    requires alloc.Valid()
    ensures |alloc.view.stack| <= FREE_STACK_CAPACITY
  {}
}
