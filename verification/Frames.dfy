/** The owned-frame allocator of the kernel: bump ranges, a recycle stack and a ledger that records the owner of
    every frame handed out. */
module Frames {
  import opened Results

  const FRAME_SIZE: nat := 4096
  const MAX_RANGES: nat := 64
  const FREE_STACK_CAPACITY: nat := 8192
  const MAX_FRAME_RECORDS: nat := 16384
  const U64_MAX: nat := 0xffff_ffff_ffff_ffff

  datatype Owner =
    | Kernel(id: nat)
    | PageTable(root: nat)
    | ProcessMemory(root: nat)
    | Dma(id: nat)
    | Scratch

  datatype FreeError = UnalignedFrame | OutsideUsableRanges | FreeStackFull | UnallocatedFrame | WrongOwner

  datatype InitError = TooManyRanges | NoUsableFrames

  /** A usable range: the frames in `[start, next)` have been handed out at least once. */
  datatype Range = Range(start: nat, next: nat, end: nat)

  datatype Record = Record(frame: nat, owner: Owner)

  /** One entry of the boot loader's memory map. */
  datatype MapEntry = MapEntry(base: nat, length: nat, usable: bool)

  function Saturate(x: nat): nat {
    if x < U64_MAX then x else U64_MAX
  }

  function AlignDown(x: nat): nat {
    x - x % FRAME_SIZE
  }

  function AlignUp(x: nat): nat {
    AlignDown(Saturate(x + FRAME_SIZE - 1))
  }

  predicate Aligned(x: nat) {
    x % FRAME_SIZE == 0
  }

  // ----- The allocator's state as a value, and its invariant -----

  /** The ranges, the ledger entries in table order, the recycle stack (top last), and the ledger as a map from
      frame to owner. */
  datatype View = View(spans: seq<Range>, entries: seq<Record>, stack: seq<nat>, ledger: map<nat, Owner>)

  ghost predicate RangeOk(r: Range) {
    && Aligned(r.start) && Aligned(r.next) && Aligned(r.end)
    && r.start <= r.next <= r.end
    && r.start < r.end <= U64_MAX
  }

  ghost predicate Disjoint(a: Range, b: Range) {
    a.end <= b.start || b.end <= a.start
  }

  ghost predicate RangesOk(rs: seq<Range>) {
    && (forall i :: 0 <= i < |rs| ==> RangeOk(rs[i]))
    && (forall i, j :: 0 <= i < j < |rs| ==> Disjoint(rs[i], rs[j]))
  }

  /** `f` is a frame of some usable range. */
  ghost predicate InRanges(rs: seq<Range>, f: nat) {
    Aligned(f) && exists i :: 0 <= i < |rs| && rs[i].start <= f < rs[i].end
  }

  /** `f` lies below the bump address of its range: it has been handed out before. */
  ghost predicate Bumped(rs: seq<Range>, f: nat) {
    Aligned(f) && exists i :: 0 <= i < |rs| && rs[i].start <= f < rs[i].next
  }

  ghost function FrameCount(rs: seq<Range>): int {
    if rs == [] then 0
    else FrameCount(rs[..|rs| - 1]) + (rs[|rs| - 1].end - rs[|rs| - 1].start) / FRAME_SIZE
  }

  /** The frames no bump address has reached yet. */
  ghost function Unbumped(rs: seq<Range>): int {
    if rs == [] then 0
    else Unbumped(rs[..|rs| - 1]) + (rs[|rs| - 1].end - rs[|rs| - 1].next) / FRAME_SIZE
  }

  ghost predicate Distinct<T>(s: seq<T>) {
    forall i, j :: 0 <= i < j < |s| ==> s[i] != s[j]
  }

  ghost predicate LedgerOf(entries: seq<Record>, ledger: map<nat, Owner>) {
    && (forall i, j :: 0 <= i < j < |entries| ==> entries[i].frame != entries[j].frame)
    && (forall i :: 0 <= i < |entries| ==> entries[i].frame in ledger && ledger[entries[i].frame] == entries[i].owner)
    && (forall f :: f in ledger ==> HasEntry(entries, f))
    && |ledger| == |entries|
  }

  ghost predicate HasEntry(entries: seq<Record>, f: nat) {
    exists i :: 0 <= i < |entries| && entries[i].frame == f
  }

  /** What every operation keeps: live frames are distinct and disjoint from the recycle stack, together the two
      are exactly the frames below the bump addresses, and no frame is lost. */
  ghost predicate Sound(v: View) {
    && RangesOk(v.spans)
    && Distinct(v.stack)
    && LedgerOf(v.entries, v.ledger)
    && (forall f :: f in v.stack ==> f !in v.ledger)
    && (forall f :: Bumped(v.spans, f) <==> f in v.ledger || f in v.stack)
    && |v.entries| + |v.stack| + Unbumped(v.spans) == FrameCount(v.spans)
  }

  // ----- The operations as steps on views -----

  datatype Op =
    | TakeTop(owner: Owner)
    | Grant(range: nat, count: nat, owner: Owner)
    | SetEntry(index: nat, owner: Owner)
    | Release(index: nat)

  ghost predicate Enabled(v: View, op: Op) {
    match op
    case TakeTop(_) => v.stack != []
    case Grant(k, n, _) => k < |v.spans| && v.spans[k].next + n * FRAME_SIZE <= v.spans[k].end
    case SetEntry(i, _) => i < |v.entries|
    case Release(i) => i < |v.entries|
  }

  ghost function Block(start: nat, n: nat, owner: Owner): seq<Record> {
    if n == 0 then [] else Block(start, n - 1, owner) + [Record(start + (n - 1) * FRAME_SIZE, owner)]
  }

  /** The ledger after `n` consecutive frames from `start` were entered for `owner`. */
  ghost function Granted(ledger: map<nat, Owner>, start: nat, n: nat, owner: Owner): map<nat, Owner> {
    if n == 0 then ledger
    else Granted(ledger, start, n - 1, owner)[start + (n - 1) * FRAME_SIZE := owner]
  }

  ghost function BumpBy(rs: seq<Range>, k: nat, n: nat): seq<Range>
    requires k < |rs|
  {
    rs[k := rs[k].(next := rs[k].next + n * FRAME_SIZE)]
  }

  /** Swap-remove, as the ledger table does it. */
  ghost function SwapRemove(entries: seq<Record>, i: nat): seq<Record>
    requires i < |entries|
  {
    entries[i := entries[|entries| - 1]][..|entries| - 1]
  }

  ghost function Apply(v: View, op: Op): View
    requires Enabled(v, op)
  {
    match op
    case TakeTop(owner) =>
      var top := v.stack[|v.stack| - 1];
      View(v.spans, v.entries + [Record(top, owner)], v.stack[..|v.stack| - 1], v.ledger[top := owner])
    case Grant(k, n, owner) =>
      View(BumpBy(v.spans, k, n), v.entries + Block(v.spans[k].next, n, owner), v.stack,
           Granted(v.ledger, v.spans[k].next, n, owner))
    case SetEntry(i, owner) =>
      var f := v.entries[i].frame;
      View(v.spans, v.entries[i := Record(f, owner)], v.stack, v.ledger[f := owner])
    case Release(i) =>
      var f := v.entries[i].frame;
      View(v.spans, SwapRemove(v.entries, i), v.stack + [f], v.ledger - {f})
  }

  // ----- Arithmetic of frames -----

  lemma FramesIn(gap: nat, n: nat)
    requires n * FRAME_SIZE <= gap
    ensures (gap - n * FRAME_SIZE) / FRAME_SIZE + n == gap / FRAME_SIZE
  {}

  lemma BlockAligned(x: nat, n: nat)
    requires Aligned(x)
    ensures Aligned(x + n * FRAME_SIZE)
  {}

  /** For aligned frames, starting inside a range means lying inside it. */
  lemma FrameInRange(f: nat, r: Range)
    requires Aligned(f) && RangeOk(r)
    ensures f < r.end <==> f + FRAME_SIZE <= r.end
  {
    assert f == f / FRAME_SIZE * FRAME_SIZE && r.end == r.end / FRAME_SIZE * FRAME_SIZE;
  }

  // ----- Bumping a range -----

  lemma BumpKeepsRanges(rs: seq<Range>, k: nat, n: nat)
    requires k < |rs| && RangesOk(rs) && rs[k].next + n * FRAME_SIZE <= rs[k].end
    ensures RangesOk(BumpBy(rs, k, n))
  {
    BlockAligned(rs[k].next, n);
  }

  lemma {:induction false} BumpCounts(rs: seq<Range>, k: nat, n: nat)
    requires k < |rs| && rs[k].next + n * FRAME_SIZE <= rs[k].end
    ensures Unbumped(BumpBy(rs, k, n)) + n == Unbumped(rs) && FrameCount(BumpBy(rs, k, n)) == FrameCount(rs)
  {
    var rs' := BumpBy(rs, k, n);
    var last := |rs| - 1;
    if k == last {
      assert rs'[..last] == rs[..last];
      FramesIn(rs[k].end - rs[k].next, n);
    } else {
      BumpCounts(rs[..last], k, n);
      assert rs'[..last] == BumpBy(rs[..last], k, n);
    }
  }

  /** The frames of a block of `n` consecutive frames. */
  ghost predicate InBlock(f: nat, start: nat, n: nat) {
    Aligned(f) && start <= f < start + n * FRAME_SIZE
  }

  lemma BumpedAfter(rs: seq<Range>, k: nat, n: nat, f: nat)
    requires k < |rs| && RangesOk(rs) && rs[k].next + n * FRAME_SIZE <= rs[k].end
    ensures Bumped(BumpBy(rs, k, n), f) <==> Bumped(rs, f) || InBlock(f, rs[k].next, n)
  {
    var rs' := BumpBy(rs, k, n);
    if Bumped(rs, f) {
      var i :| 0 <= i < |rs| && rs[i].start <= f < rs[i].next;
      assert rs'[i].start <= f < rs'[i].next;
    }
    if InBlock(f, rs[k].next, n) {
      assert rs'[k].start <= f < rs'[k].next;
    }
    if Bumped(rs', f) {
      var i :| 0 <= i < |rs'| && rs'[i].start <= f < rs'[i].next;
      if i != k { assert rs[i].start <= f < rs[i].next; }
      else if f < rs[k].next { assert rs[k].start <= f < rs[k].next; }
    }
  }

  /** A frame at or above a bump address has not been handed out: ranges do not overlap. */
  lemma NotBumped(rs: seq<Range>, k: nat, f: nat)
    requires k < |rs| && RangesOk(rs) && rs[k].next <= f < rs[k].end
    ensures !Bumped(rs, f)
  {
    forall i | 0 <= i < |rs|
      ensures !(rs[i].start <= f < rs[i].next)
    {
      if i < k {
        assert Disjoint(rs[i], rs[k]);
      } else if k < i {
        assert Disjoint(rs[k], rs[i]);
      }
    }
  }

  // ----- Ledger entries -----

  /** A grant adds exactly the frames of its block and leaves every other owner alone. */
  lemma {:induction false} GrantedAt(ledger: map<nat, Owner>, start: nat, n: nat, owner: Owner, f: nat)
    requires Aligned(start)
    ensures var l := Granted(ledger, start, n, owner);
            && (f in l <==> f in ledger || InBlock(f, start, n))
            && (f in l ==> l[f] == if InBlock(f, start, n) then owner else ledger[f])
  {
    if n > 0 {
      GrantedAt(ledger, start, n - 1, owner, f);
      BlockAligned(start, n - 1);
    }
  }

  lemma AddKeepsLedger(entries: seq<Record>, ledger: map<nat, Owner>, f: nat, owner: Owner)
    requires LedgerOf(entries, ledger) && f !in ledger
    ensures LedgerOf(entries + [Record(f, owner)], ledger[f := owner])
  {
    hide HasEntry;
    var entries' := entries + [Record(f, owner)];
    assert ledger[f := owner].Keys == ledger.Keys + {f};
    forall g | g in ledger[f := owner]
      ensures HasEntry(entries', g)
    {
      AddKeepsKeys(entries, Record(f, owner), g);
    }
    forall i, j | 0 <= i < j < |entries'|
      ensures entries'[i].frame != entries'[j].frame
    {}
  }

  lemma AddKeepsKeys(entries: seq<Record>, new_: Record, g: nat)
    requires HasEntry(entries, g) || g == new_.frame
    ensures HasEntry(entries + [new_], g)
  {
    if g == new_.frame {
      assert (entries + [new_])[|entries|].frame == g;
    } else {
      var i :| 0 <= i < |entries| && entries[i].frame == g;
      assert (entries + [new_])[i].frame == g;
    }
  }

  lemma {:induction false} BlockKeepsLedger(entries: seq<Record>, ledger: map<nat, Owner>, start: nat, n: nat,
                                            owner: Owner)
    requires LedgerOf(entries, ledger) && Aligned(start)
    requires forall f :: InBlock(f, start, n) ==> f !in ledger
    ensures LedgerOf(entries + Block(start, n, owner), Granted(ledger, start, n, owner))
    ensures |Block(start, n, owner)| == n
  {
    hide LedgerOf;
    if n == 0 {
      assert entries + [] == entries;
    } else {
      BlockKeepsLedger(entries, ledger, start, n - 1, owner);
      var f := start + (n - 1) * FRAME_SIZE;
      BlockAligned(start, n - 1);
      assert InBlock(f, start, n);
      GrantedAt(ledger, start, n - 1, owner, f);
      AddKeepsLedger(entries + Block(start, n - 1, owner), Granted(ledger, start, n - 1, owner), f, owner);
      assert entries + Block(start, n, owner) == entries + Block(start, n - 1, owner) + [Record(f, owner)];
    }
  }

  lemma RemoveKeepsKeys(entries: seq<Record>, k: nat, g: nat)
    requires k < |entries| && HasEntry(entries, g) && g != entries[k].frame
    ensures HasEntry(SwapRemove(entries, k), g)
  {
    var entries' := SwapRemove(entries, k);
    var i :| 0 <= i < |entries| && entries[i].frame == g;
    if i == |entries'| { assert entries'[k].frame == g; } else { assert entries'[i].frame == g; }
  }

  /** Swap-remove of entry `k` takes exactly its frame out of the ledger. */
  lemma RemoveKeepsLedger(entries: seq<Record>, ledger: map<nat, Owner>, k: nat)
    requires LedgerOf(entries, ledger) && k < |entries|
    ensures LedgerOf(SwapRemove(entries, k), ledger - {entries[k].frame})
  {
    hide HasEntry;
    OneFewer(ledger, entries[k].frame);
    forall g | g in ledger - {entries[k].frame}
      ensures HasEntry(SwapRemove(entries, k), g)
    {
      RemoveKeepsKeys(entries, k, g);
    }
  }

  lemma OneFewer(ledger: map<nat, Owner>, f: nat)
    requires f in ledger
    ensures |ledger - {f}| + 1 == |ledger|
  {
    assert ledger.Keys == (ledger - {f}).Keys + {f};
  }

  lemma SetKeepsLedger(entries: seq<Record>, ledger: map<nat, Owner>, k: nat, owner: Owner)
    requires LedgerOf(entries, ledger) && k < |entries|
    ensures LedgerOf(entries[k := Record(entries[k].frame, owner)], ledger[entries[k].frame := owner])
  {
    hide HasEntry;
    var f := entries[k].frame;
    assert ledger[f := owner].Keys == ledger.Keys;
    forall g | g in ledger
      ensures HasEntry(entries[k := Record(f, owner)], g)
    {
      SetKeepsKeys(entries, k, owner, g);
    }
  }

  lemma SetKeepsKeys(entries: seq<Record>, k: nat, owner: Owner, g: nat)
    requires k < |entries| && HasEntry(entries, g)
    ensures HasEntry(entries[k := Record(entries[k].frame, owner)], g)
  {
    var i :| 0 <= i < |entries| && entries[i].frame == g;
    assert entries[k := Record(entries[k].frame, owner)][i].frame == g;
  }

  // ----- Every operation keeps the invariant -----

  lemma TakeTopSound(v: View, owner: Owner)
    requires Sound(v) && v.stack != []
    ensures Sound(Apply(v, TakeTop(owner)))
  {
    var top := v.stack[|v.stack| - 1];
    assert v.stack == v.stack[..|v.stack| - 1] + [top];
    assert top in v.stack;
    AddKeepsLedger(v.entries, v.ledger, top, owner);
  }

  /** No frame of an ungranted block is live or recycled. */
  lemma BlockIsFresh(v: View, k: nat, n: nat, f: nat)
    requires Sound(v) && Enabled(v, Grant(k, n, Scratch)) && InBlock(f, v.spans[k].next, n)
    ensures f !in v.ledger && f !in v.stack
  {
    NotBumped(v.spans, k, f);
  }

  lemma GrantSound(v: View, k: nat, n: nat, owner: Owner)
    requires Sound(v) && Enabled(v, Grant(k, n, owner))
    ensures Sound(Apply(v, Grant(k, n, owner)))
  {
    var start := v.spans[k].next;
    assert RangeOk(v.spans[k]);
    forall f | InBlock(f, start, n)
      ensures f !in v.ledger && f !in v.stack
    {
      BlockIsFresh(v, k, n, f);
    }
    BumpKeepsRanges(v.spans, k, n);
    BumpCounts(v.spans, k, n);
    BlockKeepsLedger(v.entries, v.ledger, start, n, owner);
    var v' := Apply(v, Grant(k, n, owner));
    forall f
      ensures Bumped(v'.spans, f) <==> Bumped(v.spans, f) || InBlock(f, start, n)
      ensures f in v'.ledger <==> f in v.ledger || InBlock(f, start, n)
    {
      BumpedAfter(v.spans, k, n, f);
      GrantedAt(v.ledger, start, n, owner, f);
    }
  }

  lemma SetEntrySound(v: View, i: nat, owner: Owner)
    requires Sound(v) && i < |v.entries|
    ensures Sound(Apply(v, SetEntry(i, owner)))
  {
    SetKeepsLedger(v.entries, v.ledger, i, owner);
    assert v.entries[i].frame in v.ledger;
  }

  lemma ReleaseSound(v: View, i: nat)
    requires Sound(v) && i < |v.entries|
    ensures Sound(Apply(v, Release(i)))
  {
    RemoveKeepsLedger(v.entries, v.ledger, i);
    assert v.entries[i].frame in v.ledger;
  }

  lemma StepSound(v: View, op: Op)
    requires Sound(v) && Enabled(v, op)
    ensures Sound(Apply(v, op))
  {
    hide Sound, Apply;
    match op
    case TakeTop(owner) => TakeTopSound(v, owner);
    case Grant(k, n, owner) => GrantSound(v, k, n, owner);
    case SetEntry(i, owner) => SetEntrySound(v, i, owner);
    case Release(i) => ReleaseSound(v, i);
  }

  ghost predicate Runnable(v: View, ops: seq<Op>)
    decreases |ops|
  {
    ops != [] ==> Enabled(v, ops[0]) && Runnable(Apply(v, ops[0]), ops[1..])
  }

  ghost function Run(v: View, ops: seq<Op>): View
    requires Runnable(v, ops)
    decreases |ops|
  {
    if ops == [] then v else Run(Apply(v, ops[0]), ops[1..])
  }

  /** Conservation over every run: whatever is allocated, re-owned and freed, live, recycled and never-bumped
      frames add up to the frames of the ranges, and the ranges never change size. */
  lemma {:induction false} RunConserves(v: View, ops: seq<Op>)
    requires Sound(v) && Runnable(v, ops)
    ensures Sound(Run(v, ops))
    ensures FrameCount(Run(v, ops).spans) == FrameCount(v.spans)
    ensures |Run(v, ops).ledger| + |Run(v, ops).stack| + Unbumped(Run(v, ops).spans) == FrameCount(v.spans)
    decreases |ops|
  {
    if ops != [] {
      StepSound(v, ops[0]);
      if ops[0].Grant? {
        BumpCounts(v.spans, ops[0].range, ops[0].count);
      }
      RunConserves(Apply(v, ops[0]), ops[1..]);
    }
  }

  /** Facts about a sound state that the rest of the kernel relies on. */
  lemma SoundFacts(v: View, f: nat)
    requires Sound(v)
    ensures |v.ledger| == |v.entries|
    ensures f in v.ledger || f in v.stack ==> InRanges(v.spans, f)
    ensures f in v.stack ==> f !in v.ledger
  {
    if f in v.ledger || f in v.stack {
      assert Bumped(v.spans, f);
      var i :| 0 <= i < |v.spans| && v.spans[i].start <= f < v.spans[i].next;
      assert RangeOk(v.spans[i]);
      assert v.spans[i].start <= f < v.spans[i].end;
    }
  }

  lemma EntryIsLive(v: View, i: nat)
    requires Sound(v) && i < |v.entries|
    ensures v.entries[i].frame in v.ledger && v.ledger[v.entries[i].frame] == v.entries[i].owner
  {}

  lemma LiveHasEntry(v: View, f: nat)
    requires Sound(v) && f in v.ledger
    ensures exists i :: 0 <= i < |v.entries| && v.entries[i].frame == f
  {}

  lemma NextIsManaged(v: View, k: nat)
    requires Sound(v) && k < |v.spans|
    ensures RangeOk(v.spans[k])
    ensures v.spans[k].next < v.spans[k].end ==>
              v.spans[k].next + FRAME_SIZE <= v.spans[k].end && InRanges(v.spans, v.spans[k].next)
  {
    assert RangeOk(v.spans[k]);
    FrameInRange(v.spans[k].next, v.spans[k]);
  }

  /** A frame the allocator may hand out: managed, and not live. */
  ghost predicate Fresh(v: View, f: nat) {
    InRanges(v.spans, f) && f !in v.ledger
  }

  lemma TakeTopFacts(v: View, owner: Owner)
    requires Sound(v) && v.stack != []
    ensures var top := v.stack[|v.stack| - 1];
            Fresh(v, top) && Apply(v, TakeTop(owner)).ledger == v.ledger[top := owner]
  {
    assert v.stack[|v.stack| - 1] in v.stack;
    SoundFacts(v, v.stack[|v.stack| - 1]);
  }

  lemma GrantFacts(v: View, k: nat, n: nat, owner: Owner)
    requires Sound(v) && Enabled(v, Grant(k, n, owner))
    ensures Aligned(v.spans[k].next)
            && Apply(v, Grant(k, n, owner)).ledger == Granted(v.ledger, v.spans[k].next, n, owner)
    ensures |Apply(v, Grant(k, n, owner)).entries| == |v.entries| + n
    ensures FrameCount(Apply(v, Grant(k, n, owner)).spans) == FrameCount(v.spans)
    ensures forall f :: InBlock(f, v.spans[k].next, n) ==> Fresh(v, f)
  {
    assert RangeOk(v.spans[k]);
    BumpCounts(v.spans, k, n);
    assert |Block(v.spans[k].next, n, owner)| == n by { BlockLength(v.spans[k].next, n, owner); }
    forall f: nat | InBlock(f, v.spans[k].next, n)
      ensures Fresh(v, f)
    {
      BlockIsFresh(v, k, n, f);
      assert v.spans[k].start <= f < v.spans[k].end;
    }
  }

  lemma {:induction false} BlockLength(start: nat, n: nat, owner: Owner)
    ensures |Block(start, n, owner)| == n
    ensures forall i :: 0 <= i < n ==> Block(start, n, owner)[i] == Record(start + i * FRAME_SIZE, owner)
  {
    if n > 0 { BlockLength(start, n - 1, owner); }
  }

  lemma GrantOne(ledger: map<nat, Owner>, start: nat, owner: Owner)
    requires Aligned(start)
    ensures Granted(ledger, start, 1, owner) == ledger[start := owner] && InBlock(start, start, 1)
  {
    assert Granted(ledger, start, 0, owner) == ledger;
  }

  /** What freeing a frame answers: the first test that fails, in the order of the code. */
  ghost function FreeOutcome(frame: nat, expected: Option<Owner>, v: View): Result<(), FreeError> {
    if !Aligned(frame) then Err(UnalignedFrame)
    else if !InRanges(v.spans, frame) then Err(OutsideUsableRanges)
    else if frame !in v.ledger then Err(UnallocatedFrame)
    else if expected.Some? && v.ledger[frame] != expected.value then Err(WrongOwner)
    else if |v.stack| == FREE_STACK_CAPACITY then Err(FreeStackFull)
    else Ok(())
  }

  // ----- When an allocation is refused -----

  ghost predicate NoRoomFrom(rs: seq<Range>, k: nat) {
    forall i :: k <= i < |rs| ==> rs[i].next >= rs[i].end
  }

  lemma {:induction false} ExhaustedRanges(rs: seq<Range>)
    requires forall i :: 0 <= i < |rs| ==> RangeOk(rs[i])
    ensures Unbumped(rs) >= 0
    ensures Unbumped(rs) == 0 <==> NoRoomFrom(rs, 0)
  {
    if rs != [] {
      var front, last := rs[..|rs| - 1], rs[|rs| - 1];
      ExhaustedRanges(front);
      assert RangeOk(last);
      assert NoRoomFrom(rs, 0) <==> NoRoomFrom(front, 0) && last.next >= last.end by {
        if NoRoomFrom(rs, 0) {
          assert forall i :: 0 <= i < |front| ==> front[i] == rs[i];
        }
      }
    }
  }

  /** An allocator that refuses (empty stack, no room from the current range on) has really run out of frames
      exactly when no range it has moved past still has room. */
  lemma RefusalIsExhaustion(v: View, k: nat)
    requires Sound(v) && k <= |v.spans| && v.stack == [] && NoRoomFrom(v.spans, k)
    ensures |v.ledger| == FrameCount(v.spans) <==> NoRoomFrom(v.spans[..k], 0)
  {
    ExhaustedRanges(v.spans);
    assert NoRoomFrom(v.spans, 0) <==> NoRoomFrom(v.spans[..k], 0) by {
      if NoRoomFrom(v.spans[..k], 0) {
        assert forall i :: 0 <= i < k ==> v.spans[..k][i] == v.spans[i];
      }
    }
  }

  // ----- How far single allocations reach -----

  /** Single allocations can make this many frames live: as many as the ledger has records, or all that are live,
      recycled or not yet bumped in the ranges from `k` on. */
  ghost function LimitFrom(v: View, k: nat): int
    requires k <= |v.spans|
  {
    var reach := |v.ledger| + |v.stack| + Unbumped(v.spans[k..]);
    if reach < MAX_FRAME_RECORDS then reach else MAX_FRAME_RECORDS
  }

  lemma {:induction false} UnbumpedFirst(rs: seq<Range>)
    requires rs != []
    ensures Unbumped(rs) == (rs[0].end - rs[0].next) / FRAME_SIZE + Unbumped(rs[1..])
  {
    var last := |rs| - 1;
    if last > 0 {
      UnbumpedFirst(rs[..last]);
      assert rs[..last][1..] == rs[1..][..last - 1];
    }
  }

  /** Moving past an exhausted range loses nothing. */
  lemma LimitSkip(v: View, k: nat)
    requires Sound(v) && k < |v.spans| && v.spans[k].next >= v.spans[k].end
    ensures LimitFrom(v, k + 1) == LimitFrom(v, k)
  {
    assert RangeOk(v.spans[k]);
    UnbumpedFirst(v.spans[k..]);
    assert v.spans[k..][1..] == v.spans[k + 1..];
  }

  lemma LimitTakeTop(v: View, k: nat, owner: Owner)
    requires Sound(v) && k <= |v.spans| && v.stack != []
    ensures LimitFrom(Apply(v, TakeTop(owner)), k) == LimitFrom(v, k)
  {
    hide Sound, Unbumped;
    TakeTopSound(v, owner);
    LiveRecords(v);
    LiveRecords(Apply(v, TakeTop(owner)));
  }

  lemma LimitGrantOne(v: View, k: nat, owner: Owner)
    requires Sound(v) && Enabled(v, Grant(k, 1, owner))
    ensures LimitFrom(Apply(v, Grant(k, 1, owner)), k) == LimitFrom(v, k)
  {
    hide Sound, Unbumped, Granted, Block, Fresh, FrameCount, InBlock;
    GrantFacts(v, k, 1, owner);
    GrantSound(v, k, 1, owner);
    LiveRecords(v);
    LiveRecords(Apply(v, Grant(k, 1, owner)));
    BumpTail(v.spans, k);
  }

  lemma BumpTail(rs: seq<Range>, k: nat)
    requires k < |rs| && rs[k].next + FRAME_SIZE <= rs[k].end
    ensures Unbumped(BumpBy(rs, k, 1)[k..]) + 1 == Unbumped(rs[k..])
  {
    BumpCounts(rs[k..], 0, 1);
    assert BumpBy(rs[k..], 0, 1) == BumpBy(rs, k, 1)[k..];
  }

  lemma LimitRelease(v: View, k: nat, i: nat)
    requires Sound(v) && k <= |v.spans| && i < |v.entries|
    ensures LimitFrom(Apply(v, Release(i)), k) == LimitFrom(v, k)
  {
    hide Sound, Unbumped;
    ReleaseSound(v, i);
    LiveRecords(v);
    LiveRecords(Apply(v, Release(i)));
  }

  lemma LimitSetEntry(v: View, k: nat, i: nat, owner: Owner)
    requires Sound(v) && k <= |v.spans| && i < |v.entries|
    ensures LimitFrom(Apply(v, SetEntry(i, owner)), k) == LimitFrom(v, k)
  {
    hide Sound, Unbumped;
    SetEntrySound(v, i, owner);
    LiveRecords(v);
    LiveRecords(Apply(v, SetEntry(i, owner)));
  }

  lemma LiveRecords(v: View)
    requires Sound(v)
    ensures |v.ledger| == |v.entries|
  {}

  /** An allocation is refused exactly at the limit. */
  lemma RefusedAtLimit(v: View, k: nat)
    requires Sound(v) && k <= |v.spans| && |v.entries| <= MAX_FRAME_RECORDS
    ensures |v.ledger| == LimitFrom(v, k) <==>
            |v.ledger| == MAX_FRAME_RECORDS || (v.stack == [] && NoRoomFrom(v.spans, k))
    ensures |v.ledger| <= LimitFrom(v, k)
  {
    ExhaustedRanges(v.spans[k..]);
    assert NoRoomFrom(v.spans, k) <==> NoRoomFrom(v.spans[k..], 0) by {
      if NoRoomFrom(v.spans[k..], 0) {
        assert forall i :: k <= i < |v.spans| ==> v.spans[k..][i - k] == v.spans[i];
      }
    }
  }

  /** A contiguous request that no range can serve moves past every range, so the next single allocation is
      refused although both frames of memory are free. */
  method SkippedRangeWitness() returns (block: Option<nat>, single: Option<nat>, free: nat)
    ensures block.None? && single.None? && free == 2
  {
    var map_ := [MapEntry(0, 8192, true)];
    TwoFrames(map_);
    hide FrameAllocator.Valid, FrameAllocator.Shows, FrameCount, UsableRanges, Unbumped, DisjointMap;
    var allocator := new FrameAllocator();
    var ready := allocator.InitFromLimine(map_);
    block, single, free := SkipThenRefuse(allocator);
  }

  method SkipThenRefuse(allocator: FrameAllocator) returns (block: Option<nat>, single: Option<nat>, free: nat)
    requires allocator.Valid() && allocator.nextRange == 0 && allocator.view == View([Range(0, 0, 8192)], [], [], map[])
    modifies allocator, allocator.ranges, allocator.records
    ensures block.None? && single.None? && free == FrameCount([Range(0, 0, 8192)])
  {
    hide Sound, Apply, Fresh, FrameCount, Granted, InBlock;
    block := allocator.AllocateContiguousOwned(3, Scratch);
    single := allocator.AllocateOwned(Scratch);
    free := allocator.totalFrames - allocator.allocatedFrames;
  }

  lemma TwoFrames(map_: seq<MapEntry>)
    requires map_ == [MapEntry(0, 8192, true)]
    ensures UsableRanges(map_) == [Range(0, 0, 8192)] && DisjointMap(map_) && FrameCount([Range(0, 0, 8192)]) == 2
  {
    assert map_[..0] == [];
    assert [Range(0, 0, 8192)][..0] == [];
  }

  // ----- Reading the memory map -----

  function UsableRange(e: MapEntry): seq<Range> {
    var start, end := AlignUp(e.base), AlignDown(Saturate(e.base + e.length));
    if e.usable && start < end then [Range(start, start, end)] else []
  }

  /** The whole frames of the usable entries, in map order. */
  function UsableRanges(entries: seq<MapEntry>): seq<Range> {
    if entries == [] then []
    else UsableRanges(entries[..|entries| - 1]) + UsableRange(entries[|entries| - 1])
  }

  lemma NoUsable(entries: seq<MapEntry>)
    ensures UsableRanges(entries[..0]) == []
  {}

  ghost predicate DisjointMap(entries: seq<MapEntry>) {
    forall i, j :: 0 <= i < j < |entries| && entries[i].usable && entries[j].usable ==>
          entries[i].base + entries[i].length <= entries[j].base
          || entries[j].base + entries[j].length <= entries[i].base
  }

  ghost predicate AllUnused(rs: seq<Range>) {
    forall i :: 0 <= i < |rs| ==> RangeOk(rs[i]) && rs[i].next == rs[i].start
  }

  lemma AlignBounds(base: nat, end: nat)
    ensures Aligned(AlignUp(base)) && Aligned(AlignDown(Saturate(end)))
    ensures AlignDown(Saturate(end)) <= end && AlignDown(Saturate(end)) <= U64_MAX
    ensures AlignUp(base) < AlignDown(Saturate(end)) ==> base <= AlignUp(base)
  {}

  lemma {:induction false} UsableGrows(entries: seq<MapEntry>, n: nat)
    requires n <= |entries|
    ensures |UsableRanges(entries[..n])| <= |UsableRanges(entries)|
    decreases |entries| - n
  {
    if n < |entries| {
      assert entries[..n + 1][..n] == entries[..n];
      UsableGrows(entries, n + 1);
    } else {
      assert entries[..n] == entries;
    }
  }

  lemma NoRanges()
    ensures UsableRanges([]) == [] && FrameCount([]) == 0
  {}

  lemma UsableStep(entries: seq<MapEntry>, i: nat)
    requires i < |entries|
    ensures UsableRanges(entries[..i + 1]) == UsableRanges(entries[..i]) + UsableRange(entries[i])
    ensures |UsableRanges(entries[..i + 1])| <= |UsableRanges(entries)|
  {
    assert entries[..i + 1][..i] == entries[..i];
    UsableGrows(entries, i + 1);
  }

  lemma CountStep(rs: seq<Range>, r: Range)
    ensures FrameCount(rs + [r]) == FrameCount(rs) + (r.end - r.start) / FRAME_SIZE
  {
    assert (rs + [r])[..|rs|] == rs;
  }

  lemma {:induction false} CountIsPositive(rs: seq<Range>)
    requires AllUnused(rs)
    ensures FrameCount(rs) >= 0 && (FrameCount(rs) == 0 <==> rs == [])
  {
    if rs != [] {
      assert RangeOk(rs[|rs| - 1]);
      CountIsPositive(rs[..|rs| - 1]);
    }
  }

  /** Every usable range lies inside a usable entry of the map. */
  lemma {:induction false} RangeOrigin(entries: seq<MapEntry>, k: nat) returns (i: nat)
    requires k < |UsableRanges(entries)|
    ensures i < |entries| && entries[i].usable
    ensures UsableRanges(entries)[k].start >= entries[i].base
    ensures UsableRanges(entries)[k].end <= entries[i].base + entries[i].length
  {
    var front := entries[..|entries| - 1];
    if k < |UsableRanges(front)| {
      i := RangeOrigin(front, k);
    } else {
      i := |entries| - 1;
      AlignBounds(entries[i].base, entries[i].base + entries[i].length);
    }
  }

  lemma {:induction false} UsableAreUnused(entries: seq<MapEntry>)
    ensures AllUnused(UsableRanges(entries))
  {
    if entries != [] {
      var e := entries[|entries| - 1];
      UsableAreUnused(entries[..|entries| - 1]);
      AlignBounds(e.base, e.base + e.length);
    }
  }

  lemma {:induction false} UsableAreDisjoint(entries: seq<MapEntry>)
    requires DisjointMap(entries)
    ensures RangesOk(UsableRanges(entries))
  {
    UsableAreUnused(entries);
    var rs := UsableRanges(entries);
    if entries != [] {
      var last := |entries| - 1;
      var front := UsableRanges(entries[..last]);
      UsableAreDisjoint(entries[..last]);
      forall i, j | 0 <= i < j < |rs|
        ensures Disjoint(rs[i], rs[j])
      {
        if j < |front| {
          assert Disjoint(front[i], front[j]);
        } else {
          var k := RangeOrigin(entries[..last], i);
          assert entries[..last][k] == entries[k];
          AlignBounds(entries[last].base, entries[last].base + entries[last].length);
        }
      }
    }
  }

  lemma {:induction false} UnusedCounts(rs: seq<Range>)
    requires AllUnused(rs)
    ensures Unbumped(rs) == FrameCount(rs)
  {
    if rs != [] {
      UnusedCounts(rs[..|rs| - 1]);
    }
  }

  /** The state right after a disjoint memory map was read is sound: no frame is live, recycled or bumped. */
  lemma FreshIsSound(entries: seq<MapEntry>)
    requires DisjointMap(entries)
    ensures Sound(View(UsableRanges(entries), [], [], map[]))
    ensures Unbumped(UsableRanges(entries)) == FrameCount(UsableRanges(entries))
  {
    UsableAreUnused(entries);
    UsableAreDisjoint(entries);
    UnusedCounts(UsableRanges(entries));
  }

  class FrameAllocator {
    const ranges: array<Range>
    var rangeCount: nat
    var nextRange: nat
    const freeStack: array<nat>
    var freeStackLen: nat
    const records: array<Option<Record>>
    var recordCount: nat
    var totalFrames: nat
    var allocatedFrames: nat
    var reclaimedFrames: nat
    var highWaterFrames: nat
    var failedAllocations: nat

    ghost var view: View

    /** The tables hold exactly the view. */
    ghost predicate Shows()
      reads this, ranges, freeStack, records
    {
      && ranges.Length == MAX_RANGES
      && freeStack.Length == FREE_STACK_CAPACITY
      && records.Length == MAX_FRAME_RECORDS
      && rangeCount == |view.spans| <= MAX_RANGES
      && freeStackLen == |view.stack| <= FREE_STACK_CAPACITY
      && recordCount == |view.entries| <= MAX_FRAME_RECORDS
      && (forall i :: 0 <= i < rangeCount ==> ranges[i] == view.spans[i])
      && (forall i :: 0 <= i < freeStackLen ==> freeStack[i] == view.stack[i])
      && (forall i :: 0 <= i < recordCount ==> records[i] == Some(view.entries[i]))
    }

    ghost predicate Valid()
      reads this, ranges, freeStack, records
    {
      && Shows()
      && Sound(view)
      && nextRange <= rangeCount
      && totalFrames == FrameCount(view.spans)
      && allocatedFrames == recordCount <= highWaterFrames
    }

    constructor ()
      ensures Valid() && view == View([], [], [], map[])
      ensures fresh(ranges) && fresh(freeStack) && fresh(records)
    {
      ranges := new Range[MAX_RANGES](_ => Range(0, 0, 0));
      freeStack := new nat[FREE_STACK_CAPACITY](_ => 0);
      records := new Option<Record>[MAX_FRAME_RECORDS](_ => None);
      rangeCount, nextRange, freeStackLen, recordCount := 0, 0, 0, 0;
      totalFrames, allocatedFrames, reclaimedFrames, highWaterFrames, failedAllocations := 0, 0, 0, 0, 0;
      view := View([], [], [], map[]);
    }

    /** Reads the memory map: the allocator then manages exactly its whole usable frames. */
    method InitFromLimine(entries: seq<MapEntry>) returns (r: Result<(), InitError>)
      requires Valid()
      modifies this, ranges
      ensures r == (if |UsableRanges(entries)| > MAX_RANGES then Err(TooManyRanges)
                    else if UsableRanges(entries) == [] then Err(NoUsableFrames)
                    else Ok(()))
      ensures r.Ok? ==> Shows() && view == View(UsableRanges(entries), [], [], map[]) && nextRange == 0
      ensures r.Ok? && DisjointMap(entries) ==> Valid() && Unbumped(view.spans) == totalFrames > 0
    {
      hide Sound, UsableRanges, FrameCount, DisjointMap, Unbumped;
      rangeCount, nextRange, freeStackLen, recordCount := 0, 0, 0, 0;
      totalFrames, allocatedFrames, reclaimedFrames, highWaterFrames, failedAllocations := 0, 0, 0, 0, 0;
      view := View([], [], [], map[]);
      NoRanges();
      r := CollectRanges(entries);
      if r.Ok? {
        UsableAreUnused(entries);
        CountIsPositive(view.spans);
        if totalFrames == 0 {
          r := Err(NoUsableFrames);
        } else if DisjointMap(entries) {
          FreshIsSound(entries);
        }
      }
    }

    /** Adds the usable ranges of the memory map, in order. */
    method CollectRanges(entries: seq<MapEntry>) returns (r: Result<(), InitError>)
      requires Shows() && view == View([], [], [], map[]) && totalFrames == FrameCount(view.spans)
      modifies this`rangeCount, this`totalFrames, this`view, ranges
      ensures r == if |UsableRanges(entries)| > MAX_RANGES then Err(TooManyRanges) else Ok(())
      ensures r.Ok? ==>
                Shows() && view == View(UsableRanges(entries), [], [], map[]) && totalFrames == FrameCount(view.spans)
    {
      hide UsableRanges, FrameCount, AlignUp, AlignDown;
      var index := 0;
      assert UsableRanges(entries[..0]) == [] by { NoUsable(entries); }
      while index < |entries|
        invariant index <= |entries|
        invariant Shows() && view == View(UsableRanges(entries[..index]), [], [], map[])
        invariant totalFrames == FrameCount(view.spans)
      {
        UsableStep(entries, index);
        var start, end := AlignUp(entries[index].base),
                          AlignDown(Saturate(entries[index].base + entries[index].length));
        if entries[index].usable && start < end {
          if rangeCount == ranges.Length {
            return Err(TooManyRanges);
          }
          AddRange(Range(start, start, end));
        }
        index := index + 1;
      }
      assert entries[..|entries|] == entries;
      return Ok(());
    }

    method AddRange(range: Range)
      requires Shows() && rangeCount < MAX_RANGES && range.start < range.end && totalFrames == FrameCount(view.spans)
      modifies this`rangeCount, this`totalFrames, this`view, ranges
      ensures Shows() && view == old(view).(spans := old(view).spans + [range]) && totalFrames == FrameCount(view.spans)
    {
      hide FrameCount;
      CountStep(view.spans, range);
      totalFrames := totalFrames + (range.end - range.start) / FRAME_SIZE;
      ranges[rangeCount] := range;
      rangeCount := rangeCount + 1;
      view := view.(spans := view.spans + [range]);
    }

    /** The most frames that single allocations can make live from here. */
    ghost function Limit(): int
      reads this
    {
      if nextRange <= |view.spans| then LimitFrom(view, nextRange) else 0
    }

    /** How many more single allocations will be served. */
    ghost function Supply(): int
      reads this
    {
      Limit() - |view.ledger|
    }

    /** Appends a ledger entry. */
    method RecordAllocated(frame: nat, owner: Owner)
      requires recordCount < records.Length
      modifies this`recordCount, records
      ensures recordCount == old(recordCount) + 1
      ensures records[old(recordCount)] == Some(Record(frame, owner))
      ensures forall i :: 0 <= i < old(recordCount) ==> records[i] == old(records[i])
    {
      records[recordCount] := Some(Record(frame, owner));
      recordCount := recordCount + 1;
    }

    method UpdateHighWater()
      modifies this`highWaterFrames
      ensures allocatedFrames <= highWaterFrames
      ensures highWaterFrames == old(highWaterFrames) || highWaterFrames == allocatedFrames
    {
      if allocatedFrames > highWaterFrames {
        highWaterFrames := allocatedFrames;
      }
    }

    method PopTop(owner: Owner) returns (frame: nat)
      requires Valid() && freeStackLen > 0 && recordCount < MAX_FRAME_RECORDS
      modifies this`freeStackLen, this`allocatedFrames, this`recordCount, this`highWaterFrames, this`view, records
      ensures Valid() && view == Apply(old(view), TakeTop(owner))
      ensures frame == old(view.stack)[|old(view.stack)| - 1]
      ensures Fresh(old(view), frame) && view.ledger == old(view.ledger)[frame := owner]
      ensures |view.stack| + 1 == |old(view.stack)|
    {
      hide Sound, FrameCount;
      freeStackLen := freeStackLen - 1;
      allocatedFrames := allocatedFrames + 1;
      frame := freeStack[freeStackLen];
      RecordAllocated(frame, owner);
      UpdateHighWater();
      TakeTopFacts(view, owner);
      TakeTopSound(view, owner);
      view := Apply(view, TakeTop(owner));
    }

    /** Grants the next `n` frames of the current range, recording them one by one. */
    method GrantBlock(n: nat, owner: Owner) returns (frame: nat)
      requires Valid() && nextRange < rangeCount && recordCount + n <= MAX_FRAME_RECORDS
      requires ranges[nextRange].next + n * FRAME_SIZE <= ranges[nextRange].end
      modifies this`allocatedFrames, this`recordCount, this`highWaterFrames, this`view, ranges, records
      ensures Valid() && Enabled(old(view), Grant(nextRange, n, owner))
              && view == Apply(old(view), Grant(nextRange, n, owner))
      ensures frame == old(view).spans[nextRange].next && Aligned(frame)
      ensures forall f :: InBlock(f, frame, n) ==> Fresh(old(view), f)
      ensures view.ledger == Granted(old(view).ledger, frame, n, owner) && view.stack == old(view).stack
    {
      hide Sound, FrameCount, Fresh;
      GrantFacts(view, nextRange, n, owner);
      GrantSound(view, nextRange, n, owner);
      frame := ranges[nextRange].next;
      ranges[nextRange] := ranges[nextRange].(next := frame + n * FRAME_SIZE);
      allocatedFrames := allocatedFrames + n;
      BlockLength(frame, n, owner);
      var index := 0;
      while index < n
        invariant index <= n && recordCount == old(recordCount) + index
        invariant forall i :: 0 <= i < old(recordCount) ==> records[i] == old(records[i])
        invariant forall i :: 0 <= i < index ==> records[old(recordCount) + i] == Some(Block(frame, n, owner)[i])
        modifies this`recordCount, records
      {
        RecordAllocated(frame + index * FRAME_SIZE, owner);
        index := index + 1;
      }
      UpdateHighWater();
      view := Apply(view, Grant(nextRange, n, owner));
    }

    /** Recycled frames are reused first, last in first out; only then is a range bumped. */
    method AllocateOwned(owner: Owner) returns (r: Option<nat>)
      requires Valid()
      modifies this, ranges, records
      ensures Valid()
      ensures r.None? <==> old(
                             recordCount == MAX_FRAME_RECORDS
                             || (&& view.stack == []
                                 && forall i :: nextRange <= i < rangeCount ==>
                                                  view.spans[i].next >= view.spans[i].end))
      ensures Limit() == old(Limit()) && (r.None? <==> old(Supply()) == 0) && old(Supply()) >= 0
      ensures r.None? ==> view == old(view)
      ensures r.Some? && old(view.stack) != [] ==>
                && old(Enabled(view, TakeTop(owner))) && view == Apply(old(view), TakeTop(owner))
                && r.value == old(view.stack)[|old(view.stack)| - 1]
      ensures r.Some? && old(view.stack) == [] ==>
                && Enabled(old(view), Grant(nextRange, 1, owner))
                && view == Apply(old(view), Grant(nextRange, 1, owner))
                && r.value == old(view).spans[nextRange].next
      ensures r.Some? ==> Fresh(old(view), r.value) && view.ledger == old(view.ledger)[r.value := owner]
      ensures r.Some? ==> |view.stack| == if old(view.stack) == [] then 0 else |old(view.stack)| - 1
      ensures failedAllocations == if r.None? then Saturate(old(failedAllocations) + 1) else old(failedAllocations)
    {
      hide Sound, Apply, FrameCount, Fresh, LimitFrom;
      RefusedAtLimit(view, nextRange);
      if recordCount == records.Length {
        LiveRecords(view);
        failedAllocations := Saturate(failedAllocations + 1);
        return None;
      }
      LiveRecords(view);
      if freeStackLen > 0 {
        LimitTakeTop(view, nextRange, owner);
        var frame := PopTop(owner);
        return Some(frame);
      }
      while nextRange < rangeCount
        invariant Valid() && old(nextRange) <= nextRange <= rangeCount && view == old(view)
        invariant forall i :: old(nextRange) <= i < nextRange ==> view.spans[i].next >= view.spans[i].end
        invariant recordCount == old(recordCount) && failedAllocations == old(failedAllocations)
        invariant freeStackLen == 0 && Limit() == old(Limit())
      {
        if ranges[nextRange].next < ranges[nextRange].end {
          NextIsManaged(view, nextRange);
          LimitGrantOne(view, nextRange, owner);
          var frame := GrantBlock(1, owner);
          GrantOne(old(view).ledger, frame, owner);
          return Some(frame);
        }
        LimitSkip(view, nextRange);
        nextRange := nextRange + 1;
      }
      failedAllocations := Saturate(failedAllocations + 1);
      return None;
    }

    /** First fit from the current range on; the recycle stack is not used. The product `n * FRAME_SIZE` cannot
        overflow once the ledger is known to have room for `n` records. */
    method AllocateContiguousOwned(n: nat, owner: Owner) returns (r: Option<nat>)
      requires Valid()
      modifies this, ranges, records
      ensures Valid()
      ensures r.None? ==> view == old(view)
      ensures r.Some? ==>
                && n > 0 && Enabled(old(view), Grant(nextRange, n, owner))
                && view == Apply(old(view), Grant(nextRange, n, owner))
                && r.value == old(view).spans[nextRange].next
                && (forall f :: InBlock(f, r.value, n) ==> Fresh(old(view), f))
                && view.ledger == Granted(old(view).ledger, r.value, n, owner)
      // Every range passed over was too small for the block; it is never bumped again.
      ensures old(nextRange) <= nextRange <= rangeCount == old(rangeCount)
      ensures forall i :: old(nextRange) <= i < nextRange ==>
            old(view).spans[i].next + n * FRAME_SIZE > old(view).spans[i].end
      ensures r.None? && n > 0 && old(recordCount) + n <= MAX_FRAME_RECORDS && nextRange < rangeCount ==>
                old(view).spans[nextRange].next + n * FRAME_SIZE > U64_MAX
      ensures failedAllocations == if r.None? then Saturate(old(failedAllocations) + 1) else old(failedAllocations)
    {
      hide Sound, Apply, FrameCount, Fresh;
      if n == 0 || records.Length - recordCount < n {
        failedAllocations := Saturate(failedAllocations + 1);
        return None;
      }
      while nextRange < rangeCount
        invariant Valid() && old(nextRange) <= nextRange <= rangeCount == old(rangeCount) && view == old(view)
        invariant forall i :: old(nextRange) <= i < nextRange ==>
              view.spans[i].next + n * FRAME_SIZE > view.spans[i].end
        invariant recordCount == old(recordCount) && failedAllocations == old(failedAllocations)
      {
        var end := ranges[nextRange].next + n * FRAME_SIZE;
        if end > U64_MAX {
          failedAllocations := Saturate(failedAllocations + 1);
          return None;
        }
        if end <= ranges[nextRange].end {
          var frame := GrantBlock(n, owner);
          return Some(frame);
        }
        nextRange := nextRange + 1;
      }
      failedAllocations := Saturate(failedAllocations + 1);
      return None;
    }

    /** Linear search of the usable ranges. */
    method Contains(frame: nat) returns (found: bool)
      requires Valid() && Aligned(frame)
      ensures found <==> InRanges(view.spans, frame)
    {
      hide Sound, FrameCount;
      var index := 0;
      while index < rangeCount
        invariant index <= rangeCount
        invariant forall i :: 0 <= i < index ==> !(view.spans[i].start <= frame < view.spans[i].end)
      {
        NextIsManaged(view, index);
        FrameInRange(frame, view.spans[index]);
        if frame + FRAME_SIZE <= U64_MAX && frame >= ranges[index].start && frame + FRAME_SIZE <= ranges[index].end {
          return true;
        }
        index := index + 1;
      }
      return false;
    }

    /** Linear search of the ledger. */
    method RecordIndex(frame: nat) returns (r: Option<nat>)
      requires Valid()
      ensures r.Some? ==> r.value < recordCount && view.entries[r.value].frame == frame
      ensures r.Some? <==> frame in view.ledger
    {
      hide Sound, FrameCount;
      var index := 0;
      while index < recordCount
        invariant index <= recordCount
        invariant forall i :: 0 <= i < index ==> view.entries[i].frame != frame
      {
        if records[index].Some? && records[index].value.frame == frame {
          EntryIsLive(view, index);
          return Some(index);
        }
        index := index + 1;
      }
      if frame in view.ledger { LiveHasEntry(view, frame); }
      return None;
    }

    method OwnerOf(frame: nat) returns (r: Option<Owner>)
      requires Valid()
      ensures r == if frame in view.ledger then Some(view.ledger[frame]) else None
    {
      hide Sound, FrameCount;
      var index := RecordIndex(frame);
      if index.None? {
        return None;
      }
      EntryIsLive(view, index.value);
      return Some(records[index.value].value.owner);
    }

    /** Changes the owner of a live frame. */
    method SetOwner(frame: nat, owner: Owner) returns (r: Result<(), FreeError>)
      requires Valid()
      modifies this`view, records
      ensures Valid()
      ensures r == (if !Aligned(frame) then Err(UnalignedFrame)
                    else if !InRanges(old(view).spans, frame) then Err(OutsideUsableRanges)
                    else if frame !in old(view).ledger then Err(UnallocatedFrame)
                    else Ok(()))
      ensures r.Err? ==> view == old(view)
      ensures r.Ok? ==> exists i: nat ::
                  Enabled(old(view), SetEntry(i, owner)) && old(view).entries[i].frame == frame
                  && view == Apply(old(view), SetEntry(i, owner))
      ensures r.Ok? ==> view.ledger == old(view).ledger[frame := owner]
      ensures view.stack == old(view).stack && Limit() == old(Limit())
    {
      hide Sound, FrameCount, InRanges, LimitFrom;
      if frame % FRAME_SIZE != 0 {
        return Err(UnalignedFrame);
      }
      var known := Contains(frame);
      if !known {
        return Err(OutsideUsableRanges);
      }
      var index := RecordIndex(frame);
      if index.None? {
        return Err(UnallocatedFrame);
      }
      records[index.value] := Some(Record(frame, owner));
      SetEntrySound(view, index.value, owner);
      LimitSetEntry(view, nextRange, index.value, owner);
      view := Apply(view, SetEntry(index.value, owner));
      return Ok(());
    }

    /** Swap-removes a ledger entry. */
    method RemoveRecord(index: nat)
      requires index < recordCount <= records.Length
      modifies this`recordCount, records
      ensures recordCount + 1 == old(recordCount)
      ensures forall i :: 0 <= i < recordCount ==>
            records[i] == if i == index then old(records[recordCount - 1]) else old(records[i])
    {
      recordCount := recordCount - 1;
      records[index] := records[recordCount];
      records[recordCount] := None;
    }

    method FreeWithOwner(frame: nat, expectedOwner: Option<Owner>) returns (r: Result<(), FreeError>)
      requires Valid()
      modifies this`freeStackLen, this`recordCount, this`allocatedFrames, this`reclaimedFrames, this`view, freeStack,
               records
      ensures Valid()
      ensures r == FreeOutcome(frame, expectedOwner, old(view))
      ensures r.Err? ==> view == old(view)
      ensures r.Ok? ==> exists i: nat ::
                  Enabled(old(view), Release(i)) && old(view).entries[i].frame == frame
                  && view == Apply(old(view), Release(i))
      ensures r.Ok? ==> view.ledger == old(view).ledger - {frame} && view.stack == old(view).stack + [frame]
      ensures view.spans == old(view).spans && Limit() == old(Limit())
    {
      hide Sound, FrameCount, InRanges, LimitFrom;
      if frame % FRAME_SIZE != 0 {
        return Err(UnalignedFrame);
      }
      var known := Contains(frame);
      if !known {
        return Err(OutsideUsableRanges);
      }
      var index := RecordIndex(frame);
      if index.None? {
        return Err(UnallocatedFrame);
      }
      EntryIsLive(view, index.value);
      if expectedOwner.Some? && records[index.value].value.owner != expectedOwner.value {
        return Err(WrongOwner);
      }
      if freeStackLen == freeStack.Length {
        return Err(FreeStackFull);
      }
      ReleaseEntry(frame, index.value);
      return Ok(());
    }

    /** Moves a live frame to the recycle stack. */
    method ReleaseEntry(frame: nat, index: nat)
      requires Valid() && index < recordCount && view.entries[index].frame == frame && freeStackLen < freeStack.Length
      modifies this`freeStackLen, this`recordCount, this`allocatedFrames, this`reclaimedFrames, this`view, freeStack,
               records
      ensures Valid() && old(Enabled(view, Release(index))) && view == Apply(old(view), Release(index))
      ensures Limit() == old(Limit())
    {
      hide Sound, FrameCount, InRanges, LimitFrom;
      LimitRelease(view, nextRange, index);
      freeStack[freeStackLen] := frame;
      freeStackLen := freeStackLen + 1;
      RemoveRecord(index);
      allocatedFrames := allocatedFrames - 1;
      reclaimedFrames := Saturate(reclaimedFrames + 1);
      ReleaseSound(view, index);
      view := Apply(view, Release(index));
    }

    method FreeOwned(frame: nat, expectedOwner: Owner) returns (r: Result<(), FreeError>)
      requires Valid()
      modifies this`freeStackLen, this`recordCount, this`allocatedFrames, this`reclaimedFrames, this`view, freeStack,
               records
      ensures Valid()
      ensures r == FreeOutcome(frame, Some(expectedOwner), old(view))
      ensures r.Err? ==> view == old(view)
      ensures r.Ok? ==> view.ledger == old(view).ledger - {frame} && view.stack == old(view).stack + [frame]
      ensures view.spans == old(view).spans && Limit() == old(Limit())
    {
      hide *;
      r := FreeWithOwner(frame, Some(expectedOwner));
    }

    method Free(frame: nat) returns (r: Result<(), FreeError>)
      requires Valid()
      modifies this`freeStackLen, this`recordCount, this`allocatedFrames, this`reclaimedFrames, this`view, freeStack,
               records
      ensures Valid()
      ensures r == FreeOutcome(frame, None, old(view))
      ensures r.Err? ==> view == old(view)
      ensures r.Ok? ==> view.ledger == old(view).ledger - {frame} && view.stack == old(view).stack + [frame]
      ensures view.spans == old(view).spans && Limit() == old(Limit())
    {
      hide *;
      r := FreeWithOwner(frame, None);
    }
  }
}
