/** How the boot compiler derives policy facts from a generation manifest. */
module CompilerFacts {
  import opened Bits
  import opened Bytes
  import opened Results
  import opened BootRecords
  import opened Manifests
  import opened FactTables
  import opened PolicyTerms

  // ----- The boot plan -----

  datatype PlanGrant = PlanGrant(process: Str, objectKind: nat, objectName: Str, rights: nat)

  /** The objects of a plan, by name. */
  datatype Objects = Objects(endpoints: seq<Str>, stores: seq<Str>, ports: seq<Str>, ioPorts: seq<Str>,
                             mmioRegions: seq<Str>, framebuffers: seq<Str>, lines: seq<Str>, dmaRegions: seq<Str>,
                             pciDevices: seq<Str>, virtioDevices: seq<Str>, namespaces: seq<Str>,
                             roots: seq<VfsRoot>)

  datatype Plan = Plan(processes: seq<Process>, objects: Objects, grants: seq<PlanGrant>, states: seq<StateVolume>)

  function IndexOf(names: seq<Str>, name: Str): (r: Option<nat>)
    ensures r.Some? ==> r.value < |names| && names[r.value] == name
    ensures r.None? ==> name !in names
  {
    if names == [] then None
    else if names[0] == name then Some(0)
    else
      var rest := IndexOf(names[1..], name);
      if rest.None? then None else Some(rest.value + 1)
  }

  function RootIndex(roots: seq<VfsRoot>, id: Str): (r: Option<nat>)
    ensures r.Some? ==> r.value < |roots| && roots[r.value].id == id
    ensures r.None? ==> forall i :: 0 <= i < |roots| ==> roots[i].id != id
  {
    if roots == [] then None
    else if roots[0].id == id then Some(0)
    else
      var rest := RootIndex(roots[1..], id);
      if rest.None? then None else Some(rest.value + 1)
  }

  function ObjectIndex(o: Objects, kind: nat, name: Str): Option<nat> {
    match kind
    case 1 => IndexOf(o.endpoints, name)
    case 2 => IndexOf(o.stores, name)
    case 4 => if name == MONOTONIC_TIMER then Some(0) else None
    case 5 => IndexOf(o.ports, name)
    case 6 => IndexOf(o.ioPorts, name)
    case 7 => IndexOf(o.mmioRegions, name)
    case 8 => IndexOf(o.lines, name)
    case 9 => IndexOf(o.dmaRegions, name)
    case 10 => IndexOf(o.pciDevices, name)
    case 11 => IndexOf(o.virtioDevices, name)
    case 12 => IndexOf(o.namespaces, name)
    case 13 => RootIndex(o.roots, name)
    case 14 => IndexOf(o.framebuffers, name)
    case _ => None
  }

  /** The process that runs a service. */
  function ProcessFor(processes: seq<Process>, service: Str): (r: Option<Str>)
    ensures r.Some? <==> exists i :: 0 <= i < |processes| && processes[i].serviceId == service
  {
    if processes == [] then None
    else if processes[0].serviceId == service then Some(processes[0].name)
    else
      assert processes == [processes[0]] + processes[1..];
      ProcessFor(processes[1..], service)
  }

  predicate Native(processes: seq<Process>, service: Str) { ProcessFor(processes, service).Some? }

  // ----- Rights -----

  function RightNamed(name: Str): Option<nat> {
    if name == NAME_SEND then Some(RIGHT_SEND)
    else if name == NAME_RECEIVE then Some(RIGHT_RECEIVE)
    else if name == NAME_READ then Some(RIGHT_READ)
    else if name == NAME_WRITE then Some(RIGHT_WRITE)
    else if name == NAME_READWRITE || name == NAME_READ_WRITE then Some(RIGHT_READ + RIGHT_WRITE)
    else if name == NAME_SNAPSHOT then Some(RIGHT_SNAPSHOT)
    else if name == NAME_RESTORE then Some(RIGHT_RESTORE)
    else if name == NAME_CONTROL then Some(RIGHT_CONTROL)
    else if name == NAME_BIND then Some(RIGHT_BIND)
    else if name == NAME_LISTEN then Some(RIGHT_LISTEN)
    else if name == NAME_MAP then Some(RIGHT_MAP)
    else if name == NAME_RESOLVE then Some(RIGHT_RESOLVE)
    else if name == NAME_CREATE then Some(RIGHT_CREATE)
    else if name == NAME_UNLINK then Some(RIGHT_UNLINK)
    else if name == NAME_RENAME then Some(RIGHT_RENAME)
    else if name == NAME_MOUNT then Some(RIGHT_MOUNT)
    else None
  }

  function RawMask(rights: seq<Str>): Option<nat> {
    if rights == [] then Some(0)
    else
      var rest, last := RawMask(rights[..|rights| - 1]), RightNamed(rights[|rights| - 1]);
      if rest.None? || last.None? then None else Some(Both(rest.value, last.value))
  }

  method RawRightsMask(rights: seq<Str>) returns (mask: Option<nat>)
    ensures mask == RawMask(rights)
  {
    hide RightNamed;
    var m, i := 0, 0;
    while i < |rights|
      invariant i <= |rights| && RawMask(rights[..i]) == Some(m)
    {
      assert rights[..i + 1][..i] == rights[..i];
      var right := RightNamed(rights[i]);
      if right.None? {
        StaysUnknown(rights, i + 1);
        return None;
      }
      m := Both(m, right.value);
      i := i + 1;
    }
    assert rights[..i] == rights;
    return Some(m);
  }

  lemma {:induction false} StaysUnknown(rights: seq<Str>, n: nat)
    requires n <= |rights| && RawMask(rights[..n]).None?
    ensures RawMask(rights).None?
    decreases |rights| - n
  {
    hide RightNamed;
    if n == |rights| {
      assert rights[..n] == rights;
    } else {
      assert rights[..n + 1][..n] == rights[..n];
      StaysUnknown(rights, n + 1);
    }
  }

  function DeclaredMask(rights: seq<Str>): Option<nat> {
    var mask := RawMask(rights);
    if mask == Some(0) then None else mask
  }

  /** The rights a need asks for: within those declared, and not none. */
  function RightsMask(required: seq<Str>, declared: seq<Str>): (r: Option<nat>)
    ensures r.Some? ==> DeclaredMask(declared).Some? && Allowed(r.value, DeclaredMask(declared).value) && r.value != 0
  {
    var all := DeclaredMask(declared);
    if all.None? then None
    else if required == [] then WithinSelf(all.value, 16); all
    else
      var mask := RawMask(required);
      if mask.None? || !Allowed(mask.value, all.value) || mask.value == 0 then None else mask
  }

  predicate KnownRights(rights: seq<Str>) {
    forall i :: 0 <= i < |rights| ==> RightNamed(rights[i]).Some?
  }

  /** Every right named is in the mask. */
  predicate AllIn(rights: seq<Str>, mask: nat) {
    forall i :: 0 <= i < |rights| ==> RightNamed(rights[i]).Some? && Allowed(RightNamed(rights[i]).value, mask)
  }

  lemma NamedRight(name: Str)
    ensures RightNamed(name).Some? ==> 0 < RightNamed(name).value < Pow2(16)
  {
    assert Pow2(8) == 256;
    assert Pow2(16) == 256 * Pow2(8);
  }

  /** The mask of known rights is the least that holds them all. */
  lemma {:induction false} RawLeast(rights: seq<Str>)
    ensures RawMask(rights).Some? <==> KnownRights(rights)
    ensures RawMask(rights).Some? ==>
              && AllIn(rights, RawMask(rights).value)
              && (forall c: nat :: AllIn(rights, c) ==> Allowed(RawMask(rights).value, c))
              && (rights == [] <==> RawMask(rights).value == 0)
  {
    hide RightNamed, Or, Within, Pow2;
    if rights == [] {
      forall c: nat ensures Allowed(0, c) { WithinZero(c, 16); }
    } else {
      var front, last := rights[..|rights| - 1], rights[|rights| - 1];
      RawLeast(front);
      if RawMask(rights).Some? {
        NamedRight(last);
        LeastStep(rights, RawMask(front).value, RightNamed(last).value);
      }
    }
  }

  lemma LeastStep(rights: seq<Str>, before: nat, right: nat)
    requires rights != [] && RightNamed(rights[|rights| - 1]) == Some(right) && 0 < right < Pow2(16)
    requires var front := rights[..|rights| - 1];
             AllIn(front, before) && (forall c: nat :: AllIn(front, c) ==> Allowed(before, c))
    ensures AllIn(rights, Both(before, right)) && Both(before, right) != 0
    ensures forall c: nat :: AllIn(rights, c) ==> Allowed(Both(before, right), c)
  {
    hide RightNamed, Or, Within, Pow2;
    var front, mask := rights[..|rights| - 1], Both(before, right);
    OrHolds(before, right, 16);
    forall i | 0 <= i < |rights|
      ensures RightNamed(rights[i]).Some? && Allowed(RightNamed(rights[i]).value, mask)
    {
      if i < |front| {
        assert front[i] == rights[i];
        WithinTrans(RightNamed(rights[i]).value, before, mask, 16);
      }
    }
    if mask == 0 { WithinNothing(right, 16); }
    forall c: nat | AllIn(rights, c)
      ensures Allowed(mask, c)
    {
      assert forall i :: 0 <= i < |front| ==> front[i] == rights[i];
      assert AllIn(front, c);
      OrLeast(before, right, c, 16);
    }
  }

  /** Rights are granted exactly when all that is named is known and what is asked for is declared; no request
      asks for everything declared. What is granted is then the least mask of what was asked. */
  lemma RightsGranted(required: seq<Str>, declared: seq<Str>)
    ensures RightsMask(required, declared).Some? <==>
            && declared != [] && KnownRights(declared)
            && exists all :: RawMask(declared) == Some(all) && AllIn(required, all)
    ensures RightsMask(required, declared).Some? ==>
              var asked, mask := if required == [] then declared else required, RightsMask(required, declared).value;
              AllIn(asked, mask) && forall c: nat :: AllIn(asked, c) ==> Allowed(mask, c)
  {
    hide RightNamed, Or, Within;
    RawLeast(required);
    RawLeast(declared);
    if RawMask(required).Some? && RawMask(declared).Some? {
      var mask, all := RawMask(required).value, RawMask(declared).value;
      if Allowed(mask, all) {
        forall i | 0 <= i < |required|
          ensures Allowed(RightNamed(required[i]).value, all)
        {
          WithinTrans(RightNamed(required[i]).value, mask, all, 16);
        }
      }
    }
  }

  // ----- Facts -----

  datatype CapabilityKey = CapabilityKey(id: Str, provider: Str, objectKind: nat, objectIndex: nat)
  datatype RequirementKey = RequirementKey(service: Str, capability: Str)
  datatype PathKey = PathKey(service: Str, state: Str, root: Str)

  type CapabilityTable = seq<Entry<CapabilityKey>>
  type RequirementTable = seq<Entry<RequirementKey>>
  type PathTable = seq<Entry<PathKey>>

  /** Facts of one id speak of one object. */
  ghost predicate ConflictFree(xs: CapabilityTable) {
    forall i, j :: 0 <= i < j < |xs| && xs[i].key.id == xs[j].key.id ==> xs[i].key == xs[j].key
  }

  /** Adds a capability fact, unless the fact of its id speaks of another object. */
  method PushCapability(table: CapabilityTable, x: Entry<CapabilityKey>, ghost xs: CapabilityTable)
    returns (r: Option<CapabilityTable>)
    requires table == MergedAll([], xs) && ConflictFree(xs)
    ensures r.Some? <==> ConflictFree(xs + [x])
    ensures r.Some? ==> r.value == MergedAll([], xs + [x])
  {
    hide Merged, MergedAll;
    var i := 0;
    while i < |table| && table[i].key.id != x.key.id
      invariant i <= |table| && forall j :: 0 <= j < i ==> table[j].key.id != x.key.id
    {
      i := i + 1;
    }
    Conflicts(xs, table, x, i);
    if i < |table| && table[i].key != x.key {
      return None;
    }
    var more := Push(table, x);
    MergedNext(xs, x);
    return Some(more);
  }

  lemma MergedNext<K>(xs: seq<Entry<K>>, x: Entry<K>)
    ensures MergedAll([], xs + [x]) == Merged(MergedAll([], xs), x)
  {
    assert (xs + [x])[..|xs|] == xs;
  }

  lemma {:induction false} TableKeys<K>(xs: seq<Entry<K>>, key: K)
    ensures (exists e :: e in MergedAll([], xs) && e.key == key) <==> exists i :: 0 <= i < |xs| && xs[i].key == key
  {
    hide Merged;
    if xs != [] {
      var n := |xs| - 1;
      TableKeys(xs[..n], key);
      KeysKept(MergedAll([], xs[..n]), xs[n], key);
      assert forall i :: 0 <= i < n ==> xs[..n][i] == xs[i];
    }
  }

  /** The first fact of an id tells whether a new one conflicts. */
  lemma Conflicts(xs: CapabilityTable, table: CapabilityTable, x: Entry<CapabilityKey>, i: nat)
    requires table == MergedAll([], xs) && ConflictFree(xs) && i <= |table|
    requires (forall j :: 0 <= j < i ==> table[j].key.id != x.key.id) && (i < |table| ==> table[i].key.id == x.key.id)
    ensures ConflictFree(xs + [x]) <==> i == |table| || table[i].key == x.key
  {
    hide MergedAll;
    var all := xs + [x];
    if i < |table| {
      TableKeys(xs, table[i].key);
      assert table[i] in table;
      var k :| 0 <= k < |xs| && xs[k].key == table[i].key;
      assert all[k] == xs[k] && all[|xs|] == x;
      if table[i].key == x.key {
        forall a, b | 0 <= a < b < |all| && all[a].key.id == all[b].key.id
          ensures all[a].key == all[b].key
        {
          if b == |xs| {
            assert xs[a].key.id == xs[k].key.id;
          } else {
            assert all[b] == xs[b];
          }
        }
      }
    } else {
      forall k | 0 <= k < |xs|
        ensures xs[k].key.id != x.key.id
      {
        TableKeys(xs, xs[k].key);
        var e :| e in table && e.key == xs[k].key;
      }
    }
  }

  lemma ConflictStays(xs: CapabilityTable, ys: CapabilityTable)
    requires ConflictFree(xs + ys)
    ensures ConflictFree(xs)
  {
    var all := xs + ys;
    assert forall i :: 0 <= i < |xs| ==> all[i] == xs[i];
  }

  // ----- Facts of the declared capabilities -----

  function EndpointName(id: Str): Str {
    if CAP_PREFIX <= id && CAP_PREFIX != [] then EndpointName(id[|CAP_PREFIX|..]) else Dashed(id)
  }

  /** Dots, colons and underscores become dashes. */
  function Dashed(s: Str): Str {
    seq<Byte>(|s|, i requires 0 <= i < |s| => if s[i] == 46 || s[i] == 58 || s[i] == 95 then 45 else s[i])
  }

  /** The object a capability names. */
  function ObjectName(c: Capability): Option<(nat, Str)> {
    if c.kind == KIND_IPC_ENDPOINT then Some((OBJECT_ENDPOINT, EndpointName(c.id)))
    else if c.kind == KIND_STORE_OBJECT then Some((OBJECT_STORE, c.provider))
    else if c.kind == KIND_TIMER then Some((OBJECT_TIMER, MONOTONIC_TIMER))
    else if c.kind == KIND_NETWORK_PORT then Some((OBJECT_NETWORK_PORT, c.id))
    else if c.kind == KIND_IO_PORT then Some((OBJECT_IO_PORT_RANGE, c.id))
    else if c.kind == KIND_MMIO_REGION then Some((OBJECT_MMIO_REGION, c.id))
    else if c.kind == KIND_FRAMEBUFFER then Some((OBJECT_FRAMEBUFFER, c.id))
    else if c.kind == KIND_INTERRUPT_LINE then Some((OBJECT_INTERRUPT_LINE, c.id))
    else if c.kind == KIND_DMA_REGION then Some((OBJECT_DMA_REGION, c.id))
    else if c.kind == KIND_PCI_DEVICE then Some((OBJECT_PCI_DEVICE, c.provider))
    else if c.kind == KIND_VIRTIO_DEVICE then Some((OBJECT_VIRTIO_DEVICE, c.provider))
    else if c.kind == KIND_NAMESPACE then Some((OBJECT_NAMESPACE, c.id))
    else if c.kind == KIND_VFS_ROOT then Some((OBJECT_VFS_ROOT, c.id))
    else None
  }

  /** The fact key of a capability whose object is in the plan. */
  function KeyOf(o: Objects, c: Capability): Option<CapabilityKey> {
    var name := ObjectName(c);
    if name.None? then None
    else
      var index := ObjectIndex(o, name.value.0, name.value.1);
      if index.None? then None else Some(CapabilityKey(c.id, c.provider, name.value.0, index.value))
  }

  /** A network port served from inside the plan is also controlled by its provider. */
  predicate ServedPort(plan: Plan, c: Capability) {
    c.kind == KIND_NETWORK_PORT && Native(plan.processes, c.provider)
  }

  predicate CapabilityReads(plan: Plan, c: Capability) {
    KeyOf(plan.objects, c).Some? ==> DeclaredMask(c.rights).Some?
  }

  function CapabilityGift(plan: Plan, c: Capability): CapabilityTable {
    var key, mask := KeyOf(plan.objects, c), DeclaredMask(c.rights);
    if key.None? || mask.None? then []
    else [Entry(key.value, mask.value)] + if ServedPort(plan, c) then [Entry(key.value, RIGHT_CONTROL)] else []
  }

  function PortNeed(plan: Plan, c: Capability): RequirementTable {
    if KeyOf(plan.objects, c).Some? && ServedPort(plan, c) then [Entry(RequirementKey(c.provider, c.id), RIGHT_CONTROL)]
    else []
  }

  function CapabilityGifts(plan: Plan, cs: seq<Capability>): CapabilityTable {
    if cs == [] then [] else CapabilityGifts(plan, cs[..|cs| - 1]) + CapabilityGift(plan, cs[|cs| - 1])
  }

  function PortNeeds(plan: Plan, cs: seq<Capability>): RequirementTable {
    if cs == [] then [] else PortNeeds(plan, cs[..|cs| - 1]) + PortNeed(plan, cs[|cs| - 1])
  }

  method AddCapabilityFacts(plan: Plan, cs: seq<Capability>) returns (r: Option<(CapabilityTable, RequirementTable)>)
    ensures r.Some? <==>
            (forall i :: 0 <= i < |cs| ==> CapabilityReads(plan, cs[i])) && ConflictFree(CapabilityGifts(plan, cs))
    ensures r.Some? ==> r.value == (MergedAll([], CapabilityGifts(plan, cs)), MergedAll([], PortNeeds(plan, cs)))
  {
    hide MergedAll, ConflictFree, CapabilityGifts, PortNeeds, CapabilityGift, PortNeed, CapabilityReads;
    var table: CapabilityTable, needs: RequirementTable, i := [], [], 0;
    NothingMerged(plan, cs);
    while i < |cs|
      invariant i <= |cs| && (forall j :: 0 <= j < i ==> CapabilityReads(plan, cs[j]))
                && ConflictFree(CapabilityGifts(plan, cs[..i]))
      invariant table == MergedAll([], CapabilityGifts(plan, cs[..i]))
                && needs == MergedAll([], PortNeeds(plan, cs[..i]))
    {
      GiftsStep(plan, cs, i);
      var next := AddCapability(plan, cs[i], table, needs, CapabilityGifts(plan, cs[..i]), PortNeeds(plan, cs[..i]));
      if next.None? {
        return None;
      }
      table, needs := next.value.0, next.value.1;
      i := i + 1;
    }
    assert cs[..i] == cs;
    return Some((table, needs));
  }

  lemma NothingMerged(plan: Plan, cs: seq<Capability>)
    ensures MergedAll<CapabilityKey>([], []) == [] && MergedAll<RequirementKey>([], []) == [] && ConflictFree([])
    ensures CapabilityGifts(plan, cs[..0]) == [] && PortNeeds(plan, cs[..0]) == []
  {}

  lemma GiftsStep(plan: Plan, cs: seq<Capability>, i: nat)
    requires i < |cs|
    ensures CapabilityGifts(plan, cs[..i + 1]) == CapabilityGifts(plan, cs[..i]) + CapabilityGift(plan, cs[i])
    ensures PortNeeds(plan, cs[..i + 1]) == PortNeeds(plan, cs[..i]) + PortNeed(plan, cs[i])
    ensures ConflictFree(CapabilityGifts(plan, cs)) ==> ConflictFree(CapabilityGifts(plan, cs[..i + 1]))
  {
    assert cs[..i + 1][..i] == cs[..i];
    hide CapabilityGift, PortNeed;
    if ConflictFree(CapabilityGifts(plan, cs)) { GiftsFree(plan, cs, i + 1); }
  }

  lemma {:induction false} GiftsFree(plan: Plan, cs: seq<Capability>, n: nat)
    requires n <= |cs| && ConflictFree(CapabilityGifts(plan, cs))
    ensures ConflictFree(CapabilityGifts(plan, cs[..n]))
    decreases |cs| - n
  {
    hide CapabilityGift, ConflictFree;
    if n == |cs| {
      assert cs[..n] == cs;
    } else {
      GiftsFree(plan, cs, n + 1);
      assert cs[..n + 1][..n] == cs[..n];
      ConflictStays(CapabilityGifts(plan, cs[..n]), CapabilityGift(plan, cs[n]));
    }
  }

  method AddCapability(plan: Plan, c: Capability, table: CapabilityTable, needs: RequirementTable,
                       ghost xs: CapabilityTable, ghost ns: RequirementTable)
    returns (r: Option<(CapabilityTable, RequirementTable)>)
    requires table == MergedAll([], xs) && ConflictFree(xs) && needs == MergedAll([], ns)
    ensures r.Some? <==> CapabilityReads(plan, c) && ConflictFree(xs + CapabilityGift(plan, c))
    ensures r.Some? ==> r.value == (MergedAll([], xs + CapabilityGift(plan, c)), MergedAll([], ns + PortNeed(plan, c)))
  {
    hide KeyOf, DeclaredMask, MergedAll, ServedPort, ConflictFree;
    var key := KeyOf(plan.objects, c);
    if key.None? {
      assert xs + [] == xs && ns + [] == ns;
      return Some((table, needs));
    }
    var mask := DeclaredMask(c.rights);
    if mask.None? {
      return None;
    }
    var x, y := Entry(key.value, mask.value), Entry(key.value, RIGHT_CONTROL);
    assert xs + [x] + [y] == xs + ([x] + [y]) && xs + ([x] + []) == xs + [x] && ns + [] == ns;
    var more := PushCapability(table, x, xs);
    if ConflictFree(xs + [x] + [y]) { ConflictStays(xs + [x], [y]); }
    if more.None? {
      return None;
    }
    if ServedPort(plan, c) {
      more := PushCapability(more.value, y, xs + [x]);
      if more.None? {
        return None;
      }
      var need := Entry(RequirementKey(c.provider, c.id), RIGHT_CONTROL);
      var needs' := Push(needs, need);
      MergedNext(ns, need);
      return Some((more.value, needs'));
    }
    return Some((more.value, needs));
  }

  // ----- Facts of the store objects -----

  function StoreGift(o: Objects, name: Str): CapabilityTable {
    var index := IndexOf(o.stores, name);
    if index.None? then [] else [Entry(CapabilityKey(name, name, OBJECT_STORE, index.value), RIGHT_READ)]
  }

  function StoreGifts(o: Objects, names: seq<Str>): CapabilityTable {
    if names == [] then [] else StoreGifts(o, names[..|names| - 1]) + StoreGift(o, names[|names| - 1])
  }

  method AddStoreFacts(o: Objects, table: CapabilityTable, ghost xs: CapabilityTable)
    returns (r: Option<CapabilityTable>)
    requires table == MergedAll([], xs) && ConflictFree(xs)
    ensures r.Some? <==> ConflictFree(xs + StoreGifts(o, o.stores))
    ensures r.Some? ==> r.value == MergedAll([], xs + StoreGifts(o, o.stores))
  {
    hide MergedAll, ConflictFree;
    var more, i := table, 0;
    assert xs + StoreGifts(o, o.stores[..0]) == xs;
    while i < |o.stores|
      invariant i <= |o.stores| && ConflictFree(xs + StoreGifts(o, o.stores[..i]))
                && more == MergedAll([], xs + StoreGifts(o, o.stores[..i]))
    {
      var name := o.stores[i];
      var index := IndexOf(o.stores, name);
      StoreStep(o, xs, i);
      var next :=
        PushCapability(more, Entry(CapabilityKey(name, name, OBJECT_STORE, index.value), RIGHT_READ),
                       xs + StoreGifts(o, o.stores[..i]));
      if next.None? {
        return None;
      }
      more := next.value;
      i := i + 1;
    }
    assert o.stores[..i] == o.stores;
    return Some(more);
  }

  lemma StoreStep(o: Objects, xs: CapabilityTable, i: nat)
    requires i < |o.stores|
    ensures IndexOf(o.stores, o.stores[i]).Some?
    ensures var name := o.stores[i];
            var x := Entry(CapabilityKey(name, name, OBJECT_STORE, IndexOf(o.stores, name).value), RIGHT_READ);
            xs + StoreGifts(o, o.stores[..i + 1]) == xs + StoreGifts(o, o.stores[..i]) + [x]
    ensures ConflictFree(xs + StoreGifts(o, o.stores)) ==> ConflictFree(xs + StoreGifts(o, o.stores[..i + 1]))
  {
    assert o.stores[..i + 1][..i] == o.stores[..i];
    if ConflictFree(xs + StoreGifts(o, o.stores)) { StoresFree(o, xs, i + 1); }
  }

  lemma {:induction false} StoresFree(o: Objects, xs: CapabilityTable, n: nat)
    requires n <= |o.stores| && ConflictFree(xs + StoreGifts(o, o.stores))
    ensures ConflictFree(xs + StoreGifts(o, o.stores[..n]))
    decreases |o.stores| - n
  {
    hide StoreGift, ConflictFree;
    if n == |o.stores| {
      assert o.stores[..n] == o.stores;
    } else {
      StoresFree(o, xs, n + 1);
      assert o.stores[..n + 1][..n] == o.stores[..n];
      var front, last := xs + StoreGifts(o, o.stores[..n]), StoreGift(o, o.stores[n]);
      assert front + last == xs + StoreGifts(o, o.stores[..n + 1]);
      ConflictStays(front, last);
    }
  }

  // ----- Facts of the services -----

  /** The rights a need turns into. Endpoints can only be asked to send to. */
  function NeedMask(c: Capability, need: Need): Option<nat> {
    var mask := RightsMask(need.rights, c.rights);
    if c.kind == KIND_IPC_ENDPOINT && mask != Some(RIGHT_SEND) then None else mask
  }

  predicate NeedReads(m: Manifest, o: Objects, need: Need) {
    var c := FindCapability(m.capabilities, need.capability);
    c.Some? && (KeyOf(o, c.value).Some? ==> NeedMask(c.value, need).Some?)
  }

  function NeedGift(m: Manifest, o: Objects, service: Str, need: Need): RequirementTable {
    var c := FindCapability(m.capabilities, need.capability);
    if c.None? || KeyOf(o, c.value).None? || NeedMask(c.value, need).None? then []
    else [Entry(RequirementKey(service, c.value.id), NeedMask(c.value, need).value)]
  }

  function NeedGifts(m: Manifest, o: Objects, service: Str, needs: seq<Need>): RequirementTable {
    if needs == [] then []
    else NeedGifts(m, o, service, needs[..|needs| - 1]) + NeedGift(m, o, service, needs[|needs| - 1])
  }

  function ConfigGift(o: Objects, service: Str, config: Str): RequirementTable {
    if config in o.stores then [Entry(RequirementKey(service, config), RIGHT_READ)] else []
  }

  function ConfigGifts(o: Objects, service: Str, configs: seq<Str>): RequirementTable {
    if configs == [] then []
    else ConfigGifts(o, service, configs[..|configs| - 1]) + ConfigGift(o, service, configs[|configs| - 1])
  }

  predicate ServiceReads(m: Manifest, o: Objects, s: Service) {
    forall i :: 0 <= i < |s.needs| ==> NeedReads(m, o, s.needs[i])
  }

  function ServiceGift(m: Manifest, plan: Plan, s: Service): RequirementTable {
    if !Native(plan.processes, s.id) then []
    else NeedGifts(m, plan.objects, s.id, s.needs) + ConfigGifts(plan.objects, s.id, s.configs)
  }

  function ServiceGifts(m: Manifest, plan: Plan, ss: seq<Service>): RequirementTable {
    if ss == [] then [] else ServiceGifts(m, plan, ss[..|ss| - 1]) + ServiceGift(m, plan, ss[|ss| - 1])
  }

  method AddNeeds(m: Manifest, o: Objects, s: Service, table: RequirementTable, ghost xs: RequirementTable)
    returns (r: Option<RequirementTable>)
    requires table == MergedAll([], xs)
    ensures r.Some? <==> ServiceReads(m, o, s)
    ensures r.Some? ==> r.value == MergedAll([], xs + NeedGifts(m, o, s.id, s.needs))
  {
    hide MergedAll, KeyOf, NeedMask, FindCapability;
    var more, i := table, 0;
    assert xs + NeedGifts(m, o, s.id, s.needs[..0]) == xs;
    while i < |s.needs|
      invariant i <= |s.needs| && (forall j :: 0 <= j < i ==> NeedReads(m, o, s.needs[j]))
      invariant more == MergedAll([], xs + NeedGifts(m, o, s.id, s.needs[..i]))
    {
      var need := s.needs[i];
      NeedStep(m, o, s, xs, i);
      var c := FindCapability(m.capabilities, need.capability);
      if c.None? {
        assert !NeedReads(m, o, s.needs[i]);
        return None;
      }
      if KeyOf(o, c.value).Some? {
        var mask := NeedMask(c.value, need);
        if mask.None? {
          assert !NeedReads(m, o, s.needs[i]);
          return None;
        }
        var x := Entry(RequirementKey(s.id, c.value.id), mask.value);
        more := Push(more, x);
        MergedNext(xs + NeedGifts(m, o, s.id, s.needs[..i]), x);
      }
      i := i + 1;
    }
    assert s.needs[..i] == s.needs;
    return Some(more);
  }

  lemma NeedStep(m: Manifest, o: Objects, s: Service, xs: RequirementTable, i: nat)
    requires i < |s.needs|
    ensures xs + NeedGifts(m, o, s.id, s.needs[..i + 1]) == xs + NeedGifts(m, o, s.id, s.needs[..i])
                                                            + NeedGift(m, o, s.id, s.needs[i])
    ensures NeedGift(m, o, s.id, s.needs[i]) == [] ==>
              xs + NeedGifts(m, o, s.id, s.needs[..i + 1]) == xs + NeedGifts(m, o, s.id, s.needs[..i])
  {
    hide NeedGift;
    assert s.needs[..i + 1][..i] == s.needs[..i];
  }

  method AddConfigs(o: Objects, s: Service, table: RequirementTable, ghost xs: RequirementTable)
    returns (r: RequirementTable)
    requires table == MergedAll([], xs)
    ensures r == MergedAll([], xs + ConfigGifts(o, s.id, s.configs))
  {
    hide MergedAll;
    r := table;
    var i := 0;
    assert xs + ConfigGifts(o, s.id, s.configs[..0]) == xs;
    while i < |s.configs|
      invariant i <= |s.configs| && r == MergedAll([], xs + ConfigGifts(o, s.id, s.configs[..i]))
    {
      ConfigStep(o, s, xs, i);
      if s.configs[i] in o.stores {
        var x := Entry(RequirementKey(s.id, s.configs[i]), RIGHT_READ);
        r := Push(r, x);
        MergedNext(xs + ConfigGifts(o, s.id, s.configs[..i]), x);
      }
      i := i + 1;
    }
    assert s.configs[..i] == s.configs;
  }

  lemma ConfigStep(o: Objects, s: Service, xs: RequirementTable, i: nat)
    requires i < |s.configs|
    ensures xs + ConfigGifts(o, s.id, s.configs[..i + 1]) == xs + ConfigGifts(o, s.id, s.configs[..i])
                                                             + ConfigGift(o, s.id, s.configs[i])
    ensures ConfigGift(o, s.id, s.configs[i]) == [] ==>
              xs + ConfigGifts(o, s.id, s.configs[..i + 1]) == xs + ConfigGifts(o, s.id, s.configs[..i])
  {
    hide ConfigGift;
    assert s.configs[..i + 1][..i] == s.configs[..i];
  }

  method AddServiceNeeds(m: Manifest, plan: Plan, table: RequirementTable, ghost xs: RequirementTable)
    returns (r: Option<RequirementTable>)
    requires table == MergedAll([], xs)
    ensures r.Some? <==> forall i :: 0 <= i < |m.services| && Native(plan.processes, m.services[i].id) ==>
          ServiceReads(m, plan.objects, m.services[i])
    ensures r.Some? ==> r.value == MergedAll([], xs + ServiceGifts(m, plan, m.services))
  {
    hide MergedAll, ServiceReads, Native, NeedGifts, ConfigGifts;
    var more, i := table, 0;
    assert xs + ServiceGifts(m, plan, m.services[..0]) == xs;
    while i < |m.services|
      invariant i <= |m.services|
      invariant forall j :: 0 <= j < i && Native(plan.processes, m.services[j].id) ==>
            ServiceReads(m, plan.objects, m.services[j])
      invariant more == MergedAll([], xs + ServiceGifts(m, plan, m.services[..i]))
    {
      var s := m.services[i];
      ServiceStep(m, plan, xs, i);
      if Native(plan.processes, s.id) {
        ghost var before := xs + ServiceGifts(m, plan, m.services[..i]);
        var next := AddNeeds(m, plan.objects, s, more, before);
        if next.None? {
          return None;
        }
        more := AddConfigs(plan.objects, s, next.value, before + NeedGifts(m, plan.objects, s.id, s.needs));
      }
      i := i + 1;
    }
    assert m.services[..i] == m.services;
    return Some(more);
  }

  lemma ServiceStep(m: Manifest, plan: Plan, xs: RequirementTable, i: nat)
    requires i < |m.services|
    ensures var s := m.services[i];
            xs + ServiceGifts(m, plan, m.services[..i + 1])
            == if Native(plan.processes, s.id)
            then xs + ServiceGifts(m, plan, m.services[..i]) + NeedGifts(m, plan.objects, s.id, s.needs)
                       + ConfigGifts(plan.objects, s.id, s.configs)
            else xs + ServiceGifts(m, plan, m.services[..i])
  {
    hide NeedGifts, ConfigGifts, Native;
    assert m.services[..i + 1][..i] == m.services[..i];
  }
}
