/** What the boot compiler emits, the kernel's policy check accepts. */
module CompilerPolicy {
  import opened Bits
  import opened Results
  import opened BootRecords
  import opened Manifests
  import opened BootPayload
  import opened PolicyTerms
  import opened FactTables
  import opened CompilerFacts
  import opened CompilerPaths
  import opened CompilerGrants
  import opened KernelPolicy

  datatype Facts = Facts(capabilities: CapabilityTable, requirements: RequirementTable, paths: PathTable)

  /** Everything that goes into the capability facts. `later` stands for what provided endpoints, secrets and
      drivers add. */
  function CapabilityInput(m: Manifest, plan: Plan, later: CapabilityTable): CapabilityTable {
    CapabilityGifts(plan, m.capabilities) + StoreGifts(plan.objects, plan.objects.stores) + later
  }

  function RequirementInput(m: Manifest, plan: Plan, later: RequirementTable): RequirementTable {
    PortNeeds(plan, m.capabilities) + ServiceGifts(m, plan, m.services) + later
  }

  ghost predicate Derivable(m: Manifest, plan: Plan, later: CapabilityTable) {
    && (forall i :: 0 <= i < |m.capabilities| ==> CapabilityReads(plan, m.capabilities[i]))
    && ConflictFree(CapabilityInput(m, plan, later))
    && (forall i :: 0 <= i < |m.services| && Native(plan.processes, m.services[i].id) ==>
          ServiceReads(m, plan.objects, m.services[i]))
    && (forall i :: 0 <= i < |plan.grants| ==> PathReads(plan, plan.grants[i]))
  }

  method PushCapabilities(table: CapabilityTable, later: CapabilityTable, ghost xs: CapabilityTable)
    returns (r: Option<CapabilityTable>)
    requires table == MergedAll([], xs) && ConflictFree(xs)
    ensures r.Some? <==> ConflictFree(xs + later)
    ensures r.Some? ==> r.value == MergedAll([], xs + later)
  {
    hide MergedAll, ConflictFree;
    var more, i := table, 0;
    assert xs + later[..0] == xs;
    while i < |later|
      invariant i <= |later| && ConflictFree(xs + later[..i]) && more == MergedAll([], xs + later[..i])
    {
      assert xs + later[..i] + [later[i]] == xs + later[..i + 1];
      var next := PushCapability(more, later[i], xs + later[..i]);
      if next.None? {
        assert xs + later[..i + 1] + later[i + 1..] == xs + later;
        if ConflictFree(xs + later) { ConflictStays(xs + later[..i + 1], later[i + 1..]); }
        return None;
      }
      more := next.value;
      i := i + 1;
    }
    assert later[..i] == later;
    return Some(more);
  }

  method PushRequirements(table: RequirementTable, later: RequirementTable, ghost xs: RequirementTable)
    returns (r: RequirementTable)
    requires table == MergedAll([], xs)
    ensures r == MergedAll([], xs + later)
  {
    hide MergedAll;
    r := table;
    var i := 0;
    assert xs + later[..0] == xs;
    while i < |later|
      invariant i <= |later| && r == MergedAll([], xs + later[..i])
    {
      assert xs + later[..i] + [later[i]] == xs + later[..i + 1];
      MergedNext(xs + later[..i], later[i]);
      r := Push(r, later[i]);
      i := i + 1;
    }
    assert later[..i] == later;
  }

  /** Derives the facts of a plan. */
  method DerivePolicyFacts(m: Manifest, plan: Plan, laterFacts: CapabilityTable, laterNeeds: RequirementTable)
    returns (r: Option<Facts>)
    ensures r.Some? <==> Derivable(m, plan, laterFacts)
    ensures r.Some? ==> r.value.capabilities == MergedAll([], CapabilityInput(m, plan, laterFacts))
                        && r.value.requirements == MergedAll([], RequirementInput(m, plan, laterNeeds))
                        && r.value.paths == MergedAll([], PathGifts(plan, plan.grants))
  {
    hide MergedAll, ConflictFree, CapabilityReads, ServiceReads, PathReads, CapabilityGifts, StoreGifts, PortNeeds,
         ServiceGifts, PathGifts, Native;
    ghost var declared := CapabilityGifts(plan, m.capabilities);
    ghost var stores := StoreGifts(plan.objects, plan.objects.stores);
    if ConflictFree(declared + stores + laterFacts) { ConflictStays(declared + stores, laterFacts); }
    if ConflictFree(declared + stores) { ConflictStays(declared, stores); }
    var first := AddCapabilityFacts(plan, m.capabilities);
    if first.None? {
      return None;
    }
    var table := AddStoreFacts(plan.objects, first.value.0, declared);
    if table.None? {
      return None;
    }
    var needs := AddServiceNeeds(m, plan, first.value.1, PortNeeds(plan, m.capabilities));
    if needs.None? {
      return None;
    }
    var paths := AddStatePathFacts(plan);
    if paths.None? {
      return None;
    }
    table := PushCapabilities(table.value, laterFacts, declared + stores);
    if table.None? {
      return None;
    }
    var requirements :=
      PushRequirements(needs.value, laterNeeds, PortNeeds(plan, m.capabilities) + ServiceGifts(m, plan, m.services));
    return Some(Facts(table.value, requirements, paths.value));
  }

  // ----- What a grant comes from -----

  /** Where a grant of the services comes from: a need, or a config. */
  datatype Origin = FromNeed(service: nat, need: nat) | FromConfig(service: nat, config: nat)

  ghost predicate OriginOk(m: Manifest, processes: seq<Process>, root: Str, g: PlanGrant, from: Origin) {
    && from.service < |m.services| && Granted(processes, root, m.services[from.service])
    && var s := m.services[from.service];
    var process := ProcessFor(processes, s.id).value;
    match from
    case FromNeed(_, j) => j < |s.needs| && NeedGrant(m, process, s.needs[j]) == [g]
    case FromConfig(_, j) => j < |s.configs| && g == PlanGrant(process, OBJECT_STORE, s.configs[j], RIGHT_READ)
  }

  lemma {:induction false} NeedOrigin(m: Manifest, process: Str, needs: seq<Need>, g: PlanGrant) returns (j: nat)
    requires g in NeedGrants(m, process, needs)
    ensures j < |needs| && NeedGrant(m, process, needs[j]) == [g]
  {
    hide FindCapability, RightsMask, ObjectName, Grantable;
    var n := |needs| - 1;
    if g in NeedGrant(m, process, needs[n]) {
      j := n;
    } else {
      j := NeedOrigin(m, process, needs[..n], g);
    }
  }

  lemma {:induction false} GrantOrigin(m: Manifest, processes: seq<Process>, root: Str, n: nat, g: PlanGrant)
    returns (from: Origin)
    requires n <= |m.services| && g in AllGrants(m, processes, root, m.services[..n])
    ensures OriginOk(m, processes, root, g, from)
  {
    hide NeedGrants, NeedGrant;
    var s := m.services[n - 1];
    assert m.services[..n][..n - 1] == m.services[..n - 1];
    if g in ServiceGrants(m, processes, root, s) {
      var process := ProcessFor(processes, s.id).value;
      if g in NeedGrants(m, process, s.needs) {
        var j := NeedOrigin(m, process, s.needs, g);
        from := FromNeed(n - 1, j);
      } else {
        var j :| 0 <= j < |s.configs| && ConfigGrants(process, s.configs)[j] == g;
        from := FromConfig(n - 1, j);
      }
    } else {
      from := GrantOrigin(m, processes, root, n - 1, g);
    }
  }

  // ----- Masks are narrow -----

  lemma {:induction false} MaskNarrow(rights: seq<Str>)
    ensures RawMask(rights).Some? ==> RawMask(rights).value < Pow2(16)
  {
    hide RightNamed, Pow2, Or;
    if rights != [] && RawMask(rights).Some? {
      var n := |rights| - 1;
      MaskNarrow(rights[..n]);
      OrHolds(RawMask(rights[..n]).value, RightNamed(rights[n]).value, 16);
    } else {
      SmallNarrow();
    }
  }

  lemma {:induction false} DeclaredNarrow(plan: Plan, cs: seq<Capability>)
    ensures Narrow(CapabilityGifts(plan, cs)) && Narrow(PortNeeds(plan, cs))
  {
    hide KeyOf, ServedPort, Pow2, RawMask;
    if cs != [] {
      DeclaredNarrow(plan, cs[..|cs| - 1]);
      MaskNarrow(cs[|cs| - 1].rights);
      SmallNarrow();
    }
  }

  lemma {:induction false} StoresNarrow(o: Objects, names: seq<Str>)
    ensures Narrow(StoreGifts(o, names))
  {
    hide Pow2;
    SmallNarrow();
    if names != [] { StoresNarrow(o, names[..|names| - 1]); }
  }

  lemma {:induction false} NeedsNarrow(m: Manifest, o: Objects, service: Str, needs: seq<Need>)
    ensures Narrow(NeedGifts(m, o, service, needs))
  {
    hide KeyOf, FindCapability, Pow2, RawMask, Within;
    if needs != [] {
      var n := |needs| - 1;
      NeedsNarrow(m, o, service, needs[..n]);
      MaskNarrow(needs[n].rights);
      var c := FindCapability(m.capabilities, needs[n].capability);
      if c.Some? { MaskNarrow(c.value.rights); }
    }
  }

  lemma {:induction false} ConfigsNarrow(o: Objects, service: Str, configs: seq<Str>)
    ensures Narrow(ConfigGifts(o, service, configs))
  {
    hide Pow2;
    SmallNarrow();
    if configs != [] { ConfigsNarrow(o, service, configs[..|configs| - 1]); }
  }

  lemma {:induction false} ServicesNarrow(m: Manifest, plan: Plan, ss: seq<Service>)
    ensures Narrow(ServiceGifts(m, plan, ss))
  {
    hide Pow2, NeedGifts, ConfigGifts, Native;
    if ss != [] {
      var s := ss[|ss| - 1];
      ServicesNarrow(m, plan, ss[..|ss| - 1]);
      NeedsNarrow(m, plan.objects, s.id, s.needs);
      ConfigsNarrow(plan.objects, s.id, s.configs);
    }
  }

  lemma InputNarrow(m: Manifest, plan: Plan, laterFacts: CapabilityTable, laterNeeds: RequirementTable)
    requires Narrow(laterFacts) && Narrow(laterNeeds)
    ensures Narrow(CapabilityInput(m, plan, laterFacts)) && Narrow(RequirementInput(m, plan, laterNeeds))
  {
    hide CapabilityGifts, StoreGifts, PortNeeds, ServiceGifts, Pow2;
    DeclaredNarrow(plan, m.capabilities);
    StoresNarrow(plan.objects, plan.objects.stores);
    ServicesNarrow(m, plan, m.services);
  }

  // ----- What every need leaves in the facts -----

  lemma {:induction false} GiftIn(plan: Plan, cs: seq<Capability>, c: Capability, x: Entry<CapabilityKey>)
    requires c in cs && x in CapabilityGift(plan, c)
    ensures x in CapabilityGifts(plan, cs)
  {
    hide CapabilityGift;
    if c != cs[|cs| - 1] { GiftIn(plan, cs[..|cs| - 1], c, x); }
  }

  lemma {:induction false} StoreIn(o: Objects, names: seq<Str>, name: Str)
    requires name in names
    ensures forall x :: x in StoreGift(o, name) ==> x in StoreGifts(o, names)
  {
    hide StoreGift;
    if name != names[|names| - 1] { StoreIn(o, names[..|names| - 1], name); }
  }

  lemma {:induction false} NeedIn(m: Manifest, o: Objects, service: Str, needs: seq<Need>, j: nat)
    requires j < |needs|
    ensures forall x :: x in NeedGift(m, o, service, needs[j]) ==> x in NeedGifts(m, o, service, needs)
  {
    hide NeedGift;
    if j < |needs| - 1 { NeedIn(m, o, service, needs[..|needs| - 1], j); }
  }

  lemma {:induction false} ConfigIn(o: Objects, service: Str, configs: seq<Str>, j: nat)
    requires j < |configs|
    ensures forall x :: x in ConfigGift(o, service, configs[j]) ==> x in ConfigGifts(o, service, configs)
  {
    hide ConfigGift;
    if j < |configs| - 1 { ConfigIn(o, service, configs[..|configs| - 1], j); }
  }

  lemma {:induction false} ServiceIn(m: Manifest, plan: Plan, ss: seq<Service>, k: nat)
    requires k < |ss|
    ensures forall x :: x in ServiceGift(m, plan, ss[k]) ==> x in ServiceGifts(m, plan, ss)
  {
    hide ServiceGift;
    if k < |ss| - 1 { ServiceIn(m, plan, ss[..|ss| - 1], k); }
  }

  // ----- The emitted payload -----

  ghost predicate GrantEmitted(plan: Plan, g: PlanGrant, e: Grant) {
    && ProcessNamed(plan.processes, g.process) == Some(e.processIndex) && e.objectKind == g.objectKind
    && ObjectIndex(plan.objects, g.objectKind, g.objectName) == Some(e.objectIndex) && e.rights == g.rights
  }

  function CapabilityFact(e: Entry<CapabilityKey>): PolicyCapability {
    PolicyCapability(e.key.id, e.key.provider, e.key.objectKind, e.key.objectIndex, e.rights)
  }

  function RequirementFact(e: Entry<RequirementKey>): PolicyRequirement {
    PolicyRequirement(e.key.service, e.key.capability, e.rights)
  }

  function StatePathFact(e: Entry<PathKey>): PolicyStatePath {
    PolicyStatePath(e.key.service, e.key.state, e.key.root, e.rights)
  }

  /** A payload that carries a plan and its facts: names become indexes. */
  ghost predicate Emitted(p: Payload, plan: Plan, facts: Facts) {
    && p.processes == plan.processes && p.roots == plan.objects.roots && p.states == plan.states
    && |p.grants| == |plan.grants|
    && (forall i :: 0 <= i < |p.grants| ==> GrantEmitted(plan, plan.grants[i], p.grants[i]))
    && |p.capabilities| == |facts.capabilities|
    && (forall i :: 0 <= i < |p.capabilities| ==> p.capabilities[i] == CapabilityFact(facts.capabilities[i]))
    && |p.requirements| == |facts.requirements|
    && (forall i :: 0 <= i < |p.requirements| ==> p.requirements[i] == RequirementFact(facts.requirements[i]))
    && |p.statePaths| == |facts.paths|
    && (forall i :: 0 <= i < |p.statePaths| ==> p.statePaths[i] == StatePathFact(facts.paths[i]))
  }

  lemma HeldHasEntry<K>(table: seq<Entry<K>>, key: K, rights: nat) returns (i: nat)
    requires Allowed(rights, Lookup(table, key)) && 0 != rights < Pow2(16)
    ensures i < |table| && table[i].key == key && Allowed(rights, table[i].rights)
  {
    hide Within, Lookup, Pow2;
    if Lookup(table, key) == 0 { WithinNothing(rights, 16); }
    i := EntryOf(table, key);
  }

  /** A capability and a requirement in the facts speak for a grant. */
  lemma Spoken(p: Payload, plan: Plan, facts: Facts, service: Str, g: Grant, key: CapabilityKey)
    requires Emitted(p, plan, facts) && 0 != g.rights < Pow2(16) && g.objectKind != OBJECT_ENDPOINT
    requires key.objectKind == g.objectKind && key.objectIndex == g.objectIndex
             && Allowed(g.rights, Lookup(facts.capabilities, key))
    requires Allowed(g.rights, Lookup(facts.requirements, RequirementKey(service, key.id)))
    ensures SpokenFor(p, service, g)
  {
    hide Within, Lookup, Pow2, GrantEmitted;
    var i := HeldHasEntry(facts.capabilities, key, g.rights);
    var j := HeldHasEntry(facts.requirements, RequirementKey(service, key.id), g.rights);
    assert p.requirements[j] == RequirementFact(facts.requirements[j]);
    assert p.capabilities[i] == CapabilityFact(facts.capabilities[i]);
    assert RequirementAllows(p, service, key.id, g.rights);
    assert Speaks(p, service, g, p.capabilities[i]);
  }

  /** The kinds needs are granted for are not endpoints. */
  lemma NotEndpoint(c: Capability)
    requires Grantable(c.kind)
    ensures c.kind != KIND_IPC_ENDPOINT && ObjectName(c).Some? && ObjectName(c).value.0 != OBJECT_ENDPOINT
  {
    assert KIND_IPC_ENDPOINT[0] == 105 && KIND_STORE_OBJECT[0] == 115 && KIND_NETWORK_PORT[0] == 110;
    assert |KIND_IPC_ENDPOINT| == 12 && |KIND_TIMER| == 5 && |KIND_NAMESPACE| == 9 && |KIND_VFS_ROOT| == 8
           && |KIND_IO_PORT| == 7;
    assert |KIND_MMIO_REGION| == 11 && |KIND_FRAMEBUFFER| == 11 && |KIND_INTERRUPT_LINE| == 14
           && |KIND_DMA_REGION| == 10;
  }

  /** A granted need leaves a capability fact and a requirement fact behind it. */
  lemma NeedHeld(m: Manifest, plan: Plan, laterFacts: CapabilityTable, laterNeeds: RequirementTable, k: nat, j: nat,
                 g: PlanGrant, index: nat)
    returns (key: CapabilityKey)
    requires Derivable(m, plan, laterFacts) && Narrow(laterFacts) && Narrow(laterNeeds)
    requires k < |m.services| && j < |m.services[k].needs| && Native(plan.processes, m.services[k].id)
    requires NeedGrant(m, g.process, m.services[k].needs[j]) == [g]
             && ObjectIndex(plan.objects, g.objectKind, g.objectName) == Some(index)
    ensures key.objectKind == g.objectKind != OBJECT_ENDPOINT && key.objectIndex == index && 0 != g.rights < Pow2(16)
    ensures Allowed(g.rights, Lookup(MergedAll([], CapabilityInput(m, plan, laterFacts)), key))
    ensures Allowed(g.rights,
                    Lookup(MergedAll([], RequirementInput(m, plan, laterNeeds)),
                           RequirementKey(m.services[k].id, key.id)))
  {
    var s, need := m.services[k], m.services[k].needs[j];
    var c := FindCapability(m.capabilities, need.capability).value;
    hide ObjectName, ObjectIndex, FindCapability, RightsMask, DeclaredMask, Grantable, MergedAll, Lookup, Within, Pow2,
         ServedPort, Native, ConflictFree, PathReads, CapabilityGifts, StoreGifts, PortNeeds, ServiceGifts, NeedGifts,
         ConfigGifts;
    NotEndpoint(c);
    key := CapabilityKey(c.id, c.provider, g.objectKind, index);
    assert KeyOf(plan.objects, c) == Some(key);
    var mask := DeclaredMask(c.rights).value;
    var x, y := Entry(key, mask), Entry(RequirementKey(s.id, c.id), g.rights);
    InputNarrow(m, plan, laterFacts, laterNeeds);
    assert x in CapabilityGift(plan, c);
    GiftIn(plan, m.capabilities, c, x);
    AllHeld(CapabilityInput(m, plan, laterFacts), x);
    WithinTrans(g.rights, mask, Lookup(MergedAll([], CapabilityInput(m, plan, laterFacts)), key), 16);
    assert y in NeedGift(m, plan.objects, s.id, need);
    NeedIn(m, plan.objects, s.id, s.needs, j);
    assert y in ServiceGift(m, plan, s);
    ServiceIn(m, plan, m.services, k);
    assert y in RequirementInput(m, plan, laterNeeds);
    AllHeld(RequirementInput(m, plan, laterNeeds), y);
  }

  lemma ConfigHeld(m: Manifest, plan: Plan, laterFacts: CapabilityTable, laterNeeds: RequirementTable, k: nat, j: nat,
                   index: nat)
    requires Narrow(laterFacts) && Narrow(laterNeeds)
    requires k < |m.services| && j < |m.services[k].configs| && Native(plan.processes, m.services[k].id)
    requires ObjectIndex(plan.objects, OBJECT_STORE, m.services[k].configs[j]) == Some(index)
    ensures var config := m.services[k].configs[j];
            && Allowed(RIGHT_READ,
                       Lookup(MergedAll([], CapabilityInput(m, plan, laterFacts)),
                              CapabilityKey(config, config, OBJECT_STORE, index)))
            && Allowed(RIGHT_READ,
                       Lookup(MergedAll([], RequirementInput(m, plan, laterNeeds)),
                              RequirementKey(m.services[k].id, config)))
  {
    var s, config := m.services[k], m.services[k].configs[j];
    hide MergedAll, Lookup, Within, Pow2, Native, CapabilityGifts, StoreGifts, PortNeeds, ServiceGifts, NeedGifts,
         ConfigGifts;
    var x, y := Entry(CapabilityKey(config, config, OBJECT_STORE, index), RIGHT_READ),
                Entry(RequirementKey(s.id, config), RIGHT_READ);
    InputNarrow(m, plan, laterFacts, laterNeeds);
    assert x in StoreGift(plan.objects, config);
    StoreIn(plan.objects, plan.objects.stores, config);
    assert x in CapabilityInput(m, plan, laterFacts);
    AllHeld(CapabilityInput(m, plan, laterFacts), x);
    assert y in ConfigGift(plan.objects, s.id, config);
    ConfigIn(plan.objects, s.id, s.configs, j);
    assert y in ServiceGift(m, plan, s);
    ServiceIn(m, plan, m.services, k);
    assert y in RequirementInput(m, plan, laterNeeds);
    AllHeld(RequirementInput(m, plan, laterNeeds), y);
  }

  // ----- VFS roots -----

  /** Every root of a plan is the root of the capability it is named after. */
  ghost predicate RootsDeclared(m: Manifest, roots: seq<VfsRoot>) {
    forall i :: 0 <= i < |roots| ==>
                  var c := FindCapability(m.capabilities, roots[i].id);
                  c.Some? && c.value.root == Some(roots[i].rootPath)
  }

  lemma {:induction false} NamedAgain(cs: seq<Capability>, id: Str)
    ensures FindCapability(cs, id).Some? ==>
              FindCapability(cs, FindCapability(cs, id).value.id) == FindCapability(cs, id)
  {
    if cs != [] && cs[0].id != id { NamedAgain(cs[1..], id); }
  }

  lemma {:induction false} NeedsDeclared(m: Manifest, o: Objects, needs: seq<Need>)
    requires RootsDeclared(m, o.roots)
    ensures RootsDeclared(m, WithNeeds(m, o, needs).roots)
  {
    hide FindCapability;
    if needs != [] {
      var n := |needs| - 1;
      NeedsDeclared(m, o, needs[..n]);
      NamedAgain(m.capabilities, needs[n].capability);
    }
  }

  lemma {:induction false} ConfigsKeepRoots(o: Objects, configs: seq<Str>)
    ensures WithConfigs(o, configs).roots == o.roots
  {
    if configs != [] { ConfigsKeepRoots(o, configs[..|configs| - 1]); }
  }

  lemma {:induction false} ServicesDeclared(m: Manifest, processes: seq<Process>, root: Str, o: Objects,
                                            ss: seq<Service>)
    requires RootsDeclared(m, o.roots)
    ensures RootsDeclared(m, WithServices(m, processes, root, o, ss).roots)
  {
    hide Granted, RootsDeclared, WithNeeds, WithConfigs;
    if ss != [] {
      var before, s := WithServices(m, processes, root, o, ss[..|ss| - 1]), ss[|ss| - 1];
      ServicesDeclared(m, processes, root, o, ss[..|ss| - 1]);
      NeedsDeclared(m, before, s.needs);
      ConfigsKeepRoots(WithNeeds(m, before, s.needs), s.configs);
    }
  }

  /** What the compiler knows of a plan it lets through. */
  ghost predicate PlanOk(m: Manifest, root: Str, plan: Plan, o: Objects) {
    && (forall i, j :: 0 <= i < j < |plan.processes| ==> plan.processes[i].name != plan.processes[j].name)
    && (forall i :: 0 <= i < |plan.processes| ==> plan.processes[i].serviceId != [])
    && |plan.states| == |m.states| && (forall i :: 0 <= i < |m.states| ==> StateKept(m.states[i], plan.states[i]))
    && o.roots == [] && plan.objects.roots == WithServices(m, plan.processes, root, o, m.services).roots
  }

  ghost predicate StateKept(x: State, y: StateVolume) {
    y.id == x.id && y.owner == x.owner && x.sharing.mode == Some(y.sharingPolicy) && MountComponent(y.id).Some?
  }

  lemma {:induction false} ServedBy(processes: seq<Process>, service: Str) returns (i: nat)
    requires ProcessFor(processes, service).Some?
    ensures i < |processes| && processes[i].serviceId == service
            && processes[i].name == ProcessFor(processes, service).value
  {
    if processes[0].serviceId == service {
      i := 0;
    } else {
      i := ServedBy(processes[1..], service);
      i := i + 1;
    }
  }

  /** The process a grant is emitted to runs the service it was derived for. */
  lemma EmittedService(plan: Plan, service: Str, index: nat)
    requires (forall i, j :: 0 <= i < j < |plan.processes| ==> plan.processes[i].name != plan.processes[j].name)
    requires (forall i :: 0 <= i < |plan.processes| ==> plan.processes[i].serviceId != [])
    requires ProcessFor(plan.processes, service).Some?
             && ProcessNamed(plan.processes, ProcessFor(plan.processes, service).value) == Some(index)
    ensures index < |plan.processes| && ServiceOf(plan.processes[index]) == service == NodeId(plan.processes[index])
  {
    hide ProcessFor, ProcessNamed;
    var i := ServedBy(plan.processes, service);
  }

  lemma {:induction false} VolumeIn(states: seq<StateVolume>, service: Str, root: Str, rights: nat, k: nat)
    requires k < |states| && Reaches(root, states[k].id)
    ensures Entry(PathKey(service, states[k].id, root), rights) in VolumeGifts(states, service, root, rights)
  {
    hide Reaches;
    if k < |states| - 1 { VolumeIn(states[..|states| - 1], service, root, rights, k); }
  }

  lemma {:induction false} PathIn(plan: Plan, grants: seq<PlanGrant>, i: nat)
    requires i < |grants|
    ensures forall x :: x in PathGift(plan, grants[i]) ==> x in PathGifts(plan, grants)
  {
    hide PathGift;
    if i < |grants| - 1 { PathIn(plan, grants[..|grants| - 1], i); }
  }

  lemma {:induction false} VolumesNarrow(states: seq<StateVolume>, service: Str, root: Str, rights: nat)
    requires rights < Pow2(16)
    ensures Narrow(VolumeGifts(states, service, root, rights))
  {
    hide Pow2, Reaches;
    if states != [] { VolumesNarrow(states[..|states| - 1], service, root, rights); }
  }

  ghost predicate GrantsNarrow(grants: seq<PlanGrant>) {
    forall i :: 0 <= i < |grants| ==> grants[i].rights < Pow2(16)
  }

  lemma {:induction false} PathsNarrow(plan: Plan, grants: seq<PlanGrant>)
    requires GrantsNarrow(grants)
    ensures Narrow(PathGifts(plan, grants))
  {
    hide Pow2, VolumeGifts, ProcessNamed, RootOf;
    if grants != [] {
      var n := |grants| - 1;
      PathsNarrow(plan, grants[..n]);
      var x, root := ProcessNamed(plan.processes, grants[n].process), RootOf(plan, grants[n]);
      if x.Some?
         && root.Some? { VolumesNarrow(plan.states, NodeId(plan.processes[x.value]), root.value, grants[n].rights); }
    }
  }

  /** A VFS-root grant leaves a state-path fact for every volume it reaches. */
  lemma PathHeld(p: Payload, plan: Plan, facts: Facts, i: nat, root: Str, k: nat)
    requires Emitted(p, plan, facts) && facts.paths == MergedAll([], PathGifts(plan, plan.grants))
             && GrantsNarrow(plan.grants)
    requires i < |plan.grants| && plan.grants[i].objectKind == OBJECT_VFS_ROOT && plan.grants[i].rights != 0
    requires RootOf(plan, plan.grants[i]) == Some(root) && k < |plan.states| && Reaches(root, plan.states[k].id)
    ensures p.grants[i].processIndex < |plan.processes|
    ensures StatePathAllows(p, NodeId(plan.processes[p.grants[i].processIndex]), plan.states[k].id, root,
                            plan.grants[i].rights)
  {
    hide MergedAll, Lookup, Within, Pow2, PathGifts, VolumeGifts, ProcessNamed, RootOf, Reaches, ObjectIndex;
    var g := plan.grants[i];
    assert GrantEmitted(plan, g, p.grants[i]);
    var service := NodeId(plan.processes[p.grants[i].processIndex]);
    var key := PathKey(service, plan.states[k].id, root);
    VolumeIn(plan.states, service, root, g.rights, k);
    assert Entry(key, g.rights) in PathGift(plan, g);
    PathIn(plan, plan.grants, i);
    PathsNarrow(plan, plan.grants);
    AllHeld(PathGifts(plan, plan.grants), Entry(key, g.rights));
    var j := HeldHasEntry(facts.paths, key, g.rights);
    assert p.statePaths[j] == StatePathFact(facts.paths[j]);
  }

  // ----- The compiler and the kernel agree -----

  /** Everything a successful compilation establishes. */
  ghost predicate Compiled(p: Payload, m: Manifest, root: Str, plan: Plan, o: Objects, resolves: Capability -> bool,
                           laterFacts: CapabilityTable, laterNeeds: RequirementTable, facts: Facts) {
    && PlanOk(m, root, plan, o) && GrantsNarrow(plan.grants) && Narrow(laterFacts) && Narrow(laterNeeds)
    && (forall i :: 0 <= i < |m.services| && Granted(plan.processes, root, m.services[i]) ==>
          ServiceGrantable(m, m.services[i], resolves))
    && Derivable(m, plan, laterFacts)
    && facts.capabilities == MergedAll([], CapabilityInput(m, plan, laterFacts))
    && facts.requirements == MergedAll([], RequirementInput(m, plan, laterNeeds))
    && facts.paths == MergedAll([], PathGifts(plan, plan.grants))
    && Emitted(p, plan, facts)
  }

  lemma NotOwnerOnly()
    ensures EXPLICIT != OWNER_ONLY
  {
    assert |EXPLICIT| == 8 && |OWNER_ONLY| == 10;
  }

  /** The root behind a granted VFS-root need, and what the compiler checked about it. */
  lemma NeedRoot(m: Manifest, root: Str, plan: Plan, o: Objects, resolves: Capability -> bool, k: nat, j: nat,
                 g: PlanGrant)
    returns (path: Str)
    requires PlanOk(m, root, plan, o) && k < |m.services| && j < |m.services[k].needs|
    requires NeedGrantable(m, m.services[k].id, m.services[k].needs[j], resolves)
    requires NeedGrant(m, g.process, m.services[k].needs[j]) == [g] && g.objectKind == OBJECT_VFS_ROOT
    requires RootIndex(plan.objects.roots, g.objectName).Some?
    ensures RootOf(plan, g) == Some(path) && PlanPathOk(path) && VfsGrantOk(m, m.services[k].id, path, g.rights)
  {
    hide VfsGrantOk, RightsMask, WithServices, StateKept, PlanPathOk;
    var need := m.services[k].needs[j];
    var c := FindCapability(m.capabilities, need.capability).value;
    NamedAgain(m.capabilities, need.capability);
    hide FindCapability;
    assert c.kind == KIND_VFS_ROOT && g.objectName == c.id by { VfsKind(c); }
    ServicesDeclared(m, plan.processes, root, o, m.services);
    var index := RootIndex(plan.objects.roots, g.objectName).value;
    path := plan.objects.roots[index].rootPath;
    assert plan.objects.roots[index].id == c.id;
  }

  lemma VfsKind(c: Capability)
    requires ObjectName(c).Some? && ObjectName(c).value.0 == OBJECT_VFS_ROOT
    ensures c.kind == KIND_VFS_ROOT && ObjectName(c).value.1 == c.id
  {}

  /** A VFS-root need is granted only where the kernel will find it allowed. */
  lemma VolumesAllowed(p: Payload, m: Manifest, root: Str, plan: Plan, o: Objects, facts: Facts, i: nat, service: Str,
                       path: Str)
    requires PlanOk(m, root, plan, o) && GrantsNarrow(plan.grants) && Emitted(p, plan, facts)
    requires facts.paths == MergedAll([], PathGifts(plan, plan.grants))
    requires i < |plan.grants| && plan.grants[i].objectKind == OBJECT_VFS_ROOT && plan.grants[i].rights != 0
    requires RootOf(plan, plan.grants[i]) == Some(path) && VfsGrantOk(m, service, path, plan.grants[i].rights)
    requires p.grants[i].processIndex < |plan.processes| && NodeId(plan.processes[p.grants[i].processIndex]) == service
    ensures VolumesOk(p, service, p.grants[i])
  {
    hide MergedAll, PathGifts, RootReads, Reaches, CoveredBy, Shares, WithServices, StatePathAllows, MountComponent,
         Pow2;
    var g, e := plan.grants[i], p.grants[i];
    assert GrantEmitted(plan, g, e);
    assert p.roots[e.objectIndex].rootPath == path;
    forall k | 0 <= k < |p.states|
      ensures VolumeOk(p, service, path, e.rights, p.states[k])
    {
      assert StateKept(m.states[k], plan.states[k]);
      SameReach(path, p.states[k].id);
      if Reaches(path, p.states[k].id) {
        PathHeld(p, plan, facts, i, path, k);
        NotOwnerOnly();
        assert OwnerOk(p.states[k], service) by { SharedIsExplicit(m.states[k], service, e.rights, path); }
      }
    }
  }

  lemma SharedIsExplicit(x: State, service: Str, rights: nat, root: Str)
    ensures Shares(x, service, rights, root) ==> x.sharing.mode == Some(EXPLICIT)
  {}

  /** Every grant a service gets for its needs or configs passes the kernel's policy check. */
  lemma GrantsAuthorized(p: Payload, m: Manifest, root: Str, plan: Plan, o: Objects, resolves: Capability -> bool,
                         laterFacts: CapabilityTable, laterNeeds: RequirementTable, facts: Facts, i: nat)
    requires Compiled(p, m, root, plan, o, resolves, laterFacts, laterNeeds, facts)
    requires i < |plan.grants| && plan.grants[i] in AllGrants(m, plan.processes, root, m.services)
    ensures Authorized(p, p.grants[i])
  {
    hide AllGrants, OriginOk, Derivable, MergedAll, CapabilityInput, RequirementInput, PathGifts, NeedGrant, Pow2,
         ObjectIndex, Speaks, SpokenFor, VolumesOk, ServiceGrantable, WithServices, StateKept, Builtin;
    var g, e := plan.grants[i], p.grants[i];
    assert m.services[..|m.services|] == m.services;
    var from := GrantOrigin(m, plan.processes, root, |m.services|, g);
    var s := OriginService(m, plan, root, g, from);
    assert GrantEmitted(plan, g, e);
    EmittedService(plan, s.id, e.processIndex);
    if from.FromNeed? {
      NeedAuthorized(p, m, root, plan, o, resolves, laterFacts, laterNeeds, facts, i, from.service, from.need);
    } else {
      ConfigAuthorized(p, m, root, plan, o, resolves, laterFacts, laterNeeds, facts, i, from.service, from.config);
    }
  }

  lemma OriginService(m: Manifest, plan: Plan, root: Str, g: PlanGrant, from: Origin) returns (s: Service)
    requires OriginOk(m, plan.processes, root, g, from)
    ensures from.service < |m.services| && s == m.services[from.service] && Granted(plan.processes, root, s)
    ensures g.process == ProcessFor(plan.processes, s.id).value
    ensures from.FromNeed? ==> from.need < |s.needs| && NeedGrant(m, g.process, s.needs[from.need]) == [g]
    ensures from.FromConfig? ==>
              from.config < |s.configs| && g == PlanGrant(g.process, OBJECT_STORE, s.configs[from.config], RIGHT_READ)
  {
    hide FindCapability, Grantable, ObjectName, RightsMask;
    s := m.services[from.service];
  }

  lemma NeedAuthorized(p: Payload, m: Manifest, root: Str, plan: Plan, o: Objects, resolves: Capability -> bool,
                       laterFacts: CapabilityTable, laterNeeds: RequirementTable, facts: Facts, i: nat, k: nat, j: nat)
    requires Compiled(p, m, root, plan, o, resolves, laterFacts, laterNeeds, facts) && i < |plan.grants|
    requires k < |m.services| && j < |m.services[k].needs| && Granted(plan.processes, root, m.services[k])
    requires NeedGrant(m, plan.grants[i].process, m.services[k].needs[j]) == [plan.grants[i]]
    requires p.grants[i].processIndex < |plan.processes|
    requires ServiceOf(plan.processes[p.grants[i].processIndex]) == m.services[k].id
          == NodeId(plan.processes[p.grants[i].processIndex])
    ensures Authorized(p, p.grants[i])
  {
    hide Derivable, MergedAll, CapabilityInput, RequirementInput, PathGifts, NeedGrant, Pow2, SpokenFor, VolumesOk,
         WithServices, StateKept, Builtin, NeedGrantable, Lookup, Within;
    var g, e, s := plan.grants[i], p.grants[i], m.services[k];
    assert GrantEmitted(plan, g, e);
    var key := NeedHeld(m, plan, laterFacts, laterNeeds, k, j, g, e.objectIndex);
    Spoken(p, plan, facts, s.id, e, key);
    assert ServiceGrantable(m, s, resolves);
    if g.objectKind == OBJECT_VFS_ROOT {
      var path := NeedRoot(m, root, plan, o, resolves, k, j, g);
      VolumesAllowed(p, m, root, plan, o, facts, i, s.id, path);
    } else {
      NoVolumes(p, s.id, e);
    }
  }

  lemma NoVolumes(p: Payload, service: Str, g: Grant)
    requires g.objectKind != OBJECT_VFS_ROOT
    ensures VolumesOk(p, service, g)
  {}

  lemma ConfigAuthorized(p: Payload, m: Manifest, root: Str, plan: Plan, o: Objects, resolves: Capability -> bool,
                         laterFacts: CapabilityTable, laterNeeds: RequirementTable, facts: Facts, i: nat, k: nat,
                         j: nat)
    requires Compiled(p, m, root, plan, o, resolves, laterFacts, laterNeeds, facts) && i < |plan.grants|
    requires k < |m.services| && j < |m.services[k].configs| && Granted(plan.processes, root, m.services[k])
    requires plan.grants[i] == PlanGrant(plan.grants[i].process, OBJECT_STORE, m.services[k].configs[j], RIGHT_READ)
    requires p.grants[i].processIndex < |plan.processes|
             && ServiceOf(plan.processes[p.grants[i].processIndex]) == m.services[k].id
    ensures Authorized(p, p.grants[i])
  {
    hide Derivable, MergedAll, CapabilityInput, RequirementInput, PathGifts, Pow2, SpokenFor, VolumesOk, WithServices,
         StateKept, Builtin, ServiceGrantable, Lookup, Within;
    var e, config := p.grants[i], m.services[k].configs[j];
    assert GrantEmitted(plan, plan.grants[i], e);
    ConfigHeld(m, plan, laterFacts, laterNeeds, k, j, e.objectIndex);
    SmallNarrow();
    Spoken(p, plan, facts, m.services[k].id, e, CapabilityKey(config, config, OBJECT_STORE, e.objectIndex));
    NoVolumes(p, m.services[k].id, e);
  }

  // ----- The state-path facts are exactly the kernel's -----

  ghost predicate IsVolume(states: seq<StateVolume>, id: Str) {
    exists k :: 0 <= k < |states| && states[k].id == id
  }

  lemma OneMoreVolume(states: seq<StateVolume>, id: Str)
    requires states != []
    ensures IsVolume(states, id) <==> IsVolume(states[..|states| - 1], id) || states[|states| - 1].id == id
  {
    var n := |states| - 1;
    if IsVolume(states[..n], id) {
      var k :| 0 <= k < n && states[..n][k].id == id;
      assert states[k].id == id;
    }
    if k :| 0 <= k < |states| && states[k].id == id {
      if k < n { assert states[..n][k].id == id; }
    }
  }

  lemma {:induction false} VolumesAdd(states: seq<StateVolume>, service: Str, root: Str, rights: nat, key: PathKey)
    requires rights < Pow2(16)
    ensures Added(VolumeGifts(states, service, root, rights), key)
         == if key.service == service && key.root == root && Reaches(root, key.state) && IsVolume(states, key.state)
            then rights else 0
  {
    hide Pow2, Or, Reaches, Added, IsVolume, VolumeGift;
    if states == [] {
      NothingAdded(key);
    } else {
      var n := |states| - 1;
      var front, last := VolumeGifts(states[..n], service, root, rights),
                         VolumeGift(states[n].id, service, root, rights);
      VolumesAdd(states[..n], service, root, rights, key);
      AddedSplit(front, last, key);
      VolumeAdds(states[n].id, service, root, rights, key);
      OneMoreVolume(states, key.state);
      OrZero(rights, 16);
      OrSame(rights, 16);
      NoRights();
    }
  }

  lemma NothingAdded(key: PathKey)
    ensures Added([], key) == 0 && !IsVolume([], key.state)
  {}

  lemma NoRights()
    ensures Or(0, 0, 16) == 0
  {
    OrZero(0, 16);
  }

  lemma VolumeAdds(state: Str, service: Str, root: Str, rights: nat, key: PathKey)
    requires rights < Pow2(16)
    ensures Added(VolumeGift(state, service, root, rights), key)
         == if key == PathKey(service, state, root) && Reaches(root, state) then rights else 0
  {
    hide Pow2, Or, Reaches;
    var x := Entry(PathKey(service, state, root), rights);
    assert [x][..0] == [];
    assert Added([x], key) == if x.key == key then Both(0, rights) else 0;
    OrZero(rights, 16);
  }

  /** One grant adds to a place what the kernel would count there. */
  lemma GrantAdds(p: Payload, plan: Plan, facts: Facts, i: nat, f: PolicyStatePath)
    requires Emitted(p, plan, facts) && GrantsNarrow(plan.grants) && i < |plan.grants|
    requires (forall k :: 0 <= k < |plan.processes| ==> plan.processes[k].serviceId != [])
    requires MountComponent(f.state).Some? && IsVolume(plan.states, f.state)
    ensures Added(PathGift(plan, plan.grants[i]), PathKey(f.service, f.state, f.root))
         == if Matches(p, f, p.grants[i]) then p.grants[i].rights else 0
  {
    hide Pow2, Or, Reaches, CoveredBy, MountComponent, VolumeGifts, ProcessNamed;
    var g, e := plan.grants[i], p.grants[i];
    assert GrantEmitted(plan, g, e);
    var key := PathKey(f.service, f.state, f.root);
    SameReach(f.root, f.state);
    if g.objectKind == OBJECT_VFS_ROOT {
      var root := p.roots[e.objectIndex].rootPath;
      assert RootOf(plan, g) == Some(root);
      VolumesAdd(plan.states, NodeId(plan.processes[e.processIndex]), root, g.rights, key);
    }
  }

  lemma {:induction false} GrantsAdd(p: Payload, plan: Plan, facts: Facts, n: nat, f: PolicyStatePath)
    requires Emitted(p, plan, facts) && GrantsNarrow(plan.grants) && n <= |plan.grants|
    requires (forall k :: 0 <= k < |plan.processes| ==> plan.processes[k].serviceId != [])
    requires MountComponent(f.state).Some? && IsVolume(plan.states, f.state)
    ensures Added(PathGifts(plan, plan.grants[..n]), PathKey(f.service, f.state, f.root)) == MatchedRights(p, f, n)
  {
    hide Pow2, Or, MountComponent, Matches, PathGift;
    var key := PathKey(f.service, f.state, f.root);
    if n > 0 {
      GrantsAdd(p, plan, facts, n - 1, f);
      assert plan.grants[..n][..n - 1] == plan.grants[..n - 1];
      AddedSplit(PathGifts(plan, plan.grants[..n - 1]), PathGift(plan, plan.grants[n - 1]), key);
      GrantAdds(p, plan, facts, n - 1, f);
      AddedNarrow(PathGifts(plan, plan.grants[..n - 1]), key);
      OrZero(MatchedRights(p, f, n - 1), 16);
    }
  }

  lemma {:induction false} VolumeKeys(states: seq<StateVolume>, service: Str, root: Str, rights: nat, x: Entry<PathKey>)
    requires x in VolumeGifts(states, service, root, rights)
    ensures IsVolume(states, x.key.state) && x.rights == rights
    ensures x.key.service == service && x.key.root == root && Reaches(root, x.key.state)
  {
    hide Reaches;
    var n := |states| - 1;
    if x in VolumeGift(states[n].id, service, root, rights) {
      assert states[n].id == x.key.state;
    } else {
      VolumeKeys(states[..n], service, root, rights, x);
      var k :| 0 <= k < n && states[..n][k].id == x.key.state;
      assert states[k].id == x.key.state;
    }
  }

  lemma {:induction false} PathKeys(plan: Plan, grants: seq<PlanGrant>, x: Entry<PathKey>)
    requires x in PathGifts(plan, grants)
    ensures IsVolume(plan.states, x.key.state) && exists i :: 0 <= i < |grants| && x.rights == grants[i].rights
  {
    hide VolumeGifts, ProcessNamed, RootOf, IsVolume;
    var n := |grants| - 1;
    if x in PathGift(plan, grants[n]) {
      var root := RootOf(plan, grants[n]).value;
      VolumeKeys(plan.states, NodeId(plan.processes[ProcessNamed(plan.processes, grants[n].process).value]), root,
                 grants[n].rights, x);
    } else {
      PathKeys(plan, grants[..n], x);
      var i :| 0 <= i < n && x.rights == grants[..n][i].rights;
      assert x.rights == grants[i].rights;
    }
  }

  /** The rights of an emitted fact are everything added to its place. */
  lemma FactRights(plan: Plan, paths: PathTable, i: nat)
    requires paths == MergedAll([], PathGifts(plan, plan.grants)) && GrantsNarrow(plan.grants) && i < |paths|
    requires forall k :: 0 <= k < |plan.grants| ==> plan.grants[k].rights != 0
    ensures paths[i].rights == Added(PathGifts(plan, plan.grants), paths[i].key) != 0
            && IsVolume(plan.states, paths[i].key.state)
  {
    hide MergedAll, PathGifts, Pow2, Within, Lookup, Added, IsVolume;
    var xs, key := PathGifts(plan, plan.grants), paths[i].key;
    PathsNarrow(plan, plan.grants);
    UniqueAll(xs);
    LookupUnique(paths, i);
    LookupAll(xs, key);
    assert paths[i] in paths;
    var k :| 0 <= k < |xs| && xs[k].key == key;
    PathKeys(plan, plan.grants, xs[k]);
    AddedHolds(xs, k);
    if Added(xs, key) == 0 { WithinNothing(xs[k].rights, 16); }
  }

  lemma PathsResolve(p: Payload, plan: Plan, facts: Facts, f: PolicyStatePath)
    requires Emitted(p, plan, facts) && IsVolume(plan.states, f.state) && MountComponent(f.state).Some?
    ensures forall k :: 0 <= k < |p.grants| ==> Resolves(p, f, p.grants[k])
  {
    hide MountComponent, CoveredBy, ProcessNamed;
    SameReach(f.root, f.state);
    forall k | 0 <= k < |p.grants|
      ensures Resolves(p, f, p.grants[k])
    {
      assert GrantEmitted(plan, plan.grants[k], p.grants[k]);
    }
  }

  /** Every state-path fact the compiler emits has exactly the rights of the grants that reach its volume, as the
      kernel demands. */
  lemma PathFactsExact(p: Payload, m: Manifest, root: Str, plan: Plan, o: Objects, facts: Facts, i: nat)
    requires PlanOk(m, root, plan, o) && GrantsNarrow(plan.grants)
             && (forall k :: 0 <= k < |plan.grants| ==> plan.grants[k].rights != 0)
    requires Emitted(p, plan, facts) && facts.paths == MergedAll([], PathGifts(plan, plan.grants)) && i < |p.statePaths|
    ensures p.statePaths[i].rights == MatchedRights(p, p.statePaths[i], |p.grants|)
    ensures StatePathUsed(p, p.statePaths[i])
  {
    hide MergedAll, PathGifts, Pow2, Added, MatchedRights, Resolves, WithServices, GrantEmitted, Within,
         MountComponent;
    var f := p.statePaths[i];
    assert f == StatePathFact(facts.paths[i]);
    FactRights(plan, facts.paths, i);
    var k :| 0 <= k < |plan.states| && plan.states[k].id == f.state;
    assert StateKept(m.states[k], plan.states[k]);
    assert plan.grants[..|plan.grants|] == plan.grants;
    GrantsAdd(p, plan, facts, |plan.grants|, f);
    PathsResolve(p, plan, facts, f);
    WithinSelf(f.rights, 16);
  }
}
