/** The kernel's checks on the policy facts themselves, run on what the boot compiler emits. */
module CompilerChecks {
  import opened Bits
  import opened Results
  import opened BootRecords
  import opened BootPayload
  import opened Manifests
  import opened PolicyTerms
  import opened FactTables
  import opened CompilerFacts
  import opened CompilerPaths
  import opened CompilerGrants
  import opened CompilerMounts
  import opened CompilerOffers
  import opened CompilerEndpoints
  import opened CompilerBootstraps
  import opened CompilerPolicy
  import opened CompilerUses
  import opened KernelPolicy

  // ----- What the compiler checks of a plan -----

  /** The mounts of a process, as the compiler lets them through. */
  predicate MountsAccepted(x: Process) {
    && PlanPathOk(x.mountRoot) && |x.mounts| <= MAX_PROCESS_MOUNTS
    && (forall k :: 0 <= k < |x.mounts| ==> MountAccepted(x.mounts[k]))
    && forall i, j :: 0 <= i < j < |x.mounts| ==> x.mounts[i].path != x.mounts[j].path
  }

  predicate MountAccepted(y: ProcessMount) {
    PlanPathOk(y.path) && PlanPathOk(y.source) && y.path != ROOT_PATH && MountFlagsOk(y.flags)
  }

  /** No two volumes are mounted in one place. */
  ghost predicate VolumesDiffer(states: seq<StateVolume>) {
    forall i, j :: 0 <= i < j < |states| ==> MountComponent(states[i].id) != MountComponent(states[j].id)
  }

  /** Every process has proper mounts, volumes have places of their own, and no grant is empty. */
  ghost predicate Checked(plan: Plan) {
    && (forall i :: 0 <= i < |plan.processes| ==> MountsAccepted(plan.processes[i]))
    && VolumesDiffer(plan.states) && (forall i :: 0 <= i < |plan.grants| ==> plan.grants[i].rights != 0)
  }

  /** There is a record for every object of the plan. */
  ghost predicate ObjectsEmitted(p: Payload, o: Objects) {
    && |p.endpoints| == |o.endpoints| && |p.stores| == |o.stores| && |p.ports| == |o.ports|
    && |p.ioPorts| == |o.ioPorts| && |p.mmioRegions| == |o.mmioRegions| && |p.framebuffers| == |o.framebuffers|
    && |p.lines| == |o.lines| && |p.dmaRegions| == |o.dmaRegions| && |p.pciDevices| == |o.pciDevices|
    && |p.virtioDevices| == |o.virtioDevices| && |p.namespaces| == |o.namespaces| && |p.roots| == |o.roots|
  }

  // ----- What it does not -----

  /** Capabilities whose objects are in the plan have an id and a provider, and store objects have an id. */
  ghost predicate NamesGiven(m: Manifest, plan: Plan) {
    && (forall i :: 0 <= i < |m.capabilities| && KeyOf(plan.objects, m.capabilities[i]).Some? ==>
          m.capabilities[i].id != [] && m.capabilities[i].provider != [])
    && [] !in plan.objects.stores
  }

  predicate MountsClean(x: Process) {
    && 0 !in x.mountRoot
    && forall k :: 0 <= k < |x.mounts| ==> 0 !in x.mounts[k].path && 0 !in x.mounts[k].source
  }

  /** A VFS-root grant reaches a state volume. */
  predicate Spans(plan: Plan, g: PlanGrant, state: StateVolume) {
    g.objectKind == OBJECT_VFS_ROOT && RootOf(plan, g).Some? && Reaches(RootOf(plan, g).value, state.id)
  }

  /** No NUL in a mount root, a mount, or a granted VFS root that reaches a state volume. */
  ghost predicate PathsClean(plan: Plan) {
    && (forall i :: 0 <= i < |plan.processes| ==> MountsClean(plan.processes[i]))
    && (forall i, k :: 0 <= i < |plan.grants| && 0 <= k < |plan.states| && Spans(plan, plan.grants[i], plan.states[k])
                       ==> 0 !in RootOf(plan, plan.grants[i]).value)
  }

  /** A NUL is all that the kernel minds in a path the compiler accepts. */
  lemma CleanPath(path: Str)
    requires PlanPathOk(path)
    ensures PathOk(path) <==> 0 !in path
  {
    if PathOk(path) && 0 in path {
      var i :| 0 <= i < |path| && path[i] == 0;
      assert false;
    }
  }

  // ----- Rights -----

  lemma SmallKnown(r: nat)
    requires r < 0x8000
    ensures Allowed(r, KNOWN_RIGHTS)
  {
    Powers();
    assert Pow2(15) == 0x8000;
    OnesHold(r, 15, 16);
  }

  lemma MaskKnown(rights: seq<Str>)
    requires RawMask(rights).Some?
    ensures Allowed(RawMask(rights).value, KNOWN_RIGHTS)
  {
    hide Within;
    forall i | 0 <= i < |rights|
      ensures RightNamed(rights[i]).Some? ==> Allowed(RightNamed(rights[i]).value, KNOWN_RIGHTS)
    {
      if RightNamed(rights[i]).Some? { SmallKnown(RightNamed(rights[i]).value); }
    }
    hide RightNamed, RawMask;
    RawLeast(rights);
  }

  // ----- Capability facts -----

  /** The object of a capability fact is in the plan. */
  predicate RefOk(o: Objects, kind: nat, index: nat) {
    match kind
    case 1 => index < |o.endpoints|
    case 2 => index < |o.stores|
    case 4 => index == 0
    case 5 => index < |o.ports|
    case 6 => index < |o.ioPorts|
    case 7 => index < |o.mmioRegions|
    case 8 => index < |o.lines|
    case 9 => index < |o.dmaRegions|
    case 10 => index < |o.pciDevices|
    case 11 => index < |o.virtioDevices|
    case 12 => index < |o.namespaces|
    case 13 => index < |o.roots|
    case 14 => index < |o.framebuffers|
    case 15 => index == 0
    case _ => false
  }

  lemma SameRef(p: Payload, o: Objects, kind: nat, index: nat)
    requires ObjectsEmitted(p, o) && RefOk(o, kind, index)
    ensures ObjectRefOk(p, kind, index)
  {}

  lemma IndexedRef(o: Objects, kind: nat, name: Str)
    requires ObjectIndex(o, kind, name).Some?
    ensures RefOk(o, kind, ObjectIndex(o, kind, name).value)
  {
    hide IndexOf, RootIndex;
  }

  /** What the kernel asks of a contribution to the capability facts. */
  ghost predicate Sound(m: Manifest, plan: Plan, x: Entry<CapabilityKey>) {
    && x.rights != 0 && Allowed(x.rights, KNOWN_RIGHTS) && RefOk(plan.objects, x.key.objectKind, x.key.objectIndex)
    && (NamesGiven(m, plan) ==> x.key.id != [] && x.key.provider != [])
  }

  ghost predicate AllSound(m: Manifest, plan: Plan, xs: CapabilityTable) {
    forall x :: x in xs ==> Sound(m, plan, x)
  }

  lemma KeySound(m: Manifest, plan: Plan, c: Capability, rights: nat)
    requires c in m.capabilities && KeyOf(plan.objects, c).Some? && rights != 0 && Allowed(rights, KNOWN_RIGHTS)
    ensures Sound(m, plan, Entry(KeyOf(plan.objects, c).value, rights))
  {
    hide Within, ObjectName, ObjectIndex, RefOk;
    var name := ObjectName(c).value;
    IndexedRef(plan.objects, name.0, name.1);
    var i :| 0 <= i < |m.capabilities| && m.capabilities[i] == c;
    if NamesGiven(m, plan) { assert KeyOf(plan.objects, m.capabilities[i]).Some?; }
  }

  lemma CapabilitySound(m: Manifest, plan: Plan, c: Capability)
    requires c in m.capabilities
    ensures AllSound(m, plan, CapabilityGift(plan, c))
  {
    hide Within, KeyOf, RawMask, Sound, ServedPort;
    if KeyOf(plan.objects, c).Some? && DeclaredMask(c.rights).Some? {
      MaskKnown(c.rights);
      KeySound(m, plan, c, DeclaredMask(c.rights).value);
      SmallKnown(RIGHT_CONTROL);
      KeySound(m, plan, c, RIGHT_CONTROL);
    }
  }

  lemma {:induction false} CapabilitiesSound(m: Manifest, plan: Plan, cs: seq<Capability>)
    requires forall c :: c in cs ==> c in m.capabilities
    ensures AllSound(m, plan, CapabilityGifts(plan, cs))
  {
    hide CapabilityGift, Sound;
    if cs != [] {
      CapabilitiesSound(m, plan, cs[..|cs| - 1]);
      CapabilitySound(m, plan, cs[|cs| - 1]);
    }
  }

  lemma {:induction false} StoresSound(m: Manifest, plan: Plan, names: seq<Str>)
    requires forall name :: name in names ==> name in plan.objects.stores
    ensures AllSound(m, plan, StoreGifts(plan.objects, names))
  {
    hide IndexOf, Within;
    SmallKnown(RIGHT_READ);
    if names != [] { StoresSound(m, plan, names[..|names| - 1]); }
  }

  lemma OfferSound(m: Manifest, plan: Plan, service: Str, offer: Str)
    ensures AllSound(m, plan, OfferGift(m, plan.objects, service, offer))
  {
    hide Within, KeyOf, Sound, FindCapability;
    var c := FindCapability(m.capabilities, offer);
    if OfferKey(m, plan.objects, service, offer).Some? {
      SmallKnown(RIGHT_RECEIVE);
      KeySound(m, plan, c.value, RIGHT_RECEIVE);
    }
  }

  lemma {:induction false} OffersSound(m: Manifest, plan: Plan, service: Str, offers: seq<Str>)
    ensures AllSound(m, plan, OffersOf(m, plan.objects, service, offers))
  {
    hide OfferGift, Sound;
    if offers != [] {
      OffersSound(m, plan, service, offers[..|offers| - 1]);
      OfferSound(m, plan, service, offers[|offers| - 1]);
    }
  }

  lemma {:induction false} OfferGiftsSound(m: Manifest, plan: Plan, ss: seq<Service>)
    ensures AllSound(m, plan, OfferGifts(m, plan, ss))
  {
    hide OffersOf, Sound, Native;
    if ss != [] {
      OfferGiftsSound(m, plan, ss[..|ss| - 1]);
      OffersSound(m, plan, ss[|ss| - 1].id, ss[|ss| - 1].offers);
    }
  }

  lemma SecretSound(m: Manifest, plan: Plan)
    requires Apart(plan.processes)
    ensures AllSound(m, plan, SecretGifts(plan.processes))
  {
    hide Within, NamesGiven, ProcessCalled;
    assert |SECRET_LOGD_TOKEN| == 17;
    SmallKnown(RIGHT_READ);
  }

  lemma DriverSound(m: Manifest, plan: Plan, d: Device)
    requires Apart(plan.processes)
    ensures AllSound(m, plan, DriverGift(plan, d))
  {
    hide Within, NamesGiven, IndexOf;
    assert |PCI_SUFFIX| == 4 && |VIRTIO_SUFFIX| == 7;
    SmallKnown(RIGHT_CONTROL);
  }

  lemma {:induction false} DriversSound(m: Manifest, plan: Plan, ds: seq<Device>)
    requires Apart(plan.processes)
    ensures AllSound(m, plan, DriverGifts(plan, ds))
  {
    hide DriverGift, Sound, Apart;
    if ds != [] {
      DriversSound(m, plan, ds[..|ds| - 1]);
      DriverSound(m, plan, ds[|ds| - 1]);
    }
  }

  lemma InputSound(m: Manifest, plan: Plan)
    requires Apart(plan.processes)
    ensures AllSound(m, plan, CapabilityInput(m, plan, LaterFacts(m, plan)))
  {
    hide CapabilityGifts, StoreGifts, OfferGifts, SecretGifts, DriverGifts, Sound, Apart;
    CapabilitiesSound(m, plan, m.capabilities);
    StoresSound(m, plan, plan.objects.stores);
    OfferGiftsSound(m, plan, m.services);
    SecretSound(m, plan);
    DriversSound(m, plan, m.devices);
  }

  /** The input of the capability facts, and the facts they become. */
  ghost predicate CapabilitiesMade(p: Payload, m: Manifest, plan: Plan, facts: Facts, xs: CapabilityTable) {
    && xs == CapabilityInput(m, plan, LaterFacts(m, plan)) && Narrow(xs) && ConflictFree(xs)
    && AllSound(m, plan, xs) && facts.capabilities == MergedAll([], xs) && Emitted(p, plan, facts)
  }

  /** The contribution behind a capability fact. */
  lemma CapabilitySource(p: Payload, m: Manifest, plan: Plan, facts: Facts, xs: CapabilityTable, i: nat)
    returns (x: Entry<CapabilityKey>)
    requires CapabilitiesMade(p, m, plan, facts, xs) && i < |p.capabilities|
    ensures i < |facts.capabilities| && p.capabilities[i] == CapabilityFact(facts.capabilities[i])
    ensures x in xs && Sound(m, plan, x) && x.key == facts.capabilities[i].key
    ensures p.capabilities[i].rights != 0 && Allowed(p.capabilities[i].rights, KNOWN_RIGHTS)
  {
    hide CapabilityInput, Within, MergedAll, ConflictFree, GrantEmitted, RefOk, NamesGiven, Pow2;
    forall j | 0 <= j < |xs|
      ensures Sound(m, plan, xs[j])
    {
      assert xs[j] in xs;
    }
    var k := TableEntry(xs, facts.capabilities, i, KNOWN_RIGHTS);
    x := xs[k];
  }

  lemma IdsApart(p: Payload, m: Manifest, plan: Plan, facts: Facts, xs: CapabilityTable, i: nat, j: nat)
    requires CapabilitiesMade(p, m, plan, facts, xs) && i < j < |p.capabilities|
    ensures p.capabilities[i].id != p.capabilities[j].id
  {
    hide CapabilityInput, MergedAll, ConflictFree, GrantEmitted, Sound, Within;
    var x := CapabilitySource(p, m, plan, facts, xs, i);
    var y := CapabilitySource(p, m, plan, facts, xs, j);
    if x.key.id == y.key.id { SameKey(xs, x, y); }
    UniqueAll(xs);
  }

  lemma CapabilityPasses(p: Payload, m: Manifest, plan: Plan, facts: Facts, xs: CapabilityTable, i: nat)
    requires CapabilitiesMade(p, m, plan, facts, xs) && ObjectsEmitted(p, plan.objects) && i < |p.capabilities|
    requires NamesGiven(m, plan)
    ensures CapabilityOk(p, i)
  {
    hide CapabilitiesMade, ObjectsEmitted, NamesGiven, RefOk, ObjectRefOk, Within;
    var x := CapabilitySource(p, m, plan, facts, xs, i);
    SameRef(p, plan.objects, x.key.objectKind, x.key.objectIndex);
    forall j | 0 <= j < i
      ensures p.capabilities[j].id != p.capabilities[i].id
    {
      IdsApart(p, m, plan, facts, xs, j, i);
    }
  }

  /** Every contribution ends in a fact. */
  lemma FactOfInput(p: Payload, m: Manifest, plan: Plan, facts: Facts, xs: CapabilityTable, x: Entry<CapabilityKey>)
    returns (i: nat)
    requires CapabilitiesMade(p, m, plan, facts, xs) && x in xs
    ensures i < |p.capabilities| && i < |facts.capabilities| && facts.capabilities[i].key == x.key
    ensures p.capabilities[i] == CapabilityFact(facts.capabilities[i]) && Allowed(x.rights, p.capabilities[i].rights)
  {
    hide CapabilityInput, MergedAll, ConflictFree, GrantEmitted, AllSound, Within, Lookup, Pow2;
    var k :| 0 <= k < |xs| && xs[k] == x;
    TableKeys(xs, x.key);
    var e :| e in facts.capabilities && e.key == x.key;
    i :| 0 <= i < |facts.capabilities| && facts.capabilities[i] == e;
    UniqueAll(xs);
    LookupUnique(facts.capabilities, i);
    AllHeld(xs, x);
  }

  lemma StoreInput(m: Manifest, plan: Plan, name: Str) returns (x: Entry<CapabilityKey>)
    requires name in plan.objects.stores
    ensures x in CapabilityInput(m, plan, LaterFacts(m, plan)) && x.key.id == name && x.rights == RIGHT_READ
  {
    hide CapabilityGifts, StoreGifts, LaterFacts, IndexOf;
    x := StoreGift(plan.objects, name)[0];
    StoreIn(plan.objects, plan.objects.stores, name);
  }

  lemma NamesNeeded(p: Payload, m: Manifest, plan: Plan, facts: Facts, xs: CapabilityTable)
    requires CapabilitiesMade(p, m, plan, facts, xs) && Derivable(m, plan, LaterFacts(m, plan))
    requires forall i: nat :: i < |p.capabilities| ==> CapabilityOk(p, i)
    ensures NamesGiven(m, plan)
  {
    hide CapabilityInput, LaterFacts, MergedAll, ConflictFree, GrantEmitted, AllSound, Within, Derivable, KeyOf,
         Narrow, ObjectRefOk;
    forall k | 0 <= k < |m.capabilities| && KeyOf(plan.objects, m.capabilities[k]).Some?
      ensures m.capabilities[k].id != [] && m.capabilities[k].provider != []
    {
      var key := KeyOf(plan.objects, m.capabilities[k]).value;
      KeyParts(plan.objects, m.capabilities[k]);
      var x := KeyGift(m, plan, LaterFacts(m, plan), m.capabilities[k], key);
      var i := FactOfInput(p, m, plan, facts, xs, x);
      assert CapabilityOk(p, i);
    }
    forall name | name in plan.objects.stores
      ensures name != []
    {
      var x := StoreInput(m, plan, name);
      var i := FactOfInput(p, m, plan, facts, xs, x);
      assert CapabilityOk(p, i);
    }
  }

  lemma KeyParts(o: Objects, c: Capability)
    requires KeyOf(o, c).Some?
    ensures KeyOf(o, c).value.id == c.id && KeyOf(o, c).value.provider == c.provider
  {
    hide ObjectName, ObjectIndex;
  }

  // ----- Requirements and provisions -----

  /** Some process runs a service. */
  predicate Runs(processes: seq<Process>, service: Str) {
    exists i :: 0 <= i < |processes| && processes[i].serviceId == service
  }

  lemma RunsHere(p: Payload, service: Str)
    requires Apart(p.processes) && Runs(p.processes, service)
    ensures HasService(p, service)
  {
    var i :| 0 <= i < |p.processes| && p.processes[i].serviceId == service;
    assert ServiceOf(p.processes[i]) == service;
  }

  /** A capability contribution of the id that holds the rights asked for. */
  ghost predicate Backed(xs: CapabilityTable, y: Entry<RequirementKey>) {
    exists x :: x in xs && x.key.id == y.key.capability && Allowed(y.rights, x.rights)
  }

  ghost predicate Fair(processes: seq<Process>, xs: CapabilityTable, y: Entry<RequirementKey>) {
    y.rights != 0 && Runs(processes, y.key.service) && Backed(xs, y)
  }

  ghost predicate AllFair(processes: seq<Process>, xs: CapabilityTable, ys: RequirementTable) {
    forall y :: y in ys ==> Fair(processes, xs, y)
  }

  lemma BackedBy(processes: seq<Process>, xs: CapabilityTable, y: Entry<RequirementKey>, x: Entry<CapabilityKey>)
    requires y.rights != 0 && Runs(processes, y.key.service) && x in xs && x.key.id == y.key.capability
    requires Allowed(y.rights, x.rights)
    ensures Fair(processes, xs, y)
  {
    hide Within;
  }

  lemma PortFair(m: Manifest, plan: Plan, c: Capability)
    requires c in m.capabilities && Derivable(m, plan, LaterFacts(m, plan))
    ensures AllFair(plan.processes, CapabilityInput(m, plan, LaterFacts(m, plan)), PortNeed(plan, c))
  {
    hide CapabilityGifts, StoreGifts, LaterFacts, Within, KeyOf, RawMask, ConflictFree, ServiceReads, PathReads, Fair;
    var xs := CapabilityInput(m, plan, LaterFacts(m, plan));
    if KeyOf(plan.objects, c).Some? && ServedPort(plan, c) {
      var k :| 0 <= k < |m.capabilities| && m.capabilities[k] == c;
      assert CapabilityReads(plan, m.capabilities[k]);
      var x := Entry(KeyOf(plan.objects, c).value, RIGHT_CONTROL);
      var y := Entry(RequirementKey(c.provider, c.id), RIGHT_CONTROL);
      KeyParts(plan.objects, c);
      assert x in CapabilityGift(plan, c);
      GiftIn(plan, m.capabilities, c, x);
      WithinSelf(RIGHT_CONTROL, 16);
      BackedBy(plan.processes, xs, y, x);
    }
  }

  lemma {:induction false} PortsFair(m: Manifest, plan: Plan, cs: seq<Capability>)
    requires (forall c :: c in cs ==> c in m.capabilities) && Derivable(m, plan, LaterFacts(m, plan))
    ensures AllFair(plan.processes, CapabilityInput(m, plan, LaterFacts(m, plan)), PortNeeds(plan, cs))
  {
    hide PortNeed, Derivable, CapabilityInput, LaterFacts, Fair;
    if cs != [] {
      PortsFair(m, plan, cs[..|cs| - 1]);
      PortFair(m, plan, cs[|cs| - 1]);
    }
  }

  lemma NeedFair(m: Manifest, plan: Plan, service: Str, need: Need)
    requires Runs(plan.processes, service) && Derivable(m, plan, LaterFacts(m, plan))
    ensures AllFair(plan.processes, CapabilityInput(m, plan, LaterFacts(m, plan)),
                    NeedGift(m, plan.objects, service, need))
  {
    hide CapabilityInput, LaterFacts, Within, KeyOf, Derivable, FindCapability, Fair, RawMask;
    var c := FindCapability(m.capabilities, need.capability);
    if c.Some? && KeyOf(plan.objects, c.value).Some? && NeedMask(c.value, need).Some? {
      var x := DeclaredInput(m, plan, c.value);
      BackedBy(plan.processes, CapabilityInput(m, plan, LaterFacts(m, plan)),
               Entry(RequirementKey(service, c.value.id), NeedMask(c.value, need).value), x);
    }
  }

  /** A declared capability contributes all its rights. */
  lemma DeclaredInput(m: Manifest, plan: Plan, c: Capability) returns (x: Entry<CapabilityKey>)
    requires c in m.capabilities && KeyOf(plan.objects, c).Some? && DeclaredMask(c.rights).Some?
    ensures x in CapabilityInput(m, plan, LaterFacts(m, plan)) && x.key.id == c.id
    ensures x.rights == DeclaredMask(c.rights).value
  {
    hide CapabilityGifts, StoreGifts, LaterFacts, KeyOf, RawMask;
    x := Entry(KeyOf(plan.objects, c).value, DeclaredMask(c.rights).value);
    KeyParts(plan.objects, c);
    assert x in CapabilityGift(plan, c);
    GiftIn(plan, m.capabilities, c, x);
  }

  lemma {:induction false} NeedsFair(m: Manifest, plan: Plan, service: Str, needs: seq<Need>)
    requires Runs(plan.processes, service) && Derivable(m, plan, LaterFacts(m, plan))
    ensures AllFair(plan.processes, CapabilityInput(m, plan, LaterFacts(m, plan)),
                    NeedGifts(m, plan.objects, service, needs))
  {
    hide CapabilityInput, LaterFacts, Derivable, Fair, NeedGift, Runs;
    if needs != [] {
      NeedsFair(m, plan, service, needs[..|needs| - 1]);
      NeedFair(m, plan, service, needs[|needs| - 1]);
    }
  }

  lemma StoreFair(m: Manifest, plan: Plan, service: Str, name: Str)
    requires Runs(plan.processes, service) && name in plan.objects.stores
    ensures Fair(plan.processes, CapabilityInput(m, plan, LaterFacts(m, plan)),
                 Entry(RequirementKey(service, name), RIGHT_READ))
  {
    hide CapabilityInput, LaterFacts, Fair, Within, Runs;
    var x := StoreInput(m, plan, name);
    WithinSelf(RIGHT_READ, 16);
    BackedBy(plan.processes, CapabilityInput(m, plan, LaterFacts(m, plan)),
             Entry(RequirementKey(service, name), RIGHT_READ), x);
  }

  lemma {:induction false} ConfigsFair(m: Manifest, plan: Plan, service: Str, configs: seq<Str>)
    requires Runs(plan.processes, service)
    ensures AllFair(plan.processes, CapabilityInput(m, plan, LaterFacts(m, plan)),
                    ConfigGifts(plan.objects, service, configs))
  {
    hide CapabilityInput, LaterFacts, Fair, Runs;
    if configs != [] {
      ConfigsFair(m, plan, service, configs[..|configs| - 1]);
      if configs[|configs| - 1] in plan.objects.stores { StoreFair(m, plan, service, configs[|configs| - 1]); }
    }
  }

  lemma {:induction false} ServicesFair(m: Manifest, plan: Plan, ss: seq<Service>)
    requires Derivable(m, plan, LaterFacts(m, plan))
    ensures AllFair(plan.processes, CapabilityInput(m, plan, LaterFacts(m, plan)), ServiceGifts(m, plan, ss))
  {
    hide CapabilityInput, LaterFacts, Derivable, Fair, NeedGifts, ConfigGifts;
    if ss != [] {
      var s := ss[|ss| - 1];
      ServicesFair(m, plan, ss[..|ss| - 1]);
      if Native(plan.processes, s.id) {
        NeedsFair(m, plan, s.id, s.needs);
        ConfigsFair(m, plan, s.id, s.configs);
      }
    }
  }

  lemma SecretFair(m: Manifest, plan: Plan)
    requires Apart(plan.processes)
    ensures AllFair(plan.processes, CapabilityInput(m, plan, LaterFacts(m, plan)), SecretNeeds(plan.processes))
  {
    hide CapabilityGifts, StoreGifts, OfferGifts, DriverGifts, Within, ProcessCalled, Fair;
    var x := ProcessCalled(plan.processes, LOGD);
    if x.Some? {
      var gift := SecretGifts(plan.processes)[0];
      WithinSelf(RIGHT_READ, 16);
      assert Runs(plan.processes, NodeId(x.value));
      BackedBy(plan.processes, CapabilityInput(m, plan, LaterFacts(m, plan)), SecretNeeds(plan.processes)[0], gift);
    }
  }

  lemma DeviceFair(m: Manifest, plan: Plan, d: Device, names: seq<Str>, kind: nat, suffix: Str)
    requires Runs(plan.processes, d.driver)
    requires forall x :: x in DeviceGift(names, d, kind, suffix) ==> x in CapabilityInput(m, plan, LaterFacts(m, plan))
    ensures AllFair(plan.processes, CapabilityInput(m, plan, LaterFacts(m, plan)), DeviceNeed(names, d, suffix))
  {
    hide CapabilityInput, LaterFacts, Within, Fair, IndexOf, Runs;
    if d.id in names {
      WithinSelf(RIGHT_CONTROL, 16);
      BackedBy(plan.processes, CapabilityInput(m, plan, LaterFacts(m, plan)), DeviceNeed(names, d, suffix)[0],
               DeviceGift(names, d, kind, suffix)[0]);
    }
  }

  lemma {:induction false} DriversFair(m: Manifest, plan: Plan, ds: seq<Device>)
    requires forall d :: d in ds ==> d in m.devices
    ensures AllFair(plan.processes, CapabilityInput(m, plan, LaterFacts(m, plan)), DriverNeeds(plan, ds))
  {
    hide CapabilityGifts, StoreGifts, OfferGifts, SecretGifts, DriverGifts, Fair, DeviceGift, DeviceNeed;
    if ds != [] {
      var d := ds[|ds| - 1];
      DriversFair(m, plan, ds[..|ds| - 1]);
      if Native(plan.processes, d.driver) {
        DriverIn(plan, m.devices, d);
        DeviceFair(m, plan, d, plan.objects.pciDevices, OBJECT_PCI_DEVICE, PCI_SUFFIX);
        DeviceFair(m, plan, d, plan.objects.virtioDevices, OBJECT_VIRTIO_DEVICE, VIRTIO_SUFFIX);
      }
    }
  }

  lemma VerifierFair(m: Manifest, plan: Plan)
    ensures AllFair(plan.processes, CapabilityInput(m, plan, LaterFacts(m, plan)), VerifierNeeds(plan))
  {
    hide CapabilityInput, LaterFacts, Fair;
    if Native(plan.processes, VERTEX_STORE) {
      if STORE_LOGD in plan.objects.stores { StoreFair(m, plan, VERTEX_STORE, STORE_LOGD); }
      if STORE_ECHO_SERVER in plan.objects.stores { StoreFair(m, plan, VERTEX_STORE, STORE_ECHO_SERVER); }
      if STORE_ECHO in plan.objects.stores { StoreFair(m, plan, VERTEX_STORE, STORE_ECHO); }
    }
  }

  /** Everything asked for is asked by a service that runs, and is backed by a capability. */
  lemma InputFair(m: Manifest, plan: Plan)
    requires Apart(plan.processes) && Derivable(m, plan, LaterFacts(m, plan))
    ensures AllFair(plan.processes, CapabilityInput(m, plan, LaterFacts(m, plan)),
                    RequirementInput(m, plan, LaterNeeds(m, plan)))
  {
    hide CapabilityInput, LaterFacts, PortNeeds, ServiceGifts, SecretNeeds, DriverNeeds, VerifierNeeds, Fair, Apart,
         Derivable;
    PortsFair(m, plan, m.capabilities);
    ServicesFair(m, plan, m.services);
    SecretFair(m, plan);
    DriversFair(m, plan, m.devices);
    VerifierFair(m, plan);
  }

  /** The one capability fact of an id that something contributed to. */
  lemma FactFound(p: Payload, m: Manifest, plan: Plan, facts: Facts, xs: CapabilityTable, x: Entry<CapabilityKey>)
    requires CapabilitiesMade(p, m, plan, facts, xs) && x in xs
    ensures var c := CapabilityById(p.capabilities, x.key.id);
            c.Some? && c.value.provider == x.key.provider && Allowed(x.rights, c.value.rights)
            && Allowed(c.value.rights, KNOWN_RIGHTS)
  {
    hide CapabilitiesMade, CapabilityById, Within;
    var i := FactOfInput(p, m, plan, facts, xs, x);
    var c := CapabilityById(p.capabilities, x.key.id);
    var j :| 0 <= j < |p.capabilities| && p.capabilities[j] == c.value;
    if i < j { IdsApart(p, m, plan, facts, xs, i, j); }
    if j < i { IdsApart(p, m, plan, facts, xs, j, i); }
    var source := CapabilitySource(p, m, plan, facts, xs, i);
  }

  /** What a fair contribution asks for, the fact of its capability gives. */
  lemma FairAllowed(p: Payload, m: Manifest, plan: Plan, facts: Facts, xs: CapabilityTable, y: Entry<RequirementKey>)
    requires CapabilitiesMade(p, m, plan, facts, xs) && Fair(plan.processes, xs, y)
    ensures var c := CapabilityById(p.capabilities, y.key.capability);
            c.Some? && Allowed(y.rights, c.value.rights) && Allowed(y.rights, KNOWN_RIGHTS)
  {
    hide CapabilitiesMade, CapabilityById, Within;
    var x :| x in xs && x.key.id == y.key.capability && Allowed(y.rights, x.rights);
    FactFound(p, m, plan, facts, xs, x);
    var c := CapabilityById(p.capabilities, y.key.capability).value;
    WithinTrans(y.rights, x.rights, c.rights, 16);
    WithinTrans(y.rights, c.rights, KNOWN_RIGHTS, 16);
  }

  lemma RequirementPasses(p: Payload, m: Manifest, plan: Plan, facts: Facts, xs: CapabilityTable, ys: RequirementTable,
                          i: nat)
    requires CapabilitiesMade(p, m, plan, facts, xs) && Apart(p.processes) && p.processes == plan.processes
    requires facts.requirements == MergedAll([], ys) && Narrow(ys) && AllFair(plan.processes, xs, ys)
    requires |p.requirements| == |facts.requirements| && i < |p.requirements|
             && p.requirements[i] == RequirementFact(facts.requirements[i])
    ensures RequirementOk(p, i)
  {
    hide CapabilitiesMade, CapabilityById, Within, MergedAll, Apart, Backed, HasService, Runs, Pow2;
    var key := facts.requirements[i].key;
    var c := CapabilityById(p.capabilities, key.capability);
    forall j | 0 <= j < |ys| && ys[j].key == key
      ensures Fair(plan.processes, xs, ys[j]) && c.Some?
      ensures Allowed(ys[j].rights, c.value.rights) && Allowed(ys[j].rights, KNOWN_RIGHTS)
    {
      assert ys[j] in ys;
      FairAllowed(p, m, plan, facts, xs, ys[j]);
    }
    var k := TableEntry(ys, facts.requirements, i, KNOWN_RIGHTS);
    k := TableEntry(ys, facts.requirements, i, c.value.rights);
    RunsHere(p, key.service);
  }

  // -- provisions --

  lemma {:induction false} ProvisionOf(m: Manifest, o: Objects, service: Str, offers: seq<Str>, y: PolicyProvide)
    returns (key: CapabilityKey)
    requires y in ProvisionsOf(m, o, service, offers)
    ensures y.service == service && OfferKey(m, o, service, y.capability) == Some(key)
    ensures Entry(key, RIGHT_RECEIVE) in OffersOf(m, o, service, offers)
  {
    hide OfferKey;
    var n := |offers| - 1;
    if y in Provision(m, o, service, offers[n]) {
      key := OfferKey(m, o, service, y.capability).value;
    } else {
      key := ProvisionOf(m, o, service, offers[..n], y);
    }
  }

  lemma {:induction false} ProvisionSource(m: Manifest, plan: Plan, ss: seq<Service>, y: PolicyProvide)
    returns (key: CapabilityKey)
    requires y in Provisions(m, plan, ss)
    ensures Runs(plan.processes, y.service) && OfferKey(m, plan.objects, y.service, y.capability) == Some(key)
    ensures Entry(key, RIGHT_RECEIVE) in OfferGifts(m, plan, ss)
  {
    hide OfferKey, ProvisionsOf, OffersOf;
    var n, s := |ss| - 1, ss[|ss| - 1];
    if Native(plan.processes, s.id) && y in ProvisionsOf(m, plan.objects, s.id, s.offers) {
      key := ProvisionOf(m, plan.objects, s.id, s.offers, y);
    } else {
      key := ProvisionSource(m, plan, ss[..n], y);
    }
  }

  lemma ProvidePasses(p: Payload, m: Manifest, plan: Plan, facts: Facts, xs: CapabilityTable, i: nat)
    requires CapabilitiesMade(p, m, plan, facts, xs) && Apart(p.processes) && p.processes == plan.processes
    requires i < |p.provisions| && p.provisions[i] in Provisions(m, plan, m.services)
    ensures ProvideOk(p, i)
  {
    hide Emitted, CapabilityById, Within, MergedAll, Apart, HasService, Runs, Provisions, OfferGifts, CapabilityGifts,
         StoreGifts, SecretGifts, DriverGifts, AllSound, ConflictFree, Narrow, KeyOf, FindCapability;
    var y := p.provisions[i];
    var key := ProvisionSource(m, plan, m.services, y);
    KeyParts(plan.objects, FindCapability(m.capabilities, y.capability).value);
    var x := Entry(key, RIGHT_RECEIVE);
    assert x in xs;
    FactFound(p, m, plan, facts, xs, x);
    RunsHere(p, y.service);
  }

  // ----- Mounts -----

  lemma FactClean(p: Payload, x: Process, y: PolicyMount)
    requires MountsAccepted(x) && x.serviceId != [] && FactOf(x, |x.mounts|, y) && MountsClean(x)
    ensures y.service == ServiceOf(x) && PathOk(y.mountRoot)
    ensures if IsRootMount(y) then y.flags == 0
            else y.path != ROOT_PATH && MountFlagsOk(y.flags) && PathOk(y.path) && PathOk(y.source)
  {
    hide PlanPathOk, PathOk;
    CleanPath(x.mountRoot);
    if y != RootFact(x) {
      var k :| 0 <= k < |x.mounts| && y == MountFact(x, k);
      assert MountAccepted(x.mounts[k]);
      CleanPath(y.path);
      CleanPath(y.source);
      NotEmpty(y.path);
    }
  }

  lemma NotEmpty(path: Str)
    requires PathOk(path)
    ensures path != []
  {}

  /** Mount facts pass exactly when there is no NUL in them. */
  lemma MountsPass(p: Payload)
    requires Distinct(p.mounts) && (forall y :: y in p.mounts <==> FactOfAny(p.processes, y))
    requires Apart(p.processes) && forall i :: 0 <= i < |p.processes| ==> MountsAccepted(p.processes[i])
    ensures (forall i: nat :: i < |p.mounts| ==> KernelPolicy.MountOk(p, i)) <==>
            (forall i :: 0 <= i < |p.processes| ==> MountsClean(p.processes[i]))
  {
    hide FactOf, MountsAccepted, MountsClean, PathOk, KernelPolicy.MountOk;
    if forall i :: 0 <= i < |p.processes| ==> MountsClean(p.processes[i]) {
      forall i: nat | i < |p.mounts|
        ensures KernelPolicy.MountOk(p, i)
      {
        assert p.mounts[i] in p.mounts;
        MountPasses(p, i);
      }
    }
    if forall i: nat :: i < |p.mounts| ==> KernelPolicy.MountOk(p, i) {
      forall i | 0 <= i < |p.processes|
        ensures MountsClean(p.processes[i])
      {
        MountsNeedClean(p, i);
      }
    }
  }

  lemma MountPasses(p: Payload, i: nat)
    requires Distinct(p.mounts) && i < |p.mounts| && FactOfAny(p.processes, p.mounts[i]) && Apart(p.processes)
    requires forall k :: 0 <= k < |p.processes| ==> MountsAccepted(p.processes[k]) && MountsClean(p.processes[k])
    ensures KernelPolicy.MountOk(p, i)
  {
    hide FactOf, MountsAccepted, MountsClean, PathOk;
    var k :| 0 <= k < |p.processes| && FactOf(p.processes[k], |p.processes[k].mounts|, p.mounts[i]);
    FactClean(p, p.processes[k], p.mounts[i]);
    if !IsRootMount(p.mounts[i]) {
      NotEmpty(p.mounts[i].path);
      NotEmpty(p.mounts[i].source);
    }
  }

  lemma MountsNeedClean(p: Payload, i: nat)
    requires (forall y :: y in p.mounts <==> FactOfAny(p.processes, y)) && i < |p.processes|
    requires MountsAccepted(p.processes[i]) && forall j: nat :: j < |p.mounts| ==> KernelPolicy.MountOk(p, j)
    ensures MountsClean(p.processes[i])
  {
    hide PlanPathOk, PathOk, FactOfAny, HasService;
    var x := p.processes[i];
    assert FactOf(x, |x.mounts|, RootFact(x));
    FactPassed(p, i, RootFact(x));
    CleanPath(x.mountRoot);
    forall k | 0 <= k < |x.mounts|
      ensures 0 !in x.mounts[k].path && 0 !in x.mounts[k].source
    {
      assert MountAccepted(x.mounts[k]);
      var y := MountFact(x, k);
      assert FactOf(x, |x.mounts|, y);
      FactPassed(p, i, y);
      assert y.path != [] by { AcceptedPath(y.path); }
      CleanPath(y.path);
      CleanPath(y.source);
    }
  }

  lemma AcceptedPath(path: Str)
    requires PlanPathOk(path)
    ensures path != []
  {}

  lemma FactPassed(p: Payload, i: nat, y: PolicyMount)
    requires (forall z :: z in p.mounts <==> FactOfAny(p.processes, z)) && i < |p.processes|
    requires FactOf(p.processes[i], |p.processes[i].mounts|, y)
    requires forall j: nat :: j < |p.mounts| ==> KernelPolicy.MountOk(p, j)
    ensures PathOk(y.mountRoot) && (IsRootMount(y) || (PathOk(y.path) && PathOk(y.source)))
  {
    hide FactOf, PathOk, HasService;
    assert FactOfAny(p.processes, y);
    var j :| 0 <= j < |p.mounts| && p.mounts[j] == y;
    assert KernelPolicy.MountOk(p, j);
  }

  // ----- State paths -----

  lemma {:induction false} PathSource(plan: Plan, grants: seq<PlanGrant>, x: Entry<PathKey>) returns (i: nat)
    requires x in PathGifts(plan, grants)
    ensures i < |grants| && x in PathGift(plan, grants[i])
  {
    hide PathGift;
    var n := |grants| - 1;
    if x in PathGift(plan, grants[n]) {
      i := n;
    } else {
      i := PathSource(plan, grants[..n], x);
    }
  }

  /** A contribution to the state-path facts: the grant behind it, and the process that holds the grant. */
  lemma PathParts(plan: Plan, g: PlanGrant, x: Entry<PathKey>) returns (index: nat)
    requires x in PathGift(plan, g)
    ensures ProcessNamed(plan.processes, g.process) == Some(index) && index < |plan.processes|
    ensures x.key.service == NodeId(plan.processes[index])
    ensures g.objectKind == OBJECT_VFS_ROOT && RootOf(plan, g) == Some(x.key.root) && x.rights == g.rights
    ensures Reaches(x.key.root, x.key.state) && IsVolume(plan.states, x.key.state)
  {
    hide ProcessNamed, RootOf, VolumeGifts, Reaches, IsVolume;
    index := ProcessNamed(plan.processes, g.process).value;
    VolumeKeys(plan.states, NodeId(plan.processes[index]), RootOf(plan, g).value, g.rights, x);
  }

  /** Only needs are granted VFS roots. */
  lemma RootGrant(m: Manifest, processes: seq<Process>, root: Str, init: Str, stores: seq<Str>, ports: seq<Str>,
                  g: PlanGrant)
    requires g in PlanGrants(m, processes, root, init, stores, ports) && g.objectKind == OBJECT_VFS_ROOT
    ensures g in AllGrants(m, processes, root, m.services)
  {
    hide AllBasicGrants, AllEndpointGrants, AllGrants, AllDeviceGrants, AllPortGrants, IsPci, IsVirtio, Served,
         EndpointName, ProcessFor, FindCapability;
    if g in AllGrants(m, processes, root, m.services) {
    } else if g in AllBasicGrants(processes, root, m.services) {
      var k := BasicOrigin(processes, root, m.services, g);
    } else if g in AllEndpointGrants(m, processes, root, init, m.capabilities) {
      var k := EndpointOrigin(m, processes, root, init, m.capabilities, g);
    } else if g in AllDeviceGrants(processes, m.devices) {
      var d := DeviceOrigin(processes, m.devices, g);
    } else if g in AllPortGrants(m, processes, root, ports) {
      var port := PortOrigin(m, processes, root, ports, g);
    }
  }

  /** What the compiler checked about a VFS root before it granted it. */
  lemma RootChecked(p: Payload, m: Manifest, root: Str, plan: Plan, o: Objects, resolves: Capability -> bool,
                    facts: Facts, g: PlanGrant, index: nat, path: Str)
    requires Whole(p, m, root, plan, o, resolves, facts) && g in plan.grants && g.objectKind == OBJECT_VFS_ROOT
    requires ProcessNamed(plan.processes, g.process) == Some(index) && index < |plan.processes|
    requires RootOf(plan, g) == Some(path)
    ensures PlanPathOk(path) && VfsGrantOk(m, NodeId(plan.processes[index]), path, g.rights)
    ensures Allowed(g.rights, KNOWN_RIGHTS)
  {
    hide PlanGrants, Derivable, MergedAll, CapabilityInput, RequirementInput, PathGifts, Emitted, EndpointNames,
         EndpointGrantable, EndpointsEmitted, FactsEmitted, OriginOk, NeedGrant, ServiceGrantable, WithServices,
         StateKept, PlanPathOk, VfsGrantOk, AllGrants, ProcessNamed, KindOf, Pow2, Narrow, NeedGrantable, Within;
    RootGrant(m, plan.processes, root, InitName(plan.processes), o.stores, plan.objects.ports, g);
    assert m.services[..|m.services|] == m.services;
    var from := GrantOrigin(m, plan.processes, root, |m.services|, g);
    var s := OriginService(m, plan, root, g, from);
    EmittedService(plan, s.id, index);
    assert ServiceGrantable(m, s, resolves);
    NeedChecked(m, root, plan, o, resolves, from.service, from.need, g, path);
  }

  lemma NeedChecked(m: Manifest, root: Str, plan: Plan, o: Objects, resolves: Capability -> bool, k: nat, j: nat,
                    g: PlanGrant, path: Str)
    requires PlanOk(m, root, plan, o) && k < |m.services| && j < |m.services[k].needs|
    requires ServiceGrantable(m, m.services[k], resolves) && NeedGrant(m, g.process, m.services[k].needs[j]) == [g]
    requires g.objectKind == OBJECT_VFS_ROOT && RootOf(plan, g) == Some(path)
    ensures PlanPathOk(path) && VfsGrantOk(m, m.services[k].id, path, g.rights) && Allowed(g.rights, KNOWN_RIGHTS)
  {
    hide PlanOk, PlanPathOk, VfsGrantOk, NeedGrant, NeedGrantable, Within, RootIndex;
    var found := NeedRoot(m, root, plan, o, resolves, k, j, g);
    NeedKnown(m, g.process, m.services[k].needs[j], g);
  }

  lemma NeedKnown(m: Manifest, process: Str, need: Need, g: PlanGrant)
    requires NeedGrant(m, process, need) == [g]
    ensures Allowed(g.rights, KNOWN_RIGHTS)
  {
    hide Within, RawMask, Grantable, ObjectName, FindCapability;
    var c := FindCapability(m.capabilities, need.capability).value;
    MaskKnown(c.rights);
    WithinTrans(g.rights, DeclaredMask(c.rights).value, KNOWN_RIGHTS, 16);
  }

  /** The volume of a state-path fact is owned by its service or shared with it. */
  lemma OwnerAllowed(p: Payload, m: Manifest, root: Str, plan: Plan, o: Objects, service: Str, path: Str, rights: nat,
                     state: Str)
    requires PlanOk(m, root, plan, o) && p.states == plan.states && VfsGrantOk(m, service, path, rights)
    requires Reaches(path, state) && IsVolume(plan.states, state)
    ensures StateById(p.states, state).Some? && OwnerOk(StateById(p.states, state).value, service)
  {
    hide WithServices, Reaches, MountComponent, StateById, RootReads, Shares;
    var volume := StateById(p.states, state);
    var k :| 0 <= k < |plan.states| && plan.states[k] == volume.value;
    assert StateKept(m.states[k], plan.states[k]);
    assert Reaches(path, m.states[k].id);
    SharedIsExplicit(m.states[k], service, rights, path);
    NotOwnerOnly();
  }

  /** The grant behind a state-path fact, with everything but the root's bytes checked. */
  lemma PathFact(p: Payload, m: Manifest, root: Str, plan: Plan, o: Objects, resolves: Capability -> bool,
                 facts: Facts, x: Entry<PathKey>)
    requires Whole(p, m, root, plan, o, resolves, facts) && x in PathGifts(plan, plan.grants)
    ensures Runs(plan.processes, x.key.service) && Allowed(x.rights, KNOWN_RIGHTS) && PlanPathOk(x.key.root)
    ensures StateById(p.states, x.key.state).Some?
    ensures OwnerOk(StateById(p.states, x.key.state).value, x.key.service)
    ensures exists i, k :: 0 <= i < |plan.grants| && 0 <= k < |plan.states|
                           && Spans(plan, plan.grants[i], plan.states[k])
                           && RootOf(plan, plan.grants[i]) == Some(x.key.root)
  {
    hide Whole, PathGifts, PathGift, Within, ProcessNamed, RootOf, Reaches, VfsGrantOk, StateById, PlanPathOk, OwnerOk;
    var i := PathSource(plan, plan.grants, x);
    var g := plan.grants[i];
    var index := PathParts(plan, g, x);
    RootChecked(p, m, root, plan, o, resolves, facts, g, index, x.key.root);
    WholeParts(p, m, root, plan, o, resolves, facts);
    OwnerAllowed(p, m, root, plan, o, x.key.service, x.key.root, g.rights, x.key.state);
    assert plan.processes[index].serviceId == x.key.service;
    var k :| 0 <= k < |plan.states| && plan.states[k].id == x.key.state;
    assert Spans(plan, plan.grants[i], plan.states[k]);
  }

  lemma WholeParts(p: Payload, m: Manifest, root: Str, plan: Plan, o: Objects, resolves: Capability -> bool,
                   facts: Facts)
    requires Whole(p, m, root, plan, o, resolves, facts)
    ensures PlanOk(m, root, plan, o) && Apart(plan.processes) && GrantsNarrow(plan.grants)
    ensures p.states == plan.states && p.processes == plan.processes && Emitted(p, plan, facts)
    ensures FactsEmitted(p, m, plan) && facts.paths == MergedAll([], PathGifts(plan, plan.grants))
    ensures Derivable(m, plan, LaterFacts(m, plan))
    ensures Narrow(LaterFacts(m, plan)) && Narrow(LaterNeeds(m, plan))
    ensures facts.capabilities == MergedAll([], CapabilityInput(m, plan, LaterFacts(m, plan)))
    ensures facts.requirements == MergedAll([], RequirementInput(m, plan, LaterNeeds(m, plan)))
  {
    hide PlanOk, Apart, GrantsNarrow, MergedAll, PathGifts, Derivable, LaterFacts, LaterNeeds, Narrow, CapabilityInput,
         RequirementInput, PlanGrants, EndpointNames, EndpointGrantable, ServiceGrantable, KindOf, FactsEmitted,
         GrantEmitted;
  }

  lemma StatePathPasses(p: Payload, m: Manifest, root: Str, plan: Plan, o: Objects, resolves: Capability -> bool,
                        facts: Facts, i: nat)
    requires Whole(p, m, root, plan, o, resolves, facts) && Checked(plan) && i < |p.statePaths|
    ensures StatePathOk(p, i) <==> PathOk(p.statePaths[i].root)
    ensures PathsClean(plan) ==> PathOk(p.statePaths[i].root)
  {
    hide Whole, PathGifts, Within, StateById, OwnerOk, PathOk, PlanPathOk, MergedAll, HasService, Runs, Spans, RootOf,
         FactsEmitted, Derivable, LaterFacts, LaterNeeds, CapabilityInput, RequirementInput, PlanOk, Apart,
         GrantEmitted, Pow2, MountsAccepted, VolumesDiffer, MountsClean;
    WholeParts(p, m, root, plan, o, resolves, facts);
    var xs, f := PathGifts(plan, plan.grants), p.statePaths[i];
    assert f == StatePathFact(facts.paths[i]);
    PathsNarrow(plan, plan.grants);
    forall j | 0 <= j < |xs| && xs[j].key == facts.paths[i].key
      ensures xs[j].rights != 0 && Allowed(xs[j].rights, KNOWN_RIGHTS)
    {
      PathKeys(plan, plan.grants, xs[j]);
      PathFact(p, m, root, plan, o, resolves, facts, xs[j]);
    }
    var k := TableEntry(xs, facts.paths, i, KNOWN_RIGHTS);
    PathFact(p, m, root, plan, o, resolves, facts, xs[k]);
    RunsHere(p, f.service);
    CleanPath(f.root);
    PlacesApart(p, plan, facts, i);
  }

  lemma PlacesApart(p: Payload, plan: Plan, facts: Facts, i: nat)
    requires Emitted(p, plan, facts) && facts.paths == MergedAll([], PathGifts(plan, plan.grants))
             && i < |p.statePaths|
    ensures forall j :: 0 <= j < i ==> !SamePlace(p.statePaths[j], p.statePaths[i])
  {
    hide MergedAll, PathGifts, GrantEmitted;
    UniqueAll(PathGifts(plan, plan.grants));
    forall j | 0 <= j < i
      ensures !SamePlace(p.statePaths[j], p.statePaths[i])
    {
      assert p.statePaths[j] == StatePathFact(facts.paths[j]);
    }
  }

  /** A NUL in a granted root that reaches a volume ends in a state-path fact. */
  lemma PathNeedsClean(p: Payload, m: Manifest, root: Str, plan: Plan, o: Objects, resolves: Capability -> bool,
                       facts: Facts, i: nat, k: nat)
    requires Whole(p, m, root, plan, o, resolves, facts) && Checked(plan)
    requires i < |plan.grants| && k < |plan.states| && Spans(plan, plan.grants[i], plan.states[k])
    requires forall j: nat :: j < |p.statePaths| ==> StatePathOk(p, j)
    ensures 0 !in RootOf(plan, plan.grants[i]).value
  {
    hide Whole, PathGifts, Within, StateById, OwnerOk, PathOk, PlanPathOk, MergedAll, HasService, RootOf, Reaches,
         FactsEmitted, Derivable, LaterFacts, LaterNeeds, CapabilityInput, RequirementInput, PlanOk, Apart, VfsGrantOk,
         ProcessNamed, ObjectIndex, Pow2, MountsAccepted, VolumesDiffer;
    WholeParts(p, m, root, plan, o, resolves, facts);
    var g, path := plan.grants[i], RootOf(plan, plan.grants[i]).value;
    PathHeld(p, plan, facts, i, path, k);
    var service := NodeId(plan.processes[p.grants[i].processIndex]);
    var j :| 0 <= j < |p.statePaths| && p.statePaths[j].service == service
             && p.statePaths[j].state == plan.states[k].id && p.statePaths[j].root == path
             && Allowed(g.rights, p.statePaths[j].rights);
    assert StatePathOk(p, j);
    assert GrantEmitted(plan, g, p.grants[i]);
    RootChecked(p, m, root, plan, o, resolves, facts, g, p.grants[i].processIndex, path);
    CleanPath(path);
  }

  // ----- Bootstrap facts -----

  lemma FourInTwelve()
    ensures Within(4, 0xc, 4)
  {
    assert Within(1, 3, 2);
    assert Within(2, 6, 3);
  }

  /** The known bootstrap rights are bits 0-2, 4-18 and 22-26. */
  lemma BootstrapRights(a: nat, b: nat, c: nat, d: nat)
    requires a < 8 && b < 0x1000 && c < 8 && (d == 0 || d == 4)
    ensures Within(a + 0x10 * b + 0x1_0000 * c + 0x10_0000 * d, KNOWN_BOOTSTRAP, 64)
  {
    hide Within, Pow2;
    Powers();
    FourInTwelve();
    OnesHold(a, 3, 4);
    OnesHold(b, 12, 12);
    OnesHold(c, 3, 4);
    WithinZero(7, 40);
    WithinZero(0xc, 4);
    WithinJoin(d, 0xc, 0, 7, 4, 40);
    WithinJoin(c, 7, d, 0x7c, 4, 44);
    WithinJoin(b, 0xfff, c + 16 * d, 0x7c7, 12, 48);
    WithinJoin(a, 7, b + 0x1000 * (c + 16 * d), 0x7c_7fff, 4, 60);
  }

  lemma RuleRightsKnown(name: Str, rule: Str)
    ensures RuleRights(name, rule) != 0 && Within(RuleRights(name, rule), KNOWN_BOOTSTRAP, 64)
  {
    hide Within;
    BootstrapRights(1, 0, 0, 0);
    BootstrapRights(0, 1, 0, 0);
    BootstrapRights(0, 2, 0, 0);
    BootstrapRights(0, 4, 0, 0);
    BootstrapRights(0, 0xf0c, 7, 0);
    BootstrapRights(1, 0, 0, 4);
  }

  /** Authorities and rules have names. */
  lemma BootstrapNamed(plan: Plan, b: PolicyBootstrap)
    requires b in Bootstraps(plan)
    ensures b.authority != [] && b.rule != []
  {
    hide AllGrantBootstraps, InitialProcess, ProcessCalled, FromCompact;
    assert |ENDPOINT_PREFIX| == 9 && |BOOT_MODULE_KRUSTBOOT_MANIFEST| == 30 && |PROCESS_CONTROL| == 15;
    assert |TIMER_MONOTONIC_TIMER| == 21 && |SECRET_LOGD_TOKEN| == 17;
    RuleLengths();
    if b in AllGrantBootstraps(plan.processes, plan.grants) {
      var i := GrantOf(plan.processes, plan.grants, b);
    }
  }

  lemma BootstrapPasses(p: Payload, m: Manifest, plan: Plan, i: nat)
    requires FactsEmitted(p, m, plan) && Apart(plan.processes) && p.processes == plan.processes
             && i < |p.bootstraps|
    ensures BootstrapOk(p, i)
  {
    hide Bootstraps, Apart, Within, RuleRights, Provisions, FactOfAny, Distinct;
    var b := p.bootstraps[i];
    assert b in Bootstraps(plan);
    BootstrapsConsistent(plan);
    BootstrapNamed(plan, b);
    RuleRightsKnown(ProcessOf(p.processes, b.service).value.name, b.rule);
  }

  // ----- All facts -----

  lemma CapabilitiesReady(p: Payload, m: Manifest, root: Str, plan: Plan, o: Objects, resolves: Capability -> bool,
                          facts: Facts)
    requires Whole(p, m, root, plan, o, resolves, facts)
    ensures CapabilitiesMade(p, m, plan, facts, CapabilityInput(m, plan, LaterFacts(m, plan)))
    ensures Narrow(RequirementInput(m, plan, LaterNeeds(m, plan)))
    ensures AllFair(plan.processes, CapabilityInput(m, plan, LaterFacts(m, plan)),
                    RequirementInput(m, plan, LaterNeeds(m, plan)))
  {
    hide Whole, CapabilityInput, RequirementInput, LaterFacts, LaterNeeds, MergedAll, Narrow, AllSound, AllFair,
         Emitted, FactsEmitted, PlanOk, Apart, PathGifts;
    WholeParts(p, m, root, plan, o, resolves, facts);
    InputNarrow(m, plan, LaterFacts(m, plan), LaterNeeds(m, plan));
    InputSound(m, plan);
    InputFair(m, plan);
    DerivableFree(m, plan, LaterFacts(m, plan));
  }

  /** Requirements, provisions and bootstrap facts pass whatever the manifest. */
  lemma AlwaysPass(p: Payload, m: Manifest, root: Str, plan: Plan, o: Objects, resolves: Capability -> bool,
                   facts: Facts)
    requires Whole(p, m, root, plan, o, resolves, facts)
    ensures forall i: nat :: i < |p.requirements| ==> RequirementOk(p, i)
    ensures forall i: nat :: i < |p.provisions| ==> ProvideOk(p, i)
    ensures forall i: nat :: i < |p.bootstraps| ==> BootstrapOk(p, i)
  {
    hide Whole, CapabilityInput, RequirementInput, LaterFacts, LaterNeeds, MergedAll, Narrow, AllFair, Apart, PlanOk,
         CapabilitiesMade, RequirementOk, ProvideOk, BootstrapOk, GrantEmitted, PathGifts, Derivable, Provisions,
         Bootstraps, FactOfAny, RulesApart;
    WholeParts(p, m, root, plan, o, resolves, facts);
    CapabilitiesReady(p, m, root, plan, o, resolves, facts);
    var xs := CapabilityInput(m, plan, LaterFacts(m, plan));
    forall i: nat | i < |p.requirements|
      ensures RequirementOk(p, i)
    {
      RequirementPasses(p, m, plan, facts, xs, RequirementInput(m, plan, LaterNeeds(m, plan)), i);
    }
    forall i: nat | i < |p.provisions|
      ensures ProvideOk(p, i)
    {
      assert p.provisions[i] in p.provisions;
      ProvidePasses(p, m, plan, facts, xs, i);
    }
    forall i: nat | i < |p.bootstraps|
      ensures BootstrapOk(p, i)
    {
      BootstrapPasses(p, m, plan, i);
    }
  }

  lemma CapabilitiesDecided(p: Payload, m: Manifest, root: Str, plan: Plan, o: Objects, resolves: Capability -> bool,
                            facts: Facts)
    requires Whole(p, m, root, plan, o, resolves, facts) && ObjectsEmitted(p, plan.objects)
    ensures (forall i: nat :: i < |p.capabilities| ==> CapabilityOk(p, i)) <==> NamesGiven(m, plan)
  {
    hide Whole, CapabilityInput, LaterFacts, CapabilitiesMade, CapabilityOk, NamesGiven, ObjectsEmitted, Derivable;
    WholeParts(p, m, root, plan, o, resolves, facts);
    CapabilitiesReady(p, m, root, plan, o, resolves, facts);
    var xs := CapabilityInput(m, plan, LaterFacts(m, plan));
    if NamesGiven(m, plan) {
      forall i: nat | i < |p.capabilities|
        ensures CapabilityOk(p, i)
      {
        CapabilityPasses(p, m, plan, facts, xs, i);
      }
    }
    if forall i: nat :: i < |p.capabilities| ==> CapabilityOk(p, i) { NamesNeeded(p, m, plan, facts, xs); }
  }

  lemma CleanDecided(p: Payload, m: Manifest, root: Str, plan: Plan, o: Objects, resolves: Capability -> bool,
                     facts: Facts)
    requires Whole(p, m, root, plan, o, resolves, facts) && Checked(plan)
    ensures (forall i: nat :: i < |p.mounts| ==> KernelPolicy.MountOk(p, i))
            && (forall i: nat :: i < |p.statePaths| ==> StatePathOk(p, i)) <==>
            PathsClean(plan)
  {
    hide Whole, KernelPolicy.MountOk, StatePathOk, MountsClean, MountsAccepted, Spans, RootOf, FactOfAny, Distinct,
         Emitted, PlanOk, Apart, Derivable, LaterFacts, LaterNeeds, CapabilityInput, RequirementInput, PathGifts,
         Narrow, VolumesDiffer, PathOk;
    WholeParts(p, m, root, plan, o, resolves, facts);
    MountsPass(p);
    forall i: nat | i < |p.statePaths|
      ensures StatePathOk(p, i) <==> PathOk(p.statePaths[i].root)
      ensures PathsClean(plan) ==> PathOk(p.statePaths[i].root)
    {
      StatePathPasses(p, m, root, plan, o, resolves, facts, i);
    }
    if forall i: nat :: i < |p.statePaths| ==> StatePathOk(p, i) {
      forall i, k | 0 <= i < |plan.grants| && 0 <= k < |plan.states| && Spans(plan, plan.grants[i], plan.states[k])
        ensures RootOf(plan, plan.grants[i]).Some? && 0 !in RootOf(plan, plan.grants[i]).value
      {
        SpansRoot(plan, plan.grants[i], plan.states[k]);
        PathNeedsClean(p, m, root, plan, o, resolves, facts, i, k);
      }
    }
  }

  lemma SpansRoot(plan: Plan, g: PlanGrant, state: StateVolume)
    requires Spans(plan, g, state)
    ensures RootOf(plan, g).Some?
  {}

  /** The kernel finds the facts of a compiled payload in order exactly when names are given and paths are clean. */
  lemma FactsDecided(p: Payload, m: Manifest, root: Str, plan: Plan, o: Objects, resolves: Capability -> bool,
                     facts: Facts)
    requires Whole(p, m, root, plan, o, resolves, facts) && Checked(plan) && ObjectsEmitted(p, plan.objects)
    ensures FactsOk(p) <==> NamesGiven(m, plan) && PathsClean(plan)
  {
    hide Whole, Checked, ObjectsEmitted, NamesGiven, PathsClean, CapabilityOk, RequirementOk, ProvideOk,
         KernelPolicy.MountOk, StatePathOk, BootstrapOk;
    CapabilitiesDecided(p, m, root, plan, o, resolves, facts);
    CleanDecided(p, m, root, plan, o, resolves, facts);
    AlwaysPass(p, m, root, plan, o, resolves, facts);
  }

  /** The kernel accepts the policy of a compiled payload exactly when every health check has a kind, names are
      given and paths are clean. */
  lemma PolicyDecided(p: Payload, m: Manifest, root: Str, plan: Plan, o: Objects, resolves: Capability -> bool,
                      facts: Facts)
    requires Whole(p, m, root, plan, o, resolves, facts) && Checked(plan) && ObjectsEmitted(p, plan.objects)
    ensures PolicyOk(p) <==> HealthNamed(m, plan.processes, root) && NamesGiven(m, plan) && PathsClean(plan)
  {
    hide Whole, ObjectsEmitted, NamesGiven, PathsClean, FactsOk, UsesOk, HealthNamed, MountsAccepted, VolumesDiffer;
    FactsDecided(p, m, root, plan, o, resolves, facts);
    UsesDecided(p, m, root, plan, o, resolves, facts);
  }
}
