/** The kernel's checks on how policy facts are used, run on what the boot compiler emits. */
module CompilerUses {
  import opened Bits
  import opened Results
  import opened BootRecords
  import opened BootPayload
  import opened Manifests
  import opened PolicyTerms
  import opened FactTables
  import opened CompilerFacts
  import opened CompilerPaths
  import opened CompilerGrants
  import opened CompilerMounts
  import opened CompilerOffers
  import opened CompilerEndpoints
  import opened CompilerBootstraps
  import opened CompilerPolicy
  import opened KernelPolicy

  // ----- A whole plan -----

  /** The kind of a service's health check, empty if it has none. */
  function KindOf(m: Manifest, service: Str): Str {
    var s := FindService(m.services, service);
    if s.None? || s.value.health.None? then [] else s.value.health.value
  }

  /** The initial process runs the root service, and every other process a service of its own. */
  ghost predicate ProcessesOk(m: Manifest, root: Str, processes: seq<Process>) {
    && Apart(processes) && processes != [] && processes[0].initial && processes[0].serviceId == root
    && (forall i :: 0 < i < |processes| ==>
          !processes[i].initial && processes[i].healthKind == KindOf(m, processes[i].serviceId))
  }

  function InitName(processes: seq<Process>): Str {
    if processes == [] then [] else processes[0].name
  }

  /** All grants of a plan, in order. */
  function PlanGrants(m: Manifest, processes: seq<Process>, root: Str, init: Str, stores: seq<Str>,
                      ports: seq<Str>): seq<PlanGrant> {
    InitGrants(init) + AllBasicGrants(processes, root, m.services)
    + AllEndpointGrants(m, processes, root, init, m.capabilities)
    + VerifierGrants(processes, stores) + AllGrants(m, processes, root, m.services)
    + AllDeviceGrants(processes, m.devices)
    + AllPortGrants(m, processes, root, ports)
  }

  ghost predicate EndpointsEmitted(p: Payload, plan: Plan) {
    |p.endpoints| == |plan.objects.endpoints| && forall i :: 0 <= i < |p.endpoints| ==>
          p.endpoints[i].name == plan.objects.endpoints[i]
  }

  ghost predicate FactsEmitted(p: Payload, m: Manifest, plan: Plan) {
    && (forall x :: x in p.provisions <==> x in Provisions(m, plan, m.services))
    && (forall b :: b in p.bootstraps <==> b in Bootstraps(plan)) && RulesApart(p.bootstraps)
    && Distinct(p.mounts) && (forall x :: x in p.mounts <==> FactOfAny(p.processes, x))
  }

  /** Everything a compilation establishes, every grant and fact included. */
  ghost predicate Whole(p: Payload, m: Manifest, root: Str, plan: Plan, o: Objects, resolves: Capability -> bool,
                        facts: Facts) {
    && Compiled(p, m, root, plan, o, resolves, LaterFacts(m, plan), LaterNeeds(m, plan), facts)
    && ProcessesOk(m, root, plan.processes)
    && plan.grants == PlanGrants(m, plan.processes, root, InitName(plan.processes), o.stores, plan.objects.ports)
    && plan.objects.endpoints == EndpointNames(m, plan.processes, root, m.capabilities)
    && (forall i :: 0 <= i < |m.capabilities| ==>
          EndpointGrantable(m, plan.processes, root, plan.objects.endpoints, m.capabilities[i]))
    && EndpointsEmitted(p, plan) && FactsEmitted(p, m, plan)
  }

  /** Every service that is told to report readiness runs in a process with a health kind. */
  ghost predicate HealthNamed(m: Manifest, processes: seq<Process>, root: Str) {
    forall i :: 0 <= i < |m.services| && Granted(processes, root, m.services[i]) && m.services[i].health.Some? ==>
                  KindOf(m, m.services[i].id) != []
  }

  ghost predicate Passes(p: Payload, i: nat) {
    i < |p.grants| && Authorized(p, p.grants[i])
  }

  // ----- Where grants come from -----

  lemma {:induction false} BasicOrigin(processes: seq<Process>, root: Str, ss: seq<Service>, g: PlanGrant)
    returns (k: nat)
    requires g in AllBasicGrants(processes, root, ss)
    ensures k < |ss| && g in BasicGrants(processes, root, ss[k])
  {
    hide BasicGrants;
    var n := |ss| - 1;
    if g in BasicGrants(processes, root, ss[n]) {
      k := n;
    } else {
      k := BasicOrigin(processes, root, ss[..n], g);
    }
  }

  lemma {:induction false} BasicIn(processes: seq<Process>, root: Str, ss: seq<Service>, k: nat)
    requires k < |ss|
    ensures forall g :: g in BasicGrants(processes, root, ss[k]) ==> g in AllBasicGrants(processes, root, ss)
  {
    hide BasicGrants;
    if k < |ss| - 1 { BasicIn(processes, root, ss[..|ss| - 1], k); }
  }

  lemma {:induction false} EndpointOrigin(m: Manifest, processes: seq<Process>, root: Str, init: Str,
                                          cs: seq<Capability>, g: PlanGrant)
    returns (k: nat)
    requires g in AllEndpointGrants(m, processes, root, init, cs)
    ensures k < |cs| && g in EndpointGrants(m, processes, root, init, cs[k])
  {
    hide EndpointGrants;
    var n := |cs| - 1;
    if g in EndpointGrants(m, processes, root, init, cs[n]) {
      k := n;
    } else {
      k := EndpointOrigin(m, processes, root, init, cs[..n], g);
    }
  }

  lemma {:induction false} DeviceOrigin(processes: seq<Process>, ds: seq<Device>, g: PlanGrant) returns (d: Device)
    requires g in AllDeviceGrants(processes, ds)
    ensures d in ds && g in DeviceGrants(processes, d)
  {
    hide DeviceGrants;
    var n := |ds| - 1;
    if g in DeviceGrants(processes, ds[n]) {
      d := ds[n];
    } else {
      d := DeviceOrigin(processes, ds[..n], g);
    }
  }

  lemma {:induction false} PortOrigin(m: Manifest, processes: seq<Process>, root: Str, ports: seq<Str>, g: PlanGrant)
    returns (port: Str)
    requires g in AllPortGrants(m, processes, root, ports)
    ensures port in ports && g in PortGrants(m, processes, root, port)
  {
    hide PortGrants;
    var n := |ports| - 1;
    if g in PortGrants(m, processes, root, ports[n]) {
      port := ports[n];
    } else {
      port := PortOrigin(m, processes, root, ports[..n], g);
    }
  }

  // ----- Rules -----

  lemma Reserved()
    ensures SERIAL_LOG != READINESS && READINESS != READINESS_SEND
  {
    assert |SERIAL_LOG| == 10 && |READINESS| == 9 && |READINESS_SEND| == 14;
  }

  /** The one grant for which the compiler notes a rule that the kernel does not have. */
  predicate Mute(x: Process, endpoint: Str, rights: nat) {
    endpoint == READINESS && !x.initial && x.healthKind == [] && rights == RIGHT_SEND
  }

  lemma RulesAgree(x: Process, endpoint: Str, rights: nat)
    ensures BuiltinRule(x, endpoint, rights) == if Mute(x, endpoint, rights) then None
                                                else CompilerRule(x, endpoint, rights)
    ensures Mute(x, endpoint, rights) ==> CompilerRule(x, endpoint, rights) == Some(READINESS_SEND)
  {
    Reserved();
  }

  lemma {:induction false} CalledIsNamed(processes: seq<Process>, name: Str)
    ensures ProcessCalled(processes, name) ==
            if ProcessNamed(processes, name).None? then None else Some(processes[ProcessNamed(processes, name).value])
  {
    if processes != [] && processes[0].name != name { CalledIsNamed(processes[1..], name); }
  }

  /** The process and the endpoint behind an emitted endpoint grant. */
  lemma EndpointGrant(p: Payload, plan: Plan, facts: Facts, i: nat) returns (x: Process)
    requires Emitted(p, plan, facts) && EndpointsEmitted(p, plan) && Apart(plan.processes)
    requires i < |plan.grants| && plan.grants[i].objectKind == OBJECT_ENDPOINT
    ensures i < |p.grants|
    ensures var g, e := plan.grants[i], p.grants[i];
            && e.processIndex < |p.processes| && x == p.processes[e.processIndex] && x in plan.processes
            && x.name == g.process
            && e.objectKind == OBJECT_ENDPOINT && e.objectIndex < |p.endpoints|
            && p.endpoints[e.objectIndex].name == g.objectName
            && e.rights == g.rights && ProcessCalled(plan.processes, g.process) == Some(x) && ServiceOf(x) == NodeId(x)
  {
    hide ProcessNamed, ProcessCalled;
    assert GrantEmitted(plan, plan.grants[i], p.grants[i]);
    x := p.processes[p.grants[i].processIndex];
    CalledIsNamed(plan.processes, plan.grants[i].process);
    OfItself(plan.processes, x);
  }

  lemma {:induction false} BootstrapIn(processes: seq<Process>, grants: seq<PlanGrant>, i: nat)
    requires i < |grants|
    ensures forall b :: b in GrantBootstraps(processes, grants[i]) ==> b in AllGrantBootstraps(processes, grants)
  {
    hide GrantBootstraps;
    if i < |grants| - 1 { BootstrapIn(processes, grants[..|grants| - 1], i); }
  }

  /** The fact of an endpoint grant the compiler has a rule for. */
  lemma GrantFact(p: Payload, m: Manifest, plan: Plan, facts: Facts, i: nat, x: Process) returns (b: PolicyBootstrap)
    requires FactsEmitted(p, m, plan) && i < |plan.grants| && plan.grants[i].objectKind == OBJECT_ENDPOINT
    requires ProcessCalled(plan.processes, plan.grants[i].process) == Some(x)
    requires CompilerRule(x, plan.grants[i].objectName, plan.grants[i].rights).Some?
    ensures b in p.bootstraps && b.service == NodeId(x) && b.authority == ENDPOINT_PREFIX + plan.grants[i].objectName
    ensures Some(b.rule) == CompilerRule(x, plan.grants[i].objectName, plan.grants[i].rights)
    ensures b.rights == FromCompact(plan.grants[i].rights)
  {
    hide CompilerRule, FromCompact, SecretBootstraps, InitialBootstraps, InternalBootstraps;
    b := GrantBootstraps(plan.processes, plan.grants[i])[0];
    BootstrapIn(plan.processes, plan.grants, i);
    assert b in Bootstraps(plan);
  }

  /** A grant under a rule of the kernel passes. */
  lemma RuleAuthorized(p: Payload, m: Manifest, plan: Plan, facts: Facts, i: nat)
    requires Emitted(p, plan, facts) && EndpointsEmitted(p, plan) && FactsEmitted(p, m, plan) && Apart(plan.processes)
    requires i < |plan.grants| && plan.grants[i].objectKind == OBJECT_ENDPOINT
    requires var x := ProcessCalled(plan.processes, plan.grants[i].process);
             x.Some? ==> BuiltinRule(x.value, plan.grants[i].objectName, plan.grants[i].rights).Some?
    ensures Passes(p, i)
  {
    hide CompilerRule, BuiltinRule, FromCompact, Within, FactsEmitted, Emitted, EndpointsEmitted, SpokenFor, VolumesOk;
    var x := EndpointGrant(p, plan, facts, i);
    var g, e := plan.grants[i], p.grants[i];
    RulesAgree(x, g.objectName, g.rights);
    var b := GrantFact(p, m, plan, facts, i, x);
    WithinSelf(FromCompact(g.rights), 64);
    assert StripPrefix(b.authority, ENDPOINT_PREFIX) == Some(g.objectName);
    assert BootstrapAllows(p, ServiceOf(x), g.objectName, b.rule, e.rights);
  }

  // ----- Logging, readiness and delegation -----

  lemma InitAuthorized(p: Payload, m: Manifest, root: Str, plan: Plan, facts: Facts, i: nat)
    requires Emitted(p, plan, facts) && EndpointsEmitted(p, plan) && FactsEmitted(p, m, plan)
             && ProcessesOk(m, root, plan.processes)
    requires i < |plan.grants| && plan.grants[i] in InitGrants(plan.processes[0].name)
    ensures Passes(p, i)
  {
    hide Emitted, EndpointsEmitted, FactsEmitted, Authorized, ProcessCalled;
    CalledItself(plan.processes, plan.processes[0]);
    Reserved();
    RuleAuthorized(p, m, plan, facts, i);
  }

  /** The process a service was granted something for. */
  lemma GrantedProcess(m: Manifest, root: Str, processes: seq<Process>, s: Service) returns (x: Process)
    requires ProcessesOk(m, root, processes) && Granted(processes, root, s)
    ensures x in processes && x.name == ProcessFor(processes, s.id).value && x.serviceId == s.id
    ensures ProcessCalled(processes, x.name) == Some(x) && !x.initial && x.healthKind == KindOf(m, s.id)
  {
    hide ProcessFor, ProcessCalled, KindOf;
    var k := ServedBy(processes, s.id);
    x := processes[k];
    CalledItself(processes, x);
  }

  lemma BasicAuthorized(p: Payload, m: Manifest, root: Str, plan: Plan, facts: Facts, i: nat, k: nat)
    requires Emitted(p, plan, facts) && EndpointsEmitted(p, plan) && FactsEmitted(p, m, plan)
             && ProcessesOk(m, root, plan.processes)
    requires k < |m.services| && i < |plan.grants| && plan.grants[i] in BasicGrants(plan.processes, root, m.services[k])
    requires HealthNamed(m, plan.processes, root)
    ensures Passes(p, i)
  {
    hide Emitted, EndpointsEmitted, FactsEmitted, Authorized, ProcessCalled, ProcessFor, KindOf, Apart;
    var x := GrantedProcess(m, root, plan.processes, m.services[k]);
    Reserved();
    assert ProcessesOk(m, root, plan.processes);
    RuleAuthorized(p, m, plan, facts, i);
  }

  // -- what endpoints are called --

  lemma {:induction false} NamesStart(m: Manifest, processes: seq<Process>, root: Str, cs: seq<Capability>)
    ensures var names := EndpointNames(m, processes, root, cs);
            |names| >= 2 && names[0] == SERIAL_LOG && names[1] == READINESS
  {
    hide Served;
    if cs != [] { NamesStart(m, processes, root, cs[..|cs| - 1]); }
  }

  lemma NotReserved(m: Manifest, processes: seq<Process>, root: Str, name: Str)
    requires var at := IndexOf(EndpointNames(m, processes, root, m.capabilities), name); at.Some? && at.value >= 2
    ensures name != SERIAL_LOG && name != READINESS
  {
    hide EndpointNames;
    NamesStart(m, processes, root, m.capabilities);
    Reserved();
    var names := EndpointNames(m, processes, root, m.capabilities);
    assert names == [names[0]] + names[1..];
  }

  lemma DelegationAuthorized(p: Payload, m: Manifest, root: Str, plan: Plan, facts: Facts, i: nat, name: Str)
    requires Emitted(p, plan, facts) && EndpointsEmitted(p, plan) && FactsEmitted(p, m, plan)
             && ProcessesOk(m, root, plan.processes)
    requires i < |plan.grants| && plan.grants[i] == PlanGrant(plan.processes[0].name, OBJECT_ENDPOINT, name, RIGHT_SEND)
    requires name != SERIAL_LOG && name != READINESS
    ensures Passes(p, i)
  {
    hide Emitted, EndpointsEmitted, FactsEmitted, Authorized, ProcessCalled;
    CalledItself(plan.processes, plan.processes[0]);
    RuleAuthorized(p, m, plan, facts, i);
  }

  // ----- Providers of endpoints -----

  lemma KeyGift(m: Manifest, plan: Plan, later: CapabilityTable, c: Capability, key: CapabilityKey)
    returns (x: Entry<CapabilityKey>)
    requires Derivable(m, plan, later) && c in m.capabilities && KeyOf(plan.objects, c) == Some(key)
    ensures x in CapabilityInput(m, plan, later) && x.key == key
  {
    hide KeyOf, DeclaredMask, ConflictFree, CapabilityGifts, StoreGifts, ServiceReads, PathReads, Native;
    var k :| 0 <= k < |m.capabilities| && m.capabilities[k] == c;
    assert CapabilityReads(plan, m.capabilities[k]);
    x := Entry(key, DeclaredMask(c.rights).value);
    assert x in CapabilityGift(plan, c);
    GiftIn(plan, m.capabilities, c, x);
  }

  lemma SameKey(xs: CapabilityTable, x: Entry<CapabilityKey>, y: Entry<CapabilityKey>)
    requires ConflictFree(xs) && x in xs && y in xs && x.key.id == y.key.id
    ensures x.key == y.key
  {
    var i :| 0 <= i < |xs| && xs[i] == x;
    var j :| 0 <= j < |xs| && xs[j] == y;
  }

  /** A served endpoint is offered by its provider under the key of its capability. */
  lemma OfferHeld(m: Manifest, plan: Plan, c: Capability, index: nat) returns (key: CapabilityKey)
    requires Derivable(m, plan, LaterFacts(m, plan)) && c in m.capabilities && OffersEndpoint(m, c)
             && Native(plan.processes, c.provider)
    requires c.kind == KIND_IPC_ENDPOINT && IndexOf(plan.objects.endpoints, EndpointName(c.id)) == Some(index)
    ensures key == CapabilityKey(c.id, c.provider, OBJECT_ENDPOINT, index)
    ensures PolicyProvide(c.provider, c.id) in Provisions(m, plan, m.services)
    ensures Entry(key, RIGHT_RECEIVE) in CapabilityInput(m, plan, LaterFacts(m, plan))
  {
    hide IndexOf, EndpointName, Native, FindService, FindCapability, CapabilityGifts, StoreGifts, OfferGifts,
         DriverGifts, SecretGifts, Provisions, Derivable;
    var s, first := FindService(m.services, c.provider).value, FindCapability(m.capabilities, c.id).value;
    key := CapabilityKey(c.id, c.provider, OBJECT_ENDPOINT, index);
    var x := KeyGift(m, plan, LaterFacts(m, plan), c, key);
    var y := KeyGift(m, plan, LaterFacts(m, plan), first, CapabilityKey(c.id, first.provider, OBJECT_ENDPOINT, index));
    assert ConflictFree(CapabilityInput(m, plan, LaterFacts(m, plan)))
    by { DerivableFree(m, plan, LaterFacts(m, plan)); }
    SameKey(CapabilityInput(m, plan, LaterFacts(m, plan)), x, y);
    assert OfferKey(m, plan.objects, s.id, c.id) == Some(key);
    OffersIn(m, plan, m.services, s, c.id);
  }

  lemma DerivableFree(m: Manifest, plan: Plan, later: CapabilityTable)
    requires Derivable(m, plan, later)
    ensures ConflictFree(CapabilityInput(m, plan, later))
  {
    hide ConflictFree, CapabilityInput;
  }

  lemma ProviderAuthorized(p: Payload, m: Manifest, root: Str, plan: Plan, o: Objects, resolves: Capability -> bool,
                           facts: Facts, i: nat, c: Capability)
    requires Whole(p, m, root, plan, o, resolves, facts) && i < |plan.grants| && c in m.capabilities
    requires Served(m, plan.processes, root, c) && OffersEndpoint(m, c)
    requires plan.grants[i]
          == PlanGrant(ProcessFor(plan.processes, c.provider).value, OBJECT_ENDPOINT, EndpointName(c.id), RIGHT_RECEIVE)
    ensures Passes(p, i)
  {
    hide Derivable, MergedAll, CapabilityInput, RequirementInput, PathGifts, Pow2, VolumesOk, Builtin, Lookup, Within,
         PlanOk, LaterFacts, LaterNeeds, EndpointName, Provisions, Bootstraps, EndpointNames, PlanGrants,
         OffersEndpoint, EndpointGrantable, Wanted, ProcessFor, GrantsNarrow, ServiceGrantable;
    var e := p.grants[i];
    assert GrantEmitted(plan, plan.grants[i], e);
    EmittedService(plan, c.provider, e.processIndex);
    var key := OfferHeld(m, plan, c, e.objectIndex);
    InputNarrow(m, plan, LaterFacts(m, plan), LaterNeeds(m, plan));
    AllHeld(CapabilityInput(m, plan, LaterFacts(m, plan)), Entry(key, RIGHT_RECEIVE));
    SmallNarrow();
    var j := HeldHasEntry(facts.capabilities, key, RIGHT_RECEIVE);
    assert p.capabilities[j] == CapabilityFact(facts.capabilities[j]);
    assert PolicyProvide(c.provider, c.id) in p.provisions;
    assert Speaks(p, c.provider, e, p.capabilities[j]);
    NoVolumes(p, c.provider, e);
  }

  // ----- The store verifier, drivers and providers of ports -----

  /** A grant whose capability and requirement are both among the facts passes. */
  lemma FactAuthorized(p: Payload, m: Manifest, root: Str, plan: Plan, o: Objects, resolves: Capability -> bool,
                       facts: Facts, i: nat, service: Str, key: CapabilityKey)
    requires Whole(p, m, root, plan, o, resolves, facts) && i < |plan.grants| && Native(plan.processes, service)
    requires var g := plan.grants[i];
             && g.process == ProcessFor(plan.processes, service).value && g.objectKind == key.objectKind
             && g.rights in {4, 64}
             && g.objectKind != OBJECT_ENDPOINT && g.objectKind != OBJECT_VFS_ROOT
             && (ObjectIndex(plan.objects, g.objectKind, g.objectName).Some? ==>
                   ObjectIndex(plan.objects, g.objectKind, g.objectName) == Some(key.objectIndex))
             && Entry(key, g.rights) in CapabilityInput(m, plan, LaterFacts(m, plan))
             && Entry(RequirementKey(service, key.id), g.rights) in RequirementInput(m, plan, LaterNeeds(m, plan))
    ensures Passes(p, i)
  {
    hide Derivable, MergedAll, CapabilityInput, RequirementInput, PathGifts, Pow2, VolumesOk, Builtin, Lookup, Within,
         PlanOk, LaterFacts, LaterNeeds, Provisions, Bootstraps, EndpointNames, PlanGrants, EndpointGrantable,
         ProcessFor, GrantsNarrow, ServiceGrantable, ObjectIndex, SpokenFor;
    var g, e := plan.grants[i], p.grants[i];
    assert GrantEmitted(plan, g, e);
    assert PlanOk(m, root, plan, o);
    assert Apart(plan.processes);
    EmittedService(plan, service, e.processIndex);
    InputNarrow(m, plan, LaterFacts(m, plan), LaterNeeds(m, plan));
    AllHeld(CapabilityInput(m, plan, LaterFacts(m, plan)), Entry(key, g.rights));
    AllHeld(RequirementInput(m, plan, LaterNeeds(m, plan)), Entry(RequirementKey(service, key.id), g.rights));
    SmallNarrow();
    Spoken(p, plan, facts, service, e, key);
    NoVolumes(p, service, e);
  }

  /** The object of a grant that was emitted is in the plan. */
  lemma EmittedObject(p: Payload, plan: Plan, facts: Facts, i: nat) returns (index: nat)
    requires Emitted(p, plan, facts) && i < |plan.grants|
    ensures ObjectIndex(plan.objects, plan.grants[i].objectKind, plan.grants[i].objectName) == Some(index)
  {
    hide ObjectIndex, ProcessNamed;
    assert GrantEmitted(plan, plan.grants[i], p.grants[i]);
    index := p.grants[i].objectIndex;
  }

  lemma VerifierAuthorized(p: Payload, m: Manifest, root: Str, plan: Plan, o: Objects, resolves: Capability -> bool,
                           facts: Facts, i: nat)
    requires Whole(p, m, root, plan, o, resolves, facts) && i < |plan.grants|
    requires plan.grants[i] in VerifierGrants(plan.processes, o.stores)
    ensures Passes(p, i)
  {
    hide Derivable, MergedAll, PathGifts, Pow2, PlanOk, Provisions, Bootstraps, EndpointNames, PlanGrants,
         EndpointGrantable, ProcessFor, GrantsNarrow, ServiceGrantable, Authorized, CapabilityGifts, StoreGifts,
         PortNeeds, ServiceGifts, OfferGifts, DriverGifts, DriverNeeds, SecretGifts, SecretNeeds, IndexOf,
         GrantEmitted;
    var g := plan.grants[i];
    var index := EmittedObject(p, plan, facts, i);
    var x := Entry(CapabilityKey(g.objectName, g.objectName, OBJECT_STORE, index), RIGHT_READ);
    assert x in StoreGift(plan.objects, g.objectName);
    StoreIn(plan.objects, plan.objects.stores, g.objectName);
    assert Entry(RequirementKey(VERTEX_STORE, g.objectName), RIGHT_READ) in VerifierNeeds(plan);
    FactAuthorized(p, m, root, plan, o, resolves, facts, i, VERTEX_STORE, x.key);
  }

  lemma DeviceAuthorized(p: Payload, m: Manifest, root: Str, plan: Plan, o: Objects, resolves: Capability -> bool,
                         facts: Facts, i: nat, d: Device)
    requires Whole(p, m, root, plan, o, resolves, facts) && i < |plan.grants|
    requires d in m.devices && plan.grants[i] in DeviceGrants(plan.processes, d)
    ensures Passes(p, i)
  {
    hide Derivable, MergedAll, PathGifts, Pow2, PlanOk, Provisions, Bootstraps, EndpointNames, PlanGrants,
         EndpointGrantable, ProcessFor, GrantsNarrow, ServiceGrantable, Authorized, CapabilityGifts, StoreGifts,
         PortNeeds, ServiceGifts, OfferGifts, DriverGifts, DriverNeeds, SecretGifts, SecretNeeds, VerifierNeeds,
         IndexOf, GrantEmitted, IsPci, IsVirtio;
    var g := plan.grants[i];
    var index := EmittedObject(p, plan, facts, i);
    var suffix := if g.objectKind == OBJECT_PCI_DEVICE then PCI_SUFFIX else VIRTIO_SUFFIX;
    var key := CapabilityKey(d.id + suffix, d.driver, g.objectKind, index);
    assert Entry(key, RIGHT_CONTROL) in DriverGift(plan, d);
    assert Entry(RequirementKey(d.driver, key.id), RIGHT_CONTROL) in DriverNeed(plan, d);
    DriverIn(plan, m.devices, d);
    FactAuthorized(p, m, root, plan, o, resolves, facts, i, d.driver, key);
  }

  lemma {:induction false} PortIn(plan: Plan, cs: seq<Capability>, c: Capability)
    requires c in cs
    ensures forall x :: x in PortNeed(plan, c) ==> x in PortNeeds(plan, cs)
  {
    hide PortNeed;
    if c != cs[|cs| - 1] { PortIn(plan, cs[..|cs| - 1], c); }
  }

  lemma PortAuthorized(p: Payload, m: Manifest, root: Str, plan: Plan, o: Objects, resolves: Capability -> bool,
                       facts: Facts, i: nat, port: Str)
    requires Whole(p, m, root, plan, o, resolves, facts) && i < |plan.grants|
    requires plan.grants[i] in PortGrants(m, plan.processes, root, port)
    ensures Passes(p, i)
  {
    hide MergedAll, PathGifts, Pow2, PlanOk, Provisions, Bootstraps, EndpointNames, PlanGrants, EndpointGrantable,
         ProcessFor, GrantsNarrow, ServiceGrantable, Authorized, CapabilityGifts, StoreGifts, PortNeeds, ServiceGifts,
         LaterFacts, LaterNeeds, IndexOf, GrantEmitted, FindCapability, DeclaredMask, ConflictFree, ServiceReads,
         PathReads;
    var g, c := plan.grants[i], FindCapability(m.capabilities, port).value;
    var index := EmittedObject(p, plan, facts, i);
    var key := CapabilityKey(c.id, c.provider, OBJECT_NETWORK_PORT, index);
    assert KeyOf(plan.objects, c) == Some(key) by { PortKey(plan.objects, c, index); }
    var k :| 0 <= k < |m.capabilities| && m.capabilities[k] == c;
    assert CapabilityReads(plan, m.capabilities[k]);
    hide KeyOf;
    GiftIn(plan, m.capabilities, c, Entry(key, RIGHT_CONTROL));
    PortIn(plan, m.capabilities, c);
    FactAuthorized(p, m, root, plan, o, resolves, facts, i, c.provider, key);
  }

  lemma PortKey(o: Objects, c: Capability, index: nat)
    requires c.kind == KIND_NETWORK_PORT && IndexOf(o.ports, c.id) == Some(index)
    ensures KeyOf(o, c) == Some(CapabilityKey(c.id, c.provider, OBJECT_NETWORK_PORT, index))
  {
    assert |KIND_NETWORK_PORT| == 12 && |KIND_IPC_ENDPOINT| == 12 && |KIND_STORE_OBJECT| == 12 && |KIND_TIMER| == 5;
    assert KIND_NETWORK_PORT[0] == 110 && KIND_IPC_ENDPOINT[0] == 105 && KIND_STORE_OBJECT[0] == 115;
  }

  // ----- Every grant -----

  /** Unless a service with an unnamed health check reports readiness, every grant passes. */
  lemma AllAuthorized(p: Payload, m: Manifest, root: Str, plan: Plan, o: Objects, resolves: Capability -> bool,
                      facts: Facts, i: nat)
    requires Whole(p, m, root, plan, o, resolves, facts) && HealthNamed(m, plan.processes, root) && i < |plan.grants|
    ensures Passes(p, i)
  {
    hide Compiled, ProcessesOk, EndpointNames, EndpointGrantable, EndpointsEmitted, FactsEmitted, HealthNamed, Passes,
         InitGrants, AllBasicGrants, AllEndpointGrants, VerifierGrants, AllGrants, AllDeviceGrants, AllPortGrants,
         LaterFacts, LaterNeeds;
    CompiledEmits(p, m, root, plan, o, resolves, facts);
    var g, init := plan.grants[i], InitName(plan.processes);
    assert g in PlanGrants(m, plan.processes, root, init, o.stores, plan.objects.ports);
    if g in InitGrants(init) {
      InitAuthorized(p, m, root, plan, facts, i);
    } else if g in AllBasicGrants(plan.processes, root, m.services) {
      var k := BasicOrigin(plan.processes, root, m.services, g);
      BasicAuthorized(p, m, root, plan, facts, i, k);
    } else if g in AllEndpointGrants(m, plan.processes, root, init, m.capabilities) {
      var k := EndpointOrigin(m, plan.processes, root, init, m.capabilities, g);
      EndpointAuthorized(p, m, root, plan, o, resolves, facts, i, k);
    } else if g in VerifierGrants(plan.processes, o.stores) {
      VerifierAuthorized(p, m, root, plan, o, resolves, facts, i);
    } else if g in AllGrants(m, plan.processes, root, m.services) {
      NeedOrConfigAuthorized(p, m, root, plan, o, resolves, facts, i);
    } else if g in AllDeviceGrants(plan.processes, m.devices) {
      var d := DeviceOrigin(plan.processes, m.devices, g);
      DeviceAuthorized(p, m, root, plan, o, resolves, facts, i, d);
    } else {
      var port := PortOrigin(m, plan.processes, root, plan.objects.ports, g);
      PortAuthorized(p, m, root, plan, o, resolves, facts, i, port);
    }
  }

  lemma CompiledEmits(p: Payload, m: Manifest, root: Str, plan: Plan, o: Objects, resolves: Capability -> bool,
                      facts: Facts)
    requires Whole(p, m, root, plan, o, resolves, facts)
    ensures Emitted(p, plan, facts) && ProcessesOk(m, root, plan.processes) && plan.processes != []
            && |p.grants| == |plan.grants|
  {
    hide PlanOk, Derivable, MergedAll, EndpointGrantable, Apart;
  }

  lemma NeedOrConfigAuthorized(p: Payload, m: Manifest, root: Str, plan: Plan, o: Objects, resolves: Capability -> bool,
                               facts: Facts, i: nat)
    requires Whole(p, m, root, plan, o, resolves, facts) && i < |plan.grants|
    requires plan.grants[i] in AllGrants(m, plan.processes, root, m.services)
    ensures Passes(p, i)
  {
    hide Compiled, Authorized, AllGrants, ProcessesOk, EndpointGrantable, EndpointsEmitted, FactsEmitted;
    CompiledEmits(p, m, root, plan, o, resolves, facts);
    GrantsAuthorized(p, m, root, plan, o, resolves, LaterFacts(m, plan), LaterNeeds(m, plan), facts, i);
  }

  lemma EndpointAuthorized(p: Payload, m: Manifest, root: Str, plan: Plan, o: Objects, resolves: Capability -> bool,
                           facts: Facts, i: nat, k: nat)
    requires Whole(p, m, root, plan, o, resolves, facts) && i < |plan.grants| && k < |m.capabilities|
    requires plan.grants[i] in EndpointGrants(m, plan.processes, root, InitName(plan.processes), m.capabilities[k])
    ensures Passes(p, i)
  {
    hide Compiled, Passes, ProcessesOk, EndpointsEmitted, FactsEmitted, OffersEndpoint, Wanted, IndexOf, EndpointNames,
         EndpointName, ProcessFor, SendsOnly;
    var c := m.capabilities[k];
    CompiledEmits(p, m, root, plan, o, resolves, facts);
    assert EndpointGrantable(m, plan.processes, root, plan.objects.endpoints, m.capabilities[k]);
    NotReserved(m, plan.processes, root, EndpointName(c.id));
    if plan.grants[i].rights == RIGHT_RECEIVE {
      ProviderAuthorized(p, m, root, plan, o, resolves, facts, i, c);
    } else {
      DelegationAuthorized(p, m, root, plan, facts, i, EndpointName(c.id));
    }
  }

  // ----- Every bootstrap fact -----

  /** An endpoint's authority is none of the others. */
  lemma EndpointAuthority(endpoint: Str)
    ensures var a := ENDPOINT_PREFIX + endpoint;
            && a != BOOT_MODULE_KRUSTBOOT_MANIFEST && a != PROCESS_CONTROL && a != TIMER_MONOTONIC_TIMER
            && a != SECRET_LOGD_TOKEN
            && StripPrefix(a, ENDPOINT_PREFIX) == Some(endpoint)
  {
    var a := ENDPOINT_PREFIX + endpoint;
    assert |ENDPOINT_PREFIX| == 9 && ENDPOINT_PREFIX[0] == 101;
    assert a[0] == 101;
    assert BOOT_MODULE_KRUSTBOOT_MANIFEST[0] == 98 && PROCESS_CONTROL[0] == 112 && TIMER_MONOTONIC_TIMER[0] == 116;
    assert SECRET_LOGD_TOKEN[0] == 115;
    assert a[|ENDPOINT_PREFIX|..] == endpoint;
  }

  lemma Authorities()
    ensures PROCESS_CONTROL != BOOT_MODULE_KRUSTBOOT_MANIFEST && TIMER_MONOTONIC_TIMER != BOOT_MODULE_KRUSTBOOT_MANIFEST
    ensures TIMER_MONOTONIC_TIMER != PROCESS_CONTROL && SECRET_LOGD_TOKEN != BOOT_MODULE_KRUSTBOOT_MANIFEST
    ensures SECRET_LOGD_TOKEN != PROCESS_CONTROL && SECRET_LOGD_TOKEN != TIMER_MONOTONIC_TIMER
  {
    assert |BOOT_MODULE_KRUSTBOOT_MANIFEST| == 30 && |PROCESS_CONTROL| == 15 && |TIMER_MONOTONIC_TIMER| == 21
           && |SECRET_LOGD_TOKEN| == 17;
  }

  /** The fact of an endpoint grant is used exactly when the kernel has the rule. */
  lemma GrantFactUsed(p: Payload, m: Manifest, plan: Plan, facts: Facts, i: nat, b: PolicyBootstrap)
    requires Emitted(p, plan, facts) && EndpointsEmitted(p, plan) && Apart(plan.processes)
    requires i < |plan.grants| && GrantBootstraps(plan.processes, plan.grants[i]) == [b]
    requires var x := ProcessCalled(plan.processes, plan.grants[i].process);
             x.Some? ==> !Mute(x.value, plan.grants[i].objectName, plan.grants[i].rights)
    ensures BootstrapUsed(p, b)
  {
    hide CompilerRule, BuiltinRule, FromCompact, Emitted, EndpointsEmitted, InternalUse;
    var x := EndpointGrant(p, plan, facts, i);
    var g, e := plan.grants[i], p.grants[i];
    RulesAgree(x, g.objectName, g.rights);
    EndpointAuthority(g.objectName);
    assert BuiltinUse(p, b, g.objectName, e);
  }

  /** Only a service that reports readiness sends to the readiness endpoint. */
  lemma MuteOrigin(m: Manifest, root: Str, plan: Plan, o: Objects, g: PlanGrant, x: Process)
    requires ProcessesOk(m, root, plan.processes) && ProcessCalled(plan.processes, g.process) == Some(x)
    requires plan.objects.endpoints == EndpointNames(m, plan.processes, root, m.capabilities)
    requires forall i :: 0 <= i < |m.capabilities| ==>
          EndpointGrantable(m, plan.processes, root, plan.objects.endpoints, m.capabilities[i])
    requires g in PlanGrants(m, plan.processes, root, InitName(plan.processes), o.stores, plan.objects.ports)
    requires g.objectKind == OBJECT_ENDPOINT && HealthNamed(m, plan.processes, root)
    ensures !Mute(x, g.objectName, g.rights)
  {
    hide AllBasicGrants, AllEndpointGrants, AllGrants, AllDeviceGrants, AllPortGrants, EndpointNames,
         EndpointGrantable, ProcessCalled, HealthNamed, KindOf;
    var init := InitName(plan.processes);
    CalledItself(plan.processes, plan.processes[0]);
    Reserved();
    if g in AllBasicGrants(plan.processes, root, m.services) {
      var k := BasicOrigin(plan.processes, root, m.services, g);
      BasicNotMute(m, root, plan.processes, k, g, x);
    } else if g in AllEndpointGrants(m, plan.processes, root, init, m.capabilities) {
      var k := EndpointOrigin(m, plan.processes, root, init, m.capabilities, g);
      assert EndpointGrantable(m, plan.processes, root, plan.objects.endpoints, m.capabilities[k]);
      NotReservedFor(m, root, plan, m.capabilities[k], g);
    } else if g in AllGrants(m, plan.processes, root, m.services) {
      NoEndpointNeeds(m, plan.processes, root, g);
    } else if g in AllDeviceGrants(plan.processes, m.devices) {
      var d := DeviceOrigin(plan.processes, m.devices, g);
    } else if g in AllPortGrants(m, plan.processes, root, plan.objects.ports) {
      var port := PortOrigin(m, plan.processes, root, plan.objects.ports, g);
    }
  }

  lemma BasicNotMute(m: Manifest, root: Str, processes: seq<Process>, k: nat, g: PlanGrant, x: Process)
    requires ProcessesOk(m, root, processes) && k < |m.services| && g in BasicGrants(processes, root, m.services[k])
    requires ProcessCalled(processes, g.process) == Some(x) && HealthNamed(m, processes, root)
    ensures !Mute(x, g.objectName, g.rights)
  {
    hide ProcessFor, ProcessCalled, KindOf, ProcessesOk;
    Reserved();
    var y := GrantedProcess(m, root, processes, m.services[k]);
  }

  lemma NotReservedFor(m: Manifest, root: Str, plan: Plan, c: Capability, g: PlanGrant)
    requires EndpointGrantable(m, plan.processes, root, plan.objects.endpoints, c)
    requires plan.objects.endpoints == EndpointNames(m, plan.processes, root, m.capabilities)
    requires g in EndpointGrants(m, plan.processes, root, InitName(plan.processes), c)
    ensures g.objectName != READINESS
  {
    hide EndpointNames, EndpointName, Wanted, OffersEndpoint, SendsOnly, ProcessFor, IndexOf;
    NotReserved(m, plan.processes, root, EndpointName(c.id));
  }

  /** No need or config is granted an endpoint. */
  lemma NoEndpointNeeds(m: Manifest, processes: seq<Process>, root: Str, g: PlanGrant)
    requires g in AllGrants(m, processes, root, m.services)
    ensures g.objectKind != OBJECT_ENDPOINT
  {
    hide AllGrants, ProcessFor, RightsMask, Grantable, ObjectName;
    assert m.services[..|m.services|] == m.services;
    var from := GrantOrigin(m, processes, root, |m.services|, g);
    if from.FromNeed? {
      var need := m.services[from.service].needs[from.need];
      NotEndpoint(FindCapability(m.capabilities, need.capability).value);
    }
  }

  lemma InternalUsed(p: Payload, processes: seq<Process>, name: Str, endpoint: Str, rights: nat)
    requires p.processes == processes && Apart(processes) && InternalPair(name, endpoint, FromCompact(rights))
    ensures forall b :: b in InternalBootstrap(processes, name, endpoint, rights) ==> BootstrapUsed(p, b)
  {
    hide FromCompact, BuiltinUsed, InternalPair;
    var x := ProcessCalled(processes, name);
    if x.Some? {
      OfItself(processes, x.value);
      EndpointAuthority(endpoint);
    }
  }

  lemma InternalsUsed(p: Payload, processes: seq<Process>, states: seq<StateVolume>)
    requires p.processes == processes && Apart(processes)
    ensures forall b :: b in InternalBootstraps(processes, states) ==> BootstrapUsed(p, b)
  {
    hide BootstrapUsed, InternalBootstrap, Apart, FromCompact;
    Compact();
    InternalUsed(p, processes, VERTEX_STATE, STATE_VFS_REQUEST, RIGHT_RECEIVE);
    InternalUsed(p, processes, VERTEX_STATE, STATE_VFS_REPLY, RIGHT_SEND);
    InternalUsed(p, processes, BLOCK_DRIVER, VERTEXFS_DEVICE_REQUEST, RIGHT_RECEIVE);
    InternalUsed(p, processes, BLOCK_DRIVER, VERTEXFS_DEVICE_REPLY, RIGHT_SEND);
    InternalUsed(p, processes, BLOCK_DRIVER, GENERATION_METADATA_BLOCK_REQUEST, RIGHT_RECEIVE);
    InternalUsed(p, processes, BLOCK_DRIVER, GENERATION_METADATA_BLOCK_REPLY, RIGHT_SEND);
    InternalUsed(p, processes, GEN_MANAGER, GENERATION_METADATA_BLOCK_REQUEST, RIGHT_SEND);
    InternalUsed(p, processes, GEN_MANAGER, GENERATION_METADATA_BLOCK_REPLY, RIGHT_RECEIVE);
  }

  lemma InitialUsed(p: Payload, processes: seq<Process>)
    requires p.processes == processes && Apart(processes)
    ensures forall b :: b in InitialBootstraps(processes) ==> BootstrapUsed(p, b)
  {
    hide FromCompact, BuiltinUsed, InternalUse;
    Compact();
    Authorities();
    var x := InitialProcess(processes);
    if x.Some? { OfItself(processes, x.value); }
  }

  /** The log daemon's secret is required where the bootstrap fact says. */
  lemma SecretUsed(p: Payload, m: Manifest, root: Str, plan: Plan, o: Objects, resolves: Capability -> bool,
                   facts: Facts)
    requires Whole(p, m, root, plan, o, resolves, facts)
    ensures forall b :: b in SecretBootstraps(plan.processes) ==> BootstrapUsed(p, b)
  {
    hide Derivable, MergedAll, CapabilityInput, PathGifts, Pow2, Lookup, Within, PlanOk, LaterFacts, Provisions,
         Bootstraps, EndpointNames, PlanGrants, EndpointGrantable, GrantsNarrow, ServiceGrantable, PortNeeds,
         ServiceGifts, DriverNeeds, VerifierNeeds, GrantEmitted;
    var x := ProcessCalled(plan.processes, LOGD);
    if x.Some? {
      OfItself(plan.processes, x.value);
      Authorities();
      var y := Entry(RequirementKey(NodeId(x.value), SECRET_LOGD_TOKEN), RIGHT_READ);
      assert y in SecretNeeds(plan.processes);
      assert y in RequirementInput(m, plan, LaterNeeds(m, plan));
      SecretRequired(p, m, root, plan, o, resolves, facts, y);
    }
  }

  lemma SecretRequired(p: Payload, m: Manifest, root: Str, plan: Plan, o: Objects, resolves: Capability -> bool,
                       facts: Facts, y: Entry<RequirementKey>)
    requires Whole(p, m, root, plan, o, resolves, facts) && y in RequirementInput(m, plan, LaterNeeds(m, plan))
             && y.rights == RIGHT_READ
    ensures RequirementAllows(p, y.key.service, y.key.capability, RIGHT_READ)
  {
    hide Derivable, MergedAll, CapabilityInput, RequirementInput, PathGifts, Pow2, Lookup, Within, PlanOk, LaterFacts,
         LaterNeeds, Provisions, Bootstraps, EndpointNames, PlanGrants, EndpointGrantable, GrantsNarrow,
         ServiceGrantable, GrantEmitted;
    InputNarrow(m, plan, LaterFacts(m, plan), LaterNeeds(m, plan));
    AllHeld(RequirementInput(m, plan, LaterNeeds(m, plan)), y);
    SmallNarrow();
    var j := HeldHasEntry(facts.requirements, y.key, RIGHT_READ);
    assert p.requirements[j] == RequirementFact(facts.requirements[j]);
  }

  lemma AllUsed(p: Payload, m: Manifest, root: Str, plan: Plan, o: Objects, resolves: Capability -> bool, facts: Facts,
                b: PolicyBootstrap)
    requires Whole(p, m, root, plan, o, resolves, facts) && HealthNamed(m, plan.processes, root)
             && b in Bootstraps(plan)
    ensures BootstrapUsed(p, b)
  {
    hide Compiled, EndpointNames, EndpointGrantable, EndpointsEmitted, FactsEmitted, HealthNamed, PlanGrants,
         BootstrapUsed, SecretBootstraps, AllGrantBootstraps, InitialBootstraps, InternalBootstraps, Emitted,
         ProcessCalled, CompilerRule, FromCompact, Mute;
    CompiledEmits(p, m, root, plan, o, resolves, facts);
    assert p.processes == plan.processes by { SameProcesses(p, plan, facts); }
    if b in AllGrantBootstraps(plan.processes, plan.grants) {
      var i := GrantOf(plan.processes, plan.grants, b);
      var x := ProcessCalled(plan.processes, plan.grants[i].process).value;
      MuteOrigin(m, root, plan, o, plan.grants[i], x);
      GrantFactUsed(p, m, plan, facts, i, b);
    } else {
      SecretUsed(p, m, root, plan, o, resolves, facts);
      InitialUsed(p, plan.processes);
      InternalsUsed(p, plan.processes, plan.states);
    }
  }

  lemma SameProcesses(p: Payload, plan: Plan, facts: Facts)
    requires Emitted(p, plan, facts)
    ensures p.processes == plan.processes
  {}

  // ----- An unnamed health check -----

  /** The readiness fact of a service with an unnamed health check is never used. */
  lemma UnnamedUnused(p: Payload, m: Manifest, root: Str, plan: Plan, o: Objects, resolves: Capability -> bool,
                      facts: Facts, k: nat)
    returns (b: PolicyBootstrap)
    requires Whole(p, m, root, plan, o, resolves, facts) && k < |m.services|
             && Granted(plan.processes, root, m.services[k])
    requires m.services[k].health.Some? && KindOf(m, m.services[k].id) == []
    ensures b in p.bootstraps && !BootstrapUsed(p, b)
  {
    hide Compiled, EndpointNames, EndpointGrantable, EndpointsEmitted, FactsEmitted, BootstrapUsed, Emitted,
         ProcessCalled, KindOf, ProcessFor, AllBasicGrants, AllEndpointGrants, AllGrants, AllDeviceGrants,
         AllPortGrants, VerifierGrants, ProcessesOk;
    CompiledEmits(p, m, root, plan, o, resolves, facts);
    var s := m.services[k];
    var x := GrantedProcess(m, root, plan.processes, s);
    var g := Ready(x.name);
    assert g in BasicGrants(plan.processes, root, s);
    BasicIn(plan.processes, root, m.services, k);
    assert g in plan.grants;
    var i :| 0 <= i < |plan.grants| && plan.grants[i] == g;
    Reserved();
    b := GrantFact(p, m, plan, facts, i, x);
    assert p.processes == plan.processes by { SameProcesses(p, plan, facts); }
    assert Apart(plan.processes) by { ProcessesApart(m, root, plan.processes); }
    NeverUsed(p, plan.processes, x, b);
  }

  lemma ProcessesApart(m: Manifest, root: Str, processes: seq<Process>)
    requires ProcessesOk(m, root, processes)
    ensures Apart(processes)
  {
    hide Apart;
  }

  lemma NeverUsed(p: Payload, processes: seq<Process>, x: Process, b: PolicyBootstrap)
    requires p.processes == processes && Apart(processes) && x in processes && !x.initial && x.healthKind == []
    requires b.service == NodeId(x) && b.authority == ENDPOINT_PREFIX + READINESS && b.rule == READINESS_SEND
    ensures !BootstrapUsed(p, b)
  {
    hide FromCompact;
    EndpointAuthority(READINESS);
    Reserved();
    forall i | 0 <= i < |p.grants|
      ensures !BuiltinUse(p, b, READINESS, p.grants[i])
    {
      if p.grants[i].processIndex < |p.processes| {
        OfItself(processes, p.processes[p.grants[i].processIndex]);
        OfItself(processes, x);
      }
    }
  }

  // ----- The kernel's verdict -----

  /** What the kernel asks of the use of policy facts holds of a compiled payload if and only if every service
      that is told to report readiness has a health check with a kind. */
  lemma UsesDecided(p: Payload, m: Manifest, root: Str, plan: Plan, o: Objects, resolves: Capability -> bool,
                    facts: Facts)
    requires Whole(p, m, root, plan, o, resolves, facts)
             && (forall i :: 0 <= i < |plan.grants| ==> plan.grants[i].rights != 0)
    ensures UsesOk(p) <==> HealthNamed(m, plan.processes, root)
  {
    hide Compiled, EndpointNames, EndpointGrantable, EndpointsEmitted, Emitted, KindOf, Authorized, PlanGrants,
         BootstrapUsed, ProcessMounted, MountUsed, StatePathUsed, Granted;
    CompiledEmits(p, m, root, plan, o, resolves, facts);
    if HealthNamed(m, plan.processes, root) {
      forall i | 0 <= i < |p.grants|
        ensures Authorized(p, p.grants[i])
      {
        AllAuthorized(p, m, root, plan, o, resolves, facts, i);
      }
      forall i | 0 <= i < |p.bootstraps|
        ensures BootstrapUsed(p, p.bootstraps[i])
      {
        assert p.bootstraps[i] in p.bootstraps;
        AllUsed(p, m, root, plan, o, resolves, facts, p.bootstraps[i]);
      }
      assert p.processes == plan.processes by { SameProcesses(p, plan, facts); }
      MountsAgree(p);
      forall i | 0 <= i < |p.statePaths|
        ensures StatePathUsed(p, p.statePaths[i])
      {
        PathsUsed(p, m, root, plan, o, resolves, facts, i);
      }
    } else {
      var k :| 0 <= k < |m.services| && Granted(plan.processes, root, m.services[k]) && m.services[k].health.Some?
               && KindOf(m, m.services[k].id) == [];
      var b := UnnamedUnused(p, m, root, plan, o, resolves, facts, k);
      assert exists i :: 0 <= i < |p.bootstraps| && p.bootstraps[i] == b;
    }
  }

  lemma PathsUsed(p: Payload, m: Manifest, root: Str, plan: Plan, o: Objects, resolves: Capability -> bool,
                  facts: Facts, i: nat)
    requires Whole(p, m, root, plan, o, resolves, facts)
             && (forall k :: 0 <= k < |plan.grants| ==> plan.grants[k].rights != 0)
    requires i < |p.statePaths|
    ensures StatePathUsed(p, p.statePaths[i])
  {
    hide PlanOk, Derivable, MergedAll, GrantsNarrow, StatePathUsed, EndpointGrantable, Emitted, ProcessesOk,
         FactsEmitted, PlanGrants, EndpointNames, EndpointsEmitted, ServiceGrantable, PathGifts;
    PathFactsExact(p, m, root, plan, o, facts, i);
  }
}
