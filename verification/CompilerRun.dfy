/** The boot compiler's run over a generation manifest, as far as policy goes: processes, endpoints, grants,
    facts and the payload that carries them. */
module CompilerRun {
  import opened Bits
  import opened Results
  import opened BootRecords
  import opened BootPayload
  import opened Manifests
  import opened PolicyTerms
  import opened FactTables
  import opened CompilerFacts
  import opened CompilerPaths
  import opened CompilerGrants
  import opened CompilerMounts
  import opened CompilerOffers
  import opened CompilerEndpoints
  import opened CompilerBootstraps
  import opened CompilerPolicy
  import opened CompilerUses
  import opened CompilerChecks
  import opened KernelPolicy

  // ----- Processes and state volumes -----

  /** The initial process, and the processes of the first services of an order. */
  ghost predicate ProcessesTo(m: Manifest, root: Str, processes: seq<Process>, order: seq<Str>,
                              describe: Service -> Option<Process>) {
    && processes != [] && processes[0].initial && processes[0].serviceId == root
    && (forall i :: 0 < i < |processes| ==>
          && processes[i].serviceId in order && processes[i].serviceId != root && processes[i].serviceId != []
          && Described(m, processes[i].serviceId, describe) == Some(processes[i]))
  }

  /** The process of a service. `describe` gives its name, module and mounts, and may fail. */
  function Described(m: Manifest, id: Str, describe: Service -> Option<Process>): Option<Process> {
    var s := FindService(m.services, id);
    if s.None? then None
    else
      var x := describe(s.value);
      if x.None? then None else Some(x.value.(initial := false, serviceId := id, healthKind := KindOf(m, id)))
  }

  function Initial(init: Process, root: Str): Process {
    init.(initial := true, serviceId := root, healthKind := [])
  }

  /** The initial process, then one process to each other service of the order. */
  function ProcessesFor(m: Manifest, root: Str, order: seq<Str>, init: Process, describe: Service -> Option<Process>)
    : Option<seq<Process>> {
    if order == [] then Some([Initial(init, root)])
    else
      var before, id := ProcessesFor(m, root, order[..|order| - 1], init, describe), order[|order| - 1];
      if before.None? || id == root then before
      else
        var x := Described(m, id, describe);
        if x.None? then None else Some(before.value + [x.value])
  }

  lemma {:induction false} StaysMissing(m: Manifest, root: Str, order: seq<Str>, init: Process,
                                        describe: Service -> Option<Process>, n: nat)
    requires n <= |order| && ProcessesFor(m, root, order[..n], init, describe).None?
    ensures ProcessesFor(m, root, order, init, describe).None?
    decreases |order| - n
  {
    hide Described;
    if n == |order| {
      assert order[..n] == order;
    } else {
      assert order[..n + 1][..n] == order[..n];
      StaysMissing(m, root, order, init, describe, n + 1);
    }
  }

  method DeriveProcesses(m: Manifest, root: Str, order: seq<Str>, init: Process, describe: Service -> Option<Process>)
    returns (r: Option<seq<Process>>)
    requires root != [] && forall i :: 0 <= i < |m.services| ==> m.services[i].id != []
    ensures r == ProcessesFor(m, root, order, init, describe)
    ensures r.Some? ==> ProcessesTo(m, root, r.value, order, describe)
  {
    hide FindService, KindOf;
    var processes, i := [Initial(init, root)], 0;
    while i < |order|
      invariant i <= |order| && ProcessesTo(m, root, processes, order[..i], describe)
      invariant ProcessesFor(m, root, order[..i], init, describe) == Some(processes)
    {
      assert order[..i + 1][..i] == order[..i];
      if order[i] != root {
        var x := Described(m, order[i], describe);
        if x.None? {
          StaysMissing(m, root, order, init, describe, i + 1);
          return None;
        }
        processes := processes + [x.value];
      }
      i := i + 1;
    }
    assert order[..i] == order;
    return Some(processes);
  }

  ghost predicate NamesDiffer(processes: seq<Process>) {
    forall i, j :: 0 <= i < j < |processes| ==> processes[i].name != processes[j].name
  }

  method NamesApart(processes: seq<Process>) returns (ok: bool)
    ensures ok <==> NamesDiffer(processes)
  {
    var i := 0;
    while i < |processes|
      invariant i <= |processes| && forall a, b :: 0 <= a < b < i ==> processes[a].name != processes[b].name
    {
      if exists j :: 0 <= j < i && processes[j].name == processes[i].name {
        return false;
      }
      i := i + 1;
    }
    return true;
  }

  /** A state volume with the owner and the sharing mode of the manifest. */
  function VolumeFor(x: State, describe: State -> Option<StateVolume>): (r: Option<StateVolume>)
    ensures r.Some? ==> StateKept(x, r.value)
  {
    var volume := describe(x);
    if volume.None? || x.sharing.mode.None? || MountComponent(x.id).None? then None
    else Some(volume.value.(id := x.id, owner := x.owner, sharingPolicy := x.sharing.mode.value))
  }

  ghost predicate VolumesAre(states: seq<State>, describe: State -> Option<StateVolume>, volumes: seq<StateVolume>) {
    |volumes| == |states| && forall i :: 0 <= i < |states| ==> VolumeFor(states[i], describe) == Some(volumes[i])
  }

  method DeriveStates(states: seq<State>, describe: State -> Option<StateVolume>) returns (r: Option<seq<StateVolume>>)
    ensures r.Some? <==> forall i :: 0 <= i < |states| ==> VolumeFor(states[i], describe).Some?
    ensures r.Some? ==> VolumesAre(states, describe, r.value)
  {
    hide VolumeFor;
    var volumes, i := [], 0;
    while i < |states|
      invariant i <= |states| && |volumes| == i
      invariant forall j :: 0 <= j < i ==> VolumeFor(states[j], describe) == Some(volumes[j])
    {
      var volume := VolumeFor(states[i], describe);
      if volume.None? {
        return None;
      }
      volumes := volumes + [volume.value];
      i := i + 1;
    }
    return Some(volumes);
  }

  // ----- Grants -----

  lemma {:induction false} DevicesKeepRoots(processes: seq<Process>, o: Objects, ds: seq<Device>)
    ensures WithDevices(processes, o, ds).roots == o.roots
  {
    hide IsPci, IsVirtio, Native;
    if ds != [] { DevicesKeepRoots(processes, o, ds[..|ds| - 1]); }
  }

  const NOTHING: Objects := Objects([], [], [], [], [], [], [], [], [], [], [], [])

  /** The objects of a plan, endpoints aside. */
  function ObjectsFor(m: Manifest, root: Str, processes: seq<Process>, stores: seq<Str>): Objects {
    WithDevices(processes, WithServices(m, processes, root, NOTHING.(stores := stores), m.services), m.devices)
  }

  /** Every grant and every object of a plan. */
  function PlanFor(m: Manifest, root: Str, processes: seq<Process>, states: seq<StateVolume>, stores: seq<Str>): Plan {
    var o := ObjectsFor(m, root, processes, stores);
    Plan(processes, o.(endpoints := EndpointNames(m, processes, root, m.capabilities)),
         PlanGrants(m, processes, root, InitName(processes), stores, o.ports), states)
  }

  /** Everything a plan is to grant can be granted. */
  ghost predicate Plannable(m: Manifest, root: Str, processes: seq<Process>, stores: seq<Str>,
                            resolves: Capability -> bool) {
    && (forall i :: 0 <= i < |m.capabilities| ==>
          EndpointGrantable(m, processes, root, EndpointNames(m, processes, root, m.capabilities), m.capabilities[i]))
    && (forall i :: 0 <= i < |m.services| && Granted(processes, root, m.services[i]) ==>
          ServiceGrantable(m, m.services[i], resolves))
    && (forall i :: 0 <= i < |m.devices| ==> m.devices[i].driver != root)
    && (var ports := ObjectsFor(m, root, processes, stores).ports;
        forall i :: 0 <= i < |ports| ==> FindCapability(m.capabilities, ports[i]).Some?)
  }

  method DerivePlan(m: Manifest, root: Str, processes: seq<Process>, states: seq<StateVolume>, stores: seq<Str>,
                    resolves: Capability -> bool) returns (r: Option<Plan>)
    ensures r.Some? <==> Plannable(m, root, processes, stores, resolves)
    ensures r.Some? ==> r.value == PlanFor(m, root, processes, states, stores)
  {
    hide AllBasicGrants, AllEndpointGrants, AllGrants, AllDeviceGrants, AllPortGrants, EndpointNames, VerifierGrants,
         WithServices, WithDevices, EndpointGrantable, ServiceGrantable, Granted, FindCapability;
    var init := InitName(processes);
    var names := CollectEndpoints(m, processes, root);
    var basics := GrantBasics(processes, root, m.services);
    var endpoints := GrantEndpoints(m, processes, root, init, names);
    if endpoints.None? {
      return None;
    }
    var needs := GrantServices(m, processes, root, NOTHING.(stores := stores), resolves);
    if needs.None? {
      return None;
    }
    var devices := GrantDevices(processes, root, needs.value.0, m.devices);
    if devices.None? {
      return None;
    }
    var objects := devices.value.0.(endpoints := names);
    var ports := GrantPorts(m, processes, root, objects.ports);
    if ports.None? {
      return None;
    }
    var grants := InitGrants(init) + basics + endpoints.value + VerifierGrants(processes, stores) + needs.value.1
    + devices.value.1 + ports.value;
    return Some(Plan(processes, objects, grants, states));
  }

  // ----- Rights fit sixteen bits -----

  lemma MaskFits(required: seq<Str>, declared: seq<Str>)
    ensures RightsMask(required, declared).Some? ==> RightsMask(required, declared).value < Pow2(16)
  {
    hide Pow2, Within;
    MaskNarrow(required);
    MaskNarrow(declared);
  }

  lemma NeedFits(m: Manifest, processes: seq<Process>, root: Str, g: PlanGrant)
    requires g in AllGrants(m, processes, root, m.services)
    ensures g.rights < Pow2(16)
  {
    hide AllGrants, ProcessFor, RightsMask, Grantable, ObjectName, Pow2;
    assert m.services[..|m.services|] == m.services;
    var from := GrantOrigin(m, processes, root, |m.services|, g);
    SmallNarrow();
    if from.FromNeed? {
      var need := m.services[from.service].needs[from.need];
      MaskFits(need.rights, FindCapability(m.capabilities, need.capability).value.rights);
    }
  }

  lemma GrantFits(m: Manifest, processes: seq<Process>, root: Str, init: Str, stores: seq<Str>, ports: seq<Str>,
                  g: PlanGrant)
    requires g in PlanGrants(m, processes, root, init, stores, ports)
    ensures g.rights < Pow2(16)
  {
    hide AllBasicGrants, AllEndpointGrants, AllGrants, AllDeviceGrants, AllPortGrants, Pow2, IsPci, IsVirtio, Served,
         EndpointName, ProcessFor, FindCapability;
    SmallNarrow();
    if g in AllGrants(m, processes, root, m.services) {
      NeedFits(m, processes, root, g);
    } else if g in AllBasicGrants(processes, root, m.services) {
      var k := BasicOrigin(processes, root, m.services, g);
    } else if g in AllEndpointGrants(m, processes, root, init, m.capabilities) {
      var k := EndpointOrigin(m, processes, root, init, m.capabilities, g);
    } else if g in AllDeviceGrants(processes, m.devices) {
      var d := DeviceOrigin(processes, m.devices, g);
    } else if g in AllPortGrants(m, processes, root, ports) {
      var port := PortOrigin(m, processes, root, ports, g);
    }
  }

  // ----- Facts -----

  /** All capability, requirement and state-path facts of a plan, and its provisions. */
  method DeriveFacts(m: Manifest, plan: Plan) returns (r: Option<(Facts, seq<PolicyProvide>)>)
    ensures r.Some? <==>
            && Derivable(m, plan, LaterFacts(m, plan))
            && (forall i :: 0 <= i < |m.services| && Native(plan.processes, m.services[i].id) ==>
                  OffersKnown(m, m.services[i]))
            && (forall i :: 0 <= i < |m.devices| ==> DriverReads(plan, m.devices[i]))
    ensures r.Some? ==>
              && r.value.0.capabilities == MergedAll([], CapabilityInput(m, plan, LaterFacts(m, plan)))
              && r.value.0.requirements == MergedAll([], RequirementInput(m, plan, LaterNeeds(m, plan)))
              && r.value.0.paths == MergedAll([], PathGifts(plan, plan.grants))
              && (forall x :: x in r.value.1 <==> x in Provisions(m, plan, m.services))
  {
    hide Derivable, OffersKnown, DriverReads, MergedAll, CapabilityInput, RequirementInput, PathGifts, Provisions,
         OfferGifts, DriverGifts, DriverNeeds, SecretGifts, SecretNeeds, VerifierNeeds, Native;
    var offers := AddOffers(m, plan);
    if offers.None? {
      return None;
    }
    var drivers := AddDrivers(plan, m.devices);
    if drivers.None? {
      return None;
    }
    var facts := DerivePolicyFacts(m, plan, offers.value.0 + SecretGifts(plan.processes) + drivers.value.0,
                                   SecretNeeds(plan.processes) + drivers.value.1 + VerifierNeeds(plan));
    if facts.None? {
      return None;
    }
    var provisions := Deduplicate(offers.value.1);
    return Some((facts.value, provisions));
  }

  // ----- The payload -----

  /** A grant whose process and object are in the plan. */
  ghost predicate Numberable(plan: Plan, g: PlanGrant) {
    ProcessNamed(plan.processes, g.process).Some? && ObjectIndex(plan.objects, g.objectKind, g.objectName).Some?
  }

  /** Names become indexes. `slots` numbers the capability slots. */
  method NumberGrants(plan: Plan, slots: nat -> nat) returns (r: Option<seq<Grant>>)
    ensures r.Some? <==> forall i :: 0 <= i < |plan.grants| ==> Numberable(plan, plan.grants[i])
    ensures r.Some? ==> |r.value| == |plan.grants|
                        && forall i :: 0 <= i < |plan.grants| ==> GrantEmitted(plan, plan.grants[i], r.value[i])
  {
    hide ProcessNamed, ObjectIndex;
    var out, i := [], 0;
    while i < |plan.grants|
      invariant i <= |plan.grants| && |out| == i && forall j :: 0 <= j < i ==>
            GrantEmitted(plan, plan.grants[j], out[j])
    {
      var g := plan.grants[i];
      var process, object_ := ProcessNamed(plan.processes, g.process),
                              ObjectIndex(plan.objects, g.objectKind, g.objectName);
      if process.None? || object_.None? {
        return None;
      }
      out := out + [Grant(process.value, g.objectKind, object_.value, slots(i), g.rights)];
      i := i + 1;
    }
    return Some(out);
  }

  /** What the objects of a plan hold, by name. */
  datatype Contents = Contents(store: Str -> StoreObject, range: Str -> DeviceRange, line: Str -> InterruptLine,
                               pci: Str -> PciDevice, virtio: Str -> VirtioDevice, space: Str -> Namespace)

  function Each<T>(names: seq<Str>, record: Str -> T): (r: seq<T>)
    ensures |r| == |names| && forall i :: 0 <= i < |names| ==> r[i] == record(names[i])
  {
    seq(|names|, i requires 0 <= i < |names| => record(names[i]))
  }

  /** A record for every object of a plan. `rest` holds what no object names: modules, graph and generation. */
  function ObjectRecords(rest: Payload, contents: Contents, o: Objects): Payload {
    rest.(endpoints := Each(o.endpoints, name => Endpoint(name)),
    stores := Each(o.stores, name => contents.store(name).(id := name)),
    ports := Each(o.ports, name => NetworkPort(name)),
    ioPorts := Each(o.ioPorts, name => contents.range(name).(id := name)),
    mmioRegions := Each(o.mmioRegions, name => contents.range(name).(id := name)),
    framebuffers := Each(o.framebuffers, name => Framebuffer(name)),
    lines := Each(o.lines, name => contents.line(name).(id := name)),
    dmaRegions := Each(o.dmaRegions, name => contents.range(name).(id := name)),
    pciDevices := Each(o.pciDevices, name => contents.pci(name).(id := name)),
    virtioDevices := Each(o.virtioDevices, name => contents.virtio(name).(id := name)),
    namespaces := Each(o.namespaces, name => contents.space(name).(id := name)), roots := o.roots)
  }

  /** The objects, and the plan and its facts around them. */
  function Emission(objects: Payload, plan: Plan, facts: Facts, grants: seq<Grant>, provisions: seq<PolicyProvide>,
                    mounts: seq<PolicyMount>, bootstraps: seq<PolicyBootstrap>): Payload {
    objects.(processes := plan.processes, states := plan.states, grants := grants,
    capabilities :=
    seq(|facts.capabilities|,
    i requires 0 <= i < |facts.capabilities| => CapabilityFact(facts.capabilities[i])),
      requirements :=
      seq(|facts.requirements|,
      i requires 0 <= i < |facts.requirements| => RequirementFact(facts.requirements[i])),
        statePaths := seq(|facts.paths|, i requires 0 <= i < |facts.paths| => StatePathFact(facts.paths[i])),
          provisions := provisions, mounts := mounts, bootstraps := bootstraps)
  }

  lemma EmissionOk(rest: Payload, contents: Contents, m: Manifest, plan: Plan, facts: Facts, grants: seq<Grant>,
                   provisions: seq<PolicyProvide>, mounts: seq<PolicyMount>, bootstraps: seq<PolicyBootstrap>)
    requires |grants| == |plan.grants|
             && forall i :: 0 <= i < |grants| ==> GrantEmitted(plan, plan.grants[i], grants[i])
    requires (forall x :: x in provisions <==> x in Provisions(m, plan, m.services))
    requires (forall b :: b in bootstraps <==> b in Bootstraps(plan)) && RulesApart(bootstraps)
    requires Distinct(mounts) && (forall x :: x in mounts <==> FactOfAny(plan.processes, x))
    ensures var p := Emission(ObjectRecords(rest, contents, plan.objects), plan, facts, grants, provisions, mounts,
                              bootstraps);
            Emitted(p, plan, facts) && EndpointsEmitted(p, plan) && FactsEmitted(p, m, plan)
            && ObjectsEmitted(p, plan.objects)
  {
    hide GrantEmitted, Provisions, Bootstraps, FactOfAny, Distinct, RulesApart;
  }

  lemma PlanIsOk(m: Manifest, root: Str, plan: Plan, stores: seq<Str>, volume: State -> Option<StateVolume>)
    requires plan == PlanFor(m, root, plan.processes, plan.states, stores) && Apart(plan.processes)
    requires VolumesAre(m.states, volume, plan.states)
    ensures PlanOk(m, root, plan, NOTHING.(stores := stores)) && GrantsNarrow(plan.grants)
  {
    hide StateKept, PlanGrants, EndpointNames, WithServices, WithDevices, Pow2, VolumeFor;
    DevicesKeepRoots(plan.processes, WithServices(m, plan.processes, root, NOTHING.(stores := stores), m.services),
                     m.devices);
    forall i | 0 <= i < |m.states|
      ensures StateKept(m.states[i], plan.states[i])
    {
      assert VolumeFor(m.states[i], volume) == Some(plan.states[i]);
    }
    forall i | 0 <= i < |plan.grants|
      ensures plan.grants[i].rights < Pow2(16)
    {
      GrantFits(m, plan.processes, root, InitName(plan.processes), stores, plan.objects.ports, plan.grants[i]);
    }
  }

  // ----- The checks on a plan -----

  method VolumesApart(states: seq<StateVolume>) returns (ok: bool)
    ensures ok <==> VolumesDiffer(states)
  {
    hide MountComponent;
    var i := 0;
    while i < |states|
      invariant i <= |states|
      invariant forall a, b :: 0 <= a < b < i ==> MountComponent(states[a].id) != MountComponent(states[b].id)
    {
      if exists j :: 0 <= j < i && MountComponent(states[j].id) == MountComponent(states[i].id) {
        return false;
      }
      i := i + 1;
    }
    return true;
  }

  /** No process has two grants in one capability slot. */
  ghost predicate SlotsDiffer(grants: seq<PlanGrant>, slots: nat -> nat) {
    forall i: nat, j: nat :: i < j < |grants| && grants[i].process == grants[j].process ==> slots(i) != slots(j)
  }

  method SlotsApart(grants: seq<PlanGrant>, slots: nat -> nat) returns (ok: bool)
    ensures ok <==> SlotsDiffer(grants, slots)
  {
    var i := 0;
    while i < |grants|
      invariant i <= |grants| && SlotsDiffer(grants[..i], slots)
    {
      if exists j: nat :: j < i && grants[j].process == grants[i].process && slots(j) == slots(i) {
        return false;
      }
      i := i + 1;
    }
    assert grants[..i] == grants;
    return true;
  }

  method CheckPlan(plan: Plan, slots: nat -> nat) returns (ok: bool)
    ensures ok <==> Checked(plan) && SlotsDiffer(plan.grants, slots)
  {
    hide MountsAccepted;
    var volumes := VolumesApart(plan.states);
    var apart := SlotsApart(plan.grants, slots);
    ok := volumes && apart && (forall i :: 0 <= i < |plan.processes| ==> MountsAccepted(plan.processes[i]))
          && forall i :: 0 <= i < |plan.grants| ==> plan.grants[i].rights != 0;
  }

  /** A service has one description, so processes whose names differ run services of their own. */
  lemma ProcessesApartNow(m: Manifest, root: Str, processes: seq<Process>, order: seq<Str>,
                          describe: Service -> Option<Process>)
    requires ProcessesTo(m, root, processes, order, describe) && root != []
    requires NamesDiffer(processes)
    ensures ProcessesOk(m, root, processes)
  {
    hide KindOf, FindService;
    forall i, j | 0 <= i < j < |processes|
      ensures processes[i].serviceId != processes[j].serviceId
    {
      assert processes[i].name != processes[j].name;
    }
  }

  /** A plan that passes the checks, whose facts can be derived and whose names can be numbered. */
  ghost predicate Finishable(m: Manifest, plan: Plan, slots: nat -> nat) {
    && Checked(plan) && SlotsDiffer(plan.grants, slots)
    && Derivable(m, plan, LaterFacts(m, plan))
    && (forall i :: 0 <= i < |m.services| && Native(plan.processes, m.services[i].id) ==> OffersKnown(m, m.services[i]))
    && (forall i :: 0 <= i < |m.devices| ==> DriverReads(plan, m.devices[i]))
    && (forall i :: 0 <= i < |plan.grants| ==> Numberable(plan, plan.grants[i]))
  }

  /** When a compilation succeeds. */
  ghost predicate Compilable(m: Manifest, root: Str, order: seq<Str>, init: Process, stores: seq<Str>,
                             describe: Service -> Option<Process>, volume: State -> Option<StateVolume>,
                             resolves: Capability -> bool, slots: nat -> nat) {
    var processes := ProcessesFor(m, root, order, init, describe);
    && processes.Some? && NamesDiffer(processes.value) && Plannable(m, root, processes.value, stores, resolves)
    && exists states :: VolumesAre(m.states, volume, states)
                        && Finishable(m, PlanFor(m, root, processes.value, states, stores), slots)
  }

  /** What a compiled payload comes from, and when the kernel accepts its policy: exactly when every health check
      that reports readiness has a kind, what is named has a name, and no NUL is in a path. */
  ghost predicate Accountable(p: Payload, m: Manifest, root: Str, plan: Plan, stores: seq<Str>,
                              volume: State -> Option<StateVolume>, resolves: Capability -> bool, facts: Facts) {
    && Whole(p, m, root, plan, NOTHING.(stores := stores), resolves, facts) && p.processes == plan.processes
    && plan == PlanFor(m, root, plan.processes, plan.states, stores) && VolumesAre(m.states, volume, plan.states)
    && (UsesOk(p) <==> HealthNamed(m, plan.processes, root))
    && (FactsOk(p) <==> NamesGiven(m, plan) && PathsClean(plan))
    && (PolicyOk(p) <==> HealthNamed(m, plan.processes, root) && NamesGiven(m, plan) && PathsClean(plan))
  }

  /** Compiles a manifest. */
  method Compile(m: Manifest, root: Str, order: seq<Str>, init: Process, stores: seq<Str>,
                 describe: Service -> Option<Process>, volume: State -> Option<StateVolume>,
                 resolves: Capability -> bool, slots: nat -> nat, rest: Payload, contents: Contents)
    returns (r: Option<Payload>, ghost plan: Plan, ghost facts: Facts)
    requires root != [] && forall i :: 0 <= i < |m.services| ==> m.services[i].id != []
    ensures r.Some? <==> Compilable(m, root, order, init, stores, describe, volume, resolves, slots)
    ensures r.Some? ==>
              && Accountable(r.value, m, root, plan, stores, volume, resolves, facts)
              && ProcessesFor(m, root, order, init, describe) == Some(r.value.processes)
  {
    hide Accountable, ProcessesTo, Apart, Plannable, Finishable, ProcessesFor, PlanFor, ProcessesOk, VolumeFor;
    plan, facts := Plan([], NOTHING, [], []), Facts([], [], []);
    r := None;
    var processes := DeriveProcesses(m, root, order, init, describe);
    var states := DeriveStates(m.states, volume);
    if processes.None? || states.None? {
      return;
    }
    var apart := NamesApart(processes.value);
    if !apart {
      return;
    }
    ProcessesApartNow(m, root, processes.value, order, describe);
    var planned := DerivePlan(m, root, processes.value, states.value, stores, resolves);
    if planned.None? {
      return;
    }
    plan := planned.value;
    PlanParts(m, root, processes.value, states.value, stores);
    OneVolumes(m.states, volume, states.value);
    r, facts := Finish(m, root, planned.value, stores, volume, resolves, slots, rest, contents);
    if r.Some? { ProcessesKept(r.value, m, root, plan, stores, volume, resolves, facts); }
  }

  lemma PlanParts(m: Manifest, root: Str, processes: seq<Process>, states: seq<StateVolume>, stores: seq<Str>)
    ensures PlanFor(m, root, processes, states, stores).processes == processes
    ensures PlanFor(m, root, processes, states, stores).states == states
  {}

  lemma OneVolumes(states: seq<State>, describe: State -> Option<StateVolume>, volumes: seq<StateVolume>)
    requires VolumesAre(states, describe, volumes)
    ensures forall others :: VolumesAre(states, describe, others) ==> others == volumes
  {
    hide VolumeFor;
    forall others | VolumesAre(states, describe, others)
      ensures others == volumes
    {
      forall i | 0 <= i < |states|
        ensures others[i] == volumes[i]
      {
        assert VolumeFor(states[i], describe) == Some(volumes[i]);
      }
    }
  }

  /** Checks, facts and numbering, once the plan is there. */
  method Finish(m: Manifest, root: Str, plan: Plan, stores: seq<Str>, ghost volume: State -> Option<StateVolume>,
                ghost resolves: Capability -> bool, slots: nat -> nat, rest: Payload, contents: Contents)
    returns (r: Option<Payload>, ghost facts: Facts)
    requires plan == PlanFor(m, root, plan.processes, plan.states, stores) && VolumesAre(m.states, volume, plan.states)
    requires Plannable(m, root, plan.processes, stores, resolves) && ProcessesOk(m, root, plan.processes)
    ensures r.Some? <==> Finishable(m, plan, slots)
    ensures r.Some? ==> Accountable(r.value, m, root, plan, stores, volume, resolves, facts)
  {
    hide Accountable, Apart, PlanFor, Plannable, VolumesAre, Derivable, MergedAll, Provisions, Bootstraps, FactOfAny,
         Distinct, GrantEmitted, OffersKnown, DriverReads, Numberable, Emission, ObjectRecords, Native, Consistent,
         SameRule, RulesApart, RightsKnown, LaterFacts, LaterNeeds, ProcessesOk, CapabilityInput, RequirementInput,
         PathGifts, Checked, SlotsDiffer;
    facts, r := Facts([], [], []), None;
    var checked := CheckPlan(plan, slots);
    var derived := DeriveFacts(m, plan);
    var grants := NumberGrants(plan, slots);
    if !checked || derived.None? || grants.None? {
      return;
    }
    facts := derived.value.0;
    ProcessesApart(m, root, plan.processes);
    BootstrapsConsistent(plan);
    var bootstraps := PushBootstraps(Bootstraps(plan));
    var mounts := AddMountFacts(plan.processes);
    var p := Emission(ObjectRecords(rest, contents, plan.objects), plan, derived.value.0, grants.value, derived.value.1,
                      mounts, bootstraps);
    EmissionOk(rest, contents, m, plan, facts, grants.value, derived.value.1, mounts, bootstraps);
    PlanIsOk(m, root, plan, stores, volume);
    NowWhole(p, m, root, plan, stores, resolves, facts);
    NowAccountable(p, m, root, plan, stores, volume, resolves, facts);
    r := Some(p);
  }

  lemma NowAccountable(p: Payload, m: Manifest, root: Str, plan: Plan, stores: seq<Str>,
                       volume: State -> Option<StateVolume>, resolves: Capability -> bool, facts: Facts)
    requires Whole(p, m, root, plan, NOTHING.(stores := stores), resolves, facts) && Checked(plan)
             && ObjectsEmitted(p, plan.objects)
    requires plan == PlanFor(m, root, plan.processes, plan.states, stores) && VolumesAre(m.states, volume, plan.states)
    ensures Accountable(p, m, root, plan, stores, volume, resolves, facts)
  {
    hide Whole, ObjectsEmitted, HealthNamed, NamesGiven, PathsClean, UsesOk, FactsOk, MountsAccepted, VolumesDiffer,
         PlanFor, VolumesAre;
    WholeParts(p, m, root, plan, NOTHING.(stores := stores), resolves, facts);
    UsesDecided(p, m, root, plan, NOTHING.(stores := stores), resolves, facts);
    FactsDecided(p, m, root, plan, NOTHING.(stores := stores), resolves, facts);
  }

  lemma ProcessesKept(p: Payload, m: Manifest, root: Str, plan: Plan, stores: seq<Str>,
                      volume: State -> Option<StateVolume>, resolves: Capability -> bool, facts: Facts)
    requires Accountable(p, m, root, plan, stores, volume, resolves, facts)
    ensures p.processes == plan.processes
  {
    hide Whole, PlanFor, VolumesAre, UsesOk, PolicyOk, HealthNamed, NamesGiven, PathsClean;
  }

  lemma NowWhole(p: Payload, m: Manifest, root: Str, plan: Plan, stores: seq<Str>, resolves: Capability -> bool,
                 facts: Facts)
    requires plan == PlanFor(m, root, plan.processes, plan.states, stores) && ProcessesOk(m, root, plan.processes)
    requires Plannable(m, root, plan.processes, stores, resolves)
    requires PlanOk(m, root, plan, NOTHING.(stores := stores)) && GrantsNarrow(plan.grants)
    requires Derivable(m, plan, LaterFacts(m, plan)) && Emitted(p, plan, facts) && EndpointsEmitted(p, plan)
             && FactsEmitted(p, m, plan)
    requires facts.capabilities == MergedAll([], CapabilityInput(m, plan, LaterFacts(m, plan)))
    requires facts.requirements == MergedAll([], RequirementInput(m, plan, LaterNeeds(m, plan)))
    requires facts.paths == MergedAll([], PathGifts(plan, plan.grants))
    ensures Whole(p, m, root, plan, NOTHING.(stores := stores), resolves, facts)
  {
    hide PlanOk, GrantsNarrow, Derivable, LaterFacts, LaterNeeds, Emitted, EndpointsEmitted, FactsEmitted, MergedAll,
         CapabilityInput, RequirementInput, PathGifts, ProcessesOk, EndpointGrantable, ServiceGrantable, PlanGrants,
         EndpointNames, WithServices, Narrow;
    LaterNarrow(m, plan);
  }

  // ----- A health check without a kind, and a path with a NUL -----

  const ROOT_ID: Str := [0x72]
  const QUIET_ID: Str := [0x73]
  const QUIET_ORDER: seq<Str> := [ROOT_ID, QUIET_ID]

  /** A root service, and a service with a health check. */
  function Quiet(kind: Str): Manifest {
    Manifest([Service(ROOT_ID, [], [], [], [], None), Service(QUIET_ID, [], [], [], [], Some(kind))],
             [], [], [], [], [], ROOT_ID)
  }

  function Bare(name: Str, initial: bool, service: Str, kind: Str, mountRoot: Str): Process {
    Process(name, [0x6d], initial, 0, service, kind, mountRoot, [], [], [], [])
  }

  const QUIET_INIT: Process := Bare([0x69], true, ROOT_ID, [], ROOT_PATH)

  function QuietProcesses(kind: Str, mountRoot: Str): seq<Process> {
    [QUIET_INIT, Bare([0x71], false, QUIET_ID, kind, mountRoot)]
  }

  function QuietPlan(kind: Str, mountRoot: Str): Plan {
    var processes := QuietProcesses(kind, mountRoot);
    Plan(processes, NOTHING.(endpoints := [SERIAL_LOG, READINESS]),
         PlanGrants(Quiet(kind), processes, ROOT_ID, InitName(processes), [], []), [])
  }

  lemma QuietKinds(kind: Str, mountRoot: Str)
    ensures KindOf(Quiet(kind), QUIET_ID) == kind
    ensures HealthNamed(Quiet(kind), QuietProcesses(kind, mountRoot), ROOT_ID) <==> kind != []
  {
    var m, processes := Quiet(kind), QuietProcesses(kind, mountRoot);
    assert m.services[1..] == [m.services[1]];
    assert processes[1..] == [processes[1]];
    assert Granted(processes, ROOT_ID, m.services[1]);
  }

  lemma QuietDerived(kind: Str, mountRoot: Str, describe: Service -> Option<Process>)
    requires describe(Quiet(kind).services[1]) == Some(Bare([0x71], false, QUIET_ID, kind, mountRoot))
    ensures ProcessesFor(Quiet(kind), ROOT_ID, QUIET_ORDER, QUIET_INIT, describe)
         == Some(QuietProcesses(kind, mountRoot))
  {
    var m, last := Quiet(kind), Bare([0x71], false, QUIET_ID, kind, mountRoot);
    var order: seq<Str> := QUIET_ORDER;
    QuietKinds(kind, mountRoot);
    assert m.services[1..] == [m.services[1]];
    assert order[..1] == [ROOT_ID] && order[..1][..0] == [];
    assert ProcessesFor(m, ROOT_ID, order[..1], QUIET_INIT, describe) == Some([QUIET_INIT]);
    assert Described(m, QUIET_ID, describe) == Some(last);
    assert ProcessesFor(m, ROOT_ID, order, QUIET_INIT, describe) == Some([QUIET_INIT] + [last]);
    assert [QUIET_INIT] + [last] == QuietProcesses(kind, mountRoot);
  }

  lemma {:induction false} QuietObjects(kind: Str, processes: seq<Process>, ss: seq<Service>)
    requires forall i :: 0 <= i < |ss| ==> ss[i].needs == [] && ss[i].configs == []
    ensures WithServices(Quiet(kind), processes, ROOT_ID, NOTHING, ss) == NOTHING
    ensures AllGrants(Quiet(kind), processes, ROOT_ID, ss) == []
  {
    hide Granted;
    if ss != [] { QuietObjects(kind, processes, ss[..|ss| - 1]); }
  }

  /** Every grant of the plan is for one of its processes and one of its two endpoints. */
  lemma QuietGrant(kind: Str, mountRoot: Str, g: PlanGrant)
    requires g in QuietPlan(kind, mountRoot).grants
    ensures ProcessNamed(QuietProcesses(kind, mountRoot), g.process).Some? && g.rights != 0
    ensures g.objectKind == OBJECT_ENDPOINT && IndexOf([SERIAL_LOG, READINESS], g.objectName).Some?
  {
    hide AllBasicGrants, AllGrants;
    var m, processes, names: seq<Str> := Quiet(kind), QuietProcesses(kind, mountRoot), [SERIAL_LOG, READINESS];
    assert SERIAL_LOG in names && READINESS in names;
    assert processes[1..] == [processes[1]];
    QuietObjects(kind, processes, m.services);
    if g in AllBasicGrants(processes, ROOT_ID, m.services) {
      var k := BasicOrigin(processes, ROOT_ID, m.services, g);
      var i := ServedBy(processes, m.services[k].id);
    } else {
      assert VerifierGrants(processes, []) == [];
      assert g in InitGrants(InitName(processes));
    }
  }

  /** It offers nothing and has neither a log daemon nor stores, so there are no capability facts. */
  lemma {:induction false} QuietFacts(kind: Str, mountRoot: Str, ss: seq<Service>)
    requires forall i :: 0 <= i < |ss| ==> ss[i].offers == []
    ensures OfferGifts(Quiet(kind), QuietPlan(kind, mountRoot), ss) == []
    ensures SecretGifts(QuietProcesses(kind, mountRoot)) == []
  {
    hide Native, PlanGrants;
    assert |LOGD| == 4;
    var processes := QuietProcesses(kind, mountRoot);
    assert processes[1..] == [processes[1]];
    if ss != [] { QuietFacts(kind, mountRoot, ss[..|ss| - 1]); }
  }

  lemma QuietInput(kind: Str, mountRoot: Str)
    ensures var m, plan := Quiet(kind), QuietPlan(kind, mountRoot);
            CapabilityInput(m, plan, LaterFacts(m, plan)) == []
  {
    hide PlanGrants;
    QuietFacts(kind, mountRoot, Quiet(kind).services);
  }

  lemma QuietFinishes(kind: Str, mountRoot: Str)
    requires PlanPathOk(mountRoot)
    ensures Finishable(Quiet(kind), QuietPlan(kind, mountRoot), i => i)
  {
    hide PlanGrants, Native, ProcessNamed, IndexOf, CapabilityInput, LaterFacts;
    var plan := QuietPlan(kind, mountRoot);
    QuietInput(kind, mountRoot);
    forall i | 0 <= i < |plan.grants|
      ensures PathReads(plan, plan.grants[i]) && Numberable(plan, plan.grants[i]) && plan.grants[i].rights != 0
    {
      QuietGrant(kind, mountRoot, plan.grants[i]);
    }
  }

  lemma QuietPlans(kind: Str, mountRoot: Str, resolves: Capability -> bool)
    ensures Plannable(Quiet(kind), ROOT_ID, QuietProcesses(kind, mountRoot), [], resolves)
    ensures PlanFor(Quiet(kind), ROOT_ID, QuietProcesses(kind, mountRoot), [], []) == QuietPlan(kind, mountRoot)
  {
    hide PlanGrants, Granted;
    assert NOTHING.(stores := []) == NOTHING;
    QuietObjects(kind, QuietProcesses(kind, mountRoot), Quiet(kind).services);
  }

  /** Nothing but the NUL in a path stands in the way of its facts. */
  lemma QuietClean(kind: Str, mountRoot: Str)
    ensures NamesGiven(Quiet(kind), QuietPlan(kind, mountRoot))
    ensures PathsClean(QuietPlan(kind, mountRoot)) <==> 0 !in mountRoot
  {
    hide PlanGrants, RootOf, KeyOf;
    var plan := QuietPlan(kind, mountRoot);
    assert plan.processes[1].mountRoot == mountRoot;
    assert MountsClean(plan.processes[1]) <==> 0 !in mountRoot;
    assert MountsClean(plan.processes[0]);
  }

  /** The manifest compiles; the kernel takes its policy only if the health check has a kind and the path is clean. */
  method CompileQuiet(kind: Str, mountRoot: Str, rest: Payload, contents: Contents) returns (r: Option<Payload>)
    requires PlanPathOk(mountRoot)
    ensures r.Some? && (UsesOk(r.value) <==> kind != []) && (FactsOk(r.value) <==> 0 !in mountRoot)
  {
    hide Plannable, Finishable, ProcessesFor, PlanFor, Whole, UsesOk, FactsOk, HealthNamed, NamesGiven, PathsClean,
         PlanPathOk;
    var last := Bare([0x71], false, QUIET_ID, kind, mountRoot);
    var describe: Service -> Option<Process> := (s: Service) => Some(last);
    var volume: State -> Option<StateVolume> := (x: State) => None;
    var resolves: Capability -> bool := (c: Capability) => true;
    QuietDerived(kind, mountRoot, describe);
    QuietPlans(kind, mountRoot, resolves);
    QuietFinishes(kind, mountRoot);
    QuietKinds(kind, mountRoot);
    QuietClean(kind, mountRoot);
    assert VolumesAre(Quiet(kind).states, volume, []);
    ghost var plan, facts;
    r, plan, facts := Compile(Quiet(kind), ROOT_ID, QUIET_ORDER, QUIET_INIT, [], describe, volume, resolves, i => i,
                              rest, contents);
  }

  /** A health check with an empty kind is the only reason to refuse this payload. */
  method UnnamedHealthRefused(rest: Payload, contents: Contents) returns (r: Option<Payload>)
    ensures r.Some? && FactsOk(r.value) && !UsesOk(r.value)
  {
    r := CompileQuiet([], ROOT_PATH, rest, contents);
  }

  /** A NUL in a mount root is the only reason to refuse this one. */
  method NulPathRefused(rest: Payload, contents: Contents) returns (r: Option<Payload>)
    ensures r.Some? && UsesOk(r.value) && !FactsOk(r.value)
  {
    r := CompileQuiet([0x78], [SLASH, 0], rest, contents);
  }
}
