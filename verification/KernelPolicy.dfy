/** The kernel's check of the policy facts in a boot payload. */
module KernelPolicy {
  import opened Bits
  import opened Results
  import opened BootRecords
  import opened BootPayload
  import opened PolicyTerms

  // ----- Lookups -----

  predicate HasService(p: Payload, service: Str) {
    exists i :: 0 <= i < |p.processes| && ServiceOf(p.processes[i]) == service
  }

  /** The first capability fact of an id. */
  function CapabilityById(facts: seq<PolicyCapability>, id: Str): (r: Option<PolicyCapability>)
    ensures r.Some? ==> r.value in facts && r.value.id == id
    ensures r.None? ==> forall i :: 0 <= i < |facts| ==> facts[i].id != id
  {
    if facts == [] then None else if facts[0].id == id then Some(facts[0]) else CapabilityById(facts[1..], id)
  }

  /** The first state volume of an id. */
  function StateById(states: seq<StateVolume>, id: Str): (r: Option<StateVolume>)
    ensures r.Some? ==> r.value in states && r.value.id == id
    ensures r.None? ==> forall i :: 0 <= i < |states| ==> states[i].id != id
  {
    if states == [] then None else if states[0].id == id then Some(states[0]) else StateById(states[1..], id)
  }

  /** The first process of a service. */
  function ProcessOf(processes: seq<Process>, service: Str): (r: Option<Process>)
    ensures r.Some? ==> r.value in processes && ServiceOf(r.value) == service
  {
    if processes == [] then None else if ServiceOf(processes[0]) == service then Some(processes[0])
    else ProcessOf(processes[1..], service)
  }

  predicate RequirementAllows(p: Payload, service: Str, capability: Str, rights: nat) {
    exists i :: 0 <= i < |p.requirements| && p.requirements[i].service == service
                && p.requirements[i].capability == capability
                && Allowed(rights, p.requirements[i].rights)
  }

  predicate Provides(p: Payload, service: Str, capability: Str) {
    PolicyProvide(service, capability) in p.provisions
  }

  predicate ObjectRefOk(p: Payload, kind: nat, index: nat) {
    match kind
    case 1 => index < |p.endpoints|
    case 2 => index < |p.stores|
    case 4 => index == 0
    case 5 => index < |p.ports|
    case 6 => index < |p.ioPorts|
    case 7 => index < |p.mmioRegions|
    case 8 => index < |p.lines|
    case 9 => index < |p.dmaRegions|
    case 10 => index < |p.pciDevices|
    case 11 => index < |p.virtioDevices|
    case 12 => index < |p.namespaces|
    case 13 => index < |p.roots|
    case 14 => index < |p.framebuffers|
    case 15 => index == 0
    case _ => false
  }

  // ----- Facts on their own -----

  predicate CapabilityOk(p: Payload, i: nat)
    requires i < |p.capabilities|
  {
    var c := p.capabilities[i];
    && c.id != [] && c.provider != [] && c.rights != 0 && Allowed(c.rights, KNOWN_RIGHTS)
    && ObjectRefOk(p, c.objectKind, c.objectIndex)
    && forall j :: 0 <= j < i ==> p.capabilities[j].id != c.id
  }

  predicate RequirementOk(p: Payload, i: nat)
    requires i < |p.requirements|
  {
    var r := p.requirements[i];
    var c := CapabilityById(p.capabilities, r.capability);
    c.Some? && HasService(p, r.service) && r.rights != 0 && Allowed(r.rights, KNOWN_RIGHTS)
    && Allowed(r.rights, c.value.rights)
  }

  predicate ProvideOk(p: Payload, i: nat)
    requires i < |p.provisions|
  {
    var c := CapabilityById(p.capabilities, p.provisions[i].capability);
    c.Some? && HasService(p, p.provisions[i].service) && c.value.provider == p.provisions[i].service
  }

  predicate IsRootMount(m: PolicyMount) { m.path == [] && m.source == [] }

  predicate MountOk(p: Payload, i: nat)
    requires i < |p.mounts|
  {
    var m := p.mounts[i];
    && HasService(p, m.service) && PathOk(m.mountRoot)
    && (if IsRootMount(m) then m.flags == 0
        else
          && m.path != [] && m.source != [] && m.path != ROOT_PATH && MountFlagsOk(m.flags)
          && PathOk(m.path) && PathOk(m.source))
    && forall j :: 0 <= j < i ==> p.mounts[j] != m
  }

  predicate SamePlace(a: PolicyStatePath, b: PolicyStatePath) {
    a.service == b.service && a.state == b.state && a.root == b.root
  }

  predicate OwnerOk(state: StateVolume, service: Str) {
    state.sharingPolicy == OWNER_ONLY ==> state.owner == service
  }

  predicate StatePathOk(p: Payload, i: nat)
    requires i < |p.statePaths|
  {
    var f := p.statePaths[i];
    var state := StateById(p.states, f.state);
    && state.Some? && HasService(p, f.service) && f.rights != 0 && Allowed(f.rights, KNOWN_RIGHTS) && PathOk(f.root)
    && OwnerOk(state.value, f.service)
    && forall j :: 0 <= j < i ==> !SamePlace(p.statePaths[j], f)
  }

  predicate SameRule(a: PolicyBootstrap, b: PolicyBootstrap) {
    a.service == b.service && a.authority == b.authority && a.rule == b.rule
  }

  predicate BootstrapOk(p: Payload, i: nat)
    requires i < |p.bootstraps|
  {
    var b := p.bootstraps[i];
    && HasService(p, b.service) && b.authority != [] && b.rule != [] && b.rights != 0
    && Within(b.rights, KNOWN_BOOTSTRAP, 64)
    && forall j :: 0 <= j < i ==> !SameRule(p.bootstraps[j], b)
  }

  // ----- Grants -----

  /** The rule under which every system lets a process hold an endpoint. */
  function BuiltinRule(x: Process, endpoint: Str, rights: nat): Option<Str> {
    if endpoint == SERIAL_LOG && rights == RIGHT_SEND then Some(SERIAL_LOG)
    else if endpoint == READINESS && x.initial && rights == RIGHT_RECEIVE then Some(READINESS_RECEIVE)
    else if endpoint == READINESS && !x.initial && x.healthKind != [] && rights == RIGHT_SEND then Some(READINESS_SEND)
    else if x.initial && rights == RIGHT_SEND then Some(INIT_ENDPOINT_DELEGATION)
    else None
  }

  predicate BootstrapAllows(p: Payload, service: Str, endpoint: Str, rule: Str, rights: nat) {
    exists i :: 0 <= i < |p.bootstraps| && p.bootstraps[i].service == service && p.bootstraps[i].rule == rule
                && Within(FromCompact(rights), p.bootstraps[i].rights, 64)
                && StripPrefix(p.bootstraps[i].authority, ENDPOINT_PREFIX) == Some(endpoint)
  }

  predicate Builtin(p: Payload, x: Process, g: Grant) {
    && g.objectKind == OBJECT_ENDPOINT && g.objectIndex < |p.endpoints|
    && var endpoint := p.endpoints[g.objectIndex].name;
    var rule := BuiltinRule(x, endpoint, g.rights);
    rule.Some? && BootstrapAllows(p, ServiceOf(x), endpoint, rule.value, g.rights)
  }

  predicate StatePathAllows(p: Payload, service: Str, state: Str, root: Str, rights: nat) {
    exists i :: 0 <= i < |p.statePaths| && p.statePaths[i].service == service && p.statePaths[i].state == state
                && p.statePaths[i].root == root && Allowed(rights, p.statePaths[i].rights)
  }

  /** A VFS-root grant does right by one state volume. */
  predicate VolumeOk(p: Payload, service: Str, root: Str, rights: nat, state: StateVolume) {
    var covered := CoveredBy(root, state.id);
    covered.Some? && (covered.value ==> OwnerOk(state, service) && StatePathAllows(p, service, state.id, root, rights))
  }

  predicate VolumesOk(p: Payload, service: Str, g: Grant) {
    g.objectKind == OBJECT_VFS_ROOT ==>
      && g.objectIndex < |p.roots|
      && forall i :: 0 <= i < |p.states| ==>
            VolumeOk(p, service, p.roots[g.objectIndex].rootPath, g.rights, p.states[i])
  }

  /** A capability fact that speaks for a grant. */
  predicate Speaks(p: Payload, service: Str, g: Grant, c: PolicyCapability) {
    && c.objectKind == g.objectKind && c.objectIndex == g.objectIndex && Allowed(g.rights, c.rights)
    && if g.objectKind == OBJECT_ENDPOINT && g.rights == RIGHT_RECEIVE then
         Provides(p, service, c.id) && c.provider == service
       else RequirementAllows(p, service, c.id, g.rights)
  }

  predicate SpokenFor(p: Payload, service: Str, g: Grant) {
    exists i :: 0 <= i < |p.capabilities| && Speaks(p, service, g, p.capabilities[i])
  }

  predicate Authorized(p: Payload, g: Grant) {
    && g.processIndex < |p.processes| && (g.objectKind == OBJECT_ENDPOINT ==> g.objectIndex < |p.endpoints|)
    && var x := p.processes[g.processIndex];
    Builtin(p, x, g) || (SpokenFor(p, ServiceOf(x), g) && VolumesOk(p, ServiceOf(x), g))
  }

  // ----- Every fact is used -----

  predicate MountUsedBy(m: PolicyMount, x: Process) {
    && ServiceOf(x) == m.service && x.mountRoot == m.mountRoot
    && ((IsRootMount(m) && m.flags == 0) || ProcessMount(m.path, m.source, m.flags) in x.mounts)
  }

  predicate MountUsed(p: Payload, m: PolicyMount) {
    exists i :: 0 <= i < |p.processes| && MountUsedBy(m, p.processes[i])
  }

  /** The mounts of a process, as facts. */
  predicate ProcessMounted(p: Payload, x: Process) {
    && PolicyMount(ServiceOf(x), x.mountRoot, [], [], 0) in p.mounts
    && forall k :: 0 <= k < |x.mounts| ==>
          PolicyMount(ServiceOf(x), x.mountRoot, x.mounts[k].path, x.mounts[k].source, x.mounts[k].flags) in p.mounts
  }

  /** A VFS-root grant of the service at the root of a state-path fact, reaching its volume. */
  predicate Matches(p: Payload, f: PolicyStatePath, g: Grant) {
    && g.objectKind == OBJECT_VFS_ROOT && g.processIndex < |p.processes|
    && ServiceOf(p.processes[g.processIndex]) == f.service
    && g.objectIndex < |p.roots| && p.roots[g.objectIndex].rootPath == f.root
    && CoveredBy(f.root, f.state) == Some(true)
  }

  /** The rights of all matching grants among the first `n`. */
  function MatchedRights(p: Payload, f: PolicyStatePath, n: nat): nat
    requires n <= |p.grants|
  {
    if n == 0 then 0
    else if Matches(p, f, p.grants[n - 1]) then Both(MatchedRights(p, f, n - 1), p.grants[n - 1].rights)
    else MatchedRights(p, f, n - 1)
  }

  /** Nothing goes wrong while looking at a grant for a state-path fact. */
  predicate Resolves(p: Payload, f: PolicyStatePath, g: Grant) {
    g.objectKind == OBJECT_VFS_ROOT ==>
      && g.processIndex < |p.processes|
      && (ServiceOf(p.processes[g.processIndex]) == f.service ==>
            && g.objectIndex < |p.roots| && StateById(p.states, f.state).Some?
            && (p.roots[g.objectIndex].rootPath == f.root ==> CoveredBy(f.root, f.state).Some?))
  }

  predicate StatePathUsed(p: Payload, f: PolicyStatePath) {
    && (forall i :: 0 <= i < |p.grants| ==> Resolves(p, f, p.grants[i]))
    && MatchedRights(p, f, |p.grants|) != 0 && Allowed(f.rights, MatchedRights(p, f, |p.grants|))
  }

  predicate BuiltinUsed(p: Payload, b: PolicyBootstrap, endpoint: Str) {
    exists i :: 0 <= i < |p.grants| && BuiltinUse(p, b, endpoint, p.grants[i])
  }

  predicate BuiltinUse(p: Payload, b: PolicyBootstrap, endpoint: Str, g: Grant) {
    && g.objectKind == OBJECT_ENDPOINT && FromCompact(g.rights) == b.rights && g.processIndex < |p.processes|
    && g.objectIndex < |p.endpoints| && ServiceOf(p.processes[g.processIndex]) == b.service
    && p.endpoints[g.objectIndex].name == endpoint
    && BuiltinRule(p.processes[g.processIndex], endpoint, g.rights) == Some(b.rule)
  }

  /** The endpoints between the kernel and its own services, and who holds which end. */
  predicate InternalPair(name: Str, endpoint: Str, rights: nat) {
    || (name == VERTEX_STATE && endpoint == STATE_VFS_REQUEST && rights == BOOTSTRAP_RECEIVE)
    || (name == VERTEX_STATE && endpoint == STATE_VFS_REPLY && rights == BOOTSTRAP_SEND)
    || (name == BLOCK_DRIVER && endpoint == VERTEXFS_DEVICE_REQUEST && rights == BOOTSTRAP_RECEIVE)
    || (name == BLOCK_DRIVER && endpoint == VERTEXFS_DEVICE_REPLY && rights == BOOTSTRAP_SEND)
    || (name == BLOCK_DRIVER && endpoint == GENERATION_METADATA_BLOCK_REQUEST && rights == BOOTSTRAP_RECEIVE)
    || (name == BLOCK_DRIVER && endpoint == GENERATION_METADATA_BLOCK_REPLY && rights == BOOTSTRAP_SEND)
    || (name == GEN_MANAGER && endpoint == GENERATION_METADATA_BLOCK_REQUEST && rights == BOOTSTRAP_SEND)
    || (name == GEN_MANAGER && endpoint == GENERATION_METADATA_BLOCK_REPLY && rights == BOOTSTRAP_RECEIVE)
  }

  predicate InternalUse(p: Payload, b: PolicyBootstrap, endpoint: Str) {
    var x := ProcessOf(p.processes, b.service);
    x.Some? && b.rule == endpoint && InternalPair(x.value.name, endpoint, b.rights)
  }

  predicate Initial(p: Payload, service: Str) {
    var x := ProcessOf(p.processes, service);
    x.Some? && x.value.initial
  }

  predicate BootstrapUsed(p: Payload, b: PolicyBootstrap) {
    if b.authority == BOOT_MODULE_KRUSTBOOT_MANIFEST then
      b.rule == INITIAL_MANIFEST && b.rights == BOOTSTRAP_READ && Initial(p, b.service)
    else if b.authority == PROCESS_CONTROL then
      b.rule == INITIAL_PROCESS_CONTROL && b.rights == BOOTSTRAP_PROCESS_CONTROL && Initial(p, b.service)
    else if b.authority == TIMER_MONOTONIC_TIMER then
      b.rule == INITIAL_RESTART_TIMER && b.rights == BOOTSTRAP_CONTROL && Initial(p, b.service)
    else if b.authority == SECRET_LOGD_TOKEN then
      && b.rule == NATIVE_SECRET && b.rights == BOOTSTRAP_READ + BOOTSTRAP_INSPECT_METADATA
      && (var x := ProcessOf(p.processes, b.service); x.Some? && x.value.name == LOGD)
      && RequirementAllows(p, b.service, SECRET_LOGD_TOKEN, RIGHT_READ)
    else
      var endpoint := StripPrefix(b.authority, ENDPOINT_PREFIX);
      endpoint.Some? && (InternalUse(p, b, endpoint.value) || BuiltinUsed(p, b, endpoint.value))
  }

  // ----- The whole check -----

  ghost predicate FactsOk(p: Payload) {
    && (forall i: nat :: i < |p.capabilities| ==> CapabilityOk(p, i))
    && (forall i: nat :: i < |p.requirements| ==> RequirementOk(p, i))
    && (forall i: nat :: i < |p.provisions| ==> ProvideOk(p, i))
    && (forall i: nat :: i < |p.mounts| ==> MountOk(p, i))
    && (forall i: nat :: i < |p.statePaths| ==> StatePathOk(p, i))
    && (forall i: nat :: i < |p.bootstraps| ==> BootstrapOk(p, i))
  }

  ghost predicate UsesOk(p: Payload) {
    && (forall i :: 0 <= i < |p.grants| ==> Authorized(p, p.grants[i]))
    && (forall i :: 0 <= i < |p.processes| ==> ProcessMounted(p, p.processes[i]))
    && (forall i :: 0 <= i < |p.mounts| ==> MountUsed(p, p.mounts[i]))
    && (forall i :: 0 <= i < |p.statePaths| ==> StatePathUsed(p, p.statePaths[i]))
    && (forall i :: 0 <= i < |p.bootstraps| ==> BootstrapUsed(p, p.bootstraps[i]))
  }

  ghost predicate PolicyOk(p: Payload) { FactsOk(p) && UsesOk(p) }

  // ----- The check as the kernel runs it -----

  /** The first matching capability decides, together with the state volumes. */
  method GrantAuthorized(p: Payload, g: Grant) returns (ok: bool)
    ensures ok <==> Authorized(p, g)
  {
    hide Builtin, Speaks;
    if g.processIndex >= |p.processes| || (g.objectKind == OBJECT_ENDPOINT && g.objectIndex >= |p.endpoints|) {
      return false;
    }
    var x := p.processes[g.processIndex];
    if Builtin(p, x, g) {
      return true;
    }
    var i := 0;
    while i < |p.capabilities|
      invariant i <= |p.capabilities| && forall j :: 0 <= j < i ==> !Speaks(p, ServiceOf(x), g, p.capabilities[j])
    {
      if Speaks(p, ServiceOf(x), g, p.capabilities[i]) {
        ok := StatePathPolicyAllowsGrant(p, ServiceOf(x), g);
        return;
      }
      i := i + 1;
    }
    return false;
  }

  method StatePathPolicyAllowsGrant(p: Payload, service: Str, g: Grant) returns (ok: bool)
    ensures ok <==> VolumesOk(p, service, g)
  {
    hide CoveredBy, OwnerOk, StatePathAllows;
    if g.objectKind != OBJECT_VFS_ROOT {
      return true;
    }
    if g.objectIndex >= |p.roots| {
      return false;
    }
    var root, i := p.roots[g.objectIndex].rootPath, 0;
    while i < |p.states|
      invariant i <= |p.states| && forall j :: 0 <= j < i ==> VolumeOk(p, service, root, g.rights, p.states[j])
    {
      var covered := CoveredBy(root, p.states[i].id);
      if covered.None? {
        assert !VolumeOk(p, service, root, g.rights, p.states[i]);
        return false;
      }
      if covered.value
         && (!OwnerOk(p.states[i], service) || !StatePathAllows(p, service, p.states[i].id, root, g.rights)) {
        assert !VolumeOk(p, service, root, g.rights, p.states[i]);
        return false;
      }
      i := i + 1;
    }
    return true;
  }

  method StatePathMatchesGrant(p: Payload, f: PolicyStatePath) returns (ok: bool)
    ensures ok <==> StatePathUsed(p, f)
  {
    hide CoveredBy, StateById;
    var matched, i := 0, 0;
    while i < |p.grants|
      invariant i <= |p.grants| && matched == MatchedRights(p, f, i) && forall j :: 0 <= j < i ==>
            Resolves(p, f, p.grants[j])
    {
      var g := p.grants[i];
      if !Resolves(p, f, g) {
        return false;
      }
      if g.objectKind == OBJECT_VFS_ROOT && ServiceOf(p.processes[g.processIndex]) == f.service
         && p.roots[g.objectIndex].rootPath == f.root && CoveredBy(f.root, f.state) == Some(true) {
        matched := Both(matched, g.rights);
      }
      i := i + 1;
    }
    return matched != 0 && Allowed(f.rights, matched);
  }

  method MountMatchesProcess(p: Payload, m: PolicyMount) returns (ok: bool)
    ensures ok <==> MountUsed(p, m)
  {
    var i := 0;
    while i < |p.processes|
      invariant i <= |p.processes| && forall j :: 0 <= j < i ==> !MountUsedBy(m, p.processes[j])
    {
      var x := p.processes[i];
      if ServiceOf(x) == m.service && x.mountRoot == m.mountRoot {
        if IsRootMount(m) && m.flags == 0 {
          assert MountUsedBy(m, p.processes[i]);
          return true;
        }
        var k := 0;
        while k < |x.mounts|
          invariant k <= |x.mounts| && ProcessMount(m.path, m.source, m.flags) !in x.mounts[..k]
        {
          if m.path == x.mounts[k].path && m.source == x.mounts[k].source && m.flags == x.mounts[k].flags {
            assert MountUsedBy(m, p.processes[i]);
            return true;
          }
          k := k + 1;
        }
        assert x.mounts[..k] == x.mounts;
      }
      i := i + 1;
    }
    return false;
  }

  method ValidateFacts(p: Payload) returns (ok: bool)
    ensures ok <==> FactsOk(p)
  {
    hide CapabilityOk, RequirementOk, ProvideOk, MountOk, StatePathOk, BootstrapOk;
    ok := true;
    var i := 0;
    while i < |p.capabilities|
      invariant i <= |p.capabilities| && forall j: nat :: j < i ==> CapabilityOk(p, j)
    {
      if !CapabilityOk(p, i) { return false; }
      i := i + 1;
    }
    i := 0;
    while i < |p.requirements|
      invariant i <= |p.requirements| && forall j: nat :: j < i ==> RequirementOk(p, j)
    {
      if !RequirementOk(p, i) { return false; }
      i := i + 1;
    }
    i := 0;
    while i < |p.provisions|
      invariant i <= |p.provisions| && forall j: nat :: j < i ==> ProvideOk(p, j)
    {
      if !ProvideOk(p, i) { return false; }
      i := i + 1;
    }
    i := 0;
    while i < |p.mounts|
      invariant i <= |p.mounts| && forall j: nat :: j < i ==> MountOk(p, j)
    {
      if !MountOk(p, i) { return false; }
      i := i + 1;
    }
    i := 0;
    while i < |p.statePaths|
      invariant i <= |p.statePaths| && forall j: nat :: j < i ==> StatePathOk(p, j)
    {
      if !StatePathOk(p, i) { return false; }
      i := i + 1;
    }
    i := 0;
    while i < |p.bootstraps|
      invariant i <= |p.bootstraps| && forall j: nat :: j < i ==> BootstrapOk(p, j)
    {
      if !BootstrapOk(p, i) { return false; }
      i := i + 1;
    }
  }

  method ValidateUses(p: Payload) returns (ok: bool)
    ensures ok <==> UsesOk(p)
  {
    hide Authorized, ProcessMounted, MountUsed, StatePathUsed, BootstrapUsed;
    var i := 0;
    while i < |p.grants|
      invariant i <= |p.grants| && forall j :: 0 <= j < i ==> Authorized(p, p.grants[j])
    {
      var authorized := GrantAuthorized(p, p.grants[i]);
      if !authorized { return false; }
      i := i + 1;
    }
    i := 0;
    while i < |p.processes|
      invariant i <= |p.processes| && forall j :: 0 <= j < i ==> ProcessMounted(p, p.processes[j])
    {
      if !ProcessMounted(p, p.processes[i]) { return false; }
      i := i + 1;
    }
    i := 0;
    while i < |p.mounts|
      invariant i <= |p.mounts| && forall j :: 0 <= j < i ==> MountUsed(p, p.mounts[j])
    {
      var used := MountMatchesProcess(p, p.mounts[i]);
      if !used { return false; }
      i := i + 1;
    }
    i := 0;
    while i < |p.statePaths|
      invariant i <= |p.statePaths| && forall j :: 0 <= j < i ==> StatePathUsed(p, p.statePaths[j])
    {
      var used := StatePathMatchesGrant(p, p.statePaths[i]);
      if !used { return false; }
      i := i + 1;
    }
    i := 0;
    while i < |p.bootstraps|
      invariant i <= |p.bootstraps| && forall j :: 0 <= j < i ==> BootstrapUsed(p, p.bootstraps[j])
    {
      if !BootstrapUsed(p, p.bootstraps[i]) { return false; }
      i := i + 1;
    }
    return true;
  }

  method ValidatePolicyFacts(p: Payload) returns (ok: bool)
    ensures ok <==> PolicyOk(p)
  {
    hide FactsOk, UsesOk;
    ok := ValidateFacts(p);
    if ok {
      ok := ValidateUses(p);
    }
  }

  // ----- What an accepted policy means -----

  /** A mount that some process declares: its root, or one of its mounts. */
  ghost predicate Declared(p: Payload, m: PolicyMount) {
    exists i :: 0 <= i < |p.processes| && DeclaredBy(p.processes[i], m)
  }

  ghost predicate DeclaredBy(x: Process, m: PolicyMount) {
    || m == PolicyMount(ServiceOf(x), x.mountRoot, [], [], 0)
    || exists k :: 0 <= k < |x.mounts| &&
                   m == PolicyMount(ServiceOf(x), x.mountRoot, x.mounts[k].path, x.mounts[k].source, x.mounts[k].flags)
  }

  /** The mount facts are exactly the mounts the processes declare, each once. */
  lemma MountsExact(p: Payload, m: PolicyMount)
    requires PolicyOk(p)
    ensures m in p.mounts <==> Declared(p, m)
    ensures forall i, j :: 0 <= i < j < |p.mounts| ==> p.mounts[i] != p.mounts[j]
  {
    MountsApart(p);
    hide FactsOk, MountUsedBy, Authorized, StatePathUsed, BootstrapUsed;
    if m in p.mounts {
      var i :| 0 <= i < |p.mounts| && p.mounts[i] == m;
      assert MountUsed(p, p.mounts[i]);
      var k :| 0 <= k < |p.processes| && MountUsedBy(m, p.processes[k]);
      UsedIsDeclared(m, p.processes[k]);
    }
    if Declared(p, m) {
      var i :| 0 <= i < |p.processes| && DeclaredBy(p.processes[i], m);
      assert ProcessMounted(p, p.processes[i]);
    }
  }

  lemma MountsApart(p: Payload)
    requires FactsOk(p)
    ensures forall i, j :: 0 <= i < j < |p.mounts| ==> p.mounts[i] != p.mounts[j]
  {
    hide CapabilityOk, RequirementOk, ProvideOk, StatePathOk, BootstrapOk, HasService, PathOk;
    forall i, j | 0 <= i < j < |p.mounts|
      ensures p.mounts[i] != p.mounts[j]
    {
      assert MountOk(p, j);
    }
  }

  lemma UsedIsDeclared(m: PolicyMount, x: Process)
    requires MountUsedBy(m, x)
    ensures DeclaredBy(x, m)
  {
    if !(IsRootMount(m) && m.flags == 0) {
      var k :| 0 <= k < |x.mounts| && x.mounts[k] == ProcessMount(m.path, m.source, m.flags);
      assert m == PolicyMount(ServiceOf(x), x.mountRoot, x.mounts[k].path, x.mounts[k].source, x.mounts[k].flags);
    }
  }

  /** A matching grant's rights are in the fact it matches. */
  lemma MatchingGrant(p: Payload, i: nat, n: nat)
    requires PolicyOk(p) && i < |p.statePaths| && n < |p.grants| && Matches(p, p.statePaths[i], p.grants[n])
    ensures Allowed(p.grants[n].rights, p.statePaths[i].rights)
  {
    hide MountUsed, StatePathUsed, BootstrapUsed, CapabilityOk, RequirementOk, ProvideOk, BootstrapOk, Builtin, Speaks,
         CoveredBy, Within, PathOk, HasService, OwnerOk;
    var f, g := p.statePaths[i], p.grants[n];
    assert Authorized(p, g);
    assert StatePathOk(p, i);
    var x := p.processes[g.processIndex];
    assert !Builtin(p, x, g) by { NotBuiltin(p, x, g); }
    var state := StateById(p.states, f.state).value;
    var k :| 0 <= k < |p.states| && p.states[k] == state;
    assert VolumeOk(p, ServiceOf(x), f.root, g.rights, p.states[k]);
    assert StatePathAllows(p, f.service, f.state, f.root, g.rights);
    var j :| 0 <= j < |p.statePaths| && p.statePaths[j].service == f.service && p.statePaths[j].state == f.state
             && p.statePaths[j].root == f.root && Allowed(g.rights, p.statePaths[j].rights);
    OneFact(p, i, j);
  }

  lemma FactsApart(p: Payload, i: nat, j: nat)
    requires FactsOk(p) && i < j < |p.statePaths|
    ensures !SamePlace(p.statePaths[i], p.statePaths[j])
  {
    assert StatePathOk(p, j);
  }

  lemma OneFact(p: Payload, i: nat, j: nat)
    requires FactsOk(p) && i < |p.statePaths| && j < |p.statePaths| && SamePlace(p.statePaths[i], p.statePaths[j])
    ensures i == j
  {
    hide FactsOk;
    if i < j {
      FactsApart(p, i, j);
    } else if j < i {
      FactsApart(p, j, i);
    }
  }

  lemma NotBuiltin(p: Payload, x: Process, g: Grant)
    requires g.objectKind != OBJECT_ENDPOINT
    ensures !Builtin(p, x, g)
  {}

  lemma {:induction false} MatchedWithin(p: Payload, i: nat, n: nat)
    requires PolicyOk(p) && i < |p.statePaths| && n <= |p.grants|
    ensures Allowed(MatchedRights(p, p.statePaths[i], n), p.statePaths[i].rights)
    ensures MatchedRights(p, p.statePaths[i], n) < Pow2(16)
  {
    hide PolicyOk, Matches, Pow2, Within, Or;
    var f := p.statePaths[i];
    if n == 0 {
      WithinZero(f.rights, 16);
    } else {
      MatchedWithin(p, i, n - 1);
      if Matches(p, f, p.grants[n - 1]) {
        MatchingGrant(p, i, n - 1);
        OrLeast(MatchedRights(p, f, n - 1), p.grants[n - 1].rights, f.rights, 16);
        OrHolds(MatchedRights(p, f, n - 1), p.grants[n - 1].rights, 16);
      }
    }
  }

  /** The rights of a state-path fact are exactly the rights of the grants that reach its volume at its root. */
  lemma StatePathExact(p: Payload, i: nat)
    requires PolicyOk(p) && i < |p.statePaths| && p.statePaths[i].rights < U16_LIMIT
    ensures p.statePaths[i].rights == MatchedRights(p, p.statePaths[i], |p.grants|) != 0
  {
    assert StatePathUsed(p, p.statePaths[i]);
    assert Pow2(16) == U16_LIMIT by { assert Pow2(8) == 256 && Pow2(12) == 4096; }
    MatchedWithin(p, i, |p.grants|);
    hide PolicyOk, Within, MatchedRights, Pow2, Resolves;
    WithinBoth(p.statePaths[i].rights, MatchedRights(p, p.statePaths[i], |p.grants|), 16);
  }

  /** A VFS-root grant that reaches an owner-only volume belongs to the volume's owner. */
  lemma OwnerOnly(p: Payload, n: nat, k: nat)
    requires PolicyOk(p) && n < |p.grants| && k < |p.states| && p.grants[n].objectKind == OBJECT_VFS_ROOT
    ensures p.grants[n].objectIndex < |p.roots| && p.grants[n].processIndex < |p.processes|
    ensures CoveredBy(p.roots[p.grants[n].objectIndex].rootPath, p.states[k].id).Some?
    ensures p.states[k].sharingPolicy == OWNER_ONLY ==>
              CoveredBy(p.roots[p.grants[n].objectIndex].rootPath, p.states[k].id).value ==>
                ServiceOf(p.processes[p.grants[n].processIndex]) == p.states[k].owner
  {
    hide MountUsed, StatePathUsed, BootstrapUsed, FactsOk, Builtin, Speaks, CoveredBy, StatePathAllows;
    var g := p.grants[n];
    assert Authorized(p, g);
    var x := p.processes[g.processIndex];
    assert !Builtin(p, x, g) by { NotBuiltin(p, x, g); }
    assert VolumeOk(p, ServiceOf(x), p.roots[g.objectIndex].rootPath, g.rights, p.states[k]);
  }

  /** Wherever a VFS-root grant reaches a volume there is a fact, and every fact is such a place. */
  lemma StatePathsComplete(p: Payload, service: Str, state: Str, root: Str)
    requires PolicyOk(p)
    ensures (exists i :: 0 <= i < |p.statePaths| &&
                         SamePlace(p.statePaths[i], PolicyStatePath(service, state, root, 0)))
       <==> StateById(p.states, state).Some?
            && exists n :: 0 <= n < |p.grants| && Matches(p, PolicyStatePath(service, state, root, 0), p.grants[n])
  {
    var place := PolicyStatePath(service, state, root, 0);
    if i :| 0 <= i < |p.statePaths| && SamePlace(p.statePaths[i], place) {
      var f := p.statePaths[i];
      assert StatePathUsed(p, f) && StatePathOk(p, i);
      var n := SomeMatch(p, f, |p.grants|);
      assert Matches(p, place, p.grants[n]);
    }
    if n :| 0 <= n < |p.grants| && Matches(p, place, p.grants[n]) {
      if StateById(p.states, state).Some? {
        FactFor(p, place, n);
      }
    }
  }

  lemma {:induction false} SomeMatch(p: Payload, f: PolicyStatePath, n: nat) returns (k: nat)
    requires n <= |p.grants| && MatchedRights(p, f, n) != 0
    ensures k < n && Matches(p, f, p.grants[k])
  {
    if Matches(p, f, p.grants[n - 1]) {
      k := n - 1;
    } else {
      k := SomeMatch(p, f, n - 1);
    }
  }

  lemma FactFor(p: Payload, place: PolicyStatePath, n: nat)
    requires PolicyOk(p) && n < |p.grants| && Matches(p, place, p.grants[n]) && StateById(p.states, place.state).Some?
    ensures exists i :: 0 <= i < |p.statePaths| && SamePlace(p.statePaths[i], place)
  {
    hide MountUsed, StatePathUsed, BootstrapUsed, FactsOk, Builtin, Speaks, CoveredBy, Within, OwnerOk;
    var g := p.grants[n];
    assert Authorized(p, g);
    var x := p.processes[g.processIndex];
    assert !Builtin(p, x, g) by { NotBuiltin(p, x, g); }
    var k :| 0 <= k < |p.states| && p.states[k] == StateById(p.states, place.state).value;
    assert VolumeOk(p, ServiceOf(x), place.root, g.rights, p.states[k]);
    assert StatePathAllows(p, place.service, place.state, place.root, g.rights);
    var i :| 0 <= i < |p.statePaths| && p.statePaths[i].service == place.service && p.statePaths[i].state == place.state
             && p.statePaths[i].root == place.root && Allowed(g.rights, p.statePaths[i].rights);
    assert SamePlace(p.statePaths[i], place);
  }
}
