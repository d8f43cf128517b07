/** How the boot compiler grants services what they ask for, and why the kernel's policy check lets every such
    grant pass. */
module CompilerGrants {
  import opened Results
  import opened Wire
  import opened BootRecords
  import opened Manifests
  import opened PolicyTerms
  import opened CompilerFacts
  import opened CompilerPaths

  // ----- Sharing -----

  predicate Shares(state: State, service: Str, rights: nat, root: Str) {
    && state.sharing.mode == Some(EXPLICIT)
    && var control := HasRight(rights, RIGHT_CONTROL) || EndsWith(root, CONTROL_SUFFIX);
    var change := HasRight(rights, RIGHT_WRITE) || HasRight(rights, RIGHT_CREATE) || HasRight(rights, RIGHT_UNLINK)
                  || HasRight(rights, RIGHT_RENAME) || HasRight(rights, RIGHT_MOUNT);
    service in (if control then state.sharing.controllers else if change then state.sharing.writers
                else state.sharing.readers)
  }

  predicate EndsWith(s: Str, suffix: Str) {
    |suffix| <= |s| && s[|s| - |suffix|..] == suffix
  }

  /** A service may hold a VFS root over volumes it owns or that are shared with it. */
  predicate VfsGrantOk(m: Manifest, service: Str, root: Str, rights: nat) {
    && RootReads(root)
    && forall i :: 0 <= i < |m.states| && Reaches(root, m.states[i].id) ==>
          m.states[i].owner == service || Shares(m.states[i], service, rights, root)
  }

  // ----- Grants -----

  /** The capability kinds a need can be granted for. */
  predicate Grantable(kind: Str) {
    || kind == KIND_STORE_OBJECT || kind == KIND_TIMER || kind == KIND_NETWORK_PORT || kind == KIND_NAMESPACE
    || kind == KIND_VFS_ROOT
    || kind == KIND_IO_PORT || kind == KIND_MMIO_REGION || kind == KIND_FRAMEBUFFER || kind == KIND_INTERRUPT_LINE
    || kind == KIND_DMA_REGION
  }

  predicate Skipped(kind: Str) { kind == KIND_IPC_ENDPOINT || kind == KIND_CLOCK }

  function StoreNamed(stores: seq<Store>, id: Str): (r: Option<Store>)
    ensures r.Some? ==> r.value in stores && r.value.id == id
  {
    if stores == [] then None else if stores[0].id == id then Some(stores[0]) else StoreNamed(stores[1..], id)
  }

  /** A root path the compiler accepts. */
  predicate PlanPathOk(path: Str) {
    && path != [] && path[0] == SLASH && |path| < STRING_LEN && (path[|path| - 1] != SLASH || path == ROOT_PATH)
    && forall i :: 1 <= i < |path| ==> !(path[i] == SLASH && path[i - 1] == SLASH)
  }

  /** The object behind a capability can be put in the plan. `resolves` answers for device and namespace properties. */
  predicate ObjectReads(m: Manifest, c: Capability, resolves: Capability -> bool) {
    if c.kind == KIND_STORE_OBJECT then StoreNamed(m.stores, c.provider).Some?
    else if c.kind == KIND_VFS_ROOT then c.root.Some? && PlanPathOk(c.root.value)
    else resolves(c)
  }

  /** A need the compiler can grant, or has nothing to grant for. */
  predicate NeedGrantable(m: Manifest, service: Str, need: Need, resolves: Capability -> bool) {
    var c := FindCapability(m.capabilities, need.capability);
    && c.Some?
    && (Skipped(c.value.kind)
        || (&& Grantable(c.value.kind) && ObjectReads(m, c.value, resolves)
            && var mask := RightsMask(need.rights, c.value.rights);
            mask.Some?
            && (c.value.kind == KIND_VFS_ROOT && c.value.root.Some? ==>
                  VfsGrantOk(m, service, c.value.root.value, mask.value))))
  }

  function NeedGrant(m: Manifest, process: Str, need: Need): seq<PlanGrant> {
    var c := FindCapability(m.capabilities, need.capability);
    if c.None? || !Grantable(c.value.kind) || ObjectName(c.value).None? then []
    else
      var mask, name := RightsMask(need.rights, c.value.rights), ObjectName(c.value).value;
      if mask.None? then [] else [PlanGrant(process, name.0, name.1, mask.value)]
  }

  function NeedGrants(m: Manifest, process: Str, needs: seq<Need>): seq<PlanGrant> {
    if needs == [] then [] else NeedGrants(m, process, needs[..|needs| - 1]) + NeedGrant(m, process, needs[|needs| - 1])
  }

  predicate ConfigGrantable(m: Manifest, config: Str) {
    var store := StoreNamed(m.stores, config);
    store.Some? && store.value.kind == CONFIG
  }

  function ConfigGrants(process: Str, configs: seq<Str>): seq<PlanGrant> {
    seq(|configs|, i requires 0 <= i < |configs| => PlanGrant(process, OBJECT_STORE, configs[i], RIGHT_READ))
  }

  predicate Granted(processes: seq<Process>, root: Str, s: Service) {
    Native(processes, s.id) && s.id != root
  }

  predicate ServiceGrantable(m: Manifest, s: Service, resolves: Capability -> bool) {
    && (forall i :: 0 <= i < |s.needs| ==> NeedGrantable(m, s.id, s.needs[i], resolves))
    && (forall i :: 0 <= i < |s.configs| ==> ConfigGrantable(m, s.configs[i]))
  }

  function ServiceGrants(m: Manifest, processes: seq<Process>, root: Str, s: Service): seq<PlanGrant> {
    if !Granted(processes, root, s) then []
    else
      var process := ProcessFor(processes, s.id).value;
      NeedGrants(m, process, s.needs) + ConfigGrants(process, s.configs)
  }

  function AllGrants(m: Manifest, processes: seq<Process>, root: Str, ss: seq<Service>): seq<PlanGrant> {
    if ss == [] then []
    else AllGrants(m, processes, root, ss[..|ss| - 1]) + ServiceGrants(m, processes, root, ss[|ss| - 1])
  }

  // ----- The objects grants need -----

  function WithName(names: seq<Str>, name: Str): (r: seq<Str>)
    ensures name in r && (forall x :: x in names ==> x in r)
  {
    if name in names then names else names + [name]
  }

  function WithObject(o: Objects, c: Capability): Objects {
    if c.kind == KIND_STORE_OBJECT then o.(stores := WithName(o.stores, c.provider))
    else if c.kind == KIND_NETWORK_PORT then o.(ports := WithName(o.ports, c.id))
    else if c.kind == KIND_NAMESPACE then o.(namespaces := WithName(o.namespaces, c.id))
    else if c.kind == KIND_IO_PORT then o.(ioPorts := WithName(o.ioPorts, c.id))
    else if c.kind == KIND_MMIO_REGION then o.(mmioRegions := WithName(o.mmioRegions, c.id))
    else if c.kind == KIND_FRAMEBUFFER then o.(framebuffers := WithName(o.framebuffers, c.id))
    else if c.kind == KIND_INTERRUPT_LINE then o.(lines := WithName(o.lines, c.id))
    else if c.kind == KIND_DMA_REGION then o.(dmaRegions := WithName(o.dmaRegions, c.id))
    else if c.kind == KIND_VFS_ROOT && c.root.Some? && RootIndex(o.roots, c.id).None? then
      o.(roots := o.roots + [VfsRoot(c.id, c.root.value)])
    else o
  }

  function WithNeed(m: Manifest, o: Objects, need: Need): Objects {
    var c := FindCapability(m.capabilities, need.capability);
    if c.None? then o else WithObject(o, c.value)
  }

  function WithNeeds(m: Manifest, o: Objects, needs: seq<Need>): Objects {
    if needs == [] then o else WithNeed(m, WithNeeds(m, o, needs[..|needs| - 1]), needs[|needs| - 1])
  }

  function WithConfigs(o: Objects, configs: seq<Str>): Objects {
    if configs == [] then o
    else
      var before := WithConfigs(o, configs[..|configs| - 1]);
      before.(stores := WithName(before.stores, configs[|configs| - 1]))
  }

  function WithServices(m: Manifest, processes: seq<Process>, root: Str, o: Objects, ss: seq<Service>): Objects {
    if ss == [] then o
    else
      var before, s := WithServices(m, processes, root, o, ss[..|ss| - 1]), ss[|ss| - 1];
      if Granted(processes, root, s) then WithConfigs(WithNeeds(m, before, s.needs), s.configs) else before
  }

  // ----- Deriving them -----

  method GrantNeeds(m: Manifest, s: Service, process: Str, o: Objects, grants: seq<PlanGrant>,
                    resolves: Capability -> bool)
    returns (r: Option<(Objects, seq<PlanGrant>)>)
    ensures r.Some? <==> forall i :: 0 <= i < |s.needs| ==> NeedGrantable(m, s.id, s.needs[i], resolves)
    ensures r.Some? ==> r.value == (WithNeeds(m, o, s.needs), grants + NeedGrants(m, process, s.needs))
  {
    hide NeedGrantable, WithNeed, NeedGrant;
    var o', out, i := o, grants, 0;
    assert out == grants + NeedGrants(m, process, s.needs[..0]);
    while i < |s.needs|
      invariant i <= |s.needs| && forall j :: 0 <= j < i ==> NeedGrantable(m, s.id, s.needs[j], resolves)
      invariant o' == WithNeeds(m, o, s.needs[..i]) && out == grants + NeedGrants(m, process, s.needs[..i])
    {
      assert s.needs[..i + 1][..i] == s.needs[..i];
      if !NeedGrantable(m, s.id, s.needs[i], resolves) {
        return None;
      }
      o', out := WithNeed(m, o', s.needs[i]), out + NeedGrant(m, process, s.needs[i]);
      i := i + 1;
    }
    assert s.needs[..i] == s.needs;
    return Some((o', out));
  }

  method GrantConfigs(m: Manifest, s: Service, process: Str, o: Objects, grants: seq<PlanGrant>)
    returns (r: Option<(Objects, seq<PlanGrant>)>)
    ensures r.Some? <==> forall i :: 0 <= i < |s.configs| ==> ConfigGrantable(m, s.configs[i])
    ensures r.Some? ==> r.value == (WithConfigs(o, s.configs), grants + ConfigGrants(process, s.configs))
  {
    hide ConfigGrantable;
    var o', out, i := o, grants, 0;
    assert out == grants + ConfigGrants(process, s.configs[..0]);
    while i < |s.configs|
      invariant i <= |s.configs| && forall j :: 0 <= j < i ==> ConfigGrantable(m, s.configs[j])
      invariant o' == WithConfigs(o, s.configs[..i]) && out == grants + ConfigGrants(process, s.configs[..i])
    {
      assert s.configs[..i + 1][..i] == s.configs[..i];
      if !ConfigGrantable(m, s.configs[i]) {
        return None;
      }
      var grant := PlanGrant(process, OBJECT_STORE, s.configs[i], RIGHT_READ);
      assert ConfigGrants(process, s.configs[..i + 1]) == ConfigGrants(process, s.configs[..i]) + [grant];
      o', out := o'.(stores := WithName(o'.stores, s.configs[i])), out + [grant];
      i := i + 1;
    }
    assert s.configs[..i] == s.configs;
    return Some((o', out));
  }

  /** Grants every native service but the root what it needs and its configs. */
  method GrantServices(m: Manifest, processes: seq<Process>, root: Str, o: Objects, resolves: Capability -> bool)
    returns (r: Option<(Objects, seq<PlanGrant>)>)
    ensures r.Some? <==> forall i :: 0 <= i < |m.services| && Granted(processes, root, m.services[i]) ==>
          ServiceGrantable(m, m.services[i], resolves)
    ensures r.Some? ==>
              r.value == (WithServices(m, processes, root, o, m.services), AllGrants(m, processes, root, m.services))
  {
    hide NeedGrantable, ConfigGrantable, WithNeeds, WithConfigs, NeedGrants, ConfigGrants;
    var o', grants: seq<PlanGrant>, i := o, [], 0;
    while i < |m.services|
      invariant i <= |m.services|
      invariant forall j :: 0 <= j < i && Granted(processes, root, m.services[j]) ==>
            ServiceGrantable(m, m.services[j], resolves)
      invariant o' == WithServices(m, processes, root, o, m.services[..i])
                && grants == AllGrants(m, processes, root, m.services[..i])
    {
      var s := m.services[i];
      assert m.services[..i + 1][..i] == m.services[..i];
      if Granted(processes, root, s) {
        var process := ProcessFor(processes, s.id).value;
        var next := GrantNeeds(m, s, process, o', grants, resolves);
        if next.None? {
          return None;
        }
        next := GrantConfigs(m, s, process, next.value.0, next.value.1);
        if next.None? {
          return None;
        }
        assert grants + NeedGrants(m, process, s.needs) + ConfigGrants(process, s.configs)
            == grants + (NeedGrants(m, process, s.needs) + ConfigGrants(process, s.configs));
        o', grants := next.value.0, next.value.1;
      }
      i := i + 1;
    }
    assert m.services[..i] == m.services;
    return Some((o', grants));
  }
}
