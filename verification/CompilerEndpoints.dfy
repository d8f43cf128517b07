/** The endpoints of a boot plan, and the grants a plan holds besides those for needs and configs. */
module CompilerEndpoints {
  import opened Results
  import opened BootRecords
  import opened Manifests
  import opened PolicyTerms
  import opened CompilerFacts
  import opened CompilerGrants

  // ----- Endpoints -----

  predicate Asks(s: Service, capability: Str) {
    exists j :: 0 <= j < |s.needs| && s.needs[j].capability == capability
  }

  /** Some native service other than the root asks for the capability. */
  predicate Wanted(m: Manifest, processes: seq<Process>, root: Str, capability: Str) {
    exists i :: 0 <= i < |m.services| && Granted(processes, root, m.services[i]) && Asks(m.services[i], capability)
  }

  /** An endpoint that is provided and asked for inside the plan. */
  predicate Served(m: Manifest, processes: seq<Process>, root: Str, c: Capability) {
    c.kind == KIND_IPC_ENDPOINT && Wanted(m, processes, root, c.id) && Native(processes, c.provider)
  }

  function EndpointNames(m: Manifest, processes: seq<Process>, root: Str, cs: seq<Capability>): seq<Str> {
    if cs == [] then [SERIAL_LOG, READINESS]
    else
      var before, c := EndpointNames(m, processes, root, cs[..|cs| - 1]), cs[|cs| - 1];
      if Served(m, processes, root, c) then WithName(before, EndpointName(c.id)) else before
  }

  method CollectEndpoints(m: Manifest, processes: seq<Process>, root: Str) returns (names: seq<Str>)
    ensures names == EndpointNames(m, processes, root, m.capabilities)
  {
    hide Served, EndpointName;
    var i := 0;
    names := [SERIAL_LOG, READINESS];
    while i < |m.capabilities|
      invariant i <= |m.capabilities| && names == EndpointNames(m, processes, root, m.capabilities[..i])
    {
      assert m.capabilities[..i + 1][..i] == m.capabilities[..i];
      if Served(m, processes, root, m.capabilities[i]) {
        names := WithName(names, EndpointName(m.capabilities[i].id));
      }
      i := i + 1;
    }
    assert m.capabilities[..i] == m.capabilities;
  }

  // ----- Logging and readiness -----

  function Log(process: Str): PlanGrant {
    PlanGrant(process, OBJECT_ENDPOINT, SERIAL_LOG, RIGHT_SEND)
  }

  function InitGrants(init: Str): seq<PlanGrant> {
    [Log(init), PlanGrant(init, OBJECT_ENDPOINT, READINESS, RIGHT_RECEIVE)]
  }

  function Ready(process: Str): PlanGrant {
    PlanGrant(process, OBJECT_ENDPOINT, READINESS, RIGHT_SEND)
  }

  /** Every service may log; one with a health check may report that it is ready. */
  function BasicGrants(processes: seq<Process>, root: Str, s: Service): seq<PlanGrant> {
    if !Granted(processes, root, s) then []
    else
      var process := ProcessFor(processes, s.id).value;
      [Log(process)] + if s.health.Some? then [Ready(process)] else []
  }

  function AllBasicGrants(processes: seq<Process>, root: Str, ss: seq<Service>): seq<PlanGrant> {
    if ss == [] then []
    else AllBasicGrants(processes, root, ss[..|ss| - 1]) + BasicGrants(processes, root, ss[|ss| - 1])
  }

  method GrantBasics(processes: seq<Process>, root: Str, ss: seq<Service>) returns (grants: seq<PlanGrant>)
    ensures grants == AllBasicGrants(processes, root, ss)
  {
    hide BasicGrants;
    var i := 0;
    grants := [];
    while i < |ss|
      invariant i <= |ss| && grants == AllBasicGrants(processes, root, ss[..i])
    {
      assert ss[..i + 1][..i] == ss[..i];
      grants := grants + BasicGrants(processes, root, ss[i]);
      i := i + 1;
    }
    assert ss[..i] == ss;
  }

  // ----- Served endpoints -----

  /** The provider says that it offers the endpoint, its name is not reserved, and everyone asks to send only. */
  predicate EndpointGrantable(m: Manifest, processes: seq<Process>, root: Str, names: seq<Str>, c: Capability) {
    Served(m, processes, root, c) ==>
      && OffersEndpoint(m, c)
      && IndexOf(names, EndpointName(c.id)).Some? && IndexOf(names, EndpointName(c.id)).value >= 2
      && forall i :: 0 <= i < |m.services| && Granted(processes, root, m.services[i]) ==> SendsOnly(m.services[i], c)
  }

  predicate OffersEndpoint(m: Manifest, c: Capability) {
    var s, first := FindService(m.services, c.provider), FindCapability(m.capabilities, c.id);
    s.Some? && c.id in s.value.offers && first.Some? && first.value.kind == KIND_IPC_ENDPOINT
  }

  predicate SendsOnly(s: Service, c: Capability) {
    forall j :: 0 <= j < |s.needs| && s.needs[j].capability == c.id ==>
                  RightsMask(s.needs[j].rights, c.rights) == Some(RIGHT_SEND)
  }

  /** The provider receives; the initial process may hand out the right to send. */
  function EndpointGrants(m: Manifest, processes: seq<Process>, root: Str, init: Str, c: Capability): seq<PlanGrant> {
    if !Served(m, processes, root, c) then []
    else
      var name := EndpointName(c.id);
      [PlanGrant(ProcessFor(processes, c.provider).value, OBJECT_ENDPOINT, name, RIGHT_RECEIVE),
       PlanGrant(init, OBJECT_ENDPOINT, name, RIGHT_SEND)]
  }

  function AllEndpointGrants(m: Manifest, processes: seq<Process>, root: Str, init: Str,
                             cs: seq<Capability>): seq<PlanGrant> {
    if cs == [] then []
    else
      AllEndpointGrants(m, processes, root, init, cs[..|cs| - 1])
      + EndpointGrants(m, processes, root, init, cs[|cs| - 1])
  }

  method GrantEndpoints(m: Manifest, processes: seq<Process>, root: Str, init: Str, names: seq<Str>)
    returns (r: Option<seq<PlanGrant>>)
    ensures r.Some? <==> forall i :: 0 <= i < |m.capabilities| ==>
          EndpointGrantable(m, processes, root, names, m.capabilities[i])
    ensures r.Some? ==> r.value == AllEndpointGrants(m, processes, root, init, m.capabilities)
  {
    hide EndpointGrantable, EndpointGrants;
    var grants, i := [], 0;
    while i < |m.capabilities|
      invariant i <= |m.capabilities| && grants == AllEndpointGrants(m, processes, root, init, m.capabilities[..i])
      invariant forall j :: 0 <= j < i ==> EndpointGrantable(m, processes, root, names, m.capabilities[j])
    {
      assert m.capabilities[..i + 1][..i] == m.capabilities[..i];
      if !EndpointGrantable(m, processes, root, names, m.capabilities[i]) {
        return None;
      }
      grants := grants + EndpointGrants(m, processes, root, init, m.capabilities[i]);
      i := i + 1;
    }
    assert m.capabilities[..i] == m.capabilities;
    return Some(grants);
  }

  // ----- The store verifier -----

  function Verify(process: Str, store: Str): PlanGrant {
    PlanGrant(process, OBJECT_STORE, store, RIGHT_READ)
  }

  /** The store service reads the executables it verifies. */
  function VerifierGrants(processes: seq<Process>, stores: seq<Str>): seq<PlanGrant> {
    var process := ProcessFor(processes, VERTEX_STORE);
    if process.None? then []
    else
      (if STORE_LOGD in stores then [Verify(process.value, STORE_LOGD)] else [])
      + (if STORE_ECHO_SERVER in stores then [Verify(process.value, STORE_ECHO_SERVER)]
         else if STORE_ECHO in stores then [Verify(process.value, STORE_ECHO)] else [])
  }

  // ----- Device drivers -----

  predicate Contains(s: Str, part: Str) {
    exists i :: 0 <= i <= |s| && part <= s[i..]
  }

  predicate IsPci(d: Device) {
    Contains(d.kind, PCI) || (d.transport.Some? && Contains(d.transport.value, PCI))
  }

  predicate IsVirtio(d: Device) {
    VIRTIO <= d.kind || (d.transport.Some? && VIRTIO <= d.transport.value)
  }

  function WithDevice(processes: seq<Process>, o: Objects, d: Device): Objects {
    if !Native(processes, d.driver) then o
    else
      var pci := if IsPci(d) then WithName(o.pciDevices, d.id) else o.pciDevices;
      var virtio := if IsVirtio(d) then WithName(o.virtioDevices, d.id) else o.virtioDevices;
      o.(pciDevices := pci, virtioDevices := virtio)
  }

  function WithDevices(processes: seq<Process>, o: Objects, ds: seq<Device>): Objects {
    if ds == [] then o else WithDevice(processes, WithDevices(processes, o, ds[..|ds| - 1]), ds[|ds| - 1])
  }

  function DeviceGrants(processes: seq<Process>, d: Device): seq<PlanGrant> {
    var process := ProcessFor(processes, d.driver);
    if process.None? then []
    else
      (if IsPci(d) then [PlanGrant(process.value, OBJECT_PCI_DEVICE, d.id, RIGHT_CONTROL)] else [])
      + (if IsVirtio(d) then [PlanGrant(process.value, OBJECT_VIRTIO_DEVICE, d.id, RIGHT_CONTROL)] else [])
  }

  function AllDeviceGrants(processes: seq<Process>, ds: seq<Device>): seq<PlanGrant> {
    if ds == [] then [] else AllDeviceGrants(processes, ds[..|ds| - 1]) + DeviceGrants(processes, ds[|ds| - 1])
  }

  /** Drivers control their devices; the root service may not drive any. */
  method GrantDevices(processes: seq<Process>, root: Str, o: Objects, ds: seq<Device>)
    returns (r: Option<(Objects, seq<PlanGrant>)>)
    ensures r.Some? <==> forall i :: 0 <= i < |ds| ==> ds[i].driver != root
    ensures r.Some? ==> r.value == (WithDevices(processes, o, ds), AllDeviceGrants(processes, ds))
  {
    hide WithDevice, DeviceGrants;
    var o', grants, i := o, [], 0;
    while i < |ds|
      invariant i <= |ds| && forall j :: 0 <= j < i ==> ds[j].driver != root
      invariant o' == WithDevices(processes, o, ds[..i]) && grants == AllDeviceGrants(processes, ds[..i])
    {
      assert ds[..i + 1][..i] == ds[..i];
      if ds[i].driver == root {
        return None;
      }
      o', grants := WithDevice(processes, o', ds[i]), grants + DeviceGrants(processes, ds[i]);
      i := i + 1;
    }
    assert ds[..i] == ds;
    return Some((o', grants));
  }

  // ----- Network ports -----

  /** The provider of a port controls it. */
  function PortGrants(m: Manifest, processes: seq<Process>, root: Str, port: Str): seq<PlanGrant> {
    var c := FindCapability(m.capabilities, port);
    if c.None? || c.value.kind != KIND_NETWORK_PORT then []
    else if c.value.provider == root || !Native(processes, c.value.provider) then []
    else [PlanGrant(ProcessFor(processes, c.value.provider).value, OBJECT_NETWORK_PORT, port, RIGHT_CONTROL)]
  }

  function AllPortGrants(m: Manifest, processes: seq<Process>, root: Str, ports: seq<Str>): seq<PlanGrant> {
    if ports == [] then []
    else AllPortGrants(m, processes, root, ports[..|ports| - 1]) + PortGrants(m, processes, root, ports[|ports| - 1])
  }

  method GrantPorts(m: Manifest, processes: seq<Process>, root: Str, ports: seq<Str>)
    returns (r: Option<seq<PlanGrant>>)
    ensures r.Some? <==> forall i :: 0 <= i < |ports| ==> FindCapability(m.capabilities, ports[i]).Some?
    ensures r.Some? ==> r.value == AllPortGrants(m, processes, root, ports)
  {
    hide PortGrants, FindCapability;
    var grants, i := [], 0;
    while i < |ports|
      invariant i <= |ports| && forall j :: 0 <= j < i ==> FindCapability(m.capabilities, ports[j]).Some?
      invariant grants == AllPortGrants(m, processes, root, ports[..i])
    {
      assert ports[..i + 1][..i] == ports[..i];
      if FindCapability(m.capabilities, ports[i]).None? {
        return None;
      }
      grants := grants + PortGrants(m, processes, root, ports[i]);
      i := i + 1;
    }
    assert ports[..i] == ports;
    return Some(grants);
  }
}
