/** The records of a KrustBoot payload and their rows on the wire. */
module BootRecords {
  import opened Bytes
  import opened Results
  import opened Wire

  const MAX_PROCESS_REFS: nat := 5
  const MAX_PROCESS_MOUNTS: nat := 4
  const MAX_NAMESPACE_ENTRIES: nat := 4
  const OBJECT_STATE: nat := 3
  const U16_LIMIT: nat := 0x1_0000

  type Str = seq<Byte>

  datatype BootModule = BootModule(name: Str, moduleString: Str)
  datatype ProcessMount = ProcessMount(path: Str, source: Str, flags: nat)
  datatype EndpointRequirement = EndpointRequirement(endpoint: nat, rights: nat)
  datatype Process = Process(name: Str, moduleString: Str, initial: bool, restartPolicy: nat, serviceId: Str,
                             healthKind: Str, mountRoot: Str, mounts: seq<ProcessMount>, startAfter: seq<nat>,
                             requiresEndpoint: seq<EndpointRequirement>, providesEndpoint: seq<nat>)
  datatype Endpoint = Endpoint(name: Str)
  datatype Grant = Grant(processIndex: nat, objectKind: nat, objectIndex: nat, capSlot: nat, rights: nat)
  datatype StoreObject = StoreObject(id: Str, moduleString: Str, hash: Str, size: nat)
  datatype StateVolume = StateVolume(id: Str, owner: Str, schemaVersion: Str, storageClass: Str, migrationPolicy: Str,
                                     retentionPolicy: Str, sharingPolicy: Str)
  datatype NetworkPort = NetworkPort(id: Str)
  /** An I/O port range, MMIO region or DMA region. */
  datatype DeviceRange = DeviceRange(id: Str, base: nat, length: nat)
  datatype Framebuffer = Framebuffer(id: Str)
  datatype InterruptLine = InterruptLine(id: Str, line: nat)
  datatype PciDevice = PciDevice(id: Str, kind: Str)
  datatype VirtioDevice = VirtioDevice(id: Str, transport: Str)
  datatype NamespaceEntry = NamespaceEntry(path: Str, objectKind: nat, objectIndex: nat, rights: nat)
  datatype Namespace = Namespace(id: Str, entries: seq<NamespaceEntry>)
  datatype VfsRoot = VfsRoot(id: Str, rootPath: Str)
  datatype GraphNode = GraphNode(kind: nat, objectKind: nat, id: Str, caption: Str)
  datatype GraphEdge = GraphEdge(kind: nat, from: nat, to: nat, rights: nat, id: Str)
  datatype PolicyCapability = PolicyCapability(id: Str, provider: Str, objectKind: nat, objectIndex: nat, rights: nat)
  datatype PolicyRequirement = PolicyRequirement(service: Str, capability: Str, rights: nat)
  datatype PolicyProvide = PolicyProvide(service: Str, capability: Str)
  datatype PolicyMount = PolicyMount(service: Str, mountRoot: Str, path: Str, source: Str, flags: nat)
  datatype PolicyStatePath = PolicyStatePath(service: Str, state: Str, root: Str, rights: nat)
  datatype PolicyBootstrap = PolicyBootstrap(service: Str, authority: Str, rule: Str, rights: nat)

  // ----- Fields of a row -----

  function T(s: Str): Value { Octets(s) }
  function N(n: nat): Value { Num(n) }

  function TextAt(row: Row, i: nat): Str {
    if i < |row| && row[i].Octets? then row[i].octets else []
  }

  function NumAt(row: Row, i: nat): nat {
    if i < |row| && row[i].Num? then row[i].num else 0
  }

  const U16: Kind := Number(2)
  const U64: Kind := Number(8)

  // ----- Simple records -----

  const BOOT_MODULE: seq<Kind> := [Name, Name]
  function ModuleRow(x: BootModule): Row { [T(x.name), T(x.moduleString)] }
  function RowModule(r: Row): Option<BootModule> { Some(BootModule(TextAt(r, 0), TextAt(r, 1))) }

  const ENDPOINT: seq<Kind> := [Name]
  function EndpointRow(x: Endpoint): Row { [T(x.name)] }
  function RowEndpoint(r: Row): Option<Endpoint> { Some(Endpoint(TextAt(r, 0))) }

  const GRANT: seq<Kind> := [U16, U16, U16, U16, U16, U16]
  function GrantRow(x: Grant): Row { [N(x.processIndex), N(x.objectKind), N(x.objectIndex), N(x.capSlot), N(x.rights),
                                      N(0)] }
  /** State volumes cannot be granted; the reserved field is not looked at. */
  function RowGrant(r: Row): Option<Grant> {
    if NumAt(r, 1) == OBJECT_STATE then None
    else Some(Grant(NumAt(r, 0), NumAt(r, 1), NumAt(r, 2), NumAt(r, 3), NumAt(r, 4)))
  }

  const STORE_OBJECT: seq<Kind> := [Name, Name, Name, U64]
  function StoreRow(x: StoreObject): Row { [T(x.id), T(x.moduleString), T(x.hash), N(x.size)] }
  function RowStore(r: Row): Option<StoreObject> { Some(StoreObject(TextAt(r, 0), TextAt(r, 1), TextAt(r, 2),
                                                                    NumAt(r, 3))) }

  const STATE_VOLUME: seq<Kind> := [Name, Name, Name, Name, Name, Name, Name]
  function StateRow(x: StateVolume): Row {
    [T(x.id), T(x.owner), T(x.schemaVersion), T(x.storageClass), T(x.migrationPolicy), T(x.retentionPolicy),
     T(x.sharingPolicy)]
  }
  function RowState(r: Row): Option<StateVolume> {
    Some(StateVolume(TextAt(r, 0), TextAt(r, 1), TextAt(r, 2), TextAt(r, 3), TextAt(r, 4), TextAt(r, 5), TextAt(r, 6)))
  }

  const NETWORK_PORT: seq<Kind> := [Name]
  function PortRow(x: NetworkPort): Row { [T(x.id)] }
  function RowPort(r: Row): Option<NetworkPort> { Some(NetworkPort(TextAt(r, 0))) }

  const DEVICE_RANGE: seq<Kind> := [Name, U64, U64]
  function RangeRow(x: DeviceRange): Row { [T(x.id), N(x.base), N(x.length)] }
  function RowRange(r: Row): Option<DeviceRange> { Some(DeviceRange(TextAt(r, 0), NumAt(r, 1), NumAt(r, 2))) }

  const FRAMEBUFFER: seq<Kind> := [Name]
  function FramebufferRow(x: Framebuffer): Row { [T(x.id)] }
  function RowFramebuffer(r: Row): Option<Framebuffer> { Some(Framebuffer(TextAt(r, 0))) }

  const INTERRUPT_LINE: seq<Kind> := [Name, U64]
  function LineRow(x: InterruptLine): Row { [T(x.id), N(x.line)] }
  function RowLine(r: Row): Option<InterruptLine> { Some(InterruptLine(TextAt(r, 0), NumAt(r, 1))) }

  const PCI_DEVICE: seq<Kind> := [Name, Name]
  function PciRow(x: PciDevice): Row { [T(x.id), T(x.kind)] }
  function RowPci(r: Row): Option<PciDevice> { Some(PciDevice(TextAt(r, 0), TextAt(r, 1))) }

  const VIRTIO_DEVICE: seq<Kind> := [Name, Name]
  function VirtioRow(x: VirtioDevice): Row { [T(x.id), T(x.transport)] }
  function RowVirtio(r: Row): Option<VirtioDevice> { Some(VirtioDevice(TextAt(r, 0), TextAt(r, 1))) }

  const VFS_ROOT: seq<Kind> := [Name, Name]
  function RootRow(x: VfsRoot): Row { [T(x.id), T(x.rootPath)] }
  function RowRoot(r: Row): Option<VfsRoot> { Some(VfsRoot(TextAt(r, 0), TextAt(r, 1))) }

  const GRAPH_NODE: seq<Kind> := [U16, U16, Name, Label]
  function NodeRow(x: GraphNode): Row { [N(x.kind), N(x.objectKind), T(x.id), T(x.caption)] }
  function RowNode(r: Row): Option<GraphNode> { Some(GraphNode(NumAt(r, 0), NumAt(r, 1), TextAt(r, 2), TextAt(r, 3))) }

  const GRAPH_EDGE: seq<Kind> := [U16, U16, U16, U16, Name]
  function EdgeRow(x: GraphEdge): Row { [N(x.kind), N(x.from), N(x.to), N(x.rights), T(x.id)] }
  function RowEdge(r: Row): Option<GraphEdge> {
    Some(GraphEdge(NumAt(r, 0), NumAt(r, 1), NumAt(r, 2), NumAt(r, 3), TextAt(r, 4)))
  }

  // ----- Policy facts: the reserved field must be zero -----

  const POLICY_CAPABILITY: seq<Kind> := [Name, Name, U16, U16, U16, U16]
  function CapabilityRow(x: PolicyCapability): Row { [T(x.id), T(x.provider), N(x.objectKind), N(x.objectIndex),
                                                      N(x.rights), N(0)] }
  function RowCapability(r: Row): Option<PolicyCapability> {
    if NumAt(r, 5) != 0 then None
    else Some(PolicyCapability(TextAt(r, 0), TextAt(r, 1), NumAt(r, 2), NumAt(r, 3), NumAt(r, 4)))
  }

  const POLICY_REQUIREMENT: seq<Kind> := [Name, Name, U16, U16]
  function RequirementRow(x: PolicyRequirement): Row { [T(x.service), T(x.capability), N(x.rights), N(0)] }
  function RowRequirement(r: Row): Option<PolicyRequirement> {
    if NumAt(r, 3) != 0 then None else Some(PolicyRequirement(TextAt(r, 0), TextAt(r, 1), NumAt(r, 2)))
  }

  const POLICY_PROVIDE: seq<Kind> := [Name, Name]
  function ProvideRow(x: PolicyProvide): Row { [T(x.service), T(x.capability)] }
  function RowProvide(r: Row): Option<PolicyProvide> { Some(PolicyProvide(TextAt(r, 0), TextAt(r, 1))) }

  const POLICY_MOUNT: seq<Kind> := [Name, Name, Label, Label, U16, U16]
  function MountRow(x: PolicyMount): Row { [T(x.service), T(x.mountRoot), T(x.path), T(x.source), N(x.flags), N(0)] }
  function RowMount(r: Row): Option<PolicyMount> {
    if NumAt(r, 5) != 0 then None
    else Some(PolicyMount(TextAt(r, 0), TextAt(r, 1), TextAt(r, 2), TextAt(r, 3), NumAt(r, 4)))
  }

  const POLICY_STATE_PATH: seq<Kind> := [Name, Name, Name, U16, U16]
  function StatePathRow(x: PolicyStatePath): Row { [T(x.service), T(x.state), T(x.root), N(x.rights), N(0)] }
  function RowStatePath(r: Row): Option<PolicyStatePath> {
    if NumAt(r, 4) != 0 then None else Some(PolicyStatePath(TextAt(r, 0), TextAt(r, 1), TextAt(r, 2), NumAt(r, 3)))
  }

  const POLICY_BOOTSTRAP: seq<Kind> := [Name, Name, Name, U64]
  function BootstrapRow(x: PolicyBootstrap): Row { [T(x.service), T(x.authority), T(x.rule), N(x.rights)] }
  function RowBootstrap(r: Row): Option<PolicyBootstrap> {
    Some(PolicyBootstrap(TextAt(r, 0), TextAt(r, 1), TextAt(r, 2), NumAt(r, 3)))
  }

  // ----- Processes: lists padded to their full length -----

  const MOUNT_KINDS: seq<Kind> := [Label, Label, U16, U16]
  const REF_KINDS: seq<Kind> := [U16, U16, U16, U16, U16]
  const PROCESS: seq<Kind> :=
    [Name, Name, U16, U16, Name, Label, Name]
    + ([U16] + MOUNT_KINDS + MOUNT_KINDS + MOUNT_KINDS + MOUNT_KINDS)
    + ([U16] + REF_KINDS) + ([U16] + REF_KINDS + REF_KINDS) + ([U16] + REF_KINDS)

  /** Mount `i` of a padded list. */
  function MountAt(mounts: seq<ProcessMount>, i: nat): (r: Row)
    ensures |r| == 4
  {
    if i < |mounts| then [T(mounts[i].path), T(mounts[i].source), N(mounts[i].flags), N(0)]
    else [T([]), T([]), N(0), N(0)]
  }

  function RefAt(refs: seq<nat>, i: nat): Value {
    if i < |refs| then N(refs[i]) else N(0xffff)
  }

  function RefList(refs: seq<nat>): Row {
    [N(|refs|), RefAt(refs, 0), RefAt(refs, 1), RefAt(refs, 2), RefAt(refs, 3), RefAt(refs, 4)]
  }

  function RequirementAt(refs: seq<EndpointRequirement>, i: nat): (r: Row)
    ensures |r| == 2
  {
    if i < |refs| then [N(refs[i].endpoint), N(refs[i].rights)] else [N(0xffff), N(0)]
  }

  function BaseRow(x: Process): Row {
    [T(x.name), T(x.moduleString), N(if x.initial then 1 else 0), N(x.restartPolicy), T(x.serviceId), T(x.healthKind),
     T(x.mountRoot)]
  }

  function MountList(mounts: seq<ProcessMount>): Row {
    [N(|mounts|)] + MountAt(mounts, 0) + MountAt(mounts, 1) + MountAt(mounts, 2) + MountAt(mounts, 3)
  }

  function RequirementList(refs: seq<EndpointRequirement>): Row {
    [N(|refs|)] + RequirementAt(refs, 0) + RequirementAt(refs, 1) + RequirementAt(refs, 2) + RequirementAt(refs, 3)
    + RequirementAt(refs, 4)
  }

  function ProcessRow(x: Process): (r: Row)
    ensures |r| == 47
  {
    BaseRow(x) + MountList(x.mounts) + RefList(x.startAfter) + RequirementList(x.requiresEndpoint)
    + RefList(x.providesEndpoint)
  }

  /** Bind mounts, possibly read-only. */
  predicate MountFlagsOk(flags: nat) {
    flags == 1 || flags == 3
  }

  predicate MountOk(r: Row, at: nat, used: bool) {
    && NumAt(r, at + 3) == 0
    && if used then TextAt(r, at) != [] && TextAt(r, at + 1) != [] && MountFlagsOk(NumAt(r, at + 2))
       else TextAt(r, at) == [] && TextAt(r, at + 1) == [] && NumAt(r, at + 2) == 0
  }

  function ReadMount(r: Row, at: nat): ProcessMount {
    ProcessMount(TextAt(r, at), TextAt(r, at + 1), NumAt(r, at + 2))
  }

  /** A mount list: as many mounts as it says, and nothing after them. */
  function ReadMounts(r: Row): Option<seq<ProcessMount>> {
    var n := NumAt(r, 0);
    if n > MAX_PROCESS_MOUNTS || !MountOk(r, 1, 0 < n) || !MountOk(r, 5, 1 < n) || !MountOk(r, 9, 2 < n)
       || !MountOk(r, 13, 3 < n) then None
    else Some([ReadMount(r, 1), ReadMount(r, 5), ReadMount(r, 9), ReadMount(r, 13)][..n])
  }

  function ReadRefs(r: Row): Option<seq<nat>> {
    var n := NumAt(r, 0);
    if n > MAX_PROCESS_REFS then None else Some([NumAt(r, 1), NumAt(r, 2), NumAt(r, 3), NumAt(r, 4), NumAt(r, 5)][..n])
  }

  function ReadRequirement(r: Row, at: nat): EndpointRequirement {
    EndpointRequirement(NumAt(r, at), NumAt(r, at + 1))
  }

  function ReadRequirements(r: Row): Option<seq<EndpointRequirement>> {
    var n := NumAt(r, 0);
    if n > MAX_PROCESS_REFS then None
    else Some([ReadRequirement(r, 1), ReadRequirement(r, 3), ReadRequirement(r, 5), ReadRequirement(r, 7),
               ReadRequirement(r, 9)][..n])
  }

  function RowProcess(r: Row): Option<Process> {
    if |r| != 47 then None
    else
      var mounts, after := ReadMounts(r[7..24]), ReadRefs(r[24..30]);
      var needs, gives := ReadRequirements(r[30..41]), ReadRefs(r[41..47]);
      if mounts.None? || after.None? || needs.None? || gives.None? then None
      else Some(Process(TextAt(r, 0), TextAt(r, 1), NumAt(r, 2) % 2 == 1, NumAt(r, 3), TextAt(r, 4), TextAt(r, 5),
                        TextAt(r, 6), mounts.value, after.value, needs.value, gives.value))
  }

  /** What the kernel accepts of a process record's lists. */
  ghost predicate ProcessOk(x: Process) {
    && |x.mounts| <= MAX_PROCESS_MOUNTS && |x.startAfter| <= MAX_PROCESS_REFS
    && |x.requiresEndpoint| <= MAX_PROCESS_REFS && |x.providesEndpoint| <= MAX_PROCESS_REFS
    && MountsOk(x.mounts)
  }

  ghost predicate MountsOk(mounts: seq<ProcessMount>) {
    forall i :: 0 <= i < |mounts| ==> mounts[i].path != [] && mounts[i].source != [] && MountFlagsOk(mounts[i].flags)
  }

  lemma ProcessRoundTrip(x: Process)
    requires ProcessOk(x)
    ensures RowProcess(ProcessRow(x)) == Some(x)
  {
    hide MountList, RefList, RequirementList, ReadMounts, ReadRefs, ReadRequirements, ProcessRow;
    ProcessParts(x);
    MountsRead(x.mounts);
    RefsRead(x.startAfter);
    RefsRead(x.providesEndpoint);
    RequirementsRead(x.requiresEndpoint);
  }

  lemma ProcessParts(x: Process)
    ensures var r := ProcessRow(x);
            && r[7..24] == MountList(x.mounts) && r[24..30] == RefList(x.startAfter)
            && r[30..41] == RequirementList(x.requiresEndpoint) && r[41..47] == RefList(x.providesEndpoint)
            && forall i :: 0 <= i < 7 ==> r[i] == BaseRow(x)[i]
  {
    var a, b, c, d, e :=
      BaseRow(x), MountList(x.mounts), RefList(x.startAfter), RequirementList(x.requiresEndpoint),
      RefList(x.providesEndpoint);
    assert |a| == 7 && |b| == 17 && |c| == 6 && |d| == 11 && |e| == 6;
    hide BaseRow, MountList, RefList, RequirementList;
    var r := a + b + c + d + e;
    assert r[7..24] == b;
    assert r[24..30] == c;
    assert r[30..41] == d;
    assert r[41..47] == e;
  }

  lemma MountsRead(mounts: seq<ProcessMount>)
    requires |mounts| <= MAX_PROCESS_MOUNTS && MountsOk(mounts)
    ensures ReadMounts(MountList(mounts)) == Some(mounts)
  {
    hide MountList;
    var r := MountList(mounts);
    MountParts(mounts);
    MountRead(mounts, r, 0);
    MountRead(mounts, r, 1);
    MountRead(mounts, r, 2);
    MountRead(mounts, r, 3);
    hide MountOk, ReadMount, MountAt;
    assert [ReadMount(r, 1), ReadMount(r, 5), ReadMount(r, 9), ReadMount(r, 13)][..|mounts|] == mounts;
  }

  lemma MountParts(mounts: seq<ProcessMount>)
    ensures var r := MountList(mounts);
            && |r| == 17 && NumAt(r, 0) == |mounts|
            && r[1..5] == MountAt(mounts, 0) && r[5..9] == MountAt(mounts, 1) && r[9..13] == MountAt(mounts, 2)
            && r[13..17] == MountAt(mounts, 3)
  {
    hide MountAt;
    var a, b, c, d := MountAt(mounts, 0), MountAt(mounts, 1), MountAt(mounts, 2), MountAt(mounts, 3);
    var r := [N(|mounts|)] + a + b + c + d;
    assert r[1..5] == a;
    assert r[5..9] == b;
    assert r[9..13] == c;
    assert r[13..17] == d;
  }

  lemma MountRead(mounts: seq<ProcessMount>, r: Row, i: nat)
    requires MountsOk(mounts) && |r| == 17 && i < 4 && r[1 + 4 * i..5 + 4 * i] == MountAt(mounts, i)
    ensures MountOk(r, 1 + 4 * i, i < |mounts|) && (i < |mounts| ==> ReadMount(r, 1 + 4 * i) == mounts[i])
  {
    var at := 1 + 4 * i;
    assert r[at] == r[at..at + 4][0] && r[at + 1] == r[at..at + 4][1] && r[at + 2] == r[at..at + 4][2]
           && r[at + 3] == r[at..at + 4][3];
  }

  lemma RefsRead(refs: seq<nat>)
    requires |refs| <= MAX_PROCESS_REFS
    ensures ReadRefs(RefList(refs)) == Some(refs)
  {
    var r := RefList(refs);
    assert [NumAt(r, 1), NumAt(r, 2), NumAt(r, 3), NumAt(r, 4), NumAt(r, 5)][..|refs|] == refs;
  }

  lemma RequirementsRead(refs: seq<EndpointRequirement>)
    requires |refs| <= MAX_PROCESS_REFS
    ensures ReadRequirements(RequirementList(refs)) == Some(refs)
  {
    hide RequirementList, ReadRequirement, RequirementAt;
    var r := RequirementList(refs);
    RequirementParts(refs);
    RequirementRead(refs, r, 0);
    RequirementRead(refs, r, 1);
    RequirementRead(refs, r, 2);
    RequirementRead(refs, r, 3);
    RequirementRead(refs, r, 4);
    assert [ReadRequirement(r, 1), ReadRequirement(r, 3), ReadRequirement(r, 5), ReadRequirement(r, 7),
            ReadRequirement(r, 9)][..|refs|] == refs;
  }

  lemma RequirementParts(refs: seq<EndpointRequirement>)
    ensures var r := RequirementList(refs);
            && |r| == 11 && r[1..3] == RequirementAt(refs, 0) && r[3..5] == RequirementAt(refs, 1)
            && r[5..7] == RequirementAt(refs, 2)
            && r[7..9] == RequirementAt(refs, 3) && r[9..11] == RequirementAt(refs, 4) && NumAt(r, 0) == |refs|
  {
    hide RequirementAt;
  }

  lemma RequirementRead(refs: seq<EndpointRequirement>, r: Row, i: nat)
    requires |r| == 11 && i < 5 && r[1 + 2 * i..3 + 2 * i] == RequirementAt(refs, i)
    ensures i < |refs| ==> ReadRequirement(r, 1 + 2 * i) == refs[i]
  {
    var at := 1 + 2 * i;
    assert r[at] == r[at..at + 2][0] && r[at + 1] == r[at..at + 2][1];
  }

  // ----- Lists of records -----

  function Rows<X>(xs: seq<X>, row: X -> Row): (rows: seq<Row>)
    ensures |rows| == |xs| && forall i :: 0 <= i < |xs| ==> rows[i] == row(xs[i])
  {
    seq(|xs|, i requires 0 <= i < |xs| => row(xs[i]))
  }

  function Records<X>(rows: seq<Row>, record: Row -> Option<X>): Option<seq<X>> {
    if rows == [] then Some([])
    else
      var first := record(rows[0]);
      var rest := Records(rows[1..], record);
      if first.None? || rest.None? then None else Some([first.value] + rest.value)
  }

  lemma {:induction false} RecordsOfRows<X>(xs: seq<X>, row: X -> Row, record: Row -> Option<X>)
    requires forall i :: 0 <= i < |xs| ==> record(row(xs[i])) == Some(xs[i])
    ensures Records(Rows(xs, row), record) == Some(xs)
  {
    if xs != [] {
      RecordsOfRows(xs[1..], row, record);
      assert Rows(xs, row)[1..] == Rows(xs[1..], row);
      assert [xs[0]] + xs[1..] == xs;
    }
  }
}
