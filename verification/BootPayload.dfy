/** The compact KrustBoot payload: what the boot compiler writes and the kernel reads back. */
module BootPayload {
  import opened Buffers
  import opened Bytes
  import opened Results
  import opened Text
  import opened Wire
  import opened BootRecords

  const COMPACT_MAGIC: seq<Byte> := [0x4b, 0x52, 0x55, 0x53, 0x54, 0x42, 0x4f, 0x4f, 0x54, 0x4d, 0x38, 0x36, 0, 0, 0, 0]
  const COMPACT_VERSION: nat := 19
  const POLICY_VERSION: nat := 3
  const FIXED_RUNTIME_OBJECTS: nat := 4
  const MAX_RUNTIME_OBJECTS: nat := 64

  /** Everything the kernel is told at boot. */
  datatype Payload = Payload(
    generation: Str, parent: Str,
    modules: seq<BootModule>, processes: seq<Process>, endpoints: seq<Endpoint>, grants: seq<Grant>,
    stores: seq<StoreObject>, states: seq<StateVolume>, ports: seq<NetworkPort>, ioPorts: seq<DeviceRange>,
    mmioRegions: seq<DeviceRange>, framebuffers: seq<Framebuffer>, lines: seq<InterruptLine>,
    dmaRegions: seq<DeviceRange>,
    pciDevices: seq<PciDevice>, virtioDevices: seq<VirtioDevice>, namespaces: seq<Namespace>, roots: seq<VfsRoot>,
    nodes: seq<GraphNode>, edges: seq<GraphEdge>,
    capabilities: seq<PolicyCapability>, requirements: seq<PolicyRequirement>, provisions: seq<PolicyProvide>,
    mounts: seq<PolicyMount>, statePaths: seq<PolicyStatePath>, bootstraps: seq<PolicyBootstrap>)

  // ----- Namespaces: records of varying length -----

  const NAMESPACE: seq<Kind> := [Name, U16]
  const NAMESPACE_ENTRY: seq<Kind> := [Name, U16, U16, U16, U16]

  function EntryRow(x: NamespaceEntry): Row { [T(x.path), N(x.objectKind), N(x.objectIndex), N(x.rights), N(0)] }
  function RowEntry(r: Row): Option<NamespaceEntry> {
    Some(NamespaceEntry(TextAt(r, 0), NumAt(r, 1), NumAt(r, 2), NumAt(r, 3)))
  }

  function NamespaceRow(x: Namespace): Row { [T(x.id), N(|x.entries|)] }

  ghost predicate NamespaceFits(x: Namespace) {
    RowFits(NAMESPACE, NamespaceRow(x)) && TableFits(NAMESPACE_ENTRY, Rows(x.entries, EntryRow))
  }

  /** What is read back as it was written. */
  ghost predicate NamespaceKept(x: Namespace) {
    && RowClean(NAMESPACE, NamespaceRow(x)) && TableClean(NAMESPACE_ENTRY, Rows(x.entries, EntryRow))
    && |x.entries| <= MAX_NAMESPACE_ENTRIES
  }

  ghost predicate NamespacesFit(xs: seq<Namespace>) {
    forall i :: 0 <= i < |xs| ==> NamespaceFits(xs[i])
  }

  function EncodeNamespaces(xs: seq<Namespace>): seq<Byte>
    requires NamespacesFit(xs)
  {
    if xs == [] then []
    else
      EncodeRow(NAMESPACE, NamespaceRow(xs[0])) + EncodeTable(NAMESPACE_ENTRY, Rows(xs[0].entries, EntryRow))
      + EncodeNamespaces(xs[1..])
  }

  function DecodeNamespace(s: seq<Byte>): Option<(Namespace, seq<Byte>)> {
    var head := DecodeRow(NAMESPACE, s);
    if head.None? || NumAt(head.value.0, 1) > MAX_NAMESPACE_ENTRIES then None
    else
      var body := DecodeTable(NAMESPACE_ENTRY, NumAt(head.value.0, 1), head.value.1);
      if body.None? then None
      else
        var entries := Records(body.value.0, RowEntry);
        if entries.None? then None else Some((Namespace(TextAt(head.value.0, 0), entries.value), body.value.1))
  }

  function DecodeNamespaces(n: nat, s: seq<Byte>): Option<(seq<Namespace>, seq<Byte>)> {
    if n == 0 then Some(([], s))
    else
      var first := DecodeNamespace(s);
      if first.None? then None
      else
        var rest := DecodeNamespaces(n - 1, first.value.1);
        if rest.None? then None else Some(([first.value.0] + rest.value.0, rest.value.1))
  }

  ghost predicate NamespacesKept(xs: seq<Namespace>) {
    forall i :: 0 <= i < |xs| ==> NamespaceKept(xs[i])
  }

  // ----- Sections -----

  const HEAD: seq<Kind> :=
    [Raw(16), U16] + [U16, U16, U16, U16, U16, U16, U16, U16] + [U16, U16, U16, U16, U16, U16, U16, U16]
    + [Name, Label, U16, U16, Number(4)]

  const POLICY_HEAD: seq<Kind> := [U16, U16, U16, U16, U16, U16, U16, Name]

  function FirstTables(p: Payload): (t: seq<Table>)
    ensures |t| == 14
  {
    [Table(BOOT_MODULE, Rows(p.modules, ModuleRow)), Table(PROCESS, Rows(p.processes, ProcessRow)),
     Table(ENDPOINT, Rows(p.endpoints, EndpointRow)), Table(GRANT, Rows(p.grants, GrantRow)),
     Table(STORE_OBJECT, Rows(p.stores, StoreRow)), Table(STATE_VOLUME, Rows(p.states, StateRow)),
     Table(NETWORK_PORT, Rows(p.ports, PortRow)), Table(DEVICE_RANGE, Rows(p.ioPorts, RangeRow)),
     Table(DEVICE_RANGE, Rows(p.mmioRegions, RangeRow)), Table(FRAMEBUFFER, Rows(p.framebuffers, FramebufferRow)),
     Table(INTERRUPT_LINE, Rows(p.lines, LineRow)), Table(DEVICE_RANGE, Rows(p.dmaRegions, RangeRow)),
     Table(PCI_DEVICE, Rows(p.pciDevices, PciRow)), Table(VIRTIO_DEVICE, Rows(p.virtioDevices, VirtioRow))]
  }

  function RootTable(p: Payload): seq<Table> {
    [Table(VFS_ROOT, Rows(p.roots, RootRow))]
  }

  function GraphTables(p: Payload): seq<Table> {
    [Table(GRAPH_NODE, Rows(p.nodes, NodeRow)), Table(GRAPH_EDGE, Rows(p.edges, EdgeRow))]
  }

  function PolicyTables(p: Payload): (t: seq<Table>)
    ensures |t| == 6
  {
    [Table(POLICY_CAPABILITY, Rows(p.capabilities, CapabilityRow)),
     Table(POLICY_REQUIREMENT, Rows(p.requirements, RequirementRow)),
     Table(POLICY_PROVIDE, Rows(p.provisions, ProvideRow)), Table(POLICY_MOUNT, Rows(p.mounts, MountRow)),
     Table(POLICY_STATE_PATH, Rows(p.statePaths, StatePathRow)),
     Table(POLICY_BOOTSTRAP, Rows(p.bootstraps, BootstrapRow))]
  }

  function HeadRow(p: Payload, checksum: nat): Row {
    [T(COMPACT_MAGIC), N(COMPACT_VERSION)]
    + [N(|p.modules|), N(|p.processes|), N(|p.endpoints|), N(|p.grants|), N(|p.stores|), N(|p.states|), N(|p.ports|),
       N(|p.ioPorts|)]
    + [N(|p.mmioRegions|), N(|p.framebuffers|), N(|p.lines|), N(|p.dmaRegions|), N(|p.pciDevices|),
       N(|p.virtioDevices|), N(|p.namespaces|), N(|p.roots|)]
    + [T(p.generation), T(p.parent), N(|p.nodes|), N(|p.edges|), N(checksum)]
  }

  function PolicyHeadRow(p: Payload, hash: Str): Row {
    [N(POLICY_VERSION), N(|p.capabilities|), N(|p.requirements|), N(|p.provisions|), N(|p.mounts|), N(|p.statePaths|),
     N(|p.bootstraps|), T(hash)]
  }

  /** Every field fits its slot. */
  ghost predicate PayloadFits(p: Payload, digest: seq<Byte> -> Str) {
    && TablesFit(FirstTables(p)) && NamespacesFit(p.namespaces) && TablesFit(RootTable(p)) && TablesFit(GraphTables(p))
    && TablesFit(PolicyTables(p))
    && RowFits(HEAD, HeadRow(p, Checksum(EncodeTables(GraphTables(p)))))
    && RowFits(POLICY_HEAD, PolicyHeadRow(p, digest(EncodeTables(PolicyTables(p)))))
  }

  /** Every text is read back as it was written. */
  ghost predicate PayloadClean(p: Payload, digest: seq<Byte> -> Str)
    requires PayloadFits(p, digest)
  {
    && TablesClean(FirstTables(p)) && NamespacesKept(p.namespaces) && TablesClean(RootTable(p))
    && TablesClean(GraphTables(p)) && TablesClean(PolicyTables(p)) && RowClean(HEAD, HeadRow(p, 0))
    && RowClean(POLICY_HEAD, PolicyHeadRow(p, digest(EncodeTables(PolicyTables(p)))))
  }

  /** The bytes of a payload. `digest` is the hash of the policy records, in hexadecimal. */
  function Body(p: Payload, digest: seq<Byte> -> Str): seq<Byte>
    requires PayloadFits(p, digest)
  {
    var graph, policy := EncodeTables(GraphTables(p)), EncodeTables(PolicyTables(p));
    EncodeRow(HEAD, HeadRow(p, Checksum(graph)))
    + (EncodeTables(FirstTables(p))
       + (EncodeNamespaces(p.namespaces)
          + (EncodeTables(RootTable(p))
             + (graph
                + (EncodeRow(POLICY_HEAD, PolicyHeadRow(p, digest(policy)))
                   + policy)))))
  }

  // ----- Reading -----

  /** The counts of a head row, each within its own limit. The compiler and the kernel have the same ones. */
  predicate EachWithin(r: Row) {
    && NumAt(r, 2) <= 16 && NumAt(r, 3) <= 16 && NumAt(r, 4) <= 16 && NumAt(r, 5) <= 96 && NumAt(r, 6) <= 32
    && NumAt(r, 7) <= 4 && NumAt(r, 8) <= 4 && NumAt(r, 9) <= 4 && NumAt(r, 10) <= 4 && NumAt(r, 11) <= 1
    && NumAt(r, 12) <= 4 && NumAt(r, 13) <= 4 && NumAt(r, 14) <= 4 && NumAt(r, 15) <= 4 && NumAt(r, 16) <= 4
    && NumAt(r, 17) <= 8 && NumAt(r, 20) <= 128 && NumAt(r, 21) <= 224
  }

  /** The kernel has room for every object. */
  predicate BudgetOk(r: Row) {
    FIXED_RUNTIME_OBJECTS + NumAt(r, 4) + NumAt(r, 6) + NumAt(r, 7) + NumAt(r, 8) + NumAt(r, 9) + NumAt(r, 10)
    + NumAt(r, 11) + NumAt(r, 12) + NumAt(r, 13) + NumAt(r, 14) + NumAt(r, 15) + NumAt(r, 16) + NumAt(r, 17)
    <= MAX_RUNTIME_OBJECTS
  }

  predicate HeadOk(r: Row) {
    TextAt(r, 0) == COMPACT_MAGIC && NumAt(r, 1) == COMPACT_VERSION && EachWithin(r) && BudgetOk(r)
  }

  predicate PolicyHeadOk(r: Row) {
    && NumAt(r, 0) == POLICY_VERSION && NumAt(r, 1) <= 128 && NumAt(r, 2) <= 160 && NumAt(r, 3) <= 64
    && NumAt(r, 4) <= 96
    && NumAt(r, 5) <= 96 && NumAt(r, 6) <= 96
  }

  function FirstShape(r: Row): Shape {
    [(BOOT_MODULE, NumAt(r, 2)), (PROCESS, NumAt(r, 3)), (ENDPOINT, NumAt(r, 4)), (GRANT, NumAt(r, 5)),
     (STORE_OBJECT, NumAt(r, 6)),
     (STATE_VOLUME, NumAt(r, 7)), (NETWORK_PORT, NumAt(r, 8)), (DEVICE_RANGE, NumAt(r, 9)),
     (DEVICE_RANGE, NumAt(r, 10)),
     (FRAMEBUFFER, NumAt(r, 11)), (INTERRUPT_LINE, NumAt(r, 12)), (DEVICE_RANGE, NumAt(r, 13)),
     (PCI_DEVICE, NumAt(r, 14)), (VIRTIO_DEVICE, NumAt(r, 15))]
  }

  function RootShape(r: Row): Shape { [(VFS_ROOT, NumAt(r, 17))] }

  function GraphShape(r: Row): Shape { [(GRAPH_NODE, NumAt(r, 20)), (GRAPH_EDGE, NumAt(r, 21))] }

  function PolicyShape(r: Row): Shape {
    [(POLICY_CAPABILITY, NumAt(r, 1)), (POLICY_REQUIREMENT, NumAt(r, 2)), (POLICY_PROVIDE, NumAt(r, 3)),
     (POLICY_MOUNT, NumAt(r, 4)), (POLICY_STATE_PATH, NumAt(r, 5)), (POLICY_BOOTSTRAP, NumAt(r, 6))]
  }

  /** Everything read, before it is turned into records. */
  datatype Sections = Sections(head: Row, first: seq<seq<Row>>, namespaces: seq<Namespace>, roots: seq<seq<Row>>,
                               graph: seq<seq<Row>>, policyHead: Row, policy: seq<seq<Row>>)

  /** The part of `s` that was consumed to leave `rest`. */
  function Consumed(s: seq<Byte>, rest: seq<Byte>): seq<Byte> {
    if |rest| <= |s| then s[..|s| - |rest|] else []
  }

  /** Policy records, their digest, and the end of the payload. */
  function ReadPolicy(s: seq<Byte>, digest: seq<Byte> -> Str): Option<(Row, seq<seq<Row>>)> {
    var head := DecodeRow(POLICY_HEAD, s);
    if head.None? || !PolicyHeadOk(head.value.0) then None
    else
      var tables := DecodeTables(PolicyShape(head.value.0), head.value.1);
      if tables.None? || digest(Consumed(head.value.1, tables.value.1)) != TextAt(head.value.0, 7)
         || tables.value.1 != [] then None
      else Some((head.value.0, tables.value.0))
  }

  /** Graph records and their checksum. */
  function ReadGraph(head: Row, s: seq<Byte>): Option<(seq<seq<Row>>, seq<Byte>)> {
    var graph := DecodeTables(GraphShape(head), s);
    if graph.None? || Checksum(Consumed(s, graph.value.1)) != NumAt(head, 22) then None else graph
  }

  function ReadSections(s: seq<Byte>, digest: seq<Byte> -> Str): Option<Sections> {
    var head := DecodeRow(HEAD, s);
    if head.None? || !HeadOk(head.value.0) then None
    else
      var h := head.value.0;
      var first := DecodeTables(FirstShape(h), head.value.1);
      if first.None? then None
      else
        var namespaces := DecodeNamespaces(NumAt(h, 16), first.value.1);
        if namespaces.None? then None
        else
          var roots := DecodeTables(RootShape(h), namespaces.value.1);
          if roots.None? then None
          else
            var graph := ReadGraph(h, roots.value.1);
            if graph.None? then None
            else
              var policy := ReadPolicy(graph.value.1, digest);
              if policy.None? then None
              else Some(Sections(h, first.value.0, namespaces.value.0, roots.value.0, graph.value.0, policy.value.0,
                                 policy.value.1))
  }

  // ----- The raw round trip -----

  function SectionsOf(p: Payload, digest: seq<Byte> -> Str): Sections
    requires PayloadFits(p, digest)
  {
    Sections(HeadRow(p, Checksum(EncodeTables(GraphTables(p)))), RowsOf(FirstTables(p)), p.namespaces,
             RowsOf(RootTable(p)), RowsOf(GraphTables(p)),
             PolicyHeadRow(p, digest(EncodeTables(PolicyTables(p)))), RowsOf(PolicyTables(p)))
  }

  lemma HeadCells(p: Payload, checksum: nat)
    ensures var r := HeadRow(p, checksum);
            && TextAt(r, 0) == COMPACT_MAGIC && NumAt(r, 1) == COMPACT_VERSION
            && NumAt(r, 2) == |p.modules| && NumAt(r, 3) == |p.processes| && NumAt(r, 4) == |p.endpoints|
            && NumAt(r, 5) == |p.grants|
            && NumAt(r, 6) == |p.stores| && NumAt(r, 7) == |p.states| && NumAt(r, 8) == |p.ports|
            && NumAt(r, 9) == |p.ioPorts|
            && NumAt(r, 10) == |p.mmioRegions| && NumAt(r, 11) == |p.framebuffers| && NumAt(r, 12) == |p.lines|
            && NumAt(r, 13) == |p.dmaRegions| && NumAt(r, 14) == |p.pciDevices| && NumAt(r, 15) == |p.virtioDevices|
            && NumAt(r, 16) == |p.namespaces| && NumAt(r, 17) == |p.roots|
            && TextAt(r, 18) == p.generation && TextAt(r, 19) == p.parent
            && NumAt(r, 20) == |p.nodes| && NumAt(r, 21) == |p.edges| && NumAt(r, 22) == checksum
  {}

  lemma Shapes(p: Payload, checksum: nat)
    ensures FirstShape(HeadRow(p, checksum)) == ShapeOf(FirstTables(p))
  {
    HeadCells(p, checksum);
    hide HeadRow, Rows;
  }

  lemma LaterShapes(p: Payload, checksum: nat, hash: Str)
    ensures RootShape(HeadRow(p, checksum)) == ShapeOf(RootTable(p))
            && GraphShape(HeadRow(p, checksum)) == ShapeOf(GraphTables(p))
    ensures PolicyShape(PolicyHeadRow(p, hash)) == ShapeOf(PolicyTables(p))
  {
    HeadCells(p, checksum);
    hide HeadRow, Rows;
  }

  /** The kernel's limits on counts. */
  ghost predicate CountsWithin(p: Payload) {
    HeadOk(HeadRow(p, 0)) && PolicyHeadOk(PolicyHeadRow(p, []))
  }

  /** The kernel's limits. */
  ghost predicate WithinLimits(p: Payload) {
    && CountsWithin(p)
    && (forall i :: 0 <= i < |p.processes| ==> ProcessOk(p.processes[i]))
    && (forall i :: 0 <= i < |p.grants| ==> p.grants[i].objectKind != OBJECT_STATE)
  }

  /** The limits the compiler checks: all of the kernel's but the budget of objects. */
  ghost predicate CompilerLimits(p: Payload) {
    && EachWithin(HeadRow(p, 0)) && PolicyHeadOk(PolicyHeadRow(p, []))
    && (forall i :: 0 <= i < |p.processes| ==> ProcessOk(p.processes[i]))
    && (forall i :: 0 <= i < |p.grants| ==> p.grants[i].objectKind != OBJECT_STATE)
  }

  lemma LimitsHold(p: Payload, checksum: nat, hash: Str)
    ensures HeadOk(HeadRow(p, checksum)) <==> HeadOk(HeadRow(p, 0))
    ensures PolicyHeadOk(PolicyHeadRow(p, hash)) <==> PolicyHeadOk(PolicyHeadRow(p, []))
  {
    HeadCells(p, 0);
    HeadCells(p, checksum);
    hide HeadRow;
  }

  // ----- Records -----

  /** The records of the sections read. */
  function Assemble(s: Sections): Option<Payload> {
    if |s.first| != 14 || |s.roots| != 1 || |s.graph| != 2 || |s.policy| != 6 then None
    else
      var modules, processes := Records(s.first[0], RowModule), Records(s.first[1], RowProcess);
      var endpoints, grants := Records(s.first[2], RowEndpoint), Records(s.first[3], RowGrant);
      var stores, states := Records(s.first[4], RowStore), Records(s.first[5], RowState);
      var ports, ioPorts := Records(s.first[6], RowPort), Records(s.first[7], RowRange);
      var mmio, framebuffers := Records(s.first[8], RowRange), Records(s.first[9], RowFramebuffer);
      var lines, dma := Records(s.first[10], RowLine), Records(s.first[11], RowRange);
      var pci, virtio := Records(s.first[12], RowPci), Records(s.first[13], RowVirtio);
      var roots, nodes, edges := Records(s.roots[0], RowRoot), Records(s.graph[0], RowNode),
                                 Records(s.graph[1], RowEdge);
      var capabilities, requirements := Records(s.policy[0], RowCapability), Records(s.policy[1], RowRequirement);
      var provisions, mounts := Records(s.policy[2], RowProvide), Records(s.policy[3], RowMount);
      var statePaths, bootstraps := Records(s.policy[4], RowStatePath), Records(s.policy[5], RowBootstrap);
      if modules.None? || processes.None? || endpoints.None? || grants.None? || stores.None? || states.None?
         || ports.None?
         || ioPorts.None? || mmio.None? || framebuffers.None? || lines.None? || dma.None? || pci.None? || virtio.None?
         || roots.None? || nodes.None? || edges.None? || capabilities.None? || requirements.None? || provisions.None?
         || mounts.None? || statePaths.None? || bootstraps.None?
      then None
      else Some(Payload(TextAt(s.head, 18), TextAt(s.head, 19), modules.value, processes.value, endpoints.value,
                        grants.value,
                        stores.value, states.value, ports.value, ioPorts.value, mmio.value, framebuffers.value,
                        lines.value, dma.value,
                        pci.value, virtio.value, s.namespaces, roots.value, nodes.value, edges.value,
                        capabilities.value,
                        requirements.value, provisions.value, mounts.value, statePaths.value, bootstraps.value))
  }

  /** Reads a whole payload. */
  function ReadBody(s: seq<Byte>, digest: seq<Byte> -> Str): Option<Payload> {
    var sections := ReadSections(s, digest);
    if sections.None? then None else Assemble(sections.value)
  }
}
