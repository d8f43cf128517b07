/** The compact payload read back: the kernel gives back what the compiler wrote exactly when every text is clean
    and the payload is within the kernel's limits. */
module BootRoundTrip {
  import opened Buffers
  import opened Bytes
  import opened Results
  import Text
  import opened Wire
  import opened BootRecords
  import opened BootPayload

  // ----- Records whose text was cut -----

  /** Records that come back from cut rows were not cut. */
  lemma {:induction false} RecordsBack<X>(kinds: seq<Kind>, xs: seq<X>, row: X -> Row, record: Row -> Option<X>)
    requires Records(CutTable(kinds, Rows(xs, row)), record) == Some(xs)
    requires forall i :: 0 <= i < |xs| && record(CutRow(kinds, row(xs[i]))) == Some(xs[i]) ==>
          CutRow(kinds, row(xs[i])) == row(xs[i])
    ensures CutTable(kinds, Rows(xs, row)) == Rows(xs, row)
    ensures forall i :: 0 <= i < |xs| ==> record(row(xs[i])) == Some(xs[i])
  {
    hide CutRow;
    if xs != [] {
      var rows := CutTable(kinds, Rows(xs, row));
      assert Rows(xs, row)[1..] == Rows(xs[1..], row);
      assert rows[1..] == CutTable(kinds, Rows(xs[1..], row));
      var rest := Records(rows[1..], record).value;
      SameFirst(record(rows[0]).value, rest, xs[0], xs[1..]);
      assert [xs[0]] + xs[1..] == xs;
      RecordsBack(kinds, xs[1..], row, record);
      assert rows[0] == row(xs[0]);
      forall i | 0 <= i < |xs|
        ensures rows[i] == row(xs[i]) && record(row(xs[i])) == Some(xs[i])
      {
        if i > 0 { assert rows[i] == rows[1..][i - 1] && xs[i] == xs[1..][i - 1]; }
      }
    }
  }

  lemma ModuleBack(xs: seq<BootModule>)
    requires Records(CutTable(BOOT_MODULE, Rows(xs, ModuleRow)), RowModule) == Some(xs)
    ensures CutTable(BOOT_MODULE, Rows(xs, ModuleRow)) == Rows(xs, ModuleRow)
  {
    hide Rows, Records, CutTable, Text.Cut;
    forall i | 0 <= i < |xs| && RowModule(CutRow(BOOT_MODULE, ModuleRow(xs[i]))) == Some(xs[i])
      ensures CutRow(BOOT_MODULE, ModuleRow(xs[i])) == ModuleRow(xs[i])
    {
      TextsKept(BOOT_MODULE, ModuleRow(xs[i]));
    }
    RecordsBack(BOOT_MODULE, xs, ModuleRow, RowModule);
  }

  lemma EndpointBack(xs: seq<Endpoint>)
    requires Records(CutTable(ENDPOINT, Rows(xs, EndpointRow)), RowEndpoint) == Some(xs)
    ensures CutTable(ENDPOINT, Rows(xs, EndpointRow)) == Rows(xs, EndpointRow)
  {
    hide Rows, Records, CutTable, Text.Cut;
    forall i | 0 <= i < |xs| && RowEndpoint(CutRow(ENDPOINT, EndpointRow(xs[i]))) == Some(xs[i])
      ensures CutRow(ENDPOINT, EndpointRow(xs[i])) == EndpointRow(xs[i])
    {
      TextsKept(ENDPOINT, EndpointRow(xs[i]));
    }
    RecordsBack(ENDPOINT, xs, EndpointRow, RowEndpoint);
  }

  lemma GrantBack(xs: seq<Grant>)
    requires Records(CutTable(GRANT, Rows(xs, GrantRow)), RowGrant) == Some(xs)
    ensures CutTable(GRANT, Rows(xs, GrantRow)) == Rows(xs, GrantRow)
    ensures forall i :: 0 <= i < |xs| ==> xs[i].objectKind != OBJECT_STATE
  {
    hide Rows, Records, CutTable, Text.Cut;
    forall i | 0 <= i < |xs| && RowGrant(CutRow(GRANT, GrantRow(xs[i]))) == Some(xs[i])
      ensures CutRow(GRANT, GrantRow(xs[i])) == GrantRow(xs[i])
    {
      TextsKept(GRANT, GrantRow(xs[i]));
    }
    RecordsBack(GRANT, xs, GrantRow, RowGrant);
  }

  lemma StoreBack(xs: seq<StoreObject>)
    requires Records(CutTable(STORE_OBJECT, Rows(xs, StoreRow)), RowStore) == Some(xs)
    ensures CutTable(STORE_OBJECT, Rows(xs, StoreRow)) == Rows(xs, StoreRow)
  {
    hide Rows, Records, CutTable, Text.Cut;
    forall i | 0 <= i < |xs| && RowStore(CutRow(STORE_OBJECT, StoreRow(xs[i]))) == Some(xs[i])
      ensures CutRow(STORE_OBJECT, StoreRow(xs[i])) == StoreRow(xs[i])
    {
      TextsKept(STORE_OBJECT, StoreRow(xs[i]));
    }
    RecordsBack(STORE_OBJECT, xs, StoreRow, RowStore);
  }

  lemma StateBack(xs: seq<StateVolume>)
    requires Records(CutTable(STATE_VOLUME, Rows(xs, StateRow)), RowState) == Some(xs)
    ensures CutTable(STATE_VOLUME, Rows(xs, StateRow)) == Rows(xs, StateRow)
  {
    hide Rows, Records, CutTable, Text.Cut;
    forall i | 0 <= i < |xs| && RowState(CutRow(STATE_VOLUME, StateRow(xs[i]))) == Some(xs[i])
      ensures CutRow(STATE_VOLUME, StateRow(xs[i])) == StateRow(xs[i])
    {
      TextsKept(STATE_VOLUME, StateRow(xs[i]));
    }
    RecordsBack(STATE_VOLUME, xs, StateRow, RowState);
  }

  lemma PortBack(xs: seq<NetworkPort>)
    requires Records(CutTable(NETWORK_PORT, Rows(xs, PortRow)), RowPort) == Some(xs)
    ensures CutTable(NETWORK_PORT, Rows(xs, PortRow)) == Rows(xs, PortRow)
  {
    hide Rows, Records, CutTable, Text.Cut;
    forall i | 0 <= i < |xs| && RowPort(CutRow(NETWORK_PORT, PortRow(xs[i]))) == Some(xs[i])
      ensures CutRow(NETWORK_PORT, PortRow(xs[i])) == PortRow(xs[i])
    {
      TextsKept(NETWORK_PORT, PortRow(xs[i]));
    }
    RecordsBack(NETWORK_PORT, xs, PortRow, RowPort);
  }

  lemma RangeBack(xs: seq<DeviceRange>)
    requires Records(CutTable(DEVICE_RANGE, Rows(xs, RangeRow)), RowRange) == Some(xs)
    ensures CutTable(DEVICE_RANGE, Rows(xs, RangeRow)) == Rows(xs, RangeRow)
  {
    hide Rows, Records, CutTable, Text.Cut;
    forall i | 0 <= i < |xs| && RowRange(CutRow(DEVICE_RANGE, RangeRow(xs[i]))) == Some(xs[i])
      ensures CutRow(DEVICE_RANGE, RangeRow(xs[i])) == RangeRow(xs[i])
    {
      TextsKept(DEVICE_RANGE, RangeRow(xs[i]));
    }
    RecordsBack(DEVICE_RANGE, xs, RangeRow, RowRange);
  }

  lemma FramebufferBack(xs: seq<Framebuffer>)
    requires Records(CutTable(FRAMEBUFFER, Rows(xs, FramebufferRow)), RowFramebuffer) == Some(xs)
    ensures CutTable(FRAMEBUFFER, Rows(xs, FramebufferRow)) == Rows(xs, FramebufferRow)
  {
    hide Rows, Records, CutTable, Text.Cut;
    forall i | 0 <= i < |xs| && RowFramebuffer(CutRow(FRAMEBUFFER, FramebufferRow(xs[i]))) == Some(xs[i])
      ensures CutRow(FRAMEBUFFER, FramebufferRow(xs[i])) == FramebufferRow(xs[i])
    {
      TextsKept(FRAMEBUFFER, FramebufferRow(xs[i]));
    }
    RecordsBack(FRAMEBUFFER, xs, FramebufferRow, RowFramebuffer);
  }

  lemma LineBack(xs: seq<InterruptLine>)
    requires Records(CutTable(INTERRUPT_LINE, Rows(xs, LineRow)), RowLine) == Some(xs)
    ensures CutTable(INTERRUPT_LINE, Rows(xs, LineRow)) == Rows(xs, LineRow)
  {
    hide Rows, Records, CutTable, Text.Cut;
    forall i | 0 <= i < |xs| && RowLine(CutRow(INTERRUPT_LINE, LineRow(xs[i]))) == Some(xs[i])
      ensures CutRow(INTERRUPT_LINE, LineRow(xs[i])) == LineRow(xs[i])
    {
      TextsKept(INTERRUPT_LINE, LineRow(xs[i]));
    }
    RecordsBack(INTERRUPT_LINE, xs, LineRow, RowLine);
  }

  lemma PciBack(xs: seq<PciDevice>)
    requires Records(CutTable(PCI_DEVICE, Rows(xs, PciRow)), RowPci) == Some(xs)
    ensures CutTable(PCI_DEVICE, Rows(xs, PciRow)) == Rows(xs, PciRow)
  {
    hide Rows, Records, CutTable, Text.Cut;
    forall i | 0 <= i < |xs| && RowPci(CutRow(PCI_DEVICE, PciRow(xs[i]))) == Some(xs[i])
      ensures CutRow(PCI_DEVICE, PciRow(xs[i])) == PciRow(xs[i])
    {
      TextsKept(PCI_DEVICE, PciRow(xs[i]));
    }
    RecordsBack(PCI_DEVICE, xs, PciRow, RowPci);
  }

  lemma VirtioBack(xs: seq<VirtioDevice>)
    requires Records(CutTable(VIRTIO_DEVICE, Rows(xs, VirtioRow)), RowVirtio) == Some(xs)
    ensures CutTable(VIRTIO_DEVICE, Rows(xs, VirtioRow)) == Rows(xs, VirtioRow)
  {
    hide Rows, Records, CutTable, Text.Cut;
    forall i | 0 <= i < |xs| && RowVirtio(CutRow(VIRTIO_DEVICE, VirtioRow(xs[i]))) == Some(xs[i])
      ensures CutRow(VIRTIO_DEVICE, VirtioRow(xs[i])) == VirtioRow(xs[i])
    {
      TextsKept(VIRTIO_DEVICE, VirtioRow(xs[i]));
    }
    RecordsBack(VIRTIO_DEVICE, xs, VirtioRow, RowVirtio);
  }

  lemma RootBack(xs: seq<VfsRoot>)
    requires Records(CutTable(VFS_ROOT, Rows(xs, RootRow)), RowRoot) == Some(xs)
    ensures CutTable(VFS_ROOT, Rows(xs, RootRow)) == Rows(xs, RootRow)
  {
    hide Rows, Records, CutTable, Text.Cut;
    forall i | 0 <= i < |xs| && RowRoot(CutRow(VFS_ROOT, RootRow(xs[i]))) == Some(xs[i])
      ensures CutRow(VFS_ROOT, RootRow(xs[i])) == RootRow(xs[i])
    {
      TextsKept(VFS_ROOT, RootRow(xs[i]));
    }
    RecordsBack(VFS_ROOT, xs, RootRow, RowRoot);
  }

  lemma NodeBack(xs: seq<GraphNode>)
    requires Records(CutTable(GRAPH_NODE, Rows(xs, NodeRow)), RowNode) == Some(xs)
    ensures CutTable(GRAPH_NODE, Rows(xs, NodeRow)) == Rows(xs, NodeRow)
  {
    hide Rows, Records, CutTable, Text.Cut;
    forall i | 0 <= i < |xs| && RowNode(CutRow(GRAPH_NODE, NodeRow(xs[i]))) == Some(xs[i])
      ensures CutRow(GRAPH_NODE, NodeRow(xs[i])) == NodeRow(xs[i])
    {
      TextsKept(GRAPH_NODE, NodeRow(xs[i]));
    }
    RecordsBack(GRAPH_NODE, xs, NodeRow, RowNode);
  }

  lemma EdgeBack(xs: seq<GraphEdge>)
    requires Records(CutTable(GRAPH_EDGE, Rows(xs, EdgeRow)), RowEdge) == Some(xs)
    ensures CutTable(GRAPH_EDGE, Rows(xs, EdgeRow)) == Rows(xs, EdgeRow)
  {
    hide Rows, Records, CutTable, Text.Cut;
    forall i | 0 <= i < |xs| && RowEdge(CutRow(GRAPH_EDGE, EdgeRow(xs[i]))) == Some(xs[i])
      ensures CutRow(GRAPH_EDGE, EdgeRow(xs[i])) == EdgeRow(xs[i])
    {
      TextsKept(GRAPH_EDGE, EdgeRow(xs[i]));
    }
    RecordsBack(GRAPH_EDGE, xs, EdgeRow, RowEdge);
  }

  lemma CapabilityBack(xs: seq<PolicyCapability>)
    requires Records(CutTable(POLICY_CAPABILITY, Rows(xs, CapabilityRow)), RowCapability) == Some(xs)
    ensures CutTable(POLICY_CAPABILITY, Rows(xs, CapabilityRow)) == Rows(xs, CapabilityRow)
  {
    hide Rows, Records, CutTable, Text.Cut;
    forall i | 0 <= i < |xs| && RowCapability(CutRow(POLICY_CAPABILITY, CapabilityRow(xs[i]))) == Some(xs[i])
      ensures CutRow(POLICY_CAPABILITY, CapabilityRow(xs[i])) == CapabilityRow(xs[i])
    {
      TextsKept(POLICY_CAPABILITY, CapabilityRow(xs[i]));
    }
    RecordsBack(POLICY_CAPABILITY, xs, CapabilityRow, RowCapability);
  }

  lemma RequirementBack(xs: seq<PolicyRequirement>)
    requires Records(CutTable(POLICY_REQUIREMENT, Rows(xs, RequirementRow)), RowRequirement) == Some(xs)
    ensures CutTable(POLICY_REQUIREMENT, Rows(xs, RequirementRow)) == Rows(xs, RequirementRow)
  {
    hide Rows, Records, CutTable, Text.Cut;
    forall i | 0 <= i < |xs| && RowRequirement(CutRow(POLICY_REQUIREMENT, RequirementRow(xs[i]))) == Some(xs[i])
      ensures CutRow(POLICY_REQUIREMENT, RequirementRow(xs[i])) == RequirementRow(xs[i])
    {
      TextsKept(POLICY_REQUIREMENT, RequirementRow(xs[i]));
    }
    RecordsBack(POLICY_REQUIREMENT, xs, RequirementRow, RowRequirement);
  }

  lemma ProvideBack(xs: seq<PolicyProvide>)
    requires Records(CutTable(POLICY_PROVIDE, Rows(xs, ProvideRow)), RowProvide) == Some(xs)
    ensures CutTable(POLICY_PROVIDE, Rows(xs, ProvideRow)) == Rows(xs, ProvideRow)
  {
    hide Rows, Records, CutTable, Text.Cut;
    forall i | 0 <= i < |xs| && RowProvide(CutRow(POLICY_PROVIDE, ProvideRow(xs[i]))) == Some(xs[i])
      ensures CutRow(POLICY_PROVIDE, ProvideRow(xs[i])) == ProvideRow(xs[i])
    {
      TextsKept(POLICY_PROVIDE, ProvideRow(xs[i]));
    }
    RecordsBack(POLICY_PROVIDE, xs, ProvideRow, RowProvide);
  }

  lemma MountBack(xs: seq<PolicyMount>)
    requires Records(CutTable(POLICY_MOUNT, Rows(xs, MountRow)), RowMount) == Some(xs)
    ensures CutTable(POLICY_MOUNT, Rows(xs, MountRow)) == Rows(xs, MountRow)
  {
    hide Rows, Records, CutTable, Text.Cut;
    forall i | 0 <= i < |xs| && RowMount(CutRow(POLICY_MOUNT, MountRow(xs[i]))) == Some(xs[i])
      ensures CutRow(POLICY_MOUNT, MountRow(xs[i])) == MountRow(xs[i])
    {
      TextsKept(POLICY_MOUNT, MountRow(xs[i]));
    }
    RecordsBack(POLICY_MOUNT, xs, MountRow, RowMount);
  }

  lemma StatePathBack(xs: seq<PolicyStatePath>)
    requires Records(CutTable(POLICY_STATE_PATH, Rows(xs, StatePathRow)), RowStatePath) == Some(xs)
    ensures CutTable(POLICY_STATE_PATH, Rows(xs, StatePathRow)) == Rows(xs, StatePathRow)
  {
    hide Rows, Records, CutTable, Text.Cut;
    forall i | 0 <= i < |xs| && RowStatePath(CutRow(POLICY_STATE_PATH, StatePathRow(xs[i]))) == Some(xs[i])
      ensures CutRow(POLICY_STATE_PATH, StatePathRow(xs[i])) == StatePathRow(xs[i])
    {
      TextsKept(POLICY_STATE_PATH, StatePathRow(xs[i]));
    }
    RecordsBack(POLICY_STATE_PATH, xs, StatePathRow, RowStatePath);
  }

  lemma BootstrapBack(xs: seq<PolicyBootstrap>)
    requires Records(CutTable(POLICY_BOOTSTRAP, Rows(xs, BootstrapRow)), RowBootstrap) == Some(xs)
    ensures CutTable(POLICY_BOOTSTRAP, Rows(xs, BootstrapRow)) == Rows(xs, BootstrapRow)
  {
    hide Rows, Records, CutTable, Text.Cut;
    forall i | 0 <= i < |xs| && RowBootstrap(CutRow(POLICY_BOOTSTRAP, BootstrapRow(xs[i]))) == Some(xs[i])
      ensures CutRow(POLICY_BOOTSTRAP, BootstrapRow(xs[i])) == BootstrapRow(xs[i])
    {
      TextsKept(POLICY_BOOTSTRAP, BootstrapRow(xs[i]));
    }
    RecordsBack(POLICY_BOOTSTRAP, xs, BootstrapRow, RowBootstrap);
  }

  // ----- Namespaces -----

  lemma EntryBack(x: NamespaceEntry)
    ensures RowEntry(CutRow(NAMESPACE_ENTRY, EntryRow(x))) == Some(x) ==>
              CutRow(NAMESPACE_ENTRY, EntryRow(x)) == EntryRow(x)
  {
    if RowEntry(CutRow(NAMESPACE_ENTRY, EntryRow(x))) == Some(x) { TextsKept(NAMESPACE_ENTRY, EntryRow(x)); }
  }

  lemma EntriesBack(xs: seq<NamespaceEntry>)
    requires Records(CutTable(NAMESPACE_ENTRY, Rows(xs, EntryRow)), RowEntry) == Some(xs)
    ensures CutTable(NAMESPACE_ENTRY, Rows(xs, EntryRow)) == Rows(xs, EntryRow)
  {
    hide CutRow, CutTable, Rows, Records, EntryRow, RowEntry;
    forall i | 0 <= i < |xs| {
      EntryBack(xs[i]);
    }
    RecordsBack(NAMESPACE_ENTRY, xs, EntryRow, RowEntry);
  }

  lemma NamespaceReads(x: Namespace, post: seq<Byte>)
    requires NamespaceFits(x)
    ensures var r := DecodeNamespace(EncodeRow(NAMESPACE, NamespaceRow(x))
                                     + EncodeTable(NAMESPACE_ENTRY, Rows(x.entries, EntryRow)) + post);
            (r.Some? ==> r.value.1 == post) && (NamespaceKept(x) <==> r == Some((x, post)))
  {
    var row, rows := NamespaceRow(x), Rows(x.entries, EntryRow);
    var head, body := EncodeRow(NAMESPACE, row), EncodeTable(NAMESPACE_ENTRY, rows);
    assert head + body + post == head + (body + post);
    assert NumAt(row, 1) == |x.entries| == NumAt(CutRow(NAMESPACE, row), 1);
    assert TextAt(CutRow(NAMESPACE, row), 0) == x.id ==> CutRow(NAMESPACE, row) == row by {
      if TextAt(CutRow(NAMESPACE, row), 0) == x.id { TextsKept(NAMESPACE, row); }
    }
    assert TextAt(row, 0) == x.id;
    RecordsOfRows(x.entries, EntryRow, RowEntry);
    hide DecodeRow, DecodeTable, EncodeRow, EncodeTable, Records, CutRow, CutTable, RowClean, TableClean, Rows, NumAt,
         TextAt, NamespaceRow, EntryRow, RowEntry;
    RowReads(NAMESPACE, row, body + post);
    TableReads(NAMESPACE_ENTRY, rows, post);
    if Records(CutTable(NAMESPACE_ENTRY, rows), RowEntry) == Some(x.entries) { EntriesBack(x.entries); }
  }

  lemma NamespacesStep(xs: seq<Namespace>)
    requires xs != []
    ensures NamespacesKept(xs) <==> NamespaceKept(xs[0]) && NamespacesKept(xs[1..])
  {
    hide NamespaceKept;
    if NamespaceKept(xs[0]) && NamespacesKept(xs[1..]) {
      forall i | 0 <= i < |xs|
        ensures NamespaceKept(xs[i])
      {
        if i > 0 { assert NamespaceKept(xs[1..][i - 1]); }
      }
    }
  }

  lemma {:induction false} NamespacesRead(xs: seq<Namespace>, post: seq<Byte>)
    requires NamespacesFit(xs)
    ensures var r := DecodeNamespaces(|xs|, EncodeNamespaces(xs) + post);
            (r.Some? ==> r.value.1 == post) && (NamespacesKept(xs) <==> r == Some((xs, post)))
  {
    hide DecodeNamespace, EncodeRow, EncodeTable, NamespaceKept, NamespacesKept, NamespaceFits, Rows;
    if xs == [] {
      assert EncodeNamespaces(xs) + post == post;
      assert NamespacesKept(xs) by { NoNamespaces(); }
    } else {
      NamespaceParts(xs);
      var head, body, more :=
        EncodeRow(NAMESPACE, NamespaceRow(xs[0])), EncodeTable(NAMESPACE_ENTRY, Rows(xs[0].entries, EntryRow)),
        EncodeNamespaces(xs[1..]);
      assert head + body + more + post == head + body + (more + post);
      NamespaceReads(xs[0], more + post);
      NamespacesRead(xs[1..], post);
      NamespacesStep(xs);
      var first, rest := DecodeNamespace(head + body + (more + post)), DecodeNamespaces(|xs| - 1, more + post);
      assert [xs[0]] + xs[1..] == xs;
      if first.Some? && rest.Some? { SameFirst(first.value.0, rest.value.0, xs[0], xs[1..]); }
    }
  }

  lemma NoNamespaces()
    ensures NamespacesKept([])
  {}

  lemma NamespaceParts(xs: seq<Namespace>)
    requires NamespacesFit(xs) && xs != []
    ensures RowFits(NAMESPACE, NamespaceRow(xs[0]))
    ensures TableFits(NAMESPACE_ENTRY, Rows(xs[0].entries, EntryRow))
  {
    assert NamespaceFits(xs[0]);
  }

  // ----- Processes -----

  /** A cell that cutting may have changed: numbers and empty texts stay as they are. */
  predicate CellCut(a: Value, b: Value) {
    if a.Num? || a == Octets([]) then b == a else b.Octets?
  }

  ghost predicate CutOf(a: Row, b: Row) {
    |a| == |b| && forall i :: 0 <= i < |a| ==> CellCut(a[i], b[i])
  }

  lemma CutCells(kinds: seq<Kind>, row: Row)
    ensures CutOf(row, CutRow(kinds, row))
  {}

  lemma CutSlice(a: Row, b: Row, lo: nat, hi: nat)
    requires CutOf(a, b) && lo <= hi <= |a|
    ensures hi <= |b| && CutOf(a[lo..hi], b[lo..hi])
  {
    hide CellCut;
  }

  /** The mounts a list gives back. */
  lemma MountsBack(r: Row, mounts: seq<ProcessMount>)
    requires |r| == 17 && ReadMounts(r) == Some(mounts)
    ensures |mounts| == NumAt(r, 0) <= MAX_PROCESS_MOUNTS && MountsOk(mounts)
    ensures forall k: nat :: k < |mounts| ==> mounts[k] == ReadMount(r, 1 + 4 * k)
  {
    hide TextAt, NumAt;
  }

  lemma MountCell(mounts: seq<ProcessMount>, a: Row, b: Row, k: nat)
    requires |a| == 17 && k < 4 && a[1 + 4 * k..5 + 4 * k] == MountAt(mounts, k) && CutOf(a, b)
    requires k < |mounts| ==> mounts[k] == ReadMount(b, 1 + 4 * k)
    ensures b[1 + 4 * k..5 + 4 * k] == a[1 + 4 * k..5 + 4 * k]
  {
    var at := 1 + 4 * k;
    assert a[at] == a[at..at + 4][0] && a[at + 1] == a[at..at + 4][1];
    assert a[at + 2] == a[at..at + 4][2] && a[at + 3] == a[at..at + 4][3];
  }

  lemma FirstCell(mounts: seq<ProcessMount>, b: Row)
    requires CutOf(MountList(mounts), b)
    ensures b != [] && MountList(mounts) != [] && b[0] == MountList(mounts)[0]
  {
    hide MountAt;
    assert MountList(mounts)[0] == N(|mounts|);
  }

  lemma FiveParts(a: Row, b: Row)
    requires |a| == |b| == 17 && a[0] == b[0] && a[1..5] == b[1..5] && a[5..9] == b[5..9]
    requires a[9..13] == b[9..13] && a[13..17] == b[13..17]
    ensures a == b
  {
    assert a == [a[0]] + a[1..5] + a[5..9] + a[9..13] + a[13..17];
    assert b == [b[0]] + b[1..5] + b[5..9] + b[9..13] + b[13..17];
  }

  lemma MountCells(mounts: seq<ProcessMount>, b: Row)
    requires CutOf(MountList(mounts), b) && |b| == 17 && ReadMounts(b) == Some(mounts)
    ensures b == MountList(mounts) && |mounts| <= MAX_PROCESS_MOUNTS && MountsOk(mounts)
  {
    hide MountList, MountAt, ReadMounts, ReadMount, CutOf, NumAt, MountsOk;
    var a := MountList(mounts);
    MountParts(mounts);
    FirstCell(mounts, b);
    MountsBack(b, mounts);
    MountCell(mounts, a, b, 0);
    MountCell(mounts, a, b, 1);
    MountCell(mounts, a, b, 2);
    MountCell(mounts, a, b, 3);
    FiveParts(a, b);
  }

  lemma BaseCells(x: Process, b: Row)
    requires CutOf(BaseRow(x), b)
    requires TextAt(b, 0) == x.name && TextAt(b, 1) == x.moduleString && TextAt(b, 4) == x.serviceId
    requires TextAt(b, 5) == x.healthKind && TextAt(b, 6) == x.mountRoot
    ensures b == BaseRow(x)
  {}

  lemma RefCells(refs: seq<nat>, b: Row)
    requires CutOf(RefList(refs), b) && ReadRefs(b).Some?
    ensures b == RefList(refs) && |refs| <= MAX_PROCESS_REFS
  {}

  lemma RequirementCells(refs: seq<EndpointRequirement>, b: Row)
    requires CutOf(RequirementList(refs), b) && ReadRequirements(b).Some?
    ensures b == RequirementList(refs) && |refs| <= MAX_PROCESS_REFS
  {
    var a := RequirementList(refs);
    assert |a| == 11 && a[0] == N(|refs|);
    forall j | 0 <= j < 11
      ensures a[j].Num? && b[j] == a[j]
    {
    }
  }

  /** The parts of a process row. */
  lemma ProcessSlices(a: Row, b: Row)
    requires |a| == |b| == 47 && a[..7] == b[..7] && a[7..24] == b[7..24] && a[24..30] == b[24..30]
    requires a[30..41] == b[30..41] && a[41..47] == b[41..47]
    ensures a == b
  {
    assert a == a[..7] + a[7..24] + a[24..30] + a[30..41] + a[41..47];
    assert b == b[..7] + b[7..24] + b[24..30] + b[30..41] + b[41..47];
  }

  lemma BasePart(x: Process)
    ensures ProcessRow(x)[0..7] == BaseRow(x)
  {
    hide BaseRow, MountList, RefList, RequirementList;
    assert |BaseRow(x)| == 7 by { ListSizes(x); }
  }

  lemma BaseRead(x: Process, r: Row)
    requires |r| == 47 && RowProcess(r) == Some(x)
    ensures var b := r[0..7];
            && TextAt(b, 0) == x.name && TextAt(b, 1) == x.moduleString && TextAt(b, 4) == x.serviceId
            && TextAt(b, 5) == x.healthKind && TextAt(b, 6) == x.mountRoot
    ensures ReadMounts(r[7..24]) == Some(x.mounts) && ReadRefs(r[24..30]).Some?
    ensures ReadRequirements(r[30..41]).Some? && ReadRefs(r[41..47]).Some?
  {
    hide ReadMounts, ReadRefs, ReadRequirements;
  }

  lemma ProcessKept(x: Process)
    requires RowProcess(CutRow(PROCESS, ProcessRow(x))) == Some(x)
    ensures CutRow(PROCESS, ProcessRow(x)) == ProcessRow(x) && ProcessOk(x)
  {
    hide CutRow, ProcessRow, BaseRow, MountList, RefList, RequirementList, CutOf, ReadMounts, ReadRefs,
         ReadRequirements, TextAt, RowProcess, MountsOk;
    var row, cut := ProcessRow(x), CutRow(PROCESS, ProcessRow(x));
    CutCells(PROCESS, row);
    ProcessParts(x);
    BasePart(x);
    ListSizes(x);
    BaseRead(x, cut);
    CutSlice(row, cut, 0, 7);
    CutSlice(row, cut, 7, 24);
    CutSlice(row, cut, 24, 30);
    CutSlice(row, cut, 30, 41);
    CutSlice(row, cut, 41, 47);
    BaseCells(x, cut[0..7]);
    MountCells(x.mounts, cut[7..24]);
    RefCells(x.startAfter, cut[24..30]);
    RequirementCells(x.requiresEndpoint, cut[30..41]);
    RefCells(x.providesEndpoint, cut[41..47]);
    assert row[..7] == row[0..7] && cut[..7] == cut[0..7];
    ProcessSlices(row, cut);
  }

  lemma ListSizes(x: Process)
    ensures |BaseRow(x)| == 7 && |MountList(x.mounts)| == 17 && |RefList(x.startAfter)| == 6
    ensures |RequirementList(x.requiresEndpoint)| == 11 && |RefList(x.providesEndpoint)| == 6
  {}

  lemma ProcessBack(xs: seq<Process>)
    requires Records(CutTable(PROCESS, Rows(xs, ProcessRow)), RowProcess) == Some(xs)
    ensures CutTable(PROCESS, Rows(xs, ProcessRow)) == Rows(xs, ProcessRow)
    ensures forall i :: 0 <= i < |xs| ==> ProcessOk(xs[i])
  {
    hide Rows, Records, CutTable, CutRow, ProcessRow, RowProcess, ProcessOk;
    forall i | 0 <= i < |xs| && RowProcess(CutRow(PROCESS, ProcessRow(xs[i]))) == Some(xs[i])
      ensures CutRow(PROCESS, ProcessRow(xs[i])) == ProcessRow(xs[i]) && ProcessOk(xs[i])
    {
      ProcessKept(xs[i]);
    }
    RecordsBack(PROCESS, xs, ProcessRow, RowProcess);
  }

  // ----- Sections -----

  lemma NumbersKept(kinds: seq<Kind>, row: Row)
    ensures forall i: nat :: NumAt(CutRow(kinds, row), i) == NumAt(row, i)
  {
    CutCells(kinds, row);
    hide CutRow;
  }

  /** Policy records that are read are those written, cut; their head is as it was, or the digest would differ. */
  lemma PolicyReads(p: Payload, digest: seq<Byte> -> Str)
    requires PayloadFits(p, digest)
    ensures var policy := EncodeTables(PolicyTables(p));
            var row := PolicyHeadRow(p, digest(policy));
            var r := ReadPolicy(EncodeRow(POLICY_HEAD, row) + policy, digest);
            && (r.Some? ==> PolicyHeadOk(row) && r.value == (row, CutTables(PolicyTables(p))))
            && (r == Some((row, RowsOf(PolicyTables(p)))) <==>
                PolicyHeadOk(row) && RowClean(POLICY_HEAD, row) && TablesClean(PolicyTables(p)))
  {
    hide EncodeTables, EncodeRow, DecodeRow, DecodeTables, PolicyTables, PolicyHeadOk, PolicyShape, CutRow, CutTables,
         TablesFit, NamespacesFit, RowFits, GraphTables, FirstTables, RootTable, HeadRow, Checksum, RowClean,
         TablesClean, PolicyHeadRow, RowsOf;
    var policy := EncodeTables(PolicyTables(p));
    var row := PolicyHeadRow(p, digest(policy));
    LaterShapes(p, 0, digest(policy));
    RowReads(POLICY_HEAD, row, policy);
    TablesRead(PolicyTables(p), []);
    assert policy + [] == policy && Consumed(policy, []) == policy;
    PolicyHeadKept(p, digest(policy));
  }

  lemma PolicyHeadKept(p: Payload, hash: Str)
    ensures var row := PolicyHeadRow(p, hash);
            var cut := CutRow(POLICY_HEAD, row);
            && TextAt(row, 7) == hash && (PolicyHeadOk(cut) <==> PolicyHeadOk(row))
            && PolicyShape(cut) == PolicyShape(row) && (TextAt(cut, 7) == hash ==> cut == row)
  {
    var row := PolicyHeadRow(p, hash);
    NumbersKept(POLICY_HEAD, row);
    if TextAt(CutRow(POLICY_HEAD, row), 7) == hash { TextsKept(POLICY_HEAD, row); }
  }

  lemma GraphReads(p: Payload, digest: seq<Byte> -> Str, head: Row, post: seq<Byte>)
    requires PayloadFits(p, digest)
    requires GraphShape(head) == ShapeOf(GraphTables(p)) && NumAt(head, 22) == Checksum(EncodeTables(GraphTables(p)))
    ensures var r := ReadGraph(head, EncodeTables(GraphTables(p)) + post);
            && (r.Some? ==> r.value == (CutTables(GraphTables(p)), post))
            && (r == Some((RowsOf(GraphTables(p)), post)) <==> TablesClean(GraphTables(p)))
  {
    hide EncodeTables, DecodeTables, GraphTables, HeadRow, GraphShape, Checksum, TablesFit, NamespacesFit, RowFits,
         FirstTables, RootTable, PolicyTables, CutTables, RowsOf, TablesClean, NumAt;
    var graph := EncodeTables(GraphTables(p));
    TablesRead(GraphTables(p), post);
    assert Consumed(graph + post, post) == graph;
  }

  /** The head as it is read. */
  lemma HeadKept(p: Payload, checksum: nat)
    ensures var row := HeadRow(p, checksum);
            var cut := CutRow(HEAD, row);
            && (HeadOk(cut) <==> HeadOk(row)) && FirstShape(cut) == ShapeOf(FirstTables(p))
            && RootShape(cut) == ShapeOf(RootTable(p)) && GraphShape(cut) == ShapeOf(GraphTables(p))
            && NumAt(cut, 16) == |p.namespaces| && NumAt(cut, 22) == checksum
            && (TextAt(cut, 18) == p.generation && TextAt(cut, 19) == p.parent ==> cut == row)
  {
    var row := HeadRow(p, checksum);
    NumbersKept(HEAD, row);
    HeadCells(p, checksum);
    Shapes(p, checksum);
    LaterShapes(p, checksum, []);
    MagicKept(p, checksum);
    HeadTexts(p, checksum);
    SameHead(CutRow(HEAD, row), row);
    hide CutRow, HeadRow, HeadOk, FirstTables, RootTable, GraphTables, TextAt, NumAt;
  }

  lemma SameHead(a: Row, b: Row)
    requires TextAt(a, 0) == TextAt(b, 0) && forall i: nat :: NumAt(a, i) == NumAt(b, i)
    ensures HeadOk(a) <==> HeadOk(b)
  {
    hide TextAt, NumAt;
  }

  lemma MagicKept(p: Payload, checksum: nat)
    ensures TextAt(CutRow(HEAD, HeadRow(p, checksum)), 0) == TextAt(HeadRow(p, checksum), 0)
  {
    assert HEAD[0] == Raw(16);
  }

  lemma HeadTexts(p: Payload, checksum: nat)
    ensures var row := HeadRow(p, checksum);
            var cut := CutRow(HEAD, row);
            TextAt(cut, 18) == p.generation && TextAt(cut, 19) == p.parent ==> cut == row
  {
    var row := HeadRow(p, checksum);
    var cut := CutRow(HEAD, row);
    assert HEAD[0] == Raw(16);
    CutCells(HEAD, row);
    if TextAt(cut, 18) == p.generation && TextAt(cut, 19) == p.parent {
      assert forall i :: 0 <= i < 23 && row[i].Octets? ==> i == 0 || i == 18 || i == 19;
      TextsKept(HEAD, row);
    }
  }

  // ----- The whole payload -----

  ghost predicate SectionsCut(p: Payload, digest: seq<Byte> -> Str, s: Sections)
    requires PayloadFits(p, digest)
  {
    && s.head == CutRow(HEAD, HeadRow(p, Checksum(EncodeTables(GraphTables(p)))))
    && s.first == CutTables(FirstTables(p)) && s.roots == CutTables(RootTable(p))
    && s.graph == CutTables(GraphTables(p)) && s.policy == CutTables(PolicyTables(p))
    && s.policyHead == PolicyHeadRow(p, digest(EncodeTables(PolicyTables(p))))
  }

  lemma HeadClean(p: Payload, checksum: nat)
    ensures RowClean(HEAD, HeadRow(p, 0)) <==> RowClean(HEAD, HeadRow(p, checksum))
  {
    var a, b := HeadRow(p, 0), HeadRow(p, checksum);
    assert |a| == |b| == |HEAD| == 23 && HEAD[22] == Number(4);
    assert forall i :: 0 <= i < 22 ==> a[i] == b[i];
    hide HeadRow;
    assert Clean(HEAD[22], a[22]) && Clean(HEAD[22], b[22]);
    hide Clean;
  }

  /** A payload that is read is the payload written, cut; and one that is read unchanged was clean. */
  lemma SectionsRead(p: Payload, digest: seq<Byte> -> Str)
    requires PayloadFits(p, digest)
    ensures var r := ReadSections(Body(p, digest), digest);
            && (r.Some? ==> CountsWithin(p) && SectionsCut(p, digest, r.value))
            && (r == Some(SectionsOf(p, digest)) <==> CountsWithin(p) && PayloadClean(p, digest))
  {
    hide EncodeTables, EncodeRow, EncodeNamespaces, DecodeRow, DecodeTables, DecodeNamespaces, ReadGraph, ReadPolicy,
         HeadRow, HeadOk, PolicyHeadOk, FirstShape, RootShape, GraphShape, FirstTables, RootTable, GraphTables,
         PolicyTables, PolicyHeadRow, Checksum, TablesFit, NamespacesFit, RowFits, CutRow, CutTables, RowsOf, RowClean,
         TablesClean, NamespacesKept, NumAt, TextAt;
    var graph, policy := EncodeTables(GraphTables(p)), EncodeTables(PolicyTables(p));
    var head := HeadRow(p, Checksum(graph));
    var e := EncodeRow(POLICY_HEAD, PolicyHeadRow(p, digest(policy))) + policy;
    var d := graph + e;
    var c := EncodeTables(RootTable(p)) + d;
    var b := EncodeNamespaces(p.namespaces) + c;
    var a := EncodeTables(FirstTables(p)) + b;
    LimitsHold(p, Checksum(graph), digest(policy));
    HeadClean(p, Checksum(graph));
    HeadKept(p, Checksum(graph));
    RowReads(HEAD, head, a);
    TablesRead(FirstTables(p), b);
    NamespacesRead(p.namespaces, c);
    TablesRead(RootTable(p), d);
    GraphReads(p, digest, CutRow(HEAD, head), e);
    PolicyReads(p, digest);
  }

  lemma FirstRecords(p: Payload)
    requires WithinLimits(p)
    ensures Records(Rows(p.modules, ModuleRow), RowModule) == Some(p.modules)
    ensures Records(Rows(p.endpoints, EndpointRow), RowEndpoint) == Some(p.endpoints)
    ensures Records(Rows(p.grants, GrantRow), RowGrant) == Some(p.grants)
  {
    hide CountsWithin, ProcessOk;
    RecordsOfRows(p.modules, ModuleRow, RowModule);
    RecordsOfRows(p.endpoints, EndpointRow, RowEndpoint);
    RecordsOfRows(p.grants, GrantRow, RowGrant);
  }

  lemma ObjectRecords(p: Payload)
    ensures Records(Rows(p.stores, StoreRow), RowStore) == Some(p.stores)
    ensures Records(Rows(p.states, StateRow), RowState) == Some(p.states)
    ensures Records(Rows(p.ports, PortRow), RowPort) == Some(p.ports)
  {
    RecordsOfRows(p.stores, StoreRow, RowStore);
    RecordsOfRows(p.states, StateRow, RowState);
    RecordsOfRows(p.ports, PortRow, RowPort);
  }

  lemma ProcessRecords(p: Payload)
    requires WithinLimits(p)
    ensures Records(Rows(p.processes, ProcessRow), RowProcess) == Some(p.processes)
  {
    hide CountsWithin, ProcessRow, RowProcess, ProcessOk;
    forall i | 0 <= i < |p.processes|
      ensures RowProcess(ProcessRow(p.processes[i])) == Some(p.processes[i])
    {
      ProcessRoundTrip(p.processes[i]);
    }
    RecordsOfRows(p.processes, ProcessRow, RowProcess);
  }

  lemma DeviceRecords(p: Payload)
    ensures Records(Rows(p.ioPorts, RangeRow), RowRange) == Some(p.ioPorts)
    ensures Records(Rows(p.mmioRegions, RangeRow), RowRange) == Some(p.mmioRegions)
    ensures Records(Rows(p.framebuffers, FramebufferRow), RowFramebuffer) == Some(p.framebuffers)
  {
    RecordsOfRows(p.ioPorts, RangeRow, RowRange);
    RecordsOfRows(p.mmioRegions, RangeRow, RowRange);
    RecordsOfRows(p.framebuffers, FramebufferRow, RowFramebuffer);
  }

  lemma BusRecords(p: Payload)
    ensures Records(Rows(p.lines, LineRow), RowLine) == Some(p.lines)
    ensures Records(Rows(p.dmaRegions, RangeRow), RowRange) == Some(p.dmaRegions)
    ensures Records(Rows(p.pciDevices, PciRow), RowPci) == Some(p.pciDevices)
    ensures Records(Rows(p.virtioDevices, VirtioRow), RowVirtio) == Some(p.virtioDevices)
  {
    RecordsOfRows(p.lines, LineRow, RowLine);
    RecordsOfRows(p.dmaRegions, RangeRow, RowRange);
    RecordsOfRows(p.pciDevices, PciRow, RowPci);
    RecordsOfRows(p.virtioDevices, VirtioRow, RowVirtio);
  }

  lemma GraphRecords(p: Payload)
    ensures Records(Rows(p.roots, RootRow), RowRoot) == Some(p.roots)
    ensures Records(Rows(p.nodes, NodeRow), RowNode) == Some(p.nodes)
    ensures Records(Rows(p.edges, EdgeRow), RowEdge) == Some(p.edges)
  {
    RecordsOfRows(p.roots, RootRow, RowRoot);
    RecordsOfRows(p.nodes, NodeRow, RowNode);
    RecordsOfRows(p.edges, EdgeRow, RowEdge);
  }

  lemma PolicyRecords(p: Payload)
    ensures Records(Rows(p.capabilities, CapabilityRow), RowCapability) == Some(p.capabilities)
    ensures Records(Rows(p.requirements, RequirementRow), RowRequirement) == Some(p.requirements)
    ensures Records(Rows(p.provisions, ProvideRow), RowProvide) == Some(p.provisions)
  {
    RecordsOfRows(p.capabilities, CapabilityRow, RowCapability);
    RecordsOfRows(p.requirements, RequirementRow, RowRequirement);
    RecordsOfRows(p.provisions, ProvideRow, RowProvide);
  }

  lemma PathRecords(p: Payload)
    ensures Records(Rows(p.mounts, MountRow), RowMount) == Some(p.mounts)
    ensures Records(Rows(p.statePaths, StatePathRow), RowStatePath) == Some(p.statePaths)
    ensures Records(Rows(p.bootstraps, BootstrapRow), RowBootstrap) == Some(p.bootstraps)
  {
    RecordsOfRows(p.mounts, MountRow, RowMount);
    RecordsOfRows(p.statePaths, StatePathRow, RowStatePath);
    RecordsOfRows(p.bootstraps, BootstrapRow, RowBootstrap);
  }

  lemma Assembled(p: Payload, digest: seq<Byte> -> Str)
    requires PayloadFits(p, digest) && WithinLimits(p)
    ensures Assemble(SectionsOf(p, digest)) == Some(p)
  {
    FirstRecords(p);
    ProcessRecords(p);
    ObjectRecords(p);
    DeviceRecords(p);
    BusRecords(p);
    GraphRecords(p);
    PolicyRecords(p);
    PathRecords(p);
    HeadCells(p, Checksum(EncodeTables(GraphTables(p))));
    hide Records, Rows, EncodeTables, HeadRow, PolicyHeadRow, PayloadFits, WithinLimits, Checksum;
  }

  /** Records that come back from cut sections were not cut. */
  lemma FirstBack(p: Payload, first: seq<seq<Row>>)
    requires first == CutTables(FirstTables(p))
    requires Records(first[0], RowModule) == Some(p.modules) && Records(first[1], RowProcess) == Some(p.processes)
    requires Records(first[2], RowEndpoint) == Some(p.endpoints) && Records(first[3], RowGrant) == Some(p.grants)
    requires Records(first[4], RowStore) == Some(p.stores) && Records(first[5], RowState) == Some(p.states)
    requires Records(first[6], RowPort) == Some(p.ports) && Records(first[7], RowRange) == Some(p.ioPorts)
    requires Records(first[8], RowRange) == Some(p.mmioRegions)
    requires Records(first[9], RowFramebuffer) == Some(p.framebuffers)
    requires Records(first[10], RowLine) == Some(p.lines) && Records(first[11], RowRange) == Some(p.dmaRegions)
    requires Records(first[12], RowPci) == Some(p.pciDevices)
    requires Records(first[13], RowVirtio) == Some(p.virtioDevices)
    ensures first == RowsOf(FirstTables(p))
    ensures forall i :: 0 <= i < |p.processes| ==> ProcessOk(p.processes[i])
    ensures forall i :: 0 <= i < |p.grants| ==> p.grants[i].objectKind != OBJECT_STATE
  {
    hide Records, CutTable, Rows, ProcessOk;
    ModuleBack(p.modules);
    ProcessBack(p.processes);
    EndpointBack(p.endpoints);
    GrantBack(p.grants);
    StoreBack(p.stores);
    StateBack(p.states);
    PortBack(p.ports);
    RangeBack(p.ioPorts);
    RangeBack(p.mmioRegions);
    FramebufferBack(p.framebuffers);
    LineBack(p.lines);
    RangeBack(p.dmaRegions);
    PciBack(p.pciDevices);
    VirtioBack(p.virtioDevices);
  }

  lemma LaterBack(p: Payload, roots: seq<seq<Row>>, graph: seq<seq<Row>>, policy: seq<seq<Row>>)
    requires roots == CutTables(RootTable(p)) && graph == CutTables(GraphTables(p))
    requires policy == CutTables(PolicyTables(p)) && Records(roots[0], RowRoot) == Some(p.roots)
    requires Records(graph[0], RowNode) == Some(p.nodes) && Records(graph[1], RowEdge) == Some(p.edges)
    requires Records(policy[0], RowCapability) == Some(p.capabilities)
    requires Records(policy[1], RowRequirement) == Some(p.requirements)
    requires Records(policy[2], RowProvide) == Some(p.provisions) && Records(policy[3], RowMount) == Some(p.mounts)
    requires Records(policy[4], RowStatePath) == Some(p.statePaths)
    requires Records(policy[5], RowBootstrap) == Some(p.bootstraps)
    ensures roots == RowsOf(RootTable(p)) && graph == RowsOf(GraphTables(p)) && policy == RowsOf(PolicyTables(p))
  {
    hide Records, CutTable, Rows;
    RootBack(p.roots);
    NodeBack(p.nodes);
    EdgeBack(p.edges);
    CapabilityBack(p.capabilities);
    RequirementBack(p.requirements);
    ProvideBack(p.provisions);
    MountBack(p.mounts);
    StatePathBack(p.statePaths);
    BootstrapBack(p.bootstraps);
  }

  lemma AssembledBack(p: Payload, digest: seq<Byte> -> Str, s: Sections)
    requires PayloadFits(p, digest) && SectionsCut(p, digest, s) && Assemble(s) == Some(p)
    ensures s == SectionsOf(p, digest)
    ensures forall i :: 0 <= i < |p.processes| ==> ProcessOk(p.processes[i])
    ensures forall i :: 0 <= i < |p.grants| ==> p.grants[i].objectKind != OBJECT_STATE
  {
    hide Records, CutTable, CutTables, CutRow, TablesFit, NamespacesFit, RowFits, FirstTables, RootTable, GraphTables,
         PolicyTables, HeadRow, PolicyHeadRow, EncodeTables, Checksum, RowsOf, ProcessOk, TextAt, NumAt;
    FirstBack(p, s.first);
    LaterBack(p, s.roots, s.graph, s.policy);
    HeadKept(p, Checksum(EncodeTables(GraphTables(p))));
  }

  /** Of a payload that can be written, the kernel reads back, field for field, what the compiler wrote exactly
      when its texts are clean and it is within the kernel's limits. */
  lemma PayloadRoundTrip(p: Payload, digest: seq<Byte> -> Str)
    requires PayloadFits(p, digest)
    ensures ReadBody(Body(p, digest), digest) == Some(p) <==> PayloadClean(p, digest) && WithinLimits(p)
  {
    hide ReadSections, Assemble, Body, PayloadFits, PayloadClean, CountsWithin, SectionsOf, SectionsCut, ProcessOk;
    SectionsRead(p, digest);
    var r := ReadSections(Body(p, digest), digest);
    if PayloadClean(p, digest) && WithinLimits(p) { Assembled(p, digest); }
    if r.Some? && Assemble(r.value) == Some(p) { AssembledBack(p, digest, r.value); }
  }
}
