/** Finding sections of a finished manifest by walking its counts. */
module BootOffsets {
  import opened Buffers
  import opened Bytes
  import opened Results
  import opened Text
  import opened Wire
  import opened BootEnvelope
  import opened BootRecords
  import opened BootPayload
  import opened BootManifest

  const BOOT_MODULE_LEN: nat := STRING_LEN * 2
  const PROCESS_MOUNT_LEN: nat := STRING_LEN * 2 + 4
  const PROCESS_REF_LIST_LEN: nat := 2 + MAX_PROCESS_REFS * 2
  const PROCESS_LEN: nat :=
    STRING_LEN * 5 + 4 + (2 + MAX_PROCESS_MOUNTS * PROCESS_MOUNT_LEN) + PROCESS_REF_LIST_LEN * 2
    + (2 + MAX_PROCESS_REFS * 4)
  const ENDPOINT_LEN: nat := STRING_LEN
  const GRANT_LEN: nat := 12
  const STORE_OBJECT_LEN: nat := STRING_LEN * 3 + 8
  const STATE_VOLUME_LEN: nat := STRING_LEN * 7
  const NETWORK_PORT_LEN: nat := STRING_LEN
  const DEVICE_RANGE_LEN: nat := STRING_LEN + 16
  const FRAMEBUFFER_LEN: nat := STRING_LEN
  const INTERRUPT_LINE_LEN: nat := STRING_LEN + 8
  const PCI_DEVICE_LEN: nat := STRING_LEN * 2
  const VIRTIO_DEVICE_LEN: nat := STRING_LEN * 2
  const NAMESPACE_ENTRY_LEN: nat := STRING_LEN + 8
  const VFS_ROOT_LEN: nat := STRING_LEN * 2
  const GRAPH_NODE_LEN: nat := 4 + STRING_LEN * 2
  const GRAPH_EDGE_LEN: nat := 8 + STRING_LEN

  // ----- Record lengths -----

  /** The size of up to seven fields. */
  lemma Sizes(kinds: seq<Kind>)
    requires 1 <= |kinds| <= 7
    ensures RowSize(kinds) == Size(kinds[0]) + (if |kinds| > 1 then Size(kinds[1]) else 0)
                              + (if |kinds| > 2 then Size(kinds[2]) else 0)
                              + (if |kinds| > 3 then Size(kinds[3]) else 0)
                              + (if |kinds| > 4 then Size(kinds[4]) else 0)
                              + (if |kinds| > 5 then Size(kinds[5]) else 0)
                              + (if |kinds| > 6 then Size(kinds[6]) else 0)
  {
    assert kinds[..|kinds|] == kinds;
    SizeStep(kinds, 0);
    if |kinds| > 1 { SizeStep(kinds, 1); }
    if |kinds| > 2 { SizeStep(kinds, 2); }
    if |kinds| > 3 { SizeStep(kinds, 3); }
    if |kinds| > 4 { SizeStep(kinds, 4); }
    if |kinds| > 5 { SizeStep(kinds, 5); }
    if |kinds| > 6 { SizeStep(kinds, 6); }
  }

  lemma ProcessLength()
    ensures RowSize(PROCESS) == PROCESS_LEN
  {
    hide RowSize;
    Sizes(MOUNT_KINDS);
    Sizes(REF_KINDS);
    Sizes([U16]);
    var base := [Name, Name, U16, U16, Name, Label, Name];
    Sizes(base);
    var one := [U16] + MOUNT_KINDS;
    var two := one + MOUNT_KINDS;
    var three := two + MOUNT_KINDS;
    var mounts := three + MOUNT_KINDS;
    SizeSplit([U16], MOUNT_KINDS);
    SizeSplit(one, MOUNT_KINDS);
    SizeSplit(two, MOUNT_KINDS);
    SizeSplit(three, MOUNT_KINDS);
    var refs := [U16] + REF_KINDS;
    SizeSplit([U16], REF_KINDS);
    SizeSplit(refs, REF_KINDS);
    SizeSplit(base, mounts);
    SizeSplit(base + mounts, refs);
    SizeSplit(base + mounts + refs, refs + REF_KINDS);
    SizeSplit(base + mounts + refs + (refs + REF_KINDS), refs);
  }

  /** The compiler's record lengths are the sizes of the records it writes. */
  lemma RecordLengths()
    ensures RowSize(BOOT_MODULE) == BOOT_MODULE_LEN && RowSize(ENDPOINT) == ENDPOINT_LEN && RowSize(GRANT) == GRANT_LEN
    ensures RowSize(STORE_OBJECT) == STORE_OBJECT_LEN && RowSize(STATE_VOLUME) == STATE_VOLUME_LEN
    ensures RowSize(NETWORK_PORT) == NETWORK_PORT_LEN && RowSize(DEVICE_RANGE) == DEVICE_RANGE_LEN
    ensures RowSize(FRAMEBUFFER) == FRAMEBUFFER_LEN && RowSize(INTERRUPT_LINE) == INTERRUPT_LINE_LEN
    ensures RowSize(PCI_DEVICE) == PCI_DEVICE_LEN && RowSize(VIRTIO_DEVICE) == VIRTIO_DEVICE_LEN
            && RowSize(VFS_ROOT) == VFS_ROOT_LEN
    ensures RowSize(GRAPH_NODE) == GRAPH_NODE_LEN && RowSize(GRAPH_EDGE) == GRAPH_EDGE_LEN
  {
    hide RowSize;
    Sizes(BOOT_MODULE);
    Sizes(ENDPOINT);
    Sizes(GRANT);
    Sizes(STORE_OBJECT);
    Sizes(STATE_VOLUME);
    Sizes(NETWORK_PORT);
    Sizes(DEVICE_RANGE);
    Sizes(FRAMEBUFFER);
    Sizes(INTERRUPT_LINE);
    Sizes(PCI_DEVICE);
    Sizes(VIRTIO_DEVICE);
    Sizes(VFS_ROOT);
    Sizes(GRAPH_NODE);
    Sizes(GRAPH_EDGE);
  }

  // ----- Walking -----

  const FIRST_RECORD: nat := V1_PAYLOAD_OFFSET + COMPACT_HEADER_SIZE

  /** Count `i` of the payload's header. */
  function Count(bytes: seq<Byte>, i: nat): nat
    requires |bytes| >= FIRST_RECORD && i < 16
  {
    Field(bytes, V1_PAYLOAD_OFFSET + 18 + 2 * i, 2)
  }

  function Advance(offset: nat, count: nat, length: nat): nat {
    offset + count * length
  }

  /** Where the first `k` sections of fixed-size records end. */
  function SectionEnd(bytes: seq<Byte>, k: nat): nat
    requires |bytes| >= FIRST_RECORD && k <= 14
  {
    if k == 0 then FIRST_RECORD else Advance(SectionEnd(bytes, k - 1), Count(bytes, k - 1), LENGTHS[k - 1])
  }

  const LENGTHS: seq<nat> :=
    [BOOT_MODULE_LEN, PROCESS_LEN, ENDPOINT_LEN, GRANT_LEN, STORE_OBJECT_LEN, STATE_VOLUME_LEN, NETWORK_PORT_LEN,
     DEVICE_RANGE_LEN,
     DEVICE_RANGE_LEN, FRAMEBUFFER_LEN, INTERRUPT_LINE_LEN, DEVICE_RANGE_LEN, PCI_DEVICE_LEN, VIRTIO_DEVICE_LEN]

  function SkipNamespaces(bytes: seq<Byte>, n: nat, offset: nat): Option<nat> {
    if n == 0 then Some(offset)
    else if offset + STRING_LEN + 2 > |bytes| then None
    else SkipNamespaces(bytes, n - 1,
                        Advance(offset + STRING_LEN + 2, Field(bytes, offset + STRING_LEN, 2), NAMESPACE_ENTRY_LEN))
  }

  /** Where the VFS roots start and how many there are. */
  function RootsTable(bytes: seq<Byte>): Option<(nat, nat)> {
    if |bytes| < FIRST_RECORD then None
    else
      var offset := SkipNamespaces(bytes, Count(bytes, 14), SectionEnd(bytes, 14));
      if offset.None? then None else Some((offset.value, Count(bytes, 15)))
  }

  method CompactVfsRootsTable(bytes: seq<Byte>) returns (r: Option<(nat, nat)>)
    ensures r == RootsTable(bytes)
  {
    hide Count, Advance;
    if |bytes| < FIRST_RECORD {
      return None;
    }
    var offset: nat, k := FIRST_RECORD, 0;
    while k < 14
      invariant k <= 14 && offset == SectionEnd(bytes, k)
    {
      offset := Advance(offset, Count(bytes, k), LENGTHS[k]);
      k := k + 1;
    }
    var namespaces, index := Count(bytes, 14), 0;
    while index < namespaces
      invariant index <= namespaces
      invariant SkipNamespaces(bytes, namespaces, SectionEnd(bytes, 14))
             == SkipNamespaces(bytes, namespaces - index, offset)
    {
      if offset + STRING_LEN + 2 > |bytes| {
        return None;
      }
      offset := Advance(offset + STRING_LEN + 2, Field(bytes, offset + STRING_LEN, 2), NAMESPACE_ENTRY_LEN);
      index := index + 1;
    }
    return Some((offset, Count(bytes, 15)));
  }

  method CompactPolicyHeaderOffset(bytes: seq<Byte>) returns (r: Option<nat>)
    ensures r == PolicyHeader(bytes)
  {
    hide RootsTable, Advance;
    if |bytes| < V1_PAYLOAD_OFFSET + 182 {
      assert RootsTable(bytes).None? by { TooShort(bytes); }
      return None;
    }
    var nodes, edges := Field(bytes, V1_PAYLOAD_OFFSET + 178, 2), Field(bytes, V1_PAYLOAD_OFFSET + 180, 2);
    var roots := CompactVfsRootsTable(bytes);
    if roots.None? {
      return None;
    }
    RootsTableLong(bytes);
    var graph := Advance(roots.value.0, roots.value.1, VFS_ROOT_LEN);
    return Some(Advance(Advance(graph, nodes, GRAPH_NODE_LEN), edges, GRAPH_EDGE_LEN));
  }

  lemma TooShort(bytes: seq<Byte>)
    requires |bytes| < FIRST_RECORD
    ensures RootsTable(bytes).None?
  {}

  lemma RootsTableLong(bytes: seq<Byte>)
    requires RootsTable(bytes).Some?
    ensures |bytes| >= FIRST_RECORD
  {}

  /** Where the policy header starts: behind the VFS roots and the graph. */
  function PolicyHeader(bytes: seq<Byte>): Option<nat> {
    var roots := RootsTable(bytes);
    if roots.None? then None
    else
      RootsTableLong(bytes);
      var nodes, edges := Field(bytes, V1_PAYLOAD_OFFSET + 178, 2), Field(bytes, V1_PAYLOAD_OFFSET + 180, 2);
      Some(Advance(Advance(Advance(roots.value.0, roots.value.1, VFS_ROOT_LEN), nodes, GRAPH_NODE_LEN), edges,
                   GRAPH_EDGE_LEN))
  }

  // ----- The walk lands on the sections -----

  lemma WrapBody(p: Payload, digest: seq<Byte> -> Str)
    requires ManifestFits(p, digest)
    ensures Part(Wrap(p, digest), V1_PAYLOAD_OFFSET, Body(p, digest))
            && |Wrap(p, digest)| == V1_PAYLOAD_OFFSET + |Body(p, digest)|
    ensures |Wrap(p, digest)| >= FIRST_RECORD
  {
    hide Body, PayloadFits, Wrap, Sealing, Hash;
    var checksum := WrapIs(p, digest);
    SealingParts(p, digest, checksum);
    HeadInside(p, digest);
  }

  lemma HeadPart(p: Payload, digest: seq<Byte> -> Str) returns (checksum: nat)
    requires PayloadFits(p, digest)
    ensures RowFits(HEAD, HeadRow(p, checksum)) && Part(Body(p, digest), 0, EncodeRow(HEAD, HeadRow(p, checksum)))
  {
    hide Body, EncodeRow, EncodeTables, EncodeNamespaces, FirstTables, RootTable, GraphTables, PolicyTables, HeadRow,
         PolicyHeadRow, Checksum, Part, TablesFit, NamespacesFit, RowFits;
    Layout(p, digest);
    checksum := Checksum(EncodeTables(GraphTables(p)));
  }

  lemma WrapHead(p: Payload, digest: seq<Byte> -> Str) returns (checksum: nat)
    requires ManifestFits(p, digest)
    ensures RowFits(HEAD, HeadRow(p, checksum))
            && Part(Wrap(p, digest), V1_PAYLOAD_OFFSET, EncodeRow(HEAD, HeadRow(p, checksum)))
  {
    hide Body, Wrap, EncodeRow, HeadRow, Part, RowFits, PayloadFits;
    WrapBody(p, digest);
    checksum := HeadPart(p, digest);
    PartOfPart(Wrap(p, digest), V1_PAYLOAD_OFFSET, Body(p, digest), 0, EncodeRow(HEAD, HeadRow(p, checksum)));
  }

  lemma CountCell(p: Payload, checksum: nat, i: nat)
    requires i < 16
    ensures |HEAD| == 23 && HEAD[i + 2] == U16 && |HeadRow(p, checksum)| == 23
            && HeadRow(p, checksum)[i + 2] == N(NumAt(HeadRow(p, 0), i + 2))
  {}

  /** The counts read from the bytes are the counts of the payload. */
  lemma CountRead(p: Payload, digest: seq<Byte> -> Str, i: nat)
    requires ManifestFits(p, digest) && i < 16
    ensures |Wrap(p, digest)| >= FIRST_RECORD && Count(Wrap(p, digest), i) == NumAt(HeadRow(p, 0), i + 2)
  {
    hide Body, Wrap, EncodeRow, HeadRow, Part, RowFits, PayloadFits, RowSize, Field, NumAt;
    WrapBody(p, digest);
    var checksum := WrapHead(p, digest);
    HeadPlace(i + 2);
    CountCell(p, checksum, i);
    CellPlace(HEAD, HeadRow(p, checksum), i + 2, Wrap(p, digest), V1_PAYLOAD_OFFSET);
  }

  lemma GraphCountsRead(p: Payload, digest: seq<Byte> -> Str)
    requires ManifestFits(p, digest)
    ensures |Wrap(p, digest)| >= FIRST_RECORD
    ensures Field(Wrap(p, digest), V1_PAYLOAD_OFFSET + 178, 2) == |p.nodes|
            && Field(Wrap(p, digest), V1_PAYLOAD_OFFSET + 180, 2) == |p.edges|
  {
    hide Body, Wrap, EncodeRow, Part, RowFits, PayloadFits, RowSize, Field;
    WrapBody(p, digest);
    var checksum := WrapHead(p, digest);
    HeadEnd();
    CellPlace(HEAD, HeadRow(p, checksum), 20, Wrap(p, digest), V1_PAYLOAD_OFFSET);
    CellPlace(HEAD, HeadRow(p, checksum), 21, Wrap(p, digest), V1_PAYLOAD_OFFSET);
  }

  lemma SectionKinds(p: Payload, k: nat)
    requires k < 14
    ensures |LENGTHS| == 14 && LENGTHS[k] == RowSize(FirstTables(p)[k].kinds)
  {
    RecordLengths();
    ProcessLength();
    hide RowSize, Rows;
  }

  lemma SectionRows(p: Payload, k: nat)
    requires k < 14
    ensures NumAt(HeadRow(p, 0), k + 2) == |FirstTables(p)[k].rows|
  {
    hide HeadRow, Rows, FirstTables;
    Shapes(p, 0);
    assert FirstShape(HeadRow(p, 0))[k].1 == NumAt(HeadRow(p, 0), k + 2) by { hide NumAt; }
  }

  lemma {:induction false} SectionsEnd(p: Payload, digest: seq<Byte> -> Str, k: nat)
    requires ManifestFits(p, digest) && k <= 14
    ensures |Wrap(p, digest)| >= FIRST_RECORD && SectionEnd(Wrap(p, digest), k) == V1_PAYLOAD_OFFSET + At(p, k)
  {
    hide Body, Wrap, PayloadFits, Count, HeadRow, FirstTables, RowSize;
    WrapBody(p, digest);
    if k > 0 {
      SectionsEnd(p, digest, k - 1);
      CountRead(p, digest, k - 1);
      SectionKinds(p, k - 1);
      SectionRows(p, k - 1);
      AtStep(p, k - 1);
      hide At;
    }
  }

  lemma {:induction false} NamespacesSkipped(bytes: seq<Byte>, xs: seq<Namespace>, offset: nat)
    requires NamespacesFit(xs) && Part(bytes, offset, EncodeNamespaces(xs))
    ensures SkipNamespaces(bytes, |xs|, offset) == Some(offset + NamespacesLen(xs))
    decreases |xs|
  {
    hide EncodeRow, EncodeTable, Part, Field, Rows;
    if xs != [] {
      var head, body := EncodeRow(NAMESPACE, NamespaceRow(xs[0])),
                        EncodeTable(NAMESPACE_ENTRY, Rows(xs[0].entries, EntryRow));
      var more := EncodeNamespaces(xs[1..]);
      NamespaceParts(xs);
      NamespaceRead(bytes, xs[0], head, body, more, offset);
      hide EncodeNamespaces, NamespaceFits;
      NamespacesSkipped(bytes, xs[1..], offset + |head| + |body|);
    }
  }

  lemma NamespaceParts(xs: seq<Namespace>)
    requires NamespacesFit(xs) && xs != []
    ensures NamespaceFits(xs[0]) && NamespacesFit(xs[1..])
    ensures EncodeNamespaces(xs) == EncodeRow(NAMESPACE, NamespaceRow(xs[0]))
                                    + EncodeTable(NAMESPACE_ENTRY, Rows(xs[0].entries, EntryRow))
                                    + EncodeNamespaces(xs[1..])
  {
    hide EncodeRow, EncodeTable, Rows;
  }

  lemma NamespaceRead(bytes: seq<Byte>, x: Namespace, head: seq<Byte>, body: seq<Byte>, more: seq<Byte>, offset: nat)
    requires NamespaceFits(x) && head == EncodeRow(NAMESPACE, NamespaceRow(x))
             && body == EncodeTable(NAMESPACE_ENTRY, Rows(x.entries, EntryRow))
    requires Part(bytes, offset, head + body + more)
    ensures |head| == STRING_LEN + 2 && |body| == |x.entries| * (STRING_LEN + 8)
    ensures offset + |head| + |body| <= |bytes| && Field(bytes, offset + STRING_LEN, 2) == |x.entries|
    ensures Part(bytes, offset + |head| + |body|, more)
  {
    hide EncodeRow, EncodeTable, Part, Field, RowSize, RowFits, TableFits, Rows;
    NamespaceRowSizes();
    TableSize(NAMESPACE_ENTRY, Rows(x.entries, EntryRow));
    PartsOf(bytes, offset, head + body, more);
    PartsOf(bytes, offset, head, body);
    CellPlace(NAMESPACE, NamespaceRow(x), 1, bytes, offset);
    PartEnds(bytes, offset + |head|, body);
  }

  lemma PartEnds(s: seq<Byte>, at: nat, t: seq<Byte>)
    requires Part(s, at, t)
    ensures at + |t| <= |s|
  {}

  lemma LaterParts(p: Payload, digest: seq<Byte> -> Str)
    requires PayloadFits(p, digest)
    ensures NamespacesFit(p.namespaces) && Part(Body(p, digest), At(p, 14), EncodeNamespaces(p.namespaces))
    ensures TablesFit(RootTable(p))
            && Part(Body(p, digest), At(p, 14) + NamespacesLen(p.namespaces), EncodeTables(RootTable(p)))
  {
    hide Body, EncodeRow, EncodeTables, EncodeNamespaces, FirstTables, RootTable, GraphTables, PolicyTables, HeadRow,
         PolicyHeadRow, Checksum, Part, TablesFit, NamespacesFit, RowFits, At;
    Layout(p, digest);
    FirstEnd(p, digest);
    NamespacesSize(p.namespaces);
  }

  /** The walk finds the VFS roots of every manifest the compiler writes. */
  lemma RootsFound(p: Payload, digest: seq<Byte> -> Str)
    requires ManifestFits(p, digest)
    ensures RootsTable(Wrap(p, digest))
         == Some((V1_PAYLOAD_OFFSET + At(p, 14) + NamespacesLen(p.namespaces), |p.roots|))
    ensures Part(Wrap(p, digest), V1_PAYLOAD_OFFSET + At(p, 14) + NamespacesLen(p.namespaces),
                 EncodeTables(RootTable(p)))
  {
    hide TablesFit, Body, Wrap, PayloadFits, EncodeTables, EncodeNamespaces, RootTable, Part, NamespacesFit, At, Count,
         SectionEnd, SkipNamespaces, HeadRow;
    WrapBody(p, digest);
    LaterParts(p, digest);
    SectionsEnd(p, digest, 14);
    CountRead(p, digest, 14);
    CountRead(p, digest, 15);
    HeadCells(p, 0);
    var w := Wrap(p, digest);
    PartOfPart(w, V1_PAYLOAD_OFFSET, Body(p, digest), At(p, 14), EncodeNamespaces(p.namespaces));
    NamespacesSkipped(w, p.namespaces, V1_PAYLOAD_OFFSET + At(p, 14));
    PartOfPart(w, V1_PAYLOAD_OFFSET, Body(p, digest), At(p, 14) + NamespacesLen(p.namespaces),
               EncodeTables(RootTable(p)));
  }

  lemma GraphSize(p: Payload)
    requires TablesFit(GraphTables(p))
    ensures |EncodeTables(GraphTables(p))| == |p.nodes| * GRAPH_NODE_LEN + |p.edges| * GRAPH_EDGE_LEN
  {
    RecordLengths();
    TablesSize(GraphTables(p));
    var shape := ShapeOf(GraphTables(p));
    assert shape == [(GRAPH_NODE, |p.nodes|), (GRAPH_EDGE, |p.edges|)];
    hide RowSize, EncodeTables, Rows, TablesFit;
    ShapeStep(shape, 0);
    ShapeStep(shape, 1);
    assert shape[..2] == shape;
  }

  function FactsAt(p: Payload): nat {
    At(p, 14) + NamespacesLen(p.namespaces) + |p.roots| * VFS_ROOT_LEN + |p.nodes| * GRAPH_NODE_LEN
    + |p.edges| * GRAPH_EDGE_LEN
  }

  lemma FactsPart(p: Payload, digest: seq<Byte> -> Str) returns (hash: Str)
    requires PayloadFits(p, digest)
    ensures RowFits(POLICY_HEAD, PolicyHeadRow(p, hash))
    ensures Part(Body(p, digest), FactsAt(p), EncodeRow(POLICY_HEAD, PolicyHeadRow(p, hash)))
  {
    hide Body, EncodeRow, EncodeTables, EncodeNamespaces, FirstTables, RootTable, GraphTables, PolicyTables, HeadRow,
         PolicyHeadRow, Checksum, Part, TablesFit, NamespacesFit, RowFits, At;
    Layout(p, digest);
    FirstEnd(p, digest);
    NamespacesSize(p.namespaces);
    RootSize(p, digest);
    GraphSize(p);
    hash := digest(EncodeTables(PolicyTables(p)));
  }

  /** The walk finds the policy header of every manifest the compiler writes. */
  lemma PolicyFound(p: Payload, digest: seq<Byte> -> Str) returns (hash: Str)
    requires ManifestFits(p, digest)
    ensures PolicyHeader(Wrap(p, digest)) == Some(V1_PAYLOAD_OFFSET + FactsAt(p))
    ensures RowFits(POLICY_HEAD, PolicyHeadRow(p, hash))
    ensures Part(Wrap(p, digest), V1_PAYLOAD_OFFSET + FactsAt(p), EncodeRow(POLICY_HEAD, PolicyHeadRow(p, hash)))
  {
    hide Body, Wrap, PayloadFits, EncodeRow, EncodeTables, RootTable, PolicyHeadRow, Part, RowFits, At, RootsTable,
         Field;
    WrapBody(p, digest);
    RootsFound(p, digest);
    GraphCountsRead(p, digest);
    hash := FactsPart(p, digest);
    PartOfPart(Wrap(p, digest), V1_PAYLOAD_OFFSET, Body(p, digest), FactsAt(p),
               EncodeRow(POLICY_HEAD, PolicyHeadRow(p, hash)));
  }

  // ----- What the record table promises -----

  /** What record `i` of the record table covers. */
  function Covered(bytes: seq<Byte>, i: nat): (s: seq<Byte>)
    requires |bytes| >= V1_PAYLOAD_OFFSET && i < V1_RECORD_COUNT
  {
    var at, length := RecordField(bytes, i, 4, 4), RecordField(bytes, i, 8, 4);
    if at + length <= |bytes| then bytes[at..at + length] else []
  }

  lemma CoveredIs(p: Payload, digest: seq<Byte> -> Str, i: nat, t: seq<Byte>)
    requires ManifestFits(p, digest) && i < V1_RECORD_COUNT && Part(Body(p, digest), Span(p, i).0, t)
             && |t| == Span(p, i).1
    ensures |Wrap(p, digest)| >= V1_PAYLOAD_OFFSET && KindOf(Wrap(p, digest), i) == i + 1
            && Covered(Wrap(p, digest), i) == t
  {
    hide Body, PayloadFits, Wrap, Sealing, Span, RecordField, Hash, KindOf;
    WrapBody(p, digest);
    var checksum := WrapIs(p, digest);
    RecordReads(p, digest, checksum, i);
    PartOfPart(Wrap(p, digest), V1_PAYLOAD_OFFSET, Body(p, digest), Span(p, i).0, t);
  }

  /** The first six records cover exactly the sections they name. */
  lemma RecordsCover(p: Payload, digest: seq<Byte> -> Str, i: nat)
    requires ManifestFits(p, digest) && i < 6
    ensures var t := FirstTables(p)[i];
            && |Wrap(p, digest)| >= V1_PAYLOAD_OFFSET && KindOf(Wrap(p, digest), i) == i + 1
            && TableFits(t.kinds, t.rows)
            && Covered(Wrap(p, digest), i) == EncodeTable(t.kinds, t.rows)
  {
    hide Body, PayloadFits, Wrap, Covered, KindOf, EncodeTable, FirstTables, At, Len, TableFits, Part;
    SectionPlace(p, digest, i);
    var t := FirstTables(p)[i];
    CoveredIs(p, digest, i, EncodeTable(t.kinds, t.rows));
  }

  /** The two generation names, as they are written. */
  function Names(p: Payload): (s: seq<Byte>)
    requires Fits(Name, T(p.generation)) && Fits(Label, T(p.parent))
    ensures |s| == STRING_LEN * 2
  {
    EncodeField(Name, T(p.generation)) + EncodeField(Label, T(p.parent))
  }

  lemma NamesPlace(p: Payload, digest: seq<Byte> -> Str)
    requires PayloadFits(p, digest)
    ensures Fits(Name, T(p.generation)) && Fits(Label, T(p.parent)) && Part(Body(p, digest), 50, Names(p))
    ensures Part(Body(p, digest), 48, LeBytes(|p.roots|, 2))
  {
    hide Body, PayloadFits, EncodeRow, RowFits, Part, EncodeField, Fits, LeBytes;
    var checksum := HeadPart(p, digest);
    var row := HeadRow(p, checksum);
    CellsFit(row);
    assert row[17] == N(|p.roots|) && row[18] == T(p.generation) && row[19] == T(p.parent);
    hide HeadRow;
    CellsPlace(row, Body(p, digest));
    PartsJoin(Body(p, digest), 50, EncodeField(Name, T(p.generation)), EncodeField(Label, T(p.parent)));
    NumberField(U16, N(|p.roots|));
  }

  lemma CellsPlace(row: Row, body: seq<Byte>)
    requires RowFits(HEAD, row) && Part(body, 0, EncodeRow(HEAD, row)) && |row| == 23
    requires Fits(U16, row[17]) && Fits(Name, row[18]) && Fits(Label, row[19])
    ensures Part(body, 48, EncodeField(U16, row[17])) && Part(body, 50, EncodeField(Name, row[18]))
            && Part(body, 114, EncodeField(Label, row[19]))
  {
    assert |HEAD| == 23 && HEAD[17] == U16 && HEAD[18] == Name && HEAD[19] == Label;
    hide EncodeRow, RowSize, RowFits, Part, EncodeField, Fits;
    HeadPlace(17);
    HeadPlace(18);
    SizeStep(HEAD, 18);
    FieldPlace(HEAD, row, 17);
    FieldPlace(HEAD, row, 18);
    FieldPlace(HEAD, row, 19);
    PartOfPart(body, 0, EncodeRow(HEAD, row), 48, EncodeField(U16, row[17]));
    PartOfPart(body, 0, EncodeRow(HEAD, row), 50, EncodeField(Name, row[18]));
    PartOfPart(body, 0, EncodeRow(HEAD, row), 114, EncodeField(Label, row[19]));
  }

  lemma CellsFit(row: Row)
    requires RowFits(HEAD, row)
    ensures |row| == 23 && Fits(U16, row[17]) && Fits(Name, row[18]) && Fits(Label, row[19])
  {
    assert |HEAD| == 23 && HEAD[17] == U16 && HEAD[18] == Name && HEAD[19] == Label;
    assert Fits(HEAD[17], row[17]) && Fits(HEAD[18], row[18]) && Fits(HEAD[19], row[19]);
  }

  lemma PartsJoin(s: seq<Byte>, at: nat, a: seq<Byte>, b: seq<Byte>)
    requires Part(s, at, a) && Part(s, at + |a|, b)
    ensures Part(s, at, a + b)
  {
    assert s[at..at + |a + b|] == s[at..at + |a|] + s[at + |a|..at + |a| + |b|];
  }

  /** The generation record never covers the generation's names: it starts two bytes early, on the number of VFS
      roots. */
  lemma GenerationRecordMisses(p: Payload, digest: seq<Byte> -> Str)
    requires ManifestFits(p, digest) && WithinLimits(p) && Clean(Name, T(p.generation))
    ensures Fits(Name, T(p.generation)) && Fits(Label, T(p.parent)) && |Wrap(p, digest)| >= V1_PAYLOAD_OFFSET
    ensures KindOf(Wrap(p, digest), 7) == 8 && Covered(Wrap(p, digest), 7) != Names(p)
    ensures Part(Wrap(p, digest), V1_PAYLOAD_OFFSET + 50, Names(p))
  {
    assert |p.roots| <= 8 by { HeadCells(p, 0); hide HeadRow; }
    hide PayloadFits, WithinLimits, Body, Wrap, Covered, KindOf, Part, Fits, Clean, Names, LeBytes;
    NamesPlace(p, digest);
    WrapBody(p, digest);
    PartOfPart(Wrap(p, digest), V1_PAYLOAD_OFFSET, Body(p, digest), 50, Names(p));
    NamesStart(p);
    var t := TwoEarly(Body(p, digest), |p.roots|, Names(p));
    CoveredIs(p, digest, 7, t);
  }

  lemma NamesStart(p: Payload)
    requires Fits(Name, T(p.generation)) && Fits(Label, T(p.parent)) && Clean(Name, T(p.generation))
    ensures Names(p)[0] != 0 && (Names(p)[1] == 0 ==> Names(p)[2] == 0)
  {
    var g := p.generation;
    assert EncodeField(Name, T(g)) == g + Zeros(STRING_LEN - |g|);
  }

  /** A run that starts on a small number in front of a string is not that string. */
  lemma TwoEarly(body: seq<Byte>, roots: nat, names: seq<Byte>) returns (t: seq<Byte>)
    requires Part(body, 50, names) && Part(body, 48, LeBytes(roots, 2)) && roots <= 8 && |names| == STRING_LEN * 2
    requires names[0] != 0 && (names[1] == 0 ==> names[2] == 0)
    ensures Part(body, 48, t) && |t| == STRING_LEN * 2 && t != names
  {
    t := body[48..176];
    var head := LeBytes(roots, 2);
    assert LeBytes(roots / 256, 1) == [0];
    assert head == [roots % 256] + LeBytes(roots / 256, 1);
    assert body[48..50][1] == head[1] && body[50..178][0] == names[0];
    assert t[1] == 0 && t[2] == names[0];
  }
}
