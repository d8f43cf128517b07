/** A whole KrustBoot manifest: the v1 envelope around the compact payload. */
module BootManifest {
  import opened Buffers
  import opened Bytes
  import opened Results
  import opened Wire
  import opened BootEnvelope
  import opened BootRecords
  import opened BootPayload
  import opened BootRoundTrip
  import opened BootReader

  const V1_HEAD: seq<Kind> := [Raw(16), U16, U16, Number(4), Number(4), U16, U16, Number(4), Name, Label]
  const RECORD: seq<Kind> := [U16, U16, Number(4), Number(4)]
  const CHECKSUM_CELL: nat := 7

  const COMPACT_HEADER_SIZE: nat := 186

  // ----- Parsing the envelope -----

  predicate V1HeadOk(r: Row, total: nat) {
    && TextAt(r, 0) == V1_MAGIC && NumAt(r, 1) == V1_VERSION && NumAt(r, 2) == V1_HEADER_SIZE && NumAt(r, 3) == total
    && NumAt(r, 4) == V1_HEADER_SIZE && NumAt(r, 5) == V1_RECORD_COUNT && total >= V1_PAYLOAD_OFFSET
  }

  /** Field `at` of record `i` of the record table. */
  function RecordField(bytes: seq<Byte>, i: nat, at: nat, n: nat): nat
    requires |bytes| >= V1_PAYLOAD_OFFSET && i < V1_RECORD_COUNT && at + n <= V1_RECORD_SIZE
  {
    Field(bytes, V1_HEADER_SIZE + i * V1_RECORD_SIZE + at, n)
  }

  function KindOf(bytes: seq<Byte>, i: nat): nat
    requires |bytes| >= V1_PAYLOAD_OFFSET && i < V1_RECORD_COUNT
  {
    RecordField(bytes, i, 0, 2)
  }

  /** A record of a known kind, within the manifest. */
  ghost predicate RecordOk(bytes: seq<Byte>, i: nat)
    requires |bytes| >= V1_PAYLOAD_OFFSET && i < V1_RECORD_COUNT
  {
    && 1 <= KindOf(bytes, i) <= V1_RECORD_COUNT
    && RecordField(bytes, i, 4, 4) + RecordField(bytes, i, 8, 4) <= |bytes|
  }

  ghost predicate Fresh(bytes: seq<Byte>, i: nat)
    requires |bytes| >= V1_PAYLOAD_OFFSET && i < V1_RECORD_COUNT
  {
    forall j: nat :: j < i ==> KindOf(bytes, j) != KindOf(bytes, i)
  }

  ghost predicate Listed(bytes: seq<Byte>, k: nat, n: nat)
    requires |bytes| >= V1_PAYLOAD_OFFSET && n <= V1_RECORD_COUNT
  {
    exists i: nat :: i < n && KindOf(bytes, i) == k
  }

  ghost predicate RecordsOk(bytes: seq<Byte>)
    requires |bytes| >= V1_PAYLOAD_OFFSET
  {
    && (forall i: nat :: i < V1_RECORD_COUNT ==> RecordOk(bytes, i) && Fresh(bytes, i))
    && (forall k: nat :: 1 <= k <= V1_RECORD_COUNT ==> Listed(bytes, k, V1_RECORD_COUNT))
  }

  method CheckRecords(bytes: seq<Byte>) returns (ok: bool)
    requires |bytes| >= V1_PAYLOAD_OFFSET
    ensures ok <==> RecordsOk(bytes)
  {
    hide RecordField;
    var seen := new bool[V1_RECORD_COUNT + 1](_ => false);
    var i := 0;
    while i < V1_RECORD_COUNT
      invariant i <= V1_RECORD_COUNT
      invariant forall j: nat :: j < i ==> RecordOk(bytes, j) && Fresh(bytes, j)
      invariant forall k :: 0 <= k <= V1_RECORD_COUNT ==> (seen[k] <==> Listed(bytes, k, i))
    {
      var kind := KindOf(bytes, i);
      if kind == 0 || kind >= seen.Length || seen[kind] {
        assert !RecordOk(bytes, i) || !Fresh(bytes, i);
        return false;
      }
      seen[kind] := true;
      if RecordField(bytes, i, 4, 4) + RecordField(bytes, i, 8, 4) > |bytes| {
        assert !RecordOk(bytes, i);
        return false;
      }
      i := i + 1;
    }
    var kind := 1;
    while kind <= V1_RECORD_COUNT
      invariant 1 <= kind <= V1_RECORD_COUNT + 1
      invariant forall k: nat :: 1 <= k < kind ==> Listed(bytes, k, V1_RECORD_COUNT)
    {
      if !seen[kind] {
        return false;
      }
      kind := kind + 1;
    }
    return true;
  }

  /** What the kernel demands of an envelope. */
  ghost predicate EnvelopeOk(bytes: seq<Byte>) {
    var head := DecodeRow(V1_HEAD, bytes);
    && head.Some? && V1HeadOk(head.value.0, |bytes|)
    && NumAt(head.value.0, CHECKSUM_CELL) == Hash(bytes, |bytes|)
    && RecordsOk(bytes)
  }

  method ParseV1Payload(bytes: seq<Byte>) returns (r: Option<seq<Byte>>)
    ensures r.Some? <==> EnvelopeOk(bytes)
    ensures r.Some? ==> r.value == bytes[V1_PAYLOAD_OFFSET..]
  {
    hide DecodeRow, Hash, RecordsOk;
    var reader := new Reader(bytes);
    var head := reader.ReadRow(V1_HEAD);
    if head.None? || !V1HeadOk(head.value, |bytes|) {
      return None;
    }
    var checksum := V1Checksum(bytes);
    if NumAt(head.value, CHECKSUM_CELL) != checksum {
      return None;
    }
    var ok := CheckRecords(bytes);
    return if ok then Some(bytes[V1_PAYLOAD_OFFSET..]) else None;
  }

  method ParseManifest(bytes: seq<Byte>, digest: seq<Byte> -> Str) returns (r: Option<Payload>)
    ensures r == ReadManifest(bytes, digest)
  {
    hide ReadBody, DecodeRow, Hash, RecordsOk;
    var payload := ParseV1Payload(bytes);
    if payload.None? {
      return None;
    }
    r := ParseCompact(payload.value, digest);
  }

  // ----- One changed byte -----

  lemma V1Places()
    ensures |V1_HEAD| == 10 && RowSize(V1_HEAD[..CHECKSUM_CELL]) == V1_CHECKSUM_OFFSET
            && RowSize(V1_HEAD) == V1_HEADER_SIZE
  {
    SizeStep(V1_HEAD, 0);
    SizeStep(V1_HEAD, 1);
    SizeStep(V1_HEAD, 2);
    SizeStep(V1_HEAD, 3);
    SizeStep(V1_HEAD, 4);
    SizeStep(V1_HEAD, 5);
    SizeStep(V1_HEAD, 6);
    SizeStep(V1_HEAD, 7);
    SizeStep(V1_HEAD, 8);
    SizeStep(V1_HEAD, 9);
    assert V1_HEAD[..10] == V1_HEAD;
  }

  lemma RecordPlaces()
    ensures RowSize(RECORD[..0]) == 0 && RowSize(RECORD[..2]) == 4 && RowSize(RECORD[..3]) == 8
            && RowSize(RECORD) == V1_RECORD_SIZE
  {
    SizeStep(RECORD, 0);
    SizeStep(RECORD, 1);
    SizeStep(RECORD, 2);
    SizeStep(RECORD, 3);
    assert RECORD[..4] == RECORD;
  }

  lemma AcceptedMatches(bytes: seq<Byte>)
    requires EnvelopeOk(bytes)
    ensures |bytes| >= V1_PAYLOAD_OFFSET && ChecksumMatches(bytes)
  {
    hide RecordsOk, Hash, DecodeRow;
    V1Places();
    DecodedField(V1_HEAD, bytes, CHECKSUM_CELL);
  }

  /** Two manifests that differ in exactly one byte, any byte, are never both accepted. */
  lemma OneByteRefused(a: seq<Byte>, b: seq<Byte>, d: nat)
    requires DifferAt(a, b, d)
    ensures !(EnvelopeOk(a) && EnvelopeOk(b))
  {
    hide EnvelopeOk, ChecksumMatches;
    if EnvelopeOk(a) && EnvelopeOk(b) {
      AcceptedMatches(a);
      AcceptedMatches(b);
      OneByteCaught(a, b, d);
    }
  }

  // ----- Sealing -----

  function Resealed(s: seq<Byte>): (r: seq<Byte>)
    requires |s| >= V1_CHECKSUM_OFFSET + 4
    ensures |r| == |s|
  {
    Put(s, V1_CHECKSUM_OFFSET, LeBytes(Hash(s, |s|), 4))
  }

  lemma {:induction false} HashMasked(a: seq<Byte>, b: seq<Byte>, n: nat)
    requires |a| == |b| && n <= |a| && forall i: nat :: i < |a| && !InChecksum(i) ==> a[i] == b[i]
    ensures Hash(a, n) == Hash(b, n)
  {
    hide Step;
    if n > 0 { HashMasked(a, b, n - 1); }
  }

  /** Sealing changes nothing that is hashed, so the sealed manifest matches its checksum. */
  lemma ResealedMatches(s: seq<Byte>)
    requires |s| >= V1_PAYLOAD_OFFSET
    ensures Hash(Resealed(s), |s|) == Hash(s, |s|) && ChecksumMatches(Resealed(s))
  {
    assert Pow256(4) == U32_LIMIT;
    hide Hash, LeBytes, LeValue, Pow256;
    ResealedElsewhere(s);
    HashMasked(Resealed(s), s, |s|);
    FieldHere(s, V1_CHECKSUM_OFFSET, 4, Hash(s, |s|));
  }

  lemma ResealedElsewhere(s: seq<Byte>)
    requires |s| >= V1_CHECKSUM_OFFSET + 4
    ensures forall i: nat :: i < |s| && !InChecksum(i) ==> Resealed(s)[i] == s[i]
  {
    hide Hash, LeBytes;
  }

  method RewriteV1Checksum(bytes: array<Byte>) returns (ok: bool)
    modifies bytes
    ensures ok <==> bytes.Length >= V1_CHECKSUM_OFFSET + 4
    ensures bytes[..] == if ok then Resealed(old(bytes[..])) else old(bytes[..])
  {
    if bytes.Length < V1_CHECKSUM_OFFSET + 4 {
      return false;
    }
    ghost var s := bytes[..];
    hide Hash, LeBytes;
    var o := V1_CHECKSUM_OFFSET;
    bytes[o], bytes[o + 1], bytes[o + 2], bytes[o + 3] := 0, 0, 0, 0;
    var checksum := V1Checksum(bytes[..]);
    HashMasked(bytes[..], s, |s|);
    var b := LeBytes(checksum, 4);
    bytes[o], bytes[o + 1], bytes[o + 2], bytes[o + 3] := b[0], b[1], b[2], b[3];
    assert bytes[..] == Put(s, o, b);
    return true;
  }

  // ----- Writing -----

  function RecordRow(kind: nat, at: nat, length: nat): Row {
    [N(kind), N(0), N(V1_PAYLOAD_OFFSET + at), N(length)]
  }

  /** Where table `k` of a payload starts, and how long it is. */
  function At(p: Payload, k: nat): nat
    requires k <= 14
  {
    COMPACT_HEADER_SIZE + ShapeSize(ShapeOf(FirstTables(p))[..k])
  }

  function Len(p: Payload, k: nat): nat
    requires k < 14
  {
    |FirstTables(p)[k].rows| * RowSize(FirstTables(p)[k].kinds)
  }

  function NamespacesLen(xs: seq<Namespace>): nat {
    if xs == [] then 0 else STRING_LEN + 2 + |xs[0].entries| * (STRING_LEN + 8) + NamespacesLen(xs[1..])
  }

  function RestLen(p: Payload): nat {
    Len(p, 6) + Len(p, 7) + Len(p, 8) + Len(p, 9) + Len(p, 10) + Len(p, 11) + Len(p, 12) + Len(p, 13)
    + NamespacesLen(p.namespaces) + |p.roots| * (STRING_LEN * 2)
  }

  /** What record `i` of the record table covers, counted from the start of the payload. */
  function Span(p: Payload, i: nat): (nat, nat) {
    if i < 6 then (At(p, i), Len(p, i))
    else if i == 6 then (0, 0)
    else if i == 7 then (48, STRING_LEN * 2)
    else (At(p, 6), RestLen(p))
  }

  function RecordRows(p: Payload): (rows: seq<Row>)
    ensures |rows| == V1_RECORD_COUNT
    ensures forall i: nat :: i < V1_RECORD_COUNT ==> rows[i] == RecordRow(i + 1, Span(p, i).0, Span(p, i).1)
  {
    seq(V1_RECORD_COUNT, i requires 0 <= i < V1_RECORD_COUNT => RecordRow(i + 1, Span(p, i).0, Span(p, i).1))
  }

  function V1HeadRow(p: Payload, total: nat, checksum: nat): Row {
    [T(V1_MAGIC), N(V1_VERSION), N(V1_HEADER_SIZE), N(total), N(V1_HEADER_SIZE), N(V1_RECORD_COUNT), N(0), N(checksum),
     T(p.generation), T(p.parent)]
  }

  ghost predicate ManifestFits(p: Payload, digest: seq<Byte> -> Str) {
    PayloadFits(p, digest) && V1_PAYLOAD_OFFSET + |Body(p, digest)| < U32_LIMIT
  }

  lemma V1HeadFits(p: Payload, digest: seq<Byte> -> Str, total: nat, checksum: nat)
    requires PayloadFits(p, digest) && total < U32_LIMIT && checksum < U32_LIMIT
    ensures RowFits(V1_HEAD, V1HeadRow(p, total, checksum))
  {
    hide TablesFit, NamespacesFit, EncodeTables, FirstTables, RootTable, GraphTables, PolicyTables, Checksum;
    assert Pow256(4) == U32_LIMIT && Pow256(2) == 65536;
    var row := HeadRow(p, Checksum(EncodeTables(GraphTables(p))));
    assert Fits(HEAD[18], row[18]) && Fits(HEAD[19], row[19]);
  }

  // ----- Where everything lies -----

  lemma {:induction false} HeadPlace(j: nat)
    requires 1 <= j <= 18
    ensures |HEAD| == 23 && RowSize(HEAD[..j]) == 16 + 2 * (j - 1)
  {
    SizeStep(HEAD, j - 1);
    if j > 1 {
      assert HEAD[j - 1] == U16;
      HeadPlace(j - 1);
    }
  }

  lemma HeadEnd()
    ensures |HEAD| == 23 && RowSize(HEAD[..20]) == 178 && RowSize(HEAD[..21]) == 180
            && RowSize(HEAD) == COMPACT_HEADER_SIZE
  {
    HeadPlace(18);
    SizeStep(HEAD, 18);
    SizeStep(HEAD, 19);
    SizeStep(HEAD, 20);
    SizeStep(HEAD, 21);
    SizeStep(HEAD, 22);
    assert HEAD[..23] == HEAD;
  }

  lemma NamespaceRowSizes()
    ensures RowSize(NAMESPACE) == STRING_LEN + 2 && RowSize(NAMESPACE_ENTRY) == STRING_LEN + 8
            && RowSize(NAMESPACE[..1]) == STRING_LEN
  {
    SizeStep(NAMESPACE, 0);
    SizeStep(NAMESPACE, 1);
    assert NAMESPACE[..2] == NAMESPACE;
    SizeStep(NAMESPACE_ENTRY, 0);
    SizeStep(NAMESPACE_ENTRY, 1);
    SizeStep(NAMESPACE_ENTRY, 2);
    SizeStep(NAMESPACE_ENTRY, 3);
    SizeStep(NAMESPACE_ENTRY, 4);
    assert NAMESPACE_ENTRY[..5] == NAMESPACE_ENTRY;
  }

  lemma {:induction false} NamespacesSize(xs: seq<Namespace>)
    requires NamespacesFit(xs)
    ensures |EncodeNamespaces(xs)| == NamespacesLen(xs)
  {
    if xs != [] {
      NamespaceRowSizes();
      TableSize(NAMESPACE_ENTRY, Rows(xs[0].entries, EntryRow));
      NamespacesSize(xs[1..]);
      hide EncodeRow, EncodeTable;
    }
  }

  /** The parts of a payload, in order. */
  lemma Layout(p: Payload, digest: seq<Byte> -> Str)
    requires PayloadFits(p, digest)
    ensures var body, graph, policy := Body(p, digest), EncodeTables(GraphTables(p)), EncodeTables(PolicyTables(p));
            var first := COMPACT_HEADER_SIZE;
            var namespaces := first + |EncodeTables(FirstTables(p))|;
            var roots := namespaces + |EncodeNamespaces(p.namespaces)|;
            var nodes := roots + |EncodeTables(RootTable(p))|;
            var facts := nodes + |graph|;
            && facts <= |body|
            && Part(body, 0, EncodeRow(HEAD, HeadRow(p, Checksum(graph))))
            && Part(body, first, EncodeTables(FirstTables(p)))
            && Part(body, namespaces, EncodeNamespaces(p.namespaces)) && Part(body, roots, EncodeTables(RootTable(p)))
            && Part(body, nodes, graph) && Part(body, facts, EncodeRow(POLICY_HEAD, PolicyHeadRow(p, digest(policy))))
  {
    HeadEnd();
    hide EncodeTables, EncodeRow, EncodeNamespaces, HeadRow, FirstTables, RootTable, GraphTables, PolicyTables,
         PolicyHeadRow, Checksum, TablesFit, NamespacesFit, RowFits, RowSize;
    var graph, policy := EncodeTables(GraphTables(p)), EncodeTables(PolicyTables(p));
    SixParts(EncodeRow(HEAD, HeadRow(p, Checksum(graph))), EncodeTables(FirstTables(p)), EncodeNamespaces(p.namespaces),
             EncodeTables(RootTable(p)), graph, EncodeRow(POLICY_HEAD, PolicyHeadRow(p, digest(policy))), policy);
  }

  lemma SixParts(a: seq<Byte>, b: seq<Byte>, c: seq<Byte>, d: seq<Byte>, e: seq<Byte>, f: seq<Byte>, g: seq<Byte>)
    ensures var s := a + (b + (c + (d + (e + (f + g)))));
            && Part(s, 0, a) && Part(s, |a|, b) && Part(s, |a| + |b|, c) && Part(s, |a| + |b| + |c|, d)
            && Part(s, |a| + |b| + |c| + |d|, e) && Part(s, |a| + |b| + |c| + |d| + |e|, f)
  {
    hide Part;
    var s6 := f + g;
    var s5 := e + s6;
    var s4 := d + s5;
    var s3 := c + s4;
    var s2 := b + s3;
    var s := a + s2;
    PartWhole(s);
    PartsOf(s, 0, a, s2);
    PartsOf(s, |a|, b, s3);
    PartsOf(s, |a| + |b|, c, s4);
    PartsOf(s, |a| + |b| + |c|, d, s5);
    PartsOf(s, |a| + |b| + |c| + |d|, e, s6);
    PartsOf(s, |a| + |b| + |c| + |d| + |e|, f, g);
  }

  lemma PartWhole(s: seq<Byte>)
    ensures Part(s, 0, s)
  {}

  lemma PartsOf(s: seq<Byte>, base: nat, a: seq<Byte>, b: seq<Byte>)
    requires Part(s, base, a + b)
    ensures Part(s, base, a) && Part(s, base + |a|, b)
  {
    assert Part(a + b, 0, a) && Part(a + b, |a|, b);
    PartOfPart(s, base, a + b, 0, a);
    PartOfPart(s, base, a + b, |a|, b);
  }

  lemma FirstPlace(p: Payload, digest: seq<Byte> -> Str)
    requires PayloadFits(p, digest)
    ensures TablesFit(FirstTables(p)) && Part(Body(p, digest), COMPACT_HEADER_SIZE, EncodeTables(FirstTables(p)))
  {
    Layout(p, digest);
    hide Body, EncodeRow, EncodeTables, EncodeNamespaces, FirstTables, RootTable, GraphTables, PolicyTables, HeadRow,
         PolicyHeadRow, Checksum, Part, TablesFit, NamespacesFit, RowFits;
  }

  /** Table `k` lies where the record table says. */
  lemma SectionPlace(p: Payload, digest: seq<Byte> -> Str, k: nat)
    requires PayloadFits(p, digest) && k < 14
    ensures var t := FirstTables(p)[k];
            && TableFits(t.kinds, t.rows) && |EncodeTable(t.kinds, t.rows)| == Len(p, k)
            && Part(Body(p, digest), At(p, k), EncodeTable(t.kinds, t.rows))
  {
    hide Body, EncodeTable, EncodeTables, FirstTables, Part, RowSize, PayloadFits, TableFits, TablesFit, ShapeSize,
         ShapeOf;
    FirstPlace(p, digest);
    TablePart(FirstTables(p), k, Body(p, digest), COMPACT_HEADER_SIZE);
  }

  lemma AtStep(p: Payload, k: nat)
    requires k < 14
    ensures At(p, k + 1) == At(p, k) + Len(p, k)
  {
    hide FirstTables, RowSize;
    ShapeStep(ShapeOf(FirstTables(p)), k);
  }

  lemma RootSize(p: Payload, digest: seq<Byte> -> Str)
    requires PayloadFits(p, digest)
    ensures |EncodeTables(RootTable(p))| == |p.roots| * (STRING_LEN * 2)
  {
    hide FirstTables, GraphTables, PolicyTables, NamespacesFit, RowFits, HeadRow, PolicyHeadRow, Rows;
    SizeStep(VFS_ROOT, 0);
    SizeStep(VFS_ROOT, 1);
    assert VFS_ROOT[..2] == VFS_ROOT;
    TablesSize(RootTable(p));
  }

  /** The policy record covers everything from the network ports to the VFS roots. */
  lemma RestPlace(p: Payload, digest: seq<Byte> -> Str)
    requires PayloadFits(p, digest)
    ensures At(p, 6) + RestLen(p) == COMPACT_HEADER_SIZE + |EncodeTables(FirstTables(p))|
                                     + |EncodeNamespaces(p.namespaces)|
                                     + |EncodeTables(RootTable(p))|
    ensures At(p, 6) + RestLen(p) <= |Body(p, digest)|
  {
    Layout(p, digest);
    hide Body, EncodeRow, EncodeTables, EncodeNamespaces, FirstTables, RootTable, GraphTables, PolicyTables, HeadRow,
         PolicyHeadRow, Checksum, Part, Len;
    FirstEnd(p, digest);
    NamespacesSize(p.namespaces);
    RootSize(p, digest);
    hide At;
    AtStep(p, 6);
    AtStep(p, 7);
    AtStep(p, 8);
    AtStep(p, 9);
    AtStep(p, 10);
    AtStep(p, 11);
    AtStep(p, 12);
    AtStep(p, 13);
  }

  lemma FirstEnd(p: Payload, digest: seq<Byte> -> Str)
    requires PayloadFits(p, digest)
    ensures At(p, 14) == COMPACT_HEADER_SIZE + |EncodeTables(FirstTables(p))|
  {
    hide EncodeTables, FirstTables;
    TablesSize(FirstTables(p));
    assert ShapeOf(FirstTables(p))[..14] == ShapeOf(FirstTables(p));
  }

  /** Every record lies in the payload. */
  lemma RecordInside(p: Payload, digest: seq<Byte> -> Str, i: nat)
    requires PayloadFits(p, digest) && i < V1_RECORD_COUNT
    ensures Span(p, i).0 + Span(p, i).1 <= |Body(p, digest)|
  {
    hide Body, At, Len, RestLen, PayloadFits, EncodeTables, EncodeNamespaces, FirstTables, RootTable;
    if i < 6 {
      SectionInside(p, digest, i);
    } else if i == 8 {
      RestPlace(p, digest);
    } else {
      HeadInside(p, digest);
    }
  }

  lemma SectionInside(p: Payload, digest: seq<Byte> -> Str, k: nat)
    requires PayloadFits(p, digest) && k < 14
    ensures At(p, k) + Len(p, k) <= |Body(p, digest)|
  {
    SectionPlace(p, digest, k);
    hide Body, At, Len, PayloadFits, EncodeTable, TableFits, FirstTables;
  }

  lemma HeadInside(p: Payload, digest: seq<Byte> -> Str)
    requires PayloadFits(p, digest)
    ensures COMPACT_HEADER_SIZE <= |Body(p, digest)|
  {
    FirstPlace(p, digest);
    hide Body, PayloadFits, EncodeTables, FirstTables;
  }

  lemma RecordsFit(p: Payload, digest: seq<Byte> -> Str)
    requires ManifestFits(p, digest)
    ensures TableFits(RECORD, RecordRows(p))
  {
    hide Body, PayloadFits, Span, RowFits, RecordRow, RecordRows;
    forall i: nat | i < V1_RECORD_COUNT
      ensures RowFits(RECORD, RecordRows(p)[i])
    {
      RecordInside(p, digest, i);
      RecordFits(i + 1, Span(p, i).0, Span(p, i).1);
    }
  }

  lemma RecordFits(kind: nat, at: nat, length: nat)
    requires kind < 65536 && V1_PAYLOAD_OFFSET + at + length < U32_LIMIT
    ensures RowFits(RECORD, RecordRow(kind, at, length))
  {
    assert Pow256(4) == U32_LIMIT && Pow256(2) == 65536;
  }

  function V1Header(p: Payload, digest: seq<Byte> -> Str, checksum: nat): (s: seq<Byte>)
    requires ManifestFits(p, digest) && checksum < U32_LIMIT
  {
    var total := V1_PAYLOAD_OFFSET + |Body(p, digest)|;
    V1HeadFits(p, digest, total, checksum);
    EncodeRow(V1_HEAD, V1HeadRow(p, total, checksum))
  }

  function RecordTable(p: Payload, digest: seq<Byte> -> Str): seq<Byte>
    requires ManifestFits(p, digest)
  {
    RecordsFit(p, digest);
    EncodeTable(RECORD, RecordRows(p))
  }

  lemma EnvelopeSizes(p: Payload, digest: seq<Byte> -> Str, checksum: nat)
    requires ManifestFits(p, digest) && checksum < U32_LIMIT
    ensures |V1Header(p, digest, checksum)| == V1_HEADER_SIZE
            && |RecordTable(p, digest)| == V1_RECORD_COUNT * V1_RECORD_SIZE
  {
    V1Places();
    RecordPlaces();
    RecordsFit(p, digest);
    TableSize(RECORD, RecordRows(p));
    hide EncodeRow, EncodeTable, Body, RowSize, PayloadFits, RecordRows, TableFits, RowFits;
  }

  /** A manifest under a given checksum. */
  function Sealing(p: Payload, digest: seq<Byte> -> Str, checksum: nat): (s: seq<Byte>)
    requires ManifestFits(p, digest) && checksum < U32_LIMIT
    ensures |s| == V1_PAYLOAD_OFFSET + |Body(p, digest)|
  {
    EnvelopeSizes(p, digest, checksum);
    V1Header(p, digest, checksum) + (RecordTable(p, digest) + Body(p, digest))
  }

  /** What the compiler writes: everything with a zero checksum, then the checksum. */
  function Wrap(p: Payload, digest: seq<Byte> -> Str): seq<Byte>
    requires ManifestFits(p, digest)
  {
    Resealed(Sealing(p, digest, 0))
  }

  lemma HeaderPut(p: Payload, total: nat, checksum: nat, post: seq<Byte>)
    requires checksum < U32_LIMIT && RowFits(V1_HEAD, V1HeadRow(p, total, 0))
    ensures RowFits(V1_HEAD, V1HeadRow(p, total, checksum)) && RowSize(V1_HEAD) == V1_HEADER_SIZE
    ensures Put(EncodeRow(V1_HEAD, V1HeadRow(p, total, 0)) + post, V1_CHECKSUM_OFFSET, LeBytes(checksum, 4))
         == EncodeRow(V1_HEAD, V1HeadRow(p, total, checksum)) + post
  {
    V1Places();
    var row := V1HeadRow(p, total, 0);
    assert Fits(V1_HEAD[CHECKSUM_CELL], N(checksum)) by { assert Pow256(4) == U32_LIMIT; }
    assert row[CHECKSUM_CELL := N(checksum)] == V1HeadRow(p, total, checksum);
    hide EncodeRow, LeBytes, RowSize, RowFits, Put, Fits, V1HeadRow;
    FieldPut(V1_HEAD, row, CHECKSUM_CELL, N(checksum), post);
  }

  /** Writing the checksum into the bytes gives the header that carries it. */
  lemma WrapIs(p: Payload, digest: seq<Byte> -> Str) returns (checksum: nat)
    requires ManifestFits(p, digest)
    ensures checksum < U32_LIMIT && Wrap(p, digest) == Sealing(p, digest, checksum)
    ensures checksum == Hash(Wrap(p, digest), |Wrap(p, digest)|)
  {
    hide Body, PayloadFits, EncodeRow, EncodeTable, Hash, RecordTable, RowSize, RowFits, Put, V1HeadRow, LeBytes,
         ChecksumMatches, RecordRows;
    var s := Sealing(p, digest, 0);
    checksum := Hash(s, |s|);
    var total := V1_PAYLOAD_OFFSET + |Body(p, digest)|;
    V1HeadFits(p, digest, total, 0);
    ResealedMatches(s);
    HeaderPut(p, total, checksum, RecordTable(p, digest) + Body(p, digest));
  }

  // ----- The round trip -----

  lemma SealingParts(p: Payload, digest: seq<Byte> -> Str, checksum: nat)
    requires ManifestFits(p, digest) && checksum < U32_LIMIT
    ensures var s := Sealing(p, digest, checksum);
            && Part(s, V1_HEADER_SIZE, RecordTable(p, digest)) && Part(s, V1_PAYLOAD_OFFSET, Body(p, digest))
            && s[V1_PAYLOAD_OFFSET..] == Body(p, digest)
  {
    EnvelopeSizes(p, digest, checksum);
    hide Body, PayloadFits, V1Header, RecordTable, Part;
    ThreeParts(V1Header(p, digest, checksum), RecordTable(p, digest), Body(p, digest));
  }

  lemma ThreeParts(a: seq<Byte>, b: seq<Byte>, c: seq<Byte>)
    ensures var s := a + (b + c); Part(s, |a|, b) && Part(s, |a| + |b|, c) && s[|a| + |b|..] == c
  {
    PartBehind(a, b + c);
    PartsOf(a + (b + c), |a|, b, c);
  }

  lemma RecordRead(s: seq<Byte>, rows: seq<Row>, i: nat, kind: nat, at: nat, length: nat)
    requires |s| >= V1_PAYLOAD_OFFSET && |rows| == V1_RECORD_COUNT && i < V1_RECORD_COUNT
             && rows[i] == RecordRow(kind, at, length)
    requires TableFits(RECORD, rows) && Part(s, V1_HEADER_SIZE, EncodeTable(RECORD, rows))
    ensures KindOf(s, i) == kind && RecordField(s, i, 4, 4) == V1_PAYLOAD_OFFSET + at
            && RecordField(s, i, 8, 4) == length
  {
    RecordPlaces();
    hide EncodeTable, RowSize, Part, TableFits, Field;
    NumberPlace(RECORD, rows, i, 0, s, V1_HEADER_SIZE);
    NumberPlace(RECORD, rows, i, 2, s, V1_HEADER_SIZE);
    NumberPlace(RECORD, rows, i, 3, s, V1_HEADER_SIZE);
  }

  lemma RecordReads(p: Payload, digest: seq<Byte> -> Str, checksum: nat, i: nat)
    requires ManifestFits(p, digest) && checksum < U32_LIMIT && i < V1_RECORD_COUNT
    ensures var s := Sealing(p, digest, checksum);
            && KindOf(s, i) == i + 1
            && RecordField(s, i, 4, 4) == V1_PAYLOAD_OFFSET + Span(p, i).0 && RecordField(s, i, 8, 4) == Span(p, i).1
  {
    hide Body, PayloadFits, EncodeTable, Sealing, Part, TableFits, Span, RecordField, KindOf, RecordRow, RecordRows;
    SealingParts(p, digest, checksum);
    RecordsFit(p, digest);
    RecordRead(Sealing(p, digest, checksum), RecordRows(p), i, i + 1, Span(p, i).0, Span(p, i).1);
  }

  lemma RecordsAccepted(p: Payload, digest: seq<Byte> -> Str, checksum: nat)
    requires ManifestFits(p, digest) && checksum < U32_LIMIT
    ensures RecordsOk(Sealing(p, digest, checksum))
  {
    hide Body, PayloadFits, Sealing, RecordField, KindOf, Span;
    var s := Sealing(p, digest, checksum);
    forall i: nat | i < V1_RECORD_COUNT
      ensures RecordOk(s, i) && KindOf(s, i) == i + 1
    {
      RecordReads(p, digest, checksum, i);
      RecordInside(p, digest, i);
    }
    forall k: nat | 1 <= k <= V1_RECORD_COUNT
      ensures Listed(s, k, V1_RECORD_COUNT)
    {
      assert KindOf(s, k - 1) == k;
    }
  }

  /** The generation and its parent are read back as they were written. */
  predicate NamesClean(p: Payload) {
    Clean(Name, T(p.generation)) && Clean(Label, T(p.parent))
  }

  lemma SealingAccepted(p: Payload, digest: seq<Byte> -> Str, checksum: nat)
    requires ManifestFits(p, digest) && NamesClean(p) && checksum < U32_LIMIT
    requires checksum == Hash(Sealing(p, digest, checksum), |Sealing(p, digest, checksum)|)
    ensures EnvelopeOk(Sealing(p, digest, checksum))
  {
    hide Body, PayloadFits, EncodeRow, RecordTable, RecordsOk, Hash, V1HeadRow, V1HeadOk, RowFits, EnvelopeOk,
         NamesClean;
    RecordsAccepted(p, digest, checksum);
    var total := V1_PAYLOAD_OFFSET + |Body(p, digest)|;
    V1HeadFits(p, digest, total, checksum);
    HeaderAccepted(p, total, checksum, RecordTable(p, digest) + Body(p, digest));
  }

  /** The payload lies in the envelope the compiler writes, and the kernel accepts the envelope if its names are
      clean. */
  lemma Accepted(p: Payload, digest: seq<Byte> -> Str)
    requires ManifestFits(p, digest)
    ensures |Wrap(p, digest)| >= V1_PAYLOAD_OFFSET && Wrap(p, digest)[V1_PAYLOAD_OFFSET..] == Body(p, digest)
    ensures NamesClean(p) ==> EnvelopeOk(Wrap(p, digest))
  {
    hide Body, PayloadFits, RecordTable, Hash, Wrap, Part, EnvelopeOk, Sealing, NamesClean;
    var checksum := WrapIs(p, digest);
    SealingParts(p, digest, checksum);
    if NamesClean(p) { SealingAccepted(p, digest, checksum); }
  }

  lemma HeaderAccepted(p: Payload, total: nat, checksum: nat, post: seq<Byte>)
    requires RowFits(V1_HEAD, V1HeadRow(p, total, checksum)) && total >= V1_PAYLOAD_OFFSET && NamesClean(p)
    requires var s := EncodeRow(V1_HEAD, V1HeadRow(p, total, checksum)) + post;
             |s| == total && RecordsOk(s) && checksum == Hash(s, |s|)
    ensures EnvelopeOk(EncodeRow(V1_HEAD, V1HeadRow(p, total, checksum)) + post)
  {
    var row := V1HeadRow(p, total, checksum);
    assert V1HeadOk(row, total) && NumAt(row, CHECKSUM_CELL) == checksum && RowClean(V1_HEAD, row);
    hide EncodeRow, DecodeRow, RecordsOk, Hash, V1HeadRow, V1HeadOk, RowFits, RowClean, CutRow;
    RowReads(V1_HEAD, row, post);
  }

  /** What the kernel makes of a manifest. */
  ghost function ReadManifest(bytes: seq<Byte>, digest: seq<Byte> -> Str): Option<Payload> {
    if EnvelopeOk(bytes) then ReadBody(bytes[V1_PAYLOAD_OFFSET..], digest) else None
  }

  lemma CleanNames(p: Payload, digest: seq<Byte> -> Str)
    requires PayloadFits(p, digest) && PayloadClean(p, digest)
    ensures NamesClean(p)
  {
    hide PayloadFits, TablesClean, NamespacesKept;
    var row := HeadRow(p, 0);
    assert HEAD[18] == Name && HEAD[19] == Label && row[18] == T(p.generation) && row[19] == T(p.parent);
    hide HeadRow;
    assert Clean(HEAD[18], row[18]) && Clean(HEAD[19], row[19]);
  }

  /** Of a manifest that can be written, the kernel reads back, field for field, what the compiler wrote exactly
      when its texts are clean and it is within the kernel's limits. */
  lemma ManifestRoundTrip(p: Payload, digest: seq<Byte> -> Str)
    requires ManifestFits(p, digest)
    ensures ReadManifest(Wrap(p, digest), digest) == Some(p) <==> PayloadClean(p, digest) && WithinLimits(p)
  {
    hide Body, PayloadFits, EnvelopeOk, Wrap, ReadBody, WithinLimits, PayloadClean, NamesClean;
    Accepted(p, digest);
    PayloadRoundTrip(p, digest);
    if PayloadClean(p, digest) { CleanNames(p, digest); }
  }
}
