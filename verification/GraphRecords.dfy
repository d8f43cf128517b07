/** Graph records: what the boot compiler writes, and the second reader that decodes them. */
module GraphRecords {
  import opened Buffers
  import opened Bytes
  import opened Results
  import opened Text
  import opened Wire
  import opened BootRecords

  const NODE_RECORD_LEN: nat := 4 + STRING_LEN * 2
  const EDGE_RECORD_LEN: nat := 8 + STRING_LEN
  const MAX_GRAPH_NODES: nat := 128
  const MAX_GRAPH_EDGES: nat := 224

  // ----- Fixed strings, read strictly -----

  predicate Ascii(s: Str) {
    forall i :: 0 <= i < |s| ==> s[i] < 0x80
  }

  predicate NoNul(s: Str) {
    forall i :: 0 <= i < |s| ==> s[i] != 0
  }

  predicate AllZero(s: seq<Byte>) {
    forall i :: 0 <= i < |s| ==> s[i] == 0
  }

  /** A string in its slot. */
  function Slot(s: Str): (r: seq<Byte>)
    requires |s| <= STRING_LEN
    ensures |r| == STRING_LEN
  {
    s + Zeros(STRING_LEN - |s|)
  }

  /** A slot's string: everything behind the first NUL must be NUL too. */
  function Strict(field: seq<Byte>, allowEmpty: bool): Option<Str> {
    var n := NulPrefix(field);
    if (n == 0 && !allowEmpty) || !AllZero(field[n..]) || !ValidUtf8(field[..n]) then None else Some(field[..n])
  }

  method FixedStrAt(buffer: seq<Byte>, offset: nat, allowEmpty: bool) returns (r: Option<Str>)
    ensures r == if offset + STRING_LEN > |buffer| then None
                 else Strict(buffer[offset..offset + STRING_LEN], allowEmpty)
  {
    if offset + STRING_LEN > |buffer| {
      return None;
    }
    ghost var field := buffer[offset..offset + STRING_LEN];
    var len := 0;
    while len < STRING_LEN && buffer[offset + len] != 0
      invariant len <= STRING_LEN && forall i :: 0 <= i < len ==> field[i] != 0
    {
      len := len + 1;
    }
    PrefixIs(field, len);
    if len == 0 && !allowEmpty {
      return None;
    }
    var padding := len;
    while padding < STRING_LEN
      invariant len <= padding <= STRING_LEN && forall i :: len <= i < padding ==> field[i] == 0
    {
      if buffer[offset + padding] != 0 {
        assert field[len..][padding - len] != 0;
        return None;
      }
      padding := padding + 1;
    }
    assert field[..len] == buffer[offset..offset + len];
    r := if ValidUtf8(buffer[offset..offset + len]) then Some(buffer[offset..offset + len]) else None;
  }

  lemma {:induction false} PrefixIs(s: seq<Byte>, n: nat)
    requires n <= |s| && (forall i :: 0 <= i < n ==> s[i] != 0) && (n < |s| ==> s[n] == 0)
    ensures NulPrefix(s) == n
  {
    if n > 0 { PrefixIs(s[1..], n - 1); }
  }

  lemma {:induction false} PrefixClear(s: seq<Byte>)
    ensures NoNul(s[..NulPrefix(s)]) && (NulPrefix(s) < |s| ==> s[NulPrefix(s)] == 0)
  {
    if s != [] && s[0] != 0 {
      PrefixClear(s[1..]);
      var n := NulPrefix(s[1..]);
      forall i | 0 <= i < n + 1
        ensures s[i] != 0
      {
        if i > 0 { assert s[1..][..n][i - 1] != 0; }
      }
    }
  }

  lemma {:induction false} AsciiIsUtf8(s: Str)
    requires Ascii(s)
    ensures ValidUtf8(s)
  {
    if s != [] { AsciiIsUtf8(s[1..]); }
  }

  /** A written string is read back exactly when it has no NUL and is not empty where that is refused. */
  lemma SlotReads(s: Str, allowEmpty: bool)
    requires |s| <= STRING_LEN && ValidUtf8(s)
    ensures Strict(Slot(s), allowEmpty) == Some(s) <==> NoNul(s) && (s != [] || allowEmpty)
  {
    if NoNul(s) {
      PrefixIs(Slot(s), |s|);
      assert Slot(s)[..|s|] == s;
    } else {
      PrefixClear(Slot(s));
    }
  }

  /** A slot that was read is the slot of what was read. */
  lemma StrictInverse(field: seq<Byte>, allowEmpty: bool)
    requires |field| == STRING_LEN && Strict(field, allowEmpty).Some?
    ensures |Strict(field, allowEmpty).value| <= STRING_LEN && Slot(Strict(field, allowEmpty).value) == field
  {
    var n := NulPrefix(field);
    assert field == field[..n] + field[n..];
    assert field[n..] == Zeros(STRING_LEN - n);
  }

  // ----- Records -----

  predicate SlotsFit(s: Str) {
    |s| <= STRING_LEN && Ascii(s)
  }

  predicate NodeFits(x: GraphNode) {
    x.kind < U16_LIMIT && x.objectKind < U16_LIMIT && |x.id| <= STRING_LEN && |x.caption| <= STRING_LEN
  }

  function NodeBytes(x: GraphNode): (s: seq<Byte>)
    requires NodeFits(x)
    ensures |s| == NODE_RECORD_LEN
  {
    LeBytes(x.kind, 2) + (LeBytes(x.objectKind, 2) + (Slot(x.id) + Slot(x.caption)))
  }

  function NodeOf(record: seq<Byte>): Option<GraphNode>
    requires |record| == NODE_RECORD_LEN
  {
    var id, caption := Strict(record[4..4 + STRING_LEN], false), Strict(record[4 + STRING_LEN..], true);
    if id.None? || caption.None? then None
    else Some(GraphNode(Field(record, 0, 2), Field(record, 2, 2), id.value, caption.value))
  }

  predicate EdgeFits(x: GraphEdge) {
    x.kind < U16_LIMIT && x.from < U16_LIMIT && x.to < U16_LIMIT && x.rights < U16_LIMIT && |x.id| <= STRING_LEN
  }

  function EdgeBytes(x: GraphEdge): (s: seq<Byte>)
    requires EdgeFits(x)
    ensures |s| == EDGE_RECORD_LEN
  {
    LeBytes(x.kind, 2) + (LeBytes(x.from, 2) + (LeBytes(x.to, 2) + (LeBytes(x.rights, 2) + Slot(x.id))))
  }

  function EdgeOf(record: seq<Byte>): Option<GraphEdge>
    requires |record| == EDGE_RECORD_LEN
  {
    var id := Strict(record[8..], false);
    if id.None? then None
    else Some(GraphEdge(Field(record, 0, 2), Field(record, 2, 2), Field(record, 4, 2), Field(record, 6, 2), id.value))
  }

  /** Strings the reader gives back. */
  predicate NodeClean(x: GraphNode) {
    NoNul(x.id) && x.id != [] && NoNul(x.caption)
  }

  predicate EdgeClean(x: GraphEdge) {
    NoNul(x.id) && x.id != []
  }

  lemma NodeReads(x: GraphNode)
    requires NodeFits(x) && Ascii(x.id) && Ascii(x.caption)
    ensures NodeOf(NodeBytes(x)) == Some(x) <==> NodeClean(x)
  {
    hide LeBytes, LeValue, Slot, Strict;
    var s := NodeBytes(x);
    var a, b, c, d := LeBytes(x.kind, 2), LeBytes(x.objectKind, 2), Slot(x.id), Slot(x.caption);
    assert s[0..2] == a && s[2..4] == b && s[4..4 + STRING_LEN] == c && s[4 + STRING_LEN..] == d;
    Numbers(x.kind);
    Numbers(x.objectKind);
    AsciiIsUtf8(x.id);
    AsciiIsUtf8(x.caption);
    SlotReads(x.id, false);
    SlotReads(x.caption, true);
  }

  lemma EdgeReads(x: GraphEdge)
    requires EdgeFits(x) && Ascii(x.id)
    ensures EdgeOf(EdgeBytes(x)) == Some(x) <==> EdgeClean(x)
  {
    hide LeBytes, LeValue, Slot, Strict;
    var s := EdgeBytes(x);
    var a, b, c, d, e := LeBytes(x.kind, 2), LeBytes(x.from, 2), LeBytes(x.to, 2), LeBytes(x.rights, 2), Slot(x.id);
    assert s[0..2] == a && s[2..4] == b && s[4..6] == c && s[6..8] == d && s[8..] == e;
    Numbers(x.kind);
    Numbers(x.from);
    Numbers(x.to);
    Numbers(x.rights);
    AsciiIsUtf8(x.id);
    SlotReads(x.id, false);
  }

  lemma Numbers(v: nat)
    requires v < U16_LIMIT
    ensures LeValue(LeBytes(v, 2)) == v
  {
    assert Pow256(2) == U16_LIMIT;
    LeRoundTrip(v, 2);
  }

  /** A record that was read is the record of what was read. */
  lemma NodeInverse(record: seq<Byte>)
    requires |record| == NODE_RECORD_LEN && NodeOf(record).Some?
    ensures NodeFits(NodeOf(record).value) && NodeBytes(NodeOf(record).value) == record
  {
    hide LeBytes, LeValue, Slot, Strict;
    FieldInverse(record, 0);
    FieldInverse(record, 2);
    StrictInverse(record[4..4 + STRING_LEN], false);
    StrictInverse(record[4 + STRING_LEN..], true);
    assert record == record[0..2] + (record[2..4] + (record[4..4 + STRING_LEN] + record[4 + STRING_LEN..]));
  }

  lemma EdgeInverse(record: seq<Byte>)
    requires |record| == EDGE_RECORD_LEN && EdgeOf(record).Some?
    ensures EdgeFits(EdgeOf(record).value) && EdgeBytes(EdgeOf(record).value) == record
  {
    hide LeBytes, LeValue, Slot, Strict;
    FieldInverse(record, 0);
    FieldInverse(record, 2);
    FieldInverse(record, 4);
    FieldInverse(record, 6);
    StrictInverse(record[8..], false);
    assert record == record[0..2] + (record[2..4] + (record[4..6] + (record[6..8] + record[8..])));
  }

  lemma FieldInverse(record: seq<Byte>, at: nat)
    requires at + 2 <= |record|
    ensures Field(record, at, 2) < U16_LIMIT && LeBytes(Field(record, at, 2), 2) == record[at..at + 2]
  {
    assert Pow256(2) == U16_LIMIT;
    LeBound(record[at..at + 2]);
    LeInverse(record[at..at + 2]);
  }

  // ----- Sets of records -----

  /** `n` records of one size, one after the other. */
  ghost predicate Laid(s: seq<Byte>, base: nat, size: nat, records: seq<seq<Byte>>) {
    forall i :: 0 <= i < |records| ==> |records[i]| == size && Part(s, base + Scaled(i, size), records[i])
  }

  function Scaled(i: nat, size: nat): nat { i * size }

  function Flat(records: seq<seq<Byte>>): seq<Byte> {
    if records == [] then [] else Flat(records[..|records| - 1]) + records[|records| - 1]
  }

  lemma {:induction false} FlatLaid(records: seq<seq<Byte>>, size: nat)
    requires forall i :: 0 <= i < |records| ==> |records[i]| == size
    ensures |Flat(records)| == Scaled(|records|, size) && Laid(Flat(records), 0, size, records)
  {
    if records != [] {
      var n := |records| - 1;
      var front := Flat(records[..n]);
      FlatLaid(records[..n], size);
      OneMoreRow(n, size);
      forall i | 0 <= i < |records|
        ensures Part(Flat(records), Scaled(i, size), records[i])
      {
        if i < n {
          assert Part(front, Scaled(i, size), records[..n][i]);
          PartInFront(front, records[n], Scaled(i, size), records[i]);
        } else {
          PartBehind(front, records[n]);
        }
      }
    }
  }

  lemma PartInFront(a: seq<Byte>, b: seq<Byte>, at: nat, t: seq<Byte>)
    requires Part(a, at, t)
    ensures Part(a + b, at, t)
  {
    assert (a + b)[at..at + |t|] == a[at..at + |t|];
  }

  datatype RecordSet = RecordSet(records: seq<Byte>, nodes: nat, edges: nat)

  function NewRecordSet(records: seq<Byte>, nodes: nat, edges: nat): Option<RecordSet> {
    if |records| == Scaled(nodes, NODE_RECORD_LEN) + Scaled(edges, EDGE_RECORD_LEN) then
      Some(RecordSet(records, nodes, edges)) else None
  }

  function NodeAt(set_: RecordSet, index: nat): Option<GraphNode> {
    var offset := Scaled(index, NODE_RECORD_LEN);
    if index >= set_.nodes || offset + NODE_RECORD_LEN > |set_.records| then None
    else NodeOf(set_.records[offset..offset + NODE_RECORD_LEN])
  }

  function EdgeAt(set_: RecordSet, index: nat): Option<GraphEdge> {
    var offset := Scaled(set_.nodes, NODE_RECORD_LEN) + Scaled(index, EDGE_RECORD_LEN);
    if index >= set_.edges || offset + EDGE_RECORD_LEN > |set_.records| then None
    else EdgeOf(set_.records[offset..offset + EDGE_RECORD_LEN])
  }

  // ----- Writing -----

  /** An edge of the plan: its ends are named, not numbered. */
  datatype PlanEdge = PlanEdge(kind: nat, from: Str, to: Str, rights: nat, id: Str)

  /** The first node of a name. */
  function NodeIndex(nodes: seq<GraphNode>, id: Str): (r: Option<nat>)
    ensures r.Some? ==> r.value < |nodes| && nodes[r.value].id == id && forall j :: 0 <= j < r.value ==>
          nodes[j].id != id
    ensures r.None? ==> forall j :: 0 <= j < |nodes| ==> nodes[j].id != id
  {
    if nodes == [] then None
    else if nodes[0].id == id then Some(0)
    else
      var rest := NodeIndex(nodes[1..], id);
      if rest.None? then None else Some(rest.value + 1)
  }

  /** The plan's numbers are 16 bits wide. */
  ghost predicate Narrow(nodes: seq<GraphNode>, edges: seq<PlanEdge>) {
    && (forall i :: 0 <= i < |nodes| ==> nodes[i].kind < U16_LIMIT && nodes[i].objectKind < U16_LIMIT)
    && (forall i :: 0 <= i < |edges| ==> edges[i].kind < U16_LIMIT && edges[i].rights < U16_LIMIT)
  }

  predicate NodeWritable(x: GraphNode) {
    SlotsFit(x.id) && SlotsFit(x.caption)
  }

  predicate EdgeWritable(nodes: seq<GraphNode>, x: PlanEdge) {
    NodeIndex(nodes, x.from).Some? && NodeIndex(nodes, x.to).Some? && SlotsFit(x.id)
  }

  ghost predicate NodesWritable(nodes: seq<GraphNode>) {
    forall i :: 0 <= i < |nodes| ==> NodeWritable(nodes[i])
  }

  ghost predicate EdgesWritable(nodes: seq<GraphNode>, edges: seq<PlanEdge>) {
    forall i :: 0 <= i < |edges| ==> EdgeWritable(nodes, edges[i])
  }

  ghost predicate Writable(nodes: seq<GraphNode>, edges: seq<PlanEdge>) {
    |nodes| <= MAX_GRAPH_NODES && |edges| <= MAX_GRAPH_EDGES && NodesWritable(nodes) && EdgesWritable(nodes, edges)
  }

  /** The edge with its ends numbered. */
  function Numbered(nodes: seq<GraphNode>, x: PlanEdge): GraphEdge
    requires EdgeWritable(nodes, x)
  {
    GraphEdge(x.kind, NodeIndex(nodes, x.from).value, NodeIndex(nodes, x.to).value, x.rights, x.id)
  }

  ghost function NodeParts(nodes: seq<GraphNode>): (r: seq<seq<Byte>>)
    requires forall i :: 0 <= i < |nodes| ==> NodeFits(nodes[i])
    ensures |r| == |nodes| && forall i :: 0 <= i < |nodes| ==> r[i] == NodeBytes(nodes[i])
  {
    seq(|nodes|, i requires 0 <= i < |nodes| => NodeBytes(nodes[i]))
  }

  ghost function EdgeParts(edges: seq<GraphEdge>): (r: seq<seq<Byte>>)
    requires forall i :: 0 <= i < |edges| ==> EdgeFits(edges[i])
    ensures |r| == |edges| && forall i :: 0 <= i < |edges| ==> r[i] == EdgeBytes(edges[i])
  {
    seq(|edges|, i requires 0 <= i < |edges| => EdgeBytes(edges[i]))
  }

  ghost function AllNumbered(nodes: seq<GraphNode>, edges: seq<PlanEdge>): (r: seq<GraphEdge>)
    requires Narrow(nodes, edges) && Writable(nodes, edges)
    ensures |r| == |edges| && forall i :: 0 <= i < |edges| ==> r[i] == Numbered(nodes, edges[i]) && EdgeFits(r[i])
  {
    seq(|edges|, i requires 0 <= i < |edges| => Numbered(nodes, edges[i]))
  }

  ghost function GraphBytes(nodes: seq<GraphNode>, edges: seq<PlanEdge>): seq<Byte>
    requires Narrow(nodes, edges) && Writable(nodes, edges)
  {
    Flat(NodeParts(nodes)) + Flat(EdgeParts(AllNumbered(nodes, edges)))
  }

  method PushNodes(nodes: seq<GraphNode>) returns (r: Option<seq<Byte>>)
    requires forall i :: 0 <= i < |nodes| ==> nodes[i].kind < U16_LIMIT && nodes[i].objectKind < U16_LIMIT
    ensures r.Some? <==> NodesWritable(nodes)
    ensures r.Some? ==> r.value == Flat(NodeParts(nodes))
  {
    hide NodeBytes, Ascii;
    var bytes: seq<Byte>, i := [], 0;
    while i < |nodes|
      invariant i <= |nodes| && NodesWritable(nodes[..i]) && bytes == Flat(NodeParts(nodes[..i]))
    {
      if !SlotsFit(nodes[i].id) || !SlotsFit(nodes[i].caption) {
        assert !NodeWritable(nodes[i]);
        return None;
      }
      NodesGrow(nodes[..i], nodes[i]);
      assert nodes[..i] + [nodes[i]] == nodes[..i + 1];
      bytes := bytes + NodeBytes(nodes[i]);
      i := i + 1;
    }
    assert nodes[..i] == nodes;
    return Some(bytes);
  }

  lemma NodesGrow(done: seq<GraphNode>, node: GraphNode)
    requires NodeFits(node) && forall j :: 0 <= j < |done| ==> NodeFits(done[j])
    ensures Flat(NodeParts(done)) + NodeBytes(node) == Flat(NodeParts(done + [node]))
  {
    hide NodeBytes;
    assert NodeParts(done + [node])[..|done|] == NodeParts(done);
  }

  method PushEdges(nodes: seq<GraphNode>, edges: seq<PlanEdge>, bytes: seq<Byte>) returns (r: Option<seq<Byte>>)
    requires Narrow(nodes, edges) && |nodes| <= MAX_GRAPH_NODES && |edges| <= MAX_GRAPH_EDGES && NodesWritable(nodes)
    ensures r.Some? <==> EdgesWritable(nodes, edges)
    ensures r.Some? ==> r.value == bytes + Flat(EdgeParts(AllNumbered(nodes, edges)))
  {
    hide EdgeBytes, SlotsFit, NodesWritable, NodeIndex;
    var out, i := bytes, 0;
    assert out == bytes + Flat(EdgeParts(AllNumbered(nodes, edges[..0])));
    while i < |edges|
      invariant i <= |edges| && EdgesWritable(nodes, edges[..i])
                && out == bytes + Flat(EdgeParts(AllNumbered(nodes, edges[..i])))
    {
      var from, to := NodeIndex(nodes, edges[i].from), NodeIndex(nodes, edges[i].to);
      if from.None? || to.None? || !SlotsFit(edges[i].id) {
        assert !EdgeWritable(nodes, edges[i]);
        return None;
      }
      var edge := GraphEdge(edges[i].kind, from.value, to.value, edges[i].rights, edges[i].id);
      EdgesStep(nodes, edges, i, bytes, edge);
      out := out + EdgeBytes(edge);
      i := i + 1;
    }
    assert edges[..i] == edges;
    return Some(out);
  }

  lemma EdgesStep(nodes: seq<GraphNode>, edges: seq<PlanEdge>, i: nat, front: seq<Byte>, edge: GraphEdge)
    requires i < |edges| <= MAX_GRAPH_EDGES && Narrow(nodes, edges) && Writable(nodes, edges[..i])
    requires EdgeWritable(nodes, edges[i]) && edge == Numbered(nodes, edges[i])
    ensures EdgeFits(edge) && EdgesWritable(nodes, edges[..i + 1])
    ensures front + Flat(EdgeParts(AllNumbered(nodes, edges[..i]))) + EdgeBytes(edge)
         == front + Flat(EdgeParts(AllNumbered(nodes, edges[..i + 1])))
  {
    hide EdgeBytes, NodesWritable;
    assert EdgeFits(edge) by { hide Ascii; }
    hide EdgeFits, EdgeWritable, Flat;
    assert AllNumbered(nodes, edges[..i + 1]) == AllNumbered(nodes, edges[..i]) + [edge];
    FlatGrows(front, AllNumbered(nodes, edges[..i]), edge);
  }

  lemma FlatGrows(front: seq<Byte>, done: seq<GraphEdge>, edge: GraphEdge)
    requires EdgeFits(edge) && forall j :: 0 <= j < |done| ==> EdgeFits(done[j])
    ensures front + Flat(EdgeParts(done)) + EdgeBytes(edge) == front + Flat(EdgeParts(done + [edge]))
  {
    hide EdgeBytes;
    assert EdgeParts(done + [edge])[..|done|] == EdgeParts(done);
  }

  method SerializeGraphRecords(nodes: seq<GraphNode>, edges: seq<PlanEdge>) returns (r: Option<seq<Byte>>)
    requires Narrow(nodes, edges)
    ensures r.Some? <==> Writable(nodes, edges)
    ensures r.Some? ==> r.value == GraphBytes(nodes, edges)
  {
    hide NodesWritable, EdgesWritable, Flat;
    if |nodes| > MAX_GRAPH_NODES || |edges| > MAX_GRAPH_EDGES {
      return None;
    }
    var front := PushNodes(nodes);
    if front.None? {
      return None;
    }
    r := PushEdges(nodes, edges, front.value);
  }

  // ----- The round trip -----

  lemma NodeRecord(nodes: seq<GraphNode>, post: seq<Byte>, i: nat)
    requires i < |nodes| && forall j :: 0 <= j < |nodes| ==> NodeFits(nodes[j])
    ensures |Flat(NodeParts(nodes))| == Scaled(|nodes|, NODE_RECORD_LEN)
    ensures Part(Flat(NodeParts(nodes)) + post, Scaled(i, NODE_RECORD_LEN), NodeBytes(nodes[i]))
  {
    hide NodeBytes, Flat, Part, Scaled;
    FlatLaid(NodeParts(nodes), NODE_RECORD_LEN);
    assert Part(Flat(NodeParts(nodes)), 0 + Scaled(i, NODE_RECORD_LEN), NodeParts(nodes)[i]);
    PartInFront(Flat(NodeParts(nodes)), post, Scaled(i, NODE_RECORD_LEN), NodeBytes(nodes[i]));
  }

  lemma EdgeRecord(pre: seq<Byte>, edges: seq<GraphEdge>, i: nat)
    requires i < |edges| && forall j :: 0 <= j < |edges| ==> EdgeFits(edges[j])
    ensures |Flat(EdgeParts(edges))| == Scaled(|edges|, EDGE_RECORD_LEN)
    ensures Part(pre + Flat(EdgeParts(edges)), |pre| + Scaled(i, EDGE_RECORD_LEN), EdgeBytes(edges[i]))
  {
    hide EdgeBytes, Flat, Part, Scaled;
    FlatLaid(EdgeParts(edges), EDGE_RECORD_LEN);
    assert Part(Flat(EdgeParts(edges)), 0 + Scaled(i, EDGE_RECORD_LEN), EdgeParts(edges)[i]);
    PartBehind(pre, Flat(EdgeParts(edges)));
    PartOfPart(pre + Flat(EdgeParts(edges)), |pre|, Flat(EdgeParts(edges)), Scaled(i, EDGE_RECORD_LEN),
               EdgeBytes(edges[i]));
  }

  lemma Sized(nodes: seq<GraphNode>, edges: seq<PlanEdge>)
    requires Narrow(nodes, edges) && Writable(nodes, edges)
    ensures |Flat(NodeParts(nodes))| == Scaled(|nodes|, NODE_RECORD_LEN)
    ensures NewRecordSet(GraphBytes(nodes, edges), |nodes|, |edges|)
         == Some(RecordSet(GraphBytes(nodes, edges), |nodes|, |edges|))
  {
    hide NodeBytes, EdgeBytes, Flat, Scaled, NodeWritable, EdgeWritable, Laid;
    assert forall i :: 0 <= i < |nodes| ==> NodeFits(nodes[i]) by { AllFit(nodes, edges); }
    FlatLaid(NodeParts(nodes), NODE_RECORD_LEN);
    FlatLaid(EdgeParts(AllNumbered(nodes, edges)), EDGE_RECORD_LEN);
  }

  lemma AllFit(nodes: seq<GraphNode>, edges: seq<PlanEdge>)
    requires Narrow(nodes, edges) && Writable(nodes, edges)
    ensures forall i :: 0 <= i < |nodes| ==> NodeFits(nodes[i])
  {}

  ghost function Written(nodes: seq<GraphNode>, edges: seq<PlanEdge>): RecordSet
    requires Narrow(nodes, edges) && Writable(nodes, edges)
  {
    RecordSet(GraphBytes(nodes, edges), |nodes|, |edges|)
  }

  /** Every node written is read back, exactly when its strings have no NUL and its id is not empty. */
  lemma NodeRoundTrip(nodes: seq<GraphNode>, edges: seq<PlanEdge>, i: nat)
    requires Narrow(nodes, edges) && Writable(nodes, edges) && i < |nodes|
    ensures NodeAt(Written(nodes, edges), i) == Some(nodes[i]) <==> NodeClean(nodes[i])
  {
    AllFit(nodes, edges);
    assert NodeWritable(nodes[i]);
    NodeReads(nodes[i]);
    hide NodeBytes, Flat, Scaled, NodeOf, NodeClean, Ascii, EdgeParts;
    NodeRecord(nodes, Flat(EdgeParts(AllNumbered(nodes, edges))), i);
  }

  /** Every edge written is read back, with its ends numbered, exactly when its id has no NUL and is not empty. */
  lemma EdgeRoundTrip(nodes: seq<GraphNode>, edges: seq<PlanEdge>, i: nat)
    requires Narrow(nodes, edges) && Writable(nodes, edges) && i < |edges|
    ensures EdgeWritable(nodes, edges[i])
    ensures EdgeAt(Written(nodes, edges), i) == Some(Numbered(nodes, edges[i])) <==>
            EdgeClean(Numbered(nodes, edges[i]))
  {
    hide EdgeBytes, Flat, Scaled, EdgeOf, EdgeClean, Ascii, NodeParts, EdgeFits, NodeWritable, Numbered, NodeIndex,
         NewRecordSet;
    Sized(nodes, edges);
    assert EdgeWritable(nodes, edges[i]);
    var numbered := AllNumbered(nodes, edges);
    assert numbered[i].id == edges[i].id by { NumberedId(nodes, edges[i]); }
    EdgeReads(numbered[i]);
    hide NodesWritable, EdgesWritable, EdgeWritable, Narrow;
    EdgeRecord(Flat(NodeParts(nodes)), numbered, i);
  }

  lemma NumberedId(nodes: seq<GraphNode>, x: PlanEdge)
    requires EdgeWritable(nodes, x)
    ensures Numbered(nodes, x).id == x.id
  {}

  /** The numbers an edge is read with lead back to the nodes the plan named. */
  lemma EdgeNames(nodes: seq<GraphNode>, edges: seq<PlanEdge>, i: nat)
    requires Narrow(nodes, edges) && Writable(nodes, edges) && i < |edges|
    requires (forall j :: 0 <= j < |nodes| ==> NodeClean(nodes[j])) && NoNul(edges[i].id) && edges[i].id != []
    ensures var set_ := Written(nodes, edges);
            && EdgeAt(set_, i).Some? && NodeAt(set_, EdgeAt(set_, i).value.from).Some?
            && NodeAt(set_, EdgeAt(set_, i).value.to).Some?
            && NodeAt(set_, EdgeAt(set_, i).value.from).value.id == edges[i].from
            && NodeAt(set_, EdgeAt(set_, i).value.to).value.id == edges[i].to
  {
    hide EdgeAt, NodeAt, Written, NodeClean, EdgesWritable, NodesWritable, Narrow;
    EdgeRoundTrip(nodes, edges, i);
    var edge := Numbered(nodes, edges[i]);
    assert NodeClean(nodes[edge.from]) && NodeClean(nodes[edge.to]);
    NodeRoundTrip(nodes, edges, edge.from);
    NodeRoundTrip(nodes, edges, edge.to);
  }

  // ----- Nothing else reads the same -----

  ghost predicate Readable(set_: RecordSet) {
    && |set_.records| == Scaled(set_.nodes, NODE_RECORD_LEN) + Scaled(set_.edges, EDGE_RECORD_LEN)
    && (forall i: nat :: i < set_.nodes ==> NodeAt(set_, i).Some?)
    && (forall i: nat :: i < set_.edges ==> EdgeAt(set_, i).Some?)
  }

  /** Two readable sets of records that read the same, record for record, are the same bytes. */
  lemma ReadsApart(a: RecordSet, b: RecordSet)
    requires Readable(a) && Readable(b) && a.nodes == b.nodes && a.edges == b.edges
    requires forall i: nat :: i < a.nodes ==> NodeAt(a, i) == NodeAt(b, i)
    requires forall i: nat :: i < a.edges ==> EdgeAt(a, i) == EdgeAt(b, i)
    ensures a == b
  {
    forall k | 0 <= k < |a.records|
      ensures a.records[k] == b.records[k]
    {
      if k < Scaled(a.nodes, NODE_RECORD_LEN) {
        NodeByte(a, b, k);
      } else {
        EdgeByte(a, b, k);
      }
    }
  }

  /** Every byte lies in a record. */
  lemma {:induction false} InRecord(k: nat, n: nat, size: nat) returns (i: nat)
    requires k < Scaled(n, size)
    ensures i < n && Scaled(i, size) <= k < Scaled(i, size) + size <= Scaled(n, size)
  {
    OneMoreRow(n - 1, size);
    if k >= Scaled(n - 1, size) {
      i := n - 1;
    } else {
      i := InRecord(k, n - 1, size);
    }
  }

  lemma SameByte(a: seq<Byte>, b: seq<Byte>, lo: nat, hi: nat, k: nat)
    requires lo <= k < hi <= |a| && hi <= |b| && a[lo..hi] == b[lo..hi]
    ensures a[k] == b[k]
  {
    assert a[lo..hi][k - lo] == b[lo..hi][k - lo];
  }

  lemma SameNode(a: RecordSet, b: RecordSet, i: nat)
    requires NodeAt(a, i).Some? && NodeAt(a, i) == NodeAt(b, i)
    ensures var lo := Scaled(i, NODE_RECORD_LEN);
            lo + NODE_RECORD_LEN <= |a.records| && lo + NODE_RECORD_LEN <= |b.records|
            && a.records[lo..lo + NODE_RECORD_LEN] == b.records[lo..lo + NODE_RECORD_LEN]
  {
    hide Scaled, NodeOf, NodeBytes;
    var lo := Scaled(i, NODE_RECORD_LEN);
    NodeInverse(a.records[lo..lo + NODE_RECORD_LEN]);
    NodeInverse(b.records[lo..lo + NODE_RECORD_LEN]);
  }

  lemma SameEdge(a: RecordSet, b: RecordSet, i: nat)
    requires a.nodes == b.nodes && EdgeAt(a, i).Some? && EdgeAt(a, i) == EdgeAt(b, i)
    ensures var lo := Scaled(a.nodes, NODE_RECORD_LEN) + Scaled(i, EDGE_RECORD_LEN);
            lo + EDGE_RECORD_LEN <= |a.records| && lo + EDGE_RECORD_LEN <= |b.records|
            && a.records[lo..lo + EDGE_RECORD_LEN] == b.records[lo..lo + EDGE_RECORD_LEN]
  {
    hide Scaled, EdgeOf, EdgeBytes;
    var lo := Scaled(a.nodes, NODE_RECORD_LEN) + Scaled(i, EDGE_RECORD_LEN);
    EdgeInverse(a.records[lo..lo + EDGE_RECORD_LEN]);
    EdgeInverse(b.records[lo..lo + EDGE_RECORD_LEN]);
  }

  lemma NodeByte(a: RecordSet, b: RecordSet, k: nat)
    requires Readable(a) && Readable(b) && a.nodes == b.nodes && a.edges == b.edges
             && k < Scaled(a.nodes, NODE_RECORD_LEN)
    requires forall i: nat :: i < a.nodes ==> NodeAt(a, i) == NodeAt(b, i)
    ensures a.records[k] == b.records[k]
  {
    hide Scaled, NodeAt, EdgeAt;
    var i := InRecord(k, a.nodes, NODE_RECORD_LEN);
    SameNode(a, b, i);
    var lo := Scaled(i, NODE_RECORD_LEN);
    SameByte(a.records, b.records, lo, lo + NODE_RECORD_LEN, k);
  }

  lemma EdgeByte(a: RecordSet, b: RecordSet, k: nat)
    requires Readable(a) && Readable(b) && a.nodes == b.nodes && a.edges == b.edges
    requires Scaled(a.nodes, NODE_RECORD_LEN) <= k < |a.records|
    requires forall i: nat :: i < a.edges ==> EdgeAt(a, i) == EdgeAt(b, i)
    ensures a.records[k] == b.records[k]
  {
    hide Scaled, NodeAt, EdgeAt;
    var base := Scaled(a.nodes, NODE_RECORD_LEN);
    var i := InRecord(k - base, a.edges, EDGE_RECORD_LEN);
    SameEdge(a, b, i);
    var lo := base + Scaled(i, EDGE_RECORD_LEN);
    SameByte(a.records, b.records, lo, lo + EDGE_RECORD_LEN, k);
  }
}
