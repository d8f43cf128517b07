/** The kernel's payload reader, as code. */
module BootReader {
  import opened Buffers
  import opened Bytes
  import opened Results
  import opened Wire
  import opened BootRecords
  import opened BootPayload

  // ----- Reading step by step -----

  /** What was read already, followed by what reading on gives. */
  ghost function After<T>(done: seq<T>, more: Option<(seq<T>, seq<Byte>)>): (r: Option<(seq<T>, seq<Byte>)>)
    ensures done == [] ==> r == more
    ensures more.Some? && more.value.0 == [] ==> r == Some((done, more.value.1))
  {
    if more.None? then None else
    assert [] + more.value.0 == more.value.0 && done + [] == done;
    Some((done + more.value.0, more.value.1))
  }

  lemma AfterOne<T>(done: seq<T>, x: T, more: Option<(seq<T>, seq<Byte>)>)
    ensures more.Some? ==> After(done, Some(([x] + more.value.0, more.value.1))) == After(done + [x], more)
  {
    if more.Some? { assert done + ([x] + more.value.0) == done + [x] + more.value.0; }
  }

  /** The fields still to be read complete the row read so far. */
  lemma {:induction false} RowStep(kinds: seq<Kind>, s: seq<Byte>, k: nat, row: Row, rest: seq<Byte>)
    requires k < |kinds| && RowSoFar(kinds, s, k, row, rest)
    ensures |rest| < Size(kinds[k]) ==> DecodeRow(kinds, s).None?
    ensures |rest| >= Size(kinds[k]) ==>
              var v := DecodeField(kinds[k], rest[..Size(kinds[k])]);
              && (v.None? ==> DecodeRow(kinds, s).None?)
              && (v.Some? ==> RowSoFar(kinds, s, k + 1, row + [v.value], rest[Size(kinds[k])..]))
  {
    hide DecodeField;
    assert kinds[k..][0] == kinds[k] && kinds[k..][1..] == kinds[k + 1..];
    if |rest| >= Size(kinds[k]) {
      var v := DecodeField(kinds[k], rest[..Size(kinds[k])]);
      if v.Some? {
        var more := DecodeRow(kinds[k + 1..], rest[Size(kinds[k])..]);
        AfterOne(row, v.value, more);
      }
    }
  }

  ghost predicate RowSoFar(kinds: seq<Kind>, s: seq<Byte>, k: nat, row: Row, rest: seq<Byte>)
    requires k <= |kinds|
  {
    DecodeRow(kinds, s) == After(row, DecodeRow(kinds[k..], rest))
  }

  ghost predicate TableSoFar(kinds: seq<Kind>, n: nat, s: seq<Byte>, k: nat, rows: seq<Row>, rest: seq<Byte>)
    requires k <= n
  {
    DecodeTable(kinds, n, s) == After(rows, DecodeTable(kinds, n - k, rest))
  }

  lemma TableStep(kinds: seq<Kind>, n: nat, s: seq<Byte>, k: nat, rows: seq<Row>, rest: seq<Byte>)
    requires k < n && TableSoFar(kinds, n, s, k, rows, rest)
    ensures DecodeRow(kinds, rest).None? ==> DecodeTable(kinds, n, s).None?
    ensures DecodeRow(kinds, rest).Some? ==>
              TableSoFar(kinds, n, s, k + 1, rows + [DecodeRow(kinds, rest).value.0], DecodeRow(kinds, rest).value.1)
  {
    hide DecodeRow;
    var first := DecodeRow(kinds, rest);
    if first.Some? {
      var more := DecodeTable(kinds, n - k - 1, first.value.1);
      AfterOne(rows, first.value.0, more);
    }
  }

  ghost predicate TablesSoFar(shape: Shape, s: seq<Byte>, k: nat, tables: seq<seq<Row>>, rest: seq<Byte>)
    requires k <= |shape|
  {
    DecodeTables(shape, s) == After(tables, DecodeTables(shape[k..], rest))
  }

  lemma TablesStep(shape: Shape, s: seq<Byte>, k: nat, tables: seq<seq<Row>>, rest: seq<Byte>)
    requires k < |shape| && TablesSoFar(shape, s, k, tables, rest)
    ensures var first := DecodeTable(shape[k].0, shape[k].1, rest);
            && (first.None? ==> DecodeTables(shape, s).None?)
            && (first.Some? ==> TablesSoFar(shape, s, k + 1, tables + [first.value.0], first.value.1))
  {
    hide DecodeTable;
    assert shape[k..][0] == shape[k] && shape[k..][1..] == shape[k + 1..];
    var first := DecodeTable(shape[k].0, shape[k].1, rest);
    if first.Some? {
      var more := DecodeTables(shape[k + 1..], first.value.1);
      AfterOne(tables, first.value.0, more);
    }
  }

  ghost predicate NamespacesSoFar(n: nat, s: seq<Byte>, k: nat, xs: seq<Namespace>, rest: seq<Byte>)
    requires k <= n
  {
    DecodeNamespaces(n, s) == After(xs, DecodeNamespaces(n - k, rest))
  }

  lemma NamespacesStep(n: nat, s: seq<Byte>, k: nat, xs: seq<Namespace>, rest: seq<Byte>)
    requires k < n && NamespacesSoFar(n, s, k, xs, rest)
    ensures DecodeNamespace(rest).None? ==> DecodeNamespaces(n, s).None?
    ensures DecodeNamespace(rest).Some? ==>
              NamespacesSoFar(n, s, k + 1, xs + [DecodeNamespace(rest).value.0], DecodeNamespace(rest).value.1)
  {
    hide DecodeNamespace;
    var first := DecodeNamespace(rest);
    if first.Some? {
      var more := DecodeNamespaces(n - k - 1, first.value.1);
      AfterOne(xs, first.value.0, more);
    }
  }

  /** A cursor over immutable bytes. */
  class Reader {
    const bytes: seq<Byte>
    var offset: nat

    ghost predicate Valid()
      reads this
    {
      offset <= |bytes|
    }

    /** What has not been read yet. */
    ghost function Rest(): seq<Byte>
      requires Valid()
      reads this
    {
      bytes[offset..]
    }

    constructor (b: seq<Byte>)
      ensures bytes == b && offset == 0 && Valid() && Rest() == b
    {
      bytes, offset := b, 0;
    }

    method ReadExact(n: nat) returns (r: Option<seq<Byte>>)
      requires Valid()
      modifies this
      ensures Valid() && offset >= old(offset)
      ensures r.Some? <==> n <= |old(Rest())|
      ensures r.Some? ==> r.value == old(Rest())[..n] && Rest() == old(Rest())[n..]
    {
      if offset + n > |bytes| {
        return None;
      }
      r := Some(bytes[offset..offset + n]);
      offset := offset + n;
    }

    method ReadRow(kinds: seq<Kind>) returns (r: Option<Row>)
      requires Valid()
      modifies this
      ensures Valid() && offset >= old(offset)
      ensures DecodeRow(kinds, old(Rest())) == if r.None? then None else Some((r.value, Rest()))
    {
      hide DecodeField;
      ghost var s := Rest();
      var row: Row, k := [], 0;
      assert kinds[0..] == kinds;
      while k < |kinds|
        invariant k <= |kinds| && Valid() && offset >= old(offset) && RowSoFar(kinds, s, k, row, Rest())
      {
        RowStep(kinds, s, k, row, Rest());
        var field := ReadExact(Size(kinds[k]));
        if field.None? {
          return None;
        }
        var value := DecodeField(kinds[k], field.value);
        if value.None? {
          return None;
        }
        row := row + [value.value];
        k := k + 1;
      }
      return Some(row);
    }

    method ReadTable(kinds: seq<Kind>, n: nat) returns (r: Option<seq<Row>>)
      requires Valid()
      modifies this
      ensures Valid() && offset >= old(offset)
      ensures DecodeTable(kinds, n, old(Rest())) == if r.None? then None else Some((r.value, Rest()))
    {
      hide DecodeRow;
      ghost var s := Rest();
      var rows: seq<Row>, k := [], 0;
      while k < n
        invariant k <= n && Valid() && offset >= old(offset) && TableSoFar(kinds, n, s, k, rows, Rest())
      {
        TableStep(kinds, n, s, k, rows, Rest());
        var row := ReadRow(kinds);
        if row.None? {
          return None;
        }
        rows := rows + [row.value];
        k := k + 1;
      }
      return Some(rows);
    }

    method ReadTables(shape: Shape) returns (r: Option<seq<seq<Row>>>)
      requires Valid()
      modifies this
      ensures Valid() && offset >= old(offset)
      ensures DecodeTables(shape, old(Rest())) == if r.None? then None else Some((r.value, Rest()))
    {
      hide DecodeTable;
      ghost var s := Rest();
      var tables: seq<seq<Row>>, k := [], 0;
      assert shape[0..] == shape;
      while k < |shape|
        invariant k <= |shape| && Valid() && offset >= old(offset) && TablesSoFar(shape, s, k, tables, Rest())
      {
        TablesStep(shape, s, k, tables, Rest());
        var table := ReadTable(shape[k].0, shape[k].1);
        if table.None? {
          return None;
        }
        tables := tables + [table.value];
        k := k + 1;
      }
      return Some(tables);
    }

    method ReadNamespace() returns (r: Option<Namespace>)
      requires Valid()
      modifies this
      ensures Valid() && offset >= old(offset)
      ensures DecodeNamespace(old(Rest())) == if r.None? then None else Some((r.value, Rest()))
    {
      hide DecodeRow, DecodeTable, Records;
      var head := ReadRow(NAMESPACE);
      if head.None? || NumAt(head.value, 1) > MAX_NAMESPACE_ENTRIES {
        return None;
      }
      var body := ReadTable(NAMESPACE_ENTRY, NumAt(head.value, 1));
      if body.None? {
        return None;
      }
      var entries := Records(body.value, RowEntry);
      return if entries.None? then None else Some(Namespace(TextAt(head.value, 0), entries.value));
    }

    method ReadNamespaces(n: nat) returns (r: Option<seq<Namespace>>)
      requires Valid()
      modifies this
      ensures Valid() && offset >= old(offset)
      ensures DecodeNamespaces(n, old(Rest())) == if r.None? then None else Some((r.value, Rest()))
    {
      hide DecodeNamespace;
      ghost var s := Rest();
      var xs: seq<Namespace>, k := [], 0;
      while k < n
        invariant k <= n && Valid() && offset >= old(offset) && NamespacesSoFar(n, s, k, xs, Rest())
      {
        NamespacesStep(n, s, k, xs, Rest());
        var x := ReadNamespace();
        if x.None? {
          return None;
        }
        xs := xs + [x.value];
        k := k + 1;
      }
      return Some(xs);
    }

    /** The bytes read since the cursor stood at `start`. */
    function Since(start: nat): seq<Byte>
      requires Valid() && start <= offset
      reads this
    {
      bytes[start..offset]
    }

    method ReadGraphRecords(head: Row) returns (r: Option<seq<seq<Row>>>)
      requires Valid()
      modifies this
      ensures Valid() && offset >= old(offset)
      ensures ReadGraph(head, old(Rest())) == if r.None? then None else Some((r.value, Rest()))
    {
      hide DecodeTables, GraphShape, Checksum;
      var start := offset;
      var graph := ReadTables(GraphShape(head));
      if graph.None? {
        return None;
      }
      assert Since(start) == Consumed(old(Rest()), Rest());
      return if Checksum(Since(start)) == NumAt(head, 22) then graph else None;
    }

    method ReadPolicyRecords(digest: seq<Byte> -> Str) returns (r: Option<(Row, seq<seq<Row>>)>)
      requires Valid()
      modifies this
      ensures Valid() && offset >= old(offset)
      ensures r == ReadPolicy(old(Rest()), digest)
    {
      hide DecodeTables, DecodeRow, PolicyShape, PolicyHeadOk;
      var head := ReadRow(POLICY_HEAD);
      if head.None? || !PolicyHeadOk(head.value) {
        return None;
      }
      var start := offset;
      ghost var s := Rest();
      var policy := ReadTables(PolicyShape(head.value));
      if policy.None? {
        return None;
      }
      assert Since(start) == Consumed(s, Rest());
      return if digest(Since(start)) == TextAt(head.value, 7) && offset == |bytes| then Some((head.value, policy.value))
        else None;
    }
  }

  /** Reads a whole compact payload. */
  method ParseCompact(bytes: seq<Byte>, digest: seq<Byte> -> Str) returns (r: Option<Payload>)
    ensures r == ReadBody(bytes, digest)
  {
    hide DecodeTables, DecodeRow, DecodeNamespaces, ReadGraph, ReadPolicy, FirstShape, RootShape, HeadOk, Assemble;
    var reader := new Reader(bytes);
    var head := reader.ReadRow(HEAD);
    if head.None? || !HeadOk(head.value) {
      return None;
    }
    var first := reader.ReadTables(FirstShape(head.value));
    if first.None? {
      return None;
    }
    var namespaces := reader.ReadNamespaces(NumAt(head.value, 16));
    if namespaces.None? {
      return None;
    }
    var roots := reader.ReadTables(RootShape(head.value));
    if roots.None? {
      return None;
    }
    var graph := reader.ReadGraphRecords(head.value);
    if graph.None? {
      return None;
    }
    var policy := reader.ReadPolicyRecords(digest);
    if policy.None? {
      return None;
    }
    return Assemble(Sections(head.value, first.value, namespaces.value, roots.value, graph.value, policy.value.0,
                             policy.value.1));
  }
}
