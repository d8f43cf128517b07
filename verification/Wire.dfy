/** Records of fixed-size fields: how they are written, and how they are read back. */
module Wire {
  import opened Buffers
  import opened Bytes
  import opened Results
  import opened Text

  const STRING_LEN: nat := 64

  /** The kinds of fields: raw bytes, little-endian numbers, and NUL-padded strings. */
  datatype Kind = Raw(size: nat) | Number(size: nat) | Name | Label

  datatype Value = Octets(octets: seq<Byte>) | Num(num: nat)

  type Row = seq<Value>

  function Size(k: Kind): nat {
    match k
    case Raw(n) => n
    case Number(n) => n
    case _ => STRING_LEN
  }

  /** What can be written in a field of each kind. */
  ghost predicate Fits(k: Kind, v: Value) {
    match k
    case Raw(n) => v.Octets? && |v.octets| == n
    case Number(n) => v.Num? && v.num < Pow256(n)
    case _ => v.Octets? && |v.octets| <= STRING_LEN && Ascii(v.octets)
  }

  /** What is read back as it was written: text without a NUL. Names are not empty; labels may be. */
  predicate Clean(k: Kind, v: Value) {
    match k
    case Name => v.Octets? && v.octets != [] && 0 !in v.octets
    case Label => v.Octets? && 0 !in v.octets
    case _ => true
  }

  /** A value, its text cut at the first NUL. */
  function CutField(k: Kind, v: Value): Value {
    if (k.Name? || k.Label?) && v.Octets? then Octets(Cut(v.octets)) else v
  }

  function EncodeField(k: Kind, v: Value): (s: seq<Byte>)
    requires Fits(k, v)
    ensures |s| == Size(k)
  {
    match k
    case Raw(_) => v.octets
    case Number(n) => LeBytes(v.num, n)
    case _ => v.octets + Zeros(STRING_LEN - |v.octets|)
  }

  function DecodeField(k: Kind, s: seq<Byte>): Option<Value>
    requires |s| == Size(k)
  {
    match k
    case Raw(_) => Some(Octets(s))
    case Number(n) => Some(Num(LeValue(s)))
    case Name => (var t := FixedString(s); if t.None? then None else Some(Octets(t.value)))
    case Label => (var t := TextOrEmpty(s); if t.None? then None else Some(Octets(t.value)))
  }

  /** A field is read as it was written, but for text after a NUL; a name of which nothing is left is refused. */
  lemma FieldReads(k: Kind, v: Value)
    requires Fits(k, v)
    ensures DecodeField(k, EncodeField(k, v)) == if k.Name? && CutField(k, v) == Octets([]) then None
                                                 else Some(CutField(k, v))
    ensures Clean(k, v) <==> CutField(k, v) == v && !(k.Name? && v == Octets([]))
  {
    match k
    case Raw(_) =>
    case Number(n) => LeRoundTrip(v.num, n);
    case _ =>
      PaddedReads(v.octets, Zeros(STRING_LEN - |v.octets|));
      CutWhole(v.octets);
  }

  // ----- Rows -----

  function RowSize(kinds: seq<Kind>): nat {
    if kinds == [] then 0 else Size(kinds[0]) + RowSize(kinds[1..])
  }

  ghost predicate RowFits(kinds: seq<Kind>, row: Row) {
    |row| == |kinds| && forall i :: 0 <= i < |kinds| ==> Fits(kinds[i], row[i])
  }

  function EncodeRow(kinds: seq<Kind>, row: Row): (s: seq<Byte>)
    requires RowFits(kinds, row)
    ensures |s| == RowSize(kinds)
  {
    if kinds == [] then [] else EncodeField(kinds[0], row[0]) + EncodeRow(kinds[1..], row[1..])
  }

  /** Reads a row from the front; the rest is what follows it. */
  function DecodeRow(kinds: seq<Kind>, s: seq<Byte>): Option<(Row, seq<Byte>)> {
    if kinds == [] then Some(([], s))
    else if |s| < Size(kinds[0]) then None
    else
      var v := DecodeField(kinds[0], s[..Size(kinds[0])]);
      if v.None? then None
      else
        var rest := DecodeRow(kinds[1..], s[Size(kinds[0])..]);
        if rest.None? then None else Some(([v.value] + rest.value.0, rest.value.1))
  }

  ghost predicate RowClean(kinds: seq<Kind>, row: Row) {
    |row| == |kinds| && forall i :: 0 <= i < |kinds| ==> Clean(kinds[i], row[i])
  }

  function CutRow(kinds: seq<Kind>, row: Row): (r: Row)
    ensures |r| == |row| && forall i :: 0 <= i < |row| && i < |kinds| ==> r[i] == CutField(kinds[i], row[i])
  {
    seq(|row|, i requires 0 <= i < |row| => if i < |kinds| then CutField(kinds[i], row[i]) else row[i])
  }

  lemma SameFirst<T>(a: T, x: seq<T>, b: T, y: seq<T>)
    ensures [a] + x == [b] + y <==> a == b && x == y
  {
    if [a] + x == [b] + y {
      assert ([a] + x)[0] == a && ([a] + x)[1..] == x;
      assert ([b] + y)[0] == b && ([b] + y)[1..] == y;
    }
  }

  /** A row that is read is the row written, cut; and one that is read unchanged was clean. */
  lemma {:induction false} RowReads(kinds: seq<Kind>, row: Row, post: seq<Byte>)
    requires RowFits(kinds, row)
    ensures var r := DecodeRow(kinds, EncodeRow(kinds, row) + post);
            && (r.Some? ==> r.value == (CutRow(kinds, row), post))
            && (RowClean(kinds, row) <==> r == Some((row, post)))
  {
    hide EncodeField, DecodeField, Fits, Clean, CutField, CutRow, RowClean;
    if kinds == [] {
      assert EncodeRow(kinds, row) + post == post;
      assert CutRow(kinds, row) == [];
      CleanStep(kinds, row);
    } else {
      var first, more := EncodeField(kinds[0], row[0]), EncodeRow(kinds[1..], row[1..]);
      var s := EncodeRow(kinds, row) + post;
      assert s[..Size(kinds[0])] == first && s[Size(kinds[0])..] == more + post;
      FieldReads(kinds[0], row[0]);
      RowReads(kinds[1..], row[1..], post);
      CleanStep(kinds, row);
      CutStep(kinds, row);
      var v, rest := DecodeField(kinds[0], first), DecodeRow(kinds[1..], more + post);
      if v.Some? && rest.Some? {
        SameFirst(v.value, rest.value.0, row[0], row[1..]);
      }
    }
  }

  /** Cutting keeps a row whose texts it keeps. */
  lemma TextsKept(kinds: seq<Kind>, row: Row)
    requires forall i :: 0 <= i < |row| && row[i].Octets? ==> CutRow(kinds, row)[i] == row[i]
    ensures CutRow(kinds, row) == row
  {
    forall i | 0 <= i < |row|
      ensures CutRow(kinds, row)[i] == row[i]
    {
      assert row[i].Num? ==> CutRow(kinds, row)[i] == row[i];
    }
  }

  lemma CutStep(kinds: seq<Kind>, row: Row)
    requires |row| == |kinds| && kinds != []
    ensures row == [row[0]] + row[1..]
    ensures CutRow(kinds, row) == [CutField(kinds[0], row[0])] + CutRow(kinds[1..], row[1..])
  {
    hide CutField;
  }

  lemma CleanStep(kinds: seq<Kind>, row: Row)
    requires |row| == |kinds|
    ensures kinds == [] ==> RowClean(kinds, row)
    ensures kinds != [] ==> (RowClean(kinds, row) <==> Clean(kinds[0], row[0]) && RowClean(kinds[1..], row[1..]))
  {
    hide Clean;
    if kinds != [] && Clean(kinds[0], row[0]) && RowClean(kinds[1..], row[1..]) {
      forall i | 0 <= i < |kinds|
        ensures Clean(kinds[i], row[i])
      {
        if i > 0 { assert Clean(kinds[1..][i - 1], row[1..][i - 1]); }
      }
    }
  }

  /** A row is its first fields followed by the others. */
  lemma {:induction false} RowSplit(kinds: seq<Kind>, row: Row, j: nat)
    requires RowFits(kinds, row) && j <= |kinds|
    ensures EncodeRow(kinds, row) == EncodeRow(kinds[..j], row[..j]) + EncodeRow(kinds[j..], row[j..])
    decreases j
  {
    hide EncodeField;
    if j == 0 {
      assert kinds[j..] == kinds && row[j..] == row;
    } else {
      assert kinds[..j][1..] == kinds[1..][..j - 1] && row[..j][1..] == row[1..][..j - 1];
      assert kinds[1..][j - 1..] == kinds[j..] && row[1..][j - 1..] == row[j..];
      RowSplit(kinds[1..], row[1..], j - 1);
      var first := EncodeField(kinds[0], row[0]);
      Assoc(first, EncodeRow(kinds[1..][..j - 1], row[1..][..j - 1]), EncodeRow(kinds[j..], row[j..]));
    }
  }

  lemma Assoc(a: seq<Byte>, b: seq<Byte>, c: seq<Byte>)
    ensures a + (b + c) == a + b + c
  {}

  /** `t` lies in `s` at an offset. */
  ghost predicate Part(s: seq<Byte>, at: nat, t: seq<Byte>) {
    at + |t| <= |s| && s[at..at + |t|] == t
  }

  /** The bytes hold a number at an offset. */
  ghost predicate Holds(s: seq<Byte>, at: nat, n: nat, v: nat) {
    at + n <= |s| && Field(s, at, n) == v
  }

  lemma PartMiddle(a: seq<Byte>, b: seq<Byte>, c: seq<Byte>)
    ensures Part(a + (b + c), |a|, b)
  {}

  lemma PartOfPart(s: seq<Byte>, base: nat, t: seq<Byte>, at: nat, u: seq<Byte>)
    requires Part(s, base, t) && Part(t, at, u)
    ensures Part(s, base + at, u)
  {
    forall i | 0 <= i < |u|
      ensures s[base + at + i] == u[i]
    {
      assert s[base..base + |t|][at + i] == t[at + i] && t[at..at + |u|][i] == u[i];
    }
  }

  lemma PartHolds(s: seq<Byte>, at: nat, b: seq<Byte>)
    requires Part(s, at, b)
    ensures Holds(s, at, |b|, LeValue(b))
  {}

  /** Where a field of a row lies. */
  lemma FieldPlace(kinds: seq<Kind>, row: Row, j: nat)
    requires RowFits(kinds, row) && j < |kinds|
    ensures Part(EncodeRow(kinds, row), RowSize(kinds[..j]), EncodeField(kinds[j], row[j]))
  {
    RowSplit(kinds, row, j);
    hide EncodeField;
    var before, field, after := EncodeRow(kinds[..j], row[..j]), EncodeField(kinds[j], row[j]),
                                EncodeRow(kinds[j..][1..], row[j..][1..]);
    assert EncodeRow(kinds[j..], row[j..]) == field + after;
    hide EncodeRow, Part;
    PartMiddle(before, field, after);
  }

  lemma {:induction false} SizeSplit(a: seq<Kind>, b: seq<Kind>)
    ensures RowSize(a + b) == RowSize(a) + RowSize(b)
  {
    if a == [] {
      assert a + b == b;
    } else {
      assert (a + b)[1..] == a[1..] + b;
      SizeSplit(a[1..], b);
    }
  }

  /** One more field in front of a place. */
  lemma SizeStep(kinds: seq<Kind>, j: nat)
    requires j < |kinds|
    ensures RowSize(kinds[..j + 1]) == RowSize(kinds[..j]) + Size(kinds[j])
  {
    assert kinds[..j + 1] == kinds[..j] + [kinds[j]];
    SizeSplit(kinds[..j], [kinds[j]]);
  }

  /** A row that was read is what its fields read, each at its place. */
  lemma {:induction false} DecodedField(kinds: seq<Kind>, s: seq<Byte>, j: nat)
    requires DecodeRow(kinds, s).Some? && j < |kinds|
    ensures |DecodeRow(kinds, s).value.0| == |kinds|
    ensures var at := RowSize(kinds[..j]);
            at + Size(kinds[j]) <= |s|
            && DecodeField(kinds[j], s[at..at + Size(kinds[j])]) == Some(DecodeRow(kinds, s).value.0[j])
    decreases |kinds|
  {
    hide DecodeField;
    var size, tail := Size(kinds[0]), s[Size(kinds[0])..];
    if j == 0 {
      if |kinds| > 1 { DecodedField(kinds[1..], tail, 0); }
    } else {
      DecodedField(kinds[1..], tail, j - 1);
      assert kinds[..j][1..] == kinds[1..][..j - 1] && kinds[..j][0] == kinds[0];
      var at := RowSize(kinds[1..][..j - 1]);
      assert tail[at..at + Size(kinds[j])] == s[size + at..size + at + Size(kinds[j])];
    }
  }

  /** Rewriting a field in place rewrites the row. */
  lemma FieldPut(kinds: seq<Kind>, row: Row, j: nat, v: Value, post: seq<Byte>)
    requires RowFits(kinds, row) && j < |kinds| && Fits(kinds[j], v)
    ensures RowFits(kinds, row[j := v]) && RowSize(kinds[..j]) + Size(kinds[j]) <= RowSize(kinds)
    ensures Put(EncodeRow(kinds, row) + post, RowSize(kinds[..j]), EncodeField(kinds[j], v))
         == EncodeRow(kinds, row[j := v]) + post
  {
    var row' := row[j := v];
    RowSplit(kinds, row, j);
    RowSplit(kinds, row', j);
    hide EncodeField;
    assert row'[..j] == row[..j] && row'[j..][1..] == row[j..][1..];
    var a, b, c := EncodeRow(kinds[..j], row[..j]), EncodeField(kinds[j], row[j]),
                   EncodeRow(kinds[j..][1..], row[j..][1..]);
    var b' := EncodeField(kinds[j], v);
    assert EncodeRow(kinds[j..], row[j..]) == b + c && EncodeRow(kinds[j..], row'[j..]) == b' + c;
    hide EncodeRow;
    PutMiddle(a, b, b', c, post);
  }

  lemma PutMiddle(a: seq<Byte>, b: seq<Byte>, b': seq<Byte>, c: seq<Byte>, post: seq<Byte>)
    requires |b| == |b'|
    ensures Put(a + (b + c) + post, |a|, b') == a + (b' + c) + post
  {}

  // ----- Tables -----

  ghost predicate TableFits(kinds: seq<Kind>, rows: seq<Row>) {
    forall i :: 0 <= i < |rows| ==> RowFits(kinds, rows[i])
  }

  function EncodeTable(kinds: seq<Kind>, rows: seq<Row>): (s: seq<Byte>)
    requires TableFits(kinds, rows)
  {
    if rows == [] then [] else EncodeRow(kinds, rows[0]) + EncodeTable(kinds, rows[1..])
  }

  lemma {:induction false} TableSize(kinds: seq<Kind>, rows: seq<Row>)
    requires TableFits(kinds, rows)
    ensures |EncodeTable(kinds, rows)| == |rows| * RowSize(kinds)
  {
    if rows != [] {
      TableSize(kinds, rows[1..]);
      OneMoreRow(|rows| - 1, RowSize(kinds));
    }
  }

  lemma OneMoreRow(n: nat, size: nat)
    ensures n * size + size == (n + 1) * size
  {}

  function DecodeTable(kinds: seq<Kind>, n: nat, s: seq<Byte>): Option<(seq<Row>, seq<Byte>)> {
    if n == 0 then Some(([], s))
    else
      var first := DecodeRow(kinds, s);
      if first.None? then None
      else
        var rest := DecodeTable(kinds, n - 1, first.value.1);
        if rest.None? then None else Some(([first.value.0] + rest.value.0, rest.value.1))
  }

  ghost predicate TableClean(kinds: seq<Kind>, rows: seq<Row>) {
    forall i :: 0 <= i < |rows| ==> RowClean(kinds, rows[i])
  }

  function CutTable(kinds: seq<Kind>, rows: seq<Row>): (r: seq<Row>)
    ensures |r| == |rows| && forall i :: 0 <= i < |rows| ==> r[i] == CutRow(kinds, rows[i])
  {
    seq(|rows|, i requires 0 <= i < |rows| => CutRow(kinds, rows[i]))
  }

  lemma {:induction false} TableReads(kinds: seq<Kind>, rows: seq<Row>, post: seq<Byte>)
    requires TableFits(kinds, rows)
    ensures var r := DecodeTable(kinds, |rows|, EncodeTable(kinds, rows) + post);
            && (r.Some? ==> r.value == (CutTable(kinds, rows), post))
            && (TableClean(kinds, rows) <==> r == Some((rows, post)))
  {
    hide EncodeRow, DecodeRow, CutTable, TableClean, RowFits;
    TableCleanStep(kinds, rows);
    TableCutStep(kinds, rows);
    if rows == [] {
      assert EncodeTable(kinds, rows) + post == post;
    } else {
      var first, more := EncodeRow(kinds, rows[0]), EncodeTable(kinds, rows[1..]);
      assert EncodeTable(kinds, rows) + post == first + (more + post);
      RowReads(kinds, rows[0], more + post);
      TableReads(kinds, rows[1..], post);
      var row, rest := DecodeRow(kinds, first + (more + post)), DecodeTable(kinds, |rows| - 1, more + post);
      if row.Some? && rest.Some? { SameFirst(row.value.0, rest.value.0, rows[0], rows[1..]); }
    }
  }

  lemma TableCutStep(kinds: seq<Kind>, rows: seq<Row>)
    ensures rows == [] ==> CutTable(kinds, rows) == []
    ensures rows != [] ==> rows == [rows[0]] + rows[1..]
    ensures rows != [] ==> CutTable(kinds, rows) == [CutRow(kinds, rows[0])] + CutTable(kinds, rows[1..])
  {
    hide CutRow;
  }

  lemma TableCleanStep(kinds: seq<Kind>, rows: seq<Row>)
    ensures rows == [] ==> TableClean(kinds, rows)
    ensures rows != [] ==> (TableClean(kinds, rows) <==> RowClean(kinds, rows[0]) && TableClean(kinds, rows[1..]))
  {
    hide RowClean;
    if rows != [] && RowClean(kinds, rows[0]) && TableClean(kinds, rows[1..]) {
      forall i | 0 <= i < |rows|
        ensures RowClean(kinds, rows[i])
      {
        if i > 0 { assert RowClean(kinds, rows[1..][i - 1]); }
      }
    }
  }

  /** Where a row of a table lies. */
  function RowAt(kinds: seq<Kind>, i: nat): nat { i * RowSize(kinds) }

  lemma FirstRow(kinds: seq<Kind>, rows: seq<Row>)
    requires TableFits(kinds, rows) && rows != []
    ensures RowFits(kinds, rows[0]) && TableFits(kinds, rows[1..])
    ensures EncodeTable(kinds, rows) == EncodeRow(kinds, rows[0]) + EncodeTable(kinds, rows[1..])
  {
    hide RowFits;
  }

  lemma {:induction false} RowPlace(kinds: seq<Kind>, rows: seq<Row>, i: nat)
    requires TableFits(kinds, rows) && i < |rows|
    ensures Part(EncodeTable(kinds, rows), RowAt(kinds, i), EncodeRow(kinds, rows[i]))
    decreases i
  {
    hide EncodeRow, EncodeTable, TableFits, RowFits, RowSize, Part;
    FirstRow(kinds, rows);
    TableRow(kinds, rows, i);
    var first, more := EncodeRow(kinds, rows[0]), EncodeTable(kinds, rows[1..]);
    if i == 0 {
      PartFront(first, more);
    } else {
      RowPlace(kinds, rows[1..], i - 1);
      OneMoreRow(i - 1, RowSize(kinds));
      assert rows[1..][i - 1] == rows[i];
      PlaceBehind(first, more, RowAt(kinds, i - 1), EncodeRow(kinds, rows[i]));
    }
  }

  lemma PartBehind(a: seq<Byte>, b: seq<Byte>)
    ensures Part(a + b, |a|, b)
  {}

  /** A number of a row is found at its column. */
  lemma CellPlace(kinds: seq<Kind>, row: Row, j: nat, s: seq<Byte>, base: nat)
    requires RowFits(kinds, row) && j < |kinds| && kinds[j].Number? && Part(s, base, EncodeRow(kinds, row))
    ensures |row| == |kinds| && row[j].Num? && Holds(s, base + RowSize(kinds[..j]), kinds[j].size, row[j].num)
  {
    hide *;
    CellFits(kinds, row, j);
    NumberField(kinds[j], row[j]);
    var b := LeBytes(row[j].num, kinds[j].size);
    FieldPlace(kinds, row, j);
    PartOfPart(s, base, EncodeRow(kinds, row), RowSize(kinds[..j]), b);
    PartHolds(s, base + RowSize(kinds[..j]), b);
  }

  lemma CellFits(kinds: seq<Kind>, row: Row, j: nat)
    requires RowFits(kinds, row) && j < |kinds|
    ensures |row| == |kinds| && Fits(kinds[j], row[j])
  {}

  lemma NumberField(k: Kind, v: Value)
    requires Fits(k, v) && k.Number?
    ensures v.Num? && EncodeField(k, v) == LeBytes(v.num, k.size) && LeValue(LeBytes(v.num, k.size)) == v.num
  {
    LeRoundTrip(v.num, k.size);
  }

  lemma TableRow(kinds: seq<Kind>, rows: seq<Row>, i: nat)
    requires TableFits(kinds, rows) && i < |rows|
    ensures RowFits(kinds, rows[i])
  {}

  /** A number of a table is found at its row and column. */
  lemma NumberPlace(kinds: seq<Kind>, rows: seq<Row>, i: nat, j: nat, s: seq<Byte>, base: nat)
    requires TableFits(kinds, rows) && i < |rows| && j < |kinds| && kinds[j].Number?
             && Part(s, base, EncodeTable(kinds, rows))
    ensures |rows[i]| == |kinds| && rows[i][j].Num?
    ensures Holds(s, base + RowAt(kinds, i) + RowSize(kinds[..j]), kinds[j].size, rows[i][j].num)
  {
    hide *;
    TableRow(kinds, rows, i);
    RowPlace(kinds, rows, i);
    PartOfPart(s, base, EncodeTable(kinds, rows), RowAt(kinds, i), EncodeRow(kinds, rows[i]));
    CellPlace(kinds, rows[i], j, s, base + RowAt(kinds, i));
  }

  // ----- Sections: tables one after the other -----

  datatype Table = Table(kinds: seq<Kind>, rows: seq<Row>)

  ghost predicate TablesFit(tables: seq<Table>) {
    forall i :: 0 <= i < |tables| ==> TableFits(tables[i].kinds, tables[i].rows)
  }

  function EncodeTables(tables: seq<Table>): seq<Byte>
    requires TablesFit(tables)
  {
    if tables == [] then [] else EncodeTable(tables[0].kinds, tables[0].rows) + EncodeTables(tables[1..])
  }

  /** The kinds and the number of rows of each table. */
  type Shape = seq<(seq<Kind>, nat)>

  function ShapeOf(tables: seq<Table>): (shape: Shape)
    ensures |shape| == |tables|
  {
    seq(|tables|, i requires 0 <= i < |tables| => (tables[i].kinds, |tables[i].rows|))
  }

  function DecodeTables(shape: Shape, s: seq<Byte>): Option<(seq<seq<Row>>, seq<Byte>)> {
    if shape == [] then Some(([], s))
    else
      var first := DecodeTable(shape[0].0, shape[0].1, s);
      if first.None? then None
      else
        var rest := DecodeTables(shape[1..], first.value.1);
        if rest.None? then None else Some(([first.value.0] + rest.value.0, rest.value.1))
  }

  function RowsOf(tables: seq<Table>): (rows: seq<seq<Row>>)
    ensures |rows| == |tables| && forall i :: 0 <= i < |tables| ==> rows[i] == tables[i].rows
  {
    seq(|tables|, i requires 0 <= i < |tables| => tables[i].rows)
  }

  ghost predicate TablesClean(tables: seq<Table>) {
    forall i :: 0 <= i < |tables| ==> TableClean(tables[i].kinds, tables[i].rows)
  }

  function CutTables(tables: seq<Table>): (r: seq<seq<Row>>)
    ensures |r| == |tables| && forall i :: 0 <= i < |tables| ==> r[i] == CutTable(tables[i].kinds, tables[i].rows)
  {
    seq(|tables|, i requires 0 <= i < |tables| => CutTable(tables[i].kinds, tables[i].rows))
  }

  /** A section that is read is the section written, cut; and one that is read unchanged was clean. */
  lemma {:induction false} TablesRead(tables: seq<Table>, post: seq<Byte>)
    requires TablesFit(tables)
    ensures var r := DecodeTables(ShapeOf(tables), EncodeTables(tables) + post);
            && (r.Some? ==> r.value == (CutTables(tables), post))
            && (TablesClean(tables) <==> r == Some((RowsOf(tables), post)))
  {
    hide EncodeTable, DecodeTable, CutTables, TablesClean, TableFits, RowsOf, ShapeOf;
    TablesCleanStep(tables);
    TablesCutStep(tables);
    RowsOfStep(tables);
    ShapeOfStep(tables);
    if tables == [] {
      assert EncodeTables(tables) + post == post;
    } else {
      var first, more := EncodeTable(tables[0].kinds, tables[0].rows), EncodeTables(tables[1..]);
      assert EncodeTables(tables) + post == first + (more + post);
      TableReads(tables[0].kinds, tables[0].rows, more + post);
      TablesRead(tables[1..], post);
      var rows, rest := DecodeTable(tables[0].kinds, |tables[0].rows|, first + (more + post)),
                        DecodeTables(ShapeOf(tables[1..]), more + post);
      if rows.Some? && rest.Some? { SameFirst(rows.value.0, rest.value.0, tables[0].rows, RowsOf(tables[1..])); }
    }
  }

  lemma TablesCutStep(tables: seq<Table>)
    ensures tables == [] ==> CutTables(tables) == []
    ensures tables != [] ==>
              CutTables(tables) == [CutTable(tables[0].kinds, tables[0].rows)] + CutTables(tables[1..])
  {
    hide CutTable;
  }

  lemma RowsOfStep(tables: seq<Table>)
    ensures tables == [] ==> RowsOf(tables) == []
    ensures tables != [] ==> RowsOf(tables) == [tables[0].rows] + RowsOf(tables[1..])
  {}

  lemma ShapeOfStep(tables: seq<Table>)
    ensures tables == [] ==> ShapeOf(tables) == []
    ensures tables != [] ==> ShapeOf(tables) != [] && ShapeOf(tables)[0] == (tables[0].kinds, |tables[0].rows|)
    ensures tables != [] ==> ShapeOf(tables)[1..] == ShapeOf(tables[1..])
  {}

  lemma TablesCleanStep(tables: seq<Table>)
    ensures tables == [] ==> TablesClean(tables)
    ensures tables != [] ==>
              (TablesClean(tables) <==> TableClean(tables[0].kinds, tables[0].rows) && TablesClean(tables[1..]))
  {
    hide TableClean;
    if tables != [] && TableClean(tables[0].kinds, tables[0].rows) && TablesClean(tables[1..]) {
      forall i | 0 <= i < |tables|
        ensures TableClean(tables[i].kinds, tables[i].rows)
      {
        if i > 0 { assert TableClean(tables[1..][i - 1].kinds, tables[1..][i - 1].rows); }
      }
    }
  }

  /** The bytes a section takes. */
  function ShapeSize(shape: Shape): nat {
    if shape == [] then 0 else shape[0].1 * RowSize(shape[0].0) + ShapeSize(shape[1..])
  }

  lemma {:induction false} TablesSize(tables: seq<Table>)
    requires TablesFit(tables)
    ensures |EncodeTables(tables)| == ShapeSize(ShapeOf(tables))
  {
    if tables != [] {
      TableSize(tables[0].kinds, tables[0].rows);
      TablesSize(tables[1..]);
      assert ShapeOf(tables)[1..] == ShapeOf(tables[1..]);
    }
  }

  lemma {:induction false} ShapeStep(shape: Shape, k: nat)
    requires k < |shape|
    ensures ShapeSize(shape[..k + 1]) == ShapeSize(shape[..k]) + shape[k].1 * RowSize(shape[k].0)
    decreases k
  {
    if k > 0 {
      ShapeStep(shape[1..], k - 1);
      assert shape[..k + 1][1..] == shape[1..][..k] && shape[..k][1..] == shape[1..][..k - 1];
    }
  }

  lemma NoShape(shape: Shape)
    ensures ShapeSize(shape[..0]) == 0
  {}

  lemma ShapeFront(shape: Shape, k: nat)
    requires 0 < k <= |shape|
    ensures ShapeSize(shape[..k]) == shape[0].1 * RowSize(shape[0].0) + ShapeSize(shape[1..][..k - 1])
  {
    assert shape[..k][1..] == shape[1..][..k - 1];
  }

  lemma PlaceBehind(a: seq<Byte>, b: seq<Byte>, at: nat, u: seq<Byte>)
    requires Part(b, at, u)
    ensures Part(a + b, |a| + at, u)
  {
    hide Part;
    PartBehind(a, b);
    PartOfPart(a + b, |a|, b, at, u);
  }

  lemma PartFront(a: seq<Byte>, b: seq<Byte>)
    ensures Part(a + b, 0, a)
  {}

  lemma FirstTable(tables: seq<Table>)
    requires TablesFit(tables) && tables != []
    ensures TableFits(tables[0].kinds, tables[0].rows) && TablesFit(tables[1..])
    ensures EncodeTables(tables) == EncodeTable(tables[0].kinds, tables[0].rows) + EncodeTables(tables[1..])
  {
    hide TableFits;
  }

  lemma TableFit(tables: seq<Table>, k: nat)
    requires TablesFit(tables) && k < |tables|
    ensures TableFits(tables[k].kinds, tables[k].rows)
  {
    hide TableFits;
  }

  /** Where a table of a section lies. */
  lemma {:induction false} TablePlace(tables: seq<Table>, k: nat)
    requires TablesFit(tables) && k < |tables|
    ensures Part(EncodeTables(tables), ShapeSize(ShapeOf(tables)[..k]), EncodeTable(tables[k].kinds, tables[k].rows))
    decreases k
  {
    hide EncodeTable, EncodeTables, TablesFit, TableFits, RowSize, ShapeOf, ShapeSize, Part;
    FirstTable(tables);
    TableFit(tables, k);
    var first, more := EncodeTable(tables[0].kinds, tables[0].rows), EncodeTables(tables[1..]);
    ShapeOfStep(tables);
    if k == 0 {
      NoShape(ShapeOf(tables));
      PartFront(first, more);
    } else {
      TablePlace(tables[1..], k - 1);
      ShapeFront(ShapeOf(tables), k);
      TableSize(tables[0].kinds, tables[0].rows);
      assert tables[1..][k - 1] == tables[k];
      PlaceBehind(first, more, ShapeSize(ShapeOf(tables[1..])[..k - 1]), EncodeTable(tables[k].kinds, tables[k].rows));
    }
  }

  lemma TablePart(tables: seq<Table>, k: nat, s: seq<Byte>, base: nat)
    requires TablesFit(tables) && k < |tables| && Part(s, base, EncodeTables(tables))
    ensures var t := tables[k];
            && TableFits(t.kinds, t.rows) && |EncodeTable(t.kinds, t.rows)| == |t.rows| * RowSize(t.kinds)
            && Part(s, base + ShapeSize(ShapeOf(tables)[..k]), EncodeTable(t.kinds, t.rows))
  {
    var t := tables[k];
    TableSize(t.kinds, t.rows);
    hide EncodeTable, EncodeTables, TableFits, Part, RowSize, ShapeSize, ShapeOf;
    TablePlace(tables, k);
    PartOfPart(s, base, EncodeTables(tables), ShapeSize(ShapeOf(tables)[..k]), EncodeTable(t.kinds, t.rows));
  }
}
