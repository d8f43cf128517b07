/** The kernel's budget of runtime objects, which the boot compiler does not check. */
module BootBudget {
  import opened Buffers
  import opened Bytes
  import opened Results
  import opened Text
  import opened Wire
  import opened BootRecords
  import opened BootPayload
  import opened BootRoundTrip

  lemma LimitsSplit(p: Payload)
    ensures WithinLimits(p) <==> CompilerLimits(p) && BudgetOk(HeadRow(p, 0))
  {
    HeadCells(p, 0);
    hide HeadRow, PolicyHeadRow, PolicyHeadOk, ProcessOk, BudgetOk, EachWithin, NumAt, TextAt;
  }

  /** Of the payloads the compiler's own limits let through, the kernel reads back exactly those within the budget. */
  lemma BudgetDecides(p: Payload, digest: seq<Byte> -> Str)
    requires PayloadFits(p, digest) && PayloadClean(p, digest) && CompilerLimits(p)
    ensures ReadBody(Body(p, digest), digest) == Some(p) <==> BudgetOk(HeadRow(p, 0))
  {
    hide PayloadFits, PayloadClean, CompilerLimits, WithinLimits, ReadBody, Body, BudgetOk, HeadRow;
    PayloadRoundTrip(p, digest);
    LimitsSplit(p);
  }

  // ----- A crowded payload -----

  function Letter(i: nat): Str {
    if i < 60 then [65 + i] else [65]
  }

  function Many<X>(n: nat, record: nat -> X): (r: seq<X>)
    ensures |r| == n && forall i :: 0 <= i < n ==> r[i] == record(i)
  {
    seq(n, i requires 0 <= i < n => record(i))
  }

  const ONE: Process := Process(Letter(0), Letter(1), true, 0, Letter(2), [], Letter(3), [], [], [], [])

  /** One process, and as many endpoints, stores, ports and device ranges as the compiler allows. */
  function Crowded(): Payload {
    Payload(Letter(0), [], [BootModule(Letter(0), Letter(1))],
            [ONE], Many(16, i => Endpoint(Letter(i))), [],
            Many(32, i => StoreObject(Letter(i), Letter(0), Letter(0), 0)), [],
            Many(4, i => NetworkPort(Letter(i))), Many(4, i => DeviceRange(Letter(i), 0, 1)),
            Many(4, i => DeviceRange(Letter(i), 0, 1)), [Framebuffer(Letter(0))],
            [], [], [], [], [], [], [], [], [], [], [], [], [], [])
  }

  lemma LettersOk(i: nat)
    ensures Fits(Name, T(Letter(i))) && Clean(Name, T(Letter(i)))
  {}

  ghost predicate RowOk(kinds: seq<Kind>, row: Row) {
    RowFits(kinds, row) && RowClean(kinds, row)
  }

  /** The rows of the records a crowded payload has. */
  lemma RecordsOk(i: nat)
    ensures RowOk(BOOT_MODULE, ModuleRow(BootModule(Letter(0), Letter(1))))
      && RowOk(ENDPOINT, EndpointRow(Endpoint(Letter(i))))
    ensures RowOk(STORE_OBJECT, StoreRow(StoreObject(Letter(i), Letter(0), Letter(0), 0)))
    ensures RowOk(NETWORK_PORT, PortRow(NetworkPort(Letter(i))))
      && RowOk(FRAMEBUFFER, FramebufferRow(Framebuffer(Letter(0))))
    ensures RowOk(DEVICE_RANGE, RangeRow(DeviceRange(Letter(i), 0, 1)))
  {
    LettersOk(i);
    LettersOk(0);
    LettersOk(1);
    assert Pow256(8) > 1;
    hide Letter;
  }

  lemma RowsJoin(k: seq<Kind>, a: Row, l: seq<Kind>, b: Row)
    requires RowOk(k, a) && RowOk(l, b)
    ensures RowOk(k + l, a + b)
  {
    hide Fits, Clean;
    var kinds, row := k + l, a + b;
    forall i | 0 <= i < |kinds|
      ensures Fits(kinds[i], row[i]) && Clean(kinds[i], row[i])
    {
      if i >= |k| { assert kinds[i] == l[i - |k|] && row[i] == b[i - |k|]; }
    }
  }

  const BASE: seq<Kind> := [Name, Name, U16, U16, Name, Label, Name]
  const MOUNTS: seq<Kind> := [U16] + MOUNT_KINDS + MOUNT_KINDS + MOUNT_KINDS + MOUNT_KINDS

  lemma BaseOk()
    ensures RowOk(BASE, BaseRow(ONE))
  {
    LettersOk(0);
    LettersOk(1);
    LettersOk(2);
    LettersOk(3);
    hide Letter;
    assert Pow256(2) == 65536;
  }

  lemma PartsOk()
    ensures RowOk(MOUNTS, MountList([])) && RowOk([U16] + REF_KINDS, RefList([]))
  {
    assert Pow256(2) == 65536;
    hide Pow256;
  }

  lemma RequirementsOk()
    ensures RowOk([U16] + REF_KINDS + REF_KINDS, RequirementList([]))
  {
    assert Pow256(2) == 65536;
    hide Pow256;
  }

  lemma ProcessRowOk()
    ensures RowOk(PROCESS, ProcessRow(ONE))
  {
    hide RowOk, BaseRow, MountList, RefList, RequirementList;
    BaseOk();
    PartsOk();
    RequirementsOk();
    RowsJoin(BASE, BaseRow(ONE), MOUNTS, MountList([]));
    RowsJoin(BASE + MOUNTS, BaseRow(ONE) + MountList([]), [U16] + REF_KINDS, RefList([]));
    RowsJoin(BASE + MOUNTS + ([U16] + REF_KINDS), BaseRow(ONE) + MountList([]) + RefList([]),
             [U16] + REF_KINDS + REF_KINDS, RequirementList([]));
    RowsJoin(BASE + MOUNTS + ([U16] + REF_KINDS) + ([U16] + REF_KINDS + REF_KINDS),
             BaseRow(ONE) + MountList([]) + RefList([]) + RequirementList([]), [U16] + REF_KINDS, RefList([]));
  }

  /** Tables of fitting, clean rows. */
  ghost predicate AllOk(tables: seq<Table>) {
    forall i, j :: 0 <= i < |tables| && 0 <= j < |tables[i].rows| ==> RowOk(tables[i].kinds, tables[i].rows[j])
  }

  lemma TablesOk(tables: seq<Table>)
    requires AllOk(tables)
    ensures TablesFit(tables) && TablesClean(tables)
  {
    hide RowFits, RowClean;
    forall i, j | 0 <= i < |tables| && 0 <= j < |tables[i].rows|
      ensures RowFits(tables[i].kinds, tables[i].rows[j]) && RowClean(tables[i].kinds, tables[i].rows[j])
    {
      assert RowOk(tables[i].kinds, tables[i].rows[j]);
    }
  }

  lemma CrowdedTables()
    ensures AllOk(FirstTables(Crowded())) && AllOk(RootTable(Crowded())) && AllOk(GraphTables(Crowded()))
    ensures AllOk(PolicyTables(Crowded()))
  {
    var p := Crowded();
    var tables := FirstTables(p);
    hide RowOk, ModuleRow, ProcessRow, EndpointRow, StoreRow, PortRow, RangeRow, FramebufferRow, Letter;
    ProcessRowOk();
    forall i, j | 0 <= i < |tables| && 0 <= j < |tables[i].rows|
      ensures RowOk(tables[i].kinds, tables[i].rows[j])
    {
      RecordsOk(j);
    }
  }

  lemma {:induction false} NoRows(tables: seq<Table>)
    requires TablesFit(tables) && forall i :: 0 <= i < |tables| ==> tables[i].rows == []
    ensures EncodeTables(tables) == []
  {
    if tables != [] { NoRows(tables[1..]); }
  }

  const EIGHT: seq<Kind> := [U16, U16, U16, U16, U16, U16, U16, U16]
  const FRONT: seq<Kind> := [Raw(16), U16]
  const BACK: seq<Kind> := [Name, Label, U16, U16, Number(4)]

  lemma EightOk(a: nat, b: nat, c: nat, d: nat, e: nat, f: nat, g: nat, h: nat)
    requires a < 65536 && b < 65536 && c < 65536 && d < 65536 && e < 65536 && f < 65536 && g < 65536 && h < 65536
    ensures RowOk(EIGHT, [N(a), N(b), N(c), N(d), N(e), N(f), N(g), N(h)])
  {
    assert Pow256(2) == 65536;
    hide Pow256;
  }

  lemma EndsOk(checksum: nat)
    requires checksum < 0x1_0000_0000
    ensures RowOk(FRONT, [T(COMPACT_MAGIC), N(COMPACT_VERSION)])
    ensures RowOk(BACK, [T(Letter(0)), T([]), N(0), N(0), N(checksum)])
  {
    LettersOk(0);
    assert Pow256(2) == 65536 && Pow256(4) == 0x1_0000_0000;
    hide Pow256, Letter;
  }

  lemma CrowdedHead(checksum: nat)
    requires checksum < 0x1_0000_0000
    ensures RowOk(HEAD, HeadRow(Crowded(), checksum))
  {
    var front: Row := [T(COMPACT_MAGIC), N(COMPACT_VERSION)];
    var first: Row := [N(1), N(1), N(16), N(0), N(32), N(0), N(4), N(4)];
    var second: Row := [N(4), N(1), N(0), N(0), N(0), N(0), N(0), N(0)];
    var back: Row := [T(Letter(0)), T([]), N(0), N(0), N(checksum)];
    assert HeadRow(Crowded(), checksum) == front + first + second + back;
    assert HEAD == FRONT + EIGHT + EIGHT + BACK;
    hide RowOk, Letter, Crowded, HeadRow;
    EndsOk(checksum);
    EightOk(1, 1, 16, 0, 32, 0, 4, 4);
    EightOk(4, 1, 0, 0, 0, 0, 0, 0);
    RowsJoin(FRONT, front, EIGHT, first);
    RowsJoin(FRONT + EIGHT, front + first, EIGHT, second);
    RowsJoin(FRONT + EIGHT + EIGHT, front + first + second, BACK, back);
  }

  lemma CrowdedPolicy(hash: Str)
    requires Fits(Name, T(hash)) && Clean(Name, T(hash))
    ensures RowOk(POLICY_HEAD, PolicyHeadRow(Crowded(), hash))
  {
    assert Pow256(2) == 65536;
    hide Pow256, Letter, Many;
  }

  lemma CrowdedCounts()
    ensures CompilerLimits(Crowded()) && !BudgetOk(HeadRow(Crowded(), 0))
  {
    var p := Crowded();
    HeadCells(p, 0);
    hide HeadRow, Letter;
  }

  /** The compiler lets this payload through; the kernel has no room for its objects. */
  lemma OverBudget(digest: seq<Byte> -> Str)
    requires Fits(Name, T(digest([]))) && Clean(Name, T(digest([])))
    ensures PayloadFits(Crowded(), digest) && PayloadClean(Crowded(), digest) && CompilerLimits(Crowded())
    ensures ReadBody(Body(Crowded(), digest), digest) != Some(Crowded())
  {
    var p := Crowded();
    assert p.namespaces == [] && p.capabilities == [] && p.requirements == [] && p.provisions == [];
    assert p.mounts == [] && p.statePaths == [] && p.bootstraps == [];
    CrowdedCounts();
    CrowdedTables();
    NoRows(PolicyTables(p));
    hide Crowded, FirstTables, RootTable, GraphTables, PolicyTables, AllOk, TablesFit, TablesClean, HeadRow,
         PolicyHeadRow, EncodeTables, Checksum, RowFits, RowClean, Fits, Clean, CompilerLimits, BudgetOk, ReadBody,
         Body;
    TablesOk(FirstTables(p));
    TablesOk(RootTable(p));
    TablesOk(GraphTables(p));
    TablesOk(PolicyTables(p));
    CrowdedHead(Checksum(EncodeTables(GraphTables(p))));
    CrowdedHead(0);
    CrowdedPolicy(digest([]));
    BudgetDecides(p, digest);
  }
}
