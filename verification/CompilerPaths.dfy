/** The state-path facts the boot compiler derives from VFS-root grants. */
module CompilerPaths {
  import opened Results
  import opened BootRecords
  import opened FactTables
  import opened PolicyTerms
  import opened CompilerFacts

  // ----- State volumes under a VFS root -----

  /** The compiler's own reading of a volume's mount name: the prefix is optional. */
  function LooseComponent(id: Str): Str {
    var name := StripPrefix(id, STATE_PREFIX);
    if name.Some? then name.value else id
  }

  predicate RootReads(root: Str) {
    root == STATE_PATH || (var rest := StripPrefix(root, STATE_DIR); rest.Some? ==> FirstComponent(rest.value) != [])
  }

  predicate Reaches(root: Str, state: Str) {
    root == STATE_PATH
    || (var rest := StripPrefix(root, STATE_DIR); rest.Some? && LooseComponent(state) == FirstComponent(rest.value))
  }

  /** On volumes with proper ids, the compiler and the kernel agree about what a root reaches. */
  lemma SameReach(root: Str, state: Str)
    requires MountComponent(state).Some?
    ensures CoveredBy(root, state) == Some(Reaches(root, state))
  {}

  // ----- Facts -----

  function ProcessNamed(processes: seq<Process>, name: Str): (r: Option<nat>)
    ensures r.Some? ==> r.value < |processes| && processes[r.value].name == name && forall j :: 0 <= j < r.value ==>
          processes[j].name != name
    ensures r.None? ==> forall j :: 0 <= j < |processes| ==> processes[j].name != name
  {
    if processes == [] then None
    else if processes[0].name == name then Some(0)
    else
      var rest := ProcessNamed(processes[1..], name);
      if rest.None? then None else Some(rest.value + 1)
  }

  /** The compiler's graph name of a process. */
  function NodeId(x: Process): Str {
    if x.serviceId == [] then PROC_PREFIX + x.name else x.serviceId
  }

  function VolumeGift(state: Str, service: Str, root: Str, rights: nat): PathTable {
    if Reaches(root, state) then [Entry(PathKey(service, state, root), rights)] else []
  }

  function VolumeGifts(states: seq<StateVolume>, service: Str, root: Str, rights: nat): PathTable {
    if states == [] then []
    else
      VolumeGifts(states[..|states| - 1], service, root, rights)
      + VolumeGift(states[|states| - 1].id, service, root, rights)
  }

  /** The process and the root of a VFS-root grant, where the plan has both. */
  function RootOf(plan: Plan, g: PlanGrant): Option<Str> {
    var root := RootIndex(plan.objects.roots, g.objectName);
    if root.None? then None else Some(plan.objects.roots[root.value].rootPath)
  }

  predicate PathReads(plan: Plan, g: PlanGrant) {
    g.objectKind == OBJECT_VFS_ROOT && ProcessNamed(plan.processes, g.process).Some? ==>
      RootOf(plan, g).Some? && RootReads(RootOf(plan, g).value)
  }

  function PathGift(plan: Plan, g: PlanGrant): PathTable {
    var x, root := ProcessNamed(plan.processes, g.process), RootOf(plan, g);
    if g.objectKind != OBJECT_VFS_ROOT || x.None? || root.None? then []
    else VolumeGifts(plan.states, NodeId(plan.processes[x.value]), root.value, g.rights)
  }

  function PathGifts(plan: Plan, grants: seq<PlanGrant>): PathTable {
    if grants == [] then [] else PathGifts(plan, grants[..|grants| - 1]) + PathGift(plan, grants[|grants| - 1])
  }

  method AddVolumes(states: seq<StateVolume>, service: Str, root: Str, rights: nat, table: PathTable,
                    ghost xs: PathTable)
    returns (r: PathTable)
    requires table == MergedAll([], xs)
    ensures r == MergedAll([], xs + VolumeGifts(states, service, root, rights))
  {
    hide MergedAll, Reaches;
    r := table;
    var i := 0;
    assert xs + VolumeGifts(states[..0], service, root, rights) == xs;
    while i < |states|
      invariant i <= |states| && r == MergedAll([], xs + VolumeGifts(states[..i], service, root, rights))
    {
      VolumeStep(states, service, root, rights, xs, i);
      if Reaches(root, states[i].id) {
        var x := Entry(PathKey(service, states[i].id, root), rights);
        r := Push(r, x);
        MergedNext(xs + VolumeGifts(states[..i], service, root, rights), x);
      }
      i := i + 1;
    }
    assert states[..i] == states;
  }

  lemma VolumeStep(states: seq<StateVolume>, service: Str, root: Str, rights: nat, xs: PathTable, i: nat)
    requires i < |states|
    ensures xs + VolumeGifts(states[..i + 1], service, root, rights)
         == xs + VolumeGifts(states[..i], service, root, rights) + VolumeGift(states[i].id, service, root, rights)
    ensures VolumeGift(states[i].id, service, root, rights) == [] ==>
              xs + VolumeGifts(states[..i + 1], service, root, rights) == xs
              + VolumeGifts(states[..i], service, root, rights)
  {
    hide VolumeGift;
    assert states[..i + 1][..i] == states[..i];
  }

  method AddStatePathFacts(plan: Plan) returns (r: Option<PathTable>)
    ensures r.Some? <==> forall i :: 0 <= i < |plan.grants| ==> PathReads(plan, plan.grants[i])
    ensures r.Some? ==> r.value == MergedAll([], PathGifts(plan, plan.grants))
  {
    hide MergedAll, RootReads, RootOf, VolumeGifts, ProcessNamed, NodeId, PathGifts;
    NoPaths(plan);
    var table: PathTable, i := [], 0;
    while i < |plan.grants|
      invariant i <= |plan.grants| && forall j :: 0 <= j < i ==> PathReads(plan, plan.grants[j])
      invariant table == MergedAll([], PathGifts(plan, plan.grants[..i]))
    {
      var g := plan.grants[i];
      PathStep(plan, i);
      var x := ProcessNamed(plan.processes, g.process);
      if g.objectKind == OBJECT_VFS_ROOT && x.Some? {
        var root := RootOf(plan, g);
        if root.None? || !RootReads(root.value) {
          assert !PathReads(plan, plan.grants[i]);
          return None;
        }
        table := AddVolumes(plan.states, NodeId(plan.processes[x.value]), root.value, g.rights, table,
                            PathGifts(plan, plan.grants[..i]));
      }
      i := i + 1;
    }
    assert plan.grants[..i] == plan.grants;
    return Some(table);
  }

  lemma NoPaths(plan: Plan)
    ensures MergedAll<PathKey>([], []) == [] && PathGifts(plan, plan.grants[..0]) == []
  {}

  lemma PathStep(plan: Plan, i: nat)
    requires i < |plan.grants|
    ensures PathGifts(plan, plan.grants[..i + 1]) == PathGifts(plan, plan.grants[..i]) + PathGift(plan, plan.grants[i])
    ensures PathGift(plan, plan.grants[i]) == [] ==>
              PathGifts(plan, plan.grants[..i + 1]) == PathGifts(plan, plan.grants[..i])
  {
    hide PathGift;
    assert plan.grants[..i + 1][..i] == plan.grants[..i];
  }
}
