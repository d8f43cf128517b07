/** The bootstrap facts the boot compiler derives: the rules under which processes hold what no capability gives
    them. */
module CompilerBootstraps {
  import opened Bits
  import opened Results
  import opened BootRecords
  import opened PolicyTerms
  import opened CompilerFacts
  import opened CompilerPaths
  import opened CompilerOffers
  import opened KernelPolicy

  // ----- Tables of facts -----

  /** Facts of one rule agree, and have 64-bit rights. */
  ghost predicate Consistent(xs: seq<PolicyBootstrap>) {
    && (forall i :: 0 <= i < |xs| ==> xs[i].rights < Pow2(64))
    && (forall i, j :: 0 <= i < |xs| && 0 <= j < |xs| && SameRule(xs[i], xs[j]) ==> xs[i] == xs[j])
  }

  /** No two facts of one rule. */
  ghost predicate RulesApart(xs: seq<PolicyBootstrap>) {
    forall i, j :: 0 <= i < j < |xs| ==> !SameRule(xs[i], xs[j])
  }

  /** Adds a fact, merging its rights into a fact of the same rule. */
  method PushBootstrap(table: seq<PolicyBootstrap>, b: PolicyBootstrap) returns (r: seq<PolicyBootstrap>)
    requires Consistent(table + [b])
    ensures r == if b in table then table else table + [b]
  {
    hide Pow2, Or;
    var i := 0;
    while i < |table|
      invariant i <= |table| && forall j :: 0 <= j < i ==> !SameRule(table[j], b)
    {
      if SameRule(table[i], b) {
        assert (table + [b])[i] == table[i] && (table + [b])[|table|] == b;
        OrSame(b.rights, 64);
        r := table[i := table[i].(rights := Or(table[i].rights, b.rights, 64))];
        assert r == table;
        return;
      }
      i := i + 1;
    }
    return table + [b];
  }

  /** The facts, each once and in order of appearance. */
  method PushBootstraps(xs: seq<PolicyBootstrap>) returns (r: seq<PolicyBootstrap>)
    requires Consistent(xs)
    ensures (forall b :: b in r <==> b in xs) && RulesApart(r)
  {
    hide Pow2;
    r := [];
    var i := 0;
    while i < |xs|
      invariant i <= |xs| && (forall b :: b in r <==> b in xs[..i]) && RulesApart(r)
    {
      StillConsistent(xs, i, r);
      ghost var before := r;
      r := PushBootstrap(r, xs[i]);
      StillApart(xs, i, before, r);
      i := i + 1;
    }
    assert xs[..i] == xs;
  }

  lemma StillConsistent(xs: seq<PolicyBootstrap>, i: nat, r: seq<PolicyBootstrap>)
    requires Consistent(xs) && i < |xs| && forall b :: b in r <==> b in xs[..i]
    ensures Consistent(r + [xs[i]])
  {
    hide Pow2;
    var all := r + [xs[i]];
    forall a | 0 <= a < |all|
      ensures all[a] in xs
    {
      if a < |r| { assert all[a] in r; }
    }
    forall a, b | 0 <= a < |all| && 0 <= b < |all| && SameRule(all[a], all[b])
      ensures all[a] == all[b]
    {
      var j :| 0 <= j < |xs| && xs[j] == all[a];
      var k :| 0 <= k < |xs| && xs[k] == all[b];
    }
  }

  lemma StillApart(xs: seq<PolicyBootstrap>, i: nat, before: seq<PolicyBootstrap>, r: seq<PolicyBootstrap>)
    requires Consistent(xs) && i < |xs| && (forall b :: b in before <==> b in xs[..i])
    requires RulesApart(before)
    requires r == if xs[i] in before then before else before + [xs[i]]
    ensures RulesApart(r)
  {
    hide Pow2;
    if xs[i] !in before {
      forall a | 0 <= a < |before|
        ensures !SameRule(before[a], xs[i])
      {
        assert before[a] in before;
        var j :| 0 <= j < i && xs[j] == before[a];
      }
    }
  }

  // ----- The facts -----

  /** The rule the compiler notes for an endpoint grant. */
  function CompilerRule(x: Process, endpoint: Str, rights: nat): Option<Str> {
    if endpoint == SERIAL_LOG && rights == RIGHT_SEND then Some(SERIAL_LOG)
    else if endpoint == READINESS && x.initial && rights == RIGHT_RECEIVE then Some(READINESS_RECEIVE)
    else if endpoint == READINESS && !x.initial && rights == RIGHT_SEND then Some(READINESS_SEND)
    else if x.initial && rights == RIGHT_SEND then Some(INIT_ENDPOINT_DELEGATION)
    else None
  }

  function GrantBootstraps(processes: seq<Process>, g: PlanGrant): seq<PolicyBootstrap> {
    var x := ProcessCalled(processes, g.process);
    if g.objectKind != OBJECT_ENDPOINT || x.None? then []
    else
      var rule := CompilerRule(x.value, g.objectName, g.rights);
      if rule.None? then []
      else [PolicyBootstrap(NodeId(x.value), ENDPOINT_PREFIX + g.objectName, rule.value, FromCompact(g.rights))]
  }

  function AllGrantBootstraps(processes: seq<Process>, grants: seq<PlanGrant>): seq<PolicyBootstrap> {
    if grants == [] then []
    else AllGrantBootstraps(processes, grants[..|grants| - 1]) + GrantBootstraps(processes, grants[|grants| - 1])
  }

  function InitialProcess(processes: seq<Process>): (r: Option<Process>)
    ensures r.Some? ==> r.value in processes && r.value.initial
  {
    if processes == [] then None else if processes[0].initial then Some(processes[0])
    else InitialProcess(processes[1..])
  }

  function InitialBootstraps(processes: seq<Process>): seq<PolicyBootstrap> {
    var x := InitialProcess(processes);
    if x.None? then []
    else
      [PolicyBootstrap(NodeId(x.value), BOOT_MODULE_KRUSTBOOT_MANIFEST, INITIAL_MANIFEST, FromCompact(RIGHT_READ)),
       PolicyBootstrap(NodeId(x.value), PROCESS_CONTROL, INITIAL_PROCESS_CONTROL, BOOTSTRAP_PROCESS_CONTROL),
       PolicyBootstrap(NodeId(x.value), TIMER_MONOTONIC_TIMER, INITIAL_RESTART_TIMER, FromCompact(RIGHT_CONTROL))]
  }

  function SecretBootstraps(processes: seq<Process>): seq<PolicyBootstrap> {
    var x := ProcessCalled(processes, LOGD);
    if x.None? then []
    else [PolicyBootstrap(NodeId(x.value), SECRET_LOGD_TOKEN, NATIVE_SECRET,
                          BOOTSTRAP_READ + BOOTSTRAP_INSPECT_METADATA)]
  }

  function InternalBootstrap(processes: seq<Process>, name: Str, endpoint: Str, rights: nat): seq<PolicyBootstrap> {
    var x := ProcessCalled(processes, name);
    if x.None? then []
    else [PolicyBootstrap(NodeId(x.value), ENDPOINT_PREFIX + endpoint, endpoint, FromCompact(rights))]
  }

  /** The endpoints between the kernel and its own services. */
  function InternalBootstraps(processes: seq<Process>, states: seq<StateVolume>): seq<PolicyBootstrap> {
    (if states == [] then []
     else InternalBootstrap(processes, VERTEX_STATE, STATE_VFS_REQUEST, RIGHT_RECEIVE)
          + InternalBootstrap(processes, VERTEX_STATE, STATE_VFS_REPLY, RIGHT_SEND))
    + InternalBootstrap(processes, BLOCK_DRIVER, VERTEXFS_DEVICE_REQUEST, RIGHT_RECEIVE)
    + InternalBootstrap(processes, BLOCK_DRIVER, VERTEXFS_DEVICE_REPLY, RIGHT_SEND)
    + InternalBootstrap(processes, BLOCK_DRIVER, GENERATION_METADATA_BLOCK_REQUEST, RIGHT_RECEIVE)
    + InternalBootstrap(processes, BLOCK_DRIVER, GENERATION_METADATA_BLOCK_REPLY, RIGHT_SEND)
    + InternalBootstrap(processes, GEN_MANAGER, GENERATION_METADATA_BLOCK_REQUEST, RIGHT_SEND)
    + InternalBootstrap(processes, GEN_MANAGER, GENERATION_METADATA_BLOCK_REPLY, RIGHT_RECEIVE)
  }

  function Bootstraps(plan: Plan): seq<PolicyBootstrap> {
    SecretBootstraps(plan.processes) + AllGrantBootstraps(plan.processes, plan.grants)
    + InitialBootstraps(plan.processes)
    + InternalBootstraps(plan.processes, plan.states)
  }

  // ----- Rights belong to rules -----

  lemma Powers()
    ensures Pow2(0) == 1 && Pow2(1) == 2 && Pow2(2) == 4 && Pow2(3) == 8 && Pow2(4) == 16 && Pow2(5) == 32
            && Pow2(6) == 64
    ensures Pow2(7) == 128 && Pow2(8) == 256 && Pow2(9) == 512 && Pow2(10) == 1024 && Pow2(11) == 2048
            && Pow2(12) == 4096
    ensures Pow2(13) == 8192 && Pow2(14) == 16384
  {}

  /** The bits of a number below 128. */
  lemma LowBits(r: nat)
    requires r < 128
    ensures FromCompact(r) == Bit(r, 0) * 0x10 + Bit(r, 1) * 0x20 + Bit(r, 2) + Bit(r, 3) * 2 + Bit(r, 4) * 0x100
                              + Bit(r, 5) * 0x200
                              + Bit(r, 6) * 0x40
    ensures Bit(r, 0) == r % 2 && Bit(r, 1) == r / 2 % 2 && Bit(r, 2) == r / 4 % 2 && Bit(r, 3) == r / 8 % 2
    ensures Bit(r, 4) == r / 16 % 2 && Bit(r, 5) == r / 32 % 2 && Bit(r, 6) == r / 64
  {
    hide Pow2;
    Powers();
  }

  lemma Compact()
    ensures FromCompact(RIGHT_SEND) == BOOTSTRAP_SEND && FromCompact(RIGHT_RECEIVE) == BOOTSTRAP_RECEIVE
    ensures FromCompact(RIGHT_READ) == BOOTSTRAP_READ && FromCompact(RIGHT_CONTROL) == BOOTSTRAP_CONTROL
  {
    hide FromCompact, Bit;
    LowBits(RIGHT_SEND);
    LowBits(RIGHT_RECEIVE);
    LowBits(RIGHT_READ);
    LowBits(RIGHT_CONTROL);
  }

  predicate Sends(rule: Str) {
    rule == SERIAL_LOG || rule == READINESS_SEND || rule == INIT_ENDPOINT_DELEGATION
  }

  predicate Requests(rule: Str) {
    rule == STATE_VFS_REQUEST || rule == VERTEXFS_DEVICE_REQUEST || rule == GENERATION_METADATA_BLOCK_REQUEST
  }

  predicate Replies(rule: Str) {
    rule == STATE_VFS_REPLY || rule == VERTEXFS_DEVICE_REPLY || rule == GENERATION_METADATA_BLOCK_REPLY
  }

  /** The rights that go with a rule, for a process of a name. */
  function RuleRights(name: Str, rule: Str): nat {
    if Sends(rule) then BOOTSTRAP_SEND
    else if rule == READINESS_RECEIVE then BOOTSTRAP_RECEIVE
    else if rule == INITIAL_MANIFEST then BOOTSTRAP_READ
    else if rule == INITIAL_PROCESS_CONTROL then BOOTSTRAP_PROCESS_CONTROL
    else if rule == INITIAL_RESTART_TIMER then BOOTSTRAP_CONTROL
    else if rule == NATIVE_SECRET then BOOTSTRAP_READ + BOOTSTRAP_INSPECT_METADATA
    else if Requests(rule) == (name != GEN_MANAGER) then BOOTSTRAP_RECEIVE
    else BOOTSTRAP_SEND
  }

  /** No two rules share a name. */
  lemma RuleNames(name: Str)
    ensures RuleRights(name, READINESS_RECEIVE) == BOOTSTRAP_RECEIVE
            && RuleRights(name, INITIAL_MANIFEST) == BOOTSTRAP_READ
    ensures RuleRights(name, INITIAL_PROCESS_CONTROL) == BOOTSTRAP_PROCESS_CONTROL
    ensures RuleRights(name, INITIAL_RESTART_TIMER) == BOOTSTRAP_CONTROL
    ensures RuleRights(name, NATIVE_SECRET) == BOOTSTRAP_READ + BOOTSTRAP_INSPECT_METADATA
  {
    RuleLengths();
  }

  lemma InternalNames(name: Str, rule: Str)
    requires Requests(rule) || Replies(rule)
    ensures RuleRights(name, rule) == if Requests(rule) == (name != GEN_MANAGER) then BOOTSTRAP_RECEIVE
                                      else BOOTSTRAP_SEND
    ensures Requests(rule) == !Replies(rule)
  {
    RuleLengths();
  }

  lemma RuleLengths()
    ensures |SERIAL_LOG| == 10 && |READINESS_SEND| == 14 && |INIT_ENDPOINT_DELEGATION| == 24
            && |READINESS_RECEIVE| == 17
    ensures |INITIAL_MANIFEST| == 16 && |INITIAL_PROCESS_CONTROL| == 23 && |INITIAL_RESTART_TIMER| == 21
            && |NATIVE_SECRET| == 13
    ensures |STATE_VFS_REQUEST| == 17 && |STATE_VFS_REPLY| == 15 && |VERTEXFS_DEVICE_REQUEST| == 23
            && |VERTEXFS_DEVICE_REPLY| == 21
    ensures |GENERATION_METADATA_BLOCK_REQUEST| == 33 && |GENERATION_METADATA_BLOCK_REPLY| == 31
    ensures STATE_VFS_REQUEST[0] == VERTEXFS_DEVICE_REQUEST[0] - 3 == 115 && READINESS_RECEIVE[0] == 114
    ensures VERTEXFS_DEVICE_REPLY[0] == 118 && INITIAL_PROCESS_CONTROL[0] == INITIAL_RESTART_TIMER[0] == 105
  {}

  /** Processes have names and services of their own. */
  ghost predicate Apart(processes: seq<Process>) {
    && (forall i :: 0 <= i < |processes| ==> processes[i].serviceId != [])
    && (forall i, j :: 0 <= i < j < |processes| ==>
          processes[i].name != processes[j].name && processes[i].serviceId != processes[j].serviceId)
  }

  lemma {:induction false} OfItself(processes: seq<Process>, x: Process)
    requires Apart(processes) && x in processes
    ensures ProcessOf(processes, NodeId(x)) == Some(x) && ServiceOf(x) == NodeId(x)
  {
    if processes[0] != x {
      var k :| 0 <= k < |processes| && processes[k] == x;
      assert processes[0].serviceId != processes[k].serviceId;
      OfItself(processes[1..], x);
    }
  }

  lemma {:induction false} CalledItself(processes: seq<Process>, x: Process)
    requires Apart(processes) && x in processes
    ensures ProcessCalled(processes, x.name) == Some(x)
  {
    if processes[0] != x {
      var k :| 0 <= k < |processes| && processes[k] == x;
      assert processes[0].name != processes[k].name;
      CalledItself(processes[1..], x);
    }
  }

  /** The fact belongs to a process, and has the rights of its rule. */
  ghost predicate RightsKnown(processes: seq<Process>, b: PolicyBootstrap) {
    var x := ProcessOf(processes, b.service);
    x.Some? && b.rights == RuleRights(x.value.name, b.rule)
  }

  lemma GrantRights(processes: seq<Process>, g: PlanGrant, b: PolicyBootstrap)
    requires Apart(processes) && GrantBootstraps(processes, g) == [b]
    ensures RightsKnown(processes, b)
  {
    hide RuleRights, FromCompact;
    var x := ProcessCalled(processes, g.process).value;
    OfItself(processes, x);
    Compact();
    RuleNames(x.name);
    assert Sends(b.rule) ==> RuleRights(x.name, b.rule) == BOOTSTRAP_SEND by { SendRights(x.name, b.rule); }
  }

  lemma SendRights(name: Str, rule: Str)
    ensures Sends(rule) ==> RuleRights(name, rule) == BOOTSTRAP_SEND
  {}

  lemma InternalRights(processes: seq<Process>, name: Str, endpoint: Str, rights: nat)
    requires Apart(processes) && (Requests(endpoint) || Replies(endpoint))
    requires rights == if Requests(endpoint) == (name != GEN_MANAGER) then RIGHT_RECEIVE else RIGHT_SEND
    ensures forall b :: b in InternalBootstrap(processes, name, endpoint, rights) ==> RightsKnown(processes, b)
  {
    hide RuleRights, FromCompact;
    var x := ProcessCalled(processes, name);
    if x.Some? {
      OfItself(processes, x.value);
      Compact();
      InternalNames(name, endpoint);
    }
  }

  lemma {:induction false} GrantOf(processes: seq<Process>, grants: seq<PlanGrant>, b: PolicyBootstrap) returns (i: nat)
    requires b in AllGrantBootstraps(processes, grants)
    ensures i < |grants| && GrantBootstraps(processes, grants[i]) == [b]
  {
    hide CompilerRule, FromCompact;
    var n := |grants| - 1;
    if b in GrantBootstraps(processes, grants[n]) {
      i := n;
    } else {
      i := GrantOf(processes, grants[..n], b);
    }
  }

  lemma InternalsKnown(processes: seq<Process>, states: seq<StateVolume>)
    requires Apart(processes)
    ensures forall b :: b in InternalBootstraps(processes, states) ==> RightsKnown(processes, b)
  {
    hide RightsKnown, InternalBootstrap;
    RuleLengths();
    assert |BLOCK_DRIVER| == 12 && |GEN_MANAGER| == 11 && |VERTEX_STATE| == 12;
    assert BLOCK_DRIVER[0] != VERTEX_STATE[0];
    InternalRights(processes, VERTEX_STATE, STATE_VFS_REQUEST, RIGHT_RECEIVE);
    InternalRights(processes, VERTEX_STATE, STATE_VFS_REPLY, RIGHT_SEND);
    InternalRights(processes, BLOCK_DRIVER, VERTEXFS_DEVICE_REQUEST, RIGHT_RECEIVE);
    InternalRights(processes, BLOCK_DRIVER, VERTEXFS_DEVICE_REPLY, RIGHT_SEND);
    InternalRights(processes, BLOCK_DRIVER, GENERATION_METADATA_BLOCK_REQUEST, RIGHT_RECEIVE);
    InternalRights(processes, BLOCK_DRIVER, GENERATION_METADATA_BLOCK_REPLY, RIGHT_SEND);
    InternalRights(processes, GEN_MANAGER, GENERATION_METADATA_BLOCK_REQUEST, RIGHT_SEND);
    InternalRights(processes, GEN_MANAGER, GENERATION_METADATA_BLOCK_REPLY, RIGHT_RECEIVE);
  }

  lemma InitialsKnown(processes: seq<Process>)
    requires Apart(processes)
    ensures forall b :: b in InitialBootstraps(processes) || b in SecretBootstraps(processes) ==>
          RightsKnown(processes, b)
  {
    hide RuleRights, FromCompact;
    Compact();
    var x, y := InitialProcess(processes), ProcessCalled(processes, LOGD);
    if x.Some? {
      OfItself(processes, x.value);
      RuleNames(x.value.name);
    }
    if y.Some? {
      OfItself(processes, y.value);
      RuleNames(y.value.name);
    }
  }

  lemma BootstrapKnown(plan: Plan, b: PolicyBootstrap)
    requires Apart(plan.processes) && b in Bootstraps(plan)
    ensures RightsKnown(plan.processes, b)
  {
    hide InternalBootstraps, AllGrantBootstraps, InitialBootstraps, SecretBootstraps, RightsKnown, Apart,
         GrantBootstraps;
    if b in AllGrantBootstraps(plan.processes, plan.grants) {
      var i := GrantOf(plan.processes, plan.grants, b);
      GrantRights(plan.processes, plan.grants[i], b);
    } else {
      InternalsKnown(plan.processes, plan.states);
      InitialsKnown(plan.processes);
    }
  }

  /** The facts of a plan agree, so adding them never changes one that is there. */
  lemma BootstrapsConsistent(plan: Plan)
    requires Apart(plan.processes)
    ensures Consistent(Bootstraps(plan)) && forall b :: b in Bootstraps(plan) ==> RightsKnown(plan.processes, b)
  {
    hide Bootstraps, RightsKnown, Pow2, Apart;
    var xs := Bootstraps(plan);
    forall b | b in xs
      ensures RightsKnown(plan.processes, b) && b.rights < Pow2(64)
    {
      BootstrapKnown(plan, b);
      RightsFit(plan.processes, b);
    }
    forall i, j | 0 <= i < |xs| && 0 <= j < |xs| && SameRule(xs[i], xs[j])
      ensures xs[i] == xs[j]
    {
      assert xs[i] in xs && xs[j] in xs;
      OneFact(plan.processes, xs[i], xs[j]);
    }
  }

  lemma RightsFit(processes: seq<Process>, b: PolicyBootstrap)
    requires RightsKnown(processes, b)
    ensures b.rights < Pow2(64)
  {
    Powers();
    assert Pow2(64) >= Pow2(32) >= 0x1_0000_0000 by { BigPowers(); }
  }

  lemma BigPowers()
    ensures Pow2(32) == 0x1_0000_0000 && Pow2(64) == 0x1_0000_0000_0000_0000
  {
    assert Pow2(8) == 0x100;
    assert Pow2(16) == 0x1_0000;
    assert Pow2(24) == 0x100_0000;
    assert Pow2(32) == 0x1_0000_0000;
    assert Pow2(40) == 0x100_0000_0000;
    assert Pow2(48) == 0x1_0000_0000_0000;
    assert Pow2(56) == 0x100_0000_0000_0000;
  }

  lemma OneFact(processes: seq<Process>, a: PolicyBootstrap, b: PolicyBootstrap)
    requires SameRule(a, b) && RightsKnown(processes, a) && RightsKnown(processes, b)
    ensures a == b
  {
    hide RuleRights, ProcessOf;
  }
}
