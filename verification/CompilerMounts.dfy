/** The mount facts the boot compiler derives, and why the kernel finds them exact. */
module CompilerMounts {
  import opened BootRecords
  import opened BootPayload
  import opened PolicyTerms
  import opened CompilerPaths
  import opened KernelPolicy

  function RootFact(x: Process): PolicyMount { PolicyMount(NodeId(x), x.mountRoot, [], [], 0) }

  function MountFact(x: Process, k: nat): PolicyMount
    requires k < |x.mounts|
  {
    PolicyMount(NodeId(x), x.mountRoot, x.mounts[k].path, x.mounts[k].source, x.mounts[k].flags)
  }

  /** A fact that process `x` gives rise to, counting its first `n` mounts. */
  ghost predicate FactOf(x: Process, n: nat, m: PolicyMount)
    requires n <= |x.mounts|
  {
    m == RootFact(x) || exists k :: 0 <= k < n && m == MountFact(x, k)
  }

  ghost predicate FactOfAny(processes: seq<Process>, m: PolicyMount) {
    exists i :: 0 <= i < |processes| && FactOf(processes[i], |processes[i].mounts|, m)
  }

  ghost predicate Distinct(facts: seq<PolicyMount>) {
    forall i, j :: 0 <= i < j < |facts| ==> facts[i] != facts[j]
  }

  /** Adds a fact unless it is there. */
  method PushMount(facts: seq<PolicyMount>, m: PolicyMount) returns (r: seq<PolicyMount>)
    requires Distinct(facts)
    ensures Distinct(r) && forall x :: x in r <==> x in facts || x == m
  {
    if m in facts {
      return facts;
    }
    return facts + [m];
  }

  method AddProcessMounts(facts: seq<PolicyMount>, x: Process) returns (r: seq<PolicyMount>)
    requires Distinct(facts)
    ensures Distinct(r) && forall m :: m in r <==> m in facts || FactOf(x, |x.mounts|, m)
  {
    hide RootFact, MountFact;
    r := PushMount(facts, RootFact(x));
    var k := 0;
    while k < |x.mounts|
      invariant k <= |x.mounts| && Distinct(r) && forall m :: m in r <==> m in facts || FactOf(x, k, m)
    {
      r := PushMount(r, MountFact(x, k));
      k := k + 1;
    }
  }

  /** The mount facts of a plan: exactly the roots and mounts of its processes, none twice. */
  method AddMountFacts(processes: seq<Process>) returns (r: seq<PolicyMount>)
    ensures Distinct(r) && forall m :: m in r <==> FactOfAny(processes, m)
  {
    hide FactOf;
    r := [];
    var i := 0;
    while i < |processes|
      invariant i <= |processes| && Distinct(r) && forall m :: m in r <==> FactOfAny(processes[..i], m)
    {
      r := AddProcessMounts(r, processes[i]);
      assert processes[..i + 1] == processes[..i] + [processes[i]];
      forall m
        ensures FactOfAny(processes[..i + 1], m) <==>
                FactOfAny(processes[..i], m) || FactOf(processes[i], |processes[i].mounts|, m)
      {
        OneMoreProcess(processes, i, m);
      }
      i := i + 1;
    }
    assert processes[..i] == processes;
  }

  lemma OneMoreProcess(processes: seq<Process>, i: nat, m: PolicyMount)
    requires i < |processes|
    ensures FactOfAny(processes[..i + 1], m) <==>
            FactOfAny(processes[..i], m) || FactOf(processes[i], |processes[i].mounts|, m)
  {
    hide FactOf;
    var more, less := processes[..i + 1], processes[..i];
    if FactOfAny(less, m) {
      var k :| 0 <= k < |less| && FactOf(less[k], |less[k].mounts|, m);
      assert more[k] == less[k];
    }
    if FactOf(processes[i], |processes[i].mounts|, m) { assert more[i] == processes[i]; }
    if FactOfAny(more, m) {
      var k :| 0 <= k < |more| && FactOf(more[k], |more[k].mounts|, m);
      if k < i { assert less[k] == more[k]; }
    }
  }

  /** The kernel finds every declared mount among the facts, every fact declared, and none twice. */
  lemma MountsAgree(p: Payload)
    requires Distinct(p.mounts) && (forall m :: m in p.mounts <==> FactOfAny(p.processes, m))
    requires forall i :: 0 <= i < |p.processes| ==> p.processes[i].serviceId != []
    ensures forall i :: 0 <= i < |p.processes| ==> ProcessMounted(p, p.processes[i])
    ensures forall i :: 0 <= i < |p.mounts| ==> MountUsed(p, p.mounts[i])
    ensures forall i, j :: 0 <= i < j < |p.mounts| ==> p.mounts[i] != p.mounts[j]
  {
    forall i | 0 <= i < |p.processes|
      ensures ProcessMounted(p, p.processes[i])
    {
      ProcessHasFacts(p, i);
    }
    forall i | 0 <= i < |p.mounts|
      ensures MountUsed(p, p.mounts[i])
    {
      assert FactOfAny(p.processes, p.mounts[i]);
      var k :| 0 <= k < |p.processes| && FactOf(p.processes[k], |p.processes[k].mounts|, p.mounts[i]);
      FactIsUsed(p.processes[k], p.mounts[i]);
    }
  }

  lemma ProcessHasFacts(p: Payload, i: nat)
    requires (forall m :: m in p.mounts <==> FactOfAny(p.processes, m)) && i < |p.processes|
             && p.processes[i].serviceId != []
    ensures ProcessMounted(p, p.processes[i])
  {
    var x := p.processes[i];
    assert FactOf(x, |x.mounts|, RootFact(x));
    assert FactOfAny(p.processes, RootFact(x));
    forall k | 0 <= k < |x.mounts|
      ensures PolicyMount(ServiceOf(x), x.mountRoot, x.mounts[k].path, x.mounts[k].source, x.mounts[k].flags)
              in p.mounts
    {
      assert FactOf(x, |x.mounts|, MountFact(x, k));
      assert FactOfAny(p.processes, MountFact(x, k));
    }
  }

  lemma FactIsUsed(x: Process, m: PolicyMount)
    requires FactOf(x, |x.mounts|, m) && x.serviceId != []
    ensures MountUsedBy(m, x)
  {
    if m != RootFact(x) {
      var k :| 0 <= k < |x.mounts| && m == MountFact(x, k);
      assert x.mounts[k] == ProcessMount(m.path, m.source, m.flags);
    }
  }
}
