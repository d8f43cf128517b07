/** The hosted supervisor's activation: services are started recursively, each after its dependencies are started
    and ready. */
module Supervisor {
  import opened Manifests
  import opened Results

  // ----- Dependencies -----

  /** `d` must be started before service `s`. */
  ghost predicate IsDependency(m: Manifest, s: Service, d: Id) {
    && d != s.id
    && (d in s.startAfter || exists i :: 0 <= i < |s.needs| && Provides(m, s.needs[i].capability, d))
  }

  ghost predicate RequirementsKnown(m: Manifest, s: Service) {
    forall i :: 0 <= i < |s.needs| ==> FindCapability(m.capabilities, s.needs[i].capability).Some?
  }

  /** The dependencies of a known service can be computed. */
  ghost predicate Resolves(m: Manifest, id: Id) {
    Known(m, id) && RequirementsKnown(m, FindService(m.services, id).value)
  }

  /** `d` must be started before the service with id `id`. */
  ghost predicate DependsOn(m: Manifest, id: Id, d: Id) {
    Known(m, id) && IsDependency(m, FindService(m.services, id).value, d)
  }

  // ----- Paths -----

  /** A chain of dependencies. */
  ghost predicate IsPath(m: Manifest, p: seq<Id>) {
    forall k :: 0 <= k < |p| - 1 ==> Resolves(m, p[k]) && DependsOn(m, p[k], p[k + 1])
  }

  /** A chain of dependencies that ends at a service that cannot be resolved, or comes back on itself. */
  ghost predicate IsObstacle(m: Manifest, p: seq<Id>) {
    && p != [] && IsPath(m, p)
    && (!Resolves(m, p[|p| - 1]) || exists k :: 0 <= k < |p| - 1 && p[k] == p[|p| - 1])
  }

  /** Some chain of dependencies from `id` is an obstacle. */
  ghost predicate Obstructed(m: Manifest, id: Id) {
    exists p :: IsObstacle(m, p) && p[0] == id
  }

  lemma PathPush(m: Manifest, p: seq<Id>, d: Id)
    requires p != [] && IsPath(m, p) && Resolves(m, p[|p| - 1]) && DependsOn(m, p[|p| - 1], d)
    ensures IsPath(m, p + [d])
  {
    forall k | 0 <= k < |p + [d]| - 1
      ensures Resolves(m, (p + [d])[k]) && DependsOn(m, (p + [d])[k], (p + [d])[k + 1])
    {
      if k < |p| - 1 { assert Resolves(m, p[k]) && DependsOn(m, p[k], p[k + 1]); }
    }
  }

  // ----- Orders -----

  /** Every service of the log is known and comes after all its dependencies. */
  ghost predicate Ordered(m: Manifest, log: seq<Id>) {
    forall i :: 0 <= i < |log| ==> Resolves(m, log[i]) && forall d :: DependsOn(m, log[i], d) ==> d in log[..i]
  }

  lemma OrderedPush(m: Manifest, log: seq<Id>, id: Id)
    requires Ordered(m, log) && Resolves(m, id) && forall d :: DependsOn(m, id, d) ==> d in log
    ensures Ordered(m, log + [id])
  {
    forall i | 0 <= i < |log + [id]|
      ensures Resolves(m, (log + [id])[i]) && forall d :: DependsOn(m, (log + [id])[i], d) ==> d in (log + [id])[..i]
    {
      if i < |log| {
        assert (log + [id])[..i] == log[..i];
      } else {
        assert (log + [id])[..i] == log;
      }
    }
  }

  /** A chain from a logged service goes back through the log, so it can neither cycle nor get stuck. */
  lemma {:induction false} PathGoesBack(m: Manifest, log: seq<Id>, p: seq<Id>, i: nat)
    requires Ordered(m, log) && p != [] && IsPath(m, p) && i < |log| && log[i] == p[0]
    ensures forall k :: 0 <= k < |p| ==> p[k] in log[..i + 1]
    ensures forall k :: 0 < k < |p| ==> p[k] in log[..i]
  {
    if |p| > 1 {
      assert Resolves(m, p[0]) && DependsOn(m, p[0], p[1]);
      var j :| 0 <= j < i && log[..i][j] == p[1];
      forall k | 0 <= k < |p[1..]| - 1
        ensures Resolves(m, p[1..][k]) && DependsOn(m, p[1..][k], p[1..][k + 1])
      {
        assert Resolves(m, p[k + 1]) && DependsOn(m, p[k + 1], p[k + 2]);
      }
      PathGoesBack(m, log, p[1..], j);
      forall k | 0 < k < |p|
        ensures p[k] in log[..i]
      {
        assert p[k] == p[1..][k - 1];
        assert p[1..][k - 1] in log[..j + 1];
        InPrefix(log, j + 1, i, p[k]);
      }
    }
  }

  lemma InPrefix(log: seq<Id>, a: nat, b: nat, x: Id)
    requires a <= b <= |log| && x in log[..a]
    ensures x in log[..b]
  {
    var k :| 0 <= k < a && log[..a][k] == x;
    assert log[..b][k] == x;
  }

  /** Services that have been started are in nobody's way. */
  lemma LoggedIsClear(m: Manifest, log: seq<Id>, id: Id)
    requires Ordered(m, log) && NoDuplicates(log) && id in log
    ensures !Obstructed(m, id)
  {
    forall p | p != [] && IsPath(m, p) && p[0] == id
      ensures !IsObstacle(m, p)
    {
      var i :| 0 <= i < |log| && log[i] == id;
      PathGoesBack(m, log, p, i);
      var last := p[|p| - 1];
      var j :| 0 <= j < i + 1 && log[..i + 1][j] == last;
      assert Resolves(m, log[j]);
      forall k | 0 <= k < |p| - 1
        ensures p[k] != last
      {
        var h :| 0 <= h < i + 1 && log[..i + 1][h] == p[k];
        NoWayBack(m, log, p, k, h);
      }
    }
  }

  /** A chain in the log does not come back on itself. */
  lemma NoWayBack(m: Manifest, log: seq<Id>, p: seq<Id>, k: nat, h: nat)
    requires Ordered(m, log) && NoDuplicates(log) && IsPath(m, p) && k < |p| - 1 && h < |log| && log[h] == p[k]
    ensures p[|p| - 1] != p[k]
  {
    var rest := p[k..];
    forall i | 0 <= i < |rest| - 1
      ensures Resolves(m, rest[i]) && DependsOn(m, rest[i], rest[i + 1])
    {
      assert Resolves(m, p[k + i]) && DependsOn(m, p[k + i], p[k + i + 1]);
    }
    PathGoesBack(m, log, rest, h);
    var g :| 0 <= g < h && log[..h][g] == rest[|rest| - 1];
    assert log[g] != log[h];
  }

  // ----- The supervisor -----

  datatype ActivationError = Cycle(id: Id) | UnknownService(id: Id) | UnknownCapability(id: Id) | Fault

  /** What the outside world decides (preparing an executable, spawning it, answering a health check, writing an
      event) either works or counts as a fault. */
  class ActivationRuntime {
    const manifest: Manifest
    const dryRun: bool
    var children: seq<Id>
    var started: set<Id>
    var ready: set<Id>
    var starting: set<Id>
    /** The services in the order they were started. */
    ghost var log: seq<Id>
    /** The processes created, in order, whether or not the supervisor recorded them. */
    ghost var spawned: seq<Id>
    ghost var faults: nat

    /** What holds throughout any activation, whatever happens outside. */
    ghost predicate Valid()
      reads this
    {
      && (forall id :: id in started <==> id in log)
      && NoDuplicates(log) && Ordered(manifest, log)
      && (forall id, d :: id in started && DependsOn(manifest, id, d) ==> d in started && d in ready)
      && NoDuplicates(spawned) && children <= spawned
    }

    /** Every process created is recorded and started: true until something fails. */
    ghost predicate Intact()
      reads this
    {
      children == spawned && forall id :: id in spawned ==> id in started
    }

    constructor (m: Manifest, dry: bool)
      ensures manifest == m && dryRun == dry && Valid() && Intact()
      ensures started == {} && ready == {} && starting == {} && children == [] && faults == 0
    {
      manifest, dryRun := m, dry;
      children, started, ready, starting := [], {}, {}, {};
      log, spawned, faults := [], [], 0;
    }

    method Attempt() returns (ok: bool)
      modifies this`faults
      ensures faults == if ok then old(faults) else old(faults) + 1
    {
      ok := *;
      if !ok { faults := faults + 1; }
    }

    /** Enters a service whose dependencies are all started and ready. */
    ghost method Enter(id: Id)
      requires Valid() && id !in started && Resolves(manifest, id)
      requires forall d :: DependsOn(manifest, id, d) ==> d in started && d in ready
      modifies this`log
      ensures log == old(log) + [id] && NoDuplicates(log) && Ordered(manifest, log)
      ensures forall x :: x in log <==> x in started || x == id
    {
      OrderedPush(manifest, log, id);
      AppendNew(log, id);
      log := log + [id];
    }

    method StartService(id: Id) returns (r: Result<(), ActivationError>)
      requires Valid() && Intact() && Resolves(manifest, id)
      requires forall d :: DependsOn(manifest, id, d) ==> d in started && d in ready
      modifies this`children, this`started, this`ready, this`log, this`spawned, this`faults
      ensures Valid() && (r.Ok? ==> Intact() && id in started)
      ensures old(started) <= started <= old(started) + {id} && old(ready) <= ready
      ensures old(faults) <= faults && (r.Err? ==> old(faults) < faults)
    {
      hide Ordered, Resolves, DependsOn;
      if id in started {
        return Ok(());
      }
      if id == manifest.rootService {
        Enter(id);
        started, ready := started + {id}, ready + {id};
        if !dryRun {
          var recorded := Attempt();
          if !recorded {
            return Err(Fault);
          }
        }
        return Ok(());
      }
      var prepared := Attempt();
      if !prepared {
        return Err(Fault);
      }
      if dryRun {
        Enter(id);
        started := started + {id};
        return Ok(());
      }
      r := SpawnService(id);
    }

    method SpawnService(id: Id) returns (r: Result<(), ActivationError>)
      requires Valid() && Intact() && Resolves(manifest, id) && id !in started
      requires forall d :: DependsOn(manifest, id, d) ==> d in started && d in ready
      modifies this`children, this`started, this`log, this`spawned, this`faults
      ensures Valid() && (r.Ok? ==> Intact() && id in started)
      ensures old(started) <= started <= old(started) + {id}
      ensures old(faults) <= faults && (r.Err? ==> old(faults) < faults)
    {
      hide Ordered, Resolves, DependsOn;
      var launched := Attempt();
      if !launched {
        return Err(Fault);
      }
      AppendNew(spawned, id);
      spawned := spawned + [id];
      var recorded := Attempt();
      if !recorded {
        return Err(Fault);
      }
      Enter(id);
      children := children + [id];
      started := started + {id};
      return Ok(());
    }

    method EnsureServiceReady(id: Id) returns (r: Result<(), ActivationError>)
      requires Valid()
      modifies this`ready, this`faults
      ensures Valid() && old(ready) <= ready && (r.Ok? ==> id in ready)
      ensures old(faults) <= faults && (r.Err? ==> old(faults) < faults)
    {
      hide Ordered, Resolves, DependsOn;
      if id in ready {
        return Ok(());
      }
      if dryRun {
        ready := ready + {id};
        return Ok(());
      }
      var healthy := Attempt();
      if !healthy {
        return Err(Fault);
      }
      ready := ready + {id};
      var recorded := Attempt();
      return if recorded then Ok(()) else Err(Fault);
    }

    /** Appends a dependency once, and never the service itself. */
    static method PushDependency(dependencies: seq<Id>, service: Id, dependency: Id) returns (r: seq<Id>)
      requires NoDuplicates(dependencies)
      ensures NoDuplicates(r)
      ensures forall d :: d in r <==> d in dependencies || (d == dependency && d != service)
    {
      r := dependencies;
      if dependency != service && dependency !in dependencies {
        AppendNew(dependencies, dependency);
        r := dependencies + [dependency];
      }
    }

    method ServiceDependencies(service: Service) returns (r: Result<seq<Id>, ActivationError>)
      ensures r.Ok? <==> RequirementsKnown(manifest, service)
      ensures r.Ok? ==> NoDuplicates(r.value) && forall d :: d in r.value <==> IsDependency(manifest, service, d)
    {
      hide Provides;
      var dependencies: seq<Id>, index := [], 0;
      while index < |service.startAfter|
        invariant index <= |service.startAfter| && NoDuplicates(dependencies)
        invariant forall d :: d in dependencies <==> d != service.id && d in service.startAfter[..index]
      {
        dependencies := PushDependency(dependencies, service.id, service.startAfter[index]);
        index := index + 1;
      }
      assert service.startAfter[..|service.startAfter|] == service.startAfter;
      index := 0;
      while index < |service.needs|
        invariant index <= |service.needs| && NoDuplicates(dependencies)
        invariant forall i :: 0 <= i < index ==>
              FindCapability(manifest.capabilities, service.needs[i].capability).Some?
        invariant forall d :: d in dependencies <==>
              && d != service.id
              && (|| d in service.startAfter
                  || exists i :: 0 <= i < index && Provides(manifest, service.needs[i].capability, d))
      {
        var capability := FindCapability(manifest.capabilities, service.needs[index].capability);
        if capability.None? {
          return Err(UnknownCapability(service.needs[index].capability));
        }
        ghost var before := dependencies;
        if FindService(manifest.services, capability.value.provider).Some? {
          dependencies := PushDependency(dependencies, service.id, capability.value.provider);
        }
        ProvidesWhat(manifest, service.needs[index].capability);
        index := index + 1;
      }
      return Ok(dependencies);
    }

    /** Starts a service and, first, everything it depends on. `stack` is the chain of services being started. */
    method StartServiceTree(id: Id, ghost stack: seq<Id>) returns (r: Result<(), ActivationError>)
      requires Valid() && Intact() && IsPath(manifest, stack + [id]) && forall x :: x in starting <==> x in stack
      modifies this
      ensures Valid() && starting == old(starting) && (r.Ok? ==> Intact() && id in started)
      ensures old(started) <= started && old(ready) <= ready && old(faults) <= faults
      ensures r.Err? && faults == old(faults) ==> Obstructed(manifest, (stack + [id])[0])
      decreases Left(manifest, starting), 2
    {
      hide Ordered, Resolves, DependsOn, Obstructed, IsPath;
      assert starting + {id} - {id} == starting || id in starting;
      if id in started {
        return Ok(());
      }
      if id in starting {
        Returned(manifest, stack, id);
        return Err(Cycle(id));
      }
      starting := starting + {id};
      r := StartServiceTreeInner(id, stack);
      starting := starting - {id};
    }

    method StartServiceTreeInner(id: Id, ghost stack: seq<Id>) returns (r: Result<(), ActivationError>)
      requires Valid() && Intact() && IsPath(manifest, stack + [id]) && id !in stack
      requires forall x :: x in starting <==> x in stack || x == id
      modifies this
      ensures Valid() && starting == old(starting) && (r.Ok? ==> Intact() && id in started)
      ensures old(started) <= started && old(ready) <= ready && old(faults) <= faults
      ensures r.Err? && faults == old(faults) ==> Obstructed(manifest, (stack + [id])[0])
      decreases Left(manifest, starting - {id}), 1
    {
      hide Ordered, DependsOn, Obstructed, IsPath, RequirementsKnown, IsDependency;
      ghost var path := stack + [id];
      var service := FindService(manifest.services, id);
      if service.None? {
        StuckAt(manifest, path);
        return Err(UnknownService(id));
      }
      var dependencies := ServiceDependencies(service.value);
      if dependencies.Err? {
        StuckAt(manifest, path);
        return Err(dependencies.error);
      }
      ResolvedHere(manifest, id, dependencies.value);
      r := StartDependencies(dependencies.value, id, path);
      if r.Ok? {
        r := StartService(id);
      }
    }

    /** Starts every dependency and waits until it is ready. */
    method StartDependencies(dependencies: seq<Id>, id: Id, ghost path: seq<Id>)
      returns (r: Result<(), ActivationError>)
      requires Valid() && Intact() && path != [] && path[|path| - 1] == id && IsPath(manifest, path)
      requires forall x :: x in starting <==> x in path
      requires Resolves(manifest, id) && forall d :: d in dependencies ==> DependsOn(manifest, id, d)
      modifies this
      ensures Valid() && starting == old(starting) && (r.Ok? ==> Intact())
      ensures r.Ok? ==> forall d :: d in dependencies ==> d in started && d in ready
      ensures old(started) <= started && old(ready) <= ready && old(faults) <= faults
      ensures r.Err? && faults == old(faults) ==> Obstructed(manifest, path[0])
      decreases Left(manifest, starting - {id}), 0
    {
      hide Ordered, DependsOn, Obstructed, IsPath, Left;
      LeftDrops(manifest, starting - {id}, id);
      assert starting - {id} + {id} == starting;
      var index := 0;
      r := Ok(());
      while index < |dependencies| && r.Ok?
        invariant index <= |dependencies| && Valid() && starting == old(starting) && (r.Ok? ==> Intact())
        invariant old(started) <= started && old(ready) <= ready && old(faults) <= faults
        invariant r.Ok? ==> forall i :: 0 <= i < index ==> dependencies[i] in started && dependencies[i] in ready
        invariant r.Err? && faults == old(faults) ==> Obstructed(manifest, path[0])
      {
        PathPush(manifest, path, dependencies[index]);
        r := StartServiceTree(dependencies[index], path);
        if r.Ok? {
          r := EnsureServiceReady(dependencies[index]);
        }
        index := index + 1;
      }
    }

    /** Activates the services of the start order. Whatever happens outside, no service is started before its
        dependencies are started and ready, and no process is created twice. If nothing outside fails, activation
        succeeds exactly when no dependency chain from the start order is obstructed, by a cycle or by a service
        or capability that does not exist. */
    method ActivateStartOrder() returns (r: Result<(), ActivationError>)
      requires Valid() && Intact() && starting == {}
      modifies this
      ensures Valid() && old(faults) <= faults
      ensures r.Ok? ==> Intact() && forall i :: 0 <= i < |manifest.startOrder| ==> manifest.startOrder[i] in started
      ensures faults == old(faults) ==>
                (r.Ok? <==> forall i :: 0 <= i < |manifest.startOrder| ==>
                                          !Obstructed(manifest, manifest.startOrder[i]))
    {
      hide Ordered, DependsOn, Obstructed, IsPath, Resolves;
      var index := 0;
      while index < |manifest.startOrder|
        invariant index <= |manifest.startOrder| && Valid() && Intact() && starting == {} && old(faults) <= faults
        invariant forall i :: 0 <= i < index ==> manifest.startOrder[i] in started
      {
        LonePath(manifest, manifest.startOrder[index]);
        r := StartServiceTree(manifest.startOrder[index], []);
        if r.Err? {
          assert ([] + [manifest.startOrder[index]])[0] == manifest.startOrder[index];
          return;
        }
        index := index + 1;
      }
      forall i | 0 <= i < |manifest.startOrder|
        ensures !Obstructed(manifest, manifest.startOrder[i])
      {
        LoggedIsClear(manifest, log, manifest.startOrder[i]);
      }
      return Ok(());
    }
  }

  ghost function Left(m: Manifest, starting: set<Id>): nat {
    |KnownIds(m) - starting|
  }

  lemma LeftDrops(m: Manifest, starting: set<Id>, id: Id)
    requires Known(m, id) && id !in starting
    ensures Left(m, starting + {id}) < Left(m, starting)
  {
    assert id in KnownIds(m);
    assert KnownIds(m) - starting == (KnownIds(m) - (starting + {id})) + {id};
  }

  lemma LonePath(m: Manifest, id: Id)
    ensures IsPath(m, [] + [id])
  {}

  lemma StuckAt(m: Manifest, p: seq<Id>)
    requires p != [] && IsPath(m, p) && !Resolves(m, p[|p| - 1])
    ensures Obstructed(m, p[0])
  {
    assert IsObstacle(m, p);
  }

  lemma Returned(m: Manifest, stack: seq<Id>, id: Id)
    requires id in stack && IsPath(m, stack + [id])
    ensures Obstructed(m, (stack + [id])[0])
  {
    var p := stack + [id];
    var k :| 0 <= k < |stack| && stack[k] == id;
    assert p[k] == p[|p| - 1];
    assert IsObstacle(m, p);
  }

  lemma ResolvedHere(m: Manifest, id: Id, dependencies: seq<Id>)
    requires Known(m, id) && RequirementsKnown(m, FindService(m.services, id).value)
    requires forall d :: d in dependencies <==> IsDependency(m, FindService(m.services, id).value, d)
    ensures Resolves(m, id) && forall d :: d in dependencies <==> DependsOn(m, id, d)
  {}
}
