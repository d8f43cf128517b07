/** The package linker's start order: services are emitted in rounds, the root first and every other one after
    its dependencies. */
module LinkedOrder {
  import opened Manifests
  import opened Results

  type Dependencies = map<Id, set<Id>>

  /** The provider of a capability: of several declarations, the last. */
  function ProviderOf(capabilities: seq<Capability>, id: Id): Option<Id> {
    if capabilities == [] then None
    else
      var last := capabilities[|capabilities| - 1];
      if last.id == id then Some(last.provider) else ProviderOf(capabilities[..|capabilities| - 1], id)
  }

  /** What one declaration makes its service depend on: linked services it starts after, and linked services
      other than itself that provide what it requires. */
  ghost predicate Declares(ids: seq<Id>, capabilities: seq<Capability>, s: Service, d: Id) {
    && d in ids
    && (d in s.startAfter
        || (d != s.id && exists i :: 0 <= i < |s.needs| && ProviderOf(capabilities, s.needs[i].capability) == Some(d)))
  }

  /** Service `id` depends on `d` through one of its declarations. */
  ghost predicate Depends(ids: seq<Id>, services: seq<Service>, capabilities: seq<Capability>, id: Id, d: Id) {
    exists k :: 0 <= k < |services| && services[k].id == id && Declares(ids, capabilities, services[k], d)
  }

  /** The dependencies of every linked service. */
  ghost function DependenciesOf(ids: seq<Id>, services: seq<Service>, capabilities: seq<Capability>): Dependencies {
    map id | id in ids :: set d | d in ids && Depends(ids, services, capabilities, id, d)
  }

  // ----- Orders -----

  /** All services, none twice, the root first, and every other one after its dependencies. */
  ghost predicate StartOrder(ids: seq<Id>, deps: Dependencies, root: Id, order: seq<Id>) {
    && NoDuplicates(order)
    && (forall id :: id in order <==> id in ids)
    && (root in ids ==> order != [] && order[0] == root)
    && RespectsDependencies(deps, root, order)
  }

  ghost predicate RespectsDependencies(deps: Dependencies, root: Id, order: seq<Id>) {
    forall i :: 0 <= i < |order| && order[i] != root && order[i] in deps ==> forall d :: d in deps[order[i]] ==>
          d in order[..i]
  }

  /** `id` depends on a service in `stuck`. */
  ghost predicate WaitsFor(deps: Dependencies, id: Id, stuck: set<Id>) {
    id in deps && exists d :: d in deps[id] && d in stuck
  }

  /** Services that each wait for another of them have no order. */
  lemma StuckHasNoOrder(ids: seq<Id>, deps: Dependencies, root: Id, stuck: set<Id>, order: seq<Id>)
    requires stuck != {} && root !in stuck && forall id :: id in stuck ==> id in ids && WaitsFor(deps, id, stuck)
    ensures !StartOrder(ids, deps, root, order)
  {
    hide WaitsFor;
    if StartOrder(ids, deps, root, order) {
      var id :| id in stuck;
      var i :| 0 <= i < |order| && order[i] == id;
      NotStuck(deps, root, stuck, order, i);
    }
  }

  lemma {:induction false} NotStuck(deps: Dependencies, root: Id, stuck: set<Id>, order: seq<Id>, i: nat)
    requires root !in stuck && RespectsDependencies(deps, root, order) && forall id :: id in stuck ==>
          WaitsFor(deps, id, stuck)
    requires i < |order|
    ensures order[i] !in stuck
    decreases i
  {
    hide WaitsFor;
    if order[i] in stuck {
      var d := WaitedFor(deps, order[i], stuck);
      assert d in order[..i];
      var j :| 0 <= j < i && order[j] == d;
      NotStuck(deps, root, stuck, order, j);
    }
  }

  lemma WaitedFor(deps: Dependencies, id: Id, stuck: set<Id>) returns (d: Id)
    requires WaitsFor(deps, id, stuck)
    ensures id in deps && d in deps[id] && d in stuck
  {
    d :| d in deps[id] && d in stuck;
  }

  // ----- The code -----

  method CollectDependencies(ids: seq<Id>, services: seq<Service>, capabilities: seq<Capability>)
    returns (deps: Dependencies)
    ensures forall id :: id in deps <==> exists k :: 0 <= k < |services| && services[k].id == id
    ensures forall id, d :: id in deps ==> (d in deps[id] <==> Depends(ids, services, capabilities, id, d))
  {
    hide Declares;
    deps := map[];
    var index := 0;
    while index < |services|
      invariant index <= |services|
      invariant forall id :: id in deps <==> exists k :: 0 <= k < index && services[k].id == id
      invariant forall id, d :: id in deps ==>
            (d in deps[id] <==>
             exists k :: 0 <= k < index && services[k].id == id && Declares(ids, capabilities, services[k], d))
    {
      var service := services[index];
      var declared := DeclaredDependencies(ids, capabilities, service);
      ghost var before := deps;
      deps := deps[service.id := (if service.id in deps then deps[service.id] else {}) + declared];
      index := index + 1;
    }
  }

  method DeclaredDependencies(ids: seq<Id>, capabilities: seq<Capability>, s: Service) returns (entry: set<Id>)
    ensures forall d :: d in entry <==> Declares(ids, capabilities, s, d)
  {
    hide ProviderOf;
    entry := {};
    var index := 0;
    while index < |s.startAfter|
      invariant index <= |s.startAfter| && forall d :: d in entry <==> d in ids && d in s.startAfter[..index]
    {
      if s.startAfter[index] in ids {
        entry := entry + {s.startAfter[index]};
      }
      index := index + 1;
    }
    assert s.startAfter[..|s.startAfter|] == s.startAfter;
    index := 0;
    while index < |s.needs|
      invariant index <= |s.needs|
      invariant forall d :: d in entry <==>
            && d in ids
            && (|| d in s.startAfter
                || (&& d != s.id
                    && exists i :: 0 <= i < index && ProviderOf(capabilities, s.needs[i].capability) == Some(d)))
    {
      var provider := ProviderOf(capabilities, s.needs[index].capability);
      if provider.Some? && provider.value in ids && provider.value != s.id {
        entry := entry + {provider.value};
      }
      index := index + 1;
    }
  }

  ghost predicate IsReady(deps: Dependencies, emitted: set<Id>, id: Id) {
    id in deps ==> deps[id] <= emitted
  }

  /** What has been emitted so far is a start order of its own. */
  ghost predicate Emitting(ids: seq<Id>, deps: Dependencies, root: Id, order: seq<Id>, emitted: set<Id>) {
    && NoDuplicates(order) && (forall id :: id in order <==> id in emitted)
    && (forall id :: id in emitted ==> id in ids)
    && (root in ids ==> order != [] && order[0] == root)
    && RespectsDependencies(deps, root, order)
  }

  lemma EmitOne(ids: seq<Id>, deps: Dependencies, root: Id, order: seq<Id>, emitted: set<Id>, id: Id)
    requires Emitting(ids, deps, root, order, emitted) && id in ids && id !in emitted && IsReady(deps, emitted, id)
    ensures Emitting(ids, deps, root, order + [id], emitted + {id})
  {
    AppendNew(order, id);
    var order' := order + [id];
    forall i | 0 <= i < |order'| && order'[i] != root && order'[i] in deps
      ensures forall d :: d in deps[order'[i]] ==> d in order'[..i]
    {
      assert order'[..i] == if i < |order| then order[..i] else order;
    }
  }

  /** One round over the services, in the order of the set of ids. */
  method EmitRound(ids: seq<Id>, deps: Dependencies, root: Id, order: seq<Id>, emitted: set<Id>)
    returns (order': seq<Id>, emitted': set<Id>, progress: bool)
    requires Emitting(ids, deps, root, order, emitted)
    ensures Emitting(ids, deps, root, order', emitted') && emitted <= emitted'
    ensures progress ==> |emitted'| > |emitted|
    ensures !progress ==> emitted' == emitted && forall id :: id in ids && id !in emitted ==>
          !IsReady(deps, emitted, id)
  {
    hide Emitting, IsReady;
    order', emitted', progress := order, emitted, false;
    var index := 0;
    while index < |ids|
      invariant index <= |ids| && Emitting(ids, deps, root, order', emitted') && emitted <= emitted'
      invariant progress ==> |emitted'| > |emitted|
      invariant !progress ==> emitted' == emitted && forall i :: 0 <= i < index && ids[i] !in emitted ==>
            !IsReady(deps, emitted, ids[i])
    {
      var id := ids[index];
      if id !in emitted' {
        var ready := CheckReady(deps, emitted', id);
        if ready {
          EmitOne(ids, deps, root, order', emitted', id);
          Grows(emitted, emitted', id);
          order', emitted', progress := order' + [id], emitted' + {id}, true;
        }
      }
      index := index + 1;
    }
  }

  lemma Grows(a: set<Id>, b: set<Id>, x: Id)
    requires a <= b && x !in b
    ensures |b + {x}| > |a|
  {
    assert b == a + (b - a);
  }

  method CheckReady(deps: Dependencies, emitted: set<Id>, id: Id) returns (ready: bool)
    ensures ready <==> IsReady(deps, emitted, id)
  {
    return id in deps ==> deps[id] <= emitted;
  }

  /** Orders the linked services, listed once each in `ids`. Succeeds exactly when an order exists. */
  method LinkedStartOrder(root: Id, ids: seq<Id>, services: seq<Service>, capabilities: seq<Capability>)
    returns (r: Result<seq<Id>, ()>)
    requires NoDuplicates(ids) && forall id :: id in ids <==> exists k :: 0 <= k < |services| && services[k].id == id
    ensures r.Ok? ==> StartOrder(ids, DependenciesOf(ids, services, capabilities), root, r.value)
    ensures r.Err? ==> forall order :: !StartOrder(ids, DependenciesOf(ids, services, capabilities), root, order)
  {
    hide Depends, IsReady, DependenciesOf;
    var dependencies := CollectDependencies(ids, services, capabilities);
    var order: seq<Id>, emitted: set<Id> := [], {};
    if root in ids {
      order, emitted := [root], {root};
    }
    DependsInIds(ids, services, capabilities, dependencies);
    while |emitted| < |ids|
      invariant Emitting(ids, dependencies, root, order, emitted)
      decreases |ids| - |emitted|
    {
      var progress;
      order, emitted, progress := EmitRound(ids, dependencies, root, order, emitted);
      WithinIds(ids, emitted);
      if !progress {
        NoOrderLeft(ids, dependencies, root, order, emitted);
        return Err(());
      }
    }
    AllEmitted(ids, dependencies, root, order, emitted);
    return Ok(order);
  }

  lemma {:induction false} CountIds(ids: seq<Id>)
    requires NoDuplicates(ids)
    ensures |set id | id in ids| == |ids|
  {
    if ids != [] {
      var front, last := ids[..|ids| - 1], ids[|ids| - 1];
      CountIds(front);
      var before := set id | id in front;
      assert last !in before;
      assert (set id | id in ids) == before + {last};
    }
  }

  lemma WithinIds(ids: seq<Id>, emitted: set<Id>)
    requires NoDuplicates(ids) && forall id :: id in emitted ==> id in ids
    ensures |emitted| <= |ids|
    ensures |emitted| == |ids| ==> forall id :: id in ids ==> id in emitted
  {
    CountIds(ids);
    var all := set id | id in ids;
    assert all == emitted + (all - emitted);
    if |emitted| == |ids| { assert all - emitted == {}; }
  }

  lemma AllEmitted(ids: seq<Id>, deps: Dependencies, root: Id, order: seq<Id>, emitted: set<Id>)
    requires NoDuplicates(ids) && Emitting(ids, deps, root, order, emitted) && |emitted| >= |ids|
    ensures StartOrder(ids, deps, root, order)
  {
    WithinIds(ids, emitted);
  }

  lemma SomeLeft(ids: seq<Id>, emitted: set<Id>) returns (left: Id)
    requires NoDuplicates(ids) && (forall id :: id in emitted ==> id in ids) && |emitted| < |ids|
    ensures left in ids && left !in emitted
  {
    CountIds(ids);
    var all := set id | id in ids;
    assert all == emitted + (all - emitted);
    assert all - emitted != {};
    left :| left in all - emitted;
  }

  lemma DependsInIds(ids: seq<Id>, services: seq<Service>, capabilities: seq<Capability>, deps: Dependencies)
    requires forall id, d :: id in deps ==> (d in deps[id] <==> Depends(ids, services, capabilities, id, d))
    requires forall id :: id in deps <==> id in ids
    ensures forall id, d :: id in deps && d in deps[id] ==> d in ids
    ensures deps == DependenciesOf(ids, services, capabilities)
  {
    var all := DependenciesOf(ids, services, capabilities);
    forall id, d | id in deps && d in deps[id]
      ensures d in ids
    {
      assert Depends(ids, services, capabilities, id, d);
    }
    forall id | id in deps
      ensures deps[id] == all[id]
    {
      assert forall d :: d in deps[id] <==> d in all[id];
    }
  }

  /** A round without progress proves that there is no order at all. */
  lemma NoOrderLeft(ids: seq<Id>, deps: Dependencies, root: Id, order: seq<Id>, emitted: set<Id>)
    requires NoDuplicates(ids) && Emitting(ids, deps, root, order, emitted) && |emitted| < |ids|
    requires forall id :: id in ids && id !in emitted ==> !IsReady(deps, emitted, id)
    requires forall id, d :: id in deps && d in deps[id] ==> d in ids
    ensures forall o :: !StartOrder(ids, deps, root, o)
  {
    var stuck := set id | id in ids && id !in emitted;
    var left := SomeLeft(ids, emitted);
    assert left in stuck;
    forall id | id in stuck
      ensures WaitsFor(deps, id, stuck)
    {
      assert !(deps[id] <= emitted);
      var d :| d in deps[id] && d !in emitted;
      assert d in stuck;
    }
    forall o
      ensures !StartOrder(ids, deps, root, o)
    {
      StuckHasNoOrder(ids, deps, root, stuck, o);
    }
  }
}
