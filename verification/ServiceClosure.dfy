/** The boot compiler's worklist: every service the start order and the root can need. */
module ServiceClosure {
  import opened Manifests
  import opened Results

  datatype ClosureError = UnknownService(id: Id) | UnknownDependency(id: Id) | UnknownCapability(id: Id)

  // ----- What is needed -----

  /** Service `s` needs `d`: it starts after it, or requires a capability that it provides. */
  ghost predicate Needs(m: Manifest, s: Service, d: Id) {
    d in s.startAfter || exists i :: 0 <= i < |s.needs| && Provides(m, s.needs[i].capability, d)
  }

  ghost predicate NeedsId(m: Manifest, id: Id, d: Id) {
    Known(m, id) && Needs(m, FindService(m.services, id).value, d)
  }

  /** A chain of needs from a seed. */
  ghost predicate IsChain(m: Manifest, seeds: seq<Id>, p: seq<Id>) {
    p != [] && p[0] in seeds && forall k :: 0 <= k < |p| - 1 ==> NeedsId(m, p[k], p[k + 1])
  }

  ghost predicate Reachable(m: Manifest, seeds: seq<Id>, id: Id) {
    exists p :: IsChain(m, seeds, p) && p[|p| - 1] == id
  }

  /** A service exists, and so do all it starts after and all capabilities it requires. */
  ghost predicate Complete(m: Manifest, id: Id) {
    Known(m, id) && ServiceComplete(m, FindService(m.services, id).value)
  }

  ghost predicate ServiceComplete(m: Manifest, s: Service) {
    && (forall i :: 0 <= i < |s.startAfter| ==> Known(m, s.startAfter[i]))
    && (forall i :: 0 <= i < |s.needs| ==> FindCapability(m.capabilities, s.needs[i].capability).Some?)
  }

  /** Where the worklist starts. */
  function Seeds(m: Manifest, root: Id): seq<Id> {
    var first := if m.startOrder == [] then IdsOf(m.services) else m.startOrder;
    if root in first then first else [root] + first
  }

  function IdsOf(services: seq<Service>): (ids: seq<Id>)
    ensures |ids| == |services| && forall i :: 0 <= i < |ids| ==> ids[i] == services[i].id
  {
    seq(|services|, i requires 0 <= i < |services| => services[i].id)
  }

  lemma SeedReachable(m: Manifest, seeds: seq<Id>, id: Id)
    requires id in seeds
    ensures Reachable(m, seeds, id)
  {
    assert IsChain(m, seeds, [id]);
  }

  lemma StepReachable(m: Manifest, seeds: seq<Id>, id: Id, d: Id)
    requires Reachable(m, seeds, id) && NeedsId(m, id, d)
    ensures Reachable(m, seeds, d)
  {
    var p :| IsChain(m, seeds, p) && p[|p| - 1] == id;
    var q := p + [d];
    forall k | 0 <= k < |q| - 1
      ensures NeedsId(m, q[k], q[k + 1])
    {
      if k < |p| - 1 { assert NeedsId(m, p[k], p[k + 1]); }
    }
    assert IsChain(m, seeds, q);
  }

  /** A set that holds the seeds and all that its members need holds all that is reachable. */
  lemma {:induction false} ClosedHoldsChain(m: Manifest, seeds: seq<Id>, order: seq<Id>, p: seq<Id>)
    requires IsChain(m, seeds, p) && (forall id :: id in seeds ==> id in order)
    requires forall id, d :: id in order && NeedsId(m, id, d) ==> d in order
    ensures p[|p| - 1] in order
    decreases |p|
  {
    if |p| > 1 {
      var q := p[..|p| - 1];
      assert IsChain(m, seeds, q) by {
        forall k | 0 <= k < |q| - 1
          ensures NeedsId(m, q[k], q[k + 1])
        {
          assert NeedsId(m, p[k], p[k + 1]);
        }
      }
      ClosedHoldsChain(m, seeds, order, q);
      assert NeedsId(m, p[|p| - 2], p[|p| - 1]);
    }
  }

  // ----- The worklist -----

  /** The seeds, then services reached from them, each once. */
  ghost predicate Growing(m: Manifest, seeds: seq<Id>, order: seq<Id>) {
    && seeds <= order
    && (forall i, j :: 0 <= i < j < |order| && |seeds| <= j ==> order[i] != order[j])
    && (forall i :: |seeds| <= i < |order| ==> Known(m, order[i]))
    && (forall id :: id in order ==> Reachable(m, seeds, id))
  }

  ghost function Unlisted(m: Manifest, order: seq<Id>): nat {
    |KnownIds(m) - (set id | id in order)|
  }

  lemma Listed(m: Manifest, order: seq<Id>, id: Id)
    requires Known(m, id) && id !in order
    ensures Unlisted(m, order + [id]) < Unlisted(m, order)
  {
    var a, b := set x | x in order, set x | x in order + [id];
    assert id in KnownIds(m);
    assert KnownIds(m) - a == (KnownIds(m) - b) + {id};
  }

  /** Adds a reachable known service unless it is listed. */
  method PushUniqueService(m: Manifest, seeds: seq<Id>, order: seq<Id>, id: Id) returns (r: seq<Id>)
    requires Growing(m, seeds, order) && Known(m, id) && Reachable(m, seeds, id)
    ensures Growing(m, seeds, r) && order <= r && id in r && forall d :: d in order ==> d in r
    ensures r == order || Unlisted(m, r) < Unlisted(m, order)
  {
    hide Reachable, Unlisted;
    r := order;
    if id !in order {
      Listed(m, order, id);
      r := order + [id];
      assert id == r[|order|];
    }
  }

  /** The list only grows, and only with services not listed before. */
  ghost predicate Longer(m: Manifest, order: seq<Id>, r: seq<Id>) {
    order <= r && (r == order || Unlisted(m, r) < Unlisted(m, order))
  }

  method PushDependencies(m: Manifest, seeds: seq<Id>, order: seq<Id>, s: Service)
    returns (r: Result<seq<Id>, ClosureError>)
    requires Growing(m, seeds, order) && s.id in order && FindService(m.services, s.id) == Some(s)
    ensures r.Ok? <==> forall i :: 0 <= i < |s.startAfter| ==> Known(m, s.startAfter[i])
    ensures r.Ok? ==> Growing(m, seeds, r.value) && Longer(m, order, r.value) && forall d :: d in s.startAfter ==>
          d in r.value
  {
    hide Reachable, Unlisted, Growing;
    var list, index := order, 0;
    while index < |s.startAfter|
      invariant index <= |s.startAfter| && Growing(m, seeds, list) && Longer(m, order, list)
      invariant forall i :: 0 <= i < index ==> Known(m, s.startAfter[i]) && s.startAfter[i] in list
    {
      var dependency := s.startAfter[index];
      if FindService(m.services, dependency).None? {
        return Err(UnknownDependency(dependency));
      }
      ListedReachable(m, seeds, order, s.id);
      StepReachable(m, seeds, s.id, dependency);
      list := PushUniqueService(m, seeds, list, dependency);
      index := index + 1;
    }
    return Ok(list);
  }

  lemma ListedReachable(m: Manifest, seeds: seq<Id>, order: seq<Id>, id: Id)
    requires Growing(m, seeds, order) && id in order
    ensures Reachable(m, seeds, id)
  {}

  method PushProviders(m: Manifest, seeds: seq<Id>, order: seq<Id>, s: Service)
    returns (r: Result<seq<Id>, ClosureError>)
    requires Growing(m, seeds, order) && s.id in order && FindService(m.services, s.id) == Some(s)
    ensures r.Ok? <==> forall i :: 0 <= i < |s.needs| ==> FindCapability(m.capabilities, s.needs[i].capability).Some?
    ensures r.Ok? ==>
              && Growing(m, seeds, r.value) && Longer(m, order, r.value)
              && forall i, d :: 0 <= i < |s.needs| && Provides(m, s.needs[i].capability, d) ==> d in r.value
  {
    hide Reachable, Unlisted, Growing, Provides;
    var list, index := order, 0;
    while index < |s.needs|
      invariant index <= |s.needs| && Growing(m, seeds, list) && Longer(m, order, list)
      invariant forall i :: 0 <= i < index ==> FindCapability(m.capabilities, s.needs[i].capability).Some?
      invariant forall i, d :: 0 <= i < index && Provides(m, s.needs[i].capability, d) ==> d in list
    {
      var capability := FindCapability(m.capabilities, s.needs[index].capability);
      if capability.None? {
        return Err(UnknownCapability(s.needs[index].capability));
      }
      ProvidesWhat(m, s.needs[index].capability);
      var provider := capability.value.provider;
      if FindService(m.services, provider).Some? {
        ListedReachable(m, seeds, order, s.id);
        assert NeedsId(m, s.id, provider);
        StepReachable(m, seeds, s.id, provider);
        list := PushUniqueService(m, seeds, list, provider);
      }
      index := index + 1;
    }
    return Ok(list);
  }

  /** The services listed before `cursor` are complete, and all they need is listed. */
  ghost predicate Expanded(m: Manifest, order: seq<Id>, cursor: nat)
    requires cursor <= |order|
  {
    forall i :: 0 <= i < cursor ==> Complete(m, order[i]) && forall d :: NeedsId(m, order[i], d) ==> d in order
  }

  method Expand(m: Manifest, seeds: seq<Id>, order: seq<Id>, cursor: nat) returns (r: Result<seq<Id>, ClosureError>)
    requires cursor < |order| && Growing(m, seeds, order) && Expanded(m, order, cursor)
    ensures r.Ok? <==> Complete(m, order[cursor])
    ensures r.Ok? ==> Growing(m, seeds, r.value) && Longer(m, order, r.value) && Expanded(m, r.value, cursor + 1)
  {
    hide Reachable, Unlisted, Growing, Provides;
    var id := order[cursor];
    var service := FindService(m.services, id);
    if service.None? {
      return Err(UnknownService(id));
    }
    r := PushDependencies(m, seeds, order, service.value);
    if r.Ok? {
      var middle := r.value;
      r := PushProviders(m, seeds, middle, service.value);
      if r.Ok? {
        forall i | 0 <= i < cursor + 1
          ensures Complete(m, r.value[i]) && forall d :: NeedsId(m, r.value[i], d) ==> d in r.value
        {
          assert r.value[i] == order[i];
        }
      }
    }
  }

  /** Lists exactly the services reachable from the start order and the root, adding none twice; fails exactly
      when one of them is incomplete. */
  method NativeServiceClosure(m: Manifest, root: Id) returns (r: Result<seq<Id>, ClosureError>)
    ensures r.Ok? <==> forall id :: Reachable(m, Seeds(m, root), id) ==> Complete(m, id)
    ensures r.Ok? ==>
              && (forall id :: id in r.value <==> Reachable(m, Seeds(m, root), id))
              && Seeds(m, root) <= r.value
              && (forall i, j :: 0 <= i < j < |r.value| && |Seeds(m, root)| <= j ==> r.value[i] != r.value[j])
  {
    hide Reachable, Unlisted, Growing, Expanded, Complete;
    var seeds := Seeds(m, root);
    SeedsGrow(m, seeds);
    var order, cursor := seeds, 0;
    while cursor < |order|
      invariant cursor <= |order| && Growing(m, seeds, order) && Expanded(m, order, cursor)
      decreases Unlisted(m, order), |order| - cursor
    {
      r := Expand(m, seeds, order, cursor);
      if r.Err? {
        ListedReachable(m, seeds, order, order[cursor]);
        return;
      }
      order := r.value;
      cursor := cursor + 1;
    }
    ClosureDone(m, seeds, order);
    return Ok(order);
  }

  lemma SeedsGrow(m: Manifest, seeds: seq<Id>)
    ensures Growing(m, seeds, seeds) && Expanded(m, seeds, 0)
  {
    hide Reachable;
    forall id | id in seeds
      ensures Reachable(m, seeds, id)
    {
      SeedReachable(m, seeds, id);
    }
  }

  lemma ClosureDone(m: Manifest, seeds: seq<Id>, order: seq<Id>)
    requires Growing(m, seeds, order) && Expanded(m, order, |order|)
    ensures forall id :: id in order <==> Reachable(m, seeds, id)
    ensures forall id :: Reachable(m, seeds, id) ==> Complete(m, id)
    ensures seeds <= order && forall i, j :: 0 <= i < j < |order| && |seeds| <= j ==> order[i] != order[j]
  {
    hide Complete, NeedsId;
    forall id, d | id in order && NeedsId(m, id, d)
      ensures d in order
    {
      var i :| 0 <= i < |order| && order[i] == id;
    }
    forall id | Reachable(m, seeds, id)
      ensures id in order && Complete(m, id)
    {
      var p :| IsChain(m, seeds, p) && p[|p| - 1] == id;
      ClosedHoldsChain(m, seeds, order, p);
      var i :| 0 <= i < |order| && order[i] == id;
    }
  }
}
