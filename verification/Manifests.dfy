/** The generation manifest: what the build declares, the boot compiler compiles and the supervisor runs. */
module Manifests {
  import opened Bytes
  import opened Results

  type Id = seq<Byte>

  /** A capability a service asks for, with the rights it wants; no rights means all. */
  datatype Need = Need(capability: Id, rights: seq<Id>)

  /** `health` is the kind of the service's health check, if it has one. */
  datatype Service = Service(id: Id, startAfter: seq<Id>, needs: seq<Need>, configs: seq<Id>, offers: seq<Id>,
                             health: Option<Id>)

  datatype Capability = Capability(id: Id, kind: Id, provider: Id, rights: seq<Id>, root: Option<Id>)

  datatype Sharing = Sharing(mode: Option<Id>, readers: seq<Id>, writers: seq<Id>, controllers: seq<Id>)

  datatype State = State(id: Id, owner: Id, sharing: Sharing)

  datatype Store = Store(id: Id, kind: Id)

  datatype Device = Device(id: Id, kind: Id, transport: Option<Id>, driver: Id)

  datatype Manifest = Manifest(services: seq<Service>, capabilities: seq<Capability>, states: seq<State>,
                               stores: seq<Store>, devices: seq<Device>, startOrder: seq<Id>, rootService: Id)

  /** The first service with an id. */
  function FindService(services: seq<Service>, id: Id): (r: Option<Service>)
    ensures r.Some? ==> r.value in services && r.value.id == id
    ensures r.None? <==> forall i :: 0 <= i < |services| ==> services[i].id != id
  {
    if services == [] then None else if services[0].id == id then Some(services[0]) else FindService(services[1..], id)
  }

  /** The first capability with an id. */
  function FindCapability(capabilities: seq<Capability>, id: Id): (r: Option<Capability>)
    ensures r.Some? ==> r.value in capabilities && r.value.id == id
    ensures r.None? <==> forall i :: 0 <= i < |capabilities| ==> capabilities[i].id != id
  {
    if capabilities == [] then None
    else if capabilities[0].id == id then Some(capabilities[0])
    else FindCapability(capabilities[1..], id)
  }

  ghost predicate Known(m: Manifest, id: Id) {
    FindService(m.services, id).Some?
  }

  /** The services that exist. */
  ghost function KnownIds(m: Manifest): set<Id> {
    set i | 0 <= i < |m.services| :: m.services[i].id
  }

  /** `d` is an existing service that provides the capability. */
  ghost predicate Provides(m: Manifest, capability: Id, d: Id) {
    var c := FindCapability(m.capabilities, capability);
    c.Some? && c.value.provider == d && Known(m, d)
  }

  lemma ProvidesWhat(m: Manifest, capability: Id)
    ensures forall d :: Provides(m, capability, d) <==>
          FindCapability(m.capabilities, capability).Some?
          && FindCapability(m.capabilities, capability).value.provider == d && Known(m, d)
  {}

  ghost predicate NoDuplicates<T>(s: seq<T>) {
    forall i, j :: 0 <= i < j < |s| ==> s[i] != s[j]
  }

  lemma AppendNew<T>(s: seq<T>, x: T)
    requires NoDuplicates(s) && x !in s
    ensures NoDuplicates(s + [x])
  {}
}
