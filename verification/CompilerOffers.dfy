/** The facts the boot compiler derives from what services offer, from the log daemon's secret, from device
    drivers and for the store verifier. */
module CompilerOffers {
  import opened Bits
  import opened Results
  import opened Wire
  import opened BootRecords
  import opened Manifests
  import opened PolicyTerms
  import opened FactTables
  import opened CompilerFacts
  import opened CompilerPaths

  // ----- Offered endpoints -----

  /** The fact key of an endpoint a service offers. */
  function OfferKey(m: Manifest, o: Objects, service: Str, offer: Str): Option<CapabilityKey> {
    var c := FindCapability(m.capabilities, offer);
    if c.None? || c.value.kind != KIND_IPC_ENDPOINT || c.value.provider != service then None else KeyOf(o, c.value)
  }

  function OfferGift(m: Manifest, o: Objects, service: Str, offer: Str): CapabilityTable {
    var key := OfferKey(m, o, service, offer);
    if key.None? then [] else [Entry(key.value, RIGHT_RECEIVE)]
  }

  function Provision(m: Manifest, o: Objects, service: Str, offer: Str): seq<PolicyProvide> {
    if OfferKey(m, o, service, offer).None? then [] else [PolicyProvide(service, offer)]
  }

  function OffersOf(m: Manifest, o: Objects, service: Str, offers: seq<Str>): CapabilityTable {
    if offers == [] then []
    else OffersOf(m, o, service, offers[..|offers| - 1]) + OfferGift(m, o, service, offers[|offers| - 1])
  }

  function ProvisionsOf(m: Manifest, o: Objects, service: Str, offers: seq<Str>): seq<PolicyProvide> {
    if offers == [] then []
    else ProvisionsOf(m, o, service, offers[..|offers| - 1]) + Provision(m, o, service, offers[|offers| - 1])
  }

  function OfferGifts(m: Manifest, plan: Plan, ss: seq<Service>): CapabilityTable {
    if ss == [] then []
    else
      var s := ss[|ss| - 1];
      OfferGifts(m, plan, ss[..|ss| - 1]) + if Native(plan.processes, s.id) then
        OffersOf(m, plan.objects, s.id, s.offers) else []
  }

  function Provisions(m: Manifest, plan: Plan, ss: seq<Service>): seq<PolicyProvide> {
    if ss == [] then []
    else
      var s := ss[|ss| - 1];
      Provisions(m, plan, ss[..|ss| - 1]) + if Native(plan.processes, s.id) then
        ProvisionsOf(m, plan.objects, s.id, s.offers) else []
  }

  predicate OffersKnown(m: Manifest, s: Service) {
    forall i :: 0 <= i < |s.offers| ==> FindCapability(m.capabilities, s.offers[i]).Some?
  }

  method AddOffersOf(m: Manifest, o: Objects, s: Service) returns (r: Option<(CapabilityTable, seq<PolicyProvide>)>)
    ensures r.Some? <==> OffersKnown(m, s)
    ensures r.Some? ==> r.value == (OffersOf(m, o, s.id, s.offers), ProvisionsOf(m, o, s.id, s.offers))
  {
    hide FindCapability, OfferKey;
    var gifts: CapabilityTable, provisions: seq<PolicyProvide>, i := [], [], 0;
    while i < |s.offers|
      invariant i <= |s.offers| && forall j :: 0 <= j < i ==> FindCapability(m.capabilities, s.offers[j]).Some?
      invariant gifts == OffersOf(m, o, s.id, s.offers[..i]) && provisions == ProvisionsOf(m, o, s.id, s.offers[..i])
    {
      if FindCapability(m.capabilities, s.offers[i]).None? {
        return None;
      }
      assert s.offers[..i + 1][..i] == s.offers[..i];
      gifts, provisions := gifts + OfferGift(m, o, s.id, s.offers[i]), provisions + Provision(m, o, s.id, s.offers[i]);
      i := i + 1;
    }
    assert s.offers[..i] == s.offers;
    return Some((gifts, provisions));
  }

  /** What native services offer. It fails exactly when one of them offers a capability that does not exist. */
  method AddOffers(m: Manifest, plan: Plan) returns (r: Option<(CapabilityTable, seq<PolicyProvide>)>)
    ensures r.Some? <==> forall i :: 0 <= i < |m.services| && Native(plan.processes, m.services[i].id) ==>
          OffersKnown(m, m.services[i])
    ensures r.Some? ==> r.value == (OfferGifts(m, plan, m.services), Provisions(m, plan, m.services))
  {
    hide OffersKnown, OffersOf, ProvisionsOf, Native;
    var gifts: CapabilityTable, provisions: seq<PolicyProvide>, i := [], [], 0;
    while i < |m.services|
      invariant i <= |m.services|
      invariant forall j :: 0 <= j < i && Native(plan.processes, m.services[j].id) ==> OffersKnown(m, m.services[j])
      invariant gifts == OfferGifts(m, plan, m.services[..i]) && provisions == Provisions(m, plan, m.services[..i])
    {
      var s := m.services[i];
      assert m.services[..i + 1][..i] == m.services[..i];
      if Native(plan.processes, s.id) {
        var more := AddOffersOf(m, plan.objects, s);
        if more.None? {
          return None;
        }
        gifts, provisions := gifts + more.value.0, provisions + more.value.1;
      }
      i := i + 1;
    }
    assert m.services[..i] == m.services;
    return Some((gifts, provisions));
  }

  /** Provisions are emitted once each. */
  method Deduplicate(xs: seq<PolicyProvide>) returns (r: seq<PolicyProvide>)
    ensures forall x :: x in r <==> x in xs
    ensures forall i, j :: 0 <= i < j < |r| ==> r[i] != r[j]
  {
    r := [];
    var i := 0;
    while i < |xs|
      invariant i <= |xs| && (forall x :: x in r <==> x in xs[..i]) && forall a, b :: 0 <= a < b < |r| ==> r[a] != r[b]
    {
      if xs[i] !in r {
        r := r + [xs[i]];
      }
      i := i + 1;
    }
    assert xs[..i] == xs;
  }

  lemma {:induction false} OfferIn(m: Manifest, o: Objects, service: Str, offers: seq<Str>, offer: Str)
    requires offer in offers && OfferKey(m, o, service, offer).Some?
    ensures Entry(OfferKey(m, o, service, offer).value, RIGHT_RECEIVE) in OffersOf(m, o, service, offers)
    ensures PolicyProvide(service, offer) in ProvisionsOf(m, o, service, offers)
  {
    hide OfferKey;
    if offer != offers[|offers| - 1] { OfferIn(m, o, service, offers[..|offers| - 1], offer); }
  }

  lemma {:induction false} OffersIn(m: Manifest, plan: Plan, ss: seq<Service>, s: Service, offer: Str)
    requires s in ss && Native(plan.processes, s.id) && offer in s.offers
             && OfferKey(m, plan.objects, s.id, offer).Some?
    ensures Entry(OfferKey(m, plan.objects, s.id, offer).value, RIGHT_RECEIVE) in OfferGifts(m, plan, ss)
    ensures PolicyProvide(s.id, offer) in Provisions(m, plan, ss)
  {
    hide OfferKey, Native;
    if s == ss[|ss| - 1] {
      OfferIn(m, plan.objects, s.id, s.offers, offer);
    } else {
      OffersIn(m, plan, ss[..|ss| - 1], s, offer);
    }
  }

  // ----- The log daemon's secret -----

  /** The first process of a name. */
  function ProcessCalled(processes: seq<Process>, name: Str): (r: Option<Process>)
    ensures r.Some? ==> r.value in processes && r.value.name == name
  {
    if processes == [] then None else if processes[0].name == name then Some(processes[0])
    else ProcessCalled(processes[1..], name)
  }

  function SecretGifts(processes: seq<Process>): CapabilityTable {
    var x := ProcessCalled(processes, LOGD);
    if x.None? then [] else [Entry(CapabilityKey(SECRET_LOGD_TOKEN, NodeId(x.value), OBJECT_SECRET, 0), RIGHT_READ)]
  }

  function SecretNeeds(processes: seq<Process>): RequirementTable {
    var x := ProcessCalled(processes, LOGD);
    if x.None? then [] else [Entry(RequirementKey(NodeId(x.value), SECRET_LOGD_TOKEN), RIGHT_READ)]
  }

  // ----- Device drivers -----

  function DeviceGift(names: seq<Str>, d: Device, kind: nat, suffix: Str): CapabilityTable {
    var index := IndexOf(names, d.id);
    if index.None? then [] else [Entry(CapabilityKey(d.id + suffix, d.driver, kind, index.value), RIGHT_CONTROL)]
  }

  function DeviceNeed(names: seq<Str>, d: Device, suffix: Str): RequirementTable {
    if d.id in names then [Entry(RequirementKey(d.driver, d.id + suffix), RIGHT_CONTROL)] else []
  }

  function DriverGift(plan: Plan, d: Device): CapabilityTable {
    if !Native(plan.processes, d.driver) then []
    else DeviceGift(plan.objects.pciDevices, d, OBJECT_PCI_DEVICE, PCI_SUFFIX)
         + DeviceGift(plan.objects.virtioDevices, d, OBJECT_VIRTIO_DEVICE, VIRTIO_SUFFIX)
  }

  function DriverNeed(plan: Plan, d: Device): RequirementTable {
    if !Native(plan.processes, d.driver) then []
    else DeviceNeed(plan.objects.pciDevices, d, PCI_SUFFIX) + DeviceNeed(plan.objects.virtioDevices, d, VIRTIO_SUFFIX)
  }

  function DriverGifts(plan: Plan, ds: seq<Device>): CapabilityTable {
    if ds == [] then [] else DriverGifts(plan, ds[..|ds| - 1]) + DriverGift(plan, ds[|ds| - 1])
  }

  function DriverNeeds(plan: Plan, ds: seq<Device>): RequirementTable {
    if ds == [] then [] else DriverNeeds(plan, ds[..|ds| - 1]) + DriverNeed(plan, ds[|ds| - 1])
  }

  /** The synthetic ids fit a record. */
  predicate DriverReads(plan: Plan, d: Device) {
    Native(plan.processes, d.driver) ==>
      && (d.id in plan.objects.pciDevices ==> |d.id + PCI_SUFFIX| <= STRING_LEN)
      && (d.id in plan.objects.virtioDevices ==> |d.id + VIRTIO_SUFFIX| <= STRING_LEN)
  }

  method AddDrivers(plan: Plan, ds: seq<Device>) returns (r: Option<(CapabilityTable, RequirementTable)>)
    ensures r.Some? <==> forall i :: 0 <= i < |ds| ==> DriverReads(plan, ds[i])
    ensures r.Some? ==> r.value == (DriverGifts(plan, ds), DriverNeeds(plan, ds))
  {
    hide DriverReads, DriverGift, DriverNeed;
    var gifts: CapabilityTable, needs: RequirementTable, i := [], [], 0;
    while i < |ds|
      invariant i <= |ds| && forall j :: 0 <= j < i ==> DriverReads(plan, ds[j])
      invariant gifts == DriverGifts(plan, ds[..i]) && needs == DriverNeeds(plan, ds[..i])
    {
      assert ds[..i + 1][..i] == ds[..i];
      if !DriverReads(plan, ds[i]) {
        return None;
      }
      gifts, needs := gifts + DriverGift(plan, ds[i]), needs + DriverNeed(plan, ds[i]);
      i := i + 1;
    }
    assert ds[..i] == ds;
    return Some((gifts, needs));
  }

  lemma {:induction false} DriverIn(plan: Plan, ds: seq<Device>, d: Device)
    requires d in ds
    ensures forall x :: x in DriverGift(plan, d) ==> x in DriverGifts(plan, ds)
    ensures forall x :: x in DriverNeed(plan, d) ==> x in DriverNeeds(plan, ds)
  {
    hide DriverGift, DriverNeed;
    if d != ds[|ds| - 1] { DriverIn(plan, ds[..|ds| - 1], d); }
  }

  // ----- The store verifier -----

  function VerifierNeed(stores: seq<Str>, id: Str): RequirementTable {
    if id in stores then [Entry(RequirementKey(VERTEX_STORE, id), RIGHT_READ)] else []
  }

  function VerifierNeeds(plan: Plan): RequirementTable {
    if !Native(plan.processes, VERTEX_STORE) then []
    else VerifierNeed(plan.objects.stores, STORE_LOGD) + VerifierNeed(plan.objects.stores, STORE_ECHO_SERVER)
         + VerifierNeed(plan.objects.stores, STORE_ECHO)
  }

  // ----- All of them -----

  function LaterFacts(m: Manifest, plan: Plan): CapabilityTable {
    OfferGifts(m, plan, m.services) + SecretGifts(plan.processes) + DriverGifts(plan, m.devices)
  }

  function LaterNeeds(m: Manifest, plan: Plan): RequirementTable {
    SecretNeeds(plan.processes) + DriverNeeds(plan, m.devices) + VerifierNeeds(plan)
  }

  lemma {:induction false} OffersNarrow(m: Manifest, o: Objects, service: Str, offers: seq<Str>)
    ensures Narrow(OffersOf(m, o, service, offers))
  {
    hide OfferKey, Pow2;
    SmallNarrow();
    if offers != [] { OffersNarrow(m, o, service, offers[..|offers| - 1]); }
  }

  lemma {:induction false} OfferGiftsNarrow(m: Manifest, plan: Plan, ss: seq<Service>)
    ensures Narrow(OfferGifts(m, plan, ss))
  {
    hide OffersOf, Pow2, Native;
    if ss != [] {
      OfferGiftsNarrow(m, plan, ss[..|ss| - 1]);
      OffersNarrow(m, plan.objects, ss[|ss| - 1].id, ss[|ss| - 1].offers);
    }
  }

  lemma {:induction false} DriversNarrow(plan: Plan, ds: seq<Device>)
    ensures Narrow(DriverGifts(plan, ds)) && Narrow(DriverNeeds(plan, ds))
  {
    hide Pow2, DriverGift, DriverNeed;
    if ds != [] {
      DriversNarrow(plan, ds[..|ds| - 1]);
      DriverNarrow(plan, ds[|ds| - 1]);
    }
  }

  lemma DriverNarrow(plan: Plan, d: Device)
    ensures Narrow(DriverGift(plan, d)) && Narrow(DriverNeed(plan, d))
  {
    hide IndexOf, Pow2, Native;
    SmallNarrow();
  }

  lemma LaterNarrow(m: Manifest, plan: Plan)
    ensures Narrow(LaterFacts(m, plan)) && Narrow(LaterNeeds(m, plan))
  {
    hide OfferGifts, DriverGifts, DriverNeeds, Pow2, ProcessCalled, Native;
    SmallNarrow();
    OfferGiftsNarrow(m, plan, m.services);
    DriversNarrow(plan, m.devices);
  }
}
