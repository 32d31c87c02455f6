/**
 Finalising audio devices (src/audio.rs): profiles and endpoints arrive in any order, and the
 published device must not depend on it.
 */
module AudioDevices {
  import opened Wrappers
  import opened Sorting

  datatype EndpointKind = Sink | Source

  datatype Endpoint = Endpoint(id: nat, serial: Option<nat>, name: string, kind: EndpointKind, state: string,
                               isDefault: bool, codec: Option<string>, priority: int, hidden: bool)

  datatype Profile = Profile(index: nat, name: string, description: string, available: bool, priority: int,
                             mode: string, codec: Option<string>)

  datatype Defaults = Defaults(sink: string, source: string)

  /** The fields of a device; `transports` are its internal endpoints. */
  datatype Device = Device(id: nat, address: string, adapter: string, name: string, activeProfile: Option<nat>,
                           profiles: seq<Profile>, endpoints: seq<Endpoint>, transports: seq<Endpoint>,
                           sink: Option<Endpoint>, source: Option<Endpoint>)

  // ---------------------------------------------------------------- the two orders

  /** Higher priority first, then the lower index. */
  predicate ProfileBefore(a: Profile, b: Profile) {
    if a.priority != b.priority then a.priority > b.priority else a.index <= b.index
  }

  /** The default first, then higher priority, then by name and identifier. */
  predicate EndpointBefore(a: Endpoint, b: Endpoint) {
    if a.isDefault != b.isDefault then a.isDefault
    else if a.priority != b.priority then a.priority > b.priority
    else if a.name != b.name then NotAfter(a.name, b.name)
    else a.id <= b.id
  }

  lemma ProfileOrder()
    ensures TotalPreorder(ProfileBefore)
  {
  }

  lemma EndpointOrder()
    ensures TotalPreorder(EndpointBefore)
  {
    StringOrder();
  }

  predicate DistinctIndexes(profiles: seq<Profile>) {
    forall i, j :: 0 <= i < j < |profiles| ==> profiles[i].index != profiles[j].index
  }

  predicate DistinctIds(nodes: seq<Endpoint>) {
    forall i, j :: 0 <= i < j < |nodes| ==> nodes[i].id != nodes[j].id
  }

  // ---------------------------------------------------------------- one device

  function DefaultName(kind: EndpointKind, defaults: Defaults): string {
    if kind == Sink then defaults.sink else defaults.source
  }

  function Marked(e: Endpoint, defaults: Defaults): Endpoint {
    e.(isDefault := e.name == DefaultName(e.kind, defaults))
  }

  function Marking(defaults: Defaults): Endpoint -> Endpoint {
    (e: Endpoint) => Marked(e, defaults)
  }

  function FirstOf(endpoints: seq<Endpoint>, kind: EndpointKind): Option<Endpoint> {
    if endpoints == [] then None
    else if endpoints[0].kind == kind then Some(endpoints[0])
    else FirstOf(endpoints[1..], kind)
  }

  /** The codecs of the endpoints that know theirs. */
  function Codecs(endpoints: seq<Endpoint>): (codecs: seq<string>)
    ensures forall c :: c in codecs <==> exists e <- endpoints :: e.codec == Some(c)
  {
    if endpoints == [] then []
    else
      assert endpoints == [endpoints[0]] + endpoints[1..];
      (if endpoints[0].codec.Some? then [endpoints[0].codec.value] else []) + Codecs(endpoints[1..])
  }

  function CommonCodec(endpoints: seq<Endpoint>): Option<string> {
    var codecs := Codecs(endpoints);
    if codecs != [] && forall c <- codecs :: c == codecs[0] then Some(codecs[0]) else None
  }

  /** Endpoints that do not know their codec do not disagree; a codec counts if all the others name it. */
  lemma CommonCodecIff(endpoints: seq<Endpoint>, codec: string)
    ensures CommonCodec(endpoints) == Some(codec)
       <==> && (exists e <- endpoints :: e.codec == Some(codec))
            && (forall e <- endpoints :: e.codec.Some? ==> e.codec == Some(codec))
  {
    var codecs := Codecs(endpoints);
    assert forall e <- endpoints :: e.codec.Some? ==> e.codec.value in codecs;
    if codecs != [] {
      assert codecs[0] in codecs;
    }
  }

  /** The first profile with the active index takes the codec. */
  function Refined(profiles: seq<Profile>, active: Option<nat>, codec: Option<string>): (r: seq<Profile>)
    ensures |r| == |profiles|
  {
    if profiles == [] || codec == None then profiles
    else if Some(profiles[0].index) == active then [profiles[0].(codec := codec)] + profiles[1..]
    else [profiles[0]] + Refined(profiles[1..], active, codec)
  }

  lemma {:induction false} RefinedAt(profiles: seq<Profile>, active: Option<nat>, codec: Option<string>, i: nat)
    requires codec.Some? && i <= |profiles| && forall j :: 0 <= j < i ==> Some(profiles[j].index) != active
    requires i < |profiles| ==> Some(profiles[i].index) == active
    ensures Refined(profiles, active, codec)
         == if i < |profiles| then profiles[i := profiles[i].(codec := codec)] else profiles
  {
    if i > 0 {
      RefinedAt(profiles[1..], active, codec, i - 1);
    }
  }

  function Finalized(d: Device, defaults: Defaults): Device {
    var endpoints := Sort(Map(Marking(defaults), d.endpoints), EndpointBefore);
    d.(profiles := Refined(Sort(d.profiles, ProfileBefore), d.activeProfile, CommonCodec(endpoints)),
       endpoints := endpoints, sink := FirstOf(endpoints, Sink), source := FirstOf(endpoints, Source))
  }

  datatype Parameter = ActiveProfile | ListedProfile | OtherParameter

  class AudioDevice {
    const id: nat
    const address: string
    const adapter: string
    const name: string
    var activeProfile: Option<nat>
    var profiles: seq<Profile>
    var endpoints: seq<Endpoint>
    var transports: seq<Endpoint>
    var sink: Option<Endpoint>
    var source: Option<Endpoint>

    function View(): Device
      reads this
    {
      Device(id, address, adapter, name, activeProfile, profiles, endpoints, transports, sink, source)
    }

    constructor (d: Device)
      ensures View() == d
    {
      id, address, adapter, name := d.id, d.address, d.adapter, d.name;
      activeProfile, profiles, endpoints, transports := d.activeProfile, d.profiles, d.endpoints, d.transports;
      sink, source := d.sink, d.source;
    }

    /** A profile seen before is not listed twice. */
    method UpdateProfile(parameter: Parameter, profile: Profile)
      requires DistinctIndexes(profiles)
      modifies this
      ensures DistinctIndexes(profiles)
      ensures View() == old(View()).(activeProfile := activeProfile, profiles := profiles)
      ensures activeProfile == if parameter == ActiveProfile then Some(profile.index) else old(activeProfile)
      ensures profiles == if parameter == ListedProfile && (forall p <- old(profiles) :: p.index != profile.index)
                          then old(profiles) + [profile] else old(profiles)
    {
      if parameter == ActiveProfile {
        activeProfile := Some(profile.index);
      } else if parameter == ListedProfile && !exists p <- profiles :: p.index == profile.index {
        profiles := profiles + [profile];
      }
    }

    method Finalize(defaults: Defaults)
      modifies this
      ensures View() == Finalized(old(View()), defaults)
    {
      profiles := Sort(profiles, ProfileBefore);
      MarkDefaults(defaults);
      endpoints := Sort(endpoints, EndpointBefore);
      sink := FirstOf(endpoints, Sink);
      source := FirstOf(endpoints, Source);
      var codec := CommonCodec(endpoints);
      if codec.Some? {
        Refine(codec);
      }
    }

    method MarkDefaults(defaults: Defaults)
      modifies this
      ensures View() == old(View()).(endpoints := Map(Marking(defaults), old(endpoints)))
    {
      for i := 0 to |endpoints|
        invariant View() == old(View()).(endpoints := endpoints) && |endpoints| == |old(endpoints)|
        invariant forall j :: 0 <= j < i ==> endpoints[j] == Marked(old(endpoints)[j], defaults)
        invariant forall j :: i <= j < |endpoints| ==> endpoints[j] == old(endpoints)[j]
      {
        var e := endpoints[i];
        var name := match e.kind case Sink => defaults.sink case Source => defaults.source;
        endpoints := endpoints[i := e.(isDefault := e.name == name)];
      }
    }

    method Refine(codec: Option<string>)
      requires codec.Some?
      modifies this
      ensures View() == old(View()).(profiles := Refined(old(profiles), activeProfile, codec))
    {
      var i := 0;
      while i < |profiles| && Some(profiles[i].index) != activeProfile
        invariant 0 <= i <= |profiles|
        invariant forall j :: 0 <= j < i ==> Some(profiles[j].index) != activeProfile
      {
        i := i + 1;
      }
      RefinedAt(profiles, activeProfile, codec, i);
      if i < |profiles| {
        profiles := profiles[i := profiles[i].(codec := codec)];
      }
    }
  }

  // ---------------------------------------------------------------- order independence and idempotence

  lemma {:induction false} RefinedOrder(profiles: seq<Profile>, active: Option<nat>, codec: Option<string>, i: nat)
    requires i < |profiles|
    ensures var r := Refined(profiles, active, codec)[i];
            r.priority == profiles[i].priority && r.index == profiles[i].index
  {
    if codec.Some? && Some(profiles[0].index) != active && i > 0 {
      RefinedOrder(profiles[1..], active, codec, i - 1);
    }
  }

  lemma RefinedSorted(profiles: seq<Profile>, active: Option<nat>, codec: Option<string>)
    requires Sorted(profiles, ProfileBefore)
    ensures Sorted(Refined(profiles, active, codec), ProfileBefore)
  {
    var r := Refined(profiles, active, codec);
    forall i, j | 0 <= i < j < |r| ensures ProfileBefore(r[i], r[j]) {
      RefinedOrder(profiles, active, codec, i);
      RefinedOrder(profiles, active, codec, j);
      assert ProfileBefore(profiles[i], profiles[j]);
    }
  }

  lemma {:induction false} RefinedTwice(profiles: seq<Profile>, active: Option<nat>, codec: Option<string>)
    ensures Refined(Refined(profiles, active, codec), active, codec) == Refined(profiles, active, codec)
  {
    if profiles != [] && codec.Some? && Some(profiles[0].index) != active {
      RefinedTwice(profiles[1..], active, codec);
    }
  }

  lemma MarkedMember(nodes: seq<Endpoint>, e: Endpoint, defaults: Defaults)
    requires e in Map(Marking(defaults), nodes)
    ensures Marked(e, defaults) == e
  {
    var i :| 0 <= i < |nodes| && Map(Marking(defaults), nodes)[i] == e;
    assert e == Marked(nodes[i], defaults);
  }

  lemma MarkedUnchanged(nodes: seq<Endpoint>, sorted: seq<Endpoint>, defaults: Defaults)
    requires sorted == Sort(Map(Marking(defaults), nodes), EndpointBefore)
    ensures Map(Marking(defaults), sorted) == sorted
  {
    var marked := Map(Marking(defaults), nodes);
    forall i | 0 <= i < |sorted| ensures Marked(sorted[i], defaults) == sorted[i] {
      SameMembers(sorted, marked, sorted[i]);
      MarkedMember(nodes, sorted[i], defaults);
    }
  }

  /** Finalising a second time changes nothing. */
  lemma FinalizedTwice(d: Device, defaults: Defaults)
    ensures Finalized(Finalized(d, defaults), defaults) == Finalized(d, defaults)
  {
    var endpoints := Sort(Map(Marking(defaults), d.endpoints), EndpointBefore);
    EndpointOrder();
    SortSorted(Map(Marking(defaults), d.endpoints), EndpointBefore);
    MarkedUnchanged(d.endpoints, endpoints, defaults);
    SortedUnchanged(endpoints, EndpointBefore);
    var profiles, codec := Sort(d.profiles, ProfileBefore), CommonCodec(endpoints);
    ProfileOrder();
    SortSorted(d.profiles, ProfileBefore);
    RefinedSorted(profiles, d.activeProfile, codec);
    SortedUnchanged(Refined(profiles, d.activeProfile, codec), ProfileBefore);
    RefinedTwice(profiles, d.activeProfile, codec);
  }

  lemma ProfilesRanked(profiles: seq<Profile>)
    requires DistinctIndexes(profiles)
    ensures Ranked(profiles, ProfileBefore)
  {
  }

  lemma MarkedRanked(nodes: seq<Endpoint>, defaults: Defaults)
    requires DistinctIds(nodes)
    ensures Ranked(Map(Marking(defaults), nodes), EndpointBefore)
  {
    var marked := Map(Marking(defaults), nodes);
    forall a, b | a in marked && b in marked && EndpointBefore(a, b) && EndpointBefore(b, a) ensures a == b {
      SameEndpointRank(a, b);
    }
  }

  lemma SameEndpointRank(a: Endpoint, b: Endpoint)
    requires EndpointBefore(a, b) && EndpointBefore(b, a)
    ensures a.id == b.id
  {
    StringOrder();
  }

  /** Profiles and endpoints may arrive in any order: the finalised device is the same. */
  lemma FinalizedOrderIndependent(d: Device, e: Device, defaults: Defaults)
    requires DistinctIndexes(d.profiles) && DistinctIds(d.endpoints)
    requires multiset(d.profiles) == multiset(e.profiles) && multiset(d.endpoints) == multiset(e.endpoints)
    requires e == d.(profiles := e.profiles, endpoints := e.endpoints)
    ensures Finalized(d, defaults) == Finalized(e, defaults)
  {
    ProfileOrder();
    ProfilesRanked(d.profiles);
    SortOrderIndependent(d.profiles, e.profiles, ProfileBefore);
    EndpointOrder();
    MarkedRanked(d.endpoints, defaults);
    MapMultiset(Marking(defaults), d.endpoints, e.endpoints);
    SortOrderIndependent(Map(Marking(defaults), d.endpoints), Map(Marking(defaults), e.endpoints), EndpointBefore);
  }

  /** `i` is the position of the first endpoint of the kind, or the length. */
  lemma {:induction false} FirstOfMeaning(endpoints: seq<Endpoint>, kind: EndpointKind) returns (i: nat)
    ensures i <= |endpoints| && forall j :: 0 <= j < i ==> endpoints[j].kind != kind
    ensures i < |endpoints| ==> endpoints[i].kind == kind && FirstOf(endpoints, kind) == Some(endpoints[i])
    ensures i == |endpoints| ==> FirstOf(endpoints, kind) == None
  {
    if endpoints == [] || endpoints[0].kind == kind {
      i := 0;
    } else {
      i := FirstOfMeaning(endpoints[1..], kind);
      i := i + 1;
    }
  }

  /** In a sorted list, the first endpoint of a kind comes before all others of that kind. */
  lemma FirstIsBest(endpoints: seq<Endpoint>, kind: EndpointKind, e: Endpoint)
    requires Sorted(endpoints, EndpointBefore) && e in endpoints && e.kind == kind
    ensures FirstOf(endpoints, kind).Some?
    ensures FirstOf(endpoints, kind).value.kind == kind && EndpointBefore(FirstOf(endpoints, kind).value, e)
  {
    var i := FirstOfMeaning(endpoints, kind);
    var j :| 0 <= j < |endpoints| && endpoints[j] == e;
    EndpointOrder();
    assert EndpointBefore(e, e);
  }

  lemma MarkedAreSorted(d: Device, defaults: Defaults, e: Endpoint)
    requires e in Map(Marking(defaults), d.endpoints)
    ensures e in Finalized(d, defaults).endpoints
    ensures Sorted(Finalized(d, defaults).endpoints, EndpointBefore)
  {
    var marked := Map(Marking(defaults), d.endpoints);
    EndpointOrder();
    SortSorted(marked, EndpointBefore);
    SameMembers(marked, Sort(marked, EndpointBefore), e);
  }

  /** The published sink and source are the best ones: no other endpoint of the kind comes before them. */
  lemma SinkIsBest(d: Device, defaults: Defaults, kind: EndpointKind, e: Endpoint)
    requires e in Map(Marking(defaults), d.endpoints) && e.kind == kind
    ensures var chosen := if kind == Sink then Finalized(d, defaults).sink else Finalized(d, defaults).source;
            chosen.Some? && chosen.value.kind == kind && EndpointBefore(chosen.value, e)
  {
    MarkedAreSorted(d, defaults, e);
    FirstIsBest(Finalized(d, defaults).endpoints, kind, e);
  }

  // ---------------------------------------------------------------- the list of devices

  function Visible(nodes: seq<Endpoint>): seq<Endpoint> {
    if nodes == [] then []
    else Visible(nodes[..|nodes| - 1]) + if nodes[|nodes| - 1].hidden then [] else [nodes[|nodes| - 1]]
  }

  function Hidden(nodes: seq<Endpoint>): seq<Endpoint> {
    if nodes == [] then []
    else Hidden(nodes[..|nodes| - 1]) + if nodes[|nodes| - 1].hidden then [nodes[|nodes| - 1]] else []
  }

  /** A device's nodes in the order in which its table yields them. */
  type Nodes = map<nat, seq<Endpoint>>

  function Assigned(d: Device, nodes: Nodes): Device {
    if d.id in nodes then d.(transports := Hidden(nodes[d.id]), endpoints := Visible(nodes[d.id])) else d
  }

  function Preparing(nodes: Nodes, defaults: Defaults): Device -> Device {
    (d: Device) => Finalized(Assigned(d, nodes), defaults)
  }

  /** `lower` is the lower-casing of the standard library. */
  function DeviceBefore(lower: string -> string): Order<Device> {
    (a: Device, b: Device) => Precedes(lower, a, b)
  }

  predicate Precedes(lower: string -> string, a: Device, b: Device) {
    if lower(a.name) != lower(b.name) then NotAfter(lower(a.name), lower(b.name)) else a.id <= b.id
  }

  predicate DistinctDevices(devices: seq<Device>) {
    forall i, j :: 0 <= i < j < |devices| ==> devices[i].id != devices[j].id
  }

  /** The nodes that no earlier device has taken. */
  function Left(nodes: Nodes, earlier: seq<Device>): Nodes {
    map id | id in nodes && (forall d <- earlier :: d.id != id) :: nodes[id]
  }

  function Prepared(devices: seq<Device>, nodes: Nodes, defaults: Defaults): seq<Device> {
    if devices == [] then []
    else
      var n := |devices| - 1;
      Prepared(devices[..n], nodes, defaults)
      + [Finalized(Assigned(devices[n], Left(nodes, devices[..n])), defaults)]
  }

  function FinalizedAll(devices: seq<Device>, nodes: Nodes, defaults: Defaults, lower: string -> string): seq<Device> {
    Sort(Prepared(devices, nodes, defaults), DeviceBefore(lower))
  }

  method Partition(nodes: seq<Endpoint>) returns (hidden: seq<Endpoint>, visible: seq<Endpoint>)
    ensures hidden == Hidden(nodes) && visible == Visible(nodes)
  {
    hidden, visible := [], [];
    for i := 0 to |nodes|
      invariant hidden == Hidden(nodes[..i]) && visible == Visible(nodes[..i])
    {
      assert nodes[..i + 1][..i] == nodes[..i];
      assert hidden + [] == hidden && visible + [] == visible;
      if nodes[i].hidden {
        hidden := hidden + [nodes[i]];
      } else {
        visible := visible + [nodes[i]];
      }
    }
    assert nodes[..|nodes|] == nodes;
  }

  method PrepareDevice(d: Device, nodes: Nodes, defaults: Defaults) returns (prepared: Device)
    ensures prepared == Finalized(Assigned(d, nodes), defaults)
  {
    var device := d;
    if d.id in nodes {
      var hidden, visible := Partition(nodes[d.id]);
      device := device.(transports := hidden, endpoints := visible);
    }
    var record := new AudioDevice(device);
    record.Finalize(defaults);
    prepared := record.View();
  }

  method FinalizeDevices(devices: seq<Device>, table: Nodes, defaults: Defaults, lower: string -> string)
    returns (finalized: seq<Device>)
    ensures finalized == FinalizedAll(devices, table, defaults, lower)
  {
    var prepared := PrepareDevices(devices, table, defaults);
    finalized := Sort(prepared, DeviceBefore(lower));
  }

  /** Each device takes its nodes out of the table. */
  method PrepareDevices(devices: seq<Device>, table: Nodes, defaults: Defaults) returns (prepared: seq<Device>)
    ensures prepared == Prepared(devices, table, defaults)
  {
    prepared := [];
    var nodes := table;
    for i := 0 to |devices|
      invariant prepared == Prepared(devices[..i], table, defaults)
      invariant nodes == Left(table, devices[..i])
    {
      PreparedGrows(devices, i, table, defaults);
      var device := PrepareDevice(devices[i], nodes, defaults);
      prepared := prepared + [device];
      LeftShrinks(table, devices, i);
      nodes := nodes - {devices[i].id};
    }
    assert devices[..|devices|] == devices;
  }

  lemma PreparedGrows(devices: seq<Device>, i: nat, nodes: Nodes, defaults: Defaults)
    requires i < |devices|
    ensures Prepared(devices[..i + 1], nodes, defaults)
         == Prepared(devices[..i], nodes, defaults)
            + [Finalized(Assigned(devices[i], Left(nodes, devices[..i])), defaults)]
  {
    assert devices[..i + 1][..i] == devices[..i];
  }

  lemma LeftShrinks(nodes: Nodes, devices: seq<Device>, i: nat)
    requires i < |devices|
    ensures Left(nodes, devices[..i + 1]) == Left(nodes, devices[..i]) - {devices[i].id}
  {
    assert devices[..i + 1] == devices[..i] + [devices[i]];
  }

  predicate SameNodes(a: Nodes, b: Nodes, id: nat) {
    (id in a <==> id in b) && (id in a ==> a[id] == b[id])
  }

  lemma AssignedSame(d: Device, a: Nodes, b: Nodes)
    requires SameNodes(a, b, d.id)
    ensures Assigned(d, a) == Assigned(d, b)
  {
  }

  lemma MapGrows<T, U>(f: T -> U, s: seq<T>, i: nat)
    requires i < |s|
    ensures Map(f, s[..i + 1]) == Map(f, s[..i]) + [f(s[i])]
  {
  }

  /** With distinct devices, taking nodes out of the table disturbs nobody. */
  lemma {:induction false} PreparedIsMap(devices: seq<Device>, nodes: Nodes, defaults: Defaults)
    requires DistinctDevices(devices)
    ensures Prepared(devices, nodes, defaults) == Map(Preparing(nodes, defaults), devices)
  {
    if devices != [] {
      var n := |devices| - 1;
      PreparedIsMap(devices[..n], nodes, defaults);
      MapGrows(Preparing(nodes, defaults), devices, n);
      assert devices[..n + 1] == devices;
      assert SameNodes(Left(nodes, devices[..n]), nodes, devices[n].id);
      AssignedSame(devices[n], Left(nodes, devices[..n]), nodes);
    }
  }

  // ---------------------------------------------------------------- order independence of the list

  /** What clients see: everything but the internal endpoints, which are never sorted. */
  function Shown(d: Device): Device {
    d.(transports := [])
  }

  /** Two tables with the same nodes for each device, in any order. */
  ghost predicate SameTables(a: Nodes, b: Nodes) {
    a.Keys == b.Keys && forall id <- a :: multiset(a[id]) == multiset(b[id]) && DistinctIds(a[id])
  }

  lemma OneMoreCounted<T>(s: seq<T>, last: T, x: T)
    ensures multiset(s + [last])[x] == multiset(s)[x] + if x == last then 1 else 0
  {
  }

  lemma {:induction false} VisibleMultiset(nodes: seq<Endpoint>, e: Endpoint)
    ensures multiset(Visible(nodes))[e] == if e.hidden then 0 else multiset(nodes)[e]
  {
    if nodes != [] {
      var n := |nodes| - 1;
      VisibleMultiset(nodes[..n], e);
      assert nodes == nodes[..n] + [nodes[n]];
      OneMoreCounted(nodes[..n], nodes[n], e);
      OneMoreCounted(Visible(nodes[..n]), nodes[n], e);
    }
  }

  lemma VisibleOrderIndependent(a: seq<Endpoint>, b: seq<Endpoint>)
    requires multiset(a) == multiset(b)
    ensures multiset(Visible(a)) == multiset(Visible(b))
  {
    forall e ensures multiset(Visible(a))[e] == multiset(Visible(b))[e] {
      VisibleMultiset(a, e);
      VisibleMultiset(b, e);
    }
  }

  lemma {:induction false} VisibleDistinct(nodes: seq<Endpoint>)
    requires DistinctIds(nodes)
    ensures DistinctIds(Visible(nodes))
    ensures forall e <- Visible(nodes) :: e in nodes
  {
    if nodes != [] {
      var n := |nodes| - 1;
      VisibleDistinct(nodes[..n]);
      forall e | e in Visible(nodes[..n]) ensures e.id != nodes[n].id {
        var i :| 0 <= i < n && nodes[i] == e;
      }
    }
  }

  /** The same for one device that takes its nodes from a table. */
  lemma PreparedOrderIndependent(d: Device, e: Device, a: Nodes, b: Nodes, defaults: Defaults)
    requires SameTables(a, b) && DistinctIndexes(d.profiles) && (d.id !in a ==> DistinctIds(d.endpoints))
    requires e == d.(profiles := e.profiles) && multiset(d.profiles) == multiset(e.profiles)
    ensures Shown(Preparing(a, defaults)(d)) == Shown(Preparing(b, defaults)(e))
  {
    if d.id in a {
      VisibleOrderIndependent(a[d.id], b[d.id]);
      VisibleDistinct(a[d.id]);
    }
    var x, y := Shown(Assigned(d, a)), Shown(Assigned(e, b));
    FinalizedOrderIndependent(x, y, defaults);
    assert Shown(Finalized(Assigned(d, a), defaults)) == Finalized(x, defaults);
    assert Shown(Finalized(Assigned(e, b), defaults)) == Finalized(y, defaults);
  }

  lemma DeviceOrder(lower: string -> string)
    ensures TotalPreorder(DeviceBefore(lower))
  {
    StringOrder();
    var le := DeviceBefore(lower);
    forall a: Device, b: Device ensures le(a, b) || le(b, a) {
      assert le(a, b) == Precedes(lower, a, b) && le(b, a) == Precedes(lower, b, a);
    }
    forall a: Device, b: Device, c: Device | le(a, b) && le(b, c) ensures le(a, c) {
      assert Precedes(lower, a, b) && Precedes(lower, b, c);
    }
  }

  function ShownMap(nodes: Nodes, defaults: Defaults): Device -> Device {
    (d: Device) => Shown(Preparing(nodes, defaults)(d))
  }

  lemma MapTwice<T, U, V>(f: T -> U, g: U -> V, h: T -> V, s: seq<T>)
    requires forall x :: h(x) == g(f(x))
    ensures Map(g, Map(f, s)) == Map(h, s)
  {
  }

  /** Hiding the internal endpoints before or after sorting makes no difference. */
  lemma ShownSorts(devices: seq<Device>, nodes: Nodes, defaults: Defaults, lower: string -> string)
    requires DistinctDevices(devices)
    ensures Map(Shown, FinalizedAll(devices, nodes, defaults, lower))
         == Sort(Map(ShownMap(nodes, defaults), devices), DeviceBefore(lower))
  {
    PreparedIsMap(devices, nodes, defaults);
    var prepared := Map(Preparing(nodes, defaults), devices);
    ShownRespects(prepared, lower);
    MapSort(Shown, prepared, DeviceBefore(lower), DeviceBefore(lower));
    ShownAfterPreparing(devices, nodes, defaults);
  }

  lemma ShownRespects(devices: seq<Device>, lower: string -> string)
    ensures Respects(Shown, DeviceBefore(lower), DeviceBefore(lower), devices)
  {
    forall a: Device, b: Device ensures DeviceBefore(lower)(a, b) == DeviceBefore(lower)(Shown(a), Shown(b)) {
      assert Precedes(lower, a, b) == Precedes(lower, Shown(a), Shown(b));
    }
  }

  lemma ShownAfterPreparing(devices: seq<Device>, nodes: Nodes, defaults: Defaults)
    ensures Map(Shown, Map(Preparing(nodes, defaults), devices)) == Map(ShownMap(nodes, defaults), devices)
  {
    MapTwice(Preparing(nodes, defaults), Shown, ShownMap(nodes, defaults), devices);
  }

  lemma FinalizedKeepsId(d: Device, defaults: Defaults)
    ensures Finalized(d, defaults).id == d.id
  {
  }

  lemma ShownKeepsId(d: Device, nodes: Nodes, defaults: Defaults)
    ensures ShownMap(nodes, defaults)(d).id == d.id
  {
    FinalizedKeepsId(Assigned(d, nodes), defaults);
    assert Preparing(nodes, defaults)(d).id == d.id;
    assert ShownMap(nodes, defaults)(d) == Shown(Preparing(nodes, defaults)(d));
  }

  lemma SameRank(a: Device, b: Device, lower: string -> string)
    requires DeviceBefore(lower)(a, b) && DeviceBefore(lower)(b, a)
    ensures a.id == b.id
  {
    StringOrder();
    assert Precedes(lower, a, b) && Precedes(lower, b, a);
  }

  lemma ShownDistinct(devices: seq<Device>, nodes: Nodes, defaults: Defaults)
    requires DistinctDevices(devices)
    ensures DistinctDevices(Map(ShownMap(nodes, defaults), devices))
  {
    forall i | 0 <= i < |devices| ensures ShownMap(nodes, defaults)(devices[i]).id == devices[i].id {
      ShownKeepsId(devices[i], nodes, defaults);
    }
  }

  lemma DistinctRanked(devices: seq<Device>, lower: string -> string)
    requires DistinctDevices(devices)
    ensures Ranked(devices, DeviceBefore(lower))
  {
    forall a, b | a in devices && b in devices && DeviceBefore(lower)(a, b) && DeviceBefore(lower)(b, a)
      ensures a == b
    {
      SameRank(a, b, lower);
    }
  }

  /** `b` lists the devices of `a` with their profiles in any order. */
  ghost predicate SameButProfiles(a: seq<Device>, b: seq<Device>, nodes: Nodes) {
    && |a| == |b|
    && forall i :: 0 <= i < |a| ==>
         && (a[i].id !in nodes ==> DistinctIds(a[i].endpoints))
         && DistinctIndexes(a[i].profiles)
         && multiset(a[i].profiles) == multiset(b[i].profiles)
         && b[i] == a[i].(profiles := b[i].profiles)
  }

  lemma DevicesReordered(devices: seq<Device>, reordered: seq<Device>, others: seq<Device>)
    requires DistinctDevices(devices) && |devices| == |reordered| && multiset(reordered) == multiset(others)
    requires forall i :: 0 <= i < |devices| ==> reordered[i].id == devices[i].id
    ensures DistinctDevices(others)
  {
    var ids := (d: Device) => d.id;
    MapMultiset(ids, reordered, others);
    DistinctReordered(Map(ids, reordered), Map(ids, others));
    assert forall i :: 0 <= i < |others| ==> Map(ids, others)[i] == others[i].id;
  }

  lemma ShownSame(devices: seq<Device>, reordered: seq<Device>, a: Nodes, b: Nodes, defaults: Defaults)
    requires SameTables(a, b) && SameButProfiles(devices, reordered, a)
    ensures Map(ShownMap(a, defaults), devices) == Map(ShownMap(b, defaults), reordered)
  {
    forall i | 0 <= i < |devices| ensures ShownMap(a, defaults)(devices[i]) == ShownMap(b, defaults)(reordered[i]) {
      PreparedOrderIndependent(devices[i], reordered[i], a, b, defaults);
    }
  }

  /**
   Whatever the order in which devices, their profiles and their nodes arrive, clients see the
   same list.
   */
  lemma ListOrderIndependent(devices: seq<Device>, reordered: seq<Device>, others: seq<Device>,
                                                a: Nodes, b: Nodes, defaults: Defaults, lower: string -> string)
    requires DistinctDevices(devices) && SameTables(a, b)
    requires SameButProfiles(devices, reordered, a) && multiset(reordered) == multiset(others)
    ensures Map(Shown, FinalizedAll(devices, a, defaults, lower))
         == Map(Shown, FinalizedAll(others, b, defaults, lower))
  {
    ShownSorts(devices, a, defaults, lower);
    DevicesReordered(devices, reordered, others);
    ShownSorts(others, b, defaults, lower);
    ShownSame(devices, reordered, a, b, defaults);
    MapMultiset(ShownMap(b, defaults), reordered, others);
    DeviceOrder(lower);
    ShownDistinct(devices, a, defaults);
    DistinctRanked(Map(ShownMap(a, defaults), devices), lower);
    SortOrderIndependent(Map(ShownMap(a, defaults), devices), Map(ShownMap(b, defaults), others), DeviceBefore(lower));
  }
}
