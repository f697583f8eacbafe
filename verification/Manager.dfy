/** The manager's port table: shared transports and clients, counted references, rollback and teardown. */
module Manager {
  import opened Wrappers
  import opened Sequences

  datatype Protocol = StdBus | ModbusRtu | Auto

  /** A transport or a client: made by the manager, or by a caller. */
  datatype Handle = Mine(id: nat) | Theirs(id: nat)

  datatype Controller = Controller(client: Handle, transport: Handle, protocol: Protocol, address: int)

  /** What `add` is given: a finished controller, a serial port's name, or a transport object. */
  datatype Source = Prebuilt(controller: Controller) | Path(path: string) | Object(id: nat, isBus: bool)

  datatype Key = PathKey(canonical: string) | ObjectKey(id: nat)

  datatype Port = Port(transport: Handle, client: Option<Handle>, owns: bool, protocol: Option<Protocol>, refs: set<string>)

  datatype Device = Device(controller: Controller, key: Option<Key>)

  datatype Error = ManagerClosed | NameInUse | SettingsMisplaced | BadUnit | AutoUnsupported | MixedProtocols
                 | OpenFailed | NotABus | BuildFailed | NoSuchName

  /** What the environment decides during one call: the unit check, the open, the building, and the closes that fail. */
  datatype Fate = Fate(unitOk: bool, openOk: bool, buildOk: bool, failing: set<Handle>)

  /**
   * The manager's two tables, the order of its devices, and what became of the outside world: the handles
   * made so far, the transports that are open, every close attempted, those that failed, and the clients
   * disposed. A transport gives its handle up before it closes it, so it is not open even if its close fails.
   */
  datatype Table = Table(
    devices: map<string, Device>, order: seq<string>, ports: map<Key, Port>, closed: bool,
    made: nat, open: set<Handle>, closes: seq<Handle>, stuck: set<Handle>, disposed: set<Handle>)

  // ---------------------------------------------------------------- the invariant

  ghost predicate Listed(t: Table)
  {
    && (forall n :: n in t.devices <==> n in t.order)
    && Distinct(t.order)
  }

  /** A port's references are exactly the devices with its key, and it is usable while it has any. */
  ghost predicate PortOk(t: Table, k: Key)
    requires k in t.ports
  {
    var p := t.ports[k];
    && (forall n :: n in p.refs <==> n in t.devices && t.devices[n].key == Some(k))
    && (p.refs != {} ==> p.client.Some?)
    && (p.client.Some? <==> p.protocol.Some?)
    && (p.client.Some? ==> p.client.value.Mine? && p.client.value.id < t.made && p.client.value !in t.disposed)
    && p.owns == k.PathKey? == p.transport.Mine?
    && (k.ObjectKey? ==> p.transport == Theirs(k.id))
    && (p.transport.Mine? ==> p.transport.id < t.made)
    && p.transport !in t.closes
  }

  /** All controllers on one port share its client, its transport and its protocol. */
  ghost predicate DeviceOk(t: Table, n: string)
    requires n in t.devices
  {
    var d := t.devices[n];
    d.key.Some? ==>
      && d.key.value in t.ports
      && var p := t.ports[d.key.value];
         p.client == Some(d.controller.client) && p.transport == d.controller.transport && p.protocol == Some(d.controller.protocol)
  }

  ghost predicate InUse(t: Table, h: Handle)
  {
    exists k :: k in t.ports && t.ports[k].transport == h
  }

  /** Only transports the manager made are ever closed, and one it made is open only while its port is in use. */
  ghost predicate HandlesOk(t: Table)
  {
    && (forall h :: h in t.closes ==> h.Mine? && h.id < t.made)
    && (forall h :: h in t.disposed ==> h.Mine? && h.id < t.made)
    && (forall h :: h in t.open && h.Mine? ==> h.id < t.made && InUse(t, h))
  }

  ghost predicate Apart(t: Table, k: Key, m: Key)
    requires k in t.ports && m in t.ports
  {
    t.ports[k].transport != t.ports[m].transport && (t.ports[k].client.Some? ==> t.ports[k].client != t.ports[m].client)
  }

  ghost predicate Coherent(t: Table)
  {
    && Listed(t) && HandlesOk(t)
    && (forall k :: k in t.ports ==> PortOk(t, k))
    && (forall n :: n in t.devices ==> DeviceOk(t, n))
    && (forall k, m :: k in t.ports && m in t.ports && k != m ==> Apart(t, k, m))
    && (t.closed ==> t.devices == map[] && t.ports == map[])
  }

  /** Every port is referred to, except perhaps the given one. */
  ghost predicate Referred(t: Table, except: Option<Key>)
  {
    forall k :: k in t.ports && Some(k) != except ==> t.ports[k].refs != {}
  }

  ghost predicate Valid(t: Table)
  {
    Coherent(t) && Referred(t, None)
  }

  // ---------------------------------------------------------------- the updates

  /** A port made for a source and entered under its key. */
  function Entered(t: Table, k: Key): Table
  {
    match k
    case PathKey(_) => t.(ports := t.ports[k := Port(Mine(t.made), None, true, None, {})], made := t.made + 1)
    case ObjectKey(id) => t.(ports := t.ports[k := Port(Theirs(id), None, false, None, {})])
  }

  /** The transport a key stands for: that of its port, or the one a new port would get. */
  function TransportFor(t: Table, k: Key): Handle
  {
    if k in t.ports then t.ports[k].transport else if k.PathKey? then Mine(t.made) else Theirs(k.id)
  }

  function Opened(t: Table, k: Key): Table
    requires k in t.ports
  {
    t.(open := t.open + {t.ports[k].transport})
  }

  /** The first controller on a port makes its client and fixes its protocol. */
  function Connected(t: Table, k: Key, protocol: Protocol): Table
    requires k in t.ports
  {
    if t.ports[k].client.Some? then t
    else t.(ports := t.ports[k := t.ports[k].(client := Some(Mine(t.made)), protocol := Some(protocol))], made := t.made + 1)
  }

  function Enrolled(t: Table, n: string, d: Device): Table
    requires d.key.Some? ==> d.key.value in t.ports
  {
    var u := t.(devices := t.devices[n := d], order := t.order + [n]);
    if d.key.None? then u
    else u.(ports := t.ports[d.key.value := t.ports[d.key.value].(refs := t.ports[d.key.value].refs + {n})])
  }

  /** Disposes a port's client, closes its transport if the manager owns it, and forgets the port. */
  function TornDown(t: Table, k: Key, failing: set<Handle>): Table
    requires k in t.ports
  {
    var p := t.ports[k];
    var u := t.(ports := t.ports - {k}, disposed := t.disposed + if p.client.Some? then {p.client.value} else {});
    if !p.owns || p.transport !in t.open then u
    else u.(closes := t.closes + [p.transport], open := t.open - {p.transport},
            stuck := t.stuck + if p.transport in failing then {p.transport} else {})
  }

  function Without(order: seq<string>, n: string): seq<string>
  {
    if order == [] then [] else if order[0] == n then order[1..] else [order[0]] + Without(order[1..], n)
  }

  /** A device leaves; its port goes with its last reference. */
  function Withdrawn(t: Table, n: string, failing: set<Handle>): Table
    requires n in t.devices
  {
    var u := Unlisted(t, n);
    var key := t.devices[n].key;
    if key.None? || key.value !in u.ports || u.ports[key.value].refs != {} then u else TornDown(u, key.value, failing)
  }

  function Unlisted(t: Table, n: string): Table
    requires n in t.devices
  {
    var key := t.devices[n].key;
    var u := t.(devices := t.devices - {n}, order := Without(t.order, n));
    if key.None? || key.value !in t.ports then u
    else u.(ports := t.ports[key.value := t.ports[key.value].(refs := t.ports[key.value].refs - {n})])
  }

  // ---------------------------------------------------------------- what each update keeps

  /** Nothing became of any transport or client, and no port went. */
  lemma HandlesKept(t: Table, u: Table)
    requires HandlesOk(t) && u.closes == t.closes && u.disposed == t.disposed && u.stuck == t.stuck && t.made <= u.made
    requires forall h :: h in u.open && h.Mine? && h !in t.open ==> h.id < u.made && InUse(u, h)
    requires forall k :: k in t.ports ==> k in u.ports && u.ports[k].transport == t.ports[k].transport
    ensures HandlesOk(u)
  {
    forall h | h in u.open && h.Mine? ensures h.id < u.made && InUse(u, h) {
      if h in t.open {
        var m :| m in t.ports && t.ports[m].transport == h;
        assert m in u.ports && u.ports[m].transport == h;
      }
    }
  }

  lemma EnteredKeeps(t: Table, k: Key)
    requires Coherent(t) && Referred(t, None) && k !in t.ports && !t.closed
    ensures Coherent(Entered(t, k)) && Referred(Entered(t, k), Some(k))
  {
    hide PortOk, DeviceOk, Apart, HandlesOk, InUse;
    var u := Entered(t, k);
    forall n | n in t.devices ensures DeviceOk(u, n) { EnteredDevice(t, k, n); }
    forall m | m in u.ports ensures PortOk(u, m) { EnteredPort(t, k, m); }
    forall m, o | m in u.ports && o in u.ports && m != o ensures Apart(u, m, o) { EnteredApart(t, k, m, o); }
    HandlesKept(t, u);
  }

  lemma EnteredDevice(t: Table, k: Key, n: string)
    requires Coherent(t) && k !in t.ports && n in t.devices
    ensures DeviceOk(Entered(t, k), n) && t.devices[n].key != Some(k)
  {
    hide PortOk, Apart, HandlesOk, Listed;
    assert DeviceOk(t, n);
  }

  lemma EnteredPort(t: Table, k: Key, m: Key)
    requires Coherent(t) && k !in t.ports && m in Entered(t, k).ports
    ensures PortOk(Entered(t, k), m)
  {
    hide Apart, InUse, Listed, DeviceOk;
    forall n | n in t.devices ensures t.devices[n].key != Some(k) { EnteredDevice(t, k, n); }
    if m != k { assert PortOk(t, m); }
  }

  lemma EnteredApart(t: Table, k: Key, m: Key, o: Key)
    requires Coherent(t) && k !in t.ports && m in Entered(t, k).ports && o in Entered(t, k).ports && m != o
    ensures Apart(Entered(t, k), m, o)
  {
    hide HandlesOk, Listed, DeviceOk;
    if m != k { assert PortOk(t, m); }
    if o != k { assert PortOk(t, o); }
    if m != k && o != k { assert Apart(t, m, o); }
  }

  lemma OpenedKeeps(t: Table, k: Key)
    requires Coherent(t) && k in t.ports
    ensures Coherent(Opened(t, k)) && forall e :: Referred(t, e) ==> Referred(Opened(t, k), e)
  {
    hide HandlesOk;
    var u := Opened(t, k);
    forall n | n in u.devices ensures DeviceOk(u, n) { assert DeviceOk(t, n); }
    forall m | m in u.ports ensures PortOk(u, m) { assert PortOk(t, m); }
    forall m, o | m in u.ports && o in u.ports && m != o ensures Apart(u, m, o) { assert Apart(t, m, o); }
    assert PortOk(t, k);
    assert u.ports[k].transport == t.ports[k].transport;
    HandlesKept(t, u);
  }

  lemma ConnectedKeeps(t: Table, k: Key, protocol: Protocol)
    requires Coherent(t) && k in t.ports
    ensures Coherent(Connected(t, k, protocol)) && forall e :: Referred(t, e) ==> Referred(Connected(t, k, protocol), e)
  {
    hide InUse, HandlesOk;
    var u := Connected(t, k, protocol);
    assert PortOk(t, k);
    forall n | n in u.devices ensures DeviceOk(u, n) { assert DeviceOk(t, n); }
    forall m | m in u.ports ensures PortOk(u, m) { ConnectedPort(t, k, protocol, m); }
    forall m, o | m in u.ports && o in u.ports && m != o ensures Apart(u, m, o) {
      assert PortOk(t, m) && PortOk(t, o) && Apart(t, m, o);
    }
    HandlesKept(t, u);
  }

  lemma ConnectedPort(t: Table, k: Key, protocol: Protocol, m: Key)
    requires Coherent(t) && k in t.ports && m in t.ports
    ensures PortOk(Connected(t, k, protocol), m)
  {
    hide Apart, InUse, Listed, DeviceOk;
    assert PortOk(t, m);
  }

  lemma EnrolledKeeps(t: Table, n: string, d: Device)
    requires Coherent(t) && Referred(t, d.key) && n !in t.devices && !t.closed
    requires d.key.Some? ==>
      && d.key.value in t.ports
      && var p := t.ports[d.key.value];
         p.client == Some(d.controller.client) && p.transport == d.controller.transport && p.protocol == Some(d.controller.protocol)
    ensures Valid(Enrolled(t, n, d))
  {
    hide PortOk, DeviceOk, Apart, HandlesOk, InUse;
    var u := Enrolled(t, n, d);
    forall m | m in u.devices ensures DeviceOk(u, m) { EnrolledDevice(t, n, d, m); }
    forall m | m in u.ports ensures PortOk(u, m) { EnrolledPort(t, n, d, m); }
    forall m, o | m in u.ports && o in u.ports && m != o ensures Apart(u, m, o) { ApartKept(t, u, m, o); }
    HandlesKept(t, u);
  }

  lemma ApartKept(t: Table, u: Table, m: Key, o: Key)
    requires m in t.ports && o in t.ports && Apart(t, m, o) && m in u.ports && o in u.ports
    requires forall k <- {m, o} :: u.ports[k].transport == t.ports[k].transport && u.ports[k].client == t.ports[k].client
    ensures Apart(u, m, o)
  {
  }

  lemma EnrolledDevice(t: Table, n: string, d: Device, m: string)
    requires Coherent(t) && n !in t.devices
    requires d.key.Some? ==>
      && d.key.value in t.ports
      && var p := t.ports[d.key.value];
         p.client == Some(d.controller.client) && p.transport == d.controller.transport && p.protocol == Some(d.controller.protocol)
    requires m in Enrolled(t, n, d).devices
    ensures DeviceOk(Enrolled(t, n, d), m)
  {
    hide PortOk, Apart, HandlesOk, Listed;
    if m != n { assert DeviceOk(t, m); }
  }

  lemma EnrolledPort(t: Table, n: string, d: Device, m: Key)
    requires Coherent(t) && n !in t.devices && m in t.ports && (d.key.Some? ==> d.key.value in t.ports)
    requires d.key.Some? ==> t.ports[d.key.value].client.Some?
    ensures PortOk(Enrolled(t, n, d), m)
  {
    hide Apart, HandlesOk, Listed, DeviceOk;
    assert PortOk(t, m);
  }

  predicate Distinct(order: seq<string>)
  {
    forall i, j :: 0 <= i < j < |order| ==> order[i] != order[j]
  }

  lemma {:induction false} WithoutMembers(order: seq<string>, n: string, m: string)
    requires Distinct(order)
    ensures m in Without(order, n) <==> m in order && m != n
  {
    if order != [] {
      HeadIsElsewhere(order);
      hide Distinct;
      assert order == [order[0]] + order[1..];
      WithoutMembers(order[1..], n, m);
    }
  }

  lemma HeadIsElsewhere(order: seq<string>)
    requires Distinct(order) && order != []
    ensures Distinct(order[1..]) && order[0] !in order[1..]
  {
  }

  lemma {:induction false} WithoutDistinct(order: seq<string>, n: string)
    requires Distinct(order)
    ensures Distinct(Without(order, n))
  {
    if order != [] {
      HeadIsElsewhere(order);
      WithoutDistinct(order[1..], n);
      WithoutMembers(order[1..], n, order[0]);
      if order[0] != n { ConsDistinct(order[0], Without(order[1..], n)); }
    }
  }

  lemma ConsDistinct(x: string, order: seq<string>)
    requires Distinct(order) && x !in order
    ensures Distinct([x] + order)
  {
  }

  /** A name taken off a list leaves the others in their order. */
  lemma {:induction false} WithoutRest(order: seq<string>, i: nat)
    requires Distinct(order) && i < |order|
    ensures Without(order, order[i]) == order[..i] + order[i + 1..]
  {
    HeadIsElsewhere(order);
    if i > 0 {
      WithoutRest(order[1..], i - 1);
      assert order[0] != order[i];
      assert order[..i] == [order[0]] + order[1..][..i - 1];
      assert order[i + 1..] == order[1..][i..];
    }
  }

  lemma WithoutKeeps(order: seq<string>, n: string)
    requires Distinct(order)
    ensures forall m :: m in Without(order, n) <==> m in order && m != n
    ensures Distinct(Without(order, n))
  {
    WithoutDistinct(order, n);
    forall m ensures m in Without(order, n) <==> m in order && m != n { WithoutMembers(order, n, m); }
  }

  lemma UnlistedKeeps(t: Table, n: string)
    requires Valid(t) && n in t.devices
    ensures Coherent(Unlisted(t, n)) && Referred(Unlisted(t, n), t.devices[n].key)
  {
    hide PortOk, DeviceOk, Apart, HandlesOk, InUse;
    var u := Unlisted(t, n);
    WithoutKeeps(t.order, n);
    forall m | m in u.devices ensures DeviceOk(u, m) { UnlistedDevice(t, n, m); }
    forall m | m in u.ports ensures PortOk(u, m) { UnlistedPort(t, n, m); }
    forall m, o | m in u.ports && o in u.ports && m != o ensures Apart(u, m, o) { ApartKept(t, u, m, o); }
    HandlesKept(t, u);
  }

  lemma UnlistedDevice(t: Table, n: string, m: string)
    requires Coherent(t) && n in t.devices && m in t.devices && m != n
    ensures DeviceOk(Unlisted(t, n), m)
  {
    hide PortOk, Apart, HandlesOk, Listed;
    assert DeviceOk(t, m);
  }

  lemma UnlistedPort(t: Table, n: string, m: Key)
    requires Coherent(t) && n in t.devices && m in t.ports
    ensures PortOk(Unlisted(t, n), m)
  {
    hide Apart, HandlesOk, Listed, DeviceOk;
    assert PortOk(t, m);
  }

  lemma TornDownKeeps(t: Table, k: Key, failing: set<Handle>)
    requires Coherent(t) && Referred(t, Some(k)) && k in t.ports && t.ports[k].refs == {}
    ensures Valid(TornDown(t, k, failing))
  {
    hide PortOk, DeviceOk, Apart, HandlesOk, InUse;
    var u := TornDown(t, k, failing);
    forall n | n in u.devices ensures DeviceOk(u, n) { TornDownDevice(t, k, failing, n); }
    forall m | m in u.ports ensures PortOk(u, m) { TornDownPort(t, k, failing, m); }
    forall m, o | m in u.ports && o in u.ports && m != o ensures Apart(u, m, o) { ApartKept(t, u, m, o); }
    TornDownHandles(t, k, failing);
  }

  lemma TornDownDevice(t: Table, k: Key, failing: set<Handle>, n: string)
    requires Coherent(t) && k in t.ports && t.ports[k].refs == {} && n in t.devices
    ensures DeviceOk(TornDown(t, k, failing), n)
  {
    hide Apart, HandlesOk, Listed;
    assert DeviceOk(t, n) && PortOk(t, k);
  }

  lemma TornDownPort(t: Table, k: Key, failing: set<Handle>, m: Key)
    requires Coherent(t) && k in t.ports && m in t.ports && m != k
    ensures PortOk(TornDown(t, k, failing), m)
  {
    hide HandlesOk, Listed, DeviceOk;
    assert PortOk(t, m) && Apart(t, m, k);
  }

  lemma TornDownHandles(t: Table, k: Key, failing: set<Handle>)
    requires Coherent(t) && k in t.ports
    ensures HandlesOk(TornDown(t, k, failing))
  {
    hide Apart, Listed, DeviceOk;
    var u := TornDown(t, k, failing);
    assert PortOk(t, k);
    forall h | h in u.open && h.Mine? ensures h.id < u.made && InUse(u, h) {
      var m :| m in t.ports && t.ports[m].transport == h;
      assert m in u.ports && u.ports[m].transport == h;
    }
  }

  /** Removing a device keeps the table valid, whether or not its port goes with it. */
  lemma WithdrawnKeeps(t: Table, n: string, failing: set<Handle>)
    requires Valid(t) && n in t.devices
    ensures Valid(Withdrawn(t, n, failing))
  {
    hide Coherent;
    UnlistedKeeps(t, n);
    var u, key := Unlisted(t, n), t.devices[n].key;
    if key.Some? && key.value in u.ports && u.ports[key.value].refs == {} { TornDownKeeps(u, key.value, failing); }
  }

  /**
   * Removing a device closes a transport exactly when it held the last reference to a port the manager owns;
   * any other device keeps its port, its client and its transport.
   */
  lemma ClosedWithLastReference(t: Table, n: string, failing: set<Handle>)
    requires Valid(t) && n in t.devices
    ensures var u, key := Withdrawn(t, n, failing), t.devices[n].key;
      && (key.None? ==> u.ports == t.ports && u.closes == t.closes)
      && (key.Some? ==>
            && key.value in t.ports && u.ports - {key.value} == t.ports - {key.value}
            && var p := t.ports[key.value];
               && (key.value !in u.ports <==> p.refs == {n})
               && (p.refs != {n} ==> u.ports[key.value] == p.(refs := p.refs - {n}) && u.disposed == t.disposed)
               && u.closes == t.closes + if p.refs == {n} && p.owns && p.transport in t.open then [p.transport] else [])
  {
    hide HandlesOk, Listed, Apart;
    assert DeviceOk(t, n);
    var key := t.devices[n].key;
    if key.Some? {
      assert PortOk(t, key.value);
      var p := t.ports[key.value];
      assert n in p.refs;
      if p.refs - {n} == {} { assert p.refs == {n}; }
      var v := Unlisted(t, n);
      assert v.ports - {key.value} == t.ports - {key.value};
      if p.refs != {n} { assert v.ports - {key.value} + map[key.value := v.ports[key.value]] == v.ports; }
    }
  }

  // ---------------------------------------------------------------- grouping for concurrent polls

  /** The concurrent group of a device: its port, or itself alone when a caller built it. */
  datatype Group = Bus(key: Key) | Solo(name: string)

  function GroupOf(devices: map<string, Device>, n: string): Group
    requires n in devices
  {
    if devices[n].key.Some? then Bus(devices[n].key.value) else Solo(n)
  }

  /** The given names that belong to a group, in their order. */
  function Members(devices: map<string, Device>, names: seq<string>, g: Group): seq<string>
    requires forall n <- names :: n in devices
  {
    if names == [] then []
    else
      var last := names[|names| - 1];
      Members(devices, names[..|names| - 1], g) + if GroupOf(devices, last) == g then [last] else []
  }

  /** Two names go together if they are the same, or if both devices are on one port of the manager. */
  predicate Together(devices: map<string, Device>, n: string, m: string)
    requires n in devices && m in devices
  {
    n == m || (devices[n].key.Some? && devices[n].key == devices[m].key)
  }

  lemma {:induction false} MembersAre(devices: map<string, Device>, names: seq<string>, g: Group, n: string)
    requires forall n <- names :: n in devices
    ensures n in Members(devices, names, g) <==> n in names && GroupOf(devices, n) == g
  {
    if names != [] {
      MembersAre(devices, names[..|names| - 1], g, n);
      assert names == names[..|names| - 1] + [names[|names| - 1]];
    }
  }

  /** The members are picked from the names one by one. */
  lemma {:induction false} MembersFilter(devices: map<string, Device>, names: seq<string>, g: Group, all: seq<string>)
    requires forall n <- names :: n in devices && (n in all <==> GroupOf(devices, n) == g)
    ensures Members(devices, names, g) == Filter(n => n in all, names)
  {
    if names != [] {
      MembersFilter(devices, names[..|names| - 1], g, all);
    }
  }

  /** The groups of some names: one for each port or single device, each a selection of the names in their order. */
  lemma GroupsPartition(devices: map<string, Device>, names: seq<string>, groups: map<Group, seq<string>>)
    requires forall n <- names :: n in devices
    requires forall g :: g in groups <==> Members(devices, names, g) != []
    requires forall g :: g in groups ==> groups[g] == Members(devices, names, g)
    ensures forall g :: g in groups ==> groups[g] != [] && groups[g] == Filter(n => n in groups[g], names)
    ensures forall n <- names :: exists g :: g in groups && n in groups[g]
    ensures forall n, m, g, h :: n in names && m in names && g in groups && h in groups && n in groups[g] && m in groups[h] ==>
              (g == h <==> Together(devices, n, m))
  {
    hide Members, Filter;
    forall g | g in groups ensures groups[g] == Filter(n => n in groups[g], names) {
      forall n <- names ensures n in groups[g] <==> GroupOf(devices, n) == g { MembersAre(devices, names, g, n); }
      MembersFilter(devices, names, g, groups[g]);
    }
    forall n <- names ensures exists g :: g in groups && n in groups[g] {
      MembersAre(devices, names, GroupOf(devices, n), n);
      assert GroupOf(devices, n) in groups;
    }
    forall n, m, g, h | n in names && m in names && g in groups && h in groups && n in groups[g] && m in groups[h]
      ensures g == h <==> Together(devices, n, m)
    {
      MembersAre(devices, names, g, n);
      MembersAre(devices, names, h, m);
    }
  }

  /** Two devices of one group are driven through one client, and so through one lock. */
  lemma GroupSharesClient(t: Table, n: string, m: string)
    requires Valid(t) && n in t.devices && m in t.devices && Together(t.devices, n, m)
    ensures t.devices[n].controller.client == t.devices[m].controller.client
    ensures t.devices[n].controller.transport == t.devices[m].controller.transport
    ensures GroupOf(t.devices, n) == GroupOf(t.devices, m)
  {
    assert DeviceOk(t, n) && DeviceOk(t, m);
  }

  /** Two devices on different ports of the manager are driven through different clients and transports. */
  lemma GroupsAreApart(t: Table, n: string, m: string)
    requires Valid(t) && n in t.devices && m in t.devices
    requires t.devices[n].key.Some? && t.devices[m].key.Some? && t.devices[n].key != t.devices[m].key
    ensures t.devices[n].controller.client != t.devices[m].controller.client
    ensures t.devices[n].controller.transport != t.devices[m].controller.transport
  {
    assert DeviceOk(t, n) && DeviceOk(t, m);
    assert Apart(t, t.devices[n].key.value, t.devices[m].key.value);
  }

  lemma ListedLast(t: Table)
    requires Coherent(t) && t.order != []
    ensures t.order[|t.order| - 1] in t.devices
  {
  }

  lemma {:induction false} WithoutShrinks(order: seq<string>, n: string)
    requires n in order
    ensures |Without(order, n)| < |order|
  {
    if order[0] != n { WithoutShrinks(order[1..], n); }
  }

  lemma WithdrawnShrinks(t: Table, n: string, failing: set<Handle>)
    requires Coherent(t) && n in t.devices
    ensures |Withdrawn(t, n, failing).order| < |t.order| && Withdrawn(t, n, failing).closed == t.closed
  {
    WithoutShrinks(t.order, n);
  }

  /** Without devices there are no ports, and nothing the manager opened is open. */
  lemma Emptied(t: Table)
    requires Valid(t) && (t.order == [] || t.closed)
    ensures t.devices == map[] && t.ports == map[] && Valid(t.(closed := true))
    ensures forall h :: h in t.open ==> h.Theirs?
    ensures forall h :: h in t.closes ==> h.Mine?
  {
    var u := t.(closed := true);
    if k :| k in t.ports { PortHasDevice(t, k); }
  }

  lemma PortHasDevice(t: Table, k: Key)
    requires Valid(t) && k in t.ports
    ensures exists n :: n in t.devices
  {
    assert PortOk(t, k);
    var n :| n in t.ports[k].refs;
  }

  lemma OutsideKeeps(t: Table, open: set<Handle>)
    requires Valid(t) && forall h :: h in open && h.Mine? ==> h in t.open
    ensures Valid(t.(open := open))
  {
    var u := t.(open := open);
    forall m | m in u.ports ensures PortOk(u, m) { assert PortOk(t, m); }
    forall n | n in u.devices ensures DeviceOk(u, n) { assert DeviceOk(t, n); }
    forall m, o | m in u.ports && o in u.ports && m != o ensures Apart(u, m, o) { assert Apart(t, m, o); }
    assert HandlesOk(u) by { HandlesKept(t, u); }
  }

  // ---------------------------------------------------------------- what a call is refused for

  function KeyOf(canonical: string -> string, source: Source): Option<Key>
  {
    match source
    case Prebuilt(_) => None
    case Path(p) => Some(PathKey(canonical(p)))
    case Object(id, _) => Some(ObjectKey(id))
  }

  /** Two sources share a port exactly if they are paths of one canonical name, or one transport object. */
  lemma SharedPortIff(canonical: string -> string, a: Source, b: Source)
    ensures KeyOf(canonical, a).Some? && KeyOf(canonical, a) == KeyOf(canonical, b)
       <==> || (a.Path? && b.Path? && canonical(a.path) == canonical(b.path))
            || (a.Object? && b.Object? && a.id == b.id)
  {
  }

  /** Why a port will not take a controller, in the order the checks are made. */
  function PortRefusal(p: Port, isOpen: bool, notABus: bool, protocol: Protocol, fate: Fate): Option<Error>
  {
    if protocol == Auto then Some(AutoUnsupported)
    else if p.protocol.Some? && p.protocol != Some(protocol) then Some(MixedProtocols)
    else if !isOpen && !fate.openOk then Some(OpenFailed)
    else if p.client.None? && notABus && protocol == ModbusRtu then Some(NotABus)
    else if !fate.buildOk then Some(BuildFailed)
    else None
  }

  /** The table after an attempt to open a controller on port `key`, whether or not it succeeds. */
  function Attempted(t: Table, key: Key, notABus: bool, protocol: Protocol, fate: Fate): Table
    requires key in t.ports
  {
    match PortRefusal(t.ports[key], t.ports[key].transport in t.open, notABus, protocol, fate)
    case Some(NotABus) => Opened(t, key)
    case Some(BuildFailed) => Connected(Opened(t, key), key, protocol)
    case None => Connected(Opened(t, key), key, protocol)
    case _ => t
  }

  lemma AttemptedKeeps(t: Table, key: Key, notABus: bool, protocol: Protocol, fate: Fate)
    requires Coherent(t) && key in t.ports
    ensures var u := Attempted(t, key, notABus, protocol, fate);
      && Coherent(u) && (forall e :: Referred(t, e) ==> Referred(u, e))
      && key in u.ports && u.ports[key].refs == t.ports[key].refs && u.ports - {key} == t.ports - {key}
      && u.ports[key].transport == t.ports[key].transport
      && (t.ports[key].client.Some? ==> u.ports == t.ports)
      && (PortRefusal(t.ports[key], t.ports[key].transport in t.open, notABus, protocol, fate).None? ==>
            && u.ports[key].client.Some? && u.ports[key].protocol == Some(protocol) && u.ports[key].transport in u.open
            && u.closes == t.closes && u.disposed == t.disposed && u.stuck == t.stuck && u.open == t.open + {u.ports[key].transport}
            && u.devices == t.devices && u.order == t.order && u.closed == t.closed)
  {
    hide Coherent, Referred, Attempted, PortRefusal;
    AttemptedCoherent(t, key, notABus, protocol, fate);
    PairOk(t, key);
    AttemptedEffect(t, key, notABus, protocol, fate);
  }

  lemma AttemptedCoherent(t: Table, key: Key, notABus: bool, protocol: Protocol, fate: Fate)
    requires Coherent(t) && key in t.ports
    ensures var u := Attempted(t, key, notABus, protocol, fate);
      Coherent(u) && forall e :: Referred(t, e) ==> Referred(u, e)
  {
    hide Coherent, Referred, Opened, Connected;
    OpenedKeeps(t, key);
    OpenedEffect(t, key);
    ConnectedKeeps(Opened(t, key), key, protocol);
  }

  lemma AttemptedEffect(t: Table, key: Key, notABus: bool, protocol: Protocol, fate: Fate)
    requires key in t.ports && (t.ports[key].client.Some? <==> t.ports[key].protocol.Some?)
    ensures var u := Attempted(t, key, notABus, protocol, fate);
      && u == t.(ports := u.ports, made := u.made, open := u.open)
      && key in u.ports && u.ports[key].refs == t.ports[key].refs && u.ports - {key} == t.ports - {key}
      && u.ports[key].transport == t.ports[key].transport
      && (t.ports[key].client.Some? ==> u.ports == t.ports)
      && (PortRefusal(t.ports[key], t.ports[key].transport in t.open, notABus, protocol, fate).None? ==>
            && u.ports[key].client.Some? && u.ports[key].protocol == Some(protocol)
            && u.open == t.open + {t.ports[key].transport})
  {
    hide Opened, Connected;
    OpenedEffect(t, key);
    ConnectedEffect(Opened(t, key), key, protocol);
  }

  lemma PairOk(t: Table, key: Key)
    requires Coherent(t) && key in t.ports
    ensures t.ports[key].client.Some? <==> t.ports[key].protocol.Some?
  {
    assert PortOk(t, key);
  }

  lemma OpenedEffect(t: Table, key: Key)
    requires key in t.ports
    ensures Opened(t, key) == t.(open := t.open + {t.ports[key].transport})
  {
  }

  lemma ConnectedEffect(t: Table, key: Key, protocol: Protocol)
    requires key in t.ports && (t.ports[key].client.Some? <==> t.ports[key].protocol.Some?)
    ensures var u := Connected(t, key, protocol);
      && u == t.(ports := u.ports, made := u.made)
      && key in u.ports && u.ports - {key} == t.ports - {key} && u.ports[key].client.Some? && u.ports[key].protocol.Some?
      && u.ports[key].refs == t.ports[key].refs && u.ports[key].transport == t.ports[key].transport
      && (t.ports[key].client.Some? ==> u == t)
      && (t.ports[key].client.None? ==> u.ports[key].protocol == Some(protocol))
  {
  }

  lemma Established(t: Table, key: Key)
    requires Valid(t) && key in t.ports
    ensures t.ports[key].client.Some? && t.ports[key].refs != {} && Referred(t, Some(key))
  {
    assert PortOk(t, key);
  }

  /** Taking back a port made in vain restores the table of ports. */
  lemma RolledBack(t: Table, key: Key, u: Table, failing: set<Handle>)
    requires key !in t.ports && key in u.ports && u.ports - {key} == Entered(t, key).ports - {key}
    ensures TornDown(u, key, failing).ports == t.ports
  {
    assert t.ports == Entered(t, key).ports - {key};
  }

  /**
   * What a refused `add` leaves behind: the tables as they were, and outside them only what was opened
   * on the way. A transport the manager made is closed again; one of a caller, or of a port in use, stays open.
   */
  function Leftover(t: Table, key: Option<Key>, source: Source, fate: Fate, error: Error): (u: Table)
    requires key.Some? <==> !source.Prebuilt?
    ensures u.devices == t.devices && u.order == t.order && u.ports == t.ports && u.closed == t.closed
    ensures t.stuck <= u.stuck <= t.stuck + fate.failing
    ensures forall h :: h in u.open && h.Mine? ==> h in t.open || InUse(t, h)
  {
    assert key.Some? && key.value in t.ports ==> InUse(t, t.ports[key.value].transport);
    if error !in {OpenFailed, NotABus, BuildFailed} || key.None? then t
    else if key.value in t.ports then
      if error == BuildFailed then Opened(t, key.value) else t
    else if source.Object? then
      var u := if error == OpenFailed then t else t.(open := t.open + {Theirs(source.id)});
      if error == BuildFailed then u.(made := t.made + 1, disposed := t.disposed + {Mine(t.made)}) else u
    else if error != BuildFailed then t.(made := t.made + 1)
    else
      var h := Mine(t.made);
      var u := t.(made := t.made + 2, disposed := t.disposed + {Mine(t.made + 1)}, closes := t.closes + [h]);
      if h in fate.failing then u.(stuck := t.stuck + {h}) else u
  }

  /** The table after a source has been resolved, whether or not a controller came of it. */
  function Resolved(t: Table, key: Key, source: Source, protocol: Protocol, fate: Fate): Table
  {
    var notABus := source.Object? && !source.isBus;
    if key in t.ports then Attempted(t, key, notABus, protocol, fate)
    else if source.Path? && protocol == Auto then t
    else
      var u := Entered(t, key);
      var v := Attempted(u, key, notABus, protocol, fate);
      if PortRefusal(u.ports[key], u.ports[key].transport in u.open, notABus, protocol, fate).None? then v
      else assert key in v.ports; TornDown(v, key, fate.failing)
  }

  lemma RefusedOnPort(t: Table, key: Key, source: Source, protocol: Protocol, fate: Fate)
    requires key in t.ports && t.ports[key].client.Some? && !source.Prebuilt?
    ensures var refusal := PortRefusal(t.ports[key], t.ports[key].transport in t.open, source.Object? && !source.isBus, protocol, fate);
      refusal.Some? ==> Resolved(t, key, source, protocol, fate) == Leftover(t, Some(key), source, fate, refusal.value)
  {
  }

  lemma RefusedPath(t: Table, key: Key, source: Source, protocol: Protocol, fate: Fate)
    requires key !in t.ports && key.PathKey? && source.Path? && Mine(t.made) !in t.open
    ensures var p := Entered(t, key).ports[key];
      var refusal := PortRefusal(p, p.transport in t.open, false, protocol, fate);
      refusal.Some? ==> Resolved(t, key, source, protocol, fate) == Leftover(t, Some(key), source, fate, refusal.value)
  {
    var u, h := Entered(t, key), Mine(t.made);
    TakenBack(t.ports, key, u.ports[key]);
    if protocol != Auto {
      if !fate.openOk {
        assert Attempted(u, key, false, protocol, fate) == u;
        assert t.disposed + {} == t.disposed;
      } else if !fate.buildOk {
        var v := Attempted(u, key, false, protocol, fate);
        var p := u.ports[key].(client := Some(Mine(u.made)), protocol := Some(protocol));
        assert v == u.(open := t.open + {h}, ports := u.ports[key := p], made := u.made + 1);
        assert v.ports == t.ports[key := p];
        TakenBack(t.ports, key, p);
        assert t.open + {h} - {h} == t.open;
      }
    }
  }

  lemma RefusedObject(t: Table, key: Key, source: Source, protocol: Protocol, fate: Fate)
    requires key !in t.ports && source.Object? && key == ObjectKey(source.id)
    ensures var p := Entered(t, key).ports[key];
      var refusal := PortRefusal(p, p.transport in t.open, !source.isBus, protocol, fate);
      refusal.Some? ==> Resolved(t, key, source, protocol, fate) == Leftover(t, Some(key), source, fate, refusal.value)
  {
    var u, h := Entered(t, key), Theirs(source.id);
    var refusal := PortRefusal(u.ports[key], h in t.open, !source.isBus, protocol, fate);
    TakenBack(t.ports, key, u.ports[key]);
    assert t.disposed + {} == t.disposed;
    if refusal == Some(BuildFailed) {
      var p := u.ports[key].(client := Some(Mine(u.made)), protocol := Some(protocol));
      assert u.ports[key := p] == t.ports[key := p];
      TakenBack(t.ports, key, p);
    }
  }

  lemma TakenBack(ports: map<Key, Port>, key: Key, p: Port)
    requires key !in ports
    ensures ports[key := p] - {key} == ports
  {
  }

  /** Each step of a refused call, undone or left, adds up to what is written in `Leftover`. */
  lemma RefusedLeavesLeftover(t: Table, key: Key, source: Source, protocol: Protocol, fate: Fate)
    requires Valid(t) && (match source case Prebuilt(_) => false case Path(_) => key.PathKey? case Object(id, _) => key == ObjectKey(id))
    ensures var u := if key in t.ports then t else Entered(t, key);
      var refusal := PortRefusal(u.ports[key], u.ports[key].transport in u.open, source.Object? && !source.isBus, protocol, fate);
      refusal.Some? ==> Resolved(t, key, source, protocol, fate) == Leftover(t, Some(key), source, fate, refusal.value)
  {
    MadeAreNew(t);
    hide Coherent, Referred, Resolved, Leftover, PortRefusal;
    if key in t.ports {
      Established(t, key);
      RefusedOnPort(t, key, source, protocol, fate);
    } else if source.Path? {
      RefusedPath(t, key, source, protocol, fate);
    } else {
      RefusedObject(t, key, source, protocol, fate);
    }
  }

  lemma MadeAreNew(t: Table)
    requires Coherent(t)
    ensures Mine(t.made) !in t.open
  {
    assert HandlesOk(t);
  }

  /** The transports the manager would close now: those it made, of ports in use, while they are open. */
  function OwnedOpen(t: Table): set<Handle>
  {
    set k | k in t.ports && t.ports[k].owns && t.ports[k].transport in t.open :: t.ports[k].transport
  }

  /**
   * Between `t` and `u` transports were only closed: each that `u` no longer owns open was closed once, and is
   * stuck if that failed.
   */
  ghost predicate OnlyCloses(t: Table, u: Table, failing: set<Handle>)
  {
    && u.stuck + OwnedOpen(u) * failing == t.stuck + OwnedOpen(t) * failing
    && u.open - OwnedOpen(u) == t.open - OwnedOpen(t)
    && multiset(u.closes) + multiset(OwnedOpen(u)) == multiset(t.closes) + multiset(OwnedOpen(t))
  }

  lemma TornDownOwned(t: Table, k: Key, failing: set<Handle>)
    requires Coherent(t) && k in t.ports
    ensures var p, u := t.ports[k], TornDown(t, k, failing);
      if p.owns && p.transport in t.open then p.transport in OwnedOpen(t) && OwnedOpen(u) == OwnedOpen(t) - {p.transport}
      else OwnedOpen(u) == OwnedOpen(t)
  {
    hide PortOk, DeviceOk, HandlesOk, Listed;
    var p, u := t.ports[k], TornDown(t, k, failing);
    forall m | m in u.ports ensures u.ports[m].transport != p.transport { assert Apart(t, m, k); }
    if p.owns && p.transport in t.open {
      forall h | h in OwnedOpen(t) - {p.transport} ensures h in OwnedOpen(u) {
        var m :| m in t.ports && t.ports[m].owns && t.ports[m].transport in t.open && t.ports[m].transport == h;
        assert m in u.ports;
      }
    } else {
      forall h | h in OwnedOpen(t) ensures h in OwnedOpen(u) {
        var m :| m in t.ports && t.ports[m].owns && t.ports[m].transport in t.open && t.ports[m].transport == h;
        assert m in u.ports;
      }
    }
  }

  lemma TornDownCloses(t: Table, k: Key, failing: set<Handle>)
    requires Coherent(t) && k in t.ports
    ensures OnlyCloses(t, TornDown(t, k, failing), failing)
  {
    hide Coherent, OwnedOpen;
    TornDownOwned(t, k, failing);
    var p := t.ports[k];
    if p.owns && p.transport in t.open {
      assert OwnedOpen(t) == OwnedOpen(t) - {p.transport} + {p.transport};
    }
  }

  lemma WithdrawnCloses(t: Table, n: string, failing: set<Handle>)
    requires Valid(t) && n in t.devices
    ensures OnlyCloses(t, Withdrawn(t, n, failing), failing)
  {
    hide Coherent, Referred, TornDown;
    UnlistedKeeps(t, n);
    UnlistedOwned(t, n);
    var u, key := Unlisted(t, n), t.devices[n].key;
    if key.Some? && key.value in u.ports && u.ports[key.value].refs == {} { TornDownCloses(u, key.value, failing); }
  }

  lemma UnlistedOwned(t: Table, n: string)
    requires n in t.devices
    ensures var u := Unlisted(t, n); OwnedOpen(u) == OwnedOpen(t) && u.open == t.open && u.closes == t.closes && u.stuck == t.stuck
  {
    var u := Unlisted(t, n);
    assert forall k :: k in t.ports <==> k in u.ports;
    assert forall k :: k in t.ports ==> u.ports[k].transport == t.ports[k].transport && u.ports[k].owns == t.ports[k].owns;
  }

  /** What closing the manager leaves open and stuck, and what it closes, told from the table before it. */
  ghost predicate ClosedDown(t: Table, u: Table, failing: set<Handle>)
  {
    && u.stuck == t.stuck + OwnedOpen(t) * failing
    && u.open == t.open - OwnedOpen(t)
    && multiset(u.closes) == multiset(t.closes) + multiset(OwnedOpen(t))
  }

  /** Device `i` is the earliest on its port, which the manager owns and has open. */
  predicate OpensPort(t: Table, i: nat)
    requires i < |t.order| && forall n <- t.order :: n in t.devices
  {
    var key := t.devices[t.order[i]].key;
    && key.Some? && key.value in t.ports && t.ports[key.value].owns && t.ports[key.value].transport in t.open
    && forall j :: 0 <= j < i ==> t.devices[t.order[j]].key != key
  }

  /** The transports of the first `n` devices' ports, each at the earliest device on it, the latest first. */
  function ClosingOrder(t: Table, n: nat): seq<Handle>
    requires n <= |t.order| && forall m <- t.order :: m in t.devices
  {
    if n == 0 then []
    else (if OpensPort(t, n - 1) then [t.ports[t.devices[t.order[n - 1]].key.value].transport] else []) + ClosingOrder(t, n - 1)
  }

  /** Everything closed and still to be closed. */
  function ClosesInAll(t: Table): seq<Handle>
    requires forall m <- t.order :: m in t.devices
  {
    t.closes + ClosingOrder(t, |t.order|)
  }

  lemma OrderIsListed(t: Table)
    requires Coherent(t)
    ensures (forall n <- t.order :: n in t.devices) && Distinct(t.order)
    ensures t.order == [] || t.devices == map[] ==> ClosesInAll(t) == t.closes
  {
    if t.order != [] { assert t.order[0] in t.order && t.order[0] in t.devices; }
  }

  lemma {:induction false} SameClosingOrder(t: Table, u: Table, n: nat)
    requires n <= |t.order| && n <= |u.order|
    requires (forall m <- t.order :: m in t.devices) && (forall m <- u.order :: m in u.devices)
    requires forall i :: 0 <= i < n ==> u.order[i] == t.order[i] && u.devices[u.order[i]] == t.devices[t.order[i]]
    requires forall i :: 0 <= i < n && t.devices[t.order[i]].key.Some? ==> SamePort(t, u, t.devices[t.order[i]].key.value)
    ensures ClosingOrder(u, n) == ClosingOrder(t, n)
  {
    if n > 0 { SameClosingOrder(t, u, n - 1); }
  }

  /** A port is there in both tables, or in neither, with the same transport and owner, open in both or in neither. */
  predicate SamePort(t: Table, u: Table, k: Key)
  {
    && (k in t.ports <==> k in u.ports)
    && (k in t.ports ==>
          && u.ports[k].transport == t.ports[k].transport && u.ports[k].owns == t.ports[k].owns
          && (u.ports[k].transport in u.open <==> t.ports[k].transport in t.open))
  }

  /** Taking down the latest device closes what comes next in the closing order, and leaves the rest of it. */
  lemma LastCloses(t: Table, failing: set<Handle>)
    requires Valid(t) && t.order != []
    ensures t.order[|t.order| - 1] in t.devices && (forall m <- t.order :: m in t.devices)
    ensures var u := Withdrawn(t, t.order[|t.order| - 1], failing);
      (forall m <- u.order :: m in u.devices) && ClosesInAll(u) == ClosesInAll(t)
  {
    hide Coherent, Referred, Withdrawn, OpensPort, SamePort, ClosingOrder, ClosesInAll, Without;
    OrderIsListed(t);
    var n := |t.order| - 1;
    var name := t.order[n];
    var u := Withdrawn(t, name, failing);
    WithdrawnKeeps(t, name, failing);
    OrderIsListed(u);
    WithdrawnTables(t, name, failing);
    WithoutRest(t.order, n);
    assert u.order == t.order[..n];
    ClosedWithLastReference(t, name, failing);
    forall i | 0 <= i < n && t.devices[t.order[i]].key.Some? ensures SamePort(t, u, t.devices[t.order[i]].key.value) {
      PortStays(t, name, t.order[i], failing);
    }
    LastOfItsPort(t);
    OneClosed(t, u);
  }

  lemma OneClosed(t: Table, u: Table)
    requires t.order != [] && (forall m <- t.order :: m in t.devices) && (forall m <- u.order :: m in u.devices) && Distinct(t.order)
    requires var n := |t.order| - 1;
      && u.order == t.order[..n] && u.devices == t.devices - {t.order[n]}
      && (forall i :: 0 <= i < n && t.devices[t.order[i]].key.Some? ==> SamePort(t, u, t.devices[t.order[i]].key.value))
      && u.closes == t.closes + if OpensPort(t, n) then [t.ports[t.devices[t.order[n]].key.value].transport] else []
    ensures ClosesInAll(u) == ClosesInAll(t)
  {
    hide OpensPort, SamePort;
    var n := |t.order| - 1;
    forall i | 0 <= i < n ensures u.order[i] == t.order[i] && u.devices[u.order[i]] == t.devices[t.order[i]] {
      assert u.order[i] in u.order;
    }
    SameClosingOrder(t, u, n);
  }

  lemma WithdrawnTables(t: Table, n: string, failing: set<Handle>)
    requires n in t.devices
    ensures var u := Withdrawn(t, n, failing); u.devices == t.devices - {n} && u.order == Without(t.order, n)
  {
  }

  /** The latest device holds the last reference to its port exactly if it is the earliest on it, too. */
  lemma LastOfItsPort(t: Table)
    requires Valid(t) && t.order != [] && forall m <- t.order :: m in t.devices
    ensures var n := |t.order| - 1;
      var key := t.devices[t.order[n]].key;
      key.Some? ==>
        && key.value in t.ports
        && var p := t.ports[key.value]; (OpensPort(t, n) <==> p.refs == {t.order[n]} && p.owns && p.transport in t.open)
    ensures t.devices[t.order[|t.order| - 1]].key.None? ==> !OpensPort(t, |t.order| - 1)
  {
    hide Apart, HandlesOk;
    var n := |t.order| - 1;
    var name := t.order[n];
    var key := t.devices[name].key;
    if key.Some? {
      assert DeviceOk(t, name) && PortOk(t, key.value);
      var refs := t.ports[key.value].refs;
      assert name in refs;
      if OpensPort(t, n) {
        forall m | m in refs ensures m == name {
          assert m in t.order;
          var j :| 0 <= j < |t.order| && t.order[j] == m;
        }
        assert refs == {name};
      }
      if refs == {name} {
        forall j | 0 <= j < n ensures t.devices[t.order[j]].key != key { assert t.order[j] != name; }
      }
    }
  }

  lemma WithdrawnOpen(t: Table, n: string, failing: set<Handle>)
    requires n in t.devices
    ensures var u, key := Withdrawn(t, n, failing), t.devices[n].key;
      u.open == t.open || (key.Some? && key.value in t.ports && key.value !in u.ports && u.open == t.open - {t.ports[key.value].transport})
  {
  }

  lemma PortOfDevice(t: Table, m: string)
    requires Coherent(t) && m in t.devices && t.devices[m].key.Some?
    ensures t.devices[m].key.value in t.ports && m in t.ports[t.devices[m].key.value].refs
  {
    assert DeviceOk(t, m) && PortOk(t, t.devices[m].key.value);
  }

  /** A port with another device stays as it is when one is taken down. */
  lemma PortStays(t: Table, n: string, m: string, failing: set<Handle>)
    requires Valid(t) && n in t.devices && m in t.devices && n != m && t.devices[m].key.Some?
    ensures SamePort(t, Withdrawn(t, n, failing), t.devices[m].key.value)
  {
    hide Coherent, Referred, Withdrawn;
    PortOfDevice(t, m);
    ClosedWithLastReference(t, n, failing);
    WithdrawnOpen(t, n, failing);
    var k, key, u := t.devices[m].key.value, t.devices[n].key, Withdrawn(t, n, failing);
    if key.Some? && key.value != k {
      AreApart(t, k, key.value);
      assert k in t.ports - {key.value};
      assert k in u.ports - {key.value};
      assert (u.ports - {key.value})[k] == (t.ports - {key.value})[k];
    }
  }

  lemma AreApart(t: Table, k: Key, m: Key)
    requires Coherent(t) && k in t.ports && m in t.ports && k != m
    ensures t.ports[k].transport != t.ports[m].transport
  {
    assert Apart(t, k, m);
  }

  lemma OnlyClosesNone(t: Table, failing: set<Handle>)
    ensures OnlyCloses(t, t, failing)
  {
  }

  lemma OnlyClosesTwice(t: Table, u: Table, v: Table, failing: set<Handle>)
    requires OnlyCloses(t, u, failing) && OnlyCloses(u, v, failing)
    ensures OnlyCloses(t, v, failing)
  {
  }

  lemma NothingOwned(t: Table, u: Table, failing: set<Handle>)
    requires OnlyCloses(t, u, failing) && u.ports == map[]
    ensures ClosedDown(t, u, failing)
  {
    assert OwnedOpen(u) == {};
    assert u.open - {} == u.open;
  }

  /** Closing a Modbus transport can raise; a Standard Bus transport suppresses the errors of its port. */
  function Raising(t: Table): set<Handle>
  {
    set k | k in t.ports && t.ports[k].owns && t.ports[k].transport in t.open && t.ports[k].protocol == Some(ModbusRtu)
      :: t.ports[k].transport
  }

  /** What the documentation promises of `close`: it raises exactly when closing a device's transport raised. */
  ghost predicate AsDocumented<E>(t: Table, failing: set<Handle>, r: Result<(), E>)
  {
    r.Err? <==> Raising(t) * failing != {}
  }

  lemma EnrolledAlone(t: Table, name: string, c: Controller)
    ensures Enrolled(t, name, Device(c, None)) == t.(devices := t.devices[name := Device(c, None)], order := t.order + [name])
  {
  }

  /** A port used before only gains a reference, a new one has just that reference, and no other port changes. */
  lemma EnrolledEffect(t: Table, u: Table, w: Table, name: string, key: Key, c: Controller)
    requires u == if key in t.ports then t else Entered(t, key)
    requires key in w.ports && w.ports[key].refs == u.ports[key].refs && w.ports - {key} == u.ports - {key}
    requires w.devices == u.devices && w.order == u.order && (key in t.ports ==> w.ports == t.ports)
    ensures var z := Enrolled(w, name, Device(c, Some(key)));
      && z.devices == t.devices[name := Device(c, Some(key))] && z.order == t.order + [name]
      && z == w.(devices := z.devices, order := z.order, ports := z.ports)
      && key in z.ports && z.ports - {key} == t.ports - {key}
      && (key in t.ports ==> z.ports[key] == t.ports[key].(refs := t.ports[key].refs + {name}))
      && (key !in t.ports ==> z.ports[key].refs == {name})
  {
    var z := Enrolled(w, name, Device(c, Some(key)));
    assert z.ports - {key} == w.ports - {key};
    assert u.ports - {key} == t.ports - {key};
  }

  /** Why `add` fails; None when it succeeds. */
  function Refusal(t: Table, key: Option<Key>, name: string, source: Source, protocol: Protocol, settings: bool, fate: Fate): Option<Error>
    requires key.Some? <==> !source.Prebuilt?
  {
    if t.closed then Some(ManagerClosed)
    else if name in t.devices then Some(NameInUse)
    else if settings && !source.Path? then Some(SettingsMisplaced)
    else if !fate.unitOk then Some(BadUnit)
    else if key.None? then None
    else
      var u := if key.value in t.ports then t else Entered(t, key.value);
      PortRefusal(u.ports[key.value], u.ports[key.value].transport in t.open, source.Object? && !source.isBus, protocol, fate)
  }

  // ---------------------------------------------------------------- the manager

  class WatlowManager {
    const canonical: string -> string
    var devices: map<string, Device>
    var order: seq<string>
    var ports: map<Key, Port>
    var closed: bool
    var made: nat
    var open: set<Handle>
    var closes: seq<Handle>
    var stuck: set<Handle>
    var disposed: set<Handle>

    function State(): Table
      reads this
    {
      Table(devices, order, ports, closed, made, open, closes, stuck, disposed)
    }

    constructor (canonical: string -> string, open: set<Handle>)
      requires forall h <- open :: h.Theirs?
      ensures this.canonical == canonical
      ensures Valid(State()) && State() == Table(map[], [], map[], false, 0, open, [], {}, {})
    {
      this.canonical := canonical;
      devices, order, ports, closed := map[], [], map[], false;
      made, this.open, closes, stuck, disposed := 0, open, [], {}, {};
    }

    /** Registers a controller under `name`; a call that fails leaves both tables as they were. */
    method Add(name: string, source: Source, protocol: Protocol, address: int, settings: bool, fate: Fate)
      returns (r: Result<Controller, Error>)
      requires Valid(State())
      modifies this
      ensures Valid(State()) && closed == old(closed)
      ensures var refusal := Refusal(old(State()), KeyOf(canonical, source), name, source, protocol, settings, fate);
              if refusal.Some? then r == Err(refusal.value) else r.Ok?
      ensures r.Err? ==> devices == old(devices) && order == old(order) && ports == old(ports)
      ensures r.Ok? ==> devices == old(devices)[name := Device(r.value, KeyOf(canonical, source))] && order == old(order) + [name]
      ensures r.Ok? && source.Prebuilt? ==> r.value == source.controller && ports == old(ports)
      ensures r.Ok? && !source.Prebuilt? ==>
                var k := KeyOf(canonical, source).value;
                && k in ports && ports - {k} == old(ports) - {k}
                && (k in old(ports) ==> ports[k] == old(ports)[k].(refs := old(ports)[k].refs + {name}))
                && (k !in old(ports) ==> ports[k].refs == {name})
                && r.value.transport in open && r.value.address == address && r.value.protocol == protocol
                && r.value.transport == TransportFor(old(State()), k)
      ensures r.Ok? ==> closes == old(closes) && disposed == old(disposed) && stuck == old(stuck)
      ensures r.Ok? ==> open == if source.Prebuilt? then old(open) else old(open) + {r.value.transport}
      ensures r.Err? ==> State() == Leftover(old(State()), KeyOf(canonical, source), source, fate, r.error)
      ensures stuck <= old(stuck) + fate.failing
    {
      if closed { return Err(ManagerClosed); }
      if name in devices { return Err(NameInUse); }
      if settings && !source.Path? { return Err(SettingsMisplaced); }
      if !fate.unitOk { return Err(BadUnit); }
      hide Coherent, Referred, PortRefusal, Entered, Leftover;
      match source
      case Prebuilt(controller) =>
        Track(name, controller);
        return Ok(controller);
      case _ =>
        r := Register(KeyOf(canonical, source).value, name, source, protocol, address, fate);
    }

    method Track(name: string, controller: Controller)
      requires Valid(State()) && !closed && name !in devices
      modifies this`devices, this`order, this`ports
      ensures Valid(State())
      ensures State() == old(State()).(devices := old(devices)[name := Device(controller, None)], order := old(order) + [name])
    {
      hide Coherent, Referred, Enrolled;
      EnrolledKeeps(State(), name, Device(controller, None));
      EnrolledAlone(State(), name, controller);
      Enroll(name, Device(controller, None));
    }

    method Register(key: Key, name: string, source: Source, protocol: Protocol, address: int, fate: Fate)
      returns (r: Result<Controller, Error>)
      requires Valid(State()) && !closed && name !in devices && KeyOf(canonical, source) == Some(key)
      modifies this
      ensures Valid(State()) && closed == old(closed)
      ensures var u := if key in old(ports) then old(State()) else Entered(old(State()), key);
              var refusal := PortRefusal(u.ports[key], u.ports[key].transport in u.open, source.Object? && !source.isBus, protocol, fate);
              if refusal.Some? then r == Err(refusal.value) else r.Ok?
      ensures r.Err? ==> devices == old(devices) && order == old(order) && ports == old(ports)
      ensures r.Ok? ==>
                && devices == old(devices)[name := Device(r.value, Some(key))] && order == old(order) + [name]
                && key in ports && ports - {key} == old(ports) - {key}
                && (key in old(ports) ==> ports[key] == old(ports)[key].(refs := old(ports)[key].refs + {name}))
                && (key !in old(ports) ==> ports[key].refs == {name})
                && r.value.transport in open && r.value.address == address && r.value.protocol == protocol
                && r.value.transport == TransportFor(old(State()), key)
                && closes == old(closes) && disposed == old(disposed) && stuck == old(stuck)
                && open == old(open) + {r.value.transport}
      ensures r.Err? ==> State() == Leftover(old(State()), Some(key), source, fate, r.error)
      ensures stuck <= old(stuck) + fate.failing
    {
      hide Coherent, Referred, Attempted, Enrolled, PortRefusal, Leftover, Resolved;
      RefusedLeavesLeftover(State(), key, source, protocol, fate);
      ghost var t := State();
      ghost var u := if key in t.ports then t else Entered(t, key);
      if key in t.ports { Established(t, key); } else { EnteredKeeps(t, key); }
      AttemptedKeeps(u, key, source.Object? && !source.isBus, protocol, fate);
      r := ResolveSource(key, source, protocol, address, fate);
      if r.Ok? {
        EnrolledKeeps(State(), name, Device(r.value, Some(key)));
        EnrolledEffect(t, u, State(), name, key, r.value);
        Enroll(name, Device(r.value, Some(key)));
      }
    }

    method Enroll(name: string, device: Device)
      requires device.key.Some? ==> device.key.value in ports
      modifies this`devices, this`order, this`ports
      ensures State() == Enrolled(old(State()), name, device)
    {
      devices, order := devices[name := device], order + [name];
      if device.key.Some? {
        var p := ports[device.key.value];
        ports := ports[device.key.value := p.(refs := p.refs + {name})];
      }
    }

    /** Finds or makes the port of a source and builds a controller on it, taking back a port made in vain. */
    method ResolveSource(key: Key, source: Source, protocol: Protocol, address: int, fate: Fate) returns (r: Result<Controller, Error>)
      requires Valid(State()) && !closed && KeyOf(canonical, source) == Some(key)
      modifies this`ports, this`made, this`open, this`closes, this`stuck, this`disposed
      ensures var u := if key in old(ports) then old(State()) else Entered(old(State()), key);
              var notABus := source.Object? && !source.isBus;
              var refusal := PortRefusal(u.ports[key], u.ports[key].transport in u.open, notABus, protocol, fate);
              && State() == Resolved(old(State()), key, source, protocol, fate)
              && (refusal.Some? ==> r == Err(refusal.value) && Valid(State()) && ports == old(ports))
              && (refusal.None? ==>
                    && State() == Attempted(u, key, notABus, protocol, fate)
                    && ports[key].client.Some?
                    && r == Ok(Controller(ports[key].client.value, ports[key].transport, protocol, address)))
    {
      hide Coherent, Referred, Attempted, TornDown;
      var isNew := key !in ports;
      ghost var t := State();
      if isNew {
        EnteredKeeps(t, key);
        var entered := EnterPort(key, source, protocol);
        if !entered { return Err(AutoUnsupported); }
      } else {
        Established(t, key);
      }
      AttemptedKeeps(State(), key, source.Object? && !source.isBus, protocol, fate);
      r := OpenController(key, source.Object? && !source.isBus, protocol, address, fate);
      if r.Err? && isNew && ports[key].refs == {} {
        TornDownKeeps(State(), key, fate.failing);
        RolledBack(t, key, State(), fate.failing);
        TeardownPort(key, fate.failing);
      }
    }

    method EnterPort(key: Key, source: Source, protocol: Protocol) returns (entered: bool)
      requires KeyOf(canonical, source) == Some(key)
      modifies this`ports, this`made
      ensures entered == !(source.Path? && protocol == Auto)
      ensures State() == if entered then Entered(old(State()), key) else old(State())
    {
      match source {
        case Path(_) =>
          if protocol == Auto { return false; }
          ports, made := ports[key := Port(Mine(made), None, true, None, {})], made + 1;
        case Object(id, _) =>
          ports := ports[key := Port(Theirs(id), None, false, None, {})];
      }
      return true;
    }

    /** Opens the transport of a port if need be, makes its client the first time, and builds a controller. */
    method OpenController(key: Key, notABus: bool, protocol: Protocol, address: int, fate: Fate)
      returns (r: Result<Controller, Error>)
      requires key in ports
      modifies this`ports, this`made, this`open
      ensures var t := old(State());
        var refusal := PortRefusal(t.ports[key], t.ports[key].transport in t.open, notABus, protocol, fate);
        && State() == Attempted(t, key, notABus, protocol, fate)
        && (refusal.Some? ==> r == Err(refusal.value))
        && (refusal.None? ==>
              ports[key].client.Some? && r == Ok(Controller(ports[key].client.value, ports[key].transport, protocol, address)))
    {
      hide Opened, Connected;
      if protocol == Auto { return Err(AutoUnsupported); }
      var p := ports[key];
      if p.protocol.Some? && p.protocol != Some(protocol) { return Err(MixedProtocols); }
      if p.transport !in open && !fate.openOk { return Err(OpenFailed); }
      OpenTransport(key);
      if p.client.None? && notABus && protocol == ModbusRtu { return Err(NotABus); }
      Connect(key, protocol);
      if !fate.buildOk { return Err(BuildFailed); }
      return Ok(Controller(ports[key].client.value, ports[key].transport, protocol, address));
    }

    method OpenTransport(key: Key)
      requires key in ports
      modifies this`open
      ensures State() == Opened(old(State()), key) && ports == old(ports)
    {
      var transport := ports[key].transport;
      if transport in open { assert open == open + {transport}; } else { open := open + {transport}; }
    }

    method Connect(key: Key, protocol: Protocol)
      requires key in ports
      modifies this`ports, this`made
      ensures State() == Connected(old(State()), key, protocol) && key in ports && ports[key].client.Some?
    {
      if ports[key].client.None? {
        ports := ports[key := ports[key].(client := Some(Mine(made)), protocol := Some(protocol))];
        made := made + 1;
      }
    }

    /** Closing a transport: it gives up its handle, and then the close may fail, which a Modbus transport raises. */
    method CloseTransport(h: Handle, protocol: Option<Protocol>, failing: set<Handle>) returns (r: Result<(), Handle>)
      modifies this`open, this`closes, this`stuck
      ensures closes == old(closes) + [h] && open == old(open) - {h}
      ensures stuck == old(stuck) + if h in failing then {h} else {}
      ensures r == if h in failing && protocol == Some(ModbusRtu) then Err(h) else Ok(())
    {
      closes, open := closes + [h], open - {h};
      if h in failing {
        stuck := stuck + {h};
        if protocol == Some(ModbusRtu) { return Err(h); }
      }
      return Ok(());
    }

    /** Disposes the client, closes an owned transport and forgets the port; a failing close is only logged. */
    method TeardownPort(key: Key, failing: set<Handle>)
      requires key in ports
      modifies this`ports, this`open, this`closes, this`stuck, this`disposed
      ensures State() == TornDown(old(State()), key, failing)
    {
      var p := ports[key];
      if p.client.Some? && p.client.value !in disposed { disposed := disposed + {p.client.value}; }
      if p.owns && p.transport in open {
        var swallowed := CloseTransport(p.transport, p.protocol, failing);
      }
      ports := ports - {key};
    }

    /**
     * Releases the port reference of a device already taken off the list, closing the port with the last
     * one. It has no error to raise, as closing a port swallows its own.
     */
    method TeardownDevice(name: string, device: Device, failing: set<Handle>) returns (r: Result<(), Handle>)
      modifies this`ports, this`open, this`closes, this`stuck, this`disposed
      ensures r.Ok?
      ensures var t := old(State());
        State() ==
          if device.key.None? || device.key.value !in t.ports then t
          else
            var p := t.ports[device.key.value];
            var u := t.(ports := t.ports[device.key.value := p.(refs := p.refs - {name})]);
            if p.refs - {name} != {} then u else TornDown(u, device.key.value, failing)
    {
      r := Ok(());
      if device.key.None? || device.key.value !in ports { return; }
      var key := device.key.value;
      ports := ports[key := ports[key].(refs := ports[key].refs - {name})];
      if ports[key].refs == {} { TeardownPort(key, failing); }
    }

    method Remove(name: string, failing: set<Handle>) returns (r: Result<(), Error>)
      requires Valid(State())
      modifies this
      ensures Valid(State())
      ensures r == if old(closed) then Err(ManagerClosed) else if name !in old(devices) then Err(NoSuchName) else Ok(())
      ensures State() == if r.Err? then old(State()) else Withdrawn(old(State()), name, failing)
    {
      if closed { return Err(ManagerClosed); }
      if name !in devices { return Err(NoSuchName); }
      var torn := Withdraw(name, failing);
      return Ok(());
    }

    /** Takes a device off the list and tears it down. */
    method Withdraw(name: string, failing: set<Handle>) returns (r: Result<(), Handle>)
      requires Valid(State()) && name in devices
      modifies this
      ensures r.Ok? && Valid(State()) && State() == Withdrawn(old(State()), name, failing)
    {
      WithdrawnKeeps(State(), name, failing);
      hide Coherent, Referred, TornDown;
      var device := devices[name];
      devices, order := devices - {name}, Without(order, name);
      r := TeardownDevice(name, device, failing);
    }

    /**
     * Takes every device down, the latest first, and with them every port, collecting the errors of each;
     * `suppress` on the way out of a block that has failed already.
     */
    method Close(failing: set<Handle>, suppress: bool) returns (r: Result<(), seq<Handle>>)
      requires Valid(State())
      modifies this
      ensures Valid(State()) && closed && devices == map[] && ports == map[]
      ensures ClosedDown(old(State()), State(), failing)
      ensures (forall n <- old(order) :: n in old(devices)) && closes == ClosesInAll(old(State()))
      ensures stuck <= old(stuck) + failing
      ensures forall h :: h in open ==> h.Theirs?
      ensures forall h :: h in closes ==> h.Mine?
      ensures old(closed) ==> State() == old(State())
      ensures r.Ok? && (AsDocumented(old(State()), failing, r) <==> Raising(old(State())) * failing == {})
    {
      hide Coherent, Referred, OwnedOpen, Withdrawn, OnlyCloses, ClosesInAll;
      ghost var t := State();
      OnlyClosesNone(t, failing);
      OrderIsListed(t);
      if closed {
        Emptied(State());
        NothingOwned(t, State(), failing);
        return Ok(());
      }
      var errors: seq<Handle> := [];
      while order != []
        invariant Valid(State()) && !closed && errors == []
        invariant OnlyCloses(t, State(), failing)
        invariant (forall n <- order :: n in devices) && ClosesInAll(State()) == ClosesInAll(t)
        decreases |order|
      {
        var name := order[|order| - 1];
        LastCloses(State(), failing);
        ListedLast(State());
        WithdrawnCloses(State(), name, failing);
        WithdrawnShrinks(State(), name, failing);
        OnlyClosesTwice(t, State(), Withdrawn(State(), name, failing), failing);
        var torn := Withdraw(name, failing);
        match torn {
          case Ok(_) =>
          case Err(e) => errors := errors + [e];
        }
      }
      Emptied(State());
      OrderIsListed(State());
      NothingOwned(t, State(), failing);
      closed := true;
      if errors != [] && !suppress { return Err(errors); }
      return Ok(());
    }

    /** A link drops by itself, or a caller opens or closes a transport of its own. */
    method Outside(h: Handle, nowOpen: bool)
      requires Valid(State()) && (h.Mine? ==> !nowOpen)
      modifies this`open
      ensures Valid(State())
    {
      hide PortOk, DeviceOk, Apart, InUse;
      open := if nowOpen then open + {h} else open - {h};
      OutsideKeeps(old(State()), open);
    }

    /** The asked-for names, or all names in insertion order. */
    method ResolveNames(names: Option<seq<string>>) returns (r: Result<seq<string>, Error>)
      ensures r == if names.None? then Ok(order)
                   else if forall n <- names.value :: n in devices then Ok(names.value)
                   else Err(NoSuchName)
    {
      if names.None? { return Ok(order); }
      for i := 0 to |names.value|
        invariant forall j :: 0 <= j < i ==> names.value[j] in devices
      {
        if names.value[i] !in devices { return Err(NoSuchName); }
      }
      return Ok(names.value);
    }

    /** Groups names by port, each group's names in the order given. */
    method GroupByPort(names: seq<string>) returns (groups: map<Group, seq<string>>)
      requires forall n <- names :: n in devices
      ensures forall g :: g in groups ==> groups[g] != [] && groups[g] == Filter(n => n in groups[g], names)
      ensures forall n <- names :: exists g :: g in groups && n in groups[g]
      ensures forall n, m, g, h :: n in names && m in names && g in groups && h in groups && n in groups[g] && m in groups[h] ==>
                (g == h <==> Together(devices, n, m))
      ensures forall g :: g in groups <==> Members(devices, names, g) != []
      ensures forall g :: g in groups ==> groups[g] == Members(devices, names, g)
    {
      groups := map[];
      for i := 0 to |names|
        invariant forall g :: g in groups <==> Members(devices, names[..i], g) != []
        invariant forall g :: g in groups ==> groups[g] == Members(devices, names[..i], g)
      {
        var g := GroupOf(devices, names[i]);
        forall h ensures Members(devices, names[..i + 1], h) == Members(devices, names[..i], h) + if g == h then [names[i]] else [] {
          assert names[..i + 1][..i] == names[..i];
        }
        groups := groups[g := (if g in groups then groups[g] else []) + [names[i]]];
      }
      assert names[..|names|] == names;
      GroupsPartition(devices, names, groups);
    }
  }

  /** A Modbus close that raises goes unreported: `close` returns as if all were well. */
  method CloseHidesAFailure(name: string, path: string) returns (r: Result<(), seq<Handle>>, ghost before: Table, stuck: set<Handle>)
    ensures Valid(before) && Raising(before) == {Mine(0)} && stuck == {Mine(0)}
    ensures r.Ok? && !AsDocumented(before, {Mine(0)}, r)
  {
    hide Coherent, Referred, Leftover, OwnedOpen, Raising;
    var manager := new WatlowManager(p => p, {});
    var added := manager.Add(name, Path(path), ModbusRtu, 1, false, Fate(true, true, true, {}));
    before := manager.State();
    OneOwned(before, name, PathKey(path));
    r := manager.Close({Mine(0)}, false);
    stuck := manager.stuck;
  }

  lemma OneOwned(t: Table, n: string, k: Key)
    requires Valid(t) && k.PathKey? && k in t.ports && t.ports - {k} == map[]
    requires n in t.devices && t.devices[n].key == Some(k) && t.devices[n].controller.transport in t.open
    requires t.devices[n].controller.protocol == ModbusRtu
    ensures OwnedOpen(t) == Raising(t) == {t.devices[n].controller.transport}
  {
    assert PortOk(t, k) && DeviceOk(t, n);
    forall m | m in t.ports ensures m == k { assert m !in t.ports - {k}; }
  }
}
