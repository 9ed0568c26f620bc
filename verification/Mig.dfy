/** The cache of devices separated by MIG mode (internal/mig/mig.go). */
module Mig {
  import opened Outcomes
  import opened Managers

  type DevicesMap = map<bool, seq<Device>>

  /** Go's reading of a missing key. */
  function At(m: DevicesMap, b: bool): seq<Device> {
    if b in m then m[b] else []
  }

  /** The devices with MIG enabled (or disabled), in order. */
  function WithMig(devices: seq<Device>, enabled: bool): seq<Device> {
    if devices == [] then []
    else
      var d := devices[|devices| - 1];
      WithMig(devices[..|devices| - 1], enabled) + if d.migEnabled == Ok(enabled) then [d] else []
  }

  function Partition(devices: seq<Device>): DevicesMap {
    map b | b in {true, false} && WithMig(devices, b) != [] :: WithMig(devices, b)
  }

  predicate FlagsAnswer(devices: seq<Device>) {
    forall i | 0 <= i < |devices| :: devices[i].migEnabled.Ok?
  }

  /** The partition loses no device, invents none, and puts each on its side. */
  lemma {:induction false} PartitionIsComplete(devices: seq<Device>)
    requires FlagsAnswer(devices)
    ensures multiset(WithMig(devices, true)) + multiset(WithMig(devices, false)) == multiset(devices)
  {
    if devices != [] {
      var n := |devices| - 1;
      PartitionIsComplete(devices[..n]);
      assert devices == devices[..n] + [devices[n]];
      assert multiset(devices) == multiset(devices[..n]) + multiset([devices[n]]);
      var b := devices[n].migEnabled.value;
      assert WithMig(devices, b) == WithMig(devices[..n], b) + [devices[n]];
      assert WithMig(devices, !b) == WithMig(devices[..n], !b);
    }
  }

  /** `side` consists of the devices at these indices, which rise and leave out no device of that mode. */
  ghost predicate Selects(at: seq<nat>, side: seq<Device>, devices: seq<Device>, enabled: bool) {
    && |at| == |side|
    && (forall i | 0 <= i < |at| :: at[i] < |devices| && side[i] == devices[at[i]])
    && (forall i | 0 <= i < |at| :: side[i].migEnabled == Ok(enabled))
    && (forall i, j | 0 <= i < j < |at| :: at[i] < at[j])
    && (forall k | 0 <= k < |devices| && devices[k].migEnabled == Ok(enabled) :: k in at)
  }

  lemma {:induction false} SelectsNext(at: seq<nat>, side: seq<Device>, devices: seq<Device>, enabled: bool, d: Device)
    requires Selects(at, side, devices, enabled)
    ensures d.migEnabled == Ok(enabled) ==> Selects(at + [|devices|], side + [d], devices + [d], enabled)
    ensures d.migEnabled != Ok(enabled) ==> Selects(at, side, devices + [d], enabled)
  {
    forall k | 0 <= k < |devices + [d]| && (devices + [d])[k].migEnabled == Ok(enabled) ensures k in at + [|devices|] {
      if k < |devices| {
        assert k in at;
      } else {
        assert (at + [|devices|])[|at|] == k;
      }
    }
  }

  /** Each side of the partition is what a stable filter gives: the devices of one side, in the order of the list. */
  lemma {:induction false} SideIsSorted(devices: seq<Device>, enabled: bool) returns (at: seq<nat>)
    ensures Selects(at, WithMig(devices, enabled), devices, enabled)
  {
    at := [];
    if devices != [] {
      var before, d := devices[..|devices| - 1], devices[|devices| - 1];
      at := SideIsSorted(before, enabled);
      SelectsNext(at, WithMig(before, enabled), before, enabled, d);
      assert devices == before + [d];
      if d.migEnabled == Ok(enabled) {
        at := at + [|before|];
      } else {
        assert WithMig(devices, enabled) == WithMig(before, enabled);
      }
    }
  }

  lemma PartitionSnoc(devices: seq<Device>, d: Device)
    requires d.migEnabled.Ok?
    ensures var b := d.migEnabled.value;
      Partition(devices + [d]) == Partition(devices)[b := At(Partition(devices), b) + [d]]
  {
    var all := devices + [d];
    assert all[..|all| - 1] == devices;
    var b := d.migEnabled.value;
    assert WithMig(all, !b) == WithMig(devices, !b);
    assert WithMig(all, b) == WithMig(devices, b) + [d];
    assert At(Partition(devices), b) == WithMig(devices, b);
  }

  /** The MIG devices of all the given devices, in order. */
  function AllMigs(devices: seq<Device>): seq<Device> {
    if devices == [] then []
    else
      AllMigs(devices[..|devices| - 1]) +
      match devices[|devices| - 1].migDevices case Ok(migs) => migs case Err => []
  }

  /** The i-th device's MIG devices stand in `all` from starts[i] to where those of the next device start, or to the end. */
  ghost predicate BlockAt(all: seq<Device>, starts: seq<nat>, devices: seq<Device>, i: nat)
    requires i < |devices| == |starts|
  {
    var migs := if devices[i].migDevices.Ok? then devices[i].migDevices.value else [];
    var end := starts[i] + |migs|;
    && end == (if i + 1 < |starts| then starts[i + 1] else |all|)
    && end <= |all| && all[starts[i]..end] == migs
  }

  /** Which MIG devices are listed: those of each device as one block, the blocks in the order of the devices, from the
      beginning to the end of the list and without gaps. */
  lemma {:induction false} MigsAreBlocks(devices: seq<Device>) returns (starts: seq<nat>)
    ensures |starts| == |devices| && (if devices == [] then AllMigs(devices) == [] else starts[0] == 0)
    ensures forall i | 0 <= i < |devices| :: BlockAt(AllMigs(devices), starts, devices, i)
  {
    starts := [];
    if devices != [] {
      var n := |devices| - 1;
      var before := MigsAreBlocks(devices[..n]);
      AllMigsSnoc(devices[..n], devices[n]);
      assert devices == devices[..n] + [devices[n]];
      starts := before + [|AllMigs(devices[..n])|];
      forall i | 0 <= i < |devices| ensures BlockAt(AllMigs(devices), starts, devices, i) {
        if i < n {
          BlockStays(AllMigs(devices[..n]), before, devices[..n], devices[n], i);
        }
      }
    }
  }

  lemma {:induction false} BlockStays(all: seq<Device>, starts: seq<nat>, devices: seq<Device>, d: Device, i: nat)
    requires i < |devices| == |starts| && BlockAt(all, starts, devices, i)
    ensures var more := if d.migDevices.Ok? then d.migDevices.value else [];
      BlockAt(all + more, starts + [|all|], devices + [d], i)
  {
  }

  lemma {:induction false} AllMigsSnoc(devices: seq<Device>, d: Device)
    ensures AllMigs(devices + [d]) == AllMigs(devices) + if d.migDevices.Ok? then d.migDevices.value else []
  {
    assert (devices + [d])[..|devices|] == devices;
  }

  /** What is on each side of the partition. */
  lemma {:induction false} SideMembers(devices: seq<Device>, enabled: bool)
    ensures forall d :: d in WithMig(devices, enabled) <==> d in devices && d.migEnabled == Ok(enabled)
  {
    if devices != [] {
      SideMembers(devices[..|devices| - 1], enabled);
      assert devices == devices[..|devices| - 1] + [devices[|devices| - 1]];
    }
  }

  lemma {:induction false} MigMembers(devices: seq<Device>, mig: Device)
    ensures mig in AllMigs(devices) <==> exists d :: d in devices && d.migDevices.Ok? && mig in d.migDevices.value
  {
    if devices != [] {
      var before, last := devices[..|devices| - 1], devices[|devices| - 1];
      MigMembers(before, mig);
      AllMigsSnoc(before, last);
      assert devices == before + [last];
    }
  }

  /** The MIG device is one of a MIG-enabled device of the node. */
  ghost predicate HasMig(ds: seq<Device>, mig: Device) {
    exists d :: d in ds && d.migEnabled == Ok(true) && d.migDevices.Ok? && mig in d.migDevices.value
  }

  /** The MIG devices of a node are those of its MIG-enabled devices. */
  lemma NodeHasMig(ds: seq<Device>, mig: Device)
    ensures mig in AllMigs(WithMig(ds, true)) <==> HasMig(ds, mig)
  {
    SideMembers(ds, true);
    MigMembers(WithMig(ds, true), mig);
  }

  /** How many MIG devices a node has on its MIG-enabled devices. */
  function MigTotal(ds: seq<Device>): nat {
    if ds == [] then 0
    else
      var d := ds[|ds| - 1];
      MigTotal(ds[..|ds| - 1]) + if d.migEnabled == Ok(true) && d.migDevices.Ok? then |d.migDevices.value| else 0
  }

  /** How many of them have this name. */
  function MigsNamed(ds: seq<Device>, name: string): nat {
    if ds == [] then 0
    else
      var d := ds[|ds| - 1];
      MigsNamed(ds[..|ds| - 1], name) +
      if d.migEnabled == Ok(true) && d.migDevices.Ok? then NamedIn(d.migDevices.value, name) else 0
  }

  function NamedIn(migs: seq<Device>, name: string): nat {
    if migs == [] then 0
    else NamedIn(migs[..|migs| - 1], name) + if migs[|migs| - 1].name == Ok(name) then 1 else 0
  }

  /** The MIG devices of a node are as many as its MIG-enabled devices have. */
  lemma {:induction false} MigsAreCounted(ds: seq<Device>)
    ensures |AllMigs(WithMig(ds, true))| == MigTotal(ds)
  {
    if ds != [] {
      var before, d := ds[..|ds| - 1], ds[|ds| - 1];
      MigsAreCounted(before);
      if d.migEnabled == Ok(true) {
        AllMigsSnoc(WithMig(before, true), d);
        assert WithMig(ds, true) == WithMig(before, true) + [d];
      } else {
        assert WithMig(ds, true) == WithMig(before, true);
      }
    }
  }

  /** So they are of each name. */
  lemma {:induction false} NamesAreCounted(ds: seq<Device>, name: string)
    ensures NamedIn(AllMigs(WithMig(ds, true)), name) == MigsNamed(ds, name)
  {
    if ds != [] {
      var before, d := ds[..|ds| - 1], ds[|ds| - 1];
      NamesAreCounted(before, name);
      if d.migEnabled == Ok(true) {
        AllMigsSnoc(WithMig(before, true), d);
        assert WithMig(ds, true) == WithMig(before, true) + [d];
        NamedInAppend(AllMigs(WithMig(before, true)), if d.migDevices.Ok? then d.migDevices.value else [], name);
      } else {
        assert WithMig(ds, true) == WithMig(before, true);
      }
    }
  }

  lemma {:induction false} NamedInAppend(a: seq<Device>, b: seq<Device>, name: string)
    ensures NamedIn(a + b, name) == NamedIn(a, name) + NamedIn(b, name)
  {
    if b == [] {
      assert a + b == a;
    } else {
      assert (a + b)[..|a + b| - 1] == a + b[..|b| - 1];
      NamedInAppend(a, b[..|b| - 1], name);
    }
  }

  predicate Populated(d: Device) {
    d.migDevices.Ok? && d.migDevices.value != []
  }

  /** There is no device, or the first device that is not known to be populated is known to be empty. */
  ghost predicate EmptyFirst(enabled: seq<Device>) {
    enabled == [] ||
    exists i :: 0 <= i < |enabled| && enabled[i].migDevices == Ok([]) && forall j | 0 <= j < i :: Populated(enabled[j])
  }

  /** The part of AnyMigEnabledDeviceIsEmpty that follows the reading of the cache. */
  method AnyIsEmpty(manager: Manager, enabled: seq<Device>) returns (r: Result<bool>)
    requires manager.Valid()
    modifies manager.wraps`log
    ensures manager.Valid() && manager.Asked()
    ensures r == Ok(true) <==> EmptyFirst(enabled)
    ensures r == Ok(false) <==> enabled != [] && forall d | d in enabled :: Populated(d)
  {
    if |enabled| == 0 {
      return Ok(true);
    }
    for i := 0 to |enabled|
      invariant manager.Valid() && manager.Asked()
      invariant forall j | 0 <= j < i :: Populated(enabled[j])
    {
      var migs := manager.Ask(enabled[i].migDevices);
      if migs.Err? {
        assert !Populated(enabled[i]);
        return Err;
      }
      if |migs.value| == 0 {
        assert !Populated(enabled[i]);
        return Ok(true);
      }
    }
    return Ok(false);
  }

  class DeviceInfo {
    const manager: Manager
    var devicesMap: Option<DevicesMap>
    /** The device list read by the call that filled the cache. */
    ghost var devices: seq<Device>

    ghost predicate Valid()
      reads this
    {
      devicesMap.Some? ==> FlagsAnswer(devices) && devicesMap.value == Partition(devices)
    }

    constructor (manager: Manager)
      ensures Valid() && this.manager == manager && devicesMap == None
    {
      this.manager, devicesMap, devices := manager, None, [];
    }

    /** The list the cache answers from: the one it was filled with, or the one the manager would give now. */
    ghost function Source(): Result<seq<Device>>
      reads this, manager, manager.wraps
    {
      if devicesMap.Some? then Ok(devices)
      else if manager.wraps.answers.devices.Ok? && FlagsAnswer(manager.wraps.answers.devices.value) then
        manager.wraps.answers.devices
      else Err
    }

    method GetDevicesMap() returns (r: Result<DevicesMap>)
      requires Valid() && manager.Valid()
      modifies this`devicesMap, this`devices, manager.wraps`log
      ensures Valid() && manager.Valid() && manager.Asked()
      ensures r == if old(Source()).Ok? then Ok(Partition(old(Source()).value)) else Err
      ensures devicesMap == if r.Ok? then Some(r.value) else None
      ensures r.Ok? ==> devices == old(Source()).value
      ensures old(devicesMap.Some?) ==> manager.wraps.log == old(manager.wraps.log)
    {
      if devicesMap.Some? {
        return Ok(devicesMap.value);
      }
      var listed := manager.GetDevices();
      if listed.Err? {
        return Err;
      }
      var ds := listed.value;
      var m: DevicesMap := map[];
      for i := 0 to |ds|
        invariant manager.Valid() && manager.Asked() && devicesMap == None
        invariant FlagsAnswer(ds[..i]) && m == Partition(ds[..i])
      {
        assert ds[..i + 1][..i] == ds[..i];
        var isMigEnabled := manager.Ask(ds[i].migEnabled);
        if isMigEnabled.Err? {
          assert !FlagsAnswer(ds);
          return Err;
        }
        PartitionSnoc(ds[..i], ds[i]);
        assert ds[..i + 1] == ds[..i] + [ds[i]];
        m := m[isMigEnabled.value := At(m, isMigEnabled.value) + [ds[i]]];
      }
      assert ds[..|ds|] == ds;
      devicesMap, devices := Some(m), ds;
      return Ok(m);
    }

    method GetDevicesWithMigEnabled() returns (r: Result<seq<Device>>)
      requires Valid() && manager.Valid()
      modifies this`devicesMap, this`devices, manager.wraps`log
      ensures Valid() && manager.Valid() && manager.Asked() && Source() == old(Source())
      ensures r == if Source().Ok? then Ok(WithMig(Source().value, true)) else Err
    {
      var devicesMap := GetDevicesMap();
      if devicesMap.Err? {
        return Err;
      }
      return Ok(At(devicesMap.value, true));
    }

    method GetDevicesWithMigDisabled() returns (r: Result<seq<Device>>)
      requires Valid() && manager.Valid()
      modifies this`devicesMap, this`devices, manager.wraps`log
      ensures Valid() && manager.Valid() && manager.Asked() && Source() == old(Source())
      ensures r == if Source().Ok? then Ok(WithMig(Source().value, false)) else Err
    {
      var devicesMap := GetDevicesMap();
      if devicesMap.Err? {
        return Err;
      }
      return Ok(At(devicesMap.value, false));
    }

    method AnyMigEnabledDeviceIsEmpty() returns (r: Result<bool>)
      requires Valid() && manager.Valid()
      modifies this`devicesMap, this`devices, manager.wraps`log
      ensures Valid() && manager.Valid() && manager.Asked() && Source() == old(Source())
      ensures Source().Err? ==> r == Err
      ensures Source().Ok? ==> (r == Ok(true) <==> EmptyFirst(WithMig(Source().value, true)))
      ensures Source().Ok? ==> (r == Ok(false) <==>
        WithMig(Source().value, true) != [] && forall d | d in WithMig(Source().value, true) :: Populated(d))
    {
      var devicesMap := GetDevicesMap();
      if devicesMap.Err? {
        return Err;
      }
      r := AnyIsEmpty(manager, At(devicesMap.value, true));
    }

    method GetAllMigDevices() returns (r: Result<seq<Device>>)
      requires Valid() && manager.Valid()
      modifies this`devicesMap, this`devices, manager.wraps`log
      ensures Valid() && manager.Valid() && manager.Asked() && Source() == old(Source())
      ensures Source().Err? ==> r == Err
      ensures Source().Ok? ==> var enabled := WithMig(Source().value, true);
        r == if forall i | 0 <= i < |enabled| :: enabled[i].migDevices.Ok? then Ok(AllMigs(enabled)) else Err
    {
      var devicesMap := GetDevicesMap();
      if devicesMap.Err? {
        return Err;
      }
      var enabled := At(devicesMap.value, true);
      var migs: seq<Device> := [];
      for i := 0 to |enabled|
        invariant Valid() && manager.Valid() && manager.Asked() && Source() == old(Source())
        invariant forall j | 0 <= j < i :: enabled[j].migDevices.Ok?
        invariant migs == AllMigs(enabled[..i])
      {
        assert enabled[..i + 1][..i] == enabled[..i];
        var devs := manager.Ask(enabled[i].migDevices);
        if devs.Err? {
          return Err;
        }
        migs := migs + devs.value;
      }
      assert enabled[..|enabled|] == enabled;
      return Ok(migs);
    }
  }
}
