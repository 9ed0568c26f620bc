/** The vGPU capability records and the labels made from them (internal/vgpu/vgpu.go, internal/lm/vgpu.go). */
module Vgpu {
  import opened Outcomes
  import opened Pci
  import opened Strings
  import opened Labels

  const RECORD_START := 5
  const VERSION_LENGTH := 10
  const BRANCH_LENGTH := 10

  datatype Device = Device(pci: PCIDevice, capability: seq<byte>)

  datatype Info = Info(hostDriverVersion: string, hostDriverBranch: string)

  function IsVGPUDevice(capability: seq<byte>): bool {
    |capability| >= 5 && capability[3] == 0x56 && capability[4] == 0x46
  }

  // ----- the record list, unbounded

  datatype Record = Outside | DriverVersion | Other(length: byte)

  /** What the record list holds at a position. `Outside`: reading it leaves the capability. */
  function RecordAt(cap: seq<byte>, pos: nat): Record {
    if pos >= |cap| then Outside
    else if cap[pos] == 0 then DriverVersion
    else if pos + 1 >= |cap| then Outside
    else Other(cap[pos + 1])
  }

  /** The position of the k-th record, when the list is that long. */
  ghost function RecordPos(cap: seq<byte>, k: nat): Option<nat> {
    if k == 0 then Some(RECORD_START)
    else match RecordPos(cap, k - 1)
      case None => None
      case Some(p) => match RecordAt(cap, p)
        case Other(length) => Some(p + length)
        case _ => None
  }

  ghost predicate StopsAt(cap: seq<byte>, k: nat) {
    RecordPos(cap, k).Some? && !RecordAt(cap, RecordPos(cap, k).value).Other?
  }

  /** The walk over the records comes to an end. */
  ghost predicate Halts(cap: seq<byte>) {
    exists k: nat :: StopsAt(cap, k)
  }

  /** A record other than the driver version record that says its length is zero. */
  ghost predicate StuckAt(cap: seq<byte>, k: nat) {
    RecordPos(cap, k).Some? && RecordAt(cap, RecordPos(cap, k).value) == Other(0)
  }

  /** Go's `string(b)` of a byte: the UTF-8 encoding of the code point `b`. */
  function RuneString(b: byte): string {
    if b < 0x80 then [b as char] else [(0xC0 + b / 64) as char, (0x80 + b % 64) as char]
  }

  function Utf8(bytes: seq<byte>): string {
    if bytes == [] then "" else Utf8(bytes[..|bytes| - 1]) + RuneString(bytes[|bytes| - 1])
  }

  /** Two bytes of the form 110000xx 10xxxxxx hold the bits of a byte from 0x80 on. */
  lemma RuneOfTwoBytes(b: byte)
    requires b >= 128
    ensures |RuneString(b)| == 2
    ensures var c, e := RuneString(b)[0] as int, RuneString(b)[1] as int;
      192 <= c < 196 && 128 <= e < 192 && b == 64 * (c - 192) + (e - 128)
  {
  }

  /** The text of a fixed-width NUL-padded field. */
  function Text(field: seq<byte>): string {
    Trim(Utf8(field), 0 as char)
  }

  function InfoAt(cap: seq<byte>, pos: nat): Outcome<Info> {
    match RecordAt(cap, pos)
    case DriverVersion =>
      if pos + 2 + VERSION_LENGTH + BRANCH_LENGTH <= |cap| then
        Returned(Ok(Info(Text(cap[pos + 2..pos + 12]), Text(cap[pos + 12..pos + 22]))))
      else
        Returned(Err)
    case _ => Panicked
  }

  /** The host driver information, defined on the unbounded record list. */
  ghost function HostInfo(cap: seq<byte>): Outcome<Info> {
    if cap == [] then Returned(Err)
    else if k: nat :| StopsAt(cap, k) then InfoAt(cap, RecordPos(cap, k).value)
    else Hangs
  }

  lemma {:induction false} OthersBefore(cap: seq<byte>, j: nat, k: nat)
    requires j < k && RecordPos(cap, k).Some?
    ensures RecordPos(cap, j).Some? && RecordAt(cap, RecordPos(cap, j).value).Other?
  {
    if j < k - 1 {
      OthersBefore(cap, j, k - 1);
    }
  }

  lemma InfoAtStop(cap: seq<byte>, k: nat)
    requires cap != [] && StopsAt(cap, k)
    ensures Halts(cap) && HostInfo(cap) == InfoAt(cap, RecordPos(cap, k).value)
  {
    forall j: nat | StopsAt(cap, j) ensures j == k {
      if j < k {
        OthersBefore(cap, j, k);
      } else if k < j {
        OthersBefore(cap, k, j);
      }
    }
  }

  lemma {:induction false} StuckForever(cap: seq<byte>, j: nat, k: nat)
    requires j <= k && StuckAt(cap, j)
    ensures RecordPos(cap, k) == RecordPos(cap, j)
  {
    if j < k {
      StuckForever(cap, j, k - 1);
    }
  }

  lemma {:induction false} ReachesStop(cap: seq<byte>, k: nat)
    requires RecordPos(cap, k).Some?
    requires forall j: nat :: !StuckAt(cap, j)
    ensures Halts(cap)
    decreases |cap| - RecordPos(cap, k).value
  {
    if !StopsAt(cap, k) {
      assert !StuckAt(cap, k);
      assert RecordPos(cap, k + 1).Some?;
      ReachesStop(cap, k + 1);
    }
  }

  /** A capability gives host driver information iff its record list reaches a driver version record with
      22 bytes left, and that record's two fields are the information. */
  lemma InfoExactly(cap: seq<byte>, info: Info)
    ensures HostInfo(cap) == Returned(Ok(info)) <==>
            exists k: nat :: StopsAt(cap, k) && var p := RecordPos(cap, k).value;
              p + 22 <= |cap| && cap[p] == 0 && info == Info(Text(cap[p + 2..p + 12]), Text(cap[p + 12..p + 22]))
  {
    if cap == [] {
      forall k: nat ensures RecordPos(cap, k).Some? <==> k == 0 {
        NoRecords(cap, k);
      }
    }
    forall j: nat | cap != [] && StopsAt(cap, j) ensures InfoAt(cap, RecordPos(cap, j).value) == HostInfo(cap) {
      InfoAtStop(cap, j);
    }
  }

  lemma {:induction false} NoRecords(cap: seq<byte>, k: nat)
    requires |cap| <= RECORD_START
    ensures RecordPos(cap, k).Some? <==> k == 0
  {
    if k > 0 {
      NoRecords(cap, k - 1);
    }
  }

  /** GetInfo panics iff its record list reaches a record whose id or length lies outside the capability; it reports an
      error iff the list reaches a driver version record with fewer than 22 bytes left. */
  lemma FailuresExactly(cap: seq<byte>)
    requires cap != []
    ensures HostInfo(cap) == Panicked <==>
            exists k: nat :: StopsAt(cap, k) && RecordAt(cap, RecordPos(cap, k).value) == Outside
    ensures HostInfo(cap) == Returned(Err) <==>
            exists k: nat :: StopsAt(cap, k) && var p := RecordPos(cap, k).value; p < |cap| < p + 22 && cap[p] == 0
  {
    forall j: nat | StopsAt(cap, j) ensures InfoAt(cap, RecordPos(cap, j).value) == HostInfo(cap) {
      InfoAtStop(cap, j);
    }
  }

  /** A vGPU capability that ends with its signature has no record to read: GetInfo panics. */
  lemma SignatureAlonePanics(cap: seq<byte>)
    requires |cap| == 5
    ensures HostInfo(cap) == Panicked
  {
    assert RecordPos(cap, 0) == Some(RECORD_START);
    assert StopsAt(cap, 0);
    FailuresExactly(cap);
  }

  /** GetInfo never returns exactly when its record list reaches a record of length zero that is not the driver version
      record: the list is at that record ever after. */
  lemma HangsExactly(cap: seq<byte>)
    ensures HostInfo(cap) == Hangs <==> cap != [] && exists k: nat :: StuckAt(cap, k)
    ensures forall j: nat, k: nat | StuckAt(cap, j) && j <= k :: RecordPos(cap, k) == RecordPos(cap, j)
  {
    HaltsExactly(cap);
    forall k: nat | StopsAt(cap, k) && cap != [] ensures HostInfo(cap) != Hangs {
      InfoAtStop(cap, k);
    }
    forall j: nat, k: nat | StuckAt(cap, j) && j <= k ensures RecordPos(cap, k) == RecordPos(cap, j) {
      StuckForever(cap, j, k);
    }
  }

  /** The record list stops exactly when no reachable record has length zero. */
  lemma HaltsExactly(cap: seq<byte>)
    ensures Halts(cap) <==> forall k: nat :: !StuckAt(cap, k)
  {
    if k: nat :| StuckAt(cap, k) {
      forall j: nat ensures !StopsAt(cap, j) {
        if j < k {
          OthersBefore(cap, j, k);
        } else {
          StuckForever(cap, k, j);
        }
      }
    } else {
      assert RecordPos(cap, 0).Some?;
      ReachesStop(cap, 0);
    }
  }

  lemma Utf8Next(bytes: seq<byte>, b: byte)
    ensures Utf8(bytes + [b]) == Utf8(bytes) + RuneString(b)
  {
  }

  /** The loops of GetInfo that append `length` bytes from `start`, one `string(byte)` at a time. */
  method ReadRunes(cap: seq<byte>, start: nat, length: nat) returns (s: string)
    requires start + length <= |cap|
    ensures s == Utf8(cap[start..start + length])
  {
    s := "";
    for i := start to start + length
      invariant s == Utf8(cap[start..i])
    {
      Utf8Next(cap[start..i], cap[i]);
      assert cap[start..i + 1] == cap[start..i] + [cap[i]];
      s := s + RuneString(cap[i]);
    }
  }

  /** GetInfo. Its loop goes round forever on a record of length zero; the model then returns `Hangs`. */
  method GetInfo(d: Device) returns (r: Outcome<Info>)
    ensures r == HostInfo(d.capability)
  {
    var cap := d.capability;
    if |cap| == 0 {
      return Returned(Err);
    }
    var pos := RECORD_START;
    ghost var k := 0;
    if pos >= |cap| {
      InfoAtStop(cap, k);
      return Panicked;
    }
    var record := cap[pos];
    while record != 0 && pos < |cap|
      invariant 0 <= pos < |cap| && record == cap[pos] && RecordPos(cap, k) == Some(pos)
      decreases |cap| - pos
    {
      if pos + 1 >= |cap| {
        InfoAtStop(cap, k);
        return Panicked;
      }
      var recordLength := cap[pos + 1];
      if recordLength == 0 {
        // `pos` and `record` stay what they are, from here on
        assert StuckAt(cap, k);
        HangsExactly(cap);
        return Hangs;
      }
      pos := pos + recordLength;
      k := k + 1;
      if pos >= |cap| {
        InfoAtStop(cap, k);
        return Panicked;
      }
      record := cap[pos];
    }
    InfoAtStop(cap, k);
    if record == 0 && pos + 2 + VERSION_LENGTH + BRANCH_LENGTH <= |cap| {
      var version := ReadRunes(cap, pos + 2, VERSION_LENGTH);
      var branch := ReadRunes(cap, pos + 2 + VERSION_LENGTH, BRANCH_LENGTH);
      return Returned(Ok(Info(Trim(version, 0 as char), Trim(branch, 0 as char))));
    }
    return Returned(Err);
  }

  // ----- from PCI devices to labels

  const PRESENT := "nvidia.com/vgpu.present"
  const HOST_DRIVER_VERSION := "nvidia.com/vgpu.host-driver-version"
  const HOST_DRIVER_BRANCH := "nvidia.com/vgpu.host-driver-branch"

  /** The vGPUs among the devices, in order; the first device that cannot be read decides a failure. */
  ghost function Vgpus(ds: seq<PCIDevice>): Outcome<seq<Device>> {
    if ds == [] then Returned(Ok([]))
    else
      var before, capability := Vgpus(ds[..|ds| - 1]), VendorCapability(ds[|ds| - 1]);
      if !before.Succeeds() then before
      else if !capability.Succeeds() then capability.Propagate()
      else Returned(Ok(before.result.value + Admit(ds[|ds| - 1], capability.result.value)))
  }

  function Admit(d: PCIDevice, capability: Option<seq<byte>>): seq<Device> {
    if capability.Some? && IsVGPUDevice(capability.value) then [Device(d, capability.value)] else []
  }

  lemma {:induction false} VgpusFailEarly(ds: seq<PCIDevice>, n: nat)
    requires n <= |ds| && !Vgpus(ds[..n]).Succeeds()
    ensures Vgpus(ds) == Vgpus(ds[..n])
  {
    if n < |ds| {
      assert ds[..|ds| - 1][..n] == ds[..n];
      VgpusFailEarly(ds[..|ds| - 1], n);
    } else {
      assert ds[..n] == ds;
    }
  }

  /** The device has a vendor specific capability with the bytes "VF" at 3 and 4. */
  ghost predicate Signed(d: PCIDevice) {
    VendorCapability(d).Succeeds() &&
    match VendorCapability(d).result.value
    case None => false
    case Some(cap) => |cap| >= 5 && cap[3] == 86 && cap[4] == 70
  }

  lemma {:induction false} VgpusNext(ds: seq<PCIDevice>)
    requires ds != [] && Vgpus(ds[..|ds| - 1]).Succeeds() && VendorCapability(ds[|ds| - 1]).Succeeds()
    ensures var d := ds[|ds| - 1];
      Vgpus(ds) == Returned(Ok(Vgpus(ds[..|ds| - 1]).result.value +
                               if Signed(d) then [Device(d, VendorCapability(d).result.value.value)] else []))
  {
  }

  /** The device, when it is signed, and its capability. */
  ghost predicate IsVgpuOf(v: Device, d: PCIDevice) {
    Signed(d) && v == Device(d, VendorCapability(d).result.value.value)
  }

  /** The i-th vGPU is the device at at[i]; the indices rise, and no signed device is left out. */
  ghost predicate Picks(at: seq<nat>, vs: seq<Device>, ds: seq<PCIDevice>) {
    && |at| == |vs|
    && (forall i | 0 <= i < |at| :: at[i] < |ds|)
    && (forall i | 0 <= i < |at| :: IsVgpuOf(vs[i], ds[at[i]]))
    && (forall i, j | 0 <= i < j < |at| :: at[i] < at[j])
    && (forall k | 0 <= k < |ds| && k !in at :: !Signed(ds[k]))
  }

  lemma {:induction false} PicksNext(at: seq<nat>, vs: seq<Device>, ds: seq<PCIDevice>, d: PCIDevice)
    requires Picks(at, vs, ds)
    ensures Signed(d) ==> Picks(at + [|ds|], vs + [Device(d, VendorCapability(d).result.value.value)], ds + [d])
    ensures !Signed(d) ==> Picks(at, vs, ds + [d])
  {
    if Signed(d) {
      var v := Device(d, VendorCapability(d).result.value.value);
      assert IsVgpuOf(v, d);
      forall k | 0 <= k < |ds + [d]| && k !in at + [|ds|] ensures !Signed((ds + [d])[k]) {
        assert k != |ds| && k !in at;
      }
    }
  }

  lemma {:induction false} VgpusPicked(before: seq<PCIDevice>, d: PCIDevice, at: seq<nat>) returns (at': seq<nat>)
    requires Vgpus(before).Succeeds() && Picks(at, Vgpus(before).result.value, before) && VendorCapability(d).Succeeds()
    ensures Vgpus(before + [d]).Succeeds() && Picks(at', Vgpus(before + [d]).result.value, before + [d])
  {
    assert (before + [d])[..|before|] == before;
    VgpusNext(before + [d]);
    PicksNext(at, Vgpus(before).result.value, before, d);
    at' := if Signed(d) then at + [|before|] else at;
  }

  /** The vGPUs found are the signed devices with their capabilities, all of them and in order. */
  lemma {:induction false} VgpusExactly(ds: seq<PCIDevice>) returns (at: seq<nat>)
    requires forall i | 0 <= i < |ds| :: VendorCapability(ds[i]).Succeeds()
    ensures Vgpus(ds).Succeeds() && Picks(at, Vgpus(ds).result.value, ds)
  {
    at := [];
    if ds != [] {
      var before, d := ds[..|ds| - 1], ds[|ds| - 1];
      at := VgpusExactly(before);
      at := VgpusPicked(before, d, at);
      assert ds == before + [d];
    }
  }

  /** Looking for vGPUs fails iff some device cannot be read, and as the first such device does. */
  lemma {:induction false} FirstUnreadableDecides(ds: seq<PCIDevice>, k: nat)
    requires k < |ds| && !VendorCapability(ds[k]).Succeeds()
    requires forall i | 0 <= i < k :: VendorCapability(ds[i]).Succeeds()
    ensures Vgpus(ds) == VendorCapability(ds[k]).Propagate()
  {
    var at := VgpusExactly(ds[..k]);
    assert ds[..k + 1][..k] == ds[..k];
    VgpusFailEarly(ds, k + 1);
  }

  /** Lib.Devices, for whatever the PCI library answers. */
  method Devices(pciDevices: Result<seq<PCIDevice>>) returns (r: Outcome<seq<Device>>)
    ensures r == if pciDevices.Ok? then Vgpus(pciDevices.value) else Returned(Err)
  {
    if pciDevices.Err? {
      return Returned(Err);
    }
    var ds := pciDevices.value;
    var vgpus: seq<Device> := [];
    for i := 0 to |ds|
      invariant Vgpus(ds[..i]) == Returned(Ok(vgpus))
    {
      assert ds[..i + 1][..i] == ds[..i];
      var capability, _ := GetVendorSpecificCapability(ds[i]);
      if !capability.Succeeds() {
        VgpusFailEarly(ds, i + 1);
        return capability.Propagate();
      }
      assert vgpus + [] == vgpus;
      if capability.result.value.Some? {
        var cap := capability.result.value.value;
        if IsVGPUDevice(cap) {
          vgpus := vgpus + [Device(ds[i], cap)];
        }
      }
    }
    assert ds[..|ds|] == ds;
    return Returned(Ok(vgpus));
  }

  function InfoLabels(info: Info): Labels {
    map[PRESENT := "true", HOST_DRIVER_VERSION := info.hostDriverVersion, HOST_DRIVER_BRANCH := info.hostDriverBranch]
  }

  /** The labels of the vGPUs of a node: the last device's, unless some device's records cannot be read. */
  ghost function DeviceLabels(vs: seq<Device>): Outcome<Labels> {
    if vs == [] then Returned(Ok(map[]))
    else LabelsAfter(DeviceLabels(vs[..|vs| - 1]), HostInfo(vs[|vs| - 1].capability))
  }

  function LabelsAfter(before: Outcome<Labels>, info: Outcome<Info>): Outcome<Labels> {
    if !before.Succeeds() then before
    else if !info.Succeeds() then info.Propagate()
    else Returned(Ok(InfoLabels(info.result.value)))
  }

  lemma {:induction false} LabelsFailEarly(vs: seq<Device>, n: nat)
    requires n <= |vs| && !DeviceLabels(vs[..n]).Succeeds()
    ensures DeviceLabels(vs) == DeviceLabels(vs[..n])
  {
    if n < |vs| {
      assert vs[..|vs| - 1][..n] == vs[..n];
      LabelsFailEarly(vs[..|vs| - 1], n);
    } else {
      assert vs[..n] == vs;
    }
  }

  const KEYS: set<string> := {PRESENT, HOST_DRIVER_VERSION, HOST_DRIVER_BRANCH}

  lemma {:induction false} DeviceLabelsNext(vs: seq<Device>, i: nat)
    requires i < |vs| && DeviceLabels(vs[..i]).Succeeds()
    ensures var info := HostInfo(vs[i].capability);
      if info.Succeeds() then DeviceLabels(vs[..i + 1]) == Returned(Ok(InfoLabels(info.result.value)))
      else DeviceLabels(vs) == info.Propagate()
  {
    assert vs[..i + 1][..i] == vs[..i];
    assert DeviceLabels(vs[..i + 1]) == LabelsAfter(DeviceLabels(vs[..i]), HostInfo(vs[i].capability));
    if !HostInfo(vs[i].capability).Succeeds() {
      LabelsFailEarly(vs, i + 1);
    }
  }

  lemma InfoOverwrites(labels: Labels, info: Info)
    requires labels.Keys <= KEYS && PRESENT in labels && labels[PRESENT] == "true"
    ensures labels[HOST_DRIVER_VERSION := info.hostDriverVersion][HOST_DRIVER_BRANCH := info.hostDriverBranch] == InfoLabels(info)
  {
  }

  /** The part of vgpuLabeler.Labels that follows the enumeration of the devices. */
  method LabelDevices(vs: seq<Device>) returns (r: Outcome<Labels>)
    ensures r == DeviceLabels(vs)
    ensures r.Succeeds() ==> r.result.value.Keys <= KEYS
  {
    var labels: Labels := map[];
    if |vs| > 0 {
      labels := labels[PRESENT := "true"];
    }
    for i := 0 to |vs|
      invariant DeviceLabels(vs[..i]).Succeeds()
      invariant vs == [] || i > 0 ==> DeviceLabels(vs[..i]) == Returned(Ok(labels))
      invariant labels.Keys <= KEYS && (vs != [] ==> PRESENT in labels && labels[PRESENT] == "true")
    {
      var info := GetInfo(vs[i]);
      DeviceLabelsNext(vs, i);
      if !info.Succeeds() {
        return info.Propagate();
      }
      InfoOverwrites(labels, info.result.value);
      labels := labels[HOST_DRIVER_VERSION := info.result.value.hostDriverVersion];
      labels := labels[HOST_DRIVER_BRANCH := info.result.value.hostDriverBranch];
    }
    assert vs[..|vs|] == vs;
    return Returned(Ok(labels));
  }

  ghost function VgpuLabels(pciDevices: Result<seq<PCIDevice>>): Outcome<Labels> {
    if pciDevices.Err? then Returned(Err)
    else if !Vgpus(pciDevices.value).Succeeds() then Vgpus(pciDevices.value).Propagate()
    else DeviceLabels(Vgpus(pciDevices.value).result.value)
  }

  /** vgpuLabeler.Labels. */
  method ReadLabels(pciDevices: Result<seq<PCIDevice>>) returns (r: Outcome<Labels>)
    ensures r == VgpuLabels(pciDevices)
    ensures r.Succeeds() ==> r.result.value.Keys <= KEYS
  {
    var devices := Devices(pciDevices);
    if !devices.Succeeds() {
      return devices.Propagate();
    }
    r := LabelDevices(devices.result.value);
  }

  /** The device's capability is a vGPU's whose records give `info`. */
  ghost predicate Carries(d: PCIDevice, info: Info) {
    exists cap :: VendorCapability(d) == Returned(Ok(Some(cap))) && IsVGPUDevice(cap) && Holds(cap, info)
  }

  ghost predicate Holds(cap: seq<byte>, info: Info) {
    HostInfo(cap) == Returned(Ok(info))
  }

  /** The device can be read and is not a vGPU. */
  ghost predicate NoVgpu(d: PCIDevice) {
    VendorCapability(d).Succeeds() && Admit(d, VendorCapability(d).result.value) == []
  }

  function Present(infos: seq<Option<Info>>): seq<Info> {
    if infos == [] then []
    else Present(infos[..|infos| - 1]) + match infos[|infos| - 1] case Some(info) => [info] case None => []
  }

  ghost predicate Described(ds: seq<PCIDevice>, infos: seq<Option<Info>>) {
    |infos| == |ds| &&
    forall i | 0 <= i < |ds| :: if infos[i].Some? then Carries(ds[i], infos[i].value) else NoVgpu(ds[i])
  }

  lemma {:induction false} VgpusOfMix(ds: seq<PCIDevice>, infos: seq<Option<Info>>) returns (vs: seq<Device>)
    requires Described(ds, infos)
    ensures Vgpus(ds) == Returned(Ok(vs)) && |vs| == |Present(infos)|
    ensures forall i | 0 <= i < |vs| :: Holds(vs[i].capability, Present(infos)[i])
  {
    vs := [];
    if ds != [] {
      var n := |ds| - 1;
      var before := VgpusOfMix(ds[..n], infos[..n]);
      if infos[n].Some? {
        assert Carries(ds[n], infos[n].value);
      } else {
        assert NoVgpu(ds[n]);
      }
      vs := Vgpus(ds).result.value;
    }
  }

  lemma {:induction false} LabelsOfHolders(vs: seq<Device>, infos: seq<Info>)
    requires |vs| == |infos| && forall i | 0 <= i < |vs| :: Holds(vs[i].capability, infos[i])
    ensures DeviceLabels(vs) == Returned(Ok(if infos == [] then map[] else InfoLabels(infos[|infos| - 1])))
  {
    if vs != [] {
      var n := |vs| - 1;
      LabelsOfHolders(vs[..n], infos[..n]);
      assert Holds(vs[n].capability, infos[n]);
    }
  }

  /** The labels of a node with any mix of vGPUs and other devices are those of its last vGPU. */
  lemma LastVgpuIsLabelled(ds: seq<PCIDevice>, infos: seq<Option<Info>>)
    requires Described(ds, infos)
    ensures VgpuLabels(Ok(ds)) ==
            Returned(Ok(if Present(infos) == [] then map[] else InfoLabels(Present(infos)[|Present(infos)| - 1])))
  {
    var vs := VgpusOfMix(ds, infos);
    LabelsOfHolders(vs, Present(infos));
  }
}
