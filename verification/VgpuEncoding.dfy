/** An encoder for vGPU capabilities and capability lists, and the proof that reading undoes it. */
module VgpuEncoding {
  import opened Outcomes
  import opened Pci
  import opened Strings
  import opened Vgpu

  // ----- fixed-width fields

  function Bytes(s: string): seq<byte>
    requires forall i | 0 <= i < |s| :: s[i] < 256 as char
  {
    seq(|s|, i requires 0 <= i < |s| => s[i] as int)
  }

  predicate FitsField(s: string) {
    |s| <= 10 && forall i | 0 <= i < |s| :: s[i] < 256 as char
  }

  /** A string right-padded with NUL bytes to ten bytes. */
  function Field(s: string): (f: seq<byte>)
    requires FitsField(s)
    ensures |f| == 10
  {
    Bytes(s) + seq(10 - |s|, _ => 0)
  }

  /** What survives being stored in a field and read back: ASCII without NUL at either end. */
  predicate Storable(s: string) {
    NoneAtEnds(s, 0 as char) && forall i | 0 <= i < |s| :: s[i] < 128 as char
  }

  lemma {:induction false} Utf8Append(a: seq<byte>, b: seq<byte>)
    ensures Utf8(a + b) == Utf8(a) + Utf8(b)
  {
    if b == [] {
      assert a + b == a;
    } else {
      assert (a + b)[..|a + b| - 1] == a + b[..|b| - 1];
      Utf8Append(a, b[..|b| - 1]);
    }
  }

  lemma {:induction false} Utf8OfZeros(n: nat)
    ensures Utf8(seq(n, _ => 0)) == Repeat(0 as char, n)
  {
    if n > 0 {
      assert seq(n, _ => 0)[..n - 1] == seq(n - 1, _ => 0);
      Utf8OfZeros(n - 1);
    }
  }

  /** Encoding keeps a string exactly when it is ASCII. */
  lemma {:induction false} Utf8Exactly(s: string)
    requires forall i | 0 <= i < |s| :: s[i] < 256 as char
    ensures |Utf8(Bytes(s))| >= |s|
    ensures |Utf8(Bytes(s))| == |s| <==> forall i | 0 <= i < |s| :: s[i] < 128 as char
    ensures |Utf8(Bytes(s))| == |s| ==> Utf8(Bytes(s)) == s
  {
    if s != [] {
      var n := |s| - 1;
      Utf8Exactly(s[..n]);
      assert Bytes(s)[..n] == Bytes(s[..n]);
      assert s == s[..n] + [s[n]];
    }
  }

  /** It keeps the ends of a string NUL or not NUL. */
  lemma {:induction false} Utf8KeepsEnds(s: string)
    requires forall i | 0 <= i < |s| :: s[i] < 256 as char
    ensures Utf8(Bytes(s)) == [] <==> s == []
    ensures s != [] ==> (Utf8(Bytes(s))[0] == 0 as char <==> s[0] == 0 as char)
    ensures NoneAtEnds(s, 0 as char) <==> NoneAtEnds(Utf8(Bytes(s)), 0 as char)
  {
    if s != [] {
      var n := |s| - 1;
      Utf8KeepsEnds(s[..n]);
      assert Bytes(s)[..n] == Bytes(s[..n]);
    }
  }

  /** Reading back what was stored in a field gives the stored string exactly when it is storable. */
  lemma FieldRoundTrip(s: string)
    requires FitsField(s)
    ensures Text(Field(s)) == s <==> Storable(s)
  {
    var nul := 0 as char;
    var zeros: seq<byte> := seq(10 - |s|, _ => 0);
    Utf8Append(Bytes(s), zeros);
    Utf8OfZeros(10 - |s|);
    TrimDropsPadding(Utf8(Bytes(s)), nul, 10 - |s|);
    assert Text(Field(s)) == Trim(Utf8(Bytes(s)), nul);
    Utf8Exactly(s);
    Utf8KeepsEnds(s);
    TrimExactly(Utf8(Bytes(s)), nul);
    TrimExactly(s, nul);
  }

  // ----- records

  /** A record before the driver version record. */
  datatype SkipRecord = SkipRecord(id: byte, payload: seq<byte>) {
    predicate Valid() {
      id != 0 && |payload| <= 253
    }
  }

  function Records(skips: seq<SkipRecord>, last: seq<byte>): seq<byte>
    requires forall i | 0 <= i < |skips| :: skips[i].Valid()
  {
    if skips == [] then last
    else
      var length: byte := assert skips[0].Valid(); 2 + |skips[0].payload|;
      [skips[0].id, length] + skips[0].payload + Records(skips[1..], last)
  }

  /** The driver version record, followed by anything. */
  function VersionRecord(version: string, branch: string, rest: seq<byte>): seq<byte>
    requires FitsField(version) && FitsField(branch)
  {
    [0, 22] + Field(version) + Field(branch) + rest
  }

  /** A vGPU capability: header, signature and records. */
  function Capability(next: byte, records: seq<byte>): seq<byte>
    requires |records| <= 250
  {
    [9, next, 5 + |records|, 0x56, 0x46] + records
  }

  lemma {:induction false} SkipsRecords(cap: seq<byte>, skips: seq<SkipRecord>, last: seq<byte>, k: nat) returns (n: nat)
    requires forall i | 0 <= i < |skips| :: skips[i].Valid()
    requires RecordPos(cap, k).Some? && RecordPos(cap, k).value <= |cap|
    requires cap[RecordPos(cap, k).value..] == Records(skips, last)
    ensures RecordPos(cap, n).Some? && RecordPos(cap, n).value <= |cap| && cap[RecordPos(cap, n).value..] == last
  {
    n := k;
    if skips != [] {
      var p := RecordPos(cap, k).value;
      var length := 2 + |skips[0].payload|;
      var here := cap[p..];
      assert cap[p] == here[0] == skips[0].id && cap[p + 1] == here[1] == length;
      assert cap[p + length..] == here[length..] == Records(skips[1..], last);
      assert skips[0].Valid();
      assert RecordAt(cap, p) == Other(length);
      assert RecordPos(cap, k + 1) == Some(p + length);
      n := SkipsRecords(cap, skips[1..], last, k + 1);
    }
  }

  /** The records of this capability lead to `last`, whatever comes before it. */
  lemma RecordsLeadTo(next: byte, skips: seq<SkipRecord>, last: seq<byte>) returns (k: nat)
    requires forall i | 0 <= i < |skips| :: skips[i].Valid()
    requires |Records(skips, last)| <= 250
    ensures var cap := Capability(next, Records(skips, last));
      RecordPos(cap, k).Some? && RecordPos(cap, k).value <= |cap| && cap[RecordPos(cap, k).value..] == last
  {
    var cap := Capability(next, Records(skips, last));
    assert cap[5..] == Records(skips, last);
    assert RecordPos(cap, 0) == Some(5);
    k := SkipsRecords(cap, skips, last, 0);
  }

  lemma InfoAtVersion(cap: seq<byte>, p: nat, version: string, branch: string, rest: seq<byte>)
    requires FitsField(version) && FitsField(branch)
    requires p <= |cap| && cap[p..] == VersionRecord(version, branch, rest)
    ensures RecordAt(cap, p) == DriverVersion
    ensures InfoAt(cap, p) == Returned(Ok(Info(Text(Field(version)), Text(Field(branch)))))
  {
    var here := cap[p..];
    assert cap[p] == here[0] == 0;
    assert here[2..12] == Field(version) && here[12..22] == Field(branch);
    assert cap[p + 2..p + 12] == here[2..12] && cap[p + 12..p + 22] == here[12..22];
  }

  /** GetInfo undoes the record encoding, whatever records come before and after the driver version. */
  lemma RecordsRoundTrip(next: byte, skips: seq<SkipRecord>, version: string, branch: string, rest: seq<byte>)
    requires forall i | 0 <= i < |skips| :: skips[i].Valid()
    requires FitsField(version) && FitsField(branch)
    requires |Records(skips, VersionRecord(version, branch, rest))| <= 250
    ensures var cap := Capability(next, Records(skips, VersionRecord(version, branch, rest)));
      IsVGPUDevice(cap) && HostInfo(cap) == Returned(Ok(Info(Text(Field(version)), Text(Field(branch)))))
  {
    var last := VersionRecord(version, branch, rest);
    var cap := Capability(next, Records(skips, last));
    var k := RecordsLeadTo(next, skips, last);
    InfoAtVersion(cap, RecordPos(cap, k).value, version, branch, rest);
    assert StopsAt(cap, k);
    InfoAtStop(cap, k);
  }

  /** What ends the records without telling a driver version: nothing, or one that has no length or leads past the end. */
  predicate LeadsOut(last: seq<byte>) {
    last == [] || (last[0] != 0 && (|last| == 1 || last[1] >= |last|))
  }

  /** What the records say, byte by byte: whatever comes before them, the bytes at which the list arrives decide. */
  lemma RecordsDecide(next: byte, skips: seq<SkipRecord>, last: seq<byte>)
    requires (forall i | 0 <= i < |skips| :: skips[i].Valid()) && |Records(skips, last)| <= 250
    ensures var r := HostInfo(Capability(next, Records(skips, last)));
      && (LeadsOut(last) ==> r == Panicked)
      && (last != [] && last[0] == 0 ==>
          r == Returned(if |last| < 22 then Err else Ok(Info(Text(last[2..12]), Text(last[12..22])))))
      && (|last| >= 2 && last[0] != 0 && last[1] == 0 ==> r == Hangs)
  {
    var cap := Capability(next, Records(skips, last));
    var k := RecordsLeadTo(next, skips, last);
    var p := RecordPos(cap, k).value;
    if LeadsOut(last) {
      LeadsOutPanics(cap, p, k, last);
    } else if last[0] == 0 {
      VersionAnswers(cap, p, k, last);
    } else if last[1] == 0 {
      ZeroLengthHangs(cap, p, k, last);
    }
  }

  lemma VersionAnswers(cap: seq<byte>, p: nat, k: nat, last: seq<byte>)
    requires RecordPos(cap, k) == Some(p) && p <= |cap| && cap[p..] == last && last != [] && last[0] == 0
    ensures HostInfo(cap) == Returned(if |last| < 22 then Err else Ok(Info(Text(last[2..12]), Text(last[12..22]))))
  {
    assert cap[p] == last[0];
    InfoAtStop(cap, k);
    if |last| >= 22 {
      assert cap[p + 2..p + 12] == last[2..12] && cap[p + 12..p + 22] == last[12..22];
    }
  }

  lemma ZeroLengthHangs(cap: seq<byte>, p: nat, k: nat, last: seq<byte>)
    requires RecordPos(cap, k) == Some(p) && p <= |cap| && cap[p..] == last && |last| >= 2 && last[0] != 0 && last[1] == 0
    ensures HostInfo(cap) == Hangs
  {
    assert cap[p] == last[0] && cap[p + 1] == last[1];
    assert StuckAt(cap, k);
    HangsExactly(cap);
  }

  lemma LeadsOutPanics(cap: seq<byte>, p: nat, k: nat, last: seq<byte>)
    requires cap != [] && RecordPos(cap, k) == Some(p) && p <= |cap| && cap[p..] == last && LeadsOut(last)
    ensures HostInfo(cap) == Panicked
  {
    if |last| < 2 {
      assert last == [] || cap[p] == last[0];
      InfoAtStop(cap, k);
    } else {
      assert cap[p] == last[0] && cap[p + 1] == last[1];
      assert RecordPos(cap, k + 1) == Some(p + last[1]);
      InfoAtStop(cap, k + 1);
    }
  }

  // ----- capability lists

  /** Bytes written over a configuration space at `off`. */
  function Put(config: seq<byte>, off: nat, bytes: seq<byte>): (c: seq<byte>)
    requires off + |bytes| <= |config|
    ensures |c| == |config|
  {
    config[..off] + bytes + config[off + |bytes|..]
  }

  predicate InRange(size: nat, skips: seq<SkipCapability>, off: byte, cap: seq<byte>) {
    && 0 < off && off + |cap| <= size && 3 <= |cap|
    && forall s | s in skips :: 0 < s.off && s.off + 2 < size && s.id != 9 && s.id != 255
  }

  /** Links a chain into `config`, starting from the pointer cell `from`. */
  function Chain(config: seq<byte>, from: nat, skips: seq<SkipCapability>, off: byte, cap: seq<byte>): (c: seq<byte>)
    requires from < |config| && InRange(|config|, skips, off, cap)
    ensures |c| == |config|
    decreases skips
  {
    if skips == [] then Put(config[from := off], off, cap)
    else
      var s := skips[0];
      Chain(config[from := s.off][s.off := s.id], s.off + 1, skips[1..], off, cap)
  }

  /** Whether `Chain` writes cell `i`. */
  predicate Touches(i: nat, from: nat, skips: seq<SkipCapability>, off: byte, cap: seq<byte>)
    decreases skips
  {
    if skips == [] then i == from || off <= i < off + |cap|
    else i == from || i == skips[0].off || Touches(i, skips[0].off + 1, skips[1..], off, cap)
  }

  /** No cell is written twice: the chain is acyclic and its capabilities do not overlap. */
  predicate Apart(from: nat, skips: seq<SkipCapability>, off: byte, cap: seq<byte>)
    decreases skips
  {
    if skips == [] then !(off <= from < off + |cap|)
    else
      var s := skips[0].off;
      from != s && !Touches(from, s + 1, skips[1..], off, cap) && !Touches(s, s + 1, skips[1..], off, cap) &&
      Apart(s + 1, skips[1..], off, cap)
  }

  lemma {:induction false} ChainKeepsOthers(config: seq<byte>, from: nat, skips: seq<SkipCapability>, off: byte, cap: seq<byte>, i: nat)
    requires from < |config| && InRange(|config|, skips, off, cap)
    requires i < |config| && !Touches(i, from, skips, off, cap)
    ensures Chain(config, from, skips, off, cap)[i] == config[i]
    decreases skips
  {
    if skips != [] {
      var s := skips[0];
      ChainKeepsOthers(config[from := s.off][s.off := s.id], s.off + 1, skips[1..], off, cap, i);
    }
  }

  lemma {:induction false} ChainLeads(config: seq<byte>, from: nat, skips: seq<SkipCapability>, off: byte, cap: seq<byte>)
    requires from < |config| && InRange(|config|, skips, off, cap) && Apart(from, skips, off, cap)
    ensures Leads(Chain(config, from, skips, off, cap), from, skips, off)
    ensures Chain(config, from, skips, off, cap)[off..off + |cap|] == cap
    decreases skips
  {
    if skips != [] {
      var s := skips[0];
      var linked := config[from := s.off][s.off := s.id];
      ChainLeads(linked, s.off + 1, skips[1..], off, cap);
      ChainKeepsOthers(linked, s.off + 1, skips[1..], off, cap, from);
      ChainKeepsOthers(linked, s.off + 1, skips[1..], off, cap, s.off);
    }
  }

  /** A configuration space holding the chain and the capability. */
  function Config(base: seq<byte>, skips: seq<SkipCapability>, off: byte, cap: seq<byte>): (c: seq<byte>)
    requires |base| >= 256 && InRange(|base|, skips, off, cap)
    ensures |c| == |base|
  {
    Chain(base, 0x34, skips, off, cap)
  }

  /** The chain and the capability fit into the space without overlap, and leave the status byte alone. */
  predicate Encodes(base: seq<byte>, skips: seq<SkipCapability>, off: byte, cap: seq<byte>) {
    |base| >= 256 && InRange(|base|, skips, off, cap) && Apart(0x34, skips, off, cap) && !Touches(6, 0x34, skips, off, cap)
  }

  /** With the status bit set, among whatever other bits, the walk finds exactly the capability the encoder put at the end
      of the chain; without it, it finds nothing. */
  lemma {:induction false} ChainRoundTrip(address: string, base: seq<byte>, spare: seq<byte>, skips: seq<SkipCapability>,
                                          off: byte, cap: seq<byte>)
    requires Encodes(base, skips, off, cap) && cap[0] == 9 && cap[2] == |cap|
    ensures VendorCapability(PCIDevice(address, Config(base, skips, off, cap), spare)) ==
            Returned(Ok(if base[6] % 32 >= 16 then Some(cap) else None))
  {
    var config := Config(base, skips, off, cap);
    ConfigHolds(base, skips, off, cap);
    assert (config + spare)[off..off + |cap|] == config[off..off + |cap|];
    WalkByBytes(PCIDevice(address, config, spare), skips, off);
  }

  lemma {:induction false} ConfigHolds(base: seq<byte>, skips: seq<SkipCapability>, off: byte, cap: seq<byte>)
    requires Encodes(base, skips, off, cap)
    ensures var config := Config(base, skips, off, cap);
      && Leads(config, 0x34, skips, off) && config[6] == base[6]
      && config[off..off + |cap|] == cap && config[off] == cap[0] && config[off + 2] == cap[2]
  {
    ChainKeepsOthers(base, 0x34, skips, off, cap, 6);
    ChainLeads(base, 0x34, skips, off, cap);
    var here := Config(base, skips, off, cap)[off..off + |cap|];
    assert here[0] == cap[0] && here[2] == cap[2];
  }

  // ----- whole devices

  lemma OneVgpu(d: PCIDevice)
    requires VendorCapability(d).Succeeds()
    ensures VgpuLabels(Ok([d])) ==
            if Signed(d) then LabelsAfter(Returned(Ok(map[])), HostInfo(VendorCapability(d).result.value.value))
            else Returned(Ok(map[]))
  {
    assert [d][..0] == [] && Vgpus([]) == Returned(Ok([]));
    VgpusNext([d]);
    if Signed(d) {
      var vs := [Device(d, VendorCapability(d).result.value.value)];
      assert [] + vs == vs && Vgpus([d]) == Returned(Ok(vs));
      assert vs[..0] == [] && DeviceLabels([]) == Returned(Ok(map[]));
      assert DeviceLabels(vs) == LabelsAfter(DeviceLabels(vs[..0]), HostInfo(vs[0].capability));
    } else {
      var none: seq<Device> := [];
      assert none + [] == none && DeviceLabels(none) == Returned(Ok(map[]));
    }
  }

  /** A device found through any chain answers with what its records say, if its capability carries the signature and the
      status bit is set, and is no vGPU otherwise. */
  lemma EncodedDeviceAnswers(address: string, base: seq<byte>, spare: seq<byte>, chain: seq<SkipCapability>, off: byte, cap: seq<byte>)
    requires Encodes(base, chain, off, cap) && cap[0] == 9 && cap[2] == |cap|
    ensures var d := PCIDevice(address, Config(base, chain, off, cap), spare);
      VgpuLabels(Ok([d])) ==
      if base[6] % 32 >= 16 && |cap| >= 5 && cap[3] == 86 && cap[4] == 70 then LabelsAfter(Returned(Ok(map[])), HostInfo(cap))
      else Returned(Ok(map[]))
  {
    ChainRoundTrip(address, base, spare, chain, off, cap);
    OneVgpu(PCIDevice(address, Config(base, chain, off, cap), spare));
  }

  /** A device that can be found through any acyclic chain and whose records lead to one of length zero makes the program
      hang. */
  lemma EncodedDeviceHangs(address: string, base: seq<byte>, spare: seq<byte>, chain: seq<SkipCapability>, off: byte,
                           next: byte, skips: seq<SkipRecord>, id: byte, rest: seq<byte>)
    requires (forall i | 0 <= i < |skips| :: skips[i].Valid()) && id != 0
    requires |Records(skips, [id, 0] + rest)| <= 250
    requires Encodes(base, chain, off, Capability(next, Records(skips, [id, 0] + rest))) && base[6] % 32 >= 16
    ensures VgpuLabels(Ok([PCIDevice(address, Config(base, chain, off, Capability(next, Records(skips, [id, 0] + rest))), spare)])) ==
            Hangs
  {
    RecordsDecide(next, skips, [id, 0] + rest);
    EncodedDeviceAnswers(address, base, spare, chain, off, Capability(next, Records(skips, [id, 0] + rest)));
  }

  /** One whose records lead out of the capability without a driver version record makes it panic; it may have no records at
      all. */
  lemma EncodedDevicePanics(address: string, base: seq<byte>, spare: seq<byte>, chain: seq<SkipCapability>, off: byte,
                            next: byte, skips: seq<SkipRecord>, last: seq<byte>)
    requires (forall i | 0 <= i < |skips| :: skips[i].Valid()) && LeadsOut(last)
    requires |Records(skips, last)| <= 250
    requires Encodes(base, chain, off, Capability(next, Records(skips, last))) && base[6] % 32 >= 16
    ensures VgpuLabels(Ok([PCIDevice(address, Config(base, chain, off, Capability(next, Records(skips, last))), spare)])) == Panicked
  {
    RecordsDecide(next, skips, last);
    EncodedDeviceAnswers(address, base, spare, chain, off, Capability(next, Records(skips, last)));
  }

  /** An instance of the former: a seven-byte capability at 0x40 of a space that is otherwise empty. */
  lemma SevenBytesHang()
    ensures VgpuLabels(Ok([PCIDevice("0000:00:05.0", Put(Put(Put(seq(256, _ => 0), 6, [0x10]), 0x34, [0x40]),
                                         0x40, [9, 0, 7, 0x56, 0x46, 1, 0]), [])])) == Hangs
  {
    var base := Put(seq(256, _ => 0), 6, [0x10]);
    assert Records([], [1, 0] + []) == [1, 0];
    var cap := Capability(0, [1, 0]);
    assert cap == [9, 0, 7, 0x56, 0x46, 1, 0];
    assert base[0x34 := 0x40] == Put(base, 0x34, [0x40]);
    EncodedDeviceHangs("0000:00:05.0", base, [], [], 0x40, 0, [], 1, []);
  }

  /** End to end: whatever acyclic capability chain precedes the vGPU capability and whatever records precede the driver
      version, a device encoded with storable strings is read as a vGPU with exactly those strings. */
  lemma EncodedDeviceCarries(address: string, base: seq<byte>, spare: seq<byte>, chain: seq<SkipCapability>, off: byte,
                             next: byte, skips: seq<SkipRecord>, version: string, branch: string, rest: seq<byte>)
    requires forall i | 0 <= i < |skips| :: skips[i].Valid()
    requires FitsField(version) && FitsField(branch)
    requires |Records(skips, VersionRecord(version, branch, rest))| <= 250
    requires Encodes(base, chain, off, Capability(next, Records(skips, VersionRecord(version, branch, rest))))
    ensures var cap := Capability(next, Records(skips, VersionRecord(version, branch, rest)));
      Carries(PCIDevice(address, Config(base, chain, off, cap), spare), Info(version, branch)) <==>
      base[6] % 32 >= 16 && Storable(version) && Storable(branch)
  {
    var cap := Capability(next, Records(skips, VersionRecord(version, branch, rest)));
    RecordsRoundTrip(next, skips, version, branch, rest);
    ChainRoundTrip(address, base, spare, chain, off, cap);
    FieldRoundTrip(version);
    FieldRoundTrip(branch);
    if Storable(version) && Storable(branch) {
      assert Holds(cap, Info(version, branch));
    }
  }

  /** Its labels. */
  lemma EncodedDeviceIsLabelled(address: string, base: seq<byte>, spare: seq<byte>, chain: seq<SkipCapability>, off: byte,
                                next: byte, skips: seq<SkipRecord>, version: string, branch: string, rest: seq<byte>)
    requires forall i | 0 <= i < |skips| :: skips[i].Valid()
    requires FitsField(version) && FitsField(branch) && Storable(version) && Storable(branch)
    requires |Records(skips, VersionRecord(version, branch, rest))| <= 250
    requires Encodes(base, chain, off, Capability(next, Records(skips, VersionRecord(version, branch, rest))))
    ensures var cap := Capability(next, Records(skips, VersionRecord(version, branch, rest)));
      var d := PCIDevice(address, Config(base, chain, off, cap), spare);
      VgpuLabels(Ok([d])) == Returned(Ok(
        if base[6] % 32 < 16 then map[]
        else map["nvidia.com/vgpu.present" := "true", "nvidia.com/vgpu.host-driver-version" := version,
                 "nvidia.com/vgpu.host-driver-branch" := branch]))
  {
    RecordsRoundTrip(next, skips, version, branch, rest);
    FieldRoundTrip(version);
    FieldRoundTrip(branch);
    EncodedDeviceAnswers(address, base, spare, chain, off, Capability(next, Records(skips, VersionRecord(version, branch, rest))));
  }
}
