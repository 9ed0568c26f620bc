/** The capability list of a PCI configuration space (internal/vgpu/pciutil.go). */
module Pci {
  import opened Outcomes
  import opened Orders

  type byte = x: int | 0 <= x < 256

  const STATUS_BYTE := 0x06
  const CAPABILITY_LIST := 0x34
  const VENDOR_SPECIFIC_ID := 0x09

  /** `spare` is what lies between the length and the capacity of the Config slice:
      a Go slice expression may reach into it, an index expression may not. */
  datatype PCIDevice = PCIDevice(address: string, config: seq<byte>, spare: seq<byte>)

  /** Bit 0x10 of the status byte. */
  predicate HasCapabilityList(config: seq<byte>)
    requires |config| > STATUS_BYTE
  {
    config[STATUS_BYTE] / 0x10 % 2 == 1
  }

  // ----- the list as section 6.7 of the PCI Local Bus Specification describes it: unbounded, no loop detection

  /** What the list holds at a position. `Fault`: the header reads past the configuration space. */
  datatype Node = End | Fault | Broken | Vendor | Link(next: byte)

  function NodeAt(config: seq<byte>, pos: byte): Node {
    if pos == 0 then End
    else if pos + 2 >= |config| then Fault
    else if config[pos] == 0xff then Broken
    else if config[pos] == VENDOR_SPECIFIC_ID then Vendor
    else Link(config[pos + 1])
  }

  /** The position reached after `k` links, when the list is that long. */
  ghost function Hop(config: seq<byte>, k: nat): Option<byte>
    requires |config| >= 256
  {
    if k == 0 then Some(config[CAPABILITY_LIST])
    else match Hop(config, k - 1)
      case None => None
      case Some(p) => match NodeAt(config, p)
        case Link(next) => Some(next)
        case _ => None
  }

  ghost predicate LinkAt(config: seq<byte>, k: nat)
    requires |config| >= 256
  {
    Hop(config, k).Some? && NodeAt(config, Hop(config, k).value).Link?
  }

  /** The list stops at its k-th position. */
  ghost predicate EndsAt(config: seq<byte>, k: nat)
    requires |config| >= 256
  {
    Hop(config, k).Some? && !NodeAt(config, Hop(config, k).value).Link?
  }

  /** The `length` bytes at `pos`, or the panic of a slice expression beyond the capacity. */
  function Slice(d: PCIDevice, pos: nat, length: nat): Outcome<Option<seq<byte>>> {
    var backing := d.config + d.spare;
    if pos + length <= |backing| then Returned(Ok(Some(backing[pos..pos + length]))) else Panicked
  }

  /** What a walk that stops at `pos` gives back. */
  function AtEnd(d: PCIDevice, pos: byte): Outcome<Option<seq<byte>>> {
    match NodeAt(d.config, pos)
    case Vendor => Slice(d, pos, d.config[pos + 2])
    case Fault => Panicked
    case _ => Returned(Ok(None))
  }

  /** The vendor specific capability, defined on the unbounded list: nothing when the list never stops. */
  ghost function VendorCapability(d: PCIDevice): Outcome<Option<seq<byte>>> {
    if |d.config| < 256 then Returned(Err)
    else if !HasCapabilityList(d.config) then Returned(Ok(None))
    else if k :| EndsAt(d.config, k) then AtEnd(d, Hop(d.config, k).value)
    else Returned(Ok(None))
  }

  lemma {:induction false} LinksBefore(config: seq<byte>, j: nat, k: nat)
    requires |config| >= 256 && j < k && Hop(config, k).Some?
    ensures LinkAt(config, j)
  {
    if j < k - 1 {
      LinksBefore(config, j, k - 1);
    }
  }

  /** A list stops at most once, so the capability does not depend on which stop is chosen. */
  lemma EndIsUnique(config: seq<byte>, j: nat, k: nat)
    requires |config| >= 256 && EndsAt(config, j) && EndsAt(config, k)
    ensures j == k
  {
    if j < k {
      LinksBefore(config, j, k);
    } else if k < j {
      LinksBefore(config, k, j);
    }
  }

  lemma CapabilityAtEnd(d: PCIDevice, k: nat)
    requires |d.config| >= 256 && HasCapabilityList(d.config) && EndsAt(d.config, k)
    ensures VendorCapability(d) == AtEnd(d, Hop(d.config, k).value)
  {
    forall j: nat | EndsAt(d.config, j) ensures j == k {
      EndIsUnique(d.config, j, k);
    }
  }

  /** A list that comes back to an earlier position never leaves the positions it has already passed. */
  lemma {:induction false} LoopIsClosed(config: seq<byte>, j: nat, k: nat, n: nat) returns (i: nat)
    requires |config| >= 256 && j < k && Hop(config, k).Some? && Hop(config, j) == Hop(config, k)
    ensures i < k && Hop(config, n) == Hop(config, i)
  {
    if n < k {
      i := n;
    } else if n == k {
      i := j;
    } else {
      var h := LoopIsClosed(config, j, k, n - 1);
      if h + 1 < k {
        i := h + 1;
      } else {
        i := j;
      }
    }
  }

  /** Hence stopping at the first repeated position loses nothing: a looping list holds no vendor
      capability, no broken entry and no end at any distance. */
  lemma LoopNeverEnds(config: seq<byte>, j: nat, k: nat)
    requires |config| >= 256 && j < k && Hop(config, k).Some? && Hop(config, j) == Hop(config, k)
    ensures forall n: nat :: LinkAt(config, n) && !EndsAt(config, n)
  {
    forall n: nat ensures LinkAt(config, n) && !EndsAt(config, n) {
      var i := LoopIsClosed(config, j, k, n);
      LinksBefore(config, i, k);
    }
  }

  ghost predicate VendorAt(config: seq<byte>, k: nat)
    requires |config| >= 256
  {
    Hop(config, k).Some? && NodeAt(config, Hop(config, k).value) == Vendor
  }

  ghost predicate FaultAt(config: seq<byte>, k: nat)
    requires |config| >= 256
  {
    Hop(config, k).Some? && NodeAt(config, Hop(config, k).value) == Fault
  }

  /** With the status bit set: some capability is found iff a vendor node lies at some distance and its slice fits, nothing
      is found iff neither a vendor node nor a faulty header lies at any distance, and the walk panics iff a faulty header
      or a vendor node whose slice does not fit lies at some distance. */
  lemma CapabilityExactly(d: PCIDevice)
    requires |d.config| >= 256 && HasCapabilityList(d.config)
    ensures VendorCapability(d) == Returned(Ok(None)) <==>
            forall k: nat :: !VendorAt(d.config, k) && !FaultAt(d.config, k)
    ensures forall cap :: VendorCapability(d) == Returned(Ok(Some(cap))) <==>
            exists k: nat :: VendorAt(d.config, k) &&
              var p := Hop(d.config, k).value; Slice(d, p, d.config[p + 2]) == Returned(Ok(Some(cap)))
    ensures VendorCapability(d) == Panicked <==>
            exists k: nat :: FaultAt(d.config, k) ||
              (VendorAt(d.config, k) && var p := Hop(d.config, k).value; Slice(d, p, d.config[p + 2]) == Panicked)
    ensures VendorCapability(d) != Returned(Err) && VendorCapability(d) != Hangs
  {
    if k: nat :| EndsAt(d.config, k) {
      CapabilityAtEnd(d, k);
      forall j: nat | VendorAt(d.config, j) || FaultAt(d.config, j) ensures j == k {
        assert EndsAt(d.config, j);
        EndIsUnique(d.config, j, k);
      }
      assert VendorAt(d.config, k) || !VendorAt(d.config, k);
    } else {
      forall k: nat ensures !VendorAt(d.config, k) && !FaultAt(d.config, k) {
        assert !EndsAt(d.config, k);
      }
    }
  }

  // ----- the walk

  lemma {:induction false} BelowCard(s: set<int>, n: nat)
    requires forall x | x in s :: 0 < x < n
    requires n > 0
    ensures |s| < n
  {
    if n == 1 {
      assert forall x :: x !in s;
    } else {
      BelowCard(s - {n - 1}, n - 1);
    }
  }

  /** The k-th position of the list is one it has been at before. */
  ghost predicate RepeatsAt(config: seq<byte>, k: nat)
    requires |config| >= 256
  {
    Hop(config, k).Some? && exists j: nat :: j < k && Hop(config, j) == Hop(config, k)
  }

  /** The first distance at which the list stops or comes back to an earlier position. */
  ghost predicate FirstStop(config: seq<byte>, k: nat)
    requires |config| >= 256
  {
    && (EndsAt(config, k) || RepeatsAt(config, k))
    && forall j: nat | j < k :: !EndsAt(config, j) && !RepeatsAt(config, j)
  }

  /** The list starts with these positions, all links and all different. */
  ghost predicate Passed(config: seq<byte>, path: seq<byte>)
    requires |config| >= 256
  {
    && (forall j {:trigger path[j]} | 0 <= j < |path| :: Hop(config, j) == Some(path[j]) && NodeAt(config, path[j]).Link?)
    && (forall i, j | 0 <= i < j < |path| :: path[i] != path[j])
  }

  /** The pigeonhole: a header has 255 positions it can be at. */
  lemma PassedFew(config: seq<byte>, path: seq<byte>)
    requires |config| >= 256 && Passed(config, path)
    ensures |path| <= 255
  {
    var positions: set<int> := set p | p in path;
    forall j | 0 <= j < |path| ensures path[j] != 0 {
      assert NodeAt(config, path[j]).Link?;
    }
    EnumerationLength(path, positions);
    BelowCard(positions, 256);
  }

  lemma PassedNext(config: seq<byte>, path: seq<byte>, pos: byte)
    requires |config| >= 256 && Passed(config, path) && Hop(config, |path|) == Some(pos)
    requires NodeAt(config, pos).Link? && pos !in path
    ensures Passed(config, path + [pos]) && |path| < 255
  {
    PassedFew(config, path + [pos]);
  }

  lemma {:induction false} PassedMeans(config: seq<byte>, path: seq<byte>, j: nat)
    requires |config| >= 256 && Passed(config, path) && j < |path|
    ensures !EndsAt(config, j) && !RepeatsAt(config, j)
  {
    assert Hop(config, j) == Some(path[j]);
    forall i: nat | i < j ensures Hop(config, i) != Hop(config, j) {
      assert Hop(config, i) == Some(path[i]);
    }
  }

  lemma StopAfter(config: seq<byte>, path: seq<byte>)
    requires |config| >= 256 && Passed(config, path) && (EndsAt(config, |path|) || RepeatsAt(config, |path|))
    ensures FirstStop(config, |path|)
  {
    forall j: nat | j < |path| ensures !EndsAt(config, j) && !RepeatsAt(config, j) {
      PassedMeans(config, path, j);
    }
  }

  lemma RepeatFound(config: seq<byte>, path: seq<byte>, pos: byte)
    requires |config| >= 256 && Passed(config, path) && Hop(config, |path|) == Some(pos) && pos in path
    ensures RepeatsAt(config, |path|)
  {
    var j :| 0 <= j < |path| && path[j] == pos;
    assert Hop(config, j) == Some(path[j]);
  }

  lemma {:induction false} StopsAfter(config: seq<byte>, path: seq<byte>) returns (stop: nat)
    requires |config| >= 256 && Passed(config, path) && Hop(config, |path|).Some? && |path| <= 255
    ensures stop <= 255 && FirstStop(config, stop)
    decreases 255 - |path|
  {
    var pos := Hop(config, |path|).value;
    stop := |path|;
    if pos in path {
      RepeatFound(config, path, pos);
      StopAfter(config, path);
    } else if EndsAt(config, |path|) {
      StopAfter(config, path);
    } else {
      PassedNext(config, path, pos);
      assert Hop(config, |path| + 1).Some?;
      stop := StopsAfter(config, path + [pos]);
    }
  }

  /** Every list, whatever its bytes, stops or repeats a position after at most 255 links. */
  lemma StopsOrRepeats(config: seq<byte>)
    requires |config| >= 256
    ensures exists k: nat :: k <= 255 && FirstStop(config, k)
  {
    var k := StopsAfter(config, []);
  }

  lemma {:induction false} RepeatMeansNothing(d: PCIDevice, k: nat)
    requires |d.config| >= 256 && HasCapabilityList(d.config) && RepeatsAt(d.config, k)
    ensures VendorCapability(d) == Returned(Ok(None))
  {
    var j: nat :| j < k && Hop(d.config, j) == Hop(d.config, k);
    LoopNeverEnds(d.config, j, k);
  }

  lemma {:induction false} EndFound(d: PCIDevice, path: seq<byte>)
    requires |d.config| >= 256 && HasCapabilityList(d.config) && Passed(d.config, path) && EndsAt(d.config, |path|)
    ensures VendorCapability(d) == AtEnd(d, Hop(d.config, |path|).value) && FirstStop(d.config, |path|)
  {
    CapabilityAtEnd(d, |path|);
    StopAfter(d.config, path);
  }

  /** GetVendorSpecificCapability. `passed` is how many links were followed: all up to where the list first stops or
      repeats a position, and no more than 255. */
  method GetVendorSpecificCapability(d: PCIDevice) returns (r: Outcome<Option<seq<byte>>>, ghost passed: nat)
    ensures r == VendorCapability(d)
    ensures passed <= 255
    ensures |d.config| >= 256 && HasCapabilityList(d.config) ==> FirstStop(d.config, passed)
  {
    passed := 0;
    if |d.config| < 256 {
      return Returned(Err), 0;
    }
    if !HasCapabilityList(d.config) {
      return Returned(Ok(None)), 0;
    }
    var visited := new byte[256](_ => 0);
    var pos := d.config[CAPABILITY_LIST];
    ghost var path: seq<byte> := [];
    while pos != 0
      invariant passed == |path| <= 255 && Hop(d.config, passed) == Some(pos) && Passed(d.config, path)
      invariant forall q: byte :: visited[q] == if q in path then 1 else 0
      decreases 255 - passed
    {
      if pos + 2 >= |d.config| {
        EndFound(d, path);
        return Panicked, passed;
      }
      var id, next, length := d.config[pos], d.config[pos + 1], d.config[pos + 2];
      if visited[pos] != 0 {
        RepeatFound(d.config, path, pos);
        StopAfter(d.config, path);
        RepeatMeansNothing(d, passed);
        return Returned(Ok(None)), passed;
      }
      if id == 0xff {
        EndFound(d, path);
        return Returned(Ok(None)), passed;
      }
      if id == VENDOR_SPECIFIC_ID {
        EndFound(d, path);
        return Slice(d, pos, length), passed;
      }
      PassedNext(d.config, path, pos);
      visited[pos] := visited[pos] + 1;
      path := path + [pos];
      pos := next;
      passed := passed + 1;
    }
    EndFound(d, path);
    return Returned(Ok(None)), passed;
  }

  // ----- the same, byte by byte

  /** The list is announced by bit 4 of the byte at 6, whatever its other bits. */
  lemma StatusBit(config: seq<byte>, high: nat, bit: nat, low: nat)
    requires |config| > 6 && config[6] == 32 * high + 16 * bit + low && high < 8 && bit < 2 && low < 16
    ensures HasCapabilityList(config) <==> bit == 1
    ensures config[6] % 32 >= 16 <==> bit == 1
  {
  }

  lemma StatusByte(config: seq<byte>)
    requires |config| > 6
    ensures HasCapabilityList(config) <==> config[6] % 32 >= 16
  {
    var b: int := config[6];
    StatusBit(config, b / 32, b / 16 % 2, b % 16);
  }

  /** A capability before the one looked for: where its header lies and its id. */
  datatype SkipCapability = SkipCapability(off: byte, id: byte)

  /** The pointer at `from` leads, through these capabilities, to the pointer `off`. */
  predicate Leads(config: seq<byte>, from: nat, skips: seq<SkipCapability>, off: byte)
    decreases skips
  {
    && from < |config|
    && if skips == [] then config[from] == off
       else
         var s := skips[0];
         && config[from] == s.off && 0 < s.off && s.off + 2 < |config|
         && config[s.off] == s.id && s.id != 9 && s.id != 255
         && Leads(config, s.off + 1, skips[1..], off)
  }

  lemma {:induction false} Follows(config: seq<byte>, from: nat, skips: seq<SkipCapability>, off: byte, k: nat)
    requires |config| >= 256 && Leads(config, from, skips, off) && Hop(config, k) == Some(config[from])
    ensures Hop(config, k + |skips|) == Some(off)
    decreases skips
  {
    if skips != [] {
      var s := skips[0];
      assert NodeAt(config, s.off) == Link(config[s.off + 1]);
      assert Hop(config, k + 1) == Some(config[s.off + 1]);
      Follows(config, s.off + 1, skips[1..], off, k + 1);
    }
  }

  /** A list that starts at the pointer at 0x34 and leads through other capabilities to its end, out of the space, to a
      broken entry or to a vendor specific capability: that alone, and the status bit, decide the answer. */
  lemma {:induction false} WalkByBytes(d: PCIDevice, skips: seq<SkipCapability>, off: byte)
    requires |d.config| >= 256 && Leads(d.config, 0x34, skips, off)
    requires off == 0 || off + 2 >= |d.config| || d.config[off] == 9 || d.config[off] == 255
    ensures VendorCapability(d) ==
            if d.config[6] % 32 < 16 || off == 0 then Returned(Ok(None))
            else if off + 2 >= |d.config| then Panicked
            else if d.config[off] == 255 then Returned(Ok(None))
            else if off + d.config[off + 2] > |d.config| + |d.spare| then Panicked
            else Returned(Ok(Some((d.config + d.spare)[off..off + d.config[off + 2]])))
  {
    StatusByte(d.config);
    if d.config[6] % 32 >= 16 {
      Follows(d.config, 0x34, skips, off, 0);
      assert EndsAt(d.config, |skips|);
      CapabilityAtEnd(d, |skips|);
    }
  }
}
