/** The single strategy and the resource labeler as a whole (internal/lm/mig-strategy.go). */
module SingleStrategy {
  import opened Outcomes
  import opened Strings
  import opened Labels
  import opened Managers
  import opened Configuration
  import opened Orders
  import opened Grouping
  import opened Mig
  import opened ResourceLabels
  import opened MigProfiles

  // ----- what the strategy decides, from the devices of the node

  /** The MIG setup of a node, as far as the single strategy is concerned. */
  datatype Verdict = NoMig | Invalid | Uniform(device: Device, count: nat)

  predicate IsInvalid(ds: seq<Device>) {
    || (exists d | d in WithMig(ds, true) :: d.migDevices == Ok([]))
    || WithMig(ds, false) != []
    || (exists d, e | d in NodeMigs(ds) && e in NodeMigs(ds) :: Name(d) != Name(e))
  }

  function VerdictOf(ds: seq<Device>): Verdict {
    if WithMig(ds, true) == [] then NoMig
    else if IsInvalid(ds) || NodeMigs(ds) == [] then Invalid
    else Uniform(NodeMigs(ds)[0], |NodeMigs(ds)|)
  }

  /** What the invalid setup is labelled with, by suffix. */
  function InvalidValues(model: string): map<string, string> {
    map[PRODUCT := Join(NonEmpty([model, "MIG", "INVALID"]), "-"), COUNT := "0", REPLICAS := "0", MEMORY := "0"]
  }

  function VerdictLabels(verdict: Verdict, ds: seq<Device>, sharing: seq<ReplicatedResource>): Labels {
    match verdict
    case NoMig => map[]
    case Invalid =>
      if WithMig(ds, true) == [] then map[]
      else ResourceLabeler(FULL_GPU, None).Prefixed(InvalidValues(Name(WithMig(ds, true)[0])))
    case Uniform(device, count) => ProfileLabels(MigResource(FULL_GPU, device, count), sharing)
  }

  /** Every call the single strategy might make answers. */
  ghost predicate SingleCallsAnswer(ds: seq<Device>) {
    && FlagsAnswer(ds) && MigsAnswer(ds)
    && (forall d | d in WithMig(ds, true) :: d.name.Ok?)
    && (forall d | d in NodeMigs(ds) :: MigAnswers(d))
  }

  /** Two MIG devices of the node have different names. */
  ghost predicate HasTwoProfiles(ds: seq<Device>) {
    exists x, y :: HasMig(ds, x) && HasMig(ds, y) && Name(x) != Name(y)
  }

  /** The verdict, from the devices of the node: there is nothing to override iff no device has MIG enabled; otherwise the
      setup is invalid iff an enabled device is empty, a device has MIG disabled, or there are two profiles; and else every
      MIG device of the node is counted. */
  lemma VerdictExactly(ds: seq<Device>)
    requires forall d | d in ds && d.migEnabled == Ok(true) :: d.migDevices.Ok?
    ensures VerdictOf(ds) == NoMig <==> forall d | d in ds :: d.migEnabled != Ok(true)
    ensures VerdictOf(ds) == Invalid <==>
            (exists d | d in ds :: d.migEnabled == Ok(true)) &&
            ((exists d | d in ds :: d.migEnabled == Ok(true) && d.migDevices == Ok([])) ||
             (exists d | d in ds :: d.migEnabled == Ok(false)) || HasTwoProfiles(ds))
    ensures VerdictOf(ds).Uniform? ==> VerdictOf(ds).count == MigTotal(ds) >= 1 && HasMig(ds, VerdictOf(ds).device)
  {
    SideMembers(ds, true);
    SideMembers(ds, false);
    SomeSide(ds, true);
    SomeSide(ds, false);
    MigsAreCounted(ds);
    TwoProfiles(ds);
    if WithMig(ds, true) != [] {
      NoMigsMeansEmpty(ds);
      if NodeMigs(ds) != [] {
        NodeHasMig(ds, NodeMigs(ds)[0]);
      }
    }
  }

  lemma SomeSide(ds: seq<Device>, enabled: bool)
    ensures WithMig(ds, enabled) != [] <==> exists d | d in ds :: d.migEnabled == Ok(enabled)
  {
    SideMembers(ds, enabled);
    if WithMig(ds, enabled) != [] {
      assert WithMig(ds, enabled)[0] in WithMig(ds, enabled);
    }
  }

  lemma TwoProfiles(ds: seq<Device>)
    ensures HasTwoProfiles(ds) <==> exists d, e | d in NodeMigs(ds) && e in NodeMigs(ds) :: Name(d) != Name(e)
  {
    forall mig ensures mig in NodeMigs(ds) <==> HasMig(ds, mig) {
      NodeHasMig(ds, mig);
    }
  }

  /** A node with MIG-enabled devices and no MIG device has an empty one. */
  lemma NoMigsMeansEmpty(ds: seq<Device>)
    requires WithMig(ds, true) != [] && forall d | d in WithMig(ds, true) :: d.migDevices.Ok?
    ensures NodeMigs(ds) == [] ==> exists d | d in WithMig(ds, true) :: d.migDevices == Ok([])
  {
    if forall d | d in WithMig(ds, true) :: Populated(d) {
      SomeMig(WithMig(ds, true));
    }
  }

  // ----- the code

  /** newInvalidMigStrategyLabeler. */
  method NewInvalidMigStrategyLabeler(m: Manager, d: Device) returns (r: Result<Labeler>)
    requires m.Valid()
    modifies m.wraps`log
    ensures m.Valid() && m.Asked()
    ensures r.Ok? <==> d.name.Ok?
    ensures r.Ok? ==> Evaluate(r.value) == Ok(ResourceLabeler(FULL_GPU, None).Prefixed(InvalidValues(Name(d))))
  {
    var model := m.Ask(d.name);
    if model.Err? {
      return Err;
    }
    var labels := InvalidLabels(model.value);
    return Ok(Fixed(labels));
  }

  lemma InvalidProduct(model: string)
    ensures ResourceLabeler(FULL_GPU, None).ProductValues([model, "MIG", "INVALID"]) ==
            map[PRODUCT := Join(NonEmpty([model, "MIG", "INVALID"]), "-")]
  {
    var parts := [model, "MIG", "INVALID"];
    assert parts[..2] == [model, "MIG"];
    assert NonEmpty(parts) == NonEmpty([model, "MIG"]) + [Dashed("INVALID")];
    assert NonEmpty(parts) + [] == NonEmpty(parts);
  }

  method InvalidLabels(model: string) returns (labels: Labels)
    ensures labels == ResourceLabeler(FULL_GPU, None).Prefixed(InvalidValues(model))
  {
    var rl := ResourceLabeler(FULL_GPU, None);
    labels := rl.ProductLabel([model, "MIG", "INVALID"]);
    InvalidProduct(model);
    ghost var values := map[PRODUCT := Join(NonEmpty([model, "MIG", "INVALID"]), "-")];
    rl.PrefixedPut(values, COUNT, "0");
    rl.PrefixedPut(values[COUNT := "0"], REPLICAS, "0");
    rl.PrefixedPut(values[COUNT := "0"][REPLICAS := "0"], MEMORY, "0");
    labels := labels[rl.Key(COUNT) := FormatInt(0)];
    labels := labels[rl.Key(REPLICAS) := FormatInt(0)];
    labels := labels[rl.Key(MEMORY) := FormatInt(0)];
    assert FormatInt(0) == "0";
    assert values[COUNT := "0"][REPLICAS := "0"][MEMORY := "0"] == InvalidValues(model);
  }

  /** When no enabled device is empty there is a MIG device, so the last test never meets an empty map. */
  lemma SomeMig(enabled: seq<Device>)
    requires enabled != [] && forall d | d in enabled :: Populated(d)
    ensures AllMigs(enabled) != []
  {
    assert Populated(enabled[|enabled| - 1]);
  }

  /** With names that answer, there is one resource iff all MIG devices have one name. */
  lemma OneProfile(migs: seq<Device>)
    requires migs != []
    ensures |Group(migs, false)| == 1 <==> forall d, e | d in migs && e in migs :: Name(d) == Name(e)
    ensures |Group(migs, false)| == 1 ==> Group(migs, false).Keys == {Name(migs[0])}
    ensures |Group(migs, false)| == 1 ==> Group(migs, false)[Name(migs[0])] == MigResource(FULL_GPU, migs[0], |migs|)
  {
    var g := Group(migs, false);
    GroupHolds(migs, false);
    var n := Name(migs[0]);
    assert Names(migs)[0] == n && n in g.Keys;
    if forall d, e | d in migs && e in migs :: Name(d) == Name(e) {
      forall k | k in g.Keys ensures k == n {
        var i :| 0 <= i < |migs| && Names(migs)[i] == k;
        assert migs[i] in migs && migs[0] in migs;
      }
      assert g.Keys == {n};
    }
    if |g| == 1 {
      assert |g.Keys - {n}| == 0;
      assert g.Keys == {n};
      forall d | d in migs ensures Name(d) == n {
        var i :| 0 <= i < |migs| && migs[i] == d;
        assert Names(migs)[i] in g.Keys;
      }
      assert forall i | 0 <= i < |migs| :: migs[i] in migs && Names(migs)[i] == n;
      AllOfOneName(Names(migs), n);
      GroupKeepsFirst(migs, false, n);
    }
  }

  /** What the strategy yields for a node, if anything, is what its verdict says. */
  ghost predicate Follows(ds: seq<Device>, sharing: seq<ReplicatedResource>, r: Result<Labeler>) {
    r.Ok? ==> Evaluate(r.value) == Ok(VerdictLabels(VerdictOf(ds), ds, sharing))
  }

  /** newMigStrategySingleLabeler. */
  method NewMigStrategySingleLabeler(m: Manager, sharing: seq<ReplicatedResource>) returns (r: Result<Labeler>)
    requires m.Valid()
    modifies m.wraps`log
    ensures m.Valid() && m.Asked()
    ensures m.wraps.answers.devices.Err? ==> r == Err
    ensures m.wraps.answers.devices.Ok? ==> Follows(m.wraps.answers.devices.value, sharing, r)
    ensures m.wraps.answers.devices.Ok? && SingleCallsAnswer(m.wraps.answers.devices.value) ==> r.Ok?
  {
    var deviceInfo := new DeviceInfo(m);
    var migEnabledDevices := deviceInfo.GetDevicesWithMigEnabled();
    if migEnabledDevices.Err? {
      return Err;
    }
    if |migEnabledDevices.value| == 0 {
      return Ok(Empty);
    }
    r := LabelEnabled(deviceInfo, sharing, migEnabledDevices.value, m.wraps.answers.devices.value);
  }

  /** The part of newMigStrategySingleLabeler for nodes with MIG-enabled devices. */
  method LabelEnabled(deviceInfo: DeviceInfo, sharing: seq<ReplicatedResource>, enabled: seq<Device>, ghost ds: seq<Device>)
      returns (r: Result<Labeler>)
    requires deviceInfo.Valid() && deviceInfo.manager.Valid() && deviceInfo.Source() == Ok(ds)
    requires enabled == WithMig(ds, true) != []
    modifies deviceInfo`devicesMap, deviceInfo`devices, deviceInfo.manager.wraps`log
    ensures deviceInfo.manager.Valid() && deviceInfo.manager.Asked()
    ensures Follows(ds, sharing, r)
    ensures SingleCallsAnswer(ds) ==> r.Ok?
  {
    FirstIsNamed(ds);
    var hasEmpty := deviceInfo.AnyMigEnabledDeviceIsEmpty();
    if hasEmpty.Err? {
      EmptyTestAnswers(ds);
      return Err;
    }
    if hasEmpty.value {
      EmptyTestMeans(ds);
      r := NewInvalidMigStrategyLabeler(deviceInfo.manager, enabled[0]);
      return;
    }
    r := LabelPopulated(deviceInfo, sharing, enabled, ds);
  }

  /** The part of newMigStrategySingleLabeler for nodes without empty MIG-enabled devices. */
  method LabelPopulated(deviceInfo: DeviceInfo, sharing: seq<ReplicatedResource>, enabled: seq<Device>, ghost ds: seq<Device>)
      returns (r: Result<Labeler>)
    requires deviceInfo.Valid() && deviceInfo.manager.Valid() && deviceInfo.Source() == Ok(ds)
    requires enabled == WithMig(ds, true) != [] && forall d | d in enabled :: Populated(d)
    modifies deviceInfo`devicesMap, deviceInfo`devices, deviceInfo.manager.wraps`log
    ensures deviceInfo.manager.Valid() && deviceInfo.manager.Asked()
    ensures Follows(ds, sharing, r)
    ensures SingleCallsAnswer(ds) ==> r.Ok?
  {
    FirstIsNamed(ds);
    SomeMig(enabled);
    var migDisabledDevices := deviceInfo.GetDevicesWithMigDisabled();
    if migDisabledDevices.Err? {
      return Err;
    }
    if |migDisabledDevices.value| != 0 {
      r := NewInvalidMigStrategyLabeler(deviceInfo.manager, enabled[0]);
      return;
    }
    var migs := deviceInfo.GetAllMigDevices();
    if migs.Err? {
      return Err;
    }
    r := LabelProfiled(deviceInfo.manager, sharing, enabled[0], migs.value, ds);
  }

  lemma FirstIsNamed(ds: seq<Device>)
    requires WithMig(ds, true) != []
    ensures SingleCallsAnswer(ds) ==> WithMig(ds, true)[0].name.Ok?
  {
  }

  lemma MigsAreNamed(ds: seq<Device>)
    requires SingleCallsAnswer(ds)
    ensures NamesAnswer(NodeMigs(ds))
  {
    forall i | 0 <= i < |NodeMigs(ds)| ensures NodeMigs(ds)[i].name.Ok? {
      assert NodeMigs(ds)[i] in NodeMigs(ds);
    }
  }

  /** The part of newMigStrategySingleLabeler that follows the enumeration of the MIG devices. */
  method LabelProfiled(m: Manager, sharing: seq<ReplicatedResource>, first: Device, migs: seq<Device>, ghost ds: seq<Device>)
      returns (r: Result<Labeler>)
    requires m.Valid() && migs == NodeMigs(ds) && migs != [] && WithMig(ds, true) != [] && first == WithMig(ds, true)[0]
    requires WithMig(ds, false) == [] && forall d | d in WithMig(ds, true) :: Populated(d)
    modifies m.wraps`log
    ensures m.Valid() && m.Asked()
    ensures Follows(ds, sharing, r)
    ensures SingleCallsAnswer(ds) ==> r.Ok?
  {
    var resources := GroupByProfile(m, migs, false);
    if resources.Err? {
      if SingleCallsAnswer(ds) {
        MigsAreNamed(ds);
      }
      return Err;
    }
    OneProfileVerdict(ds);
    if |resources.value| != 1 {
      FirstIsNamed(ds);
      r := NewInvalidMigStrategyLabeler(m, first);
      return;
    }
    r := LabelUniform(m, sharing, resources.value, ds);
  }

  /** The part of newMigStrategySingleLabeler for nodes with one MIG profile only. */
  method LabelUniform(m: Manager, sharing: seq<ReplicatedResource>, resources: map<string, MigResource>, ghost ds: seq<Device>)
      returns (r: Result<Labeler>)
    requires m.Valid() && NodeMigs(ds) != [] && resources == Group(NodeMigs(ds), false) && |resources| == 1
    requires WithMig(ds, true) != [] && WithMig(ds, false) == [] && forall d | d in WithMig(ds, true) :: Populated(d)
    modifies m.wraps`log
    ensures m.Valid() && m.Asked()
    ensures Follows(ds, sharing, r)
    ensures SingleCallsAnswer(ds) ==> r.Ok?
  {
    GroupHolds(NodeMigs(ds), false);
    ghost var order;
    r, order := NewMIGDeviceLabelers(m, resources, sharing);
    OneProfile(NodeMigs(ds));
    assert NodeMigs(ds)[0] in NodeMigs(ds);
    if r.Ok? {
      UniformFollows(ds, sharing, order);
    }
  }

  lemma UniformFollows(ds: seq<Device>, sharing: seq<ReplicatedResource>, order: seq<string>)
    requires WithMig(ds, true) != [] && WithMig(ds, false) == [] && NodeMigs(ds) != []
    requires forall d | d in WithMig(ds, true) :: Populated(d)
    requires |Group(NodeMigs(ds), false)| == 1 && Enumerates(order, Group(NodeMigs(ds), false).Keys)
    ensures Overlay(ProfilesIn(Group(NodeMigs(ds), false), sharing, order)) == VerdictLabels(VerdictOf(ds), ds, sharing)
  {
    OneProfileVerdict(ds);
    OneProfile(NodeMigs(ds));
    OneInOrder(Group(NodeMigs(ds), false), sharing, order, Name(NodeMigs(ds)[0]));
  }

  lemma OneProfileVerdict(ds: seq<Device>)
    requires WithMig(ds, true) != [] && WithMig(ds, false) == [] && NodeMigs(ds) != []
    requires forall d | d in WithMig(ds, true) :: Populated(d)
    ensures VerdictOf(ds) == if |Group(NodeMigs(ds), false)| == 1 then Uniform(NodeMigs(ds)[0], |NodeMigs(ds)|) else Invalid
  {
    OneProfile(NodeMigs(ds));
  }

  lemma OneInOrder(resources: map<string, MigResource>, sharing: seq<ReplicatedResource>, order: seq<string>, n: string)
    requires resources.Keys == {n} && Enumerates(order, resources.Keys)
    ensures Overlay(ProfilesIn(resources, sharing, order)) == ProfileLabels(resources[n], sharing)
  {
  }

  lemma {:induction false} FirstEmpty(enabled: seq<Device>, i: nat)
    requires i <= |enabled| && enabled != []
    requires (forall j | 0 <= j < |enabled| :: enabled[j].migDevices.Ok?) && (forall j | 0 <= j < i :: Populated(enabled[j]))
    ensures EmptyFirst(enabled) || forall j | 0 <= j < |enabled| :: Populated(enabled[j])
    decreases |enabled| - i
  {
    if i < |enabled| {
      if Populated(enabled[i]) {
        FirstEmpty(enabled, i + 1);
      } else {
        assert enabled[i].migDevices == Ok([]);
      }
    }
  }

  lemma EmptyTestAnswers(ds: seq<Device>)
    requires WithMig(ds, true) != []
    ensures SingleCallsAnswer(ds) ==> EmptyFirst(WithMig(ds, true)) || forall d | d in WithMig(ds, true) :: Populated(d)
  {
    if SingleCallsAnswer(ds) {
      FirstEmpty(WithMig(ds, true), 0);
    }
  }

  lemma EmptyTestMeans(ds: seq<Device>)
    requires WithMig(ds, true) != [] && EmptyFirst(WithMig(ds, true))
    ensures VerdictOf(ds) == Invalid
  {
  }
}
