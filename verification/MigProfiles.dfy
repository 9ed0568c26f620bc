/** Labels for MIG profiles and the mixed strategy (internal/lm/mig-strategy.go). */
module MigProfiles {
  import opened Outcomes
  import opened Labels
  import opened Managers
  import opened Configuration
  import opened Orders
  import opened Grouping
  import opened Mig
  import opened ResourceLabels

  const MIG_PREFIX := "nvidia.com/mig-"

  datatype MigResource = MigResource(name: string, device: Device, count: nat)

  /** Under `mixed` every profile is a resource of its own, under `single` all are the full GPU resource. */
  function ResourceNameOf(mixed: bool, profile: string): string {
    if mixed then MIG_PREFIX + profile else FULL_GPU
  }

  function Add(resources: map<string, MigResource>, mixed: bool, mig: Device): map<string, MigResource> {
    var name := Name(mig);
    var resource := if name in resources then resources[name] else MigResource(ResourceNameOf(mixed, name), mig, 0);
    resources[name := resource.(count := resource.count + 1)]
  }

  function Group(migs: seq<Device>, mixed: bool): map<string, MigResource> {
    if migs == [] then map[] else Add(Group(migs[..|migs| - 1], mixed), mixed, migs[|migs| - 1])
  }

  /** Each profile is counted once for each MIG device of that name. */
  lemma {:induction false} GroupHolds(migs: seq<Device>, mixed: bool)
    ensures forall n :: n in Group(migs, mixed) <==> n in Names(migs)
    ensures forall n | n in Group(migs, mixed) :: Group(migs, mixed)[n].name == if mixed then "nvidia.com/mig-" + n else "nvidia.com/gpu"
    ensures forall n | n in Group(migs, mixed) :: Group(migs, mixed)[n].count == multiset(Names(migs))[n] >= 1
  {
    if migs != [] {
      var k := |migs| - 1;
      GroupHolds(migs[..k], mixed);
      assert Names(migs) == Names(migs[..k]) + [Name(migs[k])];
    }
  }

  /** A profile's labels are taken from the first MIG device of that name. */
  lemma {:induction false} GroupKeepsFirst(migs: seq<Device>, mixed: bool, n: string)
    requires n in Group(migs, mixed)
    ensures IsFirst(migs, n, Group(migs, mixed)[n].device)
  {
    var k := |migs| - 1;
    if n in Group(migs[..k], mixed) {
      GroupKeepsFirst(migs[..k], mixed, n);
      var i :| 0 <= i < k && migs[..k][i] == Group(migs[..k], mixed)[n].device && forall j | 0 <= j < i :: Name(migs[..k][j]) != n;
      assert migs[i] == Group(migs, mixed)[n].device && forall j | 0 <= j < i :: migs[j] == migs[..k][j];
    } else {
      GroupHolds(migs[..k], mixed);
      assert forall j | 0 <= j < k :: Names(migs[..k])[j] == Name(migs[j]);
      assert migs[k] == Group(migs, mixed)[n].device;
    }
  }

  ghost predicate IsFirst(ds: seq<Device>, name: string, d: Device) {
    Name(d) == name && exists i :: 0 <= i < |ds| && ds[i] == d && forall j | 0 <= j < i :: Name(ds[j]) != name
  }

  function ProfileCounts(resources: map<string, MigResource>): map<string, nat> {
    map n | n in resources :: resources[n].count
  }

  /** Conservation: added up in any order, the profile counts are the number of MIG devices. */
  lemma ProfileCountsSumUp(migs: seq<Device>, mixed: bool, order: seq<string>)
    requires Enumerates(order, Group(migs, mixed).Keys)
    ensures SumOver(order, ProfileCounts(Group(migs, mixed))) == |migs|
  {
    GroupHolds(migs, mixed);
    TallyIsMultiplicity(Names(migs));
    assert ProfileCounts(Group(migs, mixed)) == Tally(Names(migs));
    CountsSumUp(order, Names(migs));
  }

  /** The loops of newMigStrategySingleLabeler and newMigStrategyMixedLabeler over the MIG devices. */
  method GroupByProfile(m: Manager, migs: seq<Device>, mixed: bool) returns (r: Result<map<string, MigResource>>)
    requires m.Valid()
    modifies m.wraps`log
    ensures m.Valid() && m.Asked()
    ensures r == if NamesAnswer(migs) then Ok(Group(migs, mixed)) else Err
  {
    var resources: map<string, MigResource> := map[];
    for i := 0 to |migs|
      invariant m.Valid() && m.Asked() && forall j | 0 <= j < i :: migs[j].name.Ok?
      invariant resources == Group(migs[..i], mixed)
    {
      assert migs[..i + 1][..i] == migs[..i];
      var name := m.Ask(migs[i].name);
      if name.Err? {
        return Err;
      }
      resources := Add(resources, mixed, migs[i]);
    }
    assert migs[..|migs|] == migs;
    return Ok(resources);
  }

  // ----- newMIGDeviceLabelers

  function ProfileLabels(resource: MigResource, sharing: seq<ReplicatedResource>): Labels {
    if MigAnswers(resource.device) then MigLabels(resource.name, Some(sharing), resource.device, resource.count) else map[]
  }

  function ProfilesIn(resources: map<string, MigResource>, sharing: seq<ReplicatedResource>, order: seq<string>): (ls: seq<Labels>)
    requires forall i | 0 <= i < |order| :: order[i] in resources
    ensures |ls| == |order|
  {
    seq(|order|, i requires 0 <= i < |order| => ProfileLabels(resources[order[i]], sharing))
  }

  ghost predicate Evaluates(labelers: seq<Labeler>, ls: seq<Labels>) {
    |labelers| == |ls| && forall i | 0 <= i < |ls| :: Evaluate(labelers[i]) == Ok(ls[i])
  }

  lemma ProfilesInSnoc(resources: map<string, MigResource>, sharing: seq<ReplicatedResource>, order: seq<string>, name: string)
    requires (forall i | 0 <= i < |order| :: order[i] in resources) && name in resources
    ensures ProfilesIn(resources, sharing, order + [name]) ==
            ProfilesIn(resources, sharing, order) + [ProfileLabels(resources[name], sharing)]
  {
  }

  lemma EvaluatesAppend(labelers: seq<Labeler>, ls: seq<Labels>, l: Labeler, next: Labels)
    requires Evaluates(labelers, ls) && Evaluate(l) == Ok(next)
    ensures Evaluates(labelers + [l], ls + [next])
  {
  }

  /** The loop of newMIGDeviceLabelers, which ranges over the resources in any order. */
  method LabelProfiles(m: Manager, resources: map<string, MigResource>, sharing: seq<ReplicatedResource>)
      returns (r: Result<seq<Labeler>>, ghost order: seq<string>)
    requires m.Valid() && forall n | n in resources :: resources[n].count >= 1
    modifies m.wraps`log
    ensures m.Valid() && m.Asked()
    ensures r.Ok? <==> forall n | n in resources :: MigAnswers(resources[n].device)
    ensures r.Ok? ==> Enumerates(order, resources.Keys) && Evaluates(r.value, ProfilesIn(resources, sharing, order))
  {
    var labelers: seq<Labeler> := [];
    ghost var ls: seq<Labels> := [];
    order := [];
    var left := resources.Keys;
    while left != {}
      invariant m.Valid() && m.Asked() && left <= resources.Keys
      invariant Enumerates(order, resources.Keys - left)
      invariant forall n | n in resources && n !in left :: MigAnswers(resources[n].device)
      invariant Evaluates(labelers, ls) && ls == ProfilesIn(resources, sharing, order)
    {
      var name :| name in left;
      var l := LabelProfile(m, resources[name], sharing);
      if l.Err? {
        return Err, order;
      }
      EvaluatesAppend(labelers, ls, l.value, ProfileLabels(resources[name], sharing));
      ProfilesInSnoc(resources, sharing, order, name);
      labelers := labelers + [l.value];
      ls := ls + [ProfileLabels(resources[name], sharing)];
      EnumeratesNext(order, resources.Keys, left, name);
      order := order + [name];
      left := left - {name};
    }
    EnumeratesAll(order, resources.Keys);
    return Ok(labelers), order;
  }

  /** newMIGDeviceLabelers. */
  method NewMIGDeviceLabelers(m: Manager, resources: map<string, MigResource>, sharing: seq<ReplicatedResource>)
      returns (r: Result<Labeler>, ghost order: seq<string>)
    requires m.Valid() && forall n | n in resources :: resources[n].count >= 1
    modifies m.wraps`log
    ensures m.Valid() && m.Asked()
    ensures r.Ok? <==> forall n | n in resources :: MigAnswers(resources[n].device)
    ensures r.Ok? ==> Enumerates(order, resources.Keys)
    ensures r.Ok? ==> Evaluate(r.value) == Ok(Overlay(ProfilesIn(resources, sharing, order)))
  {
    var labelers;
    labelers, order := LabelProfiles(m, resources, sharing);
    if labelers.Err? {
      return Err, order;
    }
    EvaluateOverlay(labelers.value, ProfilesIn(resources, sharing, order));
    return Ok(List(labelers.value)), order;
  }

  method LabelProfile(m: Manager, resource: MigResource, sharing: seq<ReplicatedResource>) returns (r: Result<Labeler>)
    requires m.Valid() && resource.count >= 1
    modifies m.wraps`log
    ensures m.Valid() && m.Asked()
    ensures r.Ok? <==> MigAnswers(resource.device)
    ensures r.Ok? ==> Evaluate(r.value) == Ok(ProfileLabels(resource, sharing))
  {
    r := NewMIGResourceLabeler(m, resource.name, Some(sharing), resource.device, resource.count);
  }

  // ----- the mixed strategy

  function NodeMigs(ds: seq<Device>): seq<Device> {
    AllMigs(WithMig(ds, true))
  }

  predicate MigsAnswer(ds: seq<Device>) {
    forall i | 0 <= i < |WithMig(ds, true)| :: WithMig(ds, true)[i].migDevices.Ok?
  }

  /** Every call made to label these MIG devices answers. */
  ghost predicate ProfileCallsAnswer(migs: seq<Device>) {
    NamesAnswer(migs) && forall n | n in Group(migs, true) :: MigAnswers(Group(migs, true)[n].device)
  }

  /** Every call the mixed strategy makes answers. */
  ghost predicate MixedCallsAnswer(ds: seq<Device>) {
    FlagsAnswer(ds) && MigsAnswer(ds) && ProfileCallsAnswer(NodeMigs(ds))
  }

  /** Some iteration order over the profiles gives these labels. */
  ghost predicate MergedInSomeOrder(migs: seq<Device>, sharing: seq<ReplicatedResource>, labels: Labels) {
    exists order :: Enumerates(order, Group(migs, true).Keys) && labels == Overlay(ProfilesIn(Group(migs, true), sharing, order))
  }

  /** newMigStrategyMixedLabeler. */
  method NewMigStrategyMixedLabeler(m: Manager, sharing: seq<ReplicatedResource>) returns (r: Result<Labeler>)
    requires m.Valid()
    modifies m.wraps`log
    ensures m.Valid() && m.Asked()
    ensures m.wraps.answers.devices.Err? ==> r == Err
    ensures m.wraps.answers.devices.Ok? ==> (r.Ok? <==> MixedCallsAnswer(m.wraps.answers.devices.value))
    ensures m.wraps.answers.devices.Ok? && r.Ok? ==>
              Evaluate(r.value).Ok? &&
              MergedInSomeOrder(NodeMigs(m.wraps.answers.devices.value), sharing, Evaluate(r.value).value)
  {
    var deviceInfo := new DeviceInfo(m);
    var migs := deviceInfo.GetAllMigDevices();
    if migs.Err? {
      return Err;
    }
    r := LabelMigs(m, migs.value, sharing);
  }

  /** The part of newMigStrategyMixedLabeler that follows the enumeration of the MIG devices. */
  method LabelMigs(m: Manager, migs: seq<Device>, sharing: seq<ReplicatedResource>) returns (r: Result<Labeler>)
    requires m.Valid()
    modifies m.wraps`log
    ensures m.Valid() && m.Asked()
    ensures r.Ok? <==> ProfileCallsAnswer(migs)
    ensures r.Ok? ==> Evaluate(r.value).Ok? && MergedInSomeOrder(migs, sharing, Evaluate(r.value).value)
  {
    var resources := GroupByProfile(m, migs, true);
    if resources.Err? {
      return Err;
    }
    GroupHolds(migs, true);
    ghost var order;
    r, order := NewMIGDeviceLabelers(m, resources.value, sharing);
  }
}
