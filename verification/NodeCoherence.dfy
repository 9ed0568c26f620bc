/** What holds of every label set of a node: no source loses a label, and what the single strategy overrides. */
module NodeCoherence {
  import opened Outcomes
  import opened Strings
  import opened Labels
  import opened Managers
  import opened Orders
  import opened Grouping
  import opened Mig
  import opened ResourceLabels
  import opened GpuLabelers
  import opened GpuCoherence
  import opened MigProfiles
  import opened MixedOrder
  import opened SingleStrategy
  import opened NodeLabels
  import Configuration
  import Vgpu

  const TIMESTAMP := "nvidia.com/gfd.timestamp"

  /** The labels a resource labeler may write. */
  predicate IsResourceKey(key: string) {
    || (FULL_GPU + "." <= key && IsResourceSuffix(key[|FULL_GPU| + 1..]))
    || key == MIG_STRATEGY
    || MIG_PREFIX <= key
  }

  predicate IsResourceSuffix(s: string) {
    IsSuffix(s) || s in {"family", "compute.major", "compute.minor"}
  }

  predicate ResourceKeys(labels: Labels) {
    forall k | k in labels :: IsResourceKey(k)
  }

  lemma PrefixedKeys(rl: ResourceLabeler, values: map<string, string>)
    requires rl.resourceName == FULL_GPU && forall s | s in values :: IsResourceSuffix(s)
    ensures ResourceKeys(rl.Prefixed(values))
  {
  }

  lemma SuffixesAreKnown(d: Device)
    requires GpuAnswers(d)
    ensures forall s | s in Suffixes(d) :: IsResourceSuffix(s)
  {
  }

  lemma ModelKeys(m: Model)
    ensures ResourceKeys(ModelLabels(m))
  {
    if GpuAnswers(m.device) && m.count >= 1 {
      ValuesHave(m);
      SuffixesAreKnown(m.device);
      PrefixedKeys(ResourceLabeler(FULL_GPU, m.sharing), Values(m));
    }
  }

  lemma GpuKeys(ds: seq<Device>, settings: Settings, gpu: Labels)
    requires IsGpuLabels(ds, settings.sharing, gpu)
    ensures ResourceKeys(gpu)
  {
    var plan :| IsPlan(ds, settings.sharing, plan) && gpu == PlanLabels(plan);
    var ls := seq(|plan|, i requires 0 <= i < |plan| => ModelLabels(plan[i]));
    OverlayKeys(ls);
    forall k | k in gpu ensures IsResourceKey(k) {
      var i :| 0 <= i < |ls| && k in ls[i];
      ModelKeys(plan[i]);
    }
  }

  /** The MIG devices of the node report the known attributes. */
  predicate StandardMigs(ds: seq<Device>) {
    forall d | d in NodeMigs(ds) :: StandardAttributes(d)
  }

  lemma VerdictKeys(ds: seq<Device>, settings: Settings)
    requires StandardMigs(ds)
    ensures ResourceKeys(VerdictLabels(VerdictOf(ds), ds, settings.sharing))
  {
    var labels := VerdictLabels(VerdictOf(ds), ds, settings.sharing);
    match VerdictOf(ds)
    case NoMig =>
    case Invalid =>
      if WithMig(ds, true) != [] {
        PrefixedKeys(ResourceLabeler(FULL_GPU, None), InvalidValues(Name(WithMig(ds, true)[0])));
      }
    case Uniform(device, count) =>
      assert device in NodeMigs(ds);
      var resource := MigResource(FULL_GPU, device, count);
      forall k | k in labels ensures IsResourceKey(k) {
        var s := ProfileKeys(resource, settings.sharing, k);
        assert k[|FULL_GPU| + 1..] == s;
      }
  }

  lemma MixedKeys(migs: seq<Device>, settings: Settings, merged: Labels)
    requires MergedInSomeOrder(migs, settings.sharing, merged)
    ensures ResourceKeys(merged)
  {
    MixedLabelsStart(migs, settings.sharing, merged);
  }

  lemma MigKeys(ds: seq<Device>, settings: Settings, mig: Labels)
    requires StandardMigs(ds) && IsMigLabels(ds, settings, mig)
    ensures ResourceKeys(mig)
  {
    if settings.strategy == "single" {
      VerdictKeys(ds, settings);
    } else if settings.strategy == "mixed" {
      var merged :| MergedInSomeOrder(NodeMigs(ds), settings.sharing, merged) && mig == map[MIG_STRATEGY := "mixed"] + merged;
      MixedKeys(NodeMigs(ds), settings, merged);
    }
  }

  lemma AllResourceKeys(ds: seq<Device>, settings: Settings, labels: Labels)
    requires StandardMigs(ds) && IsResourceLabels(ds, settings, labels)
    ensures ResourceKeys(labels)
  {
    if ds != [] {
      var gpu, mig :| IsGpuLabels(ds, settings.sharing, gpu) && IsMigLabels(ds, settings, mig) && labels == gpu + mig;
      GpuKeys(ds, settings, gpu);
      MigKeys(ds, settings, mig);
    }
  }

  /** `part` shows in `labels` unchanged. */
  predicate Keeps(labels: Labels, part: Labels) {
    forall k | k in part :: k in labels && labels[k] == part[k]
  }

  lemma DisjointKeep(a: Labels, b: Labels, c: Labels, d: Labels)
    requires a.Keys !! b.Keys !! c.Keys !! d.Keys
    ensures Keeps(a + b + c + d, a) && Keeps(a + b + c + d, b) && Keeps(a + b + c + d, c) && Keeps(a + b + c + d, d)
    ensures (a + b + c + d).Keys == a.Keys + b.Keys + c.Keys + d.Keys
  {
  }

  const VERSION_KEYS: set<string> := {DRIVER_MAJOR, DRIVER_MINOR, DRIVER_REV, RUNTIME_MAJOR, RUNTIME_MINOR}
  const OUTSIDE_KEYS: set<string> := {TIMESTAMP, Vgpu.PRESENT, Vgpu.HOST_DRIVER_VERSION, Vgpu.HOST_DRIVER_BRANCH}

  lemma VersionKeys(k: string)
    requires k in VERSION_KEYS
    ensures |k| > 12 && k[11] == 'c'
  {
  }

  lemma OutsideKeys(k: string)
    requires k in OUTSIDE_KEYS
    ensures |k| > 12 && (k[11] == 'v' || (k[11] == 'g' && k[12] == 'f'))
  {
  }

  lemma SourceKeys()
    ensures MACHINE !in VERSION_KEYS && MIG_CAPABLE !in VERSION_KEYS && MACHINE != MIG_CAPABLE
    ensures OUTSIDE_KEYS !! VERSION_KEYS + {MACHINE, MIG_CAPABLE}
  {
  }

  /** A resource key continues "nvidia.com/" with "gp" or with "m". */
  lemma ResourceKeyShape(k: string)
    requires IsResourceKey(k)
    ensures |k| > 14 && ((k[11] == 'g' && k[12] == 'p') || k[11] == 'm')
    ensures k != MACHINE && k != MIG_CAPABLE
  {
    if FULL_GPU + "." <= k {
      assert k[11] == (FULL_GPU + ".")[11] == 'g' && k[12] == (FULL_GPU + ".")[12] == 'p';
      assert MACHINE[|FULL_GPU| + 1..] == "machine";
      assert MIG_CAPABLE[11] == 'm';
    } else {
      assert MIG_STRATEGY[11] == 'm' && MIG_PREFIX[11] == 'm' && MIG_PREFIX[14] == '-';
      assert MACHINE[11] == 'g' && MIG_CAPABLE[14] == '.' && |MIG_CAPABLE| != |MIG_STRATEGY|;
    }
  }

  /** The keys of the other sources are not resource keys. */
  lemma NotResourceKey(k: string)
    requires k in VERSION_KEYS + OUTSIDE_KEYS + {MACHINE, MIG_CAPABLE}
    ensures !IsResourceKey(k)
  {
    if IsResourceKey(k) {
      ResourceKeyShape(k);
      if k in VERSION_KEYS {
        VersionKeys(k);
      } else if k in OUTSIDE_KEYS {
        OutsideKeys(k);
      }
    }
  }

  lemma DisjointSources(answers: Answers, settings: Settings, resource: Labels)
    requires answers.devices.Ok? && VersionLabels(answers).Ok? && ResourceKeys(resource)
    ensures MachineLabels(settings.machineType).Keys !! VersionLabels(answers).value.Keys !!
            CapabilityLabels(answers.devices.value).Keys !! resource.Keys
    ensures OUTSIDE_KEYS !! MachineLabels(settings.machineType).Keys + VersionLabels(answers).value.Keys +
              CapabilityLabels(answers.devices.value).Keys + resource.Keys
  {
    SourceKeys();
    assert VersionLabels(answers).value.Keys == VERSION_KEYS;
    assert CapabilityLabels(answers.devices.value).Keys <= {MIG_CAPABLE};
    assert MachineLabels(settings.machineType).Keys == {MACHINE};
    forall k | k in VERSION_KEYS + OUTSIDE_KEYS + {MACHINE, MIG_CAPABLE} ensures k !in resource {
      NotResourceKey(k);
    }
  }

  /** No source of node labels loses a label to another, and none writes the timestamp or a vGPU label. */
  lemma NoSourceLosesALabel(answers: Answers, settings: Settings, labels: Labels) returns (resource: Labels)
    requires IsNodeLabels(answers, settings, labels) && answers.devices.value != [] && StandardMigs(answers.devices.value)
    ensures IsResourceLabels(answers.devices.value, settings, resource) && Keeps(labels, resource)
    ensures Keeps(labels, MachineLabels(settings.machineType))
    ensures Keeps(labels, VersionLabels(answers).value)
    ensures Keeps(labels, CapabilityLabels(answers.devices.value))
    ensures OUTSIDE_KEYS !! labels.Keys
  {
    resource :| IsResourceLabels(answers.devices.value, settings, resource) &&
      labels == MachineLabels(settings.machineType) + VersionLabels(answers).value +
                CapabilityLabels(answers.devices.value) + resource;
    AllResourceKeys(answers.devices.value, settings, resource);
    DisjointSources(answers, settings, resource);
    DisjointKeep(MachineLabels(settings.machineType), VersionLabels(answers).value,
                 CapabilityLabels(answers.devices.value), resource);
  }

  // ----- the GPU labels under the other strategies

  predicate AllStartWith(labels: Labels, prefix: string) {
    forall k | k in labels :: prefix <= k
  }

  lemma OverlayStarts(ls: seq<Labels>, prefix: string)
    requires forall i | 0 <= i < |ls| :: AllStartWith(ls[i], prefix)
    ensures AllStartWith(Overlay(ls), prefix)
  {
    OverlayKeys(ls);
    forall k | k in Overlay(ls) ensures prefix <= k {
      var i :| 0 <= i < |ls| && k in ls[i];
      assert AllStartWith(ls[i], prefix);
    }
  }

  lemma PrefixedStarts(rl: ResourceLabeler, values: map<string, string>)
    ensures AllStartWith(rl.Prefixed(values), rl.resourceName + ".")
  {
  }

  lemma GpuLabelsStart(ds: seq<Device>, sharing: seq<Configuration.ReplicatedResource>, gpu: Labels)
    requires IsGpuLabels(ds, sharing, gpu)
    ensures AllStartWith(gpu, FULL_GPU + ".")
  {
    var plan: seq<Model> :| IsPlan(ds, sharing, plan) && gpu == PlanLabels(plan);
    var ls := seq(|plan|, i requires 0 <= i < |plan| => ModelLabels(plan[i]));
    forall i | 0 <= i < |ls| ensures AllStartWith(ls[i], FULL_GPU + ".") {
      var m := plan[i];
      if GpuAnswers(m.device) {
        PrefixedStarts(ResourceLabeler(FULL_GPU, m.sharing), GpuValues(m.sharing, m.device, m.count));
      }
    }
    OverlayStarts(ls, FULL_GPU + ".");
  }

  lemma ProfileLabelsStart(resource: MigResource, sharing: seq<Configuration.ReplicatedResource>)
    requires MIG_PREFIX <= resource.name
    ensures AllStartWith(ProfileLabels(resource, sharing), MIG_PREFIX)
  {
    if MigAnswers(resource.device) {
      PrefixedStarts(ResourceLabeler(resource.name, Some(sharing)),
                     MigValues(resource.name, Some(sharing), resource.device, resource.count));
    }
  }

  lemma MixedLabelsStart(migs: seq<Device>, sharing: seq<Configuration.ReplicatedResource>, merged: Labels)
    requires MergedInSomeOrder(migs, sharing, merged)
    ensures AllStartWith(merged, MIG_PREFIX)
  {
    var g := Group(migs, true);
    var order :| Enumerates(order, g.Keys) && merged == Overlay(ProfilesIn(g, sharing, order));
    GroupHolds(migs, true);
    var ls := ProfilesIn(g, sharing, order);
    forall i | 0 <= i < |ls| ensures AllStartWith(ls[i], MIG_PREFIX) {
      ProfileLabelsStart(g[order[i]], sharing);
    }
    OverlayStarts(ls, MIG_PREFIX);
  }

  lemma StartsApart(gpu: Labels, merged: Labels)
    requires AllStartWith(gpu, FULL_GPU + ".") && AllStartWith(merged, MIG_PREFIX)
    ensures Keeps(gpu + (map[MIG_STRATEGY := "mixed"] + merged), gpu)
  {
    assert (FULL_GPU + ".")[11] == 'g' && MIG_PREFIX[11] == 'm' && MIG_STRATEGY[11] == 'm';
    forall k | k in gpu ensures k !in merged && k != MIG_STRATEGY {
      assert k[11] == (FULL_GPU + ".")[11];
    }
  }

  lemma MigLabelsKeep(ds: seq<Device>, settings: Settings, gpu: Labels, mig: Labels)
    requires settings.strategy in {"none", "mixed"} && IsMigLabels(ds, settings, mig) && AllStartWith(gpu, FULL_GPU + ".")
    ensures Keeps(gpu + mig, gpu)
  {
    if settings.strategy == "mixed" {
      var merged :| MergedInSomeOrder(NodeMigs(ds), settings.sharing, merged) && mig == map[MIG_STRATEGY := "mixed"] + merged;
      MixedLabelsStart(NodeMigs(ds), settings.sharing, merged);
      StartsApart(gpu, merged);
    }
  }

  /** Without a strategy and under the mixed one the GPU labels all show unchanged, whatever profiles and attributes the MIG
      devices have. */
  lemma GpuLabelsShow(ds: seq<Device>, settings: Settings, labels: Labels) returns (gpu: Labels)
    requires ds != [] && settings.strategy in {"none", "mixed"} && IsResourceLabels(ds, settings, labels)
    ensures IsGpuLabels(ds, settings.sharing, gpu) && Keeps(labels, gpu)
  {
    var g, mig :| IsGpuLabels(ds, settings.sharing, g) && IsMigLabels(ds, settings, mig) && labels == g + mig;
    gpu := g;
    GpuLabelsStart(ds, settings.sharing, gpu);
    MigLabelsKeep(ds, settings, gpu, mig);
  }

  lemma KeepsDecides(m: Model, labels: Labels, gpu: Labels)
    requires Real(m) && Decides(m, gpu) && Keeps(labels, gpu)
    ensures Decides(m, labels)
  {
  }

  /** Coherence in the label set of the node: without a strategy and under the mixed one product, count and replicas are one
      model's, a full GPU's whenever there is one. */
  lemma NodeIsCoherent(answers: Answers, settings: Settings, labels: Labels) returns (m: Model)
    requires IsNodeLabels(answers, settings, labels) && answers.devices.value != [] && settings.strategy in {"none", "mixed"}
    ensures Stands(m, answers.devices.value, settings.sharing) && Decides(m, labels)
    ensures (exists d | d in answers.devices.value :: d.migEnabled == Ok(false)) ==> m.device.migEnabled == Ok(false)
  {
    var resource :| IsResourceLabels(answers.devices.value, settings, resource) &&
      labels == MachineLabels(settings.machineType) + VersionLabels(answers).value +
                CapabilityLabels(answers.devices.value) + resource;
    var gpu := GpuLabelsShow(answers.devices.value, settings, resource);
    m := GpuLabelsAreCoherent(answers.devices.value, settings.sharing, gpu);
    assert Keeps(labels, gpu);
    KeepsDecides(m, labels, gpu);
  }

  // ----- the labels of the strategies

  /** The model in the product of an invalid setup. */
  function InvalidProduct(model: string): string {
    if model == "" then "MIG-INVALID" else Dashed(model) + "-MIG-INVALID"
  }

  lemma InvalidParts(model: string)
    ensures Join(NonEmpty([model, "MIG", "INVALID"]), "-") == InvalidProduct(model)
  {
    PartsSay(model, "INVALID");
    assert Dashed("INVALID") == "INVALID";
    if model == "" {
      assert [] + ["MIG", "INVALID"] == ["MIG", "INVALID"];
      JoinInvalid("");
    } else {
      assert [Dashed(model)] + ["MIG", "INVALID"] == [Dashed(model), "MIG", "INVALID"];
      JoinInvalid(Dashed(model));
    }
  }

  lemma JoinInvalid(model: string)
    ensures Join(["MIG", "INVALID"], "-") == "MIG-INVALID"
    ensures Join([model, "MIG", "INVALID"], "-") == model + "-MIG-INVALID"
  {
    JoinThree("MIG", "INVALID", "");
    JoinThree(model, "MIG", "INVALID");
    assert model + "-" + "MIG" + "-" + "INVALID" == model + "-MIG-INVALID";
  }

  function InvalidLabelsOf(model: string): Labels {
    map["nvidia.com/gpu.count" := "0", "nvidia.com/gpu.replicas" := "0", "nvidia.com/gpu.memory" := "0",
        "nvidia.com/gpu.product" := InvalidProduct(model)]
  }

  lemma InvalidShows(model: string)
    ensures Keeps(ResourceLabeler(FULL_GPU, None).Prefixed(InvalidValues(model)), InvalidLabelsOf(model))
  {
    InvalidParts(model);
    GpuKeysSay(None, InvalidValues(model), COUNT);
    GpuKeysSay(None, InvalidValues(model), REPLICAS);
    GpuKeysSay(None, InvalidValues(model), MEMORY);
    GpuKeysSay(None, InvalidValues(model), PRODUCT);
    GpuKeyStrings();
  }

  lemma GpuKeyStrings()
    ensures "nvidia.com/gpu." + "count" == "nvidia.com/gpu.count" && "nvidia.com/gpu." + "replicas" == "nvidia.com/gpu.replicas"
    ensures "nvidia.com/gpu." + "memory" == "nvidia.com/gpu.memory" && "nvidia.com/gpu." + "product" == "nvidia.com/gpu.product"
    ensures FULL_GPU + ".count" == "nvidia.com/gpu.count"
  {
  }

  /** A profile's count label says how often it was counted, if no attribute has that name. */
  lemma ProfileCount(resource: MigResource, sharing: seq<Configuration.ReplicatedResource>)
    requires resource.count >= 1 && MigAnswers(resource.device) && "count" !in resource.device.attributes.value
    ensures var labels := ProfileLabels(resource, sharing);
      resource.name + ".count" in labels && labels[resource.name + ".count"] == FormatInt(resource.count)
  {
    var rl := ResourceLabeler(resource.name, Some(sharing));
    var parts := [resource.device.parent.value.name.value, "MIG", resource.device.name.value];
    BaseSays(rl, resource.count, parts, rl.ProductValues(parts));
    assert "count" !in Formatted(resource.device.attributes.value);
    rl.PrefixedHas(MigValues(resource.name, Some(sharing), resource.device, resource.count), "count");
    assert resource.name + "." + "count" == resource.name + ".count";
  }

  /** The first device of the node that has MIG enabled. */
  ghost predicate IsFirstEnabled(ds: seq<Device>, i: nat) {
    i < |ds| && ds[i].migEnabled == Ok(true) && forall j | 0 <= j < i :: ds[j].migEnabled != Ok(true)
  }

  lemma FirstEnabled(ds: seq<Device>, i: nat)
    requires IsFirstEnabled(ds, i)
    ensures WithMig(ds, true) != [] && WithMig(ds, true)[0] == ds[i]
  {
    var at := SideIsSorted(ds, true);
    var k :| 0 <= k < |at| && at[k] == i;
    assert ds[at[0]] == WithMig(ds, true)[0];
  }

  /** What the single strategy's own labels are for each verdict. */
  lemma VerdictShows(ds: seq<Device>, settings: Settings)
    ensures var labels := VerdictLabels(VerdictOf(ds), ds, settings.sharing); match VerdictOf(ds)
      case NoMig => labels == map[]
      case Invalid => forall i: nat | IsFirstEnabled(ds, i) :: Keeps(labels, InvalidLabelsOf(Name(ds[i])))
      case Uniform(device, count) => MigAnswers(device) && "count" !in device.attributes.value ==>
        Keeps(labels, map["nvidia.com/gpu.count" := FormatInt(MigTotal(ds))])
  {
    match VerdictOf(ds)
    case NoMig =>
    case Invalid =>
      InvalidShows(Name(WithMig(ds, true)[0]));
      forall i: nat | IsFirstEnabled(ds, i) ensures WithMig(ds, true)[0] == ds[i] {
        FirstEnabled(ds, i);
      }
    case Uniform(device, count) =>
      MigsAreCounted(ds);
      GpuKeyStrings();
      if MigAnswers(device) && "count" !in device.attributes.value {
        ProfileCount(MigResource(FULL_GPU, device, count), settings.sharing);
      }
  }

  lemma OnTop(a: Labels, b: Labels, c: Labels)
    ensures c == map[] ==> a + (b + c) == a + b
    ensures forall part | Keeps(c, part) :: Keeps(a + (b + c), part)
  {
  }

  /** The single strategy, seen in the labels of the node: without MIG it changes none of the GPU labels; an invalid setup
      zeroes count, replicas and memory and names the first MIG-enabled device; otherwise the count is that of all MIG devices
      of the node. */
  lemma SingleStrategyShows(ds: seq<Device>, settings: Settings, labels: Labels) returns (gpu: Labels)
    requires ds != [] && settings.strategy == "single" && IsResourceLabels(ds, settings, labels)
    ensures IsGpuLabels(ds, settings.sharing, gpu)
    ensures VerdictOf(ds).NoMig? ==> labels == gpu + map["nvidia.com/mig.strategy" := "single"]
    ensures VerdictOf(ds).Invalid? ==> forall i: nat | IsFirstEnabled(ds, i) :: Keeps(labels, InvalidLabelsOf(Name(ds[i])))
    ensures VerdictOf(ds).Uniform? && MigAnswers(VerdictOf(ds).device) && "count" !in VerdictOf(ds).device.attributes.value ==>
              Keeps(labels, map["nvidia.com/gpu.count" := FormatInt(MigTotal(ds))])
  {
    var g, mig :| IsGpuLabels(ds, settings.sharing, g) && IsMigLabels(ds, settings, mig) && labels == g + mig;
    gpu := g;
    VerdictShows(ds, settings);
    OnTop(gpu, map[MIG_STRATEGY := "single"], VerdictLabels(VerdictOf(ds), ds, settings.sharing));
  }

  /** With names that answer, the multiplicity of a name is how many devices have it. */
  lemma {:induction false} NamedIsMultiplicity(migs: seq<Device>, name: string)
    requires NamesAnswer(migs)
    ensures NamedIn(migs, name) == multiset(Names(migs))[name]
  {
    if migs != [] {
      var k := |migs| - 1;
      NamedIsMultiplicity(migs[..k], name);
      assert Names(migs) == Names(migs[..k]) + [Name(migs[k])];
    }
  }

  /** Under the mixed strategy the node counts each profile: as many as its MIG-enabled devices have of that name, in all as
      many as they have MIG devices. */
  lemma NodeProfiles(ds: seq<Device>, order: seq<string>)
    requires NamesAnswer(NodeMigs(ds)) && Enumerates(order, Group(NodeMigs(ds), true).Keys)
    ensures forall n :: n in order <==> MigsNamed(ds, n) > 0
    ensures forall n | n in order :: Group(NodeMigs(ds), true)[n].count == MigsNamed(ds, n)
    ensures SumOver(order, ProfileCounts(Group(NodeMigs(ds), true))) == MigTotal(ds)
  {
    var migs := NodeMigs(ds);
    GroupHolds(migs, true);
    ProfileCountsSumUp(migs, true, order);
    MigsAreCounted(ds);
    forall n ensures MigsNamed(ds, n) == multiset(Names(migs))[n] {
      NamesAreCounted(ds, n);
      NamedIsMultiplicity(migs, n);
    }
    forall n ensures n in order <==> n in Group(migs, true).Keys {
    }
  }

  /** The mixed strategy, seen in the labels of the node: every profile of which the node has MIG devices has a count label of
      its own that says how many. */
  lemma MixedStrategyShows(ds: seq<Device>, settings: Settings, labels: Labels, name: string)
    requires ds != [] && settings.strategy == "mixed" && IsResourceLabels(ds, settings, labels)
    requires forall d | d in NodeMigs(ds) :: MigAnswers(d) && StandardAttributes(d)
    requires MigsNamed(ds, name) > 0
    ensures "nvidia.com/mig.strategy" in labels && labels["nvidia.com/mig.strategy"] == "mixed"
    ensures var key := "nvidia.com/mig-" + name + ".count"; key in labels && labels[key] == FormatInt(MigsNamed(ds, name))
  {
    var g, merged := MixedParts(ds, settings, labels);
    MixedLabelsStart(NodeMigs(ds), settings.sharing, merged);
    MergedShows(ds, settings, merged, name);
    OnTopOfStrategy(g, merged, "nvidia.com/mig-" + name + ".count");
  }

  lemma MixedParts(ds: seq<Device>, settings: Settings, labels: Labels) returns (gpu: Labels, merged: Labels)
    requires ds != [] && settings.strategy == "mixed" && IsResourceLabels(ds, settings, labels)
    ensures MergedInSomeOrder(NodeMigs(ds), settings.sharing, merged)
    ensures labels == gpu + (map[MIG_STRATEGY := "mixed"] + merged)
  {
    var g, mig :| IsGpuLabels(ds, settings.sharing, g) && IsMigLabels(ds, settings, mig) && labels == g + mig;
    gpu := g;
    merged :| MergedInSomeOrder(NodeMigs(ds), settings.sharing, merged) && mig == map[MIG_STRATEGY := "mixed"] + merged;
  }

  lemma OnTopOfStrategy(gpu: Labels, merged: Labels, key: string)
    requires AllStartWith(merged, MIG_PREFIX) && key in merged
    ensures var labels := gpu + (map[MIG_STRATEGY := "mixed"] + merged);
      && key in labels && labels[key] == merged[key]
      && "nvidia.com/mig.strategy" in labels && labels["nvidia.com/mig.strategy"] == "mixed"
  {
    assert MIG_STRATEGY[14] == '.' && MIG_PREFIX[14] == '-';
  }

  lemma MergedShows(ds: seq<Device>, settings: Settings, merged: Labels, name: string)
    requires MergedInSomeOrder(NodeMigs(ds), settings.sharing, merged)
    requires forall d | d in NodeMigs(ds) :: MigAnswers(d) && StandardAttributes(d)
    requires MigsNamed(ds, name) > 0
    ensures var key := "nvidia.com/mig-" + name + ".count"; key in merged && merged[key] == FormatInt(MigsNamed(ds, name))
  {
    var migs, g := NodeMigs(ds), Group(NodeMigs(ds), true);
    var order :| Enumerates(order, g.Keys) && merged == Overlay(ProfilesIn(g, settings.sharing, order));
    ProfileShows(ds, settings.sharing, name);
    ProfileKeepsLabels(migs, settings.sharing, order, name, "nvidia.com/mig-" + name + ".count");
  }

  lemma ProfileShows(ds: seq<Device>, sharing: seq<Configuration.ReplicatedResource>, name: string)
    requires forall d | d in NodeMigs(ds) :: MigAnswers(d) && StandardAttributes(d)
    requires MigsNamed(ds, name) > 0
    ensures name in Group(NodeMigs(ds), true) && forall i | 0 <= i < |NodeMigs(ds)| :: StandardAttributes(NodeMigs(ds)[i])
    ensures var labels, key := ProfileLabels(Group(NodeMigs(ds), true)[name], sharing), "nvidia.com/mig-" + name + ".count";
      key in labels && labels[key] == FormatInt(MigsNamed(ds, name))
  {
    AllOfThem(NodeMigs(ds));
    CountedProfile(ds, name);
    var resource := Group(NodeMigs(ds), true)[name];
    assert MigAnswers(resource.device) && StandardAttributes(resource.device);
    ProfileCount(resource, sharing);
  }

  lemma AllOfThem(migs: seq<Device>)
    requires forall d | d in migs :: MigAnswers(d) && StandardAttributes(d)
    ensures NamesAnswer(migs) && forall i | 0 <= i < |migs| :: StandardAttributes(migs[i])
  {
    assert forall i | 0 <= i < |migs| :: migs[i] in migs;
  }

  lemma CountedProfile(ds: seq<Device>, name: string)
    requires NamesAnswer(NodeMigs(ds)) && MigsNamed(ds, name) > 0
    ensures name in Group(NodeMigs(ds), true)
    ensures var resource := Group(NodeMigs(ds), true)[name];
      && resource.device in NodeMigs(ds) && resource.name == "nvidia.com/mig-" + name
      && resource.count == MigsNamed(ds, name)
  {
    var order := SomeOrder(Group(NodeMigs(ds), true).Keys);
    NodeProfiles(ds, order);
    ProfileOf(NodeMigs(ds), name);
  }

  lemma ProfileOf(migs: seq<Device>, name: string)
    requires name in Group(migs, true)
    ensures var resource := Group(migs, true)[name];
      resource.device in migs && resource.name == "nvidia.com/mig-" + name && resource.count >= 1
  {
    GroupHolds(migs, true);
    GroupKeepsFirst(migs, true, name);
  }

  // ----- without any assumption on attributes

  /** The label continues "nvidia.com/" with "gp", "m" or "cu". */
  predicate IsNodeKey(k: string) {
    |k| > 12 && ((k[11] == 'g' && k[12] == 'p') || k[11] == 'm' || k[11] == 'c')
  }

  predicate NodeKeys(labels: Labels) {
    forall k | k in labels :: IsNodeKey(k)
  }

  lemma PrefixedShape(rl: ResourceLabeler, values: map<string, string>)
    requires FULL_GPU <= rl.resourceName || MIG_PREFIX <= rl.resourceName
    ensures NodeKeys(rl.Prefixed(values))
  {
  }

  lemma OverlayShape(ls: seq<Labels>)
    requires forall i | 0 <= i < |ls| :: NodeKeys(ls[i])
    ensures NodeKeys(Overlay(ls))
  {
  }

  lemma GpuShape(plan: seq<Model>)
    ensures NodeKeys(PlanLabels(plan))
  {
    var ls := seq(|plan|, i requires 0 <= i < |plan| => ModelLabels(plan[i]));
    forall i | 0 <= i < |ls| ensures NodeKeys(ls[i]) {
      var m := plan[i];
      if GpuAnswers(m.device) {
        PrefixedShape(ResourceLabeler(FULL_GPU, m.sharing), GpuValues(m.sharing, m.device, m.count));
      }
    }
    OverlayShape(ls);
  }

  lemma ProfileShape(resource: MigResource, sharing: seq<Configuration.ReplicatedResource>)
    requires FULL_GPU <= resource.name || MIG_PREFIX <= resource.name
    ensures NodeKeys(ProfileLabels(resource, sharing))
  {
  }

  lemma MixedShape(migs: seq<Device>, settings: Settings, merged: Labels)
    requires MergedInSomeOrder(migs, settings.sharing, merged)
    ensures NodeKeys(merged)
  {
    var g := Group(migs, true);
    var order :| Enumerates(order, g.Keys) && merged == Overlay(ProfilesIn(g, settings.sharing, order));
    GroupHolds(migs, true);
    var ls := ProfilesIn(g, settings.sharing, order);
    forall i | 0 <= i < |ls| ensures NodeKeys(ls[i]) {
      ProfileShape(g[order[i]], settings.sharing);
    }
    OverlayShape(ls);
  }

  lemma VerdictShape(ds: seq<Device>, settings: Settings)
    ensures NodeKeys(VerdictLabels(VerdictOf(ds), ds, settings.sharing))
  {
    match VerdictOf(ds)
    case NoMig =>
    case Invalid =>
      PrefixedShape(ResourceLabeler(FULL_GPU, None), InvalidValues(Name(WithMig(ds, true)[0])));
    case Uniform(device, count) => ProfileShape(MigResource(FULL_GPU, device, count), settings.sharing);
  }

  lemma MigShape(ds: seq<Device>, settings: Settings, mig: Labels)
    requires IsMigLabels(ds, settings, mig)
    ensures NodeKeys(mig)
  {
    assert MIG_STRATEGY[11] == 'm';
    if settings.strategy == "single" {
      VerdictShape(ds, settings);
    } else if settings.strategy == "mixed" {
      var merged :| MergedInSomeOrder(NodeMigs(ds), settings.sharing, merged) && mig == map[MIG_STRATEGY := "mixed"] + merged;
      MixedShape(NodeMigs(ds), settings, merged);
    }
  }

  lemma ResourceShape(ds: seq<Device>, settings: Settings, labels: Labels)
    requires IsResourceLabels(ds, settings, labels)
    ensures NodeKeys(labels)
  {
    if ds != [] {
      var gpu, mig :| IsGpuLabels(ds, settings.sharing, gpu) && IsMigLabels(ds, settings, mig) && labels == gpu + mig;
      var plan :| IsPlan(ds, settings.sharing, plan) && gpu == PlanLabels(plan);
      GpuShape(plan);
      MigShape(ds, settings, mig);
    }
  }

  lemma VersionShape(answers: Answers)
    requires VersionLabels(answers).Ok?
    ensures NodeKeys(VersionLabels(answers).value)
  {
  }

  lemma SimpleShapes(machineType: string, ds: seq<Device>)
    ensures NodeKeys(MachineLabels(machineType)) && NodeKeys(CapabilityLabels(ds))
  {
  }

  lemma NodeKeysAreInside(labels: Labels)
    requires NodeKeys(labels)
    ensures OUTSIDE_KEYS !! labels.Keys
  {
  }

  lemma SumShape(a: Labels, b: Labels, c: Labels, d: Labels)
    requires NodeKeys(a) && NodeKeys(b) && NodeKeys(c) && NodeKeys(d)
    ensures NodeKeys(a + b + c + d)
  {
  }

  /** Whatever the devices report, node labels never touch the timestamp or the vGPU labels. */
  lemma NodeLabelsStayInside(answers: Answers, settings: Settings, labels: Labels)
    requires IsNodeLabels(answers, settings, labels)
    ensures OUTSIDE_KEYS !! labels.Keys
  {
    if answers.devices.value != [] {
      var resource :| IsResourceLabels(answers.devices.value, settings, resource) &&
        labels == MachineLabels(settings.machineType) + VersionLabels(answers).value +
                  CapabilityLabels(answers.devices.value) + resource;
      ResourceShape(answers.devices.value, settings, resource);
      VersionShape(answers);
      SimpleShapes(settings.machineType, answers.devices.value);
      SumShape(MachineLabels(settings.machineType), VersionLabels(answers).value, CapabilityLabels(answers.devices.value), resource);
    }
    NodeKeysAreInside(labels);
  }
}
