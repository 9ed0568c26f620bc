/** The labels of a node, from Init to Shutdown (internal/lm/nvml.go, internal/lm/labeler.go, NewResourceLabeler). */
module NodeLabels {
  import opened Outcomes
  import opened Strings
  import opened Labels
  import opened Managers
  import opened Configuration
  import opened Grouping
  import opened Mig
  import opened ResourceLabels
  import opened GpuLabelers
  import opened MigProfiles
  import opened SingleStrategy

  const MIG_STRATEGY := "nvidia.com/mig.strategy"
  const MIG_CAPABLE := "nvidia.com/mig.capable"
  const MACHINE := "nvidia.com/gpu.machine"
  const DRIVER_MAJOR := "nvidia.com/cuda.driver.major"
  const DRIVER_MINOR := "nvidia.com/cuda.driver.minor"
  const DRIVER_REV := "nvidia.com/cuda.driver.rev"
  const RUNTIME_MAJOR := "nvidia.com/cuda.runtime.major"
  const RUNTIME_MINOR := "nvidia.com/cuda.runtime.minor"

  /** What the labelers read from the config; `machineType` is what the machine type file says. */
  datatype Settings = Settings(machineType: string, strategy: string, sharing: seq<ReplicatedResource>)

  // ----- NewResourceLabeler

  /** The labels the MIG strategy adds to those of the GPUs. */
  ghost predicate IsMigLabels(ds: seq<Device>, settings: Settings, mig: Labels) {
    match settings.strategy
    case "none" => mig == map[]
    case "single" => mig == map[MIG_STRATEGY := "single"] + VerdictLabels(VerdictOf(ds), ds, settings.sharing)
    case "mixed" => exists merged :: MergedInSomeOrder(NodeMigs(ds), settings.sharing, merged) &&
                      mig == map[MIG_STRATEGY := "mixed"] + merged
    case _ => false
  }

  /** Some iteration order over the GPU models and the MIG profiles gives these labels. */
  ghost predicate IsResourceLabels(ds: seq<Device>, settings: Settings, labels: Labels) {
    if ds == [] then labels == map[]
    else exists gpu, mig :: IsGpuLabels(ds, settings.sharing, gpu) && IsMigLabels(ds, settings, mig) && labels == gpu + mig
  }

  /** Every call the resource labeler might make under the strategy answers. */
  ghost predicate ResourceCallsAnswer(answers: Answers, strategy: string) {
    && answers.devices.Ok? && strategy in {"none", "single", "mixed"}
    && GpuCallsAnswer(answers.devices.value)
    && (strategy == "single" ==> SingleCallsAnswer(answers.devices.value))
    && (strategy == "mixed" ==> MixedCallsAnswer(answers.devices.value))
  }

  /** newMigLabeler. */
  method NewMigLabeler(m: Manager, settings: Settings) returns (r: Result<Labeler>)
    requires m.Valid()
    modifies m.wraps`log
    ensures m.Valid() && m.Asked()
    ensures m.wraps.answers.devices.Ok? && r.Ok? ==>
              Evaluate(r.value).Ok? && IsMigLabels(m.wraps.answers.devices.value, settings, Evaluate(r.value).value)
    ensures ResourceCallsAnswer(m.wraps.answers, settings.strategy) ==> r.Ok?
    ensures r.Ok? ==> settings.strategy in {"none", "single", "mixed"}
  {
    match settings.strategy
    case "none" =>
      EvaluatePair(Empty, Empty);
      return Ok(Merge([Empty, Empty]));
    case "single" =>
      var labeler := NewMigStrategySingleLabeler(m, settings.sharing);
      if labeler.Err? {
        return Err;
      }
      EvaluatePair(Fixed(map[MIG_STRATEGY := settings.strategy]), labeler.value);
      return Ok(Merge([Fixed(map[MIG_STRATEGY := settings.strategy]), labeler.value]));
    case "mixed" =>
      var labeler := NewMigStrategyMixedLabeler(m, settings.sharing);
      if labeler.Err? {
        return Err;
      }
      EvaluatePair(Fixed(map[MIG_STRATEGY := settings.strategy]), labeler.value);
      return Ok(Merge([Fixed(map[MIG_STRATEGY := settings.strategy]), labeler.value]));
    case _ =>
      return Err;
  }

  /** NewResourceLabeler. */
  method NewResourceLabeler(m: Manager, settings: Settings) returns (r: Result<Labeler>)
    requires m.Valid()
    modifies m.wraps`log
    ensures m.Valid() && m.Asked()
    ensures r.Ok? ==> m.wraps.answers.devices.Ok? && Evaluate(r.value).Ok?
    ensures r.Ok? ==> IsResourceLabels(m.wraps.answers.devices.value, settings, Evaluate(r.value).value)
    ensures r.Ok? && m.wraps.answers.devices.value != [] ==> GpuCallsAnswer(m.wraps.answers.devices.value)
    ensures m.wraps.answers.devices == Ok([]) ==> r == Ok(Empty)
    ensures ResourceCallsAnswer(m.wraps.answers, settings.strategy) ==> r.Ok?
    ensures settings.strategy !in {"none", "single", "mixed"} && m.wraps.answers.devices != Ok([]) ==> r == Err
  {
    var devices := m.GetDevices();
    if devices.Err? {
      return Err;
    }
    if |devices.value| == 0 {
      return Ok(Empty);
    }
    var fullGPULabeler := NewGPULabelers(m, settings.sharing);
    if fullGPULabeler.Err? {
      return Err;
    }
    if settings.strategy == "none" {
      WithoutStrategy(devices.value, settings, Evaluate(fullGPULabeler.value).value);
      return fullGPULabeler;
    }
    r := AddMigLabeler(m, settings, fullGPULabeler.value, devices.value);
  }

  /** The part of NewResourceLabeler for the single and mixed strategies. */
  method AddMigLabeler(m: Manager, settings: Settings, fullGPULabeler: Labeler, ghost ds: seq<Device>) returns (r: Result<Labeler>)
    requires m.Valid() && m.wraps.answers.devices == Ok(ds) && ds != []
    requires Evaluate(fullGPULabeler).Ok? && IsGpuLabels(ds, settings.sharing, Evaluate(fullGPULabeler).value)
    modifies m.wraps`log
    ensures m.Valid() && m.Asked()
    ensures r.Ok? ==> Evaluate(r.value).Ok? && IsResourceLabels(ds, settings, Evaluate(r.value).value)
    ensures ResourceCallsAnswer(m.wraps.answers, settings.strategy) ==> r.Ok?
    ensures r.Ok? ==> settings.strategy in {"none", "single", "mixed"}
  {
    var migLabeler := NewMigLabeler(m, settings);
    if migLabeler.Err? {
      return Err;
    }
    EvaluatePair(fullGPULabeler, migLabeler.value);
    ResourceLabelsFrom(ds, settings, Evaluate(fullGPULabeler).value, Evaluate(migLabeler.value).value);
    return Ok(Merge([fullGPULabeler, migLabeler.value]));
  }

  lemma {:induction false} ResourceLabelsFrom(ds: seq<Device>, settings: Settings, gpu: Labels, mig: Labels)
    requires ds != [] && IsGpuLabels(ds, settings.sharing, gpu) && IsMigLabels(ds, settings, mig)
    ensures IsResourceLabels(ds, settings, gpu + mig)
  {
  }

  lemma WithoutStrategy(ds: seq<Device>, settings: Settings, gpu: Labels)
    requires ds != [] && IsGpuLabels(ds, settings.sharing, gpu) && settings.strategy == "none"
    ensures IsResourceLabels(ds, settings, gpu)
  {
    PlusNothing(gpu);
    ResourceLabelsFrom(ds, settings, gpu, map[]);
  }

  lemma PlusNothing(labels: Labels)
    ensures labels + map[] == labels
  {
  }

  // ----- versions, capability, machine type

  function MachineLabels(machineType: string): Labels {
    map[MACHINE := Dashed(machineType)]
  }

  /** The version labels, when the driver version has two or three parts. */
  function VersionLabels(answers: Answers): Result<Labels> {
    if answers.driverVersion.Err? then Err
    else
      var split := Split(answers.driverVersion.value, '.');
      if |split| > 3 || |split| < 2 || answers.cudaVersion.Err? then Err
      else Ok(map[
        DRIVER_MAJOR := split[0], DRIVER_MINOR := split[1], DRIVER_REV := if |split| > 2 then split[2] else "",
        RUNTIME_MAJOR := FormatInt(answers.cudaVersion.value.0), RUNTIME_MINOR := FormatInt(answers.cudaVersion.value.1)])
  }

  /** Versions "X.Y" and "X.Y.Z" are taken apart into labels. */
  lemma VersionLabelsSay(answers: Answers, major: string, minor: string, rev: string)
    requires '.' !in major && '.' !in minor && '.' !in rev && answers.cudaVersion.Ok?
    ensures answers.driverVersion == Ok(major + "." + minor) ==> VersionLabels(answers) == Ok(VersionMap(major, minor, "", answers))
    ensures answers.driverVersion == Ok(major + "." + minor + "." + rev) ==>
              VersionLabels(answers) == Ok(VersionMap(major, minor, rev, answers))
  {
    SplitWithout(minor, '.');
    SplitWithout(rev, '.');
    SplitAt(major, '.', minor);
    SplitAt(minor, '.', rev);
    SplitAt(major, '.', minor + "." + rev);
    assert major + "." + minor == major + ['.'] + minor && minor + "." + rev == minor + ['.'] + rev;
    assert major + "." + minor + "." + rev == major + ['.'] + (minor + "." + rev);
  }

  function VersionMap(major: string, minor: string, rev: string, answers: Answers): Labels
    requires answers.cudaVersion.Ok?
  {
    map["nvidia.com/cuda.driver.major" := major, "nvidia.com/cuda.driver.minor" := minor, "nvidia.com/cuda.driver.rev" := rev,
        "nvidia.com/cuda.runtime.major" := FormatInt(answers.cudaVersion.value.0),
        "nvidia.com/cuda.runtime.minor" := FormatInt(answers.cudaVersion.value.1)]
  }

  /** There are version labels iff both queries answer and the driver version has one dot or two. */
  lemma VersionsExactly(answers: Answers)
    ensures VersionLabels(answers).Ok? <==>
            answers.driverVersion.Ok? && answers.cudaVersion.Ok? && 1 <= multiset(answers.driverVersion.value)['.'] <= 2
  {
    if answers.driverVersion.Ok? {
      SplitCounts(answers.driverVersion.value, '.');
    }
  }

  /** newVersionLabeler. */
  method NewVersionLabeler(m: Manager) returns (r: Result<Labeler>)
    requires m.Valid()
    modifies m.wraps`log
    ensures m.Valid() && m.Asked()
    ensures r == if VersionLabels(m.wraps.answers).Ok? then Ok(Fixed(VersionLabels(m.wraps.answers).value)) else Err
  {
    var driverVersion := m.GetDriverVersion();
    if driverVersion.Err? {
      return Err;
    }
    var split := Split(driverVersion.value, '.');
    if |split| > 3 || |split| < 2 {
      return Err;
    }
    var driverRev := "";
    if |split| > 2 {
      driverRev := split[2];
    }
    var cuda := m.GetCudaDriverVersion();
    if cuda.Err? {
      return Err;
    }
    return Ok(Fixed(map[
      DRIVER_MAJOR := split[0], DRIVER_MINOR := split[1], DRIVER_REV := driverRev,
      RUNTIME_MAJOR := FormatInt(cuda.value.0), RUNTIME_MINOR := FormatInt(cuda.value.1)]));
  }

  predicate AnyCapable(ds: seq<Device>) {
    exists i | 0 <= i < |ds| :: ds[i].migCapable == Ok(true)
  }

  /** No call on a device fails before one answers that its device is capable. */
  predicate CapabilityAnswers(ds: seq<Device>) {
    forall i | 0 <= i < |ds| && ds[i].migCapable == Err :: exists j | 0 <= j < i :: ds[j].migCapable == Ok(true)
  }

  function CapabilityLabels(ds: seq<Device>): Labels {
    if ds == [] then map[] else map[MIG_CAPABLE := if AnyCapable(ds) then "true" else "false"]
  }

  /** The capability label of a node with devices. */
  lemma CapabilitySays(ds: seq<Device>)
    requires ds != []
    ensures (exists d | d in ds :: d.migCapable == Ok(true)) ==> CapabilityLabels(ds) == map["nvidia.com/mig.capable" := "true"]
    ensures (forall d | d in ds :: d.migCapable != Ok(true)) ==> CapabilityLabels(ds) == map["nvidia.com/mig.capable" := "false"]
  {
    if AnyCapable(ds) {
      var i :| 0 <= i < |ds| && ds[i].migCapable == Ok(true);
      assert ds[i] in ds;
    }
  }

  /** The label of the machine type: spaces become dashes. */
  lemma MachineSays(machineType: string)
    ensures MachineLabels(machineType) == map["nvidia.com/gpu.machine" := Join(Split(machineType, ' '), "-")]
  {
    DashedJoins(machineType);
  }

  /** newMigCapabilityLabeler: stops at the first capable device or the first call that fails. */
  method NewMigCapabilityLabeler(m: Manager) returns (r: Result<Labeler>)
    requires m.Valid()
    modifies m.wraps`log
    ensures m.Valid() && m.Asked()
    ensures r.Ok? ==> m.wraps.answers.devices.Ok? && Evaluate(r.value) == Ok(CapabilityLabels(m.wraps.answers.devices.value))
    ensures m.wraps.answers.devices.Ok? ==> (r.Ok? <==> CapabilityAnswers(m.wraps.answers.devices.value))
  {
    var isMigCapable := false;
    var devices := m.GetDevices();
    if devices.Err? {
      return Err;
    }
    var ds := devices.value;
    if |ds| == 0 {
      return Ok(Empty);
    }
    for i := 0 to |ds|
      invariant m.Valid() && m.Asked() && !isMigCapable
      invariant forall j | 0 <= j < i :: ds[j].migCapable == Ok(false)
    {
      var capable := m.Ask(ds[i].migCapable);
      if capable.Err? {
        return Err;
      }
      isMigCapable := capable.value;
      if isMigCapable {
        break;
      }
    }
    return Ok(Fixed(map[MIG_CAPABLE := if isMigCapable then "true" else "false"]));
  }

  // ----- NewNVMLLabeler

  /** The labels of a node whose manager gives these answers, for some iteration order. A node whose GPUs do not answer has
      none. */
  ghost predicate IsNodeLabels(answers: Answers, settings: Settings, labels: Labels) {
    && answers.devices.Ok?
    && if answers.devices.value == [] then labels == map[]
       else VersionLabels(answers).Ok? && GpuCallsAnswer(answers.devices.value) && exists resource ::
         && IsResourceLabels(answers.devices.value, settings, resource)
         && labels == MachineLabels(settings.machineType) + VersionLabels(answers).value +
                      CapabilityLabels(answers.devices.value) + resource
  }

  /** Every call NewNVMLLabeler might make after Init answers. */
  ghost predicate NodeCallsAnswer(answers: Answers, settings: Settings) {
    && answers.devices.Ok?
    && (answers.devices.value != [] ==>
        VersionLabels(answers).Ok? && CapabilityAnswers(answers.devices.value) && ResourceCallsAnswer(answers, settings.strategy))
  }

  /** Every call on the device answers, and every call on its MIG devices. */
  predicate DeviceAnswers(d: Device) {
    && d.name.Ok? && d.migEnabled.Ok? && d.migCapable.Ok? && d.migDevices.Ok? && d.memoryMB.Ok? && d.compute.Ok?
    && forall mig | mig in d.migDevices.value ::
         mig.name.Ok? && mig.attributes.Ok? && mig.parent.Ok? && mig.parent.value.name.Ok?
  }

  /** If no call on a device fails, none that a strategy might make does. */
  lemma NothingFails(answers: Answers, settings: Settings)
    requires answers.devices.Ok? && forall d | d in answers.devices.value :: DeviceAnswers(d)
    requires VersionLabels(answers).Ok? && settings.strategy in {"none", "single", "mixed"}
    ensures NodeCallsAnswer(answers, settings)
  {
    var ds := answers.devices.value;
    GpusAnswer(ds);
    MigsAllAnswer(ds);
    assert CapabilityAnswers(ds) by {
      assert forall i | 0 <= i < |ds| :: ds[i] in ds;
    }
  }

  lemma GpusAnswer(ds: seq<Device>)
    requires forall d | d in ds :: DeviceAnswers(d)
    ensures GpuCallsAnswer(ds)
  {
    assert forall i | 0 <= i < |ds| :: ds[i] in ds;
    forall enabled: bool
      ensures NamesAnswer(WithMig(ds, enabled)) && forall n | n in LastByName(WithMig(ds, enabled)) ::
                GpuAnswers(LastByName(WithMig(ds, enabled))[n])
    {
      SideMembers(ds, enabled);
      LastByNameHolds(WithMig(ds, enabled));
      assert forall i | 0 <= i < |WithMig(ds, enabled)| :: WithMig(ds, enabled)[i] in WithMig(ds, enabled);
    }
    assert NamesAnswer(WithMig(ds, true)) && NamesAnswer(WithMig(ds, false));
  }

  lemma MigsAllAnswer(ds: seq<Device>)
    requires forall d | d in ds :: DeviceAnswers(d)
    ensures SingleCallsAnswer(ds) && MixedCallsAnswer(ds)
  {
    assert forall i | 0 <= i < |ds| :: ds[i] in ds;
    SideMembers(ds, true);
    assert forall i | 0 <= i < |WithMig(ds, true)| :: WithMig(ds, true)[i] in WithMig(ds, true);
    forall mig | mig in NodeMigs(ds) ensures MigAnswers(mig) {
      NodeHasMig(ds, mig);
    }
    ProfilesAnswer(NodeMigs(ds));
  }

  lemma ProfilesAnswer(migs: seq<Device>)
    requires forall d | d in migs :: MigAnswers(d)
    ensures ProfileCallsAnswer(migs)
  {
    assert forall i | 0 <= i < |migs| :: migs[i] in migs;
    forall n | n in Group(migs, true) ensures MigAnswers(Group(migs, true)[n].device) {
      GroupKeepsFirst(migs, true, n);
    }
  }

  /** What NewNVMLLabeler does between Init and Shutdown. */
  method LabelWhileUp(m: Manager, settings: Settings) returns (r: Result<Labeler>)
    requires m.Valid()
    modifies m.wraps`log
    ensures m.Valid() && m.Asked()
    ensures r.Ok? ==> Evaluate(r.value).Ok? && IsNodeLabels(m.wraps.answers, settings, Evaluate(r.value).value)
    ensures m.wraps.answers.devices == Ok([]) ==> r == Ok(Empty)
    ensures NodeCallsAnswer(m.wraps.answers, settings) ==> r.Ok?
  {
    var devices := m.GetDevices();
    if devices.Err? {
      return Err;
    }
    if |devices.value| == 0 {
      return Ok(Empty);
    }
    var versionLabeler := NewVersionLabeler(m);
    if versionLabeler.Err? {
      return Err;
    }
    var migCapabilityLabeler := NewMigCapabilityLabeler(m);
    if migCapabilityLabeler.Err? {
      return Err;
    }
    var resourceLabeler := NewResourceLabeler(m, settings);
    if resourceLabeler.Err? {
      return Err;
    }
    var machineTypeLabeler := Fixed(MachineLabels(settings.machineType));
    NodeLabelsFrom(m.wraps.answers, settings, versionLabeler.value, migCapabilityLabeler.value, resourceLabeler.value);
    return Ok(Merge([machineTypeLabeler, versionLabeler.value, migCapabilityLabeler.value, resourceLabeler.value]));
  }

  lemma NodeLabelsFrom(answers: Answers, settings: Settings, version: Labeler, capability: Labeler, resource: Labeler)
    requires answers.devices.Ok? && answers.devices.value != []
    requires VersionLabels(answers).Ok? && version == Fixed(VersionLabels(answers).value)
    requires Evaluate(capability) == Ok(CapabilityLabels(answers.devices.value))
    requires GpuCallsAnswer(answers.devices.value)
    requires Evaluate(resource).Ok? && IsResourceLabels(answers.devices.value, settings, Evaluate(resource).value)
    ensures var l := Merge([Fixed(MachineLabels(settings.machineType)), version, capability, resource]);
      Evaluate(l).Ok? && IsNodeLabels(answers, settings, Evaluate(l).value)
  {
    MergeFour(Fixed(MachineLabels(settings.machineType)), version, capability, resource);
  }

  lemma MergeFour(a: Labeler, b: Labeler, c: Labeler, d: Labeler)
    requires Evaluate(a).Ok? && Evaluate(b).Ok? && Evaluate(c).Ok? && Evaluate(d).Ok?
    ensures Evaluate(Merge([a, b, c, d])) == Ok(Evaluate(a).value + Evaluate(b).value + Evaluate(c).value + Evaluate(d).value)
  {
    assert [a, b, c, d] == [a, b] + [c, d];
    EvaluateAppend([a, b], [c, d]);
    EvaluatePair(a, b);
    EvaluatePair(c, d);
    OverrideAssociates(Override(Evaluate(a), Evaluate(b)), Evaluate(c), Evaluate(d));
  }

  /** A log that ends with Shutdown does not end with a failed Init. */
  lemma NotJustFailed(before: seq<Event>, queried: seq<Event>)
    ensures queried + [Event.Shutdown] != before + [InitFailed]
  {
    var after := queried + [Event.Shutdown];
    assert after[|after| - 1] == Event.Shutdown;
    assert (before + [InitFailed])[|before|] == InitFailed;
  }

  /** NewNVMLLabeler. On every path, failures included, the calls make up one bracket: a failed Init, or a successful Init,
      queries, and exactly one Shutdown. The labeler it returns can be evaluated without any further call. */
  method NewNVMLLabeler(m: Manager, settings: Settings) returns (r: Result<Labeler>)
    requires m.Valid()
    modifies m, m.wraps, m.fallback`log
    ensures m.Valid()
    ensures old(m.wraps) != m.fallback ==> Bracket(old(m.wraps.log), old(m.wraps).log)
    ensures old(m.wraps) == m.fallback ==> m.wraps == m.fallback
    ensures m.wraps == m.fallback ==> r == Ok(Empty)
    ensures r.Ok? && m.wraps != m.fallback ==> m.wraps.log != old(m.wraps.log) + [InitFailed]
    ensures r.Err? ==> m.LastInitFailed() || !NodeCallsAnswer(m.wraps.answers, settings)
    ensures r.Ok? ==> Evaluate(r.value).Ok? && IsNodeLabels(m.wraps.answers, settings, Evaluate(r.value).value)
  {
    var ok := m.Init();
    if !ok {
      return Err;
    }
    ghost var before, afterInit := old(m.wraps.log), m.wraps.log;
    r := LabelWhileUp(m, settings);
    ghost var queried := m.wraps.log;
    m.Shutdown();
    assert OnlyQueries(afterInit, queried) && m.wraps.log == queried + [Event.Shutdown];
    NotJustFailed(before, queried);
  }
}
