/** The labels of one GPU model or one MIG profile (internal/lm/resource.go). */
module ResourceLabels {
  import opened Outcomes
  import opened Strings
  import opened Labels
  import opened Managers
  import opened Configuration

  const FULL_GPU := "nvidia.com/gpu"

  /** What every resource labeler writes. */
  const PRODUCT := "product"
  const COUNT := "count"
  const REPLICAS := "replicas"
  const MEMORY := "memory"

  /** `sharing` is the time-slicing resources of the config; a nil config is None. */
  datatype ResourceLabeler = ResourceLabeler(resourceName: string, sharing: Option<seq<ReplicatedResource>>) {

    function Key(suffix: string): string {
      resourceName + "." + suffix
    }

    /** The entry of the first resource of that name. */
    function ReplicationInfo(): Option<ReplicatedResource> {
      if sharing.None? then None else FirstNamed(sharing.value, resourceName)
    }

    predicate IsShared() {
      ReplicationInfo().Some? && ReplicationInfo().value.replicas > 1
    }

    predicate IsRenamed() {
      ReplicationInfo().Some? && ReplicationInfo().value.rename != ""
    }

    function Replicas(): int {
      if sharing.None? then 0
      else if ReplicationInfo().Some? && ReplicationInfo().value.replicas > 1 then ReplicationInfo().value.replicas
      else 1
    }

    function ProductParts(parts: seq<string>): seq<string> {
      NonEmpty(parts) + if IsShared() && !IsRenamed() then ["SHARED"] else []
    }

    /** The product, under its suffix, unless there is nothing to say. */
    function ProductValues(parts: seq<string>): map<string, string> {
      if NonEmpty(parts) == [] then map[] else map[PRODUCT := Join(ProductParts(parts), "-")]
    }

    /** The values of baseLabeler, by suffix. */
    function BaseValues(count: int, parts: seq<string>): map<string, string> {
      ProductValues(parts) + map[COUNT := FormatInt(count)] + map[REPLICAS := FormatInt(Replicas())]
    }

    /** The labels of a map from suffixes to values. */
    function Prefixed(values: map<string, string>): Labels {
      map k | k in (set s | s in values :: Key(s)) :: values[Suffix(k)]
    }

    /** The suffix of a key of this resource. */
    function Suffix(key: string): string {
      if |key| <= |resourceName| then "" else key[|resourceName| + 1..]
    }

    lemma SuffixOfKey(suffix: string)
      ensures Suffix(Key(suffix)) == suffix
    {
    }

    /** Labels and values say the same. */
    lemma PrefixedHas(values: map<string, string>, suffix: string)
      ensures Key(suffix) in Prefixed(values) <==> suffix in values
      ensures suffix in values ==> Prefixed(values)[Key(suffix)] == values[suffix]
    {
      forall s ensures Suffix(Key(s)) == s {
        SuffixOfKey(s);
      }
    }

    lemma PrefixedUnion(a: map<string, string>, b: map<string, string>)
      ensures Prefixed(a) + Prefixed(b) == Prefixed(a + b)
    {
      forall s ensures Suffix(Key(s)) == s {
        SuffixOfKey(s);
      }
    }

    lemma PrefixedDetermines(a: map<string, string>, b: map<string, string>)
      ensures Prefixed(a) == Prefixed(b) <==> a == b
    {
      if Prefixed(a) == Prefixed(b) {
        forall s ensures s in a <==> s in b {
          PrefixedHas(a, s);
          PrefixedHas(b, s);
        }
        forall s | s in a ensures a[s] == b[s] {
          PrefixedHas(a, s);
          PrefixedHas(b, s);
        }
      }
    }

    lemma PrefixedPut(values: map<string, string>, suffix: string, value: string)
      ensures Prefixed(values[suffix := value]) == Prefixed(values)[Key(suffix) := value]
    {
      forall s ensures Suffix(Key(s)) == s {
        SuffixOfKey(s);
      }
    }

    /** labels, which writes the map's entries in any order. */
    method LabelsOf(values: map<string, string>) returns (labels: Labels)
      ensures labels == Prefixed(values)
    {
      labels := map[];
      var left := values.Keys;
      ghost var done := map[];
      while left != {}
        invariant left <= values.Keys && done.Keys <= values.Keys
        invariant forall s | s in values :: s in left || s in done
        invariant forall s | s in done :: done[s] == values[s]
        invariant labels == Prefixed(done)
      {
        var suffix :| suffix in left;
        PrefixedPut(done, suffix, values[suffix]);
        labels := labels[Key(suffix) := values[suffix]];
        done := done[suffix := values[suffix]];
        left := left - {suffix};
      }
      assert done == values;
    }

    /** single. */
    method Single(suffix: string, value: string) returns (labels: Labels)
      ensures labels == Prefixed(map[suffix := value])
    {
      labels := LabelsOf(map[suffix := value]);
    }

    /** productLabel. */
    method ProductLabel(parts: seq<string>) returns (labels: Labels)
      ensures labels == Prefixed(ProductValues(parts))
    {
      var strippedParts: seq<string> := [];
      for i := 0 to |parts|
        invariant strippedParts == NonEmpty(parts[..i])
      {
        assert parts[..i + 1][..i] == parts[..i];
        if parts[i] != "" {
          strippedParts := strippedParts + [Dashed(parts[i])];
        }
      }
      assert parts[..|parts|] == parts;
      if |strippedParts| == 0 {
        return map[];
      }
      assert NonEmpty(parts) + [] == NonEmpty(parts);
      if IsShared() && !IsRenamed() {
        strippedParts := strippedParts + ["SHARED"];
      }
      labels := Single(PRODUCT, Join(strippedParts, "-"));
    }
  }

  function FirstNamed(rs: seq<ReplicatedResource>, name: string): Option<ReplicatedResource> {
    if rs == [] then None else if rs[0].name == name then Some(rs[0]) else FirstNamed(rs[1..], name)
  }

  /** The parts that are not empty, spaces replaced. */
  function NonEmpty(parts: seq<string>): seq<string> {
    if parts == [] then []
    else
      var last := parts[|parts| - 1];
      NonEmpty(parts[..|parts| - 1]) + if last != "" then [Dashed(last)] else []
  }

  /** The entry `i` is the first of that name. */
  predicate IsFirstEntry(rs: seq<ReplicatedResource>, name: string, i: nat) {
    i < |rs| && rs[i].name == name && forall j | 0 <= j < i :: rs[j].name != name
  }

  /** The entry found is the first one of that name; none is found iff none has it. */
  lemma {:induction false} FirstNamedExactly(rs: seq<ReplicatedResource>, name: string)
    ensures FirstNamed(rs, name) == None <==> forall i | 0 <= i < |rs| :: rs[i].name != name
    ensures forall r :: FirstNamed(rs, name) == Some(r) <==> exists i: nat :: IsFirstEntry(rs, name, i) && r == rs[i]
  {
    if rs != [] {
      FirstNamedExactly(rs[1..], name);
      if rs[0].name == name {
        assert IsFirstEntry(rs, name, 0);
      } else {
        forall r ensures FirstNamed(rs, name) == Some(r) <==> exists i: nat :: IsFirstEntry(rs, name, i) && r == rs[i] {
          if i: nat :| IsFirstEntry(rs[1..], name, i) && r == rs[1..][i] {
            assert IsFirstEntry(rs, name, i + 1);
          }
          if i: nat :| IsFirstEntry(rs, name, i) && r == rs[i] {
            assert i > 0 && IsFirstEntry(rs[1..], name, i - 1);
          }
        }
      }
    }
  }

  /** The replicas of a resource are the number in the first entry of its name if that exceeds one, one if it does not or
      there is no such entry, and zero without sharing; its product is marked as shared iff they exceed one and that entry
      does not rename the resource. */
  lemma ReplicasExactly(rl: ResourceLabeler)
    ensures rl.sharing == None ==> rl.Replicas() == 0 && !rl.IsShared()
    ensures rl.sharing.Some? && (forall i | 0 <= i < |rl.sharing.value| :: rl.sharing.value[i].name != rl.resourceName) ==>
              rl.Replicas() == 1 && !rl.IsShared()
    ensures rl.sharing.Some? ==> forall i: nat | IsFirstEntry(rl.sharing.value, rl.resourceName, i) ::
              var r := rl.sharing.value[i];
              && rl.Replicas() == (if r.replicas > 1 then r.replicas else 1)
              && (rl.IsShared() && !rl.IsRenamed() <==> r.replicas > 1 && r.rename == "")
  {
    if rl.sharing.Some? {
      FirstNamedExactly(rl.sharing.value, rl.resourceName);
      forall i: nat | IsFirstEntry(rl.sharing.value, rl.resourceName, i)
        ensures rl.ReplicationInfo() == Some(rl.sharing.value[i])
      {
      }
    }
  }

  lemma {:induction false} FirstNamedIsPlain(rs: seq<ReplicatedResource>, name: string, renameByDefault: bool)
    requires forall i | 0 <= i < |rs| :: Plain(rs[i], renameByDefault)
    ensures FirstNamed(rs, name).Some? ==> Plain(FirstNamed(rs, name).value, renameByDefault)
  {
    if rs != [] {
      FirstNamedIsPlain(rs[1..], name, renameByDefault);
    }
  }

  /** Under a normalised config the product label ends in SHARED exactly when the replicas label is above one and
      resources are not renamed by default. */
  lemma SharedExactly(rl: ResourceLabeler, renameByDefault: bool, count: int, parts: seq<string>)
    requires rl.sharing.Some? && NonEmpty(parts) != []
    requires forall i | 0 <= i < |rl.sharing.value| :: Plain(rl.sharing.value[i], renameByDefault)
    ensures rl.BaseValues(count, parts)[PRODUCT] == Join(NonEmpty(parts), "-") +
              if DecimalValue(rl.BaseValues(count, parts)[REPLICAS]) > 1 && !renameByDefault then "-SHARED" else ""
  {
    FirstNamedIsPlain(rl.sharing.value, rl.resourceName, renameByDefault);
    DecimalRoundTrip(rl.Replicas());
    assert rl.BaseValues(count, parts)[REPLICAS] == Decimal(rl.Replicas());
    if rl.ReplicationInfo().Some? && renameByDefault {
      var r := rl.ReplicationInfo().value;
      assert r.rename == r.name + SHARED_SUFFIX && |r.rename| >= |SHARED_SUFFIX|;
    }
    var product := Join(NonEmpty(parts), "-");
    JoinSnoc(NonEmpty(parts), "-", "SHARED");
    assert product + "-" + "SHARED" == product + "-SHARED";
    assert NonEmpty(parts) + [] == NonEmpty(parts);
    assert product + "" == product;
  }

  // ----- GPUs

  /** Every call made to label the GPU answers. */
  predicate GpuAnswers(d: Device) {
    d.name.Ok? && d.memoryMB.Ok? && d.compute.Ok?
  }

  function ArchitectureValues(major: int, minor: int): map<string, string> {
    if major == 0 then map[]
    else map["family" := ArchFamily(major, minor), "compute.major" := FormatInt(major), "compute.minor" := FormatInt(minor)]
  }

  /** A memory of zero is not labelled. */
  function MemoryValues(memoryMB: nat): map<string, string> {
    if memoryMB != 0 then map[MEMORY := FormatInt(memoryMB)] else map[]
  }

  function ArchFamily(major: int, minor: int): string {
    match major
    case 1 => "tesla"
    case 2 => "fermi"
    case 3 => "kepler"
    case 5 => "maxwell"
    case 6 => "pascal"
    case 7 => if minor < 5 then "volta" else "turing"
    case 8 => "ampere"
    case 9 => "hopper"
    case _ => "undefined"
  }

  /** What is said of `count` GPUs of the model of `d`, by suffix. */
  function GpuValues(sharing: Option<seq<ReplicatedResource>>, d: Device, count: int): map<string, string>
    requires GpuAnswers(d)
  {
    if count == 0 then map[]
    else
      ResourceLabeler(FULL_GPU, sharing).BaseValues(count, [d.name.value]) +
      MemoryValues(d.memoryMB.value) + ArchitectureValues(d.compute.value.0, d.compute.value.1)
  }

  function GpuLabels(sharing: Option<seq<ReplicatedResource>>, d: Device, count: int): Labels
    requires GpuAnswers(d)
  {
    ResourceLabeler(FULL_GPU, sharing).Prefixed(GpuValues(sharing, d, count))
  }

  lemma MergeThree(rl: ResourceLabeler, l: Labeler, a: map<string, string>, b: map<string, string>, c: map<string, string>)
    requires Evaluate(l) == Ok(rl.Prefixed(a))
    ensures Evaluate(Merge([l, Fixed(rl.Prefixed(b)), Fixed(rl.Prefixed(c))])) == Ok(rl.Prefixed(a + b + c))
  {
    var second, third := Fixed(rl.Prefixed(b)), Fixed(rl.Prefixed(c));
    assert [l, second, third] == [l, second] + [third];
    EvaluateAppend([l, second], [third]);
    EvaluatePair(l, second);
    EvaluateOne(third);
    rl.PrefixedUnion(a, b);
    rl.PrefixedUnion(a + b, c);
  }

  /** baseLabeler. */
  method BaseLabeler(rl: ResourceLabeler, count: int, parts: seq<string>) returns (l: Labeler)
    ensures Evaluate(l) == Ok(rl.Prefixed(rl.BaseValues(count, parts)))
  {
    var product := rl.ProductLabel(parts);
    var countLabel := rl.Single(COUNT, FormatInt(count));
    var replicasLabel := rl.Single(REPLICAS, FormatInt(rl.Replicas()));
    MergeThree(rl, Fixed(product), rl.ProductValues(parts), map[COUNT := FormatInt(count)], map[REPLICAS := FormatInt(rl.Replicas())]);
    l := Merge([Fixed(product), Fixed(countLabel), Fixed(replicasLabel)]);
  }

  /** NewGPUResourceLabeler; with `sharing` None it is NewGPUResourceLabelerWithoutSharing. */
  method NewGPUResourceLabeler(m: Manager, sharing: Option<seq<ReplicatedResource>>, d: Device, count: int)
      returns (r: Result<Labeler>)
    requires m.Valid()
    modifies m.wraps`log
    ensures m.Valid() && m.Asked()
    ensures r.Ok? <==> count == 0 || GpuAnswers(d)
    ensures r.Ok? && GpuAnswers(d) ==> Evaluate(r.value) == Ok(GpuLabels(sharing, d, count))
  {
    if count == 0 {
      return Ok(Empty);
    }
    var model := m.Ask(d.name);
    if model.Err? {
      return Err;
    }
    var totalMemoryMB := m.Ask(d.memoryMB);
    if totalMemoryMB.Err? {
      return Err;
    }
    var compute := m.Ask(d.compute);
    if compute.Err? {
      return Err;
    }
    var l := AssembleGpu(sharing, d, count);
    return Ok(l);
  }

  /** The part of NewGPUResourceLabeler that follows the calls on the device. */
  method AssembleGpu(sharing: Option<seq<ReplicatedResource>>, d: Device, count: int) returns (l: Labeler)
    requires GpuAnswers(d) && count != 0
    ensures Evaluate(l) == Ok(GpuLabels(sharing, d, count))
  {
    var rl := ResourceLabeler(FULL_GPU, sharing);
    var architecture := rl.LabelsOf(ArchitectureValues(d.compute.value.0, d.compute.value.1));
    var memory := rl.LabelsOf(MemoryValues(d.memoryMB.value));
    var base := BaseLabeler(rl, count, [d.name.value]);
    MergeThree(rl, base, rl.BaseValues(count, [d.name.value]), MemoryValues(d.memoryMB.value),
               ArchitectureValues(d.compute.value.0, d.compute.value.1));
    l := Merge([base, Fixed(memory), Fixed(architecture)]);
  }

  // ----- MIG devices

  /** Every call made to label the MIG device answers. */
  predicate MigAnswers(d: Device) {
    d.parent.Ok? && d.parent.value.name.Ok? && d.name.Ok? && d.attributes.Ok?
  }

  function Formatted(attributes: map<string, int>): map<string, string> {
    map a | a in attributes :: FormatInt(attributes[a])
  }

  /** What is said of `count` MIG devices of the profile of `d`, by suffix. */
  function MigValues(resourceName: string, sharing: Option<seq<ReplicatedResource>>, d: Device, count: int): map<string, string>
    requires MigAnswers(d)
  {
    if count == 0 then map[]
    else
      ResourceLabeler(resourceName, sharing).BaseValues(count, [d.parent.value.name.value, "MIG", d.name.value]) +
      Formatted(d.attributes.value)
  }

  function MigLabels(resourceName: string, sharing: Option<seq<ReplicatedResource>>, d: Device, count: int): Labels
    requires MigAnswers(d)
  {
    ResourceLabeler(resourceName, sharing).Prefixed(MigValues(resourceName, sharing, d, count))
  }

  /** NewMIGResourceLabeler. */
  method NewMIGResourceLabeler(m: Manager, resourceName: string, sharing: Option<seq<ReplicatedResource>>, d: Device, count: int)
      returns (r: Result<Labeler>)
    requires m.Valid()
    modifies m.wraps`log
    ensures m.Valid() && m.Asked()
    ensures r.Ok? <==> count == 0 || MigAnswers(d)
    ensures r.Ok? && MigAnswers(d) ==> Evaluate(r.value) == Ok(MigLabels(resourceName, sharing, d, count))
  {
    if count == 0 {
      return Ok(Empty);
    }
    var parent := m.Ask(d.parent);
    if parent.Err? {
      return Err;
    }
    var model := m.Ask(parent.value.name);
    if model.Err? {
      return Err;
    }
    var migProfile := m.Ask(d.name);
    if migProfile.Err? {
      return Err;
    }
    var attributes := m.Ask(d.attributes);
    if attributes.Err? {
      return Err;
    }
    var l := AssembleMig(resourceName, sharing, d, count);
    return Ok(l);
  }

  /** The part of NewMIGResourceLabeler that follows the calls on the device. */
  method AssembleMig(resourceName: string, sharing: Option<seq<ReplicatedResource>>, d: Device, count: int) returns (l: Labeler)
    requires MigAnswers(d) && count != 0
    ensures Evaluate(l) == Ok(MigLabels(resourceName, sharing, d, count))
  {
    var rl := ResourceLabeler(resourceName, sharing);
    var attributes := rl.LabelsOf(Formatted(d.attributes.value));
    var base := BaseLabeler(rl, count, [d.parent.value.name.value, "MIG", d.name.value]);
    EvaluatePair(base, Fixed(attributes));
    rl.PrefixedUnion(rl.BaseValues(count, [d.parent.value.name.value, "MIG", d.name.value]), Formatted(d.attributes.value));
    l := Merge([base, Fixed(attributes)]);
  }

  // ----- label by label

  lemma JoinThree(a: string, b: string, c: string)
    ensures Join([a], "-") == a && Join([a, b], "-") == a + "-" + b
    ensures Join([a, b, c], "-") == a + "-" + b + "-" + c
  {
    assert [a, b][1..] == [b] && [a, b, c][1..] == [b, c] && [b, c][1..] == [c];
    assert Join([b, c], "-") == b + "-" + c && Join([a, b, c], "-") == a + "-" + Join([b, c], "-");
    assert a + "-" + (b + "-" + c) == a + "-" + b + "-" + c;
  }

  lemma NonEmptySnoc(parts: seq<string>, last: string)
    ensures NonEmpty(parts + [last]) == NonEmpty(parts) + if last != "" then [Dashed(last)] else []
  {
    assert (parts + [last])[..|parts|] == parts;
  }

  /** What a part that is there becomes, by itself and among others. */
  lemma PartsSay(model: string, profile: string)
    ensures NonEmpty([model]) == if model != "" then [Dashed(model)] else []
    ensures profile != "" ==>
              NonEmpty([model, "MIG", profile]) == (if model != "" then [Dashed(model)] else []) + ["MIG", Dashed(profile)]
  {
    NonEmptySnoc([], model);
    NonEmptySnoc([model], "MIG");
    NonEmptySnoc([model, "MIG"], profile);
    assert [] + [model] == [model] && [model] + ["MIG"] == [model, "MIG"];
    assert [model, "MIG"] + [profile] == [model, "MIG", profile];
    assert Dashed("MIG") == "MIG";
  }

  /** The mark of a shared resource. */
  function SharedMark(rl: ResourceLabeler): string {
    if rl.IsShared() && !rl.IsRenamed() then "-SHARED" else ""
  }

  lemma GpuProductSays(rl: ResourceLabeler, model: string)
    ensures rl.ProductValues([model]) == if model == "" then map[] else map["product" := Dashed(model) + SharedMark(rl)]
  {
    PartsSay(model, "");
    JoinThree(Dashed(model), "SHARED", "");
    assert [Dashed(model)] + [] == [Dashed(model)] && Dashed(model) + "-" + "SHARED" == Dashed(model) + "-SHARED";
    assert Dashed(model) + "" == Dashed(model);
  }

  lemma MigProductSays(rl: ResourceLabeler, model: string, profile: string)
    requires model != "" && profile != ""
    ensures rl.ProductValues([model, "MIG", profile]) ==
            map["product" := Dashed(model) + "-MIG-" + Dashed(profile) + SharedMark(rl)]
  {
    var m, p := Dashed(model), Dashed(profile);
    PartsSay(model, profile);
    JoinThree(m, "MIG", p);
    JoinSnoc([m, "MIG", p], "-", "SHARED");
    assert [m] + ["MIG", p] == [m, "MIG", p] && [m, "MIG", p] + [] == [m, "MIG", p];
    assert m + "-" + "MIG" + "-" + p == m + "-MIG-" + p && m + "-MIG-" + p + "-" + "SHARED" == m + "-MIG-" + p + "-SHARED";
    assert m + "-MIG-" + p + "" == m + "-MIG-" + p;
  }

  lemma BaseSays(rl: ResourceLabeler, count: int, parts: seq<string>, product: map<string, string>)
    requires rl.ProductValues(parts) == product
    ensures rl.BaseValues(count, parts) == product + map["count" := FormatInt(count), "replicas" := FormatInt(rl.Replicas())]
  {
  }

  /** The values of a GPU model, each under its suffix, and no others. */
  lemma GpuValuesSay(sharing: Option<seq<ReplicatedResource>>, d: Device, count: int)
    requires GpuAnswers(d) && count != 0
    ensures var rl := ResourceLabeler("nvidia.com/gpu", sharing);
      var (major, minor) := d.compute.value;
      GpuValues(sharing, d, count) ==
      (if d.name.value == "" then map[] else map["product" := Dashed(d.name.value) + SharedMark(rl)]) +
      map["count" := FormatInt(count), "replicas" := FormatInt(rl.Replicas())] +
      (if d.memoryMB.value == 0 then map[] else map["memory" := FormatInt(d.memoryMB.value)]) +
      (if major == 0 then map[]
       else map["family" := ArchFamily(major, minor), "compute.major" := FormatInt(major), "compute.minor" := FormatInt(minor)])
  {
    var rl, model := ResourceLabeler(FULL_GPU, sharing), d.name.value;
    GpuProductSays(rl, model);
    BaseSays(rl, count, [model], if model == "" then map[] else map["product" := Dashed(model) + SharedMark(rl)]);
  }

  /** A label of a GPU is there iff its suffix has a value. */
  lemma GpuLabelsSay(sharing: Option<seq<ReplicatedResource>>, d: Device, count: int, suffix: string)
    requires GpuAnswers(d)
    ensures "nvidia.com/gpu." + suffix in GpuLabels(sharing, d, count) <==> suffix in GpuValues(sharing, d, count)
    ensures suffix in GpuValues(sharing, d, count) ==>
              GpuLabels(sharing, d, count)["nvidia.com/gpu." + suffix] == GpuValues(sharing, d, count)[suffix]
  {
    GpuKeysSay(sharing, GpuValues(sharing, d, count), suffix);
  }

  lemma GpuKeysSay(sharing: Option<seq<ReplicatedResource>>, values: map<string, string>, suffix: string)
    ensures var labels := ResourceLabeler(FULL_GPU, sharing).Prefixed(values);
      && ("nvidia.com/gpu." + suffix in labels <==> suffix in values)
      && (suffix in values ==> labels["nvidia.com/gpu." + suffix] == values[suffix])
  {
    assert FULL_GPU + "." + suffix == "nvidia.com/gpu." + suffix;
    ResourceLabeler(FULL_GPU, sharing).PrefixedHas(values, suffix);
  }

  /** And it has no others. */
  lemma GpuLabelsSayNoMore(sharing: Option<seq<ReplicatedResource>>, d: Device, count: int, key: string)
    requires GpuAnswers(d) && key in GpuLabels(sharing, d, count)
    ensures "nvidia.com/gpu." <= key
  {
  }

  /** The values of a MIG profile, each under its suffix, and no others; an attribute overrides what has its name. */
  lemma MigValuesSay(resourceName: string, sharing: Option<seq<ReplicatedResource>>, d: Device, count: int)
    requires MigAnswers(d) && count != 0 && d.parent.value.name.value != "" && d.name.value != ""
    ensures MigValues(resourceName, sharing, d, count) ==
            map["product" := Dashed(d.parent.value.name.value) + "-MIG-" + Dashed(d.name.value) +
                             SharedMark(ResourceLabeler(resourceName, sharing))] +
            map["count" := FormatInt(count), "replicas" := FormatInt(ResourceLabeler(resourceName, sharing).Replicas())] +
            Formatted(d.attributes.value)
  {
    var rl, model, profile := ResourceLabeler(resourceName, sharing), d.parent.value.name.value, d.name.value;
    MigProductSays(rl, model, profile);
    BaseSays(rl, count, [model, "MIG", profile], map["product" := Dashed(model) + "-MIG-" + Dashed(profile) + SharedMark(rl)]);
  }

  /** Each attribute, printed. */
  lemma AttributesSay(attributes: map<string, int>, a: string)
    ensures a in Formatted(attributes) <==> a in attributes
    ensures a in attributes ==> Formatted(attributes)[a] == FormatInt(attributes[a])
  {
  }
}
