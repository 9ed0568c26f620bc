/** What the GPU labels of a node with several models have in common, whatever order they were merged in. */
module GpuCoherence {
  import opened Outcomes
  import opened Strings
  import opened Labels
  import opened Managers
  import opened Configuration
  import opened Orders
  import opened Grouping
  import opened Mig
  import opened ResourceLabels
  import opened GpuLabelers

  function GpuKey(suffix: string): string {
    "nvidia.com/gpu." + suffix
  }

  lemma GpuHas(values: map<string, string>, suffix: string)
    ensures var labels := ResourceLabeler(FULL_GPU, None).Prefixed(values);
      && (GpuKey(suffix) in labels <==> suffix in values)
      && (suffix in values ==> labels[GpuKey(suffix)] == values[suffix])
  {
    GpuKeysSay(None, values, suffix);
  }

  /** The model's device answered and there is at least one of it. */
  predicate Real(m: Model) {
    GpuAnswers(m.device) && m.count >= 1
  }

  function Values(m: Model): map<string, string>
    requires Real(m)
  {
    GpuValues(m.sharing, m.device, m.count)
  }

  /** What each model of a plan says. */
  function Layers(plan: seq<Model>): (layers: seq<map<string, string>>)
    requires forall i | 0 <= i < |plan| :: Real(plan[i])
    ensures |layers| == |plan|
  {
    seq(|plan|, i requires 0 <= i < |plan| => Values(plan[i]))
  }

  lemma {:induction false} OverlayPrefixed(rl: ResourceLabeler, layers: seq<map<string, string>>, ls: seq<Labels>)
    requires |ls| == |layers| && forall i | 0 <= i < |ls| :: ls[i] == rl.Prefixed(layers[i])
    ensures Overlay(ls) == rl.Prefixed(Overlay(layers))
  {
    if ls == [] {
      assert rl.Prefixed(map[]) == map[];
    } else {
      var n := |ls| - 1;
      OverlayPrefixed(rl, layers[..n], ls[..n]);
      rl.PrefixedUnion(Overlay(layers[..n]), layers[n]);
    }
  }

  /** The labels of a plan, without their common prefix. */
  lemma PlanLabelsAreValues(plan: seq<Model>)
    requires forall i | 0 <= i < |plan| :: Real(plan[i])
    ensures PlanLabels(plan) == ResourceLabeler(FULL_GPU, None).Prefixed(Overlay(Layers(plan)))
  {
    var rl := ResourceLabeler(FULL_GPU, None);
    var ls := seq(|plan|, i requires 0 <= i < |plan| => ModelLabels(plan[i]));
    forall i | 0 <= i < |ls| ensures ls[i] == rl.Prefixed(Layers(plan)[i]) {
      SamePrefix(plan[i]);
    }
    OverlayPrefixed(rl, Layers(plan), ls);
  }

  lemma SamePrefix(m: Model)
    requires Real(m)
    ensures ModelLabels(m) == ResourceLabeler(FULL_GPU, None).Prefixed(Values(m))
  {
  }

  /** `a` has no label that `b` lacks: no name, memory or compute capability that `b` leaves out. */
  predicate Covers(b: Device, a: Device) {
    && GpuAnswers(a) && GpuAnswers(b)
    && (a.name.value != "" ==> b.name.value != "")
    && (a.memoryMB.value != 0 ==> b.memoryMB.value != 0)
    && (a.compute.value.0 != 0 ==> b.compute.value.0 != 0)
  }

  lemma NonEmptyOne(name: string)
    ensures NonEmpty([name]) == if name != "" then [Dashed(name)] else []
  {
  }

  lemma ProductKeys(rl: ResourceLabeler, name: string)
    ensures rl.ProductValues([name]).Keys == if name != "" then {PRODUCT} else {}
    ensures name != "" ==> rl.ProductValues([name])[PRODUCT] == Join(rl.ProductParts([name]), "-")
  {
    NonEmptyOne(name);
  }

  /** Which suffixes a model has labels for. */
  function Suffixes(d: Device): set<string>
    requires GpuAnswers(d)
  {
    (if d.name.value != "" then {PRODUCT} else {}) + {COUNT, REPLICAS} +
    MemoryValues(d.memoryMB.value).Keys + ArchitectureValues(d.compute.value.0, d.compute.value.1).Keys
  }

  lemma ValuesHave(m: Model)
    requires Real(m)
    ensures Values(m).Keys == Suffixes(m.device)
  {
    var rl := ResourceLabeler(FULL_GPU, m.sharing);
    ProductKeys(rl, m.device.name.value);
    assert rl.BaseValues(m.count, [m.device.name.value]).Keys == rl.ProductValues([m.device.name.value]).Keys + {COUNT} + {REPLICAS};
  }

  lemma SuffixesTell(d: Device)
    requires GpuAnswers(d)
    ensures PRODUCT in Suffixes(d) <==> d.name.value != ""
    ensures MEMORY in Suffixes(d) <==> d.memoryMB.value != 0
    ensures "family" in Suffixes(d) <==> d.compute.value.0 != 0
  {
  }

  lemma SuffixesCover(b: Device, a: Device)
    requires GpuAnswers(a) && GpuAnswers(b)
    ensures Suffixes(a) <= Suffixes(b) <==> Covers(b, a)
  {
    SuffixesTell(a);
    SuffixesTell(b);
    if Covers(b, a) {
      assert MemoryValues(a.memoryMB.value).Keys <= MemoryValues(b.memoryMB.value).Keys;
      assert ArchitectureValues(a.compute.value.0, a.compute.value.1).Keys <=
             ArchitectureValues(b.compute.value.0, b.compute.value.1).Keys;
    }
  }

  /** The labels are those of the model labelled last. */
  predicate ShowsOneModel(plan: seq<Model>) {
    plan != [] && PlanLabels(plan) == ModelLabels(plan[|plan| - 1])
  }

  /** All labels are one model's exactly when the model labelled last covers every other one; otherwise some label of an
      overridden model shows through. */
  lemma AllLabelsOfOneModelExactly(plan: seq<Model>)
    requires plan != [] && forall i | 0 <= i < |plan| :: Real(plan[i])
    ensures ShowsOneModel(plan) <==> forall i | 0 <= i < |plan| :: Covers(plan[|plan| - 1].device, plan[i].device)
  {
    ShowsTheLast(plan);
    TopLayer(plan);
  }

  lemma ShowsTheLast(plan: seq<Model>)
    requires plan != [] && forall i | 0 <= i < |plan| :: Real(plan[i])
    ensures ShowsOneModel(plan) <==> Overlay(Layers(plan)) == Values(plan[|plan| - 1])
  {
    var last := plan[|plan| - 1];
    PlanLabelsAreValues(plan);
    SamePrefix(last);
    ResourceLabeler(FULL_GPU, None).PrefixedDetermines(Overlay(Layers(plan)), Values(last));
  }

  lemma TopLayer(plan: seq<Model>)
    requires plan != [] && forall i | 0 <= i < |plan| :: Real(plan[i])
    ensures Overlay(Layers(plan)) == Values(plan[|plan| - 1]) <==>
            forall i | 0 <= i < |plan| :: Covers(plan[|plan| - 1].device, plan[i].device)
  {
    var last := plan[|plan| - 1];
    OverlayIsLastExactly(Layers(plan));
    forall i | 0 <= i < |plan|
      ensures Layers(plan)[i].Keys <= Values(last).Keys <==> Covers(last.device, plan[i].device)
    {
      ValuesHave(plan[i]);
      ValuesHave(last);
      SuffixesCover(last.device, plan[i].device);
    }
  }

  /** What a model's labels say about it. */
  lemma ValuesSay(m: Model)
    requires Real(m)
    ensures COUNT in Values(m) && Values(m)[COUNT] == FormatInt(m.count)
    ensures REPLICAS in Values(m) && Values(m)[REPLICAS] == FormatInt(ResourceLabeler(FULL_GPU, m.sharing).Replicas())
    ensures m.device.name.value != "" ==>
              PRODUCT in Values(m) && Values(m)[PRODUCT] == Dashed(m.device.name.value) + SharedMark(ResourceLabeler(FULL_GPU, m.sharing))
  {
    var rl, model := ResourceLabeler(FULL_GPU, m.sharing), m.device.name.value;
    GpuProductSays(rl, model);
    BaseSays(rl, m.count, [model], if model == "" then map[] else map["product" := Dashed(model) + SharedMark(rl)]);
  }

  /** Product, count and replicas always come from the model labelled last. */
  lemma LastModelDecides(plan: seq<Model>)
    requires plan != [] && forall i | 0 <= i < |plan| :: Real(plan[i])
    ensures Decides(plan[|plan| - 1], PlanLabels(plan))
  {
    var last := plan[|plan| - 1];
    PlanLabelsAreValues(plan);
    ValuesSay(last);
    var values := Overlay(Layers(plan));
    assert values == Overlay(Layers(plan)[..|plan| - 1]) + Values(last);
    GpuHas(values, COUNT);
    GpuHas(values, REPLICAS);
    GpuHas(values, PRODUCT);
  }

  /** The labels tell this model's count and replicas and, if it has a name, its product. */
  ghost predicate Decides(m: Model, labels: Labels)
    requires Real(m)
  {
    var rl := ResourceLabeler("nvidia.com/gpu", m.sharing);
    && GpuKey("count") in labels && labels[GpuKey("count")] == FormatInt(m.count)
    && GpuKey("replicas") in labels && labels[GpuKey("replicas")] == FormatInt(rl.Replicas())
    && (m.device.name.value != "" ==>
        GpuKey("product") in labels && labels[GpuKey("product")] == Dashed(m.device.name.value) + SharedMark(rl))
  }

  // ----- from the devices of the node

  lemma {:induction false} NamesSplit(ds: seq<Device>)
    requires FlagsAnswer(ds)
    ensures multiset(Names(WithMig(ds, true))) + multiset(Names(WithMig(ds, false))) == multiset(Names(ds))
  {
    if ds != [] {
      var n := |ds| - 1;
      NamesSplit(ds[..n]);
      var b := ds[n].migEnabled.value;
      assert Names(ds) == Names(ds[..n]) + [Name(ds[n])];
      assert Names(WithMig(ds, b)) == Names(WithMig(ds[..n], b)) + [Name(ds[n])];
      assert WithMig(ds, !b) == WithMig(ds[..n], !b);
    }
  }

  /** Each model is counted once for each device of its name, with MIG or without. */
  lemma CountsAreMultiplicities(ds: seq<Device>)
    requires FlagsAnswer(ds)
    ensures forall n | n in Counts(ds) :: Counts(ds)[n] == multiset(Names(ds))[n]
    ensures forall order | Enumerates(order, Counts(ds).Keys) :: SumOver(order, Counts(ds)) == |ds|
  {
    var names := Names(WithMig(ds, true)) + Names(WithMig(ds, false));
    NamesSplit(ds);
    TallyIsMultiplicity(names);
    assert multiset(names) == multiset(Names(ds));
    assert |names| == |multiset(names)| == |ds|;
    forall order | Enumerates(order, Counts(ds).Keys) ensures SumOver(order, Counts(ds)) == |ds| {
      CountsSumUp(order, names);
    }
  }

  /** A model of the plan stands for a device of the node, counts its namesakes, and shares only if MIG is off. */
  ghost predicate Stands(m: Model, ds: seq<Device>, sharing: seq<ReplicatedResource>) {
    && Real(m) && m.device in ds
    && m.count == multiset(Names(ds))[Name(m.device)]
    && m.device.migEnabled.Ok?
    && m.sharing == if m.device.migEnabled.value then None else Some(sharing)
  }

  /** The last device of a name among those with MIG enabled, or disabled, is one of the node's. */
  lemma LastStands(ds: seq<Device>, enabled: bool, n: string)
    requires n in LastByName(WithMig(ds, enabled))
    ensures var d := LastByName(WithMig(ds, enabled))[n]; d in ds && Name(d) == n && d.migEnabled == Ok(enabled)
  {
    var side := WithMig(ds, enabled);
    var at := SideIsSorted(ds, enabled);
    LastByNameHolds(side);
    var j :| 0 <= j < |side| && side[j] == LastByName(side)[n];
    assert side[j] == ds[at[j]];
  }

  lemma {:induction false} ModelsStand(ds: seq<Device>, sharing: seq<ReplicatedResource>, enabled: bool, order: seq<string>)
    requires FlagsAnswer(ds)
    requires var devices := LastByName(WithMig(ds, enabled));
      Enumerates(order, devices.Keys) && devices.Keys <= Counts(ds).Keys && forall n | n in devices :: GpuAnswers(devices[n])
    ensures var models := ModelsIn(LastByName(WithMig(ds, enabled)), Counts(ds), if enabled then None else Some(sharing), order);
      forall i | 0 <= i < |models| :: Stands(models[i], ds, sharing) && models[i].device.migEnabled == Ok(enabled)
  {
    var devices := LastByName(WithMig(ds, enabled));
    CountsAreMultiplicities(ds);
    CountsHold(ds);
    forall i | 0 <= i < |order|
      ensures var m := ModelOf(devices, Counts(ds), if enabled then None else Some(sharing), order[i]);
        Stands(m, ds, sharing) && m.device.migEnabled == Ok(enabled)
    {
      LastStands(ds, enabled, order[i]);
    }
  }

  lemma SideIsNotEmpty(ds: seq<Device>, enabled: bool, order: seq<string>, d: Device)
    requires d in ds && d.migEnabled == Ok(enabled) && Enumerates(order, LastByName(WithMig(ds, enabled)).Keys)
    ensures order != []
  {
    var at := SideIsSorted(ds, enabled);
    var k :| 0 <= k < |ds| && ds[k] == d;
    var side := WithMig(ds, enabled);
    LastByNameHolds(side);
    assert side != [];
    assert Names(side)[0] in LastByName(side).Keys;
  }

  /** A plan is made of models of MIG-enabled devices, then of full GPUs, and has the latter if there are any. */
  lemma {:induction false} PlanParts(ds: seq<Device>, sharing: seq<ReplicatedResource>, plan: seq<Model>)
      returns (p: seq<Model>, q: seq<Model>)
    requires GpuCallsAnswer(ds) && IsPlan(ds, sharing, plan)
    ensures plan == p + q
    ensures forall i | 0 <= i < |p| :: Stands(p[i], ds, sharing)
    ensures forall i | 0 <= i < |q| :: Stands(q[i], ds, sharing) && q[i].device.migEnabled == Ok(false)
    ensures forall d | d in ds :: if d.migEnabled == Ok(true) then p != [] else q != []
  {
    var migOrder, fullOrder :|
      && Enumerates(migOrder, LastByName(WithMig(ds, true)).Keys) && Enumerates(fullOrder, LastByName(WithMig(ds, false)).Keys)
      && LastByName(WithMig(ds, true)).Keys <= Counts(ds).Keys && LastByName(WithMig(ds, false)).Keys <= Counts(ds).Keys
      && plan == ModelsIn(LastByName(WithMig(ds, true)), Counts(ds), None, migOrder) +
                 ModelsIn(LastByName(WithMig(ds, false)), Counts(ds), Some(sharing), fullOrder);
    p := ModelsIn(LastByName(WithMig(ds, true)), Counts(ds), None, migOrder);
    q := ModelsIn(LastByName(WithMig(ds, false)), Counts(ds), Some(sharing), fullOrder);
    ModelsStand(ds, sharing, true, migOrder);
    ModelsStand(ds, sharing, false, fullOrder);
    forall d | d in ds ensures if d.migEnabled == Ok(true) then p != [] else q != [] {
      var i :| 0 <= i < |ds| && ds[i] == d;
      assert ds[i].migEnabled.Ok?;
      if d.migEnabled.value {
        SideIsNotEmpty(ds, true, migOrder, d);
      } else {
        SideIsNotEmpty(ds, false, fullOrder, d);
      }
    }
  }

  lemma {:induction false} PlanStands(ds: seq<Device>, sharing: seq<ReplicatedResource>, plan: seq<Model>)
    requires ds != [] && GpuCallsAnswer(ds) && IsPlan(ds, sharing, plan)
    ensures plan != [] && forall i | 0 <= i < |plan| :: Stands(plan[i], ds, sharing)
    ensures (exists d | d in ds :: d.migEnabled == Ok(false)) ==> plan[|plan| - 1].device.migEnabled == Ok(false)
  {
    var p, q := PlanParts(ds, sharing, plan);
    assert ds[0] in ds;
    StandTogether(p, q, ds, sharing);
  }

  lemma {:induction false} StandTogether(p: seq<Model>, q: seq<Model>, ds: seq<Device>, sharing: seq<ReplicatedResource>)
    requires forall i | 0 <= i < |p| :: Stands(p[i], ds, sharing)
    requires forall i | 0 <= i < |q| :: Stands(q[i], ds, sharing) && q[i].device.migEnabled == Ok(false)
    ensures forall i | 0 <= i < |p + q| :: Stands((p + q)[i], ds, sharing)
    ensures q != [] ==> (p + q)[|p + q| - 1].device.migEnabled == Ok(false)
  {
  }

  /** Coherence: in whatever order the models were merged, product, count and replicas are one model's. That model is of
      a device of the node, its count is the number of its namesakes, and it is a full GPU's whenever there is a full GPU. */
  lemma GpuLabelsAreCoherent(ds: seq<Device>, sharing: seq<ReplicatedResource>, labels: Labels) returns (m: Model)
    requires ds != [] && GpuCallsAnswer(ds) && IsGpuLabels(ds, sharing, labels)
    ensures Stands(m, ds, sharing) && Decides(m, labels)
    ensures (exists d | d in ds :: d.migEnabled == Ok(false)) ==> m.device.migEnabled == Ok(false)
  {
    var plan :| IsPlan(ds, sharing, plan) && labels == PlanLabels(plan);
    PlanStands(ds, sharing, plan);
    LastModelDecides(plan);
    m := plan[|plan| - 1];
  }

  lemma CountsAll(ds: seq<Device>, sharing: seq<ReplicatedResource>, m: Model)
    requires Stands(m, ds, sharing) && forall i | 0 <= i < |ds| :: Name(ds[i]) == Name(ds[0])
    ensures m.count == |ds|
  {
    var i :| 0 <= i < |ds| && ds[i] == m.device;
    AllOfOneName(Names(ds), Name(m.device));
  }

  /** On a node with a single model the count label is the number of devices. */
  lemma SingleModelCountsAll(ds: seq<Device>, sharing: seq<ReplicatedResource>, labels: Labels)
    requires ds != [] && GpuCallsAnswer(ds) && IsGpuLabels(ds, sharing, labels)
    requires forall i | 0 <= i < |ds| :: Name(ds[i]) == Name(ds[0])
    ensures GpuKey("count") in labels && labels[GpuKey("count")] == FormatInt(|ds|)
  {
    var m := GpuLabelsAreCoherent(ds, sharing, labels);
    CountsAll(ds, sharing, m);
  }

  // ----- all labels of one model, from the devices of the node

  /** A device of each model of the node. */
  function ModelDevices(ds: seq<Device>): set<Device> {
    LastByName(WithMig(ds, true)).Values + LastByName(WithMig(ds, false)).Values
  }

  /** Those of the models that may be labelled last: full GPUs, or MIG-enabled ones if there is no full GPU. */
  function LastDevices(ds: seq<Device>): set<Device> {
    LastByName(WithMig(ds, LastByName(WithMig(ds, false)) == map[])).Values
  }

  /** Each of them has a name, memory and compute capability if any model of the node has. */
  ghost predicate EveryLastCovers(ds: seq<Device>) {
    forall d, e | d in LastDevices(ds) && e in ModelDevices(ds) :: Covers(d, e)
  }

  /** Models listed in an order of a map are of the map's devices, all of them. */
  lemma ModelsInDevices(devices: map<string, Device>, counts: map<string, nat>, sharing: Sharing, order: seq<string>)
    requires Enumerates(order, devices.Keys) && devices.Keys <= counts.Keys
    ensures forall i | 0 <= i < |order| :: ModelsIn(devices, counts, sharing, order)[i].device == devices[order[i]]
    ensures forall i | 0 <= i < |order| :: devices[order[i]] in devices.Values
    ensures forall d | d in devices.Values :: exists i :: 0 <= i < |order| && devices[order[i]] == d
    ensures order == [] <==> devices == map[]
  {
    forall d | d in devices.Values ensures exists i :: 0 <= i < |order| && devices[order[i]] == d {
      var n :| n in devices && devices[n] == d;
      assert n in devices.Keys;
    }
    if devices != map[] {
      var n :| n in devices.Keys;
      assert n in order;
    }
    assert order != [] ==> order[0] in devices;
  }

  /** The devices of a plan put together from two lists of models. */
  predicate Lists(models: seq<Model>, devices: set<Device>) {
    (forall i | 0 <= i < |models| :: models[i].device in devices) &&
    (forall d | d in devices :: exists i :: 0 <= i < |models| && models[i].device == d)
  }

  lemma ModelsInList(devices: map<string, Device>, counts: map<string, nat>, sharing: Sharing, order: seq<string>)
    requires Enumerates(order, devices.Keys) && devices.Keys <= counts.Keys
    ensures Lists(ModelsIn(devices, counts, sharing, order), devices.Values)
    ensures order == [] <==> devices == map[]
  {
    ModelsInDevices(devices, counts, sharing, order);
    var models := ModelsIn(devices, counts, sharing, order);
    forall d | d in devices.Values ensures exists i :: 0 <= i < |models| && models[i].device == d {
      var i :| 0 <= i < |order| && devices[order[i]] == d;
      assert models[i].device == d;
    }
  }

  lemma ListsBoth(p: seq<Model>, q: seq<Model>, a: set<Device>, b: set<Device>)
    requires Lists(p, a) && Lists(q, b)
    ensures Lists(p + q, a + b)
    ensures p + q != [] ==> (p + q)[|p + q| - 1].device in if q == [] then a else b
  {
    var plan := p + q;
    forall d | d in a + b ensures exists i :: 0 <= i < |plan| && plan[i].device == d {
      if d in a {
        var i :| 0 <= i < |p| && p[i].device == d;
        assert plan[i].device == d;
      } else {
        var i :| 0 <= i < |q| && q[i].device == d;
        assert plan[|p| + i].device == d;
      }
    }
  }

  /** A plan lists a device of each model, and last one of those that may come last. */
  lemma PlanLists(ds: seq<Device>, sharing: seq<ReplicatedResource>, plan: seq<Model>)
    requires IsPlan(ds, sharing, plan)
    ensures Lists(plan, ModelDevices(ds))
    ensures plan != [] ==> plan[|plan| - 1].device in LastDevices(ds)
  {
    var migs, fulls := LastByName(WithMig(ds, true)), LastByName(WithMig(ds, false));
    var migOrder, fullOrder :|
      && Enumerates(migOrder, migs.Keys) && Enumerates(fullOrder, fulls.Keys)
      && migs.Keys <= Counts(ds).Keys && fulls.Keys <= Counts(ds).Keys
      && plan == ModelsIn(migs, Counts(ds), None, migOrder) + ModelsIn(fulls, Counts(ds), Some(sharing), fullOrder);
    TwoLists(migs, fulls, Counts(ds), sharing, migOrder, fullOrder);
  }

  lemma TwoLists(migs: map<string, Device>, fulls: map<string, Device>, counts: map<string, nat>, sharing: seq<ReplicatedResource>,
                 migOrder: seq<string>, fullOrder: seq<string>)
    requires Enumerates(migOrder, migs.Keys) && Enumerates(fullOrder, fulls.Keys)
    requires migs.Keys <= counts.Keys && fulls.Keys <= counts.Keys
    ensures var plan := ModelsIn(migs, counts, None, migOrder) + ModelsIn(fulls, counts, Some(sharing), fullOrder);
      && Lists(plan, migs.Values + fulls.Values)
      && (plan != [] ==> plan[|plan| - 1].device in if fulls == map[] then migs.Values else fulls.Values)
  {
    ModelsInList(migs, counts, None, migOrder);
    ModelsInList(fulls, counts, Some(sharing), fullOrder);
    ListsBoth(ModelsIn(migs, counts, None, migOrder), ModelsIn(fulls, counts, Some(sharing), fullOrder), migs.Values, fulls.Values);
  }

  /** Any model that may come last does so in some plan. */
  lemma PlanEndingIn(ds: seq<Device>, sharing: seq<ReplicatedResource>, d: Device) returns (plan: seq<Model>)
    requires d in LastDevices(ds)
    ensures IsPlan(ds, sharing, plan) && plan != [] && plan[|plan| - 1].device == d
  {
    var migs, fulls := LastByName(WithMig(ds, true)), LastByName(WithMig(ds, false));
    CountsHold(ds);
    var migOrder, fullOrder := OrdersEndingIn(migs, fulls, d);
    plan := EndsIn(migs, fulls, Counts(ds), sharing, migOrder, fullOrder, d);
    PlanFrom(ds, sharing, migs, fulls, Counts(ds), migOrder, fullOrder);
  }

  lemma OrdersEndingIn(migs: map<string, Device>, fulls: map<string, Device>, d: Device)
      returns (migOrder: seq<string>, fullOrder: seq<string>)
    requires d in if fulls == map[] then migs.Values else fulls.Values
    ensures Enumerates(migOrder, migs.Keys) && Enumerates(fullOrder, fulls.Keys)
    ensures if fulls == map[] then fullOrder == [] && migOrder != [] && migs[migOrder[|migOrder| - 1]] == d
            else fullOrder != [] && fulls[fullOrder[|fullOrder| - 1]] == d
  {
    if fulls == map[] {
      var n :| n in migs && migs[n] == d;
      migOrder := OrderEndingIn(migs.Keys, n);
      fullOrder := [];
    } else {
      var n :| n in fulls && fulls[n] == d;
      migOrder := SomeOrder(migs.Keys);
      fullOrder := OrderEndingIn(fulls.Keys, n);
    }
  }

  lemma EndsIn(migs: map<string, Device>, fulls: map<string, Device>, counts: map<string, nat>, sharing: seq<ReplicatedResource>,
               migOrder: seq<string>, fullOrder: seq<string>, d: Device) returns (plan: seq<Model>)
    requires Enumerates(migOrder, migs.Keys) && Enumerates(fullOrder, fulls.Keys)
    requires migs.Keys <= counts.Keys && fulls.Keys <= counts.Keys
    requires if fulls == map[] then fullOrder == [] && migOrder != [] && migs[migOrder[|migOrder| - 1]] == d
             else fullOrder != [] && fulls[fullOrder[|fullOrder| - 1]] == d
    ensures plan == ModelsIn(migs, counts, None, migOrder) + ModelsIn(fulls, counts, Some(sharing), fullOrder)
    ensures plan != [] && plan[|plan| - 1].device == d
  {
    plan := ModelsIn(migs, counts, None, migOrder) + ModelsIn(fulls, counts, Some(sharing), fullOrder);
  }

  /** Every order of the Go maps labels a node with the labels of one of its models, and nothing else, exactly when each
      model that may come last has a name, memory and compute capability wherever some model of the node has. */
  lemma NodeShowsOneModelExactly(ds: seq<Device>, sharing: seq<ReplicatedResource>)
    requires ds != [] && GpuCallsAnswer(ds)
    ensures (forall plan | IsPlan(ds, sharing, plan) :: ShowsOneModel(plan)) <==> EveryLastCovers(ds)
  {
    if forall plan | IsPlan(ds, sharing, plan) :: ShowsOneModel(plan) {
      forall d, e | d in LastDevices(ds) && e in ModelDevices(ds) ensures Covers(d, e) {
        var plan := PlanEndingIn(ds, sharing, d);
        PlanStands(ds, sharing, plan);
        PlanLists(ds, sharing, plan);
        AllLabelsOfOneModelExactly(plan);
        var i :| 0 <= i < |plan| && plan[i].device == e;
        assert Covers(plan[|plan| - 1].device, plan[i].device);
      }
    }
    if EveryLastCovers(ds) {
      forall plan | IsPlan(ds, sharing, plan) ensures ShowsOneModel(plan) {
        CoveredPlan(ds, sharing, plan);
      }
    }
  }

  lemma CoveredPlan(ds: seq<Device>, sharing: seq<ReplicatedResource>, plan: seq<Model>)
    requires ds != [] && GpuCallsAnswer(ds) && EveryLastCovers(ds) && IsPlan(ds, sharing, plan)
    ensures ShowsOneModel(plan)
  {
    PlanStands(ds, sharing, plan);
    PlanLists(ds, sharing, plan);
    AllLabelsOfOneModelExactly(plan);
  }

  // ----- a node of which it fails

  lemma TwoSides(a: Device, b: Device)
    requires a.migEnabled == b.migEnabled == Ok(false)
    ensures WithMig([a, b], true) == [] && WithMig([a, b], false) == [a, b]
  {
    assert [a, b][..1] == [a] && [a][..0] == [];
    assert WithMig([a], false) == [a] && WithMig([a], true) == [];
  }

  lemma TwoNames(a: Device, b: Device)
    requires Name(a) != Name(b)
    ensures LastByName([a, b]) == map[Name(a) := a, Name(b) := b]
    ensures Names([a, b]) == [Name(a), Name(b)]
    ensures Tally([Name(a), Name(b)]) == map[Name(a) := 1, Name(b) := 1]
  {
    assert [a, b][..1] == [a] && [a][..0] == [];
    assert LastByName([a]) == map[Name(a) := a];
    assert [Name(a), Name(b)][..1] == [Name(a)] && [Name(a)][..0] == [];
    assert Tally([Name(a)]) == map[Name(a) := 1];
  }

  lemma TwoModels(a: Device, b: Device, sharing: seq<ReplicatedResource>)
    requires Name(a) != Name(b)
    ensures var devices, counts: map<string, nat> := map[Name(a) := a, Name(b) := b], map[Name(a) := 1, Name(b) := 1];
      && Enumerates([Name(a), Name(b)], devices.Keys)
      && ModelsIn(devices, counts, Some(sharing), [Name(a), Name(b)]) == [Model(Some(sharing), a, 1), Model(Some(sharing), b, 1)]
  {
  }

  lemma TwoFullGpus(a: Device, b: Device, sharing: seq<ReplicatedResource>)
    requires GpuAnswers(a) && GpuAnswers(b) && a.migEnabled == b.migEnabled == Ok(false) && Name(a) != Name(b)
    ensures GpuCallsAnswer([a, b]) && IsPlan([a, b], sharing, [Model(Some(sharing), a, 1), Model(Some(sharing), b, 1)])
  {
    var ds := [a, b];
    TwoSides(a, b);
    TwoNames(a, b);
    TwoModels(a, b, sharing);
    assert Names(WithMig(ds, true)) + Names(WithMig(ds, false)) == [Name(a), Name(b)];
    var none: map<string, Device> := map[];
    assert ModelsIn(none, Counts(ds), None, []) == [];
    PlanFrom(ds, sharing, none, LastByName(ds), Counts(ds), [], [Name(a), Name(b)]);
  }

  lemma TwoFullGpusAre(a: Device, b: Device, sharing: seq<ReplicatedResource>)
    requires GpuAnswers(a) && GpuAnswers(b) && a.migEnabled == b.migEnabled == Ok(false) && Name(a) != Name(b)
    ensures GpuCallsAnswer([a, b])
    ensures IsGpuLabels([a, b], sharing, PlanLabels([Model(Some(sharing), a, 1), Model(Some(sharing), b, 1)]))
  {
    TwoFullGpus(a, b, sharing);
    LabelsOfPlan([a, b], sharing, [Model(Some(sharing), a, 1), Model(Some(sharing), b, 1)]);
  }

  /** On a node with two full GPUs, of which one reports memory and the other none, the product and the count may be the
      latter's and the memory the former's. */
  lemma MemoryShowsThrough(a: Device, b: Device, sharing: seq<ReplicatedResource>) returns (labels: Labels)
    requires GpuAnswers(a) && GpuAnswers(b) && a.migEnabled == b.migEnabled == Ok(false) && Name(a) != Name(b)
    requires a.memoryMB.value != 0 && b.memoryMB.value == 0
    ensures GpuCallsAnswer([a, b]) && IsGpuLabels([a, b], sharing, labels) && Decides(Model(Some(sharing), b, 1), labels)
    ensures GpuKey("memory") in labels && labels[GpuKey("memory")] == FormatInt(a.memoryMB.value)
  {
    var plan := [Model(Some(sharing), a, 1), Model(Some(sharing), b, 1)];
    TwoFullGpusAre(a, b, sharing);
    FirstShowsMemory(plan);
    labels := PlanLabels(plan);
  }

  lemma FirstShowsMemory(plan: seq<Model>)
    requires |plan| == 2 && Real(plan[0]) && Real(plan[1])
    requires plan[0].device.memoryMB.value != 0 && plan[1].device.memoryMB.value == 0
    ensures Decides(plan[1], PlanLabels(plan))
    ensures GpuKey("memory") in PlanLabels(plan) && PlanLabels(plan)[GpuKey("memory")] == FormatInt(plan[0].device.memoryMB.value)
  {
    assert MEMORY !in Values(plan[1]) by {
      ValuesHave(plan[1]);
      SuffixesTell(plan[1].device);
    }
    MemoryValue(plan[0]);
    LastModelDecides(plan);
    LowerShows(plan, MEMORY);
  }

  lemma LowerShows(plan: seq<Model>, suffix: string)
    requires |plan| == 2 && Real(plan[0]) && Real(plan[1]) && suffix in Values(plan[0]) && suffix !in Values(plan[1])
    ensures GpuKey(suffix) in PlanLabels(plan) && PlanLabels(plan)[GpuKey(suffix)] == Values(plan[0])[suffix]
  {
    var layers := Layers(plan);
    PlanLabelsAreValues(plan);
    assert layers[0] == Values(plan[0]) && layers[1] == Values(plan[1]);
    OverlayOfTwo(layers);
    GpuHas(Overlay(layers), suffix);
  }

  lemma OverlayOfTwo(layers: seq<map<string, string>>)
    requires |layers| == 2
    ensures Overlay(layers) == layers[0] + layers[1]
  {
    assert layers[..1][..0] == [];
    assert Overlay(layers[..1]) == map[] + layers[0] == layers[0];
  }

  lemma MemoryValue(m: Model)
    requires Real(m) && m.device.memoryMB.value != 0
    ensures MEMORY in Values(m) && Values(m)[MEMORY] == FormatInt(m.device.memoryMB.value)
  {
  }

  /** A full GPU that answers everything. */
  function Gpu(name: string, memoryMB: nat): Device {
    Device(Ok(name), Ok(false), Ok(false), Ok([]), Err, Ok(memoryMB), Ok((8, 0)), Err)
  }

  /** One such node. */
  lemma MemoryOfAnother() returns (labels: Labels)
    ensures IsGpuLabels([Gpu("A100", 40960), Gpu("A30", 0)], [], labels)
    ensures Decides(Model(Some([]), Gpu("A30", 0), 1), labels)
    ensures GpuKey("memory") in labels && labels[GpuKey("memory")] == FormatInt(40960)
  {
    var a, b := Gpu("A100", 40960), Gpu("A30", 0);
    assert Name(a)[1] != Name(b)[1];
    labels := MemoryShowsThrough(a, b, []);
  }
}
