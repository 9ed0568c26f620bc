/** Labels for the GPU models of a node (newGPULabelers in internal/lm/mig-strategy.go). */
module GpuLabelers {
  import opened Outcomes
  import opened Labels
  import opened Managers
  import opened Configuration
  import opened Orders
  import opened Grouping
  import opened Mig
  import opened ResourceLabels

  type Sharing = Option<seq<ReplicatedResource>>

  /** One model to label: a device of it, how many there are, and whether sharing applies. */
  datatype Model = Model(sharing: Sharing, device: Device, count: nat)

  function ModelLabels(m: Model): Labels {
    if GpuAnswers(m.device) then GpuLabels(m.sharing, m.device, m.count) else map[]
  }

  /** The number of devices of each name on the node. */
  function Counts(ds: seq<Device>): map<string, nat> {
    Tally(Names(WithMig(ds, true)) + Names(WithMig(ds, false)))
  }

  function ModelOf(devices: map<string, Device>, counts: map<string, nat>, sharing: Sharing, name: string): Model
    requires name in devices && name in counts
  {
    Model(sharing, devices[name], counts[name])
  }

  function ModelsIn(devices: map<string, Device>, counts: map<string, nat>, sharing: Sharing, order: seq<string>): (ms: seq<Model>)
    requires forall i | 0 <= i < |order| :: order[i] in devices && order[i] in counts
    ensures |ms| == |order|
  {
    seq(|order|, i requires 0 <= i < |order| => ModelOf(devices, counts, sharing, order[i]))
  }

  /** The models in the order they are labelled in: those with MIG enabled, without sharing, then the full GPUs. */
  ghost predicate IsPlan(ds: seq<Device>, sharing: seq<ReplicatedResource>, plan: seq<Model>) {
    var migs, fulls := LastByName(WithMig(ds, true)), LastByName(WithMig(ds, false));
    exists migOrder, fullOrder ::
      && Enumerates(migOrder, migs.Keys) && Enumerates(fullOrder, fulls.Keys)
      && migs.Keys <= Counts(ds).Keys && fulls.Keys <= Counts(ds).Keys
      && plan == ModelsIn(migs, Counts(ds), None, migOrder) + ModelsIn(fulls, Counts(ds), Some(sharing), fullOrder)
  }

  function PlanLabels(plan: seq<Model>): Labels {
    Overlay(seq(|plan|, i requires 0 <= i < |plan| => ModelLabels(plan[i])))
  }

  /** The labels some iteration order gives for the GPUs of the node. */
  ghost predicate IsGpuLabels(ds: seq<Device>, sharing: seq<ReplicatedResource>, labels: Labels) {
    exists plan :: IsPlan(ds, sharing, plan) && labels == PlanLabels(plan)
  }

  /** Every call newGPULabelers makes answers. */
  ghost predicate GpuCallsAnswer(ds: seq<Device>) {
    var migs, fulls := LastByName(WithMig(ds, true)), LastByName(WithMig(ds, false));
    && FlagsAnswer(ds) && NamesAnswer(WithMig(ds, true)) && NamesAnswer(WithMig(ds, false))
    && (forall n | n in migs :: GpuAnswers(migs[n])) && (forall n | n in fulls :: GpuAnswers(fulls[n]))
  }

  // ----- the loops

  lemma GroupNext(ds: seq<Device>, i: nat, before: seq<string>)
    requires i < |ds|
    ensures LastByName(ds[..i + 1]) == LastByName(ds[..i])[Name(ds[i]) := ds[i]]
    ensures Tally(before + Names(ds[..i + 1])) == Bump(Tally(before + Names(ds[..i])), Name(ds[i]))
  {
    assert ds[..i + 1][..i] == ds[..i];
    assert before + Names(ds[..i + 1]) == before + Names(ds[..i]) + [Name(ds[i])];
    TallySnoc(before + Names(ds[..i]), Name(ds[i]));
  }

  /** `for _, device := range ds { name := device.GetName(); devices[name] = device; counts[name]++ }` */
  method GroupByName(m: Manager, ds: seq<Device>, ghost before: seq<string>, counts: map<string, nat>)
      returns (r: Result<(map<string, Device>, map<string, nat>)>)
    requires m.Valid() && counts == Tally(before)
    modifies m.wraps`log
    ensures m.Valid() && m.Asked()
    ensures r.Ok? <==> NamesAnswer(ds)
    ensures r.Ok? ==> r.value == (LastByName(ds), Tally(before + Names(ds)))
  {
    var devices: map<string, Device>, tally := map[], counts;
    assert before + Names(ds[..0]) == before;
    for i := 0 to |ds|
      invariant m.Valid() && m.Asked()
      invariant forall j | 0 <= j < i :: ds[j].name.Ok?
      invariant devices == LastByName(ds[..i])
      invariant tally == Tally(before + Names(ds[..i]))
    {
      var name := m.Ask(ds[i].name);
      if name.Err? {
        return Err;
      }
      GroupNext(ds, i, before);
      devices := devices[name.value := ds[i]];
      tally := Bump(tally, name.value);
    }
    assert ds[..|ds|] == ds;
    return Ok((devices, tally));
  }

  /** The labelers give the labels of the models, one for one. */
  ghost predicate Labelled(labelers: seq<Labeler>, models: seq<Model>) {
    |labelers| == |models| && forall i | 0 <= i < |models| :: Evaluate(labelers[i]) == Ok(ModelLabels(models[i]))
  }

  lemma LabelledOverlay(labelers: seq<Labeler>, models: seq<Model>)
    requires Labelled(labelers, models)
    ensures EvaluateAll(labelers) == Ok(PlanLabels(models))
  {
    EvaluateOverlay(labelers, seq(|models|, i requires 0 <= i < |models| => ModelLabels(models[i])));
  }

  lemma LabelledAppend(a: seq<Labeler>, p: seq<Model>, b: seq<Labeler>, q: seq<Model>)
    requires Labelled(a, p) && Labelled(b, q)
    ensures Labelled(a + b, p + q)
  {
  }

  lemma ModelsInSnoc(devices: map<string, Device>, counts: map<string, nat>, sharing: Sharing, order: seq<string>, name: string)
    requires forall i | 0 <= i < |order| :: order[i] in devices && order[i] in counts
    requires name in devices && name in counts
    ensures ModelsIn(devices, counts, sharing, order + [name]) ==
            ModelsIn(devices, counts, sharing, order) + [ModelOf(devices, counts, sharing, name)]
  {
  }

  method LabelModel(m: Manager, model: Model) returns (r: Result<Labeler>)
    requires m.Valid() && model.count >= 1
    modifies m.wraps`log
    ensures m.Valid() && m.Asked()
    ensures r.Ok? <==> GpuAnswers(model.device)
    ensures r.Ok? ==> Evaluate(r.value) == Ok(ModelLabels(model))
  {
    r := NewGPUResourceLabeler(m, model.sharing, model.device, model.count);
  }

  /** `for name, device := range devices { labelers = append(labelers, NewGPUResourceLabeler(...)) }` */
  method LabelModels(m: Manager, sharing: Sharing, devices: map<string, Device>, counts: map<string, nat>)
      returns (r: Result<seq<Labeler>>, ghost order: seq<string>)
    requires m.Valid() && devices.Keys <= counts.Keys && forall n | n in counts :: counts[n] >= 1
    modifies m.wraps`log
    ensures m.Valid() && m.Asked()
    ensures r.Ok? <==> forall n | n in devices :: GpuAnswers(devices[n])
    ensures r.Ok? ==> Enumerates(order, devices.Keys) && Labelled(r.value, ModelsIn(devices, counts, sharing, order))
  {
    var labelers: seq<Labeler> := [];
    ghost var models: seq<Model> := [];
    order := [];
    var left := devices.Keys;
    while left != {}
      invariant m.Valid() && m.Asked() && left <= devices.Keys
      invariant Enumerates(order, devices.Keys - left)
      invariant forall n | n in devices && n !in left :: GpuAnswers(devices[n])
      invariant Labelled(labelers, models) && models == ModelsIn(devices, counts, sharing, order)
    {
      var name :| name in left;
      var l := LabelModel(m, ModelOf(devices, counts, sharing, name));
      if l.Err? {
        return Err, order;
      }
      LabelledAppend(labelers, models, [l.value], [ModelOf(devices, counts, sharing, name)]);
      ModelsInSnoc(devices, counts, sharing, order, name);
      labelers := labelers + [l.value];
      models := models + [ModelOf(devices, counts, sharing, name)];
      EnumeratesNext(order, devices.Keys, left, name);
      order := order + [name];
      left := left - {name};
    }
    EnumeratesAll(order, devices.Keys);
    return Ok(labelers), order;
  }

  lemma CountsHold(ds: seq<Device>)
    ensures LastByName(WithMig(ds, true)).Keys <= Counts(ds).Keys
    ensures LastByName(WithMig(ds, false)).Keys <= Counts(ds).Keys
    ensures forall n | n in Counts(ds) :: Counts(ds)[n] >= 1
  {
    TallyIsMultiplicity(Names(WithMig(ds, true)) + Names(WithMig(ds, false)));
    LastByNameHolds(WithMig(ds, true));
    LastByNameHolds(WithMig(ds, false));
  }

  /** newGPULabelers. */
  method NewGPULabelers(m: Manager, sharing: seq<ReplicatedResource>) returns (r: Result<Labeler>)
    requires m.Valid()
    modifies m.wraps`log
    ensures m.Valid() && m.Asked()
    ensures m.wraps.answers.devices.Err? ==> r == Err
    ensures m.wraps.answers.devices.Ok? ==> var ds := m.wraps.answers.devices.value;
      && (r.Ok? <==> ds != [] && GpuCallsAnswer(ds))
      && (r.Ok? ==> Evaluate(r.value).Ok? && IsGpuLabels(ds, sharing, Evaluate(r.value).value))
  {
    var deviceInfo := new DeviceInfo(m);
    var devicesByMigEnabled := deviceInfo.GetDevicesMap();
    if devicesByMigEnabled.Err? {
      return Err;
    }
    ghost var ds := m.wraps.answers.devices.value;
    PartitionIsComplete(ds);
    if |devicesByMigEnabled.value| == 0 {
      assert WithMig(ds, true) == [] by {
        assert true !in Partition(ds);
      }
      assert WithMig(ds, false) == [] by {
        assert false !in Partition(ds);
      }
      assert |multiset(ds)| == 0;
      return Err;
    }
    r := LabelPartition(m, sharing, devicesByMigEnabled.value, ds);
  }

  /** The part of newGPULabelers that follows the partition of the devices. */
  method LabelPartition(m: Manager, sharing: seq<ReplicatedResource>, devicesByMigEnabled: DevicesMap, ghost ds: seq<Device>)
      returns (r: Result<Labeler>)
    requires m.Valid() && FlagsAnswer(ds) && devicesByMigEnabled == Partition(ds)
    modifies m.wraps`log
    ensures m.Valid() && m.Asked()
    ensures r.Ok? <==> GpuCallsAnswer(ds)
    ensures r.Ok? ==> Evaluate(r.value).Ok? && IsGpuLabels(ds, sharing, Evaluate(r.value).value)
  {
    var enabled, disabled := At(devicesByMigEnabled, true), At(devicesByMigEnabled, false);
    var migs := GroupByName(m, enabled, [], map[]);
    if migs.Err? {
      return Err;
    }
    assert [] + Names(enabled) == Names(enabled);
    var fulls := GroupByName(m, disabled, Names(enabled), migs.value.1);
    if fulls.Err? {
      return Err;
    }
    CountsHold(ds);
    r := LabelGroups(m, sharing, migs.value.0, fulls.value.0, fulls.value.1, ds);
  }

  /** The part of newGPULabelers that follows the grouping by name. */
  method LabelGroups(m: Manager, sharing: seq<ReplicatedResource>, migs: map<string, Device>, fulls: map<string, Device>,
                     counts: map<string, nat>, ghost ds: seq<Device>) returns (r: Result<Labeler>)
    requires m.Valid()
    requires migs == LastByName(WithMig(ds, true)) && fulls == LastByName(WithMig(ds, false)) && counts == Counts(ds)
    requires migs.Keys <= counts.Keys && fulls.Keys <= counts.Keys && forall n | n in counts :: counts[n] >= 1
    modifies m.wraps`log
    ensures m.Valid() && m.Asked()
    ensures r.Ok? <==> (forall n | n in migs :: GpuAnswers(migs[n])) && (forall n | n in fulls :: GpuAnswers(fulls[n]))
    ensures r.Ok? ==> Evaluate(r.value).Ok? && IsGpuLabels(ds, sharing, Evaluate(r.value).value)
  {
    var migLabelers, migOrder := LabelModels(m, None, migs, counts);
    if migLabelers.Err? {
      return Err;
    }
    var fullLabelers, fullOrder := LabelModels(m, Some(sharing), fulls, counts);
    if fullLabelers.Err? {
      return Err;
    }
    GroupsAreLabelled(ds, sharing, migs, fulls, counts, migOrder, fullOrder, migLabelers.value, fullLabelers.value);
    var labels := ListLabels(migLabelers.value + fullLabelers.value);
    r := Ok(Fixed(labels.value));
    assert Evaluate(r.value) == EvaluateAll(migLabelers.value + fullLabelers.value);
  }

  lemma {:induction false} GroupsAreLabelled(ds: seq<Device>, sharing: seq<ReplicatedResource>,
                                             migs: map<string, Device>, fulls: map<string, Device>,
                                             counts: map<string, nat>, migOrder: seq<string>, fullOrder: seq<string>,
                                             migLabelers: seq<Labeler>, fullLabelers: seq<Labeler>)
    requires migs == LastByName(WithMig(ds, true)) && fulls == LastByName(WithMig(ds, false)) && counts == Counts(ds)
    requires migs.Keys <= counts.Keys && fulls.Keys <= counts.Keys
    requires Enumerates(migOrder, migs.Keys) && Enumerates(fullOrder, fulls.Keys)
    requires Labelled(migLabelers, ModelsIn(migs, counts, None, migOrder))
    requires Labelled(fullLabelers, ModelsIn(fulls, counts, Some(sharing), fullOrder))
    ensures EvaluateAll(migLabelers + fullLabelers).Ok?
    ensures IsGpuLabels(ds, sharing, EvaluateAll(migLabelers + fullLabelers).value)
  {
    var migModels := ModelsIn(migs, counts, None, migOrder);
    var fullModels := ModelsIn(fulls, counts, Some(sharing), fullOrder);
    LabelledAppend(migLabelers, migModels, fullLabelers, fullModels);
    LabelledOverlay(migLabelers + fullLabelers, migModels + fullModels);
    PlanFrom(ds, sharing, migs, fulls, counts, migOrder, fullOrder);
    LabelsOfPlan(ds, sharing, migModels + fullModels);
  }

  lemma {:induction false} PlanFrom(ds: seq<Device>, sharing: seq<ReplicatedResource>, migs: map<string, Device>,
                                    fulls: map<string, Device>, counts: map<string, nat>, migOrder: seq<string>,
                                    fullOrder: seq<string>)
    requires migs == LastByName(WithMig(ds, true)) && fulls == LastByName(WithMig(ds, false)) && counts == Counts(ds)
    requires migs.Keys <= counts.Keys && fulls.Keys <= counts.Keys
    requires Enumerates(migOrder, migs.Keys) && Enumerates(fullOrder, fulls.Keys)
    ensures IsPlan(ds, sharing, ModelsIn(migs, counts, None, migOrder) + ModelsIn(fulls, counts, Some(sharing), fullOrder))
  {
  }

  lemma {:induction false} LabelsOfPlan(ds: seq<Device>, sharing: seq<ReplicatedResource>, plan: seq<Model>)
    requires IsPlan(ds, sharing, plan)
    ensures IsGpuLabels(ds, sharing, PlanLabels(plan))
  {
  }
}
