/** The time-slicing part of the configuration and its normalisation (cmd/gpu-feature-discovery/main.go). */
module Configuration {

  const SHARED_SUFFIX := ".shared"

  datatype ReplicatedDevices = ReplicatedDevices(all: bool, count: int, list: seq<string>)

  datatype ReplicatedResource = ReplicatedResource(name: string, rename: string, devices: ReplicatedDevices, replicas: int) {
    function DefaultSharedRename(): string {
      name + SHARED_SUFFIX
    }
  }

  /** The resource can no longer be renamed other than by default, and stands for all devices. */
  predicate Plain(r: ReplicatedResource, renameByDefault: bool) {
    r.rename == (if renameByDefault then r.DefaultSharedRename() else "") && r.devices.all
  }

  /** What normalisation must not lose. */
  predicate SameSharing(a: ReplicatedResource, b: ReplicatedResource) {
    a.name == b.name && a.replicas == b.replicas
  }

  class Config {
    var gpus: seq<string>
    var migs: seq<string>
    var renameByDefault: bool
    var resources: seq<ReplicatedResource>

    constructor (gpus: seq<string>, migs: seq<string>, renameByDefault: bool, resources: seq<ReplicatedResource>)
      ensures this.gpus == gpus && this.migs == migs
      ensures this.renameByDefault == renameByDefault && this.resources == resources
    {
      this.gpus, this.migs, this.renameByDefault, this.resources := gpus, migs, renameByDefault, resources;
    }

    ghost predicate Normalised()
      reads this
    {
      gpus == [] && migs == [] && forall i | 0 <= i < |resources| :: Plain(resources[i], renameByDefault)
    }

    /** disableResourceRenamingInConfig. Names, replicas, order and `renameByDefault` stay; resources that were plain
        stay as they are, so normalising twice is normalising once. */
    method DisableResourceRenaming()
      modifies this
      ensures Normalised() && renameByDefault == old(renameByDefault)
      ensures |resources| == |old(resources)|
      ensures forall i | 0 <= i < |resources| :: SameSharing(resources[i], old(resources)[i])
      ensures forall i | 0 <= i < |resources| :: Plain(old(resources)[i], renameByDefault) ==> resources[i] == old(resources)[i]
      ensures forall i | 0 <= i < |resources| :: resources[i].devices ==
                if old(resources)[i].devices.all then old(resources)[i].devices else ReplicatedDevices(true, 0, [])
      ensures old(Normalised()) ==> resources == old(resources) && gpus == old(gpus) && migs == old(migs)
    {
      gpus, migs := [], [];
      for i := 0 to |resources|
        invariant |resources| == |old(resources)| && renameByDefault == old(renameByDefault)
        invariant gpus == [] && migs == []
        invariant forall j | i <= j < |resources| :: resources[j] == old(resources)[j]
        invariant forall j | 0 <= j < i :: Plain(resources[j], renameByDefault) && SameSharing(resources[j], old(resources)[j])
        invariant forall j | 0 <= j < i :: Plain(old(resources)[j], renameByDefault) ==> resources[j] == old(resources)[j]
        invariant forall j | 0 <= j < i :: resources[j].devices ==
                    if old(resources)[j].devices.all then old(resources)[j].devices else ReplicatedDevices(true, 0, [])
      {
        var r := resources[i];
        if !renameByDefault && r.rename != "" {
          resources := resources[i := resources[i].(rename := "")];
        }
        if renameByDefault && r.rename != r.DefaultSharedRename() {
          resources := resources[i := resources[i].(rename := r.DefaultSharedRename())];
        }
        if !r.devices.all {
          resources := resources[i := resources[i].(devices := ReplicatedDevices(true, 0, []))];
        }
      }
    }
  }
}
