# GPU Feature Discovery: a verified model

GPU Feature Discovery labels a Kubernetes node with what its NVIDIA devices are. It asks a device manager for the GPUs
and their MIG devices, reads vGPU information out of PCI configuration space, merges the labels of all its sources, and
publishes them, once or again and again, in a file that another process reads. This project models that program in Dafny
and proves what its parts promise together. `dafny verify dfyconfig.toml` checks all of it.

| file | what it models |
|---|---|
| `Outcomes.dfy`, `Strings.dfy`, `Orders.dfy` | result types, the parts of Go's `strings` and `fmt` in use, iteration orders of Go maps |
| `Pci.dfy` | the capability list of section 6.7 of the PCI Local Bus Specification, Revision 3.0, and its walk |
| `Vgpu.dfy`, `VgpuEncoding.dfy` | vGPU records, their labels, and an encoder that the readers undo |
| `Labels.dfy`, `Printer.dfy` | label sets, `Merge`, the printer and the parser of its output |
| `Config.dfy`, `Manager.dfy`, `Mig.dfy` | time-slicing configuration, managers and devices, the `DeviceInfo` cache |
| `ResourceLabels.dfy`, `Grouping.dfy`, `GpuLabelers.dfy`, `GpuCoherence.dfy` | labels of a GPU model, of a node with several |
| `MigProfiles.dfy`, `MixedOrder.dfy`, `SingleStrategy.dfy` | labels of MIG profiles under the mixed and the single strategy |
| `NodeLabels.dfy`, `NodeCoherence.dfy` | all labels of a node, from Init to Shutdown |
| `AtomicFile.dfy`, `Daemon.dfy` | publication of the file, step by step, and the run loop |

## How to read it

- A Go string is a sequence of bytes, one `char` each. Error texts are not modelled: a failing call is `Err`. A call that
  may index out of range or never return is an `Outcome`, which can be `Panicked` or `Hangs`.
- A loop over a Go map takes some key out of those left, any one, until none is left. Contracts say what holds for every
  order, or that some order exists.
- What the library, the operating system and the clock do is a parameter or an arbitrary choice. The answers of a manager
  and its devices may change with every Init and stay the same until the next.
- A call on a device is recorded in the log of its manager, as a `Query`.
- Where the source writes one long function, the model may give a stage of it a name of its own; the comment says which.

## What turned out

- The capability walk stops at the first repeated position and still misses nothing. It panics exactly when a header it
  reaches lies outside the configuration space, or the capability it returns ends beyond the capacity of the slice that
  holds that space (`Pci.CapabilityExactly`).
- `GetInfo` loops forever on a record of length zero that is not the driver version record, and only then
  (`Vgpu.HangsExactly`; `VgpuEncoding.SevenBytesHang` is an instance). It panics exactly when its records lead outside the
  capability (`Vgpu.FailuresExactly`), as they do at once in a capability of five bytes (`Vgpu.SignatureAlonePanics`).
- A driver string survives its ten-byte field exactly when it is ASCII without NUL at either end
  (`VgpuEncoding.FieldRoundTrip`): `string(b)` turns a byte from 0x80 on into two.
- Product, count and replicas of a node with several GPU models belong to one model. The other GPU labels need not: a model
  that reports no memory or no compute capability lets an overridden model's labels through.
  `GpuCoherence.NodeShowsOneModelExactly` says for which nodes that cannot happen, `GpuCoherence.MemoryOfAnother` is a node
  on which it can. A model without a name has no product label of its own.
- The new output file has mode 0600 from the rename to the chmod, and keeps it if the chmod fails: `WriteFile` does not
  change the mode of the file `CreateTemp` has made. A failed chmod is reported although the new content is in place.
- The comment on `AnyMigEnabledDeviceIsEmpty` says it asks for at least one empty device; for a node without MIG-enabled
  devices the code answers true. The model follows the code.

## Model

| member | source | states |
|---|---|---|
| Pci.GetVendorSpecificCapability | internal/vgpu/pciutil.go:115-149 | The walk with its `visited` array returns what the unbounded capability list holds, for any bytes, after following exactly the links up to where the list first stops or repeats a position, which are at most 255. |
| Pci.StopsOrRepeats | internal/vgpu/pciutil.go:124-146 | The pigeonhole behind that bound: every list, whatever its bytes, stops or repeats a position after at most 255 links. |
| Pci.CapabilityExactly | internal/vgpu/pciutil.go:120-148 | With the status bit set: nothing is found iff no vendor capability and no header outside the space lies at any distance; a capability is found iff it is the slice of a vendor node at some distance; and the walk panics iff a header outside the space, or a vendor node whose slice exceeds the capacity, lies at some distance. |
| Pci.WalkByBytes | internal/vgpu/pciutil.go:120-148 | By offsets and bytes: a list that leads from the pointer at 0x34 to 0, out of the space, to id 0xff or to id 9 gives nothing, a panic, nothing, or as many bytes as its length byte says; and nothing at all without bit 4 of the byte at 6. |
| Pci.StatusBit | internal/vgpu/pciutil.go:120-122 | That bit alone announces the list, whatever the others are. |
| Pci.LoopNeverEnds | internal/vgpu/pciutil.go:131-134 | A list that comes back to an earlier position has no end, broken entry or vendor capability at any distance. |
| Pci.EndIsUnique | internal/vgpu/pciutil.go:126-146 | A list stops at one distance only. |
| Vgpu.GetInfo | internal/vgpu/vgpu.go:108-153 | On every capability the record loop returns what the unbounded record list holds, errors and panics included, or loops forever where that list has no end. |
| Vgpu.HaltsExactly | internal/vgpu/vgpu.go:117-124 | The record list stops iff no reachable record other than the driver version record has length zero. |
| Vgpu.InfoExactly | internal/vgpu/vgpu.go:126-145 | Information is returned iff the list reaches a driver version record with 22 bytes left, and is that record's two trimmed fields. |
| Vgpu.FailuresExactly | internal/vgpu/vgpu.go:116-145 | It panics iff the list reaches a record outside the capability, and reports an error iff it reaches a driver version record with fewer than 22 bytes left. |
| Vgpu.SignatureAlonePanics | internal/vgpu/vgpu.go:116-116 | A vGPU capability that ends with its signature makes it panic. |
| Vgpu.HangsExactly | internal/vgpu/vgpu.go:117-124 | It never returns iff the list reaches a record of length zero that is not the driver version record; the list is at that record ever after. |
| Vgpu.ReadRunes | internal/vgpu/vgpu.go:132-139 | The loops over a field append the UTF-8 encoding of its bytes. |
| Vgpu.RuneOfTwoBytes | internal/vgpu/vgpu.go:132-139 | A byte from 0x80 on becomes the two bytes that encode it. |
| Vgpu.Devices | internal/vgpu/vgpu.go:66-90 | The vGPUs of whatever the PCI library answers, for every failure; which those are is said by VgpusExactly. |
| Vgpu.VgpusExactly | internal/vgpu/vgpu.go:72-106 | The vGPUs are the devices with a capability of at least five bytes and 0x56, 0x46 at 3 and 4: these and no others, in order, each with its capability. |
| Vgpu.FirstUnreadableDecides | internal/vgpu/vgpu.go:74-77 | The first device that cannot be read decides how the search fails. |
| Vgpu.ReadLabels | internal/lm/vgpu.go:37-55 | The vGPU labels for all PCI answers; the first vGPU that cannot be read decides the failure, panic or hang. |
| Vgpu.LastVgpuIsLabelled | internal/lm/vgpu.go:37-55 | In any mix of vGPUs and other devices the labels are those of the last vGPU, and there are none without one. |
| VgpuEncoding.FieldRoundTrip | internal/vgpu/vgpu.go:131-140 | A string padded to its field is read back unchanged iff it is ASCII without NUL at either end. |
| Strings.TrimCuts | internal/vgpu/vgpu.go:135-140 | Trimming cuts off NUL bytes at both ends and nothing else. |
| VgpuEncoding.RecordsRoundTrip | internal/vgpu/vgpu.go:117-140 | Whatever records come before and after the driver version record, its fields are found. |
| VgpuEncoding.RecordsDecide | internal/vgpu/vgpu.go:116-145 | By bytes: whatever records come before, the bytes at which the list arrives decide between the two fields, an error, a panic and a hang. |
| VgpuEncoding.ChainRoundTrip | internal/vgpu/pciutil.go:120-146 | The walk finds the capability laid out at the end of any chain that does not overlap itself, with any status byte that has the bit, and nothing with any other. |
| VgpuEncoding.EncodedDeviceAnswers | internal/vgpu/vgpu.go:72-106 | A device found through any chain gives the labels of its records if its capability is signed and the status bit set, and none otherwise. |
| VgpuEncoding.EncodedDeviceCarries | internal/vgpu/vgpu.go:66-153 | End to end, from the configuration space to the strings: an encoded device is read as a vGPU with exactly those strings iff they are storable and the status bit is set. |
| VgpuEncoding.EncodedDeviceIsLabelled | internal/lm/vgpu.go:37-55 | Its three labels, key by key. |
| VgpuEncoding.EncodedDeviceHangs | internal/vgpu/vgpu.go:117-124 | A device found through any acyclic chain, whose records lead to one of length zero, makes the vGPU labels hang. |
| VgpuEncoding.EncodedDevicePanics | internal/vgpu/vgpu.go:116-124 | One whose records lead out of the capability without a driver version record makes them panic. |
| VgpuEncoding.SevenBytesHang | internal/vgpu/vgpu.go:117-124 | A concrete configuration space on which the vGPU labels hang. |
| Labels.CopyInto | internal/lm/list.go:40-42 | Copying key by key, in any order, is overriding. |
| Labels.ListLabels | internal/lm/list.go:33-46 | The loops of a list give the right-biased merge, or fail. |
| Labels.MergeIsFlat | internal/lm/list.go:25-46 | Nested merges equal the one merge of their leaves. |
| Labels.MergeIsMonoid | internal/lm/list.go:25-46 | Merge is associative, and `empty` is its identity. |
| Labels.FailsWithSome | internal/lm/list.go:36-39 | A merge fails iff one of its labelers fails. |
| Labels.MergeTakesTheLast | internal/lm/list.go:31-42 | A key is in a merge iff some labeler sets it, and has the value the last such labeler gives it. |
| Printer.WriteTo | internal/lm/labels.go:79-90 | The output is the lines of all labels in some order, one line a label, and the total is its length; on a writer that fails when full, what fits of such lines, and the total of that. |
| Printer.OneLine | internal/lm/labels.go:82-82 | A label is printed as its key, '=', its value and a newline. |
| Printer.BuildLabelMapFromOutput | cmd/gpu-feature-discovery/main_test.go:382-401 | The parser's loop parses line by line and rejects malformed and repeated lines. |
| Printer.ParsesExactly | cmd/gpu-feature-discovery/main_test.go:385-398 | Lines are parsed iff each has exactly one '=' and no two have the same key. |
| Printer.ParsesEachLine | cmd/gpu-feature-discovery/main_test.go:387-397 | Each label is then what its line says. |
| Printer.RoundTripExactly | internal/lm/labels.go:79-90 | For every printing order, parsing the output gives the map back iff the map is not empty and no key or value holds '=' or a newline. |
| Managers.BracketConforms | internal/lm/nvml.go:30-33 | Calls made in brackets (a failed Init; or Init, queries, one Shutdown) keep every query inside a successful Init, over any number of brackets. |
| Managers.BracketCounts | internal/lm/nvml.go:30-33 | A bracket initialises the library exactly once, unless its Init fails. |
| Managers.CallsAreInTime | internal/lm/nvml.go:30-33 | What that means: every query and every Shutdown comes after a successful Init with nothing but queries between, and every Init after nothing, a Shutdown or a failed Init. |
| Managers.Manager.constructor | internal/resource/factory.go:32-38 | A manager starts with the original library in use. |
| Managers.Manager.Init | internal/resource/fallback.go:37-44 | With fallback Init never fails, a failed Init makes the null manager the one in use, and that is for good. |
| Managers.Manager.Shutdown | internal/resource/fallback.go:47-49 | Shutdown reaches the manager in use, and only it. |
| Managers.Manager.GetDevices | internal/resource/fallback.go:52-54 | The devices are those of the manager in use, at the price of one query. |
| Configuration.Config.DisableResourceRenaming | cmd/gpu-feature-discovery/main.go:244-278 | Normalisation makes every resource plain, keeps names, replicas and order, and changes nothing that is already normalised. |
| ResourceLabels.SharedExactly | internal/lm/resource.go:159-226 | Under a normalised configuration a product label ends in SHARED iff its replicas label exceeds one and resources are not renamed by default. |
| ResourceLabels.FirstNamedExactly | internal/lm/resource.go:215-226 | The replication info is the first entry with the resource's name; there is none iff no entry has it. |
| ResourceLabels.ReplicasExactly | internal/lm/resource.go:182-226 | Replicas are the number in that entry if it exceeds one, one if it does not or there is none, zero without sharing; the product is marked iff it exceeds one and the entry does not rename. |
| ResourceLabels.GpuValuesSay | internal/lm/resource.go:36-73 | The values of a GPU model under their suffixes, product, count, replicas, memory and architecture, each with the condition for it. |
| ResourceLabels.GpuLabelsSay | internal/lm/resource.go:114-148 | A label "nvidia.com/gpu." with a suffix is there iff the suffix has a value, and has that value. |
| ResourceLabels.GpuLabelsSayNoMore | internal/lm/resource.go:144-148 | A GPU has no labels with another prefix. |
| ResourceLabels.MigValuesSay | internal/lm/resource.go:76-111 | The values of a MIG profile under their suffixes, the attributes overriding what has their name. |
| ResourceLabels.AttributesSay | internal/lm/resource.go:228-239 | Each attribute of a MIG device has its value, printed. |
| ResourceLabels.ResourceLabeler.LabelsOf | internal/lm/resource.go:127-142 | Writing suffixes in any order prefixes every one of them. |
| ResourceLabels.ResourceLabeler.ProductLabel | internal/lm/resource.go:159-176 | The product label joins the non-empty parts and the sharing mark. |
| Strings.DashedJoins | internal/lm/resource.go:163-163 | Replacing the spaces of a part is joining what they separate with dashes. |
| ResourceLabels.ResourceLabeler.PrefixedHas | internal/lm/resource.go:144-148 | A label of the resource exists iff its suffix has a value, and has that value. |
| ResourceLabels.NewGPUResourceLabeler | internal/lm/resource.go:36-73 | The labeler of a GPU model exists iff the calls on the device answer, and evaluates to base, memory and architecture labels. |
| ResourceLabels.NewMIGResourceLabeler | internal/lm/resource.go:76-111 | The labeler of a MIG profile exists iff the calls on the device and its parent answer, and evaluates to base and attribute labels. |
| Strings.DecimalRoundTrip | internal/lm/resource.go:141 | A printed number determines the number. |
| Strings.DecimalInstance | internal/lm/resource.go:141-141 | Numbers in which every digit occurs, printed. |
| Mig.PartitionIsComplete | internal/mig/mig.go:51-59 | The two sides of the partition hold each device of the list once. |
| Mig.SideIsSorted | internal/mig/mig.go:51-59 | Each side holds exactly the devices of its mode, in the order of the list. |
| Mig.DeviceInfo.GetDevicesMap | internal/mig/mig.go:41-64 | The first successful call fills the cache with the partition of the list read; later calls ask nothing; a failed call leaves the cache unset. |
| Mig.DeviceInfo.GetDevicesWithMigEnabled | internal/mig/mig.go:67-73 | The enabled side of the list the cache answers from. |
| Mig.DeviceInfo.GetDevicesWithMigDisabled | internal/mig/mig.go:76-82 | The disabled side of the list the cache answers from. |
| Mig.DeviceInfo.AnyMigEnabledDeviceIsEmpty | internal/mig/mig.go:85-106 | True iff there is no enabled device or an empty one comes before any that fails; false iff all are populated. |
| Mig.AnyIsEmpty | internal/mig/mig.go:91-105 | The same of the loop over the enabled devices. |
| Mig.DeviceInfo.GetAllMigDevices | internal/mig/mig.go:109-124 | The MIG devices of all enabled devices, iff every one lists its own; what that list holds is said by MigsAreBlocks. |
| Mig.MigsAreBlocks | internal/mig/mig.go:115-122 | The list consists of the MIG devices of each device as one block, in the order of the devices, from end to end without gaps. |
| Mig.MigsAreCounted | internal/mig/mig.go:109-124 | It has as many as the MIG-enabled devices of the node have in sum. |
| Mig.NamesAreCounted | internal/mig/mig.go:109-124 | So it has of each name. |
| Grouping.TallyIsMultiplicity | internal/lm/mig-strategy.go:125-144 | A name is counted once for each of its occurrences. |
| Grouping.CountsSumUp | internal/lm/mig-strategy.go:125-144 | Summed in any order, the counts are the number of devices counted. |
| GpuLabelers.GroupByName | internal/lm/mig-strategy.go:127-144 | The loops keep the last device of each name and count every one. |
| Grouping.LastByNameIsLast | internal/lm/mig-strategy.go:127-133 | The device kept for a name is the last one of that name. |
| GpuLabelers.LabelModels | internal/lm/mig-strategy.go:157-176 | One labeler for each model, in some order of the map. |
| GpuLabelers.NewGPULabelers | internal/lm/mig-strategy.go:113-179 | Succeeds iff there is a device and every call answers; the labels are those of the MIG-enabled models without sharing, overridden by those of the full GPUs, in some order. |
| GpuCoherence.CountsAreMultiplicities | internal/lm/mig-strategy.go:125-144 | Each model's count is the number of devices of its name, with MIG or without, and the counts sum to the number of devices. |
| GpuCoherence.GpuLabelsAreCoherent | internal/lm/mig-strategy.go:154-178 | For every order, product, count and replicas are those of one model of the node, a full GPU's whenever there is one. |
| GpuCoherence.SingleModelCountsAll | internal/lm/mig-strategy.go:113-179 | With a single model the count label is the number of devices. |
| GpuCoherence.LastModelDecides | internal/lm/resource.go:66-70 | The model labelled last decides product, count and replicas. |
| GpuCoherence.AllLabelsOfOneModelExactly | internal/lm/resource.go:61-70 | In one order of the maps all GPU labels are the last model's iff it has a name, memory and compute capability wherever another model has. |
| GpuCoherence.NodeShowsOneModelExactly | internal/lm/mig-strategy.go:154-178 | In every order of the maps all GPU labels are one model's iff each model of the node that can be labelled last (full GPUs, or MIG-enabled ones without them) has a name, memory and compute capability wherever some model has. |
| GpuCoherence.MemoryShowsThrough | internal/lm/resource.go:61-64 | On a node with two full GPUs of different names, one without memory, labels can show the product and count of the latter and the memory of the former. |
| GpuCoherence.MemoryOfAnother | internal/lm/resource.go:61-64 | A concrete node with such labels. |
| MigProfiles.GroupHolds | internal/lm/mig-strategy.go:275-292 | Each profile is counted once for each MIG device of its name, under its resource name. |
| MigProfiles.GroupKeepsFirst | internal/lm/mig-strategy.go:282-287 | A profile is labelled from the first MIG device of its name. |
| MigProfiles.ProfileCountsSumUp | internal/lm/mig-strategy.go:275-292 | In any order, the profile counts sum to the number of MIG devices. |
| MigProfiles.GroupByProfile | internal/lm/mig-strategy.go:216-233 | The loops over the MIG devices group them, iff every name answers. |
| MigProfiles.NewMIGDeviceLabelers | internal/lm/mig-strategy.go:297-309 | The labels of all profiles, laid over one another in some order of the map. |
| MigProfiles.NewMigStrategyMixedLabeler | internal/lm/mig-strategy.go:264-295 | Succeeds iff every call answers, with the labels of all profiles of the node merged in some order. |
| MixedOrder.UniqueDecoding | internal/lm/resource.go:144-148 | A key made of a resource name and a suffix has no other reading. |
| MixedOrder.ProfilesAreDisjoint | internal/lm/mig-strategy.go:286 | Different profiles never write the same label. |
| MixedOrder.ProfileKeepsLabels | internal/lm/mig-strategy.go:297-309 | In every order each profile keeps all its labels. |
| MixedOrder.MixedLabelsAreDetermined | internal/lm/mig-strategy.go:294-309 | Labels merged in any two orders are equal. |
| SingleStrategy.VerdictExactly | internal/lm/mig-strategy.go:181-241 | From the devices of the node: no override iff no device has MIG enabled; invalid iff one has and an enabled device is empty, a device has MIG disabled, or two MIG devices differ in name; else all MIG devices of the node counted. |
| SingleStrategy.SomeMig | internal/lm/mig-strategy.go:235-236 | The last test never meets an empty map. |
| SingleStrategy.OneProfile | internal/lm/mig-strategy.go:216-236 | There is one resource iff all MIG devices have one name, and it counts them all. |
| SingleStrategy.NewInvalidMigStrategyLabeler | internal/lm/mig-strategy.go:243-262 | The labels of an invalid setup: product INVALID, and count, replicas and memory zero. |
| SingleStrategy.NewMigStrategySingleLabeler | internal/lm/mig-strategy.go:181-241 | Whatever it yields are the labels of the verdict on the devices, and it yields something whenever every call answers. |
| NodeLabels.NewMigLabeler | internal/lm/mig-strategy.go:84-110 | The strategy label and the labels of the strategy; an unknown strategy fails. |
| NodeLabels.NewResourceLabeler | internal/lm/mig-strategy.go:45-77 | GPU labels overridden by those of the strategy; none, for any strategy, on a node without devices; failure for an unknown strategy otherwise. |
| NodeLabels.NewVersionLabeler | internal/lm/nvml.go:75-106 | Version labels iff both queries answer and the driver version has two or three parts. |
| NodeLabels.VersionsExactly | internal/lm/nvml.go:76-94 | There are version labels iff both queries answer and the driver version has one dot or two. |
| NodeLabels.VersionLabelsSay | internal/lm/nvml.go:81-104 | Which part of "X.Y" and "X.Y.Z" goes under which key. |
| NodeLabels.NewMigCapabilityLabeler | internal/lm/nvml.go:110-138 | The label is true iff some device is capable; it fails iff a failing call comes before any capable device. |
| NodeLabels.CapabilitySays | internal/lm/nvml.go:123-136 | The label of a node with devices is "true" if some device is capable, and "false" if none is. |
| NodeLabels.MachineSays | internal/lm/machine-type.go:37-39 | The machine type under its key, its spaces dashes. |
| NodeLabels.LabelWhileUp | internal/lm/nvml.go:35-71 | Between Init and Shutdown there are queries only, what they yield are the labels of the node, and they yield them whenever every call answers. |
| NodeLabels.NewNVMLLabeler | internal/lm/nvml.go:29-72 | On every path the calls form one bracket; after a fallback there are no labels and no error; it fails only if Init or a call on the manager or its devices fails; the labeler evaluates without another call. |
| NodeLabels.NothingFails | internal/lm/nvml.go:29-72 | If no call on a device fails and there is a version, no call fails under any of the three strategies. |
| NodeCoherence.NoSourceLosesALabel | internal/lm/nvml.go:64-69 | Machine, version, capability and resource labels all show unchanged, apart from timestamp and vGPU labels. |
| NodeCoherence.NodeLabelsStayInside | internal/lm/labeler.go:39-42 | Whatever the devices report, node labels never use the keys of the timestamp or of vGPUs. |
| NodeCoherence.GpuLabelsShow | internal/lm/mig-strategy.go:61-76 | Without a strategy and under the mixed one all GPU labels show unchanged in the resource labels, whatever attributes the MIG devices have. |
| NodeCoherence.NodeIsCoherent | internal/lm/mig-strategy.go:45-77 | In the whole label set of a node without a strategy or under the mixed one, product, count and replicas are one model's, a full GPU's whenever there is one. |
| NodeCoherence.SingleStrategyShows | internal/lm/mig-strategy.go:70-73 | In the merged labels the single strategy changes nothing but the strategy label without MIG, zeroes an invalid setup and names its first MIG-enabled device, and else counts all MIG devices of the node. |
| NodeCoherence.MixedStrategyShows | internal/lm/mig-strategy.go:264-309 | In the merged labels each profile of the node has a count label of its own, which says how many MIG devices of that name its MIG-enabled devices have. |
| NodeCoherence.NodeProfiles | internal/lm/mig-strategy.go:275-292 | Conservation over the node: the profiles counted are those of its MIG-enabled devices, each as often as it occurs, in sum as many as they have MIG devices. |
| AtomicFile.AlwaysSafe | internal/lm/labels.go:92-138 | The invariant of all interleavings of the writer, killed and restarted at will, and a reader. |
| AtomicFile.ReadIsSnapshot | internal/lm/labels.go:92-138 | Whoever reads the output file to its end has read what it held, complete, when it was opened. |
| AtomicFile.TargetIsOldOrNew | internal/lm/labels.go:92-138 | At every moment of a publication the output file is, up to the rename, the one it was when this publication started, content and mode, and holds all of the new content from then on; with which mode, and without a temporary file after a failure. |
| AtomicFile.StepKeepsInv | internal/lm/labels.go:101-132 | Every step keeps the invariant and every content published before. |
| AtomicFile.WriteFileAtomically | internal/lm/labels.go:92-138 | Its system calls are steps of the writer, from start to end, cleanup included, and which of them fail decides exactly how it ends: no directory, failed before the rename, failed after it, or published. |
| AtomicFile.EndingsMean | internal/lm/labels.go:101-132 | Which calls fail, for each of these endings. |
| AtomicFile.PublicationOutcome | internal/lm/labels.go:92-138 | A publication puts the whole new content in place, with which mode, or leaves the old file as it was; and no temporary directory after a failure from CreateTemp on. |
| Daemon.Output | internal/lm/labels.go:49-76 | With the API switched on the labels go there and nowhere else; without it and without a path to standard output, printed; and else to the file, which shows them iff every call up to the rename succeeds, even if the chmod fails and an error is returned, and is as before, content and mode, in all other cases. It succeeds iff no call fails. |
| Daemon.FileCanBeParsed | cmd/gpu-feature-discovery/main_test.go:382-401 | A file that shows a clean label set is parsed to that label set. |
| Daemon.Generate | cmd/gpu-feature-discovery/main.go:168-181 | The labels of a pass are the timestamp, then labels of the node, then those of its vGPUs; after a fallback nothing of the node; it fails, panics or hangs only if one of these sources does. |
| Daemon.RunOnce | cmd/gpu-feature-discovery/main.go:167-191 | One pass: what it hands over, what becomes of it, how often the library is initialised, and what made it fail if it fails. |
| Daemon.AfterPass | cmd/gpu-feature-discovery/main.go:193-216 | What ends a run after a pass: an error, being oneshot, or a signal, of which only SIGHUP asks for a restart. |
| Daemon.KeepBooks | cmd/gpu-feature-discovery/main.go:165-216 | The induction over the passes: a pass that goes as RunOnce says keeps the account of labels handed over, initialisations, file and outlet. |
| Daemon.RemoveOutputFile | cmd/gpu-feature-discovery/main.go:220-240 | The file and the temporary directory are gone iff neither removal fails, and the file is untouched otherwise; it reports success iff there was a file to remove. |
| Daemon.Run | cmd/gpu-feature-discovery/main.go:156-218 | For every script: one timestamp on all label sets, restart iff SIGHUP, one pass if oneshot, the library between Init and Shutdown only; the label sets handed over before the manager fell back are as many as the library was successfully initialised for, and all later ones hold nothing of the node; the file shows the last label set during the run and is gone after it; a run fails, crashes or hangs only because a source of labels or their publication did. |
| Daemon.HandedMean | internal/lm/timestamp.go:29-37 | Each label set of a run has the timestamp of the run under its key, or none if there is to be none; those after a fallback have no other labels but those of vGPUs. |
| Daemon.EndsMean | cmd/gpu-feature-discovery/main.go:188-216 | A restart is asked for iff SIGHUP ended a run that is not oneshot; every pass but the last was followed by the timeout. |
| Daemon.CausesMean | cmd/gpu-feature-discovery/main.go:168-189 | What failed in the last pass of a run that ended with an error, and that only the records of a vGPU crash or hang it. |
| Daemon.Start | cmd/gpu-feature-discovery/main.go:117-154 | Every run but the last was ended by SIGHUP, and the file does not outlive the program, whatever flags each reload finds. |

## Left out

- Reading /sys, the machine type file, the command line, the configuration file and the Kubernetes API: their results are parameters.
- NVML and CUDA themselves, and which of them is chosen: a manager gives arbitrary answers, fixed from one Init to the next.
- MixedOrder.MixedLabelsAreDetermined: for MIG devices that report no attributes but the nine of internal/resource/nvml-mig-device.go:40-50, as every real one does; other attributes could make two profiles' keys collide.
- Daemon.Run: a script is finite, so a run is described up to any number of passes; the pass after the last of a script has not begun.
- Attribute values other than integers, and label values of Go types other than strings and integers.
- Write errors of standard output inside a label set: there, unlike in `Printer.WriteTo`, writing succeeds or fails as a whole.
- Paths: the output file and the directory gfd-tmp beside it are the only names, and no other process changes them.
- Reloads that change the path of the output file: a program has one. The other flags of the run are read anew.
- File descriptors: the temporary file that is left open after a success is not tracked.
- Deliveries of signals while a pass is running: they are seen in the sleep after it, as in the source, where nothing else receives them.
- The table of architecture families (internal/lm/resource.go:261-284) is copied as it stands.
- GetWord and GetLong, the PCI device list itself, logging, and the mocks: easy members only.
