/** The run loop (cmd/gpu-feature-discovery/main.go). What happens around the program is a script: for each pass what
    the PCI bus shows, how the system calls turn out, and what ends the sleep after it. */
module Daemon {
  import opened Outcomes
  import opened Strings
  import opened Labels
  import opened Orders
  import opened Printer
  import opened Managers
  import opened Configuration
  import opened NodeLabels
  import opened NodeCoherence
  import opened AtomicFile
  import opened Pci
  import Vgpu

  datatype Signal = SIGHUP | SIGINT | SIGTERM | SIGQUIT

  /** What ends the sleep between two passes. */
  datatype Wakeup = Timeout | Received(signal: Signal)

  /** One pass: the PCI devices, the outcome of writing to the API or to standard output, that of writing the file, and
      what wakes the program up afterwards. */
  datatype Pass = Pass(pci: Result<seq<PCIDevice>>, outputs: bool, faults: Faults, wakeup: Wakeup)

  /** The flags of a run. */
  datatype Flags = Flags(oneshot: bool, noTimestamp: bool, outputFile: string, nodeFeatureAPI: bool)

  /** How a pass went, up to the sleep: there is one, or the run fails, panics, or loops forever. */
  datatype PassEnd = Slept | Fails | Panics | Loops

  /** What a run is given: configuration, flags, the time, and what happens around it. */
  datatype Job = Job(settings: Settings, flags: Flags, now: nat, script: seq<Pass>)

  /** How a run ended: it returned or it panicked; or it has not ended, because it hangs in the middle of a pass or is
      asleep when the script ends. */
  datatype End = Exited(restart: bool, err: bool) | Crashed | Hung | Asleep {
    predicate HasEnded() {
      Exited? || Crashed?
    }

    predicate FailsAtEnd() {
      Exited? && err
    }

    /** How the last pass of a run went that ended like this. */
    function LastPass(): PassEnd {
      match this
      case Exited(_, err) => if err then Fails else Slept
      case Crashed => Panics
      case Hung => Loops
      case Asleep => Slept
    }
  }

  /** What went to the API, and what was written to standard output, one text for each label set. */
  datatype Sinks = Sinks(api: seq<Labels>, stdout: seq<string>)

  /** Where labels go that are not written to a file. */
  class Outlet {
    var api: seq<Labels>
    var stdout: seq<string>

    constructor ()
      ensures Seen() == Sinks([], [])
    {
      api, stdout := [], [];
    }

    ghost function Seen(): Sinks
      reads this
    {
      Sinks(api, stdout)
    }
  }

  /** NewTimestampLabeler. */
  function TimestampLabels(flags: Flags, now: nat): Labels {
    if flags.noTimestamp then map[] else map[TIMESTAMP := Decimal(now)]
  }

  /** The label set carries the timestamp of the run, and no other. */
  predicate Stamped(labels: Labels, flags: Flags, now: nat) {
    if flags.noTimestamp then TIMESTAMP !in labels else TIMESTAMP in labels && labels[TIMESTAMP] == Decimal(now)
  }

  /** The label set as the printer prints it, in some order. */
  ghost predicate Prints(text: string, labels: Labels) {
    exists order :: Enumerates(order, labels.Keys) && text == Unlines(Lines(order, labels))
  }

  /** The output file holds the label set as printed. */
  ghost predicate FileShows(fs: FileSystem, labels: Labels) {
    fs.Valid() && Target in fs.dir && Prints(fs.inodes[fs.dir[Target]].bytes, labels)
  }

  /** What a reader of the file gets by parsing it, when no label holds a separator. */
  lemma FileCanBeParsed(fs: FileSystem, labels: Labels)
    requires FileShows(fs, labels) && labels != map[] && Clean(labels)
    ensures Parse(fs.inodes[fs.dir[Target]].bytes) == Ok(labels)
  {
    var order :| Enumerates(order, labels.Keys) && fs.inodes[fs.dir[Target]].bytes == Unlines(Lines(order, labels));
    RoundTripExactly(order, labels);
  }

  /** Standard output got these label sets, printed. */
  ghost predicate Grew(stdout: seq<string>, stdout': seq<string>, handed: seq<Labels>) {
    && |stdout'| == |stdout| + |handed| && stdout <= stdout'
    && forall i | 0 <= i < |handed| :: Prints(stdout'[|stdout| + i], handed[i])
  }

  /** No call made to publish the labels fails. */
  predicate OutputWorks(fs: FileSystem, flags: Flags, pass: Pass) {
    if flags.nodeFeatureAPI || flags.outputFile == "" then pass.outputs else EndingOf(fs, pass.faults) == Published
  }

  /** What a pass that hands over this label set does with it: it goes to the API, or to standard output if no file is named,
      or to the file. The file shows it if everything up to the rename succeeds, whatever happens then, and is as before,
      content and mode, if anything before that fails. */
  ghost predicate Publishes(labels: Labels, flags: Flags, pass: Pass, fs: FileSystem, fs': FileSystem, out: Sinks, out': Sinks) {
    if flags.nodeFeatureAPI then
      fs' == fs && out' == out.(api := out.api + if pass.outputs then [labels] else [])
    else if flags.outputFile == "" then
      fs' == fs && out'.api == out.api && Grew(out.stdout, out'.stdout, if pass.outputs then [labels] else [])
    else
      out' == out && if Replaces(fs, pass.faults) then FileShows(fs', labels) else SameTarget(fs, fs')
  }

  /** Labels.Output: to the API, to standard output, or to the file. */
  method Output(disk: Disk, outlet: Outlet, labels: Labels, flags: Flags, pass: Pass) returns (ok: bool)
    requires disk.fs.Valid()
    modifies disk, outlet
    ensures disk.fs.Valid()
    ensures flags.nodeFeatureAPI ==>
              && disk.fs == old(disk.fs) && outlet.stdout == old(outlet.stdout)
              && outlet.api == old(outlet.api) + if ok then [labels] else []
    ensures !flags.nodeFeatureAPI && flags.outputFile == "" ==>
              && disk.fs == old(disk.fs) && outlet.api == old(outlet.api)
              && Grew(old(outlet.stdout), outlet.stdout, if ok then [labels] else [])
    ensures flags.nodeFeatureAPI || flags.outputFile == "" ==> ok == pass.outputs
    ensures !flags.nodeFeatureAPI && flags.outputFile != "" ==>
              && outlet.Seen() == old(outlet.Seen())
              && (if Replaces(old(disk.fs), pass.faults) then FileShows(disk.fs, labels) else SameTarget(old(disk.fs), disk.fs))
              && (ok <==> Replaces(old(disk.fs), pass.faults) && !pass.faults.chmod)
  {
    if flags.nodeFeatureAPI {
      if pass.outputs {
        outlet.api := outlet.api + [labels];
      }
      return pass.outputs;
    }
    ok := UpdateFile(disk, outlet, labels, flags.outputFile, pass);
  }

  /** Labels.UpdateFile: to standard output if no path is given. */
  method UpdateFile(disk: Disk, outlet: Outlet, labels: Labels, path: string, pass: Pass) returns (ok: bool)
    requires disk.fs.Valid()
    modifies disk, outlet
    ensures disk.fs.Valid() && outlet.api == old(outlet.api)
    ensures path == "" ==>
              && disk.fs == old(disk.fs) && ok == pass.outputs
              && Grew(old(outlet.stdout), outlet.stdout, if ok then [labels] else [])
    ensures path != "" ==>
              && outlet.stdout == old(outlet.stdout) && (ok <==> Replaces(old(disk.fs), pass.faults) && !pass.faults.chmod)
              && (if Replaces(old(disk.fs), pass.faults) then FileShows(disk.fs, labels) else SameTarget(old(disk.fs), disk.fs))
  {
    var output, total, written, order := WriteTo(labels, None);
    assert Prints(output, labels);
    if path == "" {
      if pass.outputs {
        outlet.stdout := outlet.stdout + [output];
      }
      return pass.outputs;
    }
    ok := WriteOut(disk, output, labels, pass);
  }

  /** The part of UpdateFile that writes the file. */
  method WriteOut(disk: Disk, output: string, ghost labels: Labels, pass: Pass) returns (ok: bool)
    requires disk.fs.Valid() && Prints(output, labels)
    modifies disk
    ensures disk.fs.Valid() && (ok <==> Replaces(old(disk.fs), pass.faults) && !pass.faults.chmod)
    ensures if Replaces(old(disk.fs), pass.faults) then FileShows(disk.fs, labels) else SameTarget(old(disk.fs), disk.fs)
  {
    ghost var steps;
    ok, steps := WriteFileAtomically(disk, output, pass.faults);
    PublicationOutcome(old(disk.fs), output, steps);
  }

  /** What can be seen of the manager: whether it has fallen back, how often the original library has been initialised, whether
      the last call was an Init that failed for good, and what the manager in use answers. */
  datatype NodeView = NodeView(fellBack: bool, inits: nat, initFailed: bool, answers: Answers)

  ghost function LookAt(m: Manager): NodeView
    reads m, m.original, m.wraps
  {
    NodeView(m.wraps == m.fallback, Inits(m.original.log), m.LastInitFailed(), m.wraps.answers)
  }

  /** Some source of labels fails: Init, a call on the manager or its devices, or the reading of a vGPU. */
  ghost predicate SourceFails(node: NodeView, settings: Settings, pass: Pass) {
    node.initFailed || !NodeCallsAnswer(node.answers, settings) || Vgpu.VgpuLabels(pass.pci) == Returned(Err)
  }

  /** What a pass leaves of the manager: it keeps to the original library or falls back for good, and uses the library
      between Init and Shutdown only. */
  twostate predicate KeepsManager(m: Manager)
    reads m, m.original, m.wraps, m.fallback
  {
    && (m.wraps == old(m.wraps) || m.wraps == m.fallback)
    && (m.wraps == m.fallback ==> Inits(m.original.log) == Inits(old(m.original.log)))
    && (Initialised(old(m.original.log)) == Some(false) ==> Initialised(m.original.log) == Some(false))
  }

  /** The part of NewLabelers that asks the manager. */
  method NewNodeLabeler(m: Manager, settings: Settings) returns (r: Result<Labeler>)
    requires m.Valid()
    modifies m, m.wraps, m.fallback`log
    ensures m.Valid() && KeepsManager(m)
    ensures r.Ok? && m.wraps != m.fallback ==> Inits(m.original.log) == Inits(old(m.original.log)) + 1
    ensures m.wraps == m.fallback ==> r == Ok(Empty)
    ensures r.Err? ==> m.LastInitFailed() || !NodeCallsAnswer(m.wraps.answers, settings)
    ensures r.Ok? ==> Evaluate(r.value).Ok? && IsNodeLabels(m.wraps.answers, settings, Evaluate(r.value).value)
  {
    ghost var inUse, before := m.wraps, m.wraps.log;
    r := NewNVMLLabeler(m, settings);
    if inUse != m.fallback {
      BracketKeeps(before, inUse.log);
    }
  }

  /** Some call made to publish the labels fails. */
  predicate PublishingFails(flags: Flags, pass: Pass) {
    if flags.nodeFeatureAPI || flags.outputFile == "" then !pass.outputs
    else pass.faults != Faults(Made, false, WrittenWhole, false, false)
  }

  /** A pass that fails has handed over its labels and some call to publish them failed, or has not and some source of
      labels failed; one that crashes or hangs does so over the records of a vGPU. */
  ghost predicate FailsForCause(end: PassEnd, handedOver: bool, node: NodeView, job: Job, pass: Pass) {
    match end
    case Slept => handedOver
    case Fails => if handedOver then PublishingFails(job.flags, pass) else SourceFails(node, job.settings, pass)
    case Panics => !handedOver && Vgpu.VgpuLabels(pass.pci).Panicked?
    case Loops => !handedOver && Vgpu.VgpuLabels(pass.pci).Hangs?
  }

  /** How a pass ends whose labels cannot be generated. */
  function EndOf(labels: Outcome<Labels>): PassEnd
    requires !labels.Succeeds()
  {
    match labels
    case Returned(_) => Fails
    case Panicked => Panics
    case Hangs => Loops
  }

  /** What is known of the labels of a pass: they carry the run's timestamp, were composed from the answers of the manager in use,
      and say nothing of
      the node if the manager has fallen back. */
  ghost predicate PassLabels(labels: Labels, node: NodeView, job: Job, pass: Pass) {
    && Stamped(labels, job.flags, job.now)
    && Composed(labels, TimestampLabels(job.flags, job.now), node.answers, job.settings, pass)
    && (node.fellBack ==> labels.Keys <= {TIMESTAMP} + Vgpu.KEYS)
  }

  /** The labels of one pass: NewLabelers, Merge with the timestamp, and Labels. */
  method Generate(m: Manager, job: Job, pass: Pass) returns (r: Outcome<Labels>)
    requires m.Valid()
    modifies m, m.wraps, m.fallback`log
    ensures m.Valid() && KeepsManager(m)
    ensures r.Succeeds() && m.wraps != m.fallback ==> Inits(m.original.log) == Inits(old(m.original.log)) + 1
    ensures r.Succeeds() ==> PassLabels(r.result.value, LookAt(m), job, pass)
    ensures !r.Succeeds() ==> FailsForCause(EndOf(r), false, LookAt(m), job, pass)
  {
    var stamp := TimestampLabels(job.flags, job.now);
    var nodeLabeler := NewNodeLabeler(m, job.settings);
    if nodeLabeler.Err? {
      NodeFails(LookAt(m), job, pass);
      return Returned(Err);
    }
    r := MergeSources(stamp, nodeLabeler.value, pass);
    if r.Succeeds() {
      GenerateShows(LookAt(m), job, pass, Evaluate(nodeLabeler.value).value);
    } else {
      VgpuFails(r, LookAt(m), job, pass);
    }
  }

  lemma NodeFails(node: NodeView, job: Job, pass: Pass)
    requires node.initFailed || !NodeCallsAnswer(node.answers, job.settings)
    ensures FailsForCause(Fails, false, node, job, pass)
  {
  }

  lemma VgpuFails(r: Outcome<Labels>, node: NodeView, job: Job, pass: Pass)
    requires !r.Succeeds() && r == Vgpu.VgpuLabels(pass.pci)
    ensures FailsForCause(EndOf(r), false, node, job, pass)
  {
  }

  /** The part of a pass that reads the vGPUs and merges all labels. */
  method MergeSources(stamp: Labels, node: Labeler, pass: Pass) returns (r: Outcome<Labels>)
    requires Evaluate(node).Ok?
    ensures r.Succeeds() <==> Vgpu.VgpuLabels(pass.pci).Succeeds()
    ensures !r.Succeeds() ==> r == Vgpu.VgpuLabels(pass.pci)
    ensures r.Succeeds() ==> r.result.value == stamp + (Evaluate(node).value + Vgpu.VgpuLabels(pass.pci).result.value)
    ensures r.Succeeds() ==> Vgpu.VgpuLabels(pass.pci).result.value.Keys <= Vgpu.KEYS
  {
    var vgpu := Vgpu.ReadLabels(pass.pci);
    if !vgpu.Returned? {
      return vgpu;
    }
    var labels := LabelsOf(Merge([Fixed(stamp), Merge([node, Source(vgpu.result)])]));
    AllSources(stamp, node, vgpu.result);
    return Returned(labels);
  }

  lemma AllSources(stamp: Labels, node: Labeler, vgpu: Result<Labels>)
    ensures Evaluate(Merge([Fixed(stamp), Merge([node, Source(vgpu)])])) == Override(Ok(stamp), Override(Evaluate(node), vgpu))
  {
    EvaluatePair(node, Source(vgpu));
    EvaluatePair(Fixed(stamp), Merge([node, Source(vgpu)]));
  }

  lemma GenerateShows(view: NodeView, job: Job, pass: Pass, node: Labels)
    requires Vgpu.VgpuLabels(pass.pci).Succeeds() && IsNodeLabels(view.answers, job.settings, node)
    requires Vgpu.VgpuLabels(pass.pci).result.value.Keys <= Vgpu.KEYS && (view.fellBack ==> node == map[])
    ensures PassLabels(TimestampLabels(job.flags, job.now) + (node + Vgpu.VgpuLabels(pass.pci).result.value), view, job, pass)
  {
    var stamp, vgpu := TimestampLabels(job.flags, job.now), Vgpu.VgpuLabels(pass.pci).result.value;
    NodeLabelsStayInside(view.answers, job.settings, node);
    ComposedFrom(stamp, view.answers, job.settings, pass, node);
    SourcesAdd(stamp, node, vgpu, view.fellBack);
    StampedBy(stamp + (node + vgpu), job.flags, job.now, view.fellBack);
  }

  /** The label set is the stamp, then labels of a node whose manager gives these answers, then the labels of the vGPUs
      of the pass, each overriding what comes before it. */
  ghost predicate Composed(labels: Labels, stamp: Labels, answers: Answers, settings: Settings, pass: Pass) {
    && Vgpu.VgpuLabels(pass.pci).Succeeds()
    && exists node :: IsNodeLabels(answers, settings, node) && labels == stamp + (node + Vgpu.VgpuLabels(pass.pci).result.value)
  }

  lemma ComposedFrom(stamp: Labels, answers: Answers, settings: Settings, pass: Pass, node: Labels)
    requires Vgpu.VgpuLabels(pass.pci).Succeeds() && IsNodeLabels(answers, settings, node)
    ensures Composed(stamp + (node + Vgpu.VgpuLabels(pass.pci).result.value), stamp, answers, settings, pass)
  {
  }

  /** The label set was composed in this pass, from some answers of the manager. */
  ghost predicate MadeIn(labels: Labels, flags: Flags, now: nat, settings: Settings, pass: Pass) {
    exists answers :: Composed(labels, TimestampLabels(flags, now), answers, settings, pass)
  }

  /** The stamp shows unchanged; without stamp there is no timestamp; and a manager that fell back adds nothing. */
  ghost predicate SourcesShow(labels: Labels, stamp: Labels, fellBack: bool) {
    && Keeps(labels, stamp) && (stamp == map[] ==> TIMESTAMP !in labels)
    && (fellBack ==> labels.Keys <= stamp.Keys + Vgpu.KEYS)
  }

  lemma SourcesAdd(stamp: Labels, node: Labels, vgpu: Labels, fellBack: bool)
    requires stamp.Keys <= {TIMESTAMP} && OUTSIDE_KEYS !! node.Keys && vgpu.Keys <= Vgpu.KEYS
    requires fellBack ==> node == map[]
    ensures SourcesShow(stamp + (node + vgpu), stamp, fellBack)
  {
  }

  lemma StampedBy(labels: Labels, flags: Flags, now: nat, fellBack: bool)
    requires SourcesShow(labels, TimestampLabels(flags, now), fellBack)
    ensures Stamped(labels, flags, now) && (fellBack ==> labels.Keys <= {TIMESTAMP} + Vgpu.KEYS)
  {
  }

  // ----- run

  /** What can be seen of the world around a run. */
  datatype View = View(node: NodeView, fs: FileSystem, out: Sinks)

  ghost function Look(m: Manager, disk: Disk, outlet: Outlet): View
    reads m, m.original, m.wraps, disk, outlet
  {
    View(LookAt(m), disk.fs, outlet.Seen())
  }

  /** How one pass goes. `next` is the label set given to Output, if any. */
  ghost predicate PassWent(end: PassEnd, next: Option<Labels>, before: View, after: View, job: Job, pass: Pass) {
    && (before.node.fellBack ==> after.node.fellBack)
    && (after.node.fellBack ==> after.node.inits == before.node.inits)
    && (!after.node.fellBack && next.Some? ==> after.node.inits == before.node.inits + 1)
    && (end == Slept <==> next.Some? && OutputWorks(before.fs, job.flags, pass))
    && (next.Some? ==> end == Slept || end == Fails)
    && FailsForCause(end, next.Some?, after.node, job, pass)
    && match next
       case None => after.fs == before.fs && after.out == before.out
       case Some(labels) =>
         && PassLabels(labels, after.node, job, pass)
         && Publishes(labels, job.flags, pass, before.fs, after.fs, before.out, after.out)
  }

  /** The part of a pass that follows the generation of its labels. */
  method HandOver(disk: Disk, outlet: Outlet, labels: Labels, job: Job, pass: Pass, ghost before: View, ghost node: NodeView)
      returns (ok: bool)
    requires disk.fs.Valid() && before.fs == disk.fs && before.out == outlet.Seen()
    requires PassLabels(labels, node, job, pass) && (before.node.fellBack ==> node.fellBack)
    requires node.inits == before.node.inits + if node.fellBack then 0 else 1
    modifies disk, outlet
    ensures disk.fs.Valid()
    ensures PassWent(if ok then Slept else Fails, Some(labels), before, View(node, disk.fs, outlet.Seen()), job, pass)
  {
    ok := Output(disk, outlet, labels, job.flags, pass);
    OutputPublishes(ok, labels, job.flags, pass, old(disk.fs), disk.fs, old(outlet.Seen()), outlet.Seen());
    WentPublishing(ok, labels, before, View(node, disk.fs, outlet.Seen()), job, pass);
  }

  lemma WentNowhere(end: PassEnd, before: View, after: View, job: Job, pass: Pass)
    requires end != Slept && (before.node.fellBack ==> after.node.fellBack)
    requires after.node.fellBack ==> after.node.inits == before.node.inits
    requires after.fs == before.fs && after.out == before.out && FailsForCause(end, false, after.node, job, pass)
    ensures PassWent(end, None, before, after, job, pass)
  {
  }

  /** One pass of the loop, up to the sleep. */
  method RunOnce(m: Manager, disk: Disk, outlet: Outlet, job: Job, pass: Pass) returns (end: PassEnd, ghost next: Option<Labels>)
    requires m.Valid() && disk.fs.Valid()
    modifies m, m.wraps, m.fallback`log, disk, outlet
    ensures m.Valid() && disk.fs.Valid() && KeepsManager(m)
    ensures PassWent(end, next, old(Look(m, disk, outlet)), Look(m, disk, outlet), job, pass)
  {
    ghost var before := Look(m, disk, outlet);
    var labels := Generate(m, job, pass);
    if !labels.Succeeds() {
      WentNowhere(EndOf(labels), before, Look(m, disk, outlet), job, pass);
      return EndOf(labels), None;
    }
    var ok := HandOver(disk, outlet, labels.result.value, job, pass, before, LookAt(m));
    return if ok then Slept else Fails, Some(labels.result.value);
  }

  lemma WentPublishing(ok: bool, labels: Labels, before: View, after: View, job: Job, pass: Pass)
    requires PassLabels(labels, after.node, job, pass) && (before.node.fellBack ==> after.node.fellBack)
    requires after.node.inits == before.node.inits + if after.node.fellBack then 0 else 1
    requires Publishes(labels, job.flags, pass, before.fs, after.fs, before.out, after.out)
    requires ok <==> OutputWorks(before.fs, job.flags, pass)
    ensures PassWent(if ok then Slept else Fails, Some(labels), before, after, job, pass)
  {
  }

  /** What Output says, in one. */
  lemma OutputPublishes(ok: bool, labels: Labels, flags: Flags, pass: Pass, fs: FileSystem, fs': FileSystem, out: Sinks, out': Sinks)
    requires flags.nodeFeatureAPI ==> fs' == fs && out' == out.(api := out.api + if ok then [labels] else [])
    requires !flags.nodeFeatureAPI && flags.outputFile == "" ==>
               fs' == fs && out'.api == out.api && Grew(out.stdout, out'.stdout, if ok then [labels] else [])
    requires flags.nodeFeatureAPI || flags.outputFile == "" ==> ok == pass.outputs
    requires !flags.nodeFeatureAPI && flags.outputFile != "" ==>
               && out' == out && (if Replaces(fs, pass.faults) then FileShows(fs', labels) else SameTarget(fs, fs'))
               && (ok <==> Replaces(fs, pass.faults) && !pass.faults.chmod)
    ensures Publishes(labels, flags, pass, fs, fs', out, out') && (ok <==> OutputWorks(fs, flags, pass))
  {
  }

  /** The same of a run, of whose passes the last decides; `handed` label sets were handed over. */
  ghost predicate EndsForCause(end: End, handed: nat, passes: nat, node: NodeView, job: Job)
    requires 0 < passes <= |job.script|
  {
    FailsForCause(end.LastPass(), handed == passes, node, job, job.script[passes - 1])
  }

  /** Which parts of the deferred removal of the output file fail; removing a file that is not there fails too. */
  datatype Removal = Removal(tmpDirFails: bool, fileFails: bool)

  /** removeOutputFile. */
  method RemoveOutputFile(disk: Disk, removal: Removal) returns (ok: bool)
    requires disk.fs.Valid()
    modifies disk
    ensures disk.fs.Valid()
    ensures removal == Removal(false, false) ==> Target !in disk.fs.dir && !disk.fs.tmpDir
    ensures removal != Removal(false, false) ==> SameTarget(old(disk.fs), disk.fs)
    ensures ok <==> removal == Removal(false, false) && Target in old(disk.fs.dir)
  {
    if removal.tmpDirFails {
      return false;
    }
    disk.fs := RemoveTmpDir(disk.fs);
    if removal.fileFails || Target !in disk.fs.dir {
      return false;
    }
    disk.fs := Remove(disk.fs, Target);
    return true;
  }

  /** The i-th label set handed over was made in the i-th pass and carries the run's timestamp; those from `plainFrom` on,
      made after the manager had fallen back, hold nothing else but vGPU labels. */
  ghost predicate HandedRightly(handed: seq<Labels>, plainFrom: nat, job: Job) {
    && plainFrom <= |handed| <= |job.script|
    && (forall i | 0 <= i < |handed| :: HandedAt(handed, i, job))
    && (forall i {:trigger handed[i].Keys} | plainFrom <= i < |handed| :: handed[i].Keys <= {TIMESTAMP} + Vgpu.KEYS)
  }

  ghost predicate HandedAt(handed: seq<Labels>, i: nat, job: Job) {
    && i < |handed| && i < |job.script|
    && MadeIn(handed[i], job.flags, job.now, job.settings, job.script[i]) && Stamped(handed[i], job.flags, job.now)
  }

  /** What that means for each label set. */
  lemma HandedMean(handed: seq<Labels>, plainFrom: nat, job: Job, i: nat)
    requires HandedRightly(handed, plainFrom, job) && i < |handed|
    ensures if job.flags.noTimestamp then "nvidia.com/gfd.timestamp" !in handed[i]
            else "nvidia.com/gfd.timestamp" in handed[i] && handed[i]["nvidia.com/gfd.timestamp"] == FormatInt(job.now)
    ensures plainFrom <= i ==> handed[i].Keys <= {"nvidia.com/gfd.timestamp", "nvidia.com/vgpu.present",
              "nvidia.com/vgpu.host-driver-version", "nvidia.com/vgpu.host-driver-branch"}
  {
    assert HandedAt(handed, i, job);
  }

  /** How `run` may have ended after `passes` passes of the script. */
  ghost predicate EndsRightly(end: End, flags: Flags, script: seq<Pass>, passes: nat) {
    && passes <= |script|
    && (forall i {:trigger script[i].wakeup} | 0 <= i < passes - 1 :: script[i].wakeup == Timeout)
    && (flags.oneshot ==> passes <= 1)
    && if end == Asleep then passes == |script| && (passes > 0 ==> !flags.oneshot && script[passes - 1].wakeup == Timeout)
       else passes > 0 && StopIsRight(end, flags, script[passes - 1].wakeup)
  }

  /** What that means for each end of a run. */
  lemma EndsMean(end: End, flags: Flags, script: seq<Pass>, passes: nat)
    requires EndsRightly(end, flags, script, passes)
    ensures passes <= |script| && (flags.oneshot ==> passes <= 1)
    ensures forall i | 0 <= i < passes - 1 :: script[i].wakeup == Timeout
    ensures end != Exited(true, true)
    ensures end == Exited(true, false) ==> !flags.oneshot && passes > 0 && script[passes - 1].wakeup == Received(SIGHUP)
    ensures end == Exited(false, false) && !flags.oneshot ==>
              passes > 0 && script[passes - 1].wakeup.Received? && script[passes - 1].wakeup != Received(SIGHUP)
    ensures end == Asleep ==> passes == |script| && (passes > 0 ==> !flags.oneshot && script[passes - 1].wakeup == Timeout)
  {
  }

  /** The first `passes` passes of the script did not end the run. */
  ghost predicate Continues(flags: Flags, script: seq<Pass>, passes: nat) {
    && passes <= |script| && (passes > 0 ==> !flags.oneshot)
    && (forall i {:trigger script[i].wakeup} | 0 <= i < passes :: script[i].wakeup == Timeout)
  }

  lemma SleepsOn(flags: Flags, script: seq<Pass>)
    requires Continues(flags, script, |script|)
    ensures EndsRightly(Asleep, flags, script, |script|)
  {
  }

  /** A run that returns after an error or after its only pass asks for no restart; any other asks for one iff the signal
      that ended it was SIGHUP. */
  predicate StopIsRight(end: End, flags: Flags, wakeup: Wakeup) {
    && end != Asleep
    && (end.Exited? ==> if end.err || flags.oneshot then !end.restart
                        else wakeup.Received? && (end.restart <==> wakeup.signal == SIGHUP))
  }

  /** What that means for each end of a run. */
  lemma CausesMean(end: End, handed: nat, passes: nat, node: NodeView, job: Job)
    requires 0 < passes <= |job.script| && EndsForCause(end, handed, passes, node, job)
    ensures var pass := job.script[passes - 1];
      && (end.Exited? && end.err && handed == passes ==>
          if job.flags.nodeFeatureAPI || job.flags.outputFile == "" then !pass.outputs
          else pass.faults != Faults(Made, false, WrittenWhole, false, false))
      && (end.Exited? && end.err && handed != passes ==>
          || node.initFailed || !NodeCallsAnswer(node.answers, job.settings)
          || Vgpu.VgpuLabels(pass.pci) == Returned(Err))
      && (end.Crashed? ==> handed != passes && Vgpu.VgpuLabels(pass.pci) == Panicked)
      && (end.Hung? ==> handed != passes && Vgpu.VgpuLabels(pass.pci) == Hangs)
  {
  }

  // ----- the books of a run

  /** The output file shows the last label set handed over. */
  ghost predicate ShowsLast(fs: FileSystem, handed: seq<Labels>) {
    handed != [] && FileShows(fs, handed[|handed| - 1])
  }

  /** Where the label sets handed over have gone: the file shows the last; the API or standard output got all, but for one
      that could not be published. */
  ghost predicate Delivered(butLast: bool, handed: seq<Labels>, first: View, now: View, flags: Flags) {
    if flags.nodeFeatureAPI then
      now.fs == first.fs && now.out == first.out.(api := first.out.api + Arrived(handed, butLast))
    else if flags.outputFile == "" then
      now.fs == first.fs && now.out.api == first.out.api && Grew(first.out.stdout, now.out.stdout, Arrived(handed, butLast))
    else
      now.out == first.out && (handed != [] && !butLast ==> ShowsLast(now.fs, handed))
  }

  /** The label sets handed over in these passes, against what was seen at the start and is seen now. The last pass may
      have failed, and may have handed nothing over. */
  ghost predicate Closed(failed: bool, handed: seq<Labels>, passes: nat, plainFrom: nat, first: View, now: View, job: Job) {
    && HandedRightly(handed, plainFrom, job) && |handed| <= passes <= |handed| + 1
    && (first.node.fellBack ==> now.node.fellBack)
    && plainFrom == (if now.node.fellBack then now.node.inits - first.node.inits else |handed|)
    && Delivered(failed && passes == |handed|, handed, first, now, job.flags)
  }

  function Arrived(handed: seq<Labels>, butLast: bool): (arrived: seq<Labels>)
    ensures arrived <= handed && (!butLast ==> arrived == handed)
    ensures butLast && handed != [] ==> |arrived| == |handed| - 1
  {
    if butLast && handed != [] then handed[..|handed| - 1] else handed
  }

  /** The same while the run goes on: each pass has handed over a label set. */
  ghost predicate Books(handed: seq<Labels>, plainFrom: nat, first: View, now: View, job: Job) {
    Closed(false, handed, |handed|, plainFrom, first, now, job) && plainFrom == now.node.inits - first.node.inits
  }

  lemma OpenBooks(first: View, job: Job)
    ensures Books([], 0, first, first, job)
  {
    assert first.out.api + [] == first.out.api;
  }

  lemma {:induction false} HandNext(handed: seq<Labels>, plainFrom: nat, job: Job, next: Option<Labels>, plain: bool)
      returns (handed': seq<Labels>, plainFrom': nat)
    requires HandedRightly(handed, plainFrom, job) && |handed| < |job.script|
    requires next.Some? ==> MadeIn(next.value, job.flags, job.now, job.settings, job.script[|handed|])
    requires next.Some? ==> Stamped(next.value, job.flags, job.now) && (plain ==> next.value.Keys <= {TIMESTAMP} + Vgpu.KEYS)
    ensures HandedRightly(handed', plainFrom', job)
    ensures handed' == handed + if next.Some? then [next.value] else []
    ensures plainFrom' == if plain then plainFrom else |handed'|
  {
    handed' := handed + if next.Some? then [next.value] else [];
    plainFrom' := if plain then plainFrom else |handed'|;
    forall i | 0 <= i < |handed'| ensures HandedAt(handed', i, job) {
      if i < |handed| {
        assert HandedAt(handed, i, job);
      }
    }
  }

  /** One more pass: the books go on after it if it was slept after, and can be closed otherwise. */
  lemma {:induction false} KeepBooks(handed: seq<Labels>, plainFrom: nat, end: PassEnd, next: Option<Labels>, first: View,
                                     before: View, after: View, job: Job)
      returns (handed': seq<Labels>, plainFrom': nat)
    requires Books(handed, plainFrom, first, before, job) && |handed| < |job.script|
    requires PassWent(end, next, before, after, job, job.script[|handed|])
    ensures handed' == handed + if next.Some? then [next.value] else []
    ensures end == Slept ==> Books(handed', plainFrom', first, after, job)
    ensures Closed(end == Fails, handed', |handed| + 1, plainFrom', first, after, job)
  {
    handed', plainFrom' := HandNext(handed, plainFrom, job, next, after.node.fellBack);
    if next.Some? {
      KeepDelivered(handed, end == Slept, next.value, first, before, after, job.flags, job.script[|handed|]);
    }
  }

  lemma {:induction false} KeepDelivered(handed: seq<Labels>, ok: bool, next: Labels, first: View, before: View, after: View,
                                         flags: Flags, pass: Pass)
    requires Delivered(false, handed, first, before, flags) && (ok <==> OutputWorks(before.fs, flags, pass))
    requires Publishes(next, flags, pass, before.fs, after.fs, before.out, after.out)
    ensures Delivered(!ok, handed + [next], first, after, flags)
  {
    assert first.out.api + handed + [next] == first.out.api + (handed + [next]);
    assert (handed + [next])[..|handed|] == handed;
  }

  // ----- the loop

  /** The sleep after a pass, and what comes of it: the end of the run, unless it is None. */
  method AfterPass(pass: PassEnd, flags: Flags, wakeup: Wakeup) returns (stop: Option<End>)
    ensures stop == None ==> pass == Slept && !flags.oneshot && wakeup == Timeout
    ensures stop.Some? ==> StopIsRight(stop.value, flags, wakeup) && stop.value.LastPass() == pass
  {
    match pass
    case Fails => return Some(Exited(false, true));
    case Panics => return Some(Crashed);
    case Loops => return Some(Hung);
    case Slept =>
      if flags.oneshot {
        return Some(Exited(false, false));
      }
      match wakeup
      case Timeout => return None;
      case Received(signal) => return Some(Exited(signal == SIGHUP, false));
  }

  /** The body of the loop: one pass and the sleep after it. Returns the end of the run, if it ends here. */
  method PassOnce(m: Manager, disk: Disk, outlet: Outlet, job: Job, i: nat,
                  ghost first: View, ghost before: seq<Labels>, ghost plainBefore: nat)
      returns (stop: Option<End>, ghost handed: seq<Labels>, ghost plainFrom: nat)
    requires m.Valid() && disk.fs.Valid() && i == |before| < |job.script| && Continues(job.flags, job.script, i)
    requires Books(before, plainBefore, first, Look(m, disk, outlet), job)
    modifies m, m.wraps, m.fallback`log, disk, outlet
    ensures m.Valid() && disk.fs.Valid() && KeepsManager(m)
    ensures stop == None ==> |handed| == i + 1 && Continues(job.flags, job.script, i + 1)
    ensures stop == None ==> Books(handed, plainFrom, first, Look(m, disk, outlet), job)
    ensures stop.Some? ==> EndsRightly(stop.value, job.flags, job.script, i + 1)
    ensures stop.Some? ==> EndsForCause(stop.value, |handed|, i + 1, LookAt(m), job)
    ensures stop.Some? ==> Closed(stop.value.FailsAtEnd(), handed, i + 1, plainFrom, first, Look(m, disk, outlet), job)
  {
    ghost var view, next := Look(m, disk, outlet), None;
    var pass;
    pass, next := RunOnce(m, disk, outlet, job, job.script[i]);
    stop := AfterPass(pass, job.flags, job.script[i].wakeup);
    handed, plainFrom := KeepBooks(before, plainBefore, pass, next, first, view, Look(m, disk, outlet), job);
  }

  /** The loop of `run`, without the deferred removal. */
  method Loop(m: Manager, disk: Disk, outlet: Outlet, job: Job)
      returns (end: End, ghost handed: seq<Labels>, ghost passes: nat, ghost plainFrom: nat)
    requires m.Valid() && disk.fs.Valid()
    modifies m, m.wraps, m.fallback, disk, outlet
    ensures m.Valid() && disk.fs.Valid() && (m.wraps == old(m.wraps) || m.wraps == m.fallback)
    ensures Initialised(old(m.original.log)) == Some(false) ==> Initialised(m.original.log) == Some(false)
    ensures EndsRightly(end, job.flags, job.script, passes)
    ensures end != Asleep ==> EndsForCause(end, |handed|, passes, LookAt(m), job)
    ensures Closed(end.FailsAtEnd(), handed, passes, plainFrom, old(Look(m, disk, outlet)), Look(m, disk, outlet), job)
  {
    ghost var first := Look(m, disk, outlet);
    end, handed, passes, plainFrom := Asleep, [], 0, 0;
    OpenBooks(first, job);
    var i := 0;
    while i < |job.script|
      invariant m.Valid() && disk.fs.Valid() && (m.wraps == old(m.wraps) || m.wraps == m.fallback)
      invariant Initialised(old(m.original.log)) == Some(false) ==> Initialised(m.original.log) == Some(false)
      invariant end == Asleep && passes == i == |handed| && Continues(job.flags, job.script, i)
      invariant Books(handed, plainFrom, first, Look(m, disk, outlet), job)
    {
      var stop;
      stop, handed, plainFrom := PassOnce(m, disk, outlet, job, i, first, handed, plainFrom);
      passes := i + 1;
      if stop.Some? {
        return stop.value, handed, passes, plainFrom;
      }
      i := i + 1;
    }
    SleepsOn(job.flags, job.script);
  }

  /** run, over any script. `handed` are the label sets given to Output, in order; those from `plainFrom` on were made
      after the manager had fallen back, the others each after an Init of its own. All of them carry one timestamp; the
      library is used between Init and Shutdown only. While the program sleeps the output file shows the last of them;
      once a run has ended that was not to write just once, the file is gone. */
  method Run(m: Manager, disk: Disk, outlet: Outlet, job: Job, removal: Removal)
      returns (end: End, ghost handed: seq<Labels>, ghost passes: nat, ghost plainFrom: nat)
    requires m.Valid() && disk.fs.Valid()
    modifies m, m.wraps, m.fallback, disk, outlet
    ensures m.Valid() && disk.fs.Valid() && (m.wraps == old(m.wraps) || m.wraps == m.fallback)
    ensures Initialised(old(m.original.log)) == Some(false) ==> Initialised(m.original.log) == Some(false)
    ensures EndsRightly(end, job.flags, job.script, passes)
    ensures end != Asleep ==> EndsForCause(end, |handed|, passes, LookAt(m), job)
    ensures HandedRightly(handed, plainFrom, job) && |handed| <= passes <= |handed| + 1
    ensures plainFrom == if m.wraps == m.fallback then Inits(m.original.log) - Inits(old(m.original.log)) else |handed|
    ensures !job.flags.nodeFeatureAPI && job.flags.outputFile != "" ==>
              && outlet.Seen() == old(outlet.Seen())
              && (handed != [] && (!end.HasEnded() || (job.flags.oneshot && end == Exited(false, false))) ==>
                  FileShows(disk.fs, handed[|handed| - 1]))
              && (end.HasEnded() && !job.flags.oneshot && removal == Removal(false, false) ==>
                  Target !in disk.fs.dir && !disk.fs.tmpDir)
    ensures job.flags.nodeFeatureAPI ==>
              && disk.fs == old(disk.fs) && outlet.stdout == old(outlet.stdout)
              && outlet.api == old(outlet.api) + Arrived(handed, end == Exited(false, true) && passes == |handed|)
    ensures !job.flags.nodeFeatureAPI && job.flags.outputFile == "" ==>
              && disk.fs == old(disk.fs) && outlet.api == old(outlet.api)
              && Grew(old(outlet.stdout), outlet.stdout, Arrived(handed, end == Exited(false, true) && passes == |handed|))
  {
    end, handed, passes, plainFrom := Loop(m, disk, outlet, job);
    if end.HasEnded() && !job.flags.nodeFeatureAPI && !job.flags.oneshot && job.flags.outputFile != "" {
      var removed := RemoveOutputFile(disk, removal);
    }
  }

  // ----- start

  /** What the program finds each time it loads its configuration, and the run that follows; None if loading fails. */
  datatype Launch = Launch(machineType: string, strategy: string, failOnInitError: bool, gpus: seq<string>, migs: seq<string>,
                           renameByDefault: bool, resources: seq<ReplicatedResource>, oneshot: bool, noTimestamp: bool,
                           answers: Answers, now: nat, script: seq<Pass>, removal: Removal) {

    function RunFlags(outputFile: string, nodeFeatureAPI: bool): Flags {
      Flags(oneshot, noTimestamp, outputFile, nodeFeatureAPI)
    }
  }

  ghost predicate EndsSomehow(end: End, flags: Flags, l: Launch) {
    exists passes :: EndsRightly(end, flags, l.script, passes)
  }

  /** The run of this launch leaves no output file behind, if it ends. */
  predicate CleansUp(l: Launch, flags: Flags) {
    !flags.nodeFeatureAPI && flags.outputFile != "" && !flags.oneshot && l.removal == Removal(false, false)
  }

  /** start: load the configuration, normalise it, run with a new manager, and begin again after a SIGHUP. Returns whether
      the program has ended and how many runs it made. */
  method Start(disk: Disk, outlet: Outlet, outputFile: string, nodeFeatureAPI: bool, launches: seq<Option<Launch>>)
      returns (ended: bool, ghost runs: nat, ghost ends: seq<End>)
    requires disk.fs.Valid()
    modifies disk, outlet
    ensures disk.fs.Valid() && runs == |ends| <= |launches|
    // every run but the last was ended by SIGHUP, the last by none
    ensures forall i | 0 <= i < runs - 1 :: ends[i] == Exited(true, false)
    ensures ended && runs > 0 && ends[runs - 1] == Exited(true, false) ==> runs < |launches| && launches[runs] == None
    ensures ended && runs > 0 ==> ends[runs - 1].HasEnded()
    ensures forall i | 0 <= i < runs ::
              launches[i].Some? && EndsSomehow(ends[i], launches[i].value.RunFlags(outputFile, nodeFeatureAPI), launches[i].value)
    // the output file does not outlive the program
    ensures ended && runs > 0 && CleansUp(launches[runs - 1].value, launches[runs - 1].value.RunFlags(outputFile, nodeFeatureAPI)) ==>
              Target !in disk.fs.dir && !disk.fs.tmpDir
  {
    runs, ends := 0, [];
    for i := 0 to |launches|
      invariant disk.fs.Valid() && runs == i == |ends|
      invariant forall j | 0 <= j < i :: ends[j] == Exited(true, false)
      invariant forall j | 0 <= j < i ::
                  launches[j].Some? && EndsSomehow(ends[j], launches[j].value.RunFlags(outputFile, nodeFeatureAPI), launches[j].value)
      invariant i > 0 && CleansUp(launches[i - 1].value, launches[i - 1].value.RunFlags(outputFile, nodeFeatureAPI)) ==>
                  Target !in disk.fs.dir && !disk.fs.tmpDir
    {
      if launches[i].None? {
        return true, runs, ends;
      }
      var end := RunLaunch(disk, outlet, launches[i].value.RunFlags(outputFile, nodeFeatureAPI), launches[i].value);
      runs, ends := runs + 1, ends + [end];
      if !end.HasEnded() {
        return false, runs, ends;
      }
      if end != Exited(true, false) {
        return true, runs, ends;
      }
    }
    return false, runs, ends;
  }

  /** One turn of the loop in `start`. */
  method RunLaunch(disk: Disk, outlet: Outlet, flags: Flags, l: Launch) returns (end: End)
    requires disk.fs.Valid()
    modifies disk, outlet
    ensures disk.fs.Valid()
    ensures EndsSomehow(end, flags, l)
    ensures end.HasEnded() && CleansUp(l, flags) ==> Target !in disk.fs.dir && !disk.fs.tmpDir
  {
    var config := new Config(l.gpus, l.migs, l.renameByDefault, l.resources);
    config.DisableResourceRenaming();
    var library := new Backend(false, l.answers);
    var manager := new Manager(library, l.failOnInitError);
    ghost var handed, passes, plainFrom;
    end, handed, passes, plainFrom :=
      Run(manager, disk, outlet, Job(Settings(l.machineType, l.strategy, config.resources), flags, l.now, l.script), l.removal);
  }
}
