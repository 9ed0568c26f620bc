/** Publication of the output file (writeFileAtomically in internal/lm/labels.go, removeOutputFile in
    cmd/gpu-feature-discovery/main.go), in small steps, next to a process that reads the file. */
module AtomicFile {
  import opened Outcomes

  /** The output file and the names inside the temporary directory gfd-tmp beside it. */
  datatype Name = Target | Tmp(id: nat)

  datatype File = File(bytes: string, mode: nat)

  /** A directory maps names to inodes; a reader that has a file open keeps its inode, whatever happens to the name. */
  datatype FileSystem = FileSystem(dir: map<Name, nat>, inodes: map<nat, File>, tmpDir: bool) {

    function TargetInode(): Option<nat> {
      if Target in dir then Some(dir[Target]) else None
    }

    /** Every name has an inode of its own, and temporary files exist inside the temporary directory only. */
    ghost predicate Valid() {
      && (forall n | n in dir :: dir[n] in inodes)
      && (forall m, n | m in dir && n in dir && m != n :: dir[m] != dir[n])
      && (!tmpDir ==> dir.Keys <= {Target})
    }
  }

  /** 0644 and 0600. */
  const OUTPUT_MODE := 6 * 64 + 4 * 8 + 4
  const TEMP_MODE := 6 * 64

  // ----- the system calls

  function MakeDir(fs: FileSystem): FileSystem {
    fs.(tmpDir := true)
  }

  function Create(fs: FileSystem, t: nat, inode: nat): FileSystem {
    fs.(dir := fs.dir[Tmp(t) := inode], inodes := fs.inodes[inode := File("", TEMP_MODE)])
  }

  function SetBytes(fs: FileSystem, n: Name, bytes: string): FileSystem
    requires fs.Valid() && n in fs.dir
  {
    fs.(inodes := fs.inodes[fs.dir[n] := fs.inodes[fs.dir[n]].(bytes := bytes)])
  }

  function Rename(fs: FileSystem, t: nat): FileSystem
    requires Tmp(t) in fs.dir
  {
    fs.(dir := (fs.dir - {Tmp(t)})[Target := fs.dir[Tmp(t)]])
  }

  function Chmod(fs: FileSystem): FileSystem
    requires fs.Valid() && Target in fs.dir
  {
    fs.(inodes := fs.inodes[fs.dir[Target] := fs.inodes[fs.dir[Target]].(mode := OUTPUT_MODE)])
  }

  function Remove(fs: FileSystem, n: Name): FileSystem {
    fs.(dir := fs.dir - {n})
  }

  function RemoveTmpDir(fs: FileSystem): FileSystem {
    fs.(dir := map n | n in fs.dir && n == Target :: fs.dir[n], tmpDir := false)
  }

  // ----- the processes

  /** How a publication ended. */
  datatype Ending = Published | NoDirectory | Failed(renamed: bool)

  /** Where the writer is: between publications, or after the named step of publishing `new`. */
  datatype Writer =
    | Idle
    | Started(text: string)
    | DirMade(text: string)
    | Created(text: string, t: nat)
    | Writing(text: string, t: nat)
    | Written(text: string, t: nat)
    | Renamed(text: string, t: nat)
    | Failing(text: string, t: nat, renamed: bool)
    | Cleaning(text: string, renamed: bool)
    | Ended(text: string, ending: Ending)
    | Removing

  /** A process that opens the output file and reads it piece by piece to its end. */
  datatype Reader = Closed | Open(inode: nat, got: string) | Finished(got: string)

  /** `before` is the output file's inode when the current publication started; `published` tells what every inode
      that is or was the output file held when it became the output file; `offered` is every content so far given
      to the writer, or held by the output file initially. */
  datatype System = System(
    fs: FileSystem, writer: Writer, reader: Reader,
    ghost before: Option<nat>, ghost published: map<nat, string>, ghost offered: set<string>)

  /** The writer's step from `s`, when it makes the file system `fs`. */
  ghost predicate To(s: System, s': System, fs: FileSystem, w: Writer) {
    s' == s.(fs := fs, writer := w)
  }

  ghost predicate Starts(s: System, s': System) {
    exists text :: s' == s.(writer := Started(text), before := s.fs.TargetInode(), offered := s.offered + {text})
  }

  ghost predicate CreatesTemp(s: System, s': System, text: string, t: nat, inode: nat) {
    Tmp(t) !in s.fs.dir && inode !in s.fs.inodes && To(s, s', Create(s.fs, t, inode), Created(text, t))
  }

  /** The temporary file grows to the first `n` bytes of the new content. */
  ghost predicate Writes(s: System, s': System, text: string, t: nat, n: nat)
    requires s.fs.Valid() && Tmp(t) in s.fs.dir
  {
    |s.fs.inodes[s.fs.dir[Tmp(t)]].bytes| <= n <= |text| && To(s, s', SetBytes(s.fs, Tmp(t), text[..n]), Writing(text, t))
  }

  ghost predicate PublishStep(s: System, s': System) {
    match s.writer
    case Started(text) =>
      || To(s, s', MakeDir(s.fs), DirMade(text))
      || To(s, s', s.fs, DirMade(text))             // MkdirAll reported that something of that name exists
      || To(s, s', s.fs, Ended(text, NoDirectory))
    case DirMade(text) =>
      || (s.fs.tmpDir && exists t, inode :: CreatesTemp(s, s', text, t, inode))
      || To(s, s', s.fs, Cleaning(text, false))
    case Created(text, t) =>
      || (s.fs.Valid() && Tmp(t) in s.fs.dir && To(s, s', SetBytes(s.fs, Tmp(t), ""), Writing(text, t)))
      || To(s, s', s.fs, Failing(text, t, false))
    case Writing(text, t) =>
      || (s.fs.Valid() && Tmp(t) in s.fs.dir && exists n: nat :: Writes(s, s', text, t, n))
      || (s.fs.Valid() && Tmp(t) in s.fs.dir && s.fs.inodes[s.fs.dir[Tmp(t)]].bytes == text && To(s, s', s.fs, Written(text, t)))
      || To(s, s', s.fs, Failing(text, t, false))
    case Written(text, t) =>
      || (Tmp(t) in s.fs.dir && s' == s.(fs := Rename(s.fs, t), writer := Renamed(text, t),
                                         published := s.published[s.fs.dir[Tmp(t)] := text]))
      || To(s, s', s.fs, Failing(text, t, false))
    case Renamed(text, t) =>
      || (s.fs.Valid() && Target in s.fs.dir && To(s, s', Chmod(s.fs), Ended(text, Published)))
      || To(s, s', s.fs, Failing(text, t, true))
    case Failing(text, t, renamed) => To(s, s', Remove(s.fs, Tmp(t)), Cleaning(text, renamed))
    case Cleaning(text, renamed) => To(s, s', RemoveTmpDir(s.fs), Ended(text, Failed(renamed)))
    case _ => false
  }

  /** removeOutputFile, of which either half may fail. */
  ghost predicate RemoveStep(s: System, s': System) {
    match s.writer
    case Idle => To(s, s', RemoveTmpDir(s.fs), Removing)
    case Removing => To(s, s', Remove(s.fs, Target), Idle) || To(s, s', s.fs, Idle)
    case _ => false
  }

  ghost predicate WriterStep(s: System, s': System) {
    || (s.writer.Idle? && Starts(s, s'))
    || PublishStep(s, s')
    || RemoveStep(s, s')
    || s' == s.(writer := Idle)                     // it has ended, or the process was killed here
  }

  ghost predicate ReaderStep(s: System, s': System) {
    match s.reader
    case Closed => Target in s.fs.dir && s' == s.(reader := Open(s.fs.dir[Target], ""))
    case Open(inode, got) => inode in s.fs.inodes && (
      var bytes := s.fs.inodes[inode].bytes;
      || (exists n :: |got| < n <= |bytes| && s' == s.(reader := Open(inode, got + bytes[|got|..n])))
      || (|got| >= |bytes| && s' == s.(reader := Finished(got)))
      || s' == s.(reader := Closed))
    case Finished(_) => s' == s.(reader := Closed)
  }

  ghost predicate Step(s: System, s': System) {
    WriterStep(s, s') || ReaderStep(s, s')
  }

  /** Nothing is going on, and the output file, if there is one, holds what it was last given. */
  ghost predicate Init(s: System) {
    && s.fs.Valid() && s.writer == Idle && s.reader == Closed
    && (match s.fs.TargetInode()
        case Some(i) => s.published == map[i := s.fs.inodes[i].bytes] && s.offered == {s.fs.inodes[i].bytes}
        case None => s.published == map[] && s.offered == {})
  }

  ghost predicate StepAt(trace: seq<System>, i: nat) {
    0 < i < |trace| && Step(trace[i - 1], trace[i])
  }

  /** Any interleaving of the writer, killed and restarted at will, with the reader. */
  ghost predicate Run(trace: seq<System>) {
    trace != [] && Init(trace[0]) && forall i | 0 < i < |trace| :: StepAt(trace, i)
  }

  // ----- the invariant

  /** Whether the current publication has replaced the output file. */
  predicate HasReplaced(w: Writer) {
    w.Renamed? || (w.Failing? && w.renamed) || (w.Cleaning? && w.renamed) ||
    (w.Ended? && (w.ending == Published || w.ending == Failed(true)))
  }

  ghost predicate FilesSafe(fs: FileSystem, published: map<nat, string>) {
    && fs.Valid()
    && (forall i | i in published :: i in fs.inodes && fs.inodes[i].bytes == published[i])
    && (forall n | n in fs.dir :: n == Target <==> fs.dir[n] in published)
  }

  ghost predicate WriterSafe(s: System)
    requires s.fs.Valid()
  {
    var w := s.writer;
    && (w.Created? || w.Writing? || w.Written? ==> Tmp(w.t) in s.fs.dir)
    && (w.Writing? ==> s.fs.inodes[s.fs.dir[Tmp(w.t)]].bytes <= w.text)
    && (w.Written? ==> s.fs.inodes[s.fs.dir[Tmp(w.t)]].bytes == w.text)
    && (!w.Idle? && !w.Removing? ==> w.text in s.offered)
    && (w.Created? || w.Writing? || w.Written? ==> s.fs.inodes[s.fs.dir[Tmp(w.t)]].mode == TEMP_MODE)
    && (HasReplaced(w) && !(w.Ended? && w.ending == Published) ==>
        Target in s.fs.dir && s.fs.inodes[s.fs.dir[Target]].mode == TEMP_MODE)
    && (w.Ended? && w.ending.Failed? ==> !s.fs.tmpDir)
    && (w.Ended? && w.ending == Published ==> Target in s.fs.dir && s.fs.inodes[s.fs.dir[Target]].mode == OUTPUT_MODE)
  }

  /** The output file is the old one, untouched, up to the rename, and the new one, complete, from then on. */
  ghost predicate TargetSafe(s: System)
    requires s.fs.Valid()
  {
    if s.writer.Idle? || s.writer.Removing? then true
    else if HasReplaced(s.writer) then Target in s.fs.dir && s.fs.inodes[s.fs.dir[Target]].bytes == s.writer.text
    else s.fs.TargetInode() == s.before
  }

  /** What the reader has is the beginning of a published content, and all of it once the reader is done. */
  ghost predicate ReaderSafe(s: System) {
    match s.reader
    case Closed => true
    case Open(inode, got) => inode in s.published && got <= s.published[inode]
    case Finished(got) => exists i :: i in s.published && s.published[i] == got
  }

  ghost predicate Inv(s: System) {
    && FilesSafe(s.fs, s.published) && WriterSafe(s) && TargetSafe(s) && ReaderSafe(s)
    && forall i | i in s.published :: s.published[i] in s.offered
  }

  lemma InitIsSafe(s: System)
    requires Init(s)
    ensures Inv(s)
  {
  }

  lemma StartedKeepsInv(s: System, s': System)
    requires Inv(s) && PublishStep(s, s') && s.writer.Started?
    ensures Inv(s')
  {
  }

  lemma DirMadeKeepsInv(s: System, s': System)
    requires Inv(s) && PublishStep(s, s') && s.writer.DirMade?
    ensures Inv(s')
  {
  }

  lemma CreatedKeepsInv(s: System, s': System)
    requires Inv(s) && PublishStep(s, s') && s.writer.Created?
    ensures Inv(s')
  {
  }

  lemma WritingKeepsInv(s: System, s': System)
    requires Inv(s) && PublishStep(s, s') && s.writer.Writing?
    ensures Inv(s')
  {
  }

  lemma RenamingKeepsInv(s: System, s': System)
    requires Inv(s) && PublishStep(s, s') && s.writer.Written?
    ensures Inv(s')
  {
  }

  lemma LateKeepsInv(s: System, s': System)
    requires Inv(s) && PublishStep(s, s') && (s.writer.Renamed? || s.writer.Failing? || s.writer.Cleaning?)
    ensures Inv(s')
  {
  }

  lemma PublishKeepsInv(s: System, s': System)
    requires Inv(s) && PublishStep(s, s')
    ensures Inv(s')
  {
    match s.writer
    case Started(_) => StartedKeepsInv(s, s');
    case DirMade(_) => DirMadeKeepsInv(s, s');
    case Created(_, _) => CreatedKeepsInv(s, s');
    case Writing(_, _) => WritingKeepsInv(s, s');
    case Written(_, _) => RenamingKeepsInv(s, s');
    case _ => LateKeepsInv(s, s');
  }

  lemma RestKeepsInv(s: System, s': System)
    requires Inv(s) && (Starts(s, s') || RemoveStep(s, s') || s' == s.(writer := Idle))
    ensures Inv(s')
  {
  }

  lemma ReaderKeepsInv(s: System, s': System)
    requires Inv(s) && ReaderStep(s, s')
    ensures Inv(s')
  {
  }

  lemma StepKeepsInv(s: System, s': System)
    requires Inv(s) && Step(s, s')
    ensures Inv(s')
    ensures s.published.Keys <= s'.published.Keys && forall i | i in s.published :: s'.published[i] == s.published[i]
  {
    if PublishStep(s, s') {
      PublishKeepsInv(s, s');
    } else if ReaderStep(s, s') {
      ReaderKeepsInv(s, s');
    } else {
      RestKeepsInv(s, s');
    }
  }

  lemma {:induction false} AlwaysSafe(trace: seq<System>, i: nat)
    requires Run(trace) && i < |trace|
    ensures Inv(trace[i])
  {
    if i == 0 {
      InitIsSafe(trace[0]);
    } else {
      AlwaysSafe(trace, i - 1);
      assert StepAt(trace, i);
      StepKeepsInv(trace[i - 1], trace[i]);
    }
  }

  // ----- what readers see

  /** The reader started at `j` and has not closed the file since. */
  ghost predicate ReadingSince(trace: seq<System>, j: nat, i: nat) {
    j < i < |trace| && trace[j].reader.Closed? && forall m | j < m <= i :: !trace[m].reader.Closed?
  }

  predicate TargetHolds(fs: FileSystem, bytes: string) {
    Target in fs.dir && fs.dir[Target] in fs.inodes && fs.inodes[fs.dir[Target]].bytes == bytes
  }

  /** The output file is the same file, with the same content and mode, or missing in both. */
  predicate SameTarget(fs: FileSystem, fs': FileSystem) {
    && fs'.TargetInode() == fs.TargetInode()
    && (Target in fs.dir && fs.dir[Target] in fs.inodes ==>
          fs.dir[Target] in fs'.inodes && fs'.inodes[fs.dir[Target]] == fs.inodes[fs.dir[Target]])
  }

  /** An open file is the output file as it was when the reader opened it. */
  lemma {:induction false} OpenIsSnapshot(trace: seq<System>, i: nat) returns (j: nat)
    requires Run(trace) && i < |trace| && trace[i].reader.Open?
    ensures ReadingSince(trace, j, i)
    ensures trace[i].reader.inode in trace[i].published
    ensures TargetHolds(trace[j].fs, trace[i].published[trace[i].reader.inode])
  {
    AlwaysSafe(trace, i - 1);
    assert StepAt(trace, i);
    OpenStep(trace[i - 1], trace[i]);
    if trace[i - 1].reader.Closed? {
      j := i - 1;
    } else {
      j := OpenIsSnapshot(trace, i - 1);
    }
  }

  /** A file that is open was either opened just now or open before. */
  lemma {:induction false} OpenStep(s: System, s': System)
    requires Inv(s) && Step(s, s') && s'.reader.Open?
    ensures s'.reader.inode in s'.published
    ensures s.reader.Closed? ==> TargetHolds(s.fs, s'.published[s'.reader.inode])
    ensures !s.reader.Closed? ==> s.reader.Open? && s.reader.inode == s'.reader.inode
    ensures !s.reader.Closed? ==> s.reader.inode in s.published && s'.published[s.reader.inode] == s.published[s.reader.inode]
  {
    StepKeepsInv(s, s');
  }

  /** A reader that is done was done before or has just reached the end of what it had open. */
  lemma {:induction false} FinishStep(s: System, s': System)
    requires Inv(s) && Step(s, s') && s'.reader.Finished?
    ensures s.reader == s'.reader ||
            (s.reader.Open? && s.reader.inode in s.published && s'.reader.got == s.published[s.reader.inode])
    ensures s'.reader.got in s'.offered
  {
    StepKeepsInv(s, s');
  }

  lemma {:induction false} FinishedAt(trace: seq<System>, i: nat)
    requires Run(trace) && i < |trace| && trace[i].reader.Finished?
    ensures i > 0 && trace[i].reader.got in trace[i].offered
    ensures var s := trace[i - 1];
      s.reader == trace[i].reader ||
      (s.reader.Open? && s.reader.inode in s.published && trace[i].reader.got == s.published[s.reader.inode])
  {
    assert i > 0;
    AlwaysSafe(trace, i - 1);
    assert StepAt(trace, i);
    FinishStep(trace[i - 1], trace[i]);
  }

  /** Atomic publication, for readers: in every interleaving, whoever reads the output file to its end has read exactly
      what the file held, complete, at the moment it was opened: one of the contents given to the writer, or the first. */
  lemma {:induction false} ReadIsSnapshot(trace: seq<System>, i: nat) returns (j: nat)
    requires Run(trace) && i < |trace| && trace[i].reader.Finished?
    ensures ReadingSince(trace, j, i) && TargetHolds(trace[j].fs, trace[i].reader.got)
    ensures trace[i].reader.got in trace[i].offered
  {
    FinishedAt(trace, i);
    if trace[i - 1].reader.Finished? {
      j := ReadIsSnapshot(trace, i - 1);
    } else {
      j := OpenIsSnapshot(trace, i - 1);
    }
  }

  /** A publication is going on or has just ended. */
  predicate Publishing(w: Writer) {
    !w.Idle? && !w.Removing?
  }

  /** Within a publication that has not renamed its temporary file no step touches the output file. */
  lemma StepKeepsTarget(s: System, s': System)
    requires Inv(s) && Step(s, s') && Publishing(s.writer) && Publishing(s'.writer)
    ensures s'.writer.text == s.writer.text
    ensures !HasReplaced(s'.writer) ==> !HasReplaced(s.writer) && SameTarget(s.fs, s'.fs)
  {
    if PublishStep(s, s') {
      PublishKeepsTarget(s, s');
    }
  }

  lemma PublishKeepsTarget(s: System, s': System)
    requires Inv(s) && PublishStep(s, s')
    ensures Publishing(s.writer) && Publishing(s'.writer) && s'.writer.text == s.writer.text
    ensures !HasReplaced(s'.writer) ==> !HasReplaced(s.writer) && SameTarget(s.fs, s'.fs)
  {
  }

  /** The publication going on at `i` started at `j` and has not been interrupted since. */
  ghost predicate PublishingSince(trace: seq<System>, j: nat, i: nat) {
    && j < i < |trace| && Starts(trace[j], trace[j + 1])
    && (forall m | j < m <= i :: Publishing(trace[m].writer) && trace[m].writer.text == trace[j + 1].writer.text)
  }

  lemma {:induction false} SinceItsStart(trace: seq<System>, i: nat) returns (j: nat)
    requires Run(trace) && i < |trace| && Publishing(trace[i].writer)
    ensures PublishingSince(trace, j, i)
    ensures !HasReplaced(trace[i].writer) ==> SameTarget(trace[j].fs, trace[i].fs)
  {
    AheadOfStart(trace, i);
    if Publishing(trace[i - 1].writer) {
      j := SinceItsStart(trace, i - 1);
    } else {
      j := i - 1;
    }
  }

  /** A state of a publication is its first or continues it. */
  lemma {:induction false} AheadOfStart(trace: seq<System>, i: nat)
    requires Run(trace) && i < |trace| && Publishing(trace[i].writer)
    ensures i > 0
    ensures !Publishing(trace[i - 1].writer) ==>
              Starts(trace[i - 1], trace[i]) && !HasReplaced(trace[i].writer) && SameTarget(trace[i - 1].fs, trace[i].fs)
    ensures Publishing(trace[i - 1].writer) ==> trace[i].writer.text == trace[i - 1].writer.text
    ensures Publishing(trace[i - 1].writer) && !HasReplaced(trace[i].writer) ==>
              !HasReplaced(trace[i - 1].writer) && SameTarget(trace[i - 1].fs, trace[i].fs)
  {
    assert i > 0;
    assert StepAt(trace, i);
    if Publishing(trace[i - 1].writer) {
      AlwaysSafe(trace, i - 1);
      StepKeepsTarget(trace[i - 1], trace[i]);
    }
  }

  /** Atomic publication, for the file: at every moment of a publication the output file is the one it was when the
      publication started, content and mode, up to the rename, and holds the new content, all of it, from then on. A
      publication that failed has left no temporary file behind, and one that succeeded has left the intended permissions.
      (WriteFile does not change the mode of a file that exists, so up to the final chmod, and for good if that fails, the
      new file has the mode CreateTemp gave it.) */
  lemma TargetIsOldOrNew(trace: seq<System>, i: nat) returns (j: nat)
    requires Run(trace) && i < |trace| && Publishing(trace[i].writer)
    ensures PublishingSince(trace, j, i)
    ensures if HasReplaced(trace[i].writer) then TargetHolds(trace[i].fs, trace[i].writer.text)
            else SameTarget(trace[j].fs, trace[i].fs)
    ensures forall bytes | TargetHolds(trace[i].fs, bytes) :: bytes in trace[i].offered
    ensures trace[i].writer.Ended? && trace[i].writer.ending.Failed? ==> trace[i].fs.dir.Keys <= {Target}
    ensures trace[i].writer.Ended? && HasReplaced(trace[i].writer) ==>
              trace[i].fs.inodes[trace[i].fs.dir[Target]].mode ==
                if trace[i].writer.ending == Published then 420 else 384 // 0644 and 0600
  {
    AlwaysSafe(trace, i);
    j := SinceItsStart(trace, i);
  }

  // ----- writeFileAtomically

  datatype MkdirResult = Made | AlreadyThere | CannotMake

  datatype WriteResult = WrittenWhole | CannotOpen | FailsAfter(n: nat)

  /** How the system calls of one publication turn out. */
  datatype Faults = Faults(mkdir: MkdirResult, create: bool, write: WriteResult, rename: bool, chmod: bool)

  class Disk {
    var fs: FileSystem

    constructor (fs: FileSystem)
      ensures this.fs == fs
    {
      this.fs := fs;
    }
  }

  ghost predicate CallAt(steps: seq<System>, i: nat) {
    0 < i < |steps| && PublishStep(steps[i - 1], steps[i])
  }

  /** The states of one publication, one system call apart. */
  ghost predicate Calls(steps: seq<System>) {
    steps != [] && forall i | 0 < i < |steps| :: CallAt(steps, i)
  }

  lemma CallsNext(steps: seq<System>, s: System)
    requires Calls(steps) && PublishStep(steps[|steps| - 1], s)
    ensures Calls(steps + [s])
  {
    forall i | 0 < i < |steps + [s]| ensures CallAt(steps + [s], i) {
      assert i < |steps| ==> CallAt(steps, i);
    }
  }

  lemma CallsPrefix(steps: seq<System>)
    requires Calls(steps) && |steps| > 1
    ensures Calls(steps[..|steps| - 1]) && PublishStep(steps[|steps| - 2], steps[|steps| - 1])
  {
    assert CallAt(steps, |steps| - 1);
    var before := steps[..|steps| - 1];
    forall i | 0 < i < |before| ensures CallAt(before, i) {
      assert CallAt(steps, i);
    }
  }

  lemma {:induction false} CallsSafe(steps: seq<System>)
    requires Calls(steps) && Inv(steps[0])
    ensures Inv(steps[|steps| - 1]) && steps[|steps| - 1].before == steps[0].before
    ensures forall i | i in steps[0].published :: i in steps[|steps| - 1].published &&
              steps[|steps| - 1].published[i] == steps[0].published[i]
  {
    if |steps| > 1 {
      var n := |steps| - 1;
      CallsPrefix(steps);
      CallsSafe(steps[..n]);
      StepKeepsInv(steps[n - 1], steps[n]);
    }
  }

  /** The state in which a publication on a quiet file system starts. */
  ghost function Beginning(fs: FileSystem, contents: string): System
    requires fs.Valid()
  {
    System(fs, Started(contents), Closed, fs.TargetInode(),
           if Target in fs.dir then map[fs.dir[Target] := fs.inodes[fs.dir[Target]].bytes] else map[],
           {contents} + if Target in fs.dir then {fs.inodes[fs.dir[Target]].bytes} else {})
  }

  lemma {:induction false} Fresh(s: set<nat>) returns (n: nat)
    ensures forall x | x in s :: x < n
  {
    n := 0;
    if s != {} {
      var x :| x in s;
      var m := Fresh(s - {x});
      n := if m <= x then x + 1 else m;
      assert forall y | y in s :: y == x || y in s - {x};
    }
  }

  lemma FreshNames(fs: FileSystem)
    ensures exists t: nat :: Tmp(t) !in fs.dir
    ensures exists inode: nat :: inode !in fs.inodes
  {
    var ids := set n | n in fs.dir && n.Tmp? :: n.id;
    var t := Fresh(ids);
    assert forall id: nat | Tmp(id) in fs.dir :: id in ids;
    assert Tmp(t) !in fs.dir;
    var inode := Fresh(fs.inodes.Keys);
    assert inode !in fs.inodes;
  }

  /** Every system call up to and including the rename succeeds. */
  predicate Replaces(fs: FileSystem, faults: Faults) {
    && (faults.mkdir == Made || (faults.mkdir == AlreadyThere && fs.tmpDir))
    && !faults.create && faults.write == WrittenWhole && !faults.rename
  }

  /** How a publication ends, from the system calls that fail. */
  function EndingOf(fs: FileSystem, faults: Faults): Ending {
    if faults.mkdir == CannotMake then NoDirectory
    else if !Replaces(fs, faults) then Failed(false)
    else if faults.chmod then Failed(true)
    else Published
  }

  /** Which calls fail, for each ending. */
  lemma EndingsMean(fs: FileSystem, faults: Faults)
    ensures EndingOf(fs, faults) == NoDirectory <==> faults.mkdir == CannotMake
    ensures EndingOf(fs, faults) == Failed(false) <==>
            faults.mkdir != CannotMake &&
            ((faults.mkdir == AlreadyThere && !fs.tmpDir) || faults.create || faults.write != WrittenWhole || faults.rename)
    ensures EndingOf(fs, faults) == Failed(true) <==>
            faults.mkdir != CannotMake && (faults.mkdir == AlreadyThere ==> fs.tmpDir) && !faults.create &&
            faults.write == WrittenWhole && !faults.rename && faults.chmod
    ensures Replaces(fs, faults) <==> EndingOf(fs, faults) in {Failed(true), Published}
  {
  }

  /** writeFileAtomically. Its states, one system call apart, are steps of the writer; and of its result: */
  method WriteFileAtomically(disk: Disk, contents: string, faults: Faults) returns (ok: bool, ghost steps: seq<System>)
    requires disk.fs.Valid()
    modifies disk
    ensures Calls(steps) && steps[0] == Beginning(old(disk.fs), contents)
    ensures steps[|steps| - 1].fs == disk.fs && steps[|steps| - 1].writer.Ended? && steps[|steps| - 1].writer.text == contents
    ensures steps[|steps| - 1].writer.ending == EndingOf(old(disk.fs), faults)
    ensures ok <==> (faults.mkdir == Made || (faults.mkdir == AlreadyThere && old(disk.fs).tmpDir)) && !faults.create &&
                    faults.write == WrittenWhole && !faults.rename && !faults.chmod
  {
    ghost var s := Beginning(disk.fs, contents);
    steps := [s];
    if faults.mkdir == CannotMake {
      ghost var e := s.(writer := Ended(contents, NoDirectory));
      assert PublishStep(s, e);
      CallsNext(steps, e);
      steps := steps + [e];
      return false, steps;
    }
    if faults.mkdir == Made {
      disk.fs := MakeDir(disk.fs);
    }
    ghost var d := s.(fs := disk.fs, writer := DirMade(contents));
    assert PublishStep(s, d);
    CallsNext(steps, d);
    steps := steps + [d];
    if faults.create || !disk.fs.tmpDir {
      steps := CleanUp(disk, contents, None, false, steps);
      return false, steps;
    }
    FreshNames(disk.fs);
    var t: nat :| Tmp(t) !in disk.fs.dir;
    var inode: nat :| inode !in disk.fs.inodes;
    disk.fs := Create(disk.fs, t, inode);
    ghost var c := d.(fs := disk.fs, writer := Created(contents, t));
    assert CreatesTemp(d, c, contents, t, inode);
    CallsNext(steps, c);
    steps := steps + [c];
    ok, steps := FillAndRename(disk, contents, t, faults, steps);
  }

  /** The part of writeFileAtomically that follows the creation of the temporary file. */
  method FillAndRename(disk: Disk, contents: string, t: nat, faults: Faults, ghost before: seq<System>)
      returns (ok: bool, ghost steps: seq<System>)
    requires Calls(before) && before[|before| - 1].fs == disk.fs && before[|before| - 1].writer == Created(contents, t)
    requires disk.fs.Valid() && Tmp(t) in disk.fs.dir
    modifies disk
    ensures Calls(steps) && steps[0] == before[0]
    ensures steps[|steps| - 1].fs == disk.fs && steps[|steps| - 1].writer.Ended? && steps[|steps| - 1].writer.text == contents
    ensures steps[|steps| - 1].writer.ending ==
              if faults.write != WrittenWhole || faults.rename then Failed(false) else if faults.chmod then Failed(true) else Published
    ensures ok <==> steps[|steps| - 1].writer.ending == Published
  {
    var written;
    written, steps := WriteTemp(disk, contents, t, faults.write, before);
    if !written || faults.rename {
      ghost var s := steps[|steps| - 1];
      ghost var f := s.(writer := Failing(contents, t, false));
      assert PublishStep(s, f);
      CallsNext(steps, f);
      steps := CleanUp(disk, contents, Some(t), false, steps + [f]);
      return false, steps;
    }
    ghost var s := steps[|steps| - 1];
    ghost var inode := disk.fs.dir[Tmp(t)];
    disk.fs := Rename(disk.fs, t);
    ghost var r := s.(fs := disk.fs, writer := Renamed(contents, t), published := s.published[inode := contents]);
    assert PublishStep(s, r);
    CallsNext(steps, r);
    steps := steps + [r];
    if faults.chmod {
      ghost var f := r.(writer := Failing(contents, t, true));
      assert PublishStep(r, f);
      CallsNext(steps, f);
      steps := CleanUp(disk, contents, Some(t), true, steps + [f]);
      return false, steps;
    }
    disk.fs := Chmod(disk.fs);
    ghost var e := r.(fs := disk.fs, writer := Ended(contents, Published));
    assert PublishStep(r, e);
    CallsNext(steps, e);
    return true, steps + [e];
  }

  /** os.WriteFile on the temporary file, which may fail at any point. */
  method WriteTemp(disk: Disk, contents: string, t: nat, fault: WriteResult, ghost before: seq<System>)
      returns (ok: bool, ghost steps: seq<System>)
    requires Calls(before) && before[|before| - 1].fs == disk.fs && before[|before| - 1].writer == Created(contents, t)
    requires disk.fs.Valid() && Tmp(t) in disk.fs.dir
    modifies disk
    ensures Calls(steps) && steps[0] == before[0] && steps[|steps| - 1].fs == disk.fs
    ensures disk.fs.Valid() && disk.fs.dir == old(disk.fs.dir)
    ensures ok <==> fault == WrittenWhole
    ensures ok ==> steps[|steps| - 1].writer == Written(contents, t)
    ensures !ok ==> steps[|steps| - 1].writer in {Created(contents, t), Writing(contents, t)}
  {
    steps := before;
    if fault == CannotOpen {
      return false, steps;
    }
    ghost var c := steps[|steps| - 1];
    disk.fs := SetBytes(disk.fs, Tmp(t), "");
    ghost var w := c.(fs := disk.fs, writer := Writing(contents, t));
    assert PublishStep(c, w);
    CallsNext(steps, w);
    steps := steps + [w];
    var n := if fault.FailsAfter? && fault.n < |contents| then fault.n else |contents|;
    disk.fs := SetBytes(disk.fs, Tmp(t), contents[..n]);
    ghost var x := w.(fs := disk.fs, writer := Writing(contents, t));
    assert Writes(w, x, contents, t, n);
    CallsNext(steps, x);
    steps := steps + [x];
    if fault.FailsAfter? {
      return false, steps;
    }
    ghost var d := x.(writer := Written(contents, t));
    assert contents[..n] == contents;
    assert PublishStep(x, d);
    CallsNext(steps, d);
    return true, steps + [d];
  }

  /** The deferred cleanup after a failure: the temporary file, if it was created, then the temporary directory. */
  method CleanUp(disk: Disk, contents: string, temp: Option<nat>, renamed: bool, ghost before: seq<System>)
      returns (ghost steps: seq<System>)
    requires Calls(before) && before[|before| - 1].fs == disk.fs
    requires before[|before| - 1].writer == match temp case None => DirMade(contents) case Some(t) => Failing(contents, t, renamed)
    requires temp == None ==> !renamed
    modifies disk
    ensures Calls(steps) && steps[0] == before[0]
    ensures steps[|steps| - 1].fs == disk.fs && steps[|steps| - 1].writer == Ended(contents, Failed(renamed))
  {
    ghost var s := before[|before| - 1];
    if temp.Some? {
      disk.fs := Remove(disk.fs, Tmp(temp.value));
    }
    ghost var c := s.(fs := disk.fs, writer := Cleaning(contents, renamed));
    assert PublishStep(s, c);
    CallsNext(before, c);
    steps := before + [c];
    disk.fs := RemoveTmpDir(disk.fs);
    ghost var e := c.(fs := disk.fs, writer := Ended(contents, Failed(renamed)));
    assert PublishStep(c, e);
    CallsNext(steps, e);
    steps := steps + [e];
  }

  /** What a publication leaves behind. */
  ghost predicate Outcome(fs: FileSystem, fs': FileSystem, contents: string, ending: Ending) {
    && fs.Valid() && fs'.Valid()
    && (ending.Failed? ==> !fs'.tmpDir)
    && if ending == Published || ending == Failed(true) then
         TargetHolds(fs', contents) &&
         fs'.inodes[fs'.dir[Target]].mode == if ending == Published then OUTPUT_MODE else TEMP_MODE
       else
         SameTarget(fs, fs')
  }

  lemma {:induction false} CallsKeepTarget(steps: seq<System>)
    requires Calls(steps) && Inv(steps[0]) && Publishing(steps[0].writer)
    ensures Publishing(steps[|steps| - 1].writer)
    ensures !HasReplaced(steps[|steps| - 1].writer) ==> SameTarget(steps[0].fs, steps[|steps| - 1].fs)
  {
    if |steps| > 1 {
      LastCall(steps);
      CallsKeepTarget(steps[..|steps| - 1]);
    }
  }

  lemma {:induction false} LastCall(steps: seq<System>)
    requires Calls(steps) && Inv(steps[0]) && |steps| > 1
    ensures Calls(steps[..|steps| - 1])
    ensures Publishing(steps[|steps| - 1].writer)
    ensures !HasReplaced(steps[|steps| - 1].writer) ==>
              !HasReplaced(steps[|steps| - 2].writer) && SameTarget(steps[|steps| - 2].fs, steps[|steps| - 1].fs)
  {
    CallsPrefix(steps);
    CallsSafe(steps[..|steps| - 1]);
    PublishKeepsTarget(steps[|steps| - 2], steps[|steps| - 1]);
  }

  /** A publication replaces the output file by the whole new content or leaves it as it was. */
  lemma PublicationOutcome(fs: FileSystem, contents: string, steps: seq<System>)
    requires fs.Valid() && Calls(steps) && steps[0] == Beginning(fs, contents) && steps[|steps| - 1].writer.Ended?
    requires steps[|steps| - 1].writer.text == contents
    ensures Outcome(fs, steps[|steps| - 1].fs, contents, steps[|steps| - 1].writer.ending)
  {
    CallsSafe(steps);
    CallsKeepTarget(steps);
  }
}
