/** Resource managers and devices (internal/resource/types.go, fallback.go, null.go, factory.go). */
module Managers {
  import opened Outcomes

  /** What the calls on a device answer between one Init and the next. */
  datatype Device = Device(
    name: Result<string>,
    migEnabled: Result<bool>,
    migCapable: Result<bool>,
    migDevices: Result<seq<Device>>,
    attributes: Result<map<string, int>>,
    memoryMB: Result<nat>,
    compute: Result<(int, int)>,
    parent: Result<Parent>)

  /** The device a MIG device was carved out of; only its name is ever asked for. */
  datatype Parent = Parent(name: Result<string>)

  /** What the queries on a manager answer between one Init and the next. */
  datatype Answers = Answers(devices: Result<seq<Device>>, driverVersion: Result<string>, cudaVersion: Result<(nat, nat)>)

  const NULL_ANSWERS := Answers(Ok([]), Err, Err)

  /** A call that reaches a manager; a call on one of its devices is a `Query` too. */
  datatype Event = InitOk | InitFailed | Query | Shutdown

  predicate OnlyQueries(before: seq<Event>, after: seq<Event>) {
    before <= after && forall i | |before| <= i < |after| :: after[i] == Query
  }

  /** Whether the library is initialised after these calls; None if some call came at the wrong time. */
  function Initialised(log: seq<Event>): Option<bool> {
    if log == [] then Some(false)
    else match (Initialised(log[..|log| - 1]), log[|log| - 1])
      case (Some(false), InitOk) => Some(true)
      case (Some(false), InitFailed) => Some(false)
      case (Some(true), Query) => Some(true)
      case (Some(true), Shutdown) => Some(false)
      case _ => None
  }

  /** One bracket: a failed Init, or a successful Init, queries, and one Shutdown. */
  ghost predicate Bracket(before: seq<Event>, after: seq<Event>) {
    after == before + [InitFailed] ||
    exists queried :: OnlyQueries(before + [InitOk], queried) && after == queried + [Shutdown]
  }

  lemma {:induction false} QueriesStayInitialised(before: seq<Event>, after: seq<Event>)
    requires OnlyQueries(before, after) && Initialised(before) == Some(true)
    ensures Initialised(after) == Some(true)
  {
    if |before| < |after| {
      QueriesStayInitialised(before, after[..|after| - 1]);
    } else {
      assert after == before;
    }
  }

  /** Runs made of brackets keep every query between a successful Init and its Shutdown. */
  lemma BracketConforms(before: seq<Event>, after: seq<Event>)
    requires Bracket(before, after) && Initialised(before) == Some(false)
    ensures Initialised(after) == Some(false)
  {
    if after == before + [InitFailed] {
      assert after[..|after| - 1] == before;
    } else {
      var queried :| OnlyQueries(before + [InitOk], queried) && after == queried + [Shutdown];
      assert (before + [InitOk])[..|before|] == before;
      QueriesStayInitialised(before + [InitOk], queried);
      assert after[..|after| - 1] == queried;
    }
  }

  /** What it means that no call came at the wrong time: before every query and every Shutdown there is a successful Init
      with nothing but queries between, and before every Init either nothing, or a Shutdown or a failed Init. */
  lemma {:induction false} CallsAreInTime(log: seq<Event>, i: nat)
    requires Initialised(log).Some? && i < |log|
    ensures log[i] == Query || log[i] == Shutdown ==>
              exists j: nat :: j < i && log[j] == InitOk && forall k | j < k < i :: log[k] == Query
    ensures log[i] == InitOk || log[i] == InitFailed ==> i == 0 || log[i - 1] == Shutdown || log[i - 1] == InitFailed
  {
    var before := log[..|log| - 1];
    if i < |before| {
      CallsAreInTime(before, i);
      if log[i] == Query || log[i] == Shutdown {
        var j: nat :| j < i && before[j] == InitOk && forall k | j < k < i :: before[k] == Query;
        assert log[j] == InitOk && forall k | j < k < i :: log[k] == Query;
      }
    } else {
      StateOf(before);
      if log[i] == Query || log[i] == Shutdown {
        var j: nat :| j < |before| && before[j] == InitOk && forall k | j < k < |before| :: before[k] == Query;
        assert log[j] == InitOk && forall k | j < k < i :: log[k] == Query;
      }
    }
  }

  /** The library is initialised iff only queries came after its last successful Init. */
  lemma {:induction false} StateOf(log: seq<Event>)
    ensures Initialised(log) == Some(true) ==>
              exists j: nat :: j < |log| && log[j] == InitOk && forall k | j < k < |log| :: log[k] == Query
    ensures Initialised(log) == Some(false) ==> log == [] || log[|log| - 1] == Shutdown || log[|log| - 1] == InitFailed
  {
    if log != [] {
      var before := log[..|log| - 1];
      StateOf(before);
      if Initialised(log) == Some(true) {
        if log[|log| - 1] == Query {
          var j: nat :| j < |before| && before[j] == InitOk && forall k | j < k < |before| :: before[k] == Query;
          assert log[j] == InitOk && forall k | j < k < |log| :: log[k] == Query;
        } else {
          assert log[|log| - 1] == InitOk;
        }
      }
    }
  }

  /** How many times the library has been initialised. */
  function Inits(log: seq<Event>): nat {
    multiset(log)[InitOk]
  }

  /** A bracket initialises the library once, unless it is a failed Init. */
  lemma BracketCounts(before: seq<Event>, after: seq<Event>)
    requires Bracket(before, after)
    ensures Inits(after) == Inits(before) + if after == before + [InitFailed] then 0 else 1
  {
    if after != before + [InitFailed] {
      var queried :| OnlyQueries(before + [InitOk], queried) && after == queried + [Event.Shutdown];
      var queries := queried[|before| + 1..];
      assert queried == before + [InitOk] + queries && InitOk !in multiset(queries);
    }
  }

  /** Both of a bracket. */
  lemma BracketKeeps(before: seq<Event>, after: seq<Event>)
    requires Bracket(before, after)
    ensures Initialised(before) == Some(false) ==> Initialised(after) == Some(false)
    ensures Inits(after) == Inits(before) + if after == before + [InitFailed] then 0 else 1
  {
    BracketCounts(before, after);
    if Initialised(before) == Some(false) {
      BracketConforms(before, after);
    }
  }

  /** A library-backed manager, or the null manager. */
  class Backend {
    const isNull: bool
    var answers: Answers
    var log: seq<Event>

    ghost predicate Valid()
      reads this
    {
      isNull ==> answers == NULL_ANSWERS
    }

    constructor (isNull: bool, answers: Answers)
      requires isNull ==> answers == NULL_ANSWERS
      ensures Valid() && this.isNull == isNull && log == []
    {
      this.isNull, this.answers, log := isNull, answers, [];
    }

    /** A library may fail to initialise, and may find other devices each time. */
    method Init() returns (ok: bool)
      requires Valid()
      modifies this
      ensures Valid() && (isNull ==> ok)
      ensures log == old(log) + [if ok then InitOk else InitFailed]
    {
      ok := true;
      if !isNull {
        ok := *;
        answers := *;
      }
      log := log + [if ok then InitOk else InitFailed];
    }

    method Shutdown()
      modifies `log
      ensures log == old(log) + [Event.Shutdown]
    {
      log := log + [Event.Shutdown];
    }

    method Ask<T>(answer: Result<T>) returns (r: Result<T>)
      modifies `log
      ensures r == answer && log == old(log) + [Query]
    {
      r := answer;
      log := log + [Query];
    }
  }

  /** WithConfig: the manager itself, or withFallBack around it. */
  class Manager {
    const failOnInitError: bool
    const fallback: Backend
    ghost const original: Backend
    var wraps: Backend

    /** The original manager is in use until its first failed Init; from then on it is never called again. */
    ghost predicate Valid()
      reads this, wraps, fallback, original
    {
      && fallback.isNull && fallback.Valid() && original != fallback && wraps.Valid()
      && (wraps == original || (wraps == fallback && !failOnInitError))
      && (!failOnInitError ==>
          (forall i | 0 <= i < |original.log| - 1 :: original.log[i] != InitFailed) &&
          (wraps == fallback <==> original.log != [] && original.log[|original.log| - 1] == InitFailed))
    }

    constructor (manager: Backend, failOnInitError: bool)
      requires manager.Valid() && manager.log == []
      ensures Valid() && original == manager == wraps && this.failOnInitError == failOnInitError
      ensures fresh(fallback)
    {
      var n := new Backend(true, NULL_ANSWERS);
      this.failOnInitError, fallback, original, wraps := failOnInitError, n, manager, manager;
    }

    /** The last call was an Init that failed, and nothing was there to fall back to. */
    ghost predicate LastInitFailed()
      reads this, wraps
    {
      failOnInitError && wraps.log != [] && wraps.log[|wraps.log| - 1] == InitFailed
    }

    /** The wrapped manager answered queries and nothing else happened. */
    twostate predicate Asked()
      reads this, wraps
    {
      wraps == old(wraps) && wraps.answers == old(wraps.answers) && OnlyQueries(old(wraps.log), wraps.log)
    }

    method Init() returns (ok: bool)
      requires Valid()
      modifies this, wraps
      ensures Valid()
      ensures !failOnInitError ==> ok
      ensures wraps == if ok && old(wraps).log == old(wraps.log) + [InitFailed] then fallback else old(wraps)
      ensures old(wraps).log == old(wraps.log) + [InitOk] || old(wraps).log == old(wraps.log) + [InitFailed]
      ensures !ok <==> failOnInitError && old(wraps).log == old(wraps.log) + [InitFailed]
      ensures old(wraps) == fallback ==> wraps == fallback
    {
      ok := wraps.Init();
      assert wraps.log[|old(wraps.log)|] == if ok then InitOk else InitFailed;
      if !ok && !failOnInitError {
        wraps := fallback;
        ok := true;
      }
    }

    method Shutdown()
      requires Valid()
      modifies wraps`log
      ensures Valid() && wraps.log == old(wraps.log) + [Event.Shutdown]
    {
      wraps.Shutdown();
    }

    /** A call on one of the manager's devices. */
    method Ask<T>(answer: Result<T>) returns (r: Result<T>)
      requires Valid()
      modifies wraps`log
      ensures Valid() && Asked() && r == answer && wraps.log == old(wraps.log) + [Query]
    {
      r := wraps.Ask(answer);
    }

    method GetDevices() returns (r: Result<seq<Device>>)
      requires Valid()
      modifies wraps`log
      ensures Valid() && Asked() && r == wraps.answers.devices && wraps.log == old(wraps.log) + [Query]
    {
      r := wraps.Ask(wraps.answers.devices);
    }

    method GetDriverVersion() returns (r: Result<string>)
      requires Valid()
      modifies wraps`log
      ensures Valid() && Asked() && r == wraps.answers.driverVersion && wraps.log == old(wraps.log) + [Query]
    {
      r := wraps.Ask(wraps.answers.driverVersion);
    }

    method GetCudaDriverVersion() returns (r: Result<(nat, nat)>)
      requires Valid()
      modifies wraps`log
      ensures Valid() && Asked() && r == wraps.answers.cudaVersion && wraps.log == old(wraps.log) + [Query]
    {
      r := wraps.Ask(wraps.answers.cudaVersion);
    }
  }
}
