/** Label sets and the labelers that generate them (internal/lm/labels.go, internal/lm/list.go, internal/lm/empty.go). */
module Labels {
  import opened Outcomes

  type Labels = map<string, string>

  /** A labeler: `empty`, a fixed label set, a source that answers when asked, or a `list`. */
  datatype Labeler =
    | Empty
    | Fixed(labels: Labels)
    | Source(answer: Result<Labels>)
    | List(labelers: seq<Labeler>)

  function Merge(labelers: seq<Labeler>): Labeler {
    List(labelers)
  }

  /** What a labeler's Labels method returns. */
  function Evaluate(l: Labeler): Result<Labels>
    decreases l, 1
  {
    match l
    case Empty => Ok(map[])
    case Fixed(labels) => Ok(labels)
    case Source(answer) => answer
    case List(labelers) => EvaluateAll(labelers)
  }

  /** Two label sets, the second overriding the first. */
  function Override(a: Result<Labels>, b: Result<Labels>): Result<Labels> {
    if a.Ok? && b.Ok? then Ok(a.value + b.value) else Err
  }

  function EvaluateAll(ls: seq<Labeler>): Result<Labels>
    decreases ls, 0
  {
    if ls == [] then Ok(map[]) else Override(Evaluate(ls[0]), EvaluateAll(ls[1..]))
  }

  /** The labelers of a nest of lists that are not lists themselves, in order. */
  function Leaves(l: Labeler): (leaves: seq<Labeler>)
    ensures forall i | 0 <= i < |leaves| :: !leaves[i].List?
    decreases l, 1
  {
    if l.List? then AllLeaves(l.labelers) else [l]
  }

  function AllLeaves(ls: seq<Labeler>): (leaves: seq<Labeler>)
    ensures forall i | 0 <= i < |leaves| :: !leaves[i].List?
    decreases ls, 0
  {
    if ls == [] then [] else Leaves(ls[0]) + AllLeaves(ls[1..])
  }

  lemma {:induction false} EvaluateAppend(a: seq<Labeler>, b: seq<Labeler>)
    ensures EvaluateAll(a + b) == Override(EvaluateAll(a), EvaluateAll(b))
  {
    if a == [] {
      assert a + b == b;
      if EvaluateAll(b).Ok? {
        assert map[] + EvaluateAll(b).value == EvaluateAll(b).value;
      }
    } else {
      assert (a + b)[1..] == a[1..] + b;
      EvaluateAppend(a[1..], b);
      OverrideAssociates(Evaluate(a[0]), EvaluateAll(a[1..]), EvaluateAll(b));
    }
  }

  lemma OverrideAssociates(a: Result<Labels>, b: Result<Labels>, c: Result<Labels>)
    ensures Override(Override(a, b), c) == Override(a, Override(b, c))
  {
    if a.Ok? && b.Ok? && c.Ok? {
      assert (a.value + b.value) + c.value == a.value + (b.value + c.value);
    }
  }

  /** Nested merges are one flat merge of their leaves. */
  lemma {:induction false} MergeIsFlat(l: Labeler)
    ensures Evaluate(l) == EvaluateAll(Leaves(l))
    decreases l, 1
  {
    if l.List? {
      AllMergesAreFlat(l.labelers);
    } else if Evaluate(l).Ok? {
      assert Evaluate(l).value + map[] == Evaluate(l).value;
    }
  }

  lemma {:induction false} AllMergesAreFlat(ls: seq<Labeler>)
    ensures EvaluateAll(ls) == EvaluateAll(AllLeaves(ls))
    decreases ls, 0
  {
    if ls != [] {
      MergeIsFlat(ls[0]);
      AllMergesAreFlat(ls[1..]);
      EvaluateAppend(Leaves(ls[0]), AllLeaves(ls[1..]));
    }
  }

  lemma EvaluateOne(a: Labeler)
    ensures EvaluateAll([a]) == Evaluate(a)
  {
    if Evaluate(a).Ok? {
      assert Evaluate(a).value + map[] == Evaluate(a).value;
    }
  }

  lemma EvaluatePair(a: Labeler, b: Labeler)
    ensures EvaluateAll([a, b]) == Override(Evaluate(a), Evaluate(b))
  {
    assert [a, b] == [a] + [b];
    EvaluateAppend([a], [b]);
    EvaluateOne(a);
    EvaluateOne(b);
  }

  /** Merge is associative and `empty` is its identity. */
  lemma MergeIsMonoid(a: Labeler, b: Labeler, c: Labeler)
    ensures Evaluate(Merge([Merge([a, b]), c])) == Evaluate(Merge([a, Merge([b, c])])) == Evaluate(Merge([a, b, c]))
    ensures Evaluate(Merge([a, Empty])) == Evaluate(Merge([Empty, a])) == Evaluate(a)
  {
    EvaluatePair(a, b);
    EvaluatePair(b, c);
    EvaluatePair(Merge([a, b]), c);
    EvaluatePair(a, Merge([b, c]));
    OverrideAssociates(Evaluate(a), Evaluate(b), Evaluate(c));
    assert [a] + [b, c] == [a, b, c];
    EvaluateAppend([a], [b, c]);
    EvaluateOne(a);
    EvaluatePair(a, Empty);
    EvaluatePair(Empty, a);
    if Evaluate(a).Ok? {
      assert Evaluate(a).value + map[] == Evaluate(a).value == map[] + Evaluate(a).value;
    }
  }

  lemma {:induction false} FailsWithSome(ls: seq<Labeler>)
    ensures EvaluateAll(ls).Err? <==> exists i | 0 <= i < |ls| :: Evaluate(ls[i]).Err?
  {
    if ls != [] {
      FailsWithSome(ls[1..]);
      if i :| 0 <= i < |ls[1..]| && Evaluate(ls[1..][i]).Err? {
        assert Evaluate(ls[i + 1]).Err?;
      }
    }
  }

  /** The index of the last labeler that sets `key`, if any does. */
  ghost predicate LastToSet(ls: seq<Labeler>, key: string, i: nat) {
    i < |ls| && Evaluate(ls[i]).Ok? && key in Evaluate(ls[i]).value &&
    forall j | i < j < |ls| :: Evaluate(ls[j]).Ok? && key !in Evaluate(ls[j]).value
  }

  /** Each key of a merge has the value given by the last labeler that sets it. */
  lemma {:induction false} MergeTakesTheLast(ls: seq<Labeler>, key: string)
    requires EvaluateAll(ls).Ok?
    ensures key in EvaluateAll(ls).value <==> exists i: nat :: LastToSet(ls, key, i)
    ensures forall i: nat | LastToSet(ls, key, i) :: EvaluateAll(ls).value[key] == Evaluate(ls[i]).value[key]
  {
    if ls != [] {
      var rest := ls[1..];
      MergeTakesTheLast(rest, key);
      forall i: nat | LastToSet(ls, key, i)
        ensures key in EvaluateAll(ls).value && EvaluateAll(ls).value[key] == Evaluate(ls[i]).value[key]
      {
        if i > 0 {
          assert LastToSet(rest, key, i - 1);
        } else {
          assert forall j | 0 <= j < |rest| :: rest[j] == ls[j + 1];
          assert forall j: nat :: !LastToSet(rest, key, j);
        }
      }
      if key in EvaluateAll(rest).value {
        var i: nat :| LastToSet(rest, key, i);
        assert LastToSet(ls, key, i + 1);
      } else if key in EvaluateAll(ls).value {
        FailsWithSome(rest);
        forall j | 0 < j < |ls| ensures Evaluate(ls[j]).Ok? && key !in Evaluate(ls[j]).value {
          assert Evaluate(rest[j - 1]) == Evaluate(ls[j]);
          NotInRest(rest, key, j - 1);
        }
        assert LastToSet(ls, key, 0);
      }
    }
  }

  lemma {:induction false} NotInRest(ls: seq<Labeler>, key: string, i: nat)
    requires EvaluateAll(ls).Ok? && i < |ls| && key !in EvaluateAll(ls).value
    ensures Evaluate(ls[i]).Ok? && key !in Evaluate(ls[i]).value
  {
    if i > 0 {
      NotInRest(ls[1..], key, i - 1);
    }
  }

  // ----- the loops

  /** `for k, v := range labels { all[k] = v }`, over the map in whatever order Go takes. */
  method CopyInto(all: Labels, labels: Labels) returns (r: Labels)
    ensures r == all + labels
  {
    r := all;
    var left := labels.Keys;
    while left != {}
      invariant left <= labels.Keys
      invariant r == all + map k | k in labels && k !in left :: labels[k]
    {
      var k :| k in left;
      r := r[k := labels[k]];
      left := left - {k};
    }
  }

  /** list.Labels. */
  method ListLabels(ls: seq<Labeler>) returns (r: Result<Labels>)
    ensures r == EvaluateAll(ls)
    decreases ls, 0
  {
    var all: Labels := map[];
    assert ls[0..] == ls;
    if EvaluateAll(ls).Ok? {
      assert all + EvaluateAll(ls).value == EvaluateAll(ls).value;
    }
    for i := 0 to |ls|
      invariant EvaluateAll(ls) == Override(Ok(all), EvaluateAll(ls[i..]))
    {
      assert ls[i..][0] == ls[i] && ls[i..][1..] == ls[i + 1..];
      var labels := LabelsOf(ls[i]);
      if labels.Err? {
        return Err;
      }
      OverrideAssociates(Ok(all), labels, EvaluateAll(ls[i + 1..]));
      all := CopyInto(all, labels.value);
    }
    assert all + map[] == all;
    return Ok(all);
  }

  /** The Labels method of each labeler. */
  method LabelsOf(l: Labeler) returns (r: Result<Labels>)
    ensures r == Evaluate(l)
    decreases l, 1
  {
    match l
    case Empty => r := Ok(map[]);
    case Fixed(labels) => r := Ok(labels);
    case Source(answer) => r := answer;
    case List(labelers) => r := ListLabels(labelers);
  }
}
