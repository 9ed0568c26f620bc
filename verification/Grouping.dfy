/** Devices grouped by name, and label sets laid over one another in the order of a loop over a Go map. */
module Grouping {
  import opened Outcomes
  import opened Labels
  import opened Managers

  function Name(d: Device): string {
    if d.name.Ok? then d.name.value else ""
  }

  predicate NamesAnswer(ds: seq<Device>) {
    forall i | 0 <= i < |ds| :: ds[i].name.Ok?
  }

  function Names(ds: seq<Device>): (names: seq<string>)
    ensures |names| == |ds|
  {
    seq(|ds|, i requires 0 <= i < |ds| => Name(ds[i]))
  }

  // ----- counts

  function Bump(counts: map<string, nat>, name: string): map<string, nat> {
    counts[name := (if name in counts then counts[name] else 0) + 1]
  }

  function Tally(names: seq<string>): map<string, nat> {
    if names == [] then map[] else Bump(Tally(names[..|names| - 1]), names[|names| - 1])
  }

  lemma TallySnoc(names: seq<string>, name: string)
    ensures Tally(names + [name]) == Bump(Tally(names), name)
  {
  }

  /** A name is counted once for each of its occurrences. */
  lemma {:induction false} TallyIsMultiplicity(names: seq<string>)
    ensures forall n :: n in Tally(names) <==> n in names
    ensures forall n | n in Tally(names) :: Tally(names)[n] == multiset(names)[n] >= 1
  {
    if names != [] {
      var k := |names| - 1;
      TallyIsMultiplicity(names[..k]);
      assert names == names[..k] + [names[k]];
    }
  }

  /** The sum of the counts of the names in `order`. */
  function SumOver(order: seq<string>, counts: map<string, nat>): nat {
    if order == [] then 0
    else
      var n := order[|order| - 1];
      SumOver(order[..|order| - 1], counts) + if n in counts then counts[n] else 0
  }

  lemma {:induction false} SumAfterBump(order: seq<string>, counts: map<string, nat>, name: string)
    requires forall i, j | 0 <= i < j < |order| :: order[i] != order[j]
    ensures SumOver(order, Bump(counts, name)) == SumOver(order, counts) + if name in order then 1 else 0
  {
    if order != [] {
      var k := |order| - 1;
      SumAfterBump(order[..k], counts, name);
      assert order == order[..k] + [order[k]];
    }
  }

  /** Counting loses nothing: in whatever order the counts are added up, they sum to the number of names. */
  lemma {:induction false} CountsSumUp(order: seq<string>, names: seq<string>)
    requires forall i, j | 0 <= i < j < |order| :: order[i] != order[j]
    requires forall n | n in names :: n in order
    ensures SumOver(order, Tally(names)) == |names|
  {
    if names == [] {
      SumOfNothing(order);
    } else {
      var k := |names| - 1;
      CountsSumUp(order, names[..k]);
      SumAfterBump(order, Tally(names[..k]), names[k]);
    }
  }

  lemma {:induction false} SumOfNothing(order: seq<string>)
    ensures SumOver(order, map[]) == 0
  {
    if order != [] {
      SumOfNothing(order[..|order| - 1]);
    }
  }

  lemma {:induction false} AllOfOneName(names: seq<string>, name: string)
    requires forall i | 0 <= i < |names| :: names[i] == name
    ensures multiset(names)[name] == |names|
  {
    if names != [] {
      var n := |names| - 1;
      AllOfOneName(names[..n], name);
      assert names == names[..n] + [names[n]];
    }
  }

  // ----- one device for each name

  /** The map a loop leaves behind that writes each device under its name: the last device of each name. */
  function LastByName(ds: seq<Device>): map<string, Device> {
    if ds == [] then map[]
    else LastByName(ds[..|ds| - 1])[Name(ds[|ds| - 1]) := ds[|ds| - 1]]
  }

  lemma {:induction false} LastByNameHolds(ds: seq<Device>)
    ensures forall n :: n in LastByName(ds) <==> n in Names(ds)
    ensures forall n | n in LastByName(ds) :: LastByName(ds)[n] in ds && Name(LastByName(ds)[n]) == n
  {
    if ds != [] {
      var k := |ds| - 1;
      LastByNameHolds(ds[..k]);
      assert Names(ds) == Names(ds[..k]) + [Name(ds[k])];
    }
  }

  /** It is the last one, not just any. */
  lemma {:induction false} LastByNameIsLast(ds: seq<Device>, n: string) returns (i: nat)
    requires n in LastByName(ds)
    ensures i < |ds| && ds[i] == LastByName(ds)[n] && Name(ds[i]) == n
    ensures forall j | i < j < |ds| :: Name(ds[j]) != n
  {
    var k := |ds| - 1;
    i := k;
    if Name(ds[k]) != n {
      i := LastByNameIsLast(ds[..k], n);
      assert forall j | i < j < k :: ds[..k][j] == ds[j];
    }
  }

  // ----- label sets on top of one another

  function Overlay(ls: seq<Labels>): Labels {
    if ls == [] then map[] else Overlay(ls[..|ls| - 1]) + ls[|ls| - 1]
  }

  lemma {:induction false} OverlayKeys(ls: seq<Labels>)
    ensures forall k :: k in Overlay(ls) <==> exists i :: 0 <= i < |ls| && k in ls[i]
  {
    if ls != [] {
      var n := |ls| - 1;
      OverlayKeys(ls[..n]);
      forall k ensures k in Overlay(ls) <==> exists i :: 0 <= i < |ls| && k in ls[i] {
        if i :| 0 <= i < |ls| && k in ls[i] {
          assert i < n ==> ls[..n][i] == ls[i];
        }
      }
    }
  }

  /** The topmost label set is all that shows exactly when it has every key of those below it. */
  lemma OverlayIsLastExactly(ls: seq<Labels>)
    requires ls != []
    ensures Overlay(ls) == ls[|ls| - 1] <==> forall i | 0 <= i < |ls| :: ls[i].Keys <= ls[|ls| - 1].Keys
  {
    var last := ls[|ls| - 1];
    OverlayKeys(ls);
    if forall i | 0 <= i < |ls| :: ls[i].Keys <= last.Keys {
      assert Overlay(ls).Keys == last.Keys;
    }
  }

  /** When the label sets are disjoint none of them loses a label. */
  lemma {:induction false} OverlayOfDisjoint(ls: seq<Labels>, i: nat, k: string)
    requires i < |ls| && k in ls[i]
    requires forall j | 0 <= j < |ls| && j != i :: k !in ls[j]
    ensures k in Overlay(ls) && Overlay(ls)[k] == ls[i][k]
  {
    var n := |ls| - 1;
    if i < n {
      OverlayOfDisjoint(ls[..n], i, k);
    }
  }

  /** A list of labelers evaluates to their label sets laid over one another. */
  lemma {:induction false} EvaluateOverlay(labelers: seq<Labeler>, ls: seq<Labels>)
    requires |labelers| == |ls| && forall i | 0 <= i < |ls| :: Evaluate(labelers[i]) == Ok(ls[i])
    ensures EvaluateAll(labelers) == Ok(Overlay(ls))
  {
    if ls != [] {
      var n := |ls| - 1;
      EvaluateOverlay(labelers[..n], ls[..n]);
      EvaluateAppend(labelers[..n], [labelers[n]]);
      EvaluateOne(labelers[n]);
      assert labelers == labelers[..n] + [labelers[n]];
    }
  }
}
