/** The label printer (internal/lm/labels.go) and the parser of its output (cmd/gpu-feature-discovery/main_test.go). */
module Printer {
  import opened Outcomes
  import opened Strings
  import opened Labels
  import opened Orders

  function Line(key: string, value: string): string {
    key + "=" + value
  }

  /** The lines printed for a label map, its keys taken in `order`. */
  function Lines(order: seq<string>, labels: Labels): (lines: seq<string>)
    requires forall i | 0 <= i < |order| :: order[i] in labels
    ensures |lines| == |order|
  {
    seq(|order|, i requires 0 <= i < |order| => Line(order[i], labels[order[i]]))
  }

  function Unlines(lines: seq<string>): string {
    if lines == [] then "" else lines[0] + "\n" + Unlines(lines[1..])
  }

  lemma {:induction false} UnlinesSnoc(lines: seq<string>, line: string)
    ensures Unlines(lines + [line]) == Unlines(lines) + line + "\n"
  {
    if lines == [] {
      assert [line][1..] == [];
      assert lines + [line] == [line];
    } else {
      assert (lines + [line])[1..] == lines[1..] + [line];
      UnlinesSnoc(lines[1..], line);
    }
  }

  lemma LinesNext(order: seq<string>, labels: Labels, k: string)
    requires k in labels && forall i | 0 <= i < |order| :: order[i] in labels
    ensures Unlines(Lines(order + [k], labels)) == Unlines(Lines(order, labels)) + (Line(k, labels[k]) + "\n")
  {
    UnlinesSnoc(Lines(order, labels), Line(k, labels[k]));
    assert Lines(order + [k], labels) == Lines(order, labels) + [Line(k, labels[k])];
  }

  /** The lines of some of the labels, each once. */
  predicate PrintsSome(order: seq<string>, labels: Labels) {
    (forall i, j | 0 <= i < j < |order| :: order[i] != order[j]) && (forall i | 0 <= i < |order| :: order[i] in labels)
  }

  /** Labels.WriteTo, to a writer that fails when `room` bytes are written, if there is such a limit. A label set that is
      printed whole has one line for each label. */
  method WriteTo(labels: Labels, room: Option<nat>) returns (output: string, total: nat, ok: bool, ghost order: seq<string>)
    ensures total == |output| && (room.Some? ==> total <= room.value)
    ensures ok ==> Enumerates(order, labels.Keys) && |order| == |labels| && output == Unlines(Lines(order, labels))
    ensures !ok ==> room == Some(total) && PrintsSome(order, labels) && output < Unlines(Lines(order, labels))
  {
    output, total, order := "", 0, [];
    var left := labels.Keys;
    while left != {}
      invariant left <= labels.Keys
      invariant Enumerates(order, labels.Keys - left)
      invariant output == Unlines(Lines(order, labels)) && total == |output| && (room.Some? ==> total <= room.value)
    {
      var k :| k in left;
      var line := Line(k, labels[k]) + "\n";
      EnumeratesNext(order, labels.Keys, left, k);
      LinesNext(order, labels, k);
      order := order + [k];
      var n := if room.Some? && room.value - total < |line| then room.value - total else |line|;
      output := output + line[..n];
      total := total + n;
      if n < |line| {
        return output, total, false, order;
      }
      left := left - {k};
    }
    EnumeratesAll(order, labels.Keys);
    EnumerationLength(order, labels.Keys);
    return output, total, true, order;
  }

  /** One label, printed. */
  lemma OneLine(key: string, value: string)
    ensures Unlines(Lines([key], map[key := value])) == key + "=" + value + "\n"
  {
    assert Lines([key], map[key := value])[1..] == [];
    assert key + "=" + value + "\n" + "" == key + "=" + value + "\n";
  }

  // ----- the parser

  function ParseLines(lines: seq<string>): Result<Labels> {
    if lines == [] then Ok(map[])
    else
      var before, split := ParseLines(lines[..|lines| - 1]), Split(lines[|lines| - 1], '=');
      if before.Err? || |split| != 2 || split[0] in before.value then Err
      else Ok(before.value[split[0] := split[1]])
  }

  function Parse(output: string): Result<Labels> {
    ParseLines(Split(TrimRight(output, '\n'), '\n'))
  }

  /** What comes before the first '=' of a line, or all of it. */
  function KeyOf(line: string): string {
    Split(line, '=')[0]
  }

  lemma {:induction false} KeysOfLines(lines: seq<string>)
    requires ParseLines(lines).Ok?
    ensures forall k | k in ParseLines(lines).value :: exists i :: 0 <= i < |lines| && KeyOf(lines[i]) == k
    ensures forall i | 0 <= i < |lines| :: KeyOf(lines[i]) in ParseLines(lines).value
  {
    if lines != [] {
      var n := |lines| - 1;
      KeysOfLines(lines[..n]);
      assert forall i | 0 <= i < n :: lines[..n][i] == lines[i];
      forall k | k in ParseLines(lines).value ensures exists i :: 0 <= i < |lines| && KeyOf(lines[i]) == k {
        assert k in ParseLines(lines[..n]).value || KeyOf(lines[n]) == k;
      }
    }
  }

  /** Each line has exactly one '=', and no two have the same key. */
  ghost predicate WellFormed(lines: seq<string>) {
    && (forall i | 0 <= i < |lines| :: |Split(lines[i], '=')| == 2)
    && (forall i, j | 0 <= i < j < |lines| :: KeyOf(lines[i]) != KeyOf(lines[j]))
  }

  lemma WellFormedNext(lines: seq<string>, line: string)
    ensures WellFormed(lines + [line]) <==>
            WellFormed(lines) && |Split(line, '=')| == 2 && forall i | 0 <= i < |lines| :: KeyOf(lines[i]) != KeyOf(line)
  {
    var all := lines + [line];
    assert all[|lines|] == line && forall i | 0 <= i < |lines| :: all[i] == lines[i];
  }

  /** Lines are parsed iff they are well formed. */
  lemma {:induction false} ParsesExactly(lines: seq<string>)
    ensures ParseLines(lines).Ok? <==> WellFormed(lines)
  {
    if lines != [] {
      var before, line := lines[..|lines| - 1], lines[|lines| - 1];
      ParsesExactly(before);
      WellFormedNext(before, line);
      assert lines == before + [line];
      if ParseLines(before).Ok? {
        KeysOfLines(before);
      }
    }
  }

  /** Each label is then what its line says. */
  lemma {:induction false} ParsesEachLine(lines: seq<string>, i: nat)
    requires ParseLines(lines).Ok? && i < |lines|
    ensures |Split(lines[i], '=')| == 2 && KeyOf(lines[i]) in ParseLines(lines).value
    ensures ParseLines(lines).value[KeyOf(lines[i])] == Split(lines[i], '=')[1]
  {
    var n := |lines| - 1;
    if i < n {
      ParsesEachLine(lines[..n], i);
      ParsesExactly(lines);
      assert KeyOf(lines[i]) != KeyOf(lines[n]);
    }
  }

  lemma {:induction false} ParseFailsEarly(lines: seq<string>, n: nat)
    requires n <= |lines| && ParseLines(lines[..n]).Err?
    ensures ParseLines(lines).Err?
  {
    if n < |lines| {
      assert lines[..|lines| - 1][..n] == lines[..n];
      ParseFailsEarly(lines[..|lines| - 1], n);
    } else {
      assert lines[..n] == lines;
    }
  }

  /** buildLabelMapFromOutput. */
  method BuildLabelMapFromOutput(output: string) returns (r: Result<Labels>)
    ensures r == Parse(output)
  {
    var labels: Labels := map[];
    var lines := Split(TrimRight(output, '\n'), '\n');
    for i := 0 to |lines|
      invariant ParseLines(lines[..i]) == Ok(labels)
    {
      assert lines[..i + 1][..i] == lines[..i];
      var split := Split(lines[i], '=');
      if |split| != 2 {
        ParseFailsEarly(lines, i + 1);
        return Err;
      }
      var key, value := split[0], split[1];
      if key in labels {
        ParseFailsEarly(lines, i + 1);
        return Err;
      }
      labels := labels[key := value];
    }
    assert lines[..|lines|] == lines;
    return Ok(labels);
  }

  // ----- the round trip

  predicate CleanText(s: string) {
    '=' !in s && '\n' !in s
  }

  /** No key and no value holds a separator. */
  predicate Clean(labels: Labels) {
    forall k | k in labels :: CleanText(k) && CleanText(labels[k])
  }

  /** What the parser returns is never empty and never holds a separator. */
  lemma {:induction false} ParsedIsClean(lines: seq<string>)
    requires ParseLines(lines).Ok? && forall i | 0 <= i < |lines| :: '\n' !in lines[i]
    ensures Clean(ParseLines(lines).value)
    ensures lines != [] ==> ParseLines(lines).value != map[]
  {
    if lines != [] {
      var n := |lines| - 1;
      ParsedIsClean(lines[..n]);
      SplitParts(lines[n], '=', 0);
      SplitParts(lines[n], '=', 1);
      assert Split(lines[n], '=')[0] in ParseLines(lines).value;
    }
  }

  lemma SplitLine(key: string, value: string)
    requires CleanText(key) && CleanText(value)
    ensures Split(Line(key, value), '=') == [key, value]
  {
    SplitAt(key, '=', value);
    SplitWithout(value, '=');
    assert Line(key, value) == key + ['='] + value;
  }

  lemma ParseOneMore(lines: seq<string>, line: string, before: Labels, key: string, value: string)
    requires ParseLines(lines) == Ok(before) && Split(line, '=') == [key, value] && key !in before
    ensures ParseLines(lines + [line]) == Ok(before[key := value])
  {
  }

  function Restrict(labels: Labels, order: seq<string>): Labels {
    map k | k in labels && k in order :: labels[k]
  }

  lemma RestrictSnoc(labels: Labels, order: seq<string>, k: string)
    requires k in labels
    ensures Restrict(labels, order + [k]) == Restrict(labels, order)[k := labels[k]]
  {
  }

  lemma ParsesNext(order: seq<string>, k: string, labels: Labels)
    requires forall i | 0 <= i < |order| :: order[i] in labels
    requires ParseLines(Lines(order, labels)) == Ok(Restrict(labels, order))
    requires k in labels && k !in order && CleanText(k) && CleanText(labels[k])
    ensures ParseLines(Lines(order + [k], labels)) == Ok(Restrict(labels, order + [k]))
  {
    var line := Line(k, labels[k]);
    SplitLine(k, labels[k]);
    ParseOneMore(Lines(order, labels), line, Restrict(labels, order), k, labels[k]);
    assert Lines(order + [k], labels) == Lines(order, labels) + [line];
    RestrictSnoc(labels, order, k);
  }

  lemma {:induction false} ParsesLines(order: seq<string>, labels: Labels)
    requires Clean(labels) && forall i, j | 0 <= i < j < |order| :: order[i] != order[j]
    requires forall i | 0 <= i < |order| :: order[i] in labels
    ensures ParseLines(Lines(order, labels)) == Ok(Restrict(labels, order))
  {
    if order == [] {
      assert Restrict(labels, order) == map[];
    } else {
      var n := |order| - 1;
      ParsesLines(order[..n], labels);
      ParsesNext(order[..n], order[n], labels);
      assert order == order[..n] + [order[n]];
    }
  }

  lemma UnlinesCons(lines: seq<string>, last: string)
    requires lines != []
    ensures Unlines(lines) + last == lines[0] + ['\n'] + (Unlines(lines[1..]) + last)
  {
  }

  lemma {:induction false} SplitUnlines(lines: seq<string>, last: string)
    requires '\n' !in last && forall i | 0 <= i < |lines| :: '\n' !in lines[i]
    ensures Split(Unlines(lines) + last, '\n') == lines + [last]
  {
    if lines == [] {
      SplitWithout(last, '\n');
      assert Unlines(lines) + last == last;
    } else {
      var rest := Unlines(lines[1..]) + last;
      UnlinesCons(lines, last);
      SplitUnlines(lines[1..], last);
      SplitAt(lines[0], '\n', rest);
      assert [lines[0]] + (lines[1..] + [last]) == lines + [last];
    }
  }

  lemma TrimRightOne(s: string)
    requires s != [] && s[|s| - 1] != '\n'
    ensures TrimRight(s + "\n", '\n') == s
  {
  }

  /** Splitting printed lines: the one newline trimmed is the last line's. */
  lemma {:induction false} SplitPrinted(lines: seq<string>)
    requires lines != [] && forall i | 0 <= i < |lines| :: lines[i] != "" && '\n' !in lines[i]
    ensures Split(TrimRight(Unlines(lines), '\n'), '\n') == lines
  {
    var n := |lines| - 1;
    var last := lines[n];
    assert lines == lines[..n] + [last];
    UnlinesSnoc(lines[..n], last);
    var trimmed := Unlines(lines[..n]) + last;
    assert trimmed[|trimmed| - 1] == last[|last| - 1];
    TrimRightOne(trimmed);
    SplitUnlines(lines[..n], last);
  }

  lemma ParseIsClean(output: string)
    requires Parse(output).Ok?
    ensures Clean(Parse(output).value) && Parse(output).value != map[]
  {
    var trimmed := TrimRight(output, '\n');
    forall i | 0 <= i < |Split(trimmed, '\n')| ensures '\n' !in Split(trimmed, '\n')[i] {
      SplitParts(trimmed, '\n', i);
    }
    ParsedIsClean(Split(trimmed, '\n'));
  }

  lemma CleanParses(order: seq<string>, labels: Labels)
    requires Enumerates(order, labels.Keys) && labels != map[] && Clean(labels)
    ensures Parse(Unlines(Lines(order, labels))) == Ok(labels)
  {
    var some :| some in labels;
    assert some in labels.Keys;
    var lines := Lines(order, labels);
    forall i | 0 <= i < |lines| ensures lines[i] != "" && '\n' !in lines[i] {
      assert lines[i] == order[i] + "=" + labels[order[i]];
    }
    SplitPrinted(lines);
    ParsesLines(order, labels);
    assert Restrict(labels, order) == labels;
  }

  /** Parsing what was printed gives the label map back, for every printing order, exactly when
      the map is not empty and holds no separator. */
  lemma RoundTripExactly(order: seq<string>, labels: Labels)
    requires Enumerates(order, labels.Keys)
    ensures Parse(Unlines(Lines(order, labels))) == Ok(labels) <==> labels != map[] && Clean(labels)
  {
    if labels != map[] && Clean(labels) {
      CleanParses(order, labels);
    } else if Parse(Unlines(Lines(order, labels))).Ok? {
      ParseIsClean(Unlines(Lines(order, labels)));
    }
  }
}
