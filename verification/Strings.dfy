/** The parts of Go's `strings` package the program uses. A Go string is a sequence of bytes: each `char` stands for one. */
module Strings {

  /** strings.TrimLeft and strings.TrimRight with a one-character cutset. */
  function TrimLeft(s: string, c: char): string {
    if s != [] && s[0] == c then TrimLeft(s[1..], c) else s
  }

  function TrimRight(s: string, c: char): string {
    if s != [] && s[|s| - 1] == c then TrimRight(s[..|s| - 1], c) else s
  }

  function Trim(s: string, c: char): string {
    TrimRight(TrimLeft(s, c), c)
  }

  predicate NoneAtEnds(s: string, c: char) {
    s != [] ==> s[0] != c && s[|s| - 1] != c
  }

  function Repeat(c: char, n: nat): string {
    seq(n, _ => c)
  }

  lemma {:induction false} TrimRightDropsPadding(s: string, c: char, n: nat)
    ensures TrimRight(s + Repeat(c, n), c) == TrimRight(s, c)
  {
    if n == 0 {
      assert s + Repeat(c, 0) == s;
    } else {
      var t := s + Repeat(c, n);
      assert t[..|t| - 1] == s + Repeat(c, n - 1);
      TrimRightDropsPadding(s, c, n - 1);
    }
  }

  lemma {:induction false} TrimRightShortens(s: string, c: char)
    ensures |TrimRight(s, c)| <= |s|
    ensures TrimRight(s, c) != [] ==> TrimRight(s, c)[|TrimRight(s, c)| - 1] != c
    ensures s != [] && s[0] != c ==> TrimRight(s, c) != [] && TrimRight(s, c)[0] == s[0]
  {
    if s != [] && s[|s| - 1] == c {
      TrimRightShortens(s[..|s| - 1], c);
    }
  }

  lemma {:induction false} TrimLeftFirst(s: string, c: char)
    ensures |TrimLeft(s, c)| <= |s|
    ensures TrimLeft(s, c) != [] ==> TrimLeft(s, c)[0] != c
  {
    if s != [] && s[0] == c {
      TrimLeftFirst(s[1..], c);
    }
  }

  lemma {:induction false} TrimLeftOfPadded(s: string, c: char, n: nat)
    ensures TrimLeft(s + Repeat(c, n), c) == if TrimLeft(s, c) == [] then [] else TrimLeft(s, c) + Repeat(c, n)
  {
    if s == [] {
      assert s + Repeat(c, n) == Repeat(c, n);
      if n > 0 {
        assert Repeat(c, n)[1..] == Repeat(c, n - 1) == [] + Repeat(c, n - 1);
        TrimLeftOfPadded([], c, n - 1);
      }
    } else {
      assert (s + Repeat(c, n))[1..] == s[1..] + Repeat(c, n);
      if s[0] == c {
        TrimLeftOfPadded(s[1..], c, n);
      }
    }
  }

  /** Trimming a right-padded string gives what trimming the string alone gives. */
  lemma TrimDropsPadding(s: string, c: char, n: nat)
    ensures Trim(s + Repeat(c, n), c) == Trim(s, c)
  {
    TrimLeftOfPadded(s, c, n);
    TrimRightDropsPadding(TrimLeft(s, c), c, n);
  }

  /** A trimmed string has the trimmed character at neither end, and trimming changes no such string. */
  lemma TrimExactly(s: string, c: char)
    ensures NoneAtEnds(Trim(s, c), c)
    ensures Trim(s, c) == s <==> NoneAtEnds(s, c)
  {
    TrimLeftFirst(s, c);
    TrimRightShortens(TrimLeft(s, c), c);
  }

  lemma {:induction false} TrimLeftCuts(s: string, c: char) returns (a: nat)
    ensures s == Repeat(c, a) + TrimLeft(s, c)
  {
    a := 0;
    if s != [] && s[0] == c {
      var b := TrimLeftCuts(s[1..], c);
      a := b + 1;
      assert s == [c] + s[1..] && Repeat(c, a) == [c] + Repeat(c, b);
    }
  }

  lemma {:induction false} TrimRightCuts(s: string, c: char) returns (b: nat)
    ensures s == TrimRight(s, c) + Repeat(c, b)
  {
    b := 0;
    if s != [] && s[|s| - 1] == c {
      var a := TrimRightCuts(s[..|s| - 1], c);
      b := a + 1;
      assert s == s[..|s| - 1] + [c] && Repeat(c, b) == Repeat(c, a) + [c];
    }
  }

  /** Trimming cuts off that character at both ends, and nothing else. */
  lemma TrimCuts(s: string, c: char) returns (a: nat, b: nat)
    ensures s == Repeat(c, a) + Trim(s, c) + Repeat(c, b)
  {
    a := TrimLeftCuts(s, c);
    b := TrimRightCuts(TrimLeft(s, c), c);
  }

  /** strings.Split by a one-character separator. */
  function Split(s: string, sep: char): (parts: seq<string>)
    ensures |parts| >= 1
  {
    if s == [] then [""]
    else
      var parts := Split(s[1..], sep);
      if s[0] == sep then [""] + parts else [[s[0]] + parts[0]] + parts[1..]
  }

  lemma {:induction false} SplitParts(s: string, sep: char, i: nat)
    requires i < |Split(s, sep)|
    ensures sep !in Split(s, sep)[i]
    ensures forall c | c in Split(s, sep)[i] :: c in s
  {
    if s != [] {
      var parts := Split(s[1..], sep);
      if s[0] == sep {
        if i > 0 {
          SplitParts(s[1..], sep, i - 1);
        }
      } else {
        SplitParts(s[1..], sep, i);
        assert Split(s, sep)[i] == if i == 0 then [s[0]] + parts[0] else parts[i];
      }
    }
  }

  /** Splitting after a first separator-free piece. */
  lemma {:induction false} SplitAt(a: string, sep: char, b: string)
    requires sep !in a
    ensures Split(a + [sep] + b, sep) == [a] + Split(b, sep)
  {
    var s := a + [sep] + b;
    if a == [] {
      assert s[1..] == b;
    } else {
      assert s[1..] == a[1..] + [sep] + b;
      SplitAt(a[1..], sep, b);
      assert ([a[1..]] + Split(b, sep))[1..] == Split(b, sep);
      assert [s[0]] + a[1..] == a;
    }
  }

  lemma {:induction false} SplitWithout(s: string, sep: char)
    requires sep !in s
    ensures Split(s, sep) == [s]
  {
    if s != [] {
      SplitWithout(s[1..], sep);
      assert [s[0]] + s[1..] == s;
    }
  }

  /** There is one part more than there are separators. */
  lemma {:induction false} SplitCounts(s: string, sep: char)
    ensures |Split(s, sep)| == multiset(s)[sep] + 1
  {
    if s != [] {
      SplitCounts(s[1..], sep);
      assert s == [s[0]] + s[1..];
    }
  }

  /** strings.Join. */
  function Join(parts: seq<string>, sep: string): string {
    if parts == [] then ""
    else if |parts| == 1 then parts[0]
    else parts[0] + sep + Join(parts[1..], sep)
  }

  lemma {:induction false} JoinSnoc(parts: seq<string>, sep: string, last: string)
    requires parts != []
    ensures Join(parts + [last], sep) == Join(parts, sep) + sep + last
  {
    if |parts| > 1 {
      assert (parts + [last])[1..] == parts[1..] + [last];
      JoinSnoc(parts[1..], sep, last);
    } else {
      assert (parts + [last])[1..] == [last];
    }
  }

  /** strings.Replace of every space by a dash. */
  function Dashed(s: string): (t: string)
    ensures |t| == |s| && ' ' !in t
  {
    seq(|s|, i requires 0 <= i < |s| => if s[i] == ' ' then '-' else s[i])
  }

  lemma JoinInto(parts: seq<string>, sep: string, c: char)
    requires parts != []
    ensures Join([[c] + parts[0]] + parts[1..], sep) == [c] + Join(parts, sep)
  {
    var changed := [[c] + parts[0]] + parts[1..];
    assert changed[1..] == parts[1..];
    if |parts| > 1 {
      assert [c] + parts[0] + sep + Join(parts[1..], sep) == [c] + (parts[0] + sep + Join(parts[1..], sep));
    }
  }

  lemma JoinAfter(parts: seq<string>, sep: string)
    requires parts != []
    ensures Join([""] + parts, sep) == sep + Join(parts, sep)
  {
    assert ([""] + parts)[1..] == parts;
    assert "" + sep + Join(parts, sep) == sep + Join(parts, sep);
  }

  /** Replacing the spaces is joining what they separate with dashes. */
  lemma {:induction false} DashedJoins(s: string)
    ensures Dashed(s) == Join(Split(s, ' '), "-")
  {
    if s != [] {
      DashedJoins(s[1..]);
      assert Dashed(s) == [if s[0] == ' ' then '-' else s[0]] + Dashed(s[1..]);
      JoinInto(Split(s[1..], ' '), "-", s[0]);
      JoinAfter(Split(s[1..], ' '), "-");
    }
  }

  // ----- numbers, as fmt.Sprintf("%v", n) prints them

  function Digit(d: nat): char
    requires d < 10
  {
    '0' + d as char
  }

  function Decimal(n: nat): (s: string)
    ensures s != ""
  {
    if n < 10 then [Digit(n)] else Decimal(n / 10) + [Digit(n % 10)]
  }

  function FormatInt(i: int): string {
    if i < 0 then "-" + Decimal(-i) else Decimal(i)
  }

  function DecimalValue(s: string): int {
    if s == "" then 0 else DecimalValue(s[..|s| - 1]) * 10 + (s[|s| - 1] as int - '0' as int)
  }

  /** Every digit, in its place. */
  lemma DecimalInstance()
    ensures Decimal(12345) == "12345" && Decimal(67890) == "67890"
    ensures FormatInt(-5) == "-5" && FormatInt(0) == "0"
  {
    assert Decimal(123) == "123" && Decimal(678) == "678";
  }

  /** A printed number determines the number. */
  lemma {:induction false} DecimalRoundTrip(n: nat)
    ensures DecimalValue(Decimal(n)) == n
  {
    if n >= 10 {
      DecimalRoundTrip(n / 10);
      assert Decimal(n)[..|Decimal(n)| - 1] == Decimal(n / 10);
    } else {
      assert [Digit(n)][..0] == "";
    }
  }
}
