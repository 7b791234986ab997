/**
 * The solutions of src/bin/01.rs. The input is split into lines on "\n".
 * `part_one` reads each line's first and last digit characters with a
 * double-ended character scan; `part_two` reads each line with `parse_frag`.
 * Both add up the line values. A line without a digit, and in `part_one` any
 * '-' in the input, makes the solution panic.
 */
module CalibrationSum {
  import opened Wrappers
  import opened Calibration

  /** The lines joined back with "\n" between them. */
  function Join(lines: seq<string>): string
    requires |lines| >= 1
  {
    if |lines| == 1 then lines[0] else lines[0] + "\n" + Join(lines[1..])
  }

  /** `split("\n")`: the pieces between newlines, always at least one. */
  function Split(s: string): (lines: seq<string>)
    ensures |lines| >= 1
    ensures forall i :: 0 <= i < |lines| ==> '\n' !in lines[i]
    ensures Join(lines) == s
  {
    if s == [] then [""]
    else
      var rest := Split(s[1..]);
      if s[0] == '\n' then
        assert ([""] + rest)[1..] == rest;
        [""] + rest
      else
        JoinCons(rest, s[0]);
        [[s[0]] + rest[0]] + rest[1..]
  }

  /** Putting a character in front of the first line puts it in front of the text. */
  lemma JoinCons(lines: seq<string>, c: char)
    requires |lines| >= 1
    ensures Join([[c] + lines[0]] + lines[1..]) == [c] + Join(lines)
  {
    var l := [[c] + lines[0]] + lines[1..];
    assert l[0] == [c] + lines[0];
    if |lines| > 1 {
      assert l[1..] == lines[1..];
      var rest := Join(lines[1..]);
      assert Join(l) == [c] + lines[0] + "\n" + rest;
      assert Join(lines) == lines[0] + "\n" + rest;
      ConsAssoc(c, lines[0], "\n", rest);
    }
  }

  lemma ConsAssoc(c: char, a: string, b: string, d: string)
    ensures [c] + a + b + d == [c] + (a + b + d)
  {
  }

  /** The joined text starts with the first line, followed by a newline when there are more lines. */
  lemma FirstLine(lines: seq<string>)
    requires |lines| >= 1
    ensures var s, l := Join(lines), lines[0];
      |l| <= |s| && s[..|l|] == l &&
      (|lines| > 1 ==> |l| < |s| && s[|l|] == '\n' && s[|l| + 1..] == Join(lines[1..]))
  {
  }

  /** Splitting the joined lines gives the lines back. */
  lemma SplitJoin(lines: seq<string>)
    requires |lines| >= 1
    requires forall i :: 0 <= i < |lines| ==> '\n' !in lines[i]
    ensures Split(Join(lines)) == lines
  {
    SplitUnique(Join(lines), lines, Split(Join(lines)));
  }

  /** Two line lists without newlines that join to the same text are equal. */
  lemma {:induction false} SplitUnique(s: string, a: seq<string>, b: seq<string>)
    requires |a| >= 1 && |b| >= 1 && Join(a) == s && Join(b) == s
    requires forall i :: 0 <= i < |a| ==> '\n' !in a[i]
    requires forall i :: 0 <= i < |b| ==> '\n' !in b[i]
    ensures a == b
    decreases |s|
  {
    FirstLine(a);
    FirstLine(b);
    var la, lb := a[0], b[0];
    if |la| == |lb| && |a| > 1 && |b| > 1 {
      SplitUnique(s[|la| + 1..], a[1..], b[1..]);
      assert a == [la] + a[1..] && b == [lb] + b[1..];
    }
  }

  /** The value of a digit character. */
  function DigitValue(c: char): (d: nat)
    requires IsDigit(c)
    ensures d <= 9
  {
    c as int - '0' as int
  }

  /** The index of the first digit character at or after `from`. */
  function FirstDigit(s: string, from: nat): (r: Option<nat>)
    requires from <= |s|
    ensures r.Some? ==> from <= r.value < |s| && IsDigit(s[r.value])
    ensures r.Some? ==> forall j :: from <= j < r.value ==> !IsDigit(s[j])
    ensures r.None? <==> forall j :: from <= j < |s| ==> !IsDigit(s[j])
    decreases |s| - from
  {
    if from == |s| then None
    else if IsDigit(s[from]) then Some(from)
    else FirstDigit(s, from + 1)
  }

  /** The index of the last digit character before `upTo`. */
  function LastDigit(s: string, upTo: nat): (r: Option<nat>)
    requires upTo <= |s|
    ensures r.Some? ==> r.value < upTo && IsDigit(s[r.value])
    ensures r.Some? ==> forall j :: r.value < j < upTo ==> !IsDigit(s[j])
    ensures r.None? <==> forall j :: 0 <= j < upTo ==> !IsDigit(s[j])
  {
    if upTo == 0 then None
    else if IsDigit(s[upTo - 1]) then Some(upTo - 1)
    else LastDigit(s, upTo - 1)
  }

  const NoNumbers := "no numbers in line!"
  const NegativeNumbers := "negative numbers!"

  /**
   * What one line gives in `part_one`: its first and last digit characters read
   * as a two-digit number, or a panic when it has no digit.
   */
  function LineValue(line: string): Run<nat>
  {
    match (FirstDigit(line, 0), LastDigit(line, |line|))
    case (Some(i), Some(j)) => Returns(10 * DigitValue(line[i]) + DigitValue(line[j]))
    case _ => Panics(NoNumbers)
  }

  predicate HasDigit(line: string)
  {
    exists j :: 0 <= j < |line| && IsDigit(line[j])
  }

  /** A line panics exactly when it has no digit; otherwise its value is at most 99. */
  lemma LineValuePanics(line: string)
    ensures LineValue(line).Panics? <==> !HasDigit(line)
    ensures LineValue(line).Returns? ==> LineValue(line).value <= 99
  {
    if FirstDigit(line, 0).Some? {
      assert LastDigit(line, |line|).Some?;
    }
  }

  /** A line reads as its first digit `line[i]` and its last digit `line[j]`. */
  lemma LineValueIs(line: string, i: nat, j: nat)
    requires i <= j < |line| && IsDigit(line[i]) && IsDigit(line[j])
    requires forall k :: 0 <= k < i ==> !IsDigit(line[k])
    requires forall k :: j < k < |line| ==> !IsDigit(line[k])
    ensures LineValue(line) == Returns(10 * DigitValue(line[i]) + DigitValue(line[j]))
  {
    assert FirstDigit(line, 0) == Some(i);
    assert LastDigit(line, |line|) == Some(j);
  }

  /** A line with a single digit `d` is worth `11 * d`. */
  lemma LineSingleDigit(line: string, i: nat)
    requires i < |line| && IsDigit(line[i])
    requires forall j :: 0 <= j < |line| && j != i ==> !IsDigit(line[j])
    ensures LineValue(line) == Returns(11 * DigitValue(line[i]))
  {
    assert FirstDigit(line, 0) == Some(i);
    assert LastDigit(line, |line|) == Some(i);
  }

  /**
   * The closure of `part_one` for one line: a front scan takes characters until
   * a digit, and a back scan takes characters from the other end of the same
   * iterator until a digit or until the iterator is used up, in which case the
   * back digit is the front one.
   */
  method ScanLine(frag: string) returns (r: Run<nat>)
    ensures r == LineValue(frag)
  {
    var front := '_';
    var back := '_';
    var searchFront := true;
    var searchBack := true;
    var lo, hi := 0, |frag|;
    while searchFront
      invariant 0 <= lo <= hi == |frag|
      invariant searchFront ==> forall j :: 0 <= j < lo ==> !IsDigit(frag[j])
      invariant !searchFront ==> lo >= 1 && front == frag[lo - 1] && FirstDigit(frag, 0) == Some(lo - 1)
      decreases hi - lo + (if searchFront then 1 else 0)
    {
      if lo < hi {
        var c := frag[lo];
        lo := lo + 1;
        if IsDigit(c) {
          front := c;
          searchFront := false;
        }
      } else {
        assert FirstDigit(frag, 0).None?;
        return Panics(NoNumbers);
      }
    }
    while searchBack
      invariant 1 <= lo <= hi <= |frag|
      invariant searchBack ==> forall j :: hi <= j < |frag| ==> !IsDigit(frag[j])
      invariant !searchBack ==> LastDigit(frag, |frag|).Some? && back == frag[LastDigit(frag, |frag|).value]
      decreases hi - lo + (if searchBack then 1 else 0)
    {
      if lo < hi {
        hi := hi - 1;
        var c := frag[hi];
        if IsDigit(c) {
          back := c;
          searchBack := false;
          assert LastDigit(frag, |frag|) == Some(hi);
        }
      } else {
        back := front;
        searchBack := false;
        assert LastDigit(frag, |frag|) == Some(lo - 1);
      }
    }
    r := Returns(10 * DigitValue(front) + DigitValue(back));
  }

  /** The value of each line, in line order. */
  function LineValues(lines: seq<string>): (r: seq<Run<nat>>)
    ensures |r| == |lines|
    ensures forall i :: 0 <= i < |lines| ==> r[i] == LineValue(lines[i])
  {
    seq(|lines|, i requires 0 <= i < |lines| => LineValue(lines[i]))
  }

  /** The `parse_frag` value of each line, in line order. */
  function FragValues(lines: seq<string>): (r: seq<Run<nat>>)
    ensures |r| == |lines|
    ensures forall i :: 0 <= i < |lines| ==> r[i] == ParseFrag(lines[i])
  {
    seq(|lines|, i requires 0 <= i < |lines| => ParseFrag(lines[i]))
  }

  /** The sum of the values, or the first panic. */
  function SumRuns(runs: seq<Run<nat>>): Run<nat>
  {
    if runs == [] then Returns(0)
    else
      match SumRuns(runs[..|runs| - 1])
      case Panics(m) => Panics(m)
      case Returns(acc) =>
        match runs[|runs| - 1]
        case Panics(m) => Panics(m)
        case Returns(v) => Returns(acc + v)
  }

  /** The sum panics exactly when some run does, and then with the first run's message. */
  lemma {:induction false} SumRunsPanics(runs: seq<Run<nat>>)
    ensures SumRuns(runs).Panics? <==> exists i :: 0 <= i < |runs| && runs[i].Panics?
    ensures SumRuns(runs).Panics? ==> exists i ::
      (0 <= i < |runs| && runs[i] == SumRuns(runs) && forall j :: 0 <= j < i ==> runs[j].Returns?)
  {
    if runs != [] {
      var front := runs[..|runs| - 1];
      SumRunsPanics(front);
      assert forall i :: 0 <= i < |front| ==> front[i] == runs[i];
    }
  }

  /** The sum panics exactly when some run flagged in `bad` is reached. */
  lemma SumRunsBad(runs: seq<Run<nat>>, bad: seq<bool>)
    requires |bad| == |runs|
    requires forall i :: 0 <= i < |runs| ==> (runs[i].Panics? <==> bad[i])
    ensures SumRuns(runs).Panics? <==> exists i :: 0 <= i < |bad| && bad[i]
  {
    SumRunsPanics(runs);
  }

  /** A panic within the first `k` runs is the sum's panic. */
  lemma {:induction false} SumRunsPrefixPanics(runs: seq<Run<nat>>, k: nat)
    requires k <= |runs| && SumRuns(runs[..k]).Panics?
    ensures SumRuns(runs) == SumRuns(runs[..k])
    decreases |runs| - k
  {
    if k < |runs| {
      assert runs[..k + 1][..k] == runs[..k];
      SumRunsPrefixPanics(runs, k + 1);
    } else {
      assert runs[..k] == runs;
    }
  }

  /** `part_one`'s answer for an input, as a function of the input. */
  function PartOneOf(input: string): Run<nat>
  {
    if '-' in input then Panics(NegativeNumbers)
    else
      var lines := Split(input);
      SumRuns(LineValues(lines))
  }

  /** `part_one`: refuse a '-' anywhere, then add up the values of the lines. */
  method PartOne(input: string) returns (r: Run<nat>)
    ensures r == PartOneOf(input)
  {
    var negative := HasMinus(input);
    if negative {
      return Panics(NegativeNumbers);
    }
    var lines := Split(input);
    r := SumLines(lines);
  }

  /** The check for '-' at the start of `part_one`. */
  method HasMinus(input: string) returns (found: bool)
    ensures found <==> '-' in input
  {
    for k := 0 to |input|
      invariant forall j :: 0 <= j < k ==> input[j] != '-'
    {
      if input[k] == '-' {
        return true;
      }
    }
    return false;
  }

  /** The fold of `part_one`: scan each line in order, stopping at the first panic. */
  method SumLines(lines: seq<string>) returns (r: Run<nat>)
    ensures r == SumRuns(LineValues(lines))
  {
    ghost var runs := LineValues(lines);
    var sum := 0;
    for k := 0 to |lines|
      invariant SumRuns(runs[..k]) == Returns(sum)
    {
      var v := ScanLine(lines[k]);
      assert runs[..k + 1][..k] == runs[..k];
      match v
      case Panics(m) =>
        SumRunsPrefixPanics(runs, k + 1);
        return Panics(m);
      case Returns(n) =>
        sum := sum + n;
    }
    assert runs[..|lines|] == runs;
    r := Returns(sum);
  }

  /** Some line of `lines` has no digit. */
  predicate DigitlessLine(lines: seq<string>)
  {
    exists i :: 0 <= i < |lines| && !HasDigit(lines[i])
  }

  /** `part_one` panics exactly on a '-' or on a line without a digit. */
  lemma PartOnePanics(input: string)
    ensures PartOneOf(input).Panics? <==> '-' in input || DigitlessLine(Split(input))
  {
    LineValuesPanic(Split(input));
  }

  /** The line values of `part_one` add up to a panic exactly when some line has no digit. */
  lemma LineValuesPanic(lines: seq<string>)
    ensures SumRuns(LineValues(lines)).Panics? <==> DigitlessLine(lines)
  {
    var runs := LineValues(lines);
    var bad := seq(|lines|, i requires 0 <= i < |lines| => !HasDigit(lines[i]));
    forall i | 0 <= i < |lines|
      ensures runs[i].Panics? <==> bad[i]
    {
      LineValuePanics(lines[i]);
    }
    SumRunsBad(runs, bad);
  }

  /** An input ending in a newline has an empty last line, so `part_one` panics. */
  lemma TrailingNewlinePanics(input: string)
    requires |input| > 0 && input[|input| - 1] == '\n'
    ensures PartOneOf(input).Panics?
  {
    var lines := Split(input);
    LastLineOf(lines);
    var n := |lines|;
    assert !HasDigit(lines[n - 1]);
    assert DigitlessLine(lines);
    PartOnePanics(input);
  }

  /** When the text ends in a newline the last line is empty. */
  lemma {:induction false} LastLineOf(lines: seq<string>)
    requires |lines| >= 1
    requires forall i :: 0 <= i < |lines| ==> '\n' !in lines[i]
    requires |Join(lines)| > 0 && Join(lines)[|Join(lines)| - 1] == '\n'
    ensures lines[|lines| - 1] == ""
  {
    if |lines| > 1 {
      var rest := lines[1..];
      assert Join(lines) == lines[0] + "\n" + Join(rest);
      if |Join(rest)| > 0 {
        LastLineOf(rest);
      } else {
        FirstLine(rest);
      }
    }
  }

  ghost predicate HasToken(line: string)
  {
    exists p :: 0 <= p <= |line| && StartsAt(line, p)
  }

  /** Some line of `lines` has no token. */
  ghost predicate TokenlessLine(lines: seq<string>)
  {
    exists i :: 0 <= i < |lines| && !HasToken(lines[i])
  }

  /**
   * `part_two`: the sum of `parse_frag` over the lines. It panics with the
   * `unwrap` message exactly when some line holds no token; otherwise each
   * line adds at most 99.
   */
  function PartTwo(input: string): (r: Run<nat>)
    ensures r.Panics? <==> TokenlessLine(Split(input))
    ensures r.Panics? ==> r.reason == UnwrapNone
    ensures r.Returns? ==> r.value <= 99 * |Split(input)|
  {
    var lines := Split(input);
    FragSum(lines);
    SumRuns(FragValues(lines))
  }

  /** What `part_two` promises, stated on its lines. */
  lemma FragSum(lines: seq<string>)
    ensures SumRuns(FragValues(lines)).Panics? <==> TokenlessLine(lines)
    ensures SumRuns(FragValues(lines)).Panics? ==> SumRuns(FragValues(lines)).reason == UnwrapNone
    ensures SumRuns(FragValues(lines)).Returns? ==> SumRuns(FragValues(lines)).value <= 99 * |lines|
  {
    var runs := FragValues(lines);
    FragValuesPanic(lines);
    assert forall i :: 0 <= i < |runs| ==> runs[i] == ParseFrag(lines[i]);
    SumRunsReason(runs, UnwrapNone);
    SumRunsBound(runs, 99);
  }

  /** When every run panics with message `m`, so does their sum, if it panics. */
  lemma {:induction false} SumRunsReason(runs: seq<Run<nat>>, m: string)
    requires forall i :: 0 <= i < |runs| && runs[i].Panics? ==> runs[i].reason == m
    ensures SumRuns(runs).Panics? ==> SumRuns(runs).reason == m
  {
    if runs != [] {
      SumRunsReason(runs[..|runs| - 1], m);
    }
  }

  /** A sum of runs each returning at most `b` is at most `b` times their number. */
  lemma {:induction false} SumRunsBound(runs: seq<Run<nat>>, b: nat)
    requires forall i :: 0 <= i < |runs| && runs[i].Returns? ==> runs[i].value <= b
    ensures SumRuns(runs).Returns? ==> SumRuns(runs).value <= b * |runs|
  {
    if runs != [] {
      SumRunsBound(runs[..|runs| - 1], b);
      assert b * |runs| == b * (|runs| - 1) + b;
    }
  }

  /** The `parse_frag` values add up to a panic exactly when some line has no token. */
  lemma FragValuesPanic(lines: seq<string>)
    ensures SumRuns(FragValues(lines)).Panics? <==> TokenlessLine(lines)
  {
    var runs := FragValues(lines);
    var bad := seq(|lines|, i requires 0 <= i < |lines| => !HasToken(lines[i]));
    forall i | 0 <= i < |lines|
      ensures runs[i].Panics? <==> bad[i]
    {
      ParseFragPanics(lines[i]);
    }
    SumRunsBad(runs, bad);
  }

  lemma ParseFragPanics(line: string)
    ensures ParseFrag(line).Panics? <==> !HasToken(line)
  {
  }

  /** Every character of the joined text is a newline or a character of a line. */
  lemma {:induction false} JoinChars(lines: seq<string>, c: char)
    requires |lines| >= 1 && c in Join(lines) && c != '\n'
    ensures exists i :: 0 <= i < |lines| && c in lines[i]
  {
    if |lines| > 1 && c !in lines[0] {
      JoinChars(lines[1..], c);
      var i :| 0 <= i < |lines| - 1 && c in lines[1..][i];
      assert lines[i + 1] == lines[1..][i];
    }
  }
}
