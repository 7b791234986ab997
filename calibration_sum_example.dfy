/**
 * A four-line calibration document taken as the example input that the
 * `part_one` test of src/bin/01.rs reads; its lines read as 12, 38, 15 and 77.
 */
module CalibrationSumExample {
  import opened Wrappers
  import opened Calibration
  import opened CalibrationSum

  lemma Line1(l: string)
    requires l == "1abc2"
    ensures LineValue(l) == Returns(12)
  {
    LineValueIs(l, 0, 4);
  }

  lemma Line2(l: string)
    requires l == "pqr3stu8vwx"
    ensures LineValue(l) == Returns(38)
  {
    forall k | 0 <= k < 3
      ensures !IsDigit(l[k])
    {
      assert k == 0 || k == 1 || k == 2;
    }
    forall k | 7 < k < 11
      ensures !IsDigit(l[k])
    {
      assert k == 8 || k == 9 || k == 10;
    }
    LineValueIs(l, 3, 7);
  }

  lemma Line3(l: string)
    requires l == "a1b2c3d4e5f"
    ensures LineValue(l) == Returns(15)
  {
    forall k | 0 <= k < 1
      ensures !IsDigit(l[k])
    {
      assert k == 0;
    }
    forall k | 9 < k < 11
      ensures !IsDigit(l[k])
    {
      assert k == 10;
    }
    LineValueIs(l, 1, 9);
  }

  lemma Line4(l: string)
    requires l == "treb7uchet"
    ensures LineValue(l) == Returns(77)
  {
    forall k | 0 <= k < 4
      ensures !IsDigit(l[k])
    {
      assert k == 0 || k == 1 || k == 2 || k == 3;
    }
    forall k | 4 < k < 10
      ensures !IsDigit(l[k])
    {
      assert k == 5 || k == 6 || k == 7 || k == 8 || k == 9;
    }
    LineSingleDigit(l, 4);
  }

  /** `test_part_one`: the document adds up to 142. */
  lemma PartOneExample(lines: seq<string>)
    requires lines == ["1abc2", "pqr3stu8vwx", "a1b2c3d4e5f", "treb7uchet"]
    ensures PartOneOf(Join(lines)) == Returns(142)
  {
    NoNewlines(lines);
    SplitJoin(lines);
    NoMinus(lines);
    var runs := LineValues(lines);
    assert PartOneOf(Join(lines)) == SumRuns(runs);
    ExampleRuns(lines, runs);
  }

  lemma ExampleRuns(lines: seq<string>, runs: seq<Run<nat>>)
    requires lines == ["1abc2", "pqr3stu8vwx", "a1b2c3d4e5f", "treb7uchet"]
    requires runs == LineValues(lines)
    ensures SumRuns(runs) == Returns(142)
  {
    Line1(lines[0]);
    Line2(lines[1]);
    Line3(lines[2]);
    Line4(lines[3]);
    SumOfFour(runs);
  }

  lemma SumOfFour(runs: seq<Run<nat>>)
    requires |runs| == 4
    requires runs[0] == Returns(12) && runs[1] == Returns(38) && runs[2] == Returns(15) && runs[3] == Returns(77)
    ensures SumRuns(runs) == Returns(142)
  {
    assert runs[..2][..1] == runs[..1] && runs[..3][..2] == runs[..2];
    assert runs[..4][..3] == runs[..3] && runs[..4] == runs;
    assert SumRuns(runs[..1]) == Returns(12);
    assert SumRuns(runs[..2]) == Returns(50);
    assert SumRuns(runs[..3]) == Returns(65);
  }

  lemma NoNewlines(lines: seq<string>)
    requires lines == ["1abc2", "pqr3stu8vwx", "a1b2c3d4e5f", "treb7uchet"]
    ensures forall i :: 0 <= i < |lines| ==> '\n' !in lines[i]
  {
    forall i | 0 <= i < |lines|
      ensures '\n' !in lines[i]
    {
      assert i == 0 || i == 1 || i == 2 || i == 3;
    }
  }

  lemma NoMinus(lines: seq<string>)
    requires lines == ["1abc2", "pqr3stu8vwx", "a1b2c3d4e5f", "treb7uchet"]
    ensures '-' !in Join(lines)
  {
    if '-' in Join(lines) {
      JoinChars(lines, '-');
    }
  }
}
