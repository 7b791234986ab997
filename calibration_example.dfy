/**
 * The tests of src/lib.rs. Each lemma takes the test's fragment as `s`; the
 * positions before the expected token hold no digit and do not begin a word,
 * and the positions after it end none.
 */
module CalibrationExample {
  import opened Wrappers
  import opened Calibration

  /** `test_find_first`: "fh5one7twokkk" starts with the digit 5. */
  lemma FindFirstDigit(s: string)
    requires s == "fh5one7twokkk"
    ensures FindFirst(s) == Some("5")
  {
    NoStartAt(s, 0);
    NoStartAt(s, 1);
    assert forall j :: 0 <= j < 2 ==> !StartsAt(s, j) by {
      forall j | 0 <= j < 2
        ensures !StartsAt(s, j)
      {
        assert j == 0 || j == 1;
      }
    }
    assert "5" <= s[2..];
    FindFirstIs(s, 2, "5");
  }

  /** `test_find_first`: the first token of "fhoonthreetwokkk" is the word three. */
  lemma FindFirstWord(s: string)
    requires s == "fhoonthreetwokkk"
    ensures FindFirst(s) == Some("three")
  {
    NoStartBeforeThree(s);
    assert "three" <= s[5..];
    FindFirstIs(s, 5, "three");
  }

  lemma NoStartBeforeThree(s: string)
    requires s == "fhoonthreetwokkk"
    ensures forall j :: 0 <= j < 5 ==> !StartsAt(s, j)
  {
    NoStartAt(s, 0);
    NoStartAt(s, 1);
    NoStartAt(s, 2);
    NoStartAt(s, 3);
    NoStartAt(s, 4);
    forall j | 0 <= j < 5
      ensures !StartsAt(s, j)
    {
      assert j == 0 || j == 1 || j == 2 || j == 3 || j == 4;
    }
  }

  /** `test_find_first`: in "jdhitwone" the word two starts before the overlapping one. */
  lemma FindFirstOverlap(s: string)
    requires s == "jdhitwone"
    ensures FindFirst(s) == Some("two")
  {
    NoStartAt(s, 0);
    NoStartAt(s, 1);
    NoStartAt(s, 2);
    NoStartAt(s, 3);
    assert forall j :: 0 <= j < 4 ==> !StartsAt(s, j) by {
      forall j | 0 <= j < 4
        ensures !StartsAt(s, j)
      {
        assert j == 0 || j == 1 || j == 2 || j == 3;
      }
    }
    assert "two" <= s[4..];
    FindFirstIs(s, 4, "two");
  }

  /** `test_find_last`: the last token of "fh5one7twokkk" is the word two. */
  lemma FindLastWord(s: string)
    requires s == "fh5one7twokkk"
    ensures FindLast(s) == Some("two")
  {
    NoEndAt(s, 11);
    NoEndAt(s, 12);
    NoEndAt(s, 13);
    assert forall f :: 10 < f <= |s| ==> !EndsAt(s, f) by {
      forall f | 10 < f <= |s|
        ensures !EndsAt(s, f)
      {
        assert f == 11 || f == 12 || f == 13;
      }
    }
    assert EndsWith(s[..10], "two");
    FindLastIs(s, 10, "two");
  }

  /** `test_find_last`: "fhoonthreetwonek" ends with one, which overlaps two. */
  lemma FindLastOverlap(s: string)
    requires s == "fhoonthreetwonek"
    ensures FindLast(s) == Some("one")
  {
    NoEndAt(s, 16);
    assert forall f :: 15 < f <= |s| ==> !EndsAt(s, f) by {
      forall f | 15 < f <= |s|
        ensures !EndsAt(s, f)
      {
        assert f == 16;
      }
    }
    assert EndsWith(s[..15], "one");
    FindLastIs(s, 15, "one");
  }

  /** `test_find_last`: the only token of "7jdhitwpnnn" is its first character. */
  lemma FindLastDigit(s: string)
    requires s == "7jdhitwpnnn"
    ensures FindLast(s) == Some("7")
  {
    NoEndAfterSeven(s);
    assert EndsWith(s[..1], "7");
    FindLastIs(s, 1, "7");
  }

  lemma NoEndAfterSeven(s: string)
    requires s == "7jdhitwpnnn"
    ensures forall f :: 1 < f <= |s| ==> !EndsAt(s, f)
  {
    NoEndInJdhit(s);
    NoEndInWpnnn(s);
    forall f | 1 < f <= |s|
      ensures !EndsAt(s, f)
    {
      assert 1 < f <= 6 || 6 < f <= 11;
    }
  }

  lemma NoEndInJdhit(s: string)
    requires s == "7jdhitwpnnn"
    ensures forall f :: 1 < f <= 6 ==> !EndsAt(s, f)
  {
    NoEndAt(s, 2);
    NoEndAt(s, 3);
    NoEndAt(s, 4);
    NoEndAt(s, 5);
    NoEndAt(s, 6);
    forall f | 1 < f <= 6
      ensures !EndsAt(s, f)
    {
      assert f == 2 || f == 3 || f == 4 || f == 5 || f == 6;
    }
  }

  lemma NoEndInWpnnn(s: string)
    requires s == "7jdhitwpnnn"
    ensures forall f :: 6 < f <= 11 ==> !EndsAt(s, f)
  {
    NoEndAt(s, 7);
    NoEndAt(s, 8);
    NoEndAt(s, 9);
    NoEndAt(s, 10);
    NoEndAt(s, 11);
    forall f | 6 < f <= 11
      ensures !EndsAt(s, f)
    {
      assert f == 7 || f == 8 || f == 9 || f == 10 || f == 11;
    }
  }

  /** `test_parse_frag`: "1twone3foursixiii" reads as 16. */
  lemma ParseFragExample(s: string)
    requires s == "1twone3foursixiii"
    ensures ParseFrag(s).Returns? && ParseFrag(s).value == 16
  {
    assert "1" <= s[0..];
    FragLast(s);
    ParseFragReads(s, 0, "1", 14, "six");
    SixIsSix();
  }

  lemma SixIsSix()
    ensures TokenValue("1") == 1 && TokenValue("six") == 6
  {
  }

  /** The last token of "1twone3foursixiii" is `six`, ending at 14. */
  lemma FragLast(s: string)
    requires s == "1twone3foursixiii"
    ensures EndsWith(s[..14], "six")
    ensures forall f :: 14 < f <= |s| ==> !EndsAt(s, f)
  {
    NoEndAt(s, 15);
    NoEndAt(s, 16);
    NoEndAt(s, 17);
    forall f | 14 < f <= |s|
      ensures !EndsAt(s, f)
    {
      assert f == 15 || f == 16 || f == 17;
    }
    assert s[..14][11..] == "six";
  }
}
