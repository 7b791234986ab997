/**
 * The day-4 puzzle example, whose six cards have 4, 2, 2, 1, 0 and 0
 * matches: the tests of src/bin/04.rs expect 13 points for part one and 30
 * cards for part two.
 */
module ScratchcardExample {
  import opened Scratchcards
  import opened ScratchcardTotals

  predicate ExampleCounts(ms: seq<nat>)
  {
    |ms| == 6 && ms[0] == 4 && ms[1] == 2 && ms[2] == 2 && ms[3] == 1 && ms[4] == 0 && ms[5] == 0
  }

  /** `test_part_one`: cards with these match counts score 8, 2, 2, 1, 0 and 0, 13 points in all. */
  lemma ExamplePartOne(cards: seq<Card>)
    requires ExampleCounts(MatchCounts(cards))
    ensures ScoresDefined(cards) && ScoreSum(cards) == 13
  {
    var ms := MatchCounts(cards);
    assert forall i :: 0 <= i < |cards| ==> Matches(cards[i].win, cards[i].hand) == ms[i] <= 4;
    assert CountToScore(4) == 8;
    assert cards[..6] == cards;
    assert forall k :: 0 < k <= 6 ==> cards[..k][..k - 1] == cards[..k - 1];
    assert ScoreSum(cards[..1]) == 8;
    assert ScoreSum(cards[..2]) == 10;
    assert ScoreSum(cards[..3]) == 12;
    assert ScoreSum(cards[..4]) == 13;
    assert ScoreSum(cards[..5]) == 13;
  }

  /** `test_part_two`: the cards are held 1, 2, 4, 8, 14 and 1 times, 30 cards in all. */
  lemma ExamplePartTwo(ms: seq<nat>)
    requires ExampleCounts(ms)
    ensures TotalCopies(ms, 6) == 30
  {
    assert Copies(ms, 1) == 1;
    assert Won(ms, 2, 1) == 1;
    assert Copies(ms, 2) == 2;
    assert Won(ms, 3, 2) == 3;
    assert Copies(ms, 3) == 4;
    assert Won(ms, 4, 2) == 3;
    assert Won(ms, 4, 3) == 7;
    assert Copies(ms, 4) == 8;
    assert Won(ms, 5, 2) == 1;
    assert Won(ms, 5, 3) == 5;
    assert Won(ms, 5, 4) == 13;
    assert Copies(ms, 5) == 14;
    assert Won(ms, 6, 5) == 0 by {
      assert Won(ms, 6, 1) == 0;
      assert Won(ms, 6, 2) == 0;
      assert Won(ms, 6, 3) == 0;
      assert Won(ms, 6, 4) == 0;
    }
    assert Copies(ms, 6) == 1;
    assert TotalCopies(ms, 1) == 1;
    assert TotalCopies(ms, 2) == 3;
    assert TotalCopies(ms, 3) == 7;
    assert TotalCopies(ms, 4) == 15;
    assert TotalCopies(ms, 5) == 29;
  }
}
