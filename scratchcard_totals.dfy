/**
 * The two answers of src/bin/04.rs: the sum of the card scores (part one)
 * and the number of cards held once every won copy has been processed
 * (part two).
 */
module ScratchcardTotals {
  import opened Wrappers
  import opened Scratchcards

  /** The match count of each card, in list order. */
  function MatchCounts(cards: seq<Card>): (r: seq<nat>)
    ensures |r| == |cards|
    ensures forall i :: 0 <= i < |cards| ==> r[i] == Matches(cards[i].win, cards[i].hand)
  {
    seq(|cards|, i requires 0 <= i < |cards| => Matches(cards[i].win, cards[i].hand))
  }

  /** No card has more than 32 matches, so every score fits the u32 power. */
  predicate ScoresDefined(cards: seq<Card>)
  {
    forall i :: 0 <= i < |cards| ==> Matches(cards[i].win, cards[i].hand) <= 32
  }

  function Score(card: Card): nat
    requires Matches(card.win, card.hand) <= 32
  {
    CountToScore(Matches(card.win, card.hand))
  }

  /** The sum of the scores of `cards`. */
  function ScoreSum(cards: seq<Card>): nat
    requires ScoresDefined(cards)
  {
    if cards == [] then 0
    else ScoreSum(cards[..|cards| - 1]) + Score(cards[|cards| - 1])
  }

  /** `part_one`, over the cards in the map's iteration order. */
  method PartOne(cards: seq<Card>) returns (total: nat)
    requires ScoresDefined(cards)
    ensures total == ScoreSum(cards)
  {
    total := 0;
    for k := 0 to |cards|
      invariant total == ScoreSum(cards[..k])
    {
      assert cards[..k + 1][..k] == cards[..k];
      var mtchs := CountMatches(cards[k]);
      total := total + CountToScore(mtchs);
    }
    assert cards[..|cards|] == cards;
  }

  lemma {:induction false} ScoreSumAppend(a: seq<Card>, b: seq<Card>)
    requires ScoresDefined(a) && ScoresDefined(b)
    ensures ScoresDefined(a + b)
    ensures ScoreSum(a + b) == ScoreSum(a) + ScoreSum(b)
    decreases |b|
  {
    if b == [] {
      assert a + b == a;
    } else {
      var b0 := b[..|b| - 1];
      assert (a + b)[..|a + b| - 1] == a + b0;
      assert (a + b)[|a + b| - 1] == b[|b| - 1];
      ScoreSumAppend(a, b0);
      assert ScoreSum(b) == ScoreSum(b0) + Score(b[|b| - 1]);
      assert ScoreSum(a + b) == ScoreSum(a + b0) + Score(b[|b| - 1]);
    }
  }

  /**
   * The total does not depend on the order the cards are visited in, so the
   * unspecified iteration order of the source's HashMap does not matter.
   */
  lemma {:induction false} ScoreSumPermutation(a: seq<Card>, b: seq<Card>)
    requires ScoresDefined(a) && multiset(a) == multiset(b)
    ensures ScoresDefined(b)
    ensures ScoreSum(a) == ScoreSum(b)
    decreases |a|
  {
    forall i | 0 <= i < |b|
      ensures Matches(b[i].win, b[i].hand) <= 32
    {
      assert b[i] in multiset(a);
    }
    if a != [] {
      var last := a[|a| - 1];
      assert last in multiset(b);
      var k :| 0 <= k < |b| && b[k] == last;
      var rest := RemoveCard(a, b, k);
      ScoreSumPermutation(a[..|a| - 1], rest);
      ScoreSumWithout(b, k);
    }
  }

  /** `b` without its `k`-th card, which is the last card of `a`, is a permutation of `a` without its last card. */
  lemma RemoveCard(a: seq<Card>, b: seq<Card>, k: nat) returns (rest: seq<Card>)
    requires a != [] && k < |b| && b[k] == a[|a| - 1] && multiset(a) == multiset(b)
    ensures rest == b[..k] + b[k + 1..]
    ensures multiset(a[..|a| - 1]) == multiset(rest)
  {
    var init := a[..|a| - 1];
    assert a == init + [b[k]];
    rest := b[..k] + b[k + 1..];
    assert b == b[..k] + [b[k]] + b[k + 1..];
    calc {
      multiset(b);
      multiset(b[..k] + [b[k]] + b[k + 1..]);
      multiset(b[..k]) + multiset{b[k]} + multiset(b[k + 1..]);
      multiset(rest) + multiset{b[k]};
    }
    assert multiset(init) == multiset(a) - multiset{b[k]};
  }

  lemma {:induction false} ScoreSumWithout(b: seq<Card>, k: nat)
    requires k < |b| && ScoresDefined(b)
    ensures ScoresDefined(b[..k] + b[k + 1..])
    ensures ScoreSum(b) == ScoreSum(b[..k] + b[k + 1..]) + Score(b[k])
    decreases |b|
  {
    var rest := b[..k] + b[k + 1..];
    if k == |b| - 1 {
      assert rest == b[..|b| - 1];
    } else {
      var init := b[..|b| - 1];
      ScoreSumWithout(init, k);
      var initRest := init[..k] + init[k + 1..];
      var last := b[|b| - 1];
      assert init[..k] == b[..k];
      assert init[k + 1..] + [last] == b[k + 1..];
      assert rest == initRest + [last];
      assert rest[..|rest| - 1] == initRest && rest[|rest| - 1] == last;
      assert init[k] == b[k];
      assert ScoreSum(b) == ScoreSum(init) + Score(last);
      assert ScoreSum(rest) == ScoreSum(initRest) + Score(last);
    }
  }

  // ---------------------------------------------------------------------
  // Part two: the copies each card ends up with.

  /**
   * Copies held of card `i` (1-based) when the cards are processed in id order:
   * the original plus one for each copy of an earlier card `j` whose matches
   * reach `i`.
   */
  function Copies(ms: seq<nat>, i: nat): (r: nat)
    requires 1 <= i <= |ms|
    ensures r >= 1
    decreases i, 1
  {
    1 + Won(ms, i, i - 1)
  }

  /** Copies of card `k` won from the cards `1 ..= j`. */
  function Won(ms: seq<nat>, k: nat, j: nat): nat
    requires j <= |ms|
    decreases j, 2
  {
    if j == 0 then 0
    else Won(ms, k, j - 1) + (if j < k <= j + ms[j - 1] then Copies(ms, j) else 0)
  }

  /** The number of cards held of the first `n` ids. */
  function TotalCopies(ms: seq<nat>, n: nat): nat
    requires n <= |ms|
  {
    if n == 0 then 0 else TotalCopies(ms, n - 1) + Copies(ms, n)
  }

  /** Every card is held at least once. */
  lemma {:induction false} TotalAtLeastCards(ms: seq<nat>, n: nat)
    requires n <= |ms|
    ensures TotalCopies(ms, n) >= n
  {
    if n > 0 {
      TotalAtLeastCards(ms, n - 1);
    }
  }

  /** A card only wins copies of later cards: what card `k` holds is settled once card `k - 1` is processed. */
  lemma {:induction false} WonSettled(ms: seq<nat>, k: nat, j: nat)
    requires 1 <= k && k - 1 <= j <= |ms|
    ensures Won(ms, k, j) == Won(ms, k, k - 1)
  {
    if j > k - 1 {
      WonSettled(ms, k, j - 1);
    }
  }

  lemma {:induction false} WonNothingAtZero(ms: seq<nat>, j: nat)
    requires j <= |ms|
    ensures Won(ms, 0, j) == 0
  {
    if j > 0 {
      WonNothingAtZero(ms, j - 1);
    }
  }

  /** The won copies of ids `0 ..= upTo` after `j` cards. */
  function WonSum(ms: seq<nat>, j: nat, upTo: nat): nat
    requires j <= |ms|
  {
    Won(ms, upTo, j) + if upTo == 0 then 0 else WonSum(ms, j, upTo - 1)
  }

  /** The cards held are the originals plus every copy won. */
  lemma {:induction false} TotalIsOriginalsPlusWon(ms: seq<nat>, n: nat, upTo: nat)
    requires upTo <= n <= |ms|
    ensures TotalCopies(ms, upTo) == upTo + WonSum(ms, n, upTo)
  {
    if upTo == 0 {
      WonNothingAtZero(ms, n);
    } else {
      TotalIsOriginalsPlusWon(ms, n, upTo - 1);
      WonSettled(ms, upTo, n);
    }
  }

  /** Every id `1 ..= |cards|` is a key of the map. */
  predicate IdsPresent(cards: map<nat, Card>)
  {
    forall i :: 1 <= i <= |cards| ==> i in cards
  }

  /** The message of indexing a map with a missing key. */
  const NoEntry := "no entry found for key"

  /** The cards of the map in id order, `cards[1], cards[2], …` (`cards_vec`). */
  function InOrder(cards: map<nat, Card>): (r: seq<Card>)
    requires IdsPresent(cards)
    ensures |r| == |cards|
    ensures forall i :: 0 <= i < |r| ==> r[i] == cards[i + 1]
  {
    seq(|cards|, i requires 0 <= i < |cards| => cards[i + 1])
  }

  /** The entries of `m` with an id in `ids` and at most `upTo`, summed. */
  function SumOver(m: map<nat, nat>, upTo: nat, ids: set<nat>): nat
  {
    (if upTo in ids then Get(m, upTo) else 0) + if upTo == 0 then 0 else SumOver(m, upTo - 1, ids)
  }

  lemma {:induction false} SumOverAdd(m: map<nat, nat>, upTo: nat, ids: set<nat>, id: nat)
    requires id !in ids
    ensures SumOver(m, upTo, ids + {id}) == SumOver(m, upTo, ids) + if id <= upTo then Get(m, id) else 0
  {
    if upTo > 0 {
      SumOverAdd(m, upTo - 1, ids, id);
    }
  }

  lemma {:induction false} SumOverNone(m: map<nat, nat>, upTo: nat)
    ensures SumOver(m, upTo, {}) == 0
  {
    if upTo > 0 {
      SumOverNone(m, upTo - 1);
    }
  }

  lemma {:induction false} SumOverKeys(m: map<nat, nat>, ms: seq<nat>, n: nat, upTo: nat)
    requires n <= |ms|
    requires forall k: nat :: Get(m, k) == Won(ms, k, n)
    ensures SumOver(m, upTo, m.Keys) == WonSum(ms, n, upTo)
  {
    if upTo > 0 {
      SumOverKeys(m, ms, n, upTo - 1);
    }
  }

  /** The `cards_vec` loop: the cards looked up by id `1 ..= n`. */
  method CollectInOrder(cards: map<nat, Card>) returns (r: Run<seq<Card>>)
    ensures r.Panics? <==> !IdsPresent(cards)
    ensures r.Panics? ==> r.reason == NoEntry
    ensures r.Returns? ==> IdsPresent(cards) && r.value == InOrder(cards)
  {
    var cardsVec := [];
    for i := 1 to |cards| + 1
      invariant |cardsVec| == i - 1
      invariant forall j :: 1 <= j < i ==> j in cards && cardsVec[j - 1] == cards[j]
    {
      if i !in cards {
        return Panics(NoEntry);
      }
      cardsVec := cardsVec + [cards[i]];
    }
    r := Returns(cardsVec);
  }

  /** The closing `for_each`: the card count plus every entry whose id is at most the card count, in any key order. */
  method SumBuffer(counts: map<nat, nat>, cardCount: nat) returns (total: nat)
    ensures total == cardCount + SumOver(counts, cardCount, counts.Keys)
  {
    total := cardCount;
    var remaining := counts.Keys;
    ghost var visited: set<nat> := {};
    SumOverNone(counts, cardCount);
    while remaining != {}
      invariant remaining + visited == counts.Keys && remaining !! visited
      invariant total == cardCount + SumOver(counts, cardCount, visited)
      decreases |remaining|
    {
      var id :| id in remaining;
      if id <= cardCount {
        total := total + counts[id];
      }
      SumOverAdd(counts, cardCount, visited, id);
      remaining := remaining - {id};
      visited := visited + {id};
    }
    assert visited == counts.Keys;
  }

  /**
   * One turn of the `part_two` loop: process the card, then process it again
   * once per copy of it the buffer holds. Every card the matches reach gains
   * one copy per copy of this card held (the original plus the won ones).
   */
  method PlayCard(buffer: CardBuffer, card: Card)
    modifies buffer
    ensures forall k: nat ::
      (Get(buffer.counts, k) == Get(old(buffer.counts), k) +
        (if card.id < k <= card.id + Matches(card.win, card.hand) then 1 + Get(old(buffer.counts), card.id) else 0))
  {
    ghost var m := Matches(card.win, card.hand);
    ghost var start := buffer.counts;
    buffer.ProcessCard(card);
    if card.id in buffer.counts {
      var extra := buffer.counts[card.id];
      for t := 0 to extra
        invariant forall k: nat ::
          Get(buffer.counts, k) == Get(start, k) + (if card.id < k <= card.id + m then t + 1 else 0)
      {
        buffer.ProcessCard(card);
      }
    }
  }

  /** After card `p + 1` is played, every card holds what cards `1 ..= p + 1` won for it. */
  lemma CardStep(ms: seq<nat>, p: nat, before: map<nat, nat>, after: map<nat, nat>)
    requires p < |ms|
    requires forall k: nat :: Get(before, k) == Won(ms, k, p)
    requires forall k: nat :: Get(after, k) == Get(before, k) + (if p + 1 < k <= p + 1 + ms[p] then 1 + Get(before, p + 1) else 0)
    ensures forall k: nat :: Get(after, k) == Won(ms, k, p + 1)
  {
  }

  /**
   * `part_two`: every card is played in id order; the answer is the card count
   * plus the won copies of ids up to it. Looking up `cards[1..=n]` panics on
   * a missing id; the parser keys each card by its own id.
   */
  method PartTwo(cards: map<nat, Card>) returns (r: Run<nat>)
    requires forall i :: 1 <= i <= |cards| && i in cards ==> cards[i].id == i
    ensures r.Panics? <==> !IdsPresent(cards)
    ensures r.Panics? ==> r.reason == NoEntry
    ensures r.Returns? ==> IdsPresent(cards) && r.value == TotalCopies(MatchCounts(InOrder(cards)), |cards|)
    ensures r.Returns? ==> r.value >= |cards|
  {
    var collected := CollectInOrder(cards);
    if collected.Panics? {
      return Panics(collected.reason);
    }
    var cardsVec := collected.value;
    ghost var ms := MatchCounts(cardsVec);

    var buffer := new CardBuffer();
    var cardCount := 0;
    for p := 0 to |cardsVec|
      invariant cardCount == p
      invariant forall k: nat :: Get(buffer.counts, k) == Won(ms, k, p)
    {
      var card := cardsVec[p];
      assert card.id == p + 1 && Matches(card.win, card.hand) == ms[p];
      cardCount := cardCount + 1;
      ghost var before := buffer.counts;
      PlayCard(buffer, card);
      CardStep(ms, p, before, buffer.counts);
    }

    var total := SumBuffer(buffer.counts, cardCount);
    SumOverKeys(buffer.counts, ms, cardCount, cardCount);
    TotalIsOriginalsPlusWon(ms, cardCount, cardCount);
    TotalAtLeastCards(ms, cardCount);
    r := Returns(total);
  }
}
