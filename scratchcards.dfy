/**
 * The scratchcards of src/day_4.rs: a card's matches (hand numbers that are
 * also winning numbers), the score of a match count, and `process_card`,
 * which credits one copy of each of the next `matches` cards in a buffer
 * that it updates in place.
 */
module Scratchcards {

  /** A card: its id, its winning numbers and the numbers in hand. */
  datatype Card = Card(id: nat, win: seq<nat>, hand: seq<nat>)

  /** How many numbers of `hand` (counted with repetition) occur in `win`. */
  function Matches(win: seq<nat>, hand: seq<nat>): (r: nat)
    ensures r <= |hand|
  {
    if hand == [] then 0
    else (if hand[0] in win then 1 else 0) + Matches(win, hand[1..])
  }

  lemma {:induction false} MatchesSnoc(win: seq<nat>, hand: seq<nat>, h: nat)
    ensures Matches(win, hand + [h]) == Matches(win, hand) + if h in win then 1 else 0
  {
    if hand != [] {
      assert (hand + [h])[1..] == hand[1..] + [h];
      MatchesSnoc(win, hand[1..], h);
    }
  }

  /** The match-counting loop of `process_card` (and of `part_one` in src/bin/04.rs). */
  method CountMatches(card: Card) returns (mtchs: nat)
    ensures mtchs == Matches(card.win, card.hand)
  {
    mtchs := 0;
    for k := 0 to |card.hand|
      invariant mtchs == Matches(card.win, card.hand[..k])
    {
      assert card.hand[..k + 1] == card.hand[..k] + [card.hand[k]];
      MatchesSnoc(card.win, card.hand[..k], card.hand[k]);
      if card.hand[k] in card.win {
        mtchs := mtchs + 1;
      }
    }
    assert card.hand[..|card.hand|] == card.hand;
  }

  /** Every number in hand is a winning number exactly when all of them match. */
  lemma {:induction false} MatchesAll(win: seq<nat>, hand: seq<nat>)
    ensures Matches(win, hand) == |hand| <==> forall i :: 0 <= i < |hand| ==> hand[i] in win
  {
    if hand != [] {
      var tail := hand[1..];
      MatchesAll(win, tail);
      assert forall i :: 0 <= i < |tail| ==> tail[i] == hand[i + 1];
    }
  }

  /** No number in hand is a winning number exactly when there are no matches. */
  lemma {:induction false} MatchesNone(win: seq<nat>, hand: seq<nat>)
    ensures Matches(win, hand) == 0 <==> forall i :: 0 <= i < |hand| ==> hand[i] !in win
  {
    if hand != [] {
      var tail := hand[1..];
      MatchesNone(win, tail);
      assert forall i :: 0 <= i < |tail| ==> tail[i] == hand[i + 1];
    }
  }

  function Pow2(n: nat): (r: nat)
    ensures r >= 1
  {
    if n == 0 then 1 else 2 * Pow2(n - 1)
  }

  /**
   * `count_to_score`: no matches score 0, `n` matches score 2^(n-1). The u32
   * power overflows (a panic in a debug build) from 33 matches on.
   */
  function CountToScore(count: nat): (r: nat)
    requires count <= 32
    ensures r < 0x1_0000_0000
  {
    if count == 0 then 0
    else
      PowMonotone(count - 1, 31);
      Pow2Of31();
      Pow2(count - 1)
  }

  /** The first match scores one point and every further match doubles the score. */
  lemma ScoreDoubles(count: nat)
    requires 1 <= count < 32
    ensures CountToScore(1) == 1
    ensures CountToScore(count + 1) == 2 * CountToScore(count)
  {
  }

  lemma Pow2Of31()
    ensures Pow2(31) == 0x8000_0000
  {
    assert Pow2(8) == 256;
    PowAdd(8, 8);
    assert Pow2(16) == 0x1_0000;
    PowAdd(16, 8);
    assert Pow2(24) == 0x100_0000;
    PowAdd(24, 7);
    assert Pow2(7) == 128;
  }

  lemma {:induction false} PowAdd(a: nat, b: nat)
    ensures Pow2(a + b) == Pow2(a) * Pow2(b)
  {
    if b > 0 {
      PowAdd(a, b - 1);
    }
  }

  lemma {:induction false} PowMonotone(a: nat, b: nat)
    requires a <= b
    ensures Pow2(a) <= Pow2(b)
    decreases b
  {
    if a < b {
      PowMonotone(a, b - 1);
    }
  }

  /** `test_count_to_score`. */
  lemma ScoreExamples()
    ensures CountToScore(0) == 0 && CountToScore(1) == 1 && CountToScore(2) == 2
    ensures CountToScore(4) == 8 && CountToScore(5) == 16 && CountToScore(6) == 32
  {
  }

  /** A buffer entry, reading a missing id as 0. */
  function Get(m: map<nat, nat>, k: nat): nat
  {
    if k in m then m[k] else 0
  }

  /**
   * The buffer after crediting one copy of each of the cards `id + 1 ..= id + count`:
   * those entries grow by one (a missing one is inserted as 1), every other entry
   * is unchanged and no other id is added.
   */
  function Credit(m: map<nat, nat>, id: nat, count: nat): (r: map<nat, nat>)
    ensures forall k: nat :: k in r <==> k in m || id < k <= id + count
    ensures forall k: nat :: Get(r, k) == Get(m, k) + (if id < k <= id + count then 1 else 0)
  {
    if count == 0 then m
    else
      var prev := Credit(m, id, count - 1);
      prev[id + count := Get(prev, id + count) + 1]
  }

  /** The sum of the buffer entries of ids below `n`; past every key it is the sum of the whole buffer. */
  function SumBelow(m: map<nat, nat>, n: nat): nat
  {
    if n == 0 then 0 else SumBelow(m, n - 1) + Get(m, n - 1)
  }

  /** Adding one copy of card `id` adds one to every sum that reaches past `id`. */
  lemma {:induction false} SumBelowBump(m: map<nat, nat>, id: nat, n: nat, m': map<nat, nat>)
    requires m' == m[id := Get(m, id) + 1]
    ensures SumBelow(m', n) == SumBelow(m, n) + if id < n then 1 else 0
  {
    if n > 0 {
      SumBelowBump(m, id, n - 1, m');
    }
  }

  /**
   * Crediting the cards reached by `count` matches adds exactly `count` to the
   * sum of the buffer entries below any bound past `id + count`, and so to the
   * sum of the whole buffer.
   */
  lemma {:induction false} CreditTotal(m: map<nat, nat>, id: nat, count: nat, n: nat)
    requires id + count < n
    ensures SumBelow(Credit(m, id, count), n) == SumBelow(m, n) + count
  {
    if count == 0 {
      assert Credit(m, id, count) == m;
    } else {
      var prev := Credit(m, id, count - 1);
      CreditTotal(m, id, count - 1, n);
      SumBelowBump(prev, id + count, n, Credit(m, id, count));
    }
  }

  /** The copy buffer that `part_two` threads through every `process_card` call. */
  class CardBuffer {
    var counts: map<nat, nat>

    constructor ()
      ensures counts == map[]
    {
      counts := map[];
    }

    /** `process_card`: count the card's matches, then credit the following cards. */
    method ProcessCard(card: Card)
      modifies this
      ensures counts == Credit(old(counts), card.id, Matches(card.win, card.hand))
    {
      var mtchs := CountMatches(card);
      CreditFollowing(card.id, mtchs);
    }

    /** The crediting loop of `process_card`: one copy of each of the cards `id + 1 ..= id + count`. */
    method CreditFollowing(id: nat, count: nat)
      modifies this
      ensures counts == Credit(old(counts), id, count)
    {
      ghost var start := counts;
      var mtchIdx := 1;
      while mtchIdx <= count
        invariant 1 <= mtchIdx <= count + 1
        invariant counts == Credit(start, id, mtchIdx - 1)
      {
        var idToAdd := id + mtchIdx;
        assert Credit(start, id, mtchIdx) == counts[idToAdd := Get(counts, idToAdd) + 1];
        Bump(idToAdd);
        mtchIdx := mtchIdx + 1;
      }
    }

    /** Add one copy of card `id`: increment its entry, or insert it as 1 when missing. */
    method Bump(id: nat)
      modifies this
      ensures counts == old(counts)[id := Get(old(counts), id) + 1]
    {
      if id in counts {
        counts := counts[id := counts[id] + 1];
      } else {
        counts := counts[id := 1];
      }
    }
  }
}
