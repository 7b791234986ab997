/**
 * The seed lists of src/day_5.rs: `seed_chunk_expand` reads the list as
 * (start, length) pairs, `seed_expand` lists every value of their union
 * exactly once.
 */
module Seeds {
  import opened Wrappers
  import opened Chunks
  import opened RemapRules
  import opened RangeMapping

  /** The pairs (start, length) of `seeds` as chunks [start, start + length), in pair order. */
  function SeedChunks(seeds: seq<nat>): (r: seq<Chunk>)
    requires |seeds| % 2 == 0
    ensures |r| == |seeds| / 2
    ensures forall k :: 0 <= k < |r| ==> r[k] == Chunk(seeds[2 * k], seeds[2 * k] + seeds[2 * k + 1])
  {
    if seeds == [] then []
    else
      var n := |seeds|;
      SeedChunks(seeds[..n - 2]) + [Chunk(seeds[n - 2], seeds[n - 2] + seeds[n - 1])]
  }

  /** `seed_chunk_expand`: the chunks of the pairs; a list of odd length fails its `assert_eq!`. */
  method SeedChunkExpand(seeds: seq<nat>) returns (r: Run<seq<Chunk>>)
    ensures r.Panics? <==> |seeds| % 2 != 0
    ensures r.Panics? ==> r.reason == AssertEqFailed
    ensures r.Returns? ==> |seeds| % 2 == 0 && r.value == SeedChunks(seeds)
  {
    if |seeds| % 2 != 0 {
      return Panics(AssertEqFailed);
    }
    var res := [];
    for k := 0 to |seeds| / 2
      invariant |res| == k
      invariant forall i :: 0 <= i < k ==> res[i] == SeedChunks(seeds)[i]
    {
      var start := seeds[2 * k];
      var range := seeds[2 * k + 1];
      var end := start + range;
      res := res + [Chunk(start, end)];
    }
    r := Returns(res);
  }

  lemma SeedChunksValid(seeds: seq<nat>)
    requires |seeds| % 2 == 0
    ensures AllValid(SeedChunks(seeds))
    ensures (forall k :: 0 <= k < |seeds| / 2 ==> seeds[2 * k + 1] > 0) ==> AllNonEmpty(SeedChunks(seeds))
  {
  }

  lemma CoveredPrefix(cs: seq<Chunk>, k: nat, v: nat)
    requires k < |cs|
    ensures Covered(cs[..k + 1], v) <==> Covered(cs[..k], v) || cs[k].Contains(v)
  {
    if Covered(cs[..k + 1], v) && !cs[k].Contains(v) {
      var i :| 0 <= i < k + 1 && cs[..k + 1][i].Contains(v);
      assert cs[..k][i].Contains(v);
    }
    if Covered(cs[..k], v) {
      var i :| 0 <= i < k && cs[..k][i].Contains(v);
      assert cs[..k + 1][i].Contains(v);
    }
  }

  /**
   * `seed_expand`: each pair's chunk loses what earlier chunks already hold,
   * the remaining fragments are kept, and all kept values are listed. The
   * source keeps the candidate fragments in a hash set; here they are a
   * sequence in one possible iteration order.
   */
  method SeedExpand(seeds: seq<nat>) returns (r: Run<seq<nat>>)
    ensures r.Panics? <==> |seeds| % 2 != 0
    ensures r.Panics? ==> r.reason == AssertEqFailed
    ensures r.Returns? ==> |seeds| % 2 == 0
    ensures r.Returns? ==> forall v :: multiset(r.value)[v] == if Covered(SeedChunks(seeds), v) then 1 else 0
  {
    if |seeds| % 2 != 0 {
      return Panics(AssertEqFailed);
    }
    ghost var pairs := SeedChunks(seeds);
    var res: seq<Chunk> := [];
    for k := 0 to |seeds| / 2
      invariant AllValid(res)
      invariant forall v :: Count(res, v) == if Covered(pairs[..k], v) then 1 else 0
    {
      var start := seeds[2 * k];
      var range := seeds[2 * k + 1];
      var end := start + range;
      var candidateChunks := [Chunk(start, end)];
      for i := 0 to |res|
        invariant candidateChunks == Subtract([Chunk(start, end)], res[..i])
      {
        assert res[..i + 1][..i] == res[..i];
        candidateChunks := KeepOutside(res[i], candidateChunks);
      }
      assert res[..|res|] == res;
      SubtractShape([Chunk(start, end)], res);
      forall v
        ensures Count(res + candidateChunks, v) == if Covered(pairs[..k + 1], v) then 1 else 0
      {
        CountAppend(res, candidateChunks, v);
        SubtractCount([Chunk(start, end)], res, v);
        CountCovered(res, v);
        CountOne(Chunk(start, end), v);
        CoveredPrefix(pairs, k, v);
      }
      res := res + candidateChunks;
    }
    assert pairs[..|seeds| / 2] == pairs;
    var vals := [];
    for i := 0 to |res|
      invariant vals == Flat(res[..i])
    {
      assert res[..i + 1][..i] == res[..i];
      var values := ToU64s(res[i]);
      vals := vals + values;
    }
    assert res[..|res|] == res;
    forall v ensures multiset(vals)[v] == if Covered(pairs, v) then 1 else 0
    {
      FlatCount(res, v);
    }
    r := Returns(vals);
  }

  /**
   * The `test_seed_expand` case: the pairs (79, 14) and (55, 13) expand to the
   * values 79 ..= 92 and 55 ..= 67, each once.
   */
  lemma SeedExpandExample(r: seq<nat>)
    requires forall v :: multiset(r)[v] == if Covered(SeedChunks([79, 14, 55, 13]), v) then 1 else 0
    ensures forall v :: multiset(r)[v] == if 79 <= v <= 92 || 55 <= v <= 67 then 1 else 0
  {
    var cs := SeedChunks([79, 14, 55, 13]);
    assert cs == [Chunk(79, 93), Chunk(55, 68)];
    forall v
      ensures Covered(cs, v) <==> 79 <= v <= 92 || 55 <= v <= 67
    {
      if Covered(cs, v) {
        var i :| 0 <= i < |cs| && cs[i].Contains(v);
      } else {
        assert !cs[0].Contains(v) && !cs[1].Contains(v);
      }
    }
  }
}
