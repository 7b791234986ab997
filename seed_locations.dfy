/**
 * The two answers of src/bin/05.rs: every seed through the seven stages
 * with `mapper` (part one), and the seed chunks through the seven stages
 * with `ranges_mapper` (part two), each followed by a minimum.
 */
module SeedLocations {
  import opened Wrappers
  import opened Chunks
  import opened RemapRules
  import opened RangeMapping
  import opened Seeds

  /** The parsed almanac: the seed list and the seven stages, keyed by name in the source. */
  datatype Almanac = Almanac(
    seeds: seq<nat>,
    seedToSoil: seq<MapItem>,
    soilToFertilizer: seq<MapItem>,
    fertilizerToWater: seq<MapItem>,
    waterToLight: seq<MapItem>,
    lightToTemperature: seq<MapItem>,
    temperatureToHumidity: seq<MapItem>,
    humidityToLocation: seq<MapItem>)

  /** The stages in the fixed order `sts, stf, ftw, wtl, ltt, tth, htl`. */
  function Stages(a: Almanac): (r: seq<seq<MapItem>>)
    ensures |r| == 7
  {
    [a.seedToSoil, a.soilToFertilizer, a.fertilizerToWater, a.waterToLight,
     a.lightToTemperature, a.temperatureToHumidity, a.humidityToLocation]
  }

  /** A value sent through the stages with `mapper`, first stage first. */
  function Chain(stages: seq<seq<MapItem>>, v: nat): nat
  {
    if stages == [] then v else Chain(stages[1..], Mapper(v, stages[0]))
  }

  /** The location of a seed: the seed sent through the seven stages. */
  function Location(a: Almanac, seed: nat): nat
  {
    Chain(Stages(a), seed)
  }

  /** `Chain` applied to each value of `s`. */
  function ChainAll(stages: seq<seq<MapItem>>, s: seq<nat>): (r: seq<nat>)
    ensures |r| == |s|
    ensures forall i :: 0 <= i < |s| ==> r[i] == Chain(stages, s[i])
  {
    seq(|s|, i requires 0 <= i < |s| => Chain(stages, s[i]))
  }

  /** Chunks sent through the stages with `ranges_mapper`, first stage first. */
  function Pipeline(stages: seq<seq<MapItem>>, cs: seq<Chunk>): seq<Chunk>
    requires AllValid(cs)
  {
    if stages == [] then cs
    else
      Pipeline(stages[1..], RangesMap(cs, stages[0]))
  }

  /** `r` is the least start among the chunks `cs`. */
  predicate IsLeastStart(r: nat, cs: seq<Chunk>)
  {
    (exists i :: 0 <= i < |cs| && cs[i].start == r) &&
    forall i :: 0 <= i < |cs| ==> r <= cs[i].start
  }

  /** Every stage's rules have disjoint sources and positive ranges, and every seed range is non-empty. */
  ghost predicate WellFormed(a: Almanac)
  {
    |a.seeds| % 2 == 0 &&
    (forall k :: 0 <= k < |a.seeds| / 2 ==> a.seeds[2 * k + 1] > 0) &&
    forall s :: 0 <= s < 7 ==> StageWellFormed(Stages(a)[s])
  }

  ghost predicate StageWellFormed(rules: seq<MapItem>)
  {
    Disjoint(rules) && forall i :: 0 <= i < |rules| ==> rules[i].range > 0
  }

  /** The smallest element; the source sorts the list and reads index 0, which panics on an empty list. */
  method Least(xs: seq<nat>) returns (m: nat)
    requires |xs| > 0
    ensures m in xs
    ensures forall i :: 0 <= i < |xs| ==> m <= xs[i]
  {
    m := xs[0];
    for k := 1 to |xs|
      invariant m in xs[..k]
      invariant forall i :: 0 <= i < k ==> m <= xs[i]
    {
      if xs[k] < m {
        m := xs[k];
      }
    }
  }

  lemma ChainCons(rules: seq<MapItem>, rest: seq<seq<MapItem>>, v: nat)
    ensures Chain([rules] + rest, v) == Chain(rest, Mapper(v, rules))
  {
    assert ([rules] + rest)[1..] == rest;
  }

  /** The location of a seed is `mapper` applied stage by stage, as `part_one` chains the calls. */
  lemma LocationSteps(a: Almanac, v: nat)
    ensures Location(a, v) ==
      Mapper(Mapper(Mapper(Mapper(Mapper(Mapper(Mapper(v,
        a.seedToSoil), a.soilToFertilizer), a.fertilizerToWater), a.waterToLight),
        a.lightToTemperature), a.temperatureToHumidity), a.humidityToLocation)
  {
    var t6 := [a.humidityToLocation];
    var t5 := [a.temperatureToHumidity] + t6;
    var t4 := [a.lightToTemperature] + t5;
    var t3 := [a.waterToLight] + t4;
    var t2 := [a.fertilizerToWater] + t3;
    var t1 := [a.soilToFertilizer] + t2;
    assert Stages(a) == [a.seedToSoil] + t1;
    var v1 := Mapper(v, a.seedToSoil);
    var v2 := Mapper(v1, a.soilToFertilizer);
    var v3 := Mapper(v2, a.fertilizerToWater);
    var v4 := Mapper(v3, a.waterToLight);
    var v5 := Mapper(v4, a.lightToTemperature);
    var v6 := Mapper(v5, a.temperatureToHumidity);
    ChainCons(a.seedToSoil, t1, v);
    ChainCons(a.soilToFertilizer, t2, v1);
    ChainCons(a.fertilizerToWater, t3, v2);
    ChainCons(a.waterToLight, t4, v3);
    ChainCons(a.lightToTemperature, t5, v4);
    ChainCons(a.temperatureToHumidity, t6, v5);
    ChainCons(a.humidityToLocation, [], v6);
    assert [a.humidityToLocation] + [] == t6;
  }

  lemma PipelineCons(rules: seq<MapItem>, rest: seq<seq<MapItem>>, cs: seq<Chunk>)
    requires AllValid(cs)
    ensures Pipeline([rules] + rest, cs) == Pipeline(rest, RangesMap(cs, rules))
  {
    assert ([rules] + rest)[1..] == rest;
  }

  /** The body of `part_one`'s loop: one seed through the seven stages. */
  method SeedLocation(a: Almanac, seed: nat) returns (loc: nat)
    ensures loc == Location(a, seed)
  {
    var soil := Mapper(seed, a.seedToSoil);
    var fert := Mapper(soil, a.soilToFertilizer);
    var water := Mapper(fert, a.fertilizerToWater);
    var light := Mapper(water, a.waterToLight);
    var temp := Mapper(light, a.lightToTemperature);
    var hum := Mapper(temp, a.temperatureToHumidity);
    loc := Mapper(hum, a.humidityToLocation);
    LocationSteps(a, seed);
  }

  /** The loop of `part_one`: the location of every seed, in seed order. */
  method AllLocations(a: Almanac) returns (locs: seq<nat>)
    ensures |locs| == |a.seeds|
    ensures forall i :: 0 <= i < |a.seeds| ==> locs[i] == Location(a, a.seeds[i])
  {
    locs := [];
    for k := 0 to |a.seeds|
      invariant |locs| == k
      invariant forall i :: 0 <= i < k ==> locs[i] == Location(a, a.seeds[i])
    {
      var loc := SeedLocation(a, a.seeds[k]);
      assert forall i :: 0 <= i < k ==> (locs + [loc])[i] == locs[i];
      locs := locs + [loc];
    }
  }

  /** The message of indexing `[0]` into an empty vector. */
  const IndexOutOfBounds := "index out of bounds: the len is 0 but the index is 0"

  /** `part_one`: the least location over all seeds; no seeds leave nothing to index. */
  method PartOne(a: Almanac) returns (r: Run<nat>)
    ensures r.Panics? <==> |a.seeds| == 0
    ensures r.Panics? ==> r.reason == IndexOutOfBounds
    ensures r.Returns? ==> exists i :: 0 <= i < |a.seeds| && r.value == Location(a, a.seeds[i])
    ensures r.Returns? ==> forall i :: 0 <= i < |a.seeds| ==> r.value <= Location(a, a.seeds[i])
  {
    var locs := AllLocations(a);
    if |locs| == 0 {
      return Panics(IndexOutOfBounds);
    }
    var least := Least(locs);
    r := Returns(least);
  }

  lemma PipelineSteps(a: Almanac, cs: seq<Chunk>)
    requires AllValid(cs)
    ensures Pipeline(Stages(a), cs) ==
      RangesMap(RangesMap(RangesMap(RangesMap(RangesMap(RangesMap(RangesMap(cs,
        a.seedToSoil), a.soilToFertilizer), a.fertilizerToWater), a.waterToLight),
        a.lightToTemperature), a.temperatureToHumidity), a.humidityToLocation)
  {
    var t6 := [a.humidityToLocation];
    var t5 := [a.temperatureToHumidity] + t6;
    var t4 := [a.lightToTemperature] + t5;
    var t3 := [a.waterToLight] + t4;
    var t2 := [a.fertilizerToWater] + t3;
    var t1 := [a.soilToFertilizer] + t2;
    assert Stages(a) == [a.seedToSoil] + t1;
    var c1 := RangesMap(cs, a.seedToSoil);
    var c2 := RangesMap(c1, a.soilToFertilizer);
    var c3 := RangesMap(c2, a.fertilizerToWater);
    var c4 := RangesMap(c3, a.waterToLight);
    var c5 := RangesMap(c4, a.lightToTemperature);
    var c6 := RangesMap(c5, a.temperatureToHumidity);
    PipelineCons(a.seedToSoil, t1, cs);
    PipelineCons(a.soilToFertilizer, t2, c1);
    PipelineCons(a.fertilizerToWater, t3, c2);
    PipelineCons(a.waterToLight, t4, c3);
    PipelineCons(a.lightToTemperature, t5, c4);
    PipelineCons(a.temperatureToHumidity, t6, c5);
    PipelineCons(a.humidityToLocation, [], c6);
    assert [a.humidityToLocation] + [] == t6;
  }

  /** Sorting the chunks and taking the first one's start: the least start among the chunks. */
  method LeastStart(cs: seq<Chunk>) returns (r: nat)
    requires |cs| > 0
    ensures IsLeastStart(r, cs)
  {
    var starts := seq(|cs|, i requires 0 <= i < |cs| => cs[i].start);
    r := Least(starts);
    var j :| 0 <= j < |starts| && starts[j] == r;
    assert cs[j].start == r;
    assert forall i :: 0 <= i < |cs| ==> starts[i] == cs[i].start;
  }

  /** `part_two`: the least start of the chunks the seven stages produce from the seed chunks. */
  method PartTwo(a: Almanac) returns (r: Run<nat>)
    ensures r.Panics? <==> |a.seeds| % 2 != 0 || |a.seeds| == 0
    ensures r.Panics? ==> r.reason == if |a.seeds| % 2 != 0 then AssertEqFailed else IndexOutOfBounds
    ensures r.Returns? ==> |a.seeds| % 2 == 0 && IsLeastStart(r.value, Pipeline(Stages(a), SeedChunks(a.seeds)))
    ensures r.Returns? && WellFormed(a) ==>
      (exists v :: Covered(SeedChunks(a.seeds), v) && r.value == Location(a, v)) &&
      (forall v :: Covered(SeedChunks(a.seeds), v) ==> r.value <= Location(a, v))
  {
    var expanded := SeedChunkExpand(a.seeds);
    if expanded.Panics? {
      return Panics(expanded.reason);
    }
    var seeds := expanded.value;
    SeedChunksValid(a.seeds);
    var soil := RangesMapper(seeds, a.seedToSoil);
    var fert := RangesMapper(soil, a.soilToFertilizer);
    var water := RangesMapper(fert, a.fertilizerToWater);
    var light := RangesMapper(water, a.waterToLight);
    var temp := RangesMapper(light, a.lightToTemperature);
    var hum := RangesMapper(temp, a.temperatureToHumidity);
    var locs := RangesMapper(hum, a.humidityToLocation);
    PipelineSteps(a, seeds);
    assert locs == Pipeline(Stages(a), seeds);
    PipelineLength(Stages(a), seeds);
    if |locs| == 0 {
      PipelineEmpty(Stages(a), seeds);
      return Panics(IndexOutOfBounds);
    }
    var least := LeastStart(locs);
    if WellFormed(a) {
      LeastStartIsLeastLocation(a, least);
    }
    r := Returns(least);
  }

  // ---------------------------------------------------------------------
  // Part two agrees with the scalar chain.

  lemma {:induction false} PipelineShape(stages: seq<seq<MapItem>>, cs: seq<Chunk>)
    requires AllValid(cs)
    requires forall s :: 0 <= s < |stages| ==> StageWellFormed(stages[s])
    ensures AllNonEmpty(cs) ==> AllNonEmpty(Pipeline(stages, cs))
    decreases |stages|
  {
    if stages != [] {
      RangesShape(cs, stages[0]);
      PipelineShape(stages[1..], RangesMap(cs, stages[0]));
    }
  }

  /** For stages with disjoint sources, the pipeline's values are the chain applied to the seed values. */
  lemma {:induction false} PipelineConservation(stages: seq<seq<MapItem>>, cs: seq<Chunk>)
    requires AllValid(cs)
    requires forall s :: 0 <= s < |stages| ==> Disjoint(stages[s])
    ensures multiset(Flat(Pipeline(stages, cs))) == multiset(ChainAll(stages, Flat(cs)))
    decreases |stages|
  {
    if stages == [] {
      assert ChainAll(stages, Flat(cs)) == Flat(cs);
    } else {
      var next := RangesMap(cs, stages[0]);
      RangesShape(cs, stages[0]);
      PipelineConservation(stages[1..], next);
      RangesConservation(cs, stages[0]);
      var f := (x: nat) => Chain(stages[1..], x);
      ImagePermutation(Flat(next), MapAll(Flat(cs), stages[0]), f);
      assert ChainAll(stages[1..], Flat(next)) == Image(Flat(next), f);
      assert ChainAll(stages, Flat(cs)) == Image(MapAll(Flat(cs), stages[0]), f);
    }
  }

  lemma InFlat(cs: seq<Chunk>, v: nat)
    ensures v in Flat(cs) <==> Covered(cs, v)
  {
    FlatCount(cs, v);
    CountCovered(cs, v);
  }

  /** Every value of the input reaches the pipeline's output as its chained image. */
  lemma ChainReachesPipeline(stages: seq<seq<MapItem>>, cs: seq<Chunk>, v: nat)
    requires AllValid(cs) && Covered(cs, v)
    requires forall s :: 0 <= s < |stages| ==> Disjoint(stages[s])
    ensures Covered(Pipeline(stages, cs), Chain(stages, v))
  {
    PipelineConservation(stages, cs);
    InFlat(cs, v);
    var k :| 0 <= k < |Flat(cs)| && Flat(cs)[k] == v;
    assert ChainAll(stages, Flat(cs))[k] == Chain(stages, v);
    assert Chain(stages, v) in multiset(Flat(Pipeline(stages, cs)));
    InFlat(Pipeline(stages, cs), Chain(stages, v));
  }

  /** Every value of the pipeline's output is the chained image of an input value. */
  lemma PipelineComesFromChain(stages: seq<seq<MapItem>>, cs: seq<Chunk>, w: nat)
    requires AllValid(cs) && Covered(Pipeline(stages, cs), w)
    requires forall s :: 0 <= s < |stages| ==> Disjoint(stages[s])
    ensures exists v :: Covered(cs, v) && w == Chain(stages, v)
  {
    PipelineConservation(stages, cs);
    InFlat(Pipeline(stages, cs), w);
    assert w in multiset(ChainAll(stages, Flat(cs)));
    var j :| 0 <= j < |Flat(cs)| && ChainAll(stages, Flat(cs))[j] == w;
    var u := Flat(cs)[j];
    InFlat(cs, u);
  }

  /** With well-formed stages and seeds, the least start equals the least location of any seed value. */
  lemma LeastStartIsLeastLocation(a: Almanac, r: nat)
    requires WellFormed(a)
    requires IsLeastStart(r, Pipeline(Stages(a), SeedChunks(a.seeds)))
    ensures exists v :: Covered(SeedChunks(a.seeds), v) && r == Location(a, v)
    ensures forall v :: Covered(SeedChunks(a.seeds), v) ==> r <= Location(a, v)
  {
    var stages := Stages(a);
    var sc := SeedChunks(a.seeds);
    SeedChunksValid(a.seeds);
    var final := Pipeline(stages, sc);
    PipelineShape(stages, sc);
    var i :| 0 <= i < |final| && final[i].start == r;
    assert final[i].Contains(r);
    PipelineComesFromChain(stages, sc, r);
    forall v | Covered(sc, v)
      ensures r <= Location(a, v)
    {
      ChainReachesPipeline(stages, sc, v);
      var m :| 0 <= m < |final| && final[m].Contains(Chain(stages, v));
    }
  }

  /** The pipeline produces nothing only from nothing. */
  lemma {:induction false} PipelineEmpty(stages: seq<seq<MapItem>>, cs: seq<Chunk>)
    requires AllValid(cs)
    ensures Pipeline(stages, cs) == [] <==> cs == []
    decreases |stages|
  {
    if stages != [] {
      RangesShape(cs, stages[0]);
      PipelineEmpty(stages[1..], RangesMap(cs, stages[0]));
    }
  }

  lemma {:induction false} PipelineLength(stages: seq<seq<MapItem>>, cs: seq<Chunk>)
    requires AllValid(cs)
    ensures |Pipeline(stages, cs)| >= |cs|
    decreases |stages|
  {
    if stages != [] {
      RangesShape(cs, stages[0]);
      PipelineLength(stages[1..], RangesMap(cs, stages[0]));
    }
  }
}
