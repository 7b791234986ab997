/**
 * The almanac of the day-5 test module (src/day_5.rs, `test_parse_soil`),
 * taken as the example input of the tests of src/bin/05.rs, and the answers
 * those tests expect: 35 for part one and 46 for part two, with seed 82
 * reaching location 46.
 */
module AlmanacExample {
  import opened Chunks
  import opened RemapRules
  import opened Seeds
  import opened SeedLocations

  /** The test almanac; each rule is `MapItem(source, destination, range)` of the line `destination source range`. */
  function Example(): Almanac
  {
    Almanac(
      [79, 14, 55, 13],
      [MapItem(98, 50, 2), MapItem(50, 52, 48)],
      [MapItem(15, 0, 37), MapItem(52, 37, 2), MapItem(0, 39, 15)],
      [MapItem(53, 49, 8), MapItem(11, 0, 42), MapItem(0, 42, 7), MapItem(7, 57, 4)],
      [MapItem(18, 88, 7), MapItem(25, 18, 70)],
      [MapItem(77, 45, 23), MapItem(45, 81, 19), MapItem(64, 68, 13)],
      [MapItem(69, 0, 1), MapItem(0, 1, 69)],
      [MapItem(56, 60, 37), MapItem(93, 56, 4)])
  }

  /** The first rule covering a value decides where it goes. */
  lemma FirstCoverMaps(rules: seq<MapItem>, j: nat, v: nat)
    requires FirstCover(rules, v, j)
    ensures Mapper(v, rules) == rules[j].Map(v)
  {
    var r := Mapper(v, rules);
    if !NoCover(rules, v) {
      var i :| FirstCover(rules, v, i) && r == rules[i].Map(v);
      assert !(i < j) && !(j < i);
    }
  }

  /** The example's seed-to-soil stage on the values the seeds reach. */
  lemma SeedToSoilExample(a: Almanac, x: nat)
    requires a == Example()
    ensures 13 <= x < 15 ==> Mapper(x, a.seedToSoil) == x
    ensures 55 <= x < 93 ==> Mapper(x, a.seedToSoil) == x + 2
  {
    if 13 <= x < 15 {
      assert NoCover(a.seedToSoil, x);
    } else if 55 <= x < 93 {
      FirstCoverMaps(a.seedToSoil, 1, x);
    }
  }

  /** The example's soil-to-fertilizer stage on the values the seeds reach. */
  lemma SoilToFertilizerExample(a: Almanac, x: nat)
    requires a == Example()
    ensures 13 <= x < 15 ==> Mapper(x, a.soilToFertilizer) == x + 39
    ensures 57 <= x < 95 ==> Mapper(x, a.soilToFertilizer) == x
  {
    if 13 <= x < 15 {
      FirstCoverMaps(a.soilToFertilizer, 2, x);
    } else if 57 <= x < 95 {
      assert NoCover(a.soilToFertilizer, x);
    }
  }

  /** The example's fertilizer-to-water stage on the values the seeds reach. */
  lemma FertilizerToWaterExample(a: Almanac, x: nat)
    requires a == Example()
    ensures 52 <= x < 53 ==> Mapper(x, a.fertilizerToWater) == x - 11
    ensures 53 <= x < 61 ==> Mapper(x, a.fertilizerToWater) == x - 4
    ensures 61 <= x < 95 ==> Mapper(x, a.fertilizerToWater) == x
  {
    if 52 <= x < 53 {
      FirstCoverMaps(a.fertilizerToWater, 1, x);
    } else if 53 <= x < 61 {
      FirstCoverMaps(a.fertilizerToWater, 0, x);
    } else if 61 <= x < 95 {
      assert NoCover(a.fertilizerToWater, x);
    }
  }

  /** The example's water-to-light stage on the values the seeds reach. */
  lemma WaterToLightExample(a: Almanac, x: nat)
    requires a == Example()
    ensures 41 <= x < 95 ==> Mapper(x, a.waterToLight) == x - 7
  {
    if 41 <= x < 95 {
      FirstCoverMaps(a.waterToLight, 1, x);
    }
  }

  /** The example's light-to-temperature stage on the values the seeds reach. */
  lemma LightToTemperatureExample(a: Almanac, x: nat)
    requires a == Example()
    ensures 34 <= x < 43 ==> Mapper(x, a.lightToTemperature) == x
    ensures 46 <= x < 63 ==> Mapper(x, a.lightToTemperature) == x + 36
    ensures 74 <= x < 77 ==> Mapper(x, a.lightToTemperature) == x + 4
    ensures 77 <= x < 88 ==> Mapper(x, a.lightToTemperature) == x - 32
  {
    if 34 <= x < 43 {
      assert NoCover(a.lightToTemperature, x);
    } else if 46 <= x < 63 {
      FirstCoverMaps(a.lightToTemperature, 1, x);
    } else if 74 <= x < 77 {
      FirstCoverMaps(a.lightToTemperature, 2, x);
    } else if 77 <= x < 88 {
      FirstCoverMaps(a.lightToTemperature, 0, x);
    }
  }

  /** The example's temperature-to-humidity stage on the values the seeds reach. */
  lemma TemperatureToHumidityExample(a: Almanac, x: nat)
    requires a == Example()
    ensures 34 <= x < 56 ==> Mapper(x, a.temperatureToHumidity) == x + 1
    ensures 78 <= x < 99 ==> Mapper(x, a.temperatureToHumidity) == x
  {
    if 34 <= x < 56 {
      FirstCoverMaps(a.temperatureToHumidity, 1, x);
    } else if 78 <= x < 99 {
      assert NoCover(a.temperatureToHumidity, x);
    }
  }

  /** The example's humidity-to-location stage on the values the seeds reach. */
  lemma HumidityToLocationExample(a: Almanac, x: nat)
    requires a == Example()
    ensures 35 <= x < 56 ==> Mapper(x, a.humidityToLocation) == x
    ensures 56 <= x < 93 ==> Mapper(x, a.humidityToLocation) == x + 4
    ensures 93 <= x < 97 ==> Mapper(x, a.humidityToLocation) == x - 37
    ensures 97 <= x < 99 ==> Mapper(x, a.humidityToLocation) == x
  {
    if 35 <= x < 56 {
      assert NoCover(a.humidityToLocation, x);
    } else if 56 <= x < 93 {
      FirstCoverMaps(a.humidityToLocation, 0, x);
    } else if 93 <= x < 97 {
      FirstCoverMaps(a.humidityToLocation, 1, x);
    } else if 97 <= x < 99 {
      assert NoCover(a.humidityToLocation, x);
    }
  }

  /** The seed value 13 reaches location v + 22. */
  lemma Locations13To14(a: Almanac, v: nat)
    requires a == Example()
    requires 13 <= v < 14
    ensures Location(a, v) == v + 22
  {
    SeedToSoilExample(a, v);
    SoilToFertilizerExample(a, v);
    FertilizerToWaterExample(a, v + 39);
    WaterToLightExample(a, v + 28);
    LightToTemperatureExample(a, v + 21);
    TemperatureToHumidityExample(a, v + 21);
    HumidityToLocationExample(a, v + 22);
    Through(a, v, v, v + 39, v + 28, v + 21, v + 21, v + 22, v + 22);
  }

  /** The seed value 14 reaches location v + 29. */
  lemma Locations14To15(a: Almanac, v: nat)
    requires a == Example()
    requires 14 <= v < 15
    ensures Location(a, v) == v + 29
  {
    SeedToSoilExample(a, v);
    SoilToFertilizerExample(a, v);
    FertilizerToWaterExample(a, v + 39);
    WaterToLightExample(a, v + 35);
    LightToTemperatureExample(a, v + 28);
    TemperatureToHumidityExample(a, v + 28);
    HumidityToLocationExample(a, v + 29);
    Through(a, v, v, v + 39, v + 35, v + 28, v + 28, v + 29, v + 29);
  }

  /** Every seed value in [55, 59) reaches location v + 31. */
  lemma Locations55To59(a: Almanac, v: nat)
    requires a == Example()
    requires 55 <= v < 59
    ensures Location(a, v) == v + 31
  {
    SeedToSoilExample(a, v);
    SoilToFertilizerExample(a, v + 2);
    FertilizerToWaterExample(a, v + 2);
    WaterToLightExample(a, v - 2);
    LightToTemperatureExample(a, v - 9);
    TemperatureToHumidityExample(a, v + 27);
    HumidityToLocationExample(a, v + 27);
    Through(a, v, v + 2, v + 2, v - 2, v - 9, v + 27, v + 27, v + 31);
  }

  /** Every seed value in [59, 62) reaches location v + 35. */
  lemma Locations59To62(a: Almanac, v: nat)
    requires a == Example()
    requires 59 <= v < 62
    ensures Location(a, v) == v + 35
  {
    SeedToSoilExample(a, v);
    SoilToFertilizerExample(a, v + 2);
    FertilizerToWaterExample(a, v + 2);
    WaterToLightExample(a, v + 2);
    LightToTemperatureExample(a, v - 5);
    TemperatureToHumidityExample(a, v + 31);
    HumidityToLocationExample(a, v + 31);
    Through(a, v, v + 2, v + 2, v + 2, v - 5, v + 31, v + 31, v + 35);
  }

  /** Every seed value in [62, 66) reaches location v - 6. */
  lemma Locations62To66(a: Almanac, v: nat)
    requires a == Example()
    requires 62 <= v < 66
    ensures Location(a, v) == v - 6
  {
    SeedToSoilExample(a, v);
    SoilToFertilizerExample(a, v + 2);
    FertilizerToWaterExample(a, v + 2);
    WaterToLightExample(a, v + 2);
    LightToTemperatureExample(a, v - 5);
    TemperatureToHumidityExample(a, v + 31);
    HumidityToLocationExample(a, v + 31);
    Through(a, v, v + 2, v + 2, v + 2, v - 5, v + 31, v + 31, v - 6);
  }

  /** Every seed value in [66, 68) reaches location v + 31. */
  lemma Locations66To68(a: Almanac, v: nat)
    requires a == Example()
    requires 66 <= v < 68
    ensures Location(a, v) == v + 31
  {
    SeedToSoilExample(a, v);
    SoilToFertilizerExample(a, v + 2);
    FertilizerToWaterExample(a, v + 2);
    WaterToLightExample(a, v + 2);
    LightToTemperatureExample(a, v - 5);
    TemperatureToHumidityExample(a, v + 31);
    HumidityToLocationExample(a, v + 31);
    Through(a, v, v + 2, v + 2, v + 2, v - 5, v + 31, v + 31, v + 31);
  }

  /** Every seed value in [79, 82) reaches location v + 3. */
  lemma Locations79To82(a: Almanac, v: nat)
    requires a == Example()
    requires 79 <= v < 82
    ensures Location(a, v) == v + 3
  {
    SeedToSoilExample(a, v);
    SoilToFertilizerExample(a, v + 2);
    FertilizerToWaterExample(a, v + 2);
    WaterToLightExample(a, v + 2);
    LightToTemperatureExample(a, v - 5);
    TemperatureToHumidityExample(a, v - 1);
    HumidityToLocationExample(a, v - 1);
    Through(a, v, v + 2, v + 2, v + 2, v - 5, v - 1, v - 1, v + 3);
  }

  /** Every seed value in [82, 92) reaches location v - 36. */
  lemma Locations82To92(a: Almanac, v: nat)
    requires a == Example()
    requires 82 <= v < 92
    ensures Location(a, v) == v - 36
  {
    SeedToSoilExample(a, v);
    SoilToFertilizerExample(a, v + 2);
    FertilizerToWaterExample(a, v + 2);
    WaterToLightExample(a, v + 2);
    LightToTemperatureExample(a, v - 5);
    TemperatureToHumidityExample(a, v - 37);
    HumidityToLocationExample(a, v - 36);
    Through(a, v, v + 2, v + 2, v + 2, v - 5, v - 37, v - 36, v - 36);
  }

  /** The seed value 92 reaches location v - 32. */
  lemma Locations92To93(a: Almanac, v: nat)
    requires a == Example()
    requires 92 <= v < 93
    ensures Location(a, v) == v - 32
  {
    SeedToSoilExample(a, v);
    SoilToFertilizerExample(a, v + 2);
    FertilizerToWaterExample(a, v + 2);
    WaterToLightExample(a, v + 2);
    LightToTemperatureExample(a, v - 5);
    TemperatureToHumidityExample(a, v - 37);
    HumidityToLocationExample(a, v - 36);
    Through(a, v, v + 2, v + 2, v + 2, v - 5, v - 37, v - 36, v - 32);
  }

  /** Seven stage results chain into the location. */
  lemma Through(a: Almanac, v: nat, w1: nat, w2: nat, w3: nat, w4: nat, w5: nat, w6: nat, w7: nat)
    requires Mapper(v, a.seedToSoil) == w1 && Mapper(w1, a.soilToFertilizer) == w2
    requires Mapper(w2, a.fertilizerToWater) == w3 && Mapper(w3, a.waterToLight) == w4
    requires Mapper(w4, a.lightToTemperature) == w5 && Mapper(w5, a.temperatureToHumidity) == w6
    requires Mapper(w6, a.humidityToLocation) == w7
    ensures Location(a, v) == w7
  {
    LocationSteps(a, v);
  }

  /** `test_part_one`: the seeds reach 82, 43, 86 and 35, so `PartOne` returns 35. */
  lemma ExamplePartOne(a: Almanac, r: nat)
    requires a == Example()
    requires exists i :: 0 <= i < |a.seeds| && r == Location(a, a.seeds[i])
    requires forall i :: 0 <= i < |a.seeds| ==> r <= Location(a, a.seeds[i])
    ensures r == 35
  {
    ExampleSeedLocations(a);
    LeastOfFour(a, r);
  }

  lemma LeastOfFour(a: Almanac, r: nat)
    requires a.seeds == [79, 14, 55, 13]
    requires Location(a, 79) == 82 && Location(a, 14) == 43
    requires Location(a, 55) == 86 && Location(a, 13) == 35
    requires exists i :: 0 <= i < |a.seeds| && r == Location(a, a.seeds[i])
    requires forall i :: 0 <= i < |a.seeds| ==> r <= Location(a, a.seeds[i])
    ensures r == 35
  {
    var i :| 0 <= i < |a.seeds| && r == Location(a, a.seeds[i]);
    assert r <= Location(a, a.seeds[3]);
    assert i == 0 || i == 1 || i == 2 || i == 3;
  }

  lemma ExampleSeedLocations(a: Almanac)
    requires a == Example()
    ensures Location(a, 79) == 82 && Location(a, 14) == 43
    ensures Location(a, 55) == 86 && Location(a, 13) == 35
  {
    Locations79To82(a, 79);
    Locations14To15(a, 14);
    Locations55To59(a, 55);
    Locations13To14(a, 13);
  }

  /** `test_part_two_sub`: seed 82 reaches location 46. */
  lemma Seed82(a: Almanac)
    requires a == Example()
    ensures Location(a, 82) == 46
  {
    Locations82To92(a, 82);
  }

  /** The example's stages have disjoint sources and positive ranges, and its seed ranges are non-empty. */
  lemma ExampleWellFormed(a: Almanac)
    requires a == Example()
    ensures WellFormed(a)
  {
    EarlyStagesWellFormed(a);
    LateStagesWellFormed(a);
    var st := Stages(a);
    assert forall s :: 0 <= s < 7 ==> StageWellFormed(st[s]);
  }

  lemma EarlyStagesWellFormed(a: Almanac)
    requires a == Example()
    ensures StageWellFormed(a.seedToSoil) && StageWellFormed(a.soilToFertilizer)
    ensures StageWellFormed(a.fertilizerToWater)
  {
  }

  lemma LateStagesWellFormed(a: Almanac)
    requires a == Example()
    ensures StageWellFormed(a.waterToLight) && StageWellFormed(a.lightToTemperature)
    ensures StageWellFormed(a.temperatureToHumidity) && StageWellFormed(a.humidityToLocation)
  {
  }

  /** Seed value 82 lies in the first seed range [79, 93). */
  lemma ExampleSeed82(a: Almanac)
    requires a == Example()
    ensures Covered(SeedChunks(a.seeds), 82)
  {
    ExampleSeedChunks(a);
    assert SeedChunks(a.seeds)[0].Contains(82);
  }

  /** Every seed value, in [79, 93) or [55, 68), reaches a location of at least 46. */
  lemma ExampleLocationsBound(a: Almanac)
    requires a == Example()
    ensures forall v :: Covered(SeedChunks(a.seeds), v) ==> Location(a, v) >= 46
  {
    ExampleSeedChunks(a);
    forall v | Covered(SeedChunks(a.seeds), v)
      ensures Location(a, v) >= 46
    {
      var i :| 0 <= i < 2 && SeedChunks(a.seeds)[i].Contains(v);
      LocationBound(a, v);
    }
  }

  lemma ExampleSeedChunks(a: Almanac)
    requires a == Example()
    ensures SeedChunks(a.seeds) == [Chunk(79, 93), Chunk(55, 68)]
  {
    var sc := SeedChunks(a.seeds);
    assert |sc| == 2;
    assert sc[0] == Chunk(a.seeds[0], a.seeds[0] + a.seeds[1]);
    assert sc[1] == Chunk(a.seeds[2], a.seeds[2] + a.seeds[3]);
  }

  lemma LocationBound(a: Almanac, v: nat)
    requires a == Example()
    requires 55 <= v < 68 || 79 <= v < 93
    ensures Location(a, v) >= 46
  {
    if v < 59 {
      Locations55To59(a, v);
    } else if v < 62 {
      Locations59To62(a, v);
    } else if v < 66 {
      Locations62To66(a, v);
    } else if v < 68 {
      Locations66To68(a, v);
    } else if v < 82 {
      Locations79To82(a, v);
    } else if v < 92 {
      Locations82To92(a, v);
    } else {
      Locations92To93(a, v);
    }
  }

  /** `test_part_two`: the least start of the chunks the stages produce is 46, so `PartTwo` returns 46. */
  lemma ExamplePartTwo(a: Almanac, r: nat)
    requires a == Example()
    requires IsLeastStart(r, Pipeline(Stages(a), SeedChunks(a.seeds)))
    ensures r == 46
  {
    ExampleWellFormed(a);
    LeastStartIsLeastLocation(a, r);
    ExampleSeed82(a);
    Seed82(a);
    ExampleLocationsBound(a);
  }
}
