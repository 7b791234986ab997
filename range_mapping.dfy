/**
 * One stage of the interval pipeline of src/day_5.rs: `range_mapper`
 * pushes one chunk through a list of rules, `ranges_mapper` a list of
 * chunks. The lemmas show that, for a stage whose rule sources are
 * disjoint, the values of the output are exactly `mapper` applied to the
 * values of the input, counted with multiplicity.
 */
module RangeMapping {
  import opened Wrappers
  import opened Chunks
  import opened RemapRules

  /** The intersections of `c` with the rules' source ranges, in rule order (`transformed`). */
  function Transformed(c: Chunk, rules: seq<MapItem>): seq<Chunk>
  {
    if rules == [] then []
    else Transformed(c, rules[..|rules| - 1]) + IntersectionList(rules[|rules| - 1].SourceChunk(), c)
  }

  /** The intersections moved by their rules, in rule order (`res` before the leftovers). */
  function Remapped(c: Chunk, rules: seq<MapItem>): seq<Chunk>
    requires c.Valid()
  {
    if rules == [] then []
    else
      var last := rules[|rules| - 1];
      Remapped(c, rules[..|rules| - 1]) +
      match last.SourceChunk().Intersection(c)
      case None => []
      case Some(inter) => [last.MapChunk(inter)]
  }

  /** One pass of the leftover loop: every kept chunk loses what lies in `exclude`. */
  function ExcludeOne(exclude: Chunk, keep: seq<Chunk>): seq<Chunk>
  {
    if keep == [] then []
    else ExcludeOne(exclude, keep[..|keep| - 1]) + Fragments(exclude.NonOverlap(keep[|keep| - 1]))
  }

  /** The leftover loop: `keep` loses each of `excludes` in turn (`untransformed`). */
  function Subtract(keep: seq<Chunk>, excludes: seq<Chunk>): seq<Chunk>
  {
    if excludes == [] then keep
    else ExcludeOne(excludes[|excludes| - 1], Subtract(keep, excludes[..|excludes| - 1]))
  }

  /** The fragments of `c` that no rule's source range reaches. */
  function Leftover(c: Chunk, rules: seq<MapItem>): seq<Chunk>
  {
    Subtract([c], Transformed(c, rules))
  }

  /** What `range_mapper` returns: the remapped intersections, then the leftovers unchanged. */
  function RangeMap(c: Chunk, rules: seq<MapItem>): seq<Chunk>
    requires c.Valid()
  {
    Remapped(c, rules) + Leftover(c, rules)
  }

  predicate AllValid(cs: seq<Chunk>)
  {
    forall i :: 0 <= i < |cs| ==> cs[i].Valid()
  }

  predicate AllNonEmpty(cs: seq<Chunk>)
  {
    forall i :: 0 <= i < |cs| ==> cs[i].start < cs[i].end
  }

  /** What `ranges_mapper` returns: `range_mapper` of each input chunk, concatenated in order. */
  function RangesMap(cs: seq<Chunk>, rules: seq<MapItem>): (r: seq<Chunk>)
    requires AllValid(cs)
    ensures AllValid(r)
  {
    if cs == [] then []
    else
      RangeMapShape(cs[|cs| - 1], rules);
      RangesMap(cs[..|cs| - 1], rules) + RangeMap(cs[|cs| - 1], rules)
  }

  /** `range_mapper`. */
  method RangeMapper(sourceRange: Chunk, rules: seq<MapItem>) returns (res: seq<Chunk>)
    requires sourceRange.Valid()
    ensures res == RangeMap(sourceRange, rules)
  {
    res := [];
    var transformed := [];
    for k := 0 to |rules|
      invariant res == Remapped(sourceRange, rules[..k])
      invariant transformed == Transformed(sourceRange, rules[..k])
    {
      var mapItem := rules[k];
      var mapChunk := Chunk(mapItem.sourceStart, mapItem.sourceStart + mapItem.range);
      assert rules[..k + 1][..k] == rules[..k];
      match mapChunk.Intersection(sourceRange)
      case Some(inter) =>
        res := res + [mapItem.MapChunk(inter)];
        transformed := transformed + [inter];
      case None =>
    }
    assert rules[..|rules|] == rules;

    var untransformed := [sourceRange];
    for x := 0 to |transformed|
      invariant untransformed == Subtract([sourceRange], transformed[..x])
    {
      assert transformed[..x + 1][..x] == transformed[..x];
      untransformed := KeepOutside(transformed[x], untransformed);
    }
    assert transformed[..|transformed|] == transformed;
    res := res + untransformed;
  }

  /** The inner loop of `range_mapper`: what each kept chunk has outside `exclude`. */
  method KeepOutside(exclude: Chunk, untransformed: seq<Chunk>) returns (newUntransformed: seq<Chunk>)
    ensures newUntransformed == ExcludeOne(exclude, untransformed)
  {
    newUntransformed := [];
    for y := 0 to |untransformed|
      invariant newUntransformed == ExcludeOne(exclude, untransformed[..y])
    {
      assert untransformed[..y + 1][..y] == untransformed[..y];
      match exclude.NonOverlap(untransformed[y])
      case Some(newKeep) => newUntransformed := newUntransformed + newKeep;
      case None =>
    }
    assert untransformed[..|untransformed|] == untransformed;
  }

  /** `ranges_mapper`. */
  method RangesMapper(sourceRanges: seq<Chunk>, rules: seq<MapItem>) returns (res: seq<Chunk>)
    requires AllValid(sourceRanges)
    ensures res == RangesMap(sourceRanges, rules)
  {
    res := [];
    for k := 0 to |sourceRanges|
      invariant res == RangesMap(sourceRanges[..k], rules)
    {
      assert sourceRanges[..k + 1][..k] == sourceRanges[..k];
      var mapped := RangeMapper(sourceRanges[k], rules);
      res := res + mapped;
    }
    assert sourceRanges[..|sourceRanges|] == sourceRanges;
  }

  // ---------------------------------------------------------------------
  // The leftover loop removes exactly the excluded values.

  lemma {:induction false} ExcludeOneCount(exclude: Chunk, keep: seq<Chunk>, v: nat)
    requires exclude.Valid()
    ensures Count(ExcludeOne(exclude, keep), v) == if exclude.Contains(v) then 0 else Count(keep, v)
    decreases |keep|
  {
    if keep != [] {
      var init, last := keep[..|keep| - 1], keep[|keep| - 1];
      ExcludeOneCount(exclude, init, v);
      CountAppend(ExcludeOne(exclude, init), Fragments(exclude.NonOverlap(last)), v);
      NonOverlapCount(exclude, last, v);
    }
  }

  lemma {:induction false} ExcludeOneShape(exclude: Chunk, keep: seq<Chunk>)
    requires exclude.Valid() && AllValid(keep)
    ensures AllValid(ExcludeOne(exclude, keep))
    ensures AllNonEmpty(keep) ==> AllNonEmpty(ExcludeOne(exclude, keep))
    decreases |keep|
  {
    if keep != [] {
      var init, last := keep[..|keep| - 1], keep[|keep| - 1];
      ExcludeOneShape(exclude, init);
      var fs := Fragments(exclude.NonOverlap(last));
      assert forall i :: 0 <= i < |fs| ==> fs[i] in fs;
    }
  }

  /** After the leftover loop, a value remains once per kept chunk exactly when no exclusion holds it. */
  lemma {:induction false} SubtractCount(keep: seq<Chunk>, excludes: seq<Chunk>, v: nat)
    requires AllValid(excludes)
    ensures Count(Subtract(keep, excludes), v) == if Covered(excludes, v) then 0 else Count(keep, v)
    decreases |excludes|
  {
    if excludes != [] {
      var init, last := excludes[..|excludes| - 1], excludes[|excludes| - 1];
      SubtractCount(keep, init, v);
      ExcludeOneCount(last, Subtract(keep, init), v);
      if Covered(init, v) {
        var i :| 0 <= i < |init| && init[i].Contains(v);
        assert excludes[i].Contains(v);
      }
      if Covered(excludes, v) && !last.Contains(v) {
        var i :| 0 <= i < |excludes| && excludes[i].Contains(v);
        assert init[i].Contains(v);
      }
    }
  }

  lemma {:induction false} SubtractShape(keep: seq<Chunk>, excludes: seq<Chunk>)
    requires AllValid(excludes) && AllValid(keep)
    ensures AllValid(Subtract(keep, excludes))
    ensures AllNonEmpty(keep) ==> AllNonEmpty(Subtract(keep, excludes))
    decreases |excludes|
  {
    if excludes != [] {
      var init, last := excludes[..|excludes| - 1], excludes[|excludes| - 1];
      SubtractShape(keep, init);
      ExcludeOneShape(last, Subtract(keep, init));
    }
  }

  // ---------------------------------------------------------------------
  // The intersections.

  lemma {:induction false} TransformedShape(c: Chunk, rules: seq<MapItem>)
    requires c.Valid()
    ensures AllValid(Transformed(c, rules))
    ensures |Transformed(c, rules)| == |Remapped(c, rules)|
    ensures c.start < c.end && (forall i :: 0 <= i < |rules| ==> rules[i].range > 0) ==>
              AllNonEmpty(Transformed(c, rules)) && AllNonEmpty(Remapped(c, rules))
    decreases |rules|
  {
    if rules != [] {
      TransformedShape(c, rules[..|rules| - 1]);
    }
  }

  /** The last rule's intersection with `c` holds `v` once exactly when that rule covers `v` inside `c`. */
  lemma LastIntersectionCount(c: Chunk, rules: seq<MapItem>, v: nat)
    requires rules != []
    ensures Count(Transformed(c, rules), v) ==
      Count(Transformed(c, rules[..|rules| - 1]), v) +
      (if c.Contains(v) && rules[|rules| - 1].IsCovering(v) then 1 else 0)
  {
    var last := rules[|rules| - 1];
    var il := IntersectionList(last.SourceChunk(), c);
    CountAppend(Transformed(c, rules[..|rules| - 1]), il, v);
    if il != [] { CountOne(il[0], v); }
  }

  /** Splitting off the last rule: a value is uncovered by all rules iff by the others and by the last. */
  lemma CoverSnoc(rules: seq<MapItem>, v: nat)
    requires rules != []
    ensures NoCover(rules, v) <==> NoCover(rules[..|rules| - 1], v) && !rules[|rules| - 1].IsCovering(v)
    ensures Disjoint(rules) ==> Disjoint(rules[..|rules| - 1])
    ensures Disjoint(rules) && !NoCover(rules[..|rules| - 1], v) ==> !rules[|rules| - 1].IsCovering(v)
  {
    var init := rules[..|rules| - 1];
    if !NoCover(init, v) {
      var j :| 0 <= j < |init| && init[j].IsCovering(v);
      assert rules[j].IsCovering(v);
    }
    if !NoCover(rules, v) && !rules[|rules| - 1].IsCovering(v) {
      var j :| 0 <= j < |rules| && rules[j].IsCovering(v);
      assert init[j].IsCovering(v);
    }
  }

  /** The intersections hold exactly the values of `c` some rule covers. */
  lemma {:induction false} TransformedCovered(c: Chunk, rules: seq<MapItem>, v: nat)
    ensures Covered(Transformed(c, rules), v) <==> c.Contains(v) && !NoCover(rules, v)
    decreases |rules|
  {
    CountCovered(Transformed(c, rules), v);
    if rules != [] {
      var init := rules[..|rules| - 1];
      TransformedCovered(c, init, v);
      CountCovered(Transformed(c, init), v);
      LastIntersectionCount(c, rules, v);
      CoverSnoc(rules, v);
    }
  }

  /** With disjoint sources, each covered value of `c` lies in exactly one intersection. */
  lemma {:induction false} TransformedCount(c: Chunk, rules: seq<MapItem>, v: nat)
    requires Disjoint(rules)
    ensures Count(Transformed(c, rules), v) == if c.Contains(v) && !NoCover(rules, v) then 1 else 0
    decreases |rules|
  {
    if rules != [] {
      CoverSnoc(rules, v);
      TransformedCount(c, rules[..|rules| - 1], v);
      LastIntersectionCount(c, rules, v);
    }
  }

  /** The leftover fragments hold exactly the values of `c` that no rule covers, each once. */
  lemma LeftoverCount(c: Chunk, rules: seq<MapItem>, v: nat)
    requires c.Valid()
    ensures Count(Leftover(c, rules), v) == if c.Contains(v) && NoCover(rules, v) then 1 else 0
  {
    TransformedShape(c, rules);
    SubtractCount([c], Transformed(c, rules), v);
    TransformedCovered(c, rules, v);
    CountOne(c, v);
  }

  /** The intersections and the leftovers partition the values of `c`. */
  lemma Partition(c: Chunk, rules: seq<MapItem>)
    requires c.Valid() && Disjoint(rules)
    ensures multiset(Flat(Transformed(c, rules) + Leftover(c, rules))) == multiset(Points(c))
  {
    var parts := Transformed(c, rules) + Leftover(c, rules);
    forall v
      ensures multiset(Flat(parts))[v] == multiset(Points(c))[v]
    {
      FlatCount(parts, v);
      CountAppend(Transformed(c, rules), Leftover(c, rules), v);
      TransformedCount(c, rules, v);
      LeftoverCount(c, rules, v);
      PointsCount(c, v);
    }
  }

  // ---------------------------------------------------------------------
  // Each part is moved as `mapper` moves its values.

  /** The remapped intersections are `mapper` applied to the intersections, value by value. */
  lemma {:induction false} RemappedAgrees(c: Chunk, rules: seq<MapItem>, k: nat)
    requires c.Valid() && Disjoint(rules) && k <= |rules|
    ensures MapAll(Flat(Transformed(c, rules[..k])), rules) == Flat(Remapped(c, rules[..k]))
    decreases k
  {
    if k > 0 {
      RemappedAgrees(c, rules, k - 1);
      RemappedAgreesStep(c, rules, k);
    }
  }

  lemma RemappedAgreesStep(c: Chunk, rules: seq<MapItem>, k: nat)
    requires c.Valid() && Disjoint(rules) && 0 < k <= |rules|
    requires MapAll(Flat(Transformed(c, rules[..k - 1])), rules) == Flat(Remapped(c, rules[..k - 1]))
    ensures MapAll(Flat(Transformed(c, rules[..k])), rules) == Flat(Remapped(c, rules[..k]))
  {
    var before := rules[..k - 1];
    var last := rules[k - 1];
    var il := IntersectionList(last.SourceChunk(), c);
    PrefixSnoc(c, rules, k);
    FlatAppend(Transformed(c, before), il);
    MapAllAppend(Flat(Transformed(c, before)), Flat(il), rules);
    match last.SourceChunk().Intersection(c)
    case None =>
      assert il == [];
      assert Transformed(c, before) + il == Transformed(c, before);
      assert Transformed(c, rules[..k]) == Transformed(c, before);
      assert Remapped(c, rules[..k]) == Remapped(c, before);
    case Some(inter) =>
      var moved := [last.MapChunk(inter)];
      assert il == [inter];
      assert Remapped(c, rules[..k]) == Remapped(c, before) + moved;
      FlatAppend(Remapped(c, before), moved);
      FlatOne(inter);
      FlatOne(last.MapChunk(inter));
      MovedAgrees(rules, k - 1, inter);
  }

  /** Adding rule `k - 1` to the prefix adds its intersection, and its moved intersection, at the end. */
  lemma PrefixSnoc(c: Chunk, rules: seq<MapItem>, k: nat)
    requires c.Valid() && 0 < k <= |rules|
    ensures Transformed(c, rules[..k]) ==
      Transformed(c, rules[..k - 1]) + IntersectionList(rules[k - 1].SourceChunk(), c)
    ensures Remapped(c, rules[..k]) == Remapped(c, rules[..k - 1]) +
      match rules[k - 1].SourceChunk().Intersection(c)
      case None => []
      case Some(inter) => [rules[k - 1].MapChunk(inter)]
  {
    assert rules[..k][..k - 1] == rules[..k - 1];
  }

  /** A piece inside rule `j`'s source moves as `mapper` moves each of its values. */
  lemma MovedAgrees(rules: seq<MapItem>, j: nat, inter: Chunk)
    requires Disjoint(rules) && j < |rules|
    requires inter.Valid() && inter.start >= rules[j].sourceStart
    requires inter.end <= rules[j].sourceStart + rules[j].range
    ensures MapAll(Points(inter), rules) == Points(rules[j].MapChunk(inter))
  {
    forall i | 0 <= i < |Points(inter)|
      ensures MapAll(Points(inter), rules)[i] == Points(rules[j].MapChunk(inter))[i]
    {
      MapperCovered(rules, j, Points(inter)[i]);
    }
  }

  /** The leftovers are values no rule covers, so `mapper` leaves them in place. */
  lemma LeftoverFixed(c: Chunk, rules: seq<MapItem>)
    requires c.Valid()
    ensures MapAll(Flat(Leftover(c, rules)), rules) == Flat(Leftover(c, rules))
  {
    var s := Flat(Leftover(c, rules));
    forall i | 0 <= i < |s| ensures Mapper(s[i], rules) == s[i]
    {
      assert s[i] in multiset(s);
      FlatCount(Leftover(c, rules), s[i]);
      LeftoverCount(c, rules, s[i]);
    }
  }

  /**
   * Conservation: for a stage with disjoint sources, the multiset of values
   * `range_mapper` returns is `mapper` applied to each value of the input.
   */
  lemma Conservation(c: Chunk, rules: seq<MapItem>)
    requires c.Valid() && Disjoint(rules)
    ensures multiset(Flat(RangeMap(c, rules))) == multiset(MapAll(Points(c), rules))
  {
    var t, l := Transformed(c, rules), Leftover(c, rules);
    assert rules[..|rules|] == rules;
    RemappedAgrees(c, rules, |rules|);
    LeftoverFixed(c, rules);
    FlatAppend(Remapped(c, rules), l);
    FlatAppend(t, l);
    MapAllAppend(Flat(t), Flat(l), rules);
    Partition(c, rules);
    MapAllPermutation(Flat(t + l), Points(c), rules);
  }

  lemma {:induction false} NoHits(c: Chunk, rules: seq<MapItem>)
    requires c.Valid()
    requires forall i :: 0 <= i < |rules| ==> rules[i].SourceChunk().Intersection(c).None?
    ensures Transformed(c, rules) == [] && Remapped(c, rules) == []
    decreases |rules|
  {
    if rules != [] {
      NoHits(c, rules[..|rules| - 1]);
    }
  }

  /** A chunk no rule's source meets comes back unchanged. */
  lemma IdentityPassthrough(c: Chunk, rules: seq<MapItem>)
    requires c.Valid()
    requires forall i :: 0 <= i < |rules| ==> rules[i].SourceChunk().Intersection(c).None?
    ensures RangeMap(c, rules) == [c]
  {
    NoHits(c, rules);
  }

  lemma {:induction false} SingleHit(c: Chunk, rules: seq<MapItem>, j: nat, k: nat)
    requires c.Valid() && j < |rules| && k <= |rules|
    requires forall i :: 0 <= i < |rules| ==> (rules[i].SourceChunk().Intersection(c).Some? <==> i == j)
    requires rules[j].SourceChunk().Intersection(c) == Some(c)
    ensures Transformed(c, rules[..k]) == if j < k then [c] else []
    ensures Remapped(c, rules[..k]) == if j < k then [rules[j].MapChunk(c)] else []
    decreases k
  {
    if k > 0 {
      var init, last := rules[..k - 1], rules[k - 1];
      assert rules[..k][..k - 1] == init && rules[..k][k - 1] == last;
      SingleHit(c, rules, j, k - 1);
      if k - 1 == j {
        assert IntersectionList(last.SourceChunk(), c) == [c];
      } else {
        assert last.SourceChunk().Intersection(c).None?;
      }
    }
  }

  lemma CoveredHitsOnce(v: nat, rules: seq<MapItem>, j: nat)
    requires Disjoint(rules) && j < |rules| && rules[j].IsCovering(v)
    ensures forall i :: 0 <= i < |rules| ==>
              (rules[i].SourceChunk().Intersection(Chunk(v, v + 1)).Some? <==> i == j)
  {
    forall i | 0 <= i < |rules|
      ensures rules[i].SourceChunk().Intersection(Chunk(v, v + 1)).Some? <==> i == j
    {
      if i < j {
        assert !rules[i].IsCovering(v);
      } else if i > j {
        assert !rules[i].IsCovering(v);
      }
    }
  }

  /** A one-value chunk [v, v+1) maps to the one-value chunk of `mapper(v)`. */
  lemma Singleton(v: nat, rules: seq<MapItem>)
    requires Disjoint(rules)
    ensures RangeMap(Chunk(v, v + 1), rules) == [Chunk(Mapper(v, rules), Mapper(v, rules) + 1)]
  {
    if NoCover(rules, v) {
      IdentityPassthrough(Chunk(v, v + 1), rules);
    } else {
      var j :| 0 <= j < |rules| && rules[j].IsCovering(v);
      SingletonCovered(v, rules, j);
    }
  }

  lemma SingletonCovered(v: nat, rules: seq<MapItem>, j: nat)
    requires Disjoint(rules) && j < |rules| && rules[j].IsCovering(v)
    ensures RangeMap(Chunk(v, v + 1), rules) == [Chunk(Mapper(v, rules), Mapper(v, rules) + 1)]
  {
    var c := Chunk(v, v + 1);
    CoveredOne(rules[j], v);
    CoveredHitsOnce(v, rules, j);
    SoleHit(c, rules, j);
    MapperCovered(rules, j, v);
  }

  /** A rule covering `v` contains [v, v+1) and moves it to [map(v), map(v)+1). */
  lemma CoveredOne(rule: MapItem, v: nat)
    requires rule.IsCovering(v)
    ensures rule.SourceChunk().Intersection(Chunk(v, v + 1)) == Some(Chunk(v, v + 1))
    ensures rule.MapChunk(Chunk(v, v + 1)) == Chunk(rule.Map(v), rule.Map(v) + 1)
  {
  }

  /** A chunk lying inside one rule's source and meeting no other rule moves whole by that rule. */
  lemma SoleHit(c: Chunk, rules: seq<MapItem>, j: nat)
    requires c.Valid() && j < |rules|
    requires forall i :: 0 <= i < |rules| ==> (rules[i].SourceChunk().Intersection(c).Some? <==> i == j)
    requires rules[j].SourceChunk().Intersection(c) == Some(c)
    ensures RangeMap(c, rules) == [rules[j].MapChunk(c)]
  {
    SingleHit(c, rules, j, |rules|);
    assert rules[..|rules|] == rules;
    SubtractSelf(c);
  }

  /** A chunk with itself taken out leaves nothing. */
  lemma SubtractSelf(c: Chunk)
    requires c.Valid()
    ensures Subtract([c], [c]) == []
  {
    assert c.NonOverlap(c) == None;
    assert ExcludeOne(c, [c]) == [] by { assert [c][..0] == []; }
    assert [c][..0] == [];
  }

  /** `range_mapper` never returns an empty list. */
  lemma AtLeastOne(c: Chunk, rules: seq<MapItem>)
    requires c.Valid()
    ensures |RangeMap(c, rules)| >= 1
  {
    TransformedShape(c, rules);
    if Transformed(c, rules) == [] {
      assert Leftover(c, rules) == [c];
    }
  }

  /** Well-formed, non-empty chunks stay so when every rule has a positive range. */
  lemma RangeMapShape(c: Chunk, rules: seq<MapItem>)
    requires c.Valid()
    ensures AllValid(RangeMap(c, rules))
    ensures c.start < c.end && (forall i :: 0 <= i < |rules| ==> rules[i].range > 0) ==>
              AllNonEmpty(RangeMap(c, rules))
  {
    TransformedShape(c, rules);
    SubtractShape([c], Transformed(c, rules));
    assert |Transformed(c, rules)| == |Remapped(c, rules)|;
    RemappedValid(c, rules);
  }

  lemma {:induction false} RemappedValid(c: Chunk, rules: seq<MapItem>)
    requires c.Valid()
    ensures AllValid(Remapped(c, rules))
    decreases |rules|
  {
    if rules != [] {
      RemappedValid(c, rules[..|rules| - 1]);
    }
  }

  // ---------------------------------------------------------------------
  // A whole stage.

  lemma {:induction false} RangesConservation(cs: seq<Chunk>, rules: seq<MapItem>)
    requires AllValid(cs) && Disjoint(rules)
    ensures multiset(Flat(RangesMap(cs, rules))) == multiset(MapAll(Flat(cs), rules))
    decreases |cs|
  {
    if cs != [] {
      var init, last := cs[..|cs| - 1], cs[|cs| - 1];
      RangesConservation(init, rules);
      Conservation(last, rules);
      var a, b := RangesMap(init, rules), RangeMap(last, rules);
      assert RangesMap(cs, rules) == a + b;
      FlatAppend(a, b);
      InitLast(cs);
      MapAllSnoc(init, last, rules);
    }
  }

  lemma InitLast(cs: seq<Chunk>)
    requires cs != []
    ensures cs[..|cs| - 1] + [cs[|cs| - 1]] == cs
  {
  }

  lemma MapAllSnoc(init: seq<Chunk>, last: Chunk, rules: seq<MapItem>)
    ensures MapAll(Flat(init + [last]), rules) == MapAll(Flat(init), rules) + MapAll(Points(last), rules)
  {
    FlatSnoc(init, last);
    MapAllAppend(Flat(init), Points(last), rules);
  }

  lemma {:induction false} RangesShape(cs: seq<Chunk>, rules: seq<MapItem>)
    requires AllValid(cs)
    ensures AllValid(RangesMap(cs, rules))
    ensures |RangesMap(cs, rules)| >= |cs|
    ensures AllNonEmpty(cs) && (forall i :: 0 <= i < |rules| ==> rules[i].range > 0) ==>
              AllNonEmpty(RangesMap(cs, rules))
    decreases |cs|
  {
    if cs != [] {
      var init, last := cs[..|cs| - 1], cs[|cs| - 1];
      RangesShape(init, rules);
      RangeMapShape(last, rules);
      AtLeastOne(last, rules);
    }
  }
}
