/**
 * The offset rules of src/day_5.rs (`MapItem`) and the scalar lookup
 * `mapper`: the first rule covering a value moves it, else it stays.
 */
module RemapRules {
  import opened Wrappers
  import opened Chunks

  /** `dest_start source_start range`: [source_start, source_start + range) moves by dest_start - source_start. */
  datatype MapItem = MapItem(sourceStart: nat, destStart: nat, range: nat)
  {
    /** The source range as a chunk, as `range_mapper` builds it. */
    function SourceChunk(): Chunk { Chunk(sourceStart, sourceStart + range) }

    /** The rule's input line, in the almanac's order `dest source range`. */
    function Line(): seq<nat> { [destStart, sourceStart, range] }

    predicate IsCovering(source: nat)
      ensures IsCovering(source) <==> SourceChunk().Contains(source)
    {
      source >= sourceStart && source < sourceStart + range
    }

    /** `map`; the u64 subtraction needs `dest_start + source >= source_start`. */
    function Map(source: nat): (r: nat)
      requires destStart + source >= sourceStart
      ensures r + sourceStart == destStart + source
    {
      destStart + source - sourceStart
    }

    /** `map_chunk`: shifts a chunk lying inside the source range; length and pointwise `map` agree. */
    function MapChunk(c: Chunk): (r: Chunk)
      requires c.Valid() && c.start >= sourceStart && c.end <= sourceStart + range
      ensures r.Valid() && r.Len() == c.Len()
      ensures forall i :: 0 <= i < |Points(c)| ==> Points(r)[i] == Map(Points(c)[i])
    {
      Chunk(c.start + destStart - sourceStart, c.end + destStart - sourceStart)
    }
  }

  /** The message of a failed `assert_eq!`. */
  const AssertEqFailed := "assertion `left == right` failed"

  /** `from_set`: a parsed triple `dest source range`; any other length fails its `assert_eq!`. */
  function FromSet(triple: seq<nat>): (r: Run<MapItem>)
    ensures r.Panics? <==> |triple| != 3
    ensures r.Panics? ==> r.reason == AssertEqFailed
    ensures r.Returns? ==> r.value.Line() == triple
  {
    if |triple| != 3 then Panics(AssertEqFailed)
    else Returns(MapItem(triple[1], triple[0], triple[2]))
  }

  /** Rule `i` is the first rule of `rules` covering `s`. */
  predicate FirstCover(rules: seq<MapItem>, s: nat, i: int)
  {
    0 <= i < |rules| && rules[i].IsCovering(s) &&
    forall j :: 0 <= j < i ==> !rules[j].IsCovering(s)
  }

  predicate NoCover(rules: seq<MapItem>, s: nat)
  {
    forall j :: 0 <= j < |rules| ==> !rules[j].IsCovering(s)
  }

  /** `mapper`: the first covering rule in list order wins, otherwise the value maps to itself. */
  function Mapper(source: nat, rules: seq<MapItem>): (r: nat)
    ensures (exists i :: FirstCover(rules, source, i) && r == rules[i].Map(source))
            || (NoCover(rules, source) && r == source)
  {
    if rules == [] then source
    else if rules[0].IsCovering(source) then rules[0].Map(source)
    else
      assert forall i :: FirstCover(rules[1..], source, i) ==> FirstCover(rules, source, i + 1);
      Mapper(source, rules[1..])
  }

  /** No value is covered by two rules of the stage. */
  ghost predicate Disjoint(rules: seq<MapItem>)
  {
    forall i, j, v :: 0 <= i < j < |rules| && rules[i].IsCovering(v) ==> !rules[j].IsCovering(v)
  }

  /** In a stage whose sources are disjoint, the one covering rule decides. */
  lemma MapperCovered(rules: seq<MapItem>, j: nat, v: nat)
    requires Disjoint(rules)
    requires j < |rules| && rules[j].IsCovering(v)
    ensures Mapper(v, rules) == rules[j].Map(v)
  {
    var r := Mapper(v, rules);
    if !NoCover(rules, v) {
      var i :| FirstCover(rules, v, i) && r == rules[i].Map(v);
      assert i == j;
    }
  }

  /** `mapper` applied to each value of `s`. */
  function MapAll(s: seq<nat>, rules: seq<MapItem>): (r: seq<nat>)
    ensures |r| == |s|
    ensures forall i :: 0 <= i < |s| ==> r[i] == Mapper(s[i], rules)
  {
    seq(|s|, i requires 0 <= i < |s| => Mapper(s[i], rules))
  }

  lemma MapAllAppend(a: seq<nat>, b: seq<nat>, rules: seq<MapItem>)
    ensures MapAll(a + b, rules) == MapAll(a, rules) + MapAll(b, rules)
  {
  }

  /** `f` applied to each value of `s`. */
  function Image(s: seq<nat>, f: nat -> nat): (r: seq<nat>)
    ensures |r| == |s|
    ensures forall i :: 0 <= i < |s| ==> r[i] == f(s[i])
  {
    seq(|s|, i requires 0 <= i < |s| => f(s[i]))
  }

  lemma ImageAppend(a: seq<nat>, b: seq<nat>, f: nat -> nat)
    ensures Image(a + b, f) == Image(a, f) + Image(b, f)
  {
  }

  lemma RemoveAt(b: seq<nat>, k: nat)
    requires k < |b|
    ensures multiset(b[..k] + b[k + 1..]) == multiset(b) - multiset{b[k]}
  {
    assert b == b[..k] + [b[k]] + b[k + 1..];
    assert multiset(b) == multiset(b[..k]) + multiset{b[k]} + multiset(b[k + 1..]);
  }

  /** Taking element `k` out of `b` takes its image out of `b`'s image. */
  lemma ImageRemoveAt(b: seq<nat>, k: nat, f: nat -> nat)
    requires k < |b|
    ensures multiset(Image(b, f)) == multiset{f(b[k])} + multiset(Image(b[..k] + b[k + 1..], f))
  {
    var fb := Image(b, f);
    assert fb == fb[..k] + [fb[k]] + fb[k + 1..];
    assert fb[..k] == Image(b[..k], f);
    assert fb[k + 1..] == Image(b[k + 1..], f);
    ImageAppend(b[..k], b[k + 1..], f);
  }

  /** The image of a sequence under `f` depends only on its multiset of values. */
  lemma {:induction false} ImagePermutation(a: seq<nat>, b: seq<nat>, f: nat -> nat)
    requires multiset(a) == multiset(b)
    ensures multiset(Image(a, f)) == multiset(Image(b, f))
    decreases |a|
  {
    if a == [] {
      assert |b| == |multiset(b)| == 0;
    } else {
      var k := MatchFirst(a, b);
      ImagePermutation(a[1..], b[..k] + b[k + 1..], f);
      ImageRemoveBoth(a, b, k, f);
    }
  }

  /** A position of `b` holding `a`'s first value, whose removal leaves the rest of `a` up to order. */
  lemma MatchFirst(a: seq<nat>, b: seq<nat>) returns (k: nat)
    requires a != [] && multiset(a) == multiset(b)
    ensures k < |b| && b[k] == a[0]
    ensures multiset(a[1..]) == multiset(b[..k] + b[k + 1..])
  {
    assert a[0] in multiset(b);
    k :| 0 <= k < |b| && b[k] == a[0];
    RemoveAt(b, k);
    DropFirst(a);
  }

  lemma DropFirst(a: seq<nat>)
    requires a != []
    ensures multiset(a[1..]) == multiset(a) - multiset{a[0]}
  {
    assert a == [a[0]] + a[1..];
  }

  lemma ImageRemoveBoth(a: seq<nat>, b: seq<nat>, k: nat, f: nat -> nat)
    requires a != [] && k < |b| && b[k] == a[0]
    requires multiset(Image(a[1..], f)) == multiset(Image(b[..k] + b[k + 1..], f))
    ensures multiset(Image(a, f)) == multiset(Image(b, f))
  {
    ImageRemoveAt(a, 0, f);
    ImageRemoveAt(b, k, f);
    assert a[..0] + a[1..] == a[1..];
  }

  lemma MapAllPermutation(a: seq<nat>, b: seq<nat>, rules: seq<MapItem>)
    requires multiset(a) == multiset(b)
    ensures multiset(MapAll(a, rules)) == multiset(MapAll(b, rules))
  {
    var f := (x: nat) => Mapper(x, rules);
    ImagePermutation(a, b, f);
    assert MapAll(a, rules) == Image(a, f);
    assert MapAll(b, rules) == Image(b, f);
  }
}
