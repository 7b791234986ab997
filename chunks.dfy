/**
 * The half-open intervals of src/day_5.rs (`Chunk`) and the two case
 * analyses on them, `intersection` and `non_overlap`.
 */
module Chunks {
  import opened Wrappers

  /** A half-open interval [start, end) of naturals; u64 is modelled as nat. */
  datatype Chunk = Chunk(start: nat, end: nat)
  {
    /** The interval is well formed (`start <= end`). */
    predicate Valid() { start <= end }

    predicate Contains(v: nat) { start <= v < end }

    /**
     * The intersection of `other` with this chunk, or None when they are
     * disjoint (the four overlap shapes of the source, in its order).
     */
    function Intersection(other: Chunk): (r: Option<Chunk>)
      ensures r.None? <==> (other.end <= start || other.start >= end)
      ensures r.Some? ==> r.value == Chunk(Max(start, other.start), Min(end, other.end))
      ensures forall v :: InOption(r, v) <==> Contains(v) && other.Contains(v)
      ensures r.Some? && Valid() && other.Valid() ==> r.value.Valid()
      ensures r.Some? && start < end && other.start < other.end ==> r.value.start < r.value.end
    {
      if other.end <= start || other.start >= end then None
      else if other.start >= start && other.end <= end then Some(other)
      else if other.start < start && other.end > end then Some(this)
      else if other.start < start then Some(Chunk(start, other.end))
      else Some(Chunk(other.start, end))
    }

    /**
     * The parts of `other` that lie outside this chunk: None when `other`
     * lies inside it, otherwise one or two fragments in increasing order.
     * The source's trailing `panic!` is unreachable: the last branch is the
     * disjoint case, and the final ensures proves nothing else reaches it.
     */
    function NonOverlap(other: Chunk): (r: Option<seq<Chunk>>)
      ensures r.None? <==> (other.start >= start && other.end <= end)
      ensures r.Some? ==> 1 <= |r.value| <= 2
      ensures Valid() && r.Some? && |r.value| == 2 ==> r.value[0].end <= r.value[1].start
      ensures Valid() && r.Some? ==> forall i :: 0 <= i < |r.value| ==>
                r.value[i].start >= other.start && r.value[i].end <= other.end
      ensures Valid() && other.Valid() ==> forall c :: c in Fragments(r) ==> c.Valid()
      ensures Valid() && other.start < other.end ==> forall c :: c in Fragments(r) ==> c.start < c.end
      ensures Valid() && (other.end <= start || other.start >= end) && other.start < other.end ==> r == Some([other])
    {
      if other.start >= start && other.end <= end then None
      else if other.start < start && other.end > end then
        Some([Chunk(other.start, start), Chunk(end, other.end)])
      else if other.start < start && other.end > start then
        Some([Chunk(other.start, start)])
      else if other.end > end && other.start < end then
        Some([Chunk(end, other.end)])
      else
        Some([other])
    }

    /** The number of values the chunk holds. */
    function Len(): nat { if start <= end then end - start else 0 }
  }

  function Max(a: nat, b: nat): nat { if a < b then b else a }
  function Min(a: nat, b: nat): nat { if a < b then a else b }

  predicate InOption(r: Option<Chunk>, v: nat) { r.Some? && r.value.Contains(v) }

  /** The fragments `non_overlap` produced, with None read as no fragment. */
  function Fragments(r: Option<seq<Chunk>>): seq<Chunk>
  {
    match r
    case None => []
    case Some(cs) => cs
  }

  /** How many chunks of `cs` hold `v`: the multiplicity of `v` in `cs`. */
  function Count(cs: seq<Chunk>, v: nat): nat
  {
    if cs == [] then 0
    else Count(cs[..|cs| - 1], v) + (if cs[|cs| - 1].Contains(v) then 1 else 0)
  }

  /** `v` lies in some chunk of `cs`. */
  predicate Covered(cs: seq<Chunk>, v: nat)
  {
    exists i :: 0 <= i < |cs| && cs[i].Contains(v)
  }

  /** The values of a chunk in increasing order (what `to_u64s` lists). */
  function Points(c: Chunk): (r: seq<nat>)
    ensures |r| == c.Len()
    ensures forall i :: 0 <= i < |r| ==> r[i] == c.start + i
    decreases c.Len()
  {
    if c.start >= c.end then [] else [c.start] + Points(Chunk(c.start + 1, c.end))
  }

  /** The values of all chunks of `cs`, chunk after chunk. */
  function Flat(cs: seq<Chunk>): seq<nat>
  {
    if cs == [] then [] else Flat(cs[..|cs| - 1]) + Points(cs[|cs| - 1])
  }

  /** `to_u64s`: the values of the chunk, pushed one by one. */
  method ToU64s(c: Chunk) returns (res: seq<nat>)
    ensures res == Points(c)
  {
    res := [];
    var idx := c.start;
    while idx < c.end
      invariant c.start <= idx
      invariant c.start <= c.end ==> idx <= c.end
      invariant c.start > c.end ==> idx == c.start
      invariant |res| == idx - c.start
      invariant forall i :: 0 <= i < |res| ==> res[i] == c.start + i
    {
      res := res + [idx];
      idx := idx + 1;
    }
    assert |res| == |Points(c)|;
  }

  lemma CountOne(c: Chunk, v: nat)
    ensures Count([c], v) == if c.Contains(v) then 1 else 0
  {
    assert [c][..0] == [];
  }

  lemma {:induction false} CountAppend(a: seq<Chunk>, b: seq<Chunk>, v: nat)
    ensures Count(a + b, v) == Count(a, v) + Count(b, v)
    decreases |b|
  {
    if b == [] {
      assert a + b == a;
    } else {
      assert (a + b)[..|a + b| - 1] == a + b[..|b| - 1];
      CountAppend(a, b[..|b| - 1], v);
    }
  }

  lemma {:induction false} CountCovered(cs: seq<Chunk>, v: nat)
    ensures Count(cs, v) > 0 <==> Covered(cs, v)
    decreases |cs|
  {
    if cs != [] {
      var init := cs[..|cs| - 1];
      CountCovered(init, v);
      if Covered(init, v) {
        var i :| 0 <= i < |init| && init[i].Contains(v);
        assert cs[i].Contains(v);
      }
      if Covered(cs, v) && !cs[|cs| - 1].Contains(v) {
        var i :| 0 <= i < |cs| && cs[i].Contains(v);
        assert init[i].Contains(v);
      }
    }
  }

  lemma {:induction false} PointsCount(c: Chunk, v: nat)
    ensures multiset(Points(c))[v] == if c.Contains(v) then 1 else 0
    decreases c.Len()
  {
    if c.start < c.end {
      PointsCount(Chunk(c.start + 1, c.end), v);
      PointsCons(c);
    }
  }

  lemma PointsCons(c: Chunk)
    requires c.start < c.end
    ensures multiset(Points(c)) == multiset{c.start} + multiset(Points(Chunk(c.start + 1, c.end)))
  {
    var p, q := Points(c), Points(Chunk(c.start + 1, c.end));
    assert p == [c.start] + q;
  }

  /** The multiset of values of `cs` counts each value once per chunk holding it. */
  lemma {:induction false} FlatCount(cs: seq<Chunk>, v: nat)
    ensures multiset(Flat(cs))[v] == Count(cs, v)
    decreases |cs|
  {
    if cs != [] {
      FlatCount(cs[..|cs| - 1], v);
      PointsCount(cs[|cs| - 1], v);
    }
  }

  lemma {:induction false} FlatAppend(a: seq<Chunk>, b: seq<Chunk>)
    ensures Flat(a + b) == Flat(a) + Flat(b)
    decreases |b|
  {
    if b == [] {
      assert a + b == a;
    } else {
      var init, last := b[..|b| - 1], b[|b| - 1];
      FlatAppend(a, init);
      assert b == init + [last];
      assert a + b == (a + init) + [last];
      FlatSnoc(a + init, last);
      FlatSnoc(init, last);
      AppendAssoc(Flat(a), Flat(init), Points(last));
    }
  }

  lemma AppendAssoc(x: seq<nat>, y: seq<nat>, z: seq<nat>)
    ensures (x + y) + z == x + (y + z)
  {
  }

  lemma FlatOne(c: Chunk)
    ensures Flat([c]) == Points(c)
  {
    assert [c][..0] == [];
  }

  lemma FlatSnoc(init: seq<Chunk>, last: Chunk)
    ensures Flat(init + [last]) == Flat(init) + Points(last)
  {
    assert (init + [last])[..|init|] == init;
  }

  /** Each value of `other` outside this chunk lies in exactly one fragment; no other value lies in any. */
  lemma NonOverlapCount(self: Chunk, other: Chunk, v: nat)
    requires self.Valid()
    ensures Count(Fragments(self.NonOverlap(other)), v)
            == if other.Contains(v) && !self.Contains(v) then 1 else 0
  {
    var fs := Fragments(self.NonOverlap(other));
    if |fs| == 2 {
      assert fs[..1] == [fs[0]];
      assert Count([fs[0]], v) == if fs[0].Contains(v) then 1 else 0 by {
        assert [fs[0]][..0] == [];
      }
    } else if |fs| == 1 {
      assert fs[..0] == [];
    }
  }

  /** Complementarity: the intersection and the fragments of `non_overlap` split `other`. */
  lemma Complementarity(self: Chunk, other: Chunk)
    requires self.Valid()
    ensures forall v :: Count(IntersectionList(self, other) + Fragments(self.NonOverlap(other)), v)
                        == if other.Contains(v) then 1 else 0
  {
    forall v ensures Count(IntersectionList(self, other) + Fragments(self.NonOverlap(other)), v)
                     == if other.Contains(v) then 1 else 0
    {
      CountAppend(IntersectionList(self, other), Fragments(self.NonOverlap(other)), v);
      NonOverlapCount(self, other, v);
      var il := IntersectionList(self, other);
      if il != [] { assert il[..0] == []; }
    }
  }

  function IntersectionList(self: Chunk, other: Chunk): seq<Chunk>
  {
    match self.Intersection(other)
    case None => []
    case Some(c) => [c]
  }

  /** The tests of src/day_5.rs on [4,6). */
  lemma OverlapExamples()
    ensures Chunk(4, 6).NonOverlap(Chunk(2, 5)) == Some([Chunk(2, 4)])
    ensures Chunk(4, 6).Intersection(Chunk(2, 5)) == Some(Chunk(4, 5))
    ensures Chunk(4, 6).NonOverlap(Chunk(2, 8)) == Some([Chunk(2, 4), Chunk(6, 8)])
    ensures Chunk(4, 6).Intersection(Chunk(2, 8)) == Some(Chunk(4, 6))
    ensures Chunk(4, 6).NonOverlap(Chunk(4, 6)) == None
    ensures Chunk(4, 6).Intersection(Chunk(4, 6)) == Some(Chunk(4, 6))
    ensures Chunk(4, 6).NonOverlap(Chunk(5, 8)) == Some([Chunk(6, 8)])
    ensures Chunk(4, 6).Intersection(Chunk(5, 8)) == Some(Chunk(5, 6))
  {
  }
}
