/**
 * The cube game of src/day_2.rs. A game is a list of handfuls, each giving
 * how many red, green and blue cubes were shown. `eveline` keeps the game id
 * when every handful fits a bag of 12 red, 13 green and 14 blue cubes;
 * `eveline_2` multiplies the fewest cubes of each colour the bag must hold.
 * The text of a line is parsed with regular expressions, which are not part
 * of this model: games come in as lists of draws or of handful triples.
 */
module CubeGame {
  import opened Wrappers

  datatype Colour = Red | Green | Blue

  /** One `<count> <colour>` entry of a handful. */
  datatype Draw = Draw(count: nat, colour: Colour)

  /** A handful as the `(red, green, blue)` triple `hans_fulmer` returns. */
  datatype Handful = Handful(red: nat, green: nat, blue: nat)
  {
    function Count(c: Colour): nat
    {
      match c
      case Red => red
      case Green => green
      case Blue => blue
    }

    /** The handful fits the bag of 12 red, 13 green and 14 blue cubes. */
    predicate Possible()
    {
      red <= 12 && green <= 13 && blue <= 14
    }

    /** Each colour raised to the other handful's count where that is larger. */
    function Raise(h: Handful): (r: Handful)
      ensures forall c :: r.Count(c) == Max(Count(c), h.Count(c))
    {
      Handful(Max(red, h.red), Max(green, h.green), Max(blue, h.blue))
    }

    /** The product of the three counts. */
    function Power(): nat
    {
      red * green * blue
    }
  }

  /**
   * The count a colour's pattern captures: that of the first draw of the colour,
   * or 0 when the handful does not name it.
   */
  function FirstCount(draws: seq<Draw>, c: Colour): (r: nat)
    ensures (forall i :: 0 <= i < |draws| ==> draws[i].colour != c) ==> r == 0
    ensures forall i ::
      (0 <= i < |draws| && draws[i].colour == c && (forall j :: 0 <= j < i ==> draws[j].colour != c)) ==>
        r == draws[i].count
  {
    if draws == [] then 0
    else if draws[0].colour == c then draws[0].count
    else
      assert forall i :: 1 <= i < |draws| ==> draws[1..][i - 1] == draws[i];
      FirstCount(draws[1..], c)
  }

  /** `hans_fulmer`: each colour starts at 0 and takes its first count in the handful. */
  function HansFulmer(draws: seq<Draw>): (h: Handful)
    ensures forall c :: h.Count(c) == FirstCount(draws, c)
  {
    Handful(FirstCount(draws, Red), FirstCount(draws, Green), FirstCount(draws, Blue))
  }

  /**
   * `eveline`: the game id when every handful is possible, else None. The
   * `all` stops at the first impossible handful.
   */
  function Eveline(id: nat, hs: seq<Handful>): (r: Option<nat>)
    ensures r == Some(id) <==> forall i :: 0 <= i < |hs| ==> hs[i].Possible()
    ensures r == None <==> exists i :: 0 <= i < |hs| && !hs[i].Possible()
  {
    if hs == [] then Some(id)
    else if !hs[0].Possible() then None
    else
      assert forall i :: 1 <= i < |hs| ==> hs[1..][i - 1] == hs[i];
      Eveline(id, hs[1..])
  }

  /**
   * The per-colour maxima of a game's handfuls, each starting from 0: every
   * handful's count is at most the maximum, which is one of those counts or 0.
   */
  function Maxima(hs: seq<Handful>): (m: Handful)
    ensures forall c, i :: 0 <= i < |hs| ==> hs[i].Count(c) <= m.Count(c)
    ensures forall c :: m.Count(c) == 0 || exists i :: 0 <= i < |hs| && hs[i].Count(c) == m.Count(c)
  {
    if hs == [] then Handful(0, 0, 0)
    else
      var prev := Maxima(hs[..|hs| - 1]);
      var h := hs[|hs| - 1];
      assert forall i :: 0 <= i < |hs| - 1 ==> hs[..|hs| - 1][i] == hs[i];
      prev.Raise(h)
  }

  function Max(a: nat, b: nat): nat
  {
    if b > a then b else a
  }

  /** `eveline_2`: the fold that raises each colour's maximum; the result is always Some. */
  method Eveline2(hs: seq<Handful>) returns (r: Option<nat>)
    ensures r == Some(Maxima(hs).Power())
  {
    var acc := Handful(0, 0, 0);
    for k := 0 to |hs|
      invariant acc == Maxima(hs[..k])
    {
      var h := hs[k];
      assert hs[..k + 1][..k] == hs[..k];
      if h.red > acc.red {
        acc := acc.(red := h.red);
      }
      if h.green > acc.green {
        acc := acc.(green := h.green);
      }
      if h.blue > acc.blue {
        acc := acc.(blue := h.blue);
      }
    }
    assert hs[..|hs|] == hs;
    r := Some(acc.red * acc.green * acc.blue);
  }

  /** A game is possible exactly when the fewest cubes it needs fit the bag. */
  lemma EvelineByMaxima(id: nat, hs: seq<Handful>)
    ensures Eveline(id, hs).Some? <==> Maxima(hs).Possible()
  {
    var m := Maxima(hs);
    if !m.Possible() {
      var c := if m.red > 12 then Red else if m.green > 13 then Green else Blue;
      assert m.Count(c) != 0;
      var i :| 0 <= i < |hs| && hs[i].Count(c) == m.Count(c);
      assert !hs[i].Possible();
    } else {
      forall i | 0 <= i < |hs|
        ensures hs[i].Possible()
      {
        assert hs[i].Count(Red) <= m.Count(Red);
        assert hs[i].Count(Green) <= m.Count(Green);
        assert hs[i].Count(Blue) <= m.Count(Blue);
      }
    }
  }

  /** `test_hans_fulmer`: " 3 blue, 4 red" has no green draw. */
  lemma HansFulmerExample()
    ensures HansFulmer([Draw(3, Blue), Draw(4, Red)]) == Handful(4, 0, 3)
  {
  }
}
