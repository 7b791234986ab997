/**
 * The five games of the tests of src/day_2.rs, each handful written as the
 * triple its draws give (a colour the handful does not name is 0).
 */
module CubeGameExample {
  import opened Wrappers
  import opened CubeGame

  function Game12(): seq<Handful>
  {
    [Handful(4, 0, 3), Handful(1, 2, 6), Handful(0, 2, 0)]
  }

  function Game2(): seq<Handful>
  {
    [Handful(0, 2, 1), Handful(1, 3, 4), Handful(0, 1, 1)]
  }

  function Game3(): seq<Handful>
  {
    [Handful(20, 8, 6), Handful(4, 13, 5), Handful(1, 5, 0)]
  }

  function Game4(): seq<Handful>
  {
    [Handful(3, 1, 6), Handful(6, 3, 0), Handful(14, 3, 15)]
  }

  function Game5(): seq<Handful>
  {
    [Handful(6, 3, 1), Handful(1, 2, 2)]
  }

  /** `test_eveline`: games 12, 2 and 5 are possible, game 3 (20 red) and game 4 (15 blue) are not. */
  lemma EvelineExamples()
    ensures Eveline(12, Game12()) == Some(12)
    ensures Eveline(2, Game2()) == Some(2)
    ensures Eveline(3, Game3()) == None
    ensures Eveline(4, Game4()) == None
    ensures Eveline(5, Game5()) == Some(5)
  {
  }

  /** `test_eveline_2`: the powers 48, 12, 1560, 630 and 36. */
  lemma Eveline2Examples()
    ensures Maxima(Game12()).Power() == 48
    ensures Maxima(Game2()).Power() == 12
    ensures Maxima(Game3()).Power() == 1560
    ensures Maxima(Game4()).Power() == 630
    ensures Maxima(Game5()).Power() == 36
  {
    Maxima12();
    Maxima2();
    Maxima3();
    Maxima4();
    Maxima5();
  }

  lemma Maxima12()
    ensures Maxima(Game12()) == Handful(4, 2, 6)
  {
    var g := Game12();
    assert Maxima(g[..1]) == Handful(4, 0, 3);
    assert g[..2][..1] == g[..1];
    assert Maxima(g[..2]) == Handful(4, 2, 6);
    assert g[..3][..2] == g[..2];
    assert Maxima(g[..3]) == Handful(4, 2, 6);
    assert g[..3] == g;
  }

  lemma Maxima2()
    ensures Maxima(Game2()) == Handful(1, 3, 4)
  {
    var g := Game2();
    assert Maxima(g[..1]) == Handful(0, 2, 1);
    assert g[..2][..1] == g[..1];
    assert Maxima(g[..2]) == Handful(1, 3, 4);
    assert g[..3][..2] == g[..2];
    assert Maxima(g[..3]) == Handful(1, 3, 4);
    assert g[..3] == g;
  }

  lemma Maxima3()
    ensures Maxima(Game3()) == Handful(20, 13, 6)
  {
    var g := Game3();
    assert Maxima(g[..1]) == Handful(20, 8, 6);
    assert g[..2][..1] == g[..1];
    assert Maxima(g[..2]) == Handful(20, 13, 6);
    assert g[..3][..2] == g[..2];
    assert Maxima(g[..3]) == Handful(20, 13, 6);
    assert g[..3] == g;
  }

  lemma Maxima4()
    ensures Maxima(Game4()) == Handful(14, 3, 15)
  {
    var g := Game4();
    assert Maxima(g[..1]) == Handful(3, 1, 6);
    assert g[..2][..1] == g[..1];
    assert Maxima(g[..2]) == Handful(6, 3, 6);
    assert g[..3][..2] == g[..2];
    assert Maxima(g[..3]) == Handful(14, 3, 15);
    assert g[..3] == g;
  }

  lemma Maxima5()
    ensures Maxima(Game5()) == Handful(6, 3, 2)
  {
    var g := Game5();
    assert Maxima(g[..1]) == Handful(6, 3, 1);
    assert g[..2][..1] == g[..1];
    assert Maxima(g[..2]) == Handful(6, 3, 2);
    assert g[..2] == g;
  }

  /** The first game's handfuls are what `hans_fulmer` makes of its draws. */
  lemma Game12Draws()
    ensures Game12() == [
      HansFulmer([Draw(3, Blue), Draw(4, Red)]),
      HansFulmer([Draw(1, Red), Draw(2, Green), Draw(6, Blue)]),
      HansFulmer([Draw(2, Green)])]
  {
  }
}
