/** The repository's unit tests, replayed as clients of the model: each
    method does what one test does and its contract states what the model lets
    a caller conclude, whatever the sampler draws. */
module Scenarios {
  import opened Frames
  import opened MonteCarlo

  /** A die with faces 1, 2, 3 whose weight of face 1 is changed to 100
      reports weight 100 for face 1 and keeps weight 1 for the others. */
  method ChangeWeightScenario() returns (w1: real, w2: real, w3: real)
    ensures w1 == 100.0 && w2 == 1.0 && w3 == 1.0
  {
    var d := FairDie([1, 2, 3]);
    var before := d.State();
    assert d.sides[0] == 1 && d.sides[1] == 2 && d.sides[2] == 3;
    assert before[1] == 1.0 && before[2] == 1.0 && before[3] == 1.0;
    var outcome := d.ChangeWeight(1, Number(100.0));
    var state := d.State();
    assert state == before[1 := 100.0];
    w1, w2, w3 := state[1], state[2], state[3];
  }

  /** Two dice with faces 1, 2, 3 played 3 times give a wide table of 3 rolls
      with the columns dice-0 and dice-1. */
  method GamePlayScenario(draws: seq<seq<nat>>) returns (rolls: nat, names: seq<string>)
    requires |draws| == 2
    requires forall i :: 0 <= i < 2 ==> |draws[i]| == 3 && forall k :: 0 <= k < 3 ==> draws[i][k] < 3
    ensures rolls == 3
    ensures names == [ColumnName(0), ColumnName(1)]
  {
    var d1 := FairDie([1, 2, 3]);
    var d2 := FairDie([1, 2, 3]);
    assert d1.IsSample(3, draws[0]) && d2.IsSample(3, draws[1]);
    var g := new Game([d1, d2]);
    g.Play(3, draws);
    var frame := g.LastPlay();
    rolls := |frame.value.rows|;
    names := frame.value.columns;
  }

  /** The jackpot test: two dice with faces 1, 2, face 1 weighted 100000 on
      both, played once. jackpot() as written reports 2 whatever is rolled;
      the unit test expects 1, which is what the number of agreeing rolls gives
      when both dice land on the same face. */
  method JackpotScenario(draws: seq<seq<nat>>) returns (asWritten: nat, agreeing: nat)
    requires |draws| == 2
    requires forall i :: 0 <= i < 2 ==> |draws[i]| == 1 && draws[i][0] < 2
    ensures asWritten == 2
    ensures agreeing == if draws[0][0] == draws[1][0] then 1 else 0
  {
    var g := PlayLoadedPair(draws);
    var x, y := draws[0][0] + 1, draws[1][0] + 1;
    TwoDiceOneRoll(x, y);
    var made := MakeAnalyzer(AGame(g));
    var a := made.value;
    asWritten := a.Jackpot();
    agreeing := a.JackpotRolls();
  }

  /** The test's game: two loaded dice played once. Face i + 1 sits at index i. */
  method PlayLoadedPair(draws: seq<seq<nat>>) returns (g: Game)
    requires |draws| == 2
    requires forall i :: 0 <= i < 2 ==> |draws[i]| == 1 && draws[i][0] < 2
    ensures fresh(g) && g.Valid()
    ensures g.playColumns == [[draws[0][0] + 1], [draws[1][0] + 1]]
  {
    var d1 := LoadedDie();
    var d2 := LoadedDie();
    LoadedRoll(d1, draws[0]);
    LoadedRoll(d2, draws[1]);
    g := PlayPair(d1, d2, draws);
  }

  /** Either face of the test's die can be drawn, and drawing index i rolls face i + 1. */
  lemma LoadedRoll(d: Die, draw: seq<nat>)
    requires d.Valid() && d.sides == [1, 2] && d.weights == [100000.0, 1.0]
    requires |draw| == 1 && draw[0] < 2
    ensures d.IsSample(1, draw) && d.Roll(1, draw) == [draw[0] + 1]
  {
    assert d.weights[..1] == [100000.0] && [100000.0][..0] == [];
    assert Sum(d.weights) == 100001.0;
  }

  /** Game([d1, d2]).play(1): one column of one roll per die. */
  method PlayPair(d1: Die, d2: Die, draws: seq<seq<nat>>) returns (g: Game)
    requires d1.Valid() && d2.Valid() && |draws| == 2
    requires d1.IsSample(1, draws[0]) && d2.IsSample(1, draws[1])
    ensures fresh(g) && g.Valid()
    ensures g.playColumns == [d1.Roll(1, draws[0]), d2.Roll(1, draws[1])]
  {
    var dice := [d1, d2];
    g := new Game(dice);
    assert g.dice[0] == d1 && g.dice[1] == d2;
    g.Play(1, draws);
  }

  /** The test's die: faces 1 and 2, with face 1 weighted 100000. */
  method LoadedDie() returns (d: Die)
    ensures fresh(d) && d.Valid()
    ensures d.sides == [1, 2] && d.weights == [100000.0, 1.0]
  {
    d := FairDie([1, 2]);
    assert IndexOf(d.sides, 1) == 0;
    var outcome := d.ChangeWeight(1, Number(100000.0));
  }

  /** Die(np.array(faces)) for distinct faces: every weight is 1. */
  method FairDie(faces: seq<int>) returns (d: Die)
    requires Distinct(faces)
    ensures fresh(d) && d.Valid()
    ensures d.sides == faces && d.weights == seq(|faces|, _ => 1.0)
    ensures Sum(d.weights) == |faces| as real
  {
    assert CheckSides(NdArray(faces)) == Ok(faces);
    var made := MakeDie(NdArray(faces));
    d := made.value;
  }
}
