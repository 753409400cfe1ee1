/** A Monte Carlo dice simulator: a Die holds distinct faces with a weight
    each and is rolled; a Game rolls every one of its dice the same number of
    times and keeps the table of its most recent play; an Analyzer derives
    statistics from that table.

    Randomness is an input: a roll receives `draws`, the indices of the faces
    a weighted sampler picked. */
module MonteCarlo {
  import opened Frames
  import opened Numerals

  /** The Python exceptions the simulator raises. */
  datatype Error = TypeError | ValueError | IndexError

  datatype Result<T> = Ok(value: T) | Err(error: Error)

  /** The outcome of an operation that returns nothing or raises. */
  datatype Outcome = Pass | Fail(error: Error)

  /** The `sides` argument of Die(): a numpy array of integer faces, or a value of any other type. */
  datatype SidesArg = NdArray(values: seq<int>) | NotAnArray

  /** The `weight` argument of change_weight: a Python int or float (exact here),
      a str, or an object of another type, which float() cannot convert. */
  datatype WeightArg = Number(x: real) | Str(s: string) | OtherObject

  /** The `narrow` argument of last_play: a bool or a value of another type. */
  datatype FlagArg = Bool(b: bool) | NotBool

  /** The argument of Analyzer(): a Game or a value of another type. */
  datatype GameArg = AGame(game: Game) | NotAGame

  /** A copy of the play table as last_play hands it out. */
  datatype Frame =
    | Wide(columns: seq<string>, rows: seq<seq<int>>)
    | Narrow(cells: seq<Melted>)

  // ---------------------------------------------------------------------
  // Die
  // ---------------------------------------------------------------------

  /** The checks of Die(sides): TypeError unless sides is an array, ValueError on a repeated face. */
  function CheckSides(sides: SidesArg): (r: Result<seq<int>>)
    ensures sides.NotAnArray? ==> r == Err(TypeError)
    ensures sides.NdArray? && !Distinct(sides.values) ==> r == Err(ValueError)
    ensures sides.NdArray? && Distinct(sides.values) ==> r == Ok(sides.values)
  {
    match sides
    case NotAnArray => Err(TypeError)
    case NdArray(values) =>
      NumUniqueBound(values);
      if NumUnique(values) != |values| then Err(ValueError) else Ok(values)
  }

  /** change_weight's type check followed by float(weight): numbers pass, a
      string passes when str.isnumeric holds of it, anything else is a TypeError. */
  function Coerce(weight: WeightArg): (r: Result<real>)
    ensures r.Err? ==> r.error == TypeError
    ensures r.Ok? <==> weight.Number? || (weight.Str? && IsNumeric(weight.s))
    ensures weight.Number? ==> r == Ok(weight.x)
  {
    match weight
    case Number(x) => Ok(x)
    case Str(s) => if IsNumeric(s) then Ok(DigitsValue(s) as real) else Err(TypeError)
    case OtherObject => Err(TypeError)
  }

  /** A string written by str(n) is accepted as a weight and read as n. */
  lemma CoerceNumeral(n: nat)
    ensures Coerce(Str(NatToString(n))) == Ok(n as real)
  {
    DigitsValueOfNatToString(n);
  }

  /** The sum of the weights: the normaliser of the roll distribution. */
  function Sum(ws: seq<real>): real {
    if ws == [] then 0.0 else Sum(ws[..|ws| - 1]) + ws[|ws| - 1]
  }

  lemma {:induction false} SumOfOnes(ws: seq<real>)
    requires forall i :: 0 <= i < |ws| ==> ws[i] == 1.0
    ensures Sum(ws) == |ws| as real
  {
    if ws != [] {
      SumOfOnes(ws[..|ws| - 1]);
    }
  }

  /** Overwriting one weight moves the sum by the difference. */
  lemma {:induction false} SumUpdate(ws: seq<real>, i: nat, v: real)
    requires i < |ws|
    ensures Sum(ws[i := v]) == Sum(ws) - ws[i] + v
  {
    var last := |ws| - 1;
    if i < last {
      assert ws[i := v][..last] == ws[..last][i := v];
      SumUpdate(ws[..last], i, v);
    } else {
      assert ws[i := v][..last] == ws[..last];
    }
  }

  /** The weight table of a die: each face with the weight at its index. */
  function Table(sides: seq<int>, weights: seq<real>): map<int, real>
    requires Distinct(sides) && |weights| == |sides|
  {
    map i | 0 <= i < |sides| :: sides[i] := weights[i]
  }

  /** Overwriting the weight at index i changes the table at face sides[i] only. */
  lemma TableUpdate(sides: seq<int>, weights: seq<real>, i: nat, v: real)
    requires Distinct(sides) && |weights| == |sides| && i < |sides|
    ensures Table(sides, weights[i := v]) == Table(sides, weights)[sides[i] := v]
  {
    var t, t' := Table(sides, weights), Table(sides, weights[i := v]);
    forall f | f in t' ensures t'[f] == t[sides[i] := v][f] {
      var k := IndexOf(sides, f);
      assert t'[sides[k]] == weights[i := v][k];
    }
  }

  class Die {
    /** The faces, in the order given; distinct. */
    const sides: seq<int>
    /** The private weight column, weights[i] belonging to sides[i]. */
    var weights: seq<real>

    ghost predicate Valid()
      reads this
    {
      Distinct(sides) && |weights| == |sides|
    }

    /** Die(sides) once its checks have passed: every weight is 1. */
    constructor (sides: seq<int>)
      requires Distinct(sides)
      ensures Valid() && this.sides == sides
      ensures forall i :: 0 <= i < |sides| ==> weights[i] == 1.0
      ensures Sum(weights) == |sides| as real
    {
      this.sides := sides;
      weights := seq(|sides|, _ => 1.0);
      SumOfOnes(seq(|sides|, _ => 1.0));
    }

    /** state(): the weight table, face to weight. A Dafny map is a value, so
        the caller's copy cannot alias the die's own column. */
    function State(): (t: map<int, real>)
      reads this
      requires Valid()
      ensures t.Keys == Values(sides)
      ensures forall i :: 0 <= i < |sides| ==> t[sides[i]] == weights[i]
    {
      Table(sides, weights)
    }

    /** change_weight(side, weight): IndexError for a face the die lacks, then
        TypeError for a weight float() is not given; only then is the one
        weight overwritten. */
    method ChangeWeight(side: int, weight: WeightArg) returns (r: Outcome)
      requires Valid()
      modifies this
      ensures Valid()
      ensures side !in sides ==> r == Fail(IndexError)
      ensures side in sides && Coerce(weight).Err? ==> r == Fail(TypeError)
      ensures r.Pass? <==> side in sides && Coerce(weight).Ok?
      ensures r.Fail? ==> weights == old(weights)
      ensures r.Pass? ==> weights == old(weights)[IndexOf(sides, side) := Coerce(weight).value]
      ensures r.Pass? ==> State() == old(State())[side := Coerce(weight).value]
      ensures r.Pass? ==> Sum(weights) == old(Sum(weights)) - old(State())[side] + Coerce(weight).value
    {
      if side !in sides {
        return Fail(IndexError);
      }
      var w := Coerce(weight);
      if w.Err? {
        return Fail(w.error);
      }
      var i := IndexOf(sides, side);
      SumUpdate(weights, i, w.value);
      TableUpdate(sides, weights, i, w.value);
      weights := weights[i := w.value];
      r := Pass;
    }

    /** The draws a weighted sampler can return for n rolls: n face indices,
        each of a face with positive weight. The sampler accepts only a weight
        column without negative entries and with a positive sum (so a die with
        faces); on any other column it raises and there are no draws. */
    ghost predicate IsSample(n: nat, draws: seq<nat>)
      reads this
      requires Valid()
    {
      && (forall i :: 0 <= i < |weights| ==> weights[i] >= 0.0)
      && Sum(weights) > 0.0
      && |draws| == n
      && forall k :: 0 <= k < n ==> draws[k] < |sides| && weights[draws[k]] > 0.0
    }

    /** roll(n): n faces sampled with replacement, given the sampler's draws. */
    function Roll(n: nat, draws: seq<nat>): (r: seq<int>)
      reads this
      requires Valid() && IsSample(n, draws)
      ensures |r| == n
      ensures forall k :: 0 <= k < n ==> r[k] in State() && State()[r[k]] > 0.0
    {
      seq(n, k requires 0 <= k < n => sides[draws[k]])
    }
  }

  /** Die(sides): the constructor with its checks. */
  method MakeDie(sides: SidesArg) returns (r: Result<Die>)
    ensures r.Err? <==> CheckSides(sides).Err?
    ensures r.Err? ==> r.error == CheckSides(sides).error
    ensures r.Ok? ==> fresh(r.value) && r.value.Valid() && r.value.sides == sides.values
    ensures r.Ok? ==> forall i :: 0 <= i < |r.value.weights| ==> r.value.weights[i] == 1.0
    ensures r.Ok? ==> Sum(r.value.weights) == |sides.values| as real
  {
    var checked := CheckSides(sides);
    if checked.Err? {
      return Err(checked.error);
    }
    var d := new Die(checked.value);
    r := Ok(d);
  }

  // ---------------------------------------------------------------------
  // Game
  // ---------------------------------------------------------------------

  /** The wide frame's column label for die i. */
  function ColumnName(i: nat): string {
    "dice-" + NatToString(i)
  }

  /** The labels dice-0 .. dice-(k-1); no two alike. */
  function WideColumnNames(k: nat): (names: seq<string>)
    ensures |names| == k
    ensures forall i :: 0 <= i < k ==> names[i] == ColumnName(i)
    ensures Distinct(names)
  {
    forall i, j | 0 <= i < j < k ensures ColumnName(i) != ColumnName(j) {
      NatToStringInjective(i, j);
      assert NatToString(i) == ColumnName(i)[5..];
      assert NatToString(j) == ColumnName(j)[5..];
    }
    seq(k, i requires 0 <= i < k => ColumnName(i))
  }

  class Game {
    /** The dice, shared with the caller, in the order given. */
    const dice: seq<Die>
    /** The private table of the last play, one column of rolls per die; empty before any play. */
    var playColumns: seq<seq<int>>

    ghost predicate Valid()
      reads this, dice
    {
      && (forall i :: 0 <= i < |dice| ==> dice[i].Valid())
      && (playColumns == [] || |playColumns| == |dice|)
      && Rectangular(playColumns)
      && (forall c, j :: 0 <= c < |playColumns| && 0 <= j < |playColumns[c]| ==>
            playColumns[c][j] in dice[c].sides)
    }

    constructor (dice: seq<Die>)
      requires forall i :: 0 <= i < |dice| ==> dice[i].Valid()
      ensures Valid() && this.dice == dice && playColumns == []
    {
      this.dice := dice;
      playColumns := [];
    }

    /** play(n): roll each die n times, in the order of the dice, and replace
        the stored table with one column per die. */
    method Play(n: nat, draws: seq<seq<nat>>)
      requires Valid()
      requires |draws| == |dice|
      requires forall i :: 0 <= i < |dice| ==> dice[i].IsSample(n, draws[i])
      modifies this
      ensures Valid()
      ensures |playColumns| == |dice|
      ensures forall i :: 0 <= i < |dice| ==> playColumns[i] == dice[i].Roll(n, draws[i])
      ensures |WideRows(playColumns)| == if dice == [] then 0 else n
    {
      var rollOutcomes: seq<seq<int>> := [];
      for i := 0 to |dice|
        invariant |rollOutcomes| == i
        invariant forall c :: 0 <= c < i ==> rollOutcomes[c] == dice[c].Roll(n, draws[c])
      {
        rollOutcomes := rollOutcomes + [dice[i].Roll(n, draws[i])];
      }
      playColumns := rollOutcomes;
      forall c, j | 0 <= c < |dice| && 0 <= j < n ensures playColumns[c][j] in dice[c].sides {
        assert playColumns[c][j] in dice[c].State();
      }
    }

    /** last_play(narrow): ValueError unless narrow is a bool; otherwise a copy
        of the table, wide (one row per roll, columns dice-0 ..) or narrow (the
        melted table, one row per (roll, die) cell, die by die). The stored
        table is left as it is. */
    method LastPlay(narrow: FlagArg := Bool(false)) returns (r: Result<Frame>)
      requires Valid()
      ensures narrow.NotBool? ==> r == Err(ValueError)
      ensures narrow == Bool(false) ==>
        r == Ok(Wide(WideColumnNames(|playColumns|), WideRows(playColumns)))
      ensures narrow == Bool(true) ==> r == Ok(Narrow(Melt(playColumns)))
    {
      if narrow.NotBool? {
        return Err(ValueError);
      }
      var df := playColumns;
      if narrow.b {
        return Ok(Narrow(Melt(df)));
      }
      var c: map<nat, string> := map[];
      for i := 0 to |df|
        invariant c == map k: nat | k < i :: ColumnName(k)
      {
        c := c[i := ColumnName(i)];
      }
      var names := seq(|df|, k requires 0 <= k < |df| => c[k]);
      assert names == WideColumnNames(|df|);
      r := Ok(Wide(names, WideRows(df)));
    }
  }

  // ---------------------------------------------------------------------
  // Analyzer
  // ---------------------------------------------------------------------

  /** The number of entries of s that hold a single value, seen once or more.
      jackpot() as written applies it to the columns (one per die); the jackpot
      the unit test expects applies it to the rows (one per roll). */
  function CountConstant(s: seq<seq<int>>): (k: nat)
    ensures k <= |s|
    decreases |s|
  {
    if s == [] then
      0
    else
      CountConstant(s[..|s| - 1]) + (if IsConstant(s[|s| - 1]) then 1 else 0)
  }

  /** The count is the full length exactly when every entry is constant, and
      zero exactly when none is. */
  lemma {:induction false} CountConstantExtremes(s: seq<seq<int>>)
    ensures CountConstant(s) == |s| <==> forall j :: 0 <= j < |s| ==> IsConstant(s[j])
    ensures CountConstant(s) == 0 <==> forall j :: 0 <= j < |s| ==> !IsConstant(s[j])
    decreases |s|
  {
    if s != [] {
      var p := s[..|s| - 1];
      CountConstantExtremes(p);
      assert forall j :: 0 <= j < |p| ==> p[j] == s[j];
    }
  }

  /** np.sort(df.values, axis=1): every roll's outcomes in ascending order. */
  function SortRows(rows: seq<seq<int>>): (sorted: seq<seq<int>>)
    ensures |sorted| == |rows|
    ensures forall j :: 0 <= j < |rows| ==> IsSorted(sorted[j]) && multiset(sorted[j]) == multiset(rows[j])
  {
    seq(|rows|, j requires 0 <= j < |rows| => Sort(rows[j]))
  }

  /** combos(): how often each combination of faces, order disregarded, was rolled. */
  function CombosOf(rows: seq<seq<int>>): map<seq<int>, nat> {
    Tally(SortRows(rows))
  }

  /** permutations(): how often each ordered row of faces was rolled. */
  function PermutationsOf(rows: seq<seq<int>>): map<seq<int>, nat> {
    Tally(rows)
  }

  class Analyzer {
    const game: Game

    constructor (game: Game)
      ensures this.game == game
    {
      this.game := game;
    }

    /** jackpot(), as written: loops over the wide frame's columns and counts
        those holding a single distinct value. */
    method Jackpot() returns (count: nat)
      requires game.Valid()
      ensures count == CountConstant(game.playColumns)
      ensures count <= |game.dice|
      ensures game.playColumns == [] ==> count == 0
    {
      var df := game.LastPlay();
      var cols := game.playColumns;
      var rows := df.value.rows;
      WideRowsColumns(cols);
      count := 0;
      for c := 0 to |df.value.columns|
        invariant count == CountConstant(cols[..c])
      {
        assert cols[..c + 1][..c] == cols[..c];
        NumUniqueOne(Column(rows, c));
        if NumUnique(Column(rows, c)) == 1 {
          count := count + 1;
        }
      }
      assert cols[..|cols|] == cols;
    }

    /** The jackpot the unit test expects: loops over the rolls and counts
        those in which every die shows the same face. */
    method JackpotRolls() returns (count: nat)
      requires game.Valid()
      ensures count == CountConstant(WideRows(game.playColumns))
      ensures count <= NumRows(game.playColumns)
    {
      var df := game.LastPlay();
      var rows := df.value.rows;
      count := 0;
      for j := 0 to |rows|
        invariant count == CountConstant(rows[..j])
      {
        assert rows[..j + 1][..j] == rows[..j];
        NumUniqueOne(rows[j]);
        if NumUnique(rows[j]) == 1 {
          count := count + 1;
        }
      }
      assert rows[..|rows|] == rows;
      WideRowsColumns(game.playColumns);
    }

    /** combos(): sort each roll, then count each distinct sorted roll. */
    method Combos() returns (counts: map<seq<int>, nat>)
      requires game.Valid()
      ensures counts == CombosOf(WideRows(game.playColumns))
    {
      var df := game.LastPlay();
      counts := Tally(SortRows(df.value.rows));
    }

    /** permutations(): count each distinct ordered roll. */
    method Permutations() returns (counts: map<seq<int>, nat>)
      requires game.Valid()
      ensures counts == PermutationsOf(WideRows(game.playColumns))
    {
      var df := game.LastPlay();
      counts := Tally(df.value.rows);
    }
  }

  /** Analyzer(game): ValueError unless the argument is a Game. */
  method MakeAnalyzer(arg: GameArg) returns (r: Result<Analyzer>)
    ensures arg.NotAGame? ==> r == Err(ValueError)
    ensures arg.AGame? ==> r.Ok? && fresh(r.value) && r.value.game == arg.game
  {
    if arg.NotAGame? {
      return Err(ValueError);
    }
    var a := new Analyzer(arg.game);
    r := Ok(a);
  }

  // ---------------------------------------------------------------------
  // Properties of the statistics
  // ---------------------------------------------------------------------

  /** As written, one roll of k dice always gives a jackpot of k: each column
      then holds a single value. */
  lemma JackpotOfOneRoll(cols: seq<seq<int>>)
    requires Rectangular(cols) && NumRows(cols) == 1
    ensures CountConstant(cols) == |cols|
  {
    forall c | 0 <= c < |cols| ensures IsConstant(cols[c]) {
      assert |cols[c]| == 1;
      SingleRollConstant(cols[c]);
    }
    CountConstantExtremes(cols);
  }

  lemma SingleRollConstant(s: seq<int>)
    requires |s| == 1
    ensures IsConstant(s)
  {
  }

  /** Dice that always land on the same face v make every roll a jackpot. */
  lemma ForcedDiceJackpot(cols: seq<seq<int>>, v: int)
    requires Rectangular(cols)
    requires forall c, j :: 0 <= c < |cols| && 0 <= j < |cols[c]| ==> cols[c][j] == v
    ensures CountConstant(WideRows(cols)) == NumRows(cols)
  {
    var rows := WideRows(cols);
    forall j | 0 <= j < |rows| ensures IsConstant(rows[j]) {
      assert rows[j][0] == v;
    }
    CountConstantExtremes(rows);
  }

  /** With a single die every roll is a jackpot. */
  lemma SingleDieJackpot(cols: seq<seq<int>>)
    requires Rectangular(cols) && |cols| == 1
    ensures CountConstant(WideRows(cols)) == NumRows(cols)
  {
    var rows := WideRows(cols);
    forall j | 0 <= j < |rows| ensures IsConstant(rows[j]) {
      assert |rows[j]| == 1;
      SingleRollConstant(rows[j]);
    }
    CountConstantExtremes(rows);
  }

  /** Two dice rolled once: jackpot() as written reports 2 whatever they
      show, while the rolls in which both dice agree number 1 or 0. This is
      the unit test's game, both dice landing on face 1, where 1 is expected. */
  lemma TwoDiceOneRoll(a: int, b: int)
    ensures CountConstant([[a], [b]]) == 2
    ensures CountConstant(WideRows([[a], [b]])) == if a == b then 1 else 0
  {
    var cols := [[a], [b]];
    JackpotOfOneRoll(cols);
    var rows := WideRows(cols);
    assert |rows| == 1 && |rows[0]| == 2;
    assert rows[0][0] == a && rows[0][1] == b;
    assert rows[0] == [a, b];
    assert rows == [[a, b]];
    assert rows[..0] == [];
    assert IsConstant([a, b]) <==> a == b;
  }

  /** A combos key is a sorted combination, and a sorted combination is a key
      exactly when some roll is an arrangement of it. */
  lemma CombosKeys(rows: seq<seq<int>>, key: seq<int>)
    ensures key in CombosOf(rows) ==> IsSorted(key)
    ensures IsSorted(key) ==>
      (key in CombosOf(rows) <==> exists j :: 0 <= j < |rows| && multiset(rows[j]) == multiset(key))
  {
    var sorted := SortRows(rows);
    if key in CombosOf(rows) {
      var j :| 0 <= j < |sorted| && sorted[j] == key;
    }
    if IsSorted(key) {
      if j :| 0 <= j < |rows| && multiset(rows[j]) == multiset(key) {
        SortedUnique(sorted[j], key);
        assert sorted[j] in sorted;
      }
    }
  }

  /** Rearranging the faces within rolls does not change combos(). */
  lemma CombosIgnoreOrder(rows: seq<seq<int>>, rows': seq<seq<int>>)
    requires |rows| == |rows'|
    requires forall j :: 0 <= j < |rows| ==> multiset(rows[j]) == multiset(rows'[j])
    ensures CombosOf(rows) == CombosOf(rows')
  {
    forall j | 0 <= j < |rows| ensures SortRows(rows)[j] == SortRows(rows')[j] {
      SortKey(rows[j], rows'[j]);
    }
    assert SortRows(rows) == SortRows(rows');
  }

  /** Both orders of two faces sort to the smaller face first. */
  lemma SortPair(x: int, y: int)
    requires x < y
    ensures Sort([x, y]) == [x, y] && Sort([y, x]) == [x, y]
  {
    SortSingle(x);
    SortSingle(y);
    assert [x, y][1..] == [y] && [y, x][1..] == [x];
    assert Insert(x, [y]) == [x] + [y];
    assert Insert(y, [x]) == [x] + Insert(y, []);
  }

  lemma SortSingle(x: int)
    ensures Sort([x]) == [x]
  {
    assert [x][1..] == [];
    assert Insert(x, []) == [x];
  }

  /** Two equal rolls make one key counted twice. */
  lemma TallyOfTwin(v: seq<int>)
    ensures Tally([v, v]) == map[v := 2]
  {
    assert [v, v][..1] == [v];
    assert Tally([v]) == map[v := 1];
  }

  /** Two rolls (x, y) and (y, x) of two different faces share one combos
      key, as the rolls (1, 2) and (2, 1) do ... */
  lemma SwappedRollsOneCombo(x: int, y: int)
    requires x < y
    ensures CombosOf([[x, y], [y, x]]) == map[[x, y] := 2]
  {
    SortPair(x, y);
    assert SortRows([[x, y], [y, x]]) == [[x, y], [x, y]];
    TallyOfTwin([x, y]);
  }

  /** ... but are two permutations keys. */
  lemma SwappedRollsTwoPermutations(x: int, y: int)
    requires x != y
    ensures PermutationsOf([[x, y], [y, x]]) == map[[x, y] := 1, [y, x] := 1]
  {
    var rows := [[x, y], [y, x]];
    assert rows[..1] == [[x, y]];
    assert Tally(rows[..1]) == map[[x, y] := 1];
  }

  /** The counts of combos() and of permutations() both add up to the number of rolls. */
  lemma CountsAddUpToRolls(rows: seq<seq<int>>)
    ensures Total(CombosOf(rows)) == |rows|
    ensures Total(PermutationsOf(rows)) == |rows|
  {
    TotalTally(SortRows(rows));
    TotalTally(rows);
  }
}
