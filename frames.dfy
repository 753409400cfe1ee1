/** The numpy and pandas operations the dice simulator relies on, as
    functions on values: np.unique (a count of distinct values), np.sort on a
    row, value_counts (a tally of distinct keys), and the two shapes of the
    play table (the wide frame and the melted narrow frame). */
module Frames {

  // ---------------------------------------------------------------------
  // Distinct values (np.unique, Series.unique)
  // ---------------------------------------------------------------------

  predicate Distinct<T(==)>(s: seq<T>) {
    forall i, j :: 0 <= i < j < |s| ==> s[i] != s[j]
  }

  function Values<T(==)>(s: seq<T>): set<T> {
    set x | x in s
  }

  /** len(np.unique(s)): the number of distinct values in s. */
  function NumUnique<T(==)>(s: seq<T>): nat {
    |Values(s)|
  }

  lemma {:induction false} NumUniqueBound<T>(s: seq<T>)
    ensures NumUnique(s) <= |s|
    ensures NumUnique(s) == |s| <==> Distinct(s)
  {
    if s != [] {
      var p, x := s[..|s| - 1], s[|s| - 1];
      assert s == p + [x];
      assert Values(s) == Values(p) + {x};
      NumUniqueBound(p);
      if x in Values(p) {
        assert Values(s) == Values(p);
        var k :| 0 <= k < |p| && p[k] == x;
        assert s[k] == s[|s| - 1];
      } else {
        assert Distinct(s) <==> Distinct(p);
      }
    }
  }

  predicate IsConstant<T(==)>(s: seq<T>) {
    |s| > 0 && forall j :: 0 <= j < |s| ==> s[j] == s[0]
  }

  /** len(s.unique()) == 1 exactly when s is non-empty and all its entries are equal. */
  lemma NumUniqueOne<T>(s: seq<T>)
    ensures NumUnique(s) == 1 <==> IsConstant(s)
  {
    if IsConstant(s) {
      assert Values(s) == {s[0]};
    }
    if NumUnique(s) == 1 {
      assert s[0] in Values(s);
      assert |Values(s) - {s[0]}| == 0;
      assert Values(s) == {s[0]};
      assert forall j :: 0 <= j < |s| ==> s[j] in Values(s);
    }
  }

  function IndexOf<T(==)>(s: seq<T>, x: T): (i: nat)
    requires x in s
    ensures i < |s| && s[i] == x
    ensures forall j :: 0 <= j < i ==> s[j] != x
  {
    if s[0] == x then 0 else 1 + IndexOf(s[1..], x)
  }

  // ---------------------------------------------------------------------
  // Sorting one row (np.sort along axis 1)
  // ---------------------------------------------------------------------

  predicate IsSorted(s: seq<int>) {
    forall i, j :: 0 <= i < j < |s| ==> s[i] <= s[j]
  }

  /** Inserting x into a sorted row keeps it sorted, adds x to its entries and
      puts the smaller of x and the old first entry in front. */
  function Insert(x: int, s: seq<int>): (r: seq<int>)
    requires IsSorted(s)
    ensures IsSorted(r)
    ensures multiset(r) == multiset(s) + multiset{x}
    ensures |r| == |s| + 1 && r[0] == if s == [] || x <= s[0] then x else s[0]
  {
    if s == [] || x <= s[0] then
      [x] + s
    else
      var t := Insert(x, s[1..]);
      InsertAbove(s[0], t);
      InsertCount(s, t, x);
      [s[0]] + t
  }

  lemma InsertCount(s: seq<int>, t: seq<int>, x: int)
    requires s != [] && multiset(t) == multiset(s[1..]) + multiset{x}
    ensures multiset([s[0]] + t) == multiset(s) + multiset{x}
  {
    assert s == [s[0]] + s[1..];
  }

  /** Putting in front of a sorted row a value no larger than its first entry keeps it sorted. */
  lemma InsertAbove(y: int, t: seq<int>)
    requires IsSorted(t)
    requires t != [] ==> y <= t[0]
    ensures IsSorted([y] + t)
  {
    var r := [y] + t;
    forall i, j | 0 <= i < j < |r| ensures r[i] <= r[j] {
      assert r[j] == t[j - 1];
      if i > 0 {
        assert r[i] == t[i - 1];
      }
    }
  }

  /** The row in ascending order. */
  function Sort(s: seq<int>): (r: seq<int>)
    ensures IsSorted(r)
    ensures multiset(r) == multiset(s)
  {
    if s == [] then
      []
    else
      assert s == [s[0]] + s[1..];
      Insert(s[0], Sort(s[1..]))
  }

  /** The first entry of a sorted row is its least. */
  lemma SortedHead(a: seq<int>, x: int)
    requires IsSorted(a) && x in multiset(a)
    ensures a[0] <= x
  {
    var k :| 0 <= k < |a| && a[k] == x;
  }

  lemma SortedTail(a: seq<int>)
    requires IsSorted(a) && a != []
    ensures IsSorted(a[1..])
  {
    forall i, j | 0 <= i < j < |a| - 1 ensures a[1..][i] <= a[1..][j] {
      assert a[1..][i] == a[i + 1] && a[1..][j] == a[j + 1];
    }
  }

  /** A sorted arrangement of a multiset is unique. */
  lemma {:induction false} SortedUnique(a: seq<int>, b: seq<int>)
    requires IsSorted(a) && IsSorted(b)
    requires multiset(a) == multiset(b)
    ensures a == b
  {
    assert |a| == |multiset(a)| == |multiset(b)| == |b|;
    if a != [] {
      assert a[0] in multiset(a) && b[0] in multiset(b);
      SortedHead(b, a[0]);
      SortedHead(a, b[0]);
      SortedTail(a);
      SortedTail(b);
      SameTails(a, b);
      SortedUnique(a[1..], b[1..]);
      SameTails(a, b);
    }
  }

  /** Two rows with the same first entry and the same entries have tails with
      the same entries, and are equal when their tails are. */
  lemma SameTails(a: seq<int>, b: seq<int>)
    requires a != [] && b != [] && a[0] == b[0]
    requires multiset(a) == multiset(b)
    ensures multiset(a[1..]) == multiset(b[1..])
    ensures a[1..] == b[1..] ==> a == b
  {
    assert a == [a[0]] + a[1..];
    assert b == [b[0]] + b[1..];
    assert multiset(a[1..]) == multiset(a) - multiset{a[0]};
    assert multiset(b[1..]) == multiset(b) - multiset{b[0]};
  }

  /** Two rows sort to the same key exactly when one rearranges the other. */
  lemma SortKey(a: seq<int>, b: seq<int>)
    ensures Sort(a) == Sort(b) <==> multiset(a) == multiset(b)
  {
    if multiset(a) == multiset(b) {
      SortedUnique(Sort(a), Sort(b));
    }
  }

  // ---------------------------------------------------------------------
  // value_counts as a map from each distinct key to its count
  // ---------------------------------------------------------------------

  /** Each distinct entry of s with the number of times it occurs in s. */
  function Tally<T(==)>(s: seq<T>): (m: map<T, nat>)
    ensures m.Keys == Values(s)
    ensures forall x | x in m :: m[x] == multiset(s)[x] && m[x] > 0
    decreases |s|
  {
    if s == [] then
      map[]
    else
      var p, x := s[..|s| - 1], s[|s| - 1];
      assert s == p + [x];
      var m := Tally(p);
      m[x := (if x in m then m[x] else 0) + 1]
  }

  /** The sum of the counts of a map. */
  ghost function Total<T>(m: map<T, nat>): nat
    decreases |m|
  {
    if m == map[] then
      0
    else
      var x :| x in m;
      assert |m - {x}| < |m| by { assert (m - {x}).Keys == m.Keys - {x}; }
      m[x] + Total(m - {x})
  }

  /** The sum does not depend on the order keys are taken in. */
  lemma {:induction false} TotalRemove<T>(m: map<T, nat>, x: T)
    requires x in m
    ensures Total(m) == m[x] + Total(m - {x})
    decreases |m|
  {
    var y :| y in m && Total(m) == m[y] + Total(m - {y});
    if y != x {
      assert (m - {y}).Keys == m.Keys - {y};
      assert (m - {x}).Keys == m.Keys - {x};
      TotalRemove(m - {y}, x);
      TotalRemove(m - {x}, y);
      assert m - {y} - {x} == m - {x} - {y};
    }
  }

  /** The counts of a tally add up to the number of entries tallied. */
  lemma {:induction false} TotalTally<T>(s: seq<T>)
    ensures Total(Tally(s)) == |s|
    decreases |s|
  {
    if s != [] {
      var p, x := s[..|s| - 1], s[|s| - 1];
      var m := Tally(p);
      var m' := Tally(s);
      TotalTally(p);
      assert m' - {x} == m - {x};
      TotalRemove(m', x);
      if x in m {
        TotalRemove(m, x);
      } else {
        assert m - {x} == m;
      }
    }
  }

  // ---------------------------------------------------------------------
  // The play table
  // ---------------------------------------------------------------------

  /** A table stored column by column (one column per die), as the dict of
      roll lists handed to pd.DataFrame. With no columns there are no rows. */
  function NumRows(cols: seq<seq<int>>): nat {
    if cols == [] then 0 else |cols[0]|
  }

  predicate Rectangular(cols: seq<seq<int>>) {
    forall c :: 0 <= c < |cols| ==> |cols[c]| == NumRows(cols)
  }

  /** The wide frame: one row per roll, holding the outcome of every die. */
  function WideRows(cols: seq<seq<int>>): (rows: seq<seq<int>>)
    requires Rectangular(cols)
  {
    seq(NumRows(cols), j requires 0 <= j < NumRows(cols) =>
      seq(|cols|, c requires 0 <= c < |cols| => cols[c][j]))
  }

  /** Column c of a table given row by row (df[c]). */
  function Column(rows: seq<seq<int>>, c: nat): (col: seq<int>)
    requires forall j :: 0 <= j < |rows| ==> c < |rows[j]|
  {
    seq(|rows|, j requires 0 <= j < |rows| => rows[j][c])
  }

  /** The wide frame has one row per roll and one entry per die in every row,
      and reading column c of it back gives die c's rolls. */
  lemma WideRowsColumns(cols: seq<seq<int>>)
    requires Rectangular(cols)
    ensures |WideRows(cols)| == NumRows(cols)
    ensures forall j :: 0 <= j < NumRows(cols) ==> |WideRows(cols)[j]| == |cols|
    ensures forall c :: 0 <= c < |cols| ==> Column(WideRows(cols), c) == cols[c]
  {
    var rows := WideRows(cols);
    forall c | 0 <= c < |cols| ensures Column(rows, c) == cols[c] {
      assert |Column(rows, c)| == |cols[c]|;
    }
  }

  /** One row of the narrow frame: the (roll, dice) index and the outcome. */
  datatype Melted = Melted(roll: nat, die: nat, outcome: int)

  /** The rows pd.melt contributes for value column c. */
  function Stack(c: nat, col: seq<int>): (r: seq<Melted>) {
    seq(|col|, j requires 0 <= j < |col| => Melted(j, c, col[j]))
  }

  /** pd.melt over the value columns 0 .. |cols|-1: their cells stacked one
      column after another. Every row is a cell of the table, and the rows
      come ordered by die, then by roll, so no (roll, die) pair repeats. */
  function Melt(cols: seq<seq<int>>): (r: seq<Melted>)
    requires Rectangular(cols)
    ensures |r| == |cols| * NumRows(cols)
    ensures forall i :: 0 <= i < |r| ==>
      r[i].die < |cols| && r[i].roll < NumRows(cols) && r[i].outcome == cols[r[i].die][r[i].roll]
    ensures forall i, i' :: 0 <= i < i' < |r| ==>
      r[i].die < r[i'].die || (r[i].die == r[i'].die && r[i].roll < r[i'].roll)
    decreases |cols|
  {
    if cols == [] then
      []
    else
      var p := cols[..|cols| - 1];
      assert |p| > 0 ==> NumRows(p) == NumRows(cols);
      assert Rectangular(p);
      var front := Melt(p);
      assert |front| == (|cols| - 1) * NumRows(cols);
      front + Stack(|cols| - 1, cols[|cols| - 1])
  }

  /** Every cell appears in the melted frame, at its die-major position. */
  lemma {:induction false} MeltAt(cols: seq<seq<int>>, c: nat, j: nat)
    requires Rectangular(cols)
    requires c < |cols| && j < NumRows(cols)
    ensures c * NumRows(cols) + j < |Melt(cols)|
    ensures Melt(cols)[c * NumRows(cols) + j] == Melted(j, c, cols[c][j])
    decreases |cols|
  {
    var n, k := NumRows(cols), |cols|;
    var p := cols[..k - 1];
    assert |p| > 0 ==> NumRows(p) == n;
    assert Rectangular(p);
    assert |Melt(p)| == (k - 1) * n;
    if c < k - 1 {
      MeltAt(p, c, j);
      assert c * n + j < (c + 1) * n <= (k - 1) * n;
    } else {
      assert c * n + j == (k - 1) * n + j;
    }
  }
}
