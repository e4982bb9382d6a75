// How a masked symbol is scored, by the four rules of section 7.8.3 of ISO/IEC 18004:2015: each
// rule as a sum over places, and the single pass of the encoder that computes it.
module Penalty {
  type Rows = seq<seq<bool>>

  predicate Square(rows: Rows) {
    |rows| > 0 && forall y :: 0 <= y < |rows| ==> |rows[y]| == |rows|
  }

  function Column(rows: Rows, x: nat): (col: seq<bool>)
    requires Square(rows) && x < |rows|
    ensures |col| == |rows| && forall y :: 0 <= y < |rows| ==> col[y] == rows[y][x]
  {
    seq(|rows|, y requires 0 <= y < |rows| => rows[y][x])
  }

  // ---------------------------------------------------------------- rule 1: runs

  predicate FiveAlike(line: seq<bool>, i: nat)
    requires 4 <= i < |line|
  {
    line[i - 4] == line[i - 3] == line[i - 2] == line[i - 1] == line[i]
  }

  // Three points where a run reaches five, one for each module more.
  function RunPoints(line: seq<bool>, i: nat): nat
    requires i < |line|
  {
    if i < 4 || !FiveAlike(line, i) then 0
    else if i == 4 || line[i - 5] != line[i] then 3
    else 1
  }

  function RunScore(line: seq<bool>, n: nat): (p: nat)
    requires n <= |line|
    ensures p <= 3 * n
  {
    if n == 0 then 0 else RunScore(line, n - 1) + RunPoints(line, n - 1)
  }

  function Owed(length: nat): nat {
    if length >= 5 then 3 + (length - 5) else 0
  }

  // The last `length` of the first i modules are one run.
  ghost predicate InRun(line: seq<bool>, i: nat, length: nat) {
    && 1 <= length <= i <= |line|
    && (forall k :: i - length <= k < i ==> line[k] == line[i - 1])
    && (length < i ==> line[i - length - 1] != line[i - 1])
  }

  lemma RunGoesOn(line: seq<bool>, i: nat, length: nat)
    requires i < |line| && InRun(line, i, length)
    ensures var length' := if line[i] == line[i - 1] then length + 1 else 1;
            InRun(line, i + 1, length')
            && RunPoints(line, i) == if line[i] == line[i - 1] then Owed(length + 1) - Owed(length) else 0
  {
  }

  // Points are given when a run ends, for the whole of it.
  method Run(line: seq<bool>) returns (total: nat)
    requires line != []
    ensures total == RunScore(line, |line|)
  {
    total := 0;
    var length, last := 1, line[0];
    for i := 1 to |line|
      invariant InRun(line, i, length) && last == line[i - 1]
      invariant total + Owed(length) == RunScore(line, i)
    {
      RunGoesOn(line, i, length);
      var c := line[i];
      if c == last {
        length := length + 1;
      } else {
        if length >= 5 {
          total := total + 3 + (length - 5);
        }
        length, last := 1, c;
      }
    }
    if length >= 5 {
      total := total + 3 + (length - 5);
    }
  }

  function Runs(rows: Rows, n: nat): nat
    requires Square(rows) && n <= |rows|
  {
    if n == 0 then 0
    else Runs(rows, n - 1) + RunScore(rows[n - 1], |rows|) + RunScore(Column(rows, n - 1), |rows|)
  }

  // ---------------------------------------------------------------- rule 2: squares of one colour

  predicate OneColour(rows: Rows, x: nat, y: nat)
    requires Square(rows) && x + 1 < |rows| && y + 1 < |rows|
  {
    rows[y][x] == rows[y][x + 1] == rows[y + 1][x] == rows[y + 1][x + 1]
  }

  function SquaresAcross(rows: Rows, y: nat, n: nat): (p: nat)
    requires Square(rows) && y + 1 < |rows| && n < |rows|
    ensures p <= 3 * n
  {
    if n == 0 then 0 else SquaresAcross(rows, y, n - 1) + (if OneColour(rows, n - 1, y) then 3 else 0)
  }

  function Squares(rows: Rows, n: nat): nat
    requires Square(rows) && n < |rows|
  {
    if n == 0 then 0 else Squares(rows, n - 1) + SquaresAcross(rows, n - 1, |rows| - 1)
  }

  // ---------------------------------------------------------------- rule 3: what looks like a finder

  const PATTERN := [true, false, true, true, true, false, true]

  // Outside the symbol counts as light.
  predicate Clear(line: seq<bool>, from: int) {
    forall j :: from <= j < from + 4 && 0 <= j < |line| ==> !line[j]
  }

  predicate FinderLike(line: seq<bool>, at: nat)
    requires at + 7 <= |line|
  {
    line[at..at + 7] == PATTERN && (Clear(line, at - 4) || Clear(line, at + 7))
  }

  method IsClear(line: seq<bool>, from: int) returns (clear: bool)
    ensures clear == Clear(line, from)
  {
    for i := 0 to 4
      invariant forall j :: from <= j < from + i && 0 <= j < |line| ==> !line[j]
    {
      var j := from + i;
      if 0 <= j < |line| && line[j] {
        return false;
      }
    }
    return true;
  }

  method LooksLikeFinder(line: seq<bool>, at: nat) returns (looks: bool)
    requires at + 7 <= |line|
    ensures looks == FinderLike(line, at)
  {
    for i := 0 to 7
      invariant forall k :: 0 <= k < i ==> line[at + k] == PATTERN[k]
    {
      if line[at + i] != PATTERN[i] {
        assert line[at..at + 7][i] != PATTERN[i];
        return false;
      }
    }
    assert line[at..at + 7] == PATTERN;
    looks := IsClear(line, at - 4);
    if !looks {
      looks := IsClear(line, at + 7);
    }
  }

  function FinderScore(line: seq<bool>, n: nat): (p: nat)
    requires n + 6 <= |line|
    ensures p <= 40 * n
  {
    if n == 0 then 0 else FinderScore(line, n - 1) + (if FinderLike(line, n - 1) then 40 else 0)
  }

  function Finders(rows: Rows, n: nat): nat
    requires Square(rows) && |rows| >= 7 && n <= |rows|
  {
    if n == 0 then 0
    else Finders(rows, n - 1) + FinderScore(rows[n - 1], |rows| - 6) + FinderScore(Column(rows, n - 1), |rows| - 6)
  }

  // ---------------------------------------------------------------- rule 4: balance

  function DarkIn(line: seq<bool>, n: nat): (p: nat)
    requires n <= |line|
    ensures p <= n
  {
    if n == 0 then 0 else DarkIn(line, n - 1) + (if line[n - 1] then 1 else 0)
  }

  function Dark(rows: Rows, n: nat): nat
    requires Square(rows) && n <= |rows|
  {
    if n == 0 then 0 else Dark(rows, n - 1) + DarkIn(rows[n - 1], |rows|)
  }

  function Imbalance(dark: nat, size: nat): nat
    requires size > 0
  {
    var percent := dark * 100 / (size * size);
    (if percent < 50 then 50 - percent else percent - 50) / 5 * 10
  }

  // ---------------------------------------------------------------- the score

  function Score(rows: Rows): nat
    requires Square(rows) && |rows| >= 7
  {
    var s := |rows|;
    Runs(rows, s) + Squares(rows, s - 1) + Finders(rows, s) + Imbalance(Dark(rows, s), s)
  }

  method ScoreRuns(rows: Rows) returns (total: nat)
    requires Square(rows)
    ensures total == Runs(rows, |rows|)
  {
    total := 0;
    for i := 0 to |rows|
      invariant total == Runs(rows, i)
    {
      var across := Run(rows[i]);
      var down := Run(Column(rows, i));
      total := total + across + down;
    }
  }

  method ScoreSquares(rows: Rows) returns (total: nat)
    requires Square(rows)
    ensures total == Squares(rows, |rows| - 1)
  {
    total := 0;
    for y := 0 to |rows| - 1
      invariant total == Squares(rows, y)
    {
      for x := 0 to |rows| - 1
        invariant total == Squares(rows, y) + SquaresAcross(rows, y, x)
      {
        var c := rows[y][x];
        if c == rows[y][x + 1] && c == rows[y + 1][x] && c == rows[y + 1][x + 1] {
          total := total + 3;
        }
      }
    }
  }

  method ScoreFinders(rows: Rows) returns (total: nat)
    requires Square(rows) && |rows| >= 7
    ensures total == Finders(rows, |rows|)
  {
    total := 0;
    for i := 0 to |rows|
      invariant total == Finders(rows, i)
    {
      var col := Column(rows, i);
      for j := 0 to |rows| - 6
        invariant total == Finders(rows, i) + FinderScore(rows[i], j) + FinderScore(col, j)
      {
        var byRow := LooksLikeFinder(rows[i], j);
        if byRow {
          total := total + 40;
        }
        var byCol := LooksLikeFinder(col, j);
        if byCol {
          total := total + 40;
        }
      }
    }
  }

  method CountDark(rows: Rows) returns (dark: nat)
    requires Square(rows)
    ensures dark == Dark(rows, |rows|)
  {
    dark := 0;
    for y := 0 to |rows|
      invariant dark == Dark(rows, y)
    {
      for x := 0 to |rows|
        invariant dark == Dark(rows, y) + DarkIn(rows[y], x)
      {
        if rows[y][x] {
          dark := dark + 1;
        }
      }
    }
  }

  method Penalise(rows: Rows) returns (total: nat)
    requires Square(rows) && |rows| >= 7
    ensures total == Score(rows)
  {
    var s := |rows|;
    var runs := ScoreRuns(rows);
    var squares := ScoreSquares(rows);
    var finders := ScoreFinders(rows);
    var dark := CountDark(rows);
    var percent := dark * 100 / (s * s);
    var deviation: int := percent - 50;
    if deviation < 0 {
      deviation := -deviation;
    }
    total := runs + squares + finders + deviation / 5 * 10;
  }

  // ---------------------------------------------------------------- how high it can get

  // A symbol of version 10 has 57 modules a side.
  lemma {:induction false} SumsAreSmall(rows: Rows, n: nat)
    requires Square(rows) && 7 <= |rows| <= 57 && n <= |rows|
    ensures Runs(rows, n) <= 342 * n && Finders(rows, n) <= 4080 * n && Dark(rows, n) <= |rows| * n
    ensures n < |rows| ==> Squares(rows, n) <= 171 * n
    decreases n
  {
    if n > 0 {
      SumsAreSmall(rows, n - 1);
      assert |rows| * (n - 1) + |rows| == |rows| * n;
    }
  }

  lemma PercentIsSmall(dark: nat, size: nat)
    requires size > 0 && dark <= size * size
    ensures 0 <= dark * 100 / (size * size) <= 100
  {
    var q := dark * 100 / (size * size);
    assert q * (size * size) <= dark * 100 <= 100 * (size * size);
    if q > 100 {
      AtLeastAsMany(q - 100, size * size);
    }
  }

  lemma AtLeastAsMany(d: nat, m: nat)
    requires d > 0 && m > 0
    ensures d * m > 0
  {
  }

  // No score comes near what the search for the least one starts from.
  lemma ScoreIsSmall(rows: Rows)
    requires Square(rows) && 7 <= |rows| <= 57
    ensures Score(rows) < 1_000_000
  {
    var s := |rows|;
    SumsAreSmall(rows, s);
    SumsAreSmall(rows, s - 1);
    PercentIsSmall(Dark(rows, s), s);
  }
}
