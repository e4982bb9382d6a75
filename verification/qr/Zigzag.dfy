// The order the data is placed in: column pairs from the right, up and down in turn, stepping
// over column 6. Sizes are odd, as a symbol's are.
module Zigzag {
  datatype Cell = Cell(x: int, y: int)

  predicate IsSize(size: nat) {
    size >= 9 && size % 2 == 1
  }

  // The right-hand column of pair p, and how many pairs there are.
  function ColumnOf(size: nat, p: nat): int {
    var col := size - 1 - 2 * p;
    if col > 6 then col else col - 1
  }

  function Pairs(size: nat): nat {
    size / 2
  }

  // The row that step r of pair p stands on: even pairs climb, odd ones descend.
  function RowOf(size: nat, p: nat, r: int): int {
    if p % 2 == 0 then size - 1 - r else r
  }

  function At(size: nat, p: nat, r: nat, c: nat): Cell {
    Cell(ColumnOf(size, p) - c, RowOf(size, p, r))
  }

  // The cells of the first p pairs and of the first r rows of the pair after them.
  function Walk(size: nat, p: nat, r: nat): seq<Cell>
    decreases p, r
  {
    if r > 0 then Walk(size, p, r - 1) + [At(size, p, r - 1, 0), At(size, p, r - 1, 1)]
    else if p > 0 then Walk(size, p - 1, size)
    else []
  }

  function Path(size: nat): seq<Cell> {
    Walk(size, Pairs(size), 0)
  }

  // The pair a column belongs to and the step its row is reached at.
  function PairOf(size: nat, x: int): int {
    (size - 1 - (if x > 6 then x + x % 2 else x + 2 - x % 2)) / 2
  }

  function StepOf(size: nat, c: Cell): int {
    if PairOf(size, c.x) % 2 == 0 then size - 1 - c.y else c.y
  }

  predicate OffTiming(size: nat, c: Cell) {
    0 <= c.x < size && 0 <= c.y < size && c.x != 6
  }

  // Reached before row r of pair p.
  predicate Before(size: nat, p: nat, r: nat, c: Cell) {
    OffTiming(size, c) && (PairOf(size, c.x) < p || (PairOf(size, c.x) == p && StepOf(size, c) < r))
  }

  lemma AtIsFound(size: nat, p: nat, r: nat, c: nat)
    requires IsSize(size) && p < Pairs(size) && r < size && c < 2
    ensures OffTiming(size, At(size, p, r, c))
    ensures PairOf(size, At(size, p, r, c).x) == p && StepOf(size, At(size, p, r, c)) == r
  {
  }

  lemma FoundIsAt(size: nat, c: Cell)
    requires IsSize(size) && OffTiming(size, c)
    ensures 0 <= PairOf(size, c.x) < Pairs(size) && 0 <= StepOf(size, c) < size
    ensures c == At(size, PairOf(size, c.x), StepOf(size, c), 0) || c == At(size, PairOf(size, c.x), StepOf(size, c), 1)
  {
  }

  lemma {:induction false} WalkMembers(size: nat, p: nat, r: nat, c: Cell)
    requires IsSize(size) && r <= size && (p < Pairs(size) || (p == Pairs(size) && r == 0))
    ensures c in Walk(size, p, r) <==> Before(size, p, r, c)
    decreases p, r
  {
    hide ColumnOf, RowOf, PairOf, StepOf, At;
    if OffTiming(size, c) { FoundIsAt(size, c); }
    if r > 0 {
      WalkMembers(size, p, r - 1, c);
      AtIsFound(size, p, r - 1, 0);
      AtIsFound(size, p, r - 1, 1);
    } else if p > 0 {
      WalkMembers(size, p - 1, size, c);
    }
  }

  predicate NoRepeats(cells: seq<Cell>) {
    forall i, j :: 0 <= i < j < |cells| ==> cells[i] != cells[j]
  }

  lemma {:induction false} WalkNoRepeats(size: nat, p: nat, r: nat)
    requires IsSize(size) && r <= size && (p < Pairs(size) || (p == Pairs(size) && r == 0))
    ensures NoRepeats(Walk(size, p, r))
    decreases p, r
  {
    hide ColumnOf, RowOf, PairOf, StepOf, At;
    if r > 0 {
      WalkNoRepeats(size, p, r - 1);
      WalkMembers(size, p, r - 1, At(size, p, r - 1, 0));
      WalkMembers(size, p, r - 1, At(size, p, r - 1, 1));
      AtIsFound(size, p, r - 1, 0);
      AtIsFound(size, p, r - 1, 1);
      Neighbours(size, p, r - 1);
    } else if p > 0 {
      WalkNoRepeats(size, p - 1, size);
    }
  }

  lemma Neighbours(size: nat, p: nat, r: nat)
    ensures At(size, p, r, 0) != At(size, p, r, 1)
  {
  }

  // The walk visits every module outside column 6, each exactly once, and no other.
  lemma EveryModuleOnce(size: nat, c: Cell)
    requires IsSize(size)
    ensures c in Path(size) <==> OffTiming(size, c)
    ensures multiset(Path(size))[c] == if OffTiming(size, c) then 1 else 0
  {
    hide PairOf, StepOf;
    WalkMembers(size, Pairs(size), 0, c);
    if OffTiming(size, c) { FoundIsAt(size, c); }
    WalkNoRepeats(size, Pairs(size), 0);
    CountOnce(Path(size), c);
  }

  lemma {:induction false} CountOnce(cells: seq<Cell>, c: Cell)
    requires NoRepeats(cells)
    ensures multiset(cells)[c] == if c in cells then 1 else 0
    decreases |cells|
  {
    if cells != [] {
      var n := |cells| - 1;
      CountOnce(cells[..n], c);
      assert cells == cells[..n] + [cells[n]];
    }
  }

  lemma {:induction false} WalkLength(size: nat, p: nat, r: nat)
    ensures |Walk(size, p, r)| == 2 * (p * size + r)
    decreases p, r
  {
    if r > 0 {
      WalkLength(size, p, r - 1);
    } else if p > 0 {
      WalkLength(size, p - 1, size);
      assert p * size == (p - 1) * size + size;
    }
  }
}
