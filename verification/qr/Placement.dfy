// Laying the codewords' bits over the data modules.
module Placement {
  import opened Gf256
  import opened BitStream
  import opened Version
  import opened Zigzag
  import opened Patterns
  import opened Room

  // Bit i of the codewords; the remainder bits are light.
  predicate Stream(codewords: seq<Byte>, i: nat) {
    i < 8 * |codewords| && BitAt(codewords, i)
  }

  // The cells took the stream's bits in order and no other module changed.
  ghost predicate Filled(size: nat, v: View, v': View, cells: seq<Cell>, codewords: seq<Byte>) {
    && v'.held == v.held
    && (forall i {:trigger cells[i]} :: 0 <= i < |cells| ==> v'.ink(cells[i]) == Stream(codewords, i))
    && (forall c: Cell {:trigger v'.ink(c)} :: Inside(size, c) && c !in cells ==> v'.ink(c) == v.ink(c))
  }

  ghost predicate Holds(g: Grid, ver: nat)
    reads g, g.dark, g.reserved
  {
    && g.Valid() && Built(ver) && g.size == Size(ver)
    && forall c: Cell {:trigger g.view.held(c)} :: Inside(g.size, c) ==> g.view.held(c) == ReservedAt(ver, c)
  }

  lemma FreeStep(ver: nat, cells: seq<Cell>, c: Cell)
    requires Built(ver)
    ensures Free(ver, cells + [c]) == Free(ver, cells) + (if ReservedAt(ver, c) then [] else [c])
  {
    assert (cells + [c])[..|cells|] == cells;
  }

  // How many of the codewords' bits those cells take.
  function Reached(ver: nat, cells: seq<Cell>, codewords: seq<Byte>): nat
    requires Built(ver)
  {
    if |Free(ver, cells)| < 8 * |codewords| then |Free(ver, cells)| else 8 * |codewords|
  }

  // One module of the walk: the next bit, unless it is reserved.
  method PlaceOne(g: Grid, c: Cell, codewords: seq<Byte>, bit: nat, ghost ver: nat, ghost cells: seq<Cell>, ghost was: View)
    returns (bit': nat)
    requires Holds(g, ver) && Inside(g.size, c) && c !in cells
    requires forall d :: d in cells ==> Inside(g.size, d)
    requires Filled(g.size, was, g.view, Free(ver, cells), codewords)
    requires bit == Reached(ver, cells, codewords)
    modifies g, g.dark
    ensures Holds(g, ver) && Filled(g.size, was, g.view, Free(ver, cells + [c]), codewords)
    ensures bit' == Reached(ver, cells + [c], codewords)
  {
    hide Grid.Valid, ReservedAt, BitIn, Free;
    FreeStep(ver, cells, c);
    FreeMembers(ver, cells, c);
    bit' := bit;
    ReadsReserved(g, c);
    if !g.reserved[c.x, c.y] {
      var on := false;
      if bit < |codewords| * 8 {
        on := BitIn(codewords[bit / 8], bit % 8);
        bit' := bit + 1;
      }
      g.Ink(c.x, c.y, on);
      forall d | d in Free(ver, cells) ensures d in cells { FreeMembers(ver, cells, d); }
    }
  }

  lemma ReadsReserved(g: Grid, c: Cell)
    requires g.Valid() && Inside(g.size, c)
    ensures g.size == g.reserved.Length0 == g.reserved.Length1 && g.reserved[c.x, c.y] == g.view.held(c)
  {
  }

  lemma WalkStep(size: nat, p: nat, r: nat)
    requires IsSize(size) && p < Pairs(size) && r < size
    ensures Walk(size, p, r + 1) == Walk(size, p, r) + [At(size, p, r, 0)] + [At(size, p, r, 1)]
    ensures Inside(size, At(size, p, r, 0)) && Inside(size, At(size, p, r, 1))
    ensures At(size, p, r, 0) !in Walk(size, p, r) && At(size, p, r, 1) !in Walk(size, p, r) + [At(size, p, r, 0)]
    ensures forall c :: c in Walk(size, p, r) ==> Inside(size, c)
  {
    hide ColumnOf, RowOf, PairOf, StepOf, At;
    AtIsFound(size, p, r, 0);
    AtIsFound(size, p, r, 1);
    WalkMembers(size, p, r, At(size, p, r, 0));
    WalkMembers(size, p, r, At(size, p, r, 1));
    Neighbours(size, p, r);
    forall c | c in Walk(size, p, r) ensures Inside(size, c) { WalkMembers(size, p, r, c); }
  }

  function UpTo(cells: seq<Cell>, a: Cell, b: Cell, n: int): seq<Cell> {
    if n <= 0 then cells else if n == 1 then cells + [a] else cells + [a] + [b]
  }

  // The two modules of one row of the current column pair.
  method PlaceRow(g: Grid, codewords: seq<Byte>, bit: nat, p: nat, r: nat, col: int, row: int, ghost ver: nat, ghost was: View)
    returns (bit': nat)
    requires Holds(g, ver) && p < Pairs(g.size) && r < g.size && col == ColumnOf(g.size, p) && row == RowOf(g.size, p, r)
    requires Filled(g.size, was, g.view, Free(ver, Walk(g.size, p, r)), codewords)
    requires bit == Reached(ver, Walk(g.size, p, r), codewords)
    modifies g, g.dark
    ensures Holds(g, ver) && Filled(g.size, was, g.view, Free(ver, Walk(g.size, p, r + 1)), codewords)
    ensures bit' == Reached(ver, Walk(g.size, p, r + 1), codewords)
  {
    hide ReservedAt, Free, Walk, Filled, ColumnOf, RowOf, IsSize;
    SizeIsOdd(g, ver);
    WalkStep(g.size, p, r);
    bit' := bit;
    ghost var cells := Walk(g.size, p, r);
    for c := 0 to 2
      invariant Holds(g, ver) && cells == UpTo(Walk(g.size, p, r), At(g.size, p, r, 0), At(g.size, p, r, 1), c)
      invariant Filled(g.size, was, g.view, Free(ver, cells), codewords) && bit' == Reached(ver, cells, codewords)
    {
      bit' := PlaceOne(g, Cell(col - c, row), codewords, bit', ver, cells, was);
      cells := cells + [Cell(col - c, row)];
    }
  }

  lemma SizeIsOdd(g: Grid, ver: nat)
    requires Holds(g, ver)
    ensures IsSize(g.size) && Built(ver)
  {
  }

  // One pair of columns from end to end; the direction is turned at the far edge.
  method PlacePair(g: Grid, codewords: seq<Byte>, bit: nat, p: nat, col: int, row: int, dir: int, ghost ver: nat, ghost was: View)
    returns (bit': nat, row': int, dir': int)
    requires Holds(g, ver) && p < Pairs(g.size) && col == ColumnOf(g.size, p)
    requires dir == (if p % 2 == 0 then -1 else 1) && row == RowOf(g.size, p, 0)
    requires Filled(g.size, was, g.view, Free(ver, Walk(g.size, p, 0)), codewords)
    requires bit == Reached(ver, Walk(g.size, p, 0), codewords)
    modifies g, g.dark
    ensures Holds(g, ver) && Filled(g.size, was, g.view, Free(ver, Walk(g.size, p + 1, 0)), codewords)
    ensures bit' == Reached(ver, Walk(g.size, p + 1, 0), codewords)
    ensures dir' == -dir && row' == RowOf(g.size, p + 1, 0)
  {
    hide ReservedAt, Free, Holds;
    SizeIsOdd(g, ver);
    bit', row', dir' := bit, row, dir;
    var r: nat := 0;
    while true
      invariant r < g.size && Holds(g, ver) && row' == RowOf(g.size, p, r) && dir' == dir
      invariant Filled(g.size, was, g.view, Free(ver, Walk(g.size, p, r)), codewords)
      invariant bit' == Reached(ver, Walk(g.size, p, r), codewords)
      decreases g.size - r
    {
      hide Filled, Walk;
      bit' := PlaceRow(g, codewords, bit', p, r, col, row', ver, was);
      row' := row' + dir';
      if row' < 0 || row' >= g.size {
        row' := row' - dir';
        dir' := -dir';
        break;
      }
      r := r + 1;
    }
    NextPair(g.size, p);
  }

  // Two columns at a time from the right, up and down in turn, around the timing column.
  method PlaceData(g: Grid, codewords: seq<Byte>, ghost ver: nat)
    requires Holds(g, ver)
    modifies g, g.dark
    ensures Holds(g, ver)
    ensures Filled(g.size, old(g.view), g.view, Free(ver, Path(g.size)), codewords)
  {
    hide ReservedAt, Free, Holds;
    SizeIsOdd(g, ver);
    NothingFree(ver);
    var bit, dir, row, col := 0, -1, g.size - 1, g.size - 1;
    var p: nat := 0;
    while col > 0
      invariant p <= Pairs(g.size) && Holds(g, ver)
      invariant col == if g.size - 1 - 2 * p >= 6 then g.size - 1 - 2 * p else g.size - 2 - 2 * p
      invariant dir == (if p % 2 == 0 then -1 else 1) && row == RowOf(g.size, p, 0)
      invariant Filled(g.size, old(g.view), g.view, Free(ver, Walk(g.size, p, 0)), codewords)
      invariant bit == Reached(ver, Walk(g.size, p, 0), codewords)
      decreases col
    {
      hide Filled, Walk;
      if col == 6 {
        col := col - 1;
      }
      bit, row, dir := PlacePair(g, codewords, bit, p, col, row, dir, ver, old(g.view));
      p := p + 1;
      col := col - 2;
    }
  }

  lemma NothingFree(ver: nat)
    requires Built(ver)
    ensures Free(ver, []) == []
  {
  }

  lemma NextPair(size: nat, p: nat)
    ensures Walk(size, p + 1, 0) == Walk(size, p, size)
  {
  }
}
