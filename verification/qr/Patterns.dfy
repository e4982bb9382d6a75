// The function patterns: which modules are reserved and how they are drawn. Every zone is given
// in closed form and the drawing methods are proved to paint exactly that.
module Patterns {
  import opened Version
  import opened Zigzag

  predicate Inside(size: nat, c: Cell) {
    0 <= c.x < size && 0 <= c.y < size
  }

  predicate Near(a: int, b: int, d: nat) {
    a - b <= d && b - a <= d
  }

  function Abs(a: int): nat {
    if a < 0 then -a else a
  }

  // ---------------------------------------------------------------- finders

  // A finder at a corner with its separator: nine by nine, what falls outside the symbol cut off.
  predicate InFinder(corner: Cell, c: Cell) {
    -1 <= c.x - corner.x <= 7 && -1 <= c.y - corner.y <= 7
  }

  // By distance from the centre: 3 is the dark ring, 2 light, 1 and 0 the core; 4 is the separator.
  function FinderDark(corner: Cell, c: Cell): bool {
    var dx, dy := Abs(c.x - corner.x - 3), Abs(c.y - corner.y - 3);
    var ring := if dx > dy then dx else dy;
    ring == 3 || ring <= 1
  }

  predicate FinderZone(size: nat, c: Cell) {
    InFinder(Cell(0, 0), c) || InFinder(Cell(size - 7, 0), c) || InFinder(Cell(0, size - 7), c)
  }

  function FinderValue(size: nat, c: Cell): bool {
    if InFinder(Cell(0, 0), c) then FinderDark(Cell(0, 0), c)
    else if InFinder(Cell(size - 7, 0), c) then FinderDark(Cell(size - 7, 0), c)
    else FinderDark(Cell(0, size - 7), c)
  }

  // ---------------------------------------------------------------- timing

  predicate TimingZone(size: nat, c: Cell) {
    (c.y == 6 && 8 <= c.x < size - 8) || (c.x == 6 && 8 <= c.y < size - 8)
  }

  function TimingValue(c: Cell): bool {
    (c.x + c.y) % 2 == 0
  }

  // ---------------------------------------------------------------- alignment

  // The index of the centre within two modules of a, or how many centres there are.
  function CentreNear(centres: seq<nat>, a: int): (i: nat)
    ensures i <= |centres| && (i < |centres| ==> Near(a, centres[i], 2))
    ensures forall j :: 0 <= j < i ==> !Near(a, centres[j], 2)
  {
    if centres == [] then 0
    else if Near(a, centres[0], 2) then 0
    else 1 + CentreNear(centres[1..], a)
  }

  // The three pairs of centres that would land on a finder.
  predicate OnFinder(size: nat, cx: int, cy: int) {
    (cx == 6 && cy == 6) || (cx == 6 && cy == size - 7) || (cx == size - 7 && cy == 6)
  }

  predicate AlignmentZone(size: nat, centres: seq<nat>, c: Cell) {
    var i, j := CentreNear(centres, c.x), CentreNear(centres, c.y);
    i < |centres| && j < |centres| && !OnFinder(size, centres[i], centres[j])
  }

  function AlignmentDark(cx: int, cy: int, c: Cell): bool {
    var dx, dy := Abs(c.x - cx), Abs(c.y - cy);
    dx == 2 || dy == 2 || (dx == 0 && dy == 0)
  }

  function AlignmentValue(centres: seq<nat>, c: Cell): bool {
    var i, j := CentreNear(centres, c.x), CentreNear(centres, c.y);
    i < |centres| && j < |centres| && AlignmentDark(centres[i], centres[j], c)
  }

  // ---------------------------------------------------------------- format, version, dark module

  // Bit i of the format information sits at the cells with this index; -1 elsewhere.
  function FormatIndex(size: nat, c: Cell): int {
    if c.y == 8 && 0 <= c.x <= 5 then c.x
    else if c == Cell(7, 8) then 6
    else if c == Cell(8, 8) then 7
    else if c == Cell(8, 7) then 8
    else if c.x == 8 && 0 <= c.y <= 5 then 14 - c.y
    else if c.y == 8 && size - 8 <= c.x < size then size - 1 - c.x
    else if c.x == 8 && size - 7 <= c.y < size then c.y - size + 15
    else -1
  }

  function DarkModule(size: nat): Cell {
    Cell(8, size - 8)
  }

  // Likewise for the version information of versions 7 and up.
  function VersionIndex(size: nat, c: Cell): int {
    if 0 <= c.x < 6 && size - 11 <= c.y <= size - 9 then 3 * c.x + c.y - (size - 11)
    else if 0 <= c.y < 6 && size - 11 <= c.x <= size - 9 then 3 * c.y + c.x - (size - 11)
    else -1
  }

  predicate VersionZone(ver: nat, c: Cell) {
    ver >= 7 && VersionIndex(Size(ver), c) >= 0
  }

  // ---------------------------------------------------------------- the whole

  predicate ReservedAt(ver: nat, c: Cell)
    requires Built(ver)
  {
    var s := Size(ver);
    FinderZone(s, c) || TimingZone(s, c) || AlignmentZone(s, Of(ver).align, c)
    || FormatIndex(s, c) >= 0 || c == DarkModule(s) || VersionZone(ver, c)
  }

  function PatternDark(ver: nat, c: Cell): bool
    requires Built(ver)
  {
    var s := Size(ver);
    if VersionZone(ver, c) then false
    else if c == DarkModule(s) then true
    else if FormatIndex(s, c) >= 0 then false
    else if AlignmentZone(s, Of(ver).align, c) then AlignmentValue(Of(ver).align, c)
    else if TimingZone(s, c) then TimingValue(c)
    else if FinderZone(s, c) then FinderValue(s, c)
    else false
  }

  // ---------------------------------------------------------------- drawing

  // What a grid shows: which modules are dark, and which are held back from data and masking.
  datatype View = View(ink: Cell -> bool, held: Cell -> bool)

  // The modules of a zone, and no others, were drawn as `on` says and reserved.
  ghost predicate Painted(size: nat, v: View, v': View, zone: Cell -> bool, on: Cell -> bool) {
    forall c: Cell {:trigger v'.ink(c)} {:trigger v'.held(c)} :: Inside(size, c) ==>
      && v'.ink(c) == (if zone(c) then on(c) else v.ink(c))
      && v'.held(c) == (zone(c) || v.held(c))
  }

  // Only colours changed, and to these.
  ghost predicate Inked(size: nat, v: View, v': View, ink: Cell -> bool) {
    v'.held == v.held && forall c: Cell {:trigger v'.ink(c)} :: Inside(size, c) ==> v'.ink(c) == ink(c)
  }

  function PictureRow(size: nat, ink: Cell -> bool, y: nat): (row: seq<bool>)
    ensures |row| == size
  {
    seq(size, x => ink(Cell(x, y)))
  }

  // The modules row by row.
  function Picture(size: nat, ink: Cell -> bool): (rows: seq<seq<bool>>)
    ensures |rows| == size && forall y :: 0 <= y < size ==> rows[y] == PictureRow(size, ink, y)
  {
    seq(size, y requires 0 <= y < size => PictureRow(size, ink, y))
  }

  class Grid {
    const size: nat
    const dark: array2<bool>
    const reserved: array2<bool>
    ghost var view: View

    ghost predicate Valid()
      reads this, dark, reserved
    {
      && IsSize(size) && size >= 21 && dark != reserved
      && dark.Length0 == size && dark.Length1 == size && reserved.Length0 == size && reserved.Length1 == size
      && forall x, y :: 0 <= x < size && 0 <= y < size ==>
           dark[x, y] == view.ink(Cell(x, y)) && reserved[x, y] == view.held(Cell(x, y))
    }

    constructor (n: nat)
      requires IsSize(n) && n >= 21
      ensures Valid() && size == n && fresh(dark) && fresh(reserved)
      ensures view == View(_ => false, _ => false)
    {
      size := n;
      dark := new bool[n, n]((x, y) => false);
      reserved := new bool[n, n]((x, y) => false);
      view := View(_ => false, _ => false);
    }

    // A copy to mask: its own modules, the same reserved map.
    constructor Clone(g: Grid)
      requires g.Valid()
      ensures Valid() && size == g.size && view == g.view && reserved == g.reserved && fresh(dark)
    {
      size, reserved, view := g.size, g.reserved, g.view;
      dark := new bool[g.size, g.size]((x, y) requires 0 <= x < g.size && 0 <= y < g.size reads g, g.dark, g.reserved
                                              requires g.Valid() => g.dark[x, y]);
    }

    // One module's colour alone.
    method Ink(x: nat, y: nat, on: bool)
      requires Valid() && x < size && y < size
      modifies this, dark
      ensures Valid() && Inked(size, old(view), view, (c: Cell) => if c == Cell(x, y) then on else old(view).ink(c))
    {
      dark[x, y] := on;
      ghost var was := view;
      view := View((c: Cell) => if c == Cell(x, y) then on else was.ink(c), was.held);
    }

    method Rows() returns (rows: seq<seq<bool>>)
      requires Valid()
      ensures rows == Picture(size, view.ink)
    {
      rows := [];
      for y := 0 to size
        invariant |rows| == y && forall j :: 0 <= j < y ==> rows[j] == PictureRow(size, view.ink, j)
      {
        var row := [];
        for x := 0 to size
          invariant row == PictureRow(size, view.ink, y)[..x]
        {
          row := row + [dark[x, y]];
        }
        rows := rows + [row];
      }
    }

    method Set(x: nat, y: nat, on: bool)
      requires Valid() && x < size && y < size
      modifies this, dark, reserved
      ensures Valid() && Painted(size, old(view), view, (c: Cell) => c == Cell(x, y), (c: Cell) => on)
    {
      dark[x, y] := on;
      reserved[x, y] := true;
      ghost var was := view;
      view := View((c: Cell) => if c == Cell(x, y) then on else was.ink(c), (c: Cell) => c == Cell(x, y) || was.held(c));
    }

    method Finder(cx: nat, cy: nat)
      requires Valid() && IsSize(size) && size >= 21
      modifies this, dark, reserved
      ensures Valid()
      ensures Painted(size, old(view), view, (c: Cell) => InFinder(Cell(cx, cy), c),
                      (c: Cell) => FinderDark(Cell(cx, cy), c))
    {
      hide Grid.Valid;
      for dy := -1 to 8
        invariant Valid()
        invariant Painted(size, old(view), view, (c: Cell) => InFinder(Cell(cx, cy), c) && c.y < cy + dy,
                          (c: Cell) => FinderDark(Cell(cx, cy), c))
      {
        for dx := -1 to 8
          invariant Valid()
          invariant Painted(size, old(view), view,
                            (c: Cell) => InFinder(Cell(cx, cy), c) && (c.y < cy + dy || (c.y == cy + dy && c.x < cx + dx)),
                            (c: Cell) => FinderDark(Cell(cx, cy), c))
        {
          var x, y := cx + dx, cy + dy;
          if x < 0 || y < 0 || x >= size || y >= size {
            continue;
          }
          var inRing := 0 <= dx <= 6 && 0 <= dy <= 6 && (dx == 0 || dx == 6 || dy == 0 || dy == 6);
          var inCore := 2 <= dx <= 4 && 2 <= dy <= 4;
          assert (inRing || inCore) == FinderDark(Cell(cx, cy), Cell(x, y));
          Set(x, y, inRing || inCore);
        }
      }
    }

    method Alignment(cx: nat, cy: nat)
      requires Valid() && IsSize(size) && size >= 21 && 2 <= cx < size - 2 && 2 <= cy < size - 2
      modifies this, dark, reserved
      ensures Valid()
      ensures Painted(size, old(view), view, (c: Cell) => Near(c.x, cx, 2) && Near(c.y, cy, 2),
                      (c: Cell) => AlignmentDark(cx, cy, c))
    {
      hide Grid.Valid;
      for dy := -2 to 3
        invariant Valid()
        invariant Painted(size, old(view), view, (c: Cell) => Near(c.x, cx, 2) && Near(c.y, cy, 2) && c.y < cy + dy,
                          (c: Cell) => AlignmentDark(cx, cy, c))
      {
        for dx := -2 to 3
          invariant Valid()
          invariant Painted(size, old(view), view,
                            (c: Cell) => Near(c.x, cx, 2) && Near(c.y, cy, 2) && (c.y < cy + dy || (c.y == cy + dy && c.x < cx + dx)),
                            (c: Cell) => AlignmentDark(cx, cy, c))
        {
          var ring := dx == -2 || dx == 2 || dy == -2 || dy == 2;
          Set(cx + dx, cy + dy, ring || (dx == 0 && dy == 0));
        }
      }
    }

    method Timing()
      requires Valid() && IsSize(size) && size >= 21
      modifies this, dark, reserved
      ensures Valid() && Painted(size, old(view), view, (c: Cell) => TimingZone(size, c), (c: Cell) => TimingValue(c))
    {
      hide Grid.Valid;
      for i := 8 to size - 8
        invariant Valid()
        invariant Painted(size, old(view), view, (c: Cell) => TimingZone(size, c) && c.x < i && c.y < i,
                          (c: Cell) => TimingValue(c))
      {
        var on := i % 2 == 0;
        Set(i, 6, on);
        Set(6, i, on);
      }
    }

    // Patterns at every pair of centres but the three a finder covers.
    method Alignments(centres: seq<nat>)
      requires Valid() && IsSize(size) && size >= 21 && Spaced(size, centres)
      modifies this, dark, reserved
      ensures Valid()
      ensures Painted(size, old(view), view, (c: Cell) => AlignmentZone(size, centres, c),
                      (c: Cell) => AlignmentValue(centres, c))
    {
      hide Grid.Valid;
      hide AlignmentDark, OnFinder, Spaced, Near, CentreNear;
      NearTheCentre(size, centres);
      for j := 0 to |centres|
        invariant Valid()
        invariant Painted(size, old(view), view, (c: Cell) => AlignmentZone(size, centres, c) && CentreNear(centres, c.y) < j,
                          (c: Cell) => AlignmentValue(centres, c))
      {
        for i := 0 to |centres|
          invariant Valid() && Painted(size, old(view), view, (c: Cell) => AlignmentZone(size, centres, c)
                                 && (CentreNear(centres, c.y) < j || (CentreNear(centres, c.y) == j && CentreNear(centres, c.x) < i)),
                            (c: Cell) => AlignmentValue(centres, c))
        {
          if OnFinder(size, centres[i], centres[j]) {
            continue;
          }
          CentreFits(size, centres, i);
          CentreFits(size, centres, j);
          Alignment(centres[i], centres[j]);
        }
      }
    }

    // The first copy's area, around the corner finder.
    method ReserveFirstFormat()
      requires Valid() && IsSize(size) && size >= 21
      modifies this, dark, reserved
      ensures Valid() && Painted(size, old(view), view, (c: Cell) => FirstFormat(c), (c: Cell) => false)
    {
      hide Grid.Valid;
      for i := 0 to 9
        invariant Valid()
        invariant Painted(size, old(view), view, (c: Cell) => FirstFormat(c) && (if c.y == 8 then c.x else c.y) < i, (c: Cell) => false)
      {
        if i != 6 {
          Set(i, 8, false);
          Set(8, i, false);
        }
      }
    }

    // The format information's two areas, light until it is written, and the dark module.
    method ReserveFormat()
      requires Valid() && IsSize(size) && size >= 21
      modifies this, dark, reserved
      ensures Valid()
      ensures Painted(size, old(view), view, (c: Cell) => FormatIndex(size, c) >= 0 || c == DarkModule(size), (c: Cell) => c == DarkModule(size))
    {
      hide Grid.Valid, FormatIndex, FirstFormat;
      ReserveFirstFormat();
      for i := 0 to 8
        invariant Valid()
        invariant Painted(size, old(view), view, (c: Cell) => FirstFormat(c) || (c.y == 8 && size - i <= c.x), (c: Cell) => false)
      {
        Set(size - 1 - i, 8, false);
      }
      for i := 0 to 7
        invariant Valid()
        invariant Painted(size, old(view), view,
                          (c: Cell) => FirstFormat(c) || (c.y == 8 && size - 8 <= c.x) || (c.x == 8 && size - i <= c.y), (c: Cell) => false)
      {
        Set(8, size - 1 - i, false);
      }
      FormatZone(size);
      Set(8, size - 8, true);
    }

    method ReserveVersion(ver: nat)
      requires Valid() && IsSize(size) && size >= 21 && size == Size(ver)
      modifies this, dark, reserved
      ensures Valid() && Painted(size, old(view), view, (c: Cell) => VersionZone(ver, c), (c: Cell) => false)
    {
      hide Grid.Valid;
      if ver >= 7 {
        for i := 0 to 18
          invariant Valid() && Painted(size, old(view), view, (c: Cell) => 0 <= VersionIndex(size, c) < i, (c: Cell) => false)
        {
          Set(i / 3, size - 11 + i % 3, false);
          Set(size - 11 + i % 3, i / 3, false);
        }
      }
    }

    method Finders()
      requires Valid() && IsSize(size) && size >= 21
      modifies this, dark, reserved
      ensures Valid() && Painted(size, old(view), view, (c: Cell) => FinderZone(size, c), (c: Cell) => FinderValue(size, c))
    {
      hide Grid.Valid, InFinder, FinderDark;
      Finder(0, 0);
      Finder(size - 7, 0);
      Finder(0, size - 7);
      forall c: Cell | Inside(size, c)
        ensures view.ink(c) == (if FinderZone(size, c) then FinderValue(size, c) else old(view).ink(c))
      {
        FindersApart(size, c);
      }
    }

    method FunctionPatterns(ver: nat)
      requires Valid() && IsSize(size) && size >= 21 && Built(ver) && size == Size(ver)
      modifies this, dark, reserved
      ensures Valid() && Painted(size, old(view), view, (c: Cell) => ReservedAt(ver, c), (c: Cell) => PatternDark(ver, c))
    {
      hide Grid.Valid, FormatIndex, VersionIndex, VersionZone, TimingZone, TimingValue, AlignmentZone, AlignmentValue, FinderZone, FinderValue, DarkModule, CentreNear, Of;
      var s := size;
      Finders();
      Timing();
      CentresAreSpaced(ver);
      Alignments(Of(ver).align);
      ReserveFormat();
      ReserveVersion(ver);
    }
  }

  predicate FirstFormat(c: Cell) {
    (c.y == 8 && 0 <= c.x <= 8 && c.x != 6) || (c.x == 8 && 0 <= c.y <= 8 && c.y != 6)
  }

  // No two centres are near enough for one module to be near both, and their patterns fit.
  predicate Spaced(size: nat, centres: seq<nat>) {
    && (forall i, j :: 0 <= i < j < |centres| ==> centres[i] + 5 <= centres[j])
    && (forall i :: 0 <= i < |centres| ==> 2 <= centres[i] < size - 2)
  }

  lemma {:induction false} NearTheCentre(size: nat, centres: seq<nat>)
    requires Spaced(size, centres)
    ensures forall a: int, i: nat {:trigger Near(a, centres[i], 2)} :: i < |centres| ==>
              (Near(a, centres[i], 2) <==> CentreNear(centres, a) == i)
  {
  }

  lemma CentreFits(size: nat, centres: seq<nat>, i: nat)
    requires Spaced(size, centres) && i < |centres|
    ensures 2 <= centres[i] < size - 2
  {
  }

  lemma FormatZone(size: nat)
    requires size >= 21
    ensures forall c: Cell {:trigger FormatIndex(size, c)} :: Inside(size, c) ==>
              (FormatIndex(size, c) >= 0 <==> FirstFormat(c) || (c.y == 8 && size - 8 <= c.x) || (c.x == 8 && size - 7 <= c.y))
  {
  }

  lemma FindersApart(size: nat, c: Cell)
    requires size >= 21
    ensures InFinder(Cell(0, 0), c) ==> !InFinder(Cell(size - 7, 0), c) && !InFinder(Cell(0, size - 7), c)
    ensures InFinder(Cell(size - 7, 0), c) ==> !InFinder(Cell(0, size - 7), c)
  {
  }

  lemma CentresAreSpaced(ver: nat)
    requires Built(ver)
    ensures Spaced(Size(ver), Of(ver).align)
  {
  }
}
