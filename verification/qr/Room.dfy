// Every version has a data module for every bit of its codewords.
module Room {
  import opened Version
  import opened Zigzag
  import opened Patterns

  // The data modules among some cells, in their order, and the others.
  function Free(ver: nat, cells: seq<Cell>): (s: seq<Cell>)
    requires Built(ver)
  {
    if cells == [] then []
    else
      var n := |cells| - 1;
      Free(ver, cells[..n]) + (if ReservedAt(ver, cells[n]) then [] else [cells[n]])
  }

  function Taken(ver: nat, cells: seq<Cell>): (s: seq<Cell>)
    requires Built(ver)
  {
    if cells == [] then []
    else
      var n := |cells| - 1;
      Taken(ver, cells[..n]) + (if ReservedAt(ver, cells[n]) then [cells[n]] else [])
  }

  lemma {:induction false} FreeMembers(ver: nat, cells: seq<Cell>, c: Cell)
    requires Built(ver)
    ensures c in Free(ver, cells) <==> c in cells && !ReservedAt(ver, c)
    ensures c in Taken(ver, cells) <==> c in cells && ReservedAt(ver, c)
    decreases |cells|
  {
    hide ReservedAt;
    if cells != [] {
      var n := |cells| - 1;
      FreeMembers(ver, cells[..n], c);
      assert cells == cells[..n] + [cells[n]];
    }
  }

  lemma {:induction false} FreeNoRepeats(ver: nat, cells: seq<Cell>)
    requires Built(ver) && NoRepeats(cells)
    ensures NoRepeats(Free(ver, cells)) && NoRepeats(Taken(ver, cells))
    ensures |Free(ver, cells)| + |Taken(ver, cells)| == |cells|
    decreases |cells|
  {
    hide ReservedAt;
    if cells != [] {
      var n := |cells| - 1;
      FreeNoRepeats(ver, cells[..n]);
      FreeMembers(ver, cells[..n], cells[n]);
    }
  }

  // ---------------------------------------------------------------- boxes

  datatype Box = Box(x: int, y: int, w: nat, h: nat)

  predicate InBox(b: Box, c: Cell) {
    b.x <= c.x < b.x + b.w && b.y <= c.y < b.y + b.h
  }

  predicate InBoxes(boxes: seq<Box>, c: Cell) {
    exists i :: 0 <= i < |boxes| && InBox(boxes[i], c)
  }

  function Area(boxes: seq<Box>): nat {
    if boxes == [] then 0 else boxes[0].w * boxes[0].h + Area(boxes[1..])
  }

  lemma {:induction false} AreaAppend(a: seq<Box>, b: seq<Box>)
    ensures Area(a + b) == Area(a) + Area(b)
    decreases |a|
  {
    if a == [] {
      assert a + b == b;
    } else {
      AreaAppend(a[1..], b);
      assert (a + b)[1..] == a[1..] + b;
    }
  }

  function ColumnCells(x: int, y: int, h: nat): set<Cell> {
    if h == 0 then {} else ColumnCells(x, y, h - 1) + {Cell(x, y + h - 1)}
  }

  function BoxCells(x: int, y: int, w: nat, h: nat): set<Cell> {
    if w == 0 then {} else BoxCells(x, y, w - 1, h) + ColumnCells(x + w - 1, y, h)
  }

  function BoxesCells(boxes: seq<Box>): set<Cell> {
    if boxes == [] then {} else BoxCells(boxes[0].x, boxes[0].y, boxes[0].w, boxes[0].h) + BoxesCells(boxes[1..])
  }

  lemma {:induction false} ColumnFacts(x: int, y: int, h: nat)
    ensures |ColumnCells(x, y, h)| <= h
    ensures forall c: Cell :: c.x == x && y <= c.y < y + h ==> c in ColumnCells(x, y, h)
  {
    if h > 0 { ColumnFacts(x, y, h - 1); }
  }

  lemma OneMore(w: nat, h: nat)
    ensures (w + 1) * h == w * h + h
  {
  }

  lemma {:induction false} BoxSize(x: int, y: int, w: nat, h: nat)
    ensures |BoxCells(x, y, w, h)| <= w * h
  {
    hide ColumnCells;
    if w > 0 {
      BoxSize(x, y, w - 1, h);
      ColumnFacts(x + w - 1, y, h);
      OneMore(w - 1, h);
    }
  }

  lemma {:induction false} BoxHolds(x: int, y: int, w: nat, h: nat, c: Cell)
    requires InBox(Box(x, y, w, h), c)
    ensures c in BoxCells(x, y, w, h)
  {
    hide ColumnCells;
    ColumnFacts(x + w - 1, y, h);
    if c.x < x + w - 1 { BoxHolds(x, y, w - 1, h, c); }
  }

  lemma {:induction false} BoxesFacts(boxes: seq<Box>)
    ensures |BoxesCells(boxes)| <= Area(boxes)
    ensures forall c :: InBoxes(boxes, c) ==> c in BoxesCells(boxes)
    decreases |boxes|
  {
    if boxes != [] {
      var b := boxes[0];
      BoxSize(b.x, b.y, b.w, b.h);
      BoxesFacts(boxes[1..]);
      forall c | InBoxes(boxes, c) ensures c in BoxesCells(boxes) {
        var i :| 0 <= i < |boxes| && InBox(boxes[i], c);
        if i > 0 { assert InBox(boxes[1..][i - 1], c); } else { BoxHolds(b.x, b.y, b.w, b.h, c); }
      }
    }
  }

  lemma {:induction false} NoRepeatsFit(cells: seq<Cell>, s: set<Cell>)
    requires NoRepeats(cells) && forall c :: c in cells ==> c in s
    ensures |cells| <= |s|
    decreases |cells|
  {
    if cells != [] {
      var n := |cells| - 1;
      NoRepeatsFit(cells[..n], s - {cells[n]});
    }
  }

  // ---------------------------------------------------------------- the reserved area

  function CornerBoxes(s: nat): seq<Box>
    requires s >= 21
  {
    [Box(0, 0, 6, 9), Box(7, 0, 2, 9), Box(0, s - 8, 6, 8), Box(7, s - 8, 2, 8), Box(s - 8, 0, 8, 9), Box(9, 6, s - 17, 1)]
  }

  function AlignmentBoxes(centres: seq<nat>): seq<Box> {
    if |centres| == 2 then
      var a: int := centres[1];
      [Box(a - 2, a - 2, 5, 5)]
    else if |centres| == 3 then
      var m: int, a: int := centres[1], centres[2];
      [Box(m - 2, 4, 5, 2), Box(m - 2, 7, 5, 2), Box(4, m - 2, 2, 5), Box(7, m - 2, 2, 5),
       Box(m - 2, m - 2, 5, 5), Box(m - 2, a - 2, 5, 5), Box(a - 2, m - 2, 5, 5), Box(a - 2, a - 2, 5, 5)]
    else []
  }

  function VersionBoxes(ver: nat): seq<Box> {
    if ver >= 7 then [Box(0, Size(ver) - 11, 6, 3), Box(Size(ver) - 11, 0, 3, 6)] else []
  }

  lemma CornersCover(s: nat, c: Cell)
    requires s >= 21 && OffTiming(s, c)
    requires FinderZone(s, c) || FormatIndex(s, c) >= 0 || c == DarkModule(s) || (TimingZone(s, c) && c.y == 6)
    ensures InBoxes(CornerBoxes(s), c)
  {
    var b := CornerBoxes(s);
    if c.x < 9 && c.y < 9 {
      assert InBox(b[if c.x < 6 then 0 else 1], c);
    } else if c.y >= s - 8 {
      assert InBox(b[if c.x < 6 then 2 else 3], c);
    } else {
      assert InBox(b[if c.x >= s - 8 then 4 else 5], c);
    }
  }

  lemma AlignmentsCover(ver: nat, c: Cell)
    requires Built(ver) && OffTiming(Size(ver), c) && AlignmentZone(Size(ver), Of(ver).align, c)
    ensures InBoxes(AlignmentBoxes(Of(ver).align), c) || TimingZone(Size(ver), c)
  {
    hide Near, CentreNear;
    var centres, s := Of(ver).align, Size(ver);
    var b := AlignmentBoxes(centres);
    var i, j := CentreNear(centres, c.x), CentreNear(centres, c.y);
    NearBounds(c.x, centres[i]);
    NearBounds(c.y, centres[j]);
    if |centres| == 2 {
      assert InBox(b[0], c);
    } else if i == 0 {
      assert InBox(b[if c.x < 6 then 2 else 3], c);
    } else if j == 0 {
      if c.y != 6 { assert InBox(b[if c.y < 6 then 0 else 1], c); }
    } else {
      assert InBox(b[4 + 2 * (i - 1) + (j - 1)], c);
    }
  }

  lemma NearBounds(a: int, b: int)
    requires Near(a, b, 2)
    ensures b - 2 <= a <= b + 2
  {
  }

  lemma VersionCover(ver: nat, c: Cell)
    requires VersionZone(ver, c)
    ensures InBoxes(VersionBoxes(ver), c)
  {
    var b := VersionBoxes(ver);
    assert InBox(b[0], c) || InBox(b[1], c);
  }

  function ReservedBoxes(ver: nat): seq<Box>
    requires Built(ver)
  {
    CornerBoxes(Size(ver)) + AlignmentBoxes(Of(ver).align) + VersionBoxes(ver)
  }

  lemma ReservedIsCovered(ver: nat, c: Cell)
    requires Built(ver) && OffTiming(Size(ver), c) && ReservedAt(ver, c)
    ensures InBoxes(ReservedBoxes(ver), c)
  {
    hide FinderZone, FormatIndex, AlignmentZone, VersionZone, InBox, CornerBoxes, AlignmentBoxes, VersionBoxes, Of;
    var s := Size(ver);
    var p, q, r := CornerBoxes(s), AlignmentBoxes(Of(ver).align), VersionBoxes(ver);
    if AlignmentZone(s, Of(ver).align, c) { AlignmentsCover(ver, c); }
    if FinderZone(s, c) || FormatIndex(s, c) >= 0 || c == DarkModule(s) || TimingZone(s, c) {
      CornersCover(s, c);
      var i :| 0 <= i < |p| && InBox(p[i], c);
      assert (p + q + r)[i] == p[i];
    } else if VersionZone(ver, c) {
      VersionCover(ver, c);
      var i :| 0 <= i < |r| && InBox(r[i], c);
      assert (p + q + r)[|p| + |q| + i] == r[i];
    } else {
      var i :| 0 <= i < |q| && InBox(q[i], c);
      assert (p + q + r)[|p| + i] == q[i];
    }
  }

  lemma PairArea(a: Box, b: Box)
    ensures Area([a]) == a.w * a.h && Area([a, b]) == a.w * a.h + b.w * b.h
  {
    assert [a][1..] == [] && [b][1..] == [] && [a, b][1..] == [b];
  }

  lemma CornerArea(s: nat)
    requires s >= 21
    ensures Area(CornerBoxes(s)) == 191 + s
  {
    hide Area;
    var b := CornerBoxes(s);
    PairArea(b[0], b[1]);
    PairArea(b[2], b[3]);
    PairArea(b[4], b[5]);
    AreaAppend([b[0], b[1]], [b[2], b[3]]);
    AreaAppend([b[0], b[1], b[2], b[3]], [b[4], b[5]]);
    assert [b[0], b[1]] + [b[2], b[3]] == [b[0], b[1], b[2], b[3]];
    assert b == [b[0], b[1], b[2], b[3]] + [b[4], b[5]];
  }

  lemma AlignmentArea(centres: seq<nat>)
    ensures Area(AlignmentBoxes(centres)) == if |centres| == 2 then 25 else if |centres| == 3 then 140 else 0
  {
    hide Area;
    var b := AlignmentBoxes(centres);
    if |centres| == 2 {
      PairArea(b[0], b[0]);
    } else if |centres| == 3 {
      PairArea(b[0], b[1]);
      PairArea(b[2], b[3]);
      PairArea(b[4], b[5]);
      PairArea(b[6], b[7]);
      AreaAppend([b[0], b[1]], [b[2], b[3]]);
      AreaAppend([b[4], b[5]], [b[6], b[7]]);
      var front, back := [b[0], b[1], b[2], b[3]], [b[4], b[5], b[6], b[7]];
      assert [b[0], b[1]] + [b[2], b[3]] == front && [b[4], b[5]] + [b[6], b[7]] == back;
      AreaAppend(front, back);
      assert b == front + back;
    } else {
      NoArea();
    }
  }

  lemma NoArea()
    ensures Area([]) == 0
  {
  }

  // The data modules outnumber, or equal, the bits of the version's codewords.
  lemma EveryBitHasAModule(ver: nat)
    requires Built(ver)
    ensures |Free(ver, Path(Size(ver)))| >= 8 * TotalCount(Of(ver))
  {
    hide ReservedAt, CornerBoxes, AlignmentBoxes, VersionBoxes, Walk, InBoxes;
    var s := Size(ver);
    WalkNoRepeats(s, Pairs(s), 0);
    FreeNoRepeats(ver, Path(s));
    var taken, cover := Taken(ver, Path(s)), BoxesCells(ReservedBoxes(ver));
    forall c | c in taken ensures c in cover {
      FreeMembers(ver, Path(s), c);
      EveryModuleOnce(s, c);
      ReservedIsCovered(ver, c);
      BoxesFacts(ReservedBoxes(ver));
    }
    NoRepeatsFit(taken, cover);
    BoxesFacts(ReservedBoxes(ver));
    ReservedArea(ver);
    Enough(ver);
  }

  lemma ReservedArea(ver: nat)
    requires Built(ver)
    ensures Area(ReservedBoxes(ver)) ==
            191 + Size(ver) + (if ver == 1 then 0 else if ver < 7 then 25 else 140) + (if ver >= 7 then 36 else 0)
  {
    hide CornerBoxes, AlignmentBoxes, Area;
    var s, v := Size(ver), VersionBoxes(ver);
    if ver >= 7 { PairArea(v[0], v[1]); } else { NoArea(); }
    AreaAppend(CornerBoxes(s) + AlignmentBoxes(Of(ver).align), VersionBoxes(ver));
    AreaAppend(CornerBoxes(s), AlignmentBoxes(Of(ver).align));
    CornerArea(s);
    AlignmentArea(Of(ver).align);
  }

  lemma Enough(ver: nat)
    requires Built(ver)
    ensures |Path(Size(ver))| >=
            8 * TotalCount(Of(ver)) + 191 + Size(ver) + (if ver == 1 then 0 else if ver < 7 then 25 else 140) + (if ver >= 7 then 36 else 0)
  {
    hide TotalCount, Of, Walk;
    Totals(ver);
    WalkLength(Size(ver), Pairs(Size(ver)), 0);
    if ver == 1 { Oblong(10, 21, 210); }
    else if ver == 2 { Oblong(12, 25, 300); }
    else if ver == 3 { Oblong(14, 29, 406); }
    else if ver == 4 { Oblong(16, 33, 528); }
    else if ver == 5 { Oblong(18, 37, 666); }
    else if ver == 6 { Oblong(20, 41, 820); }
    else if ver == 7 { Oblong(22, 45, 990); }
    else if ver == 8 { Oblong(24, 49, 1176); }
    else if ver == 9 { Oblong(26, 53, 1378); }
    else { Oblong(28, 57, 1596); }
  }

  lemma Oblong(pairs: nat, size: nat, n: nat)
    requires pairs * size == n
    ensures forall p: nat, s: nat {:trigger p * s} :: p == pairs && s == size ==> p * s == n
  {
  }

  lemma Totals(ver: nat)
    requires Built(ver)
    ensures TotalCount(Of(ver)) ==
            if ver == 1 then 26 else if ver == 2 then 44 else if ver == 3 then 70 else if ver == 4 then 100
            else if ver == 5 then 134 else if ver == 6 then 172 else if ver == 7 then 196 else if ver == 8 then 242
            else if ver == 9 then 292 else 346
  {
  }
}
