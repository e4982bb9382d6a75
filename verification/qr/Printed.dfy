// Tables and pictures as ISO/IEC 18004:2015 prints them, and that the encoder's definitions are those.
module Printed {
  import opened Gf256
  import opened BitStream
  import opened Version
  import opened Codewords
  import opened Zigzag
  import opened Patterns
  import opened Masking
  import opened Symbol
  import Penalty

  // ---------------------------------------------------------------- tables

  // Check codewords, blocks and bytes held, by tables 7 and 9 for level M.
  lemma TableIsPrinted(ver: nat)
    requires Built(ver)
    ensures Blocks(Of(ver)) * Of(ver).ecPerBlock ==
            if ver == 1 then 10 else if ver == 2 then 16 else if ver == 3 then 26 else if ver == 4 then 36 else if ver == 5 then 48 else
            if ver == 6 then 64 else if ver == 7 then 72 else if ver == 8 then 88 else if ver == 9 then 110 else 130
    ensures Blocks(Of(ver)) ==
            if ver == 1 then 1 else if ver == 2 then 1 else if ver == 3 then 1 else if ver == 4 then 2 else if ver == 5 then 2 else
            if ver == 6 then 4 else if ver == 7 then 4 else if ver == 8 then 4 else if ver == 9 then 5 else 5
    ensures Capacity(ver) ==
            if ver == 1 then 14 else if ver == 2 then 26 else if ver == 3 then 42 else if ver == 4 then 62 else if ver == 5 then 84 else
            if ver == 6 then 106 else if ver == 7 then 122 else if ver == 8 then 152 else if ver == 9 then 180 else 213
  {
  }

  // The alignment centres run in equal steps from column 6 to the seventh from the far edge.
  lemma CentresAreEvenlySpaced(ver: nat)
    requires Built(ver)
    ensures var a := Of(ver).align;
            && |a| == (if ver == 1 then 0 else ver / 7 + 2)
            && (a != [] ==> a[0] == 6 && a[|a| - 1] == Size(ver) - 7)
            && forall i {:trigger a[i]} :: 0 <= i < |a| ==> a[i] * (|a| - 1) == 6 * (|a| - 1) + i * (Size(ver) - 13)
  {
    if ver == 1 {} else if ver == 2 {} else if ver == 3 {} else if ver == 4 {} else if ver == 5 {}
    else if ver == 6 {} else if ver == 7 {} else if ver == 8 {} else if ver == 9 {} else {}
  }

  // The field is that of x^8 + x^4 + x^3 + x^2 + 1: doubling shifts, and 128 doubled is 29.
  lemma DoublingIsPrinted(b: Byte)
    ensures Mul(2, b) == (b << 1) ^ (if b < 128 then 0 else 29)
  {
    assert Exp(1) == 2;
    MulIsSteps(1, b);
    assert XtimeN(b, 1) == Xtime(b);
    TopBit(b);
  }

  lemma TopBit(b: Byte)
    ensures b & 0x80 != 0 <==> b >= 128
  {
  }

  // ---------------------------------------------------------------- pictures

  // A finder with the light modules that part it from the symbol, from its corner inwards.
  const FINDER := [
    "#######.",
    "#.....#.",
    "#.###.#.",
    "#.###.#.",
    "#.###.#.",
    "#.....#.",
    "#######.",
    "........"]

  lemma FinderFacts(x: nat, y: nat)
    requires x < 8 && y < 8
    ensures |FINDER[y]| == 8
    ensures (FINDER[y][x] == '#') == FinderDark(Cell(0, 0), Cell(x, y))
  {
    if y == 0 {} else if y == 1 {} else if y == 2 {} else if y == 3 {} else if y == 4 {} else if y == 5 {} else if y == 6 {} else {}
  }

  // Near a corner only the first or the last centre is, and a pattern there would land on a finder.
  lemma NoAlignmentInCorner(ver: nat, c: Cell)
    requires Built(ver) && Inside(Size(ver), c)
    requires (c.x < 8 && c.y < 8) || (c.x >= Size(ver) - 8 && c.y < 8) || (c.x < 8 && c.y >= Size(ver) - 8)
    ensures !AlignmentZone(Size(ver), Of(ver).align, c)
  {
    CentresAreSpaced(ver);
    EndCentres(ver, c.x);
    EndCentres(ver, c.y);
    hide Of, CentreNear;
  }

  lemma EndCentres(ver: nat, a: int)
    requires Built(ver)
    ensures var centres, i := Of(ver).align, CentreNear(Of(ver).align, a);
            && (a < 8 && i < |centres| ==> centres[i] == 6)
            && (a >= Size(ver) - 8 && i < |centres| ==> centres[i] == Size(ver) - 7)
  {
    CentresAreEvenlySpaced(ver);
    if ver == 1 {} else if ver == 2 {} else if ver == 3 {} else if ver == 4 {} else if ver == 5 {}
    else if ver == 6 {} else if ver == 7 {} else if ver == 8 {} else if ver == 9 {} else {}
  }

  // The three finders stand in every symbol as printed, whatever the data and the mask.
  lemma FindersAreDrawn(ver: nat, codewords: seq<Byte>, m: nat, x: nat, y: nat)
    requires Built(ver) && x < 8 && y < 8
    ensures var s, dark := Size(ver), FINDER[y][x] == '#';
            && Drawn(ver, codewords, m, Cell(x, y)) == dark
            && Drawn(ver, codewords, m, Cell(s - 1 - x, y)) == dark
            && Drawn(ver, codewords, m, Cell(x, s - 1 - y)) == dark
  {
    hide Drawn;
    var s := Size(ver);
    FinderFacts(x, y);
    FinderMirrors(s, x, y);
    hide FinderDark;
    CornerIsDrawn(ver, codewords, m, Cell(0, 0), Cell(x, y));
    CornerIsDrawn(ver, codewords, m, Cell(s - 7, 0), Cell(s - 1 - x, y));
    CornerIsDrawn(ver, codewords, m, Cell(0, s - 7), Cell(x, s - 1 - y));
  }

  lemma FinderMirrors(s: nat, x: nat, y: nat)
    ensures FinderDark(Cell(s - 7, 0), Cell(s - 1 - x, y)) == FinderDark(Cell(0, 0), Cell(x, y)) == FinderDark(Cell(0, s - 7), Cell(x, s - 1 - y))
  {
  }

  lemma CornerIsDrawn(ver: nat, codewords: seq<Byte>, m: nat, corner: Cell, c: Cell)
    requires Built(ver) && Inside(Size(ver), c) && InFinder(corner, c)
    requires (corner == Cell(0, 0) && c.x < 8 && c.y < 8) || (corner == Cell(Size(ver) - 7, 0) && c.y < 8) || (corner == Cell(0, Size(ver) - 7) && c.x < 8)
    ensures Drawn(ver, codewords, m, c) == FinderDark(corner, c)
  {
    hide Drawn, FinderDark;
    FindersApart(Size(ver), c);
    NoAlignmentInCorner(ver, c);
    hide AlignmentZone, AlignmentValue;
    PatternsSurvive(ver, codewords, m, c);
  }

  // Between the finders row 6 and column 6 alternate, dark on the even modules.
  lemma TimingIsDrawn(ver: nat, codewords: seq<Byte>, m: nat, i: nat)
    requires Built(ver) && 8 <= i < Size(ver) - 8
    ensures Drawn(ver, codewords, m, Cell(i, 6)) == Drawn(ver, codewords, m, Cell(6, i)) == (i % 2 == 0)
  {
    hide Drawn;
    TimingModule(ver, Cell(i, 6), i);
    TimingModule(ver, Cell(6, i), i);
    hide PatternDark;
    PatternsSurvive(ver, codewords, m, Cell(i, 6));
    PatternsSurvive(ver, codewords, m, Cell(6, i));
  }

  lemma TimingModule(ver: nat, c: Cell, i: nat)
    requires Built(ver) && 8 <= i < Size(ver) - 8 && (c == Cell(i, 6) || c == Cell(6, i))
    ensures PatternDark(ver, c) == (i % 2 == 0)
  {
    CentresAreEven(ver);
    EndCentres(ver, 6);
    TimingIsClear(ver, c, i);
    hide Of, VersionZone, DarkModule, FormatIndex, TimingZone, FinderZone, AlignmentDark;
    if AlignmentZone(Size(ver), Of(ver).align, c) {
      OnTheLine(Of(ver).align[CentreNear(Of(ver).align, i)], i);
    }
  }

  lemma TimingIsClear(ver: nat, c: Cell, i: nat)
    requires Built(ver) && 8 <= i < Size(ver) - 8 && (c == Cell(i, 6) || c == Cell(6, i))
    ensures !VersionZone(ver, c) && c != DarkModule(Size(ver)) && FormatIndex(Size(ver), c) < 0 && TimingZone(Size(ver), c)
    ensures !FinderZone(Size(ver), c) && TimingValue(c) == (i % 2 == 0)
  {
  }

  lemma OnTheLine(centre: int, i: int)
    requires centre % 2 == 0 && Near(i, centre, 2)
    ensures AlignmentDark(centre, 6, Cell(i, 6)) == AlignmentDark(6, centre, Cell(6, i)) == (i % 2 == 0)
  {
  }

  lemma CentresAreEven(ver: nat)
    requires Built(ver)
    ensures forall i :: 0 <= i < |Of(ver).align| ==> Of(ver).align[i] % 2 == 0
  {
  }

  const ALIGNMENT := [
    "#####",
    "#...#",
    "#.#.#",
    "#...#",
    "#####"]

  lemma AlignmentFacts(x: nat, y: nat)
    requires x < 5 && y < 5
    ensures |ALIGNMENT[y]| == 5
    ensures (ALIGNMENT[y][x] == '#') == AlignmentDark(2, 2, Cell(x, y))
  {
    if y == 0 {} else if y == 1 {} else if y == 2 {} else if y == 3 {} else {}
  }

  // At every pair of centres but the three a finder stands on, the alignment pattern as printed.
  lemma AlignmentsAreDrawn(ver: nat, codewords: seq<Byte>, m: nat, i: nat, j: nat, x: nat, y: nat)
    requires Built(ver) && i < |Of(ver).align| && j < |Of(ver).align| && x < 5 && y < 5
    requires !(i == 0 && j == 0) && !(i == 0 && j == |Of(ver).align| - 1) && !(i == |Of(ver).align| - 1 && j == 0)
    ensures Drawn(ver, codewords, m, Cell(Of(ver).align[i] - 2 + x, Of(ver).align[j] - 2 + y)) == (ALIGNMENT[y][x] == '#')
  {
    hide Drawn;
    var s, a := Size(ver), Of(ver).align;
    var c := Cell(a[i] - 2 + x, a[j] - 2 + y);
    AlignmentFacts(x, y);
    CentresClearOfInformation(ver, i, j);
    OnThePattern(ver, i, j, c);
    hide Of, AlignmentZone, AlignmentValue, FormatIndex, VersionZone, DarkModule, CentreNear, OnFinder;
    PatternsSurvive(ver, codewords, m, c);
  }

  lemma OnThePattern(ver: nat, i: nat, j: nat, c: Cell)
    requires Built(ver) && i < |Of(ver).align| && j < |Of(ver).align|
    requires var a := Of(ver).align; !OnFinder(Size(ver), a[i], a[j]) && Near(c.x, a[i], 2) && Near(c.y, a[j], 2)
    ensures var a := Of(ver).align;
            AlignmentZone(Size(ver), a, c) && AlignmentValue(a, c) == AlignmentDark(a[i], a[j], c) && Inside(Size(ver), c)
  {
    CentresAreSpaced(ver);
    NearTheCentre(Size(ver), Of(ver).align);
    CentreFits(Size(ver), Of(ver).align, i);
    CentreFits(Size(ver), Of(ver).align, j);
    hide Of, CentreNear, OnFinder, Spaced;
  }

  lemma CentresClearOfInformation(ver: nat, i: nat, j: nat)
    requires Built(ver) && i < |Of(ver).align| && j < |Of(ver).align|
    requires !(i == 0 && j == 0) && !(i == 0 && j == |Of(ver).align| - 1) && !(i == |Of(ver).align| - 1 && j == 0)
    ensures var s, a := Size(ver), Of(ver).align;
            && !OnFinder(s, a[i], a[j])
            && forall c: Cell {:trigger Near(c.x, a[i], 2), Near(c.y, a[j], 2)} :: Near(c.x, a[i], 2) && Near(c.y, a[j], 2) ==>
                 FormatIndex(s, c) < 0 && !VersionZone(ver, c) && c != DarkModule(s)
  {
    if ver == 1 {} else if ver == 2 {} else if ver == 3 {} else if ver == 4 {} else if ver == 5 {}
    else if ver == 6 {} else if ver == 7 {} else if ver == 8 {} else if ver == 9 {} else {}
  }

  // Both version blocks hold the version word, bit i on row and column i / 3 of the far three lines.
  lemma VersionIsDrawn(ver: nat, codewords: seq<Byte>, m: nat, i: nat)
    requires Built(ver) && ver >= 7 && i < 18
    ensures var s := Size(ver);
            Drawn(ver, codewords, m, Cell(i / 3, s - 11 + i % 3)) == Drawn(ver, codewords, m, Cell(s - 11 + i % 3, i / 3)) == On(VersionWord(ver), i)
  {
    hide Formatted, Masked, Base, VersionWord, On;
    VersionIndexInverts(Size(ver), i);
  }

  // ---------------------------------------------------------------- the order of the data

  // The 2 * (p * size + r) + c-th cell: pair p from the right, over column 6, climbs when p is even.
  lemma {:induction false} WalkIsPrinted(size: nat, n: nat, k: nat, p: nat, r: nat, c: nat)
    requires k <= size && r < size && c < 2 && (p < n || (p == n && r < k))
    ensures 2 * (p * size + r) + c < |Walk(size, n, k)|
    ensures Walk(size, n, k)[2 * (p * size + r) + c] ==
            Cell((if size - 1 - 2 * p > 6 then size - 1 - 2 * p else size - 2 - 2 * p) - c, if p % 2 == 0 then size - 1 - r else r)
    decreases n, k
  {
    WalkLength(size, n, k);
    if k > 0 {
      WalkLength(size, n, k - 1);
      if p < n || r < k - 1 { WalkIsPrinted(size, n, k - 1, p, r, c); }
    } else {
      WalkIsPrinted(size, n - 1, size, p, r, c);
    }
  }

  lemma PathIsPrinted(size: nat, p: nat, r: nat, c: nat)
    requires p < size / 2 && r < size && c < 2
    ensures 2 * (p * size + r) + c < |Path(size)|
    ensures Path(size)[2 * (p * size + r) + c] ==
            Cell((if size - 1 - 2 * p > 6 then size - 1 - 2 * p else size - 2 - 2 * p) - c, if p % 2 == 0 then size - 1 - r else r)
  {
    WalkIsPrinted(size, size / 2, 0, p, r, c);
  }

  // ---------------------------------------------------------------- the data half

  // Mode 0100, the count, the bytes and 0000 in that order, then 11101100 and 00010001 in turn.
  lemma DataIsPrinted(payload: seq<Byte>, ver: nat)
    requires Built(ver) && |payload| <= Capacity(ver)
    ensures var bits, width, n := BitsOf(DataOf(payload, ver)), CountBits(ver), |payload|;
            && |bits| >= 8 + width + 8 * n
            && bits[..4] == [false, true, false, false]
            && NatOf(bits[4..4 + width]) == n
            && bits[4 + width..4 + width + 8 * n] == BitsOf(payload)
            && bits[4 + width + 8 * n..8 + width + 8 * n] == [false, false, false, false]
    ensures var data, used := DataOf(payload, ver), 1 + CountBits(ver) / 8 + |payload|;
            && |data| == DataCount(Of(ver))
            && forall k :: used <= k < |data| ==> data[k] == if (k - used) % 2 == 0 then 236 else 17
  {
    hide NatBits, NatOf, BitsOf, Pack, Pow2, Of;
    var head := Header(payload, ver);
    var width, data := CountBits(ver), DataOf(payload, ver);
    BitsOfPack(head);
    BitsOfAppend(Pack(head), data[|Pack(head)|..]);
    assert data == Pack(head) + data[|Pack(head)|..];
    var bits := BitsOf(data);
    assert bits[..|head|] == head;
    NibblesAreBits();
    assert bits[..4] == head[..4] == NatBits(0x4, 4);
    assert bits[4..4 + width] == head[4..4 + width] == NatBits(|payload|, width);
    CountFits(|payload|, ver);
    NatRoundTrip(|payload|, width);
    var end := 4 + width + 8 * |payload|;
    assert bits[4 + width..end] == head[4 + width..end] == BitsOf(payload);
    assert bits[end..end + 4] == head[end..end + 4] == NatBits(0, 4);
  }

  lemma NibblesAreBits()
    ensures NatBits(0x4, 4) == [false, true, false, false] && NatBits(0, 4) == [false, false, false, false]
  {
    assert Pow2(2) == 4 && Pow2(3) == 8;
  }

  // ---------------------------------------------------------------- the penalty

  // A symbol of one colour: every line one run, every square, no finder, and all the way off balance.
  lemma UniformScore(rows: Penalty.Rows, on: bool)
    requires Penalty.Square(rows) && |rows| >= 7
    requires forall y, x :: 0 <= y < |rows| && 0 <= x < |rows| ==> rows[y][x] == on
    ensures Penalty.Score(rows) == 2 * |rows| * (|rows| - 2) + 3 * (|rows| - 1) * (|rows| - 1) + 100
  {
    var s := |rows|;
    UniformRuns(rows, on, s);
    UniformSquares(rows, on, s - 1);
    UniformFinders(rows, on, s);
    UniformDark(rows, on, s);
    AllOrNothing(s);
  }

  lemma AllOrNothing(s: nat)
    requires s > 0
    ensures Penalty.Imbalance(0, s) == 100 && Penalty.Imbalance(s * s, s) == 100
  {
    var n := s * s;
    assert n > 0;
    assert n * 100 / n == 100;
  }

  lemma {:induction false} UniformRun(line: seq<bool>, on: bool, n: nat)
    requires n <= |line| && forall x :: 0 <= x < |line| ==> line[x] == on
    ensures Penalty.RunScore(line, n) == if n < 5 then 0 else n - 2
  {
    if n > 0 { UniformRun(line, on, n - 1); }
  }

  lemma {:induction false} UniformRuns(rows: Penalty.Rows, on: bool, n: nat)
    requires Penalty.Square(rows) && |rows| >= 7 && n <= |rows|
    requires forall y, x :: 0 <= y < |rows| && 0 <= x < |rows| ==> rows[y][x] == on
    ensures Penalty.Runs(rows, n) == 2 * n * (|rows| - 2)
  {
    if n > 0 {
      UniformRuns(rows, on, n - 1);
      UniformRun(rows[n - 1], on, |rows|);
      UniformRun(Penalty.Column(rows, n - 1), on, |rows|);
      OneMoreOf(n, 2, |rows| - 2);
    }
  }

  lemma OneMoreOf(n: nat, k: nat, d: nat)
    requires n > 0
    ensures k * n * d == k * (n - 1) * d + k * d
  {
    assert k * n == k * (n - 1) + k;
  }

  lemma {:induction false} UniformAcross(rows: Penalty.Rows, on: bool, y: nat, n: nat)
    requires Penalty.Square(rows) && y + 1 < |rows| && n < |rows|
    requires forall y, x :: 0 <= y < |rows| && 0 <= x < |rows| ==> rows[y][x] == on
    ensures Penalty.SquaresAcross(rows, y, n) == 3 * n
  {
    if n > 0 { UniformAcross(rows, on, y, n - 1); }
  }

  lemma {:induction false} UniformSquares(rows: Penalty.Rows, on: bool, n: nat)
    requires Penalty.Square(rows) && |rows| >= 7 && n < |rows|
    requires forall y, x :: 0 <= y < |rows| && 0 <= x < |rows| ==> rows[y][x] == on
    ensures Penalty.Squares(rows, n) == 3 * n * (|rows| - 1)
  {
    if n > 0 {
      UniformSquares(rows, on, n - 1);
      UniformAcross(rows, on, n - 1, |rows| - 1);
      OneMoreOf(n, 3, |rows| - 1);
    }
  }

  lemma {:induction false} UniformLine(line: seq<bool>, on: bool, n: nat)
    requires n + 6 <= |line| && forall x :: 0 <= x < |line| ==> line[x] == on
    ensures Penalty.FinderScore(line, n) == 0
  {
    if n > 0 {
      UniformLine(line, on, n - 1);
      assert line[n - 1..n + 6][0] == line[n - 1..n + 6][1];
    }
  }

  lemma {:induction false} UniformFinders(rows: Penalty.Rows, on: bool, n: nat)
    requires Penalty.Square(rows) && |rows| >= 7 && n <= |rows|
    requires forall y, x :: 0 <= y < |rows| && 0 <= x < |rows| ==> rows[y][x] == on
    ensures Penalty.Finders(rows, n) == 0
  {
    if n > 0 {
      UniformFinders(rows, on, n - 1);
      UniformLine(rows[n - 1], on, |rows| - 6);
      UniformLine(Penalty.Column(rows, n - 1), on, |rows| - 6);
    }
  }

  lemma {:induction false} UniformDarkIn(line: seq<bool>, on: bool, n: nat)
    requires n <= |line| && forall x :: 0 <= x < |line| ==> line[x] == on
    ensures Penalty.DarkIn(line, n) == if on then n else 0
  {
    if n > 0 { UniformDarkIn(line, on, n - 1); }
  }

  lemma {:induction false} UniformDark(rows: Penalty.Rows, on: bool, n: nat)
    requires Penalty.Square(rows) && |rows| >= 7 && n <= |rows|
    requires forall y, x :: 0 <= y < |rows| && 0 <= x < |rows| ==> rows[y][x] == on
    ensures Penalty.Dark(rows, n) == if on then n * |rows| else 0
  {
    if n > 0 {
      UniformDark(rows, on, n - 1);
      UniformDarkIn(rows[n - 1], on, |rows|);
      OneMoreOf(n, 1, |rows|);
    }
  }

  // What costs forty: dark, light, three dark, light, dark with four light modules, or the edge, on
  // one side.
  lemma FinderLikeMeans(line: seq<bool>, at: nat)
    requires at + 7 <= |line|
    ensures Penalty.FinderScore(line, at + 1) - Penalty.FinderScore(line, at) ==
            if && line[at] && !line[at + 1] && line[at + 2] && line[at + 3] && line[at + 4] && !line[at + 5] && line[at + 6]
               && ((forall j :: at - 4 <= j < at && j >= 0 ==> !line[j]) || (forall j :: at + 7 <= j < at + 11 && j < |line| ==> !line[j]))
            then 40 else 0
  {
    var seven := line[at..at + 7];
    assert seven == [line[at], line[at + 1], line[at + 2], line[at + 3], line[at + 4], line[at + 5], line[at + 6]];
    assert Penalty.Clear(line, at - 4) == forall j :: at - 4 <= j < at && j >= 0 ==> !line[j];
    assert Penalty.Clear(line, at + 7) == forall j :: at + 7 <= j < at + 11 && j < |line| ==> !line[j];
  }
}
