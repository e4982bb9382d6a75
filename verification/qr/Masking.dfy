// The eight masks, and the format and version information written over a masked symbol.
module Masking {
  import opened Version
  import opened Zigzag
  import opened Patterns

  // The eight patterns of section 7.8.2 of ISO/IEC 18004:2015 as they repeat over a symbol from its
  // top left corner: X is a module to flip.
  function Tile(m: nat): (rows: seq<string>)
    ensures |rows| > 0 && forall r :: 0 <= r < |rows| ==> |rows[r]| == |rows[0]| > 0
  {
    if m == 0 then ["X.",
                    ".X"]
    else if m == 1 then ["X",
                         "."]
    else if m == 2 then ["X.."]
    else if m == 3 then ["X..",
                         "..X",
                         ".X."]
    else if m == 4 then ["XXX...",
                         "XXX...",
                         "...XXX",
                         "...XXX"]
    else if m == 5 then ["XXXXXX",
                         "X.....",
                         "X..X..",
                         "X.X.X.",
                         "X..X..",
                         "X....."]
    else if m == 6 then ["XXXXXX",
                         "XXX...",
                         "XX.XX.",
                         "X.X.X.",
                         "X.XX.X",
                         "X...XX"]
    else ["X.X.X.",
          "...XXX",
          "X...XX",
          ".X.X.X",
          "XXX...",
          ".XXX.."]
  }

  predicate Marked(m: nat, c: Cell) {
    var rows := Tile(m);
    rows[c.y % |rows|][c.x % |rows[0]|] == 'X'
  }

  // The same as arithmetic on the coordinates.
  predicate MaskAt(m: nat, c: Cell) {
    var x, y := c.x, c.y;
    if m == 0 then (y + x) % 2 == 0
    else if m == 1 then y % 2 == 0
    else if m == 2 then x % 3 == 0
    else if m == 3 then (y + x) % 3 == 0
    else if m == 4 then (y / 2 + x / 3) % 2 == 0
    else if m == 5 then (y * x) % 2 + (y * x) % 3 == 0
    else if m == 6 then ((y * x) % 2 + (y * x) % 3) % 2 == 0
    else ((y + x) % 2 + (y * x) % 3) % 2 == 0
  }

  lemma SplitBySix(y: int, x: int)
    ensures exists t :: y * x == 6 * t + (y % 6) * (x % 6)
  {
    var a, b, p, q := y / 6, x / 6, y % 6, x % 6;
    assert y == 6 * a + p && x == 6 * b + q;
    var t := 6 * (a * b) + a * q + b * p;
    assert y * x == (6 * a + p) * (6 * b + q) == 6 * t + p * q;
  }

  // The product's remainders by two and by three go by the coordinates' remainders by six.
  lemma ProductBySix(y: int, x: int)
    ensures (y * x) % 2 == ((y % 6) * (x % 6)) % 2 && (y * x) % 3 == ((y % 6) * (x % 6)) % 3
  {
    SplitBySix(y, x);
    var t :| y * x == 6 * t + (y % 6) * (x % 6);
    Remainders(y * x, t, (y % 6) * (x % 6));
  }

  lemma Remainders(n: int, t: int, r: int)
    requires n == 6 * t + r
    ensures n % 2 == r % 2 && n % 3 == r % 3
  {
  }

  function Times(p: nat, q: nat): nat {
    if p == 0 then 0 else if p == 1 then q else if p == 2 then 2 * q else if p == 3 then 3 * q else if p == 4 then 4 * q else 5 * q
  }

  lemma TimesIsProduct(p: nat, q: nat)
    requires p < 6
    ensures Times(p, q) == p * q
  {
  }

  // The last three masks, of remainders by six and their product.
  predicate Small(m: nat, p: nat, q: nat, n: nat) {
    if m == 5 then n % 2 + n % 3 == 0
    else if m == 6 then (n % 2 + n % 3) % 2 == 0
    else ((p + q) % 2 + n % 3) % 2 == 0
  }

  lemma RowIsTile(m: nat, p: nat, q: nat)
    requires 5 <= m < 8 && p < 6 && q < 6
    ensures Small(m, p, q, Times(p, q)) <==> Tile(m)[p][q] == 'X'
  {
    if m == 5 { FifthTile(p, q); } else if m == 6 { SixthTile(p, q); } else { SeventhTile(p, q); }
  }

  lemma FifthTile(p: nat, q: nat)
    requires p < 6 && q < 6
    ensures Small(5, p, q, Times(p, q)) <==> Tile(5)[p][q] == 'X'
  {
    if q == 0 {} else if q == 1 {} else if q == 2 {} else if q == 3 {} else if q == 4 {} else {}
  }

  lemma SixthTile(p: nat, q: nat)
    requires p < 6 && q < 6
    ensures Small(6, p, q, Times(p, q)) <==> Tile(6)[p][q] == 'X'
  {
    if q == 0 {} else if q == 1 {} else if q == 2 {} else if q == 3 {} else if q == 4 {} else {}
  }

  lemma SeventhTile(p: nat, q: nat)
    requires p < 6 && q < 6
    ensures Small(7, p, q, Times(p, q)) <==> Tile(7)[p][q] == 'X'
  {
    hide Tile;
    SeventhRow(p, q);
    var n := Times(p, q);
    var a, b := (p + q) % 2, n % 3;
    assert 0 <= a < 2 && 0 <= b < 3;
    assert (a + b) % 2 == 0 <==> a == b % 2;
  }

  lemma SeventhRow(p: nat, q: nat)
    requires p < 6 && q < 6
    ensures (p + q) % 2 == (Times(p, q) % 3) % 2 <==> Tile(7)[p][q] == 'X'
  {
    if q == 0 {} else if q == 1 {} else if q == 2 {} else if q == 3 {} else if q == 4 {} else {}
  }

  lemma TileSizes(m: nat)
    requires m < 8
    ensures |Tile(m)| == if m < 2 then 2 else if m == 2 then 1 else if m == 3 then 3 else if m == 4 then 4 else 6
    ensures |Tile(m)[0]| == if m == 0 then 2 else if m == 1 then 1 else if m < 4 then 3 else 6
  {
  }

  lemma ProductMask(m: nat, c: Cell)
    requires 5 <= m < 8
    ensures MaskAt(m, c) <==> Tile(m)[c.y % 6][c.x % 6] == 'X'
  {
    hide Tile;
    var p, q := c.y % 6, c.x % 6;
    ProductBySix(c.y, c.x);
    TimesIsProduct(p, q);
    RowIsTile(m, p, q);
    SumByTwo(c.y, c.x);
  }

  lemma SumByTwo(y: int, x: int)
    ensures (y + x) % 2 == (y % 6 + x % 6) % 2
  {
  }

  lemma SumRemainders(y: int, x: int)
    ensures (y + x) % 2 == (y % 2 + x % 2) % 2 && (y + x) % 3 == (y % 3 + x % 3) % 3
  {
  }

  lemma SumMask(m: nat, c: Cell)
    requires m == 0 || m == 3
    ensures MaskAt(m, c) <==> (if m == 0 then Tile(0)[c.y % 2][c.x % 2] == 'X' else Tile(3)[c.y % 3][c.x % 3] == 'X')
  {
    hide Tile;
    SumRemainders(c.y, c.x);
    SumTile(c.y % 2, c.x % 2);
    SumTile(c.y % 3, c.x % 3);
  }

  lemma SumTile(p: nat, q: nat)
    ensures p < 2 && q < 2 ==> ((p + q) % 2 == 0 <==> Tile(0)[p][q] == 'X')
    ensures p < 3 && q < 3 ==> ((p + q) % 3 == 0 <==> Tile(3)[p][q] == 'X')
  {
    if p == 0 { if q == 0 {} else if q == 1 {} else {} } else if p == 1 { if q == 0 {} else if q == 1 {} else {} } else {}
  }

  lemma StripeMask(c: Cell)
    ensures MaskAt(1, c) <==> Tile(1)[c.y % 2][0] == 'X'
    ensures MaskAt(2, c) <==> Tile(2)[0][c.x % 3] == 'X'
  {
  }

  lemma BlockMask(c: Cell)
    ensures MaskAt(4, c) <==> Tile(4)[c.y % 4][c.x % 6] == 'X'
  {
    var p, q := c.y % 4, c.x % 6;
    assert (c.y / 2) % 2 == p / 2 && (c.x / 3) % 2 == q / 3;
    BlockTile(p, q);
  }

  lemma BlockTile(p: nat, q: nat)
    requires p < 4 && q < 6
    ensures p / 2 == q / 3 <==> Tile(4)[p][q] == 'X'
  {
    if q == 0 {} else if q == 1 {} else if q == 2 {} else if q == 3 {} else if q == 4 {} else {}
  }

  // Mask by mask the arithmetic picks exactly the modules the pattern marks.
  lemma MaskIsTile(m: nat, c: Cell)
    requires m < 8
    ensures MaskAt(m, c) <==> Marked(m, c)
  {
    hide Tile, MaskAt;
    TileSizes(m);
    if m == 0 || m == 3 { SumMask(m, c); }
    else if m < 3 { StripeMask(c); }
    else if m == 4 { BlockMask(c); }
    else { ProductMask(m, c); }
  }

  // Every module the mask picks is flipped, unless it is reserved.
  function Masked(v: View, m: nat, c: Cell): bool {
    v.ink(c) != (!v.held(c) && Marked(m, c))
  }

  method ApplyMask(g: Grid, m: nat)
    requires g.Valid() && m < 8
    modifies g, g.dark
    ensures g.Valid() && Inked(g.size, old(g.view), g.view, (c: Cell) => Masked(old(g.view), m, c))
  {
    hide Grid.Valid, MaskAt, Marked;
    for y := 0 to g.size
      invariant g.Valid()
      invariant Inked(g.size, old(g.view), g.view, (c: Cell) => if c.y < y then Masked(old(g.view), m, c) else old(g.view).ink(c))
    {
      for x := 0 to g.size
        invariant g.Valid()
        invariant Inked(g.size, old(g.view), g.view,
                        (c: Cell) => if c.y < y || (c.y == y && c.x < x) then Masked(old(g.view), m, c) else old(g.view).ink(c))
      {
        ReadsGrid(g, Cell(x, y));
        MaskIsTile(m, Cell(x, y));
        if !g.reserved[x, y] && MaskAt(m, Cell(x, y)) {
          g.Ink(x, y, !g.dark[x, y]);
        }
      }
    }
  }

  lemma ReadsGrid(g: Grid, c: Cell)
    requires g.Valid() && Inside(g.size, c)
    ensures g.size == g.reserved.Length0 == g.reserved.Length1 == g.dark.Length0 == g.dark.Length1
    ensures g.reserved[c.x, c.y] == g.view.held(c) && g.dark[c.x, c.y] == g.view.ink(c)
  {
  }

  // ---------------------------------------------------------------- format information

  type Word = bv32

  const FORMAT_POLY: Word := 0x537
  const FORMAT_MASK: Word := 0x5412
  const VERSION_POLY: Word := 0x1F25

  // One step of division by a polynomial of degree `low`: clear bit i.
  function Cleared(word: Word, poly: Word, i: nat, low: nat): Word
    requires low <= i < 32
  {
    if word & (1 << i) != 0 then word ^ (poly << (i - low)) else word
  }

  // Steps i down to low.
  function Reduced(word: Word, poly: Word, i: nat, low: nat): Word
    requires 0 < low <= i + 1 <= 32
    decreases i
  {
    if i < low then word else Reduced(Cleared(word, poly, i, low), poly, i - 1, low)
  }

  // The format words of level M, as annex C of ISO/IEC 18004:2015 lists them, by mask.
  function FormatWord(m: nat): Word {
    if m == 0 then 0x5412 else if m == 1 then 0x5125 else if m == 2 then 0x5E7C else if m == 3 then 0x5B4B
    else if m == 4 then 0x45F9 else if m == 5 then 0x40CE else if m == 6 then 0x4F97 else 0x4AA0
  }

  // The version words, as annex D lists them.
  function VersionWord(ver: nat): Word {
    if ver == 7 then 0x07C94 else if ver == 8 then 0x085BC else if ver == 9 then 0x09A99 else 0x0A4D3
  }

  // The data bits set above their check bits.
  function Raised(n: nat, places: nat): Word
    requires n < 32 && places < 32
  {
    (n as Word) << places
  }

  function Joined(data: Word, check: Word): Word {
    data | check
  }

  lemma {:induction false} ReducedStep(word: Word, poly: Word, i: nat, low: nat)
    requires 0 < low <= i < 32
    ensures Reduced(word, poly, i, low) == Reduced(Cleared(word, poly, i, low), poly, i - 1, low)
  {
  }

  lemma ReducedDone(word: Word, poly: Word, low: nat)
    requires 0 < low < 32
    ensures Reduced(word, poly, low - 1, low) == word
  {
  }

  function Less(word: Word, top: Word, part: Word): Word {
    if word & top != 0 then word ^ part else word
  }

  // The divisions written out with their constants.
  lemma FormatDivision(w: Word)
    ensures var w1 := Less(w, 0x4000, 0x5370);
            var w2 := Less(w1, 0x2000, 0x29b8);
            var w3 := Less(w2, 0x1000, 0x14dc);
            var w4 := Less(w3, 0x800, 0xa6e);
            var w5 := Less(w4, 0x400, 0x537);
            Reduced(w, FORMAT_POLY, 14, 10) == w5
  {
    hide Cleared, Less;
    forall u: Word
      ensures Cleared(u, FORMAT_POLY, 14, 10) == Less(u, 0x4000, 0x5370)
      ensures Cleared(u, FORMAT_POLY, 13, 10) == Less(u, 0x2000, 0x29b8)
      ensures Cleared(u, FORMAT_POLY, 12, 10) == Less(u, 0x1000, 0x14dc)
    {
      FormatStepsHigh(u);
    }
    forall u: Word
      ensures Cleared(u, FORMAT_POLY, 11, 10) == Less(u, 0x800, 0xa6e)
      ensures Cleared(u, FORMAT_POLY, 10, 10) == Less(u, 0x400, 0x537)
    {
      FormatStepsLow(u);
    }
  }

  lemma FormatStepsHigh(u: Word)
    ensures Cleared(u, FORMAT_POLY, 14, 10) == Less(u, 0x4000, 0x5370)
    ensures Cleared(u, FORMAT_POLY, 13, 10) == Less(u, 0x2000, 0x29b8)
    ensures Cleared(u, FORMAT_POLY, 12, 10) == Less(u, 0x1000, 0x14dc)
  {
  }

  lemma FormatStepsLow(u: Word)
    ensures Cleared(u, FORMAT_POLY, 11, 10) == Less(u, 0x800, 0xa6e)
    ensures Cleared(u, FORMAT_POLY, 10, 10) == Less(u, 0x400, 0x537)
  {
  }

  lemma VersionDivision(w: Word)
    ensures var w1 := Less(w, 0x20000, 0x3e4a0);
            var w2 := Less(w1, 0x10000, 0x1f250);
            var w3 := Less(w2, 0x8000, 0xf928);
            var w4 := Less(w3, 0x4000, 0x7c94);
            var w5 := Less(w4, 0x2000, 0x3e4a);
            var w6 := Less(w5, 0x1000, 0x1f25);
            Reduced(w, VERSION_POLY, 17, 12) == w6
  {
    hide Cleared, Less;
    forall u: Word
      ensures Cleared(u, VERSION_POLY, 17, 12) == Less(u, 0x20000, 0x3e4a0)
      ensures Cleared(u, VERSION_POLY, 16, 12) == Less(u, 0x10000, 0x1f250)
      ensures Cleared(u, VERSION_POLY, 15, 12) == Less(u, 0x8000, 0xf928)
    {
      VersionStepsHigh(u);
    }
    forall u: Word
      ensures Cleared(u, VERSION_POLY, 14, 12) == Less(u, 0x4000, 0x7c94)
      ensures Cleared(u, VERSION_POLY, 13, 12) == Less(u, 0x2000, 0x3e4a)
      ensures Cleared(u, VERSION_POLY, 12, 12) == Less(u, 0x1000, 0x1f25)
    {
      VersionStepsLow(u);
    }
  }

  lemma VersionStepsHigh(u: Word)
    ensures Cleared(u, VERSION_POLY, 17, 12) == Less(u, 0x20000, 0x3e4a0)
    ensures Cleared(u, VERSION_POLY, 16, 12) == Less(u, 0x10000, 0x1f250)
    ensures Cleared(u, VERSION_POLY, 15, 12) == Less(u, 0x8000, 0xf928)
  {
  }

  lemma VersionStepsLow(u: Word)
    ensures Cleared(u, VERSION_POLY, 14, 12) == Less(u, 0x4000, 0x7c94)
    ensures Cleared(u, VERSION_POLY, 13, 12) == Less(u, 0x2000, 0x3e4a)
    ensures Cleared(u, VERSION_POLY, 12, 12) == Less(u, 0x1000, 0x1f25)
  {
  }

  lemma RaisedFormat(m: nat)
    requires m < 8
    ensures Raised(m, 10) == (if m == 0 then 0 else if m == 1 then 0x400 else if m == 2 then 0x800 else if m == 3 then 0xC00
                              else if m == 4 then 0x1000 else if m == 5 then 0x1400 else if m == 6 then 0x1800 else 0x1C00)
  {
    if m == 0 {} else if m == 1 {} else if m == 2 {} else if m == 3 {} else if m == 4 {} else if m == 5 {} else if m == 6 {} else {}
  }

  lemma RaisedVersion(ver: nat)
    requires 7 <= ver <= 10
    ensures Raised(ver, 12) == if ver == 7 then 0x7000 else if ver == 8 then 0x8000 else if ver == 9 then 0x9000 else 0xA000
  {
    if ver == 7 {} else if ver == 8 {} else if ver == 9 {} else {}
  }

  // The check bits the division leaves are the listed ones.
  lemma FormatIsListed(m: nat)
    requires m < 8
    ensures Joined(Raised(m, 10), Reduced(Raised(m, 10), FORMAT_POLY, 14, 10)) ^ FORMAT_MASK == FormatWord(m)
  {
    hide Raised, Reduced;
    RaisedFormat(m);
    FormatDivision(Raised(m, 10));
    if m == 0 {} else if m == 1 {} else if m == 2 {} else if m == 3 {} else if m == 4 {} else if m == 5 {} else if m == 6 {} else {}
  }

  lemma VersionIsListed(ver: nat)
    requires 7 <= ver <= 10
    ensures Joined(Raised(ver, 12), Reduced(Raised(ver, 12), VERSION_POLY, 17, 12)) == VersionWord(ver)
  {
    hide Raised, Reduced;
    RaisedVersion(ver);
    VersionDivision(Raised(ver, 12));
    if ver == 7 {} else if ver == 8 {} else if ver == 9 {} else {}
  }

  method FormatBits(mask: nat) returns (bits: Word)
    requires mask < 8
    ensures bits == FormatWord(mask)
  {
    hide Cleared, Reduced, Raised, Joined, FormatWord;
    var data := Raised(mask, 10);
    var bch := data;
    for i := 15 downto 10
      invariant Reduced(bch, FORMAT_POLY, i - 1, 10) == Reduced(data, FORMAT_POLY, 14, 10)
    {
      ReducedStep(bch, FORMAT_POLY, i, 10);
      bch := Cleared(bch, FORMAT_POLY, i, 10);
    }
    ReducedDone(bch, FORMAT_POLY, 10);
    FormatIsListed(mask);
    bits := Joined(data, bch) ^ FORMAT_MASK;
  }

  method VersionBits(ver: nat) returns (bits: Word)
    requires 7 <= ver <= 10
    ensures bits == VersionWord(ver)
  {
    hide Cleared, Reduced, Raised, Joined, VersionWord;
    var data := Raised(ver, 12);
    var bch := data;
    for i := 18 downto 12
      invariant Reduced(bch, VERSION_POLY, i - 1, 12) == Reduced(data, VERSION_POLY, 17, 12)
    {
      ReducedStep(bch, VERSION_POLY, i, 12);
      bch := Cleared(bch, VERSION_POLY, i, 12);
    }
    ReducedDone(bch, VERSION_POLY, 12);
    VersionIsListed(ver);
    bits := Joined(data, bch);
  }

  predicate On(bits: Word, i: nat)
    requires i < 32
  {
    bits & (1 << i) != 0
  }

  // The modules of a symbol once its format information is in.
  function Formatted(size: nat, m: nat, ink: Cell -> bool, c: Cell): bool {
    if 0 <= FormatIndex(size, c) < 15 then On(FormatWord(m), FormatIndex(size, c)) else ink(c)
  }

  // Both copies are written, on their own modules and no others.
  method WriteFormat(g: Grid, mask: nat)
    requires g.Valid() && IsSize(g.size) && g.size >= 21 && mask < 8
    modifies g, g.dark
    ensures g.Valid() && Inked(g.size, old(g.view), g.view, (c: Cell) => Formatted(g.size, mask, old(g.view).ink, c))
  {
    hide Grid.Valid, FormatWord, On, FirstIndex, FormatIndex;
    var bits := FormatBits(mask);
    WriteFirst(g, bits);
    WriteSecond(g, bits);
    CopiesAreApart(g.size);
  }

  lemma CopiesAreApart(s: nat)
    requires s >= 21
    ensures forall c: Cell {:trigger FormatIndex(s, c)} :: Inside(s, c) ==>
              FormatIndex(s, c) == if FirstIndex(c) >= 0 then FirstIndex(c) else SecondIndex(s, c)
    ensures forall c: Cell {:trigger FirstIndex(c)} :: FirstIndex(c) >= 0 ==> SecondIndex(s, c) < 0
  {
  }

  // The index of either copy alone; -1 off it.
  function FirstIndex(c: Cell): int {
    if c.y == 8 && 0 <= c.x <= 5 then c.x
    else if c == Cell(7, 8) then 6
    else if c == Cell(8, 8) then 7
    else if c == Cell(8, 7) then 8
    else if c.x == 8 && 0 <= c.y <= 5 then 14 - c.y
    else -1
  }

  function SecondIndex(s: nat, c: Cell): int {
    if c.y == 8 && s - 8 <= c.x < s then s - 1 - c.x
    else if c.x == 8 && s - 7 <= c.y < s then c.y - s + 15
    else -1
  }

  // Where bit i of either copy is written.
  function FirstCell(i: nat): Cell {
    if i <= 5 then Cell(i, 8) else if i == 6 then Cell(7, 8) else if i == 7 then Cell(8, 8) else if i == 8 then Cell(8, 7)
    else Cell(8, 14 - i)
  }

  function SecondCell(s: nat, i: nat): Cell {
    if i <= 7 then Cell(s - 1 - i, 8) else Cell(8, s - 15 + i)
  }

  lemma IndicesInvert(s: nat, i: nat)
    requires s >= 21 && i < 15
    ensures forall c: Cell {:trigger FirstIndex(c)} :: FirstIndex(c) == i <==> c == FirstCell(i)
    ensures forall c: Cell {:trigger SecondIndex(s, c)} :: SecondIndex(s, c) == i <==> c == SecondCell(s, i)
  {
  }

  method WriteFirst(g: Grid, bits: Word)
    requires g.Valid() && IsSize(g.size) && g.size >= 21
    modifies g, g.dark
    ensures g.Valid()
    ensures Inked(g.size, old(g.view), g.view,
                  (c: Cell) => if 0 <= FirstIndex(c) < 15 then On(bits, FirstIndex(c)) else old(g.view).ink(c))
  {
    hide Grid.Valid, On, FirstIndex;
    for i := 0 to 6
      invariant g.Valid()
      invariant Inked(g.size, old(g.view), g.view,
                      (c: Cell) => if 0 <= FirstIndex(c) < i then On(bits, FirstIndex(c)) else old(g.view).ink(c))
    {
      IndicesInvert(g.size, i);
      g.Ink(i, 8, On(bits, i));
    }
    IndicesInvert(g.size, 6);
    g.Ink(7, 8, On(bits, 6));
    IndicesInvert(g.size, 7);
    g.Ink(8, 8, On(bits, 7));
    IndicesInvert(g.size, 8);
    g.Ink(8, 7, On(bits, 8));
    for i := 9 to 15
      invariant g.Valid()
      invariant Inked(g.size, old(g.view), g.view,
                      (c: Cell) => if 0 <= FirstIndex(c) < i then On(bits, FirstIndex(c)) else old(g.view).ink(c))
    {
      IndicesInvert(g.size, i);
      g.Ink(8, 14 - i, On(bits, i));
    }
  }

  method WriteSecond(g: Grid, bits: Word)
    requires g.Valid() && IsSize(g.size) && g.size >= 21
    modifies g, g.dark
    ensures g.Valid()
    ensures Inked(g.size, old(g.view), g.view,
                  (c: Cell) => if 0 <= SecondIndex(g.size, c) < 15 then On(bits, SecondIndex(g.size, c)) else old(g.view).ink(c))
  {
    hide Grid.Valid, On, SecondIndex;
    var s := g.size;
    for i := 0 to 8
      invariant g.Valid()
      invariant Inked(s, old(g.view), g.view,
                      (c: Cell) => if 0 <= SecondIndex(s, c) < i then On(bits, SecondIndex(s, c)) else old(g.view).ink(c))
    {
      IndicesInvert(g.size, i);
      g.Ink(s - 1 - i, 8, On(bits, i));
    }
    for i := 8 to 15
      invariant g.Valid()
      invariant Inked(s, old(g.view), g.view,
                      (c: Cell) => if 0 <= SecondIndex(s, c) < i then On(bits, SecondIndex(s, c)) else old(g.view).ink(c))
    {
      IndicesInvert(g.size, i);
      g.Ink(8, s - 15 + i, On(bits, i));
    }
  }

  function Versioned(ver: nat, ink: Cell -> bool, c: Cell): bool {
    if VersionZone(ver, c) && VersionIndex(Size(ver), c) < 18 then On(VersionWord(ver), VersionIndex(Size(ver), c)) else ink(c)
  }

  lemma VersionIndexInverts(s: nat, i: nat)
    requires s >= 21 && i < 18
    ensures forall c: Cell {:trigger VersionIndex(s, c)} ::
              VersionIndex(s, c) == i <==> c == Cell(i / 3, s - 11 + i % 3) || c == Cell(s - 11 + i % 3, i / 3)
  {
  }

  method WriteVersion(g: Grid, ver: nat)
    requires g.Valid() && Built(ver) && g.size == Size(ver)
    modifies g, g.dark
    ensures g.Valid() && Inked(g.size, old(g.view), g.view, (c: Cell) => Versioned(ver, old(g.view).ink, c))
  {
    hide Grid.Valid, VersionWord, On, VersionIndex;
    if ver < 7 {
      return;
    }
    var bits := VersionBits(ver);
    var s := g.size;
    for i := 0 to 18
      invariant g.Valid()
      invariant Inked(s, old(g.view), g.view,
                      (c: Cell) => if 0 <= VersionIndex(s, c) < i then On(bits, VersionIndex(s, c)) else old(g.view).ink(c))
    {
      VersionIndexInverts(s, i);
      g.Ink(i / 3, s - 11 + i % 3, On(bits, i));
      g.Ink(s - 11 + i % 3, i / 3, On(bits, i));
    }
  }

  // ---------------------------------------------------------------- what a reader gets from them

  function Bit(on: bool): nat {
    if on then 1 else 0
  }

  // The mask number: bits 12, 11 and 10 of the format word as they stand in column 8 at the bottom,
  // the fixed mask taken off.
  function MaskRead(size: nat, ink: Cell -> bool): (m: nat)
    ensures m < 8
  {
    4 * Bit(!ink(Cell(8, size - 3))) + 2 * Bit(ink(Cell(8, size - 4))) + Bit(!ink(Cell(8, size - 5)))
  }

  lemma WordsSayTheMask(m: nat)
    requires m < 8
    ensures m == 4 * Bit(!On(FormatWord(m), 12)) + 2 * Bit(On(FormatWord(m), 11)) + Bit(!On(FormatWord(m), 10))
  {
    if m == 0 {} else if m == 1 {} else if m == 2 {} else if m == 3 {} else if m == 4 {} else if m == 5 {} else if m == 6 {} else {}
  }
}
