// The whole symbol: what Encode builds, and the reader that undoes it.
module Symbol {
  import opened Prelude
  import opened Gf256
  import opened BitStream
  import opened Version
  import ReedSolomon
  import RsDistance
  import opened Codewords
  import opened Zigzag
  import opened Patterns
  import opened Room
  import opened Placement
  import opened Masking
  import opened Penalty

  datatype TooLong = TooLong

  datatype Code = Code(size: nat, version: nat, modules: seq<seq<bool>>)

  // Out of range is light.
  predicate Dark(code: Code, c: Cell) {
    0 <= c.y < |code.modules| && 0 <= c.x < |code.modules[c.y]| && code.modules[c.y][c.x]
  }

  // ---------------------------------------------------------------- what is drawn

  function DataModules(ver: nat): (s: seq<Cell>)
    requires Built(ver)
  {
    Free(ver, Path(Size(ver)))
  }

  function IndexIn(cells: seq<Cell>, c: Cell): (i: nat)
    requires c in cells
    ensures i < |cells| && cells[i] == c
  {
    if cells[0] == c then 0 else 1 + IndexIn(cells[1..], c)
  }

  // Patterns and data before masking.
  function Base(ver: nat, codewords: seq<Byte>, c: Cell): bool
    requires Built(ver)
  {
    if c in DataModules(ver) then Stream(codewords, IndexIn(DataModules(ver), c)) else PatternDark(ver, c)
  }

  // The module at c of the symbol with mask m.
  function Drawn(ver: nat, codewords: seq<Byte>, m: nat, c: Cell): bool
    requires Built(ver)
  {
    var view := View((d: Cell) => Base(ver, codewords, d), (d: Cell) => ReservedAt(ver, d));
    Versioned(ver, (d: Cell) => Formatted(Size(ver), m, (e: Cell) => Masked(view, m, e), d), c)
  }

  function DrawnSymbol(ver: nat, codewords: seq<Byte>, m: nat): seq<seq<bool>>
    requires Built(ver)
  {
    Picture(Size(ver), (c: Cell) => Drawn(ver, codewords, m, c))
  }

  function DrawnCode(ver: nat, codewords: seq<Byte>, m: nat): Code
    requires Built(ver)
  {
    Code(Size(ver), ver, DrawnSymbol(ver, codewords, m))
  }

  // ---------------------------------------------------------------- the reader

  // The data modules' bits with the mask taken off.
  function ReadBits(code: Code, ver: nat): (bits: seq<bool>)
    requires Built(ver)
    ensures |bits| == |DataModules(ver)|
  {
    var m, cells := MaskRead(Size(ver), (c: Cell) => Dark(code, c)), DataModules(ver);
    seq(|cells|, i requires 0 <= i < |cells| => Dark(code, cells[i]) != Marked(m, cells[i]))
  }

  // From the modules alone: version from the size, mask from the format word, data bits in
  // placement order, blocks put back together, the header parsed.
  function Decode(code: Code): Option<seq<Byte>> {
    if code.size < 21 || code.size > 57 || code.size % 4 != 1 then None
    else
      var ver := (code.size - 17) / 4;
      var bits, n := ReadBits(code, ver), 8 * TotalCount(Of(ver));
      if |bits| < n then None else ReadPayload(Deinterleaved(Pack(bits[..n]), Of(ver)), ver)
  }

  // ---------------------------------------------------------------- reading back

  lemma OnlyDataIsUnreserved(ver: nat, c: Cell)
    requires Built(ver) && Inside(Size(ver), c)
    ensures c in DataModules(ver) <==> !ReservedAt(ver, c)
  {
    hide Path, Free, FinderZone, FormatIndex, AlignmentZone, VersionZone;
    FreeMembers(ver, Path(Size(ver)), c);
    EveryModuleOnce(Size(ver), c);
    if c.x == 6 { ColumnSixIsReserved(ver, c); }
  }

  lemma ColumnSixIsReserved(ver: nat, c: Cell)
    requires Built(ver) && Inside(Size(ver), c) && c.x == 6
    ensures ReservedAt(ver, c)
  {
    hide AlignmentZone, VersionZone;
  }

  lemma DataModuleIsInside(ver: nat, c: Cell)
    requires Built(ver)
    ensures c in DataModules(ver) ==> Inside(Size(ver), c) && !ReservedAt(ver, c)
  {
    hide ReservedAt, Path, Free;
    FreeMembers(ver, Path(Size(ver)), c);
    EveryModuleOnce(Size(ver), c);
  }

  lemma IndexIsRight(cells: seq<Cell>, i: nat)
    requires NoRepeats(cells) && i < |cells|
    ensures IndexIn(cells, cells[i]) == i
  {
  }

  lemma UnreservedIsPlain(ver: nat, c: Cell)
    requires Built(ver) && !ReservedAt(ver, c)
    ensures !VersionZone(ver, c) && FormatIndex(Size(ver), c) < 0
  {
    hide FinderZone, AlignmentZone, FormatIndex, VersionZone, TimingZone;
  }

  lemma DataBitIsDrawn(ver: nat, codewords: seq<Byte>, m: nat, i: nat)
    requires Built(ver)
    ensures i < |DataModules(ver)| ==>
              var c := DataModules(ver)[i]; Drawn(ver, codewords, m, c) == (Stream(codewords, i) != Marked(m, c))
  {
    hide ReservedAt, DataModules, Stream, Marked, PatternDark, VersionZone, FormatIndex, IndexIn;
    if i < |DataModules(ver)| {
      var c := DataModules(ver)[i];
      DataModuleIsInside(ver, c);
      UnreservedIsPlain(ver, c);
      DataHasNoRepeats(ver);
      IndexIsRight(DataModules(ver), i);
    }
  }

  lemma DataHasNoRepeats(ver: nat)
    requires Built(ver)
    ensures NoRepeats(DataModules(ver))
  {
    hide Free, ReservedAt, Walk;
    WalkNoRepeats(Size(ver), Pairs(Size(ver)), 0);
    FreeNoRepeats(ver, Path(Size(ver)));
  }

  lemma MaskIsDrawn(ver: nat, codewords: seq<Byte>, m: nat)
    requires Built(ver) && m < 8
    ensures MaskRead(Size(ver), (c: Cell) => Drawn(ver, codewords, m, c)) == m
  {
    hide Base, FormatWord, On, Masked;
    WordsSayTheMask(m);
  }

  lemma SymbolShows(ver: nat, codewords: seq<Byte>, m: nat, c: Cell)
    requires Built(ver) && Inside(Size(ver), c)
    ensures Dark(DrawnCode(ver, codewords, m), c) == Drawn(ver, codewords, m, c)
  {
    hide Drawn;
  }

  // A drawn symbol gives its codewords back.
  lemma BitsAreRead(ver: nat, codewords: seq<Byte>, m: nat)
    requires Built(ver) && m < 8 && |codewords| == TotalCount(Of(ver))
    ensures var bits := ReadBits(DrawnCode(ver, codewords, m), ver);
            |bits| >= 8 * |codewords| && Pack(bits[..8 * |codewords|]) == codewords
  {
    hide Drawn, DataModules, Marked, Of, BitAt, Pack, TotalCount, MaskRead, DrawnCode;
    var code := DrawnCode(ver, codewords, m);
    EveryBitHasAModule(ver);
    assert |DataModules(ver)| >= 8 * |codewords| by { ModulesAreFree(ver); }
    var n := 8 * |codewords|;
    MaskReads(ver, codewords, m);
    forall i | 0 <= i < n ensures ReadBits(code, ver)[i] == BitsOf(codewords)[i] {
      DataModuleIsInside(ver, DataModules(ver)[i]);
      DataBitIsDrawn(ver, codewords, m, i);
      SymbolShows(ver, codewords, m, DataModules(ver)[i]);
    }
    assert ReadBits(code, ver)[..n] == BitsOf(codewords);
    PackRoundTrip(codewords);
  }

  lemma ModulesAreFree(ver: nat)
    requires Built(ver)
    ensures DataModules(ver) == Free(ver, Path(Size(ver)))
  {
  }

  lemma MaskReads(ver: nat, codewords: seq<Byte>, m: nat)
    requires Built(ver) && m < 8
    ensures MaskRead(Size(ver), (c: Cell) => Dark(DrawnCode(ver, codewords, m), c)) == m
  {
    hide Drawn, Dark, DrawnCode;
    MaskIsDrawn(ver, codewords, m);
    SymbolShows(ver, codewords, m, Cell(8, Size(ver) - 3));
    SymbolShows(ver, codewords, m, Cell(8, Size(ver) - 4));
    SymbolShows(ver, codewords, m, Cell(8, Size(ver) - 5));
  }

  function CodewordsOf(payload: seq<Byte>, ver: nat): (codewords: seq<Byte>)
    requires Built(ver) && |payload| <= Capacity(ver)
  {
    Interleaved(DataOf(payload, ver), Of(ver))
  }

  // The reader undoes the writer, whatever the mask.
  lemma SymbolIsRead(payload: seq<Byte>, ver: nat, m: nat)
    requires Built(ver) && |payload| <= Capacity(ver) && m < 8
    ensures Decode(DrawnCode(ver, CodewordsOf(payload, ver), m)) == Some(payload)
  {
    hide DrawnSymbol, Of, ReadBits, Pack, ReadPayload, Deinterleaved, Interleaved, DataOf, TotalCount, Capacity, Even, DataModules;
    VersionIsEven(ver);
    var codewords := CodewordsOf(payload, ver);
    InterleavedLength(DataOf(payload, ver), Of(ver));
    InterleavingIsUndone(DataOf(payload, ver), Of(ver));
    PayloadIsRead(payload, ver);
    BitsAreRead(ver, codewords, m);
    assert (DrawnCode(ver, codewords, m).size - 17) / 4 == ver;
  }

  lemma VersionIsEven(ver: nat)
    requires Built(ver)
    ensures Even(Of(ver))
  {
  }

  // What masking and the late writes leave alone: every reserved module outside the format and
  // version areas is as the patterns drew it, the dark module among them.
  lemma PatternsSurvive(ver: nat, codewords: seq<Byte>, m: nat, c: Cell)
    requires Built(ver) && Inside(Size(ver), c) && ReservedAt(ver, c) && FormatIndex(Size(ver), c) < 0 && !VersionZone(ver, c)
    ensures Drawn(ver, codewords, m, c) == PatternDark(ver, c)
  {
    hide DataModules, ReservedAt, PatternDark, FormatIndex, VersionZone, Stream, Marked;
    OnlyDataIsUnreserved(ver, c);
  }

  // No bit of the format or version information falls on the dark module, and no mask reaches it.
  lemma DarkModuleIsDark(ver: nat, codewords: seq<Byte>, m: nat)
    requires Built(ver)
    ensures Drawn(ver, codewords, m, DarkModule(Size(ver)))
    ensures FormatIndex(Size(ver), DarkModule(Size(ver))) == -1 && VersionIndex(Size(ver), DarkModule(Size(ver))) == -1
  {
    hide Drawn, AlignmentZone;
    PatternsSurvive(ver, codewords, m, DarkModule(Size(ver)));
  }

  // The two copies of the format information agree, bit for bit, and name the mask applied.
  lemma CopiesAgree(ver: nat, codewords: seq<Byte>, m: nat, i: nat)
    requires Built(ver) && i < 15
    ensures Drawn(ver, codewords, m, FirstCell(i)) == Drawn(ver, codewords, m, SecondCell(Size(ver), i)) == On(FormatWord(m), i)
  {
    hide Base, Masked, On, FormatWord;
  }

  // Symbols of one version for different payloads differ somewhere by more than a block's check
  // codewords can repair.
  lemma DifferentPayloadsAreFarApart(p: seq<Byte>, q: seq<Byte>, ver: nat)
    requires Built(ver) && |p| <= Capacity(ver) && |q| <= Capacity(ver) && p != q
    ensures exists j: nat ::
              && j < Blocks(Of(ver))
              && var b, c := Block(DataOf(p, ver), Of(ver), j), Block(DataOf(q, ver), Of(ver), j);
                 RsDistance.Differences(b + ReedSolomon.Check(b, Of(ver).ecPerBlock), c + ReedSolomon.Check(c, Of(ver).ecPerBlock))
                 >= Of(ver).ecPerBlock + 1
  {
    hide Capacity, DataOf, Of, Owner, ReedSolomon.Check, DataCount, Start, Length, ReadPayload, RsDistance.Differences, Even;
    var v, a, b := Of(ver), DataOf(p, ver), DataOf(q, ver);
    PayloadIsRead(p, ver);
    PayloadIsRead(q, ver);
    assert a != b;
    var k :| 0 <= k < |a| && a[k] != b[k];
    VersionIsEven(ver);
    OwnerHolds(v, k);
    var j := Owner(v, k);
    BlockIs(a, v, j);
    BlockIs(b, v, j);
    assert Block(a, v, j)[k - Start(v, j)] != Block(b, v, j)[k - Start(v, j)];
    BlockFitsTheField(ver, j);
    RsDistance.BlocksDiffer(Block(a, v, j), Block(b, v, j), v.ecPerBlock);
  }

  lemma BlockFitsTheField(ver: nat, j: nat)
    requires Built(ver)
    ensures Length(Of(ver), j) + Of(ver).ecPerBlock <= 255
  {
    BlocksFitTheField(ver);
  }

  // ---------------------------------------------------------------- the writer

  // No mask scores less than m, and no lower mask as little.
  ghost predicate Best(ver: nat, codewords: seq<Byte>, m: nat)
    requires Built(ver)
  {
    && m < 8
    && (forall k: nat {:trigger ScoreOf(ver, codewords, k)} :: k < 8 ==> ScoreOf(ver, codewords, m) <= ScoreOf(ver, codewords, k))
    && (forall k: nat {:trigger ScoreOf(ver, codewords, k)} :: k < m ==> ScoreOf(ver, codewords, m) < ScoreOf(ver, codewords, k))
  }

  lemma SymbolIsSquare(ver: nat, codewords: seq<Byte>, m: nat)
    requires Built(ver)
    ensures var rows := DrawnSymbol(ver, codewords, m); Square(rows) && 7 <= |rows| <= 57
  {
    hide Drawn;
  }

  function ScoreOf(ver: nat, codewords: seq<Byte>, m: nat): nat
    requires Built(ver)
  {
    SymbolIsSquare(ver, codewords, m);
    Score(DrawnSymbol(ver, codewords, m))
  }

  method DrawBase(codewords: seq<Byte>, ver: nat) returns (g: Grid)
    requires Built(ver)
    ensures Holds(g, ver) && fresh(g) && fresh(g.dark) && fresh(g.reserved)
    ensures Shows(g, ver, codewords)
  {
    hide ReservedAt, Free, Stream, PatternDark, IndexIn;
    g := new Grid(Size(ver));
    g.FunctionPatterns(ver);
    ghost var patterned := g.view;
    PlaceData(g, codewords, ver);
    forall c: Cell | Inside(g.size, c) ensures g.view.ink(c) == Base(ver, codewords, c) {
      var cells := DataModules(ver);
      OnlyDataIsUnreserved(ver, c);
      if c in cells { assert cells[IndexIn(cells, c)] == c; }
    }
  }

  // A grid showing the unmasked symbol.
  ghost predicate Shows(g: Grid, ver: nat, codewords: seq<Byte>)
    reads g
    requires Built(ver)
  {
    forall c: Cell {:trigger g.view.ink(c)} :: Inside(g.size, c) ==> g.view.ink(c) == Base(ver, codewords, c)
  }

  // One mask on a copy of the unmasked symbol, with its format and version information.
  method Finish(base: Grid, ver: nat, m: nat, ghost codewords: seq<Byte>) returns (rows: seq<seq<bool>>)
    requires Holds(base, ver) && m < 8 && Shows(base, ver, codewords)
    ensures rows == DrawnSymbol(ver, codewords, m)
  {
    hide ReservedAt, Base, Marked, FormatIndex, VersionIndex, VersionZone, On, FormatWord, VersionWord, Grid.Valid, Picture;
    SizeIsOdd(base, ver);
    var g := new Grid.Clone(base);
    ApplyMask(g, m);
    WriteFormat(g, m);
    WriteVersion(g, ver);
    rows := g.Rows();
    SamePicture(g.size, g.view.ink, (c: Cell) => Drawn(ver, codewords, m, c));
  }

  lemma SamePicture(size: nat, f: Cell -> bool, h: Cell -> bool)
    requires forall c: Cell :: Inside(size, c) ==> f(c) == h(c)
    ensures Picture(size, f) == Picture(size, h)
  {
    forall y | 0 <= y < size ensures PictureRow(size, f, y) == PictureRow(size, h, y) {
      forall x | 0 <= x < size ensures f(Cell(x, y)) == h(Cell(x, y)) {}
    }
  }

  // The smallest symbol that holds payload, under the mask of least penalty; a reader gets the
  // payload back.
  method Encode(payload: seq<Byte>) returns (r: Result<Code, TooLong>)
    ensures r.Err? <==> |payload| > 213
    ensures r.Ok? ==> Decode(r.value) == Some(payload)
    ensures r.Ok? ==> Some(r.value.version) == SmallestVersion(|payload|) && r.value.size == Size(r.value.version)
    ensures r.Ok? ==>
              exists m: nat ::
                && Best(r.value.version, CodewordsOf(payload, r.value.version), m)
                && r.value.modules == DrawnSymbol(r.value.version, CodewordsOf(payload, r.value.version), m)
  {
    hide Decode, DrawnSymbol, CodewordsOf, Capacity, Base, Drawn, Best, Interleaved, DataOf, Of, DataCount, TotalCount;
    var fit := SmallestVersion(|payload|);
    if fit.None? {
      return Err(TooLong);
    }
    var ver := fit.value;
    var data := DataCodewords(payload, ver);
    var tables := InitTables();
    var codewords := Interleave(tables, data, ver);
    IsCodewords(payload, ver);
    var base := DrawBase(codewords, ver);
    var best := ChooseMask(base, ver, codewords);
    BestIsAMask(ver, codewords, best);
    var rows := Finish(base, ver, best, codewords);
    r := Ok(Code(Size(ver), ver, rows));
    SymbolIsRead(payload, ver, best);
  }

  lemma BestIsAMask(ver: nat, codewords: seq<Byte>, m: nat)
    requires Built(ver) && Best(ver, codewords, m)
    ensures m < 8
  {
  }

  const START: nat := 0x4000_0000_0000_0000

  // One mask drawn on a copy and scored.
  method Try(base: Grid, ver: nat, m: nat, ghost codewords: seq<Byte>) returns (score: nat)
    requires Holds(base, ver) && m < 8 && Shows(base, ver, codewords)
    ensures score == ScoreOf(ver, codewords, m) && score < START
  {
    hide DrawnSymbol, Base, Holds, Shows, Score;
    var rows := Finish(base, ver, m, codewords);
    SizeIsOdd(base, ver);
    SymbolIsSquare(ver, codewords, m);
    ScoreIsSmall(rows);
    score := Penalise(rows);
  }

  // Of the first n masks, best scores least and is the first to.
  ghost predicate Leads(ver: nat, codewords: seq<Byte>, best: nat, bestScore: nat, n: nat)
    requires Built(ver)
  {
    && best < n && bestScore == ScoreOf(ver, codewords, best)
    && (forall k: nat {:trigger ScoreOf(ver, codewords, k)} :: k < n ==> bestScore <= ScoreOf(ver, codewords, k))
    && (forall k: nat {:trigger ScoreOf(ver, codewords, k)} :: k < best ==> bestScore < ScoreOf(ver, codewords, k))
  }

  lemma LeadStep(ver: nat, codewords: seq<Byte>, best: int, bestScore: nat, n: nat)
    requires Built(ver) && (n > 0 ==> best >= 0 && Leads(ver, codewords, best, bestScore, n))
    ensures var score := ScoreOf(ver, codewords, n);
            if n == 0 || score < bestScore then Leads(ver, codewords, n, score, n + 1)
            else best >= 0 && Leads(ver, codewords, best, bestScore, n + 1)
  {
    hide ScoreOf;
  }

  lemma LeaderIsBest(ver: nat, codewords: seq<Byte>, best: nat, bestScore: nat)
    requires Built(ver) && Leads(ver, codewords, best, bestScore, 8)
    ensures Best(ver, codewords, best)
  {
    hide ScoreOf;
  }

  // All eight masks tried on copies, the first of the least penalty kept.
  method ChooseMask(base: Grid, ver: nat, codewords: seq<Byte>) returns (chosen: nat)
    requires Holds(base, ver) && Shows(base, ver, codewords)
    ensures Best(ver, codewords, chosen)
  {
    SizeIsOdd(base, ver);
    hide DrawnSymbol, Base, Holds, Shows, ScoreOf, Leads, Best;
    var best, bestScore := -1, START;
    for m := 0 to 8
      invariant Holds(base, ver) && Built(ver) && Shows(base, ver, codewords)
      invariant m == 0 ==> bestScore == START
      invariant m > 0 ==> best >= 0 && Leads(ver, codewords, best, bestScore, m)
    {
      var score := Try(base, ver, m, codewords);
      LeadStep(ver, codewords, best, bestScore, m);
      if score < bestScore {
        best, bestScore := m, score;
      }
    }
    chosen := best;
    LeaderIsBest(ver, codewords, chosen, bestScore);
  }

  lemma IsCodewords(payload: seq<Byte>, ver: nat)
    requires Built(ver) && |payload| <= Capacity(ver)
    ensures CodewordsOf(payload, ver) == Interleaved(DataOf(payload, ver), Of(ver))
  {
  }
}
