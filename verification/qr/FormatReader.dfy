// The format information as a reader of ISO/IEC 18004:2015 takes it from a drawn symbol: where
// section 7.9.1 puts either copy, the BCH code that repairs up to three modules of it, and what
// either copy is read as.
module FormatReader {
  import Gf256
  import opened Version
  import opened Zigzag
  import opened Patterns
  import opened Masking
  import opened Symbol

  // Bit i of the copy at the upper left: down column 8, then leftwards along row 8.
  function PrintedFirst(i: nat): Cell {
    if i <= 5 then Cell(8, i) else if i == 6 then Cell(8, 7) else if i == 7 then Cell(8, 8) else if i == 8 then Cell(7, 8)
    else Cell(14 - i, 8)
  }

  // Bit i of the divided copy: leftwards along row 8 from the right edge, then down column 8.
  function PrintedSecond(size: nat, i: nat): Cell {
    if i <= 7 then Cell(size - 1 - i, 8) else Cell(8, size - 15 + i)
  }

  // ---------------------------------------------------------------- the code

  // Five data bits, lowest first: three of the mask, two of the level.
  datatype Data = Data(a: bool, b: bool, c: bool, d: bool, e: bool)

  const NOTHING := Data(false, false, false, false, false)

  function Sum(p: Data, q: Data): Data {
    Data((p.a != q.a), (p.b != q.b), (p.c != q.c), (p.d != q.d), (p.e != q.e))
  }

  // Bit i of a word of the code: its parity equations.
  function CodeBit(p: Data, i: nat): bool {
    if i == 0 then ((p.a != p.c) != p.e)
    else if i == 1 then ((((p.a != p.b) != p.c) != p.d) != p.e)
    else if i == 2 then ((p.a != p.b) != p.d)
    else if i == 3 then ((p.b != p.c) != p.e)
    else if i == 4 then ((p.a != p.d) != p.e)
    else if i == 5 then ((p.a != p.b) != p.c)
    else if i == 6 then ((p.b != p.c) != p.d)
    else if i == 7 then ((p.c != p.d) != p.e)
    else if i == 8 then ((p.a != p.c) != p.d)
    else if i == 9 then ((p.b != p.d) != p.e)
    else if i == 10 then p.a
    else if i == 11 then p.b
    else if i == 12 then p.c
    else if i == 13 then p.d
    else p.e
  }

  // Bit i of the word sent, with the fixed mask 101010000010010 on it.
  predicate Sent(p: Data, i: nat) {
    CodeBit(p, i) != (i == 1 || i == 4 || i == 10 || i == 12 || i == 14)
  }

  // In how many of the first k places a reading differs from the word for p.
  function Apart(bit: nat -> bool, p: Data, k: nat): nat {
    if k == 0 then 0 else Apart(bit, p, k - 1) + Bit(bit(k - 1) != Sent(p, k - 1))
  }

  function SentAs(p: Data): nat -> bool {
    (i: nat) => Sent(p, i)
  }

  lemma {:induction false} Triangle(bit: nat -> bool, p: Data, q: Data, k: nat)
    ensures Apart(SentAs(p), q, k) <= Apart(bit, p, k) + Apart(bit, q, k)
  {
    hide Sent;
    if k > 0 { Triangle(bit, p, q, k - 1); }
  }

  lemma {:induction false} SameReading(bit: nat -> bool, bit': nat -> bool, p: Data, k: nat)
    requires forall i: nat :: i < k ==> bit(i) == bit'(i)
    ensures Apart(bit, p, k) == Apart(bit', p, k)
  {
    hide Sent;
    if k > 0 { SameReading(bit, bit', p, k - 1); }
  }

  // How many of the first k bits of a word of the code are set.
  function Ones(p: Data, k: nat): nat {
    if k == 0 then 0 else Ones(p, k - 1) + Bit(CodeBit(p, k - 1))
  }

  lemma CodeIsLinear(p: Data, q: Data, i: nat)
    ensures (CodeBit(p, i) != CodeBit(q, i)) == CodeBit(Sum(p, q), i)
  {
    if i < 5 { LinearLow(p, q, i); } else if i < 10 { LinearMiddle(p, q, i); } else { LinearHigh(p, q, i); }
  }

  lemma LinearLow(p: Data, q: Data, i: nat)
    requires i < 5
    ensures (CodeBit(p, i) != CodeBit(q, i)) == CodeBit(Sum(p, q), i)
  {
  }

  lemma LinearMiddle(p: Data, q: Data, i: nat)
    requires 5 <= i < 10
    ensures (CodeBit(p, i) != CodeBit(q, i)) == CodeBit(Sum(p, q), i)
  {
  }

  lemma LinearHigh(p: Data, q: Data, i: nat)
    requires i >= 10
    ensures (CodeBit(p, i) != CodeBit(q, i)) == CodeBit(Sum(p, q), i)
  {
  }

  lemma {:induction false} DifferenceIsAWord(p: Data, q: Data, k: nat)
    ensures Apart(SentAs(p), q, k) == Ones(Sum(p, q), k)
  {
    hide CodeBit, Sum;
    if k > 0 {
      DifferenceIsAWord(p, q, k - 1);
      CodeIsLinear(p, q, k - 1);
    }
  }

  lemma FiveMore(p: Data, k: nat)
    ensures Ones(p, k + 5) == Ones(p, k) + Bit(CodeBit(p, k)) + Bit(CodeBit(p, k + 1)) + Bit(CodeBit(p, k + 2))
                              + Bit(CodeBit(p, k + 3)) + Bit(CodeBit(p, k + 4))
  {
    hide CodeBit;
    assert Ones(p, k + 2) == Ones(p, k) + Bit(CodeBit(p, k)) + Bit(CodeBit(p, k + 1));
    assert Ones(p, k + 4) == Ones(p, k + 2) + Bit(CodeBit(p, k + 2)) + Bit(CodeBit(p, k + 3));
  }

  // No word of the code but the empty one has fewer than seven bits.
  lemma SevenOnes(p: Data)
    requires p != NOTHING
    ensures Ones(p, 15) >= 7
  {
    FiveMore(p, 0);
    FiveMore(p, 5);
    FiveMore(p, 10);
    hide Ones;
  }

  // Any two of the 32 words differ in seven places or more.
  lemma SevenApart(p: Data, q: Data)
    requires p != q
    ensures Apart(SentAs(p), q, 15) >= 7
  {
    hide Ones, Apart, Sent;
    DifferenceIsAWord(p, q, 15);
    SevenOnes(Sum(p, q));
  }

  // A reader takes a copy for p when at most three of its modules differ from the word for p.
  predicate TakenFor(bit: nat -> bool, p: Data) {
    Apart(bit, p, 15) <= 3
  }

  lemma TakenForOne(bit: nat -> bool, p: Data, q: Data)
    requires TakenFor(bit, p) && TakenFor(bit, q)
    ensures p == q
  {
    hide Apart;
    Triangle(bit, p, q, 15);
    if p != q { SevenApart(p, q); }
  }

  // What the encoder means by mask m: level M, whose two bits are 0.
  function LevelM(m: nat): Data {
    Data(m % 2 == 1, m / 2 % 2 == 1, m / 4 % 2 == 1, false, false)
  }

  predicate SameWord(w: Word, p: Data) {
    && On(w, 0) == Sent(p, 0) && On(w, 1) == Sent(p, 1) && On(w, 2) == Sent(p, 2)
    && On(w, 3) == Sent(p, 3) && On(w, 4) == Sent(p, 4) && On(w, 5) == Sent(p, 5)
    && On(w, 6) == Sent(p, 6) && On(w, 7) == Sent(p, 7) && On(w, 8) == Sent(p, 8)
    && On(w, 9) == Sent(p, 9) && On(w, 10) == Sent(p, 10) && On(w, 11) == Sent(p, 11)
    && On(w, 12) == Sent(p, 12) && On(w, 13) == Sent(p, 13) && On(w, 14) == Sent(p, 14)
  }

  lemma WordsAreSent(m: nat)
    requires m < 8
    ensures SameWord(FormatWord(m), LevelM(m))
  {
    if m < 4 { FirstFour(m); } else { LastFour(m); }
  }

  lemma FirstFour(m: nat)
    requires m < 4
    ensures SameWord(FormatWord(m), LevelM(m))
  {
    if m == 0 {} else if m == 1 {} else if m == 2 {} else {}
  }

  lemma LastFour(m: nat)
    requires 4 <= m < 8
    ensures SameWord(FormatWord(m), LevelM(m))
  {
    if m == 4 {} else if m == 5 {} else if m == 6 {} else {}
  }

  // The words of the other levels, as annex C lists them: L is 01, H 10 and Q 11.
  function WordL(m: nat): Word {
    if m == 0 then 0x77C4 else if m == 1 then 0x72F3 else if m == 2 then 0x7DAA else if m == 3 then 0x789D
    else if m == 4 then 0x662F else if m == 5 then 0x6318 else if m == 6 then 0x6C41 else 0x6976
  }

  function WordH(m: nat): Word {
    if m == 0 then 0x1689 else if m == 1 then 0x13BE else if m == 2 then 0x1CE7 else if m == 3 then 0x19D0
    else if m == 4 then 0x0762 else if m == 5 then 0x0255 else if m == 6 then 0x0D0C else 0x083B
  }

  function WordQ(m: nat): Word {
    if m == 0 then 0x355F else if m == 1 then 0x3068 else if m == 2 then 0x3F31 else if m == 3 then 0x3A06
    else if m == 4 then 0x24B4 else if m == 5 then 0x2183 else if m == 6 then 0x2EDA else 0x2BED
  }

  lemma LevelLIsSent(m: nat)
    requires m < 8
    ensures SameWord(WordL(m), LevelM(m).(d := true, e := false))
  {
    if m == 0 {} else if m == 1 {} else if m == 2 {} else if m == 3 {} else if m == 4 {} else if m == 5 {} else if m == 6 {} else {}
  }

  lemma LevelHIsSent(m: nat)
    requires m < 8
    ensures SameWord(WordH(m), LevelM(m).(d := false, e := true))
  {
    if m == 0 {} else if m == 1 {} else if m == 2 {} else if m == 3 {} else if m == 4 {} else if m == 5 {} else if m == 6 {} else {}
  }

  lemma LevelQIsSent(m: nat)
    requires m < 8
    ensures SameWord(WordQ(m), LevelM(m).(d := true, e := true))
  {
    if m == 0 {} else if m == 1 {} else if m == 2 {} else if m == 3 {} else if m == 4 {} else if m == 5 {} else if m == 6 {} else {}
  }

  // The parity equations give all 32 words listed.
  lemma ListedIsSent(m: nat)
    requires m < 8
    ensures SameWord(FormatWord(m), LevelM(m)) && SameWord(WordL(m), LevelM(m).(d := true))
    ensures SameWord(WordH(m), LevelM(m).(e := true)) && SameWord(WordQ(m), LevelM(m).(d := true, e := true))
  {
    hide SameWord, WordL, WordH, WordQ, FormatWord;
    WordsAreSent(m);
    LevelLIsSent(m);
    LevelHIsSent(m);
    LevelQIsSent(m);
  }

  lemma SameBit(w: Word, p: Data, i: nat)
    requires SameWord(w, p) && i < 15
    ensures On(w, i) == Sent(p, i)
  {
    hide On, Sent;
  }

  // ---------------------------------------------------------------- what is read

  // The copies as a reader finds them in the modules of a symbol.
  function FirstCopy(code: Code): nat -> bool {
    (i: nat) => Dark(code, PrintedFirst(i))
  }

  function SecondCopy(code: Code): nat -> bool {
    (i: nat) => Dark(code, PrintedSecond(code.size, i))
  }

  lemma CopiesShow(ver: nat, codewords: seq<Gf256.Byte>, m: nat, i: nat)
    requires Built(ver) && m < 8 && i < 15
    ensures var code := DrawnCode(ver, codewords, m);
            && FirstCopy(code)(i) == Sent(LevelM(m), 14 - i)
            && SecondCopy(code)(i) == Sent(LevelM(m), i)
  {
    hide Drawn, Dark, On, FormatWord, DrawnSymbol, SameWord, Sent;
    CopiesAgree(ver, codewords, m, i);
    CopiesAgree(ver, codewords, m, 14 - i);
    SymbolShows(ver, codewords, m, PrintedFirst(i));
    SymbolShows(ver, codewords, m, PrintedSecond(Size(ver), i));
    WordsAreSent(m);
    SameBit(FormatWord(m), LevelM(m), i);
    SameBit(FormatWord(m), LevelM(m), 14 - i);
  }

  lemma {:induction false} ReadsItself(p: Data, k: nat)
    ensures Apart(SentAs(p), p, k) == 0
  {
    hide Sent;
    if k > 0 { ReadsItself(p, k - 1); }
  }

  // The divided copy stands where a reader looks for it: read without a fault, and for level M and
  // the mask applied alone.
  lemma SecondCopyIsRead(ver: nat, codewords: seq<Gf256.Byte>, m: nat)
    requires Built(ver) && m < 8
    ensures var bit := SecondCopy(DrawnCode(ver, codewords, m));
            && (forall i: nat :: i < 15 ==> bit(i) == On(FormatWord(m), i))
            && forall p :: TakenFor(bit, p) <==> p == LevelM(m)
  {
    var bit := SecondCopy(DrawnCode(ver, codewords, m));
    WordsAreSent(m);
    forall i: nat | i < 15 ensures bit(i) == SentAs(LevelM(m))(i) && bit(i) == On(FormatWord(m), i) {
      CopiesShow(ver, codewords, m, i);
      SameBit(FormatWord(m), LevelM(m), i);
    }
    hide Sent, SecondCopy, LevelM;
    SameReading(bit, SentAs(LevelM(m)), LevelM(m), 15);
    ReadsItself(LevelM(m), 15);
    forall p | TakenFor(bit, p) ensures p == LevelM(m) { TakenForOne(bit, p, LevelM(m)); }
  }

  // What the copy at the upper left is taken for, by the mask it was written for: level Q (11), H
  // (10), Q, Q, M (00) with mask 6, Q, M with mask 4, and H.
  function Mistaken(m: nat): Data {
    if m == 0 then Data(false, false, true, true, true) else if m == 1 then Data(true, false, true, false, true)
    else if m == 2 then Data(false, true, false, true, true) else if m == 3 then Data(true, true, true, true, true)
    else if m == 4 then Data(false, true, true, false, false) else if m == 5 then Data(true, false, true, true, true)
    else if m == 6 then Data(false, false, true, false, false) else Data(false, false, false, false, true)
  }

  function Turned(p: Data): nat -> bool {
    (i: nat) => i < 15 && Sent(p, 14 - i)
  }

  // In how many of the five places from k on a reading differs from the word for p.
  function Faults(bit: nat -> bool, p: Data, k: nat): nat {
    Bit(bit(k) != Sent(p, k)) + Bit(bit(k + 1) != Sent(p, k + 1)) + Bit(bit(k + 2) != Sent(p, k + 2))
    + Bit(bit(k + 3) != Sent(p, k + 3)) + Bit(bit(k + 4) != Sent(p, k + 4))
  }

  lemma FiveApart(bit: nat -> bool, p: Data, k: nat)
    ensures Apart(bit, p, k + 5) == Apart(bit, p, k) + Faults(bit, p, k)
  {
    hide Sent;
    assert Apart(bit, p, k + 2) == Apart(bit, p, k) + Bit(bit(k) != Sent(p, k)) + Bit(bit(k + 1) != Sent(p, k + 1));
    assert Apart(bit, p, k + 4) == Apart(bit, p, k + 2) + Bit(bit(k + 2) != Sent(p, k + 2)) + Bit(bit(k + 3) != Sent(p, k + 3));
  }

  lemma ApartIsFaults(bit: nat -> bool, p: Data)
    ensures Apart(bit, p, 15) == Faults(bit, p, 0) + Faults(bit, p, 5) + Faults(bit, p, 10)
  {
    hide Faults;
    assert Apart(bit, p, 0) == 0;
    FiveApart(bit, p, 0);
    FiveApart(bit, p, 5);
    FiveApart(bit, p, 10);
  }

  lemma MistakenFirst(m: nat)
    requires m < 3
    ensures Faults(Turned(LevelM(m)), Mistaken(m), 0) + Faults(Turned(LevelM(m)), Mistaken(m), 5)
            + Faults(Turned(LevelM(m)), Mistaken(m), 10) == 3
  {
    if m == 0 {} else if m == 1 {} else {}
  }

  lemma MistakenNext(m: nat)
    requires 3 <= m < 6
    ensures Faults(Turned(LevelM(m)), Mistaken(m), 0) + Faults(Turned(LevelM(m)), Mistaken(m), 5)
            + Faults(Turned(LevelM(m)), Mistaken(m), 10) == 3
  {
    if m == 3 {} else if m == 4 {} else {}
  }

  lemma MistakenLast(m: nat)
    requires 6 <= m < 8
    ensures Faults(Turned(LevelM(m)), Mistaken(m), 0) + Faults(Turned(LevelM(m)), Mistaken(m), 5)
            + Faults(Turned(LevelM(m)), Mistaken(m), 10) == 3
  {
    if m == 6 {} else {}
  }

  lemma NeverItself(m: nat)
    requires m < 8
    ensures Mistaken(m) != LevelM(m)
  {
  }

  // The copy at the upper left is written with its bits in the opposite order. A reader who looks for
  // it where the standard puts it never reads the word of the mask applied: it is three modules from
  // the word of another level or another mask, and is taken for that one and no other.
  lemma FirstCopyIsMisread(ver: nat, codewords: seq<Gf256.Byte>, m: nat)
    requires Built(ver) && m < 8
    ensures var bit := FirstCopy(DrawnCode(ver, codewords, m));
            && (forall i: nat :: i < 15 ==> bit(i) == On(FormatWord(m), 14 - i))
            && (forall p :: TakenFor(bit, p) <==> p == Mistaken(m))
            && Mistaken(m) != LevelM(m)
  {
    var bit := FirstCopy(DrawnCode(ver, codewords, m));
    WordsAreSent(m);
    forall i: nat | i < 15 ensures bit(i) == Turned(LevelM(m))(i) && bit(i) == On(FormatWord(m), 14 - i) {
      CopiesShow(ver, codewords, m, i);
      SameBit(FormatWord(m), LevelM(m), 14 - i);
    }
    if m < 3 { MistakenFirst(m); } else if m < 6 { MistakenNext(m); } else { MistakenLast(m); }
    ApartIsFaults(Turned(LevelM(m)), Mistaken(m));
    NeverItself(m);
    hide Sent, FirstCopy, Turned, Apart, LevelM, Mistaken, Faults;
    SameReading(bit, Turned(LevelM(m)), Mistaken(m), 15);
    forall p | TakenFor(bit, p) ensures p == Mistaken(m) { TakenForOne(bit, p, Mistaken(m)); }
  }
}
