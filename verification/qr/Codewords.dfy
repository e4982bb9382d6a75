// The data half of a symbol and its interleaving with error correction, each with its reader.
module Codewords {
  import opened Prelude
  import opened Gf256
  import opened BitStream
  import opened Version
  import opened ReedSolomon

  // ---------------------------------------------------------------- the data half

  function Header(payload: seq<Byte>, ver: nat): (s: seq<bool>)
    ensures |s| == 8 * (1 + CountBits(ver) / 8 + |payload|)
  {
    NatBits(0x4, 4) + NatBits(|payload|, CountBits(ver)) + BitsOf(payload) + NatBits(0, 4)
  }

  function Pads(n: nat): (s: seq<Byte>)
    ensures |s| == n
  {
    seq(n, i => if i % 2 == 0 then 0xEC else 0x11)
  }

  // Mode, count, payload and terminator in whole codewords, then the two pad bytes in turn.
  function DataOf(payload: seq<Byte>, ver: nat): (data: seq<Byte>)
    requires Built(ver) && |payload| <= Capacity(ver)
    ensures |data| == DataCount(Of(ver))
  {
    var head := Pack(Header(payload, ver));
    head + Pads(DataCount(Of(ver)) - |head|)
  }

  // What a reader makes of the data half: the payload, or nothing if it is not byte mode or the
  // count runs past the end.
  function ReadPayload(data: seq<Byte>, ver: nat): Option<seq<Byte>> {
    var bits, width := BitsOf(data), CountBits(ver);
    if |bits| < 4 + width || NatOf(bits[..4]) != 0x4 then None
    else
      var end := 4 + width + 8 * NatOf(bits[4..4 + width]);
      if |bits| < end then None else Some(Pack(bits[4 + width..end]))
  }

  lemma CountFits(n: nat, ver: nat)
    requires Built(ver) && n <= Capacity(ver)
    ensures n < Pow2(CountBits(ver))
  {
    PowersOfTwo();
  }

  lemma PowersOfTwo()
    ensures Pow2(4) == 16 && Pow2(8) == 256 && Pow2(16) == 65536
  {
    assert Pow2(4) == 16;
    assert Pow2(8) == 256;
    assert Pow2(12) == 4096;
  }

  lemma PayloadIsRead(payload: seq<Byte>, ver: nat)
    requires Built(ver) && |payload| <= Capacity(ver)
    ensures ReadPayload(DataOf(payload, ver), ver) == Some(payload)
  {
    hide NatBits, NatOf, BitsOf, Pack, Pow2, Of;
    var head := Header(payload, ver);
    var width, data := CountBits(ver), DataOf(payload, ver);
    BitsOfPack(head);
    BitsOfAppend(Pack(head), data[|Pack(head)|..]);
    assert data == Pack(head) + data[|Pack(head)|..];
    var bits := BitsOf(data);
    assert bits[..|head|] == head;
    assert bits[..4] == head[..4] == NatBits(0x4, 4);
    assert bits[4..4 + width] == head[4..4 + width] == NatBits(|payload|, width);
    PowersOfTwo();
    NatRoundTrip(0x4, 4);
    CountFits(|payload|, ver);
    NatRoundTrip(|payload|, width);
    var end := 4 + width + 8 * |payload|;
    assert bits[4 + width..end] == head[4 + width..end] == BitsOf(payload);
    PackRoundTrip(payload);
  }

  method DataCodewords(payload: seq<Byte>, ver: nat) returns (data: seq<Byte>)
    requires Built(ver) && |payload| <= Capacity(ver)
    ensures data == DataOf(payload, ver)
  {
    hide NatBits, BitsOf, Pack, FirstBits, ClearFrom, Of, Pads, DataCount;
    var v, width := Of(ver), CountBits(ver);
    var w := new BitWriter();
    w.Write(0x4, 4);
    w.Write(|payload|, width);
    assert w.Bits() == NatBits(0x4, 4) + NatBits(|payload|, width);
    WritePayload(w, payload);
    var capacity := DataCount(v) * 8;
    w.Write(0, if capacity - w.nbits < 4 then capacity - w.nbits else 4);
    assert w.Bits() == Header(payload, ver);
    FillOctet(w);
    assert w.Bits() == Header(payload, ver);
    WholeBytes(w);
    PadOut(w, DataCount(v));
    data := w.bytes;
  }

  method WritePayload(w: BitWriter, payload: seq<Byte>)
    requires w.Valid()
    modifies w
    ensures w.Valid() && w.Bits() == old(w.Bits()) + BitsOf(payload)
  {
    hide NatBits, BitsOf, FirstBits, ClearFrom, BitWriter.Valid, Value;
    BitsOfNone();
    for k := 0 to |payload|
      invariant w.Valid() && w.Bits() == old(w.Bits()) + BitsOf(payload[..k])
    {
      w.Write(Value(payload[k]), 8);
      ByteBits(payload[k]);
      BitsOfAppend(payload[..k], [payload[k]]);
      assert payload[..k + 1] == payload[..k] + [payload[k]];
    }
    assert payload[..|payload|] == payload;
  }

  // The two pad bytes in turn until there are n bytes.
  method PadOut(w: BitWriter, n: nat)
    requires |w.bytes| <= n
    modifies w
    ensures w.bytes == old(w.bytes) + Pads(n - old(|w.bytes|))
  {
    var i := 0;
    while |w.bytes| < n
      invariant w.bytes == old(w.bytes) + Pads(i) && |w.bytes| <= n
      decreases n - |w.bytes|
    {
      assert Pads(i + 1) == Pads(i) + [if i % 2 == 0 then 0xEC else 0x11];
      w.bytes := w.bytes + [if i % 2 == 0 then 0xEC else 0x11];
      i := i + 1;
    }
  }

  lemma BitsOfNone()
    ensures BitsOf([]) == []
  {
  }

  // Zero bits up to the next codeword boundary: none when the writer stands on one.
  method FillOctet(w: BitWriter)
    requires w.Valid()
    modifies w
    ensures w.Valid() && w.nbits % 8 == 0 && old(w.nbits) <= w.nbits < old(w.nbits) + 8
    ensures w.Bits()[..old(w.nbits)] == old(w.Bits())
    ensures forall i :: old(w.nbits) <= i < w.nbits ==> !w.Bits()[i]
  {
    hide ClearFrom, FirstBits, NatBit;
    while w.nbits % 8 != 0
      invariant w.Valid() && old(w.nbits) <= w.nbits <= (old(w.nbits) + 7) / 8 * 8
      invariant w.Bits()[..old(w.nbits)] == old(w.Bits())
      invariant forall i :: old(w.nbits) <= i < w.nbits ==> !w.Bits()[i]
      decreases (old(w.nbits) + 7) / 8 * 8 - w.nbits
    {
      ZeroBit();
      w.Write(0, 1);
    }
  }

  lemma ZeroBit()
    ensures NatBits(0, 1) == [false]
  {
    assert !NatBit(0, 0);
  }

  lemma WholeBytes(w: BitWriter)
    requires w.Valid() && w.nbits % 8 == 0
    ensures w.bytes == Pack(w.Bits())
  {
    PackRoundTrip(w.bytes);
    assert w.Bits() == BitsOf(w.bytes);
  }

  // ---------------------------------------------------------------- interleaving

  // Where block j starts in the data, and how long it is.
  function Start(v: Version, j: nat): nat {
    if j < v.group1Blocks then j * v.group1Data
    else v.group1Blocks * v.group1Data + (j - v.group1Blocks) * v.group2Data
  }

  function Length(v: Version, j: nat): nat {
    if j < v.group1Blocks then v.group1Data else v.group2Data
  }

  lemma MulStep(a: nat, d: nat)
    ensures (a + 1) * d == a * d + d
  {
  }

  lemma MulMono(a: nat, b: nat, d: nat)
    requires a <= b
    ensures 0 <= a * d <= b * d
  {
  }

  lemma BlockEnds(v: Version, j: nat)
    requires j < Blocks(v)
    ensures Start(v, j) + Length(v, j) == Start(v, j + 1) <= DataCount(v)
  {
    var g, d, g', d' := v.group1Blocks, v.group1Data, v.group2Blocks, v.group2Data;
    MulMono(0, g', d');
    if j < g {
      MulStep(j, d);
      MulMono(j + 1, g, d);
    } else {
      MulStep(j - g, d');
      MulMono(j + 1 - g, g', d');
    }
  }

  function Block(data: seq<Byte>, v: Version, j: nat): (b: seq<Byte>)
    requires |data| == DataCount(v) && j < Blocks(v)
    ensures |b| == Length(v, j)
  {
    BlockEnds(v, j);
    data[Start(v, j)..Start(v, j) + Length(v, j)]
  }

  lemma BlockIs(data: seq<Byte>, v: Version, j: nat)
    requires |data| == DataCount(v) && j < Blocks(v)
    ensures Start(v, j) + Length(v, j) <= |data| && Block(data, v, j) == data[Start(v, j)..Start(v, j) + Length(v, j)]
  {
    hide DataCount, Start, Length;
    BlockEnds(v, j);
  }

  function Split(data: seq<Byte>, v: Version, n: nat): (s: seq<seq<Byte>>)
    requires |data| == DataCount(v) && n <= Blocks(v)
    ensures |s| == n && forall j :: 0 <= j < n ==> s[j] == Block(data, v, j)
  {
    seq(n, j requires 0 <= j < n => Block(data, v, j))
  }

  function Checks(data: seq<Byte>, v: Version, n: nat): (s: seq<seq<Byte>>)
    requires |data| == DataCount(v) && n <= Blocks(v)
    ensures |s| == n && forall j :: 0 <= j < n ==> s[j] == Check(Block(data, v, j), v.ecPerBlock)
  {
    seq(n, j requires 0 <= j < n => Check(Block(data, v, j), v.ecPerBlock))
  }

  lemma SplitMore(data: seq<Byte>, v: Version, n: nat)
    requires |data| == DataCount(v) && n < Blocks(v)
    ensures Split(data, v, n + 1) == Split(data, v, n) + [Block(data, v, n)]
    ensures Checks(data, v, n + 1) == Checks(data, v, n) + [Check(Block(data, v, n), v.ecPerBlock)]
  {
    hide DataCount, Check, Block;
  }

  // Entry i of each of the first j blocks that have one.
  function Column(blocks: seq<seq<Byte>>, i: nat, j: nat): seq<Byte>
    requires j <= |blocks|
  {
    if j == 0 then []
    else Column(blocks, i, j - 1) + (if i < |blocks[j - 1]| then [blocks[j - 1][i]] else [])
  }

  function Columns(blocks: seq<seq<Byte>>, n: nat): seq<Byte> {
    if n == 0 then [] else Columns(blocks, n - 1) + Column(blocks, n - 1, |blocks|)
  }

  function Longest(v: Version): nat {
    if v.group2Data > v.group1Data then v.group2Data else v.group1Data
  }

  function Interleaved(data: seq<Byte>, v: Version): seq<Byte>
    requires |data| == DataCount(v)
  {
    Columns(Split(data, v, Blocks(v)), Longest(v)) + Columns(Checks(data, v, Blocks(v)), v.ecPerBlock)
  }

  // One group's blocks, cut off the data from `at` on and each given its error correction.
  method AddGroup(t: Tables, data: seq<Byte>, v: Version, at: nat, n: nat, length: nat, blocks: seq<seq<Byte>>, ecs: seq<seq<Byte>>)
    returns (at': nat, blocks': seq<seq<Byte>>, ecs': seq<seq<Byte>>)
    requires IsTables(t) && v.ecPerBlock <= 512
    requires |data| == DataCount(v) && |blocks| + n <= Blocks(v) && at == Start(v, |blocks|)
    requires forall j :: |blocks| <= j < |blocks| + n ==> Length(v, j) == length
    requires blocks == Split(data, v, |blocks|) && ecs == Checks(data, v, |blocks|)
    ensures at' == Start(v, |blocks'|) && |blocks'| == |blocks| + n
    ensures blocks' == Split(data, v, |blocks'|) && ecs' == Checks(data, v, |blocks'|)
  {
    hide Check, Start, DataCount, Length, Eval, Exp, Split, Checks, Block, IsTables;
    at', blocks', ecs' := at, blocks, ecs;
    for i := 0 to n
      invariant |blocks'| == |blocks| + i && at' == Start(v, |blocks'|)
      invariant blocks' == Split(data, v, |blocks'|) && ecs' == Checks(data, v, |blocks'|)
    {
      BlockEnds(v, |blocks'|);
      SplitMore(data, v, |blocks'|);
      var b := data[at'..at' + length];
      BlockIs(data, v, |blocks'|);
      at' := at' + length;
      blocks' := blocks' + [b];
      var ec := RsEncode(t, b, v.ecPerBlock);
      ecs' := ecs' + [ec];
    }
  }

  method Interleave(t: Tables, data: seq<Byte>, ver: nat) returns (out: seq<Byte>)
    requires IsTables(t) && Built(ver) && |data| == DataCount(Of(ver))
    ensures out == Interleaved(data, Of(ver))
  {
    var v := Of(ver);
    assert v.ecPerBlock <= 512;
    hide Check, Of, Block, DataCount, Split, Checks, Start, Columns, IsTables;
    NothingSplit(data, v);
    var at, blocks, ecs := AddGroup(t, data, v, 0, v.group1Blocks, v.group1Data, [], []);
    at, blocks, ecs := AddGroup(t, data, v, at, v.group2Blocks, v.group2Data, blocks, ecs);
    var longest := v.group1Data;
    if v.group2Data > longest {
      longest := v.group2Data;
    }
    assert blocks == Split(data, v, Blocks(v)) && ecs == Checks(data, v, Blocks(v)) && longest == Longest(v);
    var front := ReadColumns(blocks, longest);
    var back := ReadColumns(ecs, v.ecPerBlock);
    out := front + back;
  }

  lemma NothingSplit(data: seq<Byte>, v: Version)
    requires |data| == DataCount(v)
    ensures Start(v, 0) == 0 && Split(data, v, 0) == [] && Checks(data, v, 0) == []
  {
  }

  // The nested loop that reads blocks column by column.
  method ReadColumns(blocks: seq<seq<Byte>>, n: nat) returns (out: seq<Byte>)
    ensures out == Columns(blocks, n)
  {
    out := [];
    for i := 0 to n
      invariant out == Columns(blocks, i)
    {
      for j := 0 to |blocks|
        invariant out == Columns(blocks, i) + Column(blocks, i, j)
      {
        if i < |blocks[j]| {
          out := out + [blocks[j][i]];
        }
      }
    }
  }

  // ---------------------------------------------------------------- reading it back

  // Blocks of d entries, those from g on one longer.
  predicate Shaped(blocks: seq<seq<Byte>>, g: nat, d: nat) {
    g <= |blocks| && forall j :: 0 <= j < |blocks| ==> |blocks[j]| == if j < g then d else d + 1
  }

  lemma {:induction false} ShortColumn(blocks: seq<seq<Byte>>, g: nat, d: nat, i: nat, j: nat)
    requires Shaped(blocks, g, d) && i < d && j <= |blocks|
    ensures |Column(blocks, i, j)| == j && forall k :: 0 <= k < j ==> Column(blocks, i, j)[k] == blocks[k][i]
  {
    if j > 0 { ShortColumn(blocks, g, d, i, j - 1); }
  }

  lemma {:induction false} LastColumn(blocks: seq<seq<Byte>>, g: nat, d: nat, j: nat)
    requires Shaped(blocks, g, d) && j <= |blocks|
    ensures |Column(blocks, d, j)| == if j > g then j - g else 0
    ensures forall k :: g <= k < j ==> Column(blocks, d, j)[k - g] == blocks[k][d]
  {
    if j > 0 { LastColumn(blocks, g, d, j - 1); }
  }

  lemma {:induction false} ColumnsLength(blocks: seq<seq<Byte>>, g: nat, d: nat, n: nat)
    requires Shaped(blocks, g, d) && n <= d
    ensures |Columns(blocks, n)| == n * |blocks|
  {
    hide Shaped, Column;
    if n > 0 {
      ColumnsLength(blocks, g, d, n - 1);
      ShortColumn(blocks, g, d, n - 1, |blocks|);
      MulStep(n - 1, |blocks|);
    }
  }

  lemma {:induction false} ColumnsAt(blocks: seq<seq<Byte>>, g: nat, d: nat, n: nat, i: nat, j: nat)
    requires Shaped(blocks, g, d) && i < n <= d && j < |blocks|
    ensures i < |blocks[j]| && 0 <= i * |blocks| + j < |Columns(blocks, n)|
    ensures Columns(blocks, n)[i * |blocks| + j] == blocks[j][i]
    decreases n
  {
    hide Column;
    ShortColumn(blocks, g, d, n - 1, |blocks|);
    ColumnsLength(blocks, g, d, n - 1);
    if i < n - 1 { ColumnsAt(blocks, g, d, n - 1, i, j); }
  }

  // Where entry i of block j stands in the symbol's codewords, and entry i of its check.
  function DataPlace(v: Version, i: nat, j: nat): int {
    if i < v.group1Data then i * Blocks(v) + j else v.group1Data * Blocks(v) + (j - v.group1Blocks)
  }

  function CheckPlace(v: Version, i: nat, j: nat): nat {
    DataCount(v) + i * Blocks(v) + j
  }

  // A version's blocks differ by at most one entry, the longer ones last.
  predicate Even(v: Version) {
    v.group1Blocks > 0 && v.group1Data > 0
    && (v.group2Blocks > 0 ==> v.group2Data == v.group1Data + 1) && (v.group2Blocks == 0 ==> v.group2Data == 0)
  }

  lemma SplitShape(data: seq<Byte>, v: Version)
    requires |data| == DataCount(v) && Even(v)
    ensures Shaped(Split(data, v, Blocks(v)), v.group1Blocks, v.group1Data)
    ensures DataCount(v) == v.group1Data * Blocks(v) + v.group2Blocks
    ensures |Columns(Split(data, v, Blocks(v)), Longest(v))| == DataCount(v)
  {
    hide Block, Column;
    var blocks, g, d := Split(data, v, Blocks(v)), v.group1Blocks, v.group1Data;
    ColumnsLength(blocks, g, d, d);
    LastColumn(blocks, g, d, |blocks|);
    Evened(v);
  }

  lemma Evened(v: Version)
    requires Even(v)
    ensures DataCount(v) == v.group1Data * Blocks(v) + v.group2Blocks
  {
    if v.group2Blocks > 0 { MulStep(v.group1Data, v.group2Blocks); }
  }

  // Every entry of every block stands at its place ...
  lemma DataAt(data: seq<Byte>, v: Version, i: nat, j: nat)
    requires |data| == DataCount(v) && Even(v) && j < Blocks(v) && i < Length(v, j)
    ensures 0 <= DataPlace(v, i, j) < DataCount(v) <= |Interleaved(data, v)|
    ensures Interleaved(data, v)[DataPlace(v, i, j)] == Block(data, v, j)[i]
  {
    hide Block, Column, DataCount;
    var blocks, g, d := Split(data, v, Blocks(v)), v.group1Blocks, v.group1Data;
    SplitShape(data, v);
    if i < d {
      ColumnsAt(blocks, g, d, d, i, j);
      ColumnsLength(blocks, g, d, d);
    } else {
      ColumnsLength(blocks, g, d, d);
      LastColumn(blocks, g, d, |blocks|);
    }
  }

  // ... and so does every entry of its check.
  lemma CheckAt(data: seq<Byte>, v: Version, i: nat, j: nat)
    requires |data| == DataCount(v) && Even(v) && j < Blocks(v) && i < v.ecPerBlock
    ensures CheckPlace(v, i, j) < |Interleaved(data, v)| == TotalCount(v)
    ensures Interleaved(data, v)[CheckPlace(v, i, j)] == Check(Block(data, v, j), v.ecPerBlock)[i]
  {
    hide Block, Column, Columns, DataCount, Check;
    var ecs, n := Checks(data, v, Blocks(v)), v.ecPerBlock;
    SplitShape(data, v);
    ColumnsAt(ecs, |ecs|, n, n, i, j);
    InterleavedLength(data, v);
  }

  lemma InterleavedLength(data: seq<Byte>, v: Version)
    requires |data| == DataCount(v) && Even(v)
    ensures |Interleaved(data, v)| == TotalCount(v)
  {
    hide Block, Column, Columns, DataCount, Check;
    var ecs, n := Checks(data, v, Blocks(v)), v.ecPerBlock;
    SplitShape(data, v);
    ColumnsLength(ecs, |ecs|, n, n);
  }

  // The block that data codeword k falls in.
  function Owner(v: Version, k: nat): nat
    requires Even(v) && k < DataCount(v)
  {
    if k < v.group1Blocks * v.group1Data then k / v.group1Data
    else v.group1Blocks + (k - v.group1Blocks * v.group1Data) / (v.group1Data + 1)
  }

  lemma OwnerHolds(v: Version, k: nat)
    requires Even(v) && k < DataCount(v)
    ensures Owner(v, k) < Blocks(v) && Start(v, Owner(v, k)) <= k < Start(v, Owner(v, k)) + Length(v, Owner(v, k))
  {
    var j, d := Owner(v, k), v.group1Data;
    if k < v.group1Blocks * d {
      QuotientBelow(k, d, v.group1Blocks);
    } else {
      var rest := k - v.group1Blocks * d;
      assert v.group2Blocks > 0;
      assert rest < v.group2Blocks * (d + 1);
      QuotientBelow(rest, d + 1, v.group2Blocks);
    }
  }

  lemma QuotientBelow(k: nat, d: nat, n: nat)
    requires d > 0 && k < n * d
    ensures k / d < n && (k / d) * d <= k < (k / d) * d + d
  {
    var q := k / d;
    if q >= n { MulMono(n, q, d); }
  }

  // Where a reader finds data codeword k.
  function Source(v: Version, k: nat): int
    requires Even(v) && k < DataCount(v)
  {
    OwnerHolds(v, k);
    DataPlace(v, k - Start(v, Owner(v, k)), Owner(v, k))
  }

  // A reader's inverse, from the data codewords alone.
  function Deinterleaved(codewords: seq<Byte>, v: Version): (data: seq<Byte>)
    requires Even(v)
    ensures |data| == DataCount(v)
  {
    seq(DataCount(v), k requires 0 <= k < DataCount(v) => if 0 <= Source(v, k) < |codewords| then codewords[Source(v, k)] else 0)
  }

  lemma SourceIsRight(data: seq<Byte>, v: Version, k: nat)
    requires |data| == DataCount(v) && Even(v) && k < DataCount(v)
    ensures 0 <= Source(v, k) < |Interleaved(data, v)| && Interleaved(data, v)[Source(v, k)] == data[k]
  {
    hide Interleaved, DataPlace, DataCount, Start, Length, Owner;
    OwnerHolds(v, k);
    var j := Owner(v, k);
    DataAt(data, v, k - Start(v, j), j);
    BlockEnds(v, j);
  }

  lemma InterleavingIsUndone(data: seq<Byte>, v: Version)
    requires |data| == DataCount(v) && Even(v)
    ensures Deinterleaved(Interleaved(data, v), v) == data
  {
    hide Interleaved, Source, DataCount;
    forall k | 0 <= k < |data| ensures Deinterleaved(Interleaved(data, v), v)[k] == data[k] { SourceIsRight(data, v, k); }
  }
}
