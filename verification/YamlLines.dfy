// Which line of the configuration file an error names.
module YamlLines {
  import opened Prelude
  import opened Segments
  import opened Yaml
  import opened YamlScalars

  // ---------------------------------------------------------------- what the scan keeps and refuses

  // Blank, or nothing before a comment.
  predicate Skipped(raw: string) {
    AllBlank(raw) || exists n :: 0 <= n < |raw| && AllBlank(raw[..n]) && raw[n] == '#'
  }

  // The leading spaces of a line, and what a line refused has after them.
  predicate Indented(raw: string, n: int) {
    0 <= n < |raw| && (forall i :: 0 <= i < n ==> raw[i] == ' ') && raw[n] != ' '
  }

  predicate Refused(raw: string) {
    !Skipped(raw) && exists n :: 0 <= n < |raw| && Indented(raw, n) && (raw[n] == '\t' || HasPrefix(raw[n..], "---") || HasPrefix(raw[n..], "..."))
  }

  // What is left of a line: its indent and its trailing blanks taken off.
  predicate Body(raw: string, n: int, text: string) {
    && Indented(raw, n) && text != "" && text <= raw[n..] && !IsLineEnd(text[|text| - 1])
    && forall i :: n + |text| <= i < |raw| ==> IsLineEnd(raw[i])
  }

  lemma {:induction false} TrimRightMeans(s: string)
    ensures var t := TrimRight(s);
            && t <= s && (t != "" ==> !IsLineEnd(t[|t| - 1])) && forall i :: |t| <= i < |s| ==> IsLineEnd(s[i])
    decreases |s|
  {
    if s != "" && IsLineEnd(s[|s| - 1]) { TrimRightMeans(s[..|s| - 1]); }
  }

  lemma {:induction false} SpacesMeans(s: string)
    ensures var n := Spaces(s); (forall i :: 0 <= i < n ==> s[i] == ' ') && (n < |s| ==> s[n] != ' ')
    decreases |s|
  {
    if s != "" && s[0] == ' ' { SpacesMeans(s[1..]); }
  }

  lemma {:induction false} LeftStartsAt(s: string)
    ensures !AllBlank(s) ==>
              exists n :: 0 <= n < |s| && AllBlank(s[..n]) && !IsSpace(s[n]) && TrimSpaceLeft(s) == s[n..]
    decreases |s|
  {
    hide IsSpace;
    if s != "" && IsSpace(s[0]) {
      LeftStartsAt(s[1..]);
      if !AllBlank(s) {
        assert !AllBlank(s[1..]) by {
          forall k | 0 <= k < |s| - 1 ensures s[1..][k] == s[k + 1] {}
        }
        var n :| 0 <= n < |s[1..]| && AllBlank(s[1..][..n]) && !IsSpace(s[1..][n]) && TrimSpaceLeft(s[1..]) == s[1..][n..];
        forall k | 0 < k < n + 1 ensures IsSpace(s[k]) { assert s[k] == s[1..][..n][k - 1]; }
        assert AllBlank(s[..n + 1]) && s[n + 1..] == s[1..][n..];
      }
    } else if s != "" {
      assert AllBlank(s[..0]) && s[0..] == s;
    }
  }

  lemma {:induction false} RightKeepsHead(s: string)
    requires s != "" && !IsSpace(s[0])
    ensures TrimSpaceRight(s) != "" && TrimSpaceRight(s)[0] == s[0]
    decreases |s|
  {
    hide IsSpace;
    if IsSpace(s[|s| - 1]) { RightKeepsHead(s[..|s| - 1]); }
  }

  lemma EndsAreBlanks(c: char)
    ensures IsLineEnd(c) ==> IsSpace(c)
    ensures !IsSpace('#')
  {
  }

  lemma SameBlank(raw: string, text: string)
    requires text <= raw && forall i :: |text| <= i < |raw| ==> IsLineEnd(raw[i])
    ensures AllBlank(raw) <==> AllBlank(text)
  {
    hide IsSpace;
    forall i | 0 <= i < |raw| ensures if i < |text| then raw[i] == text[i] else IsSpace(raw[i]) { EndsAreBlanks(raw[i]); }
  }

  lemma HeadOfTrimmed(text: string) returns (n: int)
    requires !AllBlank(text)
    ensures 0 <= n < |text| && AllBlank(text[..n]) && !IsSpace(text[n]) && TrimSpace(text) != "" && TrimSpace(text)[0] == text[n]
  {
    hide IsSpace, TrimSpaceRight, TrimSpaceLeft;
    LeftStartsAt(text);
    n :| 0 <= n < |text| && AllBlank(text[..n]) && !IsSpace(text[n]) && TrimSpaceLeft(text) == text[n..];
    RightKeepsHead(text[n..]);
  }

  lemma SkippedMeans(raw: string)
    ensures Skipped(raw) <==> TrimSpace(TrimRight(raw)) == "" || HasPrefix(TrimSpace(TrimRight(raw)), "#")
  {
    hide IsSpace, TrimRight, TrimSpace, IsLineEnd;
    var text := TrimRight(raw);
    TrimRightMeans(raw);
    TrimsAwayIff(text);
    SameBlank(raw, text);
    if !AllBlank(text) {
      var n := HeadOfTrimmed(text);
      assert raw[..n] == text[..n] && raw[n] == text[n];
      SkippedAtInk(raw, n);
      hide Skipped, AllBlank;
    }
  }

  lemma SkippedAtInk(raw: string, n: int)
    requires 0 <= n < |raw| && AllBlank(raw[..n]) && !IsSpace(raw[n])
    ensures Skipped(raw) <==> raw[n] == '#'
  {
    hide IsSpace;
    EndsAreBlanks('#');
    forall j | 0 <= j < |raw| && AllBlank(raw[..j]) && raw[j] == '#' ensures j == n { FirstInk(raw, j, n); }
  }

  lemma FirstInk(raw: string, j: int, n: int)
    requires 0 <= j < |raw| && 0 <= n < |raw| && AllBlank(raw[..j]) && AllBlank(raw[..n]) && !IsSpace(raw[j]) && !IsSpace(raw[n])
    ensures j == n
  {
    hide IsSpace;
    forall k | 0 <= k < n ensures IsSpace(raw[k]) { assert raw[k] == raw[..n][k]; }
    forall k | 0 <= k < j ensures IsSpace(raw[k]) { assert raw[k] == raw[..j][k]; }
  }

  lemma IndentIsOne(raw: string, j: int, n: int)
    requires Indented(raw, j) && Indented(raw, n)
    ensures j == n
  {
  }

  // A line that is not skipped, in the terms of the scan.
  lemma KeptMeans(raw: string)
    requires !Skipped(raw)
    ensures var text := TrimRight(raw);
            var n := Spaces(text);
            && n < |text| && Body(raw, n, text[n..])
            && (Refused(raw) <==> text[n] == '\t' || HasPrefix(text[n..], "---") || HasPrefix(text[n..], "..."))
  {
    hide IsSpace, TrimRight, TrimSpace, IsLineEnd;
    var text := TrimRight(raw);
    var n := Spaces(text);
    SkippedMeans(raw);
    TrimsAwayIff(text);
    TrimRightMeans(raw);
    SpacesMeans(text);
    SpaceIsBlank();
    assert n == |text| ==> AllBlank(text);
    assert raw[n] == text[n] && text[n..] <= raw[n..];
    forall j | Indented(raw, j) ensures j == n { IndentIsOne(raw, j, n); }
    MarksAreInk();
    MarkIsInText(raw, text, n, "---");
    MarkIsInText(raw, text, n, "...");
    hide Spaces, Skipped, HasPrefix;
  }

  lemma SpaceIsBlank()
    ensures IsSpace(' ')
  {
  }

  lemma MarksAreInk()
    ensures !IsLineEnd('-') && !IsLineEnd('.')
  {
  }

  lemma MarkIsInText(raw: string, text: string, n: nat, mark: string)
    requires text <= raw && n < |text| && (forall i :: |text| <= i < |raw| ==> IsLineEnd(raw[i]))
    requires |mark| == 3 && forall i :: 0 <= i < 3 ==> !IsLineEnd(mark[i])
    ensures HasPrefix(text[n..], mark) <==> HasPrefix(raw[n..], mark)
  {
    hide IsLineEnd;
    if HasPrefix(raw[n..], mark) {
      assert raw[n + 2] == raw[n..][..3][2] == mark[2];
      assert text[n..][..3] == raw[n..][..3];
    }
    if HasPrefix(text[n..], mark) { assert text[n..][..3] == raw[n..][..3]; }
  }

  predicate Rising(lines: seq<Line>) {
    forall i, j :: 0 <= i < j < |lines| ==> lines[i].num < lines[j].num
  }

  // One line kept of the raw ones numbered from num.
  predicate LineOf(raws: seq<string>, num: nat, l: Line) {
    num <= l.num < num + |raws| && !Skipped(raws[l.num - num]) && Body(raws[l.num - num], l.indent, l.text)
  }

  ghost predicate Numbered(lines: seq<Line>, n: nat) {
    exists l :: l in lines && l.num == n
  }

  // The lines kept are those not skipped, each with its number, its indent and the rest of it.
  ghost predicate Kept(raws: seq<string>, num: nat, lines: seq<Line>) {
    && Rising(lines)
    && (forall l :: l in lines ==> LineOf(raws, num, l))
    && (forall i: nat :: i < |raws| && !Skipped(raws[i]) ==> Numbered(lines, num + i))
  }

  ghost predicate FirstRefused(raws: seq<string>, i: int) {
    0 <= i < |raws| && Refused(raws[i]) && forall j :: 0 <= j < i ==> !Refused(raws[j])
  }

  // The scan refuses the file at the first line refused, and otherwise keeps every line not skipped.
  lemma {:induction false} ScanMeans(raws: seq<string>, num: nat)
    ensures match Scanned(raws, num)
            case Err(k) => k >= num && FirstRefused(raws, k - num)
            case Ok(lines) => (forall i :: 0 <= i < |raws| ==> !Refused(raws[i])) && Kept(raws, num, lines)
    decreases |raws|
  {
    hide Skipped, Refused, Body, TrimRight, TrimSpace, HasPrefix;
    if raws != [] {
      ScanMeans(raws[1..], num + 1);
      SkippedMeans(raws[0]);
      NotBoth(raws[0]);
      if !Skipped(raws[0]) { KeptMeans(raws[0]); }
      var rest := Scanned(raws[1..], num + 1);
      if rest.Ok? && Scanned(raws, num).Ok? { KeptOneMore(raws, num, rest.value, Scanned(raws, num).value); }
    }
  }

  lemma NotBoth(raw: string)
    ensures !(Skipped(raw) && Refused(raw))
  {
  }

  lemma KeptOneMore(raws: seq<string>, num: nat, rest: seq<Line>, lines: seq<Line>)
    requires raws != [] && Kept(raws[1..], num + 1, rest)
    requires if Skipped(raws[0]) then lines == rest else exists l :: lines == [l] + rest && l.num == num && Body(raws[0], l.indent, l.text)
    ensures Kept(raws, num, lines)
  {
    hide Skipped, Body, Rising, Numbered;
    forall l | l in rest ensures LineOf(raws, num, l) && l.num > num { LineShifts(raws, num, l); }
    forall i: nat | i < |raws| && !Skipped(raws[i]) ensures Numbered(lines, num + i) {
      if i == 0 {
        assert lines[0] in lines && lines[0].num == num;
        IsNumbered(lines, lines[0]);
      } else {
        assert raws[1..][i - 1] == raws[i];
        assert Numbered(rest, num + 1 + (i - 1));
        StillNumbered(lines, rest, num + i);
      }
    }
    RisesOn(lines, rest, num);
  }

  lemma LineShifts(raws: seq<string>, num: nat, l: Line)
    requires raws != [] && LineOf(raws[1..], num + 1, l)
    ensures LineOf(raws, num, l) && l.num > num
  {
    hide Skipped, Body;
    assert raws[1..][l.num - (num + 1)] == raws[l.num - num];
  }

  lemma IsNumbered(lines: seq<Line>, l: Line)
    requires l in lines
    ensures Numbered(lines, l.num)
  {
  }

  lemma StillNumbered(lines: seq<Line>, rest: seq<Line>, n: nat)
    requires Numbered(rest, n) && forall l :: l in rest ==> l in lines
    ensures Numbered(lines, n)
  {
  }

  lemma RisesOn(lines: seq<Line>, rest: seq<Line>, num: nat)
    requires Rising(rest) && (forall l :: l in rest ==> l.num > num)
    requires lines == rest || exists l :: lines == [l] + rest && l.num == num
    ensures Rising(lines)
  {
    if lines != rest {
      forall a, b | 0 <= a < b < |lines| ensures lines[a].num < lines[b].num { assert lines[b] == rest[b - 1]; }
    }
  }

  // ---------------------------------------------------------------- the parser stops where it must

  // Cutting the lines off at m changes nothing before it: what was refused before m is refused the
  // same, and what was not is taken in whole.
  ghost predicate CutAt<T>(whole: Result<(T, nat), nat>, cut: Result<(T, nat), nat>, lines: seq<Line>, i: nat, m: nat)
    requires i <= m <= |lines|
  {
    match whole
    case Ok(r) => if r.1 < m then cut == whole else cut.Ok? && cut.value.1 == m
    case Err(k) =>
      exists e {:trigger lines[e]} ::
        && i <= e < |lines| && lines[e].num == k
        && if e < m then cut == whole else cut.Ok? && cut.value.1 == m
  }

  function AtCut(lines: seq<Line>, i: nat, m: nat): nat {
    if i == m && m < |lines| then 1 else 0
  }

  lemma {:induction false} ItemsCut(acc: seq<string>, lines: seq<Line>, i: nat, indent: nat, m: nat)
    requires i <= m <= |lines|
    ensures CutAt(ParsedItems(acc, lines, i, indent), ParsedItems(acc, lines[..m], i, indent), lines, i, m)
    decreases |lines| - i, AtCut(lines, i, m)
  {
    hide SplitKey, ScalarOf, TrimSpace;
    if i == m && m < |lines| {
      ItemsCut(acc, lines, i, indent, |lines|);
      assert lines[..|lines|] == lines;
    } else if i < m && lines[i].indent == indent && IsItem(lines[i].text) {
      var item := TrimSpace(lines[i].text[1..]);
      if item != "" && ScalarOf(item).Some? { ItemsCut(acc + [ScalarOf(item).value], lines, i + 1, indent, m); }
    }
  }

  lemma {:induction false} MapCut(acc: Fields, lines: seq<Line>, i: nat, indent: nat, m: nat)
    requires i <= m <= |lines|
    ensures CutAt(ParsedMap(acc, lines, i, indent), ParsedMap(acc, lines[..m], i, indent), lines, i, m)
    decreases |lines| - i, 2 * AtCut(lines, i, m)
  {
    hide SplitKey, ScalarOf, TrimSpace, IsItem, ParsedBlock;
    if i == m && m < |lines| {
      MapCut(acc, lines, i, indent, |lines|);
      assert lines[..|lines|] == lines;
    } else if i < m {
      var cur := lines[i];
      if indent <= MAX_DEPTH && cur.indent == indent && !IsItem(cur.text) && SplitKey(cur.text).Some? {
        var (key, rest) := SplitKey(cur.text).value;
        if key !in acc.byKey {
          if rest != "" {
            if ScalarOf(rest).Some? { MapCut(Set(acc, key, Scalar(ScalarOf(rest).value)), lines, i + 1, indent, m); }
          } else {
            BlockCut(lines, i + 1, indent, m);
            var block := ParsedBlock(lines, i + 1, indent);
            if block.Ok? {
              if block.value.1 <= m {
                MapCut(Set(acc, key, block.value.0), lines, block.value.1, indent, m);
              } else {
                MapCut(Set(acc, key, block.value.0), lines, block.value.1, indent, |lines|);
              }
            }
          }
        }
      }
    }
  }

  lemma {:induction false} BlockCut(lines: seq<Line>, i: nat, parent: nat, m: nat)
    requires i <= m <= |lines|
    ensures CutAt(ParsedBlock(lines, i, parent), ParsedBlock(lines[..m], i, parent), lines, i, m)
    decreases |lines| - i, 2 * AtCut(lines, i, m) + 1
  {
    hide SplitKey, ScalarOf, TrimSpace, IsItem, ParsedMap, ParsedItems;
    if i == m && m < |lines| {
      BlockCut(lines, i, parent, |lines|);
      assert lines[..|lines|] == lines;
    } else if i < m && lines[i].indent > parent {
      if IsItem(lines[i].text) {
        ItemsCut([], lines, i, lines[i].indent, m);
      } else {
        MapCut(NO_FIELDS, lines, i, lines[i].indent, m);
      }
    }
  }

  // ---------------------------------------------------------------- the line an error names

  // The lines before it would do as a document, and the lines up to it would not.
  ghost predicate StopsAt(lines: seq<Line>, e: nat, k: nat)
    requires e < |lines|
  {
    lines[e].num == k && Document(lines[..e]).Ok? && Document(lines[..e + 1]) == Err(k)
  }

  lemma FirstBadLine(lines: seq<Line>, k: nat) returns (e: nat)
    requires Rising(lines) && Document(lines) == Err(k)
    ensures e < |lines| && StopsAt(lines, e, k)
  {
    hide ParsedMap;
    if lines[0].indent != 0 {
      e := 0;
    } else {
      var whole := ParsedMap(NO_FIELDS, lines, 0, 0);
      MapCut(NO_FIELDS, lines, 0, 0, |lines|);
      if whole.Ok? {
        e := whole.value.1;
      } else {
        e :| 0 <= e < |lines| && lines[e].num == k;
      }
      MapCut(NO_FIELDS, lines, 0, 0, e);
      MapCut(NO_FIELDS, lines, 0, 0, e + 1);
    }
    assert e > 0 ==> lines[..e][0] == lines[0];
    assert lines[..e + 1][0] == lines[0];
  }

  // The first j raw lines keep the lines numbered among them.
  lemma {:induction false} ScanCut(raws: seq<string>, num: nat, j: nat)
    requires j <= |raws| && Scanned(raws, num).Ok?
    ensures var lines, cut := Scanned(raws, num).value, Scanned(raws[..j], num);
            && cut.Ok? && cut.value <= lines
            && forall c :: 0 <= c < |lines| ==> (c < |cut.value| <==> lines[c].num < num + j)
    decreases |raws|
  {
    hide TrimRight, TrimSpace, HasPrefix, Spaces;
    NumbersFrom(raws, num);
    if j > 0 {
      assert raws[..j][1..] == raws[1..][..j - 1] && raws[..j][0] == raws[0];
      ScanCut(raws[1..], num + 1, j - 1);
    }
  }

  lemma {:induction false} NumbersFrom(raws: seq<string>, num: nat)
    requires Scanned(raws, num).Ok?
    ensures forall l :: l in Scanned(raws, num).value ==> l.num >= num
    decreases |raws|
  {
    hide TrimRight, TrimSpace, HasPrefix, Spaces;
    if raws != [] { NumbersFrom(raws[1..], num + 1); }
  }

  lemma ParsedJoin(raws: seq<string>)
    requires Without(raws, '\n')
    ensures Parsed(Join(raws, '\n')) ==
            match Scanned(raws, 1)
            case Err(k) => Err(k)
            case Ok(lines) => Document(lines)
  {
    if raws == [] {
      assert Scanned([""], 1) == Scanned([], 1);
    } else {
      SplitJoin(raws, '\n');
    }
  }

  // The line an error names. Where the scan refuses a line it is the first it refuses, whatever stands
  // before it. Otherwise it is the first line at which the file stops being the beginning of a good one:
  // the lines before it parse, and with it they do not.
  lemma ErrorNamesALine(src: string, k: nat)
    requires Parsed(src) == Err(k)
    ensures var raws := Split(src, '\n');
            && 1 <= k <= |raws|
            && if exists i :: 0 <= i < |raws| && Refused(raws[i]) then FirstRefused(raws, k - 1)
               else Parsed(Join(raws[..k - 1], '\n')).Ok? && Parsed(Join(raws[..k], '\n')) == Err(k)
  {
    hide Refused, Document, Scanned, Body;
    var raws := Split(src, '\n');
    ScanMeans(raws, 1);
    if Scanned(raws, 1).Ok? {
      var lines := Scanned(raws, 1).value;
      var e := FirstBadLine(lines, k);
      assert lines[e] in lines && LineOf(raws, 1, lines[e]);
      SplitIsWithout(src, '\n');
      UpToLine(raws, lines, e, k - 1);
      UpToLine(raws, lines, e, k);
      ParsedJoin(raws[..k - 1]);
      ParsedJoin(raws[..k]);
    }
  }

  lemma UpToLine(raws: seq<string>, lines: seq<Line>, e: nat, j: nat)
    requires Scanned(raws, 1) == Ok(lines) && Rising(lines) && e < |lines| && (j == lines[e].num || j + 1 == lines[e].num) && j <= |raws|
    ensures Scanned(raws[..j], 1) == Ok(if j == lines[e].num then lines[..e + 1] else lines[..e])
  {
    hide Scanned;
    ScanCut(raws, 1, j);
    var cut := Scanned(raws[..j], 1).value;
    assert cut == lines[..|cut|];
    if j == lines[e].num {
      CutLength(lines, |cut|, e + 1, j);
    } else {
      CutLength(lines, |cut|, e, j);
    }
  }

  lemma CutLength(lines: seq<Line>, n: nat, m: nat, j: nat)
    requires n <= |lines| && m <= |lines| && forall c :: 0 <= c < |lines| ==> (c < n <==> lines[c].num < 1 + j)
    requires forall c :: 0 <= c < |lines| ==> (c < m <==> lines[c].num < 1 + j)
    ensures n == m
  {
    var c := if n < m then n else m;
    if c < |lines| {
      assert c < n <==> lines[c].num < 1 + j;
    }
  }

  // And where the scan does refuse a line, an earlier one may be bad already.
  lemma EarlierMayBeBad()
    ensures Parsed("b\n\tx") == Err(2) && Parsed("b") == Err(1)
  {
    PlainLine();
    TabLine();
    SplitFirst("b", "\tx", '\n');
    SplitFirst("\tx", "", '\n');
    SplitFirst("b", "", '\n');
    assert "b\n\tx" == "b" + ['\n'] + "\tx";
    hide TrimRight, TrimSpace, Spaces, SplitKey, Split;
    assert ["b", "\tx"][1..] == ["\tx"] && ["b"][1..] == [] && ["\tx"][1..] == [];
  }

  lemma PlainLine()
    ensures TrimRight("b") == "b" && TrimSpace("b") == "b" && Spaces("b") == 0 && SplitKey("b").None?
  {
  }

  lemma TabLine()
    ensures TrimRight("\tx") == "\tx" && TrimSpace("\tx") == "x" && Spaces("\tx") == 0
  {
  }
}
