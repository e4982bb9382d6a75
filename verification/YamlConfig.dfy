// The installation file: how it is printed, and why parsing it gives every setting back.
module YamlConfig {
  import opened Prelude
  import opened Segments
  import opened Yaml

  // ---------------------------------------------------------------- scalars

  predicate IsBare(c: char) {
    'a' <= c <= 'z' || 'A' <= c <= 'Z' || '0' <= c <= '9' || c == '-' || c == '_' || c == '.'
  }

  predicate AllBare(s: string) {
    forall i :: 0 <= i < |s| ==> IsBare(s[i])
  }

  // Backslashes doubled, then quotes escaped.
  function Replaced(s: string, c: char, by': string): string {
    if s == "" then "" else (if s[0] == c then by' else [s[0]]) + Replaced(s[1..], c, by')
  }

  function Esc(s: string): string {
    Replaced(Replaced(s, '\\', "\\\\"), '"', "\\\"")
  }

  function YamlScalar(s: string): string {
    if s == "" then "\"\"" else if AllBare(s) then s else "\"" + Esc(s) + "\""
  }

  function EscChar(c: char): string {
    if c == '\\' then "\\\\" else if c == '"' then "\\\"" else [c]
  }

  lemma {:induction false} ReplacedApart(a: string, b: string, c: char, by': string)
    ensures Replaced(a + b, c, by') == Replaced(a, c, by') + Replaced(b, c, by')
    decreases |a|
  {
    if a == "" {
      assert a + b == b;
    } else {
      var head := if a[0] == c then by' else [a[0]];
      ReplacedApart(a[1..], b, c, by');
      assert (a + b)[1..] == a[1..] + b;
      assert head + (Replaced(a[1..], c, by') + Replaced(b, c, by')) == head + Replaced(a[1..], c, by') + Replaced(b, c, by');
    }
  }

  lemma EscStep(s: string)
    requires s != ""
    ensures Esc(s) == EscChar(s[0]) + Esc(s[1..])
  {
    var once := if s[0] == '\\' then "\\\\" else [s[0]];
    ReplacedApart(once, Replaced(s[1..], '\\', "\\\\"), '"', "\\\"");
    assert Replaced(once, '"', "\\\"") == EscChar(s[0]) by {
      if s[0] == '\\' { assert once[1..] == "\\" && once[1..][1..] == ""; } else { assert once[1..] == ""; }
    }
  }

  // A quoted string reads back as what was quoted, whatever follows the closing quote ...
  lemma {:induction false} QuotedReadsBack(s: string, tail: string)
    ensures Unquoted(Esc(s) + "\"" + tail) == Some(s)
  {
    var text := Esc(s) + "\"" + tail;
    if s != "" {
      EscStep(s);
      QuotedReadsBack(s[1..], tail);
      var head, more := EscChar(s[0]), Esc(s[1..]) + "\"" + tail;
      assert text == head + more;
      assert text[|head|..] == more && text[..|head|] == head;
      assert [s[0]] + s[1..] == s;
    }
  }

  // ... and one that breaks off before it reads as nothing.
  lemma {:induction false} BrokenReadsNothing(s: string, p: string)
    requires HasPrefix(Esc(s), p)
    ensures Unquoted(p) == None
    decreases |s|
  {
    if s != "" && p != "" {
      EscStep(s);
      var n := |EscChar(s[0])|;
      assert p[0] == Esc(s)[0] == EscChar(s[0])[0];
      if |p| >= n {
        assert p[..n] == Esc(s)[..n] == EscChar(s[0]);
        assert Esc(s)[n..] == Esc(s[1..]);
        assert p[n..] == Esc(s[1..])[..|p| - n];
        BrokenReadsNothing(s[1..], p[n..]);
      }
    }
  }

  lemma {:induction false} NoComment(s: string)
    requires ' ' !in s
    ensures CommentAt(s) == |s|
  {
    if |s| >= 2 { NoComment(s[1..]); }
  }

  lemma {:induction false} TrimmedRight(s: string)
    requires s == "" || !IsSpace(s[|s| - 1])
    ensures TrimRight(s) == s && TrimSpaceRight(s) == s
  {
  }

  lemma TrimmedBoth(s: string)
    requires s != "" && !IsSpace(s[0]) && !IsSpace(s[|s| - 1])
    ensures TrimSpace(s) == s
  {
    TrimmedRight(s);
  }

  lemma BareIsNoSpace(s: string)
    requires AllBare(s)
    ensures forall c :: c in s ==> !IsSpace(c) && c != ' '
  {
  }

  // Every printed scalar is one word to the trimmer and reads back.
  lemma ScalarReadsBack(s: string)
    ensures var v := YamlScalar(s); v != "" && !IsSpace(v[0]) && !IsSpace(v[|v| - 1]) && ScalarOf(v) == Some(s)
  {
    var v := YamlScalar(s);
    if s == "" {
      assert v[1..] == "\"";
    } else if AllBare(s) {
      BareIsNoSpace(s);
      NoComment(s);
      TrimmedBoth(s);
      assert IsBare(s[0]) && IsBare(s[|s| - 1]) && s[..|s|] == s;
    } else {
      QuotedReadsBack(s, "");
      assert v[1..] == Esc(s) + "\"" + "";
    }
  }

  // ---------------------------------------------------------------- lines

  // What the printer writes, a line each: remarks, blanks, section headings and settings.
  datatype Out = Note(indent: nat, words: string) | Blank | Heading(name: string) | Entry(key: string, value: string)

  function Pad(n: nat): (s: string)
    ensures |s| == n && forall i :: 0 <= i < n ==> s[i] == ' '
  {
    seq(n, _ => ' ')
  }

  function LineOf(o: Out): string {
    match o
    case Note(indent, words) => Pad(indent) + "#" + words
    case Blank => ""
    case Heading(name) => name + ":"
    case Entry(key, value) => Pad(2) + key + ": " + YamlScalar(value)
  }

  predicate PlainKey(k: string) {
    k != "" && forall i :: 0 <= i < |k| ==> 'a' <= k[i] <= 'z' || k[i] == '_'
  }

  predicate OutOk(o: Out) {
    match o
    case Note(indent, words) => '\n' !in words
    case Blank => true
    case Heading(name) => PlainKey(name)
    case Entry(key, value) => PlainKey(key)
  }

  // What a kept line must look like to the parser.
  predicate LineIs(l: Line, o: Out) {
    match o
    case Heading(name) => l.indent == 0 && l.text == name + ":"
    case Entry(key, value) => l.indent == 2 && l.text == key + ": " + YamlScalar(value)
    case _ => false
  }

  function Kept(outs: seq<Out>): seq<Out> {
    if outs == [] then []
    else (if outs[0].Heading? || outs[0].Entry? then [outs[0]] else []) + Kept(outs[1..])
  }

  function Texts(outs: seq<Out>): (raws: seq<string>)
    ensures |raws| == |outs| && forall i :: 0 <= i < |outs| ==> raws[i] == LineOf(outs[i])
  {
    seq(|outs|, i requires 0 <= i < |outs| => LineOf(outs[i]))
  }

  lemma {:induction false} TrimKeeps(a: string, c: char, b: string)
    requires !IsSpace(c)
    ensures HasPrefix(TrimRight(a + [c] + b), a + [c]) && HasPrefix(TrimSpaceRight(a + [c] + b), a + [c])
    decreases |b|
  {
    var s := a + [c] + b;
    if b != "" {
      TrimKeeps(a, c, b[..|b| - 1]);
      assert s[..|s| - 1] == a + [c] + b[..|b| - 1];
    }
  }

  lemma {:induction false} PadIsSpaces(n: nat, s: string)
    requires s != "" && s[0] != ' '
    ensures Spaces(Pad(n) + s) == n && (Pad(n) + s)[n..] == s
    ensures !IsSpace(s[0]) ==> TrimSpaceLeft(Pad(n) + s) == s
  {
    if n == 0 {
      assert Pad(n) + s == s;
    } else {
      PadIsSpaces(n - 1, s);
      assert (Pad(n) + s)[1..] == Pad(n - 1) + s;
    }
  }

  lemma NoteIsSkipped(indent: nat, words: string)
    ensures HasPrefix(TrimSpace(TrimRight(Pad(indent) + "#" + words)), "#")
  {
    TrimKeeps(Pad(indent), '#', words);
    var text := TrimRight(Pad(indent) + ['#'] + words);
    var b := text[indent + 1..];
    assert text == Pad(indent) + (['#'] + b);
    PadIsSpaces(indent, ['#'] + b);
    TrimKeeps("", '#', b);
    assert "" + ['#'] + b == ['#'] + b && "" + ['#'] == "#";
  }

  // A line of the printer's that the scanner keeps, and nothing of it lost.
  lemma KeptLine(n: nat, body: string)
    requires body != "" && ('a' <= body[0] <= 'z' || body[0] == '_') && !IsSpace(body[|body| - 1])
    ensures var raw := Pad(n) + body;
            TrimRight(raw) == raw && TrimSpace(raw) == body && Spaces(raw) == n && raw[n..] == body
            && !HasPrefix(body, "#") && !HasPrefix(body, "---") && !HasPrefix(body, "...")
  {
    TrimmedRight(Pad(n) + body);
    TrimmedRight(body);
    PadIsSpaces(n, body);
  }

  // ---------------------------------------------------------------- scanning what was printed

  ghost predicate Matches(lines: seq<Line>, outs: seq<Out>) {
    |lines| == |outs| && forall k :: 0 <= k < |lines| ==> LineIs(lines[k], outs[k])
  }

  function BodyOf(o: Out): string
    requires o.Heading? || o.Entry?
  {
    if o.Heading? then o.name + ":" else o.key + ": " + YamlScalar(o.value)
  }

  lemma LineScanned(n: nat, body: string, rest: seq<string>, num: nat)
    requires body != "" && ('a' <= body[0] <= 'z' || body[0] == '_') && !IsSpace(body[|body| - 1])
    ensures Scanned([Pad(n) + body] + rest, num) == Before([Line(num, n, body)], Scanned(rest, num + 1))
  {
    KeptLine(n, body);
    hide TrimRight, TrimSpace, HasPrefix, Spaces;
    assert ([Pad(n) + body] + rest)[1..] == rest;
  }

  lemma LineSkipped(text: string, rest: seq<string>, num: nat)
    requires TrimSpace(TrimRight(text)) == "" || HasPrefix(TrimSpace(TrimRight(text)), "#")
    ensures Scanned([text] + rest, num) == Scanned(rest, num + 1)
  {
    hide TrimRight, TrimSpace, HasPrefix, Spaces;
    assert ([text] + rest)[1..] == rest;
  }

  lemma OneScanned(o: Out, rest: seq<string>, num: nat)
    requires OutOk(o)
    ensures if o.Heading? || o.Entry? then
              var l := Line(num, if o.Heading? then 0 else 2, BodyOf(o));
              LineIs(l, o) && Scanned([LineOf(o)] + rest, num) == Before([l], Scanned(rest, num + 1))
            else Scanned([LineOf(o)] + rest, num) == Scanned(rest, num + 1)
  {
    hide Scanned, TrimRight, TrimSpace, YamlScalar;
    match o
    case Note(indent, words) =>
      NoteIsSkipped(indent, words);
      LineSkipped(LineOf(o), rest, num);
    case Blank =>
      NothingTrims();
      LineSkipped("", rest, num);
    case Heading(name) =>
      LineScanned(0, BodyOf(o), rest, num);
      assert Pad(0) + BodyOf(o) == LineOf(o);
    case Entry(key, value) =>
      ScalarReadsBack(value);
      LineScanned(2, BodyOf(o), rest, num);
      assert Pad(2) + BodyOf(o) == LineOf(o);
  }

  lemma NothingTrims()
    ensures TrimSpace(TrimRight("")) == ""
  {
  }

  lemma {:induction false} OutsScanned(outs: seq<Out>, tail: seq<string>, num: nat) returns (lines: seq<Line>)
    requires forall o :: o in outs ==> OutOk(o)
    ensures Matches(lines, Kept(outs)) && Scanned(Texts(outs) + tail, num) == Before(lines, Scanned(tail, num + |outs|))
    decreases |outs|
  {
    hide OutOk, LineOf, BodyOf, LineIs, Scanned;
    if outs == [] {
      lines := [];
      assert Texts(outs) + tail == tail;
      BeforeBefore([], [], Scanned(tail, num));
    } else {
      var o, rest := outs[0], Texts(outs[1..]) + tail;
      OneScanned(o, rest, num);
      assert Texts(outs) + tail == [LineOf(o)] + rest;
      lines := OutsScanned(outs[1..], tail, num + 1);
      if o.Heading? || o.Entry? {
        var l := Line(num, if o.Heading? then 0 else 2, BodyOf(o));
        BeforeBefore([l], lines, Scanned(tail, num + |outs|));
        lines := [l] + lines;
      }
    }
  }

  function TextOf(outs: seq<Out>): string {
    if outs == [] then "" else LineOf(outs[0]) + "\n" + TextOf(outs[1..])
  }

  predicate OneLine(o: Out) {
    o.Entry? ==> '\n' !in o.value
  }

  lemma {:induction false} EscNewline(s: string)
    ensures '\n' in Esc(s) <==> '\n' in s
  {
    if s != "" {
      EscStep(s);
      EscNewline(s[1..]);
      assert s == [s[0]] + s[1..];
    }
  }

  lemma LineIsOne(o: Out)
    requires OutOk(o) && OneLine(o)
    ensures '\n' !in LineOf(o)
  {
    if o.Entry? { EscNewline(o.value); }
  }

  lemma {:induction false} TextSplits(outs: seq<Out>, rest: string)
    requires forall o :: o in outs ==> OutOk(o) && OneLine(o)
    ensures Split(TextOf(outs) + rest, '\n') == Texts(outs) + Split(rest, '\n')
    decreases |outs|
  {
    hide OutOk, OneLine, LineOf;
    if outs == [] {
      assert TextOf(outs) + rest == rest;
    } else {
      hide Split;
      assert outs[0] in outs && forall o :: o in outs[1..] ==> o in outs;
      LineIsOne(outs[0]);
      TextSplits(outs[1..], rest);
      FirstLine(LineOf(outs[0]), TextOf(outs[1..]), rest);
      FirstText(outs, Split(rest, '\n'));
    }
  }

  lemma FirstLine(line: string, more: string, rest: string)
    requires '\n' !in line
    ensures Split(line + "\n" + more + rest, '\n') == [line] + Split(more + rest, '\n')
  {
    hide Split;
    SplitFirst(line, more + rest, '\n');
    assert line + "\n" + more + rest == line + ['\n'] + (more + rest);
  }

  lemma FirstText(outs: seq<Out>, tail: seq<string>)
    requires outs != []
    ensures Texts(outs) + tail == [LineOf(outs[0])] + (Texts(outs[1..]) + tail)
  {
    hide LineOf;
  }

  // ---------------------------------------------------------------- parsing it

  type Setting = (string, string)

  function WithEntries(acc: Fields, es: seq<Setting>): Fields
    decreases |es|
  {
    if es == [] then acc else WithEntries(Set(acc, es[0].0, Scalar(es[0].1)), es[1..])
  }

  predicate Plain(es: seq<Setting>) {
    && (forall k :: 0 <= k < |es| ==> PlainKey(es[k].0))
    && (forall j, k :: 0 <= j < k < |es| ==> es[j].0 != es[k].0)
  }

  lemma {:induction false} FirstColon(key: string, rest: string)
    requires ':' !in key
    ensures Index(key + ":" + rest, ':') == |key|
  {
    if key != "" {
      FirstColon(key[1..], rest);
      assert (key + ":" + rest)[1..] == key[1..] + ":" + rest;
    }
  }

  lemma KeySplits(key: string, rest: string)
    requires PlainKey(key)
    ensures SplitKey(key + ":" + rest) == Some((key, TrimSpace(rest))) && !IsItem(key + ":" + rest)
  {
    var text := key + ":" + rest;
    FirstColon(key, rest);
    TrimmedBoth(key);
    assert text[..|key|] == key && text[|key| + 1..] == rest;
  }

  lemma EntryParsed(acc: Fields, lines: seq<Line>, i: nat, e: Setting)
    requires i < |lines| && LineIs(lines[i], Entry(e.0, e.1)) && PlainKey(e.0) && e.0 !in acc.byKey
    ensures ParsedMap(acc, lines, i, 2) == ParsedMap(Set(acc, e.0, Scalar(e.1)), lines, i + 1, 2)
  {
    hide ScalarOf, SplitKey, IsItem, YamlScalar, PlainKey, TrimSpace;
    var v := YamlScalar(e.1);
    ScalarReadsBack(e.1);
    KeySplits(e.0, " " + v);
    assert e.0 + ": " + v == e.0 + ":" + (" " + v);
    LeadingSpace(v);
    TrimmedBoth(v);
  }

  lemma LeadingSpace(v: string)
    ensures TrimSpace(" " + v) == TrimSpace(v)
  {
    assert (" " + v)[1..] == v;
  }

  lemma {:induction false} EntriesParsed(acc: Fields, lines: seq<Line>, i: nat, es: seq<Setting>)
    requires i + |es| <= |lines| && Plain(es) && forall k :: 0 <= k < |es| ==> es[k].0 !in acc.byKey
    requires forall k :: 0 <= k < |es| ==> LineIs(lines[i + k], Entry(es[k].0, es[k].1))
    ensures ParsedMap(acc, lines, i, 2) == ParsedMap(WithEntries(acc, es), lines, i + |es|, 2)
    decreases |es|
  {
    hide LineIs, PlainKey;
    if es != [] {
      EntryParsed(acc, lines, i, es[0]);
      EntriesParsed(Set(acc, es[0].0, Scalar(es[0].1)), lines, i + 1, es[1..]);
    }
  }

  lemma HeadingParsed(acc: Fields, lines: seq<Line>, i: nat, name: string)
    requires i + 1 < |lines| && LineIs(lines[i], Heading(name)) && PlainKey(name) && name !in acc.byKey
    requires lines[i + 1].indent == 2 && !IsItem(lines[i + 1].text)
    ensures ParsedMap(acc, lines, i, 0) ==
            match ParsedMap(NO_FIELDS, lines, i + 1, 2)
            case Err(k) => Err(k)
            case Ok(m) => ParsedMap(Set(acc, name, Map(m.0)), lines, m.1, 0)
  {
    KeySplits(name, "");
    assert name + ":" + "" == name + ":";
  }

  lemma BlockEnds(acc: Fields, lines: seq<Line>, i: nat)
    requires i <= |lines| && (i < |lines| ==> lines[i].indent == 0)
    ensures ParsedMap(acc, lines, i, 2) == Ok((acc, i))
  {
  }

  lemma {:induction false} EntryKept(acc: Fields, es: seq<Setting>, k: nat)
    requires Plain(es) && k < |es| && forall j :: 0 <= j < |es| ==> es[j].0 !in acc.byKey
    ensures es[k].0 in WithEntries(acc, es).byKey && WithEntries(acc, es).byKey[es[k].0] == Scalar(es[k].1)
    decreases |es|
  {
    hide PlainKey;
    var acc' := Set(acc, es[0].0, Scalar(es[0].1));
    if k == 0 { OthersKept(acc', es[1..], es[0].0); } else { EntryKept(acc', es[1..], k - 1); }
  }

  lemma {:induction false} OthersKept(acc: Fields, es: seq<Setting>, key: string)
    requires key in acc.byKey && forall j :: 0 <= j < |es| ==> es[j].0 != key
    ensures key in WithEntries(acc, es).byKey && WithEntries(acc, es).byKey[key] == acc.byKey[key]
    decreases |es|
  {
    if es != [] { OthersKept(Set(acc, es[0].0, Scalar(es[0].1)), es[1..], key); }
  }

  // ---------------------------------------------------------------- the installation file

  predicate AllDigits(s: string) {
    forall i :: 0 <= i < |s| ==> '0' <= s[i] <= '9'
  }

  function Digits(n: nat): (s: string)
    ensures s != "" && AllBare(s) && AllDigits(s)
  {
    var last := "0123456789"[n % 10];
    if n < 10 then [last] else Digits(n / 10) + [last]
  }

  function Decimal(n: int): (s: string)
    ensures s != "" && AllBare(s)
  {
    if n < 0 then "-" + Digits(-n) else Digits(n)
  }

  function NumberOf(s: string): nat
    requires AllDigits(s)
  {
    if s == "" then 0 else 10 * NumberOf(s[..|s| - 1]) + (s[|s| - 1] as int - '0' as int)
  }

  // strconv.Atoi, none where it fails.
  function Atoi(s: string): Option<int> {
    var body := if s != "" && (s[0] == '-' || s[0] == '+') then s[1..] else s;
    if body == "" || !AllDigits(body) then None
    else Some(if s[0] == '-' then -(NumberOf(body) as int) else NumberOf(body))
  }

  lemma {:induction false} DigitsReadBack(n: nat)
    ensures NumberOf(Digits(n)) == n
  {
    var s := Digits(n);
    if n < 10 {
      assert s[..0] == "";
    } else {
      DigitsReadBack(n / 10);
      assert s[..|s| - 1] == Digits(n / 10);
    }
  }

  lemma AtoiDigits(s: string)
    requires s != "" && AllDigits(s)
    ensures Atoi(s) == Some(NumberOf(s)) && Atoi("-" + s) == Some(-(NumberOf(s) as int))
  {
    hide NumberOf;
    assert '0' <= s[0] <= '9';
    assert ("-" + s)[1..] == s;
  }

  lemma DecimalReadsBack(n: int)
    ensures Atoi(Decimal(n)) == Some(n)
  {
    hide Digits, NumberOf, AllDigits, Atoi;
    DigitsReadBack(if n < 0 then -n else n);
    AtoiDigits(Digits(if n < 0 then -n else n));
  }

  // password is the sealed one.
  datatype FileConfig = FileConfig(
    host: string, port: int, name: string, user: string, password: string, sslmode: string,
    listen: string, issuer: string, uiOrigin: string)

  function Database(c: FileConfig): seq<Setting> {
    [("host", c.host), ("port", Decimal(c.port)), ("name", c.name), ("user", c.user), ("password", c.password), ("sslmode", c.sslmode)]
  }

  function Server(c: FileConfig): seq<Setting> {
    [("listen", c.listen), ("issuer", c.issuer), ("ui_origin", c.uiOrigin)]
  }

  function Entries(es: seq<Setting>): (outs: seq<Out>)
    ensures |outs| == |es| && forall k :: 0 <= k < |es| ==> outs[k] == Entry(es[k].0, es[k].1)
  {
    seq(|es|, k requires 0 <= k < |es| => Entry(es[k].0, es[k].1))
  }

  function Notes(words: seq<string>): (outs: seq<Out>)
    ensures |outs| == |words| && forall k :: 0 <= k < |words| ==> outs[k] == Note(0, words[k])
  {
    seq(|words|, k requires 0 <= k < |words| => Note(0, words[k]))
  }

  // The file's lines: opening remarks, the database section with its remark on the sealed
  // password, the server section.
  function Outs(c: FileConfig, header: seq<string>, sealed: string): seq<Out> {
    Notes(header) + [Blank, Heading("database")] + Entries(Database(c)[..4]) + [Note(2, sealed)] + Entries(Database(c)[4..])
    + [Blank, Heading("server")] + Entries(Server(c))
  }

  function Render(c: FileConfig, header: seq<string>, sealed: string): string {
    TextOf(Outs(c, header, sealed))
  }

  predicate NoNewlines(c: FileConfig) {
    && '\n' !in c.host && '\n' !in c.name && '\n' !in c.user && '\n' !in c.password && '\n' !in c.sslmode
    && '\n' !in c.listen && '\n' !in c.issuer && '\n' !in c.uiOrigin
  }

  // What the parser gets of it: the two headings and their settings.
  function KeptOuts(c: FileConfig): seq<Out> {
    [Heading("database")] + Entries(Database(c)) + [Heading("server")] + Entries(Server(c))
  }

  lemma {:induction false} KeptApart(a: seq<Out>, b: seq<Out>)
    ensures Kept(a + b) == Kept(a) + Kept(b)
    decreases |a|
  {
    hide LineOf, Texts, YamlScalar;
    if a == [] {
      assert a + b == b;
    } else {
      var head := if a[0].Heading? || a[0].Entry? then [a[0]] else [];
      KeptApart(a[1..], b);
      assert (a + b)[1..] == a[1..] + b;
      assert head + (Kept(a[1..]) + Kept(b)) == head + Kept(a[1..]) + Kept(b);
    }
  }

  lemma {:induction false} KeptAll(outs: seq<Out>)
    ensures (forall o :: o in outs ==> o.Heading? || o.Entry?) ==> Kept(outs) == outs
    ensures (forall o :: o in outs ==> o.Note? || o.Blank?) ==> Kept(outs) == []
  {
    if outs != [] {
      KeptAll(outs[1..]);
      assert outs == [outs[0]] + outs[1..];
      assert outs[0] in outs && forall o :: o in outs[1..] ==> o in outs;
    }
  }

  lemma OutsAreKept(c: FileConfig, header: seq<string>, sealed: string)
    ensures Kept(Outs(c, header, sealed)) == KeptOuts(c)
  {
    hide Kept;
    var db, notes := Database(c), Notes(header);
    var h1, h2 := [Blank, Heading("database")], [Blank, Heading("server")];
    var e1, e2, e3, n := Entries(db[..4]), Entries(db[4..]), Entries(Server(c)), [Note(2, sealed)];
    KeptApart(notes + h1 + e1 + n + e2 + h2, e3);
    KeptApart(notes + h1 + e1 + n + e2, h2);
    KeptApart(notes + h1 + e1 + n, e2);
    KeptApart(notes + h1 + e1, n);
    KeptApart(notes + h1, e1);
    KeptApart(notes, h1);
    KeptAll(notes);
    KeptAll(n);
    KeptAll(e1);
    KeptAll(e2);
    KeptAll(e3);
    HeadingKept("database");
    HeadingKept("server");
    assert e1 + e2 == Entries(db);
  }

  lemma HeadingKept(name: string)
    ensures Kept([Blank, Heading(name)]) == [Heading(name)]
  {
    var all: seq<Out> := [Blank, Heading(name)];
    var last: seq<Out> := [Heading(name)];
    assert all[1..] == last && last[1..] == [];
    assert Kept(last) == last + Kept([]);
  }

  lemma SettingsArePlain(c: FileConfig)
    ensures Plain(Database(c)) && Plain(Server(c)) && PlainKey("database") && PlainKey("server")
  {
  }

  lemma {:induction false} KeptMembers(outs: seq<Out>, o: Out)
    ensures o in Kept(outs) <==> o in outs && (o.Heading? || o.Entry?)
  {
    if outs != [] {
      KeptMembers(outs[1..], o);
      assert outs == [outs[0]] + outs[1..];
    }
  }

  lemma OutsAreOk(c: FileConfig, header: seq<string>, sealed: string)
    requires (forall w :: w in header ==> '\n' !in w) && '\n' !in sealed
    ensures forall o :: o in Outs(c, header, sealed) ==> OutOk(o)
  {
    hide Decimal;
    SettingsArePlain(c);
    var outs := Outs(c, header, sealed);
    forall o | o in outs ensures o in Notes(header) || o in KeptOuts(c) || o == Blank || o == Note(2, sealed) {}
    forall o | o in KeptOuts(c) ensures OutOk(o) {}
  }

  lemma OutsAreOneLine(c: FileConfig, header: seq<string>, sealed: string)
    ensures NoNewlines(c) <==> forall o :: o in Outs(c, header, sealed) ==> OneLine(o)
  {
    var outs := Outs(c, header, sealed);
    OutsAreKept(c, header, sealed);
    forall o ensures o in KeptOuts(c) <==> o in outs && (o.Heading? || o.Entry?) { KeptMembers(outs, o); }
    KeptAreOneLine(c);
  }

  lemma KeptAreOneLine(c: FileConfig)
    ensures NoNewlines(c) <==> forall o :: o in KeptOuts(c) ==> OneLine(o)
  {
    hide Decimal;
    PortIsOneLine(c.port);
    var outs := KeptOuts(c);
    assert |outs| == 11 && outs[0].Heading? && outs[7].Heading? && outs[2] == Entry("port", Decimal(c.port));
    assert outs[1] == Entry("host", c.host) && outs[3] == Entry("name", c.name) && outs[4] == Entry("user", c.user);
    assert outs[5] == Entry("password", c.password) && outs[6] == Entry("sslmode", c.sslmode);
    assert outs[8] == Entry("listen", c.listen) && outs[9] == Entry("issuer", c.issuer) && outs[10] == Entry("ui_origin", c.uiOrigin);
    if NoNewlines(c) {
      forall k | 0 <= k < |outs| ensures OneLine(outs[k]) {}
    }
    if forall o :: o in outs ==> OneLine(o) {
      assert OneLine(outs[1]) && OneLine(outs[3]) && OneLine(outs[4]) && OneLine(outs[5]) && OneLine(outs[6]);
      assert OneLine(outs[8]) && OneLine(outs[9]) && OneLine(outs[10]);
    }
  }

  lemma PortIsOneLine(n: int)
    ensures '\n' !in Decimal(n)
  {
  }

  // ---------------------------------------------------------------- the round trip

  function Written(c: FileConfig): Fields {
    Set(Set(NO_FIELDS, "database", Map(WithEntries(NO_FIELDS, Database(c)))), "server", Map(WithEntries(NO_FIELDS, Server(c))))
  }

  lemma NotItem(l: Line, o: Out)
    requires LineIs(l, o) && o.Entry? && PlainKey(o.key)
    ensures l.indent == 2 && !IsItem(l.text)
  {
    assert l.text[0] == o.key[0];
  }

  // A section at line i of two or more, its settings following, and what comes after it.
  lemma SectionParsed(acc: Fields, lines: seq<Line>, i: nat, name: string, es: seq<Setting>)
    requires es != [] && i + 1 + |es| <= |lines| && LineIs(lines[i], Heading(name)) && PlainKey(name) && name !in acc.byKey
    requires Plain(es) && forall k :: 0 <= k < |es| ==> LineIs(lines[i + 1 + k], Entry(es[k].0, es[k].1))
    requires i + 1 + |es| < |lines| ==> lines[i + 1 + |es|].indent == 0
    ensures ParsedMap(acc, lines, i, 0) == ParsedMap(Set(acc, name, Map(WithEntries(NO_FIELDS, es))), lines, i + 1 + |es|, 0)
  {
    hide LineIs, PlainKey, ParsedMap, WithEntries;
    assert LineIs(lines[i + 1 + 0], Entry(es[0].0, es[0].1)) && PlainKey(es[0].0);
    NotItem(lines[i + 1], Entry(es[0].0, es[0].1));
    HeadingParsed(acc, lines, i, name);
    EntriesParsed(NO_FIELDS, lines, i + 1, es);
    BlockEnds(WithEntries(NO_FIELDS, es), lines, i + 1 + |es|);
  }

  lemma LinesParsed(c: FileConfig, lines: seq<Line>)
    requires Matches(lines, KeptOuts(c))
    ensures ParsedMap(NO_FIELDS, lines, 0, 0) == Ok((Written(c), 11))
  {
    hide Decimal, WithEntries, YamlScalar;
    SettingsArePlain(c);
    var outs, db, server := KeptOuts(c), Database(c), Server(c);
    forall k | 0 <= k < 6 ensures LineIs(lines[1 + k], Entry(db[k].0, db[k].1)) { assert outs[1 + k] == Entries(db)[k]; }
    forall k | 0 <= k < 3 ensures LineIs(lines[8 + k], Entry(server[k].0, server[k].1)) { assert outs[8 + k] == Entries(server)[k]; }
    assert outs[0] == Heading("database") && outs[7] == Heading("server") && LineIs(lines[7], outs[7]);
    SectionParsed(NO_FIELDS, lines, 0, "database", db);
    var acc := Set(NO_FIELDS, "database", Map(WithEntries(NO_FIELDS, db)));
    SectionParsed(acc, lines, 7, "server", server);
  }

  // Whatever a configuration's strings hold -- quotes, backslashes, colons, hashes, blanks -- as
  // long as no newline is among it, the printed file parses to exactly its settings.
  lemma PrintedParses(c: FileConfig, header: seq<string>, sealed: string)
    requires (forall w :: w in header ==> '\n' !in w) && '\n' !in sealed && NoNewlines(c)
    ensures Parsed(Render(c, header, sealed)) == Ok(Written(c))
  {
    hide Outs, KeptOuts, Written, Split, ParsedMap;
    var outs := Outs(c, header, sealed);
    OutsAreOk(c, header, sealed);
    OutsAreOneLine(c, header, sealed);
    OutsAreKept(c, header, sealed);
    TextSplits(outs, "");
    assert TextOf(outs) + "" == TextOf(outs);
    NothingSplits();
    var lines := OutsScanned(outs, [""], 1);
    LastIsBlank(1 + |outs|);
    assert lines + [] == lines;
    LinesParsed(c, lines);
    FirstHeading(c);
  }

  lemma NothingSplits()
    ensures Split("", '\n') == [""]
  {
  }

  lemma LastIsBlank(num: nat)
    ensures Scanned([""], num) == Ok([])
  {
    assert [""][1..] == [];
  }

  lemma FirstHeading(c: FileConfig)
    ensures |KeptOuts(c)| == 11 && KeptOuts(c)[0] == Heading("database")
  {
  }

  // Every setting is found at its path.
  lemma SettingsAreFound(c: FileConfig)
    ensures var root := Written(c);
            && (forall k :: 0 <= k < 6 ==> Str(root, "database", Database(c)[k].0) == Database(c)[k].1)
            && (forall k :: 0 <= k < 3 ==> Str(root, "server", Server(c)[k].0) == Server(c)[k].1)
            && Atoi(Str(root, "database", "port")) == Some(c.port)
  {
    hide Decimal, WithEntries;
    SettingsArePlain(c);
    forall k | 0 <= k < 6 ensures Str(Written(c), "database", Database(c)[k].0) == Database(c)[k].1 { EntryKept(NO_FIELDS, Database(c), k); }
    forall k | 0 <= k < 3 ensures Str(Written(c), "server", Server(c)[k].0) == Server(c)[k].1 { EntryKept(NO_FIELDS, Server(c), k); }
    DecimalReadsBack(c.port);
    assert Database(c)[1] == ("port", Decimal(c.port));
  }

  // ---------------------------------------------------------------- a newline spoils it

  // A setting's line broken off inside its quotes.
  ghost predicate BrokenLine(l: Line, key: string) {
    exists value, p :: HasPrefix(Esc(value), p) && l.indent == 2 && l.text == key + ": \"" + p
  }

  lemma {:induction false} TrimTakesPrefix(s: string)
    ensures HasPrefix(s, TrimRight(s)) && HasPrefix(s, TrimSpaceRight(s))
  {
    if s != "" { TrimTakesPrefix(s[..|s| - 1]); }
  }

  lemma BrokenValue(value: string, p: string)
    requires HasPrefix(Esc(value), p)
    ensures var rest := TrimSpace(" \"" + p); rest != "" && ScalarOf(rest) == None
  {
    hide Esc, Unquoted;
    var cut := "\"" + p;
    assert " \"" + p == " " + cut;
    LeadingSpace(cut);
    TrimKeeps("", '"', p);
    assert "" + ['"'] + p == cut && "" + ['"'] == "\"";
    TrimTakesPrefix(cut);
    var rest := TrimSpace(cut);
    assert rest == cut[..|rest|] && rest[1..] == p[..|rest| - 1] == Esc(value)[..|rest| - 1];
    BrokenReadsNothing(value, rest[1..]);
  }

  lemma BrokenIsRefused(acc: Fields, lines: seq<Line>, i: nat, key: string)
    requires i < |lines| && BrokenLine(lines[i], key) && PlainKey(key)
    ensures ParsedMap(acc, lines, i, 2).Err?
  {
    hide Esc, PlainKey, ScalarOf, SplitKey, IsItem, TrimSpace, HasPrefix;
    var value, p :| HasPrefix(Esc(value), p) && lines[i].indent == 2 && lines[i].text == key + ": \"" + p;
    BrokenValue(value, p);
    KeySplits(key, " \"" + p);
    assert key + ": \"" + p == key + ":" + (" \"" + p);
  }

  lemma BrokenTrims(key: string, value: string) returns (p: string)
    ensures TrimRight(Pad(2) + key + ": \"" + Esc(value)) == Pad(2) + (key + ": \"" + p) && HasPrefix(Esc(value), p)
  {
    hide Esc;
    var a, raw := Pad(2) + key + ": ", Pad(2) + key + ": \"" + Esc(value);
    assert raw == a + ['"'] + Esc(value);
    TrimKeeps(a, '"', Esc(value));
    TrimTakesPrefix(raw);
    hide TrimRight;
    var text := TrimRight(raw);
    p := text[|a| + 1..];
    assert text == raw[..|text|];
    assert p == Esc(value)[..|p|];
    assert text == a + ['"'] + p;
    assert a + ['"'] + p == Pad(2) + (key + ": \"" + p);
  }

  lemma BrokenScanned(key: string, value: string, more: seq<string>, num: nat) returns (l: Line)
    requires PlainKey(key)
    ensures BrokenLine(l, key)
    ensures Scanned([Pad(2) + key + ": \"" + Esc(value)] + more, num) == Before([l], Scanned(more, num + 1))
  {
    hide Esc, Scanned, TrimRight;
    var p := BrokenTrims(key, value);
    var body := key + ": \"" + p;
    PadIsSpaces(2, body);
    TrimKeeps("", body[0], body[1..]);
    assert "" + [body[0]] + body[1..] == body && "" + [body[0]] == [body[0]];
    l := Line(num, 2, body);
    ScannedFirst(Pad(2) + key + ": \"" + Esc(value), more, num, 2, body);
  }

  lemma ScannedFirst(raw: string, more: seq<string>, num: nat, n: nat, body: string)
    requires TrimRight(raw) == Pad(n) + body && body != "" && ('a' <= body[0] <= 'z' || body[0] == '_')
    requires Spaces(Pad(n) + body) == n && (Pad(n) + body)[n..] == body && HasPrefix(TrimSpace(Pad(n) + body), [body[0]])
    ensures Scanned([raw] + more, num) == Before([Line(num, n, body)], Scanned(more, num + 1))
  {
    hide TrimRight, TrimSpace, Spaces;
    assert ([raw] + more)[1..] == more;
  }

  lemma {:induction false} FirstBad(outs: seq<Out>) returns (b: nat)
    requires exists o :: o in outs && !OneLine(o)
    ensures b < |outs| && !OneLine(outs[b]) && forall o :: o in outs[..b] ==> OneLine(o)
  {
    hide OneLine;
    if !OneLine(outs[0]) {
      b := 0;
    } else {
      assert outs == [outs[0]] + outs[1..];
      b := FirstBad(outs[1..]);
      b := b + 1;
      assert outs[..b] == [outs[0]] + outs[1..][..b - 1];
    }
  }

  lemma CutAtNewline(value: string) returns (cut: string, after: string)
    requires '\n' in value
    ensures '\n' !in cut && Esc(value) == Esc(cut) + "\n" + Esc(after) && !AllBare(value)
  {
    hide Esc, Index;
    var i := Index(value, '\n');
    assert value[..|value|] == value;
    assert !IsBare(value[i]);
    hide AllBare;
    cut, after := value[..i], value[i + 1..];
    assert value == cut + ("\n" + after);
    EscApart(cut, "\n" + after);
    EscApart("\n", after);
    EscOfNewline();
    assert Esc(cut) + ("\n" + Esc(after)) == Esc(cut) + "\n" + Esc(after);
  }

  lemma EscOfNewline()
    ensures Esc("\n") == "\n"
  {
    EscStep("\n");
  }

  lemma Rebracket(a: string, x: string, y: string, tail: string)
    ensures a + ("\"" + (x + "\n" + y) + "\"") + "\n" + tail == a + "\"" + x + "\n" + (y + "\"" + "\n" + tail)
  {
  }

  lemma BrokenText(key: string, value: string, tail: string) returns (cut: string, rest: string)
    requires '\n' in value && PlainKey(key)
    ensures '\n' !in cut && LineOf(Entry(key, value)) + "\n" + tail == Pad(2) + key + ": \"" + Esc(cut) + "\n" + rest
  {
    hide Esc, AllBare, Pad, PlainKey;
    var after;
    cut, after := CutAtNewline(value);
    rest := Esc(after) + "\"" + "\n" + tail;
    Rebracket(Pad(2) + key + ": ", Esc(cut), Esc(after), tail);
    assert Pad(2) + key + ": " + "\"" == Pad(2) + key + ": \"";
    assert value != "";
  }

  lemma EscApart(a: string, b: string)
    ensures Esc(a + b) == Esc(a) + Esc(b)
  {
    ReplacedApart(a, b, '\\', "\\\\");
    ReplacedApart(Replaced(a, '\\', "\\\\"), Replaced(b, '\\', "\\\\"), '"', "\\\"");
  }

  lemma {:induction false} TextApart(a: seq<Out>, b: seq<Out>)
    ensures TextOf(a + b) == TextOf(a) + TextOf(b)
    decreases |a|
  {
    if a == [] {
      assert a + b == b;
    } else {
      TextApart(a[1..], b);
      assert (a + b)[1..] == a[1..] + b;
      assert LineOf(a[0]) + "\n" + (TextOf(a[1..]) + TextOf(b)) == LineOf(a[0]) + "\n" + TextOf(a[1..]) + TextOf(b);
    }
  }

  // The scan of a spoilt file: the lines before the first setting with a newline, that setting's
  // broken line, and whatever comes of the rest.
  lemma SpoiltScan(outs: seq<Out>, b: nat) returns (lines: seq<Line>, bad: Line, rest: Result<seq<Line>, nat>)
    requires b < |outs| && outs[b].Entry? && '\n' in outs[b].value && (forall o :: o in outs ==> OutOk(o))
    requires forall o :: o in outs[..b] ==> OneLine(o)
    ensures Matches(lines, Kept(outs[..b])) && BrokenLine(bad, outs[b].key)
    ensures Scanned(Split(TextOf(outs), '\n'), 1) == Before(lines, Before([bad], rest))
  {
    hide OutOk, OneLine, Scanned, Split, TextOf, Esc, Matches, Kept, BrokenLine;
    var key, value := outs[b].key, outs[b].value;
    assert OutOk(outs[b]);
    EntryKeyIsPlain(outs[b]);
    var tail := TextOf(outs[b + 1..]);
    var cut, more := BrokenText(key, value, tail);
    assert outs == outs[..b] + ([outs[b]] + outs[b + 1..]);
    TextApart(outs[..b], [outs[b]] + outs[b + 1..]);
    TextFirst(outs[b], outs[b + 1..]);
    TextSplits(outs[..b], TextOf([outs[b]] + outs[b + 1..]));
    var raw := Pad(2) + key + ": \"" + Esc(cut);
    RawIsOneLine(key, cut);
    SplitFirst(raw, more, '\n');
    assert raw + "\n" + more == raw + ['\n'] + more;
    lines := OutsScanned(outs[..b], [raw] + Split(more, '\n'), 1);
    bad := BrokenScanned(key, cut, Split(more, '\n'), 1 + b);
    rest := Scanned(Split(more, '\n'), 2 + b);
  }

  lemma EntryKeyIsPlain(o: Out)
    requires OutOk(o) && o.Entry?
    ensures PlainKey(o.key)
  {
  }

  lemma TextFirst(o: Out, outs: seq<Out>)
    ensures TextOf([o] + outs) == LineOf(o) + "\n" + TextOf(outs)
  {
    assert ([o] + outs)[1..] == outs;
  }

  lemma RawIsOneLine(key: string, cut: string)
    requires '\n' !in cut && PlainKey(key)
    ensures '\n' !in Pad(2) + key + ": \"" + Esc(cut)
  {
    EscNewline(cut);
    hide Esc;
  }

  // Some lines of a file of ours, then a broken setting in its place: the parser refuses.
  lemma SpoiltIsRefused(c: FileConfig, lines: seq<Line>, m: nat, key: string)
    requires m < |lines| && m < 11 && m != 0 && m != 7 && KeptOuts(c)[m].Entry? && KeptOuts(c)[m].key == key && BrokenLine(lines[m], key)
    requires forall k :: 0 <= k < m ==> LineIs(lines[k], KeptOuts(c)[k])
    ensures ParsedMap(NO_FIELDS, lines, 0, 0).Err?
  {
    hide Decimal, WithEntries, YamlScalar, ParsedMap, LineIs, BrokenLine;
    SettingsArePlain(c);
    var outs, db, server := KeptOuts(c), Database(c), Server(c);
    forall k | 0 <= k < 6 && 1 + k < m ensures LineIs(lines[1 + k], Entry(db[k].0, db[k].1)) { assert outs[1 + k] == Entries(db)[k]; }
    forall k | 0 <= k < 3 && 8 + k < m ensures LineIs(lines[8 + k], Entry(server[k].0, server[k].1)) { assert outs[8 + k] == Entries(server)[k]; }
    assert outs[0] == Heading("database") && outs[7] == Heading("server") && LineIs(lines[0], outs[0]);
    if m < 7 {
      assert outs[m] == Entries(db)[m - 1];
      SpoiltSection(NO_FIELDS, lines, 0, "database", db, m - 1);
    } else {
      assert outs[m] == Entries(server)[m - 8] && LineIs(lines[7], outs[7]);
      HeadingIsFlat(lines[7], "server");
      SectionParsed(NO_FIELDS, lines, 0, "database", db);
      SpoiltSection(Set(NO_FIELDS, "database", Map(WithEntries(NO_FIELDS, db))), lines, 7, "server", server, m - 8);
    }
  }

  lemma HeadingIsFlat(l: Line, name: string)
    requires LineIs(l, Heading(name))
    ensures l.indent == 0
  {
  }

  lemma SpoiltSection(acc: Fields, lines: seq<Line>, i: nat, name: string, es: seq<Setting>, n: nat)
    requires n < |es| && i + 1 + n < |lines| && LineIs(lines[i], Heading(name)) && PlainKey(name) && name !in acc.byKey && Plain(es)
    requires BrokenLine(lines[i + 1 + n], es[n].0) && forall k :: 0 <= k < n ==> LineIs(lines[i + 1 + k], Entry(es[k].0, es[k].1))
    ensures ParsedMap(acc, lines, i, 0).Err?
  {
    hide LineIs, PlainKey, ParsedMap, WithEntries, BrokenLine;
    assert PlainKey(es[0].0) && PlainKey(es[n].0);
    if n == 0 {
      BrokenIsNoItem(lines[i + 1], es[0].0);
    } else {
      assert LineIs(lines[i + 1 + 0], Entry(es[0].0, es[0].1));
      NotItem(lines[i + 1], Entry(es[0].0, es[0].1));
    }
    HeadingParsed(acc, lines, i, name);
    var good := es[..n];
    forall k | 0 <= k < n ensures LineIs(lines[i + 1 + k], Entry(good[k].0, good[k].1)) {}
    EntriesParsed(NO_FIELDS, lines, i + 1, good);
    BrokenIsRefused(WithEntries(NO_FIELDS, good), lines, i + 1 + n, es[n].0);
  }

  lemma BrokenIsNoItem(l: Line, key: string)
    requires BrokenLine(l, key) && PlainKey(key)
    ensures l.indent == 2 && !IsItem(l.text)
  {
    assert l.text[0] == key[0];
  }

  // With a newline anywhere among the strings the printed file is refused.
  lemma SpoiltByNewline(c: FileConfig, header: seq<string>, sealed: string)
    requires (forall w :: w in header ==> '\n' !in w) && '\n' !in sealed && !NoNewlines(c)
    ensures Parsed(Render(c, header, sealed)).Err?
  {
    hide Outs, KeptOuts, Split, ParsedMap, Scanned, BrokenLine, Kept, LineIs;
    var outs := Outs(c, header, sealed);
    OutsAreOk(c, header, sealed);
    OutsAreOneLine(c, header, sealed);
    OutsAreKept(c, header, sealed);
    var b := FirstBad(outs);
    var lines, bad, rest := SpoiltScan(outs, b);
    if rest.Ok? {
      var all := lines + ([bad] + rest.value);
      var m := |lines|;
      KeptPrefix(outs, b);
      FirstHeading(c);
      SecondHeading(c);
      assert all[m] == bad && forall k :: 0 <= k < m ==> all[k] == lines[k];
      SpoiltIsRefused(c, all, m, outs[b].key);
    }
  }

  lemma SecondHeading(c: FileConfig)
    ensures |KeptOuts(c)| == 11 && KeptOuts(c)[7] == Heading("server")
  {
  }

  lemma KeptPrefix(outs: seq<Out>, b: nat)
    requires b < |outs| && outs[b].Entry?
    ensures var m := |Kept(outs[..b])|; m < |Kept(outs)| && Kept(outs)[m] == outs[b] && Kept(outs)[..m] == Kept(outs[..b])
  {
    KeptApart(outs[..b], outs[b..]);
    assert outs == outs[..b] + outs[b..];
  }

  // The printed file parses to exactly its settings if and only if none of them holds a newline.
  lemma RoundTripIff(c: FileConfig, header: seq<string>, sealed: string)
    requires (forall w :: w in header ==> '\n' !in w) && '\n' !in sealed
    ensures Parsed(Render(c, header, sealed)) == Ok(Written(c)) <==> NoNewlines(c)
  {
    if NoNewlines(c) { PrintedParses(c, header, sealed); } else { SpoiltByNewline(c, header, sealed); }
  }
}
