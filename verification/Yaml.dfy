// The configuration file's YAML subset: lines, then mappings, blocks and scalars. An error names
// the line it was found on.
module Yaml {
  import opened Prelude
  import opened Segments

  datatype Node = Scalar(value: string) | Map(fields: Fields) | Seq(items: seq<string>)
  datatype Fields = Fields(keys: seq<string>, byKey: map<string, Node>)

  const NO_FIELDS := Fields([], map[])
  const MAX_DEPTH := 32

  // One significant line: blanks and comments never reach the parser.
  datatype Line = Line(num: nat, indent: nat, text: string)

  function Set(f: Fields, key: string, child: Node): Fields {
    Fields(f.keys + [key], f.byKey[key := child])
  }

  // ---------------------------------------------------------------- trimming and prefixes

  // What Unicode calls white space.
  predicate IsSpace(c: char) {
    || c == ' ' || '\t' <= c <= '\r' || c == '\U{0085}' || c == '\U{00A0}' || c == '\U{1680}'
    || '\U{2000}' <= c <= '\U{200A}' || c == '\U{2028}' || c == '\U{2029}' || c == '\U{202F}' || c == '\U{205F}' || c == '\U{3000}'
  }

  predicate IsLineEnd(c: char) {
    c == ' ' || c == '\t' || c == '\r'
  }

  function TrimRight(s: string): string {
    if s != "" && IsLineEnd(s[|s| - 1]) then TrimRight(s[..|s| - 1]) else s
  }

  function TrimSpaceRight(s: string): string {
    if s != "" && IsSpace(s[|s| - 1]) then TrimSpaceRight(s[..|s| - 1]) else s
  }

  function TrimSpaceLeft(s: string): string {
    if s != "" && IsSpace(s[0]) then TrimSpaceLeft(s[1..]) else s
  }

  function TrimSpace(s: string): string {
    TrimSpaceRight(TrimSpaceLeft(s))
  }

  predicate HasPrefix(s: string, p: string) {
    |p| <= |s| && s[..|p|] == p
  }

  // strings.IndexByte, the length when the character is not there.
  function Index(s: string, c: char): (i: nat)
    ensures i <= |s| && c !in s[..i] && (i < |s| ==> s[i] == c)
  {
    if s == "" || s[0] == c then 0 else 1 + Index(s[1..], c)
  }

  // ---------------------------------------------------------------- lines

  function Spaces(s: string): (n: nat)
    ensures n <= |s|
  {
    if s != "" && s[0] == ' ' then 1 + Spaces(s[1..]) else 0
  }

  // The lines kept of some raw ones, numbered from num.
  function Scanned(raws: seq<string>, num: nat): Result<seq<Line>, nat> {
    if raws == [] then Ok([])
    else
      var text := TrimRight(raws[0]);
      var n := Spaces(text);
      if TrimSpace(text) == "" || HasPrefix(TrimSpace(text), "#") then Scanned(raws[1..], num + 1)
      else if n < |text| && text[n] == '\t' then Err(num)
      else if HasPrefix(text[n..], "---") || HasPrefix(text[n..], "...") then Err(num)
      else
        match Scanned(raws[1..], num + 1)
        case Err(k) => Err(k)
        case Ok(rest) => Ok([Line(num, n, text[n..])] + rest)
  }

  method Scan(src: string) returns (r: Result<seq<Line>, nat>)
    ensures r == Scanned(Split(src, '\n'), 1)
  {
    var raws := Split(src, '\n');
    var out: seq<Line> := [];
    assert raws[0..] == raws;
    BeforeBefore([], [], Scanned(raws, 1));
    for i := 0 to |raws|
      invariant Scanned(raws, 1) == Before(out, Scanned(raws[i..], i + 1))
    {
      assert raws[i..][1..] == raws[i + 1..];
      var text := TrimRight(raws[i]);
      if TrimSpace(text) == "" || HasPrefix(TrimSpace(text), "#") {
        continue;
      }
      var indent := Spaces(text);
      if indent < |text| && text[indent] == '\t' {
        return Err(i + 1);
      }
      var body := text[indent..];
      if HasPrefix(body, "---") || HasPrefix(body, "...") {
        return Err(i + 1);
      }
      BeforeBefore(out, [Line(i + 1, indent, body)], Scanned(raws[i + 1..], i + 2));
      out := out + [Line(i + 1, indent, body)];
    }
    assert raws[|raws|..] == [] && out + [] == out;
    r := Ok(out);
  }

  function Before(a: seq<Line>, r: Result<seq<Line>, nat>): Result<seq<Line>, nat> {
    if r.Err? then r else Ok(a + r.value)
  }

  lemma BeforeBefore(a: seq<Line>, b: seq<Line>, r: Result<seq<Line>, nat>)
    ensures Before([], r) == r && Before(a, Before(b, r)) == Before(a + b, r)
  {
    if r.Ok? { assert a + (b + r.value) == a + b + r.value && [] + r.value == r.value; }
  }

  // ---------------------------------------------------------------- keys and scalars

  predicate IsItem(text: string) {
    HasPrefix(text, "- ") || text == "-"
  }

  // `key:` and the rest of the line; none where that is refused.
  function SplitKey(text: string): Option<(string, string)> {
    if HasPrefix(text, "\"") || HasPrefix(text, "'") then None
    else
      var i := Index(text, ':');
      if i == |text| then None
      else
        var key := TrimSpace(text[..i]);
        if key == "" then None else Some((key, TrimSpace(text[i + 1..])))
  }

  // What follows an opening double quote, up to the closing one.
  function Unquoted(s: string): Option<string> {
    if s == "" then None
    else if s[0] == '\\' then
      if |s| < 2 then None
      else
        match Escaped(s[1])
        case None => None
        case Some(c) => Put(c, Unquoted(s[2..]))
    else if s[0] == '"' then Some("")
    else Put(s[0], Unquoted(s[1..]))
  }

  function Escaped(c: char): Option<char> {
    if c == 'n' then Some('\n')
    else if c == 't' then Some('\t')
    else if c == 'r' then Some('\r')
    else if c == '"' || c == '\\' || c == '/' then Some(c)
    else None
  }

  function Put(c: char, rest: Option<string>): Option<string> {
    if rest.None? then None else Some([c] + rest.value)
  }

  // Literal but for a doubled quote.
  function SingleUnquoted(s: string): Option<string> {
    if s == "" then None
    else if s[0] == '\'' then
      if |s| > 1 && s[1] == '\'' then Put('\'', SingleUnquoted(s[2..])) else Some("")
    else Put(s[0], SingleUnquoted(s[1..]))
  }

  function CommentAt(s: string): (i: nat)
    ensures i <= |s| && (i < |s| ==> i + 1 < |s| && s[i] == ' ' && s[i + 1] == '#')
  {
    if |s| < 2 then |s| else if s[0] == ' ' && s[1] == '#' then 0 else 1 + CommentAt(s[1..])
  }

  function ScalarOf(raw: string): Option<string>
    requires raw != ""
  {
    if raw[0] == '"' then Unquoted(raw[1..])
    else if raw[0] == '\'' then SingleUnquoted(raw[1..])
    else if raw[0] in {'&', '*', '!', '{', '[', '|', '>'} then None
    else Some(TrimSpace(raw[..CommentAt(raw)]))
  }

  method Quoted(raw: string) returns (r: Option<string>)
    requires raw != "" && raw[0] == '"'
    ensures r == Unquoted(raw[1..])
  {
    var b: string := "";
    var i := 1;
    PutMore("", raw[0], Unquoted(raw[1..]));
    while i < |raw|
      invariant 1 <= i <= |raw|
      invariant Unquoted(raw[1..]) == PutAll(b, Unquoted(raw[i..]))
      decreases |raw| - i
    {
      var c := raw[i];
      if c == '\\' {
        if i + 1 >= |raw| {
          return None;
        }
        i := i + 1;
        var e := Escaped(raw[i]);
        if e.None? {
          return None;
        }
        assert raw[i - 1..][2..] == raw[i + 1..];
        PutMore(b, e.value, Unquoted(raw[i + 1..]));
        b := b + [e.value];
        i := i + 1;
        continue;
      }
      if c == '"' {
        assert b + "" == b;
        return Some(b);
      }
      assert raw[i..][1..] == raw[i + 1..];
      PutMore(b, c, Unquoted(raw[i + 1..]));
      b := b + [c];
      i := i + 1;
    }
    r := None;
  }

  function PutAll(b: string, rest: Option<string>): Option<string> {
    if rest.None? then None else Some(b + rest.value)
  }

  lemma PutMore(b: string, c: char, rest: Option<string>)
    ensures PutAll("", rest) == rest && PutAll(b, Put(c, rest)) == PutAll(b + [c], rest)
  {
    if rest.Some? { assert b + ([c] + rest.value) == b + [c] + rest.value && "" + rest.value == rest.value; }
  }

  // ---------------------------------------------------------------- mappings and blocks

  // The entries at exactly `indent` from line i on, added to acc, and the first line beyond them.
  function ParsedMap(acc: Fields, lines: seq<Line>, i: nat, indent: nat): (r: Result<(Fields, nat), nat>)
    requires i <= |lines|
    ensures r.Ok? ==> i <= r.value.1 <= |lines|
    ensures r.Ok? && i < |lines| && lines[i].indent == indent ==> i < r.value.1
    decreases |lines| - i, 0
  {
    if i == |lines| then Ok((acc, i))
    else
      var cur := lines[i];
      if indent > MAX_DEPTH then Err(cur.num)
      else if cur.indent < indent then Ok((acc, i))
      else if cur.indent > indent || IsItem(cur.text) then Err(cur.num)
      else
        match SplitKey(cur.text)
        case None => Err(cur.num)
        case Some(entry) =>
          var (key, rest) := entry;
          if key in acc.byKey then Err(cur.num)
          else if rest != "" then
            (match ScalarOf(rest)
             case None => Err(cur.num)
             case Some(v) => ParsedMap(Set(acc, key, Scalar(v)), lines, i + 1, indent))
          else
            match ParsedBlock(lines, i + 1, indent)
            case Err(k) => Err(k)
            case Ok(block) => ParsedMap(Set(acc, key, block.0), lines, block.1, indent)
  }

  // What a bare `key:` owns: a mapping, a sequence, or nothing, which is an empty mapping.
  function ParsedBlock(lines: seq<Line>, i: nat, parent: nat): (r: Result<(Node, nat), nat>)
    requires i <= |lines|
    ensures r.Ok? ==> i <= r.value.1 <= |lines|
    decreases |lines| - i, 1
  {
    if i == |lines| || lines[i].indent <= parent then Ok((Map(NO_FIELDS), i))
    else if IsItem(lines[i].text) then
      match ParsedItems([], lines, i, lines[i].indent)
      case Err(k) => Err(k)
      case Ok(items) =>
        var next := items.1;
        if next < |lines| && lines[next].indent > parent && lines[next].indent != lines[i].indent then Err(lines[next].num)
        else Ok((Seq(items.0), next))
    else
      match ParsedMap(NO_FIELDS, lines, i, lines[i].indent)
      case Err(k) => Err(k)
      case Ok(m) => Ok((Map(m.0), m.1))
  }

  function ParsedItems(acc: seq<string>, lines: seq<Line>, i: nat, indent: nat): (r: Result<(seq<string>, nat), nat>)
    requires i <= |lines|
    ensures r.Ok? ==> i <= r.value.1 <= |lines|
    decreases |lines| - i
  {
    if i == |lines| || lines[i].indent != indent || !IsItem(lines[i].text) then Ok((acc, i))
    else
      var item := TrimSpace(lines[i].text[1..]);
      if item == "" then Err(lines[i].num)
      else
        match ScalarOf(item)
        case None => Err(lines[i].num)
        case Some(v) => ParsedItems(acc + [v], lines, i + 1, indent)
  }

  method ParseMap(dst: Fields, lines: seq<Line>, start: nat, indent: nat) returns (r: Result<(Fields, nat), nat>)
    requires start < |lines|
    ensures r == ParsedMap(dst, lines, start, indent)
    decreases |lines| - start, 0
  {
    if indent > MAX_DEPTH {
      return Err(lines[start].num);
    }
    var acc, i := dst, start;
    while i < |lines|
      invariant start <= i <= |lines|
      invariant ParsedMap(acc, lines, i, indent) == ParsedMap(dst, lines, start, indent)
      decreases |lines| - i
    {
      var cur := lines[i];
      if cur.indent < indent {
        return Ok((acc, i));
      }
      if cur.indent > indent || IsItem(cur.text) {
        return Err(cur.num);
      }
      var entry := SplitKey(cur.text);
      if entry.None? {
        return Err(cur.num);
      }
      var (key, rest) := entry.value;
      if key in acc.byKey {
        return Err(cur.num);
      }
      if rest != "" {
        var val := ScalarOf(rest);
        if val.None? {
          return Err(cur.num);
        }
        acc := Set(acc, key, Scalar(val.value));
        i := i + 1;
        continue;
      }
      var block := ParseBlock(lines, i + 1, indent);
      if block.Err? {
        return Err(block.error);
      }
      acc := Set(acc, key, block.value.0);
      i := block.value.1;
    }
    r := Ok((acc, i));
  }

  method ParseBlock(lines: seq<Line>, start: nat, parent: nat) returns (r: Result<(Node, nat), nat>)
    requires start <= |lines|
    ensures r == ParsedBlock(lines, start, parent)
    decreases |lines| - start, 1
  {
    if start >= |lines| || lines[start].indent <= parent {
      return Ok((Map(NO_FIELDS), start));
    }
    var i, indent := start, lines[start].indent;
    if IsItem(lines[i].text) {
      var items: seq<string> := [];
      while i < |lines| && lines[i].indent == indent
        invariant start <= i <= |lines|
        invariant ParsedItems(items, lines, i, indent) == ParsedItems([], lines, start, indent)
        decreases |lines| - i
      {
        if !IsItem(lines[i].text) {
          break;
        }
        var item := TrimSpace(lines[i].text[1..]);
        if item == "" {
          return Err(lines[i].num);
        }
        var val := ScalarOf(item);
        if val.None? {
          return Err(lines[i].num);
        }
        items := items + [val.value];
        i := i + 1;
      }
      if i < |lines| && lines[i].indent > parent && lines[i].indent != indent {
        return Err(lines[i].num);
      }
      return Ok((Seq(items), i));
    }
    var m := ParseMap(NO_FIELDS, lines, i, indent);
    if m.Err? {
      return Err(m.error);
    }
    r := Ok((Map(m.value.0), m.value.1));
  }

  // The document as a mapping; an empty one is an empty mapping.
  function Document(lines: seq<Line>): Result<Fields, nat> {
    if lines == [] then Ok(NO_FIELDS)
    else if lines[0].indent != 0 then Err(lines[0].num)
    else
      match ParsedMap(NO_FIELDS, lines, 0, 0)
      case Err(k) => Err(k)
      case Ok(m) => if m.1 < |lines| then Err(lines[m.1].num) else Ok(m.0)
  }

  function Parsed(src: string): Result<Fields, nat> {
    match Scanned(Split(src, '\n'), 1)
    case Err(k) => Err(k)
    case Ok(lines) => Document(lines)
  }

  method Parse(src: string) returns (r: Result<Fields, nat>)
    ensures r == Parsed(src)
  {
    var scanned := Scan(src);
    if scanned.Err? {
      return Err(scanned.error);
    }
    var lines := scanned.value;
    if lines == [] {
      return Ok(NO_FIELDS);
    }
    if lines[0].indent != 0 {
      return Err(lines[0].num);
    }
    var m := ParseMap(NO_FIELDS, lines, 0, 0);
    if m.Err? {
      return Err(m.error);
    }
    if m.value.1 < |lines| {
      return Err(lines[m.value.1].num);
    }
    r := Ok(m.value.0);
  }

  // The scalar at a path of two keys, empty when it is absent or not a scalar.
  function Str(root: Fields, section: string, key: string): string {
    if section in root.byKey && root.byKey[section].Map? && key in root.byKey[section].fields.byKey
       && root.byKey[section].fields.byKey[key].Scalar?
    then root.byKey[section].fields.byKey[key].value
    else ""
  }
}
