// What one value, key or escape of the configuration file reads as, whatever stands around it.
module YamlScalars {
  import opened Prelude
  import opened Yaml

  // ---------------------------------------------------------------- blanks

  // The code points Unicode calls white space.
  const BLANKS: set<int> :=
    {0x09, 0x0A, 0x0B, 0x0C, 0x0D, 0x20, 0x85, 0xA0, 0x1680, 0x2000, 0x2001, 0x2002, 0x2003, 0x2004, 0x2005, 0x2006, 0x2007,
     0x2008, 0x2009, 0x200A, 0x2028, 0x2029, 0x202F, 0x205F, 0x3000}

  lemma BlanksAreUnicodes(c: char)
    ensures IsSpace(c) <==> c as int in BLANKS
  {
  }

  // Blanks around a text and none at its own ends.
  predicate AllBlank(s: string) {
    forall i :: 0 <= i < |s| ==> IsSpace(s[i])
  }

  predicate Trim(s: string) {
    s != "" && !IsSpace(s[0]) && !IsSpace(s[|s| - 1])
  }

  lemma {:induction false} LeftTrimmed(a: string, s: string)
    requires AllBlank(a) && s != "" && !IsSpace(s[0])
    ensures TrimSpaceLeft(a + s) == s
    decreases |a|
  {
    hide IsSpace;
    if a == "" {
      assert a + s == s;
    } else {
      assert (a + s)[1..] == a[1..] + s;
      LeftTrimmed(a[1..], s);
    }
  }

  lemma {:induction false} RightTrimmed(s: string, b: string)
    requires AllBlank(b) && s != "" && !IsSpace(s[|s| - 1])
    ensures TrimSpaceRight(s + b) == s
    decreases |b|
  {
    hide IsSpace;
    if b == "" {
      assert s + b == s;
    } else {
      assert (s + b)[..|s + b| - 1] == s + b[..|b| - 1];
      RightTrimmed(s, b[..|b| - 1]);
    }
  }

  lemma Trimmed(a: string, s: string, b: string)
    requires AllBlank(a) && Trim(s) && AllBlank(b)
    ensures TrimSpace(a + s + b) == s
  {
    hide IsSpace;
    assert a + s + b == a + (s + b);
    LeftTrimmed(a, s + b);
    RightTrimmed(s, b);
  }

  lemma {:induction false} BlankTrimsAway(a: string)
    requires AllBlank(a)
    ensures TrimSpace(a) == ""
    decreases |a|
  {
    if a != "" {
      BlankTrimsAway(a[1..]);
    }
  }

  // ---------------------------------------------------------------- plain values

  predicate OpensComment(s: string, i: int) {
    0 <= i < |s| - 1 && s[i] == ' ' && s[i + 1] == '#'
  }

  lemma {:induction false} CommentIsFound(v: string, words: string)
    requires forall i :: !OpensComment(v, i)
    ensures CommentAt(v + " #" + words) == |v| && CommentAt(v) == |v|
    decreases |v|
  {
    var all := v + " #" + words;
    if v != "" {
      assert !OpensComment(v, 0);
      forall i ensures !OpensComment(v[1..], i) { assert !OpensComment(v, i + 1); }
      CommentIsFound(v[1..], words);
      assert all[1..] == v[1..] + " #" + words;
    }
  }

  // A value with no quote or other mark at its start is what stands before the first blank and hash; a
  // hash within a word is part of it.
  lemma PlainReads(v: string, words: string)
    requires Trim(v) && v[0] !in {'"', '\'', '&', '*', '!', '{', '[', '|', '>'} && forall i :: !OpensComment(v, i)
    ensures ScalarOf(v) == Some(v) && ScalarOf(v + " #" + words) == Some(v)
  {
    hide IsSpace, CommentAt, OpensComment;
    CommentIsFound(v, words);
    Trimmed("", v, "");
    assert "" + v + "" == v && v[..|v|] == v;
    assert (v + " #" + words)[..|v|] == v;
  }

  lemma MarksAreRefused(raw: string)
    requires raw != "" && raw[0] in {'&', '*', '!', '{', '[', '|', '>'}
    ensures ScalarOf(raw) == None
  {
  }

  // ---------------------------------------------------------------- quoted values

  // Every single quote doubled.
  function Doubled(s: string): string {
    if s == "" then "" else DoubledOne(s[0]) + Doubled(s[1..])
  }

  function DoubledOne(c: char): string {
    if c == '\'' then "''" else [c]
  }

  lemma SingleStep(c: char, tail: string)
    ensures SingleUnquoted(DoubledOne(c) + tail) == Put(c, SingleUnquoted(tail))
  {
    var all := DoubledOne(c) + tail;
    assert all[|DoubledOne(c)|..] == tail;
  }

  lemma SingleEnd(rest: string)
    requires rest == "" || rest[0] != '\''
    ensures SingleUnquoted("'" + rest) == Some("") && SingleUnquoted("") == None
  {
  }

  // Any text at all, its single quotes doubled, reads back between single quotes; without the closing
  // one nothing does.
  lemma {:induction false} SingleReads(s: string, rest: string)
    requires rest == "" || rest[0] != '\''
    ensures SingleUnquoted(Doubled(s) + ("'" + rest)) == Some(s)
    ensures SingleUnquoted(Doubled(s)) == None
    decreases |s|
  {
    hide SingleUnquoted, DoubledOne;
    SingleEnd(rest);
    if s == "" {
      assert Doubled(s) + ("'" + rest) == "'" + rest;
    } else {
      SingleReads(s[1..], rest);
      var tail := Doubled(s[1..]);
      SingleStep(s[0], tail);
      SingleStep(s[0], tail + ("'" + rest));
      assert DoubledOne(s[0]) + tail + ("'" + rest) == DoubledOne(s[0]) + (tail + ("'" + rest));
      assert [s[0]] + s[1..] == s;
    }
  }

  lemma SingleQuotedReads(s: string, rest: string)
    requires rest == "" || rest[0] != '\''
    ensures ScalarOf("'" + Doubled(s) + ("'" + rest)) == Some(s)
    ensures ScalarOf("'" + Doubled(s)) == None
  {
    hide SingleUnquoted, Doubled;
    SingleReads(s, rest);
    assert ("'" + Doubled(s) + ("'" + rest))[1..] == Doubled(s) + ("'" + rest);
    assert ("'" + Doubled(s))[1..] == Doubled(s);
  }

  // The escapes of a double-quoted value, and that there are no others.
  lemma EscapeReads(c: char, rest: string)
    ensures var text := "\"\\" + [c] + rest;
            ScalarOf(text) ==
            if c == 'n' then Put('\n', Unquoted(rest))
            else if c == 't' then Put('\t', Unquoted(rest))
            else if c == 'r' then Put('\r', Unquoted(rest))
            else if c in {'"', '\\', '/'} then Put(c, Unquoted(rest))
            else None
  {
    var text := "\"\\" + [c] + rest;
    assert text[1..] == "\\" + [c] + rest && text[1..][2..] == rest && text[1..][1] == c;
  }

  // ---------------------------------------------------------------- keys

  lemma {:induction false} FirstColon(a: string, b: string)
    requires ':' !in a
    ensures Index(a + ":" + b, ':') == |a|
    decreases |a|
  {
    if a == "" {
      assert a + ":" + b == ":" + b;
    } else {
      FirstColon(a[1..], b);
      assert (a + ":" + b)[1..] == a[1..] + ":" + b;
    }
  }

  // The key is what stands before the first colon, without the blanks around it.
  lemma KeyReads(key: string, gap: string, rest: string)
    requires Trim(key) && ':' !in key && key[0] != '"' && key[0] != '\'' && AllBlank(gap)
    ensures SplitKey(key + gap + ":" + rest) == Some((key, TrimSpace(rest)))
  {
    hide IsSpace, TrimSpace;
    var text := key + gap + ":" + rest;
    assert ':' !in key + gap by { GapHasNoColon(gap); }
    FirstColon(key + gap, rest);
    Trimmed("", key, gap);
    assert "" + key + gap == key + gap && text[..|key + gap|] == key + gap && text[|key + gap| + 1..] == rest;
  }

  lemma GapHasNoColon(gap: string)
    requires AllBlank(gap)
    ensures ':' !in gap
  {
  }

  // A line is refused as an entry exactly when it starts with a quote, has no colon, or nothing but
  // blanks before the first.
  lemma NoKeyIff(text: string)
    ensures SplitKey(text).None? <==>
            || (text != "" && (text[0] == '"' || text[0] == '\''))
            || ':' !in text
            || exists i :: 0 <= i < |text| && text[i] == ':' && ':' !in text[..i] && AllBlank(text[..i])
  {
    var i := Index(text, ':');
    forall j, k | 0 <= j < k < |text| ensures text[j] in text[..k] { assert text[..k][j] == text[j]; }
    if i < |text| {
      TrimsAwayIff(text[..i]);
    } else {
      assert text[..i] == text;
    }
  }

  lemma {:induction false} LeftIsBlank(s: string)
    ensures TrimSpaceLeft(s) == "" <==> AllBlank(s)
    ensures TrimSpaceLeft(s) != "" ==> !IsSpace(TrimSpaceLeft(s)[0])
    decreases |s|
  {
    hide IsSpace;
    if s != "" && IsSpace(s[0]) {
      LeftIsBlank(s[1..]);
      assert AllBlank(s) <==> AllBlank(s[1..]) by {
        forall k | 0 <= k < |s| - 1 ensures s[1..][k] == s[k + 1] {}
      }
    }
  }

  lemma {:induction false} RightKeepsFirst(s: string)
    requires s != "" && !IsSpace(s[0])
    ensures TrimSpaceRight(s) != ""
    decreases |s|
  {
    hide IsSpace;
    if IsSpace(s[|s| - 1]) {
      RightKeepsFirst(s[..|s| - 1]);
    }
  }

  lemma TrimsAwayIff(s: string)
    ensures TrimSpace(s) == "" <==> AllBlank(s)
  {
    hide IsSpace;
    LeftIsBlank(s);
    if TrimSpaceLeft(s) != "" { RightKeepsFirst(TrimSpaceLeft(s)); }
  }
}
