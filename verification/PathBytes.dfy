// What a path's bytes mean: escapes against a table of digits, UTF-8 against the characters it
// encodes, and from these exactly which paths are refused.
module PathBytes {
  import opened Prelude
  import opened Segments
  import opened RoutePath

  // ---------------------------------------------------------------- escapes

  // 0 to 9, then a to f; and the same in capitals.
  const LOWER: Bytes := [0x30, 0x31, 0x32, 0x33, 0x34, 0x35, 0x36, 0x37, 0x38, 0x39, 0x61, 0x62, 0x63, 0x64, 0x65, 0x66]
  const UPPER: Bytes := [0x30, 0x31, 0x32, 0x33, 0x34, 0x35, 0x36, 0x37, 0x38, 0x39, 0x41, 0x42, 0x43, 0x44, 0x45, 0x46]

  function Digit(n: int, capital: bool): Octet
    requires 0 <= n < 16
  {
    if capital then UPPER[n] else LOWER[n]
  }

  // A byte escaped, each digit in either case.
  function Escape(b: Octet, high: bool, low: bool): Bytes {
    [0x25, Digit(b / 16, high), Digit(b % 16, low)]
  }

  function EscapeAll(s: Bytes, cases: seq<(bool, bool)>): Bytes
    requires |cases| == |s|
  {
    if s == [] then [] else Escape(s[0], cases[0].0, cases[0].1) + EscapeAll(s[1..], cases[1..])
  }

  lemma DigitIsRead(n: int, capital: bool)
    requires 0 <= n < 16
    ensures Unhex(Digit(n, capital)) == Some(n)
  {
  }

  lemma EscapeIsRead(b: Octet, high: bool, low: bool, rest: Bytes)
    ensures Decoded(Escape(b, high, low) + rest) == Before([b], Decoded(rest))
  {
    hide Digit;
    DigitIsRead(b / 16, high);
    DigitIsRead(b % 16, low);
    assert (Escape(b, high, low) + rest)[3..] == rest;
  }

  // Any bytes at all, escaped with digits of either case, decode to themselves.
  lemma {:induction false} EscapedReadsBack(s: Bytes, cases: seq<(bool, bool)>)
    requires |cases| == |s|
    ensures Decoded(EscapeAll(s, cases)) == Some(s)
    decreases |s|
  {
    hide Escape;
    if s != [] {
      EscapedReadsBack(s[1..], cases[1..]);
      EscapeIsRead(s[0], cases[0].0, cases[0].1, EscapeAll(s[1..], cases[1..]));
      assert [s[0]] + s[1..] == s;
    }
  }

  predicate IsDigit(c: Octet) {
    c in LOWER || c in UPPER
  }

  lemma DigitsAreRead(c: Octet)
    ensures Unhex(c).Some? <==> IsDigit(c)
  {
    if 0x30 <= c <= 0x39 { assert LOWER[c - 0x30] == c; }
    if 0x61 <= c <= 0x66 { assert LOWER[c - 0x61 + 10] == c; }
    if 0x41 <= c <= 0x46 { assert UPPER[c - 0x41 + 10] == c; }
  }

  // A percent sign with fewer than two digits after it.
  predicate Broken(s: Bytes, i: int) {
    0 <= i < |s| && s[i] == 0x25 && !(i + 2 < |s| && IsDigit(s[i + 1]) && IsDigit(s[i + 2]))
  }

  lemma BrokenLater(s: Bytes, n: nat, i: int)
    requires n <= |s|
    ensures Broken(s[n..], i) ==> Broken(s, n + i)
    ensures i >= n && Broken(s, i) ==> Broken(s[n..], i - n)
  {
  }

  lemma {:induction false} BreaksIff(s: Bytes)
    ensures Decoded(s).None? <==> exists i :: Broken(s, i)
    decreases |s|
  {
    hide IsDigit;
    if s != [] {
      var n := if s[0] != 0x25 then 1 else 3;
      if s[0] == 0x25 {
        if |s| > 2 {
          DigitsAreRead(s[1]);
          DigitsAreRead(s[2]);
        }
        assert Broken(s, 0) <==> |s| < 3 || !IsDigit(s[1]) || !IsDigit(s[2]);
      }
      if !Broken(s, 0) {
        BreaksIff(s[n..]);
        forall i ensures Broken(s[n..], i) ==> Broken(s, n + i) { BrokenLater(s, n, i); }
        forall i | Broken(s, i) ensures i >= n && Broken(s[n..], i - n) {
          PercentIsNoDigit(s[i]);
          BrokenLater(s, n, i);
        }
      }
    }
  }

  lemma PercentIsNoDigit(c: Octet)
    ensures c == 0x25 ==> !IsDigit(c)
  {
  }

  // ---------------------------------------------------------------- UTF-8

  // A Unicode scalar value: every code point but the surrogates.
  predicate Scalar(c: int) {
    0 <= c < 0xD800 || 0xE000 <= c <= 0x10FFFF
  }

  // Table 3-6 of the Unicode Standard.
  function Utf8(c: int): (s: Bytes)
    requires Scalar(c)
    ensures |s| > 0
  {
    if c < 0x80 then [c]
    else if c < 0x800 then [0xC0 + c / 64, 0x80 + c % 64]
    else if c < 0x10000 then [0xE0 + c / 4096, 0x80 + c / 64 % 64, 0x80 + c % 64]
    else [0xF0 + c / 262144, 0x80 + c / 4096 % 64, 0x80 + c / 64 % 64, 0x80 + c % 64]
  }

  lemma ScalarIsRune(c: int, rest: Bytes)
    requires Scalar(c)
    ensures RuneLength(Utf8(c) + rest) == |Utf8(c)|
  {
    if c >= 0x10000 {
      FourParts(c);
    } else if c >= 0x800 {
      ThreeParts(c);
    }
  }

  lemma ThreeParts(c: int)
    requires 0x800 <= c < 0x10000
    ensures var a, b := c / 4096, c / 64 % 64;
            0 <= a < 16 && (a == 0 ==> b >= 0x20) && (c < 0xD800 ==> a < 0xD || (a == 0xD && b < 0x20)) && (c >= 0xE000 ==> a >= 0xE)
  {
    Parts(c, c / 64);
  }

  lemma FourParts(c: int)
    requires 0x10000 <= c <= 0x10FFFF
    ensures var a, b := c / 262144, c / 4096 % 64;
            0 <= a < 5 && (a == 0 ==> b >= 0x10) && (a == 4 ==> b < 0x10)
  {
    Parts(c / 64, c / 4096);
  }

  lemma Parts(c: int, d: int)
    requires d == c / 64 && c >= 0
    ensures c / 4096 == d / 64 && d == 64 * (d / 64) + d % 64
  {
  }

  // The character a well-formed sequence stands for.
  function CharOf(s: Bytes, n: nat): int
    requires n <= |s|
  {
    if n == 1 then s[0]
    else if n == 2 then Char2(s[0], s[1])
    else if n == 3 then Char3(s[0], s[1], s[2])
    else if n == 4 then Char4(s[0], s[1], s[2], s[3])
    else 0
  }

  function Char2(a: int, b: int): int {
    (a - 0xC0) * 64 + (b - 0x80)
  }

  function Char3(a: int, b: int, c: int): int {
    (a - 0xE0) * 4096 + (b - 0x80) * 64 + (c - 0x80)
  }

  function Char4(a: int, b: int, c: int, d: int): int {
    (a - 0xF0) * 262144 + (b - 0x80) * 4096 + (c - 0x80) * 64 + (d - 0x80)
  }

  lemma Digits64(n: int, hi: int, lo: int)
    requires n == 64 * hi + lo && 0 <= lo < 64
    ensures n / 64 == hi && n % 64 == lo
  {
  }

  lemma Rune2(a: int, b: int)
    requires 0xC2 <= a <= 0xDF && 0x80 <= b <= 0xBF
    ensures var c := Char2(a, b); Scalar(c) && Utf8(c) == [a, b]
  {
    Digits64(Char2(a, b), a - 0xC0, b - 0x80);
  }

  lemma Quotient4096(n: int)
    requires n >= 0
    ensures n / 4096 == n / 64 / 64
  {
  }

  lemma Rune3(a: int, b: int, c: int)
    requires 0xE0 <= a <= 0xEF && 0x80 <= b <= 0xBF && 0x80 <= c <= 0xBF
    requires (a == 0xE0 ==> b >= 0xA0) && (a == 0xED ==> b <= 0x9F)
    ensures var n := Char3(a, b, c); Scalar(n) && Utf8(n) == [a, b, c]
  {
    var n, hi := Char3(a, b, c), (a - 0xE0) * 64 + (b - 0x80);
    Digits64(n, hi, c - 0x80);
    Digits64(hi, a - 0xE0, b - 0x80);
    Quotient4096(n);
  }

  lemma Quotient262144(n: int)
    requires n >= 0
    ensures n / 262144 == n / 64 / 64 / 64 && n / 4096 == n / 64 / 64
  {
  }

  lemma Rune4(a: int, b: int, c: int, d: int)
    requires 0xF0 <= a <= 0xF4 && 0x80 <= b <= 0xBF && 0x80 <= c <= 0xBF && 0x80 <= d <= 0xBF
    requires (a == 0xF0 ==> b >= 0x90) && (a == 0xF4 ==> b <= 0x8F)
    ensures var n := Char4(a, b, c, d); Scalar(n) && Utf8(n) == [a, b, c, d]
  {
    var n := Char4(a, b, c, d);
    var top := (a - 0xF0) * 64 + (b - 0x80);
    var hi := top * 64 + (c - 0x80);
    Digits64(n, hi, d - 0x80);
    Digits64(hi, top, c - 0x80);
    Digits64(top, a - 0xF0, b - 0x80);
    Quotient262144(n);
  }

  lemma RuneIsScalar(s: Bytes)
    requires RuneLength(s) > 0
    ensures var n := RuneLength(s); var c := CharOf(s, n); Scalar(c) && Utf8(c) == s[..n]
  {
    hide Scalar, Utf8, Char2, Char3, Char4;
    var n := RuneLength(s);
    if n == 1 {
      OneByte(s[0]);
      assert s[..1] == [s[0]];
    } else if n == 2 {
      Rune2(s[0], s[1]);
      assert s[..2] == [s[0], s[1]];
    } else if n == 3 {
      Rune3(s[0], s[1], s[2]);
      assert s[..3] == [s[0], s[1], s[2]];
    } else {
      Rune4(s[0], s[1], s[2], s[3]);
      assert s[..4] == [s[0], s[1], s[2], s[3]];
    }
  }

  lemma OneByte(c: int)
    requires 0 <= c <= 0x7F
    ensures Scalar(c) && Utf8(c) == [c]
  {
  }

  predicate AllScalar(chars: seq<int>) {
    forall i :: 0 <= i < |chars| ==> Scalar(chars[i])
  }

  function Encoded(chars: seq<int>): Bytes
    requires AllScalar(chars)
  {
    if chars == [] then [] else Utf8(chars[0]) + Encoded(chars[1..])
  }

  // Bytes are taken for UTF-8 exactly when they are some characters' encoding.
  ghost predicate IsText(s: Bytes) {
    exists chars: seq<int> :: AllScalar(chars) && s == Encoded(chars)
  }

  lemma {:induction false} EncodedIsUtf8(chars: seq<int>)
    requires AllScalar(chars)
    ensures IsUtf8(Encoded(chars))
    decreases |chars|
  {
    if chars != [] {
      hide Utf8, RuneLength;
      EncodedIsUtf8(chars[1..]);
      ScalarIsRune(chars[0], Encoded(chars[1..]));
      assert Encoded(chars)[|Utf8(chars[0])|..] == Encoded(chars[1..]);
    }
  }

  lemma OneMoreChar(s: Bytes, n: nat, chars: seq<int>) returns (all: seq<int>)
    requires n <= |s| && Scalar(CharOf(s, n)) && Utf8(CharOf(s, n)) == s[..n] && AllScalar(chars) && s[n..] == Encoded(chars)
    ensures AllScalar(all) && s == Encoded(all)
  {
    hide Scalar, Utf8, CharOf;
    all := [CharOf(s, n)] + chars;
    assert all[1..] == chars && s == s[..n] + s[n..];
  }

  lemma {:induction false} Utf8IsEncoded(s: Bytes)
    requires IsUtf8(s)
    ensures IsText(s)
    decreases |s|
  {
    hide Encoded, AllScalar, RuneLength, CharOf, Utf8;
    if s == [] {
      Nothing();
    } else {
      var n := RuneLength(s);
      RuneIsScalar(s);
      Utf8IsEncoded(s[n..]);
      var chars: seq<int> :| AllScalar(chars) && s[n..] == Encoded(chars);
      var all := OneMoreChar(s, n, chars);
    }
  }

  lemma Nothing()
    ensures AllScalar([]) && Encoded([]) == []
  {
  }

  lemma Utf8Iff(s: Bytes)
    ensures IsUtf8(s) <==> IsText(s)
  {
    if IsUtf8(s) { Utf8IsEncoded(s); }
    if chars: seq<int> :| AllScalar(chars) && s == Encoded(chars) { EncodedIsUtf8(chars); }
  }

  // ---------------------------------------------------------------- dot segments

  // How far below the root some segments leave one: up by a name, down by a pair of dots.
  function Depth(segs: seq<Bytes>): int {
    if segs == [] then 0
    else
      var n := |segs| - 1;
      Depth(segs[..n]) + (if segs[n] in {[], [0x2E]} then 0 else if segs[n] == [0x2E, 0x2E] then -1 else 1)
  }

  predicate OutAfter(segs: seq<Bytes>, k: int) {
    0 <= k <= |segs| && Depth(segs[..k]) < 0
  }

  predicate ClimbsOut(segs: seq<Bytes>) {
    exists k :: 0 <= k <= |segs| && OutAfter(segs, k)
  }

  predicate HasDots(segs: seq<Bytes>) {
    exists k :: 0 <= k < |segs| && IsDots(segs[k])
  }

  lemma OutEarlier(segs: seq<Bytes>, n: nat, k: int)
    requires k <= n <= |segs|
    ensures OutAfter(segs[..n], k) <==> OutAfter(segs, k)
  {
    if 0 <= k { assert segs[..n][..k] == segs[..k]; }
  }

  lemma ClimbsLater(segs: seq<Bytes>)
    requires segs != []
    ensures ClimbsOut(segs) <==> ClimbsOut(segs[..|segs| - 1]) || Depth(segs) < 0
  {
    var n := |segs| - 1;
    forall k | 0 <= k <= n ensures OutAfter(segs[..n], k) <==> OutAfter(segs, k) { OutEarlier(segs, n, k); }
    assert segs[..|segs|] == segs;
    assert OutAfter(segs, |segs|) <==> Depth(segs) < 0;
    hide OutAfter, Depth;
  }

  predicate IsDots(s: Bytes) {
    s == [0x2E] || s == [0x2E, 0x2E]
  }

  lemma DotsLater(segs: seq<Bytes>)
    requires segs != []
    ensures var n := |segs| - 1; HasDots(segs) <==> HasDots(segs[..n]) || IsDots(segs[n])
  {
    hide IsDots;
    var n := |segs| - 1;
    if k :| 0 <= k < n && IsDots(segs[..n][k]) { assert IsDots(segs[k]); }
    if k :| 0 <= k < |segs| && IsDots(segs[k]) { assert k < n ==> IsDots(segs[..n][k]); }
  }

  lemma {:induction false} ResolvedIff(segs: seq<Bytes>, hidden: bool)
    ensures Resolved(segs, hidden).None? <==> if hidden then HasDots(segs) else ClimbsOut(segs)
    ensures Resolved(segs, hidden).Some? ==> |Resolved(segs, hidden).value| == Depth(segs)
    decreases |segs|
  {
    if segs == [] {
      assert segs[..0] == [];
    } else {
      ResolvedIff(segs[..|segs| - 1], hidden);
      ClimbsLater(segs);
      DotsLater(segs);
      hide ClimbsOut, HasDots;
    }
  }

  // ---------------------------------------------------------------- what is refused

  // Control bytes, backslash, semicolon, percent, hash and question mark.
  predicate Ambiguous(s: Bytes) {
    exists i :: 0 <= i < |s| && (s[i] <= 0x1F || s[i] in {0x7F, 0x5C, 0x3B, 0x25, 0x23, 0x3F})
  }

  // %2e or %2E somewhere.
  predicate DotEscapeAt(s: Bytes, i: int) {
    0 <= i <= |s| - 3 && s[i] == 0x25 && s[i + 1] == 0x32 && s[i + 2] in {0x65, 0x45}
  }

  predicate EscapesADot(s: Bytes) {
    exists i :: 0 <= i < |s| && DotEscapeAt(s, i)
  }

  lemma DotsAreHidden(s: Bytes)
    ensures HidesDots(s) <==> EscapesADot(s)
  {
    forall i ensures DotEscapeAt(s, i) <==>
                     0 <= i <= |s| - 3 && s[i] == PERCENT && s[i + 1] == 0x32 && (s[i + 2] == 0x65 || s[i + 2] == 0x45) {}
    forall i | DotEscapeAt(s, i) ensures 0 <= i <= |s| - 3 && s[i] == PERCENT {}
  }

  // A path is refused exactly when it does not start with a slash, an escape of it is broken, what it
  // decodes to is not UTF-8 or holds an ambiguous byte, or its dot segments climb over the root or
  // stand beside an escaped dot.
  lemma RefusedIff(raw: Bytes)
    ensures var path := PathPart(raw);
            Normalized(raw).None? <==>
            || raw == [] || raw[0] != 0x2F || (exists i :: Broken(path, i))
            || (Decoded(path).Some? &&
                var bytes := Decoded(path).value;
                || !IsText(bytes) || Ambiguous(bytes)
                || (if EscapesADot(path) then HasDots(Split(bytes, 0x2F)) else ClimbsOut(Split(bytes, 0x2F))))
  {
    var path := PathPart(raw);
    BreaksIff(path);
    DotsAreHidden(path);
    if Decoded(path).Some? {
      var bytes := Decoded(path).value;
      Utf8Iff(bytes);
      ResolvedIff(Split(bytes, 0x2F), HidesDots(path));
      assert Clean(bytes) <==> !Ambiguous(bytes);
    }
    hide Decoded, IsText, IsUtf8, HidesDots, EscapesADot, Resolved, HasDots, ClimbsOut, Rendered, Clean, Ambiguous;
  }
}
