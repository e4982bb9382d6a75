// Path normalisation: what the gate matches routes against. Paths are bytes.
module RoutePath {
  import opened Prelude
  import opened Segments

  type Octet = b: int | 0 <= b < 256
  type Bytes = seq<Octet>

  const SLASH: Octet := 0x2F
  const PERCENT: Octet := 0x25
  const DOT: Bytes := [0x2E]
  const DOTS: Bytes := [0x2E, 0x2E]

  // ---------------------------------------------------------------- decoding

  function Unhex(c: Octet): Option<int> {
    if 0x30 <= c <= 0x39 then Some(c - 0x30)
    else if 0x61 <= c <= 0x66 then Some(c - 0x61 + 10)
    else if 0x41 <= c <= 0x46 then Some(c - 0x41 + 10)
    else None
  }

  lemma UnhexSmall(c: Octet)
    ensures Unhex(c).Some? ==> 0 <= Unhex(c).value < 16
  {
  }

  function Before(b: Bytes, rest: Option<Bytes>): Option<Bytes> {
    if rest.None? then None else Some(b + rest.value)
  }

  lemma BeforeBefore(a: Bytes, b: Bytes, rest: Option<Bytes>)
    ensures Before([], rest) == rest && Before(a, Before(b, rest)) == Before(a + b, rest)
  {
    if rest.Some? { assert [] + rest.value == rest.value && a + (b + rest.value) == a + b + rest.value; }
  }

  // One round of percent-decoding; none when an escape is cut short or not hexadecimal.
  function Decoded(s: Bytes): Option<Bytes> {
    if s == [] then Some([])
    else if s[0] != PERCENT then Before([s[0]], Decoded(s[1..]))
    else if |s| < 3 || Unhex(s[1]).None? || Unhex(s[2]).None? then None
    else
      UnhexSmall(s[1]);
      UnhexSmall(s[2]);
      Before([16 * Unhex(s[1]).value + Unhex(s[2]).value], Decoded(s[3..]))
  }

  method DecodeOnce(s: Bytes) returns (r: Option<Bytes>)
    ensures r == Decoded(s)
  {
    var b: Bytes := [];
    var i := 0;
    assert s[0..] == s;
    BeforeBefore([], [], Decoded(s));
    while i < |s|
      invariant i <= |s|
      invariant Decoded(s) == Before(b, Decoded(s[i..]))
    {
      if s[i] != PERCENT {
        assert s[i..][1..] == s[i + 1..];
        BeforeBefore(b, [s[i]], Decoded(s[i + 1..]));
        b := b + [s[i]];
        i := i + 1;
        continue;
      }
      if i + 2 >= |s| {
        return None;
      }
      var hi, lo := Unhex(s[i + 1]), Unhex(s[i + 2]);
      if hi.None? || lo.None? {
        return None;
      }
      assert s[i..][3..] == s[i + 3..];
      UnhexSmall(s[i + 1]);
      UnhexSmall(s[i + 2]);
      BeforeBefore(b, [16 * hi.value + lo.value], Decoded(s[i + 3..]));
      b := b + [16 * hi.value + lo.value];
      i := i + 3;
    }
    assert s[i..] == [];
    BeforeBefore(b, [], Some([]));
    assert b + [] == b;
    r := Some(b);
  }

  lemma {:induction false} NothingToDecode(s: Bytes)
    requires PERCENT !in s
    ensures Decoded(s) == Some(s)
  {
    if s != [] {
      NothingToDecode(s[1..]);
      assert [s[0]] + s[1..] == s;
    }
  }

  // ---------------------------------------------------------------- UTF-8

  predicate Between(s: Bytes, i: nat, low: int, high: int) {
    i < |s| && low <= s[i] <= high
  }

  // The length of the well-formed sequence s starts with; 0 when there is none.
  function RuneLength(s: Bytes): (n: nat)
    ensures n <= |s|
  {
    if Between(s, 0, 0x00, 0x7F) then 1
    else if Between(s, 0, 0xC2, 0xDF) then (if Between(s, 1, 0x80, 0xBF) then 2 else 0)
    else if Between(s, 0, 0xE0, 0xEF) then
      var low, high := if s[0] == 0xE0 then 0xA0 else 0x80, if s[0] == 0xED then 0x9F else 0xBF;
      if Between(s, 1, low, high) && Between(s, 2, 0x80, 0xBF) then 3 else 0
    else if Between(s, 0, 0xF0, 0xF4) then
      var low, high := if s[0] == 0xF0 then 0x90 else 0x80, if s[0] == 0xF4 then 0x8F else 0xBF;
      if Between(s, 1, low, high) && Between(s, 2, 0x80, 0xBF) && Between(s, 3, 0x80, 0xBF) then 4 else 0
    else 0
  }

  predicate IsUtf8(s: Bytes)
    decreases |s|
  {
    s == [] || (RuneLength(s) > 0 && IsUtf8(s[RuneLength(s)..]))
  }

  lemma {:induction false} Utf8Joins(a: Bytes, b: Bytes)
    requires IsUtf8(a) && IsUtf8(b)
    ensures IsUtf8(a + b)
    decreases |a|
  {
    if a == [] {
      assert a + b == b;
    } else {
      var n := RuneLength(a);
      assert RuneLength(a + b) == n;
      Utf8Joins(a[n..], b);
      assert (a + b)[n..] == a[n..] + b;
    }
  }

  // Splitting at an ASCII byte cuts no sequence in two.
  lemma {:induction false} Utf8Splits(a: Bytes, c: Octet, b: Bytes)
    requires IsUtf8(a + [c] + b) && c < 0x80
    ensures IsUtf8(a) && IsUtf8(b)
    decreases |a|
  {
    var s := a + [c] + b;
    var n := RuneLength(s);
    if a == [] {
      assert s[1..] == b;
    } else {
      assert n <= |a| by { RuneStopsAtAscii(s, |a|); }
      assert RuneLength(a) == n by { RuneIsLocal(a, [c] + b); }
      assert s[n..] == a[n..] + [c] + b;
      Utf8Splits(a[n..], c, b);
    }
  }

  lemma RuneStopsAtAscii(s: Bytes, k: nat)
    requires 0 < k < |s| && s[k] < 0x80
    ensures RuneLength(s) <= k
  {
  }

  lemma RuneIsLocal(a: Bytes, b: Bytes)
    requires 0 < RuneLength(a + b) <= |a|
    ensures RuneLength(a) == RuneLength(a + b)
  {
  }

  // ---------------------------------------------------------------- normalising

  predicate Forbidden(c: Octet) {
    c < 0x20 || c == 0x7F || c == 0x5C || c == 0x3B || c == PERCENT || c == 0x23 || c == 0x3F
  }

  predicate Clean(s: Bytes) {
    forall i :: 0 <= i < |s| ==> !Forbidden(s[i])
  }

  // strings.IndexAny(raw, "?#"), the length when there is none.
  function Delimiter(raw: Bytes): (i: nat)
    ensures i <= |raw| && (i < |raw| ==> raw[i] == 0x3F || raw[i] == 0x23)
    ensures forall k :: 0 <= k < i ==> raw[k] != 0x3F && raw[k] != 0x23
  {
    if raw == [] || raw[0] == 0x3F || raw[0] == 0x23 then 0 else 1 + Delimiter(raw[1..])
  }

  predicate HidesDots(raw: Bytes) {
    exists i :: 0 <= i <= |raw| - 3 && raw[i] == PERCENT && raw[i + 1] == 0x32 && (raw[i + 2] == 0x65 || raw[i + 2] == 0x45)
  }

  // The segments evaluated on a stack; none when one climbs over the root or hid its dots.
  function Resolved(segs: seq<Bytes>, hidden: bool): Option<seq<Bytes>> {
    if segs == [] then Some([])
    else
      var s, before := segs[|segs| - 1], Resolved(segs[..|segs| - 1], hidden);
      if before.None? then None
      else if s == [] then before
      else if s == DOT then (if hidden then None else before)
      else if s == DOTS then
        (if hidden || before.value == [] then None else Some(before.value[..|before.value| - 1]))
      else Some(before.value + [s])
  }

  function Rendered(out: seq<Bytes>, trailing: bool): Bytes {
    var norm := [SLASH] + Join(out, SLASH);
    if trailing && norm != [SLASH] then norm + [SLASH] else norm
  }

  // What is left of a path once query and fragment are off.
  function PathPart(raw: Bytes): Bytes {
    raw[..Delimiter(raw)]
  }

  predicate EndsInSlash(s: Bytes) {
    s != [] && s[|s| - 1] == SLASH && s != [SLASH]
  }

  function Normalized(raw: Bytes): Option<Bytes> {
    if raw == [] || raw[0] != SLASH then None
    else
      var decoded := Decoded(PathPart(raw));
      if decoded.None? || !IsUtf8(decoded.value) || !Clean(decoded.value) then None
      else
        var out := Resolved(Split(decoded.value, SLASH), HidesDots(PathPart(raw)));
        if out.None? then None else Some(Rendered(out.value, EndsInSlash(decoded.value)))
  }

  method NormalizePath(raw: Bytes) returns (r: Option<Bytes>)
    ensures r == Normalized(raw)
  {
    if raw == [] || raw[0] != SLASH {
      return None;
    }
    var path := raw[..Delimiter(raw)];
    var decoded := DecodeOnce(path);
    if decoded.None? || !IsUtf8(decoded.value) {
      return None;
    }
    var bytes := decoded.value;
    var hidden := HidesDots(path);
    for i := 0 to |bytes|
      invariant forall k :: 0 <= k < i ==> !Forbidden(bytes[k])
    {
      if Forbidden(bytes[i]) {
        return None;
      }
    }
    var trailing := EndsInSlash(bytes);
    var segs := Split(bytes, SLASH);
    var out: seq<Bytes> := [];
    for i := 0 to |segs|
      invariant Resolved(segs[..i], hidden) == Some(out)
    {
      var s := segs[i];
      assert segs[..i + 1][..i] == segs[..i];
      if s != [] && ((s == DOT && hidden) || (s == DOTS && (hidden || out == []))) {
        RaisedStays(segs, i + 1, hidden);
        return None;
      }
      if s == DOTS {
        out := out[..|out| - 1];
      } else if s != [] && s != DOT {
        out := out + [s];
      }
    }
    assert segs[..|segs|] == segs;
    var norm := [SLASH] + Join(out, SLASH);
    if trailing && norm != [SLASH] {
      norm := norm + [SLASH];
    }
    r := Some(norm);
  }

  lemma {:induction false} RaisedStays(segs: seq<Bytes>, i: nat, hidden: bool)
    requires i <= |segs| && Resolved(segs[..i], hidden).None?
    ensures Resolved(segs, hidden).None?
    decreases |segs| - i
  {
    if i == |segs| {
      assert segs[..i] == segs;
    } else {
      assert segs[..i + 1][..i] == segs[..i];
      RaisedStays(segs, i + 1, hidden);
    }
  }

  // ---------------------------------------------------------------- canonical paths

  predicate Proper(s: Bytes) {
    s != [] && s != DOT && s != DOTS
  }

  // A leading slash, proper segments, at most one slash at the end, nothing ambiguous.
  predicate Canonical(p: Bytes) {
    var segs := Split(p, SLASH);
    && p != [] && p[0] == SLASH && Clean(p) && IsUtf8(p)
    && |segs| >= 2 && segs[0] == []
    && (forall i :: 1 <= i < |segs| - 1 ==> Proper(segs[i]))
    && (segs[|segs| - 1] == [] || Proper(segs[|segs| - 1]))
  }

  predicate Fine(s: Bytes) {
    Clean(s) && IsUtf8(s)
  }

  lemma FineJoin(a: Bytes, b: Bytes)
    ensures Fine(a + [SLASH] + b) <==> Fine(a) && Fine(b)
  {
    var s := a + [SLASH] + b;
    if Clean(s) {
      forall i | 0 <= i < |a| ensures !Forbidden(a[i]) { assert a[i] == s[i]; }
      forall i | 0 <= i < |b| ensures !Forbidden(b[i]) { assert b[i] == s[|a| + 1 + i]; }
    }
    if IsUtf8(s) { Utf8Splits(a, SLASH, b); }
    if IsUtf8(a) && IsUtf8(b) {
      assert IsUtf8([SLASH]) by { assert [SLASH][1..] == []; }
      Utf8Joins(a, [SLASH]);
      Utf8Joins(a + [SLASH], b);
    }
  }

  predicate AllFine(segs: seq<Bytes>) {
    forall i :: 0 <= i < |segs| ==> Fine(segs[i])
  }

  lemma {:induction false} FineSegments(segs: seq<Bytes>)
    requires segs != []
    ensures Fine(Join(segs, SLASH)) <==> AllFine(segs)
  {
    hide Fine;
    if |segs| > 1 {
      FineJoin(segs[0], Join(segs[1..], SLASH));
      FineSegments(segs[1..]);
      assert segs == [segs[0]] + segs[1..];
    }
  }

  // What is on the stack came from the segments and is proper.
  lemma {:induction false} StackIsProper(segs: seq<Bytes>, hidden: bool, i: nat)
    requires Resolved(segs, hidden).Some? && i < |Resolved(segs, hidden).value|
    ensures Proper(Resolved(segs, hidden).value[i]) && Resolved(segs, hidden).value[i] in segs
    decreases |segs|
  {
    var n := |segs| - 1;
    assert segs == segs[..n] + [segs[n]];
    if i < |Resolved(segs[..n], hidden).value| { StackIsProper(segs[..n], hidden, i); }
  }

  // The segments of the normal form: the root, the stack, and the empty one a last slash leaves.
  function Framed(out: seq<Bytes>, trailing: bool): seq<Bytes> {
    [[]] + out + (if trailing || out == [] then [[]] else [])
  }

  lemma {:induction false} JoinLast(segs: seq<Bytes>)
    requires segs != []
    ensures Join(segs + [[]], SLASH) == Join(segs, SLASH) + [SLASH]
  {
    if |segs| > 1 {
      JoinLast(segs[1..]);
      assert (segs + [[]])[1..] == segs[1..] + [[]];
    }
  }

  lemma RenderedIsJoin(out: seq<Bytes>, trailing: bool)
    requires forall i :: 0 <= i < |out| ==> out[i] != []
    ensures Rendered(out, trailing) == Join(Framed(out, trailing), SLASH)
  {
    if out == [] {
      assert Framed(out, trailing)[1..] == [[]];
    } else {
      var rooted := [[]] + out;
      assert rooted[1..] == out;
      assert Join(rooted, SLASH) == [SLASH] + Join(out, SLASH);
      assert Join(out, SLASH) != [];
      JoinLast(rooted);
      assert Framed(out, trailing) == if trailing then rooted + [[]] else rooted;
    }
  }

  // The normal form's segments are the stack the decoded path's segments leave.
  lemma SegmentsAreTheStack(raw: Bytes)
    requires Normalized(raw).Some?
    ensures var decoded := Decoded(PathPart(raw)).value;
            var out := Resolved(Split(decoded, SLASH), HidesDots(PathPart(raw)));
            out.Some? && Split(Normalized(raw).value, SLASH) == Framed(out.value, EndsInSlash(decoded))
            && Normalized(raw).value == Join(Framed(out.value, EndsInSlash(decoded)), SLASH)
  {
    var decoded, hidden := Decoded(PathPart(raw)).value, HidesDots(PathPart(raw));
    var out := Resolved(Split(decoded, SLASH), hidden).value;
    SplitIsWithout(decoded, SLASH);
    forall i | 0 <= i < |out| ensures out[i] != [] && SLASH !in out[i] { StackIsProper(Split(decoded, SLASH), hidden, i); }
    RenderedIsJoin(out, EndsInSlash(decoded));
    SplitJoin(Framed(out, EndsInSlash(decoded)), SLASH);
  }

  lemma NormalizedIsCanonical(raw: Bytes)
    requires Normalized(raw).Some?
    ensures Canonical(Normalized(raw).value)
  {
    hide Normalized, Resolved, Join, Split, Decoded, IsUtf8, Clean, Rendered;
    Unfolded(raw);
    var decoded, hidden := Decoded(PathPart(raw)).value, HidesDots(PathPart(raw));
    var out := Resolved(Split(decoded, SLASH), hidden).value;
    var framed, norm := Framed(out, EndsInSlash(decoded)), Normalized(raw).value;
    SegmentsAreTheStack(raw);
    JoinSplit(decoded, SLASH);
    FineSegments(Split(decoded, SLASH));
    forall i | 0 <= i < |out| ensures Proper(out[i]) && Fine(out[i]) { StackIsProper(Split(decoded, SLASH), hidden, i); }
    NothingIsFine();
    FineSegments(framed);
    StartsWithSlash(framed);
  }

  lemma NothingIsFine()
    ensures Fine([])
  {
  }

  lemma StartsWithSlash(segs: seq<Bytes>)
    requires |segs| >= 2 && segs[0] == []
    ensures Join(segs, SLASH) != [] && Join(segs, SLASH)[0] == SLASH
  {
  }

  lemma Unfolded(raw: Bytes)
    requires Normalized(raw).Some?
    ensures Decoded(PathPart(raw)).Some? && Fine(Decoded(PathPart(raw)).value)
    ensures Resolved(Split(Decoded(PathPart(raw)).value, SLASH), HidesDots(PathPart(raw))).Some?
  {
  }

  // ---------------------------------------------------------------- canonical paths are the fixed points

  lemma {:induction false} ProperIsKept(segs: seq<Bytes>, k: nat)
    requires 1 <= k <= |segs| && segs[0] == [] && forall i :: 1 <= i < k ==> Proper(segs[i])
    ensures Resolved(segs[..k], false) == Some(segs[1..k])
    decreases k
  {
    assert segs[..k][..k - 1] == segs[..k - 1];
    if k == 1 {
      assert segs[..0] == [] && segs[1..1] == [] && segs[..1][0] == [];
      assert Resolved(segs[..0], false) == Some([]);
    } else {
      ProperIsKept(segs, k - 1);
      assert segs[1..k] == segs[1..k - 1] + [segs[k - 1]];
    }
  }

  lemma {:induction false} LastSegment(segs: seq<Bytes>)
    requires |segs| >= 2 && Without(segs, SLASH)
    ensures |Join(segs, SLASH)| > 0 && (Join(segs, SLASH)[|Join(segs, SLASH)| - 1] == SLASH <==> segs[|segs| - 1] == [])
    decreases |segs|
  {
    if |segs| == 2 {
      assert segs[1..] == [segs[1]];
    } else {
      LastSegment(segs[1..]);
    }
  }

  lemma CleanHasNoEscapes(p: Bytes)
    requires Clean(p)
    ensures PathPart(p) == p && PERCENT !in p && !HidesDots(p)
  {
  }

  lemma CanonicalIsFixed(p: Bytes)
    requires Canonical(p)
    ensures Normalized(p) == Some(p)
  {
    hide Decoded, IsUtf8, Clean, Resolved, Rendered, Split, Join, PathPart, HidesDots;
    CleanHasNoEscapes(p);
    NothingToDecode(p);
    var segs := Split(p, SLASH);
    var n := |segs| - 1;
    JoinSplit(p, SLASH);
    SplitIsWithout(p, SLASH);
    LastSegment(segs);
    var out := if segs[n] == [] then segs[1..n] else segs[1..];
    ResolvedCanonical(segs, out);
    RenderedIsJoin(out, EndsInSlash(p));
    if segs[n] == [] {
      assert segs == [[]] + out + [[]];
      if p == [SLASH] { RootHasTwo(); }
      assert Framed(out, EndsInSlash(p)) == segs;
    } else {
      assert segs == [[]] + out;
      assert Framed(out, EndsInSlash(p)) == segs;
    }
  }

  lemma RootHasTwo()
    ensures Split([SLASH], SLASH) == [[], []]
  {
    SplitFirst([], [], SLASH);
    assert [] + [SLASH] + [] == [SLASH];
  }

  lemma ResolvedCanonical(segs: seq<Bytes>, out: seq<Bytes>)
    requires |segs| >= 2 && segs[0] == [] && (forall i :: 1 <= i < |segs| - 1 ==> Proper(segs[i]))
    requires segs[|segs| - 1] == [] || Proper(segs[|segs| - 1])
    requires out == if segs[|segs| - 1] == [] then segs[1..|segs| - 1] else segs[1..]
    ensures Resolved(segs, false) == Some(out)
  {
    hide Resolved, Proper;
    var n := |segs| - 1;
    var front, last, body := segs[..n], segs[n], segs[1..n];
    ProperIsKept(segs, n);
    ResolvedMore(front, last);
    LastApart(segs);
  }

  lemma LastApart(segs: seq<Bytes>)
    requires |segs| >= 2
    ensures var n := |segs| - 1; segs[..n] + [segs[n]] == segs && segs[1..] == segs[1..n] + [segs[n]]
  {
  }

  lemma ResolvedMore(segs: seq<Bytes>, s: Bytes)
    requires Resolved(segs, false).Some?
    ensures s == [] ==> Resolved(segs + [s], false) == Resolved(segs, false)
    ensures Proper(s) ==> Resolved(segs + [s], false) == Some(Resolved(segs, false).value + [s])
  {
    assert (segs + [s])[..|segs|] == segs;
  }

  // The paths normalising leaves alone are the canonical ones, and it always leaves one of them:
  // a second pass changes nothing.
  lemma FixedIffCanonical(p: Bytes)
    ensures Normalized(p) == Some(p) <==> Canonical(p)
  {
    if Normalized(p) == Some(p) { NormalizedIsCanonical(p); }
    if Canonical(p) { CanonicalIsFixed(p); }
  }

  lemma NormalizingTwiceIsOnce(raw: Bytes)
    requires Normalized(raw).Some?
    ensures Normalized(Normalized(raw).value) == Normalized(raw)
  {
    NormalizedIsCanonical(raw);
    CanonicalIsFixed(Normalized(raw).value);
  }
}
