// Cutting a sequence at a separator and joining it again.
module Segments {

  function Split<T(==)>(s: seq<T>, sep: T): (segs: seq<seq<T>>)
    ensures |segs| > 0
  {
    if s == [] then [[]]
    else
      var rest := Split(s[1..], sep);
      if s[0] == sep then [[]] + rest else [[s[0]] + rest[0]] + rest[1..]
  }

  function Join<T>(segs: seq<seq<T>>, sep: T): seq<T> {
    if segs == [] then [] else if |segs| == 1 then segs[0] else segs[0] + [sep] + Join(segs[1..], sep)
  }

  predicate Without<T(==)>(segs: seq<seq<T>>, sep: T) {
    forall i :: 0 <= i < |segs| ==> sep !in segs[i]
  }

  lemma {:induction false} SplitIsWithout<T>(s: seq<T>, sep: T)
    ensures Without(Split(s, sep), sep)
  {
    if s != [] { SplitIsWithout(s[1..], sep); }
  }

  lemma {:induction false} JoinSplit<T>(s: seq<T>, sep: T)
    ensures Join(Split(s, sep), sep) == s
  {
    if s != [] {
      var rest := Split(s[1..], sep);
      JoinSplit(s[1..], sep);
      if s[0] == sep { assert Split(s, sep)[1..] == rest; } else { assert Split(s, sep)[1..] == rest[1..]; }
    }
  }

  lemma {:induction false} SplitFirst<T>(a: seq<T>, b: seq<T>, sep: T)
    requires sep !in a
    ensures Split(a + [sep] + b, sep) == [a] + Split(b, sep) && Split(a, sep) == [a]
    decreases |a|
  {
    if a == [] {
      assert (a + [sep] + b)[1..] == b;
    } else {
      SplitFirst(a[1..], b, sep);
      assert (a + [sep] + b)[1..] == a[1..] + [sep] + b;
      assert [a[0]] + a[1..] == a;
    }
  }

  lemma {:induction false} SplitJoin<T>(segs: seq<seq<T>>, sep: T)
    requires segs != [] && Without(segs, sep)
    ensures Split(Join(segs, sep), sep) == segs
  {
    if |segs| == 1 {
      SplitFirst(segs[0], [], sep);
    } else {
      SplitFirst(segs[0], Join(segs[1..], sep), sep);
      SplitJoin(segs[1..], sep);
    }
  }
}
