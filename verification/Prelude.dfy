// Shared vocabulary: identifiers, optional values, outcomes of a routine that may raise.
module Prelude {

  datatype Option<+T> = None | Some(value: T)

  datatype Result<+T, +E> = Ok(value: T) | Err(error: E)

  // The text form of a uuid; the model never looks inside one except where the source does.
  type Id = string

  lemma Member<T>(s: set<T>) returns (x: T)
    requires s != {}
    ensures x in s
  {
    x :| x in s;
  }

  lemma {:induction false} GreatestExists(s: set<int>)
    requires s != {}
    ensures exists m :: m in s && forall x :: x in s ==> x <= m
  {
    var e := Member(s);
    if s != {e} {
      GreatestExists(s - {e});
      var m :| m in s - {e} && forall x :: x in s - {e} ==> x <= m;
      var top := if e > m then e else m;
      assert forall x :: x in s ==> x == e || x in s - {e};
      assert top in s && forall x :: x in s ==> x <= top;
    }
  }

  // SQL's max() over a non-empty set of values.
  function MaxOf(s: set<int>): (m: int)
    requires s != {}
    ensures m in s && forall x :: x in s ==> x <= m
  {
    GreatestExists(s);
    var m :| m in s && forall x :: x in s ==> x <= m;
    m
  }

  lemma {:induction false} LeastExists(s: set<int>)
    requires s != {}
    ensures exists m :: m in s && forall x :: x in s ==> m <= x
  {
    var t := set x | x in s :: -x;
    var e := Member(s);
    assert -e in t;
    var m := MaxOf(t);
    forall x | x in s
      ensures -m <= x
    {
      assert -x in t;
    }
    assert -m in s;
  }

  // SQL's min() over a non-empty set of values.
  function MinOf(s: set<int>): (m: int)
    requires s != {}
    ensures m in s && forall x :: x in s ==> m <= x
  {
    LeastExists(s);
    var m :| m in s && forall x :: x in s ==> m <= x;
    m
  }

  // More values than there are places for them: two are the same.
  lemma {:induction false} Pigeonhole(s: seq<int>, n: nat)
    requires |s| > n && forall i :: 0 <= i < |s| ==> 0 <= s[i] < n
    ensures exists i, j :: 0 <= i < j < |s| && s[i] == s[j]
  {
    assert 0 <= s[0] < n;
    if n > 0 {
      if i, j :| 0 <= i < j < |s| && s[i] == s[j] == n - 1 {
      } else if i :| 0 <= i < |s| && s[i] == n - 1 {
        var rest := s[..i] + s[i + 1..];
        Pigeonhole(rest, n - 1);
        var a, b :| 0 <= a < b < |rest| && rest[a] == rest[b];
        var a', b' := if a < i then a else a + 1, if b < i then b else b + 1;
        assert s[a'] == s[b'];
      } else {
        Pigeonhole(s, n - 1);
      }
    }
  }
}
