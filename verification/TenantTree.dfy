// The tree of companies and the trigger that keeps it one.
module TenantTree {
  import opened Prelude

  // Each company's parent.
  type Parents = map<Id, Option<Id>>

  datatype Fault = Cycle | TooDeep | UnknownParent

  const MAX_LEVELS := 6

  // ---------------------------------------------------------------- the trigger

  // SELECT parent_id ... WHERE id = x: null for a company that is not there.
  function ParentOf(t: Parents, x: Id): Option<Id> {
    if x in t then t[x] else None
  }

  // The upward walk from `at`; it stops at the bound whatever the rows say.
  function Climb(t: Parents, id: Id, at: Option<Id>, depth: nat): Result<nat, Fault>
    requires depth <= MAX_LEVELS
    decreases MAX_LEVELS - depth
  {
    if at.None? then Ok(depth)
    else if at.value == id then Err(Cycle)
    else if depth + 1 > MAX_LEVELS then Err(TooDeep)
    else Climb(t, id, ParentOf(t, at.value), depth + 1)
  }

  // The companies d levels below id.
  function Rows(t: Parents, id: Id, d: nat): set<Id> {
    if d == 0 then {id}
    else set x | x in t && t[x].Some? && t[x].value in Rows(t, id, d - 1)
  }

  // COALESCE(max(d), 0) of the downward recursion, which goes no further than d.
  function Deepest(t: Parents, id: Id, d: nat): (h: nat)
    ensures h <= d && (h > 0 ==> Rows(t, id, h) != {})
    ensures forall k :: h < k <= d ==> Rows(t, id, k) == {}
  {
    if d == 0 then 0 else if Rows(t, id, d) != {} then d else Deepest(t, id, d - 1)
  }

  // What the trigger makes of a row with this parent; none is no objection.
  function Guard(t: Parents, id: Id, parent: Option<Id>): Option<Fault> {
    if parent.None? then None
    else
      match Climb(t, id, parent, 1)
      case Err(f) => Some(f)
      case Ok(depth) => if depth + Deepest(t, id, MAX_LEVELS + 1) > MAX_LEVELS then Some(TooDeep) else None
  }

  class Tenants {
    var parents: Parents

    constructor ()
      ensures parents == map[] && Forest(parents)
    {
      parents := map[];
    }

    // An insert, or an update of the parent; a refused one leaves the table as it was.
    method SetParent(id: Id, parent: Option<Id>) returns (r: Option<Fault>)
      requires Forest(parents)
      modifies this
      ensures Forest(parents)
      ensures r.None? <==> (parent.Some? ==> parent.value == id || parent.value in old(parents)) && Forest(old(parents)[id := parent])
      ensures parents == if r.None? then old(parents)[id := parent] else old(parents)
    {
      GuardIsExact(parents, id, parent);
      if parent.Some? {
        var at, depth := parent, 1;
        while at.Some?
          invariant depth <= MAX_LEVELS
          invariant Climb(parents, id, at, depth) == Climb(parents, id, parent, 1)
          decreases MAX_LEVELS - depth
        {
          if at.value == id {
            return Some(Cycle);
          }
          depth := depth + 1;
          if depth > MAX_LEVELS {
            return Some(TooDeep);
          }
          at := ParentOf(parents, at.value);
        }
        if depth + Deepest(parents, id, MAX_LEVELS + 1) > MAX_LEVELS {
          return Some(TooDeep);
        }
        if parent.value !in parents {
          return Some(UnknownParent);
        }
      }
      parents := parents[id := parent];
      r := None;
    }
  }

  // ---------------------------------------------------------------- the property

  // x hangs from a root by a chain of at most n companies, itself included.
  predicate Rooted(t: Parents, x: Id, n: nat)
    decreases n
  {
    n > 0 && x in t && (t[x].Some? ==> Rooted(t, t[x].value, n - 1))
  }

  // A forest of height at most six: no loops, every parent there.
  predicate Forest(t: Parents) {
    forall x :: x in t ==> Rooted(t, x, 6)
  }

  lemma {:induction false} Loosen(t: Parents, x: Id, n: nat, n': nat)
    requires Rooted(t, x, n) && n <= n'
    ensures Rooted(t, x, n')
    decreases n
  {
    if t[x].Some? { Loosen(t, t[x].value, n - 1, n' - 1); }
  }

  // ---------------------------------------------------------------- accepted: still a forest

  // A walk that came to its end counted the levels of the chain exactly.
  lemma {:induction false} ClimbCounts(t: Parents, t': Parents, id: Id, a: Id, depth: nat, n: nat)
    requires depth <= MAX_LEVELS && Climb(t, id, Some(a), depth) == Ok(n) && a in t && Forest(t)
    requires forall x :: x in t && x != id ==> x in t' && t'[x] == t[x]
    ensures n > depth && Rooted(t', a, n - depth) && !Rooted(t', a, n - depth - 1)
    decreases MAX_LEVELS - depth
  {
    if t[a].Some? {
      assert Rooted(t, a, MAX_LEVELS);
      ClimbCounts(t, t', id, t[a].value, depth + 1, n);
    }
  }

  // A company's chain either misses id, and is unchanged, or id is some levels above it.
  lemma {:induction false} UnchangedOrBelow(t: Parents, t': Parents, id: Id, x: Id, n: nat)
    requires Rooted(t, x, n) && forall y :: y in t && y != id ==> y in t' && t'[y] == t[y]
    ensures Rooted(t', x, n) || exists j: nat :: j < n && x in Rows(t, id, j)
    decreases n
  {
    if x == id {
      assert x in Rows(t, id, 0);
    } else if t[x].Some? {
      UnchangedOrBelow(t, t', id, t[x].value, n - 1);
      if !Rooted(t', x, n) {
        var j: nat :| j < n - 1 && t[x].value in Rows(t, id, j);
        assert x in Rows(t, id, j + 1);
      }
    }
  }

  lemma {:induction false} HangsBelow(t: Parents, t': Parents, id: Id, x: Id, j: nat, n: nat)
    requires x in Rows(t, id, j) && Rooted(t', id, n) && forall y :: y in t && y != id ==> y in t' && t'[y] == t[y]
    ensures Rooted(t', x, n + j)
    decreases j
  {
    if x == id {
      Loosen(t', id, n, n + j);
    } else {
      HangsBelow(t, t', id, t[x].value, j - 1, n);
    }
  }

  lemma AcceptedIsForest(t: Parents, id: Id, parent: Option<Id>)
    requires Forest(t) && Guard(t, id, parent).None? && (parent.Some? ==> parent.value in t)
    ensures Forest(t[id := parent])
  {
    var t' := t[id := parent];
    var n := if parent.None? then 1 else Climb(t, id, parent, 1).value;
    if parent.Some? { ClimbCounts(t, t', id, parent.value, 1, n); }
    assert Rooted(t', id, n);
    Loosen(t', id, n, MAX_LEVELS);
    forall x | x in t' ensures Rooted(t', x, MAX_LEVELS) {
      if x != id {
        UnchangedOrBelow(t, t', id, x, MAX_LEVELS);
        if !Rooted(t', x, MAX_LEVELS) {
          var j: nat :| j < MAX_LEVELS && x in Rows(t, id, j);
          HangsBelow(t, t', id, x, j, n);
          if parent.Some? { Loosen(t', x, n + j, MAX_LEVELS); } else { Loosen(t', x, 1 + j, MAX_LEVELS); }
        }
      }
    }
  }

  // ---------------------------------------------------------------- refused: it would not be one

  lemma {:induction false} ClimbFindsId(t: Parents, t': Parents, id: Id, a: Id, depth: nat, n: nat) returns (n': nat)
    requires depth <= MAX_LEVELS && Climb(t, id, Some(a), depth) == Err(Cycle) && Rooted(t', a, n)
    requires forall y :: y in t && y != id ==> y in t' && t'[y] == t[y]
    ensures n' <= n && Rooted(t', id, n')
    decreases MAX_LEVELS - depth
  {
    if a == id {
      n' := n;
    } else {
      n' := ClimbFindsId(t, t', id, t[a].value, depth + 1, n - 1);
    }
  }

  lemma {:induction false} LoopIsRootless(t: Parents, id: Id, parent: Id, n: nat)
    requires Climb(t, id, Some(parent), 1) == Err(Cycle)
    ensures !Rooted(t[id := Some(parent)], id, n)
    decreases n
  {
    var t' := t[id := Some(parent)];
    if Rooted(t', id, n) {
      var n' := ClimbFindsId(t, t', id, parent, 1, n - 1);
      LoopIsRootless(t, id, parent, n');
    }
  }

  lemma {:induction false} LongClimb(t: Parents, t': Parents, id: Id, a: Id, depth: nat)
    requires depth <= MAX_LEVELS && Climb(t, id, Some(a), depth) == Err(TooDeep)
    requires forall y :: y in t && y != id ==> y in t' && t'[y] == t[y]
    ensures !Rooted(t', a, MAX_LEVELS - depth)
    decreases MAX_LEVELS - depth
  {
    if depth < MAX_LEVELS { LongClimb(t, t', id, t[a].value, depth + 1); }
  }

  lemma {:induction false} AboveRows(t: Parents, id: Id, x: Id, j: nat, n: nat)
    requires x in Rows(t, id, j) && Rooted(t, x, n)
    ensures j < n && Rooted(t, id, n - j)
    decreases j
  {
    if j > 0 { AboveRows(t, id, t[x].value, j - 1, n - 1); }
  }

  lemma {:induction false} NotBelowItself(t: Parents, id: Id, j: nat, n: nat)
    requires j > 0 && Rooted(t, id, n)
    ensures id !in Rows(t, id, j)
    decreases n
  {
    if id in Rows(t, id, j) {
      AboveRows(t, id, id, j, n);
      NotBelowItself(t, id, j, n - j);
    }
  }

  // In the changed table too, a company j levels below id stands j levels below it.
  lemma {:induction false} StillAbove(t: Parents, t': Parents, id: Id, x: Id, j: nat, n: nat)
    requires Forest(t) && x in Rows(t, id, j) && Rooted(t', x, n)
    requires forall y :: y in t && y != id ==> y in t' && t'[y] == t[y]
    ensures j < n && Rooted(t', id, n - j)
    decreases j
  {
    if j > 0 {
      if id in t { NotBelowItself(t, id, j, MAX_LEVELS); }
      assert Rooted(t, x, MAX_LEVELS);
      RowsAreThere(t, id, x, j);
      StillAbove(t, t', id, t[x].value, j - 1, n - 1);
    }
  }

  lemma {:induction false} RowsAreThere(t: Parents, id: Id, x: Id, j: nat)
    requires Forest(t) && x in Rows(t, id, j) && j > 0
    ensures id in t && x != id
    decreases j
  {
    AboveRows(t, id, x, j, MAX_LEVELS);
    NotBelowItself(t, id, j, MAX_LEVELS);
  }

  lemma RefusedIsNoForest(t: Parents, id: Id, parent: Id)
    requires Forest(t) && Guard(t, id, Some(parent)).Some? && (parent in t || parent == id)
    ensures !Forest(t[id := Some(parent)])
  {
    var t' := t[id := Some(parent)];
    match Climb(t, id, Some(parent), 1)
    case Err(Cycle) => LoopIsRootless(t, id, parent, MAX_LEVELS);
    case Err(TooDeep) =>
      LongClimb(t, t', id, parent, 1);
      assert !Rooted(t', id, MAX_LEVELS);
    case Err(UnknownParent) =>
    case Ok(n) =>
      ClimbCounts(t, t', id, parent, 1, n);
      assert !Rooted(t', id, n - 1);
      var h := Deepest(t, id, MAX_LEVELS + 1);
      if h > 0 && Forest(t') {
        var x :| x in Rows(t, id, h);
        StillAbove(t, t', id, x, h, MAX_LEVELS);
        Loosen(t', id, MAX_LEVELS - h, n - 1);
      }
  }

  // The trigger and the foreign key together accept a row exactly when the table with it is a
  // forest of height six, a whole subtree moving included.
  lemma GuardIsExact(t: Parents, id: Id, parent: Option<Id>)
    requires Forest(t)
    ensures (parent.Some? ==> parent.value in t) && Guard(t, id, parent).None?
            <==> (parent.Some? ==> parent.value == id || parent.value in t) && Forest(t[id := parent])
  {
    if (parent.Some? ==> parent.value in t) && Guard(t, id, parent).None? {
      AcceptedIsForest(t, id, parent);
    } else if parent.Some? && (parent.value in t || parent.value == id) {
      RefusedIsNoForest(t, id, parent.value);
    }
  }

  // The loop's message names a loop exactly when the parent is the company itself or below it.
  lemma {:induction false} CycleIsNamed(t: Parents, id: Id, parent: Id)
    requires Forest(t)
    ensures Climb(t, id, Some(parent), 1) == Err(Cycle) <==> exists j: nat :: parent in Rows(t, id, j)
  {
    if Climb(t, id, Some(parent), 1) == Err(Cycle) {
      var j := ClimbIsBelow(t, id, parent, 1);
      assert parent in Rows(t, id, j);
    }
    if j: nat :| parent in Rows(t, id, j) {
      if j > 0 { AboveRows(t, id, parent, j, MAX_LEVELS); }
      BelowIsClimbed(t, id, parent, j, 1);
    }
  }

  lemma {:induction false} ClimbIsBelow(t: Parents, id: Id, a: Id, depth: nat) returns (j: nat)
    requires depth <= MAX_LEVELS && Climb(t, id, Some(a), depth) == Err(Cycle)
    ensures a in Rows(t, id, j)
    decreases MAX_LEVELS - depth
  {
    if a == id {
      j := 0;
    } else {
      j := ClimbIsBelow(t, id, t[a].value, depth + 1);
      j := j + 1;
    }
  }

  lemma {:induction false} BelowIsClimbed(t: Parents, id: Id, a: Id, j: nat, depth: nat)
    requires a in Rows(t, id, j) && depth + j <= MAX_LEVELS
    ensures Climb(t, id, Some(a), depth) == Err(Cycle)
    decreases j
  {
    if a != id { BelowIsClimbed(t, id, t[a].value, j - 1, depth + 1); }
  }
}
