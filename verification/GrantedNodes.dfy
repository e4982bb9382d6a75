// The third form of the decision: one axis left open, answered as a list of places.
module GrantedNodes {
  import opened Prelude
  import opened ScopeIndex
  import opened Snapshot

  datatype Reach = Reach(nodeId: Id, inherit: bool)
  datatype Node = Node(at: Reach, except: seq<Reach>)
  datatype Answer = Answer(everywhere: bool, ownRecords: bool, nodes: seq<Node>)

  // ---------------------------------------------------------------- keys

  function ReachKey(r: Reach): string {
    r.nodeId + (if r.inherit then "+" else "")
  }

  function ExceptKey(rs: seq<Reach>): string {
    if rs == [] then "" else "|-" + ReachKey(rs[0]) + ExceptKey(rs[1..])
  }

  function NodeKey(n: Node): string {
    ReachKey(n.at) + ExceptKey(n.except)
  }

  method BuildNodeKey(n: Node) returns (key: string)
    ensures key == NodeKey(n)
  {
    key := n.at.nodeId;
    if n.at.inherit { key := key + "+"; }
    assert key == ReachKey(n.at) && n.except[0..] == n.except;
    for i := 0 to |n.except|
      invariant key + ExceptKey(n.except[i..]) == NodeKey(n)
    {
      var e := n.except[i];
      assert n.except[i..][1..] == n.except[i + 1..];
      ghost var before := key;
      key := key + "|-";
      key := key + e.nodeId;
      if e.inherit { key := key + "+"; }
      assert key == before + ("|-" + ReachKey(e));
      assert before + ("|-" + ReachKey(e) + ExceptKey(n.except[i + 1..])) == key + ExceptKey(n.except[i + 1..]);
    }
  }

  // The text of a uuid has neither of the characters the key is punctuated with.
  predicate Plain(id: Id) {
    forall i :: 0 <= i < |id| ==> id[i] != '+' && id[i] != '|'
  }

  predicate PlainNode(n: Node) {
    Plain(n.at.nodeId) && forall e :: e in n.except ==> Plain(e.nodeId)
  }

  predicate Punctuated(s: string) {
    s == "" || s[0] == '+' || s[0] == '|'
  }

  // An id ends where the punctuation starts, so no other id of the same text is longer.
  lemma PlainNotLonger(a: Id, x: string, b: Id, y: string)
    requires Plain(b) && Punctuated(x) && a + x == b + y
    ensures |b| <= |a|
  {
    var text := a + x;
    assert forall i :: 0 <= i < |b| ==> text[i] == b[i];
    assert x != "" ==> text[|a|] == x[0];
    assert |text| == |a| + |x|;
  }

  lemma PlainPrefix(a: Id, x: string, b: Id, y: string)
    requires Plain(a) && Plain(b) && Punctuated(x) && Punctuated(y) && a + x == b + y
    ensures a == b && x == y
  {
    PlainNotLonger(a, x, b, y);
    PlainNotLonger(b, y, a, x);
    assert a == (a + x)[..|a|] && b == (b + y)[..|b|];
    assert x == (a + x)[|a|..] && y == (b + y)[|b|..];
  }

  lemma ReachPrefix(a: Reach, x: string, b: Reach, y: string)
    requires Plain(a.nodeId) && Plain(b.nodeId)
    requires (x == "" || x[0] == '|') && (y == "" || y[0] == '|')
    requires ReachKey(a) + x == ReachKey(b) + y
    ensures a == b && x == y
  {
    var ax, bx := (if a.inherit then "+" else "") + x, (if b.inherit then "+" else "") + y;
    assert a.nodeId + ax == ReachKey(a) + x && b.nodeId + bx == ReachKey(b) + y;
    PlainPrefix(a.nodeId, ax, b.nodeId, bx);
    assert a.inherit == b.inherit;
    assert x == ax[|ax| - |x|..] && y == bx[|bx| - |y|..];
  }

  lemma {:induction false} ExceptKeyInjective(a: seq<Reach>, b: seq<Reach>)
    requires (forall e :: e in a ==> Plain(e.nodeId)) && (forall e :: e in b ==> Plain(e.nodeId))
    requires ExceptKey(a) == ExceptKey(b)
    ensures a == b
    decreases |a|
  {
    if a != [] && b != [] {
      assert "|-" + (ReachKey(a[0]) + ExceptKey(a[1..])) == ExceptKey(a);
      assert "|-" + (ReachKey(b[0]) + ExceptKey(b[1..])) == ExceptKey(b);
      assert ReachKey(a[0]) + ExceptKey(a[1..]) == ExceptKey(a)[2..];
      assert ReachKey(b[0]) + ExceptKey(b[1..]) == ExceptKey(b)[2..];
      ReachPrefix(a[0], ExceptKey(a[1..]), b[0], ExceptKey(b[1..]));
      ExceptKeyInjective(a[1..], b[1..]);
      assert a == [a[0]] + a[1..] && b == [b[0]] + b[1..];
    }
  }

  // Two places with one key are one place: same node, same reach, same exceptions.
  lemma NodeKeyInjective(a: Node, b: Node)
    requires PlainNode(a) && PlainNode(b) && NodeKey(a) == NodeKey(b)
    ensures a == b
  {
    ReachPrefix(a.at, ExceptKey(a.except), b.at, ExceptKey(b.except));
    ExceptKeyInjective(a.except, b.except);
  }

  // Without that, de-duplication would lose a place: a node whose id ends in '+', and its prefix
  // with everything inside it, share a key.
  lemma KeyNeedsPlainIds()
    ensures var whole, inner := Node(Reach("a", true), []), Node(Reach("a+", false), []);
            NodeKey(whole) == NodeKey(inner) && whole != inner
  {
  }

  // ---------------------------------------------------------------- ordering

  predicate Leq(a: string, b: string)
    decreases |a|
  {
    a == "" || (b != "" && (a[0] < b[0] || (a[0] == b[0] && Leq(a[1..], b[1..]))))
  }

  lemma {:induction false} LeqTotal(a: string, b: string)
    ensures Leq(a, b) || Leq(b, a)
    decreases |a|
  {
    if a != "" && b != "" { LeqTotal(a[1..], b[1..]); }
  }

  lemma {:induction false} LeqAntisymmetric(a: string, b: string)
    requires Leq(a, b) && Leq(b, a)
    ensures a == b
    decreases |a|
  {
    if a != "" && b != "" {
      LeqAntisymmetric(a[1..], b[1..]);
      assert a == [a[0]] + a[1..] && b == [b[0]] + b[1..];
    }
  }

  lemma {:induction false} LeqTransitive(a: string, b: string, c: string)
    requires Leq(a, b) && Leq(b, c)
    ensures Leq(a, c)
    decreases |a|
  {
    if a != "" && a[0] == b[0] && b[0] == c[0] { LeqTransitive(a[1..], b[1..], c[1..]); }
  }

  predicate Ordered<T>(key: T -> string, s: seq<T>) {
    forall i, j :: 0 <= i < j < |s| ==> Leq(key(s[i]), key(s[j]))
  }

  // What sort.Slice promises: a rearrangement in key order.
  function Placed<T>(key: T -> string, x: T, s: seq<T>): (r: seq<T>)
    requires Ordered(key, s)
    ensures Ordered(key, r) && multiset(r) == multiset(s) + multiset{x}
  {
    if s == [] then [x]
    else if Leq(key(x), key(s[0])) then
      PlacedFirst(key, x, s);
      [x] + s
    else
      LeqTotal(key(x), key(s[0]));
      assert s == [s[0]] + s[1..];
      var rest := Placed(key, x, s[1..]);
      PlacedLater(key, x, s, rest);
      [s[0]] + rest
  }

  lemma PlacedFirst<T>(key: T -> string, x: T, s: seq<T>)
    requires Ordered(key, s) && s != [] && Leq(key(x), key(s[0]))
    ensures Ordered(key, [x] + s)
  {
    forall j | 0 <= j < |s| ensures Leq(key(x), key(s[j])) {
      if j > 0 { LeqTransitive(key(x), key(s[0]), key(s[j])); }
    }
  }

  lemma PlacedLater<T>(key: T -> string, x: T, s: seq<T>, rest: seq<T>)
    requires Ordered(key, s) && s != [] && Leq(key(s[0]), key(x))
    requires Ordered(key, rest) && multiset(rest) == multiset(s[1..]) + multiset{x}
    ensures Ordered(key, [s[0]] + rest)
  {
    forall j | 0 <= j < |rest| ensures Leq(key(s[0]), key(rest[j])) {
      assert rest[j] in multiset(rest);
      if rest[j] != x { assert rest[j] in s[1..]; }
    }
  }

  function Sorted<T>(key: T -> string, s: seq<T>): (r: seq<T>)
    ensures Ordered(key, r) && multiset(r) == multiset(s)
  {
    if s == [] then []
    else
      assert s == [s[0]] + s[1..];
      Placed(key, s[0], Sorted(key, s[1..]))
  }

  lemma SortedMembers<T>(key: T -> string, s: seq<T>)
    ensures |Sorted(key, s)| == |s|
    ensures forall x :: x in Sorted(key, s) <==> x in s
  {
    assert |multiset(Sorted(key, s))| == |multiset(s)|;
    forall x ensures x in Sorted(key, s) <==> x in s {
      assert x in multiset(Sorted(key, s)) <==> x in multiset(s);
    }
  }

  lemma FirstIsLeast<T>(key: T -> string, s: seq<T>, x: T)
    requires Ordered(key, s) && x in s
    ensures Leq(key(s[0]), key(x))
  {
    var i :| 0 <= i < |s| && s[i] == x;
    if i == 0 { LeqTotal(key(x), key(x)); }
  }

  lemma OneHead<T>(key: T -> string, s: seq<T>, t: seq<T>)
    requires s != [] && t != [] && Ordered(key, s) && Ordered(key, t) && multiset(s) == multiset(t)
    ensures key(s[0]) == key(t[0]) && t[0] in s
  {
    assert s[0] in multiset(t) && t[0] in multiset(s);
    FirstIsLeast(key, s, t[0]);
    FirstIsLeast(key, t, s[0]);
    LeqAntisymmetric(key(s[0]), key(t[0]));
  }

  lemma MultisetTail<T>(s: seq<T>)
    requires s != []
    ensures multiset(s[1..]) == multiset(s) - multiset{s[0]}
  {
    assert s == [s[0]] + s[1..];
  }

  // The order the rows were loaded in leaves no trace: the same exceptions always sort the same.
  lemma {:induction false} OneOrder<T>(key: T -> string, s: seq<T>, t: seq<T>)
    requires Ordered(key, s) && Ordered(key, t) && multiset(s) == multiset(t)
    requires forall x, y :: x in s && y in s && key(x) == key(y) ==> x == y
    ensures s == t
    decreases |s|
  {
    assert |multiset(s)| == |multiset(t)|;
    if s != [] {
      OneHead(key, s, t);
      assert s[0] == t[0];
      MultisetTail(s);
      MultisetTail(t);
      OneOrder(key, s[1..], t[1..]);
      assert s == [s[0]] + s[1..] && t == [t[0]] + t[1..];
    }
  }

  // ---------------------------------------------------------------- one grant's places

  function Excepts(cs: seq<ScopeConstraint>): seq<Reach> {
    if cs == [] then []
    else (if cs[0].exclude then [Reach(cs[0].nodeId, cs[0].inherit)] else []) + Excepts(cs[1..])
  }

  function Includes(cs: seq<ScopeConstraint>, except: seq<Reach>): seq<Node> {
    if cs == [] then []
    else (if cs[0].exclude then [] else [Node(Reach(cs[0].nodeId, cs[0].inherit), except)]) + Includes(cs[1..], except)
  }

  // Every include becomes a place, and every exclude of the same grant hangs off each of them.
  function PlacesOf(cs: seq<ScopeConstraint>): seq<Node> {
    Includes(cs, Sorted(ReachKey, Excepts(cs)))
  }

  lemma {:induction false} ExceptsAppend(cs: seq<ScopeConstraint>, c: ScopeConstraint)
    ensures Excepts(cs + [c]) == Excepts(cs) + (if c.exclude then [Reach(c.nodeId, c.inherit)] else [])
    decreases |cs|
  {
    if cs != [] {
      assert (cs + [c])[1..] == cs[1..] + [c];
      ExceptsAppend(cs[1..], c);
    }
  }

  lemma {:induction false} IncludesAppend(cs: seq<ScopeConstraint>, c: ScopeConstraint, except: seq<Reach>)
    ensures Includes(cs + [c], except) == Includes(cs, except) + (if c.exclude then [] else [Node(Reach(c.nodeId, c.inherit), except)])
    decreases |cs|
  {
    if cs != [] {
      assert (cs + [c])[1..] == cs[1..] + [c];
      IncludesAppend(cs[1..], c, except);
    }
  }

  method CollectExcepts(cs: seq<ScopeConstraint>) returns (except: seq<Reach>)
    ensures except == Excepts(cs)
  {
    except := [];
    for i := 0 to |cs|
      invariant except == Excepts(cs[..i])
    {
      assert cs[..i + 1] == cs[..i] + [cs[i]];
      ExceptsAppend(cs[..i], cs[i]);
      if cs[i].exclude { except := except + [Reach(cs[i].nodeId, cs[i].inherit)]; }
    }
    assert cs[..|cs|] == cs;
  }

  method CollectIncludes(cs: seq<ScopeConstraint>, except: seq<Reach>) returns (nodes: seq<Node>)
    ensures nodes == Includes(cs, except)
  {
    nodes := [];
    for i := 0 to |cs|
      invariant nodes == Includes(cs[..i], except)
    {
      assert cs[..i + 1] == cs[..i] + [cs[i]];
      IncludesAppend(cs[..i], cs[i], except);
      if !cs[i].exclude { nodes := nodes + [Node(Reach(cs[i].nodeId, cs[i].inherit), except)]; }
    }
    assert cs[..|cs|] == cs;
  }

  method ConstraintsToNodes(cs: seq<ScopeConstraint>) returns (nodes: seq<Node>)
    ensures nodes == PlacesOf(cs)
  {
    var except := CollectExcepts(cs);
    except := Sorted(ReachKey, except);
    nodes := CollectIncludes(cs, except);
  }

  lemma {:induction false} ExceptsMeaning(cs: seq<ScopeConstraint>, r: Reach)
    ensures r in Excepts(cs) <==> exists c :: c in cs && c.exclude && r == Reach(c.nodeId, c.inherit)
    decreases |cs|
  {
    if cs != [] {
      ExceptsMeaning(cs[1..], r);
      assert cs == [cs[0]] + cs[1..];
    }
  }

  lemma {:induction false} IncludesMeaning(cs: seq<ScopeConstraint>, except: seq<Reach>, n: Node)
    ensures n in Includes(cs, except) <==>
            exists c :: c in cs && !c.exclude && n == Node(Reach(c.nodeId, c.inherit), except)
    decreases |cs|
  {
    if cs != [] {
      IncludesMeaning(cs[1..], except, n);
      assert cs == [cs[0]] + cs[1..];
    }
  }

  // ---------------------------------------------------------------- what a listed place reaches

  function Slot(x: Index, nodeId: Id): int {
    if nodeId in x.idx then x.idx[nodeId] + 1 else 0
  }

  ghost predicate ReachCovers(x: Index, r: Reach, t: int)
    requires Linked(x.parent)
  {
    Covers(x.parent, ScopeConstraint(r.nodeId, r.inherit, false, Slot(x, r.nodeId)), t)
  }

  // The place covers t and none of its exceptions does.
  ghost predicate NodeReaches(x: Index, n: Node, t: int)
    requires Linked(x.parent)
  {
    ReachCovers(x, n.at, t) && forall e :: e in n.except ==> !ReachCovers(x, e, t)
  }

  ghost predicate AllInterned(x: Index, cs: seq<ScopeConstraint>) {
    forall c :: c in cs ==> c.node == Slot(x, c.nodeId)
  }

  lemma SameCover(x: Index, c: ScopeConstraint, t: int)
    requires Linked(x.parent) && c.node == Slot(x, c.nodeId)
    ensures Covers(x.parent, c, t) <==> ReachCovers(x, Reach(c.nodeId, c.inherit), t)
  {
    var r := ScopeConstraint(c.nodeId, c.inherit, false, Slot(x, c.nodeId));
    forall k: nat ensures Hit(x.parent, c, t, k) <==> Hit(x.parent, r, t, k) { }
  }

  // A grant's constraints admit t exactly when one of the places they turn into reaches it.
  lemma PlacesAreTheConstraints(x: Index, cs: seq<ScopeConstraint>, t: int)
    requires Linked(x.parent) && AllInterned(x, cs)
    ensures Admits(x.parent, cs, t) <==> exists n :: n in PlacesOf(cs) && NodeReaches(x, n, t)
  {
    hide Covers, ReachCovers, ReachKey;
    var except := Sorted(ReachKey, Excepts(cs));
    SortedMembers(ReachKey, Excepts(cs));
    forall c | c in cs ensures Covers(x.parent, c, t) <==> ReachCovers(x, Reach(c.nodeId, c.inherit), t) { SameCover(x, c, t); }
    var vetoed := exists c :: c in cs && c.exclude && Covers(x.parent, c, t);
    assert vetoed <==> exists e :: e in except && ReachCovers(x, e, t) by {
      forall r ensures r in except <==> exists c :: c in cs && c.exclude && r == Reach(c.nodeId, c.inherit) { ExceptsMeaning(cs, r); }
    }
    if Admits(x.parent, cs, t) {
      var c :| c in cs && !c.exclude && Covers(x.parent, c, t);
      var n := Node(Reach(c.nodeId, c.inherit), except);
      IncludesMeaning(cs, except, n);
      assert NodeReaches(x, n, t);
    }
    if n :| n in PlacesOf(cs) && NodeReaches(x, n, t) {
      IncludesMeaning(cs, except, n);
    }
  }

  // ---------------------------------------------------------------- GrantedNodes

  // Evaluate's per-grant gate minus the scope question.
  predicate GrantQualifies(d: Data, g: Grant, permission: string, now: int) {
    Live(g, now) && Confers(d, g.role, permission) && StrictAxesAddressed(d, g)
  }

  // The grant's limits on every axis except the open one.
  predicate OtherAxesSatisfied(d: Data, g: Grant, open: string, fixed: Targets)
    requires Linked(d.scope.parent)
  {
    forall axis :: axis in g.scopes && axis != open ==> AxisSatisfied(d, g, axis, fixed)
  }

  // The question asked: who, what, on which axis, with which other targets fixed, when.
  datatype Query = Query(identity: Id, permission: string, axis: string, fixed: Targets, now: int)

  predicate Contributes(d: Data, q: Query, g: Grant)
    requires Linked(d.scope.parent)
  {
    GrantQualifies(d, g, q.permission, q.now) && !g.selfScoped && OtherAxesSatisfied(d, g, q.axis, q.fixed)
  }

  predicate Unlimited(d: Data, q: Query, g: Grant)
    requires Linked(d.scope.parent)
  {
    Contributes(d, q, g) && q.axis !in g.scopes
  }

  predicate Names(d: Data, q: Query, g: Grant, n: Node)
    requires Linked(d.scope.parent)
  {
    Contributes(d, q, g) && q.axis in g.scopes && n in PlacesOf(g.scopes[q.axis])
  }

  ghost predicate DistinctKeys(nodes: seq<Node>) {
    forall i, j :: 0 <= i < j < |nodes| ==> NodeKey(nodes[i]) != NodeKey(nodes[j])
  }

  // The listed places are places some of these grants name, and every place one of them names is
  // listed up to its key.
  ghost predicate Lists(d: Data, q: Query, gs: seq<Grant>, nodes: seq<Node>)
    requires Linked(d.scope.parent)
  {
    && (forall n :: n in nodes ==> exists g :: g in gs && Names(d, q, g, n))
    && (forall g, n :: g in gs && Names(d, q, g, n) ==> HasKey(nodes, NodeKey(n)))
  }

  ghost predicate HasKey(nodes: seq<Node>, key: string) {
    exists m :: m in nodes && NodeKey(m) == key
  }

  ghost predicate IsAnswer(d: Data, q: Query, out: Answer)
    requires Linked(d.scope.parent)
  {
    var gs := GrantsOf(d, q.identity);
    && (out.ownRecords <==> SomeOwn(d, q, gs))
    && (out.everywhere <==> SomeUnlimited(d, q, gs))
    && (out.everywhere ==> out.nodes == [])
    && (!out.everywhere ==> Lists(d, q, gs, out.nodes))
    && DistinctKeys(out.nodes) && Ordered(NodeKey, out.nodes)
  }

  lemma HasKeyOf(nodes: seq<Node>, seen: set<string>, key: string)
    requires seen == set n | n in nodes :: NodeKey(n)
    ensures key in seen <==> HasKey(nodes, key)
  {
  }

  // Adding one more place, or skipping it because its key has been seen.
  method Note(nodes: seq<Node>, seen: set<string>, n: Node) returns (nodes': seq<Node>, seen': set<string>)
    requires seen == (set m | m in nodes :: NodeKey(m)) && DistinctKeys(nodes)
    ensures seen' == (set m | m in nodes' :: NodeKey(m)) && DistinctKeys(nodes')
    ensures forall m :: m in nodes' ==> m in nodes || m == n
    ensures forall m :: m in nodes ==> m in nodes'
    ensures HasKey(nodes', NodeKey(n))
  {
    var key := BuildNodeKey(n);
    HasKeyOf(nodes, seen, key);
    if key in seen {
      return nodes, seen;
    }
    nodes', seen' := nodes + [n], seen + {key};
    assert n in nodes';
    forall j | 0 <= j < |nodes| ensures NodeKey(nodes[j]) != key { assert nodes[j] in nodes; }
  }

  // One grant's places, each noted once.
  method NoteAll(nodes: seq<Node>, seen: set<string>, places: seq<Node>) returns (nodes': seq<Node>, seen': set<string>)
    requires seen == (set m | m in nodes :: NodeKey(m)) && DistinctKeys(nodes)
    ensures seen' == (set m | m in nodes' :: NodeKey(m)) && DistinctKeys(nodes')
    ensures forall m :: m in nodes' ==> m in nodes || m in places
    ensures forall m :: m in nodes ==> m in nodes'
    ensures forall m :: m in places ==> HasKey(nodes', NodeKey(m))
  {
    nodes', seen' := nodes, seen;
    for j := 0 to |places|
      invariant seen' == (set n | n in nodes' :: NodeKey(n)) && DistinctKeys(nodes')
      invariant forall n :: n in nodes' ==> n in nodes || n in places
      invariant forall n :: n in nodes ==> n in nodes'
      invariant forall k :: 0 <= k < j ==> HasKey(nodes', NodeKey(places[k]))
    {
      ghost var held := nodes';
      nodes', seen' := Note(nodes', seen', places[j]);
      forall k | 0 <= k < j ensures HasKey(nodes', NodeKey(places[k])) { assert HasKey(held, NodeKey(places[k])); }
    }
  }

  ghost predicate SomeOwn(d: Data, q: Query, gs: seq<Grant>) {
    exists g :: g in gs && GrantQualifies(d, g, q.permission, q.now) && g.selfScoped
  }

  ghost predicate SomeUnlimited(d: Data, q: Query, gs: seq<Grant>)
    requires Linked(d.scope.parent)
  {
    exists g :: g in gs && Unlimited(d, q, g)
  }

  lemma OneMoreGrant(d: Data, q: Query, gs: seq<Grant>, g: Grant)
    requires Linked(d.scope.parent)
    ensures SomeOwn(d, q, gs + [g]) <==> SomeOwn(d, q, gs) || (GrantQualifies(d, g, q.permission, q.now) && g.selfScoped)
    ensures SomeUnlimited(d, q, gs + [g]) <==> SomeUnlimited(d, q, gs) || Unlimited(d, q, g)
  {
    assert g in gs + [g];
    assert forall h :: h in gs ==> h in gs + [g];
  }

  // A grant that names no place on the open axis changes no list.
  lemma ListsSame(d: Data, q: Query, gs: seq<Grant>, g: Grant, nodes: seq<Node>)
    requires Linked(d.scope.parent) && Lists(d, q, gs, nodes) && !(Contributes(d, q, g) && q.axis in g.scopes)
    ensures Lists(d, q, gs + [g], nodes)
  {
    hide Contributes, PlacesOf, HasKey;
    forall n | n in nodes ensures exists h :: h in gs + [g] && Names(d, q, h, n) {
      var h :| h in gs && Names(d, q, h, n);
      assert h in gs + [g];
    }
  }

  lemma ListsOneMore(d: Data, q: Query, gs: seq<Grant>, g: Grant, before: seq<Node>, nodes: seq<Node>)
    requires Linked(d.scope.parent) && Lists(d, q, gs, before)
    requires Contributes(d, q, g) && q.axis in g.scopes
    requires forall n :: n in nodes ==> n in before || n in PlacesOf(g.scopes[q.axis])
    requires forall n :: n in before ==> n in nodes
    requires forall n :: n in PlacesOf(g.scopes[q.axis]) ==> HasKey(nodes, NodeKey(n))
    ensures Lists(d, q, gs + [g], nodes)
  {
    forall n | n in nodes ensures exists h :: h in gs + [g] && Names(d, q, h, n) {
      if n in before {
        var h :| h in gs && Names(d, q, h, n);
        assert h in gs + [g];
      } else {
        assert g in gs + [g] && Names(d, q, g, n);
      }
    }
    forall h, n | h in gs + [g] && Names(d, q, h, n) ensures HasKey(nodes, NodeKey(n)) {
      if h in gs {
        assert HasKey(before, NodeKey(n));
      }
    }
  }

  method GrantedNodes(d: Data, q: Query) returns (out: Answer, known: bool)
    requires Linked(d.scope.parent)
    ensures known <==> q.identity in d.identities && q.permission in d.permissions
    ensures !Gates(d, q.identity, q.permission) ==> out == Answer(false, false, [])
    ensures Gates(d, q.identity, q.permission) ==> IsAnswer(d, q, out)
  {
    out := Answer(false, false, []);
    if q.identity !in d.identities || q.permission !in d.permissions {
      return out, false;
    }
    known := true;
    if d.identities[q.identity].blocked || d.permissions[q.permission].minAssurance > d.identities[q.identity].assurance {
      return;
    }
    var gs := GrantsOf(d, q.identity);
    var everywhere, ownRecords := false, false;
    var nodes: seq<Node>, seen: set<string> := [], {};
    for i := 0 to |gs|
      invariant ownRecords <==> SomeOwn(d, q, gs[..i])
      invariant everywhere <==> SomeUnlimited(d, q, gs[..i])
      invariant seen == (set n | n in nodes :: NodeKey(n)) && DistinctKeys(nodes)
      invariant Lists(d, q, gs[..i], nodes)
    {
      var g := gs[i];
      assert gs[..i + 1] == gs[..i] + [g];
      OneMoreGrant(d, q, gs[..i], g);
      if !GrantQualifies(d, g, q.permission, q.now) {
        ListsSame(d, q, gs[..i], g, nodes);
      } else if g.selfScoped {
        ownRecords := true;
        ListsSame(d, q, gs[..i], g, nodes);
      } else if !OtherAxesSatisfied(d, g, q.axis, q.fixed) {
        ListsSame(d, q, gs[..i], g, nodes);
      } else if q.axis !in g.scopes {
        everywhere := true;
        ListsSame(d, q, gs[..i], g, nodes);
      } else {
        var places := ConstraintsToNodes(g.scopes[q.axis]);
        ghost var before := nodes;
        nodes, seen := NoteAll(nodes, seen, places);
        ListsOneMore(d, q, gs[..i], g, before, nodes);
      }
    }
    assert gs[..|gs|] == gs;
    if everywhere {
      nodes := [];
    }
    SortKeepsList(d, q, gs, nodes, everywhere);
    out := Answer(everywhere, ownRecords, Sorted(NodeKey, nodes));
  }

  lemma SortKeepsList(d: Data, q: Query, gs: seq<Grant>, nodes: seq<Node>, everywhere: bool)
    requires Linked(d.scope.parent) && DistinctKeys(nodes) && (!everywhere ==> Lists(d, q, gs, nodes))
    ensures DistinctKeys(Sorted(NodeKey, nodes))
    ensures !everywhere ==> Lists(d, q, gs, Sorted(NodeKey, nodes))
  {
    var sorted := Sorted(NodeKey, nodes);
    SortedMembers(NodeKey, nodes);
    SortKeepsDistinct(nodes);
    if !everywhere {
      forall g, n | g in gs && Names(d, q, g, n) ensures HasKey(sorted, NodeKey(n)) {
        var m :| m in nodes && NodeKey(m) == NodeKey(n);
        assert m in sorted;
      }
    }
  }

  lemma SortKeepsDistinct(nodes: seq<Node>)
    requires DistinctKeys(nodes)
    ensures DistinctKeys(Sorted(NodeKey, nodes))
  {
    var sorted := Sorted(NodeKey, nodes);
    forall i, j | 0 <= i < j < |sorted| ensures NodeKey(sorted[i]) != NodeKey(sorted[j]) {
      if NodeKey(sorted[i]) == NodeKey(sorted[j]) { TwiceInSorted(nodes, sorted, i, j); }
    }
  }

  lemma {:induction false} CountTwo(s: seq<Node>, i: nat, j: nat)
    requires i < j < |s| && s[i] == s[j]
    ensures multiset(s)[s[i]] >= 2
  {
    assert s == s[..j] + [s[j]] + s[j + 1..];
    assert s[i] in s[..j];
  }

  lemma {:induction false} CountOne(s: seq<Node>, n: Node)
    requires DistinctKeys(s)
    ensures multiset(s)[n] <= 1
    decreases |s|
  {
    if s != [] {
      CountOne(s[1..], n);
      assert s == [s[0]] + s[1..];
      if n in s[1..] {
        var k :| 0 <= k < |s[1..]| && s[1..][k] == n;
        assert NodeKey(s[0]) != NodeKey(s[k + 1]);
      }
    }
  }

  lemma TwiceInSorted(nodes: seq<Node>, sorted: seq<Node>, i: nat, j: nat)
    requires DistinctKeys(nodes) && multiset(sorted) == multiset(nodes)
    requires i < j < |sorted|
    ensures NodeKey(sorted[i]) != NodeKey(sorted[j])
  {
    assert sorted[i] in multiset(nodes) && sorted[j] in multiset(nodes);
    var a :| 0 <= a < |nodes| && nodes[a] == sorted[i];
    var b :| 0 <= b < |nodes| && nodes[b] == sorted[j];
    if a == b {
      CountTwo(sorted, i, j);
      CountOne(nodes, sorted[i]);
    }
  }
}
