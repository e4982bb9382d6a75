// The levels of a structure and trg_scope_node_type_rules, the guard on editing them: it lets
// through exactly the edits after which every item still stands where its level allows.
module ScopeLevels {
  import opened Prelude
  import opened ScopeTree
  import opened ScopeClosure

  type LevelKey = (Id, string)

  datatype LevelEdit =
    | AddLevel(key: LevelKey, level: Level)
    | ChangeLevel(key: LevelKey, level: Level)
    | DropLevel(key: LevelKey)

  // Every level a level may sit under is one of its own structure.
  predicate LegalParents(levels: Levels, key: LevelKey)
    requires key in levels
  {
    forall p :: p in levels[key].parents ==> (key.0, p) in levels && levels[(key.0, p)].axis == levels[key].axis
  }

  predicate Legal(levels: Levels) {
    forall key {:trigger LegalParents(levels, key)} :: key in levels ==> LegalParents(levels, key)
  }

  // ---------------------------------------------------------------- the guard

  predicate OtherTop(levels: Levels, key: LevelKey, axis: string) {
    exists t :: t in levels && IsTop(levels, t, key.0, axis) && t != key
  }

  // Some item of this level sits under an item of level p.
  predicate ReliedOn(s: Scope, key: LevelKey, p: string) {
    exists n :: n in s.nodes && s.nodes[n].tenant == key.0 && s.nodes[n].level == key.1
                && s.nodes[n].parent.Some? && s.nodes[n].parent.value in s.nodes && s.nodes[s.nodes[n].parent.value].level == p
  }

  predicate InUse(s: Scope, key: LevelKey) {
    exists n :: n in s.nodes && s.nodes[n].tenant == key.0 && s.nodes[n].level == key.1
  }

  predicate SatUnder(levels: Levels, key: LevelKey, axis: string) {
    exists t :: t in levels && t.0 == key.0 && levels[t].axis == axis && key.1 in levels[t].parents
  }

  // What the trigger and the declared keys say to the table as the statement leaves it.
  function EditLevels(s: Scope, e: LevelEdit): Result<Scope, Fault> {
    match e
    case AddLevel(key, level) =>
      var levels := s.levels[key := level];
      if key in s.levels then Err(ConstraintViolation)
      else if !LegalParents(levels, key) then Err(ConstraintViolation)
      else if level.parents == {} && OtherTop(levels, key, level.axis) then Err(ConstraintViolation)
      else Ok(s.(levels := levels))
    case ChangeLevel(key, level) =>
      if key !in s.levels then Ok(s)
      else
        var before, levels := s.levels[key], s.levels[key := level];
        if level.axis != before.axis then Err(ConstraintViolation)
        else if !LegalParents(levels, key) then Err(ConstraintViolation)
        else if level.parents == {} && OtherTop(levels, key, level.axis) then Err(ConstraintViolation)
        else if (before.parents == {}) != (level.parents == {}) then Err(ConstraintViolation)
        else if exists p :: p in before.parents && p !in level.parents && ReliedOn(s, key, p) then Err(ConstraintViolation)
        else Ok(s.(levels := levels))
    case DropLevel(key) =>
      if key !in s.levels then Ok(s)
      else
        var levels := s.levels - {key};
        if SatUnder(levels, key, s.levels[key].axis) || InUse(s, key) then Err(ConstraintViolation)
        else Ok(s.(levels := levels))
  }

  // The levels an edit would leave.
  function Edited(levels: Levels, e: LevelEdit): Levels {
    match e
    case AddLevel(key, level) => levels[key := level]
    case ChangeLevel(key, level) => if key in levels then levels[key := level] else levels
    case DropLevel(key) => levels - {key}
  }

  // What an edit may not do whatever the items: take a key twice, move a level to another
  // structure, or make a top of another level or another level of the top.
  predicate KeepsKind(levels: Levels, e: LevelEdit) {
    match e
    case AddLevel(key, level) => key !in levels
    case ChangeLevel(key, level) => key in levels ==>
      level.axis == levels[key].axis && (level.parents == {} <==> levels[key].parents == {})
    case DropLevel(key) => true
  }

  // ---------------------------------------------------------------- the guard is exact

  // Accepted exactly when, of an edit that keeps each level what it is, the levels left are legal
  // with one top and every item still meets its level's rules.
  lemma GuardIsExact(s: Scope, e: LevelEdit)
    requires Sound(s) && Legal(s.levels)
    ensures EditLevels(s, e).Ok? <==>
            && KeepsKind(s.levels, e) && Legal(Edited(s.levels, e)) && OneTop(Edited(s.levels, e))
            && NodesOk(Edited(s.levels, e), s.nodes)
  {
    hide Exact, Shallow, Uniques, ParentsPresent, Legal, LegalParents, OneTop;
    match e
    case AddLevel(key, level) =>
      if key !in s.levels {
        LegalAfterPut(s.levels, key, level);
        OneTopAfterPut(s.levels, key, level);
        RowsAfterAdd(s, key, level);
      }
    case ChangeLevel(key, level) =>
      if key in s.levels && KeepsKind(s.levels, e) {
        LegalAfterPut(s.levels, key, level);
        OneTopAfterPut(s.levels, key, level);
        RowsAfterChange(s, key, level);
      }
    case DropLevel(key) =>
      if key in s.levels {
        LegalAfterDrop(s.levels, key);
        OneTopAfterDrop(s.levels, key);
        RowsAfterDrop(s, key);
      } else {
        assert s.levels - {key} == s.levels;
      }
  }

  lemma LegalAfterPut(levels: Levels, key: LevelKey, level: Level)
    requires Legal(levels) && (key in levels ==> level.axis == levels[key].axis)
    ensures var levels' := levels[key := level]; Legal(levels') <==> LegalParents(levels', key)
  {
    var levels' := levels[key := level];
    if LegalParents(levels', key) {
      forall k | k in levels' ensures LegalParents(levels', k) { if k != key { assert LegalParents(levels, k); } }
    }
  }

  lemma OneTopAfterPut(levels: Levels, key: LevelKey, level: Level)
    requires OneTop(levels) && (key in levels ==> level.axis == levels[key].axis && (level.parents == {} <==> levels[key].parents == {}))
    ensures var levels' := levels[key := level];
            OneTop(levels') <==> !(level.parents == {} && OtherTop(levels', key, level.axis))
  {
    var levels' := levels[key := level];
    if level.parents == {} && OtherTop(levels', key, level.axis) {
      var t :| t in levels' && IsTop(levels', t, key.0, level.axis) && t != key;
      assert levels'[key] == level && IsTop(levels', t, key.0, levels'[key].axis);
    } else {
      forall x, y | x in levels' && y in levels' && levels'[y].parents == {} && IsTop(levels', x, y.0, levels'[y].axis) ensures x == y {
        if x != key && y != key {
          assert IsTop(levels, x, y.0, levels[y].axis);
        } else if x == key && y != key {
          assert IsTop(levels', y, key.0, level.axis);
        }
      }
    }
  }

  lemma RowsAfterAdd(s: Scope, key: LevelKey, level: Level)
    requires NodesOk(s.levels, s.nodes) && key !in s.levels
    ensures NodesOk(s.levels[key := level], s.nodes)
  {
    hide Uniques, ParentsPresent;
    var levels' := s.levels[key := level];
    forall id | id in s.nodes ensures RowOk(levels', s.nodes, id) { assert RowOk(s.levels, s.nodes, id); }
  }

  lemma RowsAfterChange(s: Scope, key: LevelKey, level: Level)
    requires NodesOk(s.levels, s.nodes) && key in s.levels && level.axis == s.levels[key].axis
    ensures NodesOk(s.levels[key := level], s.nodes) <==>
            !exists p :: p in s.levels[key].parents && p !in level.parents && ReliedOn(s, key, p)
  {
    hide Uniques, ParentsPresent;
    var levels' := s.levels[key := level];
    if p :| p in s.levels[key].parents && p !in level.parents && ReliedOn(s, key, p) {
      var n :| n in s.nodes && s.nodes[n].tenant == key.0 && s.nodes[n].level == key.1
               && s.nodes[n].parent.Some? && s.nodes[n].parent.value in s.nodes && s.nodes[s.nodes[n].parent.value].level == p;
      assert !RowOk(levels', s.nodes, n);
    } else {
      forall id | id in s.nodes ensures RowOk(levels', s.nodes, id) {
        assert RowOk(s.levels, s.nodes, id);
        var n := s.nodes[id];
        if n.parent.Some? && (n.tenant, n.level) == key {
          assert ReliedOn(s, key, s.nodes[n.parent.value].level);
        }
      }
    }
  }

  lemma LegalAfterDrop(levels: Levels, key: LevelKey)
    requires Legal(levels) && key in levels
    ensures Legal(levels - {key}) <==> !SatUnder(levels - {key}, key, levels[key].axis)
  {
    var levels' := levels - {key};
    if SatUnder(levels', key, levels[key].axis) {
      var t :| t in levels' && t.0 == key.0 && levels'[t].axis == levels[key].axis && key.1 in levels'[t].parents;
      assert (t.0, key.1) == key;
      assert !LegalParents(levels', t);
    } else {
      forall k | k in levels' ensures LegalParents(levels', k) {
        assert LegalParents(levels, k);
      }
    }
  }

  lemma OneTopAfterDrop(levels: Levels, key: LevelKey)
    requires OneTop(levels)
    ensures OneTop(levels - {key})
  {
    var levels' := levels - {key};
    forall x, y | x in levels' && y in levels' && levels'[y].parents == {} && IsTop(levels', x, y.0, levels'[y].axis) ensures x == y {
      assert IsTop(levels, x, y.0, levels[y].axis);
    }
  }

  lemma RowsAfterDrop(s: Scope, key: LevelKey)
    requires NodesOk(s.levels, s.nodes) && key in s.levels
    ensures NodesOk(s.levels - {key}, s.nodes) <==> !InUse(s, key)
  {
    hide Uniques, ParentsPresent;
    var levels' := s.levels - {key};
    if InUse(s, key) {
      var n :| n in s.nodes && s.nodes[n].tenant == key.0 && s.nodes[n].level == key.1;
      assert !RowOk(levels', s.nodes, n);
    } else {
      forall id | id in s.nodes ensures RowOk(levels', s.nodes, id) { assert RowOk(s.levels, s.nodes, id); }
    }
  }

  // ---------------------------------------------------------------- tree edits and level edits together

  datatype Change = OfTree(edit: Edit) | OfLevels(levelEdit: LevelEdit)

  // One transaction, with nothing done when it is refused.
  function Changed(s: Scope, c: Change): Scope
    requires OneTop(s.levels) && Uniques(s.nodes)
  {
    match c
    case OfTree(e) => Step(s, e)
    case OfLevels(e) => (match EditLevels(s, e) case Ok(s') => s' case Err(_) => s)
  }

  lemma ChangeKeepsSound(s: Scope, c: Change)
    requires Sound(s) && Legal(s.levels)
    ensures Sound(Changed(s, c)) && Legal(Changed(s, c).levels)
  {
    match c
    case OfTree(e) => StepKeepsSound(s, e);
    case OfLevels(e) =>
      hide Legal, LegalParents, NodesOk, OneTop, Exact, Shallow;
      GuardIsExact(s, e);
      if EditLevels(s, e).Ok? {
        MakeSound(Edited(s.levels, e), s.nodes, s.closure);
        assert EditLevels(s, e).value == s.(levels := Edited(s.levels, e));
      }
  }

  const BARE := Scope(map[], map[], map[])

  ghost predicate Passes(states: seq<Scope>, changes: seq<Change>) {
    && |states| == |changes| + 1 && states[0] == BARE
    && forall i {:trigger changes[i]} :: 0 <= i < |changes| ==>
         OneTop(states[i].levels) && Uniques(states[i].nodes) && states[i + 1] == Changed(states[i], changes[i])
  }

  // Whatever is done to the tree and to its levels, in whatever order: every item stands under one
  // its level may stand under, a structure has one top, and the closure is the tree's.
  lemma {:induction false} EveryRunKeepsPlacement(states: seq<Scope>, changes: seq<Change>, i: nat)
    requires Passes(states, changes) && i < |states|
    ensures Sound(states[i]) && Legal(states[i].levels)
    ensures forall n :: n in states[i].nodes && states[i].nodes[n].parent.Some? ==>
              var node := states[i].nodes[n];
              && node.parent.value in states[i].nodes && (node.tenant, node.level) in states[i].levels
              && states[i].nodes[node.parent.value].level in states[i].levels[(node.tenant, node.level)].parents
  {
    if i == 0 {
      BareIsSound();
    } else {
      EveryRunKeepsPlacement(states, changes, i - 1);
      assert changes[i - 1] == changes[i - 1];
      ChangeKeepsSound(states[i - 1], changes[i - 1]);
    }
    forall n | n in states[i].nodes ensures RowOk(states[i].levels, states[i].nodes, n) {}
  }

  lemma BareIsSound()
    ensures Sound(BARE) && Legal(BARE.levels)
  {
  }
}
