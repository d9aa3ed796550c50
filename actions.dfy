/** The key-binding registry: the four user actions, the keys that trigger
    each of them, and the contextual list of active actions with its
    construction-time check that no key is bound twice (src/app/actions.rs). */
module Actions {
  import opened Wrappers

  /** A key press as the registry sees it: a plain character, or a character
      pressed together with Ctrl. */
  datatype Key = Char(c: char) | Ctrl(c: char)

  datatype Action = Quit | Sleep | IncrementDelay | DecrementDelay

  /** Position of an action in the declaration order of the enum. */
  function Rank(a: Action): (r: nat)
    ensures r < 4
  {
    match a
    case Quit => 0
    case Sleep => 1
    case IncrementDelay => 2
    case DecrementDelay => 3
  }

  /** `Action::iterator`: every action exactly once, in declaration order. */
  function All(): (r: seq<Action>)
    ensures |r| == 4
    ensures forall a: Action :: r[Rank(a)] == a
    ensures forall i, j :: 0 <= i < j < |r| ==> r[i] != r[j]
  {
    [Quit, Sleep, IncrementDelay, DecrementDelay]
  }

  /** `Action::keys`: the fixed trigger keys of an action; never empty and
      without repetition. */
  function Keys(a: Action): (r: seq<Key>)
    ensures |r| > 0
    ensures forall i, j :: 0 <= i < j < |r| ==> r[i] != r[j]
  {
    match a
    case Quit => [Char('q'), Ctrl('c')]
    case Sleep => [Char('s')]
    case IncrementDelay => [Char('i')]
    case DecrementDelay => [Char('d')]
  }

  /** No key triggers two different actions. */
  lemma KeySetsDisjoint(a: Action, b: Action, k: Key)
    requires k in Keys(a) && k in Keys(b)
    ensures a == b
  {
  }

  /** `Actions(Vec<Action>)`: the actions valid in the current context, in
      the order they were given; `list` is the `actions()` accessor. */
  datatype Actions = Actions(list: seq<Action>)

  /** The first action of `order` that is active and bound to `key`. */
  function FirstMatch(order: seq<Action>, active: seq<Action>, key: Key): (r: Option<Action>)
    ensures r.Some? ==> r.value in active && key in Keys(r.value)
    ensures r.None? ==> forall a :: a in order && a in active ==> key !in Keys(a)
    ensures r.Some? ==> exists i :: 0 <= i < |order| && order[i] == r.value &&
                          forall j :: 0 <= j < i ==> !(order[j] in active && key in Keys(order[j]))
  {
    if order == [] then None
    else if order[0] in active && key in Keys(order[0]) then Some(order[0])
    else
      var r := FirstMatch(order[1..], active, key);
      if r.Some? then
        ghost var i :| 0 <= i < |order[1..]| && order[1..][i] == r.value &&
                 forall j :: 0 <= j < i ==> !(order[1..][j] in active && key in Keys(order[1..][j]));
        assert order[i + 1] == r.value;
        r
      else r
  }

  /** `Actions::find`: the first action in canonical order that is both
      active and bound to `key`; the order of the active list plays no part. */
  function Find(reg: Actions, key: Key): (r: Option<Action>)
    ensures r.Some? ==> r.value in reg.list && key in Keys(r.value)
    ensures r.None? <==> forall a :: a in reg.list ==> key !in Keys(a)
    ensures r.Some? ==> forall a :: a in reg.list && key in Keys(a) ==> Rank(r.value) <= Rank(a)
  {
    var r := FirstMatch(All(), reg.list, key);
    if r.Some? then
      forall a | a in reg.list && key in Keys(a) ensures Rank(r.value) <= Rank(a) {
        ghost var i :| 0 <= i < |All()| && All()[i] == r.value &&
                 forall j :: 0 <= j < i ==> !(All()[j] in reg.list && key in Keys(All()[j]));
        assert All()[Rank(r.value)] == r.value;
        assert All()[Rank(a)] == a;
      }
      r
    else
      assert forall a: Action :: a in All() by {
        forall a: Action ensures a in All() { assert All()[Rank(a)] == a; }
      }
      r
  }

  /** Every active action is found by each of its keys. */
  lemma FindOwner(reg: Actions, a: Action, key: Key)
    requires a in reg.list && key in Keys(a)
    ensures Find(reg, key) == Some(a)
  {
    var r := Find(reg, key);
    KeySetsDisjoint(r.value, a, key);
  }

  /** `find` depends only on which actions are active, not on their order or
      repetition. */
  lemma FindIgnoresOrder(r1: Actions, r2: Actions, key: Key)
    requires forall a :: a in r1.list <==> a in r2.list
    ensures Find(r1, key) == Find(r2, key)
  {
    if Find(r1, key).Some? {
      FindOwner(r2, Find(r1, key).value, key);
    } else if Find(r2, key).Some? {
      FindOwner(r1, Find(r2, key).value, key);
    }
  }

  /** With only Quit active, exactly Quit's keys are bound. */
  lemma OnlyQuitBound(key: Key)
    ensures Find(Actions([Quit]), key) == (if key in Keys(Quit) then Some(Quit) else None)
  {
    if key in Keys(Quit) {
      FindOwner(Actions([Quit]), Quit, key);
    }
  }

  /** The entries of `list` that bind `k`, in list order: the vector the
      conflict check collects for `k`. */
  function Owners(list: seq<Action>, k: Key): (r: seq<Action>)
    ensures |r| <= |list|
    ensures forall a :: a in r ==> a in list && k in Keys(a)
    ensures forall a :: a in list && k in Keys(a) ==> a in r
  {
    if list == [] then []
    else
      var init, last := list[..|list| - 1], list[|list| - 1];
      assert forall a :: a in list ==> a in init || a == last;
      Owners(init, k) + (if k in Keys(last) then [last] else [])
  }

  /** Every key that some entry of `list` binds. */
  function KeysOf(list: seq<Action>): (r: set<Key>)
    ensures forall k :: k in r <==> |Owners(list, k)| > 0
  {
    if list == [] then {}
    else
      var keys := Keys(list[|list| - 1]);
      KeysOf(list[..|list| - 1]) + (set i | 0 <= i < |keys| :: keys[i])
  }

  predicate SharesKey(a: Action, b: Action) {
    exists k :: k in Keys(a) && k in Keys(b)
  }

  /** Two entries of the list (possibly the same action twice) share a key. */
  predicate HasConflict(list: seq<Action>) {
    exists i, j :: 0 <= i < j < |list| && SharesKey(list[i], list[j])
  }

  /** The conflicts a failed construction reports: each key bound by two or
      more entries, with those entries in list order. */
  function ConflictMap(list: seq<Action>): map<Key, seq<Action>> {
    map k | k in KeysOf(list) && |Owners(list, k)| > 1 :: Owners(list, k)
  }

  /** An entry that binds `k` is counted among its owners. */
  lemma OwnersOfBinding(list: seq<Action>, k: Key, i: int)
    requires 0 <= i < |list| && k in Keys(list[i])
    ensures |Owners(list, k)| >= 1
  {
    assert list[i] in list;
    assert list[i] in Owners(list, k);
  }

  /** Two owners of a key come from two entries of the list. */
  lemma {:induction false} TwoOwnersGivePair(list: seq<Action>, k: Key)
    requires |Owners(list, k)| >= 2
    ensures exists i, j :: 0 <= i < j < |list| && k in Keys(list[i]) && k in Keys(list[j])
  {
    var init, last := list[..|list| - 1], list[|list| - 1];
    assert Owners(list, k) == Owners(init, k) + (if k in Keys(last) then [last] else []);
    if k in Keys(last) {
      var a := Owners(init, k)[0];
      assert a in Owners(init, k);
      var i :| 0 <= i < |init| && init[i] == a;
      assert list[i] == a;
      assert k in Keys(list[i]) && k in Keys(list[|list| - 1]);
    } else {
      TwoOwnersGivePair(init, k);
      var i, j :| 0 <= i < j < |init| && k in Keys(init[i]) && k in Keys(init[j]);
      assert list[i] == init[i] && list[j] == init[j];
    }
  }

  /** Two entries binding a key give it two owners. */
  lemma {:induction false} PairGivesTwoOwners(list: seq<Action>, k: Key, i: int, j: int)
    requires 0 <= i < j < |list| && k in Keys(list[i]) && k in Keys(list[j])
    ensures |Owners(list, k)| >= 2
  {
    var init, last := list[..|list| - 1], list[|list| - 1];
    assert Owners(list, k) == Owners(init, k) + (if k in Keys(last) then [last] else []);
    assert list[i] == init[i];
    if j < |list| - 1 {
      assert list[j] == init[j];
      PairGivesTwoOwners(init, k, i, j);
    } else {
      OwnersOfBinding(init, k, i);
    }
  }

  /** Construction reports a conflict exactly when two entries share a key. */
  lemma ConflictIff(list: seq<Action>)
    ensures ConflictMap(list) != map[] <==> HasConflict(list)
  {
    if ConflictMap(list) != map[] {
      var k :| k in ConflictMap(list);
      TwoOwnersGivePair(list, k);
      var i, j :| 0 <= i < j < |list| && k in Keys(list[i]) && k in Keys(list[j]);
      assert SharesKey(list[i], list[j]);
    }
    if HasConflict(list) {
      var i, j :| 0 <= i < j < |list| && SharesKey(list[i], list[j]);
      var k :| k in Keys(list[i]) && k in Keys(list[j]);
      PairGivesTwoOwners(list, k, i, j);
      assert k in ConflictMap(list);
    }
  }

  /** Since the key sets are pairwise disjoint, a list conflicts exactly when
      it names some action twice. */
  lemma ConflictIffRepeated(list: seq<Action>)
    ensures HasConflict(list) <==> exists i, j :: 0 <= i < j < |list| && list[i] == list[j]
  {
    if HasConflict(list) {
      var i, j :| 0 <= i < j < |list| && SharesKey(list[i], list[j]);
      var k :| k in Keys(list[i]) && k in Keys(list[j]);
      KeySetsDisjoint(list[i], list[j], k);
    }
    if exists i, j :: 0 <= i < j < |list| && list[i] == list[j] {
      var i, j :| 0 <= i < j < |list| && list[i] == list[j];
      assert Keys(list[i])[0] in Keys(list[j]);
    }
  }

  /** The full list of four actions is conflict-free. */
  lemma AllConflictFree()
    ensures !HasConflict(All())
  {
    ConflictIffRepeated(All());
  }

  /** What the conflict check's index holds once every entry is recorded. */
  ghost predicate IndexOf(list: seq<Action>, index: map<Key, seq<Action>>) {
    && (forall k :: k in index <==> |Owners(list, k)| > 0)
    && (forall k :: k in index ==> index[k] == Owners(list, k))
  }

  /** Filtering a complete index to the keys with two or more entries gives
      the conflict map. */
  lemma ConflictsOfIndex(list: seq<Action>, index: map<Key, seq<Action>>)
    requires IndexOf(list, index)
    ensures (map k | k in index && |index[k]| > 1 :: index[k]) == ConflictMap(list)
  {
    var errors := map k | k in index && |index[k]| > 1 :: index[k];
    var conflicts := ConflictMap(list);
    forall k | k in conflicts ensures k in errors && errors[k] == conflicts[k] {
      assert |Owners(list, k)| > 1;
    }
    assert errors.Keys == conflicts.Keys;
  }

  /** What the index holds midway through the entry `action`: every earlier
      entry, plus `action` under the keys in `done`. */
  ghost predicate IndexedUpTo(prefix: seq<Action>, action: Action, done: seq<Key>, index: map<Key, seq<Action>>) {
    && (forall k :: k in index <==> (|Owners(prefix, k)| > 0 || k in done))
    && (forall k :: k in index ==> index[k] == Owners(prefix, k) + (if k in done then [action] else []))
  }

  /** Recording `action` under one more key, as the inner loop does. */
  lemma RecordKey(prefix: seq<Action>, action: Action, done: seq<Key>, key: Key,
                  index: map<Key, seq<Action>>, index': map<Key, seq<Action>>)
    requires IndexedUpTo(prefix, action, done, index) && key !in done
    requires index' == if key in index then index[key := index[key] + [action]] else index[key := [action]]
    ensures IndexedUpTo(prefix, action, done + [key], index')
  {
  }

  /** Once `action` is recorded under all its keys, the index covers one more
      entry of the list. */
  lemma RecordEntry(list: seq<Action>, i: nat, index: map<Key, seq<Action>>)
    requires i < |list| && IndexedUpTo(list[..i], list[i], Keys(list[i]), index)
    ensures IndexOf(list[..i + 1], index)
  {
    assert list[..i + 1][..i] == list[..i];
  }

  /** `From<Vec<Action>> for Actions`: index every entry under each of its
      keys, then fail with the keys that collected two or more entries (the
      source panics with them); otherwise keep the list as given. */
  method FromList(list: seq<Action>) returns (r: Result<Actions, map<Key, seq<Action>>>)
    ensures r.Success? <==> !HasConflict(list)
    ensures r.Success? ==> r.value.list == list
    ensures r.Failure? ==> r.error == ConflictMap(list) && r.error != map[]
  {
    var index: map<Key, seq<Action>> := map[];
    var i := 0;
    while i < |list|
      invariant 0 <= i <= |list|
      invariant IndexOf(list[..i], index)
    {
      var action := list[i];
      var keys := Keys(action);
      var t := 0;
      assert keys[..0] == [];
      while t < |keys|
        invariant 0 <= t <= |keys|
        invariant IndexedUpTo(list[..i], action, keys[..t], index)
      {
        var key := keys[t];
        ghost var before := index;
        if key in index {
          index := index[key := index[key] + [action]];
        } else {
          index := index[key := [action]];
        }
        RecordKey(list[..i], action, keys[..t], key, before, index);
        assert keys[..t + 1] == keys[..t] + [key];
        t := t + 1;
      }
      assert keys[..t] == keys;
      RecordEntry(list, i, index);
      i := i + 1;
    }
    assert list[..i] == list;
    var errors := map k | k in index && |index[k]| > 1 :: index[k];
    ConflictsOfIndex(list, index);
    ConflictIff(list);
    if errors != map[] {
      return Failure(errors);
    }
    r := Success(Actions(list));
  }
}
