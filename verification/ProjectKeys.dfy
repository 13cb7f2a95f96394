/**
 Merged projects (src-tauri/src/history_store.rs): redirects between project keys, the loop
 that chases them, and the merges that may create them.
 */
module ProjectKeys {
  import opened Prelude

  type Key = string

  /** Rows with a canonical key; a row that names itself redirects nowhere. */
  type Redirects = map<Key, Key>

  function Next(rs: Redirects, k: Key): Option<Key> {
    if k in rs && rs[k] != k then Some(rs[k]) else None
  }

  /** The key reached after `n` redirects, resting where they end. */
  function At(rs: Redirects, k: Key, n: nat): Key {
    if n == 0 then k
    else
      var c := At(rs, k, n - 1);
      if Next(rs, c).Some? then Next(rs, c).value else c
  }

  // ----- chasing redirects

  /** `resolve_canonical_project_key`, from the middle of the loop. */
  function Chase(rs: Redirects, seen: set<Key>, current: Key): Key
    decreases rs.Keys - seen
  {
    if current in seen || Next(rs, current).None? then current
    else Chase(rs, seen + {current}, Next(rs, current).value)
  }

  function Canonical(rs: Redirects, start: Key): Key {
    Chase(rs, {}, start)
  }

  method ResolveCanonical(rs: Redirects, start: Key) returns (current: Key)
    ensures current == Canonical(rs, start)
  {
    current := start;
    var seen := {};
    while current !in seen
      invariant Chase(rs, seen, current) == Canonical(rs, start)
      decreases rs.Keys - seen, current !in seen
    {
      seen := seen + {current};
      var next := Next(rs, current);
      if next.None? { break; }
      current := next.value;
    }
  }

  /** The keys up to step `n` are distinct and step `n` brings back one of them. */
  ghost predicate FirstRepeat(rs: Redirects, k: Key, n: nat) {
    && (forall i, j :: 0 <= i < j < n ==> At(rs, k, i) != At(rs, k, j))
    && exists m :: 0 <= m < n && At(rs, k, m) == At(rs, k, n)
  }

  lemma {:induction false} AtLater(rs: Redirects, k: Key, m: nat, n: nat)
    ensures At(rs, At(rs, k, m), n) == At(rs, k, m + n)
  {
    if n > 0 {
      AtLater(rs, k, m, n - 1);
    }
  }

  ghost function Visited(rs: Redirects, k: Key, n: nat): set<Key> {
    if n == 0 then {} else Visited(rs, k, n - 1) + {At(rs, k, n - 1)}
  }

  ghost predicate Passed(rs: Redirects, k: Key, n: nat, x: Key) {
    exists i :: 0 <= i < n && At(rs, k, i) == x
  }

  lemma {:induction false} VisitedArePassed(rs: Redirects, k: Key, n: nat, x: Key)
    ensures x in Visited(rs, k, n) <==> Passed(rs, k, n, x)
  {
    if n > 0 {
      VisitedArePassed(rs, k, n - 1, x);
      if x == At(rs, k, n - 1) {
        assert Passed(rs, k, n, x);
      }
    }
  }

  lemma VisitedAre(rs: Redirects, k: Key, n: nat)
    ensures forall i :: 0 <= i < n ==> At(rs, k, i) in Visited(rs, k, n)
    ensures forall x :: x in Visited(rs, k, n) ==> Passed(rs, k, n, x)
  {
  }

  lemma {:induction false} ChaseRepeats(rs: Redirects, k: Key, n: nat) returns (stop: nat)
    requires forall i, j :: 0 <= i < j < n ==> At(rs, k, i) != At(rs, k, j)
    ensures FirstRepeat(rs, k, stop) && Chase(rs, Visited(rs, k, n), At(rs, k, n)) == At(rs, k, stop)
    decreases rs.Keys - Visited(rs, k, n)
  {
    var current := At(rs, k, n);
    VisitedAre(rs, k, n);
    if current in Visited(rs, k, n) {
      stop := n;
    } else if Next(rs, current).None? {
      stop := n + 1;
      assert At(rs, k, n) == At(rs, k, n + 1);
    } else {
      stop := ChaseRepeats(rs, k, n + 1);
    }
  }

  /** The chase ends at the first key that comes back. */
  lemma CanonicalRepeats(rs: Redirects, k: Key) returns (stop: nat)
    ensures FirstRepeat(rs, k, stop) && Canonical(rs, k) == At(rs, k, stop)
  {
    stop := ChaseRepeats(rs, k, 0);
  }

  lemma FirstRepeatUnique(rs: Redirects, k: Key, n: nat, n': nat)
    requires FirstRepeat(rs, k, n) && FirstRepeat(rs, k, n')
    ensures n == n'
  {
  }

  lemma CanonicalIs(rs: Redirects, k: Key, n: nat)
    requires FirstRepeat(rs, k, n)
    ensures Canonical(rs, k) == At(rs, k, n)
  {
    var stop := CanonicalRepeats(rs, k);
    FirstRepeatUnique(rs, k, n, stop);
  }

  /** From a key that comes back after `n` further steps without an earlier repetition. */
  lemma RepeatFrom(rs: Redirects, k: Key, m: nat, n: nat)
    requires m < n && FirstRepeat(rs, k, n) && At(rs, k, m) == At(rs, k, n)
    ensures Canonical(rs, At(rs, k, m)) == At(rs, k, m)
  {
    var c := At(rs, k, m);
    forall i, j | 0 <= i < j < n - m ensures At(rs, c, i) != At(rs, c, j) {
      AtLater(rs, k, m, i);
      AtLater(rs, k, m, j);
    }
    AtLater(rs, k, m, n - m);
    assert At(rs, c, 0) == At(rs, c, n - m);
    CanonicalIs(rs, c, n - m);
  }

  /** A canonical key is its own canonical key, whatever cycles the rows contain. */
  lemma CanonicalIdempotent(rs: Redirects, k: Key)
    ensures Canonical(rs, Canonical(rs, k)) == Canonical(rs, k)
  {
    var n := CanonicalRepeats(rs, k);
    var m :| 0 <= m < n && At(rs, k, m) == At(rs, k, n);
    RepeatFrom(rs, k, m, n);
  }

  /** Following redirects from the key leads back to it. */
  ghost predicate OnCycle(rs: Redirects, k: Key) {
    Next(rs, k).Some? && exists n :: 0 < n && At(rs, k, n) == k
  }

  lemma {:induction false} CycleReturns(rs: Redirects, k: Key, n: nat, j: nat)
    requires FirstRepeat(rs, k, n) && 0 < j && At(rs, k, j) == k
    ensures At(rs, k, n) == k
    decreases j
  {
    var m :| 0 <= m < n && At(rs, k, m) == At(rs, k, n);
    assert At(rs, k, 0) == k;
    if m > 0 {
      assert j >= n;
      AtLater(rs, k, n, j - n);
      AtLater(rs, k, m, j - n);
      CycleReturns(rs, k, n, m + j - n);
    }
  }

  lemma CycleIsCanonical(rs: Redirects, k: Key)
    requires OnCycle(rs, k)
    ensures Canonical(rs, k) == k
  {
    var n := CanonicalRepeats(rs, k);
    var j :| 0 < j && At(rs, k, j) == k;
    CycleReturns(rs, k, n, j);
  }

  lemma NextOnCycle(rs: Redirects, k: Key)
    requires OnCycle(rs, k)
    ensures OnCycle(rs, Next(rs, k).value)
  {
    var next := Next(rs, k).value;
    var j :| 0 < j && At(rs, k, j) == k;
    assert At(rs, k, 1) == next by { assert At(rs, k, 0) == k; }
    AtLater(rs, k, 1, j);
    AtLater(rs, k, j, 1);
    assert At(rs, next, j) == next;
    if Next(rs, next).None? {
      Resting(rs, next, j - 1);
      AtLater(rs, k, 1, j - 1);
    }
  }

  lemma {:induction false} Resting(rs: Redirects, k: Key, n: nat)
    requires Next(rs, k).None?
    ensures At(rs, k, n) == k
  {
    if n > 0 { Resting(rs, k, n - 1); }
  }

  /** A redirected key shares the project of its target exactly when it is not on a cycle. */
  lemma RedirectSharesExactlyWhen(rs: Redirects, k: Key)
    requires Next(rs, k).Some?
    ensures Canonical(rs, k) == Canonical(rs, Next(rs, k).value) <==> !OnCycle(rs, k)
  {
    var next := Next(rs, k).value;
    if OnCycle(rs, k) {
      CycleIsCanonical(rs, k);
      NextOnCycle(rs, k);
      CycleIsCanonical(rs, next);
    } else {
      var n := CanonicalRepeats(rs, k);
      var m :| 0 <= m < n && At(rs, k, m) == At(rs, k, n);
      assert At(rs, k, 0) == k && At(rs, k, 1) == next;
      assert m > 0;
      forall i, j | 0 <= i < j < n - 1 ensures At(rs, next, i) != At(rs, next, j) {
        AtLater(rs, k, 1, i);
        AtLater(rs, k, 1, j);
      }
      AtLater(rs, k, 1, n - 1);
      AtLater(rs, k, 1, m - 1);
      assert At(rs, next, m - 1) == At(rs, next, n - 1);
      CanonicalIs(rs, next, n - 1);
    }
  }

  // ----- merging

  ghost predicate Acyclic(rs: Redirects) {
    forall k :: !OnCycle(rs, k)
  }

  ghost predicate Reaches(rs: Redirects, from: Key, to: Key) {
    exists n :: At(rs, from, n) == to
  }

  /** Without cycles, the canonical key redirects no further. */
  lemma CanonicalIsFinal(rs: Redirects, k: Key)
    requires Acyclic(rs)
    ensures Next(rs, Canonical(rs, k)).None?
  {
    var n := CanonicalRepeats(rs, k);
    var m :| 0 <= m < n && At(rs, k, m) == At(rs, k, n);
    AtLater(rs, k, m, n - m);
    assert !OnCycle(rs, At(rs, k, m));
  }

  /** After the first repetition nothing new is reached. */
  lemma {:induction false} NothingNew(rs: Redirects, k: Key, n: nat, j: nat)
    requires exists m :: 0 <= m < n && At(rs, k, m) == At(rs, k, n)
    ensures exists i :: 0 <= i < n && At(rs, k, i) == At(rs, k, j)
  {
    if j >= n {
      NothingNew(rs, k, n, j - 1);
      var i :| 0 <= i < n && At(rs, k, i) == At(rs, k, j - 1);
      assert At(rs, k, i + 1) == At(rs, k, j);
    }
  }

  /** `project_key_reaches`. */
  method KeyReaches(rs: Redirects, start: Key, target: Key) returns (found: bool)
    ensures found <==> Reaches(rs, start, target)
  {
    var current := start;
    var seen := {};
    ghost var n := 0;
    while current !in seen
      invariant current == At(rs, start, n) && seen == Visited(rs, start, n)
      invariant target !in seen
      decreases rs.Keys - seen, current !in seen
    {
      if current == target { return true; }
      seen := seen + {current};
      var next := Next(rs, current);
      VisitedAre(rs, start, n + 1);
      if next.None? {
        assert At(rs, start, n + 1) == At(rs, start, n);
        NotReached(rs, start, target, n + 1);
        return false;
      }
      current := next.value;
      n := n + 1;
    }
    VisitedAre(rs, start, n);
    NotReached(rs, start, target, n);
    return false;
  }

  lemma NotReached(rs: Redirects, k: Key, target: Key, n: nat)
    requires exists m :: 0 <= m < n && At(rs, k, m) == At(rs, k, n)
    requires target !in Visited(rs, k, n)
    ensures !Reaches(rs, k, target)
  {
    VisitedAre(rs, k, n);
    forall j: nat ensures At(rs, k, j) != target {
      NothingNew(rs, k, n, j);
    }
  }

  /** Changing the redirect of one key leaves every path alone up to that key. */
  lemma {:induction false} SamePath(rs: Redirects, rs': Redirects, changed: Key, k: Key, n: nat)
    requires forall x :: x != changed ==> Next(rs', x) == Next(rs, x)
    requires forall i :: 0 <= i < n ==> At(rs, k, i) != changed
    ensures At(rs', k, n) == At(rs, k, n)
  {
    if n > 0 {
      SamePath(rs, rs', changed, k, n - 1);
    }
  }

  lemma {:induction false} FirstArrival(rs: Redirects, k: Key, to: Key, n: nat) returns (first: nat)
    requires At(rs, k, n) == to
    ensures first <= n && At(rs, k, first) == to && forall i :: 0 <= i < first ==> At(rs, k, i) != to
  {
    if i :| 0 <= i < n && At(rs, k, i) == to {
      first := FirstArrival(rs, k, to, i);
    } else {
      first := n;
    }
  }

  /** A cycle that appears with a change passes through the changed key. */
  lemma CyclePassesChange(rs: Redirects, rs': Redirects, changed: Key, k: Key)
    requires Acyclic(rs) && OnCycle(rs', k)
    requires forall x :: x != changed ==> Next(rs', x) == Next(rs, x)
    ensures OnCycle(rs', changed)
  {
    var n :| 0 < n && At(rs', k, n) == k;
    if i :| 0 <= i < n && At(rs', k, i) == changed {
      AtLater(rs', k, i, n - i);
      AtLater(rs', k, n, i);
      AtLater(rs', changed, n - i, i);
      assert At(rs', changed, n) == changed;
      if Next(rs', changed).None? {
        Resting(rs', changed, n - i);
      }
    } else {
      assert At(rs', k, 0) == k && !OnCycle(rs, k);
      SamePath(rs', rs, changed, k, n);
    }
  }

  /** A merge creates a cycle exactly when the target already leads to the merged key. */
  lemma MergeCyclesExactlyWhen(rs: Redirects, source: Key, target: Key)
    requires Acyclic(rs) && source != target
    ensures Acyclic(rs[source := target]) <==> !Reaches(rs, target, source)
  {
    var rs' := rs[source := target];
    assert At(rs', source, 0) == source && At(rs', source, 1) == target;
    if n :| At(rs, target, n) == source {
      var first := FirstArrival(rs, target, source, n);
      SamePath(rs, rs', source, target, first);
      AtLater(rs', source, 1, first);
      assert OnCycle(rs', source);
    } else {
      MergedOffCycle(rs, source, target);
      if k :| OnCycle(rs', k) {
        CyclePassesChange(rs, rs', source, k);
      }
    }
  }

  /** Whatever other cycles there are, a merge whose target does not lead back puts no cycle through the merged key. */
  lemma MergedOffCycle(rs: Redirects, source: Key, target: Key)
    requires source != target && !Reaches(rs, target, source)
    ensures !OnCycle(rs[source := target], source)
  {
    var rs' := rs[source := target];
    assert At(rs', source, 0) == source && At(rs', source, 1) == target;
    if n :| 0 < n && At(rs', source, n) == source {
      AtLater(rs', source, 1, n - 1);
      var first := FirstArrival(rs', target, source, n - 1);
      SamePath(rs', rs, source, target, first);
    }
  }

  lemma UnmergeStaysAcyclic(rs: Redirects, key: Key)
    requires Acyclic(rs)
    ensures Acyclic(rs - {key})
  {
    if k :| OnCycle(rs - {key}, k) {
      CyclePassesChange(rs, rs - {key}, key, k);
    }
  }

  /** The redirect rows of the history store. */
  class ProjectOverrides {
    var redirects: Redirects

    constructor ()
      ensures redirects == map[] && Acyclic(redirects)
    {
      redirects := map[];
    }

    /** `merge_project`: refused exactly when it would merge a key into itself or the target already leads
        to the merged key; without cycles that is exactly when it would close one. */
    method Merge(source: Key, target: Key) returns (merged: bool)
      modifies this
      ensures merged <==> source != target && !Reaches(old(redirects), target, source)
      ensures redirects == if merged then old(redirects)[source := target] else old(redirects)
      ensures merged ==> Canonical(redirects, source) == Canonical(redirects, target)
      ensures Acyclic(old(redirects)) ==>
                Acyclic(redirects) && (merged <==> source != target && Acyclic(old(redirects)[source := target]))
    {
      if source == target { return false; }
      var reaches := KeyReaches(redirects, target, source);
      if Acyclic(redirects) {
        MergeCyclesExactlyWhen(redirects, source, target);
      }
      if reaches { return false; }
      MergedOffCycle(redirects, source, target);
      redirects := redirects[source := target];
      RedirectSharesExactlyWhen(redirects, source);
      return true;
    }

    method Unmerge(key: Key)
      modifies this
      ensures redirects == old(redirects) - {key} && Canonical(redirects, key) == key
      ensures Acyclic(old(redirects)) ==> Acyclic(redirects)
    {
      if Acyclic(redirects) {
        UnmergeStaysAcyclic(redirects, key);
      }
      redirects := redirects - {key};
    }
  }
}
