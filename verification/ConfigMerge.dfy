/**
 Configuration snapshots (src-tauri/src/config_events.rs): a slow discovery scan is
 merged into the persisted snapshot while watcher callbacks keep changing it.
 A root is named by its identity; `safe` says which paths a root covers.
 */
module ConfigMerge {
  import opened Prelude

  datatype Value = Value(hash: string, size: nat)

  type Snapshot = map<string, Value>

  datatype Root = Root(identity: string, harness: string)

  datatype SnapshotState = SnapshotState(entries: Snapshot, roots: set<string>)

  datatype Change = Change(key: string, root: Root, old': Option<Value>, new': Option<Value>)

  function Get(s: Snapshot, key: string): Option<Value> {
    if key in s then Some(s[key]) else None
  }

  function Set(s: Snapshot, key: string, value: Option<Value>): (r: Snapshot)
    ensures Get(r, key) == value
    ensures forall k :: k != key ==> Get(r, k) == Get(s, k)
  {
    if value.Some? then s[key := value.value] else s - {key}
  }

  /** `tracked_root_for_path`: the first root that covers the path. */
  function FirstRoot(safe: (Root, string) -> bool, roots: seq<Root>, path: string): (r: Option<Root>)
    ensures r.Some? ==> r.value in roots && safe(r.value, path)
    ensures r.None? ==> forall root :: root in roots ==> !safe(root, path)
  {
    if roots == [] then None
    else if safe(roots[0], path) then Some(roots[0])
    else FirstRoot(safe, roots[1..], path)
  }

  /** The inputs of one merge. */
  datatype Scan = Scan(
    observed: SnapshotState,
    current: Snapshot,
    rootByKey: map<string, Root>,
    roots: seq<Root>,
    safe: (Root, string) -> bool)

  /** The observed value, when the root that covers the path was tracked at the time. */
  function OldValue(x: Scan, key: string): Option<Value> {
    var root := FirstRoot(x.safe, x.roots, key);
    if root.Some? && root.value.identity in x.observed.roots then Get(x.observed.entries, key) else None
  }

  /** The scanned value, when the root that found it was tracked at the time. */
  function NewValue(x: Scan, key: string): Option<Value> {
    if key in x.rootByKey && x.rootByKey[key].identity in x.observed.roots then Get(x.current, key) else None
  }

  function RootFor(x: Scan, key: string): Option<Root> {
    if key in x.rootByKey then Some(x.rootByKey[key]) else FirstRoot(x.safe, x.roots, key)
  }

  /** Whether the first loop changes the key, and so reports it. */
  predicate Reports(x: Scan, latest: Snapshot, key: string) {
    && OldValue(x, key) != NewValue(x, key)
    && Get(latest, key) == OldValue(x, key)
    && RootFor(x, key).Some?
  }

  /** Whether the second loop silently takes the scanned value of a root tracked for the first time. */
  predicate Baselines(x: Scan, value: Option<Value>, key: string) {
    && key in x.current
    && key in x.rootByKey
    && x.rootByKey[key].identity !in x.observed.roots
    && value == Get(x.observed.entries, key)
  }

  function FirstPass(x: Scan, latest: Snapshot, key: string): Option<Value> {
    if Reports(x, latest, key) then NewValue(x, key) else Get(latest, key)
  }

  /** The value of a key after the merge. */
  function Merged(x: Scan, latest: Snapshot, key: string): Option<Value> {
    var first := FirstPass(x, latest, key);
    if Baselines(x, first, key) then Get(x.current, key) else first
  }

  /** The change reported for a key. */
  function ChangeFor(x: Scan, latest: Snapshot, key: string): Change
    requires Reports(x, latest, key)
  {
    Change(key, RootFor(x, key).value, OldValue(x, key), NewValue(x, key))
  }

  // ----- replaying reported changes

  /** Each change starts from the value its key has at that point. */
  predicate Chained(s: Snapshot, changes: seq<Change>) {
    if changes == [] then true
    else
      var front := changes[..|changes| - 1];
      var c := changes[|changes| - 1];
      Chained(s, front) && Get(Replay(s, front), c.key) == c.old'
  }

  function Replay(s: Snapshot, changes: seq<Change>): Snapshot {
    if changes == [] then s
    else
      var c := changes[|changes| - 1];
      Set(Replay(s, changes[..|changes| - 1]), c.key, c.new')
  }

  lemma ReplayOne(s: Snapshot, changes: seq<Change>, c: Change)
    ensures Replay(s, changes + [c]) == Set(Replay(s, changes), c.key, c.new')
    ensures Chained(s, changes + [c]) <==> Chained(s, changes) && Get(Replay(s, changes), c.key) == c.old'
  {
  }

  // ----- the merge

  predicate Distinct(keys: seq<string>) {
    forall i, j :: 0 <= i < j < |keys| ==> keys[i] != keys[j]
  }

  /** `snapshot_diff` of the two tracked parts: every key whose value differs, once. */
  method Differences(x: Scan) returns (keys: seq<string>)
    ensures Distinct(keys)
    ensures forall k :: k in keys <==> OldValue(x, k) != NewValue(x, k)
  {
    keys := [];
    var todo := x.observed.entries.Keys + x.current.Keys;
    while todo != {}
      invariant todo <= x.observed.entries.Keys + x.current.Keys
      invariant Distinct(keys)
      invariant forall k :: k in keys <==> k !in todo && OldValue(x, k) != NewValue(x, k)
      decreases |todo|
    {
      var key :| key in todo;
      todo := todo - {key};
      if OldValue(x, key) != NewValue(x, key) {
        keys := keys + [key];
      }
    }
  }

  /** The changes reported for a list of keys. */
  function Reported(x: Scan, latest: Snapshot, keys: seq<string>): seq<Change> {
    if keys == [] then []
    else
      var rest := Reported(x, latest, keys[..|keys| - 1]);
      var k := keys[|keys| - 1];
      if Reports(x, latest, k) then rest + [ChangeFor(x, latest, k)] else rest
  }

  lemma {:induction false} ReportedAre(x: Scan, latest: Snapshot, keys: seq<string>, c: Change)
    ensures c in Reported(x, latest, keys)
            <==> c.key in keys && Reports(x, latest, c.key) && c == ChangeFor(x, latest, c.key)
  {
    if keys != [] {
      var front, k := keys[..|keys| - 1], keys[|keys| - 1];
      assert keys == front + [k];
      ReportedAre(x, latest, front, c);
    }
  }

  lemma {:induction false} ReportedReplays(x: Scan, latest: Snapshot, keys: seq<string>, key: string)
    requires Distinct(keys)
    ensures Get(Replay(latest, Reported(x, latest, keys)), key) ==
            if key in keys then FirstPass(x, latest, key) else Get(latest, key)
  {
    if keys != [] {
      var front, k := keys[..|keys| - 1], keys[|keys| - 1];
      assert keys == front + [k];
      assert k !in front;
      ReportedReplays(x, latest, front, key);
      if Reports(x, latest, k) {
        ReplayOne(latest, Reported(x, latest, front), ChangeFor(x, latest, k));
      }
    }
  }

  lemma {:induction false} ReportedChains(x: Scan, latest: Snapshot, keys: seq<string>)
    requires Distinct(keys)
    ensures Chained(latest, Reported(x, latest, keys))
  {
    if keys != [] {
      var front, k := keys[..|keys| - 1], keys[|keys| - 1];
      assert keys == front + [k];
      assert k !in front;
      ReportedChains(x, latest, front);
      ReportedReplays(x, latest, front, k);
      if Reports(x, latest, k) {
        ReplayOne(latest, Reported(x, latest, front), ChangeFor(x, latest, k));
      }
    }
  }

  lemma ReportedFacts(x: Scan, latest: Snapshot, keys: seq<string>)
    requires Distinct(keys)
    ensures forall c :: c in Reported(x, latest, keys) <==>
                          c.key in keys && Reports(x, latest, c.key) && c == ChangeFor(x, latest, c.key)
    ensures Chained(latest, Reported(x, latest, keys))
    ensures forall k :: Get(Replay(latest, Reported(x, latest, keys)), k) ==
                        if k in keys then FirstPass(x, latest, k) else Get(latest, k)
  {
    ReportedChains(x, latest, keys);
    forall c ensures c in Reported(x, latest, keys) <==>
                       c.key in keys && Reports(x, latest, c.key) && c == ChangeFor(x, latest, c.key)
    {
      ReportedAre(x, latest, keys, c);
    }
    forall k ensures Get(Replay(latest, Reported(x, latest, keys)), k) ==
                       if k in keys then FirstPass(x, latest, k) else Get(latest, k)
    {
      ReportedReplays(x, latest, keys, k);
    }
  }

  /** The first loop of `merge_discovery`: report and take over every tracked change that nobody else
      has made in the meantime. */
  method MergeTracked(x: Scan, latest: Snapshot) returns (entries: Snapshot, emitted: seq<Change>)
    ensures forall k :: Get(entries, k) == FirstPass(x, latest, k)
    ensures forall c :: c in emitted <==> Reports(x, latest, c.key) && c == ChangeFor(x, latest, c.key)
    ensures Chained(latest, emitted)
    ensures forall k :: Get(Replay(latest, emitted), k) == FirstPass(x, latest, k)
  {
    entries, emitted := latest, [];
    var keys := Differences(x);
    for i := 0 to |keys|
      invariant emitted == Reported(x, latest, keys[..i])
      invariant forall k :: Get(entries, k) == if k in keys[..i] then FirstPass(x, latest, k) else Get(latest, k)
    {
      var key := keys[i];
      assert keys[..i + 1] == keys[..i] + [key];
      assert key !in keys[..i];
      var old', new' := OldValue(x, key), NewValue(x, key);
      // a watcher or another discovery completed after this scan began
      if Get(entries, key) != old' { continue; }
      var root := RootFor(x, key);
      if root.None? { continue; }
      entries := Set(entries, key, new');
      emitted := emitted + [Change(key, root.value, old', new')];
    }
    assert keys[..|keys|] == keys;
    ReportedFacts(x, latest, keys);
  }

  /** The second loop: a root tracked for the first time is a baseline, not a burst of creations. */
  method MergeBaseline(x: Scan, latest: Snapshot, first: Snapshot) returns (entries: Snapshot)
    requires forall k :: Get(first, k) == FirstPass(x, latest, k)
    ensures forall k :: Get(entries, k) == Merged(x, latest, k)
  {
    entries := first;
    var todo := x.current.Keys;
    while todo != {}
      invariant todo <= x.current.Keys
      invariant forall k :: Get(entries, k) == if k in todo then FirstPass(x, latest, k) else Merged(x, latest, k)
      decreases |todo|
    {
      var key :| key in todo;
      todo := todo - {key};
      if key !in x.rootByKey { continue; }
      if x.rootByKey[key].identity in x.observed.roots { continue; }
      if Get(entries, key) == Get(x.observed.entries, key) {
        entries := entries[key := x.current[key]];
      }
    }
  }

  function Identities(roots: seq<Root>): set<string> {
    set root | root in roots :: root.identity
  }

  /** `merge_discovery`. */
  method MergeDiscovery(x: Scan, latest: SnapshotState) returns (merged: SnapshotState, emitted: seq<Change>)
    ensures forall k :: Get(merged.entries, k) == Merged(x, latest.entries, k)
    ensures merged.roots == latest.roots + Identities(x.roots)
    ensures forall c :: c in emitted <==> Reports(x, latest.entries, c.key) && c == ChangeFor(x, latest.entries, c.key)
    ensures Chained(latest.entries, emitted)
    ensures forall k :: Get(Replay(latest.entries, emitted), k) == FirstPass(x, latest.entries, k)
  {
    var entries;
    entries, emitted := MergeTracked(x, latest.entries);
    entries := MergeBaseline(x, latest.entries, entries);
    merged := SnapshotState(entries, latest.roots + Identities(x.roots));
  }

  // ----- what the merge means

  predicate Tracked(x: Scan, root: Option<Root>) {
    root.Some? && root.value.identity in x.observed.roots
  }

  /** The root that covers the path and the root that found it agree on being tracked. */
  predicate OneRoot(x: Scan, key: string) {
    key in x.rootByKey ==> Tracked(x, FirstRoot(x.safe, x.roots, key)) == Tracked(x, Some(x.rootByKey[key]))
  }

  /** Discovery knows the root of every file it found. */
  predicate RootsKnown(x: Scan) {
    x.current.Keys <= x.rootByKey.Keys
  }

  /** The merge has a say about this key: its root is known, and was tracked or has found the file now. */
  predicate Managed(x: Scan, key: string) {
    RootFor(x, key).Some? && (Tracked(x, RootFor(x, key)) || key in x.current)
  }

  /** A three-way merge: a value changed since the scan began stays, any other managed value becomes the
      scanned one; and exactly the tracked differences among those are reported. */
  lemma ThreeWayMerge(x: Scan, latest: Snapshot, key: string)
    requires OneRoot(x, key) && RootsKnown(x)
    ensures Merged(x, latest, key) ==
            if Get(latest, key) == Get(x.observed.entries, key) && Managed(x, key) then Get(x.current, key)
            else Get(latest, key)
    ensures Reports(x, latest, key) <==>
            && Tracked(x, RootFor(x, key))
            && Get(latest, key) == Get(x.observed.entries, key)
            && Get(x.observed.entries, key) != Get(x.current, key)
    ensures Reports(x, latest, key) ==>
              ChangeFor(x, latest, key).old' == Get(latest, key)
              && ChangeFor(x, latest, key).new' == Merged(x, latest, key)
  {
  }

  lemma {:induction false} FirstRootIsFirst(safe: (Root, string) -> bool, roots: seq<Root>, path: string)
    returns (i: nat)
    requires FirstRoot(safe, roots, path).Some?
    ensures i < |roots| && roots[i] == FirstRoot(safe, roots, path).value && safe(roots[i], path)
    ensures forall j :: 0 <= j < i ==> !safe(roots[j], path)
  {
    if safe(roots[0], path) {
      i := 0;
    } else {
      var k := FirstRootIsFirst(safe, roots[1..], path);
      i := k + 1;
    }
  }

  /** A change is reported under the root that found the file, or else the first root that covers its path. */
  lemma ReportedRoot(x: Scan, latest: Snapshot, key: string)
    requires Reports(x, latest, key)
    ensures var root := ChangeFor(x, latest, key).root;
            if key in x.rootByKey then root == x.rootByKey[key]
            else exists i :: 0 <= i < |x.roots| && x.roots[i] == root && x.safe(root, key)
                             && forall j :: 0 <= j < i ==> !x.safe(x.roots[j], key)
  {
    if key !in x.rootByKey {
      var i := FirstRootIsFirst(x.safe, x.roots, key);
    }
  }

  /** The scan would put a value back that somebody removed in the meantime: the file was observed, only
      its later root was tracked. */
  predicate ForgetsObserved(x: Scan, key: string) {
    && key in x.observed.entries
    && !Tracked(x, FirstRoot(x.safe, x.roots, key))
    && key in x.rootByKey && Tracked(x, Some(x.rootByKey[key]))
    && key in x.current
  }

  /** Exactly which scans never overwrite a newer observation of a key. */
  lemma NewerKeptExactlyWhen(x: Scan, key: string)
    ensures (forall latest: Snapshot :: Get(latest, key) != Get(x.observed.entries, key) ==>
                                          Merged(x, latest, key) == Get(latest, key))
            <==> !ForgetsObserved(x, key)
  {
    if ForgetsObserved(x, key) {
      var latest: Snapshot := map[];
      assert Get(latest, key) == None && Merged(x, latest, key) == Get(x.current, key);
    }
  }

  /** Exactly when an undisturbed key takes its scanned value: a file found, or a file gone. */
  lemma ScanTakenExactlyWhen(x: Scan, latest: Snapshot, key: string)
    requires RootsKnown(x) && Get(latest, key) == Get(x.observed.entries, key)
    ensures Merged(x, latest, key) == Get(x.current, key) <==>
            || key !in x.observed.entries
            || (if key in x.current then
                  OneRoot(x, key) || (Tracked(x, Some(x.rootByKey[key])) && x.observed.entries[key] == x.current[key])
                else Tracked(x, FirstRoot(x.safe, x.roots, key)))
  {
  }

  /** Two roots over one path, only the first tracked: an unchanged file is dropped and reported removed. */
  lemma TwoRootsLoseAFile()
    ensures var first, second := Root("a", "codex"), Root("b", "claude_code");
            var file := map["AGENTS.md" := Value("h", 1)];
            var x := Scan(SnapshotState(file, {"a"}), file, map["AGENTS.md" := second], [first, second],
                          (r: Root, p: string) => true);
            && Merged(x, file, "AGENTS.md") == None
            && Reports(x, file, "AGENTS.md")
  {
  }

  // ----- the event log over whole runs

  /** Replaying changes looks at one key at a time. */
  lemma {:induction false} ReplayPointwise(s: Snapshot, t: Snapshot, changes: seq<Change>, key: string)
    requires Get(s, key) == Get(t, key)
    ensures Get(Replay(s, changes), key) == Get(Replay(t, changes), key)
  {
    if changes != [] {
      ReplayPointwise(s, t, changes[..|changes| - 1], key);
    }
  }

  lemma {:induction false} ReplayConcat(s: Snapshot, a: seq<Change>, b: seq<Change>)
    ensures Replay(s, a + b) == Replay(Replay(s, a), b)
  {
    if b == [] {
      assert a + b == a;
    } else {
      var n := |b| - 1;
      ReplayConcat(s, a, b[..n]);
      assert a + b == (a + b[..n]) + [b[n]];
      ReplayOne(s, a + b[..n], b[n]);
    }
  }

  /** Every change of a kept key starts from the value the key has at that point. */
  ghost predicate ChainedOn(s: Snapshot, changes: seq<Change>, kept: string -> bool) {
    forall i :: 0 <= i < |changes| && kept(changes[i].key) ==> ChainedAt(s, changes, i)
  }

  ghost predicate ChainedAt(s: Snapshot, changes: seq<Change>, i: nat)
    requires i < |changes|
  {
    Get(Replay(s, changes[..i]), changes[i].key) == changes[i].old'
  }

  lemma {:induction false} ChainedIndex(s: Snapshot, changes: seq<Change>, i: nat)
    requires Chained(s, changes) && i < |changes|
    ensures Get(Replay(s, changes[..i]), changes[i].key) == changes[i].old'
  {
    var n := |changes| - 1;
    if i < n {
      ChainedIndex(s, changes[..n], i);
      assert changes[..n][..i] == changes[..i];
    }
  }

  lemma ChainedEarlier(s: Snapshot, events: seq<Change>, emitted: seq<Change>, i: nat)
    requires i < |events| && ChainedAt(s, events, i)
    ensures ChainedAt(s, events + emitted, i)
  {
    assert (events + emitted)[..i] == events[..i];
  }

  lemma ChainedLater(s: Snapshot, before: Snapshot, events: seq<Change>, emitted: seq<Change>, j: nat)
    requires Chained(before, emitted) && j < |emitted|
    requires Get(Replay(s, events), emitted[j].key) == Get(before, emitted[j].key)
    ensures ChainedAt(s, events + emitted, |events| + j)
  {
    assert (events + emitted)[..|events| + j] == events + emitted[..j];
    ReplayConcat(s, events, emitted[..j]);
    ReplayPointwise(Replay(s, events), before, emitted[..j], emitted[j].key);
    ChainedIndex(before, emitted, j);
  }

  lemma StillChainedAt(s: Snapshot, before: Snapshot, events: seq<Change>, emitted: seq<Change>, i: nat)
    requires i < |events + emitted| && Chained(before, emitted)
    requires i < |events| ==> ChainedAt(s, events, i)
    requires i >= |events| ==> var key := (events + emitted)[i].key; Get(Replay(s, events), key) == Get(before, key)
    ensures ChainedAt(s, events + emitted, i)
  {
    if i < |events| {
      ChainedEarlier(s, events, emitted, i);
    } else {
      ChainedLater(s, before, events, emitted, i - |events|);
    }
  }

  /** Appending a chained list to a log that explains `before` keeps the log chained. */
  lemma StillChained(s: Snapshot, before: Snapshot, events: seq<Change>, emitted: seq<Change>, kept: string -> bool)
    requires ChainedOn(s, events, kept) && Chained(before, emitted)
    requires forall k :: kept(k) ==> Get(Replay(s, events), k) == Get(before, k)
    ensures ChainedOn(s, events + emitted, kept)
  {
    forall i | 0 <= i < |events + emitted| && kept((events + emitted)[i].key)
      ensures ChainedAt(s, events + emitted, i)
    {
      if i < |events| {
        assert (events + emitted)[i] == events[i];
      }
      StillChainedAt(s, before, events, emitted, i);
    }
  }

  lemma OneMoreChained(s: Snapshot, events: seq<Change>, c: Change, kept: string -> bool)
    requires ChainedOn(s, events, kept) && (kept(c.key) ==> Get(Replay(s, events), c.key) == c.old')
    ensures ChainedOn(s, events + [c], kept)
  {
    forall i | 0 <= i < |events| + 1 && kept((events + [c])[i].key) ensures ChainedAt(s, events + [c], i) {
      if i < |events| {
        assert (events + [c])[i] == events[i];
        ChainedEarlier(s, events, [c], i);
      } else {
        assert (events + [c])[..i] == events;
      }
    }
  }

  /** The persisted snapshot and event log, shared by watcher callbacks and discoveries. */
  class ConfigStore {
    var snapshot: SnapshotState
    var events: seq<Change>
    ghost const start: SnapshotState
    /** The one root identity that covers each path. */
    ghost const identityOf: string -> string

    constructor (snapshot: SnapshotState, ghost identityOf: string -> string)
      ensures this.snapshot == snapshot && start == snapshot && events == [] && this.identityOf == identityOf
      ensures Explained()
    {
      this.snapshot, start, events := snapshot, snapshot, [];
      this.identityOf := identityOf;
    }

    ghost predicate Kept(key: string) {
      identityOf(key) in start.roots
    }

    /** On paths tracked from the start, the log explains the snapshot: replaying it over the first
        snapshot gives the current one, and every event starts where the one before it ended. */
    ghost predicate Explained()
      reads this
    {
      && start.roots <= snapshot.roots
      && (forall k :: Kept(k) ==> Get(Replay(start.entries, events), k) == Get(snapshot.entries, k))
      && ChainedOn(start.entries, events, Kept)
    }

    /** The scan began after the start, and every path it looks at is covered by one root identity. */
    ghost predicate SingleRooted(x: Scan) {
      && start.roots <= x.observed.roots
      && forall k :: k in x.rootByKey ==> x.rootByKey[k].identity == identityOf(k)
    }

    /** `record_change`: one watcher callback. */
    method RecordChange(root: Root, key: string, current: Option<Value>)
      modifies this
      ensures snapshot == old(snapshot).(entries := Set(old(snapshot).entries, key, current))
      ensures events == old(events) +
                        if Get(old(snapshot).entries, key) != current && root.identity in old(snapshot).roots
                        then [Change(key, root, Get(old(snapshot).entries, key), current)] else []
      ensures old(Explained()) && root.identity == identityOf(key) ==> Explained()
    {
      var previous := Get(snapshot.entries, key);
      if previous == current {
        assert Set(snapshot.entries, key, current) == snapshot.entries;
        return;
      }
      var tracked := root.identity in snapshot.roots;
      snapshot := snapshot.(entries := Set(snapshot.entries, key, current));
      if tracked {
        ghost var c := Change(key, root, previous, current);
        ReplayOne(start.entries, events, c);
        if old(Explained()) && root.identity == identityOf(key) { OneMoreChained(start.entries, events, c, Kept); }
        events := events + [Change(key, root, previous, current)];
      }
    }

    /** The baseline thread: merge a finished scan into whatever the snapshot is by now. */
    method Discover(x: Scan)
      modifies this
      ensures forall k :: Get(snapshot.entries, k) == Merged(x, old(snapshot).entries, k)
      ensures snapshot.roots == old(snapshot).roots + Identities(x.roots)
      ensures |old(events)| <= |events| && events[..|old(events)|] == old(events)
      ensures forall c :: c in events[|old(events)|..] <==>
                            Reports(x, old(snapshot).entries, c.key) && c == ChangeFor(x, old(snapshot).entries, c.key)
      ensures old(Explained()) && SingleRooted(x) ==> Explained()
    {
      var merged, emitted := MergeDiscovery(x, snapshot);
      ghost var before, events0 := snapshot.entries, events;
      snapshot := merged;
      events := events + emitted;
      assert events[|events0|..] == emitted;
      if old(Explained()) && SingleRooted(x) {
        forall k | Kept(k)
          ensures Get(Replay(start.entries, events), k) == Get(snapshot.entries, k)
        {
          ReplayConcat(start.entries, events0, emitted);
          ReplayPointwise(Replay(start.entries, events0), before, emitted, k);
          assert !Baselines(x, FirstPass(x, before, k), k);
        }
        StillChained(start.entries, before, events0, emitted, Kept);
      }
    }
  }
}
