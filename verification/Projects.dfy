/**
 Grouping sessions into projects (src-tauri/src/commands.rs, `resolve_projects_from`):
 sessions are counted under their effective key, keys are grouped under their canonical key.
 Entries are kept in order of first appearance; the order of the result is not modelled.
 */
module Projects {
  import opened Prelude
  import opened ProjectKeys

  datatype Summary = Summary(storageId: string, projectKey: Option<Key>)

  datatype Entry = Entry(key: Key, count: nat)

  datatype Project = Project(key: Key, members: seq<Key>, count: nat)

  /** A manual reassignment wins over the detected key. */
  function EffectiveKey(reassignments: map<string, Key>, s: Summary): Option<Key> {
    if s.storageId in reassignments then Some(reassignments[s.storageId]) else s.projectKey
  }

  // ----- what the counts should be

  function CountWithKey(reassignments: map<string, Key>, sessions: seq<Summary>): nat {
    if sessions == [] then 0
    else CountWithKey(reassignments, sessions[..|sessions| - 1]) +
         if EffectiveKey(reassignments, sessions[|sessions| - 1]).Some? then 1 else 0
  }

  /** The sessions whose effective key belongs to a project. */
  function CountIn(reassignments: map<string, Key>, rs: Redirects, sessions: seq<Summary>, project: Key): nat {
    if sessions == [] then 0
    else
      var key := EffectiveKey(reassignments, sessions[|sessions| - 1]);
      CountIn(reassignments, rs, sessions[..|sessions| - 1], project) +
      if key.Some? && Canonical(rs, key.value) == project then 1 else 0
  }

  predicate IsEffective(reassignments: map<string, Key>, sessions: seq<Summary>, key: Key) {
    exists i :: 0 <= i < |sessions| && EffectiveKey(reassignments, sessions[i]) == Some(key)
  }

  // ----- entries

  function FindEntry(es: seq<Entry>, key: Key): (k: nat)
    ensures k <= |es| && (k < |es| ==> es[k].key == key) && forall j :: 0 <= j < k ==> es[j].key != key
  {
    if es == [] || es[0].key == key then 0 else 1 + FindEntry(es[1..], key)
  }

  function Tally(es: seq<Entry>, key: Key): seq<Entry> {
    var k := FindEntry(es, key);
    if k == |es| then es + [Entry(key, 1)]
    else es[k := Entry(key, es[k].count + 1)]
  }

  predicate UniqueEntries(es: seq<Entry>) {
    forall i, j :: 0 <= i < j < |es| ==> es[i].key != es[j].key
  }

  predicate HasEntry(es: seq<Entry>, key: Key) {
    exists i :: 0 <= i < |es| && es[i].key == key
  }

  function SumEntries(es: seq<Entry>): nat {
    if es == [] then 0 else SumEntries(es[..|es| - 1]) + es[|es| - 1].count
  }

  function SumEntriesOf(es: seq<Entry>, rs: Redirects, project: Key): nat {
    if es == [] then 0
    else SumEntriesOf(es[..|es| - 1], rs, project) +
         if Canonical(rs, es[|es| - 1].key) == project then es[|es| - 1].count else 0
  }

  lemma {:induction false} EntryRaised(es: seq<Entry>, k: nat, e: Entry, rs: Redirects, project: Key)
    requires k < |es| && e.key == es[k].key && e.count == es[k].count + 1
    ensures SumEntries(es[k := e]) == SumEntries(es) + 1
    ensures SumEntriesOf(es[k := e], rs, project) ==
            SumEntriesOf(es, rs, project) + if Canonical(rs, e.key) == project then 1 else 0
  {
    var n := |es| - 1;
    if k < n {
      assert es[k := e][..n] == es[..n][k := e];
      EntryRaised(es[..n], k, e, rs, project);
    } else {
      assert es[k := e][..n] == es[..n];
    }
  }

  lemma TallyAddsOne(es: seq<Entry>, key: Key, rs: Redirects, project: Key)
    ensures SumEntries(Tally(es, key)) == SumEntries(es) + 1
    ensures SumEntriesOf(Tally(es, key), rs, project) ==
            SumEntriesOf(es, rs, project) + if Canonical(rs, key) == project then 1 else 0
  {
    var k := FindEntry(es, key);
    if k == |es| {
      assert (es + [Entry(key, 1)])[..|es|] == es;
    } else {
      EntryRaised(es, k, Tally(es, key)[k], rs, project);
    }
  }

  lemma TallyKeys(es: seq<Entry>, key: Key, other: Key)
    requires UniqueEntries(es)
    ensures UniqueEntries(Tally(es, key))
    ensures HasEntry(Tally(es, key), other) <==> HasEntry(es, other) || other == key
  {
    var k, after := FindEntry(es, key), Tally(es, key);
    assert forall i :: 0 <= i < |es| ==> after[i].key == es[i].key;
    assert k < |after| && after[k].key == key;
  }

  /** Every entry counts the sessions of its key, and no session is lost. */
  ghost predicate Counted(reassignments: map<string, Key>, rs: Redirects, sessions: seq<Summary>, es: seq<Entry>) {
    && UniqueEntries(es)
    && (forall key :: HasEntry(es, key) <==> IsEffective(reassignments, sessions, key))
    && SumEntries(es) == CountWithKey(reassignments, sessions)
    && forall project :: SumEntriesOf(es, rs, project) == CountIn(reassignments, rs, sessions, project)
  }

  lemma EffectiveGrows(reassignments: map<string, Key>, sessions: seq<Summary>, s: Summary, key: Key)
    ensures IsEffective(reassignments, sessions + [s], key)
            <==> IsEffective(reassignments, sessions, key) || EffectiveKey(reassignments, s) == Some(key)
  {
    var all := sessions + [s];
    assert forall i :: 0 <= i < |sessions| ==> all[i] == sessions[i];
    assert all[|sessions|] == s;
  }

  /** One session more, if it has a key. */
  function Raised(reassignments: map<string, Key>, s: Summary, es: seq<Entry>): seq<Entry> {
    var key := EffectiveKey(reassignments, s);
    if key.Some? then Tally(es, key.value) else es
  }

  lemma CountOneOf(
    reassignments: map<string, Key>, rs: Redirects, sessions: seq<Summary>, s: Summary, es: seq<Entry>, k: Key)
    requires SumEntriesOf(es, rs, k) == CountIn(reassignments, rs, sessions, k)
    ensures SumEntriesOf(Raised(reassignments, s, es), rs, k) == CountIn(reassignments, rs, sessions + [s], k)
  {
    assert (sessions + [s])[..|sessions|] == sessions;
    var key := EffectiveKey(reassignments, s);
    if key.Some? {
      TallyAddsOne(es, key.value, rs, k);
    }
  }

  lemma KeyOneOf(reassignments: map<string, Key>, sessions: seq<Summary>, s: Summary, es: seq<Entry>, k: Key)
    requires UniqueEntries(es) && (HasEntry(es, k) <==> IsEffective(reassignments, sessions, k))
    ensures HasEntry(Raised(reassignments, s, es), k) <==> IsEffective(reassignments, sessions + [s], k)
  {
    EffectiveGrows(reassignments, sessions, s, k);
    var key := EffectiveKey(reassignments, s);
    if key.Some? {
      TallyKeys(es, key.value, k);
    }
  }

  lemma CountOneTotals(reassignments: map<string, Key>, sessions: seq<Summary>, s: Summary, es: seq<Entry>)
    requires UniqueEntries(es) && SumEntries(es) == CountWithKey(reassignments, sessions)
    ensures var after := Raised(reassignments, s, es);
            UniqueEntries(after) && SumEntries(after) == CountWithKey(reassignments, sessions + [s])
  {
    assert (sessions + [s])[..|sessions|] == sessions;
    var key := EffectiveKey(reassignments, s);
    if key.Some? {
      TallyAddsOne(es, key.value, map[], "");
      TallyKeys(es, key.value, "");
    }
  }

  lemma CountOne(
    reassignments: map<string, Key>, rs: Redirects, sessions: seq<Summary>, s: Summary, es: seq<Entry>)
    requires Counted(reassignments, rs, sessions, es)
    ensures Counted(reassignments, rs, sessions + [s], Raised(reassignments, s, es))
  {
    var all, after := sessions + [s], Raised(reassignments, s, es);
    CountOneTotals(reassignments, sessions, s, es);
    forall k ensures HasEntry(after, k) <==> IsEffective(reassignments, all, k) {
      KeyOneOf(reassignments, sessions, s, es, k);
    }
    forall project ensures SumEntriesOf(after, rs, project) == CountIn(reassignments, rs, all, project) {
      CountOneOf(reassignments, rs, sessions, s, es, project);
    }
  }

  /** The first loop: sessions counted under their effective key. */
  method CountSessions(reassignments: map<string, Key>, ghost rs: Redirects, sessions: seq<Summary>)
    returns (es: seq<Entry>)
    ensures Counted(reassignments, rs, sessions, es)
  {
    es := [];
    for n := 0 to |sessions|
      invariant Counted(reassignments, rs, sessions[..n], es)
    {
      var s := sessions[n];
      CountOne(reassignments, rs, sessions[..n], s, es);
      assert sessions[..n] + [s] == sessions[..n + 1];
      var key := EffectiveKey(reassignments, s);
      if key.Some? {
        es := Tally(es, key.value);
      }
    }
    assert sessions[..|sessions|] == sessions;
  }

  // ----- projects

  function FindProject(ps: seq<Project>, key: Key): (k: nat)
    ensures k <= |ps| && (k < |ps| ==> ps[k].key == key) && forall j :: 0 <= j < k ==> ps[j].key != key
  {
    if ps == [] || ps[0].key == key then 0 else 1 + FindProject(ps[1..], key)
  }

  function Group(ps: seq<Project>, project: Key, e: Entry): seq<Project> {
    var k := FindProject(ps, project);
    if k == |ps| then ps + [Project(project, [e.key], e.count)]
    else ps[k := ps[k].(members := ps[k].members + [e.key], count := ps[k].count + e.count)]
  }

  function SumProjects(ps: seq<Project>): nat {
    if ps == [] then 0 else SumProjects(ps[..|ps| - 1]) + ps[|ps| - 1].count
  }

  lemma {:induction false} ProjectRaised(ps: seq<Project>, k: nat, p: Project, more: nat)
    requires k < |ps| && p.count == ps[k].count + more
    ensures SumProjects(ps[k := p]) == SumProjects(ps) + more
  {
    var n := |ps| - 1;
    if k < n {
      assert ps[k := p][..n] == ps[..n][k := p];
      ProjectRaised(ps[..n], k, p, more);
    } else {
      assert ps[k := p][..n] == ps[..n];
    }
  }

  lemma GroupSum(ps: seq<Project>, project: Key, e: Entry)
    ensures SumProjects(Group(ps, project, e)) == SumProjects(ps) + e.count
  {
    var k := FindProject(ps, project);
    if k == |ps| {
      var p := Project(project, [e.key], e.count);
      assert (ps + [p])[..|ps|] == ps;
    } else {
      ProjectRaised(ps, k, Group(ps, project, e)[k], e.count);
    }
  }

  /** One project: its members are exactly the entries whose canonical key it is, in order, and it counts them all. */
  ghost predicate Gathers(p: Project, rs: Redirects, es: seq<Entry>) {
    p.members == MembersOf(es, rs, p.key) && p.count == SumEntriesOf(es, rs, p.key)
  }

  function MembersOf(es: seq<Entry>, rs: Redirects, project: Key): seq<Key> {
    if es == [] then []
    else MembersOf(es[..|es| - 1], rs, project) +
         if Canonical(rs, es[|es| - 1].key) == project then [es[|es| - 1].key] else []
  }

  ghost predicate HasProject(ps: seq<Project>, key: Key) {
    exists i :: 0 <= i < |ps| && ps[i].key == key
  }

  ghost predicate Grouped(rs: Redirects, es: seq<Entry>, ps: seq<Project>) {
    && (forall i, j :: 0 <= i < j < |ps| ==> ps[i].key != ps[j].key)
    && (forall i :: 0 <= i < |ps| ==> Gathers(ps[i], rs, es))
    && (forall i :: 0 <= i < |es| ==> HasProject(ps, Canonical(rs, es[i].key)))
    && SumProjects(ps) == SumEntries(es)
  }

  lemma {:induction false} NoProjectNoMembers(rs: Redirects, es: seq<Entry>, project: Key)
    requires forall i :: 0 <= i < |es| ==> Canonical(rs, es[i].key) != project
    ensures MembersOf(es, rs, project) == [] && SumEntriesOf(es, rs, project) == 0
  {
    if es != [] { NoProjectNoMembers(rs, es[..|es| - 1], project); }
  }

  lemma SumsGrow(rs: Redirects, es: seq<Entry>, e: Entry, project: Key)
    ensures SumEntries(es + [e]) == SumEntries(es) + e.count
    ensures SumEntriesOf(es + [e], rs, project) ==
            SumEntriesOf(es, rs, project) + if Canonical(rs, e.key) == project then e.count else 0
    ensures MembersOf(es + [e], rs, project) ==
            MembersOf(es, rs, project) + if Canonical(rs, e.key) == project then [e.key] else []
  {
  }

  lemma GathersStep(rs: Redirects, es: seq<Entry>, ps: seq<Project>, e: Entry, i: nat)
    requires Grouped(rs, es, ps) && i < |Group(ps, Canonical(rs, e.key), e)|
    ensures Gathers(Group(ps, Canonical(rs, e.key), e)[i], rs, es + [e])
  {
    var project := Canonical(rs, e.key);
    if i < |ps| {
      assert Gathers(ps[i], rs, es);
      SumsGrow(rs, es, e, ps[i].key);
      assert ps[i].members + [] == ps[i].members;
    } else {
      forall j | 0 <= j < |es| ensures Canonical(rs, es[j].key) != project {
        assert HasProject(ps, Canonical(rs, es[j].key));
      }
      NoProjectNoMembers(rs, es, project);
      SumsGrow(rs, es, e, project);
    }
  }

  lemma GroupKeys(ps: seq<Project>, project: Key, e: Entry, key: Key)
    ensures HasProject(Group(ps, project, e), key) <==> HasProject(ps, key) || key == project
    ensures |ps| <= |Group(ps, project, e)| && forall i :: 0 <= i < |ps| ==> Group(ps, project, e)[i].key == ps[i].key
  {
    var k, after := FindProject(ps, project), Group(ps, project, e);
    assert forall i :: 0 <= i < |ps| ==> after[i].key == ps[i].key;
    assert k < |after| && after[k].key == project;
  }

  lemma GroupedStep(rs: Redirects, es: seq<Entry>, ps: seq<Project>, e: Entry)
    requires Grouped(rs, es, ps)
    ensures Grouped(rs, es + [e], Group(ps, Canonical(rs, e.key), e))
  {
    var all, project := es + [e], Canonical(rs, e.key);
    var after := Group(ps, project, e);
    GroupSum(ps, project, e);
    SumsGrow(rs, es, e, project);
    GroupKeys(ps, project, e, project);
    forall i | 0 <= i < |after| ensures Gathers(after[i], rs, all) {
      GathersStep(rs, es, ps, e, i);
    }
    forall i | 0 <= i < |all| ensures HasProject(after, Canonical(rs, all[i].key)) {
      GroupKeys(ps, project, e, Canonical(rs, all[i].key));
      assert i < |es| ==> all[i] == es[i];
    }
  }

  lemma GroupedNext(rs: Redirects, es: seq<Entry>, n: nat, ps: seq<Project>, project: Key)
    requires n < |es| && Grouped(rs, es[..n], ps) && project == Canonical(rs, es[n].key)
    ensures Grouped(rs, es[..n + 1], Group(ps, project, es[n]))
  {
    assert es[..n + 1] == es[..n] + [es[n]];
    GroupedMore(rs, es[..n], ps, es[n], es[..n + 1]);
  }

  lemma GroupedMore(rs: Redirects, es: seq<Entry>, ps: seq<Project>, e: Entry, more: seq<Entry>)
    requires Grouped(rs, es, ps) && more == es + [e]
    ensures Grouped(rs, more, Group(ps, Canonical(rs, e.key), e))
  {
    GroupedStep(rs, es, ps, e);
  }

  /** The second loop: entries grouped under their canonical key. */
  method GroupEntries(rs: Redirects, es: seq<Entry>) returns (ps: seq<Project>)
    ensures Grouped(rs, es, ps)
  {
    ps := [];
    for n := 0 to |es|
      invariant Grouped(rs, es[..n], ps)
    {
      var project := ResolveCanonical(rs, es[n].key);
      GroupedNext(rs, es, n, ps, project);
      ps := Group(ps, project, es[n]);
    }
    assert es[..|es|] == es;
  }

  // ----- the whole operation

  lemma {:induction false} MembersAre(es: seq<Entry>, rs: Redirects, project: Key, key: Key)
    ensures key in MembersOf(es, rs, project) <==> HasEntry(es, key) && Canonical(rs, key) == project
  {
    if es != [] {
      var before := es[..|es| - 1];
      MembersAre(before, rs, project, key);
      assert HasEntry(es, key) <==> HasEntry(before, key) || es[|es| - 1].key == key by {
        assert forall i :: 0 <= i < |before| ==> es[i] == before[i];
      }
    }
  }

  predicate Distinct(keys: seq<Key>) {
    forall i, j :: 0 <= i < j < |keys| ==> keys[i] != keys[j]
  }

  lemma {:induction false} MembersUnique(es: seq<Entry>, rs: Redirects, project: Key)
    requires UniqueEntries(es)
    ensures Distinct(MembersOf(es, rs, project))
  {
    if es != [] {
      var before, last := es[..|es| - 1], es[|es| - 1];
      MembersUnique(before, rs, project);
      MembersAre(before, rs, project, last.key);
      assert !HasEntry(before, last.key);
    }
  }

  /** The sessions of a project are those whose effective key has it as canonical key; a key is a
      member of that one project, once. */
  ghost predicate Partitioned(reassignments: map<string, Key>, rs: Redirects, sessions: seq<Summary>,
                              ps: seq<Project>) {
    && (forall i, j :: 0 <= i < j < |ps| ==> ps[i].key != ps[j].key)
    && (forall i :: 0 <= i < |ps| ==> ps[i].count == CountIn(reassignments, rs, sessions, ps[i].key))
    && (forall i, key :: 0 <= i < |ps| ==>
          (key in ps[i].members <==> IsEffective(reassignments, sessions, key) && Canonical(rs, key) == ps[i].key))
    && (forall i :: 0 <= i < |ps| ==> Distinct(ps[i].members))
    && (forall key :: IsEffective(reassignments, sessions, key) ==> HasProject(ps, Canonical(rs, key)))
    && SumProjects(ps) == CountWithKey(reassignments, sessions)
  }

  lemma GroupingPartitions(
    reassignments: map<string, Key>, rs: Redirects, sessions: seq<Summary>, es: seq<Entry>, ps: seq<Project>)
    requires Counted(reassignments, rs, sessions, es) && Grouped(rs, es, ps)
    ensures Partitioned(reassignments, rs, sessions, ps)
  {
    forall i, key | 0 <= i < |ps|
      ensures key in ps[i].members <==> IsEffective(reassignments, sessions, key) && Canonical(rs, key) == ps[i].key
    {
      assert Gathers(ps[i], rs, es);
      MembersAre(es, rs, ps[i].key, key);
      assert HasEntry(es, key) <==> IsEffective(reassignments, sessions, key);
    }
    forall i | 0 <= i < |ps|
      ensures ps[i].count == CountIn(reassignments, rs, sessions, ps[i].key)
      ensures Distinct(ps[i].members)
    {
      assert Gathers(ps[i], rs, es);
      MembersUnique(es, rs, ps[i].key);
    }
    forall key | IsEffective(reassignments, sessions, key) ensures HasProject(ps, Canonical(rs, key)) {
      assert HasEntry(es, key);
    }
  }

  method ResolveProjects(reassignments: map<string, Key>, rs: Redirects, sessions: seq<Summary>)
    returns (ps: seq<Project>)
    ensures Partitioned(reassignments, rs, sessions, ps)
  {
    var es := CountSessions(reassignments, rs, sessions);
    ps := GroupEntries(rs, es);
    GroupingPartitions(reassignments, rs, sessions, es, ps);
  }

  // ----- reassigning a session

  /** How much a key with this canonical project counts for it. */
  function Weight(rs: Redirects, key: Option<Key>, project: Key): nat {
    if key.Some? && Canonical(rs, key.value) == project then 1 else 0
  }

  lemma {:induction false} OthersStay(
    reassignments: map<string, Key>, id: string, key: Key, rs: Redirects, sessions: seq<Summary>, project: Key)
    requires forall j :: 0 <= j < |sessions| ==> sessions[j].storageId != id
    ensures CountIn(reassignments[id := key], rs, sessions, project) == CountIn(reassignments, rs, sessions, project)
  {
    if sessions != [] {
      OthersStay(reassignments, id, key, rs, sessions[..|sessions| - 1], project);
    }
  }

  /** Reassigning one session moves it, and nothing else, from the project of its key so far (the one it was
      reassigned to before, or else the one detected) to the project of its new key. */
  lemma {:induction false} ReassignMovesOne(
    reassignments: map<string, Key>, key: Key, rs: Redirects, sessions: seq<Summary>, i: nat, project: Key)
    requires i < |sessions|
    requires forall j, k :: 0 <= j < k < |sessions| ==> sessions[j].storageId != sessions[k].storageId
    ensures var id := sessions[i].storageId;
            var before := if id in reassignments then Some(reassignments[id]) else sessions[i].projectKey;
            CountIn(reassignments[id := key], rs, sessions, project) + Weight(rs, before, project) ==
            CountIn(reassignments, rs, sessions, project) + Weight(rs, Some(key), project)
  {
    var n, id := |sessions| - 1, sessions[i].storageId;
    if i == n {
      OthersStay(reassignments, id, key, rs, sessions[..n], project);
    } else {
      ReassignMovesOne(reassignments, key, rs, sessions[..n], i, project);
    }
  }
}
