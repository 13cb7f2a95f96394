/**
 What the report on one event says (src-tauri/src/correlation.rs, `correlate_at`), in terms of the sessions and
 their points alone: which of them count, how much they bring in, and how the two sides compare.
 */
module CorrelationReport {
  import opened Prelude
  import opened Buckets
  import opened Scopes
  import opened Correlation
  import opened CorrelationOrder

  // ----- windows, in milliseconds and in nanoseconds

  function Days(n: int): nat {
    if n <= 0 then 0 else n
  }

  /** The time lies on this side of the event, counted in whole milliseconds: the days before it up to the
      millisecond before, or the event's millisecond and the days after. */
  predicate Falls(q: Query, e: Event, side: Side, at: int) {
    var event, time := e.timestamp / 1_000_000, at / 1_000_000;
    match side
    case Before => event - 86_400_000 * Days(q.beforeDays) <= time < event
    case After => event <= time <= event + 86_400_000 * Days(q.afterDays)
  }

  lemma WholeMilliseconds(a: int, k: int)
    ensures (a + k * 1_000_000) / 1_000_000 == a / 1_000_000 + k
  {
  }

  lemma FallsInWindow(q: Query, e: Event, side: Side, at: int)
    ensures InWindow(at, WindowOf(q, e, side)) <==> Falls(q, e, side, at)
  {
    var before: int, after: int := AtLeastZero(q.beforeDays), AtLeastZero(q.afterDays);
    WholeMilliseconds(e.timestamp, -86_400_000 * before);
    WholeMilliseconds(e.timestamp, 86_400_000 * after);
    WholeMilliseconds(e.timestamp, -1);
  }

  /** The first and the last nanosecond of a side. */
  function Edges(q: Query, e: Event, side: Side): (int, int) {
    match side
    case Before => (e.timestamp - 86_400_000_000_000 * Days(q.beforeDays), e.timestamp - 1_000_000)
    case After => (e.timestamp, e.timestamp + 86_400_000_000_000 * Days(q.afterDays))
  }

  lemma EdgesOfWindow(q: Query, e: Event, side: Side)
    ensures WindowOf(q, e, side) == Window(Edges(q, e, side).0, Edges(q, e, side).1)
  {
  }

  // ----- which sessions count

  /** Another event around this one, for a scope they share. */
  predicate Rivals(q: Query, e: Event, other: Event) {
    && other.id != e.id
    && Edges(q, e, Before).0 <= other.timestamp <= Edges(q, e, After).1
    && (e.scope.Some? && other.scope.Some? ==> e.scope.value == other.scope.value)
  }

  predicate HasRival(q: Query, e: Event) {
    exists i :: 0 <= i < |q.events| && Rivals(q, e, q.events[i])
  }

  /** The session works in the place the event is about: its harness if it names one; its scope if it has one,
      as a hash of the session's directory or an ancestor, or as a path above or below that directory. */
  predicate AtPlace(hash: string -> string, place: Place, e: Event) {
    && (e.harness.Some? ==> place.harness == e.harness.value)
    && (e.scope.Some? ==>
          && place.workingDirectory.Some?
          && var dir := Normalize(place.workingDirectory.value);
          if "project:" <= e.scope.value then
            exists n :: 0 <= n <= |dir| && (n == |dir| || dir[n] == '/') && Identity(hash, dir[..n]) == e.scope.value
          else Within(dir, Normalize(e.scope.value)) || Within(Normalize(e.scope.value), dir))
  }

  predicate TakesPart(x: Setup, s: Summary, e: Event) {
    && (x.query.includeSubagents || (s.parentThread.None? && s.agentPath.None? && s.source != Some("subagent")))
    && !(x.query.excludeConfounded && HasRival(x.query, e))
    && AtPlace(x.hash, s.place, e)
  }

  lemma RivalsConfound(q: Query, e: Event, other: Event)
    ensures Confounds(q, e, other) <==> Rivals(q, e, other)
  {
  }

  lemma RivalsExclude(q: Query, e: Event)
    ensures Excluded(q, e) <==> q.excludeConfounded && HasRival(q, e)
  {
    forall i | 0 <= i < |q.events| ensures Confounds(q, e, q.events[i]) <==> Rivals(q, e, q.events[i]) {
      RivalsConfound(q, e, q.events[i]);
    }
  }

  lemma PlaceMatches(hash: string -> string, place: Place, e: Event)
    ensures ScopeMatches(hash, place, e.harness, e.scope) <==> AtPlace(hash, place, e)
  {
    if e.scope.Some? && place.workingDirectory.Some? && "project:" <= e.scope.value {
      var dir := Normalize(place.workingDirectory.value);
      forall n | 0 <= n <= |dir|
        ensures MatchesAt(hash, dir, e.scope.value, n) <==>
                (n == |dir| || dir[n] == '/') && Identity(hash, dir[..n]) == e.scope.value
      {
      }
    }
  }

  lemma RelevantTakesPart(x: Setup, s: Summary, e: Event)
    ensures Relevant(x, s, e) <==> TakesPart(x, s, e)
  {
    RivalsExclude(x.query, e);
    PlaceMatches(x.hash, s.place, e);
  }

  // ----- what one session brings in

  function TokensOn(q: Query, e: Event, side: Side, history: seq<Point>): Tokens {
    if history == [] then ZERO
    else
      var last := history[|history| - 1];
      Add(TokensOn(q, e, side, history[..|history| - 1]), if Falls(q, e, side, last.at) then last.delta else ZERO)
  }

  function ToolsOn(q: Query, e: Event, side: Side, tools: seq<Tool>): seq<Tool> {
    if tools == [] then []
    else
      var last := tools[|tools| - 1];
      ToolsOn(q, e, side, tools[..|tools| - 1]) + if Falls(q, e, side, last.at) then [last] else []
  }

  /** The tokens of the points that name this model, under this tier. */
  function KeyOn(q: Query, e: Event, side: Side, history: seq<Point>, k: Key): Option<Tokens> {
    if history == [] then None
    else
      var last := history[|history| - 1];
      Plus(KeyOn(q, e, side, history[..|history| - 1], k),
           if Falls(q, e, side, last.at) && last.model == Some(k.model) && last.tier == k.tier then Some(last.delta)
           else None)
  }

  /** The session takes part and has tokens or tool calls on this side. */
  predicate Contributes(x: Setup, s: Session, e: Event, side: Side) {
    && TakesPart(x, s.summary, e)
    && (TokensOn(x.query, e, side, s.history).total > 0
        || x.tally(ToolsOn(x.query, e, side, s.tools)).calls > 0)
  }

  lemma {:induction false} TokensInWindow(q: Query, e: Event, side: Side, history: seq<Point>)
    ensures SumDeltas(PointsIn(history, WindowOf(q, e, side))) == TokensOn(q, e, side, history)
  {
    if history != [] {
      var n := |history| - 1;
      var points := PointsIn(history[..n], WindowOf(q, e, side));
      TokensInWindow(q, e, side, history[..n]);
      FallsInWindow(q, e, side, history[n].at);
      AddZero(SumDeltas(points));
      assert (points + [history[n]])[..|points|] == points && points + [] == points;
    }
  }

  lemma {:induction false} ToolsInWindow(q: Query, e: Event, side: Side, tools: seq<Tool>)
    ensures ToolsIn(tools, WindowOf(q, e, side)) == ToolsOn(q, e, side, tools)
  {
    if tools != [] {
      ToolsInWindow(q, e, side, tools[..|tools| - 1]);
      FallsInWindow(q, e, side, tools[|tools| - 1].at);
    }
  }

  lemma {:induction false} KeysInWindow(q: Query, e: Event, side: Side, history: seq<Point>, k: Key)
    ensures SumFor(Attributed(PointsIn(history, WindowOf(q, e, side))), k) == KeyOn(q, e, side, history, k)
  {
    if history != [] {
      var n := |history| - 1;
      var points := PointsIn(history[..n], WindowOf(q, e, side));
      KeysInWindow(q, e, side, history[..n], k);
      FallsInWindow(q, e, side, history[n].at);
      OneMorePoint(points, history[n], k);
      assert points + [] == points;
    }
  }

  lemma OneMorePoint(points: seq<Point>, p: Point, k: Key)
    ensures SumFor(Attributed(points + [p]), k) ==
            Plus(SumFor(Attributed(points), k),
                 if p.model == Some(k.model) && p.tier == k.tier then Some(p.delta) else None)
  {
    var before := Attributed(points);
    assert (points + [p])[..|points|] == points;
    if p.model.Some? {
      var b := Bucket(Key(p.model.value, p.tier), p.delta);
      assert Attributed(points + [p]) == before + [b] && (before + [b])[..|before|] == before;
    } else {
      assert Attributed(points + [p]) == before + [] == before;
    }
  }

  lemma {:induction false} FreshAppends(bs: seq<Bucket>, b: Bucket)
    requires forall x :: x in bs ==> x.key != b.key
    ensures AddBucket(bs, b) == bs + [b]
  {
    if bs != [] {
      assert bs[0] in bs && forall x :: x in bs[1..] ==> x in bs;
      FreshAppends(bs[1..], b);
    }
  }

  /** Collecting a list without repeated keys leaves it as it is. */
  lemma {:induction false} UniqueCollects(bs: seq<Bucket>)
    requires UniqueKeys(bs)
    ensures AddBuckets([], bs) == bs
  {
    if bs != [] {
      var n := |bs| - 1;
      UniqueCollects(bs[..n]);
      FreshAppends(bs[..n], bs[n]);
    }
  }

  lemma SortedUnique(bs: seq<Bucket>)
    requires Sorted(bs)
    ensures UniqueKeys(bs)
  {
    forall i, j | 0 <= i < j < |bs| ensures bs[i].key != bs[j].key {
      KeyOrder(bs[i].key, bs[j].key);
    }
  }

  /** The buckets of a session in a window say of every key what its points say. */
  lemma BucketsSay(x: Setup, s: Session, e: Event, side: Side, k: Key)
    ensures SumFor(RangeOf(x, s, WindowOf(x.query, e, side)).buckets, k) == KeyOn(x.query, e, side, s.history, k)
  {
    var points := PointsIn(s.history, WindowOf(x.query, e, side));
    var collected := AddBuckets([], Attributed(points));
    AddBucketsUnique([], Attributed(points));
    SortFacts(collected);
    SortedUnique(Sort(collected));
    UniqueCollects(Sort(collected));
    AddBucketsLookup([], Sort(collected), k);
    AddBucketsLookup([], Attributed(points), k);
    KeysInWindow(x.query, e, side, s.history, k);
  }

  lemma ContributesExactlyWhen(x: Setup, s: Session, e: Event, side: Side)
    ensures var r := RangeOf(x, s, WindowOf(x.query, e, side));
            && (Contributes(x, s, e, side) <==> Relevant(x, s.summary, e) && !Silent(r))
            && r.tokens == TokensOn(x.query, e, side, s.history)
            && r.metrics == x.tally(ToolsOn(x.query, e, side, s.tools))
  {
    RelevantTakesPart(x, s.summary, e);
    TokensInWindow(x.query, e, side, s.history);
    ToolsInWindow(x.query, e, side, s.tools);
  }

  // ----- what all sessions bring in

  function Contributors(x: Setup, sessions: seq<Session>, e: Event, side: Side): set<nat> {
    set i | 0 <= i < |sessions| && Contributes(x, sessions[i], e, side)
  }

  function BroughtIn(x: Setup, sessions: seq<Session>, e: Event, side: Side): Tokens {
    if sessions == [] then ZERO
    else
      var s := sessions[|sessions| - 1];
      Add(BroughtIn(x, sessions[..|sessions| - 1], e, side),
          if Contributes(x, s, e, side) then TokensOn(x.query, e, side, s.history) else ZERO)
  }

  /** What the sessions of a harness bring in for one model and tier. */
  function BroughtFor(x: Setup, sessions: seq<Session>, e: Event, side: Side, harness: string, k: Key): Option<Tokens> {
    if sessions == [] then None
    else
      var s := sessions[|sessions| - 1];
      Plus(BroughtFor(x, sessions[..|sessions| - 1], e, side, harness, k),
           if Contributes(x, s, e, side) && s.summary.place.harness == harness
           then KeyOn(x.query, e, side, s.history, k) else None)
  }

  /** The turns of a session that reach into a side. */
  function TurnsOn(q: Query, s: Session, turns: seq<Turn>, e: Event, side: Side): nat {
    if turns == [] then 0
    else
      var t := turns[|turns| - 1];
      var start := if t.startedAt.Some? then t.startedAt.value else s.summary.startedAt;
      var end := if t.completedAt.Some? then t.completedAt.value else s.summary.lastEventAt;
      TurnsOn(q, s, turns[..|turns| - 1], e, side) +
      if Edges(q, e, side).0 <= end && start <= Edges(q, e, side).1 then 1 else 0
  }

  /** The whole milliseconds that a session spends on a side. */
  function SpentOn(q: Query, s: Session, e: Event, side: Side): nat {
    var (first, last) := Edges(q, e, side);
    var from := if s.summary.startedAt < first then first else s.summary.startedAt;
    var to := if s.summary.lastEventAt > last then last else s.summary.lastEventAt;
    if from < to then (to - from) / 1_000_000 else 0
  }

  function AllTurns(x: Setup, sessions: seq<Session>, e: Event, side: Side): nat {
    if sessions == [] then 0
    else
      var s := sessions[|sessions| - 1];
      AllTurns(x, sessions[..|sessions| - 1], e, side) +
      if Contributes(x, s, e, side) then TurnsOn(x.query, s, s.turns, e, side) else 0
  }

  function AllSpent(x: Setup, sessions: seq<Session>, e: Event, side: Side): nat {
    if sessions == [] then 0
    else
      var s := sessions[|sessions| - 1];
      AllSpent(x, sessions[..|sessions| - 1], e, side) +
      if Contributes(x, s, e, side) then SpentOn(x.query, s, e, side) else 0
  }

  function MetricsOn(x: Setup, sessions: seq<Session>, e: Event, side: Side): Metrics {
    if sessions == [] then Metrics(0, 0, 0, 0, 0)
    else
      var s, before := sessions[|sessions| - 1], MetricsOn(x, sessions[..|sessions| - 1], e, side);
      if !Contributes(x, s, e, side) then before
      else
        var m := x.tally(ToolsOn(x.query, e, side, s.tools));
        Metrics(before.calls + m.calls, before.successes + m.successes, before.failures + m.failures,
                before.durationMs + m.durationMs, before.outputBytes + m.outputBytes)
  }

  /** An observation holds exactly what the contributing sessions bring in. */
  ghost predicate Holds(x: Setup, sessions: seq<Session>, e: Event, side: Side, o: Observation) {
    && o.sessionCount == |Contributors(x, sessions, e, side)|
    && o.tokens == BroughtIn(x, sessions, e, side)
    && o.turnCount == AllTurns(x, sessions, e, side)
    && o.durationMs == AllSpent(x, sessions, e, side)
    && o.metrics == MetricsOn(x, sessions, e, side)
    && forall h, k :: Lookup(BucketsAt(o, h), k) == BroughtFor(x, sessions, e, side, h, k)
  }

  lemma OneMoreIndex(before: set<nat>, after: set<nat>, n: nat, more: bool)
    requires n !in before && forall i :: i in after <==> i in before || (more && i == n)
    ensures |after| == |before| + if more then 1 else 0
  {
    assert after == before + if more then {n} else {};
  }

  lemma OneMoreContributor(x: Setup, front: seq<Session>, s: Session, e: Event, side: Side)
    ensures |Contributors(x, front + [s], e, side)| ==
            |Contributors(x, front, e, side)| + if Contributes(x, s, e, side) then 1 else 0
  {
    var before, after := Contributors(x, front, e, side), Contributors(x, front + [s], e, side);
    forall i ensures i in after <==> i in before || (Contributes(x, s, e, side) && i == |front|) {
      if 0 <= i < |front| {
        assert (front + [s])[i] == front[i];
      } else if i == |front| {
        assert (front + [s])[i] == s;
      }
    }
    OneMoreIndex(before, after, |front|, Contributes(x, s, e, side));
  }

  lemma {:induction false} SameTurns(q: Query, s: Session, turns: seq<Turn>, e: Event, side: Side)
    ensures TurnsIn(s, turns, WindowOf(q, e, side)) == TurnsOn(q, s, turns, e, side)
  {
    if turns != [] {
      EdgesOfWindow(q, e, side);
      SameTurns(q, s, turns[..|turns| - 1], e, side);
    }
  }

  lemma SameSpent(q: Query, s: Session, e: Event, side: Side)
    ensures OverlapMs(s.summary.startedAt, s.summary.lastEventAt, WindowOf(q, e, side)) == SpentOn(q, s, e, side)
  {
    EdgesOfWindow(q, e, side);
  }

  /** What one session adds to the counters of a side. */
  lemma ObserveAdds(x: Setup, o: Observation, s: Session, e: Event, side: Side)
    ensures var o' := Observe(x, o, s, e, side);
            if Contributes(x, s, e, side) then
              && o'.sessionCount == o.sessionCount + 1
              && o'.tokens == Add(o.tokens, TokensOn(x.query, e, side, s.history))
              && o'.turnCount == o.turnCount + TurnsOn(x.query, s, s.turns, e, side)
              && o'.durationMs == o.durationMs + SpentOn(x.query, s, e, side)
              && o'.metrics == AddMetrics(o.metrics, x.tally(ToolsOn(x.query, e, side, s.tools)))
            else o' == o
  {
    ContributesExactlyWhen(x, s, e, side);
    SameTurns(x.query, s, s.turns, e, side);
    SameSpent(x.query, s, e, side);
  }

  lemma {:induction false} CountsContributors(x: Setup, sessions: seq<Session>, e: Event, side: Side)
    ensures Accumulate(x, sessions, e, side).sessionCount == |Contributors(x, sessions, e, side)|
  {
    if sessions == [] {
      assert Contributors(x, sessions, e, side) == {};
    } else {
      var front, s := sessions[..|sessions| - 1], sessions[|sessions| - 1];
      assert sessions == front + [s];
      CountsContributors(x, front, e, side);
      ObserveAdds(x, Accumulate(x, front, e, side), s, e, side);
      OneMoreContributor(x, front, s, e, side);
    }
  }

  lemma {:induction false} AccumulatesTokens(x: Setup, sessions: seq<Session>, e: Event, side: Side)
    ensures var o := Accumulate(x, sessions, e, side); o.tokens == BroughtIn(x, sessions, e, side)
  {
    if sessions != [] {
      var n := |sessions| - 1;
      AccumulatesTokens(x, sessions[..n], e, side);
      ObserveAdds(x, Accumulate(x, sessions[..n], e, side), sessions[n], e, side);
      AddZero(BroughtIn(x, sessions[..n], e, side));
    }
  }

  lemma {:induction false} AccumulatesTurns(x: Setup, sessions: seq<Session>, e: Event, side: Side)
    ensures var o := Accumulate(x, sessions, e, side); o.turnCount == AllTurns(x, sessions, e, side)
  {
    if sessions != [] {
      var n := |sessions| - 1;
      AccumulatesTurns(x, sessions[..n], e, side);
      ObserveAdds(x, Accumulate(x, sessions[..n], e, side), sessions[n], e, side);
    }
  }

  lemma {:induction false} AccumulatesSpent(x: Setup, sessions: seq<Session>, e: Event, side: Side)
    ensures var o := Accumulate(x, sessions, e, side); o.durationMs == AllSpent(x, sessions, e, side)
  {
    if sessions != [] {
      var n := |sessions| - 1;
      AccumulatesSpent(x, sessions[..n], e, side);
      ObserveAdds(x, Accumulate(x, sessions[..n], e, side), sessions[n], e, side);
    }
  }

  lemma {:induction false} AccumulatesMetrics(x: Setup, sessions: seq<Session>, e: Event, side: Side)
    ensures var o := Accumulate(x, sessions, e, side); o.metrics == MetricsOn(x, sessions, e, side)
  {
    if sessions != [] {
      var n := |sessions| - 1;
      AccumulatesMetrics(x, sessions[..n], e, side);
      ObserveAdds(x, Accumulate(x, sessions[..n], e, side), sessions[n], e, side);
    }
  }

  lemma {:induction false} AccumulatesKeys(x: Setup, sessions: seq<Session>, e: Event, side: Side, h: string, k: Key)
    ensures Lookup(BucketsAt(Accumulate(x, sessions, e, side), h), k) == BroughtFor(x, sessions, e, side, h, k)
  {
    if sessions != [] {
      var n := |sessions| - 1;
      var s, o := sessions[n], Accumulate(x, sessions[..n], e, side);
      AccumulatesKeys(x, sessions[..n], e, side, h, k);
      ContributesExactlyWhen(x, s, e, side);
      ObserveBuckets(x, o, s, e, side, h);
      AddBucketsLookup(BucketsAt(o, h), RangeOf(x, s, WindowOf(x.query, e, side)).buckets, k);
      BucketsSay(x, s, e, side, k);
    }
  }

  lemma AccumulatesExactly(x: Setup, sessions: seq<Session>, e: Event, side: Side)
    ensures Holds(x, sessions, e, side, Accumulate(x, sessions, e, side))
  {
    CountsContributors(x, sessions, e, side);
    AccumulatesTokens(x, sessions, e, side);
    AccumulatesTurns(x, sessions, e, side);
    AccumulatesSpent(x, sessions, e, side);
    AccumulatesMetrics(x, sessions, e, side);
    forall h, k
      ensures Lookup(BucketsAt(Accumulate(x, sessions, e, side), h), k) == BroughtFor(x, sessions, e, side, h, k)
    {
      AccumulatesKeys(x, sessions, e, side, h, k);
    }
  }

  lemma FinalizedHolds(x: Setup, sessions: seq<Session>, e: Event, side: Side, o: Observation, f: Observation)
    requires Holds(x, sessions, e, side, o) && Same(o, o) && Finalized(o, f)
    ensures Holds(x, sessions, e, side, f)
  {
    forall h, k ensures Lookup(BucketsAt(f, h), k) == BroughtFor(x, sessions, e, side, h, k) {
      assert Lookup(BucketsAt(o, h), k) == BroughtFor(x, sessions, e, side, h, k);
      if h in o.buckets {
        assert SameLists(BucketsAt(o, h), BucketsAt(o, h));
        SortFacts(o.buckets[h]);
      }
    }
  }

  // ----- the report

  /** The ids of the rivals, in the order of the query. */
  ghost predicate ListsRivals(q: Query, e: Event, ids: seq<string>) {
    exists at: seq<nat> :: RivalsAt(q, e, q.events, ids, at)
  }

  ghost predicate RivalsAt(q: Query, e: Event, events: seq<Event>, ids: seq<string>, at: seq<nat>) {
    && |ids| == |at|
    && (forall k, l :: 0 <= k < l < |at| ==> at[k] < at[l])
    && (forall k :: 0 <= k < |at| ==> at[k] < |events| && ids[k] == events[at[k]].id)
    && forall i: nat :: i in at <==> i < |events| && Rivals(q, e, events[i])
  }

  lemma OneMoreRival(q: Query, e: Event, front: seq<Event>, other: Event, ids: seq<string>, at: seq<nat>)
    requires RivalsAt(q, e, front, ids, at)
    ensures if Rivals(q, e, other) then RivalsAt(q, e, front + [other], ids + [other.id], at + [|front|])
            else RivalsAt(q, e, front + [other], ids, at)
  {
    var all := front + [other];
    assert all[|front|] == other && forall j :: 0 <= j < |front| ==> all[j] == front[j];
  }

  lemma {:induction false} ConfoundersAre(q: Query, e: Event, events: seq<Event>) returns (at: seq<nat>)
    ensures RivalsAt(q, e, events, ConfounderIds(q, e, events), at)
  {
    if events == [] {
      at := [];
    } else {
      var n := |events| - 1;
      at := ConfoundersAre(q, e, events[..n]);
      OneMoreRival(q, e, events[..n], events[n], ConfounderIds(q, e, events[..n]), at);
      RivalsConfound(q, e, events[n]);
      assert events[..n] + [events[n]] == events;
      assert ConfounderIds(q, e, events[..n]) + [] == ConfounderIds(q, e, events[..n]);
      at := if Rivals(q, e, events[n]) then at + [n] else at;
    }
  }

  /** What the report on an event says: both sides hold what the contributing sessions bring in, the deltas are
      after minus before, and the rest is about the event, the query and the clock. */
  lemma ReportSays(x: Setup, sessions: seq<Session>, now: int, e: Event, r: Report)
    requires Reports(x, sessions, now, e, r)
    ensures r.event == e && Holds(x, sessions, e, Before, r.before) && Holds(x, sessions, e, After, r.after)
    ensures r.tokenDelta == BroughtIn(x, sessions, e, After).total - BroughtIn(x, sessions, e, Before).total
    ensures r.sessionDelta == |Contributors(x, sessions, e, After)| - |Contributors(x, sessions, e, Before)|
    ensures r.sampleReady <==>
              |Contributors(x, sessions, e, Before)| >= 3 && |Contributors(x, sessions, e, After)| >= 3
    ensures r.afterWindowEnd == Edges(x.query, e, After).1
    ensures r.afterWindowComplete <==> now >= Edges(x.query, e, After).1
    ensures ListsRivals(x.query, e, r.confounders)
    ensures r.excluded <==> x.query.excludeConfounded && HasRival(x.query, e)
  {
    SideHolds(x, sessions, e, Before, r.before);
    SideHolds(x, sessions, e, After, r.after);
    EdgesOfWindow(x.query, e, After);
    var at := ConfoundersAre(x.query, e, x.query.events);
    RivalsExclude(x.query, e);
  }

  lemma SideHolds(x: Setup, sessions: seq<Session>, e: Event, side: Side, f: Observation)
    requires Finalized(Accumulate(x, sessions, e, side), f)
    ensures Holds(x, sessions, e, side, f)
  {
    AccumulatesExactly(x, sessions, e, side);
    AccumulateSame(x, sessions, e, side);
    FinalizedHolds(x, sessions, e, side, Accumulate(x, sessions, e, side), f);
  }
}
