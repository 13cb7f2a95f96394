/**
 Correlating sessions with external events (src-tauri/src/correlation.rs): event
 windows and exclusions, per-window totals of one session, and their accumulation
 into one observation per event and side.
 Time is an integer number of nanoseconds; totals look at whole milliseconds.
 */
module Correlation {
  import opened Prelude
  import opened Buckets
  import opened Scopes

  const DAY := 24 * 3600 * 1000 * MILLISECOND

  datatype Tool = Tool(at: int, call: string)

  datatype Turn = Turn(startedAt: Option<int>, completedAt: Option<int>)

  /** Additive tool counters; the remaining counters of the original add up the same way. */
  datatype Metrics = Metrics(calls: nat, successes: nat, failures: nat, durationMs: nat, outputBytes: nat)

  /** The resident summary of a session. */
  datatype Summary = Summary(
    place: Place, parentThread: Option<string>, agentPath: Option<string>, source: Option<string>,
    startedAt: int, lastEventAt: int)

  datatype Session = Session(summary: Summary, turns: seq<Turn>, history: seq<Point>, tools: seq<Tool>)

  datatype Event = Event(id: string, timestamp: int, scope: Option<string>, harness: Option<string>)

  datatype Query = Query(
    events: seq<Event>, beforeDays: int, afterDays: int, excludeConfounded: bool, includeSubagents: bool)

  datatype Side = Before | After

  /** Both bounds inclusive. */
  datatype Window = Window(from: int, to: int)

  /** The query, the hash of redacted scopes, and the metrics of a selection of tool calls. */
  datatype Setup = Setup(query: Query, hash: string -> string, tally: seq<Tool> -> Metrics)

  // ----- windows and exclusions

  function AtLeastZero(n: int): nat {
    if n > 0 then n else 0
  }

  /** `event_windows`. */
  function WindowOf(q: Query, e: Event, side: Side): Window {
    match side
    case Before => Window(e.timestamp - AtLeastZero(q.beforeDays) * DAY, e.timestamp - MILLISECOND)
    case After => Window(e.timestamp, e.timestamp + AtLeastZero(q.afterDays) * DAY)
  }

  predicate Confounds(q: Query, e: Event, other: Event) {
    && other.id != e.id
    && WindowOf(q, e, Before).from <= other.timestamp <= WindowOf(q, e, After).to
    && (e.scope.None? || other.scope.None? || other.scope == e.scope)
  }

  /** `event_exclusions`. */
  predicate Excluded(q: Query, e: Event) {
    q.excludeConfounded && exists i :: 0 <= i < |q.events| && Confounds(q, e, q.events[i])
  }

  predicate IsSubagent(s: Summary) {
    s.parentThread.Some? || s.agentPath.Some? || s.source == Some("subagent")
  }

  /** Whether a session is looked at for an event at all. */
  predicate Relevant(x: Setup, s: Summary, e: Event) {
    && (x.query.includeSubagents || !IsSubagent(s))
    && !Excluded(x.query, e)
    && ScopeMatches(x.hash, s.place, e.harness, e.scope)
  }

  // ----- totals of one session in one window

  function Ms(t: int): int {
    t / MILLISECOND
  }

  predicate InWindow(at: int, w: Window) {
    Ms(w.from) <= Ms(at) <= Ms(w.to)
  }

  function PointsIn(history: seq<Point>, w: Window): seq<Point> {
    if history == [] then []
    else
      var n := |history| - 1;
      PointsIn(history[..n], w) + if InWindow(history[n].at, w) then [history[n]] else []
  }

  function ToolsIn(tools: seq<Tool>, w: Window): seq<Tool> {
    if tools == [] then []
    else
      var n := |tools| - 1;
      ToolsIn(tools[..n], w) + if InWindow(tools[n].at, w) then [tools[n]] else []
  }

  /** One bucket for each point that names its model. */
  function Attributed(points: seq<Point>): seq<Bucket> {
    if points == [] then []
    else
      var p := points[|points| - 1];
      Attributed(points[..|points| - 1]) +
      if p.model.Some? then [Bucket(Key(p.model.value, p.tier), p.delta)] else []
  }

  datatype Range = Range(tokens: Tokens, buckets: seq<Bucket>, metrics: Metrics)

  /** `range_totals_multi` for one window. */
  function RangeOf(x: Setup, s: Session, w: Window): Range {
    var points := PointsIn(s.history, w);
    Range(SumDeltas(points), Sort(AddBuckets([], Attributed(points))), x.tally(ToolsIn(s.tools, w)))
  }

  // ----- the fast selection

  predicate InTimeOrder(history: seq<Point>) {
    forall i, j :: 0 <= i < j < |history| ==> history[i].at <= history[j].at
  }

  /** `partition_point`: how many leading points lie before the bound (or at it, when `inclusive`). */
  method PartitionPoint(history: seq<Point>, bound: int, inclusive: bool) returns (n: nat)
    requires InTimeOrder(history)
    ensures n <= |history|
    ensures forall i :: 0 <= i < n ==> Ms(history[i].at) < bound || (inclusive && Ms(history[i].at) == bound)
    ensures forall i :: n <= i < |history| ==> !(Ms(history[i].at) < bound || (inclusive && Ms(history[i].at) == bound))
  {
    var lo, hi := 0, |history|;
    while lo < hi
      invariant 0 <= lo <= hi <= |history|
      invariant forall i :: 0 <= i < lo ==> Ms(history[i].at) < bound || (inclusive && Ms(history[i].at) == bound)
      invariant forall i :: hi <= i < |history| ==>
                  !(Ms(history[i].at) < bound || (inclusive && Ms(history[i].at) == bound))
    {
      var mid := (lo + hi) / 2;
      if Ms(history[mid].at) < bound || (inclusive && Ms(history[mid].at) == bound) {
        lo := mid + 1;
      } else {
        hi := mid;
      }
    }
    n := lo;
  }

  /** Selecting the points of a window: by slicing when the history is chronological, otherwise one by one. */
  method SelectPoints(history: seq<Point>, w: Window) returns (r: seq<Point>)
    ensures r == PointsIn(history, w)
  {
    if InTimeOrder(history) {
      var start := PartitionPoint(history, Ms(w.from), false);
      var end := PartitionPoint(history, Ms(w.to), true);
      if start > end { start := end; }
      r := history[start..end];
      SliceIsFilter(history, w, start, end);
    } else {
      r := [];
      for i := 0 to |history|
        invariant r == PointsIn(history[..i], w)
      {
        assert history[..i + 1][..i] == history[..i];
        if InWindow(history[i].at, w) {
          r := r + [history[i]];
        }
      }
      assert history[..|history|] == history;
    }
  }

  /** A window that holds exactly a stretch of the history selects that stretch. */
  lemma {:induction false} SliceIsFilter(history: seq<Point>, w: Window, lo: nat, hi: nat)
    requires lo <= hi <= |history|
    requires forall i :: 0 <= i < |history| ==> (lo <= i < hi <==> InWindow(history[i].at, w))
    ensures PointsIn(history, w) == history[lo..hi]
  {
    if history != [] {
      var n := |history| - 1;
      var front := history[..n];
      var lo', hi' := if lo > n then n else lo, if hi > n then n else hi;
      SliceIsFilter(front, w, lo', hi');
      if hi > n && lo <= n {
        assert history[lo..hi] == front[lo'..hi'] + [history[n]];
      } else {
        assert history[lo..hi] == front[lo'..hi'];
      }
    }
  }

  // ----- observations

  datatype Observation = Observation(
    sessionCount: nat, turnCount: nat, durationMs: nat, tokens: Tokens, buckets: map<string, seq<Bucket>>,
    metrics: Metrics)

  const EMPTY := Observation(0, 0, 0, ZERO, map[], Metrics(0, 0, 0, 0, 0))

  predicate Overlaps(start: int, end: int, w: Window) {
    end >= w.from && start <= w.to
  }

  function TurnsIn(s: Session, turns: seq<Turn>, w: Window): nat {
    if turns == [] then 0
    else
      var t := turns[|turns| - 1];
      var start := if t.startedAt.Some? then t.startedAt.value else s.summary.startedAt;
      var end := if t.completedAt.Some? then t.completedAt.value else s.summary.lastEventAt;
      TurnsIn(s, turns[..|turns| - 1], w) + if Overlaps(start, end, w) then 1 else 0
  }

  function OverlapMs(start: int, end: int, w: Window): nat {
    var from := if start > w.from then start else w.from;
    var to := if end < w.to then end else w.to;
    if to >= from then (to - from) / MILLISECOND else 0
  }

  function AddMetrics(a: Metrics, b: Metrics): Metrics {
    Metrics(a.calls + b.calls, a.successes + b.successes, a.failures + b.failures,
            a.durationMs + b.durationMs, a.outputBytes + b.outputBytes)
  }

  function BucketsAt(o: Observation, harness: string): seq<Bucket> {
    if harness in o.buckets then o.buckets[harness] else []
  }

  predicate Silent(r: Range) {
    r.tokens.total == 0 && r.metrics.calls == 0
  }

  /** `add_range`. */
  function AddRange(o: Observation, s: Session, w: Window, r: Range): Observation {
    if Silent(r) then o
    else
      var harness := s.summary.place.harness;
      Observation(
        o.sessionCount + 1,
        o.turnCount + TurnsIn(s, s.turns, w),
        o.durationMs + OverlapMs(s.summary.startedAt, s.summary.lastEventAt, w),
        Add(o.tokens, r.tokens),
        o.buckets[harness := AddBuckets(BucketsAt(o, harness), r.buckets)],
        AddMetrics(o.metrics, r.metrics))
  }

  /** What one session does to the observation of one event and side. */
  function Observe(x: Setup, o: Observation, s: Session, e: Event, side: Side): Observation {
    var window := WindowOf(x.query, e, side);
    if Relevant(x, s.summary, e) then AddRange(o, s, window, RangeOf(x, s, window))
    else o
  }

  function Accumulate(x: Setup, sessions: seq<Session>, e: Event, side: Side): Observation {
    if sessions == [] then EMPTY
    else Observe(x, Accumulate(x, sessions[..|sessions| - 1], e, side), sessions[|sessions| - 1], e, side)
  }

  /** The accumulating loops of `correlate_at`: sessions outside, matched events inside. */
  method Correlate(x: Setup, sessions: seq<Session>) returns (before: seq<Observation>, after: seq<Observation>)
    ensures |before| == |after| == |x.query.events|
    ensures forall i :: 0 <= i < |before| ==> before[i] == Accumulate(x, sessions, x.query.events[i], Before)
    ensures forall i :: 0 <= i < |after| ==> after[i] == Accumulate(x, sessions, x.query.events[i], After)
  {
    var events := x.query.events;
    before, after := seq(|events|, _ => EMPTY), seq(|events|, _ => EMPTY);
    for n := 0 to |sessions|
      invariant |before| == |after| == |events|
      invariant forall i :: 0 <= i < |events| ==> before[i] == Accumulate(x, sessions[..n], events[i], Before)
      invariant forall i :: 0 <= i < |events| ==> after[i] == Accumulate(x, sessions[..n], events[i], After)
    {
      before, after := AddSession(x, sessions, n, before, after);
    }
    assert sessions[..|sessions|] == sessions;
  }

  method AddSession(x: Setup, sessions: seq<Session>, n: nat, before0: seq<Observation>, after0: seq<Observation>)
    returns (before: seq<Observation>, after: seq<Observation>)
    requires n < |sessions| && |before0| == |after0| == |x.query.events|
    requires forall i :: 0 <= i < |before0| ==> before0[i] == Accumulate(x, sessions[..n], x.query.events[i], Before)
    requires forall i :: 0 <= i < |after0| ==> after0[i] == Accumulate(x, sessions[..n], x.query.events[i], After)
    ensures |before| == |after| == |x.query.events|
    ensures forall i :: 0 <= i < |before| ==> before[i] == Accumulate(x, sessions[..n + 1], x.query.events[i], Before)
    ensures forall i :: 0 <= i < |after| ==> after[i] == Accumulate(x, sessions[..n + 1], x.query.events[i], After)
  {
    var events, s := x.query.events, sessions[n];
    before, after := before0, after0;
    assert sessions[..n + 1][..n] == sessions[..n];
    for k := 0 to |events|
      invariant |before| == |after| == |events|
      invariant forall i :: 0 <= i < k ==> before[i] == Observe(x, before0[i], s, events[i], Before)
      invariant forall i :: 0 <= i < k ==> after[i] == Observe(x, after0[i], s, events[i], After)
      invariant forall i :: k <= i < |events| ==> before[i] == before0[i] && after[i] == after0[i]
    {
      var e := events[k];
      if Relevant(x, s.summary, e) {
        var b, a := WindowOf(x.query, e, Before), WindowOf(x.query, e, After);
        before := before[k := AddRange(before[k], s, b, RangeOf(x, s, b))];
        after := after[k := AddRange(after[k], s, a, RangeOf(x, s, a))];
      }
    }
  }
}
