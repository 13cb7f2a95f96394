/**
 The summary-level pre-filter of `correlate_events` (src-tauri/src/correlation.rs,
 `candidate_session_keys`): when leaving sessions out does not change the result.
 */
module CorrelationFilter {
  import opened Prelude
  import opened Buckets
  import opened Scopes
  import opened Correlation

  /** Whether the span of a session meets one of the event's windows, at full precision. */
  predicate SpanOverlaps(x: Setup, s: Summary, e: Event) {
    || Overlaps(s.startedAt, s.lastEventAt, WindowOf(x.query, e, Before))
    || Overlaps(s.startedAt, s.lastEventAt, WindowOf(x.query, e, After))
  }

  predicate Candidate(x: Setup, s: Summary) {
    exists i :: 0 <= i < |x.query.events| && Relevant(x, s, x.query.events[i]) && SpanOverlaps(x, s, x.query.events[i])
  }

  /** `candidate_session_keys`: only summaries are read. */
  function Candidates(x: Setup, sessions: seq<Session>): seq<Session> {
    if sessions == [] then []
    else
      Candidates(x, sessions[..|sessions| - 1]) +
      if Candidate(x, sessions[|sessions| - 1].summary) then [sessions[|sessions| - 1]] else []
  }

  /** Every token and tool event lies between the start and the last event of its session. */
  predicate WithinSpan(s: Session) {
    && (forall p :: p in s.history ==> s.summary.startedAt <= p.at <= s.summary.lastEventAt)
    && (forall t :: t in s.tools ==> s.summary.startedAt <= t.at <= s.summary.lastEventAt)
  }

  /** Some instant of the span falls into the window, counted in whole milliseconds. */
  predicate Reaches(s: Summary, w: Window) {
    Ms(w.from) <= Ms(w.to) && Ms(s.lastEventAt) >= Ms(w.from) && Ms(s.startedAt) <= Ms(w.to)
  }

  /** The filter drops a session that could still contribute to a relevant event. */
  predicate Missed(x: Setup, s: Summary) {
    && !Candidate(x, s)
    && exists i, side: Side :: 0 <= i < |x.query.events| && Relevant(x, s, x.query.events[i])
                               && Reaches(s, WindowOf(x.query, x.query.events[i], side))
  }

  lemma {:induction false} NoPoints(history: seq<Point>, w: Window)
    requires forall p :: p in history ==> !InWindow(p.at, w)
    ensures PointsIn(history, w) == []
  {
    if history != [] {
      NoPoints(history[..|history| - 1], w);
    }
  }

  lemma {:induction false} NoTools(tools: seq<Tool>, w: Window)
    requires forall t :: t in tools ==> !InWindow(t.at, w)
    ensures ToolsIn(tools, w) == []
  {
    if tools != [] {
      NoTools(tools[..|tools| - 1], w);
    }
  }

  lemma OutOfReachIsSilent(x: Setup, s: Session, w: Window)
    requires WithinSpan(s) && !Reaches(s.summary, w) && x.tally([]).calls == 0
    ensures Silent(RangeOf(x, s, w))
  {
    NoPoints(s.history, w);
    NoTools(s.tools, w);
  }

  /** Correlating the candidates alone gives every observation that correlating all sessions gives. */
  lemma {:induction false} PrefilterLossless(x: Setup, sessions: seq<Session>, i: nat, side: Side)
    requires i < |x.query.events| && x.tally([]).calls == 0
    requires forall s :: s in sessions ==> WithinSpan(s) && !Missed(x, s.summary)
    ensures Accumulate(x, Candidates(x, sessions), x.query.events[i], side) ==
            Accumulate(x, sessions, x.query.events[i], side)
  {
    if sessions != [] {
      var n := |sessions| - 1;
      var front, s, e := sessions[..n], sessions[n], x.query.events[i];
      assert s in sessions;
      PrefilterLossless(x, front, i, side);
      if Candidate(x, s.summary) {
        var kept := Candidates(x, front);
        assert (kept + [s])[..|kept|] == kept;
      } else {
        assert Candidates(x, sessions) == Candidates(x, front);
        if Relevant(x, s.summary, e) {
          OutOfReachIsSilent(x, s, WindowOf(x.query, e, side));
        }
      }
    }
  }

  predicate WholeMilliseconds(t: int) {
    t % MILLISECOND == 0
  }

  /** With event times and session starts in whole milliseconds, the filter misses nothing. */
  lemma AlignedTimesMissNothing(x: Setup, s: Summary)
    requires WholeMilliseconds(s.startedAt)
    requires forall e :: e in x.query.events ==> WholeMilliseconds(e.timestamp)
    ensures !Missed(x, s)
  {
  }

  // ----- the condition is exact

  /** A session the filter misses, with one token event that counts. */
  lemma MissedCanCount(x: Setup, s: Summary) returns (session: Session, i: nat, side: Side)
    requires Missed(x, s) && s.startedAt <= s.lastEventAt && x.tally([]).calls == 0
    ensures session.summary == s && WithinSpan(session) && i < |x.query.events|
    ensures Accumulate(x, Candidates(x, [session]), x.query.events[i], side) !=
            Accumulate(x, [session], x.query.events[i], side)
  {
    var j, sd: Side :| 0 <= j < |x.query.events| && Relevant(x, s, x.query.events[j])
                       && Reaches(s, WindowOf(x.query, x.query.events[j], sd));
    i, side := j, sd;
    var w := WindowOf(x.query, x.query.events[i], side);
    var at := if Ms(s.startedAt) >= Ms(w.from) then s.startedAt else Ms(w.from) * MILLISECOND;
    assert s.startedAt <= at <= s.lastEventAt && InWindow(at, w);
    session := OneToken(s, at);
    OneTokenCounts(x, s, x.query.events[i], side, at);
    assert [session][..0] == [];
    assert Candidates(x, [session]) == [];
  }

  function OneToken(s: Summary, at: int): Session {
    Session(s, [], [Point(at, None, None, 1, 1, Tokens(1, 0, 0, 0, 0, 1))], [])
  }

  lemma OneTokenCounts(x: Setup, s: Summary, e: Event, side: Side, at: int)
    requires Relevant(x, s, e) && InWindow(at, WindowOf(x.query, e, side))
    ensures Accumulate(x, [OneToken(s, at)], e, side).sessionCount == 1
  {
  }

  /** Dropping a non-candidate is harmless for every content it may have, exactly when it is not missed. */
  lemma PrefilterExact(x: Setup, s: Summary)
    requires s.startedAt <= s.lastEventAt && x.tally([]).calls == 0
    ensures !Missed(x, s) <==>
            forall session: Session, i: nat, side: Side ::
              session.summary == s && WithinSpan(session) && i < |x.query.events| ==>
                Accumulate(x, Candidates(x, [session]), x.query.events[i], side) ==
                Accumulate(x, [session], x.query.events[i], side)
  {
    if Missed(x, s) {
      var session, i, side := MissedCanCount(x, s);
    } else {
      forall session: Session, i: nat, side: Side | session.summary == s && WithinSpan(session) && i < |x.query.events|
        ensures Accumulate(x, Candidates(x, [session]), x.query.events[i], side) ==
                Accumulate(x, [session], x.query.events[i], side)
      {
        PrefilterLossless(x, [session], i, side);
      }
    }
  }

  /** A session whose only event shares its millisecond with a later event of the query is missed. */
  lemma SameMillisecondIsMissed(hash: string -> string, tally: seq<Tool> -> Metrics)
    ensures var at := 10 * MILLISECOND + 300_000;
            var event := Event("config", 10 * MILLISECOND + 900_000, None, None);
            Missed(Setup(Query([event], 7, 7, false, true), hash, tally),
                   Summary(Place("codex", None), None, None, None, at, at))
  {
    var at := 10 * MILLISECOND + 300_000;
    var event := Event("config", 10 * MILLISECOND + 900_000, None, None);
    var x := Setup(Query([event], 7, 7, false, true), hash, tally);
    var s := Summary(Place("codex", None), None, None, None, at, at);
    assert x.query.events[0] == event && Relevant(x, s, event);
    assert Reaches(s, WindowOf(x.query, event, After));
  }
}
