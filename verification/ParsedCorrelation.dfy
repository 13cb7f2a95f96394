/**
 Correlating the sessions that the Claude Code parser builds: what the summary-level
 filter needs of a session is a property of its transcript.
 */
module ParsedCorrelation {
  import opened Prelude
  import L = SessionLedger
  import P = ClaudeParser
  import C = Correlation
  import F = CorrelationFilter
  import O = CorrelationOrder
  import S = Scopes

  /** A transcript, and what else its session is known by. */
  datatype Transcript = Transcript(
    source: P.Source, records: seq<P.Record>,
    place: S.Place, parentThread: Option<string>, agentPath: Option<string>, kind: Option<string>)

  function ToolOf(t: L.ToolCall): C.Tool {
    C.Tool(t.at, t.id)
  }

  function TurnOf(t: L.Turn): C.Turn {
    C.Turn(t.startedAt, t.completedAt)
  }

  function SessionOf(t: Transcript): C.Session
    requires P.Parsed(t.source, t.records).session.Some?
  {
    var s := P.Parsed(t.source, t.records).session.value;
    C.Session(
      C.Summary(t.place, t.parentThread, t.agentPath, t.kind, s.startedAt, s.lastEventAt),
      seq(|s.turns|, i requires 0 <= i < |s.turns| => TurnOf(s.turns[i])),
      s.history,
      seq(|s.tools|, i requires 0 <= i < |s.tools| => ToolOf(s.tools[i])))
  }

  /** The record that opened the session has the earliest time of all that were recorded. */
  ghost predicate StartsFirst(t: Transcript)
    requires P.Parsed(t.source, t.records).session.Some?
  {
    L.NoneBefore(P.Activities(t.source, t.records), P.Parsed(t.source, t.records).session.value.startedAt)
  }

  lemma SpanExactlyWhenStartsFirst(t: Transcript)
    requires P.Parsed(t.source, t.records).session.Some?
    ensures F.WithinSpan(SessionOf(t)) <==> StartsFirst(t)
  {
    var s, c := P.Parsed(t.source, t.records).session.value, SessionOf(t);
    P.SpansItsEvents(t.source, t.records);
    assert forall i :: 0 <= i < |s.history| ==> s.history[i] in c.history;
    assert forall i :: 0 <= i < |s.tools| ==> c.tools[i].at == s.tools[i].at && c.tools[i] in c.tools;
  }

  function SessionsOf(ts: seq<Transcript>): seq<C.Session>
    requires forall t :: t in ts ==> P.Parsed(t.source, t.records).session.Some?
  {
    if ts == [] then [] else SessionsOf(ts[..|ts| - 1]) + [SessionOf(ts[|ts| - 1])]
  }

  lemma {:induction false} AllWithinSpan(x: C.Setup, ts: seq<Transcript>)
    requires forall t :: t in ts ==>
               P.Parsed(t.source, t.records).session.Some? && StartsFirst(t) && !F.Missed(x, SessionOf(t).summary)
    ensures forall s :: s in SessionsOf(ts) ==> F.WithinSpan(s) && !F.Missed(x, s.summary)
  {
    if ts != [] {
      var last := ts[|ts| - 1];
      assert last in ts;
      AllWithinSpan(x, ts[..|ts| - 1]);
      SpanExactlyWhenStartsFirst(last);
    }
  }

  /** Reports on the candidates among parsed transcripts are reports on all of them. */
  lemma FilterIgnoresNothingParsed(x: C.Setup, ts: seq<Transcript>, now: int, i: nat, r: O.Report)
    requires i < |x.query.events| && x.tally([]).calls == 0
    requires forall t :: t in ts ==>
               P.Parsed(t.source, t.records).session.Some? && StartsFirst(t) && !F.Missed(x, SessionOf(t).summary)
    ensures O.Reports(x, F.Candidates(x, SessionsOf(ts)), now, x.query.events[i], r)
            <==> O.Reports(x, SessionsOf(ts), now, x.query.events[i], r)
  {
    AllWithinSpan(x, ts);
    O.ReportIgnoresFilter(x, SessionsOf(ts), now, i, r);
  }
}
