/**
 What a session shows besides its totals (src-tauri/src/claude_parser.rs, src-tauri/src/gemini_parser.rs): the
 model, tier and context fill it is labelled with, when its turns began and ended, who answered them, and the
 tool calls made in them, each read off the log of prompts and replies.
 */
module SessionDetails {
  import opened Prelude
  import opened Buckets
  import opened SessionLedger

  // ----- a session as the replay of a log

  /** The session without its identity, clock and name. */
  function Ledger(s: Session): Session {
    s.(id := "", startedAt := 0, lastEventAt := 0, threadName := None)
  }

  function Replayed(log: seq<Activity>): Session {
    if log == [] then NewSession("", 0, None)
    else Act(Replayed(log[..|log| - 1]), LastPrompt(log[..|log| - 1]), log[|log| - 1])
  }

  lemma ActIsLocal(s: Session, current: Option<Id>, a: Activity)
    ensures Ledger(Act(s, current, a)) == Act(Ledger(s), current, a)
  {
    if a.Reply? {
      var t := Observed(Labelled(s, a), current, a);
      assert Ledger(t) == Observed(Labelled(Ledger(s), a), current, a);
      ChargedIsLocal(t, current, a);
      AnsweredIsLocal(Charged(t, current, a), current, a);
    }
  }

  lemma ChargedIsLocal(s: Session, current: Option<Id>, a: Activity)
    requires a.Reply?
    ensures Ledger(Charged(s, current, a)) == Charged(Ledger(s), current, a)
  {
  }

  lemma AnsweredIsLocal(s: Session, current: Option<Id>, a: Activity)
    requires a.Reply?
    ensures Ledger(Answered(s, current, a)) == Answered(Ledger(s), current, a)
  {
  }

  lemma ReplayedNext(log: seq<Activity>, a: Activity)
    ensures Replayed(log + [a]) == Act(Replayed(log), LastPrompt(log), a)
  {
    assert (log + [a])[..|log|] == log;
  }

  lemma {:induction false} ReplayedExplained(log: seq<Activity>)
    ensures Explains(Replayed(log), LastPrompt(log), log)
  {
    if log == [] {
      NewSessionExplained(Replayed(log), log);
    } else {
      var front, a := log[..|log| - 1], log[|log| - 1];
      assert log == front + [a];
      ReplayedExplained(front);
      StepExplained(Replayed(front), LastPrompt(front), front, a);
      LogGrows(front, a);
    }
  }

  // ----- labels

  /** The newest of each that the replies so far have named. */
  datatype Latest = Latest(model: Option<string>, tier: Option<string>, at: Option<int>)

  const NOTHING := Latest(None, None, None)

  function Newer<T>(old': Option<T>, new': Option<T>): Option<T> {
    match new'
    case Some(_) => new'
    case None => old'
  }

  function Named(l: Latest, a: Activity): Latest
    requires a.Reply?
  {
    Latest(Newer(l.model, a.model), Newer(l.tier, a.tier), Newer(l.at, a.at))
  }

  function LatestIn(log: seq<Activity>): Latest {
    if log == [] then NOTHING
    else
      var before, a := LatestIn(log[..|log| - 1]), log[|log| - 1];
      if a.Reply? then Named(before, a) else before
  }

  /** The same for the replies given while one prompt was the latest. */
  function LatestUnder(log: seq<Activity>, prompt: Id): Latest {
    if log == [] then NOTHING
    else
      var front, a := log[..|log| - 1], log[|log| - 1];
      var before := LatestUnder(front, prompt);
      if a.Reply? && LastPrompt(front) == Some(prompt) then Named(before, a) else before
  }

  /** How much of the context the latest charge filled. */
  function LatestFill(log: seq<Activity>): Option<nat> {
    if log == [] then None
    else
      var a := log[|log| - 1];
      if a.Reply? && a.charge.Some? then Some(a.charge.value.input + a.charge.value.output)
      else LatestFill(log[..|log| - 1])
  }

  lemma LabelsGrow(log: seq<Activity>, a: Activity)
    ensures LatestIn(log + [a]) == if a.Reply? then Named(LatestIn(log), a) else LatestIn(log)
    ensures LatestFill(log + [a]) ==
            if a.Reply? && a.charge.Some? then Some(a.charge.value.input + a.charge.value.output) else LatestFill(log)
  {
    assert (log + [a])[..|log|] == log;
  }

  lemma ActLabels(s: Session, current: Option<Id>, a: Activity)
    ensures var t := Act(s, current, a);
            if a.Prompt? then (t.model, t.tier, t.latestContext) == (s.model, s.tier, s.latestContext)
            else
              && t.model == Newer(s.model, a.model) && t.tier == Newer(s.tier, a.tier)
              && t.latestContext == if a.charge.Some? then Some(a.charge.value.input + a.charge.value.output)
                                    else s.latestContext
  {
  }

  lemma {:induction false} Labels(log: seq<Activity>)
    ensures var s, l := Replayed(log), LatestIn(log);
            s.model == l.model && s.tier == l.tier && s.latestContext == LatestFill(log)
  {
    if log != [] {
      var front, a := log[..|log| - 1], log[|log| - 1];
      assert log == front + [a];
      Labels(front);
      LabelsGrow(front, a);
      ActLabels(Replayed(front), LastPrompt(front), a);
      ReplayedNext(front, a);
    }
  }

  // ----- turns

  /** When the prompts were made. */
  function PromptTimes(log: seq<Activity>): seq<Option<int>> {
    if log == [] then []
    else
      var a := log[|log| - 1];
      PromptTimes(log[..|log| - 1]) + if a.Prompt? then [a.at] else []
  }

  /** Whole milliseconds between two times, rounded toward zero and never negative; none when the clock went back
      by a millisecond or more. */
  predicate Lasts(from: Option<int>, to: Option<int>, ms: Option<nat>) {
    if from.None? || to.None? then ms.None?
    else
      var span := to.value - from.value;
      match ms
      case None => span <= -1_000_000
      case Some(n) => -1_000_000 < span < (n + 1) * 1_000_000 && (n > 0 ==> n * 1_000_000 <= span)
  }

  /** Turn `k` began with its prompt; it shows the newest model, tier and time of the replies under it, and lasts
      until then.  A turn whose id was used before shows nothing. */
  predicate TurnShows(t: Turn, log: seq<Activity>, k: nat) {
    var xs, times := Exchanges(log), PromptTimes(log);
    && k < |xs| && k < |times|
    && var l := if Repeats(xs, k) then NOTHING else LatestUnder(log, xs[k].id);
    && t.startedAt == times[k] && (t.model, t.tier, t.completedAt) == (l.model, l.tier, l.at)
    && Lasts(t.startedAt, t.completedAt, t.durationMs)
  }

  predicate TurnsShow(turns: seq<Turn>, log: seq<Activity>) {
    forall k :: 0 <= k < |turns| ==> TurnShows(turns[k], log, k)
  }

  lemma TimesGrow(log: seq<Activity>, a: Activity)
    ensures PromptTimes(log + [a]) == PromptTimes(log) + if a.Prompt? then [a.at] else []
  {
    assert (log + [a])[..|log|] == log;
  }

  lemma {:induction false} OneTimeEach(log: seq<Activity>)
    ensures |PromptTimes(log)| == |Exchanges(log)|
  {
    if log != [] {
      var front, a := log[..|log| - 1], log[|log| - 1];
      assert log == front + [a];
      OneTimeEach(front);
      TimesGrow(front, a);
      LogGrows(front, a);
    }
  }

  lemma UnderGrows(log: seq<Activity>, a: Activity, prompt: Id)
    ensures LatestUnder(log + [a], prompt) ==
            if a.Reply? && LastPrompt(log) == Some(prompt) then Named(LatestUnder(log, prompt), a)
            else LatestUnder(log, prompt)
  {
    assert (log + [a])[..|log|] == log;
  }

  lemma {:induction false} NothingUnder(log: seq<Activity>, prompt: Id)
    requires Unused(Exchanges(log), prompt)
    ensures LatestUnder(log, prompt) == NOTHING
  {
    if log != [] {
      var front, a := log[..|log| - 1], log[|log| - 1];
      assert log == front + [a];
      LogGrows(front, a);
      forall k | 0 <= k < |Exchanges(front)| ensures Exchanges(front)[k].id != prompt {
        assert Exchanges(log)[k].id == Exchanges(front)[k].id;
      }
      NothingUnder(front, prompt);
      UnderGrows(front, a, prompt);
    }
  }

  /** What a turn shows depends on its own fields, not on its status and tokens. */
  lemma SameShown(t: Turn, t': Turn, log: seq<Activity>, k: nat)
    requires TurnShows(t, log, k) && t' == t.(status := t'.status, tokens := t'.tokens)
    ensures TurnShows(t', log, k)
  {
  }

  /** A new prompt changes nothing that earlier turns show. */
  lemma PromptKeepsShown(t: Turn, log: seq<Activity>, a: Activity, k: nat)
    requires a.Prompt? && TurnShows(t, log, k)
    ensures TurnShows(t, log + [a], k)
  {
    LogGrows(log, a);
    SameRepeats(log, a, k);
    TimesGrow(log, a);
    UnderGrows(log, a, Exchanges(log)[k].id);
  }

  lemma NewTurnShows(log: seq<Activity>, a: Activity, k: nat)
    requires a.Prompt? && k == |Exchanges(log)|
    ensures TurnShows(NewTurn(a.turn, k + 1, a.at), log + [a], k)
  {
    LogGrows(log, a);
    TimesGrow(log, a);
    OneTimeEach(log);
    UnderGrows(log, a, a.turn);
    var xs := Exchanges(log + [a]);
    if !Repeats(xs, k) {
      forall j | 0 <= j < k ensures Exchanges(log)[j].id != a.turn { assert xs[j].id != xs[k].id; }
      NothingUnder(log, a.turn);
    }
  }

  lemma SettleKeeps(turns: seq<Turn>, current: Option<Id>, k: nat)
    requires k < |turns|
    ensures var settled := Settle(turns, current);
            |settled| == |turns| && settled[k] == turns[k].(status := settled[k].status)
  {
  }

  lemma PromptShows(s: Session, log: seq<Activity>, a: Activity)
    requires a.Prompt? && TurnsShow(s.turns, log) && |s.turns| == |Exchanges(log)|
    ensures TurnsShow(Act(s, LastPrompt(log), a).turns, log + [a])
  {
    var turns := Act(s, LastPrompt(log), a).turns;
    forall k | 0 <= k < |turns| ensures TurnShows(turns[k], log + [a], k) {
      if k < |s.turns| {
        PromptKeepsShown(s.turns[k], log, a, k);
        SettleKeeps(s.turns, LastPrompt(log), k);
        SameShown(s.turns[k], turns[k], log + [a], k);
      } else {
        NewTurnShows(log, a, k);
      }
    }
  }

  lemma Elapses(from: int, to: int)
    ensures Lasts(Some(from), Some(to), Elapsed(Some(from), to))
  {
  }

  /** A reply refreshes what the turn under the open prompt shows. */
  lemma ReplyRefreshes(t: Turn, log: seq<Activity>, a: Activity, k: nat)
    requires a.Reply? && TurnShows(t, log, k) && !Repeats(Exchanges(log), k)
    requires LastPrompt(log) == Some(Exchanges(log)[k].id)
    ensures TurnShows(Replied(t, a), log + [a], k)
  {
    LogGrows(log, a);
    SameRepeats(log, a, k);
    TimesGrow(log, a);
    UnderGrows(log, a, Exchanges(log)[k].id);
    if a.at.Some? && t.startedAt.Some? { Elapses(t.startedAt.value, a.at.value); }
  }

  /** ... and no other. */
  lemma ReplyKeepsShown(t: Turn, log: seq<Activity>, a: Activity, k: nat)
    requires a.Reply? && TurnShows(t, log, k)
    requires Repeats(Exchanges(log), k) || LastPrompt(log) != Some(Exchanges(log)[k].id)
    ensures TurnShows(t, log + [a], k)
  {
    LogGrows(log, a);
    SameRepeats(log, a, k);
    TimesGrow(log, a);
    UnderGrows(log, a, Exchanges(log)[k].id);
  }

  lemma ReplyChanges(s: Session, current: Option<Id>, a: Activity, k: nat)
    requires a.Reply? && k < |s.turns|
    ensures var turns := Act(s, current, a).turns;
            var f := if current.None? then |s.turns| else FindTurn(s.turns, current.value);
            var t := if k == f then Replied(s.turns[k], a) else s.turns[k];
            |turns| == |s.turns| && turns[k] == t.(tokens := turns[k].tokens)
  {
    if current.Some? { ChargeKeepsOrder(s.turns, current, a); }
  }

  lemma ReplyShowsAt(s: Session, log: seq<Activity>, a: Activity, k: nat, turn: Turn)
    requires a.Reply? && k < |s.turns| && TurnShows(s.turns[k], log, k) && TurnsExplained(s.turns, log)
    requires LastPrompt(log).Some?
    requires var t := if k == FindTurn(s.turns, LastPrompt(log).value) then Replied(s.turns[k], a) else s.turns[k];
             turn == t.(tokens := turn.tokens)
    ensures TurnShows(turn, log + [a], k)
  {
    OpenTurn(s.turns, log);
    var xs, f := Exchanges(log), FindTurn(s.turns, LastPrompt(log).value);
    if k == f {
      ReplyRefreshes(s.turns[k], log, a, k);
      SameShown(Replied(s.turns[k], a), turn, log + [a], k);
    } else {
      if !Repeats(xs, k) { FirstWins(xs, k, f); }
      ReplyKeepsShown(s.turns[k], log, a, k);
      SameShown(s.turns[k], turn, log + [a], k);
    }
  }

  lemma ReplyShows(s: Session, log: seq<Activity>, a: Activity)
    requires a.Reply? && TurnsShow(s.turns, log) && TurnsExplained(s.turns, log)
    ensures TurnsShow(Act(s, LastPrompt(log), a).turns, log + [a])
  {
    var turns := Act(s, LastPrompt(log), a).turns;
    if s.turns != [] {
      OpenTurn(s.turns, log);
      forall k | 0 <= k < |turns| ensures TurnShows(turns[k], log + [a], k) {
        ReplyChanges(s, LastPrompt(log), a, k);
        ReplyShowsAt(s, log, a, k, turns[k]);
      }
    } else {
      assert Exchanges(log) == [];
    }
  }

  lemma {:induction false} TurnsAreShown(log: seq<Activity>)
    ensures TurnsShow(Replayed(log).turns, log)
  {
    if log != [] {
      var front, a := log[..|log| - 1], log[|log| - 1];
      assert log == front + [a];
      TurnsAreShown(front);
      ReplayedExplained(front);
      if a.Prompt? { PromptShows(Replayed(front), front, a); } else { ReplyShows(Replayed(front), front, a); }
    }
  }

  // ----- tool calls

  /** The call is one of reply `j`, made at its time, by its model, under the prompt open then. */
  predicate CalledAt(log: seq<Activity>, j: nat, call: ToolCall) {
    && j < |log| && log[j].Reply? && log[j].at == Some(call.at) && call.id in log[j].calls
    && call.model == log[j].model && call.turn == LastPrompt(log[..j])
  }

  ghost predicate Called(log: seq<Activity>, call: ToolCall) {
    exists j: nat :: CalledAt(log, j, call)
  }

  lemma CalledGrows(log: seq<Activity>, call: ToolCall)
    requires log != []
    ensures Called(log, call) <==> Called(log[..|log| - 1], call) || CalledAt(log, |log| - 1, call)
  {
    var n := |log| - 1;
    forall j: nat | j < n ensures CalledAt(log, j, call) <==> CalledAt(log[..n], j, call) {
      assert log[..n][..j] == log[..j];
    }
  }

  lemma {:induction false} CallsAreMade(log: seq<Activity>, call: ToolCall)
    ensures call in CallsOf(log) <==> Called(log, call)
  {
    if log != [] {
      CallsAreMade(log[..|log| - 1], call);
      CalledGrows(log, call);
      LastCalls(log, call);
    }
  }

  lemma LastCalls(log: seq<Activity>, call: ToolCall)
    requires log != []
    ensures call in CallsIn(log[|log| - 1], LastPrompt(log[..|log| - 1])) <==> CalledAt(log, |log| - 1, call)
  {
    var a, calls := log[|log| - 1], CallsIn(log[|log| - 1], LastPrompt(log[..|log| - 1]));
    if CalledAt(log, |log| - 1, call) {
      var i :| 0 <= i < |a.calls| && a.calls[i] == call.id;
      assert calls[i] == call;
    }
  }

  // ----- all of it

  /** Everything a session shows is what its log calls for. */
  ghost predicate Shows(s: Session, log: seq<Activity>) {
    && s.model == LatestIn(log).model && s.tier == LatestIn(log).tier && s.latestContext == LatestFill(log)
    && |s.turns| == |Exchanges(log)| && TurnsShow(s.turns, log)
    && forall call :: call in s.tools <==> Called(log, call)
  }

  lemma ReplayShows(s: Session, log: seq<Activity>)
    requires Ledger(s) == Replayed(log)
    ensures Shows(s, log)
  {
    Labels(log);
    TurnsAreShown(log);
    ReplayedExplained(log);
    forall call ensures call in s.tools <==> Called(log, call) {
      CallsAreMade(log, call);
    }
  }
}
