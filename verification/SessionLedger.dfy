/**
 The session that both transcript parsers build up (src-tauri/src/claude_parser.rs,
 src-tauri/src/gemini_parser.rs, src-tauri/src/model.rs): turns, token accumulators and
 token history, as changed by one prompt or one reply, and what they must add up to over
 a whole log of prompts and replies.
 Time is an integer number of nanoseconds.
 */
module SessionLedger {
  import opened Prelude
  import opened Buckets

  type Id = string

  datatype TurnStatus = InProgress | Completed | Aborted

  datatype Turn = Turn(
    id: Id, index: nat, status: TurnStatus, tokens: Tokens, model: Option<string>, tier: Option<string>,
    startedAt: Option<int>, completedAt: Option<int>, durationMs: Option<nat>)

  datatype ToolCall = ToolCall(id: Id, turn: Option<Id>, model: Option<string>, at: int)

  datatype Session = Session(
    id: string, startedAt: int, lastEventAt: int, threadName: Option<string>,
    model: Option<string>, tier: Option<string>, latestContext: Option<nat>, totalTurns: nat,
    tokensTotal: Tokens, tokensByModel: map<string, Tokens>,
    history: seq<Point>, turns: seq<Turn>, tools: seq<ToolCall>)

  function NewSession(id: string, startedAt: int, threadName: Option<string>): Session {
    Session(id, startedAt, startedAt, threadName, None, None, None, 0, ZERO, map[], [], [], [])
  }

  /** What one transcript record does to a session: `charge` is the usage it is billed for,
      `calls` the tool calls it is the first to mention. */
  datatype Activity =
    | Prompt(turn: Id, at: Option<int>)
    | Reply(message: Id, model: Option<string>, tier: Option<string>, at: Option<int>, charge: Option<Tokens>,
            calls: seq<Id>)

  // ----- one step

  /** The first turn with an id, or the number of turns. */
  function FindTurn(turns: seq<Turn>, id: Id): (k: nat)
    ensures k <= |turns|
    ensures k < |turns| ==> turns[k].id == id
    ensures forall j :: 0 <= j < k ==> turns[j].id != id
  {
    if turns == [] || turns[0].id == id then 0 else 1 + FindTurn(turns[1..], id)
  }

  /** A new prompt closes the turn that is still open. */
  function Settle(turns: seq<Turn>, current: Option<Id>): seq<Turn> {
    if current.None? then turns
    else
      var k := FindTurn(turns, current.value);
      if k < |turns| && turns[k].status.InProgress? then turns[k := turns[k].(status := Aborted)] else turns
  }

  function NewTurn(id: Id, index: nat, at: Option<int>): Turn {
    Turn(id, index, InProgress, ZERO, None, None, at, None, None)
  }

  function Prompted(s: Session, current: Option<Id>, a: Activity): Session
    requires a.Prompt?
  {
    s.(turns := Settle(s.turns, current) + [NewTurn(a.turn, |s.turns| + 1, a.at)])
  }

  function Get(totals: map<string, Tokens>, model: string): Option<Tokens> {
    if model in totals then Some(totals[model]) else None
  }

  /** Tool calls are noted only on a record with a time, under the turn that is open. */
  function CallsIn(a: Activity, current: Option<Id>): seq<ToolCall> {
    if a.Prompt? || a.at.None? then []
    else seq(|a.calls|, i requires 0 <= i < |a.calls| => ToolCall(a.calls[i], current, a.model, a.at.value))
  }

  function Observed(s: Session, current: Option<Id>, a: Activity): Session
    requires a.Reply?
  {
    s.(tools := s.tools + CallsIn(a, current))
  }

  function ByModel(totals: map<string, Tokens>, model: Option<string>, delta: Tokens): map<string, Tokens> {
    if model.None? then totals
    else totals[model.value := Add(if model.value in totals then totals[model.value] else ZERO, delta)]
  }

  function ChargeTurn(turns: seq<Turn>, current: Option<Id>, delta: Tokens): seq<Turn> {
    if current.None? then turns
    else
      var k := FindTurn(turns, current.value);
      if k < |turns| then turns[k := turns[k].(tokens := Add(turns[k].tokens, delta))] else turns
  }

  function Charged(s: Session, current: Option<Id>, a: Activity): Session
    requires a.Reply?
  {
    if a.charge.None? then s
    else
      var delta := a.charge.value;
      var total := Add(s.tokensTotal, delta);
      s.(tokensTotal := total,
         latestContext := Some(delta.input + delta.output),
         tokensByModel := ByModel(s.tokensByModel, a.model, delta),
         history := if a.at.None? then s.history
                    else s.history + [Point(a.at.value, a.model, a.tier, delta.input, total.total, delta)],
         turns := ChargeTurn(s.turns, current, delta))
  }

  /** Whole milliseconds, rounded toward zero; a negative duration is dropped. */
  function Elapsed(from: Option<int>, to: int): Option<nat> {
    if from.None? || to - from.value <= -MILLISECOND then None
    else if to < from.value then Some(0)
    else Some((to - from.value) / MILLISECOND)
  }

  function Replied(t: Turn, a: Activity): Turn
    requires a.Reply?
  {
    t.(model := if a.model.Some? then a.model else t.model,
       tier := if a.tier.Some? then a.tier else t.tier,
       status := if t.status.InProgress? then Completed else t.status,
       completedAt := if a.at.Some? then a.at else t.completedAt,
       durationMs := if a.at.Some? && t.startedAt.Some? then Elapsed(t.startedAt, a.at.value) else t.durationMs)
  }

  function Answered(s: Session, current: Option<Id>, a: Activity): Session
    requires a.Reply?
  {
    if current.None? then s
    else
      var k := FindTurn(s.turns, current.value);
      if k == |s.turns| then s
      else s.(turns := s.turns[k := Replied(s.turns[k], a)],
              totalTurns := s.totalTurns + if s.turns[k].status.InProgress? then 1 else 0)
  }

  function Labelled(s: Session, a: Activity): Session
    requires a.Reply?
  {
    s.(model := if a.model.Some? then a.model else s.model, tier := if a.tier.Some? then a.tier else s.tier)
  }

  /** The effect of one record on the session. */
  function Act(s: Session, current: Option<Id>, a: Activity): Session {
    match a
    case Prompt(_, _) => Prompted(s, current, a)
    case Reply(_, _, _, _, _, _) => Answered(Charged(Observed(Labelled(s, a), current, a), current, a), current, a)
  }

  function Current(current: Option<Id>, a: Activity): Option<Id> {
    if a.Prompt? then Some(a.turn) else current
  }

  /** The ids of a list that are new, each once, in order. */
  function FirstSeen(seen: set<Id>, ids: seq<Id>): (r: seq<Id>)
    ensures forall i, j :: 0 <= i < j < |r| ==> r[i] != r[j]
    ensures forall id :: id in r <==> id in ids && id != "" && id !in seen
  {
    if ids == [] then []
    else
      var r, last := FirstSeen(seen, ids[..|ids| - 1]), ids[|ids| - 1];
      if last == "" || last in seen || last in r then r else r + [last]
  }

  function ElementsOf(ids: seq<Id>): set<Id> {
    set id | id in ids
  }

  // ----- what a log adds up to, without looking at any session

  function ChargeOf(a: Activity): Tokens {
    if a.Reply? && a.charge.Some? then a.charge.value else ZERO
  }

  predicate Charges(a: Activity) {
    a.Reply? && a.charge.Some?
  }

  predicate Bills(a: Activity, id: Id, t: Tokens) {
    a.Reply? && a.message == id && a.charge == Some(t)
  }

  lemma SplitBills(log: seq<Activity>, more: seq<Activity>, id: Id, t: Tokens)
    requires |more| <= 1
    ensures (exists i :: 0 <= i < |log + more| && Bills((log + more)[i], id, t)) <==>
            (exists i :: 0 <= i < |log| && Bills(log[i], id, t)) || (more != [] && Bills(more[0], id, t))
  {
    assert forall i :: 0 <= i < |log| ==> (log + more)[i] == log[i];
    assert more != [] ==> (log + more)[|log|] == more[0];
  }

  function SumCharges(log: seq<Activity>): Tokens {
    if log == [] then ZERO else Add(SumCharges(log[..|log| - 1]), ChargeOf(log[|log| - 1]))
  }

  function ChargesOf(log: seq<Activity>, model: string): Option<Tokens> {
    if log == [] then None
    else
      var a := log[|log| - 1];
      Plus(ChargesOf(log[..|log| - 1], model),
           if a.Reply? && a.model == Some(model) then a.charge else None)
  }

  /** One point per charge with a time; its running total counts every charge so far. */
  function Points(log: seq<Activity>): seq<Point> {
    if log == [] then []
    else
      var a := log[|log| - 1];
      Points(log[..|log| - 1]) + PointIn(a, SumCharges(log).total)
  }

  function PointIn(a: Activity, runningTotal: nat): seq<Point> {
    if a.Reply? && a.charge.Some? && a.at.Some? then
      [Point(a.at.value, a.model, a.tier, a.charge.value.input, runningTotal, a.charge.value)]
    else []
  }

  /** A prompt, and whether a reply followed before the next prompt. */
  datatype Exchange = Exchange(id: Id, answered: bool)

  function Exchanges(log: seq<Activity>): seq<Exchange> {
    if log == [] then []
    else
      var a, xs := log[|log| - 1], Exchanges(log[..|log| - 1]);
      match a
      case Prompt(id, _) => xs + [Exchange(id, false)]
      case Reply(_, _, _, _, _, _) => if xs == [] then xs else xs[|xs| - 1 := xs[|xs| - 1].(answered := true)]
  }

  function LastPrompt(log: seq<Activity>): Option<Id> {
    var xs := Exchanges(log);
    if xs == [] then None else Some(xs[|xs| - 1].id)
  }

  /** The charges made while a given prompt was the latest one. */
  function ChargesUnder(log: seq<Activity>, prompt: Option<Id>): Tokens {
    if log == [] then ZERO
    else
      var before := log[..|log| - 1];
      Add(ChargesUnder(before, prompt), if LastPrompt(before) == prompt then ChargeOf(log[|log| - 1]) else ZERO)
  }

  function CallsOf(log: seq<Activity>): seq<ToolCall> {
    if log == [] then []
    else
      var before := log[..|log| - 1];
      CallsOf(before) + CallsIn(log[|log| - 1], LastPrompt(before))
  }

  predicate Repeats(xs: seq<Exchange>, k: nat)
    requires k < |xs|
  {
    exists j :: 0 <= j < k && xs[j].id == xs[k].id
  }

  /** What has become of a prompt. One whose id was used before is never settled. */
  function StatusOf(xs: seq<Exchange>, k: nat): TurnStatus
    requires k < |xs|
  {
    if Repeats(xs, k) then InProgress
    else if xs[k].answered then Completed
    else if k == |xs| - 1 then InProgress
    else Aborted
  }

  function CompletedCount(turns: seq<Turn>): nat {
    if turns == [] then 0
    else CompletedCount(turns[..|turns| - 1]) + if turns[|turns| - 1].status.Completed? then 1 else 0
  }

  function SumTurns(turns: seq<Turn>): Tokens {
    if turns == [] then ZERO else Add(SumTurns(turns[..|turns| - 1]), turns[|turns| - 1].tokens)
  }

  // ----- a session explained by a log

  predicate TurnsExplained(turns: seq<Turn>, log: seq<Activity>) {
    var xs := Exchanges(log);
    && |turns| == |xs|
    && forall k :: 0 <= k < |turns| ==> TurnExplained(turns[k], log, k)
  }

  predicate TurnExplained(t: Turn, log: seq<Activity>, k: nat) {
    var xs := Exchanges(log);
    && k < |xs|
    && t.id == xs[k].id && t.index == k + 1 && t.status == StatusOf(xs, k)
    && t.tokens == if Repeats(xs, k) then ZERO else ChargesUnder(log, Some(t.id))
  }

  /** Every charge is either made under some turn or before the first prompt. */
  predicate Conserved(turns: seq<Turn>, log: seq<Activity>) {
    Add(SumTurns(turns), ChargesUnder(log, None)) == SumCharges(log)
  }

  /** Every accumulator of the session is the sum the log calls for. */
  ghost predicate Explains(s: Session, current: Option<Id>, log: seq<Activity>) {
    && current == LastPrompt(log)
    && s.tokensTotal == SumCharges(log)
    && s.history == Points(log)
    && s.tools == CallsOf(log)
    && (forall m :: Get(s.tokensByModel, m) == ChargesOf(log, m))
    && TurnsExplained(s.turns, log)
    && s.totalTurns == CompletedCount(s.turns)
    && Conserved(s.turns, log)
  }

  // ----- every step keeps the session explained

  lemma {:induction false} CountUpdated(turns: seq<Turn>, k: nat, t: Turn)
    requires k < |turns|
    ensures CompletedCount(turns[k := t]) + (if turns[k].status.Completed? then 1 else 0)
         == CompletedCount(turns) + if t.status.Completed? then 1 else 0
  {
    var n := |turns| - 1;
    if k < n {
      assert turns[k := t][..n] == turns[..n][k := t];
      CountUpdated(turns[..n], k, t);
    } else {
      assert turns[k := t][..n] == turns[..n];
    }
  }

  lemma {:induction false} SumUpdated(turns: seq<Turn>, k: nat, t: Turn, delta: Tokens)
    requires k < |turns| && t.tokens == Add(turns[k].tokens, delta)
    ensures SumTurns(turns[k := t]) == Add(SumTurns(turns), delta)
  {
    var n := |turns| - 1;
    if k < n {
      assert turns[k := t][..n] == turns[..n][k := t];
      SumUpdated(turns[..n], k, t, delta);
    } else {
      assert turns[k := t][..n] == turns[..n];
    }
  }

  lemma SameTokens(turns: seq<Turn>, k: nat, t: Turn)
    requires k < |turns| && t.tokens == turns[k].tokens
    ensures SumTurns(turns[k := t]) == SumTurns(turns)
  {
    SumUpdated(turns, k, t, ZERO);
  }

  /** How the exchanges and the charges under a prompt grow by one record. */
  lemma LogGrows(log: seq<Activity>, a: Activity)
    ensures var xs, ys := Exchanges(log), Exchanges(log + [a]);
            && |ys| == |xs| + (if a.Prompt? then 1 else 0)
            && (forall k :: 0 <= k < |xs| ==> ys[k].id == xs[k].id)
            && (forall k :: 0 <= k < |xs| ==> ys[k].answered == (xs[k].answered || (a.Reply? && k == |xs| - 1)))
            && (a.Prompt? ==> ys[|xs|] == Exchange(a.turn, false))
  {
    assert (log + [a])[..|log|] == log;
  }

  lemma ChargesGrow(log: seq<Activity>, a: Activity, p: Option<Id>)
    ensures ChargesUnder(log + [a], p) ==
            if LastPrompt(log) == p then Add(ChargesUnder(log, p), ChargeOf(a)) else ChargesUnder(log, p)
    ensures a.Prompt? ==> ChargesUnder(log + [a], p) == ChargesUnder(log, p)
  {
    assert (log + [a])[..|log|] == log;
    AddZero(ChargesUnder(log, p));
  }

  lemma SameRepeats(log: seq<Activity>, a: Activity, k: nat)
    requires k < |Exchanges(log)|
    ensures k < |Exchanges(log + [a])| && (Repeats(Exchanges(log + [a]), k) <==> Repeats(Exchanges(log), k))
  {
    LogGrows(log, a);
    var xs, ys := Exchanges(log), Exchanges(log + [a]);
    assert forall j :: 0 <= j <= k ==> ys[j].id == xs[j].id;
  }

  predicate Unused(xs: seq<Exchange>, id: Id) {
    forall k :: 0 <= k < |xs| ==> xs[k].id != id
  }

  /** Nothing was charged under a prompt that was never made. */
  lemma {:induction false} UnknownPrompt(log: seq<Activity>, id: Id)
    requires Unused(Exchanges(log), id)
    ensures ChargesUnder(log, Some(id)) == ZERO
  {
    if log != [] {
      var before, a := log[..|log| - 1], log[|log| - 1];
      assert log == before + [a];
      LogGrows(before, a);
      var xs, ys := Exchanges(log), Exchanges(before);
      forall k | 0 <= k < |ys| ensures ys[k].id != id {
        assert ys[k].id == xs[k].id;
      }
      UnknownPrompt(before, id);
      ChargesGrow(before, a, Some(id));
    }
  }

  /** The prompt that is open is found first exactly when its id is new. */
  lemma OpenTurn(turns: seq<Turn>, log: seq<Activity>)
    requires TurnsExplained(turns, log) && turns != []
    ensures var xs := Exchanges(log); var f := FindTurn(turns, xs[|xs| - 1].id);
            && f < |turns|
            && (f == |xs| - 1 <==> !Repeats(xs, |xs| - 1))
            && !Repeats(xs, f)
            && LastPrompt(log) == Some(xs[f].id)
  {
    var xs := Exchanges(log);
    var n := |xs| - 1;
    assert TurnExplained(turns[n], log, n);
    var f := FindTurn(turns, xs[n].id);
    assert TurnExplained(turns[f], log, f);
    forall j | 0 <= j < f ensures xs[j].id != xs[n].id {
      assert TurnExplained(turns[j], log, j);
    }
    assert f < n ==> xs[f].id == xs[n].id;
  }

  lemma SettledTurn(turns: seq<Turn>, log: seq<Activity>, a: Activity, k: nat)
    requires a.Prompt? && TurnsExplained(turns, log) && k < |turns|
    ensures var settled := Settle(turns, LastPrompt(log)); k < |settled| && TurnExplained(settled[k], log + [a], k)
  {
    LogGrows(log, a);
    SameRepeats(log, a, k);
    OpenTurn(turns, log);
    assert TurnExplained(turns[k], log, k);
    assert LastPrompt(log) == Some(Exchanges(log)[|turns| - 1].id);
    ChargesGrow(log, a, Some(turns[k].id));
  }

  lemma NothingUnderNewPrompt(log: seq<Activity>, a: Activity, xs: seq<Exchange>)
    requires a.Prompt? && xs == Exchanges(log + [a]) && xs != [] && !Repeats(xs, |xs| - 1)
    ensures ChargesUnder(log + [a], Some(xs[|xs| - 1].id)) == ZERO
  {
    LogGrows(log, a);
    var n := |xs| - 1;
    forall j | 0 <= j < n ensures Exchanges(log)[j].id != xs[n].id { assert xs[j].id != xs[n].id; }
    UnknownPrompt(log, xs[n].id);
    ChargesGrow(log, a, Some(xs[n].id));
  }

  lemma OpenedTurn(log: seq<Activity>, a: Activity, k: nat)
    requires a.Prompt? && k == |Exchanges(log)|
    ensures TurnExplained(NewTurn(a.turn, k + 1, a.at), log + [a], k)
  {
    LogGrows(log, a);
    var xs := Exchanges(log + [a]);
    assert xs[k] == Exchange(a.turn, false);
    var t := NewTurn(a.turn, k + 1, a.at);
    assert t.status == StatusOf(xs, k);
    if !Repeats(xs, k) {
      NothingUnderNewPrompt(log, a, xs);
      assert t.tokens == ChargesUnder(log + [a], Some(t.id));
    }
  }

  lemma PromptTurns(s: Session, current: Option<Id>, log: seq<Activity>, a: Activity)
    requires a.Prompt? && current == LastPrompt(log) && TurnsExplained(s.turns, log)
    ensures TurnsExplained(Prompted(s, current, a).turns, log + [a])
  {
    var turns := Prompted(s, current, a).turns;
    LogGrows(log, a);
    forall k | 0 <= k < |turns| ensures TurnExplained(turns[k], log + [a], k) {
      if k < |s.turns| { SettledTurn(s.turns, log, a, k); } else { OpenedTurn(log, a, k); }
    }
  }

  lemma ReplyTurn(turns: seq<Turn>, log: seq<Activity>, a: Activity, k: nat)
    requires a.Reply? && TurnsExplained(turns, log) && k < |turns|
    ensures LastPrompt(log).Some?
    ensures var charged := turns[k].(tokens := Add(turns[k].tokens, ChargeOf(a)));
            var turn := if k == FindTurn(turns, LastPrompt(log).value) then Replied(charged, a) else turns[k];
            TurnExplained(turn, log + [a], k)
  {
    var xs, ys := Exchanges(log), Exchanges(log + [a]);
    LogGrows(log, a);
    SameRepeats(log, a, k);
    OpenTurn(turns, log);
    assert TurnExplained(turns[k], log, k);
    ChargesGrow(log, a, Some(turns[k].id));
    var f := FindTurn(turns, LastPrompt(log).value);
    if k != f && !Repeats(xs, k) {
      FirstWins(xs, k, f);
    }
  }

  lemma ReplyTurns(s: Session, current: Option<Id>, log: seq<Activity>, a: Activity)
    requires a.Reply? && current == LastPrompt(log) && TurnsExplained(s.turns, log)
    ensures TurnsExplained(Act(s, current, a).turns, log + [a])
  {
    var turns := Act(s, current, a).turns;
    LogGrows(log, a);
    if s.turns != [] {
      ChargeKeepsOrder(s.turns, current, a);
      forall k | 0 <= k < |turns| ensures TurnExplained(turns[k], log + [a], k) {
        ReplyTurn(s.turns, log, a, k);
      }
    }
  }

  /** Two prompts that repeat no earlier one have different ids. */
  lemma FirstWins(xs: seq<Exchange>, k: nat, f: nat)
    requires k < |xs| && f < |xs| && k != f && !Repeats(xs, k) && !Repeats(xs, f)
    ensures xs[k].id != xs[f].id
  {
  }

  lemma ChargeKeepsOrder(turns: seq<Turn>, current: Option<Id>, a: Activity)
    requires a.Reply? && current.Some?
    ensures var f := FindTurn(turns, current.value);
            var charged := if a.charge.Some? then ChargeTurn(turns, current, a.charge.value) else turns;
            && FindTurn(charged, current.value) == f && |charged| == |turns|
            && (f < |turns| ==> charged[f] == turns[f].(tokens := Add(turns[f].tokens, ChargeOf(a))))
            && forall k :: 0 <= k < |turns| && k != f ==> charged[k] == turns[k]
  {
    var f := FindTurn(turns, current.value);
    var charged := if a.charge.Some? then ChargeTurn(turns, current, a.charge.value) else turns;
    assert |charged| == |turns| && forall k :: 0 <= k < |turns| ==> charged[k].id == turns[k].id;
    var g := FindTurn(charged, current.value);
    assert g == f by {
      assert f < |turns| ==> charged[f].id == current.value;
      assert g < |turns| ==> turns[g].id == current.value;
    }
    if f < |turns| && a.charge.None? { AddZero(turns[f].tokens); }
  }

  lemma PromptCounts(turns: seq<Turn>, current: Option<Id>, t: Turn)
    requires t.tokens == ZERO && t.status.InProgress?
    ensures var after := Settle(turns, current) + [t];
            CompletedCount(after) == CompletedCount(turns) && SumTurns(after) == SumTurns(turns)
  {
    var settled := Settle(turns, current);
    assert (settled + [t])[..|settled|] == settled;
    AddZero(SumTurns(settled));
    if current.Some? {
      var f := FindTurn(turns, current.value);
      if f < |turns| {
        CountUpdated(turns, f, settled[f]);
        SameTokens(turns, f, settled[f]);
        assert settled == turns[f := settled[f]];
      }
    }
  }

  /** The turns after a reply: only the turn found first is changed. */
  lemma TurnsOfReply(s: Session, current: Option<Id>, a: Activity)
    requires a.Reply? && current.Some? && FindTurn(s.turns, current.value) < |s.turns|
    ensures var f, t := FindTurn(s.turns, current.value), Act(s, current, a);
            var charged := s.turns[f].(tokens := Add(s.turns[f].tokens, ChargeOf(a)));
            && t.turns == s.turns[f := Replied(charged, a)]
            && t.totalTurns == s.totalTurns + if s.turns[f].status.InProgress? then 1 else 0
  {
    ChargeKeepsOrder(s.turns, current, a);
  }

  lemma ReplyCounts(s: Session, current: Option<Id>, a: Activity)
    requires a.Reply? && (current.Some? ==> FindTurn(s.turns, current.value) < |s.turns|)
    ensures var t := Act(s, current, a);
            && t.totalTurns - CompletedCount(t.turns) == s.totalTurns - CompletedCount(s.turns)
            && SumTurns(t.turns) == if current.Some? then Add(SumTurns(s.turns), ChargeOf(a)) else SumTurns(s.turns)
  {
    if current.Some? {
      var f := FindTurn(s.turns, current.value);
      var after := Replied(s.turns[f].(tokens := Add(s.turns[f].tokens, ChargeOf(a))), a);
      TurnsOfReply(s, current, a);
      CountUpdated(s.turns, f, after);
      SumUpdated(s.turns, f, after, ChargeOf(a));
    }
  }

  lemma AddMoves(a: Tokens, b: Tokens, c: Tokens)
    ensures Add(Add(a, c), b) == Add(Add(a, b), c) && Add(a, Add(b, c)) == Add(Add(a, b), c)
  {
  }

  lemma ChargesSumGrow(log: seq<Activity>, a: Activity)
    ensures SumCharges(log + [a]) == Add(SumCharges(log), ChargeOf(a))
  {
    assert (log + [a])[..|log|] == log;
  }

  lemma AddNothing(t: Tokens, c: Tokens)
    requires c == ZERO
    ensures Add(t, c) == t
  {
  }

  lemma PromptIsFree(log: seq<Activity>, a: Activity)
    requires a.Prompt?
    ensures SumCharges(log + [a]) == SumCharges(log)
  {
    assert (log + [a])[..|log|] == log;
    assert ChargeOf(a) == ZERO;
    AddNothing(SumCharges(log), ChargeOf(a));
  }

  lemma PromptConserves(s: Session, current: Option<Id>, log: seq<Activity>, a: Activity)
    requires a.Prompt? && s.totalTurns == CompletedCount(s.turns) && Conserved(s.turns, log)
    ensures var t := Act(s, current, a); t.totalTurns == CompletedCount(t.turns) && Conserved(t.turns, log + [a])
  {
    ChargesGrow(log, a, None);
    PromptIsFree(log, a);
    PromptCounts(s.turns, current, NewTurn(a.turn, |s.turns| + 1, a.at));
    SameSums(s.turns, log, Act(s, current, a).turns, log + [a]);
  }

  lemma SameSums(turns: seq<Turn>, log: seq<Activity>, turns': seq<Turn>, log': seq<Activity>)
    requires Conserved(turns, log) && SumTurns(turns') == SumTurns(turns)
    requires ChargesUnder(log', None) == ChargesUnder(log, None) && SumCharges(log') == SumCharges(log)
    ensures Conserved(turns', log')
  {
  }

  lemma ReplyConserves(s: Session, current: Option<Id>, log: seq<Activity>, a: Activity)
    requires a.Reply? && current == LastPrompt(log) && TurnsExplained(s.turns, log)
    requires s.totalTurns == CompletedCount(s.turns) && Conserved(s.turns, log)
    ensures var t := Act(s, current, a); t.totalTurns == CompletedCount(t.turns) && Conserved(t.turns, log + [a])
  {
    if s.turns != [] { OpenTurn(s.turns, log); }
    assert current.Some? <==> s.turns != [];
    ReplyCounts(s, current, a);
    ChargesGrow(log, a, None);
    ChargesSumGrow(log, a);
    AddMoves(SumTurns(s.turns), ChargesUnder(log, None), ChargeOf(a));
  }

  lemma ModelAfter(totals: map<string, Tokens>, log: seq<Activity>, a: Activity, m: string)
    requires Get(totals, m) == ChargesOf(log, m)
    ensures Get(if a.Reply? && a.charge.Some? then ByModel(totals, a.model, a.charge.value) else totals, m) ==
            ChargesOf(log + [a], m)
  {
    assert (log + [a])[..|log|] == log;
    if a.Reply? && a.charge.Some? { AddZero(a.charge.value); }
  }

  /** Labelling, tool calls and completion leave the token accumulators alone. */
  lemma TotalsOfAct(s: Session, current: Option<Id>, a: Activity)
    ensures var t := Act(s, current, a);
            && t.tokensTotal == Add(s.tokensTotal, ChargeOf(a))
            && t.tokensByModel == (if a.Reply? && a.charge.Some? then ByModel(s.tokensByModel, a.model, a.charge.value)
                                   else s.tokensByModel)
            && t.history == s.history + PointIn(a, t.tokensTotal.total)
            && t.tools == s.tools + CallsIn(a, current)
            && (t.id, t.startedAt, t.lastEventAt, t.threadName) == (s.id, s.startedAt, s.lastEventAt, s.threadName)
  {
    AddZero(s.tokensTotal);
    assert s.history + [] == s.history && s.tools + [] == s.tools;
  }

  lemma RecordsGrow(log: seq<Activity>, a: Activity)
    ensures SumCharges(log + [a]) == Add(SumCharges(log), ChargeOf(a))
    ensures Points(log + [a]) == Points(log) + PointIn(a, SumCharges(log + [a]).total)
    ensures CallsOf(log + [a]) == CallsOf(log) + CallsIn(a, LastPrompt(log))
  {
    assert (log + [a])[..|log|] == log;
    assert (log + [a])[|log|] == a;
  }

  lemma TotalsAfter(s: Session, current: Option<Id>, log: seq<Activity>, a: Activity)
    requires Explains(s, current, log)
    ensures var t := Act(s, current, a);
            && t.tokensTotal == SumCharges(log + [a])
            && t.history == Points(log + [a])
            && t.tools == CallsOf(log + [a])
            && forall m :: Get(t.tokensByModel, m) == ChargesOf(log + [a], m)
  {
    RecordsGrow(log, a);
    var t := Act(s, current, a);
    TotalsOfAct(s, current, a);
    forall m ensures Get(t.tokensByModel, m) == ChargesOf(log + [a], m) {
      assert Get(s.tokensByModel, m) == ChargesOf(log, m);
      ModelAfter(s.tokensByModel, log, a, m);
    }
  }

  lemma NothingConserved(turns: seq<Turn>, log: seq<Activity>)
    requires turns == [] && log == []
    ensures Conserved(turns, log)
  {
    assert SumTurns(turns) == ZERO;
    assert ChargesUnder(log, None) == ZERO;
    assert SumCharges(log) == ZERO;
    AddZero(SumCharges(log));
  }

  predicate Blank(s: Session) {
    && s.tokensTotal == ZERO && s.tokensByModel == map[] && s.totalTurns == 0
    && s.history == [] && s.turns == [] && s.tools == []
  }

  lemma NothingRecorded(s: Session, log: seq<Activity>)
    requires Blank(s) && log == []
    ensures LastPrompt(log) == None && s.tokensTotal == SumCharges(log) && s.history == Points(log)
    ensures s.tools == CallsOf(log)
    ensures forall m :: Get(s.tokensByModel, m) == ChargesOf(log, m)
    ensures TurnsExplained(s.turns, log) && s.totalTurns == CompletedCount(s.turns)
  {
  }

  lemma NewSessionExplained(s: Session, log: seq<Activity>)
    requires Blank(s) && log == []
    ensures Explains(s, None, log)
  {
    NothingRecorded(s, log);
    NothingConserved(s.turns, log);
  }

  /** Name and clock are not part of the ledger. */
  lemma SameLedger(s: Session, t: Session, current: Option<Id>, log: seq<Activity>)
    requires Explains(s, current, log) && t == s.(lastEventAt := t.lastEventAt, threadName := t.threadName)
    ensures Explains(t, current, log)
  {
    forall m ensures Get(t.tokensByModel, m) == ChargesOf(log, m) {
      assert Get(s.tokensByModel, m) == ChargesOf(log, m);
    }
  }

  /** One more record, one more entry in the log. */
  lemma StepExplained(s: Session, current: Option<Id>, log: seq<Activity>, a: Activity)
    requires Explains(s, current, log)
    ensures Explains(Act(s, current, a), Current(current, a), log + [a])
  {
    if a.Prompt? {
      PromptTurns(s, current, log, a);
      PromptConserves(s, current, log, a);
    } else {
      ReplyTurns(s, current, log, a);
      ReplyConserves(s, current, log, a);
    }
    TotalsAfter(s, current, log, a);
    LogGrows(log, a);
  }

  // ----- what follows for every explained session

  /** No prompt but the latest reuses the id of an earlier prompt. */
  predicate EarlierPromptsDistinct(xs: seq<Exchange>) {
    forall i, j :: 0 <= i < j < |xs| - 1 ==> xs[i].id != xs[j].id
  }

  predicate OnlyLatestInProgress(turns: seq<Turn>) {
    forall k :: 0 <= k < |turns| - 1 ==> !turns[k].status.InProgress?
  }

  /** At most the latest turn is in progress, exactly when no earlier turn id was reused. */
  lemma SettledExactlyWhen(s: Session, current: Option<Id>, log: seq<Activity>)
    requires Explains(s, current, log)
    ensures OnlyLatestInProgress(s.turns) <==> EarlierPromptsDistinct(Exchanges(log))
  {
    var xs := Exchanges(log);
    forall k | 0 <= k < |s.turns| - 1 ensures s.turns[k].status.InProgress? <==> Repeats(xs, k) {
      assert TurnExplained(s.turns[k], log, k);
    }
    if i, j :| 0 <= i < j < |xs| - 1 && xs[i].id == xs[j].id {
      assert Repeats(xs, j);
    } else {
      assert forall k :: 0 <= k < |xs| - 1 ==> !Repeats(xs, k);
    }
  }

  /** A prompt id used again leaves its second turn open for good, though a new prompt has followed. */
  lemma ReusedPromptStaysOpen()
    ensures var log := [Prompt("a", None), Prompt("a", None), Prompt("b", None)];
            forall s, current | Explains(s, current, log) :: s.turns[1].status.InProgress? && current == Some("b")
  {
    var a, b := Prompt("a", None), Prompt("b", None);
    var log := [a, a, b];
    assert [a][..0] == [] && [a, a][..1] == [a] && log[..2] == [a, a];
    assert Exchanges([a]) == [Exchange("a", false)];
    assert Exchanges([a, a]) == [Exchange("a", false), Exchange("a", false)];
    var xs := Exchanges(log);
    assert xs == [Exchange("a", false), Exchange("a", false), Exchange("b", false)];
    assert xs[0].id == xs[1].id;
    assert Repeats(xs, 1);
    forall s, current | Explains(s, current, log) ensures s.turns[1].status.InProgress? && current == Some("b") {
      assert TurnExplained(s.turns[1], log, 1);
    }
  }

  predicate Untimed(a: Activity) {
    a.Reply? && a.charge.Some? && a.at.None?
  }

  predicate AllTimed(log: seq<Activity>) {
    forall i :: 0 <= i < |log| ==> !Untimed(log[i])
  }

  predicate ChargesPositive(log: seq<Activity>) {
    forall i :: 0 <= i < |log| && log[i].Reply? && log[i].charge.Some? ==> log[i].charge.value.total > 0
  }

  function SumUntimed(log: seq<Activity>): Tokens {
    if log == [] then ZERO
    else if Untimed(log[|log| - 1]) then Add(SumUntimed(log[..|log| - 1]), ChargeOf(log[|log| - 1]))
    else SumUntimed(log[..|log| - 1])
  }

  lemma UntimedGrow(log: seq<Activity>, a: Activity)
    ensures SumUntimed(log + [a]) == if Untimed(a) then Add(SumUntimed(log), ChargeOf(a)) else SumUntimed(log)
  {
    assert (log + [a])[..|log|] == log;
  }

  /** Adding a charge to either side of a sum adds it to the sum. */
  lemma Balanced(sum: Tokens, d: Tokens, u: Tokens, c: Tokens)
    requires sum == Add(d, u)
    ensures Add(sum, c) == Add(Add(d, c), u) && Add(sum, c) == Add(d, Add(u, c))
    ensures c == ZERO ==> Add(sum, c) == Add(d, u)
  {
  }

  /** The history accounts for every charge that carries a time. */
  lemma {:induction false} HistoryMissesUntimed(log: seq<Activity>)
    ensures SumCharges(log) == Add(SumDeltas(Points(log)), SumUntimed(log))
  {
    if log != [] {
      var before, a := log[..|log| - 1], log[|log| - 1];
      assert log == before + [a];
      HistoryMissesUntimed(before);
      Balanced(SumCharges(before), SumDeltas(Points(before)), SumUntimed(before), ChargeOf(a));
      PointsGrow(before, a);
      ChargesSumGrow(before, a);
      UntimedGrow(before, a);
    } else {
      AddZero(ZERO);
    }
  }

  lemma PointsGrow(log: seq<Activity>, a: Activity)
    ensures var ps, qs := Points(log), Points(log + [a]);
            if a.Reply? && a.charge.Some? && a.at.Some? then
              |qs| == |ps| + 1 && qs[..|ps|] == ps && qs[|ps|].delta == ChargeOf(a)
              && qs[|ps|].runningTotal == SumCharges(log + [a]).total
              && SumDeltas(qs) == Add(SumDeltas(ps), ChargeOf(a))
            else qs == ps
  {
    assert (log + [a])[..|log|] == log;
    assert Points(log) + [] == Points(log);
    assert |Points(log + [a])| > |Points(log)| ==> Points(log + [a])[..|Points(log)|] == Points(log);
  }

  lemma {:induction false} UntimedPositive(log: seq<Activity>)
    requires ChargesPositive(log)
    ensures if AllTimed(log) then SumUntimed(log) == ZERO else SumUntimed(log).total > 0
  {
    if log != [] {
      var before, a := log[..|log| - 1], log[|log| - 1];
      UntimedPositive(before);
      assert AllTimed(log) <==> AllTimed(before) && !Untimed(a);
    }
  }

  /** The total is the sum of the history exactly when no charge lacks a time. */
  lemma HistoryIsTotalExactlyWhen(s: Session, current: Option<Id>, log: seq<Activity>)
    requires Explains(s, current, log) && ChargesPositive(log)
    ensures s.tokensTotal == SumDeltas(s.history) <==> AllTimed(log)
  {
    HistoryMissesUntimed(log);
    UntimedPositive(log);
    AddZero(SumDeltas(Points(log)));
  }

  lemma TimedSum(log: seq<Activity>)
    requires AllTimed(log)
    ensures SumCharges(log) == SumDeltas(Points(log))
  {
    NoUntimed(log);
    HistoryMissesUntimed(log);
    AddZero(SumDeltas(Points(log)));
  }

  lemma NewestRunningTotal(log: seq<Activity>, a: Activity)
    requires AllTimed(log + [a]) && |Points(log + [a])| > |Points(log)|
    ensures var ps := Points(log + [a]); ps != [] && ps[|ps| - 1].runningTotal == SumDeltas(ps).total
  {
    PointsGrow(log, a);
    TimedSum(log + [a]);
  }

  /** Each point's running total is the sum of the deltas up to it. */
  predicate RunsUpTo(ps: seq<Point>) {
    forall k :: 0 <= k < |ps| ==> ps[k].runningTotal == SumDeltas(ps[..k + 1]).total
  }

  lemma OneMoreRuns(ps: seq<Point>, p: Point)
    requires RunsUpTo(ps) && p.runningTotal == SumDeltas(ps + [p]).total
    ensures RunsUpTo(ps + [p])
  {
    var qs := ps + [p];
    forall k | 0 <= k < |qs| ensures qs[k].runningTotal == SumDeltas(qs[..k + 1]).total {
      assert qs[..k + 1] == if k < |ps| then ps[..k + 1] else qs;
    }
  }

  /** When every charge has a time, the history runs up to the total. */
  lemma {:induction false} RunningTotals(log: seq<Activity>)
    requires AllTimed(log)
    ensures RunsUpTo(Points(log))
  {
    if log != [] {
      var before, a := log[..|log| - 1], log[|log| - 1];
      assert before + [a] == log;
      RunningTotals(before);
      RunsOn(before, a);
    }
  }

  lemma RunsOn(log: seq<Activity>, a: Activity)
    requires AllTimed(log + [a]) && RunsUpTo(Points(log))
    ensures RunsUpTo(Points(log + [a]))
  {
    PointsGrow(log, a);
    var ps, qs := Points(log), Points(log + [a]);
    if |qs| > |ps| {
      NewestRunningTotal(log, a);
      assert qs == ps + [qs[|ps|]];
      OneMoreRuns(ps, qs[|ps|]);
    }
  }

  lemma {:induction false} NoUntimed(log: seq<Activity>)
    requires AllTimed(log)
    ensures SumUntimed(log) == ZERO
  {
    if log != [] {
      NoUntimed(log[..|log| - 1]);
    }
  }

  predicate PointsWithin(points: seq<Point>, from: int, to: int) {
    forall i :: 0 <= i < |points| ==> from <= points[i].at <= to
  }

  predicate CallsWithin(calls: seq<ToolCall>, from: int, to: int) {
    forall i :: 0 <= i < |calls| ==> from <= calls[i].at <= to
  }

  /** The record leaves something with a time in the session. */
  predicate Timed(a: Activity) {
    a.Reply? && a.at.Some? && (a.charge.Some? || a.calls != [])
  }

  predicate TimesIn(log: seq<Activity>, from: int, to: int) {
    forall i :: 0 <= i < |log| && Timed(log[i]) ==> from <= log[i].at.value <= to
  }

  predicate NoneBefore(log: seq<Activity>, from: int) {
    forall i :: 0 <= i < |log| && Timed(log[i]) ==> from <= log[i].at.value
  }

  predicate NoneAfter(log: seq<Activity>, to: int) {
    forall i :: 0 <= i < |log| && Timed(log[i]) ==> log[i].at.value <= to
  }

  lemma RecordedHere(a: Activity, total: nat, current: Option<Id>, from: int, to: int)
    ensures PointsWithin(PointIn(a, total), from, to) && CallsWithin(CallsIn(a, current), from, to)
            <==> (Timed(a) ==> from <= a.at.value <= to)
  {
    if Timed(a) {
      assert a.charge.Some? ==> PointIn(a, total)[0].at == a.at.value;
      assert a.calls != [] ==> CallsIn(a, current)[0].at == a.at.value;
    }
  }

  lemma {:induction false} TimesAreRecorded(log: seq<Activity>, from: int, to: int)
    ensures PointsWithin(Points(log), from, to) && CallsWithin(CallsOf(log), from, to) <==> TimesIn(log, from, to)
  {
    if log != [] {
      var before, a := log[..|log| - 1], log[|log| - 1];
      TimesAreRecorded(before, from, to);
      assert TimesIn(log, from, to) <==> TimesIn(before, from, to) && (Timed(a) ==> from <= a.at.value <= to);
      RecordedHere(a, SumCharges(log).total, LastPrompt(before), from, to);
      PointsSplit(Points(before), PointIn(a, SumCharges(log).total), from, to);
      CallsSplit(CallsOf(before), CallsIn(a, LastPrompt(before)), from, to);
    }
  }

  lemma PointsSplit(ps: seq<Point>, qs: seq<Point>, from: int, to: int)
    ensures PointsWithin(ps + qs, from, to) <==> PointsWithin(ps, from, to) && PointsWithin(qs, from, to)
  {
    assert forall i :: 0 <= i < |ps| ==> (ps + qs)[i] == ps[i];
    assert forall i :: 0 <= i < |qs| ==> (ps + qs)[|ps| + i] == qs[i];
  }

  lemma CallsSplit(ps: seq<ToolCall>, qs: seq<ToolCall>, from: int, to: int)
    ensures CallsWithin(ps + qs, from, to) <==> CallsWithin(ps, from, to) && CallsWithin(qs, from, to)
  {
    assert forall i :: 0 <= i < |ps| ==> (ps + qs)[i] == ps[i];
    assert forall i :: 0 <= i < |qs| ==> (ps + qs)[|ps| + i] == qs[i];
  }

  /** The session spans its events exactly when none was recorded before its start or after its end. */
  lemma SpanExactlyWhen(s: Session, current: Option<Id>, log: seq<Activity>)
    requires Explains(s, current, log)
    ensures PointsWithin(s.history, s.startedAt, s.lastEventAt) && CallsWithin(s.tools, s.startedAt, s.lastEventAt)
            <==> NoneBefore(log, s.startedAt) && NoneAfter(log, s.lastEventAt)
  {
    TimesAreRecorded(log, s.startedAt, s.lastEventAt);
    TimesSplit(log, s.startedAt, s.lastEventAt);
  }

  lemma TimesSplit(log: seq<Activity>, from: int, to: int)
    ensures TimesIn(log, from, to) <==> NoneBefore(log, from) && NoneAfter(log, to)
  {
  }

  /** A law of token totals that sums keep. */
  ghost predicate Additive(law: Tokens -> bool) {
    law(ZERO) && forall a, b {:trigger Add(a, b)} :: law(a) && law(b) ==> law(Add(a, b))
  }

  ghost predicate ChargesObey(law: Tokens -> bool, log: seq<Activity>) {
    forall a :: a in log && a.Reply? && a.charge.Some? ==> law(a.charge.value)
  }

  lemma ObeyBefore(law: Tokens -> bool, log: seq<Activity>)
    requires ChargesObey(law, log) && law(ZERO) && log != []
    ensures ChargesObey(law, log[..|log| - 1]) && law(ChargeOf(log[|log| - 1]))
  {
    var before, a := log[..|log| - 1], log[|log| - 1];
    assert log == before + [a];
    assert a in log;
  }

  lemma {:induction false} SumsObey(law: Tokens -> bool, log: seq<Activity>, prompt: Option<Id>)
    requires Additive(law) && ChargesObey(law, log)
    ensures law(SumCharges(log)) && law(ChargesUnder(log, prompt))
  {
    if log != [] {
      ObeyBefore(law, log);
      SumsObey(law, log[..|log| - 1], prompt);
    }
  }

  lemma {:induction false} ModelSumObeys(law: Tokens -> bool, log: seq<Activity>, model: string)
    requires Additive(law) && ChargesObey(law, log)
    ensures ChargesOf(log, model).Some? ==> law(ChargesOf(log, model).value)
  {
    if log != [] {
      ObeyBefore(law, log);
      ModelSumObeys(law, log[..|log| - 1], model);
    }
  }

  lemma {:induction false} PointsObey(law: Tokens -> bool, log: seq<Activity>)
    requires Additive(law) && ChargesObey(law, log)
    ensures forall p :: p in Points(log) ==> law(p.delta)
  {
    if log != [] {
      ObeyBefore(law, log);
      PointsObey(law, log[..|log| - 1]);
    }
  }

  /** Every accumulator of the session obeys the law. */
  ghost predicate Obeys(law: Tokens -> bool, s: Session) {
    && law(s.tokensTotal)
    && (forall m :: m in s.tokensByModel ==> law(s.tokensByModel[m]))
    && (forall t :: t in s.turns ==> law(t.tokens))
    && (forall p :: p in s.history ==> law(p.delta))
  }

  lemma AccumulatorsObey(law: Tokens -> bool, s: Session, current: Option<Id>, log: seq<Activity>)
    requires Additive(law) && ChargesObey(law, log) && Explains(s, current, log)
    ensures Obeys(law, s)
  {
    SumsObey(law, log, None);
    PointsObey(law, log);
    forall m | m in s.tokensByModel ensures law(s.tokensByModel[m]) {
      assert Get(s.tokensByModel, m) == ChargesOf(log, m);
      ModelSumObeys(law, log, m);
    }
    forall k | 0 <= k < |s.turns| ensures law(s.turns[k].tokens) {
      assert TurnExplained(s.turns[k], log, k);
      SumsObey(law, log, Some(s.turns[k].id));
    }
  }
}
