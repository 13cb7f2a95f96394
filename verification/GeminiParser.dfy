/**
 The Gemini CLI transcript parser (src-tauri/src/gemini_parser.rs) over decoded records.
 A header opens the session; only later records count, and only replies with a time are billed.
 */
module GeminiParser {
  import opened Prelude
  import opened Buckets
  import opened SessionLedger
  import opened LineReader

  datatype Usage = Usage(input: nat, cached: nat, thoughts: nat, output: nat)

  /** `startTime` is `None` when it is there but is no time. */
  datatype Header = Header(sessionId: string, startTime: Option<int>)

  /** `hasText` says that a user record has some text. */
  datatype Kind =
    | User(id: string, hasText: bool)
    | Gemini(id: string, model: Option<string>, usage: Option<Usage>, tools: seq<Id>)
    | Info

  datatype Record = Record(kind: Option<Kind>, header: Option<Header>, at: Option<int>)

  /** `usage_to_totals`: thoughts count as output; the input already includes what was cached. */
  function Totals(u: Usage): Tokens {
    var output := u.output + u.thoughts;
    Tokens(u.input, u.cached, 0, output, u.thoughts, u.input + output)
  }

  predicate AnyPositive(u: Usage) {
    u.input > 0 || u.output > 0 || u.cached > 0 || u.thoughts > 0
  }

  /** Reasoning is part of the output, there are no cache writes, and the total is input plus output. */
  predicate Consistent(t: Tokens) {
    t.reasoning <= t.output && t.cacheCreation == 0 && t.total == t.input + t.output
  }

  // ----- the parser

  datatype State = State(session: Option<Session>, seenMessages: set<Id>, seenTools: set<Id>, currentTurn: Option<Id>)

  const FRESH := State(None, {}, {}, None)

  predicate Opens(r: Record) {
    r.kind.None? && r.header.Some? && r.header.value.sessionId != "" && r.header.value.startTime.Some?
  }

  predicate IsPrompt(r: Record) {
    r.kind.Some? && r.kind.value.User? && r.kind.value.hasText && r.kind.value.id != ""
  }

  predicate IsReply(r: Record) {
    r.kind.Some? && r.kind.value.Gemini?
  }

  function ReplyOf(r: Record, isFirst: bool, calls: seq<Id>): Activity
    requires IsReply(r)
  {
    var m := r.kind.value;
    Reply(m.id, m.model, None, r.at,
          if isFirst && m.usage.Some? && AnyPositive(m.usage.value) && r.at.Some? then Some(Totals(m.usage.value))
          else None,
          calls)
  }

  lemma OneMoreCall(r: Record, calls: seq<Id>, id: Id, turn: Option<Id>)
    requires IsReply(r) && r.at.Some?
    ensures CallsIn(ReplyOf(r, false, calls + [id]), turn) ==
            CallsIn(ReplyOf(r, false, calls), turn) + [ToolCall(id, turn, r.kind.value.model, r.at.value)]
  {
  }

  function Acted(st: State, a: Activity): State
    requires st.session.Some?
  {
    st.(session := Some(Act(st.session.value, st.currentTurn, a)), currentTurn := Current(st.currentTurn, a))
  }

  /** `handle_gemini`. The message id is used up even when the record has no time. */
  function Answer(st: State, r: Record): State
    requires IsReply(r) && st.session.Some?
  {
    var m := r.kind.value;
    var calls := if r.at.Some? then FirstSeen(st.seenTools, m.tools) else [];
    Acted(st.(seenMessages := if m.id == "" then st.seenMessages else st.seenMessages + {m.id},
              seenTools := st.seenTools + ElementsOf(calls)),
          ReplyOf(r, m.id != "" && m.id !in st.seenMessages, calls))
  }

  function Touched(s: Session, at: Option<int>): Session {
    if at.Some? && at.value > s.lastEventAt then s.(lastEventAt := at.value) else s
  }

  /** `apply_line` on a decoded record. */
  function Applied(st: State, r: Record): State {
    if st.session.None? then
      if Opens(r) then st.(session := Some(NewSession(r.header.value.sessionId, r.header.value.startTime.value, None)))
      else st
    else if r.kind.None? then st
    else
      var p := st.(session := Some(Touched(st.session.value, r.at)));
      if IsPrompt(r) then Acted(p, Prompt(r.kind.value.id, r.at))
      else if IsReply(r) then Answer(p, r)
      else p
  }

  /** The parser object. */
  class Parser {
    var session: Option<Session>
    var seenMessages: set<Id>
    var seenTools: set<Id>
    var currentTurn: Option<Id>

    constructor ()
      ensures Value() == FRESH
    {
      session, seenMessages, seenTools, currentTurn := None, {}, {}, None;
    }

    ghost function Value(): State
      reads this
    {
      State(session, seenMessages, seenTools, currentTurn)
    }

    method HandleUser(r: Record)
      requires session.Some? && r.kind.Some? && r.kind.value.User?
      modifies this`session, this`currentTurn
      ensures Value() == if IsPrompt(r) then Acted(old(Value()), Prompt(r.kind.value.id, r.at)) else old(Value())
    {
      if !r.kind.value.hasText || r.kind.value.id == "" { return; }
      var turns := session.value.turns;
      if currentTurn.Some? {
        var k := FindTurn(turns, currentTurn.value);
        if k < |turns| && turns[k].status.InProgress? {
          turns := turns[k := turns[k].(status := Aborted)];
        }
      }
      turns := turns + [NewTurn(r.kind.value.id, |turns| + 1, r.at)];
      session := Some(session.value.(turns := turns));
      currentTurn := Some(r.kind.value.id);
    }

    /** The loop over the tool calls of a record: each id is observed once. */
    method ObserveCalls(r: Record) returns (calls: seq<Id>)
      requires session.Some? && IsReply(r) && r.at.Some?
      modifies this`seenTools, this`session
      ensures calls == FirstSeen(old(seenTools), r.kind.value.tools)
      ensures seenTools == old(seenTools) + ElementsOf(calls)
      ensures session == Some(Observed(old(session).value, currentTurn, ReplyOf(r, false, calls)))
    {
      var ids := r.kind.value.tools;
      calls := [];
      var tools := session.value.tools;
      for n := 0 to |ids|
        invariant calls == FirstSeen(old(seenTools), ids[..n])
        invariant seenTools == old(seenTools) + ElementsOf(calls)
        invariant tools == old(session).value.tools + CallsIn(ReplyOf(r, false, calls), currentTurn)
        invariant session == old(session)
      {
        assert ids[..n + 1][..n] == ids[..n];
        if ids[n] == "" || ids[n] in seenTools { continue; }
        seenTools := seenTools + {ids[n]};
        OneMoreCall(r, calls, ids[n], currentTurn);
        calls := calls + [ids[n]];
        tools := tools + [ToolCall(ids[n], currentTurn, r.kind.value.model, r.at.value)];
      }
      assert ids[..|ids|] == ids;
      session := Some(session.value.(tools := tools));
    }

    method HandleGemini(r: Record)
      requires session.Some? && IsReply(r)
      modifies this
      ensures Value() == Answer(old(Value()), r)
    {
      var m := r.kind.value;
      var isFirst := m.id != "" && m.id !in seenMessages;
      if m.id != "" { seenMessages := seenMessages + {m.id}; }
      if m.model.Some? { session := Some(session.value.(model := m.model)); }
      var calls := [];
      if r.at.Some? { calls := ObserveCalls(r); }
      var a := ReplyOf(r, isFirst, calls);
      var s := session.value;
      assert CallsIn(a, currentTurn) == CallsIn(ReplyOf(r, false, calls), currentTurn);
      assert s.tools == old(session).value.tools + CallsIn(a, currentTurn);
      assert s == Observed(Labelled(old(session).value, a), currentTurn, a);
      if isFirst && m.usage.Some? && AnyPositive(m.usage.value) && r.at.Some? {
        s := Charged(s, currentTurn, a);
      }
      session := Some(Answered(s, currentTurn, a));
    }

    method ApplyRecord(r: Record)
      modifies this
      ensures Value() == Applied(old(Value()), r)
    {
      if session.None? {
        if r.kind.None? && r.header.Some? {
          var h := r.header.value;
          if h.sessionId != "" && h.startTime.Some? {
            session := Some(NewSession(h.sessionId, h.startTime.value, None));
          }
        }
        return;
      }
      if r.kind.None? { return; }
      if r.at.Some? && r.at.value > session.value.lastEventAt {
        session := Some(session.value.(lastEventAt := r.at.value));
      }
      match r.kind.value
      case User(_, _) => HandleUser(r);
      case Gemini(_, _, _, _) => HandleGemini(r);
      case Info =>
    }
  }

  // ----- what a transcript says, without a parser

  ghost predicate Opened(rs: seq<Record>) {
    exists r :: r in rs && Opens(r)
  }

  predicate MessageIs(r: Record, id: Id) {
    IsReply(r) && r.kind.value.id == id
  }

  /** Some reply with this id followed the header. */
  ghost predicate Replied(rs: seq<Record>, id: Id) {
    exists j :: 0 <= j < |rs| && MessageIs(rs[j], id) && Opened(rs[..j])
  }

  /** The tool ids of all replies after the header that had a time. */
  ghost function CalledIds(rs: seq<Record>): set<Id> {
    if rs == [] then {}
    else
      var before, r := rs[..|rs| - 1], rs[|rs| - 1];
      CalledIds(before) +
      if Opened(before) && IsReply(r) && r.at.Some? then ElementsOf(r.kind.value.tools) - {""} else {}
  }

  /** What a record adds to the session after the records before it. */
  ghost function ActivityOf(before: seq<Record>, r: Record): seq<Activity> {
    if !Opened(before) then []
    else if IsPrompt(r) then [Prompt(r.kind.value.id, r.at)]
    else if IsReply(r) then
      var m := r.kind.value;
      [ReplyOf(r, m.id != "" && !Replied(before, m.id),
               if r.at.Some? then FirstSeen(CalledIds(before), m.tools) else [])]
    else []
  }

  ghost function Activities(rs: seq<Record>): seq<Activity> {
    if rs == [] then [] else Activities(rs[..|rs| - 1]) + ActivityOf(rs[..|rs| - 1], rs[|rs| - 1])
  }

  lemma ActivitiesGrow(rs: seq<Record>, r: Record)
    ensures Activities(rs + [r]) == Activities(rs) + ActivityOf(rs, r)
  {
  }

  /** The first header that can open a session gives it its identity and its start. */
  ghost predicate Identified(rs: seq<Record>, s: Session) {
    exists k :: 0 <= k < |rs| && IdentifiedAt(rs, k, s)
  }

  ghost predicate IdentifiedAt(rs: seq<Record>, k: nat, s: Session) {
    && k < |rs| && Opens(rs[k]) && (forall j :: 0 <= j < k ==> !Opens(rs[j]))
    && s.id == rs[k].header.value.sessionId && s.startedAt == rs[k].header.value.startTime.value
  }

  ghost predicate Mirrors(rs: seq<Record>, st: State) {
    && (st.session.Some? <==> Opened(rs))
    && (forall id :: id in st.seenMessages <==> id != "" && Replied(rs, id))
    && st.seenTools == CalledIds(rs)
    && (if st.session.None? then st.currentTurn.None? && Activities(rs) == []
        else Identified(rs, st.session.value) && Explains(st.session.value, st.currentTurn, Activities(rs)))
  }

  // ----- every record keeps them the same

  lemma OpenedGrows(rs: seq<Record>, r: Record)
    ensures Opened(rs + [r]) <==> Opened(rs) || Opens(r)
  {
  }

  lemma RepliedGrows(rs: seq<Record>, r: Record, id: Id)
    ensures Replied(rs + [r], id) <==> Replied(rs, id) || (MessageIs(r, id) && Opened(rs))
  {
    var all := rs + [r];
    assert all[..|rs|] == rs && all[|rs|] == r;
    forall j | 0 <= j < |rs| ensures all[j] == rs[j] && all[..j] == rs[..j] { }
    if Replied(rs, id) {
      var j :| 0 <= j < |rs| && MessageIs(rs[j], id) && Opened(rs[..j]);
      assert MessageIs(all[j], id) && Opened(all[..j]);
    }
    if MessageIs(r, id) && Opened(rs) {
      assert MessageIs(all[|rs|], id) && Opened(all[..|rs|]);
    }
  }

  lemma MessagesKept(rs: seq<Record>, st: State, r: Record, id: Id)
    requires st.session.Some? <==> Opened(rs)
    requires id in st.seenMessages <==> id != "" && Replied(rs, id)
    ensures id in Applied(st, r).seenMessages <==> id != "" && Replied(rs + [r], id)
  {
    RepliedGrows(rs, r, id);
  }

  lemma ToolsKept(rs: seq<Record>, st: State, r: Record)
    requires (st.session.Some? <==> Opened(rs)) && st.seenTools == CalledIds(rs)
    ensures Applied(st, r).seenTools == CalledIds(rs + [r])
  {
  }

  lemma SeenKept(rs: seq<Record>, st: State, r: Record)
    requires Mirrors(rs, st)
    ensures forall id :: id in Applied(st, r).seenMessages <==> id != "" && Replied(rs + [r], id)
    ensures Applied(st, r).seenTools == CalledIds(rs + [r])
  {
    ToolsKept(rs, st, r);
    forall id ensures id in Applied(st, r).seenMessages <==> id != "" && Replied(rs + [r], id) {
      assert id in st.seenMessages <==> id != "" && Replied(rs, id);
      MessagesKept(rs, st, r, id);
    }
  }

  lemma AppliedActs(rs: seq<Record>, st: State, r: Record)
    requires Mirrors(rs, st) && st.session.Some? && ActivityOf(rs, r) != []
    ensures var a, s, t := ActivityOf(rs, r)[0], Touched(st.session.value, r.at), Applied(st, r);
            ActivityOf(rs, r) == [a]
            && t.session == Some(Act(s, st.currentTurn, a)) && t.currentTurn == Current(st.currentTurn, a)
  {
    if IsReply(r) {
      var id := r.kind.value.id;
      assert id in st.seenMessages <==> id != "" && Replied(rs, id);
    }
  }

  lemma SessionKept(rs: seq<Record>, st: State, r: Record)
    requires Mirrors(rs, st) && st.session.Some?
    ensures var t := Applied(st, r);
            t.session.Some? && Explains(t.session.value, t.currentTurn, Activities(rs + [r]))
            && t.session.value.id == st.session.value.id && t.session.value.startedAt == st.session.value.startedAt
  {
    var log, more := Activities(rs), ActivityOf(rs, r);
    ActivitiesGrow(rs, r);
    var s := Touched(st.session.value, r.at);
    SameLedger(st.session.value, s, st.currentTurn, log);
    if more == [] {
      assert log + more == log;
    } else {
      AppliedActs(rs, st, r);
      StepExplained(s, st.currentTurn, log, more[0]);
      TotalsOfAct(s, st.currentTurn, more[0]);
    }
  }

  lemma FirstOpened(rs: seq<Record>, st: State, r: Record)
    requires Mirrors(rs, st) && st.session.None?
    ensures Activities(rs + [r]) == [] && Applied(st, r).currentTurn.None?
    ensures Applied(st, r).session.Some? ==> var t := Applied(st, r).session.value;
                                             Identified(rs + [r], t) && Explains(t, None, Activities(rs + [r]))
  {
    ActivitiesGrow(rs, r);
    var t := Applied(st, r);
    if t.session.Some? {
      assert (rs + [r])[|rs|] == r;
      forall j | 0 <= j < |rs| ensures !Opens((rs + [r])[j]) { assert rs[j] in rs; }
      assert IdentifiedAt(rs + [r], |rs|, t.session.value);
      NewSessionExplained(t.session.value, Activities(rs + [r]));
    }
  }

  lemma StillIdentified(rs: seq<Record>, r: Record, s: Session, t: Session)
    requires Identified(rs, s) && t.id == s.id && t.startedAt == s.startedAt
    ensures Identified(rs + [r], t)
  {
    var k :| 0 <= k < |rs| && IdentifiedAt(rs, k, s);
    assert forall j :: 0 <= j <= k ==> (rs + [r])[j] == rs[j];
    assert IdentifiedAt(rs + [r], k, t);
  }

  lemma StepMirrors(rs: seq<Record>, st: State, r: Record)
    requires Mirrors(rs, st)
    ensures Mirrors(rs + [r], Applied(st, r))
  {
    OpenedGrows(rs, r);
    SeenKept(rs, st, r);
    if st.session.Some? {
      SessionKept(rs, st, r);
      StillIdentified(rs, r, st.session.value, Applied(st, r).session.value);
    } else {
      FirstOpened(rs, st, r);
    }
  }

  // ----- whole transcripts

  function Apply(): (State, Record) -> State {
    (st: State, r: Record) => Applied(st, r)
  }

  function Parsed(rs: seq<Record>): State {
    Fold(Apply(), FRESH, rs)
  }

  lemma ParsedNext(rs: seq<Record>, r: Record)
    ensures Parsed(rs + [r]) == Applied(Parsed(rs), r)
  {
  }

  lemma FreshMirrors()
    ensures Mirrors([], FRESH)
  {
  }

  /** The parser's session is what the transcript as a whole calls for. */
  lemma {:induction false} ParsedMirrors(rs: seq<Record>)
    ensures Mirrors(rs, Parsed(rs))
  {
    if rs != [] {
      var before, r := rs[..|rs| - 1], rs[|rs| - 1];
      assert before + [r] == rs;
      ParsedMirrors(before);
      ParsedNext(before, r);
      StepMirrors(before, Parsed(before), r);
    } else {
      FreshMirrors();
    }
  }

  /** Any file, however it was read: the state is that of the records on its complete lines. */
  lemma FileMirrors(decode: Bytes -> Option<Record>, file: Bytes)
    ensures Mirrors(Records(decode, file, 0), ParseAll(StepWith(decode, Apply()), FRESH, file).state)
  {
    ParsingIsFolding(decode, Apply(), file, Progress(FRESH, 0, false));
    ParsedMirrors(Records(decode, file, 0));
  }

  /** Records applied one after the other to the parser object. */
  method ApplyAll(p: Parser, rs: seq<Record>)
    modifies p
    ensures p.Value() == Fold(Apply(), old(p.Value()), rs)
  {
    for n := 0 to |rs|
      invariant p.Value() == Fold(Apply(), old(p.Value()), rs[..n])
    {
      p.ApplyRecord(rs[n]);
      assert rs[..n + 1][..n] == rs[..n];
    }
    assert rs[..|rs|] == rs;
  }

  /** From bytes to session: a log followed through any appends, cut anywhere, and any rewrites by something
      shorter is read as the records of its complete lines, and the reader has what the parser object would
      have. */
  method FollowTranscript(decode: Bytes -> Option<Record>, files: seq<Bytes>) returns (st: State, offset: nat)
    requires files != [] && forall i :: 0 < i < |files| ==> Follows(files[i - 1], files[i])
    ensures var file := files[|files| - 1];
            && st == Parsed(Records(decode, file, 0))
            && Mirrors(Records(decode, file, 0), st)
            && offset == CompleteLines(file)
  {
    var reader := new Reader(StepWith(decode, Apply()), FRESH);
    reader.FollowFile(files);
    st, offset := reader.state, reader.byteOffset;
    ParsingIsFolding(decode, Apply(), files[|files| - 1], Progress(FRESH, 0, false));
    FileMirrors(decode, files[|files| - 1]);
  }

  // ----- each message is billed once

  /** Record `k` is the first reply with this id after the header, has a time and reports usage. */
  ghost predicate BillableAt(rs: seq<Record>, k: nat, id: Id, t: Tokens) {
    && k < |rs| && id != "" && MessageIs(rs[k], id) && Opened(rs[..k]) && !Replied(rs[..k], id)
    && rs[k].at.Some?
    && var usage := rs[k].kind.value.usage; usage.Some? && AnyPositive(usage.value) && t == Totals(usage.value)
  }

  lemma BillableHere(rs: seq<Record>, r: Record, id: Id, t: Tokens)
    ensures BillableAt(rs + [r], |rs|, id, t) <==> ActivityOf(rs, r) != [] && Bills(ActivityOf(rs, r)[0], id, t)
  {
  }

  lemma BillableBefore(rs: seq<Record>, r: Record, k: nat, id: Id, t: Tokens)
    requires k < |rs|
    ensures BillableAt(rs + [r], k, id, t) <==> BillableAt(rs, k, id, t)
  {
    assert (rs + [r])[..k] == rs[..k];
    assert (rs + [r])[k] == rs[k];
  }

  /** A message is billed exactly when its first record can be, and for that record's usage. */
  lemma {:induction false} BilledExactlyWhen(rs: seq<Record>, id: Id, t: Tokens)
    ensures (exists i :: 0 <= i < |Activities(rs)| && Bills(Activities(rs)[i], id, t))
            <==> (exists k :: BillableAt(rs, k, id, t))
  {
    if rs != [] {
      var before, r := rs[..|rs| - 1], rs[|rs| - 1];
      assert rs == before + [r];
      BilledExactlyWhen(before, id, t);
      BillableHere(before, r, id, t);
      var log, more := Activities(before), ActivityOf(before, r);
      ActivitiesGrow(before, r);
      assert Activities(rs) == log + more;
      forall k: nat | k < |before| ensures BillableAt(rs, k, id, t) <==> BillableAt(before, k, id, t) {
        BillableBefore(before, r, k, id, t);
      }
      SplitBills(log, more, id, t);
      assert (exists k :: BillableAt(rs, k, id, t)) <==>
             (exists k :: BillableAt(before, k, id, t)) || BillableAt(rs, |before|, id, t);
    }
  }

  lemma {:induction false} ChargedWereSeen(rs: seq<Record>, i: nat)
    requires i < |Activities(rs)| && Charges(Activities(rs)[i])
    ensures Replied(rs, Activities(rs)[i].message)
  {
    var before, r := rs[..|rs| - 1], rs[|rs| - 1];
    assert rs == before + [r];
    RepliedGrows(before, r, Activities(rs)[i].message);
    if i < |Activities(before)| {
      ChargedWereSeen(before, i);
    }
  }

  /** No message is billed twice. */
  lemma {:induction false} BilledOnce(rs: seq<Record>, i: nat, j: nat)
    requires i < j < |Activities(rs)| && Charges(Activities(rs)[i]) && Charges(Activities(rs)[j])
    ensures Activities(rs)[i].message != Activities(rs)[j].message
  {
    var before := rs[..|rs| - 1];
    if j < |Activities(before)| {
      BilledOnce(before, i, j);
    } else {
      ChargedWereSeen(before, i);
    }
  }

  // ----- the accumulators

  lemma {:induction false} ChargesAreConsistent(rs: seq<Record>)
    ensures ChargesObey(Consistent, Activities(rs)) && AllTimed(Activities(rs))
  {
    if rs != [] {
      ChargesAreConsistent(rs[..|rs| - 1]);
    }
  }

  lemma ConsistentAdds()
    ensures Additive(Consistent)
  {
    forall a, b | Consistent(a) && Consistent(b) ensures Consistent(Add(a, b)) {
    }
  }

  lemma ParsedExplained(rs: seq<Record>)
    ensures var st := Parsed(rs); st.session.Some? ==> Explains(st.session.value, st.currentTurn, Activities(rs))
  {
    ParsedMirrors(rs);
  }

  lemma SessionObeys(rs: seq<Record>)
    requires Parsed(rs).session.Some?
    ensures Obeys(Consistent, Parsed(rs).session.value)
  {
    var st := Parsed(rs);
    ParsedExplained(rs);
    ChargesAreConsistent(rs);
    ConsistentAdds();
    AccumulatorsObey(Consistent, st.session.value, st.currentTurn, Activities(rs));
  }

  /** What holds of the session of every transcript. */
  lemma SessionAccounts(rs: seq<Record>)
    requires Parsed(rs).session.Some?
    ensures var s, log := Parsed(rs).session.value, Activities(rs);
            && Obeys(Consistent, s)
            && s.tokensTotal == SumCharges(log) == SumDeltas(s.history)
            && s.totalTurns == CompletedCount(s.turns)
            && (OnlyLatestInProgress(s.turns) <==> EarlierPromptsDistinct(Exchanges(log)))
  {
    var st, log := Parsed(rs), Activities(rs);
    ParsedExplained(rs);
    ChargesAreConsistent(rs);
    SessionObeys(rs);
    SettledExactlyWhen(st.session.value, st.currentTurn, log);
    TimedSum(log);
  }

  /** The running total of every point is the sum of all deltas up to it. */
  lemma HistoryRuns(rs: seq<Record>)
    requires Parsed(rs).session.Some?
    ensures RunsUpTo(Parsed(rs).session.value.history)
  {
    ParsedExplained(rs);
    ChargesAreConsistent(rs);
    RunningTotals(Activities(rs));
  }
}
