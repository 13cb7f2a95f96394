/**
 The Claude Code transcript parser (src-tauri/src/claude_parser.rs) over decoded records:
 the parser object changed record by record, and what the resulting session says about
 the whole transcript.
 */
module ClaudeParser {
  import opened Prelude
  import opened Buckets
  import opened SessionLedger
  import opened LineReader

  const SYNTHETIC := "<synthetic>"

  /** What the path of the transcript tells: whether it is a subagent's, and its file stem. */
  datatype Source = Source(isSubagent: bool, stem: string)

  datatype Usage = Usage(
    input: nat, cacheRead: nat, cacheCreation: nat, output: nat, speed: Option<string>, serviceTier: Option<string>)

  datatype Message = Message(id: string, model: Option<string>, usage: Option<Usage>, tools: seq<Id>)

  /** `isPrompt` says that the text of a user record passes as a human prompt. */
  datatype Body =
    | User(uuid: string, isPrompt: bool)
    | Assistant(message: Option<Message>)
    | CustomTitle(title: Option<string>)
    | Summary(summary: Option<string>)
    | Other

  datatype Record = Record(
    at: Option<int>, sessionId: Option<string>, agentId: Option<string>, isSidechain: bool, body: Body)

  // ----- usage

  /** `usage_to_totals`: cache reads and writes become part of the input. */
  function Totals(u: Usage): Tokens {
    var input := u.input + u.cacheRead + u.cacheCreation;
    Tokens(input, u.cacheRead, u.cacheCreation, u.output, 0, input + u.output)
  }

  predicate AnyPositive(t: Tokens) {
    t.input > 0 || t.cached > 0 || t.cacheCreation > 0 || t.output > 0 || t.reasoning > 0 || t.total > 0
  }

  function Tier(u: Option<Usage>): Option<string> {
    if u.None? then None
    else if u.value.speed.Some? && u.value.speed.value != "standard" then u.value.speed
    else u.value.serviceTier
  }

  /** Cached and cache-creation tokens are disjoint parts of the input; the total is input plus output. */
  predicate Consistent(t: Tokens) {
    t.cached + t.cacheCreation <= t.input && t.total == t.input + t.output && t.reasoning == 0
  }

  // ----- the parser

  datatype State = State(
    session: Option<Session>, seenMessages: set<Id>, seenTools: set<Id>,
    currentTurn: Option<Id>, pendingName: Option<string>)

  const FRESH := State(None, {}, {}, None, None)

  /** A subagent is known by its agent id, any other transcript by its session id; else by the file stem. */
  function SessionIdOf(source: Source, r: Record): string {
    if source.isSubagent then
      if r.agentId.Some? && r.agentId.value != "" then r.agentId.value else source.stem
    else if r.sessionId.Some? then r.sessionId.value else source.stem
  }

  predicate Opens(source: Source, r: Record) {
    r.at.Some? && SessionIdOf(source, r) != ""
  }

  function Ensured(source: Source, st: State, r: Record): State {
    if st.session.Some? || !Opens(source, r) then st
    else st.(session := Some(NewSession(SessionIdOf(source, r), r.at.value, st.pendingName)), pendingName := None)
  }

  function Touched(st: State, at: Option<int>): State {
    if st.session.Some? && at.Some? && at.value > st.session.value.lastEventAt
    then st.(session := Some(st.session.value.(lastEventAt := at.value))) else st
  }

  predicate IsPrompt(source: Source, r: Record) {
    r.body.User? && r.body.isPrompt && (source.isSubagent || !r.isSidechain) && r.body.uuid != ""
  }

  /** An assistant message that stands for an API call. */
  predicate IsReply(r: Record) {
    r.body.Assistant? && r.body.message.Some? && r.body.message.value.model != Some(SYNTHETIC)
  }

  function ReplyOf(r: Record, isFirst: bool, calls: seq<Id>): Activity
    requires IsReply(r)
  {
    var m := r.body.message.value;
    Reply(m.id, m.model, Tier(m.usage), r.at,
          if isFirst && m.usage.Some? && AnyPositive(Totals(m.usage.value)) then Some(Totals(m.usage.value)) else None,
          calls)
  }

  function Acted(st: State, a: Activity): State
    requires st.session.Some?
  {
    st.(session := Some(Act(st.session.value, st.currentTurn, a)), currentTurn := Current(st.currentTurn, a))
  }

  /** `handle_assistant`. The message id is used up even while there is no session to bill. */
  function Assisted(st: State, r: Record): State
    requires IsReply(r)
  {
    var m := r.body.message.value;
    var isFirst := m.id != "" && m.id !in st.seenMessages;
    var calls := if r.at.Some? && st.session.Some? then FirstSeen(st.seenTools, m.tools) else [];
    var st' := st.(seenMessages := if m.id == "" then st.seenMessages else st.seenMessages + {m.id},
                   seenTools := st.seenTools + ElementsOf(calls));
    if st.session.None? then st' else Acted(st', ReplyOf(r, isFirst, calls))
  }

  function Named(st: State, title: string): State {
    if st.session.Some? then st.(session := Some(st.session.value.(threadName := Some(title))))
    else st.(pendingName := Some(title))
  }

  function NameOfState(st: State): Option<string> {
    if st.session.Some? then st.session.value.threadName else st.pendingName
  }

  function Handled(source: Source, st: State, r: Record): State {
    match r.body
    case User(uuid, _) =>
      if IsPrompt(source, r) && st.session.Some? then Acted(st, Prompt(uuid, r.at)) else st
    case Assistant(_) => if IsReply(r) then Assisted(st, r) else st
    case CustomTitle(t) => if t.Some? then Named(st, t.value) else st
    case Summary(t) => if t.Some? && NameOfState(st).None? then Named(st, t.value) else st
    case Other => st
  }

  /** `apply_line_without_refresh` on a decoded record. */
  function Applied(source: Source, st: State, r: Record): State {
    Handled(source, Touched(Ensured(source, st, r), r.at), r)
  }

  /** The parser object. */
  class Parser {
    const source: Source
    var session: Option<Session>
    var seenMessages: set<Id>
    var seenTools: set<Id>
    var currentTurn: Option<Id>
    var pendingName: Option<string>

    constructor (source: Source)
      ensures this.source == source && Value() == FRESH
    {
      this.source := source;
      session, seenMessages, seenTools, currentTurn, pendingName := None, {}, {}, None, None;
    }

    ghost function Value(): State
      reads this
    {
      State(session, seenMessages, seenTools, currentTurn, pendingName)
    }

    method EnsureSession(r: Record)
      modifies this
      ensures Value() == Ensured(source, old(Value()), r)
    {
      if session.Some? || r.at.None? { return; }
      var id := source.stem;
      if source.isSubagent {
        if r.agentId.Some? && r.agentId.value != "" { id := r.agentId.value; }
      } else if r.sessionId.Some? {
        id := r.sessionId.value;
      }
      if id == "" { return; }
      session := Some(NewSession(id, r.at.value, pendingName));
      pendingName := None;
    }

    method HandleUser(r: Record)
      requires r.body.User?
      modifies this
      ensures Value() == Handled(source, old(Value()), r)
    {
      if (r.isSidechain && !source.isSubagent) || !r.body.isPrompt || r.body.uuid == "" || session.None? { return; }
      var turns := session.value.turns;
      if currentTurn.Some? {
        var k := FindTurn(turns, currentTurn.value);
        if k < |turns| && turns[k].status.InProgress? {
          turns := turns[k := turns[k].(status := Aborted)];
        }
      }
      turns := turns + [NewTurn(r.body.uuid, |turns| + 1, r.at)];
      session := Some(session.value.(turns := turns));
      currentTurn := Some(r.body.uuid);
    }

    /** The tool ids of a message that no earlier record has mentioned. */
    method TakeNewTools(ids: seq<Id>) returns (calls: seq<Id>)
      modifies this`seenTools
      ensures calls == FirstSeen(old(seenTools), ids)
      ensures seenTools == old(seenTools) + ElementsOf(calls)
    {
      calls := [];
      for n := 0 to |ids|
        invariant calls == FirstSeen(old(seenTools), ids[..n])
        invariant seenTools == old(seenTools) + ElementsOf(calls)
      {
        assert ids[..n + 1][..n] == ids[..n];
        if ids[n] != "" && ids[n] !in seenTools {
          seenTools := seenTools + {ids[n]};
          calls := calls + [ids[n]];
        }
      }
      assert ids[..|ids|] == ids;
    }

    method HandleAssistant(r: Record)
      requires r.body.Assistant?
      modifies this
      ensures Value() == Handled(source, old(Value()), r)
    {
      if r.body.message.None? || r.body.message.value.model == Some(SYNTHETIC) { return; }
      var m := r.body.message.value;
      var isFirst := m.id != "" && m.id !in seenMessages;
      if m.id != "" { seenMessages := seenMessages + {m.id}; }
      var calls := [];
      if r.at.Some? && session.Some? { calls := TakeNewTools(m.tools); }
      if session.None? { return; }
      var a := Reply(m.id, m.model, Tier(m.usage), r.at, None, calls);
      if isFirst && m.usage.Some? && AnyPositive(Totals(m.usage.value)) {
        a := a.(charge := Some(Totals(m.usage.value)));
      }
      var s := Observed(Labelled(session.value, a), currentTurn, a);
      s := Charged(s, currentTurn, a);
      session := Some(Answered(s, currentTurn, a));
    }

    method ApplyRecord(r: Record)
      modifies this
      ensures Value() == Applied(source, old(Value()), r)
    {
      EnsureSession(r);
      if session.Some? && r.at.Some? && r.at.value > session.value.lastEventAt {
        session := Some(session.value.(lastEventAt := r.at.value));
      }
      match r.body
      case User(_, _) => HandleUser(r);
      case Assistant(_) => HandleAssistant(r);
      case CustomTitle(title) =>
        if title.Some? {
          if session.Some? { session := Some(session.value.(threadName := title)); } else { pendingName := title; }
        }
      case Summary(summary) =>
        if summary.Some? {
          if session.Some? && session.value.threadName.None? {
            session := Some(session.value.(threadName := summary));
          } else if session.None? && pendingName.None? {
            pendingName := summary;
          }
        }
      case Other =>
    }
  }

  // ----- what a transcript says, without a parser

  ghost predicate Opened(source: Source, rs: seq<Record>) {
    exists r :: r in rs && Opens(source, r)
  }

  /** The ids of all replies, whether or not they could be billed. */
  function ReplyIds(rs: seq<Record>): set<Id> {
    set r | r in rs && IsReply(r) && r.body.message.value.id != "" :: r.body.message.value.id
  }

  /** The tool ids of all replies that had a time and a session. */
  ghost function CalledIds(source: Source, rs: seq<Record>): set<Id> {
    if rs == [] then {}
    else
      var r := rs[|rs| - 1];
      CalledIds(source, rs[..|rs| - 1]) +
      if IsReply(r) && r.at.Some? && Opened(source, rs) then ElementsOf(r.body.message.value.tools) - {""} else {}
  }

  /** What a record adds to the session after the records before it. */
  ghost function ActivityOf(source: Source, before: seq<Record>, r: Record): seq<Activity> {
    if !Opened(source, before + [r]) then []
    else if IsPrompt(source, r) then [Prompt(r.body.uuid, r.at)]
    else if IsReply(r) then
      var m := r.body.message.value;
      [ReplyOf(r, m.id != "" && m.id !in ReplyIds(before),
               if r.at.Some? then FirstSeen(CalledIds(source, before), m.tools) else [])]
    else []
  }

  ghost function Activities(source: Source, rs: seq<Record>): seq<Activity> {
    if rs == [] then []
    else Activities(source, rs[..|rs| - 1]) + ActivityOf(source, rs[..|rs| - 1], rs[|rs| - 1])
  }

  function LastTitle(rs: seq<Record>): Option<string> {
    if rs == [] then None
    else
      var b := rs[|rs| - 1].body;
      if b.CustomTitle? && b.title.Some? then b.title else LastTitle(rs[..|rs| - 1])
  }

  function FirstSummary(rs: seq<Record>): Option<string> {
    if rs == [] then None
    else if rs[0].body.Summary? && rs[0].body.summary.Some? then rs[0].body.summary
    else FirstSummary(rs[1..])
  }

  /** The latest custom title, or else the earliest summary. */
  function NameOf(rs: seq<Record>): Option<string> {
    if LastTitle(rs).Some? then LastTitle(rs) else FirstSummary(rs)
  }

  /** The first record that can open a session gives it its identity and its start. */
  ghost predicate Identified(source: Source, rs: seq<Record>, s: Session) {
    exists k :: 0 <= k < |rs| && Opens(source, rs[k]) && (forall j :: 0 <= j < k ==> !Opens(source, rs[j]))
                && s.id == SessionIdOf(source, rs[k]) && s.startedAt == rs[k].at.value
  }

  ghost predicate Mirrors(source: Source, rs: seq<Record>, st: State) {
    && (st.session.Some? <==> Opened(source, rs))
    && st.seenMessages == ReplyIds(rs)
    && st.seenTools == CalledIds(source, rs)
    && NameOfState(st) == NameOf(rs)
    && (st.session.Some? ==> st.pendingName.None?)
    && (if st.session.None? then st.currentTurn.None? && Activities(source, rs) == []
        else Identified(source, rs, st.session.value)
             && Explains(st.session.value, st.currentTurn, Activities(source, rs)))
  }

  // ----- every record keeps them the same

  lemma FreshMirrors(source: Source)
    ensures Mirrors(source, [], FRESH)
  {
  }

  lemma OpenedGrows(source: Source, rs: seq<Record>, r: Record)
    ensures Opened(source, rs + [r]) <==> Opened(source, rs) || Opens(source, r)
  {
  }

  /** The session that is there when the record is handled. */
  function Prepared(source: Source, st: State, r: Record): State {
    Touched(Ensured(source, st, r), r.at)
  }

  lemma IdentifiedBy(source: Source, rs: seq<Record>, k: nat, s: Session)
    requires k < |rs| && Opens(source, rs[k]) && (forall j :: 0 <= j < k ==> !Opens(source, rs[j]))
    requires s.id == SessionIdOf(source, rs[k]) && s.startedAt == rs[k].at.value
    ensures Identified(source, rs, s)
  {
  }

  lemma PreparedFacts(source: Source, rs: seq<Record>, st: State, r: Record)
    requires Mirrors(source, rs, st)
    ensures var p := Prepared(source, st, r);
            && (p.session.Some? <==> Opened(source, rs + [r]))
            && p.(session := None, pendingName := None) == st.(session := None, pendingName := None)
            && NameOfState(p) == NameOfState(st) && (p.session.Some? ==> p.pendingName.None?)
            && (p.session.Some? ==> Identified(source, rs + [r], p.session.value)
                                    && Explains(p.session.value, p.currentTurn, Activities(source, rs)))
  {
    OpenedGrows(source, rs, r);
    var p := Prepared(source, st, r);
    if st.session.Some? {
      var k :| 0 <= k < |rs| && Opens(source, rs[k]) && (forall j :: 0 <= j < k ==> !Opens(source, rs[j]))
               && st.session.value.id == SessionIdOf(source, rs[k]) && st.session.value.startedAt == rs[k].at.value;
      assert (rs + [r])[k] == rs[k];
      IdentifiedBy(source, rs + [r], k, p.session.value);
      SameLedger(st.session.value, p.session.value, st.currentTurn, Activities(source, rs));
    } else if p.session.Some? {
      assert (rs + [r])[|rs|] == r;
      forall j | 0 <= j < |rs| ensures !Opens(source, (rs + [r])[j]) { assert rs[j] in rs; }
      NewSessionExplained(p.session.value, Activities(source, rs));
      IdentifiedBy(source, rs + [r], |rs|, p.session.value);
    }
  }

  lemma ReplyIdsGrow(rs: seq<Record>, r: Record)
    ensures ReplyIds(rs + [r]) == ReplyIds(rs) +
            if IsReply(r) && r.body.message.value.id != "" then {r.body.message.value.id} else {}
  {
  }

  lemma {:induction false} NameGrows(rs: seq<Record>, r: Record)
    ensures LastTitle(rs + [r]) == if r.body.CustomTitle? && r.body.title.Some? then r.body.title else LastTitle(rs)
    ensures FirstSummary(rs + [r]) ==
            if FirstSummary(rs).None? && r.body.Summary? then r.body.summary else FirstSummary(rs)
  {
    assert (rs + [r])[..|rs|] == rs;
    if rs != [] {
      assert (rs + [r])[1..] == rs[1..] + [r];
      NameGrows(rs[1..], r);
    }
  }

  lemma NameKept(source: Source, rs: seq<Record>, st: State, r: Record)
    requires NameOfState(st) == NameOf(rs)
    ensures NameOfState(Handled(source, st, r)) == NameOf(rs + [r])
  {
    NameGrows(rs, r);
    if st.session.Some? {
      if IsPrompt(source, r) { TotalsOfAct(st.session.value, st.currentTurn, Prompt(r.body.uuid, r.at)); }
      if IsReply(r) { ReplyKeepsIdentity(st, r); }
    }
  }

  lemma ReplyKeepsIdentity(st: State, r: Record)
    requires IsReply(r) && st.session.Some?
    ensures var s, t := st.session.value, Assisted(st, r).session;
            && t.Some?
            && (t.value.id, t.value.startedAt, t.value.lastEventAt, t.value.threadName) ==
               (s.id, s.startedAt, s.lastEventAt, s.threadName)
  {
  }

  lemma SeenKept(source: Source, rs: seq<Record>, st: State, r: Record)
    requires st.session.Some? <==> Opened(source, rs + [r])
    requires st.seenMessages == ReplyIds(rs) && st.seenTools == CalledIds(source, rs)
    ensures var t := Handled(source, st, r);
            t.seenMessages == ReplyIds(rs + [r]) && t.seenTools == CalledIds(source, rs + [r])
  {
    ReplyIdsGrow(rs, r);
    assert (rs + [r])[..|rs|] == rs;
  }

  lemma HandledActs(source: Source, rs: seq<Record>, st: State, r: Record)
    requires st.session.Some? && Opened(source, rs + [r]) && ActivityOf(source, rs, r) != []
    requires st.seenMessages == ReplyIds(rs) && st.seenTools == CalledIds(source, rs)
    ensures var a, t := ActivityOf(source, rs, r)[0], Handled(source, st, r);
            ActivityOf(source, rs, r) == [a]
            && t.session == Some(Act(st.session.value, st.currentTurn, a))
            && t.currentTurn == Current(st.currentTurn, a)
            && t.pendingName == st.pendingName
  {
  }

  lemma HandledIdles(source: Source, rs: seq<Record>, st: State, r: Record)
    requires st.session.Some? && Opened(source, rs + [r]) && ActivityOf(source, rs, r) == []
    ensures var t := Handled(source, st, r);
            && t.session.Some? && t.session.value == st.session.value.(threadName := t.session.value.threadName)
            && t.currentTurn == st.currentTurn && t.pendingName == st.pendingName
  {
  }

  lemma ActivitiesGrow(source: Source, rs: seq<Record>, r: Record)
    ensures Activities(source, rs + [r]) == Activities(source, rs) + ActivityOf(source, rs, r)
  {
  }

  lemma SessionKept(source: Source, rs: seq<Record>, st: State, r: Record)
    requires st.session.Some? && Opened(source, rs + [r])
    requires st.seenMessages == ReplyIds(rs) && st.seenTools == CalledIds(source, rs)
    requires Explains(st.session.value, st.currentTurn, Activities(source, rs))
    ensures var t := Handled(source, st, r);
            t.session.Some? && Explains(t.session.value, t.currentTurn, Activities(source, rs + [r]))
            && t.session.value.id == st.session.value.id && t.session.value.startedAt == st.session.value.startedAt
            && t.pendingName == st.pendingName
  {
    var s, log, more := st.session.value, Activities(source, rs), ActivityOf(source, rs, r);
    ActivitiesGrow(source, rs, r);
    if more == [] {
      HandledIdles(source, rs, st, r);
      SameLedger(s, Handled(source, st, r).session.value, st.currentTurn, log);
      assert log + more == log;
    } else {
      HandledActs(source, rs, st, r);
      StepExplained(s, st.currentTurn, log, more[0]);
      TotalsOfAct(s, st.currentTurn, more[0]);
    }
  }

  /** Without a session nothing is on the books, though message ids and names are remembered. */
  lemma NothingYet(source: Source, rs: seq<Record>, st: State, r: Record)
    requires st.session.None? && st.currentTurn.None? && !Opened(source, rs + [r]) && Activities(source, rs) == []
    ensures Activities(source, rs + [r]) == [] && Handled(source, st, r).session.None?
    ensures Handled(source, st, r).currentTurn.None?
  {
  }

  lemma StepMirrors(source: Source, rs: seq<Record>, st: State, r: Record)
    requires Mirrors(source, rs, st)
    ensures Mirrors(source, rs + [r], Applied(source, st, r))
  {
    var p := Prepared(source, st, r);
    PreparedFacts(source, rs, st, r);
    SeenKept(source, rs, p, r);
    NameKept(source, rs, p, r);
    if p.session.Some? {
      SessionKept(source, rs, p, r);
      SameIdentity(source, rs + [r], p.session.value, Handled(source, p, r).session.value);
    } else {
      OpenedGrows(source, rs, r);
      NothingYet(source, rs, p, r);
    }
  }

  lemma SameIdentity(source: Source, rs: seq<Record>, s: Session, t: Session)
    requires Identified(source, rs, s) && t.id == s.id && t.startedAt == s.startedAt
    ensures Identified(source, rs, t)
  {
  }

  // ----- whole transcripts

  function Apply(source: Source): (State, Record) -> State {
    (st: State, r: Record) => Applied(source, st, r)
  }

  function Parsed(source: Source, rs: seq<Record>): State {
    Fold(Apply(source), FRESH, rs)
  }

  lemma ParsedNext(source: Source, rs: seq<Record>, r: Record)
    ensures Parsed(source, rs + [r]) == Applied(source, Parsed(source, rs), r)
  {
    assert (rs + [r])[..|rs|] == rs;
  }

  /** The parser's session is what the transcript as a whole calls for. */
  lemma {:induction false} ParsedMirrors(source: Source, rs: seq<Record>)
    ensures Mirrors(source, rs, Parsed(source, rs))
  {
    if rs != [] {
      var before, r := rs[..|rs| - 1], rs[|rs| - 1];
      assert before + [r] == rs;
      ParsedMirrors(source, before);
      ParsedNext(source, before, r);
      StepMirrors(source, before, Parsed(source, before), r);
    } else {
      FreshMirrors(source);
    }
  }

  /** Any file, however it was read: the state is that of the records on its complete lines. */
  lemma FileMirrors(source: Source, decode: Bytes -> Option<Record>, file: Bytes)
    ensures Mirrors(source, Records(decode, file, 0), ParseAll(StepWith(decode, Apply(source)), FRESH, file).state)
  {
    ParsingIsFolding(decode, Apply(source), file, Progress(FRESH, 0, false));
    ParsedMirrors(source, Records(decode, file, 0));
  }

  /** Records applied one after the other to the parser object. */
  method ApplyAll(p: Parser, rs: seq<Record>)
    modifies p
    ensures p.Value() == Fold(Apply(p.source), old(p.Value()), rs)
  {
    for n := 0 to |rs|
      invariant p.Value() == Fold(Apply(p.source), old(p.Value()), rs[..n])
    {
      p.ApplyRecord(rs[n]);
      assert rs[..n + 1][..n] == rs[..n];
    }
    assert rs[..|rs|] == rs;
  }

  /** From bytes to session: a transcript followed through any appends, cut anywhere, and any rewrites by
      something shorter is read as the records of its complete lines, and the reader has what the parser
      object would have. */
  method FollowTranscript(source: Source, decode: Bytes -> Option<Record>, files: seq<Bytes>)
    returns (st: State, offset: nat)
    requires files != [] && forall i :: 0 < i < |files| ==> Follows(files[i - 1], files[i])
    ensures var file := files[|files| - 1];
            && st == Parsed(source, Records(decode, file, 0))
            && Mirrors(source, Records(decode, file, 0), st)
            && offset == CompleteLines(file)
  {
    var reader := new Reader(StepWith(decode, Apply(source)), FRESH);
    reader.FollowFile(files);
    st, offset := reader.state, reader.byteOffset;
    ParsingIsFolding(decode, Apply(source), files[|files| - 1], Progress(FRESH, 0, false));
    FileMirrors(source, decode, files[|files| - 1]);
  }

  // ----- each message is billed once

  predicate MessageIs(r: Record, id: Id) {
    IsReply(r) && r.body.message.value.id == id
  }

  /** Record `k` is the first reply with this id, comes no earlier than the record that opens
      the session, and reports usage. */
  ghost predicate BillableAt(source: Source, rs: seq<Record>, k: nat, id: Id, t: Tokens) {
    && k < |rs| && id != "" && MessageIs(rs[k], id)
    && (forall j :: 0 <= j < k ==> !MessageIs(rs[j], id))
    && (exists j :: 0 <= j <= k && Opens(source, rs[j]))
    && var usage := rs[k].body.message.value.usage; usage.Some? && t == Totals(usage.value) && AnyPositive(t)
  }

  lemma BillableHere(source: Source, rs: seq<Record>, r: Record, id: Id, t: Tokens)
    ensures BillableAt(source, rs + [r], |rs|, id, t)
            <==> ActivityOf(source, rs, r) != [] && Bills(ActivityOf(source, rs, r)[0], id, t)
  {
    var all := rs + [r];
    assert forall j :: 0 <= j < |rs| ==> all[j] == rs[j];
    assert all[|rs|] == r;
    assert Opened(source, all) <==> exists j :: 0 <= j <= |rs| && Opens(source, all[j]);
    if id != "" {
      assert id in ReplyIds(rs) <==> exists j :: 0 <= j < |rs| && MessageIs(rs[j], id);
    }
  }

  lemma BillableBefore(source: Source, rs: seq<Record>, r: Record, k: nat, id: Id, t: Tokens)
    requires k < |rs|
    ensures BillableAt(source, rs + [r], k, id, t) <==> BillableAt(source, rs, k, id, t)
  {
    assert forall j :: 0 <= j < |rs| ==> (rs + [r])[j] == rs[j];
  }

  /** A message is billed exactly when its first record can be, and for that record's usage. */
  lemma {:induction false} BilledExactlyWhen(source: Source, rs: seq<Record>, id: Id, t: Tokens)
    ensures (exists i :: 0 <= i < |Activities(source, rs)| && Bills(Activities(source, rs)[i], id, t))
            <==> (exists k :: BillableAt(source, rs, k, id, t))
  {
    if rs != [] {
      var before, r := rs[..|rs| - 1], rs[|rs| - 1];
      assert rs == before + [r];
      BilledExactlyWhen(source, before, id, t);
      BillableHere(source, before, r, id, t);
      var log, more := Activities(source, before), ActivityOf(source, before, r);
      ActivitiesGrow(source, before, r);
      assert Activities(source, rs) == log + more;
      forall k: nat | k < |before| ensures BillableAt(source, rs, k, id, t) <==> BillableAt(source, before, k, id, t) {
        BillableBefore(source, before, r, k, id, t);
      }
      SplitBills(log, more, id, t);
      assert (exists k :: BillableAt(source, rs, k, id, t)) <==>
             (exists k :: BillableAt(source, before, k, id, t)) || BillableAt(source, rs, |before|, id, t);
    }
  }

  lemma {:induction false} ChargedWereSeen(source: Source, rs: seq<Record>, i: nat)
    requires i < |Activities(source, rs)| && Charges(Activities(source, rs)[i])
    ensures Activities(source, rs)[i].message in ReplyIds(rs)
  {
    var before, r := rs[..|rs| - 1], rs[|rs| - 1];
    assert rs == before + [r];
    ReplyIdsGrow(before, r);
    if i < |Activities(source, before)| {
      ChargedWereSeen(source, before, i);
    }
  }

  /** No message is billed twice. */
  lemma {:induction false} BilledOnce(source: Source, rs: seq<Record>, i: nat, j: nat)
    requires i < j < |Activities(source, rs)| && Charges(Activities(source, rs)[i])
    requires Charges(Activities(source, rs)[j])
    ensures Activities(source, rs)[i].message != Activities(source, rs)[j].message
  {
    var before := rs[..|rs| - 1];
    if j < |Activities(source, before)| {
      BilledOnce(source, before, i, j);
    } else {
      ChargedWereSeen(source, before, i);
    }
  }

  // ----- the accumulators

  lemma {:induction false} ChargesAreConsistent(source: Source, rs: seq<Record>)
    ensures ChargesObey(Consistent, Activities(source, rs)) && ChargesPositive(Activities(source, rs))
  {
    if rs != [] {
      ChargesAreConsistent(source, rs[..|rs| - 1]);
    }
  }

  lemma ConsistentAdds()
    ensures Additive(Consistent)
  {
    forall a, b | Consistent(a) && Consistent(b) ensures Consistent(Add(a, b)) {
    }
  }

  lemma ParsedExplained(source: Source, rs: seq<Record>)
    ensures var st := Parsed(source, rs);
            st.session.Some? ==> Explains(st.session.value, st.currentTurn, Activities(source, rs))
  {
    ParsedMirrors(source, rs);
  }

  lemma SessionObeys(source: Source, rs: seq<Record>)
    requires Parsed(source, rs).session.Some?
    ensures Obeys(Consistent, Parsed(source, rs).session.value)
  {
    var st := Parsed(source, rs);
    ParsedExplained(source, rs);
    ChargesAreConsistent(source, rs);
    ConsistentAdds();
    AccumulatorsObey(Consistent, st.session.value, st.currentTurn, Activities(source, rs));
  }

  /** What holds of the session of every transcript. */
  lemma SessionAccounts(source: Source, rs: seq<Record>)
    requires Parsed(source, rs).session.Some?
    ensures var s, log := Parsed(source, rs).session.value, Activities(source, rs);
            && Obeys(Consistent, s)
            && s.tokensTotal == SumCharges(log)
            && s.totalTurns == CompletedCount(s.turns)
            && (s.tokensTotal == SumDeltas(s.history) <==> AllTimed(log))
            && (OnlyLatestInProgress(s.turns) <==> EarlierPromptsDistinct(Exchanges(log)))
  {
    var st, log := Parsed(source, rs), Activities(source, rs);
    ParsedExplained(source, rs);
    ChargesAreConsistent(source, rs);
    SessionObeys(source, rs);
    SettledExactlyWhen(st.session.value, st.currentTurn, log);
    HistoryIsTotalExactlyWhen(st.session.value, st.currentTurn, log);
  }

  // ----- the span of a session

  lemma ClockMoves(source: Source, st: State, r: Record)
    ensures var t := Applied(source, st, r);
            t.session.Some? ==> && (st.session.Some? ==> st.session.value.lastEventAt <= t.session.value.lastEventAt)
                                && (r.at.Some? ==> r.at.value <= t.session.value.lastEventAt)
  {
  }

  predicate ClockCovers(st: State, log: seq<Activity>) {
    if st.session.Some? then NoneAfter(log, st.session.value.lastEventAt) else log == []
  }

  lemma ClockCoversStep(source: Source, rs: seq<Record>, st: State, r: Record)
    requires ClockCovers(st, Activities(source, rs)) && Applied(source, st, r).session.Some?
    ensures ClockCovers(Applied(source, st, r), Activities(source, rs + [r]))
  {
    ClockMoves(source, st, r);
    ActivitiesGrow(source, rs, r);
    var log, more := Activities(source, rs), ActivityOf(source, rs, r);
    assert more != [] ==> |more| == 1 && more[0].at == r.at;
  }

  lemma {:induction false} ClockAlwaysCovers(source: Source, rs: seq<Record>)
    ensures ClockCovers(Parsed(source, rs), Activities(source, rs))
  {
    if Parsed(source, rs).session.None? {
      ParsedMirrors(source, rs);
    } else if rs != [] {
      var before, r := rs[..|rs| - 1], rs[|rs| - 1];
      assert before + [r] == rs;
      ClockAlwaysCovers(source, before);
      ParsedNext(source, before, r);
      ClockCoversStep(source, before, Parsed(source, before), r);
    }
  }

  /** A session spans its events exactly when nothing was recorded for a time before its start. */
  lemma SpansItsEvents(source: Source, rs: seq<Record>)
    requires Parsed(source, rs).session.Some?
    ensures var s := Parsed(source, rs).session.value;
            PointsWithin(s.history, s.startedAt, s.lastEventAt) && CallsWithin(s.tools, s.startedAt, s.lastEventAt)
            <==> NoneBefore(Activities(source, rs), s.startedAt)
  {
    var st := Parsed(source, rs);
    ParsedExplained(source, rs);
    ClockAlwaysCovers(source, rs);
    SpanExactlyWhen(st.session.value, st.currentTurn, Activities(source, rs));
  }
}
