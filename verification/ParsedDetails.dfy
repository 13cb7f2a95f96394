/**
 The sessions of both transcript parsers (src-tauri/src/claude_parser.rs, src-tauri/src/gemini_parser.rs) are
 replays of what their transcripts say, and so show what those call for.
 */
module ParsedDetails {
  import opened Prelude
  import opened SessionLedger
  import opened SessionDetails
  import C = ClaudeParser
  import G = GeminiParser

  lemma ClaudeStep(source: C.Source, rs: seq<C.Record>, r: C.Record)
    requires var st := C.Parsed(source, rs);
             st.session.Some? ==> Ledger(st.session.value) == Replayed(C.Activities(source, rs))
    ensures var t := C.Parsed(source, rs + [r]);
            t.session.Some? ==> Ledger(t.session.value) == Replayed(C.Activities(source, rs + [r]))
  {
    var st := C.Parsed(source, rs);
    var p := C.Prepared(source, st, r);
    C.ParsedMirrors(source, rs);
    C.ParsedNext(source, rs, r);
    C.PreparedFacts(source, rs, st, r);
    C.ActivitiesGrow(source, rs, r);
    if p.session.Some? {
      var log, more := C.Activities(source, rs), C.ActivityOf(source, rs, r);
      assert Ledger(p.session.value) == Replayed(log);
      if more == [] {
        C.HandledIdles(source, rs, p, r);
        assert log + more == log;
      } else {
        C.HandledActs(source, rs, p, r);
        ActIsLocal(p.session.value, p.currentTurn, more[0]);
        ReplayedNext(log, more[0]);
      }
    } else {
      C.StepMirrors(source, rs, st, r);
    }
  }

  lemma {:induction false} ClaudeReplays(source: C.Source, rs: seq<C.Record>)
    ensures var st := C.Parsed(source, rs);
            st.session.Some? ==> Ledger(st.session.value) == Replayed(C.Activities(source, rs))
  {
    if rs != [] {
      ClaudeReplays(source, rs[..|rs| - 1]);
      ClaudeStep(source, rs[..|rs| - 1], rs[|rs| - 1]);
      assert rs == rs[..|rs| - 1] + [rs[|rs| - 1]];
    }
  }

  /** A parsed Claude session is labelled, its turns are dated and answered, and its tools are called as the
      prompts and replies of its transcript say. */
  lemma ClaudeShows(source: C.Source, rs: seq<C.Record>)
    requires C.Parsed(source, rs).session.Some?
    ensures Shows(C.Parsed(source, rs).session.value, C.Activities(source, rs))
  {
    ClaudeReplays(source, rs);
    ReplayShows(C.Parsed(source, rs).session.value, C.Activities(source, rs));
  }

  lemma GeminiIdles(rs: seq<G.Record>, st: G.State, r: G.Record)
    requires G.Opened(rs) && st.session.Some? && G.ActivityOf(rs, r) == []
    ensures var t := G.Applied(st, r); t.session.Some? && Ledger(t.session.value) == Ledger(st.session.value)
  {
  }

  lemma GeminiActs(rs: seq<G.Record>, st: G.State, r: G.Record, a: Activity)
    requires G.Mirrors(rs, st) && st.session.Some? && G.ActivityOf(rs, r) != [] && a == G.ActivityOf(rs, r)[0]
    ensures var t := G.Applied(st, r);
            t.session.Some? && Ledger(t.session.value) == Act(Ledger(st.session.value), st.currentTurn, a)
  {
    G.AppliedActs(rs, st, r);
    ActIsLocal(G.Touched(st.session.value, r.at), st.currentTurn, a);
  }

  lemma GeminiStep(rs: seq<G.Record>, r: G.Record)
    requires var st := G.Parsed(rs);
             st.session.Some? ==> Ledger(st.session.value) == Replayed(G.Activities(rs))
    ensures var t := G.Parsed(rs + [r]);
            t.session.Some? ==> Ledger(t.session.value) == Replayed(G.Activities(rs + [r]))
  {
    var st := G.Parsed(rs);
    G.ParsedMirrors(rs);
    G.ParsedNext(rs, r);
    G.ActivitiesGrow(rs, r);
    if st.session.Some? {
      var log, more := G.Activities(rs), G.ActivityOf(rs, r);
      if more == [] {
        GeminiIdles(rs, st, r);
        assert log + more == log;
      } else {
        GeminiActs(rs, st, r, more[0]);
        G.AppliedActs(rs, st, r);
        ReplayedNext(log, more[0]);
      }
    } else {
      G.FirstOpened(rs, st, r);
    }
  }

  lemma {:induction false} GeminiReplays(rs: seq<G.Record>)
    ensures var st := G.Parsed(rs);
            st.session.Some? ==> Ledger(st.session.value) == Replayed(G.Activities(rs))
  {
    if rs != [] {
      GeminiReplays(rs[..|rs| - 1]);
      GeminiStep(rs[..|rs| - 1], rs[|rs| - 1]);
      assert rs == rs[..|rs| - 1] + [rs[|rs| - 1]];
    }
  }

  /** The same for a parsed Gemini session. */
  lemma GeminiShows(rs: seq<G.Record>)
    requires G.Parsed(rs).session.Some?
    ensures Shows(G.Parsed(rs).session.value, G.Activities(rs))
  {
    GeminiReplays(rs);
    ReplayShows(G.Parsed(rs).session.value, G.Activities(rs));
  }

  // ----- which records are turns

  function PromptIds(log: seq<Activity>): seq<Id> {
    if log == [] then []
    else
      var a := log[|log| - 1];
      PromptIds(log[..|log| - 1]) + if a.Prompt? then [a.turn] else []
  }

  lemma PromptIdsGrow(log: seq<Activity>, more: seq<Activity>)
    requires |more| <= 1
    ensures PromptIds(log + more) == PromptIds(log) + if more != [] && more[0].Prompt? then [more[0].turn] else []
  {
    if more == [] {
      assert log + more == log && PromptIds(log) + [] == PromptIds(log);
    } else {
      assert (log + more)[..|log|] == log;
    }
  }

  lemma {:induction false} ExchangesArePrompts(log: seq<Activity>)
    ensures |PromptIds(log)| == |Exchanges(log)|
    ensures forall k :: 0 <= k < |Exchanges(log)| ==> Exchanges(log)[k].id == PromptIds(log)[k]
  {
    if log != [] {
      var front, a := log[..|log| - 1], log[|log| - 1];
      assert log == front + [a];
      ExchangesArePrompts(front);
      LogGrows(front, a);
      PromptIdsGrow(front, [a]);
    }
  }

  /** Record `k` of a Claude transcript is a turn: a human prompt with an id, in the main conversation unless the
      transcript is a subagent's, in a session opened by then. */
  ghost predicate ClaudeTurn(source: C.Source, rs: seq<C.Record>, k: nat) {
    && k < |rs| && rs[k].body.User? && rs[k].body.isPrompt && rs[k].body.uuid != ""
    && (rs[k].isSidechain ==> source.isSubagent)
    && exists j :: 0 <= j <= k && C.Opens(source, rs[j])
  }

  ghost predicate ClaudeTurnsAt(source: C.Source, rs: seq<C.Record>, ids: seq<Id>, at: seq<nat>) {
    && |ids| == |at|
    && (forall k, l :: 0 <= k < l < |at| ==> at[k] < at[l])
    && (forall k: nat :: k in at <==> ClaudeTurn(source, rs, k))
    && forall i :: 0 <= i < |at| && at[i] < |rs| && rs[at[i]].body.User? ==> ids[i] == rs[at[i]].body.uuid
  }

  lemma ClaudeTurnEarlier(source: C.Source, before: seq<C.Record>, r: C.Record, k: nat)
    requires k < |before|
    ensures ClaudeTurn(source, before + [r], k) <==> ClaudeTurn(source, before, k)
  {
    assert forall j :: 0 <= j < |before| ==> (before + [r])[j] == before[j];
  }

  lemma ClaudeTurnLast(source: C.Source, before: seq<C.Record>, r: C.Record)
    ensures var more := C.ActivityOf(source, before, r);
            && |more| <= 1
            && (ClaudeTurn(source, before + [r], |before|) <==> more != [] && more[0].Prompt?)
            && (more != [] && more[0].Prompt? ==> r.body.User? && more[0].turn == r.body.uuid)
  {
    var all := before + [r];
    assert all[|before|] == r && forall j :: 0 <= j < |before| ==> all[j] == before[j];
    assert C.Opened(source, all) <==> exists j :: 0 <= j <= |before| && C.Opens(source, all[j]);
  }

  lemma OneMoreClaudeTurn(source: C.Source, before: seq<C.Record>, r: C.Record, ids: seq<Id>, at: seq<nat>)
    requires ClaudeTurnsAt(source, before, ids, at)
    ensures if ClaudeTurn(source, before + [r], |before|)
            then ClaudeTurnsAt(source, before + [r], ids + [r.body.uuid], at + [|before|])
            else ClaudeTurnsAt(source, before + [r], ids, at)
  {
    var all := before + [r];
    assert all[|before|] == r && forall j :: 0 <= j < |before| ==> all[j] == before[j];
    forall k: nat | k != |before| ensures k in at <==> ClaudeTurn(source, all, k) {
      if k < |before| { ClaudeTurnEarlier(source, before, r, k); }
    }
    forall i | 0 <= i < |at| ensures at[i] < |before| { assert at[i] in at; }
  }

  lemma ClaudePromptsStep(source: C.Source, before: seq<C.Record>, r: C.Record, log: seq<Activity>,
                          more: seq<Activity>, at: seq<nat>) returns (at': seq<nat>)
    requires more == C.ActivityOf(source, before, r) && ClaudeTurnsAt(source, before, PromptIds(log), at)
    ensures ClaudeTurnsAt(source, before + [r], PromptIds(log + more), at')
  {
    ClaudeTurnLast(source, before, r);
    PromptIdsGrow(log, more);
    OneMoreClaudeTurn(source, before, r, PromptIds(log), at);
    assert PromptIds(log) + [] == PromptIds(log);
    at' := if ClaudeTurn(source, before + [r], |before|) then at + [|before|] else at;
  }

  lemma {:induction false} ClaudePrompts(source: C.Source, rs: seq<C.Record>) returns (at: seq<nat>)
    ensures ClaudeTurnsAt(source, rs, PromptIds(C.Activities(source, rs)), at)
  {
    if rs == [] {
      at := [];
    } else {
      var before, r := rs[..|rs| - 1], rs[|rs| - 1];
      assert rs == before + [r];
      at := ClaudePrompts(source, before);
      C.ActivitiesGrow(source, before, r);
      at := ClaudePromptsStep(source, before, r, C.Activities(source, before), C.ActivityOf(source, before, r), at);
    }
  }

  function IdsOf(turns: seq<Turn>): (r: seq<Id>)
    ensures |r| == |turns| && forall i :: 0 <= i < |r| ==> r[i] == turns[i].id
  {
    seq(|turns|, i requires 0 <= i < |turns| => turns[i].id)
  }

  lemma TurnIds(turns: seq<Turn>, log: seq<Activity>)
    requires TurnsExplained(turns, log)
    ensures IdsOf(turns) == PromptIds(log)
  {
    ExchangesArePrompts(log);
    forall i | 0 <= i < |turns| ensures turns[i].id == PromptIds(log)[i] {
      assert TurnExplained(turns[i], log, i);
    }
  }

  /** The turns of a parsed Claude session are the prompts of its transcript, in order. */
  lemma ClaudeTurns(source: C.Source, rs: seq<C.Record>) returns (at: seq<nat>)
    requires C.Parsed(source, rs).session.Some?
    ensures ClaudeTurnsAt(source, rs, IdsOf(C.Parsed(source, rs).session.value.turns), at)
  {
    C.ParsedExplained(source, rs);
    TurnIds(C.Parsed(source, rs).session.value.turns, C.Activities(source, rs));
    at := ClaudePrompts(source, rs);
  }

  /** Record `k` of a Gemini log is a turn: a user record with an id and some text, after the header. */
  ghost predicate GeminiTurn(rs: seq<G.Record>, k: nat) {
    && k < |rs| && rs[k].kind.Some? && rs[k].kind.value.User? && rs[k].kind.value.hasText && rs[k].kind.value.id != ""
    && exists j :: 0 <= j < k && G.Opens(rs[j])
  }

  ghost predicate GeminiTurnsAt(rs: seq<G.Record>, ids: seq<Id>, at: seq<nat>) {
    && |ids| == |at|
    && (forall k, l :: 0 <= k < l < |at| ==> at[k] < at[l])
    && (forall k: nat :: k in at <==> GeminiTurn(rs, k))
    && forall i :: 0 <= i < |at| && GeminiTurn(rs, at[i]) ==> ids[i] == rs[at[i]].kind.value.id
  }

  lemma GeminiTurnEarlier(before: seq<G.Record>, r: G.Record, k: nat)
    requires k < |before|
    ensures GeminiTurn(before + [r], k) <==> GeminiTurn(before, k)
  {
    assert forall j :: 0 <= j < |before| ==> (before + [r])[j] == before[j];
  }

  lemma GeminiTurnLast(before: seq<G.Record>, r: G.Record)
    ensures var more := G.ActivityOf(before, r);
            && |more| <= 1
            && (GeminiTurn(before + [r], |before|) <==> more != [] && more[0].Prompt?)
            && (more != [] && more[0].Prompt? ==> more[0].turn == r.kind.value.id)
  {
    var all := before + [r];
    assert all[|before|] == r && forall j :: 0 <= j < |before| ==> all[j] == before[j];
    assert G.Opened(before) <==> exists j :: 0 <= j < |before| && G.Opens(all[j]);
  }

  lemma OneMoreGeminiTurn(before: seq<G.Record>, r: G.Record, ids: seq<Id>, at: seq<nat>)
    requires GeminiTurnsAt(before, ids, at)
    ensures if GeminiTurn(before + [r], |before|)
            then GeminiTurnsAt(before + [r], ids + [r.kind.value.id], at + [|before|])
            else GeminiTurnsAt(before + [r], ids, at)
  {
    var all := before + [r];
    assert all[|before|] == r && forall j :: 0 <= j < |before| ==> all[j] == before[j];
    forall k: nat | k != |before| ensures k in at <==> GeminiTurn(all, k) {
      if k < |before| { GeminiTurnEarlier(before, r, k); }
    }
    forall i | 0 <= i < |at| ensures at[i] < |before| && GeminiTurn(before, at[i]) { assert at[i] in at; }
  }

  lemma GeminiPromptsStep(before: seq<G.Record>, r: G.Record, log: seq<Activity>, more: seq<Activity>, at: seq<nat>)
    returns (at': seq<nat>)
    requires more == G.ActivityOf(before, r) && GeminiTurnsAt(before, PromptIds(log), at)
    ensures GeminiTurnsAt(before + [r], PromptIds(log + more), at')
  {
    GeminiTurnLast(before, r);
    PromptIdsGrow(log, more);
    OneMoreGeminiTurn(before, r, PromptIds(log), at);
    assert PromptIds(log) + [] == PromptIds(log);
    at' := if GeminiTurn(before + [r], |before|) then at + [|before|] else at;
  }

  lemma {:induction false} GeminiPrompts(rs: seq<G.Record>) returns (at: seq<nat>)
    ensures GeminiTurnsAt(rs, PromptIds(G.Activities(rs)), at)
  {
    if rs == [] {
      at := [];
    } else {
      var before, r := rs[..|rs| - 1], rs[|rs| - 1];
      assert rs == before + [r];
      at := GeminiPrompts(before);
      G.ActivitiesGrow(before, r);
      at := GeminiPromptsStep(before, r, G.Activities(before), G.ActivityOf(before, r), at);
    }
  }

  /** The turns of a parsed Gemini session are the prompts of its log, in order. */
  lemma GeminiTurns(rs: seq<G.Record>) returns (at: seq<nat>)
    requires G.Parsed(rs).session.Some?
    ensures GeminiTurnsAt(rs, IdsOf(G.Parsed(rs).session.value.turns), at)
  {
    G.ParsedExplained(rs);
    TurnIds(G.Parsed(rs).session.value.turns, G.Activities(rs));
    at := GeminiPrompts(rs);
  }

  // ----- identity

  /** What a record would name the session: a subagent by its agent id, any other transcript by its session id, and
      otherwise by the stem of the file. */
  predicate Names(source: C.Source, r: C.Record, id: string) {
    id == match (source.isSubagent, r.agentId, r.sessionId)
      case (true, Some(agent), _) => if agent == "" then source.stem else agent
      case (true, None, _) => source.stem
      case (false, _, Some(session)) => session
      case (false, _, None) => source.stem
  }

  /** The session is named and dated by the first record that has a time and names it at all. */
  ghost predicate NamedByFirst(source: C.Source, rs: seq<C.Record>, s: Session) {
    exists k :: 0 <= k < |rs| && rs[k].at == Some(s.startedAt) && Names(source, rs[k], s.id) && s.id != ""
                && forall j :: 0 <= j < k ==> rs[j].at.None? || Names(source, rs[j], "")
  }

  lemma IdentifiedIsNamed(source: C.Source, rs: seq<C.Record>, s: Session)
    requires C.Identified(source, rs, s)
    ensures NamedByFirst(source, rs, s)
  {
    var k :| 0 <= k < |rs| && C.Opens(source, rs[k]) && (forall j :: 0 <= j < k ==> !C.Opens(source, rs[j]))
             && s.id == C.SessionIdOf(source, rs[k]) && s.startedAt == rs[k].at.value;
    forall j | 0 <= j < k ensures rs[j].at.None? || Names(source, rs[j], "") {
      assert !C.Opens(source, rs[j]);
    }
    assert Names(source, rs[k], s.id);
  }

  lemma ClaudeIdentity(source: C.Source, rs: seq<C.Record>)
    requires C.Parsed(source, rs).session.Some?
    ensures NamedByFirst(source, rs, C.Parsed(source, rs).session.value)
  {
    C.ParsedMirrors(source, rs);
    IdentifiedIsNamed(source, rs, C.Parsed(source, rs).session.value);
  }
}
