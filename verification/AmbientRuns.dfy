/**
 Runs of ambient rounds (src-tauri/src/commands.rs, `check_ambient_impl`): any
 number of rounds with failing saves, clock jumps, quiet hours and restarts.
 */
module AmbientRuns {
  import opened Prelude
  import opened Ambient

  /** `others` are the entries the budget evaluations leave, `pushed` what they log after the ambient
      evaluation, and `rules` the names of the log entries of live-account rules. */
  datatype Input = Input(
    now: int, hour: nat, settings: Settings, candidates: seq<Candidate>, resolved: seq<string>,
    others: seq<Entry>, pushed: seq<Entry>, rules: set<string>, saves: bool)

  datatype Turn = Check(input: Input) | Restart

  /** What survives a round: the process's runtime, and the log on disk. */
  datatype State = State(runtime: Runtime, log: seq<Entry>)

  /** A long gap, a clock jump or the end of quiet hours makes the next evaluation a baseline. */
  function Begin(runtime: Runtime, settings: Settings, now: int, hour: nat): Runtime {
    var quiet := InQuietHours(settings.quietHours, hour);
    var gap := runtime.lastCheck.Some?
               && (now < runtime.lastCheck.value || now - runtime.lastCheck.value > 60 * SECOND);
    Runtime(runtime.initialized && !gap && !(runtime.wasQuiet && !quiet), runtime.failed, Some(now), quiet)
  }

  function AmbientPart(log: seq<Entry>): seq<Entry> {
    if log == [] then []
    else
      var rest := AmbientPart(log[..|log| - 1]);
      if log[|log| - 1].key.Other? then rest else rest + [log[|log| - 1]]
  }

  /** The budget evaluations rewrite their own entries, leave the ambient ones, and sort the log by key. */
  function AfterBudgets(log: seq<Entry>, others: seq<Entry>): seq<Entry> {
    ByKey(AmbientPart(log) + others)
  }

  function RoundEvaluation(hash: string -> string, st: State, x: Input): Evaluation {
    var ev := Evaluated(Setting(hash, x.settings, Begin(st.runtime, x.settings, x.now, x.hour), x.now, x.hour),
                        x.candidates, x.resolved, AfterBudgets(st.log, x.others));
    ev.(log := ev.log + x.pushed)
  }

  /** One turn: the new state and the notices delivered. */
  function Take(hash: string -> string, st: State, turn: Turn): (State, seq<Notice>) {
    match turn
    case Restart => (st.(runtime := FRESH_RUNTIME), [])
    case Check(x) =>
      var runtime := Begin(st.runtime, x.settings, x.now, x.hour);
      var ev := RoundEvaluation(hash, st, x);
      if x.saves then (State(runtime.(initialized := true, failed := false), Prune(ev.log, x.rules, x.now)), ev.notices)
      else (State(runtime.(initialized := true, failed := true), st.log), [])
  }

  /** The monitor a process keeps; the log field is the file. */
  class AmbientMonitor {
    const hash: string -> string
    var runtime: Runtime
    var log: seq<Entry>

    constructor (hash: string -> string, log: seq<Entry>)
      ensures this.hash == hash && runtime == FRESH_RUNTIME && this.log == log
    {
      this.hash, this.log, runtime := hash, log, FRESH_RUNTIME;
    }

    /** `check_ambient_impl`. */
    method Check(x: Input) returns (alerts: seq<Notice>)
      modifies this
      ensures (State(runtime, log), alerts) == Take(hash, old(State(runtime, log)), Turn.Check(x))
    {
      var quiet := InQuietHours(x.settings.quietHours, x.hour);
      if || (runtime.lastCheck.Some? &&
             (x.now < runtime.lastCheck.value || x.now - runtime.lastCheck.value > 60 * SECOND))
         || (runtime.wasQuiet && !quiet)
      {
        runtime := runtime.(initialized := false);
      }
      runtime := runtime.(lastCheck := Some(x.now), wasQuiet := quiet);
      var next;
      var begin := AfterBudgets(log, x.others);
      alerts, next := Evaluate(hash, x.candidates, x.resolved, x.settings, begin, runtime, x.now, x.hour);
      runtime := runtime.(initialized := true);
      if x.saves {
        log := Prune(next + x.pushed, x.rules, x.now);
        runtime := runtime.(failed := false);
      } else {
        runtime := runtime.(failed := true);
        alerts := [];
      }
    }
  }

  // ----- counting over a run

  function After(hash: string -> string, st: State, turns: seq<Turn>): State {
    if turns == [] then st else Take(hash, After(hash, st, turns[..|turns| - 1]), turns[|turns| - 1]).0
  }

  function Delivered(hash: string -> string, st: State, turns: seq<Turn>, id: string): nat {
    if turns == [] then 0
    else
      var front := turns[..|turns| - 1];
      Delivered(hash, st, front, id) + Count(Take(hash, After(hash, st, front), turns[|turns| - 1]).1, id)
  }

  predicate Resolves(turn: Turn, id: string) {
    turn.Check? && turn.input.saves && id in turn.input.resolved
  }

  /** The saved rounds that report the condition resolved. */
  function Resolutions(turns: seq<Turn>, id: string): nat {
    if turns == [] then 0
    else Resolutions(turns[..|turns| - 1], id) + if Resolves(turns[|turns| - 1], id) then 1 else 0
  }

  /** Pruning drops the entry that arms the condition. */
  predicate Evicts(hash: string -> string, st: State, turn: Turn, id: string) {
    && turn.Check?
    && turn.input.saves
    && var log := RoundEvaluation(hash, st, turn.input).log;
    Armed(log, id) && !Armed(Prune(log, turn.input.rules, turn.input.now), id)
  }

  function Evictions(hash: string -> string, st: State, turns: seq<Turn>, id: string): nat {
    if turns == [] then 0
    else
      var front := turns[..|turns| - 1];
      Evictions(hash, st, front, id) + if Evicts(hash, After(hash, st, front), turns[|turns| - 1], id) then 1 else 0
  }

  predicate OthersApart(turns: seq<Turn>) {
    forall i :: 0 <= i < |turns| && turns[i].Check? ==> Apart(turns[i].input)
  }

  /** What budgets log are not conditions. */
  predicate Apart(x: Input) {
    NoConditions(x.others) && NoConditions(x.pushed)
  }

  predicate NoConditions(log: seq<Entry>) {
    forall i :: 0 <= i < |log| ==> !log[i].key.Condition?
  }

  function ArmedOne(log: seq<Entry>, id: string): nat {
    if Armed(log, id) then 1 else 0
  }

  lemma ArmedConcat(a: seq<Entry>, b: seq<Entry>, id: string)
    ensures Armed(a + b, id) <==> Armed(a, id) || Armed(b, id)
  {
    assert forall i :: 0 <= i < |a| ==> (a + b)[i] == a[i];
    assert forall i :: 0 <= i < |b| ==> (a + b)[|a| + i] == b[i];
  }

  lemma {:induction false} AmbientArmed(log: seq<Entry>, id: string)
    ensures Armed(AmbientPart(log), id) <==> Armed(log, id)
  {
    if log != [] {
      var front, e := log[..|log| - 1], log[|log| - 1];
      assert log == front + [e];
      AmbientArmed(front, id);
      ArmedSnoc(front, e, id);
      ArmedSnoc(AmbientPart(front), e, id);
    }
  }

  lemma {:induction false} AmbientMembers(log: seq<Entry>, e: Entry)
    ensures e in AmbientPart(log) ==> e in log
  {
    if log != [] {
      assert log == log[..|log| - 1] + [log[|log| - 1]];
      AmbientMembers(log[..|log| - 1], e);
    }
  }

  lemma BudgetsMembers(log: seq<Entry>, others: seq<Entry>, e: Entry)
    ensures e in AfterBudgets(log, others) ==> e in log || e in others
  {
    ByKeyMembers(AmbientPart(log) + others, e);
    AmbientMembers(log, e);
  }

  lemma BudgetsKeepArmed(log: seq<Entry>, others: seq<Entry>, id: string)
    requires NoConditions(others)
    ensures Armed(AfterBudgets(log, others), id) <==> Armed(log, id)
  {
    AmbientArmed(log, id);
    ArmedConcat(AmbientPart(log), others, id);
    ByKeyArmed(AmbientPart(log) + others, id);
  }

  /** What one round does to one condition before it is saved. */
  lemma RoundFacts(hash: string -> string, st: State, x: Input, id: string)
    requires Apart(x)
    ensures var ev := RoundEvaluation(hash, st, x);
            var stays := Armed(st.log, id) && id !in x.resolved;
            && (Armed(ev.log, id) <==> stays || Mentioned(hash, Considered(x.candidates), id))
            && Count(ev.notices, id) <= (if !stays && Mentioned(hash, Considered(x.candidates), id) then 1 else 0)
  {
    var setting := Setting(hash, x.settings, Begin(st.runtime, x.settings, x.now, x.hour), x.now, x.hour);
    var log := AfterBudgets(st.log, x.others);
    var begin := Evaluation(Retain(log, x.resolved), []);
    BudgetsKeepArmed(st.log, x.others, id);
    RetainArmed(log, x.resolved, id);
    EvaluateAllFacts(setting, begin, Considered(x.candidates), id);
    ArmedConcat(EvaluateAll(setting, begin, Considered(x.candidates)).log, x.pushed, id);
  }

  /** What one turn does to one condition. */
  lemma TurnFacts(hash: string -> string, st: State, turn: Turn, id: string)
    requires turn.Check? ==> Apart(turn.input)
    ensures var (st', notices) := Take(hash, st, turn);
            Count(notices, id) + ArmedOne(st.log, id) <=
            ArmedOne(st'.log, id) + (if Resolves(turn, id) then 1 else 0) +
            (if Evicts(hash, st, turn, id) then 1 else 0)
  {
    if turn.Check? && turn.input.saves {
      RoundFacts(hash, st, turn.input, id);
      PruneArmed(RoundEvaluation(hash, st, turn.input).log, turn.input.rules, turn.input.now, id);
    }
  }

  /** Deliveries for one condition over any run: at most one, plus one for each time it was resolved,
      plus one for each time pruning forgot it; and an armed condition needs one of those first. */
  lemma {:induction false} DeliveriesAreEdges(hash: string -> string, st: State, turns: seq<Turn>, id: string)
    requires OthersApart(turns)
    ensures Delivered(hash, st, turns, id) + ArmedOne(st.log, id) <=
            ArmedOne(After(hash, st, turns).log, id) + Resolutions(turns, id) + Evictions(hash, st, turns, id)
  {
    if turns != [] {
      var n := |turns| - 1;
      DeliveriesAreEdges(hash, st, turns[..n], id);
      TurnFacts(hash, After(hash, st, turns[..n]), turns[n], id);
    }
  }

  /** From here on the condition is delivered only after a resolution or an eviction, whatever happens. */
  ghost predicate NeverLate(hash: string -> string, st: State, id: string) {
    forall later | OthersApart(later) ::
      Delivered(hash, st, later, id) <= Resolutions(later, id) + Evictions(hash, st, later, id)
  }

  /** A round after a failed save, or a baseline round, delivers nothing. */
  lemma FailureSuppresses(hash: string -> string, st: State, x: Input)
    ensures !x.saves || st.runtime.failed || !st.runtime.initialized ==> Take(hash, st, Check(x)).1 == []
    ensures !x.saves ==> Take(hash, st, Check(x)).0.log == st.log && Take(hash, st, Check(x)).0.runtime.failed
  {
    var setting := Setting(hash, x.settings, Begin(st.runtime, x.settings, x.now, x.hour), x.now, x.hour);
    var begin := Evaluation(Retain(AfterBudgets(st.log, x.others), x.resolved), []);
    EvaluateAllFacts(setting, begin, Considered(x.candidates), "");
  }

  // ----- when pruning forgets a condition

  /** A saved round forgets an armed condition exactly when every entry that arms it is past the
      retention age or has as many newer entries as the log may hold. */
  lemma ForgottenExactlyWhen(hash: string -> string, st: State, x: Input, id: string)
    ensures Evicts(hash, st, Check(x), id) <==>
            && x.saves
            && Armed(RoundEvaluation(hash, st, x).log, id)
            && !Outlasts(RoundEvaluation(hash, st, x).log, x.rules, x.now, id)
  {
    PruneArmed(RoundEvaluation(hash, st, x).log, x.rules, x.now, id);
  }

  /** Within the entry limit, only age makes a saved round forget a condition. */
  lemma ForgottenByAge(hash: string -> string, st: State, x: Input, id: string)
    requires x.saves && |RoundEvaluation(hash, st, x).log| <= MAX_LOG_ENTRIES
    ensures Evicts(hash, st, Check(x), id) <==>
            && Armed(RoundEvaluation(hash, st, x).log, id)
            && !ArmedSince(RoundEvaluation(hash, st, x).log, id, x.now - RETENTION)
  {
    var log := RoundEvaluation(hash, st, x).log;
    ForgottenExactlyWhen(hash, st, x, id);
    ShortLogOutlasts(log, x.rules, x.now, id);
    if e :| e in log && e.key == Condition(id) && x.now - e.firedAt <= RETENTION {
      var i :| 0 <= i < |log| && log[i] == e;
    }
  }

  lemma {:induction false} CandidatesAreRefreshed(x: Setting, e: Evaluation, candidates: seq<Candidate>, id: string)
    requires Mentioned(x.hash, candidates, id)
    ensures ArmedSince(EvaluateAll(x, e, candidates).log, id, x.now)
  {
    var n := |candidates| - 1;
    var front, c := candidates[..n], candidates[n];
    var mid := EvaluateAll(x, e, front);
    var last := EvaluateOne(x, mid, c).log;
    if x.hash(c.key) == id {
      var i := if Armed(mid.log, id) then FirstArmed(mid.log, id) else |mid.log|;
      assert last[i].key == Condition(id) && last[i].firedAt == x.now;
    } else {
      var i :| 0 <= i < |candidates| && x.hash(candidates[i].key) == id;
      assert x.hash(front[i].key) == id;
      CandidatesAreRefreshed(x, e, front, id);
      var j :| 0 <= j < |mid.log| && mid.log[j].key == Condition(id) && mid.log[j].firedAt >= x.now;
      assert last[j] == mid.log[j];
    }
  }

  lemma StillReported(hash: string -> string, st: State, x: Input, id: string)
    requires Mentioned(hash, Considered(x.candidates), id)
    ensures ArmedSince(RoundEvaluation(hash, st, x).log, id, x.now)
  {
    var setting := Setting(hash, x.settings, Begin(st.runtime, x.settings, x.now, x.hour), x.now, x.hour);
    var begin := Evaluation(Retain(AfterBudgets(st.log, x.others), x.resolved), []);
    CandidatesAreRefreshed(setting, begin, Considered(x.candidates), id);
    var log := EvaluateAll(setting, begin, Considered(x.candidates)).log;
    var i :| 0 <= i < |log| && log[i].key == Condition(id) && log[i].firedAt >= x.now;
    assert (log + x.pushed)[i] == log[i];
  }

  /** A condition that is still reported is not forgotten, however old its entry and however full the
      log, unless the entries from now or later and those of rules are more than the log may hold. */
  lemma ActiveIsNotForgotten(hash: string -> string, st: State, x: Input, id: string)
    requires var log := RoundEvaluation(hash, st, x).log;
             CountAfter(Free(log, x.rules), x.now - 1) + |HeldNames(log, x.rules)| <= MAX_LOG_ENTRIES
    requires Mentioned(hash, Considered(x.candidates), id)
    ensures !Evicts(hash, st, Check(x), id)
  {
    StillReported(hash, st, x, id);
    NewStays(RoundEvaluation(hash, st, x).log, x.rules, x.now, id);
  }

  lemma CountUpdate(log: seq<Entry>, i: nat, e: Entry, time: int)
    requires i < |log|
    ensures CountAfter(log[i := e], time) <= CountAfter(log, time) + 1
  {
    assert log == log[..i] + [log[i]] + log[i + 1..] && log[i := e] == log[..i] + [e] + log[i + 1..];
    CountConcat(log[..i] + [log[i]], log[i + 1..], time);
    CountConcat(log[..i], [log[i]], time);
    CountConcat(log[..i] + [e], log[i + 1..], time);
    CountConcat(log[..i], [e], time);
    CountAllOrNone([e], time);
  }

  lemma EvaluateOneAdds(x: Setting, e: Evaluation, c: Candidate)
    ensures CountAfter(EvaluateOne(x, e, c).log, x.now - 1) <= CountAfter(e.log, x.now - 1) + 2
  {
    var id := x.hash(c.key);
    var log' := EvaluateOne(x, e, c).log;
    if Armed(e.log, id) {
      var i := FirstArmed(e.log, id);
      CountUpdate(e.log, i, e.log[i].(firedAt := x.now), x.now - 1);
    } else {
      assert e.log <= log' && |log'| - |e.log| <= 2;
      CountConcat(e.log, log'[|e.log|..], x.now - 1);
      CountAllOrNone(log'[|e.log|..], x.now - 1);
      assert log' == e.log + log'[|e.log|..];
    }
  }

  lemma {:induction false} EvaluateAllAdds(x: Setting, e: Evaluation, candidates: seq<Candidate>)
    ensures CountAfter(EvaluateAll(x, e, candidates).log, x.now - 1) <= CountAfter(e.log, x.now - 1) + 2 * |candidates|
  {
    if candidates != [] {
      var n := |candidates| - 1;
      EvaluateAllAdds(x, e, candidates[..n]);
      EvaluateOneAdds(x, EvaluateAll(x, e, candidates[..n]), candidates[n]);
    }
  }

  lemma {:induction false} RetainCount(log: seq<Entry>, resolved: seq<string>, time: int)
    ensures CountAfter(Retain(log, resolved), time) <= CountAfter(log, time)
  {
    if log != [] {
      var rest, last := Retain(log[..|log| - 1], resolved), log[|log| - 1];
      RetainCount(log[..|log| - 1], resolved, time);
      assert (rest + [last])[..|rest|] == rest;
    }
  }

  lemma AddedCount(x: Setting, candidates: seq<Candidate>, resolved: seq<string>, log: seq<Entry>, pushed: seq<Entry>)
    ensures CountAfter(Evaluated(x, candidates, resolved, log).log + pushed, x.now - 1) <=
            CountAfter(log, x.now - 1) + 2 * MAX_CANDIDATES + |pushed|
  {
    RetainCount(log, resolved, x.now - 1);
    EvaluateAllAdds(x, Evaluation(Retain(log, resolved), []), Considered(candidates));
    CountConcat(Evaluated(x, candidates, resolved, log).log, pushed, x.now - 1);
    CountAllOrNone(pushed, x.now - 1);
  }

  /** How many entries from now or later a round can end with. */
  lemma RoundCount(hash: string -> string, st: State, x: Input)
    ensures CountAfter(RoundEvaluation(hash, st, x).log, x.now - 1) <=
            CountAfter(AfterBudgets(st.log, x.others), x.now - 1) + 2 * MAX_CANDIDATES + |x.pushed|
  {
    var setting := Setting(hash, x.settings, Begin(st.runtime, x.settings, x.now, x.hour), x.now, x.hour);
    AddedCount(setting, x.candidates, x.resolved, AfterBudgets(st.log, x.others), x.pushed);
  }

  /** In particular it is not forgotten while the entries from now or later, those pushed after it and the
      rules leave room for a round's worth of candidates. */
  lemma ActiveSurvives(hash: string -> string, st: State, x: Input, id: string)
    requires Mentioned(hash, Considered(x.candidates), id)
    requires CountAfter(AfterBudgets(st.log, x.others), x.now - 1) + |x.pushed| + |x.rules| + 2 * MAX_CANDIDATES <=
             MAX_LOG_ENTRIES
    ensures !Evicts(hash, st, Check(x), id)
  {
    var log := RoundEvaluation(hash, st, x).log;
    RoundCount(hash, st, x);
    FreeCount(log, x.rules, x.now - 1);
    SubsetCount(HeldNames(log, x.rules), x.rules);
    ActiveIsNotForgotten(hash, st, x, id);
  }

  // ----- when a condition can be delivered late

  function At(now: int, candidates: seq<Candidate>, saves: bool): Turn {
    Check(Input(now, 12, Settings(true, None), candidates, [], [], [], {}, saves))
  }

  /** A report of a condition, observed when it is checked. */
  function Report(key: string, now: int, enabled: bool): Candidate {
    Candidate(key, "observed", now, 12, enabled, true)
  }

  const EMPTY := State(FRESH_RUNTIME, [])

  lemma BeginMembers(st: State, others: seq<Entry>, resolved: seq<string>, e: Entry)
    ensures e in Retain(AfterBudgets(st.log, others), resolved) ==> e in st.log || e in others
  {
    RetainMembers(AfterBudgets(st.log, others), resolved, e);
    BudgetsMembers(st.log, others, e);
  }

  /** After a saved round outside quiet hours. */
  predicate Awake(st: State, now: int) {
    st.runtime == Runtime(true, false, Some(now), false)
  }

  /** A round with no candidates adds nothing to the log. */
  lemma IdleRound(hash: string -> string, st: State, now: int)
    ensures var (st', notices) := Take(hash, st, At(now, [], true));
            && notices == []
            && (forall e :: e in st'.log ==> e in st.log && now - e.firedAt <= RETENTION)
            && Awake(st', now)
  {
    var log := RoundEvaluation(hash, st, At(now, [], true).input).log;
    PruneMembers(log, {}, now);
    assert log == Retain(AfterBudgets(st.log, []), []) + [];
    forall e | e in log ensures e in st.log { BeginMembers(st, [], [], e); }
  }

  lemma NotArmedWithout(log: seq<Entry>, id: string)
    requires forall e :: e in log ==> e.key != Condition(id)
    ensures !Armed(log, id)
  {
  }

  /** Evaluating one deliverable candidate gives one notice exactly when its condition is not armed. */
  lemma OneReport(x: Setting, log: seq<Entry>, key: string)
    requires x.runtime.initialized && !x.runtime.failed && x.settings == Settings(true, None)
    ensures var id := x.hash(key);
            var ev := EvaluateAll(x, Evaluation(log, []), [Report(key, x.now, true)]);
            && Count(ev.notices, id) == (if Armed(log, id) then 0 else 1)
            && |ev.log| <= |log| + 2
            && forall e :: e in ev.log ==> e in log || e.firedAt == x.now
  {
  }

  /** A round with one deliverable candidate delivers it exactly when its condition is not armed. */
  lemma ReportRound(hash: string -> string, st: State, now: int, key: string)
    requires Awake(st, now)
    ensures var (st', notices) := Take(hash, st, At(now, [Report(key, now, true)], true));
            && Count(notices, hash(key)) == (if Armed(st.log, hash(key)) then 0 else 1)
            && (forall e :: e in st'.log ==> e in st.log || e.firedAt == now)
            && Awake(st', now)
  {
    var id := hash(key);
    var x := At(now, [Report(key, now, true)], true).input;
    var setting := Setting(hash, x.settings, Begin(st.runtime, x.settings, now, 12), now, 12);
    BudgetsKeepArmed(st.log, [], id);
    RetainArmed(AfterBudgets(st.log, []), [], id);
    OneReport(setting, Retain(AfterBudgets(st.log, []), []), key);
    var log := RoundEvaluation(hash, st, x).log;
    PruneMembers(log, {}, now);
    forall e | e in log ensures e in st.log || e.firedAt == now { BeginMembers(st, [], [], e); }
  }

  lemma OneMore(hash: string -> string, st: State, front: seq<Turn>, t: Turn)
    ensures After(hash, st, front + [t]) == Take(hash, After(hash, st, front), t).0
  {
    assert (front + [t])[..|front|] == front;
  }

  lemma DeliveredOne(hash: string -> string, st: State, front: seq<Turn>, t: Turn, id: string)
    ensures Delivered(hash, st, front + [t], id) ==
            Delivered(hash, st, front, id) + Count(Take(hash, After(hash, st, front), t).1, id)
  {
    assert (front + [t])[..|front|] == front;
  }

  lemma ResolutionsOne(front: seq<Turn>, t: Turn, id: string)
    ensures Resolutions(front + [t], id) == Resolutions(front, id) + if Resolves(t, id) then 1 else 0
  {
    assert (front + [t])[..|front|] == front;
  }

  lemma EvictionsOne(hash: string -> string, st: State, front: seq<Turn>, t: Turn, id: string)
    ensures Evictions(hash, st, front + [t], id) ==
            Evictions(hash, st, front, id) + if Evicts(hash, After(hash, st, front), t, id) then 1 else 0
  {
    assert (front + [t])[..|front|] == front;
  }

  /** A run in two parts. */
  lemma {:induction false} AfterParts(hash: string -> string, st: State, a: seq<Turn>, b: seq<Turn>)
    ensures After(hash, st, a + b) == After(hash, After(hash, st, a), b)
  {
    if b == [] {
      assert a + b == a;
    } else {
      var front, t := b[..|b| - 1], b[|b| - 1];
      AfterParts(hash, st, a, front);
      OneMore(hash, st, a + front, t);
      assert b == front + [t] && a + front + [t] == a + b;
    }
  }

  lemma {:induction false} DeliveredParts(hash: string -> string, st: State, a: seq<Turn>, b: seq<Turn>, id: string)
    ensures Delivered(hash, st, a + b, id) == Delivered(hash, st, a, id) + Delivered(hash, After(hash, st, a), b, id)
  {
    if b == [] {
      assert a + b == a;
    } else {
      var front, t := b[..|b| - 1], b[|b| - 1];
      DeliveredParts(hash, st, a, front, id);
      AfterParts(hash, st, a, front);
      DeliveredOne(hash, st, a + front, t, id);
      assert b == front + [t] && a + front + [t] == a + b;
    }
  }

  lemma {:induction false} ResolutionsParts(a: seq<Turn>, b: seq<Turn>, id: string)
    ensures Resolutions(a + b, id) == Resolutions(a, id) + Resolutions(b, id)
  {
    if b == [] {
      assert a + b == a;
    } else {
      var front, t := b[..|b| - 1], b[|b| - 1];
      ResolutionsParts(a, front, id);
      ResolutionsOne(a + front, t, id);
      assert b == front + [t] && a + front + [t] == a + b;
    }
  }

  /** A time by which everything in the log is past retention. */
  function Eventually(log: seq<Entry>): (time: int)
    ensures forall e :: e in log ==> time - e.firedAt > RETENTION
  {
    if log == [] then 0
    else
      var n := |log| - 1;
      var rest, last := Eventually(log[..n]), log[n].firedAt + RETENTION + 1;
      assert log == log[..n] + [log[n]];
      if rest >= last then rest else last
  }

  lemma EmptyWithout(log: seq<Entry>)
    ensures (forall e :: e !in log) ==> log == []
  {
    assert log != [] ==> log[0] in log;
  }

  /** One turn's successor, with the number of notices for a condition that the turn does not resolve. */
  predicate Leads(hash: string -> string, st: State, turn: Turn, st': State, delivered: nat, id: string) {
    Take(hash, st, turn).0 == st' && Count(Take(hash, st, turn).1, id) == delivered && !Resolves(turn, id)
  }

  lemma IdleTurn(hash: string -> string, st: State, now: int, id: string) returns (st': State)
    ensures Leads(hash, st, At(now, [], true), st', 0, id)
    ensures Awake(st', now)
    ensures forall e :: e in st'.log ==> e in st.log && now - e.firedAt <= RETENTION
  {
    IdleRound(hash, st, now);
    st' := Take(hash, st, At(now, [], true)).0;
  }

  lemma ReportTurn(hash: string -> string, st: State, now: int, key: string) returns (st': State)
    requires Awake(st, now)
    requires forall e :: e in st.log ==> e.key != Condition(hash(key))
    ensures Leads(hash, st, At(now, [Report(key, now, true)], true), st', 1, hash(key))
    ensures Awake(st', now)
    ensures forall e :: e in st'.log ==> e in st.log || e.firedAt == now
  {
    NotArmedWithout(st.log, hash(key));
    ReportRound(hash, st, now, key);
    st' := Take(hash, st, At(now, [Report(key, now, true)], true)).0;
  }

  lemma UnsavedTurn(hash: string -> string, st: State, now: int, c: Candidate, id: string) returns (st': State)
    ensures Leads(hash, st, At(now, [c], false), st', 0, id)
    ensures st'.log == st.log
  {
    st' := Take(hash, st, At(now, [c], false)).0;
  }

  /** Two turns and what they deliver. */
  lemma TwoTurns(hash: string -> string, st: State, a: Turn, b: Turn, st1: State, st2: State, m: nat, n: nat,
                 id: string)
    requires Leads(hash, st, a, st1, m, id) && Leads(hash, st1, b, st2, n, id)
    ensures After(hash, st, [a, b]) == st2
    ensures Delivered(hash, st, [a, b], id) == m + n && Resolutions([a, b], id) == 0
  {
    assert [] + [a] == [a] && [a] + [b] == [a, b];
    OneMore(hash, st, [], a);
    OneMore(hash, st, [a], b);
    DeliveredOne(hash, st, [], a, id);
    DeliveredOne(hash, st, [a], b, id);
    ResolutionsOne([], a, id);
    ResolutionsOne([a], b, id);
  }

  function IdleThenReport(now: int, key: string): (turns: seq<Turn>)
    ensures |turns| == 2 && OthersApart(turns)
  {
    [At(now, [], true), At(now, [Report(key, now, true)], true)]
  }

  /** An idle round long after everything in the log, then a report: delivered once. */
  lemma LateReport(hash: string -> string, st: State, now: int, key: string) returns (st': State)
    requires forall e :: e in st.log ==> now - e.firedAt > RETENTION
    ensures After(hash, st, IdleThenReport(now, key)) == st'
    ensures Delivered(hash, st, IdleThenReport(now, key), hash(key)) == 1
    ensures Resolutions(IdleThenReport(now, key), hash(key)) == 0
    ensures forall e :: e in st'.log ==> e.firedAt == now
  {
    var turns := IdleThenReport(now, key);
    var st1 := IdleTurn(hash, st, now, hash(key));
    st' := ReportTurn(hash, st1, now, key);
    TwoTurns(hash, st, turns[0], turns[1], st1, st', 0, 1, hash(key));
  }

  /** An idle round late enough empties the log; a condition that is not armed is not evicted by it. */
  lemma IdleRoundEmpties(hash: string -> string, st: State, now: int, id: string)
    requires !Armed(st.log, id) && forall e :: e in st.log ==> now - e.firedAt > RETENTION
    ensures Take(hash, st, At(now, [], true)).0.log == []
    ensures !Evicts(hash, st, At(now, [], true), id)
  {
    IdleRound(hash, st, now);
    var log := Take(hash, st, At(now, [], true)).0.log;
    EmptyWithout(log);
    RoundFacts(hash, st, At(now, [], true).input, id);
  }

  lemma ReportNotEvicted(hash: string -> string, st: State, now: int, key: string)
    requires st.log == []
    ensures !Evicts(hash, st, At(now, [Report(key, now, true)], true), hash(key))
  {
    var x := At(now, [Report(key, now, true)], true).input;
    assert Considered(x.candidates)[0] == Report(key, now, true);
    ActiveSurvives(hash, st, x, hash(key));
  }

  lemma LateReportEvictsNothing(hash: string -> string, st: State, now: int, key: string)
    requires !Armed(st.log, hash(key)) && forall e :: e in st.log ==> now - e.firedAt > RETENTION
    ensures Evictions(hash, st, IdleThenReport(now, key), hash(key)) == 0
  {
    var idle, report := At(now, [], true), At(now, [Report(key, now, true)], true);
    IdleRoundEmpties(hash, st, now, hash(key));
    ReportNotEvicted(hash, Take(hash, st, idle).0, now, key);
    OneMore(hash, st, [], idle);
    EvictionsOne(hash, st, [], idle, hash(key));
    EvictionsOne(hash, st, [idle], report, hash(key));
    assert [] + [idle] == [idle] && [idle] + [report] == IdleThenReport(now, key);
  }

  /** From every state in which the condition is not armed, it can be delivered without a resolution or an eviction. */
  lemma UnarmedCanBeLate(hash: string -> string, st: State, key: string) returns (later: seq<Turn>)
    requires !Armed(st.log, hash(key))
    ensures OthersApart(later) && Delivered(hash, st, later, hash(key)) == 1
    ensures Resolutions(later, hash(key)) == 0 && Evictions(hash, st, later, hash(key)) == 0
  {
    var now := Eventually(st.log);
    later := IdleThenReport(now, key);
    var _ := LateReport(hash, st, now, key);
    LateReportEvictsNothing(hash, st, now, key);
  }

  /** A condition is safe from late delivery exactly when it is armed. */
  lemma NeverLateExactlyWhen(hash: string -> string, st: State, key: string)
    ensures NeverLate(hash, st, hash(key)) <==> Armed(st.log, hash(key))
  {
    var id := hash(key);
    if Armed(st.log, id) {
      forall later | OthersApart(later)
        ensures Delivered(hash, st, later, id) <= Resolutions(later, id) + Evictions(hash, st, later, id)
      {
        DeliveriesAreEdges(hash, st, later, id);
      }
    } else {
      var later := UnarmedCanBeLate(hash, st, key);
    }
  }

  /** After a round that reports a condition, suppressed or not, it is safe from late delivery exactly when
      the round was saved and the entry outlasts, or it was not saved and the condition was armed before. */
  lemma ConsumedExactlyWhen(hash: string -> string, st: State, x: Input, key: string)
    requires Apart(x) && Mentioned(hash, Considered(x.candidates), hash(key))
    ensures NeverLate(hash, Take(hash, st, Check(x)).0, hash(key)) <==>
            if x.saves then Outlasts(RoundEvaluation(hash, st, x).log, x.rules, x.now, hash(key))
            else Armed(st.log, hash(key))
  {
    NeverLateExactlyWhen(hash, Take(hash, st, Check(x)).0, key);
    PruneArmed(RoundEvaluation(hash, st, x).log, x.rules, x.now, hash(key));
    RoundFacts(hash, st, x, hash(key));
  }

  /** Rounds that are not saved, and restarts. */
  predicate Unsaved(turns: seq<Turn>) {
    forall i :: 0 <= i < |turns| ==> turns[i].Restart? || !turns[i].input.saves
  }

  lemma {:induction false} UnsavedChangesNothing(hash: string -> string, st: State, turns: seq<Turn>, id: string)
    requires Unsaved(turns)
    ensures After(hash, st, turns).log == st.log && Delivered(hash, st, turns, id) == 0
    ensures turns != [] ==> var r := After(hash, st, turns).runtime; r.failed || !r.initialized
  {
    if turns != [] {
      var n := |turns| - 1;
      UnsavedChangesNothing(hash, st, turns[..n], id);
      if turns[n].Check? {
        FailureSuppresses(hash, After(hash, st, turns[..n]), turns[n].input);
      }
    }
  }

  /** Rounds that fail to save, then a saved round that still reports the condition: nothing was delivered,
      and nothing will be delivered late. */
  lemma FailuresThenReported(hash: string -> string, st: State, failed: seq<Turn>, x: Input, key: string)
    requires failed != [] && Unsaved(failed)
    requires x.saves && Apart(x) && Mentioned(hash, Considered(x.candidates), hash(key))
    requires Outlasts(RoundEvaluation(hash, After(hash, st, failed), x).log, x.rules, x.now, hash(key))
    ensures Delivered(hash, st, failed + [Check(x)], hash(key)) == 0
    ensures NeverLate(hash, After(hash, st, failed + [Check(x)]), hash(key))
  {
    var id, mid := hash(key), After(hash, st, failed);
    UnsavedChangesNothing(hash, st, failed, id);
    FailureSuppresses(hash, mid, x);
    OneMore(hash, st, failed, Check(x));
    DeliveredOne(hash, st, failed, Check(x), id);
    ConsumedExactlyWhen(hash, mid, x, key);
  }

  // ----- two runs that deliver without a resolution

  /** The bound of one plus the resolutions alone is false: from any time, a condition that is neither
      reported nor resolved for more than thirty days is forgotten and delivered again. */
  lemma ForgottenConditionRepeats(hash: string -> string, key: string, now: int)
    ensures var turns := IdleThenReport(now, key) + IdleThenReport(now + RETENTION + SECOND, key);
            Delivered(hash, EMPTY, turns, hash(key)) == 2 && Resolutions(turns, hash(key)) == 0
  {
    var later := now + RETENTION + SECOND;
    var st := LateReport(hash, EMPTY, now, key);
    var st' := LateReport(hash, st, later, key);
    DeliveredParts(hash, EMPTY, IdleThenReport(now, key), IdleThenReport(later, key), hash(key));
    ResolutionsParts(IdleThenReport(now, key), IdleThenReport(later, key), hash(key));
  }

  /** A round that checks nothing, then one that fails to save while the condition is suppressed. */
  function SuppressedUnsaved(key: string, now: int): (turns: seq<Turn>)
    ensures |turns| == 2
  {
    [At(now, [], true), At(now + SECOND, [Report(key, now + SECOND, false)], false)]
  }

  lemma NothingDelivered(hash: string -> string, now: int, key: string) returns (st': State)
    ensures After(hash, EMPTY, SuppressedUnsaved(key, now)) == st' && st'.log == []
    ensures Delivered(hash, EMPTY, SuppressedUnsaved(key, now), hash(key)) == 0
    ensures Resolutions(SuppressedUnsaved(key, now), hash(key)) == 0
  {
    var turns := SuppressedUnsaved(key, now);
    var st1 := IdleTurn(hash, EMPTY, now, hash(key));
    EmptyWithout(st1.log);
    st' := UnsavedTurn(hash, st1, now + SECOND, Report(key, now + SECOND, false), hash(key));
    TwoTurns(hash, EMPTY, turns[0], turns[1], st1, st', 0, 0, hash(key));
  }

  /** A condition first seen while suppressed, in a round that fails to save, can be delivered late. */
  lemma UnsavedSuppressionIsLost(hash: string -> string, key: string, now: int)
    ensures var turns := SuppressedUnsaved(key, now) + IdleThenReport(now + 2 * SECOND, key);
            Delivered(hash, EMPTY, turns, hash(key)) == 1 && Resolutions(turns, hash(key)) == 0
  {
    var st := NothingDelivered(hash, now, key);
    var st' := LateReport(hash, st, now + 2 * SECOND, key);
    DeliveredParts(hash, EMPTY, SuppressedUnsaved(key, now), IdleThenReport(now + 2 * SECOND, key), hash(key));
    ResolutionsParts(SuppressedUnsaved(key, now), IdleThenReport(now + 2 * SECOND, key), hash(key));
  }
}
