/**
 Which notices an ambient evaluation delivers (src-tauri/src/ambient.rs, `evaluate`) and which of them a
 round publishes (src-tauri/src/commands.rs, `check_ambient_impl`), candidate by candidate.
 */
module AmbientNotices {
  import opened Prelude
  import opened Ambient
  import opened AmbientRuns

  // ----- quiet hours, on the clock face

  /** The hours from the first up to the second, going round the clock. */
  predicate WithinHours(range: (nat, nat), hour: nat) {
    (hour - range.0) % 24 < (range.1 - range.0) % 24
  }

  predicate Disturbs(settings: Settings, hour: nat) {
    settings.quietHours.Some? && WithinHours(settings.quietHours.value, hour)
  }

  predicate HoursOfDay(settings: Settings, candidates: seq<Candidate>, hour: nat) {
    && hour < 24
    && (settings.quietHours.Some? ==> settings.quietHours.value.0 < 24 && settings.quietHours.value.1 < 24)
    && forall i :: 0 <= i < |candidates| ==> candidates[i].observedHour < 24
  }

  lemma Mod24(n: int)
    requires -24 < n < 24
    ensures n % 24 == if n < 0 then n + 24 else n
  {
  }

  /** The test on hours is the clock face, also past midnight and for an empty range. */
  lemma QuietHoursAre(settings: Settings, hour: nat)
    requires HoursOfDay(settings, [], hour)
    ensures InQuietHours(settings.quietHours, hour) <==> Disturbs(settings, hour)
  {
    if settings.quietHours.Some? {
      var (start, end) := settings.quietHours.value;
      Mod24(hour - start);
      Mod24(end - start);
    }
  }

  // ----- one evaluation

  /** Nothing speaks against delivering this candidate: notifications are on, neither it nor the clock is in
      quiet hours, and it is enabled, fresh and not from the future. */
  predicate Deliverable(x: Setting, c: Candidate) {
    && x.settings.enabled && !Disturbs(x.settings, x.hour) && !Disturbs(x.settings, c.observedHour)
    && c.enabled && c.isFresh && c.observedAt <= x.now
  }

  /** Candidate `i` is the first of a condition that is not armed, and can be delivered. */
  predicate Announces(x: Setting, log: seq<Entry>, cs: seq<Candidate>, i: nat) {
    && i < |cs| && Deliverable(x, cs[i])
    && !Armed(log, x.hash(cs[i].key))
    && forall j :: 0 <= j < i ==> x.hash(cs[j].key) != x.hash(cs[i].key)
  }

  function NoticeOn(x: Setting, c: Candidate): Notice {
    Notice(x.hash(c.key), c.code, c.observedAt, x.now)
  }

  /** The notices are about the candidates at these positions, one each and in order. */
  predicate AreAbout(x: Setting, cs: seq<Candidate>, notices: seq<Notice>, at: seq<nat>) {
    && |notices| == |at|
    && (forall k, l :: 0 <= k < l < |at| ==> at[k] < at[l])
    && forall k :: 0 <= k < |at| ==> at[k] < |cs| && notices[k] == NoticeOn(x, cs[at[k]])
  }

  /** They are the notices of exactly the candidates that announce something. */
  ghost predicate Delivers(x: Setting, log: seq<Entry>, cs: seq<Candidate>, notices: seq<Notice>, at: seq<nat>) {
    AreAbout(x, cs, notices, at) && forall i: nat :: i in at <==> Announces(x, log, cs, i)
  }

  lemma SuppressedUnless(x: Setting, c: Candidate)
    requires HoursOfDay(x.settings, [c], x.hour)
    ensures Suppressed(c, x.settings, x.runtime, x.now, x.hour) <==>
            !x.runtime.initialized || x.runtime.failed || !Deliverable(x, c)
  {
    assert [c][0] == c;
    QuietHoursAre(x.settings, x.hour);
    QuietHoursAre(x.settings, c.observedHour);
  }

  lemma AnnouncesBefore(x: Setting, log: seq<Entry>, front: seq<Candidate>, c: Candidate, i: nat)
    requires i < |front|
    ensures Announces(x, log, front + [c], i) <==> Announces(x, log, front, i)
  {
    assert forall j :: 0 <= j < |front| ==> (front + [c])[j] == front[j];
  }

  lemma AnnouncesLast(x: Setting, log: seq<Entry>, front: seq<Candidate>, c: Candidate)
    ensures Announces(x, log, front + [c], |front|) <==>
            Deliverable(x, c) && !Armed(log, x.hash(c.key)) && !Mentioned(x.hash, front, x.hash(c.key))
  {
    var all := front + [c];
    assert all[|front|] == c && forall j :: 0 <= j < |front| ==> all[j] == front[j];
  }

  lemma OneMoreAbout(x: Setting, front: seq<Candidate>, c: Candidate, notices: seq<Notice>, at: seq<nat>)
    requires AreAbout(x, front, notices, at)
    ensures AreAbout(x, front + [c], notices, at)
    ensures AreAbout(x, front + [c], notices + [NoticeOn(x, c)], at + [|front|])
  {
    assert (front + [c])[|front|] == c && forall j :: 0 <= j < |front| ==> (front + [c])[j] == front[j];
  }

  lemma OneMoreDelivery(x: Setting, log: seq<Entry>, front: seq<Candidate>, c: Candidate, notices: seq<Notice>,
                        at: seq<nat>)
    requires Delivers(x, log, front, notices, at)
    ensures if Announces(x, log, front + [c], |front|)
            then Delivers(x, log, front + [c], notices + [NoticeOn(x, c)], at + [|front|])
            else Delivers(x, log, front + [c], notices, at)
  {
    OneMoreAbout(x, front, c, notices, at);
    forall i: nat | i != |front| ensures i in at <==> Announces(x, log, front + [c], i) {
      if i < |front| { AnnouncesBefore(x, log, front, c, i); }
    }
  }

  /** The evaluation of candidates over a log delivers exactly the first mention of every condition that is not
      armed and can be delivered, in order; a baseline, or one after a failed save, delivers nothing. */
  lemma {:induction false} EvaluationDelivers(x: Setting, log: seq<Entry>, cs: seq<Candidate>) returns (at: seq<nat>)
    requires HoursOfDay(x.settings, cs, x.hour) && x.runtime.initialized && !x.runtime.failed
    ensures Delivers(x, log, cs, EvaluateAll(x, Evaluation(log, []), cs).notices, at)
  {
    if cs == [] {
      at := [];
    } else {
      var n := |cs| - 1;
      var front, c := cs[..n], cs[n];
      var mid := EvaluateAll(x, Evaluation(log, []), front);
      assert cs == front + [c];
      at := EvaluationDelivers(x, log, front);
      EvaluateAllFacts(x, Evaluation(log, []), front, x.hash(c.key));
      assert HoursOfDay(x.settings, [c], x.hour);
      SuppressedUnless(x, c);
      AnnouncesLast(x, log, front, c);
      var more := !Armed(mid.log, x.hash(c.key)) && Deliverable(x, c);
      OneMoreDelivery(x, log, front, c, mid.notices, at);
      at := if more then at + [n] else at;
    }
  }

  /** What `evaluate` delivers. */
  lemma NoticesExactly(x: Setting, candidates: seq<Candidate>, resolved: seq<string>, log: seq<Entry>)
    returns (at: seq<nat>)
    requires HoursOfDay(x.settings, candidates, x.hour)
    ensures var notices := Evaluated(x, candidates, resolved, log).notices;
            if x.runtime.initialized && !x.runtime.failed then
              Delivers(x, Retain(log, resolved), FirstHundred(candidates), notices, at)
            else notices == []
  {
    var cs, kept := FirstHundred(candidates), Retain(log, resolved);
    assert Considered(candidates) == cs;
    if x.runtime.initialized && !x.runtime.failed {
      at := EvaluationDelivers(x, kept, cs);
    } else {
      at := [];
      EvaluateAllFacts(x, Evaluation(kept, []), cs, "");
    }
  }

  // ----- what the log says afterwards

  /** The notice is on the log as recent. */
  predicate Logged(log: seq<Entry>, n: Notice) {
    Entry(Recent(n.condition, n.deliveredAt / MILLISECOND), n.deliveredAt, Some(n)) in log
  }

  lemma OneKeeps(x: Setting, e: Evaluation, c: Candidate, entry: Entry)
    requires entry in e.log && entry.key != Condition(x.hash(c.key))
    ensures entry in EvaluateOne(x, e, c).log
  {
    var i :| 0 <= i < |e.log| && e.log[i] == entry;
    assert EvaluateOne(x, e, c).log[i] == entry;
  }

  /** Every notice delivered is logged as recent, and an entry that is not about a candidate's condition stays. */
  lemma {:induction false} NoticesAreLogged(x: Setting, log: seq<Entry>, cs: seq<Candidate>)
    ensures var ev := EvaluateAll(x, Evaluation(log, []), cs);
            && (forall n :: n in ev.notices ==> n.deliveredAt == x.now && Logged(ev.log, n))
            && (forall e :: e in log && !(e.key.Condition? && Mentioned(x.hash, cs, e.key.id)) ==> e in ev.log)
  {
    if cs != [] {
      var n := |cs| - 1;
      var front, c := cs[..n], cs[n];
      var mid, ev := EvaluateAll(x, Evaluation(log, []), front), EvaluateAll(x, Evaluation(log, []), cs);
      assert cs == front + [c];
      NoticesAreLogged(x, log, front);
      forall m | m in ev.notices ensures m.deliveredAt == x.now && Logged(ev.log, m) {
        if m in mid.notices {
          OneKeeps(x, mid, c, Entry(Recent(m.condition, m.deliveredAt / MILLISECOND), m.deliveredAt, Some(m)));
        }
      }
      forall e | e in log && !(e.key.Condition? && Mentioned(x.hash, cs, e.key.id)) ensures e in ev.log {
        if e.key.Condition? { MentionedOne(x.hash, front, c, e.key.id); }
        OneKeeps(x, mid, c, e);
      }
    }
  }

  function FirstHundred(candidates: seq<Candidate>): seq<Candidate> {
    candidates[..if |candidates| < 100 then |candidates| else 100]
  }

  // ----- one round

  /** The round is no baseline: the process has checked before, at most a minute ago and not later than now,
      its last save succeeded, and quiet hours have not just ended. */
  predicate Attentive(runtime: Runtime, x: Input) {
    && runtime.initialized && !runtime.failed
    && (runtime.lastCheck.Some? ==> 0 <= x.now - runtime.lastCheck.value <= 60 * SECOND)
    && (runtime.wasQuiet ==> Disturbs(x.settings, x.hour))
  }

  lemma SameDeliveries(x: Setting, x': Setting, log: seq<Entry>, log': seq<Entry>, cs: seq<Candidate>,
                       notices: seq<Notice>, at: seq<nat>)
    requires x' == x.(runtime := x'.runtime) && forall id :: Armed(log, id) <==> Armed(log', id)
    requires Delivers(x, log, cs, notices, at)
    ensures Delivers(x', log', cs, notices, at)
  {
    forall i: nat ensures Announces(x', log', cs, i) <==> Announces(x, log, cs, i) {
    }
  }

  /** A round publishes exactly what its evaluation delivers, if it is attentive and saved, and otherwise
      nothing; whether a condition is armed is read off the log on file. */
  lemma AlertsExactly(hash: string -> string, st: State, x: Input) returns (at: seq<nat>)
    requires HoursOfDay(x.settings, x.candidates, x.hour) && NoConditions(x.others)
    ensures var alerts := Take(hash, st, Check(x)).1;
            if x.saves && Attentive(st.runtime, x) then
              Delivers(Setting(hash, x.settings, st.runtime, x.now, x.hour), Retain(st.log, x.resolved),
                       FirstHundred(x.candidates), alerts, at)
            else alerts == []
  {
    QuietHoursAre(x.settings, x.hour);
    var runtime := Begin(st.runtime, x.settings, x.now, x.hour);
    var setting := Setting(hash, x.settings, runtime, x.now, x.hour);
    var log := AfterBudgets(st.log, x.others);
    at := NoticesExactly(setting, x.candidates, x.resolved, log);
    if x.saves && Attentive(st.runtime, x) {
      forall id ensures Armed(Retain(log, x.resolved), id) <==> Armed(Retain(st.log, x.resolved), id) {
        BudgetsKeepArmed(st.log, x.others, id);
        RetainArmed(log, x.resolved, id);
        RetainArmed(st.log, x.resolved, id);
      }
      SameDeliveries(setting, setting.(runtime := st.runtime), Retain(log, x.resolved), Retain(st.log, x.resolved),
                     FirstHundred(x.candidates), Take(hash, st, Check(x)).1, at);
    }
  }

  /** The runtime a round leaves, and the settings it was quiet under. */
  lemma RuntimeAfter(hash: string -> string, st: State, x: Input)
    requires HoursOfDay(x.settings, [], x.hour)
    ensures Take(hash, st, Check(x)).0.runtime ==
            Runtime(true, !x.saves, Some(x.now), Disturbs(x.settings, x.hour))
  {
    QuietHoursAre(x.settings, x.hour);
  }
}
