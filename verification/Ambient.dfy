/**
 Ambient notices (src-tauri/src/ambient.rs), the round that drives them
 (src-tauri/src/commands.rs, `check_ambient_impl`) and the pruning of the
 persisted log (src-tauri/src/quota_store.rs, `prune_log`).
 Time is an integer number of nanoseconds.
 */
module Ambient {
  import opened Prelude

  const RETENTION := 30 * 24 * 3600 * SECOND
  const MAX_LOG_ENTRIES := 500
  const MAX_CANDIDATES := 100

  /** The textual dedup keys, by their three disjoint formats. */
  datatype LogKey = Condition(id: string) | Recent(id: string, ms: int) | Other(name: string)

  function Digits(n: nat): string {
    (if n < 10 then "" else Digits(n / 10)) + ["0123456789"[n % 10]]
  }

  /** The key as text; conditions are named by their text. */
  function Text(key: LogKey): string {
    match key
    case Condition(id) => id
    case Recent(id, ms) => "@ambient/recent/" + id + "/" + if ms < 0 then "-" + Digits(-ms) else Digits(ms)
    case Other(name) => name
  }

  datatype Notice = Notice(condition: string, code: string, observedAt: int, deliveredAt: int)

  datatype Entry = Entry(key: LogKey, firedAt: int, notice: Option<Notice>)

  datatype Candidate = Candidate(key: string, code: string, observedAt: int, observedHour: nat, enabled: bool,
                                 isFresh: bool)

  datatype Settings = Settings(enabled: bool, quietHours: Option<(nat, nat)>)

  /** `failed` is whether the last save failed. */
  datatype Runtime = Runtime(initialized: bool, failed: bool, lastCheck: Option<int>, wasQuiet: bool)

  const FRESH_RUNTIME := Runtime(false, false, None, false)

  predicate InQuietHours(range: Option<(nat, nat)>, hour: nat) {
    match range
    case None => false
    case Some((start, end)) =>
      if start == end then false
      else if start < end then start <= hour < end
      else hour >= start || hour < end
  }

  predicate Suppressed(c: Candidate, settings: Settings, runtime: Runtime, now: int, hour: nat) {
    || !runtime.initialized
    || runtime.failed
    || !settings.enabled
    || InQuietHours(settings.quietHours, hour)
    || InQuietHours(settings.quietHours, c.observedHour)
    || !c.enabled
    || !c.isFresh
    || c.observedAt > now
  }

  // ----- one evaluation

  /** The log still has a condition armed. */
  predicate Armed(log: seq<Entry>, id: string) {
    exists i :: 0 <= i < |log| && log[i].key == Condition(id)
  }

  predicate ArmedSince(log: seq<Entry>, id: string, time: int) {
    exists i :: 0 <= i < |log| && log[i].key == Condition(id) && log[i].firedAt >= time
  }

  /** Drops the entries of resolved conditions. */
  function Retain(log: seq<Entry>, resolved: seq<string>): seq<Entry> {
    if log == [] then []
    else
      var rest, e := Retain(log[..|log| - 1], resolved), log[|log| - 1];
      if e.key.Condition? && e.key.id in resolved then rest else rest + [e]
  }

  /** Index of the first entry that arms a condition. */
  function FirstArmed(log: seq<Entry>, id: string): (i: nat)
    requires Armed(log, id)
    ensures i < |log| && log[i].key == Condition(id)
    ensures forall j :: 0 <= j < i ==> log[j].key != Condition(id)
  {
    if log[0].key == Condition(id) then 0 else
      assert Armed(log[1..], id) by {
        var k :| 0 <= k < |log| && log[k].key == Condition(id);
        assert log[1..][k - 1].key == Condition(id);
      }
      1 + FirstArmed(log[1..], id)
  }

  datatype Evaluation = Evaluation(log: seq<Entry>, notices: seq<Notice>)

  /** The surroundings of one evaluation; `hash` names conditions in the log. */
  datatype Setting = Setting(hash: string -> string, settings: Settings, runtime: Runtime, now: int, hour: nat)

  function EvaluateOne(x: Setting, e: Evaluation, c: Candidate): Evaluation {
    var id := x.hash(c.key);
    if Armed(e.log, id) then
      var i := FirstArmed(e.log, id);
      e.(log := e.log[i := e.log[i].(firedAt := x.now)])
    else
      var armed := e.log + [Entry(Condition(id), x.now, None)];
      if Suppressed(c, x.settings, x.runtime, x.now, x.hour) then e.(log := armed)
      else
        var notice := Notice(id, c.code, c.observedAt, x.now);
        Evaluation(armed + [Entry(Recent(id, x.now / MILLISECOND), x.now, Some(notice))], e.notices + [notice])
  }

  function EvaluateAll(x: Setting, e: Evaluation, candidates: seq<Candidate>): Evaluation {
    if candidates == [] then e
    else EvaluateOne(x, EvaluateAll(x, e, candidates[..|candidates| - 1]), candidates[|candidates| - 1])
  }

  function Considered(candidates: seq<Candidate>): seq<Candidate> {
    if |candidates| > MAX_CANDIDATES then candidates[..MAX_CANDIDATES] else candidates
  }

  function Evaluated(x: Setting, candidates: seq<Candidate>, resolved: seq<string>, log: seq<Entry>): Evaluation {
    EvaluateAll(x, Evaluation(Retain(log, resolved), []), Considered(candidates))
  }

  lemma EvaluateNext(x: Setting, e: Evaluation, candidates: seq<Candidate>, n: nat)
    requires n < |candidates|
    ensures EvaluateAll(x, e, candidates[..n + 1]) == EvaluateOne(x, EvaluateAll(x, e, candidates[..n]), candidates[n])
  {
    assert candidates[..n + 1][..n] == candidates[..n];
  }

  /** `evaluate`. */
  method Evaluate(hash: string -> string, candidates: seq<Candidate>, resolved: seq<string>, settings: Settings,
                  log: seq<Entry>, runtime: Runtime, now: int, hour: nat)
    returns (notices: seq<Notice>, next: seq<Entry>)
    ensures Evaluation(next, notices) ==
            Evaluated(Setting(hash, settings, runtime, now, hour), candidates, resolved, log)
  {
    ghost var x := Setting(hash, settings, runtime, now, hour);
    next := Retain(log, resolved);
    ghost var begin := Evaluation(next, []);
    notices := [];
    var considered := Considered(candidates);
    for n := 0 to |considered|
      invariant Evaluation(next, notices) == EvaluateAll(x, begin, considered[..n])
    {
      EvaluateNext(x, begin, considered, n);
      var c := considered[n];
      var id := hash(c.key);
      if Armed(next, id) {
        // keep an active condition armed even after the log retention age
        var i := FirstArmed(next, id);
        next := next[i := next[i].(firedAt := now)];
        continue;
      }
      next := next + [Entry(Condition(id), now, None)];
      if Suppressed(c, settings, runtime, now, hour) { continue; }
      var notice := Notice(id, c.code, c.observedAt, now);
      next := next + [Entry(Recent(id, now / MILLISECOND), now, Some(notice))];
      notices := notices + [notice];
    }
    assert considered[..|considered|] == considered;
  }

  // ----- what an evaluation means for one condition

  predicate Mentioned(hash: string -> string, candidates: seq<Candidate>, id: string) {
    exists i :: 0 <= i < |candidates| && hash(candidates[i].key) == id
  }

  function Count(notices: seq<Notice>, id: string): nat {
    if notices == [] then 0
    else Count(notices[..|notices| - 1], id) + if notices[|notices| - 1].condition == id then 1 else 0
  }

  lemma ArmedAfterOne(x: Setting, e: Evaluation, c: Candidate, id: string)
    ensures Armed(EvaluateOne(x, e, c).log, id) <==> Armed(e.log, id) || id == x.hash(c.key)
  {
    var next := EvaluateOne(x, e, c).log;
    if Armed(e.log, id) {
      var i :| 0 <= i < |e.log| && e.log[i].key == Condition(id);
      assert next[i].key == Condition(id);
    }
    if id == x.hash(c.key) && !Armed(e.log, id) {
      assert next[|e.log|].key == Condition(id);
    }
    if Armed(next, id) && id != x.hash(c.key) {
      var i :| 0 <= i < |next| && next[i].key == Condition(id);
      assert i < |e.log| && e.log[i].key == Condition(id);
    }
  }

  lemma CountAppend(notices: seq<Notice>, n: Notice, id: string)
    ensures Count(notices + [n], id) == Count(notices, id) + if n.condition == id then 1 else 0
  {
    assert (notices + [n])[..|notices|] == notices;
  }

  /** One evaluation gives a notice for a condition only if it is the candidate's, was not armed, and is
      not suppressed. */
  lemma CountAfterOne(x: Setting, e: Evaluation, c: Candidate, id: string)
    ensures Count(EvaluateOne(x, e, c).notices, id) == Count(e.notices, id) +
            if id == x.hash(c.key) && !Armed(e.log, id) && !Suppressed(c, x.settings, x.runtime, x.now, x.hour)
            then 1 else 0
    ensures !x.runtime.initialized || x.runtime.failed ==> EvaluateOne(x, e, c).notices == e.notices
  {
    CountAppend(e.notices, Notice(x.hash(c.key), c.code, c.observedAt, x.now), id);
  }

  lemma MentionedOne(hash: string -> string, front: seq<Candidate>, c: Candidate, id: string)
    ensures Mentioned(hash, front + [c], id) <==> Mentioned(hash, front, id) || hash(c.key) == id
  {
    var all := front + [c];
    assert hash(all[|front|].key) == hash(c.key);
    assert forall i :: 0 <= i < |front| ==> hash(all[i].key) == hash(front[i].key);
  }

  /** After an evaluation a condition is armed when it was, or when it is a candidate; a condition that
      is armed gives no notice, and no condition gives two. */
  lemma {:induction false} EvaluateAllFacts(x: Setting, e: Evaluation, candidates: seq<Candidate>, id: string)
    ensures Armed(EvaluateAll(x, e, candidates).log, id) <==> Armed(e.log, id) || Mentioned(x.hash, candidates, id)
    ensures Armed(e.log, id) ==> Count(EvaluateAll(x, e, candidates).notices, id) == Count(e.notices, id)
    ensures Count(EvaluateAll(x, e, candidates).notices, id) <= Count(e.notices, id) + 1
    ensures Count(EvaluateAll(x, e, candidates).notices, id) > Count(e.notices, id) ==>
              Mentioned(x.hash, candidates, id)
    ensures !x.runtime.initialized || x.runtime.failed ==> EvaluateAll(x, e, candidates).notices == e.notices
    ensures !Mentioned(x.hash, candidates, id) ==>
              Count(EvaluateAll(x, e, candidates).notices, id) == Count(e.notices, id)
  {
    if candidates != [] {
      var front, c := candidates[..|candidates| - 1], candidates[|candidates| - 1];
      var mid := EvaluateAll(x, e, front);
      assert candidates == front + [c];
      EvaluateAllFacts(x, e, front, id);
      MentionedOne(x.hash, front, c, id);
      ArmedAfterOne(x, mid, c, id);
      CountAfterOne(x, mid, c, id);
    }
  }

  lemma ArmedCons(e: Entry, log: seq<Entry>, id: string)
    ensures Armed([e] + log, id) <==> e.key == Condition(id) || Armed(log, id)
  {
    var all := [e] + log;
    assert all[0] == e && forall i :: 0 <= i < |log| ==> all[i + 1] == log[i];
  }

  lemma ArmedSnoc(log: seq<Entry>, e: Entry, id: string)
    ensures Armed(log + [e], id) <==> e.key == Condition(id) || Armed(log, id)
  {
    var all := log + [e];
    assert all[|log|] == e && forall i :: 0 <= i < |log| ==> all[i] == log[i];
  }

  lemma {:induction false} RetainArmed(log: seq<Entry>, resolved: seq<string>, id: string)
    ensures Armed(Retain(log, resolved), id) <==> Armed(log, id) && id !in resolved
  {
    if log != [] {
      var front, e := log[..|log| - 1], log[|log| - 1];
      assert log == front + [e];
      RetainArmed(front, resolved, id);
      ArmedSnoc(front, e, id);
      ArmedSnoc(Retain(front, resolved), e, id);
    }
  }

  lemma {:induction false} RetainMembers(log: seq<Entry>, resolved: seq<string>, e: Entry)
    ensures e in Retain(log, resolved) ==> e in log
  {
    if log != [] {
      assert log == log[..|log| - 1] + [log[|log| - 1]];
      RetainMembers(log[..|log| - 1], resolved, e);
    }
  }

  // ----- the log as a map

  /** Puts an entry into a list sorted by the text of its keys, in the place of one with the same key. */
  function PutByKey(log: seq<Entry>, e: Entry): seq<Entry> {
    if log == [] then [e]
    else if log[0].key == e.key then [e] + log[1..]
    else if StringLess(Text(e.key), Text(log[0].key)) then [e] + log
    else [log[0]] + PutByKey(log[1..], e)
  }

  /** Collecting a log into a `BTreeMap`: sorted by key, and of several entries with one key the last. */
  function ByKey(log: seq<Entry>): seq<Entry> {
    if log == [] then [] else PutByKey(ByKey(log[..|log| - 1]), log[|log| - 1])
  }

  lemma {:induction false} PutArmed(log: seq<Entry>, e: Entry, id: string)
    ensures Armed(PutByKey(log, e), id) <==> Armed(log, id) || e.key == Condition(id)
  {
    if log == [] {
      assert [e][0].key == e.key;
    } else {
      ArmedCons(log[0], log[1..], id);
      assert log == [log[0]] + log[1..];
      if log[0].key == e.key {
        ArmedCons(e, log[1..], id);
      } else if StringLess(Text(e.key), Text(log[0].key)) {
        ArmedCons(e, log, id);
      } else {
        PutArmed(log[1..], e, id);
        ArmedCons(log[0], PutByKey(log[1..], e), id);
      }
    }
  }

  lemma {:induction false} ByKeyArmed(log: seq<Entry>, id: string)
    ensures Armed(ByKey(log), id) <==> Armed(log, id)
  {
    if log != [] {
      var front, e := log[..|log| - 1], log[|log| - 1];
      assert log == front + [e];
      ByKeyArmed(front, id);
      PutArmed(ByKey(front), e, id);
      ArmedSnoc(front, e, id);
    }
  }

  lemma {:induction false} PutMembers(log: seq<Entry>, e: Entry, x: Entry)
    ensures x in PutByKey(log, e) ==> x == e || x in log
  {
    if log != [] && log[0].key != e.key && !StringLess(Text(e.key), Text(log[0].key)) {
      assert log == [log[0]] + log[1..];
      PutMembers(log[1..], e, x);
    }
  }

  lemma {:induction false} ByKeyMembers(log: seq<Entry>, x: Entry)
    ensures x in ByKey(log) ==> x in log
  {
    if log != [] {
      assert log == log[..|log| - 1] + [log[|log| - 1]];
      PutMembers(ByKey(log[..|log| - 1]), log[|log| - 1], x);
      ByKeyMembers(log[..|log| - 1], x);
    }
  }

  // ----- pruning

  function InsertByTime(log: seq<Entry>, e: Entry): (r: seq<Entry>)
    ensures |r| == |log| + 1
  {
    if log == [] || log[|log| - 1].firedAt <= e.firedAt then log + [e]
    else InsertByTime(log[..|log| - 1], e) + [log[|log| - 1]]
  }

  /** The stable sort by firing time. */
  function SortByTime(log: seq<Entry>): (r: seq<Entry>)
    ensures |r| == |log|
  {
    if log == [] then [] else InsertByTime(SortByTime(log[..|log| - 1]), log[|log| - 1])
  }

  function Recently(log: seq<Entry>, now: int): (r: seq<Entry>)
    ensures |r| <= |log|
  {
    if log == [] then []
    else
      var rest := Recently(log[..|log| - 1], now);
      if now - log[|log| - 1].firedAt <= RETENTION then rest + [log[|log| - 1]] else rest
  }

  /** The entries of live-account rules. */
  predicate Protected(rules: set<string>, e: Entry) {
    e.key.Other? && e.key.name in rules
  }

  function HeldNames(log: seq<Entry>, rules: set<string>): (r: set<string>)
    ensures r <= rules
  {
    if log == [] then {}
    else
      var e := log[|log| - 1];
      HeldNames(log[..|log| - 1], rules) + if Protected(rules, e) then {e.key.name} else {}
  }

  /** Drops by age; of the entries of one rule keeps the first, however old. */
  function Retained(log: seq<Entry>, rules: set<string>, now: int): seq<Entry> {
    if log == [] then []
    else
      var rest, e := Retained(log[..|log| - 1], rules, now), log[|log| - 1];
      var keep := if Protected(rules, e) then e.key.name !in HeldNames(log[..|log| - 1], rules)
                  else now - e.firedAt <= RETENTION;
      if keep then rest + [e] else rest
  }

  /** Drops the first entries, passing over those of rules. */
  function DropOldest(log: seq<Entry>, rules: set<string>, excess: nat): seq<Entry> {
    if log == [] || excess == 0 then log
    else if Protected(rules, log[0]) then [log[0]] + DropOldest(log[1..], rules, excess)
    else DropOldest(log[1..], rules, excess - 1)
  }

  /** `prune_log`: drop by age, then the oldest over the limit. */
  function Prune(log: seq<Entry>, rules: set<string>, now: int): seq<Entry> {
    var sorted := SortByTime(Retained(log, rules, now));
    DropOldest(sorted, rules, Excess(|sorted|))
  }

  function Excess(n: nat): nat {
    if n > MAX_LOG_ENTRIES then n - MAX_LOG_ENTRIES else 0
  }

  // ----- what pruning keeps

  predicate InTimeOrder(log: seq<Entry>) {
    forall i, j :: 0 <= i < j < |log| ==> log[i].firedAt <= log[j].firedAt
  }

  /** The entries fired after a time. */
  function CountAfter(log: seq<Entry>, time: int): nat {
    if log == [] then 0
    else CountAfter(log[..|log| - 1], time) + if log[|log| - 1].firedAt > time then 1 else 0
  }

  /** The entries that are newer than entry `p`, or as new and further down the log. */
  function NewerThan(log: seq<Entry>, p: nat): nat
    requires p < |log|
  {
    var n := |log| - 1;
    if p == n then CountAfter(log[..n], log[n].firedAt)
    else NewerThan(log[..n], p) + if log[n].firedAt >= log[p].firedAt then 1 else 0
  }

  lemma {:induction false} CountConcat(a: seq<Entry>, b: seq<Entry>, time: int)
    ensures CountAfter(a + b, time) == CountAfter(a, time) + CountAfter(b, time)
  {
    if b == [] {
      assert a + b == a;
    } else {
      assert (a + b)[..|a + b| - 1] == a + b[..|b| - 1];
      CountConcat(a, b[..|b| - 1], time);
    }
  }

  lemma {:induction false} CountAllOrNone(log: seq<Entry>, time: int)
    ensures CountAfter(log, time) <= |log|
    ensures (forall i :: 0 <= i < |log| ==> log[i].firedAt > time) ==> CountAfter(log, time) == |log|
    ensures (forall i :: 0 <= i < |log| ==> log[i].firedAt <= time) ==> CountAfter(log, time) == 0
  {
    if log != [] {
      CountAllOrNone(log[..|log| - 1], time);
    }
  }

  /** `r` is `log` with `e` put in at `k`, behind everything that is not newer. */
  predicate PutInAt(log: seq<Entry>, e: Entry, k: nat, r: seq<Entry>) {
    && k <= |log| && |r| == |log| + 1 && r[k] == e
    && (forall i :: 0 <= i < k ==> r[i] == log[i] && log[i].firedAt <= e.firedAt)
    && (forall i :: k <= i < |log| ==> r[i + 1] == log[i] && log[i].firedAt > e.firedAt)
  }

  lemma {:induction false} InsertSplits(log: seq<Entry>, e: Entry) returns (k: nat)
    requires InTimeOrder(log)
    ensures PutInAt(log, e, k, InsertByTime(log, e))
  {
    if log == [] || log[|log| - 1].firedAt <= e.firedAt {
      k := |log|;
    } else {
      k := InsertSplits(log[..|log| - 1], e);
      OneMoreBehind(log, e, k, InsertByTime(log[..|log| - 1], e));
    }
  }

  lemma OneMoreBehind(log: seq<Entry>, e: Entry, k: nat, r: seq<Entry>)
    requires log != [] && log[|log| - 1].firedAt > e.firedAt && PutInAt(log[..|log| - 1], e, k, r)
    ensures PutInAt(log, e, k, r + [log[|log| - 1]])
  {
  }

  lemma InsertOrdered(log: seq<Entry>, e: Entry)
    requires InTimeOrder(log)
    ensures InTimeOrder(InsertByTime(log, e))
  {
    var k := InsertSplits(log, e);
    var r := InsertByTime(log, e);
    forall i, j | 0 <= i < j < |r| ensures r[i].firedAt <= r[j].firedAt {
      assert i < k ==> r[i] == log[i];
      assert i > k ==> r[i] == log[i - 1];
      assert j < k ==> r[j] == log[j];
      assert j > k ==> r[j] == log[j - 1];
    }
  }

  lemma {:induction false} InsertPermutes(log: seq<Entry>, e: Entry)
    ensures multiset(InsertByTime(log, e)) == multiset(log) + multiset{e}
  {
    if log != [] && log[|log| - 1].firedAt > e.firedAt {
      InsertPermutes(log[..|log| - 1], e);
      assert log == log[..|log| - 1] + [log[|log| - 1]];
    }
  }

  lemma {:induction false} SortPermutes(log: seq<Entry>)
    ensures multiset(SortByTime(log)) == multiset(log)
  {
    if log != [] {
      var n := |log| - 1;
      SortPermutes(log[..n]);
      InsertPermutes(SortByTime(log[..n]), log[n]);
      assert log == log[..n] + [log[n]];
    }
  }

  lemma {:induction false} InsertCounts(log: seq<Entry>, e: Entry, time: int)
    ensures CountAfter(InsertByTime(log, e), time) == CountAfter(log, time) + if e.firedAt > time then 1 else 0
  {
    var r := InsertByTime(log, e);
    if log == [] || log[|log| - 1].firedAt <= e.firedAt {
      assert r[..|r| - 1] == log;
    } else {
      InsertCounts(log[..|log| - 1], e, time);
      assert r[..|r| - 1] == InsertByTime(log[..|log| - 1], e);
    }
  }

  lemma {:induction false} SortCounts(log: seq<Entry>, time: int)
    ensures InTimeOrder(SortByTime(log))
    ensures CountAfter(SortByTime(log), time) == CountAfter(log, time)
  {
    if log != [] {
      var n := |log| - 1;
      SortCounts(log[..n], time);
      InsertCounts(SortByTime(log[..n]), log[n], time);
      InsertOrdered(SortByTime(log[..n]), log[n]);
    }
  }

  lemma {:induction false} SplitCounts(log: seq<Entry>, k: nat, time: int)
    requires k <= |log| && (forall i :: 0 <= i < k ==> log[i].firedAt <= time)
    requires forall i :: k <= i < |log| ==> log[i].firedAt > time
    ensures CountAfter(log, time) == |log| - k
  {
    if log != [] {
      SplitCounts(log[..|log| - 1], if k == |log| then k - 1 else k, time);
    }
  }

  /** The place of an entry: as many entries follow it in the sorted log as are newer. */
  predicate PlacedAt(log: seq<Entry>, p: nat, sorted: seq<Entry>, r: nat) {
    && p < |log| == |sorted| && r < |sorted|
    && sorted[r] == log[p] && |sorted| - 1 - r == NewerThan(log, p)
  }

  lemma NewcomerPlaced(log: seq<Entry>, sorted: seq<Entry>, k: nat, r: seq<Entry>)
    requires log != [] && PutInAt(sorted, log[|log| - 1], k, r) && |sorted| == |log| - 1
    requires CountAfter(sorted, log[|log| - 1].firedAt) == CountAfter(log[..|log| - 1], log[|log| - 1].firedAt)
    ensures PlacedAt(log, |log| - 1, r, k)
  {
    SplitCounts(sorted, k, log[|log| - 1].firedAt);
  }

  lemma OthersPlaced(log: seq<Entry>, p: nat, sorted: seq<Entry>, q: nat, k: nat, r: seq<Entry>)
    requires p < |log| - 1 && PlacedAt(log[..|log| - 1], p, sorted, q) && PutInAt(sorted, log[|log| - 1], k, r)
    ensures PlacedAt(log, p, r, if q >= k then q + 1 else q)
  {
  }

  /** One step of the sort: the last entry of the log is put into the others. */
  lemma SortStep(log: seq<Entry>, sorted: seq<Entry>, r: seq<Entry>) returns (k: nat)
    requires log != [] && sorted == SortByTime(log[..|log| - 1]) && r == SortByTime(log)
    ensures |sorted| == |log| - 1 && PutInAt(sorted, log[|log| - 1], k, r)
    ensures PlacedAt(log, |log| - 1, r, k)
  {
    SortCounts(log[..|log| - 1], log[|log| - 1].firedAt);
    k := InsertSplits(sorted, log[|log| - 1]);
    NewcomerPlaced(log, sorted, k, r);
  }

  /** The stable sort leaves behind each entry exactly those that are newer. */
  lemma {:induction false} SortPlaces(log: seq<Entry>, p: nat, sorted: seq<Entry>) returns (r: nat)
    requires p < |log| && sorted == SortByTime(log)
    ensures PlacedAt(log, p, sorted, r)
  {
    var before := SortByTime(log[..|log| - 1]);
    var k := SortStep(log, before, sorted);
    if p == |log| - 1 {
      r := k;
    } else {
      var q := SortPlaces(log[..|log| - 1], p, before);
      OthersPlaced(log, p, before, q, k, sorted);
      r := if q >= k then q + 1 else q;
    }
  }

  /** And every place belongs to an entry of the log. */
  lemma {:induction false} SortTakes(log: seq<Entry>, r: nat, sorted: seq<Entry>) returns (p: nat)
    requires r < |log| && sorted == SortByTime(log)
    ensures PlacedAt(log, p, sorted, r)
  {
    var before := SortByTime(log[..|log| - 1]);
    var k := SortStep(log, before, sorted);
    if r == k {
      p := |log| - 1;
    } else {
      var q := if r < k then r else r - 1;
      p := SortTakes(log[..|log| - 1], q, before);
      OthersPlaced(log, p, before, q, k, sorted);
    }
  }

  lemma SortMembers(log: seq<Entry>)
    ensures forall e :: e in SortByTime(log) <==> e in log
  {
    forall e | e in SortByTime(log) ensures e in log {
      var r :| 0 <= r < |log| && SortByTime(log)[r] == e;
      var p := SortTakes(log, r, SortByTime(log));
    }
    forall e | e in log ensures e in SortByTime(log) {
      var p :| 0 <= p < |log| && log[p] == e;
      var r := SortPlaces(log, p, SortByTime(log));
    }
  }

  // ----- the entries that pruning may drop

  /** The entries that no rule protects. */
  function Free(log: seq<Entry>, rules: set<string>): (r: seq<Entry>)
    ensures |r| <= |log|
  {
    if log == [] then []
    else
      var rest, e := Free(log[..|log| - 1], rules), log[|log| - 1];
      if Protected(rules, e) then rest else rest + [e]
  }

  lemma {:induction false} FreeConcat(a: seq<Entry>, b: seq<Entry>, rules: set<string>)
    ensures Free(a + b, rules) == Free(a, rules) + Free(b, rules)
  {
    if b == [] {
      assert a + b == a && Free(a, rules) + [] == Free(a, rules);
    } else {
      assert (a + b)[..|a + b| - 1] == a + b[..|b| - 1];
      FreeConcat(a, b[..|b| - 1], rules);
    }
  }

  lemma {:induction false} FreeMembers(log: seq<Entry>, rules: set<string>, e: Entry)
    ensures e in Free(log, rules) <==> e in log && !Protected(rules, e)
  {
    if log != [] {
      assert log == log[..|log| - 1] + [log[|log| - 1]];
      FreeMembers(log[..|log| - 1], rules, e);
    }
  }

  lemma FreeOne(log: seq<Entry>, e: Entry, rules: set<string>)
    ensures Free(log + [e], rules) == if Protected(rules, e) then Free(log, rules) else Free(log, rules) + [e]
  {
    assert (log + [e])[..|log|] == log;
  }

  lemma {:induction false} RecentlyMembers(log: seq<Entry>, now: int, e: Entry)
    ensures e in Recently(log, now) <==> e in log && now - e.firedAt <= RETENTION
  {
    if log != [] {
      assert log == log[..|log| - 1] + [log[|log| - 1]];
      RecentlyMembers(log[..|log| - 1], now, e);
    }
  }

  lemma RecentlyOne(log: seq<Entry>, e: Entry, now: int)
    ensures Recently(log + [e], now) ==
            if now - e.firedAt <= RETENTION then Recently(log, now) + [e] else Recently(log, now)
  {
    assert (log + [e])[..|log|] == log;
  }

  lemma HeldOne(log: seq<Entry>, e: Entry, rules: set<string>)
    ensures HeldNames(log + [e], rules) == HeldNames(log, rules) + if Protected(rules, e) then {e.key.name} else {}
    ensures |HeldNames(log + [e], rules)| ==
            |HeldNames(log, rules)| + if Protected(rules, e) && e.key.name !in HeldNames(log, rules) then 1 else 0
  {
    assert (log + [e])[..|log|] == log;
    var held := HeldNames(log, rules);
    if Protected(rules, e) {
      if e.key.name in held {
        assert held + {e.key.name} == held;
      }
    } else {
      assert held + {} == held;
    }
  }

  lemma RetainedOne(log: seq<Entry>, e: Entry, rules: set<string>, now: int)
    ensures Retained(log + [e], rules, now) ==
            if (if Protected(rules, e) then e.key.name !in HeldNames(log, rules) else now - e.firedAt <= RETENTION)
            then Retained(log, rules, now) + [e] else Retained(log, rules, now)
  {
    assert (log + [e])[..|log|] == log;
  }

  /** Retention keeps the recent free entries ... */
  lemma {:induction false} RetainedFree(log: seq<Entry>, rules: set<string>, now: int)
    ensures Free(Retained(log, rules, now), rules) == Recently(Free(log, rules), now)
  {
    if log != [] {
      var front, e := log[..|log| - 1], log[|log| - 1];
      assert log == front + [e];
      RetainedFree(front, rules, now);
      RetainedOne(front, e, rules, now);
      FreeOne(front, e, rules);
      FreeOne(Retained(front, rules, now), e, rules);
      RecentlyOne(Free(front, rules), e, now);
    }
  }

  /** ... and one entry for each rule that has any. */
  lemma {:induction false} RetainedCount(log: seq<Entry>, rules: set<string>, now: int)
    ensures |Retained(log, rules, now)| == |Recently(Free(log, rules), now)| + |HeldNames(log, rules)|
  {
    if log != [] {
      var front, e := log[..|log| - 1], log[|log| - 1];
      assert log == front + [e];
      RetainedCount(front, rules, now);
      RetainedOne(front, e, rules, now);
      HeldOne(front, e, rules);
      FreeOne(front, e, rules);
      RecentlyOne(Free(front, rules), e, now);
    }
  }

  lemma InsertBefore(log: seq<Entry>, last: Entry, e: Entry)
    requires last.firedAt > e.firedAt
    ensures InsertByTime(log + [last], e) == InsertByTime(log, e) + [last]
  {
    assert (log + [last])[..|log|] == log;
  }

  lemma InsertLast(log: seq<Entry>, e: Entry)
    requires forall x :: x in log ==> x.firedAt <= e.firedAt
    ensures InsertByTime(log, e) == log + [e]
  {
    if log != [] {
      assert log[|log| - 1] in log;
    }
  }

  lemma {:induction false} FreeInsert(log: seq<Entry>, e: Entry, rules: set<string>)
    requires InTimeOrder(log)
    ensures Free(InsertByTime(log, e), rules) ==
            if Protected(rules, e) then Free(log, rules) else InsertByTime(Free(log, rules), e)
  {
    if log == [] || log[|log| - 1].firedAt <= e.firedAt {
      FreeOne(log, e, rules);
      forall x | x in Free(log, rules) ensures x.firedAt <= e.firedAt {
        FreeMembers(log, rules, x);
      }
      InsertLast(Free(log, rules), e);
    } else {
      var front, last := log[..|log| - 1], log[|log| - 1];
      assert log == front + [last];
      FreeInsert(front, e, rules);
      FreeOne(front, last, rules);
      FreeOne(InsertByTime(front, e), last, rules);
      InsertBefore(front, last, e);
      InsertBefore(Free(front, rules), last, e);
    }
  }

  /** Sorting keeps the free entries in the order in which they sort by themselves. */
  lemma {:induction false} FreeSort(log: seq<Entry>, rules: set<string>)
    ensures Free(SortByTime(log), rules) == SortByTime(Free(log, rules))
  {
    if log != [] {
      var n := |log| - 1;
      FreeSort(log[..n], rules);
      SortCounts(log[..n], 0);
      FreeInsert(SortByTime(log[..n]), log[n], rules);
    }
  }

  /** Dropping from the whole log drops the first free entries. */
  lemma {:induction false} FreeDrop(log: seq<Entry>, rules: set<string>, excess: nat)
    ensures var free := Free(log, rules);
            Free(DropOldest(log, rules, excess), rules) == Newest(free, excess)
  {
    var free := Free(log, rules);
    if log == [] {
    } else if excess == 0 {
      assert free[0..] == free;
    } else {
      FreeConcat([log[0]], log[1..], rules);
      assert log == [log[0]] + log[1..];
      assert Free([log[0]], rules) == if Protected(rules, log[0]) then [] else [log[0]] by {
        assert [log[0]][..0] == [];
      }
      if Protected(rules, log[0]) {
        FreeDrop(log[1..], rules, excess);
        FreeConcat([log[0]], DropOldest(log[1..], rules, excess), rules);
      } else {
        FreeDrop(log[1..], rules, excess - 1);
      }
    }
  }

  function Newest(log: seq<Entry>, over: nat): seq<Entry> {
    if over <= |log| then log[over..] else []
  }

  /** The free entries after pruning: the newest of the recent ones, as many as the rules leave room for. */
  lemma PrunedFree(log: seq<Entry>, rules: set<string>, now: int)
    ensures var free := Recently(Free(log, rules), now);
            Free(Prune(log, rules, now), rules) ==
            Newest(SortByTime(free), Excess(|free| + |HeldNames(log, rules)|))
  {
    var retained := Retained(log, rules, now);
    RetainedFree(log, rules, now);
    RetainedCount(log, rules, now);
    FreeSort(retained, rules);
    FreeDrop(SortByTime(retained), rules, Excess(|retained|));
  }

  /** Some entry arms the condition and has fewer newer ones than there is room for. */
  predicate ArmsWithin(log: seq<Entry>, id: string, room: int) {
    exists p :: 0 <= p < |log| && log[p].key == Condition(id) && NewerThan(log, p) < room
  }

  /** Some entry that arms the condition is within the retention age, and the newer entries and those of
      rules together are fewer than the limit. */
  predicate Outlasts(log: seq<Entry>, rules: set<string>, now: int, id: string) {
    ArmsWithin(Recently(Free(log, rules), now), id, MAX_LOG_ENTRIES - |HeldNames(log, rules)|)
  }

  lemma ArmedFree(log: seq<Entry>, rules: set<string>, id: string)
    ensures Armed(log, id) <==> Armed(Free(log, rules), id)
  {
    var free := Free(log, rules);
    if Armed(log, id) {
      var i :| 0 <= i < |log| && log[i].key == Condition(id);
      FreeMembers(log, rules, log[i]);
      var k :| 0 <= k < |free| && free[k] == log[i];
    }
    if Armed(free, id) {
      var k :| 0 <= k < |free| && free[k].key == Condition(id);
      FreeMembers(log, rules, free[k]);
      var i :| 0 <= i < |log| && log[i] == free[k];
    }
  }

  lemma NewestHas(log: seq<Entry>, over: nat, id: string) returns (p: nat)
    requires Armed(Newest(SortByTime(log), over), id)
    ensures p < |log| && log[p].key == Condition(id) && NewerThan(log, p) < |log| - over
  {
    var sorted := SortByTime(log);
    var i :| 0 <= i < |sorted| - over && Newest(sorted, over)[i].key == Condition(id);
    p := SortTakes(log, i + over, sorted);
  }

  /** The newest part of a sorted log arms a condition exactly when an entry with few enough newer ones does. */
  lemma ArmedNewest(log: seq<Entry>, over: nat, id: string)
    ensures Armed(Newest(SortByTime(log), over), id) <==> ArmsWithin(log, id, |log| - over)
  {
    var sorted := SortByTime(log);
    if Armed(Newest(sorted, over), id) {
      var p := NewestHas(log, over, id);
    }
    if ArmsWithin(log, id, |log| - over) {
      var p :| 0 <= p < |log| && log[p].key == Condition(id) && NewerThan(log, p) < |log| - over;
      var r := SortPlaces(log, p, sorted);
      assert Newest(sorted, over)[r - over] == sorted[r];
    }
  }

  /** Room within the limit, counted from either end. */
  lemma SameRoom(free: seq<Entry>, held: nat, id: string)
    ensures ArmsWithin(free, id, MAX_LOG_ENTRIES - held) <==> ArmsWithin(free, id, |free| - Excess(|free| + held))
  {
    forall p | 0 <= p < |free| ensures NewerThan(free, p) < |free| { NewerBound(free, p); }
  }

  lemma Outlasting(log: seq<Entry>, rules: set<string>, now: int, id: string) returns (e: Entry)
    requires Outlasts(log, rules, now, id)
    ensures e in log && e.key == Condition(id) && now - e.firedAt <= RETENTION
  {
    var free := Recently(Free(log, rules), now);
    var p :| 0 <= p < |free| && free[p].key == Condition(id);
    e := free[p];
    RecentlyMembers(Free(log, rules), now, e);
    FreeMembers(log, rules, e);
  }

  /** What pruning leaves, as a list by itself: armed exactly when an entry is newer than enough others. */
  lemma NewestOutlasts(pruned: seq<Entry>, rules: set<string>, free: seq<Entry>, held: nat, id: string)
    requires Free(pruned, rules) == Newest(SortByTime(free), Excess(|free| + held))
    ensures Armed(pruned, id) <==> ArmsWithin(free, id, MAX_LOG_ENTRIES - held)
  {
    ArmedFree(pruned, rules, id);
    ArmedNewest(free, Excess(|free| + held), id);
    SameRoom(free, held, id);
  }

  /** A condition is armed after pruning, by age and by count, exactly when an entry that arms it outlasts. */
  lemma PruneArmed(log: seq<Entry>, rules: set<string>, now: int, id: string)
    ensures Armed(Prune(log, rules, now), id) <==> Outlasts(log, rules, now, id)
  {
    PrunedFree(log, rules, now);
    NewestOutlasts(Prune(log, rules, now), rules, Recently(Free(log, rules), now), |HeldNames(log, rules)|, id);
  }

  lemma {:induction false} RetainedMembers(log: seq<Entry>, rules: set<string>, now: int, e: Entry)
    ensures e in Retained(log, rules, now) ==> e in log && (Protected(rules, e) || now - e.firedAt <= RETENTION)
  {
    if log != [] {
      assert log == log[..|log| - 1] + [log[|log| - 1]];
      RetainedMembers(log[..|log| - 1], rules, now, e);
    }
  }

  lemma {:induction false} DropKeeps(log: seq<Entry>, rules: set<string>, excess: nat, e: Entry)
    ensures e in DropOldest(log, rules, excess) ==> e in log
  {
    if log != [] && excess > 0 {
      assert log == [log[0]] + log[1..];
      DropKeeps(log[1..], rules, if Protected(rules, log[0]) then excess else excess - 1, e);
    }
  }

  /** Pruning invents nothing, and only rules keep an entry past retention. */
  lemma PruneMembers(log: seq<Entry>, rules: set<string>, now: int)
    ensures forall e :: e in Prune(log, rules, now) ==>
              e in log && (Protected(rules, e) || now - e.firedAt <= RETENTION)
  {
    var retained := Retained(log, rules, now);
    SortMembers(retained);
    forall e | e in Prune(log, rules, now) ensures e in log && (Protected(rules, e) || now - e.firedAt <= RETENTION) {
      DropKeeps(SortByTime(retained), rules, Excess(|retained|), e);
      RetainedMembers(log, rules, now, e);
    }
  }

  lemma {:induction false} DropLength(log: seq<Entry>, rules: set<string>, excess: nat)
    requires excess <= |Free(log, rules)|
    ensures |DropOldest(log, rules, excess)| == |log| - excess
  {
    if log != [] && excess > 0 {
      FreeConcat([log[0]], log[1..], rules);
      assert log == [log[0]] + log[1..];
      assert Free([log[0]], rules) == if Protected(rules, log[0]) then [] else [log[0]] by {
        assert [log[0]][..0] == [];
      }
      DropLength(log[1..], rules, if Protected(rules, log[0]) then excess else excess - 1);
    }
  }

  /** The limit holds unless the rules alone exceed it. */
  lemma PruneBound(log: seq<Entry>, rules: set<string>, now: int)
    requires |rules| <= MAX_LOG_ENTRIES
    ensures |Prune(log, rules, now)| <= MAX_LOG_ENTRIES
  {
    var retained := Retained(log, rules, now);
    RetainedFree(log, rules, now);
    RetainedCount(log, rules, now);
    SubsetCount(HeldNames(log, rules), rules);
    FreeSort(retained, rules);
    DropLength(SortByTime(retained), rules, Excess(|retained|));
  }

  lemma {:induction false} NewerBound(log: seq<Entry>, p: nat)
    requires p < |log|
    ensures NewerThan(log, p) < |log|
    ensures NewerThan(log, p) < CountAfter(log, log[p].firedAt - 1)
  {
    var n := |log| - 1;
    if p == n {
      CountAllOrNone(log[..n], log[n].firedAt);
      CountLater(log[..n], log[n].firedAt - 1, log[n].firedAt);
    } else {
      NewerBound(log[..n], p);
    }
  }

  lemma {:induction false} FreeAndHeld(log: seq<Entry>, rules: set<string>)
    ensures |Free(log, rules)| + |HeldNames(log, rules)| <= |log|
  {
    if log != [] {
      FreeAndHeld(log[..|log| - 1], rules);
    }
  }

  /** Within the limit, only age matters. */
  lemma ShortLogOutlasts(log: seq<Entry>, rules: set<string>, now: int, id: string)
    requires |log| <= MAX_LOG_ENTRIES
    ensures Outlasts(log, rules, now, id)
            <==> exists e :: e in log && e.key == Condition(id) && now - e.firedAt <= RETENTION
  {
    var free := Recently(Free(log, rules), now);
    if e :| e in log && e.key == Condition(id) && now - e.firedAt <= RETENTION {
      FreeMembers(log, rules, e);
      RecentlyMembers(Free(log, rules), now, e);
      FreeAndHeld(log, rules);
      var p :| 0 <= p < |free| && free[p] == e;
      NewerBound(free, p);
    }
    if Outlasts(log, rules, now, id) {
      var e := Outlasting(log, rules, now, id);
    }
  }

  lemma {:induction false} RecentCount(log: seq<Entry>, now: int, time: int)
    ensures CountAfter(Recently(log, now), time) <= CountAfter(log, time)
  {
    if log != [] {
      var last, rest := log[|log| - 1], Recently(log[..|log| - 1], now);
      RecentCount(log[..|log| - 1], now, time);
      if now - last.firedAt <= RETENTION {
        CountConcat(rest, [last], time);
        assert CountAfter([last], time) == if last.firedAt > time then 1 else 0 by { assert [last][..0] == []; }
      }
    }
  }

  lemma {:induction false} FreeCount(log: seq<Entry>, rules: set<string>, time: int)
    ensures CountAfter(Free(log, rules), time) <= CountAfter(log, time)
  {
    if log != [] {
      var last, rest := log[|log| - 1], Free(log[..|log| - 1], rules);
      FreeCount(log[..|log| - 1], rules, time);
      if !Protected(rules, last) {
        CountConcat(rest, [last], time);
        assert CountAfter([last], time) == if last.firedAt > time then 1 else 0 by { assert [last][..0] == []; }
      }
    }
  }

  /** A condition armed at `now` or later outlasts, unless such entries and those of rules take up the whole limit. */
  lemma NewOutlasts(log: seq<Entry>, rules: set<string>, now: int, id: string)
    requires ArmedSince(log, id, now)
    requires CountAfter(Free(log, rules), now - 1) + |HeldNames(log, rules)| <= MAX_LOG_ENTRIES
    ensures Outlasts(log, rules, now, id)
  {
    var i :| 0 <= i < |log| && log[i].key == Condition(id) && log[i].firedAt >= now;
    FreeMembers(log, rules, log[i]);
    var p := NewPlaced(Free(log, rules), now, log[i]);
    assert Recently(Free(log, rules), now)[p].key == Condition(id);
  }

  lemma NewStays(log: seq<Entry>, rules: set<string>, now: int, id: string)
    requires ArmedSince(log, id, now)
    requires CountAfter(Free(log, rules), now - 1) + |HeldNames(log, rules)| <= MAX_LOG_ENTRIES
    ensures Armed(Prune(log, rules, now), id)
  {
    NewOutlasts(log, rules, now, id);
    PruneArmed(log, rules, now, id);
  }

  lemma NewPlaced(log: seq<Entry>, now: int, e: Entry) returns (p: nat)
    requires e in log && e.firedAt >= now
    ensures p < |Recently(log, now)| && Recently(log, now)[p] == e
    ensures NewerThan(Recently(log, now), p) < CountAfter(log, now - 1)
  {
    var recent := Recently(log, now);
    RecentlyMembers(log, now, e);
    p :| 0 <= p < |recent| && recent[p] == e;
    NewerBound(recent, p);
    RecentCount(log, now, e.firedAt - 1);
    CountLater(log, now - 1, e.firedAt - 1);
  }

  lemma {:induction false} CountLater(log: seq<Entry>, earlier: int, later: int)
    requires earlier <= later
    ensures CountAfter(log, later) <= CountAfter(log, earlier)
  {
    if log != [] {
      CountLater(log[..|log| - 1], earlier, later);
    }
  }
}
