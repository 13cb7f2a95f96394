/**
 Opt-in attention alerts (src-tauri/src/attention.rs): preferences, the persisted
 deduplication store, and the service that observes sessions and publishes alerts.
 Time is an integer number of nanoseconds.  `digest` stands for the 64-bit hash that
 names sessions and signals in the store; no property below needs it to be injective.
 */
module Attention {
  import opened Prelude

  const HOUR := 3600 * SECOND
  const MAX_SEEN := 512
  const MAX_SESSIONS := 100
  const MAX_ALERTS := 20

  datatype Category =
    TurnStarted | InputRequested | ToolCompleted | ToolFailed | TurnCompleted | TurnInterrupted

  /** Lists are sets here: the service sorts and deduplicates them before it saves them. */
  datatype Preferences = Preferences(
    revision: nat,
    categories: set<Category>,
    providers: set<string>,
    toolKind: Option<string>,
    staleAfterSeconds: nat)

  const DEFAULT_PREFERENCES := Preferences(0, {}, {}, None, 300)

  const REGISTERED: set<string> := {"codex", "claude_code", "gemini_cli"}

  predicate ValidPreferences(p: Preferences) {
    && |p.providers| <= 16
    && p.providers <= REGISTERED
    && 30 <= p.staleAfterSeconds <= 3600
  }

  datatype Store = Store(
    preferences: Preferences,
    seen: seq<string>,
    watermarks: map<string, int>,
    lastAlert: Option<int>)

  const DEFAULT_STORE := Store(DEFAULT_PREFERENCES, [], map[], None)

  datatype StoreFile = Missing | Undecodable | Saved(store: Store)

  datatype Signal = Signal(id: string, at: int, category: Category, toolKind: Option<string>)

  datatype Alert = Alert(id: string, sessionRef: string, category: Category, observedAt: int)

  datatype Observation = Observation(sessionRef: string, category: Category, observedAt: int)

  datatype Inner = Inner(
    store: Store,
    available: bool,
    armedAt: int,
    observations: map<string, Observation>,
    alerts: seq<Alert>)

  /** Whether the advisory lock is free and whether the atomic save succeeds. */
  datatype Io = Io(lockFree: bool, saves: bool)

  // ----- loading

  predicate StoreWithinBounds(s: Store) {
    |s.seen| <= MAX_SEEN && |s.watermarks| <= MAX_SESSIONS && ValidPreferences(s.preferences)
  }

  /** Nothing in the store lies in the future. */
  predicate NotFromTheFuture(s: Store, now: int) {
    && (s.lastAlert.Some? ==> s.lastAlert.value <= now)
    && forall k :: k in s.watermarks ==> s.watermarks[k] <= now
  }

  function Load(file: StoreFile, now: int): Option<Store> {
    match file
    case Missing => Some(DEFAULT_STORE)
    case Undecodable => None
    case Saved(s) => if StoreWithinBounds(s) && NotFromTheFuture(s, now) then Some(s) else None
  }

  // ----- publishing

  function Expired(watermarks: map<string, int>, now: int): set<string> {
    set k | k in watermarks && now - watermarks[k] > HOUR
  }

  function Lookup(watermarks: map<string, int>, k: string): Option<int> {
    if k in watermarks then Some(watermarks[k]) else None
  }

  /** One publish call: whose session, which clock, and the watermark it started from. */
  datatype Call = Call(digest: string -> string, session: string, now: int, watermark: Option<int>)

  /** The store while candidates are consumed, and the one signal chosen for an alert. */
  datatype Progress = Progress(store: Store, chosen: Option<Signal>)

  function SignalDigest(c: Call, s: Signal): string {
    c.digest(c.session + "\0" + s.id)
  }

  predicate Quiet(s: Store, now: int) {
    s.lastAlert.None? || now - s.lastAlert.value >= 30 * SECOND
  }

  /** One round of the loop in `publish`. */
  function ConsumeOne(c: Call, p: Progress, s: Signal): Progress {
    if c.watermark.Some? && s.at <= c.watermark.value then p
    else if SignalDigest(c, s) in p.store.seen then p
    else
      var store := p.store.(seen := p.store.seen + [SignalDigest(c, s)],
                            watermarks := p.store.watermarks[c.digest(c.session) := s.at]);
      if p.chosen.None? && Quiet(p.store, c.now) then Progress(store.(lastAlert := Some(c.now)), Some(s))
      else Progress(store, p.chosen)
  }

  function Consume(c: Call, p: Progress, signals: seq<Signal>): Progress {
    if signals == [] then p
    else ConsumeOne(c, Consume(c, p, signals[..|signals| - 1]), signals[|signals| - 1])
  }

  predicate Chronological(signals: seq<Signal>) {
    forall i, j :: 0 <= i < j < |signals| ==> signals[i].at <= signals[j].at
  }

  function LastOf<T>(s: seq<T>, n: nat): (r: seq<T>)
    ensures |r| <= n && |r| <= |s|
  {
    if |s| > n then s[|s| - n..] else s
  }

  /** `r` is the newest part of a list, at most `n` long. */
  predicate IsNewest<T(==)>(r: seq<T>, all: seq<T>, n: nat) {
    |r| == (if |all| < n then |all| else n) && r == all[|all| - |r|..]
  }

  lemma LastIsNewest<T>(s: seq<T>, n: nat)
    ensures IsNewest(LastOf(s, n), s, n)
  {
  }

  /** What a publish call does to the file and to the service; `chosen` is the signal alerted, if any. */
  datatype Outcome = Outcome(file: StoreFile, inner: Inner, ok: bool, chosen: Option<Signal>)

  function AlertFor(c: Call, s: Signal): Alert {
    Alert(SignalDigest(c, s), c.digest(c.session), s.category, s.at)
  }

  function Unexpired(watermarks: map<string, int>, now: int): map<string, int> {
    watermarks - Expired(watermarks, now)
  }

  /** The loop of `publish` and the trimming of the log, on a store just loaded. */
  function Digested(loaded: Store, digest: string -> string, session: string, candidates: seq<Signal>,
                    now: int): Progress {
    var kept := Unexpired(loaded.watermarks, now);
    var c := Call(digest, session, now, Lookup(kept, digest(session)));
    var p := Consume(c, Progress(loaded.(watermarks := kept), None), candidates);
    p.(store := p.store.(seen := LastOf(p.store.seen, MAX_SEEN)))
  }

  function Published(file: StoreFile, inner: Inner, digest: string -> string, session: string,
                   candidates: seq<Signal>, now: int, io: Io): (o: Outcome)
    ensures o.inner.observations == inner.observations
  {
    var refused := Outcome(file, inner, false, None);
    if !io.lockFree || Load(file, now).None? then refused
    else
      var loaded := Load(file, now).value;
      if loaded.preferences != inner.store.preferences then refused
      else
        var kept := Unexpired(loaded.watermarks, now);
        if digest(session) !in kept && |kept| >= MAX_SESSIONS then Outcome(file, inner, true, None)
        else
          var p := Digested(loaded, digest, session, candidates, now);
          var c := Call(digest, session, now, None);
          var alerts := if p.chosen.Some? then LastOf(inner.alerts + [AlertFor(c, p.chosen.value)], MAX_ALERTS)
                        else inner.alerts;
          var inner' := inner.(store := p.store, alerts := alerts);
          if p.store.seen == loaded.seen then Outcome(file, inner', true, p.chosen)
          else if io.saves then Outcome(Saved(p.store), inner', true, p.chosen)
          else refused
  }

  /** What the loop has done to the store, independently of how it goes about it. */
  ghost predicate Consumed(c: Call, before: Progress, after: Progress, signals: seq<Signal>) {
    var ref := c.digest(c.session);
    && before.store.seen <= after.store.seen
    && after.store.preferences == before.store.preferences
    && (forall k :: k != ref ==> (k in after.store.watermarks <==> k in before.store.watermarks))
    && (forall k :: k != ref && k in before.store.watermarks ==>
         after.store.watermarks[k] == before.store.watermarks[k])
    && (after.store.seen == before.store.seen ==> after == before)
    && (after.store.seen != before.store.seen ==>
          && ref in after.store.watermarks
          && (exists s :: s in signals && s.at == after.store.watermarks[ref])
          && (c.watermark.Some? ==> after.store.watermarks[ref] > c.watermark.value))
    && match after.chosen
       case None => after.store.lastAlert == before.store.lastAlert
       case Some(s) =>
         && s in signals
         && (c.watermark.Some? ==> s.at > c.watermark.value)
         && Quiet(before.store, c.now)
         && after.store.lastAlert == Some(c.now)
         && after.store.seen != before.store.seen
         && s.at <= after.store.watermarks[ref]
  }

  ghost predicate LastIsNew(before: seq<string>, after: seq<string>) {
    after != before ==> |after| > 0 && after[|after| - 1] !in before
  }

  /** A signal the store has already dealt with: not newer than the watermark, or in the log. */
  predicate Stale(c: Call, seen: seq<string>, s: Signal) {
    (c.watermark.Some? && s.at <= c.watermark.value) || SignalDigest(c, s) in seen
  }

  /** Something is alerted exactly when the rate limit allows it and some candidate is new. */
  lemma {:induction false} ChosenWhenNew(c: Call, p: Progress, signals: seq<Signal>)
    requires p.chosen.None?
    ensures Consume(c, p, signals).chosen.Some? <==>
            Quiet(p.store, c.now) && exists s :: s in signals && !Stale(c, p.store.seen, s)
    ensures Consume(c, p, signals).chosen.None? ==> Consume(c, p, signals).store.lastAlert == p.store.lastAlert
    ensures p.store.seen <= Consume(c, p, signals).store.seen
    ensures Consume(c, p, signals).store.seen == p.store.seen
            <==> forall s :: s in signals ==> Stale(c, p.store.seen, s)
  {
    if signals != [] {
      var n := |signals| - 1;
      ChosenWhenNew(c, p, signals[..n]);
      assert signals == signals[..n] + [signals[n]];
      assert forall s :: s in signals <==> s in signals[..n] || s == signals[n];
      var mid := Consume(c, p, signals[..n]);
      if mid.store.seen == p.store.seen {
        assert forall s :: s in signals[..n] ==> Stale(c, p.store.seen, s);
        assert signals[n] in signals;
      } else {
        var s :| s in signals[..n] && !Stale(c, p.store.seen, s);
        assert s in signals;
        assert |mid.store.seen| > |p.store.seen|;
      }
    }
  }

  function Digests(c: Call, signals: seq<Signal>): seq<string> {
    if signals == [] then []
    else Digests(c, signals[..|signals| - 1]) + [SignalDigest(c, signals[|signals| - 1])]
  }

  /** The candidates the loop consumes, alerted or suppressed: newer than the watermark, not in the log,
      and not already consumed in the same call. */
  function Taken(c: Call, seen: seq<string>, signals: seq<Signal>): seq<Signal> {
    if signals == [] then []
    else
      var rest, s := Taken(c, seen, signals[..|signals| - 1]), signals[|signals| - 1];
      if Stale(c, seen, s) || SignalDigest(c, s) in Digests(c, rest) then rest else rest + [s]
  }

  /** The loop, exactly: the log grows by the digests of what it consumes, the watermark moves to the last
      of them, and the first of them is alerted if the rate limit allows it. */
  predicate HasTaken(c: Call, p: Progress, q: Progress, taken: seq<Signal>) {
    var alerts := taken != [] && Quiet(p.store, c.now);
    && q.store.seen == p.store.seen + Digests(c, taken)
    && q.store.watermarks == (if taken == [] then p.store.watermarks
                              else p.store.watermarks[c.digest(c.session) := taken[|taken| - 1].at])
    && q.chosen == (if alerts then Some(taken[0]) else None)
    && q.store.lastAlert == (if alerts then Some(c.now) else p.store.lastAlert)
    && q.store.preferences == p.store.preferences
  }

  lemma OneMoreTaken(c: Call, p: Progress, mid: Progress, taken: seq<Signal>, s: Signal)
    requires p.chosen.None? && HasTaken(c, p, mid, taken)
    requires !Stale(c, p.store.seen, s) && SignalDigest(c, s) !in Digests(c, taken)
    ensures HasTaken(c, p, ConsumeOne(c, mid, s), taken + [s])
  {
    assert (taken + [s])[..|taken|] == taken;
    if taken == [] {
      assert mid.store.lastAlert == p.store.lastAlert;
    }
  }

  lemma {:induction false} ConsumeExactly(c: Call, p: Progress, signals: seq<Signal>)
    requires p.chosen.None?
    ensures HasTaken(c, p, Consume(c, p, signals), Taken(c, p.store.seen, signals))
  {
    if signals == [] {
      assert p.store.seen + [] == p.store.seen;
    } else {
      var front, s := signals[..|signals| - 1], signals[|signals| - 1];
      var rest := Taken(c, p.store.seen, front);
      ConsumeExactly(c, p, front);
      if !Stale(c, p.store.seen, s) && SignalDigest(c, s) !in Digests(c, rest) {
        OneMoreTaken(c, p, Consume(c, p, front), rest, s);
      }
    }
  }

  lemma {:induction false} TakenAreNew(c: Call, seen: seq<string>, signals: seq<Signal>)
    ensures forall s :: s in Taken(c, seen, signals) ==> s in signals && !Stale(c, seen, s)
  {
    if signals != [] {
      var n := |signals| - 1;
      TakenAreNew(c, seen, signals[..n]);
      assert signals == signals[..n] + [signals[n]];
    }
  }

  lemma {:induction false} TakenInOrder(c: Call, seen: seq<string>, signals: seq<Signal>)
    requires Chronological(signals)
    ensures Chronological(Taken(c, seen, signals))
  {
    if signals != [] {
      var n := |signals| - 1;
      var rest := Taken(c, seen, signals[..n]);
      TakenInOrder(c, seen, signals[..n]);
      TakenAreNew(c, seen, signals[..n]);
      forall i | 0 <= i < |rest| ensures rest[i].at <= signals[n].at {
        assert rest[i] in signals[..n];
      }
    }
  }

  lemma {:induction false} DigestsLength(c: Call, signals: seq<Signal>)
    ensures |Digests(c, signals)| == |signals|
    ensures signals != [] ==> Digests(c, signals)[|signals| - 1] == SignalDigest(c, signals[|signals| - 1])
  {
    if signals != [] { DigestsLength(c, signals[..|signals| - 1]); }
  }

  lemma ConsumeFacts(c: Call, p: Progress, signals: seq<Signal>)
    requires p.chosen.None? && Chronological(signals)
    requires c.watermark == Lookup(p.store.watermarks, c.digest(c.session))
    ensures Consumed(c, p, Consume(c, p, signals), signals)
    ensures LastIsNew(p.store.seen, Consume(c, p, signals).store.seen)
  {
    var taken := Taken(c, p.store.seen, signals);
    ConsumeExactly(c, p, signals);
    TakenInOrder(c, p.store.seen, signals);
    TakenAreNew(c, p.store.seen, signals);
    DigestsLength(c, taken);
    if taken != [] {
      var first, last := taken[0], taken[|taken| - 1];
      assert first in taken && last in taken && first.at <= last.at;
    }
  }

  /** What a publish call has consumed for good: nothing, unless it saved the store. */
  function TakenBy(file: StoreFile, inner: Inner, digest: string -> string, session: string,
                   candidates: seq<Signal>, now: int, io: Io): seq<Signal>
  {
    if Published(file, inner, digest, session, candidates, now, io).file == file then []
    else TakenFrom(Load(file, now).value, digest, session, candidates, now)
  }

  function TakenFrom(loaded: Store, digest: string -> string, session: string, candidates: seq<Signal>, now: int)
    : seq<Signal>
  {
    var watermark := Lookup(Unexpired(loaded.watermarks, now), digest(session));
    Taken(Call(digest, session, now, watermark), loaded.seen, candidates)
  }

  /** The watermark covers everything taken. */
  lemma TakenCovered(c: Call, p: Progress, q: Progress, taken: seq<Signal>)
    requires HasTaken(c, p, q, taken) && Chronological(taken)
    ensures forall s :: s in taken ==>
              c.digest(c.session) in q.store.watermarks && s.at <= q.store.watermarks[c.digest(c.session)]
  {
    forall s | s in taken ensures s.at <= taken[|taken| - 1].at {
      var i :| 0 <= i < |taken| && taken[i] == s;
    }
  }

  /** What the loop settles, when it consumes anything. */
  lemma DigestedSettles(loaded: Store, digest: string -> string, session: string, candidates: seq<Signal>, now: int)
    requires Chronological(candidates) && StoreWithinBounds(loaded) && NotFromTheFuture(loaded, now)
    ensures var p := Digested(loaded, digest, session, candidates, now);
            var taken := TakenFrom(loaded, digest, session, candidates, now);
            && (p.chosen.Some? ==> taken != [] && p.chosen.value == taken[0])
            && (forall s :: s in taken ==>
                  digest(session) in p.store.watermarks && s.at <= p.store.watermarks[digest(session)])
            && (p.store.seen != loaded.seen ==> taken != [] && HeldBack(loaded.lastAlert, p.store.lastAlert, now))
  {
    var kept := Unexpired(loaded.watermarks, now);
    var c := Call(digest, session, now, Lookup(kept, digest(session)));
    var start := Progress(loaded.(watermarks := kept), None);
    var taken := Taken(c, loaded.seen, candidates);
    ConsumeExactly(c, start, candidates);
    TakenInOrder(c, loaded.seen, candidates);
    TakenCovered(c, start, Consume(c, start, candidates), taken);
    if taken == [] {
      assert Digests(c, taken) == [] && loaded.seen + [] == loaded.seen;
    }
  }

  /** The latest alert has not moved back, and is now less than thirty seconds old. */
  predicate HeldBack(before: Option<int>, after: Option<int>, now: int) {
    && after.Some? && now - after.value < 30 * SECOND
    && (before.Some? ==> before.value <= after.value)
  }

  /** A publish call changes the file only by saving the digested store, and alerts only then. */
  lemma PublishCases(file: StoreFile, inner: Inner, digest: string -> string, session: string,
                     candidates: seq<Signal>, now: int, io: Io)
    requires Chronological(candidates)
    ensures var o := Published(file, inner, digest, session, candidates, now, io);
            if o.file == file then o.chosen.None?
            else
              && Load(file, now).Some?
              && var loaded := Load(file, now).value;
              && var p := Digested(loaded, digest, session, candidates, now);
              && var unexpired := Unexpired(loaded.watermarks, now);
              && (digest(session) in unexpired || |unexpired| < MAX_SESSIONS)
              && p.store.seen != loaded.seen && o.file == Saved(p.store) && o.chosen == p.chosen
  {
    if Load(file, now).Some? {
      DigestedFacts(Load(file, now).value, digest, session, candidates, now);
    }
  }

  /** What every publish call guarantees, in terms of the saved file alone. */
  lemma PublishFacts(file: StoreFile, inner: Inner, digest: string -> string, session: string,
                     candidates: seq<Signal>, now: int, io: Io)
    requires Chronological(candidates)
    ensures var o := Published(file, inner, digest, session, candidates, now, io);
            && Remembers(file, o.file, now)
            && (file.Saved? ==> o.file.Saved?)
            && (o.chosen.Some? ==> Announced(file, o.file, digest(session), candidates, now, o.chosen.value))
            && (o.chosen.None? ==> LastAlertOf(o.file) == LastAlertOf(file))
            && (FileWithinBounds(file) ==> FileWithinBounds(o.file))
  {
    PublishCases(file, inner, digest, session, candidates, now, io);
    if Published(file, inner, digest, session, candidates, now, io).file != file {
      DigestedFacts(Load(file, now).value, digest, session, candidates, now);
      DigestedBounds(Load(file, now).value, digest, session, candidates, now);
    }
  }

  /** Saving the store is what consumes: the watermark covers everything consumed, an alert is about the
      first of it, and the latest alert is less than thirty seconds old, whether it was raised now or
      held this one back. */
  lemma SavedSettles(file: StoreFile, inner: Inner, digest: string -> string, session: string,
                     candidates: seq<Signal>, now: int, io: Io)
    requires Chronological(candidates)
    ensures var o := Published(file, inner, digest, session, candidates, now, io);
            var taken := TakenBy(file, inner, digest, session, candidates, now, io);
            && (o.chosen.Some? ==> taken != [] && o.chosen.value == taken[0])
            && (forall s :: s in taken ==>
                  digest(session) in WatermarksOf(o.file) && s.at <= WatermarksOf(o.file)[digest(session)])
            && (o.file != file ==> HeldBack(LastAlertOf(file), LastAlertOf(o.file), now))
  {
    PublishCases(file, inner, digest, session, candidates, now, io);
    if Published(file, inner, digest, session, candidates, now, io).file != file {
      DigestedSettles(Load(file, now).value, digest, session, candidates, now);
    }
  }

  /** And what it does to the service. */
  lemma PublishServiceFacts(file: StoreFile, inner: Inner, digest: string -> string, session: string,
                            candidates: seq<Signal>, now: int, io: Io)
    requires Chronological(candidates)
    ensures var o := Published(file, inner, digest, session, candidates, now, io);
            && (!o.ok ==> o.file == file && o.inner == inner)
            && (|inner.alerts| <= MAX_ALERTS ==> |o.inner.alerts| <= MAX_ALERTS)
            && (o.ok ==> o.inner.store.preferences == inner.store.preferences)
            && o.inner == inner.(store := o.inner.store, alerts := o.inner.alerts)
  {
    if io.lockFree && Load(file, now).Some? && Load(file, now).value.preferences == inner.store.preferences {
      DigestedFacts(Load(file, now).value, digest, session, candidates, now);
    }
  }

  lemma DigestedFacts(loaded: Store, digest: string -> string, session: string, candidates: seq<Signal>, now: int)
    requires Chronological(candidates)
    ensures var p := Digested(loaded, digest, session, candidates, now);
            && (p.store.seen != loaded.seen ==> Remembers(Saved(loaded), Saved(p.store), now))
            && p.store.preferences == loaded.preferences
            && (p.store.seen == loaded.seen ==> p.chosen.None?)
            && (p.chosen.Some? ==>
                 Announced(Saved(loaded), Saved(p.store), digest(session), candidates, now, p.chosen.value))
            && (p.chosen.None? ==> p.store.lastAlert == loaded.lastAlert)
  {
    var kept := Unexpired(loaded.watermarks, now);
    var c := Call(digest, session, now, Lookup(kept, digest(session)));
    var start := Progress(loaded.(watermarks := kept), None);
    ConsumeFacts(c, start, candidates);
    TrimmedLogStillNew(loaded.seen, Consume(c, start, candidates).store.seen);
  }

  lemma DigestedBounds(loaded: Store, digest: string -> string, session: string, candidates: seq<Signal>, now: int)
    requires Chronological(candidates) && StoreWithinBounds(loaded)
    requires var kept := Unexpired(loaded.watermarks, now); digest(session) in kept || |kept| < MAX_SESSIONS
    ensures StoreWithinBounds(Digested(loaded, digest, session, candidates, now).store)
  {
    var kept := Unexpired(loaded.watermarks, now);
    var c := Call(digest, session, now, Lookup(kept, digest(session)));
    var start := Progress(loaded.(watermarks := kept), None);
    ConsumeFacts(c, start, candidates);
    SubsetCount(kept.Keys, loaded.watermarks.Keys);
    assert |kept| == |kept.Keys| && |loaded.watermarks| == |loaded.watermarks.Keys|;
    WatermarkCount(kept, Consume(c, start, candidates).store.watermarks, digest(session));
  }

  function WatermarksOf(file: StoreFile): map<string, int> {
    if file.Saved? then file.store.watermarks else map[]
  }

  function LastAlertOf(file: StoreFile): Option<int> {
    if file.Saved? then file.store.lastAlert else None
  }

  predicate FileWithinBounds(file: StoreFile) {
    file.Saved? ==> StoreWithinBounds(file.store)
  }

  /** Every watermark that has not expired survives, and never moves back. */
  ghost predicate Remembers(file: StoreFile, file': StoreFile, now: int) {
    forall k :: k in WatermarksOf(file) && now - WatermarksOf(file)[k] <= HOUR ==>
                  k in WatermarksOf(file') && WatermarksOf(file')[k] >= WatermarksOf(file)[k]
  }

  /** An alert for `s` is already recorded in the saved file, and was allowed by what was saved before. */
  ghost predicate Announced(file: StoreFile, file': StoreFile, ref: string, candidates: seq<Signal>, now: int,
                            s: Signal) {
    && s in candidates
    && file'.Saved?
    && ref in file'.store.watermarks && s.at <= file'.store.watermarks[ref]
    && file'.store.lastAlert == Some(now)
    && (LastAlertOf(file).Some? ==> now - LastAlertOf(file).value >= 30 * SECOND)
    && (ref in WatermarksOf(file) && now - WatermarksOf(file)[ref] <= HOUR ==> WatermarksOf(file)[ref] < s.at)
  }

  /** Cutting the log to its newest entries never hides that something was appended. */
  lemma TrimmedLogStillNew(before: seq<string>, after: seq<string>)
    requires before <= after && LastIsNew(before, after)
    ensures LastOf(after, MAX_SEEN) == before ==> after == before
  {
  }

  lemma WatermarkCount(before: map<string, int>, after: map<string, int>, ref: string)
    requires forall k :: k != ref ==> (k in after <==> k in before)
    ensures ref in before ==> |after| <= |before|
    ensures |after| <= |before| + 1
  {
    assert after.Keys <= before.Keys + {ref};
    SubsetCount(after.Keys, before.Keys + {ref});
    if ref in before {
      assert before.Keys + {ref} == before.Keys;
    }
    assert |after.Keys| == |after| && |before.Keys| == |before|;
  }

  // ----- the other operations

  /** The fields of a session that attention looks at; `signals` is in time order. */
  datatype SessionView = SessionView(
    storageId: string, provider: string, archived: bool, sourcePresent: bool, signals: seq<Signal>)

  function OpenInner(file: StoreFile, now: int): Inner {
    var loaded := Load(file, now);
    Inner(if loaded.Some? then loaded.value else DEFAULT_STORE, loaded.Some?, now, map[], [])
  }

  predicate Ignores(inner: Inner, s: SessionView) {
    || !inner.available
    || inner.store.preferences.categories == {}
    || s.archived
    || !s.sourcePresent
    || (inner.store.preferences.providers != {} && s.provider !in inner.store.preferences.providers)
  }

  /** The newest signal that is not in the future. */
  function Latest(signals: seq<Signal>, now: int): (r: Option<Signal>)
    ensures r.Some? ==> r.value in signals && r.value.at <= now
    ensures r.None? ==> forall s :: s in signals ==> s.at > now
  {
    if signals == [] then None
    else
      var last := signals[|signals| - 1];
      if last.at <= now then Some(last) else Latest(signals[..|signals| - 1], now)
  }

  predicate IsCandidate(inner: Inner, s: Signal, now: int) {
    var prefs := inner.store.preferences;
    && inner.armedAt <= s.at <= now
    && now - s.at <= prefs.staleAfterSeconds * SECOND
    && s.category in prefs.categories
    && (s.toolKind.None? || prefs.toolKind.None? || prefs.toolKind == s.toolKind)
  }

  function Candidates(inner: Inner, signals: seq<Signal>, now: int): (r: seq<Signal>)
    ensures forall s :: s in r <==> s in signals && IsCandidate(inner, s, now)
  {
    if signals == [] then []
    else
      var n := |signals| - 1;
      var rest := Candidates(inner, signals[..n], now);
      assert signals == signals[..n] + [signals[n]];
      if IsCandidate(inner, signals[n], now) then rest + [signals[n]] else rest
  }

  lemma {:induction false} CandidatesInOrder(inner: Inner, signals: seq<Signal>, now: int)
    requires Chronological(signals)
    ensures Chronological(Candidates(inner, signals, now))
  {
    if signals != [] {
      var n := |signals| - 1;
      var rest := Candidates(inner, signals[..n], now);
      CandidatesInOrder(inner, signals[..n], now);
      forall i | 0 <= i < |rest| ensures rest[i].at <= signals[n].at {
        assert rest[i] in signals[..n];
      }
    }
  }

  predicate IsOldest(table: map<string, Observation>, k: string) {
    k in table && forall k' :: k' in table ==> table[k].observedAt <= table[k'].observedAt
  }

  /** The observation table after one session: newest observation kept, oldest session evicted over the limit. */
  ghost predicate TableUpdated(before: map<string, Observation>, after: map<string, Observation>,
                               digest: string -> string, s: SessionView, latest: Signal) {
    var observation := Observation(digest(s.storageId), latest.category, latest.at);
    var table := if s.storageId !in before || before[s.storageId].observedAt <= latest.at
                 then before[s.storageId := observation] else before;
    if |table| <= MAX_SESSIONS then after == table
    else exists k :: IsOldest(table, k) && after == table - {k}
  }

  /** `observe`, given the table it leaves. */
  function Observed(file: StoreFile, inner: Inner, digest: string -> string, s: SessionView,
                   now: int, live: bool, io: Io, table: map<string, Observation>): Outcome
  {
    if Ignores(inner, s) || Latest(s.signals, now).None? then Outcome(file, inner, true, None)
    else
      var inner := inner.(observations := table);
      var candidates := Candidates(inner, s.signals, now);
      if !live || candidates == [] then Outcome(file, inner, true, None)
      else
        var o := Published(file, inner, digest, s.storageId, candidates, now, io);
        if o.ok then o else o.(inner := inner.(available := false, alerts := []))
  }

  /** `preferences`: the new file, the new service state, and the saved preferences when it succeeds. */
  function PreferencesSaved(file: StoreFile, inner: Inner, update: Preferences, now: int, io: Io)
    : (StoreFile, Inner, Option<Preferences>)
  {
    if !ValidPreferences(update) || !io.lockFree || Load(file, now).None? || !io.saves
       || update.revision != Load(file, now).value.preferences.revision
    then (file, inner, None)
    else
      var saved := update.(revision := update.revision + 1);
      var store := Load(file, now).value.(preferences := saved);
      (Saved(store), Inner(store, true, now, map[], []), Some(saved))
  }

  /** The part of `snapshot` that changes the service: the store on disk is authoritative. */
  function Refreshed(file: StoreFile, inner: Inner, now: int): Inner {
    match Load(file, now)
    case None => inner.(available := false, alerts := [])
    case Some(store) =>
      if store.preferences != inner.store.preferences
      then inner.(store := store, observations := map[], alerts := [], armedAt := now)
      else inner.(store := store)
  }

  // ----- the service

  /** The store file that every process of one user shares. */
  class StoreDisk {
    var file: StoreFile

    constructor (file: StoreFile)
      ensures this.file == file
    {
      this.file := file;
    }
  }

  class AttentionService {
    const digest: string -> string
    const disk: StoreDisk
    var inner: Inner

    constructor (disk: StoreDisk, digest: string -> string, now: int)
      ensures this.disk == disk && this.digest == digest
      ensures inner == OpenInner(disk.file, now)
    {
      this.disk, this.digest := disk, digest;
      inner := OpenInner(disk.file, now);
    }

    method Publish(session: string, candidates: seq<Signal>, now: int, io: Io)
      returns (ok: bool, chosen: Option<Signal>)
      modifies this, disk
      ensures Outcome(disk.file, inner, ok, chosen) ==
              Published(old(disk.file), old(inner), digest, session, candidates, now, io)
      ensures if chosen.Some? then
                var s := chosen.value;
                var alert := Alert(digest(session + "\0" + s.id), digest(session), s.category, s.at);
                ok && IsNewest(inner.alerts, old(inner).alerts + [alert], MAX_ALERTS)
              else inner.alerts == old(inner).alerts
    {
      if !io.lockFree { return false, None; }
      var loaded := Load(disk.file, now);
      if loaded.None? || loaded.value.preferences != inner.store.preferences { return false, None; }
      var ref := digest(session);
      var kept := Unexpired(loaded.value.watermarks, now);
      if ref !in kept && |kept| >= MAX_SESSIONS { return true, None; }
      var p := DigestCandidates(loaded.value, digest, session, candidates, now);
      if p.store.seen != loaded.value.seen {
        if !io.saves { return false, None; }
        disk.file := Saved(p.store);
      }
      inner := inner.(store := p.store);
      if p.chosen.Some? {
        var signal := p.chosen.value;
        var alerts := inner.alerts + [Alert(digest(session + "\0" + signal.id), ref, signal.category, signal.at)];
        LastIsNewest(alerts, MAX_ALERTS);
        inner := inner.(alerts := LastOf(alerts, MAX_ALERTS));
      }
      return true, p.chosen;
    }

    method Observe(s: SessionView, now: int, live: bool, io: Io) returns (chosen: Option<Signal>)
      modifies this, disk
      ensures Outcome(disk.file, inner, true, chosen) ==
              Observed(old(disk.file), old(inner), digest, s, now, live, io, inner.observations).(ok := true)
      ensures !Ignores(old(inner), s) && Latest(s.signals, now).Some? ==>
                TableUpdated(old(inner).observations, inner.observations, digest, s, Latest(s.signals, now).value)
    {
      if Ignores(inner, s) { return None; }
      var latest := Latest(s.signals, now);
      if latest.None? { return None; }
      UpdateTable(s, latest.value);
      if !live { return None; }
      var candidates := Candidates(inner, s.signals, now);
      if candidates == [] { return None; }
      var ok;
      ok, chosen := Publish(s.storageId, candidates, now, io);
      if !ok {
        inner := inner.(available := false, alerts := []);
      }
    }

    method UpdateTable(s: SessionView, latest: Signal)
      modifies this
      ensures inner == old(inner).(observations := inner.observations)
      ensures TableUpdated(old(inner).observations, inner.observations, digest, s, latest)
    {
      var table := inner.observations;
      if s.storageId !in table || table[s.storageId].observedAt <= latest.at {
        table := table[s.storageId := Observation(digest(s.storageId), latest.category, latest.at)];
      }
      if |table| > MAX_SESSIONS {
        var oldest := Oldest(table);
        table := table - {oldest};
      }
      inner := inner.(observations := table);
    }

    method SavePreferences(update: Preferences, now: int, io: Io) returns (r: Option<Preferences>)
      modifies this, disk
      ensures (disk.file, inner, r) == PreferencesSaved(old(disk.file), old(inner), update, now, io)
    {
      if !ValidPreferences(update) || !io.lockFree { return None; }
      var loaded := Load(disk.file, now);
      if loaded.None? || update.revision != loaded.value.preferences.revision { return None; }
      var saved := update.(revision := update.revision + 1);
      var store := loaded.value.(preferences := saved);
      if !io.saves { return None; }
      disk.file := Saved(store);
      inner := Inner(store, true, now, map[], []);
      return Some(saved);
    }

    method Refresh(now: int)
      modifies this
      ensures inner == Refreshed(disk.file, old(inner), now)
    {
      var loaded := Load(disk.file, now);
      if loaded.None? {
        inner := inner.(available := false, alerts := []);
      } else {
        if loaded.value.preferences != inner.store.preferences {
          inner := inner.(observations := map[], alerts := [], armedAt := now);
        }
        inner := inner.(store := loaded.value);
      }
    }
  }

  /** The loop of `publish`: consumes the candidates in order and chooses at most one for an alert. */
  method DigestCandidates(loaded: Store, digest: string -> string, session: string, candidates: seq<Signal>, now: int)
    returns (p: Progress)
    ensures p == Digested(loaded, digest, session, candidates, now)
  {
    var store := loaded.(watermarks := Unexpired(loaded.watermarks, now));
    var ref := digest(session);
    var watermark := Lookup(store.watermarks, ref);
    ghost var c, begin := Call(digest, session, now, watermark), Progress(store, None);
    var alert: Option<Signal> := None;
    for i := 0 to |candidates|
      invariant Progress(store, alert) == Consume(c, begin, candidates[..i])
    {
      assert candidates[..i + 1][..i] == candidates[..i];
      var signal := candidates[i];
      if watermark.Some? && signal.at <= watermark.value { continue; }
      var id := digest(session + "\0" + signal.id);
      if id in store.seen { continue; }
      var quiet := store.lastAlert.None? || now - store.lastAlert.value >= 30 * SECOND;
      store := store.(seen := store.seen + [id], watermarks := store.watermarks[ref := signal.at]);
      if alert.None? && quiet {
        store := store.(lastAlert := Some(now));
        alert := Some(signal);
      }
    }
    assert candidates[..|candidates|] == candidates;
    if |store.seen| > MAX_SEEN {
      store := store.(seen := store.seen[|store.seen| - MAX_SEEN..]);
    }
    return Progress(store, alert);
  }

  /** The least recently observed session. */
  method Oldest(table: map<string, Observation>) returns (oldest: string)
    requires |table| > 0
    ensures IsOldest(table, oldest)
  {
    var left := table.Keys;
    assert |left| > 0;
    oldest :| oldest in left;
    left := left - {oldest};
    while left != {}
      invariant oldest in table && left <= table.Keys
      invariant forall k :: k in table && k !in left ==> table[oldest].observedAt <= table[k].observedAt
      decreases |left|
    {
      var k :| k in left;
      if table[k].observedAt < table[oldest].observedAt {
        oldest := k;
      }
      left := left - {k};
    }
  }
}
