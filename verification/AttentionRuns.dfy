/**
 Runs of any number of attention services over one shared store file: openings
 (restarts), preference changes, observations and snapshots in any order, with
 failing locks and failing saves (src-tauri/src/attention.rs).
 */
module AttentionRuns {
  import opened Prelude
  import opened Attention

  datatype Event =
    | Opened(at: int)
    | ChangedPreferences(service: nat, update: Preferences, at: int, io: Io)
    | ObservedSession(service: nat, session: SessionView, at: int, live: bool, io: Io, table: map<string, Observation>)
    | Snapped(service: nat, at: int)

  /** One alert ever published, by the session and signal it is about. */
  datatype Delivery = Delivery(session: string, signal: Signal, at: int)

  /** One signal consumed for good, alerted or suppressed. */
  datatype Consumption = Consumption(session: string, signal: Signal)

  datatype World = World(file: StoreFile, services: seq<Inner>, history: seq<Delivery>, consumed: seq<Consumption>)

  function ConsumptionsOf(session: string, signals: seq<Signal>): (r: seq<Consumption>)
    ensures |r| == |signals| && forall i :: 0 <= i < |r| ==> r[i] == Consumption(session, signals[i])
  {
    seq(|signals|, i requires 0 <= i < |signals| => Consumption(session, signals[i]))
  }

  /** What an observation consumes: the candidates of its publish call, if that saved the store. */
  function ConsumedBy(file: StoreFile, inner: Inner, digest: string -> string, s: SessionView,
                      now: int, live: bool, io: Io, table: map<string, Observation>): seq<Signal>
  {
    if Ignores(inner, s) || Latest(s.signals, now).None? then []
    else
      var inner := inner.(observations := table);
      var candidates := Candidates(inner, s.signals, now);
      if !live || candidates == [] then [] else TakenBy(file, inner, digest, s.storageId, candidates, now, io)
  }

  ghost predicate Step(digest: string -> string, w: World, e: Event, w': World) {
    match e
    case Opened(at) => w' == w.(services := w.services + [OpenInner(w.file, at)])
    case ChangedPreferences(i, update, at, io) =>
      && i < |w.services|
      && var (file, inner, _) := PreferencesSaved(w.file, w.services[i], update, at, io);
      w' == w.(file := file, services := w.services[i := inner])
    case ObservedSession(i, s, at, live, io, table) =>
      && i < |w.services|
      && Chronological(s.signals)
      && (!Ignores(w.services[i], s) && Latest(s.signals, at).Some? ==>
            TableUpdated(w.services[i].observations, table, digest, s, Latest(s.signals, at).value))
      && var o := Observed(w.file, w.services[i], digest, s, at, live, io, table);
      w' == World(o.file, w.services[i := o.inner],
                  w.history + (if o.chosen.Some? then [Delivery(s.storageId, o.chosen.value, at)] else []),
                  w.consumed + ConsumptionsOf(s.storageId,
                    ConsumedBy(w.file, w.services[i], digest, s, at, live, io, table)))
    case Snapped(i, at) =>
      && i < |w.services|
      && w' == w.(services := w.services[i := Refreshed(w.file, w.services[i], at)])
  }

  /** A run from a store file left by earlier use, with no service open yet. */
  ghost predicate Run(digest: string -> string, ws: seq<World>, es: seq<Event>) {
    && |ws| == |es| + 1
    && ws[0].services == [] && ws[0].history == [] && ws[0].consumed == [] && FileWithinBounds(ws[0].file)
    && forall i :: 0 <= i < |es| ==> Step(digest, ws[i], es[i], ws[i + 1])
  }

  // ----- one observation

  /** What an observation does to the file and the history. */
  lemma ObservedFacts(digest: string -> string, w: World, e: Event, w': World)
    requires e.ObservedSession? && Step(digest, w, e, w')
    ensures Remembers(w.file, w'.file, e.at)
    ensures FileWithinBounds(w.file) ==> FileWithinBounds(w'.file)
    ensures w'.history == w.history ==> LastAlertOf(w'.file) == LastAlertOf(w.file)
    ensures w'.history != w.history ==>
              && |w'.history| == |w.history| + 1
              && w'.history[..|w.history|] == w.history
              && var d := w'.history[|w.history|];
              && d.at == e.at
              && d.signal.at <= e.at
              && e.at - d.signal.at <= w.services[e.service].store.preferences.staleAfterSeconds * SECOND
              && Announced(w.file, w'.file, digest(d.session), [d.signal], e.at, d.signal)
    ensures w'.services[e.service].store.preferences == w.services[e.service].store.preferences
    ensures |w.services[e.service].alerts| <= MAX_ALERTS ==> |w'.services[e.service].alerts| <= MAX_ALERTS
  {
    var inner, s := w.services[e.service], e.session;
    if !Ignores(inner, s) && Latest(s.signals, e.at).Some? {
      var inner' := inner.(observations := e.table);
      var candidates := Candidates(inner', s.signals, e.at);
      CandidatesInOrder(inner', s.signals, e.at);
      if e.live && candidates != [] {
        PublishFacts(w.file, inner', digest, s.storageId, candidates, e.at, e.io);
        PublishServiceFacts(w.file, inner', digest, s.storageId, candidates, e.at, e.io);
      }
    }
  }

  // ----- rate limit and bounds, under any clock

  predicate Spaced(history: seq<Delivery>) {
    forall i, j :: 0 <= i < j < |history| ==> history[j].at - history[i].at >= 30 * SECOND
  }

  ghost predicate WithinLimits(w: World) {
    && FileWithinBounds(w.file)
    && forall i :: 0 <= i < |w.services| ==> ServiceWithinLimits(w.services[i])
  }

  predicate ServiceWithinLimits(inner: Inner) {
    && |inner.observations| <= MAX_SESSIONS
    && |inner.alerts| <= MAX_ALERTS
    && ValidPreferences(inner.store.preferences)
  }

  ghost predicate RateInvariant(w: World) {
    && Spaced(w.history)
    && (w.history != [] ==> LastAlertOf(w.file) == Some(w.history[|w.history| - 1].at))
  }

  // ----- what a step leaves, in terms of the file

  /** A watermark on file covers the signal, or it is so old that no alert the rate limit still allows could be
      about it. */
  predicate Settled(file: StoreFile, ref: string, signal: Signal) {
    || (ref in WatermarksOf(file) && signal.at <= WatermarksOf(file)[ref])
    || (LastAlertOf(file).Some? && LastAlertOf(file).value + 30 * SECOND - signal.at > HOUR)
  }

  ghost predicate SettledFrom(digest: string -> string, file: StoreFile, consumed: seq<Consumption>, from: nat) {
    forall i :: from <= i < |consumed| ==> Settled(file, digest(consumed[i].session), consumed[i].signal)
  }

  /** The one alert a step may raise: announced by what is saved, not stale, and among what the step consumed. */
  ghost predicate Raised(digest: string -> string, w: World, now: int, w': World) {
    && |w'.history| == |w.history| + 1 && w'.history[..|w.history|] == w.history
    && var d := w'.history[|w.history|];
       && d.at == now && d.signal.at <= now && now - d.signal.at <= HOUR
       && Announced(w.file, w'.file, digest(d.session), [d.signal], now, d.signal)
       && Consumption(d.session, d.signal) in w'.consumed
  }

  /** What every step does, whoever takes it: unexpired watermarks survive, the latest alert does not move back and
      is fresh whenever the watermarks were touched, and what is consumed is settled. */
  ghost predicate Effect(digest: string -> string, w: World, e: Event, w': World) {
    && Remembers(w.file, w'.file, e.at)
    && (|| (WatermarksOf(w'.file) == WatermarksOf(w.file) && LastAlertOf(w'.file) == LastAlertOf(w.file))
        || HeldBack(LastAlertOf(w.file), LastAlertOf(w'.file), e.at))
    && w.consumed <= w'.consumed && SettledFrom(digest, w'.file, w'.consumed, |w.consumed|)
    && (w'.history == w.history ==> LastAlertOf(w'.file) == LastAlertOf(w.file))
    && (w'.history != w.history ==> Raised(digest, w, e.at, w'))
  }

  lemma NewlyConsumed(digest: string -> string, file: StoreFile, before: seq<Consumption>, session: string,
                      taken: seq<Signal>)
    requires forall s :: s in taken ==>
               digest(session) in WatermarksOf(file) && s.at <= WatermarksOf(file)[digest(session)]
    ensures SettledFrom(digest, file, before + ConsumptionsOf(session, taken), |before|)
    ensures taken != [] ==> Consumption(session, taken[0]) in before + ConsumptionsOf(session, taken)
  {
    var all := before + ConsumptionsOf(session, taken);
    forall i | |before| <= i < |all| ensures Settled(file, digest(all[i].session), all[i].signal) {
      assert taken[i - |before|] in taken;
    }
    assert taken != [] ==> all[|before|] == Consumption(session, taken[0]);
  }

  /** What an observation consumes is settled by what it saves. */
  lemma ObservedSettles(digest: string -> string, w: World, e: Event, w': World)
    requires e.ObservedSession? && Step(digest, w, e, w')
    ensures w.consumed <= w'.consumed && SettledFrom(digest, w'.file, w'.consumed, |w.consumed|)
    ensures w'.history != w.history ==>
              var d := w'.history[|w.history|]; Consumption(d.session, d.signal) in w'.consumed
    ensures w'.file != w.file ==> HeldBack(LastAlertOf(w.file), LastAlertOf(w'.file), e.at)
  {
    var inner, s := w.services[e.service], e.session;
    if !Ignores(inner, s) && Latest(s.signals, e.at).Some? {
      var inner' := inner.(observations := e.table);
      var candidates := Candidates(inner', s.signals, e.at);
      CandidatesInOrder(inner', s.signals, e.at);
      if e.live && candidates != [] {
        var taken := TakenBy(w.file, inner', digest, s.storageId, candidates, e.at, e.io);
        SavedSettles(w.file, inner', digest, s.storageId, candidates, e.at, e.io);
        NewlyConsumed(digest, w'.file, w.consumed, s.storageId, taken);
      }
    }
  }

  lemma StepEffect(digest: string -> string, w: World, e: Event, w': World)
    requires Step(digest, w, e, w') && WithinLimits(w)
    ensures Effect(digest, w, e, w')
  {
    if e.ObservedSession? {
      ObservedFacts(digest, w, e, w');
      ObservedSettles(digest, w, e, w');
      assert ServiceWithinLimits(w.services[e.service]);
    } else {
      assert w'.consumed == w.consumed && w'.history == w.history;
      assert WatermarksOf(w'.file) == WatermarksOf(w.file) && LastAlertOf(w'.file) == LastAlertOf(w.file);
    }
  }

  lemma TableCount(before: map<string, Observation>, after: map<string, Observation>,
                   digest: string -> string, s: SessionView, latest: Signal)
    requires TableUpdated(before, after, digest, s, latest) && |before| <= MAX_SESSIONS
    ensures |after| <= MAX_SESSIONS
  {
  }

  lemma ObservingKeepsLimits(digest: string -> string, w: World, e: Event, w': World)
    requires e.ObservedSession? && Step(digest, w, e, w') && ServiceWithinLimits(w.services[e.service])
    ensures ServiceWithinLimits(w'.services[e.service])
  {
    ObservedFacts(digest, w, e, w');
    var inner, s := w.services[e.service], e.session;
    if !Ignores(inner, s) && Latest(s.signals, e.at).Some? {
      TableCount(inner.observations, e.table, digest, s, Latest(s.signals, e.at).value);
    }
  }

  lemma OtherStepsKeepLimits(digest: string -> string, w: World, e: Event, w': World)
    requires !e.ObservedSession? && Step(digest, w, e, w') && WithinLimits(w)
    ensures WithinLimits(w')
  {
    match e
    case Opened(at) =>
    case ChangedPreferences(i, update, at, io) =>
      assert ServiceWithinLimits(w.services[i]) && ServiceWithinLimits(w'.services[i]);
    case Snapped(i, at) =>
      assert ServiceWithinLimits(w.services[i]) && ServiceWithinLimits(w'.services[i]);
  }

  lemma LimitsStep(digest: string -> string, w: World, e: Event, w': World)
    requires Step(digest, w, e, w') && WithinLimits(w)
    ensures WithinLimits(w')
  {
    if e.ObservedSession? {
      ObservedFacts(digest, w, e, w');
      ObservingKeepsLimits(digest, w, e, w');
    } else {
      OtherStepsKeepLimits(digest, w, e, w');
    }
  }

  /** One more alert, no sooner than thirty seconds after the latest. */
  lemma OneMoreSpaced(history: seq<Delivery>, history': seq<Delivery>)
    requires Spaced(history) && |history'| == |history| + 1 && history'[..|history|] == history
    requires history != [] ==> history'[|history|].at - history[|history| - 1].at >= 30 * SECOND
    ensures Spaced(history')
  {
    forall i, j | 0 <= i < j < |history'| ensures history'[j].at - history'[i].at >= 30 * SECOND {
      assert history'[i] == history[i];
      assert j < |history| ==> history'[j] == history[j];
    }
  }

  lemma RateStep(digest: string -> string, w: World, e: Event, w': World)
    requires Effect(digest, w, e, w') && RateInvariant(w)
    ensures RateInvariant(w')
  {
    if w'.history != w.history {
      OneMoreSpaced(w.history, w'.history);
    }
  }

  /** Alerts are at least thirty seconds apart across all services, however the clock jumps; and the
      bounds on the log, the watermarks, the observations and the alerts hold in every reachable state. */
  lemma {:induction false} AlertsAreSpaced(digest: string -> string, ws: seq<World>, es: seq<Event>, n: nat)
    requires Run(digest, ws, es) && n < |ws|
    ensures RateInvariant(ws[n]) && WithinLimits(ws[n])
  {
    if n > 0 {
      AlertsAreSpaced(digest, ws, es, n - 1);
      StepEffect(digest, ws[n - 1], es[n - 1], ws[n]);
      RateStep(digest, ws[n - 1], es[n - 1], ws[n]);
      LimitsStep(digest, ws[n - 1], es[n - 1], ws[n]);
    }
  }

  // ----- no replay, under any clock

  /** What has been consumed is settled, and what has been alerted was consumed. */
  ghost predicate AllSettled(digest: string -> string, w: World) {
    && SettledFrom(digest, w.file, w.consumed, 0)
    && forall i :: 0 <= i < |w.history| ==> Consumption(w.history[i].session, w.history[i].signal) in w.consumed
  }

  /** A save that forgets the watermark covering a signal leaves an alert time that settles it instead. */
  lemma StaysSettled(digest: string -> string, w: World, e: Event, w': World, ref: string, signal: Signal)
    requires Effect(digest, w, e, w') && Settled(w.file, ref, signal)
    ensures Settled(w'.file, ref, signal)
  {
    if ref in WatermarksOf(w.file) && e.at - WatermarksOf(w.file)[ref] <= HOUR {
      assert ref in WatermarksOf(w'.file);
    }
  }

  /** An alert that the rate limit allows is about something later than all that is settled for its session. */
  lemma AlertIsLater(file: StoreFile, file': StoreFile, ref: string, candidates: seq<Signal>, now: int,
                     s: Signal, earlier: Signal)
    requires Settled(file, ref, earlier) && Announced(file, file', ref, candidates, now, s) && now - s.at <= HOUR
    ensures earlier.at < s.at
  {
  }

  lemma SettledStep(digest: string -> string, w: World, e: Event, w': World)
    requires Effect(digest, w, e, w') && AllSettled(digest, w)
    ensures AllSettled(digest, w')
  {
    forall i | 0 <= i < |w'.consumed|
      ensures Settled(w'.file, digest(w'.consumed[i].session), w'.consumed[i].signal)
    {
      if i < |w.consumed| {
        StaysSettled(digest, w, e, w', digest(w.consumed[i].session), w.consumed[i].signal);
      }
    }
    forall i | 0 <= i < |w'.history|
      ensures Consumption(w'.history[i].session, w'.history[i].signal) in w'.consumed
    {
      if i < |w.history| { assert w'.history[i] == w.history[i]; }
    }
  }

  lemma EveryStepHasEffect(digest: string -> string, ws: seq<World>, es: seq<Event>, n: nat)
    requires Run(digest, ws, es) && n < |es|
    ensures Effect(digest, ws[n], es[n], ws[n + 1])
  {
    AlertsAreSpaced(digest, ws, es, n);
    StepEffect(digest, ws[n], es[n], ws[n + 1]);
  }

  lemma {:induction false} AlwaysSettled(digest: string -> string, ws: seq<World>, es: seq<Event>, n: nat)
    requires Run(digest, ws, es) && n < |ws|
    ensures AllSettled(digest, ws[n])
  {
    if n > 0 {
      AlwaysSettled(digest, ws, es, n - 1);
      EveryStepHasEffect(digest, ws, es, n - 1);
      SettledStep(digest, ws[n - 1], es[n - 1], ws[n]);
    }
  }

  /** What has been consumed is never taken back. */
  predicate Growing(ws: seq<World>) {
    forall i :: 0 < i < |ws| ==> ws[i - 1].consumed <= ws[i].consumed
  }

  lemma ConsumedGrows(digest: string -> string, ws: seq<World>, es: seq<Event>)
    requires Run(digest, ws, es)
    ensures Growing(ws)
  {
    forall i | 0 < i < |ws| ensures ws[i - 1].consumed <= ws[i].consumed {
      EveryStepHasEffect(digest, ws, es, i - 1);
    }
  }

  lemma {:induction false} ConsumedStays(ws: seq<World>, n: nat, m: nat)
    requires Growing(ws) && n <= m < |ws|
    ensures ws[n].consumed <= ws[m].consumed
  {
    if n < m {
      ConsumedStays(ws, n, m - 1);
      PrefixOfPrefix(ws[n].consumed, ws[m - 1].consumed, ws[m].consumed);
    }
  }

  lemma PrefixOfPrefix<T>(a: seq<T>, b: seq<T>, c: seq<T>)
    requires a <= b <= c
    ensures a <= c
  {
  }

  /** The alert of a step is about a later moment than everything of its session consumed before. */
  lemma AlertOfStep(digest: string -> string, w: World, e: Event, w': World, i: nat)
    requires Effect(digest, w, e, w') && AllSettled(digest, w) && w'.history != w.history && i < |w.consumed|
    ensures |w'.history| == |w.history| + 1
    ensures var d := w'.history[|w.history|];
            w.consumed[i].session == d.session ==> w.consumed[i].signal.at < d.signal.at
  {
    var d := w'.history[|w.history|];
    if w.consumed[i].session == d.session {
      AlertIsLater(w.file, w'.file, digest(d.session), [d.signal], e.at, d.signal, w.consumed[i].signal);
    }
  }

  /** Whatever a saved publish has consumed, alerted or suppressed by the rate limit, is never alerted
      afterwards: every later alert of its session, by whatever service and however the clock jumps, is
      about a later moment. */
  lemma ConsumedIsNotAlerted(digest: string -> string, ws: seq<World>, es: seq<Event>, n: nat, m: nat, i: nat)
    requires Run(digest, ws, es) && n <= m < |es| && i < |ws[n].consumed| && ws[m + 1].history != ws[m].history
    ensures |ws[m + 1].history| == |ws[m].history| + 1
    ensures var d := ws[m + 1].history[|ws[m].history|];
            ws[n].consumed[i].session == d.session ==> ws[n].consumed[i].signal.at < d.signal.at
  {
    AlwaysSettled(digest, ws, es, m);
    EveryStepHasEffect(digest, ws, es, m);
    ConsumedGrows(digest, ws, es);
    ConsumedStays(ws, n, m);
    AlertOfStep(digest, ws[m], es[m], ws[m + 1], i);
  }

  /** Of one session, each alert is about a later moment than those before it. */
  predicate EachLater(history: seq<Delivery>) {
    forall i, j :: 0 <= i < j < |history| && history[i].session == history[j].session ==>
                     history[i].signal.at < history[j].signal.at
  }

  lemma OneMoreLater(history: seq<Delivery>, history': seq<Delivery>)
    requires EachLater(history) && |history'| == |history| + 1 && history'[..|history|] == history
    requires var d := history'[|history|];
             forall i :: 0 <= i < |history| && history[i].session == d.session ==> history[i].signal.at < d.signal.at
    ensures EachLater(history')
  {
    assert forall i :: 0 <= i < |history| ==> history'[i] == history[i];
  }

  lemma ReplayStep(digest: string -> string, w: World, e: Event, w': World)
    requires Effect(digest, w, e, w') && AllSettled(digest, w) && EachLater(w.history)
    ensures EachLater(w'.history)
  {
    if w'.history != w.history {
      var d := w'.history[|w.history|];
      forall i | 0 <= i < |w.history| && w.history[i].session == d.session
        ensures w.history[i].signal.at < d.signal.at
      {
        var k :| 0 <= k < |w.consumed| && w.consumed[k] == Consumption(w.history[i].session, w.history[i].signal);
        AlertOfStep(digest, w, e, w', k);
      }
      OneMoreLater(w.history, w'.history);
    }
  }

  /** Whatever is evicted from the log or the watermarks, however often services restart and however the
      clock jumps: no signal of a session is alerted twice, nor any other of the same moment.  The one-hour
      retention of watermarks matches the largest staleness the preferences allow, and the rate limit covers
      what the retention gives up. */
  lemma {:induction false} NoSignalAlertedTwice(digest: string -> string, ws: seq<World>, es: seq<Event>, n: nat)
    requires Run(digest, ws, es) && n < |ws|
    ensures EachLater(ws[n].history)
  {
    if n > 0 {
      NoSignalAlertedTwice(digest, ws, es, n - 1);
      AlwaysSettled(digest, ws, es, n - 1);
      EveryStepHasEffect(digest, ws, es, n - 1);
      ReplayStep(digest, ws[n - 1], es[n - 1], ws[n]);
    }
  }
}
