/**
 When an observation raises an alert, and what a service shows: the alerts it has raised
 since its list was last cleared (src-tauri/src/attention.rs).
 */
module AttentionAlerts {
  import opened Prelude
  import opened Attention
  import opened AttentionRuns

  // ----- one publish call

  /** The store has not dealt with a signal: it is newer than a watermark still kept, and not in the log. */
  predicate IsNew(loaded: Store, digest: string -> string, session: string, now: int, s: Signal) {
    var marks, ref := loaded.watermarks, digest(session);
    && (ref in marks && now - marks[ref] <= HOUR ==> s.at > marks[ref])
    && digest(session + "\0" + s.id) !in loaded.seen
  }

  /** The store can take another watermark. */
  predicate HasRoom(loaded: Store, ref: string, now: int) {
    var marks := loaded.watermarks;
    || (ref in marks && now - marks[ref] <= HOUR)
    || |set k | k in marks && now - marks[k] <= HOUR| < MAX_SESSIONS
  }

  /** The call can read a store that agrees with the service, and thirty seconds have passed. */
  predicate MayAlert(file: StoreFile, inner: Inner, ref: string, now: int, io: Io) {
    && io.lockFree && io.saves && Load(file, now).Some?
    && var loaded := Load(file, now).value;
    && loaded.preferences == inner.store.preferences
    && HasRoom(loaded, ref, now)
    && (loaded.lastAlert.None? || now - loaded.lastAlert.value >= 30 * SECOND)
  }

  lemma RoomIsUnexpired(loaded: Store, ref: string, now: int)
    ensures var kept := Unexpired(loaded.watermarks, now);
            HasRoom(loaded, ref, now) <==> ref in kept || |kept| < MAX_SESSIONS
  {
    var kept := Unexpired(loaded.watermarks, now);
    assert kept.Keys == set k | k in loaded.watermarks && now - loaded.watermarks[k] <= HOUR;
    assert |kept.Keys| == |kept|;
  }

  predicate SomeNew(loaded: Store, digest: string -> string, session: string, now: int, candidates: seq<Signal>) {
    exists s :: s in candidates && IsNew(loaded, digest, session, now, s)
  }

  /** A publish call raises an alert exactly when it may, and some candidate is new to the store. */
  lemma AlertedExactlyWhen(file: StoreFile, inner: Inner, digest: string -> string, session: string,
                           candidates: seq<Signal>, now: int, io: Io)
    requires Chronological(candidates)
    ensures Published(file, inner, digest, session, candidates, now, io).chosen.Some? <==>
            MayAlert(file, inner, digest(session), now, io)
            && SomeNew(Load(file, now).value, digest, session, now, candidates)
  {
    if Load(file, now).Some? {
      var loaded := Load(file, now).value;
      RoomIsUnexpired(loaded, digest(session), now);
      DigestedChooses(loaded, digest, session, candidates, now);
    }
  }

  function CallOn(loaded: Store, digest: string -> string, session: string, now: int): Call {
    Call(digest, session, now, Lookup(Unexpired(loaded.watermarks, now), digest(session)))
  }

  lemma NewIsNotStale(loaded: Store, digest: string -> string, session: string, now: int, s: Signal)
    ensures IsNew(loaded, digest, session, now, s) <==> !Stale(CallOn(loaded, digest, session, now), loaded.seen, s)
  {
  }

  lemma SomeNewNotStale(loaded: Store, digest: string -> string, session: string, now: int, candidates: seq<Signal>)
    ensures SomeNew(loaded, digest, session, now, candidates) <==>
            exists s :: s in candidates && !Stale(CallOn(loaded, digest, session, now), loaded.seen, s)
  {
    forall s
      ensures IsNew(loaded, digest, session, now, s) <==> !Stale(CallOn(loaded, digest, session, now), loaded.seen, s)
    {
      NewIsNotStale(loaded, digest, session, now, s);
    }
  }

  /** The loop chooses a signal exactly when one is new and the rate limit allows it; and it appends to the
      log exactly when one is new. */
  lemma DigestedChooses(loaded: Store, digest: string -> string, session: string, candidates: seq<Signal>, now: int)
    requires Chronological(candidates) && StoreWithinBounds(loaded)
    ensures var p := Digested(loaded, digest, session, candidates, now);
            var some := SomeNew(loaded, digest, session, now, candidates);
            && (p.chosen.Some? <==> some && (loaded.lastAlert.None? || now - loaded.lastAlert.value >= 30 * SECOND))
            && (p.store.seen != loaded.seen <==> some)
  {
    var c := CallOn(loaded, digest, session, now);
    var start := Progress(loaded.(watermarks := Unexpired(loaded.watermarks, now)), None);
    ChosenWhenNew(c, start, candidates);
    ConsumeFacts(c, start, candidates);
    TrimmedLogStillNew(loaded.seen, Consume(c, start, candidates).store.seen);
    SomeNewNotStale(loaded, digest, session, now, candidates);
    assert SomeNew(loaded, digest, session, now, candidates) <==>
           Consume(c, start, candidates).store.seen != loaded.seen;
  }

  // ----- one observation

  /** The service looks at this session. */
  predicate Watched(inner: Inner, s: SessionView) {
    && inner.available && inner.store.preferences.categories != {}
    && !s.archived && s.sourcePresent
    && (inner.store.preferences.providers == {} || s.provider in inner.store.preferences.providers)
  }

  /** The user asked for signals like this one, and it is neither too early, too late nor in the future. */
  predicate Wanted(inner: Inner, signal: Signal, now: int) {
    var prefs := inner.store.preferences;
    && signal.category in prefs.categories
    && (prefs.toolKind.None? || signal.toolKind.None? || signal.toolKind.value == prefs.toolKind.value)
    && inner.armedAt <= signal.at <= now <= signal.at + prefs.staleAfterSeconds * SECOND
  }

  /** Signal `i` of a session is one to alert. */
  predicate ToAlert(loaded: Store, inner: Inner, digest: string -> string, s: SessionView, now: int, i: nat) {
    && i < |s.signals| && Wanted(inner, s.signals[i], now)
    && IsNew(loaded, digest, s.storageId, now, s.signals[i])
  }

  ghost predicate SomeToAlert(loaded: Store, inner: Inner, digest: string -> string, s: SessionView, now: int) {
    exists i: nat :: ToAlert(loaded, inner, digest, s, now, i)
  }

  predicate IsFirstToAlert(loaded: Store, inner: Inner, digest: string -> string, s: SessionView, now: int, i: nat) {
    ToAlert(loaded, inner, digest, s, now, i) && forall j :: 0 <= j < i ==> !ToAlert(loaded, inner, digest, s, now, j)
  }

  lemma {:induction false} NothingTaken(c: Call, seen: seq<string>, signals: seq<Signal>)
    requires Taken(c, seen, signals) == []
    ensures forall s :: s in signals ==> Stale(c, seen, s)
  {
    if signals != [] {
      var n := |signals| - 1;
      NothingTaken(c, seen, signals[..n]);
      assert signals == signals[..n] + [signals[n]];
    }
  }

  lemma OneMoreCandidate(inner: Inner, front: seq<Signal>, s: Signal, now: int)
    ensures Candidates(inner, front + [s], now) ==
            Candidates(inner, front, now) + if IsCandidate(inner, s, now) then [s] else []
  {
    assert (front + [s])[..|front|] == front;
  }

  lemma OneMoreConsumed(c: Call, seen: seq<string>, front: seq<Signal>, s: Signal)
    ensures Taken(c, seen, front) != [] ==>
              Taken(c, seen, front + [s]) != [] && Taken(c, seen, front + [s])[0] == Taken(c, seen, front)[0]
    ensures Taken(c, seen, front) == [] ==> Taken(c, seen, front + [s]) == if Stale(c, seen, s) then [] else [s]
  {
    assert (front + [s])[..|front|] == front;
  }

  /** Signal `k` is the first candidate that is not stale. */
  predicate FirstFresh(c: Call, seen: seq<string>, inner: Inner, signals: seq<Signal>, now: int, k: nat) {
    && k < |signals| && IsCandidate(inner, signals[k], now) && !Stale(c, seen, signals[k])
    && forall j :: 0 <= j < k && IsCandidate(inner, signals[j], now) ==> Stale(c, seen, signals[j])
  }

  lemma LastIsFirst(c: Call, seen: seq<string>, inner: Inner, signals: seq<Signal>, now: int)
    requires signals != [] && Taken(c, seen, Candidates(inner, signals[..|signals| - 1], now)) == []
    requires IsCandidate(inner, signals[|signals| - 1], now) && !Stale(c, seen, signals[|signals| - 1])
    ensures FirstFresh(c, seen, inner, signals, now, |signals| - 1)
  {
    var n := |signals| - 1;
    NothingTaken(c, seen, Candidates(inner, signals[..n], now));
    forall j | 0 <= j < n && IsCandidate(inner, signals[j], now) ensures Stale(c, seen, signals[j]) {
      assert signals[..n][j] == signals[j];
    }
  }

  /** The first signal consumed is the first candidate that is not stale. */
  lemma {:induction false} FirstTaken(c: Call, seen: seq<string>, inner: Inner, signals: seq<Signal>, now: int)
    returns (k: nat)
    requires Taken(c, seen, Candidates(inner, signals, now)) != []
    ensures FirstFresh(c, seen, inner, signals, now, k)
    ensures signals[k] == Taken(c, seen, Candidates(inner, signals, now))[0]
  {
    var n := |signals| - 1;
    var front, s := signals[..n], signals[n];
    assert signals == front + [s];
    OneMoreCandidate(inner, front, s, now);
    OneMoreConsumed(c, seen, Candidates(inner, front, now), s);
    if Taken(c, seen, Candidates(inner, front, now)) != [] {
      k := FirstTaken(c, seen, inner, front, now);
      assert forall j :: 0 <= j <= k ==> signals[j] == front[j];
    } else {
      k := n;
      LastIsFirst(c, seen, inner, signals, now);
    }
  }

  lemma ChosenIsFirst(file: StoreFile, inner: Inner, digest: string -> string, s: SessionView, now: int, io: Io)
    returns (i: nat)
    requires Published(file, inner, digest, s.storageId, Candidates(inner, s.signals, now), now, io).chosen.Some?
    requires Load(file, now).Some?
    ensures var o := Published(file, inner, digest, s.storageId, Candidates(inner, s.signals, now), now, io);
            i < |s.signals| && s.signals[i] == o.chosen.value
    ensures IsFirstToAlert(Load(file, now).value, inner, digest, s, now, i)
  {
    var loaded := Load(file, now).value;
    var c := CallOn(loaded, digest, s.storageId, now);
    var candidates := Candidates(inner, s.signals, now);
    ConsumeExactly(c, Progress(loaded.(watermarks := Unexpired(loaded.watermarks, now)), None), candidates);
    i := FirstTaken(c, loaded.seen, inner, s.signals, now);
    NewIsNotStale(loaded, digest, s.storageId, now, s.signals[i]);
    forall j | 0 <= j < i ensures !ToAlert(loaded, inner, digest, s, now, j) {
      NewIsNotStale(loaded, digest, s.storageId, now, s.signals[j]);
    }
  }

  lemma SomeNewIsToAlert(loaded: Store, inner: Inner, digest: string -> string, s: SessionView, now: int)
    ensures SomeNew(loaded, digest, s.storageId, now, Candidates(inner, s.signals, now)) <==>
            SomeToAlert(loaded, inner, digest, s, now)
  {
    var candidates := Candidates(inner, s.signals, now);
    if SomeNew(loaded, digest, s.storageId, now, candidates) {
      var x :| x in candidates && IsNew(loaded, digest, s.storageId, now, x);
      var i :| 0 <= i < |s.signals| && s.signals[i] == x;
      assert ToAlert(loaded, inner, digest, s, now, i);
    }
    if i: nat :| ToAlert(loaded, inner, digest, s, now, i) {
      assert s.signals[i] in candidates;
    }
  }

  /** This is the first signal of the session that is to be alerted. */
  ghost predicate FirstOf(loaded: Store, inner: Inner, digest: string -> string, s: SessionView, now: int,
                          signal: Signal) {
    exists i: nat :: IsFirstToAlert(loaded, inner, digest, s, now, i) && s.signals[i] == signal
  }

  /** The same for a publish call on the candidates of a session. */
  lemma CandidatesAlertExactlyWhen(file: StoreFile, inner: Inner, digest: string -> string, s: SessionView, now: int,
                                   io: Io)
    requires Chronological(s.signals)
    ensures var o := Published(file, inner, digest, s.storageId, Candidates(inner, s.signals, now), now, io);
            && (o.chosen.Some? <==>
                  MayAlert(file, inner, digest(s.storageId), now, io)
                  && SomeToAlert(Load(file, now).value, inner, digest, s, now))
            && (o.chosen.Some? ==> FirstOf(Load(file, now).value, inner, digest, s, now, o.chosen.value))
  {
    var candidates := Candidates(inner, s.signals, now);
    CandidatesInOrder(inner, s.signals, now);
    AlertedExactlyWhen(file, inner, digest, s.storageId, candidates, now, io);
    if Load(file, now).Some? {
      SomeNewIsToAlert(Load(file, now).value, inner, digest, s, now);
      if Published(file, inner, digest, s.storageId, candidates, now, io).chosen.Some? {
        var i := ChosenIsFirst(file, inner, digest, s, now, io);
      }
    }
  }

  /** The observation table plays no part in it. */
  lemma TableIsNoMatter(loaded: Store, inner: Inner, digest: string -> string, s: SessionView, now: int,
                        table: map<string, Observation>, chosen: Option<Signal>)
    ensures var inner' := inner.(observations := table);
            && (SomeToAlert(loaded, inner', digest, s, now) <==> SomeToAlert(loaded, inner, digest, s, now))
            && (chosen.Some? && FirstOf(loaded, inner', digest, s, now, chosen.value) ==>
                  FirstOf(loaded, inner, digest, s, now, chosen.value))
  {
    var inner' := inner.(observations := table);
    assert forall i: nat :: ToAlert(loaded, inner', digest, s, now, i) <==> ToAlert(loaded, inner, digest, s, now, i);
    if chosen.Some? && FirstOf(loaded, inner', digest, s, now, chosen.value) {
      var i: nat :| IsFirstToAlert(loaded, inner', digest, s, now, i) && s.signals[i] == chosen.value;
      assert IsFirstToAlert(loaded, inner, digest, s, now, i);
    }
  }

  lemma NoneToAlert(loaded: Store, inner: Inner, digest: string -> string, s: SessionView, now: int)
    requires Candidates(inner, s.signals, now) == []
    ensures !SomeToAlert(loaded, inner, digest, s, now)
  {
    forall i: nat ensures !ToAlert(loaded, inner, digest, s, now, i) {
      if i < |s.signals| { assert s.signals[i] in s.signals; }
    }
  }

  lemma NoneAsLate(loaded: Store, inner: Inner, digest: string -> string, s: SessionView, now: int)
    requires Latest(s.signals, now).None?
    ensures !SomeToAlert(loaded, inner, digest, s, now)
  {
    forall i: nat ensures !ToAlert(loaded, inner, digest, s, now, i) {
      if i < |s.signals| { assert s.signals[i] in s.signals; }
    }
  }

  /** An observation raises an alert exactly when the session is watched, the append is live, the store allows
      it and some signal is to be alerted; and then it is the first of those. */
  lemma ObservedAlertsExactlyWhen(file: StoreFile, inner: Inner, digest: string -> string, s: SessionView, now: int,
                                  live: bool, io: Io, table: map<string, Observation>)
    requires Chronological(s.signals)
    ensures var o := Observed(file, inner, digest, s, now, live, io, table);
            && (o.chosen.Some? <==>
                  && Watched(inner, s) && live && MayAlert(file, inner, digest(s.storageId), now, io)
                  && SomeToAlert(Load(file, now).value, inner, digest, s, now))
            && (o.chosen.Some? ==> FirstOf(Load(file, now).value, inner, digest, s, now, o.chosen.value))
  {
    var inner' := inner.(observations := table);
    CandidatesAlertExactlyWhen(file, inner', digest, s, now, io);
    if Load(file, now).Some? {
      var loaded, o := Load(file, now).value, Observed(file, inner, digest, s, now, live, io, table);
      TableIsNoMatter(loaded, inner, digest, s, now, table, o.chosen);
      if Candidates(inner', s.signals, now) == [] { NoneToAlert(loaded, inner', digest, s, now); }
      if Latest(s.signals, now).None? { NoneAsLate(loaded, inner, digest, s, now); }
    }
  }

  // ----- failing closed

  /** A change of preferences goes through: valid, written over the revision on file, and saved. */
  predicate Accepted(file: StoreFile, update: Preferences, at: int, io: Io) {
    && ValidPreferences(update) && io.lockFree && io.saves && Load(file, at).Some?
    && update.revision == Load(file, at).value.preferences.revision
  }

  predicate SomeWanted(inner: Inner, s: SessionView, now: int) {
    exists i :: 0 <= i < |s.signals| && Wanted(inner, s.signals[i], now)
  }

  /** The publish call can be carried out: it can lock and load a store that agrees with the service, and if
      something is to be recorded there, save it. */
  ghost predicate CanPublish(file: StoreFile, inner: Inner, digest: string -> string, s: SessionView, now: int,
                             io: Io) {
    && io.lockFree && Load(file, now).Some?
    && Load(file, now).value.preferences == inner.store.preferences
    && (HasRoom(Load(file, now).value, digest(s.storageId), now) ==>
          SomeToAlert(Load(file, now).value, inner, digest, s, now) ==> io.saves)
  }

  lemma PublishesExactlyWhen(file: StoreFile, inner: Inner, digest: string -> string, s: SessionView, now: int, io: Io)
    requires Chronological(s.signals)
    ensures var o := Published(file, inner, digest, s.storageId, Candidates(inner, s.signals, now), now, io);
            && (o.ok <==> CanPublish(file, inner, digest, s, now, io))
            && (!o.ok ==> o.file == file) && o.inner.available == inner.available
  {
    if Load(file, now).Some? {
      var loaded, candidates := Load(file, now).value, Candidates(inner, s.signals, now);
      CandidatesInOrder(inner, s.signals, now);
      RoomIsUnexpired(loaded, digest(s.storageId), now);
      DigestedChooses(loaded, digest, s.storageId, candidates, now);
      SomeNewIsToAlert(loaded, inner, digest, s, now);
    }
  }

  lemma CandidatesWanted(inner: Inner, s: SessionView, now: int)
    ensures Candidates(inner, s.signals, now) != [] <==> SomeWanted(inner, s, now)
    ensures SomeWanted(inner, s, now) ==> Latest(s.signals, now).Some?
  {
    var candidates := Candidates(inner, s.signals, now);
    if candidates != [] {
      assert candidates[0] in s.signals;
    }
    if SomeWanted(inner, s, now) {
      var i :| 0 <= i < |s.signals| && Wanted(inner, s.signals[i], now);
      assert s.signals[i] in candidates && s.signals[i] in s.signals;
    }
  }

  lemma SamePublishing(file: StoreFile, inner: Inner, digest: string -> string, s: SessionView, now: int, io: Io,
                       table: map<string, Observation>)
    ensures var inner' := inner.(observations := table);
            && (CanPublish(file, inner', digest, s, now, io) <==> CanPublish(file, inner, digest, s, now, io))
            && (SomeWanted(inner', s, now) <==> SomeWanted(inner, s, now))
  {
    if Load(file, now).Some? {
      TableIsNoMatter(Load(file, now).value, inner, digest, s, now, table, None);
    }
    assert forall i :: 0 <= i < |s.signals| ==>
      (Wanted(inner.(observations := table), s.signals[i], now) <==> Wanted(inner, s.signals[i], now));
  }

  /** A service closes exactly when a live observation wants to publish and cannot; then it shows nothing, has
      raised nothing, and the store is as it was. */
  lemma ClosesExactlyWhen(file: StoreFile, inner: Inner, digest: string -> string, s: SessionView, now: int,
                          live: bool, io: Io, table: map<string, Observation>)
    requires Chronological(s.signals) && inner.available
    ensures var o := Observed(file, inner, digest, s, now, live, io, table);
            && (!o.inner.available <==>
                  && Watched(inner, s) && live && SomeWanted(inner, s, now)
                  && !CanPublish(file, inner, digest, s, now, io))
            && (!o.inner.available ==> o.inner.alerts == [] && o.chosen.None? && o.file == file)
  {
    var inner' := inner.(observations := table);
    SamePublishing(file, inner, digest, s, now, io, table);
    CandidatesWanted(inner', s, now);
    PublishesExactlyWhen(file, inner', digest, s, now, io);
    PublishedAppends(file, inner', digest, s.storageId, Candidates(inner', s.signals, now), now, io);
  }

  /** A closed service raises nothing, and only saving preferences opens it again. */
  lemma ClosedStaysSilent(digest: string -> string, w: World, e: Event, w': World, i: nat)
    requires Step(digest, w, e, w') && i < |w.services| && !w.services[i].available
    ensures i < |w'.services|
    ensures w'.services[i].available <==>
            e.ChangedPreferences? && e.service == i && Accepted(w.file, e.update, e.at, e.io)
    ensures e.ObservedSession? && e.service == i ==> w'.history == w.history && w'.file == w.file
  {
  }

  // ----- what a service shows

  /** The step empties the service's list: new preferences, a snapshot that finds other preferences or no
      readable store, or a publish that failed. */
  predicate Clears(w: World, e: Event, w': World, i: nat)
    requires i < |w.services| && i < |w'.services|
  {
    match e
    case Opened(_) => false
    case ChangedPreferences(k, update, at, io) => k == i && Accepted(w.file, update, at, io)
    case ObservedSession(k, _, _, _, _, _) => k == i && w.services[i].available && !w'.services[i].available
    case Snapped(k, at) =>
      k == i && (Load(w.file, at).None? || Load(w.file, at).value.preferences != w.services[i].store.preferences)
  }

  /** The alert for a signal of a session. */
  function AlertOn(digest: string -> string, session: string, s: Signal): Alert {
    Alert(digest(session + "\0" + s.id), digest(session), s.category, s.at)
  }

  function DeliveredAlert(digest: string -> string, d: Delivery): Alert {
    AlertOn(digest, d.session, d.signal)
  }

  /** The alerts of the deliveries a step has added. */
  function Added(digest: string -> string, w: World, e: Event, w': World, i: nat): seq<Alert> {
    if e.ObservedSession? && e.service == i && |w'.history| == |w.history| + 1
    then [DeliveredAlert(digest, w'.history[|w.history|])] else []
  }

  /** The alerts that service `i` has raised since its list was last cleared, oldest first. */
  function RaisedSince(digest: string -> string, ws: seq<World>, es: seq<Event>, n: nat, i: nat): seq<Alert>
    requires n < |ws| && |ws| == |es| + 1
  {
    if n == 0 || i >= |ws[n - 1].services| || i >= |ws[n].services| then []
    else if Clears(ws[n - 1], es[n - 1], ws[n], i) then []
    else RaisedSince(digest, ws, es, n - 1, i) + Added(digest, ws[n - 1], es[n - 1], ws[n], i)
  }

  lemma NewestOfMore<T>(r: seq<T>, all: seq<T>, more: T, n: nat, r': seq<T>)
    requires IsNewest(r, all, n) && IsNewest(r', r + [more], n) && n > 0
    ensures IsNewest(r', all + [more], n)
  {
  }

  lemma ObservedLists(digest: string -> string, w: World, e: Event, w': World)
    requires e.ObservedSession? && Step(digest, w, e, w')
    ensures var i, before, after := e.service, w.services[e.service].alerts, w'.services[e.service].alerts;
            if Clears(w, e, w', i) then after == [] && w'.history == w.history
            else if w'.history == w.history then after == before
            else |w'.history| == |w.history| + 1
                 && IsNewest(after, before + [DeliveredAlert(digest, w'.history[|w.history|])], MAX_ALERTS)
  {
    var inner, s := w.services[e.service].(observations := e.table), e.session;
    PublishedLists(w.file, inner, digest, s.storageId, Candidates(inner, s.signals, e.at), e.at, e.io);
  }

  lemma PublishedAppends(file: StoreFile, inner: Inner, digest: string -> string, session: string,
                         candidates: seq<Signal>, now: int, io: Io)
    ensures var o := Published(file, inner, digest, session, candidates, now, io);
            && o.inner.available == inner.available && (o.chosen.Some? ==> o.ok)
            && o.inner.alerts == if o.chosen.None? then inner.alerts
                                 else LastOf(inner.alerts + [AlertOn(digest, session, o.chosen.value)], MAX_ALERTS)
  {
  }

  /** What a publish call does to the list. */
  lemma PublishedLists(file: StoreFile, inner: Inner, digest: string -> string, session: string,
                       candidates: seq<Signal>, now: int, io: Io)
    ensures var o := Published(file, inner, digest, session, candidates, now, io);
            && o.inner.available == inner.available && (o.chosen.Some? ==> o.ok)
            && if o.chosen.None? then o.inner.alerts == inner.alerts
               else IsNewest(o.inner.alerts, inner.alerts + [AlertOn(digest, session, o.chosen.value)], MAX_ALERTS)
  {
    PublishedAppends(file, inner, digest, session, candidates, now, io);
    var o := Published(file, inner, digest, session, candidates, now, io);
    if o.chosen.Some? {
      LastIsNewest(inner.alerts + [AlertOn(digest, session, o.chosen.value)], MAX_ALERTS);
    }
  }

  lemma ListStep(digest: string -> string, w: World, e: Event, w': World, i: nat, raised: seq<Alert>)
    requires Step(digest, w, e, w') && i < |w.services| && IsNewest(w.services[i].alerts, raised, MAX_ALERTS)
    ensures i < |w'.services|
    ensures IsNewest(w'.services[i].alerts,
                     if Clears(w, e, w', i) then [] else raised + Added(digest, w, e, w', i), MAX_ALERTS)
  {
    if e.ObservedSession? && e.service == i {
      ObservedLists(digest, w, e, w');
      if w'.history != w.history {
        NewestOfMore(w.services[i].alerts, raised, DeliveredAlert(digest, w'.history[|w.history|]), MAX_ALERTS,
                     w'.services[i].alerts);
      } else {
        assert raised + [] == raised;
      }
    } else {
      assert raised + [] == raised;
    }
  }

  /** In every run, every service shows the newest twenty of the alerts it has raised since its list was last
      cleared. */
  lemma {:induction false} ShowsNewestRaised(digest: string -> string, ws: seq<World>, es: seq<Event>, n: nat, i: nat)
    requires Run(digest, ws, es) && n < |ws| && i < |ws[n].services|
    ensures IsNewest(ws[n].services[i].alerts, RaisedSince(digest, ws, es, n, i), MAX_ALERTS)
  {
    if n > 0 && i < |ws[n - 1].services| {
      ShowsNewestRaised(digest, ws, es, n - 1, i);
      ListStep(digest, ws[n - 1], es[n - 1], ws[n], i, RaisedSince(digest, ws, es, n - 1, i));
    } else if n > 0 {
      assert Step(digest, ws[n - 1], es[n - 1], ws[n]);
    }
  }

  // ----- nothing from before

  /** When service `i` last adopted preferences: when it was opened, when it saved some, or when a snapshot found
      others on file. */
  function AdoptedAt(ws: seq<World>, es: seq<Event>, n: nat, i: nat): int
    requires n < |ws| && |ws| == |es| + 1
  {
    if n == 0 then 0
    else
      var w, e := ws[n - 1], es[n - 1];
      var adopts := match e
        case Opened(_) => i >= |w.services|
        case ChangedPreferences(k, update, at, io) => k == i && Accepted(w.file, update, at, io)
        case ObservedSession(_, _, _, _, _, _) => false
        case Snapped(k, at) =>
          && k == i < |w.services| && Load(w.file, at).Some?
          && Load(w.file, at).value.preferences != w.services[i].store.preferences;
      if adopts then e.at else AdoptedAt(ws, es, n - 1, i)
  }

  lemma {:induction false} ArmedWhenAdopted(digest: string -> string, ws: seq<World>, es: seq<Event>, n: nat, i: nat)
    requires Run(digest, ws, es) && n < |ws| && i < |ws[n].services|
    ensures ws[n].services[i].armedAt == AdoptedAt(ws, es, n, i)
  {
    if n > 0 {
      var w, e, w' := ws[n - 1], es[n - 1], ws[n];
      assert Step(digest, w, e, w');
      if i < |w.services| {
        ArmedWhenAdopted(digest, ws, es, n - 1, i);
      }
      if e.ObservedSession? && e.service == i {
        ObservingKeepsArmed(digest, w, e, w');
      }
    }
  }

  lemma ObservingKeepsArmed(digest: string -> string, w: World, e: Event, w': World)
    requires e.ObservedSession? && Step(digest, w, e, w')
    ensures w'.services[e.service].armedAt == w.services[e.service].armedAt
  {
  }

  /** In every run, an alert is about a signal no older than the preferences it is raised under, and not in the
      future. */
  lemma NothingFromBefore(digest: string -> string, ws: seq<World>, es: seq<Event>, n: nat)
    requires Run(digest, ws, es) && n < |es| && ws[n + 1].history != ws[n].history
    ensures es[n].ObservedSession? && es[n].service < |ws[n].services|
    ensures |ws[n + 1].history| == |ws[n].history| + 1
    ensures AdoptedAt(ws, es, n, es[n].service) <= ws[n + 1].history[|ws[n].history|].signal.at <= es[n].at
  {
    var w, e, w' := ws[n], es[n], ws[n + 1];
    assert Step(digest, w, e, w');
    ArmedWhenAdopted(digest, ws, es, n, e.service);
    ObservedAlertsExactlyWhen(w.file, w.services[e.service], digest, e.session, e.at, e.live, e.io, e.table);
    var loaded, inner, signal := Load(w.file, e.at).value, w.services[e.service], w'.history[|w.history|].signal;
    assert FirstOf(loaded, inner, digest, e.session, e.at, signal);
    var i: nat :| IsFirstToAlert(loaded, inner, digest, e.session, e.at, i) && e.session.signals[i] == signal;
  }

  // ----- no lost update of preferences

  /** The revision that a change of preferences must name. */
  function RevisionOn(file: StoreFile): nat {
    match file
    case Saved(store) => store.preferences.revision
    case Missing => 0
    case Undecodable => 0
  }

  predicate Changes(w: World, e: Event) {
    e.ChangedPreferences? && e.service < |w.services| && Accepted(w.file, e.update, e.at, e.io)
  }

  lemma SavesKeepRevision(file: StoreFile, inner: Inner, digest: string -> string, session: string,
                          candidates: seq<Signal>, now: int, io: Io)
    requires Chronological(candidates)
    ensures RevisionOn(Published(file, inner, digest, session, candidates, now, io).file) == RevisionOn(file)
  {
    PublishCases(file, inner, digest, session, candidates, now, io);
    if Load(file, now).Some? {
      DigestedFacts(Load(file, now).value, digest, session, candidates, now);
    }
  }

  /** An accepted change names the revision on file and leaves the next one; nothing else moves it. */
  lemma RevisionStep(digest: string -> string, w: World, e: Event, w': World)
    requires Step(digest, w, e, w')
    ensures if Changes(w, e)
            then e.update.revision == RevisionOn(w.file) && RevisionOn(w'.file) == RevisionOn(w.file) + 1
            else RevisionOn(w'.file) == RevisionOn(w.file)
  {
    if e.ObservedSession? {
      var inner, s := w.services[e.service].(observations := e.table), e.session;
      CandidatesInOrder(inner, s.signals, e.at);
      SavesKeepRevision(w.file, inner, digest, s.storageId, Candidates(inner, s.signals, e.at), e.at, e.io);
    }
  }

  lemma {:induction false} RevisionGrows(digest: string -> string, ws: seq<World>, es: seq<Event>, n: nat, m: nat)
    requires Run(digest, ws, es) && n <= m < |ws|
    ensures RevisionOn(ws[n].file) <= RevisionOn(ws[m].file)
  {
    if n < m {
      RevisionGrows(digest, ws, es, n, m - 1);
      RevisionStep(digest, ws[m - 1], es[m - 1], ws[m]);
    }
  }

  /** In every run, no two accepted changes were made to the same revision, by whichever services: of two windows
      that edit the same preferences, the second to save is refused. */
  lemma NoLostUpdate(digest: string -> string, ws: seq<World>, es: seq<Event>, n: nat, m: nat)
    requires Run(digest, ws, es) && n < m < |es| && Changes(ws[n], es[n]) && Changes(ws[m], es[m])
    ensures es[n].update.revision < es[m].update.revision
  {
    RevisionStep(digest, ws[n], es[n], ws[n + 1]);
    RevisionGrows(digest, ws, es, n + 1, m);
    RevisionStep(digest, ws[m], es[m], ws[m + 1]);
  }
}
