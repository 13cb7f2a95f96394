/**
 The result of `correlate_at` (src-tauri/src/correlation.rs): it does not depend on
 the order of the sessions, and its buckets hold exactly the tokens that went in.
 */
module CorrelationOrder {
  import opened Prelude
  import opened Buckets
  import opened Correlation
  import opened CorrelationFilter

  // ----- equal up to the order inside bucket lists

  ghost predicate SameLists(a: seq<Bucket>, b: seq<Bucket>) {
    UniqueKeys(a) && UniqueKeys(b) && forall k :: Lookup(a, k) == Lookup(b, k)
  }

  ghost predicate Same(a: Observation, b: Observation) {
    && a == b.(buckets := a.buckets)
    && a.buckets.Keys == b.buckets.Keys
    && forall h :: SameLists(BucketsAt(a, h), BucketsAt(b, h))
  }

  lemma SameTransitive(a: Observation, b: Observation, c: Observation)
    requires Same(a, b) && Same(b, c)
    ensures Same(a, c)
  {
  }

  lemma SameAfterAdding(a: seq<Bucket>, b: seq<Bucket>, more: seq<Bucket>)
    requires SameLists(a, b)
    ensures SameLists(AddBuckets(a, more), AddBuckets(b, more))
  {
    AddBucketsUnique(a, more);
    AddBucketsUnique(b, more);
    forall k ensures Lookup(AddBuckets(a, more), k) == Lookup(AddBuckets(b, more), k) {
      AddBucketsLookup(a, more, k);
      AddBucketsLookup(b, more, k);
    }
  }

  lemma SameInEitherOrder(bs: seq<Bucket>, p: seq<Bucket>, q: seq<Bucket>)
    requires UniqueKeys(bs)
    ensures SameLists(AddBuckets(AddBuckets(bs, p), q), AddBuckets(AddBuckets(bs, q), p))
  {
    AddBucketsUnique(bs, p);
    AddBucketsUnique(AddBuckets(bs, p), q);
    AddBucketsUnique(bs, q);
    AddBucketsUnique(AddBuckets(bs, q), p);
    forall k ensures Lookup(AddBuckets(AddBuckets(bs, p), q), k) == Lookup(AddBuckets(AddBuckets(bs, q), p), k) {
      AddBucketsLookup(bs, p, k);
      AddBucketsLookup(AddBuckets(bs, p), q, k);
      AddBucketsLookup(bs, q, k);
      AddBucketsLookup(AddBuckets(bs, q), p, k);
      PlusAssociative(Lookup(bs, k), SumFor(p, k), SumFor(q, k));
      PlusAssociative(Lookup(bs, k), SumFor(q, k), SumFor(p, k));
      PlusAssociative(SumFor(p, k), SumFor(q, k), None);
    }
  }

  /** The bucket lists after one session. */
  lemma ObserveBuckets(x: Setup, o: Observation, s: Session, e: Event, side: Side, h: string)
    ensures var r := RangeOf(x, s, WindowOf(x.query, e, side));
            BucketsAt(Observe(x, o, s, e, side), h) ==
            if Relevant(x, s.summary, e) && !Silent(r) && h == s.summary.place.harness
            then AddBuckets(BucketsAt(o, h), r.buckets) else BucketsAt(o, h)
  {
  }

  lemma ObserveRespects(x: Setup, a: Observation, b: Observation, s: Session, e: Event, side: Side)
    requires Same(a, b)
    ensures Same(Observe(x, a, s, e, side), Observe(x, b, s, e, side))
  {
    var r := RangeOf(x, s, WindowOf(x.query, e, side));
    forall h ensures SameLists(BucketsAt(Observe(x, a, s, e, side), h), BucketsAt(Observe(x, b, s, e, side), h)) {
      ObserveBuckets(x, a, s, e, side, h);
      ObserveBuckets(x, b, s, e, side, h);
      SameAfterAdding(BucketsAt(a, h), BucketsAt(b, h), r.buckets);
    }
  }

  lemma ObserveCommutes(x: Setup, o: Observation, s: Session, t: Session, e: Event, side: Side)
    requires Same(o, o)
    ensures Same(Observe(x, Observe(x, o, s, e, side), t, e, side), Observe(x, Observe(x, o, t, e, side), s, e, side))
  {
    var p, q := RangeOf(x, s, WindowOf(x.query, e, side)).buckets, RangeOf(x, t, WindowOf(x.query, e, side)).buckets;
    var st, ts := Observe(x, Observe(x, o, s, e, side), t, e, side), Observe(x, Observe(x, o, t, e, side), s, e, side);
    forall h ensures SameLists(BucketsAt(st, h), BucketsAt(ts, h)) {
      ObserveBuckets(x, o, s, e, side, h);
      ObserveBuckets(x, o, t, e, side, h);
      ObserveBuckets(x, Observe(x, o, s, e, side), t, e, side, h);
      ObserveBuckets(x, Observe(x, o, t, e, side), s, e, side, h);
      assert SameLists(BucketsAt(o, h), BucketsAt(o, h));
      SameInEitherOrder(BucketsAt(o, h), p, q);
      SameAfterAdding(BucketsAt(o, h), BucketsAt(o, h), p);
      SameAfterAdding(BucketsAt(o, h), BucketsAt(o, h), q);
    }
    ScalarsCommute(x, o, s, t, e, side);
  }

  lemma ScalarsCommute(x: Setup, o: Observation, s: Session, t: Session, e: Event, side: Side)
    ensures var st := Observe(x, Observe(x, o, s, e, side), t, e, side);
            var ts := Observe(x, Observe(x, o, t, e, side), s, e, side);
            st == ts.(buckets := st.buckets) && st.buckets.Keys == ts.buckets.Keys
  {
    var w := WindowOf(x.query, e, side);
    RangesCommute(o, w, s, RangeOf(x, s, w), t, RangeOf(x, t, w));
  }

  lemma RangesCommute(o: Observation, w: Window, s: Session, p: Range, t: Session, q: Range)
    ensures var st, ts := AddRange(AddRange(o, s, w, p), t, w, q), AddRange(AddRange(o, t, w, q), s, w, p);
            st == ts.(buckets := st.buckets) && st.buckets.Keys == ts.buckets.Keys
  {
  }

  // ----- permutations

  lemma {:induction false} AccumulateSame(x: Setup, sessions: seq<Session>, e: Event, side: Side)
    ensures Same(Accumulate(x, sessions, e, side), Accumulate(x, sessions, e, side))
  {
    if sessions != [] {
      AccumulateSame(x, sessions[..|sessions| - 1], e, side);
      ObserveRespects(x, Accumulate(x, sessions[..|sessions| - 1], e, side),
                      Accumulate(x, sessions[..|sessions| - 1], e, side), sessions[|sessions| - 1], e, side);
    }
  }

  lemma AccumulateLast(x: Setup, front: seq<Session>, s: Session, e: Event, side: Side)
    ensures Accumulate(x, front + [s], e, side) == Observe(x, Accumulate(x, front, e, side), s, e, side)
  {
  }

  /** A session can be moved to the end. */
  lemma {:induction false} MoveToEnd(x: Setup, a: seq<Session>, s: Session, b: seq<Session>, e: Event, side: Side)
    ensures Same(Accumulate(x, a + [s] + b, e, side), Accumulate(x, a + b + [s], e, side))
    decreases |b|
  {
    if b == [] {
      assert a + [s] + b == a + [s] && a + b + [s] == a + [s];
      AccumulateSame(x, a + [s], e, side);
    } else {
      var n := |b| - 1;
      var front, t := b[..n], b[n];
      MoveToEnd(x, a, s, front, e, side);
      assert a + [s] + b == (a + [s] + front) + [t];
      assert a + b + [s] == (a + front + [t]) + [s];
      AccumulateLast(x, a + [s] + front, t, e, side);
      AccumulateLast(x, a + front, s, e, side);
      AccumulateLast(x, a + front, t, e, side);
      AccumulateLast(x, a + front + [t], s, e, side);
      AccumulateSame(x, a + front, e, side);
      var o := Accumulate(x, a + front, e, side);
      ObserveRespects(x, Accumulate(x, a + [s] + front, e, side), Observe(x, o, s, e, side), t, e, side);
      ObserveCommutes(x, o, s, t, e, side);
      SameTransitive(Accumulate(x, a + [s] + b, e, side), Observe(x, Observe(x, o, s, e, side), t, e, side),
                     Accumulate(x, a + b + [s], e, side));
    }
  }

  lemma OneRemoved(front: seq<Session>, s: Session, a: seq<Session>, b: seq<Session>)
    requires multiset(front + [s]) == multiset(a + [s] + b)
    ensures multiset(front) == multiset(a + b)
  {
    assert multiset(front + [s]) == multiset(front) + multiset{s};
    assert multiset(a + [s] + b) == multiset(a + b) + multiset{s};
    forall t ensures multiset(front)[t] == multiset(a + b)[t] {
      assert (multiset(front) + multiset{s})[t] == (multiset(a + b) + multiset{s})[t];
    }
  }

  /** Reordering the sessions changes no observation, up to the order inside bucket lists. */
  lemma {:induction false} AccumulatePermuted(x: Setup, s1: seq<Session>, s2: seq<Session>, e: Event, side: Side)
    requires multiset(s1) == multiset(s2)
    ensures Same(Accumulate(x, s1, e, side), Accumulate(x, s2, e, side))
    decreases |s1|
  {
    if s1 == [] {
      assert |multiset(s2)| == |s2|;
      AccumulateSame(x, [], e, side);
    } else {
      var n := |s1| - 1;
      var front, s := s1[..n], s1[n];
      assert s1 == front + [s];
      assert s in multiset(s1);
      var i :| 0 <= i < |s2| && s2[i] == s;
      var a, b := s2[..i], s2[i + 1..];
      assert s2 == a + [s] + b;
      OneRemoved(front, s, a, b);
      AccumulatePermuted(x, front, a + b, e, side);
      MoveToEnd(x, a, s, b, e, side);
      AccumulateLast(x, front, s, e, side);
      AccumulateLast(x, a + b, s, e, side);
      ObserveRespects(x, Accumulate(x, front, e, side), Accumulate(x, a + b, e, side), s, e, side);
      SameSymmetric(Accumulate(x, s2, e, side), Accumulate(x, a + b + [s], e, side));
      SameTransitive(Accumulate(x, s1, e, side), Accumulate(x, a + b + [s], e, side), Accumulate(x, s2, e, side));
    }
  }

  lemma SameSymmetric(a: Observation, b: Observation)
    requires Same(a, b)
    ensures Same(b, a)
  {
  }

  // ----- the report

  const MINIMUM_SESSION_COUNT := 3

  datatype Report = Report(
    event: Event, before: Observation, after: Observation, afterWindowEnd: int, afterWindowComplete: bool,
    sampleReady: bool, tokenDelta: int, sessionDelta: int, confounders: seq<string>, excluded: bool)

  /** The observation with every bucket list in its final order. */
  ghost predicate Finalized(o: Observation, f: Observation) {
    && f == o.(buckets := f.buckets)
    && f.buckets.Keys == o.buckets.Keys
    && forall h :: h in f.buckets ==> f.buckets[h] == Sort(o.buckets[h])
  }

  lemma FinalizedIsCanonical(a: Observation, b: Observation, f: Observation, g: Observation)
    requires Same(a, b) && Finalized(a, f) && Finalized(b, g)
    ensures f == g
  {
    forall h | h in f.buckets ensures f.buckets[h] == g.buckets[h] {
      assert SameLists(BucketsAt(a, h), BucketsAt(b, h));
      SortIsCanonical(a.buckets[h], b.buckets[h]);
    }
    assert f.buckets == g.buckets;
  }

  function ConfounderIds(q: Query, e: Event, others: seq<Event>): seq<string> {
    if others == [] then []
    else ConfounderIds(q, e, others[..|others| - 1]) +
         if Confounds(q, e, others[|others| - 1]) then [others[|others| - 1].id] else []
  }

  function MakeReport(x: Setup, e: Event, now: int, before: Observation, after: Observation): Report {
    var end := WindowOf(x.query, e, After).to;
    Report(e, before, after, end, now >= end,
           before.sessionCount >= MINIMUM_SESSION_COUNT && after.sessionCount >= MINIMUM_SESSION_COUNT,
           after.tokens.total - before.tokens.total, after.sessionCount - before.sessionCount,
           ConfounderIds(x.query, e, x.query.events), Excluded(x.query, e))
  }

  /** What the report of one event must be. */
  ghost predicate Reports(x: Setup, sessions: seq<Session>, now: int, e: Event, r: Report) {
    && r == MakeReport(x, e, now, r.before, r.after)
    && Finalized(Accumulate(x, sessions, e, Before), r.before)
    && Finalized(Accumulate(x, sessions, e, After), r.after)
  }

  method Finalize(o: Observation) returns (f: Observation)
    ensures Finalized(o, f)
  {
    var buckets, todo := o.buckets, o.buckets.Keys;
    while todo != {}
      invariant todo <= o.buckets.Keys && buckets.Keys == o.buckets.Keys
      invariant forall h :: h in buckets ==> buckets[h] == if h in todo then o.buckets[h] else Sort(o.buckets[h])
      decreases |todo|
    {
      var h :| h in todo;
      buckets := buckets[h := Sort(buckets[h])];
      todo := todo - {h};
    }
    f := o.(buckets := buckets);
  }

  /** `correlate_at`. */
  method CorrelateAt(x: Setup, sessions: seq<Session>, now: int) returns (results: seq<Report>)
    ensures |results| == |x.query.events|
    ensures forall i :: 0 <= i < |results| ==> Reports(x, sessions, now, x.query.events[i], results[i])
  {
    var before, after := Correlate(x, sessions);
    results := [];
    for i := 0 to |x.query.events|
      invariant |results| == i
      invariant forall j :: 0 <= j < i ==> Reports(x, sessions, now, x.query.events[j], results[j])
    {
      var b := Finalize(before[i]);
      var a := Finalize(after[i]);
      results := results + [MakeReport(x, x.query.events[i], now, b, a)];
    }
  }

  /** Permuting the sessions gives equal reports. */
  lemma ReportIgnoresOrder(x: Setup, s1: seq<Session>, s2: seq<Session>, now: int, e: Event, r1: Report, r2: Report)
    requires multiset(s1) == multiset(s2)
    requires Reports(x, s1, now, e, r1) && Reports(x, s2, now, e, r2)
    ensures r1 == r2
  {
    AccumulatePermuted(x, s1, s2, e, Before);
    AccumulatePermuted(x, s1, s2, e, After);
    FinalizedIsCanonical(Accumulate(x, s1, e, Before), Accumulate(x, s2, e, Before), r1.before, r2.before);
    FinalizedIsCanonical(Accumulate(x, s1, e, After), Accumulate(x, s2, e, After), r1.after, r2.after);
  }

  /** Reporting on the candidate sessions is reporting on all of them. */
  lemma ReportIgnoresFilter(x: Setup, sessions: seq<Session>, now: int, i: nat, r: Report)
    requires i < |x.query.events| && x.tally([]).calls == 0
    requires forall s :: s in sessions ==> WithinSpan(s) && !Missed(x, s.summary)
    ensures Reports(x, Candidates(x, sessions), now, x.query.events[i], r)
            <==> Reports(x, sessions, now, x.query.events[i], r)
  {
    PrefilterLossless(x, sessions, i, Before);
    PrefilterLossless(x, sessions, i, After);
  }

  // ----- conservation

  /** The tokens of the points that name a model. */
  function AttributedSum(points: seq<Point>): Tokens {
    if points == [] then ZERO
    else
      var p := points[|points| - 1];
      Add(AttributedSum(points[..|points| - 1]), if p.model.Some? then p.delta else ZERO)
  }

  lemma {:induction false} AttributedKeepsTokens(points: seq<Point>)
    ensures Sum(Attributed(points)) == AttributedSum(points)
  {
    if points != [] {
      var n := |points| - 1;
      AttributedKeepsTokens(points[..n]);
      var rest := Attributed(points[..n]);
      AddZero(Sum(rest));
      if points[n].model.Some? {
        SumLast(Attributed(points));
        assert Attributed(points)[..|rest|] == rest;
      } else {
        assert Attributed(points) == rest;
      }
    }
  }

  lemma {:induction false} InsertKeepsTokens(bs: seq<Bucket>, b: Bucket)
    ensures Sum(Insert(bs, b)) == Add(b.tokens, Sum(bs))
  {
    if bs != [] && Less(bs[0].key, b.key) {
      InsertKeepsTokens(bs[1..], b);
      assert Insert(bs, b)[1..] == Insert(bs[1..], b);
    } else {
      assert ([b] + bs)[1..] == bs;
    }
  }

  lemma {:induction false} SortKeepsTokens(bs: seq<Bucket>)
    ensures Sum(Sort(bs)) == Sum(bs)
  {
    if bs != [] {
      SortKeepsTokens(bs[1..]);
      InsertKeepsTokens(Sort(bs[1..]), bs[0]);
    }
  }

  /** The buckets of a range hold exactly the tokens of its points that name a model. */
  lemma RangeConserves(x: Setup, s: Session, w: Window)
    ensures Sum(RangeOf(x, s, w).buckets) == AttributedSum(PointsIn(s.history, w))
  {
    var points := PointsIn(s.history, w);
    SortKeepsTokens(AddBuckets([], Attributed(points)));
    AddBucketsSum([], Attributed(points));
    AddZero(Sum(Attributed(points)));
    AttributedKeepsTokens(points);
  }

  /** What the sessions of one harness bring into one window. */
  function Brought(x: Setup, sessions: seq<Session>, e: Event, side: Side, h: string): Tokens {
    if sessions == [] then ZERO
    else
      var s := sessions[|sessions| - 1];
      var w := WindowOf(x.query, e, side);
      var counts := Relevant(x, s.summary, e) && !Silent(RangeOf(x, s, w)) && s.summary.place.harness == h;
      Add(Brought(x, sessions[..|sessions| - 1], e, side, h),
        if counts then AttributedSum(PointsIn(s.history, w)) else ZERO)
  }

  /** The buckets of a harness sum to what its sessions brought in. */
  lemma {:induction false} BucketsConserve(x: Setup, sessions: seq<Session>, e: Event, side: Side, h: string)
    ensures Sum(BucketsAt(Accumulate(x, sessions, e, side), h)) == Brought(x, sessions, e, side, h)
  {
    if sessions != [] {
      var n := |sessions| - 1;
      var s, o := sessions[n], Accumulate(x, sessions[..n], e, side);
      var w := WindowOf(x.query, e, side);
      BucketsConserve(x, sessions[..n], e, side, h);
      ObserveBuckets(x, o, s, e, side, h);
      AddBucketsSum(BucketsAt(o, h), RangeOf(x, s, w).buckets);
      RangeConserves(x, s, w);
      AddZero(Brought(x, sessions[..n], e, side, h));
    }
  }
}
