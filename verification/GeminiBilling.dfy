/**
 What a Gemini CLI transcript is billed for (src-tauri/src/gemini_parser.rs), in the numbers its records
 report: token counts of every charge, of the whole session, of each model and of each point of the history.
 */
module GeminiBilling {
  import opened Prelude
  import opened Buckets
  import opened SessionLedger
  import opened GeminiParser

  // ----- one charge

  /** The charge repeats the reported numbers: the input already includes what was cached, and thoughts are
      output, reported once more as reasoning. */
  predicate ChargedAs(t: Tokens, u: Usage) {
    && t.input == u.input && t.cached == u.cached && t.cacheCreation == 0
    && t.reasoning == u.thoughts && t.output - t.reasoning == u.output
    && t.total == u.input + u.output + u.thoughts
  }

  predicate ReportsSome(u: Usage) {
    u.input + u.cached + u.thoughts + u.output > 0
  }

  lemma TotalsCharge(u: Usage, t: Tokens)
    ensures ChargedAs(t, u) <==> t == Totals(u)
    ensures AnyPositive(u) <==> ReportsSome(u)
  {
  }

  ghost predicate HeaderBefore(rs: seq<Record>, k: nat) {
    exists i :: 0 <= i < k && i < |rs| && Opens(rs[i])
  }

  /** Reply `k` is billed: the first with its id after the header, with a time and with usage to report. */
  ghost predicate Billable(rs: seq<Record>, k: nat) {
    && k < |rs| && IsReply(rs[k]) && rs[k].kind.value.id != "" && HeaderBefore(rs, k)
    && (forall j :: 0 <= j < k && MessageIs(rs[j], rs[k].kind.value.id) ==> !HeaderBefore(rs, j))
    && rs[k].at.Some?
    && rs[k].kind.value.usage.Some? && ReportsSome(rs[k].kind.value.usage.value)
  }

  lemma HeaderOpens(rs: seq<Record>, k: nat)
    requires k <= |rs|
    ensures HeaderBefore(rs, k) <==> Opened(rs[..k])
  {
    if HeaderBefore(rs, k) {
      var i :| 0 <= i < k && Opens(rs[i]);
      assert rs[..k][i] == rs[i];
    }
    if Opened(rs[..k]) {
      var r :| r in rs[..k] && Opens(r);
      var i :| 0 <= i < k && rs[..k][i] == r;
    }
  }

  lemma FirstAfterHeader(rs: seq<Record>, k: nat, id: Id)
    requires k <= |rs|
    ensures GeminiParser.Replied(rs[..k], id) <==> exists j :: 0 <= j < k && MessageIs(rs[j], id) && HeaderBefore(rs, j)
  {
    forall j | 0 <= j < k ensures Opened(rs[..k][..j]) <==> HeaderBefore(rs, j) {
      assert rs[..k][..j] == rs[..j];
      HeaderOpens(rs, j);
    }
  }

  function UsageOf(r: Record): Usage
    requires IsReply(r) && r.kind.value.usage.Some?
  {
    r.kind.value.usage.value
  }

  lemma BillableIs(rs: seq<Record>, k: nat, id: Id, t: Tokens)
    ensures BillableAt(rs, k, id, t) <==>
            Billable(rs, k) && rs[k].kind.value.id == id && ChargedAs(t, UsageOf(rs[k]))
  {
    if k < |rs| {
      HeaderOpens(rs, k);
      FirstAfterHeader(rs, k, id);
    }
    if k < |rs| && IsReply(rs[k]) && rs[k].kind.value.usage.Some? {
      TotalsCharge(UsageOf(rs[k]), t);
      TotalsCharge(UsageOf(rs[k]), Totals(UsageOf(rs[k])));
    }
  }

  /** A message is charged with `t` exactly when some record of it is billed and reports those numbers. */
  lemma ChargedAsReported(rs: seq<Record>, id: Id, t: Tokens)
    ensures (exists i :: 0 <= i < |Activities(rs)| && Bills(Activities(rs)[i], id, t)) <==>
            exists k: nat ::
              Billable(rs, k) && rs[k].kind.value.id == id && ChargedAs(t, UsageOf(rs[k]))
  {
    BilledExactlyWhen(rs, id, t);
    forall k: nat
      ensures BillableAt(rs, k, id, t) <==>
              Billable(rs, k) && rs[k].kind.value.id == id && ChargedAs(t, UsageOf(rs[k]))
    {
      BillableIs(rs, k, id, t);
    }
  }

  // ----- sums of reported numbers

  datatype Reported = Reported(input: nat, cached: nat, thoughts: nat, output: nat)

  function Including(a: Reported, u: Usage): Reported {
    Reported(a.input + u.input, a.cached + u.cached, a.thoughts + u.thoughts, a.output + u.output)
  }

  /** The totals are those sums, each in its own field. */
  predicate TotalsAre(t: Tokens, a: Reported) {
    && t.input == a.input && t.cached == a.cached && t.cacheCreation == 0
    && t.output == a.output + a.thoughts && t.reasoning == a.thoughts
    && t.total == a.input + a.output + a.thoughts
  }

  /** The sums over the billed records. */
  ghost function Sums(rs: seq<Record>): Reported {
    if rs == [] then Reported(0, 0, 0, 0)
    else
      var before := Sums(rs[..|rs| - 1]);
      if Billable(rs, |rs| - 1) then Including(before, UsageOf(rs[|rs| - 1])) else before
  }

  /** And over those that name a model; `None` when there is none. */
  ghost function SumsFor(rs: seq<Record>, model: string): Option<Reported> {
    if rs == [] then None
    else
      var before, last := SumsFor(rs[..|rs| - 1], model), rs[|rs| - 1];
      if Billable(rs, |rs| - 1) && last.kind.value.model == Some(model)
      then Some(Including(if before.Some? then before.value else Reported(0, 0, 0, 0), UsageOf(last)))
      else before
  }

  /** What the last record of a transcript adds to the log, if it is billed. */
  lemma LastActivity(rs: seq<Record>)
    requires rs != []
    ensures var before, r := rs[..|rs| - 1], rs[|rs| - 1];
            var more := ActivityOf(before, r);
            && Activities(rs) == Activities(before) + more && |more| <= 1
            && (Billable(rs, |rs| - 1) <==> more != [] && Charges(more[0]))
            && (Billable(rs, |rs| - 1) ==>
                  && ChargedAs(more[0].charge.value, UsageOf(r))
                  && more[0].model == r.kind.value.model && more[0].at == r.at
                  && more[0].tier.None?)
  {
    var before, r := rs[..|rs| - 1], rs[|rs| - 1];
    assert rs == before + [r];
    if IsReply(r) && r.kind.value.usage.Some? {
      var id, t := r.kind.value.id, Totals(UsageOf(r));
      BillableHere(before, r, id, t);
      BillableIs(rs, |before|, id, t);
      TotalsCharge(UsageOf(r), t);
    }
  }

  /** What a record adds to the log is charged as this usage says, or not charged when there is none. */
  predicate AddedAs(more: seq<Activity>, u: Option<Usage>) {
    && |more| <= 1
    && (u.Some? <==> more != [] && Charges(more[0]))
    && (u.Some? ==> ChargedAs(more[0].charge.value, u.value))
  }

  ghost function BilledUsage(rs: seq<Record>): Option<Usage>
    requires rs != []
  {
    if Billable(rs, |rs| - 1) then Some(UsageOf(rs[|rs| - 1])) else None
  }

  lemma LastAdded(rs: seq<Record>)
    requires rs != []
    ensures var before, r := rs[..|rs| - 1], rs[|rs| - 1];
            AddedAs(ActivityOf(before, r), BilledUsage(rs))
  {
    LastActivity(rs);
  }

  lemma AddsReported(t: Tokens, a: Reported, delta: Tokens, u: Usage)
    requires TotalsAre(t, a) && ChargedAs(delta, u)
    ensures TotalsAre(Add(t, delta), Including(a, u))
  {
  }

  lemma ChargeMore(log: seq<Activity>, more: seq<Activity>)
    requires |more| <= 1
    ensures SumCharges(log + more) ==
            if more != [] && Charges(more[0]) then Add(SumCharges(log), more[0].charge.value) else SumCharges(log)
  {
    if more == [] {
      assert log + more == log;
    } else {
      assert (log + more)[..|log|] == log;
      AddZero(SumCharges(log));
    }
  }

  lemma OneMoreSum(t: Tokens, more: seq<Activity>, u: Option<Usage>, sums: Reported)
    requires AddedAs(more, u) && TotalsAre(t, sums)
    ensures TotalsAre(if more != [] && Charges(more[0]) then Add(t, more[0].charge.value) else t,
                      if u.Some? then Including(sums, u.value) else sums)
  {
    if u.Some? { AddsReported(t, sums, more[0].charge.value, u.value); }
  }

  lemma {:induction false} ChargesAreReported(rs: seq<Record>)
    ensures TotalsAre(SumCharges(Activities(rs)), Sums(rs))
  {
    if rs != [] {
      var before, r := rs[..|rs| - 1], rs[|rs| - 1];
      ChargesAreReported(before);
      LastAdded(rs);
      ChargeMore(Activities(before), ActivityOf(before, r));
      OneMoreSum(SumCharges(Activities(before)), ActivityOf(before, r), BilledUsage(rs),
                 Sums(before));
    }
  }

  predicate ModelTotalsAre(t: Option<Tokens>, a: Option<Reported>) {
    (t.Some? <==> a.Some?) && (t.Some? ==> TotalsAre(t.value, a.value))
  }

  lemma OneMoreModelSum(log: seq<Activity>, more: seq<Activity>, u: Option<Usage>, m: string, sums: Option<Reported>)
    requires AddedAs(more, u) && ModelTotalsAre(ChargesOf(log, m), sums)
    ensures ModelTotalsAre(ChargesOf(log + more, m),
                           if u.Some? && more[0].model == Some(m)
                           then Some(Including(if sums.Some? then sums.value else Reported(0, 0, 0, 0), u.value))
                           else sums)
  {
    if more == [] {
      assert log + more == log;
    } else {
      assert (log + more)[..|log|] == log;
      if u.Some? && sums.Some? {
        AddsReported(ChargesOf(log, m).value, sums.value, more[0].charge.value, u.value);
      }
    }
  }

  lemma LastModel(rs: seq<Record>)
    requires rs != [] && Billable(rs, |rs| - 1)
    ensures var more := ActivityOf(rs[..|rs| - 1], rs[|rs| - 1]);
            more != [] && more[0].model == rs[|rs| - 1].kind.value.model
  {
    LastActivity(rs);
  }

  lemma {:induction false} ModelChargesAreReported(rs: seq<Record>, m: string)
    ensures ModelTotalsAre(ChargesOf(Activities(rs), m), SumsFor(rs, m))
  {
    if rs != [] {
      var before, r := rs[..|rs| - 1], rs[|rs| - 1];
      ModelChargesAreReported(before, m);
      LastAdded(rs);
      if Billable(rs, |rs| - 1) { LastModel(rs); }
      OneMoreModelSum(Activities(before), ActivityOf(before, r), BilledUsage(rs), m,
                      SumsFor(before, m));
    }
  }

  /** Every total of a parsed session is the sum of the number reported, over the billed records: in all, and for
      each model. */
  lemma TotalsAreReported(rs: seq<Record>)
    requires Parsed(rs).session.Some?
    ensures var s := Parsed(rs).session.value;
            && TotalsAre(s.tokensTotal, Sums(rs))
            && forall m :: ModelTotalsAre(Get(s.tokensByModel, m), SumsFor(rs, m))
  {
    var s := Parsed(rs).session.value;
    ParsedExplained(rs);
    ChargesAreReported(rs);
    forall m ensures ModelTotalsAre(Get(s.tokensByModel, m), SumsFor(rs, m)) {
      ModelChargesAreReported(rs, m);
    }
  }

  // ----- the history

  /** The point of the history that record `k` calls for. */
  ghost predicate IsPointOf(rs: seq<Record>, k: nat, p: Point)
    requires Billable(rs, k)
  {
    var r, sums := rs[k], Sums(rs[..k + 1]);
    && r.at == Some(p.at) && p.model == r.kind.value.model && p.tier.None?
    && ChargedAs(p.delta, UsageOf(r)) && p.requestInput == p.delta.input
    && p.runningTotal == sums.input + sums.output + sums.thoughts
  }

  /** The points are those of the records at these positions, in order: all billed records. */
  ghost predicate PointsAt(rs: seq<Record>, history: seq<Point>, at: seq<nat>) {
    && |history| == |at|
    && (forall i, j :: 0 <= i < j < |at| ==> at[i] < at[j])
    && (forall k: nat :: k in at <==> Billable(rs, k) && rs[k].at.Some?)
    && forall i :: 0 <= i < |at| && Billable(rs, at[i]) ==> IsPointOf(rs, at[i], history[i])
  }

  lemma BillableEarlier(before: seq<Record>, r: Record, k: nat)
    requires k < |before|
    ensures Billable(before + [r], k) <==> Billable(before, k)
    ensures (before + [r])[..k + 1] == before[..k + 1]
  {
    assert forall j :: 0 <= j < |before| ==> (before + [r])[j] == before[j];
  }

  lemma PointsKept(before: seq<Record>, r: Record, history: seq<Point>, at: seq<nat>)
    requires PointsAt(before, history, at)
    ensures forall i :: 0 <= i < |at| ==> at[i] < |before| && Billable(before + [r], at[i])
                                          && IsPointOf(before + [r], at[i], history[i])
    ensures forall k: nat :: k != |before| ==>
              (k in at <==> Billable(before + [r], k) && (before + [r])[k].at.Some?)
  {
    var rs := before + [r];
    forall i | 0 <= i < |at|
      ensures at[i] < |before| && Billable(rs, at[i]) && IsPointOf(rs, at[i], history[i])
    {
      assert at[i] in at && Billable(before, at[i]);
      BillableEarlier(before, r, at[i]);
      assert IsPointOf(before, at[i], history[i]);
    }
    forall k: nat | k != |before| ensures k in at <==> Billable(rs, k) && rs[k].at.Some? {
      if k < |before| { BillableEarlier(before, r, k); }
    }
  }

  /** The last record adds its point to those before, if it is billed and has a time. */
  lemma PointsGrow(rs: seq<Record>, log: seq<Activity>, more: seq<Activity>)
    requires rs != [] && log == Activities(rs[..|rs| - 1])
    requires more == ActivityOf(rs[..|rs| - 1], rs[|rs| - 1])
    ensures var n := |rs| - 1;
            if Billable(rs, n) && rs[n].at.Some? then
              exists p :: Points(log + more) == Points(log) + [p] && IsPointOf(rs, n, p)
            else Points(log + more) == Points(log)
  {
    var n := |rs| - 1;
    LastActivity(rs);
    ChargesAreReported(rs);
    assert rs[..n + 1] == rs;
    PointOfLast(log, more);
    if Billable(rs, n) && rs[n].at.Some? {
      assert IsPointOf(rs, n, PointIn(more[0], SumCharges(log + more).total)[0]);
    }
  }

  lemma PointOfLast(log: seq<Activity>, more: seq<Activity>)
    requires |more| <= 1
    ensures Points(log + more) ==
            Points(log) + if more == [] then [] else PointIn(more[0], SumCharges(log + more).total)
  {
    if more == [] {
      assert log + more == log && Points(log) + [] == Points(log);
    } else {
      assert (log + more)[..|log|] == log;
    }
  }

  lemma OneMorePoint(rs: seq<Record>, history: seq<Point>, at: seq<nat>, more: seq<Point>)
    requires rs != [] && PointsAt(rs[..|rs| - 1], history, at)
    requires var n := |rs| - 1;
             if Billable(rs, n) && rs[n].at.Some? then |more| == 1 && IsPointOf(rs, n, more[0])
             else more == []
    ensures PointsAt(rs, history + more, at + if more == [] then [] else [|rs| - 1])
  {
    var n := |rs| - 1;
    assert rs == rs[..n] + [rs[n]];
    PointsKept(rs[..n], rs[n], history, at);
  }

  lemma PointsStep(rs: seq<Record>, history: seq<Point>, history': seq<Point>, at: seq<nat>)
    returns (at': seq<nat>)
    requires rs != [] && PointsAt(rs[..|rs| - 1], history, at)
    requires var n := |rs| - 1;
             if Billable(rs, n) && rs[n].at.Some? then
               exists p :: history' == history + [p] && IsPointOf(rs, n, p)
             else history' == history
    ensures PointsAt(rs, history', at')
  {
    var n := |rs| - 1;
    if Billable(rs, n) && rs[n].at.Some? {
      var p :| history' == history + [p] && IsPointOf(rs, n, p);
      OneMorePoint(rs, history, at, [p]);
      at' := at + [n];
    } else {
      OneMorePoint(rs, history, at, []);
      assert history + [] == history && at + [] == at;
      at' := at;
    }
  }

  lemma {:induction false} PointsAreReported(rs: seq<Record>) returns (at: seq<nat>)
    ensures PointsAt(rs, Points(Activities(rs)), at)
  {
    if rs == [] {
      at := [];
    } else {
      var n := |rs| - 1;
      var log, more := Activities(rs[..n]), ActivityOf(rs[..n], rs[n]);
      at := PointsAreReported(rs[..n]);
      PointsGrow(rs, log, more);
      at := PointsStep(rs, Points(log), Points(log + more), at);
    }
  }

  /** The history of a parsed session: one point for each billed record, in order, with the time,
      model and numbers of that record and the sum of all numbers up to it. */
  lemma HistoryIsReported(rs: seq<Record>) returns (at: seq<nat>)
    requires Parsed(rs).session.Some?
    ensures PointsAt(rs, Parsed(rs).session.value.history, at)
  {
    ParsedExplained(rs);
    at := PointsAreReported(rs);
  }
}
