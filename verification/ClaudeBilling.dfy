/**
 What a Claude Code transcript is billed for (src-tauri/src/claude_parser.rs), in the numbers its records
 report: token counts of every charge, of the whole session, of each model and of each point of the history.
 */
module ClaudeBilling {
  import opened Prelude
  import opened Buckets
  import opened SessionLedger
  import opened ClaudeParser

  // ----- one charge

  /** The charge repeats the reported numbers: cache reads and cache writes are kept apart, and are, with the
      rest of the input, what the input is made of. */
  predicate ChargedAs(t: Tokens, u: Usage) {
    && t.cached == u.cacheRead && t.cacheCreation == u.cacheCreation
    && t.input - t.cached - t.cacheCreation == u.input
    && t.output == u.output && t.reasoning == 0
    && t.total == u.input + u.cacheRead + u.cacheCreation + u.output
  }

  predicate ReportsSome(u: Usage) {
    u.input + u.cacheRead + u.cacheCreation + u.output > 0
  }

  lemma TotalsCharge(u: Usage, t: Tokens)
    ensures ChargedAs(t, u) <==> t == Totals(u)
    ensures AnyPositive(Totals(u)) <==> ReportsSome(u)
  {
  }

  /** Reply `k` is billed: the first with its id, in a session opened by then, with usage to report. */
  ghost predicate Billable(source: Source, rs: seq<Record>, k: nat) {
    && k < |rs| && IsReply(rs[k]) && rs[k].body.message.value.id != ""
    && (forall j :: 0 <= j < k ==> !MessageIs(rs[j], rs[k].body.message.value.id))
    && (exists j :: 0 <= j <= k && Opens(source, rs[j]))
    && rs[k].body.message.value.usage.Some? && ReportsSome(rs[k].body.message.value.usage.value)
  }

  function UsageOf(r: Record): Usage
    requires IsReply(r) && r.body.message.value.usage.Some?
  {
    r.body.message.value.usage.value
  }

  lemma BillableIs(source: Source, rs: seq<Record>, k: nat, id: Id, t: Tokens)
    ensures BillableAt(source, rs, k, id, t) <==>
            Billable(source, rs, k) && rs[k].body.message.value.id == id && ChargedAs(t, UsageOf(rs[k]))
  {
    if k < |rs| && IsReply(rs[k]) && rs[k].body.message.value.usage.Some? {
      TotalsCharge(UsageOf(rs[k]), t);
      TotalsCharge(UsageOf(rs[k]), Totals(UsageOf(rs[k])));
    }
  }

  /** A message is charged with `t` exactly when some record of it is billed and reports those numbers. */
  lemma ChargedAsReported(source: Source, rs: seq<Record>, id: Id, t: Tokens)
    ensures (exists i :: 0 <= i < |Activities(source, rs)| && Bills(Activities(source, rs)[i], id, t)) <==>
            exists k: nat ::
              Billable(source, rs, k) && rs[k].body.message.value.id == id && ChargedAs(t, UsageOf(rs[k]))
  {
    BilledExactlyWhen(source, rs, id, t);
    forall k: nat
      ensures BillableAt(source, rs, k, id, t) <==>
              Billable(source, rs, k) && rs[k].body.message.value.id == id && ChargedAs(t, UsageOf(rs[k]))
    {
      BillableIs(source, rs, k, id, t);
    }
  }

  // ----- sums of reported numbers

  datatype Reported = Reported(input: nat, cacheRead: nat, cacheCreation: nat, output: nat)

  function Including(a: Reported, u: Usage): Reported {
    Reported(a.input + u.input, a.cacheRead + u.cacheRead, a.cacheCreation + u.cacheCreation, a.output + u.output)
  }

  /** The totals are those sums, each in its own field. */
  predicate TotalsAre(t: Tokens, a: Reported) {
    && t.input == a.input + a.cacheRead + a.cacheCreation && t.cached == a.cacheRead
    && t.cacheCreation == a.cacheCreation && t.output == a.output && t.reasoning == 0
    && t.total == a.input + a.cacheRead + a.cacheCreation + a.output
  }

  /** The sums over the billed records. */
  ghost function Sums(source: Source, rs: seq<Record>): Reported {
    if rs == [] then Reported(0, 0, 0, 0)
    else
      var before := Sums(source, rs[..|rs| - 1]);
      if Billable(source, rs, |rs| - 1) then Including(before, UsageOf(rs[|rs| - 1])) else before
  }

  /** And over those that name a model; `None` when there is none. */
  ghost function SumsFor(source: Source, rs: seq<Record>, model: string): Option<Reported> {
    if rs == [] then None
    else
      var before, last := SumsFor(source, rs[..|rs| - 1], model), rs[|rs| - 1];
      if Billable(source, rs, |rs| - 1) && last.body.message.value.model == Some(model)
      then Some(Including(if before.Some? then before.value else Reported(0, 0, 0, 0), UsageOf(last)))
      else before
  }

  /** What the last record of a transcript adds to the log, if it is billed. */
  lemma LastActivity(source: Source, rs: seq<Record>)
    requires rs != []
    ensures var before, r := rs[..|rs| - 1], rs[|rs| - 1];
            var more := ActivityOf(source, before, r);
            && Activities(source, rs) == Activities(source, before) + more && |more| <= 1
            && (Billable(source, rs, |rs| - 1) <==> more != [] && Charges(more[0]))
            && (Billable(source, rs, |rs| - 1) ==>
                  && ChargedAs(more[0].charge.value, UsageOf(r))
                  && more[0].model == r.body.message.value.model && more[0].at == r.at
                  && more[0].tier == TierOf(UsageOf(r)))
  {
    var before, r := rs[..|rs| - 1], rs[|rs| - 1];
    assert rs == before + [r];
    if IsReply(r) && r.body.message.value.usage.Some? {
      var id, t := r.body.message.value.id, Totals(UsageOf(r));
      BillableHere(source, before, r, id, t);
      BillableIs(source, rs, |before|, id, t);
      TotalsCharge(UsageOf(r), t);
    }
  }

  /** Speeds other than the standard one are a tier of their own. */
  function TierOf(u: Usage): Option<string> {
    match u.speed
    case Some(speed) => if speed == "standard" then u.serviceTier else Some(speed)
    case None => u.serviceTier
  }

  /** What a record adds to the log is charged as this usage says, or not charged when there is none. */
  predicate AddedAs(more: seq<Activity>, u: Option<Usage>) {
    && |more| <= 1
    && (u.Some? <==> more != [] && Charges(more[0]))
    && (u.Some? ==> ChargedAs(more[0].charge.value, u.value))
  }

  ghost function BilledUsage(source: Source, rs: seq<Record>): Option<Usage>
    requires rs != []
  {
    if Billable(source, rs, |rs| - 1) then Some(UsageOf(rs[|rs| - 1])) else None
  }

  lemma LastAdded(source: Source, rs: seq<Record>)
    requires rs != []
    ensures var before, r := rs[..|rs| - 1], rs[|rs| - 1];
            AddedAs(ActivityOf(source, before, r), BilledUsage(source, rs))
  {
    LastActivity(source, rs);
  }

  lemma AddsReported(t: Tokens, a: Reported, delta: Tokens, u: Usage)
    requires TotalsAre(t, a) && ChargedAs(delta, u)
    ensures TotalsAre(Add(t, delta), Including(a, u))
  {
  }

  lemma ChargeMore(log: seq<Activity>, more: seq<Activity>)
    requires |more| <= 1
    ensures SumCharges(log + more) ==
            if more != [] && Charges(more[0]) then Add(SumCharges(log), more[0].charge.value) else SumCharges(log)
  {
    if more == [] {
      assert log + more == log;
    } else {
      assert (log + more)[..|log|] == log;
      AddZero(SumCharges(log));
    }
  }

  lemma OneMoreSum(t: Tokens, more: seq<Activity>, u: Option<Usage>, sums: Reported)
    requires AddedAs(more, u) && TotalsAre(t, sums)
    ensures TotalsAre(if more != [] && Charges(more[0]) then Add(t, more[0].charge.value) else t,
                      if u.Some? then Including(sums, u.value) else sums)
  {
    if u.Some? { AddsReported(t, sums, more[0].charge.value, u.value); }
  }

  lemma {:induction false} ChargesAreReported(source: Source, rs: seq<Record>)
    ensures TotalsAre(SumCharges(Activities(source, rs)), Sums(source, rs))
  {
    if rs != [] {
      var before, r := rs[..|rs| - 1], rs[|rs| - 1];
      ChargesAreReported(source, before);
      LastAdded(source, rs);
      ChargeMore(Activities(source, before), ActivityOf(source, before, r));
      OneMoreSum(SumCharges(Activities(source, before)), ActivityOf(source, before, r), BilledUsage(source, rs),
                 Sums(source, before));
    }
  }

  predicate ModelTotalsAre(t: Option<Tokens>, a: Option<Reported>) {
    (t.Some? <==> a.Some?) && (t.Some? ==> TotalsAre(t.value, a.value))
  }

  lemma OneMoreModelSum(log: seq<Activity>, more: seq<Activity>, u: Option<Usage>, m: string, sums: Option<Reported>)
    requires AddedAs(more, u) && ModelTotalsAre(ChargesOf(log, m), sums)
    ensures ModelTotalsAre(ChargesOf(log + more, m),
                           if u.Some? && more[0].model == Some(m)
                           then Some(Including(if sums.Some? then sums.value else Reported(0, 0, 0, 0), u.value))
                           else sums)
  {
    if more == [] {
      assert log + more == log;
    } else {
      assert (log + more)[..|log|] == log;
      if u.Some? && sums.Some? {
        AddsReported(ChargesOf(log, m).value, sums.value, more[0].charge.value, u.value);
      }
    }
  }

  lemma LastModel(source: Source, rs: seq<Record>)
    requires rs != [] && Billable(source, rs, |rs| - 1)
    ensures var more := ActivityOf(source, rs[..|rs| - 1], rs[|rs| - 1]);
            more != [] && more[0].model == rs[|rs| - 1].body.message.value.model
  {
    LastActivity(source, rs);
  }

  lemma {:induction false} ModelChargesAreReported(source: Source, rs: seq<Record>, m: string)
    ensures ModelTotalsAre(ChargesOf(Activities(source, rs), m), SumsFor(source, rs, m))
  {
    if rs != [] {
      var before, r := rs[..|rs| - 1], rs[|rs| - 1];
      ModelChargesAreReported(source, before, m);
      LastAdded(source, rs);
      if Billable(source, rs, |rs| - 1) { LastModel(source, rs); }
      OneMoreModelSum(Activities(source, before), ActivityOf(source, before, r), BilledUsage(source, rs), m,
                      SumsFor(source, before, m));
    }
  }

  /** Every total of a parsed session is the sum of the number reported, over the billed records: in all, and for
      each model. */
  lemma TotalsAreReported(source: Source, rs: seq<Record>)
    requires Parsed(source, rs).session.Some?
    ensures var s := Parsed(source, rs).session.value;
            && TotalsAre(s.tokensTotal, Sums(source, rs))
            && forall m :: ModelTotalsAre(Get(s.tokensByModel, m), SumsFor(source, rs, m))
  {
    var s := Parsed(source, rs).session.value;
    ParsedExplained(source, rs);
    ChargesAreReported(source, rs);
    forall m ensures ModelTotalsAre(Get(s.tokensByModel, m), SumsFor(source, rs, m)) {
      ModelChargesAreReported(source, rs, m);
    }
  }

  // ----- the history

  /** The point of the history that record `k` calls for. */
  ghost predicate IsPointOf(source: Source, rs: seq<Record>, k: nat, p: Point)
    requires Billable(source, rs, k)
  {
    var r, sums := rs[k], Sums(source, rs[..k + 1]);
    && r.at == Some(p.at) && p.model == r.body.message.value.model && p.tier == TierOf(UsageOf(r))
    && ChargedAs(p.delta, UsageOf(r)) && p.requestInput == p.delta.input
    && p.runningTotal == sums.input + sums.cacheRead + sums.cacheCreation + sums.output
  }

  /** The points are those of the records at these positions, in order: all billed records with a time. */
  ghost predicate PointsAt(source: Source, rs: seq<Record>, history: seq<Point>, at: seq<nat>) {
    && |history| == |at|
    && (forall i, j :: 0 <= i < j < |at| ==> at[i] < at[j])
    && (forall k: nat :: k in at <==> Billable(source, rs, k) && rs[k].at.Some?)
    && forall i :: 0 <= i < |at| && Billable(source, rs, at[i]) ==> IsPointOf(source, rs, at[i], history[i])
  }

  lemma BillableEarlier(source: Source, before: seq<Record>, r: Record, k: nat)
    requires k < |before|
    ensures Billable(source, before + [r], k) <==> Billable(source, before, k)
    ensures (before + [r])[..k + 1] == before[..k + 1]
  {
    assert forall j :: 0 <= j < |before| ==> (before + [r])[j] == before[j];
  }

  lemma PointsKept(source: Source, before: seq<Record>, r: Record, history: seq<Point>, at: seq<nat>)
    requires PointsAt(source, before, history, at)
    ensures forall i :: 0 <= i < |at| ==> at[i] < |before| && Billable(source, before + [r], at[i])
                                          && IsPointOf(source, before + [r], at[i], history[i])
    ensures forall k: nat :: k != |before| ==>
              (k in at <==> Billable(source, before + [r], k) && (before + [r])[k].at.Some?)
  {
    var rs := before + [r];
    forall i | 0 <= i < |at|
      ensures at[i] < |before| && Billable(source, rs, at[i]) && IsPointOf(source, rs, at[i], history[i])
    {
      assert at[i] in at && Billable(source, before, at[i]);
      BillableEarlier(source, before, r, at[i]);
      assert IsPointOf(source, before, at[i], history[i]);
    }
    forall k: nat | k != |before| ensures k in at <==> Billable(source, rs, k) && rs[k].at.Some? {
      if k < |before| { BillableEarlier(source, before, r, k); }
    }
  }

  /** The last record adds its point to those before, if it is billed and has a time. */
  lemma PointsGrow(source: Source, rs: seq<Record>, log: seq<Activity>, more: seq<Activity>)
    requires rs != [] && log == Activities(source, rs[..|rs| - 1])
    requires more == ActivityOf(source, rs[..|rs| - 1], rs[|rs| - 1])
    ensures var n := |rs| - 1;
            if Billable(source, rs, n) && rs[n].at.Some? then
              exists p :: Points(log + more) == Points(log) + [p] && IsPointOf(source, rs, n, p)
            else Points(log + more) == Points(log)
  {
    var n := |rs| - 1;
    LastActivity(source, rs);
    ChargesAreReported(source, rs);
    assert rs[..n + 1] == rs;
    PointOfLast(log, more);
    if Billable(source, rs, n) && rs[n].at.Some? {
      assert IsPointOf(source, rs, n, PointIn(more[0], SumCharges(log + more).total)[0]);
    }
  }

  lemma PointOfLast(log: seq<Activity>, more: seq<Activity>)
    requires |more| <= 1
    ensures Points(log + more) ==
            Points(log) + if more == [] then [] else PointIn(more[0], SumCharges(log + more).total)
  {
    if more == [] {
      assert log + more == log && Points(log) + [] == Points(log);
    } else {
      assert (log + more)[..|log|] == log;
    }
  }

  lemma OneMorePoint(source: Source, rs: seq<Record>, history: seq<Point>, at: seq<nat>, more: seq<Point>)
    requires rs != [] && PointsAt(source, rs[..|rs| - 1], history, at)
    requires var n := |rs| - 1;
             if Billable(source, rs, n) && rs[n].at.Some? then |more| == 1 && IsPointOf(source, rs, n, more[0])
             else more == []
    ensures PointsAt(source, rs, history + more, at + if more == [] then [] else [|rs| - 1])
  {
    var n := |rs| - 1;
    assert rs == rs[..n] + [rs[n]];
    PointsKept(source, rs[..n], rs[n], history, at);
  }

  lemma PointsStep(source: Source, rs: seq<Record>, history: seq<Point>, history': seq<Point>, at: seq<nat>)
    returns (at': seq<nat>)
    requires rs != [] && PointsAt(source, rs[..|rs| - 1], history, at)
    requires var n := |rs| - 1;
             if Billable(source, rs, n) && rs[n].at.Some? then
               exists p :: history' == history + [p] && IsPointOf(source, rs, n, p)
             else history' == history
    ensures PointsAt(source, rs, history', at')
  {
    var n := |rs| - 1;
    if Billable(source, rs, n) && rs[n].at.Some? {
      var p :| history' == history + [p] && IsPointOf(source, rs, n, p);
      OneMorePoint(source, rs, history, at, [p]);
      at' := at + [n];
    } else {
      OneMorePoint(source, rs, history, at, []);
      assert history + [] == history && at + [] == at;
      at' := at;
    }
  }

  lemma {:induction false} PointsAreReported(source: Source, rs: seq<Record>) returns (at: seq<nat>)
    ensures PointsAt(source, rs, Points(Activities(source, rs)), at)
  {
    if rs == [] {
      at := [];
    } else {
      var n := |rs| - 1;
      var log, more := Activities(source, rs[..n]), ActivityOf(source, rs[..n], rs[n]);
      at := PointsAreReported(source, rs[..n]);
      PointsGrow(source, rs, log, more);
      at := PointsStep(source, rs, Points(log), Points(log + more), at);
    }
  }

  /** The history of a parsed session: one point for each billed record with a time, in order, with the time,
      model, tier and numbers of that record and the sum of all numbers up to it. */
  lemma HistoryIsReported(source: Source, rs: seq<Record>) returns (at: seq<nat>)
    requires Parsed(source, rs).session.Some?
    ensures PointsAt(source, rs, Parsed(source, rs).session.value.history, at)
  {
    ParsedExplained(source, rs);
    at := PointsAreReported(source, rs);
  }
}
