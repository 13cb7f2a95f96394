/**
 Whole runs of the action engine: crashes followed by any number of retries, and the
 all-or-nothing batch with last-in-first-out rollback
 (src-tauri/src/action_executor.rs:568-613).
 */
module ActionBatch {
  import opened Prelude
  import opened ActionJournal
  import opened ActionHistory
  import opened ActionEngine

  // ----- crashes and retries

  datatype Retry = RetryApply | RetryRecover | RetryUndo | RetryRollback

  /** Leave to overwrite the old content of a plan with the new one, and the new content with the old one. */
  function PlanLicences(x: Plan, expected: string, sha: Bytes -> Digest): set<Licence> {
    {Applying(x.target, x.id, expected), Licence(x.target.file, x.target.journal, x.id, ForUndo, sha(x.after))}
  }

  /** An apply cut short anywhere, then any retries each cut short anywhere, then one complete
      rollback: the target holds the old bytes, and the rollback succeeds unless an undo has
      found the target already restored and recorded a conflict. */
  method CrashAndRollBack(e: Engine, x: Plan, expected: string, torn: Bytes, first: Budget,
                          retries: seq<(Retry, Budget)>) returns (r: Result<(), ActionError>)
    requires x.target.file !in e.Exposed() && Holds(e.disk, x, x.before)
    requires At(e.disk, x.target.journal, x.id) == EMPTY_SLOT
    requires Distinguishes(e.sha, x)
    modifies e
    ensures Holds(e.disk, x, x.before)
    ensures r.Ok? ==> RolledBack(e.disk, x, e.sha)
    ensures r.Err? ==> At(e.disk, x.target.journal, x.id).events.Empty() || Recorded(e.disk, x, e.sha, LiveBlocked)
    ensures Continues(old(e.Now()), e.Now(), PlanLicences(x, expected, e.sha))
  {
    var t, id := x.target, x.id;
    ghost var h0, licences := e.Now(), PlanLicences(x, expected, e.sha);
    Stays(h0, licences);
    e.budget := first;
    var _ := e.ApplyTransaction(t, x.revision, expected, x.after, torn, id);
    ContinuesOn(h0, h0, e.Now(), licences, {Applying(t, id, expected)}, licences);
    for i := 0 to |retries|
      invariant InFlight(e.disk, x, e.sha)
      invariant t.file !in e.Exposed()
      invariant Continues(h0, e.Now(), licences)
    {
      ghost var h := e.Now();
      RetryOnce(e, x, expected, torn, retries[i].0, retries[i].1);
      ContinuesOn(h0, h, e.Now(), licences, licences, licences);
    }
    e.budget := Unlimited;
    ghost var last := e.Now();
    InFlightLicences(e.disk, x, e.sha);
    r := e.RollbackFailedAttempt(t, id, x);
    BlockedStays(last.disk, e.disk, x, e.sha);
    ContinuesOn(h0, last, e.Now(), licences, UndoLicences(last.disk, t, id), licences);
  }

  method RetryOnce(e: Engine, x: Plan, expected: string, torn: Bytes, retry: Retry, budget: Budget)
    requires x.target.file !in e.Exposed() && InFlight(e.disk, x, e.sha) && Distinguishes(e.sha, x)
    modifies e
    ensures InFlight(e.disk, x, e.sha)
    ensures Continues(old(e.Now()), e.Now(), PlanLicences(x, expected, e.sha)) && e.Exposed() <= old(e.Exposed())
  {
    var t, id := x.target, x.id;
    ghost var h0, licences := e.Now(), PlanLicences(x, expected, e.sha);
    Stays(h0, licences);
    InFlightLicences(e.disk, x, e.sha);
    e.budget := budget;
    match retry
    case RetryApply =>
      var _ := e.ApplyTransaction(t, x.revision, expected, x.after, torn, id);
      if !old(At(e.disk, t.journal, id)).events.Empty() {
        SameView(old(e.disk), e.disk, x, e.sha);
      }
      ContinuesOn(h0, h0, e.Now(), licences, {Applying(t, id, expected)}, licences);
    case RetryRecover =>
      var _ := e.RecoverTransaction(t, id, x);
      ContinuesOn(h0, h0, e.Now(), licences, {}, licences);
    case RetryUndo =>
      var _ := e.UndoTransaction(t, id, x);
      ContinuesOn(h0, h0, e.Now(), licences, UndoLicences(h0.disk, t, id), licences);
    case RetryRollback =>
      var _ := e.RollbackFailedAttempt(t, id, x);
      ContinuesOn(h0, h0, e.Now(), licences, UndoLicences(h0.disk, t, id), licences);
  }

  /** A plan whose undo was refused keeps that event. */
  lemma BlockedStays(d: Disk, d': Disk, x: Plan, sha: Bytes -> Digest)
    requires SlotGrows(At(d, x.target.journal, x.id), At(d', x.target.journal, x.id))
    requires InFlight(d', x, sha)
    ensures Recorded(d, x, sha, LiveBlocked) ==> Recorded(d', x, sha, LiveBlocked)
  {
    if Recorded(d, x, sha, LiveBlocked) {
      var events' := At(d', x.target.journal, x.id).events;
      assert Lines(x, sha, LiveBlocked).Has(UndoRefused);
      assert events'.Has(UndoRefused);
      var stage := StageOf(d', x, sha);
      assert Lines(x, sha, stage).Has(UndoRefused) && Marks(stage, UndoRefused);
    }
  }

  // ----- the batch

  datatype BatchItem = BatchItem(target: Target, revision: string, expected: string, replacement: Bytes)

  /** What a file holds after the first `n` items, starting from disk `d`. */
  function ContentAfter(d: Disk, items: seq<BatchItem>, n: nat, path: string): Option<Bytes>
    requires n <= |items|
  {
    if n == 0 then FileAt(d, path)
    else if items[n - 1].target.file == path then Some(items[n - 1].replacement)
    else ContentAfter(d, items, n - 1, path)
  }

  /** The transaction that item `i` amounts to. */
  function PlanOf(d: Disk, items: seq<BatchItem>, ids: seq<string>, i: nat): Plan
    requires i < |items| == |ids|
  {
    var content := ContentAfter(d, items, i, items[i].target.file);
    Plan(items[i].target, ids[i], items[i].revision, if content.Some? then content.value else [], items[i].replacement)
  }

  /** Item `i` has a file to work on that nobody else writes. */
  predicate Undisturbed(d: Disk, items: seq<BatchItem>, exposed: set<string>, i: nat)
    requires i < |items|
  {
    items[i].target.file !in exposed && items[i].target.file in d.files
  }

  /** What a batch may overwrite: the expected content of an item, and on the way back what the item wrote. */
  function BatchLicences(sha: Bytes -> Digest, items: seq<BatchItem>, ids: seq<string>): set<Licence>
    requires |items| == |ids|
  {
    (set i | 0 <= i < |items| :: Applying(items[i].target, ids[i], items[i].expected)) +
    (set i | 0 <= i < |items| :: Licence(items[i].target.file, items[i].target.journal, ids[i], ForUndo,
                                              sha(items[i].replacement)))
  }

  lemma ItemLicences(d: Disk, sha: Bytes -> Digest, items: seq<BatchItem>, ids: seq<string>, k: nat)
    requires k < |items| == |ids|
    ensures {Applying(items[k].target, ids[k], items[k].expected)} <= BatchLicences(sha, items, ids)
    ensures UndoHash(d, items[k].target, ids[k]) in {None, Some(sha(items[k].replacement))} ==>
              UndoLicences(d, items[k].target, ids[k]) <= BatchLicences(sha, items, ids)
  {
  }

  /** Content of a file that is neither what some item of the batch expects there, nor what it writes there. */
  predicate IsForeign(sha: Bytes -> Digest, items: seq<BatchItem>, path: string, hash: string) {
    forall i :: 0 <= i < |items| && items[i].target.file == path ==>
      hash != items[i].expected && hash != sha(items[i].replacement)
  }

  /** Every journal of the batch that has begun names what its item writes. */
  ghost predicate Named(d: Disk, sha: Bytes -> Digest, items: seq<BatchItem>, ids: seq<string>)
    requires |items| == |ids|
  {
    forall i :: 0 <= i < |items| ==> UndoHash(d, items[i].target, ids[i]) in {None, Some(sha(items[i].replacement))}
  }

  predicate DistinctIds(ids: seq<string>) {
    forall i, j :: 0 <= i < j < |ids| ==> ids[i] != ids[j]
  }

  /** Fresh, pairwise different ids; and the hash separates what each item overwrites from what it writes. */
  predicate BatchReady(d: Disk, sha: Bytes -> Digest, exposed: set<string>, items: seq<BatchItem>, ids: seq<string>) {
    && |ids| == |items|
    && DistinctIds(ids)
    && (forall i :: 0 <= i < |items| ==> At(d, items[i].target.journal, ids[i]) == EMPTY_SLOT)
    && (forall i :: 0 <= i < |items| && Undisturbed(d, items, exposed, i) ==>
         Distinguishes(sha, PlanOf(d, items, ids, i)))
  }

  /** The first `n` items are applied and the attempts from `n` up to `m` are closed; paths nobody else
      writes hold exactly what the first `n` items leave in them. */
  ghost predicate Progress(d0: Disk, d: Disk, sha: Bytes -> Digest, exposed: set<string>,
                           items: seq<BatchItem>, ids: seq<string>, n: nat, m: nat)
    requires n <= m <= |items| == |ids|
  {
    && (forall p :: p !in exposed ==> FileAt(d, p) == ContentAfter(d0, items, n, p))
    && (forall i :: 0 <= i < n ==> Carried(d0, d, sha, exposed, items, ids, i))
    && (forall i :: n <= i < m ==> Closed(d0, d, sha, exposed, items, ids, i))
    && (forall i :: m <= i < |items| ==> At(d, items[i].target.journal, ids[i]) == EMPTY_SLOT)
  }

  ghost predicate Carried(d0: Disk, d: Disk, sha: Bytes -> Digest, exposed: set<string>,
                          items: seq<BatchItem>, ids: seq<string>, i: nat)
    requires i < |items| == |ids|
  {
    items[i].target.file !in exposed ==>
      items[i].target.file in d0.files && Recorded(d, PlanOf(d0, items, ids, i), sha, Live)
  }

  ghost predicate Closed(d0: Disk, d: Disk, sha: Bytes -> Digest, exposed: set<string>,
                         items: seq<BatchItem>, ids: seq<string>, i: nat)
    requires i < |items| == |ids|
  {
    items[i].target.file !in exposed ==> RolledBack(d, PlanOf(d0, items, ids, i), sha)
  }

  /** Item `k` failed somewhere on its way; the earlier ones are applied, the later ones untouched. */
  ghost predicate Stuck(d0: Disk, d: Disk, sha: Bytes -> Digest, exposed: set<string>,
                        items: seq<BatchItem>, ids: seq<string>, k: nat)
    requires k < |items| == |ids|
  {
    && (forall p :: p !in exposed && p != items[k].target.file ==> FileAt(d, p) == ContentAfter(d0, items, k, p))
    && (forall i :: 0 <= i < k ==> Carried(d0, d, sha, exposed, items, ids, i))
    && (forall i :: k < i < |items| ==> At(d, items[i].target.journal, ids[i]) == EMPTY_SLOT)
    && (items[k].target.file !in exposed ==>
          if items[k].target.file in d0.files then Attempted(d, PlanOf(d0, items, ids, k), sha)
          else FileAt(d, items[k].target.file).None? && At(d, items[k].target.journal, ids[k]).events.Empty())
  }

  lemma {:induction false} ContentExists(d: Disk, items: seq<BatchItem>, n: nat, path: string)
    requires n <= |items| && path in d.files
    ensures ContentAfter(d, items, n, path).Some?
  {
    if n > 0 {
      ContentExists(d, items, n - 1, path);
    }
  }

  /** While every applied item found its file, a file that was missing is still missing. */
  lemma {:induction false} ContentMissing(d: Disk, items: seq<BatchItem>, n: nat, path: string)
    requires n <= |items| && path !in d.files
    requires forall i :: 0 <= i < n ==> items[i].target.file != path
    ensures ContentAfter(d, items, n, path).None?
  {
    if n > 0 {
      ContentMissing(d, items, n - 1, path);
    }
  }

  /** Working on one attempt leaves all others alone. */
  lemma OthersKept(d0: Disk, d: Disk, d': Disk, sha: Bytes -> Digest, exposed: set<string>,
                   items: seq<BatchItem>, ids: seq<string>, k: nat)
    requires k < |items| == |ids| && DistinctIds(ids)
    requires Grows(d, d', items[k].target, ids[k], exposed)
    ensures Named(d, sha, items, ids) ==>
              UndoHash(d', items[k].target, ids[k]) in {None, Some(sha(items[k].replacement))} ==>
              Named(d', sha, items, ids)
    ensures forall i :: 0 <= i < |items| && i != k ==>
                          At(d', items[i].target.journal, ids[i]) == At(d, items[i].target.journal, ids[i])
    ensures forall i :: 0 <= i < |items| && i != k && Carried(d0, d, sha, exposed, items, ids, i) ==>
                          Carried(d0, d', sha, exposed, items, ids, i)
    ensures forall i :: 0 <= i < |items| && i != k && Closed(d0, d, sha, exposed, items, ids, i) ==>
                          Closed(d0, d', sha, exposed, items, ids, i)
  {
  }

  /** Nothing stands in the way of item `k`: it finds the content it expects and is not interrupted. */
  predicate Unobstructed(d0: Disk, sha: Bytes -> Digest, exposed: set<string>, items: seq<BatchItem>, ids: seq<string>,
                         k: nat, fault: Budget)
    requires k < |items| == |ids|
  {
    && Undisturbed(d0, items, exposed, k)
    && WellFormed(PlanOf(d0, items, ids, k))
    && items[k].expected == sha(PlanOf(d0, items, ids, k).before)
    && fault.Unlimited?
  }

  /** Item `k` is in good order, but its file does not hold what the item expects there. */
  predicate Mismatched(d0: Disk, sha: Bytes -> Digest, exposed: set<string>, items: seq<BatchItem>, ids: seq<string>,
                       k: nat)
    requires k < |items| == |ids|
  {
    && Undisturbed(d0, items, exposed, k)
    && WellFormed(PlanOf(d0, items, ids, k)) && CanonicalHash(items[k].expected)
    && items[k].expected != sha(PlanOf(d0, items, ids, k).before)
  }

  /** It fails at item `k`, and on the way there and back nobody else writes the files. */
  predicate FailsAt(d0: Disk, sha: Bytes -> Digest, exposed: set<string>, items: seq<BatchItem>, ids: seq<string>,
                    faults: seq<Budget>, k: nat)
    requires k < |items| == |ids| == |faults|
  {
    && Mismatched(d0, sha, exposed, items, ids, k)
    && forall j :: 0 <= j < k ==> Unobstructed(d0, sha, exposed, items, ids, j, faults[j])
  }

  /** Whichever item fails in this way, the answer is a conflict. */
  predicate ReportsConflict(d0: Disk, sha: Bytes -> Digest, exposed: set<string>, items: seq<BatchItem>,
                            ids: seq<string>, faults: seq<Budget>, r: Result<seq<string>, ActionError>)
    requires |items| == |ids| == |faults|
  {
    forall k :: 0 <= k < |items| && FailsAt(d0, sha, exposed, items, ids, faults, k) ==> r == Err(Conflict)
  }

  predicate NoneMismatched(d0: Disk, sha: Bytes -> Digest, exposed: set<string>, items: seq<BatchItem>,
                           ids: seq<string>, n: nat)
    requires n <= |items| == |ids|
  {
    forall j :: 0 <= j < n ==> !Mismatched(d0, sha, exposed, items, ids, j)
  }

  /** Nobody else writes the files of the first `n` items. */
  predicate Unshared(items: seq<BatchItem>, exposed: set<string>, n: nat)
    requires n <= |items|
  {
    forall j :: 0 <= j < n ==> items[j].target.file !in exposed
  }

  lemma FirstFailure(d0: Disk, sha: Bytes -> Digest, exposed: set<string>, items: seq<BatchItem>, ids: seq<string>,
                     faults: seq<Budget>, k: nat, r: Result<seq<string>, ActionError>)
    requires k < |items| == |ids| == |faults| && NoneMismatched(d0, sha, exposed, items, ids, k)
    requires !Unobstructed(d0, sha, exposed, items, ids, k, faults[k])
    requires FailsAt(d0, sha, exposed, items, ids, faults, k) ==> r == Err(Conflict)
    ensures ReportsConflict(d0, sha, exposed, items, ids, faults, r)
  {
    forall l | 0 <= l < |items| && FailsAt(d0, sha, exposed, items, ids, faults, l) ensures r == Err(Conflict) {
      if k < l { FailsBeyond(d0, sha, exposed, items, ids, faults, k, l); }
    }
  }

  lemma FailsBeyond(d0: Disk, sha: Bytes -> Digest, exposed: set<string>, items: seq<BatchItem>, ids: seq<string>,
                    faults: seq<Budget>, k: nat, l: nat)
    requires k < l < |items| == |ids| == |faults| && FailsAt(d0, sha, exposed, items, ids, faults, l)
    ensures Unobstructed(d0, sha, exposed, items, ids, k, faults[k])
  {
  }

  lemma FailsUnshared(d0: Disk, sha: Bytes -> Digest, exposed: set<string>, items: seq<BatchItem>, ids: seq<string>,
                      faults: seq<Budget>, k: nat)
    requires k < |items| == |ids| == |faults| && FailsAt(d0, sha, exposed, items, ids, faults, k)
    ensures Unshared(items, exposed, k + 1)
  {
    forall j | 0 <= j < k + 1 ensures items[j].target.file !in exposed {
      if j < k { FailsBeyond(d0, sha, exposed, items, ids, faults, j, k); }
    }
  }

  /** The batch as it goes on: what it has done so far is licensed, nobody else will write anything that
      they were not going to write at the start, and the journals name what the items write. */
  ghost predicate InBatch(h0: History, h: History, items: seq<BatchItem>, ids: seq<string>)
    requires |items| == |ids|
  {
    && h.sha == h0.sha
    && Continues(h0, h, BatchLicences(h0.sha, items, ids))
    && Written(h.schedule) <= Written(h0.schedule)
    && Named(h.disk, h0.sha, items, ids)
  }

  /** A step for item `k` is a step of the batch. */
  lemma BatchStep(h0: History, h: History, h': History, items: seq<BatchItem>, ids: seq<string>, k: nat,
                  licences: set<Licence>)
    requires k < |items| == |ids| && DistinctIds(ids)
    requires InBatch(h0, h, items, ids) && h'.sha == h.sha && Written(h'.schedule) <= Written(h.schedule)
    requires Continues(h, h', licences)
    requires licences in {{Applying(items[k].target, ids[k], items[k].expected)},
                          UndoLicences(h.disk, items[k].target, ids[k])}
    requires Grows(h.disk, h'.disk, items[k].target, ids[k], Written(h.schedule))
    requires UndoHash(h'.disk, items[k].target, ids[k]) in {None, Some(h0.sha(items[k].replacement))}
    ensures InBatch(h0, h', items, ids)
    ensures Grows(h.disk, h'.disk, items[k].target, ids[k], Written(h0.schedule))
  {
    ItemLicences(h.disk, h0.sha, items, ids, k);
    ContinuesOn(h0, h, h', BatchLicences(h0.sha, items, ids), licences, BatchLicences(h0.sha, items, ids));
    MoreExposed(h.disk, h'.disk, items[k].target, ids[k], Written(h.schedule), Written(h0.schedule));
    OthersKept(h0.disk, h.disk, h'.disk, h0.sha, Written(h0.schedule), items, ids, k);
  }

  lemma MoreExposed(d: Disk, d': Disk, t: Target, id: string, few: set<string>, more: set<string>)
    requires Grows(d, d', t, id, few) && few <= more
    ensures Grows(d, d', t, id, more)
  {
  }

  /** Item `n - 1` has been undone: one item fewer is applied, one attempt more is closed. */
  lemma OneBack(d0: Disk, d: Disk, d': Disk, sha: Bytes -> Digest, exposed: set<string>,
                items: seq<BatchItem>, ids: seq<string>, n: nat, m: nat)
    requires 0 < n <= m <= |items| == |ids| && DistinctIds(ids)
    requires Progress(d0, d, sha, exposed, items, ids, n, m)
    requires Grows(d, d', items[n - 1].target, ids[n - 1], exposed)
    requires items[n - 1].target.file !in exposed ==>
               RolledBack(d', PlanOf(d0, items, ids, n - 1), sha)
               && FileAt(d', items[n - 1].target.file) == ContentAfter(d0, items, n - 1, items[n - 1].target.file)
    ensures Progress(d0, d', sha, exposed, items, ids, n - 1, m)
  {
    OthersKept(d0, d, d', sha, exposed, items, ids, n - 1);
    assert Closed(d0, d', sha, exposed, items, ids, n - 1);
    forall p | p !in exposed ensures FileAt(d', p) == ContentAfter(d0, items, n - 1, p) {
      assert FileAt(d, p) == ContentAfter(d0, items, n, p);
    }
  }

  lemma AllClosed(d0: Disk, d: Disk, sha: Bytes -> Digest, exposed: set<string>, items: seq<BatchItem>,
                  ids: seq<string>, m: nat)
    requires m <= |items| == |ids| && Progress(d0, d, sha, exposed, items, ids, 0, m)
    ensures forall i :: 0 <= i < |items| ==> Closed(d0, d, sha, exposed, items, ids, i)
    ensures forall p :: p !in exposed ==> FileAt(d, p) == FileAt(d0, p)
  {
    forall i | 0 <= i < |items| ensures Closed(d0, d, sha, exposed, items, ids, i) {
      assert i >= m ==> At(d, items[i].target.journal, ids[i]) == EMPTY_SLOT;
    }
  }

  /** While the items before `k` are applied, its file holds the content it works on, or is still missing. */
  lemma ItemContent(d0: Disk, d: Disk, sha: Bytes -> Digest, exposed: set<string>, items: seq<BatchItem>,
                    ids: seq<string>, k: nat)
    requires k < |items| == |ids| && items[k].target.file !in exposed
    requires forall i :: 0 <= i < k ==> Carried(d0, d, sha, exposed, items, ids, i)
    ensures ContentAfter(d0, items, k, items[k].target.file) ==
            if items[k].target.file in d0.files then Some(PlanOf(d0, items, ids, k).before) else None
  {
    var file := items[k].target.file;
    if file in d0.files {
      ContentExists(d0, items, k, file);
    } else {
      forall i | 0 <= i < k ensures items[i].target.file != file {
        assert Carried(d0, d, sha, exposed, items, ids, i);
      }
      ContentMissing(d0, items, k, file);
    }
  }

  /** Where an attempt at item `k` leaves its file and its slot. */
  ghost predicate ItemEnds(d0: Disk, d: Disk, sha: Bytes -> Digest, items: seq<BatchItem>, ids: seq<string>, k: nat,
                           ok: bool)
    requires k < |items| == |ids|
  {
    var x := PlanOf(d0, items, ids, k);
    if items[k].target.file in d0.files then
      Attempted(d, x, sha) && (ok ==> Recorded(d, x, sha, Live) && Holds(d, x, x.after))
    else !ok && FileAt(d, x.target.file).None? && At(d, x.target.journal, x.id).events.Empty()
  }

  lemma ItemAdvances(d0: Disk, d: Disk, d': Disk, sha: Bytes -> Digest, exposed: set<string>,
                     items: seq<BatchItem>, ids: seq<string>, k: nat, ok: bool)
    requires k < |items| == |ids| && DistinctIds(ids) && Progress(d0, d, sha, exposed, items, ids, k, k)
    requires Grows(d, d', items[k].target, ids[k], exposed)
    requires items[k].target.file !in exposed ==> ItemEnds(d0, d', sha, items, ids, k, ok)
    ensures if ok then Progress(d0, d', sha, exposed, items, ids, k + 1, k + 1)
            else Stuck(d0, d', sha, exposed, items, ids, k)
  {
    OthersKept(d0, d, d', sha, exposed, items, ids, k);
    if ok {
      assert Carried(d0, d', sha, exposed, items, ids, k);
      forall p | p !in exposed ensures FileAt(d', p) == ContentAfter(d0, items, k + 1, p) {
        assert FileAt(d, p) == ContentAfter(d0, items, k, p);
      }
    }
  }

  /** One item, possibly interrupted: on success the batch has advanced, on failure the attempt can be rolled back. */
  method ApplyItem(e: Engine, ghost h0: History, items: seq<BatchItem>, ids: seq<string>, k: nat, torn: Bytes,
                   fault: Budget)
    returns (r: Result<string, ActionError>)
    requires k < |items| == |ids| && DistinctIds(ids) && InBatch(h0, e.Now(), items, ids)
    requires Progress(h0.disk, e.disk, h0.sha, Written(h0.schedule), items, ids, k, k)
    modifies e
    ensures InBatch(h0, e.Now(), items, ids)
    ensures r.Ok? ==> Progress(h0.disk, e.disk, h0.sha, Written(h0.schedule), items, ids, k + 1, k + 1)
    ensures r.Err? ==> Stuck(h0.disk, e.disk, h0.sha, Written(h0.schedule), items, ids, k)
    ensures Unobstructed(h0.disk, h0.sha, Written(h0.schedule), items, ids, k, fault) ==> r.Ok?
    ensures Mismatched(h0.disk, h0.sha, Written(h0.schedule), items, ids, k) ==>
              r == Err(Conflict) && BlankAttempt(e.disk, items[k].target, ids[k])
  {
    var item := items[k];
    ghost var h, exposed := e.Now(), Written(h0.schedule);
    e.budget := fault;
    assert At(e.disk, item.target.journal, ids[k]) == EMPTY_SLOT;
    if item.target.file !in exposed {
      ItemContent(h0.disk, e.disk, h0.sha, exposed, items, ids, k);
    }
    r := e.ApplyTransaction(item.target, item.revision, item.expected, item.replacement, torn, ids[k]);
    BatchStep(h0, h, e.Now(), items, ids, k, {Applying(item.target, ids[k], item.expected)});
    ItemAdvances(h0.disk, h.disk, e.disk, h0.sha, exposed, items, ids, k, r.Ok?);
  }

  /** What the failing item has left, when nobody else writes its file: an attempt to be rolled back, or nothing. */
  lemma StuckPlan(d0: Disk, d: Disk, sha: Bytes -> Digest, exposed: set<string>, items: seq<BatchItem>,
                  ids: seq<string>, k: nat)
    requires k < |items| && BatchReady(d0, sha, exposed, items, ids) && Stuck(d0, d, sha, exposed, items, ids, k)
    requires items[k].target.file !in exposed
    ensures var x, content := PlanOf(d0, items, ids, k), ContentAfter(d0, items, k, items[k].target.file);
            if content.Some? then
              InFlight(d, x, sha) && Distinguishes(sha, x) && !Recorded(d, x, sha, LiveBlocked)
              && content == Some(x.before)
            else FileAt(d, x.target.file).None? && At(d, x.target.journal, x.id).events.Empty()
  {
    StagesDiffer(PlanOf(d0, items, ids, k), sha);
    ItemContent(d0, d, sha, exposed, items, ids, k);
  }

  /** The failing item has been rolled back: its attempt is closed too. */
  lemma OneClosed(d0: Disk, d: Disk, d': Disk, sha: Bytes -> Digest, exposed: set<string>,
                  items: seq<BatchItem>, ids: seq<string>, k: nat)
    requires k < |items| == |ids| && DistinctIds(ids) && Stuck(d0, d, sha, exposed, items, ids, k)
    requires Grows(d, d', items[k].target, ids[k], exposed)
    requires items[k].target.file !in exposed ==>
               RolledBack(d', PlanOf(d0, items, ids, k), sha)
               && FileAt(d', items[k].target.file) == ContentAfter(d0, items, k, items[k].target.file)
    ensures Progress(d0, d', sha, exposed, items, ids, k, k + 1)
  {
    OthersKept(d0, d, d', sha, exposed, items, ids, k);
    assert Closed(d0, d', sha, exposed, items, ids, k);
  }

  /** `rollback_failed_attempt` for the failing item. */
  method CloseFailed(e: Engine, ghost h0: History, items: seq<BatchItem>, ids: seq<string>, k: nat)
    returns (r: Result<(), ActionError>)
    requires k < |items| && BatchReady(h0.disk, h0.sha, Written(h0.schedule), items, ids)
    requires InBatch(h0, e.Now(), items, ids)
    requires Stuck(h0.disk, e.disk, h0.sha, Written(h0.schedule), items, ids, k)
    modifies e
    ensures InBatch(h0, e.Now(), items, ids)
    ensures Progress(h0.disk, e.disk, h0.sha, Written(h0.schedule), items, ids, k, k + 1)
    ensures items[k].target.file !in Written(h0.schedule) && old(BlankAttempt(e.disk, items[k].target, ids[k])) ==>
              r == Ok(())
  {
    ghost var h, exposed, x := e.Now(), Written(h0.schedule), PlanOf(h0.disk, items, ids, k);
    e.budget := Unlimited;
    if x.target.file !in exposed {
      StuckPlan(h0.disk, h.disk, h0.sha, exposed, items, ids, k);
    }
    r := e.RollbackFailedAttempt(items[k].target, ids[k], x);
    BatchStep(h0, h, e.Now(), items, ids, k, UndoLicences(h.disk, items[k].target, ids[k]));
    OneClosed(h0.disk, h.disk, e.disk, h0.sha, exposed, items, ids, k);
  }

  /** Undoes the last item that is still applied. */
  method UndoLast(e: Engine, ghost h0: History, items: seq<BatchItem>, ids: seq<string>, n: nat, ghost m: nat)
    returns (r: Result<(), ActionError>)
    requires 0 < n <= m <= |items| && BatchReady(h0.disk, h0.sha, Written(h0.schedule), items, ids)
    requires InBatch(h0, e.Now(), items, ids)
    requires Progress(h0.disk, e.disk, h0.sha, Written(h0.schedule), items, ids, n, m)
    modifies e
    ensures InBatch(h0, e.Now(), items, ids)
    ensures Progress(h0.disk, e.disk, h0.sha, Written(h0.schedule), items, ids, n - 1, m)
    ensures items[n - 1].target.file !in Written(h0.schedule) ==> r.Ok?
  {
    var k := n - 1;
    ghost var h, exposed, x := e.Now(), Written(h0.schedule), PlanOf(h0.disk, items, ids, k);
    assert Carried(h0.disk, e.disk, h0.sha, exposed, items, ids, k);
    if x.target.file in h0.disk.files {
      ContentExists(h0.disk, items, k, x.target.file);
    }
    e.budget := Unlimited;
    r := e.UndoTransaction(items[k].target, ids[k], x);
    BatchStep(h0, h, e.Now(), items, ids, k, UndoLicences(h.disk, items[k].target, ids[k]));
    OneBack(h0.disk, h.disk, e.disk, h0.sha, exposed, items, ids, n, m);
  }

  /** `apply_batch_using`: applies the items in order; `faults` says where each apply is interrupted.
      When an item fails, it is reconciled first and the earlier ones are undone in reverse order. */
  method ApplyBatch(e: Engine, items: seq<BatchItem>, ids: seq<string>, torn: Bytes, faults: seq<Budget>)
    returns (r: Result<seq<string>, ActionError>)
    requires |faults| == |items| && BatchReady(e.disk, e.sha, e.Exposed(), items, ids)
    modifies e
    ensures |items| == 0 || |items| > 16 ==> r == Err(UnsafeTarget) && e.disk == old(e.disk)
    // all ...
    ensures r.Ok? ==> r.value == ids && forall p :: p !in old(e.Exposed()) ==>
                        FileAt(e.disk, p) == ContentAfter(old(e.disk), items, |items|, p)
    // ... or nothing, on every path nobody else writes ...
    ensures r.Err? ==> forall p :: p !in old(e.Exposed()) ==> FileAt(e.disk, p) == FileAt(old(e.disk), p)
    // ... while on every path foreign content survives until somebody else writes it
    ensures Continues(old(e.Now()), e.Now(), BatchLicences(e.sha, items, ids))
    ensures old(Accounted(e.Now())) ==> forall path, bytes :: IsForeign(e.sha, items, path, e.sha(bytes)) ==>
              Spares(e.Now(), |old(e.trace)|, path, bytes)
    // it fails only if some item is obstructed
    ensures 0 < |items| <= 16 && r.Err? ==>
              exists k :: 0 <= k < |items| &&
                !Unobstructed(old(e.disk), e.sha, old(e.Exposed()), items, ids, k, faults[k])
    // an item in good order that does not find what it expects is a conflict, and reported as one
    ensures 0 < |items| <= 16 ==> ReportsConflict(old(e.disk), e.sha, old(e.Exposed()), items, ids, faults, r)
    // and no attempt is left open
    ensures r.Err? && 0 < |items| <= 16 ==>
              forall i :: 0 <= i < |items| ==> Closed(old(e.disk), e.disk, e.sha, old(e.Exposed()), items, ids, i)
  {
    ghost var h0, licences := e.Now(), BatchLicences(e.sha, items, ids);
    Stays(h0, licences);
    if |items| == 0 || |items| > 16 {
      r := Err(UnsafeTarget);
    } else {
      r := ApplyItems(e, h0, items, ids, torn, faults);
    }
    if Accounted(h0) {
      forall path, bytes | IsForeign(h0.sha, items, path, h0.sha(bytes))
        ensures Spares(e.Now(), |h0.trace|, path, bytes)
      {
        ForeignBytesSpared(h0, e.Now(), licences, path, bytes);
      }
    }
  }

  lemma BatchBegins(h0: History, items: seq<BatchItem>, ids: seq<string>)
    requires BatchReady(h0.disk, h0.sha, Written(h0.schedule), items, ids)
    ensures InBatch(h0, h0, items, ids)
    ensures Progress(h0.disk, h0.disk, h0.sha, Written(h0.schedule), items, ids, 0, 0)
  {
    Stays(h0, BatchLicences(h0.sha, items, ids));
  }

  /** The loop over the items, and the way back from the first that fails. */
  method ApplyItems(e: Engine, ghost h0: History, items: seq<BatchItem>, ids: seq<string>, torn: Bytes,
                    faults: seq<Budget>)
    returns (r: Result<seq<string>, ActionError>)
    requires |faults| == |items| && h0 == e.Now() && BatchReady(h0.disk, h0.sha, Written(h0.schedule), items, ids)
    modifies e
    ensures InBatch(h0, e.Now(), items, ids)
    ensures r.Ok? ==>
              r.value == ids && Progress(h0.disk, e.disk, h0.sha, Written(h0.schedule), items, ids, |items|, |items|)
    ensures r.Err? ==> Progress(h0.disk, e.disk, h0.sha, Written(h0.schedule), items, ids, 0, |items|)
    ensures r.Err? ==>
              exists k :: 0 <= k < |items| &&
                !Unobstructed(h0.disk, h0.sha, Written(h0.schedule), items, ids, k, faults[k])
    ensures ReportsConflict(h0.disk, h0.sha, Written(h0.schedule), items, ids, faults, r)
  {
    ghost var exposed := Written(h0.schedule);
    BatchBegins(h0, items, ids);
    for k := 0 to |items|
      invariant InBatch(h0, e.Now(), items, ids)
      invariant Progress(h0.disk, e.disk, h0.sha, Written(h0.schedule), items, ids, k, k)
      invariant NoneMismatched(h0.disk, h0.sha, Written(h0.schedule), items, ids, k)
    {
      var applied := ApplyItem(e, h0, items, ids, k, torn, faults[k]);
      if applied.Err? {
        assert !Unobstructed(h0.disk, h0.sha, exposed, items, ids, k, faults[k]);
        r := RollBack(e, h0, items, ids, k, applied.error);
        if FailsAt(h0.disk, h0.sha, exposed, items, ids, faults, k) {
          FailsUnshared(h0.disk, h0.sha, exposed, items, ids, faults, k);
        }
        FirstFailure(h0.disk, h0.sha, exposed, items, ids, faults, k, r);
        return;
      }
    }
    return Ok(ids);
  }

  /** Reconciles the failing item, then undoes the earlier ones in reverse order. */
  method RollBack(e: Engine, ghost h0: History, items: seq<BatchItem>, ids: seq<string>, k: nat, error: ActionError)
    returns (r: Result<seq<string>, ActionError>)
    requires k < |items| && BatchReady(h0.disk, h0.sha, Written(h0.schedule), items, ids)
    requires InBatch(h0, e.Now(), items, ids)
    requires Stuck(h0.disk, e.disk, h0.sha, Written(h0.schedule), items, ids, k)
    modifies e
    ensures r.Err? && InBatch(h0, e.Now(), items, ids)
    ensures Progress(h0.disk, e.disk, h0.sha, Written(h0.schedule), items, ids, 0, |items|)
    // the error is the item's own when nothing goes wrong on the way back
    ensures Unshared(items, Written(h0.schedule), k + 1) && old(BlankAttempt(e.disk, items[k].target, ids[k])) ==>
              r == Err(error)
  {
    var closed := CloseFailed(e, h0, items, ids, k);
    var rollbackError := if closed.Err? then Some(closed.error) else None;
    ghost var clean := closed.Ok? && Unshared(items, Written(h0.schedule), k + 1);
    var n := k;
    while n > 0
      invariant 0 <= n <= k
      invariant InBatch(h0, e.Now(), items, ids)
      invariant Progress(h0.disk, e.disk, h0.sha, Written(h0.schedule), items, ids, n, k + 1)
      invariant clean ==> rollbackError.None?
    {
      assert clean ==> items[n - 1].target.file !in Written(h0.schedule);
      var undone := UndoLast(e, h0, items, ids, n, k + 1);
      if undone.Err? && rollbackError.None? {
        rollbackError := Some(undone.error);
      }
      n := n - 1;
    }
    AllClosed(h0.disk, e.disk, h0.sha, Written(h0.schedule), items, ids, k + 1);
    return Err(if rollbackError.Some? then rollbackError.value else error);
  }
}
