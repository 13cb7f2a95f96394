/**
 What undo and recovery must do at every stage of a journal (src-tauri/src/action_executor.rs:726-828),
 written down case by case: the answer, the event added and the content of the target.
 */
module ActionTables {
  import opened Prelude
  import opened ActionJournal

  datatype Recovery = RecoveredAborted | RecoveredApplied | RecoveredUndone

  /** A valid journal at this stage, all of whose events repeat `p`, next to a target that can be read. */
  ghost predicate Journalled(d: Disk, t: Target, id: string, stage: Stage, p: Record) {
    var events := At(d, t.journal, id).events;
    && !stage.Fresh? && ValidId(id) && t.journal in d.journals
    && t.file in d.files && |d.files[t.file]| <= MAX_TARGET_BYTES && PlainLabel(t.identity)
    && EventsReadable(t.identity, id, events)
    && AtStage(events, stage)
    && events.prepared == Some(Readable(p))
    && forall s :: events.Has(s) ==> SameTransaction(events.Get(s).value.record, p)
  }

  /** The exact old content is there to go back to. */
  predicate BackedUp(d: Disk, t: Target, id: string, sha: Bytes -> Digest, p: Record) {
    var backup := At(d, t.journal, id).backup;
    backup.Some? && |backup.value| <= MAX_TARGET_BYTES && sha(backup.value) == p.before
  }

  /** Nothing of this action has changed. */
  predicate Kept(d: Disk, d': Disk, t: Target, id: string) {
    At(d', t.journal, id) == At(d, t.journal, id) && FileAt(d', t.file) == FileAt(d, t.file)
  }

  /** Its slot has one event more, and is otherwise as it was. */
  ghost predicate Adds(d: Disk, d': Disk, t: Target, id: string, s: Suffix, r: Record) {
    var slot, slot' := At(d, t.journal, id), At(d', t.journal, id);
    && slot'.backup == slot.backup
    && !slot.events.Has(s)
    && forall s' :: slot'.events.Get(s') == if s' == s then Some(Readable(r)) else slot.events.Get(s')
  }

  /** What recovery does: a finished action is reported, a refused one is a conflict, and any other is
      decided by the content of the target alone; content that is neither the old nor the new one is a
      conflict, and nothing is written for it. */
  ghost predicate Recovers(d: Disk, d': Disk, t: Target, id: string, sha: Bytes -> Digest, stage: Stage, p: Record,
                           r: Result<Recovery, ActionError>)
    requires t.file in d.files
  {
    var current := sha(d.files[t.file]);
    match stage
    case Fresh => true
    case Dropped => r == Ok(RecoveredAborted) && Kept(d, d', t, id)
    case Blocked => r == Err(Conflict) && Kept(d, d', t, id)
    case LiveBlocked => r == Err(Conflict) && Kept(d, d', t, id)
    case Reverted => r == Ok(RecoveredUndone) && Kept(d, d', t, id)
    case RevertedLate => r == Ok(RecoveredUndone) && Kept(d, d', t, id)
    case Pending =>
      && FileAt(d', t.file) == FileAt(d, t.file)
      && if current == p.before then
           r == Ok(RecoveredAborted)
           && Adds(d, d', t, id, Aborted, p.(result := ResultAborted, undoState := NotApplied))
         else if current == p.after then
           r == Ok(RecoveredApplied)
           && Adds(d, d', t, id, Applied, p.(result := ResultApplied, undoState := Available))
         else r == Err(Conflict) && Kept(d, d', t, id)
    case Live =>
      && FileAt(d', t.file) == FileAt(d, t.file)
      && if current == p.before then
           r == Ok(RecoveredUndone)
           && Adds(d, d', t, id, Undone, p.(result := ResultApplied, undoState := AlreadyUndone))
         else if current == p.after then r == Ok(RecoveredApplied) && Kept(d, d', t, id)
         else r == Err(Conflict) && Kept(d, d', t, id)
  }

  /** On every disk: by stage when journal and backup are good, a failure without effect when they are not.
      An interrupted recovery may also fail without effect. */
  ghost predicate RecoveredByStage(d: Disk, d': Disk, t: Target, id: string, sha: Bytes -> Digest,
                                   r: Result<Recovery, ActionError>, complete: bool) {
    && (forall stage, p :: Journalled(d, t, id, stage, p) && BackedUp(d, t, id, sha, p) ==>
          Recovers(d, d', t, id, sha, stage, p, r) || (!complete && r.Err? && Kept(d, d', t, id)))
    && ((forall stage, p :: Journalled(d, t, id, stage, p) ==> !BackedUp(d, t, id, sha, p)) ==>
          r.Err? && Kept(d, d', t, id))
  }

  /** What undo does: only an applied action that is not yet undone and whose content is still there is
      taken back; a content that is not the new one stays, and that is recorded once. */
  ghost predicate Undoes(d: Disk, d': Disk, t: Target, id: string, sha: Bytes -> Digest, stage: Stage, p: Record,
                         r: Result<(), ActionError>)
    requires t.file in d.files
  {
    if stage.Reverted? || stage.RevertedLate? then r == Err(Conflict) && Kept(d, d', t, id)
    else if !stage.Live? && !stage.LiveBlocked? then r == Err(InvalidJournal) && Kept(d, d', t, id)
    else if !BackedUp(d, t, id, sha, p) then r.Err? && Kept(d, d', t, id)
    else if sha(d.files[t.file]) == p.after then
      && r == Ok(())
      && FileAt(d', t.file) == At(d, t.journal, id).backup
      && Adds(d, d', t, id, Undone, p.(result := ResultApplied, undoState := AlreadyUndone))
    else if stage.Live? then
      && r == Err(Conflict)
      && FileAt(d', t.file) == FileAt(d, t.file)
      && Adds(d, d', t, id, UndoRefused, p.(result := ResultConflict, undoState := BlockedExternalEdit))
    else r == Err(Io) && Kept(d, d', t, id)
  }

  ghost predicate UndoneByStage(d: Disk, d': Disk, t: Target, id: string, sha: Bytes -> Digest,
                                r: Result<(), ActionError>) {
    && (forall stage, p :: Journalled(d, t, id, stage, p) ==> Undoes(d, d', t, id, sha, stage, p, r))
    && ((forall stage, p :: !Journalled(d, t, id, stage, p)) ==> r.Err? && Kept(d, d', t, id))
  }

  /** What rolling an attempt back does: recovery, and an undo of what recovery finds applied. */
  ghost predicate RollsBack(d: Disk, d': Disk, t: Target, id: string, sha: Bytes -> Digest, stage: Stage, p: Record,
                            r: Result<(), ActionError>)
    requires t.file in d.files
  {
    var current := sha(d.files[t.file]);
    if stage.Dropped? || stage.Reverted? || stage.RevertedLate? then r == Ok(()) && Kept(d, d', t, id)
    else if stage.Blocked? || stage.LiveBlocked? then r == Err(Conflict) && Kept(d, d', t, id)
    else if current == p.before then
      r == Ok(()) && FileAt(d', t.file) == FileAt(d, t.file)
      && if stage.Live? then Adds(d, d', t, id, Undone, p.(result := ResultApplied, undoState := AlreadyUndone))
         else Adds(d, d', t, id, Aborted, p.(result := ResultAborted, undoState := NotApplied))
    else if current == p.after then
      && r == Ok(())
      && FileAt(d', t.file) == At(d, t.journal, id).backup
      && At(d', t.journal, id).backup == At(d, t.journal, id).backup
      && AtStage(At(d', t.journal, id).events, Reverted)
    else r == Err(Conflict) && Kept(d, d', t, id)
  }

  ghost predicate RolledBackByStage(d: Disk, d': Disk, t: Target, id: string, sha: Bytes -> Digest,
                                    r: Result<(), ActionError>) {
    forall stage, p :: Journalled(d, t, id, stage, p) && BackedUp(d, t, id, sha, p) ==>
      RollsBack(d, d', t, id, sha, stage, p, r)
  }

  lemma AddedStage(d: Disk, d': Disk, t: Target, id: string, s: Suffix, r: Record, stage: Stage, stage': Stage)
    requires AtStage(At(d, t.journal, id).events, stage) && Adds(d, d', t, id, s, r)
    requires forall s' :: Marks(stage', s') <==> Marks(stage, s') || s' == s
    ensures AtStage(At(d', t.journal, id).events, stage')
  {
    forall s' ensures At(d', t.journal, id).events.Has(s') <==> Marks(stage', s') {
      assert At(d, t.journal, id).events.Has(s') <==> Marks(stage, s');
      assert At(d', t.journal, id).events.Get(s') ==
             if s' == s then Some(Readable(r)) else At(d, t.journal, id).events.Get(s');
    }
  }

  /** A pending action that recovery has found applied is journalled as such. */
  lemma NowApplied(d: Disk, d': Disk, t: Target, id: string, p: Record)
    requires Journalled(d, t, id, Pending, p) && t.journal in d'.journals
    requires FileAt(d', t.file) == FileAt(d, t.file)
    requires Adds(d, d', t, id, Applied, p.(result := ResultApplied, undoState := Available))
    ensures Journalled(d', t, id, Live, p)
  {
    var applied := p.(result := ResultApplied, undoState := Available);
    AddedStage(d, d', t, id, Applied, applied, Pending, Live);
    var events, events' := At(d, t.journal, id).events, At(d', t.journal, id).events;
    assert events.Has(Prepared) && events'.Get(Prepared) == events.Get(Prepared);
    assert ValidateEvent(t.identity, id, Prepared, p);
    forall s | events'.Has(s)
      ensures events'.Get(s).value.Readable? && ValidateEvent(t.identity, id, s, events'.Get(s).value.record)
      ensures SameTransaction(events'.Get(s).value.record, p)
    {
      assert events'.Get(s) == if s == Applied then Some(Readable(applied)) else events.Get(s);
      assert s != Applied ==> events.Has(s);
    }
  }

  /** Recovery by stage, followed by undo by stage, is rollback by stage. */
  lemma RollbackByStage(d: Disk, d1: Disk, d': Disk, t: Target, id: string, sha: Bytes -> Digest, stage: Stage,
                        p: Record, verdict: Result<Recovery, ActionError>, r: Result<(), ActionError>)
    requires Journalled(d, t, id, stage, p) && BackedUp(d, t, id, sha, p)
    requires t.journal in d1.journals && FileAt(d1, t.file) == FileAt(d, t.file)
    requires Recovers(d, d1, t, id, sha, stage, p, verdict)
    requires if verdict == Ok(RecoveredApplied) then UndoneByStage(d1, d', t, id, sha, r)
             else d' == d1 && r == if verdict.Err? then Err(verdict.error) else Ok(())
    ensures RollsBack(d, d', t, id, sha, stage, p, r)
  {
    if verdict == Ok(RecoveredApplied) {
      if stage.Pending? {
        NowApplied(d, d1, t, id, p);
      } else {
        assert At(d1, t.journal, id) == At(d, t.journal, id);
      }
      assert Journalled(d1, t, id, Live, p);
      assert Undoes(d1, d', t, id, sha, Live, p, r);
      var undone := p.(result := ResultApplied, undoState := AlreadyUndone);
      AddedStage(d1, d', t, id, Undone, undone, Live, Reverted);
    }
  }
}
