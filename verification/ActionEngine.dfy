/**
 The write-ahead transaction engine over one disk shared with other programs
 (src-tauri/src/action_executor.rs).  Every operation may be cut short before any
 of its durable writes (`budget`), and other programs write any files between any
 two steps (`schedule`).  The final hash check and the replacement of a target are
 one step.
 */
module ActionEngine {
  import opened Prelude
  import opened ActionJournal
  import opened ActionHistory
  import opened ActionTables

  /** How many more durable writes succeed before the process is interrupted. */
  datatype Budget = Unlimited | Limited(left: nat)

  // ----- pure vocabulary

  ghost predicate Untouched(d: Disk, d': Disk, exposed: set<string>) {
    forall p :: p !in exposed ==> FileAt(d, p) == FileAt(d', p)
  }

  lemma GrowsOn(d: Disk, d1: Disk, d': Disk, t: Target, id: string, exposed: set<string>, exposed1: set<string>)
    requires Grows(d, d1, t, id, exposed) && (d' == d1 || Grows(d1, d', t, id, exposed1)) && exposed1 <= exposed
    ensures Grows(d, d', t, id, exposed)
  {
    var slot, slot1, slot' := At(d, t.journal, id), At(d1, t.journal, id), At(d', t.journal, id);
    forall s | slot.events.Has(s) ensures slot'.events.Get(s) == slot.events.Get(s) {
      assert slot1.events.Has(s);
    }
  }

  /** What any operation on action `id` of target `t` may do: its slot only grows, every other
      slot and every path other than the target that nobody else writes is as before. */
  ghost predicate Grows(d: Disk, d': Disk, t: Target, id: string, exposed: set<string>) {
    && (forall dir, id' :: (dir, id') != (t.journal, id) ==> At(d', dir, id') == At(d, dir, id'))
    && SlotGrows(At(d, t.journal, id), At(d', t.journal, id))
    && forall p :: p !in exposed && p != t.file ==> FileAt(d, p) == FileAt(d', p)
  }

  /** No journal and not this file has changed, and nothing was replaced under any licence. */
  ghost predicate OnlyOthersWrote(h: History, h': History, file: string) {
    && h'.disk.journals == h.disk.journals
    && FileAt(h'.disk, file) == FileAt(h.disk, file)
    && Continues(h, h', {})
  }

  /** One transaction, as its caller knows it. */
  datatype Plan = Plan(target: Target, id: string, revision: string, before: Bytes, after: Bytes)

  predicate WellFormed(x: Plan) {
    && ValidId(x.id)
    && PlainLabel(x.revision)
    && PlainLabel(x.target.identity)
    && |x.before| <= MAX_TARGET_BYTES
    && |x.after| <= MAX_TARGET_BYTES
  }

  function Line(x: Plan, sha: Bytes -> Digest, s: Suffix): Record {
    Record(JOURNAL_VERSION, x.id, ACTION_VERSION, x.target.identity, x.revision,
           sha(x.before), sha(x.after), Expected(s).0, Expected(s).1)
  }

  function EntryOf(x: Plan, sha: Bytes -> Digest, stage: Stage, s: Suffix): Option<Entry> {
    if Marks(stage, s) then Some(Readable(Line(x, sha, s))) else None
  }

  /** The events plan `x` has written when it is at `stage`. */
  function Lines(x: Plan, sha: Bytes -> Digest, stage: Stage): (r: Events<Entry>)
    ensures forall s :: r.Get(s) == EntryOf(x, sha, stage, s)
  {
    Events(EntryOf(x, sha, stage, Prepared), EntryOf(x, sha, stage, Applied), EntryOf(x, sha, stage, Aborted),
           EntryOf(x, sha, stage, Refused), EntryOf(x, sha, stage, UndoRefused), EntryOf(x, sha, stage, Undone))
  }

  /** The slot of plan `x` holds exactly the events of `stage`, and the exact old bytes as backup. */
  predicate Recorded(d: Disk, x: Plan, sha: Bytes -> Digest, stage: Stage) {
    && WellFormed(x)
    && At(d, x.target.journal, x.id) == Slot(Some(x.before), Lines(x, sha, stage))
  }

  predicate Holds(d: Disk, x: Plan, bytes: Bytes) {
    FileAt(d, x.target.file) == Some(bytes)
  }

  /** Every state plan `x` can be in while nobody else writes its target. */
  predicate InFlight(d: Disk, x: Plan, sha: Bytes -> Digest) {
    || (At(d, x.target.journal, x.id).events.Empty() && Holds(d, x, x.before))
    || (Recorded(d, x, sha, Pending) && (Holds(d, x, x.before) || Holds(d, x, x.after)))
    || (Recorded(d, x, sha, Dropped) && Holds(d, x, x.before))
    || (Recorded(d, x, sha, Live) && (Holds(d, x, x.before) || Holds(d, x, x.after)))
    || (Recorded(d, x, sha, Reverted) && Holds(d, x, x.before))
    || (Recorded(d, x, sha, LiveBlocked) && Holds(d, x, x.before) && sha(x.before) != sha(x.after))
  }

  /** Where an attempt to apply plan `x` can end, complete or interrupted. */
  predicate Attempted(d: Disk, x: Plan, sha: Bytes -> Digest) {
    || (At(d, x.target.journal, x.id).events.Empty() && Holds(d, x, x.before))
    || (Recorded(d, x, sha, Pending) && (Holds(d, x, x.before) || Holds(d, x, x.after)))
    || (Recorded(d, x, sha, Live) && Holds(d, x, x.after))
  }

  /** The target can be read and its content has the expected hash. */
  predicate Matches(d: Disk, t: Target, sha: Bytes -> Digest, expected: string) {
    ReadTarget(d, t).Ok? && sha(ReadTarget(d, t).value) == expected
  }

  /** The hash tells the two contents of plan `x` apart. */
  predicate Distinguishes(sha: Bytes -> Digest, x: Plan) {
    sha(x.before) == sha(x.after) ==> x.before == x.after
  }

  /** Why publishing this event would be refused in this state of the disk, if it would. */
  function Refusal(d: Disk, t: Target, id: string, suffix: Suffix, r: Record): Option<ActionError> {
    if !ValidateEvent(t.identity, id, suffix, r) then Some(InvalidJournal)
    else if ReadJournal(d, t, id).Err? then Some(ReadJournal(d, t, id).error)
    else
      var events := ReadJournal(d, t, id).value;
      if !events.Empty() && !ValidateJournal(events) then Some(InvalidJournal)
      else if events.Has(suffix) then Some(Io)
      else if !ValidateJournal(events.With(suffix, r)) then Some(InvalidJournal)
      else if ReadTarget(d, t).Err? then Some(ReadTarget(d, t).error)
      else None
  }

  // ----- small facts about journals

  /** The stage an event leads to; `None` when the event does not belong there. */
  function Next(stage: Stage, s: Suffix): Option<Stage> {
    match (stage, s)
    case (Fresh, Prepared) => Some(Pending)
    case (Pending, Applied) => Some(Live)
    case (Pending, Aborted) => Some(Dropped)
    case (Pending, Refused) => Some(Blocked)
    case (Live, UndoRefused) => Some(LiveBlocked)
    case (Live, Undone) => Some(Reverted)
    case (LiveBlocked, Undone) => Some(RevertedLate)
    case (_, _) => None
  }

  lemma LinesRead(x: Plan, sha: Bytes -> Digest, stage: Stage)
    requires WellFormed(x)
    ensures EventsReadable(x.target.identity, x.id, Lines(x, sha, stage))
    ensures stage.Fresh? ==> Records(Lines(x, sha, stage)).Empty()
    ensures !stage.Fresh? ==> ValidateJournal(Records(Lines(x, sha, stage)))
    ensures !stage.Fresh? ==> Records(Lines(x, sha, stage)).prepared == Some(Line(x, sha, Prepared))
  {
    var lines := Lines(x, sha, stage);
    forall s | lines.Has(s)
      ensures lines.Get(s) == Some(Readable(Line(x, sha, s)))
      ensures ValidateEvent(x.target.identity, x.id, s, Line(x, sha, s))
    {
    }
    if !stage.Fresh? {
      var records := Records(lines);
      forall s | records.Has(s)
        ensures SameTransaction(records.Get(s).value, records.prepared.value)
      {
        assert records.Get(s) == RecordOf(lines.Get(s)) == Some(Line(x, sha, s));
      }
    }
  }

  lemma RecordsWith(events: Events<Entry>, s: Suffix, r: Record)
    ensures Records(events.With(s, Readable(r))) == Records(events).With(s, r)
  {
  }

  lemma LinesWith(x: Plan, sha: Bytes -> Digest, stage: Stage, s: Suffix)
    requires Next(stage, s).Some?
    ensures Lines(x, sha, stage).With(s, Readable(Line(x, sha, s))) == Lines(x, sha, Next(stage, s).value)
    ensures !Lines(x, sha, stage).Has(s)
  {
  }

  /** A recorded plan can take the next event of its life cycle. */
  lemma NextLineWritable(d: Disk, x: Plan, sha: Bytes -> Digest, stage: Stage, s: Suffix)
    requires WellFormed(x)
    requires At(d, x.target.journal, x.id).events == Lines(x, sha, stage)
    requires ReadTarget(d, x.target).Ok?
    requires Next(stage, s).Some?
    ensures Refusal(d, x.target, x.id, s, Line(x, sha, s)).None?
    ensures Lines(x, sha, stage).With(s, Readable(Line(x, sha, s))) == Lines(x, sha, Next(stage, s).value)
  {
    LinesRead(x, sha, stage);
    LinesRead(x, sha, Next(stage, s).value);
    LinesWith(x, sha, stage, s);
    RecordsWith(Lines(x, sha, stage), s, Line(x, sha, s));
    assert Records(Lines(x, sha, stage)).Get(s) == RecordOf(Lines(x, sha, stage).Get(s));
  }

  lemma EmptyRecordsEmptyEvents(identity: string, id: string, events: Events<Entry>)
    requires EventsReadable(identity, id, events)
    ensures Records(events).Empty() <==> events.Empty()
  {
    assert forall s :: events.Has(s) ==> Records(events).Has(s);
    if Records(events).Empty() {
      assert !events.Has(Prepared) && !events.Has(Applied) && !events.Has(Aborted);
      assert !events.Has(Refused) && !events.Has(UndoRefused) && !events.Has(Undone);
    }
  }

  /** Publishing an allowed event keeps a slot sound. */
  lemma WritingKeepsSound(t: Target, id: string, slot: Slot, suffix: Suffix, r: Record)
    requires EventsReadable(t.identity, id, slot.events)
    requires ValidateEvent(t.identity, id, suffix, r)
    requires ValidateJournal(Records(slot.events).With(suffix, r))
    ensures SlotSound(id, slot.(events := slot.events.With(suffix, Readable(r))))
  {
  }

  /** The disk after publishing one event. */
  function Publish(d: Disk, t: Target, id: string, suffix: Suffix, record: Record): (r: Disk)
    ensures r.files == d.files
    ensures forall dir, id' :: (dir, id') != (t.journal, id) ==> At(r, dir, id') == At(d, dir, id')
    ensures At(r, t.journal, id) ==
            At(d, t.journal, id).(events := At(d, t.journal, id).events.With(suffix, Readable(record)))
  {
    var slot := At(d, t.journal, id);
    Put(d, t.journal, id, slot.(events := slot.events.With(suffix, Readable(record))))
  }

  lemma PublishKeepsSound(d: Disk, t: Target, id: string, suffix: Suffix, record: Record)
    requires Refusal(d, t, id, suffix, record).None?
    ensures Sound(d) ==> Sound(Publish(d, t, id, suffix, record))
    ensures forall dir, id' :: SlotGrows(At(d, dir, id'), At(Publish(d, t, id, suffix, record), dir, id'))
    ensures !At(d, t.journal, id).events.Has(suffix)
  {
    var slot := At(d, t.journal, id);
    WritingKeepsSound(t, id, slot, suffix, record);
    var d' := Publish(d, t, id, suffix, record);
    forall dir, id' | Sound(d)
      ensures SlotSound(id', At(d', dir, id'))
    {
      assert SlotSound(id', At(d, dir, id'));
    }
    assert Records(slot.events).Get(suffix) == RecordOf(slot.events.Get(suffix));
    assert !slot.events.Has(suffix);
  }

  /** What `undo_transaction` reads before it touches the target: the prepared record and the backup. */
  function UndoPlan(d: Disk, t: Target, id: string, sha: Bytes -> Digest): Result<(Record, Bytes), ActionError> {
    var journal := ReadJournal(d, t, id);
    if journal.Err? then Err(journal.error)
    else if !ValidateJournal(journal.value) then Err(InvalidJournal)
    else if journal.value.undone.Some? then Err(Conflict)
    else if journal.value.applied.None? then Err(InvalidJournal)
    else
      var prepared := journal.value.prepared.value;
      var backup := ReadBackup(d, t, prepared, sha);
      if backup.Err? then Err(backup.error) else Ok((prepared, backup.value))
  }

  /** What recovery concludes from the journal, the backup and the current content. */
  datatype Decision =
    | Settled(verdict: Recovery)
    | Publishes(suffix: Suffix, record: Record, verdict: Recovery)
    | Stops(error: ActionError)

  function Marked(prepared: Record, s: Suffix): Record {
    prepared.(result := Expected(s).0, undoState := Expected(s).1)
  }

  /** `recover_transaction` up to its one write: decided by content hash. */
  function Decide(d: Disk, t: Target, id: string, sha: Bytes -> Digest): Decision {
    var journal := ReadJournal(d, t, id);
    if journal.Err? then Stops(journal.error)
    else if !ValidateJournal(journal.value) then Stops(InvalidJournal)
    else
      var events := journal.value;
      var prepared := events.prepared.value;
      if ReadBackup(d, t, prepared, sha).Err? then Stops(ReadBackup(d, t, prepared, sha).error)
      else if events.undone.Some? then Settled(RecoveredUndone)
      else if events.refused.Some? || events.undoRefused.Some? then Stops(Conflict)
      else if events.aborted.Some? then Settled(RecoveredAborted)
      else if ReadTarget(d, t).Err? then Stops(ReadTarget(d, t).error)
      else
        var current := sha(ReadTarget(d, t).value);
        if current == prepared.before then
          if events.applied.Some? then Publishes(Undone, Marked(prepared, Undone), RecoveredUndone)
          else Publishes(Aborted, Marked(prepared, Aborted), RecoveredAborted)
        else if current == prepared.after then
          if events.applied.Some? then Settled(RecoveredApplied)
          else Publishes(Applied, Marked(prepared, Applied), RecoveredApplied)
        else Stops(Conflict)
  }

  /** A recorded plan reads back exactly. */
  lemma RecordedReads(d: Disk, x: Plan, sha: Bytes -> Digest, stage: Stage)
    requires Recorded(d, x, sha, stage) && !stage.Fresh?
    requires Holds(d, x, x.before) || Holds(d, x, x.after)
    ensures ReadTarget(d, x.target).Ok?
    ensures ReadJournal(d, x.target, x.id) == Ok(Records(Lines(x, sha, stage)))
    ensures ValidateJournal(Records(Lines(x, sha, stage)))
    ensures Records(Lines(x, sha, stage)).prepared == Some(Line(x, sha, Prepared))
    ensures forall s :: Records(Lines(x, sha, stage)).Has(s) <==> Marks(stage, s)
    ensures ReadBackup(d, x.target, Line(x, sha, Prepared), sha) == Ok(x.before)
    ensures !At(d, x.target.journal, x.id).events.Empty()
  {
    LinesRead(x, sha, stage);
    assert Lines(x, sha, stage).Has(Prepared);
    assert At(d, x.target.journal, x.id) != EMPTY_SLOT;
  }

  /** Only an applied, not yet undone plan can be undone, and it is undone to its own old bytes. */
  lemma UndoPlanInFlight(d: Disk, x: Plan, sha: Bytes -> Digest)
    requires InFlight(d, x, sha) && UndoPlan(d, x.target, x.id, sha).Ok?
    ensures Recorded(d, x, sha, Live) || Recorded(d, x, sha, LiveBlocked)
    ensures UndoPlan(d, x.target, x.id, sha).value == (Line(x, sha, Prepared), x.before)
  {
    if At(d, x.target.journal, x.id).events.Empty() {
      assert false;
    } else {
      var stage := StageOf(d, x, sha);
      RecordedReads(d, x, sha, stage);
      assert Records(Lines(x, sha, stage)).Has(Applied) && !Records(Lines(x, sha, stage)).Has(Undone);
    }
  }

  lemma UndoPlanWarrants(d: Disk, t: Target, id: string, sha: Bytes -> Digest)
    requires UndoPlan(d, t, id, sha).Ok?
    ensures var (prepared, backup) := UndoPlan(d, t, id, sha).value;
            Warranted(d, sha, t.journal, id, ForUndo, prepared.after, backup)
  {
    var events := At(d, t.journal, id).events;
    assert Records(events).Get(Prepared) == RecordOf(events.Get(Prepared));
    assert events.Has(Prepared);
  }

  /** Whatever recovery decides to publish is an event its journal can take. */
  lemma DecisionWritable(d: Disk, t: Target, id: string, sha: Bytes -> Digest)
    requires Decide(d, t, id, sha).Publishes?
    ensures var c := Decide(d, t, id, sha); Refusal(d, t, id, c.suffix, c.record).None?
    ensures t.journal in d.journals
    ensures EventsReadable(t.identity, id, At(d, t.journal, id).events)
  {
    var c := Decide(d, t, id, sha);
    var events := At(d, t.journal, id).events;
    var records := ReadJournal(d, t, id).value;
    assert records.Has(Prepared);
    assert records.Get(Prepared) == RecordOf(events.Get(Prepared));
    assert events.Has(Prepared);
    assert c.record == Marked(records.prepared.value, c.suffix);
    var extended := records.With(c.suffix, c.record);
    forall s | extended.Has(s)
      ensures SameTransaction(extended.Get(s).value, extended.prepared.value)
    {
      assert s != c.suffix ==> records.Has(s);
    }
  }

  /** Deciding again after the decision has been carried out settles on the same verdict. */
  lemma DecideIdempotent(d: Disk, t: Target, id: string, sha: Bytes -> Digest)
    requires Decide(d, t, id, sha).Publishes?
    ensures var c := Decide(d, t, id, sha);
            Decide(Publish(d, t, id, c.suffix, c.record), t, id, sha) == Settled(c.verdict)
  {
    var c := Decide(d, t, id, sha);
    DecisionWritable(d, t, id, sha);
    var events := At(d, t.journal, id).events;
    var d' := Publish(d, t, id, c.suffix, c.record);
    RecordsWith(events, c.suffix, c.record);
    forall s | events.With(c.suffix, Readable(c.record)).Has(s)
      ensures var e := events.With(c.suffix, Readable(c.record)).Get(s).value;
              e.Readable? && ValidateEvent(t.identity, id, s, e.record)
    {
      assert s != c.suffix ==> events.Has(s);
    }
    assert ReadJournal(d', t, id) == Ok(Records(events).With(c.suffix, c.record));
    assert At(d', t.journal, id).backup == At(d, t.journal, id).backup;
  }

  /** What recovery decides for a plan nobody else interferes with. */
  function Verdict(x: Plan, sha: Bytes -> Digest, stage: Stage, current: Bytes): Decision
    requires !stage.Fresh?
  {
    if stage.Reverted? then Settled(RecoveredUndone)
    else if stage.LiveBlocked? then Stops(Conflict)
    else if stage.Dropped? then Settled(RecoveredAborted)
    else if sha(current) == sha(x.before) then
      if stage.Live? then Publishes(Undone, Line(x, sha, Undone), RecoveredUndone)
      else Publishes(Aborted, Line(x, sha, Aborted), RecoveredAborted)
    else if stage.Live? then Settled(RecoveredApplied)
    else Publishes(Applied, Line(x, sha, Applied), RecoveredApplied)
  }

  lemma DecideInFlight(d: Disk, x: Plan, sha: Bytes -> Digest)
    requires InFlight(d, x, sha) && !At(d, x.target.journal, x.id).events.Empty()
    ensures Decide(d, x.target, x.id, sha) == Verdict(x, sha, StageOf(d, x, sha), d.files[x.target.file])
  {
    var stage := StageOf(d, x, sha);
    RecordedReads(d, x, sha, stage);
    var records := Records(Lines(x, sha, stage));
    assert records.Has(Applied) <==> Marks(stage, Applied);
    assert records.Has(Aborted) <==> Marks(stage, Aborted);
    assert records.Has(Refused) <==> Marks(stage, Refused);
    assert records.Has(UndoRefused) <==> Marks(stage, UndoRefused);
    assert records.Has(Undone) <==> Marks(stage, Undone);
  }

  /** An applied plan that still holds its new bytes can be undone. */
  lemma LiveCanUndo(d: Disk, x: Plan, sha: Bytes -> Digest)
    requires Recorded(d, x, sha, Live) && (Holds(d, x, x.before) || Holds(d, x, x.after))
    ensures UndoPlan(d, x.target, x.id, sha) == Ok((Line(x, sha, Prepared), x.before))
  {
    RecordedReads(d, x, sha, Live);
    assert Records(Lines(x, sha, Live)).Has(Applied) && !Records(Lines(x, sha, Live)).Has(Undone);
  }

  function StageOf(d: Disk, x: Plan, sha: Bytes -> Digest): (stage: Stage)
    requires InFlight(d, x, sha) && !At(d, x.target.journal, x.id).events.Empty()
    ensures Recorded(d, x, sha, stage) && !stage.Fresh?
    ensures Holds(d, x, x.before) || Holds(d, x, x.after)
  {
    if Recorded(d, x, sha, Pending) then Pending
    else if Recorded(d, x, sha, Dropped) then Dropped
    else if Recorded(d, x, sha, Live) then Live
    else if Recorded(d, x, sha, Reverted) then Reverted
    else LiveBlocked
  }

  lemma TamperedIsRefused(d: Disk, t: Target, id: string, sha: Bytes -> Digest)
    requires Tampered(d, t, id) && ReadTarget(d, t).Ok?
    ensures UndoPlan(d, t, id, sha) == Err(InvalidJournal)
    ensures Decide(d, t, id, sha) == Stops(InvalidJournal)
    ensures ReadJournal(d, t, id).Ok? ==>
              !ReadJournal(d, t, id).value.Empty() && !ValidateJournal(ReadJournal(d, t, id).value)
    ensures ReadJournal(d, t, id).Err? ==> ReadJournal(d, t, id).error == InvalidJournal
  {
    var events := At(d, t.journal, id).events;
    if EventsReadable(t.identity, id, events) {
      EmptyRecordsEmptyEvents(t.identity, id, events);
    }
  }

  // ----- undo, as a function of the disk

  /** The undo would find everything in place: its journal, its backup, and the new content in the target. */
  predicate Undoable(d: Disk, t: Target, id: string, sha: Bytes -> Digest) {
    UndoPlan(d, t, id, sha).Ok? && Matches(d, t, sha, UndoPlan(d, t, id, sha).value.0.after)
  }

  /** The event an undo publishes when nothing interrupts it. */
  function UndoEvent(d: Disk, t: Target, id: string, sha: Bytes -> Digest): Option<Suffix> {
    if UndoPlan(d, t, id, sha).Err? then None
    else if Undoable(d, t, id, sha) then Some(Undone)
    else if At(d, t.journal, id).events.Has(UndoRefused) then None
    else Some(UndoRefused)
  }

  /** The answer of an undo when nothing interrupts it; recording a refusal twice is an error of its own. */
  function UndoAnswer(d: Disk, t: Target, id: string, sha: Bytes -> Digest): Result<(), ActionError> {
    if UndoPlan(d, t, id, sha).Err? then Err(UndoPlan(d, t, id, sha).error)
    else if Undoable(d, t, id, sha) then Ok(())
    else if At(d, t.journal, id).events.Has(UndoRefused) then Err(Io)
    else Err(Conflict)
  }

  /** The slot an undo leaves when nothing interrupts it. */
  function SlotAfterUndo(d: Disk, t: Target, id: string, sha: Bytes -> Digest): Slot {
    var slot, e := At(d, t.journal, id), UndoEvent(d, t, id, sha);
    if e.None? then slot
    else slot.(events := slot.events.With(e.value, Readable(Marked(UndoPlan(d, t, id, sha).value.0, e.value))))
  }

  /** Where an undo can end while nobody else writes its target: a target that does not hold the new
      content is left alone. */
  predicate UndoOutcome(d: Disk, d': Disk, t: Target, id: string, sha: Bytes -> Digest, ok: bool) {
    var file, file', slot' := FileAt(d, t.file), FileAt(d', t.file), At(d', t.journal, id);
    if Undoable(d, t, id, sha) then
      var restored := Some(UndoPlan(d, t, id, sha).value.1);
      if ok then file' == restored && slot' == SlotAfterUndo(d, t, id, sha)
      else (file' == file || file' == restored) && slot' == At(d, t.journal, id)
    else !ok && file' == file && (slot' == At(d, t.journal, id) || slot' == SlotAfterUndo(d, t, id, sha))
  }

  /** The end an undo reaches when nothing interrupts it either. */
  predicate UndoComplete(d: Disk, d': Disk, t: Target, id: string, sha: Bytes -> Digest, r: Result<(), ActionError>) {
    && UndoOutcome(d, d', t, id, sha, r.Ok?)
    && r == UndoAnswer(d, t, id, sha)
    && At(d', t.journal, id) == SlotAfterUndo(d, t, id, sha)
  }

  /** Reading the undo plan needs the journals and a readable target, not its content. */
  lemma SameUndoPlan(d: Disk, d': Disk, t: Target, id: string, sha: Bytes -> Digest)
    requires d'.journals == d.journals && ReadTarget(d, t).Ok? && ReadTarget(d', t).Ok?
    ensures UndoPlan(d', t, id, sha) == UndoPlan(d, t, id, sha)
  {
  }

  /** The new content was there and has been replaced; then `undone` was published, or not. */
  lemma RevertDone(d: Disk, d1: Disk, d': Disk, t: Target, id: string, sha: Bytes -> Digest,
                   r: Result<(), ActionError>, complete: bool)
    requires Undoable(d, t, id, sha) && d1.journals == d.journals
    requires var (prepared, backup) := UndoPlan(d, t, id, sha).value;
             var marked := Marked(prepared, Undone);
             && FileAt(d1, t.file) == Some(backup) && FileAt(d', t.file) == Some(backup)
             && At(d', t.journal, id) == At(if r.Ok? then Publish(d1, t, id, Undone, marked) else d1, t.journal, id)
             && (complete && Matches(d1, t, sha, prepared.before) && Refusal(d1, t, id, Undone, marked).None? ==> r.Ok?)
    ensures UndoOutcome(d, d', t, id, sha, r.Ok?) && (complete ==> UndoComplete(d, d', t, id, sha, r))
  {
    UndoPlanReads(d, t, id, sha);
    SameUndoPlan(d, d1, t, id, sha);
    UndoEventWritable(d1, t, id, sha, Undone);
    assert r.Ok? ==> r.value == ();
  }

  /** The new content was not there; then `undo-conflict` was published, or not. */
  lemma RevertRefused(d: Disk, d1: Disk, d': Disk, t: Target, id: string, sha: Bytes -> Digest,
                      r: Result<(), ActionError>, complete: bool)
    requires r.Err?
    requires UndoPlan(d, t, id, sha).Ok? && !Undoable(d, t, id, sha) && d1.journals == d.journals
    requires FileAt(d1, t.file) == FileAt(d, t.file) && FileAt(d', t.file) == FileAt(d, t.file)
    requires var marked := Marked(UndoPlan(d, t, id, sha).value.0, UndoRefused);
             var slot := At(Publish(d1, t, id, UndoRefused, marked), t.journal, id);
             var refusal := Refusal(d1, t, id, UndoRefused, marked);
             && (|| At(d', t.journal, id) == At(d1, t.journal, id)
                 || (At(d', t.journal, id) == slot && !At(d1, t.journal, id).events.Has(UndoRefused)))
             && (complete && refusal.None? ==> At(d', t.journal, id) == slot)
             && (complete ==> r == Err(if refusal.Some? then refusal.value else Conflict))
    ensures UndoOutcome(d, d', t, id, sha, false) && (complete ==> UndoComplete(d, d', t, id, sha, r))
  {
    SameSlots(d, d1);
    SameUndoPlan(d, d1, t, id, sha);
    UndoEventWritable(d1, t, id, sha, UndoRefused);
  }

  lemma UndoPlanReads(d: Disk, t: Target, id: string, sha: Bytes -> Digest)
    requires UndoPlan(d, t, id, sha).Ok?
    ensures ReadTarget(d, t).Ok?
    ensures var (prepared, backup) := UndoPlan(d, t, id, sha).value;
            |backup| <= MAX_TARGET_BYTES && sha(backup) == prepared.before
  {
  }

  /** The journal of an undo can take the events the undo may publish. */
  lemma UndoEventWritable(d: Disk, t: Target, id: string, sha: Bytes -> Digest, s: Suffix)
    requires UndoPlan(d, t, id, sha).Ok? && (s.Undone? || s.UndoRefused?)
    ensures Refusal(d, t, id, s, Marked(UndoPlan(d, t, id, sha).value.0, s)).None? <==>
            s.Undone? || !At(d, t.journal, id).events.Has(UndoRefused)
    ensures s.UndoRefused? && At(d, t.journal, id).events.Has(UndoRefused) ==>
              Refusal(d, t, id, s, Marked(UndoPlan(d, t, id, sha).value.0, s)) == Some(Io)
  {
    UndoPlanReads(d, t, id, sha);
    var events := At(d, t.journal, id).events;
    var records := ReadJournal(d, t, id).value;
    var record := Marked(UndoPlan(d, t, id, sha).value.0, s);
    assert records.Has(Prepared) && records.Has(Applied) && !records.Has(Undone);
    assert records.Get(Prepared) == RecordOf(events.Get(Prepared)) && events.Has(Prepared);
    assert records.Get(UndoRefused) == RecordOf(events.Get(UndoRefused));
    var extended := records.With(s, record);
    forall s' | extended.Has(s') ensures SameTransaction(extended.Get(s').value, extended.prepared.value) {
      assert s' != s ==> records.Has(s');
    }
  }

  /** Without interference, a plan can be undone exactly when it is applied and still holds its new content. */
  lemma UndoableInFlight(d: Disk, x: Plan, sha: Bytes -> Digest)
    requires InFlight(d, x, sha) && Distinguishes(sha, x)
    ensures Undoable(d, x.target, x.id, sha) <==> Recorded(d, x, sha, Live) && Holds(d, x, x.after)
  {
    StagesDiffer(x, sha);
    if UndoPlan(d, x.target, x.id, sha).Ok? {
      UndoPlanInFlight(d, x, sha);
    }
    if Recorded(d, x, sha, Live) {
      LiveCanUndo(d, x, sha);
    }
  }

  /** An undo of a plan in flight leaves it in flight, and undone with its old content if it succeeds;
      uninterrupted, it succeeds exactly when the plan is applied and still holds its new content, and
      otherwise records the refusal. */
  ghost predicate UndoKeeps(d: Disk, d': Disk, x: Plan, sha: Bytes -> Digest, ok: bool, complete: bool) {
    InFlight(d, x, sha) && Distinguishes(sha, x) ==>
      && InFlight(d', x, sha)
      && (ok ==> Recorded(d', x, sha, Reverted) && Holds(d', x, x.before))
      && (complete ==> && (ok <==> Recorded(d, x, sha, Live) && Holds(d, x, x.after))
                       && (!ok && Recorded(d, x, sha, Live) ==> Recorded(d', x, sha, LiveBlocked)))
  }

  lemma UndoStep(d: Disk, d': Disk, x: Plan, sha: Bytes -> Digest, r: Result<(), ActionError>, complete: bool)
    requires UndoOutcome(d, d', x.target, x.id, sha, r.Ok?)
    requires complete ==> UndoComplete(d, d', x.target, x.id, sha, r)
    ensures UndoKeeps(d, d', x, sha, r.Ok?, complete)
  {
    if InFlight(d, x, sha) && Distinguishes(sha, x) {
      UndoableInFlight(d, x, sha);
      LinesWith(x, sha, Live, Undone);
      LinesWith(x, sha, Live, UndoRefused);
      if UndoPlan(d, x.target, x.id, sha).Ok? {
        UndoPlanInFlight(d, x, sha);
        if Recorded(d, x, sha, LiveBlocked) {
          assert Lines(x, sha, LiveBlocked).Has(UndoRefused);
        }
      }
      if Recorded(d, x, sha, Live) {
        LiveCanUndo(d, x, sha);
      }
    }
  }

  // ----- apply, as a function of the disk

  /** A call in good order whose target does not hold the expected content. */
  predicate Mismatch(d: Disk, t: Target, sha: Bytes -> Digest, revision: string, expected: string, replacement: Bytes,
                     id: string) {
    && ValidId(id) && PlainLabel(revision) && |replacement| <= MAX_TARGET_BYTES && CanonicalHash(expected)
    && ReadTarget(d, t).Ok? && sha(ReadTarget(d, t).value) != expected
  }

  /** The slot after the second half of an apply that nothing interrupts. */
  function SlotAfterCommit(d: Disk, x: Plan, sha: Bytes -> Digest): Slot {
    if Matches(d, x.target, sha, sha(x.before)) then Slot(Some(x.before), Lines(x, sha, Live))
    else if ReadTarget(d, x.target).Ok? then Slot(Some(x.before), Lines(x, sha, Blocked))
    else At(d, x.target.journal, x.id)
  }

  // ----- the engine

  class Engine {
    const sha: Bytes -> Digest
    /** What other programs write before each of the engine's next accesses. */
    var schedule: seq<Edits>
    var budget: Budget
    var disk: Disk
    ghost const start: map<string, Bytes>
    ghost const scheduled: seq<Edits>
    ghost var trace: seq<Change>

    constructor (sha: Bytes -> Digest, disk: Disk, schedule: seq<Edits>)
      ensures this.sha == sha && this.disk == disk && this.schedule == schedule
      ensures budget == Unlimited && start == disk.files && scheduled == schedule && trace == []
      ensures Accounted(Now())
    {
      this.sha, this.disk, this.schedule, this.scheduled := sha, disk, schedule, schedule;
      budget, start, trace := Unlimited, disk.files, [];
    }

    ghost function Now(): History
      reads this
    {
      History(sha, start, scheduled, schedule, trace, disk)
    }

    /** The paths other programs are still going to write. */
    ghost function Exposed(): set<string>
      reads this
    {
      Written(schedule)
    }

    /** Other programs take a turn. */
    method Interfere()
      modifies this`disk, this`schedule, this`trace
      ensures disk.journals == old(disk.journals)
      ensures Untouched(old(disk), disk, old(Exposed()))
      ensures Continues(old(Now()), Now(), {}) && Exposed() <= old(Exposed())
      ensures old(schedule) == [] ==> schedule == [] && disk == old(disk)
    {
      if schedule != [] {
        ghost var before := Now();
        var edits := schedule[0];
        schedule := schedule[1..];
        trace := trace + [External(edits)];
        disk := disk.(files := Edit(disk.files, edits));
        assert TakesTurn(before, Now());
        OneMove(before, Now(), {});
      } else {
        Stays(Now(), {});
      }
    }

    method Spend() returns (ok: bool)
      modifies this`budget
      ensures ok <==> old(budget) != Limited(0)
      ensures old(budget).Unlimited? ==> budget.Unlimited?
    {
      match budget
      case Unlimited => ok := true;
      case Limited(n) =>
        ok := n > 0;
        budget := if ok then Limited(n - 1) else budget;
    }

    /** The publishing half of `write_event`: validate, refuse a second event of the same kind, publish. */
    method PublishEvent(t: Target, id: string, suffix: Suffix, record: Record) returns (r: Result<(), ActionError>)
      modifies this`disk, this`budget
      ensures r.Ok? <==> old(Refusal(disk, t, id, suffix, record)).None? && old(budget) != Limited(0)
      ensures old(Refusal(disk, t, id, suffix, record)).Some? ==>
                r == Err(old(Refusal(disk, t, id, suffix, record)).value)
      ensures disk == if r.Ok? then Publish(old(disk), t, id, suffix, record) else old(disk)
      ensures r.Ok? ==> !old(At(disk, t.journal, id)).events.Has(suffix)
      ensures old(budget).Unlimited? ==> budget.Unlimited?
      ensures Continues(old(Now()), Now(), {}) && Exposed() <= old(Exposed())
    {
      var refusal := Refusal(disk, t, id, suffix, record);
      ghost var before := Now();
      Stays(before, {});
      if refusal.Some? { return Err(refusal.value); }
      var ok := Spend();
      if !ok { return Err(Interrupted); }
      PublishKeepsSound(disk, t, id, suffix, record);
      disk := Publish(disk, t, id, suffix, record);
      assert Logs(before, Now());
      OneMove(before, Now(), {});
      return Ok(());
    }

    /** `write_event`, after other programs had a turn. */
    method WriteEvent(t: Target, id: string, suffix: Suffix, record: Record) returns (r: Result<(), ActionError>)
      modifies this`disk, this`schedule, this`trace, this`budget
      ensures Untouched(old(disk), disk, old(Exposed()))
      ensures Continues(old(Now()), Now(), {}) && Exposed() <= old(Exposed())
      ensures forall dir, id' :: (dir, id') != (t.journal, id) ==> At(disk, dir, id') == old(At(disk, dir, id'))
      ensures At(disk, t.journal, id) ==
              if r.Ok? then At(Publish(old(disk), t, id, suffix, record), t.journal, id)
              else old(At(disk, t.journal, id))
      ensures r.Ok? ==> !old(At(disk, t.journal, id)).events.Has(suffix)
      ensures t.file !in old(Exposed()) ==>
                && (r.Ok? <==> old(Refusal(disk, t, id, suffix, record)).None? && old(budget) != Limited(0))
                && (old(Refusal(disk, t, id, suffix, record)).Some? ==>
                      r == Err(old(Refusal(disk, t, id, suffix, record)).value))
      ensures old(budget).Unlimited? ==> budget.Unlimited?
      ensures old(schedule) == [] ==> disk == if r.Ok? then Publish(old(disk), t, id, suffix, record) else old(disk)
      ensures t.journal in old(disk).journals ==> t.journal in disk.journals
    {
      ghost var before := Now();
      Interfere();
      SameSlots(old(disk), disk);
      if t.file !in old(Exposed()) {
        SameRefusal(old(disk), disk, t, id, suffix, record);
      }
      ghost var between := Now();
      r := PublishEvent(t, id, suffix, record);
      ContinuesOn(before, between, Now(), {}, {}, {});
    }

    method MakeDirectory(dir: string)
      modifies this`disk
      ensures disk.files == old(disk.files) && dir in disk.journals
      ensures forall dir', id :: At(disk, dir', id) == old(At(disk, dir', id))
      ensures dir in old(disk.journals) ==> disk == old(disk)
      ensures Continues(old(Now()), Now(), {}) && Exposed() <= old(Exposed())
    {
      ghost var before := Now();
      disk := MakeDir(disk, dir);
      assert Logs(before, Now());
      OneMove(before, Now(), {});
    }

    /** The last hash check of a target and its replacement, as one step.  `Ok(false)` is a mismatch. */
    method ReplaceNow(t: Target, id: string, kind: Kind, expected: string, bytes: Bytes)
      returns (r: Result<bool, ActionError>)
      requires Warranted(disk, sha, t.journal, id, kind, expected, bytes)
      modifies this`disk, this`trace, this`budget
      ensures r == Ok(true) <==>
                Matches(old(disk), t, sha, expected) && |bytes| <= MAX_TARGET_BYTES && old(budget) != Limited(0)
      ensures r == Ok(false) <==> ReadTarget(old(disk), t).Ok? && !Matches(old(disk), t, sha, expected)
      ensures disk == if r == Ok(true) then old(disk).(files := old(disk).files[t.file := bytes]) else old(disk)
      ensures old(budget).Unlimited? ==> budget.Unlimited?
      ensures Continues(old(Now()), Now(), {Licence(t.file, t.journal, id, kind, expected)})
      ensures Exposed() <= old(Exposed())
    {
      ghost var before, licences := Now(), {Licence(t.file, t.journal, id, kind, expected)};
      Stays(before, licences);
      var current := ReadTarget(disk, t);
      if current.Err? { return Err(current.error); }
      if sha(current.value) != expected { return Ok(false); }
      if |bytes| > MAX_TARGET_BYTES { return Err(UnsafeTarget); }
      var ok := Spend();
      if !ok { return Err(Interrupted); }
      ghost var change := Replaced(t.file, t.journal, id, kind, current.value, bytes);
      trace := trace + [change];
      disk := disk.(files := disk.files[t.file := bytes]);
      assert Replaces(before, Now(), change, licences);
      OneMove(before, Now(), licences);
      return Ok(true);
    }

    /** `ReplaceNow`, after other programs had a turn. */
    method CheckAndReplace(t: Target, id: string, kind: Kind, expected: string, bytes: Bytes)
      returns (r: Result<bool, ActionError>)
      requires Warranted(disk, sha, t.journal, id, kind, expected, bytes)
      modifies this`disk, this`schedule, this`trace, this`budget
      ensures disk.journals == old(disk.journals)
      ensures forall p :: p !in old(Exposed()) && p != t.file ==> FileAt(disk, p) == FileAt(old(disk), p)
      ensures r == Ok(true) ==> FileAt(disk, t.file) == Some(bytes)
      ensures r != Ok(true) ==> Untouched(old(disk), disk, old(Exposed()))
      ensures t.file !in old(Exposed()) ==>
                && (r == Ok(true) <==>
                      Matches(old(disk), t, sha, expected) && |bytes| <= MAX_TARGET_BYTES && old(budget) != Limited(0))
                && (r == Ok(false) <==> ReadTarget(old(disk), t).Ok? && !Matches(old(disk), t, sha, expected))
      ensures old(budget).Unlimited? ==> budget.Unlimited?
      ensures Continues(old(Now()), Now(), {Licence(t.file, t.journal, id, kind, expected)})
      ensures Exposed() <= old(Exposed())
    {
      ghost var before := Now();
      Interfere();
      assert At(disk, t.journal, id) == old(At(disk, t.journal, id));
      if t.file !in old(Exposed()) {
        SameReads(old(disk), disk, t, id);
      }
      ghost var between := Now();
      r := ReplaceNow(t, id, kind, expected, bytes);
      ContinuesOn(before, between, Now(), {}, {Licence(t.file, t.journal, id, kind, expected)},
        {Licence(t.file, t.journal, id, kind, expected)});
    }

    /** Creates the backup file exclusively, then fills it; an interruption leaves it missing or torn. */
    method WriteBackup(t: Target, id: string, before: Bytes, torn: Bytes) returns (r: Result<(), ActionError>)
      modifies this`disk, this`budget
      ensures disk.files == old(disk.files)
      ensures Continues(old(Now()), Now(), {}) && Exposed() <= old(Exposed())
      ensures forall dir, id' :: (dir, id') != (t.journal, id) ==> At(disk, dir, id') == old(At(disk, dir, id'))
      ensures At(disk, t.journal, id).events == old(At(disk, t.journal, id)).events
      ensures SlotGrows(old(At(disk, t.journal, id)), At(disk, t.journal, id))
      ensures r.Ok? ==> old(At(disk, t.journal, id)).backup.None? && At(disk, t.journal, id).backup == Some(before)
      ensures old(At(disk, t.journal, id)).backup.None? && old(budget).Unlimited? ==> r.Ok?
      ensures old(budget).Unlimited? ==> budget.Unlimited?
      ensures t.journal in old(disk.journals) ==> t.journal in disk.journals
    {
      ghost var before' := Now();
      Stays(before', {});
      var slot := At(disk, t.journal, id);
      if slot.backup.Some? { return Err(Io); }
      var ok := Spend();
      if !ok { return Err(Interrupted); }
      ok := Spend();
      var disk' := Put(disk, t.journal, id, slot.(backup := Some(if ok then before else torn)));
      disk := disk';
      assert Logs(before', Now());
      OneMove(before', Now(), {});
      return if ok then Ok(()) else Err(Interrupted);
    }

    /** The first half of `apply_transaction_with_id`: validate, read, back up, publish `prepared`. */
    method Prepare(t: Target, revision: string, expected: string, replacement: Bytes, torn: Bytes, id: string)
      returns (r: Result<Plan, ActionError>)
      modifies this`disk, this`schedule, this`trace, this`budget
      ensures Untouched(old(disk), disk, old(Exposed()))
      ensures Grows(old(disk), disk, t, id, old(Exposed()))
      ensures Continues(old(Now()), Now(), {}) && Exposed() <= old(Exposed())
      ensures old(budget).Unlimited? ==> budget.Unlimited?
      ensures r.Ok? ==>
                && var x := r.value;
                && x == Plan(t, id, revision, x.before, replacement)
                && sha(x.before) == expected
                && old(At(disk, t.journal, id)) == EMPTY_SLOT
                && Recorded(disk, x, sha, Pending)
                && (t.file !in old(Exposed()) ==> Holds(disk, x, x.before))
      ensures r.Err? ==> At(disk, t.journal, id).events == old(At(disk, t.journal, id)).events
      ensures !old(At(disk, t.journal, id)).events.Empty() ==> At(disk, t.journal, id) == old(At(disk, t.journal, id))
      ensures && t.file !in old(Exposed()) && t.file in old(disk.files) && old(At(disk, t.journal, id)) == EMPTY_SLOT
              && WellFormed(Plan(t, id, revision, old(disk.files)[t.file], replacement))
              && expected == sha(old(disk.files)[t.file]) && old(budget).Unlimited?
              ==> r.Ok?
      ensures t.file !in old(Exposed()) && Mismatch(old(disk), t, sha, revision, expected, replacement, id) ==>
                r == Err(Conflict)
    {
      Stays(Now(), {});
      if !ValidId(id) { return Err(InvalidJournal); }
      if !PlainLabel(revision) || |replacement| > MAX_TARGET_BYTES || !CanonicalHash(expected) {
        return Err(UnsafeTarget);
      }
      ghost var h0 := Now();
      Interfere();
      var read := ReadTarget(disk, t);
      if read.Err? { return Err(read.error); }
      var x := Plan(t, id, revision, read.value, replacement);
      if sha(x.before) != expected { return Err(Conflict); }
      ghost var h1 := Now();
      SameSlots(h0.disk, h1.disk);
      var begun := Enter(x, torn);
      ContinuesOn(h0, h1, Now(), {}, {}, {});
      return if begun.Err? then Err(begun.error) else Ok(x);
    }

    /** Refuses an id that already has events; otherwise opens the transaction. */
    method Enter(x: Plan, torn: Bytes) returns (r: Result<(), ActionError>)
      requires WellFormed(x)
      modifies this`disk, this`schedule, this`trace, this`budget
      ensures Untouched(old(disk), disk, old(Exposed()))
      ensures Grows(old(disk), disk, x.target, x.id, old(Exposed()))
      ensures Continues(old(Now()), Now(), {}) && Exposed() <= old(Exposed())
      ensures old(budget).Unlimited? ==> budget.Unlimited?
      ensures r.Ok? ==> old(At(disk, x.target.journal, x.id)) == EMPTY_SLOT && Recorded(disk, x, sha, Pending)
      ensures r.Err? ==> At(disk, x.target.journal, x.id).events == old(At(disk, x.target.journal, x.id)).events
      ensures !old(At(disk, x.target.journal, x.id)).events.Empty() ==>
                At(disk, x.target.journal, x.id) == old(At(disk, x.target.journal, x.id))
      ensures && x.target.file !in old(Exposed()) && ReadTarget(old(disk), x.target).Ok?
              && old(At(disk, x.target.journal, x.id)) == EMPTY_SLOT && old(budget).Unlimited?
              ==> r.Ok?
    {
      ghost var h0 := Now();
      MakeDirectory(x.target.journal);
      ghost var h1 := Now();
      var existing := ReadJournal(disk, x.target, x.id);
      if existing.Err? { return Err(existing.error); }
      if !existing.value.Empty() {
        return Err(if ValidateJournal(existing.value) then Conflict else InvalidJournal);
      }
      EmptyRecordsEmptyEvents(x.target.identity, x.id, At(disk, x.target.journal, x.id).events);
      r := Open(x, torn);
      ContinuesOn(h0, h1, Now(), {}, {}, {});
    }

    /** Backup first, then the `prepared` event. */
    method Open(x: Plan, torn: Bytes) returns (r: Result<(), ActionError>)
      requires WellFormed(x) && At(disk, x.target.journal, x.id).events.Empty()
      modifies this`disk, this`schedule, this`trace, this`budget
      ensures Untouched(old(disk), disk, old(Exposed()))
      ensures Continues(old(Now()), Now(), {}) && Exposed() <= old(Exposed())
      ensures forall dir, id :: (dir, id) != (x.target.journal, x.id) ==> At(disk, dir, id) == old(At(disk, dir, id))
      ensures SlotGrows(old(At(disk, x.target.journal, x.id)), At(disk, x.target.journal, x.id))
      ensures old(budget).Unlimited? ==> budget.Unlimited?
      ensures r.Ok? ==> old(At(disk, x.target.journal, x.id)) == EMPTY_SLOT && Recorded(disk, x, sha, Pending)
      ensures r.Err? ==> At(disk, x.target.journal, x.id).events.Empty()
      ensures && x.target.file !in old(Exposed()) && ReadTarget(old(disk), x.target).Ok?
              && old(At(disk, x.target.journal, x.id)) == EMPTY_SLOT && old(budget).Unlimited?
              ==> r.Ok?
    {
      assert At(disk, x.target.journal, x.id).events == Lines(x, sha, Fresh);
      ghost var h0 := Now();
      r := WriteBackup(x.target, x.id, x.before, torn);
      if r.Err? { return; }
      if ReadTarget(disk, x.target).Ok? {
        NextLineWritable(disk, x, sha, Fresh, Prepared);
      }
      assert Lines(x, sha, Fresh).With(Prepared, Readable(Line(x, sha, Prepared))) == Lines(x, sha, Pending);
      ghost var h1 := Now();
      r := WriteEvent(x.target, x.id, Prepared, Line(x, sha, Prepared));
      ContinuesOn(h0, h1, Now(), {}, {}, {});
    }

    /** The second half: check and replace the target, publish `applied` (or `conflict`). */
    method Commit(x: Plan) returns (r: Result<string, ActionError>)
      requires Recorded(disk, x, sha, Pending)
      modifies this`disk, this`schedule, this`trace, this`budget
      ensures Grows(old(disk), disk, x.target, x.id, old(Exposed()))
      ensures Continues(old(Now()), Now(), {Applying(x.target, x.id, sha(x.before))}) && Exposed() <= old(Exposed())
      // nobody else writes the target
      ensures x.target.file !in old(Exposed()) ==>
                if Matches(old(disk), x.target, sha, sha(x.before)) then
                  || (r.Err? && At(disk, x.target.journal, x.id) == old(At(disk, x.target.journal, x.id))
                      && (FileAt(disk, x.target.file) == old(FileAt(disk, x.target.file)) || Holds(disk, x, x.after)))
                  || (r == Ok(x.id) && Recorded(disk, x, sha, Live) && Holds(disk, x, x.after))
                else
                  && r.Err? && FileAt(disk, x.target.file) == old(FileAt(disk, x.target.file))
                  && At(disk, x.target.journal, x.id) in
                       {old(At(disk, x.target.journal, x.id)), old(SlotAfterCommit(disk, x, sha))}
      // and nothing interrupts it
      ensures x.target.file !in old(Exposed()) && old(budget).Unlimited? ==>
                && (r.Ok? <==> Matches(old(disk), x.target, sha, sha(x.before)))
                && At(disk, x.target.journal, x.id) == old(SlotAfterCommit(disk, x, sha))
    {
      var t, id := x.target, x.id;
      ghost var h0 := Now();
      PreparedWarrants(disk, x, sha);
      var replaced := CheckAndReplace(t, id, ForApply, sha(x.before), x.after);
      ghost var h1 := Now();
      Stays(h1, {});
      if replaced.Err? {
        r := Err(replaced.error);
      } else if !replaced.value {
        r := RefuseApply(x);
      } else {
        r := ConfirmApply(x);
      }
      var licences := {Applying(t, id, sha(x.before))};
      ContinuesOn(h0, h1, Now(), licences, {}, licences);
    }

    /** The target does not hold the expected content: publishes `conflict`. */
    method RefuseApply(x: Plan) returns (r: Result<string, ActionError>)
      requires Recorded(disk, x, sha, Pending)
      modifies this`disk, this`schedule, this`trace, this`budget
      ensures r.Err?
      ensures Untouched(old(disk), disk, old(Exposed()))
      ensures Grows(old(disk), disk, x.target, x.id, old(Exposed()))
      ensures Continues(old(Now()), Now(), {}) && Exposed() <= old(Exposed())
      ensures At(disk, x.target.journal, x.id) == old(At(disk, x.target.journal, x.id)) ||
              Recorded(disk, x, sha, Blocked)
      ensures x.target.file !in old(Exposed()) && old(budget).Unlimited? && ReadTarget(old(disk), x.target).Ok? ==>
                Recorded(disk, x, sha, Blocked)
    {
      if ReadTarget(disk, x.target).Ok? {
        NextLineWritable(disk, x, sha, Pending, Refused);
      }
      LinesWith(x, sha, Pending, Refused);
      var written := WriteEvent(x.target, x.id, Refused, Line(x, sha, Refused));
      return Err(if written.Err? then written.error else Conflict);
    }

    /** Reads the replaced target back and publishes `applied`. */
    method ConfirmApply(x: Plan) returns (r: Result<string, ActionError>)
      requires Recorded(disk, x, sha, Pending)
      modifies this`disk, this`schedule, this`trace, this`budget
      ensures Untouched(old(disk), disk, old(Exposed()))
      ensures Grows(old(disk), disk, x.target, x.id, old(Exposed()))
      ensures Continues(old(Now()), Now(), {}) && Exposed() <= old(Exposed())
      ensures if r.Ok? then r.value == x.id && Recorded(disk, x, sha, Live)
              else At(disk, x.target.journal, x.id) == old(At(disk, x.target.journal, x.id))
      ensures x.target.file !in old(Exposed()) && old(Holds(disk, x, x.after)) && old(budget).Unlimited?
              && ReadTarget(old(disk), x.target).Ok? ==>
                r.Ok?
    {
      ghost var h0 := Now();
      Interfere();
      ghost var h1 := Now();
      assert At(disk, x.target.journal, x.id) == old(At(disk, x.target.journal, x.id));
      var read := ReadTarget(disk, x.target);
      if read.Err? { return Err(read.error); }
      if sha(read.value) != sha(x.after) { return Err(Conflict); }
      NextLineWritable(disk, x, sha, Pending, Applied);
      var written := WriteEvent(x.target, x.id, Applied, Line(x, sha, Applied));
      ContinuesOn(h0, h1, Now(), {}, {}, {});
      return if written.Err? then Err(written.error) else Ok(x.id);
    }

    /** `apply_transaction_with_id`. */
    method ApplyTransaction(t: Target, revision: string, expected: string, replacement: Bytes, torn: Bytes, id: string)
      returns (r: Result<string, ActionError>)
      modifies this`disk, this`schedule, this`trace, this`budget
      ensures Grows(old(disk), disk, t, id, old(Exposed()))
      ensures Continues(old(Now()), Now(), {Applying(t, id, expected)}) && Exposed() <= old(Exposed())
      // the journal it begins names the new content
      ensures old(At(disk, t.journal, id)).events.Empty() ==> UndoHash(disk, t, id) in {None, Some(sha(replacement))}
      // nobody else writes the target: the transaction is in a known state
      ensures t.file !in old(Exposed()) && t.file in old(disk.files) && old(At(disk, t.journal, id)).events.Empty() ==>
                var x := Plan(t, id, revision, old(disk.files)[t.file], replacement);
                && Attempted(disk, x, sha)
                && (r.Ok? ==> r.value == id && Recorded(disk, x, sha, Live) && Holds(disk, x, replacement))
      // it succeeds when nothing stands in its way
      ensures && t.file !in old(Exposed()) && t.file in old(disk.files) && old(At(disk, t.journal, id)) == EMPTY_SLOT
              && WellFormed(Plan(t, id, revision, old(disk.files)[t.file], replacement))
              && expected == sha(old(disk.files)[t.file]) && old(budget).Unlimited?
              ==> r.Ok?
      // a target that is missing or does not hold the expected content is left alone
      ensures t.file !in old(Exposed()) && !Matches(old(disk), t, sha, expected) ==>
                r.Err? && Untouched(old(disk), disk, old(Exposed()))
                && At(disk, t.journal, id).events == old(At(disk, t.journal, id)).events
      ensures t.file !in old(Exposed()) && Mismatch(old(disk), t, sha, revision, expected, replacement, id) ==>
                r == Err(Conflict)
      // an id that already has events is refused without touching its slot
      ensures !old(At(disk, t.journal, id)).events.Empty() ==>
                r.Err? && At(disk, t.journal, id) == old(At(disk, t.journal, id))
                && Untouched(old(disk), disk, old(Exposed()))
    {
      ghost var h0, licences := Now(), {Applying(t, id, expected)};
      var prepared := Prepare(t, revision, expected, replacement, torn, id);
      ghost var h1 := Now();
      if prepared.Err? {
        Stays(h1, {});
        ContinuesOn(h0, h1, h1, {}, {}, licences);
        return Err(prepared.error);
      }
      r := Commit(prepared.value);
      ContinuesOn(h0, h1, Now(), {}, licences, licences);
      assert UndoHash(h1.disk, t, id) == Some(sha(replacement)) by {
        RecordedHash(h1.disk, prepared.value, sha, Pending);
      }
    }

    /** The second half of `undo_transaction`: check and restore the target, publish `undone` (or `undo-conflict`). */
    method Revert(t: Target, id: string, prepared: Record, backup: Bytes) returns (r: Result<(), ActionError>)
      requires UndoPlan(disk, t, id, sha) == Ok((prepared, backup))
      modifies this`disk, this`schedule, this`trace, this`budget
      ensures Grows(old(disk), disk, t, id, old(Exposed()))
      ensures Continues(old(Now()), Now(), UndoLicences(old(disk), t, id)) && Exposed() <= old(Exposed())
      ensures UndoHash(disk, t, id) == UndoHash(old(disk), t, id)
      ensures t.file !in old(Exposed()) ==> UndoOutcome(old(disk), disk, t, id, sha, r.Ok?)
      ensures t.file !in old(Exposed()) && old(budget).Unlimited? ==> UndoComplete(old(disk), disk, t, id, sha, r)
    {
      ghost var h0 := Now();
      UndoPlanWarrants(disk, t, id, sha);
      UndoPlanReads(disk, t, id, sha);
      var replaced := CheckAndReplace(t, id, ForUndo, prepared.after, backup);
      ghost var h1 := Now();
      SameSlots(h0.disk, h1.disk);
      Stays(h1, {});
      if replaced.Err? {
        r := Err(replaced.error);
      } else if replaced.value {
        r := MarkUndone(t, id, prepared);
      } else {
        r := MarkRefused(t, id, prepared);
      }
      UndoPlanLicence(h0.disk, t, id, sha);
      ContinuesOn(h0, h1, Now(), UndoLicences(h0.disk, t, id), {}, UndoLicences(h0.disk, t, id));
      if t.file !in old(Exposed()) {
        if replaced == Ok(true) {
          RevertDone(h0.disk, h1.disk, disk, t, id, sha, r, old(budget).Unlimited?);
        } else if replaced == Ok(false) {
          RevertRefused(h0.disk, h1.disk, disk, t, id, sha, r, old(budget).Unlimited?);
        }
      }
    }

    /** Reads the restored target back and publishes `undone`. */
    method MarkUndone(t: Target, id: string, prepared: Record) returns (r: Result<(), ActionError>)
      modifies this`disk, this`schedule, this`trace, this`budget
      ensures Untouched(old(disk), disk, old(Exposed()))
      ensures Grows(old(disk), disk, t, id, old(Exposed()))
      ensures Continues(old(Now()), Now(), {}) && Exposed() <= old(Exposed())
      ensures UndoHash(disk, t, id) == UndoHash(old(disk), t, id)
      ensures At(disk, t.journal, id) ==
              if r.Ok? then At(Publish(old(disk), t, id, Undone, Marked(prepared, Undone)), t.journal, id)
              else old(At(disk, t.journal, id))
      ensures t.file !in old(Exposed()) && old(budget).Unlimited? && Matches(old(disk), t, sha, prepared.before)
              && Refusal(old(disk), t, id, Undone, Marked(prepared, Undone)).None? ==>
                r.Ok?
    {
      ghost var h0 := Now();
      Interfere();
      ghost var h1 := Now();
      SameSlots(h0.disk, h1.disk);
      if t.file !in old(Exposed()) {
        SameRefusal(h0.disk, h1.disk, t, id, Undone, Marked(prepared, Undone));
        SameReads(h0.disk, h1.disk, t, id);
      }
      var read := ReadTarget(disk, t);
      if read.Err? { return Err(read.error); }
      if sha(read.value) != prepared.before { return Err(Conflict); }
      r := WriteEvent(t, id, Undone, Marked(prepared, Undone));
      ContinuesOn(h0, h1, Now(), {}, {}, {});
    }

    /** Publishes `undo-conflict`, once. */
    method MarkRefused(t: Target, id: string, prepared: Record) returns (r: Result<(), ActionError>)
      modifies this`disk, this`schedule, this`trace, this`budget
      ensures r.Err?
      ensures Untouched(old(disk), disk, old(Exposed()))
      ensures Grows(old(disk), disk, t, id, old(Exposed()))
      ensures Continues(old(Now()), Now(), {}) && Exposed() <= old(Exposed())
      ensures UndoHash(disk, t, id) == UndoHash(old(disk), t, id)
      ensures At(disk, t.journal, id) == old(At(disk, t.journal, id)) ||
              (At(disk, t.journal, id) ==
               At(Publish(old(disk), t, id, UndoRefused, Marked(prepared, UndoRefused)), t.journal, id)
               && !old(At(disk, t.journal, id)).events.Has(UndoRefused))
      ensures t.file !in old(Exposed()) && old(budget).Unlimited?
              && Refusal(old(disk), t, id, UndoRefused, Marked(prepared, UndoRefused)).None? ==>
                At(disk, t.journal, id) ==
                At(Publish(old(disk), t, id, UndoRefused, Marked(prepared, UndoRefused)), t.journal, id)
      ensures t.file !in old(Exposed()) && old(budget).Unlimited? ==>
                var refusal := Refusal(old(disk), t, id, UndoRefused, Marked(prepared, UndoRefused));
                r == Err(if refusal.Some? then refusal.value else Conflict)
    {
      r := WriteEvent(t, id, UndoRefused, Marked(prepared, UndoRefused));
      return Err(if r.Err? then r.error else Conflict);
    }

    /** `undo_transaction`. */
    method UndoTransaction(t: Target, id: string, ghost x: Plan) returns (r: Result<(), ActionError>)
      requires x.target == t && x.id == id
      modifies this`disk, this`schedule, this`trace, this`budget
      ensures Grows(old(disk), disk, t, id, old(Exposed()))
      ensures Continues(old(Now()), Now(), UndoLicences(old(disk), t, id)) && Exposed() <= old(Exposed())
      ensures UndoHash(disk, t, id) == UndoHash(old(disk), t, id)
      // a tampered journal stops it before any write, whatever others do to other files
      ensures old(Tampered(disk, t, id)) && ReadTarget(old(disk), t).Ok? && t.file !in old(Exposed()) ==>
                r == Err(InvalidJournal) && OnlyOthersWrote(old(Now()), Now(), t.file)
      ensures old(Tampered(disk, t, id)) && ReadTarget(old(disk), t).Ok? && old(schedule) == [] ==>
                r == Err(InvalidJournal) && disk == old(disk)
      // nobody else writes the target: where it can end, and where it does when nothing interrupts it
      ensures t.file !in old(Exposed()) ==> UndoOutcome(old(disk), disk, t, id, sha, r.Ok?)
      ensures t.file !in old(Exposed()) && old(budget).Unlimited? ==> UndoComplete(old(disk), disk, t, id, sha, r)
      // ... which for a transaction in a known state is another one
      ensures t.file !in old(Exposed()) ==> UndoKeeps(old(disk), disk, x, sha, r.Ok?, old(budget).Unlimited?)
      // ... and which is given by the stage of its journal, whatever its target holds
      ensures t.file !in old(Exposed()) && old(budget).Unlimited? ==>
                UndoneByStage(old(disk), disk, t, id, sha, r)
    {
      ghost var h0, licences := Now(), UndoLicences(disk, t, id);
      Interfere();
      ghost var h1 := Now();
      SameSlots(h0.disk, h1.disk);
      if t.file !in old(Exposed()) { SameTampering(h0.disk, h1.disk, t, id); }
      r := UndoNow(t, id);
      ContinuesOn(h0, h1, Now(), {}, licences, licences);
      if t.file !in old(Exposed()) {
        SameUndo(h0.disk, h1.disk, disk, t, id, sha, r);
        UndoStep(h0.disk, disk, x, sha, r, old(budget).Unlimited?);
        if old(budget).Unlimited? { UndoByStage(h0.disk, disk, t, id, sha, r); }
      }
    }

    /** From reading the journal on. */
    method UndoNow(t: Target, id: string) returns (r: Result<(), ActionError>)
      modifies this`disk, this`schedule, this`trace, this`budget
      ensures Grows(old(disk), disk, t, id, old(Exposed()))
      ensures Continues(old(Now()), Now(), UndoLicences(old(disk), t, id)) && Exposed() <= old(Exposed())
      ensures UndoHash(disk, t, id) == UndoHash(old(disk), t, id)
      ensures old(Tampered(disk, t, id)) && ReadTarget(old(disk), t).Ok? ==>
                r == Err(InvalidJournal) && Now() == old(Now())
      ensures t.file !in old(Exposed()) ==> UndoOutcome(old(disk), disk, t, id, sha, r.Ok?)
      ensures t.file !in old(Exposed()) && old(budget).Unlimited? ==> UndoComplete(old(disk), disk, t, id, sha, r)
    {
      var plan := UndoPlan(disk, t, id, sha);
      if Tampered(disk, t, id) && ReadTarget(disk, t).Ok? {
        TamperedIsRefused(disk, t, id, sha);
      }
      Stays(Now(), UndoLicences(disk, t, id));
      if plan.Err? { return Err(plan.error); }
      r := Revert(t, id, plan.value.0, plan.value.1);
    }

    /** `recover_transaction`: decides by content hash and publishes at most one event; never writes a target. */
    method RecoverTransaction(t: Target, id: string, ghost x: Plan) returns (r: Result<Recovery, ActionError>)
      requires x.target == t && x.id == id
      modifies this`disk, this`schedule, this`trace, this`budget
      ensures Untouched(old(disk), disk, old(Exposed()))
      ensures Grows(old(disk), disk, t, id, old(Exposed()))
      ensures Continues(old(Now()), Now(), {}) && Exposed() <= old(Exposed())
      ensures UndoHash(disk, t, id) == UndoHash(old(disk), t, id)
      ensures old(budget).Unlimited? ==> budget.Unlimited?
      ensures t.journal in disk.journals <==> t.journal in old(disk).journals
      // a tampered journal stops it before any write, whatever others do to other files
      ensures old(Tampered(disk, t, id)) && ReadTarget(old(disk), t).Ok? && t.file !in old(Exposed()) ==>
                r == Err(InvalidJournal) && OnlyOthersWrote(old(Now()), Now(), t.file)
      ensures old(Tampered(disk, t, id)) && ReadTarget(old(disk), t).Ok? && old(schedule) == [] ==>
                r == Err(InvalidJournal) && disk == old(disk)
      // nobody else writes the target and nothing interrupts it: it does exactly what it decides
      ensures t.file !in old(Exposed()) && old(budget).Unlimited? ==>
                Concluded(Decide(old(disk), t, id, sha), old(disk), disk, t, id, r)
      // nobody else writes anything either
      ensures old(schedule) == [] && old(budget).Unlimited? ==>
                CarriedOut(Decide(old(disk), t, id, sha), old(disk), disk, t, id, r)
      // nobody else writes the target
      ensures t.file !in old(Exposed()) ==> RecoverKeeps(old(disk), disk, x, sha, r, old(budget).Unlimited?)
      // ... and by stage of its journal, whatever its target holds
      ensures t.file !in old(Exposed()) ==>
                RecoveredByStage(old(disk), disk, t, id, sha, r, old(budget).Unlimited?)
    {
      ghost var h0 := Now();
      Interfere();
      ghost var h1 := Now();
      SameSlots(h0.disk, h1.disk);
      if t.file !in old(Exposed()) { SameTampering(h0.disk, h1.disk, t, id); }
      r := CarryOut(t, id);
      ContinuesOn(h0, h1, Now(), {}, {}, {});
      if t.file !in old(Exposed()) {
        SameDecision(h0.disk, h1.disk, t, id, sha);
        ByStage(h0.disk, disk, t, id, sha, r, old(budget).Unlimited?);
        RecoverEnds(h0.disk, disk, x, sha, r, old(budget).Unlimited?);
      }
    }

    /** Recovering twice, with other programs at work on other files: the same verdict, and the second
        call changes no journal and not the target. */
    method RecoverTwice(t: Target, id: string, ghost x: Plan)
      returns (first: Result<Recovery, ActionError>, second: Result<Recovery, ActionError>, ghost between: Disk)
      requires t.file !in Exposed() && budget.Unlimited?
      requires x.target == t && x.id == id
      modifies this`disk, this`schedule, this`trace, this`budget
      ensures second == first
      ensures Concluded(Decide(old(disk), t, id, sha), old(disk), between, t, id, first)
      ensures (forall dir, id' :: At(disk, dir, id') == At(between, dir, id'))
              && FileAt(disk, t.file) == FileAt(between, t.file)
      ensures FileAt(disk, t.file) == old(FileAt(disk, t.file))
      ensures old(schedule) == [] ==> disk == between
    {
      ghost var h0 := Now();
      first := RecoverTransaction(t, id, x);
      between := disk;
      DecideAgain(old(disk), disk, t, id, sha, first);
      ContinuesFacts(h0, Now(), {});
      second := RecoverTransaction(t, id, x);
    }

    /** `rollback_failed_attempt`: nothing to do without events, otherwise recover and undo what was applied. */
    method RollbackFailedAttempt(t: Target, id: string, ghost x: Plan) returns (r: Result<(), ActionError>)
      requires x.target == t && x.id == id
      modifies this`disk, this`schedule, this`trace, this`budget
      ensures Grows(old(disk), disk, t, id, old(Exposed()))
      ensures Continues(old(Now()), Now(), UndoLicences(old(disk), t, id)) && Exposed() <= old(Exposed())
      ensures UndoHash(disk, t, id) == UndoHash(old(disk), t, id)
      // a tampered journal stops it before any write, whatever others do to other files
      ensures old(Tampered(disk, t, id)) && ReadTarget(old(disk), t).Ok? && t.file !in old(Exposed()) ==>
                r == Err(InvalidJournal) && OnlyOthersWrote(old(Now()), Now(), t.file)
      ensures old(Tampered(disk, t, id)) && ReadTarget(old(disk), t).Ok? && old(schedule) == [] ==>
                r == Err(InvalidJournal) && disk == old(disk)
      // an attempt without events wrote nothing
      ensures old(At(disk, t.journal, id)).events.Empty() ==>
                Untouched(old(disk), disk, old(Exposed())) && At(disk, t.journal, id) == old(At(disk, t.journal, id))
      ensures t.file !in old(Exposed()) && BlankAttempt(old(disk), t, id) ==> r == Ok(())
      // nobody else writes the target: content it had not written stays
      ensures t.file !in old(Exposed()) && FileAt(disk, t.file) != old(FileAt(disk, t.file)) ==>
                t.file in old(disk.files) && UndoHash(old(disk), t, id) == Some(sha(old(disk.files)[t.file]))
      // interrupted or not, a transaction in a known state stays in one ...
      ensures t.file !in old(Exposed()) && old(InFlight(disk, x, sha)) && Distinguishes(sha, x) ==>
                InFlight(disk, x, sha)
      // ... and, uninterrupted, it ends with the old bytes
      ensures t.file !in old(Exposed()) && old(InFlight(disk, x, sha)) && Distinguishes(sha, x) ==>
                old(budget).Unlimited? ==>
                && Holds(disk, x, x.before)
                && (!old(At(disk, t.journal, id)).events.Empty() ==>
                      (r.Ok? <==> !old(Recorded(disk, x, sha, LiveBlocked))))
                && (r.Ok? ==> RolledBack(disk, x, sha))
      // ... and whatever its target holds, it ends as the stage of its journal says
      ensures t.file !in old(Exposed()) && old(budget).Unlimited? ==>
                RolledBackByStage(old(disk), disk, t, id, sha, r)
    {
      ghost var h0, licences := Now(), UndoLicences(disk, t, id);
      Interfere();
      ghost var h1 := Now();
      SameSlots(h0.disk, h1.disk);
      if t.file !in old(Exposed()) {
        SameTampering(h0.disk, h1.disk, t, id);
        SameView(h0.disk, h1.disk, x, sha);
      }
      r := RollBackNow(t, id, x);
      ContinuesOn(h0, h1, Now(), {}, licences, licences);
      if t.file !in old(Exposed()) && old(budget).Unlimited? {
        SameRollback(h0.disk, h1.disk, disk, t, id, sha, r);
      }
    }

    /** From reading the journal on. */
    method RollBackNow(t: Target, id: string, ghost x: Plan) returns (r: Result<(), ActionError>)
      requires x.target == t && x.id == id
      modifies this`disk, this`schedule, this`trace, this`budget
      ensures Grows(old(disk), disk, t, id, old(Exposed()))
      ensures Continues(old(Now()), Now(), UndoLicences(old(disk), t, id)) && Exposed() <= old(Exposed())
      ensures UndoHash(disk, t, id) == UndoHash(old(disk), t, id)
      ensures old(Tampered(disk, t, id)) && ReadTarget(old(disk), t).Ok? ==>
                r == Err(InvalidJournal) && Now() == old(Now())
      ensures old(At(disk, t.journal, id)).events.Empty() ==> disk == old(disk)
      ensures BlankAttempt(old(disk), t, id) ==> r == Ok(())
      ensures t.file !in old(Exposed()) && FileAt(disk, t.file) != old(FileAt(disk, t.file)) ==>
                t.file in old(disk.files) && UndoHash(old(disk), t, id) == Some(sha(old(disk.files)[t.file]))
      ensures t.file !in old(Exposed()) && old(InFlight(disk, x, sha)) && Distinguishes(sha, x) ==>
                InFlight(disk, x, sha)
      ensures t.file !in old(Exposed()) && old(InFlight(disk, x, sha)) && Distinguishes(sha, x) ==>
                old(budget).Unlimited? ==>
                && Holds(disk, x, x.before)
                && (!old(At(disk, t.journal, id)).events.Empty() ==>
                      (r.Ok? <==> !old(Recorded(disk, x, sha, LiveBlocked))))
                && (r.Ok? ==> RolledBack(disk, x, sha))
      ensures t.file !in old(Exposed()) && old(budget).Unlimited? ==>
                RolledBackByStage(old(disk), disk, t, id, sha, r)
    {
      if Tampered(disk, t, id) && ReadTarget(disk, t).Ok? {
        TamperedIsRefused(disk, t, id, sha);
      }
      var journal := ReadJournal(disk, t, id);
      InFlightReads(disk, x, sha);
      UnreadableNotJournalled(disk, t, id);
      Stays(Now(), UndoLicences(disk, t, id));
      if journal.Err? { return Err(journal.error); }
      if journal.value.Empty() { return Ok(()); }
      if !ValidateJournal(journal.value) { return Err(InvalidJournal); }
      PreparedExists(disk, t, id);
      r := RecoverAndUndo(t, id, x);
    }

    /** Recovers an attempt that has events, and undoes it when recovery finds it applied. */
    method RecoverAndUndo(t: Target, id: string, ghost x: Plan) returns (r: Result<(), ActionError>)
      requires x.target == t && x.id == id
      requires At(disk, t.journal, id).events.prepared.Some?
      modifies this`disk, this`schedule, this`trace, this`budget
      ensures Grows(old(disk), disk, t, id, old(Exposed()))
      ensures Continues(old(Now()), Now(), UndoLicences(old(disk), t, id)) && Exposed() <= old(Exposed())
      ensures UndoHash(disk, t, id) == UndoHash(old(disk), t, id)
      ensures t.file !in old(Exposed()) && FileAt(disk, t.file) != old(FileAt(disk, t.file)) ==>
                t.file in old(disk.files) && UndoHash(old(disk), t, id) == Some(sha(old(disk.files)[t.file]))
      ensures t.file !in old(Exposed()) ==> RollbackKeeps(old(disk), disk, x, sha, r, old(budget).Unlimited?)
      ensures t.file !in old(Exposed()) && old(budget).Unlimited? ==>
                RolledBackByStage(old(disk), disk, t, id, sha, r)
    {
      ghost var h0 := Now();
      StagesDiffer(x, sha);
      var verdict := RecoverTransaction(t, id, x);
      ghost var h1, licences := Now(), UndoLicences(h0.disk, t, id);
      assert At(h0.disk, t.journal, id).events.Has(Prepared);
      Stays(h1, licences);
      if verdict.Err? {
        r := Err(verdict.error);
      } else if verdict.value != RecoveredApplied {
        r := Ok(());
      } else {
        r := UndoTransaction(t, id, x);
        UndoOverwrites(h1.disk, disk, t, id, sha, r.Ok?);
      }
      ContinuesOn(h0, h1, Now(), {}, licences, licences);
      GrowsOn(h0.disk, h1.disk, disk, t, id, Written(h0.schedule), Written(h1.schedule));
      if t.file !in old(Exposed()) {
        RollbackEnds(h0.disk, h1.disk, disk, x, sha, verdict, r, old(budget).Unlimited?);
        if old(budget).Unlimited? { RollbackTable(h0.disk, h1.disk, disk, t, id, sha, verdict, r); }
      }
    }

    /** Decides and publishes what was decided. */
    method CarryOut(t: Target, id: string) returns (r: Result<Recovery, ActionError>)
      modifies this`disk, this`schedule, this`trace, this`budget
      ensures Untouched(old(disk), disk, old(Exposed()))
      ensures Grows(old(disk), disk, t, id, old(Exposed()))
      ensures Continues(old(Now()), Now(), {}) && Exposed() <= old(Exposed())
      ensures UndoHash(disk, t, id) == UndoHash(old(disk), t, id)
      ensures old(budget).Unlimited? ==> budget.Unlimited?
      ensures t.journal in disk.journals <==> t.journal in old(disk).journals
      ensures old(Tampered(disk, t, id)) && ReadTarget(old(disk), t).Ok? ==>
                r == Err(InvalidJournal) && Now() == old(Now())
      ensures old(schedule) == [] && old(budget).Unlimited? ==>
                CarriedOut(Decide(old(disk), t, id, sha), old(disk), disk, t, id, r)
      ensures t.file !in old(Exposed()) && old(budget).Unlimited? ==>
                Concluded(Decide(old(disk), t, id, sha), old(disk), disk, t, id, r)
      ensures At(disk, t.journal, id) == SlotAfter(Decide(old(disk), t, id, sha), old(disk), t, id, r.Ok?)
      ensures Answers(Decide(old(disk), t, id, sha), r, t.file !in old(Exposed()) && old(budget).Unlimited?)
    {
      var c := Decide(disk, t, id, sha);
      Stays(Now(), {});
      if Tampered(disk, t, id) && ReadTarget(disk, t).Ok? {
        TamperedIsRefused(disk, t, id, sha);
      }
      match c
      case Settled(verdict) => r := Ok(verdict);
      case Stops(error) => r := Err(error);
      case Publishes(suffix, record, verdict) =>
        DecisionWritable(disk, t, id, sha);
        PublishKeepsSound(disk, t, id, suffix, record);
        var written := WriteEvent(t, id, suffix, record);
        r := if written.Err? then Err(written.error) else Ok(verdict);
    }
  }

  function Applying(t: Target, id: string, expected: string): Licence {
    Licence(t.file, t.journal, id, ForApply, expected)
  }

  /** The content hash an undo of this action may overwrite: the new one, by its journal. */
  function UndoHash(d: Disk, t: Target, id: string): Option<string> {
    var entry := At(d, t.journal, id).events.prepared;
    if entry.Some? && entry.value.Readable? then Some(entry.value.record.after) else None
  }

  function UndoLicences(d: Disk, t: Target, id: string): set<Licence> {
    var hash := UndoHash(d, t, id);
    if hash.None? then {} else {Licence(t.file, t.journal, id, ForUndo, hash.value)}
  }

  lemma PreparedWarrants(d: Disk, x: Plan, sha: Bytes -> Digest)
    requires Recorded(d, x, sha, Pending)
    ensures Warranted(d, sha, x.target.journal, x.id, ForApply, sha(x.before), x.after)
  {
    assert Lines(x, sha, Pending).Get(Prepared) == Some(Readable(Line(x, sha, Prepared)));
  }

  lemma RecordedHash(d: Disk, x: Plan, sha: Bytes -> Digest, stage: Stage)
    requires Recorded(d, x, sha, stage)
    ensures UndoHash(d, x.target, x.id) == if stage.Fresh? then None else Some(sha(x.after))
  {
    assert Lines(x, sha, stage).Get(Prepared) == EntryOf(x, sha, stage, Prepared);
  }

  /** A plan in flight may be undone only over its own new content. */
  lemma InFlightLicences(d: Disk, x: Plan, sha: Bytes -> Digest)
    requires InFlight(d, x, sha)
    ensures UndoHash(d, x.target, x.id) in {None, Some(sha(x.after))}
    ensures UndoLicences(d, x.target, x.id) <= {Licence(x.target.file, x.target.journal, x.id, ForUndo, sha(x.after))}
  {
    if !At(d, x.target.journal, x.id).events.Empty() {
      RecordedHash(d, x, sha, StageOf(d, x, sha));
    }
  }

  lemma PreparedExists(d: Disk, t: Target, id: string)
    requires ReadJournal(d, t, id).Ok? && ValidateJournal(ReadJournal(d, t, id).value)
    ensures At(d, t.journal, id).events.prepared.Some?
    ensures ReadJournal(d, t, id).value.prepared.value.actionId == id
  {
    var events := At(d, t.journal, id).events;
    assert ReadJournal(d, t, id).value.Has(Prepared);
    assert t.journal in d.journals;
    assert Records(events).Get(Prepared) == RecordOf(events.Get(Prepared));
    assert events.Has(Prepared);
  }

  lemma UndoPlanLicence(d: Disk, t: Target, id: string, sha: Bytes -> Digest)
    requires UndoPlan(d, t, id, sha).Ok?
    ensures UndoHash(d, t, id) == Some(UndoPlan(d, t, id, sha).value.0.after)
  {
    var events := At(d, t.journal, id).events;
    assert Records(events).Get(Prepared) == RecordOf(events.Get(Prepared));
    assert events.Has(Prepared);
  }

  /** The engine's undo looks at one slot and one file only. */
  lemma SameUndo(d: Disk, d1: Disk, d': Disk, t: Target, id: string, sha: Bytes -> Digest, r: Result<(), ActionError>)
    requires d1.journals == d.journals && FileAt(d1, t.file) == FileAt(d, t.file)
    ensures UndoOutcome(d, d', t, id, sha, r.Ok?) <==> UndoOutcome(d1, d', t, id, sha, r.Ok?)
    ensures UndoComplete(d, d', t, id, sha, r) <==> UndoComplete(d1, d', t, id, sha, r)
  {
    assert UndoPlan(d1, t, id, sha) == UndoPlan(d, t, id, sha);
    assert Undoable(d1, t, id, sha) == Undoable(d, t, id, sha);
    assert UndoAnswer(d1, t, id, sha) == UndoAnswer(d, t, id, sha);
    assert SlotAfterUndo(d1, t, id, sha) == SlotAfterUndo(d, t, id, sha);
  }

  /** So does its recovery. */
  lemma SameDecision(d: Disk, d': Disk, t: Target, id: string, sha: Bytes -> Digest)
    requires t.journal in d'.journals <==> t.journal in d.journals
    requires At(d', t.journal, id) == At(d, t.journal, id) && FileAt(d', t.file) == FileAt(d, t.file)
    ensures Decide(d', t, id, sha) == Decide(d, t, id, sha)
    ensures forall c, ok :: SlotAfter(c, d', t, id, ok) == SlotAfter(c, d, t, id, ok)
  {
    assert ReadJournal(d', t, id) == ReadJournal(d, t, id);
    if ReadJournal(d, t, id).Ok? && ValidateJournal(ReadJournal(d, t, id).value) {
      PreparedExists(d, t, id);
    }
  }

  /** An undo changes a target only while it holds what the journal names. */
  lemma UndoOverwrites(d: Disk, d': Disk, t: Target, id: string, sha: Bytes -> Digest, ok: bool)
    ensures UndoOutcome(d, d', t, id, sha, ok) && FileAt(d', t.file) != FileAt(d, t.file) ==>
              t.file in d.files && UndoHash(d, t, id) == Some(sha(d.files[t.file]))
  {
    if Undoable(d, t, id, sha) {
      UndoPlanLicence(d, t, id, sha);
    }
  }

  /** The slot after what was decided has been published, or not. */
  function SlotAfter(c: Decision, d: Disk, t: Target, id: string, ok: bool): Slot {
    var slot := At(d, t.journal, id);
    if c.Publishes? && ok then slot.(events := slot.events.With(c.suffix, Readable(c.record))) else slot
  }

  /** The verdict, the journal and the target after a recovery are as decided. */
  predicate Concluded(c: Decision, d: Disk, d': Disk, t: Target, id: string, r: Result<Recovery, ActionError>) {
    && r == (if c.Stops? then Err(c.error) else Ok(c.verdict))
    && FileAt(d', t.file) == FileAt(d, t.file)
    && At(d', t.journal, id) == SlotAfter(c, d, t, id, true)
  }

  /** The answer of a recovery: what was decided, or, when publishing failed, an error. */
  predicate Answers(c: Decision, r: Result<Recovery, ActionError>, complete: bool) {
    match c
    case Stops(error) => r == Err(error)
    case Settled(verdict) => r == Ok(verdict)
    case Publishes(_, _, verdict) => r == Ok(verdict) || (!complete && r.Err?)
  }

  /** A valid journal and its backup read back as what they are. */
  lemma JournalledReads(d: Disk, t: Target, id: string, stage: Stage, p: Record)
    requires Journalled(d, t, id, stage, p)
    ensures ReadTarget(d, t) == Ok(d.files[t.file])
    ensures ReadJournal(d, t, id).Ok? && ValidateJournal(ReadJournal(d, t, id).value)
    ensures ReadJournal(d, t, id).value.prepared == Some(p) && p.actionId == id
    ensures forall s :: ReadJournal(d, t, id).value.Has(s) <==> Marks(stage, s)
  {
    var events := At(d, t.journal, id).events;
    var records := Records(events);
    forall s ensures records.Has(s) <==> Marks(stage, s) {
      assert records.Get(s) == RecordOf(events.Get(s));
    }
    assert events.Has(Prepared) && records.Get(Prepared) == RecordOf(events.Get(Prepared));
    forall s | records.Has(s) ensures SameTransaction(records.Get(s).value, p) {
      assert records.Get(s) == RecordOf(events.Get(s)) && events.Has(s);
    }
    assert records.Has(Applied) <==> Marks(stage, Applied);
    assert records.Has(Aborted) <==> Marks(stage, Aborted);
    assert records.Has(Refused) <==> Marks(stage, Refused);
    assert records.Has(UndoRefused) <==> Marks(stage, UndoRefused);
    assert records.Has(Undone) <==> Marks(stage, Undone);
  }

  lemma UnreadableNotJournalled(d: Disk, t: Target, id: string)
    ensures ReadJournal(d, t, id).Err? || !ValidateJournal(ReadJournal(d, t, id).value) ==>
              forall stage, p :: !Journalled(d, t, id, stage, p)
  {
    forall stage, p | Journalled(d, t, id, stage, p)
      ensures ReadJournal(d, t, id).Ok? && ValidateJournal(ReadJournal(d, t, id).value)
    {
      JournalledReads(d, t, id, stage, p);
    }
  }

  /** And a journal that reads back as valid is at some stage. */
  lemma ReadsJournalled(d: Disk, t: Target, id: string) returns (stage: Stage, p: Record)
    requires ReadJournal(d, t, id).Ok? && ValidateJournal(ReadJournal(d, t, id).value)
    ensures Journalled(d, t, id, stage, p) && p == ReadJournal(d, t, id).value.prepared.value
  {
    var events, records := At(d, t.journal, id).events, ReadJournal(d, t, id).value;
    ValidJournalsAreLifeCycles(records);
    stage :| !stage.Fresh? && AtStage(records, stage);
    p := records.prepared.value;
    PreparedExists(d, t, id);
    assert t.journal in d.journals && records == Records(events);
    forall s ensures events.Has(s) <==> Marks(stage, s) {
      assert records.Get(s) == RecordOf(events.Get(s));
      assert records.Has(s) <==> Marks(stage, s);
    }
    forall s | events.Has(s) ensures SameTransaction(events.Get(s).value.record, p) {
      assert records.Get(s) == RecordOf(events.Get(s)) && records.Has(s);
    }
    assert records.Get(Prepared) == RecordOf(events.Get(Prepared));
  }

  lemma DecideByStage(d: Disk, d': Disk, t: Target, id: string, sha: Bytes -> Digest, stage: Stage, p: Record,
                      r: Result<Recovery, ActionError>, complete: bool)
    requires Journalled(d, t, id, stage, p) && BackedUp(d, t, id, sha, p)
    requires Answers(Decide(d, t, id, sha), r, complete)
    requires FileAt(d', t.file) == FileAt(d, t.file)
    requires At(d', t.journal, id) == SlotAfter(Decide(d, t, id, sha), d, t, id, r.Ok?)
    ensures Recovers(d, d', t, id, sha, stage, p, r) || (!complete && r.Err? && Kept(d, d', t, id))
  {
    JournalledReads(d, t, id, stage, p);
    var records := ReadJournal(d, t, id).value;
    assert records.Has(Applied) <==> Marks(stage, Applied);
    assert records.Has(Aborted) <==> Marks(stage, Aborted);
    assert records.Has(Refused) <==> Marks(stage, Refused);
    assert records.Has(UndoRefused) <==> Marks(stage, UndoRefused);
    assert records.Has(Undone) <==> Marks(stage, Undone);
    var c, events := Decide(d, t, id, sha), At(d, t.journal, id).events;
    if c.Publishes? {
      assert events.Has(c.suffix) <==> Marks(stage, c.suffix);
    }
  }

  /** Recovery is by stage on every disk. */
  lemma ByStage(d: Disk, d': Disk, t: Target, id: string, sha: Bytes -> Digest,
                r: Result<Recovery, ActionError>, complete: bool)
    requires Answers(Decide(d, t, id, sha), r, complete)
    requires FileAt(d', t.file) == FileAt(d, t.file)
    requires At(d', t.journal, id) == SlotAfter(Decide(d, t, id, sha), d, t, id, r.Ok?)
    ensures RecoveredByStage(d, d', t, id, sha, r, complete)
  {
    forall stage, p | Journalled(d, t, id, stage, p) && BackedUp(d, t, id, sha, p)
      ensures Recovers(d, d', t, id, sha, stage, p, r) || (!complete && r.Err? && Kept(d, d', t, id))
    {
      DecideByStage(d, d', t, id, sha, stage, p, r, complete);
    }
    if !Decide(d, t, id, sha).Stops? {
      var stage, p := ReadsJournalled(d, t, id);
      assert BackedUp(d, t, id, sha, p) by { JournalledReads(d, t, id, stage, p); }
    }
  }

  lemma UndoPlanByStage(d: Disk, t: Target, id: string, sha: Bytes -> Digest, stage: Stage, p: Record)
    requires Journalled(d, t, id, stage, p)
    ensures if stage.Reverted? || stage.RevertedLate? then UndoPlan(d, t, id, sha) == Err(Conflict)
            else if !stage.Live? && !stage.LiveBlocked? then UndoPlan(d, t, id, sha) == Err(InvalidJournal)
            else if BackedUp(d, t, id, sha, p) then
              UndoPlan(d, t, id, sha) == Ok((p, At(d, t.journal, id).backup.value))
            else UndoPlan(d, t, id, sha).Err?
    ensures At(d, t.journal, id).events.Has(UndoRefused) <==> stage.LiveBlocked? || stage.RevertedLate?
  {
    JournalledReads(d, t, id, stage, p);
    var records := ReadJournal(d, t, id).value;
    assert records.Has(Applied) <==> Marks(stage, Applied);
    assert records.Has(Undone) <==> Marks(stage, Undone);
    assert At(d, t.journal, id).events.Has(UndoRefused) <==> Marks(stage, UndoRefused);
  }

  /** Undo is by stage on every disk. */
  lemma UndoByStage(d: Disk, d': Disk, t: Target, id: string, sha: Bytes -> Digest, r: Result<(), ActionError>)
    requires UndoComplete(d, d', t, id, sha, r)
    ensures UndoneByStage(d, d', t, id, sha, r)
  {
    forall stage, p | Journalled(d, t, id, stage, p)
      ensures Undoes(d, d', t, id, sha, stage, p, r)
    {
      JournalledReads(d, t, id, stage, p);
      UndoPlanByStage(d, t, id, sha, stage, p);
      assert At(d, t.journal, id).events.Has(Undone) <==> Marks(stage, Undone);
    }
    if UndoPlan(d, t, id, sha).Ok? {
      var stage, p := ReadsJournalled(d, t, id);
    }
  }

  /** After a recovery has concluded, deciding again publishes nothing and comes to the same verdict. */
  lemma DecideAgain(d: Disk, d': Disk, t: Target, id: string, sha: Bytes -> Digest, r: Result<Recovery, ActionError>)
    requires Concluded(Decide(d, t, id, sha), d, d', t, id, r)
    requires t.journal in d'.journals <==> t.journal in d.journals
    ensures Decide(d', t, id, sha) == if r.Ok? then Settled(r.value) else Stops(r.error)
  {
    var c := Decide(d, t, id, sha);
    if c.Publishes? {
      DecideIdempotent(d, t, id, sha);
      DecisionWritable(d, t, id, sha);
      SameDecision(Publish(d, t, id, c.suffix, c.record), d', t, id, sha);
    } else {
      SameDecision(d, d', t, id, sha);
    }
  }

  /** The stage after one recovery step of a plan nobody else interferes with. */
  lemma RecoverStage(d: Disk, d': Disk, x: Plan, sha: Bytes -> Digest, ok: bool) returns (stage: Stage)
    requires InFlight(d, x, sha) && !At(d, x.target.journal, x.id).events.Empty()
    requires At(d', x.target.journal, x.id) == SlotAfter(Decide(d, x.target, x.id, sha), d, x.target, x.id, ok)
    ensures var s := StageOf(d, x, sha);
            && Recorded(d', x, sha, stage)
            && (stage == s || (s.Pending? && (stage.Dropped? || stage.Live?)) || (s.Live? && stage.Reverted?))
            && (stage.Live? && !s.Live? ==> sha(d.files[x.target.file]) != sha(x.before))
            && (stage != s && !stage.Live? ==> sha(d.files[x.target.file]) == sha(x.before))
  {
    stage := StageOf(d, x, sha);
    DecideInFlight(d, x, sha);
    var c := Decide(d, x.target, x.id, sha);
    if c.Publishes? && ok {
      LinesWith(x, sha, stage, c.suffix);
      stage := Next(stage, c.suffix).value;
    }
  }

  /** One recovery step keeps a plan in flight. */
  lemma RecoverStep(d: Disk, d': Disk, x: Plan, sha: Bytes -> Digest, ok: bool)
    requires InFlight(d, x, sha) && Distinguishes(sha, x)
    requires FileAt(d', x.target.file) == FileAt(d, x.target.file)
    requires At(d', x.target.journal, x.id) == SlotAfter(Decide(d, x.target, x.id, sha), d, x.target, x.id, ok)
    ensures InFlight(d', x, sha)
    ensures At(d, x.target.journal, x.id).events.Empty() ==>
              At(d', x.target.journal, x.id) == At(d, x.target.journal, x.id)
    ensures Recorded(d, x, sha, LiveBlocked) <==> Recorded(d', x, sha, LiveBlocked)
  {
    StagesDiffer(x, sha);
    if At(d, x.target.journal, x.id).events.Empty() {
      assert !Decide(d, x.target, x.id, sha).Publishes?;
      SameView(d, d', x, sha);
    } else {
      var stage := RecoverStage(d, d', x, sha, ok);
    }
  }

  /** A recovery of a plan in flight leaves it in flight; uninterrupted, with a verdict that agrees with
      journal and bytes. */
  ghost predicate RecoverKeeps(d: Disk, d': Disk, x: Plan, sha: Bytes -> Digest, r: Result<Recovery, ActionError>,
                               complete: bool) {
    InFlight(d, x, sha) && Distinguishes(sha, x) ==>
      && InFlight(d', x, sha)
      && (complete && !At(d, x.target.journal, x.id).events.Empty() ==> RecoveredAs(d', x, sha, r))
      && (At(d, x.target.journal, x.id).events.Empty() ==>
            At(d', x.target.journal, x.id) == At(d, x.target.journal, x.id))
      && (Recorded(d, x, sha, LiveBlocked) <==> Recorded(d', x, sha, LiveBlocked))
  }

  lemma RecoverEnds(d: Disk, d': Disk, x: Plan, sha: Bytes -> Digest, r: Result<Recovery, ActionError>, complete: bool)
    requires FileAt(d', x.target.file) == FileAt(d, x.target.file)
    requires At(d', x.target.journal, x.id) == SlotAfter(Decide(d, x.target, x.id, sha), d, x.target, x.id, r.Ok?)
    requires complete ==> Concluded(Decide(d, x.target, x.id, sha), d, d', x.target, x.id, r)
    ensures RecoverKeeps(d, d', x, sha, r, complete)
  {
    if InFlight(d, x, sha) && Distinguishes(sha, x) {
      RecoverStep(d, d', x, sha, r.Ok?);
      if complete && !At(d, x.target.journal, x.id).events.Empty() {
        RecoverVerdict(d, d', x, sha, r);
      }
    }
  }

  /** ... and the verdict it concludes with. */
  lemma RecoverVerdict(d: Disk, d': Disk, x: Plan, sha: Bytes -> Digest, r: Result<Recovery, ActionError>)
    requires InFlight(d, x, sha) && Distinguishes(sha, x) && !At(d, x.target.journal, x.id).events.Empty()
    requires Concluded(Decide(d, x.target, x.id, sha), d, d', x.target, x.id, r)
    ensures RecoveredAs(d', x, sha, r)
  {
    var stage := StageOf(d, x, sha);
    DecideInFlight(d, x, sha);
    if Decide(d, x.target, x.id, sha).Publishes? {
      LinesWith(x, sha, stage, Decide(d, x.target, x.id, sha).suffix);
    }
  }

  /** The state of a plan is one slot and one file only. */
  lemma SameView(d: Disk, d': Disk, x: Plan, sha: Bytes -> Digest)
    requires At(d', x.target.journal, x.id) == At(d, x.target.journal, x.id)
    requires FileAt(d', x.target.file) == FileAt(d, x.target.file)
    ensures InFlight(d', x, sha) == InFlight(d, x, sha)
    ensures forall stage :: Recorded(d', x, sha, stage) == Recorded(d, x, sha, stage)
  {
  }

  lemma SameSlots(d: Disk, d': Disk)
    requires d'.journals == d.journals
    ensures forall dir, id :: At(d', dir, id) == At(d, dir, id)
  {
  }

  lemma SameRefusal(d: Disk, d': Disk, t: Target, id: string, s: Suffix, r: Record)
    requires d'.journals == d.journals && FileAt(d', t.file) == FileAt(d, t.file)
    ensures Refusal(d', t, id, s, r) == Refusal(d, t, id, s, r)
  {
    SameReads(d, d', t, id);
  }

  /** The engine's reads look at one slot and one file only. */
  lemma SameReads(d: Disk, d': Disk, t: Target, id: string)
    requires d'.journals == d.journals && FileAt(d', t.file) == FileAt(d, t.file)
    ensures ReadTarget(d', t) == ReadTarget(d, t)
    ensures ReadJournal(d', t, id) == ReadJournal(d, t, id)
  {
  }

  lemma SameTampering(d: Disk, d': Disk, t: Target, id: string)
    requires d'.journals == d.journals && FileAt(d', t.file) == FileAt(d, t.file)
    ensures Tampered(d', t, id) == Tampered(d, t, id) && ReadTarget(d', t).Ok? == ReadTarget(d, t).Ok?
  {
    SameReads(d, d', t, id);
  }

  /** Different stages leave different events. */
  lemma StagesDiffer(x: Plan, sha: Bytes -> Digest)
    ensures forall a: Stage, b: Stage :: Lines(x, sha, a) == Lines(x, sha, b) ==> a == b
  {
  }

  /** An attempt that left no event, next to a target that can be read. */
  predicate BlankAttempt(d: Disk, t: Target, id: string) {
    ValidId(id) && ReadTarget(d, t).Ok? && At(d, t.journal, id).events.Empty()
  }

  /** Nothing is left to do for plan `x`: it never began, was aborted, or was undone. */
  predicate RolledBack(d: Disk, x: Plan, sha: Bytes -> Digest) {
    || At(d, x.target.journal, x.id).events.Empty()
    || Recorded(d, x, sha, Dropped)
    || Recorded(d, x, sha, Reverted)
  }

  /** A rollback keeps a plan in flight; uninterrupted, it ends with the old bytes. */
  ghost predicate RollbackKeeps(d: Disk, d': Disk, x: Plan, sha: Bytes -> Digest, r: Result<(), ActionError>,
                                complete: bool) {
    InFlight(d, x, sha) && Distinguishes(sha, x) ==>
      && InFlight(d', x, sha)
      && (complete && !At(d, x.target.journal, x.id).events.Empty() ==>
            && Holds(d', x, x.before)
            && (r.Ok? <==> !Recorded(d, x, sha, LiveBlocked))
            && (r.Ok? ==> RolledBack(d', x, sha)))
  }

  lemma RollbackEnds(d: Disk, d1: Disk, d': Disk, x: Plan, sha: Bytes -> Digest,
                     verdict: Result<Recovery, ActionError>, r: Result<(), ActionError>, complete: bool)
    requires RecoverKeeps(d, d1, x, sha, verdict, complete) && At(d, x.target.journal, x.id).events.prepared.Some?
    requires if verdict == Ok(RecoveredApplied) then UndoKeeps(d1, d', x, sha, r.Ok?, complete)
             else d' == d1 && r == if verdict.Err? then Err(verdict.error) else Ok(())
    ensures RollbackKeeps(d, d', x, sha, r, complete)
  {
    StagesDiffer(x, sha);
    assert At(d, x.target.journal, x.id).events.Has(Prepared);
  }

  lemma RollbackTable(d: Disk, d1: Disk, d': Disk, t: Target, id: string, sha: Bytes -> Digest,
                      verdict: Result<Recovery, ActionError>, r: Result<(), ActionError>)
    requires t.journal in d.journals ==> t.journal in d1.journals
    requires FileAt(d1, t.file) == FileAt(d, t.file)
    requires RecoveredByStage(d, d1, t, id, sha, verdict, true)
    requires if verdict == Ok(RecoveredApplied) then UndoneByStage(d1, d', t, id, sha, r)
             else d' == d1 && r == if verdict.Err? then Err(verdict.error) else Ok(())
    ensures RolledBackByStage(d, d', t, id, sha, r)
  {
    forall stage, p | Journalled(d, t, id, stage, p) && BackedUp(d, t, id, sha, p)
      ensures RollsBack(d, d', t, id, sha, stage, p, r)
    {
      RollbackByStage(d, d1, d', t, id, sha, stage, p, verdict, r);
    }
  }

  lemma SameRollback(d: Disk, d1: Disk, d': Disk, t: Target, id: string, sha: Bytes -> Digest,
                     r: Result<(), ActionError>)
    requires d1.journals == d.journals && FileAt(d1, t.file) == FileAt(d, t.file)
    requires RolledBackByStage(d1, d', t, id, sha, r)
    ensures RolledBackByStage(d, d', t, id, sha, r)
  {
    forall stage, p | Journalled(d, t, id, stage, p) && BackedUp(d, t, id, sha, p)
      ensures RollsBack(d, d', t, id, sha, stage, p, r)
    {
      assert Journalled(d1, t, id, stage, p) && BackedUp(d1, t, id, sha, p);
    }
  }

  /** A plan in flight has a readable journal as soon as it has any event. */
  lemma InFlightReads(d: Disk, x: Plan, sha: Bytes -> Digest)
    ensures InFlight(d, x, sha) && !At(d, x.target.journal, x.id).events.Empty() ==>
              && ReadJournal(d, x.target, x.id).Ok?
              && !ReadJournal(d, x.target, x.id).value.Empty()
              && ValidateJournal(ReadJournal(d, x.target, x.id).value)
    ensures At(d, x.target.journal, x.id).events.Empty() && ReadJournal(d, x.target, x.id).Ok? ==>
              ReadJournal(d, x.target, x.id).value.Empty()
  {
    if InFlight(d, x, sha) && !At(d, x.target.journal, x.id).events.Empty() {
      RecordedReads(d, x, sha, StageOf(d, x, sha));
    }
  }

  /** The recovery method did what was decided, and no more. */
  predicate CarriedOut(c: Decision, d: Disk, d': Disk, t: Target, id: string, r: Result<Recovery, ActionError>) {
    match c
    case Settled(verdict) => r == Ok(verdict) && d' == d
    case Stops(error) => r == Err(error) && d' == d
    case Publishes(suffix, record, verdict) => r == Ok(verdict) && d' == Publish(d, t, id, suffix, record)
  }

  /** The verdict of a completed recovery agrees with the journal and with the bytes of the target. */
  predicate RecoveredAs(d: Disk, x: Plan, sha: Bytes -> Digest, r: Result<Recovery, ActionError>) {
    || (r == Ok(RecoveredAborted) && Recorded(d, x, sha, Dropped) && Holds(d, x, x.before))
    || (r == Ok(RecoveredUndone) && Recorded(d, x, sha, Reverted) && Holds(d, x, x.before))
    || (r == Ok(RecoveredApplied) && Recorded(d, x, sha, Live) && Holds(d, x, x.after))
    || (r == Err(Conflict) && Recorded(d, x, sha, LiveBlocked) && Holds(d, x, x.before))
  }

  /** An undo interrupted between its replacement and its event must be finished by recovery: a second
      undo finds the old bytes and records a conflict nobody caused.  From then on recovery refuses, on any
      disk with that slot and either content, and an undo finds everything in place exactly when the new
      bytes are back; having restored the old ones, it leaves a slot that recovery finds undone. */
  lemma UndoRetryIsNotRecovery(d: Disk, x: Plan, sha: Bytes -> Digest)
    requires Recorded(d, x, sha, Live) && Holds(d, x, x.before) && sha(x.before) != sha(x.after)
    ensures Decide(d, x.target, x.id, sha) == Publishes(Undone, Line(x, sha, Undone), RecoveredUndone)
    ensures UndoEvent(d, x.target, x.id, sha) == Some(UndoRefused)
    ensures Recorded(Publish(d, x.target, x.id, UndoRefused, Line(x, sha, UndoRefused)), x, sha, LiveBlocked)
    ensures forall d' :: Recorded(d', x, sha, LiveBlocked) && (Holds(d', x, x.before) || Holds(d', x, x.after)) ==>
              && Decide(d', x.target, x.id, sha) == Stops(Conflict)
              && (Undoable(d', x.target, x.id, sha) <==> Holds(d', x, x.after))
              && (Holds(d', x, x.after) ==>
                   SlotAfterUndo(d', x.target, x.id, sha) == Slot(Some(x.before), Lines(x, sha, RevertedLate)))
    ensures forall d' :: Recorded(d', x, sha, RevertedLate) && Holds(d', x, x.before) ==>
              Decide(d', x.target, x.id, sha) == Settled(RecoveredUndone)
  {
    DecideInFlight(d, x, sha);
    StagesDiffer(x, sha);
    LiveCanUndo(d, x, sha);
    LinesWith(x, sha, Live, UndoRefused);
    forall d' | Recorded(d', x, sha, LiveBlocked) && (Holds(d', x, x.before) || Holds(d', x, x.after))
      ensures Decide(d', x.target, x.id, sha) == Stops(Conflict)
      ensures Undoable(d', x.target, x.id, sha) <==> Holds(d', x, x.after)
      ensures Holds(d', x, x.after) ==>
                SlotAfterUndo(d', x.target, x.id, sha) == Slot(Some(x.before), Lines(x, sha, RevertedLate))
    {
      BlockedCanUndo(d', x, sha);
    }
    forall d' | Recorded(d', x, sha, RevertedLate) && Holds(d', x, x.before)
      ensures Decide(d', x.target, x.id, sha) == Settled(RecoveredUndone)
    {
      RecordedReads(d', x, sha, RevertedLate);
      assert Records(Lines(x, sha, RevertedLate)).Has(Undone);
    }
  }

  lemma BlockedCanUndo(d: Disk, x: Plan, sha: Bytes -> Digest)
    requires Recorded(d, x, sha, LiveBlocked) && sha(x.before) != sha(x.after)
    requires Holds(d, x, x.before) || Holds(d, x, x.after)
    ensures Decide(d, x.target, x.id, sha) == Stops(Conflict)
    ensures Undoable(d, x.target, x.id, sha) <==> Holds(d, x, x.after)
    ensures Holds(d, x, x.after) ==>
              SlotAfterUndo(d, x.target, x.id, sha) == Slot(Some(x.before), Lines(x, sha, RevertedLate))
  {
    LinesWith(x, sha, LiveBlocked, Undone);
    RecordedReads(d, x, sha, LiveBlocked);
    var records := Records(Lines(x, sha, LiveBlocked));
    assert records.Has(Applied) && records.Has(UndoRefused) && !records.Has(Undone);
  }
}
