/**
 The immutable per-action journal of the write-ahead action engine
 (src-tauri/src/action_executor.rs): event records, the validation of one event,
 the validation of a whole event map, and the on-disk store that holds target
 files, backups and events.
 */
module ActionJournal {
  import opened Prelude

  const MAX_TARGET_BYTES := 128 * 1024
  const JOURNAL_VERSION := 1
  const ACTION_VERSION := 1

  datatype ActionError = Conflict | UnsafeTarget | InvalidJournal | Interrupted | Io

  /** The six event files an action id may own. */
  datatype Suffix = Prepared | Applied | Aborted | Refused | UndoRefused | Undone

  datatype JournalResult = ResultPrepared | ResultApplied | ResultAborted | ResultConflict

  datatype UndoState = NotApplied | Available | AlreadyUndone | BlockedExternalEdit

  datatype Record = Record(
    version: nat,
    actionId: string,
    actionVersion: nat,
    redactedTarget: string,
    sourceRevision: string,
    before: string,
    after: string,
    result: JournalResult,
    undoState: UndoState)

  datatype Target = Target(file: string, journal: string, identity: string)

  /** An event file as found on disk: a decoded record, or bytes that do not decode. */
  datatype Entry = Readable(record: Record) | Unreadable

  /** At most one value for each of the six suffixes. */
  datatype Events<T> = Events(
    prepared: Option<T>, applied: Option<T>, aborted: Option<T>,
    refused: Option<T>, undoRefused: Option<T>, undone: Option<T>)
  {
    function Get(s: Suffix): Option<T> {
      match s
      case Prepared => prepared
      case Applied => applied
      case Aborted => aborted
      case Refused => refused
      case UndoRefused => undoRefused
      case Undone => undone
    }

    predicate Has(s: Suffix) {
      Get(s).Some?
    }

    function With(s: Suffix, v: T): (r: Events<T>)
      ensures r.Get(s) == Some(v)
      ensures forall s' :: s' != s ==> r.Get(s') == Get(s')
    {
      match s
      case Prepared => this.(prepared := Some(v))
      case Applied => this.(applied := Some(v))
      case Aborted => this.(aborted := Some(v))
      case Refused => this.(refused := Some(v))
      case UndoRefused => this.(undoRefused := Some(v))
      case Undone => this.(undone := Some(v))
    }

    predicate Empty() {
      this == Events(None, None, None, None, None, None)
    }
  }

  /** What one journal directory holds for one action id. */
  datatype Slot = Slot(backup: Option<Bytes>, events: Events<Entry>)

  const EMPTY_SLOT := Slot(None, Events(None, None, None, None, None, None))

  /** A journal directory exists exactly when it is a key of `journals`. */
  datatype Disk = Disk(files: map<string, Bytes>, journals: map<string, map<string, Slot>>)

  // ----- field checks

  predicate IsHexDigit(c: char) {
    '0' <= c <= '9' || 'a' <= c <= 'f' || 'A' <= c <= 'F'
  }

  predicate ValidId(id: string) {
    && |id| == 58
    && id[32] == '-'
    && id[41] == '-'
    && forall i :: 0 <= i < |id| && i != 32 && i != 41 ==> IsHexDigit(id[i])
  }

  predicate CanonicalHash(value: string) {
    |value| == 64 && forall i :: 0 <= i < |value| ==> '0' <= value[i] <= '9' || 'a' <= value[i] <= 'f'
  }

  /** The text of a hash: 64 lower-case hexadecimal digits. */
  type Digest = s: string | CanonicalHash(s) witness seq(64, _ => '0')

  predicate IsControl(c: char) {
    c as int < 0x20 || 0x7f <= c as int <= 0x9f
  }

  /** Non-empty, at most 128 long, no control character. */
  predicate PlainLabel(s: string) {
    0 < |s| <= 128 && forall i :: 0 <= i < |s| ==> !IsControl(s[i])
  }

  // ----- validation

  function Expected(suffix: Suffix): (JournalResult, UndoState) {
    match suffix
    case Prepared => (ResultPrepared, NotApplied)
    case Applied => (ResultApplied, Available)
    case Aborted => (ResultAborted, NotApplied)
    case Refused => (ResultConflict, BlockedExternalEdit)
    case UndoRefused => (ResultConflict, BlockedExternalEdit)
    case Undone => (ResultApplied, AlreadyUndone)
  }

  predicate ValidateEvent(identity: string, id: string, suffix: Suffix, r: Record) {
    && r.version == JOURNAL_VERSION
    && r.actionVersion == ACTION_VERSION
    && r.actionId == id
    && ValidId(id)
    && r.redactedTarget == identity
    && PlainLabel(r.sourceRevision)
    && CanonicalHash(r.before)
    && CanonicalHash(r.after)
    && (r.result, r.undoState) == Expected(suffix)
  }

  /** Two records describe the same transaction: they differ in result and undo state only. */
  predicate SameTransaction(r: Record, p: Record) {
    r == p.(result := r.result, undoState := r.undoState)
  }

  predicate ValidateJournal(events: Events<Record>) {
    && events.prepared.Some?
    && (forall s :: events.Has(s) ==> SameTransaction(events.Get(s).value, events.prepared.value))
    && Coherent(events)
  }

  /** No contradictory terminal events, and no undo event without an applied one. */
  predicate Coherent(events: Events<Record>) {
    && !(events.aborted.Some? && events.refused.Some?)
    && !(events.applied.Some? && (events.aborted.Some? || events.refused.Some?))
    && !(events.applied.None? && (events.undoRefused.Some? || events.undone.Some?))
  }

  /** The life cycle of an action, by the events it has written down. */
  datatype Stage =
    | Fresh         // nothing
    | Pending       // prepared
    | Dropped       // prepared, aborted
    | Blocked       // prepared, conflict
    | Live          // prepared, applied
    | LiveBlocked   // prepared, applied, undo-conflict
    | Reverted      // prepared, applied, undone
    | RevertedLate  // prepared, applied, undo-conflict, undone

  predicate Marks(stage: Stage, s: Suffix) {
    match s
    case Prepared => !stage.Fresh?
    case Applied => stage.Live? || stage.LiveBlocked? || stage.Reverted? || stage.RevertedLate?
    case Aborted => stage.Dropped?
    case Refused => stage.Blocked?
    case UndoRefused => stage.LiveBlocked? || stage.RevertedLate?
    case Undone => stage.Reverted? || stage.RevertedLate?
  }

  ghost predicate AtStage<T(!new)>(events: Events<T>, stage: Stage) {
    forall s :: events.Has(s) <==> Marks(stage, s)
  }

  /** The negative checks of `ValidateJournal` leave exactly the seven life cycles that began. */
  lemma ValidJournalsAreLifeCycles(events: Events<Record>)
    ensures ValidateJournal(events) <==>
            && (exists stage: Stage :: !stage.Fresh? && AtStage(events, stage))
            && events.prepared.Some?
            && forall s :: events.Has(s) ==> SameTransaction(events.Get(s).value, events.prepared.value)
  {
    if ValidateJournal(events) {
      var stage :=
        if events.applied.None? then
          if events.aborted.Some? then Dropped else if events.refused.Some? then Blocked else Pending
        else if events.undone.None? then
          if events.undoRefused.Some? then LiveBlocked else Live
        else
          if events.undoRefused.Some? then RevertedLate else Reverted;
      assert AtStage(events, stage);
    }
    forall stage: Stage | !stage.Fresh? && AtStage(events, stage)
      ensures events.prepared.Some? && Coherent(events)
    {
      assert events.Has(Prepared) <==> Marks(stage, Prepared);
      assert events.Has(Applied) <==> Marks(stage, Applied);
      assert events.Has(Aborted) <==> Marks(stage, Aborted);
      assert events.Has(Refused) <==> Marks(stage, Refused);
      assert events.Has(UndoRefused) <==> Marks(stage, UndoRefused);
      assert events.Has(Undone) <==> Marks(stage, Undone);
    }
  }

  // ----- the disk

  function At(d: Disk, dir: string, id: string): Slot {
    if dir in d.journals && id in d.journals[dir] then d.journals[dir][id] else EMPTY_SLOT
  }

  function Put(d: Disk, dir: string, id: string, slot: Slot): (r: Disk)
    ensures r.files == d.files
    ensures At(r, dir, id) == slot
    ensures forall dir', id' :: (dir', id') != (dir, id) ==> At(r, dir', id') == At(d, dir', id')
  {
    var ids := if dir in d.journals then d.journals[dir] else map[];
    d.(journals := d.journals[dir := ids[id := slot]])
  }

  /** `ensure_journal_dir`: creates the directory when it is missing. */
  function MakeDir(d: Disk, dir: string): (r: Disk)
    ensures r.files == d.files && dir in r.journals
    ensures forall dir', id' :: At(r, dir', id') == At(d, dir', id')
  {
    if dir in d.journals then d else d.(journals := d.journals[dir := map[]])
  }

  function FileAt(d: Disk, path: string): Option<Bytes> {
    if path in d.files then Some(d.files[path]) else None
  }

  /** `checked_target` followed by the bounded read. */
  function ReadTarget(d: Disk, t: Target): Result<Bytes, ActionError> {
    if t.file !in d.files then Err(Io)
    else if |d.files[t.file]| > MAX_TARGET_BYTES || !PlainLabel(t.identity) then Err(UnsafeTarget)
    else Ok(d.files[t.file])
  }

  function RecordOf(entry: Option<Entry>): Option<Record> {
    if entry.Some? && entry.value.Readable? then Some(entry.value.record) else None
  }

  /** The decoded events; only meaningful when every event is readable. */
  function Records(events: Events<Entry>): (r: Events<Record>)
    ensures forall s :: r.Get(s) == RecordOf(events.Get(s))
  {
    Events(RecordOf(events.prepared), RecordOf(events.applied), RecordOf(events.aborted),
           RecordOf(events.refused), RecordOf(events.undoRefused), RecordOf(events.undone))
  }

  predicate EventsReadable(identity: string, id: string, events: Events<Entry>) {
    forall s :: events.Has(s) ==>
                  && events.Get(s).value.Readable?
                  && ValidateEvent(identity, id, s, events.Get(s).value.record)
  }

  function ReadJournal(d: Disk, t: Target, id: string): Result<Events<Record>, ActionError> {
    if !ValidId(id) then Err(InvalidJournal)
    else if t.journal !in d.journals then Ok(Events(None, None, None, None, None, None))
    else if ReadTarget(d, t).Err? then Err(ReadTarget(d, t).error)
    else
      var events := At(d, t.journal, id).events;
      if EventsReadable(t.identity, id, events) then Ok(Records(events)) else Err(InvalidJournal)
  }

  /** `read_backup`, after `checked_target`: bounded, and its hash must be the recorded one. */
  function ReadBackup(d: Disk, t: Target, r: Record, sha: Bytes -> Digest): Result<Bytes, ActionError> {
    if ReadTarget(d, t).Err? then Err(ReadTarget(d, t).error)
    else match At(d, t.journal, r.actionId).backup
      case None => Err(Io)
      case Some(bytes) =>
        if |bytes| > MAX_TARGET_BYTES || sha(bytes) != r.before then Err(InvalidJournal) else Ok(bytes)
  }

  /** An event map that the engine refuses: an undecodable or invalid event, or an impossible set of events. */
  predicate Tampered(d: Disk, t: Target, id: string) {
    var events := At(d, t.journal, id).events;
    && !events.Empty()
    && (EventsReadable(t.identity, id, events) ==> !ValidateJournal(Records(events)))
  }

  /** A slot that only the engine has written: no events yet, or a valid journal. */
  predicate SlotSound(id: string, slot: Slot) {
    slot.events.Empty() ||
    (&& slot.events.prepared.Some?
     && slot.events.prepared.value.Readable?
     && EventsReadable(slot.events.prepared.value.record.redactedTarget, id, slot.events)
     && ValidateJournal(Records(slot.events)))
  }
}
