/**
 The history of a run of the action engine: what other programs wrote and when, what the
 engine replaced and why it was entitled to, and which bytes must therefore still be there
 (src-tauri/src/action_executor.rs).
 */
module ActionHistory {
  import opened Prelude
  import opened ActionJournal

  datatype Kind = ForApply | ForUndo

  /** What other programs do to the files in one go. */
  datatype Edits = Edits(removed: set<string>, written: map<string, Bytes>)

  /** One change of target bytes: by other programs, or by the engine for one action. */
  datatype Change =
    | External(edits: Edits)
    | Replaced(path: string, journal: string, id: string, kind: Kind, before: Bytes, after: Bytes)

  // ----- changes and their warrants

  function FileIn(files: map<string, Bytes>, path: string): Option<Bytes> {
    FileAt(Disk(files, map[]), path)
  }

  function Edit(files: map<string, Bytes>, edits: Edits): map<string, Bytes> {
    (files - edits.removed) + edits.written
  }

  function Perform(files: map<string, Bytes>, c: Change): map<string, Bytes> {
    match c
    case External(edits) => Edit(files, edits)
    case Replaced(path, _, _, _, _, after) => files[path := after]
  }

  ghost function Replay(start: map<string, Bytes>, trace: seq<Change>): map<string, Bytes> {
    if trace == [] then start else Perform(Replay(start, trace[..|trace| - 1]), trace[|trace| - 1])
  }

  /** The engine may overwrite `before` with `after` on behalf of this action: the journal says so. */
  ghost predicate Warranted(d: Disk, sha: Bytes -> Digest, dir: string, id: string, kind: Kind,
                            expected: string, after: Bytes) {
    var slot := At(d, dir, id);
    && slot.backup.Some?
    && slot.events.prepared.Some?
    && slot.events.prepared.value.Readable?
    && var r := slot.events.prepared.value.record;
    && sha(slot.backup.value) == r.before
    && (kind.ForApply? ==> expected == r.before && sha(after) == r.after)
    && (kind.ForUndo? ==> expected == r.after && after == slot.backup.value)
  }

  /** Every engine replacement in the trace overwrote exactly the bytes it names, with a warrant. */
  ghost predicate Traced(start: map<string, Bytes>, trace: seq<Change>, d: Disk, sha: Bytes -> Digest) {
    && d.files == Replay(start, trace)
    && forall i :: 0 <= i < |trace| && trace[i].Replaced? ==>
         && FileIn(Replay(start, trace[..i]), trace[i].path) == Some(trace[i].before)
         && Warranted(d, sha, trace[i].journal, trace[i].id, trace[i].kind, sha(trace[i].before), trace[i].after)
  }

  ghost predicate SlotGrows(old': Slot, new': Slot) {
    && (old'.backup.Some? ==> new'.backup == old'.backup)
    && forall s :: old'.events.Has(s) ==> new'.events.Get(s) == old'.events.Get(s)
  }

  ghost predicate Sound(d: Disk) {
    forall dir, id :: SlotSound(id, At(d, dir, id))
  }

  lemma ReplayAppend(start: map<string, Bytes>, trace: seq<Change>, c: Change)
    ensures (trace + [c])[..|trace|] == trace
    ensures forall i :: 0 <= i <= |trace| ==> (trace + [c])[..i] == trace[..i]
    ensures Replay(start, trace + [c]) == Perform(Replay(start, trace), c)
  {
  }

  /** Warrants never expire, because slots only grow. */
  lemma TracedGrows(start: map<string, Bytes>, trace: seq<Change>, d: Disk, d': Disk, sha: Bytes -> Digest)
    requires Traced(start, trace, d, sha)
    requires d'.files == d.files
    requires forall dir, id :: SlotGrows(At(d, dir, id), At(d', dir, id))
    ensures Traced(start, trace, d', sha)
  {
    forall i | 0 <= i < |trace| && trace[i].Replaced?
      ensures Warranted(d', sha, trace[i].journal, trace[i].id, trace[i].kind, sha(trace[i].before), trace[i].after)
    {
      var slot := At(d, trace[i].journal, trace[i].id);
      assert SlotGrows(slot, At(d', trace[i].journal, trace[i].id));
      assert slot.events.Has(Prepared);
    }
  }

  /** One more change, with a warrant if it is the engine's. */
  lemma TracedAppend(start: map<string, Bytes>, trace: seq<Change>, d: Disk, sha: Bytes -> Digest, c: Change)
    requires Traced(start, trace, d, sha)
    requires c.Replaced? ==>
               && FileAt(d, c.path) == Some(c.before)
               && Warranted(d, sha, c.journal, c.id, c.kind, sha(c.before), c.after)
    ensures Traced(start, trace + [c], d.(files := Perform(d.files, c)), sha)
  {
    var d' := d.(files := Perform(d.files, c));
    ReplayAppend(start, trace, c);
    assert forall dir, id :: At(d', dir, id) == At(d, dir, id);
    forall i | 0 <= i < |trace + [c]| && (trace + [c])[i].Replaced?
      ensures var e := (trace + [c])[i];
              && FileIn(Replay(start, (trace + [c])[..i]), e.path) == Some(e.before)
              && Warranted(d', sha, e.journal, e.id, e.kind, sha(e.before), e.after)
    {
      assert (trace + [c])[..i] == trace[..i];
      if i == |trace| {
        assert trace[..i] == trace;
      }
    }
  }

  // ----- the history of a run

  /** The paths a schedule of edits touches. */
  function Written(schedule: seq<Edits>): set<string> {
    if schedule == [] then {} else schedule[0].removed + schedule[0].written.Keys + Written(schedule[1..])
  }

  /** What other programs have written, in order. */
  ghost function Foreign(trace: seq<Change>): seq<Edits> {
    if trace == [] then []
    else
      var c := trace[|trace| - 1];
      Foreign(trace[..|trace| - 1]) + if c.External? then [c.edits] else []
  }

  /** Everything a run is made of: what other programs have been scheduled to write from the start and
      still will, what has happened to the files, and the disk by now. */
  datatype History = History(
    sha: Bytes -> Digest, start: map<string, Bytes>, scheduled: seq<Edits>,
    schedule: seq<Edits>, trace: seq<Change>, disk: Disk)

  /** The trace explains the files; it holds other programs' edits exactly as scheduled so far, and
      replacements of the engine that its journals warrant, and nothing else. */
  ghost predicate Accounted(h: History) {
    && Traced(h.start, h.trace, h.disk, h.sha)
    && Foreign(h.trace) + h.schedule == h.scheduled
  }

  /** Leave to replace one file for one action, while its content has the expected hash. */
  datatype Licence = Licence(file: string, journal: string, id: string, kind: Kind, expected: string)

  /** Other programs' turn: the next scheduled edits. */
  ghost predicate TakesTurn(h: History, h': History) {
    && h.schedule != []
    && h' == h.(schedule := h.schedule[1..], trace := h.trace + [External(h.schedule[0])],
                disk := h.disk.(files := Edit(h.disk.files, h.schedule[0])))
  }

  /** Only journals change, and only by growing. */
  ghost predicate Logs(h: History, h': History) {
    && h' == h.(disk := h'.disk)
    && h'.disk.files == h.disk.files
    && (forall dir, id :: SlotGrows(At(h.disk, dir, id), At(h'.disk, dir, id)))
    && (Sound(h.disk) ==> Sound(h'.disk))
  }

  /** The engine replaces a file whose content has the expected hash, with a warrant and under a licence. */
  ghost predicate Replaces(h: History, h': History, c: Change, licences: set<Licence>) {
    && c.Replaced? && FileAt(h.disk, c.path) == Some(c.before)
    && Warranted(h.disk, h.sha, c.journal, c.id, c.kind, h.sha(c.before), c.after)
    && Licence(c.path, c.journal, c.id, c.kind, h.sha(c.before)) in licences
    && h' == h.(trace := h.trace + [c], disk := h.disk.(files := h.disk.files[c.path := c.after]))
  }

  ghost predicate Moves(h: History, h': History, licences: set<Licence>) {
    TakesTurn(h, h') || Logs(h, h') || exists c :: Replaces(h, h', c, licences)
  }

  /** A run from one history to another: any number of moves of the engine and of other programs. */
  ghost predicate Run(hs: seq<History>, h: History, h': History, licences: set<Licence>) {
    && hs != [] && hs[0] == h && hs[|hs| - 1] == h'
    && forall i :: 0 < i < |hs| ==> Moves(hs[i - 1], hs[i], licences)
  }

  /** What every operation does: it continues the run, and replaces files only under the licences given. */
  ghost predicate Continues(h: History, h': History, licences: set<Licence>) {
    exists hs :: Run(hs, h, h', licences)
  }

  lemma Stays(h: History, licences: set<Licence>)
    ensures Continues(h, h, licences)
  {
    assert Run([h], h, h, licences);
  }

  lemma OneMove(h: History, h': History, licences: set<Licence>)
    requires Moves(h, h', licences)
    ensures Continues(h, h', licences)
  {
    assert Run([h, h'], h, h', licences);
  }

  lemma MoreLicences(h: History, h': History, few: set<Licence>, more: set<Licence>)
    requires Moves(h, h', few) && few <= more
    ensures Moves(h, h', more)
  {
    if c :| Replaces(h, h', c, few) {
      assert Replaces(h, h', c, more);
    }
  }

  lemma ContinuesOn(a: History, b: History, c: History, first: set<Licence>, second: set<Licence>,
                    licences: set<Licence>)
    requires Continues(a, b, first) && Continues(b, c, second) && first <= licences && second <= licences
    ensures Continues(a, c, licences)
  {
    var hs :| Run(hs, a, b, first);
    var gs :| Run(gs, b, c, second);
    var all := hs + gs[1..];
    forall i | 0 < i < |all| ensures Moves(all[i - 1], all[i], licences) {
      if i < |hs| {
        MoreLicences(hs[i - 1], hs[i], first, licences);
      } else {
        var j := i - |hs| + 1;
        assert all[i] == gs[j] && all[i - 1] == gs[j - 1];
        MoreLicences(gs[j - 1], gs[j], second, licences);
      }
    }
    assert Run(all, a, c, licences);
  }

  // ----- what holds of every run

  /** The past stays, what other programs do comes from the schedule, and every replacement since `h` had a licence. */
  ghost predicate Licensed(h: History, h': History, licences: set<Licence>) {
    && h'.sha == h.sha && h'.start == h.start && h'.scheduled == h.scheduled
    && h.trace <= h'.trace
    && Foreign(h'.trace[|h.trace|..]) + h'.schedule == h.schedule
    && AllLicensed(h'.trace, |h.trace|, h.sha, licences)
  }

  ghost predicate AllLicensed(trace: seq<Change>, from: nat, sha: Bytes -> Digest, licences: set<Licence>) {
    forall i :: from <= i < |trace| ==> UnderLicence(trace[i], sha, licences)
  }

  predicate UnderLicence(c: Change, sha: Bytes -> Digest, licences: set<Licence>) {
    c.Replaced? ==> Licence(c.path, c.journal, c.id, c.kind, sha(c.before)) in licences
  }

  lemma OneMoreLicensed(trace: seq<Change>, c: Change, from: nat, sha: Bytes -> Digest, licences: set<Licence>)
    requires AllLicensed(trace, from, sha, licences) && UnderLicence(c, sha, licences)
    ensures AllLicensed(trace + [c], from, sha, licences)
  {
    assert forall i :: 0 <= i < |trace| ==> (trace + [c])[i] == trace[i];
  }

  lemma TurnAccounted(h: History, h': History)
    requires TakesTurn(h, h') && Accounted(h)
    ensures Accounted(h')
  {
    var c := External(h.schedule[0]);
    assert h'.trace[..|h.trace|] == h.trace;
    TracedAppend(h.start, h.trace, h.disk, h.sha, c);
    assert Foreign(h'.trace) == Foreign(h.trace) + [c.edits];
  }

  lemma ReplacementAccounted(h: History, h': History, c: Change, licences: set<Licence>)
    requires Replaces(h, h', c, licences) && Accounted(h)
    ensures Accounted(h')
  {
    assert h'.trace[..|h.trace|] == h.trace;
    TracedAppend(h.start, h.trace, h.disk, h.sha, c);
    assert Foreign(h'.trace) == Foreign(h.trace) + [];
  }

  lemma MoveAccounted(h: History, h': History, licences: set<Licence>)
    requires Moves(h, h', licences) && Accounted(h)
    ensures Accounted(h')
  {
    if TakesTurn(h, h') {
      TurnAccounted(h, h');
    } else if Logs(h, h') {
      TracedGrows(h.start, h.trace, h.disk, h'.disk, h.sha);
    } else {
      var c :| Replaces(h, h', c, licences);
      ReplacementAccounted(h, h', c, licences);
    }
  }

  lemma MoveSound(h: History, h': History, licences: set<Licence>)
    requires Moves(h, h', licences) && Sound(h.disk)
    ensures Sound(h'.disk)
  {
    if !Logs(h, h') {
      assert forall dir, id :: At(h'.disk, dir, id) == At(h.disk, dir, id);
    }
  }

  /** Every run keeps its past, remains accounted for, keeps its journals sound, and replaces under licence only. */
  lemma {:induction false} RunFacts(hs: seq<History>, h: History, h': History, licences: set<Licence>)
    requires Run(hs, h, h', licences)
    ensures Licensed(h, h', licences)
    ensures Accounted(h) ==> Accounted(h')
    ensures Sound(h.disk) ==> Sound(h'.disk)
  {
    var n := |hs| - 1;
    if n > 0 {
      var before := hs[n - 1];
      RunFacts(hs[..n], h, before, licences);
      assert Moves(before, h', licences);
      if Accounted(h) { MoveAccounted(before, h', licences); }
      if Sound(h.disk) { MoveSound(before, h', licences); }
      MoveLicensed(h, before, h', licences);
    }
  }

  lemma ChangeLicensed(h: History, before: History, h': History, c: Change, licences: set<Licence>)
    requires Licensed(h, before, licences)
    requires h' == before.(trace := before.trace + [c], schedule := h'.schedule, disk := h'.disk)
    requires c.External? ==> before.schedule == [c.edits] + h'.schedule
    requires c.Replaced? ==> before.schedule == h'.schedule && UnderLicence(c, h.sha, licences)
    ensures Licensed(h, h', licences)
  {
    OneMoreLicensed(before.trace, c, |h.trace|, h.sha, licences);
    OneMoreForeign(before.trace, c, |h.trace|, before.schedule, h'.schedule);
  }

  lemma OneMoreForeign(trace: seq<Change>, c: Change, from: nat, before: seq<Edits>, after: seq<Edits>)
    requires from <= |trace| && before == (if c.External? then [c.edits] else []) + after
    ensures Foreign((trace + [c])[from..]) + after == Foreign(trace[from..]) + before
  {
    assert (trace + [c])[from..] == trace[from..] + [c];
    ForeignGrows(trace[from..], c);
  }

  lemma MoveLicensed(h: History, before: History, h': History, licences: set<Licence>)
    requires Licensed(h, before, licences) && Moves(before, h', licences)
    ensures Licensed(h, h', licences)
  {
    if TakesTurn(before, h') {
      ChangeLicensed(h, before, h', External(before.schedule[0]), licences);
    } else if Logs(before, h') {
      assert h'.trace == before.trace && h'.schedule == before.schedule;
    } else {
      var c :| Replaces(before, h', c, licences);
      ChangeLicensed(h, before, h', c, licences);
    }
  }

  lemma ForeignGrows(trace: seq<Change>, c: Change)
    ensures Foreign(trace + [c]) == Foreign(trace) + if c.External? then [c.edits] else []
  {
    assert (trace + [c])[..|trace|] == trace;
  }

  lemma ContinuesFacts(h: History, h': History, licences: set<Licence>)
    requires Continues(h, h', licences)
    ensures Licensed(h, h', licences)
    ensures Accounted(h) ==> Accounted(h')
    ensures Sound(h.disk) ==> Sound(h'.disk)
  {
    var hs :| Run(hs, h, h', licences);
    RunFacts(hs, h, h', licences);
  }

  // ----- bytes other programs wrote

  ghost predicate Touches(c: Change, path: string) {
    c.External? && (path in c.edits.removed || path in c.edits.written)
  }

  /** Other programs have left the file alone since the `n`th change. */
  ghost predicate LeftAlone(trace: seq<Change>, n: nat, path: string) {
    forall i :: n <= i < |trace| ==> !Touches(trace[i], path)
  }

  ghost predicate HeldAt(h: History, n: nat, path: string, bytes: Bytes)
    requires n <= |h.trace|
  {
    FileIn(Replay(h.start, h.trace[..n]), path) == Some(bytes)
  }

  /** If the file held these bytes at any moment since the `from`th change, and other programs have left
      it alone from then on, it still holds them. */
  ghost predicate Spares(h: History, from: nat, path: string, bytes: Bytes) {
    forall n :: from <= n <= |h.trace| && HeldAt(h, n, path, bytes) && LeftAlone(h.trace, n, path) ==>
                  FileAt(h.disk, path) == Some(bytes)
  }

  ghost predicate EngineOverwrites(c: Change, d: Disk, sha: Bytes -> Digest, path: string, bytes: Bytes) {
    && c.Replaced?
    && c.path == path
    && c.before == bytes
    && Warranted(d, sha, c.journal, c.id, c.kind, sha(bytes), c.after)
  }

  lemma OneChange(h: History, n: nat, path: string, bytes: Bytes)
    requires Accounted(h) && n < |h.trace| && HeldAt(h, n, path, bytes) && !Touches(h.trace[n], path)
    ensures HeldAt(h, n + 1, path, bytes) || EngineOverwrites(h.trace[n], h.disk, h.sha, path, bytes)
  {
    assert h.trace[..n + 1] == h.trace[..n] + [h.trace[n]];
    ReplayAppend(h.start, h.trace[..n], h.trace[n]);
  }

  /** Bytes in a file stay there until another program writes the file, or the engine replaces exactly
      those bytes under a warrant naming their hash. */
  lemma {:induction false} ExternalBytesKept(h: History, from: nat, path: string, bytes: Bytes)
    requires Accounted(h)
    requires from <= |h.trace| && HeldAt(h, from, path, bytes) && LeftAlone(h.trace, from, path)
    ensures FileAt(h.disk, path) == Some(bytes) ||
            exists i :: from <= i < |h.trace| && EngineOverwrites(h.trace[i], h.disk, h.sha, path, bytes)
    decreases |h.trace| - from
  {
    if from == |h.trace| {
      assert h.trace[..|h.trace|] == h.trace;
    } else {
      OneChange(h, from, path, bytes);
      if HeldAt(h, from + 1, path, bytes) {
        ExternalBytesKept(h, from + 1, path, bytes);
      }
    }
  }

  /** Bytes that no licence covers. */
  ghost predicate Uncovered(licences: set<Licence>, path: string, hash: string) {
    forall l :: l in licences && l.file == path ==> l.expected != hash
  }

  /** Over any stretch of any run, bytes that no licence covers survive, whoever wrote them and whenever. */
  lemma ForeignBytesSpared(h: History, h': History, licences: set<Licence>, path: string, bytes: Bytes)
    requires Accounted(h) && Continues(h, h', licences) && Uncovered(licences, path, h.sha(bytes))
    ensures Spares(h', |h.trace|, path, bytes)
  {
    ContinuesFacts(h, h', licences);
    forall n | |h.trace| <= n <= |h'.trace| && HeldAt(h', n, path, bytes) && LeftAlone(h'.trace, n, path)
      ensures FileAt(h'.disk, path) == Some(bytes)
    {
      ExternalBytesKept(h', n, path, bytes);
    }
  }

  lemma {:induction false} WrittenHolds(schedule: seq<Edits>, e: Edits)
    requires e in schedule
    ensures e.removed <= Written(schedule) && e.written.Keys <= Written(schedule)
  {
    if e != schedule[0] {
      WrittenHolds(schedule[1..], e);
    }
  }

  lemma {:induction false} ForeignHolds(trace: seq<Change>, i: nat)
    requires i < |trace| && trace[i].External?
    ensures trace[i].edits in Foreign(trace)
  {
    if i < |trace| - 1 {
      ForeignHolds(trace[..|trace| - 1], i);
    }
  }

  /** A path that other programs are not scheduled to write is left alone. */
  lemma UnexposedLeftAlone(h: History, h': History, licences: set<Licence>, path: string)
    requires Continues(h, h', licences) && path !in Written(h.schedule)
    ensures |h.trace| <= |h'.trace| && LeftAlone(h'.trace, |h.trace|, path)
  {
    ContinuesFacts(h, h', licences);
    var more := h'.trace[|h.trace|..];
    forall i | |h.trace| <= i < |h'.trace| ensures !Touches(h'.trace[i], path) {
      assert more[i - |h.trace|] == h'.trace[i];
      ScheduledElsewhere(more, h'.schedule, h.schedule, i - |h.trace|, path);
    }
  }

  lemma ScheduledElsewhere(more: seq<Change>, rest: seq<Edits>, schedule: seq<Edits>, i: nat, path: string)
    requires Foreign(more) + rest == schedule && i < |more| && path !in Written(schedule)
    ensures !Touches(more[i], path)
  {
    if more[i].External? {
      ForeignHolds(more, i);
      assert more[i].edits in Foreign(more) + rest;
      WrittenHolds(schedule, more[i].edits);
    }
  }

  /** Undisturbed, bytes that no licence covers are still there. */
  lemma UndisturbedBytesKept(h: History, h': History, licences: set<Licence>, path: string, bytes: Bytes)
    requires Accounted(h) && Continues(h, h', licences) && path !in Written(h.schedule)
    requires FileAt(h.disk, path) == Some(bytes) && Uncovered(licences, path, h.sha(bytes))
    ensures FileAt(h'.disk, path) == Some(bytes)
  {
    ForeignBytesSpared(h, h', licences, path, bytes);
    UnexposedLeftAlone(h, h', licences, path);
    ContinuesFacts(h, h', licences);
    assert h'.trace[..|h.trace|] == h.trace;
  }
}
