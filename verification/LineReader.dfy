/**
 The resumable read loop shared by the transcript parsers
 (src-tauri/src/claude_parser.rs, src-tauri/src/gemini_parser.rs, `parse_to_end`):
 complete lines are consumed from a byte offset, a trailing partial line waits.
 `step` applies one line to the parser state, or gives `None` when the line is skipped.
 */
module LineReader {
  import opened Prelude

  const NEWLINE: byte := 10

  /** The offset just past the next newline; `None` when the rest is a partial line. */
  function LineEnd(file: Bytes, offset: nat): (r: Option<nat>)
    requires offset <= |file|
    ensures r.Some? ==> offset < r.value <= |file| && file[r.value - 1] == NEWLINE
    ensures r.Some? ==> forall i :: offset <= i < r.value - 1 ==> file[i] != NEWLINE
    ensures r.None? ==> forall i :: offset <= i < |file| ==> file[i] != NEWLINE
    decreases |file| - offset
  {
    if offset == |file| then None
    else if file[offset] == NEWLINE then Some(offset + 1)
    else LineEnd(file, offset + 1)
  }

  /** Parser state, the offset reached, and whether any line was applied. */
  datatype Progress<S> = Progress(state: S, offset: nat, updated: bool)

  function Consume<S>(step: (S, Bytes) -> Option<S>, file: Bytes, p: Progress<S>): (r: Progress<S>)
    requires p.offset <= |file|
    ensures p.offset <= r.offset <= |file|
    decreases |file| - p.offset
  {
    var end := LineEnd(file, p.offset);
    if end.None? then p
    else
      var next := step(p.state, file[p.offset..end.value]);
      Consume(step, file, if next.Some? then Progress(next.value, end.value, true) else p.(offset := end.value))
  }

  /** Parsing a whole file from the start. */
  function ParseAll<S>(step: (S, Bytes) -> Option<S>, initial: S, file: Bytes): Progress<S> {
    Consume(step, file, Progress(initial, 0, false))
  }

  /** The offset ends up just past the last newline: what is left is one partial line. */
  lemma {:induction false} OffsetPastLastNewline<S>(step: (S, Bytes) -> Option<S>, file: Bytes, p: Progress<S>)
    requires p.offset <= |file|
    ensures var o := Consume(step, file, p).offset;
            && (o == p.offset || file[o - 1] == NEWLINE)
            && forall i :: o <= i < |file| ==> file[i] != NEWLINE
    decreases |file| - p.offset
  {
    var end := LineEnd(file, p.offset);
    if end.Some? {
      var next := step(p.state, file[p.offset..end.value]);
      var q := if next.Some? then Progress(next.value, end.value, true) else p.(offset := end.value);
      OffsetPastLastNewline(step, file, q);
    }
  }

  /** Where the complete lines of a file end. */
  function CompleteLines(file: Bytes): (r: nat)
    ensures r <= |file| && (r == 0 || file[r - 1] == NEWLINE) && forall i :: r <= i < |file| ==> file[i] != NEWLINE
  {
    if file == [] || file[|file| - 1] == NEWLINE then |file| else CompleteLines(file[..|file| - 1])
  }

  lemma OffsetIsComplete<S>(step: (S, Bytes) -> Option<S>, initial: S, file: Bytes)
    ensures ParseAll(step, initial, file).offset == CompleteLines(file)
  {
    OffsetPastLastNewline(step, file, Progress(initial, 0, false));
  }

  /** The file has kept its complete lines, whatever was appended, or has become shorter than they were. */
  predicate Follows(file: Bytes, file': Bytes) {
    |file'| < CompleteLines(file) || file[..CompleteLines(file)] <= file'
  }

  /** Two files that agree up to the end of a line have that line in common. */
  lemma SameLine(file: Bytes, file': Bytes, offset: nat, shared: nat)
    requires offset <= |file| && shared <= |file| && shared <= |file'| && file[..shared] == file'[..shared]
    requires LineEnd(file, offset).Some? && LineEnd(file, offset).value <= shared
    ensures offset <= |file'| && LineEnd(file', offset) == LineEnd(file, offset)
    ensures file'[offset..LineEnd(file, offset).value] == file[offset..LineEnd(file, offset).value]
  {
  }

  /** Stopping and resuming on any file that keeps the consumed bytes is the same as not stopping. */
  lemma {:induction false} ResumingIsContinuing<S>(step: (S, Bytes) -> Option<S>, file: Bytes, file': Bytes,
                                                   p: Progress<S>)
    requires p.offset <= |file|
    requires var o := Consume(step, file, p).offset; o <= |file'| && file'[..o] == file[..o]
    ensures Consume(step, file', Consume(step, file, p)) == Consume(step, file', p)
    decreases |file| - p.offset
  {
    var end := LineEnd(file, p.offset);
    if end.Some? {
      var o := Consume(step, file, p).offset;
      var next := step(p.state, file[p.offset..end.value]);
      var q := if next.Some? then Progress(next.value, end.value, true) else p.(offset := end.value);
      ResumingIsContinuing(step, file, file', q);
      SameLine(file, file', p.offset, o);
    }
  }

  /** `updated` reports on one call; it does not influence parsing. */
  lemma {:induction false} UpdatedIsLocal<S>(step: (S, Bytes) -> Option<S>, file: Bytes, p: Progress<S>, flag: bool)
    requires p.offset <= |file|
    ensures var a, b := Consume(step, file, p), Consume(step, file, p.(updated := flag));
            a.state == b.state && a.offset == b.offset
    decreases |file| - p.offset
  {
    var end := LineEnd(file, p.offset);
    if end.Some? {
      var next := step(p.state, file[p.offset..end.value]);
      if next.None? {
        UpdatedIsLocal(step, file, p.(offset := end.value), flag);
      }
    }
  }

  // ----- lines as records

  /** Decode a line, then apply the record; an undecodable line is skipped. */
  function StepWith<S(!new), R(!new)>(decode: Bytes -> Option<R>, apply: (S, R) -> S): (S, Bytes) -> Option<S> {
    (s: S, line: Bytes) => if decode(line).None? then None else Some(apply(s, decode(line).value))
  }

  /** The records of the complete lines from an offset on. */
  function Records<R>(decode: Bytes -> Option<R>, file: Bytes, offset: nat): seq<R>
    requires offset <= |file|
    decreases |file| - offset
  {
    var end := LineEnd(file, offset);
    if end.None? then []
    else
      var r := decode(file[offset..end.value]);
      (if r.None? then [] else [r.value]) + Records(decode, file, end.value)
  }

  function Fold<S, R>(apply: (S, R) -> S, s: S, rs: seq<R>): S {
    if rs == [] then s else apply(Fold(apply, s, rs[..|rs| - 1]), rs[|rs| - 1])
  }

  lemma {:induction false} FoldFirst<S, R>(apply: (S, R) -> S, s: S, r: R, rs: seq<R>)
    ensures Fold(apply, s, [r] + rs) == Fold(apply, apply(s, r), rs)
  {
    if rs == [] {
      assert [r] + rs == [r] && [r][..0] == [];
    } else {
      var n := |rs| - 1;
      assert ([r] + rs)[..n + 1] == [r] + rs[..n];
      FoldFirst(apply, s, r, rs[..n]);
    }
  }

  /** Parsing a file is folding over the records of its complete lines. */
  lemma {:induction false} ParsingIsFolding<S(!new), R(!new)>(decode: Bytes -> Option<R>, apply: (S, R) -> S,
                                              file: Bytes, p: Progress<S>)
    requires p.offset <= |file|
    ensures Consume(StepWith(decode, apply), file, p).state == Fold(apply, p.state, Records(decode, file, p.offset))
    decreases |file| - p.offset
  {
    var end := LineEnd(file, p.offset);
    if end.Some? {
      var r := decode(file[p.offset..end.value]);
      var rest := Records(decode, file, end.value);
      if r.Some? {
        ParsingIsFolding(decode, apply, file, Progress(apply(p.state, r.value), end.value, true));
        FoldFirst(apply, p.state, r.value, rest);
      } else {
        ParsingIsFolding(decode, apply, file, p.(offset := end.value));
        assert [] + rest == rest;
      }
    }
  }

  /** A parser's state and the offset it has reached. */
  class Reader<S> {
    const step: (S, Bytes) -> Option<S>
    const initial: S
    var state: S
    var byteOffset: nat

    constructor (step: (S, Bytes) -> Option<S>, initial: S)
      ensures this.step == step && this.initial == initial && state == initial && byteOffset == 0
    {
      this.step, this.initial, state, byteOffset := step, initial, initial, 0;
    }

    /** The reader has consumed exactly the complete lines of this file. */
    ghost predicate CaughtUp(file: Bytes)
      reads this
    {
      var p := ParseAll(step, initial, file);
      state == p.state && byteOffset == p.offset
    }

    /** `parse_to_end`, starting over when the file has become shorter than the offset. */
    method ParseToEnd(file: Bytes) returns (updated: bool)
      modifies this
      ensures |file| < old(byteOffset) ==> Progress(state, byteOffset, updated) == ParseAll(step, initial, file)
      ensures |file| >= old(byteOffset) ==>
                Progress(state, byteOffset, updated) ==
                Consume(step, file, Progress(old(state), old(byteOffset), false))
      ensures CaughtUpFrom(old(state), old(byteOffset), file)
    {
      if |file| < byteOffset {
        state, byteOffset := initial, 0;
      }
      ghost var begin := Progress(state, byteOffset, false);
      updated := false;
      while true
        invariant byteOffset <= |file|
        invariant Consume(step, file, Progress(state, byteOffset, updated)) == Consume(step, file, begin)
        decreases |file| - byteOffset
      {
        var end := LineEnd(file, byteOffset);
        if end.None? { break; }
        var line := file[byteOffset..end.value];
        byteOffset := end.value;
        var next := step(state, line);
        if next.Some? {
          state, updated := next.value, true;
        }
      }
      if old(byteOffset) > |file| {
        assert CaughtUp(file);
      }
      CatchUp(old(state), old(byteOffset), file);
    }

    /** Whatever file the reader had caught up with: if the consumed bytes are still there, or the file has
        shrunk below them, it is now caught up with the new file. */
    ghost predicate CaughtUpFrom(state0: S, offset0: nat, file: Bytes)
      reads this
    {
      forall before: Bytes ::
        LeftAt(before, state0, offset0) && (|file| < offset0 || file[..offset0] == before[..offset0]) ==> CaughtUp(file)
    }

    ghost predicate LeftAt(file: Bytes, state0: S, offset0: nat) {
      var p := ParseAll(step, initial, file);
      p.state == state0 && p.offset == offset0
    }

    lemma CatchUp(state0: S, offset0: nat, file: Bytes)
      requires |file| < offset0 ==> CaughtUp(file)
      requires |file| >= offset0 ==>
                 var p := Consume(step, file, Progress(state0, offset0, false));
                 state == p.state && byteOffset == p.offset
      ensures CaughtUpFrom(state0, offset0, file)
    {
      forall before: Bytes | LeftAt(before, state0, offset0) &&
                             (|file| < offset0 || file[..offset0] == before[..offset0])
        ensures CaughtUp(file)
      {
        if |file| >= offset0 {
          var p := ParseAll(step, initial, before);
          ResumingIsContinuing(step, before, file, Progress(initial, 0, false));
          UpdatedIsLocal(step, file, p, false);
        }
      }
    }

    /** Any sequence of appends, cut at any byte, and of truncations or replacements by something shorter
        than what had been consumed, with a parse after each: the same as one parse of the end. */
    method FollowFile(files: seq<Bytes>)
      requires files != [] && state == initial && byteOffset == 0
      requires forall i :: 0 < i < |files| ==> Follows(files[i - 1], files[i])
      modifies this
      ensures CaughtUp(files[|files| - 1]) && byteOffset == CompleteLines(files[|files| - 1])
    {
      var _ := ParseToEnd(files[0]);
      for n := 1 to |files|
        invariant CaughtUp(files[n - 1])
      {
        OffsetIsComplete(step, initial, files[n - 1]);
        assert LeftAt(files[n - 1], state, byteOffset);
        assert Follows(files[n - 1], files[n]);
        var _ := ParseToEnd(files[n]);
      }
      OffsetIsComplete(step, initial, files[|files| - 1]);
    }
  }
}
