/**
 Project scopes of correlated events (src-tauri/src/correlation.rs): path
 normalization, plain prefix scopes, and redacted scopes that only carry a hash.
 */
module Scopes {
  import opened Prelude

  const PROJECT_PREFIX := "project:"

  // ----- normalization

  function SlashChar(c: char): char {
    if c == '\\' then '/' else c
  }

  function LowerChar(c: char): char {
    if 'A' <= c <= 'Z' then (c as int + 32) as char else c
  }

  function MapChars(f: char -> char, s: string): (r: string)
    ensures |r| == |s|
    ensures forall i :: 0 <= i < |s| ==> r[i] == f(s[i])
  {
    seq(|s|, i requires 0 <= i < |s| => f(s[i]))
  }

  /** `trim_end_matches('/')`. */
  function TrimEnd(s: string): (r: string)
    ensures r <= s
    ensures r != [] ==> r[|r| - 1] != '/'
    ensures forall i :: |r| <= i < |s| ==> s[i] == '/'
  {
    if s != [] && s[|s| - 1] == '/' then TrimEnd(s[..|s| - 1]) else s
  }

  /** `normalized_scope`. */
  function Normalize(value: string): string {
    MapChars(LowerChar, TrimEnd(MapChars(SlashChar, value)))
  }

  /** No upper-case letter and no backslash. */
  predicate Plain(s: string) {
    forall i :: 0 <= i < |s| ==> !('A' <= s[i] <= 'Z') && s[i] != '\\'
  }

  predicate NoTrailingSlash(s: string) {
    s != [] ==> s[|s| - 1] != '/'
  }

  lemma NormalizeGivesPlain(value: string)
    ensures Plain(Normalize(value)) && NoTrailingSlash(Normalize(value))
  {
  }

  /** On a plain string only trailing slashes are left to remove. */
  lemma NormalizePlain(s: string)
    requires Plain(s)
    ensures Normalize(s) == TrimEnd(s)
  {
  }

  lemma NormalizeIdempotent(value: string)
    ensures Normalize(Normalize(value)) == Normalize(value)
  {
  }

  // ----- scopes

  function Identity(hash: string -> string, value: string): string {
    PROJECT_PREFIX + hash(Normalize(value))
  }

  /** The normalized path is the scope itself or lies below it. */
  predicate Within(path: string, scope: string) {
    path == scope || scope + "/" <= path
  }

  /** A place where the truncating loop stops: the end, or just before a slash. */
  predicate Cut(path: string, n: nat) {
    n == |path| || (n < |path| && path[n] == '/')
  }

  function LastSlash(s: string): (r: Option<nat>)
    ensures r.Some? ==> r.value < |s| && s[r.value] == '/' && forall i :: r.value < i < |s| ==> s[i] != '/'
    ensures r.None? ==> forall i :: 0 <= i < |s| ==> s[i] != '/'
  {
    if s == [] then None
    else if s[|s| - 1] == '/' then Some(|s| - 1)
    else LastSlash(s[..|s| - 1])
  }

  /** The path cut at `n` hashes to the event's scope. */
  predicate MatchesAt(hash: string -> string, path: string, eventScope: string, n: nat) {
    Cut(path, n) && Identity(hash, path[..n]) == eventScope
  }

  /** `redacted_scope_matches`: hashes the normalized path and each of its ancestors. */
  method RedactedScopeMatches(hash: string -> string, cwd: string, eventScope: string) returns (r: bool)
    ensures r <==> exists n: nat :: MatchesAt(hash, Normalize(cwd), eventScope, n)
  {
    var path := Normalize(cwd);
    var candidate := path;
    while true
      invariant |candidate| <= |path| && candidate == path[..|candidate|] && Cut(path, |candidate|)
      invariant forall n: nat :: n > |candidate| ==> !MatchesAt(hash, path, eventScope, n)
      decreases |candidate|
    {
      if Identity(hash, candidate) == eventScope {
        assert MatchesAt(hash, path, eventScope, |candidate|);
        return true;
      }
      var separator := LastSlash(candidate);
      var next := if separator.Some? then separator.value else 0;
      forall n: nat | next < n <= |candidate|
        ensures !MatchesAt(hash, path, eventScope, n)
      {
        if n < |candidate| {
          assert path[n] == candidate[n];
        }
      }
      if separator.None? {
        assert !MatchesAt(hash, path, eventScope, 0) by {
          if |candidate| > 0 {
            assert path[0] == candidate[0];
          }
        }
        return false;
      }
      assert path[next] == candidate[next];
      candidate := candidate[..next];
    }
  }

  predicate CutTo(path: string, n: nat, scope: string) {
    Cut(path, n) && TrimEnd(path[..n]) == scope
  }

  /** Cutting a normalized path gives, up to trailing slashes, exactly the scopes it lies within. */
  lemma CutsAreScopes(path: string, scope: string)
    requires Plain(path) && NoTrailingSlash(path) && NoTrailingSlash(scope)
    ensures (exists n: nat :: CutTo(path, n, scope)) <==> Within(path, scope)
  {
    if n: nat :| CutTo(path, n, scope) {
      if scope != path {
        assert |scope| < |path|;
        if |scope| < n {
          assert path[..n][|scope|] == '/';
        } else {
          assert path[..n] == scope;
        }
        assert path[|scope|] == '/';
        assert scope + "/" == path[..|scope| + 1];
      }
    }
    if Within(path, scope) {
      var n := |scope|;
      if path != scope {
        assert (scope + "/")[n] == '/' && path[n] == '/';
      }
      assert path[..n] == scope;
      assert CutTo(path, n, scope);
    }
  }

  /** The hash tells this scope apart from the session's directory and all its ancestors. */
  ghost predicate Separates(hash: string -> string, path: string, scope: string) {
    forall n: nat :: Cut(path, n) && hash(Normalize(path[..n])) == hash(scope) ==> Normalize(path[..n]) == scope
  }

  /** A redacted scope matches exactly the directories at or below the scope it stands for. */
  lemma RedactedMeansWithin(hash: string -> string, cwd: string, scope: string)
    requires Separates(hash, Normalize(cwd), Normalize(scope))
    ensures (exists n: nat :: MatchesAt(hash, Normalize(cwd), Identity(hash, scope), n))
            <==> Within(Normalize(cwd), Normalize(scope))
  {
    var path, s := Normalize(cwd), Normalize(scope);
    NormalizeGivesPlain(cwd);
    NormalizeGivesPlain(scope);
    CutsAreScopes(path, s);
    forall n: nat
      ensures MatchesAt(hash, path, Identity(hash, scope), n) <==> CutTo(path, n, s)
    {
      if Cut(path, n) {
        NormalizePlain(path[..n]);
        PrefixCancels(hash(Normalize(path[..n])), hash(s));
      }
    }
  }

  lemma PrefixCancels(a: string, b: string)
    ensures PROJECT_PREFIX + a == PROJECT_PREFIX + b <==> a == b
  {
    if PROJECT_PREFIX + a == PROJECT_PREFIX + b {
      assert a == (PROJECT_PREFIX + a)[|PROJECT_PREFIX|..];
      assert b == (PROJECT_PREFIX + b)[|PROJECT_PREFIX|..];
    }
  }

  // ----- matching a session against an event

  /** The fields of a session, or of its summary, that scope matching looks at. */
  datatype Place = Place(harness: string, workingDirectory: Option<string>)

  /** `scope_matches`. */
  predicate ScopeMatches(hash: string -> string, place: Place, eventHarness: Option<string>,
                         eventScope: Option<string>) {
    if eventHarness.Some? && eventHarness.value != place.harness then false
    else if eventScope.None? then true
    else if place.workingDirectory.None? then false
    else
      var path := Normalize(place.workingDirectory.value);
      if PROJECT_PREFIX <= eventScope.value then
        exists n :: 0 <= n <= |path| && MatchesAt(hash, path, eventScope.value, n)
      else
        var scope := Normalize(eventScope.value);
        Within(path, scope) || path + "/" <= scope
  }

  /** Redacting a scope loses exactly the events below a session's own directory. */
  lemma RedactionLosesOnlyNestedScopes(hash: string -> string, place: Place, scope: string)
    requires !(PROJECT_PREFIX <= scope)
    requires place.workingDirectory.Some? && Separates(hash, Normalize(place.workingDirectory.value), Normalize(scope))
    ensures ScopeMatches(hash, place, None, Some(scope)) <==>
            || ScopeMatches(hash, place, None, Some(Identity(hash, scope)))
            || Normalize(place.workingDirectory.value) + "/" <= Normalize(scope)
  {
    var path := Normalize(place.workingDirectory.value);
    RedactedMeansWithin(hash, place.workingDirectory.value, scope);
    assert PROJECT_PREFIX <= Identity(hash, scope);
    assert forall n: nat :: MatchesAt(hash, path, Identity(hash, scope), n) ==> n <= |path|;
  }
}
