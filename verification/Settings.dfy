/**
 Saved settings (src-tauri/src/config.rs, `normalized`; src-tauri/src/commands.rs,
 `preserve_backend_owned_config`): the provider map, its mirror in flat fields, and
 what a settings save keeps of the previous file.
 */
module Settings {
  import opened Prelude

  type ProviderId = string
  type Path = string

  const CODEX := "codex"
  const CLAUDE := "claude_code"
  const GEMINI := "gemini_cli"
  const BUILTIN := {CODEX, CLAUDE, GEMINI}

  const CONFIG_VERSION := 1

  /** `extra` stands for fields of a newer schema. */
  datatype Sources = Sources(live: seq<Path>, archived: seq<Path>, index: Option<Path>, extra: map<string, string>)

  const NO_SOURCES := Sources([], [], None, map[])

  /** `rest` stands for the settings that neither operation touches. */
  datatype Config = Config(
    version: nat, providers: map<ProviderId, Sources>,
    sessionRoots: seq<Path>, archiveRoots: seq<Path>, sessionIndex: Path, claudeRoots: seq<Path>,
    receipt: Option<string>, rest: map<string, string>)

  /** What the environment supplies: the default index path and the Gemini session directory. */
  datatype Defaults = Defaults(sessionIndex: Path, geminiRoot: Path)

  function Entry(ps: map<ProviderId, Sources>, id: ProviderId): Sources {
    if id in ps then ps[id] else NO_SOURCES
  }

  /** Legacy layout: the flat fields are projected into the map. */
  function Projected(c: Config): Config {
    var codex := Entry(c.providers, CODEX).(live := c.sessionRoots, archived := c.archiveRoots,
                                           index := Some(c.sessionIndex));
    var claude := Entry(c.providers, CLAUDE).(live := c.claudeRoots, archived := []);
    c.(providers := c.providers[CODEX := codex][CLAUDE := claude], version := CONFIG_VERSION)
  }

  /** Versioned layout: the flat fields are rebuilt from the map. */
  function Mirrored(d: Defaults, c: Config): Config {
    var codex := Entry(c.providers, CODEX);
    c.(sessionRoots := codex.live, archiveRoots := codex.archived,
       sessionIndex := if codex.index.Some? then codex.index.value else d.sessionIndex,
       claudeRoots := Entry(c.providers, CLAUDE).live)
  }

  function Normalized(d: Defaults, c: Config): Config {
    var n := if c.version < CONFIG_VERSION then Projected(c) else Mirrored(d, c);
    if GEMINI in n.providers then n
    else n.(providers := n.providers[GEMINI := NO_SOURCES.(live := [d.geminiRoot])])
  }

  /** The flat fields say what the map says. */
  predicate InStep(d: Defaults, c: Config) {
    && c.version >= CONFIG_VERSION && GEMINI in c.providers
    && c.sessionRoots == Entry(c.providers, CODEX).live
    && c.archiveRoots == Entry(c.providers, CODEX).archived
    && (Entry(c.providers, CODEX).index == Some(c.sessionIndex)
        || (Entry(c.providers, CODEX).index.None? && c.sessionIndex == d.sessionIndex))
    && c.claudeRoots == Entry(c.providers, CLAUDE).live
  }

  /** Normalizing brings map and mirror into step, and changes nothing that already is. */
  lemma NormalizedInStep(d: Defaults, c: Config)
    ensures InStep(d, Normalized(d, c))
    ensures Normalized(d, c) == c <==> InStep(d, c)
  {
    if c.version < CONFIG_VERSION {
      assert Normalized(d, c).version == CONFIG_VERSION;
    } else if InStep(d, c) {
      assert Mirrored(d, c) == c;
    }
  }

  lemma NormalizedIdempotent(d: Defaults, c: Config)
    ensures Normalized(d, Normalized(d, c)) == Normalized(d, c)
  {
    NormalizedInStep(d, c);
    NormalizedInStep(d, Normalized(d, c));
  }

  // ----- saving

  /** The payload with the receipt and the foreign providers of the previous file, read as a legacy layout. */
  function Preserved(previous: Config, payload: Config): Config {
    payload.(receipt := previous.receipt, version := 0, providers := (previous.providers - BUILTIN) + payload.providers)
  }

  /** `preserve_backend_owned_config`, with its loop over the previous providers. */
  method Preserve(previous: Config, payload: Config) returns (next: Config)
    ensures next == Preserved(previous, payload)
  {
    next := payload.(receipt := previous.receipt, version := 0);
    var providers := payload.providers;
    var todo := previous.providers.Keys;
    while todo != {}
      invariant todo <= previous.providers.Keys
      invariant forall id :: id in providers <==>
                  id in payload.providers || (id in previous.providers && id !in todo && id !in BUILTIN)
      invariant forall id :: id in providers ==>
                  providers[id] == if id in payload.providers then payload.providers[id] else previous.providers[id]
      decreases todo
    {
      var id :| id in todo;
      if id !in BUILTIN && id !in providers {
        providers := providers[id := previous.providers[id]];
      }
      todo := todo - {id};
    }
    next := next.(providers := providers);
  }

  function Saved(d: Defaults, previous: Config, payload: Config): Config {
    Normalized(d, Preserved(previous, payload))
  }

  /** What a save leaves under one provider. */
  function SavedSources(d: Defaults, previous: Config, payload: Config, id: ProviderId): Option<Sources> {
    var sent := Entry(payload.providers, id);
    if id == CODEX then
      Some(sent.(live := payload.sessionRoots, archived := payload.archiveRoots, index := Some(payload.sessionIndex)))
    else if id == CLAUDE then Some(sent.(live := payload.claudeRoots, archived := []))
    else if id in payload.providers then Some(sent)
    else if id == GEMINI then Some(NO_SOURCES.(live := [d.geminiRoot]))
    else if id in previous.providers then Some(previous.providers[id])
    else None
  }

  lemma SaveKeeps(d: Defaults, previous: Config, payload: Config)
    ensures var c := Saved(d, previous, payload);
            && InStep(d, c) && c.receipt == previous.receipt && c.rest == payload.rest
            && (c.sessionRoots, c.archiveRoots, c.sessionIndex, c.claudeRoots)
               == (payload.sessionRoots, payload.archiveRoots, payload.sessionIndex, payload.claudeRoots)
            && forall id :: SavedSources(d, previous, payload, id) ==
                            if id in c.providers then Some(c.providers[id]) else None
  {
    NormalizedInStep(d, Preserved(previous, payload));
  }

  /** Saving what was loaded, unchanged, writes the same file exactly when no newer schema wrote it
      and it has its builtin entries in the shape this version writes. */
  lemma SaveOfLoadedExactlyWhen(d: Defaults, c: Config)
    requires InStep(d, c)
    ensures Saved(d, c, c) == c <==>
            c.version == CONFIG_VERSION && CODEX in c.providers && c.providers[CODEX].index.Some?
            && CLAUDE in c.providers && c.providers[CLAUDE].archived == []
  {
  }

  /** A provider map from a payload that leaves Gemini out forgets that Gemini was switched off. */
  lemma GeminiKeptExactlyWhen(d: Defaults, previous: Config, payload: Config)
    requires GEMINI in previous.providers
    ensures var c := Saved(d, previous, payload);
            GEMINI in c.providers
            && (c.providers[GEMINI] == previous.providers[GEMINI] <==>
                  if GEMINI in payload.providers then payload.providers[GEMINI] == previous.providers[GEMINI]
                  else previous.providers[GEMINI] == NO_SOURCES.(live := [d.geminiRoot]))
  {
  }
}
