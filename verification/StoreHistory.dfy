/** Whole histories of one cache directory: openings, commits that return, raise or die
    half-way, crashes, and a disk that afterwards forgets. */
module StoreHistory {
  import opened Wrappers
  import Json
  import opened Utf8
  import opened Manifest
  import opened Store
  import opened StoreTheorems
  import JsonlRoundTrip

  /** A commit that reached the disk, and the configuration of the store that made it. */
  datatype Logged = Logged(writer: Settings, commit: Commit)

  datatype Instance = Instance(cfg: Settings, entries: Entries)

  /** files is the disk; live the one open store, if any; log the commits by generation id;
      past every content a final file name ever had. corrupted says that some payload file
      has been overwritten with bytes no commit wrote. */
  datatype World = World(
    files: Files,
    live: Option<Instance>,
    log: map<string, Logged>,
    past: set<(string, Bytes)>,
    corrupted: bool)

  const EMPTY_DISK := World(map[], None, map[], {}, false)

  datatype Event =
    | Open(cfg: Settings, after: Files)
    | CommitUpTo(c: Commit, tmp: string, mtmp: string, stage: Stage, published: bool)
    | Crash
    | Forget(name: string, content: Option<Bytes>)   // a weak disk: lost, reverted or torn
    | Corrupt(key: string, bytes: Bytes)           // any bytes at all in a payload file

  ghost predicate IsTmpFile(name: string) {
    exists final :: IsTmpFor(name, final)
  }

  ghost predicate Torn(content: Bytes) {
    forall fingerprint :: LoadManifest(content, fingerprint) == None
  }

  /** What may happen next. The digest is one fixed function; a generation id is never reused. */
  ghost predicate Enabled(digest: Bytes -> string, w: World, e: Event) {
    match e
    case Open(cfg, after) => w.live.None? && cfg.digest == digest && Opened(cfg, w.files, after)
    case CommitUpTo(c, tmp, mtmp, stage, published) =>
      && w.live.Some? && IsSafeKey(c.key) && CommitNames(c, tmp, mtmp)
      && c.generation !in w.log
      && (published ==> stage == COMPLETE)
    case Crash => true
    case Forget(name, content) =>
      || content.None? || IsTmpFile(name) || (name, content.value) in w.past
      || (name == MANIFEST_NAME && Torn(content.value))
    case Corrupt(key, content) => true
  }

  function Step(w: World, e: Event): World {
    match e
    case Open(cfg, after) =>
      w.(files := after, live := Some(Instance(cfg, EntriesOnOpen(cfg, w.files))),
         past := if MANIFEST_NAME in after then w.past + {(MANIFEST_NAME, after[MANIFEST_NAME])} else w.past)
    case CommitUpTo(c, tmp, mtmp, stage, published) =>
      if w.live.None? then w
      else
        var Instance(cfg, entries) := w.live.value;
        World(
          AtStage(cfg, entries, w.files, c, tmp, mtmp, stage),
          Some(Instance(cfg, EntriesAfter(cfg, entries, c, published))),
          w.log[c.generation := Logged(cfg, c)],
          w.past
            + (if PayloadInPlace(stage) then {(FileName(c.key), Payload(cfg, c))} else {})
            + (if stage == COMPLETE then {(MANIFEST_NAME, ManifestBytes(cfg.fingerprint, Published(cfg, entries, c)))} else {}),
          w.corrupted)
    case Crash => w.(live := None)
    case Forget(name, content) =>
      w.(files := if content.None? then w.files - {name} else w.files[name := content.value])
    case Corrupt(key, content) => w.(files := w.files[FileName(key) := content], corrupted := true)
  }

  function After(history: seq<Event>): World {
    if history == [] then EMPTY_DISK else Step(After(history[..|history| - 1]), history[|history| - 1])
  }

  ghost predicate Possible(digest: Bytes -> string, history: seq<Event>) {
    history == [] ||
      (Possible(digest, history[..|history| - 1]) &&
       Enabled(digest, After(history[..|history| - 1]), history[|history| - 1]))
  }

  // ---------------------------------------------------------------- the invariant

  /** The commit a manifest entry belongs to, by its generation id. */
  ghost predicate EntryLogged(digest: Bytes -> string, log: map<string, Logged>, fingerprint: string, key: string,
        entry: Entry)
  {
    && IsSafeKey(key) && HasString(entry, "generation_id")
    && var g := entry["generation_id"].s;
       && g in log && log[g].commit.key == key && log[g].commit.generation == g
       && log[g].writer.fingerprint == fingerprint && log[g].writer.digest == digest
       && entry == EntryFor(log[g].writer, log[g].commit)
  }

  ghost predicate EntriesLogged(digest: Bytes -> string, log: map<string, Logged>, fingerprint: string,
        entries: Entries)
  {
    forall k | k in entries :: EntryLogged(digest, log, fingerprint, k, entries[k])
  }

  ghost predicate ManifestLogged(digest: Bytes -> string, log: map<string, Logged>, content: Bytes) {
    forall fingerprint | LoadManifest(content, fingerprint).Some? ::
      EntriesLogged(digest, log, fingerprint, LoadManifest(content, fingerprint).value)
  }

  ghost predicate WrittenBy(l: Logged, key: string, content: Bytes) {
    l.commit.key == key && content == Payload(l.writer, l.commit)
  }

  ghost predicate PayloadLogged(log: map<string, Logged>, key: string, content: Bytes) {
    exists g :: g in log && log[g].commit.generation == g && WrittenBy(log[g], key, content)
  }

  /** Everything a final file name may hold. */
  ghost predicate ContentLogged(digest: Bytes -> string, log: map<string, Logged>, corrupted: bool, name: string,
        content: Bytes)
  {
    && (name == MANIFEST_NAME ==> ManifestLogged(digest, log, content))
    && (!corrupted ==> forall key | name == FileName(key) :: PayloadLogged(log, key, content))
  }

  ghost predicate Invariant(digest: Bytes -> string, w: World) {
    && (forall n | n in w.files :: ContentLogged(digest, w.log, w.corrupted, n, w.files[n]))
    && (forall p | p in w.past :: ContentLogged(digest, w.log, w.corrupted, p.0, p.1))
    && (w.live.Some? ==>
          && w.live.value.cfg.digest == digest
          && EntriesLogged(digest, w.log, w.live.value.cfg.fingerprint, w.live.value.entries))
  }

  // ---------------------------------------------------------------- every step keeps it

  lemma LogGrows(digest: Bytes -> string, log: map<string, Logged>, g: string, l: Logged, corrupted: bool,
        name: string, content: Bytes)
    requires g !in log && ContentLogged(digest, log, corrupted, name, content)
    ensures ContentLogged(digest, log[g := l], corrupted, name, content)
  {
    if !corrupted {
      forall key | name == FileName(key) ensures PayloadLogged(log[g := l], key, content) {
        var h :| h in log && log[h].commit.generation == h && WrittenBy(log[h], key, content);
        assert h in log[g := l];
      }
    }
  }

  /** The entries a commit publishes are logged, and so is the manifest that holds them. */
  lemma PublishedIsLogged(digest: Bytes -> string, log: map<string, Logged>, cfg: Settings, entries: Entries, c: Commit)
    requires cfg.digest == digest && IsSafeKey(c.key)
    requires EntriesLogged(digest, log, cfg.fingerprint, entries) && c.generation !in log
    ensures EntriesLogged(digest, log[c.generation := Logged(cfg, c)], cfg.fingerprint, entries)
    ensures EntriesLogged(digest, log[c.generation := Logged(cfg, c)], cfg.fingerprint, Published(cfg, entries, c))
  {}

  lemma ManifestIsLogged(digest: Bytes -> string, log: map<string, Logged>, fingerprint: string, entries: Entries)
    requires EntriesLogged(digest, log, fingerprint, entries)
    ensures ManifestLogged(digest, log, ManifestBytes(fingerprint, entries))
  {
    forall k | k in entries ensures EntryWellFormed(entries[k]) {
      assert EntryLogged(digest, log, fingerprint, k, entries[k]);
    }
    forall reader ensures LoadManifest(ManifestBytes(fingerprint, entries), reader)
      == if reader == fingerprint then Some(entries) else None
    {
      ManifestRoundTrip(fingerprint, entries, reader);
    }
  }

  lemma OpenKeeps(digest: Bytes -> string, w: World, cfg: Settings, after: Files)
    requires Invariant(digest, w) && Enabled(digest, w, Open(cfg, after))
    ensures Invariant(digest, Step(w, Open(cfg, after)))
  {
    var empty: Entries := map[];
    ManifestIsLogged(digest, w.log, cfg.fingerprint, empty);
    forall n | n in after ensures ContentLogged(digest, w.log, w.corrupted, n, after[n]) {
      if n == MANIFEST_NAME {
        forall key ensures n != FileName(key) { FileNamesAreApart(key, key); }
      }
      if n != MANIFEST_NAME && LoadEntries(w.files, cfg.fingerprint).None? {
        assert n in after - {MANIFEST_NAME};
      }
    }
  }

  lemma CommitKeeps(digest: Bytes -> string, w: World, c: Commit, tmp: string, mtmp: string, stage: Stage,
        published: bool)
    requires Invariant(digest, w) && Enabled(digest, w, CommitUpTo(c, tmp, mtmp, stage, published))
    ensures Invariant(digest, Step(w, CommitUpTo(c, tmp, mtmp, stage, published)))
  {
    var Instance(cfg, entries) := w.live.value;
    PublishedIsLogged(digest, w.log, cfg, entries, c);
    CommitKeepsFiles(digest, w, c, tmp, mtmp, stage);
    CommitKeepsPast(digest, w, c);
  }

  lemma CommitKeepsPast(digest: Bytes -> string, w: World, c: Commit)
    requires Invariant(digest, w) && w.live.Some? && IsSafeKey(c.key) && c.generation !in w.log
    ensures var Instance(cfg, entries) := w.live.value;
      forall p | p in w.past
          + {(FileName(c.key), Payload(cfg, c)), (MANIFEST_NAME, ManifestBytes(cfg.fingerprint, Published(cfg, entries, c)))} ::
        ContentLogged(digest, w.log[c.generation := Logged(cfg, c)], w.corrupted, p.0, p.1)
  {
    var Instance(cfg, entries) := w.live.value;
    NewContentIsLogged(digest, w, c);
    forall p | p in w.past
      ensures ContentLogged(digest, w.log[c.generation := Logged(cfg, c)], w.corrupted, p.0, p.1)
    {
      LogGrows(digest, w.log, c.generation, Logged(cfg, c), w.corrupted, p.0, p.1);
    }
  }

  lemma CommitKeepsFiles(digest: Bytes -> string, w: World, c: Commit, tmp: string, mtmp: string, stage: Stage)
    requires Invariant(digest, w) && w.live.Some? && IsSafeKey(c.key) && c.generation !in w.log
    requires CommitNames(c, tmp, mtmp)
    ensures var Instance(cfg, entries) := w.live.value;
            var files := AtStage(cfg, entries, w.files, c, tmp, mtmp, stage);
      forall n | n in files ::
        ContentLogged(digest, w.log[c.generation := Logged(cfg, c)], w.corrupted, n, files[n])
  {
    var Instance(cfg, entries) := w.live.value;
    var files := AtStage(cfg, entries, w.files, c, tmp, mtmp, stage);
    var log := w.log[c.generation := Logged(cfg, c)];
    NewContentIsLogged(digest, w, c);
    forall n | n in files ensures ContentLogged(digest, log, w.corrupted, n, files[n]) {
      StagedFile(w, c, tmp, mtmp, stage, n);
      if n in w.files && files[n] == w.files[n] {
        LogGrows(digest, w.log, c.generation, Logged(cfg, c), w.corrupted, n, w.files[n]);
      }
    }
  }

  /** Where the content of any file comes from, at any stage of a commit. */
  lemma StagedFile(w: World, c: Commit, tmp: string, mtmp: string, stage: Stage, n: string)
    requires w.live.Some? && CommitNames(c, tmp, mtmp)
    requires n in AtStage(w.live.value.cfg, w.live.value.entries, w.files, c, tmp, mtmp, stage)
    ensures var Instance(cfg, entries) := w.live.value;
            var content := AtStage(cfg, entries, w.files, c, tmp, mtmp, stage)[n];
      || (n in w.files && content == w.files[n])
      || (n != MANIFEST_NAME && forall key :: n != FileName(key))
      || (n == FileName(c.key) && content == Payload(cfg, c))
      || (n == MANIFEST_NAME && content == ManifestBytes(cfg.fingerprint, Published(cfg, entries, c)))
  {
    var Instance(cfg, entries) := w.live.value;
    var payload, manifest := Payload(cfg, c), ManifestBytes(cfg.fingerprint, Published(cfg, entries, c));
    StagedContent(w.files, FileName(c.key), tmp, payload, mtmp, manifest, stage, n);
    if n == tmp {
      TmpIsNeither(tmp, FileName(c.key));
    } else if n == mtmp {
      TmpIsNeither(mtmp, MANIFEST_NAME);
    }
  }

  lemma TmpIsNeither(tmp: string, final: string)
    requires IsTmpFor(tmp, final)
    ensures tmp != MANIFEST_NAME && forall key :: tmp != FileName(key)
  {
    TmpNamesAreApart(tmp, final, "");
    forall key ensures tmp != FileName(key) { TmpNamesAreApart(tmp, final, key); }
  }

  lemma StagedContent(files: Files, final: string, tmp: string, payload: Bytes, mtmp: string, manifest: Bytes,
        stage: Stage, n: string)
    requires n in StageFiles(files, final, tmp, payload, mtmp, manifest, stage)
    ensures var content := StageFiles(files, final, tmp, payload, mtmp, manifest, stage)[n];
      || n == tmp || n == mtmp
      || (n in files && content == files[n])
      || (n == final && content == payload)
      || (n == MANIFEST_NAME && content == manifest)
  {}

  lemma NewContentIsLogged(digest: Bytes -> string, w: World, c: Commit)
    requires Invariant(digest, w) && w.live.Some? && IsSafeKey(c.key) && c.generation !in w.log
    ensures var Instance(cfg, entries) := w.live.value;
            var log := w.log[c.generation := Logged(cfg, c)];
      && ContentLogged(digest, log, w.corrupted, FileName(c.key), Payload(cfg, c))
      && ContentLogged(digest, log, w.corrupted, MANIFEST_NAME, ManifestBytes(cfg.fingerprint, Published(cfg, entries, c)))
  {
    var Instance(cfg, entries) := w.live.value;
    var log := w.log[c.generation := Logged(cfg, c)];
    PublishedIsLogged(digest, w.log, cfg, entries, c);
    ManifestIsLogged(digest, log, cfg.fingerprint, Published(cfg, entries, c));
    assert WrittenBy(log[c.generation], c.key, Payload(cfg, c));
    forall key ensures FileName(key) != MANIFEST_NAME && (FileName(c.key) == FileName(key) ==> key == c.key) {
      FileNamesAreApart(c.key, key);
      FileNamesAreApart(key, key);
    }
  }

  lemma ForgetKeeps(digest: Bytes -> string, w: World, name: string, content: Option<Bytes>)
    requires Invariant(digest, w) && Enabled(digest, w, Forget(name, content))
    ensures Invariant(digest, Step(w, Forget(name, content)))
  {
    if content.Some? {
      if IsTmpFile(name) {
        var final :| IsTmpFor(name, final);
        TmpNamesAreApart(name, final, "");
        forall key ensures name != FileName(key) { TmpNamesAreApart(name, final, key); }
      } else if (name, content.value) in w.past {
        assert ContentLogged(digest, w.log, w.corrupted, (name, content.value).0, (name, content.value).1);
      } else {
        forall key ensures name != FileName(key) { FileNamesAreApart(key, key); }
      }
      assert ContentLogged(digest, w.log, w.corrupted, name, content.value);
    }
  }

  lemma CorruptKeeps(digest: Bytes -> string, w: World, key: string, bytes: Bytes)
    requires Invariant(digest, w)
    ensures Invariant(digest, Step(w, Corrupt(key, bytes)))
  {
    FileNamesAreApart(key, key);
    forall n, content | ContentLogged(digest, w.log, w.corrupted, n, content)
      ensures ContentLogged(digest, w.log, true, n, content) {}
  }

  lemma StepKeeps(digest: Bytes -> string, w: World, e: Event)
    requires Invariant(digest, w) && Enabled(digest, w, e)
    ensures Invariant(digest, Step(w, e))
  {
    match e
    case Open(cfg, after) => OpenKeeps(digest, w, cfg, after);
    case CommitUpTo(c, tmp, mtmp, stage, published) => CommitKeeps(digest, w, c, tmp, mtmp, stage, published);
    case Crash =>
    case Forget(name, content) => ForgetKeeps(digest, w, name, content);
    case Corrupt(key, bytes) => CorruptKeeps(digest, w, key, bytes);
  }

  lemma {:induction false} HistoryKeeps(digest: Bytes -> string, history: seq<Event>)
    requires Possible(digest, history)
    ensures Invariant(digest, After(history))
  {
    if history != [] {
      HistoryKeeps(digest, history[..|history| - 1]);
      StepKeeps(digest, After(history[..|history| - 1]), history[|history| - 1]);
    }
  }

  // ---------------------------------------------------------------- safety

  /** The commit a hit answers for: under the asked-for key, payload hash and fingerprint, and
      the one whose entry the loaded manifest holds. */
  ghost predicate AnswersFor(w: World, key: string, expected: string, g: string) {
    && w.live.Some? && key in w.live.value.entries && g in w.log
    && var l := w.log[g];
       && l.commit.key == key && l.commit.hash == expected && l.commit.generation == g
       && l.writer.fingerprint == w.live.value.cfg.fingerprint && l.writer.digest == w.live.value.cfg.digest
       && w.live.value.entries[key] == EntryFor(l.writer, l.commit)
  }

  ghost function ProbeLive(w: World, key: string, expected: string): Probe
    requires w.live.Some?
  {
    ProbeKey(w.live.value.cfg, w.live.value.entries, w.files, key, expected)
  }

  lemma HitEntry(digest: Bytes -> string, w: World, key: string, expected: string) returns (g: string)
    requires Invariant(digest, w) && w.live.Some? && ProbeLive(w, key, expected).Loaded?
    ensures AnswersFor(w, key, expected, g)
  {
    var Instance(cfg, entries) := w.live.value;
    LoadedEntry(cfg, entries, w.files, key, expected);
    assert EntryLogged(digest, w.log, cfg.fingerprint, key, entries[key]);
    g := entries[key]["generation_id"].s;
    EntryHash(w.log[g].writer, w.log[g].commit, expected);
  }

  lemma LoadedEntry(cfg: Settings, entries: Entries, files: Files, key: string, expected: string)
    requires ProbeKey(cfg, entries, files, key, expected).Loaded?
    ensures key in entries && Get(entries[key], "payload_hash") == Some(Json.Value.Str(expected))
  {}

  lemma EntryHash(writer: Settings, c: Commit, expected: string)
    requires Get(EntryFor(writer, c), "payload_hash") == Some(Json.Value.Str(expected))
    ensures c.hash == expected
  {}

  /** The payload file is the one that very commit wrote. */
  lemma HitFile(digest: Bytes -> string, w: World, key: string, expected: string, g: string)
    requires Invariant(digest, w) && AnswersFor(w, key, expected, g) && ProbeLive(w, key, expected).Loaded?
        && !w.corrupted
    ensures Holds(w.files, FileName(key), Payload(w.log[g].writer, w.log[g].commit))
  {
    assert ContentLogged(digest, w.log, w.corrupted, FileName(key), w.files[FileName(key)]);
    assert PayloadLogged(w.log, key, w.files[FileName(key)]);
    var h :| h in w.log && w.log[h].commit.generation == h && WrittenBy(w.log[h], key, w.files[FileName(key)]);
    if h != g {
      OtherGeneration(w, key, expected, g, h);
    }
  }

  /** A file another commit wrote would not have verified. */
  lemma OtherGeneration(w: World, key: string, expected: string, g: string, h: string)
    requires AnswersFor(w, key, expected, g) && IsSafeKey(key) && h != g
    requires h in w.log && w.log[h].commit.generation == h
    requires Holds(w.files, FileName(key), Payload(w.log[h].writer, w.log[h].commit))
    ensures !ProbeLive(w, key, expected).Loaded?
  {
    ForeignPayload(w.live.value.cfg, w.log[h].writer, w.live.value.entries, w.files, w.log[h].commit, key, expected);
  }

  lemma HitRecords(digest: Bytes -> string, w: World, key: string, expected: string, g: string)
    requires AnswersFor(w, key, expected, g) && ProbeLive(w, key, expected).Loaded?
    requires Holds(w.files, FileName(key), Payload(w.log[g].writer, w.log[g].commit))
          || CollisionFree(w.live.value.cfg.digest)
    ensures ProbeLive(w, key, expected) == Loaded(w.log[g].commit.records)
  {
    var l := w.log[g];
    var Instance(cfg, entries) := w.live.value;
    if CollisionFree(cfg.digest) {
      HitIsComplete(cfg, l.writer, entries, w.files, l.commit, key, expected);
    } else {
      JsonlRoundTrip.ReadUndoesWrite(l.commit.records, MetaFor(l.writer, l.commit), cfg.repr);
    }
  }

  /** What a hit vouches for. */
  ghost predicate VouchedFor(digest: Bytes -> string, w: World, key: string, expected: string, g: string) {
    && AnswersFor(w, key, expected, g)
    && (!w.corrupted ==> Holds(w.files, FileName(key), Payload(w.log[g].writer, w.log[g].commit)))
    && (!w.corrupted || CollisionFree(digest) ==> ProbeLive(w, key, expected) == Loaded(w.log[g].commit.records))
  }

  /** Safety over every history of openings, commits failing anywhere, crashes and a disk
      that loses, reverts or tears payload and manifest independently: a hit belongs to one
      logged commit under the asked-for key, payload hash and fingerprint, whose entry the
      loaded manifest holds; the payload file is the one that very commit wrote; and the
      result is the one it committed. With a collision-free digest the result is that one
      even if payload files have been overwritten with any bytes at all. */
  lemma HitIsVouchedFor(digest: Bytes -> string, history: seq<Event>, key: string, expected: string)
    requires Possible(digest, history) && After(history).live.Some?
    requires ProbeLive(After(history), key, expected).Loaded?
    ensures exists g :: VouchedFor(digest, After(history), key, expected, g)
  {
    HistoryKeeps(digest, history);
    var w := After(history);
    var g := HitEntry(digest, w, key, expected);
    if !w.corrupted {
      HitFile(digest, w, key, expected, g);
    }
    if !w.corrupted || CollisionFree(digest) {
      HitRecords(digest, w, key, expected, g);
    }
    assert VouchedFor(digest, w, key, expected, g);
  }

  // ---------------------------------------------------------------- memory and manifest

  /** Nothing but the store itself touches the manifest. */
  ghost predicate ManifestUntouched(history: seq<Event>) {
    forall e | e in history :: e.Forget? ==> e.name != MANIFEST_NAME
  }

  /** The last step that put a manifest in place was an opening or a commit that returned. */
  ghost predicate ManifestReported(history: seq<Event>) {
    if history == [] then true
    else
      match history[|history| - 1]
      case Open(_, _) => true
      case CommitUpTo(_, _, _, stage, published) =>
        if stage == COMPLETE then published else ManifestReported(history[..|history| - 1])
      case _ => ManifestReported(history[..|history| - 1])
  }

  ghost predicate InSync(w: World) {
    w.live.Some? && LoadEntries(w.files, w.live.value.cfg.fingerprint) == Some(w.live.value.entries)
  }

  lemma OpenSyncs(w: World, cfg: Settings, after: Files)
    requires Opened(cfg, w.files, after)
    ensures InSync(Step(w, Open(cfg, after)))
  {
    OpenIsStable(cfg, w.files, after);
  }

  lemma LoggedIsWellFormed(digest: Bytes -> string, w: World)
    requires Invariant(digest, w) && w.live.Some?
    ensures WellFormed(w.live.value.entries)
  {
    var Instance(cfg, entries) := w.live.value;
    forall k | k in entries ensures IsSafeKey(k) && EntryWellFormed(entries[k]) {
      assert EntryLogged(digest, w.log, cfg.fingerprint, k, entries[k]);
    }
  }

  /** A commit that reached its manifest leaves memory and manifest equal iff it returned. */
  lemma CommitSyncs(digest: Bytes -> string, w: World, c: Commit, tmp: string, mtmp: string, stage: Stage,
        published: bool)
    requires Invariant(digest, w) && Enabled(digest, w, CommitUpTo(c, tmp, mtmp, stage, published))
    ensures InSync(Step(w, CommitUpTo(c, tmp, mtmp, stage, published))) <==>
      if stage == COMPLETE then published else InSync(w)
  {
    var Instance(cfg, entries) := w.live.value;
    LoggedIsWellFormed(digest, w);
    ReopenedEntries(cfg, entries, w.files, c, tmp, mtmp, stage);
    if stage == COMPLETE && !published {
      assert Published(cfg, entries, c)[c.key]["generation_id"] == Json.Value.Str(c.generation);
      if c.key in entries {
        assert EntryLogged(digest, w.log, cfg.fingerprint, c.key, entries[c.key]);
      }
    }
  }

  lemma OtherStepsSync(w: World, e: Event)
    requires (e.Forget? && e.name != MANIFEST_NAME) || e.Corrupt?
    ensures InSync(Step(w, e)) <==> InSync(w)
  {
    if e.Corrupt? { FileNamesAreApart(e.key, e.key); }
  }

  /** Over every history in which only the store writes the manifest, the live entries equal
      the manifest's exactly when the last manifest put in place was not that of a commit that
      raised nonetheless. */
  lemma {:induction false} MemoryIsManifest(digest: Bytes -> string, history: seq<Event>)
    requires Possible(digest, history) && ManifestUntouched(history)
    ensures After(history).live.Some? ==> (InSync(After(history)) <==> ManifestReported(history))
  {
    if history != [] {
      var prefix, e := history[..|history| - 1], history[|history| - 1];
      assert e in history;
      MemoryIsManifest(digest, prefix);
      HistoryKeeps(digest, prefix);
      match e
      case Open(cfg, after) => OpenSyncs(After(prefix), cfg, after);
      case CommitUpTo(c, tmp, mtmp, stage, published) => CommitSyncs(digest, After(prefix), c, tmp, mtmp, stage, published);
      case Crash =>
      case Forget(_, _) => OtherStepsSync(After(prefix), e);
      case Corrupt(_, _) => OtherStepsSync(After(prefix), e);
    }
  }
}
