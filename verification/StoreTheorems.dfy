/** What one commit, one crash and one reopening can and cannot do to the cache. */
module StoreTheorems {
  import opened Wrappers
  import opened Json
  import Utf8
  import Jsonl
  import opened Manifest
  import opened Store
  import JsonlRoundTrip

  // ---------------------------------------------------------------- one commit

  /** The in-memory entries after a commit returned (published) or raised (rolled back). */
  function EntriesAfter(cfg: Settings, entries: Entries, c: Commit, published: bool): Entries {
    if published then Published(cfg, entries, c) else entries
  }

  /** A commit changes nothing about any other key, however far it got. */
  lemma CommitFrame(cfg: Settings, entries: Entries, files: Files, c: Commit, tmp: string, mtmp: string, stage: Stage,
        published: bool, key: string, expected: string)
    requires CommitNames(c, tmp, mtmp) && key != c.key
    ensures ProbeKey(cfg, EntriesAfter(cfg, entries, c, published), AtStage(cfg, entries, files, c, tmp, mtmp, stage), key, expected)
         == ProbeKey(cfg, entries, files, key, expected)
  {
    StageEffect(cfg, entries, files, c, tmp, mtmp, stage, key);
    ProbeFrame(cfg, entries, files, AtStage(cfg, entries, files, c, tmp, mtmp, stage), key, expected);
  }

  function Without(view: map<string, Cached>, key: string): map<string, Cached> {
    view - {key}
  }

  /** What is answered for after a commit that returned (published) or raised. */
  function ViewAfterCommit(cfg: Settings, view: map<string, Cached>, c: Commit, stage: Stage,
        published: bool): map<string, Cached>
  {
    if published then
      if Accepts(cfg, c.records) then view[c.key := Cached(c.hash, c.records)] else Without(view, c.key)
    else if PayloadInPlace(stage) then Without(view, c.key)
    else view
  }

  /** A commit that returns replaces one entry of the view; one that raises can at most
      lose that entry. Never anything else. */
  lemma CommitView(cfg: Settings, entries: Entries, files: Files, c: Commit, tmp: string, mtmp: string, stage: Stage,
        published: bool)
    requires CommitNames(c, tmp, mtmp) && IsSafeKey(c.key) && WellFormed(entries)
    requires FreshGeneration(entries, c.generation)
    requires published ==> stage == COMPLETE
    ensures View(cfg, EntriesAfter(cfg, entries, c, published), AtStage(cfg, entries, files, c, tmp, mtmp, stage))
         == ViewAfterCommit(cfg, View(cfg, entries, files), c, stage, published)
  {
    var now, after := AtStage(cfg, entries, files, c, tmp, mtmp, stage), EntriesAfter(cfg, entries, c, published);
    forall key | key != c.key ensures ProbeOwn(cfg, after, now, key) == ProbeOwn(cfg, entries, files, key) {
      OtherKeyView(cfg, entries, files, c, tmp, mtmp, stage, published, key);
    }
    CommittedKeyView(cfg, entries, files, c, tmp, mtmp, stage, published);
    ViewWithOneChange(cfg, entries, files, after, now, c.key);
  }

  lemma CollectWithOneChange(keys: set<string>, answer: string -> Option<Cached>, keys': set<string>,
        answer': string -> Option<Cached>, key: string)
    requires forall k | k != key :: answer(k) == answer'(k)
    requires forall k :: (k !in keys ==> answer(k) == None) && (k !in keys' ==> answer'(k) == None)
    ensures Collect(keys', answer') ==
      if answer'(key).Some? then Collect(keys, answer)[key := answer'(key).value] else Without(Collect(keys, answer), key)
    ensures answer(key) == answer'(key) ==> Collect(keys', answer') == Collect(keys, answer)
  {}

  lemma ViewWithOneChange(cfg: Settings, entries: Entries, files: Files, entries': Entries, files': Files, key: string)
    requires forall k | k != key :: ProbeOwn(cfg, entries', files', k) == ProbeOwn(cfg, entries, files, k)
    ensures View(cfg, entries', files') ==
      var own := ProbeOwn(cfg, entries', files', key);
      if own.Some? then View(cfg, entries, files)[key := own.value] else Without(View(cfg, entries, files), key)
    ensures ProbeOwn(cfg, entries', files', key) == ProbeOwn(cfg, entries, files, key)
        ==> View(cfg, entries', files') == View(cfg, entries, files)
  {
    CollectWithOneChange(entries.Keys, k => ProbeOwn(cfg, entries, files, k),
                         entries'.Keys, k => ProbeOwn(cfg, entries', files', k), key);
  }

  lemma OtherKeyView(cfg: Settings, entries: Entries, files: Files, c: Commit, tmp: string, mtmp: string, stage: Stage,
        published: bool, key: string)
    requires CommitNames(c, tmp, mtmp) && key != c.key
    ensures ProbeOwn(cfg, EntriesAfter(cfg, entries, c, published), AtStage(cfg, entries, files, c, tmp, mtmp, stage), key)
         == ProbeOwn(cfg, entries, files, key)
  {
    if key in entries && HasString(entries[key], "payload_hash") {
      CommitFrame(cfg, entries, files, c, tmp, mtmp, stage, published, key, entries[key]["payload_hash"].s);
    }
  }

  lemma CommittedKeyView(cfg: Settings, entries: Entries, files: Files, c: Commit, tmp: string, mtmp: string,
        stage: Stage, published: bool)
    requires CommitNames(c, tmp, mtmp) && IsSafeKey(c.key) && WellFormed(entries)
    requires FreshGeneration(entries, c.generation)
    requires published ==> stage == COMPLETE
    ensures ProbeOwn(cfg, EntriesAfter(cfg, entries, c, published), AtStage(cfg, entries, files, c, tmp, mtmp, stage), c.key) ==
      if published then
        if Accepts(cfg, c.records) then Some(Cached(c.hash, c.records)) else None
      else if PayloadInPlace(stage) then None
      else ProbeOwn(cfg, entries, files, c.key)
  {
    var now, after := AtStage(cfg, entries, files, c, tmp, mtmp, stage), EntriesAfter(cfg, entries, c, published);
    StageEffect(cfg, entries, files, c, tmp, mtmp, stage, c.key);
    if published {
      OwnPayload(cfg, after, now, c, c.hash);
    } else if c.key in entries {
      var hash := entries[c.key]["payload_hash"].s;
      if PayloadInPlace(stage) {
        ForeignPayload(cfg, cfg, entries, now, c, c.key, hash);
      } else {
        ProbeFrame(cfg, entries, files, now, c.key, hash);
      }
    }
  }

  /** After a commit that returned, has() is True exactly when the record validator accepts
      what was committed: commit itself never consults the validator. */
  lemma CommitThenProbe(cfg: Settings, entries: Entries, files: Files, c: Commit, tmp: string, mtmp: string)
    requires CommitNames(c, tmp, mtmp) && IsSafeKey(c.key)
    ensures ProbeKey(cfg, Published(cfg, entries, c), AtStage(cfg, entries, files, c, tmp, mtmp, COMPLETE), c.key, c.hash)
         == if Accepts(cfg, c.records) then Loaded(c.records) else Invalid
  {
    StageEffect(cfg, entries, files, c, tmp, mtmp, COMPLETE, c.key);
    OwnPayload(cfg, Published(cfg, entries, c), AtStage(cfg, entries, files, c, tmp, mtmp, COMPLETE), c, c.hash);
  }

  /** A store that must answer True after a commit does not, for a record its validator
      rejects: the result is on disk and in the manifest, and every probe is a miss. */
  lemma RejectedCommitExample(digest: Utf8.Bytes -> string, repr: Value -> string, tmp: string, mtmp: string)
    requires CommitNames(Commit("a", "h", [Obj(map[])], "g"), tmp, mtmp)
    ensures var cfg := Settings("fp", digest, repr, Some((v: Value) => v.Obj? && "id" in v.members));
            var c := Commit("a", "h", [Obj(map[])], "g");
      ProbeKey(cfg, Published(cfg, map[], c), AtStage(cfg, map[], map[], c, tmp, mtmp, COMPLETE), "a", "h") == Invalid
  {
    var cfg := Settings("fp", digest, repr, Some((v: Value) => v.Obj? && "id" in v.members));
    var c := Commit("a", "h", [Obj(map[])], "g");
    CommitThenProbe(cfg, map[], map[], c, tmp, mtmp);
    assert c.records[0] in c.records && !cfg.validator.value(c.records[0]);
  }

  // ---------------------------------------------------------------- reopening

  /** Sweeping spares the payload file of every key whose file name is not a temporary name. */
  lemma OpenedKeeps(cfg: Settings, before: Files, after: Files, key: string)
    requires Opened(cfg, before, after) && LoadEntries(before, cfg.fingerprint).Some?
    requires !IsTmpName(FileName(key))
    ensures SameFile(before, after, FileName(key))
  {}

  ghost function FullySwept(files: Files): Files {
    map n | n in files && !IsTmpName(n) :: files[n]
  }

  /** Reopening keeps a hit, whatever the sweep manages to delete, exactly when the key's
      payload file is not named like a temporary file. */
  lemma ReopenKeepsHit(cfg: Settings, entries: Entries, files: Files, key: string)
    requires LoadEntries(files, cfg.fingerprint) == Some(entries)
    requires key in View(cfg, entries, files)
    ensures (forall after | Opened(cfg, files, after) :: key in View(cfg, EntriesOnOpen(cfg, files), after))
       <==> !IsTmpName(FileName(key))
  {
    if IsTmpName(FileName(key)) {
      ghost var after := FullySwept(files);
      assert Opened(cfg, files, after);
      assert key !in View(cfg, entries, after);
    } else {
      forall after | Opened(cfg, files, after) ensures key in View(cfg, entries, after) {
        OpenedKeeps(cfg, files, after, key);
        ProbeFrame(cfg, entries, files, after, key, entries[key]["payload_hash"].s);
      }
    }
  }

  /** An opening that sweeps everything it is meant to loses a hit under a temporary name. */
  lemma SweptHitIsLost(cfg: Settings, entries: Entries, files: Files, key: string, expected: string)
    requires LoadEntries(files, cfg.fingerprint) == Some(entries) && IsTmpName(FileName(key))
    requires ProbeKey(cfg, entries, files, key, expected).Loaded?
    ensures Opened(cfg, files, FullySwept(files))
    ensures ProbeKey(cfg, EntriesOnOpen(cfg, files), FullySwept(files), key, expected) == Unreadable
  {
    assert FileName(key) !in FullySwept(files);
  }

  /** A commit that is answered for until the next opening, and gone after it. */
  ghost predicate LostOnOpen(cfg: Settings, c: Commit, files: Files, after: Files) {
    && ProbeKey(cfg, EntriesOnOpen(cfg, files), files, c.key, c.hash) == Loaded(c.records)
    && Opened(cfg, files, after)
    && ProbeKey(cfg, EntriesOnOpen(cfg, files), after, c.key, c.hash) == Unreadable
  }

  /** That is what becomes of any commit under a key whose file name the sweep takes for a
      temporary one. */
  lemma TmpNamedCommitIsLost(cfg: Settings, c: Commit, tmp: string, mtmp: string, files: Files)
    requires cfg.validator.None? && IsSafeKey(c.key) && IsTmpName(FileName(c.key)) && CommitNames(c, tmp, mtmp)
    requires files == AtStage(cfg, map[], map[], c, tmp, mtmp, COMPLETE)
    ensures LostOnOpen(cfg, c, files, FullySwept(files))
  {
    CommitThenProbe(cfg, map[], map[], c, tmp, mtmp);
    ReopenedEntries(cfg, map[], map[], c, tmp, mtmp, COMPLETE);
    SweptHitIsLost(cfg, Published(cfg, map[], c), files, c.key, c.hash);
  }

  lemma SweptName()
    ensures IsSafeKey("a.tmp.b") && IsTmpName(FileName("a.tmp.b"))
  {
    assert OccursAt(FileName("a.tmp.b"), ".tmp.", 1);
  }

  /** a.tmp.b is such a key. */
  lemma SweptKeyExample(cfg: Settings, c: Commit, tmp: string, mtmp: string)
    requires cfg.validator.None? && c.key == "a.tmp.b" && CommitNames(c, tmp, mtmp)
    ensures IsSafeKey(c.key)
    ensures var files := AtStage(cfg, map[], map[], c, tmp, mtmp, COMPLETE); LostOnOpen(cfg, c, files, FullySwept(files))
  {
    SweptName();
    TmpNamedCommitIsLost(cfg, c, tmp, mtmp, AtStage(cfg, map[], map[], c, tmp, mtmp, COMPLETE));
  }

  /** Keys derived from a hex digest are safe in both senses. */
  lemma HexKeysAreSafe(key: string)
    requires IsHex(key)
    ensures IsSafeKey(key) && !IsTmpName(FileName(key))
  {
    assert forall c | c in key :: IsWordChar(c);
    assert key[0] in key;
    assert '.' !in key;
    if i :| OccursAt(FileName(key), ".tmp.", i) {
      OccurrenceHasDots(FileName(key), i);
    }
  }

  // ---------------------------------------------------------------- crashing

  /** What a probe finds under the key of a commit once its payload is in place. */
  function ProbeOfCommit(cfg: Settings, c: Commit, expected: string): Probe {
    if expected != c.hash then Collision
    else if Accepts(cfg, c.records) then Loaded(c.records)
    else Invalid
  }

  /** What is found between the two renames, next to the entries of the old manifest. */
  function ProbeOfOrphan(cfg: Settings, onDisk: Entries, c: Commit, expected: string): Probe {
    if c.key !in onDisk then Uncommitted
    else if Get(onDisk[c.key], "payload_hash") == Some(Str(expected)) && expected == c.hash then Invalid
    else Collision
  }

  /** A crash at any step of a commit, then a reopening. The commit starts from any entries in
      memory and any manifest on disk: they differ after an earlier commit that was rolled
      back. Every other key answers as the manifest of the moment has it; the committed key
      answers as before, misses, or answers the new result, according to which renames
      happened, and never a mixture. */
  lemma CrashFrame(cfg: Settings, entries: Entries, onDisk: Entries, files: Files, c: Commit, tmp: string, mtmp: string,
        stage: Stage, after: Files, key: string, expected: string)
    requires LoadEntries(files, cfg.fingerprint) == Some(onDisk) && WellFormed(entries)
    requires CommitNames(c, tmp, mtmp) && IsSafeKey(c.key) && FreshGeneration(onDisk, c.generation)
    requires Opened(cfg, AtStage(cfg, entries, files, c, tmp, mtmp, stage), after)
    requires !IsTmpName(FileName(key)) && !IsTmpName(FileName(c.key))
    ensures ProbeKey(cfg, EntriesOnOpen(cfg, AtStage(cfg, entries, files, c, tmp, mtmp, stage)), after, key, expected) ==
      if stage == COMPLETE then
        if key == c.key then ProbeOfCommit(cfg, c, expected) else ProbeKey(cfg, entries, files, key, expected)
      else if key == c.key && PayloadInPlace(stage) then ProbeOfOrphan(cfg, onDisk, c, expected)
      else ProbeKey(cfg, onDisk, files, key, expected)
  {
    var now := AtStage(cfg, entries, files, c, tmp, mtmp, stage);
    ReopenedEntries(cfg, entries, files, c, tmp, mtmp, stage);
    var reopened := EntriesOnOpen(cfg, now);
    OpenedKeeps(cfg, now, after, key);
    ProbeFrame(cfg, reopened, now, after, key, expected);
    CrashedProbe(cfg, entries, onDisk, files, c, tmp, mtmp, stage, key, expected);
  }

  lemma CrashedProbe(cfg: Settings, entries: Entries, onDisk: Entries, files: Files, c: Commit, tmp: string,
        mtmp: string, stage: Stage, key: string, expected: string)
    requires WellFormed(onDisk) && CommitNames(c, tmp, mtmp) && IsSafeKey(c.key)
        && FreshGeneration(onDisk, c.generation)
    ensures ProbeKey(cfg, if stage == COMPLETE then Published(cfg, entries, c) else onDisk,
                     AtStage(cfg, entries, files, c, tmp, mtmp, stage), key, expected) ==
      if stage == COMPLETE then
        if key == c.key then ProbeOfCommit(cfg, c, expected) else ProbeKey(cfg, entries, files, key, expected)
      else if key == c.key && PayloadInPlace(stage) then ProbeOfOrphan(cfg, onDisk, c, expected)
      else ProbeKey(cfg, onDisk, files, key, expected)
  {
    var now := AtStage(cfg, entries, files, c, tmp, mtmp, stage);
    StageEffect(cfg, entries, files, c, tmp, mtmp, stage, key);
    if key == c.key && PayloadInPlace(stage) {
      CommittedProbe(cfg, entries, onDisk, now, c, stage == COMPLETE, expected);
    } else {
      ProbeFrame(cfg, if stage == COMPLETE then Published(cfg, entries, c) else onDisk, files, now, key, expected);
      if key != c.key { OtherProbe(cfg, entries, files, c, key, expected); }
    }
  }

  lemma OtherProbe(cfg: Settings, entries: Entries, files: Files, c: Commit, key: string, expected: string)
    requires key != c.key
    ensures ProbeKey(cfg, Published(cfg, entries, c), files, key, expected) == ProbeKey(cfg, entries, files, key, expected)
  {}

  lemma CommittedProbe(cfg: Settings, entries: Entries, onDisk: Entries, now: Files, c: Commit, complete: bool,
        expected: string)
    requires IsSafeKey(c.key) && FreshGeneration(onDisk, c.generation) && Holds(now, FileName(c.key), Payload(cfg, c))
    ensures ProbeKey(cfg, if complete then Published(cfg, entries, c) else onDisk, now, c.key, expected) ==
      if complete then ProbeOfCommit(cfg, c, expected) else ProbeOfOrphan(cfg, onDisk, c, expected)
  {
    if complete {
      OwnPayload(cfg, Published(cfg, entries, c), now, c, expected);
    } else if c.key in onDisk {
      ForeignPayload(cfg, cfg, onDisk, now, c, c.key, expected);
    }
  }

  lemma ReopenedEntries(cfg: Settings, entries: Entries, files: Files, c: Commit, tmp: string, mtmp: string,
        stage: Stage)
    requires WellFormed(entries) && CommitNames(c, tmp, mtmp) && IsSafeKey(c.key)
    ensures LoadEntries(AtStage(cfg, entries, files, c, tmp, mtmp, stage), cfg.fingerprint) ==
      if stage == COMPLETE then Some(Published(cfg, entries, c)) else LoadEntries(files, cfg.fingerprint)
  {
    StageEffect(cfg, entries, files, c, tmp, mtmp, stage, c.key);
    ManifestRoundTrip(cfg.fingerprint, Published(cfg, entries, c), cfg.fingerprint);
  }

  /** Opening on a manifest that does not load (AllOrNothing says when) leaves an empty cache:
      no probe of any key succeeds, and the next opening finds it empty too. */
  lemma RejectedManifestEmptiesCache(cfg: Settings, files: Files, after: Files, key: string, expected: string)
    requires LoadEntries(files, cfg.fingerprint).None?
    requires Opened(cfg, files, after)
    ensures EntriesOnOpen(cfg, files) == map[] && LoadEntries(after, cfg.fingerprint) == Some(map[])
    ensures ProbeKey(cfg, EntriesOnOpen(cfg, files), after, key, expected) == Uncommitted
  {
    OpenIsStable(cfg, files, after);
  }

  /** So a manifest cut short at any byte never vouches for a part of what it listed. */
  lemma TornManifestEmptiesCache(cfg: Settings, files: Files, entries: Entries, n: nat, after: Files, key: string,
        expected: string)
    requires WellFormed(entries) && n < |ManifestBytes(cfg.fingerprint, entries)| && Opened(cfg, files, after)
    requires MANIFEST_NAME in files && files[MANIFEST_NAME] == ManifestBytes(cfg.fingerprint, entries)[..n]
    ensures EntriesOnOpen(cfg, files) == map[]
    ensures ProbeKey(cfg, EntriesOnOpen(cfg, files), after, key, expected) == Uncommitted
  {
    TornManifestIsRejected(cfg.fingerprint, entries, n, cfg.fingerprint);
    RejectedManifestEmptiesCache(cfg, files, after, key, expected);
  }

  // ---------------------------------------------------------------- memory against disk

  /** Whatever the live instance answers True for, the manifest on disk vouches for with
      the same entry. */
  ghost predicate Backed(cfg: Settings, entries: Entries, files: Files) {
    && WellFormed(entries)
    && LoadEntries(files, cfg.fingerprint).Some?
    && forall k | k in View(cfg, entries, files) :: Vouches(LoadEntries(files, cfg.fingerprint).value, k, entries[k])
  }

  predicate Vouches(entries: Entries, key: string, entry: Entry) {
    key in entries && entries[key] == entry
  }

  /** Backing survives every commit, wherever it fails. */
  lemma CommitStaysBacked(cfg: Settings, entries: Entries, files: Files, c: Commit, tmp: string, mtmp: string,
        stage: Stage, published: bool)
    requires Backed(cfg, entries, files)
    requires CommitNames(c, tmp, mtmp) && IsSafeKey(c.key) && FreshGeneration(entries, c.generation)
    requires published ==> stage == COMPLETE
    ensures Backed(cfg, EntriesAfter(cfg, entries, c, published), AtStage(cfg, entries, files, c, tmp, mtmp, stage))
    ensures published ==>
      LoadEntries(AtStage(cfg, entries, files, c, tmp, mtmp, stage), cfg.fingerprint) == Some(Published(cfg, entries, c))
  {
    ReopenedEntries(cfg, entries, files, c, tmp, mtmp, stage);
    CommitView(cfg, entries, files, c, tmp, mtmp, stage, published);
  }

  lemma OpenIsBacked(cfg: Settings, before: Files, after: Files)
    requires Opened(cfg, before, after)
    ensures Backed(cfg, EntriesOnOpen(cfg, before), after)
  {
    OpenIsStable(cfg, before, after);
  }

  /** The live instance never over-claims: what it answers True for, a fresh opening of the
      same disk answers True for, with the same result. */
  lemma MemoryNeverOverclaims(cfg: Settings, entries: Entries, files: Files, after: Files, key: string)
    requires Backed(cfg, entries, files) && Opened(cfg, files, after)
    requires key in View(cfg, entries, files) && !IsTmpName(FileName(key))
    ensures key in View(cfg, EntriesOnOpen(cfg, files), after)
    ensures View(cfg, EntriesOnOpen(cfg, files), after)[key] == View(cfg, entries, files)[key]
  {
    var reopened := EntriesOnOpen(cfg, files);
    assert Vouches(reopened, key, entries[key]);
    OpenedKeeps(cfg, files, after, key);
    ProbeFrame(cfg, reopened, files, after, key, entries[key]["payload_hash"].s);
  }

  // ---------------------------------------------------------------- the view after reopening

  /** The answers no sweep can take away. */
  function Lasting(view: map<string, Cached>): map<string, Cached> {
    map k | k in view && !IsTmpName(FileName(k)) :: view[k]
  }

  /** What a disk answers for under lasting names, whoever opens it. */
  function Durable(cfg: Settings, files: Files): map<string, Cached> {
    Lasting(View(cfg, EntriesOnOpen(cfg, files), files))
  }

  lemma LastingOwn(cfg: Settings, entries: Entries, files: Files, after: Files)
    requires forall k | !IsTmpName(FileName(k)) :: SameFile(files, after, FileName(k))
    ensures Lasting(View(cfg, entries, after)) == Lasting(View(cfg, entries, files))
  {
    forall k | !IsTmpName(FileName(k)) ensures ProbeOwn(cfg, entries, after, k) == ProbeOwn(cfg, entries, files, k) {
      if k in entries && HasString(entries[k], "payload_hash") {
        ProbeFrame(cfg, entries, files, after, k, entries[k]["payload_hash"].s);
      }
    }
    LastingCollect(entries.Keys, k => ProbeOwn(cfg, entries, files, k), k => ProbeOwn(cfg, entries, after, k));
  }

  lemma LastingCollect(keys: set<string>, answer: string -> Option<Cached>, answer': string -> Option<Cached>)
    requires forall k | !IsTmpName(FileName(k)) :: answer(k) == answer'(k)
    ensures Lasting(Collect(keys, answer)) == Lasting(Collect(keys, answer'))
  {}

  /** Opening changes nothing about what is durable, and shows it. */
  lemma OpeningKeepsDurable(cfg: Settings, files: Files, after: Files)
    requires Opened(cfg, files, after)
    ensures Lasting(View(cfg, EntriesOnOpen(cfg, files), after)) == Durable(cfg, files) == Durable(cfg, after)
  {
    OpenIsStable(cfg, files, after);
    if LoadEntries(files, cfg.fingerprint).Some? {
      forall k | !IsTmpName(FileName(k)) ensures SameFile(files, after, FileName(k)) {
        OpenedKeeps(cfg, files, after, k);
      }
      LastingOwn(cfg, EntriesOnOpen(cfg, files), files, after);
    } else {
      assert View(cfg, map[], after) == map[] && View(cfg, map[], files) == map[];
    }
  }

  /** The disk answers for a commit that memory has rolled back. */
  predicate Strands(c: Commit, live: map<string, Cached>, disk: map<string, Cached>) {
    c.key !in live && disk == live[c.key := Cached(c.hash, c.records)]
  }

  lemma TwoViews(cfg: Settings, view: map<string, Cached>, c: Commit, stage: Stage, published: bool,
        live: map<string, Cached>, disk: map<string, Cached>)
    requires live == ViewAfterCommit(cfg, view, c, stage, published)
    requires disk == ViewAfterCommit(cfg, view, c, stage, stage == COMPLETE)
    requires published ==> stage == COMPLETE
    ensures if stage == COMPLETE && !published && Accepts(cfg, c.records) then Strands(c, live, disk) else disk == live
  {}

  lemma DiskAfterCommit(cfg: Settings, entries: Entries, files: Files, c: Commit, tmp: string, mtmp: string,
        stage: Stage, now: Files)
    requires LoadEntries(files, cfg.fingerprint) == Some(entries)
    requires CommitNames(c, tmp, mtmp) && IsSafeKey(c.key) && FreshGeneration(entries, c.generation)
    requires now == AtStage(cfg, entries, files, c, tmp, mtmp, stage)
    ensures View(cfg, EntriesOnOpen(cfg, now), now) ==
      ViewAfterCommit(cfg, View(cfg, entries, files), c, stage, stage == COMPLETE)
  {
    ReopenedEntries(cfg, entries, files, c, tmp, mtmp, stage);
    CommitView(cfg, entries, files, c, tmp, mtmp, stage, stage == COMPLETE);
  }

  /** What the manifest on disk answers for after a commit, next to what memory answers for:
      they differ exactly when the commit raised although its manifest was in place. */
  lemma ReopenedAfterCommit(cfg: Settings, entries: Entries, files: Files, c: Commit, tmp: string, mtmp: string,
        stage: Stage, published: bool, now: Files)
    requires LoadEntries(files, cfg.fingerprint) == Some(entries)
    requires CommitNames(c, tmp, mtmp) && IsSafeKey(c.key) && FreshGeneration(entries, c.generation)
    requires (published ==> stage == COMPLETE) && now == AtStage(cfg, entries, files, c, tmp, mtmp, stage)
    ensures var live, disk := View(cfg, EntriesAfter(cfg, entries, c, published), now), View(cfg, EntriesOnOpen(cfg, now), now);
      if stage == COMPLETE && !published && Accepts(cfg, c.records) then Strands(c, live, disk) else disk == live
  {
    var view := View(cfg, entries, files);
    var live, disk := View(cfg, EntriesAfter(cfg, entries, c, published), now), View(cfg, EntriesOnOpen(cfg, now), now);
    CommitView(cfg, entries, files, c, tmp, mtmp, stage, published);
    DiskAfterCommit(cfg, entries, files, c, tmp, mtmp, stage, now);
    TwoViews(cfg, view, c, stage, published, live, disk);
  }

  /** Every opening the disk allows shows exactly this view. */
  ghost predicate AlwaysReopensAs(cfg: Settings, files: Files, view: map<string, Cached>) {
    forall after | Opened(cfg, files, after) :: View(cfg, EntriesOnOpen(cfg, files), after) == view
  }

  predicate NoTmpNames(view: map<string, Cached>) {
    forall k | k in view :: !IsTmpName(FileName(k))
  }

  lemma ReopensAsItIs(cfg: Settings, entries: Entries, files: Files, after: Files)
    requires LoadEntries(files, cfg.fingerprint) == Some(entries) && Opened(cfg, files, after)
    requires NoTmpNames(View(cfg, entries, files))
    ensures View(cfg, entries, after) == View(cfg, entries, files)
  {
    OpeningKeepsDurable(cfg, files, after);
    NothingNewOnOpening(cfg, entries, files, after);
    LastingIsAll(View(cfg, entries, files));
    LastingIsAll(View(cfg, entries, after));
  }

  lemma LastingIsAll(view: map<string, Cached>)
    requires NoTmpNames(view)
    ensures Lasting(view) == view
  {}

  lemma TmpNameIsLost(cfg: Settings, entries: Entries, files: Files, k: string)
    requires LoadEntries(files, cfg.fingerprint) == Some(entries) && IsTmpName(FileName(k))
    ensures Opened(cfg, files, FullySwept(files)) && k !in View(cfg, entries, FullySwept(files))
  {
    assert FileName(k) !in FullySwept(files);
  }

  /** Every opening shows the live view exactly when the manifest on disk answers for what
      memory answers for and nothing of it is under a temporary name. */
  lemma ReopenedViewIsLive(cfg: Settings, entries: Entries, files: Files)
    requires LoadEntries(files, cfg.fingerprint).Some?
    ensures AlwaysReopensAs(cfg, files, View(cfg, entries, files)) <==>
      View(cfg, EntriesOnOpen(cfg, files), files) == View(cfg, entries, files) && NoTmpNames(View(cfg, entries, files))
  {
    var live, onDisk := View(cfg, entries, files), EntriesOnOpen(cfg, files);
    if AlwaysReopensAs(cfg, files, live) {
      assert Opened(cfg, files, files);
      forall k | k in live ensures !IsTmpName(FileName(k)) {
        if IsTmpName(FileName(k)) { TmpNameIsLost(cfg, onDisk, files, k); }
      }
    }
    if View(cfg, onDisk, files) == live && NoTmpNames(live) {
      forall after | Opened(cfg, files, after) ensures View(cfg, onDisk, after) == live {
        ReopensAsItIs(cfg, onDisk, files, after);
      }
    }
  }

  /** Deleting files answers nothing new. */
  lemma NothingNewOnOpening(cfg: Settings, entries: Entries, files: Files, after: Files)
    requires Remains(files, after)
    ensures forall k | k in View(cfg, entries, after) :: k in View(cfg, entries, files)
  {
    forall k | k in View(cfg, entries, after) ensures k in View(cfg, entries, files) {
      assert FileName(k) in after;
      ProbeFrame(cfg, entries, files, after, k, entries[k]["payload_hash"].s);
    }
  }

  // ---------------------------------------------------------------- completeness of a hit

  ghost predicate CollisionFree(digest: Utf8.Bytes -> string) {
    forall a, b | digest(a) == digest(b) :: a == b
  }

  /** A hit against the entry of a commit returns that commit's records, whatever bytes the
      payload file holds: a dropped, truncated, reordered or altered record is a miss. */
  lemma HitIsComplete(cfg: Settings, writer: Settings, entries: Entries, files: Files, c: Commit, key: string,
        expected: string)
    requires CollisionFree(cfg.digest) && writer.digest == cfg.digest
    requires key in entries && entries[key] == EntryFor(writer, c)
    ensures var p := ProbeKey(cfg, entries, files, key, expected); p.Loaded? ==> p.records == c.records && expected == c.hash
  {
    var p := ProbeKey(cfg, entries, files, key, expected);
    if p.Loaded? {
      var (records, meta) := Jsonl.Reading(files[FileName(key)], cfg.repr).value;
      assert SameField(meta, entries[key], "result_digest");
      assert cfg.digest(Jsonl.CanonicalBytes(records)) == cfg.digest(Jsonl.CanonicalBytes(c.records));
      JsonlRoundTrip.CanonicalInjective(records, c.records);
    }
  }
}
