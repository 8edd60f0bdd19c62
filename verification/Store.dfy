/** The crash-atomic store as a function of its in-memory entries and the files on disk:
    what a probe answers, what a commit leaves behind at every step, what opening accepts. */
module Store {
  import opened Wrappers
  import opened Json
  import opened Utf8
  import opened Jsonl
  import opened Manifest
  import JsonlRoundTrip

  /** One store's configuration. digest stands for the SHA-256 hex digest and repr for
      Python's str() of the JSON values a foreign header may hold. */
  datatype Settings = Settings(
    fingerprint: string,
    digest: Bytes -> string,
    repr: Value -> string,
    validator: Option<Value -> bool>)

  // ---------------------------------------------------------------- names

  const SUFFIX := ".jsonl"

  function FileName(key: string): string {
    key + SUFFIX
  }

  predicate OccursAt(s: string, part: string, i: int) {
    0 <= i && i + |part| <= |s| && s[i..i + |part|] == part
  }

  predicate Contains(s: string, part: string) {
    exists i | 0 <= i <= |s| :: OccursAt(s, part, i)
  }

  /** What the glob *.tmp.* matches. */
  predicate IsTmpName(name: string) {
    Contains(name, ".tmp.")
  }

  predicate IsHex(s: string) {
    s != "" && forall c | c in s :: IsDigit(c) || 'a' <= c <= 'f'
  }

  function TmpName(final: string, pid: nat, nonce: string): string {
    final + ".tmp." + Decimal(pid) + "." + nonce
  }

  ghost predicate IsTmpFor(tmp: string, final: string) {
    exists pid: nat, nonce: string :: IsHex(nonce) && tmp == TmpName(final, pid, nonce)
  }

  lemma TmpNamesAreApart(tmp: string, final: string, key: string)
    requires IsTmpFor(tmp, final)
    ensures IsTmpName(tmp)
    ensures tmp != FileName(key) && tmp != MANIFEST_NAME
  {
    var pid: nat, nonce :| IsHex(nonce) && tmp == TmpName(final, pid, nonce);
    assert OccursAt(tmp, ".tmp.", |final|);
    assert tmp[|tmp| - 1] == nonce[|nonce| - 1];
    assert nonce[|nonce| - 1] in nonce;
    assert FileName(key)[|FileName(key)| - 1] == 'l';
  }

  lemma FileNamesAreApart(a: string, b: string)
    ensures FileName(a) != MANIFEST_NAME
    ensures FileName(a) == FileName(b) ==> a == b
  {
    assert FileName(a)[|FileName(a)| - 1] == 'l';
    assert FileName(a)[..|a|] == a && FileName(b)[..|b|] == b;
  }

  lemma OccurrenceHasDots(s: string, i: int)
    requires OccursAt(s, ".tmp.", i)
    ensures i + 4 < |s| && s[i] == '.' && s[i + 4] == '.'
  {
    assert s[i] == s[i..i + 5][0] && s[i + 4] == s[i..i + 5][4];
  }

  lemma ManifestIsNoTmp()
    ensures !IsTmpName(MANIFEST_NAME)
  {
    if i :| OccursAt(MANIFEST_NAME, ".tmp.", i) {
      OccurrenceHasDots(MANIFEST_NAME, i);
    }
  }

  // ---------------------------------------------------------------- probing

  datatype Verdict = Fresh | Stale | Collides

  function Accepts(cfg: Settings, records: Records): bool {
    cfg.validator.None? || forall r | r in records :: cfg.validator.value(r)
  }

  function GetText(meta: Meta, field: string): Option<string> {
    if field in meta then Some(meta[field]) else None
  }

  /** str(entry.get(field)). */
  function FieldText(entry: Entry, field: string, cfg: Settings): string {
    if field in entry then PyStr(entry[field], cfg.repr) else PyStr(Null, cfg.repr)
  }

  /** _check: the embedded identity block, the body itself and the manifest entry must all agree. */
  function Check(cfg: Settings, key: string, expected: string, records: Records, meta: Meta, entry: Entry): Verdict {
    var body := CanonicalBytes(records);
    if "payload_hash" !in meta then Stale
    else if meta["payload_hash"] != expected then Collides
    else if GetText(meta, "content_key") != Some(key) then Stale
    else if GetText(meta, "fingerprint") != Some(cfg.fingerprint) then Stale
    else if GetText(meta, "schema_version") != Some(Decimal(SCHEMA_VERSION)) then Stale
    else if !Accepts(cfg, records) then Stale
    else if GetText(meta, "result_digest") != Some(cfg.digest(body)) then Stale
    else if GetText(meta, "byte_len") != Some(Decimal(|body|)) then Stale
    else if GetText(meta, "record_count") != Some(Decimal(|records|)) then Stale
    else if !SameField(meta, entry, "generation_id") then Stale
    else if !SameField(meta, entry, "result_digest") then Stale
    else if FieldText(entry, "byte_len", cfg) != Decimal(|body|) then Stale
    else if FieldText(entry, "record_count", cfg) != Decimal(|records|) then Stale
    else Fresh
  }

  /** The header carries the identity block a commit of these very records would embed. */
  predicate Embeds(cfg: Settings, c: Commit, meta: Meta) {
    var block := MetaFor(cfg, c);
    forall field | field in block :: field in meta && meta[field] == block[field]
  }

  /** The manifest entry carries what that commit would publish. */
  predicate Vouched(cfg: Settings, c: Commit, entry: Entry) {
    var body := CanonicalBytes(c.records);
    && Get(entry, "result_digest") == Some(Str(cfg.digest(body)))
    && Shows(cfg, entry, "byte_len", Decimal(|body|))
    && Shows(cfg, entry, "record_count", Decimal(|c.records|))
  }

  /** The field, or None if it is not there, is shown as this text. */
  predicate Shows(cfg: Settings, entry: Entry, field: string, text: string) {
    if field in entry then PyStr(entry[field], cfg.repr) == text else cfg.repr(Null) == text
  }

  /** A file verifies exactly when header and entry both are what a commit of the records in
      it, under the probed key, hash and fingerprint and the entry's own generation, leaves
      behind; it collides exactly when it carries another payload hash. */
  lemma FreshMeansCommitted(cfg: Settings, key: string, expected: string, records: Records, meta: Meta, entry: Entry)
    requires EntryWellFormed(entry)
    ensures Check(cfg, key, expected, records, meta, entry) == Fresh <==>
      var c := Commit(key, expected, records, entry["generation_id"].s);
      && (cfg.validator.None? || forall r | r in records :: cfg.validator.value(r))
      && Embeds(cfg, c, meta) && Vouched(cfg, c, entry)
    ensures Check(cfg, key, expected, records, meta, entry) == Collides <==>
      "payload_hash" in meta && meta["payload_hash"] != expected
  {
    var c := Commit(key, expected, records, entry["generation_id"].s);
    var block := MetaFor(cfg, c);
    assert block.Keys == {"content_key", "payload_hash", "fingerprint", "schema_version", "result_digest",
                          "byte_len", "record_count", "generation_id"};
    if Embeds(cfg, c, meta) {
      assert forall field | field in block.Keys :: field in meta && meta[field] == block[field];
    }
  }

  /** meta.get(field) == entry.get(field). */
  predicate SameField(meta: Meta, entry: Entry, field: string) {
    if field in meta then Get(entry, field) == Some(Str(meta[field])) else field !in entry
  }

  /** Everything has() and load() can find out about a key. */
  datatype Probe =
    | Loaded(records: Records)
    | Uncommitted      // no manifest entry
    | Collision        // another payload hash in the manifest or in the file
    | UnsafeKey        // the key cannot name a file
    | Unreadable       // no file, or not a payload file
    | Invalid          // the file does not belong to the entry

  function ProbeKey(cfg: Settings, entries: Entries, files: Files, key: string, expected: string): Probe {
    if key !in entries then Uncommitted
    else if Get(entries[key], "payload_hash") != Some(Str(expected)) then Collision
    else if !IsSafeKey(key) then UnsafeKey
    else if FileName(key) !in files then Unreadable
    else
      var read := Reading(files[FileName(key)], cfg.repr);
      if read.None? then Unreadable
      else
        match Check(cfg, key, expected, read.value.0, read.value.1, entries[key])
        case Fresh => Loaded(read.value.0)
        case Stale => Invalid
        case Collides => Collision
  }

  /** A result the store answers for, with the payload hash it answers to. */
  datatype Cached = Cached(hash: string, records: Records)

  function ProbeOwn(cfg: Settings, entries: Entries, files: Files, key: string): Option<Cached> {
    if key in entries && HasString(entries[key], "payload_hash") then
      var hash := entries[key]["payload_hash"].s;
      var p := ProbeKey(cfg, entries, files, key, hash);
      if p.Loaded? then Some(Cached(hash, p.records)) else None
    else None
  }

  /** The store as its callers see it: key to verified result. */
  function View(cfg: Settings, entries: Entries, files: Files): map<string, Cached> {
    Collect(entries.Keys, k => ProbeOwn(cfg, entries, files, k))
  }

  /** The keys an answer exists for, with the answers. */
  function Collect(keys: set<string>, answer: string -> Option<Cached>): map<string, Cached> {
    map k | k in keys && answer(k).Some? :: answer(k).value
  }

  lemma ViewAnswersProbes(cfg: Settings, entries: Entries, files: Files, key: string, expected: string)
    ensures var p := ProbeKey(cfg, entries, files, key, expected);
            var view := View(cfg, entries, files);
      && (p.Loaded? <==> key in view && view[key].hash == expected)
      && (p.Loaded? ==> view[key].records == p.records)
      && (key in view && view[key].hash != expected ==> p.Collision?)
  {}

  /** The payload file, if it can be read, carries another payload hash. */
  ghost predicate FileCollides(cfg: Settings, files: Files, key: string, expected: string) {
    && FileName(key) in files
    && var read := Reading(files[FileName(key)], cfg.repr);
       read.Some? && "payload_hash" in read.value.1 && read.value.1["payload_hash"] != expected
  }

  /** The store holds something else under this key, or cannot hold anything under it. */
  ghost predicate Refuses(cfg: Settings, entries: Entries, files: Files, key: string, expected: string) {
    && key in entries
    && (|| Get(entries[key], "payload_hash") != Some(Str(expected))
        || !IsSafeKey(key)
        || FileCollides(cfg, files, key, expected))
  }

  /** has() raises exactly if the manifest has the key and either gives it another payload hash,
      or the key cannot name a file, or the file carries another payload hash. So a key without
      an entry, a missing, an unreadable or a stale file never raises. */
  lemma RaisesIff(cfg: Settings, entries: Entries, files: Files, key: string, expected: string)
    ensures var p := ProbeKey(cfg, entries, files, key, expected);
      p.Collision? || p.UnsafeKey? <==>
        key in entries &&
        (Get(entries[key], "payload_hash") != Some(Str(expected)) || !IsSafeKey(key)
         || FileCollides(cfg, files, key, expected))
  {}

  // ---------------------------------------------------------------- committing

  datatype Commit = Commit(key: string, hash: string, records: Records, generation: string)

  function MetaFor(cfg: Settings, c: Commit): Meta {
    var body := CanonicalBytes(c.records);
    map["content_key" := c.key,
        "payload_hash" := c.hash,
        "fingerprint" := cfg.fingerprint,
        "schema_version" := Decimal(SCHEMA_VERSION),
        "result_digest" := cfg.digest(body),
        "byte_len" := Decimal(|body|),
        "record_count" := Decimal(|c.records|),
        "generation_id" := c.generation]
  }

  function EntryFor(cfg: Settings, c: Commit): (entry: Entry)
    ensures EntryWellFormed(entry)
  {
    var body := CanonicalBytes(c.records);
    map["payload_hash" := Str(c.hash),
        "schema_version" := Int(SCHEMA_VERSION),
        "result_digest" := Str(cfg.digest(body)),
        "byte_len" := Int(|body|),
        "record_count" := Int(|c.records|),
        "generation_id" := Str(c.generation)]
  }

  /** The manifest entry says field by field what the header of the payload file says, and
      leaves out only what the manifest says elsewhere: the key and the fingerprint. */
  lemma EntryAgrees(cfg: Settings, c: Commit)
    ensures EntryFor(cfg, c).Keys == MetaFor(cfg, c).Keys - {"content_key", "fingerprint"}
    ensures forall field | field in EntryFor(cfg, c) ::
      PyStr(EntryFor(cfg, c)[field], cfg.repr) == MetaFor(cfg, c)[field]
    ensures forall field | field in {"schema_version", "byte_len", "record_count"} ::
      field in EntryFor(cfg, c) && EntryFor(cfg, c)[field].Int?
  {
    var entry, block := EntryFor(cfg, c), MetaFor(cfg, c);
    assert entry.Keys == {"payload_hash", "schema_version", "result_digest", "byte_len", "record_count", "generation_id"};
    assert block.Keys == entry.Keys + {"content_key", "fingerprint"};
    assert "content_key" !in entry && "fingerprint" !in entry;
    forall field | field in entry.Keys ensures PyStr(entry[field], cfg.repr) == block[field] {}
  }

  function Payload(cfg: Settings, c: Commit): Bytes {
    FileBytes(c.records, MetaFor(cfg, c))
  }

  function Published(cfg: Settings, entries: Entries, c: Commit): Entries {
    entries[c.key := EntryFor(cfg, c)]
  }

  /** How far one atomic replacement has got: temporary file, fsync, rename, fsync of the
      directory. The two fsyncs change no file, so these are all the states an ordered disk
      can be found in. */
  datatype ReplaceStage =
    | Writing(partial: Bytes)
    | Written
    | Renamed

  function Rename(files: Files, src: string, dst: string): Files
    requires src in files
  {
    (files - {src})[dst := files[src]]
  }

  function ReplaceFiles(files: Files, tmp: string, final: string, content: Bytes, stage: ReplaceStage): Files {
    match stage
    case Writing(partial) => files[tmp := partial]
    case Written => files[tmp := content]
    case Renamed => Rename(files[tmp := content], tmp, final)
  }

  /** How far a commit has got: the payload file first, the manifest last. */
  datatype Stage = Untouched | InPayload(r: ReplaceStage) | InManifest(r: ReplaceStage)

  const COMPLETE := InManifest(Renamed)

  function StageFiles(files: Files, final: string, tmp: string, payload: Bytes, mtmp: string, manifest: Bytes,
        stage: Stage): Files
  {
    match stage
    case Untouched => files
    case InPayload(r) => ReplaceFiles(files, tmp, final, payload, r)
    case InManifest(r) => ReplaceFiles(ReplaceFiles(files, tmp, final, payload, Renamed), mtmp, MANIFEST_NAME, manifest, r)
  }

  function AtStage(cfg: Settings, entries: Entries, files: Files, c: Commit, tmp: string, mtmp: string,
        stage: Stage): Files
  {
    StageFiles(files, FileName(c.key), tmp, Payload(cfg, c), mtmp,
               ManifestBytes(cfg.fingerprint, Published(cfg, entries, c)), stage)
  }

  predicate PayloadInPlace(stage: Stage) {
    stage == InPayload(Renamed) || stage.InManifest?
  }

  ghost predicate CommitNames(c: Commit, tmp: string, mtmp: string) {
    IsTmpFor(tmp, FileName(c.key)) && IsTmpFor(mtmp, MANIFEST_NAME)
  }

  /** uuid4 gave this commit an identity no entry carries yet. */
  predicate FreshGeneration(entries: Entries, generation: string) {
    forall k | k in entries :: Get(entries[k], "generation_id") != Some(Str(generation))
  }

  /** A file two disks agree on. */
  predicate SameFile(before: Files, after: Files, name: string) {
    (name in before <==> name in after) && (name in before ==> before[name] == after[name])
  }

  predicate Holds(files: Files, name: string, content: Bytes) {
    name in files && files[name] == content
  }

  /** Which of the files that matter a commit touches, stage by stage. */
  lemma StageEffect(cfg: Settings, entries: Entries, files: Files, c: Commit, tmp: string, mtmp: string, stage: Stage,
        key: string)
    requires CommitNames(c, tmp, mtmp)
    ensures var now := AtStage(cfg, entries, files, c, tmp, mtmp, stage);
      && (key != c.key || !PayloadInPlace(stage) ==> SameFile(files, now, FileName(key)))
      && (PayloadInPlace(stage) ==> Holds(now, FileName(c.key), Payload(cfg, c)))
      && (stage != COMPLETE ==> SameFile(files, now, MANIFEST_NAME))
      && (stage == COMPLETE ==>
           Holds(now, MANIFEST_NAME, ManifestBytes(cfg.fingerprint, Published(cfg, entries, c))))
  {
    TmpNamesAreApart(tmp, FileName(c.key), key);
    TmpNamesAreApart(tmp, FileName(c.key), c.key);
    TmpNamesAreApart(mtmp, MANIFEST_NAME, key);
    TmpNamesAreApart(mtmp, MANIFEST_NAME, c.key);
    FileNamesAreApart(key, c.key);
    FileNamesAreApart(c.key, key);
    StageFilesEffect(files, FileName(c.key), tmp, Payload(cfg, c), mtmp,
                     ManifestBytes(cfg.fingerprint, Published(cfg, entries, c)), stage, FileName(key));
  }

  lemma StageFilesEffect(files: Files, final: string, tmp: string, payload: Bytes, mtmp: string, manifest: Bytes,
        stage: Stage, other: string)
    requires tmp !in {final, other, MANIFEST_NAME} && mtmp !in {final, other, MANIFEST_NAME}
    requires final != MANIFEST_NAME && other != MANIFEST_NAME
    ensures var now := StageFiles(files, final, tmp, payload, mtmp, manifest, stage);
      && (other != final || !PayloadInPlace(stage) ==> SameFile(files, now, other))
      && (PayloadInPlace(stage) ==> Holds(now, final, payload))
      && (stage != COMPLETE ==> SameFile(files, now, MANIFEST_NAME))
      && (stage == COMPLETE ==> Holds(now, MANIFEST_NAME, manifest))
  {}

  /** A probe depends on the disk only through the key's own payload file. */
  lemma ProbeFrame(cfg: Settings, entries: Entries, before: Files, after: Files, key: string, expected: string)
    requires SameFile(before, after, FileName(key))
    ensures ProbeKey(cfg, entries, before, key, expected) == ProbeKey(cfg, entries, after, key, expected)
  {}

  /** A payload file next to the entry of its own commit verifies, provided the record
      validator accepts what was committed. */
  lemma OwnPayload(cfg: Settings, entries: Entries, files: Files, c: Commit, expected: string)
    requires IsSafeKey(c.key) && c.key in entries && entries[c.key] == EntryFor(cfg, c)
    requires Holds(files, FileName(c.key), Payload(cfg, c))
    ensures ProbeKey(cfg, entries, files, c.key, expected) ==
      if expected != c.hash then Collision
      else if Accepts(cfg, c.records) then Loaded(c.records)
      else Invalid
  {
    JsonlRoundTrip.ReadUndoesWrite(c.records, MetaFor(cfg, c), cfg.repr);
    OwnCheck(cfg, c, expected);
  }

  lemma OwnCheck(cfg: Settings, c: Commit, expected: string)
    ensures Check(cfg, c.key, expected, c.records, MetaFor(cfg, c), EntryFor(cfg, c)) ==
      if expected != c.hash then Collides
      else if Accepts(cfg, c.records) then Fresh
      else Stale
  {
    var meta, entry := MetaFor(cfg, c), EntryFor(cfg, c);
    assert SameField(meta, entry, "generation_id") && SameField(meta, entry, "result_digest");
    assert FieldText(entry, "byte_len", cfg) == meta["byte_len"];
    assert FieldText(entry, "record_count", cfg) == meta["record_count"];
  }

  /** A payload file of one commit never verifies against the entry of another generation. */
  lemma ForeignPayload(cfg: Settings, writer: Settings, entries: Entries, files: Files, c: Commit, key: string,
        expected: string)
    requires key in entries && IsSafeKey(key) && Get(entries[key], "generation_id") != Some(Str(c.generation))
    requires Holds(files, FileName(key), Payload(writer, c))
    ensures ProbeKey(cfg, entries, files, key, expected) ==
      if Get(entries[key], "payload_hash") == Some(Str(expected)) && expected == c.hash then Invalid else Collision
  {
    JsonlRoundTrip.ReadUndoesWrite(c.records, MetaFor(writer, c), cfg.repr);
    ForeignCheck(cfg, writer, c, key, expected, entries[key]);
  }

  lemma ForeignCheck(cfg: Settings, writer: Settings, c: Commit, key: string, expected: string, entry: Entry)
    requires Get(entry, "generation_id") != Some(Str(c.generation))
    ensures Check(cfg, key, expected, c.records, MetaFor(writer, c), entry) == if expected != c.hash then Collides else Stale
  {
    assert !SameField(MetaFor(writer, c), entry, "generation_id");
  }

  // ---------------------------------------------------------------- opening

  function EntriesOnOpen(cfg: Settings, files: Files): Entries {
    var loaded := LoadEntries(files, cfg.fingerprint);
    if loaded.Some? then loaded.value else map[]
  }

  /** Deletions only: what _wipe_tree and _sweep_orphan_tmps leave, as either may fail to
      delete any particular file. */
  ghost predicate Remains(before: Files, after: Files) {
    forall n | n in after :: n in before && after[n] == before[n]
  }

  ghost predicate Swept(before: Files, after: Files) {
    Remains(before, after) && forall n | n in before && !IsTmpName(n) :: n in after
  }

  /** The disk after the constructor ran on it. */
  ghost predicate Opened(cfg: Settings, before: Files, after: Files) {
    if LoadEntries(before, cfg.fingerprint).Some? then Swept(before, after)
    else
      && MANIFEST_NAME in after && after[MANIFEST_NAME] == ManifestBytes(cfg.fingerprint, map[])
      && Remains(before, after - {MANIFEST_NAME})
  }

  /** Opening the disk a second time finds the entries the first opening found. */
  lemma OpenIsStable(cfg: Settings, before: Files, after: Files)
    requires Opened(cfg, before, after)
    ensures LoadEntries(after, cfg.fingerprint) == Some(EntriesOnOpen(cfg, before))
    ensures WellFormed(EntriesOnOpen(cfg, before))
  {
    ManifestIsNoTmp();
    ManifestRoundTrip(cfg.fingerprint, map[], cfg.fingerprint);
  }
}
