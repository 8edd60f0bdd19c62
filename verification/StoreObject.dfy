/** The store as an object over a disk that can fail at any operation. */
module StoreObject {
  import opened Wrappers
  import KeyOrder
  import Json
  import Utf8
  import opened Jsonl
  import opened Manifest
  import opened Store
  import opened StoreTheorems

  /** What the glob *.tmp.* matches. */
  function TmpNamed(files: Files): set<string> {
    set n | n in files && IsTmpName(n)
  }

  ghost predicate IsReplaceStage(files: Files, tmp: string, final: string, content: Utf8.Bytes, now: Files) {
    exists r :: now == ReplaceFiles(files, tmp, final, content, r)
  }

  /** A file with new content, its temporary name gone, every other file as it was. */
  ghost predicate Replaced(before: Files, after: Files, tmp: string, final: string, content: Utf8.Bytes) {
    && tmp !in after && Holds(after, final, content)
    && forall name | name != tmp && name != final :: SameFile(before, after, name)
  }

  lemma ReplacedInTheEnd(files: Files, tmp: string, final: string, content: Utf8.Bytes)
    requires IsTmpFor(tmp, final)
    ensures Replaced(files, ReplaceFiles(files, tmp, final, content, Renamed), tmp, final, content)
  {
    var pid: nat, nonce :| IsHex(nonce) && tmp == TmpName(final, pid, nonce);
    assert |tmp| > |final|;
  }

  /** An operation of the disk that raised; deletions have a record of their own. */
  datatype Fault = WriteFailed(name: string) | FsyncFailed | ReplaceFailed(src: string, dst: string)

  /** Failure is reported exactly if one operation raised. */
  predicate OnceAtMost(before: seq<Fault>, after: seq<Fault>, ok: bool) {
    if ok then after == before else before <= after && |after| == |before| + 1
  }

  /** What raised, given how far a replacement got. */
  predicate Explains(f: Fault, tmp: string, final: string, reached: ReplaceStage) {
    match reached
    case Writing(_) => f == WriteFailed(tmp)
    case Written => f == FsyncFailed || f == ReplaceFailed(tmp, final)
    case Renamed => f == FsyncFailed
  }

  /** An attempt to delete a file, and whether it went. */
  datatype Unlinked = Unlinked(name: string, gone: bool)

  /** Exactly the named files were tried, and the ones still there are those that would not go. */
  ghost predicate TriedEach(names: set<string>, after: Files, unlinks: seq<Unlinked>) {
    && (forall n | n in names :: if n in after then Unlinked(n, false) in unlinks else Unlinked(n, true) in unlinks)
    && (forall u | u in unlinks :: u.name in names)
  }

  /** The cache directory. trail keeps every state it has been in, for crash arguments,
      unlinks every deletion tried, and faults every other operation that raised. */
  class Disk {
    var files: Files
    ghost var trail: seq<Files>
    ghost var unlinks: seq<Unlinked>
    ghost var faults: seq<Fault>

    constructor (files: Files)
      ensures this.files == files && trail == [] && unlinks == [] && faults == []
    {
      this.files := files;
      trail := [];
      unlinks := [];
      faults := [];
    }

    /** Create or overwrite a file; a failing write may leave any prefix, or any bytes at all. */
    method Write(name: string, content: Utf8.Bytes) returns (ok: bool, partial: Utf8.Bytes)
      modifies this`files, this`trail, this`faults
      ensures ok ==> files == old(files)[name := content]
      ensures !ok ==> files == old(files)[name := partial]
      ensures trail == old(trail) + [files]
      ensures faults == if ok then old(faults) else old(faults) + [WriteFailed(name)]
    {
      ok, partial := *, *;
      files := files[name := if ok then content else partial];
      trail := trail + [files];
      faults := if ok then faults else faults + [WriteFailed(name)];
    }

    /** fsync of a file or of the directory: may raise, changes no content. */
    method Fsync() returns (ok: bool)
      modifies this`faults
      ensures faults == if ok then old(faults) else old(faults) + [FsyncFailed]
    {
      ok := *;
      faults := if ok then faults else faults + [FsyncFailed];
    }

    /** os.replace: atomic, or raises having done nothing. */
    method Replace(src: string, dst: string) returns (ok: bool)
      requires src in files
      modifies this`files, this`trail, this`faults
      ensures files == if ok then Rename(old(files), src, dst) else old(files)
      ensures trail == old(trail) + [files]
      ensures faults == if ok then old(faults) else old(faults) + [ReplaceFailed(src, dst)]
    {
      ok := *;
      if ok {
        files := Rename(files, src, dst);
      }
      trail := trail + [files];
      faults := if ok then faults else faults + [ReplaceFailed(src, dst)];
    }

    /** _tmp_name: the process id and a random nonce. */
    method FreshTmpName(final: string) returns (tmp: string)
      ensures IsTmpFor(tmp, final)
    {
      assert IsHex("0");
      var pid: nat, nonce: string :| IsHex(nonce);
      tmp := TmpName(final, pid, nonce);
    }

    /** A file written under a temporary name, then _atomic_replace_file: fsync the file,
        replace, fsync the directory. reached says how far that got; the rename may have
        happened even on failure. */
    method WriteAtomically(final: string, content: Utf8.Bytes) returns (ok: bool, ghost tmp: string,
          ghost reached: ReplaceStage)
      modifies this`files, this`trail, this`faults
      ensures IsTmpFor(tmp, final)
      ensures OnceAtMost(old(faults), faults, ok)
      ensures !ok ==> Explains(faults[|old(faults)|], tmp, final, reached)
      ensures files == ReplaceFiles(old(files), tmp, final, content, reached)
      ensures ok ==> reached == Renamed && Replaced(old(files), files, tmp, final, content)
      ensures old(trail) <= trail
      ensures forall now | now in trail[|old(trail)|..] :: IsReplaceStage(old(files), tmp, final, content, now)
    {
      var name := FreshTmpName(final);
      tmp := name;
      ReplacedInTheEnd(old(files), tmp, final, content);
      var partial;
      ok, partial := Write(name, content);
      reached := if ok then Written else Writing(partial);
      assert IsReplaceStage(old(files), tmp, final, content, ReplaceFiles(old(files), tmp, final, content, reached));
      if ok {
        ok := Fsync();
        if ok {
          ok := Replace(name, final);
          reached := if ok then Renamed else Written;
          assert IsReplaceStage(old(files), tmp, final, content, ReplaceFiles(old(files), tmp, final, content, reached));
          if ok {
            ok := Fsync();
          }
        }
      }
    }

    /** unlink: may raise, and the callers swallow that. */
    method Unlink(name: string) returns (ok: bool)
      modifies this`files, this`trail, this`unlinks
      ensures files == if ok then old(files) - {name} else old(files)
      ensures unlinks == old(unlinks) + [Unlinked(name, ok)]
    {
      ok := *;
      if ok {
        files := files - {name};
      }
      trail := trail + [files];
      unlinks := unlinks + [Unlinked(name, ok)];
    }
  }

  lemma OneMoreTried(tried: set<string>, files: Files, unlinks: seq<Unlinked>, name: string, gone: bool, after: Files)
    requires TriedEach(tried, files, unlinks) && name !in tried && name in files
    requires after == if gone then files - {name} else files
    ensures TriedEach(tried + {name}, after, unlinks + [Unlinked(name, gone)])
  {
    var all := unlinks + [Unlinked(name, gone)];
    assert all[|unlinks|] in all;
    assert forall u | u in unlinks :: u in all;
  }

  datatype CommitOutcome = Committed | UnsafeKeyError | IoError

  datatype OpenOutcome = Ready | LockNotHeld | NoFingerprint | OpenFailed

  /** What a commit did: its record, its temporary names and how far it got. */
  datatype CommitTrace = CommitTrace(c: Commit, tmp: string, mtmp: string, stage: Stage)

  ghost function UsedGenerations(entries: Entries): set<string> {
    set k | k in entries && HasString(entries[k], "generation_id") :: entries[k]["generation_id"].s
  }

  function Stretch(n: nat): string {
    seq(n, i => 'f')
  }

  /** uuid4 can always come up with something new. */
  lemma {:induction false} FreshExists(used: set<string>) returns (g: string)
    ensures g !in used
    ensures forall u | u in used :: |u| < |g|
  {
    if used == {} {
      g := "";
    } else {
      var u :| u in used;
      var h := FreshExists(used - {u});
      g := Stretch(|h| + |u| + 1);
      assert forall v | v in used :: v == u || v in used - {u};
    }
  }

  /** A state a commit can be interrupted in. */
  ghost predicate Passes(cfg: Settings, entries: Entries, files: Files, t: CommitTrace, now: Files) {
    exists stage :: now == AtStage(cfg, entries, files, t.c, t.tmp, t.mtmp, stage)
  }

  /** The results stored under the given keys, in that order. */
  function InKeyOrder(view: map<string, Cached>, keys: seq<string>): seq<Records>
    requires forall k | k in keys :: k in view
  {
    if keys == [] then [] else [view[keys[0]].records] + InKeyOrder(view, keys[1..])
  }

  lemma {:induction false} InKeyOrderAppend(view: map<string, Cached>, keys: seq<string>, key: string)
    requires (forall k | k in keys :: k in view) && key in view
    ensures InKeyOrder(view, keys + [key]) == InKeyOrder(view, keys) + [view[key].records]
  {
    if keys == [] {
      assert [] + [key] == [key];
    } else {
      InKeyOrderAppend(view, keys[1..], key);
      assert (keys + [key])[1..] == keys[1..] + [key];
    }
  }

  /** The keys listed so far are all answered for. */
  predicate AnswersPrefix(view: map<string, Cached>, expected: map<string, string>, keys: seq<string>, n: nat)
    requires n <= |keys|
  {
    forall k | k in keys[..n] :: AnswersKey(view, expected, k)
  }

  /** One more key, loaded. */
  lemma LoadedOneMore(view: map<string, Cached>, expected: map<string, string>, keys: seq<string>, i: nat)
    requires i < |keys| && AnswersPrefix(view, expected, keys, i) && AnswersKey(view, expected, keys[i])
    ensures AnswersPrefix(view, expected, keys, i + 1)
    ensures InKeyOrder(view, keys[..i + 1]) == InKeyOrder(view, keys[..i]) + [view[keys[i]].records]
  {
    assert keys[..i + 1] == keys[..i] + [keys[i]];
    InKeyOrderAppend(view, keys[..i], keys[i]);
  }

  lemma AllLoaded(view: map<string, Cached>, expected: map<string, string>, keys: seq<string>)
    requires keys == KeyOrder.SortedKeys(expected.Keys) && AnswersPrefix(view, expected, keys, |keys|)
    ensures Answers(view, expected) && InKeyOrder(view, keys[..|keys|]) == InKeyOrder(view, keys)
  {
    assert keys[..|keys|] == keys;
  }

  lemma OneRefused(view: map<string, Cached>, expected: map<string, string>, key: string)
    requires key in expected && !AnswersKey(view, expected, key)
    ensures !Answers(view, expected)
  {}

  /** One result for every key, in the order of the keys. */
  ghost predicate Lists(view: map<string, Cached>, keys: seq<string>, results: seq<Records>) {
    |results| == |keys| && forall i | 0 <= i < |keys| :: keys[i] in view && results[i] == view[keys[i]].records
  }

  lemma {:induction false} InKeyOrderAt(view: map<string, Cached>, keys: seq<string>, i: nat)
    requires (forall k | k in keys :: k in view) && i < |keys|
    ensures |InKeyOrder(view, keys)| == |keys| && InKeyOrder(view, keys)[i] == view[keys[i]].records
  {
    if |keys| > 1 {
      InKeyOrderAt(view, keys[1..], if i > 0 then i - 1 else 0);
    }
  }

  lemma InKeyOrderLists(view: map<string, Cached>, keys: seq<string>)
    requires forall k | k in keys :: k in view
    ensures Lists(view, keys, InKeyOrder(view, keys))
  {
    if keys != [] { InKeyOrderAt(view, keys, 0); }
    forall i | 0 <= i < |keys| ensures keys[i] in view && InKeyOrder(view, keys)[i] == view[keys[i]].records {
      InKeyOrderAt(view, keys, i);
    }
  }

  /** The i-th key in ascending order is the first that is not answered for, and this is why. */
  ghost predicate FirstRefusal(cfg: Settings, entries: Entries, files: Files, expected: map<string, string>, i: int,
        error: Probe)
  {
    var keys := KeyOrder.SortedKeys(expected.Keys);
    && 0 <= i < |keys| && AnswersPrefix(View(cfg, entries, files), expected, keys, i) && keys[i] in expected
    && error == ProbeKey(cfg, entries, files, keys[i], expected[keys[i]]) && !error.Loaded?
  }

  lemma RefusedAt(cfg: Settings, entries: Entries, files: Files, expected: map<string, string>, keys: seq<string>,
        i: nat, error: Probe)
    requires keys == KeyOrder.SortedKeys(expected.Keys) && i < |keys|
    requires AnswersPrefix(View(cfg, entries, files), expected, keys, i)
    requires keys[i] in expected && !AnswersKey(View(cfg, entries, files), expected, keys[i])
    requires error == ProbeKey(cfg, entries, files, keys[i], expected[keys[i]])
    ensures FirstRefusal(cfg, entries, files, expected, i, error) && !Answers(View(cfg, entries, files), expected)
  {
    ViewAnswersProbes(cfg, entries, files, keys[i], expected[keys[i]]);
    OneRefused(View(cfg, entries, files), expected, keys[i]);
  }

  lemma LoadedInOrder(view: map<string, Cached>, expected: map<string, string>, keys: seq<string>, results: seq<Records>)
    requires keys == KeyOrder.SortedKeys(expected.Keys) && AnswersPrefix(view, expected, keys, |keys|)
    requires results == InKeyOrder(view, keys[..|keys|])
    ensures Answers(view, expected) && results == InKeyOrder(view, keys) && Lists(view, keys, results)
  {
    AllLoaded(view, expected, keys);
    InKeyOrderLists(view, keys);
  }

  /** Every requested key is stored under the requested payload hash. */
  predicate Answers(view: map<string, Cached>, expected: map<string, string>) {
    forall k | k in expected :: AnswersKey(view, expected, k)
  }

  predicate AnswersKey(view: map<string, Cached>, expected: map<string, string>, k: string) {
    k in expected && k in view && view[k].hash == expected[k]
  }

  /** The view after a commit: one entry replaced on success, at most that entry lost on failure. */
  function ViewAfter(cfg: Settings, view: map<string, Cached>, key: string, hash: string, records: Records,
        outcome: CommitOutcome, lost: bool): map<string, Cached>
  {
    if outcome.Committed? then
      if Accepts(cfg, records) then view[key := Cached(hash, records)] else Without(view, key)
    else if lost then Without(view, key)
    else view
  }

  /** The two replacements of a commit, one after the other, only pass through its stages. */
  lemma TwoReplacements(cfg: Settings, entries: Entries, files: Files, t: CommitTrace, start: seq<Files>,
        middle: seq<Files>, end: seq<Files>)
    requires start <= middle <= end
    requires forall now | now in middle[|start|..] ::
      IsReplaceStage(files, t.tmp, FileName(t.c.key), Payload(cfg, t.c), now)
    requires forall now | now in end[|middle|..] ::
      IsReplaceStage(ReplaceFiles(files, t.tmp, FileName(t.c.key), Payload(cfg, t.c), Renamed),
                     t.mtmp, MANIFEST_NAME, ManifestBytes(cfg.fingerprint, Published(cfg, entries, t.c)), now)
    ensures forall now | now in end[|start|..] :: Passes(cfg, entries, files, t, now)
  {
    var payload, manifest := Payload(cfg, t.c), ManifestBytes(cfg.fingerprint, Published(cfg, entries, t.c));
    var renamed := ReplaceFiles(files, t.tmp, FileName(t.c.key), payload, Renamed);
    var early, late := middle[|start|..], end[|middle|..];
    forall now | now in early ensures Passes(cfg, entries, files, t, now) {
      PassesPayload(cfg, entries, files, t, payload, now);
    }
    forall now | now in late ensures Passes(cfg, entries, files, t, now) {
      PassesManifest(cfg, entries, files, t, renamed, manifest, now);
    }
    TwoStretches(start, middle, end);
  }

  /** What is in a trail after its start is in the first stretch or in the second. */
  lemma TwoStretches<T>(start: seq<T>, middle: seq<T>, end: seq<T>)
    requires start <= middle <= end
    ensures forall x :: x in end[|start|..] <==> x in middle[|start|..] || x in end[|middle|..]
  {
    assert end[|start|..] == middle[|start|..] + end[|middle|..];
  }

  lemma PassesPayload(cfg: Settings, entries: Entries, files: Files, t: CommitTrace, payload: Utf8.Bytes, now: Files)
    requires payload == Payload(cfg, t.c) && IsReplaceStage(files, t.tmp, FileName(t.c.key), payload, now)
    ensures Passes(cfg, entries, files, t, now)
  {
    var r :| now == ReplaceFiles(files, t.tmp, FileName(t.c.key), payload, r);
    assert now == AtStage(cfg, entries, files, t.c, t.tmp, t.mtmp, InPayload(r));
  }

  lemma PassesManifest(cfg: Settings, entries: Entries, files: Files, t: CommitTrace, renamed: Files,
        manifest: Utf8.Bytes, now: Files)
    requires renamed == ReplaceFiles(files, t.tmp, FileName(t.c.key), Payload(cfg, t.c), Renamed)
    requires manifest == ManifestBytes(cfg.fingerprint, Published(cfg, entries, t.c))
    requires IsReplaceStage(renamed, t.mtmp, MANIFEST_NAME, manifest, now)
    ensures Passes(cfg, entries, files, t, now)
  {
    var r :| now == ReplaceFiles(renamed, t.mtmp, MANIFEST_NAME, manifest, r);
    assert now == AtStage(cfg, entries, files, t.c, t.tmp, t.mtmp, InManifest(r));
  }

  class JsonlStore {
    const cfg: Settings
    const disk: Disk
    var entries: Entries

    /** The disk vouches for everything this instance answers True for. */
    ghost predicate Valid()
      reads this, disk
    {
      Backed(cfg, entries, disk.files)
    }

    ghost function CurrentView(): map<string, Cached>
      reads this, disk
    {
      View(cfg, entries, disk.files)
    }

    constructor (cfg: Settings, disk: Disk)
      ensures this.cfg == cfg && this.disk == disk && entries == map[]
    {
      this.cfg := cfg;
      this.disk := disk;
      entries := map[];
    }

    /** __init__: refuse without a held lock or a fingerprint, then load or invalidate the
        manifest, then sweep orphaned temporary files. */
    method Initialise(lockHeld: bool) returns (outcome: OpenOutcome)
      requires entries == map[]
      modifies this, disk
      ensures outcome == LockNotHeld <==> !lockHeld
      ensures outcome == NoFingerprint <==> lockHeld && cfg.fingerprint == ""
      ensures outcome == LockNotHeld || outcome == NoFingerprint ==> unchanged(disk) && unchanged(this)
      ensures outcome == OpenFailed ==> LoadEntries(old(disk.files), cfg.fingerprint).None?
      ensures OnceAtMost(old(disk.faults), disk.faults, outcome != OpenFailed)
      ensures outcome == Ready ==>
        && Opened(cfg, old(disk.files), disk.files)
        && entries == EntriesOnOpen(cfg, old(disk.files))
        && Valid()
    {
      if !lockHeld {
        return LockNotHeld;
      }
      if cfg.fingerprint == "" {
        return NoFingerprint;
      }
      ghost var before := disk.files;
      var ok := LoadOrInvalidateManifest();
      if !ok {
        return OpenFailed;
      }
      ghost var loaded := disk.files;
      SweepOrphanTmps();
      ManifestIsNoTmp();
      OpenIsBacked(cfg, before, disk.files);
      outcome := Ready;
    }

    method LoadOrInvalidateManifest() returns (ok: bool)
      modifies this, disk
      ensures LoadEntries(old(disk.files), cfg.fingerprint).Some? ==> ok
      ensures OnceAtMost(old(disk.faults), disk.faults, ok)
      ensures entries == EntriesOnOpen(cfg, old(disk.files))
      ensures ok ==>
        if LoadEntries(old(disk.files), cfg.fingerprint).Some? then disk.files == old(disk.files)
        else Opened(cfg, old(disk.files), disk.files)
    {
      var raw: Option<Json.Value> := None;
      if MANIFEST_NAME in disk.files {
        raw := ReadDoc(disk.files[MANIFEST_NAME]);
      }
      var accepted := AcceptDoc(raw, cfg.fingerprint);
      if accepted.Some? {
        entries := accepted.value;
        return true;
      }
      ghost var before := disk.files;
      WipeTree();
      ghost var wiped := disk.files;
      entries := map[];
      ghost var tmp, reached;
      ok, tmp, reached := WriteManifest();
      if ok {
        assert disk.files == Rename(wiped[tmp := ManifestBytes(cfg.fingerprint, map[])], tmp, MANIFEST_NAME);
        assert Remains(before, disk.files - {MANIFEST_NAME});
      }
    }

    /** _wipe_tree: delete every file, ignoring the ones that will not go. */
    method WipeTree()
      modifies disk`files, disk`trail, disk`unlinks
      ensures Remains(old(disk.files), disk.files)
      ensures old(disk.unlinks) <= disk.unlinks
      ensures TriedEach(old(disk.files).Keys, disk.files, disk.unlinks[|old(disk.unlinks)|..])
    {
      ghost var tried: set<string> := {};
      var names := disk.files.Keys;
      while names != {}
        invariant Remains(old(disk.files), disk.files)
        invariant tried + names == old(disk.files).Keys && tried !! names && names <= disk.files.Keys
        invariant old(disk.unlinks) <= disk.unlinks
        invariant TriedEach(tried, disk.files, disk.unlinks[|old(disk.unlinks)|..])
        decreases names
      {
        var name :| name in names;
        tried := TryOne(name, tried, |old(disk.unlinks)|);
        names := names - {name};
      }
    }

    /** One more deletion of a list, its failure ignored. */
    method TryOne(name: string, ghost tried: set<string>, ghost from: nat) returns (ghost tried': set<string>)
      requires from <= |disk.unlinks| && TriedEach(tried, disk.files, disk.unlinks[from..])
      requires name !in tried && name in disk.files
      modifies disk`files, disk`trail, disk`unlinks
      ensures disk.files == old(disk.files) || disk.files == old(disk.files) - {name}
      ensures old(disk.unlinks) <= disk.unlinks
      ensures tried' == tried + {name} && TriedEach(tried', disk.files, disk.unlinks[from..])
    {
      ghost var before, files := disk.unlinks[from..], disk.files;
      var gone := disk.Unlink(name);
      assert disk.unlinks[from..] == before + [Unlinked(name, gone)];
      tried' := tried + {name};
      OneMoreTried(tried, files, before, name, gone, disk.files);
    }

    /** _sweep_orphan_tmps: delete what the glob *.tmp.* matches, ignoring failures. */
    method SweepOrphanTmps()
      modifies disk`files, disk`trail, disk`unlinks
      ensures Swept(old(disk.files), disk.files)
      ensures old(disk.unlinks) <= disk.unlinks
      ensures TriedEach(TmpNamed(old(disk.files)), disk.files, disk.unlinks[|old(disk.unlinks)|..])
    {
      ghost var tried: set<string> := {};
      var names := TmpNamed(disk.files);
      while names != {}
        invariant Swept(old(disk.files), disk.files)
        invariant tried + names == TmpNamed(old(disk.files)) && tried !! names && names <= disk.files.Keys
        invariant old(disk.unlinks) <= disk.unlinks
        invariant TriedEach(tried, disk.files, disk.unlinks[|old(disk.unlinks)|..])
        decreases names
      {
        var name :| name in names;
        assert IsTmpName(name);
        tried := TryOne(name, tried, |old(disk.unlinks)|);
        names := names - {name};
      }
    }

    /** _write_manifest. */
    method WriteManifest() returns (ok: bool, ghost tmp: string, ghost reached: ReplaceStage)
      modifies disk`files, disk`trail, disk`faults
      ensures IsTmpFor(tmp, MANIFEST_NAME)
      ensures OnceAtMost(old(disk.faults), disk.faults, ok)
      ensures !ok ==> Explains(disk.faults[|old(disk.faults)|], tmp, MANIFEST_NAME, reached)
      ensures disk.files == ReplaceFiles(old(disk.files), tmp, MANIFEST_NAME, ManifestBytes(cfg.fingerprint, entries), reached)
      ensures ok ==> reached == Renamed
      ensures old(disk.trail) <= disk.trail
      ensures forall now | now in disk.trail[|old(disk.trail)|..] ::
        IsReplaceStage(old(disk.files), tmp, MANIFEST_NAME, ManifestBytes(cfg.fingerprint, entries), now)
    {
      ok, tmp, reached := disk.WriteAtomically(MANIFEST_NAME, ManifestBytes(cfg.fingerprint, entries));
    }

    // -------------------------------------------------------------- public operations

    /** has(): one verified read; a collision is raised, everything else that is not a hit is a miss. */
    method Has(key: string, expected: string) returns (p: Probe)
      ensures p == ProbeKey(cfg, entries, disk.files, key, expected)
      ensures p.Loaded? <==> key in CurrentView() && CurrentView()[key].hash == expected
      ensures p.Loaded? ==> p.records == CurrentView()[key].records
    {
      ViewAnswersProbes(cfg, entries, disk.files, key, expected);
      if key !in entries {
        return Uncommitted;
      }
      var entry := entries[key];
      if Get(entry, "payload_hash") != Some(Json.Str(expected)) {
        return Collision;
      }
      if !IsSafeKey(key) {
        return UnsafeKey;
      }
      if FileName(key) !in disk.files {
        return Unreadable;
      }
      var read := ReadFile(disk.files[FileName(key)], cfg.repr);
      if read.None? {
        return Unreadable;
      }
      var (records, meta) := read.value;
      match Check(cfg, key, expected, records, meta, entry) {
        case Fresh => p := Loaded(records);
        case Stale => p := Invalid;
        case Collides => p := Collision;
      }
    }

    /** load(): the result itself, or the reason it is refused. */
    method Load(key: string, expected: string) returns (r: Result<Records, Probe>)
      ensures r.Success? <==> key in CurrentView() && CurrentView()[key].hash == expected
      ensures r.Success? ==> r.value == CurrentView()[key].records
      ensures r.Failure? ==> r.error == ProbeKey(cfg, entries, disk.files, key, expected)
    {
      var p := Has(key, expected);
      r := if p.Loaded? then Success(p.records) else Failure(p);
    }

    /** load_all(): every requested result in ascending key order, or the first refusal. */
    method LoadAll(expected: map<string, string>) returns (r: Result<seq<Records>, Probe>)
      ensures r.Success? <==> Answers(CurrentView(), expected)
      ensures r.Success? ==> r.value == InKeyOrder(CurrentView(), KeyOrder.SortedKeys(expected.Keys))
      ensures r.Success? ==> Lists(CurrentView(), KeyOrder.SortedKeys(expected.Keys), r.value)
      ensures r.Failure? ==> exists i :: FirstRefusal(cfg, entries, disk.files, expected, i, r.error)
    {
      var keys := KeyOrder.SortedKeys(expected.Keys);
      ghost var view := CurrentView();
      var results: seq<Records> := [];
      var i := 0;
      while i < |keys|
        invariant 0 <= i <= |keys| && AnswersPrefix(view, expected, keys, i)
        invariant results == InKeyOrder(view, keys[..i])
      {
        var loaded := Load(keys[i], expected[keys[i]]);
        if loaded.Failure? {
          RefusedAt(cfg, entries, disk.files, expected, keys, i, loaded.error);
          return Failure(loaded.error);
        }
        LoadedOneMore(view, expected, keys, i);
        results := results + [loaded.value];
        i := i + 1;
      }
      LoadedInOrder(view, expected, keys, results);
      r := Success(results);
    }

    /** uuid4().hex. */
    method MintGeneration() returns (generation: string)
      ensures FreshGeneration(entries, generation)
    {
      ghost var unused := FreshExists(UsedGenerations(entries));
      forall k | k in entries ensures Get(entries[k], "generation_id") != Some(Json.Str(unused)) {
        if HasString(entries[k], "generation_id") {
          assert entries[k]["generation_id"].s in UsedGenerations(entries);
        }
      }
      assert FreshGeneration(entries, unused);
      generation :| FreshGeneration(entries, generation);
    }

    /** commit(): payload file first, manifest last, memory only after the manifest. */
    method Commit(key: string, hash: string, records: Records) returns (outcome: CommitOutcome, ghost t: CommitTrace)
      requires Valid()
      modifies this, disk
      ensures Valid()
      ensures outcome == UnsafeKeyError <==> !IsSafeKey(key)
      ensures outcome == UnsafeKeyError ==> unchanged(this) && unchanged(disk)
      ensures OnceAtMost(old(disk.faults), disk.faults, outcome != IoError)
      ensures outcome != UnsafeKeyError ==>
        && t.c.key == key && t.c.hash == hash && t.c.records == records
        && FreshGeneration(old(entries), t.c.generation) && CommitNames(t.c, t.tmp, t.mtmp)
        && entries == EntriesAfter(cfg, old(entries), t.c, outcome.Committed?)
        && disk.files == AtStage(cfg, old(entries), old(disk.files), t.c, t.tmp, t.mtmp, t.stage)
      ensures outcome.Committed? ==> t.stage == COMPLETE
      ensures old(disk.trail) <= disk.trail
      ensures forall now | now in disk.trail[|old(disk.trail)|..] :: Passes(cfg, old(entries), old(disk.files), t, now)
      ensures CurrentView() == ViewAfter(cfg, old(CurrentView()), key, hash, records, outcome,
                                         outcome.IoError? && PayloadInPlace(t.stage))
    {
      ghost var before, entriesBefore, start := disk.files, entries, disk.trail;
      var generation := MintGeneration();
      var c := Store.Commit.Commit(key, hash, records, generation);
      t := CommitTrace(c, "", "", Untouched);
      if !IsSafeKey(key) {
        return UnsafeKeyError, t;
      }
      outcome, t := Replace(c);
      CommitStaysBacked(cfg, entriesBefore, before, c, t.tmp, t.mtmp, t.stage, outcome.Committed?);
      CommitView(cfg, entriesBefore, before, c, t.tmp, t.mtmp, t.stage, outcome.Committed?);
    }

    /** The disk half of commit. */
    method Replace(c: Commit) returns (outcome: CommitOutcome, ghost t: CommitTrace)
      modifies this, disk
      ensures outcome != UnsafeKeyError
      ensures OnceAtMost(old(disk.faults), disk.faults, outcome != IoError)
      ensures t.c == c && CommitNames(c, t.tmp, t.mtmp)
      ensures entries == EntriesAfter(cfg, old(entries), c, outcome.Committed?)
      ensures disk.files == AtStage(cfg, old(entries), old(disk.files), c, t.tmp, t.mtmp, t.stage)
      ensures outcome.Committed? ==> t.stage == COMPLETE
      ensures old(disk.trail) <= disk.trail
      ensures forall now | now in disk.trail[|old(disk.trail)|..] :: Passes(cfg, old(entries), old(disk.files), t, now)
    {
      ghost var before, start := disk.files, disk.trail;
      var content := WriteFile(c.records, MetaFor(cfg, c));
      ghost var mtmp := TmpName(MANIFEST_NAME, 0, "0");
      assert IsTmpFor(mtmp, MANIFEST_NAME) by { assert IsHex("0"); }
      var ok;
      ghost var tmp, reached;
      ok, tmp, reached := disk.WriteAtomically(FileName(c.key), content);
      ghost var middle := disk.trail;
      t := CommitTrace(c, tmp, mtmp, InPayload(reached));
      if !ok {
        TwoReplacements(cfg, entries, before, t, start, middle, middle);
        return IoError, t;
      }
      var prior := entries;
      entries := Published(cfg, entries, c);
      ok, mtmp, reached := WriteManifest();
      t := CommitTrace(c, tmp, mtmp, InManifest(reached));
      TwoReplacements(cfg, prior, before, t, start, middle, disk.trail);
      outcome := Committed;
      if !ok {
        entries := prior;
        outcome := IoError;
      }
    }
  }
}
