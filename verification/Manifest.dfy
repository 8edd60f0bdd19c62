/** The manifest: which results the store vouches for, as a single JSON document that is
    accepted whole or not at all. */
module Manifest {
  import opened Wrappers
  import opened Json
  import opened JsonRoundTrip
  import opened JsonGrammar
  import opened Utf8
  import Jsonl
  import JsonPrefix
  import JsonlRoundTrip

  const MANIFEST_NAME := "manifest.json"
  const SCHEMA_VERSION := 2

  type Entry = map<string, Value>
  type Entries = map<string, Entry>
  type Files = map<string, Bytes>

  predicate IsWordChar(c: char) {
    'A' <= c <= 'Z' || 'a' <= c <= 'z' || '0' <= c <= '9'
  }

  predicate IsSafeKey(key: string) {
    && key != "." && key != ".."
    && '/' !in key && '\\' !in key
    && key != "" && IsWordChar(key[0])
    && forall c | c in key :: IsWordChar(c) || c in "._-"
  }

  /** A key is safe exactly when it starts with an ASCII letter or digit and goes on with
      letters, digits, dots, underscores and hyphens; so it holds no separator, is not empty and
      is no dot name. */
  lemma SafeKeys(key: string)
    ensures IsSafeKey(key) <==>
      && |key| > 0 && key[0] != '.' && key[0] != '_' && key[0] != '-'
      && forall i | 0 <= i < |key| ::
           'A' <= key[i] <= 'Z' || 'a' <= key[i] <= 'z' || '0' <= key[i] <= '9' || key[i] in ['.', '_', '-']
    ensures IsSafeKey(key) ==> '/' !in key && '\\' !in key && key != "" && key != "." && key != ".."
  {
    assert forall i | 0 <= i < |key| :: key[i] in key;
  }

  lemma SafeKeyExamples()
    ensures IsSafeKey("a.tmp-B_9") && !IsSafeKey("") && !IsSafeKey(".") && !IsSafeKey("..") && !IsSafeKey("-a")
    ensures !IsSafeKey("a/b") && !IsSafeKey("../a") && !IsSafeKey("a\\b") && !IsSafeKey("a b")
  {
    assert "a/b"[1] in "a/b" && "../a"[0] == '.' && "a\\b"[1] in "a\\b" && "a b"[1] in "a b";
  }

  function Get(m: map<string, Value>, field: string): Option<Value> {
    if field in m then Some(m[field]) else None
  }

  predicate HasString(entry: Entry, field: string) {
    field in entry && entry[field].Str?
  }

  predicate EntryWellFormed(entry: Entry) {
    HasString(entry, "payload_hash") && HasString(entry, "generation_id") && HasString(entry, "result_digest")
  }

  /** Every key can name a file and every entry carries the identity fields. */
  predicate WellFormed(entries: Entries) {
    forall k | k in entries :: IsSafeKey(k) && EntryWellFormed(entries[k])
  }

  /** _entries_well_formed, on the JSON the file holds. */
  predicate EntriesWellFormed(entries: map<string, Value>) {
    forall k | k in entries :: IsSafeKey(k) && entries[k].Obj? && EntryWellFormed(entries[k].members)
  }

  function EntriesDoc(entries: Entries): Value {
    Obj(map k | k in entries :: Obj(entries[k]))
  }

  function Doc(fingerprint: string, entries: Entries): Value {
    Obj(map["schema_version" := Int(SCHEMA_VERSION), "fingerprint" := Str(fingerprint), "entries" := EntriesDoc(entries)])
  }

  /** What _write_manifest writes. */
  function ManifestBytes(fingerprint: string, entries: Entries): Bytes {
    Encode(Render(Doc(fingerprint, entries), true))
  }

  /** The JSON document these bytes hold, if they hold one. */
  function ReadDoc(content: Bytes): Option<Value> {
    var text := Decode(content);
    if text.None? then None else Loads(Jsonl.Universal(text.value))
  }

  /** The open-time checks: all entries, or none. */
  function AcceptDoc(raw: Option<Value>, fingerprint: string): Option<Entries> {
    if raw.None? || !raw.value.Obj? then None
    else
      var doc := raw.value.members;
      if Get(doc, "fingerprint") != Some(Str(fingerprint)) then None
      else if Get(doc, "schema_version") != Some(Int(SCHEMA_VERSION)) then None
      else if "entries" !in doc || !doc["entries"].Obj? then None
      else
        var entries := doc["entries"].members;
        if !EntriesWellFormed(entries) then None
        else Some(map k | k in entries :: entries[k].members)
  }

  function LoadManifest(content: Bytes, fingerprint: string): (entries: Option<Entries>)
    ensures entries.Some? ==> WellFormed(entries.value)
  {
    AcceptDoc(ReadDoc(content), fingerprint)
  }

  function LoadEntries(files: Files, fingerprint: string): Option<Entries> {
    if MANIFEST_NAME in files then LoadManifest(files[MANIFEST_NAME], fingerprint) else None
  }

  lemma DocReadsBack(fingerprint: string, entries: Entries)
    ensures ReadDoc(ManifestBytes(fingerprint, entries)) == Some(Doc(fingerprint, entries))
  {
    var text := Render(Doc(fingerprint, entries), true);
    DecodeUndoesEncode(text);
    ValueIsTame(Doc(fingerprint, entries), true);
    JsonlRoundTrip.UniversalLeavesAlone(text);
    LoadsUndoesRender(Doc(fingerprint, entries), true);
  }

  /** A written manifest is accepted by exactly its own fingerprint, and then gives back
      exactly the entries it was written from. */
  lemma ManifestRoundTrip(fingerprint: string, entries: Entries, reader: string)
    requires WellFormed(entries)
    ensures LoadManifest(ManifestBytes(fingerprint, entries), reader)
         == if reader == fingerprint then Some(entries) else None
  {
    DocReadsBack(fingerprint, entries);
    var doc := EntriesDoc(entries).members;
    assert (map k | k in doc :: doc[k].members) == entries;
    assert EntriesWellFormed(doc);
  }

  // ---------------------------------------------------------------- torn files

  /** A printed object whose bytes are cut off anywhere, within a character or between two,
      reads as no document. */
  lemma CutDocument(doc: map<string, Value>, ascii: bool, content: Bytes, n: nat)
    requires content == Encode(Render(Obj(doc), ascii)) && n <= |content|
    ensures ReadDoc(content[..n]) == if n == |content| then Some(Obj(doc)) else None
  {
    var text, cut, lost := Render(Obj(doc), ascii), Decode(content[..n]), Decode(content[n..]);
    DecodeUndoesEncode(text);
    ValueIsTame(Obj(doc), ascii);
    assert content[..n] + content[n..] == content;
    if n == |content| {
      assert content[..n] == content && content[n..] == [];
    }
    if cut.Some? {
      DecodeJoin(content[..n], content[n..]);
      assert forall c | c in cut.value :: c in text;
      JsonlRoundTrip.UniversalLeavesAlone(cut.value);
      JsonPrefix.CutObject(doc, ascii, cut.value, lost.value);
    }
  }

  /** The manifest the store wrote is accepted whole, by its own fingerprint; what a crash left
      of one that was cut short is accepted by none. */
  lemma TornManifestIsRejected(fingerprint: string, entries: Entries, n: nat, reader: string)
    requires WellFormed(entries) && n <= |ManifestBytes(fingerprint, entries)|
    ensures LoadManifest(ManifestBytes(fingerprint, entries)[..n], reader)
         == if n == |ManifestBytes(fingerprint, entries)| && reader == fingerprint then Some(entries) else None
  {
    var content := ManifestBytes(fingerprint, entries);
    CutDocument(Doc(fingerprint, entries).members, true, content, n);
    if n == |content| {
      assert content[..n] == content;
      ManifestRoundTrip(fingerprint, entries, reader);
    }
  }

  // ---------------------------------------------------------------- all or nothing

  predicate Malformed(key: string, entry: Value) {
    || !IsSafeKey(key) || !entry.Obj?
    || exists field | field in {"payload_hash", "generation_id", "result_digest"} ::
         field !in entry.members || !entry.members[field].Str?
  }

  /** Another fingerprint, another schema version, no table of entries, or one bad entry. */
  predicate Rejects(doc: map<string, Value>, fingerprint: string) {
    || Get(doc, "fingerprint") != Some(Str(fingerprint))
    || Get(doc, "schema_version") != Some(Int(SCHEMA_VERSION))
    || "entries" !in doc || !doc["entries"].Obj?
    || exists k | k in doc["entries"].members :: Malformed(k, doc["entries"].members[k])
  }

  /** Whatever bytes the manifest file holds, they are accepted whole or rejected whole:
      rejected exactly when they are not UTF-8, not one JSON document, not an object, or an
      object that Rejects says no to; accepted with every entry as it stands. */
  lemma AllOrNothing(content: Bytes, fingerprint: string)
    ensures var raw, loaded := ReadDoc(content), LoadManifest(content, fingerprint);
      && (loaded.None? <==> raw.None? || !raw.value.Obj? || Rejects(raw.value.members, fingerprint))
      && (loaded.Some? ==>
            && loaded.value.Keys == raw.value.members["entries"].members.Keys
            && forall k | k in loaded.value :: raw.value.members["entries"].members[k] == Obj(loaded.value[k]))
  {}

  /** The same JSON object written in any other way the grammar allows is treated alike. */
  lemma SpellingDoesNotMatter(content: string, doc: map<string, Value>, before: string, t: Tree, after: string,
        ascii: bool, fingerprint: string)
    requires Writes(Jsonl.Universal(content), Obj(doc), before, t, after)
    ensures LoadManifest(Encode(content), fingerprint) == LoadManifest(Encode(Render(Obj(doc), ascii)), fingerprint)
  {
    assert ReadDoc(Encode(content)) == Some(Obj(doc)) by {
      DecodeUndoesEncode(content);
      LoadsIsGrammar(Jsonl.Universal(content), Obj(doc));
    }
    var text := Render(Obj(doc), ascii);
    DecodeUndoesEncode(text);
    ValueIsTame(Obj(doc), ascii);
    JsonlRoundTrip.UniversalLeavesAlone(text);
    LoadsUndoesRender(Obj(doc), ascii);
  }
}
