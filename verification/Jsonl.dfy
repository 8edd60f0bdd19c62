/** The JSONL payload file: a header line with the embedded identity block, then one
    record per line. Records alone are the digested scope. */
module Jsonl {
  import opened Wrappers
  import opened Json
  import opened Utf8

  const META_KEY := "__resumable_batch_meta__"

  type Records = seq<Value>
  type Meta = map<string, string>

  /** str() of a JSON value; repr stands for Python's rendering of everything that is
      neither a string nor an integer. */
  function PyStr(v: Value, repr: Value -> string): string {
    match v
    case Str(s) => s
    case Int(n) => Decimal(n)
    case _ => repr(v)
  }

  // ---------------------------------------------------------------- writing

  function Line(v: Value): string {
    Render(v, false) + "\n"
  }

  function RecordText(records: Records): string {
    if records == [] then "" else Line(records[0]) + RecordText(records[1..])
  }

  function Header(meta: Meta): Value {
    Obj(map[META_KEY := Obj(map k | k in meta :: Str(meta[k]))])
  }

  function FileText(records: Records, meta: Meta): string {
    Line(Header(meta)) + RecordText(records)
  }

  /** What a committed payload file holds. */
  function FileBytes(records: Records, meta: Meta): Bytes {
    Encode(FileText(records, meta))
  }

  /** The digest scope: the record lines and nothing of the header. */
  function CanonicalBytes(records: Records): Bytes {
    if records == [] then [] else Encode(Render(records[0], false)) + [10] + CanonicalBytes(records[1..])
  }

  // ---------------------------------------------------------------- reading

  /** Universal newlines: the text-mode reader turns "\r\n" and "\r" into "\n". */
  function Universal(s: string): string {
    if s == "" then ""
    else if s[0] == '\r' then
      "\n" + (if |s| > 1 && s[1] == '\n' then Universal(s[2..]) else Universal(s[1..]))
    else [s[0]] + Universal(s[1..])
  }

  /** s.split("\n"). */
  function SplitLines(s: string): (lines: seq<string>)
    ensures |lines| >= 1
  {
    if s == "" then [""]
    else
      var more := SplitLines(s[1..]);
      if s[0] == '\n' then [""] + more else [[s[0]] + more[0]] + more[1..]
  }

  /** The records on the given lines: blank lines are skipped, a line that is not JSON
      makes the whole file unreadable. */
  function ReadRecords(lines: seq<string>): Option<Records> {
    if lines == [] then Some([])
    else if lines[0] == "" then ReadRecords(lines[1..])
    else
      var head, more := Loads(lines[0]), ReadRecords(lines[1..]);
      if head.Some? && more.Some? then Some([head.value] + more.value) else None
  }

  function DropFinalBlank(lines: seq<string>): seq<string> {
    if lines != [] && lines[|lines| - 1] == "" then lines[..|lines| - 1] else lines
  }

  /** The identity block of a header line. */
  function ReadHeader(line: string, repr: Value -> string): Option<Meta> {
    var head := Loads(line);
    if head.None? || !head.value.Obj? || META_KEY !in head.value.members then None
    else
      var meta := head.value.members[META_KEY];
      if !meta.Obj? then None
      else Some(map k | k in meta.members :: PyStr(meta.members[k], repr))
  }

  function ReadLines(lines: seq<string>, repr: Value -> string): Option<(Records, Meta)> {
    if lines == [] then None
    else
      var meta := ReadHeader(lines[0], repr);
      if meta.None? then None
      else
        var records := ReadRecords(lines[1..]);
        if records.None? then None else Some((records.value, meta.value))
  }

  /** What a payload file of these bytes reads as; None is the benign miss. */
  function Reading(content: Bytes, repr: Value -> string): Option<(Records, Meta)> {
    var text := Decode(content);
    if text.None? then None
    else ReadLines(DropFinalBlank(SplitLines(Universal(text.value))), repr)
  }

  // ---------------------------------------------------------------- the store's two operations

  /** _write_file: the header, then each record in turn. */
  method WriteFile(records: Records, meta: Meta) returns (content: Bytes)
    ensures content == FileBytes(records, meta)
  {
    var text := Render(Header(meta), false) + "\n";
    var i := 0;
    while i < |records|
      invariant 0 <= i <= |records|
      invariant text + RecordText(records[i..]) == FileText(records, meta)
    {
      assert records[i..][1..] == records[i + 1..];
      assert text + RecordText(records[i..]) == text + Line(records[i]) + RecordText(records[i + 1..]);
      text := text + (Render(records[i], false) + "\n");
      i := i + 1;
    }
    assert text + RecordText([]) == text;
    content := Encode(text);
  }

  /** _read_file: decode, split, check the header, then append record after record. */
  method ReadFile(content: Bytes, repr: Value -> string) returns (r: Option<(Records, Meta)>)
    ensures r == Reading(content, repr)
  {
    var text := Decode(content);
    if text.None? {
      return None;
    }
    var lines := SplitLines(Universal(text.value));
    if lines[|lines| - 1] == "" {
      lines := lines[..|lines| - 1];
    }
    if lines == [] {
      return None;
    }
    var head := Loads(lines[0]);
    if head.None? || !head.value.Obj? || META_KEY !in head.value.members {
      return None;
    }
    var block := head.value.members[META_KEY];
    if !block.Obj? {
      return None;
    }
    var records := ReadRecordLines(lines[1..]);
    if records.None? {
      return None;
    }
    var members := block.members;
    var meta := ShowMembers(members, repr);
    r := Some((records.value, meta));
  }

  /** str() of every value of the identity block. */
  method ShowMembers(members: map<string, Value>, repr: Value -> string) returns (meta: Meta)
    ensures meta == map k | k in members :: PyStr(members[k], repr)
  {
    meta := map k | k in members ::
      if members[k].Str? then members[k].s else if members[k].Int? then Decimal(members[k].n) else repr(members[k]);
  }

  /** The loop of _read_file: skip blank lines, give up at the first line that is not JSON. */
  method ReadRecordLines(lines: seq<string>) returns (r: Option<Records>)
    ensures r == ReadRecords(lines)
  {
    var records: Records := [];
    ghost var all := ReadRecords(lines);
    assert all.Some? ==> records + all.value == all.value;
    var i := 0;
    while i < |lines|
      invariant 0 <= i <= |lines|
      invariant ReadRecords(lines) ==
        var more := ReadRecords(lines[i..]);
        if more.Some? then Some(records + more.value) else None
    {
      assert lines[i..][1..] == lines[i + 1..];
      if lines[i] != "" {
        var v := Loads(lines[i]);
        if v.None? {
          return None;
        }
        ghost var more := ReadRecords(lines[i + 1..]);
        assert more.Some? ==> records + ([v.value] + more.value) == (records + [v.value]) + more.value;
        records := records + [v.value];
      }
      i := i + 1;
    }
    assert records + [] == records;
    r := Some(records);
  }
}

/** The reader undoes the printer, and the digest scope determines the records. */
module JsonlRoundTrip {
  import opened Wrappers
  import opened Json
  import opened JsonRoundTrip
  import opened Utf8
  import opened Jsonl

  function Rendered(records: Records): seq<string> {
    if records == [] then [] else [Render(records[0], false)] + Rendered(records[1..])
  }

  lemma {:induction false} UniversalLeavesAlone(s: string)
    requires '\r' !in s
    ensures Universal(s) == s
  {
    if s != "" {
      UniversalLeavesAlone(s[1..]);
      assert s == [s[0]] + s[1..];
    }
  }

  lemma {:induction false} SplitFirstLine(line: string, rest: string)
    requires '\n' !in line
    ensures SplitLines(line + "\n" + rest) == [line] + SplitLines(rest)
  {
    var s := line + "\n" + rest;
    if line == "" {
      assert s[0] == '\n' && s[1..] == rest;
    } else {
      assert line == [line[0]] + line[1..];
      assert s[0] == line[0] && s[1..] == line[1..] + "\n" + rest;
      SplitFirstLine(line[1..], rest);
    }
  }

  /** The three ways of ending a line. */
  predicate EndsLine(sep: string, rest: string) {
    sep == "\n" || sep == "\r\n" || (sep == "\r" && (rest == "" || rest[0] != '\n'))
  }

  lemma UniversalEnd(sep: string, rest: string, s: string)
    requires EndsLine(sep, rest) && s == sep + rest
    ensures Universal(s) == "\n" + Universal(rest)
  {
    if sep == "\r\n" {
      assert s[0] == '\r' && s[1] == '\n' && s[2..] == rest;
    } else {
      assert s[0] == sep[0] && s[1..] == rest;
    }
  }

  lemma {:induction false} UniversalPrefix(line: string, rest: string, s: string, tail: string)
    requires '\r' !in line && s == line + rest && tail == Universal(rest)
    ensures Universal(s) == line + tail
  {
    if line == "" {
      assert s == rest;
    } else {
      var more := s[1..];
      assert more == line[1..] + rest;
      UniversalPrefix(line[1..], rest, more, tail);
      OneMoreCharacter(line, s, more, Universal(more), tail);
    }
  }

  lemma OneMoreCharacter(line: string, s: string, more: string, u: string, tail: string)
    requires line != "" && s != "" && s[0] == line[0] && line[0] != '\r' && more == s[1..]
    requires u == Universal(more) && u == line[1..] + tail
    ensures Universal(s) == line + tail
  {
    assert Universal(s) == [line[0]] + u;
  }

  lemma UniversalLine(line: string, sep: string, rest: string, text: string, end: string, tail: string)
    requires '\r' !in line && EndsLine(sep, rest) && end == sep + rest && text == line + end && tail == Universal(rest)
    ensures Universal(text) == line + ("\n" + tail)
  {
    assert Universal(end) == "\n" + tail by { UniversalEnd(sep, rest, end); }
    UniversalPrefix(line, end, text, "\n" + tail);
  }

  /** A line ends at a newline, a carriage return, or both, and nowhere else. */
  lemma LinesAre(line: string, sep: string, rest: string, text: string)
    requires '\r' !in line && '\n' !in line && EndsLine(sep, rest) && text == line + sep + rest
    ensures SplitLines(Universal(line)) == [line]
    ensures SplitLines(Universal(text)) == [line] + SplitLines(Universal(rest))
  {
    assert SplitLines(Universal(line)) == [line] by {
      UniversalLeavesAlone(line);
      OneLine(line);
    }
    assert SplitLines(Universal(text)) == [line] + SplitLines(Universal(rest)) by {
      var end := sep + rest;
      assert text == line + end;
      UniversalLine(line, sep, rest, text, end, Universal(rest));
      FirstLine(line, Universal(rest), Universal(text));
    }
  }

  lemma FirstLine(line: string, tail: string, s: string)
    requires '\n' !in line && s == line + ("\n" + tail)
    ensures SplitLines(s) == [line] + SplitLines(tail)
  {
    assert s == line + "\n" + tail;
    SplitFirstLine(line, tail);
  }

  lemma {:induction false} OneLine(line: string)
    requires '\n' !in line
    ensures SplitLines(line) == [line]
  {
    if line != "" {
      OneLine(line[1..]);
      assert line == [line[0]] + line[1..];
    }
  }

  lemma LineIsClean(v: Value)
    ensures '\n' !in Render(v, false) && '\r' !in Line(v)
    ensures Render(v, false) != ""
  {
    ValueIsTame(v, false);
    ValueReads(v, false);
  }

  lemma {:induction false} RecordTextIsClean(records: Records)
    ensures '\r' !in RecordText(records)
  {
    if records != [] {
      LineIsClean(records[0]);
      RecordTextIsClean(records[1..]);
    }
  }

  lemma {:induction false} SplitRecords(records: Records)
    ensures SplitLines(RecordText(records)) == Rendered(records) + [""]
  {
    if records != [] {
      LineIsClean(records[0]);
      SplitFirstLine(Render(records[0], false), RecordText(records[1..]));
      SplitRecords(records[1..]);
    }
  }

  lemma {:induction false} RenderedReadsBack(records: Records)
    ensures ReadRecords(Rendered(records)) == Some(records)
  {
    if records != [] {
      LineIsClean(records[0]);
      LoadsUndoesRender(records[0], false);
      RenderedReadsBack(records[1..]);
      var lines := Rendered(records);
      assert lines[0] == Render(records[0], false) && lines[1..] == Rendered(records[1..]);
      assert records == [records[0]] + records[1..];
    }
  }

  lemma MetaReadsBack(meta: Meta, repr: Value -> string)
    ensures var block := (map k | k in meta :: Str(meta[k]));
      (map k | k in block :: PyStr(block[k], repr)) == meta
  {}

  lemma HeaderReadsBack(meta: Meta, repr: Value -> string)
    ensures ReadHeader(Render(Header(meta), false), repr) == Some(meta)
  {
    LoadsUndoesRender(Header(meta), false);
    MetaReadsBack(meta, repr);
    var block := Obj(map k | k in meta :: Str(meta[k]));
    assert Header(meta).members == map[META_KEY := block];
  }

  /** _read_file(_write_file(records, meta)) gives back the records and the meta map. */
  lemma ReadUndoesWrite(records: Records, meta: Meta, repr: Value -> string)
    ensures Reading(FileBytes(records, meta), repr) == Some((records, meta))
  {
    var text := FileText(records, meta);
    var header := Render(Header(meta), false);
    DecodeUndoesEncode(text);
    assert Universal(text) == text by {
      LineIsClean(Header(meta));
      RecordTextIsClean(records);
      UniversalLeavesAlone(text);
    }
    var lines := [header] + Rendered(records);
    assert SplitLines(text) == lines + [""] by {
      LineIsClean(Header(meta));
      SplitFirstLine(header, RecordText(records));
      SplitRecords(records);
    }
    assert DropFinalBlank(lines + [""]) == lines;
    assert lines[1..] == Rendered(records);
    HeaderReadsBack(meta, repr);
    RenderedReadsBack(records);
  }

  lemma {:induction false} CanonicalIsRecordText(records: Records)
    ensures CanonicalBytes(records) == Encode(RecordText(records))
  {
    if records != [] {
      var line := Render(records[0], false);
      CanonicalIsRecordText(records[1..]);
      EncodeJoin(line + "\n", RecordText(records[1..]));
      EncodeJoin(line, "\n");
      assert "\n"[1..] == "" && Encode("\n") == EncodeChar('\n') + Encode("");
    }
  }

  /** Equal digest scopes mean equal record lists: nothing dropped, added, reordered or altered. */
  lemma CanonicalInjective(a: Records, b: Records)
    requires CanonicalBytes(a) == CanonicalBytes(b)
    ensures a == b
  {
    CanonicalIsRecordText(a);
    CanonicalIsRecordText(b);
    DecodeUndoesEncode(RecordText(a));
    DecodeUndoesEncode(RecordText(b));
    SplitRecords(a);
    SplitRecords(b);
    assert (Rendered(a) + [""])[..|Rendered(a)|] == Rendered(a);
    assert (Rendered(b) + [""])[..|Rendered(b)|] == Rendered(b);
    assert |Rendered(a) + [""]| == |Rendered(a)| + 1 && |Rendered(b) + [""]| == |Rendered(b)| + 1;
    RenderedReadsBack(a);
    RenderedReadsBack(b);
  }
}
