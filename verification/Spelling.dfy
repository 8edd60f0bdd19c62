/** What is written to disk, to the character: escapes, members, lines and names. */
module Spelling {
  import opened KeyOrder
  import opened Json
  import opened Utf8
  import opened Jsonl
  import opened Manifest
  import opened Store

  // ---------------------------------------------------------------- characters

  const HEX := "0123456789abcdef"

  /** The backslash, the letter u and the four hexadecimal digits of n, lower case. */
  ghost predicate IsUnicodeEscape(text: string, n: int) {
    exists i, j, k, l :: 0 <= i < 16 && 0 <= j < 16 && 0 <= k < 16 && 0 <= l < 16
      && n == 4096 * i + 256 * j + 16 * k + l && text == ['\\', 'u', HEX[i], HEX[j], HEX[k], HEX[l]]
  }

  lemma HexDigitIs(d: nat)
    requires d < 16
    ensures HexDigit(d) == HEX[d]
  {}

  lemma UnicodeIs(n: nat)
    requires n < 0x1_0000
    ensures IsUnicodeEscape(Unicode(n), n)
  {
    var q := n / 16;
    var i, j, k, l := q / 16 / 16, q / 16 % 16, q % 16, n % 16;
    HexDigitIs(i);
    HexDigitIs(j);
    HexDigitIs(k);
    HexDigitIs(l);
    assert n == 4096 * i + 256 * j + 16 * k + l;
    assert Unicode(n) == ['\\', 'u', HEX[i], HEX[j], HEX[k], HEX[l]];
  }

  /** Printed as itself is every character from the space on other than the quote and the
      backslash; with ensure_ascii only up to the tilde. */
  lemma PlainCharacters(c: char, ascii: bool)
    requires c >= ' ' && c != '"' && c != '\\' && (ascii ==> c <= '~')
    ensures EscapeChar(c, ascii) == [c]
  {}

  lemma ShortEscapes(ascii: bool)
    ensures EscapeChar('"', ascii) == "\\\"" && EscapeChar('\\', ascii) == "\\\\"
    ensures EscapeChar('\n', ascii) == "\\n" && EscapeChar('\r', ascii) == "\\r" && EscapeChar('\t', ascii) == "\\t"
    ensures EscapeChar(8 as char, ascii) == "\\b" && EscapeChar(12 as char, ascii) == "\\f"
  {}

  /** Every other control character, and with ensure_ascii every other character of the basic
      plane, is printed by its code. */
  lemma CodeEscapes(c: char, ascii: bool)
    requires c < ' ' || (ascii && '~' < c && c as int < 0x1_0000)
    requires c != '\n' && c != '\r' && c != '\t' && c != 8 as char && c != 12 as char
    ensures IsUnicodeEscape(EscapeChar(c, ascii), c as int)
  {
    EscapesByCode(c, ascii);
    UnicodeIs(c as int);
  }

  lemma EscapesByCode(c: char, ascii: bool)
    requires c < ' ' || (ascii && '~' < c && c as int < 0x1_0000)
    requires c != '\n' && c != '\r' && c != '\t' && c != 8 as char && c != 12 as char
    ensures EscapeChar(c, ascii) == Unicode(c as int)
  {}

  /** With ensure_ascii a character beyond the basic plane is printed as a surrogate pair. */
  lemma PairEscapes(c: char) returns (high: nat, low: nat)
    requires c as int >= 0x1_0000
    ensures 0xD800 <= high < 0xDC00 <= low < 0xE000
    ensures c as int == 0x1_0000 + 1024 * (high - 0xD800) + (low - 0xDC00)
    ensures exists head, tail :: EscapeChar(c, true) == head + tail
              && IsUnicodeEscape(head, high) && IsUnicodeEscape(tail, low)
  {
    high, low := HighSurrogate(c), LowSurrogate(c);
    UnicodeIs(high);
    UnicodeIs(low);
    EscapesAsPair(c, high, low);
  }

  lemma EscapesAsPair(c: char, high: nat, low: nat)
    requires c as int >= 0x1_0000 && high == HighSurrogate(c) && low == LowSurrogate(c)
    ensures EscapeChar(c, true) == Unicode(high) + Unicode(low)
  {}

  // ---------------------------------------------------------------- documents

  /** Text without special characters is printed between quotes as it is. */
  lemma {:induction false} PlainText(s: string, ascii: bool)
    requires forall i | 0 <= i < |s| :: ' ' <= s[i] <= '~' && s[i] != '"' && s[i] != '\\'
    ensures EscapeChars(s, ascii) == s
  {
    if s != "" {
      PlainCharacters(s[0], ascii);
      PlainText(s[1..], ascii);
      assert s == [s[0]] + s[1..];
    }
  }

  lemma RenderNone(ascii: bool)
    ensures Render(Obj(map[]), ascii) == "{}"
    ensures Render(Arr([]), ascii) == "[]"
  {
    var none := Obj(map[]);
    assert none.members.Keys == {};
    var ks := SortedKeys(none.members.Keys);
    assert ks == [] && RenderMembers(none, ks, ascii) == "";
    var empty := Arr([]);
    assert RenderItems(empty.items, ascii) == "";
  }

  lemma RenderOne(a: string, x: Value, ascii: bool)
    ensures Render(Obj(map[a := x]), ascii) == "{" + (Quote(a, ascii) + ":" + Render(x, ascii)) + "}"
  {
    var v := Obj(map[a := x]);
    assert v.members.Keys == {a};
    var ks := [a];
    assert Elements(ks) == {a} by { assert ks[0] == a; }
    SortedKeysUnique(ks, {a});
    assert RenderMembers(v, ks, ascii) == RenderMember(v, a, ascii);
  }

  /** Members are printed in ascending key order. */
  lemma RenderTwo(a: string, x: Value, b: string, y: Value, ascii: bool)
    requires InOrder(a, b) && a != b
    ensures Render(Obj(map[b := y, a := x]), ascii) ==
      "{" + (Quote(a, ascii) + ":" + Render(x, ascii) + "," + (Quote(b, ascii) + ":" + Render(y, ascii))) + "}"
  {
    var v := Obj(map[b := y, a := x]);
    assert v.members.Keys == {a, b};
    assert Elements([a, b]) == {a, b} by { assert [a, b][0] == a && [a, b][1] == b; }
    SortedKeysUnique([a, b], {a, b});
    TwoMembers(v, a, b, ascii);
  }

  lemma TwoMembers(v: Value, a: string, b: string, ascii: bool)
    requires v.Obj? && a in v.members && b in v.members
    ensures RenderMembers(v, [a, b], ascii) == RenderMember(v, a, ascii) + "," + RenderMember(v, b, ascii)
  {
    assert [a, b][1..] == [b];
  }

  lemma RenderPair(x: Value, y: Value, ascii: bool)
    ensures Render(Arr([x, y]), ascii) == "[" + (Render(x, ascii) + "," + Render(y, ascii)) + "]"
  {
    assert [x, y][1..] == [y];
    assert RenderItems([x, y], ascii) == Render(x, ascii) + "," + RenderItems([y], ascii);
  }

  /** A payload file is the header line and one line per record, each ended by a newline. */
  lemma FileOfTwo(x: Value, y: Value, meta: Meta)
    ensures FileText([x, y], meta) ==
      Render(Header(meta), false) + "\n" + (Render(x, false) + "\n" + (Render(y, false) + "\n"))
  {
    var one, none := [y], [x, y][2..];
    assert [x, y][1..] == one && one[1..] == none;
    assert none == [] && RecordText(none) == "";
    assert RecordText(one) == Render(y, false) + "\n" + "";
  }

  /** The header is an object with one member, and that holds the identity block. */
  lemma HeaderIs(meta: Meta)
    ensures META_KEY == "__resumable_batch_meta__"
    ensures Render(Header(meta), false) ==
      "{" + (Quote(META_KEY, false) + ":" + Render(Obj(map k | k in meta :: Str(meta[k])), false)) + "}"
  {
    RenderOne(META_KEY, Obj(map k | k in meta :: Str(meta[k])), false);
  }

  lemma ThreeKeys(a: string, b: string, c: string)
    requires a != "" && b != "" && c != "" && a[0] < b[0] < c[0]
    ensures SortedKeys({a, b, c}) == [a, b, c]
  {
    var ks := [a, b, c];
    assert a[..0] == b[..0] == c[..0];
    assert InOrder(a, b) && InOrder(a, c) && InOrder(b, c);
    assert Elements(ks) == {a, b, c} by { assert ks[0] == a && ks[1] == b && ks[2] == c; }
    SortedKeysUnique(ks, {a, b, c});
  }

  lemma ThreeMembers(v: Value, a: string, b: string, c: string, ascii: bool)
    requires v.Obj? && a in v.members && b in v.members && c in v.members
    ensures RenderMembers(v, [a, b, c], ascii) ==
      RenderMember(v, a, ascii) + "," + (RenderMember(v, b, ascii) + "," + RenderMember(v, c, ascii))
  {
    assert [a, b, c][1..] == [b, c];
    TwoMembers(v, b, c, ascii);
  }

  lemma RenderThree(a: string, x: Value, b: string, y: Value, c: string, z: Value, ascii: bool)
    requires a != "" && b != "" && c != "" && a[0] < b[0] < c[0]
    ensures Render(Obj(map[c := z, b := y, a := x]), ascii) ==
      "{" + (Quote(a, ascii) + ":" + Render(x, ascii) + "," + (Quote(b, ascii) + ":" + Render(y, ascii) + ","
        + (Quote(c, ascii) + ":" + Render(z, ascii)))) + "}"
  {
    var v := Obj(map[c := z, b := y, a := x]);
    assert v.members.Keys == {a, b, c};
    ThreeKeys(a, b, c);
    ThreeMembers(v, a, b, c, ascii);
  }

  /** The manifest: its entries, its fingerprint and its schema version, in this order. */
  lemma ManifestIs(fingerprint: string, entries: Entries, e: string, f: string, v: string)
    requires e == "entries" && f == "fingerprint" && v == "schema_version"
    ensures ManifestBytes(fingerprint, entries) == Encode(
      "{" + (Quote(e, true) + ":" + Render(Obj(map k | k in entries :: Obj(entries[k])), true) + ","
        + (Quote(f, true) + ":" + Render(Str(fingerprint), true) + "," + (Quote(v, true) + ":" + Render(Int(2), true)))) + "}")
  {
    RenderThree(e, Obj(map k | k in entries :: Obj(entries[k])), f, Str(fingerprint), v, Int(2), true);
  }

  // ---------------------------------------------------------------- names and bytes

  lemma NameExamples()
    ensures MANIFEST_NAME == "manifest.json"
    ensures FileName("k") == "k.jsonl" && TmpName("k.jsonl", 12, "0a") == "k.jsonl.tmp.12.0a"
  {
    assert Digits(1) == "1" && Digits(12) == Digits(1) + [Digit(2)];
  }

  /** What the sweep takes for a temporary name: anything with .tmp. in it. */
  lemma TmpNamesAre(name: string)
    ensures IsTmpName(name) <==> exists before, after :: name == before + ".tmp." + after
  {
    if IsTmpName(name) {
      var i :| 0 <= i <= |name| && OccursAt(name, ".tmp.", i);
      assert name == name[..i] + ".tmp." + name[i + 5..];
    }
    if before, after :| name == before + ".tmp." + after {
      assert OccursAt(name, ".tmp.", |before|);
    }
  }

  lemma BytesExample()
    ensures EncodeChar(0x41 as char) == [0x41] && EncodeChar(0xE9 as char) == [0xC3, 0xA9]
    ensures EncodeChar(0x20AC as char) == [0xE2, 0x82, 0xAC] && EncodeChar(0x1_F600 as char) == [0xF0, 0x9F, 0x98, 0x80]
  {}
}
