/** The reader undoes the printer, in both escaping modes and in any context. */
module JsonRoundTrip {
  import opened Wrappers
  import KeyOrder
  import opened Json

  /** What may follow a printed value without being taken for part of it. */
  predicate Ends(rest: string) {
    rest == "" || (!IsDigit(rest[0]) && rest[0] !in ".eE")
  }

  // ---------------------------------------------------------------- numbers

  lemma {:induction false} DigitsAreDigits(n: nat)
    ensures forall c | c in Digits(n) :: IsDigit(c)
    ensures Digits(n) != ""
    ensures n > 0 ==> Digits(n)[0] != '0'
    ensures NatOf(Digits(n)) == n
  {
    if n >= 10 {
      DigitsAreDigits(n / 10);
      var ds := Digits(n);
      assert ds[..|ds| - 1] == Digits(n / 10);
    } else {
      assert Digits(n)[..0] == "";
    }
  }

  lemma {:induction false} TakeAllDigits(ds: string, rest: string)
    requires forall c | c in ds :: IsDigit(c)
    requires rest == "" || !IsDigit(rest[0])
    ensures TakeDigits(ds + rest) == (ds, rest)
  {
    if ds == "" {
      assert ds + rest == rest;
    } else {
      assert (ds + rest)[1..] == ds[1..] + rest;
      assert ds[0] in ds;
      TakeAllDigits(ds[1..], rest);
      assert ds == [ds[0]] + ds[1..];
    }
  }

  lemma IntegerParses(m: nat, rest: string)
    requires Ends(rest)
    ensures var s := Digits(m) + rest; s != "" && IsDigit(s[0]) && TakeInteger(s) == (Digits(m), rest)
  {
    var ds := Digits(m);
    DigitsAreDigits(m);
    assert (ds + rest)[0] == ds[0] && ds[0] in ds;
    if m == 0 {
      assert ds == "0" && (ds + rest)[1..] == rest;
    } else {
      TakeAllDigits(ds, rest);
    }
  }

  lemma SignAndDigits(s: string, body: string, ds: string, n: int, rest: string)
    requires Ends(rest) && body != "" && IsDigit(body[0]) && TakeInteger(body) == (ds, rest)
    requires (forall c | c in ds :: IsDigit(c)) && NatOf(ds) == if n < 0 then -n else n
    requires s == if n < 0 then "-" + body else body
    ensures ParseNumber(s) == Some((Int(n), rest))
  {
    if n < 0 {
      assert s[0] == '-' && s[1..] == body;
    }
  }

  lemma NumberParses(n: int, rest: string)
    requires Ends(rest)
    ensures ParseNumber(Decimal(n) + rest) == Some((Int(n), rest))
  {
    var m: nat := if n < 0 then -n else n;
    var body := Digits(m) + rest;
    DigitsAreDigits(m);
    IntegerParses(m, rest);
    assert Decimal(n) + rest == if n < 0 then "-" + body else body;
    SignAndDigits(Decimal(n) + rest, body, Digits(m), n, rest);
  }

  // ---------------------------------------------------------------- strings

  lemma HexDigitParses(d: nat)
    requires d < 16
    ensures HexValue(HexDigit(d)) == Some(d)
  {}

  lemma FourDigitsParse(a: nat, b: nat, c: nat, d: nat, rest: string)
    requires a < 16 && b < 16 && c < 16 && d < 16
    ensures ParseHex4([HexDigit(a), HexDigit(b), HexDigit(c), HexDigit(d)] + rest) == Some(4096 * a + 256 * b + 16 * c + d)
  {
    HexDigitParses(a);
    HexDigitParses(b);
    HexDigitParses(c);
    HexDigitParses(d);
    var s := [HexDigit(a), HexDigit(b), HexDigit(c), HexDigit(d)] + rest;
    assert s[0] == HexDigit(a) && s[1] == HexDigit(b) && s[2] == HexDigit(c) && s[3] == HexDigit(d);
  }

  lemma HexPlaces(n: nat, q: nat, p: nat, a: nat)
    requires n < 0x1_0000 && q == n / 16 && p == q / 16 && a == p / 16
    ensures a < 16 && 4096 * a + 256 * (p % 16) + 16 * (q % 16) + n % 16 == n
  {}

  lemma Hex4Parses(n: nat, rest: string)
    requires n < 0x1_0000
    ensures ParseHex4(Hex4(n) + rest) == Some(n)
  {
    var q := n / 16;
    var a, b, c, d := q / 16 / 16, q / 16 % 16, q % 16, n % 16;
    HexPlaces(n, q, q / 16, a);
    FourDigitsParse(a, b, c, d, rest);
  }

  lemma UnicodeParses(c: char, rest: string)
    requires c as int < 0x1_0000
    ensures ParseChar(Unicode(c as int) + rest) == Some((c, rest))
  {
    var n := c as int;
    Hex4Parses(n, rest);
    var s := Unicode(n) + rest;
    assert s[2..] == Hex4(n) + rest;
    assert s[2..][4..] == rest;
  }

  lemma SurrogatesParse(c: char, rest: string)
    requires c as int >= 0x1_0000
    ensures ParseChar(Unicode(HighSurrogate(c)) + Unicode(LowSurrogate(c)) + rest) == Some((c, rest))
  {
    var hi, lo := HighSurrogate(c), LowSurrogate(c);
    var tail := Unicode(lo) + rest;
    Hex4Parses(hi, tail);
    Hex4Parses(lo, rest);
    var s, u := Unicode(hi) + Unicode(lo) + rest, Hex4(hi) + tail;
    assert s == "\\u" + u && s[2..] == u;
    assert u[4] == '\\' && u[5] == 'u' && u[6..] == Hex4(lo) + rest && u[10..] == rest;
    PairParses(u, hi, lo, c, rest);
  }

  /** One surrogate pair, read. */
  lemma PairParses(u: string, hi: nat, lo: nat, c: char, rest: string)
    requires c as int >= 0x1_0000 && hi == HighSurrogate(c) && lo == LowSurrogate(c)
    requires |u| >= 10 && ParseHex4(u) == Some(hi) && u[4] == '\\' && u[5] == 'u'
    requires ParseHex4(u[6..]) == Some(lo) && u[10..] == rest
    ensures ParseUnicode(u) == Some((c, rest))
  {
    var n := c as int - 0x1_0000;
    assert 1024 * (n / 1024) + n % 1024 == n;
  }

  lemma CharParses(c: char, ascii: bool, rest: string)
    ensures ParseChar(EscapeChar(c, ascii) + rest) == Some((c, rest))
    ensures EscapeChar(c, ascii)[0] != '"'
  {
    var s := EscapeChar(c, ascii) + rest;
    if c in "\"\\\n\r\t" || c == BACKSPACE || c == FORM_FEED {
      assert s[0] == '\\' && s[2..] == rest;
    } else if c < ' ' || (ascii && c > '~' && c as int < 0x1_0000) {
      UnicodeParses(c, rest);
    } else if ascii && c > '~' {
      SurrogatesParse(c, rest);
    } else {
      assert s[0] == c && s[1..] == rest;
    }
  }

  lemma Rejoin(a: string, b: string, c: string, d: string)
    ensures a + b + c + d == a + (b + (c + d)) == a + (b + c + d)
  {
    assert a + b + c + d == (a + b) + (c + d);
    assert (a + b) + (c + d) == a + (b + (c + d));
    assert b + c + d == b + (c + d);
  }

  /** One step of ParseChars. */
  lemma CharsStep(s: string, c: char, tail: string, more: string, rest: string)
    requires ParseChar(s) == Some((c, tail)) && s[0] != '"' && ParseChars(tail) == Some((more, rest))
    ensures ParseChars(s) == Some(([c] + more, rest))
  {}

  lemma {:induction false} CharsParse(s: string, ascii: bool, rest: string)
    ensures ParseChars(EscapeChars(s, ascii) + "\"" + rest) == Some((s, rest))
  {
    if s == "" {
      assert ("" + "\"" + rest)[1..] == rest;
    } else {
      var head, tail := EscapeChar(s[0], ascii), EscapeChars(s[1..], ascii) + "\"" + rest;
      CharsParse(s[1..], ascii, rest);
      CharParses(s[0], ascii, tail);
      CharsStep(head + tail, s[0], tail, s[1..], rest);
      assert EscapeChars(s, ascii) + "\"" + rest == head + tail by { Rejoin(head, EscapeChars(s[1..], ascii), "\"", rest); }
      assert [s[0]] + s[1..] == s;
    }
  }

  lemma QuoteParses(s: string, ascii: bool, rest: string)
    ensures Quote(s, ascii) + rest != "" && (Quote(s, ascii) + rest)[0] == '"'
    ensures ParseChars((Quote(s, ascii) + rest)[1..]) == Some((s, rest))
  {
    var body := EscapeChars(s, ascii);
    Rejoin("\"", body, "\"", rest);
    assert Quote(s, ascii) + rest == "\"" + (body + "\"" + rest);
    assert ("\"" + (body + "\"" + rest))[1..] == body + "\"" + rest;
    CharsParse(s, ascii, rest);
  }

  // ---------------------------------------------------------------- values

  // What it means for a text to be read as a value, as the elements of an array or as
  // the members of an object, whatever comes after it.

  predicate Solid(s: string) {
    s != "" && !IsSpace(s[0])
  }

  ghost predicate Reads(text: string, v: Value) {
    && Solid(text) && text[0] != ']'
    && forall rest | Ends(rest) :: Parse(text + rest) == Some((v, rest))
  }

  ghost predicate ReadsItems(text: string, items: seq<Value>) {
    && Solid(text) && text[0] != ']'
    && forall rest :: ParseItems(text + ("]" + rest)) == Some((items, rest))
  }

  ghost predicate ReadsMember(text: string, key: string, v: Value) {
    && Solid(text) && text[0] == '"'
    && forall rest | Ends(rest) :: ParseMember(text + rest) == Some((key, v, rest))
  }

  ghost predicate ReadsMembers(text: string, members: map<string, Value>) {
    && Solid(text) && text[0] == '"'
    && forall rest :: ParseMembers(text + ("}" + rest)) == Some((members, rest))
  }

  lemma WordReads(word: string, v: Value)
    requires (word == "null" && v == Null) || (word == "true" && v == Bool(true))
          || (word == "false" && v == Bool(false))
    ensures Reads(word, v)
  {
    forall rest | Ends(rest) ensures Parse(word + rest) == Some((v, rest)) {
      assert word <= word + rest && (word + rest)[|word|..] == rest;
    }
  }

  lemma NumberStarts(s: string)
    requires s != "" && (IsDigit(s[0]) || s[0] == '-')
    ensures Parse(s) == ParseNumber(s)
  {
    var c := s[0];
    assert c != '"' && c != '[' && c != '{' && c != 'n' && c != 't' && c != 'f';
  }

  lemma DecimalStarts(n: int)
    ensures Decimal(n) != "" && (IsDigit(Decimal(n)[0]) || Decimal(n)[0] == '-')
  {
    var m: nat := if n < 0 then -n else n;
    DigitsAreDigits(m);
    assert Digits(m)[0] in Digits(m);
  }

  lemma NumberReads(n: int)
    ensures Reads(Decimal(n), Int(n))
  {
    DecimalStarts(n);
    forall rest | Ends(rest) ensures Parse(Decimal(n) + rest) == Some((Int(n), rest)) {
      assert (Decimal(n) + rest)[0] == Decimal(n)[0];
      NumberStarts(Decimal(n) + rest);
      NumberParses(n, rest);
    }
  }

  lemma QuoteReads(t: string, ascii: bool)
    ensures Reads(Quote(t, ascii), Str(t))
  {
    forall rest | Ends(rest) ensures Parse(Quote(t, ascii) + rest) == Some((Str(t), rest)) {
      QuoteParses(t, ascii, rest);
    }
  }

  lemma EmptyReads()
    ensures Reads("[" + "" + "]", Arr([])) && Reads("{" + "" + "}", Obj(map[]))
  {
    forall rest
      ensures Parse("[" + "" + "]" + rest) == Some((Arr([]), rest))
      ensures Parse("{" + "" + "}" + rest) == Some((Obj(map[]), rest))
    {
      assert ("[" + "" + "]" + rest)[1..] == "]" + rest && ("]" + rest)[1..] == rest;
      assert ("{" + "" + "}" + rest)[1..] == "}" + rest && ("}" + rest)[1..] == rest;
    }
  }

  lemma ArrayReads(inner: string, items: seq<Value>)
    requires ReadsItems(inner, items)
    ensures Reads("[" + inner + "]", Arr(items))
  {
    var text := "[" + inner + "]";
    forall rest | Ends(rest) ensures Parse(text + rest) == Some((Arr(items), rest)) {
      assert (text + rest)[1..] == inner + ("]" + rest);
    }
  }

  lemma ObjectReads(inner: string, members: map<string, Value>)
    requires ReadsMembers(inner, members)
    ensures Reads("{" + inner + "}", Obj(members))
  {
    var text := "{" + inner + "}";
    forall rest | Ends(rest) ensures Parse(text + rest) == Some((Obj(members), rest)) {
      assert (text + rest)[1..] == inner + ("}" + rest);
    }
  }

  lemma LastItemReads(text: string, v: Value)
    requires Reads(text, v)
    ensures ReadsItems(text, [v])
  {
    forall rest ensures ParseItems(text + ("]" + rest)) == Some(([v], rest)) {
      assert ("]" + rest)[1..] == rest;
    }
  }

  /** One step of ParseItems over a comma. */
  lemma ItemStep(s: string, v: Value, after: string, items: seq<Value>, rest: string)
    requires Parse(s) == Some((v, "," + after)) && Solid(after) && ParseItems(after) == Some((items, rest))
    ensures ParseItems(s) == Some(([v] + items, rest))
  {
    assert ("," + after)[1..] == after;
  }

  lemma ItemsAt(s: string, head: string, v: Value, after: string, items: seq<Value>, rest: string)
    requires s == head + ("," + after) && Reads(head, v)
    requires Solid(after) && ParseItems(after) == Some((items, rest))
    ensures ParseItems(s) == Some(([v] + items, rest))
  {
    assert Ends("," + after);
    ItemStep(s, v, after, items, rest);
  }

  lemma MoreItemsRead(head: string, v: Value, tail: string, items: seq<Value>)
    requires Reads(head, v) && ReadsItems(tail, items)
    ensures ReadsItems(head + "," + tail, [v] + items)
  {
    var text := head + "," + tail;
    forall rest ensures ParseItems(text + ("]" + rest)) == Some(([v] + items, rest)) {
      var after := tail + ("]" + rest);
      Rejoin(head, ",", tail, "]" + rest);
      ItemsAt(text + ("]" + rest), head, v, after, items, rest);
    }
  }

  /** One step of ParseMember past the key. */
  lemma MemberStep(s: string, key: string, after: string, v: Value, rest: string)
    requires s != "" && s[0] == '"' && ParseChars(s[1..]) == Some((key, ":" + after))
    requires Solid(after) && Parse(after) == Some((v, rest))
    ensures ParseMember(s) == Some((key, v, rest))
  {
    assert (":" + after)[1..] == after;
  }

  lemma MemberReads(key: string, ascii: bool, text: string, v: Value)
    requires Reads(text, v)
    ensures ReadsMember(Quote(key, ascii) + ":" + text, key, v)
  {
    var member := Quote(key, ascii) + ":" + text;
    forall rest | Ends(rest) ensures ParseMember(member + rest) == Some((key, v, rest)) {
      var after := text + rest;
      Rejoin(Quote(key, ascii), ":", text, rest);
      QuoteParses(key, ascii, ":" + after);
      MemberStep(member + rest, key, after, v, rest);
    }
  }

  lemma LastMemberReads(text: string, key: string, v: Value)
    requires ReadsMember(text, key, v)
    ensures ReadsMembers(text, map[key := v])
  {
    forall rest ensures ParseMembers(text + ("}" + rest)) == Some((map[key := v], rest)) {
      assert ("}" + rest)[1..] == rest;
    }
  }

  /** One step of ParseMembers over a comma. */
  lemma MembersStep(s: string, key: string, v: Value, after: string, members: map<string, Value>, rest: string)
    requires ParseMember(s) == Some((key, v, "," + after)) && Solid(after)
        && ParseMembers(after) == Some((members, rest))
    ensures ParseMembers(s) == Some((map[key := v] + members, rest))
  {
    assert ("," + after)[1..] == after;
  }

  lemma MoreMembersRead(head: string, key: string, v: Value, tail: string, members: map<string, Value>)
    requires ReadsMember(head, key, v) && ReadsMembers(tail, members)
    ensures ReadsMembers(head + "," + tail, map[key := v] + members)
  {
    var text := head + "," + tail;
    forall rest ensures ParseMembers(text + ("}" + rest)) == Some((map[key := v] + members, rest)) {
      var after := tail + ("}" + rest);
      Rejoin(head, ",", tail, "}" + rest);
      MembersStep(text + ("}" + rest), key, v, after, members, rest);
    }
  }

  lemma {:induction false} ValueReads(v: Value, ascii: bool)
    ensures Reads(Render(v, ascii), v)
    decreases v, 1, 0
  {
    match v
    case Null => WordReads("null", v);
    case Bool(b) => WordReads(if b then "true" else "false", v);
    case Int(n) => NumberReads(n);
    case Str(t) => QuoteReads(t, ascii);
    case Arr(items) =>
      if items == [] {
        EmptyReads();
      } else {
        ItemsRead(items, ascii);
        ArrayReads(RenderItems(items, ascii), items);
      }
    case Obj(members) =>
      var keys := KeyOrder.SortedKeys(members.Keys);
      if keys == [] {
        assert members.Keys == {};
        EmptyReads();
      } else {
        MembersRead(v, keys, ascii);
        assert (map k | k in keys :: members[k]) == members;
        ObjectReads(RenderMembers(v, keys, ascii), members);
      }
  }

  lemma {:induction false} ItemsRead(items: seq<Value>, ascii: bool)
    requires items != []
    ensures ReadsItems(RenderItems(items, ascii), items)
    decreases items, 0, 0
  {
    ValueReads(items[0], ascii);
    if |items| == 1 {
      LastItemReads(Render(items[0], ascii), items[0]);
      assert items == [items[0]];
    } else {
      ItemsRead(items[1..], ascii);
      MoreItemsRead(Render(items[0], ascii), items[0], RenderItems(items[1..], ascii), items[1..]);
      assert items == [items[0]] + items[1..];
    }
  }

  lemma {:induction false} MembersRead(v: Value, keys: seq<string>, ascii: bool)
    requires v.Obj? && keys != [] && (forall k | k in keys :: k in v.members)
    ensures ReadsMembers(RenderMembers(v, keys, ascii), map k | k in keys :: v.members[k])
    decreases v, 0, |keys|
  {
    var key, value := keys[0], v.members[keys[0]];
    ValueReads(value, ascii);
    MemberReads(key, ascii, Render(value, ascii), value);
    if |keys| == 1 {
      LastMemberReads(RenderMember(v, key, ascii), key, value);
      assert map[key := value] == (map k | k in keys :: v.members[k]);
    } else {
      var members := map k | k in keys[1..] :: v.members[k];
      MembersRead(v, keys[1..], ascii);
      MoreMembersRead(RenderMember(v, key, ascii), key, value, RenderMembers(v, keys[1..], ascii), members);
      RestrictStep(v.members, keys);
    }
  }

  lemma RestrictStep(members: map<string, Value>, keys: seq<string>)
    requires keys != [] && (forall k | k in keys :: k in members)
    ensures map[keys[0] := members[keys[0]]] + (map k | k in keys[1..] :: members[k])
         == (map k | k in keys :: members[k])
  {
    assert keys == [keys[0]] + keys[1..];
  }

  /** json.loads(json.dumps(v)) == v. */
  lemma LoadsUndoesRender(v: Value, ascii: bool)
    ensures Loads(Render(v, ascii)) == Some(v)
  {
    ValueReads(v, ascii);
    assert Render(v, ascii) + "" == Render(v, ascii);
  }

  /** The compact form is canonical: equal text means equal values. */
  lemma RenderInjective(a: Value, b: Value, ascii: bool)
    requires Render(a, ascii) == Render(b, ascii)
    ensures a == b
  {
    LoadsUndoesRender(a, ascii);
    LoadsUndoesRender(b, ascii);
  }

  // ---------------------------------------------------------------- framing

  /** Text that line framing and newline translation leave alone; pure ASCII on request. */
  predicate Tame(s: string, ascii: bool) {
    forall c | c in s :: c >= ' ' && (ascii ==> c <= '~')
  }

  lemma TameJoin(a: string, b: string, ascii: bool)
    requires Tame(a, ascii) && Tame(b, ascii)
    ensures Tame(a + b, ascii)
  {}

  lemma UnicodeIsTame(n: nat)
    requires n < 0x1_0000
    ensures Tame(Unicode(n), true)
  {
    forall d: nat | d < 16 ensures ' ' <= HexDigit(d) <= '~' {}
  }

  lemma CharIsTame(c: char, ascii: bool)
    ensures Tame(EscapeChar(c, ascii), ascii)
  {
    if c < ' ' || (ascii && c > '~' && c as int < 0x1_0000) {
      UnicodeIsTame(c as int);
    } else if ascii && c > '~' {
      UnicodeIsTame(HighSurrogate(c));
      UnicodeIsTame(LowSurrogate(c));
    }
  }

  lemma {:induction false} CharsAreTame(s: string, ascii: bool)
    ensures Tame(EscapeChars(s, ascii), ascii)
  {
    if s != "" {
      CharIsTame(s[0], ascii);
      CharsAreTame(s[1..], ascii);
      TameJoin(EscapeChar(s[0], ascii), EscapeChars(s[1..], ascii), ascii);
    }
  }

  lemma QuoteIsTame(s: string, ascii: bool)
    ensures Tame(Quote(s, ascii), ascii)
  {
    CharsAreTame(s, ascii);
  }

  lemma DecimalIsTame(n: int, ascii: bool)
    ensures Tame(Decimal(n), ascii)
  {
    DigitsAreDigits(if n < 0 then -n else n);
  }

  /** A printed value is a single line, and pure ASCII when asked to be. */
  lemma {:induction false} ValueIsTame(v: Value, ascii: bool)
    ensures Tame(Render(v, ascii), ascii)
    decreases v, 1, 0
  {
    match v
    case Null => assert Tame("null", ascii);
    case Bool(b) => assert Tame("true", ascii) && Tame("false", ascii);
    case Int(n) => DecimalIsTame(n, ascii);
    case Str(s) => QuoteIsTame(s, ascii);
    case Arr(items) =>
      ItemsAreTame(items, ascii);
      TameJoin("[", RenderItems(items, ascii), ascii);
      TameJoin("[" + RenderItems(items, ascii), "]", ascii);
    case Obj(members) =>
      var keys := KeyOrder.SortedKeys(members.Keys);
      MembersAreTame(v, keys, ascii);
      TameJoin("{", RenderMembers(v, keys, ascii), ascii);
      TameJoin("{" + RenderMembers(v, keys, ascii), "}", ascii);
  }

  lemma {:induction false} ItemsAreTame(items: seq<Value>, ascii: bool)
    ensures Tame(RenderItems(items, ascii), ascii)
    decreases items, 0, 0
  {
    if items != [] {
      ValueIsTame(items[0], ascii);
      ItemsAreTame(items[1..], ascii);
      TameJoin(Render(items[0], ascii), ",", ascii);
      TameJoin(Render(items[0], ascii) + ",", RenderItems(items[1..], ascii), ascii);
    }
  }

  lemma {:induction false} MembersAreTame(v: Value, keys: seq<string>, ascii: bool)
    requires v.Obj? && forall k | k in keys :: k in v.members
    ensures Tame(RenderMembers(v, keys, ascii), ascii)
    decreases v, 0, |keys|
  {
    if keys != [] {
      var quoted, value := Quote(keys[0], ascii) + ":", Render(v.members[keys[0]], ascii);
      QuoteIsTame(keys[0], ascii);
      ValueIsTame(v.members[keys[0]], ascii);
      TameJoin(Quote(keys[0], ascii), ":", ascii);
      TameJoin(quoted, value, ascii);
      MembersAreTame(v, keys[1..], ascii);
      TameJoin(quoted + value, ",", ascii);
      TameJoin(quoted + value + ",", RenderMembers(v, keys[1..], ascii), ascii);
    }
  }
}
