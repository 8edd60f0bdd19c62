/** Which texts the reader takes for JSON, and for which values: exactly the sentences of the
    grammar of RFC 8259, whatever their spaces and escapes. */
module JsonGrammar {
  import opened Wrappers
  import opened Json
  import opened JsonRoundTrip

  // ---------------------------------------------------------------- spaces

  predicate Spaces(w: string) {
    forall i | 0 <= i < |w| :: w[i] == ' ' || w[i] == '\t' || w[i] == '\n' || w[i] == '\r'
  }

  predicate Unspaced(s: string) {
    s == "" || !IsSpace(s[0])
  }

  lemma {:induction false} SkipsSpaces(w: string, s: string, all: string)
    requires Spaces(w) && Unspaced(s) && all == w + s
    ensures SkipSpace(all) == s
  {
    if w == "" {
      assert all == s;
    } else {
      assert all[0] == w[0] && all[1..] == w[1..] + s;
      SkipsSpaces(w[1..], s, all[1..]);
    }
  }

  lemma {:induction false} SpacesBefore(s: string) returns (w: string)
    ensures Spaces(w) && s == w + SkipSpace(s) && Unspaced(SkipSpace(s))
  {
    if s != "" && IsSpace(s[0]) {
      var more := SpacesBefore(s[1..]);
      w := [s[0]] + more;
      assert s == [s[0]] + s[1..];
    } else {
      w := "";
    }
  }

  lemma Regroup3(a: string, b: string, c: string)
    ensures a + b + c == a + (b + c)
  {}

  // ---------------------------------------------------------------- strings

  /** One character of a string as it may be written. */
  datatype Piece = Plain(c: char) | Short(e: char) | Code(digits: string) | Pair(high: string, low: string)

  predicate IsHex4(digits: string) {
    |digits| == 4 && ParseHex4(digits).Some?
  }

  predicate PieceOk(p: Piece) {
    match p
    case Plain(c) => c >= ' ' && c != '"' && c != '\\'
    case Short(e) => e in "\"\\/bfnrt"
    case Code(digits) => IsHex4(digits) && !(0xD800 <= ParseHex4(digits).value < 0xE000)
    case Pair(high, low) =>
      && IsHex4(high) && 0xD800 <= ParseHex4(high).value < 0xDC00
      && IsHex4(low) && 0xDC00 <= ParseHex4(low).value < 0xE000
  }

  function PieceText(p: Piece): string {
    match p
    case Plain(c) => [c]
    case Short(e) => ['\\', e]
    case Code(digits) => "\\u" + digits
    case Pair(high, low) => "\\u" + high + ("\\u" + low)
  }

  function PieceChar(p: Piece): char
    requires PieceOk(p)
  {
    match p
    case Plain(c) => c
    case Short(e) =>
      if e == 'b' then BACKSPACE else if e == 'f' then FORM_FEED
      else if e == 'n' then '\n' else if e == 'r' then '\r' else if e == 't' then '\t'
      else e
    case Code(digits) => ParseHex4(digits).value as char
    case Pair(high, low) =>
      (0x1_0000 + 1024 * (ParseHex4(high).value - 0xD800) + (ParseHex4(low).value - 0xDC00)) as char
  }

  /** Hexadecimal digits in either case. */
  lemma HexValueIs(c: char, d: nat)
    ensures HexValue(c) == Some(d) <==> d < 16 && (c == "0123456789abcdef"[d] || c == "0123456789ABCDEF"[d])
  {}

  lemma SameHex4(digits: string, s: string, rest: string)
    requires |digits| == 4 && s == digits + rest
    ensures ParseHex4(s) == ParseHex4(digits)
  {
    assert s[0] == digits[0] && s[1] == digits[1] && s[2] == digits[2] && s[3] == digits[3];
  }

  lemma PieceParses(p: Piece, rest: string, s: string)
    requires PieceOk(p) && s == PieceText(p) + rest
    ensures s[0] != '"' && ParseChar(s) == Some((PieceChar(p), rest))
  {
    match p
    case Plain(c) => assert s[1..] == rest;
    case Short(e) => assert s[2..] == rest;
    case Code(digits) => CodeParses(digits, rest, s, s[2..]);
    case Pair(high, low) => PairParses(high, low, rest, s, s[2..]);
  }

  lemma CodeParses(digits: string, rest: string, s: string, u: string)
    requires PieceOk(Code(digits)) && s == PieceText(Code(digits)) + rest && u == s[2..]
    ensures s[0] == '\\' && ParseChar(s) == Some((PieceChar(Code(digits)), rest))
  {
    assert u == digits + rest && u[4..] == rest;
    SameHex4(digits, u, rest);
  }

  lemma PairParses(high: string, low: string, rest: string, s: string, u: string)
    requires PieceOk(Pair(high, low)) && s == PieceText(Pair(high, low)) + rest && u == s[2..]
    ensures s[0] == '\\' && ParseChar(s) == Some((PieceChar(Pair(high, low)), rest))
  {
    var tail := "\\u" + (low + rest);
    assert u == high + tail;
    SameHex4(high, u, tail);
    assert u[4] == '\\' && u[5] == 'u' && u[6..] == low + rest && u[10..] == rest;
    SameHex4(low, u[6..], rest);
  }

  lemma PieceOf(s: string) returns (p: Piece)
    requires ParseChar(s).Some?
    ensures PieceOk(p) && s == PieceText(p) + ParseChar(s).value.1 && PieceChar(p) == ParseChar(s).value.0
  {
    if s[0] != '\\' {
      p := Plain(s[0]);
    } else if s[1] != 'u' {
      p := Short(s[1]);
    } else {
      p := CodeOf(s, s[2..]);
    }
  }

  lemma CodeOf(s: string, u: string) returns (p: Piece)
    requires |s| >= 2 && s[0] == '\\' && s[1] == 'u' && u == s[2..] && ParseUnicode(u).Some?
    ensures PieceOk(p) && s == PieceText(p) + ParseUnicode(u).value.1 && PieceChar(p) == ParseUnicode(u).value.0
  {
    var digits, rest := u[..4], u[4..];
    SameHex4(digits, u, rest);
    if IsHigh(ParseHex4(u).value) {
      var low := u[6..10];
      assert u[6..] == low + u[10..];
      SameHex4(low, u[6..], u[10..]);
      p := Pair(digits, low);
      assert s == "\\u" + digits + ("\\u" + low) + u[10..];
    } else {
      p := Code(digits);
      assert s == "\\u" + digits + rest;
    }
  }

  predicate BodyOk(body: seq<Piece>) {
    forall p | p in body :: PieceOk(p)
  }

  function BodyText(body: seq<Piece>): string {
    if body == [] then "" else PieceText(body[0]) + BodyText(body[1..])
  }

  function BodyString(body: seq<Piece>): string
    requires BodyOk(body)
  {
    if body == [] then "" else [PieceChar(body[0])] + BodyString(body[1..])
  }

  lemma {:induction false} BodyParses(body: seq<Piece>, rest: string, s: string)
    requires BodyOk(body) && s == BodyText(body) + ("\"" + rest)
    ensures ParseChars(s) == Some((BodyString(body), rest))
  {
    if body == [] {
      assert s[1..] == rest;
    } else {
      var tail := BodyText(body[1..]) + ("\"" + rest);
      Regroup3(PieceText(body[0]), BodyText(body[1..]), "\"" + rest);
      PieceParses(body[0], tail, s);
      BodyParses(body[1..], rest, tail);
    }
  }

  lemma {:induction false} BodyOf(s: string) returns (body: seq<Piece>)
    requires ParseChars(s).Some?
    ensures BodyOk(body) && s == BodyText(body) + ("\"" + ParseChars(s).value.1)
    ensures BodyString(body) == ParseChars(s).value.0
    decreases |s|
  {
    if s != "" && s[0] == '"' {
      body := [];
      assert s == "\"" + s[1..];
    } else {
      var p := PieceOf(s);
      var tail := ParseChar(s).value.1;
      var more := BodyOf(tail);
      body := [p] + more;
      assert body[1..] == more;
      assert s == PieceText(p) + BodyText(more) + ("\"" + ParseChars(s).value.1);
    }
  }

  // ---------------------------------------------------------------- values

  /** A value as it may be written. */
  datatype Tree =
    | Word(v: Value)
    | Number(minus: bool, digits: string)
    | Quoted(body: seq<Piece>)
    | NoItems(space: string)
    | NoMembers(space: string)
    | List(space: string, items: Items)
    | Table(space: string, members: Members)

  /** The elements of an array, with the spaces around them. */
  datatype Items =
    | LastItem(t: Tree, after: string)
    | MoreItems(t: Tree, after: string, before: string, more: Items)

  datatype Member = Member(key: seq<Piece>, before: string, after: string, t: Tree)

  datatype Members =
    | LastMember(m: Member, after: string)
    | MoreMembers(m: Member, after: string, before: string, more: Members)

  predicate TreeOk(t: Tree) {
    match t
    case Word(v) => v == Null || v == Bool(false) || v == Bool(true)
    case Number(_, digits) =>
      digits != "" && (forall c | c in digits :: IsDigit(c)) && (digits[0] == '0' ==> digits == "0")
    case Quoted(body) => BodyOk(body)
    case NoItems(space) => Spaces(space)
    case NoMembers(space) => Spaces(space)
    case List(space, items) => Spaces(space) && ItemsOk(items)
    case Table(space, members) => Spaces(space) && MembersOk(members)
  }

  predicate ItemsOk(items: Items) {
    match items
    case LastItem(t, after) => TreeOk(t) && Spaces(after)
    case MoreItems(t, after, before, more) => TreeOk(t) && Spaces(after) && Spaces(before) && ItemsOk(more)
  }

  /** The part of a member before its value. */
  predicate KeyOk(m: Member) {
    BodyOk(m.key) && Spaces(m.before) && Spaces(m.after)
  }

  predicate MembersOk(members: Members) {
    match members
    case LastMember(m, after) => KeyOk(m) && TreeOk(m.t) && Spaces(after)
    case MoreMembers(m, after, before, more) =>
      KeyOk(m) && TreeOk(m.t) && Spaces(after) && Spaces(before) && MembersOk(more)
  }

  function TreeText(t: Tree): string {
    match t
    case Word(v) => if v == Null then "null" else if v == Bool(true) then "true" else "false"
    case Number(minus, digits) => if minus then "-" + digits else digits
    case Quoted(body) => "\"" + (BodyText(body) + "\"")
    case NoItems(space) => "[" + (space + "]")
    case NoMembers(space) => "{" + (space + "}")
    case List(space, items) => "[" + (space + (ItemsText(items) + "]"))
    case Table(space, members) => "{" + (space + (MembersText(members) + "}"))
  }

  function ItemsText(items: Items): string {
    match items
    case LastItem(t, after) => TreeText(t) + after
    case MoreItems(t, after, before, more) => TreeText(t) + (after + ("," + (before + ItemsText(more))))
  }

  function MemberText(m: Member): string {
    "\"" + (BodyText(m.key) + ("\"" + (m.before + (":" + (m.after + TreeText(m.t))))))
  }

  function MembersText(members: Members): string {
    match members
    case LastMember(m, after) => MemberText(m) + after
    case MoreMembers(m, after, before, more) => MemberText(m) + (after + ("," + (before + MembersText(more))))
  }

  function TreeValue(t: Tree): Value
    requires TreeOk(t)
  {
    match t
    case Word(v) => v
    case Number(minus, digits) =>
      var n: int := NatOf(digits);
      Int(if minus then -n else n)
    case Quoted(body) => Str(BodyString(body))
    case NoItems(_) => Arr([])
    case NoMembers(_) => Obj(map[])
    case List(_, items) => Arr(ItemsValue(items))
    case Table(_, members) => Obj(MembersValue(members))
  }

  function ItemsValue(items: Items): seq<Value>
    requires ItemsOk(items)
  {
    match items
    case LastItem(t, _) => [TreeValue(t)]
    case MoreItems(t, _, _, more) => [TreeValue(t)] + ItemsValue(more)
  }

  /** Of members with one key the last counts. */
  function MembersValue(members: Members): map<string, Value>
    requires MembersOk(members)
  {
    match members
    case LastMember(m, _) => map[BodyString(m.key) := TreeValue(m.t)]
    case MoreMembers(m, _, _, more) => map[BodyString(m.key) := TreeValue(m.t)] + MembersValue(more)
  }

  // ---------------------------------------------------------------- every sentence is read

  /** A value, spaces, and what must follow it. */
  lemma ValueThen(s: string, text: string, v: Value, after: string, sep: string)
    requires Reads(text, v) && Spaces(after) && sep != "" && sep[0] in "]},"
    requires s == text + (after + sep)
    ensures Parse(s) == Some((v, after + sep)) && SkipSpace(after + sep) == sep
  {
    var tail := after + sep;
    if after != "" {
      assert tail[0] == after[0];
    }
    assert Ends(tail);
    SkipsSpaces(after, sep, tail);
  }

  /** A tail moved inside. */
  lemma Regroup(text: string, after: string, before: string, more: string, tail: string)
    ensures text + (after + ("," + (before + more))) + tail == text + (after + ("," + (before + (more + tail))))
  {
    var a := before + more;
    var b := "," + a;
    var c := after + b;
    assert a + tail == before + (more + tail);
    assert b + tail == "," + (before + (more + tail));
    assert c + tail == after + ("," + (before + (more + tail)));
    assert text + c + tail == text + (c + tail);
  }

  lemma LastItemThere(text: string, v: Value, after: string)
    requires Reads(text, v) && Spaces(after)
    ensures ReadsItems(text + after, [v])
  {
    forall rest ensures ParseItems(text + after + ("]" + rest)) == Some(([v], rest)) {
      var s, sep := text + after + ("]" + rest), "]" + rest;
      Regroup3(text, after, sep);
      ValueThen(s, text, v, after, sep);
      assert sep[1..] == rest;
    }
  }

  lemma ItemsThen(s: string, text: string, v: Value, after: string, sep: string, before: string, next: string,
        items: seq<Value>, rest: string)
    requires Reads(text, v) && Spaces(after) && Spaces(before) && Solid(next)
    requires sep == "," + (before + next) && s == text + (after + sep)
    requires ParseItems(next) == Some((items, rest))
    ensures ParseItems(s) == Some(([v] + items, rest))
  {
    ValueThen(s, text, v, after, sep);
    assert sep[1..] == before + next;
    SkipsSpaces(before, next, before + next);
  }

  lemma MoreItemsThere(text: string, v: Value, after: string, before: string, more: string, items: seq<Value>)
    requires Reads(text, v) && Spaces(after) && Spaces(before) && ReadsItems(more, items)
    ensures ReadsItems(text + (after + ("," + (before + more))), [v] + items)
  {
    var all := text + (after + ("," + (before + more)));
    forall rest ensures ParseItems(all + ("]" + rest)) == Some(([v] + items, rest)) {
      var next := more + ("]" + rest);
      var sep := "," + (before + next);
      Regroup(text, after, before, more, "]" + rest);
      ItemsThen(all + ("]" + rest), text, v, after, sep, before, next, items, rest);
    }
  }

  lemma ListThere(space: string, inner: string, items: seq<Value>)
    requires Spaces(space) && ReadsItems(inner, items)
    ensures Reads("[" + (space + (inner + "]")), Arr(items))
  {
    var text := "[" + (space + (inner + "]"));
    forall rest | Ends(rest) ensures Parse(text + rest) == Some((Arr(items), rest)) {
      var body := inner + ("]" + rest);
      assert (text + rest)[1..] == space + body;
      SkipsSpaces(space, body, space + body);
    }
  }

  lemma TableThere(space: string, inner: string, members: map<string, Value>)
    requires Spaces(space) && ReadsMembers(inner, members)
    ensures Reads("{" + (space + (inner + "}")), Obj(members))
  {
    var text := "{" + (space + (inner + "}"));
    forall rest | Ends(rest) ensures Parse(text + rest) == Some((Obj(members), rest)) {
      var body := inner + ("}" + rest);
      assert (text + rest)[1..] == space + body;
      SkipsSpaces(space, body, space + body);
    }
  }

  lemma NothingThere(space: string)
    requires Spaces(space)
    ensures Reads("[" + (space + "]"), Arr([])) && Reads("{" + (space + "}"), Obj(map[]))
  {
    forall rest | Ends(rest)
      ensures Parse("[" + (space + "]") + rest) == Some((Arr([]), rest))
      ensures Parse("{" + (space + "}") + rest) == Some((Obj(map[]), rest))
    {
      var list, table := "]" + rest, "}" + rest;
      assert ("[" + (space + "]") + rest)[1..] == space + list && list[1..] == rest;
      assert ("{" + (space + "}") + rest)[1..] == space + table && table[1..] == rest;
      SkipsSpaces(space, list, space + list);
      SkipsSpaces(space, table, space + table);
    }
  }

  lemma QuotedThere(body: seq<Piece>)
    requires BodyOk(body)
    ensures Reads("\"" + (BodyText(body) + "\""), Str(BodyString(body)))
  {
    var text := "\"" + (BodyText(body) + "\"");
    forall rest | Ends(rest) ensures Parse(text + rest) == Some((Str(BodyString(body)), rest)) {
      var inner := BodyText(body) + "\"";
      var chars := inner + rest;
      Regroup3("\"", inner, rest);
      assert (text + rest)[1..] == chars;
      Regroup3(BodyText(body), "\"", rest);
      BodyParses(body, rest, chars);
    }
  }

  lemma DigitsThere(digits: string, rest: string, s: string)
    requires digits != "" && (forall c | c in digits :: IsDigit(c)) && (digits[0] == '0' ==> digits == "0")
    requires Ends(rest) && s == digits + rest
    ensures s != "" && IsDigit(s[0]) && TakeInteger(s) == (digits, rest)
  {
    assert digits[0] in digits && s[0] == digits[0];
    if digits == "0" {
      assert s[1..] == rest;
    } else {
      TakeAllDigits(digits, rest);
    }
  }

  lemma NumberThere(minus: bool, digits: string)
    requires TreeOk(Number(minus, digits))
    ensures Reads(TreeText(Number(minus, digits)), TreeValue(Number(minus, digits)))
  {
    var text := TreeText(Number(minus, digits));
    assert digits[0] in digits;
    forall rest | Ends(rest) ensures Parse(text + rest) == Some((TreeValue(Number(minus, digits)), rest)) {
      var s, body := text + rest, digits + rest;
      DigitsThere(digits, rest, body);
      NumberStarts(s);
      assert s == if minus then "-" + body else body;
      assert minus ==> s[1..] == body;
    }
  }

  lemma MemberThen(s: string, key: string, colon: string, before: string, after: string, value: string, v: Value,
        rest: string)
    requires s != "" && s[0] == '"' && ParseChars(s[1..]) == Some((key, before + colon))
    requires Spaces(before) && Spaces(after) && colon == ":" + (after + value) && Solid(value)
    requires Parse(value) == Some((v, rest))
    ensures ParseMember(s) == Some((key, v, rest))
  {
    SkipsSpaces(before, colon, before + colon);
    assert colon[1..] == after + value;
    SkipsSpaces(after, value, after + value);
  }

  lemma MemberThere(key: seq<Piece>, before: string, after: string, text: string, v: Value, all: string)
    requires BodyOk(key) && Spaces(before) && Spaces(after) && Reads(text, v)
    requires all == "\"" + (BodyText(key) + ("\"" + (before + (":" + (after + text)))))
    ensures ReadsMember(all, BodyString(key), v)
  {
    forall rest | Ends(rest) ensures ParseMember(all + rest) == Some((BodyString(key), v, rest)) {
      var value := text + rest;
      var colon := ":" + (after + value);
      Rest6(BodyText(key), before, after, text, rest, all, colon);
      MemberAt(key, before, colon, all + rest);
      MemberThen(all + rest, BodyString(key), colon, before, after, value, v, rest);
    }
  }

  lemma MemberAt(key: seq<Piece>, before: string, colon: string, s: string)
    requires BodyOk(key) && s == "\"" + (BodyText(key) + ("\"" + (before + colon)))
    ensures s != "" && s[0] == '"' && ParseChars(s[1..]) == Some((BodyString(key), before + colon))
  {
    var chars := BodyText(key) + ("\"" + (before + colon));
    assert s[1..] == chars;
    BodyParses(key, before + colon, chars);
  }

  lemma Rest6(key: string, before: string, after: string, text: string, rest: string, all: string, colon: string)
    requires all == "\"" + (key + ("\"" + (before + (":" + (after + text)))))
    requires colon == ":" + (after + (text + rest))
    ensures all + rest == "\"" + (key + ("\"" + (before + colon)))
  {
    var tail := ":" + (after + text);
    assert tail + rest == colon;
    assert (before + tail) + rest == before + colon;
    assert ("\"" + (before + tail)) + rest == "\"" + (before + colon);
    assert (key + ("\"" + (before + tail))) + rest == key + ("\"" + (before + colon));
  }

  /** A member, spaces, and what must follow it. */
  lemma MemberEnds(s: string, text: string, key: string, v: Value, after: string, sep: string)
    requires ReadsMember(text, key, v) && Spaces(after) && sep != "" && sep[0] in "},"
    requires s == text + (after + sep)
    ensures ParseMember(s) == Some((key, v, after + sep)) && SkipSpace(after + sep) == sep
  {
    var tail := after + sep;
    if after != "" {
      assert tail[0] == after[0];
    }
    assert Ends(tail);
    SkipsSpaces(after, sep, tail);
  }

  lemma LastMemberThere(text: string, key: string, v: Value, after: string)
    requires ReadsMember(text, key, v) && Spaces(after)
    ensures ReadsMembers(text + after, map[key := v])
  {
    forall rest ensures ParseMembers(text + after + ("}" + rest)) == Some((map[key := v], rest)) {
      var s, sep := text + after + ("}" + rest), "}" + rest;
      Regroup3(text, after, sep);
      MemberEnds(s, text, key, v, after, sep);
      assert sep[1..] == rest;
    }
  }

  lemma MembersThen(s: string, text: string, key: string, v: Value, after: string, sep: string, before: string,
        next: string, members: map<string, Value>, rest: string)
    requires ReadsMember(text, key, v) && Spaces(after) && Spaces(before) && Solid(next)
    requires sep == "," + (before + next) && s == text + (after + sep)
    requires ParseMembers(next) == Some((members, rest))
    ensures ParseMembers(s) == Some((map[key := v] + members, rest))
  {
    MemberEnds(s, text, key, v, after, sep);
    assert sep[1..] == before + next;
    SkipsSpaces(before, next, before + next);
  }

  lemma MoreMembersThere(text: string, key: string, v: Value, after: string, before: string, more: string,
        members: map<string, Value>)
    requires ReadsMember(text, key, v) && Spaces(after) && Spaces(before) && ReadsMembers(more, members)
    ensures ReadsMembers(text + (after + ("," + (before + more))), map[key := v] + members)
  {
    var all := text + (after + ("," + (before + more)));
    forall rest ensures ParseMembers(all + ("}" + rest)) == Some((map[key := v] + members, rest)) {
      var next := more + ("}" + rest);
      var sep := "," + (before + next);
      Regroup(text, after, before, more, "}" + rest);
      MembersThen(all + ("}" + rest), text, key, v, after, sep, before, next, members, rest);
    }
  }

  lemma {:induction false} TreeReads(t: Tree)
    requires TreeOk(t)
    ensures Reads(TreeText(t), TreeValue(t))
  {
    match t
    case Word(v) => WordReads(TreeText(t), v);
    case Number(minus, digits) => NumberThere(minus, digits);
    case Quoted(body) => QuotedThere(body);
    case NoItems(space) => NothingThere(space);
    case NoMembers(space) => NothingThere(space);
    case List(space, items) =>
      ItemsRead(items);
      ListThere(space, ItemsText(items), ItemsValue(items));
    case Table(space, members) =>
      MembersRead(members);
      TableThere(space, MembersText(members), MembersValue(members));
  }

  lemma {:induction false} ItemsRead(items: Items)
    requires ItemsOk(items)
    ensures ReadsItems(ItemsText(items), ItemsValue(items))
  {
    TreeReads(items.t);
    match items
    case LastItem(t, after) => LastItemThere(TreeText(t), TreeValue(t), after);
    case MoreItems(t, after, before, more) =>
      ItemsRead(more);
      MoreItemsThere(TreeText(t), TreeValue(t), after, before, ItemsText(more), ItemsValue(more));
  }

  lemma {:induction false} MemberReads(m: Member)
    requires KeyOk(m) && TreeOk(m.t)
    ensures ReadsMember(MemberText(m), BodyString(m.key), TreeValue(m.t))
  {
    TreeReads(m.t);
    MemberThere(m.key, m.before, m.after, TreeText(m.t), TreeValue(m.t), MemberText(m));
  }

  lemma {:induction false} MembersRead(members: Members)
    requires MembersOk(members)
    ensures ReadsMembers(MembersText(members), MembersValue(members))
  {
    MemberReads(members.m);
    match members
    case LastMember(m, after) => LastMemberThere(MemberText(m), BodyString(m.key), TreeValue(m.t), after);
    case MoreMembers(m, after, before, more) =>
      MembersRead(more);
      MoreMembersThere(MemberText(m), BodyString(m.key), TreeValue(m.t), after, before, MembersText(more),
                       MembersValue(more));
  }

  // ---------------------------------------------------------------- and nothing else is

  lemma {:induction false} TreeOf(s: string) returns (t: Tree)
    requires Parse(s).Some?
    ensures TreeOk(t) && TreeValue(t) == Parse(s).value.0 && s == TreeText(t) + Parse(s).value.1
    decreases |s|, 1
  {
    var rest := Parse(s).value.1;
    if s[0] == '"' {
      var body := BodyOf(s[1..]);
      t := Quoted(body);
      assert s == "\"" + (BodyText(body) + ("\"" + rest));
    } else if s[0] == '[' {
      t := ListOf(s);
    } else if s[0] == '{' {
      t := TableOf(s);
    } else {
      t := PlainOf(s);
    }
  }

  lemma PlainOf(s: string) returns (t: Tree)
    requires Parse(s).Some? && s[0] != '"' && s[0] != '[' && s[0] != '{'
    ensures TreeOk(t) && TreeValue(t) == Parse(s).value.0 && s == TreeText(t) + Parse(s).value.1
  {
    if s[0] == 'n' {
      t := Word(Null);
    } else if s[0] == 't' {
      t := Word(Bool(true));
    } else if s[0] == 'f' {
      t := Word(Bool(false));
    } else {
      t := NumberOf(s);
    }
  }

  lemma NumberOf(s: string) returns (t: Tree)
    requires ParseNumber(s).Some?
    ensures TreeOk(t) && TreeValue(t) == ParseNumber(s).value.0 && s == TreeText(t) + ParseNumber(s).value.1
  {
    var minus := s[0] == '-';
    var body := if minus then s[1..] else s;
    var r := TakeInteger(body);
    IntegerIs(body);
    t := Number(minus, r.0);
    if minus {
      assert s == "-" + body;
      Regroup3("-", r.0, r.1);
    }
  }

  lemma IntegerIs(s: string)
    requires s != "" && IsDigit(s[0])
    ensures var r := TakeInteger(s); r.0 + r.1 == s && r.0 != "" && (r.0[0] == '0' ==> r.0 == "0")
  {
    if s[0] != '0' {
      assert TakeDigits(s).0[0] == s[0];
    }
  }

  lemma {:induction false} ListOf(s: string) returns (t: Tree)
    requires Parse(s).Some? && s[0] == '['
    ensures TreeOk(t) && TreeValue(t) == Parse(s).value.0 && s == TreeText(t) + Parse(s).value.1
    decreases |s|, 0
  {
    var rest, inner := Parse(s).value.1, SkipSpace(s[1..]);
    var space := SpacesBefore(s[1..]);
    if inner[0] == ']' {
      t := NoItems(space);
      Enclosed(s, '[', space, "", "]", rest, inner);
    } else {
      var items := ItemsOf(inner);
      t := List(space, items);
      Enclosed(s, '[', space, ItemsText(items), "]", rest, inner);
    }
  }

  lemma {:induction false} TableOf(s: string) returns (t: Tree)
    requires Parse(s).Some? && s[0] == '{'
    ensures TreeOk(t) && TreeValue(t) == Parse(s).value.0 && s == TreeText(t) + Parse(s).value.1
    decreases |s|, 0
  {
    var rest, inner := Parse(s).value.1, SkipSpace(s[1..]);
    var space := SpacesBefore(s[1..]);
    if inner[0] == '}' {
      t := NoMembers(space);
      Enclosed(s, '{', space, "", "}", rest, inner);
    } else {
      var members := MembersOf(inner);
      t := Table(space, members);
      Enclosed(s, '{', space, MembersText(members), "}", rest, inner);
    }
  }

  /** Brackets put back together. */
  lemma Enclosed(s: string, open: char, space: string, text: string, close: string, rest: string, inner: string)
    requires s != "" && s[0] == open && s[1..] == space + inner && inner == text + (close + rest)
    ensures s == [open] + (space + (text + close)) + rest
    ensures text == "" ==> s == [open] + (space + close) + rest
  {
    var body := space + (text + close);
    Regroup3(text, close, rest);
    Regroup3(space, text + close, rest);
    assert s == [open] + (body + rest);
    Regroup3([open], body, rest);
    if text == "" {
      assert text + close == close;
    }
  }

  /** What the reader of elements finds: a value, spaces, and the end or a comma with spaces and
      more elements. */
  lemma ItemsParts(s: string) returns (after: string, sep: string, before: string, next: string)
    requires ParseItems(s).Some?
    ensures Parse(s).Some? && Parse(s).value.1 == after + sep && Spaces(after) && sep != ""
    ensures sep[0] == ']' ==> ParseItems(s).value == ([Parse(s).value.0], sep[1..])
    ensures sep[0] != ']' ==>
      && Spaces(before) && sep == "," + (before + next) && |next| < |s| && ParseItems(next).Some?
      && ParseItems(s).value == ([Parse(s).value.0] + ParseItems(next).value.0, ParseItems(next).value.1)
  {
    var tail := Parse(s).value.1;
    after := SpacesBefore(tail);
    sep := SkipSpace(tail);
    before := SpacesBefore(sep[1..]);
    next := SkipSpace(sep[1..]);
  }

  lemma {:induction false} ItemsOf(s: string) returns (items: Items)
    requires ParseItems(s).Some?
    ensures ItemsOk(items) && ItemsValue(items) == ParseItems(s).value.0
    ensures s == ItemsText(items) + ("]" + ParseItems(s).value.1)
    decreases |s|, 2
  {
    var after, sep, before, next := ItemsParts(s);
    var t := TreeOf(s);
    if sep[0] == ']' {
      items := OneItem(s, t, after, sep);
    } else {
      var more := ItemsOf(next);
      items := MoreItems(t, after, before, more);
      ItemBefore(s, t, after, sep, before, more, ParseItems(next).value.1);
    }
  }

  lemma OneItem(s: string, t: Tree, after: string, sep: string) returns (items: Items)
    requires TreeOk(t) && Spaces(after) && sep != "" && sep[0] == ']' && s == TreeText(t) + (after + sep)
    ensures ItemsOk(items) && ItemsValue(items) == [TreeValue(t)] && s == ItemsText(items) + ("]" + sep[1..])
  {
    items := LastItem(t, after);
    assert sep == "]" + sep[1..];
    Regroup3(TreeText(t), after, sep);
  }

  lemma ItemBefore(s: string, t: Tree, after: string, sep: string, before: string, more: Items, rest: string)
    requires sep == "," + (before + (ItemsText(more) + ("]" + rest))) && s == TreeText(t) + (after + sep)
    ensures s == ItemsText(MoreItems(t, after, before, more)) + ("]" + rest)
  {
    Regroup(TreeText(t), after, before, ItemsText(more), "]" + rest);
  }

  /** What the reader of a member finds: a key, spaces around a colon, and a value. */
  lemma MemberParts(s: string) returns (before: string, colon: string, after: string, value: string)
    requires ParseMember(s).Some?
    ensures s != "" && s[0] == '"' && ParseChars(s[1..]).Some? && ParseChars(s[1..]).value.1 == before + colon
    ensures Spaces(before) && colon == ":" + (after + value) && Spaces(after) && |value| < |s| && Parse(value).Some?
    ensures ParseMember(s).value == (ParseChars(s[1..]).value.0, Parse(value).value.0, Parse(value).value.1)
  {
    var tail := ParseChars(s[1..]).value.1;
    before := SpacesBefore(tail);
    colon := SkipSpace(tail);
    after := SpacesBefore(colon[1..]);
    value := SkipSpace(colon[1..]);
  }

  lemma {:induction false} MemberOf(s: string) returns (m: Member)
    requires ParseMember(s).Some?
    ensures KeyOk(m) && TreeOk(m.t) && BodyString(m.key) == ParseMember(s).value.0
    ensures TreeValue(m.t) == ParseMember(s).value.1 && s == MemberText(m) + ParseMember(s).value.2
    decreases |s|, 2
  {
    var before, colon, after, value := MemberParts(s);
    var key := BodyOf(s[1..]);
    var t := TreeOf(value);
    m := Member(key, before, after, t);
    MemberAgain(s, m, colon, value, Parse(value).value.1);
  }

  lemma MemberAgain(s: string, m: Member, colon: string, value: string, rest: string)
    requires s != "" && s[0] == '"' && s[1..] == BodyText(m.key) + ("\"" + (m.before + colon))
    requires colon == ":" + (m.after + value) && value == TreeText(m.t) + rest
    ensures s == MemberText(m) + rest
  {
    assert s == "\"" + (BodyText(m.key) + ("\"" + (m.before + colon)));
    Rest6(BodyText(m.key), m.before, m.after, TreeText(m.t), rest, MemberText(m), colon);
  }

  lemma MembersParts(s: string) returns (after: string, sep: string, before: string, next: string)
    requires ParseMembers(s).Some?
    ensures ParseMember(s).Some? && ParseMember(s).value.2 == after + sep && Spaces(after) && sep != ""
    ensures sep[0] == '}' ==>
      ParseMembers(s).value == (map[ParseMember(s).value.0 := ParseMember(s).value.1], sep[1..])
    ensures sep[0] != '}' ==>
      && Spaces(before) && sep == "," + (before + next) && |next| < |s| && ParseMembers(next).Some?
      && ParseMembers(s).value.0 == map[ParseMember(s).value.0 := ParseMember(s).value.1] + ParseMembers(next).value.0
      && ParseMembers(s).value.1 == ParseMembers(next).value.1
  {
    var tail := ParseMember(s).value.2;
    after := SpacesBefore(tail);
    sep := SkipSpace(tail);
    before := SpacesBefore(sep[1..]);
    next := SkipSpace(sep[1..]);
  }

  lemma {:induction false} MembersOf(s: string) returns (members: Members)
    requires ParseMembers(s).Some?
    ensures MembersOk(members) && MembersValue(members) == ParseMembers(s).value.0
    ensures s == MembersText(members) + ("}" + ParseMembers(s).value.1)
    decreases |s|, 3
  {
    var after, sep, before, next := MembersParts(s);
    var m := MemberOf(s);
    if sep[0] == '}' {
      members := OneMember(s, m, after, sep);
    } else {
      var more := MembersOf(next);
      members := MoreMembers(m, after, before, more);
      MemberBefore(s, m, after, sep, before, more, ParseMembers(next).value.1);
    }
  }

  lemma OneMember(s: string, m: Member, after: string, sep: string) returns (members: Members)
    requires KeyOk(m) && TreeOk(m.t) && Spaces(after) && sep != "" && sep[0] == '}'
    requires s == MemberText(m) + (after + sep)
    ensures MembersOk(members) && MembersValue(members) == map[BodyString(m.key) := TreeValue(m.t)]
    ensures s == MembersText(members) + ("}" + sep[1..])
  {
    members := LastMember(m, after);
    assert sep == "}" + sep[1..];
    Regroup3(MemberText(m), after, sep);
  }

  lemma MemberBefore(s: string, m: Member, after: string, sep: string, before: string, more: Members, rest: string)
    requires sep == "," + (before + (MembersText(more) + ("}" + rest))) && s == MemberText(m) + (after + sep)
    ensures s == MembersText(MoreMembers(m, after, before, more)) + ("}" + rest)
  {
    Regroup(MemberText(m), after, before, MembersText(more), "}" + rest);
  }

  // ---------------------------------------------------------------- whole documents

  /** A sentence of the grammar for this value, with spaces around it. */
  ghost predicate Writes(s: string, v: Value, before: string, t: Tree, after: string) {
    Spaces(before) && TreeOk(t) && Spaces(after) && TreeValue(t) == v && s == before + (TreeText(t) + after)
  }

  /** A text is read as a value exactly if it is one way of writing that value. */
  lemma LoadsIsGrammar(s: string, v: Value)
    ensures Loads(s) == Some(v) <==> exists before, t, after :: Writes(s, v, before, t, after)
  {
    if Loads(s) == Some(v) {
      var inner := SkipSpace(s);
      var before := SpacesBefore(s);
      var t := TreeOf(inner);
      var after := SpacesBefore(Parse(inner).value.1);
      assert Writes(s, v, before, t, after);
    }
    if before, t, after :| Writes(s, v, before, t, after) {
      TreeReads(t);
      var inner := TreeText(t) + after;
      SkipsSpaces(before, inner, s);
      SkipsSpaces(after, "", after);
      assert Ends(after);
    }
  }
}
