/** JSON values, the compact printer and the reader: the part of Python's json module
    (the syntax of RFC 8259) that the stores lean on.

    Printing is json.dumps(v, sort_keys=True, separators=(",", ":"), ensure_ascii=ascii).
    Reading is json.loads. Floating-point numbers and lone surrogates have no Value;
    the reader reports them as unreadable. */
module Json {
  import opened Wrappers
  import KeyOrder

  datatype Value =
    | Null
    | Bool(b: bool)
    | Int(n: int)
    | Str(s: string)
    | Arr(items: seq<Value>)
    | Obj(members: map<string, Value>)

  // ---------------------------------------------------------------- printing

  function Render(v: Value, ascii: bool): string
    decreases v, 1, 0
  {
    match v
    case Null => "null"
    case Bool(b) => if b then "true" else "false"
    case Int(n) => Decimal(n)
    case Str(s) => Quote(s, ascii)
    case Arr(items) => "[" + RenderItems(items, ascii) + "]"
    case Obj(members) => "{" + RenderMembers(v, KeyOrder.SortedKeys(members.Keys), ascii) + "}"
  }

  function RenderItems(items: seq<Value>, ascii: bool): string
    decreases items, 0, 0
  {
    if items == [] then ""
    else if |items| == 1 then Render(items[0], ascii)
    else Render(items[0], ascii) + "," + RenderItems(items[1..], ascii)
  }

  function RenderMember(v: Value, key: string, ascii: bool): string
    requires v.Obj? && key in v.members
    decreases v, 0, 0
  {
    Quote(key, ascii) + ":" + Render(v.members[key], ascii)
  }

  function RenderMembers(v: Value, keys: seq<string>, ascii: bool): string
    requires v.Obj? && forall k | k in keys :: k in v.members
    decreases v, 0, |keys|
  {
    if keys == [] then ""
    else if |keys| == 1 then RenderMember(v, keys[0], ascii)
    else RenderMember(v, keys[0], ascii) + "," + RenderMembers(v, keys[1..], ascii)
  }

  function Digit(d: nat): char
    requires d < 10
  {
    (('0' as int) + d) as char
  }

  function Digits(n: nat): string {
    if n < 10 then [Digit(n)] else Digits(n / 10) + [Digit(n % 10)]
  }

  function Decimal(n: int): string {
    if n < 0 then "-" + Digits(-n) else Digits(n)
  }

  const BACKSPACE: char := 8 as char
  const FORM_FEED: char := 12 as char

  function HexDigit(d: nat): char
    requires d < 16
  {
    if d < 10 then Digit(d) else (('a' as int) + d - 10) as char
  }

  function Hex4(n: nat): string
    requires n < 0x1_0000
  {
    var (sixteens, rest) := (n / 16, n % 16);
    [HexDigit(sixteens / 16 / 16), HexDigit(sixteens / 16 % 16), HexDigit(sixteens % 16), HexDigit(rest)]
  }

  function Unicode(n: nat): string
    requires n < 0x1_0000
  {
    "\\u" + Hex4(n)
  }

  function EscapeChar(c: char, ascii: bool): string {
    if c == '"' then "\\\""
    else if c == '\\' then "\\\\"
    else if c == '\n' then "\\n"
    else if c == '\r' then "\\r"
    else if c == '\t' then "\\t"
    else if c == BACKSPACE then "\\b"
    else if c == FORM_FEED then "\\f"
    else if c < ' ' then Unicode(c as int)
    else if ascii && c > '~' then
      if c as int < 0x1_0000 then Unicode(c as int)
      else Unicode(HighSurrogate(c)) + Unicode(LowSurrogate(c))
    else [c]
  }

  function HighSurrogate(c: char): nat
    requires c as int >= 0x1_0000
  {
    0xD800 + (c as int - 0x1_0000) / 1024
  }

  function LowSurrogate(c: char): nat
    requires c as int >= 0x1_0000
  {
    0xDC00 + (c as int - 0x1_0000) % 1024
  }

  function EscapeChars(s: string, ascii: bool): string {
    if s == "" then "" else EscapeChar(s[0], ascii) + EscapeChars(s[1..], ascii)
  }

  function Quote(s: string, ascii: bool): string {
    "\"" + EscapeChars(s, ascii) + "\""
  }

  // ---------------------------------------------------------------- reading

  predicate IsSpace(c: char) {
    c == ' ' || c == '\t' || c == '\n' || c == '\r'
  }

  function SkipSpace(s: string): (rest: string)
    ensures |rest| <= |s|
  {
    if s != "" && IsSpace(s[0]) then SkipSpace(s[1..]) else s
  }

  predicate IsDigit(c: char) {
    '0' <= c <= '9'
  }

  function DigitValue(c: char): nat
    requires IsDigit(c)
  {
    c as int - '0' as int
  }

  /** The longest leading run of digits, and what follows it. */
  function TakeDigits(s: string): (r: (string, string))
    ensures r.0 + r.1 == s
    ensures forall c | c in r.0 :: IsDigit(c)
  {
    if s == "" || !IsDigit(s[0]) then ("", s)
    else
      var (more, rest) := TakeDigits(s[1..]);
      assert s == [s[0]] + s[1..];
      ([s[0]] + more, rest)
  }

  function NatOf(digits: string): nat
    requires forall c | c in digits :: IsDigit(c)
  {
    if digits == "" then 0
    else 10 * NatOf(digits[..|digits| - 1]) + DigitValue(digits[|digits| - 1])
  }

  function HexValue(c: char): Option<nat> {
    if IsDigit(c) then Some(DigitValue(c))
    else if 'a' <= c <= 'f' then Some(c as int - 'a' as int + 10)
    else if 'A' <= c <= 'F' then Some(c as int - 'A' as int + 10)
    else None
  }

  function ParseHex4(s: string): (r: Option<nat>)
    ensures r.Some? ==> r.value < 0x1_0000 && |s| >= 4
  {
    if |s| < 4 then None
    else
      var (a, b, c, d) := (HexValue(s[0]), HexValue(s[1]), HexValue(s[2]), HexValue(s[3]));
      if a.Some? && b.Some? && c.Some? && d.Some? && a.value < 16 && b.value < 16 && c.value < 16 && d.value < 16
      then Some(4096 * a.value + 256 * b.value + 16 * c.value + d.value)
      else None
  }

  predicate IsHigh(n: nat) { 0xD800 <= n < 0xDC00 }
  predicate IsLow(n: nat) { 0xDC00 <= n < 0xE000 }

  /** The character a \u escape stands for and what follows; s starts after "\u". */
  function ParseUnicode(s: string): (r: Option<(char, string)>)
    ensures r.Some? ==> |r.value.1| < |s|
  {
    var first := ParseHex4(s);
    if first.None? then None
    else if IsHigh(first.value) then
      if |s| >= 6 && s[4] == '\\' && s[5] == 'u' then
        var second := ParseHex4(s[6..]);
        if second.Some? && IsLow(second.value) then
          Some(((0x1_0000 + 1024 * (first.value - 0xD800) + (second.value - 0xDC00)) as char, s[10..]))
        else None
      else None
    else if IsLow(first.value) then None
    else Some((first.value as char, s[4..]))
  }

  function SimpleEscape(e: char): Option<char> {
    if e == '"' || e == '\\' || e == '/' then Some(e)
    else if e == 'n' then Some('\n')
    else if e == 'r' then Some('\r')
    else if e == 't' then Some('\t')
    else if e == 'b' then Some(BACKSPACE)
    else if e == 'f' then Some(FORM_FEED)
    else None
  }

  /** One character of a string body, escapes resolved. */
  function ParseChar(s: string): (r: Option<(char, string)>)
    ensures r.Some? ==> |r.value.1| < |s|
  {
    if s == "" || s[0] == '"' || s[0] < ' ' then None
    else if s[0] != '\\' then Some((s[0], s[1..]))
    else if |s| < 2 then None
    else if s[1] == 'u' then ParseUnicode(s[2..])
    else
      var c := SimpleEscape(s[1]);
      if c.None? then None else Some((c.value, s[2..]))
  }

  /** The body of a string up to its closing quote; s starts after the opening quote. */
  function ParseChars(s: string): (r: Option<(string, string)>)
    ensures r.Some? ==> |r.value.1| < |s|
  {
    if s != "" && s[0] == '"' then Some(("", s[1..]))
    else
      var c := ParseChar(s);
      if c.None? then None
      else
        var more := ParseChars(c.value.1);
        if more.None? then None else Some(([c.value.0] + more.value.0, more.value.1))
  }

  /** The integer part of a number: a lone zero, or the whole run of digits. */
  function TakeInteger(s: string): (r: (string, string))
    requires s != "" && IsDigit(s[0])
    ensures |r.1| < |s| && forall c | c in r.0 :: IsDigit(c)
  {
    if s[0] == '0' then ("0", s[1..])
    else
      var r := TakeDigits(s);
      assert r.0 != "";
      r
  }

  function ParseNumber(s: string): (r: Option<(Value, string)>)
    ensures r.Some? ==> |r.value.1| < |s|
  {
    var body := if s != "" && s[0] == '-' then s[1..] else s;
    if body == "" || !IsDigit(body[0]) then None
    else
      var (digits, rest) := TakeInteger(body);
      if rest != "" && (rest[0] == '.' || rest[0] == 'e' || rest[0] == 'E') then None
      else
        var n: int := NatOf(digits);
        Some((Int(if s[0] == '-' then -n else n), rest))
  }

  function ParseWord(s: string, word: string, v: Value): (r: Option<(Value, string)>)
    requires word != ""
    ensures r.Some? ==> |r.value.1| < |s|
  {
    if word <= s then Some((v, s[|word|..])) else None
  }

  /** One value at the very start of s, and what follows it. */
  function Parse(s: string): (r: Option<(Value, string)>)
    ensures r.Some? ==> |r.value.1| < |s|
    decreases |s|, 1
  {
    if s == "" then None
    else if s[0] == '"' then
      var body := ParseChars(s[1..]);
      if body.None? then None else Some((Str(body.value.0), body.value.1))
    else if s[0] == '[' then
      var inner := SkipSpace(s[1..]);
      if inner != "" && inner[0] == ']' then Some((Arr([]), inner[1..]))
      else
        var items := ParseItems(inner);
        if items.None? then None else Some((Arr(items.value.0), items.value.1))
    else if s[0] == '{' then
      var inner := SkipSpace(s[1..]);
      if inner != "" && inner[0] == '}' then Some((Obj(map[]), inner[1..]))
      else
        var members := ParseMembers(inner);
        if members.None? then None else Some((Obj(members.value.0), members.value.1))
    else if s[0] == 'n' then ParseWord(s, "null", Null)
    else if s[0] == 't' then ParseWord(s, "true", Bool(true))
    else if s[0] == 'f' then ParseWord(s, "false", Bool(false))
    else ParseNumber(s)
  }

  /** The elements of an array up to its closing bracket. */
  function ParseItems(s: string): (r: Option<(seq<Value>, string)>)
    ensures r.Some? ==> |r.value.1| < |s|
    decreases |s|, 2
  {
    var head := Parse(s);
    if head.None? then None
    else
      var rest := SkipSpace(head.value.1);
      if rest == "" then None
      else if rest[0] == ']' then Some(([head.value.0], rest[1..]))
      else if rest[0] == ',' then
        var more := ParseItems(SkipSpace(rest[1..]));
        if more.None? then None else Some(([head.value.0] + more.value.0, more.value.1))
      else None
  }

  /** One "key": value pair. */
  function ParseMember(s: string): (r: Option<(string, Value, string)>)
    ensures r.Some? ==> |r.value.2| < |s|
    decreases |s|, 2
  {
    if s == "" || s[0] != '"' then None
    else
      var key := ParseChars(s[1..]);
      if key.None? then None
      else
        var colon := SkipSpace(key.value.1);
        if colon == "" || colon[0] != ':' then None
        else
          var v := Parse(SkipSpace(colon[1..]));
          if v.None? then None else Some((key.value.0, v.value.0, v.value.1))
  }

  /** The members of an object up to its closing brace; a repeated key keeps its last value. */
  function ParseMembers(s: string): (r: Option<(map<string, Value>, string)>)
    ensures r.Some? ==> |r.value.1| < |s|
    decreases |s|, 3
  {
    var member := ParseMember(s);
    if member.None? then None
    else
      var (key, v, after) := member.value;
      var rest := SkipSpace(after);
      if rest == "" then None
      else if rest[0] == '}' then Some((map[key := v], rest[1..]))
      else if rest[0] == ',' then
        var more := ParseMembers(SkipSpace(rest[1..]));
        if more.None? then None else Some((map[key := v] + more.value.0, more.value.1))
      else None
  }

  /** json.loads: one value with optional surrounding space and nothing else. */
  function Loads(s: string): Option<Value> {
    var v := Parse(SkipSpace(s));
    if v.Some? && SkipSpace(v.value.1) == "" then Some(v.value.0) else None
  }
}
