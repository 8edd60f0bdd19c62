/** Reading looks no further than it must: what has been read from a text is read from every
    extension of it. So no proper prefix of a printed object or array is a document. */
module JsonPrefix {
  import opened Wrappers
  import opened Json
  import JsonRoundTrip

  lemma {:induction false} SkipSpaceExtends(s: string, t: string)
    requires SkipSpace(s) != ""
    ensures SkipSpace(s + t) == SkipSpace(s) + t
  {
    assert s != "";
    if IsSpace(s[0]) {
      assert (s + t)[1..] == s[1..] + t;
      SkipSpaceExtends(s[1..], t);
    }
  }

  lemma {:induction false} TakeDigitsExtends(s: string, t: string)
    requires TakeDigits(s).1 != ""
    ensures TakeDigits(s + t) == (TakeDigits(s).0, TakeDigits(s).1 + t)
  {
    assert s != "";
    if IsDigit(s[0]) {
      assert (s + t)[1..] == s[1..] + t;
      TakeDigitsExtends(s[1..], t);
    }
  }

  lemma NumberExtends(s: string, t: string, v: Value, rest: string)
    requires ParseNumber(s) == Some((v, rest)) && rest != ""
    ensures ParseNumber(s + t) == Some((v, rest + t))
  {
    var body := if s[0] == '-' then s[1..] else s;
    var all := s + t;
    assert (if all[0] == '-' then all[1..] else all) == body + t;
    if body[0] == '0' {
      assert (body + t)[1..] == body[1..] + t;
    } else {
      TakeDigitsExtends(body, t);
    }
  }

  lemma WordExtends(s: string, t: string, word: string, v: Value)
    requires word != "" && word <= s
    ensures ParseWord(s + t, word, v) == Some((v, s[|word|..] + t))
  {
    assert (s + t)[|word|..] == s[|word|..] + t;
  }

  lemma Hex4Extends(s: string, t: string)
    requires |s| >= 4
    ensures ParseHex4(s + t) == ParseHex4(s)
  {}

  lemma UnicodeExtends(s: string, t: string)
    requires ParseUnicode(s).Some?
    ensures ParseUnicode(s + t) == Some((ParseUnicode(s).value.0, ParseUnicode(s).value.1 + t))
  {
    Hex4Extends(s, t);
    assert (s + t)[4..] == s[4..] + t;
    if IsHigh(ParseHex4(s).value) {
      assert (s + t)[6..] == s[6..] + t && (s + t)[10..] == s[10..] + t;
      Hex4Extends(s[6..], t);
    }
  }

  lemma CharExtends(s: string, t: string)
    requires ParseChar(s).Some?
    ensures ParseChar(s + t) == Some((ParseChar(s).value.0, ParseChar(s).value.1 + t))
  {
    assert (s + t)[1..] == s[1..] + t;
    if s[0] == '\\' {
      assert (s + t)[2..] == s[2..] + t;
      if s[1] == 'u' { UnicodeExtends(s[2..], t); }
    }
  }

  lemma {:induction false} CharsExtend(s: string, t: string)
    requires ParseChars(s).Some?
    ensures ParseChars(s + t) == Some((ParseChars(s).value.0, ParseChars(s).value.1 + t))
    decreases |s|
  {
    if s[0] == '"' {
      assert (s + t)[1..] == s[1..] + t;
    } else {
      CharExtends(s, t);
      CharsExtend(ParseChar(s).value.1, t);
    }
  }

  /** A number may go on in what follows; nothing else does. */
  predicate Closed(s: string, rest: string) {
    rest != "" || (s != "" && !IsDigit(s[0]) && s[0] != '-')
  }

  lemma {:induction false} ValueExtends(s: string, t: string, v: Value, rest: string)
    requires Parse(s) == Some((v, rest)) && Closed(s, rest)
    ensures Parse(s + t) == Some((v, rest + t))
    decreases |s|, 1
  {
    assert (s + t)[0] == s[0] && (s + t)[1..] == s[1..] + t;
    if s[0] == '"' {
      CharsExtend(s[1..], t);
    } else if s[0] == '[' {
      ArrayExtends(s, t, v, rest);
    } else if s[0] == '{' {
      ObjectExtends(s, t, v, rest);
    } else if s[0] == 'n' {
      WordExtends(s, t, "null", Null);
    } else if s[0] == 't' {
      WordExtends(s, t, "true", Bool(true));
    } else if s[0] == 'f' {
      WordExtends(s, t, "false", Bool(false));
    } else {
      NumberExtends(s, t, v, rest);
    }
  }

  lemma {:induction false} ArrayExtends(s: string, t: string, v: Value, rest: string)
    requires s != "" && s[0] == '[' && Parse(s) == Some((v, rest))
    ensures Parse(s + t) == Some((v, rest + t))
    decreases |s|, 0
  {
    assert (s + t)[1..] == s[1..] + t;
    var inner := SkipSpace(s[1..]);
    SkipSpaceExtends(s[1..], t);
    if inner[0] == ']' {
      assert (inner + t)[1..] == inner[1..] + t;
    } else {
      ItemsExtend(inner, t);
    }
  }

  lemma {:induction false} ObjectExtends(s: string, t: string, v: Value, rest: string)
    requires s != "" && s[0] == '{' && Parse(s) == Some((v, rest))
    ensures Parse(s + t) == Some((v, rest + t))
    decreases |s|, 0
  {
    assert (s + t)[1..] == s[1..] + t;
    var inner := SkipSpace(s[1..]);
    SkipSpaceExtends(s[1..], t);
    if inner[0] == '}' {
      assert (inner + t)[1..] == inner[1..] + t;
    } else {
      MembersExtend(inner, t, v.members, rest);
    }
  }

  lemma {:induction false} ItemsExtend(s: string, t: string)
    requires ParseItems(s).Some?
    ensures ParseItems(s + t) == Some((ParseItems(s).value.0, ParseItems(s).value.1 + t))
    decreases |s|, 2
  {
    var (v, after) := Parse(s).value;
    var rest := SkipSpace(after);
    ValueExtends(s, t, v, after);
    SkipSpaceExtends(after, t);
    assert (rest + t)[1..] == rest[1..] + t;
    if rest[0] == ',' {
      SkipSpaceExtends(rest[1..], t);
      ItemsExtend(SkipSpace(rest[1..]), t);
    }
  }

  /** The parts ParseMember goes through. */
  predicate MemberParts(s: string, key: string, after: string, colon: string, v: Value, rest: string) {
    && s != "" && s[0] == '"' && ParseChars(s[1..]) == Some((key, after))
    && SkipSpace(after) == colon && colon != "" && colon[0] == ':'
    && Parse(SkipSpace(colon[1..])) == Some((v, rest))
  }

  lemma MemberHasParts(s: string, key: string, after: string, colon: string, v: Value, rest: string)
    requires MemberParts(s, key, after, colon, v, rest)
    ensures ParseMember(s) == Some((key, v, rest))
  {}

  lemma {:induction false} MemberExtends(s: string, t: string, key: string, v: Value, rest: string)
    requires ParseMember(s) == Some((key, v, rest)) && rest != ""
    ensures ParseMember(s + t) == Some((key, v, rest + t))
    decreases |s|, 2
  {
    var after := ParseChars(s[1..]).value.1;
    var colon := SkipSpace(after);
    assert (s + t)[1..] == s[1..] + t && (colon + t)[1..] == colon[1..] + t;
    CharsExtend(s[1..], t);
    SkipSpaceExtends(after, t);
    SkipSpaceExtends(colon[1..], t);
    ValueExtends(SkipSpace(colon[1..]), t, v, rest);
    MemberHasParts(s + t, key, after + t, colon + t, v, rest + t);
  }

  /** One step of ParseMembers, over a comma or to the closing brace. */
  lemma NextMembers(s: string, key: string, v: Value, after: string, rest: string, next: string,
        members: map<string, Value>, end: string)
    requires ParseMember(s) == Some((key, v, after)) && rest == SkipSpace(after) && rest != "" && rest[0] == ','
    requires next == SkipSpace(rest[1..]) && ParseMembers(next) == Some((members, end))
    ensures ParseMembers(s) == Some((map[key := v] + members, end))
  {}

  lemma LastOfMembers(s: string, key: string, v: Value, after: string, rest: string)
    requires ParseMember(s) == Some((key, v, after)) && rest == SkipSpace(after) && rest != "" && rest[0] == '}'
    ensures ParseMembers(s) == Some((map[key := v], rest[1..]))
  {}

  lemma {:induction false} MembersExtend(s: string, t: string, members: map<string, Value>, end: string)
    requires ParseMembers(s) == Some((members, end))
    ensures ParseMembers(s + t) == Some((members, end + t))
    decreases |s|, 3
  {
    var (key, v, after) := ParseMember(s).value;
    var rest := SkipSpace(after);
    assert (rest + t)[1..] == rest[1..] + t;
    assert after != "";
    MemberExtends(s, t, key, v, after);
    SkipSpaceExtends(after, t);
    if rest[0] == '}' {
      LastOfMembers(s, key, v, after, rest);
      LastOfMembers(s + t, key, v, after + t, rest + t);
    } else {
      var next := SkipSpace(rest[1..]);
      var (more, stop) := ParseMembers(next).value;
      SkipSpaceExtends(rest[1..], t);
      MembersExtend(next, t, more, stop);
      NextMembers(s, key, v, after, rest, next, more, stop);
      NextMembers(s + t, key, v, after + t, rest + t, next + t, more, stop + t);
    }
  }

  /** A printed object cut short anywhere is no JSON document at all. */
  lemma CutObject(members: map<string, Value>, ascii: bool, cut: string, lost: string)
    requires cut + lost == Render(Obj(members), ascii)
    ensures Loads(cut) == if lost == "" then Some(Obj(members)) else None
  {
    var text := Render(Obj(members), ascii);
    JsonRoundTrip.ValueReads(Obj(members), ascii);
    assert Parse(text + "") == Some((Obj(members), "")) && text + "" == text;
    if Loads(cut).Some? {
      assert cut[0] == text[0] == '{';
      var (v, rest) := Parse(cut).value;
      ValueExtends(cut, lost, v, rest);
      assert rest + lost == "";
    }
    if lost == "" { assert cut == text; }
  }
}
