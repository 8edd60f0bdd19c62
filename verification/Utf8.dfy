/** Text as bytes: the strict UTF-8 of RFC 3629, which is what str.encode("utf-8") and
    open(..., encoding="utf-8") use. Overlong forms, surrogates and stray bytes do not decode. */
module Utf8 {
  import opened Wrappers

  type byte = n: int | 0 <= n < 256
  type Bytes = seq<byte>

  function EncodeChar(c: char): Bytes {
    var n := c as int;
    if n < 0x80 then [n]
    else if n < 0x800 then [0xC0 + n / 64, 0x80 + n % 64]
    else if n < 0x1_0000 then [0xE0 + n / 64 / 64, 0x80 + n / 64 % 64, 0x80 + n % 64]
    else [0xF0 + n / 64 / 64 / 64, 0x80 + n / 64 / 64 % 64, 0x80 + n / 64 % 64, 0x80 + n % 64]
  }

  function Encode(s: string): Bytes {
    if s == "" then [] else EncodeChar(s[0]) + Encode(s[1..])
  }

  predicate Continues(b: byte) {
    0x80 <= b < 0xC0
  }

  /** A code point that is a character, in the shortest form for its length. */
  predicate Scalar(n: int, least: int) {
    least <= n && (n < 0xD800 || 0xE000 <= n < 0x11_0000)
  }

  function DecodeChar(b: Bytes): (r: Option<(char, Bytes)>)
    ensures r.Some? ==> |r.value.1| < |b|
  {
    if b == [] then None
    else if b[0] < 0x80 then Some((b[0] as char, b[1..]))
    else if 0xC0 <= b[0] < 0xE0 && |b| >= 2 && Continues(b[1]) then
      var n := (b[0] as int - 0xC0) * 64 + (b[1] as int - 0x80);
      if Scalar(n, 0x80) then Some((n as char, b[2..])) else None
    else if 0xE0 <= b[0] < 0xF0 && |b| >= 3 && Continues(b[1]) && Continues(b[2]) then
      var n := (b[0] as int - 0xE0) * 4096 + (b[1] as int - 0x80) * 64 + (b[2] as int - 0x80);
      if Scalar(n, 0x800) then Some((n as char, b[3..])) else None
    else if 0xF0 <= b[0] < 0xF8 && |b| >= 4 && Continues(b[1]) && Continues(b[2]) && Continues(b[3]) then
      var n := (b[0] as int - 0xF0) * 262144 + (b[1] as int - 0x80) * 4096 + (b[2] as int - 0x80) * 64 + (b[3] as int - 0x80);
      if Scalar(n, 0x1_0000) then Some((n as char, b[4..])) else None
    else None
  }

  function Decode(b: Bytes): Option<string> {
    if b == [] then Some("")
    else
      var c := DecodeChar(b);
      if c.None? then None
      else
        var more := Decode(c.value.1);
        if more.None? then None else Some([c.value.0] + more.value)
  }

  lemma CharDecodes(c: char, rest: Bytes)
    ensures DecodeChar(EncodeChar(c) + rest) == Some((c, rest))
  {
    var n := c as int;
    var b := EncodeChar(c) + rest;
    assert b[|EncodeChar(c)|..] == rest;
    assert forall i | 0 <= i < |EncodeChar(c)| :: b[i] == EncodeChar(c)[i];
  }

  /** Decoding undoes encoding. */
  lemma {:induction false} DecodeUndoesEncode(s: string)
    ensures Decode(Encode(s)) == Some(s)
  {
    if s != "" {
      CharDecodes(s[0], Encode(s[1..]));
      DecodeUndoesEncode(s[1..]);
      assert s == [s[0]] + s[1..];
    }
  }

  lemma Sixes(high: nat, low: nat)
    requires low < 64
    ensures (64 * high + low) / 64 == high && (64 * high + low) % 64 == low
  {}

  lemma TwoBytes(n: int, p: byte, q: byte)
    requires 0xC0 <= p < 0xE0 && Continues(q) && n == (p as int - 0xC0) * 64 + (q as int - 0x80) && Scalar(n, 0x80)
    ensures EncodeChar(n as char) == [p, q]
  {
    Sixes(p as int - 0xC0, q as int - 0x80);
  }

  lemma ThreeBytes(n: int, p: byte, q: byte, r: byte)
    requires 0xE0 <= p < 0xF0 && Continues(q) && Continues(r) && Scalar(n, 0x800)
    requires n == (p as int - 0xE0) * 4096 + (q as int - 0x80) * 64 + (r as int - 0x80)
    ensures EncodeChar(n as char) == [p, q, r]
  {
    var x, y, z := p as int - 0xE0, q as int - 0x80, r as int - 0x80;
    Sixes(64 * x + y, z);
    Sixes(x, y);
  }

  lemma FourBytes(n: int, p: byte, q: byte, r: byte, t: byte)
    requires 0xF0 <= p < 0xF8 && Continues(q) && Continues(r) && Continues(t) && Scalar(n, 0x1_0000)
    requires n == (p as int - 0xF0) * 262144 + (q as int - 0x80) * 4096 + (r as int - 0x80) * 64 + (t as int - 0x80)
    ensures EncodeChar(n as char) == [p, q, r, t]
  {
    var x, y, z, u := p as int - 0xF0, q as int - 0x80, r as int - 0x80, t as int - 0x80;
    Sixes(4096 * x + 64 * y + z, u);
    Sixes(64 * x + y, z);
    Sixes(x, y);
  }

  lemma CharEncodes(b: Bytes)
    requires DecodeChar(b).Some?
    ensures EncodeChar(DecodeChar(b).value.0) + DecodeChar(b).value.1 == b
  {
    var (c, rest) := DecodeChar(b).value;
    var n := c as int;
    if b[0] < 0x80 {
      assert b == [b[0]] + b[1..];
    } else if b[0] < 0xE0 {
      TwoBytes(n, b[0], b[1]);
      assert b == [b[0], b[1]] + b[2..];
    } else if b[0] < 0xF0 {
      ThreeBytes(n, b[0], b[1], b[2]);
      assert b == [b[0], b[1], b[2]] + b[3..];
    } else {
      FourBytes(n, b[0], b[1], b[2], b[3]);
      assert b == [b[0], b[1], b[2], b[3]] + b[4..];
    }
  }

  /** Only the encoding of a text decodes to it: nothing overlong, no surrogates, no stray bytes. */
  lemma {:induction false} DecodeIsStrict(b: Bytes, s: string)
    ensures Decode(b) == Some(s) <==> b == Encode(s)
    decreases |b|
  {
    DecodeUndoesEncode(s);
    if b != [] && Decode(b) == Some(s) {
      var (c, rest) := DecodeChar(b).value;
      CharEncodes(b);
      DecodeIsStrict(rest, Decode(rest).value);
      assert s == [c] + Decode(rest).value && s[1..] == Decode(rest).value;
    }
  }

  lemma CharDecodesEarly(b: Bytes, c: Bytes)
    requires DecodeChar(b).Some?
    ensures DecodeChar(b + c) == Some((DecodeChar(b).value.0, DecodeChar(b).value.1 + c))
  {
    var n := |b| - |DecodeChar(b).value.1|;
    assert (b + c)[n..] == b[n..] + c;
  }

  /** Decoding in two parts, if the cut is between two characters. */
  lemma {:induction false} DecodeJoin(b: Bytes, c: Bytes)
    requires Decode(b).Some?
    ensures Decode(b + c) == if Decode(c).None? then None else Some(Decode(b).value + Decode(c).value)
    decreases |b|
  {
    if b == [] {
      assert b + c == c;
      if Decode(c).Some? { assert "" + Decode(c).value == Decode(c).value; }
    } else {
      CharDecodesEarly(b, c);
      var (first, rest) := DecodeChar(b).value;
      DecodeJoin(rest, c);
      if Decode(c).Some? {
        assert [first] + (Decode(rest).value + Decode(c).value) == ([first] + Decode(rest).value) + Decode(c).value;
      }
    }
  }

  lemma {:induction false} EncodeJoin(a: string, b: string)
    ensures Encode(a + b) == Encode(a) + Encode(b)
  {
    if a == "" {
      assert a + b == b;
    } else {
      EncodeJoin(a[1..], b);
      assert (a + b)[0] == a[0] && (a + b)[1..] == a[1..] + b;
      var head := EncodeChar(a[0]);
      assert head + (Encode(a[1..]) + Encode(b)) == head + Encode(a[1..]) + Encode(b);
    }
  }
}
