/** `xml_escape`, the decoder of the five predefined entities (section 4.6 of XML 1.0), and UTF-8. */
module Escaping {
  import opened Substrings

  function EscapeChar(c: char): (r: Bytes)
    ensures r != [] && (r[0] == '&' || r == [c])
  {
    match c
    case '&' => "&amp;"
    case '<' => "&lt;"
    case '>' => "&gt;"
    case '"' => "&quot;"
    case '\'' => "&apos;"
    case _ => [c]
  }

  predicate Special(c: char) { c == '&' || Markup(c) }
  predicate Markup(c: char) { c == '<' || c == '>' || c == '"' || c == '\'' }

  /** No character that could end an attribute value or open a tag. */
  predicate NoMarkup(s: Bytes) { forall i | 0 <= i < |s| :: !Markup(s[i]) }
  predicate Plain(s: Bytes) { forall i | 0 <= i < |s| :: !Special(s[i]) }

  function Escape(s: Bytes): Bytes {
    if s == [] then [] else EscapeChar(s[0]) + Escape(s[1..])
  }

  /** `xml_escape`: push the replacement of every character in turn. */
  method XmlEscape(input: Bytes) returns (out: Bytes)
    ensures out == Escape(input)
    ensures NoMarkup(out) && Unescape(out) == Some(input)
  {
    out := [];
    for i := 0 to |input|
      invariant out == Escape(input[..i])
    {
      EscapeConcat(input[..i], [input[i]]);
      assert input[..i + 1] == input[..i] + [input[i]];
      assert Escape([input[i]]) == EscapeChar(input[i]) + Escape([]);
      out := out + EscapeChar(input[i]);
    }
    assert input[..|input|] == input;
    UnescapeEscape(input);
    EscapeHasNoMarkup(input);
  }

  lemma {:induction false} EscapeConcat(a: Bytes, b: Bytes)
    ensures Escape(a + b) == Escape(a) + Escape(b)
  {
    if a == [] {
      assert a + b == b;
    } else {
      assert (a + b)[1..] == a[1..] + b;
      EscapeConcat(a[1..], b);
    }
  }

  /** The five predefined entities stand for their characters, and every other character for itself. */
  lemma TheFiveEntities(c: char)
    ensures Escape("&") == "&amp;" && Escape("<") == "&lt;" && Escape(">") == "&gt;"
    ensures Escape("\"") == "&quot;" && Escape("'") == "&apos;"
    ensures c !in {'&', '<', '>', '"', '\''} ==> Escape([c]) == [c]
  {
    EscapeOne('&'); EscapeOne('<'); EscapeOne('>'); EscapeOne('"'); EscapeOne('\''); EscapeOne(c);
  }

  lemma EscapeOne(c: char)
    ensures Escape([c]) == EscapeChar(c)
  {
    hide EscapeChar;
    assert [c][1..] == [] && EscapeChar(c) + [] == EscapeChar(c);
  }

  lemma {:induction false} EscapePlain(s: Bytes)
    requires Plain(s)
    ensures Escape(s) == s
  {
    if s != [] { EscapePlain(s[1..]); }
  }

  lemma {:induction false} EscapeHasNoMarkup(s: Bytes)
    ensures NoMarkup(Escape(s))
  {
    if s != [] {
      EscapeHasNoMarkup(s[1..]);
      assert NoMarkup(EscapeChar(s[0]));
    }
  }

  /** The entity at the head of a string: the character it stands for and its length. */
  function EntityAt(s: Bytes): (r: Option<(char, nat)>)
    ensures r.Some? ==> 0 < r.value.1 <= |s| && EscapeChar(r.value.0) == s[..r.value.1] && Special(r.value.0)
  {
    if "&amp;" <= s then Some(('&', 5))
    else if "&lt;" <= s then Some(('<', 4))
    else if "&gt;" <= s then Some(('>', 4))
    else if "&quot;" <= s then Some(('"', 6))
    else if "&apos;" <= s then Some(('\'', 6))
    else None
  }

  lemma EntityFound(c: char, s: Bytes)
    requires Special(c) && EscapeChar(c) <= s
    ensures EntityAt(s) == Some((c, |EscapeChar(c)|))
  {
    assert s[1] == EscapeChar(c)[1] && s[2] == EscapeChar(c)[2];
  }

  /** Decoding; `None` when some `&` does not start one of the five entities. */
  function Unescape(s: Bytes): Option<Bytes>
    decreases |s|
  {
    if s == [] then Some([])
    else if s[0] == '&' then
      match EntityAt(s)
      case None => None
      case Some((c, n)) => Prepend(c, Unescape(s[n..]))
    else Prepend(s[0], Unescape(s[1..]))
  }

  function Prepend(c: char, r: Option<Bytes>): Option<Bytes> {
    match r case None => None case Some(t) => Some([c] + t)
  }

  /** Decoding undoes escaping, for every string. */
  lemma {:induction false} UnescapeEscape(s: Bytes)
    ensures Unescape(Escape(s)) == Some(s)
  {
    hide EntityAt;
    if s != [] {
      var c, e := s[0], EscapeChar(s[0]);
      UnescapeEscape(s[1..]);
      var t := e + Escape(s[1..]);
      assert Escape(s) == t;
      assert t[|e|..] == Escape(s[1..]);
      if Special(c) {
        assert e[0] == '&';
        assert e <= t;
        EntityFound(c, t);
      }
      assert [c] + s[1..] == s;
    }
  }

  /** The escaper's outputs are exactly the strings without markup whose every `&` starts an entity. */
  lemma {:induction false} EscapeImage(t: Bytes)
    ensures (exists s :: Escape(s) == t) <==> NoMarkup(t) && Unescape(t).Some?
    ensures NoMarkup(t) && Unescape(t).Some? ==> Escape(Unescape(t).value) == t
  {
    if NoMarkup(t) && Unescape(t).Some? { EscapeUnescape(t); }
    forall s | Escape(s) == t ensures NoMarkup(t) && Unescape(t).Some? {
      UnescapeEscape(s);
      EscapeHasNoMarkup(s);
    }
  }

  lemma {:induction false} EscapeUnescape(t: Bytes)
    requires NoMarkup(t) && Unescape(t).Some?
    ensures Escape(Unescape(t).value) == t
    decreases |t|
  {
    hide EntityAt, EscapeChar, Escape, Markup;
    if t == [] { NothingEscaped(); }
    else {
      var c, n := if t[0] == '&' then EntityAt(t).value.0 else t[0], if t[0] == '&' then EntityAt(t).value.1 else 1;
      var rest := t[n..];
      assert forall i | 0 <= i < |rest| :: rest[i] == t[n + i];
      EscapeUnescape(rest);
      EscapeFirst(c, Unescape(rest).value);
      if t[0] != '&' { PlainChar(t[0]); }
      assert t == t[..n] + rest;
    }
  }

  lemma NothingEscaped()
    ensures Escape([]) == []
  {
  }

  lemma EscapeFirst(c: char, rest: Bytes)
    ensures Escape([c] + rest) == EscapeChar(c) + Escape(rest)
  {
    assert ([c] + rest)[1..] == rest;
  }

  lemma PlainChar(c: char)
    requires c != '&' && !Markup(c)
    ensures EscapeChar(c) == [c]
  {
  }

  lemma EscapeInjective(a: Bytes, b: Bytes)
    requires Escape(a) == Escape(b)
    ensures a == b
  {
    UnescapeEscape(a);
    UnescapeEscape(b);
  }

  // ---- Escaping characters is escaping UTF-8 bytes ----

  /** The UTF-8 encoding of one character, each byte written as the character with its code. */
  function Utf8Char(c: char): (r: Bytes)
    ensures c as int < 0x80 ==> r == [c]
    ensures c as int >= 0x80 ==> Plain(r)
  {
    var n := c as int;
    if n < 0x80 then [c]
    else if n < 0x800 then [(0xC0 + n / 64) as char, (0x80 + n % 64) as char]
    else if n < 0x10000 then [(0xE0 + n / 4096) as char, (0x80 + n / 64 % 64) as char, (0x80 + n % 64) as char]
    else [(0xF0 + n / 262144) as char, (0x80 + n / 4096 % 64) as char,
          (0x80 + n / 64 % 64) as char, (0x80 + n % 64) as char]
  }

  function Utf8(s: string): Bytes {
    if s == [] then [] else Utf8Char(s[0]) + Utf8(s[1..])
  }

  lemma {:induction false} Utf8Concat(a: string, b: string)
    ensures Utf8(a + b) == Utf8(a) + Utf8(b)
  {
    if a == [] {
      assert a + b == b;
    } else {
      assert (a + b)[1..] == a[1..] + b;
      Utf8Concat(a[1..], b);
    }
  }

  predicate Ascii(s: string) { forall i | 0 <= i < |s| :: s[i] as int < 0x80 }

  lemma {:induction false} Utf8Ascii(s: string)
    requires Ascii(s)
    ensures Utf8(s) == s
  {
    if s != [] { Utf8Ascii(s[1..]); }
  }

  /** The relay escapes characters and then encodes; that is the same as escaping the encoded bytes. */
  lemma {:induction false} EscapeUtf8(s: string)
    ensures Utf8(Escape(s)) == Escape(Utf8(s))
  {
    hide EscapeChar, Utf8Char;
    if s != [] {
      var c := s[0];
      EscapeUtf8(s[1..]);
      Utf8Concat(EscapeChar(c), Escape(s[1..]));
      EscapeConcat(Utf8Char(c), Utf8(s[1..]));
      EscapeUtf8Char(c);
    }
  }

  lemma EscapeUtf8Char(c: char)
    ensures Utf8(EscapeChar(c)) == Escape(Utf8Char(c))
  {
    hide Utf8Char, Escape, Utf8;
    EscapeFirst(c, []);
    NothingEscaped();
    assert [c] + [] == [c];
    if c as int < 0x80 {
      EscapesAreAscii(c);
      Utf8Ascii(EscapeChar(c));
    } else {
      EscapePlain(Utf8Char(c));
      Utf8One(c);
    }
  }

  lemma EscapesAreAscii(c: char)
    requires c as int < 0x80
    ensures Ascii(EscapeChar(c))
  {
  }

  lemma Utf8One(c: char)
    requires c as int >= 0x80
    ensures Utf8(EscapeChar(c)) == Utf8Char(c)
  {
    hide Utf8Char;
    assert EscapeChar(c) == [c];
    assert Utf8([c]) == Utf8Char(c) + Utf8([]);
  }
}
