/** The bytes that `rewrite_event_times` writes: what refreshing a cached event does to its frame. */
module EventText {
  import opened Substrings
  import opened Framing
  import opened Conservation
  import opened Escaping
  import opened EventTimes
  import CotBuilders

  /** One reader event with the bytes it was read from, and those that are written for it if it is not rewritten. */
  datatype Piece = Piece(token: Token, text: Bytes, out: Bytes)

  type Doc = seq<Piece>

  function Text(doc: Doc): Bytes { if doc == [] then [] else doc[0].text + Text(doc[1..]) }

  function Tokens(doc: Doc): seq<Token> { seq(|doc|, i requires 0 <= i < |doc| => doc[i].token) }

  predicate EventTag(t: Token) { (t.Start? || t.Empty?) && t.name == "event" }

  // ---- What the reader does to the bytes ----

  /** Markup runs from `<` to `>`; text holds no `<`. */
  predicate IsMarkup(s: Bytes) { s != [] && s[0] == '<' && s[|s| - 1] == '>' }
  predicate NoTag(s: Bytes) { s != [] && forall i | 0 <= i < |s| :: s[i] != '<' }

  predicate IsXmlSpace(c: char) { IsSpace(c) || c == 12 as char }

  /** White space behind the name of an end tag is not kept. */
  ghost predicate Trims(text: Bytes, out: Bytes) {
    exists name: Bytes, space: Bytes ::
      && text == "</" + (name + (space + GT)) && out == "</" + (name + GT)
      && forall i | 0 <= i < |space| :: IsXmlSpace(space[i])
  }

  /** An event tag is markup, and its keys and raw values are parts of its bytes; everything else is written as it was
      read, but for white space in end tags. */
  ghost predicate PieceOk(p: Piece) {
    && (IsMarkup(p.text) || NoTag(p.text)) && !p.token.Fault?
    && (p.out == p.text || Trims(p.text, p.out))
    && (EventTag(p.token) ==> IsMarkup(p.text) && forall a | a in p.token.attrs && a.Good? ::
          Occurs(p.text, a.key) && Occurs(p.text, a.raw))
  }

  ghost predicate Lexed(doc: Doc) { forall i | 0 <= i < |doc| :: PieceOk(doc[i]) }

  // ---- What is written ----

  function KeptText(t: Token): Bytes
    requires EventTag(t)
  {
    AllGood(t.attrs);
    EVENT_START + CotBuilders.Attrs(Written(Kept(t.attrs)))
  }

  lemma AllGood(attrs: seq<Attr>)
    ensures forall i | 0 <= i < |Kept(attrs)| :: Kept(attrs)[i].Good?
  {
    hide Kept;
    forall i | 0 <= i < |Kept(attrs)| ensures Kept(attrs)[i].Good? { KeptMembers(attrs, Kept(attrs)[i]); }
  }

  /** An event tag is written with its kept attributes between double quotes, and then the three times. */
  function TagText(t: Token, time: Bytes, stale: Bytes): Bytes
    requires EventTag(t)
  {
    KeptText(t) + CotBuilders.Attrs(Written(Times(time, stale))) + (if t.Empty? then "/>" else ">")
  }

  function RewritePiece(p: Piece, time: Bytes, stale: Bytes): Piece {
    if EventTag(p.token) then
      var w := TagText(p.token, time, stale);
      Piece(RewriteToken(p.token, time, stale), w, w)
    else Piece(p.token, p.out, p.out)
  }

  function RewriteDoc(doc: Doc, time: Bytes, stale: Bytes): Doc {
    seq(|doc|, i requires 0 <= i < |doc| => RewritePiece(doc[i], time, stale))
  }

  /** The tokens of what is written are the rewritten tokens. */
  lemma RewritesTokens(doc: Doc, time: Bytes, stale: Bytes)
    ensures Tokens(RewriteDoc(doc, time, stale)) == Rewritten(Tokens(doc), time, stale)
  {
    hide Kept, TagText;
  }

  type Reader = Bytes -> Option<Doc>

  /** `rewrite_event_times`, with its caller's fallback to the unchanged bytes. */
  function Refresh(read: Reader, e: Bytes, time: Bytes, stale: Bytes): Bytes {
    match read(e)
    case None => e
    case Some(doc) => Text(RewriteDoc(doc, time, stale))
  }

  // ---- End tags lie within one piece ----

  /** Every `<` is followed by a `>`. */
  ghost predicate Sealed(s: Bytes) { forall i | 0 <= i < |s| && s[i] == '<' :: exists j :: i < j < |s| && s[j] == '>' }

  lemma SealedConcat(a: Bytes, b: Bytes)
    requires Sealed(a) && Sealed(b)
    ensures Sealed(a + b)
  {
    var s := a + b;
    forall i | 0 <= i < |s| && s[i] == '<' ensures exists j :: i < j < |s| && s[j] == '>' {
      if i < |a| {
        assert a[i] == '<';
        var j :| i < j < |a| && a[j] == '>';
        assert s[j] == '>';
      } else {
        assert b[i - |a|] == '<';
        var j :| i - |a| < j < |b| && b[j] == '>';
        assert s[|a| + j] == '>';
      }
    }
  }

  lemma EndShape(s: Bytes, i: nat)
    ensures OccursAt(s, EVENT_END, i) ==> s[i] == '<' && forall k | i < k < i + 7 :: s[k] != '>' && s[k] != '<'
  {
    if OccursAt(s, EVENT_END, i) {
      forall k | i <= k < i + 8 ensures s[k] == EVENT_END[k - i] { assert s[k] == s[i..i + 8][k - i]; }
    }
  }

  lemma SealedSplits(a: Bytes, b: Bytes)
    requires Sealed(a)
    ensures Occurs(a + b, EVENT_END) <==> Occurs(a, EVENT_END) || Occurs(b, EVENT_END)
  {
    hide OccursAt;
    forall i: nat | OccursAt(a, EVENT_END, i) ensures OccursAt(a + b, EVENT_END, i) { InFront(a, b, i); }
    forall i: nat | OccursAt(b, EVENT_END, i) ensures OccursAt(a + b, EVENT_END, |a| + i) {
      OccursAfter(a, b, EVENT_END, i);
    }
    forall i: nat | OccursAt(a + b, EVENT_END, i) ensures Occurs(a, EVENT_END) || Occurs(b, EVENT_END) {
      if i >= |a| { OccursAfter(a, b, EVENT_END, i - |a|); }
      else {
        NotAcross(a, b, i);
        OccursAppend(a, b, EVENT_END, i);
      }
    }
  }

  lemma InFront(a: Bytes, b: Bytes, i: nat)
    requires OccursAt(a, EVENT_END, i)
    ensures OccursAt(a + b, EVENT_END, i)
  {
    OccursAppend(a, b, EVENT_END, i);
  }

  lemma NotAcross(a: Bytes, b: Bytes, i: nat)
    requires Sealed(a) && OccursAt(a + b, EVENT_END, i) && i < |a|
    ensures i + |EVENT_END| <= |a|
  {
    EndShape(a + b, i);
    assert a[i] == (a + b)[i];
    var j :| i < j < |a| && a[j] == '>';
    assert (a + b)[j] == '>';
  }

  /** A text is closed exactly when its last piece ends with the only end tag. */
  lemma ClosedByPieces(front: Bytes, last: Bytes)
    requires Sealed(front) && last != []
    ensures ClosedFrame(front + last) <==>
              && EVENT_START <= front + last && |last| >= 8 && last[|last| - 8..] == EVENT_END
              && !Occurs(front, EVENT_END) && !Occurs(last[..|last| - 8], EVENT_END)
  {
    hide Find, FindFrom, Occurs, Sealed;
    var s := front + last;
    ClosedIff(s);
    if |s| >= 8 && s[|s| - 8..] == EVENT_END { LastHoldsEnd(front, last); }
    if |last| >= 8 {
      var l := last[..|last| - 8];
      assert s[|s| - 8..] == last[|last| - 8..] && s[..|s| - 8] == front + l;
      SealedSplits(front, l);
    }
  }

  lemma ClosedIff(s: Bytes)
    ensures ClosedFrame(s) <==>
              EVENT_START <= s && |s| >= 8 && s[|s| - 8..] == EVENT_END && !Occurs(s[..|s| - 8], EVENT_END)
  {
    hide Find, FindFrom;
    if |s| >= 8 {
      var b := s[..|s| - 8];
      assert s == b + s[|s| - 8..];
      if s[|s| - 8..] == EVENT_END && !Occurs(b, EVENT_END) { CotBuilders.EndAppended(b); }
      if ClosedFrame(s) {
        forall j: nat ensures !OccursAt(b, EVENT_END, j) {
          if j + 8 <= |b| { OccursAppend(b, s[|s| - 8..], EVENT_END, j); }
        }
      }
    }
  }

  lemma LastHoldsEnd(front: Bytes, last: Bytes)
    requires Sealed(front) && last != [] && |front + last| >= 8
    requires (front + last)[|front + last| - 8..] == EVENT_END
    ensures |last| >= 8
  {
    var s := front + last;
    var i := |s| - 8;
    assert OccursAt(s, EVENT_END, i);
    if i < |front| { NotAcross(front, last, i); }
  }

  // ---- Texts of documents ----

  lemma BlockSealed(s: Bytes)
    requires IsMarkup(s) || NoTag(s)
    ensures Sealed(s)
  {
    if IsMarkup(s) {
      forall i | 0 <= i < |s| && s[i] == '<' ensures exists j :: i < j < |s| && s[j] == '>' {
        assert s[|s| - 1] == '>';
      }
    }
  }

  lemma {:induction false} TextSealed(doc: Doc)
    requires forall i | 0 <= i < |doc| :: IsMarkup(doc[i].text) || NoTag(doc[i].text)
    ensures Sealed(Text(doc))
    ensures Occurs(Text(doc), EVENT_END) <==> exists i :: 0 <= i < |doc| && Occurs(doc[i].text, EVENT_END)
    decreases |doc|
  {
    hide IsMarkup, NoTag, Sealed, Occurs;
    if doc == [] { NothingHere(); }
    else {
      var more := doc[1..];
      TextSealed(more);
      BlockSealed(doc[0].text);
      SealedConcat(doc[0].text, Text(more));
      SealedSplits(doc[0].text, Text(more));
      assert forall i | 1 <= i < |doc| :: doc[i] == more[i - 1];
    }
  }

  lemma NothingHere()
    ensures Sealed([]) && !Occurs([], EVENT_END)
  {
  }

  lemma {:induction false} TextSnoc(doc: Doc, p: Piece)
    ensures Text(doc + [p]) == Text(doc) + p.text
    decreases |doc|
  {
    if doc == [] {
      assert [p][1..] == [] && [] + [p] == [p];
      assert p.text + [] == p.text && [] + p.text == p.text;
    } else {
      assert (doc + [p])[0] == doc[0] && (doc + [p])[1..] == doc[1..] + [p];
      TextSnoc(doc[1..], p);
    }
  }

  // ---- A written tag ----

  /** A character that stands in no end tag keeps end tags apart. */
  lemma Separates(a: Bytes, c: char, b: Bytes)
    requires c !in EVENT_END
    ensures Occurs(a + [c] + b, EVENT_END) <==> Occurs(a, EVENT_END) || Occurs(b, EVENT_END)
  {
    var s := a + [c] + b;
    assert s == a + ([c] + b) && s[|a|] == c;
    forall i: nat | OccursAt(a, EVENT_END, i) ensures OccursAt(s, EVENT_END, i) {
      OccursAppend(a, [c] + b, EVENT_END, i);
    }
    forall i: nat | OccursAt(b, EVENT_END, i) ensures OccursAt(s, EVENT_END, |a| + 1 + i) {
      OccursAfter(a + [c], b, EVENT_END, i);
    }
    forall i: nat | OccursAt(s, EVENT_END, i) ensures Occurs(a, EVENT_END) || Occurs(b, EVENT_END) {
      NotOver(s, i, |a|);
      if i + 8 <= |a| { OccursAppend(a, [c] + b, EVENT_END, i); }
      else { OccursAfter(a + [c], b, EVENT_END, i - |a| - 1); }
    }
  }

  lemma NotOver(s: Bytes, i: nat, k: nat)
    requires OccursAt(s, EVENT_END, i) && k < |s| && s[k] !in EVENT_END
    ensures i + |EVENT_END| <= k || k < i
  {
    EndChars(s, i);
  }

  lemma EndChars(s: Bytes, i: nat)
    ensures OccursAt(s, EVENT_END, i) ==> forall k | i <= k < i + 8 :: s[k] in EVENT_END
  {
    if OccursAt(s, EVENT_END, i) {
      forall k | i <= k < i + 8 ensures s[k] in EVENT_END { assert s[k] == s[i..i + 8][k - i] == EVENT_END[k - i]; }
    }
  }

  lemma AttrEnds(a: CotBuilders.Attribute)
    ensures Occurs(CotBuilders.Attr(a), EVENT_END) <==> Occurs(a.0, EVENT_END) || Occurs(a.1, EVENT_END)
  {
    hide Occurs;
    NothingHere();
    NotInEnd();
    assert CotBuilders.Attr(a) == [] + [' '] + (a.0 + ['='] + ([] + ['"'] + (a.1 + ['"'] + [])));
    Separates(a.1, '"', []);
    Separates([], '"', a.1 + ['"'] + []);
    Separates(a.0, '=', [] + ['"'] + (a.1 + ['"'] + []));
    Separates([], ' ', a.0 + ['='] + ([] + ['"'] + (a.1 + ['"'] + [])));
  }

  lemma NotInEnd()
    ensures ' ' !in EVENT_END && '=' !in EVENT_END && '"' !in EVENT_END
  {
  }

  lemma {:induction false} AttrsEnds(list: seq<CotBuilders.Attribute>)
    ensures Occurs(CotBuilders.Attrs(list), EVENT_END) <==>
              exists i :: 0 <= i < |list| && (Occurs(list[i].0, EVENT_END) || Occurs(list[i].1, EVENT_END))
    decreases |list|
  {
    hide Occurs, CotBuilders.Attr;
    if list == [] { NothingHere(); }
    else {
      var more := list[1..];
      AttrsEnds(more);
      AttrEnds(list[0]);
      AttrQuoted(list[0]);
      CotBuilders.QuoteSeparates(CotBuilders.Attr(list[0]), CotBuilders.Attrs(more));
      assert forall i | 1 <= i < |list| :: list[i] == more[i - 1];
    }
  }

  lemma AttrQuoted(a: CotBuilders.Attribute)
    ensures var s := CotBuilders.Attr(a); s != [] && s[0] == ' ' && s[|s| - 1] == '"'
  {
  }

  lemma PartHasNoEnd(text: Bytes, x: Bytes)
    requires Occurs(text, x) && !Occurs(text, EVENT_END)
    ensures !Occurs(x, EVENT_END)
  {
    var k: nat :| OccursAt(text, x, k);
    forall i: nat ensures !OccursAt(x, EVENT_END, i) { PartAt(text, x, k, i); }
  }

  lemma PartAt(text: Bytes, x: Bytes, k: nat, i: nat)
    requires OccursAt(text, x, k)
    ensures OccursAt(x, EVENT_END, i) ==> OccursAt(text, EVENT_END, k + i)
  {
    var after := text[k + |x|..];
    assert text == text[..k] + (x + after);
    if OccursAt(x, EVENT_END, i) {
      OccursAppend(x, after, EVENT_END, i);
      OccursAfter(text[..k], x + after, EVENT_END, i);
    }
  }

  /** The three parts of a written tag. */
  lemma TagShape(t: Token, time: Bytes, stale: Bytes)
    requires EventTag(t)
    ensures var times, w := CotBuilders.Attrs(Written(Times(time, stale))), TagText(t, time, stale);
            && times != [] && times[0] == ' ' && times[|times| - 1] == '"'
            && IsMarkup(w) && EVENT_START <= w && |w| > 6 && w[..6] == EVENT_START
            && w[|w| - (if t.Empty? then 3 else 2)..] == (if t.Empty? then "\"/>" else "\">")
  {
    hide Kept, Written, CotBuilders.Attrs;
    TimesWritten(time, stale);
    var times, kept := CotBuilders.Attrs(Written(Times(time, stale))), KeptText(t);
    var end := if t.Empty? then "/>" else ">";
    assert kept[..6] == EVENT_START by { AllGood(t.attrs); }
    assert TagText(t, time, stale) == kept + times + end;
  }

  lemma TimesWritten(time: Bytes, stale: Bytes)
    ensures var times := CotBuilders.Attrs(Written(Times(time, stale)));
            times != [] && times[0] == ' ' && times[|times| - 1] == '"'
  {
    hide CotBuilders.Attr;
    var list := Written(Times(time, stale));
    AttrQuoted(list[0]);
    CotBuilders.AttrsEndWithQuote(list);
    assert CotBuilders.Attrs(list) == CotBuilders.Attr(list[0]) + CotBuilders.Attrs(list[1..]);
  }

  /** A tag whose parts hold no end tag is written without one. */
  lemma TagHasNoEnd(p: Piece, time: Bytes, stale: Bytes)
    requires PieceOk(p) && EventTag(p.token) && !Occurs(p.text, EVENT_END) && Plain(time) && Plain(stale)
    ensures !Occurs(TagText(p.token, time, stale), EVENT_END)
  {
    hide Occurs, CotBuilders.Attrs, Kept, Plain, TagText, PieceOk, Written, Times;
    AllGood(p.token.attrs);
    KeptHasNoEnd(p);
    TimesAttrsHaveNoEnd(time, stale);
    TagPieces(p.token, time, stale);
  }

  lemma KeptHasNoEnd(p: Piece)
    requires PieceOk(p) && EventTag(p.token) && !Occurs(p.text, EVENT_END)
    ensures (AllGood(p.token.attrs); !Occurs(CotBuilders.Attrs(Written(Kept(p.token.attrs))), EVENT_END))
  {
    hide Occurs, CotBuilders.Attrs, Kept, Survives, IsMarkup, NoTag, Trims;
    var attrs := p.token.attrs;
    AllGood(attrs);
    var list := Written(Kept(attrs));
    forall i | 0 <= i < |list| ensures !Occurs(list[i].0, EVENT_END) && !Occurs(list[i].1, EVENT_END) {
      var a := Kept(attrs)[i];
      KeptMembers(attrs, a);
      PartHasNoEnd(p.text, a.key);
      PartHasNoEnd(p.text, a.raw);
    }
    AttrsEnds(list);
  }

  lemma TimesAttrsHaveNoEnd(time: Bytes, stale: Bytes)
    requires Plain(time) && Plain(stale)
    ensures !Occurs(CotBuilders.Attrs(Written(Times(time, stale))), EVENT_END)
  {
    hide Occurs, CotBuilders.Attrs, Plain;
    var times := Written(Times(time, stale));
    forall i | 0 <= i < |times| ensures !Occurs(times[i].0, EVENT_END) && !Occurs(times[i].1, EVENT_END) {
      TimesHaveNoEnd(time, stale, i);
    }
    AttrsEnds(times);
  }

  lemma TimesHaveNoEnd(time: Bytes, stale: Bytes, i: nat)
    requires Plain(time) && Plain(stale) && i < 3
    ensures !Occurs(Times(time, stale)[i].key, EVENT_END) && !Occurs(Times(time, stale)[i].raw, EVENT_END)
  {
    NoLtNoEnd(time);
    NoLtNoEnd(stale);
    NoLtNoEnd("time");
    NoLtNoEnd("start");
    NoLtNoEnd("stale");
  }

  lemma NoLtNoEnd(s: Bytes)
    requires forall i | 0 <= i < |s| :: s[i] != '<'
    ensures !Occurs(s, EVENT_END)
  {
    forall i: nat ensures !OccursAt(s, EVENT_END, i) { EndShape(s, i); }
  }

  /** The end tags of a written tag are those of its attributes. */
  lemma TagPieces(t: Token, time: Bytes, stale: Bytes)
    requires EventTag(t)
    ensures (AllGood(t.attrs);
             Occurs(TagText(t, time, stale), EVENT_END) ==>
               Occurs(CotBuilders.Attrs(Written(Kept(t.attrs))), EVENT_END)
               || Occurs(CotBuilders.Attrs(Written(Times(time, stale))), EVENT_END))
  {
    hide Occurs, CotBuilders.Attrs, Kept, Written;
    AllGood(t.attrs);
    TimesWritten(time, stale);
    var kept, times := CotBuilders.Attrs(Written(Kept(t.attrs))), CotBuilders.Attrs(Written(Times(time, stale)));
    var end := if t.Empty? then "/>" else ">";
    KeptWritten(t.attrs);
    NoLtNoEnd(end);
    CotBuilders.QuoteSeparates(times, end);
    var rest := times[1..] + end;
    NotInEnd();
    assert times == [' '] + times[1..];
    TagLiterals();
    if kept == [] {
      assert TagText(t, time, stale) == EVENT_START + [' '] + rest;
      Separates(EVENT_START, ' ', rest);
      Separates([], ' ', rest);
      assert [] + [' '] + rest == times + end;
    } else {
      assert TagText(t, time, stale) == EVENT_START + [' '] + (kept[1..] + (times + end));
      Separates(EVENT_START, ' ', kept[1..] + (times + end));
      Separates([], ' ', kept[1..] + (times + end));
      assert [] + [' '] + (kept[1..] + (times + end)) == kept + (times + end);
      CotBuilders.QuoteSeparates(kept, times + end);
    }
  }

  lemma TagLiterals()
    ensures !Occurs(EVENT_START, EVENT_END) && !Occurs([], EVENT_END)
  {
    NothingHere();
  }

  lemma KeptWritten(attrs: seq<Attr>)
    ensures (AllGood(attrs);
             var kept := CotBuilders.Attrs(Written(Kept(attrs)));
             kept != [] ==> kept[0] == ' ' && kept[|kept| - 1] == '"')
  {
    hide Kept, CotBuilders.Attr;
    AllGood(attrs);
    var list := Written(Kept(attrs));
    if list != [] {
      AttrQuoted(list[0]);
      CotBuilders.AttrsEndWithQuote(list);
      assert CotBuilders.Attrs(list) == CotBuilders.Attr(list[0]) + CotBuilders.Attrs(list[1..]);
    }
  }

  // ---- What refreshing does to a frame ----

  /** A piece from whose white space an end tag `</event>` is made. */
  ghost predicate Regrows(p: Piece) { !EventTag(p.token) && !Occurs(p.text, EVENT_END) && Occurs(p.out, EVENT_END) }

  lemma TrimmedShape(text: Bytes, out: Bytes)
    requires Trims(text, out)
    ensures IsMarkup(out) && |text| > 1 && text[1] == '/'
    ensures |text| > 1 && !IsXmlSpace(text[|text| - 2]) ==> out == text
  {
    var name: Bytes, space: Bytes :| text == "</" + (name + (space + GT)) && out == "</" + (name + GT)
                                     && forall i | 0 <= i < |space| :: IsXmlSpace(space[i]);
    assert out[|out| - 1] == '>' && out[0] == '<';
    assert text[1] == '/';
    if space == [] { assert space + GT == GT; }
    else { assert text[|text| - 2] == space[|space| - 1]; }
  }

  lemma OutOk(p: Piece)
    requires PieceOk(p)
    ensures IsMarkup(p.out) || NoTag(p.out)
    ensures |p.text| > 1 && (p.text[1] != '/' || !IsXmlSpace(p.text[|p.text| - 2])) ==> p.out == p.text
  {
    hide IsMarkup, NoTag, Trims, Occurs, IsXmlSpace;
    if p.out != p.text { TrimmedShape(p.text, p.out); }
  }

  lemma RewrittenPieces(doc: Doc, time: Bytes, stale: Bytes)
    requires Lexed(doc)
    ensures var w := RewriteDoc(doc, time, stale); forall i | 0 <= i < |w| :: IsMarkup(w[i].text) || NoTag(w[i].text)
  {
    hide IsMarkup, NoTag, TagText, Occurs, PieceOk;
    forall i | 0 <= i < |doc|
      ensures IsMarkup(RewritePiece(doc[i], time, stale).text) || NoTag(RewritePiece(doc[i], time, stale).text)
    {
      assert PieceOk(doc[i]);
      if EventTag(doc[i].token) { TagShape(doc[i].token, time, stale); } else { OutOk(doc[i]); }
    }
  }

  /** Rewriting puts an end tag where there was none exactly when some piece grows one. */
  lemma NewEndsIff(doc: Doc, time: Bytes, stale: Bytes)
    requires Lexed(doc) && Plain(time) && Plain(stale) && !Occurs(Text(doc), EVENT_END)
    ensures Sealed(Text(RewriteDoc(doc, time, stale)))
    ensures Occurs(Text(RewriteDoc(doc, time, stale)), EVENT_END) <==> exists i :: 0 <= i < |doc| && Regrows(doc[i])
  {
    hide IsMarkup, NoTag, TagText, Occurs, Sealed, Text, Plain, Trims;
    var w := RewriteDoc(doc, time, stale);
    assert forall i | 0 <= i < |doc| :: PieceOk(doc[i]);
    TextSealed(doc);
    RewrittenPieces(doc, time, stale);
    TextSealed(w);
    forall i | 0 <= i < |w| ensures Occurs(w[i].text, EVENT_END) <==> Regrows(doc[i]) {
      assert !Occurs(doc[i].text, EVENT_END);
      if EventTag(doc[i].token) { TagHasNoEnd(doc[i], time, stale); }
    }
  }

  /** The first piece of a frame is markup that holds the start of the tag. */
  lemma FirstPiece(t: Bytes, rest: Bytes)
    requires (IsMarkup(t) || NoTag(t)) && EVENT_START <= t + rest
    ensures IsMarkup(t) && EVENT_START <= t
  {
    forall i | 0 <= i < 6 && i < |t| ensures t[i] == EVENT_START[i] { assert t[i] == (t + rest)[i]; }
    StartLetters();
  }

  lemma StartLetters()
    ensures EVENT_START[0] == '<' && forall i | 0 <= i < 6 :: EVENT_START[i] != '>'
  {
  }

  lemma TagStartKept(p: Piece)
    requires PieceOk(p) && EVENT_START <= p.text
    ensures p.out == p.text
  {
    hide PieceOk, IsXmlSpace;
    SecondLetter(p.text);
    OutOk(p);
  }

  lemma SecondLetter(t: Bytes)
    requires EVENT_START <= t
    ensures |t| > 1 && t[1] == 'e'
  {
    assert t[1] == EVENT_START[1];
  }

  lemma StillStarts(doc: Doc, time: Bytes, stale: Bytes)
    requires Lexed(doc) && |doc| > 1 && EVENT_START <= Text(doc)
    ensures var w := RewriteDoc(doc, time, stale);
            IsMarkup(w[0].text) && EVENT_START <= w[0].text && EVENT_START <= Text(w)
  {
    hide TagText, Occurs, IsMarkup, NoTag, Trims;
    var w := RewriteDoc(doc, time, stale);
    assert PieceOk(doc[0]) && Text(doc) == doc[0].text + Text(doc[1..]);
    FirstPiece(doc[0].text, Text(doc[1..]));
    if EventTag(doc[0].token) { TagShape(doc[0].token, time, stale); } else { TagStartKept(doc[0]); }
    assert Text(w) == w[0].text + Text(w[1..]);
  }

  /** A frame stays one exactly when its last piece stays and nothing before it holds an end tag. */
  lemma ClosedStays(front: Bytes, last: Bytes, front': Bytes, last': Bytes)
    requires Sealed(front) && Sealed(front') && last != [] && last' != [] && ClosedFrame(front + last)
    ensures last' == last && (EVENT_START <= front' + last' || (front == [] && front' == [])) ==>
              (ClosedFrame(front' + last') <==> !Occurs(front', EVENT_END))
    ensures (|last'| >= 8 ==> last'[|last'| - 8..] != EVENT_END) ==> !ClosedFrame(front' + last')
  {
    hide Sealed, Occurs, ClosedFrame;
    ClosedByPieces(front, last);
    ClosedByPieces(front', last');
    if front == [] && front' == [] { assert front + last == last && front' + last' == last'; }
  }

  lemma FrontHasNoEnd(front: Bytes, last: Bytes)
    requires Sealed(front) && last != [] && ClosedFrame(front + last)
    ensures !Occurs(front, EVENT_END)
  {
    hide Sealed, Occurs, ClosedFrame;
    ClosedByPieces(front, last);
  }

  /** Neither was the end tag read as part of an event tag, nor does another piece grow one. */
  ghost predicate EndKept(doc: Doc)
    requires doc != []
  {
    !EventTag(doc[|doc| - 1].token) && forall i | 0 <= i < |doc| - 1 :: !Regrows(doc[i])
  }

  /** A refreshed frame is a frame exactly when its end tag was not read as part of an event tag
      and no end tag before it is made from one with white space in it. */
  lemma RefreshedIsClosedIff(doc: Doc, time: Bytes, stale: Bytes)
    requires Lexed(doc) && ClosedFrame(Text(doc)) && Plain(time) && Plain(stale)
    ensures doc != []
    ensures ClosedFrame(Text(RewriteDoc(doc, time, stale))) <==> EndKept(doc)
  {
    hide IsMarkup, NoTag, TagText, Occurs, Sealed, Text, Plain, ClosedFrame, PieceOk, Regrows;
    NotEmpty(doc);
    var n := |doc| - 1;
    var front, last := doc[..n], doc[n];
    var p := RewritePiece(last, time, stale);
    assert doc == front + [last];
    TextSnoc(front, last);
    SealedFront(doc);
    PieceNotEmpty(p, last, time, stale);
    FrontHasNoEnd(Text(front), last.text);
    NewEndsIff(front, time, stale);
    assert RewriteDoc(doc, time, stale) == RewriteDoc(front, time, stale) + [p];
    TextSnoc(RewriteDoc(front, time, stale), p);
    ClosedStays(Text(front), last.text, Text(RewriteDoc(front, time, stale)), p.text);
    if EventTag(last.token) { TagIsNoEnd(last.token, time, stale); }
    else {
      EndTagKept(Text(front), last);
      StartKept(doc, time, stale);
    }
    assert forall i | 0 <= i < n :: front[i] == doc[i];
  }

  /** The last piece of a frame is written as it was read. */
  lemma EndTagKept(front: Bytes, last: Piece)
    requires Sealed(front) && PieceOk(last) && ClosedFrame(front + last.text)
    ensures last.out == last.text
  {
    hide IsMarkup, NoTag, Occurs, Sealed, ClosedFrame, Trims;
    assert last.text != [] by { PieceNotEmpty(RewritePiece(last, [], []), last, [], []); }
    ClosedByPieces(front, last.text);
    var t := last.text;
    assert t[|t| - 2] == t[|t| - 8..][6] == EVENT_END[6] == 't';
    OutOk(last);
  }

  lemma StartKept(doc: Doc, time: Bytes, stale: Bytes)
    requires Lexed(doc) && doc != [] && ClosedFrame(Text(doc))
    ensures EVENT_START <= Text(RewriteDoc(doc, time, stale)) || |doc| == 1
  {
    hide IsMarkup, NoTag, TagText, Text, ClosedFrame, PieceOk;
    ClosedStarts(Text(doc));
    if |doc| > 1 { StillStarts(doc, time, stale); }
  }

  lemma NotEmpty(doc: Doc)
    requires ClosedFrame(Text(doc))
    ensures doc != []
  {
    hide Find, FindFrom;
  }

  lemma SealedFront(doc: Doc)
    requires Lexed(doc) && doc != []
    ensures Lexed(doc[..|doc| - 1]) && Sealed(Text(doc[..|doc| - 1]))
  {
    hide IsMarkup, NoTag, Occurs, Sealed, Text;
    assert forall i | 0 <= i < |doc| - 1 :: PieceOk(doc[i]);
    TextSealed(doc[..|doc| - 1]);
  }

  lemma PieceNotEmpty(p: Piece, q: Piece, time: Bytes, stale: Bytes)
    requires PieceOk(q) && p == RewritePiece(q, time, stale)
    ensures p.text != [] && q.text != []
  {
    hide TagText, Occurs;
    OutOk(q);
    if EventTag(q.token) { TagShape(q.token, time, stale); }
  }

  lemma TagIsNoEnd(t: Token, time: Bytes, stale: Bytes)
    requires EventTag(t)
    ensures var w := TagText(t, time, stale); |w| >= 8 ==> w[|w| - 8..] != EVENT_END
  {
    hide TagText;
    TagShape(t, time, stale);
    var w := TagText(t, time, stale);
    if |w| >= 8 {
      var k := if t.Empty? then 3 else 2;
      assert w[|w| - 8..][8 - k] == w[|w| - k] == w[|w| - k..][0] == '"';
      EndHasNoQuote();
    }
  }

  lemma EndHasNoQuote()
    ensures forall i | 0 <= i < |EVENT_END| :: EVENT_END[i] != '"'
  {
  }

  // ---- When it is unambiguous ----

  /** The first `>` of the first tag as it is written, told from what was read. */
  ghost predicate HeadOpen(p: Piece) {
    if !EventTag(p.token) then OpenTag(p.text)
    else if Occurs(KeptText(p.token), GT) then OpenTag(KeptText(p.token))
    else p.token.Start?
  }

  /** The refreshed event is one unambiguous frame. */
  ghost predicate RefreshFits(doc: Doc) {
    && doc != [] && EndKept(doc)
    && (if |doc| == 1 then Unambiguous(doc[0].text) else HeadOpen(doc[0]))
  }

  lemma HeadOpenIff(p: Piece, time: Bytes, stale: Bytes)
    requires Plain(time) && Plain(stale)
    requires PieceOk(p) && EVENT_START <= p.text
    ensures OpenTag(RewritePiece(p, time, stale).text) <==> HeadOpen(p)
  {
    hide Find, FindFrom, CotBuilders.Attrs, Written, KeptText, Occurs, PieceOk;
    if !EventTag(p.token) { TagStartKept(p); }
    else {
      var t := p.token;
      var kept, times := KeptText(t), CotBuilders.Attrs(Written(Times(time, stale)));
      var end := if t.Empty? then "/>" else ">";
      TimesHaveNoGt(time, stale);
      TimesWritten(time, stale);
      assert TagText(t, time, stale) == kept + (times + end);
      if Occurs(kept, GT) {
        GtStays(kept, times + end);
      } else {
        CotBuilders.FindConcat(times, end, '>');
        CotBuilders.FindConcat(kept, times + end, '>');
        EndGt(t.Empty?);
        LastBefore(kept, times, end, t.Empty?);
      }
    }
  }

  lemma GtStays(a: Bytes, b: Bytes)
    requires Occurs(a, GT)
    ensures OpenTag(a + b) <==> OpenTag(a)
  {
    hide Find, FindFrom;
    FindAppend(a, b, GT);
    var i := Find(a, GT).value;
    assert i > 0 ==> (a + b)[i - 1] == a[i - 1];
  }

  lemma EndGt(empty: bool)
    ensures Find(if empty then "/>" else ">", GT) == Some(if empty then 1 else 0)
  {
    hide Find, FindFrom;
    if empty {
      OneByte("/>", '>', 0);
      OneByte("/>", '>', 1);
      FindIs("/>", GT, 1);
    } else {
      OneByte(">", '>', 0);
      FindIs(">", GT, 0);
    }
  }

  /** The byte before the closing `>`: a quote, or the `/` of a self-closing tag. */
  lemma LastBefore(kept: Bytes, times: Bytes, end: Bytes, empty: bool)
    requires times != [] && times[|times| - 1] == '"' && end == if empty then "/>" else ">"
    ensures var s, i := kept + (times + end), |kept| + |times| + (if empty then 1 else 0);
            0 < i <= |s| && s[i - 1] == if empty then '/' else '"'
  {
  }

  lemma TimesHaveNoGt(time: Bytes, stale: Bytes)
    requires Plain(time) && Plain(stale)
    ensures !Occurs(CotBuilders.Attrs(Written(Times(time, stale))), GT)
  {
    hide CotBuilders.Attrs;
    var list := Written(Times(time, stale));
    assert CotBuilders.Quotable(list);
    CotBuilders.AttrsHaveNoMarkupButQuotes(list);
    CotBuilders.NoGt(CotBuilders.Attrs(list));
  }

  /** A refreshed frame is one unambiguous frame exactly when its end tag is kept and the first tag, as written,
      has no `/` before its first `>`. */
  lemma RefreshedFrameIff(doc: Doc, time: Bytes, stale: Bytes)
    requires Lexed(doc) && ClosedFrame(Text(doc)) && Plain(time) && Plain(stale)
    ensures var w := Text(RewriteDoc(doc, time, stale)); ClosedFrame(w) && Unambiguous(w) <==> RefreshFits(doc)
  {
    hide Find, FindFrom, TagText, Occurs, Plain, ClosedFrame, Text, HeadOpen, IsMarkup, NoTag, Unambiguous, OpenTag;
    RefreshedIsClosedIff(doc, time, stale);
    ClosedStarts(Text(doc));
    if |doc| == 1 { AloneIsSame(doc, time, stale); }
    else {
      StillStarts(doc, time, stale);
      FirstStart(doc);
      HeadOpenIff(doc[0], time, stale);
      NextNotEmpty(doc, time, stale);
      FirstGt(RewriteDoc(doc, time, stale));
    }
  }

  lemma AloneIsSame(doc: Doc, time: Bytes, stale: Bytes)
    requires Lexed(doc) && |doc| == 1 && ClosedFrame(Text(doc))
    ensures !EventTag(doc[0].token) ==> Text(RewriteDoc(doc, time, stale)) == doc[0].text
  {
    hide TagText, ClosedFrame, Text, IsMarkup, NoTag, PieceOk;
    var p := doc[0];
    assert doc == [p] && PieceOk(p);
    OneText(p);
    NothingHere();
    assert [] + p.text == p.text;
    EndTagKept([], p);
    if !EventTag(p.token) {
      assert RewriteDoc(doc, time, stale) == [RewritePiece(p, time, stale)];
      OneText(RewritePiece(p, time, stale));
    }
  }

  lemma FirstStart(doc: Doc)
    requires Lexed(doc) && |doc| > 1 && EVENT_START <= Text(doc)
    ensures PieceOk(doc[0]) && EVENT_START <= doc[0].text
  {
    hide Occurs, IsMarkup, NoTag, Trims;
    assert Text(doc) == doc[0].text + Text(doc[1..]);
    FirstPiece(doc[0].text, Text(doc[1..]));
  }

  lemma ClosedStarts(s: Bytes)
    requires ClosedFrame(s)
    ensures EVENT_START <= s
  {
  }

  lemma OneText(p: Piece)
    ensures Text([p]) == p.text
  {
    assert [p][1..] == [];
  }

  lemma NextNotEmpty(doc: Doc, time: Bytes, stale: Bytes)
    requires Lexed(doc) && |doc| > 1
    ensures RewriteDoc(doc, time, stale)[1].text != []
  {
    hide TagText, Occurs;
    assert PieceOk(doc[1]);
    PieceNotEmpty(RewritePiece(doc[1], time, stale), doc[1], time, stale);
  }

  /** With more to come, what counts is the first `>` of the first piece. */
  lemma FirstGt(w: Doc)
    requires |w| > 1 && IsMarkup(w[0].text) && w[1].text != []
    ensures Unambiguous(Text(w)) <==> OpenTag(w[0].text)
  {
    hide Find, FindFrom;
    var a, b := w[0].text, Text(w[1..]);
    assert Text(w) == a + b && b == w[1].text + Text(w[1..][1..]);
    OneByte(a, '>', |a| - 1);
    assert Occurs(a, GT);
    FindAppend(a, b, GT);
    var i := Find(a, GT).value;
    assert i > 0 ==> (a + b)[i - 1] == a[i - 1];
  }

  /** A frame that refreshing destroys: its end tag is read as part of its only tag. */
  lemma SwallowedEnd(time: Bytes, stale: Bytes)
    requires Plain(time) && Plain(stale)
    ensures var e := "<event </event>";
            var doc := [Piece(Start("event", [Bad]), e, e)];
            && Lexed(doc) && Text(doc) == e && ClosedFrame(e) && !ClosedFrame(Text(RewriteDoc(doc, time, stale)))
  {
    hide ClosedFrame, TagText, Text, Occurs, Trims, RewriteDoc, NoTag;
    var e := "<event </event>";
    var p := Piece(Start("event", [Bad]), e, e);
    OneText(p);
    FirstEnd("<event ");
    assert e == "<event " + EVENT_END;
    SmallFrame(e);
    assert PieceOk(p);
    RefreshedIsClosedIff([p], time, stale);
  }

  lemma SmallFrame(e: Bytes)
    requires e == "<event </event>" && Find(e, EVENT_END) == Some(7)
    ensures ClosedFrame(e)
  {
    hide Find, FindFrom;
    assert e[..6] == EVENT_START;
  }
}
