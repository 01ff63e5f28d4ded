/** The CoT events the relay builds itself, and how they frame. */
module CotBuilders {
  import opened Substrings
  import opened Framing
  import opened Conservation
  import opened Escaping

  type Attribute = (Bytes, Bytes)

  const QUOTE: Bytes := "\""

  function Attr(a: Attribute): Bytes { " " + a.0 + "=" + QUOTE + a.1 + QUOTE }

  function Attrs(list: seq<Attribute>): Bytes {
    if list == [] then [] else Attr(list[0]) + Attrs(list[1..])
  }

  function ValuesOf(list: seq<Attribute>): seq<Bytes> {
    if list == [] then [] else [list[0].1] + ValuesOf(list[1..])
  }

  ghost predicate Quotable(list: seq<Attribute>) {
    forall i | 0 <= i < |list| :: NoMarkup(list[i].0) && NoMarkup(list[i].1)
  }

  function Digits(n: nat): (r: Bytes)
    ensures Plain(r)
  {
    var d := [('0' as int + n % 10) as char];
    if n < 10 then d else Digits(n / 10) + d
  }

  /** A signed decimal, as the 64-bit size is printed. */
  function Decimal(n: int): (r: Bytes)
    ensures Plain(r)
  {
    if n < 0 then "-" + Digits(-n) else Digits(n)
  }

  function LowerAscii(c: char): char { if 'A' <= c <= 'Z' then (c as int + 32) as char else c }

  predicate EndsWithZip(name: Bytes) {
    |name| >= 4 && seq(4, i requires 0 <= i < 4 => LowerAscii(name[|name| - 4 + i])) == ".zip"
  }

  function ZipName(name: Bytes): Bytes { if EndsWithZip(name) then name else name + ".zip" }

  /** What a caller supplies for a file share. */
  datatype Share = Share(
    hash: Bytes, name: Bytes, size: int, url: Bytes, uid: Bytes,
    callsign: Bytes, dest: Option<Bytes>)

  /** What the server generates: two UUIDs and two RFC 3339 timestamps. */
  datatype Stamp = Stamp(uid: Bytes, ack: Bytes, time: Bytes, stale: Bytes)

  ghost predicate PlainStamp(g: Stamp) {
    Plain(g.uid) && Plain(g.ack) && Plain(g.time) && Plain(g.stale)
  }

  // ---- The file-share event ----

  function EventAttrs(g: Stamp): seq<Attribute> {
    [("version", "2.0"), ("uid", g.uid), ("type", "b-f-t-r"), ("time", g.time), ("start", g.time),
     ("stale", g.stale), ("how", "h-e")]
  }

  const POINT_ATTRS: seq<Attribute> :=
    [("lat", "0.0"), ("lon", "0.0"), ("hae", "0.0"), ("ce", "9999999"), ("le", "9999999")]

  function FileAttrs(s: Share): seq<Attribute> {
    [("filename", Escape(ZipName(s.name))), ("senderUrl", Escape(s.url)), ("sizeInBytes", Decimal(s.size)),
     ("sha256", Escape(s.hash)), ("senderUid", Escape(s.uid)), ("senderCallsign", Escape(s.callsign)),
     ("name", Escape(s.name))]
  }

  function AckAttrs(s: Share, g: Stamp): seq<Attribute> {
    [("uid", g.ack), ("ackrequested", "true"), ("tag", Escape(s.name))]
  }

  function DestAttrs(s: Share): seq<Attribute> {
    match s.dest case None => [] case Some(d) => [("callsign", Escape(d))]
  }

  function Head(g: Stamp): Bytes { EVENT_START + Attrs(EventAttrs(g)) }

  function Marti(s: Share): Bytes {
    if s.dest.None? then [] else "<marti><dest" + Attrs(DestAttrs(s)) + "/></marti>"
  }

  function Body(s: Share, g: Stamp): Bytes {
    "><point" + Attrs(POINT_ATTRS) + (" /><detail><fileshare" + Attrs(FileAttrs(s)) +
      ("/><ackrequest" + Attrs(AckAttrs(s, g)) + ("/>" + Marti(s) + "</detail>")))
  }

  /** `build_fileshare_cot`. */
  function FileshareCot(s: Share, g: Stamp): Bytes { Head(g) + Body(s, g) + EVENT_END }

  // ---- No end tag inside ----

  /** Every `<` is followed by two bytes that do not continue `</e`. */
  ghost predicate Clean(s: Bytes) {
    forall i | 0 <= i < |s| && s[i] == '<' :: i + 2 < |s| && !(s[i + 1] == '/' && s[i + 2] == 'e')
  }

  lemma CleanConcat(a: Bytes, b: Bytes)
    requires Clean(a) && Clean(b)
    ensures Clean(a + b)
  {
  }

  lemma CleanHasNoEnd(s: Bytes)
    requires Clean(s)
    ensures !Occurs(s, EVENT_END)
  {
    forall i: nat ensures !OccursAt(s, EVENT_END, i) { EndBytes(s, i); }
  }

  lemma EndBytes(s: Bytes, i: nat)
    ensures OccursAt(s, EVENT_END, i) ==>
              && s[i] == '<' && s[i + 1] == '/' && s[i + 2] == 'e'
              && forall k | i < k < i + |EVENT_END| :: s[k] != '<' && s[k] != '"'
  {
    if OccursAt(s, EVENT_END, i) {
      forall k | i <= k < i + |EVENT_END| ensures s[k] == EVENT_END[k - i] {
        assert s[k] == s[i..i + |EVENT_END|][k - i];
      }
    }
  }

  /** An end tag put after bytes that hold none is the first one. */
  lemma EndAppended(body: Bytes)
    requires !Occurs(body, EVENT_END)
    ensures Find(body + EVENT_END, EVENT_END) == Some(|body|)
  {
    hide Find, FindFrom;
    var s := body + EVENT_END;
    assert s[|body|..|body| + |EVENT_END|] == EVENT_END;
    forall j: nat | j < |body| ensures !OccursAt(s, EVENT_END, j) {
      EndBytes(s, j);
      if j + |EVENT_END| <= |body| { OccursAppend(body, EVENT_END, EVENT_END, j); }
      assert s[|body|] == '<';
    }
    FindIs(s, EVENT_END, |body|);
  }

  lemma {:induction false} AttrsHaveNoMarkupButQuotes(list: seq<Attribute>)
    requires Quotable(list)
    ensures forall i | 0 <= i < |Attrs(list)| :: Attrs(list)[i] != '<' && Attrs(list)[i] != '>'
  {
    if list != [] {
      AttrsHaveNoMarkupButQuotes(list[1..]);
    }
  }

  lemma ShareAttrsQuotable(s: Share, g: Stamp)
    requires PlainStamp(g)
    ensures Quotable(EventAttrs(g)) && Quotable(POINT_ATTRS) && Quotable(FileAttrs(s))
    ensures Quotable(AckAttrs(s, g)) && Quotable(DestAttrs(s))
  {
    hide Escape, FileAttrs;
    FileAttrsQuotable(s);
    EscapeHasNoMarkup(s.name);
    if s.dest.Some? { EscapeHasNoMarkup(s.dest.value); }
  }

  lemma FileAttrsQuotable(s: Share)
    ensures Quotable(FileAttrs(s))
  {
    hide Escape, Decimal, ZipName;
    EscapeHasNoMarkup(ZipName(s.name));
    EscapeHasNoMarkup(s.url);
    EscapeHasNoMarkup(s.hash);
    EscapeHasNoMarkup(s.uid);
    EscapeHasNoMarkup(s.callsign);
    EscapeHasNoMarkup(s.name);
  }

  lemma CleanAttrs(list: seq<Attribute>)
    requires Quotable(list)
    ensures Clean(Attrs(list))
  {
    AttrsHaveNoMarkupButQuotes(list);
  }

  lemma BodyClean(s: Share, g: Stamp)
    requires PlainStamp(g)
    ensures Clean(Body(s, g))
  {
    hide Attrs, EventAttrs, FileAttrs, AckAttrs, DestAttrs, Quotable;
    ShareAttrsQuotable(s, g);
    CleanAttrs(POINT_ATTRS); CleanAttrs(FileAttrs(s)); CleanAttrs(AckAttrs(s, g)); CleanAttrs(DestAttrs(s));
    var tail := "/>" + Marti(s) + "</detail>";
    assert Clean(Marti(s));
    assert Clean("</detail>") && Clean("/>");
    assert Clean(tail);
    var ack := "/><ackrequest" + Attrs(AckAttrs(s, g)) + tail;
    assert Clean("/><ackrequest");
    CleanConcat("/><ackrequest", Attrs(AckAttrs(s, g)));
    CleanConcat("/><ackrequest" + Attrs(AckAttrs(s, g)), tail);
    var file := " /><detail><fileshare" + Attrs(FileAttrs(s)) + ack;
    assert Clean(" /><detail><fileshare");
    CleanConcat(" /><detail><fileshare", Attrs(FileAttrs(s)));
    CleanConcat(" /><detail><fileshare" + Attrs(FileAttrs(s)), ack);
    assert Clean("><point");
    CleanConcat("><point", Attrs(POINT_ATTRS));
    CleanConcat("><point" + Attrs(POINT_ATTRS), file);
  }

  /** The head ends with a quote and holds no `>`. */
  lemma HeadShape(g: Stamp)
    requires PlainStamp(g)
    ensures Clean(Head(g)) && !Occurs(Head(g), GT)
    ensures Head(g) != [] && Head(g)[|Head(g)| - 1] == '"' && EVENT_START <= Head(g)
  {
    hide Attrs;
    var list := EventAttrs(g);
    assert Quotable(list);
    AttrsHaveNoMarkupButQuotes(list);
    CleanAttrs(list);
    CleanConcat(EVENT_START, Attrs(list));
    AttrsEndWithQuote(list);
    forall j: nat ensures !OccursAt(Head(g), GT, j) { OneByte(Head(g), '>', j); }
  }

  lemma {:induction false} AttrsEndWithQuote(list: seq<Attribute>)
    requires list != []
    ensures Attrs(list) != [] && Attrs(list)[|Attrs(list)| - 1] == '"'
  {
    if list[1..] == [] {
      assert Attrs(list) == Attr(list[0]) + [];
    } else {
      AttrsEndWithQuote(list[1..]);
    }
  }

  /** A first `>` right after bytes that hold none. */
  lemma GtAfter(a: Bytes, b: Bytes)
    requires !Occurs(a, GT) && b != [] && b[0] == '>'
    ensures Find(a + b, GT) == Some(|a|)
  {
    hide Find, FindFrom;
    assert (a + b)[|a|..|a| + 1] == GT;
    forall j: nat | j < |a| ensures !OccursAt(a + b, GT, j) { OccursAppend(a, b, GT, j); }
    FindIs(a + b, GT, |a|);
  }

  lemma FileshareIsFrame(s: Share, g: Stamp)
    requires PlainStamp(g)
    ensures ClosedFrame(FileshareCot(s, g)) && Unambiguous(FileshareCot(s, g))
  {
    hide Find, FindFrom, Head, Body, Clean, Occurs;
    HeadShape(g);
    BodyClean(s, g);
    var inner := Head(g) + Body(s, g);
    CleanConcat(Head(g), Body(s, g));
    CleanHasNoEnd(inner);
    EndAppended(inner);
    BodyStart(s, g);
    var after := Body(s, g) + EVENT_END;
    assert FileshareCot(s, g) == Head(g) + after;
    GtAfter(Head(g), after);
  }

  lemma BodyStart(s: Share, g: Stamp)
    ensures Body(s, g) != [] && Body(s, g)[0] == '>'
  {
    hide Attrs, Marti, FileAttrs, AckAttrs;
  }

  /** Whatever text the caller supplied, the event sent as one line is received as exactly that one frame,
      however the stream is cut into reads. */
  lemma FileshareFrames(s: Share, g: Stamp, chunks: seq<Bytes>)
    requires PlainStamp(g)
    requires Concat(chunks) == Wire([FileshareCot(s, g)])
    ensures Feed([], chunks) == Frames([FileshareCot(s, g)], NEWLINE)
  {
    hide Feed, FileshareCot, Wire, Concat, Unambiguous, ClosedFrame;
    FileshareIsFrame(s, g);
    WireRoundTrip([FileshareCot(s, g)]);
  }

  // ---- The pong ----

  const PONG_ATTRS: seq<Attribute> :=
    [("version", "2.0"), ("uid", "takPong"), ("type", "t-x-c-t-r"), ("how", "h-g-i-g-o")]

  const PONG_POINT: seq<Attribute> :=
    [("lat", "0"), ("lon", "0"), ("hae", "9999999.0"), ("ce", "9999999.0"), ("le", "9999999.0")]

  /** `build_tak_pong`. */
  function PongCot(): Bytes {
    EVENT_START + Attrs(PONG_ATTRS) + (">\n    <point" + Attrs(PONG_POINT) + "/>\n") + EVENT_END
  }

  lemma PongIsFrame()
    ensures ClosedFrame(PongCot()) && Unambiguous(PongCot())
  {
    hide Find, FindFrom, Attrs, Clean, Occurs;
    var head := EVENT_START + Attrs(PONG_ATTRS);
    var body := ">\n    <point" + Attrs(PONG_POINT) + "/>\n";
    PongHead();
    PongBody();
    CleanConcat(head, body);
    CleanHasNoEnd(head + body);
    EndAppended(head + body);
    assert PongCot() == head + (body + EVENT_END);
    GtAfter(head, body + EVENT_END);
    assert EVENT_START <= PongCot();
  }

  lemma PongHead()
    ensures var head := EVENT_START + Attrs(PONG_ATTRS);
            Clean(head) && !Occurs(head, GT) && head[|head| - 1] == '"'
  {
    hide Attrs, Clean, Occurs;
    var head := EVENT_START + Attrs(PONG_ATTRS);
    assert Quotable(PONG_ATTRS);
    CleanAttrs(PONG_ATTRS);
    PongLiterals();
    CleanConcat(EVENT_START, Attrs(PONG_ATTRS));
    AttrsHaveNoMarkupButQuotes(PONG_ATTRS);
    AttrsEndWithQuote(PONG_ATTRS);
    assert forall i | 0 <= i < |head| :: head[i] != '>';
    NoGt(head);
  }

  lemma PongBody()
    ensures Clean(">\n    <point" + Attrs(PONG_POINT) + "/>\n")
  {
    hide Attrs, Clean;
    assert Quotable(PONG_POINT);
    CleanAttrs(PONG_POINT);
    PongLiterals();
    CleanConcat(">\n    <point", Attrs(PONG_POINT));
    CleanConcat(">\n    <point" + Attrs(PONG_POINT), "/>\n");
  }

  lemma PongLiterals()
    ensures Clean(EVENT_START) && Clean(">\n    <point") && Clean("/>\n")
  {
  }

  lemma NoGt(s: Bytes)
    requires forall i | 0 <= i < |s| :: s[i] != '>'
    ensures !Occurs(s, GT)
  {
    forall j: nat ensures !OccursAt(s, GT, j) { OneByte(s, '>', j); }
  }

  // ---- Reading the attributes back ----

  /** The texts between the first and second quote, the third and fourth, and so on. */
  function QuotedValues(s: Bytes): seq<Bytes>
    decreases |s|
  {
    match Find(s, QUOTE)
    case None => []
    case Some(i) =>
      var t := s[i + 1..];
      match Find(t, QUOTE)
      case None => []
      case Some(j) => [t[..j]] + QuotedValues(t[j + 1..])
  }

  ghost predicate NoQuote(s: Bytes) { forall i | 0 <= i < |s| :: s[i] != '"' }

  lemma QuoteAfter(a: Bytes, b: Bytes)
    requires NoQuote(a)
    ensures Find(a + QUOTE + b, QUOTE) == Some(|a|)
  {
    hide Find, FindFrom;
    var s := a + QUOTE + b;
    assert s[|a|..|a| + 1] == QUOTE;
    forall j: nat | j < |a| ensures !OccursAt(s, QUOTE, j) { OneByte(s, '"', j); }
    FindIs(s, QUOTE, |a|);
  }

  lemma QuotedPair(a: Bytes, v: Bytes, b: Bytes)
    requires NoQuote(a) && NoQuote(v)
    ensures QuotedValues(a + QUOTE + v + QUOTE + b) == [v] + QuotedValues(b)
  {
    hide Find, FindFrom;
    var t := v + QUOTE + b;
    var s := a + QUOTE + t;
    assert s == a + QUOTE + v + QUOTE + b;
    QuoteAfter(a, t);
    assert s[|a| + 1..] == t;
    QuoteAfter(v, b);
    assert t[..|v|] == v && t[|v| + 1..] == b;
  }

  /** Attributes written between double quotes are read back exactly when no value holds a double quote. */
  lemma {:induction false} WrittenAttrsReadBack(list: seq<Attribute>)
    requires forall i | 0 <= i < |list| :: NoQuote(list[i].0)
    ensures QuotedValues(Attrs(list)) == ValuesOf(list) <==> forall i | 0 <= i < |list| :: NoQuote(list[i].1)
    decreases |list|
  {
    hide QuotedValues, Find, FindFrom;
    if list == [] { NoQuoteEnds([]); }
    else {
      var x, more := list[0], list[1..];
      WrittenAttrsReadBack(more);
      var front := " " + x.0 + "=";
      assert Attrs(list) == front + QUOTE + x.1 + QUOTE + Attrs(more);
      if NoQuote(x.1) {
        QuotedPair(front, x.1, Attrs(more));
        assert forall i | 1 <= i < |list| :: list[i] == more[i - 1];
        assert [x.1] + QuotedValues(Attrs(more)) == [x.1] + ValuesOf(more) ==>
                 QuotedValues(Attrs(more)) == ([x.1] + ValuesOf(more))[1..] == ValuesOf(more);
      } else {
        var k := FirstQuote(x.1);
        var v := x.1[..k];
        assert x.1 == v + QUOTE + x.1[k + 1..];
        assert Attrs(list) == front + QUOTE + v + QUOTE + (x.1[k + 1..] + QUOTE + Attrs(more));
        QuotedPair(front, v, x.1[k + 1..] + QUOTE + Attrs(more));
        assert QuotedValues(Attrs(list))[0] == v != x.1;
        assert !NoQuote(list[0].1);
      }
    }
  }

  lemma FirstQuote(v: Bytes) returns (k: nat)
    requires !NoQuote(v)
    ensures k < |v| && v[k] == '"' && NoQuote(v[..k])
  {
    k := 0;
    while v[k] != '"'
      invariant k < |v| && NoQuote(v[..k])
      invariant exists i :: k <= i < |v| && v[i] == '"'
      decreases |v| - k
    {
      k := k + 1;
    }
  }

  lemma NoQuoteEnds(s: Bytes)
    requires NoQuote(s)
    ensures QuotedValues(s) == []
  {
    forall j: nat ensures !OccursAt(s, QUOTE, j) { OneByte(s, '"', j); }
    FindNone(s, QUOTE);
  }

  const MARTI_NONE: Bytes := "/></detail></event>"
  const MARTI_OPEN: Bytes := "/><marti><dest"
  const MARTI_CLOSE: Bytes := "/></marti></detail></event>"

  lemma MartiLiterals()
    ensures NoQuote(MARTI_NONE) && NoQuote(MARTI_OPEN) && NoQuote(MARTI_CLOSE)
  {
  }

  lemma MartiRegroups(attrs: Bytes)
    ensures "/>" + ("<marti><dest" + attrs + "/></marti>") + "</detail>" + EVENT_END == MARTI_OPEN + attrs + MARTI_CLOSE
  {
    assert "/>" + "<marti><dest" == MARTI_OPEN;
    assert "/></marti>" + "</detail>" + EVENT_END == MARTI_CLOSE;
  }

  lemma PlainDecodes(s: Bytes)
    requires Plain(s)
    ensures Unescape(s) == Some(s)
  {
    EscapePlain(s);
    UnescapeEscape(s);
  }

  // ---- Events in which texts stand unescaped ----

  const UID_HEAD: Bytes := "<event version=\"2.0\" uid=\""

  /** An event that begins with a uid and in which another text stands later, both unescaped. */
  function Filled(uid: Bytes, middle: Bytes, text: Bytes, tail: Bytes): Bytes {
    Inner(uid, middle, text, tail) + EVENT_END
  }

  function Inner(uid: Bytes, middle: Bytes, text: Bytes, tail: Bytes): Bytes {
    UID_HEAD + (uid + (middle + (text + tail)))
  }

  /** The fixed parts begin and end with the quotes of the texts, hold no end tag,
      and the first `>` stands behind a quote. */
  ghost predicate Fixed(middle: Bytes, tail: Bytes) {
    && Clean(middle) && middle != [] && middle[0] == '"' && middle[|middle| - 1] == '"'
    && Find(middle, GT).Some? && Find(middle, GT).value > 0 && middle[Find(middle, GT).value - 1] == '"'
    && tail != [] && tail[0] == '"' && !Occurs(tail, EVENT_END)
  }

  /** A quote between two texts keeps end tags apart. */
  lemma QuoteSeparates(a: Bytes, b: Bytes)
    requires (a != [] && a[|a| - 1] == '"') || (b != [] && b[0] == '"')
    ensures Occurs(a + b, EVENT_END) <==> Occurs(a, EVENT_END) || Occurs(b, EVENT_END)
  {
    forall i: nat | OccursAt(a, EVENT_END, i) ensures OccursAt(a + b, EVENT_END, i) {
      OccursAppend(a, b, EVENT_END, i);
    }
    forall i: nat | OccursAt(b, EVENT_END, i) ensures OccursAt(a + b, EVENT_END, |a| + i) {
      OccursAfter(a, b, EVENT_END, i);
    }
    assert a != [] ==> (a + b)[|a| - 1] == a[|a| - 1];
    assert b != [] ==> (a + b)[|a|] == b[0];
    forall i: nat | OccursAt(a + b, EVENT_END, i) ensures Occurs(a, EVENT_END) || Occurs(b, EVENT_END) {
      EndBytes(a + b, i);
      if i + |EVENT_END| <= |a| { OccursAppend(a, b, EVENT_END, i); }
      else if i >= |a| { OccursAfter(a, b, EVENT_END, i - |a|); }
    }
  }

  lemma HeadLiterals()
    ensures !Occurs(UID_HEAD, EVENT_END) && !Occurs(UID_HEAD, GT) && EVENT_START <= UID_HEAD
  {
    CleanHasNoEnd(UID_HEAD);
    forall j: nat ensures !OccursAt(UID_HEAD, GT, j) { OneByte(UID_HEAD, '>', j); }
  }

  /** The end tags before the closing one are those of the texts. */
  lemma FilledEnds(uid: Bytes, middle: Bytes, text: Bytes, tail: Bytes)
    requires Fixed(middle, tail)
    ensures Occurs(Inner(uid, middle, text, tail), EVENT_END) <==> Occurs(uid, EVENT_END) || Occurs(text, EVENT_END)
  {
    hide Occurs, Clean, Find, FindFrom;
    CleanHasNoEnd(middle);
    HeadLiterals();
    QuoteSeparates(text, tail);
    QuoteSeparates(middle, text + tail);
    QuoteSeparates(uid, middle + (text + tail));
    QuoteSeparates(UID_HEAD, uid + (middle + (text + tail)));
  }

  lemma FindConcat(a: Bytes, b: Bytes, c: char)
    requires !Occurs(a, [c])
    ensures Find(b, [c]).Some? ==> Find(a + b, [c]) == Some(|a| + Find(b, [c]).value)
  {
    hide Find, FindFrom;
    if Find(b, [c]).Some? {
      var i := Find(b, [c]).value;
      forall j: nat | j <= |a| + i ensures OccursAt(a + b, [c], j) == (j == |a| + i) {
        if j < |a| { OneByte(a, c, j); OneByte(a + b, c, j); assert !OccursAt(a, [c], j); }
        else { OccursAfter(a, b, [c], j - |a|); }
      }
      FindIs(a + b, [c], |a| + i);
    }
  }

  /** Where the first `>` of the event stands. */
  lemma FilledGt(uid: Bytes, middle: Bytes, text: Bytes, tail: Bytes)
    requires Fixed(middle, tail)
    ensures Unambiguous(Filled(uid, middle, text, tail)) <==> OpenTag(uid)
  {
    hide Find, FindFrom, Occurs, Clean;
    var d := Filled(uid, middle, text, tail);
    var after := text + tail + EVENT_END;
    assert d == UID_HEAD + (uid + (middle + after));
    HeadLiterals();
    FindAppend(middle, after, GT);
    if Find(uid, GT).Some? {
      FindAppend(uid, middle + after, GT);
      var i := Find(uid, GT).value;
      FindConcat(UID_HEAD, uid + (middle + after), '>');
      assert i > 0 ==> d[|UID_HEAD| + i - 1] == uid[i - 1];
      assert i == 0 ==> d[|UID_HEAD| + i - 1] == '"';
    } else {
      FindConcat(uid, middle + after, '>');
      FindConcat(UID_HEAD, uid + (middle + after), '>');
      var i := Find(middle, GT).value;
      assert d[|UID_HEAD| + |uid| + i - 1] == middle[i - 1];
    }
  }

  /** Without an end tag in the texts the event is one closed frame. */
  lemma FilledIsFrame(uid: Bytes, middle: Bytes, text: Bytes, tail: Bytes)
    requires Fixed(middle, tail) && !Occurs(uid, EVENT_END) && !Occurs(text, EVENT_END)
    ensures ClosedFrame(Filled(uid, middle, text, tail))
  {
    hide Find, FindFrom, Occurs, Fixed;
    FilledEnds(uid, middle, text, tail);
    HeadLiterals();
    EndAppended(Inner(uid, middle, text, tail));
    assert EVENT_START <= Filled(uid, middle, text, tail);
  }

  /** The event comes alone out of its line exactly when neither text holds `</event>`, and under every chunking exactly
      when, besides, the uid's first `>` is not preceded by `/`. */
  lemma FilledFramesIff(uid: Bytes, middle: Bytes, text: Bytes, tail: Bytes)
    requires Fixed(middle, tail)
    ensures var d := Filled(uid, middle, text, tail);
            && (Extract(Wire([d])) == Frames([d], NEWLINE) <==> !Occurs(uid, EVENT_END) && !Occurs(text, EVENT_END))
            && ((forall chunks: seq<Bytes> | Concat(chunks) == Wire([d]) :: Feed([], chunks) == Frames([d], NEWLINE))
                <==> !Occurs(uid, EVENT_END) && !Occurs(text, EVENT_END) && OpenTag(uid))
  {
    hide Find, FindFrom, Occurs, Extract, Feed, Concat, Unambiguous, OpenTag, Wire, ClosedFrame, Fixed, Inner;
    var d := Filled(uid, middle, text, tail);
    if Occurs(uid, EVENT_END) || Occurs(text, EVENT_END) {
      FilledEnds(uid, middle, text, tail);
      InnerStarts(uid, middle, text, tail);
      OpenFrameSplits(Inner(uid, middle, text, tail));
      LoneChunk(Wire([d]));
    } else {
      FilledIsFrame(uid, middle, text, tail);
      FilledGt(uid, middle, text, tail);
      WireRoundTrip([d]);
      assert AllUnambiguous([d]) <==> Unambiguous(d) by { assert [d][0] == d; }
    }
  }

  lemma InnerStarts(uid: Bytes, middle: Bytes, text: Bytes, tail: Bytes)
    ensures EVENT_START <= Inner(uid, middle, text, tail)
  {
    HeadLiterals();
  }

  lemma LoneChunk(s: Bytes)
    ensures Concat([s]) == s && Feed([], [s]) == Extract(s)
  {
    assert [s][1..] == [] && [] + s == s && s + [] == s;
    assert Feed(Extract(s).rest, []) == Frames([], Extract(s).rest);
    assert Extract(s).events + [] == Extract(s).events;
  }

  /** An end tag inside cuts the event short. */
  lemma OpenFrameSplits(inner: Bytes)
    requires EVENT_START <= inner && Occurs(inner, EVENT_END)
    ensures Extract(Wire([inner + EVENT_END])).events != [inner + EVENT_END]
  {
    hide Find, FindFrom;
    var d := inner + EVENT_END;
    var w := Wire([d]);
    assert d != [];
    WireOne(d);
    var i := Find(inner, EVENT_END).value;
    assert w == inner + (EVENT_END + NEWLINE);
    FindAppend(inner, EVENT_END + NEWLINE, EVENT_END);
    assert w[0..6] == EVENT_START;
    FindIs(w, EVENT_START, 0);
    assert w[0..] == w;
    assert NextFrame(w) == Cut(w[..i + 8], w[i + 8..], false);
    assert |Extract(w).events[0]| < |d|;
  }

  /** Attributes behind a closing quote, and then a tag with a point in it, up to the next quote. */
  lemma MiddleShape(list: seq<Attribute>, point: seq<Attribute>, link: Bytes)
    requires Quotable(list) && Quotable(point) && list != [] && Clean(link) && link != [] && link[|link| - 1] == '"'
    ensures var m := QUOTE + Attrs(list) + (">\n    <point" + Attrs(point) + link);
            Clean(m) && m != [] && m[0] == '"' && m[|m| - 1] == '"'
    ensures var m := QUOTE + Attrs(list) + (">\n    <point" + Attrs(point) + link);
            var i := Find(m, GT); i.Some? && i.value > 0 && m[i.value - 1] == '"'
  {
    hide Attrs, Find, FindFrom, Clean;
    CleanAttrs(list);
    CleanAttrs(point);
    MiddleLiterals();
    var a := QUOTE + Attrs(list);
    var b := ">\n    <point" + Attrs(point) + link;
    CleanConcat(QUOTE, Attrs(list));
    CleanConcat(">\n    <point", Attrs(point));
    CleanConcat(">\n    <point" + Attrs(point), link);
    CleanConcat(a, b);
    AttrsEndWithQuote(list);
    AttrsHaveNoMarkupButQuotes(list);
    forall j: nat ensures !OccursAt(a, GT, j) { OneByte(a, '>', j); }
    GtAfter(a, b);
    assert (a + b)[|a| - 1] == Attrs(list)[|Attrs(list)| - 1];
    assert (a + b)[|a + b| - 1] == link[|link| - 1];
  }

  lemma MiddleLiterals()
    ensures Clean(QUOTE) && Clean(">\n    <point")
  {
  }

  // ---- The disconnect event ----

  function TimeAttrs(time: Bytes, stale: Bytes): seq<Attribute> {
    [("type", "t-x-d-d"), ("time", time), ("start", time), ("stale", stale), ("how", "h-g-i-g-o")]
  }

  const LINK: Bytes := "/>\n    <detail><link uid=\""

  function DisconnectMiddle(time: Bytes, stale: Bytes): Bytes {
    QUOTE + Attrs(TimeAttrs(time, stale)) + (">\n    <point" + Attrs(POINT_ATTRS) + LINK)
  }

  const DISCONNECT_TAIL: Bytes := "\"/></detail>\n"

  /** `build_disconnect_cot`: the uid stands, unescaped, in the event and in its link. */
  function DisconnectCot(uid: Bytes, time: Bytes, stale: Bytes): Bytes {
    Filled(uid, DisconnectMiddle(time, stale), uid, DISCONNECT_TAIL)
  }

  lemma DisconnectFixed(time: Bytes, stale: Bytes)
    requires Plain(time) && Plain(stale)
    ensures Fixed(DisconnectMiddle(time, stale), DISCONNECT_TAIL)
  {
    hide Attrs, Find, FindFrom, Clean;
    assert Quotable(TimeAttrs(time, stale)) && Quotable(POINT_ATTRS);
    LinkClean();
    MiddleShape(TimeAttrs(time, stale), POINT_ATTRS, LINK);
  }

  lemma LinkClean()
    ensures Clean(LINK) && LINK[|LINK| - 1] == '"' && !Occurs(DISCONNECT_TAIL, EVENT_END)
  {
    CleanHasNoEnd(DISCONNECT_TAIL);
  }

  /** Without an end tag in the uid the event is one closed frame. */
  lemma DisconnectIsFrame(uid: Bytes, time: Bytes, stale: Bytes)
    requires Plain(time) && Plain(stale) && !Occurs(uid, EVENT_END)
    ensures ClosedFrame(DisconnectCot(uid, time, stale))
    ensures Unambiguous(DisconnectCot(uid, time, stale)) <==> OpenTag(uid)
  {
    hide Fixed, Filled, DisconnectMiddle, Occurs, Unambiguous, OpenTag, ClosedFrame;
    DisconnectFixed(time, stale);
    FilledIsFrame(uid, DisconnectMiddle(time, stale), uid, DISCONNECT_TAIL);
    FilledGt(uid, DisconnectMiddle(time, stale), uid, DISCONNECT_TAIL);
  }

  /** The disconnect event of a uid frames as itself in one read exactly when the uid holds no `</event>`,
      and under every chunking exactly when, besides, the uid's first `>` is not preceded by `/`. */
  lemma DisconnectFramesIff(uid: Bytes, time: Bytes, stale: Bytes)
    requires Plain(time) && Plain(stale)
    ensures var d := DisconnectCot(uid, time, stale);
            && (Extract(Wire([d])) == Frames([d], NEWLINE) <==> !Occurs(uid, EVENT_END))
            && ((forall chunks: seq<Bytes> | Concat(chunks) == Wire([d]) :: Feed([], chunks) == Frames([d], NEWLINE))
                <==> !Occurs(uid, EVENT_END) && OpenTag(uid))
  {
    hide Fixed, Filled, DisconnectMiddle, Occurs, Extract, Feed, Concat, Wire, OpenTag;
    DisconnectFixed(time, stale);
    FilledFramesIff(uid, DisconnectMiddle(time, stale), uid, DISCONNECT_TAIL);
  }

  // ---- The emergency events ----

  /** What an emergency event is made from; the moments are three readings of the clock. */
  datatype Alert =
    | Raised(uid: Bytes, name: Bytes, lat: Bytes, lon: Bytes, time: Bytes, start: Bytes, stale: Bytes)
    | Cancelled(uid: Bytes, time: Bytes, start: Bytes, stale: Bytes)

  /** Coordinates and moments are printed without markup. */
  ghost predicate PlainAlert(a: Alert) {
    && Plain(a.time) && Plain(a.start) && Plain(a.stale)
    && (a.Raised? ==> Plain(a.lat) && Plain(a.lon))
  }

  const PROLOG_ATTRS: Bytes := " version=\"1.0\" standalone=\"yes\""
  const PROLOG: Bytes := XML_START + (PROLOG_ATTRS + (XML_END + NEWLINE))

  function AlertAttrs(a: Alert): seq<Attribute> {
    [("type", "9-1-1"), ("time", a.time), ("start", a.start), ("stale", a.stale), ("how", "m-g")]
  }

  function AlertPoint(a: Alert): seq<Attribute> {
    [("lat", if a.Raised? then a.lat else "0.0"), ("lon", if a.Raised? then a.lon else "0.0"),
     ("hae", "0.0"), ("ce", "9999999"), ("le", "9999999")]
  }

  const DETAIL: Bytes := "/>\n    <detail>\n        "
  const EMERGENCY: Bytes := "<emergency type=\"9-1-1\" cancel=\""
  const CONTACT: Bytes := "false\"/>\n        <contact callsign=\""
  const RAISED_LINK: Bytes := DETAIL + (EMERGENCY + CONTACT)
  const CANCEL_LINK: Bytes := DETAIL + EMERGENCY
  const ALERT_TAIL: Bytes := "\"/>\n    </detail>\n"

  function AlertMiddle(a: Alert): Bytes {
    var link := if a.Raised? then RAISED_LINK else CANCEL_LINK;
    QUOTE + Attrs(AlertAttrs(a)) + (">\n    <point" + Attrs(AlertPoint(a)) + link)
  }

  function AlertText(a: Alert): Bytes { if a.Raised? then a.name else "true" }

  /** The event proper: uid and name stand in it unescaped. */
  function AlertCot(a: Alert): Bytes { Filled(a.uid, AlertMiddle(a), AlertText(a), ALERT_TAIL) }

  /** What `post_emergency` and `delete_emergency` send: the event behind an XML declaration. */
  function EmergencyCot(a: Alert): Bytes { PROLOG + AlertCot(a) }

  lemma AlertFixed(a: Alert)
    requires PlainAlert(a)
    ensures Fixed(AlertMiddle(a), ALERT_TAIL)
  {
    hide Attrs, Find, FindFrom, Clean;
    assert Quotable(AlertAttrs(a)) && Quotable(AlertPoint(a));
    AlertLinksClean();
    MiddleShape(AlertAttrs(a), AlertPoint(a), if a.Raised? then RAISED_LINK else CANCEL_LINK);
  }

  lemma AlertLinksClean()
    ensures Clean(RAISED_LINK) && RAISED_LINK[|RAISED_LINK| - 1] == '"'
    ensures Clean(CANCEL_LINK) && CANCEL_LINK[|CANCEL_LINK| - 1] == '"' && !Occurs(ALERT_TAIL, EVENT_END)
  {
    hide Clean;
    AlertPiecesClean();
    CleanConcat(EMERGENCY, CONTACT);
    CleanConcat(DETAIL, EMERGENCY + CONTACT);
    CleanConcat(DETAIL, EMERGENCY);
    CleanHasNoEnd(ALERT_TAIL);
    assert CONTACT[|CONTACT| - 1] == '"' && EMERGENCY[|EMERGENCY| - 1] == '"';
  }

  lemma AlertPiecesClean()
    ensures Clean(DETAIL) && Clean(EMERGENCY) && Clean(CONTACT) && Clean(ALERT_TAIL)
  {
    hide Clean;
    DetailClean(); EmergencyClean(); ContactClean(); TailClean();
  }

  lemma DetailClean()
    ensures Clean(DETAIL)
  {
  }

  lemma EmergencyClean()
    ensures Clean(EMERGENCY)
  {
  }

  lemma ContactClean()
    ensures Clean(CONTACT)
  {
  }

  lemma TailClean()
    ensures Clean(ALERT_TAIL)
  {
  }

  /** The texts of an emergency that leave its event whole. */
  ghost predicate AlertFits(a: Alert) {
    !Occurs(a.uid, EVENT_END) && (a.Raised? ==> !Occurs(a.name, EVENT_END))
  }

  lemma TrueIsNoEnd()
    ensures !Occurs("true", EVENT_END)
  {
    assert |EVENT_END| == 8;
  }

  lemma AlertIsFrame(a: Alert)
    requires PlainAlert(a) && AlertFits(a)
    ensures ClosedFrame(AlertCot(a)) && (Unambiguous(AlertCot(a)) <==> OpenTag(a.uid))
  {
    hide Fixed, Filled, AlertMiddle, Occurs, Unambiguous, OpenTag, ClosedFrame, PlainAlert;
    AlertFixed(a);
    TrueIsNoEnd();
    FilledIsFrame(a.uid, AlertMiddle(a), AlertText(a), ALERT_TAIL);
    FilledGt(a.uid, AlertMiddle(a), AlertText(a), ALERT_TAIL);
  }

  /** The first start tag of bytes behind the declaration. */
  lemma PrologHasNoStart(x: Bytes)
    requires EVENT_START <= x
    ensures Find(PROLOG + x, EVENT_START) == Some(|PROLOG|)
  {
    hide Find, FindFrom;
    var s := PROLOG + x;
    assert s[|PROLOG|..|PROLOG| + 6] == x[..6];
    forall j: nat | j < |PROLOG| ensures !OccursAt(s, EVENT_START, j) {
      StartBytes(s, j);
      assert s[j] == PROLOG[j] && (j + 1 < |PROLOG| ==> s[j + 1] == PROLOG[j + 1]);
      PrologByte(j);
    }
    FindIs(s, EVENT_START, |PROLOG|);
  }

  lemma StartBytes(s: Bytes, j: nat)
    ensures OccursAt(s, EVENT_START, j) ==> s[j] == '<' && s[j + 1] == 'e'
  {
    if OccursAt(s, EVENT_START, j) { assert s[j..j + 6][0] == s[j] && s[j..j + 6][1] == s[j + 1]; }
  }

  lemma PrologByte(j: nat)
    requires j < |PROLOG|
    ensures PROLOG[j] == '<' ==> j + 1 < |PROLOG| && PROLOG[j + 1] != 'e'
  {
  }

  lemma PrologSkipped(x: Bytes)
    requires EVENT_START <= x
    ensures Extract(PROLOG + x) == Extract(x)
  {
    hide Find, FindFrom, SelfClosingEnd;
    PrologHasNoStart(x);
    assert x[0..6] == EVENT_START;
    FindIs(x, EVENT_START, 0);
    assert (PROLOG + x)[|PROLOG|..] == x && x[0..] == x;
  }

  /** Stripping takes the declaration off. */
  lemma PrologStripped(x: Bytes)
    requires EVENT_START <= x
    ensures Strip(PROLOG + x) == x
  {
    hide Find, FindFrom, Strip, IsDeclaration;
    var decl := PROLOG[..|PROLOG| - 1];
    PrologIsDeclaration();
    assert x[0] == EVENT_START[0];
    assert PROLOG == decl + "\n";
    assert PROLOG + x == [] + (decl + ("\n" + x));
    SplitIsStrip(PROLOG + x, [], decl, "\n", x);
  }

  lemma PrologIsDeclaration()
    ensures IsDeclaration(PROLOG[..|PROLOG| - 1])
  {
    hide Find, FindFrom;
    var decl := PROLOG[..|PROLOG| - 1];
    assert decl == XML_START + (PROLOG_ATTRS + XML_END);
    assert XML_START <= decl && decl[|decl| - 2..|decl|] == XML_END;
    forall j: nat | j < |decl| - 2 ensures !OccursAt(decl, XML_END, j) {
      assert decl[j..j + 2][1] == decl[j + 1] == PROLOG[j + 1];
      PrologGt(j + 1);
    }
    FindIs(decl, XML_END, |decl| - 2);
  }

  lemma PrologGt(j: nat)
    requires j < |PROLOG| - 2
    ensures PROLOG[j] != '>'
  {
  }

  /** No emergency comes back as the line that was written: the declaration is lost. But its event comes alone out of
      the line exactly when neither uid nor name holds `</event>`, and under every chunking exactly when, besides, the
      uid's first `>` is not preceded by `/`. */
  lemma EmergencyFramesIff(a: Alert)
    requires PlainAlert(a)
    ensures var l, e := EmergencyCot(a), AlertCot(a);
            && Extract(Wire([l])).events != [l] && Strip(l) == e
            && (Extract(Wire([l])) == Frames([e], NEWLINE) <==> AlertFits(a))
            && ((forall chunks: seq<Bytes> | Concat(chunks) == Wire([l]) :: Feed([], chunks) == Frames([e], NEWLINE))
                <==> AlertFits(a) && OpenTag(a.uid))
  {
    hide Fixed, Filled, AlertMiddle, Occurs, Extract, Feed, Concat, Wire, OpenTag, PlainAlert, Strip, AlertCot,
         Unambiguous;
    var l, e := EmergencyCot(a), AlertCot(a);
    AlertStarts(a);
    PrologStripped(e);
    EmergencyWire(a);
    AlertFramesIff(a);
    NeverProlog(Wire([l]), l);
    LoneChunk(Wire([l]));
    ChunkInvariance(Wire([l]));
    ChunkInvariance(Wire([e]));
    LoneChunk(Wire([e]));
  }

  lemma AlertStarts(a: Alert)
    ensures EVENT_START <= AlertCot(a)
  {
    HeadLiterals();
  }

  lemma EmergencyWire(a: Alert)
    ensures Extract(Wire([EmergencyCot(a)])) == Extract(Wire([AlertCot(a)]))
  {
    hide Extract, AlertCot, Wire;
    AlertStarts(a);
    var e := AlertCot(a);
    assert e != [] && PROLOG + e != [];
    WireOne(e);
    WireOne(PROLOG + e);
    assert (PROLOG + e) + NEWLINE == PROLOG + (e + NEWLINE);
    PrologSkipped(e + NEWLINE);
  }

  /** Every frame starts with `<event`. */
  lemma NeverProlog(s: Bytes, l: Bytes)
    requires PROLOG <= l
    ensures Extract(s).events != [l]
  {
    hide NextFrame;
    if NextFrame(s).Cut? {
      EventHoldsStart(s);
      var e := NextFrame(s).event;
      assert Extract(s).events[0] == e;
      assert e[1] == EVENT_START[1] == 'e' && l[1] == PROLOG[1] == '?';
    }
  }

  lemma AlertFramesIff(a: Alert)
    requires PlainAlert(a)
    ensures var e := AlertCot(a);
            && (Extract(Wire([e])) == Frames([e], NEWLINE) <==> AlertFits(a))
            && ((forall chunks: seq<Bytes> | Concat(chunks) == Wire([e]) :: Feed([], chunks) == Frames([e], NEWLINE))
                <==> AlertFits(a) && OpenTag(a.uid))
  {
    hide Fixed, Filled, AlertMiddle, Occurs, Extract, Feed, Concat, Wire, OpenTag, PlainAlert;
    AlertFixed(a);
    TrueIsNoEnd();
    FilledFramesIff(a.uid, AlertMiddle(a), AlertText(a), ALERT_TAIL);
  }
}
