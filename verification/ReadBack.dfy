/** Reading the attributes of an event back from its bytes, each with its name and its element. */
module ReadBack {
  import opened Substrings
  import opened Framing
  import opened Conservation
  import opened Escaping
  import opened CotBuilders
  import EventTimes
  import EventText

  /** An attribute as it stands in the bytes. */
  datatype Item = Item(element: Bytes, name: Bytes, value: Bytes)

  /** What stands behind the last `c`. */
  function AfterLast(s: Bytes, c: char): Bytes {
    if s == [] || s[|s| - 1] == c then [] else AfterLast(s[..|s| - 1], c) + [s[|s| - 1]]
  }

  /** What stands before the first `c`. */
  function UpTo(s: Bytes, c: char): Bytes { if s == [] || s[0] == c then [] else [s[0]] + UpTo(s[1..], c) }

  /** The word before the `=` at the end of some bytes. */
  function NameAt(s: Bytes): Bytes
    requires s != []
  {
    AfterLast(s[..|s| - 1], ' ')
  }

  /** The element last opened in some bytes, or the one open before them. */
  function ElementAt(s: Bytes, before: Bytes): Bytes { if '<' in s then UpTo(AfterLast(s, '<'), ' ') else before }

  /** Every text between double quotes, with the name before it and the element it belongs to. */
  function ReadItems(s: Bytes, element: Bytes): seq<Item>
    decreases |s|
  {
    match Find(s, QUOTE)
    case None => []
    case Some(i) =>
      var t := s[i + 1..];
      match Find(t, QUOTE)
      case None => []
      case Some(j) =>
        var e := ElementAt(s[..i], element);
        [Item(e, if i == 0 then [] else NameAt(s[..i]), t[..j])] + ReadItems(t[j + 1..], e)
  }

  // ---- Reading what is written ----

  /** A name: no blank, quote or bracket in it. */
  predicate Word(s: Bytes) { forall i | 0 <= i < |s| :: s[i] != ' ' && s[i] != '"' && s[i] != '<' }

  function ItemsOf(element: Bytes, list: seq<Attribute>): seq<Item> {
    seq(|list|, i requires 0 <= i < |list| => Item(element, list[i].0, list[i].1))
  }

  ghost predicate Readable(list: seq<Attribute>) {
    forall i | 0 <= i < |list| :: Word(list[i].0) && NoQuote(list[i].1)
  }

  lemma {:induction false} AfterLastIs(a: Bytes, c: char, b: Bytes)
    requires c !in b
    ensures AfterLast(a + [c] + b, c) == b
    decreases |b|
  {
    var s := a + [c] + b;
    if b != [] {
      var n := |b| - 1;
      AfterLastIs(a, c, b[..n]);
      assert s[..|s| - 1] == a + [c] + b[..n];
    }
  }

  lemma {:induction false} UpToIs(a: Bytes, c: char, b: Bytes)
    requires c !in a
    ensures UpTo(a + [c] + b, c) == a
    decreases |a|
  {
    var s := a + [c] + b;
    if a != [] {
      UpToIs(a[1..], c, b);
      assert s[1..] == a[1..] + [c] + b;
    }
  }

  /** The name of a written attribute. */
  lemma NameIs(a: Bytes, name: Bytes)
    requires Word(name)
    ensures NameAt(a + " " + name + "=") == name
  {
    AfterLastIs(a, ' ', name);
    var s := a + " " + name + "=";
    assert s[..|s| - 1] == a + [' '] + name;
  }

  /** The element of the first attribute behind its name. */
  lemma ElementIs(a: Bytes, element: Bytes, name: Bytes, before: Bytes)
    requires Word(element) && Word(name)
    ensures ElementAt(a + "<" + element + " " + name + "=", before) == element
  {
    var s := a + "<" + element + " " + name + "=";
    var rest := element + " " + name + "=";
    assert s == a + ['<'] + rest && s[|a|] == '<';
    assert forall i | 0 <= i < |rest| :: rest[i] != '<';
    AfterLastIs(a, '<', rest);
    assert rest == element + [' '] + (name + "=");
    UpToIs(element, ' ', name + "=");
  }

  lemma SameElement(name: Bytes, before: Bytes)
    requires Word(name)
    ensures ElementAt(" " + name + "=", before) == before
  {
    var s := " " + name + "=";
    assert forall i | 0 <= i < |s| :: s[i] != '<';
  }

  lemma ReadUnfolds(s: Bytes, i: nat, j: nat, before: Bytes)
    requires Find(s, QUOTE) == Some(i) && Find(s[i + 1..], QUOTE) == Some(j)
    ensures var e := ElementAt(s[..i], before);
            ReadItems(s, before) == [Item(e, if i == 0 then [] else NameAt(s[..i]), s[i + 1..][..j])]
                                    + ReadItems(s[i + 1..][j + 1..], e)
  {
    hide Find, FindFrom, NameAt, ElementAt;
  }

  lemma Parts(s: Bytes, t: Bytes)
    ensures (s + QUOTE + t)[..|s|] == s && (s + QUOTE + t)[|s| + 1..] == t
  {
  }

  lemma ValueRegroups(s: Bytes, v: Bytes, b: Bytes)
    ensures s + QUOTE + v + QUOTE + b == s + QUOTE + (v + QUOTE + b)
  {
  }

  /** One value in front. */
  lemma ReadValue(s: Bytes, v: Bytes, b: Bytes, before: Bytes)
    requires s != [] && NoQuote(s) && NoQuote(v)
    ensures var e := ElementAt(s, before);
            ReadItems(s + QUOTE + v + QUOTE + b, before) == [Item(e, NameAt(s), v)] + ReadItems(b, e)
  {
    hide ReadItems, NameAt, ElementAt, Find, FindFrom, NoQuote;
    var t := v + QUOTE + b;
    QuoteAfter(s, t);
    QuoteAfter(v, b);
    Parts(s, t);
    Parts(v, b);
    ReadUnfolds(s + QUOTE + t, |s|, |v|, before);
    ValueRegroups(s, v, b);
  }

  /** One attribute in front. */
  lemma ReadOne(a: Bytes, name: Bytes, v: Bytes, b: Bytes, before: Bytes)
    requires NoQuote(a) && Word(name) && NoQuote(v)
    ensures var s := a + " " + name + "=";
            ReadItems(s + QUOTE + v + QUOTE + b, before)
            == [Item(ElementAt(s, before), name, v)] + ReadItems(b, ElementAt(s, before))
  {
    hide ReadItems, NameAt, ElementAt, NoQuote, Word;
    NamedHasNoQuote(a, name);
    NameIs(a, name);
    ReadValue(a + " " + name + "=", v, b, before);
  }

  lemma NamedHasNoQuote(a: Bytes, name: Bytes)
    requires NoQuote(a) && Word(name)
    ensures a + " " + name + "=" != [] && NoQuote(a + " " + name + "=")
  {
  }

  lemma {:induction false} ReadMore(element: Bytes, list: seq<Attribute>, b: Bytes)
    requires Readable(list)
    ensures ReadItems(Attrs(list) + b, element) == ItemsOf(element, list) + ReadItems(b, element)
    decreases |list|
  {
    hide ReadItems, Word, NoQuote;
    if list == [] {
      assert Attrs(list) + b == b;
      assert ItemsOf(element, list) + ReadItems(b, element) == ReadItems(b, element);
    } else {
      var x, more := list[0], list[1..];
      ReadMore(element, more, b);
      EmptyHasNoQuote();
      ReadOne([], x.0, x.1, Attrs(more) + b, element);
      SameElement(x.0, element);
      assert [] + " " + x.0 + "=" == " " + x.0 + "=";
      assert Attrs(list) + b == " " + x.0 + "=" + QUOTE + x.1 + QUOTE + (Attrs(more) + b);
      assert ItemsOf(element, list) == [Item(element, x.0, x.1)] + ItemsOf(element, more);
    }
  }

  lemma EmptyHasNoQuote()
    ensures NoQuote([])
  {
  }

  /** The attributes of an element that is opened behind `a`. */
  lemma ReadElement(a: Bytes, element: Bytes, list: seq<Attribute>, b: Bytes, before: Bytes)
    requires NoQuote(a) && Word(element) && Readable(list) && list != []
    ensures ReadItems(a + "<" + element + Attrs(list) + b, before) == ItemsOf(element, list) + ReadItems(b, element)
  {
    hide ReadItems, Attrs, ElementAt, ItemsOf;
    var x, more := list[0], list[1..];
    var front := a + "<" + element;
    ReadOne(front, x.0, x.1, Attrs(more) + b, before);
    ElementIs(a, element, x.0, before);
    ReadMore(element, more, b);
    ElementRegroups(front, list, b);
    ItemsSplit(element, list);
  }

  lemma ElementRegroups(front: Bytes, list: seq<Attribute>, b: Bytes)
    requires list != []
    ensures front + Attrs(list) + b
         == front + " " + list[0].0 + "=" + QUOTE + list[0].1 + QUOTE + (Attrs(list[1..]) + b)
  {
  }

  lemma ItemsSplit(element: Bytes, list: seq<Attribute>)
    requires list != []
    ensures ItemsOf(element, list) == [Item(element, list[0].0, list[0].1)] + ItemsOf(element, list[1..])
  {
  }

  lemma ReadNothing(s: Bytes, element: Bytes)
    requires NoQuote(s)
    ensures ReadItems(s, element) == []
  {
    forall j: nat ensures !OccursAt(s, QUOTE, j) { OneByte(s, '"', j); }
    FindNone(s, QUOTE);
  }

  // ---- The file share ----

  /** The values, decoded, are the meant ones, under the meant names and in the meant elements. */
  ghost predicate DecodesTo(items: seq<Item>, meant: seq<Item>) {
    && |items| == |meant|
    && forall i | 0 <= i < |items| ::
         items[i].element == meant[i].element && items[i].name == meant[i].name
         && Unescape(items[i].value) == Some(meant[i].value)
  }

  function EventMeans(g: Stamp): seq<Item> {
    [Item("event", "version", "2.0"), Item("event", "uid", g.uid), Item("event", "type", "b-f-t-r"),
     Item("event", "time", g.time), Item("event", "start", g.time), Item("event", "stale", g.stale),
     Item("event", "how", "h-e")]
  }

  const POINT_MEANS: seq<Item> :=
    [Item("point", "lat", "0.0"), Item("point", "lon", "0.0"), Item("point", "hae", "0.0"),
     Item("point", "ce", "9999999"), Item("point", "le", "9999999")]

  function FileMeans(s: Share): seq<Item> {
    [Item("fileshare", "filename", ZipName(s.name)), Item("fileshare", "senderUrl", s.url),
     Item("fileshare", "sizeInBytes", Decimal(s.size)), Item("fileshare", "sha256", s.hash),
     Item("fileshare", "senderUid", s.uid), Item("fileshare", "senderCallsign", s.callsign),
     Item("fileshare", "name", s.name)]
  }

  function AckMeans(s: Share, g: Stamp): seq<Item> {
    [Item("ackrequest", "uid", g.ack), Item("ackrequest", "ackrequested", "true"), Item("ackrequest", "tag", s.name)]
  }

  function DestMeans(s: Share): seq<Item> {
    match s.dest case None => [] case Some(d) => [Item("dest", "callsign", d)]
  }

  function FileshareMeans(s: Share, g: Stamp): seq<Item> {
    EventMeans(g) + (POINT_MEANS + (FileMeans(s) + (AckMeans(s, g) + DestMeans(s))))
  }

  lemma DecodesConcat(a: seq<Item>, x: seq<Item>, b: seq<Item>, y: seq<Item>)
    requires DecodesTo(a, x) && DecodesTo(b, y)
    ensures DecodesTo(a + b, x + y)
  {
    hide Unescape;
  }

  lemma EventReadable(g: Stamp)
    requires PlainStamp(g)
    ensures Readable(EventAttrs(g)) && EventAttrs(g) != [] && DecodesTo(ItemsOf("event", EventAttrs(g)), EventMeans(g))
  {
    hide Unescape;
    PlainDecodes("2.0"); PlainDecodes(g.uid); PlainDecodes("b-f-t-r"); PlainDecodes(g.time);
    PlainDecodes(g.stale); PlainDecodes("h-e");
  }

  lemma PointReadable()
    ensures Readable(POINT_ATTRS) && DecodesTo(ItemsOf("point", POINT_ATTRS), POINT_MEANS)
  {
    hide Unescape;
    PlainDecodes("0.0"); PlainDecodes("9999999");
  }

  lemma EscapedReadable(v: Bytes)
    ensures NoQuote(Escape(v)) && Unescape(Escape(v)) == Some(v)
  {
    hide Escape, Unescape;
    EscapeHasNoMarkup(v);
    UnescapeEscape(v);
  }

  lemma FileReadable(s: Share)
    ensures Readable(FileAttrs(s)) && FileAttrs(s) != [] && DecodesTo(ItemsOf("fileshare", FileAttrs(s)), FileMeans(s))
  {
    hide Unescape, Escape, ZipName, Decimal, NoQuote;
    EscapedReadable(ZipName(s.name)); EscapedReadable(s.url); EscapedReadable(s.hash);
    EscapedReadable(s.uid); EscapedReadable(s.callsign); EscapedReadable(s.name);
    PlainDecodes(Decimal(s.size));
    PlainHasNoQuote(Decimal(s.size));
  }

  lemma PlainHasNoQuote(v: Bytes)
    requires Plain(v)
    ensures NoQuote(v)
  {
  }

  lemma AckReadable(s: Share, g: Stamp)
    requires PlainStamp(g)
    ensures Readable(AckAttrs(s, g)) && AckAttrs(s, g) != []
    ensures DecodesTo(ItemsOf("ackrequest", AckAttrs(s, g)), AckMeans(s, g))
  {
    hide Unescape, Escape;
    EscapedReadable(s.name);
    PlainDecodes(g.ack); PlainDecodes("true");
  }

  lemma DestReadable(s: Share)
    ensures Readable(DestAttrs(s)) && DecodesTo(ItemsOf("dest", DestAttrs(s)), DestMeans(s))
  {
    hide Unescape, Escape;
    if s.dest.Some? { EscapedReadable(s.dest.value); }
  }

  lemma MartiReads(s: Share)
    ensures ReadItems("/>" + Marti(s) + "</detail>" + EVENT_END, "ackrequest") == ItemsOf("dest", DestAttrs(s))
  {
    hide ReadItems, Attrs, Escape, NoQuote, Word;
    DestReadable(s);
    MartiLiterals();
    if s.dest.None? {
      assert "/>" + [] + "</detail>" + EVENT_END == MARTI_NONE;
      ReadNothing(MARTI_NONE, "ackrequest");
      assert ItemsOf("dest", DestAttrs(s)) == [];
    } else {
      MartiRegroups(Attrs(DestAttrs(s)));
      assert "/><marti>" + "<" + "dest" == MARTI_OPEN;
      DestWord();
      ReadElement("/><marti>", "dest", DestAttrs(s), MARTI_CLOSE, "ackrequest");
      ReadNothing(MARTI_CLOSE, "dest");
      assert ItemsOf("dest", DestAttrs(s)) + [] == ItemsOf("dest", DestAttrs(s));
    }
  }

  lemma DestWord()
    ensures Word("dest") && NoQuote("/><marti>")
  {
  }

  /** The elements of a file share, and the texts before them. */
  lemma FileshareWords()
    ensures Word("event") && Word("point") && Word("fileshare") && Word("ackrequest")
    ensures NoQuote([]) && NoQuote(">") && NoQuote(" /><detail>") && NoQuote("/>")
  {
  }

  lemma FileshareRegroups(s: Share, g: Stamp)
    ensures var tail := "/>" + Marti(s) + "</detail>" + EVENT_END;
            var ack := "/>" + "<" + "ackrequest" + Attrs(AckAttrs(s, g)) + tail;
            var file := " /><detail>" + "<" + "fileshare" + Attrs(FileAttrs(s)) + ack;
            var point := ">" + "<" + "point" + Attrs(POINT_ATTRS) + file;
            FileshareCot(s, g) == [] + "<" + "event" + Attrs(EventAttrs(g)) + point
  {
    hide Attrs, EventAttrs, FileAttrs, AckAttrs, Marti;
    assert [] + "<" + "event" == EVENT_START;
    assert ">" + "<" + "point" == "><point";
    assert " /><detail>" + "<" + "fileshare" == " /><detail><fileshare";
    assert "/>" + "<" + "ackrequest" == "/><ackrequest";
  }

  /** Reading the file share gives, element by element, every value under its name: no text supplied adds, removes
      or changes an attribute, and none stands under another's name. */
  lemma FileshareParsesBack(s: Share, g: Stamp)
    requires PlainStamp(g)
    ensures DecodesTo(ReadItems(FileshareCot(s, g), []), FileshareMeans(s, g))
  {
    hide ReadItems, Attrs, EventAttrs, FileAttrs, AckAttrs, DestAttrs, Readable, ItemsOf, FileshareCot, Marti,
         DecodesTo, EventMeans, FileMeans, AckMeans, DestMeans, Word, NoQuote, PlainStamp;
    EventReadable(g); PointReadable(); FileReadable(s); AckReadable(s, g); DestReadable(s);
    FileshareWords();
    FileshareRegroups(s, g);
    var tail := "/>" + Marti(s) + "</detail>" + EVENT_END;
    var ack := "/>" + "<" + "ackrequest" + Attrs(AckAttrs(s, g)) + tail;
    var file := " /><detail>" + "<" + "fileshare" + Attrs(FileAttrs(s)) + ack;
    var point := ">" + "<" + "point" + Attrs(POINT_ATTRS) + file;
    ReadElement([], "event", EventAttrs(g), point, []);
    ReadElement(">", "point", POINT_ATTRS, file, "event");
    ReadElement(" /><detail>", "fileshare", FileAttrs(s), ack, "point");
    ReadElement("/>", "ackrequest", AckAttrs(s, g), tail, "fileshare");
    MartiReads(s);
    DecodesConcat(ItemsOf("ackrequest", AckAttrs(s, g)), AckMeans(s, g), ItemsOf("dest", DestAttrs(s)), DestMeans(s));
    var i4, m4 := ItemsOf("ackrequest", AckAttrs(s, g)) + ItemsOf("dest", DestAttrs(s)), AckMeans(s, g) + DestMeans(s);
    DecodesConcat(ItemsOf("fileshare", FileAttrs(s)), FileMeans(s), i4, m4);
    var i3, m3 := ItemsOf("fileshare", FileAttrs(s)) + i4, FileMeans(s) + m4;
    DecodesConcat(ItemsOf("point", POINT_ATTRS), POINT_MEANS, i3, m3);
    DecodesConcat(ItemsOf("event", EventAttrs(g)), EventMeans(g), ItemsOf("point", POINT_ATTRS) + i3, POINT_MEANS + m3);
  }

  // ---- The size and the file name ----

  /** The number that some digits stand for. */
  function NumberOf(s: Bytes): int {
    if s == [] then 0 else 10 * NumberOf(s[..|s| - 1]) + (s[|s| - 1] as int - '0' as int)
  }

  lemma {:induction false} DigitsRead(n: nat)
    ensures NumberOf(Digits(n)) == n && |Digits(n)| > 0 && forall i | 0 <= i < |Digits(n)| :: '0' <= Digits(n)[i] <= '9'
    decreases n
  {
    var d := [('0' as int + n % 10) as char];
    if n < 10 {
      assert d[..0] == [] && NumberOf(d) == 10 * NumberOf([]) + n;
    } else {
      DigitsRead(n / 10);
      assert Digits(n)[..|Digits(n)| - 1] == Digits(n / 10);
    }
  }

  /** The size is printed as digits that stand for it, behind a minus sign when it is negative. */
  lemma DecimalReads(n: int)
    ensures n >= 0 ==> NumberOf(Decimal(n)) == n && forall i | 0 <= i < |Decimal(n)| :: '0' <= Decimal(n)[i] <= '9'
    ensures n < 0 ==> Decimal(n)[..1] == "-" && NumberOf(Decimal(n)[1..]) == -n
  {
    DigitsRead(if n < 0 then -n else n);
    if n < 0 { assert ("-" + Digits(-n))[1..] == Digits(-n); }
  }

  /** A name keeps a `.zip` in any case, and gets one when it has none. */
  lemma ZipNameIs(front: Bytes, name: Bytes, z: char, i: char, p: char)
    requires z in {'z', 'Z'} && i in {'i', 'I'} && p in {'p', 'P'}
    ensures ZipName(front + ['.', z, i, p]) == front + ['.', z, i, p]
    ensures ZipName(name) == name || ZipName(name) == name + ".zip"
    ensures ZipName(name) == name <==> exists f: Bytes, a: char, b: char, c: char ::
              a in {'z', 'Z'} && b in {'i', 'I'} && c in {'p', 'P'} && name == f + ['.', a, b, c]
  {
    EndsIff(name);
    EndsIff(front + ['.', z, i, p]);
    if EndsWithZip(name) {
      var f := name[..|name| - 4];
      assert name == f + ['.', name[|name| - 3], name[|name| - 2], name[|name| - 1]];
    }
  }

  lemma EndsIff(name: Bytes)
    ensures EndsWithZip(name) <==>
              |name| >= 4 && name[|name| - 4] == '.' && name[|name| - 3] in {'z', 'Z'}
              && name[|name| - 2] in {'i', 'I'} && name[|name| - 1] in {'p', 'P'}
  {
    if |name| >= 4 {
      var low := seq(4, i requires 0 <= i < 4 => LowerAscii(name[|name| - 4 + i]));
      assert low == [LowerAscii(name[|name| - 4]), LowerAscii(name[|name| - 3]), LowerAscii(name[|name| - 2]),
                     LowerAscii(name[|name| - 1])];
      assert ".zip" == ['.', 'z', 'i', 'p'];
      assert low == ".zip" <==> low[0] == '.' && low[1] == 'z' && low[2] == 'i' && low[3] == 'p';
    }
  }

  // ---- The other events ----

  /** The pong. */
  lemma PongReads()
    ensures ReadItems(PongCot(), []) ==
              [Item("event", "version", "2.0"), Item("event", "uid", "takPong"), Item("event", "type", "t-x-c-t-r"),
               Item("event", "how", "h-g-i-g-o"),
               Item("point", "lat", "0"), Item("point", "lon", "0"), Item("point", "hae", "9999999.0"),
               Item("point", "ce", "9999999.0"), Item("point", "le", "9999999.0")]
  {
    hide ReadItems, Attrs;
    var b := "/>\n" + EVENT_END;
    var point := ">\n    " + "<" + "point" + Attrs(PONG_POINT) + b;
    PongReadable();
    assert [] + "<" + "event" == EVENT_START;
    assert ">\n    " + "<" + "point" == ">\n    <point";
    assert PongCot() == [] + "<" + "event" + Attrs(PONG_ATTRS) + point;
    ReadElement([], "event", PONG_ATTRS, point, []);
    ReadElement(">\n    ", "point", PONG_POINT, b, "event");
    ReadNothing(b, "point");
  }

  lemma PongReadable()
    ensures Readable(PONG_ATTRS) && Readable(PONG_POINT) && Word("event") && Word("point")
    ensures NoQuote([]) && NoQuote(">\n    ") && NoQuote("/>\n" + EVENT_END)
  {
  }

  // ---- Events in which texts stand unescaped ----

  lemma {:induction false} AttrsConcat(a: seq<Attribute>, b: seq<Attribute>)
    ensures Attrs(a + b) == Attrs(a) + Attrs(b)
  {
    hide Attr;
    if a == [] { assert a + b == b; }
    else {
      assert (a + b)[0] == a[0] && (a + b)[1..] == a[1..] + b;
      AttrsConcat(a[1..], b);
    }
  }

  ghost predicate Words(list: seq<Attribute>) { forall i | 0 <= i < |list| :: Word(list[i].0) }

  /** A quote in a value ends it too early. */
  lemma QuoteBreaks(a: Bytes, name: Bytes, v: Bytes, b: Bytes, before: Bytes)
    requires NoQuote(a) && Word(name) && !NoQuote(v)
    ensures var items := ReadItems(a + " " + name + "=" + QUOTE + v + QUOTE + b, before);
            items != [] && items[0].value != v
  {
    hide ReadItems, Find, FindFrom;
    var k := FirstQuote(v);
    var w, r := v[..k], v[k + 1..];
    assert v == w + QUOTE + r;
    ReadOne(a, name, w, r + QUOTE + b, before);
    assert a + " " + name + "=" + QUOTE + w + QUOTE + (r + QUOTE + b) == a + " " + name + "=" + QUOTE + v + QUOTE + b;
  }

  /** The attributes of an element are not read as they were meant if a value holds a quote. */
  lemma {:induction false} BadValue(a: Bytes, list: seq<Attribute>, b: Bytes, before: Bytes) returns (k: nat)
    requires NoQuote(a) && Words(list) && exists i :: 0 <= i < |list| && !NoQuote(list[i].1)
    ensures k < |list|
    ensures var items := ReadItems(a + Attrs(list) + b, before); k < |items| && items[k].value != list[k].1
    decreases |list|
  {
    hide ReadItems, Word, NoQuote;
    var x, more := list[0], list[1..];
    var s := a + " " + x.0 + "=";
    assert a + Attrs(list) + b == s + QUOTE + x.1 + QUOTE + (Attrs(more) + b);
    if NoQuote(x.1) {
      ReadOne(a, x.0, x.1, Attrs(more) + b, before);
      EmptyHasNoQuote();
      assert forall i | 1 <= i < |list| :: list[i] == more[i - 1];
      var j := BadValue([], more, b, ElementAt(s, before));
      assert [] + Attrs(more) + b == Attrs(more) + b;
      k := j + 1;
    } else {
      QuoteBreaks(a, x.0, x.1, Attrs(more) + b, before);
      k := 0;
    }
  }

  /** The attributes at the head of some bytes are read as meant exactly when no value holds a quote. */
  lemma HeadReadsIff(a: Bytes, element: Bytes, list: seq<Attribute>, b: Bytes, before: Bytes)
    requires NoQuote(a) && Word(element) && Words(list) && list != []
    ensures var items := ReadItems(a + "<" + element + Attrs(list) + b, before);
            ItemsOf(element, list) <= items <==> Readable(list)
    ensures Readable(list) ==>
              ReadItems(a + "<" + element + Attrs(list) + b, before) == ItemsOf(element, list) + ReadItems(b, element)
  {
    hide ReadItems, NoQuote, Word;
    if Readable(list) { ReadElement(a, element, list, b, before); }
    else {
      FrontHasNoQuote(a, element);
      var k := BadValue(a + "<" + element, list, b, before);
      assert ItemsOf(element, list)[k].value == list[k].1;
    }
  }

  lemma FrontHasNoQuote(a: Bytes, element: Bytes)
    requires NoQuote(a) && Word(element)
    ensures NoQuote(a + "<" + element)
  {
  }

  function UidAttrs(uid: Bytes): seq<Attribute> { [("version", "2.0"), ("uid", uid)] }

  lemma OneAttr(a: Attribute)
    ensures Attrs([a]) == Attr(a)
  {
    hide Attr;
    assert [a][1..] == [] && Attr(a) + [] == Attr(a);
  }

  lemma TwoAttrs(a: Attribute, b: Attribute)
    ensures Attrs([a, b]) == Attr(a) + Attr(b)
  {
    hide Attr, Attrs;
    AttrsConcat([a], [b]);
    OneAttr(a);
    OneAttr(b);
    assert [a] + [b] == [a, b];
  }

  /** An attribute up to its opening quote, its value, and the closing quote. */
  function Opened(name: Bytes): Bytes { " " + name + "=" + QUOTE }

  lemma AttrIs(name: Bytes, v: Bytes)
    ensures Attr((name, v)) == Opened(name) + v + QUOTE
  {
  }

  /** A tag with two attributes, the second value last. */
  lemma TwoOpened(tag: Bytes, a: Attribute, name: Bytes, v: Bytes)
    ensures tag + Attrs([a, (name, v)]) == (tag + Attr(a) + Opened(name)) + v + QUOTE
  {
    hide Attr, Attrs, Opened;
    TwoAttrs(a, (name, v));
    AttrIs(name, v);
  }

  lemma OneOpened(tag: Bytes, name: Bytes, v: Bytes)
    ensures tag + Attrs([(name, v)]) == (tag + Opened(name)) + v + QUOTE
  {
    hide Attr, Attrs, Opened;
    OneAttr((name, v));
    AttrIs(name, v);
  }

  lemma UidHeadIs(uid: Bytes)
    ensures "<" + "event" + Attrs(UidAttrs(uid)) == UID_HEAD + uid + QUOTE
  {
    hide Attr, Attrs, Opened;
    TwoOpened("<" + "event", ("version", "2.0"), "uid", uid);
    HeadLiteral();
  }

  lemma HeadLiteral()
    ensures "<" + "event" + Attr(("version", "2.0")) + Opened("uid") == UID_HEAD
  {
  }

  function DisconnectMeans(uid: Bytes, time: Bytes, stale: Bytes): seq<Item> {
    [Item("event", "version", "2.0"), Item("event", "uid", uid), Item("event", "type", "t-x-d-d"),
     Item("event", "time", time), Item("event", "start", time), Item("event", "stale", stale),
     Item("event", "how", "h-g-i-g-o")] + POINT_MEANS + [Item("link", "uid", uid)]
  }

  /** The disconnect event is read back, with the uid in the event and in its link, exactly when the uid holds no
      quote. */
  lemma DisconnectReads(uid: Bytes, time: Bytes, stale: Bytes)
    requires Plain(time) && Plain(stale)
    ensures ReadItems(DisconnectCot(uid, time, stale), []) == DisconnectMeans(uid, time, stale) <==> NoQuote(uid)
  {
    hide ReadItems, Attrs, Word, DisconnectCot, Plain, NoQuote;
    var list := UidAttrs(uid) + TimeAttrs(time, stale);
    var end := "/></detail>\n" + EVENT_END;
    var link := "/>\n    <detail>" + "<" + "link" + Attrs([("uid", uid)]) + end;
    var point := ">\n    " + "<" + "point" + Attrs(POINT_ATTRS) + link;
    DisconnectRegroups(uid, time, stale);
    DisconnectWords(uid, time, stale);
    HeadReadsIff([], "event", list, point, []);
    var means := DisconnectMeans(uid, time, stale);
    assert ItemsOf("event", list) <= means by { assert means[..7] == ItemsOf("event", list); }
    if NoQuote(uid) {
      PointReadable();
      ReadElement(">\n    ", "point", POINT_ATTRS, link, "event");
      ReadElement("/>\n    <detail>", "link", [("uid", uid)], end, "point");
      ReadNothing(end, "link");
      assert means == ItemsOf("event", list) + (ItemsOf("point", POINT_ATTRS) + (ItemsOf("link", [("uid", uid)]) + []));
    }
  }

  lemma DisconnectRegroups(uid: Bytes, time: Bytes, stale: Bytes)
    ensures var end := "/></detail>\n" + EVENT_END;
            var link := "/>\n    <detail>" + "<" + "link" + Attrs([("uid", uid)]) + end;
            var point := ">\n    " + "<" + "point" + Attrs(POINT_ATTRS) + link;
            DisconnectCot(uid, time, stale)
            == [] + "<" + "event" + Attrs(UidAttrs(uid) + TimeAttrs(time, stale)) + point
  {
    hide Attrs, TimeAttrs, UidAttrs;
    UidHeadIs(uid);
    AttrsConcat(UidAttrs(uid), TimeAttrs(time, stale));
    LinkIs(uid);
    PointIs();
    TailIs();
    Chain(UID_HEAD, uid, QUOTE, Attrs(TimeAttrs(time, stale)), ">\n    <point" + Attrs(POINT_ATTRS) + LINK,
          uid, DISCONNECT_TAIL, EVENT_END);
  }

  lemma Chain(a: Bytes, b: Bytes, q: Bytes, c: Bytes, d: Bytes, e: Bytes, f: Bytes, g: Bytes)
    ensures a + (b + ((q + c + d) + (e + f))) + g == ((a + b + q) + c) + (d + (e + (f + g)))
  {
  }

  lemma PointIs()
    ensures ">\n    " + "<" + "point" == ">\n    <point"
  {
  }

  lemma TailIs()
    ensures DISCONNECT_TAIL + EVENT_END == QUOTE + ("/></detail>\n" + EVENT_END)
  {
    assert DISCONNECT_TAIL == QUOTE + "/></detail>\n";
  }

  lemma LinkIs(uid: Bytes)
    ensures "/>\n    <detail>" + "<" + "link" + Attrs([("uid", uid)]) == LINK + uid + QUOTE
  {
    hide Attr, Attrs, Opened;
    OneOpened("/>\n    <detail>" + "<" + "link", "uid", uid);
    LinkLiteral();
  }

  lemma LinkLiteral()
    ensures "/>\n    <detail>" + "<" + "link" + Opened("uid") == LINK
  {
  }

  lemma DisconnectWords(uid: Bytes, time: Bytes, stale: Bytes)
    requires Plain(time) && Plain(stale)
    ensures var list := UidAttrs(uid) + TimeAttrs(time, stale); Words(list) && (Readable(list) <==> NoQuote(uid))
    ensures Readable([("uid", uid)]) <==> NoQuote(uid)
    ensures Word("event") && Word("point") && Word("link")
    ensures NoQuote([]) && NoQuote(">\n    ") && NoQuote("/>\n    <detail>") && NoQuote("/></detail>\n" + EVENT_END)
  {
    hide Plain;
    PlainQuotes(time, stale);
    var list := UidAttrs(uid) + TimeAttrs(time, stale);
    assert list[1].1 == uid && [("uid", uid)][0].1 == uid && Word("uid");
  }

  lemma PlainQuotes(a: Bytes, b: Bytes)
    requires Plain(a) && Plain(b)
    ensures NoQuote(a) && NoQuote(b)
  {
  }

  // ---- The emergencies ----

  const PROLOG_MEANS: seq<Item> := [Item("?xml", "version", "1.0"), Item("?xml", "standalone", "yes")]

  function AlertHeadMeans(a: Alert): seq<Item> {
    [Item("event", "version", "2.0"), Item("event", "uid", a.uid), Item("event", "type", "9-1-1"),
     Item("event", "time", a.time), Item("event", "start", a.start), Item("event", "stale", a.stale),
     Item("event", "how", "m-g")]
  }

  function AlertPointMeans(a: Alert): seq<Item> {
    [Item("point", "lat", if a.Raised? then a.lat else "0.0"), Item("point", "lon", if a.Raised? then a.lon else "0.0"),
     Item("point", "hae", "0.0"), Item("point", "ce", "9999999"), Item("point", "le", "9999999")]
  }

  function AlertDetailMeans(a: Alert): seq<Item> {
    [Item("emergency", "type", "9-1-1"), Item("emergency", "cancel", if a.Raised? then "false" else "true")]
    + (if a.Raised? then [Item("contact", "callsign", a.name)] else [])
  }

  function AlertMeans(a: Alert): seq<Item> {
    PROLOG_MEANS + (AlertHeadMeans(a) + (AlertPointMeans(a) + AlertDetailMeans(a)))
  }

  const XML_ATTRS: seq<Attribute> := [("version", "1.0"), ("standalone", "yes")]

  function EmergencyAttrs(a: Alert): seq<Attribute> {
    [("type", "9-1-1"), ("cancel", if a.Raised? then "false" else "true")]
  }

  const ALERT_END: Bytes := "/>\n    </detail>\n</event>"

  /** What stands behind the attributes of the emergency element. */
  function AlertRest(a: Alert): Bytes {
    if a.Raised? then "/>\n        " + "<" + "contact" + Attrs([("callsign", a.name)]) + ALERT_END else ALERT_END
  }

  /** An emergency is read back exactly when neither uid nor name holds a quote. */
  lemma EmergencyReads(a: Alert)
    requires PlainAlert(a)
    ensures ReadItems(EmergencyCot(a), []) == AlertMeans(a) <==> NoQuote(a.uid) && (a.Raised? ==> NoQuote(a.name))
  {
    hide ReadItems, Attrs, Word, EmergencyCot, PlainAlert, NoQuote, AlertRest, AlertHeadMeans, AlertPointMeans,
         AlertDetailMeans, AlertAttrs, AlertPoint, Words, Readable, ItemsOf;
    var list := UidAttrs(a.uid) + AlertAttrs(a);
    var detail := "/>\n    <detail>\n        " + "<" + "emergency" + Attrs(EmergencyAttrs(a)) + AlertRest(a);
    var point := ">\n    " + "<" + "point" + Attrs(AlertPoint(a)) + detail;
    var event := "?>\n" + "<" + "event" + Attrs(list) + point;
    EmergencyRegroups(a);
    AlertWords(a);
    AlertItems(a);
    ReadElement([], "?xml", XML_ATTRS, event, []);
    HeadReadsIff("?>\n", "event", list, point, "?xml");
    var d, e := AlertHeadMeans(a), AlertPointMeans(a) + AlertDetailMeans(a);
    PrefixTwice(PROLOG_MEANS, ReadItems(event, "?xml"), d + e);
    if NoQuote(a.uid) {
      ReadElement(">\n    ", "point", AlertPoint(a), detail, "event");
      RestReadsIff(a);
      PrefixTwice(d, ReadItems(point, "event"), e);
      PrefixTwice(AlertPointMeans(a), ReadItems(detail, "point"), AlertDetailMeans(a));
    } else {
      assert d <= d + e;
    }
  }

  lemma PrefixTwice<T>(a: seq<T>, b: seq<T>, c: seq<T>)
    ensures a + b == a + c <==> b == c
  {
    if a + b == a + c { assert b == (a + b)[|a|..] == (a + c)[|a|..] == c; }
  }

  lemma RestReadsIff(a: Alert)
    ensures var detail := "/>\n    <detail>\n        " + "<" + "emergency" + Attrs(EmergencyAttrs(a)) + AlertRest(a);
            ReadItems(detail, "point") == AlertDetailMeans(a) <==> (a.Raised? ==> NoQuote(a.name))
  {
    hide ReadItems, Attrs, Word, NoQuote;
    RestWords(a);
    var cancel := if a.Raised? then "false" else "true";
    var first := [Item("emergency", "type", "9-1-1"), Item("emergency", "cancel", cancel)];
    ReadElement("/>\n    <detail>\n        ", "emergency", EmergencyAttrs(a), AlertRest(a), "point");
    assert ItemsOf("emergency", EmergencyAttrs(a)) == first;
    if a.Raised? {
      var list := [("callsign", a.name)];
      HeadReadsIff("/>\n        ", "contact", list, ALERT_END, "emergency");
      ReadNothing(ALERT_END, "contact");
      assert ItemsOf("contact", list) == [Item("contact", "callsign", a.name)];
      PrefixTwice(first, ReadItems(AlertRest(a), "emergency"), ItemsOf("contact", list));
      assert NoQuote(a.name) ==> ItemsOf("contact", list) + [] == ItemsOf("contact", list);
    } else {
      ReadNothing(ALERT_END, "emergency");
    }
  }

  lemma RestWords(a: Alert)
    ensures Readable(EmergencyAttrs(a)) && Word("emergency") && Word("contact")
    ensures NoQuote("/>\n    <detail>\n        ") && NoQuote("/>\n        ") && NoQuote(ALERT_END)
    ensures a.Raised? ==> Words([("callsign", a.name)]) && (Readable([("callsign", a.name)]) <==> NoQuote(a.name))
  {
    if a.Raised? { assert [("callsign", a.name)][0].1 == a.name; }
  }

  lemma AlertWords(a: Alert)
    requires PlainAlert(a)
    ensures var list := UidAttrs(a.uid) + AlertAttrs(a);
            list != [] && Words(list) && (Readable(list) <==> NoQuote(a.uid))
    ensures Readable(AlertPoint(a)) && AlertPoint(a) != [] && Readable(XML_ATTRS)
    ensures Word("event") && Word("point") && Word("?xml") && NoQuote([]) && NoQuote(">\n    ") && NoQuote("?>\n")
  {
    hide Readable, Words, AlertPoint, AlertAttrs, UidAttrs, Word, NoQuote, PlainAlert;
    AlertHeadWords(a);
    AlertPointWords(a);
    AlertLiteralWords();
  }

  lemma AlertHeadWords(a: Alert)
    requires PlainAlert(a)
    ensures var list := UidAttrs(a.uid) + AlertAttrs(a);
            list != [] && Words(list) && (Readable(list) <==> NoQuote(a.uid))
  {
    hide Plain;
    PlainQuotes(a.time, a.start);
    PlainQuotes(a.stale, a.stale);
    var list := UidAttrs(a.uid) + AlertAttrs(a);
    assert list[1].1 == a.uid && Word("uid");
  }

  lemma AlertPointWords(a: Alert)
    requires PlainAlert(a)
    ensures Readable(AlertPoint(a)) && AlertPoint(a) != []
  {
    hide Plain;
    if a.Raised? { PlainQuotes(a.lat, a.lon); }
  }

  lemma AlertLiteralWords()
    ensures Readable(XML_ATTRS)
    ensures Word("event") && Word("point") && Word("?xml") && NoQuote([]) && NoQuote(">\n    ") && NoQuote("?>\n")
  {
  }

  lemma AlertItems(a: Alert)
    ensures ItemsOf("event", UidAttrs(a.uid) + AlertAttrs(a)) == AlertHeadMeans(a)
    ensures ItemsOf("point", AlertPoint(a)) == AlertPointMeans(a) && ItemsOf("?xml", XML_ATTRS) == PROLOG_MEANS
  {
  }

  lemma EmergencyRegroups(a: Alert)
    ensures var detail := "/>\n    <detail>\n        " + "<" + "emergency" + Attrs(EmergencyAttrs(a)) + AlertRest(a);
            var point := ">\n    " + "<" + "point" + Attrs(AlertPoint(a)) + detail;
            var event := "?>\n" + "<" + "event" + Attrs(UidAttrs(a.uid) + AlertAttrs(a)) + point;
            EmergencyCot(a) == [] + "<" + "?xml" + Attrs(XML_ATTRS) + event
  {
    hide Attrs, AlertAttrs, AlertPoint, UidAttrs, EmergencyAttrs, AlertRest, AlertText;
    PrologIs();
    AlertRegroups(a);
  }

  lemma AlertRegroups(a: Alert)
    ensures var detail := "/>\n    <detail>\n        " + "<" + "emergency" + Attrs(EmergencyAttrs(a)) + AlertRest(a);
            AlertCot(a) == "<" + "event" + Attrs(UidAttrs(a.uid) + AlertAttrs(a))
                           + (">\n    " + "<" + "point" + Attrs(AlertPoint(a)) + detail)
  {
    hide Attrs, AlertAttrs, AlertPoint, UidAttrs, EmergencyAttrs, AlertRest, AlertText;
    var link := if a.Raised? then RAISED_LINK else CANCEL_LINK;
    UidHeadIs(a.uid);
    AttrsConcat(UidAttrs(a.uid), AlertAttrs(a));
    PointIs();
    DetailIs(a);
    Chain(UID_HEAD, a.uid, QUOTE, Attrs(AlertAttrs(a)), ">\n    <point" + Attrs(AlertPoint(a)) + link,
          AlertText(a), ALERT_TAIL, EVENT_END);
  }

  lemma PrologIs()
    ensures PROLOG == "<" + "?xml" + Attrs(XML_ATTRS) + "?>\n"
  {
    hide Attr, Attrs;
    TwoAttrs(("version", "1.0"), ("standalone", "yes"));
    PrologLiteral();
    PrologEnds();
  }

  lemma PrologLiteral()
    ensures Attr(("version", "1.0")) + Attr(("standalone", "yes")) == PROLOG_ATTRS
  {
  }

  lemma PrologEnds()
    ensures "<" + "?xml" == XML_START && XML_END + NEWLINE == "?>\n"
  {
  }

  lemma DetailIs(a: Alert)
    ensures (if a.Raised? then RAISED_LINK else CANCEL_LINK) + (AlertText(a) + (ALERT_TAIL + EVENT_END))
         == "/>\n    <detail>\n        " + "<" + "emergency" + Attrs(EmergencyAttrs(a)) + AlertRest(a)
  {
    hide Attrs, Opened, EmergencyAttrs;
    EmergencyIs(a);
    DetailLiteral();
    TailEnds();
    Front3(DETAIL, "<", "emergency", Attrs(EmergencyAttrs(a)));
    if a.Raised? {
      var x := "/>\n        " + "<" + "contact" + Attrs([("callsign", a.name)]);
      ContactIs(a.name);
      RaisedChain(DETAIL, EMERGENCY, CONTACT, a.name, QUOTE, "false", x, ALERT_END);
    } else {
      CancelChain(DETAIL, EMERGENCY, "true", QUOTE, ALERT_END);
    }
  }

  lemma Front3(d: Bytes, b: Bytes, e: Bytes, x: Bytes)
    ensures d + b + e + x == d + (b + e + x)
  {
  }

  lemma RaisedChain(d: Bytes, e: Bytes, k: Bytes, n: Bytes, q: Bytes, f: Bytes, x: Bytes, end: Bytes)
    requires k + n + q == f + q + x
    ensures (d + (e + k)) + (n + (q + end)) == (d + (e + f + q)) + (x + end)
  {
    assert (d + (e + k)) + (n + (q + end)) == d + e + (k + n + q) + end;
  }

  lemma CancelChain(d: Bytes, e: Bytes, t: Bytes, q: Bytes, end: Bytes)
    ensures (d + e) + (t + (q + end)) == (d + (e + t + q)) + end
  {
  }

  lemma DetailLiteral()
    ensures DETAIL == "/>\n    <detail>\n        "
  {
  }

  lemma EmergencyIs(a: Alert)
    ensures "<" + "emergency" + Attrs(EmergencyAttrs(a)) == EMERGENCY + (if a.Raised? then "false" else "true") + QUOTE
  {
    hide Attr, Attrs, Opened;
    TwoOpened("<" + "emergency", ("type", "9-1-1"), "cancel", if a.Raised? then "false" else "true");
    EmergencyLiteral();
  }

  lemma EmergencyLiteral()
    ensures "<" + "emergency" + Attr(("type", "9-1-1")) + Opened("cancel") == EMERGENCY
  {
  }

  lemma ContactIs(name: Bytes)
    ensures CONTACT + name + QUOTE == "false" + QUOTE + ("/>\n        " + "<" + "contact" + Attrs([("callsign", name)]))
  {
    hide Attr, Attrs, Opened;
    OneOpened("/>\n        " + "<" + "contact", "callsign", name);
    ContactLiteral();
  }

  lemma ContactLiteral()
    ensures CONTACT == "false" + QUOTE + ("/>\n        " + "<" + "contact" + Opened("callsign"))
  {
  }

  lemma TailEnds()
    ensures ALERT_TAIL + EVENT_END == QUOTE + ALERT_END
  {
  }

  // ---- Refreshed event tags ----

  /** A refreshed tag is read back, its kept attributes first and then the three times with the new values, exactly when
      no kept value holds a quote. */
  lemma RefreshedTagReads(t: EventTimes.Token, time: Bytes, stale: Bytes)
    requires EventText.EventTag(t) && Plain(time) && Plain(stale)
    requires forall a | a in t.attrs && a.Good? :: Word(a.key)
    ensures (EventText.AllGood(t.attrs);
             var kept := ItemsOf("event", EventTimes.Written(EventTimes.Kept(t.attrs)));
             ReadItems(EventText.TagText(t, time, stale), [])
             == kept + [Item("event", "time", time), Item("event", "start", time), Item("event", "stale", stale)]
             <==> forall a | a in t.attrs && EventTimes.Survives(a) :: NoQuote(a.raw))
  {
    hide ReadItems, Attrs, Word, NoQuote, Plain, EventTimes.Kept, EventTimes.Survives, Words, Readable, ItemsOf,
         EventTimes.Written;
    EventText.AllGood(t.attrs);
    var a, b := EventTimes.Written(EventTimes.Kept(t.attrs)), EventTimes.Written(EventTimes.Times(time, stale));
    var end := if t.Empty? then "/>" else ">";
    var times := [Item("event", "time", time), Item("event", "start", time), Item("event", "stale", stale)];
    TagParts(t, time, stale);
    AttrsConcat(a, b);
    EndWords();
    HeadReadsIff([], "event", a + b, end, []);
    ReadNothing(end, "event");
    assert [] + "<" + "event" == EVENT_START;
    assert EventText.TagText(t, time, stale) == [] + "<" + "event" + Attrs(a + b) + end;
    var all := ItemsOf("event", a + b);
    assert all == ItemsOf("event", a) + times;
    assert all + [] == all;
    assert all <= all;
  }

  lemma EndWords()
    ensures NoQuote([]) && Word("event") && NoQuote("/>") && NoQuote(">")
  {
  }

  lemma TagParts(t: EventTimes.Token, time: Bytes, stale: Bytes)
    requires EventText.EventTag(t) && Plain(time) && Plain(stale)
    requires forall a | a in t.attrs && a.Good? :: Word(a.key)
    ensures (EventText.AllGood(t.attrs);
             var a := EventTimes.Written(EventTimes.Kept(t.attrs));
             var b := EventTimes.Written(EventTimes.Times(time, stale));
             var times := [Item("event", "time", time), Item("event", "start", time), Item("event", "stale", stale)];
             && a + b != [] && Words(a + b) && ItemsOf("event", a + b) == ItemsOf("event", a) + times
             && (Readable(a + b) <==> forall x | x in t.attrs && EventTimes.Survives(x) :: NoQuote(x.raw)))
  {
    hide Words, Readable, Word, NoQuote, ItemsOf, EventTimes.Kept, EventTimes.Survives, EventTimes.Written, Plain;
    EventText.AllGood(t.attrs);
    TimesWords(time, stale);
    KeptWords(t);
    ListParts(EventTimes.Written(EventTimes.Kept(t.attrs)), EventTimes.Written(EventTimes.Times(time, stale)));
    TimesItems(time, stale);
  }

  lemma ListParts(a: seq<Attribute>, b: seq<Attribute>)
    requires b != [] && Words(a) && Readable(b)
    ensures a + b != [] && Words(a + b) && (Readable(a + b) <==> Readable(a))
    ensures ItemsOf("event", a + b) == ItemsOf("event", a) + ItemsOf("event", b)
  {
    hide Word, NoQuote;
    assert forall i | 0 <= i < |a| :: (a + b)[i] == a[i];
    assert forall i | 0 <= i < |b| :: (a + b)[|a| + i] == b[i];
  }

  lemma TimesItems(time: Bytes, stale: Bytes)
    ensures ItemsOf("event", [("time", time), ("start", time), ("stale", stale)])
         == [Item("event", "time", time), Item("event", "start", time), Item("event", "stale", stale)]
  {
  }

  lemma KeptWords(t: EventTimes.Token)
    requires EventText.EventTag(t)
    requires forall a | a in t.attrs && a.Good? :: Word(a.key)
    ensures (EventText.AllGood(t.attrs);
             var a := EventTimes.Written(EventTimes.Kept(t.attrs));
             && Words(a)
             && (Readable(a) <==> forall x | x in t.attrs && EventTimes.Survives(x) :: NoQuote(x.raw)))
  {
    hide Word, NoQuote, EventTimes.Kept, EventTimes.Survives;
    EventText.AllGood(t.attrs);
    var kept := EventTimes.Kept(t.attrs);
    var a := EventTimes.Written(kept);
    assert forall i | 0 <= i < |a| :: a[i] == (kept[i].key, kept[i].raw);
    forall i | 0 <= i < |kept| ensures kept[i] in t.attrs && EventTimes.Survives(kept[i]) {
      EventTimes.KeptMembers(t.attrs, kept[i]);
    }
    forall x | x in t.attrs && EventTimes.Survives(x) ensures x in kept { EventTimes.KeptMembers(t.attrs, x); }
  }

  lemma TimesWords(time: Bytes, stale: Bytes)
    requires Plain(time) && Plain(stale)
    ensures EventTimes.Written(EventTimes.Times(time, stale)) == [("time", time), ("start", time), ("stale", stale)]
    ensures Readable([("time", time), ("start", time), ("stale", stale)])
  {
  }
}
