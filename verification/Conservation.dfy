/** What framing never loses, and printing events and framing them again. */
module Conservation {
  import opened Substrings
  import opened Framing

  /** A frame runs from `<event` to its only `</event>`, or, self-closed, to its only `>`. */
  ghost predicate ClosedFrame(e: Bytes) {
    EVENT_START <= e && |e| >= |EVENT_END| && Find(e, EVENT_END) == Some(|e| - |EVENT_END|)
  }

  ghost predicate SelfClosedFrame(e: Bytes) {
    EVENT_START <= e && Find(e, GT) == Some(|e| - 1) && e[|e| - 2] == '/' && !Occurs(e, EVENT_END)
  }

  ghost predicate IsFrame(e: Bytes) { ClosedFrame(e) || SelfClosedFrame(e) }

  /** `events` and `rest` are the frames and the leftover of some reading of `stream`:
      every byte is in a frame, in the leftover, or before the next `<event`. */
  ghost predicate Segments(stream: Bytes, events: seq<Bytes>, rest: Bytes)
    decreases |events|
  {
    match Find(stream, EVENT_START)
    case None => events == [] && rest == Tail(stream, |EVENT_START| - 1)
    case Some(d) =>
      if events == [] then rest == stream[d..]
      else && events[0] <= stream[d..] && IsFrame(events[0])
           && Segments(stream[d + |events[0]|..], events[1..], rest)
  }

  lemma CutIsFrame(b: Bytes)
    requires NextFrame(b).Cut?
    ensures IsFrame(NextFrame(b).event)
  {
    hide FindFrom, Find;
    var t := NextFrame(b);
    EventHoldsStart(b);
    var s := b[Find(b, EVENT_START).value..];
    assert s == t.event + t.rest;
    if t.selfClosed {
      SelfClosedShape(b);
      NoOccursPrefix(t.event, t.rest, EVENT_END);
    } else {
      var end := Find(s, EVENT_END).value;
      forall j: nat | j <= end ensures OccursAt(t.event, EVENT_END, j) == OccursAt(s, EVENT_END, j) {
        OccursAppend(t.event, t.rest, EVENT_END, j);
      }
      FindIs(t.event, EVENT_END, end);
    }
  }

  lemma {:induction false} ExtractSegments(b: Bytes)
    ensures Segments(b, Extract(b).events, Extract(b).rest)
    decreases |b|
  {
    hide FindFrom, Find, IsFrame, NextFrame, Segments;
    match NextFrame(b)
    case Stop(_) => StopSegments(b);
    case Cut(event, rest, _) =>
      EventHoldsStart(b);
      CutIsFrame(b);
      ExtractSegments(rest);
      var d := Find(b, EVENT_START).value;
      assert b[d..] == event + rest;
      assert b[d + |event|..] == rest;
      SegmentsPrepend(b, event, Extract(rest).events, Extract(rest).rest);
  }

  lemma StopSegments(b: Bytes)
    requires NextFrame(b).Stop?
    ensures Segments(b, [], NextFrame(b).rest)
  {
    hide FindFrom, Find;
  }

  /** Reading of `x` followed by a reading of its leftover and `y` is a reading of `x + y`. */
  lemma {:induction false} SegmentsCompose(x: Bytes, e1: seq<Bytes>, r1: Bytes, y: Bytes, e2: seq<Bytes>, r2: Bytes)
    requires Segments(x, e1, r1) && Segments(r1 + y, e2, r2)
    ensures Segments(x + y, e1 + e2, r2)
    decreases |e1|
  {
    hide FindFrom, Find, IsFrame, Segments;
    if e1 == [] {
      assert e1 + e2 == e2;
      SegmentsFromLeftover(x, r1, y, e2, r2);
    } else {
      SegmentsFirst(x, e1, r1);
      StartCut(x, y);
      var k := Find(x, EVENT_START).value + |e1[0]|;
      assert (x + y)[k..] == x[k..] + y;
      SegmentsCompose(x[k..], e1[1..], r1, y, e2, r2);
      SegmentsPrepend(x + y, e1[0], e1[1..] + e2, r2);
      assert e1 + e2 == [e1[0]] + (e1[1..] + e2);
    }
  }

  lemma SegmentsFirst(stream: Bytes, events: seq<Bytes>, rest: Bytes)
    requires Segments(stream, events, rest) && events != []
    ensures Find(stream, EVENT_START).Some?
    ensures var d := Find(stream, EVENT_START).value;
            && events[0] <= stream[d..] && IsFrame(events[0])
            && Segments(stream[d + |events[0]|..], events[1..], rest)
  {
  }

  lemma SegmentsPrepend(stream: Bytes, event: Bytes, events: seq<Bytes>, rest: Bytes)
    requires Find(stream, EVENT_START).Some? && event <= stream[Find(stream, EVENT_START).value..] && IsFrame(event)
    requires Segments(stream[Find(stream, EVENT_START).value + |event|..], events, rest)
    ensures Segments(stream, [event] + events, rest)
  {
    hide FindFrom, Find, IsFrame;
    assert ([event] + events)[1..] == events;
  }

  lemma SegmentsFromLeftover(x: Bytes, r1: Bytes, y: Bytes, e2: seq<Bytes>, r2: Bytes)
    requires Segments(x, [], r1) && Segments(r1 + y, e2, r2)
    ensures Segments(x + y, e2, r2)
  {
    hide FindFrom, Find, IsFrame, Tail;
    var k := |x| - |r1|;
    if Find(x, EVENT_START).Some? {
      StartCut(x, y);
      assert forall j: nat | j < k :: !OccursAt(x + y, EVENT_START, j);
    } else {
      TailKeepsStarts(x, y, EVENT_START);
    }
    assert (x + y)[k..] == r1 + y;
    assert Find(x, EVENT_START).None? ==> k == 0 || |r1| >= |EVENT_START| - 1;
    SegmentsSkip(x + y, k, e2, r2);
  }

  /** Bytes before which no start tag begins can be put back in front. */
  lemma SegmentsSkip(h: Bytes, k: nat, events: seq<Bytes>, rest: Bytes)
    requires k <= |h| && forall j: nat | j < k :: !OccursAt(h, EVENT_START, j)
    requires Find(h, EVENT_START).None? ==> k == 0 || |h| - k >= |EVENT_START| - 1
    requires Segments(h[k..], events, rest)
    ensures Segments(h, events, rest)
  {
    hide FindFrom, Find, IsFrame, Segments, Tail;
    FindShift(h, EVENT_START, k);
    if events == [] {
      SegmentsBase(h[k..], rest);
      if Find(h, EVENT_START).None? { TailOfTail(h, k); }
      else {
        var d := Find(h, EVENT_START).value;
        assert h[k..][d - k..] == h[d..];
      }
      SegmentsEmpty(h, rest);
    } else {
      SegmentsFirst(h[k..], events, rest);
      var d := Find(h, EVENT_START).value;
      assert h[k..][d - k..] == h[d..];
      assert h[k..][d - k + |events[0]|..] == h[d + |events[0]|..];
      SegmentsPrepend(h, events[0], events[1..], rest);
      assert [events[0]] + events[1..] == events;
    }
  }

  lemma TailOfTail(h: Bytes, k: nat)
    requires k <= |h| && (k == 0 || |h| - k >= |EVENT_START| - 1)
    ensures Tail(h[k..], |EVENT_START| - 1) == Tail(h, |EVENT_START| - 1)
  {
  }

  lemma SegmentsEmpty(stream: Bytes, rest: Bytes)
    requires match Find(stream, EVENT_START)
               case None => rest == Tail(stream, |EVENT_START| - 1)
               case Some(d) => rest == stream[d..]
    ensures Segments(stream, [], rest)
  {
    hide FindFrom, Find, Tail;
  }

  lemma {:induction false} FeedSegments(carry: Bytes, chunks: seq<Bytes>)
    requires Settled(carry)
    ensures Segments(carry + Concat(chunks), Feed(carry, chunks).events, Feed(carry, chunks).rest)
    decreases |chunks|
  {
    hide FindFrom, Find, NextFrame, Segments;
    if chunks == [] {
      assert carry + Concat(chunks) == carry;
      ExtractSegments(carry);
    } else {
      var a, b := carry + chunks[0], Concat(chunks[1..]);
      assert carry + Concat(chunks) == a + b;
      ExtractSegments(a);
      ExtractSettles(a);
      var now := Extract(a);
      FeedSegments(now.rest, chunks[1..]);
      var later := Feed(now.rest, chunks[1..]);
      SegmentsCompose(a, now.events, now.rest, b, later.events, later.rest);
    }
  }

  /** Gaps and events in stream order. */
  function Weave(gaps: seq<Bytes>, events: seq<Bytes>): Bytes
    requires |gaps| == |events| + 1
    decreases |events|
  {
    if events == [] then gaps[0] else gaps[0] + events[0] + Weave(gaps[1..], events[1..])
  }

  lemma {:induction false} SegmentsWeave(stream: Bytes, events: seq<Bytes>, rest: Bytes) returns (gaps: seq<Bytes>)
    requires Segments(stream, events, rest)
    ensures |gaps| == |events| + 1 && stream == Weave(gaps, events) + rest
    ensures forall i | 0 <= i < |events| :: GapThenEvent(gaps[i], events[i])
    ensures LastGap(gaps[|events|], rest)
    decreases |events|
  {
    hide FindFrom, Find, Segments, GapThenEvent, LastGap;
    if events == [] {
      SegmentsLast(stream, rest);
      var g := stream[..|stream| - |rest|];
      gaps := [g];
      assert g + rest == stream;
    } else {
      SegmentsFirst(stream, events, rest);
      var d := Find(stream, EVENT_START).value;
      var k := d + |events[0]|;
      var g := stream[..d];
      var more := SegmentsWeave(stream[k..], events[1..], rest);
      gaps := [g] + more;
      FirstGap(stream, events[0], d);
      WeaveFirst(g, more, events, stream[k..], rest);
      assert stream == (g + events[0]) + stream[k..];
    }
  }

  /** `<event` begins in `gap + event` only after the gap, and the event is one frame. */
  ghost predicate GapThenEvent(gap: Bytes, event: Bytes) {
    IsFrame(event) && Find(gap + event, EVENT_START) == Some(|gap|)
  }

  ghost predicate LastGap(gap: Bytes, rest: Bytes) {
    !Occurs(gap + rest, EVENT_START) || Find(gap + rest, EVENT_START) == Some(|gap|)
  }

  lemma SegmentsLast(stream: Bytes, rest: Bytes)
    requires Segments(stream, [], rest)
    ensures |rest| <= |stream| && stream[|stream| - |rest|..] == rest && LastGap(stream[..|stream| - |rest|], rest)
  {
    hide FindFrom, Find, Segments;
    SegmentsBase(stream, rest);
    assert stream[..|stream| - |rest|] + rest == stream;
  }

  lemma SegmentsBase(stream: Bytes, rest: Bytes)
    requires Segments(stream, [], rest)
    ensures match Find(stream, EVENT_START)
              case None => rest == Tail(stream, |EVENT_START| - 1)
              case Some(d) => rest == stream[d..]
  {
    hide FindFrom, Find, Tail;
  }

  lemma FirstGap(stream: Bytes, event: Bytes, d: nat)
    requires Find(stream, EVENT_START) == Some(d) && event <= stream[d..] && IsFrame(event)
    ensures d + |event| <= |stream| && GapThenEvent(stream[..d], event)
    ensures stream == (stream[..d] + event) + stream[d + |event|..]
  {
    hide FindFrom, Find;
    var k := d + |event|;
    var u := stream[..d] + event;
    assert EVENT_START <= event;
    assert stream == u + stream[k..];
    forall j: nat | j <= d ensures OccursAt(u, EVENT_START, j) == OccursAt(stream, EVENT_START, j) {
      OccursAppend(u, stream[k..], EVENT_START, j);
    }
    FindIs(u, EVENT_START, d);
  }

  lemma WeaveFirst(g: Bytes, more: seq<Bytes>, events: seq<Bytes>, tail: Bytes, rest: Bytes)
    requires events != [] && |more| == |events| && tail == Weave(more, events[1..]) + rest
    ensures (g + events[0]) + tail == Weave([g] + more, events) + rest
  {
    assert ([g] + more)[1..] == more;
    assert (g + events[0]) + (Weave(more, events[1..]) + rest) == ((g + events[0]) + Weave(more, events[1..])) + rest;
  }

  /** Over any sequence of reads the stream is gap, event, gap, event, ..., gap, leftover;
      `<event` begins nowhere in a gap, and every event is one frame. */
  lemma ByteConservation(chunks: seq<Bytes>) returns (gaps: seq<Bytes>)
    ensures var f := Feed([], chunks);
            && |gaps| == |f.events| + 1
            && Concat(chunks) == Weave(gaps, f.events) + f.rest
            && (forall i | 0 <= i < |f.events| :: GapThenEvent(gaps[i], f.events[i]))
            && LastGap(gaps[|f.events|], f.rest)
  {
    hide Segments, GapThenEvent, LastGap;
    assert [] + Concat(chunks) == Concat(chunks);
    FeedSegments([], chunks);
    gaps := SegmentsWeave(Concat(chunks), Feed([], chunks).events, Feed([], chunks).rest);
  }

  // ---- Printing events and framing them again ----

  const NEWLINE: Bytes := "\n"

  /** `write_event_line` to a socket whose bytes so far are `out`. */
  function WriteEventLine(out: Bytes, data: Bytes): Bytes {
    if data == [] then out else out + data + NEWLINE
  }

  /** The bytes on the wire after writing the events in order. */
  function Wire(events: seq<Bytes>): Bytes {
    if events == [] then [] else WriteEventLine([], events[0]) + Wire(events[1..])
  }

  lemma WireOne(e: Bytes)
    requires e != []
    ensures Wire([e]) == e + NEWLINE
  {
    assert [e][1..] == [];
    assert Wire([e]) == WriteEventLine([], e) + Wire([]);
    assert [] + e + NEWLINE == e + NEWLINE;
  }

  /** A line that is a closed frame, or becomes one by stripping, with no `<event` in what is stripped. */
  ghost predicate Framed(l: Bytes) {
    ClosedFrame(Strip(l)) && Find(l, EVENT_START) == Some(|l| - |Strip(l)|)
  }

  lemma FrameIsFramed(e: Bytes)
    requires ClosedFrame(e)
    ensures Framed(e) && Strip(e) == e
  {
    hide Find, FindFrom, Strip;
    FrameNeedsNoStripping(e);
    assert e[0..6] == EVENT_START;
    FindIs(e, EVENT_START, 0);
  }

  lemma FramedCut(gap: Bytes, l: Bytes, after: Bytes)
    requires Framed(l) && (gap == [] || gap == NEWLINE)
    ensures NextFrame(gap + l + after) == Cut(Strip(l), after, false)
  {
    hide FindFrom, Find, Strip;
    var s, e := gap + l + after, Strip(l);
    var k := |l| - |e|;
    StripIsSuffix(l);
    StartAfterGap(gap, l, after, k);
    assert s[|gap| + k..] == e + after;
    FindAppend(e, after, EVENT_END);
  }

  lemma StartAfterGap(gap: Bytes, l: Bytes, after: Bytes, k: nat)
    requires Find(l, EVENT_START) == Some(k) && (gap == [] || gap == NEWLINE)
    ensures Find(gap + l + after, EVENT_START) == Some(|gap| + k)
  {
    hide FindFrom, Find;
    var s := gap + l + after;
    assert s == gap + (l + after);
    FindAppend(l, after, EVENT_START);
    forall j: nat | j < |gap| + k ensures !OccursAt(s, EVENT_START, j) {
      if j >= |gap| { OccursAfter(gap, l + after, EVENT_START, j - |gap|); }
      else if j + |EVENT_START| <= |s| { assert s[j..j + |EVENT_START|][0] == s[j] == '\n'; }
    }
    OccursAfter(gap, l + after, EVENT_START, k);
    FindIs(s, EVENT_START, |gap| + k);
  }

  /** What follows the last complete frame of a wire: nothing, or a newline. */
  function Tailing(events: seq<Bytes>, gap: Bytes): Bytes { if events == [] then gap else NEWLINE }

  /** The events of some lines: each line stripped. */
  function EventsOf(lines: seq<Bytes>): seq<Bytes> {
    seq(|lines|, i requires 0 <= i < |lines| => Strip(lines[i]))
  }

  lemma {:induction false} WireFramesFrom(gap: Bytes, lines: seq<Bytes>)
    requires gap == [] || gap == NEWLINE
    requires forall l | l in lines :: Framed(l)
    ensures Extract(gap + Wire(lines)) == Frames(EventsOf(lines), Tailing(lines, gap))
    decreases |lines|
  {
    hide FindFrom, Find, Framed, NextFrame, Wire, Strip;
    if lines == [] {
      assert gap + Wire(lines) == gap by { WireNothing(); }
      GapAlone(gap);
    } else {
      var l, more := lines[0], lines[1..];
      var after := NEWLINE + Wire(more);
      assert gap + Wire(lines) == gap + l + after by { NonEmptyLine(l); WireFirst(lines); }
      FramedCut(gap, l, after);
      WireFramesFrom(NEWLINE, more);
      assert [Strip(l)] + EventsOf(more) == EventsOf(lines);
    }
  }

  lemma GapAlone(gap: Bytes)
    requires gap == [] || gap == NEWLINE
    ensures NextFrame(gap) == Stop(gap)
  {
    hide FindFrom;
    assert Find(gap, EVENT_START) == None;
  }

  lemma WireNothing()
    ensures Wire([]) == []
  {
  }

  lemma WireFirst(events: seq<Bytes>)
    requires events != [] && events[0] != []
    ensures Wire(events) == events[0] + (NEWLINE + Wire(events[1..]))
  {
    hide Wire;
    var e, w := events[0], Wire(events[1..]);
    assert WriteEventLine([], e) == e + NEWLINE;
    assert (e + NEWLINE) + w == e + (NEWLINE + w);
    WireStep(events);
  }

  lemma WireStep(events: seq<Bytes>)
    requires events != []
    ensures Wire(events) == WriteEventLine([], events[0]) + Wire(events[1..])
  {
  }

  lemma NonEmptyLine(l: Bytes)
    requires Framed(l)
    ensures l != []
  {
    hide Find, FindFrom, Strip;
  }

  /** Writing any list of framed lines and extracting gives the stripped lines; only the last newline stays.
      Every chunking of the wire does so exactly when each stripped line is unambiguous. */
  lemma WireStripped(lines: seq<Bytes>)
    requires forall l | l in lines :: Framed(l)
    ensures Extract(Wire(lines)) == Frames(EventsOf(lines), Tailing(lines, []))
    ensures (forall chunks: seq<Bytes> | Concat(chunks) == Wire(lines) ::
               Feed([], chunks) == Frames(EventsOf(lines), Tailing(lines, [])))
            <==> AllUnambiguous(EventsOf(lines))
  {
    hide Extract, Feed, Framed;
    assert [] + Wire(lines) == Wire(lines);
    WireFramesFrom([], lines);
    ChunkInvariance(Wire(lines));
  }

  /** So writing any list of closed frames and extracting gives the list back. */
  lemma WireRoundTrip(events: seq<Bytes>)
    requires forall e | e in events :: ClosedFrame(e)
    ensures Extract(Wire(events)) == Frames(events, Tailing(events, []))
    ensures (forall chunks: seq<Bytes> | Concat(chunks) == Wire(events) ::
               Feed([], chunks) == Frames(events, Tailing(events, [])))
            <==> AllUnambiguous(events)
  {
    hide Extract, Feed, ClosedFrame, Framed, Strip, Wire, Concat, AllUnambiguous;
    forall e | e in events ensures Framed(e) && Strip(e) == e { FrameIsFramed(e); }
    assert EventsOf(events) == events;
    WireStripped(events);
  }

  /** A self-closed event and a closed one in the same read come out as one frame,
      and as two when the read boundary falls between them. */
  lemma SelfClosedMergesExample()
    ensures var s := "<event/><event></event>";
            && Extract(s) == Frames(["<event/><event></event>"], "")
            && Feed("", ["<event/>", "<event></event>"]) == Frames(["<event/>", "<event></event>"], "")
  {
    hide Extract, Feed, NextFrame, Find, FindFrom, ClosedFrame;
    var a, b := "<event/>", "<event></event>";
    SmallEnds();
    LoneClosed(b);
    LoneClosed("<event/><event></event>");
    LoneSelfClosed(a);
    FeedTwo(a, b);
    assert [] + b == b;
    assert [a] + [b] == [a, b];
  }

  lemma LoneClosed(e: Bytes)
    requires ClosedFrame(e)
    ensures Extract(e) == Frames([e], [])
  {
    hide FindFrom, Find, NextFrame, Framed, Strip;
    FrameIsFramed(e);
    FramedCut([], e, []);
    assert [] + e + [] == e;
    ExtractEmpty();
  }

  lemma LoneSelfClosed(e: Bytes)
    requires EVENT_START <= e && Find(e, GT) == Some(|e| - 1) && e[|e| - 2] == '/'
    ensures Extract(e) == Frames([e], [])
  {
    hide FindFrom, Find;
    SelfClosedAlone(e);
    assert e[0..6] == EVENT_START;
    FindIs(e, EVENT_START, 0);
    assert e[0..] == e;
    assert NextFrame(e) == Cut(e, [], true);
    ExtractEmpty();
  }

  lemma ExtractEmpty()
    ensures Extract([]) == Frames([], [])
  {
  }

  lemma SmallEnds()
    ensures ClosedFrame("<event></event>") && ClosedFrame("<event/><event></event>")
    ensures EVENT_START <= "<event/>" && Find("<event/>", GT) == Some(7)
  {
    hide FindFrom, Find, OccursAt;
    var b, a := "<event></event>", "<event/>";
    FirstEnd("<event>");
    assert "<event>" + EVENT_END == b;
    FirstEnd("<event/><event>");
    assert "<event/><event>" + EVENT_END == a + b;
    assert a + b == "<event/><event></event>";
    assert EVENT_START <= b && EVENT_START <= a + b;
    assert a == "<event/" + GT;
    forall j: nat | j < 7 ensures !OccursAt(a, GT, j) { OneByte(a, '>', j); }
    OneByte(a, '>', 7);
    FindIs(a, GT, 7);
  }

  /** Bytes in which no `<` stands before a `/` end with their first end tag when one is put behind. */
  lemma FirstEnd(s: Bytes)
    requires forall i | 0 <= i < |s| && s[i] == '<' :: i + 1 < |s| && s[i + 1] != '/'
    ensures Find(s + EVENT_END, EVENT_END) == Some(|s|)
  {
    hide FindFrom, Find;
    var t := s + EVENT_END;
    assert t[|s|..|s| + |EVENT_END|] == EVENT_END;
    forall j: nat | j < |s| ensures !OccursAt(t, EVENT_END, j) {
      EndStarts(t, j);
      assert t[j] == s[j] && (j + 1 < |s| ==> t[j + 1] == s[j + 1]);
    }
    FindIs(t, EVENT_END, |s|);
  }

  lemma EndStarts(h: Bytes, j: nat)
    ensures OccursAt(h, EVENT_END, j) ==> h[j] == '<' && h[j + 1] == '/'
  {
    if OccursAt(h, EVENT_END, j) { assert h[j..j + 8][0] == h[j] && h[j..j + 8][1] == h[j + 1]; }
  }

  // ---- strip_xml_declaration ----

  predicate IsSpace(c: char) { c == ' ' || c == '\n' || c == '\r' || c == '\t' }

  function TrimLeading(data: Bytes): (r: Bytes)
    ensures r == [] || !IsSpace(r[0])
    ensures |r| <= |data| && r == data[|data| - |r|..]
    ensures forall i | 0 <= i < |data| - |r| :: IsSpace(data[i])
  {
    if data != [] && IsSpace(data[0]) then TrimLeading(data[1..]) else data
  }

  const XML_START: Bytes := "<?xml"
  const XML_END: Bytes := "?>"

  /** One past a declaration at the head of `t`. */
  function DeclarationEnd(t: Bytes): (r: Option<nat>)
    ensures r.Some? ==>
              XML_START <= t && |XML_END| <= r.value <= |t| && Find(t, XML_END) == Some(r.value - |XML_END|)
    ensures r.None? ==> !(XML_START <= t && Occurs(t, XML_END))
  {
    if !(XML_START <= t) then None
    else match Find(t, XML_END)
      case None => None
      case Some(end) => Some(end + |XML_END|)
  }

  /** What is left of trimmed bytes: a declaration at their head and the whitespace after it are dropped. */
  function StripHead(t: Bytes): (r: Bytes)
    ensures |r| <= |t| && r == t[|t| - |r|..]
  {
    match DeclarationEnd(t)
    case None => t
    case Some(k) => TrimLeading(t[k..])
  }

  /** Leading whitespace, an XML declaration, and whitespace after it are dropped. */
  function Strip(data: Bytes): (r: Bytes)
    ensures |r| <= |data|
  {
    StripHead(TrimLeading(data))
  }

  lemma StripIsSuffix(data: Bytes)
    ensures Strip(data) == data[|data| - |Strip(data)|..]
  {
    hide TrimLeading, StripHead;
    var t := TrimLeading(data);
    assert data == data[..|data| - |t|] + t;
    assert t == t[..|t| - |StripHead(t)|] + StripHead(t);
  }

  ghost predicate AllSpace(s: Bytes) { forall i | 0 <= i < |s| :: IsSpace(s[i]) }

  /** One XML declaration: from `<?xml` to its first `?>`. */
  ghost predicate IsDeclaration(d: Bytes) {
    XML_START <= d && |d| >= |XML_END| && Find(d, XML_END) == Some(|d| - |XML_END|)
  }

  /** The data is `lead`, `decl`, `gap` and then `out`: white space, at most one declaration with the white space
      after it, and a rest that starts with neither white space nor, if none was taken off, a declaration. */
  ghost predicate SplitsAs(data: Bytes, lead: Bytes, decl: Bytes, gap: Bytes, out: Bytes) {
    && data == lead + (decl + (gap + out)) && AllSpace(lead) && AllSpace(gap)
    && (out == [] || !IsSpace(out[0]))
    && (IsDeclaration(decl) || (decl == [] && gap == [] && !(XML_START <= out && Occurs(out, XML_END))))
  }

  ghost predicate Stripped(data: Bytes, out: Bytes) {
    exists lead: Bytes, decl: Bytes, gap: Bytes :: SplitsAs(data, lead, decl, gap, out)
  }

  lemma {:induction false} TrimSkips(lead: Bytes, rest: Bytes)
    requires AllSpace(lead) && (rest == [] || !IsSpace(rest[0]))
    ensures TrimLeading(lead + rest) == rest
    decreases |lead|
  {
    if lead == [] { assert lead + rest == rest; }
    else {
      assert (lead + rest)[1..] == lead[1..] + rest;
      TrimSkips(lead[1..], rest);
    }
  }

  lemma SplitIsStrip(data: Bytes, lead: Bytes, decl: Bytes, gap: Bytes, out: Bytes)
    requires SplitsAs(data, lead, decl, gap, out)
    ensures Strip(data) == out
  {
    hide Find, FindFrom, TrimLeading;
    var t := decl + (gap + out);
    if decl == [] {
      assert t == out;
      TrimSkips(lead, out);
      if XML_START <= out { FindNone(out, XML_END); }
    } else {
      assert t[0] == decl[0] == XML_START[0];
      TrimSkips(lead, t);
      FindAppend(decl, gap + out, XML_END);
      assert XML_START <= t && t[|decl|..] == gap + out;
      TrimSkips(gap, out);
    }
  }

  lemma StripSplits(data: Bytes)
    ensures Stripped(data, Strip(data))
  {
    hide TrimLeading, IsSpace, AllSpace, Stripped, StripHead;
    var t := TrimLeading(data);
    TrimmedPart(data);
    HeadStripped(data, data[..|data| - |t|], t);
  }

  lemma HeadStripped(data: Bytes, lead: Bytes, t: Bytes)
    requires data == lead + t && AllSpace(lead) && (t == [] || !IsSpace(t[0]))
    ensures Stripped(data, StripHead(t))
  {
    hide Find, FindFrom, TrimLeading, IsSpace, Occurs, AllSpace, Stripped, DeclarationEnd;
    match DeclarationEnd(t)
    case Some(k) => DeclarationStripped(data, lead, t, k);
    case None => NothingStripped(data, lead, t);
  }

  lemma DeclarationStripped(data: Bytes, lead: Bytes, t: Bytes, k: nat)
    requires data == lead + t && AllSpace(lead) && XML_START <= t
    requires |XML_END| <= k <= |t| && Find(t, XML_END) == Some(k - |XML_END|)
    ensures Stripped(data, TrimLeading(t[k..]))
  {
    hide SplitsAs, Find, FindFrom, TrimLeading, AllSpace;
    var after := t[k..];
    var out := TrimLeading(after);
    DeclarationSplits(data, lead, t, k);
    assert SplitsAs(data, lead, t[..k], after[..|after| - |out|], out);
  }

  lemma NothingStripped(data: Bytes, lead: Bytes, t: Bytes)
    requires data == lead + t && AllSpace(lead) && (t == [] || !IsSpace(t[0]))
    requires !(XML_START <= t && Occurs(t, XML_END))
    ensures Stripped(data, t)
  {
    hide SplitsAs, Occurs, AllSpace, IsSpace;
    NothingSplits(data, lead, t);
    assert SplitsAs(data, lead, [], [], t);
  }

  lemma TrimmedPart(data: Bytes)
    ensures var t := TrimLeading(data);
            data == data[..|data| - |t|] + t && AllSpace(data[..|data| - |t|]) && (t == [] || !IsSpace(t[0]))
  {
    hide TrimLeading, IsSpace;
  }

  lemma DeclarationSplits(data: Bytes, lead: Bytes, t: Bytes, k: nat)
    requires data == lead + t && AllSpace(lead) && XML_START <= t
    requires |XML_END| <= k && Find(t, XML_END) == Some(k - |XML_END|)
    ensures k <= |t|
    ensures var after := t[k..];
            var out := TrimLeading(after);
            SplitsAs(data, lead, t[..k], after[..|after| - |out|], out)
  {
    hide Find, FindFrom, TrimLeading, IsDeclaration;
    DeclarationCut(t, k);
    var after := t[k..];
    var out := TrimLeading(after);
    assert after == after[..|after| - |out|] + out;
    assert t == t[..k] + after;
  }

  lemma NothingSplits(data: Bytes, lead: Bytes, t: Bytes)
    requires data == lead + t && AllSpace(lead) && (t == [] || !IsSpace(t[0]))
    requires !(XML_START <= t && Occurs(t, XML_END))
    ensures SplitsAs(data, lead, [], [], t)
  {
    hide Occurs;
    assert [] + ([] + t) == t;
  }

  lemma DeclarationCut(t: Bytes, k: nat)
    requires XML_START <= t && |XML_END| <= k && Find(t, XML_END) == Some(k - |XML_END|)
    ensures k <= |t| && IsDeclaration(t[..k])
  {
    hide Find, FindFrom;
    var d := t[..k];
    assert t == d + t[k..];
    assert t[k - 2..k] == XML_END && t[k - 2] == '?' && t[k - 1] == '>';
    assert forall i | 0 <= i < 5 :: t[i] == XML_START[i];
    assert k >= 5;
    forall j: nat | j <= k - 2 ensures OccursAt(d, XML_END, j) == OccursAt(t, XML_END, j) {
      OccursAppend(d, t[k..], XML_END, j);
    }
    FindIs(d, XML_END, k - 2);
  }

  /** Stripping is the only function that removes just that. */
  lemma StripIff(data: Bytes, out: Bytes)
    ensures Strip(data) == out <==> Stripped(data, out)
  {
    hide Strip, SplitsAs;
    StripSplits(data);
    forall lead: Bytes, decl: Bytes, gap: Bytes | SplitsAs(data, lead, decl, gap, out) ensures Strip(data) == out {
      SplitIsStrip(data, lead, decl, gap, out);
    }
  }

  method StripXmlDeclaration(data: Bytes) returns (out: Bytes)
    ensures out == Strip(data) && Stripped(data, out)
  {
    hide Find, FindFrom, TrimLeading, Stripped;
    StripSplits(data);
    out := TrimLeadingWhitespace(data);
    if XML_START <= out {
      var end := Find(out, XML_END);
      if end.Some? {
        out := out[end.value + |XML_END|..];
        out := TrimLeadingWhitespace(out);
      }
    }
  }

  method TrimLeadingWhitespace(data: Bytes) returns (out: Bytes)
    ensures out == TrimLeading(data)
  {
    out := data;
    while out != [] && IsSpace(out[0])
      invariant TrimLeading(out) == TrimLeading(data)
      decreases |out|
    {
      out := out[1..];
    }
  }

  /** Frames start with `<event`, so stripping leaves them unchanged. */
  lemma FrameNeedsNoStripping(e: Bytes)
    requires IsFrame(e)
    ensures e != [] && Strip(e) == e
  {
    hide TrimLeading, IsFrame;
    StartsWithTag(e);
    NothingToTrim(e);
    assert XML_START[1] == '?';
  }

  lemma StartsWithTag(e: Bytes)
    requires IsFrame(e)
    ensures |e| > 1 && e[0] == '<' && e[1] == 'e'
  {
    hide Find, FindFrom;
    assert EVENT_START <= e;
    assert e[0] == EVENT_START[0] && e[1] == EVENT_START[1];
  }

  lemma NothingToTrim(data: Bytes)
    requires data != [] && !IsSpace(data[0])
    ensures TrimLeading(data) == data
  {
  }
}
