/** Cutting `<event ... </event>` frames out of a chunked byte stream. */
module Framing {
  import opened Substrings

  const EVENT_START: Bytes := "<event"
  const EVENT_END: Bytes := "</event>"
  const GT: Bytes := ">"

  /** `find_self_closing_event_end`: one past the first `>` when a `/` stands before it. */
  function SelfClosingEnd(b: Bytes): (r: Option<nat>)
    ensures r.Some? ==> 1 < r.value <= |b|
  {
    if !(EVENT_START <= b) then None
    else match Find(b, GT)
      case None => None
      case Some(gt) => if gt > 0 && b[gt - 1] == '/' then Some(gt + 1) else None
  }

  /** What one turn of the extraction loop finds at the head of a buffer. */
  datatype Turn =
    | Cut(event: Bytes, rest: Bytes, selfClosed: bool)
    | Stop(rest: Bytes)

  function NextFrame(buffer: Bytes): (t: Turn)
    ensures t.Cut? ==> 0 < |t.event| && |t.rest| < |buffer| && |t.event| + |t.rest| <= |buffer|
    ensures t.Cut? ==> t.event + t.rest == buffer[|buffer| - |t.event| - |t.rest|..]
  {
    match Find(buffer, EVENT_START)
    case None => Stop(Tail(buffer, |EVENT_START| - 1))
    case Some(start) =>
      var b := buffer[start..];
      match Find(b, EVENT_END)
      case Some(end) => Cut(b[..end + |EVENT_END|], b[end + |EVENT_END|..], false)
      case None =>
        match SelfClosingEnd(b)
        case Some(end) => Cut(b[..end], b[end..], true)
        case None => Stop(b)
  }

  datatype Frames = Frames(events: seq<Bytes>, rest: Bytes)

  /** The frames cut from a buffer and the bytes left in it. */
  function Extract(buffer: Bytes): (f: Frames)
    decreases |buffer|
  {
    match NextFrame(buffer)
    case Stop(rest) => Frames([], rest)
    case Cut(event, rest, _) =>
      var more := Extract(rest);
      Frames([event] + more.events, more.rest)
  }

  lemma ExtractPrepends(done: seq<Bytes>, buffer: Bytes, t: Turn)
    requires NextFrame(buffer) == t && t.Cut?
    ensures done + Extract(buffer).events == (done + [t.event]) + Extract(t.rest).events
    ensures Extract(buffer).rest == Extract(t.rest).rest
  {
  }

  /** The connection's `pending` bytes, drained in place by `extract_cot_events`. */
  class PendingBuffer {
    var data: Bytes

    constructor ()
      ensures data == []
    {
      data := [];
    }

    /** `extract_cot_events`: the loop of searches and drains computes `Extract`. */
    method ExtractCotEvents() returns (events: seq<Bytes>)
      modifies this
      ensures events == Extract(old(data)).events
      ensures data == Extract(old(data)).rest
    {
      hide FindFrom, Find, SelfClosingEnd;
      events := [];
      ghost var all := Extract(data);
      while true
        invariant all.events == events + Extract(data).events
        invariant all.rest == Extract(data).rest
        decreases |data|
      {
        ghost var before := data;
        var found := Find(data, EVENT_START);
        if found.None? {
          // Keep a small tail in case the start tag is split across reads.
          var keep := |EVENT_START| - 1;
          if |data| > keep {
            data := data[|data| - keep..];
          }
          assert NextFrame(before) == Stop(data);
          return;
        }
        if found.value > 0 {
          data := data[found.value..];
        }
        assert data == before[found.value..];
        var endRel := Find(data, EVENT_END);
        if endRel.Some? {
          var end := endRel.value + |EVENT_END|;
          ExtractPrepends(events, before, Cut(data[..end], data[end..], false));
          events := events + [data[..end]];
          data := data[end..];
          continue;
        }
        var selfEnd := SelfClosingEnd(data);
        if selfEnd.Some? {
          var end := selfEnd.value;
          ExtractPrepends(events, before, Cut(data[..end], data[end..], true));
          events := events + [data[..end]];
          data := data[end..];
          continue;
        }
        assert NextFrame(before) == Stop(data);
        return;
      }
    }

    /** One socket read: append the bytes to `pending`, then extract. */
    method Receive(chunk: Bytes) returns (events: seq<Bytes>)
      modifies this
      ensures events == Extract(old(data) + chunk).events
      ensures data == Extract(old(data) + chunk).rest
    {
      data := data + chunk;
      events := ExtractCotEvents();
    }
  }

  /** A whole connection: the frames of successive reads, starting from `carry` pending bytes. */
  function Feed(carry: Bytes, chunks: seq<Bytes>): (f: Frames)
    decreases |chunks|
  {
    if chunks == [] then Frames([], carry)
    else
      var now := Extract(carry + chunks[0]);
      var later := Feed(now.rest, chunks[1..]);
      Frames(now.events + later.events, later.rest)
  }

  function Concat(chunks: seq<Bytes>): Bytes {
    if chunks == [] then [] else chunks[0] + Concat(chunks[1..])
  }

  // ---- One turn, before and after more bytes arrive ----

  /** The bytes from the first start tag on, when there is one. */
  lemma StartCut(a: Bytes, b: Bytes)
    requires Find(a, EVENT_START).Some?
    ensures Find(a + b, EVENT_START) == Find(a, EVENT_START)
    ensures var s := Find(a, EVENT_START).value; (a + b)[s..] == a[s..] + b
  {
    FindAppend(a, b, EVENT_START);
  }

  /** A frame closed by `</event>` is cut the same way whatever follows. */
  lemma ClosedCutAppend(a: Bytes, b: Bytes)
    requires NextFrame(a).Cut? && !NextFrame(a).selfClosed
    ensures NextFrame(a + b) == NextFrame(a).(rest := NextFrame(a).rest + b)
  {
    hide FindFrom, Find, SelfClosingEnd;
    StartCut(a, b);
    var s := a[Find(a, EVENT_START).value..];
    FindAppend(s, b, EVENT_END);
    var end := Find(s, EVENT_END).value + |EVENT_END|;
    assert (s + b)[..end] == s[..end];
    assert (s + b)[end..] == s[end..] + b;
  }

  /** A self-closed frame is cut the same way only if no `</event>` follows. */
  lemma SelfClosedCutAppend(a: Bytes, b: Bytes)
    requires NextFrame(a).Cut? && NextFrame(a).selfClosed
    ensures var t, u := NextFrame(a), NextFrame(a + b);
            if Occurs(t.event + t.rest + b, EVENT_END)
            then u.Cut? && !u.selfClosed && |u.event| > |t.event| + |t.rest| && t.event <= u.event
            else u == t.(rest := t.rest + b)
  {
    hide FindFrom, Find;
    StartCut(a, b);
    var s := a[Find(a, EVENT_START).value..];
    var t := NextFrame(a);
    assert t.event + t.rest == s;
    if Occurs(s + b, EVENT_END) {
      FindAppendLate(s, b, EVENT_END);
    } else {
      FindNone(s + b, EVENT_END);
      FindAppend(s, b, GT);
      var end := SelfClosingEnd(s).value;
      assert (s + b)[..end] == s[..end];
      assert (s + b)[end..] == s[end..] + b;
    }
  }

  /** Stopping loses nothing: the kept bytes lead to the same next turn as the whole buffer. */
  lemma StopAppend(a: Bytes, b: Bytes)
    requires NextFrame(a).Stop?
    ensures NextFrame(NextFrame(a).rest + b) == NextFrame(a + b)
  {
    hide FindFrom, Find;
    var r := NextFrame(a).rest;
    if Find(a, EVENT_START).Some? {
      StartCut(a, b);
      assert OccursAt(r, EVENT_START, 0) by { OccursDrop(a, EVENT_START, |a| - |r|, 0); }
      FindIs(r, EVENT_START, 0);
      StartCut(r, b);
      assert (r + b)[0..] == r + b;
    } else {
      TailAppend(a, b);
    }
  }

  /** Without a start tag, the kept tail stands for the whole buffer. */
  lemma TailAppend(a: Bytes, b: Bytes)
    requires Find(a, EVENT_START).None?
    ensures NextFrame(Tail(a, |EVENT_START| - 1) + b) == NextFrame(a + b)
  {
    hide FindFrom, Find, SelfClosingEnd;
    var r := Tail(a, |EVENT_START| - 1);
    TailKeepsStarts(a, b, EVENT_START);
    var k := |a| - |r|;
    FindShift(a + b, EVENT_START, k);
    if Find(a + b, EVENT_START).Some? {
      var i := Find(a + b, EVENT_START).value;
      assert (r + b)[i - k..] == (a + b)[i..];
    } else {
      assert Tail(r + b, 5) == Tail(a + b, 5);
    }
  }

  /** Bytes from which no frame can be cut and nothing dropped. */
  predicate Settled(b: Bytes) { NextFrame(b) == Stop(b) }

  lemma {:induction false} ExtractSettles(b: Bytes)
    ensures Settled(Extract(b).rest)
    decreases |b|
  {
    hide NextFrame;
    match NextFrame(b)
    case Cut(_, rest, _) => ExtractSettles(rest);
    case Stop(rest) =>
      StopAppend(b, []);
      assert rest + [] == rest && b + [] == b;
  }

  // ---- Chunk invariance, with its exact condition ----

  /** Extraction continued with the bytes `b` after a first read. */
  function Resume(f: Frames, b: Bytes): Frames {
    var more := Extract(f.rest + b);
    Frames(f.events + more.events, more.rest)
  }

  /** No self-closed frame cut from `a` is followed by a `</event>` in `a + b`. */
  ghost predicate SplitSafe(a: Bytes, b: Bytes)
    decreases |a|
  {
    match NextFrame(a)
    case Stop(_) => true
    case Cut(event, rest, selfClosed) =>
      (selfClosed ==> !Occurs(event + rest + b, EVENT_END)) && SplitSafe(rest, b)
  }

  /** Two reads give what one read of all the bytes gives exactly when the split is safe. */
  lemma {:induction false} SplitInvariance(a: Bytes, b: Bytes)
    ensures Extract(a + b) == Resume(Extract(a), b) <==> SplitSafe(a, b)
    decreases |a|
  {
    hide NextFrame;
    match NextFrame(a)
    case Stop(rest) =>
      StopAppend(a, b);
      assert Extract(a + b) == Extract(rest + b);
    case Cut(event, rest, selfClosed) =>
      SplitInvariance(rest, b);
      var inner := Resume(Extract(rest), b);
      assert Resume(Extract(a), b) == Frames([event] + inner.events, inner.rest);
      if selfClosed {
        SelfClosedCutAppend(a, b);
        if Occurs(event + rest + b, EVENT_END) {
          assert Extract(a + b).events[0] != event;
        } else {
          assert Extract(a + b) == Frames([event] + Extract(rest + b).events, Extract(rest + b).rest);
          assert [event] + inner.events == Extract(a + b).events ==> inner.events == Extract(a + b).events[1..];
        }
      } else {
        ClosedCutAppend(a, b);
        assert Extract(a + b) == Frames([event] + Extract(rest + b).events, Extract(rest + b).rest);
        assert [event] + inner.events == Extract(a + b).events ==> inner.events == Extract(a + b).events[1..];
      }
  }

  /** A frame whose own bytes do not also read as a self-closed event followed by something else. */
  predicate Unambiguous(event: Bytes) {
    match Find(event, GT)
    case None => true
    case Some(gt) => gt + 1 == |event| || gt == 0 || event[gt - 1] != '/'
  }

  ghost predicate AllUnambiguous(events: seq<Bytes>) {
    forall i | 0 <= i < |events| :: Unambiguous(events[i])
  }

  /** A self-closed frame ends at its first `>`. */
  lemma SelfClosedShape(a: Bytes)
    requires NextFrame(a).Cut? && NextFrame(a).selfClosed
    ensures var e := NextFrame(a).event;
            |e| > 1 && Find(e, GT) == Some(|e| - 1) && e[|e| - 2] == '/'
  {
    var s := a[Find(a, EVENT_START).value..];
    var e := NextFrame(a).event;
    var gt := Find(s, GT).value;
    assert s == e + s[gt + 1..];
    forall j: nat | j < gt ensures !OccursAt(e, GT, j) { OccursAppend(e, s[gt + 1..], GT, j); }
    OccursAppend(e, s[gt + 1..], GT, gt);
    FindIs(e, GT, gt);
  }

  lemma {:induction false} UnambiguousSplitsSafely(a: Bytes, b: Bytes)
    requires AllUnambiguous(Extract(a + b).events)
    ensures SplitSafe(a, b)
    decreases |a|
  {
    hide NextFrame, FindFrom, Find;
    match NextFrame(a)
    case Stop(_) =>
    case Cut(event, rest, selfClosed) =>
      if selfClosed {
        SelfClosedCutAppend(a, b);
        SelfClosedShape(a);
        var u := NextFrame(a + b);
        assert u.event == Extract(a + b).events[0];
        if Occurs(event + rest + b, EVENT_END) {
          assert u.event == event + u.event[|event|..];
          FindAppend(event, u.event[|event|..], GT);
        }
      } else {
        ClosedCutAppend(a, b);
      }
      assert Extract(rest + b).events == Extract(a + b).events[1..];
      UnambiguousSplitsSafely(rest, b);
  }

  lemma {:induction false} FeedIsExtract(carry: Bytes, chunks: seq<Bytes>)
    requires Settled(carry)
    requires AllUnambiguous(Extract(carry + Concat(chunks)).events)
    ensures Feed(carry, chunks) == Extract(carry + Concat(chunks))
    decreases |chunks|
  {
    if chunks == [] {
      assert carry + Concat(chunks) == carry;
    } else {
      var a, b := carry + chunks[0], Concat(chunks[1..]);
      assert carry + Concat(chunks) == a + b;
      UnambiguousSplitsSafely(a, b);
      SplitInvariance(a, b);
      ExtractSettles(a);
      var r := Extract(a).rest;
      var n := |Extract(a).events|;
      assert Extract(r + b).events == Extract(a + b).events[n..];
      FeedIsExtract(r, chunks[1..]);
    }
  }

  /** How a frame was found. */
  lemma FrameShape(s: Bytes)
    requires NextFrame(s).Cut?
    ensures Find(s, EVENT_START).Some?
    ensures var t, b := NextFrame(s), s[Find(s, EVENT_START).value..];
            && b == t.event + t.rest
            && (if t.selfClosed then Find(b, EVENT_END) == None && SelfClosingEnd(b) == Some(|t.event|)
                else |t.event| >= |EVENT_END| && Find(b, EVENT_END) == Some(|t.event| - |EVENT_END|))
  {
    hide FindFrom, Find, SelfClosingEnd;
  }

  /** What is found that way is a frame. */
  lemma FrameFrom(m: Bytes, start: nat, event: Bytes, rest: Bytes, selfClosed: bool)
    requires start <= |m| && Find(m, EVENT_START) == Some(start) && m[start..] == event + rest
    requires if selfClosed then Find(event + rest, EVENT_END) == None && SelfClosingEnd(event + rest) == Some(|event|)
             else |event| >= |EVENT_END| && Find(event + rest, EVENT_END) == Some(|event| - |EVENT_END|)
    ensures NextFrame(m) == Cut(event, rest, selfClosed)
  {
    hide FindFrom, Find, SelfClosingEnd;
    assert (event + rest)[..|event|] == event && (event + rest)[|event|..] == rest;
  }

  lemma SlicesApart(s: Bytes, start: nat, event: Bytes, x: Bytes, y: Bytes)
    requires start <= |s| && s[start..] == event + (x + y)
    ensures var p := s[..|s| - |x + y|];
            && s == p + x + y && start + |event| + |x| == |p + x|
            && (p + x)[start..] == event + x && s[start..] == (event + x) + y
  {
    var p := s[..|s| - |x + y|];
    assert s == s[..start] + (event + (x + y));
    assert p == s[..start] + event;
  }

  /** The head of `s` up to the end of its first frame yields just that frame. */
  lemma CutAlone(s: Bytes, x: Bytes, y: Bytes)
    requires NextFrame(s).Cut? && NextFrame(s).rest == x + y
    ensures var p := s[..|s| - |NextFrame(s).rest|];
            p + x + y == s && NextFrame(p + x) == NextFrame(s).(rest := x)
  {
    hide FindFrom, Find, SelfClosingEnd, NextFrame, Occurs;
    var t := NextFrame(s);
    var p := s[..|s| - |t.rest|];
    FrameShape(s);
    EventHoldsStart(s);
    var start := Find(s, EVENT_START).value;
    var m, ms := p + x, t.event + x;
    SlicesApart(s, start, t.event, x, y);
    CutStart(m, y, start);
    if t.selfClosed { SelfClosedCut(s, ms, x, y); } else { ClosedCut(ms, y); }
    FrameFrom(m, start, t.event, x, t.selfClosed);
  }

  /** A first start tag that lies in the front part is its first, too. */
  lemma CutStart(m: Bytes, y: Bytes, start: nat)
    requires Find(m + y, EVENT_START) == Some(start) && start + |EVENT_START| <= |m|
    ensures Find(m, EVENT_START) == Some(start)
  {
    hide FindFrom, Find;
    forall j: nat | j <= start ensures OccursAt(m, EVENT_START, j) == OccursAt(m + y, EVENT_START, j) {
      OccursAppend(m, y, EVENT_START, j);
    }
    FindIs(m, EVENT_START, start);
  }

  lemma ClosedCut(ms: Bytes, y: Bytes)
    requires Find(ms + y, EVENT_END).Some? && Find(ms + y, EVENT_END).value + |EVENT_END| <= |ms|
    ensures Find(ms, EVENT_END) == Find(ms + y, EVENT_END)
  {
    hide FindFrom, Find;
    var end := Find(ms + y, EVENT_END).value;
    forall j: nat | j <= end ensures OccursAt(ms, EVENT_END, j) == OccursAt(ms + y, EVENT_END, j) {
      OccursAppend(ms, y, EVENT_END, j);
    }
    FindIs(ms, EVENT_END, end);
  }

  lemma SelfClosedCut(s: Bytes, ms: Bytes, x: Bytes, y: Bytes)
    requires NextFrame(s).Cut? && NextFrame(s).selfClosed && ms == NextFrame(s).event + x
    requires Find(ms + y, EVENT_END) == None && EVENT_START <= NextFrame(s).event
    ensures Find(ms, EVENT_END) == None && SelfClosingEnd(ms) == Some(|NextFrame(s).event|)
  {
    hide FindFrom, Find, NextFrame;
    var e := NextFrame(s).event;
    NoOccursPrefix(ms, y, EVENT_END);
    FindNone(ms, EVENT_END);
    SelfClosedShape(s);
    FindAppend(e, x, GT);
    assert EVENT_START <= ms && ms[|e| - 2] == e[|e| - 2];
  }

  /** Every frame starts with `<event`. */
  lemma EventHoldsStart(s: Bytes)
    requires NextFrame(s).Cut?
    ensures EVENT_START <= NextFrame(s).event
    ensures Find(s, EVENT_START) == Some(|s| - |NextFrame(s).event| - |NextFrame(s).rest|)
  {
    hide FindFrom, Find;
    var t := NextFrame(s);
    var start := Find(s, EVENT_START).value;
    var b := s[start..];
    assert b[..6] == EVENT_START;
    if t.selfClosed {
      var gt := Find(b, GT).value;
      assert b[gt..gt + 1] == GT && b[gt] == '>';
      assert forall k | 0 <= k < 6 :: b[k] == EVENT_START[k] != '>';
    } else {
      var end := Find(b, EVENT_END).value;
      assert b[end..end + 8] == EVENT_END;
    }
    assert t.event <= b;
  }

  /** An ambiguous frame in `s` gives a place to split `s` that changes the result. */
  lemma {:induction false} AmbiguousHasBadSplit(s: Bytes) returns (a: Bytes, b: Bytes)
    requires !AllUnambiguous(Extract(s).events)
    ensures a + b == s && !SplitSafe(a, b)
    decreases |s|
  {
    hide NextFrame, Unambiguous;
    var t := NextFrame(s);
    assert t.Cut?;
    if Unambiguous(t.event) {
      assert Extract(t.rest).events == Extract(s).events[1..];
      var x, y := AmbiguousHasBadSplit(t.rest);
      CutAlone(s, x, y);
      var p := s[..|s| - |t.rest|];
      a, b := p + x, y;
    } else {
      a, b := BadSplitOfFirst(s);
    }
  }

  lemma BadSplitOfFirst(s: Bytes) returns (a: Bytes, b: Bytes)
    requires NextFrame(s).Cut? && !Unambiguous(NextFrame(s).event)
    ensures a + b == s && !SplitSafe(a, b)
  {
    hide NextFrame, FindFrom, Find, SplitSafe;
    var t := NextFrame(s);
    EventHoldsStart(s);
    var start := Find(s, EVENT_START).value;
    var gt := Find(t.event, GT).value;
    GtAfterStart(t.event, gt);
    var cut := start + gt + 1;
    a, b := s[..cut], s[cut..];
    AmbiguousHeadIsSelfClosed(s, start, gt);
  }

  lemma GtAfterStart(e: Bytes, gt: nat)
    requires EVENT_START <= e && OccursAt(e, GT, gt)
    ensures 6 <= gt < |e|
  {
    assert e[gt..gt + 1] == GT && e[gt] == '>';
    assert forall k | 0 <= k < 6 :: e[k] == EVENT_START[k] != '>';
  }

  lemma EndHoldsGt(h: Bytes, j: nat)
    requires OccursAt(h, EVENT_END, j)
    ensures h[j + 6] == 't' && OccursAt(h, GT, j + 7)
  {
    assert h[j + 6] == h[j..j + 8][6] && h[j + 7] == h[j..j + 8][7];
    assert h[j + 7..j + 8] == [h[j + 7]];
  }

  lemma SelfClosedAlone(h: Bytes)
    requires EVENT_START <= h && Find(h, GT) == Some(|h| - 1) && h[|h| - 2] == '/'
    ensures Find(h, EVENT_END) == None
    ensures SelfClosingEnd(h) == Some(|h|) && h[..|h|] == h && h[|h|..] == []
  {
    hide FindFrom, Find;
    forall j: nat ensures !OccursAt(h, EVENT_END, j) {
      if OccursAt(h, EVENT_END, j) { EndHoldsGt(h, j); }
    }
    FindNone(h, EVENT_END);
  }

  lemma AmbiguousHeadIsSelfClosed(s: Bytes, start: nat, gt: nat)
    requires NextFrame(s).Cut? && Find(s, EVENT_START) == Some(start)
    requires Find(NextFrame(s).event, GT) == Some(gt)
    requires 6 <= gt && gt + 1 < |NextFrame(s).event| && NextFrame(s).event[gt - 1] == '/'
    requires start + gt + 1 <= |s|
    ensures !SplitSafe(s[..start + gt + 1], s[start + gt + 1..])
  {
    hide FindFrom, Find, NextFrame, SelfClosingEnd;
    var t := NextFrame(s);
    FrameShape(s);
    EventHoldsStart(s);
    if t.selfClosed { SelfClosedShape(s); assert false; }
    var h := t.event[..gt + 1];
    HeadAlone(t.event, gt);
    var a, b := s[..start + gt + 1], s[start + gt + 1..];
    assert s == a + b && a[start..] == h;
    CutStart(a, b, start);
    assert h + [] == h;
    FrameFrom(a, start, h, [], true);
    assert h + [] + b == s[start..];
    assert OccursAt(h + [] + b, EVENT_END, Find(s[start..], EVENT_END).value);
  }

  /** The head of a frame up to a first `>` after `/`, taken for itself, is self-closed. */
  lemma HeadAlone(event: Bytes, gt: nat)
    requires EVENT_START <= event && Find(event, GT) == Some(gt) && 6 <= gt < |event| && event[gt - 1] == '/'
    ensures var h := event[..gt + 1]; Find(h, EVENT_END) == None && SelfClosingEnd(h) == Some(|h|)
  {
    hide FindFrom, Find;
    var h := event[..gt + 1];
    assert event == h + event[gt + 1..];
    forall j: nat | j <= gt ensures OccursAt(h, GT, j) == OccursAt(event, GT, j) {
      OccursAppend(h, event[gt + 1..], GT, j);
    }
    FindIs(h, GT, gt);
    SelfClosedAlone(h);
  }

  /** Every way of cutting the stream into reads yields the same frames and leftover
      exactly when no frame of the stream has its first `>` preceded by `/` and more after it. */
  lemma ChunkInvariance(s: Bytes)
    ensures (forall chunks: seq<Bytes> | Concat(chunks) == s :: Feed([], chunks) == Extract(s))
            <==> AllUnambiguous(Extract(s).events)
  {
    if AllUnambiguous(Extract(s).events) {
      forall chunks: seq<Bytes> | Concat(chunks) == s ensures Feed([], chunks) == Extract(s) {
        assert [] + s == s;
        FeedIsExtract([], chunks);
      }
    } else {
      var a, b := AmbiguousHasBadSplit(s);
      SplitInvariance(a, b);
      FeedTwo(a, b);
    }
  }

  lemma FeedTwo(a: Bytes, b: Bytes)
    ensures Concat([a, b]) == a + b
    ensures Feed([], [a, b]) == Resume(Extract(a), b)
  {
    assert [] + a == a;
    assert [a, b][1..] == [b] && [b][1..] == [];
    assert Concat([b]) == b + [] == b;
    var now := Extract(a);
    var last := Extract(now.rest + b);
    assert Feed(now.rest, [b]) == Frames(last.events + [], last.rest);
    assert last.events + [] == last.events;
  }

  /** No start tag of the stream is self-closing: the first `>` after each `<event` has no `/` before it. */
  ghost predicate NoSelfClosingTags(s: Bytes) {
    forall i: nat | OccursAt(s, EVENT_START, i) :: OpenTag(s[i..])
  }

  /** The first `>`, if any, is not preceded by `/`. */
  predicate OpenTag(b: Bytes) {
    match Find(b, GT) case None => true case Some(gt) => gt == 0 || b[gt - 1] != '/'
  }

  /** A prefix of bytes that begin with an open tag is unambiguous. */
  lemma OpenTagPrefix(event: Bytes, rest: Bytes)
    requires OpenTag(event + rest)
    ensures Unambiguous(event)
  {
    hide FindFrom, Find;
    if Find(event, GT).Some? {
      FindAppend(event, rest, GT);
      var gt := Find(event, GT).value;
      assert gt > 0 ==> (event + rest)[gt - 1] == event[gt - 1];
    }
  }

  lemma {:induction false} OpenTagsUnambiguous(s: Bytes)
    requires NoSelfClosingTags(s)
    ensures AllUnambiguous(Extract(s).events)
    decreases |s|
  {
    hide NextFrame, FindFrom, Find, OpenTag, Unambiguous;
    var t := NextFrame(s);
    if t.Cut? {
      EventHoldsStart(s);
      var start := Find(s, EVENT_START).value;
      assert s[start..] == t.event + t.rest;
      OpenTagPrefix(t.event, t.rest);
      var k := |s| - |t.rest|;
      assert s[k..] == t.rest;
      forall i: nat | OccursAt(t.rest, EVENT_START, i) ensures OpenTag(t.rest[i..]) {
        OccursDrop(s, EVENT_START, k, i);
        assert t.rest[i..] == s[k + i..];
      }
      OpenTagsUnambiguous(t.rest);
      var more := Extract(t.rest).events;
      forall i | 0 <= i < |Extract(s).events| ensures Unambiguous(Extract(s).events[i]) {
        assert i > 0 ==> Extract(s).events[i] == more[i - 1];
      }
    }
  }

  /** A stream whose start tags are not self-closing is framed alike however it is cut into reads. */
  lemma OpenTagsFrameAlike(chunks: seq<Bytes>)
    requires NoSelfClosingTags(Concat(chunks))
    ensures Feed([], chunks) == Extract(Concat(chunks))
  {
    hide Feed, Extract, Concat, NoSelfClosingTags;
    OpenTagsUnambiguous(Concat(chunks));
    ChunkInvariance(Concat(chunks));
  }
}
