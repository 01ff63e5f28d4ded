/** `rewrite_event_times` against `parse_cot_internal`, over the XML reader's events. */
module EventTimes {
  import opened Substrings
  import Escaping
  import CotBuilders

  /** One attribute as the reader yields it: a key with its raw value, or an error. */
  datatype Attr = Good(key: Bytes, raw: Bytes) | Bad

  /** One reader event before the end of input; `Fault` is a reader error. */
  datatype Token =
    | Start(name: Bytes, attrs: seq<Attr>)
    | Empty(name: Bytes, attrs: seq<Attr>)
    | Other(text: Bytes)
    | Fault

  /** Decoding and unescaping of a raw value, which may fail. */
  type Decoder = Bytes -> Option<Bytes>

  // ---- parse_cot_internal ----

  datatype Scan = Scan(isEvent: bool, uid: Bytes, kind: Bytes, callsign: Option<Bytes>, hasContact: bool)

  datatype Reading = Reading(uid: Bytes, kind: Bytes, callsign: Option<Bytes>, hasContact: bool)

  const FRESH := Scan(false, "", "", None, false)

  function ScanEventAttr(decode: Decoder, s: Scan, a: Attr): Scan {
    if a.Bad? then s
    else match decode(a.raw)
      case None => s
      case Some(v) => if a.key == "type" then s.(kind := v) else if a.key == "uid" then s.(uid := v) else s
  }

  function ScanContactAttr(decode: Decoder, s: Scan, a: Attr): Scan {
    if a.Good? && a.key == "callsign" && decode(a.raw).Some? then s.(callsign := decode(a.raw)) else s
  }

  function ScanEvent(decode: Decoder, s: Scan, attrs: seq<Attr>): Scan
    decreases |attrs|
  {
    if attrs == [] then s else ScanEvent(decode, ScanEventAttr(decode, s, attrs[0]), attrs[1..])
  }

  function ScanContact(decode: Decoder, s: Scan, attrs: seq<Attr>): Scan
    decreases |attrs|
  {
    if attrs == [] then s else ScanContact(decode, ScanContactAttr(decode, s, attrs[0]), attrs[1..])
  }

  /** A self-closing `event` tag is not recognised as an event. */
  function ScanToken(decode: Decoder, s: Scan, t: Token): Scan {
    match t
    case Start(name, attrs) =>
      if name == "event" then ScanEvent(decode, s.(isEvent := true), attrs)
      else if name == "contact" then ScanContact(decode, s.(hasContact := true), attrs)
      else s
    case Empty(name, attrs) => if name == "contact" then ScanContact(decode, s.(hasContact := true), attrs) else s
    case Other(_) => s
    case Fault => s
  }

  /** Scanning stops at the end of input or at the first reader error. */
  function ScanAll(decode: Decoder, s: Scan, tokens: seq<Token>): Scan
    decreases |tokens|
  {
    if tokens == [] || tokens[0].Fault? then s else ScanAll(decode, ScanToken(decode, s, tokens[0]), tokens[1..])
  }

  function Result(s: Scan): Option<Reading> {
    if s.isEvent then Some(Reading(s.uid, s.kind, s.callsign, s.hasContact)) else None
  }

  function Parse(decode: Decoder, tokens: seq<Token>): Option<Reading> { Result(ScanAll(decode, FRESH, tokens)) }

  method ParseCot(decode: Decoder, tokens: seq<Token>) returns (r: Option<Reading>)
    ensures r == Parse(decode, tokens)
  {
    var s := FRESH;
    var i := 0;
    while i < |tokens|
      invariant 0 <= i <= |tokens|
      invariant ScanAll(decode, s, tokens[i..]) == ScanAll(decode, FRESH, tokens)
    {
      if tokens[i].Fault? { break; }
      s := ScanToken(decode, s, tokens[i]);
      i := i + 1;
    }
    r := if s.isEvent then Some(Reading(s.uid, s.kind, s.callsign, s.hasContact)) else None;
  }

  /** Token `i` is an opening `event` tag and no reader error comes before it. */
  ghost predicate EventTagAt(tokens: seq<Token>, i: int) {
    0 <= i < |tokens| && tokens[i].Start? && tokens[i].name == "event" && Fault !in tokens[..i]
  }

  lemma {:induction false} ScanEventIsEvent(decode: Decoder, s: Scan, attrs: seq<Attr>)
    ensures ScanEvent(decode, s, attrs).isEvent == s.isEvent && ScanContact(decode, s, attrs).isEvent == s.isEvent
    decreases |attrs|
  {
    if attrs != [] {
      ScanEventIsEvent(decode, ScanEventAttr(decode, s, attrs[0]), attrs[1..]);
      ScanEventIsEvent(decode, ScanContactAttr(decode, s, attrs[0]), attrs[1..]);
    }
  }

  lemma TokenIsEvent(decode: Decoder, s: Scan, t: Token)
    ensures ScanToken(decode, s, t).isEvent <==> s.isEvent || (t.Start? && t.name == "event")
  {
    hide ScanEvent, ScanContact;
    if t.Start? || t.Empty? {
      ScanEventIsEvent(decode, s.(isEvent := true), t.attrs);
      ScanEventIsEvent(decode, s.(hasContact := true), t.attrs);
    }
  }

  lemma {:induction false} ScanFindsEvent(decode: Decoder, s: Scan, tokens: seq<Token>)
    ensures ScanAll(decode, s, tokens).isEvent <==> s.isEvent || exists i :: EventTagAt(tokens, i)
    decreases |tokens|
  {
    hide ScanToken;
    if tokens != [] && !tokens[0].Fault? {
      var t, more := tokens[0], tokens[1..];
      TokenIsEvent(decode, s, t);
      ScanFindsEvent(decode, ScanToken(decode, s, t), more);
      forall i | EventTagAt(more, i) ensures EventTagAt(tokens, i + 1) { assert tokens[..i + 1] == [t] + more[..i]; }
      forall i | EventTagAt(tokens, i) && i > 0 ensures EventTagAt(more, i - 1) {
        assert tokens[..i] == [t] + more[..i - 1];
      }
      if t.Start? && t.name == "event" { assert EventTagAt(tokens, 0); }
    } else if tokens != [] {
      forall i ensures !EventTagAt(tokens, i) { FaultFirst(tokens, i); }
    }
  }

  lemma FaultFirst(tokens: seq<Token>, i: int)
    requires tokens != [] && tokens[0].Fault?
    ensures !EventTagAt(tokens, i)
  {
    if 0 < i <= |tokens| { assert tokens[..i][0] == tokens[0]; }
  }

  /** The server reads an event exactly when the reader meets an opening `event` tag before any error.
      A self-closing event has none, so it is neither cached nor relayed. */
  lemma ReadsOnlyOpenEvents(decode: Decoder, tokens: seq<Token>)
    ensures Parse(decode, tokens).Some? <==> exists i :: EventTagAt(tokens, i)
  {
    hide ScanAll, EventTagAt;
    ScanFindsEvent(decode, FRESH, tokens);
  }

  lemma SelfClosingIsNotRead(decode: Decoder, attrs: seq<Attr>)
    ensures Parse(decode, [Empty("event", attrs)]) == None
  {
    ReadsOnlyOpenEvents(decode, [Empty("event", attrs)]);
  }

  // ---- What is read ----

  /** The last value of `key` among some attributes that can be decoded. */
  function LastValue(decode: Decoder, attrs: seq<Attr>, key: Bytes): Option<Bytes> {
    if attrs == [] then None
    else
      var a := attrs[|attrs| - 1];
      if a.Good? && a.key == key && decode(a.raw).Some? then decode(a.raw)
      else LastValue(decode, attrs[..|attrs| - 1], key)
  }

  predicate Gives(decode: Decoder, a: Attr, key: Bytes) { a.Good? && a.key == key && decode(a.raw).Some? }

  lemma {:induction false} LastValueIff(decode: Decoder, attrs: seq<Attr>, key: Bytes, v: Bytes)
    ensures LastValue(decode, attrs, key) == Some(v) <==>
              exists i :: 0 <= i < |attrs| && Gives(decode, attrs[i], key) && decode(attrs[i].raw) == Some(v)
                          && forall j | i < j < |attrs| :: !Gives(decode, attrs[j], key)
  {
    if attrs != [] {
      var n := |attrs| - 1;
      LastValueIff(decode, attrs[..n], key, v);
      assert forall i | 0 <= i < n :: attrs[i] == attrs[..n][i];
    }
  }

  lemma {:induction false} LastValueConcat(decode: Decoder, a: seq<Attr>, b: seq<Attr>, key: Bytes)
    ensures LastValue(decode, a + b, key) == Or(LastValue(decode, b, key), LastValue(decode, a, key))
    decreases |b|
  {
    if b == [] { assert a + b == a; }
    else {
      var n := |b| - 1;
      LastValueConcat(decode, a, b[..n], key);
      assert (a + b)[..|a + b| - 1] == a + b[..n] && (a + b)[|a + b| - 1] == b[n];
    }
  }

  function Or(a: Option<Bytes>, b: Option<Bytes>): Option<Bytes> { if a.Some? then a else b }
  function OrElse(a: Option<Bytes>, b: Bytes): Bytes { if a.Some? then a.value else b }

  lemma LastValueFirst(decode: Decoder, a: Attr, rest: seq<Attr>, key: Bytes)
    ensures LastValue(decode, [a] + rest, key)
         == Or(LastValue(decode, rest, key), if Gives(decode, a, key) then decode(a.raw) else None)
  {
    LastValueConcat(decode, [a], rest, key);
    assert [a][..0] == [];
  }

  lemma {:induction false} ScanEventReads(decode: Decoder, s: Scan, attrs: seq<Attr>)
    ensures var r := ScanEvent(decode, s, attrs);
            && r.uid == OrElse(LastValue(decode, attrs, "uid"), s.uid)
            && r.kind == OrElse(LastValue(decode, attrs, "type"), s.kind)
            && r.callsign == s.callsign && r.hasContact == s.hasContact
    decreases |attrs|
  {
    hide LastValue;
    if attrs == [] { NoValue(decode, "uid"); NoValue(decode, "type"); }
    else {
      ScanEventReads(decode, ScanEventAttr(decode, s, attrs[0]), attrs[1..]);
      assert attrs == [attrs[0]] + attrs[1..];
      LastValueFirst(decode, attrs[0], attrs[1..], "uid");
      LastValueFirst(decode, attrs[0], attrs[1..], "type");
    }
  }

  lemma NoValue(decode: Decoder, key: Bytes)
    ensures LastValue(decode, [], key) == None
  {
  }

  lemma {:induction false} ScanContactReads(decode: Decoder, s: Scan, attrs: seq<Attr>)
    ensures ScanContact(decode, s, attrs) == s.(callsign := Or(LastValue(decode, attrs, "callsign"), s.callsign))
    decreases |attrs|
  {
    hide LastValue;
    if attrs == [] { NoValue(decode, "callsign"); }
    else {
      ScanContactReads(decode, ScanContactAttr(decode, s, attrs[0]), attrs[1..]);
      assert attrs == [attrs[0]] + attrs[1..];
      LastValueFirst(decode, attrs[0], attrs[1..], "callsign");
    }
  }

  predicate IsTag(t: Token, name: Bytes) { t.Start? && t.name == name }
  predicate IsContact(t: Token) { (t.Start? || t.Empty?) && t.name == "contact" }

  /** The attributes of all opening `event` tags, and of all `contact` tags, before the first reader error. */
  function EventAttrs(tokens: seq<Token>): seq<Attr> {
    if tokens == [] || tokens[0].Fault? then []
    else (if IsTag(tokens[0], "event") then tokens[0].attrs else []) + EventAttrs(tokens[1..])
  }

  function ContactAttrs(tokens: seq<Token>): seq<Attr> {
    if tokens == [] || tokens[0].Fault? then []
    else (if IsContact(tokens[0]) then tokens[0].attrs else []) + ContactAttrs(tokens[1..])
  }

  predicate HasContact(tokens: seq<Token>) {
    tokens != [] && !tokens[0].Fault? && (IsContact(tokens[0]) || HasContact(tokens[1..]))
  }

  /** What one token adds to what was read. */
  lemma TokenReads(decode: Decoder, s: Scan, t: Token)
    ensures var r := ScanToken(decode, s, t);
            var event := if IsTag(t, "event") then t.attrs else [];
            var contact := if IsContact(t) then t.attrs else [];
            && r.uid == OrElse(LastValue(decode, event, "uid"), s.uid)
            && r.kind == OrElse(LastValue(decode, event, "type"), s.kind)
            && r.callsign == Or(LastValue(decode, contact, "callsign"), s.callsign)
            && r.hasContact == (s.hasContact || IsContact(t))
  {
    hide LastValue, ScanEvent, ScanContact;
    NoValue(decode, "uid");
    NoValue(decode, "type");
    NoValue(decode, "callsign");
    if t.Start? || t.Empty? {
      ScanEventReads(decode, s.(isEvent := true), t.attrs);
      ScanContactReads(decode, s.(hasContact := true), t.attrs);
    }
  }

  lemma {:induction false} ScanReads(decode: Decoder, s: Scan, tokens: seq<Token>)
    ensures var r := ScanAll(decode, s, tokens);
            && r.uid == OrElse(LastValue(decode, EventAttrs(tokens), "uid"), s.uid)
            && r.kind == OrElse(LastValue(decode, EventAttrs(tokens), "type"), s.kind)
            && r.callsign == Or(LastValue(decode, ContactAttrs(tokens), "callsign"), s.callsign)
            && r.hasContact == (s.hasContact || HasContact(tokens))
    decreases |tokens|
  {
    hide LastValue, ScanToken;
    if tokens == [] || tokens[0].Fault? {
      NoValue(decode, "uid");
      NoValue(decode, "type");
      NoValue(decode, "callsign");
    } else {
      var t, more := tokens[0], tokens[1..];
      TokenReads(decode, s, t);
      ScanReads(decode, ScanToken(decode, s, t), more);
      var event := if IsTag(t, "event") then t.attrs else [];
      var contact := if IsContact(t) then t.attrs else [];
      LastValueConcat(decode, event, EventAttrs(more), "uid");
      LastValueConcat(decode, event, EventAttrs(more), "type");
      LastValueConcat(decode, contact, ContactAttrs(more), "callsign");
    }
  }

  /** Of an event that is read, uid and type are the last decodable ones of its opening tags (or empty), the callsign
      the last decodable one of its contact tags, and the flag tells whether there is such a tag. */
  lemma ParseReads(decode: Decoder, tokens: seq<Token>)
    requires Parse(decode, tokens).Some?
    ensures Parse(decode, tokens).value == Reading(
              OrElse(LastValue(decode, EventAttrs(tokens), "uid"), ""),
              OrElse(LastValue(decode, EventAttrs(tokens), "type"), ""),
              LastValue(decode, ContactAttrs(tokens), "callsign"),
              HasContact(tokens))
  {
    hide LastValue, ScanAll, EventAttrs, ContactAttrs, HasContact;
    ScanReads(decode, FRESH, tokens);
  }

  // ---- rewrite_event_times ----

  predicate IsTime(key: Bytes) { key == "time" || key == "start" || key == "stale" }

  predicate Survives(a: Attr) { a.Good? && !IsTime(a.key) }

  /** The readable attributes other than the three times, in order. */
  function Kept(attrs: seq<Attr>): seq<Attr> {
    if attrs == [] then [] else (if Survives(attrs[0]) then [attrs[0]] else []) + Kept(attrs[1..])
  }

  function Times(time: Bytes, stale: Bytes): seq<Attr> {
    [Good("time", time), Good("start", time), Good("stale", stale)]
  }

  function RewriteToken(t: Token, time: Bytes, stale: Bytes): Token {
    if (t.Start? || t.Empty?) && t.name == "event" then t.(attrs := Kept(t.attrs) + Times(time, stale)) else t
  }

  /** What each of the three times says: the event happens and starts now, and goes stale later. */
  ghost predicate Timed(attrs: seq<Attr>, time: Bytes, stale: Bytes) {
    forall a | a in attrs && a.Good? ::
      && (a.key == "time" ==> a.raw == time)
      && (a.key == "start" ==> a.raw == time)
      && (a.key == "stale" ==> a.raw == stale)
  }

  lemma KeptTimed(attrs: seq<Attr>, time: Bytes, stale: Bytes)
    ensures Timed(Kept(attrs) + Times(time, stale), time, stale)
  {
    hide Kept;
    var kept := Kept(attrs);
    forall a | a in kept ensures Survives(a) { KeptMembers(attrs, a); }
    assert forall a | a in kept + Times(time, stale) :: a in kept || a in Times(time, stale);
  }

  /** The new attribute list of an event tag, pushed one by one. */
  method RewriteAttrs(attrs: seq<Attr>, time: Bytes, stale: Bytes) returns (rewritten: seq<Attr>)
    ensures rewritten == Kept(attrs) + Times(time, stale)
    ensures Timed(rewritten, time, stale)
  {
    hide Timed, Survives;
    KeptTimed(attrs, time, stale);
    rewritten := [];
    for i := 0 to |attrs|
      invariant rewritten + Kept(attrs[i..]) == Kept(attrs)
    {
      assert attrs[i..][1..] == attrs[i + 1..];
      if Survives(attrs[i]) {
        assert rewritten + ([attrs[i]] + Kept(attrs[i + 1..])) == (rewritten + [attrs[i]]) + Kept(attrs[i + 1..]);
        rewritten := rewritten + [attrs[i]];
      }
    }
    assert attrs[|attrs|..] == [];
    rewritten := rewritten + [Good("time", time), Good("start", time), Good("stale", stale)];
  }

  function Rewritten(tokens: seq<Token>, time: Bytes, stale: Bytes): seq<Token> {
    seq(|tokens|, i requires 0 <= i < |tokens| => RewriteToken(tokens[i], time, stale))
  }

  /** The whole rewriting: fails on the first reader error, otherwise rewrites token by token. */
  method RewriteEventTimes(tokens: seq<Token>, time: Bytes, stale: Bytes) returns (r: Option<seq<Token>>)
    ensures r.Some? <==> Fault !in tokens
    ensures r.Some? ==> r.value == Rewritten(tokens, time, stale)
    ensures r.Some? ==>
              forall t | t in r.value && (t.Start? || t.Empty?) && t.name == "event" :: Timed(t.attrs, time, stale)
  {
    hide Kept, Times, Timed;
    var out: seq<Token> := [];
    for i := 0 to |tokens|
      invariant Fault !in tokens[..i]
      invariant |out| == i && forall k | 0 <= k < i :: out[k] == RewriteToken(tokens[k], time, stale)
      invariant forall t | t in out && (t.Start? || t.Empty?) && t.name == "event" :: Timed(t.attrs, time, stale)
    {
      var t := tokens[i];
      match t {
        case Fault => return None;
        case Start(name, attrs) =>
          if name == "event" {
            var a := RewriteAttrs(attrs, time, stale);
            out := out + [Start("event", a)];
          } else {
            out := out + [t];
          }
        case Empty(name, attrs) =>
          if name == "event" {
            var a := RewriteAttrs(attrs, time, stale);
            out := out + [Empty("event", a)];
          } else {
            out := out + [t];
          }
        case Other(_) => out := out + [t];
      }
    }
    r := Some(out);
  }

  // ---- Rewriting preserves what the server reads ----

  lemma {:induction false} KeptScansAlike(decode: Decoder, s: Scan, attrs: seq<Attr>, more: seq<Attr>)
    requires forall a | a in more :: a.Good? && IsTime(a.key)
    ensures ScanEvent(decode, s, Kept(attrs) + more) == ScanEvent(decode, s, attrs)
    decreases |attrs|
  {
    hide ScanEventAttr, Survives, IsTime, ScanEvent, Kept;
    if attrs == [] {
      NoneKept([]);
      assert [] + more == more;
      TimesScanNothing(decode, s, more);
      TimesScanNothing(decode, s, []);
    } else {
      var a, rest := attrs[0], attrs[1..];
      var s' := ScanEventAttr(decode, s, a);
      DroppedScansNothing(decode, s, a);
      KeptScansAlike(decode, s', rest, more);
      ScanFirst(decode, s, a, rest);
      ScanFirst(decode, s, a, Kept(rest) + more);
      KeptFirst(a, rest);
      assert [a] + rest == attrs;
      if Survives(a) { assert ([a] + Kept(rest)) + more == [a] + (Kept(rest) + more); }
      else { assert [] + Kept(rest) == Kept(rest); }
    }
  }

  lemma ScanFirst(decode: Decoder, s: Scan, a: Attr, rest: seq<Attr>)
    ensures ScanEvent(decode, s, [a] + rest) == ScanEvent(decode, ScanEventAttr(decode, s, a), rest)
  {
    hide ScanEventAttr;
    assert ([a] + rest)[1..] == rest;
  }

  lemma DroppedScansNothing(decode: Decoder, s: Scan, a: Attr)
    ensures !Survives(a) ==> ScanEventAttr(decode, s, a) == s
  {
  }

  lemma {:induction false} TimesScanNothing(decode: Decoder, s: Scan, more: seq<Attr>)
    requires forall a | a in more :: a.Good? && IsTime(a.key)
    ensures ScanEvent(decode, s, more) == s
    decreases |more|
  {
    if more != [] {
      assert more[0] in more;
      TimesScanNothing(decode, s, more[1..]);
    }
  }

  lemma RewriteTokenScansAlike(decode: Decoder, s: Scan, t: Token, time: Bytes, stale: Bytes)
    ensures ScanToken(decode, s, RewriteToken(t, time, stale)) == ScanToken(decode, s, t)
  {
    hide ScanEvent, ScanContact, Kept;
    if t.Start? && t.name == "event" { KeptScansAlike(decode, s.(isEvent := true), t.attrs, Times(time, stale)); }
  }

  lemma {:induction false} RewriteScansAlike(decode: Decoder, s: Scan, tokens: seq<Token>, time: Bytes, stale: Bytes)
    ensures ScanAll(decode, s, Rewritten(tokens, time, stale)) == ScanAll(decode, s, tokens)
    decreases |tokens|
  {
    hide ScanToken, Kept, Times;
    if tokens != [] {
      var u := Rewritten(tokens, time, stale);
      assert u[1..] == Rewritten(tokens[1..], time, stale);
      RewriteTokenScansAlike(decode, s, tokens[0], time, stale);
      RewriteScansAlike(decode, ScanToken(decode, s, tokens[0]), tokens[1..], time, stale);
    }
  }

  /** For every decoder the server reads the same uid, type, callsign and contact flag from the rewritten event. */
  lemma RewritePreservesReading(decode: Decoder, tokens: seq<Token>, time: Bytes, stale: Bytes)
    ensures Parse(decode, Rewritten(tokens, time, stale)) == Parse(decode, tokens)
  {
    RewriteScansAlike(decode, FRESH, tokens, time, stale);
  }

  function CountKey(attrs: seq<Attr>, key: Bytes): nat {
    if attrs == [] then 0 else (if attrs[0].Good? && attrs[0].key == key then 1 else 0) + CountKey(attrs[1..], key)
  }

  lemma {:induction false} CountKept(attrs: seq<Attr>, more: seq<Attr>, key: Bytes)
    requires IsTime(key)
    ensures CountKey(Kept(attrs) + more, key) == CountKey(more, key)
  {
    hide Survives, IsTime, CountKey;
    if attrs == [] { assert Kept(attrs) + more == more; }
    else {
      CountKept(attrs[1..], more, key);
      var rest := Kept(attrs[1..]) + more;
      if Survives(attrs[0]) {
        assert Kept(attrs) + more == [attrs[0]] + rest;
        SurvivorIsNoTime(attrs[0], key);
        CountFirst(attrs[0], rest, key);
      } else {
        assert Kept(attrs) + more == rest;
      }
    }
  }

  lemma CountFirst(a: Attr, rest: seq<Attr>, key: Bytes)
    ensures CountKey([a] + rest, key) == (if a.Good? && a.key == key then 1 else 0) + CountKey(rest, key)
  {
    assert ([a] + rest)[1..] == rest;
  }

  lemma SurvivorIsNoTime(a: Attr, key: Bytes)
    requires Survives(a) && IsTime(key)
    ensures !(a.Good? && a.key == key)
  {
  }

  /** Every rewritten event tag carries each of the three times exactly once. */
  lemma TimesOccurOnce(t: Token, time: Bytes, stale: Bytes, key: Bytes)
    requires (t.Start? || t.Empty?) && t.name == "event" && IsTime(key)
    ensures CountKey(RewriteToken(t, time, stale).attrs, key) == 1
  {
    hide Kept;
    CountKept(t.attrs, Times(time, stale), key);
    var ts := Times(time, stale);
    assert ts[1..] == [Good("start", time), Good("stale", stale)]
           && ts[1..][1..] == [Good("stale", stale)] && ts[1..][1..][1..] == [];
    assert CountKey([], key) == 0;
    assert CountKey(ts[1..][1..], key) == if key == "stale" then 1 else 0;
  }

  lemma KeptFirst(a: Attr, rest: seq<Attr>)
    ensures Kept([a] + rest) == (if Survives(a) then [a] else []) + Kept(rest)
  {
    assert ([a] + rest)[1..] == rest;
  }

  lemma {:induction false} KeptIdempotent(attrs: seq<Attr>, more: seq<Attr>)
    requires forall a | a in more :: !Survives(a)
    ensures Kept(Kept(attrs) + more) == Kept(attrs)
  {
    hide Survives, Kept;
    if attrs == [] {
      NoneKept([]);
      NoneKept(more);
      assert [] + more == more;
    } else {
      var a, rest := attrs[0], attrs[1..];
      KeptIdempotent(rest, more);
      KeptFirst(a, rest);
      assert [a] + rest == attrs;
      if Survives(a) {
        KeptFirst(a, Kept(rest) + more);
        assert ([a] + Kept(rest)) + more == [a] + (Kept(rest) + more);
      } else {
        assert [] + Kept(rest) == Kept(rest);
      }
    }
  }

  lemma {:induction false} NoneKept(more: seq<Attr>)
    requires forall a | a in more :: !Survives(a)
    ensures Kept(more) == []
  {
    if more != [] {
      assert more[0] in more;
      NoneKept(more[1..]);
    }
  }

  /** All other attributes of a rewritten event tag keep their order and their raw values. */
  lemma OthersKeepOrder(t: Token, time: Bytes, stale: Bytes)
    requires (t.Start? || t.Empty?) && t.name == "event"
    ensures Kept(RewriteToken(t, time, stale).attrs) == Kept(t.attrs)
  {
    hide Kept;
    KeptIdempotent(t.attrs, Times(time, stale));
  }

  /** The readable attributes with keys of some choice, in order. */
  function Picked(attrs: seq<Attr>, keep: Bytes -> bool): seq<Attr> {
    if attrs == [] then []
    else (if attrs[0].Good? && keep(attrs[0].key) then [attrs[0]] else []) + Picked(attrs[1..], keep)
  }

  lemma {:induction false} PickedConcat(a: seq<Attr>, b: seq<Attr>, keep: Bytes -> bool)
    ensures Picked(a + b, keep) == Picked(a, keep) + Picked(b, keep)
  {
    if a == [] { assert a + b == b; }
    else {
      assert (a + b)[0] == a[0] && (a + b)[1..] == a[1..] + b;
      PickedConcat(a[1..], b, keep);
    }
  }

  lemma {:induction false} PickedKept(attrs: seq<Attr>, keep: Bytes -> bool)
    requires !keep("time") && !keep("start") && !keep("stale")
    ensures Picked(Kept(attrs), keep) == Picked(attrs, keep)
  {
    hide Kept;
    if attrs == [] { NoneKept([]); }
    else {
      var a, rest := attrs[0], attrs[1..];
      KeptFirst(a, rest);
      assert [a] + rest == attrs;
      PickedKept(rest, keep);
      PickedConcat(if Survives(a) then [a] else [], Kept(rest), keep);
      PickedConcat([a], rest, keep);
      assert [a][1..] == [];
    }
  }

  /** Whatever attributes one looks for besides the three times, a rewritten event tag has those that it had,
      in the same order and with the same raw values. */
  lemma OthersStay(t: Token, time: Bytes, stale: Bytes, keep: Bytes -> bool)
    requires !keep("time") && !keep("start") && !keep("stale") && (t.Start? || t.Empty?)
    ensures var r := RewriteToken(t, time, stale);
            Picked(r.attrs, keep) == Picked(t.attrs, keep) && r.name == t.name && (r.Start? <==> t.Start?)
  {
    hide Kept;
    if t.name == "event" {
      PickedConcat(Kept(t.attrs), Times(time, stale), keep);
      PickedKept(t.attrs, keep);
      NoTimesPicked(time, stale, keep);
    }
  }

  lemma NoTimesPicked(time: Bytes, stale: Bytes, keep: Bytes -> bool)
    requires !keep("time") && !keep("start") && !keep("stale")
    ensures Picked(Times(time, stale), keep) == []
  {
    var x, y, z := Good("time", time), Good("start", time), Good("stale", stale);
    OnePicked(x, keep); OnePicked(y, keep); OnePicked(z, keep);
    PickedConcat([x], [y], keep);
    PickedConcat([x] + [y], [z], keep);
    assert Times(time, stale) == [x] + [y] + [z];
  }

  lemma OnePicked(a: Attr, keep: Bytes -> bool)
    ensures Picked([a], keep) == if a.Good? && keep(a.key) then [a] else []
  {
    assert [a][1..] == [];
  }

  /** Rewriting twice is rewriting once with the later times, so refreshing a cached event again and again
      never accumulates or reorders attributes. */
  lemma RewriteTwice(tokens: seq<Token>, t1: Bytes, s1: Bytes, t2: Bytes, s2: Bytes)
    ensures Rewritten(Rewritten(tokens, t1, s1), t2, s2) == Rewritten(tokens, t2, s2)
  {
    hide Kept;
    forall i | 0 <= i < |tokens|
      ensures RewriteToken(RewriteToken(tokens[i], t1, s1), t2, s2) == RewriteToken(tokens[i], t2, s2)
    {
      var t := tokens[i];
      if (t.Start? || t.Empty?) && t.name == "event" { KeptIdempotent(t.attrs, Times(t1, s1)); }
    }
  }

  // ---- Writing the rewritten tag and reading it again ----

  /** The attributes as they are written: key, and raw value between double quotes. */
  function Written(attrs: seq<Attr>): seq<CotBuilders.Attribute>
    requires forall i | 0 <= i < |attrs| :: attrs[i].Good?
  {
    seq(|attrs|, i requires 0 <= i < |attrs| => (attrs[i].key, attrs[i].raw))
  }

  lemma {:induction false} KeptMembers(attrs: seq<Attr>, a: Attr)
    ensures a in Kept(attrs) <==> a in attrs && Survives(a)
  {
    hide Survives;
    if attrs != [] {
      KeptMembers(attrs[1..], a);
      assert attrs == [attrs[0]] + attrs[1..];
    }
  }

  lemma RewrittenAreGood(attrs: seq<Attr>, time: Bytes, stale: Bytes)
    ensures forall i | 0 <= i < |Kept(attrs) + Times(time, stale)| :: (Kept(attrs) + Times(time, stale))[i].Good?
  {
    hide Kept;
    var kept := Kept(attrs);
    forall i | 0 <= i < |kept| ensures kept[i].Good? { KeptMembers(attrs, kept[i]); }
  }

  /** The bytes written for an event tag are read back as the rewritten attribute values exactly when no value that was
      kept holds a double quote; then what is read from the bytes is what RewritePreservesReading says of the tokens. */
  lemma RewrittenReadsBackIff(attrs: seq<Attr>, time: Bytes, stale: Bytes)
    requires Escaping.Plain(time) && Escaping.Plain(stale)
    requires forall i | 0 <= i < |attrs| && attrs[i].Good? :: CotBuilders.NoQuote(attrs[i].key)
    ensures forall i | 0 <= i < |Kept(attrs) + Times(time, stale)| :: (Kept(attrs) + Times(time, stale))[i].Good?
    ensures var list := Written(Kept(attrs) + Times(time, stale));
            CotBuilders.QuotedValues(CotBuilders.Attrs(list)) == CotBuilders.ValuesOf(list)
            <==> forall i | 0 <= i < |attrs| && Survives(attrs[i]) :: CotBuilders.NoQuote(attrs[i].raw)
  {
    hide Kept, Survives, CotBuilders.QuotedValues, CotBuilders.Attrs, CotBuilders.ValuesOf;
    RewrittenAreGood(attrs, time, stale);
    var kept, times := Kept(attrs), Times(time, stale);
    var list := Written(kept + times);
    forall i | 0 <= i < |times| ensures CotBuilders.NoQuote(times[i].key) && CotBuilders.NoQuote(times[i].raw) {
      TimesHaveNoQuote(time, stale, i);
    }
    forall i | 0 <= i < |kept| ensures kept[i] in attrs && Survives(kept[i]) { KeptMembers(attrs, kept[i]); }
    forall i | 0 <= i < |attrs| && Survives(attrs[i]) ensures attrs[i] in kept { KeptMembers(attrs, attrs[i]); }
    forall i | 0 <= i < |list| ensures CotBuilders.NoQuote(list[i].0) { assert list[i].0 == (kept + times)[i].key; }
    CotBuilders.WrittenAttrsReadBack(list);
    forall i | 0 <= i < |kept| ensures list[i].1 == kept[i].raw {}
    forall i | 0 <= i < |times| ensures list[|kept| + i].1 == times[i].raw {}
  }

  lemma TimesHaveNoQuote(time: Bytes, stale: Bytes, i: nat)
    requires Escaping.Plain(time) && Escaping.Plain(stale) && i < 3
    ensures CotBuilders.NoQuote(Times(time, stale)[i].key) && CotBuilders.NoQuote(Times(time, stale)[i].raw)
  {
  }
}
