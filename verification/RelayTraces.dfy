/** What the trace of a relay says about its shared state, its connections and their sockets. */
module RelayTraces {
  import opened Substrings
  import opened Framing
  import opened Conservation
  import opened Relay
  import CotBuilders

  function Front<T>(s: seq<T>): seq<T> requires s != [] { s[..|s| - 1] }
  function Last<T>(s: seq<T>): T requires s != [] { s[|s| - 1] }

  lemma FrontLast<T>(s: seq<T>, x: T)
    ensures Front(s + [x]) == s && Last(s + [x]) == x
  {
  }

  lemma FrontIn<T>(s: seq<T>)
    requires s != []
    ensures |Front(s)| < |s| && Last(s) in s && forall x | x in Front(s) :: x in s
  {
  }

  lemma Regroup<T>(a: seq<T>, b: seq<T>)
    requires b != []
    ensures a + b == (a + Front(b)) + [Last(b)]
  {
  }

  // ---- Shared state as a function of the trace ----

  function EntryEffect(env: Env, sh: Shared, e: Entry): Shared {
    match e
    case Did(c, op, _, now) => Effect(env, sh, c, op, now)
    case Broke(_, _, _, _, _) => sh
    case Served(msg) => sh.(channel := sh.channel + [msg])
  }

  function SharedOf(env: Env, trace: seq<Entry>): Shared {
    if trace == [] then EMPTY else EntryEffect(env, SharedOf(env, Front(trace)), Last(trace))
  }

  predicate Puts(e: Entry, u: string, event: Bytes) { e.Did? && e.op == PutPresence(u, event) }
  predicate Drops(e: Entry, u: string) { e.Did? && e.op == DropPresence(u) }
  predicate Touches(e: Entry, u: string) { Drops(e, u) || (e.Did? && e.op.PutPresence? && e.op.uid == u) }

  /** Entry `i` writes presence `event` for `u`, and nothing later writes or removes presence for `u`. */
  ghost predicate LastPut(trace: seq<Entry>, i: int, u: string, event: Bytes) {
    0 <= i < |trace| && Puts(trace[i], u, event) && forall j | i < j < |trace| :: !Touches(trace[j], u)
  }

  // What an operation does to each of the maps.

  lemma EffectPresence(env: Env, sh: Shared, c: ConnId, op: Op, now: nat)
    ensures Effect(env, sh, c, op, now).presence == match op
              case PutPresence(u, e) => sh.presence[u := e]
              case DropPresence(u) => sh.presence - {u}
              case _ => sh.presence
  {
  }

  lemma EffectRepeats(env: Env, sh: Shared, c: ConnId, op: Op, now: nat)
    ensures Effect(env, sh, c, op, now).repeated == match op
              case PutRepeat(u, e) => sh.repeated[u := e]
              case _ => sh.repeated
  {
  }

  lemma EffectFound(env: Env, sh: Shared, c: ConnId, op: Op, now: nat)
    ensures Effect(env, sh, c, op, now).uidToConn == match op
              case SetUid(u) => sh.uidToConn[u := c]
              case DropUid(u) => sh.uidToConn - {u}
              case _ => sh.uidToConn
  {
  }

  lemma EntryPresence(env: Env, sh: Shared, e: Entry, u: string, event: Bytes)
    ensures var p := EntryEffect(env, sh, e).presence;
            (u in p && p[u] == event) <==>
              (if Touches(e, u) then Puts(e, u, event) else u in sh.presence && sh.presence[u] == event)
    ensures Puts(e, u, event) ==> Touches(e, u)
  {
    hide Effect;
    if e.Did? { EffectPresence(env, sh, e.conn, e.op, e.now); }
  }

  /** `presence_cache[u]` is exactly the last presence event of `u` not followed by a removal of `u`. */
  lemma {:induction false} PresenceIsLastPut(env: Env, trace: seq<Entry>, u: string, event: Bytes)
    ensures var p := SharedOf(env, trace).presence;
            (u in p && p[u] == event) <==> exists i :: LastPut(trace, i, u, event)
  {
    hide EntryEffect, Touches, Puts;
    if trace != [] {
      var t, e := Front(trace), Last(trace);
      PresenceIsLastPut(env, t, u, event);
      EntryPresence(env, SharedOf(env, t), e, u, event);
      if Touches(e, u) {
        assert forall i | LastPut(trace, i, u, event) :: i == |trace| - 1;
        if Puts(e, u, event) { assert LastPut(trace, |trace| - 1, u, event); }
      } else {
        forall i | LastPut(t, i, u, event) ensures LastPut(trace, i, u, event) {}
        forall i | LastPut(trace, i, u, event) ensures LastPut(t, i, u, event) {}
      }
    }
  }

  predicate Repeats(e: Entry, u: string, event: Bytes) { e.Did? && e.op == PutRepeat(u, event) }
  predicate RepeatsAny(e: Entry, u: string) { e.Did? && e.op.PutRepeat? && e.op.uid == u }

  ghost predicate LastRepeat(trace: seq<Entry>, i: int, u: string, event: Bytes) {
    0 <= i < |trace| && Repeats(trace[i], u, event) && forall j | i < j < |trace| :: !RepeatsAny(trace[j], u)
  }

  lemma EntryRepeats(env: Env, sh: Shared, e: Entry, u: string, event: Bytes)
    ensures var p := EntryEffect(env, sh, e).repeated;
            (u in p && p[u] == event) <==>
              (if RepeatsAny(e, u) then Repeats(e, u, event) else u in sh.repeated && sh.repeated[u] == event)
    ensures Repeats(e, u, event) ==> RepeatsAny(e, u)
  {
    hide Effect;
    if e.Did? { EffectRepeats(env, sh, e.conn, e.op, e.now); }
  }

  /** `repeat_cache` is the last-write-wins projection of the repeatable events. */
  lemma {:induction false} RepeatIsLastWrite(env: Env, trace: seq<Entry>, u: string, event: Bytes)
    ensures var p := SharedOf(env, trace).repeated;
            (u in p && p[u] == event) <==> exists i :: LastRepeat(trace, i, u, event)
  {
    hide EntryEffect, RepeatsAny, Repeats;
    if trace != [] {
      var t, e := Front(trace), Last(trace);
      RepeatIsLastWrite(env, t, u, event);
      EntryRepeats(env, SharedOf(env, t), e, u, event);
      if RepeatsAny(e, u) {
        assert forall i | LastRepeat(trace, i, u, event) :: i == |trace| - 1;
        if Repeats(e, u, event) { assert LastRepeat(trace, |trace| - 1, u, event); }
      } else {
        forall i | LastRepeat(t, i, u, event) ensures LastRepeat(trace, i, u, event) {}
        forall i | LastRepeat(trace, i, u, event) ensures LastRepeat(t, i, u, event) {}
      }
    }
  }

  predicate Sets(e: Entry, u: string, c: ConnId) { e.Did? && e.conn == c && e.op == SetUid(u) }
  predicate SetsOrDrops(e: Entry, u: string) { e.Did? && (e.op == SetUid(u) || e.op == DropUid(u)) }

  ghost predicate LastSet(trace: seq<Entry>, i: int, u: string, c: ConnId) {
    0 <= i < |trace| && Sets(trace[i], u, c) && forall j | i < j < |trace| :: !SetsOrDrops(trace[j], u)
  }

  lemma EntryFound(env: Env, sh: Shared, e: Entry, u: string, c: ConnId)
    ensures var m := EntryEffect(env, sh, e).uidToConn;
            (u in m && m[u] == c) <==>
              (if SetsOrDrops(e, u) then Sets(e, u, c) else u in sh.uidToConn && sh.uidToConn[u] == c)
    ensures Sets(e, u, c) ==> SetsOrDrops(e, u)
  {
    hide Effect;
    if e.Did? { EffectFound(env, sh, e.conn, e.op, e.now); }
  }

  /** `uid_to_conn[u]` is exactly the connection that last announced `u`, if no cleanup of `u` came since. */
  lemma {:induction false} FoundIsLastSet(env: Env, trace: seq<Entry>, u: string, c: ConnId)
    ensures var m := SharedOf(env, trace).uidToConn;
            (u in m && m[u] == c) <==> exists i :: LastSet(trace, i, u, c)
  {
    hide EntryEffect, Sets, SetsOrDrops;
    if trace != [] {
      var t, e := Front(trace), Last(trace);
      FoundIsLastSet(env, t, u, c);
      EntryFound(env, SharedOf(env, t), e, u, c);
      if SetsOrDrops(e, u) {
        assert forall i | LastSet(trace, i, u, c) :: i == |trace| - 1;
        if Sets(e, u, c) { assert LastSet(trace, |trace| - 1, u, c); }
      } else {
        forall i | LastSet(t, i, u, c) ensures LastSet(trace, i, u, c) {}
        forall i | LastSet(trace, i, u, c) ensures LastSet(t, i, u, c) {}
      }
    }
  }

  // ---- The operations of one connection ----

  function DoneBy(trace: seq<Entry>, c: ConnId): seq<Op> {
    if trace == [] then []
    else
      var before := DoneBy(Front(trace), c);
      var e := Last(trace);
      if e.Did? && e.conn == c then before + [e.op] else before
  }

  /** Its operations including one whose socket write failed. */
  function TriedBy(trace: seq<Entry>, c: ConnId): seq<Op> {
    if trace == [] then []
    else
      var before := TriedBy(Front(trace), c);
      var e := Last(trace);
      if !e.Served? && e.conn == c then before + [e.op] else before
  }

  /** The uid a connection is registered under after its own operations. */
  function UidAfter(ops: seq<Op>): Option<string> {
    if ops == [] then None
    else match Last(ops)
      case SetState(u, _) => Some(u)
      case TakeState => None
      case _ => UidAfter(Front(ops))
  }

  lemma EntryUid(env: Env, sh: Shared, e: Entry, c: ConnId)
    ensures UidOf(EntryEffect(env, sh, e), c) ==
              if e.Did? && e.conn == c && e.op.SetState? then Some(e.op.uid)
              else if e.Did? && e.conn == c && e.op.TakeState? then None
              else UidOf(sh, c)
  {
  }

  /** Only a connection's own operations decide the uid it is registered under. */
  lemma {:induction false} UidIsOwn(env: Env, trace: seq<Entry>, c: ConnId)
    ensures UidOf(SharedOf(env, trace), c) == UidAfter(DoneBy(trace, c))
  {
    hide EntryEffect;
    if trace != [] {
      var t, e := Front(trace), Last(trace);
      UidIsOwn(env, t, c);
      EntryUid(env, SharedOf(env, t), e, c);
      if e.Did? && e.conn == c { FrontLast(DoneBy(t, c), e.op); }
    }
  }

  /** The lines a connection's operations wrote to its socket, each with the caches of that moment. */
  ghost function Written(env: Env, trace: seq<Entry>, c: ConnId): seq<Line> {
    if trace == [] then []
    else
      var before := Written(env, Front(trace), c);
      var sh := SharedOf(env, Front(trace));
      match Last(trace)
      case Did(d, op, order, now) =>
        if d == c then before + LinesOf(env, sh, op, order, now) else before
      case Broke(d, op, k, order, now) =>
        var lines := LinesOf(env, sh, op, order, now);
        if d == c && k <= |lines| then before + lines[..k] else before
      case Served(_) => before
  }

  /** The channel positions in `[lo, hi)` not sent by `c`, in order. */
  function Visible(channel: seq<Msg>, lo: nat, hi: nat, c: ConnId): seq<nat>
    requires hi <= |channel|
  {
    if hi <= lo then []
    else Visible(channel, lo, hi - 1, c) + (if channel[hi - 1].from == c then [] else [hi - 1])
  }

  lemma {:induction false} VisibleAppend(channel: seq<Msg>, more: seq<Msg>, lo: nat, hi: nat, c: ConnId)
    requires hi <= |channel|
    ensures Visible(channel + more, lo, hi, c) == Visible(channel, lo, hi, c)
  {
    if hi > lo { VisibleAppend(channel, more, lo, hi - 1, c); }
  }

  function OwnLines(out: seq<Line>): seq<Line> {
    if out == [] then []
    else if Last(out).Relayed? then OwnLines(Front(out))
    else OwnLines(Front(out)) + [Last(out)]
  }

  function RelayedIndices(out: seq<Line>): seq<nat> {
    if out == [] then []
    else if Last(out).Relayed? then RelayedIndices(Front(out)) + [Last(out).index]
    else RelayedIndices(Front(out))
  }

  lemma OwnSnoc(out: seq<Line>, l: Line)
    requires !l.Relayed?
    ensures OwnLines(out + [l]) == OwnLines(out) + [l] && RelayedIndices(out + [l]) == RelayedIndices(out)
  {
    FrontLast(out, l);
  }

  lemma {:induction false} OwnWrites(out: seq<Line>, lines: seq<Line>)
    requires forall l | l in lines :: !l.Relayed?
    ensures OwnLines(out + lines) == OwnLines(out) + lines
    ensures RelayedIndices(out + lines) == RelayedIndices(out)
    decreases |lines|
  {
    hide OwnLines, RelayedIndices, Front, Last;
    if lines == [] {
      assert out + lines == out;
    } else {
      FrontIn(lines);
      OwnWrites(out, Front(lines));
      OwnSnoc(out + Front(lines), Last(lines));
      Regroup(out, lines);
      Regroup(OwnLines(out), lines);
    }
  }

  lemma LinesAreOwn(env: Env, sh: Shared, op: Op, order: seq<string>, now: nat)
    ensures forall l | l in LinesOf(env, sh, op, order, now) :: !l.Relayed?
  {
  }

  // ---- The invariant of one connection ----

  ghost function Program(env: Env, conn: Conn): seq<Op> {
    var prog := Compile(env, Feed([], conn.received).events, false);
    if conn.phase == Closing then prog + EofOps(UidAfter(prog)) else prog
  }

  /** A connection has done, and has left to do, exactly the program of the bytes it read. */
  ghost predicate ProgramOk(env: Env, trace: seq<Entry>, c: ConnId, conn: Conn) {
    var f := Feed([], conn.received);
    && conn.pending == f.rest
    && conn.replaySent == AnyParsed(env, f.events)
    && DoneBy(trace, c) <= TriedBy(trace, c)
    && (if conn.phase == Dead then TriedBy(trace, c) <= Program(env, conn)
        else TriedBy(trace, c) == DoneBy(trace, c) && DoneBy(trace, c) + conn.todo == Program(env, conn))
  }

  ghost predicate Ascending(s: seq<nat>, lo: nat, hi: nat) {
    && (forall i | 0 <= i < |s| :: lo <= s[i] < hi)
    && forall i, j | 0 <= i < j < |s| :: s[i] < s[j]
  }

  /** Everything on the socket is what its operations wrote, or a message of the channel. */
  ghost predicate OutputOk(env: Env, channel: seq<Msg>, trace: seq<Entry>, c: ConnId, conn: Conn) {
    && conn.since <= conn.cursor <= |channel|
    && OwnLines(conn.out) == Written(env, trace, c)
    && Ascending(RelayedIndices(conn.out), conn.since, conn.cursor)
    && (forall l | l in conn.out && l.Relayed? ::
          l.index < |channel| && channel[l.index].from != c && channel[l.index].bytes == l.data)
    && (!conn.lagged ==> RelayedIndices(conn.out) == Visible(channel, conn.since, conn.cursor, c))
  }

  ghost predicate ConnOk(env: Env, s: State, c: ConnId)
    requires c in s.conns
  {
    ProgramOk(env, s.trace, c, s.conns[c]) && OutputOk(env, s.shared.channel, s.trace, c, s.conns[c])
  }

  ghost predicate Inv(env: Env, s: State) {
    && 0 < s.nextId
    && (forall c | c in s.conns :: 0 < c < s.nextId && ConnOk(env, s, c))
    && (forall c | c !in s.conns ::
          TriedBy(s.trace, c) == [] && DoneBy(s.trace, c) == [] && Written(env, s.trace, c) == [])
    && s.shared == SharedOf(env, s.trace)
    && (forall e | e in s.trace && e.Served? :: ServedOk(e.msg))
    && (forall p | p in s.shares :: PendingOk(env, s.trace, p))
  }

  /** A message that the server makes by itself. */
  ghost predicate ServedOk(m: Msg) {
    && (m.origin.Refreshed? || m.origin.Emergency? || m.origin.FileShare?)
    && (m.origin.Refreshed? || m.origin.Emergency? ==> m.from == 0)
    && (m.origin.Emergency? ==>
          CotBuilders.PlainAlert(m.origin.alert) && m.bytes == CotBuilders.EmergencyCot(m.origin.alert))
    && (m.origin.FileShare? ==>
          && CotBuilders.PlainStamp(m.origin.stamp)
          && m.bytes == CotBuilders.FileshareCot(m.origin.share, m.origin.stamp))
  }

  /** The sender of a pending file share is the connection that its uid was found under at lookup. */
  ghost predicate PendingOk(env: Env, trace: seq<Entry>, p: Pending) {
    && p.at <= |trace| && p.msg.from == FromOf(SharedOf(env, trace[..p.at]), p.uid)
    && p.msg.origin.FileShare? && p.msg.origin.share.uid == p.uid && ServedOk(p.msg)
  }

  lemma PendingStays(env: Env, trace: seq<Entry>, e: Entry, shares: seq<Pending>)
    requires forall p | p in shares :: PendingOk(env, trace, p)
    ensures forall p | p in shares :: PendingOk(env, trace + [e], p)
  {
    hide SharedOf, ServedOk;
    forall p | p in shares ensures PendingOk(env, trace + [e], p) { assert (trace + [e])[..p.at] == trace[..p.at]; }
  }

  // ---- Growth of the trace and of the channel ----

  lemma TraceSnoc(env: Env, trace: seq<Entry>, e: Entry, c: ConnId)
    ensures SharedOf(env, trace + [e]) == EntryEffect(env, SharedOf(env, trace), e)
    ensures DoneBy(trace + [e], c) == DoneBy(trace, c) + (if e.Did? && e.conn == c then [e.op] else [])
    ensures TriedBy(trace + [e], c) == TriedBy(trace, c) + (if !e.Served? && e.conn == c then [e.op] else [])
    ensures (e.Served? || e.conn != c) ==> Written(env, trace + [e], c) == Written(env, trace, c)
    ensures e.Did? && e.conn == c ==>
              Written(env, trace + [e], c)
              == Written(env, trace, c) + LinesOf(env, SharedOf(env, trace), e.op, e.order, e.now)
  {
    hide Effect, LinesOf;
    FrontLast(trace, e);
  }

  /** An entry by another connection or the server leaves a connection's invariant alone. */
  lemma OtherEntry(env: Env, channel: seq<Msg>, more: seq<Msg>, trace: seq<Entry>, e: Entry, c: ConnId, conn: Conn)
    requires e.Served? || e.conn != c
    requires ProgramOk(env, trace, c, conn) && OutputOk(env, channel, trace, c, conn)
    ensures ProgramOk(env, trace + [e], c, conn) && OutputOk(env, channel + more, trace + [e], c, conn)
  {
    hide Compile, Feed, Visible, OwnLines, RelayedIndices, SharedOf, Written, DoneBy, TriedBy;
    TraceSnoc(env, trace, e, c);
    VisibleAppend(channel, more, conn.since, conn.cursor, c);
  }

  lemma EffectAppends(env: Env, sh: Shared, c: ConnId, op: Op, now: nat) returns (more: seq<Msg>)
    ensures Effect(env, sh, c, op, now).channel == sh.channel + more
    ensures forall m | m in more ::
              m.origin.FromClient?
              || (m.origin.Farewell? && m.bytes == env.disconnect(m.origin.uid, m.origin.now))
  {
    more := match op
      case Send(e) => [Msg(c, e, FromClient)]
      case SendDisconnect(u) => [Msg(c, env.disconnect(u, now), Farewell(u, now))]
      case _ => [];
  }

  // ---- Reading more bytes extends the program ----

  lemma {:induction false} FeedSnoc(carry: Bytes, chunks: seq<Bytes>, x: Bytes)
    ensures var f := Feed(carry, chunks);
            Feed(carry, chunks + [x]) == Frames(f.events + Extract(f.rest + x).events, Extract(f.rest + x).rest)
    decreases |chunks|
  {
    hide Extract;
    if chunks == [] {
      assert chunks + [x] == [x] && [x][1..] == [];
      var g := Extract(carry + x);
      assert Feed(g.rest, []) == Frames([], g.rest);
      assert g.events + [] == g.events && [] + g.events == g.events;
    } else {
      var now := Extract(carry + chunks[0]);
      assert (chunks + [x])[1..] == chunks[1..] + [x] && (chunks + [x])[0] == chunks[0];
      FeedSnoc(now.rest, chunks[1..], x);
    }
  }

  lemma {:induction false} CompileConcat(env: Env, a: seq<Bytes>, b: seq<Bytes>, sent: bool)
    ensures Compile(env, a + b, sent) == Compile(env, a, sent) + Compile(env, b, sent || AnyParsed(env, a))
    decreases |a|
  {
    hide EventOps, ReplayOps, Parsed, AnyParsed, Strip;
    if a == [] {
      assert a + b == b && !AnyParsed(env, a) by { NoneParsed(env); }
    } else {
      assert (a + b)[1..] == a[1..] + b && (a + b)[0] == a[0];
      AnyParsedHead(env, a);
      match Parsed(env, a[0])
      case None => CompileConcat(env, a[1..], b, sent);
      case Some(cot) =>
        CompileConcat(env, a[1..], b, true);
        var first := ReplayOps(cot, sent) + EventOps(cot, Strip(a[0]));
        var x, y := Compile(env, a[1..], true), Compile(env, b, true);
        assert first + (x + y) == (first + x) + y;
    }
  }

  lemma NoneParsed(env: Env)
    ensures !AnyParsed(env, [])
  {
  }

  lemma AnyParsedHead(env: Env, a: seq<Bytes>)
    requires a != []
    ensures AnyParsed(env, a) <==> Parsed(env, a[0]).Some? || AnyParsed(env, a[1..])
  {
    hide Parsed;
    if AnyParsed(env, a) {
      var i :| 0 <= i < |a| && Parsed(env, a[i]).Some?;
      if i > 0 { assert Parsed(env, a[1..][i - 1]).Some?; }
    }
    if AnyParsed(env, a[1..]) {
      var i :| 0 <= i < |a[1..]| && Parsed(env, a[1..][i]).Some?;
      assert Parsed(env, a[i + 1]).Some?;
    }
  }

  lemma AnyParsedConcat(env: Env, a: seq<Bytes>, b: seq<Bytes>)
    ensures AnyParsed(env, a + b) <==> AnyParsed(env, a) || AnyParsed(env, b)
  {
    hide Parsed;
    forall i | 0 <= i < |a| && Parsed(env, a[i]).Some? ensures AnyParsed(env, a + b) { assert (a + b)[i] == a[i]; }
    forall i | 0 <= i < |b| && Parsed(env, b[i]).Some? ensures AnyParsed(env, a + b) {
      assert (a + b)[|a| + i] == b[i];
    }
  }
}
