/** What every run of the relay guarantees, in terms of the bytes each connection read. */
module RelayTheorems {
  import opened Substrings
  import opened Framing
  import opened Conservation
  import opened Relay
  import opened RelayTraces
  import opened RelayRuns
  import CotBuilders
  import Escaping
  import EventText

  /** The frames a connection has cut from its reads. */
  ghost function FramesOf(conn: Conn): seq<Bytes> { Feed([], conn.received).events }

  // ---- Where an operation comes from ----

  lemma {:induction false} CompiledFrom(env: Env, frames: seq<Bytes>, sent: bool, op: Op) returns (i: nat)
    requires op in Compile(env, frames, sent)
    ensures i < |frames| && Parsed(env, frames[i]).Some?
    ensures var cot := Parsed(env, frames[i]).value;
            op in EventOps(cot, Strip(frames[i])) || op.ReplayPresence? || op.ReplayRepeat?
    decreases |frames|
  {
    hide EventOps, Parsed, Strip;
    match Parsed(env, frames[0])
    case None => i := CompiledFrom(env, frames[1..], sent, op); i := i + 1;
    case Some(cot) =>
      if op in ReplayOps(cot, sent) || op in EventOps(cot, Strip(frames[0])) { i := 0; }
      else { i := CompiledFrom(env, frames[1..], true, op); i := i + 1; }
  }

  lemma {:induction false} DoneAt(trace: seq<Entry>, i: nat)
    requires i < |trace| && trace[i].Did?
    ensures trace[i].op in DoneBy(trace, trace[i].conn)
    decreases |trace|
  {
    if i < |trace| - 1 {
      DoneAt(Front(trace), i);
    }
  }

  /** Frame `i` is a presence event, or a disconnect event, about `uid`. */
  ghost predicate SaysPresence(env: Env, frames: seq<Bytes>, i: nat, uid: string) {
    i < |frames| && Parsed(env, frames[i]).Some? && Parsed(env, frames[i]).value.uid == uid
    && IsPresence(Parsed(env, frames[i]).value.kind)
  }

  ghost predicate SaysDisconnect(env: Env, frames: seq<Bytes>, i: nat, uid: string) {
    i < |frames| && Parsed(env, frames[i]).Some? && Parsed(env, frames[i]).value.uid == uid
    && Parsed(env, frames[i]).value.kind == DISCONNECT
  }

  /** Frame `i` is an event about `uid` that is to be repeated. */
  ghost predicate SaysRepeat(env: Env, frames: seq<Bytes>, i: nat, uid: string) {
    i < |frames| && Parsed(env, frames[i]).Some? && Parsed(env, frames[i]).value.uid == uid
    && ShouldRepeat(Parsed(env, frames[i]).value.kind) && !IsPresence(Parsed(env, frames[i]).value.kind)
  }

  /** Every trace entry is an operation of the program of the bytes that its connection read. */
  lemma EntryInProgram(env: Env, s: State, i: nat)
    requires Reachable(env, s) && i < |s.trace| && s.trace[i].Did?
    ensures var c := s.trace[i].conn; c in s.conns && s.trace[i].op in Program(env, s.conns[c])
  {
    hide DoneBy, TriedBy, Written, SharedOf, Program, ConnOk;
    var c := s.trace[i].conn;
    DoneAt(s.trace, i);
    assert c in s.conns by { ReachableKeeps(env, s); }
    DoneIsPrefix(env, s, c);
  }

  /** What a connection has done is a prefix of the program of the bytes it read, and all of it
      when it did not break and has nothing left to do. */
  lemma DoneIsPrefix(env: Env, s: State, c: ConnId)
    requires Reachable(env, s) && c in s.conns
    ensures DoneBy(s.trace, c) <= Program(env, s.conns[c])
    ensures s.conns[c].phase != Dead && s.conns[c].todo == [] ==> DoneBy(s.trace, c) == Program(env, s.conns[c])
  {
    hide DoneBy, TriedBy, Written, SharedOf, AnyParsed, Program, OutputOk, Feed;
    ReachableKeeps(env, s);
    assert ConnOk(env, s, c);
    assert DoneBy(s.trace, c) + [] == DoneBy(s.trace, c);
    assert DoneBy(s.trace, c) <= DoneBy(s.trace, c) + s.conns[c].todo;
  }

  /** A presence entry is a presence event of the connection's own stream, a repeat entry one of its markers;
      a removal is a `t-x-d-d` event of its stream, or the cleanup of a connection that last announced that uid. */
  lemma CacheEntriesComeFromStreams(env: Env, s: State, i: nat)
    requires Reachable(env, s) && i < |s.trace| && s.trace[i].Did?
    ensures s.trace[i].conn in s.conns
    ensures var e, frames := s.trace[i], FramesOf(s.conns[s.trace[i].conn]);
            e.op.PutPresence? ==>
              exists k: nat :: SaysPresence(env, frames, k, e.op.uid) && e.op.event == Strip(frames[k])
    ensures var e, frames := s.trace[i], FramesOf(s.conns[s.trace[i].conn]);
            e.op.PutRepeat? ==>
              exists k: nat :: SaysRepeat(env, frames, k, e.op.uid) && e.op.event == Strip(frames[k])
    ensures var e, conn := s.trace[i], s.conns[s.trace[i].conn];
            e.op.DropPresence? ==>
              || (exists k: nat :: SaysDisconnect(env, FramesOf(conn), k, e.op.uid))
              || (conn.phase == Closing && UidAfter(Compile(env, FramesOf(conn), false)) == Some(e.op.uid))
  {
    hide DoneBy, TriedBy, Compile, Feed, Written, SharedOf, AnyParsed, UidAfter, Strip, Parsed, EventOps, Reachable,
         SaysPresence, SaysDisconnect, SaysRepeat;
    EntryInProgram(env, s, i);
    var e := s.trace[i];
    var conn := s.conns[e.conn];
    var frames := FramesOf(conn);
    if WritesCache(e.op) && e.op in Compile(env, frames, false) {
      var k := CompiledFrom(env, frames, false, e.op);
      CacheOpSays(env, frames, k, e.op);
    }
  }

  lemma CacheOpSays(env: Env, frames: seq<Bytes>, k: nat, op: Op)
    requires k < |frames| && Parsed(env, frames[k]).Some?
    requires op in EventOps(Parsed(env, frames[k]).value, Strip(frames[k]))
    ensures op.PutPresence? ==> SaysPresence(env, frames, k, op.uid) && op.event == Strip(frames[k])
    ensures op.PutRepeat? ==> SaysRepeat(env, frames, k, op.uid) && op.event == Strip(frames[k])
    ensures op.DropPresence? ==> SaysDisconnect(env, frames, k, op.uid)
  {
    hide Strip, Parsed, IsPresence, ShouldRepeat, IsWinTak;
  }

  /** In every interleaving the caches are the last-write projections of the trace. */
  lemma CachesAreProjections(env: Env, s: State, u: string, event: Bytes)
    requires Reachable(env, s)
    ensures (u in s.shared.presence && s.shared.presence[u] == event) <==> exists i :: LastPut(s.trace, i, u, event)
    ensures (u in s.shared.repeated && s.shared.repeated[u] == event) <==> exists i :: LastRepeat(s.trace, i, u, event)
  {
    hide SharedOf, LastPut, LastRepeat, ConnOk, TriedBy, DoneBy, Written;
    ReachableKeeps(env, s);
    PresenceIsLastPut(env, s.trace, u, event);
    RepeatIsLastWrite(env, s.trace, u, event);
  }

  // ---- What enters the channel ----

  function Sends(ops: seq<Op>): seq<Bytes> {
    if ops == [] then []
    else if Last(ops).Send? then Sends(Front(ops)) + [Last(ops).event]
    else Sends(Front(ops))
  }

  /** The client events of connection `c` in the channel. */
  function ClientMessages(channel: seq<Msg>, c: ConnId): seq<Bytes> {
    if channel == [] then []
    else if Last(channel).origin.FromClient? && Last(channel).from == c then
      ClientMessages(Front(channel), c) + [Last(channel).bytes]
    else ClientMessages(Front(channel), c)
  }

  /** The parsed frames that are neither pings nor pongs. */
  function Broadcasts(env: Env, frames: seq<Bytes>): seq<Bytes> {
    if frames == [] then []
    else
      var more := Broadcasts(env, frames[1..]);
      match Parsed(env, frames[0])
      case None => more
      case Some(cot) => if cot.kind == PING || cot.kind == PONG then more else [Strip(frames[0])] + more
  }

  lemma {:induction false} SendsConcat(a: seq<Op>, b: seq<Op>)
    ensures Sends(a + b) == Sends(a) + Sends(b)
    decreases |b|
  {
    if b == [] { assert a + b == a; }
    else {
      SendsConcat(a, Front(b));
      FrontLast(a + Front(b), Last(b));
      assert a + b == (a + Front(b)) + [Last(b)];
    }
  }

  lemma {:induction false} NoSends(ops: seq<Op>)
    requires forall op | op in ops :: !op.Send?
    ensures Sends(ops) == []
  {
    if ops != [] { NoSends(Front(ops)); }
  }

  /** The program of an event sends it exactly when it is neither ping nor pong, and once. */
  lemma EventSendsOnce(cot: Cot, event: Bytes)
    ensures Sends(EventOps(cot, event)) == if cot.kind == PING || cot.kind == PONG then [] else [event]
  {
    hide Sends, IsPresence, ShouldRepeat, IsWinTak;
    var ops := EventOps(cot, event);
    if ops != [] && Last(ops).Send? {
      NoSends(Front(ops));
      SendsLast(ops);
    } else {
      NoSends(ops);
    }
  }

  lemma SendsLast(ops: seq<Op>)
    requires ops != [] && Last(ops).Send?
    ensures Sends(ops) == Sends(Front(ops)) + [Last(ops).event]
  {
  }

  lemma {:induction false} SendsOfProgram(env: Env, frames: seq<Bytes>, sent: bool)
    ensures Sends(Compile(env, frames, sent)) == Broadcasts(env, frames)
    decreases |frames|
  {
    hide Sends, EventOps, Parsed, Strip;
    if frames == [] { NoSends(Compile(env, frames, sent)); }
    else {
      match Parsed(env, frames[0])
      case None => SendsOfProgram(env, frames[1..], sent);
      case Some(cot) =>
        SendsOfProgram(env, frames[1..], true);
        var replay, ops, more := ReplayOps(cot, sent), EventOps(cot, Strip(frames[0])), Compile(env, frames[1..], true);
        SendsConcat(replay + ops, more);
        SendsConcat(replay, ops);
        NoSends(replay);
        EventSendsOnce(cot, Strip(frames[0]));
    }
  }

  lemma {:induction false} ChannelIsSends(env: Env, trace: seq<Entry>, c: ConnId)
    requires forall e | e in trace && e.Served? :: !e.msg.origin.FromClient?
    ensures ClientMessages(SharedOf(env, trace).channel, c) == Sends(DoneBy(trace, c))
  {
    if trace != [] {
      var t, e := Front(trace), Last(trace);
      assert forall x | x in t :: x in trace;
      ChannelIsSends(env, t, c);
      ChannelSnoc(env, SharedOf(env, t), e, c);
      if e.Did? && e.conn == c { FrontLast(DoneBy(t, c), e.op); }
    }
  }

  lemma ChannelSnoc(env: Env, sh: Shared, e: Entry, c: ConnId)
    requires e.Served? ==> !e.msg.origin.FromClient?
    ensures ClientMessages(EntryEffect(env, sh, e).channel, c)
         == ClientMessages(sh.channel, c) + (if e.Did? && e.conn == c && e.op.Send? then [e.op.event] else [])
  {
    hide ClientMessages;
    match e
    case Served(m) => MessagesSnoc(sh.channel, m, c);
    case Broke(_, _, _, _, _) =>
    case Did(d, op, _, now) =>
      match op
      case Send(x) => MessagesSnoc(sh.channel, Msg(d, x, FromClient), c);
      case SendDisconnect(u) => MessagesSnoc(sh.channel, Msg(d, env.disconnect(u, now), Farewell(u, now)), c);
      case _ =>
  }

  lemma MessagesSnoc(channel: seq<Msg>, m: Msg, c: ConnId)
    ensures ClientMessages(channel + [m], c)
         == ClientMessages(channel, c) + (if m.origin.FromClient? && m.from == c then [m.bytes] else [])
  {
    FrontLast(channel, m);
  }

  /** Every parsed event that is neither ping nor pong enters the channel exactly once, in stream order:
      for a connection with nothing left to do, its channel messages are exactly those events, and in
      every state they are a prefix of them. */
  lemma ExactlyOnceInOrder(env: Env, s: State, c: ConnId)
    requires Reachable(env, s) && c in s.conns
    ensures ClientMessages(s.shared.channel, c) <= Broadcasts(env, FramesOf(s.conns[c]))
    ensures s.conns[c].phase != Dead && s.conns[c].todo == [] ==>
              ClientMessages(s.shared.channel, c) == Broadcasts(env, FramesOf(s.conns[c]))
  {
    hide Sends, DoneBy, Program, ClientMessages, Broadcasts, SharedOf, TriedBy, Written, ConnOk, FramesOf;
    ReachableKeeps(env, s);
    ChannelIsSends(env, s.trace, c);
    DoneIsPrefix(env, s, c);
    ProgramSends(env, s.conns[c]);
    var done, full := DoneBy(s.trace, c), Program(env, s.conns[c]);
    assert done + full[|done|..] == full;
    SendsConcat(done, full[|done|..]);
  }

  lemma ProgramSends(env: Env, conn: Conn)
    ensures Sends(Program(env, conn)) == Broadcasts(env, FramesOf(conn))
  {
    hide Sends, Compile, Feed, UidAfter, Broadcasts, EofOps;
    var prog := Compile(env, FramesOf(conn), false);
    SendsOfProgram(env, FramesOf(conn), false);
    if conn.phase == Closing {
      EofSendsNothing(UidAfter(prog));
      SendsConcat(prog, EofOps(UidAfter(prog)));
    }
  }

  lemma EofSendsNothing(uid: Option<string>)
    ensures Sends(EofOps(uid)) == []
  {
    NoSends(EofOps(uid));
  }

  /** Nor does it matter how the client's stream was cut into reads, when no frame is ambiguous. */
  lemma ChunkingDoesNotMatter(env: Env, s: State, c: ConnId)
    requires Reachable(env, s) && Idle(s, c)
    requires AllUnambiguous(Extract(Concat(s.conns[c].received)).events)
    ensures ClientMessages(s.shared.channel, c) == Broadcasts(env, Extract(Concat(s.conns[c].received)).events)
  {
    hide Sends, Compile, Feed, Extract, ClientMessages, Broadcasts, AllUnambiguous, Concat;
    ExactlyOnceInOrder(env, s, c);
    ChunkInvariance(Concat(s.conns[c].received));
    assert Feed([], s.conns[c].received) == Extract(Concat(s.conns[c].received));
  }

  // ---- What reaches a socket ----

  lemma VisibleNext(channel: seq<Msg>, lo: nat, hi: nat, c: ConnId)
    requires lo < hi <= |channel|
    ensures Visible(channel, lo, hi, c)
         == Visible(channel, lo, hi - 1, c) + (if channel[hi - 1].from == c then [] else [hi - 1])
  {
  }

  lemma {:induction false} VisibleIff(channel: seq<Msg>, lo: nat, hi: nat, c: ConnId, i: nat)
    requires hi <= |channel|
    ensures i in Visible(channel, lo, hi, c) <==> lo <= i < hi && channel[i].from != c
  {
    if hi > lo {
      VisibleIff(channel, lo, hi - 1, c, i);
      var front, last := Visible(channel, lo, hi - 1, c), if channel[hi - 1].from == c then [] else [hi - 1];
      hide Visible;
      VisibleNext(channel, lo, hi, c);
      assert i in front + last <==> i in front || i in last;
    }
  }

  /** Relayed lines are channel messages of other senders, in channel order, each at most once;
      a connection that never lagged got every one up to its cursor, server messages included. */
  lemma RelayedLines(env: Env, s: State, c: ConnId)
    requires Reachable(env, s) && c in s.conns
    ensures var conn := s.conns[c];
            && c != 0
            && Ascending(RelayedIndices(conn.out), conn.since, conn.cursor)
            && (forall l | l in conn.out && l.Relayed? :: l.index < |s.shared.channel|
                 && s.shared.channel[l.index].from != c && s.shared.channel[l.index].bytes == l.data)
            && conn.cursor <= |s.shared.channel|
            && (!conn.lagged ==> forall i: nat | conn.since <= i < conn.cursor ::
                 i in RelayedIndices(conn.out) <==> s.shared.channel[i].from != c)
  {
    hide SharedOf, DoneBy, TriedBy, Written, ProgramOk, Visible, RelayedIndices, OwnLines;
    ReachableKeeps(env, s);
    assert ConnOk(env, s, c);
    var conn := s.conns[c];
    forall i: nat | !conn.lagged && conn.since <= i < conn.cursor
      ensures i in RelayedIndices(conn.out) <==> s.shared.channel[i].from != c
    {
      VisibleIff(s.shared.channel, conn.since, conn.cursor, c, i);
    }
  }

  /** Connection ids are handed out once and are never 0, the sender of server messages. */
  lemma IdsAreFresh(env: Env, s: State)
    requires Reachable(env, s)
    ensures s.nextId !in s.conns && 0 !in s.conns && s.nextId != 0
    ensures Apply(env, s, Accept).conns.Keys == s.conns.Keys + {s.nextId} && Apply(env, s, Accept).nextId > s.nextId
  {
    hide ConnOk, SharedOf, DoneBy, TriedBy, Written;
    ReachableKeeps(env, s);
  }

  predicate IsReplay(op: Op) { op.ReplayPresence? || op.ReplayRepeat? }

  /** The uid of the first event the server could parse. */
  function FirstUid(env: Env, frames: seq<Bytes>): Option<string> {
    if frames == [] then None
    else match Parsed(env, frames[0])
      case None => FirstUid(env, frames[1..])
      case Some(cot) => Some(cot.uid)
  }

  lemma {:induction false} NoReplayOnceSent(env: Env, frames: seq<Bytes>)
    ensures forall op | op in Compile(env, frames, true) :: !IsReplay(op)
  {
    hide Parsed, Strip;
    if frames != [] { NoReplayOnceSent(env, frames[1..]); }
  }

  /** A program replays the caches at most once, before everything else,
      and does so exactly when the first parsed uid is not a WinTAK one. */
  lemma {:induction false} ReplayComesFirst(env: Env, frames: seq<Bytes>)
    ensures var prog := Compile(env, frames, false);
            if FirstUid(env, frames).Some? && !IsWinTak(FirstUid(env, frames).value)
            then [ReplayPresence, ReplayRepeat] <= prog && forall i | 2 <= i < |prog| :: !IsReplay(prog[i])
            else forall op | op in prog :: !IsReplay(op)
    decreases |frames|
  {
    hide Parsed, Strip, IsWinTak;
    if frames != [] {
      match Parsed(env, frames[0])
      case None => ReplayComesFirst(env, frames[1..]);
      case Some(cot) =>
        NoReplayOnceSent(env, frames[1..]);
        var ops, more := EventOps(cot, Strip(frames[0])), Compile(env, frames[1..], true);
        assert forall op | op in ops :: !IsReplay(op);
        assert Compile(env, frames, false) == ReplayOps(cot, false) + ops + more;
    }
  }

  function CountPongOps(ops: seq<Op>): nat {
    if ops == [] then 0 else CountPongOps(Front(ops)) + (if Last(ops).WritePong? then 1 else 0)
  }

  /** Non-WinTAK pings among the parsed frames. */
  function Pings(env: Env, frames: seq<Bytes>): nat {
    if frames == [] then 0
    else
      var more := Pings(env, frames[1..]);
      match Parsed(env, frames[0])
      case None => more
      case Some(cot) => if cot.kind == PING && !IsWinTak(cot.uid) then more + 1 else more
  }

  lemma {:induction false} CountPongOpsConcat(a: seq<Op>, b: seq<Op>)
    ensures CountPongOps(a + b) == CountPongOps(a) + CountPongOps(b)
    decreases |b|
  {
    if b == [] { assert a + b == a; }
    else {
      CountPongOpsConcat(a, Front(b));
      FrontLast(a + Front(b), Last(b));
      assert a + b == (a + Front(b)) + [Last(b)];
    }
  }

  lemma {:induction false} NoPongOps(ops: seq<Op>)
    requires forall op | op in ops :: !op.WritePong?
    ensures CountPongOps(ops) == 0
  {
    if ops != [] { NoPongOps(Front(ops)); }
  }

  lemma {:induction false} OnePongPerPing(env: Env, frames: seq<Bytes>, sent: bool)
    ensures CountPongOps(Compile(env, frames, sent)) == Pings(env, frames)
    decreases |frames|
  {
    hide CountPongOps, Parsed, Strip, IsWinTak, IsPresence, ShouldRepeat, ReplayOps, EventOps;
    if frames == [] { NoPongOps(Compile(env, frames, sent)); }
    else {
      match Parsed(env, frames[0])
      case None => OnePongPerPing(env, frames[1..], sent);
      case Some(cot) =>
        OnePongPerPing(env, frames[1..], true);
        var replay, ops, more := ReplayOps(cot, sent), EventOps(cot, Strip(frames[0])), Compile(env, frames[1..], true);
        CountPongOpsConcat(replay + ops, more);
        CountPongOpsConcat(replay, ops);
        EventPongs(cot, sent, Strip(frames[0]));
    }
  }

  lemma EventPongs(cot: Cot, sent: bool, event: Bytes)
    ensures CountPongOps(ReplayOps(cot, sent)) == 0
    ensures CountPongOps(EventOps(cot, event)) == if cot.kind == PING && !IsWinTak(cot.uid) then 1 else 0
  {
    hide CountPongOps, IsWinTak, IsPresence, ShouldRepeat;
    NoPongOps(ReplayOps(cot, sent));
    if cot.kind == PING && !IsWinTak(cot.uid) {
      CountPongOpsConcat([], [WritePong]);
      OnePong();
    } else {
      NoPongOps(EventOps(cot, event));
    }
  }

  lemma OnePong()
    ensures CountPongOps([WritePong]) == 1
  {
  }

  /** What one entry wrote to the socket of its connection. */
  ghost function LinesBy(env: Env, sh: Shared, e: Entry): seq<Line> {
    match e
    case Did(_, op, order, now) => LinesOf(env, sh, op, order, now)
    case Broke(_, op, k, order, now) =>
      var lines := LinesOf(env, sh, op, order, now);
      if k <= |lines| then lines[..k] else []
    case Served(_) => []
  }

  /** Entry `i` is the operation number `k` of connection `c`, and wrote `lines` with the caches of that moment. */
  ghost predicate Wrote(env: Env, trace: seq<Entry>, c: ConnId, i: int, k: nat, lines: seq<Line>) {
    && 0 <= i < |trace| && !trace[i].Served? && trace[i].conn == c && |TriedBy(trace[..i], c)| == k
    && lines == LinesBy(env, SharedOf(env, trace[..i]), trace[i])
  }

  /** `lines` is what operation number `k` of `c` wrote, if that is `op`; otherwise nothing. */
  ghost predicate ReplayPart(env: Env, trace: seq<Entry>, c: ConnId, k: nat, op: Op, lines: seq<Line>) {
    var tried := TriedBy(trace, c);
    if k < |tried| && tried[k] == op then exists i :: Wrote(env, trace, c, i, k, lines) else lines == []
  }

  /** Only the first two operations may replay: first the presence cache, then the repeat cache. */
  ghost predicate ReplaysLead(ops: seq<Op>) {
    && (forall k | 2 <= k < |ops| :: !IsReplay(ops[k]))
    && (|ops| > 0 && IsReplay(ops[0]) ==> ops[0] == ReplayPresence)
    && (|ops| > 1 && IsReplay(ops[1]) ==> ops[0] == ReplayPresence && ops[1] == ReplayRepeat)
  }

  lemma LeadOfPrefix(ops: seq<Op>, op: Op)
    requires ReplaysLead(ops + [op])
    ensures ReplaysLead(ops)
    ensures op == ReplayPresence ==> |ops| == 0
    ensures op == ReplayRepeat ==> |ops| == 1 && ops[0] == ReplayPresence
  {
    var all := ops + [op];
    assert forall k | 0 <= k < |ops| :: all[k] == ops[k];
    assert all[|ops|] == op;
  }

  lemma WroteStays(env: Env, t: seq<Entry>, e: Entry, c: ConnId, i: int, k: nat, lines: seq<Line>)
    requires Wrote(env, t, c, i, k, lines)
    ensures Wrote(env, t + [e], c, i, k, lines)
  {
    hide SharedOf, TriedBy, LinesBy;
    assert (t + [e])[..i] == t[..i];
  }

  lemma WroteLast(env: Env, t: seq<Entry>, e: Entry, c: ConnId)
    requires !e.Served? && e.conn == c
    ensures Wrote(env, t + [e], c, |t|, |TriedBy(t, c)|, LinesBy(env, SharedOf(env, t), e))
  {
    hide SharedOf, TriedBy, LinesBy;
    assert (t + [e])[..|t|] == t;
  }

  lemma PartStays(env: Env, t: seq<Entry>, e: Entry, c: ConnId, k: nat, op: Op, lines: seq<Line>)
    requires ReplayPart(env, t, c, k, op, lines)
    requires !e.Served? && e.conn == c && |TriedBy(t, c)| == k ==> e.op != op
    ensures ReplayPart(env, t + [e], c, k, op, lines)
  {
    hide SharedOf, TriedBy, Wrote;
    TraceSnoc(env, t, e, c);
    forall i | Wrote(env, t, c, i, k, lines) ensures Wrote(env, t + [e], c, i, k, lines) {
      WroteStays(env, t, e, c, i, k, lines);
    }
  }

  lemma WrittenSnoc(env: Env, t: seq<Entry>, e: Entry, c: ConnId)
    ensures Written(env, t + [e], c)
         == Written(env, t, c) + (if !e.Served? && e.conn == c then LinesBy(env, SharedOf(env, t), e) else [])
  {
    hide SharedOf, LinesOf;
    FrontLast(t, e);
  }

  /** The three parts of what a connection's own operations wrote. */
  ghost predicate Splits(env: Env, trace: seq<Entry>, c: ConnId, pres: seq<Line>, reps: seq<Line>, pongs: seq<Line>) {
    && Written(env, trace, c) == pres + reps + pongs
    && ReplayPart(env, trace, c, 0, ReplayPresence, pres) && ReplayPart(env, trace, c, 1, ReplayRepeat, reps)
    && (forall l | l in pongs :: l == PongLine)
    && ((forall op | op in TriedBy(trace, c) :: IsReplay(op)) ==> pongs == [])
    && (DoneBy(trace, c) == TriedBy(trace, c) ==> |pongs| == CountPongOps(DoneBy(trace, c)))
  }

  lemma {:induction false} WrittenSplits(env: Env, trace: seq<Entry>, c: ConnId)
    returns (pres: seq<Line>, reps: seq<Line>, pongs: seq<Line>)
    requires ReplaysLead(TriedBy(trace, c))
    ensures Splits(env, trace, c, pres, reps, pongs)
  {
    hide SharedOf, Written, DoneBy, TriedBy, Wrote, LinesBy, ReplaysLead, CountPongOps, Splits;
    if trace == [] {
      pres, reps, pongs := [], [], [];
      EmptySplits(env, c);
    } else {
      var t, e := Front(trace), Last(trace);
      assert trace == t + [e];
      TraceSnoc(env, t, e, c);
      if e.Served? || e.conn != c {
        assert TriedBy(trace, c) == TriedBy(t, c);
        pres, reps, pongs := WrittenSplits(env, t, c);
        OtherSplits(env, t, e, c, pres, reps, pongs);
      } else {
        LeadOfPrefix(TriedBy(t, c), e.op);
        pres, reps, pongs := WrittenSplits(env, t, c);
        var lines := LinesBy(env, SharedOf(env, t), e);
        if e.op == ReplayPresence {
          PresenceSplits(env, t, e, c, pres, reps, pongs);
          pres := lines;
        } else if e.op == ReplayRepeat {
          RepeatSplits(env, t, e, c, pres, reps, pongs);
          reps := lines;
        } else {
          PongSplits(env, t, e, c, pres, reps, pongs);
          pongs := pongs + lines;
        }
      }
    }
  }

  lemma EmptySplits(env: Env, c: ConnId)
    ensures Splits(env, [], c, [], [], [])
  {
    NoPongOps([]);
  }

  lemma OtherSplits(env: Env, t: seq<Entry>, e: Entry, c: ConnId, pres: seq<Line>, reps: seq<Line>, pongs: seq<Line>)
    requires Splits(env, t, c, pres, reps, pongs) && (e.Served? || e.conn != c)
    ensures Splits(env, t + [e], c, pres, reps, pongs)
  {
    hide SharedOf, Written, DoneBy, TriedBy, CountPongOps, ReplayPart;
    TraceSnocs(t, e, c);
    WrittenSnoc(env, t, e, c);
    assert Written(env, t, c) + [] == Written(env, t, c);
    PartStays(env, t, e, c, 0, ReplayPresence, pres);
    PartStays(env, t, e, c, 1, ReplayRepeat, reps);
  }

  lemma PresenceSplits(env: Env, t: seq<Entry>, e: Entry, c: ConnId, pres: seq<Line>, reps: seq<Line>, pongs: seq<Line>)
    requires Splits(env, t, c, pres, reps, pongs) && !e.Served?
    requires e.conn == c && e.op == ReplayPresence && TriedBy(t, c) == []
    ensures Splits(env, t + [e], c, LinesBy(env, SharedOf(env, t), e), reps, pongs)
  {
    hide SharedOf, Written, DoneBy, TriedBy, CountPongOps, Wrote, LinesBy;
    TraceSnoc(env, t, e, c);
    WrittenSnoc(env, t, e, c);
    WroteLast(env, t, e, c);
    PartStays(env, t, e, c, 1, ReplayRepeat, reps);
    CountSnoc(t, e, c);
  }

  lemma RepeatSplits(env: Env, t: seq<Entry>, e: Entry, c: ConnId, pres: seq<Line>, reps: seq<Line>, pongs: seq<Line>)
    requires Splits(env, t, c, pres, reps, pongs) && !e.Served? && e.conn == c && e.op == ReplayRepeat
    requires TriedBy(t, c) == [ReplayPresence]
    ensures Splits(env, t + [e], c, pres, LinesBy(env, SharedOf(env, t), e), pongs)
  {
    hide SharedOf, Written, DoneBy, TriedBy, CountPongOps, Wrote, LinesBy;
    TraceSnoc(env, t, e, c);
    WrittenSnoc(env, t, e, c);
    WroteLast(env, t, e, c);
    PartStays(env, t, e, c, 0, ReplayPresence, pres);
    CountSnoc(t, e, c);
  }

  lemma PongSplits(env: Env, t: seq<Entry>, e: Entry, c: ConnId, pres: seq<Line>, reps: seq<Line>, pongs: seq<Line>)
    requires Splits(env, t, c, pres, reps, pongs) && !e.Served? && e.conn == c && !IsReplay(e.op)
    ensures Splits(env, t + [e], c, pres, reps, pongs + LinesBy(env, SharedOf(env, t), e))
  {
    hide SharedOf, Written, DoneBy, TriedBy, CountPongOps, ReplayPart, LinesBy;
    var lines := LinesBy(env, SharedOf(env, t), e);
    TraceSnoc(env, t, e, c);
    WrittenSnoc(env, t, e, c);
    PartStays(env, t, e, c, 0, ReplayPresence, pres);
    PartStays(env, t, e, c, 1, ReplayRepeat, reps);
    OpLines(env, SharedOf(env, t), e);
    CountSnoc(t, e, c);
    assert (pres + reps + pongs) + lines == pres + reps + (pongs + lines);
    assert e.op in TriedBy(t + [e], c);
  }

  /** If nothing broke with the entry, nothing broke before it. */
  lemma CountSnoc(t: seq<Entry>, e: Entry, c: ConnId)
    requires !e.Served? && e.conn == c
    ensures DoneBy(t + [e], c) == TriedBy(t + [e], c) ==> e.Did? && DoneBy(t, c) == TriedBy(t, c)
    ensures e.Did? ==>
              CountPongOps(DoneBy(t + [e], c)) == CountPongOps(DoneBy(t, c)) + (if e.op.WritePong? then 1 else 0)
  {
    FrontLast(t, e);
    DoneIsShorter(t, c);
    if e.Did? { FrontLast(DoneBy(t, c), e.op); }
  }

  lemma {:induction false} DoneIsShorter(trace: seq<Entry>, c: ConnId)
    ensures |DoneBy(trace, c)| <= |TriedBy(trace, c)|
  {
    if trace != [] { DoneIsShorter(Front(trace), c); }
  }

  /** An operation that does not replay writes one pong or nothing. */
  lemma OpLines(env: Env, sh: Shared, e: Entry)
    requires !e.Served? && !IsReplay(e.op)
    ensures forall l | l in LinesBy(env, sh, e) :: l == PongLine
    ensures e.Did? ==> |LinesBy(env, sh, e)| == if e.op.WritePong? then 1 else 0
    ensures !e.op.WritePong? ==> LinesBy(env, sh, e) == []
  {
  }

  /** The lines a connection got that are not channel messages: first the presence cache and then the repeat cache,
      each as it was when the connection's very first, and second, operation was to replay it, and then pongs.
      A first uid of WinTAK gets no replay; an open connection with nothing left to do got its replays in full
      and one pong per ping. */
  lemma OwnOutput(env: Env, s: State, c: ConnId) returns (pres: seq<Line>, reps: seq<Line>, pongs: seq<Line>)
    requires Reachable(env, s) && c in s.conns
    ensures OwnLines(s.conns[c].out) == pres + reps + pongs && forall l | l in pongs :: l == PongLine
    ensures ReplayPart(env, s.trace, c, 0, ReplayPresence, pres) && ReplayPart(env, s.trace, c, 1, ReplayRepeat, reps)
    ensures forall k | 2 <= k < |TriedBy(s.trace, c)| :: !IsReplay(TriedBy(s.trace, c)[k])
    ensures var first := FirstUid(env, FramesOf(s.conns[c]));
            && (first.None? || IsWinTak(first.value) ==> pres == [] && reps == [])
            && (s.conns[c].phase != Dead && s.conns[c].todo == [] ==>
                 && |pongs| == Pings(env, FramesOf(s.conns[c]))
                 && (forall e | e in s.trace && e.Broke? :: e.conn != c)
                 && (first.Some? && !IsWinTak(first.value) ==> [ReplayPresence, ReplayRepeat] <= TriedBy(s.trace, c)))
  {
    hide SharedOf, DoneBy, TriedBy, Written, FramesOf, AnyParsed, Visible, RelayedIndices, OwnLines, CountPongOps,
         Pings, Program, FirstUid, IsWinTak, ReplayPart;
    ReachableKeeps(env, s);
    assert ConnOk(env, s, c);
    var conn := s.conns[c];
    ProgramReplays(env, conn, TriedBy(s.trace, c));
    pres, reps, pongs := WrittenSplits(env, s.trace, c);
    NoReplayPart(env, s.trace, c, 0, ReplayPresence, pres);
    NoReplayPart(env, s.trace, c, 1, ReplayRepeat, reps);
    if conn.phase != Dead && conn.todo == [] {
      assert DoneBy(s.trace, c) + [] == DoneBy(s.trace, c);
      ProgramPongs(env, conn);
      NothingBroke(s.trace, c);
      ProgramReplaysAll(env, conn);
    }
  }

  lemma NoReplayPart(env: Env, trace: seq<Entry>, c: ConnId, k: nat, op: Op, lines: seq<Line>)
    requires ReplayPart(env, trace, c, k, op, lines) && IsReplay(op)
    ensures (forall o | o in TriedBy(trace, c) :: !IsReplay(o)) ==> lines == []
  {
    hide TriedBy, Wrote;
  }

  lemma {:induction false} NothingBroke(trace: seq<Entry>, c: ConnId)
    requires DoneBy(trace, c) == TriedBy(trace, c)
    ensures forall e | e in trace && e.Broke? :: e.conn != c
  {
    if trace != [] {
      var t, e := Front(trace), Last(trace);
      assert trace == t + [e];
      TraceSnocs(t, e, c);
      if !e.Served? && e.conn == c { CountSnoc(t, e, c); }
      NothingBroke(t, c);
    }
  }

  lemma TraceSnocs(t: seq<Entry>, e: Entry, c: ConnId)
    ensures e.Served? || e.conn != c ==> DoneBy(t + [e], c) == DoneBy(t, c) && TriedBy(t + [e], c) == TriedBy(t, c)
  {
    FrontLast(t, e);
  }

  lemma ProgramReplaysAll(env: Env, conn: Conn)
    ensures var first := FirstUid(env, FramesOf(conn));
            first.Some? && !IsWinTak(first.value) ==> [ReplayPresence, ReplayRepeat] <= Program(env, conn)
  {
    hide Compile, Feed, UidAfter, FirstUid, IsWinTak;
    ReplayComesFirst(env, FramesOf(conn));
  }

  /** Any part of the program that a connection got through replays first, and only for a non-WinTAK first uid. */
  lemma ProgramReplays(env: Env, conn: Conn, tried: seq<Op>)
    requires tried <= Program(env, conn)
    ensures ReplaysLead(tried)
    ensures FirstUid(env, FramesOf(conn)).None? || IsWinTak(FirstUid(env, FramesOf(conn)).value) ==>
              forall op | op in tried :: !IsReplay(op)
  {
    hide Compile, Feed, UidAfter, FirstUid, IsWinTak;
    ReplayComesFirst(env, FramesOf(conn));
  }

  lemma ProgramPongs(env: Env, conn: Conn)
    ensures CountPongOps(Program(env, conn)) == Pings(env, FramesOf(conn))
  {
    hide Compile, Feed, UidAfter, CountPongOps, Pings;
    var prog := Compile(env, FramesOf(conn), false);
    OnePongPerPing(env, FramesOf(conn), false);
    NoPongOps(EofOps(UidAfter(prog)));
    CountPongOpsConcat(prog, EofOps(UidAfter(prog)));
  }

  // ---- What the other clients can make of it ----

  lemma {:induction false} FeedYieldsFrames(carry: Bytes, chunks: seq<Bytes>)
    ensures forall e | e in Feed(carry, chunks).events :: IsFrame(e)
    decreases |chunks|
  {
    hide Extract, IsFrame;
    if chunks != [] {
      ExtractYieldsFrames(carry + chunks[0]);
      FeedYieldsFrames(Extract(carry + chunks[0]).rest, chunks[1..]);
    }
  }

  lemma {:induction false} ExtractYieldsFrames(b: Bytes)
    ensures forall e | e in Extract(b).events :: IsFrame(e)
    decreases |b|
  {
    hide NextFrame, IsFrame;
    match NextFrame(b)
    case Stop(_) =>
    case Cut(event, rest, _) =>
      CutIsFrame(b);
      ExtractYieldsFrames(rest);
  }

  lemma {:induction false} BroadcastsAreFrames(env: Env, frames: seq<Bytes>)
    requires forall e | e in frames :: IsFrame(e)
    ensures forall e | e in Broadcasts(env, frames) :: e in frames
  {
    hide IsFrame, Parsed, Strip;
    if frames != [] {
      assert frames[0] in frames;
      FrameNeedsNoStripping(frames[0]);
      BroadcastsAreFrames(env, frames[1..]);
    }
  }

  lemma {:induction false} MessageAt(channel: seq<Msg>, i: nat)
    requires i < |channel| && channel[i].origin.FromClient?
    ensures channel[i].bytes in ClientMessages(channel, channel[i].from)
    decreases |channel|
  {
    if i < |channel| - 1 { MessageAt(Front(channel), i); }
  }

  lemma {:induction false} SenderKnown(env: Env, trace: seq<Entry>, i: nat)
    requires forall e | e in trace && e.Served? :: !e.msg.origin.FromClient?
    requires i < |SharedOf(env, trace).channel| && SharedOf(env, trace).channel[i].origin.FromClient?
    ensures DoneBy(trace, SharedOf(env, trace).channel[i].from) != []
  {
    hide Sends;
    var c := SharedOf(env, trace).channel[i].from;
    ChannelIsSends(env, trace, c);
    MessageAt(SharedOf(env, trace).channel, i);
    NoSends([]);
  }

  /** Every client message in the channel is, byte for byte, one frame of its sender's stream. */
  lemma ClientMessagesAreFrames(env: Env, s: State, i: nat)
    requires Reachable(env, s) && i < |s.shared.channel| && s.shared.channel[i].origin.FromClient?
    ensures var m := s.shared.channel[i];
            m.from in s.conns && IsFrame(m.bytes) && m.bytes in FramesOf(s.conns[m.from])
  {
    hide SharedOf, DoneBy, TriedBy, Written, ConnOk, IsFrame, Broadcasts, ClientMessages, Feed;
    ReachableKeeps(env, s);
    var m := s.shared.channel[i];
    SenderKnown(env, s.trace, i);
    ExactlyOnceInOrder(env, s, m.from);
    MessageAt(s.shared.channel, i);
    FeedYieldsFrames([], s.conns[m.from].received);
    BroadcastsAreFrames(env, FramesOf(s.conns[m.from]));
  }

  function LineData(l: Line): Bytes {
    match l
    case Replayed(_, d) => d
    case Relayed(_, d) => d
    case PongLine => CotBuilders.PongCot()
  }

  function Lines(out: seq<Line>): seq<Bytes> { seq(|out|, i requires 0 <= i < |out| => LineData(out[i])) }

  /** As the XML reader does: nothing is read from a self-closing event. */
  ghost predicate IgnoresSelfClosed(env: Env) { forall e | SelfClosedFrame(e) :: env.parse(e).None? }

  lemma {:induction false} BroadcastsAreParsed(env: Env, frames: seq<Bytes>)
    requires forall e | e in frames :: IsFrame(e)
    ensures forall e | e in Broadcasts(env, frames) :: env.parse(e).Some?
  {
    hide IsFrame, Strip;
    if frames != [] {
      assert frames[0] in frames;
      FrameNeedsNoStripping(frames[0]);
      BroadcastsAreParsed(env, frames[1..]);
    }
  }

  lemma ClientMessagesAreClosed(env: Env, s: State, i: nat)
    requires Reachable(env, s) && IgnoresSelfClosed(env)
    requires i < |s.shared.channel| && s.shared.channel[i].origin.FromClient?
    ensures ClosedFrame(s.shared.channel[i].bytes)
  {
    hide Reachable, Broadcasts, ClientMessages, Feed, ClosedFrame, SelfClosedFrame;
    var m := s.shared.channel[i];
    ClientMessagesAreFrames(env, s, i);
    ExactlyOnceInOrder(env, s, m.from);
    MessageAt(s.shared.channel, i);
    FeedYieldsFrames([], s.conns[m.from].received);
    BroadcastsAreParsed(env, FramesOf(s.conns[m.from]));
  }

  /** A line whose text the server made: a refreshed cached event, or a server message from the channel. */
  predicate ServerMade(channel: seq<Msg>, l: Line) {
    l.Replayed? || (l.Relayed? && l.index < |channel| && !channel[l.index].origin.FromClient?)
  }

  /** In every reachable state the client at the other end of a socket recovers, in order and however the bytes arrive,
      exactly the lines written to it, stripped, if what the server made strips to closed frames and no stripped line
      is ambiguous: the events of the other clients and the pongs are closed frames and need no stripping. */
  lemma ClientReadsBack(env: Env, s: State, c: ConnId, chunks: seq<Bytes>)
    requires Reachable(env, s) && c in s.conns && IgnoresSelfClosed(env)
    requires forall l | l in s.conns[c].out && ServerMade(s.shared.channel, l) :: Framed(l.data)
    requires forall l | l in s.conns[c].out && !l.PongLine? :: Unambiguous(Strip(l.data))
    requires Concat(chunks) == Wire(Lines(s.conns[c].out))
    ensures var lines := Lines(s.conns[c].out); Feed([], chunks) == Frames(EventsOf(lines), Tailing(lines, []))
  {
    hide ClosedFrame, Framed, Unambiguous, Feed, Concat, Wire, Reachable, IgnoresSelfClosed, CotBuilders.PongCot,
         Ascending, RelayedIndices, Strip;
    var out := s.conns[c].out;
    CotBuilders.PongIsFrame();
    FrameIsFramed(CotBuilders.PongCot());
    RelayedLines(env, s, c);
    forall i | 0 <= i < |out| ensures Framed(Lines(out)[i]) && Unambiguous(Strip(Lines(out)[i])) {
      assert out[i] in out;
      if out[i].Relayed? && s.shared.channel[out[i].index].origin.FromClient? {
        ClientMessagesAreClosed(env, s, out[i].index);
        FrameIsFramed(out[i].data);
      }
    }
    WireStripped(Lines(out));
  }

  // ---- The same with the events that the server really builds ----

  /** Farewells, file shares and emergencies in the channel are the events built for them. */
  ghost predicate MsgOk(env: Env, m: Msg) {
    && (m.origin.Farewell? ==> m.bytes == env.disconnect(m.origin.uid, m.origin.now))
    && (m.origin.FileShare? || m.origin.Emergency? || m.origin.Refreshed? ==> ServedOk(m))
  }

  lemma {:induction false} ChannelIsBuilt(env: Env, trace: seq<Entry>)
    requires forall e | e in trace && e.Served? :: ServedOk(e.msg)
    ensures forall m | m in SharedOf(env, trace).channel :: MsgOk(env, m)
  {
    hide ServedOk, EntryEffect;
    if trace != [] {
      var t, e := Front(trace), Last(trace);
      assert forall x | x in t :: x in trace;
      ChannelIsBuilt(env, t);
      var more := EntryAppends(env, SharedOf(env, t), e);
    }
  }

  lemma EntryAppends(env: Env, sh: Shared, e: Entry) returns (more: seq<Msg>)
    requires e.Served? ==> ServedOk(e.msg)
    ensures EntryEffect(env, sh, e).channel == sh.channel + more && forall m | m in more :: MsgOk(env, m)
  {
    hide CotBuilders.FileshareCot, CotBuilders.PlainStamp, CotBuilders.EmergencyCot, CotBuilders.PlainAlert;
    match e
    case Served(m) => more := [m];
    case Broke(_, _, _, _, _) => more := [];
    case Did(c, op, _, now) => more := EffectAppends(env, sh, c, op, now);
  }

  /** The event was put into a cache. */
  ghost predicate WasPut(trace: seq<Entry>, event: Bytes) {
    exists i :: 0 <= i < |trace| && PutsEvent(trace[i], event)
  }

  predicate PutsEvent(e: Entry, event: Bytes) {
    e.Did? && (e.op.PutPresence? || e.op.PutRepeat?) && e.op.event == event
  }

  ghost predicate InCache(sh: Shared, event: Bytes) { event in sh.presence.Values || event in sh.repeated.Values }

  lemma PutStays(t: seq<Entry>, e: Entry, event: Bytes)
    requires WasPut(t, event) || PutsEvent(e, event)
    ensures WasPut(t + [e], event)
  {
    if PutsEvent(e, event) { assert PutsEvent((t + [e])[|t|], event); }
    else {
      var i :| 0 <= i < |t| && PutsEvent(t[i], event);
      assert (t + [e])[i] == t[i];
    }
  }

  lemma EntryCaches(env: Env, sh: Shared, e: Entry, event: Bytes)
    requires InCache(EntryEffect(env, sh, e), event)
    ensures InCache(sh, event) || PutsEvent(e, event)
  {
    hide Effect;
    if e.Did? {
      EffectPresence(env, sh, e.conn, e.op, e.now);
      EffectRepeats(env, sh, e.conn, e.op, e.now);
    }
  }

  lemma {:induction false} CachedWasPut(env: Env, trace: seq<Entry>, event: Bytes)
    requires InCache(SharedOf(env, trace), event)
    ensures WasPut(trace, event)
  {
    hide EntryEffect, PutsEvent;
    if trace != [] {
      var t, e := Front(trace), Last(trace);
      assert trace == t + [e];
      EntryCaches(env, SharedOf(env, t), e, event);
      if InCache(SharedOf(env, t), event) { CachedWasPut(env, t, event); }
      PutStays(t, e, event);
    }
  }

  /** What is put into a cache is a closed frame. */
  lemma PutIsClosed(env: Env, s: State, event: Bytes)
    requires Reachable(env, s) && IgnoresSelfClosed(env) && WasPut(s.trace, event)
    ensures ClosedFrame(event)
  {
    hide Reachable, Feed, ClosedFrame, SelfClosedFrame, Strip, IsPresence, ShouldRepeat;
    var i :| 0 <= i < |s.trace| && PutsEvent(s.trace[i], event);
    var e := s.trace[i];
    CacheEntriesComeFromStreams(env, s, i);
    var frames := FramesOf(s.conns[e.conn]);
    var k: nat :| k < |frames| && Parsed(env, frames[k]).Some? && event == Strip(frames[k]);
    FeedYieldsFrames([], s.conns[e.conn].received);
    assert frames[k] in frames;
    FrameNeedsNoStripping(frames[k]);
  }

  /** The bytes are those of the event with times refreshed at some moment. */
  ghost predicate RefreshOf(env: Env, event: Bytes, data: Bytes) {
    exists now: nat, minutes: nat :: data == env.refresh(event, now, minutes)
  }

  lemma LinesReplay(env: Env, sh: Shared, op: Op, order: seq<string>, now: nat)
    ensures forall l | l in LinesOf(env, sh, op, order, now) && l.Replayed? ::
              InCache(sh, l.event) && RefreshOf(env, l.event, l.data)
  {
    var lines := LinesOf(env, sh, op, order, now);
    forall l | l in lines && l.Replayed? ensures InCache(sh, l.event) && RefreshOf(env, l.event, l.data) {
      var i :| 0 <= i < |lines| && lines[i] == l;
      assert order[i] in order;
    }
  }

  /** Every line of a replay is a refreshed event that was put into a cache. */
  lemma {:induction false} WrittenReplays(env: Env, trace: seq<Entry>, c: ConnId)
    ensures forall l | l in Written(env, trace, c) && l.Replayed? ::
              WasPut(trace, l.event) && RefreshOf(env, l.event, l.data)
  {
    hide SharedOf, LinesOf, WasPut, RefreshOf, InCache;
    if trace != [] {
      var t, e := Front(trace), Last(trace);
      assert trace == t + [e];
      WrittenReplays(env, t, c);
      if !e.Served? { LinesReplay(env, SharedOf(env, t), e.op, e.order, e.now); }
      forall event | WasPut(t, event) ensures WasPut(trace, event) { PutStays(t, e, event); }
      forall event | InCache(SharedOf(env, t), event) ensures WasPut(trace, event) {
        CachedWasPut(env, t, event);
        PutStays(t, e, event);
      }
    }
  }

  /** Message `m` is the refreshing, for five minutes, of an event in the presence cache, or, for a day, of one to be
      repeated. */
  ghost predicate Ticks(env: Env, sh: Shared, m: Msg) {
    m.origin.Refreshed? ==>
      && m.bytes == env.refresh(m.origin.event, m.origin.now, m.origin.minutes)
      && ((m.origin.minutes == 5 && m.origin.event in sh.presence.Values)
          || (m.origin.minutes == 1440 && m.origin.event in sh.repeated.Values))
  }

  /** Every refreshed event that a ticker sends is in the cache at that moment. */
  ghost predicate TicksOk(env: Env, trace: seq<Entry>) {
    forall i | 0 <= i < |trace| && trace[i].Served? :: Ticks(env, SharedOf(env, trace[..i]), trace[i].msg)
  }

  lemma TicksStay(env: Env, t: seq<Entry>, e: Entry)
    requires TicksOk(env, t) && (e.Served? ==> Ticks(env, SharedOf(env, t), e.msg))
    ensures TicksOk(env, t + [e])
  {
    hide SharedOf, Ticks;
    var trace := t + [e];
    forall i | 0 <= i < |trace| && trace[i].Served? ensures Ticks(env, SharedOf(env, trace[..i]), trace[i].msg) {
      if i < |t| { assert trace[..i] == t[..i] && trace[i] == t[i]; } else { assert trace[..i] == t; }
    }
  }

  lemma StepTicks(env: Env, s: State, step: Step)
    requires Inv(env, s) && Enabled(s, step) && TicksOk(env, s.trace)
    ensures TicksOk(env, Apply(env, s, step).trace)
  {
    hide ConnOk, SharedOf, DoneBy, TriedBy, Written, ServedOk, PendingOk, TicksOk, LinesOf, Effect, Compile, Extract,
         CotBuilders.EmergencyCot, CotBuilders.FileshareCot, CotBuilders.PlainAlert, CotBuilders.PlainStamp;
    var t := Apply(env, s, step);
    match step
    case TickPresence(u, now) =>
      TicksStay(env, s.trace, Served(RefreshMsg(env, s.shared.presence[u], PRESENCE_MINUTES, now)));
    case TickRepeat(u, now) =>
      TicksStay(env, s.trace, Served(RefreshMsg(env, s.shared.repeated[u], REPEAT_MINUTES, now)));
    case Exec(c, order, now) => TicksStay(env, s.trace, Did(c, s.conns[c].todo[0], order, now));
    case Break(c, k, order, now) => TicksStay(env, s.trace, t.trace[|s.trace|]);
    case SendShare(k) =>
      assert PendingOk(env, s.trace, s.shares[k]);
      SharesAreNotTicks(env, s.trace, s.shares[k]);
      TicksStay(env, s.trace, Served(s.shares[k].msg));
    case Announce(alert) => TicksStay(env, s.trace, Served(AlertMsg(alert)));
    case _ =>
  }

  lemma SharesAreNotTicks(env: Env, trace: seq<Entry>, p: Pending)
    requires PendingOk(env, trace, p)
    ensures !p.msg.origin.Refreshed?
  {
    hide SharedOf, ServedOk;
  }

  lemma {:induction false} RunTicks(env: Env, states: seq<State>, steps: seq<Step>, i: nat)
    requires IsRun(env, states, steps) && i <= |steps|
    ensures TicksOk(env, states[i].trace)
  {
    hide Apply, Enabled, Inv;
    if i > 0 {
      RunTicks(env, states, steps, i - 1);
      RunKeeps(env, states, steps, i - 1);
      assert states[i] == Apply(env, states[i - 1], steps[i - 1]);
      StepTicks(env, states[i - 1], steps[i - 1]);
    }
  }

  lemma {:induction false} NotRelayedIsOwn(out: seq<Line>, l: Line)
    requires l in out && !l.Relayed?
    ensures l in OwnLines(out)
  {
    if Last(out) != l {
      assert out == Front(out) + [Last(out)];
      NotRelayedIsOwn(Front(out), l);
    }
  }

  /** Every replayed line, and every relayed refreshed event, is the refreshing of a closed frame. */
  lemma RefreshedLines(env: Env, s: State, c: ConnId)
    requires Reachable(env, s) && c in s.conns && IgnoresSelfClosed(env)
    ensures forall l | l in s.conns[c].out && l.Replayed? :: ClosedFrame(l.event) && RefreshOf(env, l.event, l.data)
    ensures forall m | m in s.shared.channel && m.origin.Refreshed? ::
              ClosedFrame(m.origin.event) && RefreshOf(env, m.origin.event, m.bytes)
  {
    hide SharedOf, DoneBy, TriedBy, Written, ServedOk, PendingOk, WasPut, RefreshOf, ClosedFrame, IgnoresSelfClosed,
         ProgramOk, Visible, RelayedIndices, OwnLines;
    ReachableKeeps(env, s);
    assert ConnOk(env, s, c);
    WrittenReplays(env, s.trace, c);
    forall l | l in s.conns[c].out && l.Replayed? ensures ClosedFrame(l.event) && RefreshOf(env, l.event, l.data) {
      NotRelayedIsOwn(s.conns[c].out, l);
      PutIsClosed(env, s, l.event);
    }
    TicksInChannel(env, s);
    forall m | m in s.shared.channel && m.origin.Refreshed? ensures ClosedFrame(m.origin.event) {
      PutIsClosed(env, s, m.origin.event);
    }
  }

  lemma TicksInChannel(env: Env, s: State)
    requires Reachable(env, s)
    ensures forall m | m in s.shared.channel && m.origin.Refreshed? ::
              WasPut(s.trace, m.origin.event) && RefreshOf(env, m.origin.event, m.bytes)
  {
    hide SharedOf, DoneBy, TriedBy, Written, ConnOk, ServedOk, PendingOk, WasPut, RefreshOf, Ticks;
    ReachableKeeps(env, s);
    var states: seq<State>, steps: seq<Step> :| IsRun(env, states, steps) && states[|steps|] == s;
    RunTicks(env, states, steps, |steps|);
    ChannelFromTrace(env, s.trace);
    forall m | m in s.shared.channel && m.origin.Refreshed?
      ensures WasPut(s.trace, m.origin.event) && RefreshOf(env, m.origin.event, m.bytes)
    {
      var e :| e in s.trace && e.Served? && e.msg == m;
      var i :| 0 <= i < |s.trace| && s.trace[i] == e;
      TickWasPut(env, s.trace, i);
    }
  }

  lemma TickWasPut(env: Env, trace: seq<Entry>, i: nat)
    requires i < |trace| && trace[i].Served? && Ticks(env, SharedOf(env, trace[..i]), trace[i].msg)
    requires trace[i].msg.origin.Refreshed?
    ensures WasPut(trace, trace[i].msg.origin.event) && RefreshOf(env, trace[i].msg.origin.event, trace[i].msg.bytes)
  {
    hide SharedOf;
    var event := trace[i].msg.origin.event;
    CachedWasPut(env, trace[..i], event);
    var k :| 0 <= k < |trace[..i]| && PutsEvent(trace[..i][k], event);
    assert PutsEvent(trace[k], event);
  }

  lemma {:induction false} ChannelFromTrace(env: Env, trace: seq<Entry>)
    ensures forall m | m in SharedOf(env, trace).channel && m.origin.Refreshed? ::
              exists e :: e in trace && e.Served? && e.msg == m
  {
    hide EntryEffect;
    if trace != [] {
      var t, e := Front(trace), Last(trace);
      ChannelFromTrace(env, t);
      assert trace == t + [e];
      var more := EntryServes(env, SharedOf(env, t), e);
    }
  }

  lemma EntryServes(env: Env, sh: Shared, e: Entry) returns (more: seq<Msg>)
    ensures EntryEffect(env, sh, e).channel == sh.channel + more
    ensures forall m | m in more && m.origin.Refreshed? :: e.Served? && e.msg == m
  {
    match e
    case Served(m) => more := [m];
    case Broke(_, _, _, _, _) => more := [];
    case Did(c, op, _, now) => more := EffectAppends(env, sh, c, op, now);
  }

  /** The text of the moment so many minutes after a clock value. */
  type Stamps = (nat, nat) -> Bytes

  /** The disconnect events and the refreshed ones are those that the relay builds, with plain time stamps and for an
      XML reader that reads an event as pieces of its bytes. */
  ghost predicate BuildsEvents(env: Env, read: EventText.Reader, stamps: Stamps) {
    && (forall now: nat, minutes: nat :: Escaping.Plain(stamps(now, minutes)))
    && (forall u, now: nat :: env.disconnect(u, now) == CotBuilders.DisconnectCot(u, stamps(now, 0), stamps(now, 1)))
    && (forall e :: read(e).Some? ==> EventText.Lexed(read(e).value) && EventText.Text(read(e).value) == e)
    && (forall e, now: nat, minutes: nat ::
          env.refresh(e, now, minutes) == EventText.Refresh(read, e, stamps(now, 0), stamps(now, minutes)))
  }

  /** Refreshing the event gives one unambiguous frame; an event that cannot be read is sent as it is. */
  ghost predicate EventFits(read: EventText.Reader, event: Bytes) {
    match read(event)
    case None => Unambiguous(event)
    case Some(doc) => EventText.RefreshFits(doc)
  }

  /** What has to be known of a line for the client to get it: of another client's event that it is unambiguous, of a
      cached one that refreshing keeps it so, of a farewell and an emergency that their texts have no markup that
      matters; of a file share and a pong nothing. */
  ghost predicate LineFits(read: EventText.Reader, channel: seq<Msg>, l: Line) {
    match l
    case PongLine => true
    case Replayed(event, _) => EventFits(read, event)
    case Relayed(i, data) =>
      i < |channel| ==>
        match channel[i].origin
        case FromClient => Unambiguous(data)
        case Refreshed(event, _, _) => EventFits(read, event)
        case Farewell(u, _) => !Occurs(u, EVENT_END) && OpenTag(u)
        case Emergency(alert) => CotBuilders.AlertFits(alert) && OpenTag(alert.uid)
        case FileShare(_, _) => true
  }

  /** The event of a line comes out alone. */
  ghost predicate Comes(data: Bytes) { Framed(data) && Unambiguous(Strip(data)) }

  lemma FrameComes(data: Bytes)
    requires ClosedFrame(data) && Unambiguous(data)
    ensures Comes(data)
  {
    hide ClosedFrame, Unambiguous, Strip, Framed;
    FrameIsFramed(data);
  }

  lemma RefreshComes(env: Env, read: EventText.Reader, stamps: Stamps, event: Bytes, data: Bytes)
    requires BuildsEvents(env, read, stamps) && ClosedFrame(event)
    requires RefreshOf(env, event, data) && EventFits(read, event)
    ensures Comes(data)
  {
    hide ClosedFrame, Unambiguous, Comes, EventText.RefreshFits, EventText.Lexed, EventText.RewriteDoc, EventText.Text,
         CotBuilders.DisconnectCot, Escaping.Plain;
    var now: nat, minutes: nat :| data == env.refresh(event, now, minutes);
    match read(event) {
      case None =>
      case Some(doc) => EventText.RefreshedFrameIff(doc, stamps(now, 0), stamps(now, minutes));
    }
    FrameComes(data);
  }

  lemma AlertComes(alert: CotBuilders.Alert)
    requires CotBuilders.PlainAlert(alert) && CotBuilders.AlertFits(alert) && OpenTag(alert.uid)
    ensures Comes(CotBuilders.EmergencyCot(alert))
  {
    hide ClosedFrame, Unambiguous, Strip, OpenTag, CotBuilders.AlertCot, CotBuilders.AlertFits, CotBuilders.PlainAlert,
         Find, FindFrom;
    CotBuilders.AlertStarts(alert);
    CotBuilders.AlertIsFrame(alert);
    CotBuilders.PrologStripped(CotBuilders.AlertCot(alert));
    CotBuilders.PrologHasNoStart(CotBuilders.AlertCot(alert));
  }

  lemma MessageComes(env: Env, read: EventText.Reader, stamps: Stamps, channel: seq<Msg>, i: nat)
    requires i < |channel| && MsgOk(env, channel[i]) && BuildsEvents(env, read, stamps)
    requires LineFits(read, channel, Relayed(i, channel[i].bytes)) && !channel[i].origin.FromClient?
    requires channel[i].origin.Refreshed? ==>
               ClosedFrame(channel[i].origin.event) && RefreshOf(env, channel[i].origin.event, channel[i].bytes)
    ensures Comes(channel[i].bytes)
  {
    hide ClosedFrame, Unambiguous, Comes, Occurs, OpenTag, EventFits, RefreshOf, EventText.Lexed, EventText.Text,
         EventText.Refresh, CotBuilders.FileshareCot, CotBuilders.DisconnectCot, CotBuilders.PlainStamp,
         CotBuilders.EmergencyCot, CotBuilders.PlainAlert, CotBuilders.AlertFits, Escaping.Plain;
    var m := channel[i];
    match m.origin
    case FileShare(share, stamp) => CotBuilders.FileshareIsFrame(share, stamp); FrameComes(m.bytes);
    case Farewell(u, now) => CotBuilders.DisconnectIsFrame(u, stamps(now, 0), stamps(now, 1)); FrameComes(m.bytes);
    case Emergency(alert) => AlertComes(alert);
    case Refreshed(event, _, _) => RefreshComes(env, read, stamps, event, m.bytes);
    case FromClient =>
  }

  /** With the real builders the client recovers every line, stripped, if the lines fit in this sense,
      which speaks only of what the events were made from. */
  lemma ClientReadsRealEvents(
      env: Env, read: EventText.Reader, stamps: Stamps, s: State, c: ConnId, chunks: seq<Bytes>)
    requires Reachable(env, s) && c in s.conns && IgnoresSelfClosed(env) && BuildsEvents(env, read, stamps)
    requires forall l | l in s.conns[c].out :: LineFits(read, s.shared.channel, l)
    requires Concat(chunks) == Wire(Lines(s.conns[c].out))
    ensures var lines := Lines(s.conns[c].out); Feed([], chunks) == Frames(EventsOf(lines), Tailing(lines, []))
  {
    hide ClosedFrame, Unambiguous, Feed, Concat, Wire, Reachable, IgnoresSelfClosed, BuildsEvents, EventFits,
         Occurs, OpenTag, CotBuilders.PongCot, CotBuilders.AlertFits, Ascending, RelayedIndices, MsgOk, Lines, Framed,
         Strip, RefreshOf, EventsOf;
    var out, channel := s.conns[c].out, s.shared.channel;
    RelayedLines(env, s, c);
    BuiltInChannel(env, s);
    RefreshedLines(env, s, c);
    forall l | l in out && !l.PongLine?
      ensures Unambiguous(Strip(l.data)) && (ServerMade(channel, l) ==> Framed(l.data))
    {
      assert LineFits(read, channel, l);
      if l.Replayed? { RefreshComes(env, read, stamps, l.event, l.data); }
      else {
        assert channel[l.index] in channel && l == Relayed(l.index, channel[l.index].bytes);
        if channel[l.index].origin.FromClient? {
          ClientMessagesAreClosed(env, s, l.index);
          FrameComes(l.data);
        } else {
          MessageComes(env, read, stamps, channel, l.index);
        }
      }
    }
    ClientReadsBack(env, s, c, chunks);
  }

  lemma BuiltInChannel(env: Env, s: State)
    requires Reachable(env, s)
    ensures forall m | m in s.shared.channel :: MsgOk(env, m)
  {
    hide SharedOf, DoneBy, TriedBy, Written, ConnOk, ServedOk, PendingOk, MsgOk;
    ReachableKeeps(env, s);
    ChannelIsBuilt(env, s.trace);
  }

  // ---- Every cache write of the stream happens, in order ----

  predicate WritesCache(op: Op) { op.PutPresence? || op.DropPresence? || op.PutRepeat? }

  function CacheWrites(ops: seq<Op>): seq<Op> {
    if ops == [] then []
    else if WritesCache(Last(ops)) then CacheWrites(Front(ops)) + [Last(ops)]
    else CacheWrites(Front(ops))
  }

  /** What one parsed event does to the caches. */
  function CacheWriteOf(cot: Cot, event: Bytes): seq<Op> {
    if cot.kind == DISCONNECT then [DropPresence(cot.uid)]
    else if IsPresence(cot.kind) then [PutPresence(cot.uid, event)]
    else if ShouldRepeat(cot.kind) then [PutRepeat(cot.uid, event)]
    else []
  }

  /** What the events of a stream do to the caches, in order. */
  function StreamWrites(env: Env, frames: seq<Bytes>): seq<Op> {
    if frames == [] then []
    else match Parsed(env, frames[0])
      case None => StreamWrites(env, frames[1..])
      case Some(cot) => CacheWriteOf(cot, Strip(frames[0])) + StreamWrites(env, frames[1..])
  }

  /** What the end of the stream does to them. */
  function EndWrites(uid: Option<string>): seq<Op> { match uid case None => [] case Some(u) => [DropPresence(u)] }

  lemma {:induction false} CacheWritesConcat(a: seq<Op>, b: seq<Op>)
    ensures CacheWrites(a + b) == CacheWrites(a) + CacheWrites(b)
    decreases |b|
  {
    hide CacheWrites;
    if b == [] {
      assert a + b == a;
      NoCacheWrites(b);
    } else {
      FrontIn(b);
      CacheWritesConcat(a, Front(b));
      Regroup(a, b);
      Regroup([], b);
      assert [] + Front(b) == Front(b) && [] + b == b;
      CacheWritesSnoc(a + Front(b), Last(b));
      CacheWritesSnoc(Front(b), Last(b));
    }
  }

  lemma CacheWritesSnoc(ops: seq<Op>, op: Op)
    ensures CacheWrites(ops + [op]) == CacheWrites(ops) + (if WritesCache(op) then [op] else [])
  {
    FrontLast(ops, op);
  }

  lemma {:induction false} NoCacheWrites(ops: seq<Op>)
    requires forall op | op in ops :: !WritesCache(op)
    ensures CacheWrites(ops) == []
  {
    if ops != [] { NoCacheWrites(Front(ops)); }
  }

  lemma OneCacheWrite(before: seq<Op>, op: Op, after: seq<Op>)
    requires WritesCache(op) && forall o | o in before + after :: !WritesCache(o)
    ensures CacheWrites(before + [op] + after) == [op]
  {
    hide CacheWrites;
    assert forall o | o in before || o in after :: o in before + after;
    CacheWritesConcat(before + [op], after);
    CacheWritesSnoc(before, op);
    NoCacheWrites(before);
    NoCacheWrites(after);
  }

  lemma EventWrites(cot: Cot, sent: bool, event: Bytes)
    ensures CacheWrites(EventOps(cot, event)) == CacheWriteOf(cot, event) && CacheWrites(ReplayOps(cot, sent)) == []
  {
    hide CacheWrites, IsWinTak;
    var ops := EventOps(cot, event);
    NoCacheWrites(ReplayOps(cot, sent));
    KindsApart(cot.kind);
    if cot.kind == DISCONNECT {
      OneCacheWrite([], DropPresence(cot.uid), [Send(event)]);
      assert [] + [DropPresence(cot.uid)] + [Send(event)] == ops;
    } else if IsPresence(cot.kind) {
      OneCacheWrite([SetState(cot.uid, cot.callsign), SetUid(cot.uid)], PutPresence(cot.uid, event), [Send(event)]);
      assert [SetState(cot.uid, cot.callsign), SetUid(cot.uid)] + [PutPresence(cot.uid, event)] + [Send(event)] == ops;
    } else if ShouldRepeat(cot.kind) {
      OneCacheWrite([], PutRepeat(cot.uid, event), [Send(event)]);
      assert [] + [PutRepeat(cot.uid, event)] + [Send(event)] == ops;
    } else {
      NoCacheWrites(ops);
    }
  }

  /** Pings and pongs are neither presence nor markers. */
  lemma KindsApart(kind: string)
    ensures kind == PING || kind == PONG ==> kind != DISCONNECT && !IsPresence(kind) && !ShouldRepeat(kind)
  {
    assert PING[0] == 't' && PONG[0] == 't' && "a-f-G-"[0] == 'a' && "b-m-"[0] == 'b';
    assert |PING| == 7 && |PONG| == 9;
  }

  lemma {:induction false} ProgramWrites(env: Env, frames: seq<Bytes>, sent: bool)
    ensures CacheWrites(Compile(env, frames, sent)) == StreamWrites(env, frames)
    decreases |frames|
  {
    hide CacheWrites, EventOps, ReplayOps, Parsed, Strip, CacheWriteOf;
    if frames == [] { NoCacheWrites(Compile(env, frames, sent)); }
    else {
      match Parsed(env, frames[0])
      case None => ProgramWrites(env, frames[1..], sent);
      case Some(cot) =>
        ProgramWrites(env, frames[1..], true);
        var replay, ops, more := ReplayOps(cot, sent), EventOps(cot, Strip(frames[0])), Compile(env, frames[1..], true);
        CacheWritesConcat(replay + ops, more);
        CacheWritesConcat(replay, ops);
        EventWrites(cot, sent, Strip(frames[0]));
    }
  }

  lemma EofWrites(uid: Option<string>)
    ensures CacheWrites(EofOps(uid)) == EndWrites(uid)
  {
    hide CacheWrites;
    match uid
    case None => NoCacheWrites(EofOps(uid));
    case Some(u) =>
      OneCacheWrite([TakeState, DropUid(u)], DropPresence(u), [SendDisconnect(u)]);
      assert [TakeState, DropUid(u)] + [DropPresence(u)] + [SendDisconnect(u)] == EofOps(uid);
  }

  /** All cache writes that a connection's stream, and its end, ask for. */
  ghost function AskedWrites(env: Env, conn: Conn): seq<Op> {
    var frames := FramesOf(conn);
    StreamWrites(env, frames) + (if conn.phase == Closing then EndWrites(UidAfter(Compile(env, frames, false))) else [])
  }

  /** The cache writes that a connection has made are a prefix, in order, of those that the events of its stream and
      its end ask for, and all of them once a connection that did not break has nothing left to do. */
  lemma CacheWritesFollowStreams(env: Env, s: State, c: ConnId)
    requires Reachable(env, s) && c in s.conns
    ensures CacheWrites(DoneBy(s.trace, c)) <= AskedWrites(env, s.conns[c])
    ensures s.conns[c].phase != Dead && s.conns[c].todo == [] ==>
              CacheWrites(DoneBy(s.trace, c)) == AskedWrites(env, s.conns[c])
  {
    hide CacheWrites, DoneBy, Program, AskedWrites, Reachable;
    DoneIsPrefix(env, s, c);
    AskedIsProgram(env, s.conns[c]);
    CacheWritesPrefix(DoneBy(s.trace, c), Program(env, s.conns[c]));
  }

  lemma CacheWritesPrefix(a: seq<Op>, b: seq<Op>)
    requires a <= b
    ensures CacheWrites(a) <= CacheWrites(b)
  {
    hide CacheWrites;
    assert a + b[|a|..] == b;
    CacheWritesConcat(a, b[|a|..]);
  }

  lemma AskedIsProgram(env: Env, conn: Conn)
    ensures AskedWrites(env, conn) == CacheWrites(Program(env, conn))
  {
    hide CacheWrites, Compile, Feed, UidAfter, StreamWrites, EofOps, EndWrites;
    var prog := Compile(env, FramesOf(conn), false);
    ProgramWrites(env, FramesOf(conn), false);
    if conn.phase == Closing {
      CacheWritesConcat(prog, EofOps(UidAfter(prog)));
      EofWrites(UidAfter(prog));
    }
  }
}
