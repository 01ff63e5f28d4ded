/** Safety of every run of the relay. */
module RelayRuns {
  import opened Substrings
  import opened Framing
  import opened Relay
  import opened RelayTraces
  import CotBuilders

  // ---- Every step keeps the invariant ----

  lemma AcceptKeeps(env: Env, s: State)
    requires Inv(env, s)
    ensures Inv(env, Apply(env, s, Accept))
  {
    hide SharedOf, Written, DoneBy, TriedBy, PendingOk, ServedOk, ProgramOk, OutputOk;
    var t := Apply(env, s, Accept);
    forall c | c in t.conns ensures ConnOk(env, t, c) {
      if c in s.conns { assert t.conns[c] == s.conns[c] && ConnOk(env, s, c); }
      else { NewConnOk(env, s.shared.channel, s.trace, c, t.conns[c]); }
    }
  }

  lemma NewConnOk(env: Env, channel: seq<Msg>, trace: seq<Entry>, c: ConnId, conn: Conn)
    requires conn == Conn(Open, [], [], false, [], |channel|, |channel|, false, [])
    requires TriedBy(trace, c) == [] && DoneBy(trace, c) == [] && Written(env, trace, c) == []
    ensures ProgramOk(env, trace, c, conn) && OutputOk(env, channel, trace, c, conn)
  {
    hide Written, DoneBy, TriedBy, Compile;
    NoneParsed(env);
    CompileNothing(env);
  }

  lemma CompileNothing(env: Env)
    ensures Compile(env, [], false) == []
  {
  }

  lemma ReadKeeps(env: Env, s: State, c: ConnId, chunk: Bytes)
    requires Inv(env, s) && Enabled(s, Read(c, chunk))
    ensures Inv(env, Apply(env, s, Read(c, chunk)))
  {
    hide SharedOf, Written, DoneBy, TriedBy, PendingOk, ServedOk, Compile, Feed, AnyParsed, Extract, OutputOk;
    var t := Apply(env, s, Read(c, chunk));
    var conn, after := s.conns[c], t.conns[c];
    assert ConnOk(env, s, c);
    var f := Feed([], conn.received);
    FeedSnoc([], conn.received, chunk);
    var g := Extract(conn.pending + chunk);
    assert after.received == conn.received + [chunk];
    assert Feed([], after.received) == Frames(f.events + g.events, g.rest);
    CompileConcat(env, f.events, g.events, false);
    AnyParsedConcat(env, f.events, g.events);
    assert ProgramOk(env, s.trace, c, conn);
    assert DoneBy(s.trace, c) + [] == DoneBy(s.trace, c);
    assert ProgramOk(env, t.trace, c, after);
    SameOutput(env, s.shared.channel, s.trace, c, conn, after);
    forall d | d in t.conns && d != c ensures ConnOk(env, t, d) {
      assert t.conns[d] == s.conns[d] && ConnOk(env, s, d);
    }
  }

  lemma SameOutput(env: Env, channel: seq<Msg>, trace: seq<Entry>, c: ConnId, conn: Conn, after: Conn)
    requires OutputOk(env, channel, trace, c, conn)
    requires after.since == conn.since && after.cursor == conn.cursor
    requires after.out == conn.out && after.lagged == conn.lagged
    ensures OutputOk(env, channel, trace, c, after)
  {
  }

  /** Operations, breaks and server messages extend the trace; the other connections do not notice. */
  lemma OthersKeep(env: Env, s: State, t: State, e: Entry, more: seq<Msg>)
    requires Inv(env, s)
    requires t.trace == s.trace + [e] && t.shared.channel == s.shared.channel + more
    requires t.conns.Keys == s.conns.Keys
    requires forall d | d in s.conns && (e.Served? || d != e.conn) :: t.conns[d] == s.conns[d]
    ensures forall d | d in s.conns && (e.Served? || d != e.conn) :: ConnOk(env, t, d)
    ensures forall d | d !in s.conns && (e.Served? || d != e.conn) ::
              TriedBy(t.trace, d) == [] && DoneBy(t.trace, d) == [] && Written(env, t.trace, d) == []
  {
    hide SharedOf, Written, DoneBy, TriedBy, PendingOk, ServedOk, ProgramOk, OutputOk;
    forall d | d in s.conns && (e.Served? || d != e.conn) ensures ConnOk(env, t, d) {
      assert ConnOk(env, s, d);
      OtherEntry(env, s.shared.channel, more, s.trace, e, d, s.conns[d]);
    }
    forall d | d !in s.conns && (e.Served? || d != e.conn)
      ensures TriedBy(t.trace, d) == [] && DoneBy(t.trace, d) == [] && Written(env, t.trace, d) == []
    {
      TraceSnoc(env, s.trace, e, d);
    }
  }

  lemma ExecKeeps(env: Env, s: State, c: ConnId, order: seq<string>, now: nat)
    requires Inv(env, s) && Enabled(s, Exec(c, order, now))
    ensures Inv(env, Apply(env, s, Exec(c, order, now)))
  {
    hide SharedOf, Written, DoneBy, TriedBy, PendingOk, ServedOk, LinesOf, Effect, ProgramOk, OutputOk;
    var t := Apply(env, s, Exec(c, order, now));
    var conn, after := s.conns[c], t.conns[c];
    var op := conn.todo[0];
    var e := Did(c, op, order, now);
    assert ConnOk(env, s, c);
    var more := EffectAppends(env, s.shared, c, op, now);
    OthersKeep(env, s, t, e, more);
    PendingStays(env, s.trace, e, s.shares);
    TraceSnoc(env, s.trace, e, c);
    DoneOne(env, s.trace, t.trace, c, conn, after);
    WritesKeepOutput(env, s, t, c, LinesOf(env, s.shared, op, order, now), more) by {
      LinesAreOwn(env, s.shared, op, order, now);
    }
  }

  /** Doing the first of its remaining operations keeps a connection on its program. */
  lemma DoneOne(env: Env, trace: seq<Entry>, longer: seq<Entry>, c: ConnId, conn: Conn, after: Conn)
    requires ProgramOk(env, trace, c, conn) && conn.phase != Dead && conn.todo != []
    requires DoneBy(longer, c) == DoneBy(trace, c) + [conn.todo[0]]
    requires TriedBy(longer, c) == TriedBy(trace, c) + [conn.todo[0]]
    requires after.phase == conn.phase && after.received == conn.received && after.pending == conn.pending
    requires after.replaySent == conn.replaySent && after.todo == conn.todo[1..]
    ensures ProgramOk(env, longer, c, after)
  {
    hide DoneBy, TriedBy, Compile, Feed, AnyParsed, UidAfter, EofOps;
    assert Program(env, after) == Program(env, conn);
    assert DoneBy(longer, c) + after.todo == DoneBy(trace, c) + conn.todo;
  }

  /** Writing own lines keeps the output invariant. */
  lemma WritesKeepOutput(env: Env, s: State, t: State, c: ConnId, lines: seq<Line>, more: seq<Msg>)
    requires c in s.conns && c in t.conns
    requires OutputOk(env, s.shared.channel, s.trace, c, s.conns[c])
    requires t.shared.channel == s.shared.channel + more
    requires Written(env, t.trace, c) == Written(env, s.trace, c) + lines
    requires forall l | l in lines :: !l.Relayed?
    requires t.conns[c].out == s.conns[c].out + lines
    requires t.conns[c].since == s.conns[c].since && t.conns[c].cursor == s.conns[c].cursor
    requires t.conns[c].lagged == s.conns[c].lagged
    ensures OutputOk(env, t.shared.channel, t.trace, c, t.conns[c])
  {
    hide Written, Visible, OwnLines, RelayedIndices;
    var conn := s.conns[c];
    OwnWrites(conn.out, lines);
    VisibleAppend(s.shared.channel, more, conn.since, conn.cursor, c);
  }

  lemma BreakKeeps(env: Env, s: State, c: ConnId, k: nat, order: seq<string>, now: nat)
    requires Inv(env, s) && Enabled(s, Break(c, k, order, now))
    ensures Inv(env, Apply(env, s, Break(c, k, order, now)))
  {
    hide SharedOf, DoneBy, TriedBy, LinesOf, Written, ProgramOk, OutputOk, PendingOk, ServedOk;
    var t := Apply(env, s, Break(c, k, order, now));
    var conn, after := s.conns[c], t.conns[c];
    var op := conn.todo[0];
    var lines := LinesOf(env, s.shared, op, order, now);
    var n := if k < |lines| then k else |lines|;
    var e := Broke(c, op, n, order, now);
    assert ConnOk(env, s, c);
    assert t.shared.channel == s.shared.channel + [];
    OthersKeep(env, s, t, e, []);
    PendingStays(env, s.trace, e, s.shares);
    TraceSnoc(env, s.trace, e, c);
    WrittenBroke(env, s.trace, e);
    LinesAreOwn(env, s.shared, op, order, now);
    WritesKeepOutput(env, s, t, c, lines[..n], []);
    BrokenPrefix(env, s.trace, t.trace, c, conn, after);
  }

  lemma WrittenBroke(env: Env, trace: seq<Entry>, e: Entry)
    requires e.Broke? && e.written <= |LinesOf(env, SharedOf(env, trace), e.op, e.order, e.now)|
    ensures Written(env, trace + [e], e.conn)
         == Written(env, trace, e.conn) + LinesOf(env, SharedOf(env, trace), e.op, e.order, e.now)[..e.written]
  {
    hide SharedOf, LinesOf;
    FrontLast(trace, e);
  }

  /** A broken connection has done a prefix of the program of the bytes it read. */
  lemma BrokenPrefix(env: Env, trace: seq<Entry>, longer: seq<Entry>, c: ConnId, conn: Conn, after: Conn)
    requires ProgramOk(env, trace, c, conn) && conn.phase != Dead && conn.todo != [] && Writes(conn.todo[0])
    requires DoneBy(longer, c) == DoneBy(trace, c) && TriedBy(longer, c) == TriedBy(trace, c) + [conn.todo[0]]
    requires after.phase == Dead && after.received == conn.received && after.pending == conn.pending
    requires after.replaySent == conn.replaySent
    ensures ProgramOk(env, longer, c, after)
  {
    hide DoneBy, TriedBy, Compile, Feed, AnyParsed, UidAfter, EofOps, Writes;
    var prog := Compile(env, Feed([], conn.received).events, false);
    var done := DoneBy(trace, c);
    var full := Program(env, conn);
    assert done + conn.todo == full;
    assert full[..|done| + 1] == done + [conn.todo[0]];
    assert full[|done|] == conn.todo[0];
    CleanupWritesNothing(prog, UidAfter(prog), |done|);
  }

  lemma CleanupWritesNothing(prog: seq<Op>, uid: Option<string>, k: nat)
    ensures k < |prog + EofOps(uid)| && Writes((prog + EofOps(uid))[k]) ==> k < |prog|
  {
    assert forall op | op in EofOps(uid) :: !Writes(op);
  }

  lemma DeliverKeeps(env: Env, s: State, c: ConnId)
    requires Inv(env, s) && Enabled(s, Deliver(c))
    ensures Inv(env, Apply(env, s, Deliver(c)))
  {
    hide SharedOf, Written, DoneBy, TriedBy, PendingOk, ServedOk, ProgramOk, OutputOk;
    var t := Apply(env, s, Deliver(c));
    var conn, after := s.conns[c], t.conns[c];
    assert ConnOk(env, s, c);
    SameProgram(env, s.trace, c, conn, after);
    DeliverOutput(env, s.shared.channel, s.trace, c, conn);
    forall d | d in t.conns && d != c ensures ConnOk(env, t, d) {
      assert t.conns[d] == s.conns[d] && ConnOk(env, s, d);
    }
  }

  lemma DeliverOutput(env: Env, channel: seq<Msg>, trace: seq<Entry>, c: ConnId, conn: Conn)
    requires OutputOk(env, channel, trace, c, conn) && conn.cursor < |channel|
    ensures var msg := channel[conn.cursor];
            OutputOk(env, channel, trace, c,
              conn.(cursor := conn.cursor + 1,
                    out := if msg.from == c then conn.out else conn.out + [Relayed(conn.cursor, msg.bytes)]))
  {
    hide Written;
    FrontLast(conn.out, Relayed(conn.cursor, channel[conn.cursor].bytes));
  }

  lemma SameProgram(env: Env, trace: seq<Entry>, c: ConnId, conn: Conn, after: Conn)
    requires ProgramOk(env, trace, c, conn)
    requires after.phase == conn.phase && after.received == conn.received && after.pending == conn.pending
    requires after.replaySent == conn.replaySent && after.todo == conn.todo
    ensures ProgramOk(env, trace, c, after)
  {
  }

  lemma LagKeeps(env: Env, s: State, c: ConnId, target: nat)
    requires Inv(env, s) && Enabled(s, Lag(c, target))
    ensures Inv(env, Apply(env, s, Lag(c, target)))
  {
    hide SharedOf, Written, DoneBy, TriedBy, PendingOk, ServedOk, ProgramOk, Visible, OwnLines, RelayedIndices;
    var t := Apply(env, s, Lag(c, target));
    assert ConnOk(env, s, c);
    SameProgram(env, s.trace, c, s.conns[c], t.conns[c]);
    forall d | d in t.conns && d != c ensures ConnOk(env, t, d) {
      assert t.conns[d] == s.conns[d] && ConnOk(env, s, d);
    }
  }

  lemma EofKeeps(env: Env, s: State, c: ConnId)
    requires Inv(env, s) && Enabled(s, Eof(c))
    ensures Inv(env, Apply(env, s, Eof(c)))
  {
    hide SharedOf, Written, DoneBy, TriedBy, PendingOk, ServedOk, Compile, Feed, AnyParsed, OutputOk, UidAfter;
    var t := Apply(env, s, Eof(c));
    var conn := s.conns[c];
    assert ConnOk(env, s, c);
    UidIsOwn(env, s.trace, c);
    assert DoneBy(s.trace, c) + [] == DoneBy(s.trace, c);
    SameOutput(env, s.shared.channel, s.trace, c, conn, t.conns[c]);
    forall d | d in t.conns && d != c ensures ConnOk(env, t, d) {
      assert t.conns[d] == s.conns[d] && ConnOk(env, s, d);
    }
  }

  lemma AbortKeeps(env: Env, s: State, c: ConnId)
    requires Inv(env, s) && Enabled(s, Abort(c))
    ensures Inv(env, Apply(env, s, Abort(c)))
  {
    hide SharedOf, Written, DoneBy, TriedBy, PendingOk, ServedOk, Compile, Feed, AnyParsed, OutputOk, UidAfter;
    var t := Apply(env, s, Abort(c));
    var conn := s.conns[c];
    assert ConnOk(env, s, c);
    assert DoneBy(s.trace, c) + [] == DoneBy(s.trace, c);
    SameOutput(env, s.shared.channel, s.trace, c, conn, t.conns[c]);
    forall d | d in t.conns && d != c ensures ConnOk(env, t, d) {
      assert t.conns[d] == s.conns[d] && ConnOk(env, s, d);
    }
  }

  lemma ServeKeeps(env: Env, s: State, msg: Msg)
    requires Inv(env, s) && ServedOk(msg)
    ensures Inv(env, Serve(s, msg))
  {
    hide SharedOf, Written, DoneBy, TriedBy, ProgramOk, OutputOk, ServedOk, PendingOk;
    var t := Serve(s, msg);
    OthersKeep(env, s, t, Served(msg), [msg]);
    PendingStays(env, s.trace, Served(msg), s.shares);
    TraceSnoc(env, s.trace, Served(msg), 0);
  }

  lemma LookUpKeeps(env: Env, s: State, share: CotBuilders.Share, stamp: CotBuilders.Stamp)
    requires Inv(env, s) && Enabled(s, LookUp(share, stamp))
    ensures Inv(env, Apply(env, s, LookUp(share, stamp)))
  {
    hide SharedOf, Written, DoneBy, TriedBy, ProgramOk, OutputOk, ServedOk, ShareMsg, CotBuilders.PlainStamp;
    var t := Apply(env, s, LookUp(share, stamp));
    assert s.trace[..|s.trace|] == s.trace;
    ShareIsServed(FromOf(s.shared, share.uid), share, stamp);
    forall c | c in t.conns ensures ConnOk(env, t, c) { assert ConnOk(env, s, c); }
  }

  lemma ShareIsServed(from: ConnId, share: CotBuilders.Share, stamp: CotBuilders.Stamp)
    requires CotBuilders.PlainStamp(stamp)
    ensures ServedOk(ShareMsg(from, share, stamp))
    ensures ShareMsg(from, share, stamp).from == from && ShareMsg(from, share, stamp).origin == FileShare(share, stamp)
  {
    hide CotBuilders.FileshareCot, CotBuilders.PlainStamp;
  }

  lemma AlertIsServed(alert: CotBuilders.Alert)
    requires CotBuilders.PlainAlert(alert)
    ensures ServedOk(AlertMsg(alert))
  {
    hide CotBuilders.EmergencyCot, CotBuilders.PlainAlert;
  }

  lemma SendShareKeeps(env: Env, s: State, k: nat)
    requires Inv(env, s) && Enabled(s, SendShare(k))
    ensures Inv(env, Apply(env, s, SendShare(k)))
  {
    hide SharedOf, Written, DoneBy, TriedBy, ConnOk, ServedOk;
    var msg := s.shares[k].msg;
    assert PendingOk(env, s.trace, s.shares[k]);
    ServeKeeps(env, s, msg);
    FewerShares(env, Serve(s, msg), s.shares[..k] + s.shares[k + 1..]);
  }

  lemma FewerShares(env: Env, s: State, shares: seq<Pending>)
    requires Inv(env, s) && forall p | p in shares :: p in s.shares
    ensures Inv(env, s.(shares := shares))
  {
    hide SharedOf, Written, DoneBy, TriedBy, ProgramOk, OutputOk, ServedOk, PendingOk;
    var t := s.(shares := shares);
    forall c | c in t.conns ensures ConnOk(env, t, c) { assert ConnOk(env, s, c); }
  }

  lemma StepKeeps(env: Env, s: State, step: Step)
    requires Inv(env, s) && Enabled(s, step)
    ensures Inv(env, Apply(env, s, step))
  {
    hide Inv;
    match step
    case Accept => AcceptKeeps(env, s);
    case Read(c, chunk) => ReadKeeps(env, s, c, chunk);
    case Exec(c, order, now) => ExecKeeps(env, s, c, order, now);
    case Break(c, k, order, now) => BreakKeeps(env, s, c, k, order, now);
    case Deliver(c) => DeliverKeeps(env, s, c);
    case Lag(c, target) => LagKeeps(env, s, c, target);
    case Eof(c) => EofKeeps(env, s, c);
    case Abort(c) => AbortKeeps(env, s, c);
    case TickPresence(u, now) =>
      ServeKeeps(env, s, RefreshMsg(env, s.shared.presence[u], PRESENCE_MINUTES, now));
    case TickRepeat(u, now) =>
      ServeKeeps(env, s, RefreshMsg(env, s.shared.repeated[u], REPEAT_MINUTES, now));
    case LookUp(share, stamp) => LookUpKeeps(env, s, share, stamp);
    case SendShare(k) => SendShareKeeps(env, s, k);
    case Announce(alert) => AlertIsServed(alert); ServeKeeps(env, s, AlertMsg(alert));
  }

  lemma {:induction false} RunKeeps(env: Env, states: seq<State>, steps: seq<Step>, i: nat)
    requires IsRun(env, states, steps) && i <= |steps|
    ensures Inv(env, states[i])
  {
    if i == 0 { assert Inv(env, INIT); }
    else {
      RunKeeps(env, states, steps, i - 1);
      StepKeeps(env, states[i - 1], steps[i - 1]);
    }
  }

  lemma ReachableKeeps(env: Env, s: State)
    requires Reachable(env, s)
    ensures Inv(env, s)
  {
    var states: seq<State>, steps: seq<Step> :| IsRun(env, states, steps) && states[|steps|] == s;
    RunKeeps(env, states, steps, |steps|);
  }
}
