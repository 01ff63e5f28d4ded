/** What each kind of event makes the relay do, told from the streams and the sockets alone. */
module RelayLaws {
  import opened Substrings
  import opened Framing
  import opened Conservation
  import opened Relay
  import opened RelayTraces
  import opened RelayRuns
  import opened RelayTheorems
  import opened RelayServer
  import CotBuilders

  // ---- Kinds of events ----

  /** The prefixes and kinds that the relay tells apart. */
  lemma Classifiers(kind: string)
    ensures IsPresence(kind) <==> |kind| >= 6 && kind[..6] == "a-f-G-"
    ensures ShouldRepeat(kind) <==>
              (|kind| >= 4 && kind[..4] == "b-m-")
              || kind == "a-h-G" || kind == "a-n-G" || kind == "a-f-G" || kind == "a-u-G"
    ensures IsWinTak(kind) <==> |kind| >= 9 && kind[..9] == "S-1-5-21-"
    ensures PING == "t-x-c-t" && PONG == "t-x-c-t-r" && DISCONNECT == "t-x-d-d"
  {
  }

  // ---- Operations of one kind ----

  type Want = Op -> bool

  function Only(ops: seq<Op>, want: Want): seq<Op> {
    if ops == [] then []
    else if want(Last(ops)) then Only(Front(ops), want) + [Last(ops)]
    else Only(Front(ops), want)
  }

  lemma OnlySnoc(ops: seq<Op>, op: Op, want: Want)
    ensures Only(ops + [op], want) == Only(ops, want) + (if want(op) then [op] else [])
  {
    FrontLast(ops, op);
  }

  lemma {:induction false} OnlyConcat(a: seq<Op>, b: seq<Op>, want: Want)
    ensures Only(a + b, want) == Only(a, want) + Only(b, want)
    decreases |b|
  {
    hide Only;
    if b == [] {
      assert a + b == a;
      OnlyNone(b, want);
    } else {
      OnlyConcat(a, Front(b), want);
      Regroup(a, b);
      OnlySnoc(a + Front(b), Last(b), want);
      OnlySnoc(Front(b), Last(b), want);
      assert Front(b) + [Last(b)] == b;
    }
  }

  lemma {:induction false} OnlyNone(ops: seq<Op>, want: Want)
    requires forall op | op in ops :: !want(op)
    ensures Only(ops, want) == []
  {
    if ops != [] { OnlyNone(Front(ops), want); }
  }

  lemma OnlyPrefix(a: seq<Op>, b: seq<Op>, want: Want)
    requires a <= b
    ensures Only(a, want) <= Only(b, want)
  {
    hide Only;
    assert a + b[|a|..] == b;
    OnlyConcat(a, b[|a|..], want);
  }

  /** What a connection has done of one kind is what its program has of it, up to where the connection has got. */
  lemma DoneOnly(env: Env, s: State, c: ConnId, want: Want)
    requires Reachable(env, s) && c in s.conns
    ensures Only(DoneBy(s.trace, c), want) <= Only(Program(env, s.conns[c]), want)
    ensures s.conns[c].phase != Dead && s.conns[c].todo == [] ==>
              Only(DoneBy(s.trace, c), want) == Only(Program(env, s.conns[c]), want)
  {
    hide Only, DoneBy, Program, Reachable;
    DoneIsPrefix(env, s, c);
    OnlyPrefix(DoneBy(s.trace, c), Program(env, s.conns[c]), want);
  }

  // ---- Who registers ----

  predicate Registers(op: Op) { op.SetState? || op.SetUid? }

  /** An event registers its sender: a presence event, or one with a contact that is neither ping, pong, disconnect
      nor to be repeated. */
  predicate Registering(cot: Cot) {
    || (|cot.kind| >= 6 && cot.kind[..6] == "a-f-G-")
    || (cot.hasContact && cot.kind !in {"t-x-c-t", "t-x-c-t-r", "t-x-d-d", "a-h-G", "a-n-G", "a-f-G", "a-u-G"}
        && !(|cot.kind| >= 4 && cot.kind[..4] == "b-m-"))
  }

  /** The registrations that a stream asks for, in order. */
  function StreamRegistrations(env: Env, frames: seq<Bytes>): seq<Op> {
    if frames == [] then []
    else
      var more := StreamRegistrations(env, frames[1..]);
      match Parsed(env, frames[0])
      case None => more
      case Some(cot) => if Registering(cot) then [SetState(cot.uid, cot.callsign), SetUid(cot.uid)] + more else more
  }

  lemma EventRegisters(cot: Cot, sent: bool, event: Bytes)
    ensures Only(ReplayOps(cot, sent) + EventOps(cot, event), Registers)
         == if Registering(cot) then [SetState(cot.uid, cot.callsign), SetUid(cot.uid)] else []
  {
    hide IsWinTak, Only, Registering, IsPresence, ShouldRepeat;
    OnlyConcat(ReplayOps(cot, sent), EventOps(cot, event), Registers);
    OnlyNone(ReplayOps(cot, sent), Registers);
    KindOf(cot);
    if Registering(cot) { RegistersTwo(cot, event); } else { OnlyNone(EventOps(cot, event), Registers); }
  }

  /** How the branches of the relay divide the kinds. */
  lemma KindOf(cot: Cot)
    ensures Registering(cot) <==>
              cot.kind != PING && cot.kind != PONG && cot.kind != DISCONNECT
              && (IsPresence(cot.kind) || (!ShouldRepeat(cot.kind) && cot.hasContact))
  {
    hide IsWinTak, IsPresence, ShouldRepeat;
    Classifiers(cot.kind);
    KindsApart(cot.kind);
    assert "t-x-d-d"[0] == 't' && "a-f-G-"[0] == 'a';
    assert |cot.kind| >= 6 && cot.kind[..6] == "a-f-G-" ==> cot.kind[0] == cot.kind[..6][0] == 'a';
  }

  lemma RegistersTwo(cot: Cot, event: Bytes)
    requires Registering(cot)
    ensures Only(EventOps(cot, event), Registers) == [SetState(cot.uid, cot.callsign), SetUid(cot.uid)]
  {
    hide Only, Registering, IsPresence, ShouldRepeat, IsWinTak;
    KindOf(cot);
    var first := [SetState(cot.uid, cot.callsign), SetUid(cot.uid)];
    var ops := EventOps(cot, event);
    assert ops == first + ops[2..];
    OnlyConcat(first, ops[2..], Registers);
    OnlyNone(ops[2..], Registers);
    OnlySnoc([], SetState(cot.uid, cot.callsign), Registers);
    OnlySnoc([SetState(cot.uid, cot.callsign)], SetUid(cot.uid), Registers);
    OnlyNone([], Registers);
    assert [] + [SetState(cot.uid, cot.callsign)] == [SetState(cot.uid, cot.callsign)];
    assert [SetState(cot.uid, cot.callsign)] + [SetUid(cot.uid)] == first;
  }

  lemma {:induction false} ProgramRegisters(env: Env, frames: seq<Bytes>, sent: bool)
    ensures Only(Compile(env, frames, sent), Registers) == StreamRegistrations(env, frames)
    decreases |frames|
  {
    hide Only, EventOps, ReplayOps, Parsed, Strip, Registering;
    if frames == [] { OnlyNone(Compile(env, frames, sent), Registers); }
    else {
      match Parsed(env, frames[0])
      case None => ProgramRegisters(env, frames[1..], sent);
      case Some(cot) =>
        ProgramRegisters(env, frames[1..], true);
        var first, more := ReplayOps(cot, sent) + EventOps(cot, Strip(frames[0])), Compile(env, frames[1..], true);
        OnlyConcat(first, more, Registers);
        EventRegisters(cot, sent, Strip(frames[0]));
    }
  }

  /** In every reachable state the registrations that a connection has made are a prefix, in order, of those that its
      stream asks for, each with the uid and callsign of its event; all of them once its work is done. */
  lemma RegistrationsFollowStreams(env: Env, s: State, c: ConnId)
    requires Reachable(env, s) && c in s.conns
    ensures Only(DoneBy(s.trace, c), Registers) <= StreamRegistrations(env, FramesOf(s.conns[c]))
    ensures s.conns[c].phase != Dead && s.conns[c].todo == [] ==>
              Only(DoneBy(s.trace, c), Registers) == StreamRegistrations(env, FramesOf(s.conns[c]))
  {
    hide Only, DoneBy, Program, Reachable, StreamRegistrations;
    DoneOnly(env, s, c, Registers);
    WholeRegisters(env, s.conns[c]);
  }

  lemma WholeRegisters(env: Env, conn: Conn)
    ensures Only(Program(env, conn), Registers) == StreamRegistrations(env, FramesOf(conn))
  {
    hide Only, Compile, Feed, UidAfter, StreamRegistrations;
    var prog := Compile(env, FramesOf(conn), false);
    ProgramRegisters(env, FramesOf(conn), false);
    OnlyConcat(prog, EofOps(UidAfter(prog)), Registers);
    OnlyNone(EofOps(UidAfter(prog)), Registers);
  }

  // ---- Under which uid and callsign ----

  /** Frame `k` is the last that registers, and under `u`. */
  ghost predicate LastAnnounced(env: Env, frames: seq<Bytes>, k: int, u: string) {
    && 0 <= k < |frames| && Announced(env, frames[k]) && Parsed(env, frames[k]).value.uid == u
    && forall j | k < j < |frames| :: !Announced(env, frames[j])
  }

  predicate Announced(env: Env, frame: Bytes) { Parsed(env, frame).Some? && Registering(Parsed(env, frame).value) }

  /** Frame `k` is the last that registers with a callsign, which is `n`. */
  ghost predicate LastNamed(env: Env, frames: seq<Bytes>, k: int, n: string) {
    && 0 <= k < |frames| && Named(env, frames[k]) && Parsed(env, frames[k]).value.callsign == Some(n)
    && forall j | k < j < |frames| :: !Named(env, frames[j])
  }

  predicate Named(env: Env, frame: Bytes) {
    Announced(env, frame) && Parsed(env, frame).value.callsign.Some? && Parsed(env, frame).value.callsign.value != ""
  }

  /** The callsign a connection is registered with after its own operations. */
  function NameAfter(ops: seq<Op>): Option<string> {
    if ops == [] then None
    else match Last(ops)
      case SetState(_, cs) => if cs.Some? && cs.value != "" then cs else NameAfter(Front(ops))
      case TakeState => None
      case _ => NameAfter(Front(ops))
  }

  function NameOf(sh: Shared, c: ConnId): Option<string> {
    if c in sh.connState then sh.connState[c].callsign else None
  }

  lemma EntryName(env: Env, sh: Shared, e: Entry, c: ConnId)
    ensures NameOf(EntryEffect(env, sh, e), c) ==
              if e.Did? && e.conn == c && e.op.SetState? && e.op.callsign.Some? && e.op.callsign.value != ""
              then e.op.callsign
              else if e.Did? && e.conn == c && e.op.TakeState? then None
              else NameOf(sh, c)
  {
  }

  /** Only a connection's own operations decide its callsign. */
  lemma {:induction false} NameIsOwn(env: Env, trace: seq<Entry>, c: ConnId)
    ensures NameOf(SharedOf(env, trace), c) == NameAfter(DoneBy(trace, c))
  {
    hide EntryEffect, NameOf;
    if trace == [] { NobodyNamed(c); }
    else {
      var t, e := Front(trace), Last(trace);
      NameIsOwn(env, t, c);
      EntryName(env, SharedOf(env, t), e, c);
      if e.Did? && e.conn == c { FrontLast(DoneBy(t, c), e.op); }
    }
  }

  lemma NobodyNamed(c: ConnId)
    ensures NameOf(EMPTY, c) == None
  {
  }

  /** An event behind a program changes uid and callsign exactly if it registers. */
  lemma AfterEvent(ops: seq<Op>, cot: Cot, sent: bool, event: Bytes)
    ensures var all := ops + (ReplayOps(cot, sent) + EventOps(cot, event));
            && UidAfter(all) == (if Registering(cot) then Some(cot.uid) else UidAfter(ops))
            && NameAfter(all) == (if Registering(cot) && cot.callsign.Some? && cot.callsign.value != ""
                                  then cot.callsign else NameAfter(ops))
  {
    hide IsWinTak, IsPresence, ShouldRepeat, Registering;
    KindOf(cot);
    var replay, mine := ReplayOps(cot, sent), EventOps(cot, event);
    AfterOthers(ops, replay);
    assert ops + (replay + mine) == (ops + replay) + mine;
    if Registering(cot) {
      var st := SetState(cot.uid, cot.callsign);
      FrontLast(ops + replay, st);
      assert (ops + replay) + mine == ((ops + replay) + [st]) + mine[1..];
      AfterOthers((ops + replay) + [st], mine[1..]);
    } else {
      AfterOthers(ops + replay, mine);
    }
  }

  /** Operations that leave `conn_state` alone. */
  lemma {:induction false} AfterOthers(ops: seq<Op>, more: seq<Op>)
    requires forall op | op in more :: !op.SetState? && !op.TakeState?
    ensures UidAfter(ops + more) == UidAfter(ops) && NameAfter(ops + more) == NameAfter(ops)
    decreases |more|
  {
    if more == [] { assert ops + more == ops; }
    else {
      FrontIn(more);
      AfterOthers(ops, Front(more));
      Regroup(ops, more);
      FrontLast(ops + Front(more), Last(more));
    }
  }

  /** One frame more at the end of a stream. */
  lemma AfterFrame(env: Env, frames: seq<Bytes>, x: Bytes)
    ensures var was, now := Compile(env, frames, false), Compile(env, frames + [x], false);
            && UidAfter(now) == (if Announced(env, x) then Some(Parsed(env, x).value.uid) else UidAfter(was))
            && NameAfter(now) == (if Named(env, x) then Parsed(env, x).value.callsign else NameAfter(was))
  {
    hide Compile, UidAfter, NameAfter, EventOps, ReplayOps, Parsed, Strip, AnyParsed, Registering;
    var also := AnyParsed(env, frames);
    var was := Compile(env, frames, false);
    CompileConcat(env, frames, [x], false);
    CompileOne(env, x, also);
    match Parsed(env, x)
    case None => assert was + [] == was;
    case Some(cot) => AfterEvent(was, cot, also, Strip(x));
  }

  /** The uid that a stream leaves its connection with is that of its last registering event, if there is one,
      and the callsign that of the last one that has a callsign. */
  lemma {:induction false} StreamRegisters(env: Env, frames: seq<Bytes>, u: string, n: string)
    ensures UidAfter(Compile(env, frames, false)) == Some(u) <==> exists k :: LastAnnounced(env, frames, k, u)
    ensures NameAfter(Compile(env, frames, false)) == Some(n) <==> exists k :: LastNamed(env, frames, k, n)
    decreases |frames|
  {
    hide Compile, UidAfter, NameAfter, Parsed, Registering, Announced, Named;
    if frames == [] { NothingCompiled(env); }
    else {
      var front, x := frames[..|frames| - 1], frames[|frames| - 1];
      assert frames == front + [x];
      StreamRegisters(env, front, u, n);
      AfterFrame(env, front, x);
      NamedIsAnnounced(env, x);
      if Announced(env, x) {
        assert forall k | LastAnnounced(env, frames, k, u) :: k == |front|;
        if Parsed(env, x).value.uid == u { assert LastAnnounced(env, frames, |front|, u); }
      } else {
        forall k | LastAnnounced(env, front, k, u) ensures LastAnnounced(env, frames, k, u) {}
        forall k | LastAnnounced(env, frames, k, u) ensures LastAnnounced(env, front, k, u) {}
      }
      if Named(env, x) {
        assert forall k | LastNamed(env, frames, k, n) :: k == |front|;
        if Parsed(env, x).value.callsign == Some(n) { assert LastNamed(env, frames, |front|, n); }
      } else {
        forall k | LastNamed(env, front, k, n) ensures LastNamed(env, frames, k, n) {}
        forall k | LastNamed(env, frames, k, n) ensures LastNamed(env, front, k, n) {}
      }
    }
  }

  lemma NamedIsAnnounced(env: Env, x: Bytes)
    ensures Announced(env, x) ==> Parsed(env, x).Some?
    ensures Named(env, x) ==> Parsed(env, x).Some?
  {
    hide Parsed, Registering;
  }

  lemma NothingCompiled(env: Env)
    ensures UidAfter(Compile(env, [], false)) == None && NameAfter(Compile(env, [], false)) == None
  {
  }

  /** An open connection with nothing left to do is registered under the uid of the last registering event of its
      stream, and with the callsign of the last one that had one; it is not registered if there was none. */
  lemma RegisteredAsAnnounced(env: Env, s: State, c: ConnId, u: string, n: string)
    requires Reachable(env, s) && Idle(s, c)
    ensures UidOf(s.shared, c) == Some(u) <==> exists k :: LastAnnounced(env, FramesOf(s.conns[c]), k, u)
    ensures NameOf(s.shared, c) == Some(n) <==> exists k :: LastNamed(env, FramesOf(s.conns[c]), k, n)
  {
    hide DoneBy, Reachable, SharedOf, TriedBy, Written, ConnOk, ServedOk, PendingOk, UidAfter, NameAfter, NameOf, UidOf,
         LastAnnounced, LastNamed, FramesOf, Compile;
    ReachableKeeps(env, s);
    DoneIsPrefix(env, s, c);
    ProgramIs(env, s.conns[c]);
    UidIsOwn(env, s.trace, c);
    NameIsOwn(env, s.trace, c);
    StreamRegisters(env, FramesOf(s.conns[c]), u, n);
  }

  // ---- The end of a stream ----

  predicate Ends(op: Op) { op.TakeState? || op.DropUid? || op.SendDisconnect? }

  /** A connection unregisters itself, drops its uid and says goodbye only after the end of its stream; then, when its
      cleanup is complete, it has done so once, for the uid of its last registering event, if there was one. */
  lemma EndFollowsStream(env: Env, s: State, c: ConnId, u: string)
    requires Reachable(env, s) && c in s.conns
    ensures s.conns[c].phase != Closing ==> Only(DoneBy(s.trace, c), Ends) == []
    ensures s.conns[c].phase == Closing && s.conns[c].todo == []
            && (exists k :: LastAnnounced(env, FramesOf(s.conns[c]), k, u)) ==>
              Only(DoneBy(s.trace, c), Ends) == [TakeState, DropUid(u), SendDisconnect(u)]
    ensures s.conns[c].phase == Closing && s.conns[c].todo == []
            && (forall v, k :: !LastAnnounced(env, FramesOf(s.conns[c]), k, v)) ==>
              Only(DoneBy(s.trace, c), Ends) == [TakeState]
  {
    hide Only, DoneBy, Reachable, LastAnnounced, FramesOf, UidAfter, Compile;
    var frames := FramesOf(s.conns[c]);
    var prog := Compile(env, frames, false);
    DoneOnly(env, s, c, Ends);
    NoEnds(env, frames);
    OnlyNone(prog, Ends);
    OnlyConcat(prog, EofOps(UidAfter(prog)), Ends);
    EndOps(UidAfter(prog));
    StreamRegisters(env, frames, u, "");
    if UidAfter(prog).Some? { StreamRegisters(env, frames, UidAfter(prog).value, ""); }
    ProgramIs(env, s.conns[c]);
  }

  lemma ProgramIs(env: Env, conn: Conn)
    ensures var prog := Compile(env, FramesOf(conn), false);
            Program(env, conn) == if conn.phase == Closing then prog + EofOps(UidAfter(prog)) else prog
  {
    hide Compile, Feed, UidAfter;
  }

  lemma {:induction false} NoEnds(env: Env, frames: seq<Bytes>, sent: bool := false)
    ensures forall op | op in Compile(env, frames, sent) :: !Ends(op)
    decreases |frames|
  {
    hide Parsed, Strip, IsPresence, ShouldRepeat, IsWinTak;
    if frames != [] {
      NoEnds(env, frames[1..], sent);
      NoEnds(env, frames[1..], true);
    }
  }

  lemma EndOps(uid: Option<string>)
    ensures Only(EofOps(uid), Ends) == match uid
              case None => [TakeState]
              case Some(u) => [TakeState, DropUid(u), SendDisconnect(u)]
  {
    hide Only;
    OnlyNone([], Ends);
    OnlySnoc([], TakeState, Ends);
    assert [] + [TakeState] == [TakeState];
    match uid
    case None =>
    case Some(u) =>
      OnlySnoc([TakeState], DropUid(u), Ends);
      OnlySnoc([TakeState, DropUid(u)], DropPresence(u), Ends);
      OnlySnoc([TakeState, DropUid(u), DropPresence(u)], SendDisconnect(u), Ends);
      assert [TakeState] + [DropUid(u)] == [TakeState, DropUid(u)];
      assert [TakeState, DropUid(u)] + [DropPresence(u)] == [TakeState, DropUid(u), DropPresence(u)];
      assert [TakeState, DropUid(u), DropPresence(u)] + [SendDisconnect(u)] == EofOps(uid);
      assert [TakeState, DropUid(u)] + [] + [SendDisconnect(u)] == [TakeState, DropUid(u), SendDisconnect(u)];
  }

  /** An event is sent after everything else that it causes. */
  lemma SendIsLast(cot: Cot, event: Bytes)
    ensures var ops := EventOps(cot, event);
            cot.kind !in {"t-x-c-t", "t-x-c-t-r"} ==>
              ops != [] && Last(ops) == Send(event) && forall op | op in Front(ops) :: !op.Send? && !Writes(op)
  {
    hide IsPresence, ShouldRepeat, IsWinTak;
  }

  // ---- Replays ----

  /** Every entry of the cache once, refreshed for so many minutes, in some order. */
  ghost predicate ReplaysCache(env: Env, cache: map<string, Bytes>, minutes: nat, now: nat, lines: seq<Line>) {
    exists order: seq<string> ::
      && |order| == |lines| && (forall u :: u in order <==> u in cache)
      && (forall i, j | 0 <= i < j < |order| :: order[i] != order[j])
      && forall i | 0 <= i < |lines| ::
           order[i] in cache && lines[i] == Replayed(cache[order[i]], env.refresh(cache[order[i]], now, minutes))
  }

  /** Entry `i` is this connection's replay of the presence cache, or of the repeat cache, as it was at that moment. */
  ghost predicate ReplayedAt(env: Env, trace: seq<Entry>, c: ConnId, i: int, op: Op, lines: seq<Line>) {
    && 0 <= i < |trace| && trace[i].Did? && trace[i].conn == c && trace[i].op == op
    && (op.ReplayPresence? ==> ReplaysCache(env, SharedOf(env, trace[..i]).presence, 5, trace[i].now, lines))
    && (op.ReplayRepeat? ==> ReplaysCache(env, SharedOf(env, trace[..i]).repeated, 24 * 60, trace[i].now, lines))
  }

  lemma LinesReplayCache(env: Env, sh: Shared, op: Op, order: seq<string>, now: nat)
    requires OrderFits(sh, op, order)
    ensures op.ReplayPresence? ==> ReplaysCache(env, sh.presence, 5, now, LinesOf(env, sh, op, order, now))
    ensures op.ReplayRepeat? ==> ReplaysCache(env, sh.repeated, 24 * 60, now, LinesOf(env, sh, op, order, now))
  {
  }

  /** Every replay that was carried out used an order that fits the caches of that moment. */
  ghost predicate OrdersFit(env: Env, trace: seq<Entry>) {
    forall i | 0 <= i < |trace| && trace[i].Did? :: OrderFits(SharedOf(env, trace[..i]), trace[i].op, trace[i].order)
  }

  lemma OrdersStay(env: Env, t: seq<Entry>, e: Entry)
    requires OrdersFit(env, t) && (e.Did? ==> OrderFits(SharedOf(env, t), e.op, e.order))
    ensures OrdersFit(env, t + [e])
  {
    hide SharedOf, OrderFits;
    var trace := t + [e];
    forall i | 0 <= i < |trace| && trace[i].Did?
      ensures OrderFits(SharedOf(env, trace[..i]), trace[i].op, trace[i].order)
    {
      if i < |t| { assert trace[..i] == t[..i] && trace[i] == t[i]; } else { assert trace[..i] == t; }
    }
  }

  lemma StepOrders(env: Env, s: State, step: Step)
    requires Inv(env, s) && Enabled(s, step) && OrdersFit(env, s.trace)
    ensures OrdersFit(env, Apply(env, s, step).trace)
  {
    hide ConnOk, SharedOf, DoneBy, TriedBy, Written, ServedOk, PendingOk, OrdersFit, OrderFits, LinesOf, Effect,
         Compile,
         Extract, CotBuilders.EmergencyCot, CotBuilders.FileshareCot, CotBuilders.PlainAlert, CotBuilders.PlainStamp;
    var t := Apply(env, s, step);
    if t.trace != s.trace {
      assert |t.trace| == |s.trace| + 1 && t.trace[..|s.trace|] == s.trace;
      var e := t.trace[|s.trace|];
      assert t.trace == s.trace + [e];
      OrdersStay(env, s.trace, e);
    }
  }

  lemma {:induction false} RunOrders(env: Env, states: seq<State>, steps: seq<Step>, i: nat)
    requires IsRun(env, states, steps) && i <= |steps|
    ensures OrdersFit(env, states[i].trace)
  {
    hide Apply, Enabled, Inv;
    if i > 0 {
      RunOrders(env, states, steps, i - 1);
      RunKeeps(env, states, steps, i - 1);
      assert states[i] == Apply(env, states[i - 1], steps[i - 1]);
      StepOrders(env, states[i - 1], steps[i - 1]);
    }
  }

  lemma {:induction false} OpAt(trace: seq<Entry>, c: ConnId, k: nat, i: nat)
    requires i < |trace| && !trace[i].Served? && trace[i].conn == c && |TriedBy(trace[..i], c)| == k
    ensures k < |TriedBy(trace, c)| && TriedBy(trace, c)[k] == trace[i].op
    decreases |trace|
  {
    if i < |trace| - 1 {
      assert Front(trace)[..i] == trace[..i];
      OpAt(Front(trace), c, k, i);
    }
  }

  /** An open connection with nothing left to do whose first uid is not a WinTAK one got both caches in full, each as it
      was when the connection's first, and second, operation was to replay it, and then one pong per ping. */
  lemma FullReplay(env: Env, s: State, c: ConnId) returns (pres: seq<Line>, reps: seq<Line>, pongs: seq<Line>)
    requires Reachable(env, s) && Idle(s, c) && FirstUid(env, FramesOf(s.conns[c])).Some?
    requires !IsWinTak(FirstUid(env, FramesOf(s.conns[c])).value)
    ensures OwnLines(s.conns[c].out) == pres + reps + pongs
    ensures exists i :: ReplayedAt(env, s.trace, c, i, ReplayPresence, pres)
    ensures exists i :: ReplayedAt(env, s.trace, c, i, ReplayRepeat, reps)
    ensures |pongs| == Pings(env, FramesOf(s.conns[c])) && forall l | l in pongs :: l == PongLine
  {
    hide Reachable, SharedOf, TriedBy, FramesOf, OwnLines, Pings, FirstUid, IsWinTak, Wrote, ReplayedAt;
    pres, reps, pongs := OwnOutput(env, s, c);
    var i :| Wrote(env, s.trace, c, i, 0, pres);
    ReplayWasFull(env, s, c, i, 0, ReplayPresence, pres);
    var j :| Wrote(env, s.trace, c, j, 1, reps);
    ReplayWasFull(env, s, c, j, 1, ReplayRepeat, reps);
  }

  lemma ReplayWasFull(env: Env, s: State, c: ConnId, i: int, k: nat, op: Op, lines: seq<Line>)
    requires Reachable(env, s) && Wrote(env, s.trace, c, i, k, lines)
    requires k < |TriedBy(s.trace, c)| && TriedBy(s.trace, c)[k] == op && IsReplay(op)
    requires forall e | e in s.trace && e.Broke? :: e.conn != c
    ensures ReplayedAt(env, s.trace, c, i, op, lines)
  {
    hide SharedOf, TriedBy, LinesOf, ReplaysCache, OrderFits;
    var states: seq<State>, steps: seq<Step> :| IsRun(env, states, steps) && states[|steps|] == s;
    RunOrders(env, states, steps, |steps|);
    OpAt(s.trace, c, k, i);
    var e := s.trace[i];
    assert e in s.trace && e.Did?;
    LinesReplayCache(env, SharedOf(env, s.trace[..i]), e.op, e.order, e.now);
  }

  // ---- What the server sends reaches everyone ----

  /** A refreshed event or an emergency is withheld from no connection: one that did not lag has got every such message
      from its acceptance to its cursor. */
  lemma ServerMessagesReachAll(env: Env, s: State, c: ConnId, i: nat)
    requires Reachable(env, s) && c in s.conns && i < |s.shared.channel|
    requires s.shared.channel[i].origin.Refreshed? || s.shared.channel[i].origin.Emergency?
    ensures s.shared.channel[i].from !in s.conns
    ensures var conn := s.conns[c];
            !conn.lagged && conn.since <= i < conn.cursor ==> i in RelayedIndices(conn.out)
  {
    hide Reachable, RelayedIndices, Ascending, CotBuilders.EmergencyCot, CotBuilders.PlainAlert;
    RelayedLines(env, s, c);
    BuiltInChannel(env, s);
    IdsAreFresh(env, s);
    assert MsgOk(env, s.shared.channel[i]);
  }

  /** A connection subscribes when it is accepted: it starts with what is sent from then on, and this does not
      change. */
  lemma SubscribedSinceAccepted(env: Env, s: State, step: Step, c: ConnId)
    requires Inv(env, s) && Enabled(s, step)
    ensures var t := Apply(env, s, step);
            && (c in s.conns ==> c in t.conns && t.conns[c].since == s.conns[c].since)
            && (c !in s.conns && c in t.conns ==>
                  && step == Accept && c == s.nextId && t.conns[c].since == |s.shared.channel|
                  && t.conns[c].cursor == |s.shared.channel| && t.conns[c].out == [] && t.conns[c].received == []
                  && t.conns[c].phase == Open && !t.conns[c].lagged)
  {
    hide ConnOk, SharedOf, DoneBy, TriedBy, Written, ServedOk, PendingOk, LinesOf, Effect, Compile, Extract,
         CotBuilders.EmergencyCot, CotBuilders.FileshareCot, CotBuilders.PlainAlert, CotBuilders.PlainStamp;
  }

  // ---- Nothing is stuck ----

  lemma ReachNext(env: Env, s: State, step: Step)
    requires Reachable(env, s) && Enabled(s, step)
    ensures Reachable(env, Apply(env, s, step))
  {
    hide Apply, Enabled;
    var states: seq<State>, steps: seq<Step> :| IsRun(env, states, steps) && states[|steps|] == s;
    assert IsRun(env, states + [Apply(env, s, step)], steps + [step]);
  }

  /** An open connection that is not busy can receive everything that is in the channel, without lagging. */
  lemma {:induction false} CatchesUp(env: Env, s: State, c: ConnId) returns (t: State)
    requires Reachable(env, s) && Idle(s, c)
    ensures Reachable(env, t) && t.shared == s.shared && Idle(t, c)
    ensures t.conns[c].cursor == |t.shared.channel| && t.conns[c].lagged == s.conns[c].lagged
    ensures t.conns[c].received == s.conns[c].received && t.conns[c].since == s.conns[c].since
    decreases |s.shared.channel| - s.conns[c].cursor
  {
    hide Reachable;
    InsideChannel(env, s, c);
    if s.conns[c].cursor == |s.shared.channel| {
      t := s;
    } else {
      var next := Apply(env, s, Deliver(c));
      ReachNext(env, s, Deliver(c));
      t := CatchesUp(env, next, c);
    }
  }

  lemma InsideChannel(env: Env, s: State, c: ConnId)
    requires Reachable(env, s) && c in s.conns
    ensures s.conns[c].cursor <= |s.shared.channel|
  {
    hide RelayedIndices, Ascending, Reachable;
    RelayedLines(env, s, c);
  }

  /** The keys of a cache can be walked. */
  lemma {:induction false} Walk(keys: set<string>) returns (order: seq<string>)
    ensures Enumerates(order, keys)
    decreases |keys|
  {
    if keys == {} { order := []; }
    else {
      var u :| u in keys;
      var rest := Walk(keys - {u});
      order := rest + [u];
    }
  }

  lemma FittingOrder(sh: Shared, op: Op) returns (order: seq<string>)
    ensures OrderFits(sh, op, order)
  {
    hide Enumerates;
    if op.ReplayPresence? { order := Walk(sh.presence.Keys); }
    else if op.ReplayRepeat? { order := Walk(sh.repeated.Keys); }
    else { order := []; }
  }

  /** A connection that has begun to handle a read, or its cleanup, can finish. */
  lemma {:induction false} Finishes(env: Env, s: State, c: ConnId) returns (t: State)
    requires Reachable(env, s) && c in s.conns && s.conns[c].phase != Dead
    ensures Reachable(env, t) && c in t.conns && t.conns[c].todo == [] && t.conns[c].phase == s.conns[c].phase
    ensures t.conns[c].received == s.conns[c].received
    decreases |s.conns[c].todo|
  {
    hide Reachable, OrderFits, LinesOf, Effect;
    if s.conns[c].todo == [] { t := s; }
    else {
      var order := FittingOrder(s.shared, s.conns[c].todo[0]);
      var next := Apply(env, s, Exec(c, order, 0));
      ReachNext(env, s, Exec(c, order, 0));
      t := Finishes(env, next, c);
    }
  }
}
