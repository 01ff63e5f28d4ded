/** The relay's shared maps and channel, updated in place by one connection at a time. */
module RelayServer {
  import opened Substrings
  import opened Conservation
  import opened Relay
  import opened RelayTraces
  import opened RelayTheorems

  /** Operations run one after the other with nothing in between. */
  function Effects(env: Env, sh: Shared, c: ConnId, ops: seq<Op>, now: nat): Shared
    decreases |ops|
  {
    if ops == [] then sh else Effects(env, Effect(env, sh, c, ops[0], now), c, ops[1..], now)
  }

  lemma OneEffect(env: Env, sh: Shared, c: ConnId, a: Op, now: nat)
    ensures Effects(env, sh, c, [a], now) == Effect(env, sh, c, a, now)
  {
    hide Effect;
    assert [a][1..] == [];
  }

  lemma TwoEffects(env: Env, sh: Shared, c: ConnId, a: Op, b: Op, now: nat)
    ensures Effects(env, sh, c, [a, b], now) == Effect(env, Effect(env, sh, c, a, now), c, b, now)
  {
    hide Effect;
    assert [a, b][1..] == [b];
    OneEffect(env, Effect(env, sh, c, a, now), c, b, now);
  }

  lemma ThreeEffects(env: Env, sh: Shared, c: ConnId, a: Op, b: Op, d: Op, now: nat)
    ensures Effects(env, sh, c, [a, b, d], now)
         == Effect(env, Effect(env, Effect(env, sh, c, a, now), c, b, now), c, d, now)
  {
    hide Effect;
    assert [a, b, d][1..] == [b, d];
    TwoEffects(env, Effect(env, sh, c, a, now), c, b, d, now);
  }

  lemma {:induction false} EffectsConcat(env: Env, sh: Shared, c: ConnId, a: seq<Op>, b: seq<Op>, now: nat)
    ensures Effects(env, sh, c, a + b, now) == Effects(env, Effects(env, sh, c, a, now), c, b, now)
    decreases |a|
  {
    hide Effect;
    if a == [] { assert a + b == b; }
    else {
      assert (a + b)[0] == a[0] && (a + b)[1..] == a[1..] + b;
      EffectsConcat(env, Effect(env, sh, c, a[0], now), c, a[1..], b, now);
    }
  }

  // ---- What handling a read writes to the connection's own socket ----

  function Pongs(n: nat): seq<Line> { seq(n, _ => PongLine) }

  function EventLines(cot: Cot): seq<Line> { if cot.kind == PING && !IsWinTak(cot.uid) then [PongLine] else [] }

  /** The two caches, each walked in some order, if this read holds the first event parsed and its uid is not a WinTAK
      one; and one pong for each ping of a uid that is not. */
  ghost predicate Emits(env: Env, sh: Shared, frames: seq<Bytes>, sent: bool, po: seq<string>, ro: seq<string>,
      now: nat, lines: seq<Line>) {
    var first := FirstUid(env, frames);
    if !sent && first.Some? && !IsWinTak(first.value) then
      && Enumerates(po, sh.presence.Keys) && Enumerates(ro, sh.repeated.Keys)
      && lines == CacheLines(env, sh.presence, PRESENCE_MINUTES, po, now)
                  + CacheLines(env, sh.repeated, REPEAT_MINUTES, ro, now)
                  + Pongs(Pings(env, frames))
    else lines == Pongs(Pings(env, frames))
  }

  lemma {:induction false} FirstUidSnoc(env: Env, frames: seq<Bytes>, x: Bytes)
    ensures FirstUid(env, frames + [x]) == if FirstUid(env, frames).Some? then FirstUid(env, frames)
                                           else match Parsed(env, x) case None => None case Some(cot) => Some(cot.uid)
    ensures Pings(env, frames + [x]) == Pings(env, frames) +
              match Parsed(env, x) case None => 0 case Some(cot) => |EventLines(cot)|
  {
    hide Parsed, IsWinTak;
    if frames == [] {
      assert frames + [x] == [x] && [x][1..] == [];
    } else {
      assert (frames + [x])[0] == frames[0] && (frames + [x])[1..] == frames[1..] + [x];
      FirstUidSnoc(env, frames[1..], x);
    }
  }

  lemma {:induction false} FirstUidIff(env: Env, frames: seq<Bytes>)
    ensures FirstUid(env, frames).Some? <==> AnyParsed(env, frames)
    ensures !AnyParsed(env, frames) ==> Compile(env, frames, false) == [] && Pings(env, frames) == 0
  {
    hide Parsed, AnyParsed;
    if frames == [] { NoneParsed(env); }
    else {
      AnyParsedHead(env, frames);
      FirstUidIff(env, frames[1..]);
    }
  }

  lemma PongsConcat(n: nat, cot: Cot)
    ensures Pongs(n) + EventLines(cot) == Pongs(n + |EventLines(cot)|)
  {
  }

  lemma EmitsUnparsed(env: Env, sh: Shared, frames: seq<Bytes>, x: Bytes, sent: bool, po: seq<string>,
      ro: seq<string>, now: nat, lines: seq<Line>)
    requires Emits(env, sh, frames, sent, po, ro, now, lines) && Parsed(env, x).None?
    ensures Emits(env, sh, frames + [x], sent, po, ro, now, lines)
  {
    hide Parsed, IsWinTak, Enumerates, CacheLines, FirstUid, Pings, Pongs;
    FirstUidSnoc(env, frames, x);
  }

  /** An event that is not the first to be parsed adds at most a pong. */
  lemma EmitsMore(env: Env, sh: Shared, frames: seq<Bytes>, x: Bytes, sent: bool, po: seq<string>, ro: seq<string>,
      now: nat, lines: seq<Line>)
    requires Emits(env, sh, frames, sent, po, ro, now, lines)
    requires Parsed(env, x).Some? && (sent || AnyParsed(env, frames))
    ensures Emits(env, sh, frames + [x], sent, po, ro, now, lines + EventLines(Parsed(env, x).value))
  {
    hide Parsed, IsWinTak, CacheLines, FirstUid, Pings, Pongs, EventLines, AnyParsed, Compile;
    var cot := Parsed(env, x).value;
    FirstUidSnoc(env, frames, x);
    FirstUidIff(env, frames);
    PongsConcat(Pings(env, frames), cot);
    if !sent && !IsWinTak(FirstUid(env, frames).value) {
      var replay := CacheLines(env, sh.presence, PRESENCE_MINUTES, po, now)
                    + CacheLines(env, sh.repeated, REPEAT_MINUTES, ro, now);
      assert (replay + Pongs(Pings(env, frames))) + EventLines(cot)
             == replay + (Pongs(Pings(env, frames)) + EventLines(cot));
    }
  }

  /** The first event to be parsed comes after the replay, if there is one. */
  lemma EmitsFirst(env: Env, sh: Shared, frames: seq<Bytes>, x: Bytes, po: seq<string>, ro: seq<string>, now: nat)
    requires Parsed(env, x).Some? && !AnyParsed(env, frames)
    ensures var cot := Parsed(env, x).value;
            && (IsWinTak(cot.uid) ==> Emits(env, sh, frames + [x], false, po, ro, now, EventLines(cot)))
            && (!IsWinTak(cot.uid) && Enumerates(po, sh.presence.Keys) && Enumerates(ro, sh.repeated.Keys) ==>
                 Emits(env, sh, frames + [x], false, po, ro, now,
                       CacheLines(env, sh.presence, PRESENCE_MINUTES, po, now)
                       + CacheLines(env, sh.repeated, REPEAT_MINUTES, ro, now)
                       + EventLines(cot)))
  {
    hide Parsed, IsWinTak, CacheLines, FirstUid, Pings, EventLines, AnyParsed, Compile;
    var cot := Parsed(env, x).value;
    FirstUidSnoc(env, frames, x);
    FirstUidIff(env, frames);
    PongsConcat(0, cot);
    assert Pongs(0) + EventLines(cot) == EventLines(cot);
  }

  lemma EmitsNothing(env: Env, sh: Shared, sent: bool, now: nat)
    ensures Emits(env, sh, [], sent, [], [], now, [])
  {
  }

  class Server {
    var presence: map<string, Bytes>
    var repeated: map<string, Bytes>
    var connState: map<ConnId, ConnState>
    var uidToConn: map<string, ConnId>
    var channel: seq<Msg>

    constructor ()
      ensures View() == EMPTY
    {
      presence, repeated, connState, uidToConn, channel := map[], map[], map[], map[], [];
    }

    ghost function View(): Shared
      reads this
    {
      Shared(presence, repeated, connState, uidToConn, channel)
    }

    /** `update_connection_state` is the two operations of an announcing event. */
    method UpdateConnectionState(env: Env, c: ConnId, uid: string, callsign: Option<string>, ghost now: nat)
      modifies this`connState, this`uidToConn
      ensures View() == Effects(env, old(View()), c, [SetState(uid, callsign), SetUid(uid)], now)
    {
      var before := if c in connState then connState[c].callsign else None;
      connState := connState[c := ConnState(uid, before)];
      if callsign.Some? && callsign.value != "" {
        connState := connState[c := ConnState(uid, callsign)];
      }
      uidToConn := uidToConn[uid := c];
      TwoEffects(env, old(View()), c, SetState(uid, callsign), SetUid(uid), now);
    }

    /** `cleanup_connection` is the registry part of the end-of-stream program. */
    method CleanupConnection(env: Env, c: ConnId, ghost now: nat) returns (uid: Option<string>)
      modifies this`connState, this`uidToConn, this`presence
      ensures uid == UidOf(old(View()), c)
      ensures View() == Effects(env, old(View()), c, if uid.Some? then EofOps(uid)[..3] else EofOps(uid), now)
    {
      uid := None;
      if c in connState {
        uid := Some(connState[c].uid);
      }
      connState := connState - {c};
      if uid.Some? {
        uidToConn := uidToConn - {uid.value};
        presence := presence - {uid.value};
        ThreeEffects(env, old(View()), c, TakeState, DropUid(uid.value), DropPresence(uid.value), now);
        assert EofOps(uid)[..3] == [TakeState, DropUid(uid.value), DropPresence(uid.value)];
      } else {
        OneEffect(env, old(View()), c, TakeState, now);
      }
    }

    /** End of stream: clean up, and tell the others when the connection had a uid. */
    method HandleEof(env: Env, c: ConnId, now: nat)
      modifies this
      ensures View() == Effects(env, old(View()), c, EofOps(UidOf(old(View()), c)), now)
    {
      var uid := CleanupConnection(env, c, now);
      if uid.Some? {
        var u := uid.value;
        ghost var before := View();
        channel := channel + [Msg(c, env.disconnect(u, now), Farewell(u, now))];
        OneEffect(env, before, c, SendDisconnect(u), now);
        EffectsConcat(env, old(View()), c, EofOps(uid)[..3], [SendDisconnect(u)], now);
        assert EofOps(uid)[..3] + [SendDisconnect(u)] == EofOps(uid);
      }
    }

    /** `remove_presence` tells whether there was anything to remove. */
    method RemovePresence(env: Env, c: ConnId, uid: string, ghost now: nat) returns (removed: bool)
      modifies this`presence
      ensures removed <==> uid in old(presence)
      ensures View() == Effect(env, old(View()), c, DropPresence(uid), now)
    {
      removed := uid in presence;
      presence := presence - {uid};
    }

    /** One cache of `send_cached_events`: every entry once, with fresh times, in some order. */
    method SendCache(env: Env, cache: map<string, Bytes>, minutes: nat, now: nat)
      returns (lines: seq<Line>, ghost order: seq<string>)
      ensures Enumerates(order, cache.Keys) && lines == CacheLines(env, cache, minutes, order, now)
    {
      lines, order := [], [];
      var left := cache.Keys;
      while left != {}
        invariant left <= cache.Keys && Enumerates(order, cache.Keys - left)
        invariant lines == CacheLines(env, cache, minutes, order, now)
        decreases |left|
      {
        var u :| u in left;
        lines := lines + [Replayed(cache[u], env.refresh(cache[u], now, minutes))];
        order := order + [u];
        left := left - {u};
      }
      assert cache.Keys - {} == cache.Keys;
    }

    /** What one parsed event does to the caches, the registry and the channel, and the pong it may write. */
    method HandleEvent(env: Env, c: ConnId, cot: Cot, event: Bytes, ghost now: nat) returns (lines: seq<Line>)
      modifies this
      ensures View() == Effects(env, old(View()), c, EventOps(cot, event), now)
      ensures lines == EventLines(cot)
    {
      hide Effects, IsPresence, ShouldRepeat, IsWinTak;
      lines := [];
      if cot.kind == PING || cot.kind == PONG {
        if cot.kind == PING && !IsWinTak(cot.uid) {
          lines := [PongLine];
        }
        NoEffects(env, View(), c, EventOps(cot, event), now);
        return;
      }
      ghost var ops: seq<Op> := [];
      if cot.kind == DISCONNECT {
        var _ := RemovePresence(env, c, cot.uid, now);
        ops := [DropPresence(cot.uid)];
        OneEffect(env, old(View()), c, DropPresence(cot.uid), now);
      } else if IsPresence(cot.kind) {
        UpdateConnectionState(env, c, cot.uid, cot.callsign, now);
        ghost var mid := View();
        presence := presence[cot.uid := event];
        ops := [SetState(cot.uid, cot.callsign), SetUid(cot.uid)] + [PutPresence(cot.uid, event)];
        OneEffect(env, mid, c, PutPresence(cot.uid, event), now);
        EffectsConcat(env, old(View()), c, [SetState(cot.uid, cot.callsign), SetUid(cot.uid)],
                      [PutPresence(cot.uid, event)], now);
      } else if ShouldRepeat(cot.kind) {
        repeated := repeated[cot.uid := event];
        ops := [PutRepeat(cot.uid, event)];
        OneEffect(env, old(View()), c, PutRepeat(cot.uid, event), now);
      } else if cot.hasContact {
        UpdateConnectionState(env, c, cot.uid, cot.callsign, now);
        ops := [SetState(cot.uid, cot.callsign), SetUid(cot.uid)];
      } else {
        NoEffects(env, View(), c, [], now);
      }
      ghost var mid := View();
      assert mid == Effects(env, old(View()), c, ops, now);
      channel := channel + [Msg(c, event, FromClient)];
      OneEffect(env, mid, c, Send(event), now);
      EffectsConcat(env, old(View()), c, ops, [Send(event)], now);
      assert ops + [Send(event)] == EventOps(cot, event);
    }

    /** The loop over the frames of one read: strip, skip what does not parse, handle the rest.
        Without interference it computes the program of the state machine. */
    method HandleFrames(env: Env, c: ConnId, frames: seq<Bytes>, sent: bool, now: nat)
      returns (replaySent: bool, lines: seq<Line>, ghost po: seq<string>, ghost ro: seq<string>)
      modifies this
      ensures View() == Effects(env, old(View()), c, Compile(env, frames, sent), now)
      ensures replaySent == (sent || AnyParsed(env, frames))
      ensures Emits(env, old(View()), frames, sent, po, ro, now, lines)
    {
      hide Effects, Compile, AnyParsed, Emits, EventOps, EventLines, Strip, ReplayOps, IsWinTak, Enumerates, CacheLines;
      replaySent, lines, po, ro := sent, [], [], [];
      NoEffects(env, View(), c, [], now);
      assert frames[..0] == [];
      CompileNone(env, sent);
      EmitsNothing(env, View(), sent, now);
      for i := 0 to |frames|
        invariant View() == Effects(env, old(View()), c, Compile(env, frames[..i], sent), now)
        invariant replaySent == (sent || AnyParsed(env, frames[..i]))
        invariant Emits(env, old(View()), frames[..i], sent, po, ro, now, lines)
      {
        var event := StripXmlDeclaration(frames[i]);
        assert frames[..i + 1] == frames[..i] + [frames[i]];
        AnyParsedConcat(env, frames[..i], [frames[i]]);
        CompileOne(env, frames[i], replaySent);
        if event == [] || env.parse(event).None? {
          EmitsUnparsed(env, old(View()), frames[..i], frames[i], sent, po, ro, now, lines);
          FramesNext(env, old(View()), c, frames[..i], frames[i], sent, now);
          continue;
        }
        var cot := env.parse(event).value;
        var more;
        if replaySent {
          more := HandleEvent(env, c, cot, event, now);
          EmitsMore(env, old(View()), frames[..i], frames[i], sent, po, ro, now, lines);
          lines := lines + more;
        } else {
          Untouched(env, old(View()), c, frames[..i], now);
          if IsWinTak(cot.uid) {
            lines := [];
          } else {
            var a, b;
            a, po := SendCache(env, presence, PRESENCE_MINUTES, now);
            b, ro := SendCache(env, repeated, REPEAT_MINUTES, now);
            lines := a + b;
          }
          EmitsFirst(env, old(View()), frames[..i], frames[i], po, ro, now);
          more := HandleEvent(env, c, cot, event, now);
          assert [] + more == more;
          lines := lines + more;
        }
        FramesNext(env, old(View()), c, frames[..i], frames[i], sent, now);
        replaySent := true;
      }
      assert frames[..|frames|] == frames;
    }
  }

  /** Before anything was parsed nothing has changed. */
  lemma Untouched(env: Env, sh: Shared, c: ConnId, frames: seq<Bytes>, now: nat)
    requires !AnyParsed(env, frames)
    ensures Effects(env, sh, c, Compile(env, frames, false), now) == sh
  {
    hide AnyParsed, Compile;
    FirstUidIff(env, frames);
  }

  /** The effect of one frame more: that of its event, for a replay leaves the maps alone. */
  lemma FramesNext(env: Env, sh: Shared, c: ConnId, frames: seq<Bytes>, x: Bytes, sent: bool, now: nat)
    ensures var mid := Effects(env, sh, c, Compile(env, frames, sent), now);
            Effects(env, sh, c, Compile(env, frames + [x], sent), now)
            == match Parsed(env, x)
               case None => mid
               case Some(cot) => Effects(env, mid, c, EventOps(cot, Strip(x)), now)
  {
    hide Effects, Compile, EventOps, AnyParsed, Strip, ReplayOps, Parsed;
    var mid := Effects(env, sh, c, Compile(env, frames, sent), now);
    var also := sent || AnyParsed(env, frames);
    CompileConcat(env, frames, [x], sent);
    CompileOne(env, x, also);
    EffectsConcat(env, sh, c, Compile(env, frames, sent), Compile(env, [x], also), now);
    match Parsed(env, x)
    case None => NoEffects(env, mid, c, [], now);
    case Some(cot) =>
      ReplayLeavesShared(env, mid, c, cot, also, now);
      EffectsConcat(env, mid, c, ReplayOps(cot, also), EventOps(cot, Strip(x)), now);
  }

  lemma CompileNone(env: Env, sent: bool)
    ensures Compile(env, [], sent) == [] && !AnyParsed(env, [])
  {
  }

  lemma CompileOne(env: Env, frame: Bytes, sent: bool)
    ensures Compile(env, [frame], sent) == match Parsed(env, frame)
              case None => []
              case Some(cot) => ReplayOps(cot, sent) + EventOps(cot, Strip(frame))
    ensures AnyParsed(env, [frame]) <==> Parsed(env, frame).Some?
  {
    hide ReplayOps, EventOps, Strip, Parsed;
    assert [frame][1..] == [];
    CompileNone(env, sent);
    CompileNone(env, true);
    if Parsed(env, frame).Some? { assert [frame][0] == frame; }
  }

  /** Operations that only write to the connection's own socket. */
  lemma {:induction false} NoEffects(env: Env, sh: Shared, c: ConnId, ops: seq<Op>, now: nat)
    requires forall op | op in ops :: Writes(op)
    ensures Effects(env, sh, c, ops, now) == sh
  {
    if ops != [] {
      assert ops[0] in ops;
      NoEffects(env, sh, c, ops[1..], now);
    }
  }

  lemma ReplayLeavesShared(env: Env, sh: Shared, c: ConnId, cot: Cot, sent: bool, now: nat)
    ensures Effects(env, sh, c, ReplayOps(cot, sent), now) == sh
  {
    hide IsWinTak;
    NoEffects(env, sh, c, ReplayOps(cot, sent), now);
  }
}
