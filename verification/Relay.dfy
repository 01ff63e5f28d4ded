/** The relay as a state machine: every connection runs a straight-line program of atomic
    operations per event, and the operations of all connections interleave freely. */
module Relay {
  import opened Substrings
  import opened Framing
  import opened Conservation
  import CotBuilders

  type ConnId = nat

  /** What `parse_cot` reads from an event. */
  datatype Cot = Cot(uid: string, kind: string, callsign: Option<string>, hasContact: bool)

  /** The XML reader; the timestamp rewriting, at a clock value and for so many minutes; and the disconnect event,
      at a clock value. */
  datatype Env = Env(
    parse: Bytes -> Option<Cot>,
    refresh: (Bytes, nat, nat) -> Bytes,
    disconnect: (string, nat) -> Bytes)

  const PRESENCE_MINUTES := 5
  const REPEAT_MINUTES := 24 * 60

  // ---- Type classifiers ----

  predicate IsPresence(kind: string) { "a-f-G-" <= kind }
  predicate IsDropPoint(kind: string) { kind in {"a-h-G", "a-n-G", "a-f-G", "a-u-G"} }
  predicate ShouldRepeat(kind: string) { "b-m-" <= kind || IsDropPoint(kind) }
  predicate IsWinTak(uid: string) { "S-1-5-21-" <= uid }

  const PING := "t-x-c-t"
  const PONG := "t-x-c-t-r"
  const DISCONNECT := "t-x-d-d"

  // ---- Operations ----

  /** One atomic operation of a connection: a lock acquisition, a channel send, or a socket write. */
  datatype Op =
    | ReplayPresence
    | ReplayRepeat
    | WritePong
    | SetState(uid: string, callsign: Option<string>)
    | SetUid(uid: string)
    | PutPresence(uid: string, event: Bytes)
    | DropPresence(uid: string)
    | PutRepeat(uid: string, event: Bytes)
    | Send(event: Bytes)
    | TakeState
    | DropUid(uid: string)
    | SendDisconnect(uid: string)

  predicate Writes(op: Op) { op.ReplayPresence? || op.ReplayRepeat? || op.WritePong? }

  /** The program of one parsed event, after any replay. */
  function EventOps(cot: Cot, event: Bytes): seq<Op> {
    if cot.kind == PING then (if IsWinTak(cot.uid) then [] else [WritePong])
    else if cot.kind == PONG then []
    else if cot.kind == DISCONNECT then [DropPresence(cot.uid), Send(event)]
    else if IsPresence(cot.kind) then
      [SetState(cot.uid, cot.callsign), SetUid(cot.uid), PutPresence(cot.uid, event), Send(event)]
    else if ShouldRepeat(cot.kind) then [PutRepeat(cot.uid, event), Send(event)]
    else if cot.hasContact then [SetState(cot.uid, cot.callsign), SetUid(cot.uid), Send(event)]
    else [Send(event)]
  }

  function ReplayOps(cot: Cot, replaySent: bool): seq<Op> {
    if replaySent || IsWinTak(cot.uid) then [] else [ReplayPresence, ReplayRepeat]
  }

  /** What the server reads from a frame: nothing when it strips to nothing or holds no event. */
  function Parsed(env: Env, frame: Bytes): Option<Cot> {
    var event := Strip(frame);
    if event == [] then None else env.parse(event)
  }

  function Compile(env: Env, frames: seq<Bytes>, replaySent: bool): seq<Op> {
    if frames == [] then []
    else match Parsed(env, frames[0])
      case None => Compile(env, frames[1..], replaySent)
      case Some(cot) =>
        ReplayOps(cot, replaySent) + EventOps(cot, Strip(frames[0])) + Compile(env, frames[1..], true)
  }

  /** Whether some frame has been parsed, which is when `replay_sent` is set. */
  predicate AnyParsed(env: Env, frames: seq<Bytes>) {
    exists i :: 0 <= i < |frames| && Parsed(env, frames[i]).Some?
  }

  /** Cleanup at end of stream, for a connection that last announced `uid`. */
  function EofOps(uid: Option<string>): seq<Op> {
    match uid
    case None => [TakeState]
    case Some(u) => [TakeState, DropUid(u), DropPresence(u), SendDisconnect(u)]
  }

  // ---- Shared state ----

  datatype ConnState = ConnState(uid: string, callsign: Option<string>)

  /** What a channel message is: a client's event, the disconnect event of an ended connection, a file share,
      an emergency, or a cached event with fresh times. */
  datatype Origin =
    | FromClient
    | Farewell(uid: string, now: nat)
    | FileShare(share: CotBuilders.Share, stamp: CotBuilders.Stamp)
    | Emergency(alert: CotBuilders.Alert)
    | Refreshed(event: Bytes, minutes: nat, now: nat)

  datatype Msg = Msg(from: ConnId, bytes: Bytes, origin: Origin)

  datatype Shared = Shared(
    presence: map<string, Bytes>,
    repeated: map<string, Bytes>,
    connState: map<ConnId, ConnState>,
    uidToConn: map<string, ConnId>,
    channel: seq<Msg>)

  function NewCallsign(current: Option<string>, announced: Option<string>): Option<string> {
    if announced.Some? && announced.value != "" then announced else current
  }

  function Effect(env: Env, sh: Shared, c: ConnId, op: Op, now: nat): Shared {
    match op
    case SetState(u, cs) =>
      var before := if c in sh.connState then sh.connState[c].callsign else None;
      sh.(connState := sh.connState[c := ConnState(u, NewCallsign(before, cs))])
    case SetUid(u) => sh.(uidToConn := sh.uidToConn[u := c])
    case PutPresence(u, e) => sh.(presence := sh.presence[u := e])
    case DropPresence(u) => sh.(presence := sh.presence - {u})
    case PutRepeat(u, e) => sh.(repeated := sh.repeated[u := e])
    case Send(e) => sh.(channel := sh.channel + [Msg(c, e, FromClient)])
    case TakeState => sh.(connState := sh.connState - {c})
    case DropUid(u) => sh.(uidToConn := sh.uidToConn - {u})
    case SendDisconnect(u) => sh.(channel := sh.channel + [Msg(c, env.disconnect(u, now), Farewell(u, now))])
    case ReplayPresence => sh
    case ReplayRepeat => sh
    case WritePong => sh
  }

  // ---- Socket output ----

  datatype Line = Replayed(event: Bytes, data: Bytes) | PongLine | Relayed(index: nat, data: Bytes)

  /** `order` lists every key of a cache once; a hash map may be walked in any order. */
  ghost predicate Enumerates(order: seq<string>, keys: set<string>) {
    (forall u :: u in order <==> u in keys) && forall i, j | 0 <= i < j < |order| :: order[i] != order[j]
  }

  function CacheLines(env: Env, cache: map<string, Bytes>, minutes: nat, order: seq<string>, now: nat): seq<Line>
    requires forall u | u in order :: u in cache
  {
    seq(|order|, i requires 0 <= i < |order| => Replayed(cache[order[i]], env.refresh(cache[order[i]], now, minutes)))
  }

  ghost predicate OrderFits(sh: Shared, op: Op, order: seq<string>) {
    (op.ReplayPresence? ==> Enumerates(order, sh.presence.Keys))
    && (op.ReplayRepeat? ==> Enumerates(order, sh.repeated.Keys))
  }

  /** What an operation writes to its own socket. */
  ghost function LinesOf(env: Env, sh: Shared, op: Op, order: seq<string>, now: nat): seq<Line> {
    if !OrderFits(sh, op, order) then [] else
    match op
    case ReplayPresence => CacheLines(env, sh.presence, PRESENCE_MINUTES, order, now)
    case ReplayRepeat => CacheLines(env, sh.repeated, REPEAT_MINUTES, order, now)
    case WritePong => [PongLine]
    case _ => []
  }

  // ---- Connections and the whole relay ----

  datatype Phase = Open | Closing | Dead

  datatype Conn = Conn(
    phase: Phase,
    received: seq<Bytes>,  // every read so far
    pending: Bytes,
    replaySent: bool,
    todo: seq<Op>,
    since: nat,          // channel length when it subscribed
    cursor: nat,         // next channel message to receive
    lagged: bool,
    out: seq<Line>)

  /** What has happened to the shared state and to the sockets, in order. */
  datatype Entry =
    | Did(conn: ConnId, op: Op, order: seq<string>, now: nat)
    | Broke(conn: ConnId, op: Op, written: nat, order: seq<string>, now: nat)
    | Served(msg: Msg)

  /** A file share by `uid`, whose sender was looked up when the trace was `at` entries long, and which is not sent
      yet. */
  datatype Pending = Pending(uid: string, at: nat, msg: Msg)

  datatype State = State(
    nextId: ConnId,
    conns: map<ConnId, Conn>,
    shared: Shared,
    trace: seq<Entry>,
    shares: seq<Pending>)

  const CHANNEL_CAPACITY := 100

  datatype Step =
    | Accept
    | Read(c: ConnId, chunk: Bytes)
    | Exec(c: ConnId, order: seq<string>, now: nat)
    | Break(c: ConnId, written: nat, order: seq<string>, now: nat)   // a socket write of the running operation fails
    | Deliver(c: ConnId)
    | Lag(c: ConnId, target: nat)
    | Eof(c: ConnId)
    | Abort(c: ConnId)                                               // a read or the write of a message fails
    | TickPresence(uid: string, now: nat)
    | TickRepeat(uid: string, now: nat)
    | LookUp(share: CotBuilders.Share, stamp: CotBuilders.Stamp)     // a file share reads uid_to_conn ...
    | SendShare(k: nat)                                              // ... and, the lock released, is sent
    | Announce(alert: CotBuilders.Alert)                             // an emergency is raised or cancelled

  const EMPTY := Shared(map[], map[], map[], map[], [])
  const INIT := State(1, map[], EMPTY, [], [])

  ghost predicate Idle(s: State, c: ConnId) {
    c in s.conns && s.conns[c].phase == Open && s.conns[c].todo == []
  }

  ghost predicate Busy(s: State, c: ConnId) {
    c in s.conns && s.conns[c].phase != Dead && s.conns[c].todo != []
  }

  ghost predicate Enabled(s: State, step: Step) {
    match step
    case Accept => true
    case Read(c, chunk) => Idle(s, c) && chunk != []
    case Exec(c, order, _) => Busy(s, c) && OrderFits(s.shared, s.conns[c].todo[0], order)
    case Break(c, _, order, _) =>
      Busy(s, c) && Writes(s.conns[c].todo[0]) && OrderFits(s.shared, s.conns[c].todo[0], order)
    case Deliver(c) => Idle(s, c) && s.conns[c].cursor < |s.shared.channel|
    case Lag(c, target) => Idle(s, c) && s.conns[c].cursor + CHANNEL_CAPACITY < |s.shared.channel|
                           && s.conns[c].cursor < target <= |s.shared.channel|
    case Eof(c) => Idle(s, c)
    case Abort(c) => Idle(s, c)
    case TickPresence(u, _) => u in s.shared.presence
    case TickRepeat(u, _) => u in s.shared.repeated
    case LookUp(_, stamp) => CotBuilders.PlainStamp(stamp)
    case SendShare(k) => k < |s.shares|
    case Announce(alert) => CotBuilders.PlainAlert(alert)
  }

  function Serve(s: State, msg: Msg): State {
    s.(shared := s.shared.(channel := s.shared.channel + [msg]), trace := s.trace + [Served(msg)])
  }

  function WithConn(s: State, c: ConnId, conn: Conn): State { s.(conns := s.conns[c := conn]) }

  function FromOf(sh: Shared, uid: string): ConnId { if uid in sh.uidToConn then sh.uidToConn[uid] else 0 }

  function ShareMsg(from: ConnId, share: CotBuilders.Share, stamp: CotBuilders.Stamp): Msg {
    Msg(from, CotBuilders.FileshareCot(share, stamp), FileShare(share, stamp))
  }

  function RefreshMsg(env: Env, event: Bytes, minutes: nat, now: nat): Msg {
    Msg(0, env.refresh(event, now, minutes), Refreshed(event, minutes, now))
  }

  function AlertMsg(alert: CotBuilders.Alert): Msg { Msg(0, CotBuilders.EmergencyCot(alert), Emergency(alert)) }

  function UidOf(sh: Shared, c: ConnId): Option<string> {
    if c in sh.connState then Some(sh.connState[c].uid) else None
  }

  ghost function Apply(env: Env, s: State, step: Step): State
    requires Enabled(s, step)
  {
    match step
    case Accept =>
      var n := |s.shared.channel|;
      s.(nextId := s.nextId + 1, conns := s.conns[s.nextId := Conn(Open, [], [], false, [], n, n, false, [])])
    case Read(c, chunk) =>
      var conn := s.conns[c];
      var f := Extract(conn.pending + chunk);
      WithConn(s, c, conn.(received := conn.received + [chunk], pending := f.rest,
                           todo := Compile(env, f.events, conn.replaySent),
                           replaySent := conn.replaySent || AnyParsed(env, f.events)))
    case Exec(c, order, now) =>
      var conn := s.conns[c];
      var op := conn.todo[0];
      WithConn(s, c, conn.(todo := conn.todo[1..], out := conn.out + LinesOf(env, s.shared, op, order, now)))
        .(shared := Effect(env, s.shared, c, op, now), trace := s.trace + [Did(c, op, order, now)])
    case Break(c, k, order, now) =>
      var conn := s.conns[c];
      var lines := LinesOf(env, s.shared, conn.todo[0], order, now);
      var n := if k < |lines| then k else |lines|;
      WithConn(s, c, conn.(phase := Dead, todo := [], out := conn.out + lines[..n]))
        .(trace := s.trace + [Broke(c, conn.todo[0], n, order, now)])
    case Deliver(c) =>
      var conn := s.conns[c];
      var msg := s.shared.channel[conn.cursor];
      WithConn(s, c, conn.(cursor := conn.cursor + 1,
                           out := if msg.from == c then conn.out else conn.out + [Relayed(conn.cursor, msg.bytes)]))
    case Lag(c, target) => WithConn(s, c, s.conns[c].(cursor := target, lagged := true))
    case Eof(c) => WithConn(s, c, s.conns[c].(phase := Closing, todo := EofOps(UidOf(s.shared, c))))
    case Abort(c) => WithConn(s, c, s.conns[c].(phase := Dead))
    case TickPresence(u, now) => Serve(s, RefreshMsg(env, s.shared.presence[u], PRESENCE_MINUTES, now))
    case TickRepeat(u, now) => Serve(s, RefreshMsg(env, s.shared.repeated[u], REPEAT_MINUTES, now))
    case LookUp(share, stamp) =>
      s.(shares := s.shares + [Pending(share.uid, |s.trace|, ShareMsg(FromOf(s.shared, share.uid), share, stamp))])
    case SendShare(k) => Serve(s, s.shares[k].msg).(shares := s.shares[..k] + s.shares[k + 1..])
    case Announce(alert) => Serve(s, AlertMsg(alert))
  }

  /** A run: each step is one that the state before it enables. */
  ghost predicate IsRun(env: Env, states: seq<State>, steps: seq<Step>) {
    && |states| == |steps| + 1
    && states[0] == INIT
    && forall i | 0 <= i < |steps| :: Enabled(states[i], steps[i]) && states[i + 1] == Apply(env, states[i], steps[i])
  }

  ghost predicate Reachable(env: Env, s: State) {
    exists states: seq<State>, steps: seq<Step> :: IsRun(env, states, steps) && states[|steps|] == s
  }
}
