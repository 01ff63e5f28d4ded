/** Who is registered under which uid: `conn_state`, `uid_to_conn` and `presence_cache` together. */
module RelayRegistry {
  import opened Substrings
  import opened Framing
  import opened Relay
  import opened RelayTraces
  import opened RelayRuns
  import opened RelayTheorems
  import opened RelayServer
  import CotBuilders

  // ---- Runs in which every connection announces one uid, and no two at a time the same ----

  /** The uid that each connection announces. */
  type Home = ConnId -> string

  predicate Announces(op: Op) { op.SetState? || op.SetUid? || op.PutPresence? }

  /** Every event by which a connection registers carries its own uid. */
  ghost predicate OwnUidOnly(env: Env, home: Home, s: State) {
    forall c | c in s.conns ::
      forall op | op in Compile(env, FramesOf(s.conns[c]), false) && Announces(op) :: op.uid == home(c)
  }

  /** In an open connection's program the registering operations stand directly behind each other. */
  ghost predicate Linked(todo: seq<Op>) {
    && (forall i | 0 <= i < |todo| && todo[i].SetState? :: i + 1 < |todo| && todo[i + 1] == SetUid(todo[i].uid))
    && forall i | 0 < i < |todo| ::
      && (todo[i].SetUid? ==> todo[i - 1].SetState? && todo[i - 1].uid == todo[i].uid)
      && (todo[i].PutPresence? ==> todo[i - 1] == SetUid(todo[i].uid))
  }

  predicate OpenOp(op: Op) { !op.TakeState? && !op.DropUid? && !op.SendDisconnect? }

  ghost predicate OpenOk(h: string, todo: seq<Op>) {
    && Linked(todo)
    && (forall op | op in todo :: OpenOp(op) && (Announces(op) ==> op.uid == h))
  }

  /** What the registry says about connection `c` of home uid `h`. */
  datatype Local = Local(phase: Phase, todo: seq<Op>, registered: Option<string>, found: Option<ConnId>, present: bool)

  function Found(sh: Shared, h: string): Option<ConnId> { if h in sh.uidToConn then Some(sh.uidToConn[h]) else None }

  function LocalOf(s: State, c: ConnId, h: string): Local
    requires c in s.conns
  {
    Local(s.conns[c].phase, s.conns[c].todo, UidOf(s.shared, c), Found(s.shared, h), h in s.shared.presence)
  }

  /** It is registered or about to register, or its cleanup is under way. One that broke is not alive,
      although it keeps its entries. */
  ghost predicate Alive(v: Local) {
    match v.phase
    case Open => v.registered.Some? || exists op :: op in v.todo && Announces(op)
    case Closing => v.todo != [] && v.todo != [TakeState]
    case Dead => false
  }

  ghost predicate Live(home: Home, s: State, c: ConnId) { c in s.conns && Alive(LocalOf(s, c, home(c))) }

  /** No two live connections have the same uid. A later connection may take over the uid of one that broke
      or was cleaned up. */
  ghost predicate Unshared(home: Home, s: State) {
    forall c, d | Live(home, s, c) && Live(home, s, d) && home(c) == home(d) :: c == d
  }

  /** How far the cleanup has come. */
  predicate ClosingOk(c: ConnId, h: string, v: Local) {
    || (v.todo == EofOps(Some(h)) && v.registered.Some? && v.found == Some(c))
    || (v.todo == [TakeState] && v.registered.None? && v.found != Some(c))
    || (v.todo == [DropUid(h), DropPresence(h), SendDisconnect(h)] && v.registered.None? && v.found == Some(c))
    || (v.todo == [DropPresence(h), SendDisconnect(h)] && v.registered.None? && v.found.None?)
    || (v.todo == [SendDisconnect(h)] && v.registered.None? && v.found.None? && !v.present)
    || (v.todo == [] && v.registered.None? && v.found != Some(c))
  }

  /** Registered means found under the uid, except between the two writes of an announcement;
      a connection that broke may have been superseded. */
  ghost predicate LocalOk(c: ConnId, h: string, v: Local) {
    && (v.registered.Some? ==> v.registered == Some(h))
    && match v.phase
       case Open =>
         && OpenOk(h, v.todo)
         && (v.registered.Some? ==> v.found == Some(c) || (v.todo != [] && v.todo[0] == SetUid(h)))
         && (v.found == Some(c) ==> v.registered.Some?)
         && (v.todo != [] && v.todo[0].SetUid? ==> v.registered.Some?)
         && (v.todo != [] && v.todo[0].PutPresence? ==> v.found == Some(c))
       case Closing => ClosingOk(c, h, v)
       case Dead => v.todo == [] && (v.found == Some(c) ==> v.registered.Some?)
  }

  /** Between the two writes of an announcement of `u`. */
  predicate Announcing(conn: Conn, u: string) { conn.todo != [] && conn.todo[0] == SetUid(u) }

  /** After the first, or the first two, writes of the cleanup of `u`. */
  predicate Leaving(conn: Conn, u: string) {
    conn.phase == Closing && conn.todo == [DropUid(u), DropPresence(u), SendDisconnect(u)]
  }
  predicate Left(conn: Conn, u: string) { conn.phase == Closing && conn.todo == [DropPresence(u), SendDisconnect(u)] }

  /** Whoever is present can be found, unless a cleanup is about to remove the presence. */
  ghost predicate PresentIsFound(home: Home, s: State) {
    forall u | u in s.shared.presence ::
      u in s.shared.uidToConn || exists c :: c in s.conns && home(c) == u && Left(s.conns[c], u)
  }

  ghost predicate RegOk(home: Home, s: State) {
    && (forall c | c in s.conns :: LocalOk(c, home(c), LocalOf(s, c, home(c))))
    && (forall c | c in s.shared.connState :: c in s.conns)
    && (forall u | u in s.shared.uidToConn :: s.shared.uidToConn[u] in s.conns && home(s.shared.uidToConn[u]) == u)
    && PresentIsFound(home, s)
  }

  // ---- Programs are linked ----

  lemma LinkedConcat(a: seq<Op>, b: seq<Op>)
    requires Linked(a) && Linked(b) && (b != [] ==> !b[0].SetUid? && !b[0].PutPresence?)
    ensures Linked(a + b)
  {
  }

  lemma EventOpsLinked(cot: Cot, sent: bool, event: Bytes)
    ensures Linked(ReplayOps(cot, sent) + EventOps(cot, event))
    ensures var ops := ReplayOps(cot, sent) + EventOps(cot, event);
            && (ops != [] ==> !ops[0].SetUid? && !ops[0].PutPresence?) && forall op | op in ops :: OpenOp(op)
  {
    hide IsWinTak, IsPresence, ShouldRepeat, Linked, EventOps;
    ReplayLinked(cot, sent);
    EventLinked(cot, event);
    LinkedConcat(ReplayOps(cot, sent), EventOps(cot, event));
  }

  lemma ReplayLinked(cot: Cot, sent: bool)
    ensures Linked(ReplayOps(cot, sent)) && forall op | op in ReplayOps(cot, sent) :: OpenOp(op)
  {
    hide IsWinTak;
  }

  lemma EventLinked(cot: Cot, event: Bytes)
    ensures Linked(EventOps(cot, event)) && forall op | op in EventOps(cot, event) :: OpenOp(op)
    ensures EventOps(cot, event) != [] ==> !EventOps(cot, event)[0].SetUid? && !EventOps(cot, event)[0].PutPresence?
  {
    hide IsWinTak, IsPresence, ShouldRepeat;
  }

  lemma {:induction false} CompileLinked(env: Env, frames: seq<Bytes>, sent: bool)
    ensures var prog := Compile(env, frames, sent);
            && Linked(prog) && (prog != [] ==> !prog[0].SetUid? && !prog[0].PutPresence?)
            && forall op | op in prog :: OpenOp(op)
    decreases |frames|
  {
    hide Parsed, EventOps, ReplayOps, Linked, OpenOp;
    if frames == [] { assert Linked([]) by { EmptyLinked(); } }
    else {
      match Parsed(env, frames[0])
      case None => CompileLinked(env, frames[1..], sent);
      case Some(cot) =>
        CompileLinked(env, frames[1..], true);
        var first := ReplayOps(cot, sent) + EventOps(cot, Conservation.Strip(frames[0]));
        var more := Compile(env, frames[1..], true);
        EventOpsLinked(cot, sent, Conservation.Strip(frames[0]));
        LinkedConcat(first, more);
    }
  }

  lemma EmptyLinked()
    ensures Linked([])
  {
  }

  // ---- Every step ----

  /** A step of `c` changes the registry only at `c` and, if `own`, at its uid, except for removing presence. */
  ghost predicate Elsewhere(home: Home, s: State, t: State, c: ConnId, own: bool) {
    && c in t.conns && s.conns.Keys <= t.conns.Keys <= s.conns.Keys + {c}
    && (forall d | d in s.conns && d != c ::
          t.conns[d].phase == s.conns[d].phase && t.conns[d].todo == s.conns[d].todo)
    && (forall d | d != c :: UidOf(t.shared, d) == UidOf(s.shared, d))
    && (forall u | !(own && u == home(c)) ::
          Found(t.shared, u) == Found(s.shared, u) && (u in t.shared.presence ==> u in s.shared.presence))
    && Found(t.shared, home(c)) in {Found(s.shared, home(c)), Some(c), None}
  }

  /** What may happen to the uid of a connection without its doing. */
  lemma Unaffected(d: ConnId, h: string, v: Local, found: Option<ConnId>, present: bool)
    requires LocalOk(d, h, v)
    ensures found == v.found && (present ==> v.present) ==> LocalOk(d, h, v.(present := present))
    ensures !Alive(v) && (found == v.found || found != Some(d)) ==>
              LocalOk(d, h, v.(found := found, present := present))
  {
    hide OpenOk;
    if v.phase == Open && v.todo != [] { assert v.todo[0] in v.todo; }
  }

  lemma OthersPart(home: Home, s: State, t: State, c: ConnId, own: bool, d: ConnId)
    requires RegOk(home, s) && Elsewhere(home, s, t, c, own) && d in t.conns && d != c
    requires own ==> Live(home, s, c) && Unshared(home, s)
    ensures LocalOk(d, home(d), LocalOf(t, d, home(d)))
  {
    hide LocalOk, Alive, PresentIsFound;
    assert d in s.conns;
    var v, w := LocalOf(s, d, home(d)), LocalOf(t, d, home(d));
    Unaffected(d, home(d), v, w.found, w.present);
    assert w == v.(found := w.found, present := w.present);
    if own && home(d) == home(c) {
      assert !Live(home, s, d);
    } else {
      assert w == v.(present := w.present);
    }
  }

  lemma LocalStep(home: Home, s: State, t: State, c: ConnId, own: bool)
    requires RegOk(home, s) && Elsewhere(home, s, t, c, own) && LocalOk(c, home(c), LocalOf(t, c, home(c)))
    requires own ==> Live(home, s, c) && Unshared(home, s)
    requires own && home(c) in t.shared.presence ==> home(c) in t.shared.uidToConn || Left(t.conns[c], home(c))
    requires !own && c in s.conns && Left(s.conns[c], home(c)) ==> Left(t.conns[c], home(c))
    ensures RegOk(home, t)
  {
    hide LocalOk, Alive, PresentIsFound;
    forall d | d in t.conns && d != c ensures LocalOk(d, home(d), LocalOf(t, d, home(d))) {
      OthersPart(home, s, t, c, own, d);
    }
    forall d | d in t.shared.connState ensures d in t.conns { assert d != c ==> UidOf(s.shared, d).Some?; }
    forall u | u in t.shared.uidToConn ensures t.shared.uidToConn[u] in t.conns && home(t.shared.uidToConn[u]) == u {
      assert Found(t.shared, u) == Some(t.shared.uidToConn[u]);
    }
    PresenceStep(home, s, t, c, own);
  }

  lemma PresenceStep(home: Home, s: State, t: State, c: ConnId, own: bool)
    requires PresentIsFound(home, s) && Elsewhere(home, s, t, c, own)
    requires own && home(c) in t.shared.presence ==> home(c) in t.shared.uidToConn || Left(t.conns[c], home(c))
    requires !own && c in s.conns && Left(s.conns[c], home(c)) ==> Left(t.conns[c], home(c))
    ensures PresentIsFound(home, t)
  {
    hide UidOf;
    forall u | u in t.shared.presence
      ensures u in t.shared.uidToConn || exists d :: d in t.conns && home(d) == u && Left(t.conns[d], u)
    {
      if !(own && u == home(c)) {
        assert u in s.shared.presence && Found(t.shared, u) == Found(s.shared, u);
        if u !in s.shared.uidToConn {
          var d :| d in s.conns && home(d) == u && Left(s.conns[d], u);
          assert d in t.conns && Left(t.conns[d], u);
        }
      }
    }
  }

  /** What a read adds to the program of an idle connection. */
  lemma ReadProgram(env: Env, s: State, c: ConnId, chunk: Bytes)
    requires Inv(env, s) && Enabled(s, Read(c, chunk))
    ensures var conn, after := s.conns[c], Apply(env, s, Read(c, chunk)).conns[c];
            && Compile(env, FramesOf(after), false) == Compile(env, FramesOf(conn), false) + after.todo
            && Linked(after.todo) && (after.todo != [] ==> !after.todo[0].SetUid? && !after.todo[0].PutPresence?)
            && forall op | op in after.todo :: OpenOp(op)
  {
    hide Compile, Feed, Extract, AnyParsed, SharedOf, DoneBy, TriedBy, Written, OutputOk, Linked, PendingOk, ServedOk;
    var t := Apply(env, s, Read(c, chunk));
    ReadKeeps(env, s, c, chunk);
    assert ConnOk(env, s, c) && ConnOk(env, t, c);
    assert DoneBy(s.trace, c) + [] == DoneBy(s.trace, c);
    CompileLinked(env, Extract(s.conns[c].pending + chunk).events, s.conns[c].replaySent);
  }

  /** What a read may do to the part of a connection: it gets a program of its own announcements. */
  lemma LocalRead(c: ConnId, h: string, v: Local, todo: seq<Op>)
    requires LocalOk(c, h, v) && v.phase == Open && v.todo == [] && OpenOk(h, todo)
    requires todo != [] ==> !todo[0].SetUid? && !todo[0].PutPresence?
    ensures LocalOk(c, h, v.(todo := todo))
  {
    hide OpenOk;
  }

  lemma ReadReg(env: Env, home: Home, s: State, c: ConnId, chunk: Bytes)
    requires Inv(env, s) && RegOk(home, s) && Enabled(s, Read(c, chunk))
    requires OwnUidOnly(env, home, Apply(env, s, Read(c, chunk)))
    ensures RegOk(home, Apply(env, s, Read(c, chunk)))
  {
    hide Compile, FramesOf, Extract, AnyParsed, Linked, Inv, LocalOk, PresentIsFound;
    var t := Apply(env, s, Read(c, chunk));
    var after := t.conns[c];
    ReadProgram(env, s, c, chunk);
    assert forall op | op in after.todo :: op in Compile(env, FramesOf(after), false);
    LocalRead(c, home(c), LocalOf(s, c, home(c)), after.todo);
    LocalStep(home, s, t, c, false);
  }

  /** Executing the first operation of an open connection leaves a linked program. */
  lemma OpenRest(h: string, todo: seq<Op>)
    requires OpenOk(h, todo) && todo != []
    ensures OpenOk(h, todo[1..]) && OpenOp(todo[0]) && (Announces(todo[0]) ==> todo[0].uid == h)
    ensures todo[0].SetState? ==> |todo| > 1 && todo[1] == SetUid(h)
    ensures |todo| > 1 && todo[1].SetUid? ==> todo[0].SetState?
    ensures |todo| > 1 && todo[1].PutPresence? ==> todo[0] == SetUid(h)
  {
    assert todo[0] in todo;
    assert |todo| > 1 ==> todo[1] in todo;
    assert Linked(todo[1..]);
  }

  /** The effect of an operation of `c` on its part of the registry. */
  function LocalEffect(c: ConnId, h: string, v: Local, op: Op): Local {
    var w := match op
      case SetState(u, _) => v.(registered := Some(u))
      case SetUid(u) => if u == h then v.(found := Some(c)) else v
      case PutPresence(u, _) => if u == h then v.(present := true) else v
      case DropPresence(u) => if u == h then v.(present := false) else v
      case TakeState => v.(registered := None)
      case DropUid(u) => if u == h then v.(found := None) else v
      case _ => v;
    w.(todo := if w.todo == [] then [] else w.todo[1..])
  }

  /** The uid is present only if it can be found or the presence is the next to go. */
  predicate Explained(h: string, v: Local) {
    v.present ==> v.found.Some? || (v.phase == Closing && v.todo == [DropPresence(h), SendDisconnect(h)])
  }

  /** Doing the first of its remaining operations keeps the part of a connection in order, and touches the uid
      of no other. */
  lemma LocalEffectOk(c: ConnId, h: string, v: Local)
    requires LocalOk(c, h, v) && v.phase != Dead && v.todo != []
    ensures var op := v.todo[0]; op.SetUid? || op.PutPresence? || op.DropUid? ==> Alive(v) && op.uid == h
    ensures var w := LocalEffect(c, h, v, v.todo[0]);
            LocalOk(c, h, w) && w.found in {v.found, Some(c), None} && (Explained(h, v) ==> Explained(h, w))
  {
    hide OpenOk, LocalEffect;
    if v.phase == Open { OpenEffect(c, h, v); } else { ClosingEffect(c, h, v); }
  }

  lemma OpenEffect(c: ConnId, h: string, v: Local)
    requires LocalOk(c, h, v) && v.phase == Open && v.todo != []
    ensures var op := v.todo[0]; op.SetUid? || op.PutPresence? ==> Alive(v) && op.uid == h
    ensures !v.todo[0].DropUid?
    ensures var w := LocalEffect(c, h, v, v.todo[0]);
            LocalOk(c, h, w) && w.found in {v.found, Some(c), None} && (Explained(h, v) ==> Explained(h, w))
  {
    hide OpenOk;
    assert v.todo[0] in v.todo;
    OpenRest(h, v.todo);
  }

  lemma ClosingEffect(c: ConnId, h: string, v: Local)
    requires LocalOk(c, h, v) && v.phase == Closing && v.todo != []
    ensures var op := v.todo[0]; op.SetUid? || op.PutPresence? || op.DropUid? ==> Alive(v) && op.uid == h
    ensures var w := LocalEffect(c, h, v, v.todo[0]);
            LocalOk(c, h, w) && w.found in {v.found, Some(c), None} && (Explained(h, v) ==> Explained(h, w))
  {
  }

  /** What an executed operation changes. */
  lemma ExecShape(env: Env, s: State, c: ConnId, order: seq<string>, now: nat)
    requires Enabled(s, Exec(c, order, now))
    ensures var t := Apply(env, s, Exec(c, order, now));
            && t.conns.Keys == s.conns.Keys && t.shared == Effect(env, s.shared, c, s.conns[c].todo[0], now)
            && t.conns[c].todo == s.conns[c].todo[1..] && t.conns[c].phase == s.conns[c].phase
            && t.conns[c].received == s.conns[c].received
            && forall d | d in s.conns && d != c :: t.conns[d] == s.conns[d]
  {
    hide LinesOf, OrderFits, Effect;
  }

  lemma EffectElsewhere(env: Env, sh: Shared, c: ConnId, op: Op, now: nat, h: string)
    requires op.SetUid? || op.PutPresence? || op.DropUid? ==> op.uid == h
    ensures var after := Effect(env, sh, c, op, now);
            && (forall d | d != c :: UidOf(after, d) == UidOf(sh, d))
            && (forall u | u != h :: Found(after, u) == Found(sh, u) && (u in after.presence ==> u in sh.presence))
  {
  }

  lemma EffectHere(env: Env, sh: Shared, c: ConnId, op: Op, now: nat, h: string, v: Local)
    requires op.SetUid? || op.PutPresence? || op.DropUid? ==> op.uid == h
    requires v.registered == UidOf(sh, c) && v.found == Found(sh, h) && v.present == (h in sh.presence)
    ensures var after, w := Effect(env, sh, c, op, now), LocalEffect(c, h, v, op);
            w.registered == UidOf(after, c) && w.found == Found(after, h) && w.present == (h in after.presence)
  {
  }

  lemma EffectKeeps(c: ConnId, h: string, v: Local, op: Op)
    ensures var w := LocalEffect(c, h, v, op);
            w.phase == v.phase && w.todo == if v.todo == [] then [] else v.todo[1..]
  {
  }

  lemma ExecLocal(env: Env, home: Home, s: State, c: ConnId, order: seq<string>, now: nat, own: bool)
    requires Enabled(s, Exec(c, order, now))
    requires var op := s.conns[c].todo[0]; op.SetUid? || op.PutPresence? || op.DropUid? ==> own && op.uid == home(c)
    ensures var t, h := Apply(env, s, Exec(c, order, now)), home(c);
            var w := LocalEffect(c, h, LocalOf(s, c, h), s.conns[c].todo[0]);
            && c in t.conns && LocalOf(t, c, h) == w
            && (w.found in {Found(s.shared, h), Some(c), None} ==> Elsewhere(home, s, t, c, own))
  {
    hide LinesOf, OrderFits, Effect, Apply, UidOf, Found, LocalEffect;
    ExecShape(env, s, c, order, now);
    var op := s.conns[c].todo[0];
    EffectKeeps(c, home(c), LocalOf(s, c, home(c)), op);
    EffectElsewhere(env, s.shared, c, op, now, home(c));
    if !own { EffectElsewhere(env, s.shared, c, op, now, home(c) + "'"); }
    EffectHere(env, s.shared, c, op, now, home(c), LocalOf(s, c, home(c)));
  }

  lemma ExecReg(env: Env, home: Home, s: State, c: ConnId, order: seq<string>, now: nat)
    requires RegOk(home, s) && Unshared(home, s) && Enabled(s, Exec(c, order, now))
    ensures RegOk(home, Apply(env, s, Exec(c, order, now)))
  {
    hide Apply, OrderFits, LocalOk, Elsewhere, LocalEffect, Alive, Unshared, PresentIsFound;
    var t := Apply(env, s, Exec(c, order, now));
    var v := LocalOf(s, c, home(c));
    LocalEffectOk(c, home(c), v);
    var own := Live(home, s, c);
    ExecLocal(env, home, s, c, order, now, own);
    ExecShape(env, s, c, order, now);
    if own { PresentHere(home, s, c); } else { NotLiveNotLeft(home, s, c); }
    LocalStep(home, s, t, c, own);
  }

  /** The presence of a live connection's uid is explained by the uid's entry or by that connection. */
  lemma PresentHere(home: Home, s: State, c: ConnId)
    requires PresentIsFound(home, s) && Unshared(home, s) && Live(home, s, c)
    ensures home(c) in s.shared.presence ==>
              Found(s.shared, home(c)).Some? || Left(s.conns[c], home(c))
  {
    if home(c) in s.shared.presence && home(c) !in s.shared.uidToConn {
      var d :| d in s.conns && home(d) == home(c) && Left(s.conns[d], home(c));
      assert Live(home, s, d);
    }
  }

  lemma NotLiveNotLeft(home: Home, s: State, c: ConnId)
    requires c in s.conns && !Live(home, s, c)
    ensures !Left(s.conns[c], home(c))
  {
  }

  /** A step that changes no map, and of the connections only `c`, which is not in the middle of its cleanup. */
  lemma QuietStep(home: Home, s: State, t: State, c: ConnId)
    requires RegOk(home, s) && c in t.conns && t.conns == s.conns[c := t.conns[c]] && t.shared == s.shared
    requires LocalOk(c, home(c), LocalOf(t, c, home(c)))
    requires c in s.conns ==> !Left(s.conns[c], home(c))
    ensures RegOk(home, t)
  {
    hide LocalOk, PresentIsFound;
    LocalStep(home, s, t, c, false);
  }

  lemma AcceptReg(env: Env, home: Home, s: State)
    requires Inv(env, s) && RegOk(home, s)
    ensures RegOk(home, Apply(env, s, Accept))
  {
    hide ConnOk, SharedOf, DoneBy, TriedBy, Written, PresentIsFound, LocalOk, PendingOk, ServedOk;
    var c, t := s.nextId, Apply(env, s, Accept);
    NewcomerOk(c, home(c), LocalOf(t, c, home(c)));
    QuietStep(home, s, t, c);
  }

  lemma NewcomerOk(c: ConnId, h: string, v: Local)
    requires v.phase == Open && v.todo == [] && v.registered.None? && v.found != Some(c)
    ensures LocalOk(c, h, v)
  {
  }

  lemma BreakReg(env: Env, home: Home, s: State, c: ConnId, k: nat, order: seq<string>, now: nat)
    requires RegOk(home, s) && Enabled(s, Break(c, k, order, now))
    ensures RegOk(home, Apply(env, s, Break(c, k, order, now)))
  {
    hide LinesOf, OrderFits, LocalOk, PresentIsFound;
    LocalEnds(c, home(c), LocalOf(s, c, home(c)));
    QuietStep(home, s, Apply(env, s, Break(c, k, order, now)), c);
  }

  /** Every step but a read and an operation, seen from the registry. */
  lemma QuietReg(env: Env, home: Home, s: State, step: Step)
    requires Inv(env, s) && RegOk(home, s) && Enabled(s, step) && !step.Read? && !step.Exec?
    ensures RegOk(home, Apply(env, s, step))
  {
    hide Inv, RegOk;
    var t := Apply(env, s, step);
    match step
    case Accept => AcceptReg(env, home, s);
    case Break(c, k, order, now) => BreakReg(env, home, s, c, k, order, now);
    case Deliver(c) => IdleReg(env, home, s, step, c);
    case Lag(c, _) => IdleReg(env, home, s, step, c);
    case Eof(c) => IdleReg(env, home, s, step, c);
    case Abort(c) => IdleReg(env, home, s, step, c);
    case _ => ServeReg(home, s, t);
  }

  lemma IdleReg(env: Env, home: Home, s: State, step: Step, c: ConnId)
    requires RegOk(home, s) && Enabled(s, step)
    requires step.Deliver? || step.Lag? || step.Eof? || step.Abort?
    requires step.c == c
    ensures RegOk(home, Apply(env, s, step))
  {
    hide LocalOk, PresentIsFound;
    LocalEnds(c, home(c), LocalOf(s, c, home(c)));
    QuietStep(home, s, Apply(env, s, step), c);
  }

  /** A connection may die when idle or when a write fails, and start its cleanup when idle. */
  lemma LocalEnds(c: ConnId, h: string, v: Local)
    requires LocalOk(c, h, v)
    ensures v.phase != Dead && v.todo != [] && Writes(v.todo[0]) ==> LocalOk(c, h, v.(phase := Dead, todo := []))
    ensures v.phase == Open && v.todo == [] ==> LocalOk(c, h, v.(phase := Dead))
    ensures v.phase == Open && v.todo == [] ==> LocalOk(c, h, v.(phase := Closing, todo := EofOps(v.registered)))
  {
    hide OpenOk;
  }

  lemma ServeReg(home: Home, s: State, t: State)
    requires RegOk(home, s) && t.conns == s.conns && t.shared == s.shared.(channel := t.shared.channel)
    ensures RegOk(home, t)
  {
    hide LocalOk;
    forall d | d in t.conns ensures LocalOk(d, home(d), LocalOf(t, d, home(d))) {
      assert LocalOf(t, d, home(d)) == LocalOf(s, d, home(d));
    }
  }

  lemma StepReg(env: Env, home: Home, s: State, step: Step)
    requires Inv(env, s) && RegOk(home, s) && Enabled(s, step) && Unshared(home, s)
    requires OwnUidOnly(env, home, Apply(env, s, step))
    ensures RegOk(home, Apply(env, s, step))
  {
    hide RegOk, Inv, Unshared;
    match step
    case Read(c, chunk) => ReadReg(env, home, s, c, chunk);
    case Exec(c, order, now) => ExecReg(env, home, s, c, order, now);
    case _ => QuietReg(env, home, s, step);
  }

  lemma InitReg(home: Home)
    ensures RegOk(home, INIT)
  {
  }

  /** In every state of the run each connection announces only its own uid, and no two live ones have the same. */
  ghost predicate Orderly(env: Env, home: Home, states: seq<State>) {
    forall k | 0 <= k < |states| :: OwnUidOnly(env, home, states[k]) && Unshared(home, states[k])
  }

  lemma {:induction false} RunReg(env: Env, home: Home, states: seq<State>, steps: seq<Step>, i: nat)
    requires IsRun(env, states, steps) && i <= |steps| && Orderly(env, home, states)
    ensures RegOk(home, states[i])
  {
    hide RegOk, OwnUidOnly, Apply, Enabled, Inv, Unshared;
    if i == 0 { InitReg(home); }
    else {
      RunReg(env, home, states, steps, i - 1);
      RunKeeps(env, states, steps, i - 1);
      assert states[i] == Apply(env, states[i - 1], steps[i - 1]);
      StepReg(env, home, states[i - 1], steps[i - 1]);
    }
  }

  // ---- What the three maps say of each other ----

  /** A registered connection is registered under its uid and, if it did not break, found under it,
      unless it is just announcing itself. */
  ghost predicate RegisteredIsFound(home: Home, s: State) {
    forall c | c in s.shared.connState ::
      && c in s.conns && s.shared.connState[c].uid == home(c)
      && (s.conns[c].phase != Dead ==> Found(s.shared, home(c)) == Some(c) || Announcing(s.conns[c], home(c)))
  }

  /** Whoever is found under a uid is registered under it, unless its cleanup is under way. */
  ghost predicate FoundIsRegistered(home: Home, s: State) {
    forall u | u in s.shared.uidToConn ::
      var c := s.shared.uidToConn[u];
      c in s.conns && home(c) == u && (UidOf(s.shared, c) == Some(u) || Leaving(s.conns[c], u))
  }

  /** When a connection says goodbye its uid is in none of the maps, and it has no entry from then on. */
  ghost predicate EndedIsGone(home: Home, s: State) {
    forall c | c in s.conns && s.conns[c].phase == Closing && |s.conns[c].todo| <= 1 ::
      && c !in s.shared.connState && (forall u | u in s.shared.uidToConn :: s.shared.uidToConn[u] != c)
      && (s.conns[c].todo == [SendDisconnect(home(c))] ==>
            home(c) !in s.shared.uidToConn && home(c) !in s.shared.presence)
  }

  /** In every state of an orderly run, whatever operations are under way, `uid_to_conn` is the inverse of `conn_state`
      and covers the presence cache, but for connections that broke and those between two writes of an announcement
      or of a cleanup. */
  lemma RegistryInEveryState(env: Env, home: Home, states: seq<State>, steps: seq<Step>, i: nat)
    requires IsRun(env, states, steps) && Orderly(env, home, states) && i <= |steps|
    ensures RegisteredIsFound(home, states[i]) && FoundIsRegistered(home, states[i])
    ensures PresentIsFound(home, states[i]) && EndedIsGone(home, states[i])
  {
    hide IsRun, Orderly, RegOk, RegisteredIsFound, FoundIsRegistered, PresentIsFound, EndedIsGone;
    RunReg(env, home, states, steps, i);
    assert |states| == |steps| + 1 by { RunLength(env, states, steps); }
    MapsAgree(home, states[i]);
  }

  lemma RunLength(env: Env, states: seq<State>, steps: seq<Step>)
    requires IsRun(env, states, steps)
    ensures |states| == |steps| + 1
  {
    hide Apply, Enabled;
  }

  /** What the part of one connection says. */
  lemma PartSays(c: ConnId, h: string, v: Local)
    requires LocalOk(c, h, v)
    ensures v.registered.Some? ==> v.registered == Some(h)
    ensures v.registered.Some? && v.phase != Dead ==> v.found == Some(c) || (v.todo != [] && v.todo[0] == SetUid(h))
    ensures v.found == Some(c) && v.registered.None? ==>
              v.phase == Closing && v.todo == [DropUid(h), DropPresence(h), SendDisconnect(h)]
    ensures v.phase == Closing && |v.todo| <= 1 ==> v.registered.None? && v.found != Some(c)
    ensures v.phase == Closing && v.todo == [SendDisconnect(h)] ==> v.found.None? && !v.present
  {
    hide OpenOk;
  }

  lemma MapsAgree(home: Home, s: State)
    requires RegOk(home, s)
    ensures RegisteredIsFound(home, s) && FoundIsRegistered(home, s) && PresentIsFound(home, s) && EndedIsGone(home, s)
  {
    hide LocalOk;
    var sh := s.shared;
    forall c | c in s.conns
      ensures UidOf(sh, c).Some? ==> UidOf(sh, c) == Some(home(c))
      ensures UidOf(sh, c).Some? && s.conns[c].phase != Dead ==>
                Found(sh, home(c)) == Some(c) || Announcing(s.conns[c], home(c))
      ensures Found(sh, home(c)) == Some(c) ==> UidOf(sh, c) == Some(home(c)) || Leaving(s.conns[c], home(c))
      ensures s.conns[c].phase == Closing && |s.conns[c].todo| <= 1 ==>
                UidOf(sh, c).None? && Found(sh, home(c)) != Some(c)
      ensures s.conns[c].phase == Closing && s.conns[c].todo == [SendDisconnect(home(c))] ==>
                Found(sh, home(c)).None? && home(c) !in sh.presence
    {
      PartSays(c, home(c), LocalOf(s, c, home(c)));
    }
    forall u | u in sh.uidToConn ensures Found(sh, home(sh.uidToConn[u])) == Some(sh.uidToConn[u]) {}
  }

  ghost predicate Quiescent(s: State) { forall c | c in s.conns :: s.conns[c].todo == [] }

  /** Whenever no operation is under way, `uid_to_conn` is exactly the inverse of `conn_state` on the connections
      that did not break, whoever is found is registered, and whoever is present can be found. */
  lemma QuietRegistry(env: Env, home: Home, states: seq<State>, steps: seq<Step>)
    requires IsRun(env, states, steps) && Orderly(env, home, states) && Quiescent(states[|steps|])
    ensures var s := states[|steps|];
            && (forall c, u | c in s.conns && s.conns[c].phase != Dead ::
                  (c in s.shared.connState && s.shared.connState[c].uid == u)
                  <==> (u in s.shared.uidToConn && s.shared.uidToConn[u] == c))
            && (forall u | u in s.shared.uidToConn :: UidOf(s.shared, s.shared.uidToConn[u]) == Some(u))
            && (forall u | u in s.shared.presence :: u in s.shared.uidToConn)
  {
    hide IsRun, Orderly, EndedIsGone;
    RunLength(env, states, steps);
    RegistryInEveryState(env, home, states, steps, |steps|);
    var s := states[|steps|];
    var sh := s.shared;
    forall c | c in sh.connState && s.conns[c].phase != Dead ensures Found(sh, sh.connState[c].uid) == Some(c) {
      assert s.conns[c].todo == [];
    }
    forall u | u in sh.uidToConn ensures UidOf(sh, sh.uidToConn[u]) == Some(u) {
      assert s.conns[sh.uidToConn[u]].todo == [];
    }
  }

  // ---- File shares ----

  /** A file share is withheld from one connection at most: the one that, when the share's sender was looked up, was
      the last to have announced the sender's uid, with no cleanup of the uid since. This holds in every reachable state
      of every run, whatever happened between the lookup and the sending. */
  lemma FileshareIsWithheldFromItsSender(env: Env, s: State, k: nat, d: ConnId)
    requires Reachable(env, s) && k < |s.shares| && d in s.conns
    ensures s.shares[k].at <= |s.trace|
    ensures var p := s.shares[k];
            var channel := Apply(env, s, SendShare(k)).shared.channel;
            && channel == s.shared.channel + [p.msg]
            && (Sees(channel, |s.shared.channel|, d) <==> !exists j :: LastSet(s.trace[..p.at], j, p.uid, d))
  {
    hide Reachable, Visible, LastSet, SharedOf, ServedOk;
    var p := s.shares[k];
    SenderAtLookup(env, s, k);
    FoundIsLastSet(env, s.trace[..p.at], p.uid, d);
    VisibleIff(s.shared.channel + [p.msg], |s.shared.channel|, |s.shared.channel| + 1, d, |s.shared.channel|);
  }

  lemma SenderAtLookup(env: Env, s: State, k: nat)
    requires Reachable(env, s) && k < |s.shares|
    ensures PendingOk(env, s.trace, s.shares[k]) && 0 !in s.conns
  {
    hide SharedOf, DoneBy, TriedBy, Written, ConnOk, ServedOk, PendingOk;
    ReachableKeeps(env, s);
  }

  /** In an orderly run the connection found at lookup is the registered one of the uid,
      unless that one broke or is just announcing itself. */
  lemma FileshareFindsItsSender(env: Env, home: Home, states: seq<State>, steps: seq<Step>, c: ConnId,
                                share: CotBuilders.Share, stamp: CotBuilders.Stamp)
    requires IsRun(env, states, steps) && Orderly(env, home, states) && c in states[|steps|].shared.connState
    requires share.uid == states[|steps|].shared.connState[c].uid && CotBuilders.PlainStamp(stamp)
    ensures var s := states[|steps|];
            && c in s.conns
            && (s.conns[c].phase != Dead && !Announcing(s.conns[c], share.uid) ==>
                  Apply(env, s, LookUp(share, stamp)).shares
                  == s.shares + [Pending(share.uid, |s.trace|, ShareMsg(c, share, stamp))])
  {
    hide IsRun, Orderly, FoundIsRegistered, PresentIsFound, EndedIsGone, ShareMsg, CotBuilders.PlainStamp;
    RunLength(env, states, steps);
    RegistryInEveryState(env, home, states, steps, |steps|);
  }

  /** Message `i` is among those that connection `d` writes to its socket when it receives them. */
  predicate Sees(channel: seq<Msg>, i: nat, d: ConnId) {
    i < |channel| && i in Visible(channel, i, i + 1, d)
  }

  /** Registered under a uid and found there. */
  predicate Registered(sh: Shared, d: ConnId) {
    d in sh.connState && sh.connState[d].uid in sh.uidToConn && sh.uidToConn[sh.connState[d].uid] == d
  }

  /** Cleaning up `c` unregisters another connection exactly when that one is registered under the same uid. */
  lemma CleanupHitsSharedUid(env: Env, sh: Shared, c: ConnId)
    requires c in sh.connState
    ensures var u := sh.connState[c].uid;
            var after := Effects(env, sh, c, [TakeState, DropUid(u), DropPresence(u)], 0);
            forall d: ConnId | d != c && Registered(sh, d) :: !Registered(after, d) <==> sh.connState[d].uid == u
  {
    var u := sh.connState[c].uid;
    ThreeEffects(env, sh, c, TakeState, DropUid(u), DropPresence(u), 0);
  }

  // ---- A run in which two connections share a uid ----

  lemma ReachStep(env: Env, s: State, step: Step)
    requires Reachable(env, s) && Enabled(s, step)
    ensures Reachable(env, Apply(env, s, step))
  {
    hide Apply, Enabled;
    var states: seq<State>, steps: seq<Step> :| IsRun(env, states, steps) && states[|steps|] == s;
    assert IsRun(env, states + [Apply(env, s, step)], steps + [step]);
  }

  /** An event with a contact by a client that gets no replay. */
  ghost predicate Introduces(env: Env, e: Bytes, cot: Cot) {
    Conservation.ClosedFrame(e) && env.parse(e) == Some(cot)
    && IsWinTak(cot.uid) && cot.hasContact && cot.kind == "b-t-f"
  }

  lemma IntroductionProgram(env: Env, e: Bytes, cot: Cot)
    requires Introduces(env, e, cot)
    ensures e != [] && Extract(e) == Frames([e], [])
    ensures Compile(env, [e], false) == [SetState(cot.uid, cot.callsign), SetUid(cot.uid), Send(e)]
  {
    hide Conservation.ClosedFrame, Extract, Conservation.Strip;
    Conservation.LoneClosed(e);
    Conservation.FrameNeedsNoStripping(e);
    CompileOne(env, e, false);
    assert EventOps(cot, e) == [SetState(cot.uid, cot.callsign), SetUid(cot.uid), Send(e)] by {
      assert "b-t-f"[2] == 't' && "b-m-"[2] == 'm';
      assert !IsPresence("b-t-f") && !ShouldRepeat("b-t-f");
    }
    assert ReplayOps(cot, false) == [];
    assert [] + EventOps(cot, e) == EventOps(cot, e);
  }

  /** Only connection `c` differs. */
  ghost predicate OnlyAt(s: State, t: State, c: ConnId) {
    t.conns.Keys == s.conns.Keys && c in t.conns && forall d | d in s.conns && d != c :: t.conns[d] == s.conns[d]
  }

  lemma ReadOne(env: Env, s: State, c: ConnId, e: Bytes, cot: Cot) returns (t: State)
    requires Reachable(env, s) && Idle(s, c) && s.conns[c].pending == []
    requires !s.conns[c].replaySent && Introduces(env, e, cot)
    ensures Reachable(env, t) && OnlyAt(s, t, c) && t.shared == s.shared && t.conns[c].phase == Open
    ensures t.conns[c].todo == [SetState(cot.uid, cot.callsign), SetUid(cot.uid), Send(e)]
  {
    hide Reachable, Compile, Extract, AnyParsed, Introduces;
    IntroductionProgram(env, e, cot);
    assert [] + e == e;
    t := Apply(env, s, Read(c, e));
    ReachStep(env, s, Read(c, e));
  }

  lemma ExecOne(env: Env, s: State, c: ConnId) returns (t: State)
    requires Reachable(env, s) && Busy(s, c) && !Writes(s.conns[c].todo[0])
    ensures Reachable(env, t) && OnlyAt(s, t, c) && t.shared == Effect(env, s.shared, c, s.conns[c].todo[0], 0)
    ensures t.conns[c].phase == s.conns[c].phase && t.conns[c].todo == s.conns[c].todo[1..]
  {
    hide Reachable, Effect, Apply;
    t := Apply(env, s, Exec(c, [], 0));
    ExecShape(env, s, c, [], 0);
    ReachStep(env, s, Exec(c, [], 0));
  }

  lemma TwoConnections(env: Env) returns (s: State)
    ensures Reachable(env, s) && Idle(s, 1) && Idle(s, 2) && s.shared == EMPTY
    ensures forall c | c in {1, 2} :: s.conns[c].pending == [] && !s.conns[c].replaySent
  {
    hide Reachable;
    assert Reachable(env, INIT) by { StartIsReachable(env); }
    ReachStep(env, INIT, Accept);
    ReachStep(env, Apply(env, INIT, Accept), Accept);
    s := Apply(env, Apply(env, INIT, Accept), Accept);
  }

  lemma StartIsReachable(env: Env)
    ensures Reachable(env, INIT)
  {
    assert IsRun(env, [INIT], []);
  }

  /** Both connections have registered the uid; the later one is found under it. */
  lemma BothRegister(env: Env, e: Bytes, cot: Cot) returns (s: State)
    requires Introduces(env, e, cot)
    ensures Reachable(env, s) && Idle(s, 1) && Idle(s, 2)
    ensures UidOf(s.shared, 1) == Some(cot.uid) && UidOf(s.shared, 2) == Some(cot.uid) && Registered(s.shared, 2)
  {
    hide Reachable, Introduces;
    var t := TwoConnections(env);
    t := RegisterOne(env, t, 1, e, cot);
    s := RegisterOne(env, t, 2, e, cot);
  }

  lemma RegisterOne(env: Env, s: State, c: ConnId, e: Bytes, cot: Cot) returns (t: State)
    requires Reachable(env, s) && Idle(s, c) && s.conns[c].pending == []
    requires !s.conns[c].replaySent && Introduces(env, e, cot)
    ensures Reachable(env, t) && OnlyAt(s, t, c) && Idle(t, c)
    ensures UidOf(t.shared, c) == Some(cot.uid) && Registered(t.shared, c)
    ensures forall d | d != c :: UidOf(t.shared, d) == UidOf(s.shared, d)
  {
    hide Reachable, Introduces;
    t := ReadOne(env, s, c, e, cot);
    t := ExecTwo(env, t, c, cot);
    t := ExecOne(env, t, c);
  }

  lemma ExecTwo(env: Env, s: State, c: ConnId, cot: Cot) returns (t: State)
    requires Reachable(env, s) && Busy(s, c) && |s.conns[c].todo| == 3
    requires s.conns[c].todo[..2] == [SetState(cot.uid, cot.callsign), SetUid(cot.uid)]
    ensures Reachable(env, t) && OnlyAt(s, t, c) && t.conns[c].phase == s.conns[c].phase
    ensures t.conns[c].todo == s.conns[c].todo[2..]
    ensures UidOf(t.shared, c) == Some(cot.uid) && Registered(t.shared, c)
    ensures forall d | d != c :: UidOf(t.shared, d) == UidOf(s.shared, d)
  {
    hide Reachable;
    assert s.conns[c].todo[0] == s.conns[c].todo[..2][0] && s.conns[c].todo[1] == s.conns[c].todo[..2][1];
    t := ExecOne(env, s, c);
    t := ExecOne(env, t, c);
  }

  /** From there the end of the first connection leaves the second one open, registered under the uid,
      and not to be found: two connections with one uid do reach the state of CleanupHitsSharedUid. */
  lemma SharedUidIsLost(env: Env, e: Bytes, cot: Cot) returns (s: State)
    requires Introduces(env, e, cot)
    ensures Reachable(env, s) && Idle(s, 2) && UidOf(s.shared, 2) == Some(cot.uid) && !Registered(s.shared, 2)
    ensures 1 in s.conns && s.conns[1].phase == Closing && cot.uid !in s.shared.uidToConn
  {
    hide Reachable, Introduces;
    s := BothRegister(env, e, cot);
    var t := Apply(env, s, Eof(1));
    ReachStep(env, s, Eof(1));
    s := ExecOne(env, t, 1);
    s := ExecOne(env, s, 1);
  }

  // ---- Connections that broke ----

  /** A connection whose read or write failed stays as it is, and stays registered under its uid for ever. */
  lemma BrokenStays(env: Env, s: State, step: Step, c: ConnId)
    requires Inv(env, s) && Enabled(s, step) && c in s.conns && s.conns[c].phase == Dead
    ensures var t := Apply(env, s, step);
            c in t.conns && t.conns[c] == s.conns[c] && UidOf(t.shared, c) == UidOf(s.shared, c)
  {
    hide ConnOk, SharedOf, DoneBy, TriedBy, Written, ServedOk, PendingOk, LinesOf, Compile, Extract, Effect,
         CotBuilders.EmergencyCot, CotBuilders.FileshareCot, CotBuilders.PlainAlert, CotBuilders.PlainStamp;
    if step.Exec? {
      EffectOfOthers(env, s.shared, step.c, s.conns[step.c].todo[0], step.now, c);
    }
  }

  lemma EffectOfOthers(env: Env, sh: Shared, d: ConnId, op: Op, now: nat, c: ConnId)
    requires d != c
    ensures UidOf(Effect(env, sh, d, op, now), c) == UidOf(sh, c)
  {
  }

  /** There are such connections, and they can still be found under their uid. */
  lemma BrokenIsStillFound(env: Env, e: Bytes, cot: Cot) returns (s: State)
    requires Introduces(env, e, cot)
    ensures Reachable(env, s) && 1 in s.conns && s.conns[1].phase == Dead
    ensures UidOf(s.shared, 1) == Some(cot.uid) && Registered(s.shared, 1)
  {
    hide Reachable, Introduces;
    var t := TwoConnections(env);
    t := RegisterOne(env, t, 1, e, cot);
    ReachStep(env, t, Abort(1));
    s := Apply(env, t, Abort(1));
  }
}
