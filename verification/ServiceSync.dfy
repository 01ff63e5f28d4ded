/** The CoT services and the core: FIFO queues of user operations, and reconciliation
    of every service's client table against the core's table. */
module ServiceSync {
  import opened Substrings
  import opened UserTable

  type Svc = nat
  type Uids = set<string>

  /** A client as a service knows it: its socket, and what the core last said about it. */
  datatype Client = Client(socket: nat, info: Option<Record>)

  // ---- Reconciliation inside one service ----

  /** The client table of a service, and the uids whose sockets it has shut down. */
  class ClientTable {
    var clients: map<string, Client>
    var shutDown: Uids

    constructor ()
      ensures clients == map[] && shutDown == {}
    {
      clients, shutDown := map[], {};
    }

    /** `get_client_information` after the reply: keep and refresh the clients the core knows,
        shut down and delete the others. */
    method Reconcile(users: Users)
      modifies this
      ensures clients == Reconciled(old(clients), users)
      ensures forall u :: u in clients <==> u in old(clients) && u in users
      ensures forall u | u in clients :: clients[u] == Client(old(clients)[u].socket, Some(users[u]))
      ensures shutDown == old(shutDown) + (old(clients).Keys - users.Keys)
    {
      hide Partly, Reconciled, Shut;
      var ids := clients.Keys;
      ghost var before, down := clients, shutDown;
      PartlyEnds(before, users);
      ShutEnds(before.Keys, users.Keys, down);
      while ids != {}
        invariant ids <= before.Keys && clients == Partly(before, users, ids)
        invariant shutDown == Shut(before.Keys, users.Keys, ids, down)
        decreases |ids|
      {
        var u :| u in ids;
        PartlyStep(before, users, ids, u);
        ShutStep(before.Keys, users.Keys, ids, down, u);
        if u in users {
          assert shutDown + {} == shutDown;
          clients := clients[u := clients[u].(info := Some(users[u]))];
        } else {
          shutDown := shutDown + {u};
          clients := clients - {u};
        }
        ids := ids - {u};
      }
      ReconciledSays(before, users);
    }
  }

  lemma ReconciledSays(clients: map<string, Client>, users: Users)
    ensures forall u :: u in Reconciled(clients, users) <==> u in clients && u in users
    ensures forall u | u in Reconciled(clients, users) ::
              Reconciled(clients, users)[u] == Client(clients[u].socket, Some(users[u]))
  {
  }

  /** The uids shut down when those in `ids` are still to be looked at. */
  ghost function Shut(clients: Uids, users: Uids, ids: Uids, down: Uids): Uids { down + (clients - users - ids) }

  lemma ShutEnds(clients: Uids, users: Uids, down: Uids)
    ensures Shut(clients, users, clients, down) == down && Shut(clients, users, {}, down) == down + (clients - users)
  {
  }

  lemma ShutStep(clients: Uids, users: Uids, ids: Uids, down: Uids, u: string)
    requires u in ids && ids <= clients
    ensures Shut(clients, users, ids - {u}, down) == Shut(clients, users, ids, down) + (if u in users then {} else {u})
  {
  }

  /** The table when the clients in `ids` are still to be looked at. */
  function Partly(clients: map<string, Client>, users: Users, ids: Uids): map<string, Client> {
    map u | u in clients && (u in ids || u in users) ::
      if u in ids then clients[u] else Client(clients[u].socket, Some(users[u]))
  }

  lemma PartlyEnds(clients: map<string, Client>, users: Users)
    ensures Partly(clients, users, clients.Keys) == clients && Partly(clients, users, {}) == Reconciled(clients, users)
  {
  }

  lemma PartlyStep(clients: map<string, Client>, users: Users, ids: Uids, u: string)
    requires u in ids && ids <= clients.Keys
    ensures var now, next := Partly(clients, users, ids), Partly(clients, users, ids - {u});
            && u in now && now[u] == clients[u]
            && (u in users ==> next == now[u := clients[u].(info := Some(users[u]))])
            && (u !in users ==> next == now - {u})
  {
  }

  function Reconciled(clients: map<string, Client>, users: Users): map<string, Client> {
    map u | u in clients && u in users :: Client(clients[u].socket, Some(users[u]))
  }

  // ---- The protocol ----

  datatype Service = Service(
    ctype: ConnType,
    clients: map<string, Client>,
    queue: seq<Op>,           // to the core
    waiting: bool,            // blocked in get_client_information
    reply: Option<Users>,     // from the core
    answered: nat,            // how many operations the core had taken when it replied
    lost: Uids)               // uids whose last add or remove met a full queue

  /** `log` holds the operations that the core has taken, of whatever service. */
  datatype Net = Net(core: Users, services: map<Svc, Service>, log: seq<Op>)

  /** `owner` says which service a uid connects through. */
  type Owner = string -> Svc

  /** A step about a uid is one of the service that the uid connects through. */
  ghost predicate OwnStep(owner: Owner, step: Step) {
    (step.Connect? || step.Refresh?) ==> owner(step.u) == step.s
  }

  ghost predicate Disjoint(owner: Owner, steps: seq<Step>) {
    forall i | 0 <= i < |steps| :: OwnStep(owner, steps[i])
  }

  datatype Step =
    | Connect(s: Svc, u: string, socket: nat, presence: Presence, sockets: int, full: bool)
    | Disconnect(s: Svc, u: string, sockets: int, full: bool)
    | Refresh(s: Svc, u: string, presence: Presence, sockets: int, full: bool, fullLater: bool)
    | Ask(s: Svc, sockets: int, full: bool)
    | CoreTakes(s: Svc)
    | Reconcile(s: Svc)

  ghost predicate Free(net: Net, s: Svc) { s in net.services && !net.services[s].waiting }

  ghost predicate Enabled(net: Net, step: Step) {
    match step
    case Connect(s, u, _, p, _, _) => Free(net, s) && p.uid == u
    case Disconnect(s, u, _, _) => Free(net, s) && u in net.services[s].clients
    case Refresh(s, u, p, _, _, _) => Free(net, s) && p.uid == u
    case Ask(s, _, _) => Free(net, s)
    case CoreTakes(s) => s in net.services && net.services[s].queue != []
    case Reconcile(s) => s in net.services && net.services[s].waiting && net.services[s].reply.Some?
  }

  function Put(svc: Service, op: Op, full: bool): Service {
    if full then svc else svc.(queue := svc.queue + [op])
  }

  /** An operation about `u` that is queued makes good for an earlier one that was not. */
  function Losing(svc: Service, u: string, full: bool): Service {
    svc.(lost := if full then svc.lost + {u} else svc.lost - {u})
  }

  /** The request of `get_client_information`: nothing happens when the queue is full. */
  function Asking(svc: Service, sockets: int, full: bool): Service {
    if full then svc else svc.(queue := svc.queue + [Get(Some(svc.ctype), sockets)], waiting := true)
  }

  function With(net: Net, s: Svc, svc: Service): Net { net.(services := net.services[s := svc]) }

  ghost function ApplyStep(net: Net, step: Step): Net
    requires Enabled(net, step)
  {
    match step
    case Connect(s, u, socket, p, n, full) =>
      var svc := net.services[s];
      var op := Add(Some(p), Some(Connection(svc.ctype, u)), n);
      With(net, s, Losing(Put(svc, op, full), u, full).(clients := svc.clients[u := Client(socket, None)]))
    case Disconnect(s, u, n, full) =>
      var svc := net.services[s];
      if svc.clients[u].info.None? then
        // Not yet reconciled: the entry has no user id, the local removal fails and the core will reject the message.
        With(net, s, Put(svc, Remove(None, svc.ctype, n), full))
      else
        With(net, s, Losing(Put(svc, Remove(Some(u), svc.ctype, n), full), u, full).(clients := svc.clients - {u}))
    case Refresh(s, u, p, n, full, fullLater) =>
      var svc := net.services[s];
      if full then net
      else if u in svc.clients then
        var known := svc.clients[u := svc.clients[u].(info := None)];
        With(net, s, Asking(Put(svc, Update(Some(p), n), false).(clients := known), n, fullLater))
      else With(net, s, Put(svc, Update(Some(p), n), false))
    case Ask(s, n, full) => With(net, s, Asking(net.services[s], n, full))
    case CoreTakes(s) =>
      var svc := net.services[s];
      var op := svc.queue[0];
      With(net, s, svc.(queue := svc.queue[1..],
                        reply := if op.Get? then Some(Answer(net.core, op.wanted)) else svc.reply,
                        answered := if op.Get? then |net.log| else svc.answered))
        .(core := UserTable.Apply(net.core, op), log := net.log + [op])
    case Reconcile(s) =>
      var svc := net.services[s];
      With(net, s, svc.(clients := Reconciled(svc.clients, svc.reply.value), waiting := false, reply := None))
  }

  function Answer(users: Users, wanted: Option<ConnType>): Users {
    match wanted case None => users case Some(t) => Holding(users, t)
  }

  /** Services of different connection types, with nothing queued and nobody connected. */
  ghost predicate Initial(net: Net) {
    && net.core == map[] && net.log == []
    && (forall s | s in net.services :: var v := net.services[s];
          v.clients == map[] && v.queue == [] && !v.waiting && v.reply.None? && v.lost == {})
    && DistinctTypes(net)
  }

  ghost predicate DistinctTypes(net: Net) {
    forall s, r | s in net.services && r in net.services && s != r :: net.services[s].ctype != net.services[r].ctype
  }

  ghost predicate IsRun(nets: seq<Net>, steps: seq<Step>) {
    && |nets| == |steps| + 1 && Initial(nets[0])
    && forall i | 0 <= i < |steps| :: Enabled(nets[i], steps[i]) && nets[i + 1] == ApplyStep(nets[i], steps[i])
  }

  // ---- The core's view of a service ----

  function View(users: Users, t: ConnType): Uids { set u | u in users && t in users[u].connections }

  /** Replaying a queue on a view: adds enter, removals leave. */
  function Replay(view: Uids, queue: seq<Op>): Uids
    decreases |queue|
  {
    if queue == [] then view else Replay(ReplayOp(view, queue[0]), queue[1..])
  }

  function ReplayOp(view: Uids, op: Op): Uids {
    match op
    case Add(Some(p), Some(_), _) => view + {p.uid}
    case Remove(Some(u), _, _) => view - {u}
    case _ => view
  }

  /** An operation that service `s` of type `t` queues: about its own uids, with its own type. */
  ghost predicate OwnOp(owner: Owner, s: Svc, t: ConnType, op: Op) {
    match op
    case Add(Some(p), Some(c), _) => owner(p.uid) == s && c.ctype == t
    case Remove(Some(u), ct, _) => owner(u) == s && ct == t
    case Get(w, _) => w == Some(t)
    case _ => true
  }

  /** Blocked services have their request last in the queue, or its answer at hand. */
  ghost predicate WaitOk(core: Users, v: Service) {
    && (v.waiting ==> (if v.reply.Some? then v.queue == [] && v.reply.value.Keys == View(core, v.ctype)
                       else v.queue != []
                            && v.queue[|v.queue| - 1] == Get(Some(v.ctype), v.queue[|v.queue| - 1].sockets)))
    && (!v.waiting ==> v.reply.None?)
    && (forall i | 0 <= i < |v.queue| && v.queue[i].Get? :: v.waiting && i == |v.queue| - 1)
  }

  ghost predicate ServiceOk(owner: Owner, core: Users, s: Svc, v: Service) {
    && (forall i | 0 <= i < |v.queue| :: OwnOp(owner, s, v.ctype, v.queue[i]))
    && (forall u | u in v.clients :: owner(u) == s)
    && (forall u | u in View(core, v.ctype) :: owner(u) == s)
    && WaitOk(core, v)
    && (forall u | u !in v.lost :: u in Replay(View(core, v.ctype), v.queue) <==> u in v.clients)
  }

  ghost predicate SyncInv(owner: Owner, net: Net) {
    DistinctTypes(net) && forall s | s in net.services :: ServiceOk(owner, net.core, s, net.services[s])
  }

  // ---- Replaying queues ----

  lemma {:induction false} ReplaySnoc(view: Uids, queue: seq<Op>, op: Op)
    ensures Replay(view, queue + [op]) == ReplayOp(Replay(view, queue), op)
    decreases |queue|
  {
    hide ReplayOp;
    if queue == [] {
      assert queue + [op] == [op] && [op][1..] == [];
    } else {
      assert (queue + [op])[0] == queue[0] && (queue + [op])[1..] == queue[1..] + [op];
      ReplaySnoc(ReplayOp(view, queue[0]), queue[1..], op);
    }
  }

  /** Taking one of its own operations moves the view as the replay says. */
  lemma OwnTake(owner: Owner, users: Users, s: Svc, t: ConnType, op: Op)
    requires OwnOp(owner, s, t, op)
    ensures View(UserTable.Apply(users, op), t) == ReplayOp(View(users, t), op)
  {
  }

  /** An operation of another service leaves the view alone. */
  lemma OtherTake(owner: Owner, users: Users, s: Svc, t: ConnType, r: Svc, rt: ConnType, op: Op)
    requires OwnOp(owner, r, rt, op) && r != s && rt != t
    requires forall u | u in View(users, t) :: owner(u) == s
    ensures View(UserTable.Apply(users, op), t) == View(users, t)
  {
    match op
    case Add(Some(p), Some(c), _) => assert p.uid !in View(users, t);
    case Remove(Some(u), ct, _) =>
    case Update(Some(p), _) =>
    case _ =>
  }

  // ---- Every step ----

  /** A step inside service `s` leaves the core, and so the others, as they were. */
  lemma LocalStep(owner: Owner, net: Net, s: Svc, v: Service)
    requires SyncInv(owner, net) && s in net.services && v.ctype == net.services[s].ctype
    requires ServiceOk(owner, net.core, s, v)
    ensures SyncInv(owner, With(net, s, v))
  {
    hide ServiceOk;
  }

  lemma PutKeeps(owner: Owner, core: Users, s: Svc, v: Service, op: Op)
    requires ServiceOk(owner, core, s, v) && !v.waiting && !op.Get? && OwnOp(owner, s, v.ctype, op)
    requires op.Update? || (op.Remove? && op.user.None?)
    ensures ServiceOk(owner, core, s, v.(queue := v.queue + [op]))
  {
    hide View, Replay;
    ReplaySnoc(View(core, v.ctype), v.queue, op);
  }

  lemma AskKeeps(owner: Owner, core: Users, s: Svc, v: Service, n: int)
    requires ServiceOk(owner, core, s, v) && !v.waiting
    ensures ServiceOk(owner, core, s, Asking(v, n, false))
  {
    hide View, Replay;
    ReplaySnoc(View(core, v.ctype), v.queue, Get(Some(v.ctype), n));
  }

  lemma ConnectKeeps(owner: Owner, net: Net, step: Step)
    requires SyncInv(owner, net) && Enabled(net, step) && step.Connect? && OwnStep(owner, step)
    ensures SyncInv(owner, ApplyStep(net, step))
  {
    hide View, Replay;
    var v := net.services[step.s];
    var op := Add(Some(step.presence), Some(Connection(v.ctype, step.u)), step.sockets);
    ReplaySnoc(View(net.core, v.ctype), v.queue, op);
    var w := Losing(Put(v, op, step.full), step.u, step.full).
               (clients := v.clients[step.u := Client(step.socket, None)]);
    LocalStep(owner, net, step.s, w);
  }

  lemma DisconnectKeeps(owner: Owner, net: Net, step: Step)
    requires SyncInv(owner, net) && Enabled(net, step) && step.Disconnect?
    ensures SyncInv(owner, ApplyStep(net, step))
  {
    hide View, Replay;
    var v := net.services[step.s];
    if v.clients[step.u].info.None? {
      if !step.full { PutKeeps(owner, net.core, step.s, v, Remove(None, v.ctype, step.sockets)); }
      LocalStep(owner, net, step.s, Put(v, Remove(None, v.ctype, step.sockets), step.full));
    } else {
      var op := Remove(Some(step.u), v.ctype, step.sockets);
      ReplaySnoc(View(net.core, v.ctype), v.queue, op);
      var w := Losing(Put(v, op, step.full), step.u, step.full).(clients := v.clients - {step.u});
      LocalStep(owner, net, step.s, w);
    }
  }

  lemma RefreshKeeps(owner: Owner, net: Net, step: Step)
    requires SyncInv(owner, net) && Enabled(net, step) && step.Refresh? && OwnStep(owner, step)
    ensures SyncInv(owner, ApplyStep(net, step))
  {
    hide View, Replay, ServiceOk;
    if !step.full {
      var v := net.services[step.s];
      var w := Put(v, Update(Some(step.presence), step.sockets), false);
      PutKeeps(owner, net.core, step.s, v, Update(Some(step.presence), step.sockets)) by {
        FreeOwn(owner, net, step.s);
      }
      if step.u in v.clients {
        var x := w.(clients := v.clients[step.u := v.clients[step.u].(info := None)]);
        SameClients(owner, net.core, step.s, w, x);
        AskKeeps(owner, net.core, step.s, x, step.sockets);
        LocalStep(owner, net, step.s, Asking(x, step.sockets, step.fullLater));
      } else {
        LocalStep(owner, net, step.s, w);
      }
    }
  }

  lemma FreeOwn(owner: Owner, net: Net, s: Svc)
    requires SyncInv(owner, net) && s in net.services
    ensures ServiceOk(owner, net.core, s, net.services[s])
  {
  }

  lemma SameClients(owner: Owner, core: Users, s: Svc, v: Service, w: Service)
    requires ServiceOk(owner, core, s, v) && w == v.(clients := w.clients) && w.clients.Keys == v.clients.Keys
    ensures ServiceOk(owner, core, s, w)
  {
    hide View, Replay;
    assert forall u :: u in w.clients <==> u in v.clients;
  }

  lemma TakeKeeps(owner: Owner, net: Net, s: Svc)
    requires SyncInv(owner, net) && Enabled(net, CoreTakes(s))
    ensures SyncInv(owner, ApplyStep(net, CoreTakes(s)))
  {
    hide ReplayOp, View, Holding, OwnOp;
    var after := ApplyStep(net, CoreTakes(s));
    var v, w := net.services[s], after.services[s];
    var op := v.queue[0];
    OwnTake(owner, net.core, s, v.ctype, op);
    assert ServiceOk(owner, after.core, s, w) by { TakerKeeps(owner, net.core, s, v, w.answered); }
    forall r | r in after.services && r != s ensures ServiceOk(owner, after.core, r, after.services[r]) {
      var x := net.services[r];
      OtherTake(owner, net.core, r, x.ctype, s, v.ctype, op);
    }
  }

  lemma TakerKeeps(owner: Owner, core: Users, s: Svc, v: Service, n: nat)
    requires ServiceOk(owner, core, s, v) && v.queue != []
    ensures var op := v.queue[0];
            ServiceOk(owner, UserTable.Apply(core, op), s,
                      v.(queue := v.queue[1..], reply := if op.Get? then Some(Answer(core, op.wanted)) else v.reply,
                         answered := n))
  {
    hide UserTable.Apply;
    var op := v.queue[0];
    OwnTake(owner, core, s, v.ctype, op);
    assert forall u | u in ReplayOp(View(core, v.ctype), op) :: owner(u) == s;
    if op.Get? {
      assert v.queue[1..] == [];
      AnswerIsView(core, v.ctype);
      GetChangesNothing(core, op);
    }
  }

  lemma AnswerIsView(core: Users, t: ConnType)
    ensures Answer(core, Some(t)).Keys == View(core, t)
  {
  }

  lemma GetChangesNothing(core: Users, op: Op)
    requires op.Get?
    ensures UserTable.Apply(core, op) == core
  {
  }

  lemma ReconcileKeeps(owner: Owner, net: Net, s: Svc)
    requires SyncInv(owner, net) && Enabled(net, Reconcile(s))
    ensures SyncInv(owner, ApplyStep(net, Reconcile(s)))
    ensures forall u | u in net.services[s].clients && u !in ApplyStep(net, Reconcile(s)).services[s].clients ::
              u in net.services[s].lost
  {
    hide View;
    var v := net.services[s];
    var w := v.(clients := Reconciled(v.clients, v.reply.value), waiting := false, reply := None);
    assert forall u | u in v.clients && u !in v.lost :: u in v.reply.value;
    LocalStep(owner, net, s, w);
  }

  lemma StepKeeps(owner: Owner, net: Net, step: Step)
    requires SyncInv(owner, net) && Enabled(net, step) && OwnStep(owner, step)
    ensures SyncInv(owner, ApplyStep(net, step))
  {
    hide ServiceOk;
    match step
    case Connect(_, _, _, _, _, _) => ConnectKeeps(owner, net, step);
    case Disconnect(_, _, _, _) => DisconnectKeeps(owner, net, step);
    case Refresh(_, _, _, _, _, _) => RefreshKeeps(owner, net, step);
    case Ask(s, n, full) =>
      if !full { AskKeeps(owner, net.core, s, net.services[s], n); }
      LocalStep(owner, net, s, Asking(net.services[s], n, full));
    case CoreTakes(s) => TakeKeeps(owner, net, s);
    case Reconcile(s) => ReconcileKeeps(owner, net, s);
  }

  lemma {:induction false} RunKeeps(owner: Owner, nets: seq<Net>, steps: seq<Step>, i: nat)
    requires IsRun(nets, steps) && Disjoint(owner, steps) && i <= |steps|
    ensures SyncInv(owner, nets[i])
  {
    hide SyncInv, ApplyStep, Enabled, OwnStep;
    if i == 0 { InitialOk(owner, nets[0]); }
    else {
      RunKeeps(owner, nets, steps, i - 1);
      assert nets[i] == ApplyStep(nets[i - 1], steps[i - 1]);
      StepKeeps(owner, nets[i - 1], steps[i - 1]);
    }
  }

  lemma InitialOk(owner: Owner, net: Net)
    requires Initial(net)
    ensures SyncInv(owner, net)
  {
  }

  /** In every interleaving of services with disjoint uids, the core's view of a service with that service's queued
      operations replayed has the uids of the service's own table, but for uids whose last operation
      met a full queue. */
  lemma ViewPlusQueueIsTable(owner: Owner, nets: seq<Net>, steps: seq<Step>, s: Svc, u: string)
    requires IsRun(nets, steps) && Disjoint(owner, steps) && s in nets[|steps|].services
    ensures var net := nets[|steps|];
            var v := net.services[s];
            u in v.lost || (u in Replay(View(net.core, v.ctype), v.queue) <==> u in v.clients)
  {
    hide ApplyStep, Enabled, View, Replay;
    RunKeeps(owner, nets, steps, |steps|);
    FreeOwn(owner, nets[|steps|], s);
  }

  /** Reconciliation closes a client only if that client's last operation met a full queue:
      a client whose add was queued, and whose remove was not asked for, is never closed. */
  lemma ReconcileClosesOnlyLost(owner: Owner, nets: seq<Net>, steps: seq<Step>, s: Svc, u: string)
    requires IsRun(nets, steps) && Disjoint(owner, steps) && Enabled(nets[|steps|], Reconcile(s))
    requires u in nets[|steps|].services[s].clients && u !in nets[|steps|].services[s].lost
    ensures u in ApplyStep(nets[|steps|], Reconcile(s)).services[s].clients
  {
    hide ApplyStep, Enabled, SyncInv;
    RunKeeps(owner, nets, steps, |steps|);
    ReconcileKeeps(owner, nets[|steps|], s);
  }

  // ---- Without disjoint uids ----

  /** The core's table is what its log makes of it, and every reply what the log made of it at that time. */
  ghost predicate LogOk(net: Net) {
    && net.core == ApplyAll(map[], net.log)
    && forall s | s in net.services :: RepliesOk(net.log, net.services[s])
  }

  ghost predicate RepliesOk(log: seq<Op>, v: Service) {
    && (forall i | 0 <= i < |v.queue| && v.queue[i].Get? :: v.queue[i].wanted == Some(v.ctype))
    && (v.reply.Some? ==> v.answered <= |log| && v.reply.value == Holding(ApplyAll(map[], log[..v.answered]), v.ctype))
  }

  lemma RepliesStay(log: seq<Op>, op: Op, v: Service)
    requires RepliesOk(log, v)
    ensures RepliesOk(log + [op], v)
  {
    hide ApplyAll, Holding;
    if v.reply.Some? { assert (log + [op])[..v.answered] == log[..v.answered]; }
  }

  lemma LogStep(net: Net, step: Step)
    requires LogOk(net) && Enabled(net, step)
    ensures LogOk(ApplyStep(net, step))
  {
    hide ApplyAll, Holding, Reconciled, UserTable.Apply;
    match step
    case CoreTakes(s) => TakeLogged(net, s);
    case _ =>
  }

  lemma TakeLogged(net: Net, s: Svc)
    requires LogOk(net) && Enabled(net, CoreTakes(s))
    ensures LogOk(ApplyStep(net, CoreTakes(s)))
  {
    hide Holding, UserTable.Apply, ApplyAll;
    var v, op := net.services[s], net.services[s].queue[0];
    var after := ApplyStep(net, CoreTakes(s));
    ApplyAllSnoc(net.log, op);
    forall r | r in after.services ensures RepliesOk(after.log, after.services[r]) {
      RepliesStay(net.log, op, net.services[r]);
      assert (net.log + [op])[..|net.log|] == net.log;
    }
  }

  lemma ApplyAllSnoc(log: seq<Op>, op: Op)
    ensures ApplyAll(map[], log + [op]) == UserTable.Apply(ApplyAll(map[], log), op)
  {
    assert (log + [op])[..|log + [op]| - 1] == log;
  }

  lemma {:induction false} RunLogged(nets: seq<Net>, steps: seq<Step>, i: nat)
    requires IsRun(nets, steps) && i <= |steps|
    ensures LogOk(nets[i])
  {
    hide LogOk, ApplyStep, Enabled;
    if i == 0 { InitialLogged(nets[0]); }
    else {
      RunLogged(nets, steps, i - 1);
      assert nets[i] == ApplyStep(nets[i - 1], steps[i - 1]);
      LogStep(nets[i - 1], steps[i - 1]);
    }
  }

  lemma InitialLogged(net: Net)
    requires Initial(net)
    ensures LogOk(net)
  {
  }

  /** In every run, with uids shared or not and queues full or not, reconciliation closes a client exactly when, among
      the operations the core had taken at its reply, no add of the client with the service's connection type was
      without a later add of the same uid, by whatever service, or a later removal. */
  lemma ReconcileClosesIff(nets: seq<Net>, steps: seq<Step>, s: Svc, u: string)
    requires IsRun(nets, steps) && Enabled(nets[|steps|], Reconcile(s)) && u in nets[|steps|].services[s].clients
    ensures var net := nets[|steps|];
            var v := net.services[s];
            && v.answered <= |net.log|
            && (u !in ApplyStep(net, Reconcile(s)).services[s].clients <==>
                  !exists i :: LastAdd(net.log[..v.answered], i, u, v.ctype))
  {
    hide ApplyAll, LastAdd;
    RunLogged(nets, steps, |steps|);
    var net := nets[|steps|];
    HoldsIsLastAdd(net.log[..net.services[s].answered], u, net.services[s].ctype);
  }

  /** Operation `op` of a service of type `t` says what step `step` is about. */
  predicate Asks(step: Step, t: ConnType, op: Op) {
    match step
    case Connect(_, u, _, p, n, _) => op == Add(Some(p), Some(Connection(t, u)), n)
    case Disconnect(_, u, n, _) => op == Remove(Some(u), t, n) || op == Remove(None, t, n)
    case Refresh(_, _, p, n, _, _) => op == Update(Some(p), n) || op == Get(Some(t), n)
    case Ask(_, n, _) => op == Get(Some(t), n)
    case _ => false
  }

  /** A step queues at most what it is about, at the end and only for its own service; the core takes from the front. */
  lemma StepQueues(net: Net, step: Step, s: Svc)
    requires Enabled(net, step) && s in net.services
    ensures var v, w := net.services[s], ApplyStep(net, step).services[s];
            && w.ctype == v.ctype
            && (step == CoreTakes(s) ==>
                  v.queue == [v.queue[0]] + w.queue && ApplyStep(net, step).log == net.log + [v.queue[0]])
            && (step != CoreTakes(s) ==> v.queue <= w.queue)
            && (step.s != s ==> w == v)
            && forall i | |v.queue| <= i < |w.queue| :: step.s == s && Asks(step, v.ctype, w.queue[i])
    ensures !step.CoreTakes? ==> ApplyStep(net, step).log == net.log
    ensures (step.Connect? || step.Ask?) && !step.full && step.s == s ==>
              |ApplyStep(net, step).services[s].queue| == |net.services[s].queue| + 1
  {
    hide UserTable.Apply, Holding, Reconciled;
  }

  /** A refreshed client is asked for at once: its update is queued, then a request, and the service waits for the
      answer with nothing of the core's known about the client. */
  lemma RefreshAsks(net: Net, step: Step)
    requires Enabled(net, step) && step.Refresh? && !step.full && !step.fullLater
    requires step.u in net.services[step.s].clients
    ensures var v, w := net.services[step.s], ApplyStep(net, step).services[step.s];
            && w.queue == v.queue + [Update(Some(step.presence), step.sockets), Get(Some(v.ctype), step.sockets)]
            && w.waiting && w.clients.Keys == v.clients.Keys && w.clients[step.u].info == None
  {
  }

  predicate Connects(step: Step, s: Svc, u: string) { step.Connect? && step.s == s && step.u == u }

  ghost predicate LastConnect(steps: seq<Step>, i: int, s: Svc, u: string) {
    0 <= i < |steps| && Connects(steps[i], s, u) && forall j | i < j < |steps| :: !Connects(steps[j], s, u)
  }

  lemma StepSockets(net: Net, step: Step, s: Svc, u: string)
    requires Enabled(net, step) && s in net.services
    ensures var v, w := net.services[s], ApplyStep(net, step).services[s];
            && (Connects(step, s, u) ==> u in w.clients && w.clients[u].socket == step.socket)
            && (!Connects(step, s, u) && u in w.clients ==>
                  u in v.clients && w.clients[u].socket == v.clients[u].socket)
  {
    hide UserTable.Apply, Holding;
  }

  lemma StepServices(net: Net, step: Step)
    requires Enabled(net, step)
    ensures ApplyStep(net, step).services.Keys == net.services.Keys
  {
    hide UserTable.Apply, Holding, Reconciled;
  }

  /** In every run the socket of a client is the one with which it last connected. */
  lemma {:induction false} SocketIsLastConnect(nets: seq<Net>, steps: seq<Step>, n: nat, s: Svc, u: string)
    requires IsRun(nets, steps) && n <= |steps| && s in nets[n].services && u in nets[n].services[s].clients
    ensures exists i :: LastConnect(steps[..n], i, s, u) && steps[i].socket == nets[n].services[s].clients[u].socket
  {
    hide ApplyStep, Enabled;
    if n > 0 {
      StepServices(nets[n - 1], steps[n - 1]);
      StepSockets(nets[n - 1], steps[n - 1], s, u);
      assert nets[n] == ApplyStep(nets[n - 1], steps[n - 1]);
      if Connects(steps[n - 1], s, u) {
        assert LastConnect(steps[..n], n - 1, s, u);
      } else {
        SocketIsLastConnect(nets, steps, n - 1, s, u);
        var i :| LastConnect(steps[..n - 1], i, s, u) && steps[i].socket == nets[n].services[s].clients[u].socket;
        assert LastConnect(steps[..n], i, s, u);
      }
    }
  }

  /** A client that disconnects before it was reconciled stays in its service's table, and the core keeps it too. */
  lemma EarlyDisconnectChangesNothing(net: Net, step: Step, users: Users)
    requires Enabled(net, step) && step.Disconnect? && net.services[step.s].clients[step.u].info.None?
    ensures var v, w := net.services[step.s], ApplyStep(net, step).services[step.s];
            && w.clients == v.clients && ApplyStep(net, step).core == net.core
            && (w.queue == v.queue || (|w.queue| == |v.queue| + 1 && v.queue <= w.queue
                                       && UserTable.Apply(users, w.queue[|v.queue|]) == users))
  {
  }

  ghost predicate Reachable(net: Net) {
    exists nets: seq<Net>, steps: seq<Step> :: IsRun(nets, steps) && nets[|steps|] == net
  }

  lemma ReachStep(net: Net, step: Step)
    requires Reachable(net) && Enabled(net, step)
    ensures Reachable(ApplyStep(net, step))
  {
    hide ApplyStep, Enabled, Initial;
    var nets: seq<Net>, steps: seq<Step> :| IsRun(nets, steps) && nets[|steps|] == net;
    assert IsRun(nets + [ApplyStep(net, step)], steps + [step]);
  }

  function Idle(t: ConnType): Service { Service(t, map[], [], false, None, 0, {}) }

  /** Two services, 0 and 1, through which a client with uid `u` has connected, in this order. */
  lemma BothConnect(u: string, p: Presence) returns (net: Net)
    requires p.uid == u
    ensures Reachable(net) && net.services.Keys == {0, 1} && u in net.services[0].clients && !net.services[0].waiting
    ensures net.services[0].queue == [] && net.services[0].ctype == TCP
    ensures View(net.core, TCP) == {}
  {
    hide Reachable;
    var start := Net(map[], map[0 := Idle(TCP), 1 := Idle(SSL)], []);
    assert Reachable(start) by { StartIsReachable(start); }
    net := start;
    ReachStep(net, Connect(0, u, 0, p, 0, false));
    net := ApplyStep(net, Connect(0, u, 0, p, 0, false));
    ReachStep(net, CoreTakes(0));
    net := ApplyStep(net, CoreTakes(0));
    ReachStep(net, Connect(1, u, 0, p, 0, false));
    net := ApplyStep(net, Connect(1, u, 0, p, 0, false));
    ReachStep(net, CoreTakes(1));
    net := ApplyStep(net, CoreTakes(1));
  }

  lemma StartIsReachable(net: Net)
    requires Initial(net)
    ensures Reachable(net)
  {
    assert IsRun([net], []);
  }

  /** Two services that share a uid: the second add takes the user out of the first service's view,
      and the next reconciliation there closes a client that was added, with no queue full, and never removed. */
  lemma SharedUidIsTakenOver(u: string, p: Presence) returns (net: Net)
    requires p.uid == u
    ensures Reachable(net) && 0 in net.services && Enabled(net, Reconcile(0)) && u in net.services[0].clients
    ensures u !in ApplyStep(net, Reconcile(0)).services[0].clients
  {
    hide Reachable;
    net := BothConnect(u, p);
    ReachStep(net, Ask(0, 0, false));
    net := ApplyStep(net, Ask(0, 0, false));
    ReachStep(net, CoreTakes(0));
    ghost var before := net;
    net := ApplyStep(net, CoreTakes(0));
    assert u !in View(before.core, TCP);
  }
}
