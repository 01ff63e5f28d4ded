/** Messages shared between services through the core: every receiver but the origin, once, in order. */
module FanOut {
  import Routing

  /** What a service hands to the core: an ordinary message, or (wrapped in a list) the event of a new client. */
  datatype Msg = Plain(id: nat) | Hello(id: nat)

  /** What the core puts to a service, with the service it came from. */
  datatype Item = Shared(origin: nat, msg: Msg) | Roster(origin: nat, uid: string)

  /** Services are numbered; `receives[i]` tells whether service `i` is registered as a receiver. */
  datatype Net = Net(
    receives: seq<bool>,
    toCore: seq<seq<Msg>>,
    toService: seq<seq<Item>>,
    handled: seq<seq<Item>>,
    log: seq<seq<Msg>>)       // everything service `i` ever shared

  ghost predicate Wf(net: Net) {
    |net.receives| == |net.toCore| == |net.toService| == |net.handled| == |net.log|
  }

  // ---- AddDataToCoTList.send ----

  /** `data` put to every receiver but the origin. */
  function PutAll(receives: seq<bool>, pipes: seq<seq<Item>>, origin: nat, data: seq<Item>): (r: seq<seq<Item>>)
    requires |receives| == |pipes|
    ensures |r| == |pipes|
  {
    seq(|pipes|, i requires 0 <= i < |pipes| => if receives[i] && i != origin then pipes[i] + data else pipes[i])
  }

  /** The same over the table of registered pipes. */
  function Delivered(receivers: map<nat, seq<Item>>, origin: nat, data: seq<Item>): map<nat, seq<Item>> {
    map s | s in receivers :: receivers[s] + (if s == origin then [] else data)
  }

  function Pipes(receives: seq<bool>, pipes: seq<seq<Item>>): map<nat, seq<Item>>
    requires |receives| == |pipes|
  {
    map i: nat | i < |pipes| && receives[i] :: pipes[i]
  }

  /** Putting to the registered pipes is what the step of the protocol does. */
  lemma PutAllIsDelivered(receives: seq<bool>, pipes: seq<seq<Item>>, origin: nat, data: seq<Item>)
    requires |receives| == |pipes|
    ensures Pipes(receives, PutAll(receives, pipes, origin, data)) == Delivered(Pipes(receives, pipes), origin, data)
    ensures forall i | 0 <= i < |pipes| && !receives[i] :: PutAll(receives, pipes, origin, data)[i] == pipes[i]
  {
    var after := PutAll(receives, pipes, origin, data);
    assert forall i | 0 <= i < |pipes| && receives[i] :: after[i] == pipes[i] + (if i == origin then [] else data);
  }

  lemma DeliveredTwice(receivers: map<nat, seq<Item>>, origin: nat, a: seq<Item>, b: seq<Item>)
    ensures Delivered(Delivered(receivers, origin, a), origin, b) == Delivered(receivers, origin, a + b)
  {
    var twice, once := Delivered(Delivered(receivers, origin, a), origin, b), Delivered(receivers, origin, a + b);
    forall s | s in receivers ensures twice[s] == once[s] {
      assert s != origin ==> (receivers[s] + a) + b == receivers[s] + (a + b);
      assert s == origin ==> (receivers[s] + []) + [] == receivers[s] + [];
    }
    assert twice.Keys == once.Keys;
  }

  /** The receivers' pipes, each a queue that messages are put to. */
  class FilterGroup {
    var receivers: map<nat, seq<Item>>

    constructor ()
      ensures receivers == map[]
    {
      receivers := map[];
    }

    /** `send`: one put to every registered pipe other than the origin's. */
    method Send(data: Item, origin: nat)
      modifies this
      ensures receivers == Delivered(old(receivers), origin, [data])
    {
      var rest := receivers.Keys;
      ghost var before := receivers;
      while rest != {}
        invariant rest <= before.Keys && receivers.Keys == before.Keys
        invariant forall s | s in receivers ::
                    receivers[s] == before[s] + (if s == origin || s in rest then [] else [data])
        decreases |rest|
      {
        var s :| s in rest;
        if s != origin {
          receivers := receivers[s := receivers[s] + [data]];
        }
        rest := rest - {s};
      }
    }

    /** One message of a service, as `checkPipes` forwards it: after a new client's event the presence of every user. */
    method Forward(origin: nat, msg: Msg, users: seq<string>)
      modifies this
      ensures receivers == Delivered(old(receivers), origin, Forwarded(origin, msg, users))
      ensures receivers.Keys == old(receivers).Keys
      ensures forall s | s in receivers && s != origin && msg.Hello? ::
                Announces(old(receivers)[s], receivers[s], origin, msg, users)
      ensures forall s | s in receivers && s != origin && !msg.Hello? ::
                receivers[s] == old(receivers)[s] + [Shared(origin, msg)]
      ensures origin in receivers ==> receivers[origin] == old(receivers)[origin]
    {
      hide Delivered;
      Send(Shared(origin, msg), origin);
      if msg.Hello? {
        ghost var first := [Shared(origin, msg)];
        assert first + RosterItems(origin, users[..0]) == first;
        for i := 0 to |users|
          invariant receivers == Delivered(old(receivers), origin, first + RosterItems(origin, users[..i]))
        {
          ghost var done := first + RosterItems(origin, users[..i]);
          Send(Roster(origin, users[i]), origin);
          DeliveredTwice(old(receivers), origin, done, [Roster(origin, users[i])]);
          assert done + [Roster(origin, users[i])] == first + RosterItems(origin, users[..i + 1]);
        }
        assert users[..|users|] == users;
      } else {
        assert Forwarded(origin, msg, users) == [Shared(origin, msg)];
      }
      DeliveredSays(old(receivers), origin, msg, users);
    }
  }

  lemma DeliveredSays(before: map<nat, seq<Item>>, origin: nat, msg: Msg, users: seq<string>)
    ensures var after := Delivered(before, origin, Forwarded(origin, msg, users));
            && after.Keys == before.Keys
            && (forall s | s in after && s != origin && msg.Hello? ::
                  Announces(before[s], after[s], origin, msg, users))
            && (forall s | s in after && s != origin && !msg.Hello? :: after[s] == before[s] + [Shared(origin, msg)])
            && (origin in after ==> after[origin] == before[origin])
  {
    var after := Delivered(before, origin, Forwarded(origin, msg, users));
    forall s | s in after && s != origin && msg.Hello? ensures Announces(before[s], after[s], origin, msg, users) {
      assert after[s] == before[s] + ([Shared(origin, msg)] + RosterItems(origin, users));
    }
  }

  /** `handle_shared_data`: routed to the service's own clients without a share pipe, so nothing goes back to the
      core. */
  method HandleSharedData(
      controller: Routing.SendDataController, clients: seq<Routing.Client>, cot: Routing.Cot, sender: Routing.Sender,
      works: Routing.Sockets, replies: Routing.Sockets)
    modifies controller
    ensures controller.pipe == old(controller.pipe)
    ensures cot.kind == "GeoChat" || !sender.Itself? ==>
              controller.sent == old(controller.sent)
                + Routing.Perform(Routing.Plan(clients, cot, sender), works, 0).sent
  {
    hide Routing.Plan, Routing.Perform, Routing.Greeted, Routing.Greeters;
    var _, _ := controller.SendDataInQueue(clients, cot, sender, works, replies, false);
  }

  // ---- The protocol ----

  datatype Step =
    | Share(s: nat, msg: Msg)                 // SendDataController puts to the share pipe
    | CoreTakes(s: nat, users: seq<string>)   // one turn of checkPipes; `users` are the current presences
    | Handle(s: nat)                          // handle_shared_data

  ghost predicate Enabled(net: Net, step: Step) {
    match step
    case Share(s, _) => s < |net.toCore|
    case CoreTakes(s, _) => s < |net.toCore| && net.toCore[s] != []
    case Handle(s) => s < |net.toService| && net.toService[s] != []
  }

  function RosterItems(origin: nat, users: seq<string>): seq<Item> {
    seq(|users|, i requires 0 <= i < |users| => Roster(origin, users[i]))
  }

  /** A new client's event is followed by the presence of every user. */
  function Forwarded(origin: nat, msg: Msg, users: seq<string>): seq<Item> {
    [Shared(origin, msg)] + (if msg.Hello? then RosterItems(origin, users) else [])
  }

  ghost function Apply(net: Net, step: Step): Net
    requires Wf(net) && Enabled(net, step)
  {
    match step
    case Share(s, msg) =>
      net.(toCore := net.toCore[s := net.toCore[s] + [msg]], log := net.log[s := net.log[s] + [msg]])
    case CoreTakes(s, users) =>
      net.(toCore := net.toCore[s := net.toCore[s][1..]],
           toService := PutAll(net.receives, net.toService, s, Forwarded(s, net.toCore[s][0], users)))
    case Handle(s) =>
      // The message goes to the service's own clients, with no share pipe: it is never shared again.
      net.(toService := net.toService[s := net.toService[s][1..]],
           handled := net.handled[s := net.handled[s] + [net.toService[s][0]]])
  }

  ghost predicate Initial(net: Net) {
    Wf(net) && forall i | 0 <= i < |net.toCore| ::
      net.toCore[i] == [] && net.toService[i] == [] && net.handled[i] == [] && net.log[i] == []
  }

  ghost predicate IsRun(nets: seq<Net>, steps: seq<Step>) {
    && |nets| == |steps| + 1 && Initial(nets[0])
    && forall i | 0 <= i < |steps| ::
         Wf(nets[i]) && Enabled(nets[i], steps[i]) && nets[i + 1] == Apply(nets[i], steps[i])
  }

  // ---- Exactly once, in order ----

  /** The messages of origin `s` among some items. */
  function From(items: seq<Item>, s: nat): seq<Msg> {
    if items == [] then []
    else (if items[0].Shared? && items[0].origin == s then [items[0].msg] else []) + From(items[1..], s)
  }

  lemma {:induction false} FromConcat(a: seq<Item>, b: seq<Item>, s: nat)
    ensures From(a + b, s) == From(a, s) + From(b, s)
  {
    if a == [] { assert a + b == b; }
    else {
      assert (a + b)[0] == a[0] && (a + b)[1..] == a[1..] + b;
      FromConcat(a[1..], b, s);
    }
  }

  lemma {:induction false} FromRoster(origin: nat, users: seq<string>, s: nat)
    ensures From(RosterItems(origin, users), s) == []
  {
    if users != [] {
      assert RosterItems(origin, users)[1..] == RosterItems(origin, users[1..]);
      FromRoster(origin, users[1..], s);
    }
  }

  lemma FromOne(item: Item, s: nat)
    ensures From([item], s) == if item.Shared? && item.origin == s then [item.msg] else []
  {
    assert [item][1..] == [];
  }

  lemma FromForwarded(origin: nat, msg: Msg, users: seq<string>, s: nat)
    ensures From(Forwarded(origin, msg, users), s) == if origin == s then [msg] else []
  {
    hide From;
    FromOne(Shared(origin, msg), s);
    FromRoster(origin, users, s);
    if msg.Hello? { FromConcat([Shared(origin, msg)], RosterItems(origin, users), s); }
    else { assert Forwarded(origin, msg, users) == [Shared(origin, msg)]; }
  }

  /** Between sender `s` and receiver `r` nothing is lost, duplicated or reordered. */
  ghost predicate Flow(net: Net, s: nat, r: nat)
    requires Wf(net) && s < |net.log| && r < |net.log|
  {
    net.log[s] == From(net.handled[r], s) + From(net.toService[r], s) + net.toCore[s]
  }

  ghost predicate NotFrom(items: seq<Item>, s: nat) { forall i | 0 <= i < |items| :: items[i].origin != s }

  ghost predicate FlowInv(net: Net) {
    && Wf(net)
    && (forall s: nat, r: nat | s < |net.log| && r < |net.log| && s != r && net.receives[r] :: Flow(net, s, r))
    && (forall s: nat | s < |net.log| :: NotFrom(net.handled[s], s) && NotFrom(net.toService[s], s))
  }

  lemma ShareKeeps(net: Net, s: nat, msg: Msg)
    requires FlowInv(net) && Enabled(net, Share(s, msg))
    ensures FlowInv(Apply(net, Share(s, msg)))
  {
    hide From, NotFrom;
    var after := Apply(net, Share(s, msg));
    forall o: nat, r: nat | o < |net.log| && r < |net.log| && o != r && net.receives[r] ensures Flow(after, o, r) {
      assert Flow(net, o, r);
    }
  }

  lemma CoreTakesKeeps(net: Net, s: nat, users: seq<string>)
    requires FlowInv(net) && Enabled(net, CoreTakes(s, users))
    ensures FlowInv(Apply(net, CoreTakes(s, users)))
  {
    hide From, Forwarded;
    var after := Apply(net, CoreTakes(s, users));
    var data := Forwarded(s, net.toCore[s][0], users);
    forall o: nat, r: nat | o < |net.log| && r < |net.log| && o != r && net.receives[r] ensures Flow(after, o, r) {
      assert Flow(net, o, r);
      FromConcat(net.toService[r], data, o);
      FromForwarded(s, net.toCore[s][0], users, o);
      if o == s { assert net.toCore[s] == [net.toCore[s][0]] + net.toCore[s][1..]; }
      else if r == s { }
    }
    ForwardedOrigin(s, net.toCore[s][0], users);
  }

  lemma ForwardedOrigin(origin: nat, msg: Msg, users: seq<string>)
    ensures forall i | 0 <= i < |Forwarded(origin, msg, users)| :: Forwarded(origin, msg, users)[i].origin == origin
  {
  }

  lemma HandleKeeps(net: Net, s: nat)
    requires FlowInv(net) && Enabled(net, Handle(s))
    ensures FlowInv(Apply(net, Handle(s)))
  {
    hide From;
    var after := Apply(net, Handle(s));
    var x := net.toService[s][0];
    assert net.toService[s] == [x] + net.toService[s][1..];
    forall o: nat, r: nat | o < |net.log| && r < |net.log| && o != r && net.receives[r] ensures Flow(after, o, r) {
      assert Flow(net, o, r);
      if r == s {
        FromConcat(net.handled[s], [x], o);
        FromConcat([x], net.toService[s][1..], o);
      }
    }
  }

  lemma {:induction false} RunKeeps(nets: seq<Net>, steps: seq<Step>, i: nat)
    requires IsRun(nets, steps) && i <= |steps|
    ensures FlowInv(nets[i])
  {
    hide FlowInv, Apply;
    if i == 0 { InitialFlows(nets[0]); }
    else {
      RunKeeps(nets, steps, i - 1);
      StepKeeps(nets[i - 1], steps[i - 1]);
    }
  }

  lemma StepKeeps(net: Net, step: Step)
    requires FlowInv(net) && Enabled(net, step)
    ensures FlowInv(Apply(net, step))
  {
    hide Apply;
    match step
    case Share(s, msg) => ShareKeeps(net, s, msg);
    case CoreTakes(s, users) => CoreTakesKeeps(net, s, users);
    case Handle(s) => HandleKeeps(net, s);
  }

  lemma InitialFlows(net: Net)
    requires Initial(net)
    ensures FlowInv(net)
  {
  }

  /** In every run, for each receiver other than the sender, what was shared is what it handled, then what waits
      in its queue, then what waits for the core; and no service gets its own messages back. */
  lemma ExactlyOnce(nets: seq<Net>, steps: seq<Step>, s: nat, r: nat)
    requires IsRun(nets, steps)
    requires var net := nets[|steps|];
             s < |net.log| && r < |net.log| && s != r && |net.receives| == |net.log| && net.receives[r]
    ensures var net := nets[|steps|];
            && Wf(net)
            && net.log[s] == From(net.handled[r], s) + From(net.toService[r], s) + net.toCore[s]
            && NotFrom(net.handled[r], r) && NotFrom(net.toService[r], r)
            && (net.toCore[s] == [] && net.toService[r] == [] ==> From(net.handled[r], s) == net.log[s])
  {
    hide From, NotFrom, Apply;
    RunKeeps(nets, steps, |steps|);
    var net := nets[|steps|];
    assert Flow(net, s, r);
    FromNothing(s);
  }

  lemma FromNothing(s: nat)
    ensures From([], s) == []
  {
  }

  /** A new client's roster goes to every receiver except the service the client connected to. */
  lemma RosterSkipsTheNewClientsService(net: Net, s: nat, users: seq<string>)
    requires Wf(net) && Enabled(net, CoreTakes(s, users)) && net.toCore[s][0].Hello?
    ensures var after := Apply(net, CoreTakes(s, users));
            && after.toService[s] == net.toService[s]
            && forall r: nat | r < |net.receives| && r != s && net.receives[r] ::
                 Announces(net.toService[r], after.toService[r], s, net.toCore[s][0], users)
  {
  }

  /** A queue got a new client's event and then the presence of every user, in order. */
  ghost predicate Announces(before: seq<Item>, after: seq<Item>, origin: nat, msg: Msg, users: seq<string>) {
    && |after| == |before| + 1 + |users| && after[..|before|] == before && after[|before|] == Shared(origin, msg)
    && forall k | 0 <= k < |users| :: after[|before| + 1 + k] == Roster(origin, users[k])
  }

  // ---- Draining ----

  function Total<T>(queues: seq<seq<T>>): nat {
    if queues == [] then 0 else |queues[0]| + Total(queues[1..])
  }

  lemma {:induction false} TotalUpdate<T>(queues: seq<seq<T>>, i: nat, q: seq<T>)
    requires i < |queues|
    ensures Total(queues[i := q]) == Total(queues) - |queues[i]| + |q|
  {
    if i == 0 {
      assert queues[i := q][1..] == queues[1..];
    } else {
      assert queues[i := q][1..] == queues[1..][i - 1 := q];
      TotalUpdate(queues[1..], i - 1, q);
    }
  }

  lemma {:induction false} TotalZero<T>(queues: seq<seq<T>>)
    ensures Total(queues) == 0 <==> forall i | 0 <= i < |queues| :: queues[i] == []
  {
    if queues != [] {
      TotalZero(queues[1..]);
      assert forall i | 1 <= i < |queues| :: queues[i] == queues[1..][i - 1];
    }
  }

  /** Traffic in flight, first towards the core and then towards the services. */
  ghost predicate Lighter(a: Net, b: Net) {
    Total(a.toCore) < Total(b.toCore) || (Total(a.toCore) == Total(b.toCore) && Total(a.toService) < Total(b.toService))
  }

  /** Every step other than sharing makes the traffic lighter. */
  lemma StepsDrain(net: Net, step: Step)
    requires Wf(net) && Enabled(net, step) && !step.Share?
    ensures Wf(Apply(net, step)) && Lighter(Apply(net, step), net)
    ensures Apply(net, step).log == net.log && Apply(net, step).receives == net.receives
  {
    match step
    case CoreTakes(s, _) => TotalUpdate(net.toCore, s, net.toCore[s][1..]);
    case Handle(s) => TotalUpdate(net.toService, s, net.toService[s][1..]);
  }

  ghost predicate Empty(net: Net) {
    (forall i | 0 <= i < |net.toCore| :: net.toCore[i] == [])
    && forall i | 0 <= i < |net.toService| :: net.toService[i] == []
  }

  /** `steps`, none of them sharing, lead from `net` to `end`. */
  ghost predicate Leads(net: Net, steps: seq<Step>, end: Net)
    decreases |steps|
  {
    if steps == [] then net == end
    else Wf(net) && Enabled(net, steps[0]) && !steps[0].Share? && Leads(Apply(net, steps[0]), steps[1..], end)
  }

  /** From any state of a run the queues can be emptied, and by StepsDrain will be if nothing more is shared;
      then every receiver has handled everything the others shared. */
  lemma {:induction false} Drains(net: Net) returns (steps: seq<Step>, end: Net)
    requires FlowInv(net)
    ensures Leads(net, steps, end)
    ensures FlowInv(end) && Empty(end) && end.log == net.log && end.receives == net.receives
    ensures forall s: nat, r: nat | s < |net.log| && r < |net.log| && s != r && net.receives[r] ::
              From(end.handled[r], s) == net.log[s]
    decreases Total(net.toCore), Total(net.toService)
  {
    hide From, NotFrom, Apply, Total;
    if Empty(net) {
      steps, end := [], net;
      forall s: nat, r: nat | s < |net.log| && r < |net.log| && s != r && net.receives[r]
        ensures From(end.handled[r], s) == net.log[s]
      {
        assert Flow(net, s, r);
        FromNothing(s);
      }
    } else {
      var step;
      if i :| 0 <= i < |net.toCore| && net.toCore[i] != [] {
        step := CoreTakes(i, []);
      } else {
        var i :| 0 <= i < |net.toService| && net.toService[i] != [];
        step := Handle(i);
      }
      StepKeeps(net, step);
      StepsDrain(net, step);
      var more;
      more, end := Drains(Apply(net, step));
      steps := [step] + more;
      assert steps[1..] == more;
    }
  }
}
