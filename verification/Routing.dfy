/** `SendDataController`: which clients get a message, and what happens when a socket fails. */
module Routing {
  import opened Substrings

  /** A client of the service. `callsign` is `None` while the table still holds raw connection information,
      which has no presence. */
  datatype Client = Client(id: string, callsign: Option<Option<string>>)

  /** Which of the socket writes of one call succeed, in the order in which they are tried. */
  type Sockets = nat -> bool

  /** A processed CoT: its type, the chat group uid of a chat, and the callsigns of its destinations. */
  datatype Cot = Cot(kind: string, uid: string, chat: Option<string>, dests: Option<seq<Option<string>>>)

  /** The sender: nobody known, a user, or the message itself (a new connection). */
  datatype Sender = Unknown | FromUser(userId: string) | Itself

  datatype Result = Done | Failed(id: string) | Broken

  const ALL_ROOMS := "All Chat Rooms"

  // ---- What is to be done, in order ----

  /** One step of a send loop: a write to a client's socket, or a client without presence where one is needed. */
  datatype Action = Write(client: Client) | Crash

  datatype Outcome = Outcome(sent: seq<string>, result: Result)

  function After(done: seq<string>, o: Outcome): Outcome { Outcome(done + o.sent, o.result) }

  /** The writes that happen, up to and excluding the first that does not, and how it ends; `n` were tried before. */
  function Perform(actions: seq<Action>, works: Sockets, n: nat): Outcome {
    if actions == [] then Outcome([], Done)
    else match actions[0]
      case Crash => Outcome([], Broken)
      case Write(c) =>
        if !works(n) then Outcome([], Failed(c.id))
        else After([c.id], Perform(actions[1..], works, n + 1))
  }

  predicate SkipsSender(cot: Cot, sender: Sender, c: Client) {
    cot.kind != "TakPong" && sender.FromUser? && c.id == sender.userId
  }

  function ToAll(clients: seq<Client>, cot: Cot, sender: Sender): seq<Action> {
    if clients == [] then []
    else (if SkipsSender(cot, sender, clients[0]) then [] else [Write(clients[0])]) + ToAll(clients[1..], cot, sender)
  }

  function ToDest(clients: seq<Client>, dest: Option<string>): seq<Action> {
    if clients == [] then []
    else (match clients[0].callsign
          case None => [Crash]
          case Some(cs) => if cs == dest then [Write(clients[0])] else []) + ToDest(clients[1..], dest)
  }

  function ToDests(clients: seq<Client>, dests: seq<Option<string>>): seq<Action> {
    if dests == [] then [] else ToDest(clients, dests[0]) + ToDests(clients, dests[1..])
  }

  function ToRoom(clients: seq<Client>, room: string): seq<Action> {
    if clients == [] then []
    else (if clients[0].id == room then [Write(clients[0])] else []) + ToRoom(clients[1..], room)
  }

  /** `has_valid_marti`; `None` when it raises, on a destination list without entries. */
  function HasValidMarti(cot: Cot): Option<bool> {
    match cot.dests
    case Some(dests) =>
      if |dests| > 1 then Some(true)
      else if |dests| == 0 then None
      else Some(dests[0] != None && dests[0] != Some(""))
    case None => Some(cot.chat.Some? && cot.chat.value != ALL_ROOMS)
  }

  /** The plan of `sendDataInQueue`, except for a new connection. */
  function Plan(clients: seq<Client>, cot: Cot, sender: Sender): seq<Action> {
    if cot.kind == "GeoChat" then
      match cot.chat
      case None => [Crash]
      case Some(room) => if room == ALL_ROOMS then ToAll(clients, cot, sender) else ToRoom(clients, room)
    else match HasValidMarti(cot)
      case None => [Crash]
      case Some(false) => ToAll(clients, cot, sender)
      case Some(true) =>
        match cot.dests
        case None => [Crash]
        case Some(dests) =>
          if dests == [None] || dests == [None, None] then ToAll(clients, cot, sender) else ToDests(clients, dests)
  }

  /** The clients that get a newcomer's event: all others whose write succeeds. */
  function Greeted(clients: seq<Client>, uid: string, greets: Sockets): seq<string> {
    if clients == [] then []
    else
      var n := |clients| - 1;
      Greeted(clients[..n], uid, greets) + (if clients[n].id != uid && greets(n) then [clients[n].id] else [])
  }

  /** The clients whose presence a newcomer gets: those greeted whose presence is known, if the write succeeds. */
  function Greeters(clients: seq<Client>, uid: string, greets: Sockets, replies: Sockets): seq<string> {
    if clients == [] then []
    else
      var n := |clients| - 1;
      Greeters(clients[..n], uid, greets, replies)
      + (if clients[n].id != uid && greets(n) && clients[n].callsign.Some? && replies(n) then [clients[n].id] else [])
  }

  lemma GreetedNobody(clients: seq<Client>, uid: string, greets: Sockets, replies: Sockets)
    ensures Greeted(clients[..0], uid, greets) == [] && Greeters(clients[..0], uid, greets, replies) == []
  {
  }

  lemma GreetedNext(clients: seq<Client>, uid: string, greets: Sockets, replies: Sockets, i: nat)
    requires i < |clients|
    ensures var c := clients[i];
            && Greeted(clients[..i + 1], uid, greets)
               == Greeted(clients[..i], uid, greets) + (if c.id != uid && greets(i) then [c.id] else [])
            && Greeters(clients[..i + 1], uid, greets, replies)
               == Greeters(clients[..i], uid, greets, replies)
                  + (if c.id != uid && greets(i) && c.callsign.Some? && replies(i) then [c.id] else [])
  {
    assert clients[..i + 1][..i] == clients[..i] && clients[..i + 1][i] == clients[i];
  }

  /** Those greeted are the others whose write succeeds. */
  lemma {:induction false} GreetedIff(clients: seq<Client>, uid: string, greets: Sockets, id: string)
    ensures id in Greeted(clients, uid, greets) <==>
              exists i: nat :: i < |clients| && clients[i].id == id && id != uid && greets(i)
  {
    if clients != [] {
      var n := |clients| - 1;
      GreetedIff(clients[..n], uid, greets, id);
      assert forall i: nat | i < n :: clients[i] == clients[..n][i];
      if clients[n].id == id && id != uid && greets(n) { assert n < |clients|; }
    }
  }

  /** Those whose presence goes back are, of them, the ones whose presence is known and can be written. */
  lemma {:induction false} GreetersIff(clients: seq<Client>, uid: string, greets: Sockets, replies: Sockets, id: string)
    ensures id in Greeters(clients, uid, greets, replies) <==>
              exists i: nat :: i < |clients| && clients[i].id == id && id != uid && greets(i)
                               && clients[i].callsign.Some? && replies(i)
  {
    if clients != [] {
      var n := |clients| - 1;
      GreetersIff(clients[..n], uid, greets, replies, id);
      assert forall i: nat | i < n :: clients[i] == clients[..n][i];
    }
  }

  /** Nobody is greeted twice, nor is a presence sent back twice. */
  lemma {:induction false} GreetedOnce(clients: seq<Client>, uid: string, greets: Sockets, replies: Sockets)
    requires UniqueIds(clients)
    ensures var g := Greeted(clients, uid, greets); forall i, j | 0 <= i < j < |g| :: g[i] != g[j]
    ensures var g := Greeters(clients, uid, greets, replies); forall i, j | 0 <= i < j < |g| :: g[i] != g[j]
  {
    if clients != [] {
      var n := |clients| - 1;
      GreetedOnce(clients[..n], uid, greets, replies);
      GreetedIff(clients[..n], uid, greets, clients[n].id);
      GreetersIff(clients[..n], uid, greets, replies, clients[n].id);
      assert forall i: nat | i < n :: clients[..n][i].id != clients[n].id;
    }
  }

  // ---- The controller ----

  lemma RoomNext(clients: seq<Client>, i: nat, room: string)
    requires i < |clients|
    ensures var more := ToRoom(clients[i + 1..], room);
            ToRoom(clients[i..], room) == if clients[i].id == room then [Write(clients[i])] + more else more
  {
    assert clients[i..][0] == clients[i] && clients[i..][1..] == clients[i + 1..];
    assert [] + ToRoom(clients[i + 1..], room) == ToRoom(clients[i + 1..], room);
  }

  lemma RoomEnds(clients: seq<Client>, room: string)
    ensures ToRoom(clients[|clients|..], room) == []
  {
  }

  lemma {:induction false} PerformConcat(a: seq<Action>, b: seq<Action>, works: Sockets, n: nat)
    ensures var o := Perform(a, works, n);
            && Perform(a + b, works, n)
               == (if o.result == Done then After(o.sent, Perform(b, works, n + |o.sent|)) else o)
            && (o.result == Done ==> |o.sent| == |a|)
    decreases |a|
  {
    if a == [] {
      assert a + b == b;
      assert [] + Perform(b, works, n).sent == Perform(b, works, n).sent;
    } else {
      assert (a + b)[0] == a[0] && (a + b)[1..] == a[1..] + b;
      PerformConcat(a[1..], b, works, n + 1);
      var rest := Perform(a[1..], works, n + 1);
      if a[0].Write? && rest.result == Done {
        AfterAfter([a[0].client.id], rest.sent, Perform(b, works, n + 1 + |rest.sent|));
      }
    }
  }

  lemma AfterAfter(a: seq<string>, b: seq<string>, o: Outcome)
    ensures After(a, After(b, o)) == After(a + b, o)
  {
    assert a + (b + o.sent) == (a + b) + o.sent;
  }

  lemma AfterNothing(o: Outcome)
    ensures After([], o) == o
  {
    assert [] + o.sent == o.sent;
  }

  lemma PerformNothing(works: Sockets, n: nat)
    ensures Perform([], works, n) == Outcome([], Done)
  {
  }

  /** One write in front of a plan. */
  lemma PerformWrite(c: Client, more: seq<Action>, works: Sockets, n: nat)
    ensures Perform([Write(c)] + more, works, n)
         == if works(n) then After([c.id], Perform(more, works, n + 1))
            else Outcome([], Failed(c.id))
  {
    assert ([Write(c)] + more)[1..] == more;
  }

  /** One client in front of a plan for one destination. */
  lemma DestNext(clients: seq<Client>, i: nat, dest: Option<string>, works: Sockets, n: nat)
    requires i < |clients|
    ensures var c, more := clients[i], ToDest(clients[i + 1..], dest);
            var o := Perform(ToDest(clients[i..], dest), works, n);
            && (c.callsign.None? ==> o == Outcome([], Broken))
            && (c.callsign == Some(dest) ==>
                  o == if works(n) then After([c.id], Perform(more, works, n + 1))
                       else Outcome([], Failed(c.id)))
            && (c.callsign.Some? && c.callsign.value != dest ==> o == Perform(more, works, n))
  {
    hide After;
    var c, more := clients[i], ToDest(clients[i + 1..], dest);
    assert clients[i..][0] == c && clients[i..][1..] == clients[i + 1..];
    PerformWrite(c, more, works, n);
    assert ([Crash] + more)[0] == Crash && [] + more == more;
  }

  lemma NobodyLeft(clients: seq<Client>, dest: Option<string>)
    ensures ToDest(clients[|clients|..], dest) == []
  {
  }

  lemma NoDestsLeft(clients: seq<Client>, dests: seq<Option<string>>)
    ensures ToDests(clients, dests[|dests|..]) == []
  {
  }

  /** One destination in front of a plan for several. */
  lemma DestsNext(clients: seq<Client>, dests: seq<Option<string>>, i: nat, works: Sockets, n: nat)
    requires i < |dests|
    ensures var o := Perform(ToDest(clients, dests[i]), works, n);
            Perform(ToDests(clients, dests[i..]), works, n)
            == if o.result == Done then After(o.sent, Perform(ToDests(clients, dests[i + 1..]), works, n + |o.sent|))
               else o
  {
    hide ToDest, Perform, After;
    assert dests[i..][0] == dests[i] && dests[i..][1..] == dests[i + 1..];
    PerformConcat(ToDest(clients, dests[i]), ToDests(clients, dests[i + 1..]), works, n);
  }

  class SendDataController {
    var sent: seq<string>      // socket writes, by client id
    var pipe: seq<Cot>         // messages put to the core
    var messagesToCore: nat

    constructor ()
      ensures sent == [] && pipe == [] && messagesToCore == 0
    {
      sent, pipe, messagesToCore := [], [], 0;
    }

    /** The writes of a plan were made, and the message went to the core exactly if all succeeded. */
    twostate predicate Carried(actions: seq<Action>, works: Sockets, cot: Cot, share: bool, result: Result)
      reads this
    {
      && sent == old(sent) + Perform(actions, works, 0).sent && result == Perform(actions, works, 0).result
      && (if share && result == Done then pipe == old(pipe) + [cot] && messagesToCore == old(messagesToCore) + 1
          else pipe == old(pipe) && messagesToCore == old(messagesToCore))
    }

    method Finish(cot: Cot, share: bool)
      modifies this`pipe, this`messagesToCore
      ensures if share then pipe == old(pipe) + [cot] && messagesToCore == old(messagesToCore) + 1
              else pipe == old(pipe) && messagesToCore == old(messagesToCore)
    {
      if share {
        messagesToCore := messagesToCore + 1;
        pipe := pipe + [cot];
      }
    }

    method SendToAll(clients: seq<Client>, cot: Cot, sender: Sender, works: Sockets, share: bool)
      returns (result: Result)
      modifies this
      ensures Carried(ToAll(clients, cot, sender), works, cot, share, result)
    {
      ghost var plan := ToAll(clients, cot, sender);
      ghost var done: seq<string> := [];
      var tried := 0;
      AfterNothing(Perform(plan, works, 0));
      for i := 0 to |clients|
        invariant sent == old(sent) + done && pipe == old(pipe) && messagesToCore == old(messagesToCore)
        invariant |done| == tried
        invariant Perform(plan, works, 0) == After(done, Perform(ToAll(clients[i..], cot, sender), works, tried))
      {
        var c := clients[i];
        assert clients[i..][0] == c && clients[i..][1..] == clients[i + 1..];
        ghost var more := ToAll(clients[i + 1..], cot, sender);
        if SkipsSender(cot, sender, c) {
          assert [] + more == more;
          continue;
        }
        PerformWrite(c, more, works, tried);
        AfterAfter(done, [c.id], Perform(more, works, tried + 1));
        if !works(tried) { return Failed(c.id); }
        tried := tried + 1;
        sent := sent + [c.id];
        done := done + [c.id];
      }
      assert clients[|clients|..] == [];
      Finish(cot, share);
      result := Done;
    }

    /** The inner loop over the clients for one destination. */
    method SendToDest(clients: seq<Client>, dest: Option<string>, works: Sockets, before: nat)
      returns (result: Result, tried: nat)
      modifies this`sent
      ensures var o := Perform(ToDest(clients, dest), works, before);
              sent == old(sent) + o.sent && result == o.result && (result == Done ==> tried == before + |o.sent|)
    {
      hide ToDest, Perform;
      ghost var o := Perform(ToDest(clients, dest), works, before);
      ghost var done: seq<string> := [];
      tried := before;
      AfterNothing(o);
      assert clients[0..] == clients;
      for i := 0 to |clients|
        invariant sent == old(sent) + done && tried == before + |done|
        invariant o == After(done, Perform(ToDest(clients[i..], dest), works, tried))
      {
        var c := clients[i];
        DestNext(clients, i, dest, works, tried);
        if c.callsign.None? { return Broken, tried; }
        if c.callsign.value == dest {
          AfterAfter(done, [c.id], Perform(ToDest(clients[i + 1..], dest), works, tried + 1));
          if !works(tried) { return Failed(c.id), tried; }
          tried := tried + 1;
          sent := sent + [c.id];
          done := done + [c.id];
        }
      }
      assert ToDest(clients[|clients|..], dest) == [] by { NobodyLeft(clients, dest); }
      PerformNothing(works, tried);
      result := Done;
    }

    method SendToSpecificClients(clients: seq<Client>, cot: Cot, dests: seq<Option<string>>, works: Sockets,
        share: bool)
      returns (result: Result)
      modifies this
      ensures Carried(ToDests(clients, dests), works, cot, share, result)
    {
      hide ToDest, ToDests, Perform;
      ghost var whole := Perform(ToDests(clients, dests), works, 0);
      ghost var done: seq<string> := [];
      var tried := 0;
      AfterNothing(whole);
      assert dests[0..] == dests;
      for i := 0 to |dests|
        invariant sent == old(sent) + done && pipe == old(pipe) && messagesToCore == old(messagesToCore)
        invariant tried == |done|
        invariant whole == After(done, Perform(ToDests(clients, dests[i..]), works, tried))
      {
        ghost var o := Perform(ToDest(clients, dests[i]), works, tried);
        DestsNext(clients, dests, i, works, tried);
        AfterAfter(done, o.sent, Perform(ToDests(clients, dests[i + 1..]), works, tried + |o.sent|));
        result, tried := SendToDest(clients, dests[i], works, tried);
        done := done + o.sent;
        if result != Done { return; }
      }
      assert ToDests(clients, dests[|dests|..]) == [] by { NoDestsLeft(clients, dests); }
      PerformNothing(works, tried);
      Finish(cot, share);
      result := Done;
    }

    method GeochatSending(clients: seq<Client>, cot: Cot, room: string, works: Sockets, share: bool)
      returns (result: Result)
      modifies this
      ensures Carried(ToRoom(clients, room), works, cot, share, result)
    {
      hide ToRoom, Perform;
      ghost var plan := ToRoom(clients, room);
      ghost var done: seq<string> := [];
      var tried := 0;
      AfterNothing(Perform(plan, works, 0));
      assert clients[0..] == clients;
      for i := 0 to |clients|
        invariant sent == old(sent) + done && pipe == old(pipe) && messagesToCore == old(messagesToCore)
        invariant |done| == tried
        invariant Perform(plan, works, 0) == After(done, Perform(ToRoom(clients[i..], room), works, tried))
      {
        var c := clients[i];
        ghost var more := ToRoom(clients[i + 1..], room);
        RoomNext(clients, i, room);
        if c.id == room {
          PerformWrite(c, more, works, tried);
          AfterAfter(done, [c.id], Perform(more, works, tried + 1));
          if !works(tried) { return Failed(c.id); }
          tried := tried + 1;
          sent := sent + [c.id];
          done := done + [c.id];
        }
      }
      RoomEnds(clients, room);
      PerformNothing(works, tried);
      Finish(cot, share);
      result := Done;
    }

    /** A new connection: the others get its event, it gets their presences; a write that fails is passed over,
        and the event always goes to the core, which fails only without a pipe. */
    method Introduce(clients: seq<Client>, cot: Cot, greets: Sockets, replies: Sockets, share: bool)
      returns (result: Result, presences: seq<string>)
      modifies this
      ensures sent == old(sent) + Greeted(clients, cot.uid, greets)
      ensures presences == Greeters(clients, cot.uid, greets, replies)
      ensures result == (if share then Done else Broken)
      ensures pipe == old(pipe) + (if share then [cot] else []) && messagesToCore == old(messagesToCore) + 1
    {
      hide Greeted, Greeters;
      presences := [];
      GreetedNobody(clients, cot.uid, greets, replies);
      for i := 0 to |clients|
        invariant sent == old(sent) + Greeted(clients[..i], cot.uid, greets)
        invariant presences == Greeters(clients[..i], cot.uid, greets, replies)
        invariant pipe == old(pipe) && messagesToCore == old(messagesToCore)
      {
        var c := clients[i];
        GreetedNext(clients, cot.uid, greets, replies, i);
        if c.id != cot.uid && greets(i) {
          sent := sent + [c.id];
          if c.callsign.Some? && replies(i) {
            presences := presences + [c.id];
          }
        }
      }
      assert clients[..|clients|] == clients;
      messagesToCore := messagesToCore + 1;
      if share {
        pipe := pipe + [cot];
        result := Done;
      } else {
        result := Broken;
      }
    }

    /** `sendDataInQueue`: carry out the plan, or introduce a new connection. */
    method SendDataInQueue(clients: seq<Client>, cot: Cot, sender: Sender, works: Sockets, replies: Sockets,
        share: bool)
      returns (result: Result, presences: seq<string>)
      modifies this
      ensures cot.kind == "GeoChat" || !sender.Itself? ==>
                Carried(Plan(clients, cot, sender), works, cot, share, result) && presences == []
      ensures cot.kind != "GeoChat" && sender.Itself? ==>
                && sent == old(sent) + Greeted(clients, cot.uid, works)
                && presences == Greeters(clients, cot.uid, works, replies)
                && result == (if share then Done else Broken)
                && pipe == old(pipe) + (if share then [cot] else []) && messagesToCore == old(messagesToCore) + 1
    {
      hide ToAll, ToDests, ToRoom, Greeted, Greeters;
      presences := [];
      if cot.kind == "GeoChat" {
        if cot.chat.None? { return Broken, []; }
        if cot.chat.value == ALL_ROOMS {
          result := SendToAll(clients, cot, sender, works, share);
        } else {
          result := GeochatSending(clients, cot, cot.chat.value, works, share);
        }
        return;
      }
      if sender.Itself? {
        result, presences := Introduce(clients, cot, works, replies, share);
        return;
      }
      match HasValidMarti(cot) {
        case None => return Broken, [];
        case Some(valid) =>
          if !valid {
            result := SendToAll(clients, cot, sender, works, share);
          } else if cot.dests.None? {
            return Broken, [];
          } else if cot.dests.value == [None] || cot.dests.value == [None, None] {
            result := SendToAll(clients, cot, sender, works, share);
          } else {
            result := SendToSpecificClients(clients, cot, cot.dests.value, works, share);
          }
      }
    }
  }

  // ---- How many copies each client gets ----

  /** Nothing in the plan needs a presence that is not known. */
  ghost predicate Smooth(actions: seq<Action>) {
    forall i | 0 <= i < |actions| :: actions[i].Write?
  }

  /** Every write that a plan of this length needs succeeds. */
  ghost predicate AllWork(works: Sockets, n: nat, length: nat) {
    forall i: nat | n <= i < n + length :: works(i)
  }

  function Copies(actions: seq<Action>, id: string): nat {
    if actions == [] then 0
    else (if actions[0].Write? && actions[0].client.id == id then 1 else 0) + Copies(actions[1..], id)
  }

  function CountId(sent: seq<string>, id: string): nat {
    if sent == [] then 0 else (if sent[0] == id then 1 else 0) + CountId(sent[1..], id)
  }

  /** A plan is carried out to its end exactly when it is smooth and all its writes succeed. */
  lemma {:induction false} DoneIff(actions: seq<Action>, works: Sockets, n: nat)
    ensures Perform(actions, works, n).result == Done <==> Smooth(actions) && AllWork(works, n, |actions|)
    decreases |actions|
  {
    if actions != [] {
      DoneIff(actions[1..], works, n + 1);
      assert forall i | 1 <= i < |actions| :: actions[i] == actions[1..][i - 1];
      if actions[0].Write? && Smooth(actions[1..]) { assert Smooth(actions); }
    }
  }

  lemma {:induction false} SmoothPerforms(actions: seq<Action>, works: Sockets, n: nat, id: string)
    requires Perform(actions, works, n).result == Done
    ensures CountId(Perform(actions, works, n).sent, id) == Copies(actions, id)
    decreases |actions|
  {
    if actions != [] {
      SmoothPerforms(actions[1..], works, n + 1, id);
      var rest := Perform(actions[1..], works, n + 1).sent;
      assert ([actions[0].client.id] + rest)[1..] == rest;
    }
  }

  lemma {:induction false} CopiesConcat(a: seq<Action>, b: seq<Action>, id: string)
    ensures Copies(a + b, id) == Copies(a, id) + Copies(b, id)
  {
    if a == [] { assert a + b == b; }
    else {
      assert (a + b)[0] == a[0] && (a + b)[1..] == a[1..] + b;
      CopiesConcat(a[1..], b, id);
    }
  }

  ghost predicate UniqueIds(clients: seq<Client>) {
    forall i, j | 0 <= i < j < |clients| :: clients[i].id != clients[j].id
  }

  function Multiplicity(dests: seq<Option<string>>, cs: Option<string>): nat {
    if dests == [] then 0 else (if dests[0] == cs then 1 else 0) + Multiplicity(dests[1..], cs)
  }

  lemma OneAction(x: Action, id: string)
    ensures Copies([x], id) == if x.Write? && x.client.id == id then 1 else 0
  {
    assert [x][1..] == [];
  }

  ghost predicate IdAbsent(clients: seq<Client>, id: string) { forall i | 0 <= i < |clients| :: clients[i].id != id }

  /** A message to all reaches every client once, and the sender only when it is a TakPong. */
  lemma {:induction false} CopiesToAll(clients: seq<Client>, cot: Cot, sender: Sender, id: string)
    requires UniqueIds(clients)
    ensures IdAbsent(clients, id) ==> Copies(ToAll(clients, cot, sender), id) == 0
    ensures !IdAbsent(clients, id) ==>
              Copies(ToAll(clients, cot, sender), id)
              == if cot.kind != "TakPong" && sender == FromUser(id) then 0 else 1
    decreases |clients|
  {
    hide Copies;
    if clients == [] { NoCopies(id); }
    else {
      var c, more := clients[0], clients[1..];
      assert forall i | 1 <= i < |clients| :: clients[i] == more[i - 1];
      CopiesToAll(more, cot, sender, id);
      var head := if SkipsSender(cot, sender, c) then [] else [Write(c)];
      CopiesConcat(head, ToAll(more, cot, sender), id);
      OneAction(Write(c), id);
      NoCopies(id);
    }
  }

  lemma NoCopies(id: string)
    ensures Copies([], id) == 0
  {
  }

  /** A chat message to one uid reaches the client with that uid once, and nobody else. */
  lemma {:induction false} CopiesToRoom(clients: seq<Client>, room: string, id: string)
    requires UniqueIds(clients)
    ensures Copies(ToRoom(clients, room), id) == if id == room && !IdAbsent(clients, id) then 1 else 0
    decreases |clients|
  {
    hide Copies;
    if clients == [] { NoCopies(id); }
    else {
      var c, more := clients[0], clients[1..];
      assert forall i | 1 <= i < |clients| :: clients[i] == more[i - 1];
      CopiesToRoom(more, room, id);
      CopiesConcat(if c.id == room then [Write(c)] else [], ToRoom(more, room), id);
      OneAction(Write(c), id);
      NoCopies(id);
    }
  }

  lemma {:induction false} CopiesToDest(clients: seq<Client>, dest: Option<string>, k: nat)
    requires UniqueIds(clients) && k < |clients| && forall i | 0 <= i < |clients| :: clients[i].callsign.Some?
    ensures Copies(ToDest(clients, dest), clients[k].id) == if clients[k].callsign.value == dest then 1 else 0
    decreases |clients|
  {
    hide Copies;
    var c, more, id := clients[0], clients[1..], clients[k].id;
    assert forall i | 1 <= i < |clients| :: clients[i] == more[i - 1];
    CopiesConcat(if c.callsign.value == dest then [Write(c)] else [], ToDest(more, dest), id);
    OneAction(Write(c), id);
    NoCopies(id);
    if k == 0 { NoCopiesToDest(more, dest, id); } else { CopiesToDest(more, dest, k - 1); }
  }

  lemma {:induction false} NoCopiesToDest(clients: seq<Client>, dest: Option<string>, id: string)
    requires IdAbsent(clients, id)
    ensures Copies(ToDest(clients, dest), id) == 0
    decreases |clients|
  {
    hide Copies;
    if clients == [] { NoCopies(id); }
    else {
      var c, more := clients[0], clients[1..];
      NoCopiesToDest(more, dest, id);
      var head := match c.callsign case None => [Crash] case Some(cs) => if cs == dest then [Write(c)] else [];
      CopiesConcat(head, ToDest(more, dest), id);
      OneAction(Write(c), id);
      OneAction(Crash, id);
      NoCopies(id);
    }
  }

  /** A message with destinations reaches each client as often as its callsign is listed. */
  lemma {:induction false} CopiesToDests(clients: seq<Client>, dests: seq<Option<string>>, k: nat)
    requires UniqueIds(clients) && k < |clients| && forall i | 0 <= i < |clients| :: clients[i].callsign.Some?
    ensures Copies(ToDests(clients, dests), clients[k].id) == Multiplicity(dests, clients[k].callsign.value)
    decreases |dests|
  {
    hide Copies, ToDest;
    if dests == [] { NoCopies(clients[k].id); }
    else {
      CopiesToDests(clients, dests[1..], k);
      CopiesToDest(clients, dests[0], k);
      CopiesConcat(ToDest(clients, dests[0]), ToDests(clients, dests[1..]), clients[k].id);
    }
  }

  /** On a failure exactly the writes planned before the failing one were made. */
  lemma {:induction false} FailureIsAPrefix(actions: seq<Action>, works: Sockets, n: nat) returns (k: nat)
    requires Perform(actions, works, n).result != Done
    ensures k < |actions| && Perform(actions[..k], works, n) == Outcome(Perform(actions, works, n).sent, Done)
    ensures Perform(actions, works, n).result == if actions[k].Crash? then Broken else Failed(actions[k].client.id)
    ensures actions[k].Crash? || !works(n + k)
    decreases |actions|
  {
    if actions[0].Crash? || !works(n) {
      k := 0;
    } else {
      var j := FailureIsAPrefix(actions[1..], works, n + 1);
      k := j + 1;
      assert actions[..k][1..] == actions[1..][..j];
    }
  }

  // ---- The whole of `sendDataInQueue` ----

  /** How many copies the specification gives client `c`. */
  function Share(cot: Cot, sender: Sender, c: Client): nat {
    if cot.kind == "GeoChat" && cot.chat.Some? && cot.chat.value != ALL_ROOMS then
      (if c.id == cot.chat.value then 1 else 0)
    else if cot.kind == "GeoChat" || Undirected(cot) then
      (if cot.kind != "TakPong" && sender == FromUser(c.id) then 0 else 1)
    else if c.callsign.Some? && cot.dests.Some? then Multiplicity(cot.dests.value, c.callsign.value)
    else 0
  }

  /** The message names no destination. */
  predicate Undirected(cot: Cot) {
    cot.dests.None? || cot.dests.value == [None] || cot.dests.value == [Some("")] || cot.dests.value == [None, None]
  }

  /** The message can be routed: a GeoChat names its group; any other message has a destination list that is not empty
      and, if it names one, meets only clients whose presence is known; or it has none, and names no chat group. */
  ghost predicate Routable(clients: seq<Client>, cot: Cot) {
    if cot.kind == "GeoChat" then cot.chat.Some?
    else match cot.dests
      case Some(dests) => dests != [] && (Undirected(cot) || forall i | 0 <= i < |clients| :: clients[i].callsign.Some?)
      case None => cot.chat.None? || cot.chat.value == ALL_ROOMS
  }

  lemma SmoothConcat(a: seq<Action>, b: seq<Action>)
    ensures Smooth(a + b) <==> Smooth(a) && Smooth(b)
  {
    assert forall i | 0 <= i < |a| :: a[i] == (a + b)[i];
    assert forall i | 0 <= i < |b| :: b[i] == (a + b)[|a| + i];
  }

  lemma CrashIsNotSmooth()
    ensures !Smooth([Crash]) && Smooth([])
  {
    assert [Crash][0] == Crash;
  }

  lemma {:induction false} SmoothAllAndRoom(clients: seq<Client>, cot: Cot, sender: Sender, room: string)
    ensures Smooth(ToAll(clients, cot, sender)) && Smooth(ToRoom(clients, room))
    decreases |clients|
  {
    if clients != [] { SmoothAllAndRoom(clients[1..], cot, sender, room); }
  }

  lemma {:induction false} SmoothDestIff(clients: seq<Client>, dest: Option<string>)
    ensures Smooth(ToDest(clients, dest)) <==> forall i | 0 <= i < |clients| :: clients[i].callsign.Some?
    decreases |clients|
  {
    hide Smooth;
    CrashIsNotSmooth();
    if clients != [] {
      var c, more := clients[0], clients[1..];
      SmoothDestIff(more, dest);
      assert forall i | 1 <= i < |clients| :: clients[i] == more[i - 1];
      assert (forall i | 0 <= i < |clients| :: clients[i].callsign.Some?)
        <==> c.callsign.Some? && forall i | 0 <= i < |more| :: more[i].callsign.Some?;
      OneIsSmooth(c);
      var head := match c.callsign case None => [Crash] case Some(cs) => if cs == dest then [Write(c)] else [];
      SmoothConcat(head, ToDest(more, dest));
    }
  }

  lemma OneIsSmooth(c: Client)
    ensures Smooth([Write(c)])
  {
  }

  lemma {:induction false} SmoothDestsIff(clients: seq<Client>, dests: seq<Option<string>>)
    ensures Smooth(ToDests(clients, dests)) <==>
              dests == [] || forall i | 0 <= i < |clients| :: clients[i].callsign.Some?
    decreases |dests|
  {
    hide Smooth, ToDest;
    CrashIsNotSmooth();
    if dests != [] {
      SmoothDestsIff(clients, dests[1..]);
      SmoothDestIff(clients, dests[0]);
      SmoothConcat(ToDest(clients, dests[0]), ToDests(clients, dests[1..]));
    }
  }

  /** Routing stumbles over nothing but the sockets exactly when the message is routable. */
  lemma SmoothIffRoutable(clients: seq<Client>, cot: Cot, sender: Sender)
    ensures Smooth(Plan(clients, cot, sender)) <==> Routable(clients, cot)
  {
    hide Smooth, ToAll, ToDests, ToRoom;
    CrashIsNotSmooth();
    SmoothAllAndRoom(clients, cot, sender, if cot.chat.Some? then cot.chat.value else "");
    if cot.dests.Some? {
      var dests := cot.dests.value;
      SmoothDestsIff(clients, dests);
      assert |dests| == 1 ==> dests == [dests[0]];
    }
  }

  /** With working sockets a message is sent and shared exactly when it is routable. */
  lemma SentIffRoutable(clients: seq<Client>, cot: Cot, sender: Sender, works: Sockets)
    requires forall n :: works(n)
    ensures Perform(Plan(clients, cot, sender), works, 0).result == Done <==> Routable(clients, cot)
  {
    hide Smooth, Plan, Perform, Routable;
    SmoothIffRoutable(clients, cot, sender);
    DoneIff(Plan(clients, cot, sender), works, 0);
  }

  /** A message other than a GeoChat that has no marti element and names a chat group reaches nobody. */
  lemma ChatWithoutMartiFails(clients: seq<Client>, cot: Cot, sender: Sender, works: Sockets)
    requires cot.kind != "GeoChat" && cot.dests.None? && cot.chat.Some? && cot.chat.value != ALL_ROOMS
    ensures Perform(Plan(clients, cot, sender), works, 0) == Outcome([], Broken)
  {
    assert Plan(clients, cot, sender) == [Crash];
  }

  /** With working sockets every client gets exactly the number of copies that the message's kind, sender and
      destinations give it, whenever the message is routable. */
  lemma EveryClientGetsItsShare(clients: seq<Client>, cot: Cot, sender: Sender, works: Sockets, k: nat)
    requires UniqueIds(clients) && k < |clients| && Routable(clients, cot) && forall n :: works(n)
    ensures Perform(Plan(clients, cot, sender), works, 0).result == Done
    ensures CountId(Perform(Plan(clients, cot, sender), works, 0).sent, clients[k].id) == Share(cot, sender, clients[k])
  {
    hide Perform, CountId, Copies, ToAll, ToDest, ToRoom, Multiplicity;
    SentIffRoutable(clients, cot, sender, works);
    SmoothPerforms(Plan(clients, cot, sender), works, 0, clients[k].id);
    CopiesToAll(clients, cot, sender, clients[k].id);
    if cot.kind == "GeoChat" {
      CopiesToRoom(clients, cot.chat.value, clients[k].id);
    } else if !Undirected(cot) {
      DirectedCopies(clients, cot, sender, k);
    }
  }

  lemma DirectedCopies(clients: seq<Client>, cot: Cot, sender: Sender, k: nat)
    requires cot.kind != "GeoChat" && !Undirected(cot) && UniqueIds(clients) && k < |clients| && Routable(clients, cot)
    ensures clients[k].callsign.Some?
    ensures Copies(Plan(clients, cot, sender), clients[k].id)
         == Multiplicity(cot.dests.value, clients[k].callsign.value)
  {
    hide Copies, ToAll, ToDests, ToRoom, Multiplicity;
    var dests := cot.dests.value;
    assert |dests| == 1 ==> dests == [dests[0]];
    assert Plan(clients, cot, sender) == ToDests(clients, dests);
    CopiesToDests(clients, dests, k);
  }
}
