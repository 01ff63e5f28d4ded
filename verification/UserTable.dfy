/** The central `user_dict`: add, remove, update and get, as the core handles them. */
module UserTable {
  import opened Substrings

  datatype ConnType = TCP | SSL | UDP | PROTO

  datatype Connection = Connection(ctype: ConnType, userId: string)

  datatype Presence = Presence(uid: string, xml: string)

  /** One queue message; `None` stands for an argument of the wrong class. */
  datatype Op =
    | Add(presence: Option<Presence>, connection: Option<Connection>, sockets: int)
    | Remove(user: Option<string>, ctype: ConnType, sockets: int)
    | Update(update: Option<Presence>, sockets: int)
    | Get(wanted: Option<ConnType>, sockets: int)

  // ---- What an operation means ----

  datatype Record = Record(id: string, presence: Presence, connections: map<ConnType, Connection>)

  type Users = map<string, Record>

  function Apply(users: Users, op: Op): Users {
    match op
    case Add(Some(p), Some(c), _) => users[p.uid := Record(p.uid, p, map[c.ctype := c])]
    case Remove(Some(u), t, _) =>
      if u in users && t in users[u].connections then
        var rest := users[u].connections - {t};
        if rest == map[] then users - {u} else users[u := users[u].(connections := rest)]
      else users
    case Update(Some(p), _) => if p.uid in users then users[p.uid := users[p.uid].(presence := p)] else users
    case _ => users
  }

  /** Whether the handler raises: a missing user, a missing connection, or an object without a user id. */
  predicate Raises(users: Users, op: Op) {
    match op
    case Remove(u, t, _) => u.None? || u.value !in users || t !in users[u.value].connections
    case Update(Some(p), _) => p.uid !in users
    case _ => false
  }

  function Holding(users: Users, t: ConnType): Users {
    map u | u in users && t in users[u].connections :: users[u]
  }

  /** Every user has a connection, and its key is its id and the uid of its presence. */
  ghost predicate UsersOk(users: Users) {
    forall u | u in users :: users[u].connections != map[] && users[u].id == u && users[u].presence.uid == u
  }

  /** Every operation keeps the table in order, and a failing one leaves it unchanged. */
  lemma ApplyKeepsUsersOk(users: Users, op: Op)
    requires UsersOk(users)
    ensures UsersOk(Apply(users, op))
    ensures Raises(users, op) ==> Apply(users, op) == users
  {
    match op
    case Add(Some(p), Some(c), _) => assert c.ctype in map[c.ctype := c];
    case _ =>
  }

  function ApplyAll(users: Users, ops: seq<Op>): Users {
    if ops == [] then users else Apply(ApplyAll(users, ops[..|ops| - 1]), ops[|ops| - 1])
  }

  /** After any sequence of operations, failing ones included, the table is in order. */
  lemma {:induction false} TableStaysOk(ops: seq<Op>)
    ensures UsersOk(ApplyAll(map[], ops))
  {
    hide Apply, UsersOk;
    if ops == [] { NobodyOk(); }
    else {
      TableStaysOk(ops[..|ops| - 1]);
      ApplyKeepsUsersOk(ApplyAll(map[], ops[..|ops| - 1]), ops[|ops| - 1]);
    }
  }

  lemma NobodyOk()
    ensures UsersOk(map[])
  {
  }

  predicate AddsUser(op: Op, u: string) {
    op.Add? && op.presence.Some? && op.connection.Some? && op.presence.value.uid == u
  }
  predicate AddsTyped(op: Op, u: string, t: ConnType) { AddsUser(op, u) && op.connection.value.ctype == t }
  predicate RemovesTyped(op: Op, u: string, t: ConnType) { op.Remove? && op.user == Some(u) && op.ctype == t }

  /** Operation `i` adds `u` with a connection of type `t`; nothing later adds `u` again or removes that connection. */
  ghost predicate LastAdd(ops: seq<Op>, i: int, u: string, t: ConnType) {
    0 <= i < |ops| && AddsTyped(ops[i], u, t)
    && forall j | i < j < |ops| :: !AddsUser(ops[j], u) && !RemovesTyped(ops[j], u, t)
  }

  predicate Holds(users: Users, u: string, t: ConnType) { u in users && t in users[u].connections }

  /** The users a typed get returns are exactly those whose last add, by whatever service, was of that type
      and whose connection was not removed since: a later add by another service takes the user away. */
  lemma {:induction false} HoldsIsLastAdd(ops: seq<Op>, u: string, t: ConnType)
    ensures Holds(ApplyAll(map[], ops), u, t) <==> exists i :: LastAdd(ops, i, u, t)
  {
    if ops != [] {
      var front, op := ops[..|ops| - 1], ops[|ops| - 1];
      HoldsIsLastAdd(front, u, t);
      ApplyHolds(ApplyAll(map[], front), op, u, t);
      if AddsTyped(op, u, t) {
        assert LastAdd(ops, |ops| - 1, u, t);
      } else if AddsUser(op, u) || RemovesTyped(op, u, t) {
        assert forall i | LastAdd(ops, i, u, t) :: i == |ops| - 1;
      } else {
        forall i | LastAdd(front, i, u, t) ensures LastAdd(ops, i, u, t) {}
        forall i | LastAdd(ops, i, u, t) ensures LastAdd(front, i, u, t) {}
      }
    }
  }

  lemma ApplyHolds(users: Users, op: Op, u: string, t: ConnType)
    ensures Holds(Apply(users, op), u, t) <==>
              AddsTyped(op, u, t) || (Holds(users, u, t) && !AddsUser(op, u) && !RemovesTyped(op, u, t))
  {
    match op
    case Add(Some(p), Some(c), _) =>
    case Remove(Some(v), r, _) =>
      if u in users { assert t in users[u].connections && t != r ==> t in users[u].connections - {r}; }
    case _ =>
  }

  /** Operation `i` gives `u` presence `p`; nothing later gives it another. */
  ghost predicate LastPresence(ops: seq<Op>, i: int, u: string, p: Presence) {
    0 <= i < |ops| && Gives(ops[i], u, p) && forall j | i < j < |ops| :: !GivesAny(ops[j], u)
  }

  predicate Gives(op: Op, u: string, p: Presence) {
    p.uid == u && ((op.Add? && op.connection.Some? && op.presence == Some(p)) || (op.Update? && op.update == Some(p)))
  }

  predicate GivesAny(op: Op, u: string) {
    (op.Add? && op.connection.Some? && op.presence.Some? && op.presence.value.uid == u)
    || (op.Update? && op.update.Some? && op.update.value.uid == u)
  }

  /** What an operation leaves of a user, if it leaves the user. */
  lemma ApplyPresence(users: Users, op: Op, u: string, p: Presence)
    ensures u in Apply(users, op) ==>
              (Apply(users, op)[u].presence == p <==>
                 if GivesAny(op, u) then Gives(op, u, p) else u in users && users[u].presence == p)
    ensures u in Apply(users, op) && !GivesAny(op, u) ==> u in users
    ensures Gives(op, u, p) ==> GivesAny(op, u)
  {
  }

  /** A user's presence is that of the last add or update of its uid. */
  lemma {:induction false} PresenceIsLast(ops: seq<Op>, u: string, p: Presence)
    ensures var users := ApplyAll(map[], ops);
            u in users ==> (users[u].presence == p <==> exists i :: LastPresence(ops, i, u, p))
  {
    hide Apply, Gives, GivesAny;
    if ops != [] {
      var front, op := ops[..|ops| - 1], ops[|ops| - 1];
      PresenceIsLast(front, u, p);
      ApplyPresence(ApplyAll(map[], front), op, u, p);
      if GivesAny(op, u) {
        assert forall i | LastPresence(ops, i, u, p) :: i == |ops| - 1;
        if Gives(op, u, p) { assert LastPresence(ops, |ops| - 1, u, p); }
      } else {
        forall i | LastPresence(front, i, u, p) ensures LastPresence(ops, i, u, p) {}
        forall i | LastPresence(ops, i, u, p) ensures LastPresence(front, i, u, p) {}
      }
    }
  }

  /** A connection that a user holds is the one that the add gave. */
  lemma {:induction false} HeldIsAdded(ops: seq<Op>, i: int, u: string, t: ConnType)
    requires LastAdd(ops, i, u, t)
    ensures var users := ApplyAll(map[], ops);
            Holds(users, u, t) && ops[i].connection.Some? && users[u].connections[t] == ops[i].connection.value
    decreases |ops|
  {
    hide Apply, Holds;
    var front, op := ops[..|ops| - 1], ops[|ops| - 1];
    HoldsIsLastAdd(ops, u, t);
    if i < |ops| - 1 {
      assert LastAdd(front, i, u, t);
      HeldIsAdded(front, i, u, t);
      ApplyConnection(ApplyAll(map[], front), op, u, t);
    } else {
      AddGives(ApplyAll(map[], front), op, u, t);
    }
  }

  lemma ApplyConnection(users: Users, op: Op, u: string, t: ConnType)
    requires Holds(users, u, t) && !AddsUser(op, u) && !RemovesTyped(op, u, t)
    ensures Holds(Apply(users, op), u, t) && Apply(users, op)[u].connections[t] == users[u].connections[t]
  {
    ApplyHolds(users, op, u, t);
  }

  lemma AddGives(users: Users, op: Op, u: string, t: ConnType)
    requires AddsTyped(op, u, t)
    ensures Holds(Apply(users, op), u, t) && Apply(users, op)[u].connections[t] == op.connection.value
  {
  }

  /** The table after removing connection `t` of `u`, told entry by entry. */
  lemma RemoveResult(was: Users, users: Users, u: string, t: ConnType, sockets: int)
    requires u in was && forall w | w != u :: w in users <==> w in was
    requires forall w | w in was && w != u :: users[w] == was[w]
    requires t in was[u].connections && was[u].connections - {t} == map[] ==> u !in users
    requires !(t in was[u].connections && was[u].connections - {t} == map[]) ==>
               u in users && users[u] == was[u].(connections := was[u].connections - {t})
    ensures users == Apply(was, Remove(Some(u), t, sockets))
  {
    if t !in was[u].connections {
      assert was[u].connections - {t} == was[u].connections;
    }
  }

  // ---- The objects ----

  /** A connected device; its connection table is edited in place. */
  class User {
    var connections: map<ConnType, Connection>
    var presence: Presence
    const userId: string

    constructor (connection: Connection, presence: Presence)
      ensures connections == map[connection.ctype := connection]
      ensures this.presence == presence && userId == presence.uid
    {
      connections := map[connection.ctype := connection];
      this.presence := presence;
      userId := presence.uid;
    }

    ghost function View(): Record
      reads this
    {
      Record(userId, presence, connections)
    }

    function GetConnection(t: ConnType): (c: Option<Connection>)
      reads this
      ensures c.Some? <==> t in connections
      ensures c.Some? ==> connections[t] == c.value
    {
      if t in connections then Some(connections[t]) else None
    }

    /** Deleting a connection that is not there raises and changes nothing. */
    method DeleteConnection(t: ConnType) returns (ok: bool)
      modifies this`connections
      ensures ok <==> t in old(connections)
      ensures connections == old(connections) - {t}
    {
      ok := t in connections;
      if ok {
        connections := connections - {t};
      }
      assert connections == old(connections) - {t};
    }
  }

  /** The core process, single owner of the user table. */
  class Core {
    var userDict: map<string, User>
    var socketCount: int
    var restPipe: seq<Presence>

    constructor ()
      ensures Valid() && View() == map[]
    {
      userDict, socketCount, restPipe := map[], 0, [];
    }

    /** No two entries share a user object. */
    ghost predicate Valid()
      reads this
    {
      forall u, w | u in userDict && w in userDict && u != w :: userDict[u] != userDict[w]
    }

    ghost function View(): Users
      reads this, userDict.Values
    {
      map u | u in userDict :: userDict[u].View()
    }

    method AddUser(p: Presence, c: Connection)
      requires Valid()
      modifies this`userDict, this`restPipe
      ensures Valid() && View() == old(View())[p.uid := Record(p.uid, p, map[c.ctype := c])]
      ensures restPipe == old(restPipe) + [p]
    {
      var user := new User(c, p);
      userDict := userDict[user.userId := user];
      restPipe := restPipe + [p];
    }

    /** Delete one connection; the user goes with its last one. */
    method RemoveConnection(u: string, t: ConnType, ghost sockets: int) returns (ok: bool)
      requires Valid()
      modifies this`userDict, userDict.Values
      ensures Valid() && View() == Apply(old(View()), Remove(Some(u), t, sockets))
      ensures ok <==> Holds(old(View()), u, t)
      ensures forall w | w != u :: w in View() <==> w in old(View())
      ensures forall w | w in View() && w != u :: View()[w] == old(View())[w]
      ensures u in View() ==>
                u in old(View()) && View()[u] == old(View())[u].(connections := old(View())[u].connections - {t})
      ensures u in old(View()) && u !in View() ==> old(View())[u].connections - {t} == map[]
    {
      ok := u in userDict;
      if ok {
        var user := userDict[u];
        assert user in userDict.Values;
        ok := user.DeleteConnection(t);
        assert forall w | w in userDict && w != u :: userDict[w] != user;
        if ok && user.connections == map[] {
          userDict := userDict - {u};
        }
        RemoveResult(old(View()), View(), u, t, sockets);
      }
    }

    method UpdatePresence(p: Presence, ghost sockets: int) returns (ok: bool)
      requires Valid()
      modifies userDict.Values
      ensures userDict == old(userDict) && Valid() && View() == Apply(old(View()), Update(Some(p), sockets))
      ensures View() ==
                if p.uid in old(View()) then old(View())[p.uid := old(View())[p.uid].(presence := p)] else old(View())
      ensures ok <==> p.uid in old(View())
    {
      ok := p.uid in userDict;
      if ok {
        var user := userDict[p.uid];
        assert user in userDict.Values;
        user.presence := p;
        ghost var was := old(View());
        assert forall w | w in was && w != p.uid :: View()[w] == was[w];
      }
    }

    /** `users` holds exactly the users with a connection of the wanted type, or all. */
    ghost predicate Selected(wanted: Option<ConnType>, users: map<string, User>)
      reads this, userDict.Values
    {
      forall u :: u in users <==> u in userDict && (wanted.None? || wanted.value in userDict[u].connections)
                                  && (u in users ==> users[u] == userDict[u])
    }

    method Lookup(wanted: Option<ConnType>) returns (users: map<string, User>)
      ensures Selected(wanted, users)
    {
      if wanted.None? {
        users := userDict;
      } else {
        users := map u | u in userDict && userDict[u].GetConnection(wanted.value).Some? :: userDict[u];
      }
    }

    /** `receive_data_froCoT_service_thread` for one message. */
    method Receive(op: Op) returns (ok: bool, reply: Option<map<string, User>>)
      requires Valid()
      modifies this, userDict.Values
      ensures Valid() && View() == Apply(old(View()), op)
      ensures ok <==> !Raises(old(View()), op)
      ensures socketCount == op.sockets
      ensures restPipe == old(restPipe)
                + (if op.Add? && op.presence.Some? && op.connection.Some? then [op.presence.value] else [])
      ensures op.Get? <==> reply.Some?
      ensures op.Get? ==> userDict == old(userDict) && Selected(op.wanted, reply.value)
    {
      hide Selected;
      ok, reply := true, None;
      socketCount := op.sockets;
      assert View() == old(View());
      match op {
        case Add(Some(p), Some(c), _) => AddUser(p, c);
        case Add(_, _, _) =>
        case Remove(None, _, _) => ok := false;
        case Remove(Some(u), t, n) => ok := RemoveConnection(u, t, n);
        case Update(None, _) =>
        case Update(Some(p), n) => ok := UpdatePresence(p, n);
        case Get(wanted, _) =>
          var users := Lookup(wanted);
          reply := Some(users);
      }
    }
  }
}
