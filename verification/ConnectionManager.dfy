/**
 * The two halves of the subscription index: each connection's set of sessions, and the manager's
 * set of connections per session.
 */
module ConnectionManager {
  import opened Prelude

  datatype Entry = Entry(connected: bool, sessions: set<string>)

  /**
   * `pruned` records the pairs (session, connection) that `getSubscribers` dropped from the index
   * because the connection was down; the connection itself still holds the session.
   */
  datatype State = State(
    connections: map<string, Entry>,
    index: map<string, set<string>>,
    pruned: set<(string, string)>)

  datatype Step =
    | Add(id: string, entry: Entry)
    | Remove(id: string)
    | Subscribe(id: string, session: string)
    | Unsubscribe(id: string, session: string)
    | GetSubscribers(session: string)
    | Cleanup
    | Clear
    | Link(id: string, connected: bool)

  const INITIAL := State(map[], map[], {})

  predicate Indexed(index: map<string, set<string>>, session: string, id: string) {
    session in index && id in index[session]
  }

  predicate Holds(s: State, session: string, id: string) {
    id in s.connections && session in s.connections[id].sessions
  }

  predicate IsUp(s: State, id: string) {
    id in s.connections && s.connections[id].connected
  }

  /** New connections hold nothing and have an id that is not in use. */
  predicate Enabled(s: State, step: Step) {
    match step
    case Add(id, entry) => id !in s.connections && entry.sessions == {}
    case Link(id, _) => id in s.connections
    case _ => true
  }

  // ---- the steps ----

  function Unindexed(index: map<string, set<string>>, session: string, id: string): map<string, set<string>> {
    if session !in index then index
    else if index[session] - {id} == {} then index - {session}
    else index[session := index[session] - {id}]
  }

  /** Who stays in the entry of a session when the connections `gone` go, each out of its own sessions. */
  function Staying(s: State, gone: set<string>, session: string): set<string> {
    if session in s.index then set id | id in s.index[session] && !(id in gone && Holds(s, session, id)) else {}
  }

  function Purge(s: State, gone: set<string>): State {
    State(
      s.connections - gone,
      map session | session in s.index && (Staying(s, gone, session) != {} || s.index[session] == {}) :: Staying(s, gone, session),
      set p | p in s.pruned && p.1 !in gone)
  }

  function Down(s: State): set<string> {
    set id | id in s.connections && !s.connections[id].connected
  }

  function ApplySubscribe(s: State, id: string, session: string): State {
    if id !in s.connections then s
    else
      var c := s.connections[id];
      State(
        s.connections[id := c.(sessions := c.sessions + {session})],
        s.index[session := (if session in s.index then s.index[session] else {}) + {id}],
        s.pruned - {(session, id)})
  }

  function ApplyUnsubscribe(s: State, id: string, session: string): State {
    if id !in s.connections then s
    else
      var c := s.connections[id];
      State(
        s.connections[id := c.(sessions := c.sessions - {session})],
        Unindexed(s.index, session, id),
        s.pruned - {(session, id)})
  }

  function Alive(s: State, session: string): set<string> {
    if session in s.index then set id | id in s.index[session] && IsUp(s, id) else {}
  }

  function Pruned(s: State, session: string): set<(string, string)> {
    if session in s.index then set id | id in s.index[session] && !IsUp(s, id) :: (session, id) else {}
  }

  function ApplyGetSubscribers(s: State, session: string): State {
    if session !in s.index then s
    else
      var alive := Alive(s, session);
      s.(index := if alive == {} then s.index - {session} else s.index[session := alive],
         pruned := s.pruned + Pruned(s, session))
  }

  function Apply(s: State, step: Step): State {
    match step
    case Add(id, entry) => s.(connections := s.connections[id := entry])
    case Remove(id) => if id in s.connections then Purge(s, {id}) else s
    case Subscribe(id, session) => ApplySubscribe(s, id, session)
    case Unsubscribe(id, session) => ApplyUnsubscribe(s, id, session)
    case GetSubscribers(session) => ApplyGetSubscribers(s, session)
    case Cleanup => Purge(s, Down(s))
    case Clear => INITIAL
    case Link(id, connected) =>
      if id in s.connections then s.(connections := s.connections[id := s.connections[id].(connected := connected)]) else s
  }

  ghost predicate IsRun(states: seq<State>, steps: seq<Step>) {
    && |states| == |steps| + 1 && states[0] == INITIAL
    && forall i | 0 <= i < |steps| :: Enabled(states[i], steps[i]) && states[i + 1] == Apply(states[i], steps[i])
  }

  // ---- the index ----

  ghost predicate NoEmptySet(s: State) {
    forall session | session in s.index :: s.index[session] != {}
  }

  /** The index is exactly what the connections hold, less what was pruned. */
  ghost predicate Exact(s: State) {
    && (forall session, id :: Indexed(s.index, session, id) <==> Holds(s, session, id) && (session, id) !in s.pruned)
    && forall session, id | (session, id) in s.pruned :: Holds(s, session, id)
  }

  ghost predicate Inv(s: State) {
    NoEmptySet(s) && Exact(s)
  }

  lemma UnindexedExactly(index: map<string, set<string>>, session: string, id: string, other: string, otherId: string)
    ensures Indexed(Unindexed(index, session, id), other, otherId)
      <==> Indexed(index, other, otherId) && (other, otherId) != (session, id)
  {
    if session in index && otherId in index[session] && otherId != id {
      assert otherId in index[session] - {id};
    }
  }

  lemma InvSubscribe(s: State, id: string, session: string)
    requires Inv(s)
    ensures Inv(ApplySubscribe(s, id, session))
  {
    var t := ApplySubscribe(s, id, session);
    forall x, y ensures Indexed(t.index, x, y) <==> Holds(t, x, y) && (x, y) !in t.pruned {
      assert Indexed(s.index, x, y) <==> Holds(s, x, y) && (x, y) !in s.pruned;
    }
  }

  lemma InvUnsubscribe(s: State, id: string, session: string)
    requires Inv(s)
    ensures Inv(ApplyUnsubscribe(s, id, session))
  {
    var t := ApplyUnsubscribe(s, id, session);
    forall x, y ensures Indexed(t.index, x, y) <==> Holds(t, x, y) && (x, y) !in t.pruned {
      assert Indexed(s.index, x, y) <==> Holds(s, x, y) && (x, y) !in s.pruned;
      UnindexedExactly(s.index, session, id, x, y);
    }
  }

  lemma InvGetSubscribers(s: State, session: string)
    requires Inv(s)
    ensures Inv(ApplyGetSubscribers(s, session))
  {
    var t := ApplyGetSubscribers(s, session);
    forall x, y ensures Indexed(t.index, x, y) <==> Holds(t, x, y) && (x, y) !in t.pruned {
      assert Indexed(s.index, x, y) <==> Holds(s, x, y) && (x, y) !in s.pruned;
      assert session in s.index ==> (y in Alive(s, session) <==> y in s.index[session] && IsUp(s, y));
    }
  }

  lemma InvPurge(s: State, gone: set<string>)
    requires Inv(s)
    ensures Inv(Purge(s, gone))
  {
    var t := Purge(s, gone);
    forall x, y ensures Indexed(t.index, x, y) <==> Holds(t, x, y) && (x, y) !in t.pruned {
      assert Indexed(s.index, x, y) <==> Holds(s, x, y) && (x, y) !in s.pruned;
      PurgedExactly(s, gone, x, y);
    }
  }

  lemma PurgedExactly(s: State, gone: set<string>, session: string, id: string)
    ensures Indexed(Purge(s, gone).index, session, id)
      <==> Indexed(s.index, session, id) && !(id in gone && Holds(s, session, id))
  {
    assert id in Staying(s, gone, session) <==> Indexed(s.index, session, id) && !(id in gone && Holds(s, session, id));
  }

  lemma InvStep(s: State, step: Step)
    requires Inv(s) && Enabled(s, step)
    ensures Inv(Apply(s, step))
  {
    match step
    case Remove(id) => InvPurge(s, {id});
    case Subscribe(id, session) => InvSubscribe(s, id, session);
    case Unsubscribe(id, session) => InvUnsubscribe(s, id, session);
    case GetSubscribers(session) => InvGetSubscribers(s, session);
    case Cleanup => InvPurge(s, Down(s));
    case _ =>
  }

  lemma {:induction false} RunInv(states: seq<State>, steps: seq<Step>, i: nat)
    requires IsRun(states, steps) && i < |states|
    ensures Inv(states[i])
    decreases i
  {
    if i == 0 {
    } else {
      RunInv(states, steps, i - 1);
      InvStep(states[i - 1], steps[i - 1]);
    }
  }

  /** At step j a lookup found the indexed connection down, and no later step before i subscribed it again. */
  ghost predicate PrunedAt(states: seq<State>, steps: seq<Step>, j: nat, i: nat, session: string, id: string)
    requires j < i <= |steps| && |states| == |steps| + 1
  {
    && steps[j] == GetSubscribers(session)
    && Indexed(states[j].index, session, id) && !IsUp(states[j], id)
    && forall m | j < m < i :: steps[m] != Subscribe(id, session)
  }

  ghost predicate WasPruned(states: seq<State>, steps: seq<Step>, i: nat, session: string, id: string)
    requires i <= |steps| && |states| == |steps| + 1
  {
    exists j: nat | j < i :: PrunedAt(states, steps, j, i, session, id)
  }

  /** One step other than the subscription itself prunes the pair or leaves it as it was. */
  lemma PrunedStep(s: State, step: Step, session: string, id: string)
    requires Inv(s) && Enabled(s, step) && step != Subscribe(id, session) && Holds(Apply(s, step), session, id)
    ensures Holds(s, session, id)
    ensures (session, id) in Apply(s, step).pruned <==>
      || (session, id) in s.pruned
      || (step == GetSubscribers(session) && Indexed(s.index, session, id) && !IsUp(s, id))
  {
  }

  lemma WasPrunedStep(states: seq<State>, steps: seq<Step>, i: nat, session: string, id: string)
    requires i < |steps| && |states| == |steps| + 1 && steps[i] != Subscribe(id, session)
    ensures WasPruned(states, steps, i + 1, session, id) <==>
      || WasPruned(states, steps, i, session, id)
      || (steps[i] == GetSubscribers(session) && Indexed(states[i].index, session, id) && !IsUp(states[i], id))
  {
    if WasPruned(states, steps, i, session, id) {
      var j: nat :| j < i && PrunedAt(states, steps, j, i, session, id);
      assert PrunedAt(states, steps, j, i + 1, session, id);
    }
    if steps[i] == GetSubscribers(session) && Indexed(states[i].index, session, id) && !IsUp(states[i], id) {
      assert PrunedAt(states, steps, i, i + 1, session, id);
    }
    if WasPruned(states, steps, i + 1, session, id) {
      var j: nat :| j < i + 1 && PrunedAt(states, steps, j, i + 1, session, id);
      assert j < i ==> PrunedAt(states, steps, j, i, session, id);
    }
  }

  /** The ghost record of a held pair is its history. */
  lemma {:induction false} PrunedExactly(states: seq<State>, steps: seq<Step>, i: nat, session: string, id: string)
    requires IsRun(states, steps) && i < |states| && Holds(states[i], session, id)
    ensures (session, id) in states[i].pruned <==> WasPruned(states, steps, i, session, id)
    decreases i
  {
    if i == 0 {
    } else if steps[i - 1] == Subscribe(id, session) {
      assert forall j: nat | j < i :: !PrunedAt(states, steps, j, i, session, id);
    } else {
      RunInv(states, steps, i - 1);
      PrunedStep(states[i - 1], steps[i - 1], session, id);
      PrunedExactly(states, steps, i - 1, session, id);
      WasPrunedStep(states, steps, i - 1, session, id);
    }
  }

  /**
   * Main result: in every reachable state no session has an empty set, and a pair is indexed exactly
   * when the connection is live, holds the session, and no lookup of the session found it indexed
   * but down since it last subscribed.
   */
  lemma IndexExactly(states: seq<State>, steps: seq<Step>, i: nat, session: string, id: string)
    requires IsRun(states, steps) && i < |states|
    ensures session in states[i].index ==> states[i].index[session] != {}
    ensures Indexed(states[i].index, session, id) <==>
      Holds(states[i], session, id) && !WasPruned(states, steps, i, session, id)
  {
    RunInv(states, steps, i);
    if Holds(states[i], session, id) {
      PrunedExactly(states, steps, i, session, id);
    }
  }

  /** A connection that was never seen down while it was registered. */
  ghost predicate AlwaysUp(states: seq<State>, id: string, n: nat)
    requires n < |states|
  {
    forall i | 0 <= i <= n :: id in states[i].connections ==> IsUp(states[i], id)
  }

  /** Main result: a connection that never went down is indexed for exactly the sessions it holds. */
  lemma AlwaysUpExactly(states: seq<State>, steps: seq<Step>, i: nat, session: string, id: string)
    requires IsRun(states, steps) && i < |states| && AlwaysUp(states, id, i)
    ensures Indexed(states[i].index, session, id) <==> Holds(states[i], session, id)
  {
    IndexExactly(states, steps, i, session, id);
    forall j: nat | j < i ensures !PrunedAt(states, steps, j, i, session, id) {
      RunInv(states, steps, j);
    }
  }

  /** A connection that drops, is pruned and comes back holds a session without being found for it. */
  lemma PrunedStaysSilent()
    ensures
      var s := Apply(Apply(INITIAL, Add("c", Entry(true, {}))), Subscribe("c", "s"));
      var back := Apply(Apply(Apply(s, Link("c", false)), GetSubscribers("s")), Link("c", true));
      Holds(back, "s", "c") && IsUp(back, "c") && !Indexed(back.index, "s", "c")
      && Indexed(Apply(back, Subscribe("c", "s")).index, "s", "c")
  {
  }

  /** Nothing of a removed connection is left, and no other connection loses anything. */
  lemma PurgeExactly(s: State, gone: set<string>, session: string, id: string)
    requires Inv(s)
    ensures id in gone ==> id !in Purge(s, gone).connections && !Indexed(Purge(s, gone).index, session, id)
    ensures id !in gone ==>
      && (Indexed(Purge(s, gone).index, session, id) <==> Indexed(s.index, session, id))
      && (id in s.connections <==> id in Purge(s, gone).connections)
      && (id in s.connections ==> Purge(s, gone).connections[id] == s.connections[id])
  {
    PurgedExactly(s, gone, session, id);
  }

  /** Main result: `cleanup` leaves exactly the connections that are up, with their index entries. */
  lemma CleanupExactly(s: State, session: string, id: string)
    requires Inv(s)
    ensures var t := Apply(s, Cleanup);
      && (id in t.connections <==> IsUp(s, id))
      && (Indexed(t.index, session, id) <==> Indexed(s.index, session, id) && IsUp(s, id))
  {
    PurgeExactly(s, Down(s), session, id);
  }

  /** Subscribing and unsubscribing take effect for the one pair and touch no other. */
  lemma SubscriptionEffect(s: State, id: string, session: string, otherId: string, other: string)
    requires Inv(s)
    ensures Indexed(ApplySubscribe(s, id, session).index, session, id) <==> id in s.connections
    ensures !Indexed(ApplyUnsubscribe(s, id, session).index, session, id)
    ensures (other, otherId) != (session, id) ==>
      && (Indexed(ApplySubscribe(s, id, session).index, other, otherId) <==> Indexed(s.index, other, otherId))
      && (Indexed(ApplyUnsubscribe(s, id, session).index, other, otherId) <==> Indexed(s.index, other, otherId))
  {
    assert Indexed(s.index, session, id) ==> Holds(s, session, id);
    assert Indexed(s.index, other, otherId) ==> Holds(s, other, otherId);
    UnindexedExactly(s.index, session, id, session, id);
    UnindexedExactly(s.index, session, id, other, otherId);
  }

  // ---- the objects ----

  class ServerConnection {
    const id: string
    var connected: bool
    var subscribedSessions: set<string>

    constructor (id: string)
      ensures this.id == id && !connected && subscribedSessions == {}
    {
      this.id := id;
      connected := false;
      subscribedSessions := {};
    }
  }

  class Manager {
    var connections: map<string, ServerConnection>
    var sessionSubscriptions: map<string, set<string>>
    ghost var pruned: set<(string, string)>

    /** Connections are filed under their own ids. */
    ghost predicate Valid()
      reads this
    {
      forall id | id in connections :: connections[id].id == id
    }

    ghost function View(): State
      reads this, connections.Values
    {
      State(
        map id | id in connections :: Entry(connections[id].connected, connections[id].subscribedSessions),
        sessionSubscriptions,
        pruned)
    }

    constructor ()
      ensures Valid() && View() == INITIAL
    {
      connections, sessionSubscriptions, pruned := map[], map[], {};
    }

    method Add(connection: ServerConnection)
      requires Valid()
      modifies this`connections
      ensures Valid()
      ensures View() == Apply(old(View()), Step.Add(connection.id, Entry(connection.connected, connection.subscribedSessions)))
    {
      connections := connections[connection.id := connection];
    }

    method Subscribe(id: string, session: string) returns (ok: bool)
      requires Valid()
      modifies this, connections.Values
      ensures Valid() && connections == old(connections) && ok == (id in connections)
      ensures View() == Apply(old(View()), Step.Subscribe(id, session))
    {
      if id !in connections {
        return false;
      }
      var connection := connections[id];
      connection.subscribedSessions := connection.subscribedSessions + {session};
      var subscribers := {};
      if session in sessionSubscriptions {
        subscribers := sessionSubscriptions[session];
      }
      sessionSubscriptions := sessionSubscriptions[session := subscribers + {id}];
      pruned := pruned - {(session, id)};
      return true;
    }

    method UnsubscribeInternal(id: string, session: string)
      modifies this`sessionSubscriptions
      ensures sessionSubscriptions == Unindexed(old(sessionSubscriptions), session, id)
    {
      if session in sessionSubscriptions {
        var subscribers := sessionSubscriptions[session] - {id};
        sessionSubscriptions := sessionSubscriptions[session := subscribers];
        if subscribers == {} {
          sessionSubscriptions := sessionSubscriptions - {session};
        }
      }
    }

    method Unsubscribe(id: string, session: string) returns (ok: bool)
      requires Valid()
      modifies this, connections.Values
      ensures Valid() && connections == old(connections) && ok == (id in connections)
      ensures View() == Apply(old(View()), Step.Unsubscribe(id, session))
    {
      if id !in connections {
        return false;
      }
      var connection := connections[id];
      connection.subscribedSessions := connection.subscribedSessions - {session};
      UnsubscribeInternal(id, session);
      pruned := pruned - {(session, id)};
      return true;
    }

    method Remove(id: string)
      requires Valid() && NoEmptySet(View())
      modifies this
      ensures Valid() && View() == Apply(old(View()), Step.Remove(id))
      ensures connections == old(connections) - {id}
    {
      if id !in connections {
        return;
      }
      var todo := connections[id].subscribedSessions;
      ghost var s := View();
      ghost var left := {};
      while todo != {}
        invariant left + todo == s.connections[id].sessions && left !! todo
        invariant connections == old(connections) && pruned == old(pruned)
        invariant sessionSubscriptions == Leaving(s, id, left)
        decreases todo
      {
        var session :| session in todo;
        LeavingOne(s, id, left, session);
        UnsubscribeInternal(id, session);
        todo := todo - {session};
        left := left + {session};
      }
      LeavingAll(s, id);
      connections := connections - {id};
      pruned := set p | p in pruned && p.1 != id;
      assert View().connections == s.connections - {id};
      assert View() == Purge(s, {id});
    }

    /** Removes while it walks over the connections. */
    method Cleanup() returns (removed: nat)
      requires Valid() && Inv(View())
      modifies this
      ensures Valid() && View() == Apply(old(View()), Step.Cleanup)
      ensures removed == |Down(old(View()))|
    {
      removed := 0;
      ghost var s := View();
      var walk := connections.Keys;
      assert walk == s.connections.Keys;
      WalkStarts(s);
      while walk != {}
        invariant Valid() && walk <= s.connections.Keys
        invariant View() == Walked(s, walk) && removed == |Down(s) - walk|
        decreases walk
      {
        var id :| id in walk;
        WalkOn(s, walk, id);
        assert id in View().connections && View().connections[id] == s.connections[id];
        walk := walk - {id};
        if !connections[id].connected {
          Remove(id);
          removed := removed + 1;
        }
      }
      assert Down(s) - walk == Down(s);
    }

    /** Each connected subscriber once; the others leave the index. */
    method GetSubscribers(session: string) returns (subscribers: seq<ServerConnection>)
      requires Valid()
      modifies this`sessionSubscriptions, this`pruned
      ensures Valid() && View() == Apply(old(View()), Step.GetSubscribers(session))
      ensures forall i | 0 <= i < |subscribers| ::
        subscribers[i].id in Alive(old(View()), session) && connections[subscribers[i].id] == subscribers[i]
      ensures forall id | id in Alive(old(View()), session) :: connections[id] in subscribers
      ensures NoDup(subscribers)
    {
      subscribers := [];
      if session !in sessionSubscriptions {
        return;
      }
      ghost var s := View();
      var todo := sessionSubscriptions[session];
      var dead := {};
      ghost var alive := {};
      while todo != {}
        invariant alive + dead + todo == s.index[session] && alive !! todo && dead !! todo
        invariant forall id | id in alive :: IsUp(s, id) && connections[id] in subscribers
        invariant forall id | id in dead :: !IsUp(s, id)
        invariant forall i | 0 <= i < |subscribers| ::
          subscribers[i].id in alive && connections[subscribers[i].id] == subscribers[i]
        invariant NoDup(subscribers)
        decreases todo
      {
        var id :| id in todo;
        todo := todo - {id};
        if id in connections && connections[id].connected {
          subscribers := subscribers + [connections[id]];
          alive := alive + {id};
        } else {
          dead := dead + {id};
        }
      }
      var left := sessionSubscriptions[session] - dead;
      assert left == Alive(s, session);
      sessionSubscriptions := sessionSubscriptions[session := left];
      if left == {} {
        sessionSubscriptions := sessionSubscriptions - {session};
      }
      pruned := pruned + set id | id in dead :: (session, id);
      assert pruned == s.pruned + Pruned(s, session);
    }

    /** `accepts` are the connections whose `send` takes the message. */
    method Broadcast(session: string, accepts: set<string>) returns (sent: nat, offered: seq<string>)
      requires Valid()
      modifies this`sessionSubscriptions, this`pruned
      ensures Valid() && View() == Apply(old(View()), Step.GetSubscribers(session))
      ensures NoDup(offered) && Elements(offered) == Alive(old(View()), session)
      ensures sent == |Alive(old(View()), session) * accepts|
    {
      ghost var alive := Alive(View(), session);
      var subscribers := GetSubscribers(session);
      OnceEach(subscribers, connections, alive);
      sent, offered := Deliver(subscribers, accepts);
    }

    /** One `send` to each subscriber. */
    method Deliver(subscribers: seq<ServerConnection>, accepts: set<string>) returns (sent: nat, offered: seq<string>)
      requires NoDup(IdsOf(subscribers))
      ensures offered == IdsOf(subscribers) && sent == |Elements(offered) * accepts|
    {
      sent, offered := 0, [];
      for i := 0 to |subscribers|
        invariant offered == IdsOf(subscribers)[..i] && sent == |Elements(offered) * accepts|
      {
        OneMore(IdsOf(subscribers), i, accepts);
        offered := offered + [subscribers[i].id];
        if subscribers[i].id in accepts {
          sent := sent + 1;
        }
      }
    }
  }

  ghost function IdsOf(subscribers: seq<ServerConnection>): seq<string> {
    seq(|subscribers|, i requires 0 <= i < |subscribers| => subscribers[i].id)
  }

  lemma OnceEach(subscribers: seq<ServerConnection>, connections: map<string, ServerConnection>, alive: set<string>)
    requires forall i | 0 <= i < |subscribers| ::
      subscribers[i].id in alive && subscribers[i].id in connections && connections[subscribers[i].id] == subscribers[i]
    requires forall id | id in alive :: id in connections && connections[id].id == id && connections[id] in subscribers
    requires NoDup(subscribers)
    ensures NoDup(IdsOf(subscribers)) && Elements(IdsOf(subscribers)) == alive
  {
    var ids := IdsOf(subscribers);
    forall id | id in alive ensures id in ids {
      var i :| 0 <= i < |subscribers| && subscribers[i] == connections[id];
      assert ids[i] == id;
    }
  }

  /** The state when the walk of `cleanup` has the ids `walk` before it. */
  ghost function Walked(s: State, walk: set<string>): State {
    Purge(s, Down(s) - walk)
  }

  lemma WalkStarts(s: State)
    ensures Walked(s, s.connections.Keys) == s && Down(s) - s.connections.Keys == {}
  {
    assert Down(s) - s.connections.Keys == {};
    PurgeNone(s);
  }

  lemma WalkOn(s: State, walk: set<string>, id: string)
    requires Inv(s) && id in walk && id in s.connections
    ensures id in Walked(s, walk).connections && Walked(s, walk).connections[id] == s.connections[id]
    ensures NoEmptySet(Walked(s, walk))
    ensures Walked(s, walk - {id}) ==
      if s.connections[id].connected then Walked(s, walk) else Apply(Walked(s, walk), Step.Remove(id))
    ensures |Down(s) - (walk - {id})| == |Down(s) - walk| + if s.connections[id].connected then 0 else 1
  {
    InvPurge(s, Down(s) - walk);
    if s.connections[id].connected {
      assert Down(s) - (walk - {id}) == Down(s) - walk;
    } else {
      assert Down(s) - (walk - {id}) == Down(s) - walk + {id};
      PurgeOne(s, Down(s) - walk, id);
    }
  }

  lemma OneMore(ids: seq<string>, i: nat, accepts: set<string>)
    requires NoDup(ids) && i < |ids|
    ensures ids[..i + 1] == ids[..i] + [ids[i]]
    ensures |Elements(ids[..i + 1]) * accepts| == |Elements(ids[..i]) * accepts| + if ids[i] in accepts then 1 else 0
  {
    assert ids[i] !in ids[..i];
    assert Elements(ids[..i + 1]) == Elements(ids[..i]) + {ids[i]};
    var before, after := Elements(ids[..i]) * accepts, Elements(ids[..i + 1]) * accepts;
    assert after == if ids[i] in accepts then before + {ids[i]} else before;
  }

  /** The index while connection `id` has left the sessions `left`. */
  ghost function Leaving(s: State, id: string, left: set<string>): map<string, set<string>> {
    map session | session in s.index && (session !in left || s.index[session] - {id} != {}) ::
      if session in left then s.index[session] - {id} else s.index[session]
  }

  lemma LeavingOne(s: State, id: string, left: set<string>, session: string)
    requires session !in left
    ensures Unindexed(Leaving(s, id, left), session, id) == Leaving(s, id, left + {session})
  {
  }

  lemma LeavingAll(s: State, id: string)
    requires id in s.connections && NoEmptySet(s)
    ensures Leaving(s, id, s.connections[id].sessions) == Purge(s, {id}).index
  {
    forall session | session in s.index
      ensures Staying(s, {id}, session)
        == if session in s.connections[id].sessions then s.index[session] - {id} else s.index[session]
    {
    }
  }

  lemma PurgeNone(s: State)
    ensures Purge(s, {}) == s
  {
    assert forall session | session in s.index :: Staying(s, {}, session) == s.index[session];
  }

  lemma PurgeOne(s: State, gone: set<string>, id: string)
    requires NoEmptySet(s) && id in s.connections && id !in gone
    ensures Purge(Purge(s, gone), {id}) == Purge(s, gone + {id})
  {
    var t := Purge(s, gone);
    forall session | session in t.index
      ensures Staying(t, {id}, session) == Staying(s, gone + {id}, session)
    {
    }
    forall session | session in s.index && session !in t.index
      ensures Staying(s, gone + {id}, session) == {}
    {
      assert Staying(s, gone + {id}, session) <= Staying(s, gone, session);
    }
    assert Purge(t, {id}).index == Purge(s, gone + {id}).index;
  }
}
