/**
 * The client store of a session's events. A load asks for the log from the start, a poll for
 * what follows the last index; any number of both may be under way. Replies arrive later and in
 * any order, computed from the log as it stood at some moment between the request and the reply.
 * All projections together are one reducer.
 */
module Poller {
  import opened Prelude
  import EventTable

  const LOAD_LIMIT := 10000

  const POLL_LIMIT := 1000

  datatype Reducer<!P, !E> = Reducer(
    initial: P,
    apply: (P, E) -> P,
    agentCount: P -> nat,
    isDomain: E -> bool,
    isCreated: E -> bool)

  function Fold<P, E>(r: Reducer<P, E>, p: P, events: seq<E>): P {
    if |events| == 0 then p else r.apply(Fold(r, p, events[..|events| - 1]), events[|events| - 1])
  }

  lemma {:induction false} FoldAppend<P, E>(r: Reducer<P, E>, p: P, a: seq<E>, b: seq<E>)
    ensures Fold(r, p, a + b) == Fold(r, Fold(r, p, a), b)
    decreases |b|
  {
    if |b| == 0 {
      assert a + b == a;
    } else {
      var n := |b| - 1;
      assert (a + b)[..|a + b| - 1] == a + b[..n];
      FoldAppend(r, p, a, b[..n]);
    }
  }

  /** `events.filter(isDomainEvent)`. */
  function Filter<P, E>(r: Reducer<P, E>, events: seq<E>): seq<E> {
    if |events| == 0 then []
    else (if r.isDomain(events[0]) then [events[0]] else []) + Filter(r, events[1..])
  }

  lemma {:induction false} FilterAll<P, E>(r: Reducer<P, E>, events: seq<E>)
    requires forall i | 0 <= i < |events| :: r.isDomain(events[i])
    ensures Filter(r, events) == events
    decreases |events|
  {
    if |events| == 0 {
    } else {
      FilterAll(r, events[1..]);
    }
  }

  /** `derived` names the projections that the cached views were computed from. */
  datatype Client<P, E> = Client(
    sessionId: Option<string>,
    events: seq<E>,
    lastIndex: int,
    projections: P,
    derived: Option<P>,
    isLoading: bool,
    failed: bool,
    loadCounter: nat)

  /** A poll under way: what it asked for, how long the log was then, and whether a load or a reset came since. */
  datatype Poll = Poll(sid: string, since: int, asked: nat, touched: bool)

  datatype Load = Load(sid: string, asked: nat)

  datatype State<P, E> = State(
    logs: map<string, seq<E>>,
    client: Client<P, E>,
    polls: map<nat, Poll>,
    pollCount: nat,
    loads: map<nat, Load>)

  datatype Step<E> =
    | Append(sid: string, more: seq<E>)
    | LoadCall(sid: string)
    | LoadReply(id: nat, length: nat)
    | LoadFail(id: nat)
    | PollCall
    | PollReply(id: nat, length: nat)
    | PollFail(id: nat)
    | Reset

  function LogOf<P, E>(s: State<P, E>, sid: string): seq<E> {
    if sid in s.logs then s.logs[sid] else []
  }

  function Emptied<P, E>(r: Reducer<P, E>, sid: Option<string>, loading: bool, counter: nat): Client<P, E> {
    Client(sid, [], -1, r.initial, None, loading, false, counter)
  }

  // ---- what the replies do to the store ----

  function Loaded<P, E>(r: Reducer<P, E>, c: Client<P, E>, reply: EventTable.Range<E>): Client<P, E> {
    var valid := Filter(r, reply.events);
    if |valid| == 0 then c.(isLoading := false, lastIndex := reply.toIndex)
    else if !r.isCreated(valid[0]) then c.(isLoading := false, failed := true)
    else
      var p := Fold(r, r.initial, valid);
      c.(events := valid, lastIndex := reply.toIndex, projections := p, derived := Some(p), isLoading := false)
  }

  /** `since` is the index captured when the poll began. */
  function Polled<P, E>(r: Reducer<P, E>, c: Client<P, E>, since: int, reply: EventTable.Range<E>): Client<P, E> {
    var added := Filter(r, reply.events);
    if |added| == 0 then
      if reply.toIndex != since then c.(lastIndex := reply.toIndex) else c
    else if r.agentCount(c.projections) == 0 && |c.events| == 0 then
      if !r.isCreated(added[0]) then c.(lastIndex := reply.toIndex)
      else
        var p := Fold(r, r.initial, added);
        c.(events := added, lastIndex := reply.toIndex, projections := p, derived := Some(p), failed := false)
    else
      var p := Fold(r, c.projections, added);
      c.(events := c.events + added, lastIndex := reply.toIndex, projections := p, derived := Some(p), failed := false)
  }

  function LoadPage<P, E>(s: State<P, E>, id: nat, length: nat): EventTable.Range<E>
    requires id in s.loads && length <= |LogOf(s, s.loads[id].sid)|
  {
    EventTable.Page(LogOf(s, s.loads[id].sid)[..length], -1, Some(LOAD_LIMIT))
  }

  function PollPage<P, E>(s: State<P, E>, id: nat, length: nat): EventTable.Range<E>
    requires id in s.polls && length <= |LogOf(s, s.polls[id].sid)|
  {
    EventTable.Page(LogOf(s, s.polls[id].sid)[..length], s.polls[id].since, Some(POLL_LIMIT))
  }

  function Touch(polls: map<nat, Poll>): map<nat, Poll> {
    map id | id in polls :: polls[id].(touched := true)
  }

  /** The log only grows, starts with the creation event and holds domain events. */
  ghost predicate Enabled<P, E>(r: Reducer<P, E>, s: State<P, E>, step: Step<E>) {
    match step
    case Append(sid, more) =>
      && (forall i | 0 <= i < |more| :: r.isDomain(more[i]))
      && (|LogOf(s, sid)| == 0 && |more| > 0 ==> r.isCreated(more[0]))
    case LoadReply(id, length) => id in s.loads && s.loads[id].asked <= length <= |LogOf(s, s.loads[id].sid)|
    case LoadFail(id) => id in s.loads
    case PollCall => s.client.sessionId.Some?
    case PollReply(id, length) => id in s.polls && s.polls[id].asked <= length <= |LogOf(s, s.polls[id].sid)|
    case PollFail(id) => id in s.polls
    case _ => true
  }

  ghost function Apply<P, E>(r: Reducer<P, E>, s: State<P, E>, step: Step<E>): State<P, E>
    requires Enabled(r, s, step)
  {
    var c := s.client;
    match step
    case Append(sid, more) => s.(logs := s.logs[sid := LogOf(s, sid) + more])
    case LoadCall(sid) =>
      var id := c.loadCounter + 1;
      s.(client := Emptied(r, Some(sid), true, id), loads := s.loads[id := Load(sid, |LogOf(s, sid)|)], polls := Touch(s.polls))
    case LoadReply(id, length) =>
      var rest := s.(loads := s.loads - {id});
      if c.loadCounter != id then rest
      else rest.(client := Loaded(r, c, LoadPage(s, id, length)), polls := Touch(s.polls))
    case LoadFail(id) =>
      // The failure is stored even when a newer load has begun.
      s.(loads := s.loads - {id}, client := c.(isLoading := false, failed := true))
    case PollCall =>
      var poll := Poll(c.sessionId.value, c.lastIndex, |LogOf(s, c.sessionId.value)|, false);
      s.(polls := s.polls[s.pollCount := poll], pollCount := s.pollCount + 1)
    case PollReply(id, length) =>
      var rest := s.(polls := s.polls - {id});
      if c.sessionId != Some(s.polls[id].sid) then rest
      else rest.(client := Polled(r, c, s.polls[id].since, PollPage(s, id, length)))
    case PollFail(id) => s.(polls := s.polls - {id})
    case Reset => s.(client := Emptied(r, None, false, c.loadCounter + 1), polls := Touch(s.polls))
  }

  // ---- coherence ----

  /** The store is exactly the log up to its last index, and every projection is the fold over it. */
  ghost predicate Coherent<P, E>(r: Reducer<P, E>, c: Client<P, E>, log: seq<E>) {
    && -1 <= c.lastIndex < |log|
    && c.events == log[..c.lastIndex + 1]
    && c.projections == Fold(r, r.initial, c.events)
    && c.derived == if |c.events| == 0 then None else Some(c.projections)
  }

  ghost predicate GoodLog<P, E>(r: Reducer<P, E>, log: seq<E>) {
    && (forall i | 0 <= i < |log| :: r.isDomain(log[i]))
    && (|log| > 0 ==> r.isCreated(log[0]))
  }

  /** The store of a state, coherent with the log of its session; a store without a session is empty. */
  ghost predicate StoreCoherent<P, E>(r: Reducer<P, E>, s: State<P, E>) {
    s.client.sessionId.Some? ==> Coherent(r, s.client, LogOf(s, s.client.sessionId.value))
  }

  ghost predicate LogsInv<P, E>(r: Reducer<P, E>, s: State<P, E>) {
    forall sid: string | sid in s.logs :: GoodLog(r, s.logs[sid])
  }

  ghost predicate LoadsInv<P, E>(s: State<P, E>) {
    && (forall id | id in s.loads :: id <= s.client.loadCounter && s.loads[id].asked <= |LogOf(s, s.loads[id].sid)|)
    && (s.client.loadCounter in s.loads ==> s.client.sessionId == Some(s.loads[s.client.loadCounter].sid))
  }

  ghost predicate PollsInv<P, E>(s: State<P, E>) {
    forall id | id in s.polls :: -1 <= s.polls[id].since < s.polls[id].asked <= |LogOf(s, s.polls[id].sid)|
  }

  ghost predicate Inv<P, E>(r: Reducer<P, E>, s: State<P, E>) {
    LogsInv(r, s) && LoadsInv(s) && PollsInv(s) && StoreCoherent(r, s)
  }

  /**
   * A poll reply is harmless when it is for another session, brings nothing, or meets the index
   * it asked from; a load reply when it is stale, brings something, or meets an empty store.
   */
  ghost predicate Harmless<P, E>(r: Reducer<P, E>, s: State<P, E>, step: Step<E>) {
    match step
    case PollReply(id, length) =>
      && id in s.polls && length <= |LogOf(s, s.polls[id].sid)|
      && (s.client.sessionId == Some(s.polls[id].sid) && s.client.lastIndex != s.polls[id].since ==> |PollPage(s, id, length).events| == 0)
    case LoadReply(id, length) => s.client.loadCounter != id || length > 0 || s.client.lastIndex == -1
    case _ => true
  }

  lemma PageAfter<T>(log: seq<T>, length: nat, since: int, limit: int)
    requires -1 <= since < length <= |log| && limit >= 1
    ensures var page := EventTable.Page(log[..length], since, Some(limit));
      && since <= page.toIndex < |log|
      && log[..page.toIndex + 1] == log[..since + 1] + page.events
      && (|page.events| == 0 <==> page.toIndex == since)
      && (forall i | 0 <= i < |page.events| :: page.events[i] == log[since + 1 + i])
  {
    var page := EventTable.Page(log[..length], since, Some(limit));
    EventTable.PagesMeet(log[..length], since, Some(limit));
    assert log[..length][..page.toIndex + 1] == log[..page.toIndex + 1];
    assert log[..length][..since + 1] == log[..since + 1];
  }

  /** The reply to the newest load leaves the store coherent exactly when it brings events or finds none. */
  lemma LoadReplyExactly<P, E>(r: Reducer<P, E>, c: Client<P, E>, log: seq<E>, length: nat)
    requires GoodLog(r, log) && Coherent(r, c, log) && length <= |log|
    ensures Coherent(r, Loaded(r, c, EventTable.Page(log[..length], -1, Some(LOAD_LIMIT))), log) <==> length > 0 || c.lastIndex == -1
  {
    var page := EventTable.Page(log[..length], -1, Some(LOAD_LIMIT));
    if length > 0 {
      PageAfter(log, length, -1, LOAD_LIMIT);
    }
    FilterAll(r, page.events);
  }

  /** The store with these events, up to this index. */
  function Grown<P, E>(c: Client<P, E>, events: seq<E>, lastIndex: int, p: P): Client<P, E> {
    c.(events := events, lastIndex := lastIndex, projections := p, derived := Some(p), failed := false)
  }

  /** The first events of a store. */
  lemma PolledFirst<P, E>(r: Reducer<P, E>, c: Client<P, E>, since: int, page: EventTable.Range<E>)
    requires |c.events| == 0 && c.projections == r.initial
    requires Filter(r, page.events) == page.events && |page.events| > 0 && r.isCreated(page.events[0])
    ensures Polled(r, c, since, page) == Grown(c, page.events, page.toIndex, Fold(r, r.initial, page.events))
  {
    assert c.events + page.events == page.events;
  }

  /** Further events of a store. */
  lemma PolledFurther<P, E>(r: Reducer<P, E>, c: Client<P, E>, since: int, page: EventTable.Range<E>)
    requires |c.events| > 0
    requires Filter(r, page.events) == page.events && |page.events| > 0
    ensures Polled(r, c, since, page)
      == Grown(c, c.events + page.events, page.toIndex, Fold(r, c.projections, page.events))
  {
  }

  lemma GrownCoherent<P, E>(r: Reducer<P, E>, c: Client<P, E>, log: seq<E>, events: seq<E>, lastIndex: int)
    requires -1 <= lastIndex < |log| && events == log[..lastIndex + 1] && |events| > 0
    ensures Coherent(r, Grown(c, events, lastIndex, Fold(r, r.initial, events)), log)
  {
  }

  lemma PolledInPlace<P, E>(r: Reducer<P, E>, c: Client<P, E>, log: seq<E>, page: EventTable.Range<E>)
    requires GoodLog(r, log) && Coherent(r, c, log)
    requires Filter(r, page.events) == page.events && |page.events| > 0
    requires c.lastIndex <= page.toIndex < |log| && log[..page.toIndex + 1] == c.events + page.events
    ensures Coherent(r, Polled(r, c, c.lastIndex, page), log)
  {
    GrownCoherent(r, c, log, c.events + page.events, page.toIndex);
    FoldAppend(r, r.initial, c.events, page.events);
    if |c.events| == 0 {
      assert c.events + page.events == page.events;
      assert log[..page.toIndex + 1][0] == log[0];
      PolledFirst(r, c, c.lastIndex, page);
    } else {
      PolledFurther(r, c, c.lastIndex, page);
    }
  }

  lemma PolledOutOfPlace<P, E>(r: Reducer<P, E>, c: Client<P, E>, log: seq<E>, since: int, page: EventTable.Range<E>)
    requires Coherent(r, c, log) && -1 <= since && c.lastIndex != since
    requires Filter(r, page.events) == page.events && |page.events| > 0
    requires since + |page.events| == page.toIndex < |log|
    ensures !Coherent(r, Polled(r, c, since, page), log)
  {
    var c' := Polled(r, c, since, page);
    assert c'.lastIndex == page.toIndex;
    assert |c'.events| == |c.events| + |page.events| || |c'.events| == |c.events|;
  }

  /**
   * A reply to a poll of the current session leaves the store coherent exactly when the last
   * index has not moved since the poll began, or the reply brings no event.
   */
  lemma PollReplyExactly<P, E>(r: Reducer<P, E>, c: Client<P, E>, log: seq<E>, since: int, length: nat)
    requires GoodLog(r, log) && Coherent(r, c, log) && -1 <= since < length <= |log|
    ensures var page := EventTable.Page(log[..length], since, Some(POLL_LIMIT));
      Coherent(r, Polled(r, c, since, page), log) <==> c.lastIndex == since || |page.events| == 0
  {
    var page := EventTable.Page(log[..length], since, Some(POLL_LIMIT));
    PageAfter(log, length, since, POLL_LIMIT);
    FilterAll(r, page.events);
    if |page.events| > 0 {
      if c.lastIndex == since {
        PolledInPlace(r, c, log, page);
      } else {
        assert |log[..page.toIndex + 1]| == |log[..since + 1]| + |page.events|;
        PolledOutOfPlace(r, c, log, since, page);
      }
    }
  }

  lemma PolledKeepsSession<P, E>(r: Reducer<P, E>, c: Client<P, E>, since: int, page: EventTable.Range<E>)
    ensures Polled(r, c, since, page).sessionId == c.sessionId && Polled(r, c, since, page).loadCounter == c.loadCounter
  {
  }

  lemma LoadedKeepsSession<P, E>(r: Reducer<P, E>, c: Client<P, E>, page: EventTable.Range<E>)
    ensures Loaded(r, c, page).sessionId == c.sessionId && Loaded(r, c, page).loadCounter == c.loadCounter
  {
  }

  lemma LogsInvStep<P, E>(r: Reducer<P, E>, s: State<P, E>, step: Step<E>)
    requires LogsInv(r, s) && Enabled(r, s, step)
    ensures LogsInv(r, Apply(r, s, step))
    ensures forall sid: string :: LogOf(s, sid) <= LogOf(Apply(r, s, step), sid)
  {
  }

  lemma LoadsInvStep<P, E>(r: Reducer<P, E>, s: State<P, E>, step: Step<E>)
    requires LogsInv(r, s) && LoadsInv(s) && Enabled(r, s, step)
    ensures LoadsInv(Apply(r, s, step))
  {
    LogsInvStep(r, s, step);
    if step.PollReply? {
      PolledKeepsSession(r, s.client, s.polls[step.id].since, PollPage(s, step.id, step.length));
    } else if step.LoadReply? {
      LoadedKeepsSession(r, s.client, LoadPage(s, step.id, step.length));
    }
  }

  lemma PollsInvStep<P, E>(r: Reducer<P, E>, s: State<P, E>, step: Step<E>)
    requires LogsInv(r, s) && PollsInv(s) && StoreCoherent(r, s) && Enabled(r, s, step)
    ensures PollsInv(Apply(r, s, step))
  {
    LogsInvStep(r, s, step);
  }

  /** A reply leaves the store coherent exactly when it is harmless. */
  lemma PollReplyStep<P, E>(r: Reducer<P, E>, s: State<P, E>, id: nat, length: nat)
    requires Inv(r, s) && Enabled(r, s, PollReply(id, length))
    ensures StoreCoherent(r, Apply(r, s, PollReply(id, length))) <==> Harmless(r, s, PollReply(id, length))
  {
    var p := s.polls[id];
    if s.client.sessionId == Some(p.sid) {
      PolledKeepsSession(r, s.client, p.since, PollPage(s, id, length));
      PollReplyExactly(r, s.client, LogOf(s, p.sid), p.since, length);
    }
  }

  lemma LoadReplyStep<P, E>(r: Reducer<P, E>, s: State<P, E>, id: nat, length: nat)
    requires Inv(r, s) && Enabled(r, s, LoadReply(id, length))
    ensures StoreCoherent(r, Apply(r, s, LoadReply(id, length))) <==> Harmless(r, s, LoadReply(id, length))
  {
    if s.client.loadCounter == id {
      LoadedKeepsSession(r, s.client, LoadPage(s, id, length));
      LoadReplyExactly(r, s.client, LogOf(s, s.loads[id].sid), length);
    }
  }

  lemma AppendStep<P, E>(r: Reducer<P, E>, s: State<P, E>, sid: string, more: seq<E>)
    requires Inv(r, s) && Enabled(r, s, Append(sid, more))
    ensures StoreCoherent(r, Apply(r, s, Append(sid, more)))
  {
    var log := LogOf(s, sid);
    assert forall n | 0 <= n <= |log| :: (log + more)[..n] == log[..n];
  }

  lemma CoherentStep<P, E>(r: Reducer<P, E>, s: State<P, E>, step: Step<E>)
    requires Inv(r, s) && Enabled(r, s, step)
    ensures StoreCoherent(r, Apply(r, s, step)) <==> Harmless(r, s, step)
  {
    match step
    case Append(sid, more) => AppendStep(r, s, sid, more);
    case LoadReply(id, length) => LoadReplyStep(r, s, id, length);
    case PollReply(id, length) => PollReplyStep(r, s, id, length);
    case _ =>
  }

  lemma InvStep<P, E>(r: Reducer<P, E>, s: State<P, E>, step: Step<E>)
    requires Inv(r, s) && Enabled(r, s, step) && Harmless(r, s, step)
    ensures Inv(r, Apply(r, s, step))
  {
    LogsInvStep(r, s, step);
    LoadsInvStep(r, s, step);
    PollsInvStep(r, s, step);
    CoherentStep(r, s, step);
  }

  // ---- runs ----

  ghost predicate Follows<P, E>(r: Reducer<P, E>, states: seq<State<P, E>>, steps: seq<Step<E>>, i: int)
    requires |states| == |steps| + 1 && 0 <= i < |steps|
  {
    Enabled(r, states[i], steps[i]) && states[i + 1] == Apply(r, states[i], steps[i])
  }

  function Initial<P, E>(r: Reducer<P, E>): State<P, E> {
    State(map[], Emptied(r, None, false, 0), map[], 0, map[])
  }

  ghost predicate IsRun<P, E>(r: Reducer<P, E>, states: seq<State<P, E>>, steps: seq<Step<E>>) {
    && |states| == |steps| + 1
    && states[0] == Initial(r)
    && forall i | 0 <= i < |steps| :: Follows(r, states, steps, i)
  }

  /**
   * Main result: with any number of overlapping loads, polls and resets, the store is coherent
   * throughout a run exactly when every reply in it is harmless.
   */
  lemma {:induction false} CoherentExactly<P, E>(r: Reducer<P, E>, states: seq<State<P, E>>, steps: seq<Step<E>>, n: nat)
    requires IsRun(r, states, steps) && n < |states|
    ensures (forall i | 0 <= i <= n :: StoreCoherent(r, states[i])) <==> (forall i | 0 <= i < n :: Harmless(r, states[i], steps[i]))
    ensures (forall i | 0 <= i < n :: Harmless(r, states[i], steps[i])) ==> Inv(r, states[n])
    decreases n
  {
    if n == 0 {
    } else {
      CoherentExactly(r, states, steps, n - 1);
      if forall i | 0 <= i < n - 1 :: Harmless(r, states[i], steps[i]) {
        assert Follows(r, states, steps, n - 1);
        CoherentStep(r, states[n - 1], steps[n - 1]);
        assert StoreCoherent(r, states[n]) <==> Harmless(r, states[n - 1], steps[n - 1]);
        if Harmless(r, states[n - 1], steps[n - 1]) {
          InvStep(r, states[n - 1], steps[n - 1]);
        }
      }
    }
  }

  /**
   * Main result: when every reply is harmless, a loaded store is the log up to its last index,
   * nothing skipped and nothing twice, and every projection is the fold over it.
   */
  lemma IncrementalEqualsBatch<P, E>(r: Reducer<P, E>, states: seq<State<P, E>>, steps: seq<Step<E>>, i: nat)
    requires IsRun(r, states, steps) && i < |states|
    requires forall n | 0 <= n < i :: Harmless(r, states[n], steps[n])
    ensures var c := states[i].client;
      c.sessionId.Some? ==>
        var log := LogOf(states[i], c.sessionId.value);
        && -1 <= c.lastIndex < |log| && c.events == log[..c.lastIndex + 1]
        && c.projections == Fold(r, r.initial, c.events)
        && c.derived == if |c.events| == 0 then None else Some(c.projections)
  {
    CoherentExactly(r, states, steps, i);
  }

  // ---- a client that polls one at a time ----

  /**
   * No poll while another or the newest load is out, and no reply to a poll of the current session
   * across a load or a reset.
   */
  ghost predicate Orderly<P, E>(s: State<P, E>, step: Step<E>) {
    match step
    case PollCall => s.polls == map[] && s.client.loadCounter !in s.loads
    case PollReply(id, _) => id in s.polls && (s.polls[id].touched ==> s.client.sessionId != Some(s.polls[id].sid))
    case _ => true
  }

  ghost predicate OrderInv<P, E>(s: State<P, E>) {
    && (forall id | id in s.polls && !s.polls[id].touched ::
          && s.client.sessionId == Some(s.polls[id].sid) && s.client.lastIndex == s.polls[id].since
          && s.client.loadCounter !in s.loads)
    && (forall i, j | i in s.polls && j in s.polls :: i == j)
    && (s.client.loadCounter in s.loads ==> s.client.lastIndex == -1)
    && (forall id | id in s.loads :: id <= s.client.loadCounter)
  }

  lemma OrderStep<P, E>(r: Reducer<P, E>, s: State<P, E>, step: Step<E>)
    requires OrderInv(s) && Enabled(r, s, step) && Orderly(s, step)
    ensures OrderInv(Apply(r, s, step)) && Harmless(r, s, step)
  {
  }

  lemma {:induction false} OrderlyInv<P, E>(r: Reducer<P, E>, states: seq<State<P, E>>, steps: seq<Step<E>>, n: nat)
    requires IsRun(r, states, steps) && n < |states|
    requires forall i | 0 <= i < n :: Orderly(states[i], steps[i])
    ensures OrderInv(states[n])
    decreases n
  {
    if n == 0 {
    } else {
      OrderlyInv(r, states, steps, n - 1);
      assert Follows(r, states, steps, n - 1);
      OrderStep(r, states[n - 1], steps[n - 1]);
    }
  }

  /** A client that polls one at a time meets harmless replies only, so its store is coherent throughout. */
  lemma OrderlyRunsAgree<P, E>(r: Reducer<P, E>, states: seq<State<P, E>>, steps: seq<Step<E>>, n: nat)
    requires IsRun(r, states, steps) && n < |states|
    requires forall i | 0 <= i < n :: Orderly(states[i], steps[i])
    ensures forall i | 0 <= i < n :: Harmless(r, states[i], steps[i])
    ensures forall i | 0 <= i <= n :: StoreCoherent(r, states[i])
  {
    forall i | 0 <= i < n ensures Harmless(r, states[i], steps[i]) {
      OrderlyInv(r, states, steps, i);
      assert Follows(r, states, steps, i);
      OrderStep(r, states[i], steps[i]);
    }
    CoherentExactly(r, states, steps, n);
  }

  // ---- two polls at once ----

  /** One more step of a run. */
  lemma Extend<P, E>(r: Reducer<P, E>, states: seq<State<P, E>>, steps: seq<Step<E>>, step: Step<E>)
    returns (states': seq<State<P, E>>, steps': seq<Step<E>>)
    requires IsRun(r, states, steps) && Enabled(r, states[|states| - 1], step)
    ensures IsRun(r, states', steps') && states'[|states'| - 1] == Apply(r, states[|states| - 1], step)
  {
    states', steps' := states + [Apply(r, states[|states| - 1], step)], steps + [step];
    forall i | 0 <= i < |steps'| ensures Follows(r, states', steps', i) {
      if i < |steps| {
        assert Follows(r, states, steps, i);
      }
    }
  }

  /** A store with one event of a log of one, and the run that leads there. */
  lemma LoadedOne<P, E>(r: Reducer<P, E>, sid: string, e: E) returns (states: seq<State<P, E>>, steps: seq<Step<E>>)
    requires r.isDomain(e) && r.isCreated(e)
    ensures IsRun(r, states, steps) && states[|states| - 1] == OneEvent(r, sid, e)
  {
    states, steps := [Initial(r)], [];
    states, steps := Extend(r, states, steps, Append(sid, [e]));
    states, steps := Extend(r, states, steps, LoadCall(sid));
    var s := states[|states| - 1];
    assert LogOf(s, sid) == [e];
    PageAfter([e], 1, -1, LOAD_LIMIT);
    assert LoadPage(s, 1, 1) == EventTable.Range([e], 0, 0);
    assert Fold(r, r.initial, [e]) == r.apply(r.initial, e);
    FilterAll(r, [e]);
    states, steps := Extend(r, states, steps, LoadReply(1, 1));
    assert Touch(map[]) == map[] && s.loads - {1} == map[];
    assert s.logs == map[sid := [e]];
    assert states[|states| - 1] == OneEvent(r, sid, e);
  }

  function OneEvent<P, E>(r: Reducer<P, E>, sid: string, e: E): State<P, E> {
    var p := r.apply(r.initial, e);
    State(map[sid := [e]], Client(Some(sid), [e], 0, p, Some(p), false, false, 1), map[], 0, map[])
  }

  /** A page of the last event. */
  lemma LastEvent<T>(log: seq<T>, limit: int)
    requires |log| == 2 && limit >= 1
    ensures EventTable.Page(log[..2], 0, Some(limit)) == EventTable.Range([log[1]], 1, 1)
  {
    assert log[..2][1..2] == [log[1]];
  }

  /** Two polls under way at once: the store holds the new event twice. */
  lemma OverlappingPollsRepeat<P, E>(r: Reducer<P, E>, sid: string, e: E, f: E)
    returns (states: seq<State<P, E>>, steps: seq<Step<E>>)
    requires r.isDomain(e) && r.isCreated(e) && r.isDomain(f)
    ensures IsRun(r, states, steps)
    ensures var s := states[|states| - 1];
      LogOf(s, sid) == [e, f] && s.client.sessionId == Some(sid) && s.client.events == [e, f, f] && s.client.lastIndex == 1
  {
    states, steps := LoadedOne(r, sid, e);
    states, steps := Extend(r, states, steps, PollCall);
    states, steps := Extend(r, states, steps, PollCall);
    states, steps := Extend(r, states, steps, Append(sid, [f]));
    var s := states[|states| - 1];
    assert LogOf(s, sid) == [e] + [f] == [e, f];
    LastEvent([e, f], POLL_LIMIT);
    FilterAll(r, [f]);
    assert PollPage(s, 0, 2) == EventTable.Range([f], 1, 1);
    states, steps := Extend(r, states, steps, PollReply(0, 2));
    var t := states[|states| - 1];
    assert t.client.events == [e] + [f] == [e, f];
    assert PollPage(t, 1, 2) == EventTable.Range([f], 1, 1);
    states, steps := Extend(r, states, steps, PollReply(1, 2));
    assert states[|states| - 1].client.events == [e, f] + [f];
  }

  /** A poll answered after a second load of its session: the store holds the new event twice. */
  lemma PollAcrossLoadRepeats<P, E>(r: Reducer<P, E>, sid: string, e: E, f: E)
    returns (states: seq<State<P, E>>, steps: seq<Step<E>>)
    requires r.isDomain(e) && r.isCreated(e) && r.isDomain(f)
    ensures IsRun(r, states, steps)
    ensures var s := states[|states| - 1];
      LogOf(s, sid) == [e, f] && s.client.sessionId == Some(sid) && s.client.events == [e, f, f] && s.client.lastIndex == 1
  {
    states, steps := LoadedOne(r, sid, e);
    states, steps := Extend(r, states, steps, PollCall);
    states, steps := Extend(r, states, steps, Append(sid, [f]));
    states, steps := Extend(r, states, steps, LoadCall(sid));
    var s := states[|states| - 1];
    assert LogOf(s, sid) == [e] + [f] == [e, f];
    assert EventTable.Page([e, f][..2], -1, Some(LOAD_LIMIT)) == EventTable.Range([e, f], 0, 1);
    assert LoadPage(s, 2, 2) == EventTable.Range([e, f], 0, 1);
    FilterAll(r, [e, f]);
    states, steps := Extend(r, states, steps, LoadReply(2, 2));
    var t := states[|states| - 1];
    assert t.client.events == [e, f];
    LastEvent([e, f], POLL_LIMIT);
    assert PollPage(t, 0, 2) == EventTable.Range([f], 1, 1);
    states, steps := Extend(r, states, steps, PollReply(0, 2));
    assert states[|states| - 1].client.events == [e, f] + [f];
  }

  // ---- the store object ----

  class Store<P, E> {
    const r: Reducer<P, E>
    var sessionId: Option<string>
    var events: seq<E>
    var lastIndex: int
    var projections: P
    var derived: Option<P>
    var isLoading: bool
    var failed: bool
    var loadCounter: nat

    ghost function View(): Client<P, E>
      reads this
    {
      Client(sessionId, events, lastIndex, projections, derived, isLoading, failed, loadCounter)
    }

    constructor (r: Reducer<P, E>)
      ensures this.r == r && View() == Emptied(r, None, false, 0)
    {
      this.r := r;
      sessionId, events, lastIndex, projections, derived := None, [], -1, r.initial, None;
      isLoading, failed, loadCounter := false, false, 0;
    }

    method BeginLoad(sid: string) returns (id: nat)
      modifies this
      ensures id == old(loadCounter) + 1 && View() == Emptied(r, Some(sid), true, id)
    {
      loadCounter := loadCounter + 1;
      id := loadCounter;
      sessionId, events, lastIndex, projections, derived := Some(sid), [], -1, r.initial, None;
      isLoading, failed := true, false;
    }

    /** The loop over new events, from given projections. */
    method ApplyAll(p: P, all: seq<E>) returns (q: P)
      ensures q == Fold(r, p, all)
    {
      q := p;
      var i := 0;
      while i < |all|
        invariant 0 <= i <= |all|
        invariant q == Fold(r, p, all[..i])
      {
        assert all[..i + 1][..i] == all[..i];
        q := r.apply(q, all[i]);
        i := i + 1;
      }
      assert all[..|all|] == all;
    }

    method EndLoad(id: nat, reply: EventTable.Range<E>)
      modifies this
      ensures View() == if old(loadCounter) != id then old(View()) else Loaded(r, old(View()), reply)
    {
      if loadCounter != id {
        return;
      }
      var valid := Filter(r, reply.events);
      if |valid| == 0 {
        isLoading, lastIndex := false, reply.toIndex;
        return;
      }
      if !r.isCreated(valid[0]) {
        isLoading, failed := false, true;
        return;
      }
      var p := ApplyAll(r.initial, valid);
      events, lastIndex, projections, derived, isLoading := valid, reply.toIndex, p, Some(p), false;
    }

    /** The frame of `fetchNewEvents` after its reply; `sid` and `since` were captured before it. */
    method EndPoll(sid: string, since: int, reply: EventTable.Range<E>)
      modifies this
      ensures View() == if old(sessionId) != Some(sid) then old(View()) else Polled(r, old(View()), since, reply)
    {
      if sessionId != Some(sid) {
        return;
      }
      var added := Filter(r, reply.events);
      if |added| == 0 {
        if reply.toIndex != since {
          lastIndex := reply.toIndex;
        }
        return;
      }
      if r.agentCount(projections) == 0 && |events| == 0 {
        var all := events + added;
        assert all == added;
        if !r.isCreated(all[0]) {
          lastIndex := reply.toIndex;
          return;
        }
        var p := ApplyAll(r.initial, all);
        events, lastIndex, projections, derived, failed := all, reply.toIndex, p, Some(p), false;
        return;
      }
      var p := ApplyAll(projections, added);
      events, lastIndex, projections, derived, failed := events + added, reply.toIndex, p, Some(p), false;
    }

    method DoReset()
      modifies this
      ensures View() == Emptied(r, None, false, old(loadCounter) + 1)
    {
      loadCounter := loadCounter + 1;
      sessionId, events, lastIndex, projections, derived := None, [], -1, r.initial, None;
      isLoading, failed := false, false;
    }
  }
}
