/**
 * The two reducers that follow the agents of a session at different precision: the tree keeps
 * a number of pending tool calls, the detail keeps the calls themselves. Conversation texts,
 * skills and mailbox contents take no part in what is stated here and are left out.
 */
module Projections {
  import opened Prelude

  type AgentId = string

  datatype Status = Pending | Inferring | ToolExec | Errored | Paused

  datatype ToolCall = ToolCall(id: string, name: string)

  /** Events about one agent that both reducers look up first, and ignore when it is unknown. */
  datatype Change =
    | StateChanged(toState: Status)
    | InferenceStarted
    | InferenceCompleted(toolCalls: seq<ToolCall>, consumed: nat, cost: Option<real>)
    | InferenceFailed
    | InferenceRetried
    | ToolStarted(callId: string, toolName: string)
    | ToolCompleted(callId: string)
    | ToolFailed(callId: string, error: string)
    | AgentPaused
    | AgentResumed
    | ConversationSpliced

  datatype Event =
    | AgentSpawned(agent: AgentId, definition: string, parent: Option<AgentId>)
    | Changed(agent: AgentId, change: Change)
    | SessionRestarted
    | MailboxMessage(agent: AgentId, from: AgentId)
    | MailboxConsumed(agent: AgentId, consumed: nat)
    | Unrelated

  // ---- shared status transitions ----

  function AfterInferenceCompleted(current: Status, toolCalls: nat): Status {
    if current.Paused? then Paused else if toolCalls > 0 then ToolExec else Pending
  }

  function AfterToolResult(current: Status, remaining: nat): Status {
    if current.Paused? then Paused else if remaining == 0 then Pending else ToolExec
  }

  function AfterInferenceRetried(current: Status): Status {
    if current.Paused? then Paused else Pending
  }

  function AfterResume(pending: nat): Status {
    if pending > 0 then ToolExec else Pending
  }

  function CostOf(cost: Option<real>): real {
    match cost case None => 0.0 case Some(c) => c
  }

  // ---- the tree reducer ----

  datatype TreeEntry = TreeEntry(
    definition: string,
    status: Status,
    parent: Option<AgentId>,
    pendingCount: nat,
    isExecuting: bool,
    mailboxCount: nat,
    cost: real)

  /** A map in insertion order: `order` lists the keys as they were first set. */
  datatype Tree = Tree(order: seq<AgentId>, agents: map<AgentId, TreeEntry>)

  const EMPTY_TREE := Tree([], map[])

  function SetEntry(t: Tree, id: AgentId, entry: TreeEntry): Tree {
    Tree(if id in t.agents then t.order else t.order + [id], t.agents[id := entry])
  }

  function Minus(a: nat, b: nat): nat { if a < b then 0 else a - b }

  function DecrementMailbox(t: Tree, id: AgentId, count: nat): Tree {
    if id !in t.agents then t
    else SetEntry(t, id, t.agents[id].(mailboxCount := Minus(t.agents[id].mailboxCount, count)))
  }

  function RestartEntry(a: TreeEntry): TreeEntry {
    a.(status := if a.status.Inferring? || a.status.Errored? then Pending else a.status, isExecuting := false)
  }

  function EntryAfter(a: TreeEntry, change: Change): TreeEntry {
    match change
    case StateChanged(toState) => a.(status := toState)
    case InferenceStarted => a.(status := Inferring)
    case InferenceCompleted(calls, _, cost) =>
      a.(status := AfterInferenceCompleted(a.status, |calls|), pendingCount := |calls|, isExecuting := false, cost := a.cost + CostOf(cost))
    case InferenceFailed => a.(status := Errored)
    case InferenceRetried => a.(status := AfterInferenceRetried(a.status))
    case ToolStarted(_, _) => a.(isExecuting := true)
    case ToolCompleted(_) => TreeToolResult(a)
    case ToolFailed(_, _) => TreeToolResult(a)
    case AgentPaused => a.(status := Paused)
    case AgentResumed => a.(status := AfterResume(a.pendingCount))
    case ConversationSpliced => a
  }

  function TreeToolResult(a: TreeEntry): TreeEntry {
    var remaining := Minus(a.pendingCount, 1);
    a.(pendingCount := remaining, isExecuting := false, status := AfterToolResult(a.status, remaining))
  }

  function ApplyToTree(t: Tree, e: Event): Tree {
    match e
    case AgentSpawned(id, definition, parent) =>
      SetEntry(t, id, TreeEntry(definition, Pending, parent, 0, false, 0, 0.0))
    case Changed(id, change) =>
      if id !in t.agents then t
      else
        // A completed inference first lowers the mailbox count; the entry read before is then written over it.
        var lowered := if change.InferenceCompleted? && change.consumed > 0 then DecrementMailbox(t, id, change.consumed) else t;
        SetEntry(lowered, id, EntryAfter(t.agents[id], change))
    case SessionRestarted => t.(agents := map id | id in t.agents :: RestartEntry(t.agents[id]))
    case MailboxMessage(id, _) =>
      if id !in t.agents then t else SetEntry(t, id, t.agents[id].(mailboxCount := t.agents[id].mailboxCount + 1))
    case MailboxConsumed(id, count) => DecrementMailbox(t, id, count)
    case Unrelated => t
  }

  // ---- the detail reducer ----

  datatype Executing = Executing(callId: string, toolName: string)

  datatype ToolResult = ToolResult(callId: string, toolName: string, isError: bool)

  datatype View = View(
    definition: string,
    status: Status,
    parent: Option<AgentId>,
    pendingCalls: seq<ToolCall>,
    executing: Option<Executing>,
    results: seq<ToolResult>,
    cost: real)

  datatype Streak = Streak(count: nat, lastError: string)

  datatype Counters = Counters(inferences: nat, toolCalls: nat, spawned: nat, sent: nat, failures: map<string, Streak>)

  const NO_COUNTS := Counters(0, 0, 0, 0, map[])

  datatype Detail = Detail(agents: map<AgentId, View>, counters: map<AgentId, Counters>)

  const EMPTY_DETAIL := Detail(map[], map[])

  function Without(calls: seq<ToolCall>, callId: string): seq<ToolCall> {
    if calls == [] then []
    else (if calls[0].id != callId then [calls[0]] else []) + Without(calls[1..], callId)
  }

  function NameOf(calls: seq<ToolCall>, callId: string): Option<string> {
    if calls == [] then None
    else if calls[0].id == callId then Some(calls[0].name)
    else NameOf(calls[1..], callId)
  }

  /** The executing tool's name, else the name of the pending call, else a placeholder. */
  function ResolveName(a: View, callId: string): string {
    if a.executing.Some? then a.executing.value.toolName
    else match NameOf(a.pendingCalls, callId) case Some(name) => name case None => "unknown"
  }

  function DetailToolResult(a: View, callId: string, isError: bool): View {
    var remaining := Without(a.pendingCalls, callId);
    a.(pendingCalls := remaining,
       results := a.results + [ToolResult(callId, ResolveName(a, callId), isError)],
       status := AfterToolResult(a.status, |remaining|),
       executing := None)
  }

  function ViewAfter(a: View, change: Change): View {
    match change
    case StateChanged(toState) => a.(status := toState)
    case InferenceStarted => a.(status := Inferring)
    case InferenceCompleted(calls, _, cost) =>
      a.(status := AfterInferenceCompleted(a.status, |calls|), pendingCalls := calls, results := [], cost := a.cost + CostOf(cost))
    case InferenceFailed => a.(status := Errored)
    case InferenceRetried => a.(status := AfterInferenceRetried(a.status))
    case ToolStarted(callId, name) => a.(executing := Some(Executing(callId, name)))
    case ToolCompleted(callId) => DetailToolResult(a, callId, false)
    case ToolFailed(callId, _) => DetailToolResult(a, callId, true)
    case AgentPaused => a.(status := Paused)
    case AgentResumed => a.(status := AfterResume(|a.pendingCalls|))
    case ConversationSpliced => a.(pendingCalls := [], results := [], executing := None, status := Pending)
  }

  function AddFailure(c: Counters, tool: string, error: string): Counters {
    var count := if tool in c.failures then c.failures[tool].count else 0;
    c.(failures := c.failures[tool := Streak(count + 1, error)])
  }

  /** The counters of an agent whose view was `a` before the change. */
  function CountersAfter(c: Counters, a: View, change: Change): Counters {
    match change
    case InferenceCompleted(_, _, _) => c.(inferences := c.inferences + 1)
    case ToolStarted(_, _) => c.(toolCalls := c.toolCalls + 1)
    case ToolCompleted(callId) => c.(failures := c.failures - {ResolveName(a, callId)})
    case ToolFailed(callId, error) => AddFailure(c, ResolveName(a, callId), error)
    case AgentResumed => NO_COUNTS
    case _ => c
  }

  function RestartView(a: View): View {
    a.(status := if a.status.Inferring? || a.status.Errored? then Pending else a.status, executing := None)
  }

  function Spawn(d: Detail, id: AgentId, definition: string, parent: Option<AgentId>): Detail {
    var counters := d.counters[id := NO_COUNTS];
    Detail(
      d.agents[id := View(definition, Pending, parent, [], None, [], 0.0)],
      if parent.Some? && parent.value != "" && parent.value in counters then
        counters[parent.value := counters[parent.value].(spawned := counters[parent.value].spawned + 1)]
      else counters)
  }

  function ApplyToDetail(d: Detail, e: Event): Detail {
    match e
    case AgentSpawned(id, definition, parent) => Spawn(d, id, definition, parent)
    case Changed(id, change) =>
      if id !in d.agents then d
      else Detail(
        d.agents[id := ViewAfter(d.agents[id], change)],
        if id in d.counters then d.counters[id := CountersAfter(d.counters[id], d.agents[id], change)] else d.counters)
    case SessionRestarted => d.(agents := map id | id in d.agents :: RestartView(d.agents[id]))
    case MailboxMessage(_, from) =>
      if from == "user" || from == "orchestrator" || from == "communicator" || from == "" || from !in d.counters then d
      else d.(counters := d.counters[from := d.counters[from].(sent := d.counters[from].sent + 1)])
    case MailboxConsumed(_, _) => d
    case Unrelated => d
  }

  // ---- folds ----

  function TreeOf(events: seq<Event>): Tree {
    if events == [] then EMPTY_TREE else ApplyToTree(TreeOf(events[..|events| - 1]), events[|events| - 1])
  }

  function DetailOf(events: seq<Event>): Detail {
    if events == [] then EMPTY_DETAIL else ApplyToDetail(DetailOf(events[..|events| - 1]), events[|events| - 1])
  }

  // ---- the same agents, on every event sequence ----

  predicate SameHead(entry: TreeEntry, view: View) {
    entry.parent == view.parent && entry.cost == view.cost && entry.definition == view.definition
  }

  ghost predicate SameAgents(t: Tree, d: Detail) {
    && t.agents.Keys == d.agents.Keys
    && forall id | id in t.agents && id in d.agents :: SameHead(t.agents[id], d.agents[id])
  }

  lemma SameHeadAfter(entry: TreeEntry, view: View, change: Change)
    requires SameHead(entry, view)
    ensures SameHead(EntryAfter(entry, change), ViewAfter(view, change))
  {
  }

  lemma SameAgentsStep(t: Tree, d: Detail, e: Event)
    requires SameAgents(t, d)
    ensures SameAgents(ApplyToTree(t, e), ApplyToDetail(d, e))
  {
    var t', d' := ApplyToTree(t, e), ApplyToDetail(d, e);
    if e.Changed? && e.agent in t.agents {
      SameHeadAfter(t.agents[e.agent], d.agents[e.agent], e.change);
    }
    forall id | id in t'.agents && id in d'.agents ensures SameHead(t'.agents[id], d'.agents[id]) {
    }
  }

  /** Main result: tree and detail hold the same agents, with the same parents and costs. */
  lemma {:induction false} ProjectionsHoldSameAgents(events: seq<Event>)
    ensures SameAgents(TreeOf(events), DetailOf(events))
    decreases |events|
  {
    if events == [] {
    } else {
      ProjectionsHoldSameAgents(events[..|events| - 1]);
      SameAgentsStep(TreeOf(events[..|events| - 1]), DetailOf(events[..|events| - 1]), events[|events| - 1]);
    }
  }

  // ---- status and pending count ----

  ghost predicate InStep(t: Tree, d: Detail) {
    && SameAgents(t, d)
    && forall id | id in t.agents && id in d.agents ::
         Matches(t.agents[id], d.agents[id])
  }

  /** Whether the count of the tree can follow what an event does to the calls of the detail. */
  predicate Followable(d: Detail, e: Event) {
    e.Changed? && e.agent in d.agents ==> FollowableChange(d.agents[e.agent], e.change)
  }

  predicate FollowableChange(a: View, change: Change) {
    match change
    case ToolCompleted(callId) => FollowsRemoval(a.pendingCalls, callId)
    case ToolFailed(callId, _) => FollowsRemoval(a.pendingCalls, callId)
    case ConversationSpliced => a.status.Pending? && a.pendingCalls == []
    case _ => true
  }

  /** The result takes exactly one pending call away, or there is none to take. */
  predicate FollowsRemoval(calls: seq<ToolCall>, callId: string) {
    calls == [] || |Without(calls, callId)| == |calls| - 1
  }

  predicate Matches(entry: TreeEntry, view: View) {
    entry.status == view.status && entry.pendingCount == |view.pendingCalls|
  }

  lemma MatchExactly(entry: TreeEntry, view: View, change: Change)
    requires Matches(entry, view)
    ensures Matches(EntryAfter(entry, change), ViewAfter(view, change)) <==> FollowableChange(view, change)
  {
  }

  /** One event keeps the projections in step if and only if it is followable. */
  lemma InStepExactly(t: Tree, d: Detail, e: Event)
    requires InStep(t, d)
    ensures InStep(ApplyToTree(t, e), ApplyToDetail(d, e)) <==> Followable(d, e)
  {
    SameAgentsStep(t, d, e);
    if e.Changed? && e.agent in d.agents {
      MatchExactly(t.agents[e.agent], d.agents[e.agent], e.change);
      var t', d' := ApplyToTree(t, e), ApplyToDetail(d, e);
      assert t'.agents[e.agent] == EntryAfter(t.agents[e.agent], e.change);
      assert forall id | id in d.agents && id != e.agent :: t'.agents[id] == t.agents[id] && d'.agents[id] == d.agents[id];
      assert InStep(t', d') ==> Matches(t'.agents[e.agent], d'.agents[e.agent]);
    }
  }

  ghost predicate InStepAt(events: seq<Event>, i: int)
    requires 0 <= i <= |events|
  {
    InStep(TreeOf(events[..i]), DetailOf(events[..i]))
  }

  ghost predicate FollowableAt(events: seq<Event>, i: int)
    requires 0 <= i < |events|
  {
    Followable(DetailOf(events[..i]), events[i])
  }

  lemma InStepNext(events: seq<Event>, i: nat)
    requires i < |events| && InStepAt(events, i)
    ensures InStepAt(events, i + 1) <==> FollowableAt(events, i)
  {
    assert events[..i + 1] == events[..i] + [events[i]];
    FoldSnoc(events[..i], events[i]);
    InStepExactly(TreeOf(events[..i]), DetailOf(events[..i]), events[i]);
  }

  /** Main result: both projections are in step throughout a run if and only if every event in it is followable. */
  lemma {:induction false} RunInStepExactly(events: seq<Event>, n: nat)
    requires n <= |events|
    ensures (forall i | 0 <= i <= n :: InStepAt(events, i)) <==> (forall i | 0 <= i < n :: FollowableAt(events, i))
    decreases n
  {
    if n == 0 {
      assert events[..0] == [];
    } else {
      RunInStepExactly(events, n - 1);
      if forall i | 0 <= i <= n - 1 :: InStepAt(events, i) {
        InStepNext(events, n - 1);
        assert InStepAt(events, n) <==> FollowableAt(events, n - 1);
      }
    }
  }

  lemma FoldSnoc(events: seq<Event>, e: Event)
    ensures TreeOf(events + [e]) == ApplyToTree(TreeOf(events), e)
    ensures DetailOf(events + [e]) == ApplyToDetail(DetailOf(events), e)
  {
    assert (events + [e])[..|events + [e]| - 1] == events;
  }

  // ---- runs of a well-behaved session ----

  function IdsOf(calls: seq<ToolCall>): seq<string> {
    seq(|calls|, i requires 0 <= i < |calls| => calls[i].id)
  }

  function ResultIds(results: seq<ToolResult>): seq<string> {
    seq(|results|, i requires 0 <= i < |results| => results[i].callId)
  }

  /** Call ids of a response are distinct, and a result names a pending call of its agent. */
  ghost predicate DisciplinedChange(a: View, change: Change) {
    match change
    case InferenceCompleted(calls, _, _) => NoDup(IdsOf(calls))
    case ToolCompleted(callId) => callId in IdsOf(a.pendingCalls)
    case ToolFailed(callId, _) => callId in IdsOf(a.pendingCalls)
    case _ => true
  }

  ghost predicate Disciplined(d: Detail, e: Event) {
    e.Changed? && e.agent in d.agents ==> DisciplinedChange(d.agents[e.agent], e.change)
  }

  ghost predicate DisciplinedRun(events: seq<Event>) {
    forall i | 0 <= i < |events| :: Disciplined(DetailOf(events[..i]), events[i])
  }

  lemma DisciplinedPrefix(events: seq<Event>, n: nat)
    requires DisciplinedRun(events) && n <= |events|
    ensures DisciplinedRun(events[..n])
  {
    forall i | 0 <= i < n ensures Disciplined(DetailOf(events[..n][..i]), events[..n][i]) {
      assert events[..n][..i] == events[..i];
    }
  }

  lemma {:induction false} WithoutAbsent(calls: seq<ToolCall>, callId: string)
    requires callId !in IdsOf(calls)
    ensures Without(calls, callId) == calls
  {
    if calls == [] {
    } else {
      assert IdsOf(calls) == [calls[0].id] + IdsOf(calls[1..]);
      WithoutAbsent(calls[1..], callId);
    }
  }

  lemma TailDistinct(calls: seq<ToolCall>)
    requires calls != [] && NoDup(IdsOf(calls))
    ensures IdsOf(calls) == [calls[0].id] + IdsOf(calls[1..])
    ensures NoDup(IdsOf(calls[1..])) && calls[0].id !in IdsOf(calls[1..])
  {
    var ids, rest := IdsOf(calls), IdsOf(calls[1..]);
    assert ids == [calls[0].id] + rest;
    forall i, j | 0 <= i < j < |rest| ensures rest[i] != rest[j] {
      assert ids[i + 1] != ids[j + 1];
    }
    forall j | 0 <= j < |rest| ensures rest[j] != calls[0].id {
      assert ids[0] != ids[j + 1];
    }
  }

  lemma {:induction false} WithoutSubset(calls: seq<ToolCall>, callId: string)
    ensures forall id | id in IdsOf(Without(calls, callId)) :: id in IdsOf(calls)
  {
    if calls == [] {
    } else {
      WithoutSubset(calls[1..], callId);
      WithoutCons(calls[0], calls[1..], callId);
      IdsCons(calls[0], calls[1..]);
      IdsCons(calls[0], Without(calls[1..], callId));
      assert calls == [calls[0]] + calls[1..];
    }
  }

  lemma WithoutCons(first: ToolCall, rest: seq<ToolCall>, callId: string)
    ensures Without([first] + rest, callId)
      == if first.id == callId then Without(rest, callId) else [first] + Without(rest, callId)
  {
    assert ([first] + rest)[1..] == rest;
  }

  lemma IdsCons(first: ToolCall, rest: seq<ToolCall>)
    ensures IdsOf([first] + rest) == [first.id] + IdsOf(rest)
  {
  }

  lemma {:induction false} WithoutDistinct(calls: seq<ToolCall>, callId: string)
    requires NoDup(IdsOf(calls))
    ensures NoDup(IdsOf(Without(calls, callId)))
  {
    if calls == [] {
    } else {
      var first, rest := calls[0], calls[1..];
      assert calls == [first] + rest;
      TailDistinct(calls);
      WithoutDistinct(rest, callId);
      WithoutCons(first, rest, callId);
      WithoutSubset(rest, callId);
      IdsCons(first, Without(rest, callId));
      DistinctCons(first.id, IdsOf(Without(rest, callId)));
    }
  }

  /** Taking a distinct id out of the calls takes exactly one call. */
  lemma {:induction false} WithoutOne(calls: seq<ToolCall>, callId: string)
    requires NoDup(IdsOf(calls)) && callId in IdsOf(calls)
    ensures multiset(IdsOf(Without(calls, callId))) + multiset{callId} == multiset(IdsOf(calls))
    ensures |Without(calls, callId)| == |calls| - 1
    ensures NoDup(IdsOf(Without(calls, callId)))
    ensures forall id | id in IdsOf(Without(calls, callId)) :: id in IdsOf(calls)
  {
    WithoutSubset(calls, callId);
    WithoutDistinct(calls, callId);
    WithoutCounts(calls, callId);
  }

  lemma {:induction false} WithoutCounts(calls: seq<ToolCall>, callId: string)
    requires NoDup(IdsOf(calls)) && callId in IdsOf(calls)
    ensures multiset(IdsOf(Without(calls, callId))) + multiset{callId} == multiset(IdsOf(calls))
    ensures |Without(calls, callId)| == |calls| - 1
  {
    var first, rest := calls[0], calls[1..];
    assert calls == [first] + rest;
    TailDistinct(calls);
    WithoutCons(first, rest, callId);
    if first.id == callId {
      WithoutAbsent(rest, callId);
    } else {
      WithoutCounts(rest, callId);
      IdsCons(first, Without(rest, callId));
    }
  }

  lemma DistinctCons(id: string, ids: seq<string>)
    requires NoDup(ids) && id !in ids
    ensures NoDup([id] + ids)
  {
  }

  /** The ids that count after an event: a spawn or a splice of the agent starts over. */
  ghost function IdsAfter(ids: seq<string>, d: Detail, e: Event, id: AgentId): seq<string> {
    if e.AgentSpawned? && e.agent == id then []
    else if e.Changed? && e.agent == id && id in d.agents then IdsAfterChange(ids, e.change)
    else ids
  }

  function IdsAfterChange(ids: seq<string>, change: Change): seq<string> {
    match change
    case ConversationSpliced => []
    case InferenceCompleted(calls, _, _) => IdsOf(calls)
    case _ => ids
  }

  /** The ids of the last completed inference of an agent. */
  ghost function LastIds(events: seq<Event>, id: AgentId): seq<string> {
    if events == [] then []
    else
      var n := |events| - 1;
      IdsAfter(LastIds(events[..n], id), DetailOf(events[..n]), events[n], id)
  }

  ghost predicate Partitions(a: View, ids: seq<string>) {
    && NoDup(IdsOf(a.pendingCalls))
    && NoDup(ids)
    && multiset(IdsOf(a.pendingCalls)) + multiset(ResultIds(a.results)) == multiset(ids)
  }

  lemma ResultPartitions(a: View, callId: string, isError: bool, ids: seq<string>)
    requires Partitions(a, ids) && callId in IdsOf(a.pendingCalls)
    ensures Partitions(DetailToolResult(a, callId, isError), ids)
  {
    WithoutOne(a.pendingCalls, callId);
    var a' := DetailToolResult(a, callId, isError);
    assert ResultIds(a'.results) == ResultIds(a.results) + [callId];
  }

  lemma ChangePartitions(a: View, change: Change, ids: seq<string>)
    requires Partitions(a, ids) && DisciplinedChange(a, change)
    ensures Partitions(ViewAfter(a, change), IdsAfterChange(ids, change))
  {
    match change {
      case ToolCompleted(callId) => ResultPartitions(a, callId, false, ids);
      case ToolFailed(callId, _) => ResultPartitions(a, callId, true, ids);
      case ConversationSpliced => assert IdsOf([]) == [] && ResultIds([]) == [];
      case InferenceCompleted(_, _, _) => assert ResultIds([]) == [];
      case _ =>
    }
  }

  /**
   * Main result: in a disciplined run the pending calls and the pending results of every agent
   * together are exactly the calls of its last completed inference, each of them once.
   */
  lemma {:induction false} ToolCallsConserved(events: seq<Event>, id: AgentId)
    requires DisciplinedRun(events) && id in DetailOf(events).agents
    ensures Partitions(DetailOf(events).agents[id], LastIds(events, id))
    decreases |events|
  {
    var n := |events| - 1;
    var d, e := DetailOf(events[..n]), events[n];
    DisciplinedPrefix(events, n);
    if id in d.agents {
      ToolCallsConserved(events[..n], id);
      if e.Changed? && e.agent == id {
        ChangePartitions(d.agents[id], e.change, LastIds(events[..n], id));
      }
    }
    ConservedStep(d, e, id, LastIds(events[..n], id));
  }

  lemma ConservedStep(d: Detail, e: Event, id: AgentId, ids: seq<string>)
    requires id in ApplyToDetail(d, e).agents
    requires id in d.agents ==> Partitions(d.agents[id], ids)
    requires id in d.agents && e.Changed? && e.agent == id ==> Partitions(ViewAfter(d.agents[id], e.change), IdsAfterChange(ids, e.change))
    ensures Partitions(ApplyToDetail(d, e).agents[id], IdsAfter(ids, d, e, id))
  {
    if e.AgentSpawned? && e.agent == id {
      assert IdsOf([]) == [] && ResultIds([]) == [];
    }
  }

  /** Main result: disciplined runs without a splice keep status and pending count equal. */
  lemma {:induction false} DisciplinedRunsAgree(events: seq<Event>)
    requires DisciplinedRun(events)
    requires forall i | 0 <= i < |events| && events[i].Changed? :: !events[i].change.ConversationSpliced?
    ensures InStep(TreeOf(events), DetailOf(events))
  {
    forall i | 0 <= i < |events| ensures FollowableAt(events, i) {
      var d, e := DetailOf(events[..i]), events[i];
      DisciplinedPrefix(events, i);
      if e.Changed? && (e.change.ToolCompleted? || e.change.ToolFailed?) && e.agent in d.agents {
        ToolCallsConserved(events[..i], e.agent);
        WithoutOne(d.agents[e.agent].pendingCalls, e.change.callId);
      }
    }
    RunInStepExactly(events, |events|);
    assert InStepAt(events, |events|) && events[..|events|] == events;
  }

  /** A splice of an agent with an open tool turn is invisible to the tree. */
  lemma SpliceSeparates(id: AgentId, call: ToolCall)
    ensures var events := [AgentSpawned(id, "d", None), Changed(id, InferenceCompleted([call], 0, None)), Changed(id, ConversationSpliced)];
      && id in TreeOf(events).agents && id in DetailOf(events).agents
      && TreeOf(events).agents[id].status == ToolExec && TreeOf(events).agents[id].pendingCount == 1
      && DetailOf(events).agents[id].status == Pending && DetailOf(events).agents[id].pendingCalls == []
  {
    var e0, e1, e2 := AgentSpawned(id, "d", None), Changed(id, InferenceCompleted([call], 0, None)), Changed(id, ConversationSpliced);
    FoldSnoc([], e0);
    FoldSnoc([e0], e1);
    FoldSnoc([e0, e1], e2);
    assert [] + [e0] == [e0] && [e0] + [e1] == [e0, e1] && [e0, e1] + [e2] == [e0, e1, e2];
    var t, d := TreeOf([e0, e1]), DetailOf([e0, e1]);
    assert t.agents[id].status == ToolExec && t.agents[id].pendingCount == 1 && id in d.agents;
  }

  /** A completed inference does not lower the mailbox count, whatever it says it consumed. */
  lemma CompletionKeepsMailboxCount(t: Tree, id: AgentId, calls: seq<ToolCall>, consumed: nat, cost: Option<real>)
    requires id in t.agents
    ensures var t' := ApplyToTree(t, Changed(id, InferenceCompleted(calls, consumed, cost)));
      && id in t'.agents && t'.agents[id].mailboxCount == t.agents[id].mailboxCount
      && (t'.agents[id].mailboxCount == Minus(t.agents[id].mailboxCount, consumed) <==> consumed == 0 || t.agents[id].mailboxCount == 0)
  {
  }

  /** A message that an inference has consumed is still counted. */
  lemma ConsumedMessageStaysCounted(id: AgentId)
    ensures var events := [AgentSpawned(id, "d", None), MailboxMessage(id, "user"), Changed(id, InferenceCompleted([], 1, None))];
      id in TreeOf(events).agents && TreeOf(events).agents[id].mailboxCount == 1
  {
    var e0, e1, e2 := AgentSpawned(id, "d", None), MailboxMessage(id, "user"), Changed(id, InferenceCompleted([], 1, None));
    FoldSnoc([], e0);
    FoldSnoc([e0], e1);
    FoldSnoc([e0, e1], e2);
    assert [] + [e0] == [e0] && [e0] + [e1] == [e0, e1] && [e0, e1] + [e2] == [e0, e1, e2];
    var t := TreeOf([e0, e1]);
    assert id in t.agents && t.agents[id].mailboxCount == 1;
  }

  // ---- failure streaks ----

  datatype Mark = Neutral | Fails(tool: string) | Succeeds(tool: string) | Reset

  /** What an event means for the failure counters of one agent. */
  function MarkOf(d: Detail, e: Event, id: AgentId): Mark {
    if e.AgentSpawned? && e.agent == id then Reset
    else if e.Changed? && e.agent == id && id in d.agents then
      match e.change
      case AgentResumed => Reset
      case ToolCompleted(callId) => Succeeds(ResolveName(d.agents[id], callId))
      case ToolFailed(callId, _) => Fails(ResolveName(d.agents[id], callId))
      case _ => Neutral
    else Neutral
  }

  function Marks(events: seq<Event>, id: AgentId): seq<Mark> {
    if events == [] then []
    else Marks(events[..|events| - 1], id) + [MarkOf(DetailOf(events[..|events| - 1]), events[|events| - 1], id)]
  }

  /** The failures of a tool with no later success of it and no later reset. */
  ghost function OpenFailures(marks: seq<Mark>, tool: string): set<int> {
    set i | 0 <= i < |marks| && IsOpen(marks, tool, i)
  }

  ghost predicate IsOpen(marks: seq<Mark>, tool: string, i: int) {
    0 <= i < |marks| && marks[i] == Fails(tool) && forall j | i < j < |marks| :: marks[j] != Succeeds(tool) && marks[j] != Reset
  }

  lemma OpenAfter(marks: seq<Mark>, mark: Mark, tool: string, i: int)
    ensures IsOpen(marks + [mark], tool, i) <==>
      (i == |marks| && mark == Fails(tool)) || (IsOpen(marks, tool, i) && mark != Succeeds(tool) && mark != Reset)
  {
    var all := marks + [mark];
    assert all[|marks|] == mark;
    assert forall j {:trigger marks[j]} {:trigger all[j]} | 0 <= j < |marks| :: all[j] == marks[j];
  }

  lemma OpenFailuresStep(marks: seq<Mark>, mark: Mark, tool: string)
    ensures |OpenFailures(marks + [mark], tool)| ==
      if mark == Fails(tool) then |OpenFailures(marks, tool)| + 1
      else if mark == Succeeds(tool) || mark == Reset then 0
      else |OpenFailures(marks, tool)|
  {
    forall i {
      OpenAfter(marks, mark, tool, i);
    }
    var before, after := OpenFailures(marks, tool), OpenFailures(marks + [mark], tool);
    forall i ensures i in after <==> IsOpen(marks + [mark], tool, i) {
    }
    forall i ensures i in before <==> IsOpen(marks, tool, i) {
    }
    if mark == Fails(tool) {
      assert after == before + {|marks|};
    } else if mark == Succeeds(tool) || mark == Reset {
      assert after == {};
    } else {
      assert after == before;
    }
  }

  function StreakCount(c: Counters, tool: string): nat {
    if tool in c.failures then c.failures[tool].count else 0
  }

  lemma {:induction false} CountersFollowAgents(events: seq<Event>)
    ensures DetailOf(events).counters.Keys == DetailOf(events).agents.Keys
    decreases |events|
  {
    if events == [] {
    } else {
      CountersFollowAgents(events[..|events| - 1]);
    }
  }

  /** The streak of a tool of an agent, zero for an agent that does not exist. */
  function StreakOf(d: Detail, id: AgentId, tool: string): nat {
    if id in d.counters then StreakCount(d.counters[id], tool) else 0
  }

  lemma StreakStep(d: Detail, e: Event, id: AgentId, tool: string)
    requires d.counters.Keys == d.agents.Keys
    ensures StreakOf(ApplyToDetail(d, e), id, tool) ==
      var mark := MarkOf(d, e, id);
      if mark == Fails(tool) then StreakOf(d, id, tool) + 1
      else if mark == Succeeds(tool) || mark == Reset then 0
      else StreakOf(d, id, tool)
  {
  }

  /**
   * Main result: on every event sequence the streak of a tool is the number of its failures
   * since the later of its last success and the last reset of the agent.
   */
  lemma {:induction false} StreaksCountFailures(events: seq<Event>, id: AgentId, tool: string)
    ensures StreakOf(DetailOf(events), id, tool) == |OpenFailures(Marks(events, id), tool)|
    decreases |events|
  {
    if events == [] {
      assert OpenFailures([], tool) == {};
    } else {
      var n := |events| - 1;
      var d, e := DetailOf(events[..n]), events[n];
      StreaksCountFailures(events[..n], id, tool);
      CountersFollowAgents(events[..n]);
      OpenFailuresStep(Marks(events[..n], id), MarkOf(d, e, id), tool);
      StreakStep(d, e, id, tool);
    }
  }
}
