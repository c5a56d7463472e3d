/**
 * The alarm scheduler as a state machine. Every synchronous frame of the program is one
 * atomic step; the slot write is the only asynchronous operation, and its start and its
 * end are separate steps between which any other step may run.
 */
module AlarmModel {
  import opened Prelude
  import opened AlarmRows

  const DRAIN_SLACK_MS := 10

  /** Who waits for a queued slot write: nobody that matters here, a drain, or a flush. */
  datatype Ticket = Detached | Rearm(drain: nat) | Flushing

  datatype Write = Write(ticket: Ticket, target: Option<int>)

  /** A drain waits for its slot write, may dispatch, or has deliveries open. */
  datatype Drain =
    | Rearming(due: seq<Key>)
    | Armed(due: seq<Key>)
    | Delivering(due: seq<Key>, open: set<Key>)

  /** What lives in the isolate and is lost with it. */
  datatype Memory = Memory(
    wakes: Times,
    retries: Times,
    armedAt: Option<int>,
    suspended: nat,
    queue: seq<Ticket>,
    writing: Option<Write>,
    drains: map<nat, Drain>,
    drainCount: nat,
    delivered: nat)

  /**
   * `rows` and `slot` are durable. `fires` counts alarms that cleared the slot and were not
   * drained yet; `lastFailed` says that the last slot write that ended in this isolate failed.
   */
  datatype State = State(rows: Rows, slot: Option<int>, fires: nat, lastFailed: bool, memory: Option<Memory>)

  datatype Step =
    | Wake(key: Key, delay: int, now: int)
    | Cancel(key: Key)
    | SuspendEnter
    | SuspendExit
    | StartWrite(target: Option<int>)
    | FinishWrite(ok: bool)
    | Fire
    | DrainStart(due: seq<Key>, now: int, later: int, retryMs: int)
    | Dispatch(drain: nat)
    | Finish(drain: nat, key: Key, ok: bool)
    | BatchEnd(drain: nat)
    | FlushCheck(target: Option<int>)
    | Crash
    | Boot(wakes: Times, retries: Times)

  /** The earliest time of both maps, None when both are empty. */
  ghost predicate IsEarliest(wakes: Times, retries: Times, t: Option<int>) {
    match t
    case None => wakes == map[] && retries == map[]
    case Some(x) =>
      && ((exists k :: k in wakes && wakes[k] == x) || (exists k :: k in retries && retries[k] == x))
      && (forall k | k in wakes :: x <= wakes[k])
      && (forall k | k in retries :: x <= retries[k])
  }

  ghost predicate IsDue(m: Memory, due: seq<Key>, cutoff: int) {
    && NoDup(due)
    && (forall k :: k in due <==> (k in m.wakes && m.wakes[k] <= cutoff) || (k in m.retries && m.retries[k] <= cutoff))
  }

  /** No slot write is queued or running. */
  predicate Idle(m: Memory) {
    m.queue == [] && m.writing.None?
  }

  // ---- rows and maps moved together ----

  datatype Tables = Tables(rows: Rows, wakes: Times, retries: Times)

  function SetWake(t: Tables, key: Key, at: int): Tables {
    Tables(t.rows[WAKE_PREFIX + key := Num(at)], t.wakes[key := at], t.retries)
  }

  function SetRetry(t: Tables, key: Key, at: int): Tables {
    Tables(t.rows[RETRY_PREFIX + key := Num(at)], t.wakes, t.retries[key := at])
  }

  function DropWake(t: Tables, key: Key): Tables {
    if key in t.wakes then Tables(t.rows - {WAKE_PREFIX + key}, t.wakes - {key}, t.retries) else t
  }

  function DropRetry(t: Tables, key: Key): Tables {
    if key in t.retries then Tables(t.rows - {RETRY_PREFIX + key}, t.wakes, t.retries - {key}) else t
  }

  /** The drain loop: each due key leaves the wakes and gets a retry row. */
  function MoveDue(t: Tables, due: seq<Key>, retryAt: int): Tables
    decreases |due|
  {
    if due == [] then t
    else
      var before := MoveDue(t, due[..|due| - 1], retryAt);
      var key := due[|due| - 1];
      SetRetry(DropWake(before, key), key, retryAt)
  }

  function TablesOf(s: State): Tables
    requires s.memory.Some?
  {
    Tables(s.rows, s.memory.value.wakes, s.memory.value.retries)
  }

  function WithTables(s: State, t: Tables): State
    requires s.memory.Some?
  {
    s.(rows := t.rows, memory := Some(s.memory.value.(wakes := t.wakes, retries := t.retries)))
  }

  function Enqueue(s: State, ticket: Ticket): State
    requires s.memory.Some?
  {
    s.(memory := Some(s.memory.value.(queue := s.memory.value.queue + [ticket])))
  }

  /** The caller of a slot write learns its result: a drain may dispatch or is abandoned. */
  function Settle(s: State, ticket: Ticket, ok: bool): State
    requires s.memory.Some?
  {
    var m := s.memory.value;
    var drains :=
      if ticket.Rearm? && ticket.drain in m.drains then
        if ok then m.drains[ticket.drain := Armed(m.drains[ticket.drain].due)] else m.drains - {ticket.drain}
      else m.drains;
    s.(lastFailed := !ok, memory := Some(m.(drains := drains)))
  }

  // ---- steps ----

  ghost predicate Enabled(s: State, step: Step) {
    match step
    case Boot(w, r) => s.memory.None? && Mirrors(w, s.rows, WAKE_PREFIX) && Mirrors(r, s.rows, RETRY_PREFIX)
    case Fire => s.slot.Some?
    case _ => s.memory.Some? && EnabledIn(s.memory.value, step)
  }

  ghost predicate EnabledIn(m: Memory, step: Step) {
    match step
    case SuspendExit => m.suspended > 0
    case StartWrite(target) => m.queue != [] && m.writing.None? && IsEarliest(m.wakes, m.retries, target)
    case FinishWrite(_) => m.writing.Some?
    case DrainStart(due, now, later, _) => IsDue(m, due, now + DRAIN_SLACK_MS)
    case Dispatch(d) => d in m.drains && m.drains[d].Armed?
    case Finish(d, key, _) => d in m.drains && m.drains[d].Delivering? && key in m.drains[d].open
    case BatchEnd(d) => d in m.drains && m.drains[d].Delivering? && m.drains[d].open == {}
    case FlushCheck(target) => Idle(m) && IsEarliest(m.wakes, m.retries, target)
    case _ => true
  }

  function ApplyWake(s: State, key: Key, delay: int, now: int): State
    requires s.memory.Some?
  {
    if s.memory.value.suspended > 0 then s
    else Enqueue(WithTables(s, SetWake(TablesOf(s), key, now + Max(delay, 0))), Detached)
  }

  function ApplyCancel(s: State, key: Key): State
    requires s.memory.Some?
  {
    if s.memory.value.suspended > 0 || key !in s.memory.value.wakes then s
    else Enqueue(WithTables(s, DropWake(TablesOf(s), key)), Detached)
  }

  function ApplyStartWrite(s: State, target: Option<int>): State
    requires s.memory.Some? && s.memory.value.queue != []
  {
    var m := s.memory.value;
    var popped := s.(memory := Some(m.(queue := m.queue[1..])));
    if target == m.armedAt then Settle(popped, m.queue[0], true)
    else s.(memory := Some(m.(queue := m.queue[1..], writing := Some(Write(m.queue[0], target)))))
  }

  function ApplyFinishWrite(s: State, ok: bool): State
    requires s.memory.Some? && s.memory.value.writing.Some?
  {
    var m := s.memory.value;
    var w := m.writing.value;
    var done :=
      if ok then s.(slot := w.target, memory := Some(m.(writing := None, armedAt := w.target)))
      else s.(memory := Some(m.(writing := None)));
    Settle(done, w.ticket, ok)
  }

  function ApplyDrainStart(s: State, due: seq<Key>, retryAt: int): State
    requires s.memory.Some?
  {
    var moved := WithTables(s, MoveDue(TablesOf(s), due, retryAt));
    var m := moved.memory.value;
    var id := m.drainCount;
    var started := moved.(
      fires := if s.fires > 0 then s.fires - 1 else 0,
      memory := Some(m.(armedAt := None, drainCount := id + 1, drains := m.drains[id := Rearming(due)])));
    Enqueue(started, Rearm(id))
  }

  function ApplyDispatch(s: State, d: nat): State
    requires s.memory.Some? && d in s.memory.value.drains
  {
    var m := s.memory.value;
    var due := m.drains[d].due;
    s.(memory := Some(m.(drains := m.drains[d := Delivering(due, Elements(due))], delivered := m.delivered + |due|)))
  }

  function ApplyFinish(s: State, d: nat, key: Key, ok: bool): State
    requires s.memory.Some? && d in s.memory.value.drains && s.memory.value.drains[d].Delivering?
  {
    var settled := if ok then WithTables(s, DropRetry(TablesOf(s), key)) else s;
    var m := settled.memory.value;
    var drain := m.drains[d];
    settled.(memory := Some(m.(drains := m.drains[d := Delivering(drain.due, drain.open - {key})])))
  }

  function ApplyBatchEnd(s: State, d: nat): State
    requires s.memory.Some? && d in s.memory.value.drains
  {
    var m := s.memory.value;
    var ended := s.(memory := Some(m.(drains := m.drains - {d})));
    if |m.drains[d].due| > 0 then Enqueue(ended, Detached) else ended
  }

  function ApplyBoot(s: State, wakes: Times, retries: Times): State {
    var queue := if wakes != map[] || retries != map[] then [Detached] else [];
    s.(lastFailed := false, memory := Some(Memory(wakes, retries, None, 0, queue, None, map[], 0, 0)))
  }

  ghost function Apply(s: State, step: Step): State
    requires Enabled(s, step)
  {
    match step
    case Wake(key, delay, now) => ApplyWake(s, key, delay, now)
    case Cancel(key) => ApplyCancel(s, key)
    case SuspendEnter => s.(memory := Some(s.memory.value.(suspended := s.memory.value.suspended + 1)))
    case SuspendExit => s.(memory := Some(s.memory.value.(suspended := s.memory.value.suspended - 1)))
    case StartWrite(target) => ApplyStartWrite(s, target)
    case FinishWrite(ok) => ApplyFinishWrite(s, ok)
    case Fire => s.(slot := None, fires := s.fires + 1)
    case DrainStart(due, now, later, retryMs) => ApplyDrainStart(s, due, later + retryMs)
    case Dispatch(d) => ApplyDispatch(s, d)
    case Finish(d, key, ok) => ApplyFinish(s, d, key, ok)
    case BatchEnd(d) => ApplyBatchEnd(s, d)
    case FlushCheck(target) => if target == s.memory.value.armedAt then s else Enqueue(s, Flushing)
    case Crash => s.(fires := 0, lastFailed := false, memory := None)
    case Boot(w, r) => ApplyBoot(s, w, r)
  }

  /** A run from a switched-off isolate over any rows and any slot. */
  ghost predicate IsRun(states: seq<State>, steps: seq<Step>) {
    && |states| == |steps| + 1
    && states[0].memory.None?
    && forall i | 0 <= i < |steps| :: Follows(states, steps, i)
  }

  ghost predicate Follows(states: seq<State>, steps: seq<Step>, i: int)
    requires |states| == |steps| + 1 && 0 <= i < |steps|
  {
    Enabled(states[i], steps[i]) && states[i + 1] == Apply(states[i], steps[i])
  }

  // ---- what the moves do to the tables ----

  ghost predicate Mirrored(t: Tables) {
    Mirrors(t.wakes, t.rows, WAKE_PREFIX) && Mirrors(t.retries, t.rows, RETRY_PREFIX)
  }

  lemma SetWakeMirrored(t: Tables, key: Key, at: int)
    requires Mirrored(t)
    ensures Mirrored(SetWake(t, key, at))
  {
    PrefixesDisjoint();
    SetMirrors(t.wakes, t.rows, WAKE_PREFIX, key, at);
    OtherMirrors(t.retries, t.rows, SetWake(t, key, at).rows, RETRY_PREFIX, WAKE_PREFIX, key);
  }

  lemma SetRetryMirrored(t: Tables, key: Key, at: int)
    requires Mirrored(t)
    ensures Mirrored(SetRetry(t, key, at))
  {
    PrefixesDisjoint();
    SetMirrors(t.retries, t.rows, RETRY_PREFIX, key, at);
    OtherMirrors(t.wakes, t.rows, SetRetry(t, key, at).rows, WAKE_PREFIX, RETRY_PREFIX, key);
  }

  lemma DropWakeMirrored(t: Tables, key: Key)
    requires Mirrored(t)
    ensures Mirrored(DropWake(t, key))
  {
    if key in t.wakes {
      PrefixesDisjoint();
      DeleteMirrors(t.wakes, t.rows, WAKE_PREFIX, key);
      OtherMirrors(t.retries, t.rows, DropWake(t, key).rows, RETRY_PREFIX, WAKE_PREFIX, key);
    }
  }

  lemma DropRetryMirrored(t: Tables, key: Key)
    requires Mirrored(t)
    ensures Mirrored(DropRetry(t, key))
  {
    if key in t.retries {
      PrefixesDisjoint();
      DeleteMirrors(t.retries, t.rows, RETRY_PREFIX, key);
      OtherMirrors(t.wakes, t.rows, DropRetry(t, key).rows, WAKE_PREFIX, RETRY_PREFIX, key);
    }
  }

  lemma {:induction false} MoveDueMirrored(t: Tables, due: seq<Key>, retryAt: int)
    requires Mirrored(t)
    ensures Mirrored(MoveDue(t, due, retryAt))
    decreases |due|
  {
    if due == [] {
    } else {
      var n := |due| - 1;
      var before := MoveDue(t, due[..n], retryAt);
      MoveDueMirrored(t, due[..n], retryAt);
      DropWakeMirrored(before, due[n]);
      SetRetryMirrored(DropWake(before, due[n]), due[n], retryAt);
    }
  }

  lemma {:induction false} MoveDueMeaning(t: Tables, due: seq<Key>, retryAt: int)
    ensures var t' := MoveDue(t, due, retryAt);
      && (forall k :: k in t'.wakes <==> k in t.wakes && k !in due)
      && (forall k | k in t'.wakes :: t'.wakes[k] == t.wakes[k])
      && (forall k :: k in t'.retries <==> k in t.retries || k in due)
      && (forall k | k in t'.retries :: t'.retries[k] == if k in due then retryAt else t.retries[k])
    decreases |due|
  {
    if due == [] {
    } else {
      var n := |due| - 1;
      MoveDueMeaning(t, due[..n], retryAt);
      assert due == due[..n] + [due[n]];
    }
  }

  // ---- the slot covers the rows ----

  ghost predicate Covers(armed: Option<int>, wakes: Times, retries: Times) {
    && (forall k | k in wakes :: armed.Some? && armed.value <= wakes[k])
    && (forall k | k in retries :: armed.Some? && armed.value <= retries[k])
  }

  ghost predicate SlotInv(s: State) {
    s.memory.Some? ==>
      var m := s.memory.value;
      && (s.fires == 0 && m.armedAt.Some? ==> s.slot == m.armedAt)
      && (Idle(m) && !s.lastFailed ==> Covers(m.armedAt, m.wakes, m.retries))
      && (m.queue == [] && m.writing.Some? ==> Covers(m.writing.value.target, m.wakes, m.retries))
  }

  ghost predicate RowsInv(s: State) {
    s.memory.Some? ==> Mirrored(TablesOf(s))
  }

  ghost predicate Inv(s: State) {
    RowsInv(s) && SlotInv(s)
  }

  /** The maps and rows after a step, as a function of the maps and rows before it. */
  ghost function TablesAfter(t: Tables, suspended: bool, step: Step): Tables {
    match step
    case Wake(key, delay, now) => if suspended then t else SetWake(t, key, now + Max(delay, 0))
    case Cancel(key) => if suspended then t else DropWake(t, key)
    case DrainStart(due, now, later, retryMs) => MoveDue(t, due, later + retryMs)
    case Finish(_, key, ok) => if ok then DropRetry(t, key) else t
    case _ => t
  }

  lemma StepTables(s: State, step: Step)
    requires Enabled(s, step) && s.memory.Some? && !step.Crash?
    ensures Apply(s, step).memory.Some?
    ensures TablesOf(Apply(s, step)) == TablesAfter(TablesOf(s), s.memory.value.suspended > 0, step)
  {
  }

  lemma {:induction false} DrainMirrored(s: State, due: seq<Key>, retryAt: int)
    requires s.memory.Some? && Mirrored(TablesOf(s))
    ensures Mirrored(TablesOf(ApplyDrainStart(s, due, retryAt)))
  {
    MoveDueMirrored(TablesOf(s), due, retryAt);
  }

  lemma FinishMirrored(t: Tables, suspended: bool, step: Step, after: Tables)
    requires Mirrored(t) && step.Finish? && after == TablesAfter(t, suspended, step)
    ensures Mirrored(after)
  {
    DropRetryMirrored(t, step.key);
  }

  lemma MirroredAfter(t: Tables, suspended: bool, step: Step, after: Tables)
    requires Mirrored(t) && !step.DrainStart? && after == TablesAfter(t, suspended, step)
    ensures Mirrored(after)
  {
    match step
    case Wake(key, delay, now) => SetWakeMirrored(t, key, now + Max(delay, 0));
    case Cancel(key) => DropWakeMirrored(t, key);
    case Finish(_, _, _) => FinishMirrored(t, suspended, step, after);
    case _ =>
  }

  lemma SlotInvStep(s: State, step: Step)
    requires SlotInv(s) && Enabled(s, step)
    ensures SlotInv(Apply(s, step))
  {
  }

  lemma DrainRows(s: State, step: Step)
    requires RowsInv(s) && Enabled(s, step) && step.DrainStart?
    ensures RowsInv(Apply(s, step))
  {
    DrainMirrored(s, step.due, step.later + step.retryMs);
    assert Apply(s, step) == ApplyDrainStart(s, step.due, step.later + step.retryMs);
  }

  lemma MemoryRows(s: State, step: Step)
    requires RowsInv(s) && Enabled(s, step) && s.memory.Some? && !step.Crash? && !step.DrainStart?
    ensures RowsInv(Apply(s, step))
  {
    StepTables(s, step);
    MirroredAfter(TablesOf(s), s.memory.value.suspended > 0, step, TablesOf(Apply(s, step)));
  }

  lemma BootRows(s: State, step: Step)
    requires Enabled(s, step) && (s.memory.None? || step.Crash?)
    ensures RowsInv(Apply(s, step))
  {
  }

  lemma InvStep(s: State, step: Step)
    requires Inv(s) && Enabled(s, step)
    ensures Inv(Apply(s, step))
  {
    SlotInvStep(s, step);
    if step.DrainStart? {
      DrainRows(s, step);
    } else if s.memory.Some? && !step.Crash? {
      MemoryRows(s, step);
    } else {
      BootRows(s, step);
    }
  }

  lemma {:induction false} RunInv(states: seq<State>, steps: seq<Step>, i: nat)
    requires IsRun(states, steps) && i < |states|
    ensures Inv(states[i])
    decreases i
  {
    if i == 0 {
    } else {
      RunInv(states, steps, i - 1);
      assert Follows(states, steps, i - 1);
      InvStep(states[i - 1], steps[i - 1]);
    }
  }

  /** A settled isolate: no slot write outstanding, none failed last, no alarm waiting for its drain. */
  predicate Quiet(s: State) {
    s.memory.Some? && s.fires == 0 && !s.lastFailed && Idle(s.memory.value)
  }

  /** The slot value is at or before every row. */
  ghost predicate RowsCoveredBy(rows: Rows, slot: Option<int>) {
    && (forall k | HasTime(rows, WAKE_PREFIX, k) :: slot.Some? && slot.value <= rows[WAKE_PREFIX + k].at)
    && (forall k | HasTime(rows, RETRY_PREFIX, k) :: slot.Some? && slot.value <= rows[RETRY_PREFIX + k].at)
  }

  /** Every durable time is at or after the time in the durable slot. */
  ghost predicate SlotCovers(s: State) {
    RowsCoveredBy(s.rows, s.slot)
  }

  lemma ArmedCovers(s: State)
    requires Inv(s) && s.memory.Some? && s.fires == 0
    requires Covers(s.memory.value.armedAt, s.memory.value.wakes, s.memory.value.retries)
    ensures SlotCovers(s)
  {
    var m := s.memory.value;
    forall k | HasTime(s.rows, WAKE_PREFIX, k) ensures s.slot.Some? && s.slot.value <= s.rows[WAKE_PREFIX + k].at {
      assert k in m.wakes;
    }
    forall k | HasTime(s.rows, RETRY_PREFIX, k) ensures s.slot.Some? && s.slot.value <= s.rows[RETRY_PREFIX + k].at {
      assert k in m.retries;
    }
  }

  /** Main result: over every run, a quiet state has a slot that covers every row. */
  lemma SlotCoverage(states: seq<State>, steps: seq<Step>, i: nat)
    requires IsRun(states, steps) && i < |states| && Quiet(states[i])
    ensures SlotCovers(states[i])
  {
    RunInv(states, steps, i);
    ArmedCovers(states[i]);
  }

  /** The frame in which the awaited slot write of a flush or of a drain returns without throwing. */
  predicate WriteReturns(s: State, step: Step) {
    s.memory.Some? &&
    var m := s.memory.value;
    match step
    case FlushCheck(target) => target == m.armedAt
    case StartWrite(target) => m.queue != [] && !m.queue[0].Detached? && target == m.armedAt
    case FinishWrite(ok) => ok && m.writing.Some? && !m.writing.value.ticket.Detached?
    case _ => false
  }

  /**
   * A flush that returns repairs the slot even after a failed write, and a drain that goes on
   * to dispatch has re-armed the slot for everything it leaves behind.
   */
  lemma FlushRestores(states: seq<State>, steps: seq<Step>, i: nat)
    requires IsRun(states, steps) && i < |steps|
    requires WriteReturns(states[i], steps[i])
    requires states[i + 1].fires == 0 && states[i + 1].memory.Some? && Idle(states[i + 1].memory.value)
    ensures SlotCovers(states[i + 1])
  {
    RunInv(states, steps, i);
    assert Follows(states, steps, i);
    RunInv(states, steps, i + 1);
    ArmedCovers(states[i + 1]);
  }

  lemma EarliestCovers(s: State, target: Option<int>)
    requires RowsInv(s) && s.memory.Some? && IsEarliest(s.memory.value.wakes, s.memory.value.retries, target)
    ensures RowsCoveredBy(s.rows, target)
  {
    var m := s.memory.value;
    forall k | HasTime(s.rows, WAKE_PREFIX, k) ensures target.Some? && target.value <= s.rows[WAKE_PREFIX + k].at {
      assert k in m.wakes;
    }
    forall k | HasTime(s.rows, RETRY_PREFIX, k) ensures target.Some? && target.value <= s.rows[RETRY_PREFIX + k].at {
      assert k in m.retries;
    }
  }

  predicate IsWriting(s: State, target: Option<int>) {
    s.memory.Some? && s.memory.value.writing.Some? && s.memory.value.writing.value.target == target
  }

  lemma WritingStep(s: State, step: Step, target: Option<int>)
    requires IsWriting(s, target) && Enabled(s, step) && !step.FinishWrite? && !step.Crash?
    ensures IsWriting(Apply(s, step), target)
  {
  }

  lemma {:induction false} WritingStays(states: seq<State>, steps: seq<Step>, a: nat, b: nat, target: Option<int>)
    requires IsRun(states, steps) && a <= b < |states| && IsWriting(states[a], target)
    requires forall i | a <= i < b :: !steps[i].FinishWrite? && !steps[i].Crash?
    ensures IsWriting(states[b], target)
    decreases b
  {
    if a == b {
    } else {
      WritingStays(states, steps, a, b - 1, target);
      assert Follows(states, steps, b - 1);
      WritingStep(states[b - 1], steps[b - 1], target);
    }
  }

  /**
   * Main result: whatever ran meanwhile, fires and further writes queued included, a slot write that
   * succeeds leaves the slot at or before every row as the rows stood when the write began.
   */
  lemma WriteCovers(states: seq<State>, steps: seq<Step>, a: nat, b: nat)
    requires IsRun(states, steps) && a < b < |steps|
    requires steps[a].StartWrite? && IsWriting(states[a + 1], steps[a].target) && steps[b] == FinishWrite(true)
    requires forall i | a < i < b :: !steps[i].FinishWrite? && !steps[i].Crash?
    ensures RowsCoveredBy(states[a].rows, states[b + 1].slot)
  {
    RunInv(states, steps, a);
    assert Follows(states, steps, a);
    EarliestCovers(states[a], steps[a].target);
    WritingStays(states, steps, a + 1, b, steps[a].target);
    assert Follows(states, steps, b);
  }

  // ---- recovery after a crash ----

  lemma {:induction false} MinOfValues(t: Times) returns (k: Key)
    requires t != map[]
    ensures k in t && forall j | j in t :: t[k] <= t[j]
    decreases |t|
  {
    k :| k in t;
    var rest := t - {k};
    if rest != map[] {
      assert |rest.Keys| == |t.Keys - {k}|;
      var j := MinOfValues(rest);
      if t[j] < t[k] {
        forall i | i in t ensures t[j] <= t[i] {
          assert i == k || i in rest;
        }
        k := j;
      } else {
        forall i | i in t ensures t[k] <= t[i] {
          assert i == k || i in rest;
        }
      }
    } else {
      assert rest.Keys == t.Keys - {k};
      assert rest.Keys == {};
      assert forall i | i in t.Keys :: i == k;
    }
  }

  lemma EarliestExists(wakes: Times, retries: Times) returns (t: Option<int>)
    ensures IsEarliest(wakes, retries, t)
  {
    if wakes == map[] && retries == map[] {
      return None;
    }
    if wakes == map[] {
      var k := MinOfValues(retries);
      return Some(retries[k]);
    }
    var j := MinOfValues(wakes);
    if retries == map[] {
      return Some(wakes[j]);
    }
    var k := MinOfValues(retries);
    return Some(if wakes[j] <= retries[k] then wakes[j] else retries[k]);
  }

  lemma EarliestUnique(wakes: Times, retries: Times, s: Option<int>, t: Option<int>)
    requires IsEarliest(wakes, retries, s) && IsEarliest(wakes, retries, t)
    ensures s == t
  {
  }

  ghost predicate Reaches(s: State, steps: seq<Step>, s': State)
    decreases |steps|
  {
    if steps == [] then s == s'
    else Enabled(s, steps[0]) && Reaches(Apply(s, steps[0]), steps[1..], s')
  }

  /** The one queued write of a booted isolate, when it succeeds. */
  lemma FirstWrite(s: State, t: Option<int>)
    requires Inv(s) && s.fires == 0 && s.memory.Some? && s.memory.value.armedAt.None?
    requires s.memory.value.queue == [Detached] && s.memory.value.writing.None?
    requires IsEarliest(s.memory.value.wakes, s.memory.value.retries, t) && t.Some?
    ensures Enabled(s, StartWrite(t)) && Enabled(Apply(s, StartWrite(t)), FinishWrite(true))
    ensures var s' := Apply(Apply(s, StartWrite(t)), FinishWrite(true));
      && Quiet(s') && s'.slot == t && TablesOf(s') == TablesOf(s) && SlotCovers(s')
  {
    var s1 := Apply(s, StartWrite(t));
    var s2 := Apply(s1, FinishWrite(true));
    InvStep(s, StartWrite(t));
    InvStep(s1, FinishWrite(true));
    ArmedCovers(s2);
  }

  /**
   * From any crash point, boot and at most one successful slot write bring back coverage:
   * the rows are untouched and the slot holds exactly the earliest of them.
   */
  lemma BootRecovers(s: State, wakes: Times, retries: Times) returns (steps: seq<Step>, s': State)
    requires s.memory.None? && s.fires == 0 && Enabled(s, Boot(wakes, retries))
    ensures Reaches(Apply(s, Boot(wakes, retries)), steps, s')
    ensures steps == [] || exists t :: steps == [StartWrite(t), FinishWrite(true)]
    ensures Quiet(s') && s'.rows == s.rows && SlotCovers(s')
    ensures wakes != map[] || retries != map[] ==> IsEarliest(wakes, retries, s'.slot)
  {
    var boot := Boot(wakes, retries);
    var s1 := Apply(s, boot);
    InvStep(s, boot);
    if wakes == map[] && retries == map[] {
      steps, s' := [], s1;
      ArmedCovers(s');
    } else {
      var t := EarliestExists(wakes, retries);
      FirstWrite(s1, t);
      steps := [StartWrite(t), FinishWrite(true)];
      s' := Apply(Apply(s1, StartWrite(t)), FinishWrite(true));
      assert steps[1..] == [FinishWrite(true)] && steps[1..][1..] == [];
    }
  }

  /** Boot is always possible: some pair of maps mirrors the rows. */
  lemma LoadTimes(rows: Rows, prefix: string) returns (t: Times)
    ensures Mirrors(t, rows, prefix)
  {
    var listed := set row | row in rows && prefix <= row && rows[row].Num? :: row[|prefix|..];
    t := map k | k in listed && prefix + k in rows && rows[prefix + k].Num? :: rows[prefix + k].at;
    forall k ensures k in t <==> HasTime(rows, prefix, k) {
      if HasTime(rows, prefix, k) {
        assert (prefix + k)[|prefix|..] == k;
        assert prefix <= prefix + k;
        assert k in listed;
      }
    }
  }

  /** The rows determine what a boot loads. */
  lemma BootDetermined(s: State, wakes: Times, retries: Times, wakes': Times, retries': Times)
    requires Enabled(s, Boot(wakes, retries)) && Enabled(s, Boot(wakes', retries'))
    ensures wakes == wakes' && retries == retries'
  {
    MirrorUnique(wakes, wakes', s.rows, WAKE_PREFIX);
    MirrorUnique(retries, retries', s.rows, RETRY_PREFIX);
  }

  // ---- no lost wake ----

  /** The key has a wake row or a retry row, so some later alarm will deliver it. */
  ghost predicate Kept(s: State, key: Key) {
    HasTime(s.rows, WAKE_PREFIX, key) || HasTime(s.rows, RETRY_PREFIX, key)
  }

  /** Exactly which frames take the last row of a kept key. */
  predicate TakesLastRow(s: State, step: Step, key: Key) {
    s.memory.Some? &&
    var m := s.memory.value;
    || (step == Cancel(key) && m.suspended == 0 && key in m.wakes && key !in m.retries)
    || (step.Finish? && step.key == key && step.ok && key in m.retries && key !in m.wakes)
  }

  lemma KeptByTables(s: State, key: Key)
    requires RowsInv(s) && s.memory.Some?
    ensures Kept(s, key) <==> key in s.memory.value.wakes || key in s.memory.value.retries
  {
  }

  lemma TablesLossExactly(t: Tables, suspended: bool, step: Step, key: Key)
    requires Mirrored(t) && (key in t.wakes || key in t.retries)
    ensures var t' := TablesAfter(t, suspended, step);
      !(key in t'.wakes || key in t'.retries) <==>
        || (step == Cancel(key) && !suspended && key in t.wakes && key !in t.retries)
        || (step.Finish? && step.key == key && step.ok && key in t.retries && key !in t.wakes)
  {
    if step.DrainStart? {
      MoveDueMeaning(t, step.due, step.later + step.retryMs);
    }
  }

  /** One frame loses a kept key if and only if it takes its last row. */
  lemma LossExactly(s: State, step: Step, key: Key)
    requires Inv(s) && Enabled(s, step) && Kept(s, key)
    ensures !Kept(Apply(s, step), key) <==> TakesLastRow(s, step, key)
  {
    if s.memory.Some? && !step.Crash? {
      InvStep(s, step);
      StepTables(s, step);
      KeptByTables(s, key);
      KeptByTables(Apply(s, step), key);
      TablesLossExactly(TablesOf(s), s.memory.value.suspended > 0, step, key);
    }
  }

  lemma KeptNext(states: seq<State>, steps: seq<Step>, i: nat, key: Key)
    requires IsRun(states, steps) && i < |steps|
    requires Kept(states[i], key) && !TakesLastRow(states[i], steps[i], key)
    ensures Kept(states[i + 1], key)
  {
    RunInv(states, steps, i);
    assert Follows(states, steps, i);
    LossExactly(states[i], steps[i], key);
  }

  /** No step from state i to state j takes the last row of the key. */
  ghost predicate NeverReleased(states: seq<State>, steps: seq<Step>, i: nat, j: nat, key: Key)
    requires j <= |steps| && |steps| < |states|
  {
    forall n | i <= n < j :: !TakesLastRow(states[n], steps[n], key)
  }

  /** Main result: a key that is kept at one point of a run stays kept until it is released. */
  lemma NoLostWake(states: seq<State>, steps: seq<Step>, i: nat, j: nat, key: Key)
    requires IsRun(states, steps) && i <= j < |states|
    requires Kept(states[i], key) && NeverReleased(states, steps, i, j, key)
    ensures Kept(states[j], key)
  {
    forall n: nat | i <= n < j && Kept(states[n], key) ensures Kept(states[n + 1], key) {
      KeptNext(states, steps, n, key);
    }
    KeptChain(states, i, j, key);
  }

  lemma {:induction false} KeptChain(states: seq<State>, i: nat, j: nat, key: Key)
    requires i <= j < |states| && Kept(states[i], key)
    requires forall n: nat | i <= n < j && Kept(states[n], key) :: Kept(states[n + 1], key)
    ensures Kept(states[j], key)
    decreases j
  {
    if i == j {
    } else {
      KeptChain(states, i, j - 1, key);
      assert Kept(states[j - 1 + 1], key);
    }
  }

  /** An unsuspended wake keeps its key. */
  lemma WakeKeeps(s: State, key: Key, delay: int, now: int)
    requires Inv(s) && s.memory.Some?
    ensures s.memory.value.suspended == 0 ==> Kept(Apply(s, Wake(key, delay, now)), key)
    ensures s.memory.value.suspended > 0 ==> Apply(s, Wake(key, delay, now)) == s && Apply(s, Cancel(key)) == s
  {
  }

  /** A cancel leaves every retry row and every row of another key. */
  lemma CancelSpares(s: State, key: Key, other: Key)
    requires Inv(s) && s.memory.Some?
    ensures HasTime(Apply(s, Cancel(key)).rows, RETRY_PREFIX, other) == HasTime(s.rows, RETRY_PREFIX, other)
    ensures other != key ==> HasTime(Apply(s, Cancel(key)).rows, WAKE_PREFIX, other) == HasTime(s.rows, WAKE_PREFIX, other)
  {
    PrefixesDisjoint();
    if WAKE_PREFIX + other == WAKE_PREFIX + key {
      SuffixUnique(WAKE_PREFIX, other, key);
    }
  }

  // ---- drains ----

  lemma DrainTables(t: Tables, due: seq<Key>, cutoff: int, retryAt: int)
    requires forall k :: k in due <==> (k in t.wakes && t.wakes[k] <= cutoff) || (k in t.retries && t.retries[k] <= cutoff)
    ensures var t' := MoveDue(t, due, retryAt);
      && (forall k | k in due :: k !in t'.wakes && k in t'.retries && t'.retries[k] == retryAt)
      && (forall k | k !in due :: (k in t.wakes <==> k in t'.wakes) && (k in t.retries <==> k in t'.retries))
      && (forall k | k in t'.wakes :: cutoff < t'.wakes[k] == t.wakes[k])
      && ((forall k | k in t'.retries :: cutoff < t'.retries[k]) <==> (due == [] || cutoff < retryAt))
  {
    MoveDueMeaning(t, due, retryAt);
    if due != [] {
      assert due[0] in due;
    }
  }

  /**
   * A drain moves every due key, once, to a retry row. Whether the alarm it re-arms could be
   * due at once is exactly the question whether it moved a key to a time within the cutoff.
   */
  lemma DrainExactly(s: State, due: seq<Key>, now: int, later: int, retryMs: int)
    requires Inv(s) && Enabled(s, DrainStart(due, now, later, retryMs))
    ensures var s' := Apply(s, DrainStart(due, now, later, retryMs));
      var m := s.memory.value;
      var m' := s'.memory.value;
      var cutoff := now + DRAIN_SLACK_MS;
      && (forall k | k in due :: k !in m'.wakes && k in m'.retries && m'.retries[k] == later + retryMs)
      && (forall k | k !in due :: (k in m.wakes <==> k in m'.wakes) && (k in m.retries <==> k in m'.retries))
      && (forall k | k in m'.wakes :: cutoff < m'.wakes[k] == m.wakes[k])
      && ((forall k | k in m'.retries :: cutoff < m'.retries[k]) <==> (due == [] || cutoff < later + retryMs))
  {
    StepTables(s, DrainStart(due, now, later, retryMs));
    DrainTables(TablesOf(s), due, now + DRAIN_SLACK_MS, later + retryMs);
  }

  /** With a retry delay above the slack and a clock that never goes back, no time is left within the cutoff. */
  lemma DrainProgress(s: State, due: seq<Key>, now: int, later: int, retryMs: int)
    requires Inv(s) && Enabled(s, DrainStart(due, now, later, retryMs))
    requires DRAIN_SLACK_MS < retryMs && now <= later
    ensures var m' := Apply(s, DrainStart(due, now, later, retryMs)).memory.value;
      forall t: Option<int> | IsEarliest(m'.wakes, m'.retries, t) && t.Some? :: now + DRAIN_SLACK_MS < t.value
  {
    DrainExactly(s, due, now, later, retryMs);
  }

  lemma DrainMovesKey(s: State, older: nat, key: Key, due: seq<Key>, now: int, later: int, retryMs: int)
    requires Inv(s) && Enabled(s, DrainStart(due, now, later, retryMs)) && key in due
    requires Enabled(s, Finish(older, key, true)) && older < s.memory.value.drainCount
    ensures var drained := Apply(s, DrainStart(due, now, later, retryMs));
      && Inv(drained) && Kept(drained, key)
      && Enabled(drained, Finish(older, key, true))
      && TakesLastRow(drained, Finish(older, key, true), key)
  {
    var start := DrainStart(due, now, later, retryMs);
    InvStep(s, start);
    DrainExactly(s, due, now, later, retryMs);
    StepTables(s, start);
    KeptByTables(Apply(s, start), key);
  }

  /**
   * Overlapping deliveries of one key share its retry row. A wake that is drained while an
   * older delivery of its key is open is dropped when that older delivery succeeds, although
   * its own drain has dispatched nothing yet.
   */
  lemma OverlapDropsNewerWake(s: State, older: nat, key: Key, due: seq<Key>, now: int, later: int, retryMs: int)
    requires Inv(s) && Enabled(s, DrainStart(due, now, later, retryMs)) && key in due
    requires Enabled(s, Finish(older, key, true)) && older < s.memory.value.drainCount
    ensures var drained := Apply(s, DrainStart(due, now, later, retryMs));
      && Kept(drained, key)
      && Enabled(drained, Finish(older, key, true))
      && var finished := Apply(drained, Finish(older, key, true));
         !Kept(finished, key) && finished.memory.value.drains[s.memory.value.drainCount] == Rearming(due)
  {
    DrainMovesKey(s, older, key, due, now, later, retryMs);
    LossExactly(Apply(s, DrainStart(due, now, later, retryMs)), Finish(older, key, true), key);
  }
}
