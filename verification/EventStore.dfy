/**
 * Appends and deletes of one store, chained per session. A call queues a task behind the tail
 * of its session; a task runs its transaction when the tail before it has settled; the tail of
 * a task settles after it, whatever its result, and takes itself out of the tail map.
 */
module EventStore {
  import opened Prelude
  import opened EventTable

  datatype Op = Append(events: seq<Payload>) | Delete

  datatype Call = Call(sid: SessionId, op: Op)

  /** Waiting for the tail before it; running past its commit; settled; its own tail settled. */
  datatype Phase = Waiting | Busy | Settled(ok: bool) | Cleared

  datatype State = State(
    rows: Table,
    tails: map<SessionId, nat>,
    calls: seq<Call>,
    prevs: seq<Option<nat>>,
    phases: seq<Phase>,
    commits: seq<nat>)

  datatype Step =
    | Enqueue(sid: SessionId, op: Op)
    | Start(id: nat, broken: bool, last: int)
    | Finish(id: nat)
    | Clear(id: nat)

  ghost predicate Below(ids: seq<nat>, n: nat) {
    forall i | 0 <= i < |ids| :: ids[i] < n
  }

  ghost predicate Shape(s: State) {
    |s.calls| == |s.prevs| == |s.phases| && Below(s.commits, |s.calls|)
  }

  ghost predicate Enabled(s: State, step: Step) {
    && Shape(s)
    && match step
       case Enqueue(sid, op) => op.Append? ==> op.events != []
       case Start(id, broken, last) =>
         && id < |s.calls| && s.phases[id].Waiting?
         && (s.prevs[id].Some? ==> s.prevs[id].value < |s.calls| && s.phases[s.prevs[id].value].Cleared?)
         && IsLastSeq(s.rows, s.calls[id].sid, last)
       case Finish(id) => id < |s.calls| && s.phases[id].Busy?
       case Clear(id) => id < |s.calls| && s.phases[id].Settled?
  }

  function ApplyEnqueue(s: State, sid: SessionId, op: Op): State {
    var id := |s.calls|;
    s.(tails := s.tails[sid := id],
       calls := s.calls + [Call(sid, op)],
       prevs := s.prevs + [if sid in s.tails then Some(s.tails[sid]) else None],
       phases := s.phases + [Waiting])
  }

  function ApplyStart(s: State, id: nat, broken: bool, last: int): State
    requires id < |s.calls| && id < |s.phases|
  {
    var call := s.calls[id];
    if broken then s.(phases := s.phases[id := Settled(false)])
    else match call.op
      case Append(events) =>
        s.(rows := AppendRows(s.rows, call.sid, last + 1, events), phases := s.phases[id := Busy], commits := s.commits + [id])
      case Delete =>
        s.(rows := DeleteRows(s.rows, call.sid), phases := s.phases[id := Settled(true)], commits := s.commits + [id])
  }

  function ApplyClear(s: State, id: nat): State
    requires id < |s.calls| && id < |s.phases|
  {
    var sid := s.calls[id].sid;
    s.(phases := s.phases[id := Cleared],
       tails := if sid in s.tails && s.tails[sid] == id then s.tails - {sid} else s.tails)
  }

  ghost function Apply(s: State, step: Step): State
    requires Enabled(s, step)
  {
    match step
    case Enqueue(sid, op) => ApplyEnqueue(s, sid, op)
    case Start(id, broken, last) => ApplyStart(s, id, broken, last)
    case Finish(id) => s.(phases := s.phases[id := Settled(true)])
    case Clear(id) => ApplyClear(s, id)
  }

  /** A run over a table that earlier processes left, with no task outstanding. */
  ghost predicate IsRun(states: seq<State>, steps: seq<Step>) {
    && |states| == |steps| + 1
    && (forall sid :: GapFree(states[0].rows, sid))
    && states[0] == State(states[0].rows, map[], [], [], [], [])
    && forall i :: 0 <= i < |steps| ==> Enabled(states[i], steps[i]) && states[i + 1] == Apply(states[i], steps[i])
  }

  // ---- the reference: committed calls replayed on one session's log ----

  ghost function BaseLog(t: Table, sid: SessionId): (log: seq<Payload>)
    requires GapFree(t, sid)
    ensures IsLog(t, sid, log)
  {
    var log :| IsLog(t, sid, log);
    log
  }

  ghost predicate AllGapFree(t: Table) {
    forall sid :: GapFree(t, sid)
  }

  ghost function Replay(initial: Table, calls: seq<Call>, commits: seq<nat>, sid: SessionId): seq<Payload>
    requires AllGapFree(initial) && Below(commits, |calls|)
    decreases |commits|
  {
    if commits == [] then BaseLog(initial, sid)
    else
      var call := calls[commits[|commits| - 1]];
      var before := Replay(initial, calls, commits[..|commits| - 1], sid);
      if call.sid != sid then before
      else if call.op.Append? then before + call.op.events
      else []
  }

  lemma {:induction false} ReplayMoreCalls(initial: Table, calls: seq<Call>, call: Call, commits: seq<nat>, sid: SessionId)
    requires AllGapFree(initial) && Below(commits, |calls|)
    ensures Replay(initial, calls + [call], commits, sid) == Replay(initial, calls, commits, sid)
    decreases |commits|
  {
    if commits == [] {
    } else {
      ReplayMoreCalls(initial, calls, call, commits[..|commits| - 1], sid);
    }
  }

  lemma ReplayCommit(initial: Table, calls: seq<Call>, commits: seq<nat>, id: nat, sid: SessionId)
    requires AllGapFree(initial) && id < |calls| && Below(commits, |calls|)
    ensures Below(commits + [id], |calls|)
    ensures Replay(initial, calls, commits + [id], sid) ==
            var before := Replay(initial, calls, commits, sid);
            if calls[id].sid != sid then before
            else if calls[id].op.Append? then before + calls[id].op.events
            else []
  {
    assert (commits + [id])[..|commits + [id]| - 1] == commits;
  }

  // ---- invariants ----

  /** A task waits for the call just before it in its session, or for nothing because all are done. */
  ghost predicate ChainInv(s: State)
    requires Shape(s)
  {
    && (forall i | 0 <= i < |s.calls| && s.prevs[i].Some? ::
          s.prevs[i].value < i && s.calls[s.prevs[i].value].sid == s.calls[i].sid)
    && (forall i, j | 0 <= i < |s.calls| && s.prevs[i].Some? && s.prevs[i].value < j < i :: s.calls[j].sid != s.calls[i].sid)
    && (forall i, j | 0 <= j < i < |s.calls| && s.prevs[i].None? && s.calls[j].sid == s.calls[i].sid :: s.phases[j].Cleared?)
  }

  /** A task has started only when every earlier call of its session is over. */
  ghost predicate SerialInv(s: State)
    requires Shape(s)
  {
    forall i, j | 0 <= j < i < |s.calls| && s.calls[j].sid == s.calls[i].sid && !s.phases[i].Waiting? :: s.phases[j].Cleared?
  }

  /** The tail map names the last call of a session exactly while some call of it is outstanding. */
  ghost predicate TailInv(s: State)
    requires Shape(s)
  {
    && (forall sid | sid in s.tails ::
          && s.tails[sid] < |s.calls| && s.calls[s.tails[sid]].sid == sid && !s.phases[s.tails[sid]].Cleared?
          && forall j | s.tails[sid] < j < |s.calls| :: s.calls[j].sid != sid)
    && (forall i | 0 <= i < |s.calls| && s.calls[i].sid !in s.tails :: s.phases[i].Cleared?)
  }

  ghost predicate CommitInv(s: State)
    requires Shape(s)
  {
    && (forall i | 0 <= i < |s.commits| :: !s.phases[s.commits[i]].Waiting?)
    && (forall a, b | 0 <= a < b < |s.commits| && s.calls[s.commits[a]].sid == s.calls[s.commits[b]].sid :: s.commits[a] < s.commits[b])
  }

  ghost predicate LogInv(s: State, initial: Table)
    requires Shape(s) && AllGapFree(initial)
  {
    forall sid :: IsLog(s.rows, sid, Replay(initial, s.calls, s.commits, sid))
  }

  ghost predicate Inv(s: State, initial: Table) {
    && AllGapFree(initial)
    && Shape(s) && ChainInv(s) && SerialInv(s) && TailInv(s) && CommitInv(s) && LogInv(s, initial)
  }

  lemma EnqueueInv(s: State, initial: Table, sid: SessionId, op: Op)
    requires Inv(s, initial)
    ensures Inv(ApplyEnqueue(s, sid, op), initial)
  {
    EnqueueChain(s, sid, op);
    EnqueueTails(s, sid, op);
    EnqueueRest(s, sid, op);
    forall any ensures IsLog(s.rows, any, Replay(initial, s.calls + [Call(sid, op)], s.commits, any)) {
      ReplayMoreCalls(initial, s.calls, Call(sid, op), s.commits, any);
    }
  }

  lemma EnqueueChain(s: State, sid: SessionId, op: Op)
    requires Shape(s) && ChainInv(s) && TailInv(s)
    ensures var s' := ApplyEnqueue(s, sid, op); Shape(s') && ChainInv(s')
  {
  }

  lemma EnqueueTails(s: State, sid: SessionId, op: Op)
    requires Shape(s) && TailInv(s)
    ensures var s' := ApplyEnqueue(s, sid, op); Shape(s') && TailInv(s')
  {
  }

  lemma EnqueueRest(s: State, sid: SessionId, op: Op)
    requires Shape(s) && SerialInv(s) && CommitInv(s)
    ensures var s' := ApplyEnqueue(s, sid, op); Shape(s') && SerialInv(s') && CommitInv(s')
  {
  }

  /** A change of one phase that starts no task early and reopens none keeps the chain. */
  lemma PhaseChange(s: State, s': State, id: nat)
    requires Shape(s) && Shape(s') && ChainInv(s) && SerialInv(s)
    requires s'.calls == s.calls && s'.prevs == s.prevs && id < |s.calls| && s'.phases == s.phases[id := s'.phases[id]]
    requires !s.phases[id].Cleared?
    requires s.phases[id].Waiting? ==> forall j | 0 <= j < id && s.calls[j].sid == s.calls[id].sid :: s.phases[j].Cleared?
    ensures ChainInv(s') && SerialInv(s')
  {
  }

  /** A change of one phase that ends no task keeps the tails. */
  lemma PhaseTails(s: State, s': State, id: nat)
    requires Shape(s) && Shape(s') && TailInv(s)
    requires s'.calls == s.calls && s'.tails == s.tails && id < |s.calls| && s'.phases == s.phases[id := s'.phases[id]]
    requires !s.phases[id].Cleared? && !s'.phases[id].Cleared?
    ensures TailInv(s')
  {
  }

  lemma StartAfterAll(s: State, id: nat)
    requires Shape(s) && ChainInv(s) && SerialInv(s) && id < |s.calls|
    requires s.prevs[id].Some? ==> s.prevs[id].value < |s.calls| && s.phases[s.prevs[id].value].Cleared?
    ensures forall j | 0 <= j < id && s.calls[j].sid == s.calls[id].sid :: s.phases[j].Cleared?
  {
    forall j | 0 <= j < id && s.calls[j].sid == s.calls[id].sid ensures s.phases[j].Cleared? {
      if s.prevs[id].Some? && j != s.prevs[id].value {
        assert !s.phases[s.prevs[id].value].Waiting?;
      }
    }
  }

  lemma StartOrder(s: State, initial: Table, id: nat, broken: bool, last: int)
    requires Inv(s, initial) && Enabled(s, Start(id, broken, last))
    ensures var s' := ApplyStart(s, id, broken, last);
      Shape(s') && ChainInv(s') && SerialInv(s') && TailInv(s') && CommitInv(s')
  {
    var s' := ApplyStart(s, id, broken, last);
    StartAfterAll(s, id);
    PhaseChange(s, s', id);
    PhaseTails(s, s', id);
    StartCommits(s, s', id);
  }

  lemma StartCommits(s: State, s': State, id: nat)
    requires Shape(s) && Shape(s') && SerialInv(s) && CommitInv(s) && id < |s.calls| && s.phases[id].Waiting?
    requires forall j | 0 <= j < id && s.calls[j].sid == s.calls[id].sid :: s.phases[j].Cleared?
    requires s'.calls == s.calls && s'.phases == s.phases[id := s'.phases[id]] && !s'.phases[id].Waiting?
    requires s'.commits == s.commits || s'.commits == s.commits + [id]
    ensures CommitInv(s')
  {
    forall a | 0 <= a < |s.commits| && s.calls[s.commits[a]].sid == s.calls[id].sid ensures s.commits[a] < id {
      assert !s.phases[s.commits[a]].Waiting?;
    }
  }

  lemma StartLogs(s: State, initial: Table, id: nat, broken: bool, last: int)
    requires Inv(s, initial) && Enabled(s, Start(id, broken, last))
    ensures var s' := ApplyStart(s, id, broken, last); Shape(s') && LogInv(s', initial)
  {
    var s' := ApplyStart(s, id, broken, last);
    var call := s.calls[id];
    if !broken {
      var log := Replay(initial, s.calls, s.commits, call.sid);
      LastSeqOfLog(s.rows, call.sid, log, last);
      if call.op.Append? {
        AppendMeaning(s.rows, call.sid, log, call.op.events);
      } else {
        DeleteMeaning(s.rows, call.sid);
      }
      forall sid ensures IsLog(s'.rows, sid, Replay(initial, s'.calls, s'.commits, sid)) {
        ReplayCommit(initial, s.calls, s.commits, id, sid);
        if sid != call.sid {
          assert SameSession(s.rows, s'.rows, sid);
          assert IsLog(s.rows, sid, Replay(initial, s.calls, s.commits, sid));
        }
      }
    }
  }

  lemma InvStep(s: State, initial: Table, step: Step)
    requires Inv(s, initial) && Enabled(s, step)
    ensures Inv(Apply(s, step), initial)
  {
    match step {
      case Enqueue(sid, op) => EnqueueInv(s, initial, sid, op);
      case Start(id, broken, last) =>
        StartOrder(s, initial, id, broken, last);
        StartLogs(s, initial, id, broken, last);
      case Finish(id) => FinishInv(s, initial, id);
      case Clear(id) => ClearInv(s, initial, id);
    }
  }

  lemma ClearInv(s: State, initial: Table, id: nat)
    requires Inv(s, initial) && Enabled(s, Clear(id))
    ensures Inv(ApplyClear(s, id), initial)
  {
    PhaseChange(s, ApplyClear(s, id), id);
    ClearTails(s, id);
  }

  lemma ClearTails(s: State, id: nat)
    requires Shape(s) && SerialInv(s) && TailInv(s) && id < |s.calls| && s.phases[id].Settled?
    ensures Shape(ApplyClear(s, id)) && TailInv(ApplyClear(s, id))
  {
  }

  lemma FinishInv(s: State, initial: Table, id: nat)
    requires Inv(s, initial) && Enabled(s, Finish(id))
    ensures Inv(s.(phases := s.phases[id := Settled(true)]), initial)
  {
    var s' := s.(phases := s.phases[id := Settled(true)]);
    PhaseChange(s, s', id);
    PhaseTails(s, s', id);
  }

  lemma {:induction false} RunInv(states: seq<State>, steps: seq<Step>, i: nat)
    requires IsRun(states, steps) && i < |states|
    ensures Inv(states[i], states[0].rows)
    decreases i
  {
    if i == 0 {
    } else {
      RunInv(states, steps, i - 1);
      InvStep(states[i - 1], states[0].rows, steps[i - 1]);
    }
  }

  // ---- main results ----

  /**
   * Over every interleaving of calls, failing transactions and deletes: every session is numbered
   * 0..n-1 and holds exactly what its committed calls say, and those commit in call order.
   */
  lemma GapFreeLog(states: seq<State>, steps: seq<Step>, i: nat, sid: SessionId)
    requires IsRun(states, steps) && i < |states|
    ensures var s := states[i];
      && Shape(s)
      && IsLog(s.rows, sid, Replay(states[0].rows, s.calls, s.commits, sid))
      && (forall a, b | 0 <= a < b < |s.commits| && s.calls[s.commits[a]].sid == sid == s.calls[s.commits[b]].sid ::
            s.commits[a] < s.commits[b])
  {
    RunInv(states, steps, i);
  }

  /** Tasks of one session run one at a time: two of them are never both under way. */
  lemma OneAtATime(states: seq<State>, steps: seq<Step>, i: nat, a: nat, b: nat)
    requires IsRun(states, steps) && i < |states|
    requires a < b < |states[i].calls| && states[i].calls[a].sid == states[i].calls[b].sid
    ensures Shape(states[i])
    ensures !states[i].phases[b].Waiting? ==> states[i].phases[a].Cleared?
  {
    RunInv(states, steps, i);
  }

  /** The tail map has an entry for a session exactly while a call of that session is outstanding. */
  lemma TailsOnlyWhileOutstanding(states: seq<State>, steps: seq<Step>, i: nat, sid: SessionId)
    requires IsRun(states, steps) && i < |states|
    ensures Shape(states[i])
    ensures sid in states[i].tails <==>
            exists c :: 0 <= c < |states[i].calls| && states[i].calls[c].sid == sid && !states[i].phases[c].Cleared?
  {
    RunInv(states, steps, i);
    var s := states[i];
    if sid in s.tails {
      assert s.calls[s.tails[sid]].sid == sid;
    }
  }

  /** The earliest outstanding call of a session, whatever became of the calls before it. */
  ghost predicate Earliest(s: State, c: nat)
    requires Shape(s)
  {
    && c < |s.calls| && !s.phases[c].Cleared?
    && forall j | 0 <= j < c && s.calls[j].sid == s.calls[c].sid :: s.phases[j].Cleared?
  }

  function Left(p: Phase): nat {
    match p case Waiting => 3 case Busy => 2 case Settled(_) => 1 case Cleared => 0
  }

  /** No failure blocks: the earliest outstanding call of a session always has a step, and it comes nearer its end. */
  lemma NeverBlocked(states: seq<State>, steps: seq<Step>, i: nat, c: nat) returns (step: Step)
    requires IsRun(states, steps) && i < |states|
    requires Shape(states[i]) && Earliest(states[i], c)
    ensures step.Start? || step.Finish? || step.Clear?
    ensures step.id == c && Enabled(states[i], step)
    ensures Left(Apply(states[i], step).phases[c]) < Left(states[i].phases[c])
  {
    RunInv(states, steps, i);
    var s := states[i];
    match s.phases[c] {
      case Waiting =>
        var log := Replay(states[0].rows, s.calls, s.commits, s.calls[c].sid);
        LastSeqOfLog(s.rows, s.calls[c].sid, log, |log| - 1);
        step := Start(c, false, |log| - 1);
      case Busy => step := Finish(c);
      case Settled(_) => step := Clear(c);
    }
  }

  /** One transaction: a failed one changes no row, a committed one appends or empties one session. */
  lemma TransactionEffect(s: State, initial: Table, id: nat, broken: bool, last: int, log: seq<Payload>)
    requires Inv(s, initial) && Enabled(s, Start(id, broken, last)) && IsLog(s.rows, s.calls[id].sid, log)
    ensures var s' := Apply(s, Start(id, broken, last));
      var call := s.calls[id];
      && (broken ==> s'.rows == s.rows)
      && (!broken ==> IsLog(s'.rows, call.sid, if call.op.Append? then log + call.op.events else []))
      && (forall other | other != call.sid :: SameSession(s.rows, s'.rows, other))
  {
    var call := s.calls[id];
    LastSeqOfLog(s.rows, call.sid, log, last);
    if call.op.Append? {
      AppendMeaning(s.rows, call.sid, log, call.op.events);
    } else {
      DeleteMeaning(s.rows, call.sid);
    }
  }

  // ---- the store object ----

  class Store {
    const db: Database
    var appendTails: map<SessionId, nat>
    var calls: seq<Call>
    var prevs: seq<Option<nat>>
    var phases: seq<Phase>
    ghost var commits: seq<nat>

    ghost function View(): State
      reads this, db
    {
      State(db.rows, appendTails, calls, prevs, phases, commits)
    }

    constructor (db: Database)
      ensures this.db == db && View() == State(db.rows, map[], [], [], [], [])
    {
      this.db := db;
      appendTails, calls, prevs, phases, commits := map[], [], [], [], [];
    }

    /** `#serialized`: chain behind the session's tail, or behind nothing. */
    method Serialized(sid: SessionId, op: Op)
      requires Enabled(View(), Enqueue(sid, op))
      modifies this
      ensures View() == Apply(old(View()), Enqueue(sid, op))
    {
      var previous := if sid in appendTails then Some(appendTails[sid]) else None;
      appendTails := appendTails[sid := |calls|];
      calls := calls + [Call(sid, op)];
      prevs := prevs + [previous];
      phases := phases + [Waiting];
    }

    method DoAppendBatch(sid: SessionId, events: seq<Payload>)
      requires Shape(View())
      modifies this
      ensures View() == if events == [] then old(View()) else Apply(old(View()), Enqueue(sid, Append(events)))
    {
      if |events| == 0 {
        return;
      }
      Serialized(sid, Append(events));
    }

    /** The synchronous part of a task: its transaction, which the host may break at some statement. */
    method RunTask(id: nat, brokenAt: Option<nat>, ghost log: seq<Payload>) returns (ok: bool)
      requires Shape(View()) && id < |calls| && IsLog(db.rows, calls[id].sid, log)
      requires Enabled(View(), Start(id, false, |log| - 1))
      modifies this, db
      ensures View() == Apply(old(View()), Start(id, !ok, |log| - 1))
      ensures brokenAt.None? ==> ok
    {
      var call := calls[id];
      match call.op {
        case Append(events) =>
          ok := db.AppendBatch(call.sid, events, brokenAt, log);
          phases := phases[id := if ok then Busy else Settled(false)];
        case Delete =>
          ok := brokenAt.None?;
          if ok {
            var _ := db.DeleteSession(call.sid, log);
          }
          phases := phases[id := Settled(ok)];
      }
      if ok {
        commits := commits + [id];
      }
    }

    /** The end of a task after its metadata write, which may have failed. */
    method EndTask(id: nat)
      requires Enabled(View(), Finish(id))
      modifies this`phases
      ensures View() == Apply(old(View()), Finish(id))
    {
      phases := phases[id := Settled(true)];
    }

    /** The clean-up chained behind a task; a later call may have taken the tail over. */
    method ClearTail(id: nat)
      requires Enabled(View(), Clear(id))
      modifies this
      ensures View() == Apply(old(View()), Clear(id))
    {
      var sid := calls[id].sid;
      phases := phases[id := Cleared];
      if sid in appendTails && appendTails[sid] == id {
        appendTails := appendTails - {sid};
      }
    }
  }
}
