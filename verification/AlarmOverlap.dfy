/**
 * A run of the scheduler in which two deliveries of one key overlap, and the older one takes away
 * the retry row of the newer.
 */
module AlarmOverlap {
  import opened Prelude
  import opened AlarmRows
  import opened AlarmModel

  const RETRY_MS := 1000

  /** One more step of a run. */
  lemma Extend(states: seq<State>, steps: seq<Step>, step: Step) returns (states': seq<State>, steps': seq<Step>)
    requires IsRun(states, steps) && Enabled(states[|states| - 1], step)
    ensures IsRun(states', steps') && steps' == steps + [step]
    ensures states'[|states'| - 1] == Apply(states[|states| - 1], step)
    ensures forall i | 0 <= i < |states| :: states'[i] == states[i]
  {
    states', steps' := states + [Apply(states[|states| - 1], step)], steps + [step];
    forall i | 0 <= i < |steps'| ensures Follows(states', steps', i) {
      if i < |steps| {
        assert Follows(states, steps, i);
      }
    }
  }

  function Running(rows: Rows, slot: Option<int>, fires: nat, m: Memory): State {
    State(rows, slot, fires, false, Some(m))
  }

  const OFF := State(map[], None, 0, false, None)

  /** A wake at 100, armed. */
  function Woken(key: Key): State {
    Running(map[WAKE_PREFIX + key := Num(100)], Some(100), 0,
            Memory(map[key := 100], map[], Some(100), 0, [], None, map[], 0, 0))
  }

  /** Its delivery is open; the retry row is armed. */
  function Delivered(key: Key): State {
    Running(map[RETRY_PREFIX + key := Num(1100)], Some(1100), 0,
            Memory(map[], map[key := 1100], Some(1100), 0, [], None, map[0 := Delivering([key], {key})], 1, 1))
  }

  /** A second wake, at 200, has fired while the delivery is still open. */
  function Fired(key: Key): State {
    Running(map[RETRY_PREFIX + key := Num(1100), WAKE_PREFIX + key := Num(200)], None, 1,
            Memory(map[key := 200], map[key := 1100], Some(200), 0, [], None, map[0 := Delivering([key], {key})], 1, 1))
  }

  /** The second drain waits for its slot write. */
  function Drained(key: Key): State {
    Running(map[RETRY_PREFIX + key := Num(1200)], None, 0,
            Memory(map[], map[key := 1200], None, 0, [Rearm(1)], None,
                   map[0 := Delivering([key], {key}), 1 := Rearming([key])], 2, 1))
  }

  lemma EarliestOf(wakes: Times, retries: Times, key: Key, at: int)
    requires (wakes == map[key := at] && forall k | k in retries :: at <= retries[k]) || (wakes == map[] && retries == map[key := at])
    ensures IsEarliest(wakes, retries, Some(at))
  {
    assert (key in wakes && wakes[key] == at) || (key in retries && retries[key] == at);
  }

  /** The state after a slot write to `at` has succeeded. */
  function Written(s: State, at: int): State
    requires s.memory.Some? && |s.memory.value.queue| == 1
  {
    var m := s.memory.value;
    Settle(s.(slot := Some(at), memory := Some(m.(queue := [], armedAt := Some(at)))), m.queue[0], true)
  }

  /** The one queued write runs and succeeds. */
  lemma WriteThrough(states: seq<State>, steps: seq<Step>, at: int) returns (states': seq<State>, steps': seq<Step>)
    requires IsRun(states, steps)
    requires var s := states[|states| - 1];
      && s.memory.Some? && |s.memory.value.queue| == 1 && s.memory.value.writing.None? && s.memory.value.armedAt != Some(at)
      && IsEarliest(s.memory.value.wakes, s.memory.value.retries, Some(at))
    ensures IsRun(states', steps') && states'[|states'| - 1] == Written(states[|states| - 1], at)
  {
    var s := states[|states| - 1];
    states', steps' := Extend(states, steps, StartWrite(Some(at)));
    assert s.memory.value.queue[1..] == [];
    var t := states'[|states'| - 1];
    assert t == s.(memory := Some(s.memory.value.(queue := [], writing := Some(Write(s.memory.value.queue[0], Some(at))))));
    states', steps' := Extend(states', steps', FinishWrite(true));
  }

  const BOOTED := Running(map[], None, 0, Memory(map[], map[], None, 0, [], None, map[], 0, 0))

  lemma EmptyBoot()
    ensures Enabled(OFF, Boot(map[], map[])) && Apply(OFF, Boot(map[], map[])) == BOOTED
  {
  }

  function Waking(key: Key): State {
    Running(map[WAKE_PREFIX + key := Num(100)], None, 0,
            Memory(map[key := 100], map[], None, 0, [Detached], None, map[], 0, 0))
  }

  lemma FirstWake(key: Key)
    ensures Apply(BOOTED, Wake(key, 0, 100)) == Waking(key)
    ensures Written(Waking(key), 100) == Woken(key)
  {
    var s := ApplyWake(BOOTED, key, 0, 100);
    assert s.memory.value.queue == [Detached] && s.memory.value.wakes == map[key := 100];
    assert s.rows == map[WAKE_PREFIX + key := Num(100)];
  }

  lemma BootAndWake(key: Key) returns (states: seq<State>, steps: seq<Step>)
    ensures IsRun(states, steps) && states[|states| - 1] == Woken(key)
  {
    EmptyBoot();
    FirstWake(key);
    EarliestOf(map[key := 100], map[], key, 100);
    states, steps := [OFF], [];
    states, steps := Extend(states, steps, Boot(map[], map[]));
    states, steps := Extend(states, steps, Wake(key, 0, 100));
    states, steps := WriteThrough(states, steps, 100);
  }

  lemma OneMoved(t: Tables, key: Key, retryAt: int)
    ensures MoveDue(t, [key], retryAt) == SetRetry(DropWake(t, key), key, retryAt)
  {
    assert [key][..0] == [];
    assert MoveDue(t, [], retryAt) == t;
  }

  /** A wake has been drained; the drain waits for its slot write. */
  function Rearmed(key: Key): State {
    Running(map[RETRY_PREFIX + key := Num(1100)], None, 0,
            Memory(map[], map[key := 1100], None, 0, [Rearm(0)], None, map[0 := Rearming([key])], 1, 0))
  }

  lemma FirstDrain(key: Key)
    ensures var s := Woken(key).(slot := None, fires := 1);
      Enabled(s, DrainStart([key], 100, 100, RETRY_MS)) && Apply(s, DrainStart([key], 100, 100, RETRY_MS)) == Rearmed(key)
  {
    PrefixesDisjoint();
    var s := Woken(key).(slot := None, fires := 1);
    assert IsDue(s.memory.value, [key], 100 + DRAIN_SLACK_MS);
    OneMoved(TablesOf(s), key, 1100);
    var t := ApplyDrainStart(s, [key], 1100);
    assert t.rows == Rearmed(key).rows && t.memory.value.wakes == map[] && t.memory.value.retries == map[key := 1100];
    assert t.memory.value.queue == [Rearm(0)] && t.memory.value.drains == map[0 := Rearming([key])];
  }

  /** The drain may dispatch. */
  function Ready(key: Key): State {
    Running(map[RETRY_PREFIX + key := Num(1100)], Some(1100), 0,
            Memory(map[], map[key := 1100], Some(1100), 0, [], None, map[0 := Armed([key])], 1, 0))
  }

  lemma FirstDispatch(key: Key)
    ensures Written(Rearmed(key), 1100) == Ready(key)
    ensures Enabled(Ready(key), Dispatch(0)) && Apply(Ready(key), Dispatch(0)) == Delivered(key)
  {
    var s, t := Written(Rearmed(key), 1100), ApplyDispatch(Ready(key), 0);
    assert s.memory.value.drains == map[0 := Armed([key])];
    assert Elements([key]) == {key};
    assert t.memory.value.drains == map[0 := Delivering([key], {key})];
  }

  lemma FirstDelivery(states: seq<State>, steps: seq<Step>, key: Key) returns (states': seq<State>, steps': seq<Step>)
    requires IsRun(states, steps) && states[|states| - 1] == Woken(key)
    ensures IsRun(states', steps') && states'[|states'| - 1] == Delivered(key)
  {
    FirstDrain(key);
    FirstDispatch(key);
    EarliestOf(map[], map[key := 1100], key, 1100);
    states', steps' := Extend(states, steps, Fire);
    states', steps' := Extend(states', steps', DrainStart([key], 100, 100, RETRY_MS));
    states', steps' := WriteThrough(states', steps', 1100);
    states', steps' := Extend(states', steps', Dispatch(0));
  }

  lemma SecondWake(states: seq<State>, steps: seq<Step>, key: Key) returns (states': seq<State>, steps': seq<Step>)
    requires IsRun(states, steps) && states[|states| - 1] == Delivered(key)
    ensures IsRun(states', steps') && states'[|states'| - 1] == Fired(key)
  {
    states', steps' := Extend(states, steps, Wake(key, 0, 200));
    var s := states'[|states'| - 1];
    assert s.memory.value.queue == [Detached] && s.memory.value.wakes == map[key := 200];
    EarliestOf(map[key := 200], map[key := 1100], key, 200);
    states', steps' := WriteThrough(states', steps', 200);
    states', steps' := Extend(states', steps', Fire);
    assert states'[|states'| - 1].rows == Fired(key).rows by {
      PrefixesDisjoint();
    }
  }

  lemma SecondDrain(states: seq<State>, steps: seq<Step>, key: Key) returns (states': seq<State>, steps': seq<Step>)
    requires IsRun(states, steps) && states[|states| - 1] == Fired(key)
    ensures IsRun(states', steps') && states'[|states'| - 1] == Drained(key)
  {
    PrefixesDisjoint();
    var s := Fired(key);
    assert IsDue(s.memory.value, [key], 200 + DRAIN_SLACK_MS);
    OneMoved(TablesOf(s), key, 1200);
    states', steps' := Extend(states, steps, DrainStart([key], 200, 200, RETRY_MS));
    var t := states'[|states'| - 1];
    assert t.rows == Drained(key).rows;
    assert t.memory.value.wakes == map[] && t.memory.value.retries == map[key := 1200];
    assert t.memory.value.drains == Drained(key).memory.value.drains;
    assert t.memory.value.queue == [Rearm(1)];
  }

  /**
   * Main result: for every key there is a run at whose end the second wake of the key, drained but
   * not dispatched, has no row left, because the first delivery succeeded meanwhile.
   */
  lemma OverlapIsReachable(key: Key) returns (states: seq<State>, steps: seq<Step>)
    ensures IsRun(states, steps) && |steps| > 0 && steps[|steps| - 1] == Finish(0, key, true)
    ensures Kept(states[|states| - 2], key)
    ensures var s := states[|states| - 1];
      && !Kept(s, key)
      && s.memory.Some? && s.memory.value.drains == map[0 := Delivering([key], {}), 1 := Rearming([key])]
  {
    states, steps := BootAndWake(key);
    states, steps := FirstDelivery(states, steps, key);
    states, steps := SecondWake(states, steps, key);
    states, steps := SecondDrain(states, steps, key);
    PrefixesDisjoint();
    assert HasTime(Drained(key).rows, RETRY_PREFIX, key);
    var before := states;
    states, steps := Extend(states, steps, Finish(0, key, true));
    assert |before| == |states| - 1;
    var s := states[|states| - 1];
    assert s.rows == map[];
    assert {key} - {key} == {};
    assert s.memory.value.drains == map[0 := Delivering([key], {}), 1 := Rearming([key])];
  }
}
