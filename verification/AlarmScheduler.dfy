/**
 * The scheduler object. Each method is one synchronous frame of the program: the frames
 * between two awaits of `deliverDue`, of `flush` and of a slot write are methods of their own.
 */
module AlarmScheduler {
  import opened Prelude
  import opened AlarmRows
  import opened AlarmModel

  class Scheduler {
    const storage: Storage
    const retryMs: int
    const wakes: PersistedTimes
    const retries: PersistedTimes
    var armedAt: Option<int>
    var suspended: nat
    var queue: seq<Ticket>
    var writing: Option<Write>
    var drains: map<nat, Drain>
    var drainCount: nat
    var delivered: nat
    /** Observed by the platform only: alarms not drained yet, and the result of the last write. */
    ghost var fires: nat
    ghost var lastFailed: bool

    ghost predicate Valid()
      reads this
    {
      && wakes.storage == storage && retries.storage == storage
      && wakes.prefix == WAKE_PREFIX && retries.prefix == RETRY_PREFIX
      && wakes != retries
    }

    ghost function View(): State
      reads this, storage, wakes, retries
    {
      State(storage.rows, storage.slot, fires, lastFailed,
            Some(Memory(wakes.times, retries.times, armedAt, suspended, queue, writing, drains, drainCount, delivered)))
    }

    constructor (storage: Storage, retryMs: int, ghost fires: nat)
      ensures Valid() && this.storage == storage && this.retryMs == retryMs
      ensures fresh(wakes) && fresh(retries)
      ensures var off := State(storage.rows, storage.slot, fires, false, None);
        && Enabled(off, Boot(wakes.times, retries.times))
        && View() == Apply(off, Boot(wakes.times, retries.times))
    {
      var w := new PersistedTimes(storage, WAKE_PREFIX);
      var r := new PersistedTimes(storage, RETRY_PREFIX);
      this.storage, this.retryMs, this.wakes, this.retries := storage, retryMs, w, r;
      armedAt, suspended, queue, writing := None, 0, [], None;
      drains, drainCount, delivered := map[], 0, 0;
      this.fires, lastFailed := fires, false;
      new;
      if wakes.times != map[] || retries.times != map[] {
        Reconcile(Detached);
      }
      ghost var off := State(storage.rows, storage.slot, fires, false, None);
      assert Apply(off, Boot(wakes.times, retries.times)) == ApplyBoot(off, wakes.times, retries.times);
      assert [] + [Detached] == [Detached];
    }

    /** Queue one slot write behind the writes that were queued before. */
    method Reconcile(ticket: Ticket)
      requires Valid()
      modifies this`queue
      ensures Valid() && View() == Enqueue(old(View()), ticket)
    {
      queue := queue + [ticket];
    }

    method Earliest() returns (min: Option<int>)
      requires Valid()
      ensures IsEarliest(wakes.times, retries.times, min)
    {
      min := EarlierOf(None, wakes.times);
      min := EarlierOf(min, retries.times);
    }

    method WakeKey(key: Key, delay: int, now: int)
      requires Valid()
      modifies this, storage, wakes, retries
      ensures Valid() && View() == Apply(old(View()), Wake(key, delay, now))
    {
      if suspended > 0 {
        return;
      }
      wakes.Set(key, now + Max(delay, 0));
      Reconcile(Detached);
    }

    method CancelKey(key: Key)
      requires Valid()
      modifies this, storage, wakes, retries
      ensures Valid() && View() == Apply(old(View()), Cancel(key))
    {
      if suspended > 0 {
        return;
      }
      var held := wakes.Delete(key);
      if !held {
        return;
      }
      Reconcile(Detached);
    }

    method EnterSuspend()
      requires Valid()
      modifies this`suspended
      ensures Valid() && View() == Apply(old(View()), SuspendEnter)
    {
      suspended := suspended + 1;
    }

    method ExitSuspend()
      requires Valid() && suspended > 0
      modifies this`suspended
      ensures Valid() && View() == Apply(old(View()), SuspendExit)
    {
      suspended := suspended - 1;
    }

    method SettleTicket(ticket: Ticket, ok: bool)
      requires Valid()
      modifies this`drains, this`lastFailed
      ensures Valid() && View() == Settle(old(View()), ticket, ok)
    {
      lastFailed := !ok;
      if ticket.Rearm? && ticket.drain in drains {
        if ok {
          drains := drains[ticket.drain := Armed(drains[ticket.drain].due)];
        } else {
          drains := drains - {ticket.drain};
        }
      }
    }

    /** The next queued write reads its target from the maps as they stand now. */
    method ApplyAlarm()
      requires Valid() && queue != [] && writing.None?
      modifies this
      ensures Valid()
      ensures exists target :: Enabled(old(View()), StartWrite(target)) && View() == Apply(old(View()), StartWrite(target))
    {
      var target := Earliest();
      assert Enabled(View(), StartWrite(target));
      var ticket := queue[0];
      queue := queue[1..];
      if target == armedAt {
        SettleTicket(ticket, true);
      } else {
        writing := Some(Write(ticket, target));
      }
    }

    method EndWrite(ok: bool)
      requires Valid() && writing.Some?
      modifies this, storage`slot
      ensures Valid() && View() == Apply(old(View()), FinishWrite(ok))
    {
      var w := writing.value;
      writing := None;
      if ok {
        storage.slot := w.target;
        armedAt := w.target;
      }
      SettleTicket(w.ticket, ok);
    }

    ghost function TablesView(): Tables
      reads this, storage, wakes, retries
    {
      Tables(storage.rows, wakes.times, retries.times)
    }

    /** The loop of a drain over its due keys. */
    method MoveAll(due: seq<Key>, retryAt: int)
      requires Valid()
      modifies storage`rows, wakes, retries
      ensures TablesView() == MoveDue(old(TablesView()), due, retryAt)
    {
      var i := 0;
      while i < |due|
        invariant 0 <= i <= |due|
        invariant TablesView() == MoveDue(old(TablesView()), due[..i], retryAt)
        modifies storage`rows, wakes, retries
      {
        assert due[..i + 1][..i] == due[..i];
        ghost var t := TablesView();
        var _ := wakes.Delete(due[i]);
        assert TablesView() == DropWake(t, due[i]);
        retries.Set(due[i], retryAt);
        i := i + 1;
      }
      assert due[..|due|] == due;
    }

    method AllDue(cutoff: int) returns (due: seq<Key>)
      requires Valid()
      ensures IsDue(View().memory.value, due, cutoff)
    {
      var dueWakes := wakes.DueBy(cutoff);
      var dueRetries := retries.DueBy(cutoff);
      due := Merge(dueWakes, dueRetries);
    }

    method BeginDrain(due: seq<Key>, retryAt: int)
      requires Valid()
      modifies this, storage`rows, wakes, retries
      ensures Valid() && View() == ApplyDrainStart(old(View()), due, retryAt)
    {
      armedAt := None;
      fires := if fires > 0 then fires - 1 else 0;
      MoveAll(due, retryAt);
      drains := drains[drainCount := Rearming(due)];
      drainCount := drainCount + 1;
      Reconcile(Rearm(drainCount - 1));
    }

    /** First frame of `deliverDue`: up to the await of the slot write. */
    method DeliverDue(now: int, later: int) returns (due: seq<Key>)
      requires Valid()
      modifies this, storage, wakes, retries
      ensures Valid()
      ensures Enabled(old(View()), DrainStart(due, now, later, retryMs))
      ensures View() == Apply(old(View()), DrainStart(due, now, later, retryMs))
    {
      due := AllDue(now + DRAIN_SLACK_MS);
      BeginDrain(due, later + retryMs);
    }

    /** Second frame of `deliverDue`: every due key is handed to the handler, in order. */
    method DispatchAll(d: nat) returns (handed: seq<Key>)
      requires Valid() && d in drains && drains[d].Armed?
      modifies this
      ensures Valid() && View() == Apply(old(View()), Dispatch(d))
      ensures handed == old(drains[d].due)
    {
      var due := drains[d].due;
      handed := [];
      var i := 0;
      while i < |due|
        invariant 0 <= i <= |due|
        invariant handed == due[..i]
        invariant delivered == old(delivered) + i
        modifies this`delivered
      {
        delivered := delivered + 1;
        handed := handed + [due[i]];
        i := i + 1;
      }
      drains := drains[d := Delivering(due, Elements(due))];
    }

    /** The end of one delivery; the retry row goes only when the handler succeeded. */
    method EndDelivery(d: nat, key: Key, ok: bool)
      requires Valid() && d in drains && drains[d].Delivering? && key in drains[d].open
      modifies this, storage, wakes, retries
      ensures Valid() && View() == Apply(old(View()), Finish(d, key, ok))
    {
      if ok {
        var _ := retries.Delete(key);
      }
      drains := drains[d := Delivering(drains[d].due, drains[d].open - {key})];
    }

    /** Last frame of `deliverDue`, after every delivery of the batch has ended. */
    method EndBatch(d: nat)
      requires Valid() && d in drains && drains[d].Delivering? && drains[d].open == {}
      modifies this
      ensures Valid() && View() == Apply(old(View()), BatchEnd(d))
    {
      var due := drains[d].due;
      drains := drains - {d};
      if |due| > 0 {
        Reconcile(Detached);
      }
    }

    /** The frame of `flush` in which the tail has settled and has not moved. */
    method Flush()
      requires Valid() && queue == [] && writing.None?
      modifies this
      ensures Valid()
      ensures exists target :: Enabled(old(View()), FlushCheck(target)) && View() == Apply(old(View()), FlushCheck(target))
    {
      var target := Earliest();
      assert Enabled(View(), FlushCheck(target));
      if target != armedAt {
        Reconcile(Flushing);
      }
    }
  }

  /** One leg of the search for the earliest time. */
  method EarlierOf(start: Option<int>, times: Times) returns (min: Option<int>)
    ensures min.None? <==> start.None? && times == map[]
    ensures min.Some? ==> min == start || exists k :: k in times && times[k] == min.value
    ensures start.Some? ==> min.Some? && min.value <= start.value
    ensures forall k | k in times :: min.Some? && min.value <= times[k]
  {
    min := start;
    var todo := times.Keys;
    while todo != {}
      invariant todo <= times.Keys
      invariant min.None? <==> start.None? && todo == times.Keys
      invariant min.Some? ==> min == start || exists k :: k in times && times[k] == min.value
      invariant start.Some? ==> min.Some? && min.value <= start.value
      invariant forall k | k in times.Keys - todo :: min.Some? && min.value <= times[k]
      decreases |todo|
    {
      var key :| key in todo;
      if min.None? || times[key] < min.value {
        min := Some(times[key]);
      }
      todo := todo - {key};
    }
  }

  /** `[...new Set([...a, ...b])]` for lists without duplicates of their own. */
  method Merge(a: seq<Key>, b: seq<Key>) returns (all: seq<Key>)
    requires NoDup(a) && NoDup(b)
    ensures NoDup(all)
    ensures forall k :: k in all <==> k in a || k in b
  {
    all := a;
    var i := 0;
    while i < |b|
      invariant 0 <= i <= |b|
      invariant NoDup(all)
      invariant forall k :: k in all <==> k in a || k in b[..i]
    {
      if b[i] !in all {
        all := all + [b[i]];
      }
      i := i + 1;
    }
  }
}
