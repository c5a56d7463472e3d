/**
 * The bounded send buffer of a connection. A message is named by the number of the `send` call
 * that brought it, so equal texts stay distinct.
 */
module SendBuffer {

  /** What the socket does with one message, and whether it closes with it. */
  datatype Reply = Reply(throws: bool, closes: bool)

  /**
   * `plan` is what the present socket will answer, throwing for good behind its end. `sent`,
   * `lost` (dropped on overflow) and `cleared` record where messages went; `reported` adds up the
   * counts that drains have reported.
   */
  datatype State = State(
    open: bool,
    plan: seq<Reply>,
    calls: nat,
    buffer: seq<nat>,
    droppedSinceLastFlush: nat,
    sent: seq<nat>,
    lost: seq<nat>,
    cleared: seq<nat>,
    reported: nat)

  datatype Step = Send | Flush | Clear | Close | Open(plan: seq<Reply>)

  const MAX := 500

  const INITIAL := State(false, [], 0, [], 0, [], [], [], 0)

  predicate Accepts(s: State) {
    s.plan != [] && !s.plan[0].throws
  }

  /** Hand m to the socket. */
  function Offered(s: State, m: nat): State {
    if s.plan == [] then s
    else s.(plan := s.plan[1..], open := s.open && !s.plan[0].closes, sent := if s.plan[0].throws then s.sent else s.sent + [m])
  }

  function Buffered(s: State, m: nat): State {
    if |s.buffer| >= MAX then
      s.(buffer := s.buffer[1..] + [m], lost := s.lost + [s.buffer[0]], droppedSinceLastFlush := s.droppedSinceLastFlush + 1)
    else s.(buffer := s.buffer + [m])
  }

  /** Hand over the buffer from its front until the socket closes or throws. */
  function Pushed(s: State): State
    decreases |s.buffer|
  {
    if s.buffer == [] || !s.open then s
    else if !Accepts(s) then Offered(s, s.buffer[0])
    else Pushed(Offered(s, s.buffer[0]).(buffer := s.buffer[1..]))
  }

  function Flushed(s: State): State {
    var p := Pushed(s);
    if p.buffer == [] then p.(reported := p.reported + p.droppedSinceLastFlush, droppedSinceLastFlush := 0) else p
  }

  /** The new message is offered behind whatever the flush left in the buffer. */
  function Direct(f: State, m: nat): State {
    if Accepts(f) then Offered(f, m) else Buffered(Offered(f, m), m)
  }

  function Counted(s: State): State {
    s.(calls := s.calls + 1)
  }

  function ApplySend(s: State): State {
    if s.open then Direct(Flushed(Counted(s)), s.calls) else Buffered(Counted(s), s.calls)
  }

  function Apply(s: State, step: Step): State {
    match step
    case Send => ApplySend(s)
    case Flush => Flushed(s)
    case Clear => s.(cleared := s.cleared + s.buffer, buffer := [])
    case Close => s.(open := false)
    case Open(plan) => s.(open := true, plan := plan)
  }

  ghost predicate IsRun(states: seq<State>, steps: seq<Step>) {
    && |states| == |steps| + 1 && states[0] == INITIAL
    && forall i | 0 <= i < |steps| :: Follows(states, steps, i)
  }

  ghost predicate Follows(states: seq<State>, steps: seq<Step>, i: int)
    requires |states| == |steps| + 1 && 0 <= i < |steps|
  {
    states[i + 1] == Apply(states[i], steps[i])
  }

  // ---- conservation ----

  function FirstN(n: nat): multiset<nat> {
    if n == 0 then multiset{} else FirstN(n - 1) + multiset{n - 1}
  }

  /** Each of the first n numbers is in the bag once, nothing else is. */
  lemma {:induction false} FirstNIs(n: nat, k: nat)
    ensures FirstN(n)[k] == if k < n then 1 else 0
  {
    if n == 0 {
    } else {
      FirstNIs(n - 1, k);
    }
  }

  /** Every message of a call is in one of the four places. */
  function Everywhere(s: State): multiset<nat> {
    multiset(s.sent) + multiset(s.buffer) + multiset(s.lost) + multiset(s.cleared)
  }

  ghost predicate Bounded(s: State) {
    && |s.buffer| <= MAX
    && s.reported + s.droppedSinceLastFlush == |s.lost|
  }

  lemma {:induction false} PushedKeeps(s: State)
    ensures Everywhere(Pushed(s)) == Everywhere(s)
    ensures |Pushed(s).buffer| <= |s.buffer|
    ensures Pushed(s).lost == s.lost && Pushed(s).cleared == s.cleared && Pushed(s).calls == s.calls
    ensures Pushed(s).reported == s.reported && Pushed(s).droppedSinceLastFlush == s.droppedSinceLastFlush
    decreases |s.buffer|
  {
    if s.buffer == [] || !s.open || !Accepts(s) {
    } else {
      var t := Offered(s, s.buffer[0]).(buffer := s.buffer[1..]);
      assert s.buffer == [s.buffer[0]] + t.buffer;
      assert Everywhere(t) == Everywhere(s);
      PushedKeeps(t);
    }
  }

  lemma BufferedKeeps(s: State, m: nat)
    requires Bounded(s)
    ensures Bounded(Buffered(s, m)) && Everywhere(Buffered(s, m)) == Everywhere(s) + multiset{m}
  {
    if |s.buffer| >= MAX {
      assert s.buffer == [s.buffer[0]] + s.buffer[1..];
    }
  }

  lemma FlushedKeeps(s: State)
    requires Bounded(s)
    ensures Bounded(Flushed(s)) && Everywhere(Flushed(s)) == Everywhere(s)
    ensures Flushed(s).calls == s.calls && Flushed(s).cleared == s.cleared
  {
    PushedKeeps(s);
  }

  lemma DirectKeeps(f: State, m: nat)
    requires Bounded(f)
    ensures Bounded(Direct(f, m)) && Everywhere(Direct(f, m)) == Everywhere(f) + multiset{m}
    ensures Direct(f, m).calls == f.calls && Direct(f, m).cleared == f.cleared
  {
    if !Accepts(f) {
      BufferedKeeps(Offered(f, m), m);
    }
  }

  lemma SendKeeps(s: State)
    requires Bounded(s)
    ensures var t := ApplySend(s);
      Bounded(t) && t.calls == s.calls + 1 && t.cleared == s.cleared && Everywhere(t) == Everywhere(s) + multiset{s.calls}
  {
    var c := Counted(s);
    assert Bounded(c) && Everywhere(c) == Everywhere(s);
    if s.open {
      FlushedKeeps(c);
      DirectKeeps(Flushed(c), s.calls);
    } else {
      BufferedKeeps(c, s.calls);
    }
  }

  lemma OtherKeeps(s: State, step: Step)
    requires Bounded(s) && (step.Clear? || step.Close? || step.Open?)
    ensures var t := Apply(s, step); Bounded(t) && t.calls == s.calls && Everywhere(t) == Everywhere(s)
  {
  }

  lemma StepKeeps(s: State, step: Step)
    requires Bounded(s)
    ensures var t := Apply(s, step);
      && Bounded(t) && t.calls == s.calls + (if step.Send? then 1 else 0)
      && Everywhere(t) == Everywhere(s) + if step.Send? then multiset{s.calls} else multiset{}
    ensures !step.Clear? ==> Apply(s, step).cleared == s.cleared
  {
    if step.Send? {
      SendKeeps(s);
    } else if step.Flush? {
      FlushedKeeps(s);
    } else {
      OtherKeeps(s, step);
    }
  }

  ghost predicate Conserved(s: State) {
    Bounded(s) && Everywhere(s) == FirstN(s.calls)
  }

  /** The bag of the first numbers, with the next one or without. */
  lemma BagNext(before: multiset<nat>, after: multiset<nat>, calls: nat, send: bool)
    requires before == FirstN(calls)
    requires after == before + if send then multiset{calls} else multiset{}
    ensures after == FirstN(calls + if send then 1 else 0)
  {
  }

  /**
   * Main result: whatever the sockets answer, at most 500 messages are buffered, the message of
   * every call is in exactly one place (handed over, buffered, dropped, cleared), and each drop is
   * either reported by a drain or still counted.
   */
  lemma {:induction false} Conservation(states: seq<State>, steps: seq<Step>, i: nat)
    requires IsRun(states, steps) && i < |states|
    ensures Conserved(states[i])
    decreases i
  {
    if i == 0 {
    } else {
      Conservation(states, steps, i - 1);
      assert Follows(states, steps, i - 1);
      StepKeeps(states[i - 1], steps[i - 1]);
      BagNext(Everywhere(states[i - 1]), Everywhere(states[i]), states[i - 1].calls, steps[i - 1].Send?);
    }
  }

  lemma {:induction false} FirstNSize(n: nat)
    ensures |FirstN(n)| == n
  {
    if n == 0 {
    } else {
      FirstNSize(n - 1);
    }
  }

  lemma {:induction false} NothingCleared(states: seq<State>, steps: seq<Step>, i: nat)
    requires IsRun(states, steps) && i < |states| && forall k | 0 <= k < i :: !steps[k].Clear?
    ensures states[i].cleared == []
    decreases i
  {
    if i == 0 {
    } else {
      NothingCleared(states, steps, i - 1);
      Conservation(states, steps, i - 1);
      assert Follows(states, steps, i - 1);
      StepKeeps(states[i - 1], steps[i - 1]);
    }
  }

  /** Without a clear: sent + buffered + dropped = calls. */
  lemma CountsAddUp(states: seq<State>, steps: seq<Step>, i: nat)
    requires IsRun(states, steps) && i < |states| && forall k | 0 <= k < i :: !steps[k].Clear?
    ensures var s := states[i]; |s.sent| + |s.buffer| + s.reported + s.droppedSinceLastFlush == s.calls
  {
    Conservation(states, steps, i);
    NothingCleared(states, steps, i);
    FirstNSize(states[i].calls);
  }

  /** `send` answers true exactly when its message was handed over; otherwise the message is the newest in the buffer. */
  lemma SendOutcome(s: State)
    ensures var t := ApplySend(s);
      if s.open && Accepts(Flushed(Counted(s))) then t.sent != [] && t.sent[|t.sent| - 1] == s.calls
      else t.buffer != [] && t.buffer[|t.buffer| - 1] == s.calls
  {
  }

  // ---- order ----

  /** The buffer is the last |buffer| calls; everything sent or dropped came before, and was sent in order. */
  ghost predicate Ordered(s: State) {
    && |s.buffer| <= s.calls
    && (forall i | 0 <= i < |s.buffer| :: s.buffer[i] == s.calls - |s.buffer| + i)
    && (forall i | 0 <= i < |s.sent| :: s.sent[i] < s.calls - |s.buffer|)
    && (forall i, j | 0 <= i < j < |s.sent| :: s.sent[i] < s.sent[j])
    && (forall i | 0 <= i < |s.lost| :: s.lost[i] < s.calls - |s.buffer|)
    && (forall i, j | 0 <= i < j < |s.lost| :: s.lost[i] < s.lost[j])
  }

  lemma {:induction false} PushedOrdered(s: State)
    requires Ordered(s)
    ensures Ordered(Pushed(s)) && Pushed(s).calls == s.calls
    decreases |s.buffer|
  {
    if s.buffer == [] || !s.open || !Accepts(s) {
    } else {
      PushedOrdered(Offered(s, s.buffer[0]).(buffer := s.buffer[1..]));
    }
  }

  /** The new message overtakes: the flush stopped short, yet the socket takes the next message. */
  predicate Overtakes(s: State, step: Step) {
    step.Send? && s.open && (var f := Flushed(Counted(s)); f.buffer != [] && Accepts(f))
  }

  /** The pushed buffer does not depend on how many calls were made. */
  lemma {:induction false} PushedCounted(s: State)
    ensures Pushed(Counted(s)) == Counted(Pushed(s))
    decreases |s.buffer|
  {
    if s.buffer == [] || !s.open || !Accepts(s) {
    } else {
      var t := Offered(s, s.buffer[0]).(buffer := s.buffer[1..]);
      assert Offered(Counted(s), s.buffer[0]).(buffer := s.buffer[1..]) == Counted(t);
      PushedCounted(t);
    }
  }

  lemma SendOrdered(f: State, m: nat)
    requires Ordered(f) && m == f.calls
    ensures Ordered(Direct(Counted(f), m)) <==> !(f.buffer != [] && Accepts(f))
  {
    var t := Direct(Counted(f), m);
    if f.buffer != [] && Accepts(f) {
      assert t.buffer[|t.buffer| - 1] != t.calls - 1;
    }
  }

  lemma FlushedCounted(s: State)
    ensures Flushed(Counted(s)) == Counted(Flushed(s))
  {
    PushedCounted(s);
  }

  /** One step keeps the order exactly when it does not overtake. */
  lemma StepOrdered(s: State, step: Step)
    requires Ordered(s)
    ensures Ordered(Apply(s, step)) <==> !Overtakes(s, step)
  {
    if step.Send? {
      SendStepOrdered(s);
    } else if step.Flush? {
      PushedOrdered(s);
    }
  }

  lemma SendStepOrdered(s: State)
    requires Ordered(s)
    ensures Ordered(ApplySend(s)) <==> !Overtakes(s, Send)
  {
    if s.open {
      PushedOrdered(s);
      FlushedCounted(s);
      SendOrdered(Flushed(s), s.calls);
    }
  }

  /** Main result: a run is in order throughout exactly when no call in it overtakes. */
  lemma {:induction false} OrderExactly(states: seq<State>, steps: seq<Step>, n: nat)
    requires IsRun(states, steps) && n < |states|
    ensures (forall i | 0 <= i <= n :: Ordered(states[i])) <==> (forall i | 0 <= i < n :: !Overtakes(states[i], steps[i]))
    decreases n
  {
    if n == 0 {
    } else {
      OrderExactly(states, steps, n - 1);
      if forall i | 0 <= i <= n - 1 :: Ordered(states[i]) {
        assert Follows(states, steps, n - 1);
        StepOrdered(states[n - 1], steps[n - 1]);
        assert Ordered(states[n]) <==> !Overtakes(states[n - 1], steps[n - 1]);
      }
    }
  }

  predicate AllThrow(plan: seq<Reply>) {
    forall i | 0 <= i < |plan| :: plan[i].throws
  }

  /** A socket that has thrown, or has closed, throws from then on. */
  predicate Sticky(plan: seq<Reply>) {
    plan == [] || (Sticky(plan[1..]) && (plan[0].throws || plan[0].closes ==> AllThrow(plan[1..])))
  }

  lemma {:induction false} PushedSticky(s: State)
    requires Sticky(s.plan)
    ensures Sticky(Pushed(s).plan)
    ensures s.open && Pushed(s).buffer != [] ==> !Accepts(Pushed(s))
    decreases |s.buffer|
  {
    if s.buffer == [] || !s.open || !Accepts(s) {
    } else {
      var t := Offered(s, s.buffer[0]).(buffer := s.buffer[1..]);
      PushedSticky(t);
    }
  }

  lemma {:induction false} RunSticky(states: seq<State>, steps: seq<Step>, i: nat)
    requires IsRun(states, steps) && i < |states|
    requires forall k | 0 <= k < |steps| && steps[k].Open? :: Sticky(steps[k].plan)
    ensures Sticky(states[i].plan)
    decreases i
  {
    if i == 0 {
    } else {
      RunSticky(states, steps, i - 1);
      assert Follows(states, steps, i - 1);
      PushedSticky(states[i - 1]);
      PushedSticky(Counted(states[i - 1]));
    }
  }

  /**
   * Main result: when a socket that throws or closes keeps throwing until it is reopened, messages
   * are sent in call order, the buffer is always the latest calls, and drops are older than all of it.
   */
  lemma {:induction false} StickyKeepsOrder(states: seq<State>, steps: seq<Step>, n: nat)
    requires IsRun(states, steps) && n < |states|
    requires forall k | 0 <= k < |steps| && steps[k].Open? :: Sticky(steps[k].plan)
    ensures Ordered(states[n])
  {
    forall i | 0 <= i < n ensures !Overtakes(states[i], steps[i]) {
      RunSticky(states, steps, i);
      PushedSticky(Counted(states[i]));
    }
    OrderExactly(states, steps, n);
  }

  /** A socket that throws once and then recovers delivers the second call before the first. */
  lemma OneThrowReorders()
    ensures
      var recovering := [Reply(true, false), Reply(false, false), Reply(false, false)];
      var s := Apply(Apply(Apply(INITIAL, Send), Step.Open(recovering)), Send);
      s.sent == [1] && s.buffer == [0] && Apply(s, Flush).sent == [1, 0]
  {
    var recovering := [Reply(true, false), Reply(false, false), Reply(false, false)];
    var a := Apply(Apply(INITIAL, Send), Step.Open(recovering));
    var f := Pushed(Counted(a));
    assert f.buffer == [0] && f.plan == [Reply(false, false), Reply(false, false)];
    var s := Apply(a, Send);
    assert s.sent == [1] && s.buffer == [0] && s.plan == [Reply(false, false)];
    var rest := Offered(s, 0).(buffer := s.buffer[1..]);
    assert Pushed(rest) == rest;
  }

  /** So does one that closes under the flush and swallows the next message without throwing. */
  lemma CloseMidFlushReorders()
    ensures
      var closing := [Reply(false, true), Reply(false, false)];
      var s := Apply(Apply(Apply(Apply(INITIAL, Send), Send), Step.Open(closing)), Send);
      (forall i, j | 0 <= i < j < |closing| && closing[i].throws :: closing[j].throws)
      && s.sent == [0, 2] && s.buffer == [1]
  {
    var closing := [Reply(false, true), Reply(false, false)];
    var a := Apply(Apply(Apply(INITIAL, Send), Send), Step.Open(closing));
    assert a.buffer == [0, 1] && a.open;
    var c := Counted(a);
    var next := Offered(c, 0).(buffer := c.buffer[1..]);
    assert next.sent == [0] && next.buffer == [1] && !next.open && next.plan == [Reply(false, false)];
    assert Pushed(next) == next && Pushed(c) == next;
  }

  // ---- the connection object ----

  class Connection {
    var open: bool
    var plan: seq<Reply>
    var calls: nat
    var sendBuffer: seq<nat>
    var droppedSinceLastFlush: nat
    var sent: seq<nat>
    var lost: seq<nat>
    var cleared: seq<nat>
    var reported: nat

    ghost function View(): State
      reads this
    {
      State(open, plan, calls, sendBuffer, droppedSinceLastFlush, sent, lost, cleared, reported)
    }

    constructor ()
      ensures View() == INITIAL
    {
      open, plan, calls, sendBuffer, droppedSinceLastFlush := false, [], 0, [], 0;
      sent, lost, cleared, reported := [], [], [], 0;
    }

    /** The socket's own `send`; false stands for an exception. */
    method Offer(m: nat) returns (ok: bool)
      modifies this`open, this`plan, this`sent
      ensures View() == Offered(old(View()), m) && ok == Accepts(old(View()))
    {
      if |plan| == 0 {
        return false;
      }
      var reply := plan[0];
      plan := plan[1..];
      open := open && !reply.closes;
      if !reply.throws {
        sent := sent + [m];
      }
      return !reply.throws;
    }

    method Buffer(m: nat)
      modifies this`sendBuffer, this`lost, this`droppedSinceLastFlush
      ensures View() == Buffered(old(View()), m)
    {
      if |sendBuffer| >= MAX {
        lost := lost + [sendBuffer[0]];
        sendBuffer := sendBuffer[1..];
        droppedSinceLastFlush := droppedSinceLastFlush + 1;
      }
      sendBuffer := sendBuffer + [m];
    }

    method FlushSendBuffer()
      modifies this
      ensures View() == Flushed(old(View()))
    {
      var more := true;
      while |sendBuffer| > 0 && open && more
        invariant if more then Pushed(View()) == Pushed(old(View())) else View() == Pushed(old(View()))
        decreases |sendBuffer|, more
      {
        var msg := sendBuffer[0];
        ghost var before := View();
        sendBuffer := sendBuffer[1..];
        var ok := Offer(msg);
        if !ok {
          sendBuffer := [msg] + sendBuffer;
          more := false;
          assert View() == Offered(before, msg);
        }
      }
      if |sendBuffer| == 0 && droppedSinceLastFlush > 0 {
        reported := reported + droppedSinceLastFlush;
        droppedSinceLastFlush := 0;
      }
    }

    method Send() returns (ok: bool)
      modifies this
      ensures View() == Apply(old(View()), Step.Send)
      ensures ok == (old(open) && Accepts(Flushed(Counted(old(View())))))
    {
      var data := calls;
      calls := calls + 1;
      if !open {
        Buffer(data);
        return false;
      }
      FlushSendBuffer();
      ok := Offer(data);
      if !ok {
        Buffer(data);
      }
    }

    method ClearSendBuffer()
      modifies this`sendBuffer, this`cleared
      ensures View() == Apply(old(View()), Clear)
    {
      cleared := cleared + sendBuffer;
      sendBuffer := [];
    }
  }
}
