/**
 The async client's hand-off (capi/holytls_capi.c): foreign threads submit under
 one lock, the loop thread dispatches and completes, a foreign consumer drains a
 FIFO guarded by a second lock and woken through a self-pipe. Every critical
 section, pipe operation and wakeup is one step; threads interleave at will.
 */
module Async {

  /** A submission, numbered in the order the queue accepted it. */
  type Token = nat

  /** The loop thread inside on_async: what is left of the detached batch. */
  datatype Loop = Idle | Batch(left: seq<Token>, sawStop: bool) | Exited

  /** The consumer: asleep on the fd, emptying the pipe, or draining the FIFO. */
  datatype Consumer = Asleep | Reading | Draining

  datatype State = State(
    useQueue: bool,                      // use_completion_queue, fixed before the loop runs
    queue: seq<Token>, stopping: bool,   // under qlock
    sends: nat, wake: bool,              // uv_async_send calls not made yet, and the coalesced wakeup
    loop: Loop, ending: bool,            // ending: on_async has seen stopping
    inflight: seq<Token>,                // loop thread only
    fifo: seq<Token>,                    // under clock
    signalDue: bool, pipe: nat,          // a push that found the FIFO empty owes a byte
    consumer: Consumer,
    next: nat,                           // accepted so far
    completed: seq<Token>,               // pushed on the FIFO, in order
    drained: seq<Token>,                 // handed out by holytls_async_drain, in order
    called: seq<Token>)                  // completed through the callback, in order

  datatype Step =
    | Push(n: nat)              // holytls_async_submit (n = 1) or _submit_many, inside qlock
    | Stop                      // holytls_async_stop, inside qlock
    | Send                      // the uv_async_send that follows either
    | OnAsync                   // detach the whole queue
    | Dispatch                  // next of the batch: dispatched, or completed as closing
    | EndBatch
    | Complete(i: nat)          // on_async_response for the i-th request in flight
    | Signal                    // async_completion_signal
    | Exit                      // uv_run returns
    | Wake                      // the fd is readable
    | ReadByte | SawEmpty       // emptying the pipe, until it reports empty
    | Drain(max: nat)           // one holytls_async_drain call

  function Init(useQueue: bool): State {
    State(useQueue, [], false, 0, false, Idle, false, [], [], false, 0, Asleep, 0, [], [], [])
  }

  function Range(from: nat, n: nat): (s: seq<Token>)
    ensures |s| == n && forall i :: 0 <= i < n ==> s[i] == from + i
  {
    seq(n, i => from + i)
  }

  /** The loop thread is running and not in the middle of a completion. */
  predicate LoopFree(s: State) {
    !s.loop.Exited? && !s.signalDue
  }

  predicate Enabled(s: State, step: Step) {
    match step
    case Push(n) => true
    case Stop => true
    case Send => s.sends > 0
    case OnAsync => s.loop.Idle? && LoopFree(s) && s.wake
    case Dispatch => s.loop.Batch? && LoopFree(s) && s.loop.left != []
    case EndBatch => s.loop.Batch? && LoopFree(s) && s.loop.left == []
    case Complete(i) => LoopFree(s) && i < |s.inflight|
    case Signal => s.signalDue
    case Exit => s.loop.Idle? && LoopFree(s) && s.ending
    case Wake => s.consumer.Asleep? && s.pipe > 0
    case ReadByte => s.consumer.Reading? && s.pipe > 0
    case SawEmpty => s.consumer.Reading? && s.pipe == 0
    case Drain(max) => s.consumer.Draining? && max > 0
  }

  /** How many completions one drain call hands out. */
  function Taken(s: State, max: nat): (n: nat)
    ensures n <= |s.fifo| && n <= max
  {
    if |s.fifo| < max then |s.fifo| else max
  }

  function Do(s: State, step: Step): State
    requires Enabled(s, step)
  {
    match step
    case Push(n) =>
      if s.stopping || n == 0 then s
      else s.(queue := s.queue + Range(s.next, n), next := s.next + n, sends := s.sends + 1)
    case Stop => s.(stopping := true, sends := s.sends + 1)
    case Send => s.(sends := s.sends - 1, wake := true)
    case OnAsync =>
      s.(wake := false, queue := [], loop := Batch(s.queue, s.stopping), ending := s.ending || s.stopping)
    case Dispatch =>
      var t, b := s.loop.left[0], s.loop.(left := s.loop.left[1..]);
      if s.loop.sawStop then s.(loop := b, called := s.called + [t])
      else s.(loop := b, inflight := [t] + s.inflight)
    case EndBatch => s.(loop := Idle)
    case Complete(i) =>
      var t, rest := s.inflight[i], s.inflight[..i] + s.inflight[i + 1..];
      if s.useQueue then
        s.(inflight := rest, fifo := s.fifo + [t], completed := s.completed + [t], signalDue := s.fifo == [])
      else s.(inflight := rest, called := s.called + [t])
    case Signal => s.(signalDue := false, pipe := if s.pipe < PIPE_MAX then s.pipe + 1 else s.pipe)
    case Exit => s.(loop := Exited)
    case Wake => s.(consumer := Reading)
    case ReadByte => s.(pipe := s.pipe - 1)
    case SawEmpty => s.(consumer := Draining)
    case Drain(max) =>
      var n := Taken(s, max);
      s.(fifo := s.fifo[n..], drained := s.drained + s.fifo[..n], consumer := if n < max then Asleep else Draining)
  }

  /** A write to a full pipe is dropped: a byte is pending anyway. */
  const PIPE_MAX: nat := 65536

  predicate CanRun(s: State, steps: seq<Step>)
    decreases |steps|
  {
    steps == [] || (Enabled(s, steps[0]) && CanRun(Do(s, steps[0]), steps[1..]))
  }

  function Exec(s: State, steps: seq<Step>): State
    requires CanRun(s, steps)
    decreases |steps|
  {
    if steps == [] then s else Exec(Do(s, steps[0]), steps[1..])
  }

  // ---- invariants

  function BatchOf(s: State): seq<Token> {
    if s.loop.Batch? then s.loop.left else []
  }

  function Count(s: seq<Token>, t: Token): nat {
    multiset(s)[t]
  }

  lemma CountCat(a: seq<Token>, b: seq<Token>, t: Token)
    ensures Count(a + b, t) == Count(a, t) + Count(b, t)
  {
    assert multiset(a + b) == multiset(a) + multiset(b);
  }

  /** How often a submission occurs, over every place it can be. */
  function Everywhere(s: State, t: Token): nat {
    Count(s.queue, t) + Count(BatchOf(s), t) + Count(s.inflight, t) + Count(s.fifo, t)
    + Count(s.drained, t) + Count(s.called, t)
  }

  /** Nothing accepted is lost or duplicated. */
  ghost predicate Conserved(s: State) {
    forall t: Token :: Everywhere(s, t) == if t < s.next then 1 else 0
  }

  /** No lost wakeup, on either side. */
  ghost predicate Awake(s: State) {
    && (s.fifo != [] && s.consumer.Asleep? ==> s.pipe > 0 || s.signalDue)
    && (s.queue != [] ==> s.wake || s.sends > 0)
    && (s.stopping && !s.ending ==> s.wake || s.sends > 0)
  }

  ghost predicate Inv(s: State) {
    Conserved(s) && Awake(s) && StopSeen(s) && s.drained + s.fifo == s.completed
  }

  lemma {:induction false} RangeCount(from: nat, n: nat, t: Token)
    ensures Count(Range(from, n), t) == if from <= t < from + n then 1 else 0
  {
    if n > 0 {
      RangeCount(from, n - 1, t);
      assert Range(from, n) == Range(from, n - 1) + [from + n - 1];
      CountCat(Range(from, n - 1), [from + n - 1], t);
    }
  }

  lemma PushCounts(s: State, n: nat, t: Token)
    requires !s.stopping
    ensures Everywhere(Do(s, Push(n)), t) == Everywhere(s, t) + if s.next <= t < s.next + n then 1 else 0
  {
    RangeCount(s.next, n, t);
    CountCat(s.queue, Range(s.next, n), t);
  }

  lemma FirstCounts(a: seq<Token>, t: Token)
    requires a != []
    ensures Count(a, t) == Count([a[0]], t) + Count(a[1..], t)
  {
    assert a == [a[0]] + a[1..];
    CountCat([a[0]], a[1..], t);
  }

  lemma DispatchCounts(s: State, t: Token)
    requires Enabled(s, Dispatch)
    ensures Everywhere(Do(s, Dispatch), t) == Everywhere(s, t)
  {
    var x := s.loop.left[0];
    FirstCounts(s.loop.left, t);
    if s.loop.sawStop {
      CountCat(s.called, [x], t);
    } else {
      CountCat([x], s.inflight, t);
    }
  }

  lemma CompleteCounts(s: State, i: nat, t: Token)
    requires Enabled(s, Complete(i))
    ensures Everywhere(Do(s, Complete(i)), t) == Everywhere(s, t)
  {
    RemoveCounts(s.inflight, i, t);
    if s.useQueue {
      CountCat(s.fifo, [s.inflight[i]], t);
    } else {
      CountCat(s.called, [s.inflight[i]], t);
    }
  }

  lemma RemoveCounts(a: seq<Token>, i: nat, t: Token)
    requires i < |a|
    ensures Count(a, t) == Count([a[i]], t) + Count(a[..i] + a[i + 1..], t)
  {
    assert a == a[..i] + ([a[i]] + a[i + 1..]);
    CountCat(a[..i], [a[i]] + a[i + 1..], t);
    CountCat([a[i]], a[i + 1..], t);
    CountCat(a[..i], a[i + 1..], t);
  }

  lemma SplitCounts(a: seq<Token>, n: nat, t: Token)
    requires n <= |a|
    ensures Count(a, t) == Count(a[..n], t) + Count(a[n..], t)
  {
    assert a == a[..n] + a[n..];
    CountCat(a[..n], a[n..], t);
  }

  lemma DrainCounts(s: State, max: nat, t: Token)
    requires Enabled(s, Drain(max))
    ensures Everywhere(Do(s, Drain(max)), t) == Everywhere(s, t)
  {
    var n := Taken(s, max);
    SplitCounts(s.fifo, n, t);
    CountCat(s.drained, s.fifo[..n], t);
  }

  /** The other steps move no token, or a whole queue at once. */
  lemma SubmitCounts(s: State, step: Step, t: Token)
    requires Enabled(s, step) && Submitting(step)
    ensures Everywhere(Do(s, step), t) == Everywhere(s, t) + if s.next <= t < Do(s, step).next then 1 else 0
  {
    if step.Push? && !s.stopping { PushCounts(s, step.n, t); }
  }

  lemma LoopCounts(s: State, step: Step, t: Token)
    requires Enabled(s, step) && Looping(step)
    ensures Everywhere(Do(s, step), t) == Everywhere(s, t) && Do(s, step).next == s.next
  {
    if step.Dispatch? {
      DispatchCounts(s, t);
    } else if step.Complete? {
      CompleteCounts(s, step.i, t);
    } else {
      assert Count([], t) == 0;
    }
  }

  lemma ConsumerCounts(s: State, step: Step, t: Token)
    requires Enabled(s, step) && Consuming(step)
    ensures Everywhere(Do(s, step), t) == Everywhere(s, t) && Do(s, step).next == s.next
  {
    if step.Drain? { DrainCounts(s, step.max, t); }
  }

  /** A push adds its own tokens; every other step only moves tokens from one place to another. */
  lemma StepCounts(s: State, step: Step, t: Token)
    requires Enabled(s, step)
    ensures Everywhere(Do(s, step), t) == Everywhere(s, t) + if s.next <= t < Do(s, step).next then 1 else 0
  {
    if Submitting(step) {
      SubmitCounts(s, step, t);
    } else if Looping(step) {
      LoopCounts(s, step, t);
    } else {
      ConsumerCounts(s, step, t);
    }
  }

  lemma StepConserves(s: State, step: Step)
    requires Conserved(s) && Enabled(s, step)
    ensures Conserved(Do(s, step))
  {
    var r := Do(s, step);
    forall t: Token ensures Everywhere(r, t) == if t < r.next then 1 else 0 {
      assert Everywhere(s, t) == if t < s.next then 1 else 0;
      StepCounts(s, step, t);
    }
  }

  // The steps by the thread that takes them.

  predicate Submitting(step: Step) {
    step.Push? || step.Stop? || step.Send?
  }

  predicate Looping(step: Step) {
    step.OnAsync? || step.Dispatch? || step.EndBatch? || step.Complete? || step.Signal? || step.Exit?
  }

  predicate Consuming(step: Step) {
    step.Wake? || step.ReadByte? || step.SawEmpty? || step.Drain?
  }

  lemma SubmitKeepsAwake(s: State, step: Step)
    requires Awake(s) && Enabled(s, step) && Submitting(step) && (s.ending ==> s.stopping && s.queue == [])
    ensures Awake(Do(s, step))
  {
  }

  lemma LoopKeepsAwake(s: State, step: Step)
    requires Awake(s) && Enabled(s, step) && Looping(step)
    ensures Awake(Do(s, step))
  {
  }

  lemma ConsumerKeepsAwake(s: State, step: Step)
    requires Awake(s) && Enabled(s, step) && Consuming(step)
    ensures Awake(Do(s, step))
  {
  }

  lemma StepKeepsAwake(s: State, step: Step)
    requires Awake(s) && Enabled(s, step) && (s.ending ==> s.stopping && s.queue == [])
    ensures Awake(Do(s, step))
  {
    if Submitting(step) {
      SubmitKeepsAwake(s, step);
    } else if Looping(step) {
      LoopKeepsAwake(s, step);
    } else {
      ConsumerKeepsAwake(s, step);
    }
  }

  lemma StepKeepsOrder(s: State, step: Step)
    requires s.drained + s.fifo == s.completed && Enabled(s, step)
    ensures var r := Do(s, step); r.drained + r.fifo == r.completed
  {
    if step.Drain? {
      var n := Taken(s, step.max);
      assert s.drained + s.fifo[..n] + s.fifo[n..] == s.drained + s.fifo;
    } else if step.Complete? {
      assert s.drained + (s.fifo + [s.inflight[step.i]]) == s.drained + s.fifo + [s.inflight[step.i]];
    }
  }

  ghost predicate StopSeen(s: State) {
    && (s.ending ==> s.stopping && s.queue == [])            // stop is final
    && (s.loop.Batch? && s.loop.sawStop ==> s.ending)
    && (s.loop.Exited? ==> s.ending && !s.signalDue)
  }

  lemma SubmitKeepsStop(s: State, step: Step)
    requires StopSeen(s) && Enabled(s, step) && Submitting(step)
    ensures StopSeen(Do(s, step))
  {
  }

  lemma LoopKeepsStop(s: State, step: Step)
    requires StopSeen(s) && Enabled(s, step) && Looping(step)
    ensures StopSeen(Do(s, step))
  {
  }

  lemma ConsumerKeepsStop(s: State, step: Step)
    requires StopSeen(s) && Enabled(s, step) && Consuming(step)
    ensures StopSeen(Do(s, step))
  {
  }

  lemma StepKeepsStop(s: State, step: Step)
    requires StopSeen(s) && Enabled(s, step)
    ensures StopSeen(Do(s, step))
  {
    if Submitting(step) {
      SubmitKeepsStop(s, step);
    } else if Looping(step) {
      LoopKeepsStop(s, step);
    } else {
      ConsumerKeepsStop(s, step);
    }
  }

  lemma StepKeepsInv(s: State, step: Step)
    requires Inv(s) && Enabled(s, step)
    ensures Inv(Do(s, step))
  {
    StepConserves(s, step);
    StepKeepsAwake(s, step);
    StepKeepsOrder(s, step);
    StepKeepsStop(s, step);
  }

  lemma {:induction false} RunKeepsInv(s: State, steps: seq<Step>)
    requires Inv(s) && CanRun(s, steps)
    ensures Inv(Exec(s, steps))
    decreases |steps|
  {
    if steps != [] {
      StepKeepsInv(s, steps[0]);
      RunKeepsInv(Do(s, steps[0]), steps[1..]);
    }
  }

  lemma InitInv(useQueue: bool)
    ensures Inv(Init(useQueue))
  {
  }

  // ---- what every run guarantees

  /** While completions wait, a byte is readable, a byte is owed, or the consumer is up and will look again. */
  lemma NoLostWakeup(useQueue: bool, steps: seq<Step>)
    requires CanRun(Init(useQueue), steps)
    ensures var s := Exec(Init(useQueue), steps);
      && (s.fifo != [] ==> s.pipe > 0 || s.signalDue || !s.consumer.Asleep?)
      && (s.queue != [] ==> s.wake || s.sends > 0)
  {
    InitInv(useQueue);
    RunKeepsInv(Init(useQueue), steps);
  }

  /** So an undrained completion is never stuck: whenever one waits, some step of the hand-off can move. */
  lemma WaitingMeansMovable(useQueue: bool, steps: seq<Step>)
    requires CanRun(Init(useQueue), steps) && Exec(Init(useQueue), steps).fifo != []
    ensures var s := Exec(Init(useQueue), steps);
      Enabled(s, Signal) || Enabled(s, Wake) || Enabled(s, ReadByte) || Enabled(s, SawEmpty) || Enabled(s, Drain(1))
  {
    NoLostWakeup(useQueue, steps);
  }

  /** Each accepted submission is in exactly one place; drains come out in completion order, each at most once. */
  lemma AsyncConservation(useQueue: bool, steps: seq<Step>, t: Token)
    requires CanRun(Init(useQueue), steps)
    ensures var s := Exec(Init(useQueue), steps);
      && Count(s.queue, t) + Count(BatchOf(s), t) + Count(s.inflight, t) + Count(s.fifo, t)
         + Count(s.drained, t) + Count(s.called, t) == (if t < s.next then 1 else 0)
      && s.drained <= s.completed && s.drained + s.fifo == s.completed
  {
    InitInv(useQueue);
    RunKeepsInv(Init(useQueue), steps);
    var s := Exec(Init(useQueue), steps);
    assert Everywhere(s, t) == if t < s.next then 1 else 0;
  }

  /** Once on_async has seen stopping, the submit queue is empty and stays so in every continuation. */
  lemma {:induction false} StopIsFinal(s: State, steps: seq<Step>)
    requires Inv(s) && s.ending && CanRun(s, steps)
    ensures var r := Exec(s, steps); r.ending && r.queue == [] && r.next == s.next
    decreases |steps|
  {
    if steps != [] {
      StepKeepsInv(s, steps[0]);
      StopIsFinal(Do(s, steps[0]), steps[1..]);
    }
  }

  /** After the loop has exited, what was in flight stays abandoned there, for ever. */
  lemma {:induction false} ExitAbandonsInflight(s: State, steps: seq<Step>)
    requires Inv(s) && s.loop.Exited? && CanRun(s, steps)
    ensures var r := Exec(s, steps); r.loop.Exited? && r.inflight == s.inflight && r.called == s.called
    decreases |steps|
  {
    if steps != [] {
      StepKeepsInv(s, steps[0]);
      ExitAbandonsInflight(Do(s, steps[0]), steps[1..]);
    }
  }

  // ---- how many bytes can be unread

  lemma ExecCons(s: State, step: Step, rest: seq<Step>)
    requires Enabled(s, step) && CanRun(Do(s, step), rest)
    ensures CanRun(s, [step] + rest) && Exec(s, [step] + rest) == Exec(Do(s, step), rest)
  {
    assert ([step] + rest)[1..] == rest;
  }

  lemma {:induction false} ExecCat(s: State, a: seq<Step>, b: seq<Step>)
    requires CanRun(s, a) && CanRun(Exec(s, a), b)
    ensures CanRun(s, a + b) && Exec(s, a + b) == Exec(Exec(s, a), b)
    decreases |a|
  {
    if a == [] {
      assert a + b == b;
    } else {
      ExecCat(Do(s, a[0]), a[1..], b);
      assert (a + b)[1..] == a[1..] + b;
    }
  }

  /** No drain call gets exactly as many completions as it asked for while that empties the FIFO. */
  predicate NoExactDrain(s: State, steps: seq<Step>)
    requires CanRun(s, steps)
    decreases |steps|
  {
    steps == []
    || ((steps[0].Drain? ==> |s.fifo| != steps[0].max) && NoExactDrain(Do(s, steps[0]), steps[1..]))
  }

  function Owed(s: State): nat {
    if s.signalDue then 1 else 0
  }

  /** One byte for one stretch of a non-empty FIFO. */
  predicate OneByte(s: State) {
    && s.pipe + Owed(s) <= 1
    && (s.fifo == [] ==> s.pipe + Owed(s) == 0 && s.consumer.Asleep?)
    && (s.consumer.Reading? ==> !s.signalDue)
    && (s.consumer.Draining? ==> s.pipe + Owed(s) == 0)
  }

  lemma SubmitKeepsOneByte(s: State, step: Step)
    requires OneByte(s) && Enabled(s, step) && Submitting(step)
    ensures OneByte(Do(s, step))
  {
  }

  lemma LoopKeepsOneByte(s: State, step: Step)
    requires OneByte(s) && Enabled(s, step) && Looping(step)
    ensures OneByte(Do(s, step))
  {
  }

  lemma ConsumerKeepsOneByte(s: State, step: Step)
    requires OneByte(s) && Enabled(s, step) && Consuming(step) && (step.Drain? ==> |s.fifo| != step.max)
    ensures OneByte(Do(s, step))
  {
  }

  /** At most one byte is unread in every run without an exact drain. */
  lemma {:induction false} OneByteRun(s: State, steps: seq<Step>)
    requires OneByte(s) && CanRun(s, steps) && NoExactDrain(s, steps)
    ensures OneByte(Exec(s, steps))
    decreases |steps|
  {
    if steps != [] {
      var step := steps[0];
      if Submitting(step) {
        SubmitKeepsOneByte(s, step);
      } else if Looping(step) {
        LoopKeepsOneByte(s, step);
      } else {
        ConsumerKeepsOneByte(s, step);
      }
      OneByteRun(Do(s, step), steps[1..]);
    }
  }

  lemma AtMostOneByte(useQueue: bool, steps: seq<Step>)
    requires CanRun(Init(useQueue), steps) && NoExactDrain(Init(useQueue), steps)
    ensures Exec(Init(useQueue), steps).pipe <= 1
  {
    OneByteRun(Init(useQueue), steps);
  }

  /** With an exact drain behind it, a consumer that drains one at a time leaves two bytes behind. */
  lemma BytesPileUp(s: State) returns (steps: seq<Step>)
    requires s.useQueue && LoopFree(s) && s.consumer.Draining? && s.fifo == [] && |s.inflight| >= 2
    requires s.pipe + 2 <= PIPE_MAX
    ensures CanRun(s, steps) && Exec(s, steps).pipe == s.pipe + 2
  {
    var a := Do(s, Complete(0));
    var b := Do(a, Signal);
    var c := Do(b, Drain(1));
    var d := Do(c, Complete(0));
    ExecCons(d, Signal, []);
    ExecCons(c, Complete(0), [Signal] + []);
    ExecCons(b, Drain(1), [Complete(0)] + ([Signal] + []));
    ExecCons(a, Signal, [Drain(1)] + ([Complete(0)] + ([Signal] + [])));
    steps := [Complete(0)] + ([Signal] + ([Drain(1)] + ([Complete(0)] + ([Signal] + []))));
    ExecCons(s, Complete(0), [Signal] + ([Drain(1)] + ([Complete(0)] + ([Signal] + []))));
  }

  /** Wherever an exact drain is taken with two requests still in flight, some continuation passes one byte. */
  lemma ExactDrainBreaksBound(s: State, max: nat) returns (steps: seq<Step>)
    requires Enabled(s, Drain(max)) && |s.fifo| == max && s.useQueue && LoopFree(s) && |s.inflight| >= 2
    requires s.pipe + 2 <= PIPE_MAX
    ensures CanRun(s, [Drain(max)] + steps) && Exec(s, [Drain(max)] + steps).pipe >= 2
  {
    steps := BytesPileUp(Do(s, Drain(max)));
    ExecCons(s, Drain(max), steps);
  }

  // A run from the start to an exact drain: three requests submitted, ...

  const Detached := State(true, [], false, 0, false, Batch([0, 1, 2], false), false, [], [], false, 0, Asleep, 3, [], [], [])

  lemma SubmitThree(s: State, t: State)
    requires s == Init(true) && t == Detached
    ensures CanRun(s, [Push(3), Send, OnAsync]) && Exec(s, [Push(3), Send, OnAsync]) == t
  {
    var a := Do(s, Push(3));
    assert a.queue == [0, 1, 2];
    ExecThree(s, Push(3), Send, OnAsync);
  }

  // ... dispatched, ...

  const InFlight := Detached.(loop := Batch([], false), inflight := [2, 1, 0])

  lemma DispatchThree(s: State, t: State)
    requires s == Detached && t == InFlight
    ensures CanRun(s, [Dispatch, Dispatch, Dispatch]) && Exec(s, [Dispatch, Dispatch, Dispatch]) == t
  {
    var a := Do(s, Dispatch);
    assert a.loop.left == [1, 2] && a.inflight == [0];
    var b := Do(a, Dispatch);
    assert b.loop.left == [2] && b.inflight == [1, 0];
    var c := Do(b, Dispatch);
    assert c.loop.left == [] && c.inflight == [2, 1, 0];
    assert c == t;
    ExecThree(s, Dispatch, Dispatch, Dispatch);
  }

  // ... one of them completed, ...

  const Completed := InFlight.(loop := Idle, inflight := [1, 0], fifo := [2], completed := [2], pipe := 1)

  lemma CompleteFirst(s: State, t: State)
    requires s == InFlight && t == Completed
    ensures CanRun(s, [EndBatch, Complete(0), Signal]) && Exec(s, [EndBatch, Complete(0), Signal]) == t
  {
    var a := Do(Do(s, EndBatch), Complete(0));
    assert a.inflight == [1, 0] && a.fifo == [2] && a.completed == [2];
    ExecThree(s, EndBatch, Complete(0), Signal);
  }

  // ... and the consumer about to drain it.

  const AboutToDrain := Completed.(pipe := 0, consumer := Draining)

  lemma WakeUp(s: State, t: State)
    requires s == Completed && t == AboutToDrain
    ensures CanRun(s, [Wake, ReadByte, SawEmpty]) && Exec(s, [Wake, ReadByte, SawEmpty]) == t
  {
    ExecThree(s, Wake, ReadByte, SawEmpty);
  }

  lemma FourLegs(s: State, a: seq<Step>, t: State, b: seq<Step>, u: State, c: seq<Step>, v: State, d: seq<Step>, w: State)
    requires CanRun(s, a) && Exec(s, a) == t && CanRun(t, b) && Exec(t, b) == u
    requires CanRun(u, c) && Exec(u, c) == v && CanRun(v, d) && Exec(v, d) == w
    ensures CanRun(s, a + (b + (c + d))) && Exec(s, a + (b + (c + d))) == w
  {
    ExecCat(u, c, d);
    ExecCat(t, b, c + d);
    ExecCat(s, a, b + (c + d));
  }

  lemma ReachExactDrain(s: State, w: State) returns (steps: seq<Step>)
    requires s == Init(true) && w == AboutToDrain
    ensures CanRun(s, steps) && Exec(s, steps) == w
  {
    var t, u, v := Detached, InFlight, Completed;
    SubmitThree(s, t);
    DispatchThree(t, u);
    CompleteFirst(u, v);
    WakeUp(v, w);
    var a, b, c, d := [Push(3), Send, OnAsync], [Dispatch, Dispatch, Dispatch],
                      [EndBatch, Complete(0), Signal], [Wake, ReadByte, SawEmpty];
    FourLegs(s, a, t, b, u, c, v, d, w);
    steps := a + (b + (c + d));
  }

  lemma ExecThree(s: State, a: Step, b: Step, c: Step)
    requires Enabled(s, a) && Enabled(Do(s, a), b) && Enabled(Do(Do(s, a), b), c)
    ensures CanRun(s, [a, b, c]) && Exec(s, [a, b, c]) == Do(Do(Do(s, a), b), c)
  {
    var s1, s2 := Do(s, a), Do(Do(s, a), b);
    ExecCons(s2, c, []);
    ExecCons(s1, b, [c] + []);
    ExecCons(s, a, [b] + ([c] + []));
    assert [a, b, c] == [a] + ([b] + ([c] + []));
  }

  /** So the documented bound of one byte fails in a run from the start. */
  lemma TwoBytesReached(s: State) returns (steps: seq<Step>)
    requires s == Init(true)
    ensures CanRun(s, steps) && Exec(s, steps).pipe >= 2
  {
    var w := AboutToDrain;
    var a := ReachExactDrain(s, w);
    var b := ExactDrainBreaksBound(w, 1);
    steps := a + ([Drain(1)] + b);
    ExecCat(s, a, [Drain(1)] + b);
  }

  // ---- how soon the FIFO is empty

  /** The steps that carry completions from the FIFO to the caller. */
  predicate HandOff(step: Step) {
    step.Signal? || Consuming(step)
  }

  /** What is left to do: bytes to write and read, completions to drain, and the consumer's way through its phases. */
  function Chores(s: State): nat {
    4 * s.pipe + 5 * Owed(s) + |s.fifo|
    + match s.consumer
      case Asleep => 1
      case Reading => if s.pipe > 0 then 0 else 3
      case Draining => 2
  }

  lemma HandOffShrinks(s: State, step: Step)
    requires Enabled(s, step) && HandOff(step)
    ensures Chores(Do(s, step)) < Chores(s)
  {
  }

  /** A run of hand-off steps is no longer than its chores, and when none is left to take the FIFO is empty. */
  lemma {:induction false} HandOffEmpties(s: State, steps: seq<Step>)
    requires Inv(s) && CanRun(s, steps) && forall i :: 0 <= i < |steps| ==> HandOff(steps[i])
    ensures |steps| + Chores(Exec(s, steps)) <= Chores(s)
    ensures var r := Exec(s, steps);
      (forall step :: HandOff(step) ==> !Enabled(r, step)) ==> r.fifo == []
    decreases |steps|
  {
    if steps == [] {
      if s.fifo != [] {
        assert Enabled(s, Signal) || Enabled(s, Wake) || Enabled(s, ReadByte) || Enabled(s, SawEmpty) || Enabled(s, Drain(1));
      }
    } else {
      StepKeepsInv(s, steps[0]);
      HandOffShrinks(s, steps[0]);
      HandOffEmpties(Do(s, steps[0]), steps[1..]);
    }
  }

  // ---- the two list walks

  /** Phase 1 of holytls_async_submit_many: all the copies, or none of them. */
  method CopyAll(copies: seq<bool>, first: Token) returns (ok: bool, list: seq<Token>)
    ensures ok <==> forall i :: 0 <= i < |copies| ==> copies[i]
    ensures list == if ok then Range(first, |copies|) else []
  {
    ok, list := true, [];
    var i := 0;
    while i < |copies| && ok
      decreases |copies| - i, ok
      invariant 0 <= i <= |copies|
      invariant ok ==> list == Range(first, i) && forall j :: 0 <= j < i ==> copies[j]
      invariant !ok ==> list == [] && exists j :: 0 <= j < |copies| && !copies[j]
    {
      if copies[i] {
        list := list + [first + i];
        i := i + 1;
      } else {
        ok, list := false, [];
      }
    }
  }

  /** holytls_async_submit_many: one push of the whole batch, or nothing. */
  method SubmitMany(s: State, copies: seq<bool>) returns (ok: bool, s': State)
    ensures ok <==> (forall i :: 0 <= i < |copies| ==> copies[i]) && (|copies| == 0 || !s.stopping)
    ensures s' == if ok then Do(s, Push(|copies|)) else s
  {
    s' := s;
    if |copies| == 0 { return true, s; }
    var list;
    ok, list := CopyAll(copies, s.next);
    if ok && s.stopping { ok := false; }
    if ok {
      s' := s.(queue := s.queue + list, next := s.next + |list|, sends := s.sends + 1);
    }
  }

  /** holytls_async_drain: walk at most `max` nodes, detach them, keep the rest queued. */
  method Detach(fifo: seq<Token>, max: nat) returns (out: seq<Token>, rest: seq<Token>)
    ensures out + rest == fifo
    ensures |out| == if |fifo| < max then |fifo| else max
  {
    var n := 0;
    while n < |fifo| && n < max
      invariant n <= |fifo| && n <= max
    {
      n := n + 1;
    }
    out, rest := fifo[..n], fifo[n..];
  }

  /** The whole call: what it hands out, and the FIFO it leaves. */
  method DrainCall(s: State, max: nat) returns (out: seq<Token>, s': State)
    requires Enabled(s, Drain(max))
    ensures s' == Do(s, Drain(max)) && s'.drained == s.drained + out
  {
    var rest;
    out, rest := Detach(s.fifo, max);
    assert out == s.fifo[..|out|] && rest == s.fifo[|out|..];
    s' := s.(fifo := rest, drained := s.drained + out, consumer := if |out| < max then Asleep else Draining);
  }
}
