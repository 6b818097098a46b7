/**
 Where the async client sends each submission, over every run: in flight, to the
 completion FIFO or to the callback, by the mode of the client and by whether
 on_async had seen the stop when it took the submission off the queue.
 */
module AsyncRoutes {
  import opened Async

  /** What on_async takes off the queue in one step, if it has seen the stop (`closing`) or not. */
  function Taking(s: State, step: Step, closing: bool): seq<Token> {
    if step.OnAsync? && s.stopping == closing then s.queue else []
  }

  /** And over a run, in order. */
  function TakenOff(s: State, steps: seq<Step>, closing: bool): seq<Token>
    requires CanRun(s, steps)
    decreases |steps|
  {
    if steps == [] then [] else Taking(s, steps[0], closing) + TakenOff(Do(s, steps[0]), steps[1..], closing)
  }

  /** The requests whose responses arrived in a run, in order. */
  function Answered(s: State, steps: seq<Step>): seq<Token>
    requires CanRun(s, steps)
    decreases |steps|
  {
    if steps == [] then [] else Answer(s, steps[0]) + Answered(Do(s, steps[0]), steps[1..])
  }

  function Answer(s: State, step: Step): seq<Token>
    requires Enabled(s, step)
  {
    if step.Complete? then [s.inflight[step.i]] else []
  }

  /** What is left of a batch that was taken off before, or after, the stop was seen. */
  function Pending(s: State, closing: bool): seq<Token> {
    if s.loop.Batch? && s.loop.sawStop == closing then s.loop.left else []
  }

  // ---- the queue is first in, first out

  /** What leaves the queue, in the order it was accepted: all batches together. */
  function Off(s: State, steps: seq<Step>): seq<Token>
    requires CanRun(s, steps)
    decreases |steps|
  {
    if steps == [] then [] else (if steps[0].OnAsync? then s.queue else []) + Off(Do(s, steps[0]), steps[1..])
  }

  /** Submissions are numbered as they come, all of a push or, once stopping, none of it. */
  lemma NumberStep(s: State, step: Step)
    requires Enabled(s, step)
    ensures Do(s, step).next == s.next + if step.Push? && !s.stopping then step.n else 0
    ensures Do(s, step).stopping <==> s.stopping || step.Stop?
  {
    if Submitting(step) {
      if step.Push? { assert step.n == 0 ==> Do(s, step) == s; }
    } else if Looping(step) {
      assert Do(s, step).next == s.next;
    } else {
      assert Do(s, step).next == s.next;
    }
  }

  lemma QueueStep(s: State, step: Step)
    requires Enabled(s, step)
    ensures var r := Do(s, step);
      && s.next <= r.next && (if step.OnAsync? then s.queue else []) + r.queue == s.queue + Range(s.next, r.next - s.next)
  {
    NumberStep(s, step);
    if step.OnAsync? {
      assert s.queue + [] == s.queue + Range(s.next, 0);
    } else if step.Push? && !s.stopping {
      assert [] + (s.queue + Range(s.next, step.n)) == s.queue + Range(s.next, step.n);
    } else {
      assert Do(s, step).queue == s.queue;
      assert [] + s.queue == s.queue + Range(s.next, 0);
    }
  }

  lemma Rejoin(off: seq<Token>, rest: seq<Token>, queue: seq<Token>, mid: seq<Token>, queue0: seq<Token>, a: seq<Token>,
               b: seq<Token>, all: seq<Token>)
    requires off + mid == queue0 + a && rest + queue == mid + b && all == a + b
    ensures off + rest + queue == queue0 + all
  {
    assert off + rest + queue == off + (rest + queue) == off + (mid + b) == off + mid + b == queue0 + a + b;
  }

  lemma {:induction false} QueueInOrder(s: State, steps: seq<Step>)
    requires CanRun(s, steps)
    ensures var r := Exec(s, steps);
      && s.next <= r.next && Off(s, steps) + r.queue == s.queue + Range(s.next, r.next - s.next)
    decreases |steps|
  {
    if steps == [] {
      assert s.queue + [] == s.queue && [] + s.queue == s.queue;
    } else {
      var mid := Do(s, steps[0]);
      QueueStep(s, steps[0]);
      QueueInOrder(mid, steps[1..]);
      var r := Exec(s, steps);
      var a, b := Range(s.next, mid.next - s.next), Range(mid.next, r.next - mid.next);
      assert Range(s.next, r.next - s.next) == a + b;
      Rejoin(if steps[0].OnAsync? then s.queue else [], Off(mid, steps[1..]), r.queue, mid.queue, s.queue, a, b, a + b);
    }
  }

  // ---- in flight

  lemma DispatchFlies(s: State, t: Token)
    requires Enabled(s, Dispatch)
    ensures var r := Do(s, Dispatch);
      Count(r.inflight, t) + Count(Pending(r, false), t) == Count(s.inflight, t) + Count(Pending(s, false), t)
  {
    if !s.loop.sawStop {
      FirstCounts(s.loop.left, t);
      CountCat([s.loop.left[0]], s.inflight, t);
    }
  }

  lemma OthersStay(s: State, step: Step, closing: bool)
    requires Enabled(s, step) && !step.Dispatch? && !step.Complete?
    ensures Do(s, step).inflight == s.inflight
    ensures Pending(Do(s, step), closing) == Pending(s, closing) + Taking(s, step, closing)
  {
    if step.OnAsync? {
      assert [] + s.queue == s.queue;
    } else if step.EndBatch? {
      assert s.loop.left == [];
    } else {
      assert Do(s, step).loop == s.loop || step.Exit?;
      assert Pending(s, closing) + [] == Pending(s, closing);
    }
  }

  /** A response takes one request out of flight; only a batch taken off before the stop puts any in. */
  lemma FlightStep(s: State, step: Step, t: Token)
    requires Enabled(s, step)
    ensures var r := Do(s, step);
      Count(r.inflight, t) + Count(Answer(s, step), t) + Count(Pending(r, false), t)
      == Count(s.inflight, t) + Count(Pending(s, false), t) + Count(Taking(s, step, false), t)
  {
    assert Count([], t) == 0;
    if step.Dispatch? {
      DispatchFlies(s, t);
    } else if step.Complete? {
      RemoveCounts(s.inflight, step.i, t);
    } else {
      OthersStay(s, step, false);
      CountCat(Pending(s, false), Taking(s, step, false), t);
    }
  }

  lemma {:induction false} FlightExactly(s: State, steps: seq<Step>, t: Token)
    requires CanRun(s, steps)
    ensures var r := Exec(s, steps);
      Count(r.inflight, t) + Count(Answered(s, steps), t) + Count(Pending(r, false), t)
      == Count(s.inflight, t) + Count(Pending(s, false), t) + Count(TakenOff(s, steps, false), t)
    decreases |steps|
  {
    if steps != [] {
      var mid := Do(s, steps[0]);
      FlightStep(s, steps[0], t);
      FlightExactly(mid, steps[1..], t);
      CountCat(Answer(s, steps[0]), Answered(mid, steps[1..]), t);
      CountCat(Taking(s, steps[0], false), TakenOff(mid, steps[1..], false), t);
    }
  }

  // ---- the completion queue

  lemma QueueModeStep(s: State, step: Step)
    requires Enabled(s, step) && s.useQueue
    ensures var r := Do(s, step);
      && r.useQueue && r.completed == s.completed + Answer(s, step)
      && r.called + Pending(r, true) == s.called + Pending(s, true) + Taking(s, step, true)
  {
    if step.Dispatch? && s.loop.sawStop {
      assert s.called + [s.loop.left[0]] + s.loop.left[1..] == s.called + s.loop.left;
    }
  }

  /** With the queue on, responses go to the FIFO in their order, and the callback gets the closing batch in its order. */
  lemma {:induction false} QueueModeRun(s: State, steps: seq<Step>)
    requires CanRun(s, steps) && s.useQueue
    ensures var r := Exec(s, steps);
      && r.completed == s.completed + Answered(s, steps)
      && r.called + Pending(r, true) == s.called + Pending(s, true) + TakenOff(s, steps, true)
    decreases |steps|
  {
    if steps == [] {
      assert s.called + Pending(s, true) + [] == s.called + Pending(s, true);
    } else {
      QueueModeStep(s, steps[0]);
      QueueModeRun(Do(s, steps[0]), steps[1..]);
      var mid := Do(s, steps[0]);
      Associate(s.called + Pending(s, true), Taking(s, steps[0], true), TakenOff(mid, steps[1..], true));
      Associate(s.completed, Answer(s, steps[0]), Answered(mid, steps[1..]));
    }
  }

  // ---- the callback

  /** Nothing has ever gone near the completion queue. */
  predicate QueueUnused(s: State) {
    !s.useQueue && s.fifo == [] && s.completed == [] && s.drained == [] && s.pipe == 0 && !s.signalDue
    && s.consumer.Asleep?
  }

  /** Whom a step calls back: a response's request, or the next of a closing batch. */
  function Calling(s: State, step: Step): seq<Token>
    requires Enabled(s, step)
  {
    if step.Complete? then [s.inflight[step.i]]
    else if step.Dispatch? && s.loop.sawStop then [s.loop.left[0]]
    else []
  }

  function Called(s: State, steps: seq<Step>): seq<Token>
    requires CanRun(s, steps)
    decreases |steps|
  {
    if steps == [] then [] else Calling(s, steps[0]) + Called(Do(s, steps[0]), steps[1..])
  }

  lemma CallbackModeStep(s: State, step: Step)
    requires Enabled(s, step) && QueueUnused(s)
    ensures QueueUnused(Do(s, step)) && Do(s, step).called == s.called + Calling(s, step)
  {
  }

  lemma CallingCounts(s: State, step: Step, t: Token)
    requires Enabled(s, step)
    ensures Count(Calling(s, step), t) + Count(Pending(Do(s, step), true), t)
         == Count(Answer(s, step), t) + Count(Pending(s, true), t) + Count(Taking(s, step, true), t)
  {
    assert Count([], t) == 0;
    if step.Dispatch? {
      FirstCounts(s.loop.left, t);
    } else if !step.Complete? {
      OthersStay(s, step, true);
      CountCat(Pending(s, true), Taking(s, step, true), t);
    }
  }

  lemma {:induction false} CalledCounts(s: State, steps: seq<Step>, t: Token)
    requires CanRun(s, steps)
    ensures Count(Called(s, steps), t) + Count(Pending(Exec(s, steps), true), t)
         == Count(Answered(s, steps), t) + Count(Pending(s, true), t) + Count(TakenOff(s, steps, true), t)
    decreases |steps|
  {
    if steps != [] {
      var mid := Do(s, steps[0]);
      CallingCounts(s, steps[0], t);
      CalledCounts(mid, steps[1..], t);
      CountCat(Calling(s, steps[0]), Called(mid, steps[1..]), t);
      CountCat(Answer(s, steps[0]), Answered(mid, steps[1..]), t);
      CountCat(Taking(s, steps[0], true), TakenOff(mid, steps[1..], true), t);
    }
  }

  /** Without it, every response and every submission of the closing batch is called back, as it happens. */
  lemma {:induction false} CallbackModeRun(s: State, steps: seq<Step>)
    requires CanRun(s, steps) && QueueUnused(s)
    ensures QueueUnused(Exec(s, steps)) && Exec(s, steps).called == s.called + Called(s, steps)
    decreases |steps|
  {
    if steps == [] {
      assert s.called + [] == s.called;
    } else {
      CallbackModeStep(s, steps[0]);
      CallbackModeRun(Do(s, steps[0]), steps[1..]);
      Associate(s.called, Calling(s, steps[0]), Called(Do(s, steps[0]), steps[1..]));
    }
  }

  lemma Associate(a: seq<Token>, b: seq<Token>, c: seq<Token>)
    ensures a + b + c == a + (b + c)
  {
  }

  // ---- from the start

  /** Before anything has happened. */
  predicate Fresh(s: State) {
    && s.queue == [] && s.next == 0 && s.loop.Idle? && s.inflight == [] && s.called == []
    && s.completed == [] && s.drained == [] && s.fifo == [] && s.pipe == 0 && !s.signalDue && s.consumer.Asleep?
  }

  lemma InitIsFresh(useQueue: bool)
    ensures Fresh(Init(useQueue)) && Init(useQueue).useQueue == useQueue
  {
  }

  lemma NothingFirst(a: seq<Token>, b: seq<Token>, x: seq<Token>, y: seq<Token>)
    requires a == [] && b == [] && y == a + b + x
    ensures y == x
  {
  }

  /** Submissions leave the queue in the order they were accepted, whoever submitted them. */
  lemma FirstInFirstOut(s: State, steps: seq<Step>)
    requires Fresh(s) && CanRun(s, steps)
    ensures Off(s, steps) + Exec(s, steps).queue == Range(0, Exec(s, steps).next)
  {
    QueueInOrder(s, steps);
    var r, off := Exec(s, steps), Off(s, steps);
    NothingFirst([], [], Range(0, r.next), off + r.queue);
  }

  /** With a completion queue the callback gets the closing batch, in order, and nobody else. */
  lemma QueueModeCalls(s: State, steps: seq<Step>)
    requires Fresh(s) && s.useQueue && CanRun(s, steps)
    ensures Exec(s, steps).called + Pending(Exec(s, steps), true) == TakenOff(s, steps, true)
  {
    QueueModeRun(s, steps);
    var r, off := Exec(s, steps), TakenOff(s, steps, true);
    NothingFirst(s.called, Pending(s, true), off, r.called + Pending(r, true));
  }

  /** And every response comes out of the FIFO, in the order in which they arrived. */
  lemma QueueModeCompletes(s: State, steps: seq<Step>)
    requires Fresh(s) && s.useQueue && CanRun(s, steps)
    ensures Exec(s, steps).drained + Exec(s, steps).fifo == Answered(s, steps)
  {
    QueueModeRun(s, steps);
    RunKeepsOrder(s, steps);
    var r, all := Exec(s, steps), Answered(s, steps);
    NothingFirst(s.completed, [], all, r.drained + r.fifo);
  }

  lemma {:induction false} RunKeepsOrder(s: State, steps: seq<Step>)
    requires CanRun(s, steps) && s.drained + s.fifo == s.completed
    ensures Exec(s, steps).drained + Exec(s, steps).fifo == Exec(s, steps).completed
    decreases |steps|
  {
    if steps != [] {
      StepKeepsOrder(s, steps[0]);
      RunKeepsOrder(Do(s, steps[0]), steps[1..]);
    }
  }

  /** Without one, FIFO and pipe stay empty and the callback gets them all, as they happen. */
  lemma CallbackModeCalls(s: State, steps: seq<Step>)
    requires Fresh(s) && !s.useQueue && CanRun(s, steps)
    ensures var r := Exec(s, steps); r.fifo == [] && r.completed == [] && r.drained == [] && r.pipe == 0
    ensures Exec(s, steps).called == Called(s, steps)
  {
    CallbackModeRun(s, steps);
    var r, all := Exec(s, steps), Called(s, steps);
    NothingFirst(s.called, [], all, r.called);
  }

  /** A batch taken off with the stop seen goes to the callback whole and in order, and puts nothing in flight. */
  lemma {:induction false} ClosingBatch(s: State, n: nat)
    requires s.loop.Batch? && s.loop.sawStop && LoopFree(s) && n <= |s.loop.left|
    ensures var steps := seq(n, _ => Dispatch);
      && CanRun(s, steps)
      && Exec(s, steps) == s.(loop := s.loop.(left := s.loop.left[n..]), called := s.called + s.loop.left[..n])
    decreases n
  {
    var steps := seq(n, _ => Dispatch);
    if n == 0 {
      assert s.called + s.loop.left[..0] == s.called;
    } else {
      var mid := Do(s, Dispatch);
      ClosingBatch(mid, n - 1);
      assert steps[1..] == seq(n - 1, _ => Dispatch);
      assert s.loop.left[1..][n - 1..] == s.loop.left[n..];
      assert s.called + [s.loop.left[0]] + s.loop.left[1..][..n - 1] == s.called + s.loop.left[..n];
    }
  }
}
