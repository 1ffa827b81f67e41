/** How requests reach the loop: producers push under the queue's lock and then ring an eventfd; the loop
    sleeps in epoll until something is ready, silences the eventfd, takes the whole queue, handles it,
    and dispatches. Any interleaving of single steps is a run. */
module Wakeup {
  import opened Text
  import opened Connections

  datatype LoopPc = Waiting | Consuming | Swapping | Handling | Dispatching

  /** The eventfd refuses a write that would exceed this value; it stays readable then. */
  const MAX_COUNTER := 0xFFFF_FFFF_FFFF_FFFE

  /** `owing` producers have pushed but not yet rung; `asked` records all pushes in lock order. */
  datatype State = State(
    pc: LoopPc, counter: nat, queue: seq<Request>, batch: seq<Request>,
    owing: nat, loopOwes: bool,
    asked: seq<Request>, handled: seq<Request>)

  const START := State(Waiting, 0, [], [], 0, false, [], [])

  datatype Step =
    | Ask(req: Request)      // a producer thread pushes
    | Ring                   // a producer that has pushed rings
    | ExtraRing              // a stop request rings without pushing
    | LoopAsk(req: Request)  // the loop pushes while dispatching
    | LoopRing
    | WakeUp(byEventFd: bool) // epoll_wait returns, for the eventfd or for a connection
    | ConsumeRead            // a read of the eventfd that finds it set
    | ConsumeAgain           // a read that finds it clear ends the consuming
    | Swap
    | HandleOne
    | HandleDone
    | DispatchDone

  function Rung(counter: nat): nat {
    if counter < MAX_COUNTER then counter + 1 else counter
  }

  /** The program consumes before it swaps. With `consumeFirst` false the two are exchanged. */
  function AfterWake(consumeFirst: bool): LoopPc { if consumeFirst then Consuming else Swapping }

  function AfterConsume(consumeFirst: bool): LoopPc { if consumeFirst then Swapping else Handling }

  function AfterSwap(consumeFirst: bool): LoopPc { if consumeFirst then Handling else Consuming }

  function Next(consumeFirst: bool, s: State, step: Step): Option<State> {
    match step
    case Ask(r) => Some(s.(queue := s.queue + [r], asked := s.asked + [r], owing := s.owing + 1))
    case Ring => if s.owing == 0 then None else Some(s.(owing := s.owing - 1, counter := Rung(s.counter)))
    case ExtraRing => Some(s.(counter := Rung(s.counter)))
    case LoopAsk(r) =>
      if s.pc != Dispatching || s.loopOwes then None
      else Some(s.(queue := s.queue + [r], asked := s.asked + [r], loopOwes := true))
    case LoopRing => if !s.loopOwes then None else Some(s.(loopOwes := false, counter := Rung(s.counter)))
    case WakeUp(byEventFd) =>
      if s.pc != Waiting || (byEventFd && s.counter == 0) then None
      else Some(s.(pc := AfterWake(consumeFirst)))
    case ConsumeRead => if s.pc != Consuming || s.counter == 0 then None else Some(s.(counter := 0))
    case ConsumeAgain =>
      if s.pc != Consuming || s.counter > 0 then None else Some(s.(pc := AfterConsume(consumeFirst)))
    case Swap =>
      if s.pc != Swapping then None
      else Some(s.(batch := s.queue, queue := [], pc := AfterSwap(consumeFirst)))
    case HandleOne =>
      if s.pc != Handling || s.batch == [] then None
      else Some(s.(batch := s.batch[1..], handled := s.handled + [s.batch[0]]))
    case HandleDone => if s.pc != Handling || s.batch != [] then None else Some(s.(pc := Dispatching))
    case DispatchDone => if s.pc != Dispatching || s.loopOwes then None else Some(s.(pc := Waiting))
  }

  /** The state after a run of steps, if each could be taken. */
  function After(consumeFirst: bool, s: State, run: seq<Step>): Option<State> {
    if run == [] then Some(s)
    else match After(consumeFirst, s, run[..|run| - 1])
      case None => None
      case Some(t) => Next(consumeFirst, t, run[|run| - 1])
  }

  // ---------------------------------------------------------------- no request is overlooked

  /** Whoever pushed has rung, or will, or the loop is already on its way to the swap. */
  ghost predicate Covered(s: State) {
    && (s.queue != [] ==> s.counter > 0 || s.owing > 0 || s.loopOwes || s.pc == Consuming || s.pc == Swapping)
    && (s.loopOwes ==> s.pc == Dispatching)
    && (s.batch != [] ==> s.pc == Handling)
    && s.handled + s.batch + s.queue == s.asked
  }

  lemma CoveredStep(s: State, step: Step)
    requires Covered(s) && Next(true, s, step).Some?
    ensures Covered(Next(true, s, step).value)
  {
    var t := Next(true, s, step).value;
    match step {
      case Ask(r) => Assoc(s.handled + s.batch, s.queue, [r]);
      case LoopAsk(r) => Assoc(s.handled + s.batch, s.queue, [r]);
      case Swap => assert s.handled + s.batch + s.queue == t.handled + t.batch + t.queue;
      case HandleOne => assert s.batch == [s.batch[0]] + s.batch[1..]; Assoc(s.handled, [s.batch[0]], s.batch[1..]);
      case _ =>
    }
  }

  lemma {:induction false} CoveredAlways(run: seq<Step>)
    requires After(true, START, run).Some?
    ensures Covered(After(true, START, run).value)
  {
    if run != [] {
      CoveredAlways(run[..|run| - 1]);
      CoveredStep(After(true, START, run[..|run| - 1]).value, run[|run| - 1]);
    }
  }

  /** The loop sleeps on a non-empty queue although nobody will ring for it. */
  ghost predicate Overslept(s: State) {
    s.pc == Waiting && s.queue != [] && s.counter == 0 && s.owing == 0
  }

  /** Requests are handled in lock order, each once, and at every moment all requests not yet handled are
      in the batch or the queue. */
  lemma HandledInLockOrder(run: seq<Step>)
    requires After(true, START, run).Some?
    ensures var s := After(true, START, run).value; s.handled + s.batch + s.queue == s.asked
  {
    CoveredAlways(run);
  }

  /** No wakeup is ever lost when the loop consumes first; exchanging the two steps loses one. */
  lemma ConsumeFirstIff(consumeFirst: bool)
    ensures consumeFirst <==>
      forall run :: After(consumeFirst, START, run).Some? ==> !Overslept(After(consumeFirst, START, run).value)
  {
    if consumeFirst {
      forall run | After(true, START, run).Some? ensures !Overslept(After(true, START, run).value) {
        CoveredAlways(run);
      }
    } else {
      var r := UnregisterFd(0);
      var run := [WakeUp(false), Swap, Ask(r), Ring, ConsumeRead, ConsumeAgain, HandleDone, DispatchDone];
      var s := State(Waiting, 0, [r], [], 0, false, [r], []);
      SwapFirstOversleeps(r, run);
      assert Overslept(After(false, START, run).value);
    }
  }

  lemma SwapFirstOversleeps(r: Request, run: seq<Step>)
    requires run == [WakeUp(false), Swap, Ask(r), Ring, ConsumeRead, ConsumeAgain, HandleDone, DispatchDone]
    ensures After(false, START, run) == Some(State(Waiting, 0, [r], [], 0, false, [r], []))
  {
    assert run[..8] == run;
    SwapFirstRings(r, run);
    SwapFirstSilences(r, run);
    AfterOne(false, run, 6);
    AfterOne(false, run, 7);
  }

  lemma SwapFirstRings(r: Request, run: seq<Step>)
    requires |run| == 8 && run[0] == WakeUp(false) && run[1] == Swap && run[2] == Ask(r) && run[3] == Ring
    ensures After(false, START, run[..4]) == Some(State(Consuming, 1, [r], [], 0, false, [r], []))
  {
    assert run[..0] == [] && [] + [r] == [r];
    AfterOne(false, run, 0);
    AfterOne(false, run, 1);
    AfterOne(false, run, 2);
    AfterOne(false, run, 3);
  }

  lemma SwapFirstSilences(r: Request, run: seq<Step>)
    requires |run| == 8 && run[4] == ConsumeRead && run[5] == ConsumeAgain
    requires After(false, START, run[..4]) == Some(State(Consuming, 1, [r], [], 0, false, [r], []))
    ensures After(false, START, run[..6]) == Some(State(Handling, 0, [r], [], 0, false, [r], []))
  {
    AfterOne(false, run, 4);
    AfterOne(false, run, 5);
  }

  lemma AfterOne(consumeFirst: bool, run: seq<Step>, i: nat)
    requires i < |run| && After(consumeFirst, START, run[..i]).Some?
    ensures After(consumeFirst, START, run[..i + 1]) ==
      Next(consumeFirst, After(consumeFirst, START, run[..i]).value, run[i])
  {
    assert run[..i + 1][..i] == run[..i];
  }

  // ---------------------------------------------------------------- every request gets its turn

  lemma {:induction false} AfterAppend(s: State, run: seq<Step>, more: seq<Step>)
    requires After(true, s, run).Some?
    ensures After(true, s, run + more) == After(true, After(true, s, run).value, more)
  {
    if more == [] {
      assert run + more == run;
    } else {
      var init := more[..|more| - 1];
      AfterAppend(s, run, init);
      assert (run + more)[..|run + more| - 1] == run + init;
      assert (run + more)[|run + more| - 1] == more[|more| - 1];
    }
  }

  lemma AfterSingle(s: State, step: Step)
    ensures After(true, s, [step]) == Next(true, s, step)
  {
    assert [step][..0] == [];
  }

  ghost predicate CanFinish(s: State, done: State) {
    exists run :: After(true, s, run) == Some(done)
  }

  lemma FinishStep(s: State, step: Step, done: State)
    requires Next(true, s, step).Some? && CanFinish(Next(true, s, step).value, done)
    ensures CanFinish(s, done)
  {
    var run :| After(true, Next(true, s, step).value, run) == Some(done);
    AfterSingle(s, step);
    AfterAppend(s, [step], run);
  }

  lemma {:induction false} FinishBatch(s: State)
    requires s.pc == Handling && s.queue == []
    ensures CanFinish(s, s.(pc := Dispatching, batch := [], handled := s.handled + s.batch))
    decreases |s.batch|
  {
    var done := s.(pc := Dispatching, batch := [], handled := s.handled + s.batch);
    if s.batch == [] {
      assert s.handled + [] == s.handled;
      AfterSingle(s, HandleDone);
    } else {
      var t := Next(true, s, HandleOne).value;
      FinishBatch(t);
      Assoc(s.handled, [s.batch[0]], s.batch[1..]);
      assert s.batch == [s.batch[0]] + s.batch[1..];
      FinishStep(s, HandleOne, done);
    }
  }

  /** Whenever the loop sleeps and every producer has rung, the loop alone can wake up and handle every
      request made so far: nothing is left to anyone else's next wakeup. */
  lemma SleepersCatchUp(run: seq<Step>)
    requires After(true, START, run).Some?
    requires var s := After(true, START, run).value; s.pc == Waiting && s.owing == 0 && s.queue != []
    ensures var s := After(true, START, run).value;
      CanFinish(s, s.(pc := Dispatching, counter := 0, queue := [], handled := s.asked))
  {
    CoveredAlways(run);
    var s := After(true, START, run).value;
    var done := s.(pc := Dispatching, counter := 0, queue := [], handled := s.asked);
    var s1 := Next(true, s, WakeUp(true)).value;
    var s2 := Next(true, s1, ConsumeRead).value;
    var s3 := Next(true, s2, ConsumeAgain).value;
    var s4 := Next(true, s3, Swap).value;
    FinishBatch(s4);
    assert s.handled + [] == s.handled;
    FinishStep(s3, Swap, done);
    FinishStep(s2, ConsumeAgain, done);
    FinishStep(s1, ConsumeRead, done);
    FinishStep(s, WakeUp(true), done);
  }
}
