/** The worker pool: a task queue and a run flag under one mutex, a condition variable, n workers,
    any number of producers, and the thread whose stop call flips the flag. Each step is one critical
    section or one notification; any interleaving of steps is a run. */
module Pool {
  import opened Text

  /** Awake: about to take the lock and look. Asleep: blocked on the condition variable. */
  datatype Worker<T> = Awake | Asleep | Busy(task: T) | Gone

  datatype Stopper = NotStopping | Flipped | Notified | Returned

  /** `owed` producers have queued a task and not yet notified; the three logs record what was accepted,
      taken and finished, in that order of events. */
  datatype Pool<T> = Pool(
    workers: seq<Worker<T>>, tasks: seq<T>, run: bool, stopper: Stopper, owed: nat,
    accepted: seq<T>, taken: seq<T>, finished: seq<T>)

  function Start<T>(n: nat): Pool<T> {
    Pool(seq(if n == 0 then 1 else n, _ => Awake), [], true, NotStopping, 0, [], [], [])
  }

  datatype Step<T> =
    | Enqueue(task: T)
    | NotifyOne(w: nat)   // the kernel picks sleeper `w`; without sleepers the signal is lost
    | Look(w: nat)        // a worker takes the lock and evaluates the wait condition
    | SpuriousWake(w: nat)
    | Finish(w: nat)
    | Flip                // the first stop call clears the flag
    | NotifyAll
    | Join                // the stop call returns once every worker is gone

  ghost predicate SomeAsleep<T(!new)>(p: Pool<T>) {
    exists w :: 0 <= w < |p.workers| && p.workers[w].Asleep?
  }

  /** Whether `enqueue` returns true. */
  predicate Accepts<T>(p: Pool<T>) {
    p.run
  }

  /** The worker takes the oldest task. */
  function Taken<T>(p: Pool<T>, w: nat): Pool<T>
    requires w < |p.workers| && p.tasks != []
  {
    p.(workers := p.workers[w := Busy(p.tasks[0])], tasks := p.tasks[1..], taken := p.taken + [p.tasks[0]])
  }

  ghost predicate Next<T(!new)>(p: Pool<T>, step: Step<T>, p': Pool<T>) {
    match step
    case Enqueue(t) =>
      if !Accepts(p) then p' == p
      else p' == p.(tasks := p.tasks + [t], accepted := p.accepted + [t], owed := p.owed + 1)
    case NotifyOne(w) =>
      && p.owed > 0
      && (SomeAsleep(p) ==> w < |p.workers| && p.workers[w].Asleep?)
      && p' == (if SomeAsleep(p) then p.(owed := p.owed - 1, workers := p.workers[w := Awake])
                else p.(owed := p.owed - 1))
    case Look(w) =>
      && w < |p.workers| && p.workers[w].Awake?
      && p' == (if p.tasks != [] then Taken(p, w)
                else if !p.run then p.(workers := p.workers[w := Gone])
                else p.(workers := p.workers[w := Asleep]))
    case SpuriousWake(w) =>
      && w < |p.workers| && p.workers[w].Asleep?
      && p' == p.(workers := p.workers[w := Awake])
    case Finish(w) =>
      && w < |p.workers| && p.workers[w].Busy?
      && p' == p.(workers := p.workers[w := Awake], finished := p.finished + [p.workers[w].task])
    case Flip => p.run && p' == p.(run := false, stopper := Flipped)
    case NotifyAll =>
      && p.stopper == Flipped
      && p' == p.(stopper := Notified, workers := seq(|p.workers|, i requires 0 <= i < |p.workers| =>
                    if p.workers[i].Asleep? then Awake else p.workers[i]))
    case Join =>
      && p.stopper == Notified
      && (forall w :: 0 <= w < |p.workers| ==> p.workers[w].Gone?)
      && p' == p.(stopper := Returned)
  }

  ghost predicate Run<T(!new)>(states: seq<Pool<T>>, steps: seq<Step<T>>, n: nat) {
    && |states| == |steps| + 1 && states[0] == Start(n)
    && forall i :: 0 <= i < |steps| ==> Next(states[i], steps[i], states[i + 1])
  }

  // ---------------------------------------------------------------- counting workers

  function Awakes<T>(ws: seq<Worker<T>>): nat {
    if ws == [] then 0 else Awakes(ws[..|ws| - 1]) + if ws[|ws| - 1].Awake? then 1 else 0
  }

  /** The tasks being executed right now. */
  ghost function InHand<T>(ws: seq<Worker<T>>): multiset<T> {
    if ws == [] then multiset{}
    else InHand(ws[..|ws| - 1]) + One(ws[|ws| - 1])
  }

  ghost function One<T>(w: Worker<T>): multiset<T> {
    match w case Busy(t) => multiset{t} case _ => multiset{}
  }

  lemma {:induction false} AwakesUpdate<T>(ws: seq<Worker<T>>, i: nat, w: Worker<T>)
    requires i < |ws|
    ensures Awakes(ws[i := w]) + (if ws[i].Awake? then 1 else 0) == Awakes(ws) + (if w.Awake? then 1 else 0)
  {
    if i == |ws| - 1 {
      assert ws[i := w][..|ws| - 1] == ws[..|ws| - 1];
    } else {
      assert ws[i := w][..|ws| - 1] == ws[..|ws| - 1][i := w];
      AwakesUpdate(ws[..|ws| - 1], i, w);
    }
  }

  lemma Regroup<T>(a: multiset<T>, b: multiset<T>, c: multiset<T>)
    ensures (a + b) + c == (a + c) + b
  {}

  lemma InHandSnoc<T>(ws: seq<Worker<T>>, w: Worker<T>)
    ensures InHand(ws + [w]) == InHand(ws) + One(w)
    ensures !w.Busy? ==> InHand(ws + [w]) == InHand(ws)
  {
    assert (ws + [w])[..|ws|] == ws;
  }

  /** A worker takes a task in hand. */
  lemma {:induction false} InHandTake<T>(ws: seq<Worker<T>>, i: nat, t: T)
    requires i < |ws| && !ws[i].Busy?
    ensures InHand(ws[i := Busy(t)]) == InHand(ws) + multiset{t}
  {
    var init, last := ws[..|ws| - 1], ws[|ws| - 1];
    assert ws == init + [last];
    InHandSnoc(init, last);
    if i == |ws| - 1 {
      assert ws[i := Busy(t)] == init + [Busy(t)];
      InHandSnoc(init, Busy(t));
    } else {
      assert ws[i := Busy(t)] == init[i := Busy(t)] + [last];
      InHandSnoc(init[i := Busy(t)], last);
      InHandTake(init, i, t);
      Regroup(InHand(init), multiset{t}, One(last));
    }
  }

  /** A worker with nothing in hand changes otherwise. */
  lemma {:induction false} InHandIdle<T>(ws: seq<Worker<T>>, i: nat, w: Worker<T>)
    requires i < |ws| && !ws[i].Busy? && !w.Busy?
    ensures InHand(ws[i := w]) == InHand(ws)
  {
    var init, last := ws[..|ws| - 1], ws[|ws| - 1];
    assert ws == init + [last];
    InHandSnoc(init, last);
    if i == |ws| - 1 {
      assert ws[i := w] == init + [w];
      InHandSnoc(init, w);
    } else {
      assert ws[i := w] == init[i := w] + [last];
      InHandSnoc(init[i := w], last);
      InHandIdle(init, i, w);
    }
  }

  lemma {:induction false} NoneInHand<T>(ws: seq<Worker<T>>)
    requires forall w :: 0 <= w < |ws| ==> !ws[w].Busy?
    ensures InHand(ws) == multiset{}
  {
    if ws != [] {
      NoneInHand(ws[..|ws| - 1]);
    }
  }

  lemma {:induction false} NotifyAllKeeps<T>(ws: seq<Worker<T>>, ws': seq<Worker<T>>)
    requires |ws'| == |ws|
    requires forall i :: 0 <= i < |ws| ==> ws'[i] == if ws[i].Asleep? then Awake else ws[i]
    ensures InHand(ws') == InHand(ws) && Awakes(ws') >= Awakes(ws)
  {
    if ws != [] {
      NotifyAllKeeps(ws[..|ws| - 1], ws'[..|ws| - 1]);
    }
  }

  // ---------------------------------------------------------------- what every step keeps

  /** Accepted tasks are taken in order, each is taken once, and is in a worker's hands or finished. */
  ghost predicate Accounted<T>(p: Pool<T>) {
    && p.taken + p.tasks == p.accepted
    && multiset(p.taken) == multiset(p.finished) + InHand(p.workers)
  }

  /** No task is stranded: while anyone sleeps, every queued task has its own awake worker or a
      notification on its way. */
  ghost predicate NoneStranded<T(!new)>(p: Pool<T>) {
    SomeAsleep(p) ==> |p.tasks| <= Awakes(p.workers) + p.owed
  }

  /** No worker is stranded: sleepers after the flag was cleared are still owed the broadcast;
      and workers leave only for good. */
  ghost predicate StopInOrder<T(!new)>(p: Pool<T>) {
    && |p.workers| >= 1
    && (p.run <==> p.stopper == NotStopping)
    && (!p.run && SomeAsleep(p) ==> p.stopper == Flipped)
    && (forall w :: 0 <= w < |p.workers| && p.workers[w].Gone? ==> !p.run && p.tasks == [])
    && (p.stopper == Returned ==> forall w :: 0 <= w < |p.workers| ==> p.workers[w].Gone?)
  }

  lemma AccountedStep<T(!new)>(p: Pool<T>, step: Step<T>, p': Pool<T>)
    requires Accounted(p) && Next(p, step, p')
    ensures Accounted(p')
  {
    match step {
      case Enqueue(t) => Assoc(p.taken, p.tasks, [t]);
      case NotifyOne(w) => if SomeAsleep(p) { InHandIdle(p.workers, w, Awake); }
      case Look(w) =>
        if p.tasks != [] {
          TakeAccounted(p, w);
        } else {
          InHandIdle(p.workers, w, if p.run then Asleep else Gone);
        }
      case SpuriousWake(w) => InHandIdle(p.workers, w, Awake);
      case Finish(w) => FinishAccounted(p, w);
      case NotifyAll => NotifyAllKeeps(p.workers, p'.workers);
      case _ =>
    }
  }

  lemma TakeAccounted<T>(p: Pool<T>, w: nat)
    requires Accounted(p) && w < |p.workers| && p.workers[w].Awake? && p.tasks != []
    ensures p.taken + [p.tasks[0]] + p.tasks[1..] == p.accepted
    ensures multiset(p.taken + [p.tasks[0]]) == multiset(p.finished) + InHand(p.workers[w := Busy(p.tasks[0])])
  {
    InHandTake(p.workers, w, p.tasks[0]);
    assert p.tasks == [p.tasks[0]] + p.tasks[1..];
  }

  lemma FinishAccounted<T>(p: Pool<T>, w: nat)
    requires Accounted(p) && w < |p.workers| && p.workers[w].Busy?
    ensures multiset(p.taken) == multiset(p.finished + [p.workers[w].task]) + InHand(p.workers[w := Awake])
  {
    InHandTake(p.workers[w := Awake], w, p.workers[w].task);
    assert p.workers[w := Awake][w := Busy(p.workers[w].task)] == p.workers;
  }

  lemma NoneStrandedStep<T(!new)>(p: Pool<T>, step: Step<T>, p': Pool<T>)
    requires NoneStranded(p) && Next(p, step, p')
    ensures NoneStranded(p')
  {
    match step {
      case NotifyOne(w) => if SomeAsleep(p) { AwakesUpdate(p.workers, w, Awake); }
      case Look(w) =>
        if p.tasks != [] {
          AwakesUpdate(p.workers, w, Busy(p.tasks[0]));
          SleepersStay(p, w, p');
        }
      case SpuriousWake(w) => AwakesUpdate(p.workers, w, Awake);
      case Finish(w) =>
        AwakesUpdate(p.workers, w, Awake);
        SleepersStay(p, w, p');
      case _ =>
    }
  }

  lemma SleepersStay<T(!new)>(p: Pool<T>, w: nat, p': Pool<T>)
    requires w < |p.workers| == |p'.workers| && p'.workers == p.workers[w := p'.workers[w]]
    requires !p'.workers[w].Asleep?
    ensures SomeAsleep(p') ==> SomeAsleep(p)
  {
    if SomeAsleep(p') {
      var v :| 0 <= v < |p'.workers| && p'.workers[v].Asleep?;
      assert p.workers[v].Asleep?;
    }
  }

  lemma StopInOrderStep<T(!new)>(p: Pool<T>, step: Step<T>, p': Pool<T>)
    requires StopInOrder(p) && Next(p, step, p')
    ensures StopInOrder(p')
  {
    if SomeAsleep(p') && !p'.run && !step.NotifyAll? {
      var v: nat :| v < |p'.workers| && p'.workers[v].Asleep?;
      assert p.workers[v].Asleep? || step == Look(v);
    }
  }

  lemma {:induction false} RunKeeps<T(!new)>(states: seq<Pool<T>>, steps: seq<Step<T>>, n: nat)
    requires Run(states, steps, n)
    ensures Accounted(states[|steps|]) && NoneStranded(states[|steps|]) && StopInOrder(states[|steps|])
  {
    if steps == [] {
      NoneInHand(states[0].workers);
    } else {
      var k := |steps| - 1;
      RunKeeps(states[..k + 1], steps[..k], n);
      AccountedStep(states[k], steps[k], states[k + 1]);
      NoneStrandedStep(states[k], steps[k], states[k + 1]);
      StopInOrderStep(states[k], steps[k], states[k + 1]);
    }
  }

  // ---------------------------------------------------------------- the promises

  /** When the stop call that flipped the flag has returned, every accepted task has been taken in order and
      executed exactly once, and the queue is empty. */
  lemma StopDrains<T(!new)>(states: seq<Pool<T>>, steps: seq<Step<T>>, n: nat)
    requires Run(states, steps, n) && states[|steps|].stopper == Returned
    ensures var p := states[|steps|];
      p.tasks == [] && p.taken == p.accepted && multiset(p.finished) == multiset(p.accepted)
  {
    RunKeeps(states, steps, n);
    var p := states[|steps|];
    assert p.workers[0].Gone?;
    assert p.taken + [] == p.taken;
    NoneInHand(p.workers);
  }

  predicate HasFlip<T>(steps: seq<Step<T>>) {
    exists i :: 0 <= i < |steps| && steps[i].Flip?
  }

  /** The tasks offered before the flag is flipped. */
  function Offered<T>(steps: seq<Step<T>>): seq<T> {
    if steps == [] then []
    else
      var init, last := steps[..|steps| - 1], steps[|steps| - 1];
      Offered(init) + if last.Enqueue? && !HasFlip(init) then [last.task] else []
  }

  /** Accepted are exactly the tasks offered before the flip, in order. */
  lemma {:induction false} AcceptedIsOffered<T(!new)>(states: seq<Pool<T>>, steps: seq<Step<T>>, n: nat)
    requires Run(states, steps, n)
    ensures states[|steps|].accepted == Offered(steps) && (states[|steps|].run <==> !HasFlip(steps))
  {
    if steps != [] {
      var k := |steps| - 1;
      AcceptedIsOffered(states[..k + 1], steps[..k], n);
      AcceptedNext(states[k], steps[k], states[k + 1]);
      HasFlipNext(steps);
    }
  }

  lemma AcceptedNext<T(!new)>(p: Pool<T>, step: Step<T>, p': Pool<T>)
    requires Next(p, step, p')
    ensures p'.accepted == p.accepted + if step.Enqueue? && p.run then [step.task] else []
    ensures p'.run <==> p.run && !step.Flip?
  {
    assert p.accepted + [] == p.accepted;
  }

  lemma HasFlipNext<T>(steps: seq<Step<T>>)
    requires steps != []
    ensures HasFlip(steps) <==> HasFlip(steps[..|steps| - 1]) || steps[|steps| - 1].Flip?
  {
    var k := |steps| - 1;
    if HasFlip(steps[..k]) {
      var i :| 0 <= i < k && steps[..k][i].Flip?;
      assert steps[i].Flip?;
    }
    if HasFlip(steps) {
      var i :| 0 <= i < |steps| && steps[i].Flip?;
      assert i < k ==> steps[..k][i].Flip?;
    }
  }

  /** After the flip nothing is accepted any more. */
  lemma {:induction false} NothingAcceptedAfterFlip<T(!new)>(states: seq<Pool<T>>, steps: seq<Step<T>>, i: nat)
    requires |states| == |steps| + 1 && i <= |steps|
    requires forall k :: 0 <= k < |steps| ==> Next(states[k], steps[k], states[k + 1])
    requires !states[i].run
    ensures states[|steps|].accepted == states[i].accepted && !states[|steps|].run
    decreases |steps| - i
  {
    if i < |steps| {
      NothingAcceptedAfterFlip(states, steps, i + 1);
    }
  }

  /** With one worker, tasks are also finished in the order they were accepted. */
  ghost predicate InSequence<T(!new)>(p: Pool<T>) {
    |p.workers| == 1 && p.taken == p.finished + match p.workers[0] case Busy(t) => [t] case _ => []
  }

  lemma {:induction false} OneWorkerIsSequential<T(!new)>(states: seq<Pool<T>>, steps: seq<Step<T>>)
    requires Run(states, steps, 1)
    ensures InSequence(states[|steps|])
  {
    if steps != [] {
      var k := |steps| - 1;
      OneWorkerIsSequential(states[..k + 1], steps[..k]);
      InSequenceStep(states[k], steps[k], states[k + 1]);
    }
  }

  lemma InSequenceStep<T(!new)>(p: Pool<T>, step: Step<T>, p': Pool<T>)
    requires InSequence(p) && Next(p, step, p')
    ensures InSequence(p')
  {
    assert p.finished + [] == p.finished;
    assert p'.finished + [] == p'.finished;
  }

  // ---------------------------------------------------------------- stopping comes to an end

  /** What is left to do once everyone has been told to stop. */
  ghost function Remaining<T>(p: Pool<T>): nat {
    3 * |p.tasks| + 2 * |InHand(p.workers)| + Awakes(p.workers)
  }

  ghost predicate Stopping<T(!new)>(p: Pool<T>) {
    p.stopper == Notified && StopInOrder(p)
  }

  /** Every step a worker takes then brings the end closer, and no other step delays it. */
  lemma StoppingStep<T(!new)>(p: Pool<T>, step: Step<T>, p': Pool<T>)
    requires Stopping(p) && Next(p, step, p') && !step.Join?
    ensures Stopping(p')
    ensures step.Look? || step.Finish? ==> Remaining(p') < Remaining(p)
    ensures !step.Look? && !step.Finish? ==> Remaining(p') == Remaining(p)
  {
    StopInOrderStep(p, step, p');
    match step {
      case Look(w) =>
        if p.tasks != [] {
          AwakesUpdate(p.workers, w, Busy(p.tasks[0]));
          InHandTake(p.workers, w, p.tasks[0]);
        } else {
          AwakesUpdate(p.workers, w, Gone);
          InHandIdle(p.workers, w, Gone);
        }
      case Finish(w) =>
        AwakesUpdate(p.workers, w, Awake);
        InHandTake(p'.workers, w, p.workers[w].task);
        assert p'.workers[w := p.workers[w]] == p.workers;
      case _ =>
    }
  }

  /** And until every worker is gone some worker can take such a step; so the stop call returns. */
  lemma StoppingGoesOn<T(!new)>(p: Pool<T>)
    requires Stopping(p)
    ensures (exists p' :: Next(p, Join, p')) ||
            (exists w: nat, p' :: Next(p, Look(w), p')) || (exists w: nat, p' :: Next(p, Finish(w), p'))
  {
    if forall w :: 0 <= w < |p.workers| ==> p.workers[w].Gone? {
      assert Next(p, Join, p.(stopper := Returned));
    } else {
      var w: nat :| w < |p.workers| && !p.workers[w].Gone?;
      assert !SomeAsleep(p);
      assert !p.workers[w].Asleep?;
      if p.workers[w].Busy? {
        assert Next(p, Finish(w), p.(workers := p.workers[w := Awake], finished := p.finished + [p.workers[w].task]));
      } else if p.tasks != [] {
        assert Next(p, Look(w), Taken(p, w));
      } else {
        assert Next(p, Look(w), p.(workers := p.workers[w := Gone]));
      }
    }
  }
}
