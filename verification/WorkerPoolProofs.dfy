/** What every interleaving of the pool keeps. */
module WorkerPoolProofs {
  import opened Text
  import opened WorkerPool

  // ---------------------------------------------------------------- invariant

  ghost predicate LocksOk(p: Pool) {
    && p.readers <= p.submits.Keys
    && (forall t :: t in p.submits ==>
          (t in p.readers <==> p.submits[t].HoldsRLock? || p.submits[t].Sending? || p.submits[t].Answered?))
    && (forall t :: t in p.submits && p.submits[t].Sending? ==> !p.stopped)
    && (p.writer.Some? ==> p.readers == {} && p.once == RunBy(p.writer.value))
  }

  predicate InOnce(pc: StopPc) { !pc.EnterOnce? && !pc.StopReturned? }

  ghost predicate OnceOk(p: Pool) {
    && (forall i :: i in p.stops && InOnce(p.stops[i]) ==> p.once == RunBy(i))
    && (forall i :: i in p.stops && p.stops[i].StopReturned? ==> p.once.Finished?)
    && (p.once.Unused? ==> !p.stopped && !p.closed && p.writer.None?)
    && (p.once.Finished? ==> p.stopped && p.closed && p.wg == 0 && p.writer.None?)
    && (p.once.RunBy? ==>
          && p.once.caller in p.stops
          && var pc := p.stops[p.once.caller];
             && InOnce(pc)
             && (p.stopped <==> pc.FlagSet? || pc.ChannelClosed? || pc.AwaitWorkers?)
             && (p.closed <==> pc.ChannelClosed? || pc.AwaitWorkers?)
             && (p.writer.Some? <==> pc.HoldsLock? || pc.FlagSet? || pc.ChannelClosed?))
  }

  ghost predicate WorkersOk(p: Pool) {
    && p.workers != []
    && p.wg == Live(p.workers)
    && (forall w :: 0 <= w < |p.workers| && (p.workers[w].Leaving? || p.workers[w].Gone?) ==> p.closed && p.queue == [])
  }

  ghost predicate TasksOk(p: Pool) {
    && p.accepted == p.started + p.queue
    && multiset(p.started) == multiset(p.finished) + BusyTasks(p.workers)
    && (forall t :: t in p.accepted <==>
          t in p.submits && (p.submits[t] == Answered(true) || p.submits[t] == SubmitReturned(true)))
    && (forall i, j :: 0 <= i < j < |p.accepted| ==> p.accepted[i] != p.accepted[j])
  }

  ghost predicate Inv(p: Pool) {
    !p.panicked && |p.queue| <= p.depth && LocksOk(p) && OnceOk(p) && WorkersOk(p) && TasksOk(p)
  }

  // ---------------------------------------------------------------- one worker changes state

  lemma {:induction false} UpdateWorker(ws: seq<WorkerPc>, w: nat, pc: WorkerPc)
    requires w < |ws|
    ensures Live(ws[w := pc]) + (if ws[w].Gone? then 0 else 1) == Live(ws) + (if pc.Gone? then 0 else 1)
    ensures Weights(ws[w := pc]) + Weight(ws[w]) == Weights(ws) + Weight(pc)
  {
    var us := ws[w := pc];
    if w == 0 {
      assert us[1..] == ws[1..];
    } else {
      assert us[1..] == ws[1..][w - 1 := pc];
      UpdateWorker(ws[1..], w - 1, pc);
    }
  }

  lemma {:induction false} UpdateBusy(ws: seq<WorkerPc>, w: nat, pc: WorkerPc)
    requires w < |ws|
    ensures BusyTasks(ws[w := pc]) + BusyTask(ws[w]) == BusyTasks(ws) + BusyTask(pc)
    ensures !ws[w].Busy? && !pc.Busy? ==> BusyTasks(ws[w := pc]) == BusyTasks(ws)
  {
    var us := ws[w := pc];
    if w == 0 {
      assert us[1..] == ws[1..];
      var rest := BusyTasks(ws[1..]);
      assert BusyTasks(us) == BusyTask(pc) + rest && BusyTasks(ws) == BusyTask(ws[0]) + rest;
    } else {
      assert us[1..] == ws[1..][w - 1 := pc];
      UpdateBusy(ws[1..], w - 1, pc);
      var h, ns, os := BusyTask(ws[0]), BusyTasks(us[1..]), BusyTasks(ws[1..]);
      assert BusyTasks(us) == h + ns && BusyTasks(ws) == h + os;
      assert h + ns + BusyTask(ws[w]) == h + (ns + BusyTask(ws[w]));
    }
  }

  lemma {:induction false} AllGone(ws: seq<WorkerPc>)
    requires Live(ws) == 0
    ensures forall w :: 0 <= w < |ws| ==> ws[w].Gone?
    ensures BusyTasks(ws) == multiset{}
  {
    if ws != [] {
      AllGone(ws[1..]);
      forall w | 0 <= w < |ws| ensures ws[w].Gone? {
        if w > 0 { assert ws[w] == ws[1..][w - 1]; }
      }
    }
  }

  lemma {:induction false} BusyBound(ws: seq<WorkerPc>)
    ensures |BusyTasks(ws)| <= Live(ws) <= |ws|
  {
    if ws != [] { BusyBound(ws[1..]); }
  }

  lemma {:induction false} FreshWorkers(n: nat)
    ensures Live(seq(n, _ => Receiving)) == n
    ensures BusyTasks(seq(n, _ => Receiving)) == multiset{}
  {
    if n > 0 {
      assert seq(n, _ => Receiving)[1..] == seq(n - 1, _ => Receiving);
      FreshWorkers(n - 1);
    }
  }

  // ---------------------------------------------------------------- every step keeps the invariant

  lemma InitInv(concurrency: int, queueDepth: int)
    ensures Inv(NewPool(concurrency, queueDepth))
  {
    FreshWorkers(if concurrency < 1 then 4 else concurrency);
  }

  lemma SubmitStepInv(p: Pool, step: Step)
    requires Inv(p) && Enabled(p, step)
    requires step.CallSubmit? || step.AcquireRLock? || step.TestStopped? || step.ReleaseRLock?
    ensures Inv(Apply(p, step))
  {
  }

  lemma SendTasks(p: Pool, t: Task)
    requires TasksOk(p) && Enabled(p, TrySend(t)) && !p.closed
    ensures TasksOk(Apply(p, TrySend(t)))
  {
    var q := Apply(p, TrySend(t));
    assert t !in p.accepted;
    if |p.queue| < p.depth {
      assert q.accepted == q.started + q.queue;
      Appended(p.accepted, t);
    }
  }

  lemma Appended(s: seq<Task>, t: Task)
    requires t !in s && forall i, j :: 0 <= i < j < |s| ==> s[i] != s[j]
    ensures forall i, j :: 0 <= i < j < |s + [t]| ==> (s + [t])[i] != (s + [t])[j]
    ensures forall u :: u in s + [t] <==> u in s || u == t
  {
  }

  lemma SendStepInv(p: Pool, t: Task)
    requires Inv(p) && Enabled(p, TrySend(t))
    ensures Inv(Apply(p, TrySend(t)))
  {
    assert !p.stopped && !p.closed;
    SendTasks(p, t);
    var q := Apply(p, TrySend(t));
    assert LocksOk(q) && OnceOk(q) && WorkersOk(q);
  }

  predicate IsStopStep(step: Step) {
    || step.CallStop? || step.OnceEnter? || step.OnceSkip? || step.AcquireLock? || step.SetStopped?
    || step.CloseChannel? || step.ReleaseLock? || step.WaitReturns?
  }

  lemma StopOnce(p: Pool, step: Step)
    requires Inv(p) && Enabled(p, step) && IsStopStep(step)
    ensures OnceOk(Apply(p, step)) && !Apply(p, step).panicked
  {
    if !step.CallStop? && !step.OnceEnter? && !step.OnceSkip? {
      assert p.once == RunBy(step.i);
      assert forall j :: j in p.stops && j != step.i ==> !InOnce(p.stops[j]);
    }
  }

  lemma StopStepInv(p: Pool, step: Step)
    requires Inv(p) && Enabled(p, step) && IsStopStep(step)
    ensures Inv(Apply(p, step))
  {
    StopOnce(p, step);
    var q := Apply(p, step);
    assert WorkersOk(q) && TasksOk(q);
    assert LocksOk(q);
  }

  lemma TakeInv(p: Pool, w: nat)
    requires Inv(p) && Enabled(p, Take(w))
    ensures Inv(Apply(p, Take(w)))
  {
    var q := Apply(p, Take(w));
    UpdateWorker(p.workers, w, Busy(p.queue[0]));
    assert LocksOk(q) && OnceOk(q) && WorkersOk(q);
    TakeTasks(p, w);
  }

  lemma TakeTasks(p: Pool, w: nat)
    requires TasksOk(p) && Enabled(p, Take(w))
    ensures TasksOk(Apply(p, Take(w)))
  {
    var q := Apply(p, Take(w));
    var t := p.queue[0];
    UpdateBusy(p.workers, w, Busy(t));
    ShiftOne(p.started, p.queue);
    StartOne(p.started, multiset(p.finished), BusyTasks(p.workers), BusyTasks(q.workers), t);
  }

  lemma ShiftOne(taken: seq<Task>, waiting: seq<Task>)
    requires waiting != []
    ensures (taken + [waiting[0]]) + waiting[1..] == taken + waiting
  {
  }

  lemma StartOne(started: seq<Task>, finished: multiset<Task>, busy: multiset<Task>, busy': multiset<Task>, t: Task)
    requires multiset(started) == finished + busy
    requires busy' + multiset{} == busy + multiset{t}
    ensures multiset(started + [t]) == finished + busy'
  {
    assert busy' == busy' + multiset{};
    assert finished + busy' == (finished + busy) + multiset{t};
  }

  lemma FinishOne(started: multiset<Task>, finished: seq<Task>, busy: multiset<Task>, busy': multiset<Task>, t: Task)
    requires started == multiset(finished) + busy
    requires busy' + multiset{t} == busy + multiset{}
    ensures started == multiset(finished + [t]) + busy'
  {
    assert busy == busy + multiset{};
    assert multiset(finished + [t]) + busy' == multiset(finished) + (busy' + multiset{t});
  }

  lemma FinishInv(p: Pool, w: nat, handlerPanicked: bool)
    requires Inv(p) && Enabled(p, Finish(w, handlerPanicked))
    ensures Inv(Apply(p, Finish(w, handlerPanicked)))
  {
    var q := Apply(p, Finish(w, handlerPanicked));
    UpdateWorker(p.workers, w, Receiving);
    UpdateBusy(p.workers, w, Receiving);
    assert LocksOk(q) && OnceOk(q) && WorkersOk(q);
    FinishOne(multiset(p.started), p.finished, BusyTasks(p.workers), BusyTasks(q.workers), p.workers[w].task);
  }

  lemma LeaveInv(p: Pool, step: Step)
    requires Inv(p) && Enabled(p, step) && (step.SeeClosed? || step.Done?)
    ensures Inv(Apply(p, step))
  {
    var q := Apply(p, step);
    UpdateWorker(p.workers, step.w, if step.Done? then Gone else Leaving);
    UpdateBusy(p.workers, step.w, if step.Done? then Gone else Leaving);
    assert step.Done? ==> p.wg >= 1;
    assert LocksOk(q) && WorkersOk(q);
    assert OnceOk(q);
  }

  lemma WorkerStepInv(p: Pool, step: Step)
    requires Inv(p) && Enabled(p, step) && IsWorkerStep(step)
    ensures Inv(Apply(p, step))
  {
    if step.Take? { TakeInv(p, step.w); }
    else if step.Finish? { FinishInv(p, step.w, step.handlerPanicked); }
    else { LeaveInv(p, step); }
  }

  /** Taking or finishing a task lowers 2 * queued + running. */
  lemma TaskProgress(p: Pool, step: Step)
    requires Enabled(p, step) && (step.Take? || step.Finish?)
    ensures 2 * |Apply(p, step).queue| + |BusyTasks(Apply(p, step).workers)| < 2 * |p.queue| + |BusyTasks(p.workers)|
  {
    var q := Apply(p, step);
    if step.Take? {
      UpdateBusy(p.workers, step.w, Busy(p.queue[0]));
      assert BusyTasks(q.workers) == BusyTasks(p.workers) + multiset{p.queue[0]};
    } else {
      UpdateBusy(p.workers, step.w, Receiving);
      assert BusyTasks(p.workers) == BusyTasks(q.workers) + multiset{p.workers[step.w].task};
    }
  }

  /** Every worker step lowers the work that remains. */
  lemma WorkerStepProgress(p: Pool, step: Step)
    requires p.wg == Live(p.workers) && Enabled(p, step) && IsWorkerStep(step)
    ensures Remaining(Apply(p, step)) < Remaining(p)
  {
    match step {
      case Take(w) => UpdateWorker(p.workers, w, Busy(p.queue[0]));
      case Finish(w, _) => UpdateWorker(p.workers, w, Receiving);
      case SeeClosed(w) => UpdateWorker(p.workers, w, Leaving);
      case Done(w) => UpdateWorker(p.workers, w, Gone);
    }
  }

  lemma StepInv(p: Pool, step: Step)
    requires Inv(p) && Enabled(p, step)
    ensures Inv(Apply(p, step))
  {
    if IsWorkerStep(step) {
      WorkerStepInv(p, step);
    } else if step.TrySend? {
      SendStepInv(p, step.t);
    } else if step.CallSubmit? || step.AcquireRLock? || step.TestStopped? || step.ReleaseRLock? {
      SubmitStepInv(p, step);
    } else {
      StopStepInv(p, step);
    }
  }

  lemma {:induction false} RunInv(p: Pool, steps: seq<Step>, q: Pool)
    requires Inv(p) && Run(p, steps, q)
    ensures Inv(q)
    decreases |steps|
  {
    if steps != [] {
      StepInv(p, steps[0]);
      RunInv(Apply(p, steps[0]), steps[1..], q);
    }
  }

  // ---------------------------------------------------------------- what holds of every run

  lemma StepHistory(p: Pool, step: Step)
    requires Enabled(p, step)
    ensures var q := Apply(p, step);
      && q.depth == p.depth && |q.workers| == |p.workers|
      && p.accepted <= q.accepted && p.started <= q.started && p.finished <= q.finished
      && (p.closed ==> q.closed) && (p.panicked ==> q.panicked)
  {
  }

  /** A run leaves the configuration alone and only extends the three histories. */
  lemma {:induction false} RunHistory(p: Pool, steps: seq<Step>, q: Pool)
    requires Run(p, steps, q)
    ensures q.depth == p.depth && |q.workers| == |p.workers|
    ensures p.accepted <= q.accepted && p.started <= q.started && p.finished <= q.finished
    ensures p.closed ==> q.closed
    ensures p.panicked ==> q.panicked
    decreases |steps|
  {
    if steps != [] {
      StepHistory(p, steps[0]);
      RunHistory(Apply(p, steps[0]), steps[1..], q);
    }
  }

  /** Safety of every interleaving: no panic, both bounds, each accepted task is exactly one
      of queued, running or finished, and tasks start in the order they were accepted. */
  lemma PoolSafety(concurrency: int, queueDepth: int, steps: seq<Step>, q: Pool)
    requires Run(NewPool(concurrency, queueDepth), steps, q)
    ensures !q.panicked
    ensures |q.queue| <= q.depth && q.depth == (if queueDepth < 1 then 64 else queueDepth)
    ensures |BusyTasks(q.workers)| <= |q.workers| && |q.workers| == (if concurrency < 1 then 4 else concurrency)
    ensures multiset(q.accepted) == multiset(q.queue) + BusyTasks(q.workers) + multiset(q.finished)
    ensures forall t :: multiset(q.accepted)[t] <= 1
    ensures q.accepted == q.started + q.queue
  {
    InitInv(concurrency, queueDepth);
    RunInv(NewPool(concurrency, queueDepth), steps, q);
    RunHistory(NewPool(concurrency, queueDepth), steps, q);
    TasksSafe(q);
  }

  /** What the invariant says about the tasks. */
  lemma TasksSafe(q: Pool)
    requires Inv(q)
    ensures |BusyTasks(q.workers)| <= |q.workers|
    ensures multiset(q.accepted) == multiset(q.queue) + BusyTasks(q.workers) + multiset(q.finished)
    ensures forall t :: multiset(q.accepted)[t] <= 1
  {
    BusyBound(q.workers);
    assert multiset(q.accepted) == multiset(q.started) + multiset(q.queue);
    forall t ensures multiset(q.accepted)[t] <= 1 { AtMostOnce(q.accepted, t); }
  }

  lemma {:induction false} AtMostOnce(s: seq<Task>, t: Task)
    requires forall i, j :: 0 <= i < j < |s| ==> s[i] != s[j]
    ensures multiset(s)[t] <= 1
  {
    if s != [] {
      var rest := s[..|s| - 1];
      AtMostOnce(rest, t);
      assert s == rest + [s[|s| - 1]];
    }
  }

  /** A Submit is turned away only by a stopped pool or a full queue, and accepted only while the
      pool runs and has room, behind the tasks already queued. */
  lemma SubmitTurnedAway(p: Pool, step: Step, t: Task)
    requires Inv(p) && Enabled(p, step)
    requires t in p.submits && !p.submits[t].Answered? && t in Apply(p, step).submits && Apply(p, step).submits[t].Answered?
    ensures var q := Apply(p, step);
      if q.submits[t].ok then !p.stopped && |p.queue| < p.depth && q.queue == p.queue + [t]
      else (p.stopped || |p.queue| == p.depth) && q.queue == p.queue
  {
    StepInv(p, step);
  }

  /** Submit told the truth: it returned true exactly for the accepted tasks. */
  lemma SubmitAnswers(concurrency: int, queueDepth: int, steps: seq<Step>, q: Pool, t: Task)
    requires Run(NewPool(concurrency, queueDepth), steps, q)
    requires t in q.submits && q.submits[t].SubmitReturned?
    ensures q.submits[t].ok <==> t in q.accepted
    ensures !q.submits[t].ok ==> t !in q.queue && t !in BusyTasks(q.workers) && t !in q.finished
  {
    InitInv(concurrency, queueDepth);
    RunInv(NewPool(concurrency, queueDepth), steps, q);
    if !q.submits[t].ok {
      PoolSafety(concurrency, queueDepth, steps, q);
      assert t !in multiset(q.accepted);
    }
  }

  /** When any call of Stop has returned, every accepted task has finished, and no
      continuation of the run accepts or starts another one. */
  lemma StopDrains(concurrency: int, queueDepth: int, steps: seq<Step>, q: Pool, i: nat, more: seq<Step>, r: Pool)
    requires Run(NewPool(concurrency, queueDepth), steps, q)
    requires StopAt(q, i, StopReturned)
    requires Run(q, more, r)
    ensures multiset(q.finished) == multiset(q.accepted)
    ensures r.accepted == q.accepted && r.finished == q.finished
  {
    InitInv(concurrency, queueDepth);
    RunInv(NewPool(concurrency, queueDepth), steps, q);
    DrainedStays(q, more, r);
  }

  lemma {:induction false} DrainedStays(q: Pool, more: seq<Step>, r: Pool)
    requires Inv(q) && q.once.Finished?
    requires Run(q, more, r)
    ensures q.queue == [] && BusyTasks(q.workers) == multiset{}
    ensures multiset(q.finished) == multiset(q.accepted)
    ensures r.accepted == q.accepted && r.finished == q.finished
    decreases |more|
  {
    AllGone(q.workers);
    assert q.workers == [] ==> q.wg == 0;
    NoWorkersNoQueue(q);
    assert q.accepted == q.started;
    if more != [] {
      StepInv(q, more[0]);
      DrainedStays(Apply(q, more[0]), more[1..], r);
    }
  }

  lemma NoWorkersNoQueue(q: Pool)
    requires Inv(q) && Live(q.workers) == 0
    ensures q.queue == []
  {
  }

  /** After the channel is closed nothing is accepted, and worker steps are bounded: a run
      contains at most Remaining(p) of them, whatever the other goroutines do. */
  lemma {:induction false} ShutdownBound(p: Pool, steps: seq<Step>, q: Pool)
    requires Inv(p) && p.closed && Run(p, steps, q)
    ensures q.accepted == p.accepted
    ensures WorkerSteps(steps) + Remaining(q) <= Remaining(p)
    decreases |steps|
  {
    if steps != [] {
      var step := steps[0];
      StepInv(p, step);
      if IsWorkerStep(step) { WorkerStepProgress(p, step); }
      ShutdownBound(Apply(p, step), steps[1..], q);
    }
  }

  function WorkerSteps(steps: seq<Step>): nat {
    if steps == [] then 0 else (if IsWorkerStep(steps[0]) then 1 else 0) + WorkerSteps(steps[1..])
  }

  /** Once the channel is closed: while the workers have something left to do, one of them can
      move; when they have nothing left, the waiting Stop can return. */
  lemma DrainProgress(p: Pool)
    requires Inv(p) && p.closed
    ensures Remaining(p) > 0 ==> exists step :: IsWorkerStep(step) && Enabled(p, step)
    ensures Remaining(p) == 0 && p.once.RunBy? && StopAt(p, p.once.caller, AwaitWorkers)
         ==> Enabled(p, WaitReturns(p.once.caller))
  {
    if Remaining(p) > 0 {
      if Weights(p.workers) == 0 {
        NoWeightNoneLive(p.workers);
        NoWorkersNoQueue(p);
      }
      var w := FindActive(p.workers);
      var step := match p.workers[w]
                  case Busy(_) => Finish(w, false)
                  case Leaving => Done(w)
                  case _ => if p.queue != [] then Take(w) else SeeClosed(w);
      assert IsWorkerStep(step) && Enabled(p, step);
    } else {
      NoWeightNoneLive(p.workers);
    }
  }

  /** A step of a call already made, or of a worker. */
  predicate IsOngoing(step: Step) { !step.CallSubmit? && !step.CallStop? }

  ghost predicate CanMove(p: Pool) { exists step :: IsOngoing(step) && Enabled(p, step) }

  /** A Submit that holds the read lock can go on. */
  lemma ReaderMoves(p: Pool, t: Task)
    requires Inv(p) && t in p.readers
    ensures CanMove(p)
  {
    var step := match p.submits[t]
                case HoldsRLock => TestStopped(t)
                case Sending => TrySend(t)
                case _ => ReleaseRLock(t);
    assert IsOngoing(step) && Enabled(p, step);
  }

  /** The caller that runs the body of the Once, or what it waits for, can go on. */
  lemma RunnerMoves(p: Pool)
    requires Inv(p) && p.once.RunBy?
    ensures CanMove(p)
  {
    var c := p.once.caller;
    var pc := p.stops[c];
    if pc.AwaitLock? && p.readers != {} {
      var t :| t in p.readers;
      ReaderMoves(p, t);
    } else if pc.AwaitWorkers? && Remaining(p) > 0 {
      DrainProgress(p);
      var step :| IsWorkerStep(step) && Enabled(p, step);
      assert IsOngoing(step);
    } else {
      if pc.AwaitWorkers? { DrainProgress(p); }
      var step := if pc.AwaitLock? then AcquireLock(c)
                  else if pc.HoldsLock? then SetStopped(c)
                  else if pc.FlagSet? then CloseChannel(c)
                  else if pc.ChannelClosed? then ReleaseLock(c)
                  else WaitReturns(c);
      assert IsOngoing(step) && Enabled(p, step);
    }
  }

  /** Shutdown cannot deadlock: in every reachable pool, while any call of Stop has not
      returned, some call already made or some worker can take a step. */
  lemma ShutdownProgress(concurrency: int, queueDepth: int, steps: seq<Step>, q: Pool, i: nat)
    requires Run(NewPool(concurrency, queueDepth), steps, q)
    requires i in q.stops && !q.stops[i].StopReturned?
    ensures CanMove(q)
  {
    InitInv(concurrency, queueDepth);
    RunInv(NewPool(concurrency, queueDepth), steps, q);
    if q.once.RunBy? {
      RunnerMoves(q);
    } else {
      var step := if q.once.Unused? then OnceEnter(i) else OnceSkip(i);
      assert IsOngoing(step) && Enabled(q, step);
    }
  }

  lemma {:induction false} FindActive(ws: seq<WorkerPc>) returns (w: nat)
    requires Weights(ws) > 0
    ensures w < |ws| && !ws[w].Gone?
  {
    if !ws[0].Gone? {
      w := 0;
    } else {
      w := FindActive(ws[1..]);
      w := w + 1;
    }
  }

  lemma {:induction false} NoWeightNoneLive(ws: seq<WorkerPc>)
    requires Weights(ws) == 0
    ensures Live(ws) == 0
  {
    if ws != [] { NoWeightNoneLive(ws[1..]); }
  }
}
