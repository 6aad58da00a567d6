/** The bounded AutoReply worker pool as a state machine.

    Every action of `Submit`, `Stop` and `worker` that another goroutine can observe is one
    step: taking or releasing the RWMutex, testing `stopped`, the non-blocking send, closing
    the channel, entering or skipping the `sync.Once`, receiving, finishing a task, and
    `WaitGroup.Done`. A run is any sequence of enabled steps, so the theorems of
    `WorkerPoolProofs` range over every interleaving of any number of callers.

    A task is named by the Submit call that carries it. */
module WorkerPool {

  import opened Text

  type Task = nat

  /** Where a call of Submit stands. */
  datatype SubmitPc =
    | AwaitRLock
    | HoldsRLock
    | Sending
    | Answered(ok: bool)
    | SubmitReturned(ok: bool)

  /** Where a call of Stop stands. */
  datatype StopPc =
    | EnterOnce
    | AwaitLock
    | HoldsLock
    | FlagSet
    | ChannelClosed
    | AwaitWorkers
    | StopReturned

  datatype WorkerPc = Receiving | Busy(task: Task) | Leaving | Gone

  /** sync.Once: the first caller runs the body, the others block until it is finished. */
  datatype Once = Unused | RunBy(caller: nat) | Finished

  datatype Pool = Pool(
    depth: nat,
    queue: seq<Task>,
    closed: bool,
    stopped: bool,
    readers: set<nat>,
    writer: Option<nat>,
    once: Once,
    wg: int,
    workers: seq<WorkerPc>,
    submits: map<nat, SubmitPc>,
    stops: map<nat, StopPc>,
    accepted: seq<Task>,   // tasks put on the channel, in order
    started: seq<Task>,    // tasks taken off the channel, in order
    finished: seq<Task>,   // tasks whose handler returned or panicked, in order
    panicked: bool)        // send on closed channel, second close, or negative WaitGroup

  datatype Step =
    | CallSubmit(t: Task) | AcquireRLock(t: Task) | TestStopped(t: Task) | TrySend(t: Task) | ReleaseRLock(t: Task)
    | CallStop(i: nat) | OnceEnter(i: nat) | OnceSkip(i: nat) | AcquireLock(i: nat) | SetStopped(i: nat)
    | CloseChannel(i: nat) | ReleaseLock(i: nat) | WaitReturns(i: nat)
    | Take(w: nat) | Finish(w: nat, handlerPanicked: bool) | SeeClosed(w: nat) | Done(w: nat)

  predicate IsWorkerStep(step: Step) {
    step.Take? || step.Finish? || step.SeeClosed? || step.Done?
  }

  /** NewAutoReplyWorkerPool: non-positive settings fall back to 4 workers and 64 slots. */
  function NewPool(concurrency: int, queueDepth: int): (p: Pool)
    ensures |p.workers| >= 1 && p.depth >= 1
  {
    var n := if concurrency < 1 then 4 else concurrency;
    var depth := if queueDepth < 1 then 64 else queueDepth;
    Pool(depth, [], false, false, {}, None, Unused, n, seq(n, _ => Receiving), map[], map[], [], [], [], false)
  }

  predicate SubmitAt(p: Pool, t: Task, pc: SubmitPc) { t in p.submits && p.submits[t] == pc }
  predicate StopAt(p: Pool, i: nat, pc: StopPc) { i in p.stops && p.stops[i] == pc }
  predicate WorkerAt(p: Pool, w: nat, pc: WorkerPc) { w < |p.workers| && p.workers[w] == pc }

  predicate Enabled(p: Pool, step: Step) {
    match step
    case CallSubmit(t) => t !in p.submits
    case AcquireRLock(t) => SubmitAt(p, t, AwaitRLock) && p.writer.None?
    case TestStopped(t) => SubmitAt(p, t, HoldsRLock)
    case TrySend(t) => SubmitAt(p, t, Sending)
    case ReleaseRLock(t) => t in p.submits && p.submits[t].Answered?
    case CallStop(i) => i !in p.stops
    case OnceEnter(i) => StopAt(p, i, EnterOnce) && p.once.Unused?
    case OnceSkip(i) => StopAt(p, i, EnterOnce) && p.once.Finished?
    case AcquireLock(i) => StopAt(p, i, AwaitLock) && p.writer.None? && p.readers == {}
    case SetStopped(i) => StopAt(p, i, HoldsLock)
    case CloseChannel(i) => StopAt(p, i, FlagSet)
    case ReleaseLock(i) => StopAt(p, i, ChannelClosed)
    case WaitReturns(i) => StopAt(p, i, AwaitWorkers) && p.wg == 0
    case Take(w) => WorkerAt(p, w, Receiving) && p.queue != []
    case Finish(w, _) => w < |p.workers| && p.workers[w].Busy?
    case SeeClosed(w) => WorkerAt(p, w, Receiving) && p.queue == [] && p.closed
    case Done(w) => WorkerAt(p, w, Leaving)
  }

  function Apply(p: Pool, step: Step): Pool
    requires Enabled(p, step)
  {
    match step
    case CallSubmit(t) => p.(submits := p.submits[t := AwaitRLock])
    case AcquireRLock(t) => p.(readers := p.readers + {t}, submits := p.submits[t := HoldsRLock])
    case TestStopped(t) => p.(submits := p.submits[t := if p.stopped then Answered(false) else Sending])
    case TrySend(t) =>
      if p.closed then p.(panicked := true)
      else if |p.queue| < p.depth then
        p.(queue := p.queue + [t], accepted := p.accepted + [t], submits := p.submits[t := Answered(true)])
      else p.(submits := p.submits[t := Answered(false)])
    case ReleaseRLock(t) =>
      p.(readers := p.readers - {t}, submits := p.submits[t := SubmitReturned(p.submits[t].ok)])
    case CallStop(i) => p.(stops := p.stops[i := EnterOnce])
    case OnceEnter(i) => p.(once := RunBy(i), stops := p.stops[i := AwaitLock])
    case OnceSkip(i) => p.(stops := p.stops[i := StopReturned])
    case AcquireLock(i) => p.(writer := Some(i), stops := p.stops[i := HoldsLock])
    case SetStopped(i) => p.(stopped := true, stops := p.stops[i := FlagSet])
    case CloseChannel(i) =>
      if p.closed then p.(panicked := true) else p.(closed := true, stops := p.stops[i := ChannelClosed])
    case ReleaseLock(i) => p.(writer := None, stops := p.stops[i := AwaitWorkers])
    case WaitReturns(i) => p.(once := Finished, stops := p.stops[i := StopReturned])
    case Take(w) =>
      p.(queue := p.queue[1..], started := p.started + [p.queue[0]], workers := p.workers[w := Busy(p.queue[0])])
    case Finish(w, _) => // a panicking handler is recovered, so the worker goes on either way
      p.(finished := p.finished + [p.workers[w].task], workers := p.workers[w := Receiving])
    case SeeClosed(w) => p.(workers := p.workers[w := Leaving])
    case Done(w) =>
      if p.wg < 1 then p.(panicked := true) else p.(wg := p.wg - 1, workers := p.workers[w := Gone])
  }

  /** `steps` is a run from p to q. */
  ghost predicate Run(p: Pool, steps: seq<Step>, q: Pool)
    decreases |steps|
  {
    if steps == [] then p == q
    else Enabled(p, steps[0]) && Run(Apply(p, steps[0]), steps[1..], q)
  }

  function BusyTasks(ws: seq<WorkerPc>): multiset<Task> {
    if ws == [] then multiset{} else BusyTask(ws[0]) + BusyTasks(ws[1..])
  }

  function BusyTask(pc: WorkerPc): multiset<Task> {
    if pc.Busy? then multiset{pc.task} else multiset{}
  }

  function Live(ws: seq<WorkerPc>): nat {
    if ws == [] then 0 else (if ws[0].Gone? then 0 else 1) + Live(ws[1..])
  }

  /** Work the workers still have to do once the channel is closed. */
  function Remaining(p: Pool): nat { 4 * |p.queue| + Weights(p.workers) }

  function Weights(ws: seq<WorkerPc>): nat {
    if ws == [] then 0 else Weight(ws[0]) + Weights(ws[1..])
  }

  function Weight(pc: WorkerPc): nat {
    match pc case Busy(_) => 3 case Receiving => 2 case Leaving => 1 case Gone => 0
  }
}
