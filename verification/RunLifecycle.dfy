/** The state machine of an AI run. */
module RunLifecycle {
  import opened Text

  datatype Status =
    | Received | ContextBuilt | Running | WaitingTool | Validating | Authorized | Executing
    | Completed | Failed | Cancelled

  predicate Terminal(s: Status) { s.Completed? || s.Failed? || s.Cancelled? }

  /** What a run is unique by while it is open. */
  datatype RunKey = RunKey(business: string, idempotency: string)

  /** A run; `stamps` holds the time fields that are set, one per status. */
  datatype Run = Run(key: RunKey, status: Status, stamps: map<Status, int>)

  /** The statuses from which a lifecycle method may enter `to`; nothing enters the others. */
  function AllowedFrom(to: Status): seq<Status> {
    match to
    case ContextBuilt => [Received]
    case Running => [ContextBuilt, WaitingTool]
    case Validating => [Running]
    case Authorized => [Validating]
    case Executing => [Authorized]
    case Completed => [Executing, Validating, Authorized]
    case Cancelled => [Received, ContextBuilt]
    case Failed => [Received, ContextBuilt, Running, WaitingTool, Validating, Authorized, Executing]
    case _ => []
  }

  predicate Legal(from: Status, to: Status) {
    match to
    case ContextBuilt => from.Received?
    case Running => from.ContextBuilt? || from.WaitingTool?
    case Validating => from.Running?
    case Authorized => from.Validating?
    case Executing => from.Authorized?
    case Completed => from.Executing? || from.Validating? || from.Authorized?
    case Cancelled => from.Received? || from.ContextBuilt?
    case Failed => !Terminal(from)
    case _ => false
  }

  lemma LegalIsAllowed(from: Status, to: Status)
    ensures Legal(from, to) <==> from in AllowedFrom(to)
  {
  }

  /** One lifecycle call: the status it asks for, the time, and whether its arguments and
      the write are good. */
  datatype Call = Call(to: Status, now: int, ok: bool)

  /** The effect of a call on a run; None when it is refused. */
  function Transition(run: Run, c: Call): Option<Run> {
    if Legal(run.status, c.to) && c.ok then Some(Run(run.key, c.to, run.stamps[c.to := c.now])) else None
  }

  function Apply(run: Run, c: Call): Run {
    if Transition(run, c).Some? then Transition(run, c).value else run
  }

  function After(run: Run, calls: seq<Call>): Run {
    if calls == [] then run else Apply(After(run, calls[..|calls| - 1]), calls[|calls| - 1])
  }

  function Fresh(key: RunKey, now: int): Run { Run(key, Received, map[Received := now]) }

  /** The statuses a run goes through, from the first. */
  function Trail(run: Run, calls: seq<Call>): (t: seq<Status>)
    ensures |t| > 0 && t[|t| - 1] == After(run, calls).status
  {
    if calls == [] then [run.status]
    else
      var init := calls[..|calls| - 1];
      if Transition(After(run, init), calls[|calls| - 1]).Some? then Trail(run, init) + [calls[|calls| - 1].to]
      else Trail(run, init)
  }

  // ---------------------------------------------------------------- every history

  function MainPath(): seq<Status> { [Received, ContextBuilt, Running, Validating, Authorized, Executing] }

  /** A prefix of the main path, possibly ended: by FAILED anywhere, by CANCELLED before
      RUNNING, by COMPLETED from VALIDATING on. */
  predicate LegalTrail(t: seq<Status>) {
    || (1 <= |t| <= 6 && t == MainPath()[..|t|])
    || (2 <= |t| <= 7 && t[..|t| - 1] == MainPath()[..|t| - 1]
        && match t[|t| - 1]
           case Failed => true
           case Cancelled => |t| <= 3
           case Completed => |t| >= 5
           case _ => false)
  }

  lemma LegalStep(t: seq<Status>, to: Status)
    requires LegalTrail(t) && Legal(t[|t| - 1], to)
    ensures LegalTrail(t + [to])
  {
    assert (t + [to])[..|t|] == t;
    assert t == MainPath()[..|t|];
    assert |t| < 6 && MainPath()[|t|] == to ==> t + [to] == MainPath()[..|t| + 1];
    assert t[|t| - 1] == MainPath()[|t| - 1];
  }

  lemma {:induction false} TrailLegal(key: RunKey, now: int, calls: seq<Call>)
    ensures LegalTrail(Trail(Fresh(key, now), calls))
  {
    if calls != [] {
      var init, c := calls[..|calls| - 1], calls[|calls| - 1];
      TrailLegal(key, now, init);
      if Transition(After(Fresh(key, now), init), c).Some? { LegalStep(Trail(Fresh(key, now), init), c.to); }
    }
  }

  lemma LastStep(t: seq<Status>)
    requires LegalTrail(t) && |t| >= 2
    ensures LegalTrail(t[..|t| - 1]) && Legal(t[|t| - 2], t[|t| - 1])
  {
    assert t[..|t| - 1] == MainPath()[..|t| - 1];
    assert t[|t| - 2] == MainPath()[|t| - 2];
  }

  lemma TrailStep(run: Run, calls: seq<Call>, c: Call)
    requires Legal(After(run, calls).status, c.to) && c.ok
    ensures Trail(run, calls + [c]) == Trail(run, calls) + [c.to]
  {
    assert (calls + [c])[..|calls|] == calls;
  }

  lemma FirstStatus(t: seq<Status>)
    requires LegalTrail(t) && |t| < 2
    ensures t == [Received]
  {
  }

  /** Every legal trail is the history of some calls: the description is exact. */
  lemma {:induction false} TrailReachable(key: RunKey, now: int, t: seq<Status>) returns (calls: seq<Call>)
    requires LegalTrail(t)
    ensures Trail(Fresh(key, now), calls) == t
    decreases |t|
  {
    if |t| < 2 {
      calls := [];
      FirstStatus(t);
    } else {
      LastStep(t);
      var last := t[|t| - 1];
      assert t == t[..|t| - 1] + [last];
      calls := TrailReachable(key, now, t[..|t| - 1]);
      TrailStep(Fresh(key, now), calls, Call(last, now, true));
      calls := calls + [Call(last, now, true)];
    }
  }

  /** Where a status stands on a legal trail. */
  lemma Position(t: seq<Status>, i: nat)
    requires LegalTrail(t) && i < |t|
    ensures |t| <= 7 && ((i < 6 && t[i] == MainPath()[i]) || (i == |t| - 1 && i > 0 && Terminal(t[i]) && (t[i].Cancelled? ==> i <= 2)))
  {
    if (|t| == 7 || t != MainPath()[..|t|]) && i < |t| - 1 { assert t[i] == t[..|t| - 1][i]; }
  }

  lemma ThroughExecuting(t: seq<Status>)
    requires LegalTrail(t) && Executing in t
    ensures |t| >= 6 && t[..6] == MainPath()
  {
    var i :| 0 <= i < |t| && t[i] == Executing;
    Position(t, i);
    assert i == 5;
    forall j | 0 <= j < 6 ensures t[j] == MainPath()[j] {
      Position(t, j);
    }
  }

  lemma CancelledEarly(t: seq<Status>)
    requires LegalTrail(t) && Cancelled in t
    ensures Running !in t && t[|t| - 1] == Cancelled
  {
    var i :| 0 <= i < |t| && t[i] == Cancelled;
    Position(t, i);
    forall j | 0 <= j < |t| ensures t[j] != Running {
      Position(t, j);
    }
  }

  /** At most six transitions; EXECUTING only behind RUNNING, VALIDATING and AUTHORIZED;
      cancelled only before RUNNING; nothing behind a terminal status. */
  ghost predicate Orderly(t: seq<Status>) {
    && |t| - 1 <= 6
    && (Executing in t ==> |t| >= 6 && t[..6] == MainPath())
    && (Cancelled in t ==> Running !in t && t[|t| - 1] == Cancelled)
    && (forall i :: 0 <= i < |t| - 1 ==> !Terminal(t[i]))
  }

  lemma LegalIsOrderly(t: seq<Status>)
    requires LegalTrail(t)
    ensures Orderly(t)
  {
    if Executing in t { ThroughExecuting(t); }
    if Cancelled in t { CancelledEarly(t); }
    forall i | 0 <= i < |t| - 1 ensures !Terminal(t[i]) { Position(t, i); }
  }

  /** Every history from a fresh run is orderly. */
  lemma {:induction false} HistoryTheorem(key: RunKey, now: int, calls: seq<Call>)
    ensures Orderly(Trail(Fresh(key, now), calls))
  {
    TrailLegal(key, now, calls);
    LegalIsOrderly(Trail(Fresh(key, now), calls));
  }

  /** Terminal states are absorbing. */
  lemma {:induction false} TerminalAbsorbing(run: Run, calls: seq<Call>)
    requires Terminal(run.status)
    ensures After(run, calls) == run
  {
    if calls != [] { TerminalAbsorbing(run, calls[..|calls| - 1]); }
  }

  /** The time fields that are set are exactly those of the statuses visited. */
  lemma {:induction false} StampsFollowTrail(key: RunKey, now: int, calls: seq<Call>)
    ensures After(Fresh(key, now), calls).stamps.Keys == set s | s in Trail(Fresh(key, now), calls)
  {
    if calls != [] { StampsFollowTrail(key, now, calls[..|calls| - 1]); }
  }

  /** At most one terminal time field is set, and only on a run that ended with it. */
  lemma {:induction false} OneTerminalStamp(key: RunKey, now: int, calls: seq<Call>, s: Status)
    ensures var run := After(Fresh(key, now), calls);
      Terminal(s) && s in run.stamps ==> run.status == s
  {
    var t := Trail(Fresh(key, now), calls);
    StampsFollowTrail(key, now, calls);
    HistoryTheorem(key, now, calls);
    if Terminal(s) && s in After(Fresh(key, now), calls).stamps {
      var i :| 0 <= i < |t| && t[i] == s;
    }
  }

  // ---------------------------------------------------------------- the run store

  type Runs = map<string, Run>

  predicate Live(runs: Runs, id: string, key: RunKey) {
    id in runs && runs[id].key == key && !Terminal(runs[id].status)
  }

  /** Two runs still open have different idempotency keys. */
  ghost predicate OneLive(runs: Runs) {
    forall a, b :: a in runs && b in runs && !Terminal(runs[a].status) && Live(runs, b, runs[a].key) ==> a == b
  }

  datatype Started = Started(id: string, resumed: bool) | NotStarted

  /** StartRun on the store: `found` is the run the lookup by key returned, if any, and
      `created` whether the repository accepts the new run. */
  function Start(runs: Runs, key: RunKey, found: Option<string>, newId: string, now: int, created: bool): (Runs, Started) {
    if Trim(key.business) == "" || Trim(key.idempotency) == "" then (runs, NotStarted)
    else if found.Some? && Live(runs, found.value, key) then (runs, Started(found.value, true))
    else if !created then (runs, NotStarted)
    else (runs[newId := Fresh(key, now)], Started(newId, false))
  }

  /** What the repository's unique indexes promise: a run is accepted only under a new ID and
      while no open run has its key. */
  ghost predicate UniqueIndex(runs: Runs, key: RunKey, newId: string, created: bool) {
    created ==> newId !in runs && forall id :: id in runs ==> !Live(runs, id, key)
  }

  function Mark(runs: Runs, id: string, c: Call): Runs {
    if id in runs then runs[id := Apply(runs[id], c)] else runs
  }

  lemma StartKeepsOneLive(runs: Runs, key: RunKey, found: Option<string>, newId: string, now: int, created: bool)
    requires OneLive(runs) && UniqueIndex(runs, key, newId, created)
    ensures OneLive(Start(runs, key, found, newId, now, created).0)
    ensures var r := Start(runs, key, found, newId, now, created);
      r.1.Started? ==> Live(r.0, r.1.id, key) && (forall id :: Live(r.0, id, key) ==> id == r.1.id)
  {
  }

  /** The index is what keeps open runs unique: for a new ID the start keeps them so exactly
      when it creates nothing or no open run has the key. A lookup that returns an ended run
      although there is an open one does not suffice. */
  lemma StartNeedsIndex(runs: Runs, key: RunKey, found: Option<string>, newId: string, now: int, created: bool)
    requires OneLive(runs) && newId !in runs
    ensures var r := Start(runs, key, found, newId, now, created);
      OneLive(r.0) <==> (r.1 == Started(newId, false) ==> UniqueIndex(runs, key, newId, created))
  {
    var r := Start(runs, key, found, newId, now, created);
    if r.1 == Started(newId, false) && OneLive(r.0) {
      forall id | id in runs ensures !Live(runs, id, key) {
        assert Live(r.0, newId, key) && r.0[id] == runs[id];
      }
    }
  }

  lemma MarkKeepsOneLive(runs: Runs, id: string, c: Call)
    requires OneLive(runs)
    ensures OneLive(Mark(runs, id, c))
  {
    var runs' := Mark(runs, id, c);
    forall a | a in runs' ensures runs'[a].key == runs[a].key && (Terminal(runs[a].status) ==> Terminal(runs'[a].status)) {}
    forall a, b | a in runs' && b in runs' && !Terminal(runs'[a].status) && Live(runs', b, runs'[a].key) ensures a == b {
      assert Live(runs, b, runs[a].key);
    }
  }

  datatype StoreOp =
    | StartOp(key: RunKey, found: Option<string>, newId: string, at: int, created: bool)
    | MarkOp(id: string, call: Call)

  function StoreAfter(runs: Runs, ops: seq<StoreOp>): Runs {
    if ops == [] then runs
    else
      var r := StoreAfter(runs, ops[..|ops| - 1]);
      match ops[|ops| - 1]
      case StartOp(key, found, newId, at, created) => Start(r, key, found, newId, at, created).0
      case MarkOp(id, call) => Mark(r, id, call)
  }

  /** The unique indexes held at every start. */
  ghost predicate Indexed(runs: Runs, ops: seq<StoreOp>) {
    ops == []
    || (&& Indexed(runs, ops[..|ops| - 1])
        && var op := ops[|ops| - 1];
           op.StartOp? ==> UniqueIndex(StoreAfter(runs, ops[..|ops| - 1]), op.key, op.newId, op.created))
  }

  /** Over any mix of starts and transitions, the index keeps at most one open run per key. */
  lemma {:induction false} OneLiveTheorem(ops: seq<StoreOp>)
    requires Indexed(map[], ops)
    ensures OneLive(StoreAfter(map[], ops))
  {
    if ops != [] {
      var init := ops[..|ops| - 1];
      OneLiveTheorem(init);
      var r := StoreAfter(map[], init);
      match ops[|ops| - 1]
      case StartOp(key, found, newId, at, created) => StartKeepsOneLive(r, key, found, newId, at, created);
      case MarkOp(id, call) => MarkKeepsOneLive(r, id, call);
    }
  }

  // ---------------------------------------------------------------- the service

  class AIRunLifecycle {
    var runs: Runs

    constructor ()
      ensures runs == map[]
    {
      runs := map[];
    }

    /** StartRun. The lookup may return any run with the key, open or ended, or fail. */
    method StartRun(key: RunKey, found: Option<string>, newId: string, now: int, created: bool) returns (r: Started)
      modifies this
      ensures (runs, r) == Start(old(runs), key, found, newId, now, created)
      // an open run with the key is resumed if the lookup finds it, and resuming changes nothing
      ensures var open := found.Some? && found.value in old(runs) && old(runs)[found.value].key == key
                          && old(runs)[found.value].status !in {Completed, Failed, Cancelled};
        && (r.NotStarted? <==> Trim(key.business) == "" || Trim(key.idempotency) == "" || (!open && !created))
        && (r.Started? ==> r.resumed == open && r.id == (if open then found.value else newId))
      ensures runs == if r.Started? && !r.resumed then old(runs)[newId := Run(key, Received, map[Received := now])] else old(runs)
      ensures OneLive(old(runs)) && UniqueIndex(old(runs), key, newId, created) ==> OneLive(runs)
    {
      if OneLive(runs) && UniqueIndex(runs, key, newId, created) { StartKeepsOneLive(runs, key, found, newId, now, created); }
      if Trim(key.business) == "" || Trim(key.idempotency) == "" { return NotStarted; }
      if found.Some? && Live(runs, found.value, key) { return Started(found.value, true); }
      if !created { return NotStarted; }
      runs := runs[newId := Fresh(key, now)];
      return Started(newId, false);
    }

    /** The common helper of the Mark methods. */
    method MarkRun(id: string, c: Call) returns (done: bool)
      requires OneLive(runs)
      modifies this
      ensures runs == Mark(old(runs), id, c) && OneLive(runs)
      ensures done <==> id in old(runs) && Legal(old(runs)[id].status, c.to) && c.ok
    {
      MarkKeepsOneLive(runs, id, c);
      if id !in runs { return false; }
      var allowed, from := false, AllowedFrom(c.to);
      LegalIsAllowed(runs[id].status, c.to);
      for i := 0 to |from|
        invariant !allowed && forall j :: 0 <= j < i ==> from[j] != runs[id].status
      {
        if runs[id].status == from[i] { allowed := true; break; }
      }
      if !allowed || !c.ok {
        assert runs[id := Apply(runs[id], c)] == runs;
        return false;
      }
      runs := runs[id := Run(runs[id].key, c.to, runs[id].stamps[c.to := c.now])];
      return true;
    }
  }
}
