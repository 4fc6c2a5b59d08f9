/**
 The outbound bridge (byteflow/src/scheduler/distribution.rs): two atomic
 counters updated by any number of threads, and the queue of charged hops.

 Each hop offered to the bridge is a `Task`. One step is one atomic access by
 one task, one queue operation under the lock, or one new task. A load may
 return any value at all, so stale reads are covered; a weak compare-exchange
 may fail although the values match; only a successful compare-exchange and a
 `fetch_sub` see the current value.
 */
module Bridge {
  import opened Common

  type Usize = U64
  const USIZE_MAX: Usize := U64_MAX

  datatype Phase =
    // `try_charge`
    | LoadHops
    | LoadBytes(hops: Usize)
    | CasHops(hops: Usize, used: Usize, next: Usize)
    | CasBytes(used: Usize, next: Usize)
    | UndoHops
    | Refused
    | Charged
    // `push` and `try_recv`
    | Queued
    | Received
    // `release`
    | ReleaseHops
    | ReleaseLoad
    | ReleaseCas(cur: Usize, next: Usize)
    | Released

  datatype Task = Task(cost: Usize, phase: Phase)

  datatype State = State(
    maxHops: Usize, maxBytes: Usize,
    hops: Usize, bytes: Usize,
    tasks: seq<Task>,
    queue: seq<nat>,
    // Every hop ever pushed, and every hop ever received, in order.
    pushed: seq<nat>, received: seq<nat>)

  datatype Step =
    | Begin(cost: Usize)
    // Task `t`'s next atomic access: what a load sees, whether a weak
    // compare-exchange fails for no reason, whether the queue lock is poisoned.
    | Advance(task: nat, seen: Usize, spurious: bool)
    | Recv
    | DropHop(task: nat)

  function Max(a: Usize, b: Usize): Usize { if a >= b then a else b }

  // `with_config`
  function Init(maxHops: Usize, maxBytes: Usize): (s: State) {
    State(Max(maxHops, 1), Max(maxBytes, 1), 0, 0, [], [], [], [])
  }

  function AddOne(x: Usize): Usize {
    if x == USIZE_MAX then 0 else x + 1
  }

  // `fetch_sub(1)` wraps.
  function FetchSub(x: Usize): Usize {
    if x == 0 then USIZE_MAX else x - 1
  }

  function SaturatingSub(a: Usize, b: Usize): Usize {
    if a >= b then a - b else 0
  }

  function Put(s: State, t: nat, phase: Phase): State
    requires t < |s.tasks|
  {
    s.(tasks := s.tasks[t := s.tasks[t].(phase := phase)])
  }

  function AdvanceTask(s: State, t: nat, seen: Usize, spurious: bool): (r: State)
    requires t < |s.tasks|
  {
    var cost := s.tasks[t].cost;
    match s.tasks[t].phase
    case LoadHops => Put(s, t, if seen >= s.maxHops then Refused else LoadBytes(seen))
    case LoadBytes(hops) =>
      if seen + cost > USIZE_MAX || seen + cost > s.maxBytes then Put(s, t, Refused)
      else Put(s, t, CasHops(hops, seen, seen + cost))
    case CasHops(hops, used, next) =>
      if s.hops != hops || spurious then Put(s, t, LoadHops)
      else Put(s, t, CasBytes(used, next)).(hops := AddOne(hops))
    case CasBytes(used, next) =>
      if s.bytes != used || spurious then Put(s, t, UndoHops) else Put(s, t, Charged).(bytes := next)
    case UndoHops => Put(s, t, LoadHops).(hops := FetchSub(s.hops))
    case Charged =>
      if spurious then Put(s, t, ReleaseHops)
      else Put(s, t, Queued).(queue := s.queue + [t], pushed := s.pushed + [t])
    case ReleaseHops => Put(s, t, ReleaseLoad).(hops := FetchSub(s.hops))
    case ReleaseLoad => Put(s, t, ReleaseCas(seen, SaturatingSub(seen, cost)))
    case ReleaseCas(cur, next) =>
      if s.bytes != cur || spurious then Put(s, t, ReleaseLoad) else Put(s, t, Released).(bytes := next)
    case _ => s
  }

  function Next(s: State, step: Step): (r: State) {
    match step
    case Begin(cost) => s.(tasks := s.tasks + [Task(cost, LoadHops)])
    case Advance(t, seen, spurious) => if t < |s.tasks| then AdvanceTask(s, t, seen, spurious) else s
    case Recv =>
      if s.queue == [] || s.queue[0] >= |s.tasks| then s
      else Put(s, s.queue[0], Received).(queue := s.queue[1..], received := s.received + [s.queue[0]])
    case DropHop(t) =>
      if t < |s.tasks| && s.tasks[t].phase == Received then Put(s, t, ReleaseHops) else s
  }

  function Run(s: State, steps: seq<Step>): (r: State)
    decreases |steps|
  {
    if steps == [] then s else Run(Next(s, steps[0]), steps[1..])
  }

  // ------------------------------------------------------------- accounting

  // A hop slot is held from the first compare-exchange until the matching
  // `fetch_sub`: live charges, and reservations between the two exchanges.
  function HopShare(task: Task): nat {
    match task.phase
    case CasBytes(_, _) => 1
    case UndoHops => 1
    case Charged => 1
    case Queued => 1
    case Received => 1
    case ReleaseHops => 1
    case _ => 0
  }

  // Bytes are held from the second compare-exchange until the releasing one.
  function ByteShare(task: Task): nat {
    match task.phase
    case Charged => task.cost
    case Queued => task.cost
    case Received => task.cost
    case ReleaseHops => task.cost
    case ReleaseLoad => task.cost
    case ReleaseCas(_, _) => task.cost
    case _ => 0
  }

  function Total(tasks: seq<Task>, share: Task -> nat): nat {
    if tasks == [] then 0 else Total(tasks[..|tasks| - 1], share) + share(tasks[|tasks| - 1])
  }

  lemma {:induction false} TotalUpdate(tasks: seq<Task>, share: Task -> nat, t: nat, task: Task)
    requires t < |tasks|
    ensures Total(tasks[t := task], share) == Total(tasks, share) - share(tasks[t]) + share(task)
  {
    var n := |tasks| - 1;
    if t < n {
      TotalUpdate(tasks[..n], share, t, task);
      assert tasks[t := task][..n] == tasks[..n][t := task];
    } else {
      assert tasks[t := task][..n] == tasks[..n];
    }
  }

  lemma {:induction false} ShareWithinTotal(tasks: seq<Task>, share: Task -> nat, t: nat)
    requires t < |tasks|
    ensures share(tasks[t]) <= Total(tasks, share)
  {
    if t < |tasks| - 1 { ShareWithinTotal(tasks[..|tasks| - 1], share, t); }
  }

  lemma {:induction false} TotalZero(tasks: seq<Task>, share: Task -> nat)
    requires forall t | 0 <= t < |tasks| :: share(tasks[t]) == 0
    ensures Total(tasks, share) == 0
  {
    if tasks != [] { TotalZero(tasks[..|tasks| - 1], share); }
  }

  // What a task carries across its own steps.
  predicate PhaseOk(s: State, task: Task) {
    match task.phase
    case LoadBytes(hops) => hops < s.maxHops
    case CasHops(hops, used, next) => hops < s.maxHops && next == used + task.cost <= s.maxBytes
    case CasBytes(used, next) => next == used + task.cost <= s.maxBytes
    case ReleaseCas(cur, next) => next == SaturatingSub(cur, task.cost)
    case _ => true
  }

  ghost predicate Accounted(s: State) {
    && s.hops == Total(s.tasks, HopShare) <= s.maxHops
    && s.bytes == Total(s.tasks, ByteShare) <= s.maxBytes
    && forall t | 0 <= t < |s.tasks| :: PhaseOk(s, s.tasks[t])
  }

  // The queue holds exactly the queued hops, once each, and is what was pushed
  // and not yet received, in order.
  ghost predicate Fifo(s: State) {
    && s.pushed == s.received + s.queue
    && (forall i, j | 0 <= i < j < |s.pushed| :: s.pushed[i] != s.pushed[j])
    && (forall t | t in s.queue :: t < |s.tasks| && s.tasks[t].phase == Queued)
    && (forall t | 0 <= t < |s.tasks| && s.tasks[t].phase == Queued :: t in s.queue)
    && (forall t | t in s.pushed :: t < |s.tasks| && WasPushed(s.tasks[t].phase))
  }

  predicate WasPushed(phase: Phase) {
    phase.Queued? || phase.Received? || phase.ReleaseHops? || phase.ReleaseLoad? || phase.ReleaseCas? || phase.Released?
  }

  ghost predicate Inv(s: State) {
    Accounted(s) && Fifo(s)
  }

  // ---------------------------------------------------------------- one step

  // An atomic access of one task changes each counter by exactly what that
  // task's share changes by, and neither counter passes its limit.
  lemma {:induction false} AdvanceMovesShares(s: State, t: nat, seen: Usize, spurious: bool)
    requires t < |s.tasks| && PhaseOk(s, s.tasks[t])
    requires HopShare(s.tasks[t]) <= s.hops <= s.maxHops && ByteShare(s.tasks[t]) <= s.bytes <= s.maxBytes
    ensures
      var r := AdvanceTask(s, t, seen, spurious);
      && r.tasks == s.tasks[t := r.tasks[t]] && r.maxHops == s.maxHops && r.maxBytes == s.maxBytes
      && r.hops == s.hops - HopShare(s.tasks[t]) + HopShare(r.tasks[t]) <= s.maxHops
      && r.bytes == s.bytes - ByteShare(s.tasks[t]) + ByteShare(r.tasks[t]) <= s.maxBytes
      && PhaseOk(s, r.tasks[t])
  {
  }

  lemma {:induction false} AdvanceKeepsAccounts(s: State, t: nat, seen: Usize, spurious: bool)
    requires Accounted(s) && t < |s.tasks|
    ensures Accounted(AdvanceTask(s, t, seen, spurious))
  {
    ShareWithinTotal(s.tasks, HopShare, t);
    ShareWithinTotal(s.tasks, ByteShare, t);
    AdvanceMovesShares(s, t, seen, spurious);
    var task := AdvanceTask(s, t, seen, spurious).tasks[t];
    TotalUpdate(s.tasks, HopShare, t, task);
    TotalUpdate(s.tasks, ByteShare, t, task);
  }

  lemma {:induction false} PutKeepsAccounts(s: State, t: nat, phase: Phase)
    requires Accounted(s) && t < |s.tasks|
    requires s.tasks[t].phase.Queued? || s.tasks[t].phase.Received?
    requires phase == Received || phase == ReleaseHops
    ensures Accounted(Put(s, t, phase))
  {
    var task := s.tasks[t].(phase := phase);
    TotalUpdate(s.tasks, HopShare, t, task);
    TotalUpdate(s.tasks, ByteShare, t, task);
  }

  lemma {:induction false} BeginKeepsAccounts(s: State, cost: Usize)
    requires Accounted(s)
    ensures Accounted(Next(s, Begin(cost)))
  {
    var r := Next(s, Begin(cost));
    assert r.tasks[..|r.tasks| - 1] == s.tasks;
  }

  lemma {:induction false} StepKeepsAccounts(s: State, step: Step)
    requires Inv(s)
    ensures Accounted(Next(s, step))
  {
    match step
    case Begin(cost) => BeginKeepsAccounts(s, cost);
    case Advance(t, seen, spurious) => if t < |s.tasks| { AdvanceKeepsAccounts(s, t, seen, spurious); }
    case Recv =>
      if s.queue != [] {
        assert s.queue[0] in s.queue;
        PutKeepsAccounts(s, s.queue[0], Received);
      }
    case DropHop(t) => if t < |s.tasks| && s.tasks[t].phase == Received { PutKeepsAccounts(s, t, ReleaseHops); }
  }

  lemma {:induction false} PushKeepsFifo(s: State, t: nat)
    requires Fifo(s) && t < |s.tasks| && s.tasks[t].phase == Charged
    ensures Fifo(Put(s, t, Queued).(queue := s.queue + [t], pushed := s.pushed + [t]))
  {
    assert t !in s.pushed;
  }

  lemma {:induction false} RecvKeepsFifo(s: State)
    requires Fifo(s) && s.queue != []
    ensures Fifo(Next(s, Recv))
  {
    var t, r := s.queue[0], Next(s, Recv);
    assert t in s.queue;
    assert s.received + s.queue == r.received + r.queue;
    assert s.pushed[|s.received|] == t;
    forall i | 0 <= i < |r.queue| ensures r.queue[i] != t { assert r.queue[i] == s.pushed[|s.received| + 1 + i]; }
    assert t !in r.queue && t in s.pushed;
    assert forall u | u in r.queue :: u in s.queue;
    assert forall u | u in s.queue && u != t :: u in r.queue;
  }

  // A step that leaves the queue alone and does not move a hop in or out of it.
  lemma {:induction false} OtherKeepsFifo(s: State, r: State, t: nat)
    requires Fifo(s) && t < |s.tasks|
    requires r.queue == s.queue && r.pushed == s.pushed && r.received == s.received
    requires |r.tasks| == |s.tasks| && forall u | 0 <= u < |s.tasks| && u != t :: r.tasks[u] == s.tasks[u]
    requires s.tasks[t].phase != Queued && r.tasks[t].phase != Queued
    requires WasPushed(s.tasks[t].phase) ==> WasPushed(r.tasks[t].phase)
    ensures Fifo(r)
  {
  }

  lemma {:induction false} AdvanceKeepsFifo(s: State, t: nat, seen: Usize, spurious: bool)
    requires Fifo(s) && t < |s.tasks|
    ensures Fifo(AdvanceTask(s, t, seen, spurious))
  {
    if s.tasks[t].phase == Charged && !spurious { PushKeepsFifo(s, t); }
    else if s.tasks[t].phase != Queued { OtherKeepsFifo(s, AdvanceTask(s, t, seen, spurious), t); }
  }

  lemma {:induction false} StepKeepsFifo(s: State, step: Step)
    requires Fifo(s)
    ensures Fifo(Next(s, step))
  {
    match step
    case Begin(cost) => BeginKeepsFifo(s, cost);
    case Recv => if s.queue != [] { RecvKeepsFifo(s); }
    case DropHop(t) => if t < |s.tasks| && s.tasks[t].phase == Received { OtherKeepsFifo(s, Next(s, step), t); }
    case Advance(t, seen, spurious) => if t < |s.tasks| { AdvanceKeepsFifo(s, t, seen, spurious); }
  }

  lemma {:induction false} BeginKeepsFifo(s: State, cost: Usize)
    requires Fifo(s)
    ensures Fifo(Next(s, Begin(cost)))
  {
    assert forall t | 0 <= t < |s.tasks| :: Next(s, Begin(cost)).tasks[t] == s.tasks[t];
  }

  // --------------------------------------------------------------- all runs

  // Under any interleaving of any number of charges, pushes, receives and
  // releases, both counters are exact and within their limits.
  lemma {:induction false} RunKeepsInv(s: State, steps: seq<Step>)
    requires Inv(s)
    ensures Inv(Run(s, steps))
    decreases |steps|
  {
    if steps != [] {
      StepKeepsAccounts(s, steps[0]);
      StepKeepsFifo(s, steps[0]);
      RunKeepsInv(Next(s, steps[0]), steps[1..]);
    }
  }

  lemma {:induction false} BridgeIsExact(maxHops: Usize, maxBytes: Usize, steps: seq<Step>)
    ensures
      var s := Run(Init(maxHops, maxBytes), steps);
      && s.hops == Total(s.tasks, HopShare) && s.bytes == Total(s.tasks, ByteShare)
      && s.hops <= s.maxHops && s.bytes <= s.maxBytes
      && s.pushed == s.received + s.queue
  {
    RunKeepsInv(Init(maxHops, maxBytes), steps);
  }

  // In every reachable state the next `fetch_sub` does not wrap and the next
  // successful releasing exchange subtracts exactly the charge.
  lemma {:induction false} SubtractionsAreExact(s: State, t: nat, seen: Usize, spurious: bool)
    requires Inv(s) && t < |s.tasks|
    ensures s.tasks[t].phase.UndoHops? || s.tasks[t].phase.ReleaseHops? ==>
      AdvanceTask(s, t, seen, spurious).hops == s.hops - 1
    ensures
      var r := AdvanceTask(s, t, seen, spurious);
      s.tasks[t].phase.ReleaseCas? && r.tasks[t].phase.Released? ==> r.bytes == s.bytes - s.tasks[t].cost
  {
    ShareWithinTotal(s.tasks, HopShare, t);
    ShareWithinTotal(s.tasks, ByteShare, t);
    assert PhaseOk(s, s.tasks[t]);
  }

  lemma {:induction false} QueueHeadIsQueued(s: State)
    requires Fifo(s)
    ensures s.queue == [] || (s.queue[0] < |s.tasks| && s.tasks[s.queue[0]].phase == Queued)
  {
    assert s.queue == [] || s.queue[0] in s.queue;
  }

  ghost predicate Quiescent(s: State) {
    forall t | 0 <= t < |s.tasks| :: s.tasks[t].phase.Refused? || s.tasks[t].phase.Released?
  }

  lemma {:induction false} QuiescentTotals(s: State)
    requires Inv(s) && Quiescent(s)
    ensures s.hops == 0 && s.bytes == 0
    ensures s.queue == []
  {
    TotalZero(s.tasks, HopShare);
    TotalZero(s.tasks, ByteShare);
    QueueHeadIsQueued(s);
  }

  // When every task has been refused or released, nothing is left charged.
  lemma {:induction false} QuiescentIsEmpty(maxHops: Usize, maxBytes: Usize, steps: seq<Step>)
    ensures
      var s := Run(Init(maxHops, maxBytes), steps);
      Quiescent(s) ==> s.hops == 0 && s.bytes == 0 && s.queue == []
  {
    var s := Run(Init(maxHops, maxBytes), steps);
    RunKeepsInv(Init(maxHops, maxBytes), steps);
    if Quiescent(s) { QuiescentTotals(s); }
  }

  function LiveHops(s: State): set<nat> {
    set t | 0 <= t < |s.tasks| && (s.tasks[t].phase == Queued || s.tasks[t].phase == Received)
  }

  // At most `maxHops` hops are queued or in the host's hands at any time.
  lemma {:induction false} LiveHopsWithinLimit(maxHops: Usize, maxBytes: Usize, steps: seq<Step>)
    ensures
      var s := Run(Init(maxHops, maxBytes), steps);
      |LiveHops(s)| <= s.maxHops
  {
    var s := Run(Init(maxHops, maxBytes), steps);
    RunKeepsInv(Init(maxHops, maxBytes), steps);
    LiveHopsBounded(s.tasks, LiveHops(s));
  }

  lemma {:induction false} LiveHopsBounded(tasks: seq<Task>, live: set<nat>)
    requires forall t | t in live :: t < |tasks| && HopShare(tasks[t]) == 1
    ensures |live| <= Total(tasks, HopShare)
    decreases |tasks|
  {
    var n := |tasks| - 1;
    if tasks == [] {
      assert live == {};
    } else {
      LiveHopsBounded(tasks[..n], live - {n});
      if n in live { assert |live| == |live - {n}| + 1; } else { assert live - {n} == live; }
    }
  }
}
