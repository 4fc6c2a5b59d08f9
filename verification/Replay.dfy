/**
 Recorded order for host completions (byteflow/src/scheduler/deterministic.rs):
 a queue that delivers by recorded sequence number, and a gate that matches
 tickets with sequences whichever arrives first.
 */
module Replay {
  import opened Common
  import opened Values

  datatype ReplayError = SequenceExhausted | DuplicateSequence | StaleSequence

  datatype Hop = Hop(flow: U64, value: Value)

  // ----------------------------------------------------------------- the queue

  datatype Queue = Queue(next: U64, pending: map<U64, Hop>)

  function Validate(q: Queue, sequence: U64): (e: Option<ReplayError>) {
    if sequence == U64_MAX then Some(SequenceExhausted)
    else if sequence < q.next then Some(StaleSequence)
    else if sequence in q.pending then Some(DuplicateSequence)
    else None
  }

  // `pop_next`: only the next expected event; the last number is never passed.
  function PopNext(q: Queue): (r: Option<(Queue, Hop)>) {
    if q.next !in q.pending || q.next == U64_MAX then None
    else Some((Queue(q.next + 1, q.pending - {q.next}), q.pending[q.next]))
  }

  function Drain(q: Queue): (r: (Queue, seq<Hop>))
    decreases |q.pending|
  {
    match PopNext(q)
    case None => (q, [])
    case Some((rest, hop)) =>
      assert q.pending.Keys == rest.pending.Keys + {q.next};
      var (end, hops) := Drain(rest);
      (end, [hop] + hops)
  }

  class ReplayQueue {
    var nextSequence: U64
    var pending: map<U64, Hop>

    ghost function State(): Queue
      reads this
    {
      Queue(nextSequence, pending)
    }

    constructor ()
      ensures State() == Queue(0, map[])
    {
      nextSequence, pending := 0, map[];
    }

    method Check(sequence: U64) returns (e: Option<ReplayError>)
      ensures e == Validate(State(), sequence)
    {
      e := Validate(Queue(nextSequence, pending), sequence);
    }

    method Insert(sequence: U64, hop: Hop) returns (e: Option<ReplayError>)
      modifies this
      ensures e == Validate(old(State()), sequence)
      ensures State() == if e.None? then Queue(old(nextSequence), old(pending)[sequence := hop]) else old(State())
    {
      e := Check(sequence);
      if e.None? { pending := pending[sequence := hop]; }
    }

    method Pop() returns (r: Option<Hop>)
      modifies this
      ensures match PopNext(old(State()))
        case None => r.None? && State() == old(State())
        case Some((rest, hop)) => r == Some(hop) && State() == rest
    {
      if nextSequence !in pending { return None; }
      var hop := pending[nextSequence];
      pending := pending - {nextSequence};
      if nextSequence == U64_MAX {
        pending := pending[nextSequence := hop];
        assert pending == old(pending);
        return None;
      }
      nextSequence := nextSequence + 1;
      return Some(hop);
    }
  }

  // ------------------------------------------------------------------ the gate

  datatype Gate = Gate(queue: Queue, sequences: map<U64, U64>, waiting: map<U64, Hop>)

  function BindTicket(g: Gate, ticket: U64, sequence: U64): (r: (Gate, Option<ReplayError>)) {
    if ticket in g.sequences || sequence in g.sequences.Values then (g, Some(DuplicateSequence))
    else if Validate(g.queue, sequence).Some? then (g, Validate(g.queue, sequence))
    else
      var bound := g.(sequences := g.sequences[ticket := sequence]);
      if ticket !in g.waiting then (bound, None)
      else
        (bound.(waiting := g.waiting - {ticket},
                queue := g.queue.(pending := g.queue.pending[sequence := g.waiting[ticket]])), None)
  }

  function StageHop(g: Gate, ticket: U64, hop: Hop): (r: (Gate, Option<ReplayError>)) {
    if ticket !in g.sequences then (g.(waiting := g.waiting[ticket := hop]), None)
    else
      var sequence := g.sequences[ticket];
      if Validate(g.queue, sequence).Some? then (g, Validate(g.queue, sequence))
      else (g.(queue := g.queue.(pending := g.queue.pending[sequence := hop])), None)
  }

  class HostReplayGate {
    const queue: ReplayQueue
    var sequences: map<U64, U64>
    var waiting: map<U64, Hop>

    ghost function State(): Gate
      reads this, queue
    {
      Gate(queue.State(), sequences, waiting)
    }

    constructor ()
      ensures State() == Gate(Queue(0, map[]), map[], map[]) && fresh(queue)
    {
      queue := new ReplayQueue();
      sequences, waiting := map[], map[];
    }

    method Bind(ticket: U64, sequence: U64) returns (e: Option<ReplayError>)
      modifies this, queue
      ensures (State(), e) == BindTicket(old(State()), ticket, sequence)
    {
      if ticket in sequences || sequence in sequences.Values { return Some(DuplicateSequence); }
      e := queue.Check(sequence);
      if e.Some? { return; }
      if ticket in waiting {
        e := queue.Insert(sequence, waiting[ticket]);
        waiting := waiting - {ticket};
      }
      sequences := sequences[ticket := sequence];
    }

    method Stage(ticket: U64, hop: Hop) returns (e: Option<ReplayError>)
      modifies this, queue
      ensures (State(), e) == StageHop(old(State()), ticket, hop)
    {
      if ticket in sequences {
        e := queue.Check(sequences[ticket]);
        if e.Some? { return; }
        e := queue.Insert(sequences[ticket], hop);
      } else {
        waiting := waiting[ticket := hop];
        e := None;
      }
    }

    method DrainReady() returns (ready: seq<Hop>)
      modifies queue
      ensures ready == Drain(old(State()).queue).1
      ensures State() == old(State()).(queue := Drain(old(State()).queue).0)
    {
      ready := [];
      ghost var start := Drain(queue.State());
      while true
        invariant start.0 == Drain(queue.State()).0 && start.1 == ready + Drain(queue.State()).1
        decreases |queue.pending|
      {
        ghost var before := queue.State();
        var hop := queue.Pop();
        if hop.None? { break; }
        assert before.pending.Keys == queue.pending.Keys + {before.next};
        assert Drain(before).1 == [hop.value] + Drain(queue.State()).1;
        assert ready + Drain(before).1 == ready + [hop.value] + Drain(queue.State()).1;
        ready := ready + [hop.value];
      }
    }
  }

  // -------------------------------------------------------------- whole runs

  datatype Event = Bind(ticket: U64, sequence: U64) | Stage(ticket: U64, hop: Hop) | DrainAll

  // The gate, whether any call failed, everything drained so far, and the
  // record of what the calls said: which ticket owns each sequence, which hop
  // was staged for each ticket.
  datatype Run = Run(gate: Gate, failed: bool, drained: seq<Hop>, owner: map<U64, U64>, staged: map<U64, Hop>)

  function Start(): Run {
    Run(Gate(Queue(0, map[]), map[], map[]), false, [], map[], map[])
  }

  function Next(r: Run, e: Event): (s: Run) {
    match e
    case Bind(ticket, sequence) =>
      var (gate, error) := BindTicket(r.gate, ticket, sequence);
      r.(gate := gate, failed := r.failed || error.Some?, owner := r.owner[sequence := ticket])
    case Stage(ticket, hop) =>
      var (gate, error) := StageHop(r.gate, ticket, hop);
      r.(gate := gate, failed := r.failed || error.Some?, staged := r.staged[ticket := hop])
    case DrainAll =>
      var (queue, hops) := Drain(r.gate.queue);
      r.(gate := r.gate.(queue := queue), drained := r.drained + hops)
  }

  function RunAll(r: Run, events: seq<Event>): (s: Run)
    decreases |events|
  {
    if events == [] then r else RunAll(Next(r, events[0]), events[1..])
  }

  // One binding per ticket and per sequence, below the last number, and one
  // hop per ticket: in any order, with drains anywhere.
  predicate Scripted(events: seq<Event>) {
    && (forall i | 0 <= i < |events| && events[i].Bind? :: events[i].sequence < U64_MAX)
    && (forall i, j | 0 <= i < j < |events| && events[i].Bind? && events[j].Bind? ::
          events[i].ticket != events[j].ticket && events[i].sequence != events[j].sequence)
    && (forall i, j | 0 <= i < j < |events| && events[i].Stage? && events[j].Stage? ::
          events[i].ticket != events[j].ticket)
  }

  // An event the script still allows after what was recorded.
  predicate Allowed(r: Run, e: Event) {
    match e
    case Bind(ticket, sequence) => sequence < U64_MAX && sequence !in r.owner && ticket !in r.gate.sequences
    case Stage(ticket, _) => ticket !in r.staged
    case DrainAll => true
  }

  // A sequence whose ticket has its hop.
  predicate Matched(r: Run, sequence: U64) {
    sequence in r.owner && r.owner[sequence] in r.staged
  }

  // Tickets and sequences are matched one to one.
  ghost predicate OwnersOk(r: Run) {
    && (forall t | t in r.gate.sequences :: r.gate.sequences[t] in r.owner && r.owner[r.gate.sequences[t]] == t)
    && (forall s | s in r.owner :: s < U64_MAX && r.owner[s] in r.gate.sequences && r.gate.sequences[r.owner[s]] == s)
  }

  // A sequence is delivered in its place, or pending exactly once it is matched.
  ghost predicate SequenceOk(r: Run, s: U64) {
    if s < |r.drained| then Matched(r, s) && r.drained[s] == r.staged[r.owner[s]]
    else
      && (s in r.gate.queue.pending <==> Matched(r, s))
      && (Matched(r, s) ==> r.gate.queue.pending[s] == r.staged[r.owner[s]])
  }

  // A delivered sequence is no longer pending.
  ghost predicate Retired(r: Run, s: U64) {
    s < |r.drained| ==> s !in r.gate.queue.pending
  }

  // A hop waits exactly while its ticket has no sequence.
  ghost predicate TicketOk(r: Run, t: U64) {
    && (t in r.gate.waiting <==> t in r.staged && t !in r.gate.sequences)
    && (t in r.gate.waiting ==> r.gate.waiting[t] == r.staged[t])
  }

  ghost predicate Inv(r: Run) {
    && !r.failed
    && r.gate.queue.next == |r.drained|
    && OwnersOk(r)
    && (forall s: U64 :: SequenceOk(r, s))
    && (forall s: U64 :: Retired(r, s))
    && (forall t: U64 :: TicketOk(r, t))
  }

  // A call that the script allows does not fail.
  lemma {:induction false} AllowedBindSucceeds(r: Run, ticket: U64, sequence: U64)
    requires Inv(r) && Allowed(r, Bind(ticket, sequence))
    ensures BindTicket(r.gate, ticket, sequence).1.None?
  {
    assert SequenceOk(r, sequence) && Retired(r, sequence);
    forall t | t in r.gate.sequences ensures r.gate.sequences[t] != sequence { assert r.gate.sequences[t] in r.owner; }
  }

  lemma {:induction false} BindKeepsInv(r: Run, ticket: U64, sequence: U64)
    requires Inv(r) && Allowed(r, Bind(ticket, sequence))
    ensures Inv(Next(r, Bind(ticket, sequence)))
  {
    AllowedBindSucceeds(r, ticket, sequence);
    var n := Next(r, Bind(ticket, sequence));
    forall s: U64 ensures SequenceOk(n, s) && Retired(n, s) {
      assert SequenceOk(r, s) && Retired(r, s) && TicketOk(r, ticket);
    }
    forall t: U64 ensures TicketOk(n, t) { assert TicketOk(r, t); }
  }

  lemma {:induction false} AllowedStageSucceeds(r: Run, ticket: U64, hop: Hop)
    requires Inv(r) && Allowed(r, Stage(ticket, hop))
    ensures StageHop(r.gate, ticket, hop).1.None?
  {
    if ticket in r.gate.sequences {
      var sequence := r.gate.sequences[ticket];
      assert SequenceOk(r, sequence) && Retired(r, sequence);
    }
  }

  lemma {:induction false} StageKeepsInv(r: Run, ticket: U64, hop: Hop)
    requires Inv(r) && Allowed(r, Stage(ticket, hop))
    ensures Inv(Next(r, Stage(ticket, hop)))
  {
    AllowedStageSucceeds(r, ticket, hop);
    var n := Next(r, Stage(ticket, hop));
    forall s: U64 ensures SequenceOk(n, s) && Retired(n, s) { assert SequenceOk(r, s) && Retired(r, s); }
    forall t: U64 ensures TicketOk(n, t) { assert TicketOk(r, t); }
  }

  // One delivery.
  function Deliver(r: Run, queue: Queue, hop: Hop): Run {
    r.(gate := r.gate.(queue := queue), drained := r.drained + [hop])
  }

  lemma {:induction false} PopKeepsInv(r: Run)
    requires Inv(r) && PopNext(r.gate.queue).Some?
    ensures var (queue, hop) := PopNext(r.gate.queue).value; Inv(Deliver(r, queue, hop))
  {
    var (queue, hop) := PopNext(r.gate.queue).value;
    var n := Deliver(r, queue, hop);
    forall s: U64 ensures SequenceOk(n, s) && Retired(n, s) { assert SequenceOk(r, s) && Retired(r, s); }
    forall t: U64 ensures TicketOk(n, t) { assert TicketOk(r, t); }
  }

  lemma {:induction false} NothingToPop(r: Run)
    requires Inv(r) && PopNext(r.gate.queue).None?
    ensures !Matched(r, r.gate.queue.next)
  {
    assert SequenceOk(r, r.gate.queue.next);
  }

  // Draining delivers up to the first sequence without its hop.
  lemma {:induction false} DrainKeepsInv(r: Run)
    requires Inv(r)
    ensures var d := Next(r, DrainAll); Inv(d) && !Matched(d, d.gate.queue.next)
    decreases |r.gate.queue.pending|
  {
    var q := r.gate.queue;
    match PopNext(q)
    case None =>
      assert Next(r, DrainAll) == r;
      NothingToPop(r);
    case Some((rest, hop)) =>
      PopKeepsInv(r);
      assert q.pending.Keys == rest.pending.Keys + {q.next};
      DrainKeepsInv(Deliver(r, rest, hop));
      DrainAfterPop(r);
  }

  lemma {:induction false} DrainAfterPop(r: Run)
    requires PopNext(r.gate.queue).Some?
    ensures
      var (queue, hop) := PopNext(r.gate.queue).value;
      Next(Deliver(r, queue, hop), DrainAll) == Next(r, DrainAll)
  {
    var (queue, hop) := PopNext(r.gate.queue).value;
    assert r.drained + [hop] + Drain(queue).1 == r.drained + ([hop] + Drain(queue).1);
  }

  lemma {:induction false} StepKeepsInv(r: Run, e: Event)
    requires Inv(r) && Allowed(r, e)
    ensures Inv(Next(r, e))
  {
    match e
    case Bind(ticket, sequence) => BindKeepsInv(r, ticket, sequence);
    case Stage(ticket, hop) => StageKeepsInv(r, ticket, hop);
    case DrainAll => DrainKeepsInv(r);
  }

  // The record says which events happened.
  ghost predicate Recorded(r: Run, done: seq<Event>) {
    && (forall t, s :: Bind(t, s) in done <==> s in r.owner && r.owner[s] == t)
    && (forall t, h :: Stage(t, h) in done <==> t in r.staged && r.staged[t] == h)
  }

  // An event of the script that is recorded comes before the ones still to run.
  lemma {:induction false} RecordedBefore(r: Run, done: seq<Event>, rest: seq<Event>, e: Event)
    requires e in done && rest != [] && Scripted(done + rest)
    ensures e.Bind? && rest[0].Bind? ==> e.ticket != rest[0].ticket && e.sequence != rest[0].sequence
    ensures e.Stage? && rest[0].Stage? ==> e.ticket != rest[0].ticket
  {
    var all := done + rest;
    var i :| 0 <= i < |done| && done[i] == e;
    assert all[i] == e && all[|done|] == rest[0];
  }

  // A scripted event does not repeat what was recorded.
  lemma {:induction false} ScriptAllows(r: Run, done: seq<Event>, rest: seq<Event>)
    requires Inv(r) && Recorded(r, done) && rest != [] && Scripted(done + rest)
    ensures Allowed(r, rest[0])
  {
    assert (done + rest)[|done|] == rest[0];
    match rest[0]
    case Bind(ticket, sequence) =>
      if sequence in r.owner { RecordedBefore(r, done, rest, Bind(r.owner[sequence], sequence)); }
      if ticket in r.gate.sequences { RecordedBefore(r, done, rest, Bind(ticket, r.gate.sequences[ticket])); }
    case Stage(ticket, hop) =>
      if ticket in r.staged { RecordedBefore(r, done, rest, Stage(ticket, r.staged[ticket])); }
    case DrainAll =>
  }

  lemma {:induction false} RecordGrows(r: Run, done: seq<Event>, e: Event)
    requires Recorded(r, done) && Allowed(r, e)
    ensures Recorded(Next(r, e), done + [e])
  {
    var s := Next(r, e);
    forall t, q ensures Bind(t, q) in done + [e] <==> q in s.owner && s.owner[q] == t {
      assert Bind(t, q) in done + [e] <==> Bind(t, q) in done || Bind(t, q) == e;
    }
    forall t, h ensures Stage(t, h) in done + [e] <==> t in s.staged && s.staged[t] == h {
      assert Stage(t, h) in done + [e] <==> Stage(t, h) in done || Stage(t, h) == e;
    }
  }

  lemma {:induction false} RunScripted(r: Run, done: seq<Event>, rest: seq<Event>)
    requires Inv(r) && Recorded(r, done) && Scripted(done + rest)
    ensures Inv(RunAll(r, rest)) && Recorded(RunAll(r, rest), done + rest)
    decreases |rest|
  {
    if rest == [] {
      assert done + rest == done;
    } else {
      ScriptAllows(r, done, rest);
      StepKeepsInv(r, rest[0]);
      RecordGrows(r, done, rest[0]);
      assert done + [rest[0]] + rest[1..] == done + rest;
      RunScripted(Next(r, rest[0]), done + [rest[0]], rest[1..]);
    }
  }

  // ----------------------------------------------------------- arrival order

  // Some ticket was bound to the sequence and staged this hop.
  ghost predicate Due(events: seq<Event>, sequence: int, h: Hop) {
    0 <= sequence < U64_MAX && exists t :: Delivers(events, t, sequence, h)
  }

  ghost predicate Delivers(events: seq<Event>, t: U64, sequence: U64, h: Hop) {
    Bind(t, sequence) in events && Stage(t, h) in events
  }

  // `hops` is what the events determine, whatever their order: the hop of every
  // sequence from 0 up to the first one whose ticket or hop is missing.
  ghost predicate Delivery(events: seq<Event>, hops: seq<Hop>) {
    && (forall i | 0 <= i < |hops| :: Due(events, i, hops[i]))
    && (forall h :: !Due(events, |hops|, h))
  }

  lemma {:induction false} RunAllAppend(r: Run, events: seq<Event>, e: Event)
    ensures RunAll(r, events + [e]) == Next(RunAll(r, events), e)
    decreases |events|
  {
    if events == [] {
      assert RunAll(r, [e]) == RunAll(Next(r, e), []);
    } else {
      assert (events + [e])[1..] == events[1..] + [e];
      RunAllAppend(Next(r, events[0]), events[1..], e);
    }
  }

  // No call of a script fails, and a script that ends in a drain has delivered
  // exactly what its events determine.
  lemma {:induction false} ReplayDelivers(events: seq<Event>)
    requires Scripted(events)
    ensures
      var r := RunAll(Start(), events + [DrainAll]);
      !r.failed && Delivery(events, r.drained)
  {
    assert [] + events == events;
    RunScripted(Start(), [], events);
    RunAllAppend(Start(), events, DrainAll);
    DrainDelivers(RunAll(Start(), events), events);
  }

  lemma {:induction false} DrainDelivers(m: Run, events: seq<Event>)
    requires Inv(m) && Recorded(m, events)
    ensures !Next(m, DrainAll).failed && Delivery(events, Next(m, DrainAll).drained)
  {
    DrainKeepsInv(m);
    var r := Next(m, DrainAll);
    assert Recorded(r, events);
    forall i | 0 <= i < |r.drained| ensures Due(events, i, r.drained[i]) {
      assert SequenceOk(r, i);
      assert OwnersOk(r);
      assert Delivers(events, r.owner[i], i, r.drained[i]);
    }
    forall h ensures !Due(events, |r.drained|, h) {
      assert !Matched(r, |r.drained|);
    }
  }

  lemma {:induction false} DueOnce(events: seq<Event>, sequence: int, g: Hop, h: Hop)
    requires Scripted(events) && Due(events, sequence, g) && Due(events, sequence, h)
    ensures g == h
  {
    var t :| Delivers(events, t, sequence, g);
    var u :| Delivers(events, u, sequence, h);
    var i :| 0 <= i < |events| && events[i] == Bind(t, sequence);
    var j :| 0 <= j < |events| && events[j] == Bind(u, sequence);
    var k :| 0 <= k < |events| && events[k] == Stage(t, g);
    var l :| 0 <= l < |events| && events[l] == Stage(u, h);
  }

  lemma {:induction false} DeliveryIsUnique(events: seq<Event>, a: seq<Hop>, b: seq<Hop>)
    requires Scripted(events) && Delivery(events, a) && Delivery(events, b)
    ensures a == b
  {
    forall i | 0 <= i < |a| && i < |b| ensures a[i] == b[i] { DueOnce(events, i, a[i], b[i]); }
    if |a| < |b| { DueBefore(events, b, |a|); }
    if |b| < |a| { DueBefore(events, a, |b|); }
  }

  lemma {:induction false} DueBefore(events: seq<Event>, hops: seq<Hop>, k: nat)
    requires Delivery(events, hops) && k < |hops|
    ensures Due(events, k, hops[k])
  {
  }

  // Replay does not depend on arrival order: two scripts with the same bindings
  // and the same completions deliver the same hops in the same order, however
  // they interleave and wherever they drain.
  lemma {:induction false} ArrivalOrderDoesNotMatter(events: seq<Event>, others: seq<Event>)
    requires Scripted(events) && Scripted(others)
    requires forall e: Event :: !e.DrainAll? ==> (e in events <==> e in others)
    ensures RunAll(Start(), events + [DrainAll]).drained == RunAll(Start(), others + [DrainAll]).drained
  {
    ReplayDelivers(events);
    ReplayDelivers(others);
    var b := RunAll(Start(), others + [DrainAll]).drained;
    forall s, h ensures Due(events, s, h) <==> Due(others, s, h) {
      SameDue(events, others, s, h);
    }
    DeliveryIsUnique(events, RunAll(Start(), events + [DrainAll]).drained, b);
  }

  lemma {:induction false} SameDue(events: seq<Event>, others: seq<Event>, s: int, h: Hop)
    requires forall e: Event :: !e.DrainAll? ==> (e in events <==> e in others)
    ensures Due(events, s, h) <==> Due(others, s, h)
  {
    if 0 <= s < U64_MAX {
      forall t: U64 ensures Delivers(events, t, s, h) <==> Delivers(others, t, s, h) { }
    }
  }
}
