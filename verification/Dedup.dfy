/**
 The replay filter for remote frames (RemoteFrameDedup in
 byteflow/src/scheduler/distribution.rs): a window of keys reserved before a
 delivery, accepted after it, or rolled back.

 A slot also records the serial number of the reservation that made it. No
 operation reads it; it is what the properties of whole runs speak about.
 */
module Dedup {
  import opened Common

  datatype Key = Key(sender: U64, requestId: U64)
  datatype DedupState = Pending | Accepted
  datatype Slot = Slot(key: Key, state: DedupState, ticket: nat)
  datatype Outcome = Fresh(ticket: nat) | Duplicate | Wait

  // ------------------------------------------------------------ one operation

  function Find(queue: seq<Slot>, key: Key): (i: Option<nat>)
    ensures i.None? ==> forall k | 0 <= k < |queue| :: queue[k].key != key
    ensures i.Some? ==> i.value < |queue| && queue[i.value].key == key
    ensures i.Some? ==> forall k | 0 <= k < i.value :: queue[k].key != key
  {
    if queue == [] then None
    else
      var n := |queue| - 1;
      var i := Find(queue[..n], key);
      if i.Some? then i else if queue[n].key == key then Some(n) else None
  }

  // How many entries `evict_accepted` pops from the front.
  function Evictable(queue: seq<Slot>, capacity: nat): (n: nat)
    ensures n <= |queue|
  {
    if |queue| > capacity && queue[0].state == Accepted then 1 + Evictable(queue[1..], capacity) else 0
  }

  function Evict(queue: seq<Slot>, capacity: nat): seq<Slot> {
    queue[Evictable(queue, capacity)..]
  }

  // Only accepted entries leave, only from the front, never below capacity;
  // what is left over capacity starts with a pending entry.
  lemma {:induction false} EvictStopsAtPending(queue: seq<Slot>, capacity: nat)
    ensures
      var n := Evictable(queue, capacity);
      && (forall i | 0 <= i < n :: queue[i].state == Accepted)
      && (n > 0 ==> |queue| - n >= capacity)
      && (|queue| - n > capacity ==> queue[n].state == Pending)
  {
    if |queue| > capacity && queue[0].state == Accepted {
      EvictStopsAtPending(queue[1..], capacity);
      var n := Evictable(queue, capacity);
      assert forall i | 0 < i < n :: queue[i] == queue[1..][i - 1];
    }
  }

  // One pass of `reserve` under the lock.
  function Reserve(queue: seq<Slot>, key: Key, capacity: nat, ticket: nat): (r: (seq<Slot>, Outcome)) {
    match Find(queue, key)
    case Some(i) => (queue, if queue[i].state == Accepted then Duplicate else Wait)
    case None => (Evict(queue + [Slot(key, Pending, ticket)], capacity), Fresh(ticket))
  }

  function Accept(queue: seq<Slot>, key: Key): (r: seq<Slot>)
    ensures |r| == |queue|
  {
    match Find(queue, key)
    case Some(i) => queue[i := queue[i].(state := Accepted)]
    case None => queue
  }

  function Commit(queue: seq<Slot>, key: Key, capacity: nat): (r: seq<Slot>) {
    Evict(Accept(queue, key), capacity)
  }

  // `rollback`: keep everything but the pending entries of the key.
  function Rollback(queue: seq<Slot>, key: Key): (r: seq<Slot>) {
    if queue == [] then []
    else
      var n := |queue| - 1;
      var kept := Rollback(queue[..n], key);
      if queue[n].key == key && queue[n].state == Pending then kept else kept + [queue[n]]
  }

  function Without(queue: seq<Slot>, i: nat): seq<Slot>
    requires i < |queue|
  {
    queue[..i] + queue[i + 1..]
  }

  lemma {:induction false} WithoutFromInit(queue: seq<Slot>, i: nat)
    requires i < |queue| - 1
    ensures Without(queue, i) == Without(queue[..|queue| - 1], i) + [queue[|queue| - 1]]
  {
    var n := |queue| - 1;
    assert queue[i + 1..] == queue[..n][i + 1..] + [queue[n]];
    assert queue[..n][..i] == queue[..i];
  }

  // With distinct keys, a rollback of a pending key removes exactly its slot.
  lemma {:induction false} RollbackRemovesOne(queue: seq<Slot>, i: nat)
    requires DistinctKeys(queue) && i < |queue| && queue[i].state == Pending
    ensures Rollback(queue, queue[i].key) == Without(queue, i)
  {
    var n := |queue| - 1;
    if i == n {
      RollbackOfAbsent(queue[..n], queue[i].key);
      assert Without(queue, i) == queue[..n];
    } else {
      RollbackRemovesOne(queue[..n], i);
      WithoutFromInit(queue, i);
    }
  }

  lemma {:induction false} RollbackOfAbsent(queue: seq<Slot>, key: Key)
    requires forall k | 0 <= k < |queue| :: queue[k].key != key
    ensures Rollback(queue, key) == queue
  {
    if queue != [] {
      RollbackOfAbsent(queue[..|queue| - 1], key);
      assert queue == queue[..|queue| - 1] + [queue[|queue| - 1]];
    }
  }

  // --------------------------------------------------------------- the object

  class RemoteFrameDedup {
    const capacity: nat
    var seen: seq<Slot>
    var issued: nat

    constructor (capacity: nat)
      ensures this.capacity == if capacity > 1 then capacity else 1
      ensures seen == [] && issued == 0
    {
      this.capacity := if capacity > 1 then capacity else 1;
      seen, issued := [], 0;
    }

    // One pass of the loop in `reserve`; `Wait` is where it blocks.
    method TryReserve(key: Key) returns (r: Outcome)
      modifies this
      ensures (seen, r) == Reserve(old(seen), key, capacity, old(issued))
      ensures issued == old(issued) + if r.Fresh? then 1 else 0
    {
      var at := Position(key);
      if at.Some? {
        if seen[at.value].state == Accepted { return Duplicate; }
        return Wait;
      }
      r := Fresh(issued);
      seen := seen + [Slot(key, Pending, issued)];
      issued := issued + 1;
      EvictAccepted();
    }

    method CommitKey(key: Key)
      modifies this
      ensures seen == Commit(old(seen), key, capacity) && issued == old(issued)
    {
      var at := Position(key);
      if at.Some? { seen := seen[at.value := seen[at.value].(state := Accepted)]; }
      EvictAccepted();
    }

    method RollbackKey(key: Key)
      modifies this
      ensures seen == Rollback(old(seen), key) && issued == old(issued)
    {
      var kept: seq<Slot> := [];
      for k := 0 to |seen|
        invariant seen == old(seen) && issued == old(issued)
        invariant kept == Rollback(seen[..k], key)
      {
        assert seen[..k + 1][..k] == seen[..k];
        if !(seen[k].key == key && seen[k].state == Pending) { kept := kept + [seen[k]]; }
      }
      assert seen[..|seen|] == seen;
      seen := kept;
    }

    method Position(key: Key) returns (i: Option<nat>)
      ensures i == Find(seen, key)
    {
      for k := 0 to |seen|
        invariant forall j | 0 <= j < k :: seen[j].key != key
      {
        if seen[k].key == key { return Some(k); }
      }
      return None;
    }

    method EvictAccepted()
      modifies this`seen
      ensures seen == Evict(old(seen), capacity)
    {
      ghost var n := 0;
      while |seen| > capacity && seen[0].state == Accepted
        invariant n <= |old(seen)| && seen == old(seen)[n..]
        invariant Evictable(old(seen), capacity) == n + Evictable(seen, capacity)
        decreases |seen|
      {
        seen := seen[1..];
        n := n + 1;
      }
    }
  }

  // -------------------------------------------------------------- whole runs

  // The window, and what became of every ticket issued so far. `keys[t]` is
  // the key ticket `t` was issued for.
  datatype State = State(
    capacity: nat, queue: seq<Slot>, keys: seq<Key>,
    open: set<nat>, rolledBack: set<nat>, evicted: set<nat>)

  // Any caller may reserve; a ticket is closed by its owner, once.
  datatype Event = DoReserve(key: Key) | DoCommit(ticket: nat) | DoRollback(ticket: nat)

  function Init(capacity: nat): State {
    State(if capacity > 1 then capacity else 1, [], [], {}, {}, {})
  }

  function Tickets(queue: seq<Slot>): set<nat> {
    set i | 0 <= i < |queue| :: queue[i].ticket
  }

  predicate Enabled(s: State, e: Event) {
    match e
    case DoReserve(_) => true
    case DoCommit(t) => t in s.open && t < |s.keys|
    case DoRollback(t) => t in s.open && t < |s.keys|
  }

  function Next(s: State, e: Event): (r: State)
    requires Enabled(s, e)
  {
    match e
    case DoReserve(key) =>
      var (queue, outcome) := Reserve(s.queue, key, s.capacity, |s.keys|);
      if !outcome.Fresh? then s
      else
        var before := s.queue + [Slot(key, Pending, |s.keys|)];
        s.(queue := queue, keys := s.keys + [key], open := s.open + {|s.keys|},
           evicted := s.evicted + (Tickets(before) - Tickets(queue)))
    case DoCommit(t) =>
      var queue := Commit(s.queue, s.keys[t], s.capacity);
      s.(queue := queue, open := s.open - {t}, evicted := s.evicted + (Tickets(s.queue) - Tickets(queue)))
    case DoRollback(t) =>
      s.(queue := Rollback(s.queue, s.keys[t]), open := s.open - {t}, rolledBack := s.rolledBack + {t})
  }

  predicate Runs(s: State, events: seq<Event>)
    decreases |events|
  {
    events == [] || (Enabled(s, events[0]) && Runs(Next(s, events[0]), events[1..]))
  }

  function Run(s: State, events: seq<Event>): (r: State)
    requires Runs(s, events)
    decreases |events|
  {
    if events == [] then s else Run(Next(s, events[0]), events[1..])
  }

  ghost predicate DistinctKeys(queue: seq<Slot>) {
    forall i, j | 0 <= i < j < |queue| :: queue[i].key != queue[j].key
  }

  // The queue is in order of reservation, and each slot carries its ticket's key.
  ghost predicate Ordered(queue: seq<Slot>, keys: seq<Key>) {
    && (forall i, j | 0 <= i < j < |queue| :: queue[i].ticket < queue[j].ticket)
    && (forall i | 0 <= i < |queue| :: queue[i].ticket < |keys| && queue[i].key == keys[queue[i].ticket])
  }

  function Below(n: nat): (r: set<nat>)
    ensures forall t: nat :: t in r <==> t < n
  {
    if n == 0 then {} else Below(n - 1) + {n - 1}
  }

  ghost predicate QueueOk(queue: seq<Slot>, keys: seq<Key>, open: set<nat>) {
    && DistinctKeys(queue)
    && Ordered(queue, keys)
    && (forall i | 0 <= i < |queue| :: queue[i].state == Pending <==> queue[i].ticket in open)
    && open <= Tickets(queue)
  }

  ghost predicate Partition(tickets: set<nat>, rolledBack: set<nat>, evicted: set<nat>, n: nat) {
    tickets + rolledBack + evicted == Below(n) && tickets !! rolledBack !! evicted
  }

  // Every ticket is in the queue, rolled back or evicted, and only one of them;
  // it is open exactly while its entry is pending.
  ghost predicate Inv(s: State) {
    && QueueOk(s.queue, s.keys, s.open)
    && Partition(Tickets(s.queue), s.rolledBack, s.evicted, |s.keys|)
  }

  // ---------------------------------------------------------------- one step

  lemma {:induction false} TicketsSuffix(queue: seq<Slot>, n: nat)
    requires n <= |queue|
    ensures Tickets(queue[n..]) <= Tickets(queue)
    ensures forall i | n <= i < |queue| :: queue[i].ticket in Tickets(queue[n..])
  {
    forall i | n <= i < |queue| ensures queue[i].ticket in Tickets(queue[n..]) {
      assert queue[n..][i - n] == queue[i];
    }
  }

  lemma {:induction false} PartitionMoves(
    tickets: set<nat>, fewer: set<nat>, rolledBack: set<nat>, evicted: set<nat>, n: nat)
    requires Partition(tickets, rolledBack, evicted, n) && fewer <= tickets
    ensures Partition(fewer, rolledBack, evicted + (tickets - fewer), n)
    ensures Partition(fewer, rolledBack + (tickets - fewer), evicted, n)
  {
  }

  // Dropping accepted entries from the front keeps the window well formed.
  lemma {:induction false} SuffixKeepsQueue(queue: seq<Slot>, keys: seq<Key>, open: set<nat>, n: nat)
    requires QueueOk(queue, keys, open) && n <= |queue|
    requires forall i | 0 <= i < n :: queue[i].state == Accepted
    ensures QueueOk(queue[n..], keys, open)
  {
    TicketsSuffix(queue, n);
    forall t | t in open ensures t in Tickets(queue[n..]) {
      assert t in Tickets(queue);
    }
  }

  lemma {:induction false} EvictKeepsInv(s: State, queue: seq<Slot>)
    requires Inv(s) && queue == Evict(s.queue, s.capacity)
    ensures Inv(s.(queue := queue, evicted := s.evicted + (Tickets(s.queue) - Tickets(queue))))
  {
    EvictStopsAtPending(s.queue, s.capacity);
    SuffixKeepsQueue(s.queue, s.keys, s.open, Evictable(s.queue, s.capacity));
    TicketsSuffix(s.queue, Evictable(s.queue, s.capacity));
    PartitionMoves(Tickets(s.queue), Tickets(queue), s.rolledBack, s.evicted, |s.keys|);
  }

  lemma {:induction false} PushKeepsInv(s: State, key: Key)
    requires Inv(s) && Find(s.queue, key).None?
    ensures
      var t := |s.keys|;
      Inv(s.(queue := s.queue + [Slot(key, Pending, t)], keys := s.keys + [key], open := s.open + {t}))
  {
    var t := |s.keys|;
    TicketsPush(s.queue, Slot(key, Pending, t));
    PartitionGrows(Tickets(s.queue), s.rolledBack, s.evicted, t);
    PushKeepsQueue(s.queue, s.keys, s.open, key);
  }

  lemma {:induction false} PartitionGrows(tickets: set<nat>, rolledBack: set<nat>, evicted: set<nat>, n: nat)
    requires Partition(tickets, rolledBack, evicted, n)
    ensures Partition(tickets + {n}, rolledBack, evicted, n + 1)
  {
    assert n !in tickets + rolledBack + evicted;
    assert Below(n + 1) == Below(n) + {n};
  }

  lemma {:induction false} PushKeepsQueue(queue: seq<Slot>, keys: seq<Key>, open: set<nat>, key: Key)
    requires QueueOk(queue, keys, open) && Find(queue, key).None?
    ensures QueueOk(queue + [Slot(key, Pending, |keys|)], keys + [key], open + {|keys|})
  {
    TicketsPush(queue, Slot(key, Pending, |keys|));
  }

  lemma {:induction false} TicketsPush(queue: seq<Slot>, slot: Slot)
    ensures Tickets(queue + [slot]) == Tickets(queue) + {slot.ticket}
  {
    var q := queue + [slot];
    assert q[|queue|] == slot;
    forall t | t in Tickets(queue) ensures t in Tickets(q) {
      var i :| 0 <= i < |queue| && queue[i].ticket == t;
      assert q[i] == queue[i];
    }
  }

  // An open ticket's entry is where its key is found.
  lemma {:induction false} OpenIsFound(s: State, t: nat)
    requires Inv(s) && t in s.open && t < |s.keys|
    ensures
      var i := Find(s.queue, s.keys[t]);
      i.Some? && s.queue[i.value].ticket == t && s.queue[i.value].state == Pending
  {
    assert t in Tickets(s.queue);
    var k :| 0 <= k < |s.queue| && s.queue[k].ticket == t;
    assert s.queue[k].key == s.keys[t];
  }

  lemma {:induction false} AcceptKeepsInv(s: State, t: nat)
    requires Inv(s) && t in s.open && t < |s.keys|
    ensures
      var queue := Accept(s.queue, s.keys[t]);
      Tickets(queue) == Tickets(s.queue) && Inv(s.(queue := queue, open := s.open - {t}))
  {
    OpenIsFound(s, t);
    var queue := Accept(s.queue, s.keys[t]);
    assert forall k | 0 <= k < |queue| :: queue[k].ticket == s.queue[k].ticket && queue[k].key == s.queue[k].key;
    assert Tickets(queue) == Tickets(s.queue);
  }

  lemma {:induction false} TicketsRemove(queue: seq<Slot>, keys: seq<Key>, i: nat)
    requires Ordered(queue, keys) && i < |queue|
    ensures Tickets(Without(queue, i)) == Tickets(queue) - {queue[i].ticket}
  {
    var q := Without(queue, i);
    assert forall k | 0 <= k < |q| :: q[k] == queue[if k < i then k else k + 1];
    forall t | t in Tickets(queue) && t != queue[i].ticket ensures t in Tickets(q) {
      var k :| 0 <= k < |queue| && queue[k].ticket == t;
      assert q[if k < i then k else k - 1] == queue[k];
    }
  }

  lemma {:induction false} RemoveKeepsQueue(queue: seq<Slot>, keys: seq<Key>, open: set<nat>, i: nat)
    requires QueueOk(queue, keys, open) && i < |queue|
    ensures QueueOk(Without(queue, i), keys, open - {queue[i].ticket})
  {
    var q := Without(queue, i);
    assert forall k | 0 <= k < |q| :: q[k] == queue[if k < i then k else k + 1];
    TicketsRemove(queue, keys, i);
  }

  lemma {:induction false} RollbackKeepsInv(s: State, t: nat)
    requires Inv(s) && t in s.open && t < |s.keys|
    ensures Inv(Next(s, DoRollback(t)))
  {
    OpenIsFound(s, t);
    var i := Find(s.queue, s.keys[t]).value;
    RollbackRemovesOne(s.queue, i);
    TicketsRemove(s.queue, s.keys, i);
    RemoveKeepsQueue(s.queue, s.keys, s.open, i);
    var fewer := Tickets(s.queue) - {t};
    PartitionMoves(Tickets(s.queue), fewer, s.rolledBack, s.evicted, |s.keys|);
    assert t in Tickets(s.queue) && Tickets(s.queue) - fewer == {t};
  }

  lemma {:induction false} StepKeepsInv(s: State, e: Event)
    requires Inv(s) && Enabled(s, e)
    ensures Inv(Next(s, e))
  {
    match e
    case DoReserve(key) =>
      if Find(s.queue, key).None? {
        var t := |s.keys|;
        var mid := s.(queue := s.queue + [Slot(key, Pending, t)], keys := s.keys + [key], open := s.open + {t});
        PushKeepsInv(s, key);
        EvictKeepsInv(mid, Evict(mid.queue, s.capacity));
      }
    case DoCommit(t) =>
      AcceptKeepsInv(s, t);
      var mid := s.(queue := Accept(s.queue, s.keys[t]), open := s.open - {t});
      EvictKeepsInv(mid, Evict(mid.queue, s.capacity));
    case DoRollback(t) => RollbackKeepsInv(s, t);
  }

  // --------------------------------------------------------------- all runs

  lemma {:induction false} RunKeepsInv(s: State, events: seq<Event>)
    requires Inv(s) && Runs(s, events)
    ensures Inv(Run(s, events))
    decreases |events|
  {
    if events != [] {
      StepKeepsInv(s, events[0]);
      RunKeepsInv(Next(s, events[0]), events[1..]);
    }
  }

  // In every reachable window a key has at most one entry, and the pending
  // entries are exactly the open tickets.
  lemma {:induction false} WindowMatchesTickets(capacity: nat, events: seq<Event>)
    requires Runs(Init(capacity), events)
    ensures
      var s := Run(Init(capacity), events);
      && DistinctKeys(s.queue)
      && (forall i | 0 <= i < |s.queue| :: s.queue[i].state == Pending <==> s.queue[i].ticket in s.open)
      && (forall t | t in s.open :: exists i | 0 <= i < |s.queue| :: s.queue[i].ticket == t)
      && s.open !! s.evicted
  {
    RunKeepsInv(Init(capacity), events);
    var s := Run(Init(capacity), events);
    assert s.open <= Tickets(s.queue);
  }

  // A key is issued again only after every earlier ticket for it was rolled
  // back, or was committed and then evicted.
  lemma {:induction false} FreshOnlyAfterClose(capacity: nat, events: seq<Event>, key: Key)
    requires Runs(Init(capacity), events)
    ensures
      var s := Run(Init(capacity), events);
      Reserve(s.queue, key, s.capacity, |s.keys|).1.Fresh? <==> AllClosed(s, key)
  {
    RunKeepsInv(Init(capacity), events);
    AbsentIffClosed(Run(Init(capacity), events), key);
  }

  ghost predicate AllClosed(s: State, key: Key) {
    forall t | 0 <= t < |s.keys| && s.keys[t] == key :: t in s.rolledBack || t in s.evicted
  }

  lemma {:induction false} AbsentIffClosed(s: State, key: Key)
    requires Inv(s)
    ensures Find(s.queue, key).None? <==> AllClosed(s, key)
  {
    match Find(s.queue, key)
    case Some(i) => assert s.queue[i].ticket in Tickets(s.queue);
    case None =>
      forall t | 0 <= t < |s.keys| && s.keys[t] == key ensures t in s.rolledBack || t in s.evicted {
        assert t in Below(|s.keys|);
      }
  }

  // A ticket is evicted only when at least `capacity` younger reservations are
  // left in the window.
  lemma {:induction false} EvictedBehindCapacity(s: State, e: Event, t: nat)
    requires Inv(s) && Enabled(s, e)
    requires t in Next(s, e).evicted && t !in s.evicted
    ensures
      var r := Next(s, e);
      |r.queue| >= s.capacity && forall i | 0 <= i < |r.queue| :: t < r.queue[i].ticket
  {
    match e
    case DoRollback(_) =>
    case DoReserve(key) =>
      var before := s.queue + [Slot(key, Pending, |s.keys|)];
      assert Ordered(before, s.keys + [key]) by { PushKeepsQueue(s.queue, s.keys, s.open, key); }
      EvictLeavesYounger(before, s.keys + [key], s.capacity, t);
    case DoCommit(c) =>
      var before := Accept(s.queue, s.keys[c]);
      assert Ordered(before, s.keys) && Tickets(before) == Tickets(s.queue) by { AcceptKeepsInv(s, c); }
      EvictLeavesYounger(before, s.keys, s.capacity, t);
  }

  // An evicted ticket had been committed: it is neither open nor rolled back.
  lemma {:induction false} EvictedWasCommitted(capacity: nat, events: seq<Event>)
    requires Runs(Init(capacity), events)
    ensures
      var s := Run(Init(capacity), events);
      s.evicted !! s.open && s.evicted !! s.rolledBack && s.open !! s.rolledBack
  {
    RunKeepsInv(Init(capacity), events);
  }

  lemma {:induction false} EvictLeavesYounger(queue: seq<Slot>, keys: seq<Key>, capacity: nat, t: nat)
    requires Ordered(queue, keys) && t in Tickets(queue) - Tickets(Evict(queue, capacity))
    ensures |Evict(queue, capacity)| >= capacity
    ensures forall i | 0 <= i < |Evict(queue, capacity)| :: t < Evict(queue, capacity)[i].ticket
  {
    EvictStopsAtPending(queue, capacity);
    var n := Evictable(queue, capacity);
    var k :| 0 <= k < |queue| && queue[k].ticket == t;
    TicketsSuffix(queue, n);
  }

  // After a fresh reservation and after a commit, a window over capacity has a
  // pending entry in front.
  lemma {:induction false} OverCapacityMeansPendingFront(s: State, e: Event)
    requires Enabled(s, e) && !e.DoRollback?
    requires e.DoReserve? ==> Find(s.queue, e.key).None?
    ensures
      var r := Next(s, e);
      |r.queue| > s.capacity ==> r.queue[0].state == Pending
  {
    match e
    case DoReserve(key) => EvictStopsAtPending(s.queue + [Slot(key, Pending, |s.keys|)], s.capacity);
    case DoCommit(t) => EvictStopsAtPending(Accept(s.queue, s.keys[t]), s.capacity);
  }

  // Over capacity although the oldest entry could go.
  predicate AcceptedFront(s: State) {
    |s.queue| > s.capacity && s.queue[0].state == Accepted
  }

  // A rollback does not evict. Over all reachable windows, it leaves one over
  // capacity with an accepted entry in front exactly when there are at least two
  // entries too many and the entry that is then in front is accepted. If the
  // window was not already like that, the rollback took the entry in front.
  lemma {:induction false} RollbackLeavesAcceptedFront(capacity: nat, events: seq<Event>, t: nat)
    requires Runs(Init(capacity), events) && Enabled(Run(Init(capacity), events), DoRollback(t))
    ensures
      var s := Run(Init(capacity), events);
      && s.queue != []
      && (AcceptedFront(Next(s, DoRollback(t))) <==>
            |s.queue| > s.capacity + 1 && s.queue[if s.queue[0].ticket == t then 1 else 0].state == Accepted)
      && (!AcceptedFront(s) ==>
            (AcceptedFront(Next(s, DoRollback(t))) <==>
               s.queue[0].ticket == t && |s.queue| > s.capacity + 1 && s.queue[1].state == Accepted))
  {
    RunKeepsInv(Init(capacity), events);
    CapacityIsFixed(Init(capacity), events);
    RollbackFront(Run(Init(capacity), events), t);
  }

  lemma {:induction false} CapacityIsFixed(s: State, events: seq<Event>)
    requires Runs(s, events)
    ensures Run(s, events).capacity == s.capacity
    decreases |events|
  {
    if events != [] { CapacityIsFixed(Next(s, events[0]), events[1..]); }
  }

  lemma {:induction false} RollbackFront(s: State, t: nat)
    requires Inv(s) && Enabled(s, DoRollback(t)) && s.capacity > 0
    ensures s.queue != []
    ensures AcceptedFront(Next(s, DoRollback(t))) <==>
      |s.queue| > s.capacity + 1 && s.queue[if s.queue[0].ticket == t then 1 else 0].state == Accepted
  {
    OpenIsFound(s, t);
    var i := Find(s.queue, s.keys[t]).value;
    RollbackRemovesOne(s.queue, i);
    assert i == 0 <==> s.queue[0].ticket == t;
  }

  // Three reservations and two commits around the oldest, then its rollback:
  // a window for one holds two accepted entries.
  lemma {:induction false} RollbackMayLeaveAcceptedFront(a: Key, b: Key, c: Key)
    requires a != b && b != c && a != c
    ensures
      var events := [DoReserve(a), DoReserve(b), DoReserve(c), DoCommit(1), DoCommit(2), DoRollback(0)];
      && Runs(Init(1), events)
      && Run(Init(1), events).queue == [Slot(b, Accepted, 1), Slot(c, Accepted, 2)]
      && AcceptedFront(Run(Init(1), events))
  {
    var s := ThreeReserved(a, b, c);
    var r := TwoCommitted(s, a, b, c);
    OldestRolledBack(r, a, b, c);
    RunInThree(Init(1), [DoReserve(a), DoReserve(b), DoReserve(c)], [DoCommit(1), DoCommit(2)], [DoRollback(0)]);
    assert [DoReserve(a), DoReserve(b), DoReserve(c)] + [DoCommit(1), DoCommit(2)] + [DoRollback(0)]
      == [DoReserve(a), DoReserve(b), DoReserve(c), DoCommit(1), DoCommit(2), DoRollback(0)];
  }

  lemma {:induction false} OldestRolledBack(r: State, a: Key, b: Key, c: Key)
    requires a != b && b != c && a != c && r.capacity == 1 && r.keys == [a, b, c] && r.open == {0}
    requires r.queue == [Slot(a, Pending, 0), Slot(b, Accepted, 1), Slot(c, Accepted, 2)]
    ensures Runs(r, [DoRollback(0)])
    ensures
      var after := Run(r, [DoRollback(0)]);
      after.queue == [Slot(b, Accepted, 1), Slot(c, Accepted, 2)] && AcceptedFront(after)
  {
    assert DistinctKeys(r.queue);
    RollbackRemovesOne(r.queue, 0);
  }

  lemma {:induction false} RunInThree(s: State, first: seq<Event>, second: seq<Event>, third: seq<Event>)
    requires Runs(s, first) && Runs(Run(s, first), second) && Runs(Run(Run(s, first), second), third)
    ensures Runs(s, first + second + third)
    ensures Run(s, first + second + third) == Run(Run(Run(s, first), second), third)
  {
    RunInTwo(s, first, second);
    RunInTwo(s, first + second, third);
  }

  lemma {:induction false} RunInTwo(s: State, first: seq<Event>, second: seq<Event>)
    requires Runs(s, first) && Runs(Run(s, first), second)
    ensures Runs(s, first + second) && Run(s, first + second) == Run(Run(s, first), second)
    decreases |first|
  {
    if first == [] {
      assert first + second == second;
    } else {
      assert (first + second)[1..] == first[1..] + second;
      RunInTwo(Next(s, first[0]), first[1..], second);
    }
  }

  lemma {:induction false} ThreeReserved(a: Key, b: Key, c: Key) returns (s: State)
    requires a != b && b != c && a != c
    ensures Runs(Init(1), [DoReserve(a), DoReserve(b), DoReserve(c)])
    ensures s == Run(Init(1), [DoReserve(a), DoReserve(b), DoReserve(c)])
    ensures s.capacity == 1 && s.keys == [a, b, c] && s.open == {0, 1, 2}
    ensures s.queue == [Slot(a, Pending, 0), Slot(b, Pending, 1), Slot(c, Pending, 2)]
  {
    var events := [DoReserve(a), DoReserve(b), DoReserve(c)];
    assert events[1..] == [DoReserve(b), DoReserve(c)] && events[1..][1..] == [DoReserve(c)];
    var s1 := Next(Init(1), DoReserve(a));
    assert s1.queue == [Slot(a, Pending, 0)];
    var s2 := Next(s1, DoReserve(b));
    assert s2.queue == [Slot(a, Pending, 0), Slot(b, Pending, 1)];
    s := Next(s2, DoReserve(c));
    assert Runs(s2, [DoReserve(c)]) && Run(s2, [DoReserve(c)]) == s;
    assert Runs(s1, [DoReserve(b), DoReserve(c)]) && Run(s1, [DoReserve(b), DoReserve(c)]) == s;
  }

  lemma {:induction false} TwoCommitted(s: State, a: Key, b: Key, c: Key) returns (r: State)
    requires a != b && b != c && a != c && s.capacity == 1 && s.keys == [a, b, c] && s.open == {0, 1, 2}
    requires s.queue == [Slot(a, Pending, 0), Slot(b, Pending, 1), Slot(c, Pending, 2)]
    ensures Runs(s, [DoCommit(1), DoCommit(2)]) && r == Run(s, [DoCommit(1), DoCommit(2)])
    ensures r.capacity == 1 && r.keys == [a, b, c] && r.open == {0}
    ensures r.queue == [Slot(a, Pending, 0), Slot(b, Accepted, 1), Slot(c, Accepted, 2)]
  {
    assert [DoCommit(1), DoCommit(2)][1..] == [DoCommit(2)];
    var s1 := Next(s, DoCommit(1));
    assert s1.queue == [Slot(a, Pending, 0), Slot(b, Accepted, 1), Slot(c, Pending, 2)];
    r := Next(s1, DoCommit(2));
    assert Runs(s1, [DoCommit(2)]) && Run(s1, [DoCommit(2)]) == r;
  }
}
