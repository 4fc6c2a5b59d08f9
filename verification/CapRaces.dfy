/**
 The capability table under interleaving (byteflow/src/scheduler/capability.rs).
 `mint`, `attenuate`, `delegate` and `reissue_for` take the lock several times;
 here each of their critical sections, and each epoch read outside the lock, is
 a separate step, so revocation can fall anywhere between them. A read outside
 the lock may return any value its cell has held.
 */
module CapRaces {
  import opened Common
  import opened Caps
  import opened CapTable

  // An operation in flight, by what it has done so far.
  datatype Op =
    | Done
    // `mint` / `grant`: the cell is in hand, the epoch not yet read.
    | MintRead(holder: U64, target: Target, rights: Rights, mask: Option<NativeMask>, cell: nat)
    | Inserting(entry: Capability)
    // `attenuate`: resolved; then holding a cell; then past `exec_delegate`.
    | Attenuating(to: U64, src: Capability, rights: Rights, mask: Option<NativeMask>)
    | Checking(to: U64, src: Capability, rights: Rights, mask: Option<NativeMask>, fetched: nat)
    | Rechecking(entry: Capability, fetched: nat)
    // `delegate`: its own first resolve is done.
    | Delegating(id: U128, holder: U64, to: U64, rights: Rights, mask: Option<NativeMask>)
    // `reissue_for`: looked up, not yet checked.
    | Reissuing(src: Capability, holder: U64)

  datatype Sys = Sys(table: Inner, ops: seq<Op>)

  datatype Step =
    | StartMint(holder: U64, target: Target, rights: Rights, mask: Option<NativeMask>)
    | StartAttenuate(id: U128, holder: U64, to: U64, rights: Rights, mask: Option<NativeMask>)
    | StartDelegate(id: U128, holder: U64, to: U64)
    | StartReissue(id: U128, holder: U64)
    | Advance(op: nat, seen: U64, draws: seq<U128>)
    | Reply(pair: Pair, rights: Rights, draws: seq<U128>)
    | BindOne(flow: U64)
    | BindTableOne(tid: U64)
    | RevokeOne(flow: U64)
    | RevokeTableOne(tid: U64)

  // A read of a cell's counter outside the lock.
  function Seen(t: Inner, cell: nat, seen: U64): (e: U64) {
    if cell >= |t.epochs| then 0 else if seen <= t.epochs[cell] then seen else t.epochs[cell]
  }

  function Derived(to: U64, src: Capability, cap: Cap): Capability {
    Capability(to, cap, src.lineage + [src.cap], src.cell, false)
  }

  function AdvanceOp(t: Inner, op: Op, seen: U64, draws: seq<U128>): (r: (Inner, Op)) {
    match op
    case Done => (t, Done)
    case MintRead(holder, target, rights, mask, cell) =>
      (t, Inserting(Capability(holder, Cap(target, rights, mask, Seen(t, cell, seen)), [], cell, false)))
    case Inserting(entry) => (Insert(t, entry, draws).0, Done)
    case Attenuating(to, src, rights, mask) =>
      var c := CellOf(t, src.cap.target);
      if c.None? || src.cap.target.NativeTable? || src.cap.target.Scheduler? then (t, Done)
      else (t, Checking(to, src, rights, mask, c.value))
    case Checking(to, src, rights, mask, fetched) =>
      (match ExecDelegate(src.cap, Seen(t, fetched, seen), rights, mask)
       case Err(_) => (t, Done)
       case Ok(cap) => (t, Rechecking(Derived(to, src, cap), fetched)))
    case Rechecking(entry, fetched) =>
      (t, if entry.cap.epoch != Seen(t, fetched, seen) then Done else Inserting(entry))
    case Delegating(id, holder, to, rights, mask) =>
      (match Resolve(t, id, holder, NO_RIGHTS)
       case Err(_) => (t, Done)
       case Ok(src) => (t, Attenuating(to, src, rights, mask)))
    case Reissuing(src, holder) =>
      (t, if !IsLive(t, src.cap) then Done
          else Inserting(Derived(holder, src, Attenuate(src.cap, src.cap.rights, src.cap.mask))))
  }

  function Begin(s: Sys, op: Op): Sys {
    s.(ops := s.ops + [op])
  }

  function Next(s: Sys, step: Step): (r: Sys) {
    var t := s.table;
    match step
    case StartMint(holder, target, rights, mask) =>
      var bound := if target.Flow? then Bind(t, target.id) else t;
      var c := CellOf(bound, target);
      if c.None? then s else Begin(s.(table := bound), MintRead(holder, target, rights, mask, c.value))
    case StartAttenuate(id, holder, to, rights, mask) =>
      var src := Resolve(t, id, holder, NO_RIGHTS);
      if src.Err? then s else Begin(s, Attenuating(to, src.value, rights, mask))
    case StartDelegate(id, holder, to) =>
      var src := Resolve(t, id, holder, NO_RIGHTS);
      if src.Err? then s else Begin(s, Delegating(id, holder, to, src.value.cap.rights, src.value.cap.mask))
    case StartReissue(id, holder) =>
      if id == 0 || id !in t.entries then s else Begin(s, Reissuing(t.entries[id], holder))
    case Advance(i, seen, draws) =>
      if i >= |s.ops| then s
      else
        var (table, op) := AdvanceOp(t, s.ops[i], seen, draws);
        Sys(table, s.ops[i := op])
    case Reply(pair, rights, draws) => s.(table := MintOrReuse(t, pair, rights, draws).0)
    case BindOne(f) => s.(table := Bind(t, f))
    case BindTableOne(id) => s.(table := BindTable(t, id))
    case RevokeOne(f) => s.(table := RevokeFlow(t, f))
    case RevokeTableOne(id) => s.(table := RevokeTable(t, id))
  }

  function Run(s: Sys, steps: seq<Step>): (r: Sys)
    decreases |steps|
  {
    if steps == [] then s else Run(Next(s, steps[0]), steps[1..])
  }

  function Init(): Sys {
    Sys(New(), [])
  }

  // ---------------------------------------------------------------- invariant

  ghost predicate EntryOk(t: Inner, e: Capability) {
    CapOk(t, e.cap, e.lineage, e.cell)
  }

  ghost predicate OpOk(t: Inner, op: Op) {
    match op
    case MintRead(_, target, _, _, cell) => cell < |t.owners| && t.owners[cell] == target
    case Inserting(e) => EntryOk(t, e) && !e.reply
    case Attenuating(_, src, _, _) => EntryOk(t, src)
    case Checking(_, src, _, _, _) => EntryOk(t, src)
    case Rechecking(e, _) => EntryOk(t, e) && !e.reply
    case Reissuing(src, _) => EntryOk(t, src)
    case _ => true
  }

  ghost predicate OpsOk(t: Inner, ops: seq<Op>) {
    forall i | 0 <= i < |ops| :: OpOk(t, ops[i])
  }

  ghost predicate SysInv(s: Sys) {
    Inv(s.table) && OpsOk(s.table, s.ops)
  }

  // Operations in flight only care which cells exist, and cells never go away.
  lemma {:induction false} OpsKept(t: Inner, r: Inner, ops: seq<Op>)
    requires OpsOk(t, ops) && t.owners <= r.owners
    ensures OpsOk(r, ops)
  {
    forall i | 0 <= i < |ops| ensures OpOk(r, ops[i]) { assert OpOk(t, ops[i]); }
  }

  lemma {:induction false} BeginKeepsInv(s: Sys, op: Op)
    requires SysInv(s) && OpOk(s.table, op)
    ensures SysInv(Begin(s, op))
  {
  }

  lemma {:induction false} AdvanceKeepsOp(t: Inner, op: Op, seen: U64, draws: seq<U128>)
    requires Inv(t) && OpOk(t, op) && !op.Inserting?
    ensures AdvanceOp(t, op, seen, draws).0 == t && OpOk(t, AdvanceOp(t, op, seen, draws).1)
  {
    match op
    case Checking(to, src, rights, mask, _) => DerivedOk(t, src, rights, mask);
    case Reissuing(src, _) => DerivedOk(t, src, src.cap.rights, src.cap.mask);
    case _ =>
  }

  lemma {:induction false} StartMintKeepsInv(s: Sys, step: Step)
    requires SysInv(s) && step.StartMint?
    ensures SysInv(Next(s, step))
  {
    var target := step.target;
    var bound := if target.Flow? then Bind(s.table, target.id) else s.table;
    if target.Flow? { BindKeepsInv(s.table, target.id); }
    OpsKept(s.table, bound, s.ops);
    var c := CellOf(bound, target);
    if c.Some? {
      assert CellsOk(bound);
      assert target.Flow? ==> CellFor(bound, bound.flowCells[target.id], target);
      BeginKeepsInv(s.(table := bound), MintRead(step.holder, target, step.rights, step.mask, c.value));
    }
  }

  lemma {:induction false} TableStepKeepsInv(s: Sys, r: Inner)
    requires SysInv(s) && Inv(r) && s.table.owners <= r.owners
    ensures SysInv(s.(table := r))
  {
    OpsKept(s.table, r, s.ops);
  }

  lemma {:induction false} AdvanceKeepsInv(s: Sys, i: nat, seen: U64, draws: seq<U128>)
    requires SysInv(s) && i < |s.ops|
    ensures SysInv(Next(s, Advance(i, seen, draws)))
  {
    var op := s.ops[i];
    assert OpOk(s.table, op);
    if op.Inserting? {
      InsertKeepsInv(s.table, op.entry, draws);
      OpsKept(s.table, Insert(s.table, op.entry, draws).0, s.ops);
    } else {
      AdvanceKeepsOp(s.table, op, seen, draws);
    }
  }

  // An operation that starts from an entry of the table.
  lemma {:induction false} StartDerivedKeepsInv(s: Sys, step: Step)
    requires SysInv(s) && (step.StartAttenuate? || step.StartDelegate? || step.StartReissue?)
    ensures SysInv(Next(s, step))
  {
    if step.id in s.table.entries {
      assert EntryOk(s.table, s.table.entries[step.id]);
      if Next(s, step) != s { BeginKeepsInv(s, Next(s, step).ops[|s.ops|]); }
    }
  }

  // Critical sections that are one whole operation.
  lemma {:induction false} ReplyKeepsInv(s: Sys, pair: Pair, rights: Rights, draws: seq<U128>)
    requires SysInv(s)
    ensures SysInv(Next(s, Reply(pair, rights, draws)))
  {
    MintOrReuseKeepsInv(s.table, pair, rights, draws);
    assert s.table.owners <= MintOrReuse(s.table, pair, rights, draws).0.owners by {
      MintOrReuseEffect(s.table, pair, rights, draws);
    }
    TableStepKeepsInv(s, MintOrReuse(s.table, pair, rights, draws).0);
  }

  lemma {:induction false} BindSectionKeepsInv(s: Sys, step: Step)
    requires SysInv(s) && (step.BindOne? || step.BindTableOne?)
    ensures SysInv(Next(s, step))
  {
    match step
    case BindOne(f) =>
      BindKeepsInv(s.table, f);
      TableStepKeepsInv(s, Bind(s.table, f));
    case BindTableOne(id) =>
      BindTableKeepsInv(s.table, id);
      TableStepKeepsInv(s, BindTable(s.table, id));
  }

  lemma {:induction false} RevokeSectionKeepsInv(s: Sys, step: Step)
    requires SysInv(s) && (step.RevokeOne? || step.RevokeTableOne?)
    ensures SysInv(Next(s, step))
  {
    match step
    case RevokeOne(f) => RevokeFlowKeepsInv(s.table, f);
    case RevokeTableOne(id) => RevokeTableKeepsInv(s.table, id);
    TableStepKeepsInv(s, Next(s, step).table);
  }

  lemma {:induction false} StepKeepsInv(s: Sys, step: Step)
    requires SysInv(s)
    ensures SysInv(Next(s, step))
  {
    match step
    case StartMint(_, _, _, _) => StartMintKeepsInv(s, step);
    case StartAttenuate(_, _, _, _, _) => StartDerivedKeepsInv(s, step);
    case StartDelegate(_, _, _) => StartDerivedKeepsInv(s, step);
    case StartReissue(_, _) => StartDerivedKeepsInv(s, step);
    case Advance(i, seen, draws) => if i < |s.ops| { AdvanceKeepsInv(s, i, seen, draws); }
    case RevokeOne(_) => RevokeSectionKeepsInv(s, step);
    case RevokeTableOne(_) => RevokeSectionKeepsInv(s, step);
    case Reply(pair, rights, draws) => ReplyKeepsInv(s, pair, rights, draws);
    case _ => BindSectionKeepsInv(s, step);
  }

  lemma {:induction false} RunKeepsInv(s: Sys, steps: seq<Step>)
    requires SysInv(s)
    ensures SysInv(Run(s, steps))
    decreases |steps|
  {
    if steps != [] {
      StepKeepsInv(s, steps[0]);
      RunKeepsInv(Next(s, steps[0]), steps[1..]);
    }
  }

  // Derivation never grows: in every reachable table each entry is within every
  // cap it was derived from, and the reply index is never stale.
  lemma {:induction false} ReachableTables(steps: seq<Step>)
    ensures
      var t := Run(Init(), steps).table;
      && (forall id, i | id in t.entries && 0 <= i < |t.entries[id].lineage| ::
            Narrower(t.entries[id].cap, t.entries[id].lineage[i]))
      && IndexOk(t)
  {
    RunKeepsInv(Init(), steps);
    var t := Run(Init(), steps).table;
    forall id, i | id in t.entries && 0 <= i < |t.entries[id].lineage|
      ensures Narrower(t.entries[id].cap, t.entries[id].lineage[i])
    {
      assert CapOk(t, t.entries[id].cap, t.entries[id].lineage, t.entries[id].cell);
    }
  }

  // --------------------------------------------------- revocation and binding

  predicate Binds(step: Step, f: U64) {
    match step
    case StartMint(_, target, _, _) => target == Flow(f)
    case Reply(pair, _, _) => pair.target == f
    case BindOne(g) => g == f
    case _ => false
  }

  lemma {:induction false} StaysUnbound(s: Sys, steps: seq<Step>, f: U64)
    requires f !in s.table.flowCells
    requires forall i | 0 <= i < |steps| :: !Binds(steps[i], f)
    ensures f !in Run(s, steps).table.flowCells
    decreases |steps|
  {
    if steps != [] {
      assert !Binds(steps[0], f);
      assert f !in Next(s, steps[0]).table.flowCells;
      StaysUnbound(Next(s, steps[0]), steps[1..], f);
    }
  }

  // Once `f` is revoked and until something binds it again, no token that
  // targets `f` resolves, including tokens inserted after the revocation.
  lemma {:induction false} RevokedDoesNotResolve(
    s: Sys, steps: seq<Step>, f: U64, id: U128, holder: U64, required: Rights)
    requires forall i | 0 <= i < |steps| :: !Binds(steps[i], f)
    ensures
      var r := Resolve(Run(Next(s, RevokeOne(f)), steps).table, id, holder, required);
      r.Err? || r.value.cap.target != Flow(f)
  {
    StaysUnbound(Next(s, RevokeOne(f)), steps, f);
  }

  lemma {:induction false} TableStaysUnbound(s: Sys, steps: seq<Step>, id: U64)
    requires id !in s.table.tableCells
    requires forall i | 0 <= i < |steps| :: steps[i] != BindTableOne(id)
    ensures id !in Run(s, steps).table.tableCells
    decreases |steps|
  {
    if steps != [] {
      assert steps[0] != BindTableOne(id);
      assert id !in Next(s, steps[0]).table.tableCells;
      TableStaysUnbound(Next(s, steps[0]), steps[1..], id);
    }
  }

  lemma {:induction false} RevokedTableDoesNotResolve(
    s: Sys, steps: seq<Step>, tid: U64, id: U128, holder: U64, required: Rights)
    requires forall i | 0 <= i < |steps| :: steps[i] != BindTableOne(tid)
    ensures
      var r := Resolve(Run(Next(s, RevokeTableOne(tid)), steps).table, id, holder, required);
      r.Err? || r.value.cap.target != Table(tid)
  {
    TableStaysUnbound(Next(s, RevokeTableOne(tid)), steps, tid);
  }

  // ---------------------------------------- exactly when revocation is final

  // The gate `exec_delegate` puts on a native request.
  predicate Gated(src: Capability, mask: Option<NativeMask>) {
    mask.Some? && NATIVE !in src.cap.rights
  }

  predicate Stale(e: Capability, cell: nat) {
    e.cell == cell && e.cap.epoch == 0
  }

  // An operation that already drew authority from `cell` and can still put it
  // into the table.
  predicate Threat(op: Op, cell: nat) {
    match op
    case MintRead(_, _, _, _, c) => c == cell
    case Inserting(e) => Stale(e, cell)
    case Attenuating(_, src, _, mask) => Stale(src, cell) && !Gated(src, mask)
    case Checking(_, src, _, mask, _) => Stale(src, cell) && !Gated(src, mask)
    case Rechecking(e, _) => Stale(e, cell)
    case Reissuing(src, _) => Stale(src, cell)
    case _ => false
  }

  // A token whose authority came from `cell` resolves although the cell is no
  // longer bound to anything.
  ghost predicate Resurrected(t: Inner, cell: nat) {
    && (forall f | f in t.flowCells :: t.flowCells[f] != cell)
    && exists id | id in t.entries :: t.entries[id].cell == cell && IsLive(t, t.entries[id].cap)
  }

  // The cell is retired: nothing is bound to it, no entry and no operation
  // carries authority from it that could ever be live.
  ghost predicate Retired(s: Sys, cell: nat) {
    && cell < |s.table.owners| && s.table.owners[cell].Flow?
    && Unbound(s.table, cell)
    && NoStale(s.table.entries, cell)
    && NoThreat(s.ops, cell)
  }

  ghost predicate Unbound(t: Inner, cell: nat) {
    && (forall f | f in t.flowCells :: t.flowCells[f] != cell)
    && (forall id | id in t.tableCells :: t.tableCells[id] != cell)
  }

  ghost predicate NoStale(entries: map<U128, Capability>, cell: nat) {
    forall id | id in entries :: !Stale(entries[id], cell)
  }

  ghost predicate NoThreat(ops: seq<Op>, cell: nat) {
    forall i | 0 <= i < |ops| :: !Threat(ops[i], cell)
  }

  lemma {:induction false} RetiredIsNotResurrected(s: Sys, cell: nat)
    requires SysInv(s) && Retired(s, cell)
    ensures !Resurrected(s.table, cell)
  {
    var t := s.table;
    forall id | id in t.entries && t.entries[id].cell == cell ensures !IsLive(t, t.entries[id].cap) {
      assert CapOk(t, t.entries[id].cap, t.entries[id].lineage, cell);
      assert !Stale(t.entries[id], cell);
      LiveEpochIsZero(t, t.entries[id].cap);
    }
  }

  // A live cap of a flow or a table has epoch zero: bound cells are unrevoked.
  lemma {:induction false} LiveEpochIsZero(t: Inner, cap: Cap)
    requires CellsOk(t)
    ensures IsLive(t, cap) && (cap.target.Flow? || cap.target.Table?) ==> cap.epoch == 0
  {
    match cap.target
    case Flow(f) => assert f in t.flowCells ==> CellFor(t, t.flowCells[f], Flow(f));
    case Table(id) => assert id in t.tableCells ==> CellFor(t, t.tableCells[id], Table(id));
    case _ =>
  }

  lemma {:induction false} AdvanceKeepsRetired(t: Inner, op: Op, cell: nat, seen: U64, draws: seq<U128>)
    requires NoStale(t.entries, cell) && !Threat(op, cell)
    ensures
      var (r, next) := AdvanceOp(t, op, seen, draws);
      && !Threat(next, cell) && NoStale(r.entries, cell)
      && r.owners == t.owners && r.flowCells == t.flowCells && r.tableCells == t.tableCells
  {
  }

  lemma {:induction false} BindKeepsRetired(t: Inner, cell: nat, f: U64)
    requires CellsOk(t) && cell < |t.owners| && Unbound(t, cell)
    ensures Unbound(Bind(t, f), cell) && Unbound(BindTable(t, f), cell)
  {
  }

  lemma {:induction false} ReplyKeepsRetired(t: Inner, cell: nat, pair: Pair, rights: Rights, draws: seq<U128>)
    requires CellsOk(t) && cell < |t.owners| && Unbound(t, cell) && NoStale(t.entries, cell)
    ensures
      var r := MintOrReuse(t, pair, rights, draws).0;
      Unbound(r, cell) && NoStale(r.entries, cell)
  {
    BindKeepsRetired(t, cell, pair.target);
    MintOrReuseEffect(t, pair, rights, draws);
  }

  lemma {:induction false} StartKeepsRetired(s: Sys, step: Step, cell: nat)
    requires SysInv(s) && Retired(s, cell)
    requires step.StartMint? || step.StartAttenuate? || step.StartDelegate? || step.StartReissue?
    ensures Retired(Next(s, step), cell)
  {
    if step.StartMint? && step.target.Flow? { BindKeepsRetired(s.table, cell, step.target.id); }
  }

  lemma {:induction false} StepKeepsRetired(s: Sys, step: Step, cell: nat)
    requires SysInv(s) && Retired(s, cell)
    ensures Retired(Next(s, step), cell)
  {
    match step
    case Advance(i, seen, draws) =>
      if i < |s.ops| { AdvanceKeepsRetired(s.table, s.ops[i], cell, seen, draws); }
    case Reply(pair, rights, draws) =>
      ReplyKeepsRetired(s.table, cell, pair, rights, draws);
      MintOrReuseEffect(s.table, pair, rights, draws);
    case BindOne(f) => BindKeepsRetired(s.table, cell, f);
    case BindTableOne(id) => BindKeepsRetired(s.table, cell, id);
    case RevokeOne(_) =>
    case RevokeTableOne(_) =>
    case _ => StartKeepsRetired(s, step, cell);
  }

  lemma {:induction false} RunKeepsRetired(s: Sys, steps: seq<Step>, cell: nat)
    requires SysInv(s) && Retired(s, cell)
    ensures SysInv(Run(s, steps)) && Retired(Run(s, steps), cell)
    decreases |steps|
  {
    if steps != [] {
      StepKeepsInv(s, steps[0]);
      StepKeepsRetired(s, steps[0], cell);
      RunKeepsRetired(Next(s, steps[0]), steps[1..], cell);
    }
  }

  // Revoking a flow with no threatening operation in flight retires its cell.
  lemma {:induction false} RevokeRetires(s: Sys, f: U64)
    requires SysInv(s) && f in s.table.flowCells && NoThreat(s.ops, s.table.flowCells[f])
    ensures Retired(Next(s, RevokeOne(f)), s.table.flowCells[f])
  {
    var t, cell := s.table, s.table.flowCells[f];
    var r := RevokeFlow(t, f);
    CellsAreDistinct(t);
    assert CellFor(t, cell, Flow(f));
    forall id | id in r.entries ensures !Stale(r.entries[id], cell) {
      assert CapOk(t, t.entries[id].cap, t.entries[id].lineage, t.entries[id].cell);
    }
  }

  // How many more steps an operation needs to insert its token.
  function Rank(op: Op): nat {
    match op
    case Inserting(_) => 1
    case MintRead(_, _, _, _, _) => 2
    case Rechecking(_, _) => 2
    case Reissuing(_, _) => 2
    case Checking(_, _, _, _, _) => 3
    case Attenuating(_, _, _, _) => 4
    case _ => 0
  }

  // With the flow bound again, a threatening operation gets one step closer.
  lemma {:induction false} ThreatAdvances(t: Inner, op: Op, cell: nat, f: U64, id: U128)
    requires CellsOk(t) && f in t.flowCells && OpOk(t, op) && cell < |t.owners| && t.owners[cell] == Flow(f)
    requires Threat(op, cell) && !op.Inserting?
    ensures
      var (r, next) := AdvanceOp(t, op, 0, [id]);
      r == t && Threat(next, cell) && Rank(next) < Rank(op)
  {
    assert CellFor(t, t.flowCells[f], Flow(f));
  }

  lemma {:induction false} ThreatInserts(s: Sys, i: nat, cell: nat, f: U64, id: U128)
    requires SysInv(s) && f in s.table.flowCells && cell < |s.table.owners| && s.table.owners[cell] == Flow(f)
    requires (forall g | g in s.table.flowCells :: s.table.flowCells[g] != cell)
    requires i < |s.ops| && s.ops[i].Inserting? && Threat(s.ops[i], cell)
    requires id != 0 && id !in s.table.entries
    ensures Resurrected(Next(s, Advance(i, 0, [id])).table, cell)
  {
    var t, r := s.table, Next(s, Advance(i, 0, [id])).table;
    assert OpOk(t, s.ops[i]) && CellFor(t, t.flowCells[f], Flow(f));
    assert FreshId(t.entries, [id], MINT_ATTEMPTS) == Some(id);
    assert id in r.entries && r.entries[id] == s.ops[i].entry;
  }

  lemma {:induction false} ThreatCanResurrect(s: Sys, i: nat, cell: nat, f: U64, id: U128) returns (steps: seq<Step>)
    requires SysInv(s) && f in s.table.flowCells && cell < |s.table.owners| && s.table.owners[cell] == Flow(f)
    requires (forall g | g in s.table.flowCells :: s.table.flowCells[g] != cell)
    requires i < |s.ops| && Threat(s.ops[i], cell)
    requires id != 0 && id !in s.table.entries
    ensures Resurrected(Run(s, steps).table, cell)
    decreases Rank(s.ops[i])
  {
    var step := Advance(i, 0, [id]);
    var next := Next(s, step);
    if s.ops[i].Inserting? {
      ThreatInserts(s, i, cell, f, id);
      steps := [step];
      assert Run(s, steps) == Run(next, []);
    } else {
      assert OpOk(s.table, s.ops[i]);
      ThreatAdvances(s.table, s.ops[i], cell, f, id);
      StepKeepsInv(s, step);
      var more := ThreatCanResurrect(next, i, cell, f, id);
      steps := [step] + more;
      assert steps[1..] == more;
    }
  }

  // The table some steps after `f` is revoked.
  function AfterRevoke(s: Sys, f: U64, steps: seq<Step>): Inner {
    Run(Next(s, RevokeOne(f)), steps).table
  }

  lemma {:induction false} FinalWithoutThreat(s: Sys, f: U64, steps: seq<Step>)
    requires SysInv(s) && f in s.table.flowCells && NoThreat(s.ops, s.table.flowCells[f])
    ensures !Resurrected(AfterRevoke(s, f, steps), s.table.flowCells[f])
  {
    var cell, revoked := s.table.flowCells[f], Next(s, RevokeOne(f));
    StepKeepsInv(s, RevokeOne(f));
    RevokeRetires(s, f);
    RunKeepsRetired(revoked, steps, cell);
    RetiredIsNotResurrected(Run(revoked, steps), cell);
  }

  lemma {:induction false} NotFinalWithThreat(s: Sys, f: U64, i: nat, id: U128) returns (steps: seq<Step>)
    requires SysInv(s) && f in s.table.flowCells && id != 0 && id !in s.table.entries
    requires i < |s.ops| && Threat(s.ops[i], s.table.flowCells[f])
    ensures Resurrected(AfterRevoke(s, f, steps), s.table.flowCells[f])
  {
    var cell, revoked := s.table.flowCells[f], Next(s, RevokeOne(f));
    var bound := Next(revoked, BindOne(f));
    StepKeepsInv(s, RevokeOne(f));
    StepKeepsInv(revoked, BindOne(f));
    RebindIsNew(s, f);
    var more := ThreatCanResurrect(bound, i, cell, f, id);
    steps := [BindOne(f)] + more;
    assert steps[1..] == more;
  }

  // Revocation is final for the authority drawn from the revoked cell exactly
  // when no operation that could still insert such authority is in flight. The
  // only assumption on the table is that some token id is free.
  lemma {:induction false} RevocationIsFinal(s: Sys, f: U64, id: U128)
    requires SysInv(s) && f in s.table.flowCells
    requires id != 0 && id !in s.table.entries
    ensures
      var cell := s.table.flowCells[f];
      (forall steps :: !Resurrected(AfterRevoke(s, f, steps), cell)) <==> NoThreat(s.ops, cell)
  {
    var cell := s.table.flowCells[f];
    if NoThreat(s.ops, cell) {
      forall steps ensures !Resurrected(AfterRevoke(s, f, steps), cell) {
        FinalWithoutThreat(s, f, steps);
      }
    } else {
      var i :| 0 <= i < |s.ops| && Threat(s.ops[i], cell);
      var steps := NotFinalWithThreat(s, f, i, id);
    }
  }

  // A mint for flow 7 that has read its epoch when the flow is revoked and bound
  // again, and only then inserts.
  function LateMint(rights: Rights, id: U128): seq<Step> {
    [StartMint(1, Flow(7), rights, None), Advance(0, 0, []), RevokeOne(7), BindOne(7), Advance(0, 0, [id])]
  }

  // From an empty table, that token resolves although it was drawn from the
  // revoked cell.
  lemma {:induction false} LateMintResurrects(rights: Rights, id: U128)
    requires id != 0
    ensures
      var t := Run(Init(), LateMint(rights, id)).table;
      Resurrected(t, 2) && Resolve(t, id, 1, rights).Ok?
  {
    var steps := LateMint(rights, id);
    var e := Capability(1, Cap(Flow(7), rights, None, 0), [], 2, false);
    var s1 := Next(Init(), steps[0]);
    assert s1.ops == [MintRead(1, Flow(7), rights, None, 2)] && s1.table == Bind(New(), 7);
    var s2 := Next(s1, steps[1]);
    assert s2 == Sys(s1.table, [Inserting(e)]);
    var s4 := Next(Next(s2, steps[2]), steps[3]);
    assert s4.ops == [Inserting(e)] && s4.table.entries == map[] && s4.table.flowCells == map[7 := 3];
    assert s4.table.epochs == [0, 0, 1, 0];
    var s5 := Next(s4, steps[4]);
    assert FreshId(map[], [id], MINT_ATTEMPTS) == Some(id);
    assert s5.table == s4.table.(entries := map[id := e]);
    RunFive(Init(), steps);
    assert id in s5.table.entries && IsLive(s5.table, e.cap);
  }

  lemma {:induction false} RunFive(s: Sys, steps: seq<Step>)
    requires |steps| == 5
    ensures Run(s, steps) == Next(Next(Next(Next(Next(s, steps[0]), steps[1]), steps[2]), steps[3]), steps[4])
  {
    var s1 := Next(s, steps[0]);
    var s2 := Next(s1, steps[1]);
    var s3 := Next(s2, steps[2]);
    var s4 := Next(s3, steps[3]);
    assert Run(s4, steps[4..]) == Next(s4, steps[4]);
    assert steps[3..][1..] == steps[4..] && Run(s3, steps[3..]) == Run(s4, steps[4..]);
    assert steps[2..][1..] == steps[3..] && Run(s2, steps[2..]) == Run(s3, steps[3..]);
    assert steps[1..][1..] == steps[2..] && Run(s1, steps[1..]) == Run(s2, steps[2..]);
  }

  // Binding a revoked flow again gives it a cell that is not the revoked one.
  lemma {:induction false} RebindIsNew(s: Sys, f: U64)
    requires SysInv(s) && f in s.table.flowCells
    ensures
      var cell, t := s.table.flowCells[f], Bind(RevokeFlow(s.table, f), f);
      && f in t.flowCells && cell < |t.owners| && t.owners[cell] == Flow(f)
      && (forall g | g in t.flowCells :: t.flowCells[g] != cell)
      && (forall id | id in t.entries :: id in s.table.entries)
  {
    var t := s.table;
    assert CellFor(t, t.flowCells[f], Flow(f));
    CellsAreDistinct(t);
  }

  // ---------------------------------------------------------- reply addresses

  predicate PairOf(e: Capability, p: Pair) {
    e.holder == p.holder && e.cap.target == Flow(p.target)
  }

  // With one rights value for every reply address: the entries `mint_or_reuse`
  // made are exactly the indexed ones, so there is exactly one per pair.
  ghost predicate OnePerPair(t: Inner, rights: Rights) {
    && (forall id | id in t.entries && t.entries[id].reply :: Indexed(t, id))
    && (forall p | p in t.replyIndex :: ReplyFor(t, p, rights))
  }

  ghost predicate Indexed(t: Inner, id: U128)
    requires id in t.entries
  {
    var e := t.entries[id];
    e.cap.target.Flow? && Pair(e.holder, e.cap.target.id) in t.replyIndex
      && t.replyIndex[Pair(e.holder, e.cap.target.id)] == id
  }

  ghost predicate ReplyFor(t: Inner, p: Pair, rights: Rights)
    requires p in t.replyIndex
  {
    var id := t.replyIndex[p];
    id in t.entries && t.entries[id].reply && PairOf(t.entries[id], p) && t.entries[id].cap.rights == rights
  }

  predicate FixedRights(step: Step, rights: Rights) {
    step.Reply? ==> step.rights == rights
  }

  lemma {:induction false} ReplyKeepsOnePerPair(t: Inner, p: Pair, rights: Rights, draws: seq<U128>)
    requires Inv(t) && OnePerPair(t, rights)
    ensures OnePerPair(MintOrReuse(t, p, rights, draws).0, rights)
  {
    if p in t.replyIndex {
      assert ReplyFor(t, p, rights);
      ReuseIsStable(t, p, rights, draws);
    } else {
      NewReplyKeepsOnePerPair(t, p, rights, draws);
    }
  }

  lemma {:induction false} NewReplyKeepsOnePerPair(t: Inner, p: Pair, rights: Rights, draws: seq<U128>)
    requires OnePerPair(t, rights) && p !in t.replyIndex
    ensures OnePerPair(MintOrReuse(t, p, rights, draws).0, rights)
  {
    var bound := Bind(t, p.target);
    assert t.replyIndex - {p} == t.replyIndex;
    assert MintOrReuse(t, p, rights, draws) == ReplyInsert(bound, p, rights, draws);
    OtherKeepsOnePerPair(t, bound, rights);
    FirstReplyKeepsOnePerPair(bound, p, rights, draws);
  }

  lemma {:induction false} FirstReplyKeepsOnePerPair(t: Inner, p: Pair, rights: Rights, draws: seq<U128>)
    requires OnePerPair(t, rights) && p !in t.replyIndex && p.target in t.flowCells
    ensures OnePerPair(ReplyInsert(t, p, rights, draws).0, rights)
  {
    var (u, id) := ReplyInsert(t, p, rights, draws);
    if id.Some? {
      forall k | k in u.entries && u.entries[k].reply ensures Indexed(u, k) {
        if k != id.value { assert Indexed(t, k); }
      }
      forall q | q in u.replyIndex ensures ReplyFor(u, q, rights) {
        if q != p { assert ReplyFor(t, q, rights); }
      }
    }
  }

  // A change of the table that no reply address notices.
  ghost predicate ReplyFrame(t: Inner, r: Inner) {
    && r.replyIndex == t.replyIndex
    && (forall id | id in t.entries && t.entries[id].reply :: id in r.entries && r.entries[id] == t.entries[id])
    && (forall id | id in r.entries && r.entries[id].reply :: id in t.entries && r.entries[id] == t.entries[id])
  }

  lemma {:induction false} OtherKeepsOnePerPair(t: Inner, r: Inner, rights: Rights)
    requires OnePerPair(t, rights) && ReplyFrame(t, r)
    ensures OnePerPair(r, rights)
  {
    forall id | id in r.entries && r.entries[id].reply ensures Indexed(r, id) { assert Indexed(t, id); }
    forall p | p in r.replyIndex ensures ReplyFor(r, p, rights) { assert ReplyFor(t, p, rights); }
  }

  lemma {:induction false} AdvanceFramesReply(t: Inner, op: Op, seen: U64, draws: seq<U128>)
    requires OpOk(t, op)
    ensures ReplyFrame(t, AdvanceOp(t, op, seen, draws).0)
  {
    if op.Inserting? { assert ReplyFrame(t, Insert(t, op.entry, draws).0); }
    else { assert AdvanceOp(t, op, seen, draws).0 == t; }
  }

  lemma {:induction false} StepFramesReply(s: Sys, step: Step)
    requires OpsOk(s.table, s.ops) && !step.Reply? && !step.RevokeOne? && !step.RevokeTableOne?
    ensures ReplyFrame(s.table, Next(s, step).table)
  {
    if step.Advance? && step.op < |s.ops| {
      assert OpOk(s.table, s.ops[step.op]);
      AdvanceFramesReply(s.table, s.ops[step.op], step.seen, step.draws);
    }
  }

  lemma {:induction false} RevokeKeepsOnePerPair(t: Inner, f: U64, rights: Rights)
    requires OnePerPair(t, rights)
    ensures OnePerPair(RevokeFlow(t, f), rights)
  {
    var r := RevokeFlow(t, f);
    forall id | id in r.entries && r.entries[id].reply ensures Indexed(r, id) { assert Indexed(t, id); }
    forall p | p in r.replyIndex ensures ReplyFor(r, p, rights) { assert ReplyFor(t, p, rights); }
  }

  lemma {:induction false} RevokeTableKeepsOnePerPair(t: Inner, tid: U64, rights: Rights)
    requires OnePerPair(t, rights)
    ensures OnePerPair(RevokeTable(t, tid), rights)
  {
    forall id | id in t.entries && t.entries[id].reply
      ensures id in RevokeTable(t, tid).entries
    {
      assert Indexed(t, id);
    }
    OtherKeepsOnePerPair(t, RevokeTable(t, tid), rights);
  }

  lemma {:induction false} StepKeepsOnePerPair(s: Sys, step: Step, rights: Rights)
    requires SysInv(s) && OnePerPair(s.table, rights) && FixedRights(step, rights)
    ensures OnePerPair(Next(s, step).table, rights)
  {
    match step
    case Reply(p, _, draws) => ReplyKeepsOnePerPair(s.table, p, rights, draws);
    case RevokeOne(f) => RevokeKeepsOnePerPair(s.table, f, rights);
    case RevokeTableOne(id) => RevokeTableKeepsOnePerPair(s.table, id, rights);
    case _ =>
      StepFramesReply(s, step);
      OtherKeepsOnePerPair(s.table, Next(s, step).table, rights);
  }

  lemma {:induction false} RunKeepsOnePerPair(s: Sys, steps: seq<Step>, rights: Rights)
    requires SysInv(s) && OnePerPair(s.table, rights)
    requires forall i | 0 <= i < |steps| :: FixedRights(steps[i], rights)
    ensures OnePerPair(Run(s, steps).table, rights)
    decreases |steps|
  {
    if steps != [] {
      assert FixedRights(steps[0], rights);
      StepKeepsInv(s, steps[0]);
      StepKeepsOnePerPair(s, steps[0], rights);
      RunKeepsOnePerPair(Next(s, steps[0]), steps[1..], rights);
    }
  }

  ghost predicate SameReply(t: Inner, r: Inner, p: Pair)
    requires p in t.replyIndex
  {
    p in r.replyIndex && r.replyIndex[p] == t.replyIndex[p]
  }

  lemma {:induction false} MintKeepsReply(t: Inner, q: Pair, p: Pair, rights: Rights, draws: seq<U128>)
    requires Inv(t) && OnePerPair(t, rights) && p in t.replyIndex
    ensures SameReply(t, MintOrReuse(t, q, rights, draws).0, p)
  {
    if q == p {
      assert ReplyFor(t, p, rights);
      ReuseIsStable(t, p, rights, draws);
    } else {
      MintOrReuseEffect(t, q, rights, draws);
    }
  }

  // A step that does not revoke either flow of a pair keeps its reply address.
  lemma {:induction false} StepKeepsReply(s: Sys, step: Step, p: Pair, rights: Rights)
    requires SysInv(s) && OnePerPair(s.table, rights) && FixedRights(step, rights) && p in s.table.replyIndex
    requires step != RevokeOne(p.holder) && step != RevokeOne(p.target)
    ensures SameReply(s.table, Next(s, step).table, p)
  {
    match step
    case Reply(q, _, draws) => MintKeepsReply(s.table, q, p, rights, draws);
    case RevokeOne(f) => RevokeKeepsReply(s.table, f, p);
    case RevokeTableOne(tid) => RevokeTableKeepsReply(s.table, tid, p);
    case _ => OtherKeepsReply(s, step, p);
  }

  lemma {:induction false} OtherKeepsReply(s: Sys, step: Step, p: Pair)
    requires OpsOk(s.table, s.ops) && !step.Reply? && !step.RevokeOne? && !step.RevokeTableOne?
    requires p in s.table.replyIndex
    ensures SameReply(s.table, Next(s, step).table, p)
  {
    StepFramesReply(s, step);
  }

  lemma {:induction false} RevokeTableKeepsReply(t: Inner, tid: U64, p: Pair)
    requires p in t.replyIndex
    ensures SameReply(t, RevokeTable(t, tid), p)
  {
  }

  lemma {:induction false} RevokeKeepsReply(t: Inner, f: U64, p: Pair)
    requires p in t.replyIndex && f != p.holder && f != p.target
    ensures SameReply(t, RevokeFlow(t, f), p)
  {
  }

  lemma {:induction false} RunKeepsReply(s: Sys, steps: seq<Step>, p: Pair, rights: Rights)
    requires SysInv(s) && OnePerPair(s.table, rights) && p in s.table.replyIndex
    requires forall i | 0 <= i < |steps| :: KeepsPair(steps[i], p, rights)
    ensures SameReply(s.table, Run(s, steps).table, p)
    decreases |steps|
  {
    if steps != [] {
      var next := Next(s, steps[0]);
      assert KeepsPair(steps[0], p, rights);
      ReplyStep(s, steps[0], p, rights);
      assert forall i | 0 <= i < |steps[1..]| :: KeepsPair(steps[1..][i], p, rights);
      RunKeepsReply(next, steps[1..], p, rights);
    }
  }

  lemma {:induction false} ReplyStep(s: Sys, step: Step, p: Pair, rights: Rights)
    requires SysInv(s) && OnePerPair(s.table, rights) && p in s.table.replyIndex && KeepsPair(step, p, rights)
    ensures SysInv(Next(s, step)) && OnePerPair(Next(s, step).table, rights)
    ensures SameReply(s.table, Next(s, step).table, p)
  {
    StepKeepsInv(s, step);
    StepKeepsOnePerPair(s, step, rights);
    StepKeepsReply(s, step, p, rights);
  }

  // Reply addresses all ask for `rights`, and neither flow of the pair is revoked.
  predicate KeepsPair(step: Step, p: Pair, rights: Rights) {
    FixedRights(step, rights) && step != RevokeOne(p.holder) && step != RevokeOne(p.target)
  }

  // From the start, with one rights value: a reply address once handed out is
  // handed out again, without changing the table, until either flow is revoked.
  lemma {:induction false} ReplyAddressIsStable(
    before: seq<Step>, after: seq<Step>, p: Pair, rights: Rights, draws: seq<U128>)
    requires forall i | 0 <= i < |before| :: FixedRights(before[i], rights)
    requires p in Run(Init(), before).table.replyIndex
    requires forall i | 0 <= i < |after| :: KeepsPair(after[i], p, rights)
    ensures
      var s, t := Run(Init(), before), Run(Run(Init(), before), after).table;
      MintOrReuse(t, p, rights, draws) == (t, Some(s.table.replyIndex[p]))
  {
    RunKeepsInv(Init(), before);
    RunKeepsOnePerPair(Init(), before, rights);
    var s := Run(Init(), before);
    RunKeepsReply(s, after, p, rights);
    RunKeepsInv(s, after);
    forall i | 0 <= i < |after| ensures FixedRights(after[i], rights) { assert KeepsPair(after[i], p, rights); }
    RunKeepsOnePerPair(s, after, rights);
    var t := Run(s, after).table;
    assert ReplyFor(t, p, rights);
    ReuseIsStable(t, p, rights, draws);
  }
}
