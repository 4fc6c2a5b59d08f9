/**
 The capability table (byteflow/src/scheduler/capability.rs): entries, the
 revocation cell of every flow and table, and the reply index. Each function
 here is one critical section of the source; the class runs them.
 */
module CapTable {
  import opened Common
  import opened Caps

  const MINT_ATTEMPTS := 32

  // A table entry. No operation reads the last three fields, which only the
  // properties speak about: the caps this one was derived from, oldest first;
  // the cell its epoch was read from; whether `mint_or_reuse` made it.
  datatype Capability = Capability(holder: U64, cap: Cap, lineage: seq<Cap>, cell: nat, reply: bool)

  datatype Pair = Pair(holder: U64, target: U64)

  datatype CapError = Unknown | NotHolder | InsufficientRights | WrongTarget | InsertFailed

  // Cells are numbered in order of creation: `epochs` is their counters and
  // `owners` what each was created for. Cells 0 and 1 are the native table's
  // and the scheduler's.
  datatype Inner = Inner(
    entries: map<U128, Capability>,
    flowCells: map<U64, nat>,
    tableCells: map<U64, nat>,
    replyIndex: map<Pair, U128>,
    epochs: seq<U64>,
    owners: seq<Target>)

  function New(): Inner {
    Inner(map[], map[], map[], map[], [0, 0], [NativeTable, Scheduler])
  }

  // -------------------------------------------------------- critical sections

  function CellOf(t: Inner, target: Target): (c: Option<nat>) {
    match target
    case Flow(f) => if f in t.flowCells then Some(t.flowCells[f]) else None
    case Table(id) => if id in t.tableCells then Some(t.tableCells[id]) else None
    case NativeTable => Some(0)
    case Scheduler => Some(1)
  }

  // The epoch check of `resolve` and `reissue_for`, under the lock.
  predicate IsLive(t: Inner, cap: Cap) {
    var c := CellOf(t, cap.target);
    c.Some? && c.value < |t.epochs| && t.epochs[c.value] == cap.epoch
  }

  function AddCell(t: Inner, owner: Target): (r: Inner)
    ensures r.epochs == t.epochs + [0] && r.owners == t.owners + [owner]
  {
    t.(epochs := t.epochs + [0], owners := t.owners + [owner])
  }

  // `bind_flow`: get or create.
  function Bind(t: Inner, f: U64): (r: Inner)
    ensures f in r.flowCells
  {
    if f in t.flowCells then t else AddCell(t, Flow(f)).(flowCells := t.flowCells[f := |t.epochs|])
  }

  // `bind_table`, with the new cell its callers pass.
  function BindTable(t: Inner, id: U64): (r: Inner) {
    AddCell(t, Table(id)).(tableCells := t.tableCells[id := |t.epochs|])
  }

  // `insert_fresh`: the first drawn id that is not taken. Zero is reserved.
  function FreshId(entries: map<U128, Capability>, draws: seq<U128>, attempts: nat): (id: Option<U128>)
    ensures id.Some? ==> id.value != 0 && id.value !in entries
    decreases attempts
  {
    if attempts == 0 || draws == [] || draws[0] == 0 then None
    else if draws[0] in entries then FreshId(entries, draws[1..], attempts - 1)
    else Some(draws[0])
  }

  function Insert(t: Inner, e: Capability, draws: seq<U128>): (r: (Inner, Option<U128>))
    ensures r.1.None? ==> r.0 == t
    ensures r.1.Some? ==> r.1.value !in t.entries && r.1.value != 0 && r.0 == t.(entries := t.entries[r.1.value := e])
  {
    var id := FreshId(t.entries, draws, MINT_ATTEMPTS);
    if id.None? then (t, None) else (t.(entries := t.entries[id.value := e]), id)
  }

  // `reply_cap_is_live`
  predicate ReplyIsLive(t: Inner, id: U128, pair: Pair, rights: Rights) {
    && id in t.entries
    && t.entries[id].holder == pair.holder
    && t.entries[id].cap.target == Flow(pair.target)
    && rights <= t.entries[id].cap.rights
    && IsLive(t, t.entries[id].cap)
  }

  // The entry `mint_or_reuse` inserts once the target is bound.
  function ReplyEntry(t: Inner, pair: Pair, rights: Rights): Capability
    requires pair.target in t.flowCells && t.flowCells[pair.target] < |t.epochs|
  {
    var c := t.flowCells[pair.target];
    Capability(pair.holder, Cap(Flow(pair.target), rights, None, t.epochs[c]), [], c, true)
  }

  // The rest of `mint_or_reuse` once the target is bound.
  function ReplyInsert(t: Inner, pair: Pair, rights: Rights, draws: seq<U128>): (r: (Inner, Option<U128>))
    requires pair.target in t.flowCells
  {
    if t.flowCells[pair.target] >= |t.epochs| then (t, None)
    else
      var (inserted, id) := Insert(t, ReplyEntry(t, pair, rights), draws);
      if id.None? then (inserted, None)
      else (inserted.(replyIndex := inserted.replyIndex[pair := id.value]), id)
  }

  function MintOrReuse(t: Inner, pair: Pair, rights: Rights, draws: seq<U128>): (r: (Inner, Option<U128>)) {
    if pair in t.replyIndex && ReplyIsLive(t, t.replyIndex[pair], pair, rights) then (t, Some(t.replyIndex[pair]))
    else ReplyInsert(Bind(t.(replyIndex := t.replyIndex - {pair}), pair.target), pair, rights, draws)
  }

  // `resolve`
  function Resolve(t: Inner, id: U128, holder: U64, required: Rights): (r: Result<Capability, CapError>) {
    if id == 0 || id !in t.entries then Err(Unknown)
    else
      var e := t.entries[id];
      if e.holder != holder then Err(NotHolder)
      else if !(required <= e.cap.rights) then Err(InsufficientRights)
      else if !IsLive(t, e.cap) then Err(Unknown)
      else Ok(e)
  }

  // `RevocationCell::revoke` wraps at 64 bits.
  function Bump(epochs: seq<U64>, c: nat): (r: seq<U64>)
    ensures |r| == |epochs|
  {
    if c < |epochs| then epochs[c := if epochs[c] == U64_MAX then 0 else epochs[c] + 1] else epochs
  }

  function EntriesWithout(entries: map<U128, Capability>, f: U64): map<U128, Capability> {
    map id | id in entries && entries[id].holder != f && entries[id].cap.target != Flow(f) :: entries[id]
  }

  function IndexWithout(index: map<Pair, U128>, f: U64): map<Pair, U128> {
    map p | p in index && p.holder != f && p.target != f :: index[p]
  }

  function EntriesWithoutTable(entries: map<U128, Capability>, id: U64): map<U128, Capability> {
    map k | k in entries && entries[k].cap.target != Table(id) :: entries[k]
  }

  function RevokeFlow(t: Inner, f: U64): (r: Inner) {
    t.(epochs := if f in t.flowCells then Bump(t.epochs, t.flowCells[f]) else t.epochs,
       flowCells := t.flowCells - {f},
       entries := EntriesWithout(t.entries, f),
       replyIndex := IndexWithout(t.replyIndex, f))
  }

  function RevokeTable(t: Inner, id: U64): (r: Inner) {
    t.(epochs := if id in t.tableCells then Bump(t.epochs, t.tableCells[id]) else t.epochs,
       tableCells := t.tableCells - {id},
       entries := EntriesWithoutTable(t.entries, id))
  }

  // ---------------------------------------------------------------- invariant

  // Every bound cell was created for what it is bound to, and is unrevoked.
  ghost predicate CellsOk(t: Inner) {
    && |t.epochs| == |t.owners| >= 2 && t.owners[0] == NativeTable && t.owners[1] == Scheduler
    && (forall f | f in t.flowCells :: CellFor(t, t.flowCells[f], Flow(f)))
    && (forall id | id in t.tableCells :: CellFor(t, t.tableCells[id], Table(id)))
  }

  ghost predicate CellFor(t: Inner, c: nat, owner: Target) {
    c < |t.epochs| == |t.owners| && t.owners[c] == owner && t.epochs[c] == 0
  }

  // A cap's cell was created for its target, and the cap is within every cap it
  // was derived from.
  ghost predicate CapOk(t: Inner, cap: Cap, lineage: seq<Cap>, cell: nat) {
    && cell < |t.owners| && t.owners[cell] == cap.target
    && forall i | 0 <= i < |lineage| :: Narrower(cap, lineage[i])
  }

  ghost predicate EntriesOk(t: Inner) {
    forall id | id in t.entries ::
      id != 0 && CapOk(t, t.entries[id].cap, t.entries[id].lineage, t.entries[id].cell)
  }

  // The reply index names live entries of the right holder and target.
  ghost predicate IndexOk(t: Inner) {
    forall p | p in t.replyIndex :: IndexedOk(t, p, t.replyIndex[p])
  }

  ghost predicate IndexedOk(t: Inner, p: Pair, id: U128) {
    && id in t.entries
    && t.entries[id].holder == p.holder && t.entries[id].cap.target == Flow(p.target)
    && IsLive(t, t.entries[id].cap)
  }

  ghost predicate Inv(t: Inner) {
    CellsOk(t) && EntriesOk(t) && IndexOk(t)
  }

  // A table that only gained cells, bindings of unbound flows, and entries.
  ghost predicate Grows(t: Inner, r: Inner) {
    && |t.epochs| == |t.owners| && |r.epochs| == |r.owners|
    && t.epochs <= r.epochs && t.owners <= r.owners
    && (forall id | id in t.entries :: id in r.entries && r.entries[id] == t.entries[id])
    && (forall f | f in t.flowCells :: f in r.flowCells && r.flowCells[f] == t.flowCells[f])
  }

  lemma {:induction false} GrowsKeepsIndexed(t: Inner, r: Inner, p: Pair, id: U128)
    requires Grows(t, r) && CellsOk(t) && IndexedOk(t, p, id)
    ensures IndexedOk(r, p, id)
  {
    var c := t.flowCells[p.target];
    assert r.epochs[c] == t.epochs[c];
  }

  lemma {:induction false} GrowsKeepsIndex(t: Inner, r: Inner)
    requires Grows(t, r) && CellsOk(t) && IndexOk(t)
    requires forall p | p in r.replyIndex :: p in t.replyIndex && r.replyIndex[p] == t.replyIndex[p]
    ensures IndexOk(r)
  {
    forall p | p in r.replyIndex ensures IndexedOk(r, p, r.replyIndex[p]) {
      GrowsKeepsIndexed(t, r, p, t.replyIndex[p]);
    }
  }

  lemma {:induction false} CapKept(t: Inner, r: Inner, cap: Cap, lineage: seq<Cap>, cell: nat)
    requires CapOk(t, cap, lineage, cell) && t.owners <= r.owners
    ensures CapOk(r, cap, lineage, cell)
  {
  }

  // Entries that were there before stay well formed.
  lemma {:induction false} EntriesKept(t: Inner, r: Inner)
    requires EntriesOk(t) && t.owners <= r.owners
    requires forall id | id in r.entries :: id in t.entries && r.entries[id] == t.entries[id]
    ensures EntriesOk(r)
  {
    forall id | id in r.entries
      ensures id != 0 && CapOk(r, r.entries[id].cap, r.entries[id].lineage, r.entries[id].cell)
    {
      CapKept(t, r, t.entries[id].cap, t.entries[id].lineage, t.entries[id].cell);
    }
  }

  // Bindings that were there before keep their cells.
  lemma {:induction false} CellsKept(t: Inner, r: Inner)
    requires CellsOk(t) && |r.epochs| == |r.owners| && t.owners <= r.owners
    requires t.epochs <= r.epochs
    requires forall f | f in r.flowCells ::
      (f in t.flowCells && r.flowCells[f] == t.flowCells[f]) || CellFor(r, r.flowCells[f], Flow(f))
    requires forall id | id in r.tableCells ::
      (id in t.tableCells && r.tableCells[id] == t.tableCells[id]) || CellFor(r, r.tableCells[id], Table(id))
    ensures CellsOk(r)
  {
    forall f | f in r.flowCells ensures CellFor(r, r.flowCells[f], Flow(f)) {
      assert f in t.flowCells ==> CellFor(t, t.flowCells[f], Flow(f));
    }
    forall id | id in r.tableCells ensures CellFor(r, r.tableCells[id], Table(id)) {
      assert id in t.tableCells ==> CellFor(t, t.tableCells[id], Table(id));
    }
  }

  lemma {:induction false} BindKeepsInv(t: Inner, f: U64)
    requires Inv(t)
    ensures Inv(Bind(t, f)) && Grows(t, Bind(t, f))
  {
    if f !in t.flowCells {
      var r := Bind(t, f);
      CellsKept(t, r);
      EntriesKept(t, r);
      GrowsKeepsIndex(t, r);
    }
  }

  lemma {:induction false} BindTableKeepsInv(t: Inner, id: U64)
    requires Inv(t)
    ensures Inv(BindTable(t, id))
  {
    var r := BindTable(t, id);
    CellsKept(t, r);
    EntriesKept(t, r);
    GrowsKeepsIndex(t, r);
  }

  lemma {:induction false} InsertKeepsInv(t: Inner, e: Capability, draws: seq<U128>)
    requires Inv(t) && CapOk(t, e.cap, e.lineage, e.cell)
    ensures Inv(Insert(t, e, draws).0) && Grows(t, Insert(t, e, draws).0)
  {
    var r := Insert(t, e, draws).0;
    CellsKept(t, r);
    forall id | id in r.entries
      ensures id != 0 && CapOk(r, r.entries[id].cap, r.entries[id].lineage, r.entries[id].cell)
    {
      CapKept(t, r, r.entries[id].cap, r.entries[id].lineage, r.entries[id].cell);
    }
    GrowsKeepsIndex(t, r);
  }

  lemma {:induction false} UnindexKeepsInv(t: Inner, p: Pair)
    requires Inv(t)
    ensures Inv(t.(replyIndex := t.replyIndex - {p}))
  {
    var r := t.(replyIndex := t.replyIndex - {p});
    CellsKept(t, r);
    EntriesKept(t, r);
    GrowsKeepsIndex(t, r);
  }

  lemma {:induction false} IndexKeepsInv(t: Inner, p: Pair, id: U128)
    requires Inv(t) && IndexedOk(t, p, id)
    ensures Inv(t.(replyIndex := t.replyIndex[p := id]))
  {
    var r := t.(replyIndex := t.replyIndex[p := id]);
    CellsKept(t, r);
    EntriesKept(t, r);
    forall q | q in r.replyIndex ensures IndexedOk(r, q, r.replyIndex[q]) {
      assert IndexedOk(t, q, r.replyIndex[q]);
    }
  }

  lemma {:induction false} MintOrReuseKeepsInv(t: Inner, p: Pair, rights: Rights, draws: seq<U128>)
    requires Inv(t)
    ensures Inv(MintOrReuse(t, p, rights, draws).0)
  {
    if !(p in t.replyIndex && ReplyIsLive(t, t.replyIndex[p], p, rights)) {
      var cleared := t.(replyIndex := t.replyIndex - {p});
      UnindexKeepsInv(t, p);
      BindKeepsInv(cleared, p.target);
      ReplyInsertKeepsInv(Bind(cleared, p.target), p, rights, draws);
    }
  }

  lemma {:induction false} ReplyInsertKeepsInv(t: Inner, p: Pair, rights: Rights, draws: seq<U128>)
    requires Inv(t) && p.target in t.flowCells
    ensures Inv(ReplyInsert(t, p, rights, draws).0)
  {
    assert CellFor(t, t.flowCells[p.target], Flow(p.target));
    var e := ReplyEntry(t, p, rights);
    InsertKeepsInv(t, e, draws);
    var (r, id) := Insert(t, e, draws);
    if id.Some? {
      assert IndexedOk(r, p, id.value);
      IndexKeepsInv(r, p, id.value);
    }
  }

  lemma {:induction false} BumpKeepsCells(t: Inner, r: Inner, c: nat)
    requires CellsOk(t) && c < |t.epochs| && r.epochs == Bump(t.epochs, c) && r.owners == t.owners
    requires forall f | f in r.flowCells :: f in t.flowCells && r.flowCells[f] == t.flowCells[f] != c
    requires forall id | id in r.tableCells :: id in t.tableCells && r.tableCells[id] == t.tableCells[id] != c
    ensures CellsOk(r)
  {
    forall f | f in r.flowCells ensures CellFor(r, r.flowCells[f], Flow(f)) {
      assert CellFor(t, t.flowCells[f], Flow(f));
    }
    forall id | id in r.tableCells ensures CellFor(r, r.tableCells[id], Table(id)) {
      assert CellFor(t, t.tableCells[id], Table(id));
    }
  }

  // Bound cells are distinct: each was created for one owner.
  lemma {:induction false} CellsAreDistinct(t: Inner)
    requires CellsOk(t)
    ensures forall f, g | f in t.flowCells && g in t.flowCells && f != g :: t.flowCells[f] != t.flowCells[g]
    ensures forall f, id | f in t.flowCells && id in t.tableCells :: t.flowCells[f] != t.tableCells[id]
    ensures forall i, j | i in t.tableCells && j in t.tableCells && i != j :: t.tableCells[i] != t.tableCells[j]
  {
    forall f, g | f in t.flowCells && g in t.flowCells && f != g ensures t.flowCells[f] != t.flowCells[g] {
      assert CellFor(t, t.flowCells[f], Flow(f)) && CellFor(t, t.flowCells[g], Flow(g));
    }
    forall f, id | f in t.flowCells && id in t.tableCells ensures t.flowCells[f] != t.tableCells[id] {
      assert CellFor(t, t.flowCells[f], Flow(f)) && CellFor(t, t.tableCells[id], Table(id));
    }
    forall i, j | i in t.tableCells && j in t.tableCells && i != j ensures t.tableCells[i] != t.tableCells[j] {
      assert CellFor(t, t.tableCells[i], Table(i)) && CellFor(t, t.tableCells[j], Table(j));
    }
  }

  // Revocation leaves alone the indexed entries it does not drop.
  lemma {:induction false} RevokeKeepsIndexed(t: Inner, r: Inner, p: Pair)
    requires IndexOk(t) && CellsOk(t) && CellsOk(r)
    requires p in t.replyIndex && t.replyIndex[p] in r.entries && r.entries[t.replyIndex[p]]
      == t.entries[t.replyIndex[p]]
    requires p.target in t.flowCells ==> p.target in r.flowCells && r.flowCells[p.target] == t.flowCells[p.target]
    ensures IndexedOk(r, p, t.replyIndex[p])
  {
    assert IndexedOk(t, p, t.replyIndex[p]);
    assert CellFor(t, t.flowCells[p.target], Flow(p.target)) && CellFor(r, r.flowCells[p.target], Flow(p.target));
  }

  lemma {:induction false} RevokeFlowKeepsCells(t: Inner, f: U64)
    requires CellsOk(t)
    ensures CellsOk(RevokeFlow(t, f))
  {
    var r := RevokeFlow(t, f);
    CellsAreDistinct(t);
    if f in t.flowCells {
      assert CellFor(t, t.flowCells[f], Flow(f));
      BumpKeepsCells(t, r, t.flowCells[f]);
    } else {
      CellsKept(t, r);
    }
  }

  lemma {:induction false} RevokeFlowKeepsIndex(t: Inner, f: U64)
    requires CellsOk(t) && IndexOk(t)
    ensures IndexOk(RevokeFlow(t, f))
  {
    var r := RevokeFlow(t, f);
    forall p | p in r.replyIndex ensures IndexedOk(r, p, r.replyIndex[p]) {
      RevokeFlowKeepsIndexed(t, f, p);
    }
  }

  lemma {:induction false} RevokeFlowKeepsIndexed(t: Inner, f: U64, p: Pair)
    requires CellsOk(t) && IndexOk(t) && p in t.replyIndex && p.holder != f && p.target != f
    ensures IndexedOk(RevokeFlow(t, f), p, t.replyIndex[p])
  {
    RevokeFlowKeepsCells(t, f);
    assert IndexedOk(t, p, t.replyIndex[p]);
    RevokeKeepsIndexed(t, RevokeFlow(t, f), p);
  }

  lemma {:induction false} RevokeFlowKeepsInv(t: Inner, f: U64)
    requires Inv(t)
    ensures Inv(RevokeFlow(t, f))
  {
    RevokeFlowKeepsCells(t, f);
    EntriesKept(t, RevokeFlow(t, f));
    RevokeFlowKeepsIndex(t, f);
  }

  lemma {:induction false} RevokeTableKeepsCells(t: Inner, id: U64)
    requires CellsOk(t)
    ensures CellsOk(RevokeTable(t, id))
  {
    var r := RevokeTable(t, id);
    CellsAreDistinct(t);
    if id in t.tableCells {
      assert CellFor(t, t.tableCells[id], Table(id));
      BumpKeepsCells(t, r, t.tableCells[id]);
    } else {
      CellsKept(t, r);
    }
  }

  lemma {:induction false} RevokeTableKeepsIndex(t: Inner, id: U64)
    requires CellsOk(t) && IndexOk(t)
    ensures IndexOk(RevokeTable(t, id))
  {
    var r := RevokeTable(t, id);
    RevokeTableKeepsCells(t, id);
    forall p | p in r.replyIndex ensures IndexedOk(r, p, r.replyIndex[p]) {
      assert IndexedOk(t, p, t.replyIndex[p]);
      RevokeKeepsIndexed(t, r, p);
    }
  }

  lemma {:induction false} RevokeTableKeepsInv(t: Inner, id: U64)
    requires Inv(t)
    ensures Inv(RevokeTable(t, id))
  {
    RevokeTableKeepsCells(t, id);
    EntriesKept(t, RevokeTable(t, id));
    RevokeTableKeepsIndex(t, id);
  }

  // What `mint_or_reuse` can do to a table: at most bind the target and add one
  // entry issued under the target's cell. Other pairs keep their reply address.
  ghost predicate ReplyEffect(t: Inner, r: Inner, p: Pair) {
    var bound := Bind(t, p.target);
    r == t ||
    (&& r.flowCells == bound.flowCells && r.tableCells == t.tableCells && r.owners == bound.owners
     && (forall id | id in r.entries ::
           (id in t.entries && r.entries[id] == t.entries[id]) || r.entries[id].cell == bound.flowCells[p.target])
     && (forall q | q in t.replyIndex && q != p :: q in r.replyIndex && r.replyIndex[q] == t.replyIndex[q]))
  }

  lemma {:induction false} MintOrReuseEffect(t: Inner, p: Pair, rights: Rights, draws: seq<U128>)
    ensures ReplyEffect(t, MintOrReuse(t, p, rights, draws).0, p)
  {
    var bound := Bind(t.(replyIndex := t.replyIndex - {p}), p.target);
    ReplyInsertEffect(bound, p, rights, draws);
  }

  lemma {:induction false} ReplyInsertEffect(t: Inner, p: Pair, rights: Rights, draws: seq<U128>)
    requires p.target in t.flowCells
    ensures
      var r := ReplyInsert(t, p, rights, draws).0;
      && r.flowCells == t.flowCells && r.tableCells == t.tableCells && r.owners == t.owners
      && (forall id | id in r.entries ::
            (id in t.entries && r.entries[id] == t.entries[id]) || r.entries[id].cell == t.flowCells[p.target])
      && (forall q | q in t.replyIndex && q != p :: q in r.replyIndex && r.replyIndex[q] == t.replyIndex[q])
  {
  }

  // A reply address whose rights cover the request is handed out again, and
  // the table does not change.
  lemma {:induction false} ReuseIsStable(t: Inner, p: Pair, rights: Rights, draws: seq<U128>)
    requires Inv(t) && p in t.replyIndex && rights <= t.entries[t.replyIndex[p]].cap.rights
    ensures MintOrReuse(t, p, rights, draws) == (t, Some(t.replyIndex[p]))
  {
    assert IndexedOk(t, p, t.replyIndex[p]);
  }

  // ---------------------------------------------------------------- the object

  class Registry {
    var entries: map<U128, Capability>
    var flowCells: map<U64, nat>
    var tableCells: map<U64, nat>
    var replyIndex: map<Pair, U128>
    var epochs: seq<U64>
    var owners: seq<Target>

    ghost function State(): Inner
      reads this
    {
      Inner(entries, flowCells, tableCells, replyIndex, epochs, owners)
    }

    constructor ()
      ensures State() == New() && Inv(State())
    {
      entries, flowCells, tableCells, replyIndex := map[], map[], map[], map[];
      epochs, owners := [0, 0], [NativeTable, Scheduler];
    }

    method BindFlow(f: U64) returns (cell: nat)
      requires Inv(State())
      modifies this
      ensures State() == Bind(old(State()), f) && cell == flowCells[f] && Inv(State())
      ensures cell < |epochs| && owners[cell] == Flow(f)
    {
      BindKeepsInv(State(), f);
      if f !in flowCells {
        flowCells := flowCells[f := |epochs|];
        epochs, owners := epochs + [0], owners + [Flow(f)];
      }
      cell := flowCells[f];
      assert CellFor(State(), cell, Flow(f));
    }

    method BindTableCell(id: U64)
      requires Inv(State())
      modifies this
      ensures State() == BindTable(old(State()), id) && Inv(State())
    {
      BindTableKeepsInv(State(), id);
      tableCells := tableCells[id := |epochs|];
      epochs, owners := epochs + [0], owners + [Table(id)];
    }

    // `insert` and `insert_fresh`: draw until an id is free, at most 32 times.
    method InsertEntry(e: Capability, draws: seq<U128>) returns (r: Option<U128>)
      requires Inv(State()) && CapOk(State(), e.cap, e.lineage, e.cell)
      modifies this
      ensures (State(), r) == Insert(old(State()), e, draws) && Inv(State())
    {
      InsertKeepsInv(State(), e, draws);
      var k := 0;
      while k < MINT_ATTEMPTS && k < |draws| && draws[k] != 0 && draws[k] in entries
        invariant k <= MINT_ATTEMPTS && k <= |draws|
        invariant FreshId(entries, draws, MINT_ATTEMPTS) == FreshId(entries, draws[k..], MINT_ATTEMPTS - k)
      {
        k := k + 1;
      }
      if k == MINT_ATTEMPTS || k == |draws| || draws[k] == 0 { return None; }
      r := Some(draws[k]);
      entries := entries[draws[k] := e];
    }

    method MintOrReuseId(p: Pair, rights: Rights, draws: seq<U128>) returns (r: Option<U128>)
      requires Inv(State())
      modifies this
      ensures (State(), r) == MintOrReuse(old(State()), p, rights, draws) && Inv(State())
    {
      MintOrReuseKeepsInv(State(), p, rights, draws);
      UnindexKeepsInv(State(), p);
      if p in replyIndex {
        if ReplyIsLive(Inner(entries, flowCells, tableCells, replyIndex, epochs, owners), replyIndex[p], p, rights) {
          return Some(replyIndex[p]);
        }
      }
      replyIndex := replyIndex - {p};
      var cell := BindFlow(p.target);
      r := InsertEntry(Capability(p.holder, Cap(Flow(p.target), rights, None, epochs[cell]), [], cell, true), draws);
      if r.Some? { replyIndex := replyIndex[p := r.value]; }
    }

    // `resolve`: the token, its holder, its rights, then the epoch of the cell
    // its target has now.
    method ResolveId(id: U128, holder: U64, required: Rights) returns (r: Result<Capability, CapError>)
      requires Inv(State())
      ensures r == Resolve(State(), id, holder, required)
      ensures r.Ok? <==>
        && id in entries && id != 0 && entries[id].holder == holder && required <= entries[id].cap.rights
        && IsLive(State(), entries[id].cap)
    {
      if id == 0 || id !in entries { return Err(Unknown); }
      var entry := entries[id];
      if entry.holder != holder { return Err(NotHolder); }
      if !(required <= entry.cap.rights) { return Err(InsufficientRights); }
      var valid;
      match entry.cap.target {
        case Flow(f) => valid := f in flowCells && epochs[flowCells[f]] == entry.cap.epoch;
        case NativeTable => valid := epochs[0] == entry.cap.epoch;
        case Scheduler => valid := epochs[1] == entry.cap.epoch;
        case Table(tid) => valid := tid in tableCells && epochs[tableCells[tid]] == entry.cap.epoch;
      }
      if !valid { return Err(Unknown); }
      return Ok(entry);
    }

    method Revoke(f: U64)
      requires Inv(State())
      modifies this
      ensures State() == RevokeFlow(old(State()), f) && Inv(State())
      ensures f !in flowCells
    {
      ghost var before := State();
      if f in flowCells { epochs := Bump(epochs, flowCells[f]); }
      flowCells := flowCells - {f};
      entries := EntriesWithout(entries, f);
      replyIndex := IndexWithout(replyIndex, f);
      assert State() == RevokeFlow(before, f);
      RevokeFlowKeepsInv(before, f);
    }

    method RevokeTableCell(id: U64)
      requires Inv(State())
      modifies this
      ensures State() == RevokeTable(old(State()), id) && Inv(State())
    {
      ghost var before := State();
      if id in tableCells { epochs := Bump(epochs, tableCells[id]); }
      tableCells := tableCells - {id};
      entries := EntriesWithoutTable(entries, id);
      assert State() == RevokeTable(before, id);
      RevokeTableKeepsInv(before, id);
    }

    // `mint`: bind, read the epoch, insert.
    method Mint(holder: U64, target: U64, rights: Rights, draws: seq<U128>) returns (r: Option<U128>)
      requires Inv(State())
      modifies this
      ensures Inv(State())
      ensures r.Some? ==> Resolve(State(), r.value, holder, rights).Ok?
      ensures forall id | id in old(entries) :: id in entries && entries[id] == old(entries[id])
    {
      var cell := BindFlow(target);
      r := InsertEntry(Capability(holder, Cap(Flow(target), rights, None, epochs[cell]), [], cell, false), draws);
    }

    // `attenuate`, run without interruption.
    method AttenuateId(
      id: U128, fromHolder: U64, toHolder: U64, rights: Rights, mask: Option<NativeMask>, draws: seq<U128>)
      returns (r: Result<U128, CapError>)
      requires Inv(State())
      modifies this
      ensures Inv(State())
      ensures r.Err? ==> State() == old(State())
      ensures r.Ok? ==>
        && Resolve(old(State()), id, fromHolder, NO_RIGHTS).Ok? && r.value !in old(entries)
        && var src := old(entries[id]);
        && r.value in entries && Narrower(entries[r.value].cap, src.cap)
        && entries == old(entries)[r.value :=
             Capability(toHolder, Attenuate(src.cap, rights, mask), src.lineage + [src.cap], src.cell, false)]
    {
      var found := ResolveId(id, fromHolder, NO_RIGHTS);
      if found.Err? { return Err(found.error); }
      var src := found.value;
      if src.cap.target.NativeTable? || src.cap.target.Scheduler? { return Err(WrongTarget); }
      var cell := CellOf(Inner(entries, flowCells, tableCells, replyIndex, epochs, owners), src.cap.target);
      var narrowed := ExecDelegate(src.cap, epochs[cell.value], rights, mask);
      if narrowed.Err? { return Err(if narrowed.error.SourceRevoked? then Unknown else InsufficientRights); }
      DerivedOk(State(), src, rights, mask);
      var new_ := InsertEntry(Capability(toHolder, narrowed.value, src.lineage + [src.cap], src.cell, false), draws);
      return if new_.Some? then Ok(new_.value) else Err(InsertFailed);
    }

    // `reissue_for`, run without interruption: identity attenuation for a new
    // holder.
    method ReissueFor(id: U128, newHolder: U64, draws: seq<U128>) returns (r: Result<U128, CapError>)
      requires Inv(State())
      modifies this
      ensures Inv(State())
      ensures r.Err? ==> State() == old(State())
      ensures r.Ok? ==>
        && id in old(entries) && IsLive(old(State()), old(entries[id]).cap) && r.value !in old(entries)
        && var src := old(entries[id]);
        && r.value in entries && Narrower(entries[r.value].cap, src.cap)
        && entries[r.value].cap.rights == src.cap.rights
        && entries == old(entries)[r.value := Capability(
             newHolder, Attenuate(src.cap, src.cap.rights, src.cap.mask), src.lineage + [src.cap], src.cell, false)]
    {
      if id == 0 || id !in entries { return Err(Unknown); }
      var src := entries[id];
      if !IsLive(Inner(entries, flowCells, tableCells, replyIndex, epochs, owners), src.cap) { return Err(Unknown); }
      var narrowed := Attenuate(src.cap, src.cap.rights, src.cap.mask);
      DerivedOk(State(), src, src.cap.rights, src.cap.mask);
      var new_ := InsertEntry(Capability(newHolder, narrowed, src.lineage + [src.cap], src.cell, false), draws);
      return if new_.Some? then Ok(new_.value) else Err(InsertFailed);
    }
  }

  // An attenuated cap is within its source and everything its source is within.
  lemma {:induction false} DerivedOk(t: Inner, src: Capability, rights: Rights, mask: Option<NativeMask>)
    requires CapOk(t, src.cap, src.lineage, src.cell)
    ensures CapOk(t, Attenuate(src.cap, rights, mask), src.lineage + [src.cap], src.cell)
    ensures Narrower(Attenuate(src.cap, rights, mask), src.cap)
  {
    var cap, lineage := Attenuate(src.cap, rights, mask), src.lineage + [src.cap];
    AttenuateIsMeet(src.cap, rights, mask);
    forall i | 0 <= i < |lineage| ensures Narrower(cap, lineage[i]) {
      if i < |src.lineage| { NarrowerTransitive(cap, src.cap, lineage[i]); }
    }
  }
}
