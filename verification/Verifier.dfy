/**
 The load-time verifier (byteflow/src/bytecode/verify.rs): the spans functions
 occupy in the code, the register file each instruction runs on, the checks on
 every instruction word, and the fall-through check at span ends.
 */
module Verifier {
  import opened Common
  import opened Values
  import opened Trust
  import opened Chunks

  datatype VerifyError =
    | ConstOutOfRange(at: nat, index: U32, len: nat)
    | FunctionOutOfRange(at: nat, index: U32, len: nat)
    | JumpOutOfRange(at: nat, target: int, len: nat)
    | EmptyFunctionTable
    | EntryOutOfRange(fn: nat, entry: U32, len: nat)
    | ArityExceedsRegisters(fn: nat, arity: U8, numRegisters: U8)
    | CallArity(at: nat, callee: U32, argc: U8, arity: U8)
    | ForbiddenConstant(slot: nat, kind: ConstantKind)
    | FallThrough(fn: nat, at: nat, nextEntry: nat)
    | BadImmediate(at: nat, what: string)

  // ------------------------------------------------------------------- spans

  // The smallest entry strictly between `start` and `len`, else `len`.
  function EndAfter(functions: seq<FunctionDef>, start: nat, len: nat): (end: nat) {
    if functions == [] then len
    else
      var end := EndAfter(functions[..|functions| - 1], start, len);
      var entry := functions[|functions| - 1].entry;
      if start < entry < end then entry else end
  }

  // The greatest entry at or before `at`.
  function StartBefore(functions: seq<FunctionDef>, at: nat): (start: Option<nat>) {
    if functions == [] then None
    else
      var start := StartBefore(functions[..|functions| - 1], at);
      var entry := functions[|functions| - 1].entry;
      if entry > at || (start.Some? && start.value >= entry) then start else Some(entry)
  }

  lemma {:induction false} EndAfterIsNextEntry(functions: seq<FunctionDef>, start: nat, len: nat)
    ensures
      var end := EndAfter(functions, start, len);
      && end <= len
      && (forall f | f in functions && f.entry > start :: end <= f.entry)
      && (end < len ==> start < end && exists f | f in functions :: f.entry == end)
      && (start < len ==> start < end)
  {
    if functions != [] {
      var init, last := functions[..|functions| - 1], functions[|functions| - 1];
      EndAfterIsNextEntry(init, start, len);
      assert functions == init + [last];
      assert last in functions && forall f | f in init :: f in functions;
    }
  }

  lemma {:induction false} StartBeforeIsOwner(functions: seq<FunctionDef>, at: nat)
    ensures
      match StartBefore(functions, at)
      case None => forall f | f in functions :: f.entry > at
      case Some(start) =>
        && start <= at
        && (exists f | f in functions :: f.entry == start)
        && (forall f | f in functions && f.entry <= at :: f.entry <= start)
  {
    if functions != [] {
      var init, last := functions[..|functions| - 1], functions[|functions| - 1];
      StartBeforeIsOwner(init, at);
      assert functions == init + [last];
      assert last in functions && forall f | f in init :: f in functions;
    }
  }

  // `exclusive_end`
  method ExclusiveEnd(functions: seq<FunctionDef>, start: nat, len: nat) returns (end: nat)
    ensures end == EndAfter(functions, start, len)
  {
    end := len;
    for k := 0 to |functions|
      invariant end == EndAfter(functions[..k], start, len)
    {
      assert functions[..k + 1][..k] == functions[..k];
      var entry := functions[k].entry;
      if entry > start && entry < end { end := entry; }
    }
    assert functions[..|functions|] == functions;
  }

  datatype Span = Span(start: nat, end: nat)

  // Instruction range of the function that owns `at`, if any.
  function SpanOf(functions: seq<FunctionDef>, at: nat, len: nat): (span: Option<Span>) {
    var start := StartBefore(functions, at);
    if start.None? then None
    else
      var end := EndAfter(functions, start.value, len);
      if at >= end then None else Some(Span(start.value, end))
  }

  // `function_span`
  method FunctionSpan(functions: seq<FunctionDef>, at: nat, len: nat) returns (span: Option<Span>)
    ensures span == SpanOf(functions, at, len)
  {
    var start: Option<nat> := None;
    for k := 0 to |functions|
      invariant start == StartBefore(functions[..k], at)
    {
      assert functions[..k + 1][..k] == functions[..k];
      var entry := functions[k].entry;
      if entry <= at {
        start := Some(if start.Some? && start.value >= entry then start.value else entry);
      }
    }
    assert functions[..|functions|] == functions;
    if start.None? { return None; }
    var end := ExclusiveEnd(functions, start.value, len);
    return if at >= end then None else Some(Span(start.value, end));
  }

  // Inside the code, an instruction has a span as soon as some entry precedes
  // it, and every instruction of a span has that same span.
  lemma {:induction false} SpanIsShared(functions: seq<FunctionDef>, at: nat, other: nat, len: nat)
    requires at < len && SpanOf(functions, at, len).Some?
    requires var Span(start, end) := SpanOf(functions, at, len).value; start <= other < end
    ensures SpanOf(functions, other, len) == SpanOf(functions, at, len)
  {
    var Span(start, end) := SpanOf(functions, at, len).value;
    StartBeforeIsOwner(functions, at);
    StartBeforeIsOwner(functions, other);
    EndAfterIsNextEntry(functions, start, len);
  }

  lemma {:induction false} EntryStartsSpan(functions: seq<FunctionDef>, f: FunctionDef, len: nat)
    requires f in functions && f.entry < len
    ensures SpanOf(functions, f.entry, len) == Some(Span(f.entry, EndAfter(functions, f.entry, len)))
  {
    StartBeforeIsOwner(functions, f.entry);
    EndAfterIsNextEntry(functions, f.entry, len);
  }

  // --------------------------------------------------------- register limits

  // The smallest register file among the functions that start at `entry`.
  function MinRegisters(functions: seq<FunctionDef>, entry: nat): (limit: Option<U8>)
    ensures limit.Some? <==> exists f | f in functions :: f.entry == entry
    ensures limit.Some? ==> forall f | f in functions && f.entry == entry :: limit.value <= f.numRegisters
    ensures limit.Some? ==> exists f | f in functions && f.entry == entry :: limit.value == f.numRegisters
  {
    if functions == [] then None
    else
      var init, last := functions[..|functions| - 1], functions[|functions| - 1];
      assert functions == init + [last];
      assert last in functions && forall f | f in init :: f in functions;
      var limit := MinRegisters(init, entry);
      if last.entry != entry || (limit.Some? && limit.value <= last.numRegisters) then limit
      else Some(last.numRegisters)
  }

  // The register file that runs instruction `at`, by its span.
  function LimitAt(functions: seq<FunctionDef>, at: nat, len: nat): (limit: Option<U8>) {
    match SpanOf(functions, at, len)
    case None => None
    case Some(span) => MinRegisters(functions, span.start)
  }

  predicate StrictlyIncreasing(xs: seq<U32>) {
    forall i, j | 0 <= i < j < |xs| :: xs[i] < xs[j]
  }

  // `sort_unstable` followed by `dedup`.
  method SortedEntries(functions: seq<FunctionDef>) returns (entries: seq<U32>)
    ensures StrictlyIncreasing(entries)
    ensures forall e :: e in entries <==> exists f | f in functions :: f.entry == e
  {
    entries := [];
    for k := 0 to |functions|
      invariant StrictlyIncreasing(entries)
      invariant forall e :: e in entries <==> exists f | f in functions[..k] :: f.entry == e
    {
      var e := functions[k].entry;
      assert functions[..k + 1] == functions[..k] + [functions[k]];
      assert functions[k] in functions[..k + 1] && forall f | f in functions[..k] :: f in functions[..k + 1];
      entries := Insert(entries, e);
    }
    assert functions[..|functions|] == functions;
  }

  method Insert(xs: seq<U32>, x: U32) returns (ys: seq<U32>)
    requires StrictlyIncreasing(xs)
    ensures StrictlyIncreasing(ys)
    ensures forall e :: e in ys <==> e in xs || e == x
  {
    var i := 0;
    while i < |xs| && xs[i] < x
      invariant i <= |xs| && forall j | 0 <= j < i :: xs[j] < x
    {
      i := i + 1;
    }
    if i < |xs| && xs[i] == x { return xs; }
    ys := Inserted(xs, i, x);
    InsertKeepsOrder(xs, i, x);
    InsertAddsOne(xs, i, x);
  }

  function Inserted(xs: seq<U32>, i: nat, x: U32): (ys: seq<U32>)
    requires i <= |xs|
    ensures |ys| == |xs| + 1
    ensures forall k | 0 <= k < |ys| :: ys[k] == if k < i then xs[k] else if k == i then x else xs[k - 1]
  {
    xs[..i] + [x] + xs[i..]
  }

  lemma {:induction false} InsertKeepsOrder(xs: seq<U32>, i: nat, x: U32)
    requires StrictlyIncreasing(xs) && i <= |xs|
    requires (i > 0 ==> xs[i - 1] < x) && (i < |xs| ==> x < xs[i])
    ensures StrictlyIncreasing(Inserted(xs, i, x))
  {
  }

  lemma {:induction false} InsertAddsOne(xs: seq<U32>, i: nat, x: U32)
    requires i <= |xs|
    ensures forall e :: e in Inserted(xs, i, x) <==> e in xs || e == x
  {
    var ys := Inserted(xs, i, x);
    assert ys[i] == x;
    forall k | 0 <= k < |xs| ensures xs[k] in ys { assert xs[k] == ys[if k < i then k else k + 1]; }
  }

  // Every instruction before `upTo` carries the limit of its span, the others none.
  ghost predicate LimitsUpTo(limits: seq<Option<U8>>, functions: seq<FunctionDef>, upTo: nat) {
    forall at | 0 <= at < |limits| ::
      limits[at] == if at < upTo then LimitAt(functions, at, |limits|) else None
  }

  // No instruction before the first entry has a span.
  lemma {:induction false} NoLimitBeforeFirst(functions: seq<FunctionDef>, entries: seq<U32>, at: nat, len: nat)
    requires StrictlyIncreasing(entries)
    requires forall e :: e in entries <==> exists f | f in functions :: f.entry == e
    requires entries == [] || at < entries[0]
    ensures LimitAt(functions, at, len) == None
  {
    StartBeforeIsOwner(functions, at);
    assert forall f | f in functions :: f.entry in entries;
  }

  // Between two consecutive entries, the span starts at the first of them.
  lemma {:induction false} LimitBetween(functions: seq<FunctionDef>, entries: seq<U32>, i: nat, at: nat, len: nat)
    requires StrictlyIncreasing(entries)
    requires forall e :: e in entries <==> exists f | f in functions :: f.entry == e
    requires i < |entries| && entries[i] <= at < len && (i + 1 < |entries| ==> at < entries[i + 1])
    ensures LimitAt(functions, at, len) == MinRegisters(functions, entries[i])
  {
    StartBeforeIsOwner(functions, at);
    assert entries[i] in entries;
    var start := StartBefore(functions, at).value;
    assert start in entries;
    var j :| 0 <= j < |entries| && entries[j] == start;
    assert start == entries[i];
    EndAfterIsNextEntry(functions, start, len);
    if EndAfter(functions, start, len) < len { assert EndAfter(functions, start, len) in entries; }
  }

  // `register_limits`: fills the table span by span, before any entry has been
  // range-checked, and agrees with `function_span` everywhere.
  method RegisterLimits(chunk: Chunk) returns (limits: array<Option<U8>>)
    ensures fresh(limits) && limits.Length == |chunk.code|
    ensures forall at | 0 <= at < limits.Length :: limits[at] == LimitAt(chunk.functions, at, |chunk.code|)
  {
    var functions, len := chunk.functions, |chunk.code|;
    var entries := SortedEntries(functions);
    limits := new Option<U8>[len](_ => None);
    forall at | 0 <= at < len && (entries == [] || at < entries[0]) ensures LimitAt(functions, at, len) == None {
      NoLimitBeforeFirst(functions, entries, at, len);
    }
    for i := 0 to |entries|
      invariant fresh(limits)
      invariant LimitsUpTo(limits[..], functions, if i < |entries| then entries[i] else len)
    {
      var start := entries[i];
      var end := if i + 1 < |entries| then entries[i + 1] else len;
      assert start in entries;
      var limit := MinRegisters(functions, start);
      forall at | start <= at < len && at < end ensures LimitAt(functions, at, len) == limit {
        LimitBetween(functions, entries, i, at, len);
      }
      FillLimits(limits, start, end, limit);
    }
  }

  // `limits.iter_mut().take(end).skip(start)`
  method FillLimits(limits: array<Option<U8>>, start: nat, end: nat, limit: Option<U8>)
    modifies limits
    ensures forall at | 0 <= at < limits.Length ::
      limits[at] == if start <= at < end then limit else old(limits[at])
  {
    var at := start;
    while at < end && at < limits.Length
      invariant start <= at
      invariant forall k | 0 <= k < limits.Length ::
        limits[k] == if start <= k < at && k < end then limit else old(limits[k])
    {
      limits[at] := limit;
      at := at + 1;
    }
  }

  // ------------------------------------------------------------- instructions

  function CheckSlot(at: nat, reg: U8, limit: U8, what: string): (e: Option<VerifyError>) {
    if reg < limit then None else Some(BadImmediate(at, what))
  }

  function CheckWindow(at: nat, base: U8, extra: nat, count: U8, limit: U8): (e: Option<VerifyError>) {
    if count == 0 || base + extra + count <= limit then None else Some(BadImmediate(at, "register window"))
  }

  function CheckPack(at: nat, base: U8, count: I32, width: nat, max: nat): (e: Option<VerifyError>) {
    if !(0 <= count <= max) then Some(BadImmediate(at, "pack length"))
    else if count == 0 || base + count * width <= 255 then None
    else Some(BadImmediate(at, "pack window"))
  }

  function OrElse(first: Option<VerifyError>, second: Option<VerifyError>): Option<VerifyError> {
    if first.Some? then first else second
  }

  // `Call`, `TailCall` and `Spawn`: the callee, its arity, then the window.
  function CheckCall(chunk: Chunk, at: nat, instr: Instruction, limit: Option<U8>): (e: Option<VerifyError>) {
    var idx := AsU32(instr.imm);
    if idx >= |chunk.functions| then Some(FunctionOutOfRange(at, idx, |chunk.functions|))
    else if instr.b != chunk.functions[idx].arity then Some(CallArity(at, idx, instr.b, chunk.functions[idx].arity))
    else if limit.None? then None
    else OrElse(CheckSlot(at, instr.a, limit.value, "destination register"),
                CheckWindow(at, instr.a, if instr.op == SPAWN then 1 else 0, instr.b, limit.value))
  }

  function CheckStartChild(chunk: Chunk, at: nat, instr: Instruction, limit: Option<U8>): (e: Option<VerifyError>) {
    var idx := AsU32(instr.imm);
    if idx >= |chunk.functions| then Some(FunctionOutOfRange(at, idx, |chunk.functions|))
    else if chunk.functions[idx].arity != 0 then Some(CallArity(at, idx, 0, chunk.functions[idx].arity))
    else if instr.b > 2 then Some(BadImmediate(at, "restart policy"))
    else if limit.None? then None
    else CheckSlot(at, instr.a, limit.value, "destination register")
  }

  function CheckNative(at: nat, instr: Instruction, limit: Option<U8>): (e: Option<VerifyError>) {
    if limit.None? then None
    else if instr.op == CALL_NATIVE_FROM then
      OrElse(CheckSlot(at, instr.a, limit.value, "destination register"),
             CheckSlot(at, instr.b, limit.value, "source register"))
    else CheckWindow(at, instr.a, 0, instr.b, limit.value)
  }

  function CheckJump(at: nat, instr: Instruction, span: Option<Span>, len: nat): (e: Option<VerifyError>) {
    var target := at + 1 + instr.imm;
    if target < 0 || target > len then Some(JumpOutOfRange(at, target, len))
    else if span.Some? && target != len && (target < span.value.start || target >= span.value.end) then
      Some(JumpOutOfRange(at, target, len))
    else None
  }

  predicate IsJump(op: Opcode) {
    op == JUMP || op == BRANCH || op == BRANCH_TRUE
  }

  // One turn of the instruction loop.
  function CheckInstruction(chunk: Chunk, at: nat, instr: Instruction, limit: Option<U8>, span: Option<Span>)
    : (e: Option<VerifyError>)
  {
    var op := instr.op;
    if op == LOAD_CONST then
      var idx := AsU32(instr.imm);
      if idx >= |chunk.constants| then Some(ConstOutOfRange(at, idx, |chunk.constants|)) else None
    else if op == CALL || op == TAIL_CALL || op == SPAWN then CheckCall(chunk, at, instr, limit)
    else if op == START_CHILD then CheckStartChild(chunk, at, instr, limit)
    else if op == CALL_NATIVE || op == CALL_NATIVE_FROM then CheckNative(at, instr, limit)
    else if op == LIST_PACK then CheckPack(at, instr.b, instr.imm, 1, MAX_LIST_LEN)
    else if op == RECORD_PACK then CheckPack(at, instr.b, instr.imm, 1, MAX_RECORD_LEN)
    else if op == MAP_PACK then CheckPack(at, instr.b, instr.imm, 2, MAX_MAP_LEN)
    else if op == RECEIVE_MATCH_KIND then
      if 0 <= instr.imm <= 10 then None else Some(BadImmediate(at, "payload kind"))
    else if op == RECEIVE_MATCH_CMP then
      if 0 <= instr.imm <= 2 then None else Some(BadImmediate(at, "compare immediate"))
    else if op == RECEIVE_MATCH_IMM || op == RECEIVE_MATCH_CORR_IMM then
      if 0 <= instr.imm < 0x1_0000 then None else Some(BadImmediate(at, "tag immediate"))
    else if op == SET_RESTART_POLICY then
      if 0 <= instr.imm <= 2 then None else Some(BadImmediate(at, "restart policy"))
    else if op == ASK_TIMEOUT then
      if limit.None? || 0 <= instr.imm < limit.value then None else Some(BadImmediate(at, "millis register"))
    else if IsJump(op) then CheckJump(at, instr, span, |chunk.code|)
    else None
  }

  predicate IsTerminator(op: Opcode) {
    op == JUMP || op == RETURN || op == HALT || op == EXIT || op == TRAP || op == TAIL_CALL
  }

  // ------------------------------------------------------------- whole chunk

  // The first refusal of each loop of `verify_with`, from position `k` on.
  function ConstantError(chunk: Chunk, trust: TrustLevel, k: nat): (e: Option<VerifyError>)
    requires k <= |chunk.constants|
    decreases |chunk.constants| - k
  {
    if k == |chunk.constants| then None
    else match ValidateConstant(chunk.constants[k], trust)
      case Some(kind) => Some(ForbiddenConstant(k, kind))
      case None => ConstantError(chunk, trust, k + 1)
  }

  function CheckFunction(chunk: Chunk, fn: nat): (e: Option<VerifyError>)
    requires fn < |chunk.functions|
  {
    var def := chunk.functions[fn];
    if def.entry >= |chunk.code| then Some(EntryOutOfRange(fn, def.entry, |chunk.code|))
    else if def.arity > def.numRegisters then Some(ArityExceedsRegisters(fn, def.arity, def.numRegisters))
    else None
  }

  function FunctionError(chunk: Chunk, k: nat): (e: Option<VerifyError>)
    requires k <= |chunk.functions|
    decreases |chunk.functions| - k
  {
    if k == |chunk.functions| then None
    else if CheckFunction(chunk, k).Some? then CheckFunction(chunk, k)
    else FunctionError(chunk, k + 1)
  }

  function CheckAt(chunk: Chunk, at: nat): (e: Option<VerifyError>)
    requires at < |chunk.code|
  {
    var len := |chunk.code|;
    CheckInstruction(chunk, at, chunk.code[at], LimitAt(chunk.functions, at, len), SpanOf(chunk.functions, at, len))
  }

  function CodeError(chunk: Chunk, k: nat): (e: Option<VerifyError>)
    requires k <= |chunk.code|
    decreases |chunk.code| - k
  {
    if k == |chunk.code| then None
    else if CheckAt(chunk, k).Some? then CheckAt(chunk, k)
    else CodeError(chunk, k + 1)
  }

  function CheckClosed(chunk: Chunk, fn: nat): (e: Option<VerifyError>)
    requires fn < |chunk.functions|
  {
    var start, len := chunk.functions[fn].entry, |chunk.code|;
    var end := EndAfter(chunk.functions, start, len);
    if end >= len || end <= start then None
    else if IsTerminator(chunk.code[end - 1].op) then None
    else Some(FallThrough(fn, end - 1, end))
  }

  function FallThroughError(chunk: Chunk, k: nat): (e: Option<VerifyError>)
    requires k <= |chunk.functions|
    decreases |chunk.functions| - k
  {
    if k == |chunk.functions| then None
    else if CheckClosed(chunk, k).Some? then CheckClosed(chunk, k)
    else FallThroughError(chunk, k + 1)
  }

  // The refusal of the whole verifier: the first one in the order of its loops.
  function Refusal(chunk: Chunk, trust: TrustLevel): (e: Option<VerifyError>) {
    if chunk.functions == [] then Some(EmptyFunctionTable)
    else OrElse(ConstantError(chunk, trust, 0),
         OrElse(FunctionError(chunk, 0), OrElse(CodeError(chunk, 0), FallThroughError(chunk, 0))))
  }

  // What acceptance means, position by position.
  ghost predicate Accepted(chunk: Chunk, trust: TrustLevel) {
    && chunk.functions != []
    && (forall i | 0 <= i < |chunk.constants| :: ValidateConstant(chunk.constants[i], trust).None?)
    && (forall f | 0 <= f < |chunk.functions| :: CheckFunction(chunk, f).None?)
    && (forall at | 0 <= at < |chunk.code| :: CheckAt(chunk, at).None?)
    && (forall f | 0 <= f < |chunk.functions| :: CheckClosed(chunk, f).None?)
  }

  lemma {:induction false} NoConstantError(chunk: Chunk, trust: TrustLevel, k: nat)
    requires k <= |chunk.constants|
    ensures ConstantError(chunk, trust, k).None? <==>
      forall i | k <= i < |chunk.constants| :: ValidateConstant(chunk.constants[i], trust).None?
    decreases |chunk.constants| - k
  {
    if k < |chunk.constants| { NoConstantError(chunk, trust, k + 1); }
  }

  lemma {:induction false} NoFunctionError(chunk: Chunk, k: nat)
    requires k <= |chunk.functions|
    ensures FunctionError(chunk, k).None? <==> forall f | k <= f < |chunk.functions| :: CheckFunction(chunk, f).None?
    decreases |chunk.functions| - k
  {
    if k < |chunk.functions| { NoFunctionError(chunk, k + 1); }
  }

  lemma {:induction false} NoCodeError(chunk: Chunk, k: nat)
    requires k <= |chunk.code|
    ensures CodeError(chunk, k).None? <==> forall at | k <= at < |chunk.code| :: CheckAt(chunk, at).None?
    decreases |chunk.code| - k
  {
    if k < |chunk.code| {
      NoCodeError(chunk, k + 1);
      CodeErrorHead(chunk, k);
      ClearFrom(chunk, k);
    }
  }

  lemma {:induction false} ClearFrom(chunk: Chunk, k: nat)
    requires k < |chunk.code|
    ensures (forall at | k <= at < |chunk.code| :: CheckAt(chunk, at).None?) <==>
      CheckAt(chunk, k).None? && forall at | k + 1 <= at < |chunk.code| :: CheckAt(chunk, at).None?
  {
  }

  lemma {:induction false} CodeErrorHead(chunk: Chunk, k: nat)
    requires k < |chunk.code|
    ensures CodeError(chunk, k).None? <==> CheckAt(chunk, k).None? && CodeError(chunk, k + 1).None?
  {
  }

  lemma {:induction false} NoFallThrough(chunk: Chunk, k: nat)
    requires k <= |chunk.functions|
    ensures FallThroughError(chunk, k).None? <==> forall f | k <= f < |chunk.functions| :: CheckClosed(chunk, f).None?
    decreases |chunk.functions| - k
  {
    if k < |chunk.functions| { NoFallThrough(chunk, k + 1); }
  }

  lemma {:induction false} AcceptedIsNoRefusal(chunk: Chunk, trust: TrustLevel)
    ensures Refusal(chunk, trust).None? <==> Accepted(chunk, trust)
  {
    NoConstantError(chunk, trust, 0);
    NoFunctionError(chunk, 0);
    NoCodeError(chunk, 0);
    NoFallThrough(chunk, 0);
  }

  // `verify_with`
  method VerifyWith(chunk: Chunk, trust: TrustLevel) returns (refusal: Option<VerifyError>)
    ensures refusal == Refusal(chunk, trust)
    ensures refusal.None? <==> Accepted(chunk, trust)
  {
    AcceptedIsNoRefusal(chunk, trust);
    if chunk.functions == [] { return Some(EmptyFunctionTable); }
    for i := 0 to |chunk.constants|
      invariant ConstantError(chunk, trust, 0) == ConstantError(chunk, trust, i)
    {
      var kind := ValidateConstant(chunk.constants[i], trust);
      if kind.Some? { return Some(ForbiddenConstant(i, kind.value)); }
    }
    var limits := RegisterLimits(chunk);
    for f := 0 to |chunk.functions|
      invariant FunctionError(chunk, 0) == FunctionError(chunk, f)
    {
      var def := chunk.functions[f];
      if def.entry >= |chunk.code| { return Some(EntryOutOfRange(f, def.entry, |chunk.code|)); }
      if def.arity > def.numRegisters { return Some(ArityExceedsRegisters(f, def.arity, def.numRegisters)); }
    }
    refusal := VerifyCode(chunk, limits);
    if refusal.Some? { return; }
    refusal := RejectFallThrough(chunk);
  }

  // The instruction loop of `verify_with`.
  method VerifyCode(chunk: Chunk, limits: array<Option<U8>>) returns (refusal: Option<VerifyError>)
    requires limits.Length == |chunk.code|
    requires forall at | 0 <= at < limits.Length :: limits[at] == LimitAt(chunk.functions, at, |chunk.code|)
    ensures refusal == CodeError(chunk, 0)
  {
    for at := 0 to |chunk.code|
      invariant CodeError(chunk, 0) == CodeError(chunk, at)
    {
      var span := None;
      if IsJump(chunk.code[at].op) { span := FunctionSpan(chunk.functions, at, |chunk.code|); }
      refusal := CheckInstruction(chunk, at, chunk.code[at], limits[at], span);
      assert refusal == CheckAt(chunk, at);
      if refusal.Some? { return; }
    }
    return None;
  }

  // `reject_fallthrough`
  method RejectFallThrough(chunk: Chunk) returns (refusal: Option<VerifyError>)
    ensures refusal == FallThroughError(chunk, 0)
  {
    var len := |chunk.code|;
    for f := 0 to |chunk.functions|
      invariant FallThroughError(chunk, 0) == FallThroughError(chunk, f)
    {
      var start := chunk.functions[f].entry;
      var end := ExclusiveEnd(chunk.functions, start, len);
      if end < len && end > start && !IsTerminator(chunk.code[end - 1].op) {
        return Some(FallThrough(f, end - 1, end));
      }
    }
    return None;
  }
}
