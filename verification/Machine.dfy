/**
 The frame-stack machine that runs a chunk (byteflow/src/vm/machine/mod.rs,
 heap.rs and byteflow/src/vm/frame.rs), and the soundness of the verifier for
 it: no run of an accepted chunk leaves the shape the verifier promises.

 Control flow, calls, returns, spawns and register windows are the source's.
 What every other opcode does is left to the `Host` of the step: it may write
 any values into the running frame's registers, or refuse.
 */
module Machine {
  import opened Common
  import opened Values
  import opened Trust
  import opened Chunks
  import opened Verifier

  const MAX_CALL_DEPTH := 4096

  datatype Frame = Frame(fn: nat, pc: nat, dest: Option<U8>, registers: seq<Value>)

  datatype Fault =
    | BadConstant | BadFunction | BadArity | BadJump | BadPolicy
    | RegisterOutOfRange(reg: nat) | RegisterIndexOverflow
    | CallStackOverflow | EmptyStack | Explicit | Refused

  // What the scheduler is asked to do.
  datatype Effect =
    | SpawnFlow(fn: U32, args: seq<Value>, dest: U8)
    | StartChild(fn: U32, policy: U8, dest: U8)

  // One step's worth of everything outside this model: quotas and natives that
  // may refuse, the value a native returns, the registers other opcodes leave.
  datatype Host = Host(refuse: bool, value: Value, registers: seq<Value>)

  datatype Outcome =
    | Continue(frames: seq<Frame>, effects: seq<Effect>)
    | Complete(value: Value)
    | Trap(fault: Fault)

  predicate IsTruthy(v: Value) {
    match v
    case Unit => false
    case Bool(b) => b
    case Int(i) => i != 0
    case Str(text) => text != ""
    case Blob(data) => data != []
    case List(items) => items != []
    case Record(fields) => fields != []
    case Map(entries) => entries != []
    case _ => true
  }

  function Units(n: nat): (rs: seq<Value>)
    ensures |rs| == n && forall i | 0 <= i < n :: rs[i] == Unit
  {
    seq(n, _ => Unit)
  }

  function Top(frames: seq<Frame>): Frame
    requires frames != []
  {
    frames[|frames| - 1]
  }

  function WithTop(frames: seq<Frame>, top: Frame): (r: seq<Frame>)
    requires frames != []
    ensures |r| == |frames| && Top(r) == top && r[..|r| - 1] == frames[..|frames| - 1]
  {
    frames[|frames| - 1 := top]
  }

  // `gather_regs`: consecutive registers, read one by one.
  function Gather(registers: seq<Value>, base: U8, argc: nat, first: nat): (r: Result<seq<Value>, Fault>)
    ensures r.Ok? ==> |r.value| == argc
    decreases argc
  {
    if argc == 0 then Ok([])
    else
      var args :- Gather(registers, base, argc - 1, first);
      var reg := base + first + (argc - 1);
      if reg > 255 then Err(RegisterIndexOverflow)
      else if reg >= |registers| then Err(RegisterOutOfRange(reg))
      else Ok(args + [registers[reg]])
  }

  // `Frame::new`, `set_pc` and `load_frame_args`.
  function Enter(def: FunctionDef, fn: nat, dest: Option<U8>, args: seq<Value>): (r: Result<Frame, Fault>)
    requires |args| <= def.arity
  {
    if |args| > def.numRegisters then Err(RegisterOutOfRange(def.numRegisters))
    else Ok(Frame(fn, def.entry, dest, args + Units(def.numRegisters - |args|)))
  }

  // `Vm::new`: extra arguments are dropped, missing ones stay `Unit`.
  function Start(chunk: Chunk, fn: U32, args: seq<Value>): (r: Result<seq<Frame>, Fault>) {
    if fn >= |chunk.functions| then Err(BadFunction)
    else
      var def := chunk.functions[fn];
      var frame :- Enter(def, fn, None, if |args| > def.arity then args[..def.arity] else args);
      Ok([frame])
  }

  // ------------------------------------------------------------------ opcodes

  // `apply_relative_jump`, from the pc after the fetch.
  function JumpBy(frames: seq<Frame>, imm: I32, len: nat): (r: Outcome)
    requires frames != []
  {
    var top := Top(frames);
    var target := top.pc + imm;
    if target < 0 || target > len then Trap(BadJump) else Continue(WithTop(frames, top.(pc := target)), [])
  }

  function SetReg(frames: seq<Frame>, reg: U8, value: Value, host: Host): (r: Outcome) {
    if frames == [] then Trap(EmptyStack)
    else
      var top := Top(frames);
      if reg >= |top.registers| then Trap(RegisterOutOfRange(reg))
      else if host.refuse then Trap(Refused)
      else Continue(WithTop(frames, top.(registers := top.registers[reg := value])), [])
  }

  // `pop_frame`
  function PopFrame(frames: seq<Frame>, value: Value, host: Host): (r: Outcome)
    requires frames != []
  {
    match Top(frames).dest
    case None => if host.refuse then Trap(Refused) else Complete(value)
    case Some(dest) => SetReg(frames[..|frames| - 1], dest, value, host)
  }

  function Invoke(chunk: Chunk, frames: seq<Frame>, instr: Instruction, host: Host): (r: Outcome)
    requires frames != []
  {
    var tail := instr.op == TAIL_CALL;
    var fn := AsU32(instr.imm);
    if !tail && |frames| >= MAX_CALL_DEPTH then Trap(CallStackOverflow)
    else if fn >= |chunk.functions| then Trap(BadFunction)
    else
      var def := chunk.functions[fn];
      if instr.b != def.arity then Trap(BadArity)
      else match Gather(Top(frames).registers, instr.a, instr.b, 0)
        case Err(fault) => Trap(fault)
        case Ok(args) =>
          if host.refuse then Trap(Refused)
          else match Enter(def, fn, if tail then Top(frames).dest else Some(instr.a), args)
            case Err(fault) => Trap(fault)
            case Ok(frame) =>
              Continue((if tail then frames[..|frames| - 1] else frames) + [frame], [])
  }

  function Spawn(frames: seq<Frame>, instr: Instruction, host: Host): (r: Outcome)
    requires frames != []
  {
    match Gather(Top(frames).registers, instr.a, instr.b, 1)
    case Err(fault) => Trap(fault)
    case Ok(args) => Resume(frames, [SpawnFlow(AsU32(instr.imm), args, instr.a)], host)
  }

  function StartOneChild(chunk: Chunk, frames: seq<Frame>, instr: Instruction, host: Host): (r: Outcome)
    requires frames != []
  {
    var fn: U32 := if instr.imm >= 0 then instr.imm else 0xFFFF_FFFF;
    if fn >= |chunk.functions| then Trap(BadFunction)
    else if instr.b > 2 then Trap(BadPolicy)
    else Resume(frames, [StartChild(fn, instr.b, instr.a)], host)
  }

  function Native(frames: seq<Frame>, instr: Instruction, host: Host): (r: Outcome)
    requires frames != []
  {
    var from := instr.op == CALL_NATIVE_FROM;
    if host.refuse then Trap(Refused)
    else match Gather(Top(frames).registers, if from then instr.b else instr.a, if from then 1 else instr.b, 0)
      case Err(fault) => Trap(fault)
      case Ok(args) => SetReg(frames, instr.a, host.value, host)
  }

  // The frame goes on with whatever values the host leaves in its registers.
  function Resume(frames: seq<Frame>, effects: seq<Effect>, host: Host): (r: Outcome)
    requires frames != []
  {
    var top := Top(frames);
    if host.refuse then Trap(Refused)
    else if |host.registers| != |top.registers| then Continue(frames, effects)
    else Continue(WithTop(frames, top.(registers := host.registers)), effects)
  }

  function WithReg(frames: seq<Frame>, reg: U8, next: Value -> Outcome): (r: Outcome)
    requires frames != []
  {
    if reg >= |Top(frames).registers| then Trap(RegisterOutOfRange(reg)) else next(Top(frames).registers[reg])
  }

  // One instruction, with the pc already advanced.
  function Execute(chunk: Chunk, frames: seq<Frame>, instr: Instruction, host: Host): (r: Outcome)
    requires frames != []
  {
    var op := instr.op;
    if op == HALT then WithReg(frames, 0, v => Complete(v))
    else if op == EXIT then WithReg(frames, instr.a, v => Complete(v))
    else if op == RETURN then WithReg(frames, instr.a, v => PopFrame(frames, v, host))
    else if op == TRAP then Trap(Explicit)
    else if op == LOAD_CONST then
      if AsU32(instr.imm) >= |chunk.constants| then Trap(BadConstant)
      else SetReg(frames, instr.a, chunk.constants[AsU32(instr.imm)], host)
    else if op == JUMP then JumpBy(frames, instr.imm, |chunk.code|)
    else if op == BRANCH then
      WithReg(frames, instr.a, v =>
        if IsTruthy(v) then Continue(frames, []) else JumpBy(frames, instr.imm, |chunk.code|))
    else if op == BRANCH_TRUE then
      WithReg(frames, instr.a, v =>
        if IsTruthy(v) then JumpBy(frames, instr.imm, |chunk.code|) else Continue(frames, []))
    else if op == CALL || op == TAIL_CALL then Invoke(chunk, frames, instr, host)
    else if op == SPAWN then Spawn(frames, instr, host)
    else if op == START_CHILD then StartOneChild(chunk, frames, instr, host)
    else if op == CALL_NATIVE || op == CALL_NATIVE_FROM then Native(frames, instr, host)
    else Resume(frames, [], host)
  }

  // One turn of the `run` loop: past the end of the code is an implicit return.
  function Step(chunk: Chunk, frames: seq<Frame>, host: Host): (r: Outcome) {
    if frames == [] then Trap(EmptyStack)
    else
      var top := Top(frames);
      if top.pc >= |chunk.code| then PopFrame(frames, Unit, host)
      else Execute(chunk, WithTop(frames, top.(pc := top.pc + 1)), chunk.code[top.pc], host)
  }

  // A run: one host answer per step, until the flow stops. The effects of all
  // steps are kept in order.
  function Run(chunk: Chunk, frames: seq<Frame>, hosts: seq<Host>): (r: Outcome)
    decreases |hosts|
  {
    if hosts == [] then Continue(frames, [])
    else match Step(chunk, frames, hosts[0])
      case Continue(next, effects) =>
        (match Run(chunk, next, hosts[1..])
         case Continue(last, more) => Continue(last, effects + more)
         case stopped => stopped)
      case stopped => stopped
  }

  // ------------------------------------------------------------- the promise

  // The frame runs a function of the table on that function's register file,
  // inside that function's own span or past the end of the code.
  ghost predicate FrameOk(chunk: Chunk, frame: Frame) {
    && frame.fn < |chunk.functions|
    && var def := chunk.functions[frame.fn];
    && |frame.registers| == def.numRegisters
    && (frame.pc == |chunk.code| || def.entry <= frame.pc < EndAfter(chunk.functions, def.entry, |chunk.code|))
  }

  // Where the value a frame returns goes: nowhere for the outermost frame, a
  // register of the caller for the others.
  ghost predicate DestOk(frames: seq<Frame>, i: nat)
    requires i < |frames|
  {
    if i == 0 then frames[0].dest.None?
    else frames[i].dest.Some? && frames[i].dest.value < |frames[i - 1].registers|
  }

  ghost predicate InShape(chunk: Chunk, frames: seq<Frame>) {
    && 1 <= |frames| <= MAX_CALL_DEPTH
    && (forall i | 0 <= i < |frames| :: FrameOk(chunk, frames[i]))
    && (forall i | 0 <= i < |frames| :: DestOk(frames, i))
  }

  // What the interpreter relies on at the instruction a frame is about to run:
  // where it can go next, and what it names.
  ghost predicate Promised(chunk: Chunk, frame: Frame) {
    frame.pc < |chunk.code| ==>
      var instr := chunk.code[frame.pc];
      && OperandsFit(chunk, instr, |frame.registers|)
      && (IsJump(instr.op) ==> JumpStaysInside(chunk, frame, frame.pc + 1 + instr.imm))
      && (!IsTerminator(instr.op) ==> JumpStaysInside(chunk, frame, frame.pc + 1))
  }

  // Indices in range, arities that match, windows inside `n` registers.
  ghost predicate OperandsFit(chunk: Chunk, instr: Instruction, n: nat) {
    var op, idx := instr.op, AsU32(instr.imm);
    && (op == LOAD_CONST ==> idx < |chunk.constants|)
    && (op == CALL || op == TAIL_CALL || op == SPAWN ==>
        idx < |chunk.functions| && instr.b == chunk.functions[idx].arity && instr.a < n)
    && (op == CALL || op == TAIL_CALL || op == CALL_NATIVE ==> instr.b == 0 || instr.a + instr.b <= n)
    && (op == SPAWN ==> instr.b == 0 || instr.a + 1 + instr.b <= n)
    && (op == START_CHILD ==>
        idx < |chunk.functions| && chunk.functions[idx].arity == 0 && instr.b <= 2 && instr.a < n)
    && (op == CALL_NATIVE_FROM ==> instr.a < n && instr.b < n)
    && (op == ASK_TIMEOUT ==> 0 <= instr.imm < n)
  }

  ghost predicate JumpStaysInside(chunk: Chunk, frame: Frame, target: int) {
    && frame.fn < |chunk.functions|
    && var def := chunk.functions[frame.fn];
    target == |chunk.code| || def.entry <= target < EndAfter(chunk.functions, def.entry, |chunk.code|)
  }

  // The running instruction's span and register limit are its frame's own,
  // even when several functions share the entry.
  lemma {:induction false} FrameOwnsItsSpan(chunk: Chunk, trust: TrustLevel, frame: Frame)
    requires Accepted(chunk, trust) && FrameOk(chunk, frame) && frame.pc < |chunk.code|
    ensures
      var functions, len := chunk.functions, |chunk.code|;
      var entry := functions[frame.fn].entry;
      && SpanOf(functions, frame.pc, len) == Some(Span(entry, EndAfter(functions, entry, len)))
      && LimitAt(functions, frame.pc, len).Some?
      && LimitAt(functions, frame.pc, len).value <= |frame.registers|
  {
    var functions, len := chunk.functions, |chunk.code|;
    var def := functions[frame.fn];
    assert CheckFunction(chunk, frame.fn).None?;
    EntryStartsSpan(functions, def, len);
    SpanIsShared(functions, def.entry, frame.pc, len);
  }

  // The last instruction of a span that another function follows is a terminator.
  lemma {:induction false} NextStaysInside(chunk: Chunk, trust: TrustLevel, frame: Frame)
    requires Accepted(chunk, trust) && FrameOk(chunk, frame) && frame.pc < |chunk.code|
    requires !IsTerminator(chunk.code[frame.pc].op)
    ensures JumpStaysInside(chunk, frame, frame.pc + 1)
  {
    assert CheckClosed(chunk, frame.fn).None?;
    EndAfterIsNextEntry(chunk.functions, chunk.functions[frame.fn].entry, |chunk.code|);
  }

  lemma {:induction false} CheckedOperandsFit(
    chunk: Chunk, at: nat, instr: Instruction, limit: U8, span: Option<Span>, n: nat)
    requires CheckInstruction(chunk, at, instr, Some(limit), span).None? && limit <= n
    ensures OperandsFit(chunk, instr, n)
  {
  }

  lemma {:induction false} CheckedJumpStays(chunk: Chunk, frame: Frame, instr: Instruction, limit: Option<U8>)
    requires frame.fn < |chunk.functions| && IsJump(instr.op)
    requires
      var entry := chunk.functions[frame.fn].entry;
      var span := Span(entry, EndAfter(chunk.functions, entry, |chunk.code|));
      CheckInstruction(chunk, frame.pc, instr, limit, Some(span)).None?
    ensures JumpStaysInside(chunk, frame, frame.pc + 1 + instr.imm)
  {
  }

  // Acceptance makes the promise true of every frame in shape.
  lemma {:induction false} AcceptedKeepsPromise(chunk: Chunk, trust: TrustLevel, frame: Frame)
    requires Accepted(chunk, trust) && FrameOk(chunk, frame)
    ensures Promised(chunk, frame)
  {
    if frame.pc < |chunk.code| {
      var instr, limit := chunk.code[frame.pc], LimitAt(chunk.functions, frame.pc, |chunk.code|);
      assert CheckAt(chunk, frame.pc).None?;
      FrameOwnsItsSpan(chunk, trust, frame);
      var span := SpanOf(chunk.functions, frame.pc, |chunk.code|);
      CheckedOperandsFit(chunk, frame.pc, instr, limit.value, span, |frame.registers|);
      if IsJump(instr.op) { CheckedJumpStays(chunk, frame, instr, limit); }
      if !IsTerminator(instr.op) { NextStaysInside(chunk, trust, frame); }
    }
  }

  // ---------------------------------------------------------------- one step

  // A window inside the register file gathers exactly its registers.
  lemma {:induction false} WindowGathers(registers: seq<Value>, base: U8, argc: nat, first: nat)
    requires argc == 0 || base + first + argc <= |registers| <= 255
    ensures Gather(registers, base, argc, first)
      == Ok(if argc == 0 then [] else registers[base + first..base + first + argc])
  {
    if argc > 0 {
      WindowGathers(registers, base, argc - 1, first);
      var lo := base + first;
      assert registers[lo..lo + argc] == registers[lo..lo + argc - 1] + [registers[lo + argc - 1]];
    }
  }

  // More functions than a signed immediate can index. The verifier reads the
  // immediate of `StartChild` as `u32`, the machine refuses a negative one.
  predicate HugeTable(chunk: Chunk) {
    |chunk.functions| > 0x8000_0000
  }

  // An effect the scheduler can carry out: the callee exists, takes exactly
  // these arguments, and the result has a register to land in.
  ghost predicate EffectOk(chunk: Chunk, effect: Effect, registers: nat) {
    && effect.fn < |chunk.functions|
    && effect.dest < registers
    && match effect
       case SpawnFlow(fn, args, _) => chunk.functions[fn].arity == |args|
       case StartChild(fn, policy, _) => policy <= 2 && (chunk.functions[fn].arity == 0 || HugeTable(chunk))
  }

  // The only faults left to the instruction a frame is about to run.
  ghost predicate FaultAllowed(chunk: Chunk, frames: seq<Frame>, fault: Fault)
    requires frames != []
  {
    var top := Top(frames);
    fault == Refused ||
    (top.pc < |chunk.code| &&
     var instr := chunk.code[top.pc];
     var op, n := instr.op, |top.registers|;
     match fault
     case CallStackOverflow => op == CALL && |frames| == MAX_CALL_DEPTH
     case Explicit => op == TRAP
     case BadFunction => op == START_CHILD && instr.imm < 0 && HugeTable(chunk)
     case RegisterOutOfRange(reg) =>
       && reg >= n
       && ((op == HALT && reg == 0)
           || ((op == EXIT || op == RETURN || op == LOAD_CONST || op == BRANCH || op == BRANCH_TRUE) && reg == instr.a)
           || (op == CALL_NATIVE && instr.b == 0 && reg == instr.a))
     case _ => false)
  }

  ghost predicate StepOk(chunk: Chunk, frames: seq<Frame>, r: Outcome)
    requires frames != []
  {
    match r
    case Continue(next, effects) =>
      InShape(chunk, next) && forall e | e in effects :: EffectOk(chunk, e, |Top(frames).registers|)
    case Complete(_) => true
    case Trap(fault) => FaultAllowed(chunk, frames, fault)
  }

  // Replacing the running frame by one of the same function and register count.
  lemma {:induction false} WithTopInShape(chunk: Chunk, frames: seq<Frame>, top: Frame)
    requires InShape(chunk, frames) && FrameOk(chunk, top)
    requires top.fn == Top(frames).fn && top.dest == Top(frames).dest
    ensures InShape(chunk, WithTop(frames, top))
  {
    var next := WithTop(frames, top);
    forall i | 0 <= i < |next| ensures DestOk(next, i) { assert DestOk(frames, i); }
  }

  lemma {:induction false} PopInShape(chunk: Chunk, frames: seq<Frame>)
    requires InShape(chunk, frames) && |frames| > 1
    ensures InShape(chunk, frames[..|frames| - 1])
  {
    var next := frames[..|frames| - 1];
    forall i | 0 <= i < |next| ensures DestOk(next, i) { assert DestOk(frames, i); }
  }

  lemma {:induction false} PopFrameOk(chunk: Chunk, frames: seq<Frame>, value: Value, host: Host)
    requires InShape(chunk, frames)
    ensures
      match PopFrame(frames, value, host)
      case Continue(next, effects) => InShape(chunk, next) && effects == []
      case Complete(_) => true
      case Trap(fault) => fault == Refused
  {
    assert DestOk(frames, |frames| - 1);
    if |frames| > 1 {
      PopInShape(chunk, frames);
      var rest := frames[..|frames| - 1];
      var top, dest := Top(rest), Top(frames).dest.value;
      WithTopInShape(chunk, rest, top.(registers := top.registers[dest := value]));
    }
  }

  lemma {:induction false} EnterOk(chunk: Chunk, trust: TrustLevel, fn: nat, dest: Option<U8>, args: seq<Value>)
    requires Accepted(chunk, trust) && fn < |chunk.functions| && |args| <= chunk.functions[fn].arity
    ensures
      var r := Enter(chunk.functions[fn], fn, dest, args);
      r.Ok? && FrameOk(chunk, r.value) && r.value.dest == dest
  {
    assert CheckFunction(chunk, fn).None?;
    EndAfterIsNextEntry(chunk.functions, chunk.functions[fn].entry, |chunk.code|);
  }

  lemma {:induction false} PushInShape(chunk: Chunk, frames: seq<Frame>, frame: Frame)
    requires InShape(chunk, frames) && |frames| < MAX_CALL_DEPTH
    requires FrameOk(chunk, frame) && frame.dest.Some? && frame.dest.value < |Top(frames).registers|
    ensures InShape(chunk, frames + [frame])
  {
    var next := frames + [frame];
    forall i | 0 <= i < |next| ensures DestOk(next, i) { assert i < |frames| ==> DestOk(frames, i); }
  }

  lemma {:induction false} ReplaceInShape(chunk: Chunk, frames: seq<Frame>, frame: Frame)
    requires InShape(chunk, frames) && FrameOk(chunk, frame) && frame.dest == Top(frames).dest
    ensures InShape(chunk, frames[..|frames| - 1] + [frame])
  {
    var next := frames[..|frames| - 1] + [frame];
    forall i | 0 <= i < |next| ensures DestOk(next, i) { assert DestOk(frames, i); }
  }

  // The stack after the fetch: the running frame's pc is one further.
  function Fetched(frames: seq<Frame>): (r: seq<Frame>)
    requires frames != []
  {
    WithTop(frames, Top(frames).(pc := Top(frames).pc + 1))
  }

  lemma {:induction false} FetchedInShape(chunk: Chunk, frames: seq<Frame>)
    requires InShape(chunk, frames) && Promised(chunk, Top(frames))
    requires Top(frames).pc < |chunk.code| && !IsTerminator(chunk.code[Top(frames).pc].op)
    ensures InShape(chunk, Fetched(frames))
  {
    WithTopInShape(chunk, frames, Top(frames).(pc := Top(frames).pc + 1));
  }

  // A call reads its window, enters the callee in shape and, unless it is a
  // tail call, returns into a register of the caller.
  lemma {:induction false} InvokeOk(chunk: Chunk, trust: TrustLevel, frames: seq<Frame>, host: Host)
    requires Accepted(chunk, trust) && InShape(chunk, frames) && Promised(chunk, Top(frames))
    requires Top(frames).pc < |chunk.code|
    requires var op := chunk.code[Top(frames).pc].op; op == CALL || op == TAIL_CALL
    ensures StepOk(chunk, frames, Invoke(chunk, Fetched(frames), chunk.code[Top(frames).pc], host))
  {
    var instr := chunk.code[Top(frames).pc];
    var fn, fs := AsU32(instr.imm), Fetched(frames);
    WindowGathers(Top(fs).registers, instr.a, instr.b, 0);
    var args := Gather(Top(fs).registers, instr.a, instr.b, 0).value;
    var dest := if instr.op == TAIL_CALL then Top(fs).dest else Some(instr.a);
    EnterOk(chunk, trust, fn, dest, args);
    var frame := Enter(chunk.functions[fn], fn, dest, args).value;
    if instr.op == TAIL_CALL {
      ReplaceInShape(chunk, frames, frame);
    } else {
      FetchedInShape(chunk, frames);
      if |frames| < MAX_CALL_DEPTH { PushInShape(chunk, fs, frame); }
    }
  }

  lemma {:induction false} JumpOk(chunk: Chunk, frames: seq<Frame>, imm: I32)
    requires InShape(chunk, frames) && JumpStaysInside(chunk, Top(frames), Top(frames).pc + 1 + imm)
    ensures JumpBy(Fetched(frames), imm, |chunk.code|).Continue?
    ensures InShape(chunk, JumpBy(Fetched(frames), imm, |chunk.code|).frames)
    ensures JumpBy(Fetched(frames), imm, |chunk.code|).effects == []
  {
    var target, fs := Top(frames).pc + 1 + imm, Fetched(frames);
    EndAfterIsNextEntry(chunk.functions, chunk.functions[Top(frames).fn].entry, |chunk.code|);
    assert WithTop(fs, Top(fs).(pc := target)) == WithTop(frames, Top(frames).(pc := target));
    WithTopInShape(chunk, frames, Top(frames).(pc := target));
  }

  lemma {:induction false} SetRegOk(chunk: Chunk, frames: seq<Frame>, reg: U8, value: Value, host: Host)
    requires InShape(chunk, frames)
    ensures
      match SetReg(frames, reg, value, host)
      case Continue(next, effects) => InShape(chunk, next) && effects == []
      case Complete(_) => false
      case Trap(fault) => fault == Refused || (fault == RegisterOutOfRange(reg) && reg >= |Top(frames).registers|)
  {
    var top := Top(frames);
    if reg < |top.registers| { WithTopInShape(chunk, frames, top.(registers := top.registers[reg := value])); }
  }

  lemma {:induction false} ResumeOk(chunk: Chunk, frames: seq<Frame>, effects: seq<Effect>, host: Host)
    requires InShape(chunk, frames)
    ensures
      match Resume(frames, effects, host)
      case Continue(next, es) => InShape(chunk, next) && es == effects
      case Complete(_) => false
      case Trap(fault) => fault == Refused
  {
    var top := Top(frames);
    if |host.registers| == |top.registers| { WithTopInShape(chunk, frames, top.(registers := host.registers)); }
  }

  // Instructions that pass control on or stop.
  lemma {:induction false} ControlOk(chunk: Chunk, frames: seq<Frame>, host: Host)
    requires InShape(chunk, frames) && Promised(chunk, Top(frames)) && Top(frames).pc < |chunk.code|
    requires var op := chunk.code[Top(frames).pc].op; op == RETURN || IsJump(op)
    ensures StepOk(chunk, frames, Step(chunk, frames, host))
  {
    var fs, instr := Fetched(frames), chunk.code[Top(frames).pc];
    if instr.op == RETURN {
      if instr.a < |Top(frames).registers| {
        var v := Top(frames).registers[instr.a];
        PopFrameOk(chunk, frames, v, host);
        assert PopFrame(fs, v, host) == PopFrame(frames, v, host);
      }
    } else {
      JumpOk(chunk, frames, instr.imm);
      if instr.op != JUMP { FetchedInShape(chunk, frames); }
    }
  }

  // Instructions that ask the scheduler or a native for something.
  lemma {:induction false} OutsideOk(chunk: Chunk, frames: seq<Frame>, host: Host)
    requires InShape(chunk, frames) && Promised(chunk, Top(frames)) && Top(frames).pc < |chunk.code|
    requires
      var op := chunk.code[Top(frames).pc].op;
      op == SPAWN || op == START_CHILD || op == CALL_NATIVE || op == CALL_NATIVE_FROM
    ensures StepOk(chunk, frames, Step(chunk, frames, host))
  {
    var fs, instr := Fetched(frames), chunk.code[Top(frames).pc];
    var registers := Top(fs).registers;
    FetchedInShape(chunk, frames);
    if instr.op == SPAWN {
      WindowGathers(registers, instr.a, instr.b, 1);
      ResumeOk(chunk, fs, [SpawnFlow(AsU32(instr.imm), Gather(registers, instr.a, instr.b, 1).value, instr.a)], host);
    } else if instr.op == START_CHILD {
      ResumeOk(chunk, fs, [StartChild(if instr.imm >= 0 then instr.imm else 0xFFFF_FFFF, instr.b, instr.a)], host);
    } else if instr.op == CALL_NATIVE {
      WindowGathers(registers, instr.a, instr.b, 0);
      SetRegOk(chunk, fs, instr.a, host.value, host);
    } else {
      WindowGathers(registers, instr.b, 1, 0);
      SetRegOk(chunk, fs, instr.a, host.value, host);
    }
  }

  // Every step of an accepted chunk keeps the shape, and the only faults it can
  // end in are those no static check excludes.
  lemma {:induction false} StepKeepsShape(chunk: Chunk, trust: TrustLevel, frames: seq<Frame>, host: Host)
    requires Accepted(chunk, trust) && InShape(chunk, frames)
    ensures StepOk(chunk, frames, Step(chunk, frames, host))
  {
    var top := Top(frames);
    assert FrameOk(chunk, top);
    AcceptedKeepsPromise(chunk, trust, top);
    if top.pc >= |chunk.code| {
      PopFrameOk(chunk, frames, Unit, host);
    } else {
      var op := chunk.code[top.pc].op;
      if op == RETURN || IsJump(op) { ControlOk(chunk, frames, host); }
      else if op == CALL || op == TAIL_CALL { InvokeOk(chunk, trust, frames, host); }
      else if op == SPAWN || op == START_CHILD || op == CALL_NATIVE || op == CALL_NATIVE_FROM {
        OutsideOk(chunk, frames, host);
      } else if !IsTerminator(op) {
        PlainOk(chunk, frames, host);
      }
    }
  }

  lemma {:induction false} PlainOk(chunk: Chunk, frames: seq<Frame>, host: Host)
    requires InShape(chunk, frames) && Promised(chunk, Top(frames)) && Top(frames).pc < |chunk.code|
    requires
      var op := chunk.code[Top(frames).pc].op;
      && !IsTerminator(op) && !IsJump(op) && op != CALL
      && op != SPAWN && op != START_CHILD && op != CALL_NATIVE && op != CALL_NATIVE_FROM
    ensures StepOk(chunk, frames, Step(chunk, frames, host))
  {
    var fs, instr := Fetched(frames), chunk.code[Top(frames).pc];
    FetchedInShape(chunk, frames);
    if instr.op == LOAD_CONST { SetRegOk(chunk, fs, instr.a, chunk.constants[AsU32(instr.imm)], host); }
    else { ResumeOk(chunk, fs, [], host); }
  }

  // ------------------------------------------------------------- whole runs

  // `Vm::new` on an accepted chunk fails only on a missing function, whatever
  // the arguments.
  lemma {:induction false} StartInShape(chunk: Chunk, trust: TrustLevel, fn: U32, args: seq<Value>)
    requires Accepted(chunk, trust)
    ensures Start(chunk, fn, args).Ok? <==> fn < |chunk.functions|
    ensures Start(chunk, fn, args).Ok? ==> InShape(chunk, Start(chunk, fn, args).value)
  {
    if fn < |chunk.functions| {
      var def := chunk.functions[fn];
      EnterOk(chunk, trust, fn, None, if |args| > def.arity then args[..def.arity] else args);
    }
  }

  // The state the run is in before its step `k`, when it gets that far.
  ghost predicate Reached(chunk: Chunk, frames: seq<Frame>, hosts: seq<Host>, k: nat, at: seq<Frame>)
    requires k <= |hosts|
  {
    var r := Run(chunk, frames, hosts[..k]);
    r.Continue? && r.frames == at && InShape(chunk, at)
  }

  // The run stops at step `k`, and a fault is one that step may end in.
  ghost predicate StopsAt(chunk: Chunk, frames: seq<Frame>, hosts: seq<Host>, k: nat, at: seq<Frame>, r: Outcome)
    requires k < |hosts|
  {
    && Reached(chunk, frames, hosts, k, at)
    && Step(chunk, at, hosts[k]) == r
    && (r.Trap? ==> FaultAllowed(chunk, at, r.fault))
  }

  // Step `k` asks for the effect, which the scheduler can carry out for the
  // frame that asked.
  ghost predicate AsksAt(chunk: Chunk, frames: seq<Frame>, hosts: seq<Host>, k: nat, at: seq<Frame>, e: Effect)
    requires k < |hosts|
  {
    && Reached(chunk, frames, hosts, k, at)
    && var r := Step(chunk, at, hosts[k]);
    && r.Continue? && e in r.effects && EffectOk(chunk, e, |Top(at).registers|)
  }

  // What a run may do: go on in shape, having asked for sound effects only, or
  // stop at one of its steps, on an allowed fault of the state it was then in.
  ghost predicate RunOk(chunk: Chunk, frames: seq<Frame>, hosts: seq<Host>) {
    var r := Run(chunk, frames, hosts);
    if r.Continue? then
      && InShape(chunk, r.frames)
      && Promised(chunk, Top(r.frames))
      && forall e | e in r.effects :: exists k, at | 0 <= k < |hosts| :: AsksAt(chunk, frames, hosts, k, at, e)
    else
      exists k, at | 0 <= k < |hosts| :: StopsAt(chunk, frames, hosts, k, at, r)
  }

  // A run of the rest is the tail of a run of the whole.
  lemma {:induction false} ReachedLater(
    chunk: Chunk, frames: seq<Frame>, next: seq<Frame>, effects: seq<Effect>, hosts: seq<Host>, k: nat, at: seq<Frame>)
    requires hosts != [] && k < |hosts| && Step(chunk, frames, hosts[0]) == Continue(next, effects)
    requires Reached(chunk, next, hosts[1..], k, at)
    ensures Reached(chunk, frames, hosts, k + 1, at)
  {
    assert hosts[..k + 1][0] == hosts[0] && hosts[..k + 1][1..] == hosts[1..][..k];
  }

  lemma {:induction false} RunKeepsShape(chunk: Chunk, trust: TrustLevel, frames: seq<Frame>, hosts: seq<Host>)
    requires Accepted(chunk, trust) && InShape(chunk, frames)
    ensures RunOk(chunk, frames, hosts)
    decreases |hosts|
  {
    assert FrameOk(chunk, Top(frames));
    AcceptedKeepsPromise(chunk, trust, Top(frames));
    if hosts != [] {
      StepKeepsShape(chunk, trust, frames, hosts[0]);
      assert Run(chunk, frames, hosts[..0]) == Continue(frames, []);
      assert Reached(chunk, frames, hosts, 0, frames);
      var step := Step(chunk, frames, hosts[0]);
      match step
      case Continue(next, effects) =>
        RunKeepsShape(chunk, trust, next, hosts[1..]);
        RunFromNext(chunk, frames, next, effects, hosts);
      case _ => assert StopsAt(chunk, frames, hosts, 0, frames, step);
    }
  }

  lemma {:induction false} RunFromNext(
    chunk: Chunk, frames: seq<Frame>, next: seq<Frame>, effects: seq<Effect>, hosts: seq<Host>)
    requires hosts != [] && Step(chunk, frames, hosts[0]) == Continue(next, effects)
    requires Reached(chunk, frames, hosts, 0, frames) && StepOk(chunk, frames, Continue(next, effects))
    requires RunOk(chunk, next, hosts[1..])
    ensures RunOk(chunk, frames, hosts)
  {
    var rest, r := hosts[1..], Run(chunk, next, hosts[1..]);
    if r.Continue? {
      forall e | e in effects + r.effects
        ensures exists k, at | 0 <= k < |hosts| :: AsksAt(chunk, frames, hosts, k, at, e)
      {
        if e in effects {
          assert AsksAt(chunk, frames, hosts, 0, frames, e);
        } else {
          var k, at :| 0 <= k < |rest| && AsksAt(chunk, next, rest, k, at, e);
          ReachedLater(chunk, frames, next, effects, hosts, k, at);
          assert AsksAt(chunk, frames, hosts, k + 1, at, e);
        }
      }
    } else {
      var k, at :| 0 <= k < |rest| && StopsAt(chunk, next, rest, k, at, r);
      ReachedLater(chunk, frames, next, effects, hosts, k, at);
      assert StopsAt(chunk, frames, hosts, k + 1, at, r);
    }
  }

  // Verifier soundness: from any function and any arguments, every run of an
  // accepted chunk stays in shape, and every flow it asks for starts in shape.
  lemma {:induction false} VerifierIsSound(
    chunk: Chunk, trust: TrustLevel, fn: U32, args: seq<Value>, hosts: seq<Host>)
    requires Refusal(chunk, trust).None? && fn < |chunk.functions|
    ensures Start(chunk, fn, args).Ok?
    ensures RunOk(chunk, Start(chunk, fn, args).value, hosts)
    ensures
      var r := Run(chunk, Start(chunk, fn, args).value, hosts);
      r.Continue? ==> forall e | e in r.effects ::
        var given := if e.SpawnFlow? then e.args else [];
        Start(chunk, e.fn, given).Ok? && InShape(chunk, Start(chunk, e.fn, given).value)
  {
    AcceptedIsNoRefusal(chunk, trust);
    StartInShape(chunk, trust, fn, args);
    var start := Start(chunk, fn, args).value;
    RunKeepsShape(chunk, trust, start, hosts);
    var r := Run(chunk, start, hosts);
    if r.Continue? {
      forall e | e in r.effects
        ensures
          var given := if e.SpawnFlow? then e.args else [];
          Start(chunk, e.fn, given).Ok? && InShape(chunk, Start(chunk, e.fn, given).value)
      {
        var k, at :| 0 <= k < |hosts| && AsksAt(chunk, start, hosts, k, at, e);
        StartInShape(chunk, trust, e.fn, if e.SpawnFlow? then e.args else []);
      }
    }
  }

  // `StartChild` on an accepted chunk faults exactly on a negative immediate,
  // which only a table with more than 2^31 functions lets past the verifier. The
  // machine takes it for the index `u32::MAX`, so a table with 2^32 functions
  // does not fault either.
  lemma {:induction false} StartChildFaults(chunk: Chunk, trust: TrustLevel, frames: seq<Frame>, host: Host)
    requires Accepted(chunk, trust) && InShape(chunk, frames)
    requires Top(frames).pc < |chunk.code| && chunk.code[Top(frames).pc].op == START_CHILD
    ensures
      var imm := chunk.code[Top(frames).pc].imm;
      && (Step(chunk, frames, host) == Trap(BadFunction) <==> imm < 0 && |chunk.functions| <= 0xFFFF_FFFF)
      && (imm < 0 ==> HugeTable(chunk))
  {
    var top := Top(frames);
    assert FrameOk(chunk, top);
    AcceptedKeepsPromise(chunk, trust, top);
  }

  // A table with more than 2^31 functions can be accepted and still trap: the
  // verifier and the machine read a negative `StartChild` index differently.
  function HugeChunk(): Chunk {
    Chunk("m", [], [Instruction(START_CHILD, 0, 0, 0, -0x8000_0000)],
          seq(0x8000_0001, _ => FunctionDef("f", 0, 0, 1)))
  }

  lemma {:induction false} HugeChunkAccepted()
    ensures Accepted(HugeChunk(), Untrusted) && HugeTable(HugeChunk())
  {
    var chunk := HugeChunk();
    EndAfterIsNextEntry(chunk.functions, 0, 1);
    assert CheckAt(chunk, 0).None?;
  }

  lemma {:induction false} HugeTableTraps(host: Host)
    ensures Accepted(HugeChunk(), Untrusted) && HugeTable(HugeChunk())
    ensures
      var start := Start(HugeChunk(), 0, []);
      start.Ok? && Step(HugeChunk(), start.value, host) == Trap(BadFunction)
  {
    HugeChunkAccepted();
  }

  // ---------------------------------------------------------- call discipline

  // A call in shape: the callee sees its arguments in order in its first
  // registers and `Unit` in the others, and the caller waits past the call.
  lemma {:induction false} CallEntersCallee(chunk: Chunk, trust: TrustLevel, frames: seq<Frame>, host: Host)
    requires Accepted(chunk, trust) && InShape(chunk, frames) && Top(frames).pc < |chunk.code|
    requires chunk.code[Top(frames).pc].op == CALL && |frames| < MAX_CALL_DEPTH && !host.refuse
    ensures
      var caller := Top(frames);
      && Promised(chunk, caller)
      && Entered(chunk, caller, chunk.code[caller.pc], Fetched(frames), Step(chunk, frames, host))
  {
    var caller := Top(frames);
    assert FrameOk(chunk, caller);
    AcceptedKeepsPromise(chunk, trust, caller);
    InvokeEnters(chunk, trust, Fetched(frames), chunk.code[caller.pc], host);
  }

  ghost predicate Entered(chunk: Chunk, caller: Frame, instr: Instruction, waiting: seq<Frame>, r: Outcome) {
    && r.Continue? && |r.frames| == |waiting| + 1 && r.frames[..|waiting|] == waiting
    && var callee := Top(r.frames);
    && callee.dest == Some(instr.a) && callee.fn == AsU32(instr.imm) && callee.fn < |chunk.functions|
    && callee.pc == chunk.functions[callee.fn].entry
    && (instr.b == 0 || instr.a + instr.b <= |caller.registers|)
    && forall i | 0 <= i < |callee.registers| ::
         callee.registers[i] == if i < instr.b then caller.registers[instr.a + i] else Unit
  }

  lemma {:induction false} InvokeEnters(chunk: Chunk, trust: TrustLevel, fs: seq<Frame>, instr: Instruction, host: Host)
    requires Accepted(chunk, trust) && 0 < |fs| < MAX_CALL_DEPTH && instr.op == CALL && !host.refuse
    requires AsU32(instr.imm) < |chunk.functions| && instr.b == chunk.functions[AsU32(instr.imm)].arity
    requires |Top(fs).registers| <= 255 && (instr.b == 0 || instr.a + instr.b <= |Top(fs).registers|)
    ensures Entered(chunk, Top(fs), instr, fs, Invoke(chunk, fs, instr, host))
  {
    var fn := AsU32(instr.imm);
    WindowGathers(Top(fs).registers, instr.a, instr.b, 0);
    assert CheckFunction(chunk, fn).None?;
  }

  // A step never writes below the running frame, except that a return writes
  // the one register the finished frame was called for.
  ghost predicate WritesOnlyTop(frames: seq<Frame>, next: seq<Frame>)
    requires frames != []
  {
    var n := |frames| - 1;
    if |next| > n then next[..n] == frames[..n]
    else
      && |next| == n > 0 && Top(frames).dest.Some?
      && var caller, dest := frames[n - 1], Top(frames).dest.value;
      && dest < |caller.registers| == |Top(next).registers|
      && next == WithTop(frames[..n], caller.(registers := caller.registers[dest := Top(next).registers[dest]]))
  }

  lemma {:induction false} StepWritesOnlyTop(chunk: Chunk, frames: seq<Frame>, host: Host)
    requires frames != [] && Step(chunk, frames, host).Continue?
    ensures WritesOnlyTop(frames, Step(chunk, frames, host).frames)
  {
    var fs := Fetched(frames);
    assert fs[..|fs| - 1] == frames[..|frames| - 1];
    if Top(frames).pc < |chunk.code| && chunk.code[Top(frames).pc].op == RETURN {
      var v := Top(frames).registers[chunk.code[Top(frames).pc].a];
      assert Step(chunk, frames, host) == PopFrame(frames, v, host);
    }
  }

  // The stack stays deeper than `d` from here on.
  ghost predicate StaysAbove(chunk: Chunk, frames: seq<Frame>, hosts: seq<Host>, d: nat)
    decreases |hosts|
  {
    && |frames| > d
    && (hosts != [] ==>
        && Step(chunk, frames, hosts[0]).Continue?
        && StaysAbove(chunk, Step(chunk, frames, hosts[0]).frames, hosts[1..], d))
  }

  // While a frame runs, and whatever it calls, the frames that wait below it do
  // not change, for any chunk, accepted or not.
  lemma {:induction false} CallersAreFrozen(chunk: Chunk, frames: seq<Frame>, hosts: seq<Host>, d: nat)
    requires StaysAbove(chunk, frames, hosts, d)
    ensures
      var r := Run(chunk, frames, hosts);
      r.Continue? && |r.frames| > d && r.frames[..d] == frames[..d]
    decreases |hosts|
  {
    if hosts != [] {
      var next := Step(chunk, frames, hosts[0]).frames;
      StepWritesOnlyTop(chunk, frames, hosts[0]);
      assert next[..d] == frames[..d];
      CallersAreFrozen(chunk, next, hosts[1..], d);
    }
  }
}
