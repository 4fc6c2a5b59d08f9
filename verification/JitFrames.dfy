/**
 In-trace calls of the JIT (byteflow/src/jit/call.rs and frame.rs) and the
 frames it hands back to the interpreter (byteflow/src/jit/dispatch.rs).

 A compiled trace runs a whole stack of activations in one slot array: a call
 spills the caller's slots, saves its four tag bitmaps in a record and runs the
 callee on the same slots; a return restores both. When the trace stops, the
 records and spilled windows are turned back into ordinary frames. The theorem
 is that those frames are the ones a machine with a real stack would have.

 This module is the arithmetic of one activation and the stack of activations;
 `JitArena` lays it out in the arrays.
 */
module JitFrames {
  import opened Common
  import opened Values
  import opened Bits

  const MAX_JIT_CALL_DEPTH := 32
  const MAX_CALL_DEPTH := 4096

  // --------------------------------------------------------------- tag bitmaps

  // Four words: one bit per register.
  type TagWords = words: seq<Word> | |words| == 4 witness [ZERO, ZERO, ZERO, ZERO]

  const NO_TAGS: TagWords := [ZERO, ZERO, ZERO, ZERO]

  // `tag_bit` and `read_reg_bit`
  predicate TagBit(words: TagWords, reg: nat) {
    reg < 256 && reg % 64 in words[reg / 64]
  }

  // `set_reg_bit`, `set_reg_bit_value` and `set_dynamic_reg_bit`
  function SetBit(words: TagWords, reg: nat, on: bool): (r: TagWords)
    requires reg < 256
  {
    words[reg / 64 := if on then words[reg / 64] + {reg % 64} else words[reg / 64] - {reg % 64}]
  }

  lemma {:induction false} SetBitSetsOne(words: TagWords, reg: nat, on: bool, other: nat)
    requires reg < 256
    ensures TagBit(SetBit(words, reg, on), other) <==> if other == reg then on else TagBit(words, other)
  {
    assert other == 64 * (other / 64) + other % 64 && reg == 64 * (reg / 64) + reg % 64;
  }

  datatype Tags = Tags(written: TagWords, asBool: TagWords, asUnit: TagWords, asFloat: TagWords)

  // The type bits of one value.
  datatype Kind = Kind(asBool: bool, asUnit: bool, asFloat: bool)

  const UNIT_KIND := Kind(false, true, false)

  function Mark(tags: Tags, reg: nat, kind: Kind): Tags
    requires reg < 256
  {
    Tags(SetBit(tags.written, reg, true), SetBit(tags.asBool, reg, kind.asBool),
         SetBit(tags.asUnit, reg, kind.asUnit), SetBit(tags.asFloat, reg, kind.asFloat))
  }

  function KindAt(tags: Tags, reg: nat): Kind {
    Kind(TagBit(tags.asBool, reg), TagBit(tags.asUnit, reg), TagBit(tags.asFloat, reg))
  }

  lemma {:induction false} MarkMarksOne(tags: Tags, reg: nat, kind: Kind, other: nat)
    requires reg < 256
    ensures TagBit(Mark(tags, reg, kind).written, other) <==> other == reg || TagBit(tags.written, other)
    ensures KindAt(Mark(tags, reg, kind), other) == if other == reg then kind else KindAt(tags, other)
  {
    SetBitSetsOne(tags.written, reg, true, other);
    SetBitSetsOne(tags.asBool, reg, kind.asBool, other);
    SetBitSetsOne(tags.asUnit, reg, kind.asUnit, other);
    SetBitSetsOne(tags.asFloat, reg, kind.asFloat, other);
  }

  // -------------------------------------------------------------------- values

  // What a slot can hold: every other value makes the trace deoptimise.
  predicate Scalar(v: Value) {
    v.Unit? || v.Bool? || v.Int? || v.Float?
  }

  function AsU64(bits: I64): U64 {
    if bits < 0 then bits + 0x1_0000_0000_0000_0000 else bits
  }

  function AsI64(bits: U64): I64 {
    if bits < 0x8000_0000_0000_0000 then bits else bits - 0x1_0000_0000_0000_0000
  }

  // `sync_slots_from_vm`, for one register.
  function SlotOf(v: Value): I64
    requires Scalar(v)
  {
    match v
    case Int(i) => i
    case Bool(b) => if b then 1 else 0
    case Float(bits) => AsI64(bits)
    case Unit => 0
  }

  function KindOf(v: Value): Kind
    requires Scalar(v)
  {
    Kind(v.Bool?, v.Unit?, v.Float?)
  }

  // `tagged_value`
  function TaggedValue(bits: I64, kind: Kind): Value {
    if kind.asUnit then Unit
    else if kind.asBool then Bool(bits != 0)
    else if kind.asFloat then Float(AsU64(bits))
    else Int(bits)
  }

  lemma {:induction false} SlotRoundTrip(v: Value)
    requires Scalar(v)
    ensures TaggedValue(SlotOf(v), KindOf(v)) == v
  {
  }

  // --------------------------------------------------------------- activations

  // One activation as the trace holds it: its slots and its bitmaps.
  datatype Act = Act(fn: U32, slots: seq<I64>, tags: Tags)

  // A suspended activation: a spilled window and a call record.
  datatype Saved = Saved(act: Act, returnPc: U32, dest: U8)

  // A trace in flight: the VM registers it was entered on, the activations it
  // has suspended, outermost first, the live one, and what is left in the slot
  // array above the live registers.
  datatype Jit = Jit(entry: seq<Value>, saved: seq<Saved>, live: Act, spare: seq<I64>)

  // The slot array: the live registers, then the leftovers of other activations.
  function Slots(j: Jit): seq<I64> {
    j.live.slots + j.spare
  }

  // `slot_capacity`: the widest register file of the chunk.
  function Stride(j: Jit): nat {
    |j.live.slots| + |j.spare|
  }

  // The value the trace stored in a register, if it did.
  function Stored(bits: I64, tags: Tags, reg: nat): Option<Value> {
    if TagBit(tags.written, reg) then Some(TaggedValue(bits, KindAt(tags, reg))) else None
  }

  // A register of the activation that entered the trace keeps the VM's value
  // until the trace writes it. Any other activation writes all of its own.
  function ReadReg(base: Option<seq<Value>>, act: Act, reg: nat): Value
    requires reg < |act.slots| && (base.Some? ==> |base.value| == |act.slots|)
  {
    var stored := Stored(act.slots[reg], act.tags, reg);
    if stored.Some? then stored.value else if base.Some? then base.value[reg] else Unit
  }

  // `frame_values`, or `written_updates` applied to the entry frame.
  function Registers(base: Option<seq<Value>>, act: Act): (rs: seq<Value>)
    requires base.Some? ==> |base.value| == |act.slots|
    ensures |rs| == |act.slots|
  {
    seq(|act.slots|, i requires 0 <= i < |act.slots| => ReadReg(base, act, i))
  }

  // The outermost activation mirrors the VM registers it has not written.
  ghost predicate BaseOk(entry: seq<Value>, act: Act) {
    && |entry| == |act.slots| <= 255
    && forall i | 0 <= i < |entry| ::
         Scalar(entry[i]) && (!TagBit(act.tags.written, i) ==> act.slots[i] == SlotOf(entry[i]))
  }

  ghost predicate CalleeOk(act: Act) {
    |act.slots| <= 255 && forall i | 0 <= i < |act.slots| :: TagBit(act.tags.written, i)
  }

  ghost predicate ActOk(base: Option<seq<Value>>, act: Act) {
    if base.Some? then BaseOk(base.value, act) else CalleeOk(act)
  }

  // The activation at position `k` of the stack, the live one last.
  function ActAt(j: Jit, k: nat): Act
    requires k <= |j.saved|
  {
    if k < |j.saved| then j.saved[k].act else j.live
  }

  // Only the outermost activation started on VM registers.
  function BaseAt(j: Jit, k: nat): Option<seq<Value>> {
    if k == 0 then Some(j.entry) else None
  }

  ghost predicate StackOk(j: Jit) {
    && |j.saved| <= MAX_JIT_CALL_DEPTH && Stride(j) <= 255
    && (forall k | 0 <= k < |j.saved| :: |j.saved[k].act.slots| <= Stride(j))
    && (forall k | 0 <= k <= |j.saved| :: ActOk(BaseAt(j, k), ActAt(j, k)))
    && (forall k | 0 <= k < |j.saved| :: j.saved[k].dest < |j.saved[k].act.slots|)
  }

  // ---------------------------------------------------------------- operations

  // `EntryTags::from_vm` and `sync_slots_from_vm`
  function Enter(fn: U32, entry: seq<Value>, stride: nat): (j: Jit)
    requires |entry| <= stride <= 255 && forall i | 0 <= i < |entry| :: Scalar(entry[i])
    ensures Stride(j) == stride
  {
    var slots := seq(|entry|, i requires 0 <= i < |entry| => SlotOf(entry[i]));
    Jit(entry, [], Act(fn, slots, Tags(NO_TAGS, NO_TAGS, NO_TAGS, NO_TAGS)), seq(stride - |entry|, _ => 0))
  }

  // A tagged slot store, `store_slot`. Nothing checks the register against the
  // live register file; a register the slot array does not have is dropped.
  function StoreReg(j: Jit, reg: U8, v: Value): Jit
    requires Scalar(v)
  {
    var n, tags := |j.live.slots|, Mark(j.live.tags, reg, KindOf(v));
    if reg < n then j.(live := j.live.(slots := j.live.slots[reg := SlotOf(v)], tags := tags))
    else if reg < Stride(j) then j.(live := j.live.(tags := tags), spare := j.spare[reg - n := SlotOf(v)])
    else j
  }

  // `inherited_bit`: the tag of a register the trace wrote, else the one it had
  // on entry.
  function Inherited(entry: seq<Value>, act: Act, reg: nat): Kind {
    if TagBit(act.tags.written, reg) then KindAt(act.tags, reg) else EntryKind(entry, reg)
  }

  // `EntryTags::from_vm`, for one register.
  function EntryKind(entry: seq<Value>, reg: nat): Kind {
    if reg < |entry| && Scalar(entry[reg]) then KindOf(entry[reg]) else Kind(false, false, false)
  }

  function SetKind(tags: Tags, reg: nat, kind: Kind): Tags
    requires reg < 256
  {
    Mark(tags, reg, kind).(written := tags.written)
  }

  // The bitmaps of a frame of `Unit`s.
  function UnitTags(n: nat): (tags: Tags)
    requires n <= 255
  {
    if n == 0 then Tags(NO_TAGS, NO_TAGS, NO_TAGS, NO_TAGS) else Mark(UnitTags(n - 1), n - 1, UNIT_KIND)
  }

  // The kinds of the first `k` arguments over the registers they land in.
  function WithArgs(tags: Tags, kinds: seq<Kind>, k: nat): (r: Tags)
    requires k <= |kinds| <= 255
  {
    if k == 0 then tags else SetKind(WithArgs(tags, kinds, k - 1), k - 1, kinds[k - 1])
  }

  // Bitmaps of a fresh callee: everything written, `Unit` except the arguments.
  function CalleeTags(kinds: seq<Kind>, n: nat): (tags: Tags)
    requires |kinds| <= n <= 255
  {
    WithArgs(UnitTags(n), kinds, |kinds|)
  }

  lemma {:induction false} UnitTagsAre(n: nat, r: nat)
    requires r < n <= 255
    ensures TagBit(UnitTags(n).written, r) && KindAt(UnitTags(n), r) == UNIT_KIND
    decreases n
  {
    MarkMarksOne(UnitTags(n - 1), n - 1, UNIT_KIND, r);
    if r < n - 1 { UnitTagsAre(n - 1, r); }
  }

  lemma {:induction false} WithArgsAre(tags: Tags, kinds: seq<Kind>, k: nat, r: nat)
    requires k <= |kinds| <= 255
    ensures WithArgs(tags, kinds, k).written == tags.written
    ensures KindAt(WithArgs(tags, kinds, k), r) == if r < k then kinds[r] else KindAt(tags, r)
    decreases k
  {
    if k > 0 {
      MarkMarksOne(WithArgs(tags, kinds, k - 1), k - 1, kinds[k - 1], r);
      WithArgsAre(tags, kinds, k - 1, r);
    }
  }

  lemma {:induction false} CalleeTagsAre(kinds: seq<Kind>, n: nat, r: nat)
    requires |kinds| <= n <= 255 && r < n
    ensures TagBit(CalleeTags(kinds, n).written, r)
    ensures KindAt(CalleeTags(kinds, n), r) == if r < |kinds| then kinds[r] else UNIT_KIND
  {
    UnitTagsAre(n, r);
    WithArgsAre(UnitTags(n), kinds, |kinds|, r);
  }

  function ArgKinds(entry: seq<Value>, act: Act, base: nat, argc: nat): (kinds: seq<Kind>)
    ensures |kinds| == argc
  {
    seq(argc, i requires 0 <= i < argc => Inherited(entry, act, base + i))
  }

  datatype Callee = Callee(fn: U32, numRegisters: U8)

  // The guards the interpreter puts on a call that the verifier makes true.
  predicate CallFits(registers: nat, dest: U8, argc: U8, callee: Callee) {
    dest < registers && dest + argc <= registers && argc <= callee.numRegisters
  }

  // `emit_call`, below the depth limit. The slots above the callee's registers
  // are not cleared.
  function Call(j: Jit, callee: Callee, dest: U8, argc: U8, returnPc: U32): (r: Jit)
    requires CallFits(|j.live.slots|, dest, argc, callee) && callee.numRegisters <= Stride(j)
    ensures Stride(r) == Stride(j)
  {
    Jit(j.entry, j.saved + [Saved(j.live, returnPc, dest)], CalleeAct(j.entry, j.live, callee, dest, argc),
        Slots(j)[callee.numRegisters..])
  }

  // The callee's activation: the argument slots with their tags, then `Unit`s.
  function CalleeAct(entry: seq<Value>, act: Act, callee: Callee, dest: U8, argc: U8): Act
    requires CallFits(|act.slots|, dest, argc, callee)
  {
    Act(callee.fn, CalleeSlots(act.slots, dest, argc, callee.numRegisters),
        CalleeTags(ArgKinds(entry, act, dest, argc), callee.numRegisters))
  }

  function CalleeSlots(caller: seq<I64>, dest: nat, argc: nat, n: nat): (slots: seq<I64>)
    requires dest + argc <= |caller| && argc <= n
    ensures |slots| == n
    ensures forall i | 0 <= i < n :: slots[i] == if i < argc then caller[dest + i] else 0
  {
    caller[dest..dest + argc] + seq(n - argc, _ => 0)
  }

  // What `emit_return` loads for a register: a slot, with no check against the
  // live register file. `stray` is whatever lies past the slot array.
  function SlotAt(j: Jit, reg: U8, stray: I64): I64 {
    if reg < Stride(j) then Slots(j)[reg] else stray
  }

  // The value the result slot and its tags stand for.
  function Result(j: Jit, reg: U8, stray: I64): Value {
    TaggedValue(SlotAt(j, reg, stray), KindAt(j.live.tags, reg))
  }

  // `emit_return`, below the entry frame.
  function Return(j: Jit, reg: U8, stray: I64): (r: Jit)
    requires j.saved != []
    requires var s := j.saved[|j.saved| - 1]; s.dest < |s.act.slots| <= Stride(j)
    ensures Stride(r) == Stride(j)
  {
    var n := |j.saved| - 1;
    var Saved(act, _, dest) := j.saved[n];
    Jit(j.entry, j.saved[..n],
        act.(slots := act.slots[dest := SlotAt(j, reg, stray)],
             tags := Mark(act.tags, dest, KindAt(j.live.tags, reg))),
        Slots(j)[|act.slots|..])
  }

  // ----------------------------------------------------------- the plain stack

  // A frame of the interpreter. The running frame's pc is not part of the
  // comparison: it is where the trace stopped.
  datatype Frame = Frame(fn: U32, pc: U32, dest: Option<U8>, registers: seq<Value>)

  // What a trace does to the frames. `stray` is the word a compiled return of a
  // register past the slot array would find.
  datatype Op =
    | Store(reg: U8, value: Value)
    | DoCall(callee: Callee, dest: U8, argc: U8, returnPc: U32)
    | DoReturn(reg: U8, stray: I64)

  function Last(frames: seq<Frame>): Frame
    requires frames != []
  {
    frames[|frames| - 1]
  }

  // What compiled code is: only scalars are stored, calls have the windows the
  // verifier checked and stay below the depth limit, and a return of the frame
  // the trace was entered on leaves the trace. `depth` frames are suspended and
  // the running one has `registers` registers.
  predicate Formed(depth: nat, registers: nat, stride: nat, op: Op) {
    match op
    case Store(_, v) => Scalar(v)
    case DoCall(callee, dest, argc, _) =>
      depth < MAX_JIT_CALL_DEPTH && CallFits(registers, dest, argc, callee) && callee.numRegisters <= stride
    case DoReturn(_, _) => depth > 0
  }

  datatype StackFault = RegisterOutOfRange | CallStackOverflow

  // The fault the interpreter ends in, which no static check excludes: a single
  // register the frame does not have, or a call on a full stack. `below` frames
  // of the VM lie under the `depth` suspended ones and the running one.
  function FaultOf(below: nat, depth: nat, registers: nat, op: Op): (fault: Option<StackFault>) {
    match op
    case Store(reg, _) => if reg < registers then None else Some(RegisterOutOfRange)
    case DoCall(_, _, _, _) => if below + depth + 1 < MAX_CALL_DEPTH then None else Some(CallStackOverflow)
    case DoReturn(reg, _) => if reg < registers then None else Some(RegisterOutOfRange)
  }

  // A real stack on top of `below` frames: a call pushes a `Unit` frame with the
  // arguments in front, unless the stack is full; a return changes one register
  // of the caller. A register the frame does not have is a fault.
  function PlainStep(frames: seq<Frame>, op: Op, below: nat): (r: Result<seq<Frame>, StackFault>)
    requires frames != []
    ensures r.Ok? ==> r.value != []
  {
    var n := |frames| - 1;
    var top := frames[n];
    match op
    case Store(reg, v) =>
      if reg >= |top.registers| then Err(RegisterOutOfRange)
      else Ok(frames[n := top.(registers := top.registers[reg := v])])
    case DoCall(callee, dest, argc, returnPc) =>
      if below + |frames| >= MAX_CALL_DEPTH then Err(CallStackOverflow)
      else if !CallFits(|top.registers|, dest, argc, callee) then Err(RegisterOutOfRange)
      else
        Ok(frames[n := top.(pc := returnPc)]
           + [Frame(callee.fn, 0, Some(dest), CalleeRegisters(top, callee, dest, argc))])
    case DoReturn(reg, _) =>
      if n == 0 || reg >= |top.registers| then Err(RegisterOutOfRange)
      else StoreResult(frames[..n], top.dest, top.registers[reg])
  }

  function CalleeRegisters(caller: Frame, callee: Callee, dest: U8, argc: U8): seq<Value>
    requires CallFits(|caller.registers|, dest, argc, callee)
  {
    caller.registers[dest..dest + argc] + seq(callee.numRegisters - argc, _ => Unit)
  }

  // The rest of `pop_frame`: the value goes into the register the call named.
  function StoreResult(frames: seq<Frame>, dest: Option<U8>, v: Value): (r: Result<seq<Frame>, StackFault>)
    requires frames != []
    ensures r.Ok? ==> r.value != []
  {
    var caller := Last(frames);
    if dest.None? || dest.value >= |caller.registers| then Err(RegisterOutOfRange)
    else Ok(frames[|frames| - 1 := caller.(pc := 0, registers := caller.registers[dest.value := v])])
  }

  function JitStep(j: Jit, op: Op): (r: Jit)
    requires StackOk(j) && Formed(|j.saved|, |j.live.slots|, Stride(j), op)
  {
    match op
    case Store(reg, v) => StoreReg(j, reg, v)
    case DoCall(callee, dest, argc, returnPc) => Call(j, callee, dest, argc, returnPc)
    case DoReturn(reg, stray) => Return(j, reg, stray)
  }

  // ------------------------------------------------------------ reconstruction

  // The frame rebuilt for position `k`: `suspended` or `live_frame`. The
  // outermost one is the VM's own frame with the written registers replaced.
  function FrameAt(j: Jit, k: nat): Frame
    requires k <= |j.saved| && ActOk(BaseAt(j, k), ActAt(j, k))
  {
    Frame(ActAt(j, k).fn, if k < |j.saved| then j.saved[k].returnPc else 0,
          if k == 0 then None else Some(j.saved[k - 1].dest),
          Registers(BaseAt(j, k), ActAt(j, k)))
  }

  // `install_unwind`
  function Frames(j: Jit): (frames: seq<Frame>)
    requires StackOk(j)
    ensures |frames| == |j.saved| + 1
  {
    seq(|j.saved| + 1, k requires 0 <= k <= |j.saved| => FrameAt(j, k))
  }

  lemma {:induction false} FramesShape(j: Jit)
    requires StackOk(j)
    ensures |Last(Frames(j)).registers| == |j.live.slots| <= 255
    ensures j.saved != [] ==>
      var s := j.saved[|j.saved| - 1];
      Last(Frames(j)).dest == Some(s.dest) && |s.act.slots| == |Frames(j)[|j.saved| - 1].registers|
  {
    assert ActOk(BaseAt(j, |j.saved|), ActAt(j, |j.saved|));
  }

  // ---------------------------------------------------------------- refinement

  // Writing a slot and its tag changes exactly that register.
  lemma {:induction false} PutChangesOne(base: Option<seq<Value>>, act: Act, reg: nat, bits: I64, kind: Kind)
    requires ActOk(base, act) && reg < |act.slots|
    ensures
      var r := act.(slots := act.slots[reg := bits], tags := Mark(act.tags, reg, kind));
      ActOk(base, r) && Registers(base, r) == Registers(base, act)[reg := TaggedValue(bits, kind)]
  {
    var r := act.(slots := act.slots[reg := bits], tags := Mark(act.tags, reg, kind));
    forall i | 0 <= i < |act.slots|
      ensures TagBit(r.tags.written, i) <==> i == reg || TagBit(act.tags.written, i)
      ensures KindAt(r.tags, i) == if i == reg then kind else KindAt(act.tags, i)
    {
      MarkMarksOne(act.tags, reg, kind, i);
    }
    var want := Registers(base, act)[reg := TaggedValue(bits, kind)];
    assert forall i | 0 <= i < |act.slots| :: Registers(base, r)[i] == want[i];
  }

  // A store changes the register it names, or no frame at all.
  lemma {:induction false} StoreEffect(j: Jit, reg: U8, v: Value)
    requires StackOk(j) && Scalar(v)
    ensures
      var r, top := StoreReg(j, reg, v), Last(Frames(j));
      && StackOk(r) && Stride(r) == Stride(j)
      && Frames(r) == if reg < |top.registers| then Frames(j)[|j.saved| := top.(registers := top.registers[reg := v])]
                      else Frames(j)
  {
    var n, r := |j.saved|, StoreReg(j, reg, v);
    assert ActOk(BaseAt(j, n), ActAt(j, n));
    SlotRoundTrip(v);
    if reg < |j.live.slots| {
      PutChangesOne(BaseAt(j, n), j.live, reg, SlotOf(v), KindOf(v));
    } else if reg < Stride(j) {
      MarkAbove(BaseAt(j, n), j.live, reg, KindOf(v));
    }
    SharedBelow(j, r, n);
    assert forall k | 0 <= k < n :: Frames(r)[k] == FrameAt(r, k) == FrameAt(j, k) == Frames(j)[k];
    assert Frames(r)[n] == FrameAt(r, n);
  }

  // Marking a register above the register file leaves the file as it was.
  lemma {:induction false} MarkAbove(base: Option<seq<Value>>, act: Act, reg: U8, kind: Kind)
    requires ActOk(base, act) && reg >= |act.slots|
    ensures
      var r := act.(tags := Mark(act.tags, reg, kind));
      ActOk(base, r) && Registers(base, r) == Registers(base, act)
  {
    var r := act.(tags := Mark(act.tags, reg, kind));
    forall i | 0 <= i < |act.slots|
      ensures TagBit(r.tags.written, i) <==> TagBit(act.tags.written, i)
      ensures KindAt(r.tags, i) == KindAt(act.tags, i)
    {
      MarkMarksOne(act.tags, reg, kind, i);
    }
    assert forall i | 0 <= i < |act.slots| :: Registers(base, r)[i] == Registers(base, act)[i];
  }

  // The value an argument slot and its inherited tag stand for is the caller's
  // register, whether the trace wrote it or not.
  lemma {:induction false} InheritedIsRegister(j: Jit, reg: nat)
    requires StackOk(j) && reg < |j.live.slots|
    ensures TaggedValue(j.live.slots[reg], Inherited(j.entry, j.live, reg))
      == Registers(BaseAt(j, |j.saved|), j.live)[reg]
  {
    assert ActOk(BaseAt(j, |j.saved|), ActAt(j, |j.saved|));
    if j.saved == [] && !TagBit(j.live.tags.written, reg) { SlotRoundTrip(j.entry[reg]); }
  }

  lemma {:induction false} CalleeReg(j: Jit, callee: Callee, dest: U8, argc: U8, returnPc: U32, r: nat)
    requires StackOk(j) && CallFits(|j.live.slots|, dest, argc, callee) && r < callee.numRegisters <= Stride(j)
    ensures
      var live := Call(j, callee, dest, argc, returnPc).live;
      && TagBit(live.tags.written, r)
      && ReadReg(None, live, r) == if r < argc then Registers(BaseAt(j, |j.saved|), j.live)[dest + r] else Unit
  {
    var live, kinds := Call(j, callee, dest, argc, returnPc).live, ArgKinds(j.entry, j.live, dest, argc);
    var bits := live.slots[r];
    assert live.tags == CalleeTags(kinds, callee.numRegisters);
    CalleeStored(bits, kinds, callee.numRegisters, r);
    if r < argc { ArgumentIsRegister(j, dest, argc, r); }
  }

  lemma {:induction false} ArgumentIsRegister(j: Jit, dest: nat, argc: nat, r: nat)
    requires StackOk(j) && dest + argc <= |j.live.slots| && r < argc
    ensures TaggedValue(j.live.slots[dest + r], ArgKinds(j.entry, j.live, dest, argc)[r])
      == Registers(BaseAt(j, |j.saved|), j.live)[dest + r]
  {
    InheritedIsRegister(j, dest + r);
  }

  lemma {:induction false} CalleeStored(bits: I64, kinds: seq<Kind>, n: nat, r: nat)
    requires |kinds| <= n <= 255 && r < n
    ensures TagBit(CalleeTags(kinds, n).written, r)
    ensures Stored(bits, CalleeTags(kinds, n), r) ==
      Some(TaggedValue(bits, if r < |kinds| then kinds[r] else UNIT_KIND))
  {
    CalleeTagsAre(kinds, n, r);
  }

  lemma {:induction false} CalleeStartsPlain(j: Jit, callee: Callee, dest: U8, argc: U8, returnPc: U32)
    requires StackOk(j) && CallFits(|j.live.slots|, dest, argc, callee) && callee.numRegisters <= Stride(j)
    ensures
      var live := Call(j, callee, dest, argc, returnPc).live;
      var args := Registers(BaseAt(j, |j.saved|), j.live)[dest..dest + argc];
      CalleeOk(live) && Registers(None, live) == args + seq(callee.numRegisters - argc, _ => Unit)
  {
    var live := Call(j, callee, dest, argc, returnPc).live;
    forall r | 0 <= r < callee.numRegisters
      ensures TagBit(live.tags.written, r)
      ensures ReadReg(None, live, r) == if r < argc then Registers(BaseAt(j, |j.saved|), j.live)[dest + r] else Unit
    {
      CalleeReg(j, callee, dest, argc, returnPc, r);
    }
  }

  // Two stacks that agree below position `n`.
  lemma {:induction false} SharedBelow(j: Jit, r: Jit, n: nat)
    requires StackOk(j) && n <= |j.saved| && n <= |r.saved| && r.entry == j.entry && r.saved[..n] == j.saved[..n]
    ensures forall k | 0 <= k < n :: ActAt(r, k) == ActAt(j, k) && ActOk(BaseAt(r, k), ActAt(r, k))
    ensures forall k | 0 <= k < n :: FrameAt(r, k) == FrameAt(j, k)
    ensures forall k | 0 <= k < n :: r.saved[k].dest < |r.saved[k].act.slots|
  {
    forall k | 0 <= k < n
      ensures ActAt(r, k) == ActAt(j, k) && ActOk(BaseAt(r, k), ActAt(r, k)) && FrameAt(r, k) == FrameAt(j, k)
      ensures r.saved[k].dest < |r.saved[k].act.slots|
    {
      assert r.saved[k] == r.saved[..n][k] == j.saved[..n][k] == j.saved[k];
      assert k > 0 ==> r.saved[k - 1] == r.saved[..n][k - 1] == j.saved[..n][k - 1] == j.saved[k - 1];
      assert ActOk(BaseAt(j, k), ActAt(j, k));
    }
  }

  lemma {:induction false} CallKeepsOk(j: Jit, callee: Callee, dest: U8, argc: U8, returnPc: U32)
    requires StackOk(j) && |j.saved| < MAX_JIT_CALL_DEPTH
    requires CallFits(|j.live.slots|, dest, argc, callee) && callee.numRegisters <= Stride(j)
    ensures StackOk(Call(j, callee, dest, argc, returnPc))
  {
    var n, r := |j.saved|, Call(j, callee, dest, argc, returnPc);
    SharedBelow(j, r, n);
    assert ActOk(BaseAt(j, n), ActAt(j, n));
    CalleeStartsPlain(j, callee, dest, argc, returnPc);
  }

  // A compiled call leaves the caller past the call and pushes the frame the
  // interpreter would push.
  lemma {:induction false} CallEffect(j: Jit, callee: Callee, dest: U8, argc: U8, returnPc: U32)
    requires StackOk(j) && |j.saved| < MAX_JIT_CALL_DEPTH
    requires CallFits(|j.live.slots|, dest, argc, callee) && callee.numRegisters <= Stride(j)
    ensures StackOk(Call(j, callee, dest, argc, returnPc)) && |Last(Frames(j)).registers| == |j.live.slots|
    ensures
      var n, top := |j.saved|, Last(Frames(j));
      Frames(Call(j, callee, dest, argc, returnPc)) ==
        Frames(j)[n := top.(pc := returnPc)]
        + [Frame(callee.fn, 0, Some(dest), CalleeRegisters(top, callee, dest, argc))]
  {
    FramesShape(j);
    var n, top, r := |j.saved|, Last(Frames(j)), Call(j, callee, dest, argc, returnPc);
    CallKeepsOk(j, callee, dest, argc, returnPc);
    SharedBelow(j, r, n);
    var callees := CalleeRegisters(top, callee, dest, argc);
    assert Registers(None, r.live) == callees by { CalleeStartsPlain(j, callee, dest, argc, returnPc); }
    var got, want := Frames(r), Frames(j)[n := top.(pc := returnPc)] + [Frame(callee.fn, 0, Some(dest), callees)];
    assert got[n] == FrameAt(r, n) == top.(pc := returnPc) == want[n];
    assert got[n + 1] == FrameAt(r, n + 1) == want[n + 1];
    assert forall k | 0 <= k < n :: got[k] == want[k];
    assert got == want;
  }

  // The compiled call and the interpreter agree exactly while the VM's stack has
  // room: at its limit the interpreter faults and the trace goes on.
  lemma {:induction false} CallRefines(j: Jit, op: Op, below: nat)
    requires StackOk(j) && op.DoCall? && Formed(|j.saved|, |j.live.slots|, Stride(j), op)
    ensures StackOk(JitStep(j, op))
    ensures PlainStep(Frames(j), op, below) ==
      if below + |j.saved| + 1 < MAX_CALL_DEPTH then Ok(Frames(JitStep(j, op))) else Err(CallStackOverflow)
  {
    CallEffect(j, op.callee, op.dest, op.argc, op.returnPc);
  }

  lemma {:induction false} ReturnKeepsOk(j: Jit, reg: U8, stray: I64)
    requires StackOk(j) && j.saved != []
    ensures StackOk(Return(j, reg, stray))
  {
    var n, r := |j.saved| - 1, Return(j, reg, stray);
    SharedBelow(j, r, n);
    assert ActOk(BaseAt(j, n), ActAt(j, n));
    PutChangesOne(BaseAt(j, n), j.saved[n].act, j.saved[n].dest, SlotAt(j, reg, stray), KindAt(j.live.tags, reg));
  }

  // A compiled return of any register puts what that slot and its tags stand
  // for into the caller's destination.
  lemma {:induction false} ReturnEffect(j: Jit, reg: U8, stray: I64)
    requires StackOk(j) && j.saved != []
    ensures
      var n, r := |j.saved| - 1, Return(j, reg, stray);
      StackOk(r) && StoreResult(Frames(j)[..n + 1], Some(j.saved[n].dest), Result(j, reg, stray)) == Ok(Frames(r))
  {
    FramesShape(j);
    var n, r := |j.saved| - 1, Return(j, reg, stray);
    var act, dest := j.saved[n].act, j.saved[n].dest;
    ReturnKeepsOk(j, reg, stray);
    SharedBelow(j, r, n);
    var got, want := Frames(r), StoreResult(Frames(j)[..n + 1], Some(dest), Result(j, reg, stray)).value;
    assert got[n] == want[n] by {
      assert ActOk(BaseAt(j, n), ActAt(j, n));
      PutChangesOne(BaseAt(j, n), act, dest, SlotAt(j, reg, stray), KindAt(j.live.tags, reg));
    }
    assert forall k | 0 <= k < n :: got[k] == want[k];
    assert got == want;
  }

  // For a register the callee has, that is the register.
  lemma {:induction false} ResultIsRegister(j: Jit, reg: U8, stray: I64)
    requires StackOk(j) && j.saved != [] && reg < |j.live.slots|
    ensures Result(j, reg, stray) == Last(Frames(j)).registers[reg]
  {
    assert ActOk(BaseAt(j, |j.saved|), ActAt(j, |j.saved|));
  }

  // The compiled return and the interpreter agree exactly when the callee has
  // the register: otherwise the interpreter faults and the trace goes on.
  lemma {:induction false} ReturnRefines(j: Jit, op: Op, below: nat)
    requires StackOk(j) && op.DoReturn? && j.saved != []
    ensures StackOk(JitStep(j, op))
    ensures PlainStep(Frames(j), op, below) ==
      if op.reg < |j.live.slots| then Ok(Frames(JitStep(j, op))) else Err(RegisterOutOfRange)
  {
    FramesShape(j);
    ReturnEffect(j, op.reg, op.stray);
    if op.reg < |j.live.slots| { ResultIsRegister(j, op.reg, op.stray); }
  }

  // One operation: the trace does what the stack does, exactly when the stack
  // does not fault.
  lemma {:induction false} StepRefines(j: Jit, op: Op, below: nat)
    requires StackOk(j) && Formed(|j.saved|, |j.live.slots|, Stride(j), op)
    ensures StackOk(JitStep(j, op)) && Stride(JitStep(j, op)) == Stride(j)
    ensures PlainStep(Frames(j), op, below) ==
      Unless(FaultOf(below, |j.saved|, |j.live.slots|, op), Frames(JitStep(j, op)))
  {
    match op
    case Store(reg, v) =>
      FramesShape(j);
      StoreEffect(j, reg, v);
    case DoCall(_, _, _, _) => CallRefines(j, op, below);
    case DoReturn(_, _) => ReturnRefines(j, op, below);
  }

  function Unless(fault: Option<StackFault>, frames: seq<Frame>): Result<seq<Frame>, StackFault> {
    if fault.None? then Ok(frames) else Err(fault.value)
  }

  // -------------------------------------------------------------- whole traces

  // The register counts of the frames, outermost first, after an operation.
  function CountsAfter(counts: seq<nat>, op: Op): (r: seq<nat>) {
    match op
    case Store(_, _) => counts
    case DoCall(callee, _, _, _) => counts + [callee.numRegisters]
    case DoReturn(_, _) => if counts == [] then [] else counts[..|counts| - 1]
  }

  predicate FormedTrace(counts: seq<nat>, stride: nat, ops: seq<Op>)
    decreases |ops|
  {
    ops == [] ||
    (&& counts != [] && Formed(|counts| - 1, counts[|counts| - 1], stride, ops[0])
     && FormedTrace(CountsAfter(counts, ops[0]), stride, ops[1..]))
  }

  // The register counts after a whole trace.
  function CountsRun(counts: seq<nat>, ops: seq<Op>): (r: seq<nat>)
    decreases |ops|
  {
    if ops == [] then counts else CountsRun(CountsAfter(counts, ops[0]), ops[1..])
  }

  // The first fault of a trace. Only register counts and depths matter: this can
  // be read off the code and the depth of the stack.
  function FirstFault(below: nat, counts: seq<nat>, ops: seq<Op>): (fault: Option<StackFault>)
    decreases |ops|
  {
    if ops == [] || counts == [] then None
    else
      var fault := FaultOf(below, |counts| - 1, counts[|counts| - 1], ops[0]);
      if fault.Some? then fault else FirstFault(below, CountsAfter(counts, ops[0]), ops[1..])
  }

  function Counts(j: Jit): (r: seq<nat>)
    ensures |r| == |j.saved| + 1 && r[|j.saved|] == |j.live.slots|
  {
    seq(|j.saved|, k requires 0 <= k < |j.saved| => |j.saved[k].act.slots|) + [|j.live.slots|]
  }

  lemma {:induction false} CountsFollow(j: Jit, op: Op)
    requires StackOk(j) && Formed(|j.saved|, |j.live.slots|, Stride(j), op)
    ensures Counts(JitStep(j, op)) == CountsAfter(Counts(j), op)
  {
  }

  // The plain machine stops at the first fault.
  function PlainRun(frames: seq<Frame>, ops: seq<Op>, below: nat): (r: Result<seq<Frame>, StackFault>)
    requires frames != []
    ensures r.Ok? ==> r.value != []
    decreases |ops|
  {
    if ops == [] then Ok(frames)
    else match PlainStep(frames, ops[0], below)
      case Err(fault) => Err(fault)
      case Ok(next) => PlainRun(next, ops[1..], below)
  }

  ghost function JitRun(j: Jit, ops: seq<Op>): (r: Jit)
    requires StackOk(j) && FormedTrace(Counts(j), Stride(j), ops)
    ensures StackOk(r)
    decreases |ops|
  {
    if ops == [] then j
    else
      StepRefines(j, ops[0], 0);
      CountsFollow(j, ops[0]);
      JitRun(JitStep(j, ops[0]), ops[1..])
  }

  lemma {:induction false} EnterIsPlain(fn: U32, entry: seq<Value>, stride: nat)
    requires |entry| <= stride <= 255 && forall i | 0 <= i < |entry| :: Scalar(entry[i])
    ensures
      var j := Enter(fn, entry, stride);
      StackOk(j) && Counts(j) == [|entry|] && Frames(j) == [Frame(fn, 0, None, entry)]
  {
    var j := Enter(fn, entry, stride);
    assert BaseOk(entry, j.live);
    assert Registers(Some(entry), j.live) == entry;
  }

  lemma {:induction false} RunRefines(j: Jit, ops: seq<Op>, below: nat)
    requires StackOk(j) && FormedTrace(Counts(j), Stride(j), ops)
    ensures PlainRun(Frames(j), ops, below) == Unless(FirstFault(below, Counts(j), ops), Frames(JitRun(j, ops)))
    ensures Counts(JitRun(j, ops)) == CountsRun(Counts(j), ops)
    decreases |ops|
  {
    if ops != [] {
      StepRefines(j, ops[0], below);
      CountsFollow(j, ops[0]);
      RunRefines(JitStep(j, ops[0]), ops[1..], below);
    }
  }

  // At every point of every trace, entered above `below` frames, the frames of
  // the trace are those of a machine with a real stack, if and only if that
  // machine has not faulted.
  lemma {:induction false} TraceRefinesStack(fn: U32, entry: seq<Value>, stride: nat, ops: seq<Op>, below: nat)
    requires |entry| <= stride <= 255 && forall i | 0 <= i < |entry| :: Scalar(entry[i])
    requires FormedTrace([|entry|], stride, ops)
    ensures
      var j, plain := Enter(fn, entry, stride), PlainRun([Frame(fn, 0, None, entry)], ops, below);
      var fault := FirstFault(below, [|entry|], ops);
      && StackOk(j) && FormedTrace(Counts(j), Stride(j), ops)
      && plain == Unless(fault, Frames(JitRun(j, ops)))
      && (plain == Ok(Frames(JitRun(j, ops))) <==> fault.None?)
      && |JitRun(j, ops).saved| + 1 == |CountsRun([|entry|], ops)|
  {
    EnterIsPlain(fn, entry, stride);
    RunRefines(Enter(fn, entry, stride), ops, below);
  }

  // The caller stores 7 in its register 2 and calls a function with one register,
  // which returns register 2.
  function StaleTrace(stray: I64): seq<Op> {
    [Store(2, Int(7)), DoCall(Callee(1, 1), 0, 0, 2), DoReturn(2, stray)]
  }

  lemma {:induction false} StaleTraceIsFormed(stray: I64)
    ensures FormedTrace([3], 3, StaleTrace(stray))
    ensures FirstFault(0, [3], StaleTrace(stray)) == Some(RegisterOutOfRange)
  {
    var ops := StaleTrace(stray);
    assert ops[1..][1..] == ops[2..] && ops[2..][1..] == [];
    assert CountsAfter([3], ops[0]) == [3] && CountsAfter([3], ops[1]) == [3, 1] && CountsAfter([3, 1], ops[2]) == [3];
    assert FormedTrace([3, 1], 3, ops[2..]) && FirstFault(0, [3, 1], ops[2..]) == Some(RegisterOutOfRange);
    assert FormedTrace([3], 3, ops[1..]) && FirstFault(0, [3], ops[1..]) == Some(RegisterOutOfRange);
  }

  // The state before the return: the callee's one register is `Unit`, and the
  // caller's 7 is still in the slot above it.
  lemma {:induction false} StaleSlotSurvives(j: Jit, stray: I64)
    requires j == Enter(0, [Unit, Unit, Unit], 3) && StackOk(j)
    ensures
      var j2 := Call(StoreReg(j, 2, Int(7)), Callee(1, 1), 0, 0, 2);
      && StackOk(j2) && Result(j2, 2, stray) == Int(7)
      && Frames(j2) == [Frame(0, 2, None, [Unit, Unit, Int(7)]), Frame(1, 0, Some(0), [Unit])]
  {
    EnterIsPlain(0, [Unit, Unit, Unit], 3);
    var j1 := StoreReg(j, 2, Int(7));
    StoreEffect(j, 2, Int(7));
    assert Last(Frames(j1)).registers == [Unit, Unit, Int(7)];
    CallEffect(j1, Callee(1, 1), 0, 0, 2);
    assert CalleeRegisters(Last(Frames(j1)), Callee(1, 1), 0, 0) == [Unit];
    MarkMarksOne(Tags(NO_TAGS, NO_TAGS, NO_TAGS, NO_TAGS), 0, UNIT_KIND, 2);
  }

  // The interpreter faults; the trace hands the caller its own 7 as the result.
  lemma {:induction false} StaleSlotIsReturned(stray: I64)
    ensures
      var entry, ops := [Unit, Unit, Unit], StaleTrace(stray);
      var j := Enter(0, entry, 3);
      && StackOk(j) && FormedTrace(Counts(j), Stride(j), ops)
      && PlainRun([Frame(0, 0, None, entry)], ops, 0) == Err(RegisterOutOfRange)
      && Frames(JitRun(j, ops)) == [Frame(0, 0, None, [Int(7), Unit, Int(7)])]
  {
    var entry, ops := [Unit, Unit, Unit], StaleTrace(stray);
    var j := Enter(0, entry, 3);
    EnterIsPlain(0, entry, 3);
    StaleTraceIsFormed(stray);
    RunRefines(j, ops, 0);
    RunInThree(j, ops[0], ops[1], ops[2]);
    StaleReturn(j, stray);
  }

  lemma {:induction false} StaleReturn(j: Jit, stray: I64)
    requires j == Enter(0, [Unit, Unit, Unit], 3) && StackOk(j)
    ensures
      var j3 := Return(Call(StoreReg(j, 2, Int(7)), Callee(1, 1), 0, 0, 2), 2, stray);
      StackOk(j3) && Frames(j3) == [Frame(0, 0, None, [Int(7), Unit, Int(7)])]
  {
    StaleSlotSurvives(j, stray);
    var j2 := Call(StoreReg(j, 2, Int(7)), Callee(1, 1), 0, 0, 2);
    ReturnEffect(j2, 2, stray);
    assert [Unit, Unit, Int(7)][0 := Int(7)] == [Int(7), Unit, Int(7)];
  }

  lemma {:induction false} RunInThree(j: Jit, a: Op, b: Op, c: Op)
    requires StackOk(j) && FormedTrace(Counts(j), Stride(j), [a, b, c])
    ensures Formed(|j.saved|, |j.live.slots|, Stride(j), a)
    ensures
      var j1 := JitStep(j, a);
      && StackOk(j1) && Formed(|j1.saved|, |j1.live.slots|, Stride(j1), b)
      && var j2 := JitStep(j1, b);
      && StackOk(j2) && Formed(|j2.saved|, |j2.live.slots|, Stride(j2), c)
      && JitRun(j, [a, b, c]) == JitStep(j2, c)
  {
    StepRefines(j, a, 0);
    CountsFollow(j, a);
    var j1 := JitStep(j, a);
    assert [a, b, c][1..] == [b, c] && [b, c][1..] == [c] && [c][1..] == [];
    assert FormedTrace(Counts(j1), Stride(j1), [b, c]);
    StepRefines(j1, b, 0);
    CountsFollow(j1, b);
    var j2 := JitStep(j1, b);
    assert FormedTrace(Counts(j2), Stride(j2), [c]);
    assert JitRun(j2, [c]) == JitStep(j2, c);
    assert JitRun(j1, [b, c]) == JitRun(j2, [c]);
  }

  // -------------------------------------------------------------- handing back

  function WithPc(frames: seq<Frame>, pc: U32): (r: seq<Frame>)
    requires frames != []
    ensures |r| == |frames|
  {
    frames[|frames| - 1 := Last(frames).(pc := pc)]
  }

  // The VM's frames with those of a trace in the place of the running one.
  function Placed(vm: seq<Frame>, frames: seq<Frame>, pc: U32): seq<Frame>
    requires vm != [] && frames != []
  {
    var top, placed := Last(vm), WithPc(frames, pc);
    vm[..|vm| - 1] + [placed[0].(fn := top.fn, dest := top.dest)] + placed[1..]
  }

  // `install_jit_frames`: the VM's running frame takes the state of the
  // outermost activation, the nested ones are pushed on top. Nothing is
  // installed when the stack would pass the VM's own depth limit.
  function Install(vm: seq<Frame>, j: Jit, pc: U32): (r: Result<seq<Frame>, StackFault>)
    requires StackOk(j) && vm != []
  {
    if |vm| + |j.saved| > MAX_CALL_DEPTH then Err(CallStackOverflow) else Ok(Placed(vm, Frames(j), pc))
  }

  // What the interpreter ends with after the same operations.
  function Interpreted(vm: seq<Frame>, ops: seq<Op>, pc: U32): (r: Result<seq<Frame>, StackFault>)
    requires vm != []
  {
    Resumed(vm, PlainRun([Frame(Last(vm).fn, 0, None, Last(vm).registers)], ops, |vm| - 1), pc)
  }

  function Resumed(vm: seq<Frame>, plain: Result<seq<Frame>, StackFault>, pc: U32): (r: Result<seq<Frame>, StackFault>)
    requires vm != [] && (plain.Ok? ==> plain.value != [])
  {
    match plain
    case Err(fault) => Err(fault)
    case Ok(frames) => Ok(Placed(vm, frames, pc))
  }

  lemma {:induction false} HandedBack(vm: seq<Frame>, j: Jit, fault: Option<StackFault>, pc: U32)
    requires vm != [] && StackOk(j) && (fault.None? ==> |vm| + |j.saved| <= MAX_CALL_DEPTH)
    ensures Install(vm, j, pc) == Resumed(vm, Unless(fault, Frames(j)), pc) <==>
      fault.None? || (fault == Some(CallStackOverflow) && |vm| + |j.saved| > MAX_CALL_DEPTH)
  {
  }

  // A trace that does not fault ends within the VM's depth limit.
  lemma {:induction false} NoFaultNoOverflow(below: nat, counts: seq<nat>, stride: nat, ops: seq<Op>)
    requires FormedTrace(counts, stride, ops) && FirstFault(below, counts, ops).None?
    requires below + |counts| <= MAX_CALL_DEPTH
    ensures below + |CountsRun(counts, ops)| <= MAX_CALL_DEPTH
    decreases |ops|
  {
    if ops != [] { NoFaultNoOverflow(below, CountsAfter(counts, ops[0]), stride, ops[1..]); }
  }

  // Entering a trace on the running frame of a VM, running it and handing back
  // ends as the interpreter does, if and only if the interpreter does not fault,
  // or faults on a full stack and the trace is still over the limit when it is
  // handed back.
  lemma {:induction false} TraceIsTransparent(vm: seq<Frame>, stride: nat, ops: seq<Op>, pc: U32)
    requires 1 <= |vm| <= MAX_CALL_DEPTH && |Last(vm).registers| <= stride <= 255
    requires forall i | 0 <= i < |Last(vm).registers| :: Scalar(Last(vm).registers[i])
    requires FormedTrace([|Last(vm).registers|], stride, ops)
    ensures
      var top, below := Last(vm), |vm| - 1;
      var j, fault := Enter(top.fn, top.registers, stride), FirstFault(below, [|top.registers|], ops);
      && StackOk(j) && FormedTrace(Counts(j), Stride(j), ops)
      && (Install(vm, JitRun(j, ops), pc) == Interpreted(vm, ops, pc) <==>
            || fault.None?
            || (fault == Some(CallStackOverflow) && below + |CountsRun([|top.registers|], ops)| > MAX_CALL_DEPTH))
      && (fault.None? ==> Interpreted(vm, ops, pc).Ok?)
  {
    var top, below := Last(vm), |vm| - 1;
    TraceRefinesStack(top.fn, top.registers, stride, ops, below);
    var fault := FirstFault(below, [|top.registers|], ops);
    if fault.None? { NoFaultNoOverflow(below, [|top.registers|], stride, ops); }
    HandedBack(vm, JitRun(Enter(top.fn, top.registers, stride), ops), fault, pc);
  }

  // A VM at its depth limit, and a trace that calls once and returns.
  function FullStack(): seq<Frame> {
    seq(MAX_CALL_DEPTH, _ => Frame(0, 0, None, [Unit]))
  }

  function CallAndReturn(): seq<Op> {
    [DoCall(Callee(1, 1), 0, 0, 1), DoReturn(0, 0)]
  }

  // The interpreter faults on the call; the trace runs through and is handed back.
  lemma {:induction false} CeilingIsPassed(pc: U32)
    ensures
      var vm, ops, j := FullStack(), CallAndReturn(), Enter(0, [Unit], 1);
      && StackOk(j) && FormedTrace(Counts(j), Stride(j), ops)
      && Interpreted(vm, ops, pc) == Err(CallStackOverflow)
      && Install(vm, JitRun(j, ops), pc).Ok?
  {
    var vm, ops := FullStack(), CallAndReturn();
    CallAndReturnCounts();
    TraceRefinesStack(0, [Unit], 1, ops, |vm| - 1);
  }

  lemma {:induction false} CallAndReturnCounts()
    ensures FormedTrace([1], 1, CallAndReturn()) && CountsRun([1], CallAndReturn()) == [1]
    ensures FirstFault(MAX_CALL_DEPTH - 1, [1], CallAndReturn()) == Some(CallStackOverflow)
  {
    var ops := CallAndReturn();
    var call, back := ops[0], ops[1];
    assert ops[1..] == [back] && [back][1..] == [];
    assert CountsAfter([1], call) == [1, 1];
    assert CountsAfter([1, 1], back) == [1];
    assert FormedTrace([1], 1, []) && CountsRun([1], []) == [1];
    assert FormedTrace([1, 1], 1, [back]) && CountsRun([1, 1], [back]) == [1];
  }
}
