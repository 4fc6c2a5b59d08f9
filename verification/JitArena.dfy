/**
 The arrays a compiled trace works in (byteflow/src/jit/frame.rs), and the
 stores `emit_call` and `emit_return` compile to (byteflow/src/jit/call.rs):
 one slot array, a spill arena with one window per call level, call records
 and tag words. Each method is proved to do to the arrays what the operation
 of the same name in `JitFrames` does to the stack of activations.
 */
module JitArena {
  import opened Common
  import opened Values
  import opened JitFrames
  import opened JitTags

  // `JitCallRecord`
  datatype CallRecord = CallRecord(returnPc: U32, returnFn: U32, dest: U8, callerRegs: nat, tags: TagArrays)

  // -------------------------------------------------------------------- layout

  // The window of level `k` ends before the window of any later level starts.
  lemma {:induction false} WindowsApart(k: nat, m: nat, stride: nat)
    requires k < m
    ensures k * stride + stride <= m * stride
  {
    assert (k + 1) * stride <= m * stride;
  }

  // The suspended activation that a record and the window of its level hold.
  ghost function SavedAt(rec: CallRecord, spill: seq<I64>, start: nat): Saved
    requires start + rec.callerRegs <= |spill|
  {
    Saved(Act(rec.returnFn, spill[start..start + rec.callerRegs], TagsView(rec.tags)), rec.returnPc, rec.dest)
  }

  predicate LayoutOk(records: seq<CallRecord>, spill: seq<I64>, stride: nat, depth: nat) {
    && depth <= |records| && depth * stride <= |spill|
    && forall k | 0 <= k < depth :: records[k].callerRegs <= stride
  }

  // All suspended activations, outermost first.
  ghost function SavedOf(records: seq<CallRecord>, spill: seq<I64>, stride: nat, depth: nat): (saved: seq<Saved>)
    requires LayoutOk(records, spill, stride, depth)
    ensures |saved| == depth
    decreases depth
  {
    if depth == 0 then []
    else
      WindowsApart(depth - 1, depth, stride);
      SavedOf(records, spill, stride, depth - 1) + [SavedAt(records[depth - 1], spill, (depth - 1) * stride)]
  }

  // The `k`-th of them is held by the `k`-th record and window.
  lemma {:induction false} SavedOfAt(
    records: seq<CallRecord>, spill: seq<I64>, stride: nat, depth: nat, k: nat, start: nat)
    requires LayoutOk(records, spill, stride, depth) && k < depth && start == k * stride
    ensures start + records[k].callerRegs <= |spill|
    ensures SavedOf(records, spill, stride, depth)[k] == SavedAt(records[k], spill, start)
    decreases depth
  {
    WindowsApart(k, depth, stride);
    WindowsApart(depth - 1, depth, stride);
    if k < depth - 1 { SavedOfAt(records, spill, stride, depth - 1, k, start); }
  }

  // They depend on nothing past the last window in use.
  lemma {:induction false} SavedStable(
    records: seq<CallRecord>, spill: seq<I64>, records': seq<CallRecord>, spill': seq<I64>, stride: nat, depth: nat)
    requires LayoutOk(records, spill, stride, depth) && depth <= |records'| && depth * stride <= |spill'|
    requires forall k | 0 <= k < depth :: records'[k] == records[k]
    requires forall i | 0 <= i < depth * stride :: spill'[i] == spill[i]
    ensures LayoutOk(records', spill', stride, depth)
    ensures SavedOf(records', spill', stride, depth) == SavedOf(records, spill, stride, depth)
    decreases depth
  {
    if depth > 0 {
      WindowsApart(depth - 1, depth, stride);
      SavedStable(records, spill, records', spill', stride, depth - 1);
      assert SavedAt(records'[depth - 1], spill', (depth - 1) * stride)
        == SavedAt(records[depth - 1], spill, (depth - 1) * stride);
    }
  }

  // Filling the next window and record suspends one more activation.
  lemma {:induction false} PushWindow(
    records: seq<CallRecord>, spill: seq<I64>, records': seq<CallRecord>, spill': seq<I64>,
    stride: nat, depth: nat, window: seq<I64>)
    requires LayoutOk(records, spill, stride, depth)
    requires depth < |records'| && depth * stride + stride <= |spill'|
    requires forall k | 0 <= k < depth :: records'[k] == records[k]
    requires forall i | 0 <= i < depth * stride :: spill'[i] == spill[i]
    requires records'[depth].callerRegs == |window| <= stride
    requires forall i | 0 <= i < |window| :: spill'[depth * stride + i] == window[i]
    ensures LayoutOk(records', spill', stride, depth + 1)
    ensures
      var rec := records'[depth];
      SavedOf(records', spill', stride, depth + 1)
      == SavedOf(records, spill, stride, depth)
         + [Saved(Act(rec.returnFn, window, TagsView(rec.tags)), rec.returnPc, rec.dest)]
  {
    SavedStable(records, spill, records', spill', stride, depth);
    var start := depth * stride;
    assert start + stride == (depth + 1) * stride;
    assert spill'[start..start + |window|] == window;
  }

  // Giving up the last window and record resumes the activation they hold.
  lemma {:induction false} PopWindow(
    records: seq<CallRecord>, spill: seq<I64>, stride: nat, depth: nat, start: nat)
    requires LayoutOk(records, spill, stride, depth + 1) && start == depth * stride
    ensures LayoutOk(records, spill, stride, depth) && start + records[depth].callerRegs <= |spill|
    ensures
      var saved := SavedOf(records, spill, stride, depth + 1);
      saved[..depth] == SavedOf(records, spill, stride, depth) &&
      saved[depth] == SavedAt(records[depth], spill, start)
  {
    WindowsApart(depth, depth + 1, stride);
  }

  // The stack of activations that the arrays and words of a trace stand for.
  ghost function JitOf(
    entry: seq<Value>, records: seq<CallRecord>, spill: seq<I64>, stride: nat, depth: nat,
    fn: U32, slots: seq<I64>, count: nat, tags: Tags): Jit
    requires LayoutOk(records, spill, stride, depth) && count <= |slots|
  {
    Jit(entry, SavedOf(records, spill, stride, depth), Act(fn, slots[..count], tags), slots[count..])
  }

  // Copying the last window over the slots and taking its record's tags is what
  // a return does before it stores the result.
  lemma {:induction false} Resumes(
    entry: seq<Value>, records: seq<CallRecord>, spill: seq<I64>, stride: nat, depth: nat, start: nat,
    fn: U32, slots: seq<I64>, count: nat, tags: Tags, slots': seq<I64>)
    requires LayoutOk(records, spill, stride, depth + 1) && start == depth * stride
    requires |slots'| == |slots| == stride && count <= stride && start + records[depth].callerRegs <= |spill|
    requires forall i | 0 <= i < stride ::
      slots'[i] == if i < records[depth].callerRegs then spill[start + i] else slots[i]
    ensures LayoutOk(records, spill, stride, depth)
    ensures
      var rec, before := records[depth], JitOf(entry, records, spill, stride, depth + 1, fn, slots, count, tags);
      var s := before.saved[depth];
      && |s.act.slots| == rec.callerRegs && s.dest == rec.dest
      && JitOf(entry, records, spill, stride, depth, rec.returnFn, slots', rec.callerRegs, TagsView(rec.tags))
         == Jit(entry, before.saved[..depth], s.act, slots[rec.callerRegs..])
  {
    PopWindow(records, spill, stride, depth, start);
    var n := records[depth].callerRegs;
    assert slots'[..n] == spill[start..start + n];
    assert slots'[n..] == slots[n..];
  }

  // `emit_copy_window`: `count` slots from one array to another.
  method CopyWindow(src: array<I64>, from: nat, dst: array<I64>, to: nat, count: nat)
    requires src != dst && from + count <= src.Length && to + count <= dst.Length
    modifies dst
    ensures forall i | 0 <= i < dst.Length :: dst[i] == if to <= i < to + count then src[from + i - to] else old(dst[i])
  {
    for index := 0 to count
      invariant forall i | 0 <= i < dst.Length ::
        dst[i] == if to <= i < to + index then src[from + i - to] else old(dst[i])
    {
      dst[to + index] := src[from + index];
    }
  }

  // `zero_slots` and `copy_args_from_spill`: the arguments come from the window
  // the caller's `count` slots were just copied to.
  method LoadCallee(slots: array<I64>, spill: array<I64>, window: nat, count: nat, dest: nat, argc: nat, n: nat)
    requires slots != spill && argc <= n <= slots.Length && dest + argc <= count <= slots.Length
    requires window + count <= spill.Length && forall i | 0 <= i < count :: spill[window + i] == slots[i]
    modifies slots
    ensures slots[..n] == CalleeSlots(old(slots[..count]), dest, argc, n)
    ensures slots[n..] == old(slots[n..])
  {
    ghost var caller := slots[..count];
    for i := 0 to n
      invariant forall k | 0 <= k < i :: slots[k] == 0
      invariant slots[n..] == old(slots[n..])
    {
      slots[i] := 0;
    }
    CopyWindow(spill, window + dest, slots, 0, argc);
    ghost var want := CalleeSlots(caller, dest, argc, n);
    assert forall i | 0 <= i < n :: slots[i] == want[i];
  }

  // ------------------------------------------------------------------ the frame

  class Arena {
    const stride: nat
    const slots: array<I64>
    const spill: array<I64>
    const records: array<CallRecord>
    const entry: seq<Value>
    var registerCount: nat
    var fn: U32
    var depth: nat
    var tags: TagArrays

    ghost predicate Valid()
      reads this, slots, spill, records
    {
      && slots != spill
      && slots.Length == stride && spill.Length == MAX_JIT_CALL_DEPTH * stride && records.Length == MAX_JIT_CALL_DEPTH
      && registerCount <= stride <= 255
      && LayoutOk(records[..], spill[..], stride, depth)
    }

    // The stack of activations these arrays stand for.
    ghost function State(): Jit
      requires Valid()
      reads this, slots, spill, records
    {
      JitOf(entry, records[..], spill[..], stride, depth, fn, slots[..], registerCount, TagsView(tags))
    }

    // A trace entered on the VM's running frame, with room for `stride` slots.
    constructor (fn: U32, entry: seq<Value>, stride: nat)
      requires |entry| <= stride <= 255 && forall i | 0 <= i < |entry| :: Scalar(entry[i])
      ensures Valid() && State() == Enter(fn, entry, stride)
      ensures fresh(slots) && fresh(spill) && fresh(records)
    {
      this.stride := stride;
      this.entry := entry;
      this.registerCount, this.fn, this.depth := |entry|, fn, 0;
      var none := ClearWords();
      this.tags := none;
      slots := new I64[stride](i requires 0 <= i => if i < |entry| && Scalar(entry[i]) then SlotOf(entry[i]) else 0);
      spill := new I64[MAX_JIT_CALL_DEPTH * stride](_ => 0);
      records := new CallRecord[MAX_JIT_CALL_DEPTH](_ =>
        CallRecord(0, 0, 0, 0, none));
    }

    // A tagged slot store, dropped when the array has no such slot.
    method StoreSlot(reg: U8, v: Value)
      requires Valid() && Scalar(v)
      modifies this`tags, slots
      ensures Valid() && State() == StoreReg(old(State()), reg, v)
    {
      if reg >= slots.Length { return; }
      slots[reg] := SlotOf(v);
      tags := MarkReg(tags, reg, KindOf(v));
    }

    // `emit_call`: refused at the depth limit, where the trace leaves everything
    // as it was for the interpreter to run the call.
    method EnterCall(callee: Callee, dest: U8, argc: U8, returnPc: U32) returns (entered: bool)
      requires Valid() && CallFits(registerCount, dest, argc, callee) && callee.numRegisters <= stride
      modifies this, slots, spill, records
      ensures Valid() && entered == (old(depth) < MAX_JIT_CALL_DEPTH)
      ensures State() == if entered then Call(old(State()), callee, dest, argc, returnPc) else old(State())
    {
      if depth >= MAX_JIT_CALL_DEPTH { return false; }
      var window := SpillCaller(returnPc, dest);
      BecomeCallee(callee, dest, argc, window);
      return true;
    }

    // The live activation becomes the callee, its arguments read back from the
    // window just filled.
    method BecomeCallee(callee: Callee, dest: U8, argc: U8, window: nat)
      requires Valid() && CallFits(registerCount, dest, argc, callee) && callee.numRegisters <= stride
      requires window + registerCount <= spill.Length
      requires forall i | 0 <= i < registerCount :: spill[window + i] == slots[i]
      modifies this`registerCount, this`fn, this`tags, slots
      ensures Valid()
      ensures State() == old(State()).(live := CalleeAct(entry, old(State()).live, callee, dest, argc),
                                       spare := Slots(old(State()))[callee.numRegisters..])
    {
      assert slots[..] == Slots(State());
      var kinds := ReadArgKinds(dest, argc);
      LoadCallee(slots, spill, window, registerCount, dest, argc, callee.numRegisters);
      tags := CalleeWords(kinds, callee.numRegisters);
      registerCount, fn := callee.numRegisters, callee.fn;
    }

    // The caller's slots into the window of this level, its tags into the record.
    method SpillCaller(returnPc: U32, dest: U8) returns (window: nat)
      requires Valid() && depth < MAX_JIT_CALL_DEPTH
      modifies this`depth, spill, records
      ensures Valid() && depth == old(depth) + 1
      ensures State() == old(State()).(saved := old(State()).saved + [Saved(old(State()).live, returnPc, dest)])
      ensures window + registerCount <= spill.Length
      ensures forall i | 0 <= i < registerCount :: spill[window + i] == slots[i]
    {
      ghost var r0, s0 := records[..], spill[..];
      window := depth * stride;
      WindowsApart(depth, MAX_JIT_CALL_DEPTH, stride);
      CopyWindow(slots, 0, spill, window, registerCount);
      records[depth] := CallRecord(returnPc, fn, dest, registerCount, tags);
      PushWindow(r0, s0, records[..], spill[..], stride, depth, slots[..registerCount]);
      depth := depth + 1;
    }

    // The tag of each argument, before the callee's tags replace the caller's.
    method ReadArgKinds(dest: U8, argc: U8) returns (kinds: seq<Kind>)
      requires Valid()
      ensures kinds == ArgKinds(entry, State().live, dest, argc)
    {
      ghost var want := ArgKinds(entry, State().live, dest, argc);
      kinds := [];
      for i := 0 to argc
        invariant kinds == want[..i]
      {
        var kind := InheritedKind(dest + i);
        kinds := kinds + [kind];
      }
    }

    // `inherited_bit`, for the three type bits.
    method InheritedKind(reg: nat) returns (kind: Kind)
      requires Valid()
      ensures kind == Inherited(entry, State().live, reg)
    {
      var written := TestReg(tags.written, reg);
      if written { kind := ReadKind(tags, reg); } else { kind := EntryKind(entry, reg); }
    }

    // `emit_return` below the entry frame: the caller's slots and tags come
    // back, then the result goes into the destination of the call. Past the slot
    // array the load finds some word, `stray`.
    method LeaveCall(reg: U8, stray: I64)
      requires Valid() && depth > 0
      requires var s := State().saved[depth - 1]; s.dest < |s.act.slots| <= stride
      modifies this, slots
      ensures Valid() && State() == Return(old(State()), reg, stray)
    {
      assert slots[..] == Slots(State());
      var result := if reg < slots.Length then slots[reg] else stray;
      var kind := ReadKind(tags, reg);
      RestoreCaller();
      slots[records[depth].dest] := result;
      tags := MarkReg(tags, records[depth].dest, kind);
    }

    // The suspended activation on top is live again.
    method RestoreCaller()
      requires Valid() && depth > 0
      modifies this, slots
      ensures Valid() && depth == old(depth) - 1
      ensures
        var s := old(State()).saved[depth];
        && |s.act.slots| <= stride && records[depth].dest == s.dest
        && State() == Jit(entry, old(State()).saved[..depth], s.act, Slots(old(State()))[|s.act.slots|..])
    {
      ghost var before, slots0, count, live := State(), slots[..], registerCount, TagsView(tags);
      assert slots0 == Slots(before);
      depth := depth - 1;
      var rec := records[depth];
      var start := depth * stride;
      PopWindow(records[..], spill[..], stride, depth, start);
      CopyWindow(spill, start, slots, 0, rec.callerRegs);
      Resumes(entry, records[..], spill[..], stride, depth, start, fn, slots0, count, live, slots[..]);
      fn, registerCount, tags := rec.returnFn, rec.callerRegs, rec.tags;
    }

    // `install_unwind`: suspended windows, then the live slots, back into frames.
    method InstallUnwind(vm: seq<Frame>, pc: U32) returns (r: Result<seq<Frame>, StackFault>)
      requires Valid() && StackOk(State()) && vm != [] && depth > 0
      ensures r == Install(vm, State(), pc)
    {
      if |vm| + depth > MAX_CALL_DEPTH { return Err(CallStackOverflow); }
      var frames := RebuildFrames(pc);
      var rec, window := Suspended(0);
      assert ActOk(BaseAt(State(), 0), ActAt(State(), 0));
      var base := FrameValues(Some(entry), window, rec.tags, rec.returnFn);
      var top := Last(vm);
      r := Ok(vm[..|vm| - 1] + [Frame(top.fn, rec.returnPc, top.dest, base)] + frames);
    }

    // The nested activations, outermost first: every window but the first, then
    // the live slots. Each returns into the register its own call named.
    method RebuildFrames(pc: U32) returns (frames: seq<Frame>)
      requires Valid() && StackOk(State()) && depth > 0
      ensures frames == WithPc(Frames(State()), pc)[1..]
    {
      ghost var j := State();
      var caller, window := Suspended(0);
      frames := [];
      for k := 1 to depth
        invariant caller.dest == j.saved[k - 1].dest
        invariant |frames| == k - 1 && forall i | 0 <= i < k - 1 :: frames[i] == FrameAt(j, i + 1)
      {
        var dest := caller.dest;
        caller, window := Suspended(k);
        assert ActOk(BaseAt(j, k), ActAt(j, k));
        var registers := FrameValues(None, window, caller.tags, caller.returnFn);
        frames := frames + [Frame(caller.returnFn, caller.returnPc, Some(dest), registers)];
      }
      assert ActOk(BaseAt(j, depth), ActAt(j, depth));
      var registers := FrameValues(None, slots[..registerCount], tags, fn);
      frames := frames + [Frame(fn, pc, Some(caller.dest), registers)];
    }

    // `spill_window`: a record and the window of its level.
    method Suspended(k: nat) returns (rec: CallRecord, window: seq<I64>)
      requires Valid() && k < depth
      ensures State().saved[k] == Saved(Act(rec.returnFn, window, TagsView(rec.tags)), rec.returnPc, rec.dest)
    {
      var start := k * stride;
      SavedOfAt(records[..], spill[..], stride, depth, k, start);
      rec := records[k];
      window := spill[start..start + rec.callerRegs];
      assert window == spill[..][start..start + rec.callerRegs];
    }
  }

  // `frame_values` and, on a frame that already has values, `written_updates`:
  // replace the registers the activation wrote.
  method FrameValues(base: Option<seq<Value>>, slots: seq<I64>, tags: TagArrays, ghost fn: U32)
    returns (registers: seq<Value>)
    requires base.Some? ==> |base.value| == |slots|
    ensures registers == Registers(base, Act(fn, slots, TagsView(tags)))
  {
    var updates := WrittenUpdates(slots, tags);
    registers := Overlay(if base.Some? then base.value else seq(|slots|, _ => Unit), updates);
  }

  method WrittenUpdates(slots: seq<I64>, tags: TagArrays) returns (updates: seq<Option<Value>>)
    ensures |updates| == |slots|
    ensures forall i | 0 <= i < |slots| :: updates[i] == Stored(slots[i], TagsView(tags), i)
  {
    ghost var view := TagsView(tags);
    updates := [];
    for index := 0 to |slots|
      invariant |updates| == index && forall i | 0 <= i < index :: updates[i] == Stored(slots[i], view, i)
    {
      var update := WrittenValue(slots[index], tags, index);
      updates := updates + [update];
    }
  }

  method Overlay(base: seq<Value>, updates: seq<Option<Value>>) returns (registers: seq<Value>)
    requires |updates| == |base|
    ensures |registers| == |base|
    ensures forall i | 0 <= i < |base| :: registers[i] == if updates[i].Some? then updates[i].value else base[i]
  {
    var regs := new Value[|base|](i requires 0 <= i => if i < |base| then base[i] else Unit);
    for index := 0 to |base|
      invariant forall i | 0 <= i < |base| ::
        regs[i] == if i < index && updates[i].Some? then updates[i].value else base[i]
    {
      if updates[index].Some? { regs[index] := updates[index].value; }
    }
    registers := regs[..];
  }

  // The value the trace stored in a register, if it did.
  method WrittenValue(bits: I64, tags: TagArrays, reg: nat) returns (v: Option<Value>)
    ensures v == Stored(bits, TagsView(tags), reg)
  {
    var written := TestReg(tags.written, reg);
    if !written { return None; }
    var kind := ReadKind(tags, reg);
    return Some(TaggedValue(bits, kind));
  }
}
