/**
 The imperative form of byteflow/src/bytecode/format.rs: writers that push onto
 an `out` buffer and a `Reader` that advances a position, each proved to
 compute the layout functions of `Codec` and `ModuleFormat`.
 */
module Streams {
  import opened Common
  import opened Values
  import opened Chunks
  import opened Trust
  import opened Wire
  import opened Codec
  import opened ModuleFormat
  import Utf8

  class Writer {
    var out: Bytes

    constructor ()
      ensures out == []
    {
      out := [];
    }

    // `write_value`
    method PutValue(v: Value)
      modifies this
      ensures out == old(out) + WriteValue(v)
      decreases v, 1
    {
      match v
      case Msg(m) =>
        Nest(out, [5], WriteEnvelope(m), WriteValue(m.payload));
        out := out + [5] + WriteEnvelope(m);
        PutValue(m.payload);
      case List(items) =>
        Nest(out, [9], LittleEndian(|items|, 4), WriteItems(items));
        out := out + [9] + LittleEndian(|items|, 4);
        PutItems(items);
      case Map(entries) =>
        Nest(out, [10], LittleEndian(|entries|, 4), WriteEntries(entries));
        out := out + [10] + LittleEndian(|entries|, 4);
        PutEntries(entries);
      case Record(fields) =>
        Nest(out, [11], LittleEndian(|fields|, 4), WriteItems(fields));
        out := out + [11] + LittleEndian(|fields|, 4);
        PutItems(fields);
      case _ =>
        out := out + WriteValue(v);
    }

    method PutItems(items: seq<Value>)
      modifies this
      ensures out == old(out) + WriteItems(items)
      decreases items, 0
    {
      for i := 0 to |items|
        invariant out + WriteItems(items[i..]) == old(out) + WriteItems(items)
      {
        ghost var before := out;
        assert items[i..][1..] == items[i + 1..];
        CatAssoc(before, WriteValue(items[i]), WriteItems(items[i + 1..]));
        PutValue(items[i]);
      }
    }

    method PutEntries(entries: seq<Entry>)
      modifies this
      ensures out == old(out) + WriteEntries(entries)
      decreases entries, 0
    {
      for i := 0 to |entries|
        invariant out + WriteEntries(entries[i..]) == old(out) + WriteEntries(entries)
      {
        ghost var before := out;
        assert entries[i..][1..] == entries[i + 1..];
        CatAssoc(before, WriteEntry(entries[i]), WriteEntries(entries[i + 1..]));
        CatAssoc(before, WriteKey(entries[i].key), WriteValue(entries[i].value));
        out := out + WriteKey(entries[i].key);
        assert entries[i].value < entries[i];
        PutValue(entries[i].value);
      }
    }

    method PutFunctions(functions: seq<FunctionDef>)
      modifies this
      ensures out == old(out) + WriteFunctions(functions)
    {
      for i := 0 to |functions|
        invariant out + WriteFunctions(functions[i..]) == old(out) + WriteFunctions(functions)
      {
        assert functions[i..][1..] == functions[i + 1..];
        CatAssoc(out, WriteFunction(functions[i]), WriteFunctions(functions[i + 1..]));
        out := out + WriteFunction(functions[i]);
      }
    }

    method PutCode(code: seq<Instruction>)
      modifies this
      ensures out == old(out) + WriteCode(code)
    {
      for i := 0 to |code|
        invariant out + WriteCode(code[i..]) == old(out) + WriteCode(code)
      {
        assert code[i..][1..] == code[i + 1..];
        CatAssoc(out, WriteInstruction(code[i]), WriteCode(code[i + 1..]));
        out := out + WriteInstruction(code[i]);
      }
    }

    // `encode`
    method PutModule(chunk: Chunk)
      modifies this
      ensures out == old(out) + Encode(chunk)
    {
      var abi := LittleEndian(ModuleAbi(chunk.constants), 4);
      var code := LittleEndian(|chunk.code|, 4);
      var functions := LittleEndian(|chunk.functions|, 4);
      var constants := LittleEndian(|chunk.constants|, 4);
      Nest(out, MAGIC, abi, WritePool(chunk));
      out := out + MAGIC + abi;
      Nest(out, WriteString(chunk.name), constants, WriteItems(chunk.constants) + WriteTables(chunk));
      out := out + WriteString(chunk.name) + constants;
      CatAssoc(out, WriteItems(chunk.constants), WriteTables(chunk));
      PutItems(chunk.constants);
      Nest(out, functions, WriteFunctions(chunk.functions), code + WriteCode(chunk.code));
      out := out + functions;
      PutFunctions(chunk.functions);
      CatAssoc(out, code, WriteCode(chunk.code));
      out := out + code;
      PutCode(chunk.code);
    }
  }

  lemma {:induction false} Nest(a: Bytes, b: Bytes, c: Bytes, d: Bytes)
    ensures a + b + c + d == a + (b + (c + d))
  {
  }

  // A method result agrees with the reading function it implements: same value
  // and same unread tail, or the same error.
  ghost predicate Follows<T(!new)>(r: Result<T, FormatError>, spec: Result<Parsed<T>, FormatError>, rest: Bytes) {
    match spec
    case Ok(p) => r == Ok(p.value) && rest == p.rest
    case Err(e) => r == Err(e)
  }

  class Reader {
    const data: Bytes
    var pos: nat

    ghost predicate Valid()
      reads this
    {
      pos <= |data|
    }

    ghost function Rest(): Bytes
      reads this
      requires Valid()
    {
      data[pos..]
    }

    constructor (data: Bytes)
      ensures Valid() && this.data == data && Rest() == data
    {
      this.data := data;
      pos := 0;
    }

    // `take`
    method TakeBytes(n: nat) returns (r: Result<Bytes, FormatError>)
      requires Valid()
      modifies this
      ensures Valid() && Follows(r, Take(old(Rest()), n), Rest())
      ensures pos >= old(pos) && (r.Err? ==> pos == old(pos))
    {
      if |data| - pos < n {
        return Err(Truncated);
      }
      var slice := data[pos..pos + n];
      assert Rest()[..n] == slice && Rest()[n..] == data[pos + n..];
      pos := pos + n;
      return Ok(slice);
    }

    method GetUint(width: nat) returns (r: Result<nat, FormatError>)
      requires Valid()
      modifies this
      ensures Valid() && Follows(r, ReadUint(old(Rest()), width), Rest()) && pos >= old(pos)
    {
      var raw := TakeBytes(width);
      if raw.Err? { return Err(raw.error); }
      return Ok(FromLittleEndian(raw.value));
    }

    method GetCount(max: nat, what: string) returns (r: Result<nat, FormatError>)
      requires Valid()
      modifies this
      ensures Valid() && Follows(r, ReadCount(old(Rest()), max, what), Rest()) && pos >= old(pos)
    {
      Pow256Values();
      var n := GetUint(4);
      if n.Err? { return Err(n.error); }
      if n.value > max { return Err(LimitExceeded(what, n.value)); }
      return n;
    }

    method GetBlob(what: string) returns (r: Result<Bytes, FormatError>)
      requires Valid()
      modifies this
      ensures Valid() && Follows(r, ReadBlob(old(Rest()), what), Rest()) && pos >= old(pos)
    {
      var len := GetCount(MAX_BLOB, what);
      if len.Err? { return Err(len.error); }
      r := TakeBytes(len.value);
    }

    method GetText(what: string) returns (r: Result<string, FormatError>)
      requires Valid()
      modifies this
      ensures Valid() && Follows(r, ReadText(old(Rest()), what), Rest()) && pos >= old(pos)
    {
      var raw := GetBlob(what);
      if raw.Err? { return Err(raw.error); }
      var text := Utf8.Decode(raw.value);
      return if text.None? then Err(BadUtf8) else Ok(text.value);
    }

    method GetI64() returns (r: Result<I64, FormatError>)
      requires Valid()
      modifies this
      ensures Valid() && Follows(r, ReadI64(old(Rest())), Rest()) && pos >= old(pos)
    {
      Pow256Values();
      var n := GetUint(8);
      if n.Err? { return Err(n.error); }
      var u: int := n.value;
      return Ok(if u < 0x8000_0000_0000_0000 then u else u - 0x1_0000_0000_0000_0000);
    }

    method GetKey() returns (r: Result<MapKey, FormatError>)
      requires Valid()
      modifies this
      ensures Valid() && Follows(r, ReadKey(old(Rest())), Rest()) && pos >= old(pos)
    {
      var tag := TakeBytes(1);
      if tag.Err? { return Err(tag.error); }
      if tag.value[0] == 0 {
        var n := GetI64();
        return if n.Err? then Err(n.error) else Ok(IntKey(n.value));
      } else if tag.value[0] == 1 {
        var text := GetText("map key");
        return if text.Err? then Err(text.error) else Ok(StrKey(text.value));
      }
      return Err(UnknownMapKey(tag.value[0]));
    }

    method GetEnvelope() returns (r: Result<Envelope, FormatError>)
      requires Valid()
      modifies this
      ensures Valid() && Follows(r, ReadEnvelope(old(Rest())), Rest()) && pos >= old(pos)
    {
      Pow256Values();
      var sender := GetUint(8);
      if sender.Err? { return Err(sender.error); }
      var replyCap := GetUint(16);
      if replyCap.Err? { return Err(replyCap.error); }
      var requestId := GetUint(8);
      if requestId.Err? { return Err(requestId.error); }
      var tag := GetUint(2);
      if tag.Err? { return Err(tag.error); }
      return Ok(Envelope(sender.value, replyCap.value, requestId.value, tag.value));
    }

    // `read_value`
    method GetValue(trust: TrustLevel, depth: nat, abi: nat) returns (r: Result<Value, FormatError>)
      requires Valid()
      modifies this
      ensures Valid() && Follows(r, ReadValue(old(Rest()), trust, depth, abi), Rest()) && pos >= old(pos)
      decreases |data| - pos, 0
    {
      if depth > MAX_VALUE_DEPTH { return Err(ValueTooNested); }
      var tag := TakeBytes(1);
      if tag.Err? { return Err(tag.error); }
      assert Rest() == old(Rest())[1..];
      Pow256Values();
      match tag.value[0]
      case 0 => return Ok(Unit);
      case 1 =>
        var b := TakeBytes(1);
        if b.Err? { return Err(b.error); }
        if b.value[0] > 1 { return Err(NonCanonicalBool(b.value[0])); }
        return Ok(Bool(b.value[0] == 1));
      case 2 =>
        var i := GetI64();
        return if i.Err? then Err(i.error) else Ok(Int(i.value));
      case 3 =>
        var bits := GetUint(8);
        return if bits.Err? then Err(bits.error) else Ok(Float(bits.value));
      case 4 =>
        if !trust.AllowsAuthorityConstants() { return Err(ForbiddenConstant(ProcessId)); }
        var p := GetUint(8);
        return if p.Err? then Err(p.error) else Ok(Pid(p.value));
      case 5 =>
        if !trust.AllowsAuthorityConstants() { return Err(ForbiddenConstant(MessageKind)); }
        r := GetMsg(trust, depth, abi);
      case 6 =>
        if !trust.AllowsAuthorityConstants() { return Err(ForbiddenConstant(Capability)); }
        var id := GetUint(16);
        return if id.Err? then Err(id.error) else Ok(Cap(id.value));
      case 7 =>
        var text := GetText("str");
        return if text.Err? then Err(text.error) else Ok(Str(text.value));
      case 8 =>
        var data := GetBlob("bytes");
        return if data.Err? then Err(data.error) else Ok(Blob(data.value));
      case 9 =>
        if abi < ABI_VERSION_LISTS { return Err(UnknownValueTag(9)); }
        r := GetList(trust, depth, abi);
      case 10 =>
        if abi < ABI_VERSION_MAPS { return Err(UnknownValueTag(10)); }
        r := GetMap(trust, depth, abi);
      case 11 =>
        if abi < ABI_VERSION_RECORDS { return Err(UnknownValueTag(11)); }
        r := GetRecord(trust, depth, abi);
      case unknown => return Err(UnknownValueTag(unknown));
    }

    method GetMsg(trust: TrustLevel, depth: nat, abi: nat) returns (r: Result<Value, FormatError>)
      requires Valid()
      modifies this
      ensures Valid() && Follows(r, ReadMsg(old(Rest()), trust, depth, abi), Rest()) && pos >= old(pos)
      decreases |data| - pos, 2
    {
      var e := GetEnvelope();
      if e.Err? { return Err(e.error); }
      var payload := GetValue(trust, depth + 1, abi);
      if payload.Err? { return Err(payload.error); }
      return Ok(Msg(Message(e.value.sender, e.value.replyCap, e.value.requestId, e.value.tag, payload.value)));
    }

    method GetList(trust: TrustLevel, depth: nat, abi: nat) returns (r: Result<Value, FormatError>)
      requires Valid()
      modifies this
      ensures Valid() && Follows(r, ReadList(old(Rest()), trust, depth, abi), Rest()) && pos >= old(pos)
      decreases |data| - pos, 2
    {
      var n := GetCount(MAX_LIST_LEN, "list");
      if n.Err? { return Err(n.error); }
      var items := GetItems(n.value, trust, depth + 1, abi);
      if items.Err? { return Err(items.error); }
      var list := TryList(items.value);
      return if list.None? then Err(ValueTooNested) else Ok(list.value);
    }

    method GetRecord(trust: TrustLevel, depth: nat, abi: nat) returns (r: Result<Value, FormatError>)
      requires Valid()
      modifies this
      ensures Valid() && Follows(r, ReadRecord(old(Rest()), trust, depth, abi), Rest()) && pos >= old(pos)
      decreases |data| - pos, 2
    {
      var n := GetCount(MAX_RECORD_LEN, "record");
      if n.Err? { return Err(n.error); }
      var fields := GetItems(n.value, trust, depth + 1, abi);
      if fields.Err? { return Err(fields.error); }
      var record := TryRecord(fields.value);
      return if record.None? then Err(ValueTooNested) else Ok(record.value);
    }

    method GetMap(trust: TrustLevel, depth: nat, abi: nat) returns (r: Result<Value, FormatError>)
      requires Valid()
      modifies this
      ensures Valid() && Follows(r, ReadMap(old(Rest()), trust, depth, abi), Rest()) && pos >= old(pos)
      decreases |data| - pos, 2
    {
      var n := GetCount(MAX_MAP_LEN, "map");
      if n.Err? { return Err(n.error); }
      var entries := GetEntries(n.value, trust, depth + 1, abi);
      if entries.Err? { return Err(entries.error); }
      var dup := MapHasDuplicateKey(entries.value);
      if dup { return Err(DuplicateMapKey); }
      var map_ := TryMap(entries.value);
      return if map_.None? then Err(ValueTooNested) else Ok(map_.value);
    }

    // The item loop of a list or a record.
    method GetItems(n: nat, trust: TrustLevel, depth: nat, abi: nat) returns (r: Result<seq<Value>, FormatError>)
      requires Valid()
      modifies this
      ensures Valid() && Follows(r, ReadItems(old(Rest()), n, trust, depth, abi), Rest()) && pos >= old(pos)
      decreases |data| - pos, 1
    {
      var items: seq<Value> := [];
      ghost var whole := ReadItems(Rest(), n, trust, depth, abi);
      ghost var left := whole;
      PrependNothing(whole);
      var togo := n;
      while togo > 0
        invariant Valid() && old(pos) <= pos
        invariant whole == Prepend(items, left)
        invariant left == ReadItems(Rest(), togo, trust, depth, abi)
      {
        var item;
        item, left := GetNextItem(togo, trust, depth, abi, items, whole, left);
        if item.Err? { return Err(item.error); }
        items, togo := items + [item.value], togo - 1;
      }
      assert whole == Ok(Parsed(items, Rest())) by { NothingLeft(whole, items, Rest()); }
      return Ok(items);
    }

    // One turn of the loop above; `left` is what the specification still has to read.
    method GetNextItem(ghost n: nat, trust: TrustLevel, depth: nat, abi: nat,
                       ghost done: seq<Value>,
                       ghost whole: Result<Parsed<seq<Value>>, FormatError>,
                       ghost left: Result<Parsed<seq<Value>>, FormatError>)
      returns (r: Result<Value, FormatError>, ghost left': Result<Parsed<seq<Value>>, FormatError>)
      requires Valid() && n > 0
      requires left == ReadItems(Rest(), n, trust, depth, abi)
      requires whole == Prepend(done, left)
      modifies this
      ensures Valid() && pos >= old(pos)
      ensures r.Err? ==> whole == Err(r.error)
      ensures r.Ok? ==> whole == Prepend(done + [r.value], left')
      ensures left' == ReadItems(Rest(), n - 1, trust, depth, abi)
      decreases |data| - pos, 1, 0
    {
      ItemsStep(Rest(), n, trust, depth, abi, done);
      r := GetValue(trust, depth, abi);
      left' := ReadItems(Rest(), n - 1, trust, depth, abi);
    }

    method GetEntries(n: nat, trust: TrustLevel, depth: nat, abi: nat) returns (r: Result<seq<Entry>, FormatError>)
      requires Valid()
      modifies this
      ensures Valid() && Follows(r, ReadEntries(old(Rest()), n, trust, depth, abi), Rest()) && pos >= old(pos)
      decreases |data| - pos, 1
    {
      var entries: seq<Entry> := [];
      ghost var whole := ReadEntries(Rest(), n, trust, depth, abi);
      ghost var left := whole;
      PrependNothing(whole);
      var togo := n;
      while togo > 0
        invariant Valid() && old(pos) <= pos
        invariant whole == Prepend(entries, left)
        invariant left == ReadEntries(Rest(), togo, trust, depth, abi)
      {
        var entry;
        entry, left := GetNextEntry(togo, trust, depth, abi, entries, whole, left);
        if entry.Err? { return Err(entry.error); }
        entries, togo := entries + [entry.value], togo - 1;
      }
      assert whole == Ok(Parsed(entries, Rest())) by { NothingLeft(whole, entries, Rest()); }
      return Ok(entries);
    }

    // One turn of the loop above; `left` is what the specification still has to read.
    method GetNextEntry(ghost n: nat, trust: TrustLevel, depth: nat, abi: nat,
                        ghost done: seq<Entry>,
                        ghost whole: Result<Parsed<seq<Entry>>, FormatError>,
                        ghost left: Result<Parsed<seq<Entry>>, FormatError>)
      returns (r: Result<Entry, FormatError>, ghost left': Result<Parsed<seq<Entry>>, FormatError>)
      requires Valid() && n > 0
      requires left == ReadEntries(Rest(), n, trust, depth, abi)
      requires whole == Prepend(done, left)
      modifies this
      ensures Valid() && pos >= old(pos)
      ensures r.Err? ==> whole == Err(r.error)
      ensures r.Ok? ==> whole == Prepend(done + [r.value], left')
      ensures left' == ReadEntries(Rest(), n - 1, trust, depth, abi)
      decreases |data| - pos, 0, 1
    {
      EntriesStep(Rest(), n, trust, depth, abi, done);
      r := GetEntry(trust, depth, abi);
      left' := ReadEntries(Rest(), n - 1, trust, depth, abi);
    }

    method GetEntry(trust: TrustLevel, depth: nat, abi: nat) returns (r: Result<Entry, FormatError>)
      requires Valid()
      modifies this
      ensures Valid() && Follows(r, ReadEntry(old(Rest()), trust, depth, abi), Rest()) && pos >= old(pos)
      decreases |data| - pos, 0, 0
    {
      var key := GetKey();
      if key.Err? { return Err(key.error); }
      var value := GetValue(trust, depth, abi);
      return if value.Err? then Err(value.error) else Ok(Entry(key.value, value.value));
    }

    // `read_string`
    method GetString() returns (r: Result<string, FormatError>)
      requires Valid()
      modifies this
      ensures Valid() && Follows(r, ReadString(old(Rest())), Rest()) && pos >= old(pos)
    {
      var len := GetCount(MAX_NAME, "name");
      if len.Err? { return Err(len.error); }
      var raw := TakeBytes(len.value);
      if raw.Err? { return Err(raw.error); }
      var text := Utf8.Decode(raw.value);
      return if text.None? then Err(BadUtf8) else Ok(text.value);
    }

    method GetFunction() returns (r: Result<FunctionDef, FormatError>)
      requires Valid()
      modifies this
      ensures Valid() && Follows(r, ReadFunction(old(Rest())), Rest()) && pos >= old(pos)
    {
      Pow256Values();
      var name := GetString();
      if name.Err? { return Err(name.error); }
      var entry := GetUint(4);
      if entry.Err? { return Err(entry.error); }
      var arity := TakeBytes(1);
      if arity.Err? { return Err(arity.error); }
      var numRegisters := TakeBytes(1);
      if numRegisters.Err? { return Err(numRegisters.error); }
      return Ok(FunctionDef(name.value, entry.value, arity.value[0], numRegisters.value[0]));
    }

    method GetFunctions(n: nat) returns (r: Result<seq<FunctionDef>, FormatError>)
      requires Valid()
      modifies this
      ensures Valid() && Follows(r, ReadFunctions(old(Rest()), n), Rest()) && pos >= old(pos)
    {
      var functions: seq<FunctionDef> := [];
      ghost var whole := ReadFunctions(Rest(), n);
      ghost var left := whole;
      PrependNothing(whole);
      var togo := n;
      while togo > 0
        invariant Valid() && old(pos) <= pos
        invariant whole == Prepend(functions, left)
        invariant left == ReadFunctions(Rest(), togo)
      {
        var def;
        def, left := GetNextFunction(togo, functions, whole, left);
        if def.Err? { return Err(def.error); }
        functions, togo := functions + [def.value], togo - 1;
      }
      assert whole == Ok(Parsed(functions, Rest())) by { NothingLeft(whole, functions, Rest()); }
      return Ok(functions);
    }

    // One turn of the loop above; `left` is what the specification still has to read.
    method GetNextFunction(
      ghost n: nat, ghost done: seq<FunctionDef>,
      ghost whole: Result<Parsed<seq<FunctionDef>>, FormatError>,
      ghost left: Result<Parsed<seq<FunctionDef>>, FormatError>)
      returns (r: Result<FunctionDef, FormatError>, ghost left': Result<Parsed<seq<FunctionDef>>, FormatError>)
      requires Valid() && n > 0
      requires left == ReadFunctions(Rest(), n)
      requires whole == Prepend(done, left)
      modifies this
      ensures Valid() && pos >= old(pos)
      ensures r.Err? ==> whole == Err(r.error)
      ensures r.Ok? ==> whole == Prepend(done + [r.value], left')
      ensures left' == ReadFunctions(Rest(), n - 1)
    {
      FunctionsStep(Rest(), n, done);
      r := GetFunction();
      left' := ReadFunctions(Rest(), n - 1);
    }

    method GetInstruction(at: nat) returns (r: Result<Instruction, FormatError>)
      requires Valid()
      modifies this
      ensures Valid() && Follows(r, ReadInstruction(old(Rest()), at), Rest()) && pos >= old(pos)
    {
      Pow256Values();
      var op := TakeBytes(1);
      if op.Err? { return Err(op.error); }
      if FromU8(op.value[0]).None? { return Err(UnknownOpcode(at, op.value[0])); }
      var abc := TakeBytes(3);
      if abc.Err? { return Err(abc.error); }
      assert Rest() == old(Rest())[4..];
      var n := GetUint(4);
      if n.Err? { return Err(n.error); }
      var u: int := n.value;
      var imm := if u < 0x8000_0000 then u else u - 0x1_0000_0000;
      return Ok(Instruction(FromU8(op.value[0]).value, abc.value[0], abc.value[1], abc.value[2], imm));
    }

    method GetCode(n: nat) returns (r: Result<seq<Instruction>, FormatError>)
      requires Valid()
      modifies this
      ensures Valid() && Follows(r, ReadCode(old(Rest()), n, 0), Rest()) && pos >= old(pos)
    {
      var code: seq<Instruction> := [];
      ghost var whole := ReadCode(Rest(), n, 0);
      PrependNothing(whole);
      for at := 0 to n
        invariant Valid() && old(pos) <= pos
        invariant whole == Prepend(code, ReadCode(Rest(), n - at, at))
      {
        ghost var head := ReadInstruction(Rest(), at);
        CodeStep(Rest(), n - at, at, code);
        var instr := GetInstruction(at);
        if instr.Err? { return Err(instr.error); }
        assert head == Ok(Parsed(instr.value, Rest()));
        code := code + [instr.value];
      }
      assert code + [] == code;
      return Ok(code);
    }

    // The function table, then the code.
    method GetTables(name: string, constants: seq<Value>) returns (r: Result<Chunk, FormatError>)
      requires Valid()
      modifies this
      ensures Valid() && r == ReadTables(old(Rest()), name, constants)
    {
      var n := GetCount(MAX_ITEMS, "functions");
      if n.Err? { return Err(n.error); }
      var functions := GetFunctions(n.value);
      if functions.Err? { return Err(functions.error); }
      r := GetBody(name, constants, functions.value);
    }

    // The code and the end of the buffer.
    method GetBody(name: string, constants: seq<Value>, functions: seq<FunctionDef>)
      returns (r: Result<Chunk, FormatError>)
      requires Valid()
      modifies this
      ensures Valid() && r == ReadBody(old(Rest()), name, constants, functions)
    {
      var n := GetCount(MAX_ITEMS, "code");
      if n.Err? { return Err(n.error); }
      var code := GetCode(n.value);
      if code.Err? { return Err(code.error); }
      if pos != |data| { return Err(Trailing(|data| - pos)); }
      return Ok(Chunk(name, constants, code.value, functions));
    }
  }

  // `decode_with`, driving one reader through the whole buffer.
  method DecodeModule(bytes: Bytes, trust: TrustLevel) returns (r: Result<Chunk, FormatError>)
    ensures r == DecodeWith(bytes, trust)
  {
    Pow256Values();
    var reader := new Reader(bytes);
    var magic := reader.TakeBytes(4);
    if magic.Err? { return Err(magic.error); }
    if magic.value != MAGIC { return Err(BadMagic(magic.value)); }
    var abi := reader.GetUint(4);
    if abi.Err? { return Err(abi.error); }
    if !KnownAbi(abi.value) { return Err(UnsupportedAbi(abi.value)); }
    var name := reader.GetString();
    if name.Err? { return Err(name.error); }
    var n := reader.GetCount(MAX_ITEMS, "constants");
    if n.Err? { return Err(n.error); }
    var constants := reader.GetItems(n.value, trust, 0, abi.value);
    if constants.Err? { return Err(constants.error); }
    r := reader.GetTables(name.value, constants.value);
  }

  // Items already read, in front of what a reading function still returns.
  ghost function Prepend<T>(done: seq<T>, r: Result<Parsed<seq<T>>, FormatError>): Result<Parsed<seq<T>>, FormatError> {
    match r
    case Ok(p) => Ok(Parsed(done + p.value, p.rest))
    case Err(e) => Err(e)
  }

  lemma {:induction false} PrependNothing<T>(r: Result<Parsed<seq<T>>, FormatError>)
    ensures Prepend([], r) == r
  {
    if r.Ok? { assert [] + r.value.value == r.value.value; }
  }

  lemma {:induction false} NothingLeft<T>(whole: Result<Parsed<seq<T>>, FormatError>, done: seq<T>, rest: Bytes)
    requires whole == Prepend(done, Ok(Parsed([], rest)))
    ensures whole == Ok(Parsed(done, rest))
  {
    assert done + [] == done;
  }

  // Reading one more item moves it from the unread part to the items in hand.
  lemma {:induction false} ItemsStep(bs: Bytes, n: nat, trust: TrustLevel, depth: nat, abi: nat, done: seq<Value>)
    requires n > 0
    ensures
      match ReadValue(bs, trust, depth, abi)
      case Err(e) => Prepend(done, ReadItems(bs, n, trust, depth, abi)) == Err(e)
      case Ok(head) =>
        Prepend(done, ReadItems(bs, n, trust, depth, abi))
        == Prepend(done + [head.value], ReadItems(head.rest, n - 1, trust, depth, abi))
  {
    var head := ReadValue(bs, trust, depth, abi);
    if head.Ok? && ReadItems(head.value.rest, n - 1, trust, depth, abi).Ok? {
      CatAssoc(done, [head.value.value], ReadItems(head.value.rest, n - 1, trust, depth, abi).value.value);
    }
  }

  lemma {:induction false} EntriesStep(bs: Bytes, n: nat, trust: TrustLevel, depth: nat, abi: nat, done: seq<Entry>)
    requires n > 0
    ensures
      match ReadEntry(bs, trust, depth, abi)
      case Err(e) => Prepend(done, ReadEntries(bs, n, trust, depth, abi)) == Err(e)
      case Ok(head) =>
        Prepend(done, ReadEntries(bs, n, trust, depth, abi))
        == Prepend(done + [head.value], ReadEntries(head.rest, n - 1, trust, depth, abi))
  {
    var head := ReadEntry(bs, trust, depth, abi);
    if head.Ok? && ReadEntries(head.value.rest, n - 1, trust, depth, abi).Ok? {
      CatAssoc(done, [head.value.value], ReadEntries(head.value.rest, n - 1, trust, depth, abi).value.value);
    }
  }

  lemma {:induction false} FunctionsStep(bs: Bytes, n: nat, done: seq<FunctionDef>)
    requires n > 0
    ensures
      match ReadFunction(bs)
      case Err(e) => Prepend(done, ReadFunctions(bs, n)) == Err(e)
      case Ok(head) =>
        Prepend(done, ReadFunctions(bs, n)) == Prepend(done + [head.value], ReadFunctions(head.rest, n - 1))
  {
    var head := ReadFunction(bs);
    if head.Ok? && ReadFunctions(head.value.rest, n - 1).Ok? {
      CatAssoc(done, [head.value.value], ReadFunctions(head.value.rest, n - 1).value.value);
    }
  }

  lemma {:induction false} CodeStep(bs: Bytes, n: nat, at: nat, done: seq<Instruction>)
    requires n > 0
    ensures
      match ReadInstruction(bs, at)
      case Err(e) => Prepend(done, ReadCode(bs, n, at)) == Err(e)
      case Ok(head) =>
        Prepend(done, ReadCode(bs, n, at)) == Prepend(done + [head.value], ReadCode(head.rest, n - 1, at + 1))
  {
    var head := ReadInstruction(bs, at);
    if head.Ok? && ReadCode(head.value.rest, n - 1, at + 1).Ok? {
      CatAssoc(done, [head.value.value], ReadCode(head.value.rest, n - 1, at + 1).value.value);
    }
  }
}
